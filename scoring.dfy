/**
 * The login and submit handlers as steps on the team collection: each takes the teams
 * before the request and gives the response and the teams after it. The store class in
 * module Server performs exactly these steps in place.
 */
module Scoring {
  import opened Wrappers
  import opened Seqs
  import opened Answers
  import opened Models
  import opened Catalog

  /** A response together with the team collection after the request. */
  datatype Step<T> = Step(outcome: T, teams: seq<Team>)

  /** `TeamModel.findOne({ email })`. */
  function FindTeamByEmail(teams: seq<Team>, email: string): (r: Option<nat>)
    ensures r.Some? ==> r.value < |teams| && teams[r.value].email == email
    ensures r.Some? ==> forall j :: 0 <= j < r.value ==> teams[j].email != email
    ensures r.None? <==> forall j :: 0 <= j < |teams| ==> teams[j].email != email
  {
    FirstIndex(teams, (t: Team) => t.email == email)
  }

  /** `TeamModel.findById(teamId)`. */
  function FindTeam(teams: seq<Team>, id: TeamId): (r: Option<nat>)
    ensures r.Some? ==> r.value < |teams| && teams[r.value].id == id
    ensures r.Some? ==> forall j :: 0 <= j < r.value ==> teams[j].id != id
    ensures r.None? <==> forall j :: 0 <= j < |teams| ==> teams[j].id != id
  {
    FirstIndex(teams, (t: Team) => t.id == id)
  }

  lemma FindTeamUnique(teams: seq<Team>, k: nat)
    requires UniqueTeamIds(teams) && k < |teams|
    ensures FindTeam(teams, teams[k].id) == Some(k)
  {
  }

  lemma FindTeamByEmailUnique(teams: seq<Team>, k: nat)
    requires UniqueEmails(teams) && k < |teams|
    ensures FindTeamByEmail(teams, teams[k].email) == Some(k)
  {
  }

  // ---------------------------------------------------------------- invariant

  /** What the award-once rule keeps true of a team: no quest credited twice, only existing
      quests credited, and the score is the sum of the points of the credited quests. */
  predicate TeamConsistent(quests: seq<Quest>, t: Team) {
    && NoDuplicates(t.solvedIds)
    && (forall j :: 0 <= j < |t.solvedIds| ==> FindQuest(quests, t.solvedIds[j]).Some?)
    && t.score == SumPoints(quests, t.solvedIds)
  }

  /** The store invariant: both collections meet their schemas and unique keys, every team is
      consistent with the catalog, and every team id is below the next id to hand out. */
  predicate StoreValid(quests: seq<Quest>, teams: seq<Team>, nextId: TeamId) {
    && CatalogValid(quests)
    && TeamsValid(teams)
    && (forall i :: 0 <= i < |teams| ==> TeamConsistent(quests, teams[i]))
    && (forall i :: 0 <= i < |teams| ==> teams[i].id < nextId)
  }

  /** The fields no handler ever changes. */
  predicate SameIdentity(a: Team, b: Team) {
    a.id == b.id && a.name == b.name && a.email == b.email && a.accessCode == b.accessCode
  }

  // ---------------------------------------------------------------- login

  datatype LoginOutcome = LoggedIn(team: Team) | LoginFailed

  /**
   * `POST /api/teams/login`: the team with this email, unchanged if there is one;
   * otherwise a new team, which `save()` validates against `schema` and either stores
   * and returns or rejects with a server error.
   */
  function Login(teams: seq<Team>, name: string, email: string, freshId: TeamId, schema: TeamSchema): (r: Step<LoginOutcome>)
    ensures r.teams == teams || r.teams == teams + [NewTeam(freshId, name, email)]
    ensures r.outcome.LoggedIn? ==> r.outcome.team.email == email
  {
    match FindTeamByEmail(teams, email)
    case Some(k) => Step(LoggedIn(teams[k]), teams)
    case None =>
      var t := NewTeam(freshId, name, email);
      if TeamDocValid(schema, t) then Step(LoggedIn(t), teams + [t]) else Step(LoginFailed, teams)
  }

  /** A request body field: the JSON value, or nothing when the key is absent. */
  function OrEmpty(field: Option<string>): string {
    if field.Some? then field.value else ""
  }

  /**
   * The login handler on the request body as sent. An absent `name` fails `required` like an
   * empty one. An absent `email` drops out of the `findOne({ email })` filter, which then
   * matches any team: the model takes the first one, and logs in as it. Only on an empty
   * collection does the handler go on to create a team, which fails validation.
   */
  function LoginBody(teams: seq<Team>, name: Option<string>, email: Option<string>, freshId: TeamId, schema: TeamSchema): (r: Step<LoginOutcome>)
    ensures r.teams == teams || (email.Some? && r.teams == teams + [NewTeam(freshId, OrEmpty(name), email.value)])
  {
    match email
    case None => if teams != [] then Step(LoggedIn(teams[0]), teams) else Step(LoginFailed, teams)
    case Some(e) => Login(teams, OrEmpty(name), e, freshId, schema)
  }

  /** The login handler with a guard that refuses a body without `email` before the lookup. */
  function CheckedLoginBody(teams: seq<Team>, name: Option<string>, email: Option<string>, freshId: TeamId, schema: TeamSchema): (r: Step<LoginOutcome>)
    ensures email.None? ==> r == Step(LoginFailed, teams)
    ensures email.Some? ==> r == LoginBody(teams, name, email, freshId, schema)
  {
    if email.None? then Step(LoginFailed, teams) else LoginBody(teams, name, email, freshId, schema)
  }

  /** As written, a body without `email` logs in as a team already stored, whose email the
      caller never gave; with two teams, the one it picks is not the only one it could be. */
  lemma AbsentEmailLogsInAsStoredTeam(teams: seq<Team>, name: Option<string>, freshId: TeamId, schema: TeamSchema)
    requires teams != []
    ensures var r := LoginBody(teams, name, None, freshId, schema);
      r.teams == teams && r.outcome.LoggedIn? && r.outcome.team in teams
  {
  }

  /** With the guard, a body without `email` never logs in and changes nothing; a body with
      one behaves as the handler does. */
  lemma CheckedLoginRefusesAbsentEmail(teams: seq<Team>, name: Option<string>, email: Option<string>, freshId: TeamId, schema: TeamSchema)
    ensures var r := CheckedLoginBody(teams, name, email, freshId, schema);
      (r.outcome.LoggedIn? ==> email.Some? && r.outcome.team.email == email.value)
      && (email.None? ==> r.teams == teams)
  {
  }

  /** An email some team has logs in as that team and changes nothing, under either schema. */
  lemma LoginExistingEmail(teams: seq<Team>, name: string, freshId: TeamId, schema: TeamSchema, k: nat)
    requires UniqueEmails(teams) && k < |teams|
    ensures Login(teams, name, teams[k].email, freshId, schema) == Step(LoggedIn(teams[k]), teams)
  {
    FindTeamByEmailUnique(teams, k);
  }

  /** An email no team has creates exactly one team, with the given name and email, score 0,
      no solved quests and no access code, and returns it. */
  lemma LoginNewEmail(teams: seq<Team>, name: string, email: string, freshId: TeamId)
    requires forall j :: 0 <= j < |teams| ==> teams[j].email != email
    requires name != "" && email != ""
    ensures var r := Login(teams, name, email, freshId, AccessCodeOptional);
      && r.teams == teams + [Team(freshId, name, None, email, 0, [])]
      && r.outcome == LoggedIn(Team(freshId, name, None, email, 0, []))
  {
  }

  /** A new team with an empty name or email fails `save()` validation: a server error, and nothing stored. */
  lemma LoginMissingField(teams: seq<Team>, name: string, email: string, freshId: TeamId, schema: TeamSchema)
    requires forall j :: 0 <= j < |teams| ==> teams[j].email != email
    requires name == "" || email == ""
    ensures Login(teams, name, email, freshId, schema) == Step(LoginFailed, teams)
  {
  }

  /**
   * As the schema is declared, `accessCode` is required, and the login handler never sets
   * it: every login with an email no team has fails validation and stores nothing.
   */
  lemma LoginAsDeclaredRejectsNewEmail(teams: seq<Team>, name: string, email: string, freshId: TeamId)
    requires forall j :: 0 <= j < |teams| ==> teams[j].email != email
    ensures Login(teams, name, email, freshId, AsDeclared) == Step(LoginFailed, teams)
  {
  }

  /** Logging in again with the same email returns the same team and changes nothing,
      whatever name comes with it. */
  lemma LoginIdempotent(teams: seq<Team>, name: string, name': string, email: string, freshId: TeamId, freshId': TeamId)
    requires UniqueEmails(teams)
    ensures var r := Login(teams, name, email, freshId, AccessCodeOptional);
      r.outcome.LoggedIn? ==> Login(r.teams, name', email, freshId', AccessCodeOptional) == r
  {
    var r := Login(teams, name, email, freshId, AccessCodeOptional);
    if r.outcome.LoggedIn? {
      match FindTeamByEmail(teams, email)
      case Some(k) =>
        LoginExistingEmail(teams, name', freshId', AccessCodeOptional, k);
      case None =>
        var t := NewTeam(freshId, name, email);
        assert r.teams == teams + [t];
        assert r.teams[|teams|] == t;
        assert forall j :: 0 <= j < |teams| ==> r.teams[j] == teams[j];
        assert UniqueEmails(r.teams);
        LoginExistingEmail(r.teams, name', freshId', AccessCodeOptional, |teams|);
    }
  }

  /** Login keeps the store invariant, handing out `nextId` when it creates a team. */
  lemma LoginPreservesValid(quests: seq<Quest>, teams: seq<Team>, name: string, email: string, nextId: TeamId)
    requires StoreValid(quests, teams, nextId)
    ensures var r := Login(teams, name, email, nextId, AccessCodeOptional);
      StoreValid(quests, r.teams, if |r.teams| == |teams| then nextId else nextId + 1)
  {
    var r := Login(teams, name, email, nextId, AccessCodeOptional);
    if |r.teams| != |teams| {
      var t := NewTeam(nextId, name, email);
      assert r.teams == teams + [t];
      assert FindTeamByEmail(teams, email).None?;
      assert TeamConsistent(quests, t);
      assert forall j :: 0 <= j < |teams| ==> r.teams[j] == teams[j];
      assert r.teams[|teams|] == t;
    }
  }

  // ---------------------------------------------------------------- submit

  /** The responses of `POST /api/quests/:id/submit`: `Quest not found`, `Team not found`,
      `Quest already solved`, `Incorrect answer`, or success with the points and the solved ids. */
  datatype SubmitOutcome =
    | QuestNotFound
    | TeamNotFound
    | AlreadySolved
    | IncorrectAnswer
    | Solved(points: int, solvedIds: seq<QuestId>)

  /** The team after `solvedIds.push(id)` and `score += points`. */
  function Award(t: Team, id: QuestId, points: int): (r: Team)
    ensures SameIdentity(r, t)
  {
    t.(solvedIds := t.solvedIds + [id], score := t.score + points)
  }

  /** The submit handler, taken as one atomic step. */
  function Submit(quests: seq<Quest>, teams: seq<Team>, teamId: TeamId, questId: QuestId, answer: string): (r: Step<SubmitOutcome>)
    ensures |r.teams| == |teams|
    ensures !r.outcome.Solved? ==> r.teams == teams
    ensures forall i :: 0 <= i < |teams| ==> SameIdentity(r.teams[i], teams[i])
  {
    match FindQuest(quests, questId)
    case None => Step(QuestNotFound, teams)
    case Some(qk) =>
      match FindTeam(teams, teamId)
      case None => Step(TeamNotFound, teams)
      case Some(tk) =>
        if questId in teams[tk].solvedIds then Step(AlreadySolved, teams)
        else if AnswerMatches(answer, quests[qk].answer) then
          var t := Award(teams[tk], questId, quests[qk].points);
          Step(Solved(quests[qk].points, t.solvedIds), teams[tk := t])
        else Step(IncorrectAnswer, teams)
  }

  /** An unknown quest id is reported before the team is looked up, and nothing changes. */
  lemma SubmitUnknownQuest(quests: seq<Quest>, teams: seq<Team>, teamId: TeamId, questId: QuestId, answer: string)
    requires forall j :: 0 <= j < |quests| ==> quests[j].id != questId
    ensures Submit(quests, teams, teamId, questId, answer) == Step(QuestNotFound, teams)
  {
  }

  /** A known quest but an unknown team id: not found, and nothing changes. */
  lemma SubmitUnknownTeam(quests: seq<Quest>, teams: seq<Team>, teamId: TeamId, qk: nat, answer: string)
    requires qk < |quests|
    requires forall j :: 0 <= j < |teams| ==> teams[j].id != teamId
    ensures Submit(quests, teams, teamId, quests[qk].id, answer) == Step(TeamNotFound, teams)
  {
  }

  /** A quest the team has already solved: `Quest already solved`, whatever the answer, and nothing changes. */
  lemma SubmitAlreadySolved(quests: seq<Quest>, teams: seq<Team>, tk: nat, questId: QuestId, answer: string)
    requires UniqueTeamIds(teams) && tk < |teams|
    requires questId in teams[tk].solvedIds
    requires exists j :: 0 <= j < |quests| && quests[j].id == questId
    ensures Submit(quests, teams, teams[tk].id, questId, answer) == Step(AlreadySolved, teams)
  {
    FindTeamUnique(teams, tk);
  }

  /** A wrong answer to an unsolved quest: `Incorrect answer`, and nothing changes. */
  lemma SubmitIncorrect(quests: seq<Quest>, teams: seq<Team>, tk: nat, qk: nat, answer: string)
    requires UniqueTeamIds(teams) && tk < |teams|
    requires UniqueQuestIds(quests) && qk < |quests|
    requires quests[qk].id !in teams[tk].solvedIds
    requires !AnswerMatches(answer, quests[qk].answer)
    ensures Submit(quests, teams, teams[tk].id, quests[qk].id, answer) == Step(IncorrectAnswer, teams)
  {
    FindTeamUnique(teams, tk);
    FindQuestUnique(quests, qk);
  }

  /**
   * A right answer to an unsolved quest: the quest id is appended once to the team's
   * `solvedIds`, its score grows by exactly the quest's points, no other team and no other
   * field changes, and the response carries the points and the new `solvedIds`.
   */
  lemma SubmitCorrect(quests: seq<Quest>, teams: seq<Team>, tk: nat, qk: nat, answer: string)
    requires UniqueTeamIds(teams) && tk < |teams|
    requires UniqueQuestIds(quests) && qk < |quests|
    requires quests[qk].id !in teams[tk].solvedIds
    requires AnswerMatches(answer, quests[qk].answer)
    ensures var r := Submit(quests, teams, teams[tk].id, quests[qk].id, answer);
      && r.outcome == Solved(quests[qk].points, teams[tk].solvedIds + [quests[qk].id])
      && |r.teams| == |teams|
      && r.teams[tk].solvedIds == teams[tk].solvedIds + [quests[qk].id]
      && r.teams[tk].score == teams[tk].score + quests[qk].points
      && SameIdentity(r.teams[tk], teams[tk])
      && forall j :: 0 <= j < |teams| && j != tk ==> r.teams[j] == teams[j]
  {
    FindTeamUnique(teams, tk);
    FindQuestUnique(quests, qk);
  }

  /** Submit touches no team but the one with the submitting id. */
  lemma SubmitChangesOnlyThatTeam(quests: seq<Quest>, teams: seq<Team>, teamId: TeamId, questId: QuestId, answer: string)
    ensures var r := Submit(quests, teams, teamId, questId, answer);
      forall i :: 0 <= i < |teams| && teams[i].id != teamId ==> r.teams[i] == teams[i]
  {
  }

  /** Crediting a team for a quest it has not solved keeps it consistent with the catalog. */
  lemma AwardKeepsConsistent(quests: seq<Quest>, t: Team, qk: nat)
    requires UniqueQuestIds(quests) && qk < |quests|
    requires TeamConsistent(quests, t) && quests[qk].id !in t.solvedIds
    ensures TeamConsistent(quests, Award(t, quests[qk].id, quests[qk].points))
  {
    var id := quests[qk].id;
    var t' := Award(t, id, quests[qk].points);
    NoDuplicatesAppend(t.solvedIds, id);
    SumPointsAppend(quests, t.solvedIds, id);
    FindQuestUnique(quests, qk);
    forall j | 0 <= j < |t'.solvedIds| ensures FindQuest(quests, t'.solvedIds[j]).Some? {
      if j < |t.solvedIds| { assert t'.solvedIds[j] == t.solvedIds[j]; }
    }
  }

  /** Replacing one team by a consistent team with the same identity keeps the store invariant. */
  lemma ReplaceKeepsValid(quests: seq<Quest>, teams: seq<Team>, nextId: TeamId, tk: nat, t: Team)
    requires StoreValid(quests, teams, nextId) && tk < |teams|
    requires SameIdentity(t, teams[tk]) && TeamConsistent(quests, t)
    ensures StoreValid(quests, teams[tk := t], nextId)
  {
  }

  /** Submit keeps the store invariant: in particular no quest is credited twice and every
      score stays the sum of the points of the team's solved quests. */
  lemma SubmitPreservesValid(quests: seq<Quest>, teams: seq<Team>, nextId: TeamId, teamId: TeamId, questId: QuestId, answer: string)
    requires StoreValid(quests, teams, nextId)
    ensures StoreValid(quests, Submit(quests, teams, teamId, questId, answer).teams, nextId)
  {
    var r := Submit(quests, teams, teamId, questId, answer);
    if r.outcome.Solved? {
      var qk := FindQuest(quests, questId).value;
      var tk := FindTeam(teams, teamId).value;
      var t := Award(teams[tk], questId, quests[qk].points);
      assert r.teams == teams[tk := t];
      AwardKeepsConsistent(quests, teams[tk], qk);
      ReplaceKeepsValid(quests, teams, nextId, tk, t);
    }
  }

  /** At most one award per team and quest: once a submission has been credited, every later
      submission of that quest by that team, with any answer, is `Quest already solved`. */
  lemma AwardAtMostOnce(quests: seq<Quest>, teams: seq<Team>, teamId: TeamId, questId: QuestId, answer: string, answer': string)
    ensures var r := Submit(quests, teams, teamId, questId, answer);
      r.outcome.Solved? ==> Submit(quests, r.teams, teamId, questId, answer') == Step(AlreadySolved, r.teams)
  {
    var r := Submit(quests, teams, teamId, questId, answer);
    if r.outcome.Solved? {
      var tk := FindTeam(teams, teamId).value;
      assert forall j :: 0 <= j < |teams| ==> r.teams[j].id == teams[j].id;
      assert FindTeam(r.teams, teamId) == Some(tk) by {
        assert forall j :: 0 <= j < tk ==> r.teams[j].id != teamId;
      }
      assert questId in r.teams[tk].solvedIds by {
        assert r.teams[tk].solvedIds == teams[tk].solvedIds + [questId];
        assert r.teams[tk].solvedIds[|teams[tk].solvedIds|] == questId;
      }
    }
  }

  /** Submitting the same request a second time changes nothing more than the first did. */
  lemma SubmitIdempotent(quests: seq<Quest>, teams: seq<Team>, teamId: TeamId, questId: QuestId, answer: string)
    ensures var r := Submit(quests, teams, teamId, questId, answer);
      Submit(quests, r.teams, teamId, questId, answer).teams == r.teams
  {
    AwardAtMostOnce(quests, teams, teamId, questId, answer, answer);
  }

  /** The teams after the same submission has been handled `n` times in a row. */
  function Resubmit(quests: seq<Quest>, teams: seq<Team>, teamId: TeamId, questId: QuestId, answer: string, n: nat): seq<Team>
    decreases n
  {
    if n == 0 then teams
    else Resubmit(quests, Submit(quests, teams, teamId, questId, answer).teams, teamId, questId, answer, n - 1)
  }

  /** Any number N >= 1 of identical submissions, handled one after the other, has the effect of one:
      a correct answer adds the quest's points once and its id once. */
  lemma {:induction false} RepeatedSubmissionAwardsOnce(quests: seq<Quest>, teams: seq<Team>, teamId: TeamId, questId: QuestId, answer: string, n: nat)
    requires n >= 1
    ensures Resubmit(quests, teams, teamId, questId, answer, n) == Submit(quests, teams, teamId, questId, answer).teams
    decreases n
  {
    var once := Submit(quests, teams, teamId, questId, answer).teams;
    if n > 1 {
      SubmitIdempotent(quests, teams, teamId, questId, answer);
      RepeatedSubmissionAwardsOnce(quests, once, teamId, questId, answer, n - 1);
    }
  }

  /** Solved is terminal and scores never fall: no submission removes a solved id, and with no
      negative point values no score decreases. */
  lemma SubmitOnlyGrows(quests: seq<Quest>, teams: seq<Team>, teamId: TeamId, questId: QuestId, answer: string)
    ensures var r := Submit(quests, teams, teamId, questId, answer);
      forall i :: 0 <= i < |teams| ==> teams[i].solvedIds <= r.teams[i].solvedIds
    ensures (forall k :: 0 <= k < |quests| ==> quests[k].points >= 0) ==>
      var r := Submit(quests, teams, teamId, questId, answer);
      forall i :: 0 <= i < |teams| ==> teams[i].score <= r.teams[i].score
  {
  }

  // ---------------------------------------------------------------- histories

  /** A request that changes the team collection. */
  datatype Request =
    | LoginRequest(name: string, email: string)
    | SubmitRequest(teamId: TeamId, questId: QuestId, answer: string)

  /** The team collection and next id after handling `requests` one at a time. */
  function Run(quests: seq<Quest>, teams: seq<Team>, nextId: TeamId, requests: seq<Request>): (TeamId, seq<Team>)
    decreases |requests|
  {
    if requests == [] then (nextId, teams)
    else match requests[0]
      case LoginRequest(name, email) =>
        var r := Login(teams, name, email, nextId, AccessCodeOptional);
        Run(quests, r.teams, if |r.teams| == |teams| then nextId else nextId + 1, requests[1..])
      case SubmitRequest(teamId, questId, answer) =>
        Run(quests, Submit(quests, teams, teamId, questId, answer).teams, nextId, requests[1..])
  }

  /**
   * Over any sequential history of logins and submissions the store invariant holds: emails
   * stay unique, no team is credited twice for a quest, and every score is the sum of the
   * points of the team's solved quests.
   */
  lemma {:induction false} RunPreservesValid(quests: seq<Quest>, teams: seq<Team>, nextId: TeamId, requests: seq<Request>)
    requires StoreValid(quests, teams, nextId)
    ensures var (n, ts) := Run(quests, teams, nextId, requests); StoreValid(quests, ts, n)
    decreases |requests|
  {
    if requests != [] {
      match requests[0]
      case LoginRequest(name, email) =>
        var r := Login(teams, name, email, nextId, AccessCodeOptional);
        LoginPreservesValid(quests, teams, name, email, nextId);
        RunPreservesValid(quests, r.teams, if |r.teams| == |teams| then nextId else nextId + 1, requests[1..]);
      case SubmitRequest(teamId, questId, answer) =>
        SubmitPreservesValid(quests, teams, nextId, teamId, questId, answer);
        RunPreservesValid(quests, Submit(quests, teams, teamId, questId, answer).teams, nextId, requests[1..]);
    }
  }

  /** Over any history, the team at position `tk` keeps its place and its id, and its solved
      ids only grow. */
  lemma {:induction false} RunKeepsSolved(quests: seq<Quest>, teams: seq<Team>, nextId: TeamId, requests: seq<Request>, tk: nat)
    requires StoreValid(quests, teams, nextId) && tk < |teams|
    ensures var ts := Run(quests, teams, nextId, requests).1;
      tk < |ts| && ts[tk].id == teams[tk].id && teams[tk].solvedIds <= ts[tk].solvedIds
    decreases |requests|
  {
    if requests != [] {
      match requests[0]
      case LoginRequest(name, email) =>
        var r := Login(teams, name, email, nextId, AccessCodeOptional);
        LoginPreservesValid(quests, teams, name, email, nextId);
        assert r.teams[tk] == teams[tk];
        RunKeepsSolved(quests, r.teams, if |r.teams| == |teams| then nextId else nextId + 1, requests[1..], tk);
      case SubmitRequest(teamId, questId, answer) =>
        var ts := Submit(quests, teams, teamId, questId, answer).teams;
        SubmitPreservesValid(quests, teams, nextId, teamId, questId, answer);
        SubmitOnlyGrows(quests, teams, teamId, questId, answer);
        RunKeepsSolved(quests, ts, nextId, requests[1..], tk);
    }
  }

  /**
   * At most one award per team and quest, across histories: once a team has solved a quest,
   * after any sequence of logins and submissions a submission of that quest by that team,
   * with any answer, is `Quest already solved` and changes nothing.
   */
  lemma SolvedStaysSolved(quests: seq<Quest>, teams: seq<Team>, nextId: TeamId, requests: seq<Request>,
                          tk: nat, questId: QuestId, answer: string)
    requires StoreValid(quests, teams, nextId) && tk < |teams|
    requires questId in teams[tk].solvedIds
    ensures var ts := Run(quests, teams, nextId, requests).1;
      Submit(quests, ts, teams[tk].id, questId, answer) == Step(AlreadySolved, ts)
  {
    var ts := Run(quests, teams, nextId, requests).1;
    RunPreservesValid(quests, teams, nextId, requests);
    RunKeepsSolved(quests, teams, nextId, requests, tk);
    var j :| 0 <= j < |teams[tk].solvedIds| && teams[tk].solvedIds[j] == questId;
    assert ts[tk].solvedIds[j] == questId;
    SubmitAlreadySolved(quests, ts, tk, questId, answer);
  }
}
