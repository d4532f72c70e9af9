// The server's mutable state and its request handlers, each proved against the pure step in
// Scoring that specifies it.
module Server {
  import opened Wrappers
  import opened Models
  import opened Catalog
  import opened Auth
  import opened Scoring
  import Answers

  /** A response behind the token middleware: refused with the middleware's verdict, or the
      handler's own result. */
  datatype Guarded<T> = Denied(reason: AuthResult) | Handled(value: T)

  /** An id above every team id in `teams`, the first one the store may hand out. */
  function IdBound(teams: seq<Team>): (m: TeamId)
    ensures forall i :: 0 <= i < |teams| ==> teams[i].id < m
    ensures m > 0 ==> exists i :: 0 <= i < |teams| && teams[i].id == m - 1
  {
    if teams == [] then 0
    else
      var rest := IdBound(teams[1..]);
      assert forall i :: 1 <= i < |teams| ==> teams[i] == teams[1..][i - 1];
      if teams[0].id < rest then
        assert exists i :: 1 <= i < |teams| && teams[i].id == rest - 1;
        rest
      else
        assert teams[0].id == teams[0].id + 1 - 1;
        teams[0].id + 1
  }

  /**
   * `GET /api/quests`: behind the middleware, every quest with its answer projected away.
   */
  function GuardedQuests(quests: seq<Quest>, header: Option<string>, verify: string -> Option<Claims>): (r: Guarded<seq<PublicQuest>>)
    ensures r.Handled? <==> Authenticate(header, verify).Authenticated?
    ensures r.Denied? ==> r.reason == Authenticate(header, verify)
    ensures r.Handled? ==> |r.value| == |quests| && forall i :: 0 <= i < |quests| ==> r.value[i] == Elide(quests[i])
  {
    var auth := Authenticate(header, verify);
    if auth.Authenticated? then Handled(ListQuests(quests)) else Denied(auth)
  }

  /** The team and quest collections as the database holds them. The quest catalog is only
      read by the handlers; teams are created by login and updated in place by submit. */
  class Store {
    const quests: seq<Quest>
    var teams: seq<Team>
    var nextId: TeamId

    predicate Valid()
      reads this
    {
      StoreValid(quests, teams, nextId)
    }

    /** A store over a seeded catalog and team collection that already meet the invariant. */
    constructor (quests: seq<Quest>, teams: seq<Team>)
      requires CatalogValid(quests) && TeamsValid(teams)
      requires forall i :: 0 <= i < |teams| ==> TeamConsistent(quests, teams[i])
      ensures Valid()
      ensures this.quests == quests && this.teams == teams && nextId == IdBound(teams)
    {
      this.quests := quests;
      this.teams := teams;
      this.nextId := IdBound(teams);
    }

    /**
     * `POST /api/teams/login` on the body's `name` and `email`: refuse a body without an email,
     * then find the team by email, or create, validate and store one.
     */
    method Login(name: Option<string>, email: Option<string>) returns (r: LoginOutcome)
      requires Valid()
      modifies this
      ensures Valid()
      ensures var s := CheckedLoginBody(old(teams), name, email, old(nextId), AccessCodeOptional);
        r == s.outcome && teams == s.teams
      ensures email.Some? ==> var s := Scoring.Login(old(teams), OrEmpty(name), email.value, old(nextId), AccessCodeOptional);
        r == s.outcome && teams == s.teams
      ensures nextId == if |teams| == |old(teams)| then old(nextId) else old(nextId) + 1
    {
      if email.None? {
        return LoginFailed;
      }
      var k := FindTeamByEmail(teams, email.value);
      if k.Some? {
        return LoggedIn(teams[k.value]);
      }
      var team := NewTeam(nextId, OrEmpty(name), email.value);
      if !TeamDocValid(AccessCodeOptional, team) {
        return LoginFailed;
      }
      LoginPreservesValid(quests, teams, OrEmpty(name), email.value, nextId);
      teams := teams + [team];
      nextId := nextId + 1;
      return LoggedIn(team);
    }

    /**
     * `POST /api/quests/:id/submit` for the team `teamId`: look the quest and the team up,
     * refuse a quest already solved or a wrong answer, and otherwise push the quest id onto
     * the team's solved ids and add the quest's points to its score.
     */
    method Submit(teamId: TeamId, questId: QuestId, answer: string) returns (r: SubmitOutcome)
      requires Valid()
      modifies this
      ensures Valid()
      ensures var s := Scoring.Submit(quests, old(teams), teamId, questId, answer);
        r == s.outcome && teams == s.teams
      ensures nextId == old(nextId)
      ensures |teams| == |old(teams)|
      ensures forall i :: 0 <= i < |teams| && old(teams)[i].id != teamId ==> teams[i] == old(teams)[i]
    {
      SubmitChangesOnlyThatTeam(quests, teams, teamId, questId, answer);
      var qk := FindQuest(quests, questId);
      if qk.None? {
        return QuestNotFound;
      }
      var quest := quests[qk.value];
      var tk := FindTeam(teams, teamId);
      if tk.None? {
        return TeamNotFound;
      }
      var team := teams[tk.value];
      if questId in team.solvedIds {
        return AlreadySolved;
      }
      if !Answers.AnswerMatches(answer, quest.answer) {
        return IncorrectAnswer;
      }
      SubmitPreservesValid(quests, teams, nextId, teamId, questId, answer);
      var solvedIds := Credit(tk.value, questId, quest.points);
      return Solved(quest.points, solvedIds);
    }

    /** `team.solvedIds.push(id); team.score += points; await team.save()` on the team at `tk`. */
    method Credit(tk: nat, id: QuestId, points: int) returns (solvedIds: seq<QuestId>)
      requires tk < |teams|
      modifies this
      ensures teams == old(teams)[tk := Award(old(teams)[tk], id, points)]
      ensures solvedIds == teams[tk].solvedIds
      ensures nextId == old(nextId)
    {
      var team := teams[tk];
      team := team.(solvedIds := team.solvedIds + [id]);
      team := team.(score := team.score + points);
      teams := teams[tk := team];
      solvedIds := team.solvedIds;
    }

    /** The submit route with its middleware: a request the middleware refuses changes nothing;
        an accepted one is submitted for the team the token names. */
    method SubmitAuthorized(header: Option<string>, verify: string -> Option<Claims>, questId: QuestId, answer: string)
      returns (r: Guarded<SubmitOutcome>)
      requires Valid()
      modifies this
      ensures Valid()
      ensures r.Handled? <==> Authenticate(header, verify).Authenticated?
      ensures r.Denied? ==> r.reason == Authenticate(header, verify) && teams == old(teams) && nextId == old(nextId)
      ensures r.Handled? ==>
        var s := Scoring.Submit(quests, old(teams), Authenticate(header, verify).claims.id, questId, answer);
        r.value == s.outcome && teams == s.teams && nextId == old(nextId)
    {
      var auth := Authenticate(header, verify);
      if !auth.Authenticated? {
        return Denied(auth);
      }
      var outcome := Submit(auth.claims.id, questId, answer);
      return Handled(outcome);
    }
  }
}
