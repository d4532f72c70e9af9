# Mind-Maze scoring core in Dafny

Mind-Maze is a puzzle-hunt game. Teams log in, list the quests, submit answers, and climb a
leaderboard. This project models the backend's scoring core, held as in-memory collections of
team and quest records. Its parts:

- the record shapes and schema constraints of `backend/src/models.ts`;
- the four handlers of `backend/src/server.ts`:
  - login, which finds or creates a team;
  - the quest listing, which hides the answers;
  - answer submission, which awards each quest at most once;
  - the leaderboard.

It then proves what those handlers promise.

Module layout, one file per module:

- `wrappers.dfy` (`Wrappers`): `Option`.
- `seqs.dfy` (`Seqs`): first-match search, duplicate-freedom, and mapping over a sequence with its permutation lemma.
- `strings.dfy` (`Strings`): JavaScript's `trim` over the full ECMAScript whitespace set, and `toUpperCase`.
- `answers.dfy` (`Answers`): the answer check of the submit handler.
- `models.dfy` (`Models`): teams, quests, hints, and the schema and unique-key predicates.
- `catalog.dfy` (`Catalog`): quest lookup by id, the answer-free listing, and the points a list of solved ids is worth.
- `auth.dfy` (`Auth`): the token middleware. It extracts the `Authorization` header's second field. The token verification itself is a function parameter.
- `scoring.dfy` (`Scoring`): login and submit as pure steps over the team sequence, with the store invariant and the lemmas about them.
  - The invariant: unique emails and ids, no quest credited twice, and every score equal to the sum of its solved quests' points.
  - The lemmas: one per outcome, preservation of the invariant, award at most once, and histories of requests.
- `leaderboard.dfy` (`Leaderboard`): a sort by descending score, then ranking.
- `store.dfy` (`Server`): class `Store`, the mutable state. Its fields are the quest catalog, the team sequence and the next id.
  - Its methods `Login`, `Submit` and `SubmitAuthorized` change the teams in place.
  - Each one is proved to produce exactly the pure step in `Scoring` and to keep `Valid()`.
- `scenario.dfy` (`Scenario`): the two quests of the seeding script, with their ids, points and answers and shortened texts, and a session against a `Store` that holds them.

The answer check is one-sided: the code trims only the submitted answer (`backend/src/server.ts:86`), not the stored one. A check that trims and upper-cases both sides would accept more. `Answers.PaddedStoredAnswerUnmatchable` shows the consequence: a stored answer with surrounding whitespace is accepted for no submission at all. `Answers.AgreesWithSymmetricCheck` shows the two readings agree whenever the stored answer has no such whitespace.

The team schema declares `accessCode` required, yet the login handler never sets it. `Models.TeamSchema` therefore has two readings: `AsDeclared` and `AccessCodeOptional`. The store uses `AccessCodeOptional` (see "## Findings").

The login body's fields are `Option<string>` (`Scoring.LoginBody`). An absent `name` is treated like an empty one, since mongoose's `required` rejects both. An absent `email` is different. It drops out of the `findOne({ email })` filter, which then matches any stored team, and the handler logs in as that team (see "## Findings"). The store refuses such a body (`Scoring.CheckedLoginBody`). The frontend's login call sends `email` and `accessCode` but no `name`. For an email some team already has, the handler never reads `name`, so that login succeeds (`Scoring.LoginExistingEmail`). For an email no team has yet, it falls under `Scoring.LoginMissingField`.

## Model

| member | source | states |
|---|---|---|
| Seqs.FirstIndex | backend/src/server.ts:42 | the lookup finds an index exactly when some element matches, and that index is the first match |
| Strings.Trim | backend/src/server.ts:86 | the trimmed submission has no whitespace at either end and is no longer than the submission |
| Strings.TrimCharacterised | backend/src/server.ts:86 | trimming whitespace, then a string without surrounding whitespace, then whitespace gives back exactly that string |
| Strings.TrimDecomposes | backend/src/server.ts:86 | every string is leading whitespace, then its trim, then trailing whitespace |
| Strings.TrimIgnoresPadding | backend/src/server.ts:86 | extra whitespace around a string does not change its trim |
| Strings.Upper | backend/src/server.ts:86 | `toUpperCase` restricted to ASCII letters (no ensures; `Strings.UpperSpec` states it) |
| Strings.UpperSpec | backend/src/server.ts:86 | upper-casing keeps the length, leaves no lower-case ASCII letter, maps each such letter to its capital, and keeps every other character |
| Strings.UpperConcat | backend/src/server.ts:86 | upper-casing distributes over concatenation |
| Strings.UpperIdempotent | backend/src/server.ts:86 | upper-casing twice is upper-casing once |
| Strings.UpperTrimCommute | backend/src/server.ts:86 | trimming and upper-casing commute |
| Answers.PaddingIgnored | backend/src/server.ts:86 | whitespace around the submitted answer never changes whether it is accepted |
| Answers.CaseIgnored | backend/src/server.ts:86 | the case of the submitted and of the stored answer never changes whether it is accepted |
| Answers.PaddedStoredAnswerUnmatchable | backend/src/server.ts:86 | the stored answer is not trimmed: one with whitespace at either end accepts no submission |
| Answers.StoredAnswerAcceptsItself | backend/src/server.ts:86 | submitting the stored answer is accepted if and only if it has no surrounding whitespace |
| Answers.AgreesWithSymmetricCheck | backend/src/server.ts:86 | for a stored answer without surrounding whitespace, the one-sided check is the same as trimming and upper-casing both sides |
| Answers.PaddedLowerCaseAccepted | backend/src/server.ts:86 | ` paris ` is accepted for `PARIS` |
| Answers.PaddedMixedCaseAccepted | backend/src/server.ts:86 | ` Paris ` is accepted for `PARIS` |
| Answers.PlainExamplesAccepted | backend/src/server.ts:86 | `paris` and `PARIS` are accepted for `PARIS`, and `m` for `M` |
| Answers.ExamplesRejected | backend/src/server.ts:86 | `Pari` is rejected for `PARIS`, and `PARIS` for a stored ` PARIS` |
| Answers.AnswerMatches | backend/src/server.ts:86 | the submission is accepted when its trim, upper-cased, equals the stored answer upper-cased; the stored answer is not trimmed, and only ASCII letters are upper-cased (no ensures: the lemmas above are its contract) |
| Catalog.FindQuest | backend/src/server.ts:74 | the quest lookup finds a quest exactly when one has the id, and the first such |
| Catalog.FindQuestUnique | backend/src/models.ts:34 | with unique quest ids, the lookup by a quest's id finds that quest |
| Catalog.ListQuests | backend/src/server.ts:59 | the listing has one entry per quest in store order, and putting each quest's answer back gives the quest: only the answer is removed |
| Catalog.ListingHidesOnlyAnswers | backend/src/server.ts:59 | two catalogs with the same listing have the same length and differ only in their answers |
| Catalog.SumPointsAppend | backend/src/server.ts:87-88 | solving one more quest adds exactly that quest's points to the total of the solved ids |
| Catalog.SumPointsNonNegative | backend/src/server.ts:88 | with no quest worth negative points, a team's total is non-negative |
| Auth.SecondField | backend/src/server.ts:24 | `split(' ')[1]` is absent exactly when the header has no space, and contains no space when present |
| Auth.SecondFieldOfJoin | backend/src/server.ts:24 | for a scheme and a token without spaces, followed by nothing or by a space, the second field is the token |
| Auth.BearerToken | backend/src/server.ts:23-26 | a token is found if and only if the header is present and its second field exists and is not empty, and the token is that second field; a token is never empty |
| Auth.Authenticate | backend/src/server.ts:22-33 | missing token when there is no token, invalid token exactly when the token does not verify, and otherwise the claims the token verifies to |
| Auth.BearerTokenAccepted | backend/src/server.ts:24 | `Bearer abc` carries the token `abc` |
| Auth.BearerTokenMissing | backend/src/server.ts:26 | no header, an empty header and `Bearer` alone carry no token |
| Auth.BearerTokenDoubleSpace | backend/src/server.ts:24-26 | `Bearer  abc` (two spaces) carries no token |
| Models.HintValid | backend/src/models.ts:40-43 | a hint's `content` is required (its `type` is always one of the content kinds); a predicate, no ensures |
| Models.QuestDocValid | backend/src/models.ts:33-44 | a quest's `id`, `title`, `content` and `answer` are required and every hint is valid (`type` and `points` are always present in the datatype); a predicate, no ensures |
| Models.TeamDocValid | backend/src/models.ts:14-20 | a team's `name` and `email` are required, and `accessCode` too under the schema as declared; a predicate, no ensures |
| Models.UniqueEmails | backend/src/models.ts:17 | no two teams share an email; a predicate, no ensures |
| Models.UniqueTeamIds | backend/src/models.ts:14 | no two teams share an `_id`; a predicate, no ensures |
| Models.UniqueQuestIds | backend/src/models.ts:34 | no two quests share an `id`; a predicate, no ensures |
| Scoring.TeamConsistent | backend/src/server.ts:81-88 | what the award-once rule keeps true of a team: no duplicate solved ids, each solved id a quest, and the score the sum of their points; a predicate, no ensures |
| Scoring.StoreValid | backend/src/models.ts:14-44 | the store invariant: both schemas, the unique keys, every team consistent, and every id below the next one; a predicate, no ensures |
| Scoring.FindTeamByEmail | backend/src/server.ts:42 | the team lookup by email finds a team exactly when one has the email, and the first such |
| Scoring.FindTeam | backend/src/server.ts:77 | the team lookup by id finds a team exactly when one has the id, and the first such |
| Scoring.FindTeamUnique | backend/src/server.ts:77 | with unique team ids, the lookup by a team's id finds that team |
| Scoring.FindTeamByEmailUnique | backend/src/models.ts:17 | with unique emails, the lookup by a team's email finds that team |
| Scoring.Login | backend/src/server.ts:39-53 | login either leaves the teams alone or appends exactly one new team, and a logged-in team has the requested email |
| Scoring.LoginBody | backend/src/server.ts:40-46 | the handler on the body as sent: the teams are unchanged, or one team with the body's email is appended; an absent email looks up any team |
| Scoring.CheckedLoginBody | backend/src/server.ts:40-46 | with a guard on the body: no email means the login fails and nothing changes; otherwise it is the handler's login |
| Scoring.AbsentEmailLogsInAsStoredTeam | backend/src/server.ts:40-42 | as written, a body without `email` on a non-empty store logs in as a stored team and changes nothing |
| Scoring.CheckedLoginRefusesAbsentEmail | backend/src/server.ts:40-42 | with the guard, a login succeeds only as a team with the email the body gives, and a body without email changes nothing |
| Scoring.LoginExistingEmail | backend/src/server.ts:42-46 | an email some team has logs in as that team and changes nothing |
| Scoring.LoginNewEmail | backend/src/server.ts:43-45 | an email no team has creates exactly one team (given name and email, score 0, no solved quests) and returns it |
| Scoring.LoginMissingField | backend/src/server.ts:44-51 | a new team with an empty name or email fails validation, the login fails and nothing is stored |
| Scoring.LoginAsDeclaredRejectsNewEmail | backend/src/models.ts:16 | under the schema as declared, every login with an unseen email fails and stores nothing |
| Scoring.LoginIdempotent | backend/src/server.ts:42-46 | logging in again with the same email, under any name, returns the same team and changes nothing |
| Scoring.LoginPreservesValid | backend/src/server.ts:42-46 | login keeps the store invariant, taking the next id only when it creates a team |
| Scoring.Award | backend/src/server.ts:87-88 | crediting a team never changes its id, name, email or access code |
| Scoring.Submit | backend/src/server.ts:68-102 | submit keeps the number of teams, changes nothing unless it succeeds, and never changes any team's identity |
| Scoring.SubmitUnknownQuest | backend/src/server.ts:74-75 | an unknown quest id is `Quest not found`, whatever the team, and nothing changes |
| Scoring.SubmitUnknownTeam | backend/src/server.ts:77-78 | a known quest with an unknown team id is `Team not found`, and nothing changes |
| Scoring.SubmitAlreadySolved | backend/src/server.ts:81-83 | a quest already in the team's solved ids is `Quest already solved`, whatever the answer, and nothing changes |
| Scoring.SubmitIncorrect | backend/src/server.ts:96-97 | a rejected answer to an unsolved quest is `Incorrect answer`, and nothing changes |
| Scoring.SubmitCorrect | backend/src/server.ts:86-95 | an accepted answer to an unsolved quest appends the id once, adds exactly the quest's points, changes no other team, and answers with the points and the new solved ids |
| Scoring.SubmitChangesOnlyThatTeam | backend/src/server.ts:77-89 | submit never changes a team whose id is not the submitting one |
| Scoring.AwardKeepsConsistent | backend/src/server.ts:87-89 | crediting an unsolved quest keeps the team free of duplicate solved ids and its score equal to the sum of their points |
| Scoring.ReplaceKeepsValid | backend/src/server.ts:89 | saving a consistent team with the same identity back keeps the store invariant |
| Scoring.SubmitPreservesValid | backend/src/server.ts:68-102 | every submission keeps the store invariant |
| Scoring.AwardAtMostOnce | backend/src/server.ts:81-83 | once a submission is credited, the next submission of that quest by that team, with any answer, is `Quest already solved` and changes nothing |
| Scoring.SubmitIdempotent | backend/src/server.ts:81-89 | handling the same submission twice changes nothing more than handling it once |
| Scoring.RepeatedSubmissionAwardsOnce | backend/src/server.ts:81-89 | any number of identical submissions in a row have the effect of one |
| Scoring.SubmitOnlyGrows | backend/src/server.ts:87-88 | no submission removes a solved id, and with no negative points no score decreases |
| Scoring.RunPreservesValid | backend/src/server.ts:39-102 | over any sequence of logins and submissions the store invariant holds |
| Scoring.RunKeepsSolved | backend/src/server.ts:39-102 | over any sequence of logins and submissions a team keeps its position and id, and its solved ids only grow |
| Scoring.SolvedStaysSolved | backend/src/server.ts:81-83 | once a team has solved a quest, after any sequence of logins and submissions every submission of that quest by that team, with any answer, is `Quest already solved` and changes nothing |
| Leaderboard.Insert | backend/src/server.ts:108 | inserting into a list sorted by descending score keeps it sorted and adds exactly that team |
| Leaderboard.SortByScore | backend/src/server.ts:108 | `sort({ score: -1 })` orders the teams by non-increasing score and is a permutation of them |
| Leaderboard.Leaderboard | backend/src/server.ts:106-119 | the handler: sort, then rank; no ensures, its contract is `LeaderboardRanked`, `LeaderboardIsPermutation` and `LeaderboardScores` |
| Leaderboard.Rank | backend/src/server.ts:109-114 | one entry per team |
| Leaderboard.LeaderboardRanked | backend/src/server.ts:108-114 | one entry per team, entry i has rank i+1, and scores are non-increasing |
| Leaderboard.LeaderboardIsPermutation | backend/src/server.ts:109-114 | the entries' names, scores and solved counts are exactly the teams' names, scores and numbers of solved ids, each as often as a team has them |
| Leaderboard.SortedPermutationsEqual | backend/src/server.ts:108 | two orderings of the same scores that are both non-increasing are the same |
| Leaderboard.LeaderboardScores | backend/src/server.ts:108-112 | the score column is the teams' scores from highest to lowest |
| Leaderboard.TieOrderIrrelevant | backend/src/server.ts:108 | any other ordering of the teams by non-increasing score has the same score at every rank |
| Leaderboard.LeaderboardExample | backend/src/server.ts:108-114 | teams scoring 50, 200, 200 and 0 are ranked 1 to 4 with scores 200, 200, 50, 0 |
| Server.IdBound | backend/src/server.ts:44 | the first id handed out is above every existing team id, and is the least such |
| Server.GuardedQuests | backend/src/server.ts:57-64 | the listing is sent if and only if the middleware accepts the token, and then holds every quest without its answer; otherwise the middleware's verdict |
| Server.Store.constructor | backend/src/models.ts:46-47 | a store over collections meeting the schemas and the invariant starts valid and holds them |
| Server.Store.Login | backend/src/server.ts:39-53 | the login method refuses a body without email and otherwise changes the teams exactly as `Scoring.Login` does under the optional-access-code schema; it advances the next id only when a team is created and keeps the invariant |
| Server.Store.Credit | backend/src/server.ts:87-89 | the in-place push and add replace the team at that position by its award and change nothing else |
| Server.Store.Submit | backend/src/server.ts:68-102 | the submit method returns the outcome of `Scoring.Submit` and leaves the teams as it does, changes no team with another id, and keeps the invariant |
| Server.Store.SubmitAuthorized | backend/src/server.ts:68-71 | a submission the middleware refuses changes nothing; an accepted one is submitted for the team the token names |
| Scenario.SeedQuests | backend/src/seed.ts:9-32 | the two seeded quests meet the quest schema and hold ids `1` and `2` |
| Scenario.FirstAnswer | backend/src/server.ts:86-95 | `m` for quest 1 from a fresh team is credited 100 points and solved ids `["1"]` |
| Scenario.SecondAnswer | backend/src/server.ts:86-95 | ` paris ` for quest 2 then raises the score to 300 with solved ids `["1", "2"]` |
| Scenario.RepeatedAnswer | backend/src/server.ts:81-83 | quest 1 again, even with its right answer, is refused and changes nothing |
| Scenario.SoleEntry | backend/src/server.ts:108-114 | a single team is ranked 1 with its name, score and solved count |
| Scenario.Session | backend/src/server.ts:39-119 | a login followed by the three submissions against the seeded store yields a new team at 0, awards of 100 and 200, a refusal, and a leaderboard of one team with 300 points and two quests solved |

## Left out

- HTTP plumbing is not modelled: Express routing, status codes, JSON bodies, CORS, dotenv and the server start-up code. Each handler's responses are a datatype instead (`LoginOutcome`, `SubmitOutcome`, `Guarded`, `AuthResult`).
- Token signing at login (`backend/src/server.ts:48`) is left out, so login returns the team and no token. Token verification is a foreign cryptographic call, passed to `Auth.Authenticate` as the `verify` parameter, and the model states nothing about expiry.
- Database persistence is left out: MongoDB connections, storage errors, and the `catch` branches that answer with a server error. The model's only failing `save()` is schema validation at login.
- Concurrency is left out. Each handler is one atomic step, so the race between two concurrent submissions of the same quest is not modelled.
- Request fields other than login's `name` and `email` are always strings. A missing `answer` makes `answer.trim()` throw, which the source turns into a server error; the model does not represent that. Non-string JSON values (numbers, objects such as query operators) are not modelled.
- Scoring.LoginBody: which team a lookup without `email` returns is up to the database; the model takes the first stored team.
- The leaderboard's order among equal scores depends on the database. The model sorts stably instead, and `Leaderboard.TieOrderIrrelevant` shows that the score column is the same for every tie order.
- The quest catalog never changes during a game. The seeding script's bulk delete and insert is left out. Its two quests appear as `Scenario.SeedQuests` with their ids, titles, kinds, points and answers, but with the `content` and hint texts shortened: no handler's behaviour depends on those texts beyond their being non-empty.
- `Models.ContentType` takes the five content kinds the frontend declares, although the schema accepts any string for `type`.
- Database fields the handlers never read (`_id` beyond its use as the team id, `__v`) are not modelled.
- JavaScript numbers are modelled as unbounded integers. Floating-point points and scores are left out.
- The frontend is left out: the React components, the fetch wrappers, the client-side mirror of an award, and the external AI call.
- Strings.Upper: upper-cases only the ASCII letters `a`-`z`. JavaScript's full Unicode case mapping (`ß` becomes `SS`, for example) is left out.
- Answers.AnswerMatches: inherits the ASCII-only upper-casing of `Strings.Upper`, so it may disagree with the source on non-ASCII answers.

## Findings

| source | as written | input that shows it | evidently intended | confidence | as-written member | corrected member |
|---|---|---|---|---|---|---|
| backend/src/server.ts:44 | the login handler creates a team with `name`, `email`, `score` and `solvedIds` but no `accessCode`, while `backend/src/models.ts:16` declares `accessCode` required, so `save()` rejects the document | a login with any email no team has yet, e.g. `{ name: "A", email: "a@x" }` on an empty store: validation fails and the handler answers `Server error during login` | self-registration by name and email succeeds, creating a team with score 0 and no solved quests (so `accessCode` must be optional, or set by the handler) | high, not executed | Scoring.LoginAsDeclaredRejectsNewEmail | Scoring.LoginNewEmail |
| backend/src/server.ts:40-42 | `email` is taken from the body unchecked; when it is absent, mongoose drops the undefined key and `findOne({})` returns some stored team, whose token the handler then signs | `{ "name": "A" }` with no `email`, on a store holding any team: the response carries that team and a token for it | a body without an email is refused before the lookup | medium (depends on mongoose's handling of undefined filter values), not executed | Scoring.AbsentEmailLogsInAsStoredTeam | Scoring.CheckedLoginRefusesAbsentEmail |
