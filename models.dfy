/**
 * The records the backend stores: teams and quests, with the constraints the mongoose
 * schemas declare on them (`required`, `unique`, `default`).
 */
module Models {
  import opened Wrappers

  type QuestId = string

  /** The database identifier (`_id`) the store assigns to a team when it is created. */
  type TeamId = nat

  /** The content kinds of a quest or hint. */
  datatype ContentType = Text | Image | Video | Audio | Qr

  /** A hint: a content kind and its payload, both required. */
  datatype Hint = Hint(kind: ContentType, content: string)

  datatype Quest = Quest(
    id: QuestId,
    title: string,
    kind: ContentType,
    content: string,
    points: int,
    answer: string,
    hints: seq<Hint>)

  /** A team. `accessCode` is absent on a team created by the login handler, which never sets it. */
  datatype Team = Team(
    id: TeamId,
    name: string,
    accessCode: Option<string>,
    email: string,
    score: int,
    solvedIds: seq<QuestId>)

  /** Mongoose's `required` on a string field: present and not empty. */
  predicate Present(s: string) {
    s != ""
  }

  predicate HintValid(h: Hint) {
    Present(h.content)
  }

  /** `QuestSchema`: every string field required, and every hint valid. */
  predicate QuestDocValid(q: Quest) {
    && Present(q.id) && Present(q.title) && Present(q.content) && Present(q.answer)
    && forall j :: 0 <= j < |q.hints| ==> HintValid(q.hints[j])
  }

  /**
   * The two readings of `TeamSchema`: as declared, `accessCode` is required; the login
   * handler's self-registration needs it to be optional.
   */
  datatype TeamSchema = AsDeclared | AccessCodeOptional

  /** `TeamSchema`'s validation, run by `save()`: `name` and `email` required, `accessCode` required as declared. */
  predicate TeamDocValid(schema: TeamSchema, t: Team) {
    && Present(t.name) && Present(t.email)
    && (schema == AsDeclared ==> t.accessCode.Some? && Present(t.accessCode.value))
  }

  /** `email` is `unique`. */
  predicate UniqueEmails(teams: seq<Team>) {
    forall i, j :: 0 <= i < |teams| && 0 <= j < |teams| && i != j ==> teams[i].email != teams[j].email
  }

  /** `_id` identifies a team. */
  predicate UniqueTeamIds(teams: seq<Team>) {
    forall i, j :: 0 <= i < |teams| && 0 <= j < |teams| && i != j ==> teams[i].id != teams[j].id
  }

  /** Quest `id` is `unique`. */
  predicate UniqueQuestIds(quests: seq<Quest>) {
    forall i, j :: 0 <= i < |quests| && 0 <= j < |quests| && i != j ==> quests[i].id != quests[j].id
  }

  /** The quest collection satisfies `QuestSchema` and its unique index. */
  predicate CatalogValid(quests: seq<Quest>) {
    && (forall i :: 0 <= i < |quests| ==> QuestDocValid(quests[i]))
    && UniqueQuestIds(quests)
  }

  /** The team collection satisfies the schema (with `accessCode` optional) and its unique keys. */
  predicate TeamsValid(teams: seq<Team>) {
    && (forall i :: 0 <= i < |teams| ==> TeamDocValid(AccessCodeOptional, teams[i]))
    && UniqueEmails(teams)
    && UniqueTeamIds(teams)
  }

  /** A team built by the login handler: `score` 0 (also the schema default) and no solved quests. */
  function NewTeam(id: TeamId, name: string, email: string): Team {
    Team(id, name, None, email, 0, [])
  }
}
