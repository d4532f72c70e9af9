/** The quest collection: lookup by id, the listing without answers, and the points of a set of ids. */
module Catalog {
  import opened Wrappers
  import opened Seqs
  import opened Models

  /** `QuestModel.findOne({ id })`: the position of the first quest with that id. */
  function FindQuest(quests: seq<Quest>, id: QuestId): (r: Option<nat>)
    ensures r.Some? ==> r.value < |quests| && quests[r.value].id == id
    ensures r.Some? ==> forall j :: 0 <= j < r.value ==> quests[j].id != id
    ensures r.None? <==> forall j :: 0 <= j < |quests| ==> quests[j].id != id
  {
    FirstIndex(quests, (q: Quest) => q.id == id)
  }

  /** With unique quest ids, the lookup finds the one quest that has the id. */
  lemma FindQuestUnique(quests: seq<Quest>, k: nat)
    requires UniqueQuestIds(quests) && k < |quests|
    ensures FindQuest(quests, quests[k].id) == Some(k)
  {
  }

  /** A quest as the listing sends it: every field but `answer`. */
  datatype PublicQuest = PublicQuest(
    id: QuestId,
    title: string,
    kind: ContentType,
    content: string,
    points: int,
    hints: seq<Hint>)

  function Elide(q: Quest): PublicQuest {
    PublicQuest(q.id, q.title, q.kind, q.content, q.points, q.hints)
  }

  /** Puts an answer back into a listed quest. */
  function WithAnswer(p: PublicQuest, answer: string): Quest {
    Quest(p.id, p.title, p.kind, p.content, p.points, answer, p.hints)
  }

  /**
   * `QuestModel.find({}, '-answer')`: every quest, in store order, with only its answer
   * taken out: putting each quest's answer back gives the quest.
   */
  function ListQuests(quests: seq<Quest>): (r: seq<PublicQuest>)
    ensures |r| == |quests|
    ensures forall i :: 0 <= i < |quests| ==> WithAnswer(r[i], quests[i].answer) == quests[i]
  {
    if quests == [] then [] else [Elide(quests[0])] + ListQuests(quests[1..])
  }

  /** The listing of `quests` decides every quest up to its answer: two catalogs with the same
      listing differ at most in their answers. */
  lemma ListingHidesOnlyAnswers(a: seq<Quest>, b: seq<Quest>)
    requires ListQuests(a) == ListQuests(b)
    ensures |a| == |b|
    ensures forall i :: 0 <= i < |a| ==> a[i] == b[i].(answer := a[i].answer)
  {
    var l := ListQuests(a);
    forall i | 0 <= i < |a| ensures a[i] == b[i].(answer := a[i].answer) {
      assert WithAnswer(l[i], a[i].answer) == a[i];
      assert WithAnswer(l[i], b[i].answer) == b[i];
    }
  }

  /** The points the quest with this id is worth; nothing for an unknown id. */
  function PointsOf(quests: seq<Quest>, id: QuestId): int {
    match FindQuest(quests, id)
    case Some(k) => quests[k].points
    case None => 0
  }

  /** The total points of the listed quest ids. */
  function SumPoints(quests: seq<Quest>, ids: seq<QuestId>): int {
    if ids == [] then 0 else PointsOf(quests, ids[0]) + SumPoints(quests, ids[1..])
  }

  /** Appending an id adds that quest's points. */
  lemma {:induction false} SumPointsAppend(quests: seq<Quest>, ids: seq<QuestId>, id: QuestId)
    ensures SumPoints(quests, ids + [id]) == SumPoints(quests, ids) + PointsOf(quests, id)
    decreases |ids|
  {
    if ids == [] {
      assert [] + [id] == [id];
      assert [id][1..] == [];
    } else {
      assert (ids + [id])[1..] == ids[1..] + [id];
      SumPointsAppend(quests, ids[1..], id);
    }
  }

  /** With no quest worth negative points, any total is non-negative. */
  lemma {:induction false} SumPointsNonNegative(quests: seq<Quest>, ids: seq<QuestId>)
    requires forall i :: 0 <= i < |quests| ==> quests[i].points >= 0
    ensures SumPoints(quests, ids) >= 0
    decreases |ids|
  {
    if ids != [] {
      SumPointsNonNegative(quests, ids[1..]);
    }
  }
}
