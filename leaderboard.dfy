/**
 * `GET /api/leaderboard`: every team, sorted by score from highest to lowest, each with its
 * 1-based position as rank, its name, its score and how many quests it has solved.
 */
module Leaderboard {
  import opened Seqs
  import opened Models

  datatype Entry = Entry(rank: nat, teamName: string, score: int, solvedCount: nat)

  /** Scores from highest to lowest. */
  predicate SortedByScore(ts: seq<Team>) {
    forall i, j :: 0 <= i < j < |ts| ==> ts[i].score >= ts[j].score
  }

  function Insert(t: Team, ts: seq<Team>): (r: seq<Team>)
    requires SortedByScore(ts)
    ensures SortedByScore(r)
    ensures multiset(r) == multiset(ts) + multiset{t}
  {
    if ts == [] || t.score >= ts[0].score then [t] + ts
    else
      var rest := Insert(t, ts[1..]);
      BoundedByHead(rest, ts, t);
      assert ts == [ts[0]] + ts[1..];
      [ts[0]] + rest
  }

  /** What is inserted into the tail of a sorted sequence, below its head, stays below the head. */
  lemma BoundedByHead(rest: seq<Team>, ts: seq<Team>, t: Team)
    requires ts != [] && SortedByScore(ts) && t.score < ts[0].score
    requires multiset(rest) == multiset(ts[1..]) + multiset{t}
    ensures forall i :: 0 <= i < |rest| ==> rest[i].score <= ts[0].score
  {
    forall i | 0 <= i < |rest| ensures rest[i].score <= ts[0].score {
      assert rest[i] in multiset(rest);
      if rest[i] != t {
        assert rest[i] in multiset(ts[1..]);
        var k :| 0 <= k < |ts[1..]| && ts[1..][k] == rest[i];
        assert ts[k + 1] == rest[i];
      }
    }
  }

  /**
   * `TeamModel.find().sort({ score: -1 })`: the teams in an order of non-increasing score.
   * The order among equal scores is the database's; this model keeps such teams in
   * collection order.
   */
  function SortByScore(ts: seq<Team>): (r: seq<Team>)
    ensures SortedByScore(r)
    ensures multiset(r) == multiset(ts)
  {
    if ts == [] then []
    else
      assert ts == [ts[0]] + ts[1..];
      Insert(ts[0], SortByScore(ts[1..]))
  }

  /** `teams.map((team, index) => ({ rank: index + 1, teamName, score, solvedCount }))`. */
  function Rank(sorted: seq<Team>): (r: seq<Entry>)
    ensures |r| == |sorted|
  {
    seq(|sorted|, i requires 0 <= i < |sorted| =>
      Entry(i + 1, sorted[i].name, sorted[i].score, |sorted[i].solvedIds|))
  }

  /** `GET /api/leaderboard`: the teams sorted by descending score, then ranked. */
  function Leaderboard(teams: seq<Team>): seq<Entry> {
    Rank(SortByScore(teams))
  }

  /** What an entry shows of a team, without its rank. */
  function Summary(t: Team): (string, int, nat) {
    (t.name, t.score, |t.solvedIds|)
  }

  function Row(e: Entry): (string, int, nat) {
    (e.teamName, e.score, e.solvedCount)
  }

  /** One entry per team, ranked 1, 2, ... in order, with scores from highest to lowest. */
  lemma LeaderboardRanked(teams: seq<Team>)
    ensures var lb := Leaderboard(teams);
      && |lb| == |teams|
      && (forall i :: 0 <= i < |lb| ==> lb[i].rank == i + 1)
      && (forall i, j :: 0 <= i < j < |lb| ==> lb[i].score >= lb[j].score)
  {
    var s := SortByScore(teams);
    assert |s| == |multiset(s)| == |multiset(teams)| == |teams|;
  }

  /** The entries, without their ranks, are the teams' names, scores and solved counts,
      each exactly as often as a team shows it. */
  lemma LeaderboardIsPermutation(teams: seq<Team>)
    ensures multiset(MapSeq(Row, Leaderboard(teams))) == multiset(MapSeq(Summary, teams))
  {
    var s := SortByScore(teams);
    assert MapSeq(Row, Rank(s)) == MapSeq(Summary, s);
    MapSeqPermutation(Summary, s, teams);
  }

  predicate NonIncreasing(a: seq<int>) {
    forall i, j :: 0 <= i < j < |a| ==> a[i] >= a[j]
  }

  /** The head of a non-increasing sequence is its largest element. */
  lemma HeadIsLargest(a: seq<int>, x: int)
    requires NonIncreasing(a) && x in multiset(a)
    ensures a != [] && a[0] >= x
  {
    var k :| 0 <= k < |a| && a[k] == x;
    if k != 0 { assert a[0] >= a[k]; }
  }

  lemma SameHeadSameTail(a: seq<int>, b: seq<int>)
    requires a != [] && b != [] && a[0] == b[0] && a[1..] == b[1..]
    ensures a == b
  {
    assert a == [a[0]] + a[1..] && b == [b[0]] + b[1..];
  }

  /** Two non-increasing integer sequences with the same elements are equal. */
  lemma {:induction false} SortedPermutationsEqual(a: seq<int>, b: seq<int>)
    requires multiset(a) == multiset(b)
    requires NonIncreasing(a) && NonIncreasing(b)
    ensures a == b
    decreases |a|
  {
    if a == [] {
      assert |b| == |multiset(b)| == 0;
    } else {
      HeadIsLargest(b, a[0]);
      HeadIsLargest(a, b[0]);
      assert a[0] == b[0];
      DropSameHead(a, b);
      assert NonIncreasing(a[1..]) && NonIncreasing(b[1..]);
      SortedPermutationsEqual(a[1..], b[1..]);
      SameHeadSameTail(a, b);
    }
  }

  /**
   * The order among equal scores is not decided here, and it does not matter to the score
   * column: for any ordering of the teams by non-increasing score, the entry at each rank
   * has the same score as in this leaderboard.
   */
  lemma TieOrderIrrelevant(teams: seq<Team>, other: seq<Team>)
    requires multiset(other) == multiset(teams) && SortedByScore(other)
    ensures |Rank(other)| == |Leaderboard(teams)|
    ensures forall i :: 0 <= i < |other| ==> Rank(other)[i].score == Leaderboard(teams)[i].score
  {
    var column := MapSeq(Score, other);
    MapSeqPermutation(Score, other, teams);
    assert NonIncreasing(column);
    LeaderboardScores(teams, column);
    forall i | 0 <= i < |other| ensures Rank(other)[i].score == Leaderboard(teams)[i].score {
      assert column[i] == other[i].score;
    }
  }

  function Score(t: Team): int {
    t.score
  }

  /** The score column of the leaderboard is the teams' scores arranged from highest to lowest. */
  lemma LeaderboardScores(teams: seq<Team>, column: seq<int>)
    requires multiset(column) == multiset(MapSeq(Score, teams)) && NonIncreasing(column)
    ensures |Leaderboard(teams)| == |column|
    ensures forall i :: 0 <= i < |column| ==> Leaderboard(teams)[i].score == column[i]
  {
    var s := SortByScore(teams);
    LeaderboardRanked(teams);
    MapSeqPermutation(Score, s, teams);
    assert NonIncreasing(MapSeq(Score, s));
    SortedPermutationsEqual(MapSeq(Score, s), column);
    forall i | 0 <= i < |column| ensures Leaderboard(teams)[i].score == column[i] {
      assert MapSeq(Score, s)[i] == s[i].score;
    }
  }

  /** The score column of four teams scoring 50, 200, 200 and 0, from highest to lowest. */
  lemma ExampleColumn(teams: seq<Team>)
    requires |teams| == 4
    requires teams[0].score == 50 && teams[1].score == 200 && teams[2].score == 200 && teams[3].score == 0
    ensures multiset([200, 200, 50, 0]) == multiset(MapSeq(Score, teams))
  {
    var scores := MapSeq(Score, teams);
    assert scores == [teams[0].score, teams[1].score, teams[2].score, teams[3].score];
  }

  /** Four teams scoring 50, 200, 200 and 0 are ranked 1 to 4 with scores 200, 200, 50, 0. */
  lemma LeaderboardExample(teams: seq<Team>)
    requires |teams| == 4
    requires teams[0].score == 50 && teams[1].score == 200 && teams[2].score == 200 && teams[3].score == 0
    ensures var lb := Leaderboard(teams);
      && |lb| == 4
      && lb[0].score == 200 && lb[1].score == 200 && lb[2].score == 50 && lb[3].score == 0
      && forall i :: 0 <= i < 4 ==> lb[i].rank == i + 1
  {
    var column := [200, 200, 50, 0];
    ExampleColumn(teams);
    assert NonIncreasing(column);
    LeaderboardScores(teams, column);
    LeaderboardRanked(teams);
  }
}
