// The two quests the seeding script loads, and a session against a store that holds them.
module Scenario {
  import opened Wrappers
  import opened Models
  import opened Answers
  import opened Scoring
  import opened Leaderboard
  import opened Server

  /** Quest "1" (answer `M`, 100 points) and quest "2" (answer `PARIS`, 200 points). */
  function SeedQuests(): (r: seq<Quest>)
    ensures CatalogValid(r)
    ensures |r| == 2 && r[0].id == "1" && r[1].id == "2"
  {
    [ Quest("1", "The Silent Signal", Text, "01001101", 100, "M", [Hint(Text, "MindMaze")]),
      Quest("2", "Visual Echo", Image, "city.jpg", 200, "PARIS", [Hint(Text, "lights")]) ]
  }

  /** The seeded team `name`/`email` with `score` points for the quests `solved`. */
  function Player(name: string, email: string, score: int, solved: seq<QuestId>): Team {
    Team(0, name, None, email, score, solved)
  }

  /** `m` for quest 1 from a fresh team: credited 100. */
  lemma FirstAnswer(name: string, email: string)
    ensures Submit(SeedQuests(), [Player(name, email, 0, [])], 0, "1", "m")
      == Step(Solved(100, ["1"]), [Player(name, email, 100, ["1"])])
  {
    PlainExamplesAccepted();
    var before := [Player(name, email, 0, [])];
    SubmitCorrect(SeedQuests(), before, 0, 0, "m");
    var r := Submit(SeedQuests(), before, 0, "1", "m");
    assert before[0].solvedIds + ["1"] == ["1"];
    assert r.teams[0] == Player(name, email, 100, ["1"]);
    assert r.teams == [Player(name, email, 100, ["1"])];
  }

  /** ` paris ` for quest 2 after quest 1: credited 200 more. */
  lemma SecondAnswer(name: string, email: string)
    ensures Submit(SeedQuests(), [Player(name, email, 100, ["1"])], 0, "2", " paris ")
      == Step(Solved(200, ["1", "2"]), [Player(name, email, 300, ["1", "2"])])
  {
    PaddedLowerCaseAccepted();
    assert "2" != "1";
    var before := [Player(name, email, 100, ["1"])];
    SubmitCorrect(SeedQuests(), before, 0, 1, " paris ");
    var r := Submit(SeedQuests(), before, 0, "2", " paris ");
    assert before[0].solvedIds + ["2"] == ["1", "2"];
    assert r.teams[0] == Player(name, email, 300, ["1", "2"]);
    assert r.teams == [Player(name, email, 300, ["1", "2"])];
  }

  /** Quest 1 again, with its right answer: refused, and nothing changes. */
  lemma RepeatedAnswer(name: string, email: string)
    ensures Submit(SeedQuests(), [Player(name, email, 300, ["1", "2"])], 0, "1", "M")
      == Step(AlreadySolved, [Player(name, email, 300, ["1", "2"])])
  {
    var quests := SeedQuests();
    assert quests[0].id == "1";
    SubmitAlreadySolved(quests, [Player(name, email, 300, ["1", "2"])], 0, "1", "M");
  }

  /** A single team heads the leaderboard. */
  lemma SoleEntry(t: Team)
    ensures Leaderboard.Leaderboard([t]) == [Entry(1, t.name, t.score, |t.solvedIds|)]
  {
    assert SortByScore([t]) == [t] by {
      assert multiset(SortByScore([t])) == multiset{t};
    }
  }

  /**
   * A first login on the seeded store, then `m` for quest 1, ` paris ` for quest 2 and `M`
   * for quest 1 again: the new team starts at 0, is credited 100 and then 200, is refused the
   * repeat, and heads the leaderboard with 300 points and two quests solved.
   */
  method Session(name: string, email: string) returns (login: LoginOutcome, first: SubmitOutcome,
                                                       second: SubmitOutcome, repeat: SubmitOutcome, board: seq<Entry>)
    requires name != "" && email != ""
    ensures login == LoggedIn(Team(0, name, None, email, 0, []))
    ensures first == Solved(100, ["1"])
    ensures second == Solved(200, ["1", "2"])
    ensures repeat == AlreadySolved
    ensures board == [Entry(1, name, 300, 2)]
  {
    var store := new Store(SeedQuests(), []);
    LoginNewEmail([], name, email, 0);
    login := store.Login(Some(name), Some(email));
    assert store.teams == [Player(name, email, 0, [])];
    FirstAnswer(name, email);
    first := store.Submit(0, "1", "m");
    SecondAnswer(name, email);
    second := store.Submit(0, "2", " paris ");
    RepeatedAnswer(name, email);
    repeat := store.Submit(0, "1", "M");
    SoleEntry(Player(name, email, 300, ["1", "2"]));
    board := Leaderboard.Leaderboard(store.teams);
  }
}
