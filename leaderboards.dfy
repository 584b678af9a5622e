/** The two leaderboards of the user store, as the LINQ pipelines compute them: every user's
    history ids joined with the history table, grouped (by name, or by name and task), summed
    or maximised, ordered by score descending, then paged with `Skip` and `Take`. The users
    are the list `ToListAsync` returned, in its order. */
module Leaderboards {
  import opened Wrappers
  import opened Database
  import opened Sorting

  /** One joined record: the user's name and the history's task and score. */
  datatype Row = Row(name: string, taskId: int, score: int)

  /** A leaderboard entry; `gamemode` is the task for the high-score board. */
  datatype UserScore = UserScore(name: string, score: int, gamemode: Option<int>)

  /** The joined records of one user, in the order of their history ids; ids with no history
      row join nothing. */
  function UserRows(name: string, ids: seq<string>, histories: map<string, TaskHistory>): (r: seq<Row>)
    ensures forall x :: x in r ==> x.name == name
    ensures forall x :: x in r ==>
      (exists id :: id in ids && id in histories && x.taskId == histories[id].taskId && x.score == histories[id].score)
  {
    if |ids| == 0 then []
    else
      (if ids[0] in histories then [Row(name, histories[ids[0]].taskId, histories[ids[0]].score)] else []) +
      UserRows(name, ids[1..], histories)
  }

  /** `SelectMany` over the users followed by the inner `Join` on the history id. */
  function Joined(users: seq<User>, histories: map<string, TaskHistory>): (r: seq<Row>)
    ensures forall x :: x in r ==> exists u :: u in users && u.name == x.name
  {
    if |users| == 0 then [] else
      var head := UserRows(users[0].name, users[0].historyIds, histories);
      var rest := Joined(users[1..], histories);
      assert forall x :: x in head ==> users[0] in users && users[0].name == x.name;
      head + rest
  }

  /** The distinct values of `s`, in the order they first appear (`GroupBy`'s key order). */
  function Distinct<T(==,!new)>(s: seq<T>): (r: seq<T>)
    ensures forall x :: x in r <==> x in s
    ensures forall i, j :: 0 <= i < j < |r| ==> r[i] != r[j]
  {
    if |s| == 0 then []
    else
      var d := Distinct(s[..|s| - 1]);
      assert forall x :: x in s <==> x in s[..|s| - 1] || x == s[|s| - 1];
      if s[|s| - 1] in d then d else d + [s[|s| - 1]]
  }

  function Names(rows: seq<Row>): (r: seq<string>)
    ensures |r| == |rows| && forall i :: 0 <= i < |rows| ==> r[i] == rows[i].name
  {
    seq(|rows|, i requires 0 <= i < |rows| => rows[i].name)
  }

  /** `g.Sum(h => h.Score)` over the records of one name. */
  function TotalOf(rows: seq<Row>, name: string): int {
    if |rows| == 0 then 0 else (if rows[0].name == name then rows[0].score else 0) + TotalOf(rows[1..], name)
  }

  /** One entry per name, in first-appearance order, with the summed score. */
  function Totals(rows: seq<Row>): seq<UserScore> {
    TotalEntries(Distinct(Names(rows)), rows)
  }

  /** The entry of each given name, in the given order. */
  function TotalEntries(names: seq<string>, rows: seq<Row>): (r: seq<UserScore>)
    ensures |r| == |names|
    ensures forall i :: 0 <= i < |r| ==> r[i].name == names[i] && r[i].gamemode.None?
    ensures forall i :: 0 <= i < |r| ==> r[i].score == TotalOf(rows, names[i])
  {
    if |names| == 0 then [] else [UserScore(names[0], TotalOf(rows, names[0]), None)] + TotalEntries(names[1..], rows)
  }

  /** Every entry carries its name's total, and no name has two entries. */
  lemma TotalsKeyed(rows: seq<Row>)
    ensures var r := Totals(rows);
      (forall e :: e in r ==> e.score == TotalOf(rows, e.name) && e.gamemode.None?) &&
      (forall i, j :: 0 <= i < j < |r| ==> r[i].name != r[j].name)
  {
  }

  /** Every name with a record has an entry. */
  lemma TotalsCover(rows: seq<Row>)
    ensures var r := Totals(rows); forall x :: x in rows ==> UserScore(x.name, TotalOf(rows, x.name), None) in r
  {
    var names := Distinct(Names(rows));
    var r := TotalEntries(names, rows);
    forall x | x in rows
      ensures UserScore(x.name, TotalOf(rows, x.name), None) in r
    {
      var j :| 0 <= j < |rows| && rows[j] == x;
      assert Names(rows)[j] in Names(rows);
      var i :| 0 <= i < |names| && names[i] == x.name;
      assert r[i] == UserScore(x.name, TotalOf(rows, x.name), None);
    }
    assert r == Totals(rows);
  }

  /** Only names with a record have an entry. */
  lemma TotalsFromRecords(rows: seq<Row>)
    ensures var r := Totals(rows); forall i :: 0 <= i < |r| ==> exists x :: x in rows && x.name == r[i].name
  {
    var names := Distinct(Names(rows));
    var r := TotalEntries(names, rows);
    forall i | 0 <= i < |r|
      ensures exists x :: x in rows && x.name == r[i].name
    {
      assert names[i] in Names(rows);
      var j :| 0 <= j < |rows| && Names(rows)[j] == names[i];
      assert rows[j] in rows;
    }
  }

  /** The key of the high-score board. */
  datatype Slot = Slot(name: string, taskId: int)

  function Slots(rows: seq<Row>): (r: seq<Slot>)
    ensures |r| == |rows| && forall i :: 0 <= i < |rows| ==> r[i] == Slot(rows[i].name, rows[i].taskId)
  {
    seq(|rows|, i requires 0 <= i < |rows| => Slot(rows[i].name, rows[i].taskId))
  }

  predicate InSlot(x: Row, k: Slot) {
    x.name == k.name && x.taskId == k.taskId
  }

  /** The group of key `k` has a record. */
  predicate Occupied(rows: seq<Row>, k: Slot) {
    exists x :: x in rows && InSlot(x, k)
  }

  /** `g.Max(h => h.Score)` over the records of one (name, task) group, which is never empty. */
  function MaxOf(rows: seq<Row>, k: Slot): (m: int)
    requires Occupied(rows, k)
    ensures exists x :: x in rows && InSlot(x, k) && x.score == m
    ensures forall x :: x in rows && InSlot(x, k) ==> x.score <= m
  {
    if !Occupied(rows[1..], k) then
      assert forall x :: x in rows ==> x == rows[0] || x in rows[1..];
      rows[0].score
    else
      var rest := MaxOf(rows[1..], k);
      assert forall x :: x in rows ==> x == rows[0] || x in rows[1..];
      if InSlot(rows[0], k) && rows[0].score > rest then rows[0].score else rest
  }

  /** Every distinct (name, task) key of the records has a record. */
  lemma SlotsOccupied(rows: seq<Row>)
    ensures forall k :: k in Distinct(Slots(rows)) ==> Occupied(rows, k)
  {
    forall k | k in Distinct(Slots(rows))
      ensures Occupied(rows, k)
    {
      var j :| 0 <= j < |rows| && Slots(rows)[j] == k;
      assert rows[j] in rows && InSlot(rows[j], k);
    }
  }

  /** One entry per (name, task), in first-appearance order, with the best score. */
  function Highs(rows: seq<Row>): seq<UserScore> {
    SlotsOccupied(rows);
    HighEntries(Distinct(Slots(rows)), rows)
  }

  /** The entry of each given key, in the given order. */
  function HighEntries(slots: seq<Slot>, rows: seq<Row>): (r: seq<UserScore>)
    requires forall k :: k in slots ==> Occupied(rows, k)
    ensures |r| == |slots|
    ensures forall i :: 0 <= i < |r| ==> r[i].name == slots[i].name && r[i].gamemode == Some(slots[i].taskId)
    ensures forall i :: 0 <= i < |r| ==> slots[i] in slots && r[i].score == MaxOf(rows, slots[i])
  {
    if |slots| == 0 then []
    else
      assert slots[0] in slots;
      [UserScore(slots[0].name, MaxOf(rows, slots[0]), Some(slots[0].taskId))] + HighEntries(slots[1..], rows)
  }

  /** `e` is the best score of a (name, task) group that has records. */
  ghost predicate IsHigh(rows: seq<Row>, e: UserScore) {
    e.gamemode.Some? && Occupied(rows, Slot(e.name, e.gamemode.value)) &&
    e.score == MaxOf(rows, Slot(e.name, e.gamemode.value))
  }

  /** Every entry is the best score of its group, and no group has two entries. */
  lemma HighsKeyed(rows: seq<Row>)
    ensures var r := Highs(rows);
      (forall e :: e in r ==> IsHigh(rows, e)) &&
      (forall i, j :: 0 <= i < j < |r| ==> (r[i].name, r[i].gamemode) != (r[j].name, r[j].gamemode))
  {
    var slots := Distinct(Slots(rows));
    SlotsOccupied(rows);
    var r := HighEntries(slots, rows);
    assert forall i :: 0 <= i < |r| ==> slots[i] == Slot(r[i].name, r[i].gamemode.value);
    forall e | e in r
      ensures IsHigh(rows, e)
    {
      var i :| 0 <= i < |r| && r[i] == e;
      assert slots[i] == Slot(e.name, e.gamemode.value);
    }
    assert r == Highs(rows);
  }

  /** Every record's group has an entry. */
  lemma HighsCover(rows: seq<Row>)
    ensures var r := Highs(rows); forall x :: x in rows ==> UserScore(x.name, MaxOf(rows, Slot(x.name, x.taskId)), Some(x.taskId)) in r
  {
    var slots := Distinct(Slots(rows));
    SlotsOccupied(rows);
    var r := HighEntries(slots, rows);
    forall x | x in rows
      ensures UserScore(x.name, MaxOf(rows, Slot(x.name, x.taskId)), Some(x.taskId)) in r
    {
      var j :| 0 <= j < |rows| && rows[j] == x;
      assert Slots(rows)[j] in Slots(rows);
      var i :| 0 <= i < |slots| && slots[i] == Slot(x.name, x.taskId);
      assert r[i] == UserScore(x.name, MaxOf(rows, Slot(x.name, x.taskId)), Some(x.taskId));
    }
    assert r == Highs(rows);
  }

  /** `OrderByDescending(g => g.Score)`. */
  function ScoreAtLeast(a: UserScore, b: UserScore): bool {
    a.score >= b.score
  }

  lemma ScoreAtLeastTotal()
    ensures TotalPreorder(ScoreAtLeast)
  {
  }

  /** Ordering entries by score, best first, permutes them. */
  lemma Ranked(t: seq<UserScore>)
    ensures var r := InsertionSort(t, ScoreAtLeast);
      multiset(r) == multiset(t) && forall i, j :: 0 <= i < j < |r| ==> r[i].score >= r[j].score
  {
    ScoreAtLeastTotal();
    InsertionSortSorted(t, ScoreAtLeast);
  }

  /** `Skip(skip).Take(take)`; a negative count skips or takes nothing. */
  function Page<T>(s: seq<T>, skip: int, take: int): seq<T> {
    var from := if skip <= 0 then 0 else if skip > |s| then |s| else skip;
    var to := if take <= 0 then from else if from + take > |s| then |s| else from + take;
    s[from..to]
  }

  /** The total-score ranking of the joined records, before paging. */
  function TotalRanking(rows: seq<Row>): seq<UserScore> {
    InsertionSort(Totals(rows), ScoreAtLeast)
  }

  /** `GetTotalScoresAsync(skip, take)`. */
  function TotalScores(users: seq<User>, histories: map<string, TaskHistory>, skip: int, take: int): seq<UserScore> {
    Page(TotalRanking(Joined(users, histories)), skip, take)
  }

  function HighRanking(rows: seq<Row>): seq<UserScore> {
    InsertionSort(Highs(rows), ScoreAtLeast)
  }

  /** `GetHighScoresAsync(skip, take)`. */
  function HighScores(users: seq<User>, histories: map<string, TaskHistory>, skip: int, take: int): seq<UserScore> {
    Page(HighRanking(Joined(users, histories)), skip, take)
  }

  /** The total-score ranking: the entries of `Totals`, each once, best first. */
  lemma TotalRankingSorted(rows: seq<Row>)
    ensures var r := TotalRanking(rows);
      multiset(r) == multiset(Totals(rows)) && forall i, j :: 0 <= i < j < |r| ==> r[i].score >= r[j].score
  {
    Ranked(Totals(rows));
  }

  /** Each entry of the total-score ranking holds the sum of all the scores of its name
      (users sharing a name share an entry), and every name with a record is ranked. */
  lemma TotalRankingSums(rows: seq<Row>)
    ensures var r := TotalRanking(rows);
      (forall e :: e in r ==> e.score == TotalOf(rows, e.name) && e.gamemode.None?) &&
      (forall x :: x in rows ==> UserScore(x.name, TotalOf(rows, x.name), None) in r)
  {
    TotalsKeyed(rows);
    TotalsCover(rows);
    Ranked(Totals(rows));
    SameMembers(Totals(rows), TotalRanking(rows));
  }

  /** The high-score ranking: the entries of `Highs`, each once, best first. */
  lemma HighRankingSorted(rows: seq<Row>)
    ensures var r := HighRanking(rows);
      multiset(r) == multiset(Highs(rows)) && forall i, j :: 0 <= i < j < |r| ==> r[i].score >= r[j].score
  {
    Ranked(Highs(rows));
  }

  /** Each entry of the high-score ranking is the best score of its (name, task) group, and
      every record's group is ranked. */
  lemma HighRankingMaxima(rows: seq<Row>)
    ensures var r := HighRanking(rows);
      (forall e :: e in r ==> IsHigh(rows, e)) &&
      (forall x :: x in rows ==> UserScore(x.name, MaxOf(rows, Slot(x.name, x.taskId)), Some(x.taskId)) in r)
  {
    HighsKeyed(rows);
    HighsCover(rows);
    Ranked(Highs(rows));
    SameMembers(Highs(rows), HighRanking(rows));
  }

  /** A page holds consecutive entries of the ranking: at most `take` of them, from `skip` on;
      a full page when the ranking is long enough, none past its end. */
  lemma PageOfRanking<T>(s: seq<T>, skip: nat, take: nat)
    ensures var r := Page(s, skip, take);
      |r| <= take && (forall i :: 0 <= i < |r| ==> skip + i < |s| && r[i] == s[skip + i]) &&
      (skip + take <= |s| ==> |r| == take) && (skip >= |s| ==> r == [])
  {
  }

  /** A player's two histories, worth 100 and 200 on two tasks, join as two records. */
  lemma TwoGamesJoin(u: User, a: string, b: string, ha: TaskHistory, hb: TaskHistory)
    requires a != b && u.historyIds == [a, b]
    requires ha.taskId == 1 && ha.score == 100 && hb.taskId == 2 && hb.score == 200
    ensures Joined([u], map[a := ha, b := hb]) == [Row(u.name, 1, 100), Row(u.name, 2, 200)]
  {
    var h := map[a := ha, b := hb];
    assert UserRows(u.name, [b], h) == [Row(u.name, 2, 200)];
    assert UserRows(u.name, [a, b], h) == [Row(u.name, 1, 100), Row(u.name, 2, 200)];
  }

  /** Those records give one total of 300. */
  lemma TwoGamesTotal(n: string)
    ensures TotalRanking([Row(n, 1, 100), Row(n, 2, 200)]) == [UserScore(n, 300, None)]
  {
    var rows := [Row(n, 1, 100), Row(n, 2, 200)];
    assert Names(rows) == [n, n];
    assert Distinct([n]) == [n];
    assert Distinct(Names(rows)) == [n];
    assert rows[1..] == [Row(n, 2, 200)];
    assert TotalOf(rows[1..][1..], n) == 0;
    assert TotalOf(rows, n) == 300;
  }

  /** And two high scores, the 200 first. */
  lemma TwoGamesHighs(n: string)
    ensures HighRanking([Row(n, 1, 100), Row(n, 2, 200)]) == [UserScore(n, 200, Some(2)), UserScore(n, 100, Some(1))]
  {
    var e1, e2 := UserScore(n, 100, Some(1)), UserScore(n, 200, Some(2));
    TwoHighs(n);
    assert InsertionSort([e2], ScoreAtLeast) == [e2];
    assert Insert(e1, [e2], ScoreAtLeast) == [e2, e1];
  }

  lemma TwoHighs(n: string)
    ensures Highs([Row(n, 1, 100), Row(n, 2, 200)]) == [UserScore(n, 100, Some(1)), UserScore(n, 200, Some(2))]
  {
    var rows := [Row(n, 1, 100), Row(n, 2, 200)];
    TwoSlots(n);
    TwoMaxima(n);
    assert HighEntries([Slot(n, 2)], rows) == [UserScore(n, 200, Some(2))];
  }

  lemma TwoSlots(n: string)
    ensures Distinct(Slots([Row(n, 1, 100), Row(n, 2, 200)])) == [Slot(n, 1), Slot(n, 2)]
  {
    var k1, k2 := Slot(n, 1), Slot(n, 2);
    assert Slots([Row(n, 1, 100), Row(n, 2, 200)]) == [k1, k2];
    assert [k1, k2][..1] == [k1];
    assert Distinct([k1]) == [k1];
  }

  lemma TwoMaxima(n: string)
    ensures var rows := [Row(n, 1, 100), Row(n, 2, 200)];
      Occupied(rows, Slot(n, 1)) && MaxOf(rows, Slot(n, 1)) == 100 &&
      Occupied(rows, Slot(n, 2)) && MaxOf(rows, Slot(n, 2)) == 200
  {
    var r1, r2 := Row(n, 1, 100), Row(n, 2, 200);
    var rows := [r1, r2];
    var k1, k2 := Slot(n, 1), Slot(n, 2);
    assert rows[1..] == [r2] && rows[1..][1..] == [];
    assert r1 in rows && InSlot(r1, k1) && r2 in rows[1..] && InSlot(r2, k2);
    assert !Occupied(rows[1..], k1) by {
      assert forall x :: x in rows[1..] ==> x == r2;
    }
  }
}
