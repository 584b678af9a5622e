/** The public profile page's statistics and history table, built from the history the
    server returns: games played, the total score and one row per game. Date and time
    formatting is locale-dependent and is the parameter `formatDate`. */
module UserPage {

  datatype GameHistoryItem = GameHistoryItem(taskId: int, score: int, timePlayed: string)

  datatype HistoryRow = HistoryRow(gamemode: string, score: int, date: string)

  /** `taskIdToGameMode[taskId] || "Unknown"`. */
  function GameMode(taskId: int): (mode: string)
    ensures taskId == 1 ==> mode == "Q&A"
    ensures taskId == 2 ==> mode == "Catch the Word"
    ensures taskId == 3 ==> mode == "BookScape"
    ensures taskId !in {1, 2, 3} ==> mode == "Unknown"
  {
    if taskId == 1 then "Q&A"
    else if taskId == 2 then "Catch the Word"
    else if taskId == 3 then "BookScape"
    else "Unknown"
  }

  /** The table row of one game. */
  function RowOf(item: GameHistoryItem, formatDate: string -> string): (row: HistoryRow)
    ensures row.gamemode == GameMode(item.taskId) && row.score == item.score
  {
    HistoryRow(GameMode(item.taskId), item.score, formatDate(item.timePlayed))
  }

  /** The sum of the scores. */
  function TotalScore(items: seq<GameHistoryItem>): int
    decreases |items|
  {
    if items == [] then 0 else TotalScore(items[..|items| - 1]) + items[|items| - 1].score
  }

  /** The total of a history split in two is the sum of the parts' totals. */
  lemma {:induction false} TotalScoreConcat(a: seq<GameHistoryItem>, b: seq<GameHistoryItem>)
    ensures TotalScore(a + b) == TotalScore(a) + TotalScore(b)
    decreases |b|
  {
    if b != [] {
      assert (a + b)[..|a + b| - 1] == a + b[..|b| - 1];
      assert (a + b)[|a + b| - 1] == b[|b| - 1];
      TotalScoreConcat(a, b[..|b| - 1]);
    } else {
      assert a + b == a;
    }
  }

  /** With no negative score the total is at least every single score. */
  lemma {:induction false} TotalScoreBounds(items: seq<GameHistoryItem>, k: nat)
    requires forall i :: 0 <= i < |items| ==> items[i].score >= 0
    requires k < |items|
    ensures TotalScore(items) >= items[k].score >= 0
    decreases |items|
  {
    if k < |items| - 1 {
      TotalScoreBounds(items[..|items| - 1], k);
    }
    TotalScoreNonNegative(items[..|items| - 1]);
  }

  lemma {:induction false} TotalScoreNonNegative(items: seq<GameHistoryItem>)
    requires forall i :: 0 <= i < |items| ==> items[i].score >= 0
    ensures TotalScore(items) >= 0
    decreases |items|
  {
    if items != [] {
      TotalScoreNonNegative(items[..|items| - 1]);
    }
  }

  /** The `map` over the history adding each score to `totalScore`: one row per game in the
      original order, games played the number of games, the total the sum of the scores. */
  method TransformHistory(history: seq<GameHistoryItem>, formatDate: string -> string)
    returns (rows: seq<HistoryRow>, gamesPlayed: nat, totalScore: int)
    ensures |rows| == |history| == gamesPlayed
    ensures forall i :: 0 <= i < |history| ==> rows[i] == RowOf(history[i], formatDate)
    ensures totalScore == TotalScore(history)
  {
    totalScore := 0;
    rows := [];
    for i := 0 to |history|
      invariant |rows| == i
      invariant forall k :: 0 <= k < i ==> rows[k] == RowOf(history[k], formatDate)
      invariant totalScore == TotalScore(history[..i])
    {
      assert history[..i + 1][..i] == history[..i];
      totalScore := totalScore + history[i].score;
      rows := rows + [HistoryRow(GameMode(history[i].taskId), history[i].score, formatDate(history[i].timePlayed))];
    }
    assert history[..|history|] == history;
    gamesPlayed := |rows|;
  }

  /** Two games of 100 and 200 points: two games played, 300 points in all. */
  lemma TwoGames(formatDate: string -> string)
    ensures var h := [GameHistoryItem(1, 100, "2023-01-01T10:00:00Z"), GameHistoryItem(2, 200, "2023-01-02T11:00:00Z")];
      TotalScore(h) == 300 && RowOf(h[0], formatDate).gamemode == "Q&A" &&
      RowOf(h[1], formatDate).gamemode == "Catch the Word"
  {
    var h := [GameHistoryItem(1, 100, "2023-01-01T10:00:00Z"), GameHistoryItem(2, 200, "2023-01-02T11:00:00Z")];
    assert h[..1][..0] == [];
    assert h[..1] == [h[0]];
  }
}
