/**
 * `getLeaderboard(timeFrame)` over an in-memory `game_sessions` table:
 * the finished sessions that reached rung 10, fastest first, at most five.
 * The "one week ago" instant is passed in as `weekAgo`, and a failed query
 * (which the source turns into an empty list) is the flag `fails`.
 */
module LeaderboardQuery {

  datatype SessionRow = SessionRow(
    id: int,
    playerName: string,
    completed: bool,
    finalRung: int,
    totalTimeSeconds: nat,
    correctAnswers: nat,
    totalQuestions: nat,
    createdAt: int)

  datatype TimeFrame = AllTime | Week

  const Limit := 5

  /** The filters of the query: completed, final rung 10, and for 'week' created since `weekAgo`. */
  predicate Qualifies(row: SessionRow, frame: TimeFrame, weekAgo: int) {
    row.completed && row.finalRung == 10 && (frame == Week ==> row.createdAt >= weekAgo)
  }

  /** The rows that pass the filters, in table order. */
  function Filtered(rows: seq<SessionRow>, frame: TimeFrame, weekAgo: int): (r: seq<SessionRow>)
    ensures forall x :: x in r <==> x in rows && Qualifies(x, frame, weekAgo)
    ensures forall x :: Qualifies(x, frame, weekAgo) ==> multiset(r)[x] == multiset(rows)[x]
    ensures forall x :: !Qualifies(x, frame, weekAgo) ==> multiset(r)[x] == 0
  {
    if rows == [] then []
    else
      var rest := Filtered(rows[1..], frame, weekAgo);
      assert rows == [rows[0]] + rows[1..];
      if Qualifies(rows[0], frame, weekAgo) then [rows[0]] + rest else rest
  }

  /** Ascending by total time. */
  predicate SortedByTime(s: seq<SessionRow>) {
    forall i, j :: 0 <= i < j < |s| ==> s[i].totalTimeSeconds <= s[j].totalTimeSeconds
  }

  /** Places `x` into the sorted `s` before the first slower row. */
  function Insert(x: SessionRow, s: seq<SessionRow>): (r: seq<SessionRow>)
    requires SortedByTime(s)
    ensures SortedByTime(r)
    ensures multiset(r) == multiset(s) + multiset{x}
  {
    if s == [] then [x]
    else if x.totalTimeSeconds <= s[0].totalTimeSeconds then [x] + s
    else
      var rest := Insert(x, s[1..]);
      InsertStep(x, s, rest);
      [s[0]] + rest
  }

  /** Putting the head of `s` back in front of the insertion into its tail. */
  lemma InsertStep(x: SessionRow, s: seq<SessionRow>, rest: seq<SessionRow>)
    requires SortedByTime(s) && s != [] && s[0].totalTimeSeconds < x.totalTimeSeconds
    requires SortedByTime(rest) && multiset(rest) == multiset(s[1..]) + multiset{x}
    ensures SortedByTime([s[0]] + rest)
    ensures multiset([s[0]] + rest) == multiset(s) + multiset{x}
  {
    assert s == [s[0]] + s[1..];
    forall y | y in rest ensures s[0].totalTimeSeconds <= y.totalTimeSeconds {
      assert y in multiset(rest);
      if y != x {
        assert y in multiset(s[1..]);
        var k :| 0 <= k < |s[1..]| && s[1..][k] == y;
        assert s[k + 1] == y;
      }
    }
    HeadBeforeRest(s[0], rest);
  }

  lemma HeadBeforeRest(h: SessionRow, rest: seq<SessionRow>)
    requires SortedByTime(rest)
    requires forall y :: y in rest ==> h.totalTimeSeconds <= y.totalTimeSeconds
    ensures SortedByTime([h] + rest)
  {
    var r := [h] + rest;
    forall i, j | 0 <= i < j < |r| ensures r[i].totalTimeSeconds <= r[j].totalTimeSeconds {
      assert r[j] == rest[j - 1];
      if i > 0 { assert r[i] == rest[i - 1]; }
    }
  }

  /** `.order('total_time_seconds', { ascending: true })`. */
  function SortByTime(s: seq<SessionRow>): (r: seq<SessionRow>)
    ensures SortedByTime(r)
    ensures multiset(r) == multiset(s)
  {
    if s == [] then []
    else
      assert s == [s[0]] + s[1..];
      Insert(s[0], SortByTime(s[1..]))
  }

  /** `getLeaderboard(timeFrame)`. */
  function GetLeaderboard(rows: seq<SessionRow>, frame: TimeFrame, weekAgo: int, fails: bool): seq<SessionRow> {
    if fails then []
    else
      var sorted := SortByTime(Filtered(rows, frame, weekAgo));
      if |sorted| <= Limit then sorted else sorted[..Limit]
  }

  /**
   * The leaderboard holds at most five rows, each a qualifying session of
   * the table, fastest first; when fewer than five qualify it holds all of
   * them, and every qualifying session left out is no faster than any shown.
   */
  lemma LeaderboardIsTopFive(rows: seq<SessionRow>, frame: TimeFrame, weekAgo: int)
    ensures var board := GetLeaderboard(rows, frame, weekAgo, false);
      var all := Filtered(rows, frame, weekAgo);
      && |board| <= Limit
      && SortedByTime(board)
      && (forall x :: x in board ==> x in rows && Qualifies(x, frame, weekAgo))
      && multiset(board) <= multiset(all)
      && (|all| <= Limit ==> multiset(board) == multiset(all))
      && (forall x, y :: x in multiset(all) - multiset(board) && y in board ==>
            y.totalTimeSeconds <= x.totalTimeSeconds)
  {
    var all := Filtered(rows, frame, weekAgo);
    var sorted := SortByTime(all);
    var n := if |sorted| <= Limit then |sorted| else Limit;
    var board := sorted[..n];
    assert board == GetLeaderboard(rows, frame, weekAgo, false);
    TopOfSorted(sorted, n);
    TopIsFromAll(all, board);
  }

  /** Cutting a sorted list after `n` rows keeps a sorted part no slower than anything cut off. */
  lemma TopOfSorted(sorted: seq<SessionRow>, n: nat)
    requires SortedByTime(sorted) && n <= |sorted|
    ensures SortedByTime(sorted[..n])
    ensures multiset(sorted[..n]) <= multiset(sorted)
    ensures n == |sorted| ==> multiset(sorted[..n]) == multiset(sorted)
    ensures forall x, y :: x in multiset(sorted) - multiset(sorted[..n]) && y in sorted[..n] ==>
      y.totalTimeSeconds <= x.totalTimeSeconds
  {
    PrefixSorted(sorted, n);
    CutMultisets(sorted, n);
    CutOffIsSlower(sorted, n);
  }

  lemma PrefixSorted(sorted: seq<SessionRow>, n: nat)
    requires SortedByTime(sorted) && n <= |sorted|
    ensures SortedByTime(sorted[..n])
  {
    forall i, j | 0 <= i < j < n ensures sorted[..n][i].totalTimeSeconds <= sorted[..n][j].totalTimeSeconds {
      assert sorted[..n][i] == sorted[i] && sorted[..n][j] == sorted[j];
    }
  }

  /** The rows kept and the rows cut off together make up the list. */
  lemma CutMultisets(sorted: seq<SessionRow>, n: nat)
    requires n <= |sorted|
    ensures multiset(sorted) == multiset(sorted[..n]) + multiset(sorted[n..])
    ensures multiset(sorted) - multiset(sorted[..n]) == multiset(sorted[n..])
  {
    assert sorted == sorted[..n] + sorted[n..];
  }

  lemma CutOffIsSlower(sorted: seq<SessionRow>, n: nat)
    requires SortedByTime(sorted) && n <= |sorted|
    ensures forall x, y :: x in multiset(sorted[n..]) && y in sorted[..n] ==>
      y.totalTimeSeconds <= x.totalTimeSeconds
  {
    forall x, y | x in multiset(sorted[n..]) && y in sorted[..n]
      ensures y.totalTimeSeconds <= x.totalTimeSeconds
    {
      var i :| 0 <= i < n && sorted[..n][i] == y;
      var j :| 0 <= j < |sorted| - n && sorted[n..][j] == x;
      assert sorted[i] == y && sorted[n + j] == x;
    }
  }

  /** Rows drawn from the qualifying ones are table rows that qualify. */
  lemma TopIsFromAll(all: seq<SessionRow>, board: seq<SessionRow>)
    requires multiset(board) <= multiset(all)
    ensures forall x :: x in board ==> x in all
  {
    forall x | x in board ensures x in all {
      assert x in multiset(board);
    }
  }

  /** A failed query shows an empty leaderboard. */
  lemma FailedQueryIsEmpty(rows: seq<SessionRow>, frame: TimeFrame, weekAgo: int)
    ensures GetLeaderboard(rows, frame, weekAgo, true) == []
  {
  }

  /** The weekly board only ever shows sessions that also qualify for the all-time board. */
  lemma WeekQualifiesForAllTime(row: SessionRow, weekAgo: int)
    requires Qualifies(row, Week, weekAgo)
    ensures Qualifies(row, AllTime, weekAgo)
  {
  }
}
