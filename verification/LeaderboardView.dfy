/**
 * The leaderboard screen: its clock, which shows "--:--" for a missing or
 * zero time, the medal and rank labels, and the empty-board placeholder.
 */
module LeaderboardView {
  import opened Common
  import opened Text
  import opened GameComplete
  import opened LeaderboardQuery

  /** `formatTime` of the leaderboard: absent or zero seconds show as "--:--". */
  function FormatTime(seconds: Option<nat>): string {
    if seconds.None? || seconds.value == 0 then "--:--" else FormatClock(seconds.value)
  }

  /**
   * A missing or zero time shows the dashes, which never read back as a
   * time; any other time reads back as itself.
   */
  lemma FormatTimeRules(seconds: Option<nat>)
    ensures seconds.None? || seconds == Some(0) ==> FormatTime(seconds) == "--:--"
    ensures seconds.Some? && seconds.value > 0 ==> ParseClock(FormatTime(seconds)) == seconds
    ensures ParseClock("--:--") == None
  {
    if seconds.Some? && seconds.value > 0 {
      ClockRoundTrip(seconds.value);
    }
    DashesAreNoClock();
  }

  lemma DashesAreNoClock()
    ensures ParseClock("--:--") == None
  {
    assert "--:--" == Join(["--", "--"], ':');
    SplitJoin(["--", "--"], ':');
    assert !IsDigit(Split("--:--", ':')[1][0]);
  }

  /** `medals`. */
  const Medals: seq<string> := ["\U{1F947}", "\U{1F948}", "\U{1F949}"]

  /** `medals[index] || `${index + 1}.``. */
  function RankLabel(index: nat): string {
    if index < |Medals| then Medals[index] else NatToString(index + 1) + "."
  }

  /** The first three places get the three medals, and every place a label of its own. */
  lemma RankLabelsDistinct(i: nat, j: nat)
    requires i != j
    ensures RankLabel(i) != RankLabel(j)
  {
    if i >= |Medals| && j >= |Medals| {
      NumberedLabelsDistinct(i + 1, j + 1);
    } else if i < |Medals| && j >= |Medals| {
      NumberedLabelStartsWithDigit(j + 1);
    } else if i >= |Medals| && j < |Medals| {
      NumberedLabelStartsWithDigit(i + 1);
    }
  }

  lemma NumberedLabelStartsWithDigit(n: nat)
    ensures IsDigit((NatToString(n) + ".")[0])
  {
  }

  /** Different numbers give different "n." labels: the label reads back as its number. */
  lemma NumberedLabelsDistinct(m: nat, n: nat)
    requires m != n
    ensures NatToString(m) + "." != NatToString(n) + "."
  {
    var a, b := NatToString(m) + ".", NatToString(n) + ".";
    assert a[..|a| - 1] == NatToString(m);
    assert b[..|b| - 1] == NatToString(n);
    ParseNatToString(m);
    ParseNatToString(n);
  }

  /** One row of a section. */
  datatype Entry = Entry(rank: string, playerName: string, time: string, correctAnswers: nat, totalQuestions: nat)

  datatype Section = Placeholder | Entries(entries: seq<Entry>)

  function EntriesFrom(leaders: seq<SessionRow>, start: nat): (r: seq<Entry>)
    ensures |r| == |leaders|
    ensures forall k :: 0 <= k < |r| ==>
      r[k] == Entry(RankLabel(start + k), leaders[k].playerName, FormatTime(Some(leaders[k].totalTimeSeconds)),
                    leaders[k].correctAnswers, leaders[k].totalQuestions)
  {
    if leaders == [] then []
    else
      var l := leaders[0];
      [Entry(RankLabel(start), l.playerName, FormatTime(Some(l.totalTimeSeconds)), l.correctAnswers, l.totalQuestions)]
        + EntriesFrom(leaders[1..], start + 1)
  }

  /** `LeaderboardSection`. */
  function SectionFor(leaders: seq<SessionRow>): Section {
    if |leaders| == 0 then Placeholder else Entries(EntriesFrom(leaders, 0))
  }

  /** The board holds the five fastest qualifying sessions, or all of them when fewer qualify. */
  lemma BoardLength(rows: seq<SessionRow>, frame: TimeFrame, weekAgo: int)
    ensures var all := Filtered(rows, frame, weekAgo);
      |GetLeaderboard(rows, frame, weekAgo, false)| == if |all| <= Limit then |all| else Limit
  {
    var all := Filtered(rows, frame, weekAgo);
    assert |SortByTime(all)| == |multiset(SortByTime(all))| == |all|;
  }

  /**
   * For a board fetched from the table: the placeholder shows exactly when
   * no session qualifies; otherwise there is one row per leader, at most
   * five, in order, the first three with medals and the rest numbered from 4.
   */
  lemma BoardSectionRules(rows: seq<SessionRow>, frame: TimeFrame, weekAgo: int)
    ensures var board := GetLeaderboard(rows, frame, weekAgo, false);
      var section := SectionFor(board);
      && (section.Placeholder? <==> forall x :: x in rows ==> !Qualifies(x, frame, weekAgo))
      && (section.Entries? ==>
            && |section.entries| == |board| <= Limit
            && (forall k :: 0 <= k < |board| ==> section.entries[k].playerName == board[k].playerName)
            && (forall k :: 0 <= k < |board| && k < 3 ==> section.entries[k].rank == Medals[k])
            && (forall k :: 3 <= k < |board| ==> section.entries[k].rank == NatToString(k + 1) + "."))
  {
    BoardLength(rows, frame, weekAgo);
    var all := Filtered(rows, frame, weekAgo);
    if all != [] {
      assert all[0] in all;
    }
  }
}
