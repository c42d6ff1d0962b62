/**
 * `GameComplete`: the "m:ss" clock, victory, and the accuracy figure of
 * the end-of-game screen, with the statistics `GameScreen` hands to it.
 */
module GameComplete {
  import opened Common
  import opened Text
  import opened Rules
  import opened QuestionBank
  import opened Session
  import Percent

  /** `formatTime`: whole minutes, a colon, and the remaining seconds padded to two digits. */
  function FormatClock(seconds: nat): string {
    NatToString(seconds / 60) + ":" + PadTwo(seconds % 60)
  }

  /** Reads an "m:ss" clock back as seconds: digits, a colon, and two digits below 60. */
  function ParseClock(s: string): Option<nat> {
    var parts := Split(s, ':');
    if |parts| != 2 || |parts[1]| != 2 || !AllDigits(parts[1]) || DigitsValue(parts[1]) >= 60 then None
    else
      match ParseNat(parts[0])
      case None => None
      case Some(m) => Some(m * 60 + DigitsValue(parts[1]))
  }

  /**
   * The clock reads back as the seconds it shows, and its seconds part is
   * always exactly two digits between 00 and 59.
   */
  lemma {:induction false} ClockRoundTrip(seconds: nat)
    ensures ParseClock(FormatClock(seconds)) == Some(seconds)
    ensures var parts := Split(FormatClock(seconds), ':');
      |parts| == 2 && |parts[1]| == 2 && AllDigits(parts[1]) && DigitsValue(parts[1]) == seconds % 60
  {
    var m, r := seconds / 60, seconds % 60;
    var parts := [NatToString(m), PadTwo(r)];
    assert Join(parts[1..], ':') == PadTwo(r);
    assert FormatClock(seconds) == Join(parts, ':');
    NoColon(NatToString(m));
    NoColon(PadTwo(r));
    SplitJoin(parts, ':');
    ParseNatToString(m);
    PadTwoValue(r);
  }

  lemma NoColon(s: string)
    requires AllDigits(s)
    ensures ':' !in s
  {
  }

  /** `isVictory`. */
  predicate IsVictory(finalRung: int) {
    finalRung == TopRung
  }

  /** The heading chosen by `isVictory`. */
  function Title(finalRung: int): string {
    if IsVictory(finalRung) then "YOU DID IT!" else "GAME OVER"
  }

  /** The accuracy figure: none when no question was answered (the source shows NaN). */
  function Accuracy(correct: nat, total: nat): Option<nat> {
    if total == 0 then None else Some(Percent.RoundedPercent(correct, total))
  }

  lemma AccuracyMeaning(correct: nat, total: nat)
    ensures Accuracy(correct, total).None? <==> total == 0
    ensures total > 0 ==>
      var p := Accuracy(correct, total).value;
      (2 * p - 1) * total <= 200 * correct < (2 * p + 1) * total
    ensures total > 0 && correct <= total ==> Accuracy(correct, total).value <= 100
    ensures total > 0 && correct == total ==> Accuracy(correct, total) == Some(100)
  {
    if total > 0 && correct == total {
      Percent.RoundedPercentUnique(correct, total, 100);
    }
  }

  /** The `stats` the end screen receives. */
  datatype CompleteStats = CompleteStats(
    totalTime: nat,
    totalQuestions: nat,
    correctAnswers: nat,
    wrongAnswers: nat,
    finalScore: nat,
    finalRung: int)

  function StatsFor(s: State, totalTime: nat): CompleteStats {
    CompleteStats(totalTime, s.totalQuestions, s.correctAnswers, s.wrongAnswers, s.score, s.currentRung)
  }

  /**
   * Whatever the game, the end screen is always a victory, with at least
   * seven correct answers and an accuracy figure of at most 100.
   */
  lemma EndScreenIsVictory(events: seq<Event>, table: seq<Question>, totalTime: nat)
    ensures var t := Run(Initial(), events, table);
      var stats := StatsFor(t, totalTime);
      t.gamePhase == CompletePhase ==>
        && IsVictory(stats.finalRung) && Title(stats.finalRung) == "YOU DID IT!"
        && stats.correctAnswers >= TopRung - StartRung
        && Accuracy(stats.correctAnswers, stats.totalQuestions).Some?
        && Accuracy(stats.correctAnswers, stats.totalQuestions).value <= 100
  {
    InitialInv();
    RunKeepsInvAndEvolves(Initial(), events, table);
    var t := Run(Initial(), events, table);
    if t.gamePhase == CompletePhase {
      TopNeedsSevenCorrect(t);
      TotalIsCorrectPlusWrong(t);
      AccuracyMeaning(t.correctAnswers, t.totalQuestions);
    }
  }

  /**
   * The corrected summary of a won game carries the figures the end screen
   * shows once the player moves on from the last feedback. The two read the
   * clock at different moments (`totalTime` when the winning answer is
   * graded, `shownTime` when the end screen renders), so the saved time is
   * that of the first reading, and never more than the one shown when the
   * clock has not gone back.
   */
  lemma SummaryMatchesEndScreen(s: State, sel: Selection, timeTaken: nat, totalTime: nat, shownTime: nat,
                                table: seq<Question>, pick: nat, fails: bool)
    requires Inv(s) && s.currentQuestion.Some? && s.currentRung == TopRung - 1
    ensures var won := Graded(s, sel, true, timeTaken, totalTime);
      var shown := StatsFor(NextQuestion(won, table, pick, fails), shownTime);
      var saved := won.summary.value;
      && won.summary.Some?
      && NextQuestion(won, table, pick, fails).gamePhase == CompletePhase
      && saved == Summary(shown.finalRung, shown.totalQuestions, shown.correctAnswers, shown.wrongAnswers,
                          totalTime, shown.finalScore, true)
      && shown.totalTime == shownTime
      && (totalTime <= shownTime ==> saved.totalTimeSeconds <= shown.totalTime)
  {
  }
}
