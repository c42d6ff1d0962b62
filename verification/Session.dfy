/**
 * The game session of `GameScreen`: its state, and one transition function
 * per handler, each applying all of that handler's `set...` updates at once.
 * These functions specify the methods of `GameScreen.GameSession`; the
 * invariants and the rules of the game are proved about them here.
 *
 * Wall-clock readings (`Date.now()`) enter as the elapsed seconds
 * `timeTaken` and `totalTime`; the random question pick as `pick`; a failed
 * database query as `fails`.
 */
module Session {
  import opened Common
  import opened Rules
  import opened QuestionBank
  import AnswerStats

  /** `gamePhase`: 'loading', 'question', 'feedback' or 'complete'. */
  datatype Phase = LoadingPhase | QuestionPhase | FeedbackPhase | CompletePhase

  /** What `handleAnswer` grades: a chosen option, or the timer running out. */
  datatype Selection = Letter(letter: char) | Timeout

  /** The answer string `recordAnswer` stores: the letter, or 'T' for a timeout. */
  function Recorded(sel: Selection): char {
    match sel
    case Letter(c) => c
    case Timeout => 'T'
  }

  /** `lifelinesUsed`. */
  datatype Lifelines = Lifelines(askAudience: bool, safetyNet: bool)

  /** `feedbackData`, what the feedback screen shows. */
  datatype Feedback = Feedback(
    isCorrect: bool,
    correctAnswer: char,
    teachingPoint: string,
    newRung: int,
    oldRung: int,
    timeTaken: nat,
    points: nat)

  /** One row handed to `recordAnswer`. */
  datatype AnswerRecord = AnswerRecord(
    questionId: int,
    selected: char,
    isCorrect: bool,
    timeTaken: nat,
    rungAtTime: int)

  /** What `completeGame` persists with `updateGameSession` and passes to `onGameComplete`. */
  datatype Summary = Summary(
    finalRung: int,
    totalQuestions: nat,
    correctAnswers: nat,
    wrongAnswers: nat,
    totalTimeSeconds: nat,
    finalScore: nat,
    completed: bool)

  /**
   * The session state. `answers` is the log of rows recorded so far, and
   * `returnedHome` says that `onBackHome` was called after a failed load.
   */
  datatype State = State(
    currentRung: int,
    currentQuestion: Option<Question>,
    askedQuestionIds: seq<int>,
    gamePhase: Phase,
    feedbackData: Option<Feedback>,
    totalQuestions: nat,
    correctAnswers: nat,
    wrongAnswers: nat,
    score: nat,
    passesRemaining: int,
    lifelinesUsed: Lifelines,
    safetyNetActive: bool,
    showAudienceModal: bool,
    audienceData: Option<AnswerStats.AudienceStats>,
    timeLeft: int,
    timerRunning: bool,
    answers: seq<AnswerRecord>,
    summary: Option<Summary>,
    returnedHome: bool)

  /** The number of correctly answered rows in the log. */
  function CorrectCount(log: seq<AnswerRecord>): nat {
    if log == [] then 0
    else CorrectCount(log[..|log| - 1]) + (if log[|log| - 1].isCorrect then 1 else 0)
  }

  /** The number of wrongly answered (or timed out) rows in the log. */
  function WrongCount(log: seq<AnswerRecord>): nat {
    if log == [] then 0
    else WrongCount(log[..|log| - 1]) + (if log[|log| - 1].isCorrect then 0 else 1)
  }

  /** The points the log has earned: `calculatePoints` of the rung of each correct answer. */
  function Earned(log: seq<AnswerRecord>): nat {
    if log == [] then 0
    else Earned(log[..|log| - 1]) + (if log[|log| - 1].isCorrect then Points(log[|log| - 1].rungAtTime) else 0)
  }

  /** Every recorded answer is either correct or wrong. */
  lemma {:induction false} CountsPartitionLog(log: seq<AnswerRecord>)
    ensures CorrectCount(log) + WrongCount(log) == |log|
  {
    if log != [] {
      CountsPartitionLog(log[..|log| - 1]);
    }
  }

  /** Appending a row adds its correctness and its points. */
  lemma AppendRecord(log: seq<AnswerRecord>, rec: AnswerRecord)
    ensures CorrectCount(log + [rec]) == CorrectCount(log) + (if rec.isCorrect then 1 else 0)
    ensures WrongCount(log + [rec]) == WrongCount(log) + (if rec.isCorrect then 0 else 1)
    ensures Earned(log + [rec]) == Earned(log) + (if rec.isCorrect then Points(rec.rungAtTime) else 0)
  {
    assert (log + [rec])[..|log|] == log;
  }

  /** The invariants every reachable session state keeps. */
  ghost predicate Inv(s: State) {
    && IsRung(s.currentRung)
    && 0 <= s.passesRemaining <= StartPasses
    && s.timeLeft >= 0
    && s.totalQuestions == |s.answers|
    && s.correctAnswers == CorrectCount(s.answers)
    && s.wrongAnswers == WrongCount(s.answers)
    && s.score == Earned(s.answers)
    && s.currentRung <= StartRung + s.correctAnswers
    && (s.safetyNetActive ==> s.lifelinesUsed.safetyNet)
    && (s.gamePhase == QuestionPhase ==> s.currentQuestion.Some?)
    && (s.currentQuestion.Some? ==> s.currentQuestion.value.id in s.askedQuestionIds)
    && (s.gamePhase == FeedbackPhase ==> s.feedbackData.Some? && s.feedbackData.value.newRung == s.currentRung)
    && (s.gamePhase == CompletePhase ==> s.currentRung == TopRung)
    // Questions are only ever shown below the top rung.
    && (s.gamePhase == QuestionPhase ==> s.currentRung < TopRung)
    // There is feedback from the first answer on.
    && (s.feedbackData.None? ==> s.answers == [])
    // The last answer, if wrong, left the player below rung 9.
    && (s.feedbackData.Some? && !s.feedbackData.value.isCorrect ==> s.currentRung < TopRung - 1)
    // The summary is written on reaching the top, and only then.
    && (s.summary.Some? <==> s.currentRung == TopRung)
  }

  /** The `useState` initial values. */
  function Initial(): State {
    State(StartRung, None, [], LoadingPhase, None, 0, 0, 0, 0, StartPasses,
          Lifelines(false, false), false, false, None, 30, false, [], None, false)
  }

  /** `loadQuestion(rung)`. */
  function Loaded(s: State, rung: int, table: seq<Question>, pick: nat, fails: bool): State {
    var q := GetQuestionForRung(table, rung, s.askedQuestionIds, pick, fails);
    if q.None? then s.(gamePhase := LoadingPhase, returnedHome := true)
    else s.(currentQuestion := q,
            askedQuestionIds := s.askedQuestionIds + [q.value.id],
            timeLeft := TimeLimit(rung),
            timerRunning := true,
            gamePhase := QuestionPhase)
  }

  /** `initializeGame`: with a session row created, load a question at the starting rung. */
  function Initialized(s: State, created: bool, table: seq<Question>, pick: nat, fails: bool): State {
    if created then Loaded(s, StartRung, table, pick, fails) else s.(returnedHome := true)
  }

  /** The summary `completeGame` persists, with the counters of the answer being graded. */
  function CompletionSummary(s: State, finalRung: int, isCorrect: bool, totalTime: nat): Summary {
    var points := if isCorrect then Points(s.currentRung) else 0;
    Summary(finalRung, s.totalQuestions + 1,
            s.correctAnswers + (if isCorrect then 1 else 0),
            s.wrongAnswers + (if isCorrect then 0 else 1),
            totalTime, s.score + points, finalRung == TopRung)
  }

  /**
   * The summary as `completeGame` writes it: `score` and `feedbackData`
   * are read before this answer's updates, so the last answer's points are
   * missing and its correctness is taken from the previous feedback.
   */
  function CompletionSummaryAsWritten(s: State, finalRung: int, totalTime: nat): Summary {
    var lastCorrect := s.feedbackData.Some? && s.feedbackData.value.isCorrect;
    Summary(finalRung, s.totalQuestions + 1,
            s.correctAnswers + (if lastCorrect then 1 else 0),
            s.wrongAnswers + (if lastCorrect then 0 else 1),
            totalTime, s.score, finalRung == TopRung)
  }

  /** `handleAnswer(selected, isCorrect)`, with `completeGame` when rung 10 is reached. */
  function Graded(s: State, sel: Selection, isCorrect: bool, timeTaken: nat, totalTime: nat): State
    requires s.currentQuestion.Some?
  {
    var q := s.currentQuestion.value;
    var oldRung := s.currentRung;
    var points := if isCorrect then Points(oldRung) else 0;
    var newRung := NextRung(oldRung, isCorrect, s.safetyNetActive);
    s.(timerRunning := false,
       answers := s.answers + [AnswerRecord(q.id, Recorded(sel), isCorrect, timeTaken, oldRung)],
       totalQuestions := s.totalQuestions + 1,
       correctAnswers := s.correctAnswers + (if isCorrect then 1 else 0),
       wrongAnswers := s.wrongAnswers + (if isCorrect then 0 else 1),
       score := s.score + points,
       safetyNetActive := false,
       feedbackData := Some(Feedback(isCorrect, q.correctAnswer, q.teachingPoint, newRung, oldRung, timeTaken, points)),
       currentRung := newRung,
       gamePhase := FeedbackPhase,
       summary := if newRung == TopRung then Some(CompletionSummary(s, newRung, isCorrect, totalTime)) else s.summary)
  }

  /** The steps of `handleAnswer`, in order: log the answer ... */
  function AnswerLogged(s: State, rec: AnswerRecord): State {
    s.(answers := s.answers + [rec])
  }

  /** ... count it and add its points ... */
  function Counted(s: State, isCorrect: bool, points: nat): State {
    s.(totalQuestions := s.totalQuestions + 1,
       correctAnswers := s.correctAnswers + (if isCorrect then 1 else 0),
       wrongAnswers := s.wrongAnswers + (if isCorrect then 0 else 1),
       score := s.score + points)
  }

  /** ... clear the safety net, move to the new rung and show the feedback ... */
  function FeedbackShown(s: State, fb: Feedback): State {
    s.(safetyNetActive := false, feedbackData := Some(fb), currentRung := fb.newRung, gamePhase := FeedbackPhase)
  }

  /** ... and at rung 10 persist the summary from the updated counters. */
  function Completed(s: State, totalTime: nat): State {
    if s.currentRung == TopRung then
      s.(summary := Some(Summary(s.currentRung, s.totalQuestions, s.correctAnswers, s.wrongAnswers,
                                 totalTime, s.score, true)))
    else s
  }

  /** Grading an answer is those four steps, one after the other. */
  lemma GradedInSteps(s: State, sel: Selection, isCorrect: bool, timeTaken: nat, totalTime: nat)
    requires s.currentQuestion.Some?
    ensures var q := s.currentQuestion.value;
      var points := if isCorrect then Points(s.currentRung) else 0;
      var newRung := NextRung(s.currentRung, isCorrect, s.safetyNetActive);
      var rec := AnswerRecord(q.id, Recorded(sel), isCorrect, timeTaken, s.currentRung);
      var fb := Feedback(isCorrect, q.correctAnswer, q.teachingPoint, newRung, s.currentRung, timeTaken, points);
      Graded(s, sel, isCorrect, timeTaken, totalTime)
        == Completed(FeedbackShown(Counted(AnswerLogged(s.(timerRunning := false), rec), isCorrect, points), fb), totalTime)
  {
  }

  /**
   * How the screen grades a selection: a letter against the question's
   * `correct_answer` (`onAnswer`), a timeout as wrong (`handleTimeout`).
   */
  function Grade(q: Question, sel: Selection): bool {
    match sel
    case Letter(c) => c == q.correctAnswer
    case Timeout => false
  }

  /** `handleTimeout`: stop the timer and grade a wrong answer recorded as 'T'. */
  function TimedOut(s: State, timeTaken: nat, totalTime: nat): State
    requires s.currentQuestion.Some?
  {
    Graded(s.(timerRunning := false), Timeout, false, timeTaken, totalTime)
  }

  /** One run of the interval body of the countdown effect. */
  function Ticked(s: State, timeTaken: nat, totalTime: nat): State
    requires Inv(s)
  {
    if !s.timerRunning || s.gamePhase != QuestionPhase then s
    else if s.timeLeft <= 1 then TimedOut(s, timeTaken, totalTime).(timeLeft := 0)
    else s.(timeLeft := s.timeLeft - 1)
  }

  /** `handleNextQuestion`. */
  function NextQuestion(s: State, table: seq<Question>, pick: nat, fails: bool): State {
    if s.currentRung == TopRung then s.(gamePhase := CompletePhase)
    else Loaded(s, s.currentRung, table, pick, fails)
  }

  /** `handlePass`. */
  function Passed(s: State, table: seq<Question>, pick: nat, fails: bool): State {
    if s.passesRemaining > 0 then
      Loaded(s.(passesRemaining := s.passesRemaining - 1, timerRunning := false), s.currentRung, table, pick, fails)
    else s
  }

  /** `handleAskAudience`, reading the statistics table `rows`; `fails` says the query failed. */
  function AudienceAsked(s: State, rows: map<int, AnswerStats.StatsRow>, fails: bool): State
    requires !s.lifelinesUsed.askAudience ==> s.currentQuestion.Some?
  {
    if !s.lifelinesUsed.askAudience then
      s.(timerRunning := false,
         audienceData := AnswerStats.GetAudienceStats(rows, s.currentQuestion.value.id, fails),
         showAudienceModal := true,
         lifelinesUsed := s.lifelinesUsed.(askAudience := true))
    else s
  }

  /** `handleCloseAudienceModal`. */
  function AudienceClosed(s: State): State {
    s.(showAudienceModal := false, timerRunning := true)
  }

  /** `handleSafetyNet`. */
  function SafetyNetTaken(s: State): State {
    if !s.lifelinesUsed.safetyNet then
      s.(safetyNetActive := true, lifelinesUsed := s.lifelinesUsed.(safetyNet := true))
    else s
  }

  // ---------------------------------------------------------------------
  // The invariants hold initially and are kept by every handler.

  lemma InitialInv()
    ensures Inv(Initial())
    ensures Initial().currentRung == StartRung && Initial().passesRemaining == StartPasses
  {
  }

  /** Questions are loaded below the top rung: at the start, after feedback below 10, and on a pass. */
  lemma LoadedKeepsInv(s: State, rung: int, table: seq<Question>, pick: nat, fails: bool)
    requires Inv(s) && s.currentRung < TopRung
    ensures Inv(Loaded(s, rung, table, pick, fails))
  {
    var q := GetQuestionForRung(table, rung, s.askedQuestionIds, pick, fails);
    if q.Some? {
      var t := s.(currentQuestion := q, askedQuestionIds := s.askedQuestionIds + [q.value.id],
                  timeLeft := TimeLimit(rung), timerRunning := true, gamePhase := QuestionPhase);
      assert t.currentQuestion.value.id in t.askedQuestionIds;
      assert Loaded(s, rung, table, pick, fails) == t;
    }
  }

  lemma InitializedKeepsInv(s: State, created: bool, table: seq<Question>, pick: nat, fails: bool)
    requires Inv(s) && s.currentRung < TopRung
    ensures Inv(Initialized(s, created, table, pick, fails))
  {
    LoadedKeepsInv(s, StartRung, table, pick, fails);
  }

  /** Answers are given in the question phase, the only one that shows the options. */
  lemma GradedKeepsInv(s: State, sel: Selection, isCorrect: bool, timeTaken: nat, totalTime: nat)
    requires Inv(s) && s.gamePhase == QuestionPhase && s.currentQuestion.Some?
    ensures Inv(Graded(s, sel, isCorrect, timeTaken, totalTime))
  {
    var rec := AnswerRecord(s.currentQuestion.value.id, Recorded(sel), isCorrect, timeTaken, s.currentRung);
    AppendRecord(s.answers, rec);
    NextRungOnLadder(s.currentRung, isCorrect, s.safetyNetActive);
  }

  lemma TickedKeepsInv(s: State, timeTaken: nat, totalTime: nat)
    requires Inv(s)
    ensures Inv(Ticked(s, timeTaken, totalTime))
  {
    if s.timerRunning && s.gamePhase == QuestionPhase && s.timeLeft <= 1 {
      GradedKeepsInv(s.(timerRunning := false), Timeout, false, timeTaken, totalTime);
    }
  }

  lemma NextQuestionKeepsInv(s: State, table: seq<Question>, pick: nat, fails: bool)
    requires Inv(s)
    ensures Inv(NextQuestion(s, table, pick, fails))
  {
    if s.currentRung != TopRung {
      LoadedKeepsInv(s, s.currentRung, table, pick, fails);
    }
  }

  /** The pass button is part of the question panel. */
  lemma PassedKeepsInv(s: State, table: seq<Question>, pick: nat, fails: bool)
    requires Inv(s) && s.gamePhase == QuestionPhase
    ensures Inv(Passed(s, table, pick, fails))
  {
    if s.passesRemaining > 0 {
      var spent := s.(passesRemaining := s.passesRemaining - 1, timerRunning := false);
      PassSpentKeepsInv(s);
      assert Passed(s, table, pick, fails) == Loaded(spent, s.currentRung, table, pick, fails);
      LoadedKeepsInv(spent, s.currentRung, table, pick, fails);
    }
  }

  lemma PassSpentKeepsInv(s: State)
    requires Inv(s) && s.passesRemaining > 0 && s.gamePhase == QuestionPhase
    ensures Inv(s.(passesRemaining := s.passesRemaining - 1, timerRunning := false))
  {
  }

  lemma LifelinesKeepInv(s: State, rows: map<int, AnswerStats.StatsRow>, fails: bool)
    requires Inv(s)
    ensures !s.lifelinesUsed.askAudience && s.currentQuestion.Some? ==> Inv(AudienceAsked(s, rows, fails))
    ensures s.lifelinesUsed.askAudience ==> Inv(AudienceAsked(s, rows, fails))
    ensures Inv(AudienceClosed(s))
    ensures Inv(SafetyNetTaken(s))
  {
  }

  /** Every session has answered exactly as many questions as it got right and wrong. */
  lemma TotalIsCorrectPlusWrong(s: State)
    requires Inv(s)
    ensures s.totalQuestions == s.correctAnswers + s.wrongAnswers
  {
    CountsPartitionLog(s.answers);
  }

  /** Reaching the top takes at least seven correct answers. */
  lemma TopNeedsSevenCorrect(s: State)
    requires Inv(s) && s.currentRung == TopRung
    ensures s.correctAnswers >= TopRung - StartRung
    ensures s.totalQuestions >= TopRung - StartRung
  {
    TotalIsCorrectPlusWrong(s);
  }

  // ---------------------------------------------------------------------
  // What each handler does.

  /**
   * Grading: a correct answer climbs one rung (not past 10), a wrong one
   * drops two, or one under the safety net (not below 1); the safety net is
   * cleared either way. The total grows by one and exactly one of the
   * correct and wrong counters with it; the score grows by the rung's
   * points only for a correct answer, and the feedback reports 0 otherwise.
   */
  lemma GradedRules(s: State, sel: Selection, isCorrect: bool, timeTaken: nat, totalTime: nat)
    requires Inv(s) && s.gamePhase == QuestionPhase
    ensures var t := Graded(s, sel, isCorrect, timeTaken, totalTime);
      && (isCorrect ==> t.currentRung == (if s.currentRung + 1 < TopRung then s.currentRung + 1 else TopRung))
      && (!isCorrect ==> t.currentRung == (if s.currentRung - Drop(s.safetyNetActive) > BottomRung
                                             then s.currentRung - Drop(s.safetyNetActive) else BottomRung))
      && !t.safetyNetActive && !t.timerRunning && t.gamePhase == FeedbackPhase
      && t.totalQuestions == s.totalQuestions + 1
      && t.correctAnswers + t.wrongAnswers == s.correctAnswers + s.wrongAnswers + 1
      && (isCorrect <==> t.correctAnswers == s.correctAnswers + 1)
      && (!isCorrect <==> t.wrongAnswers == s.wrongAnswers + 1)
      && t.score == s.score + (if isCorrect then Points(s.currentRung) else 0)
      && t.feedbackData.Some? && t.feedbackData.value.points == (if isCorrect then Points(s.currentRung) else 0)
      && t.feedbackData.value.oldRung == s.currentRung && t.feedbackData.value.newRung == t.currentRung
      && t.answers == s.answers + [AnswerRecord(s.currentQuestion.value.id, Recorded(sel), isCorrect, timeTaken, s.currentRung)]
      && t.passesRemaining == s.passesRemaining && t.lifelinesUsed == s.lifelinesUsed
      && t.askedQuestionIds == s.askedQuestionIds
      && Inv(t)
  {
    GradedKeepsInv(s, sel, isCorrect, timeTaken, totalTime);
  }

  /**
   * Reaching rung 10 finishes the game: only a correct answer from rung 9
   * gets there, and the summary then records a completed game whose
   * counters and score are the session's after this answer.
   */
  lemma GradedCompletion(s: State, sel: Selection, isCorrect: bool, timeTaken: nat, totalTime: nat)
    requires Inv(s) && s.currentQuestion.Some? && s.currentRung < TopRung
    ensures var t := Graded(s, sel, isCorrect, timeTaken, totalTime);
      && (t.currentRung == TopRung <==> isCorrect && s.currentRung == TopRung - 1)
      && (t.currentRung == TopRung ==>
            t.summary == Some(Summary(TopRung, t.totalQuestions, t.correctAnswers, t.wrongAnswers,
                                      totalTime, t.score, true)))
      && (t.currentRung != TopRung ==> t.summary == s.summary)
  {
  }

  /**
   * The winning answer always follows a correct one: rung 9 takes six correct
   * answers from the start, so there has been feedback, and a wrong last
   * answer would have left the player below rung 9.
   */
  lemma WinningAnswerFollowsCorrectOne(s: State)
    requires Inv(s) && s.gamePhase == QuestionPhase && s.currentRung == TopRung - 1
    ensures s.feedbackData.Some? && s.feedbackData.value.isCorrect
    ensures s.correctAnswers >= TopRung - 1 - StartRung
  {
  }

  /**
   * The summary as written understates the game it closes by exactly the
   * winning answer's 100 points: every other field agrees with the summary
   * of the session after that answer.
   */
  lemma AsWrittenSummaryLags(s: State, sel: Selection, timeTaken: nat, totalTime: nat)
    requires Inv(s) && s.gamePhase == QuestionPhase && s.currentRung == TopRung - 1
    ensures var t := Graded(s, sel, true, timeTaken, totalTime);
      && t.summary.Some? && t.summary.value.finalScore == t.score
      && CompletionSummaryAsWritten(s, TopRung, totalTime) == t.summary.value.(finalScore := t.score - 100)
  {
    WinningAnswerFollowsCorrectOne(s);
  }

  /**
   * A concrete session that keeps the invariants and shows the lag: six
   * correct answers from rung 3 to rung 8 have earned 185 points, the winning
   * answer at rung 9 brings the score to 285, and the summary as written
   * persists 185.
   */
  lemma AsWrittenSummaryCounterexample()
    ensures var log := [AnswerRecord(3, 'A', true, 5, 3), AnswerRecord(4, 'A', true, 5, 4),
                        AnswerRecord(5, 'A', true, 5, 5), AnswerRecord(6, 'A', true, 5, 6),
                        AnswerRecord(7, 'A', true, 5, 7), AnswerRecord(8, 'A', true, 5, 8)];
      var s := Initial().(currentRung := 9, currentQuestion := Some(Question(9, 9, 'B', "", None)),
                          askedQuestionIds := [3, 4, 5, 6, 7, 8, 9], gamePhase := QuestionPhase,
                          feedbackData := Some(Feedback(true, 'A', "", 9, 8, 5, 50)),
                          totalQuestions := 6, correctAnswers := 6, score := 185,
                          timeLeft := 20, timerRunning := true, answers := log);
      var t := Graded(s, Letter('B'), true, 4, 300);
      && Inv(s)
      && t.summary.Some? && t.summary.value.finalScore == 285 && t.score == 285
      && CompletionSummaryAsWritten(s, TopRung, 300).finalScore == 185
  {
    // The log, one recorded answer at a time.
    var r3, r4, r5 := AnswerRecord(3, 'A', true, 5, 3), AnswerRecord(4, 'A', true, 5, 4), AnswerRecord(5, 'A', true, 5, 5);
    var r6, r7, r8 := AnswerRecord(6, 'A', true, 5, 6), AnswerRecord(7, 'A', true, 5, 7), AnswerRecord(8, 'A', true, 5, 8);
    AppendRecord([], r3);
    assert [] + [r3] == [r3];
    AppendRecord([r3], r4);
    assert [r3] + [r4] == [r3, r4];
    AppendRecord([r3, r4], r5);
    assert [r3, r4] + [r5] == [r3, r4, r5];
    AppendRecord([r3, r4, r5], r6);
    assert [r3, r4, r5] + [r6] == [r3, r4, r5, r6];
    AppendRecord([r3, r4, r5, r6], r7);
    assert [r3, r4, r5, r6] + [r7] == [r3, r4, r5, r6, r7];
    AppendRecord([r3, r4, r5, r6, r7], r8);
    assert [r3, r4, r5, r6, r7] + [r8] == [r3, r4, r5, r6, r7, r8];
  }

  /**
   * Loading a question: on success the id is appended to the asked list,
   * the question is of the requested rung, it is one not asked before
   * whenever the rung still has such a question, the clock is set to the
   * rung's limit and runs, and the phase is 'question'. On failure the
   * player is sent home and the asked list is unchanged.
   */
  lemma LoadedRules(s: State, rung: int, table: seq<Question>, pick: nat, fails: bool)
    ensures var t := Loaded(s, rung, table, pick, fails);
      && t.currentRung == s.currentRung && t.score == s.score && t.answers == s.answers
      && t.passesRemaining == s.passesRemaining && t.lifelinesUsed == s.lifelinesUsed
      && (t.gamePhase == QuestionPhase ==>
            && t.currentQuestion.Some?
            && t.askedQuestionIds == s.askedQuestionIds + [t.currentQuestion.value.id]
            && t.currentQuestion.value in table && t.currentQuestion.value.rungLevel == rung
            && ((exists q :: q in table && q.rungLevel == rung && q.id !in s.askedQuestionIds) ==>
                  t.currentQuestion.value.id !in s.askedQuestionIds)
            && t.timeLeft == TimeLimit(rung) && t.timerRunning && !t.returnedHome == !s.returnedHome)
      && (t.gamePhase != QuestionPhase ==>
            t.gamePhase == LoadingPhase && t.returnedHome && t.askedQuestionIds == s.askedQuestionIds)
      && (t.gamePhase != QuestionPhase <==> fails || forall q :: q in table ==> q.rungLevel != rung)
  {
    ResultIsFromRung(table, rung, s.askedQuestionIds, pick, fails);
    if q0 :| q0 in table && q0.rungLevel == rung && q0.id !in s.askedQuestionIds {
      if !fails {
        PicksUnaskedWhileAvailable(table, rung, s.askedQuestionIds, pick, q0);
      }
    }
  }

  /**
   * The countdown: nothing happens unless the timer runs in the question
   * phase; otherwise one second is taken off, and at one second or less the
   * clock shows 0 and the question is graded as a wrong answer recorded 'T'.
   */
  lemma TickedRules(s: State, timeTaken: nat, totalTime: nat)
    requires Inv(s)
    ensures var t := Ticked(s, timeTaken, totalTime);
      && (!s.timerRunning || s.gamePhase != QuestionPhase ==> t == s)
      && (s.timerRunning && s.gamePhase == QuestionPhase && s.timeLeft > 1 ==>
            t == s.(timeLeft := s.timeLeft - 1))
      && (s.timerRunning && s.gamePhase == QuestionPhase && s.timeLeft <= 1 ==>
            && t.timeLeft == 0 && !t.timerRunning && t.gamePhase == FeedbackPhase
            && t.answers == s.answers + [AnswerRecord(s.currentQuestion.value.id, 'T', false, timeTaken, s.currentRung)]
            && t.currentRung == NextRung(s.currentRung, false, s.safetyNetActive)
            && t.score == s.score && t.wrongAnswers == s.wrongAnswers + 1)
  {
  }

  /**
   * A pass acts only while passes remain: it uses up exactly one and loads
   * another question at the same rung, leaving rung, score and counters alone.
   */
  lemma PassedRules(s: State, table: seq<Question>, pick: nat, fails: bool)
    requires Inv(s)
    ensures var t := Passed(s, table, pick, fails);
      && (s.passesRemaining == 0 ==> t == s)
      && (s.passesRemaining > 0 ==>
            && t.passesRemaining == s.passesRemaining - 1
            && t == Loaded(s.(passesRemaining := s.passesRemaining - 1, timerRunning := false),
                           s.currentRung, table, pick, fails))
      && t.currentRung == s.currentRung && t.score == s.score
      && t.totalQuestions == s.totalQuestions && t.correctAnswers == s.correctAnswers
      && t.wrongAnswers == s.wrongAnswers && t.answers == s.answers
  {
    if s.passesRemaining > 0 {
      LoadedRules(s.(passesRemaining := s.passesRemaining - 1, timerRunning := false), s.currentRung, table, pick, fails);
    }
  }

  /** Three passes in a row: the third does nothing, and no passes are left. */
  lemma ThirdPassIsNoOp(table: seq<Question>, pick: nat)
    ensures var s0 := Initial();
      var s1 := Passed(s0, table, pick, false);
      var s2 := Passed(s1, table, pick, false);
      && s2.passesRemaining == 0
      && Passed(s2, table, pick, false) == s2
  {
  }

  /**
   * The lifelines are one-shot: asking the audience and the safety net act
   * only while unused and leave their flag set; once used, calling them
   * again changes nothing. Asking the audience pauses the clock (and is used
   * up even when there are no statistics to show); closing the audience
   * restarts the clock without touching the time left. The safety net arms
   * itself without stopping the clock.
   */
  lemma LifelineRules(s: State, rows: map<int, AnswerStats.StatsRow>, fails: bool)
    ensures s.lifelinesUsed.askAudience || s.currentQuestion.Some? ==>
      var t := AudienceAsked(s, rows, fails);
      && t.lifelinesUsed.askAudience && t.lifelinesUsed.safetyNet == s.lifelinesUsed.safetyNet
      && (s.lifelinesUsed.askAudience ==> t == s)
      && (!s.lifelinesUsed.askAudience ==>
            && !t.timerRunning && t.showAudienceModal && t.timeLeft == s.timeLeft
            && t.audienceData == AnswerStats.GetAudienceStats(rows, s.currentQuestion.value.id, fails))
    ensures var t := SafetyNetTaken(s);
      && t.lifelinesUsed.safetyNet && t.safetyNetActive == (s.safetyNetActive || !s.lifelinesUsed.safetyNet)
      && t.lifelinesUsed.askAudience == s.lifelinesUsed.askAudience
      && (s.lifelinesUsed.safetyNet ==> t == s)
      && t.timerRunning == s.timerRunning
    ensures var t := AudienceClosed(s);
      && t.timerRunning && !t.showAudienceModal && t.timeLeft == s.timeLeft
  {
  }

  /**
   * The safety net armed during a question softens exactly the next graded
   * answer: that answer drops at most one rung, and the net is gone after it.
   */
  lemma SafetyNetSoftensNextAnswer(s: State, sel: Selection, timeTaken: nat, totalTime: nat)
    requires Inv(s) && s.currentQuestion.Some? && !s.lifelinesUsed.safetyNet
    ensures var armed := SafetyNetTaken(s);
      var t := Graded(armed, sel, false, timeTaken, totalTime);
      && t.currentRung == (if s.currentRung > 2 then s.currentRung - 1 else BottomRung)
      && !t.safetyNetActive && t.lifelinesUsed.safetyNet
      && SafetyNetTaken(t) == t
  {
  }

  /** After feedback: rung 10 ends the game, any other rung loads the next question there. */
  lemma NextQuestionRules(s: State, table: seq<Question>, pick: nat, fails: bool)
    requires Inv(s)
    ensures var t := NextQuestion(s, table, pick, fails);
      && (s.currentRung == TopRung ==> t == s.(gamePhase := CompletePhase))
      && (s.currentRung != TopRung ==> t == Loaded(s, s.currentRung, table, pick, fails))
      && t.currentRung == s.currentRung
  {
  }

  // ---------------------------------------------------------------------
  // Whole games: any sequence of handler calls.

  /**
   * What the player or the timer can do to the session: the mount effect
   * starting the game, and the handlers of the screen on show.
   */
  datatype Event =
    | Start(created: bool, startPick: nat, startFails: bool)
    | Answer(selection: Selection, timeTaken: nat, totalTime: nat)
    | Tick(tickTimeTaken: nat, tickTotalTime: nat)
    | Pass(passPick: nat, passFails: bool)
    | AskAudience(rows: map<int, AnswerStats.StatsRow>, askFails: bool)
    | CloseAudience
    | SafetyNet
    | Next(nextPick: nat, nextFails: bool)

  /**
   * Whether the handler can run. Nothing runs once the player has been sent
   * home. The game starts once, from the initial state. The answer buttons,
   * the pass and the two lifelines are on the question screen, the close
   * button on the audience modal over it, and the next button on the
   * feedback screen. The countdown guards itself.
   */
  predicate Enabled(s: State, e: Event) {
    && !s.returnedHome
    && match e
      case Start(_, _, _) => s == Initial()
      case Answer(_, _, _) => s.gamePhase == QuestionPhase
      case Tick(_, _) => true
      case Pass(_, _) => s.gamePhase == QuestionPhase
      case AskAudience(_, _) => s.gamePhase == QuestionPhase
      case CloseAudience => s.gamePhase == QuestionPhase && s.showAudienceModal
      case SafetyNet => s.gamePhase == QuestionPhase
      case Next(_, _) => s.gamePhase == FeedbackPhase
  }

  function Step(s: State, e: Event, table: seq<Question>): State
    requires Inv(s) && Enabled(s, e)
  {
    match e
    case Start(created, pick, fails) => Initialized(s, created, table, pick, fails)
    case Answer(sel, tt, total) => Graded(s, sel, Grade(s.currentQuestion.value, sel), tt, total)
    case Tick(tt, total) => Ticked(s, tt, total)
    case Pass(pick, fails) => Passed(s, table, pick, fails)
    case AskAudience(rows, fails) => AudienceAsked(s, rows, fails)
    case CloseAudience => AudienceClosed(s)
    case SafetyNet => SafetyNetTaken(s)
    case Next(pick, fails) => NextQuestion(s, table, pick, fails)
  }

  lemma StepKeepsInv(s: State, e: Event, table: seq<Question>)
    requires Inv(s) && Enabled(s, e)
    ensures Inv(Step(s, e, table))
  {
    match e
    case Start(created, pick, fails) => InitializedKeepsInv(s, created, table, pick, fails);
    case Answer(sel, tt, total) => GradedKeepsInv(s, sel, Grade(s.currentQuestion.value, sel), tt, total);
    case Tick(tt, total) => TickedKeepsInv(s, tt, total);
    case Pass(pick, fails) => PassedKeepsInv(s, table, pick, fails);
    case AskAudience(rows, fails) => LifelinesKeepInv(s, rows, fails);
    case CloseAudience => LifelinesKeepInv(s, map[], false);
    case SafetyNet => LifelinesKeepInv(s, map[], false);
    case Next(pick, fails) => NextQuestionKeepsInv(s, table, pick, fails);
  }

  /** Applies the events in order, stopping at the first one that cannot run. */
  function Run(s: State, events: seq<Event>, table: seq<Question>): State
    requires Inv(s)
    decreases |events|
  {
    if events == [] || !Enabled(s, events[0]) then s
    else
      StepKeepsInv(s, events[0], table);
      Run(Step(s, events[0], table), events[1..], table)
  }

  /**
   * The monotone parts of the session: asked ids and recorded answers only
   * grow, passes never come back, lifeline flags never reset, and the
   * counters and score never go down.
   */
  ghost predicate Evolves(s: State, t: State) {
    && s.askedQuestionIds <= t.askedQuestionIds
    && s.answers <= t.answers
    && t.passesRemaining <= s.passesRemaining
    && (s.lifelinesUsed.askAudience ==> t.lifelinesUsed.askAudience)
    && (s.lifelinesUsed.safetyNet ==> t.lifelinesUsed.safetyNet)
    && s.totalQuestions <= t.totalQuestions
    && s.correctAnswers <= t.correctAnswers
    && s.wrongAnswers <= t.wrongAnswers
    && s.score <= t.score
  }

  lemma LoadedEvolves(s: State, rung: int, table: seq<Question>, pick: nat, fails: bool)
    ensures Evolves(s, Loaded(s, rung, table, pick, fails))
  {
  }

  lemma GradedEvolves(s: State, sel: Selection, isCorrect: bool, timeTaken: nat, totalTime: nat)
    requires s.currentQuestion.Some?
    ensures Evolves(s, Graded(s, sel, isCorrect, timeTaken, totalTime))
  {
  }

  lemma TickedEvolves(s: State, timeTaken: nat, totalTime: nat)
    requires Inv(s)
    ensures Evolves(s, Ticked(s, timeTaken, totalTime))
  {
    if s.timerRunning && s.gamePhase == QuestionPhase {
      GradedEvolves(s.(timerRunning := false), Timeout, false, timeTaken, totalTime);
    }
  }

  lemma PassedEvolves(s: State, table: seq<Question>, pick: nat, fails: bool)
    ensures Evolves(s, Passed(s, table, pick, fails))
  {
    if s.passesRemaining > 0 {
      LoadedEvolves(s.(passesRemaining := s.passesRemaining - 1, timerRunning := false), s.currentRung, table, pick, fails);
    }
  }

  lemma NextQuestionEvolves(s: State, table: seq<Question>, pick: nat, fails: bool)
    ensures Evolves(s, NextQuestion(s, table, pick, fails))
  {
    if s.currentRung != TopRung {
      LoadedEvolves(s, s.currentRung, table, pick, fails);
    }
  }

  lemma LifelinesEvolve(s: State, rows: map<int, AnswerStats.StatsRow>, fails: bool)
    ensures !s.lifelinesUsed.askAudience ==> s.currentQuestion.Some? ==> Evolves(s, AudienceAsked(s, rows, fails))
    ensures Evolves(s, AudienceClosed(s))
    ensures Evolves(s, SafetyNetTaken(s))
  {
  }

  lemma StepEvolves(s: State, e: Event, table: seq<Question>)
    requires Inv(s) && Enabled(s, e)
    ensures Evolves(s, Step(s, e, table))
  {
    match e
    case Start(created, pick, fails) =>
      if created {
        LoadedEvolves(s, StartRung, table, pick, fails);
      }
    case Answer(sel, tt, total) => GradedEvolves(s, sel, Grade(s.currentQuestion.value, sel), tt, total);
    case Tick(tt, total) => TickedEvolves(s, tt, total);
    case Pass(pick, fails) => PassedEvolves(s, table, pick, fails);
    case AskAudience(rows, fails) => LifelinesEvolve(s, rows, fails);
    case CloseAudience => LifelinesEvolve(s, map[], false);
    case SafetyNet => LifelinesEvolve(s, map[], false);
    case Next(pick, fails) => NextQuestionEvolves(s, table, pick, fails);
  }

  /** Every game, whatever happens in it, keeps the invariants and only moves forward. */
  lemma {:induction false} RunKeepsInvAndEvolves(s: State, events: seq<Event>, table: seq<Question>)
    requires Inv(s)
    ensures Inv(Run(s, events, table))
    ensures Evolves(s, Run(s, events, table))
    decreases |events|
  {
    if events != [] && Enabled(s, events[0]) {
      StepKeepsInv(s, events[0], table);
      StepEvolves(s, events[0], table);
      var next := Step(s, events[0], table);
      RunKeepsInvAndEvolves(next, events[1..], table);
    }
  }

  /** The complete screen is only ever reached at rung 10, after at least seven correct answers. */
  lemma CompleteMeansVictory(events: seq<Event>, table: seq<Question>)
    ensures var t := Run(Initial(), events, table);
      t.gamePhase == CompletePhase ==> t.currentRung == TopRung && t.correctAnswers >= 7 && t.totalQuestions > 0
  {
    InitialInv();
    RunKeepsInvAndEvolves(Initial(), events, table);
    var t := Run(Initial(), events, table);
    if t.gamePhase == CompletePhase {
      TopNeedsSevenCorrect(t);
    }
  }

  /**
   * At rung 10 only the countdown, which stays idle, and the next button,
   * which shows the complete screen, can still run: the rung, the log, the
   * score and the summary stay as they are.
   */
  lemma TopStepIsFinal(s: State, e: Event, table: seq<Question>)
    requires Inv(s) && s.currentRung == TopRung && Enabled(s, e)
    ensures var t := Step(s, e, table);
      && (t == s || t == s.(gamePhase := CompletePhase))
      && t.currentRung == TopRung && t.summary == s.summary
      && t.answers == s.answers && t.score == s.score
  {
  }

  /** Rung 10 is final: whatever happens afterwards, the game stays won as it was won. */
  lemma {:induction false} TopIsFinal(s: State, events: seq<Event>, table: seq<Question>)
    requires Inv(s) && s.currentRung == TopRung
    ensures var t := Run(s, events, table);
      && t.currentRung == TopRung && t.summary == s.summary
      && t.answers == s.answers && t.score == s.score
      && (t.gamePhase == s.gamePhase || t.gamePhase == CompletePhase)
    decreases |events|
  {
    if events != [] && Enabled(s, events[0]) {
      TopStepIsFinal(s, events[0], table);
      StepKeepsInv(s, events[0], table);
      TopIsFinal(Step(s, events[0], table), events[1..], table);
    }
  }

  /**
   * The summary is written at most once: every game starts without one, it
   * is there exactly when the player stands on rung 10, and once written it
   * never changes.
   */
  lemma SummaryWrittenOnce(s: State, events: seq<Event>, table: seq<Question>)
    requires Inv(s)
    ensures Initial().summary.None?
    ensures Run(s, events, table).summary.Some? <==> Run(s, events, table).currentRung == TopRung
    ensures s.summary.Some? ==> Run(s, events, table).summary == s.summary
  {
    RunKeepsInvAndEvolves(s, events, table);
    if s.summary.Some? {
      TopIsFinal(s, events, table);
    }
  }
}
