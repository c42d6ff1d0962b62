/**
 * The `GameScreen` component as an object: its `useState` variables are
 * fields, and each handler is a method that updates them in place. Every
 * method is proved to move the snapshot `State()` exactly as the matching
 * transition of `Session` says, and to keep `Session.Inv`.
 */
module GameScreen {
  import opened Common
  import opened Rules
  import opened QuestionBank
  import opened Session
  import AnswerStats

  class GameSession {
    var currentRung: int
    var currentQuestion: Option<Question>
    var askedQuestionIds: seq<int>
    var gamePhase: Phase
    var feedbackData: Option<Feedback>
    var totalQuestions: nat
    var correctAnswers: nat
    var wrongAnswers: nat
    var score: nat
    var passesRemaining: int
    var lifelinesUsed: Lifelines
    var safetyNetActive: bool
    var showAudienceModal: bool
    var audienceData: Option<AnswerStats.AudienceStats>
    var timeLeft: int
    var timerRunning: bool
    /** The rows handed to `recordAnswer`, in order. */
    var answers: seq<AnswerRecord>
    /** What `completeGame` last persisted, if it ran. */
    var summary: Option<Summary>
    /** Whether `onBackHome` was called after a failure. */
    var returnedHome: bool

    /** The fields, as a value. */
    function State(): State
      reads this
    {
      Session.State(currentRung, currentQuestion, askedQuestionIds, gamePhase, feedbackData,
                    totalQuestions, correctAnswers, wrongAnswers, score, passesRemaining,
                    lifelinesUsed, safetyNetActive, showAudienceModal, audienceData,
                    timeLeft, timerRunning, answers, summary, returnedHome)
    }

    ghost predicate Valid()
      reads this
    {
      Inv(State())
    }

    /** The component mounting with its initial state. */
    constructor ()
      ensures State() == Initial()
      ensures Valid()
    {
      currentRung := StartRung;
      currentQuestion := None;
      askedQuestionIds := [];
      gamePhase := LoadingPhase;
      feedbackData := None;
      totalQuestions := 0;
      correctAnswers := 0;
      wrongAnswers := 0;
      score := 0;
      passesRemaining := StartPasses;
      lifelinesUsed := Lifelines(false, false);
      safetyNetActive := false;
      showAudienceModal := false;
      audienceData := None;
      timeLeft := 30;
      timerRunning := false;
      answers := [];
      summary := None;
      returnedHome := false;
      InitialInv();
    }

    /**
     * `initializeGame`, run once on mount below the top rung; `created` says
     * whether `createGameSession` returned a row.
     */
    method InitializeGame(created: bool, table: seq<Question>, pick: nat, fails: bool)
      requires Valid() && currentRung < TopRung
      modifies this
      ensures State() == Initialized(old(State()), created, table, pick, fails)
      ensures Valid()
    {
      if created {
        LoadQuestion(StartRung, table, pick, fails);
      } else {
        returnedHome := true;
      }
      InitializedKeepsInv(old(State()), created, table, pick, fails);
    }

    /** `loadQuestion(rung)`, called only while rung 10 is not reached. */
    method LoadQuestion(rung: int, table: seq<Question>, pick: nat, fails: bool)
      requires Valid() && currentRung < TopRung
      modifies this
      ensures State() == Loaded(old(State()), rung, table, pick, fails)
      ensures Valid()
    {
      LoadedKeepsInv(State(), rung, table, pick, fails);
      gamePhase := LoadingPhase;
      var question := GetQuestionForRung(table, rung, askedQuestionIds, pick, fails);
      if question.None? {
        returnedHome := true;
      } else {
        ShowQuestion(question.value, rung);
      }
    }

    /** The success half of `loadQuestion`: show the question and start its clock. */
    method ShowQuestion(question: Question, rung: int)
      modifies this`currentQuestion, this`askedQuestionIds, this`timeLeft, this`timerRunning, this`gamePhase
      ensures State() == old(State()).(currentQuestion := Some(question),
                                       askedQuestionIds := old(askedQuestionIds) + [question.id],
                                       timeLeft := TimeLimit(rung), timerRunning := true,
                                       gamePhase := QuestionPhase)
    {
      currentQuestion := Some(question);
      askedQuestionIds := askedQuestionIds + [question.id];
      timeLeft := TimeLimit(rung);
      timerRunning := true;
      gamePhase := QuestionPhase;
    }

    /**
     * `recordAnswer`: log the row and count the answer in the statistics
     * table; `statsFails` says that the statistics write failed.
     */
    method RecordAnswer(questionId: int, answer: char, isCorrect: bool, timeTaken: nat, rung: int,
                        stats: AnswerStats.StatsStore, statsFails: bool)
      modifies this`answers, stats
      ensures State() == AnswerLogged(old(State()), AnswerRecord(questionId, answer, isCorrect, timeTaken, rung))
      ensures stats.rows == if statsFails then old(stats.rows) else AnswerStats.AfterUpdate(old(stats.rows), questionId, answer)
    {
      answers := answers + [AnswerRecord(questionId, answer, isCorrect, timeTaken, rung)];
      stats.UpdateAnswerStats(questionId, answer, statsFails);
    }

    /**
     * `handleAnswer(selected, isCorrect)`: record, count, move on the
     * ladder, show feedback, and complete the game at rung 10.
     */
    method HandleAnswer(selected: Selection, isCorrect: bool, timeTaken: nat, totalTime: nat,
                        stats: AnswerStats.StatsStore, statsFails: bool)
      requires Valid() && gamePhase == QuestionPhase
      modifies this, stats
      ensures State() == Graded(old(State()), selected, isCorrect, timeTaken, totalTime)
      ensures stats.rows == if statsFails then old(stats.rows)
                            else AnswerStats.AfterUpdate(old(stats.rows), old(currentQuestion).value.id, Recorded(selected))
      ensures Valid()
    {
      ghost var s0 := State();
      GradedKeepsInv(s0, selected, isCorrect, timeTaken, totalTime);
      GradedInSteps(s0, selected, isCorrect, timeTaken, totalTime);
      timerRunning := false;
      var question := currentQuestion.value;
      var oldRung := currentRung;
      RecordAnswer(question.id, Recorded(selected), isCorrect, timeTaken, oldRung, stats, statsFails);
      var points := CountAnswer(isCorrect);
      var newRung := NextRung(oldRung, isCorrect, safetyNetActive);
      ShowFeedback(Feedback(isCorrect, question.correctAnswer, question.teachingPoint,
                            newRung, oldRung, timeTaken, points));
      if newRung == TopRung {
        CompleteGame(newRung, totalTime);
      }
    }

    /** The counter updates of `handleAnswer`; returns the points the feedback shows. */
    method CountAnswer(isCorrect: bool) returns (points: nat)
      modifies this`totalQuestions, this`correctAnswers, this`wrongAnswers, this`score
      ensures points == if isCorrect then Points(currentRung) else 0
      ensures State() == Counted(old(State()), isCorrect, points)
    {
      totalQuestions := totalQuestions + 1;
      points := 0;
      if isCorrect {
        correctAnswers := correctAnswers + 1;
        points := Points(currentRung);
        score := score + points;
      } else {
        wrongAnswers := wrongAnswers + 1;
      }
    }

    /** The feedback half of `handleAnswer`: clear the safety net, move to the new rung, show feedback. */
    method ShowFeedback(feedback: Feedback)
      modifies this`safetyNetActive, this`feedbackData, this`currentRung, this`gamePhase
      ensures State() == FeedbackShown(old(State()), feedback)
    {
      safetyNetActive := false;
      feedbackData := Some(feedback);
      currentRung := feedback.newRung;
      gamePhase := FeedbackPhase;
    }

    /** `completeGame(finalRung)`, reading the counters after the last answer's updates. */
    method CompleteGame(finalRung: int, totalTime: nat)
      requires finalRung == currentRung == TopRung
      modifies this`summary
      ensures State() == Completed(old(State()), totalTime)
    {
      summary := Some(Summary(finalRung, totalQuestions, correctAnswers, wrongAnswers,
                              totalTime, score, finalRung == TopRung));
    }

    /** The `onAnswer` callback: grade the chosen letter against the question's answer. */
    method OnAnswer(letter: char, timeTaken: nat, totalTime: nat, stats: AnswerStats.StatsStore, statsFails: bool)
      requires Valid() && gamePhase == QuestionPhase
      modifies this, stats
      ensures var q := old(currentQuestion).value;
        State() == Graded(old(State()), Letter(letter), letter == q.correctAnswer, timeTaken, totalTime)
      ensures stats.rows == if statsFails then old(stats.rows)
                            else AnswerStats.AfterUpdate(old(stats.rows), old(currentQuestion).value.id, letter)
      ensures Valid()
    {
      HandleAnswer(Letter(letter), letter == currentQuestion.value.correctAnswer, timeTaken, totalTime, stats, statsFails);
    }

    /** `handleTimeout`. 'T' has no statistics column, so no statistics query is made. */
    method HandleTimeout(timeTaken: nat, totalTime: nat, stats: AnswerStats.StatsStore)
      requires Valid() && gamePhase == QuestionPhase
      modifies this, stats
      ensures State() == TimedOut(old(State()), timeTaken, totalTime)
      ensures stats.rows == old(stats.rows)
      ensures Valid()
    {
      timerRunning := false;
      HandleAnswer(Timeout, false, timeTaken, totalTime, stats, false);
    }

    /** One second of the countdown interval. */
    method Tick(timeTaken: nat, totalTime: nat, stats: AnswerStats.StatsStore)
      requires Valid()
      modifies this, stats
      ensures State() == Ticked(old(State()), timeTaken, totalTime)
      ensures stats.rows == old(stats.rows)
      ensures Valid()
    {
      if !timerRunning || gamePhase != QuestionPhase {
        return;
      }
      if timeLeft <= 1 {
        HandleTimeout(timeTaken, totalTime, stats);
        timeLeft := 0;
      } else {
        timeLeft := timeLeft - 1;
      }
      TickedKeepsInv(old(State()), timeTaken, totalTime);
    }

    /** `handleNextQuestion`. */
    method HandleNextQuestion(table: seq<Question>, pick: nat, fails: bool)
      requires Valid()
      modifies this
      ensures State() == NextQuestion(old(State()), table, pick, fails)
      ensures Valid()
    {
      if currentRung == TopRung {
        gamePhase := CompletePhase;
      } else {
        LoadQuestion(currentRung, table, pick, fails);
      }
    }

    /** `handlePass`. */
    method HandlePass(table: seq<Question>, pick: nat, fails: bool)
      requires Valid() && gamePhase == QuestionPhase
      modifies this
      ensures State() == Passed(old(State()), table, pick, fails)
      ensures Valid()
    {
      if passesRemaining > 0 {
        PassSpentKeepsInv(State());
        passesRemaining := passesRemaining - 1;
        timerRunning := false;
        LoadQuestion(currentRung, table, pick, fails);
      }
    }

    /** `handleAskAudience`, reading the statistics store; `fails` says the query failed. */
    method HandleAskAudience(stats: AnswerStats.StatsStore, fails: bool)
      requires Valid()
      requires !lifelinesUsed.askAudience ==> currentQuestion.Some?
      modifies this
      ensures State() == AudienceAsked(old(State()), stats.rows, fails)
      ensures Valid()
    {
      if !lifelinesUsed.askAudience {
        timerRunning := false;
        audienceData := AnswerStats.GetAudienceStats(stats.rows, currentQuestion.value.id, fails);
        showAudienceModal := true;
        lifelinesUsed := lifelinesUsed.(askAudience := true);
      }
    }

    /** `handleCloseAudienceModal`. */
    method HandleCloseAudienceModal()
      requires Valid()
      modifies this
      ensures State() == AudienceClosed(old(State()))
      ensures Valid()
    {
      showAudienceModal := false;
      timerRunning := true;
    }

    /** `handleSafetyNet`. */
    method HandleSafetyNet()
      requires Valid()
      modifies this
      ensures State() == SafetyNetTaken(old(State()))
      ensures Valid()
    {
      if !lifelinesUsed.safetyNet {
        safetyNetActive := true;
        lifelinesUsed := lifelinesUsed.(safetyNet := true);
      }
    }
  }
}
