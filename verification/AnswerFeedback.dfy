/**
 * `AnswerFeedback`: the movement message and which parts of the feedback
 * screen show for a graded answer.
 */
module AnswerFeedback {
  import opened Common
  import opened Rules
  import opened QuestionBank
  import opened Session

  /** `getRungMovement`: up, down or stayed, with the rung reached. */
  datatype Movement = MovedUp(to: int) | DroppedDown(to: int) | Stayed(at: int)

  function RungMovement(newRung: int, oldRung: int): Movement {
    if newRung > oldRung then MovedUp(newRung)
    else if newRung < oldRung then DroppedDown(newRung)
    else Stayed(newRung)
  }

  /** What the feedback screen shows. */
  datatype FeedbackView = FeedbackView(
    correct: bool,
    movement: Movement,
    correctAnswerShown: Option<char>,
    pointsShown: Option<nat>,
    encouragement: bool,
    teachingPoint: string,
    timeTaken: nat)

  function View(fb: Feedback): FeedbackView {
    FeedbackView(fb.isCorrect,
                 RungMovement(fb.newRung, fb.oldRung),
                 if !fb.isCorrect then Some(fb.correctAnswer) else None,
                 if fb.isCorrect then Some(fb.points) else None,
                 !fb.isCorrect && fb.newRung < fb.oldRung,
                 fb.teachingPoint,
                 fb.timeTaken)
  }

  /**
   * The message names the rung reached and says up exactly when it is
   * higher, down exactly when lower; the right answer shows only after a
   * wrong one, the points only after a right one, and encouragement exactly
   * when a wrong answer cost a rung.
   */
  lemma ViewRules(fb: Feedback)
    ensures var v := View(fb);
      && (v.movement.MovedUp? <==> fb.newRung > fb.oldRung)
      && (v.movement.DroppedDown? <==> fb.newRung < fb.oldRung)
      && (v.movement.Stayed? <==> fb.newRung == fb.oldRung)
      && (match v.movement case MovedUp(r) => r case DroppedDown(r) => r case Stayed(r) => r) == fb.newRung
      && (v.correctAnswerShown.Some? <==> !fb.isCorrect)
      && (v.pointsShown.Some? <==> fb.isCorrect)
      && (v.encouragement <==> !fb.isCorrect && v.movement.DroppedDown?)
  {
  }

  /**
   * After a graded answer: a right answer below the top moves up one rung
   * and shows its points; a wrong one above rung 1 drops, shows the right
   * answer and encourages; a wrong one on rung 1 stays there without
   * encouragement.
   */
  lemma FeedbackAfterGrading(s: State, sel: Selection, isCorrect: bool, timeTaken: nat, totalTime: nat)
    requires Inv(s) && s.currentQuestion.Some?
    ensures var t := Graded(s, sel, isCorrect, timeTaken, totalTime);
      var v := View(t.feedbackData.value);
      && (isCorrect && s.currentRung < TopRung ==>
            v.movement == MovedUp(s.currentRung + 1) && v.pointsShown == Some(Points(s.currentRung)))
      && (isCorrect && s.currentRung == TopRung ==> v.movement == Stayed(TopRung))
      && (!isCorrect && s.currentRung > BottomRung ==>
            v.movement.DroppedDown? && v.encouragement
            && v.correctAnswerShown == Some(s.currentQuestion.value.correctAnswer))
      && (!isCorrect && s.currentRung == BottomRung ==> v.movement == Stayed(BottomRung) && !v.encouragement)
  {
  }
}
