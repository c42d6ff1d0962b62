/**
 * The ladder's fixed tables: the time allowed per question, the points a
 * correct answer earns, and how a graded answer moves the player.
 */
module Rules {

  const BottomRung := 1
  const TopRung := 10
  const StartRung := 3
  const StartPasses := 2

  predicate IsRung(r: int) {
    BottomRung <= r <= TopRung
  }

  /** `getTimeLimit`: seconds allowed for a question at rung `rung`. */
  function TimeLimit(rung: int): nat {
    if rung <= 3 then 30
    else if rung <= 6 then 25
    else 20
  }

  /** `calculatePoints`: points for a correct answer given at rung `rung`. */
  function Points(rung: int): nat {
    if rung <= 3 then 10
    else if rung <= 6 then 25
    else if rung <= 8 then 50
    else 100
  }

  /** How far a wrong answer drops the player: 1 with the safety net, otherwise 2. */
  function Drop(safetyNetActive: bool): nat {
    if safetyNetActive then 1 else 2
  }

  /** The rung after a graded answer (`handleAnswer`). */
  function NextRung(rung: int, isCorrect: bool, safetyNetActive: bool): int {
    if isCorrect then
      if rung + 1 < TopRung then rung + 1 else TopRung
    else
      if rung - Drop(safetyNetActive) > BottomRung then rung - Drop(safetyNetActive) else BottomRung
  }

  /** The rung stays on the ladder whatever is answered. */
  lemma NextRungOnLadder(rung: int, isCorrect: bool, safetyNetActive: bool)
    requires IsRung(rung)
    ensures IsRung(NextRung(rung, isCorrect, safetyNetActive))
  {
  }

  /**
   * A correct answer climbs exactly one rung except at the top; a wrong one
   * falls by the drop except where the bottom stops it, and never climbs.
   */
  lemma NextRungMovement(rung: int, isCorrect: bool, safetyNetActive: bool)
    requires IsRung(rung)
    ensures var r := NextRung(rung, isCorrect, safetyNetActive);
      && (isCorrect ==> r == (if rung == TopRung then TopRung else rung + 1))
      && (!isCorrect ==> r <= rung && rung - r <= Drop(safetyNetActive))
      && (!isCorrect && rung > Drop(safetyNetActive) ==> r == rung - Drop(safetyNetActive))
      && (!isCorrect && rung <= Drop(safetyNetActive) ==> r == BottomRung)
  {
  }

  /** The safety net never makes a wrong answer cost more. */
  lemma SafetyNetSoftensDrop(rung: int)
    requires IsRung(rung)
    ensures NextRung(rung, false, false) <= NextRung(rung, false, true)
    ensures rung > BottomRung + 1 ==> NextRung(rung, false, false) < NextRung(rung, false, true)
  {
  }

  /** Later rungs never allow more time, and always allow some. */
  lemma TimeLimitNonIncreasing(r1: int, r2: int)
    requires r1 <= r2
    ensures 20 <= TimeLimit(r2) <= TimeLimit(r1) <= 30
  {
  }

  /** Later rungs never pay less, and a correct answer always pays. */
  lemma PointsNonDecreasing(r1: int, r2: int)
    requires r1 <= r2
    ensures 10 <= Points(r1) <= Points(r2) <= 100
  {
  }

  /** The rung after `n` correct answers in a row. */
  function AfterStreak(rung: int, n: nat): int
    decreases n
  {
    if n == 0 then rung else AfterStreak(NextRung(rung, true, false), n - 1)
  }

  /** A streak of `n` correct answers climbs `n` rungs, capped at the top. */
  lemma {:induction false} StreakClimbs(rung: int, n: nat)
    requires IsRung(rung)
    ensures AfterStreak(rung, n) == if rung + n < TopRung then rung + n else TopRung
    decreases n
  {
    if n > 0 {
      StreakClimbs(NextRung(rung, true, false), n - 1);
    }
  }

  /** From the starting rung, seven correct answers in a row reach the top. */
  lemma SevenCorrectFromStartWin()
    ensures AfterStreak(StartRung, 7) == TopRung
    ensures forall n: nat :: n < 7 ==> AfterStreak(StartRung, n) < TopRung
  {
    StreakClimbs(StartRung, 7);
    forall n: nat | n < 7 ensures AfterStreak(StartRung, n) < TopRung {
      StreakClimbs(StartRung, n);
    }
  }
}
