/**
 * `Ladder`: the rungs from top to bottom with their titles and shading,
 * the player marker, the lifeline list and the two pass icons.
 */
module Ladder {
  import opened Rules
  import opened Session

  /** `rungs`, listed from the top. */
  const Rungs: seq<int> := [10, 9, 8, 7, 6, 5, 4, 3, 2, 1]

  /** The list runs from rung 10 down to rung 1, each rung once. */
  lemma RungsTopDown()
    ensures |Rungs| == TopRung
    ensures forall i :: 0 <= i < |Rungs| ==> Rungs[i] == TopRung - i
    ensures forall r :: r in Rungs <==> IsRung(r)
  {
    forall r | IsRung(r) ensures r in Rungs {
      assert Rungs[TopRung - r] == r;
    }
  }

  /** `getRungLabel`. */
  function RungLabel(rung: int): string {
    if rung == 10 then "\U{1F3C6} Attending"
    else if rung == 9 then "Chief Resident"
    else if rung == 8 then "Senior Resident"
    else if rung == 7 then "Junior Resident"
    else if rung == 6 then "Advanced R1"
    else if rung == 5 then "⭐ Standard R1"
    else if rung == 4 then "Basic R1"
    else if rung == 3 then "Med Student"
    else if rung == 2 then "Preclinical"
    else "Lay Person"
  }

  /** Rungs 2 to 10 each have their own title; everything else is a lay person. */
  lemma RungLabelsDistinct(a: int, b: int)
    ensures 2 <= a <= TopRung && 2 <= b <= TopRung && a != b ==> RungLabel(a) != RungLabel(b)
    ensures 2 <= a <= TopRung ==> RungLabel(a) != "Lay Person"
    ensures (a < 2 || a > TopRung) ==> RungLabel(a) == "Lay Person"
  {
    if 2 <= a <= TopRung && 2 <= b <= TopRung && a != b {
      LabelKey(a);
      LabelKey(b);
    }
    if 2 <= a <= TopRung {
      LabelKey(a);
    }
  }

  /** The first two characters tell the titles apart. */
  lemma LabelKey(r: int)
    requires 2 <= r <= TopRung
    ensures |RungLabel(r)| >= 2
    ensures RungLabel(r)[..2] == KeyOf(r)
  {
  }

  function KeyOf(r: int): string {
    if r == 10 then "\U{1F3C6} " else if r == 9 then "Ch" else if r == 8 then "Se"
    else if r == 7 then "Ju" else if r == 6 then "Ad" else if r == 5 then "⭐ "
    else if r == 4 then "Ba" else if r == 3 then "Me" else if r == 2 then "Pr" else "La"
  }

  /** The shade of a rung's row (`getRungColor`). */
  datatype Shade = CurrentShade | MilestoneShade | AboveShade | BelowShade

  /** `getRungColor(rung)` for the player on `currentRung`. */
  function RungColor(rung: int, currentRung: int): Shade {
    if rung == currentRung then CurrentShade
    else if rung == 5 then MilestoneShade
    else if rung > currentRung then AboveShade
    else BelowShade
  }

  /** The player marker on a row. */
  predicate Marker(rung: int, currentRung: int) {
    currentRung == rung
  }

  /**
   * On the ladder exactly one row, the player's, is highlighted and carries
   * the marker; rung 5 is picked out unless the player stands on it, and the
   * other rows are shaded by whether they lie above or below the player.
   */
  lemma OneHighlightedRow(currentRung: int)
    requires IsRung(currentRung)
    ensures 0 <= TopRung - currentRung < |Rungs|
    ensures RungColor(Rungs[TopRung - currentRung], currentRung) == CurrentShade
    ensures forall i :: 0 <= i < |Rungs| && i != TopRung - currentRung ==>
      RungColor(Rungs[i], currentRung) != CurrentShade && !Marker(Rungs[i], currentRung)
    ensures forall i :: 0 <= i < |Rungs| ==>
      (Marker(Rungs[i], currentRung) <==> RungColor(Rungs[i], currentRung) == CurrentShade)
    ensures forall r :: r != currentRung ==>
      (RungColor(r, currentRung) == MilestoneShade <==> r == 5)
      && (RungColor(r, currentRung) == AboveShade <==> r != 5 && r > currentRung)
      && (RungColor(r, currentRung) == BelowShade <==> r != 5 && r < currentRung)
  {
    RungsTopDown();
  }

  /** The pass icons: icon `i` is lit when `i < passesRemaining`. */
  function PassIcons(passesRemaining: int): seq<bool> {
    [0 < passesRemaining, 1 < passesRemaining]
  }

  function LitCount(icons: seq<bool>): nat {
    if icons == [] then 0 else (if icons[0] then 1 else 0) + LitCount(icons[1..])
  }

  /** Two icons, and as many of them lit as there are passes left, the first ones. */
  lemma PassIconsShowPasses(s: State)
    requires Inv(s)
    ensures |PassIcons(s.passesRemaining)| == StartPasses
    ensures LitCount(PassIcons(s.passesRemaining)) == s.passesRemaining
    ensures forall i :: 0 <= i < StartPasses ==> (PassIcons(s.passesRemaining)[i] <==> i < s.passesRemaining)
  {
    var icons := PassIcons(s.passesRemaining);
    assert icons[1..][1..] == [];
  }

  /** The lifeline list: which entries are struck through, and the ACTIVE badge. */
  datatype LifelineList = LifelineList(askAudienceStruck: bool, safetyNetStruck: bool, activeBadge: bool)

  /** The list for a session; `GameScreen` passes each lifeline as available when unused. */
  function LifelinesFor(s: State): LifelineList {
    var available := Lifelines(!s.lifelinesUsed.askAudience, !s.lifelinesUsed.safetyNet);
    LifelineList(!available.askAudience, !available.safetyNet, s.safetyNetActive)
  }

  /**
   * In every state, a lifeline is struck through exactly when it has been
   * used, and the badge shows exactly while the safety net is armed; in a
   * reachable state the badge only ever sits on a struck safety net.
   */
  lemma LifelineListShowsUse(s: State)
    ensures LifelinesFor(s).askAudienceStruck <==> s.lifelinesUsed.askAudience
    ensures LifelinesFor(s).safetyNetStruck <==> s.lifelinesUsed.safetyNet
    ensures LifelinesFor(s).activeBadge <==> s.safetyNetActive
    ensures Inv(s) && LifelinesFor(s).activeBadge ==> LifelinesFor(s).safetyNetStruck
  {
  }

  /**
   * Before the safety net is used: taking it strikes it and shows the badge;
   * the next graded answer takes the badge away, and the strike stays.
   */
  lemma LifelineListTracksSession(s: State, sel: Selection, isCorrect: bool, timeTaken: nat, totalTime: nat)
    requires Inv(s) && s.currentQuestion.Some? && !s.lifelinesUsed.safetyNet
    ensures LifelinesFor(s).askAudienceStruck <==> s.lifelinesUsed.askAudience
    ensures !LifelinesFor(s).safetyNetStruck && !LifelinesFor(s).activeBadge
    ensures var armed := SafetyNetTaken(s);
      LifelinesFor(armed).safetyNetStruck && LifelinesFor(armed).activeBadge
    ensures var graded := Graded(SafetyNetTaken(s), sel, isCorrect, timeTaken, totalTime);
      LifelinesFor(graded).safetyNetStruck && !LifelinesFor(graded).activeBadge
  {
  }
}
