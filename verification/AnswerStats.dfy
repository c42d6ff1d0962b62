/**
 * `Math.round((count / total) * 100)` on integers: the whole percentage
 * nearest to count/total, halves rounded up.
 */
module Percent {

  function RoundedPercent(count: nat, total: nat): (p: nat)
    requires total > 0
    ensures (2 * p - 1) * total <= 200 * count < (2 * p + 1) * total
    ensures count <= total ==> p <= 100
  {
    var p := (200 * count + total) / (2 * total);
    DivBounds(200 * count + total, 2 * total, p);
    HalfPointBounds(p, total);
    AtMostHundred(count, total, p);
    p
  }

  lemma AtMostHundred(count: nat, total: nat, p: int)
    requires total > 0 && (2 * p - 1) * total <= 200 * count
    ensures count <= total ==> p <= 100
  {
    if count <= total && p > 100 {
      MulMonotone(201, 2 * p - 1, total);
    }
  }

  lemma DivBounds(a: nat, b: nat, q: nat)
    requires b > 0 && q == a / b
    ensures q * b <= a < q * b + b
  {
  }

  /** The bounds of the quotient, written as half-point bounds around `p`. */
  lemma HalfPointBounds(p: int, total: int)
    ensures p * (2 * total) == 2 * (p * total)
    ensures (2 * p - 1) * total == 2 * (p * total) - total
    ensures (2 * p + 1) * total == 2 * (p * total) + total
  {
  }

  /** The rounded percentage is the only whole number within half a point of the exact one. */
  lemma RoundedPercentUnique(count: nat, total: nat, p: int)
    requires total > 0
    requires (2 * p - 1) * total <= 200 * count < (2 * p + 1) * total
    ensures p == RoundedPercent(count, total)
  {
    var q := RoundedPercent(count, total);
    if p < q {
      assert (2 * p + 1) * total <= (2 * q - 1) * total by { MulMonotone(2 * p + 1, 2 * q - 1, total); }
    } else if p > q {
      assert (2 * q + 1) * total <= (2 * p - 1) * total by { MulMonotone(2 * q + 1, 2 * p - 1, total); }
    }
  }

  lemma MulMonotone(x: int, y: int, t: nat)
    requires x <= y
    ensures x * t <= y * t
  {
  }
}

/**
 * The `answer_statistics` table: per question, how many attempts there
 * were and how many chose each of A-D (`updateAnswerStats`,
 * `getAudienceStats`). The table is a map from question id to its row.
 */
module AnswerStats {
  import opened Common
  import Percent

  datatype StatsRow = StatsRow(totalAttempts: nat, optionA: nat, optionB: nat, optionC: nat, optionD: nat)

  /** The audience view: one rounded percentage per option, and the number of respondents. */
  datatype AudienceStats = AudienceStats(a: nat, b: nat, c: nat, d: nat, total: nat)

  /** The minimum number of prior attempts before the audience is shown. */
  const MinRespondents := 10

  /** The answers `columnMap` knows; anything else (the timeout marker 'T') has no column. */
  predicate HasColumn(answer: char) {
    answer == 'A' || answer == 'B' || answer == 'C' || answer == 'D'
  }

  /** The count stored for `answer`'s column. */
  function OptionCount(row: StatsRow, answer: char): nat
    requires HasColumn(answer)
  {
    match answer
    case 'A' => row.optionA
    case 'B' => row.optionB
    case 'C' => row.optionC
    case _ => row.optionD
  }

  /** The option counts add up to the number of attempts. */
  predicate Consistent(row: StatsRow) {
    row.optionA + row.optionB + row.optionC + row.optionD == row.totalAttempts
  }

  /** The existing-row update: one more attempt, one more vote for `answer`. */
  function Bumped(row: StatsRow, answer: char): (r: StatsRow)
    requires HasColumn(answer)
    ensures r.totalAttempts == row.totalAttempts + 1
    ensures OptionCount(r, answer) == OptionCount(row, answer) + 1
    ensures forall o :: HasColumn(o) && o != answer ==> OptionCount(r, o) == OptionCount(row, o)
  {
    match answer
    case 'A' => row.(totalAttempts := row.totalAttempts + 1, optionA := row.optionA + 1)
    case 'B' => row.(totalAttempts := row.totalAttempts + 1, optionB := row.optionB + 1)
    case 'C' => row.(totalAttempts := row.totalAttempts + 1, optionC := row.optionC + 1)
    case _ => row.(totalAttempts := row.totalAttempts + 1, optionD := row.optionD + 1)
  }

  /** The inserted row for a question answered for the first time. */
  function FirstRow(answer: char): (r: StatsRow)
    requires HasColumn(answer)
    ensures r.totalAttempts == 1 && OptionCount(r, answer) == 1
    ensures forall o :: HasColumn(o) && o != answer ==> OptionCount(r, o) == 0
  {
    StatsRow(1, if answer == 'A' then 1 else 0, if answer == 'B' then 1 else 0,
             if answer == 'C' then 1 else 0, if answer == 'D' then 1 else 0)
  }

  /** The table after `updateAnswerStats(questionId, answer)`. */
  function AfterUpdate(rows: map<int, StatsRow>, questionId: int, answer: char): map<int, StatsRow> {
    if !HasColumn(answer) then rows
    else if questionId in rows then rows[questionId := Bumped(rows[questionId], answer)]
    else rows[questionId := FirstRow(answer)]
  }

  /**
   * The update touches only the answered question's row, does nothing for an
   * answer without a column, and keeps every consistent row consistent.
   */
  lemma AfterUpdateKeepsConsistency(rows: map<int, StatsRow>, questionId: int, answer: char)
    requires forall id :: id in rows ==> Consistent(rows[id])
    ensures var r := AfterUpdate(rows, questionId, answer);
      && (forall id :: id in r ==> Consistent(r[id]))
      && (forall id :: id != questionId ==> (id in r <==> id in rows) && (id in rows ==> r[id] == rows[id]))
      && (!HasColumn(answer) ==> r == rows)
      && (HasColumn(answer) ==> questionId in r)
  {
  }

  /** The statistics store, updated in place by `updateAnswerStats`. */
  class StatsStore {
    var rows: map<int, StatsRow>

    ghost predicate Valid()
      reads this
    {
      forall id :: id in rows ==> Consistent(rows[id])
    }

    constructor ()
      ensures rows == map[] && Valid()
    {
      rows := map[];
    }

    /**
     * `updateAnswerStats`: read the row, then update it or insert a new one.
     * An answer without a column returns before any query; otherwise `fails`
     * says that the write failed, which the source logs and swallows.
     */
    method UpdateAnswerStats(questionId: int, answer: char, fails: bool)
      modifies this
      ensures rows == if fails then old(rows) else AfterUpdate(old(rows), questionId, answer)
      ensures old(Valid()) ==> Valid()
    {
      if !HasColumn(answer) || fails {
        return;
      }
      if questionId in rows {
        var existing := rows[questionId];
        rows := rows[questionId := Bumped(existing, answer)];
      } else {
        rows := rows[questionId := FirstRow(answer)];
      }
      if old(Valid()) {
        AfterUpdateKeepsConsistency(old(rows), questionId, answer);
      }
    }
  }

  /**
   * `getAudienceStats(questionId)`: nothing when the query fails (`fails`)
   * or below ten attempts, else the rounded percentages.
   */
  function GetAudienceStats(rows: map<int, StatsRow>, questionId: int, fails: bool): Option<AudienceStats> {
    if fails || questionId !in rows || rows[questionId].totalAttempts < MinRespondents then None
    else
      var row := rows[questionId];
      var t := row.totalAttempts;
      Some(AudienceStats(Percent.RoundedPercent(row.optionA, t), Percent.RoundedPercent(row.optionB, t),
                         Percent.RoundedPercent(row.optionC, t), Percent.RoundedPercent(row.optionD, t), t))
  }

  /**
   * The audience is shown exactly when the query succeeds for a question
   * with at least ten recorded attempts; then the total is passed through,
   * and each option's figure is its share of the attempts to the nearest
   * percent, at most 100 for a consistent row.
   */
  lemma AudienceStatsMeaning(rows: map<int, StatsRow>, questionId: int, fails: bool)
    ensures var s := GetAudienceStats(rows, questionId, fails);
      && (s.Some? <==> !fails && questionId in rows && rows[questionId].totalAttempts >= MinRespondents)
      && (s.Some? ==>
            var row := rows[questionId];
            && s.value.total == row.totalAttempts
            && (2 * s.value.a - 1) * row.totalAttempts <= 200 * row.optionA < (2 * s.value.a + 1) * row.totalAttempts
            && (2 * s.value.b - 1) * row.totalAttempts <= 200 * row.optionB < (2 * s.value.b + 1) * row.totalAttempts
            && (2 * s.value.c - 1) * row.totalAttempts <= 200 * row.optionC < (2 * s.value.c + 1) * row.totalAttempts
            && (2 * s.value.d - 1) * row.totalAttempts <= 200 * row.optionD < (2 * s.value.d + 1) * row.totalAttempts
            && (Consistent(row) ==> s.value.a <= 100 && s.value.b <= 100 && s.value.c <= 100 && s.value.d <= 100))
  {
  }

  /** Ten answers recorded on a fresh question unlock the audience, unless the query fails. */
  lemma TenAnswersUnlockAudience(rows: map<int, StatsRow>, questionId: int, answers: seq<char>)
    requires questionId !in rows
    requires |answers| == MinRespondents
    requires forall k :: 0 <= k < |answers| ==> HasColumn(answers[k])
    ensures GetAudienceStats(ApplyAll(rows, questionId, answers), questionId, false).Some?
  {
    AttemptsAfterAll(rows, questionId, answers);
  }

  /** The table after recording each of `answers` for one question, in order. */
  function ApplyAll(rows: map<int, StatsRow>, questionId: int, answers: seq<char>): map<int, StatsRow>
    decreases |answers|
  {
    if answers == [] then rows
    else ApplyAll(AfterUpdate(rows, questionId, answers[0]), questionId, answers[1..])
  }

  /** Each answer with a column adds exactly one attempt to the question's row. */
  lemma {:induction false} AttemptsAfterAll(rows: map<int, StatsRow>, questionId: int, answers: seq<char>)
    requires forall k :: 0 <= k < |answers| ==> HasColumn(answers[k])
    ensures answers != [] ==> questionId in ApplyAll(rows, questionId, answers)
    ensures answers != [] ==>
      (ApplyAll(rows, questionId, answers)[questionId].totalAttempts
         == (if questionId in rows then rows[questionId].totalAttempts else 0) + |answers|)
    decreases |answers|
  {
    if answers != [] {
      var next := AfterUpdate(rows, questionId, answers[0]);
      AttemptsAfterAll(next, questionId, answers[1..]);
    }
  }
}
