/**
 * The `questions` table and `getQuestionForRung`: pick a question of the
 * requested rung that the session has not asked yet, falling back to any
 * question of that rung once they have all been asked. The table is an
 * in-memory sequence, a failed query is the flag `fails`, and the random
 * pick `Math.floor(Math.random() * n)` is the index `pick % n`.
 */
module QuestionBank {
  import opened Common

  datatype Question = Question(
    id: int,
    rungLevel: int,
    correctAnswer: char,
    teachingPoint: string,
    imageUrl: Option<string>)

  /** The rows of `table` that a query for `rung` excluding `asked` returns, in table order. */
  function Unasked(table: seq<Question>, rung: int, asked: seq<int>): (r: seq<Question>)
    ensures forall q :: q in r <==> q in table && q.rungLevel == rung && q.id !in asked
    ensures (forall q :: q in table && q.rungLevel == rung ==> q.id in asked) ==> r == []
  {
    if table == [] then []
    else
      var rest := Unasked(table[1..], rung, asked);
      assert table == [table[0]] + table[1..];
      if table[0].rungLevel == rung && table[0].id !in asked then [table[0]] + rest else rest
  }

  /** The whole pool of `rung`: the fallback query that allows repeats. */
  function Pool(table: seq<Question>, rung: int): (r: seq<Question>)
    ensures forall q :: q in r <==> q in table && q.rungLevel == rung
  {
    Unasked(table, rung, [])
  }

  /** `getQuestionForRung(rung, alreadyAskedIds)`. */
  function GetQuestionForRung(table: seq<Question>, rung: int, asked: seq<int>, pick: nat, fails: bool)
    : Option<Question>
  {
    if fails then None
    else
      var unseen := Unasked(table, rung, asked);
      if |unseen| > 0 then Some(unseen[pick % |unseen|])
      else
        var all := Pool(table, rung);
        if |all| > 0 then Some(all[pick % |all|]) else None
  }

  /**
   * While the rung still has a question the session has not seen, the
   * result is such a question, taken from the table at the requested rung.
   */
  lemma PicksUnaskedWhileAvailable(table: seq<Question>, rung: int, asked: seq<int>, pick: nat, q0: Question)
    requires q0 in table && q0.rungLevel == rung && q0.id !in asked
    ensures var r := GetQuestionForRung(table, rung, asked, pick, false);
      r.Some? && r.value in table && r.value.rungLevel == rung && r.value.id !in asked
  {
    assert q0 in Unasked(table, rung, asked);
  }

  /** Once every question of the rung has been asked, some question of the rung is repeated. */
  lemma RepeatsWhenExhausted(table: seq<Question>, rung: int, asked: seq<int>, pick: nat, q0: Question)
    requires q0 in table && q0.rungLevel == rung
    requires forall q :: q in table && q.rungLevel == rung ==> q.id in asked
    ensures var r := GetQuestionForRung(table, rung, asked, pick, false);
      r.Some? && r.value in table && r.value.rungLevel == rung && r.value.id in asked
  {
    assert q0 in Pool(table, rung);
  }

  /**
   * Whatever happens the result is a question of the requested rung from
   * the table, and there is none exactly when the query failed or the
   * rung has no questions at all.
   */
  lemma ResultIsFromRung(table: seq<Question>, rung: int, asked: seq<int>, pick: nat, fails: bool)
    ensures var r := GetQuestionForRung(table, rung, asked, pick, fails);
      && (r.Some? ==> r.value in table && r.value.rungLevel == rung)
      && (r.None? <==> fails || forall q :: q in table ==> q.rungLevel != rung)
  {
    var r := GetQuestionForRung(table, rung, asked, pick, fails);
    if !fails {
      var unseen := Unasked(table, rung, asked);
      var all := Pool(table, rung);
      if |unseen| > 0 {
        assert unseen[pick % |unseen|] in unseen;
      } else if |all| > 0 {
        assert all[pick % |all|] in all;
      } else {
        assert forall q :: q in table ==> q.rungLevel != rung;
      }
    }
  }

  /** Every question of the unasked part of the rung can be drawn by some pick. */
  lemma EveryUnaskedQuestionReachable(table: seq<Question>, rung: int, asked: seq<int>, q: Question)
    requires q in table && q.rungLevel == rung && q.id !in asked
    ensures exists pick: nat :: GetQuestionForRung(table, rung, asked, pick, false) == Some(q)
  {
    var unseen := Unasked(table, rung, asked);
    assert q in unseen;
    var k :| 0 <= k < |unseen| && unseen[k] == q;
    SmallRemainder(k, |unseen|);
    assert GetQuestionForRung(table, rung, asked, k, false) == Some(q);
  }

  lemma SmallRemainder(k: nat, n: nat)
    requires k < n
    ensures k % n == k
  {
  }
}
