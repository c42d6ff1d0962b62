/**
 * `AskAudienceModal`: the not-enough-data notice, or one bar per option
 * with the most chosen options highlighted.
 */
module AskAudienceModal {
  import opened Common
  import AnswerStats

  /** One bar: the option, its share, whether it is highlighted, whether it carries a label. */
  datatype Bar = Bar(letter: char, percentage: nat, highlighted: bool, labelled: bool)

  datatype ModalView = NotEnoughData | Chart(bars: seq<Bar>, respondents: nat)

  /** An entry of `options`. */
  datatype Share = Share(letter: char, percentage: nat)

  /** `options`, A to D. */
  function SharesOf(d: AnswerStats.AudienceStats): seq<Share> {
    [Share('A', d.a), Share('B', d.b), Share('C', d.c), Share('D', d.d)]
  }

  /** `Math.max(...options.map(o => o.percentage))`. */
  function MaxShare(shares: seq<Share>): (m: nat)
    requires |shares| > 0
    ensures forall k :: 0 <= k < |shares| ==> shares[k].percentage <= m
    ensures exists k :: 0 <= k < |shares| && shares[k].percentage == m
  {
    if |shares| == 1 then shares[0].percentage
    else
      var rest := MaxShare(shares[1..]);
      assert forall k :: 1 <= k < |shares| ==> shares[k] == shares[1..][k - 1];
      if shares[0].percentage >= rest then shares[0].percentage else rest
  }

  function BarsFor(shares: seq<Share>, max: nat): (bars: seq<Bar>)
    ensures |bars| == |shares|
    ensures forall k :: 0 <= k < |bars| ==>
      bars[k] == Bar(shares[k].letter, shares[k].percentage, shares[k].percentage == max, shares[k].percentage > 0)
  {
    if shares == [] then []
    else
      var s := shares[0];
      [Bar(s.letter, s.percentage, s.percentage == max, s.percentage > 0)] + BarsFor(shares[1..], max)
  }

  /** What the modal shows for `audienceData`. */
  function ModalFor(audienceData: Option<AnswerStats.AudienceStats>): ModalView {
    if audienceData.None? then NotEnoughData
    else
      var shares := SharesOf(audienceData.value);
      Chart(BarsFor(shares, MaxShare(shares)), audienceData.value.total)
  }

  /**
   * With data there are four bars, A to D in order, each with its share; a
   * bar is highlighted exactly when no other share is larger (so ties are
   * all highlighted, and at least one bar always is), and carries its
   * label exactly when the share is positive. Without data there are no bars.
   */
  lemma ChartRules(audienceData: Option<AnswerStats.AudienceStats>)
    ensures audienceData.None? <==> ModalFor(audienceData) == NotEnoughData
    ensures audienceData.Some? ==>
      var d := audienceData.value;
      var bars := ModalFor(audienceData).bars;
      && ModalFor(audienceData).respondents == d.total
      && |bars| == 4
      && bars[0].letter == 'A' && bars[1].letter == 'B' && bars[2].letter == 'C' && bars[3].letter == 'D'
      && bars[0].percentage == d.a && bars[1].percentage == d.b
      && bars[2].percentage == d.c && bars[3].percentage == d.d
      && (forall k :: 0 <= k < 4 ==>
            (bars[k].highlighted <==> forall j :: 0 <= j < 4 ==> bars[j].percentage <= bars[k].percentage))
      && (exists k :: 0 <= k < 4 && bars[k].highlighted)
      && (forall k :: 0 <= k < 4 ==> (bars[k].labelled <==> bars[k].percentage > 0))
  {
    if audienceData.Some? {
      var shares := SharesOf(audienceData.value);
      var m := MaxShare(shares);
      var bars := BarsFor(shares, m);
      forall k | 0 <= k < 4
        ensures bars[k].highlighted <==> forall j :: 0 <= j < 4 ==> bars[j].percentage <= bars[k].percentage
      {
        if forall j :: 0 <= j < 4 ==> bars[j].percentage <= bars[k].percentage {
          var w :| 0 <= w < 4 && shares[w].percentage == m;
          assert bars[w].percentage == m;
        }
      }
      var w :| 0 <= w < 4 && shares[w].percentage == m;
      assert bars[w].highlighted;
    }
  }

  /**
   * The chart appears exactly when the query succeeds for a question with
   * at least ten recorded attempts, and then reports the number of attempts
   * as respondents.
   */
  lemma ModalMatchesStats(rows: map<int, AnswerStats.StatsRow>, questionId: int, fails: bool)
    ensures var view := ModalFor(AnswerStats.GetAudienceStats(rows, questionId, fails));
      && (view.Chart? <==> !fails && questionId in rows && rows[questionId].totalAttempts >= AnswerStats.MinRespondents)
      && (view.Chart? ==> view.respondents == rows[questionId].totalAttempts)
  {
  }
}
