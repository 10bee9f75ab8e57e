/** The metric calculator: the seven quantities reported for any set of
    rows (nps_analyzer.py `_calc_nps_metrics`). */
module Metrics {
  import opened Rows
  import opened Rounding

  /** NPS of summed totals: the promoter rate minus the detractor rate, in
      percent, and 0 when the denominator is not positive. The one formula
      behind the group metrics, the overall baseline and the cumulative NPS
      of the date dimension. */
  function NpsOf(den: real, detractor: real, promoter: real): real {
    if den > 0.0 then (promoter / den - detractor / den) * 100.0 else 0.0
  }

  /** NPS times a positive denominator is 100 times promoter minus detractor
      total. */
  lemma NpsOfScaled(den: real, detractor: real, promoter: real)
    requires den > 0.0
    ensures NpsOf(den, detractor, promoter) * den == 100.0 * (promoter - detractor)
  {
  }

  /** A reported rate: `part / den` in percent, 0 when `den` is not positive,
      rounded to two decimals as written. */
  function Rate(mode: Arith, part: real, den: real): real {
    Rnd(mode, (if den > 0.0 then part / den else 0.0) * 100.0, 2)
  }

  /** Read exactly, a rate times its positive denominator is 100 times its
      part. */
  lemma RateScaled(part: real, den: real)
    ensures den > 0.0 ==> Rate(Exact, part, den) * den == 100.0 * part
  {
    if den > 0.0 {
      var q := part / den;
      assert q * den == part;
      assert q * 100.0 * den == 100.0 * (q * den);
    }
  }

  /** The metrics record, keyed in the analyzer by 订单数, 有效分母, 诋毁数,
      推荐分, 诋毁率, 推荐率 and NPS. */
  datatype Metrics = Metrics(
    orderCount: nat,
    denominator: real,
    detractorCount: int,
    promoterSum: real,
    detractorRate: real,
    promoterRate: real,
    nps: real
  )

  function CalcMetrics(mode: Arith, group: seq<Row>): (m: Metrics)
    // the row count ignores the weights
    ensures m.orderCount == |group|
    // the detractor count is the truncated, unweighted sum of the flags
    ensures m.detractorCount == Trunc(SumOf(group, Detractor))
    // a group without positive weight has zero rates and zero NPS
    ensures SumOf(group, Weight) <= 0.0 ==>
              m.detractorRate == 0.0 && m.promoterRate == 0.0 && m.nps == 0.0
    // read exactly: the sums are the column sums and NPS is the NPS of them
    ensures mode == Exact ==>
              m.denominator == SumOf(group, Weight) && m.promoterSum == SumOf(group, Promoter)
              && m.nps == NpsOf(SumOf(group, Weight), SumOf(group, Detractor), SumOf(group, Promoter))
    // read exactly, with positive denominator the rates are the percentages
    // of the detractor flags and of the weighted promoter score
    ensures mode == Exact && SumOf(group, Weight) > 0.0 ==>
              m.detractorRate * SumOf(group, Weight) == 100.0 * SumOf(group, Detractor)
              && m.promoterRate * SumOf(group, Weight) == 100.0 * SumOf(group, Promoter)
  {
    var den := SumOf(group, Weight);
    var det := SumOf(group, Detractor);
    var prom := SumOf(group, Promoter);
    RndZero(mode, 2);
    RateScaled(det, den);
    RateScaled(prom, den);
    Metrics(
      |group|,
      Rnd(mode, den, 2),
      Trunc(det),
      Rnd(mode, prom, 2),
      Rate(mode, det, den),
      Rate(mode, prom, den),
      Rnd(mode, NpsOf(den, det, prom), 2))
  }

  /** Read exactly, a group with positive weight has NPS equal to the
      promoter rate minus the detractor rate, and NPS times the denominator
      equal to 100 times promoter sum minus detractor sum. */
  lemma MetricsFormula(group: seq<Row>)
    requires SumOf(group, Weight) > 0.0
    ensures var m := CalcMetrics(Exact, group);
            m.nps == m.promoterRate - m.detractorRate
            && m.nps * m.denominator == 100.0 * (m.promoterSum - SumOf(group, Detractor))
  {
    var m := CalcMetrics(Exact, group);
    var den := SumOf(group, Weight);
    NpsOfScaled(den, SumOf(group, Detractor), SumOf(group, Promoter));
    assert m.promoterRate == SumOf(group, Promoter) / den * 100.0;
    assert m.detractorRate == SumOf(group, Detractor) / den * 100.0;
  }

  /** The analyzer's reading: every reported quantity except the two counts
      is the exact one rounded to two decimals. */
  lemma RoundedMetrics(group: seq<Row>)
    ensures var e, r := CalcMetrics(Exact, group), CalcMetrics(Rounded, group);
            && r.orderCount == e.orderCount && r.detractorCount == e.detractorCount
            && r.denominator == Round(e.denominator, 2) && r.promoterSum == Round(e.promoterSum, 2)
            && r.detractorRate == Round(e.detractorRate, 2) && r.promoterRate == Round(e.promoterRate, 2)
            && r.nps == Round(e.nps, 2)
  {
  }

  /** With rounding applied, NPS need not be the promoter rate minus the
      detractor rate: three full-weight orders, two of them detractors and
      the third a promoter, report 33.33, 66.67 and an NPS of -33.33, not
      -33.34. */
  lemma RoundedRatesMissNps(group: seq<Row>)
    requires |group| == 3
    requires forall i :: 0 <= i < 3 ==> group[i].weight == 1.0
    requires group[0].detractor == 1.0 && group[1].detractor == 1.0 && group[2].detractor == 0.0
    requires group[0].promoter == 0.0 && group[1].promoter == 0.0 && group[2].promoter == 1.0
    ensures var m := CalcMetrics(Rounded, group);
            m.promoterRate == 33.33 && m.detractorRate == 66.67 && m.nps == -33.33
            && m.nps != m.promoterRate - m.detractorRate
  {
    assert SumOf(group[2..], Weight) == 1.0 && SumOf(group[2..], Detractor) == 0.0 && SumOf(group[2..], Promoter) == 1.0;
    assert group[1..][1..] == group[2..];
    assert SumOf(group, Weight) == 3.0;
    assert SumOf(group, Detractor) == 2.0;
    assert SumOf(group, Promoter) == 1.0;
    assert Pow10(2) == 100;
    assert RoundHalfEven(1.0 / 3.0 * 100.0 * 100.0) == 3333;
    assert RoundHalfEven(2.0 / 3.0 * 100.0 * 100.0) == 6667;
    assert RoundHalfEven((1.0 / 3.0 - 2.0 / 3.0) * 100.0 * 100.0) == -3333;
  }

  /** A rate whose part lies between 0 and the denominator is a percentage,
      whether or not it is rounded. */
  lemma RateIsPercent(mode: Arith, part: real, den: real)
    requires 0.0 <= part <= den
    ensures 0.0 <= Rate(mode, part, den) <= 100.0
  {
    if den > 0.0 {
      var q := part / den;
      assert q * den == part;
      assert 0.0 <= q <= 1.0;
      if mode == Rounded {
        RoundPercent(q * 100.0);
      }
    }
  }

  /** Column sums stay between 0 and the denominator when every row does. */
  lemma {:induction false} SumBelowWeight(rows: seq<Row>, f: Field)
    requires forall x :: x in rows ==> 0.0 <= Value(x, f) <= x.weight
    ensures 0.0 <= SumOf(rows, f) <= SumOf(rows, Weight)
    decreases |rows|
  {
    if |rows| > 0 {
      assert forall x :: x in rows[1..] ==> x in rows;
      SumBelowWeight(rows[1..], f);
    }
  }

  lemma ScaledBelow(p: real, w: real)
    requires 0.0 <= w && 0.0 <= p <= 1.0
    ensures 0.0 <= p * w <= w
  {
    assert w - p * w == (1.0 - p) * w;
  }

  /** With non-negative weights and promoter scores in [0, 1], the promoter
      rate is a percentage. */
  lemma PromoterRateIsPercent(mode: Arith, group: seq<Row>)
    requires forall x :: x in group ==> 0.0 <= x.weight && 0.0 <= x.promoter <= 1.0
    ensures 0.0 <= CalcMetrics(mode, group).promoterRate <= 100.0
  {
    forall x | x in group
      ensures 0.0 <= Value(x, Promoter) <= x.weight
    {
      ScaledBelow(x.promoter, x.weight);
    }
    SumBelowWeight(group, Promoter);
    RateIsPercent(mode, SumOf(group, Promoter), SumOf(group, Weight));
  }

  /** The detractor rate is a percentage only when no row's flag exceeds its
      weight: the flags are summed unweighted. */
  lemma DetractorRateIsPercent(mode: Arith, group: seq<Row>)
    requires forall x :: x in group ==> 0.0 <= x.detractor <= x.weight
    ensures 0.0 <= CalcMetrics(mode, group).detractorRate <= 100.0
  {
    SumBelowWeight(group, Detractor);
    RateIsPercent(mode, SumOf(group, Detractor), SumOf(group, Weight));
  }

  /** A detractor at weight 0.6 alone gives a detractor rate above 100%. */
  lemma DetractorRateExceeds100(mode: Arith, x: Row)
    requires x.weight == 0.6 && x.detractor == 1.0
    ensures CalcMetrics(mode, [x]).detractorRate > 100.0
  {
    var g := [x];
    assert SumOf(g, Weight) == 0.6;
    assert SumOf(g, Detractor) == 1.0;
    var q := 1.0 / 0.6;
    assert q * 100.0 * 100.0 == 50000.0 / 3.0;
    if mode == Rounded {
      assert Pow10(2) == 100;
      assert RoundHalfEven(q * 100.0 * 100.0) >= 16666;
    }
  }
}
