/** The date breakdown of one supplier (nps_analyzer.py
    `get_date_dimension`): per travel date in ascending order, that day's
    metrics, the NPS of the running totals so far, and whether that
    cumulative NPS rose, fell or held against the previous date. */
module Dates {
  import opened Ordering
  import opened Rows
  import opened Rounding
  import opened Metrics
  import opened Dimension
  import opened Optional

  /** The running totals: denominator, detractor count and promoter sum,
      each accumulated from the reported (rounded, truncated) day values. */
  datatype Running = Running(den: real, det: int, prom: real)

  const Start := Running(0.0, 0, 0.0)

  function Add(acc: Running, m: Metrics): Running {
    Running(acc.den + m.denominator, acc.det + m.detractorCount, acc.prom + m.promoterSum)
  }

  function CumulativeNps(acc: Running): real {
    NpsOf(acc.den, acc.det as real, acc.prom)
  }

  /** 是否进步: '-' on the first date, then '是', '否' or '持平'. */
  datatype Trend = FirstDate | Improved | Declined | Unchanged

  function TrendOf(prev: Option<real>, cur: real): (t: Trend)
    ensures t == FirstDate <==> prev == None
    ensures t == Improved <==> prev.Some? && cur > prev.value
    ensures t == Declined <==> prev.Some? && cur < prev.value
    ensures t == Unchanged <==> prev.Some? && cur == prev.value
  {
    match prev
    case None => FirstDate
    case Some(p) => if cur > p then Improved else if cur < p then Declined else Unchanged
  }

  /** One output row. `dayNps` is 当日NPS, `cumulativeNps` 累计NPS. */
  datatype DateRow = DateRow(
    date: int,
    orderCount: nat,
    denominator: real,
    detractorCount: int,
    promoterSum: real,
    dayNps: real,
    cumulativeNps: real,
    trend: Trend
  )

  function DayMetrics(mode: Arith, sub: seq<Row>, k: Key): Metrics {
    CalcMetrics(mode, Group(sub, ByDate, k))
  }

  /** The day metrics of the dates `ks`, in order. */
  function DayMetricsOf(mode: Arith, sub: seq<Row>, ks: seq<Key>): (ms: seq<Metrics>)
    ensures |ms| == |ks|
    ensures forall i :: 0 <= i < |ks| ==> ms[i] == DayMetrics(mode, sub, ks[i])
  {
    if |ks| == 0 then [] else [DayMetrics(mode, sub, ks[0])] + DayMetricsOf(mode, sub, ks[1..])
  }

  /** The loop over the dates `ks` with day metrics `ms`, from position
      `from` on, with the running totals `acc` of the dates before it and
      the previous cumulative NPS `prev`. */
  function Fold(mode: Arith, ks: seq<Key>, ms: seq<Metrics>, from: nat, acc: Running, prev: Option<real>): (r: seq<DateRow>)
    requires |ms| == |ks| && from <= |ks|
    ensures |r| == |ks| - from
    ensures forall i :: 0 <= i < |r| ==>
              && r[i].date == ks[from + i].id
              && r[i].orderCount == ms[from + i].orderCount && r[i].denominator == ms[from + i].denominator
              && r[i].detractorCount == ms[from + i].detractorCount && r[i].promoterSum == ms[from + i].promoterSum
              && r[i].dayNps == ms[from + i].nps
    decreases |ks| - from
  {
    if from == |ks| then []
    else
      var acc' := Add(acc, ms[from]);
      [RowOf(mode, ks[from], ms[from], acc', prev)] + Fold(mode, ks, ms, from + 1, acc', Some(CumulativeNps(acc')))
  }

  /** The row of date `k` with day metrics `m`, running totals `totals`
      including that day, and the previous cumulative NPS `prev`. */
  function RowOf(mode: Arith, k: Key, m: Metrics, totals: Running, prev: Option<real>): DateRow {
    var c := CumulativeNps(totals);
    DateRow(k.id, m.orderCount, m.denominator, m.detractorCount, m.promoterSum, m.nps, Rnd(mode, c, 2), TrendOf(prev, c))
  }

  /** Reference definition of the running totals: the day values of the
      first `n` dates added up. */
  function Prefix(ms: seq<Metrics>, n: nat): Running
    requires n <= |ms|
  {
    if n == 0 then Start else Add(Prefix(ms, n - 1), ms[n - 1])
  }

  function DaysOf(r: seq<DateRow>): (ds: seq<int>)
    ensures |ds| == |r|
    ensures forall i :: 0 <= i < |r| ==> ds[i] == r[i].date
  {
    if |r| == 0 then [] else [r[0].date] + DaysOf(r[1..])
  }

  /** Date keys ascend by day number: their names are all empty. */
  lemma DateKeysAscend(sub: seq<Row>)
    ensures var ks := GroupKeys(sub, ByDate);
            forall i, j :: 0 <= i < j < |ks| ==> ks[i].id < ks[j].id
    ensures var ks := GroupKeys(sub, ByDate);
            forall i :: 0 <= i < |ks| ==> ks[i] == Key(ks[i].id, "")
  {
    var ks := GroupKeys(sub, ByDate);
    forall i | 0 <= i < |ks|
      ensures ks[i] == Key(ks[i].id, "")
    {
      assert ks[i] in ks;
    }
    forall i, j | 0 <= i < j < |ks|
      ensures ks[i].id < ks[j].id
    {
      assert KeyLt(ks[i], ks[j]);
    }
  }

  /** `get_date_dimension` on loaded rows. */
  function DateDimension(mode: Arith, rows: seq<Row>, supplierId: int): (r: seq<DateRow>)
    // empty exactly when the supplier has no rows
    ensures r == [] <==> !exists x :: x in rows && x.supplierId == supplierId
    // one row per travel date of the supplier, dates strictly ascending
    ensures |r| == |GroupKeys(SupplierRows(rows, supplierId), ByDate)|
    ensures forall i :: 0 <= i < |r| ==> r[i].date == GroupKeys(SupplierRows(rows, supplierId), ByDate)[i].id
    ensures forall day :: day in DaysOf(r) <==> exists x :: x in rows && x.supplierId == supplierId && x.date == day
    ensures forall i, j :: 0 <= i < j < |r| ==> r[i].date < r[j].date
    // each row reports that day's metrics
    ensures forall i :: 0 <= i < |r| ==>
              var m := DayMetrics(mode, SupplierRows(rows, supplierId), Key(r[i].date, ""));
              r[i].orderCount == m.orderCount && r[i].denominator == m.denominator
              && r[i].detractorCount == m.detractorCount && r[i].promoterSum == m.promoterSum
              && r[i].dayNps == m.nps
  {
    var sub := SupplierRows(rows, supplierId);
    if |sub| == 0 then []
    else
      FoldShape(mode, sub);
      var ks := GroupKeys(sub, ByDate);
      Fold(mode, ks, DayMetricsOf(mode, sub, ks), 0, Start, None)
  }

  /** The shape facts of `DateDimension` for a supplier with rows. */
  lemma FoldShape(mode: Arith, sub: seq<Row>)
    requires |sub| > 0
    ensures var ks := GroupKeys(sub, ByDate);
            var r := Fold(mode, ks, DayMetricsOf(mode, sub, ks), 0, Start, None);
            && r != []
            && (forall day :: day in DaysOf(r) <==> exists x :: x in sub && x.date == day)
            && (forall i, j :: 0 <= i < j < |r| ==> r[i].date < r[j].date)
            && (forall i :: 0 <= i < |r| ==>
                  var m := DayMetrics(mode, sub, Key(r[i].date, ""));
                  r[i].orderCount == m.orderCount && r[i].denominator == m.denominator
                  && r[i].detractorCount == m.detractorCount && r[i].promoterSum == m.promoterSum
                  && r[i].dayNps == m.nps)
  {
    var ks := GroupKeys(sub, ByDate);
    var r := Fold(mode, ks, DayMetricsOf(mode, sub, ks), 0, Start, None);
    DateKeysAscend(sub);
    DateIds(sub);
    assert DaysOf(r) == Ids(ks);
  }

  /** The day numbers of a list of date keys. */
  function Ids(ks: seq<Key>): (ids: seq<int>)
    ensures |ids| == |ks|
    ensures forall i :: 0 <= i < |ks| ==> ids[i] == ks[i].id
  {
    if |ks| == 0 then [] else [ks[0].id] + Ids(ks[1..])
  }

  /** The date keys of some rows carry exactly their travel dates. */
  lemma DateIds(sub: seq<Row>)
    ensures |sub| > 0 ==> |GroupKeys(sub, ByDate)| > 0
    ensures forall day :: day in Ids(GroupKeys(sub, ByDate)) <==> exists x :: x in sub && x.date == day
  {
    var ks := GroupKeys(sub, ByDate);
    if |sub| > 0 {
      assert sub[0] in sub;
      assert KeyOf(sub[0], ByDate) in ks;
    }
    forall day
      ensures day in Ids(ks) <==> exists x :: x in sub && x.date == day
    {
      if day in Ids(ks) {
        var i :| 0 <= i < |ks| && Ids(ks)[i] == day;
        assert ks[i] in ks;
      }
      if exists x :: x in sub && x.date == day {
        var x :| x in sub && x.date == day;
        assert KeyOf(x, ByDate) in ks;
        var i :| 0 <= i < |ks| && ks[i] == KeyOf(x, ByDate);
        assert Ids(ks)[i] == day;
      }
    }
  }

  /** The fold from position `from`, started with the totals of the dates
      before it, reports at its `i`-th row the totals of the first
      `from + i + 1` dates, and compares them with the totals one date
      earlier, or with `prev` on its first row. */
  lemma {:induction false} FoldRunning(mode: Arith, ks: seq<Key>, ms: seq<Metrics>, from: nat, prev: Option<real>, i: nat)
    requires |ks| == |ms| && from + i < |ms|
    ensures Fold(mode, ks, ms, from, Prefix(ms, from), prev)[i]
         == RowOf(mode, ks[from + i], ms[from + i], Prefix(ms, from + i + 1),
                  if i == 0 then prev else Some(CumulativeNps(Prefix(ms, from + i))))
    decreases i
  {
    if i > 0 {
      FoldRunning(mode, ks, ms, from + 1, Some(CumulativeNps(Prefix(ms, from + 1))), i - 1);
    }
  }

  /** The fold from the first date: row `i` has the NPS of the first
      `i + 1` dates' totals and compares it with that of the first `i`. */
  lemma FoldFromStart(mode: Arith, ks: seq<Key>, ms: seq<Metrics>, i: nat)
    requires |ks| == |ms| && i < |ms|
    ensures var r := Fold(mode, ks, ms, 0, Start, None);
            var c := CumulativeNps(Prefix(ms, i + 1));
            && r[i].cumulativeNps == Rnd(mode, c, 2)
            && (i == 0 ==> r[i].trend == FirstDate)
            && (i > 0 ==> r[i].trend == TrendOf(Some(CumulativeNps(Prefix(ms, i))), c))
  {
    FoldRunning(mode, ks, ms, 0, None, i);
  }

  /** The running totals of the date breakdown: row `i` carries the NPS of
      the day values added up over the first `i + 1` dates, and its trend
      compares that with the same over the first `i` dates. */
  lemma DateRunningTotals(mode: Arith, rows: seq<Row>, supplierId: int, i: int)
    requires 0 <= i < |DateDimension(mode, rows, supplierId)|
    ensures var sub := SupplierRows(rows, supplierId);
            var ms := DayMetricsOf(mode, sub, GroupKeys(sub, ByDate));
            var r := DateDimension(mode, rows, supplierId);
            var c := CumulativeNps(Prefix(ms, i + 1));
            && r[i].cumulativeNps == Rnd(mode, c, 2)
            && (i == 0 ==> r[i].trend == FirstDate)
            && (i > 0 ==> r[i].trend == TrendOf(Some(CumulativeNps(Prefix(ms, i))), c))
  {
    var sub := SupplierRows(rows, supplierId);
    var ks := GroupKeys(sub, ByDate);
    var ms := DayMetricsOf(mode, sub, ks);
    assert DateDimension(mode, rows, supplierId) == Fold(mode, ks, ms, 0, Start, None) by {
      assert |sub| > 0;
    }
    FoldFromStart(mode, ks, ms, i);
  }

  /** A sum of whole numbers is whole. */
  lemma {:induction false} WholeSum(g: seq<Row>)
    requires forall x :: x in g ==> Whole(x.detractor)
    ensures Whole(SumOf(g, Detractor))
    decreases |g|
  {
    if |g| > 0 {
      assert forall x :: x in g[1..] ==> x in g;
      WholeSum(g[1..]);
      WholeAdd(g[0].detractor, SumOf(g[1..], Detractor));
    }
  }

  /** Read exactly, with whole detractor flags, the running totals over
      the first `n` of some distinct dates are the column sums of the rows
      on those dates. */
  lemma {:induction false} PrefixExact(sub: seq<Row>, ks: seq<Key>, n: nat)
    requires Distinct(ks) && n <= |ks|
    requires forall x :: x in sub ==> Whole(x.detractor)
    ensures var t := Prefix(DayMetricsOf(Exact, sub, ks), n);
            var sel := Select(sub, ByDate, ks[..n]);
            t.den == SumOf(sel, Weight) && t.det as real == SumOf(sel, Detractor) && t.prom == SumOf(sel, Promoter)
    decreases n
  {
    if n == 0 {
      SelectNone(sub, ByDate);
    } else {
      var ms := DayMetricsOf(Exact, sub, ks);
      var prev := Select(sub, ByDate, ks[..n - 1]);
      var g := Group(sub, ByDate, ks[n - 1]);
      PrefixExact(sub, ks, n - 1);
      DayExact(sub, ks[n - 1]);
      PrefixSplit(sub, ks, n);
      assert Prefix(ms, n) == Add(Prefix(ms, n - 1), ms[n - 1]);
    }
  }

  /** Read exactly, with whole detractor flags, a day's metrics are its
      column sums. */
  lemma DayExact(sub: seq<Row>, k: Key)
    requires forall x :: x in sub ==> Whole(x.detractor)
    ensures var m := DayMetrics(Exact, sub, k);
            var g := Group(sub, ByDate, k);
            m.denominator == SumOf(g, Weight) && m.detractorCount as real == SumOf(g, Detractor)
            && m.promoterSum == SumOf(g, Promoter)
  {
    var g := Group(sub, ByDate, k);
    assert forall x :: x in g ==> x in sub;
    WholeSum(g);
    WholeTrunc(SumOf(g, Detractor));
  }

  /** The rows of the first `n` dates are those of the first `n - 1` and
      those of date `n`, column sum by column sum. */
  lemma PrefixSplit(sub: seq<Row>, ks: seq<Key>, n: nat)
    requires Distinct(ks) && 0 < n <= |ks|
    ensures var all := Select(sub, ByDate, ks[..n]);
            var prev := Select(sub, ByDate, ks[..n - 1]);
            var g := Group(sub, ByDate, ks[n - 1]);
            && SumOf(all, Weight) == SumOf(g, Weight) + SumOf(prev, Weight)
            && SumOf(all, Detractor) == SumOf(g, Detractor) + SumOf(prev, Detractor)
            && SumOf(all, Promoter) == SumOf(g, Promoter) + SumOf(prev, Promoter)
  {
    assert ks[n - 1] !in ks[..n - 1];
    assert ks[..n] == ks[..n - 1] + [ks[n - 1]];
    SelectSameKeys(sub, ByDate, ks[..n], [ks[n - 1]] + ks[..n - 1]);
    SelectSplitSum(sub, ByDate, ks[n - 1], ks[..n - 1], Weight);
    SelectSplitSum(sub, ByDate, ks[n - 1], ks[..n - 1], Detractor);
    SelectSplitSum(sub, ByDate, ks[n - 1], ks[..n - 1], Promoter);
  }

  /** The dates up to and including the `i`-th are the rows dated on or
      before it. */
  lemma PrefixDates(sub: seq<Row>, i: int)
    requires 0 <= i < |GroupKeys(sub, ByDate)|
    ensures var ks := GroupKeys(sub, ByDate);
            forall x :: x in Select(sub, ByDate, ks[..i + 1]) <==> x in sub && x.date <= ks[i].id
  {
    var ks := GroupKeys(sub, ByDate);
    DateKeysAscend(sub);
    forall x | x in sub
      ensures KeyOf(x, ByDate) in ks[..i + 1] <==> x.date <= ks[i].id
    {
      assert KeyOf(x, ByDate) in ks;
      var j :| 0 <= j < |ks| && ks[j] == KeyOf(x, ByDate);
      if j <= i {
        assert ks[..i + 1][j] == ks[j];
      } else {
        assert ks[i].id < ks[j].id;
      }
    }
  }

  /** Running totals equal to the column sums of some rows give the NPS the
      metric calculator gives for those rows. */
  lemma NpsOfTotals(sel: seq<Row>, t: Running)
    requires t.den == SumOf(sel, Weight) && t.det as real == SumOf(sel, Detractor) && t.prom == SumOf(sel, Promoter)
    ensures CumulativeNps(t) == CalcMetrics(Exact, sel).nps
  {
  }

  /** Read exactly, with whole detractor flags, the NPS of the running
      totals over the first `i + 1` dates is the NPS of the rows on them. */
  lemma PrefixTotals(sub: seq<Row>, i: int)
    requires forall x :: x in sub ==> Whole(x.detractor)
    requires 0 <= i < |GroupKeys(sub, ByDate)|
    ensures var ks := GroupKeys(sub, ByDate);
            CumulativeNps(Prefix(DayMetricsOf(Exact, sub, ks), i + 1))
              == CalcMetrics(Exact, Select(sub, ByDate, ks[..i + 1])).nps
  {
    var ks := GroupKeys(sub, ByDate);
    GroupKeysDistinct(sub, ByDate);
    PrefixExact(sub, ks, i + 1);
    NpsOfTotals(Select(sub, ByDate, ks[..i + 1]), Prefix(DayMetricsOf(Exact, sub, ks), i + 1));
  }

  /** Read exactly, with whole detractor flags, the cumulative NPS on a date
      is the NPS the metric calculator gives for all the supplier's rows
      dated on or before it. */
  lemma CumulativeIsPrefixNps(rows: seq<Row>, supplierId: int, i: int)
    requires forall x :: x in rows && x.supplierId == supplierId ==> Whole(x.detractor)
    requires 0 <= i < |DateDimension(Exact, rows, supplierId)|
    ensures var sub := SupplierRows(rows, supplierId);
            var upTo := Select(sub, ByDate, GroupKeys(sub, ByDate)[..i + 1]);
            && (forall x :: x in upTo <==> x in rows && x.supplierId == supplierId && x.date <= DateDimension(Exact, rows, supplierId)[i].date)
            && DateDimension(Exact, rows, supplierId)[i].cumulativeNps == CalcMetrics(Exact, upTo).nps
  {
    var sub := SupplierRows(rows, supplierId);
    var ks := GroupKeys(sub, ByDate);
    var r := DateDimension(Exact, rows, supplierId);
    var upTo := Select(sub, ByDate, ks[..i + 1]);
    assert |sub| > 0;
    assert r[i].date == ks[i].id;
    assert forall x :: x in upTo <==> x in rows && x.supplierId == supplierId && x.date <= r[i].date by {
      PrefixDates(sub, i);
    }
    assert r[i].cumulativeNps == CalcMetrics(Exact, upTo).nps by {
      DateRunningTotals(Exact, rows, supplierId, i);
      PrefixTotals(sub, i);
    }
  }

  /** Read exactly, with whole detractor flags, the last cumulative NPS is
      the supplier's NPS. */
  lemma FinalCumulativeIsSupplierNps(rows: seq<Row>, supplierId: int)
    requires forall x :: x in rows && x.supplierId == supplierId ==> Whole(x.detractor)
    requires exists x :: x in rows && x.supplierId == supplierId
    ensures var r := DateDimension(Exact, rows, supplierId);
            r[|r| - 1].cumulativeNps == CalcMetrics(Exact, SupplierRows(rows, supplierId)).nps
  {
    var sub := SupplierRows(rows, supplierId);
    var ks := GroupKeys(sub, ByDate);
    var r := DateDimension(Exact, rows, supplierId);
    var n := |r|;
    assert n == |ks| && n > 0 by {
      assert r != [];
    }
    assert r[n - 1].cumulativeNps == CalcMetrics(Exact, Select(sub, ByDate, ks[..n])).nps by {
      CumulativeIsPrefixNps(rows, supplierId, n - 1);
    }
    assert Select(sub, ByDate, ks[..n]) == sub by {
      assert ks[..n] == ks;
      SelectAll(sub, ByDate, ks);
    }
  }
}
