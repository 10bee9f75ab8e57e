/** The per-supplier breakdowns by sub-account and by follower
    (nps_analyzer.py `get_account_dimension`, `get_follower_dimension`):
    the supplier's rows grouped by the second key, measured against the
    supplier's own metrics. */
module Scoped {
  import opened Ordering
  import opened Rows
  import opened Rounding
  import opened Metrics
  import opened StableSort
  import opened Dimension

  /** The two breakdowns differ only in the grouping key. */
  datatype Scope = Account | Follower

  function ScopeDim(scope: Scope): Dim {
    match scope
    case Account => ByAccount
    case Follower => ByFollower
  }

  /** One supplier's rows grouped by `scope`: shares of the supplier's
      (rounded) denominator, contributions against the supplier's (rounded)
      NPS, a group flagged negative when its NPS is below the supplier's,
      sorted by NPS descending. An unknown supplier gives no rows. */
  function Breakdown(mode: Arith, rows: seq<Row>, supplierId: int, scope: Scope): (r: seq<GroupStat>)
    // empty exactly when the supplier has no rows
    ensures r == [] <==> !exists x :: x in rows && x.supplierId == supplierId
    // one row per key occurring among the supplier's rows
    ensures forall k :: k in StatKeys(r) <==>
              exists x :: x in rows && x.supplierId == supplierId && KeyOf(x, ScopeDim(scope)) == k
    ensures forall i, j :: 0 <= i < j < |r| ==> r[i].key != r[j].key
    // each row is its group within the supplier, against the supplier's metrics
    ensures forall i :: 0 <= i < |r| ==>
              var sm := CalcMetrics(mode, SupplierRows(rows, supplierId));
              r[i] == StatOf(mode, SupplierRows(rows, supplierId), ScopeDim(scope), r[i].key, sm.denominator, sm.nps, NpsBelowReference)
    // negative exactly when below the supplier's NPS
    ensures forall i :: 0 <= i < |r| ==>
              (r[i].negative <==> r[i].metrics.nps < CalcMetrics(mode, SupplierRows(rows, supplierId)).nps)
    // NPS descending, equal NPS in key order
    ensures forall i, j :: 0 <= i < j < |r| ==> r[i].metrics.nps >= r[j].metrics.nps
    ensures forall i, j :: 0 <= i < j < |r| && r[i].metrics.nps == r[j].metrics.nps ==> KeyLt(r[i].key, r[j].key)
  {
    var sub := SupplierRows(rows, supplierId);
    if |sub| == 0 then []
    else
      var sm := CalcMetrics(mode, sub);
      var r := Analyze(mode, sub, ScopeDim(scope), sm.denominator, sm.nps, NpsBelowReference);
      assert r != [] by {
        var k := KeyOf(sub[0], ScopeDim(scope));
        assert sub[0] in sub;
        assert k in GroupKeys(sub, ScopeDim(scope));
      }
      r
  }

  /** `get_account_dimension` on loaded rows. */
  function AccountDimension(mode: Arith, rows: seq<Row>, supplierId: int): seq<GroupStat> {
    Breakdown(mode, rows, supplierId, Account)
  }

  /** `get_follower_dimension` on loaded rows. */
  function FollowerDimension(mode: Arith, rows: seq<Row>, supplierId: int): seq<GroupStat> {
    Breakdown(mode, rows, supplierId, Follower)
  }

  /** Read exactly, when the supplier's denominator is positive the group
      shares add up to 1. */
  lemma BreakdownSharesSumToOne(rows: seq<Row>, supplierId: int, scope: Scope)
    requires SumOf(SupplierRows(rows, supplierId), Weight) > 0.0
    ensures SumBy(Breakdown(Exact, rows, supplierId, scope), ShareOf) == 1.0
  {
    var sub := SupplierRows(rows, supplierId);
    assert |sub| > 0;
    var sm := CalcMetrics(Exact, sub);
    assert Breakdown(Exact, rows, supplierId, scope)
        == Analyze(Exact, sub, ScopeDim(scope), SumOf(sub, Weight), sm.nps, NpsBelowReference);
    SharesSumToOne(sub, ScopeDim(scope), sm.nps, NpsBelowReference);
  }

  /** Read exactly, when the supplier's denominator is positive and none of
      its groups without weight carries a promoter score or a detractor
      flag, the groups' contributions to the supplier's NPS cancel. */
  lemma BreakdownContributionsCancel(rows: seq<Row>, supplierId: int, scope: Scope)
    requires SumOf(SupplierRows(rows, supplierId), Weight) > 0.0
    requires Cancellable(SupplierRows(rows, supplierId), ScopeDim(scope))
    ensures SumBy(Breakdown(Exact, rows, supplierId, scope), ContributionOf) == 0.0
  {
    var sub := SupplierRows(rows, supplierId);
    assert |sub| > 0;
    var total := SumOf(sub, Weight);
    var sm := CalcMetrics(Exact, sub);
    assert sm.nps == NpsOf(total, SumOf(sub, Detractor), SumOf(sub, Promoter));
    assert Breakdown(Exact, rows, supplierId, scope)
        == Analyze(Exact, sub, ScopeDim(scope), total, sm.nps, NpsBelowReference);
    ContributionsCancel(sub, ScopeDim(scope), NpsBelowReference);
  }
}
