/** The `NPSAnalyzer` object: its target, the loaded table and the overall
    NPS baseline; the required-column check of a load; and the queries,
    which read the loaded table with every `round()` applied. */
module Analyzer {
  import opened Ordering
  import opened Rows
  import opened Rounding
  import opened Metrics
  import opened Dimension
  import opened Supplier
  import opened Scoped
  import opened Dates
  import opened FollowUp

  /** The twelve columns a table must have, in the order they are reported
      when missing. */
  const RequiredColumns: seq<string> := [
    "订单号", "成团供应商id", "成团供应商名称", "成团子账号uid", "成团子账号名称",
    "成团出行日期", "跟进人id", "跟进人姓名", "分母V5", "拟合诋毁V5",
    "拟合推荐V5", "有用户反馈"
  ]

  lemma RequiredColumnsDistinct()
    ensures Distinct(RequiredColumns)
  {
  }

  /** The NPS target of an analyzer built without one. */
  const DefaultTarget: int := 60

  /** The position of `c` in `req`, or `|req|` when it does not occur. */
  function IndexIn(req: seq<string>, c: string): (n: nat)
    ensures n <= |req|
    ensures n < |req| <==> c in req
    ensures n < |req| ==> req[n] == c
  {
    if |req| == 0 then 0
    else if req[0] == c then 0
    else 1 + IndexIn(req[1..], c)
  }

  /** `m` lists its names in the order they have in `req`. */
  ghost predicate InOrderOf(m: seq<string>, req: seq<string>) {
    forall i, j :: 0 <= i < j < |m| ==> IndexIn(req, m[i]) < IndexIn(req, m[j])
  }

  /** The names of `req` absent from `columns`, in the order of `req`. */
  function Missing(req: seq<string>, columns: seq<string>): (m: seq<string>)
    requires Distinct(req)
    ensures |m| <= |req|
    ensures forall c :: c in m <==> c in req && c !in columns
    ensures InOrderOf(m, req)
  {
    if |req| == 0 then []
    else
      var rest := Missing(req[1..], columns);
      OrderInTail(req, rest);
      if req[0] in columns then rest else [req[0]] + rest
  }

  /** A list of names from the tail of `req`, in their order there, stays
      in order within `req`, with or without `req[0]` in front. */
  lemma OrderInTail(req: seq<string>, rest: seq<string>)
    requires |req| > 0 && Distinct(req)
    requires forall c :: c in rest ==> c in req[1..]
    requires InOrderOf(rest, req[1..])
    ensures InOrderOf(rest, req) && InOrderOf([req[0]] + rest, req)
  {
    HeadNotInTail(req);
    RestInOrder(req, rest);
    var m := [req[0]] + rest;
    forall i, j | 0 <= i < j < |m|
      ensures IndexIn(req, m[i]) < IndexIn(req, m[j])
    {
      PairInTail(req, rest, i, j);
    }
  }

  lemma RestInOrder(req: seq<string>, rest: seq<string>)
    requires |req| > 0 && req[0] !in rest
    requires InOrderOf(rest, req[1..])
    ensures InOrderOf(rest, req)
  {
    forall i, j | 0 <= i < j < |rest|
      ensures IndexIn(req, rest[i]) < IndexIn(req, rest[j])
    {
      IndexInTail(req, rest[i]);
      IndexInTail(req, rest[j]);
    }
  }

  lemma PairInTail(req: seq<string>, rest: seq<string>, i: int, j: int)
    requires |req| > 0 && req[0] !in rest
    requires InOrderOf(rest, req[1..])
    requires 0 <= i < j <= |rest|
    ensures var m := [req[0]] + rest; IndexIn(req, m[i]) < IndexIn(req, m[j])
  {
    var m := [req[0]] + rest;
    assert m[j] == rest[j - 1];
    IndexInTail(req, m[j]);
    if i > 0 {
      assert m[i] == rest[i - 1];
      IndexInTail(req, m[i]);
    }
  }

  lemma HeadNotInTail(req: seq<string>)
    requires |req| > 0 && Distinct(req)
    ensures req[0] !in req[1..]
  {
  }

  /** Past the head, a name's position is one more than in the tail. */
  lemma IndexInTail(req: seq<string>, c: string)
    requires |req| > 0 && c != req[0]
    ensures IndexIn(req, c) == 1 + IndexIn(req[1..], c)
  {
  }

  /** The required columns a table lacks, in `REQUIRED_COLUMNS` order. */
  function MissingColumns(columns: seq<string>): (m: seq<string>)
    ensures forall c :: c in m <==> c in RequiredColumns && c !in columns
    ensures m == [] <==> forall c :: c in RequiredColumns ==> c in columns
    ensures InOrderOf(m, RequiredColumns)
  {
    RequiredColumnsDistinct();
    var m := Missing(RequiredColumns, columns);
    assert m != [] ==> m[0] in m;
    m
  }

  /** The table a load reads: its column names and its records. */
  datatype Table = Table(columns: seq<string>, rows: seq<Row>)

  /** What the analyzer holds: nothing yet, a table rejected for missing
      columns, or a complete table. */
  datatype Frame = Empty | Incomplete(missing: seq<string>) | Complete(rows: seq<Row>)

  datatype Analyzer = Analyzer(target: int, frame: Frame, overallNps: real)

  /** A fresh analyzer (`NPSAnalyzer()` takes `nps_target=60`): no table and a
      baseline of 0. */
  function NewAnalyzer(target: int := DefaultTarget): Analyzer {
    Analyzer(target, Empty, 0.0)
  }

  /** The answer of `load_excel`: the record count and the number of
      distinct supplier names, or the missing columns. */
  datatype LoadOutcome = Loaded(records: nat, suppliers: nat) | Rejected(missing: seq<string>)

  /** The distinct supplier names of some rows (`nunique`). */
  function SupplierNames(rows: seq<Row>): set<string> {
    set x | x in rows :: x.supplierName
  }

  /** `load_excel` on a table that was read: the frame is replaced either
      way, the baseline is recomputed only when every required column is
      present. */
  function Load(a: Analyzer, t: Table): (r: (Analyzer, LoadOutcome))
    // rejected exactly when some required column is absent, naming them all
    ensures r.1.Rejected? <==> exists c :: c in RequiredColumns && c !in t.columns
    ensures r.1.Rejected? ==> r.1.missing == MissingColumns(t.columns) && r.1.missing != []
    // a rejected table still replaces the frame, but not the baseline
    ensures r.1.Rejected? ==> r.0 == Analyzer(a.target, Incomplete(r.1.missing), a.overallNps)
    // an accepted table becomes the frame and sets the baseline when it has weight
    ensures r.1.Loaded? ==>
              && r.0.target == a.target && r.0.frame == Complete(t.rows)
              && r.1.records == |t.rows| && r.1.suppliers == |SupplierNames(t.rows)|
              && (SumOf(t.rows, Weight) > 0.0 ==> r.0.overallNps == CalcMetrics(Exact, t.rows).nps)
              && (SumOf(t.rows, Weight) <= 0.0 ==> r.0.overallNps == a.overallNps)
  {
    var missing := MissingColumns(t.columns);
    if missing != [] then
      (Analyzer(a.target, Incomplete(missing), a.overallNps), Rejected(missing))
    else
      BaselineIsWholeNps(t.rows, a.overallNps);
      (Analyzer(a.target, Complete(t.rows), OverallBaseline(t.rows, a.overallNps)),
       Loaded(|t.rows|, |SupplierNames(t.rows)|))
  }

  /** Loading the same table twice leaves the analyzer as one load does. */
  lemma LoadIdempotent(a: Analyzer, t: Table)
    ensures Load(Load(a, t).0, t) == Load(a, t)
  {
  }

  /** The baseline is stale after a weightless table: it is the NPS of the
      last table with weight, or 0 if there was none. */
  lemma WeightlessLoadKeepsBaseline(t1: Table, t2: Table, target: int)
    requires Load(NewAnalyzer(target), t1).1.Loaded?
    requires SumOf(t2.rows, Weight) <= 0.0
    ensures var a1 := Load(NewAnalyzer(target), t1).0;
            var a2 := Load(a1, t2);
            a2.1.Loaded? ==> a2.0.overallNps == (if SumOf(t1.rows, Weight) > 0.0 then CalcMetrics(Exact, t1.rows).nps else 0.0)
  {
  }

  /** The number of distinct names among some keys is at most their number. */
  lemma {:induction false} NamesAtMostKeys(ks: seq<Key>)
    ensures |set k | k in ks :: k.name| <= |ks|
    decreases |ks|
  {
    if |ks| > 0 {
      NamesAtMostKeys(ks[1..]);
      assert (set k | k in ks :: k.name) == {ks[0].name} + (set k | k in ks[1..] :: k.name) by {
        assert ks == [ks[0]] + ks[1..];
      }
    }
  }

  /** The supplier count a load reports counts names, so it never exceeds
      the length of the supplier list, which has one entry per (id, name). */
  lemma SupplierCountAtMostList(rows: seq<Row>)
    ensures |SupplierNames(rows)| <= |SupplierList(rows)|
  {
    var ks := EntryKeys(SupplierList(rows));
    assert SupplierNames(rows) == set k | k in ks :: k.name by {
      forall n | n in SupplierNames(rows)
        ensures n in set k | k in ks :: k.name
      {
        var x :| x in rows && x.supplierName == n;
        assert KeyOf(x, BySupplier) in ks;
      }
      forall n | n in set k | k in ks :: k.name
        ensures n in SupplierNames(rows)
      {
        var k :| k in ks && k.name == n;
        var x :| x in rows && KeyOf(x, BySupplier) == k;
      }
    }
    NamesAtMostKeys(ks);
  }

  /** A query's answer: a value, or the failure raised by reading a table
      that lacks required columns. */
  datatype Answer<T> = Answer(value: T) | ColumnsMissing(missing: seq<string>)

  /** How every query treats the frame: no table answers an empty list, an
      incomplete one fails, a complete one is handed to `query`. */
  function OnFrame<T>(f: Frame, query: seq<Row> -> seq<T>): Answer<seq<T>> {
    match f
    case Empty => Answer([])
    case Incomplete(missing) => ColumnsMissing(missing)
    case Complete(rows) => Answer(query(rows))
  }

  /** `get_overall_analysis`. */
  function OverallQuery(a: Analyzer): Answer<seq<SupplierResult>> {
    OnFrame(a.frame, rows => OverallAnalysis(Rounded, rows, a.target, a.overallNps))
  }

  /** `get_supplier_list`. */
  function SupplierListQuery(a: Analyzer): Answer<seq<SupplierEntry>> {
    OnFrame(a.frame, rows => SupplierList(rows))
  }

  /** `get_followup_management(supplier_id)`. */
  function FollowUpQuery(a: Analyzer, supplierId: int): Answer<seq<FollowUpRow>> {
    OnFrame(a.frame, rows => FollowUpManagement(rows, supplierId))
  }

  /** `get_date_dimension(supplier_id)`. */
  function DateQuery(a: Analyzer, supplierId: int): Answer<seq<DateRow>> {
    OnFrame(a.frame, rows => DateDimension(Rounded, rows, supplierId))
  }

  /** `get_account_dimension(supplier_id)`. */
  function AccountQuery(a: Analyzer, supplierId: int): Answer<seq<GroupStat>> {
    OnFrame(a.frame, rows => AccountDimension(Rounded, rows, supplierId))
  }

  /** `get_follower_dimension(supplier_id)`. */
  function FollowerQuery(a: Analyzer, supplierId: int): Answer<seq<GroupStat>> {
    OnFrame(a.frame, rows => FollowerDimension(Rounded, rows, supplierId))
  }

  /** Before any load every query answers an empty list. */
  lemma FreshAnalyzerAnswersEmpty(target: int, supplierId: int)
    ensures var a := NewAnalyzer(target);
            && OverallQuery(a) == Answer([]) && SupplierListQuery(a) == Answer([])
            && FollowUpQuery(a, supplierId) == Answer([]) && DateQuery(a, supplierId) == Answer([])
            && AccountQuery(a, supplierId) == Answer([]) && FollowerQuery(a, supplierId) == Answer([])
  {
  }

  /** After an accepted load, the overall analysis has one row per supplier
      of the table, ranked 1, 2, ... by NPS, flagged below target against
      the analyzer's target and with contributions measured against the
      NPS of the whole table when it has weight. */
  lemma LoadedOverallAnalysis(a: Analyzer, t: Table)
    requires Load(a, t).1.Loaded?
    requires SumOf(t.rows, Weight) > 0.0
    ensures var q := OverallQuery(Load(a, t).0);
            && q.Answer?
            && |q.value| == |SupplierList(t.rows)|
            && (forall i :: 0 <= i < |q.value| ==>
                  && q.value[i].rank == i + 1
                  && (q.value[i].belowTarget <==> q.value[i].stat.metrics.nps < a.target as real)
                  && q.value[i].stat == StatOf(Rounded, t.rows, BySupplier, q.value[i].stat.key,
                                               SumOf(t.rows, Weight), CalcMetrics(Exact, t.rows).nps,
                                               ContributionBelowZero))
  {
    var a1 := Load(a, t).0;
    var r := OverallAnalysis(Rounded, t.rows, a.target, a1.overallNps);
    SupplierListMatchesOverall(Rounded, t.rows, a.target, a1.overallNps);
    assert OverallQuery(a1) == Answer(r);
  }

  /** A table rejected for missing columns makes every query fail with
      those columns, until the next accepted load. */
  lemma RejectedTableFailsQueries(a: Analyzer, t: Table, supplierId: int)
    requires Load(a, t).1.Rejected?
    ensures var a1 := Load(a, t).0;
            var m := MissingColumns(t.columns);
            && OverallQuery(a1) == ColumnsMissing(m) && SupplierListQuery(a1) == ColumnsMissing(m)
            && FollowUpQuery(a1, supplierId) == ColumnsMissing(m) && DateQuery(a1, supplierId) == ColumnsMissing(m)
            && AccountQuery(a1, supplierId) == ColumnsMissing(m) && FollowerQuery(a1, supplierId) == ColumnsMissing(m)
  {
  }
}
