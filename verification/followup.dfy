/** The follow-up management table of one supplier (nps_analyzer.py
    `get_followup_management`): every order classified by priority and
    follow-up type, sorted by priority and then by weight descending. */
module FollowUp {
  import opened Ordering
  import opened Rows
  import opened StableSort

  /** 优先级说明: '分母1+诋毁', '分母0.6', or '分母' followed by the weight as
      `nps_analyzer.py` formats it (the formatting itself is not modelled). */
  datatype PriorityLabel = WeightOneDetractor | WeightPointSix | WeightLabel(weight: real)

  /** 追评类型: '追好评', '诋毁回正', '无需追评'. */
  datatype FollowUpKind = SolicitPraise | ConvertDetractor | NoFollowUp

  /** One row of the table; `isDetractor` and `hasFeedback` are the
      '是'/'否' columns 是否诋毁 and 有用户反馈. */
  datatype FollowUpRow = FollowUpRow(
    orderId: string,
    priority: int,
    note: PriorityLabel,
    kind: FollowUpKind,
    weight: real,
    isDetractor: bool,
    hasFeedback: bool,
    promoterScore: real
  )

  function Classify(x: Row): (f: FollowUpRow)
    ensures f.orderId == x.orderId && f.weight == x.weight && f.promoterScore == x.promoter
    // priority 1: full-weight detractors; 2: weight 0.6; 3: the rest
    ensures 1 <= f.priority <= 3
    ensures f.priority == 1 <==> x.weight == 1.0 && x.detractor == 1.0
    ensures f.priority == 2 <==> x.weight == 0.6
    ensures f.priority == 1 <==> f.note == WeightOneDetractor
    ensures f.priority == 2 <==> f.note == WeightPointSix
    ensures f.priority == 3 <==> f.note == WeightLabel(x.weight)
    // praise is sought exactly when there is no feedback; a detractor with
    // feedback is to be turned round
    ensures f.kind == SolicitPraise <==> x.feedback == 0.0
    ensures f.kind == ConvertDetractor <==> x.feedback == 1.0 && x.detractor == 1.0
    ensures f.isDetractor <==> x.detractor == 1.0
    ensures f.hasFeedback <==> x.feedback == 1.0
  {
    var (priority, note) :=
      if x.weight == 1.0 && x.detractor == 1.0 then (1, WeightOneDetractor)
      else if x.weight == 0.6 then (2, WeightPointSix)
      else (3, WeightLabel(x.weight));
    var kind :=
      if x.feedback == 0.0 then SolicitPraise
      else if x.feedback == 1.0 && x.detractor == 1.0 then ConvertDetractor
      else NoFollowUp;
    FollowUpRow(x.orderId, priority, note, kind, x.weight, x.detractor == 1.0, x.feedback == 1.0, x.promoter)
  }

  /** The classified rows, in row order. */
  function ClassifyAll(rows: seq<Row>): (r: seq<FollowUpRow>)
    ensures |r| == |rows|
    ensures forall i :: 0 <= i < |rows| ==> r[i] == Classify(rows[i])
  {
    if |rows| == 0 then [] else [Classify(rows[0])] + ClassifyAll(rows[1..])
  }

  /** `sort(key=lambda x: (x['优先级'], -x['分母V5']))`. */
  function ByPriorityThenWeight(f: FollowUpRow): SortKey {
    SortKey(f.priority, -f.weight)
  }

  /** `get_followup_management` on loaded rows. */
  function FollowUpManagement(rows: seq<Row>, supplierId: int): (r: seq<FollowUpRow>)
    // empty exactly when the supplier has no rows
    ensures r == [] <==> !exists x :: x in rows && x.supplierId == supplierId
    // a rearrangement of the supplier's classified rows
    ensures multiset(r) == multiset(ClassifyAll(SupplierRows(rows, supplierId)))
    // priority ascending, weight descending within a priority
    ensures forall i, j :: 0 <= i < j < |r| ==>
              r[i].priority < r[j].priority || (r[i].priority == r[j].priority && r[i].weight >= r[j].weight)
  {
    var sub := SupplierRows(rows, supplierId);
    var r := Sort(ClassifyAll(sub), ByPriorityThenWeight);
    assert forall i, j :: 0 <= i < j < |r| ==> SortLe(ByPriorityThenWeight(r[i]), ByPriorityThenWeight(r[j]));
    r
  }

  /** Every order of the supplier appears, classified, and nothing else. */
  lemma FollowUpCoversOrders(rows: seq<Row>, supplierId: int)
    ensures var r := FollowUpManagement(rows, supplierId);
            && (forall x :: x in rows && x.supplierId == supplierId ==> Classify(x) in r)
            && (forall f :: f in r ==> exists x :: x in rows && x.supplierId == supplierId && f == Classify(x))
  {
    var sub := SupplierRows(rows, supplierId);
    var c := ClassifyAll(sub);
    var r := FollowUpManagement(rows, supplierId);
    forall x | x in rows && x.supplierId == supplierId
      ensures Classify(x) in r
    {
      var i :| 0 <= i < |sub| && sub[i] == x;
      assert c[i] == Classify(x);
      assert Classify(x) in multiset(c);
    }
    forall f | f in r
      ensures exists x :: x in rows && x.supplierId == supplierId && f == Classify(x)
    {
      assert f in multiset(c);
      var i :| 0 <= i < |c| && c[i] == f;
      assert sub[i] in sub;
    }
  }

  /** Orders with the same priority and weight keep their row order. */
  lemma FollowUpStable(rows: seq<Row>, supplierId: int, v: SortKey)
    ensures WithKey(FollowUpManagement(rows, supplierId), ByPriorityThenWeight, v)
         == WithKey(ClassifyAll(SupplierRows(rows, supplierId)), ByPriorityThenWeight, v)
  {
    SortStable(ClassifyAll(SupplierRows(rows, supplierId)), ByPriorityThenWeight, v);
  }

  /** Every order to be turned round is flagged a detractor, and every
      priority-1 order has full weight. */
  lemma ClassifyConsistent(x: Row)
    ensures Classify(x).kind == ConvertDetractor ==> Classify(x).isDetractor && Classify(x).hasFeedback
    ensures Classify(x).priority == 1 ==> Classify(x).isDetractor && Classify(x).weight == 1.0
    ensures Classify(x).kind == SolicitPraise ==> !Classify(x).hasFeedback
  {
  }
}
