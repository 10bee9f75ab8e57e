/** The grouped dimension analysis shared by the supplier, sub-account and
    follower views: group the rows by a key, compute each group's metrics,
    its share of the parent's denominator and its contribution against a
    reference NPS, flag negative groups, and sort by NPS descending. */
module Dimension {
  import opened Ordering
  import opened Rows
  import opened Rounding
  import opened Metrics
  import opened StableSort

  /** A group's weight in its parent: its share of the parent denominator,
      or 0 when the parent denominator is not positive. */
  function Share(part: real, whole: real): real {
    if whole > 0.0 then part / whole else 0.0
  }

  /** How a group is flagged 负贡献: the supplier view flags a negative
      contribution, the per-supplier views a group NPS below the supplier's. */
  datatype NegativeRule = ContributionBelowZero | NpsBelowReference

  /** One result row: the group key, its metrics, its share (computed but
      not emitted by the analyzer), its contribution and the negative flag. */
  datatype GroupStat = GroupStat(key: Key, metrics: Metrics, share: real, contribution: real, negative: bool)

  function StatOf(mode: Arith, rows: seq<Row>, d: Dim, k: Key, total: real, reference: real, rule: NegativeRule): (g: GroupStat)
    ensures g.key == k
    ensures g.metrics == CalcMetrics(mode, Group(rows, d, k))
    ensures g.share == Share(g.metrics.denominator, total)
    ensures total <= 0.0 ==> g.share == 0.0 && g.contribution == 0.0 && !(rule == ContributionBelowZero && g.negative)
    ensures rule == NpsBelowReference ==> (g.negative <==> g.metrics.nps < reference)
    ensures rule == ContributionBelowZero && mode == Exact ==> (g.negative <==> g.contribution < 0.0)
    // in either reading the flag is the sign of the unrounded product: the
    // NPS gap and the share have opposite signs (see `OppositeSignsProduct`)
    ensures rule == ContributionBelowZero ==> (g.negative <==> OppositeSigns(g.metrics.nps - reference, g.share))
    // as written the flag is taken before rounding to four decimals, so a
    // flagged group may show a contribution of 0, never a positive one
    ensures rule == ContributionBelowZero ==>
              (g.negative ==> g.contribution <= 0.0) && (!g.negative ==> g.contribution >= 0.0)
    // the contribution is the NPS gap weighted by the share: exactly that
    // product when read exactly, and that product rounded to four decimals
    // (within 0.00005 of it, see `Contribution`) as the analyzer reports it
    ensures mode == Exact ==> g.contribution == (g.metrics.nps - reference) * g.share
    ensures g.contribution == Contribution(mode, g.metrics.nps - reference, g.share)
  {
    var m := CalcMetrics(mode, Group(rows, d, k));
    StatWithFacts(mode, k, m, total, reference, rule);
    StatWith(mode, k, m, total, reference, rule)
  }

  /** The result row of a group with metrics `m`. */
  function StatWith(mode: Arith, k: Key, m: Metrics, total: real, reference: real, rule: NegativeRule): GroupStat {
    var share := Share(m.denominator, total);
    var c := (m.nps - reference) * share;
    GroupStat(k, m, share, Contribution(mode, m.nps - reference, share),
      match rule
      case ContributionBelowZero => c < 0.0
      case NpsBelowReference => m.nps < reference)
  }

  /** What `StatWith` computes, stated for metrics the solver need not
      unfold: the clauses of `StatOf`. */
  lemma StatWithFacts(mode: Arith, k: Key, m: Metrics, total: real, reference: real, rule: NegativeRule)
    ensures var g := StatWith(mode, k, m, total, reference, rule);
            && g.key == k && g.metrics == m
            && g.share == Share(m.denominator, total)
            && (total <= 0.0 ==> g.share == 0.0 && g.contribution == 0.0 && !(rule == ContributionBelowZero && g.negative))
            && (rule == NpsBelowReference ==> (g.negative <==> m.nps < reference))
            && (rule == ContributionBelowZero && mode == Exact ==> (g.negative <==> g.contribution < 0.0))
            && (rule == ContributionBelowZero ==> (g.negative <==> OppositeSigns(g.metrics.nps - reference, g.share)))
            && (rule == ContributionBelowZero ==>
                  (g.negative ==> g.contribution <= 0.0) && (!g.negative ==> g.contribution >= 0.0))
            && (mode == Exact ==> g.contribution == (g.metrics.nps - reference) * g.share)
            && g.contribution == Contribution(mode, g.metrics.nps - reference, g.share)
  {
    var share := Share(m.denominator, total);
    var gap := m.nps - reference;
    var r := Contribution(mode, gap, share);
    var g := StatWith(mode, k, m, total, reference, rule);
    assert g.contribution == r && g.share == share && g.metrics == m;
    assert rule == ContributionBelowZero ==> (g.negative <==> gap * share < 0.0);
    OppositeSignsProduct(gap, share);
    if total <= 0.0 {
      assert share == 0.0;
      assert gap * share == 0.0;
    }
  }

  /** Two numbers of strictly opposite signs. */
  predicate OppositeSigns(a: real, b: real) {
    (a < 0.0 && 0.0 < b) || (0.0 < a && b < 0.0)
  }

  /** A product is negative exactly when its factors have opposite signs. */
  lemma OppositeSignsProduct(a: real, b: real)
    ensures OppositeSigns(a, b) <==> a * b < 0.0
  {
  }

  /** The reported contribution `round(gap * share, 4)`: the product itself
      read exactly, and otherwise within half a unit of the fourth decimal
      and of the product's sign. */
  function Contribution(mode: Arith, gap: real, share: real): (r: real)
    ensures mode == Exact ==> r == gap * share
    ensures mode == Rounded ==> Within(r, gap * share, 0.00005)
    ensures gap * share >= 0.0 ==> r >= 0.0
    ensures gap * share <= 0.0 ==> r <= 0.0
  {
    var c := gap * share;
    RoundSign(c, 4);
    RoundError(c, 4);
    assert Pow10(4) == 10000;
    Rnd(mode, c, 4)
  }

  /** The result rows in group order, one per key of `ks`. */
  function Stats(mode: Arith, rows: seq<Row>, d: Dim, ks: seq<Key>, total: real, reference: real, rule: NegativeRule): (r: seq<GroupStat>)
    ensures |r| == |ks|
    ensures forall i :: 0 <= i < |ks| ==> r[i] == StatOf(mode, rows, d, ks[i], total, reference, rule)
  {
    if |ks| == 0 then []
    else [StatOf(mode, rows, d, ks[0], total, reference, rule)] + Stats(mode, rows, d, ks[1..], total, reference, rule)
  }

  /** `sort(key=lambda x: x['NPS'], reverse=True)`. */
  function ByNpsDescending(g: GroupStat): SortKey {
    SortKey(0, -g.metrics.nps)
  }

  function KeyOfStat(g: GroupStat): Key {
    g.key
  }

  function ShareOf(g: GroupStat): real {
    g.share
  }

  function ContributionOf(g: GroupStat): real {
    g.contribution
  }

  /** The keys of a list of result rows, in order. */
  function StatKeys(r: seq<GroupStat>): (ks: seq<Key>)
    ensures |ks| == |r|
    ensures forall i :: 0 <= i < |r| ==> ks[i] == r[i].key
  {
    if |r| == 0 then [] else [r[0].key] + StatKeys(r[1..])
  }

  /** One grouped dimension, sorted by NPS descending, ties in key order. */
  function Analyze(mode: Arith, rows: seq<Row>, d: Dim, total: real, reference: real, rule: NegativeRule): (r: seq<GroupStat>)
    // exactly one row per distinct key
    ensures |r| == |GroupKeys(rows, d)|
    ensures forall k :: k in StatKeys(r) <==> k in GroupKeys(rows, d)
    ensures forall i, j :: 0 <= i < j < |r| ==> r[i].key != r[j].key
    // each row is the analysis of its own group
    ensures forall i :: 0 <= i < |r| ==> r[i] == StatOf(mode, rows, d, r[i].key, total, reference, rule)
    // NPS descending; equal NPS in ascending key order
    ensures forall i, j :: 0 <= i < j < |r| ==> r[i].metrics.nps >= r[j].metrics.nps
    ensures forall i, j :: 0 <= i < j < |r| && r[i].metrics.nps == r[j].metrics.nps ==> KeyLt(r[i].key, r[j].key)
  {
    var ks := GroupKeys(rows, d);
    var s := Stats(mode, rows, d, ks, total, reference, rule);
    StatsKeys(mode, rows, d, ks, total, reference, rule);
    StatsOwnKeys(mode, rows, d, ks, total, reference, rule);
    SortedShape(s);
    Sort(s, ByNpsDescending)
  }

  /** The keys of the stats of `ks` are `ks`. */
  lemma {:induction false} StatsKeys(mode: Arith, rows: seq<Row>, d: Dim, ks: seq<Key>, total: real, reference: real, rule: NegativeRule)
    ensures StatKeys(Stats(mode, rows, d, ks, total, reference, rule)) == ks
    decreases |ks|
  {
    if |ks| > 0 {
      StatsKeys(mode, rows, d, ks[1..], total, reference, rule);
    }
  }

  /** Every stat of `ks` is the analysis of its own key. */
  lemma StatsOwnKeys(mode: Arith, rows: seq<Row>, d: Dim, ks: seq<Key>, total: real, reference: real, rule: NegativeRule)
    ensures forall g :: g in Stats(mode, rows, d, ks, total, reference, rule) ==>
              g == StatOf(mode, rows, d, g.key, total, reference, rule)
  {
  }

  /** The shape facts of `Analyze`, for the sorted list of any result rows
      whose keys ascend. */
  lemma SortedShape(s: seq<GroupStat>)
    requires StrictlyAscending(StatKeys(s))
    ensures var r := Sort(s, ByNpsDescending);
            && (forall k :: k in StatKeys(r) <==> k in StatKeys(s))
            && (forall i :: 0 <= i < |r| ==> r[i] in s)
            && (forall i, j :: 0 <= i < j < |r| ==> r[i].key != r[j].key)
            && (forall i, j :: 0 <= i < j < |r| ==> r[i].metrics.nps >= r[j].metrics.nps)
            && (forall i, j :: 0 <= i < j < |r| && r[i].metrics.nps == r[j].metrics.nps ==> KeyLt(r[i].key, r[j].key))
  {
    var r := Sort(s, ByNpsDescending);
    SortedOrder(s);
    SortedKeys(s, r);
    SortedMembers(s);
    SortedDistinctKeys(s);
  }

  lemma SortedMembers(s: seq<GroupStat>)
    ensures var r := Sort(s, ByNpsDescending);
            forall i :: 0 <= i < |r| ==> r[i] in s
  {
    var r := Sort(s, ByNpsDescending);
    forall i | 0 <= i < |r|
      ensures r[i] in s
    {
      assert r[i] in multiset(s);
    }
  }

  lemma SortedDistinctKeys(s: seq<GroupStat>)
    requires StrictlyAscending(StatKeys(s))
    ensures var r := Sort(s, ByNpsDescending);
            forall i, j :: 0 <= i < j < |r| ==> r[i].key != r[j].key
  {
    var r := Sort(s, ByNpsDescending);
    SortKeepsTieOrder(s, ByNpsDescending, KeyOfStat);
    forall i, j | 0 <= i < j < |r|
      ensures r[i].key != r[j].key
    {
      assert r[i] in multiset(s) && r[j] in multiset(s);
      assert Precedes(r[i], r[j], ByNpsDescending, KeyOfStat);
      KeyLtIrreflexive(r[i].key);
      DistinctMembersKeys(s, r[i], r[j]);
    }
  }

  /** Distinct members of a list of result rows with ascending keys have
      distinct keys. */
  lemma DistinctMembersKeys(s: seq<GroupStat>, a: GroupStat, b: GroupStat)
    requires StrictlyAscending(StatKeys(s))
    requires a in s && b in s && a != b
    ensures a.key != b.key
  {
    var n :| 0 <= n < |s| && s[n] == a;
    var m :| 0 <= m < |s| && s[m] == b;
    AscendingDistinct(StatKeys(s), n, m);
  }

  /** Sorting stats whose keys ascend orders them by NPS descending, equal
      NPS in key order. */
  lemma SortedOrder(s: seq<GroupStat>)
    requires StrictlyAscending(StatKeys(s))
    ensures var r := Sort(s, ByNpsDescending);
            && (forall i, j :: 0 <= i < j < |r| ==> r[i].metrics.nps >= r[j].metrics.nps)
            && (forall i, j :: 0 <= i < j < |r| && r[i].metrics.nps == r[j].metrics.nps ==> KeyLt(r[i].key, r[j].key))
  {
    var r := Sort(s, ByNpsDescending);
    SortKeepsTieOrder(s, ByNpsDescending, KeyOfStat);
    forall i, j | 0 <= i < j < |r|
      ensures r[i].metrics.nps >= r[j].metrics.nps
      ensures r[i].metrics.nps == r[j].metrics.nps ==> KeyLt(r[i].key, r[j].key)
    {
      assert Precedes(r[i], r[j], ByNpsDescending, KeyOfStat);
    }
  }

  /** A permutation of result rows has the same keys. */
  lemma SortedKeys(s: seq<GroupStat>, r: seq<GroupStat>)
    requires multiset(r) == multiset(s)
    ensures forall k :: k in StatKeys(r) <==> k in StatKeys(s)
  {
    forall k | k in StatKeys(s)
      ensures k in StatKeys(r)
    {
      var n :| 0 <= n < |s| && StatKeys(s)[n] == k;
      assert s[n] in multiset(r);
      var i :| 0 <= i < |r| && r[i] == s[n];
      assert StatKeys(r)[i] == k;
    }
    forall k | k in StatKeys(r)
      ensures k in StatKeys(s)
    {
      var i :| 0 <= i < |r| && StatKeys(r)[i] == k;
      assert r[i] in multiset(s);
      var n :| 0 <= n < |s| && s[n] == r[i];
      assert StatKeys(s)[n] == k;
    }
  }

  /** The condition under which a dimension's contributions cancel: every
      group has positive weight, or carries neither promoter score nor
      detractor flags. A weightless detractor order inside a group with
      weight is allowed; one in a group without any weight is not (see
      `Supplier.WeightlessDetractorBreaksCancel`). */
  ghost predicate Cancellable(rows: seq<Row>, d: Dim) {
    forall k :: SumOf(Group(rows, d, k), Weight) > 0.0
                || (SumOf(Group(rows, d, k), Promoter) == 0.0 && SumOf(Group(rows, d, k), Detractor) == 0.0)
  }

  /** With no negative weights a group without weight has no promoter score,
      so it suffices that such groups carry no detractor flag. */
  lemma NonNegativeCancellable(rows: seq<Row>, d: Dim)
    requires forall x :: x in rows ==> 0.0 <= x.weight
    requires forall k :: SumOf(Group(rows, d, k), Weight) <= 0.0 ==> SumOf(Group(rows, d, k), Detractor) == 0.0
    ensures Cancellable(rows, d)
  {
    forall k
      ensures SumOf(Group(rows, d, k), Weight) > 0.0
              || (SumOf(Group(rows, d, k), Promoter) == 0.0 && SumOf(Group(rows, d, k), Detractor) == 0.0)
    {
      var g := Group(rows, d, k);
      if SumOf(g, Weight) <= 0.0 {
        WeightlessPromoter(g);
      }
    }
  }

  lemma {:induction false} WeightlessPromoter(g: seq<Row>)
    requires forall x :: x in g ==> 0.0 <= x.weight
    requires SumOf(g, Weight) <= 0.0
    ensures SumOf(g, Promoter) == 0.0
    decreases |g|
  {
    if |g| > 0 {
      assert forall x :: x in g[1..] ==> x in g;
      NonNegativeWeightSum(g[1..]);
      assert g[0].weight == 0.0;
      WeightlessPromoter(g[1..]);
    }
  }

  lemma {:induction false} NonNegativeWeightSum(g: seq<Row>)
    requires forall x :: x in g ==> 0.0 <= x.weight
    ensures SumOf(g, Weight) >= 0.0
    decreases |g|
  {
    if |g| > 0 {
      assert forall x :: x in g[1..] ==> x in g;
      NonNegativeWeightSum(g[1..]);
    }
  }

  /** The arithmetic of adding two groups' shares. */
  lemma AddQuotients(a: real, b: real, t: real)
    requires t > 0.0
    ensures a / t + b / t == (a + b) / t
  {
  }

  lemma QuotientSplit(x: real, a: real, b: real, t: real)
    requires t > 0.0 && x == a + b
    ensures x / t == a / t + b / t
  {
    AddQuotients(a, b, t);
  }

  lemma DivSelf(t: real)
    requires t > 0.0
    ensures t / t == 1.0
  {
  }

  /** 100 (P - D) less the reference times the denominator W, over the
      parent denominator: what the contributions of rows with these totals
      add up to. */
  function Centred(p: real, dd: real, w: real, reference: real, total: real): real
    requires total > 0.0
  {
    (100.0 * (p - dd) - reference * w) / total
  }

  /** `Centred` of some rows. */
  function CentredRows(sel: seq<Row>, reference: real, total: real): real
    requires total > 0.0
  {
    Centred(SumOf(sel, Promoter), SumOf(sel, Detractor), SumOf(sel, Weight), reference, total)
  }

  /** `Centred` adds up over totals. */
  lemma AddCentred(p1: real, d1: real, w1: real, p2: real, d2: real, w2: real, reference: real, total: real)
    requires total > 0.0
    ensures Centred(p1, d1, w1, reference, total) + Centred(p2, d2, w2, reference, total)
         == Centred(p1 + p2, d1 + d2, w1 + w2, reference, total)
  {
    assert reference * w1 + reference * w2 == reference * (w1 + w2);
    AddQuotients(100.0 * (p1 - d1) - reference * w1, 100.0 * (p2 - d2) - reference * w2, total);
  }

  /** Rows centred on their own NPS and denominator add up to nothing. */
  lemma CentredOnOwnNps(p: real, dd: real, w: real)
    requires w > 0.0
    ensures Centred(p, dd, w, NpsOf(w, dd, p), w) == 0.0
  {
    NpsOfScaled(w, dd, p);
  }

  /** `CentredRows` adds up over a split of the rows' column sums. */
  lemma CentredSplit(sel: seq<Row>, a: seq<Row>, b: seq<Row>, reference: real, total: real)
    requires total > 0.0
    requires forall f :: SumOf(sel, f) == SumOf(a, f) + SumOf(b, f)
    ensures CentredRows(sel, reference, total) == CentredRows(a, reference, total) + CentredRows(b, reference, total)
  {
    var p1, d1, w1 := SumOf(a, Promoter), SumOf(a, Detractor), SumOf(a, Weight);
    var p2, d2, w2 := SumOf(b, Promoter), SumOf(b, Detractor), SumOf(b, Weight);
    assert SumOf(sel, Promoter) == p1 + p2 && SumOf(sel, Detractor) == d1 + d2 && SumOf(sel, Weight) == w1 + w2;
    AddCentred(p1, d1, w1, p2, d2, w2, reference, total);
  }

  lemma {:induction false} SelectNone(rows: seq<Row>, d: Dim)
    ensures Select(rows, d, []) == []
    decreases |rows|
  {
    if |rows| > 0 {
      SelectNone(rows[1..], d);
    }
  }

  /** The sum over the stats of `ks` is the first group's value plus the
      sum over the rest. */
  lemma StatsSumStep(mode: Arith, rows: seq<Row>, d: Dim, ks: seq<Key>, total: real, reference: real, rule: NegativeRule, val: GroupStat -> real)
    requires |ks| > 0
    ensures SumBy(Stats(mode, rows, d, ks, total, reference, rule), val)
         == val(StatOf(mode, rows, d, ks[0], total, reference, rule))
            + SumBy(Stats(mode, rows, d, ks[1..], total, reference, rule), val)
  {
    var s := Stats(mode, rows, d, ks, total, reference, rule);
    assert s[1..] == Stats(mode, rows, d, ks[1..], total, reference, rule);
  }

  /** Read exactly, a group's share is its denominator over the parent's. */
  lemma ShareOfGroup(rows: seq<Row>, d: Dim, k: Key, total: real, reference: real, rule: NegativeRule)
    requires total > 0.0
    ensures StatOf(Exact, rows, d, k, total, reference, rule).share == SumOf(Group(rows, d, k), Weight) / total
  {
  }

  /** Read exactly, the shares of the groups of `ks` add up to their part of
      the denominator. */
  lemma {:induction false} StatsShareSum(rows: seq<Row>, d: Dim, ks: seq<Key>, total: real, reference: real, rule: NegativeRule)
    requires total > 0.0 && Distinct(ks)
    ensures SumBy(Stats(Exact, rows, d, ks, total, reference, rule), ShareOf)
         == SumOf(Select(rows, d, ks), Weight) / total
    decreases |ks|
  {
    if |ks| == 0 {
      SelectNone(rows, d);
    } else {
      var k := ks[0];
      var w := SumOf(Group(rows, d, k), Weight);
      var w' := SumOf(Select(rows, d, ks[1..]), Weight);
      var sum := SumBy(Stats(Exact, rows, d, ks, total, reference, rule), ShareOf);
      var rest := SumBy(Stats(Exact, rows, d, ks[1..], total, reference, rule), ShareOf);
      assert sum == w / total + rest by {
        StatsSumStep(Exact, rows, d, ks, total, reference, rule, ShareOf);
        ShareOfGroup(rows, d, k, total, reference, rule);
      }
      assert rest == w' / total by {
        StatsShareSum(rows, d, ks[1..], total, reference, rule);
      }
      assert SumOf(Select(rows, d, ks), Weight) == w + w' by {
        assert ks == [k] + ks[1..];
        SelectSplitSum(rows, d, k, ks[1..], Weight);
      }
      QuotientSplit(SumOf(Select(rows, d, ks), Weight), w, w', total);
    }
  }

  /** Read exactly, a group's contribution is 100 (P - D) of the group less
      the reference times its denominator, over the parent denominator. */
  lemma ContributionOfGroup(rows: seq<Row>, d: Dim, k: Key, total: real, reference: real, rule: NegativeRule)
    requires total > 0.0 && Cancellable(rows, d)
    ensures StatOf(Exact, rows, d, k, total, reference, rule).contribution
            == CentredRows(Group(rows, d, k), reference, total)
  {
    var g := Group(rows, d, k);
    var w, dd, p := SumOf(g, Weight), SumOf(g, Detractor), SumOf(g, Promoter);
    var nps := NpsOf(w, dd, p);
    var st := StatOf(Exact, rows, d, k, total, reference, rule);
    assert st.contribution == (nps - reference) * (w / total) by {
      assert st.metrics == CalcMetrics(Exact, g);
      assert st.metrics.nps == nps && st.share == w / total;
    }
    assert w > 0.0 || (p == 0.0 && dd == 0.0);
    GapIsCentred(nps, reference, w, dd, p, total);
  }

  /** The NPS gap of totals `w`, `dd`, `p` weighted by their share is their
      `Centred` value, when they have weight or nothing at all. */
  lemma GapIsCentred(nps: real, reference: real, w: real, dd: real, p: real, total: real)
    requires total > 0.0 && nps == NpsOf(w, dd, p)
    requires w > 0.0 || (p == 0.0 && dd == 0.0)
    ensures (nps - reference) * (w / total) == Centred(p, dd, w, reference, total)
  {
    WeightedGap(nps, reference, w, total);
    if w > 0.0 {
      NpsOfScaled(w, dd, p);
    }
  }

  /** The arithmetic of a contribution: the NPS gap times the share is the
      weighted gap over the parent denominator. */
  lemma WeightedGap(n: real, r: real, w: real, t: real)
    requires t > 0.0
    ensures (n - r) * (w / t) == (n * w - r * w) / t
  {
    var q := w / t;
    assert q * t == w;
    assert (n - r) * q * t == n * w - r * w;
  }

  /** Column sums of the selection of `[k] + ks` split into the group of `k`
      and the selection of `ks`. */
  lemma SelectSplit(rows: seq<Row>, d: Dim, ks: seq<Key>)
    requires |ks| > 0 && ks[0] !in ks[1..]
    ensures forall f :: SumOf(Select(rows, d, ks), f)
                     == SumOf(Group(rows, d, ks[0]), f) + SumOf(Select(rows, d, ks[1..]), f)
  {
    forall f
      ensures SumOf(Select(rows, d, ks), f)
           == SumOf(Group(rows, d, ks[0]), f) + SumOf(Select(rows, d, ks[1..]), f)
    {
      assert ks == [ks[0]] + ks[1..];
      SelectSplitSum(rows, d, ks[0], ks[1..], f);
    }
  }

  /** Read exactly, the contributions of the groups of `ks` add up to
      100 (P - D) of their rows less the reference times their denominator,
      over the parent denominator. */
  lemma {:induction false} StatsContributionSum(rows: seq<Row>, d: Dim, ks: seq<Key>, total: real, reference: real, rule: NegativeRule)
    requires total > 0.0 && Distinct(ks) && Cancellable(rows, d)
    ensures SumBy(Stats(Exact, rows, d, ks, total, reference, rule), ContributionOf)
            == CentredRows(Select(rows, d, ks), reference, total)
    decreases |ks|
  {
    if |ks| == 0 {
      SelectNone(rows, d);
    } else {
      var k := ks[0];
      var g := Group(rows, d, k);
      var sel' := Select(rows, d, ks[1..]);
      assert SumBy(Stats(Exact, rows, d, ks, total, reference, rule), ContributionOf)
          == CentredRows(g, reference, total)
             + SumBy(Stats(Exact, rows, d, ks[1..], total, reference, rule), ContributionOf) by {
        StatsSumStep(Exact, rows, d, ks, total, reference, rule, ContributionOf);
        ContributionOfGroup(rows, d, k, total, reference, rule);
      }
      StatsContributionSum(rows, d, ks[1..], total, reference, rule);
      SelectSplit(rows, d, ks);
      CentredSplit(Select(rows, d, ks), g, sel', reference, total);
    }
  }

  lemma GroupKeysDistinct(rows: seq<Row>, d: Dim)
    ensures Distinct(GroupKeys(rows, d))
  {
    var ks := GroupKeys(rows, d);
    forall i, j | 0 <= i < j < |ks|
      ensures ks[i] != ks[j]
    {
      AscendingDistinct(ks, i, j);
    }
  }

  /** `Analyze` sorts the stats of the group keys. */
  lemma AnalyzeSorts(mode: Arith, rows: seq<Row>, d: Dim, total: real, reference: real, rule: NegativeRule)
    ensures Analyze(mode, rows, d, total, reference, rule)
         == Sort(Stats(mode, rows, d, GroupKeys(rows, d), total, reference, rule), ByNpsDescending)
  {
  }

  /** Read exactly, the group shares of a dimension add up to 1. */
  lemma SharesSumToOne(rows: seq<Row>, d: Dim, reference: real, rule: NegativeRule)
    requires SumOf(rows, Weight) > 0.0
    ensures SumBy(Analyze(Exact, rows, d, SumOf(rows, Weight), reference, rule), ShareOf) == 1.0
  {
    var total := SumOf(rows, Weight);
    var ks := GroupKeys(rows, d);
    var s := Stats(Exact, rows, d, ks, total, reference, rule);
    assert SumBy(Analyze(Exact, rows, d, total, reference, rule), ShareOf) == SumBy(s, ShareOf) by {
      AnalyzeSorts(Exact, rows, d, total, reference, rule);
      SortSum(s, ByNpsDescending, ShareOf);
    }
    assert SumBy(s, ShareOf) == total / total by {
      GroupKeysDistinct(rows, d);
      StatsShareSum(rows, d, ks, total, reference, rule);
      SelectAll(rows, d, ks);
    }
    DivSelf(total);
  }

  /** Read exactly, the contributions of a dimension cancel when the
      reference is the NPS of all its rows and no group without weight
      carries a promoter score or a detractor flag. */
  lemma ContributionsCancel(rows: seq<Row>, d: Dim, rule: NegativeRule)
    requires SumOf(rows, Weight) > 0.0 && Cancellable(rows, d)
    ensures var total := SumOf(rows, Weight);
            var reference := NpsOf(total, SumOf(rows, Detractor), SumOf(rows, Promoter));
            SumBy(Analyze(Exact, rows, d, total, reference, rule), ContributionOf) == 0.0
  {
    var total := SumOf(rows, Weight);
    var reference := NpsOf(total, SumOf(rows, Detractor), SumOf(rows, Promoter));
    var ks := GroupKeys(rows, d);
    var s := Stats(Exact, rows, d, ks, total, reference, rule);
    assert SumBy(Analyze(Exact, rows, d, total, reference, rule), ContributionOf) == SumBy(s, ContributionOf) by {
      AnalyzeSorts(Exact, rows, d, total, reference, rule);
      SortSum(s, ByNpsDescending, ContributionOf);
    }
    assert SumBy(s, ContributionOf) == CentredRows(rows, reference, total) by {
      GroupKeysDistinct(rows, d);
      StatsContributionSum(rows, d, ks, total, reference, rule);
      SelectAll(rows, d, ks);
    }
    CentredOnOwnNps(SumOf(rows, Promoter), SumOf(rows, Detractor), total);
  }
}
