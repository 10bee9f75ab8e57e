/** The all-supplier views: the overall NPS baseline, the ranked overall
    analysis (nps_analyzer.py `get_overall_analysis`) and the supplier list
    (`get_supplier_list`). */
module Supplier {
  import opened Ordering
  import opened Rows
  import opened Rounding
  import opened Metrics
  import opened StableSort
  import opened Dimension

  /** `_calculate_overall_nps`: the NPS of all rows when their denominator
      is positive; otherwise the previous baseline is kept (0 on a fresh
      analyzer). */
  function OverallBaseline(rows: seq<Row>, previous: real): real {
    var w := SumOf(rows, Weight);
    if w > 0.0 then NpsOf(w, SumOf(rows, Detractor), SumOf(rows, Promoter)) else previous
  }

  /** The baseline is the whole table's NPS as the metric calculator
      computes it, and is left alone when the table has no positive weight. */
  lemma BaselineIsWholeNps(rows: seq<Row>, previous: real)
    ensures SumOf(rows, Weight) > 0.0 ==> OverallBaseline(rows, previous) == CalcMetrics(Exact, rows).nps
    ensures SumOf(rows, Weight) <= 0.0 ==> OverallBaseline(rows, previous) == previous
  {
  }

  /** One row of the overall analysis: the supplier's group statistics, its
      rank and whether its NPS is below the target (未达目标). */
  datatype SupplierResult = SupplierResult(rank: nat, stat: GroupStat, belowTarget: bool)

  /** Numbers the sorted results from 1 and flags those below the target. */
  function Ranked(s: seq<GroupStat>, target: int, from: nat): (r: seq<SupplierResult>)
    ensures |r| == |s|
    ensures forall i :: 0 <= i < |s| ==> r[i].stat == s[i] && r[i].rank == from + i
    ensures forall i :: 0 <= i < |s| ==> (r[i].belowTarget <==> s[i].metrics.nps < target as real)
  {
    if |s| == 0 then []
    else [SupplierResult(from, s[0], s[0].metrics.nps < target as real)] + Ranked(s[1..], target, from + 1)
  }

  function ResultKeys(r: seq<SupplierResult>): (ks: seq<Key>)
    ensures |ks| == |r|
    ensures forall i :: 0 <= i < |r| ==> ks[i] == r[i].stat.key
  {
    if |r| == 0 then [] else [r[0].stat.key] + ResultKeys(r[1..])
  }

  /** `get_overall_analysis` on loaded rows: one result per (supplier id,
      supplier name), contributions against `baseline` weighted by the
      share of the total denominator, sorted by NPS descending and ranked. */
  function OverallAnalysis(mode: Arith, rows: seq<Row>, target: int, baseline: real): (r: seq<SupplierResult>)
    // one result per distinct supplier key, and no other
    ensures forall k :: k in ResultKeys(r) <==> exists x :: x in rows && KeyOf(x, BySupplier) == k
    ensures forall i, j :: 0 <= i < j < |r| ==> r[i].stat.key != r[j].stat.key
    // ranks number the rows 1..|r| in order
    ensures forall i :: 0 <= i < |r| ==> r[i].rank == i + 1
    // NPS descending, equal NPS in (id, name) order
    ensures forall i, j :: 0 <= i < j < |r| ==> r[i].stat.metrics.nps >= r[j].stat.metrics.nps
    ensures forall i, j :: 0 <= i < j < |r| && r[i].stat.metrics.nps == r[j].stat.metrics.nps ==>
              KeyLt(r[i].stat.key, r[j].stat.key)
    // each result is its supplier's group, measured against the whole table
    ensures forall i :: 0 <= i < |r| ==>
              r[i].stat == StatOf(mode, rows, BySupplier, r[i].stat.key, SumOf(rows, Weight), baseline, ContributionBelowZero)
    ensures forall i :: 0 <= i < |r| ==> (r[i].belowTarget <==> r[i].stat.metrics.nps < target as real)
  {
    var s := Analyze(mode, rows, BySupplier, SumOf(rows, Weight), baseline, ContributionBelowZero);
    var r := Ranked(s, target, 1);
    assert ResultKeys(r) == StatKeys(s);
    r
  }

  function StatsOfResults(r: seq<SupplierResult>): (s: seq<GroupStat>)
    ensures |s| == |r|
    ensures forall i :: 0 <= i < |r| ==> s[i] == r[i].stat
  {
    if |r| == 0 then [] else [r[0].stat] + StatsOfResults(r[1..])
  }

  /** Read exactly, with positive total weight, the suppliers' shares of
      the denominator add up to 1. */
  lemma OverallSharesSumToOne(rows: seq<Row>, target: int, baseline: real)
    requires SumOf(rows, Weight) > 0.0
    ensures SumBy(StatsOfResults(OverallAnalysis(Exact, rows, target, baseline)), ShareOf) == 1.0
  {
    var s := Analyze(Exact, rows, BySupplier, SumOf(rows, Weight), baseline, ContributionBelowZero);
    assert StatsOfResults(OverallAnalysis(Exact, rows, target, baseline)) == s;
    SharesSumToOne(rows, BySupplier, baseline, ContributionBelowZero);
  }

  /** Read exactly, with positive total weight and no weightless supplier
      carrying a promoter score or a detractor flag, the suppliers'
      contributions to the freshly computed baseline cancel. */
  lemma OverallContributionsCancel(rows: seq<Row>, target: int, previous: real)
    requires SumOf(rows, Weight) > 0.0 && Cancellable(rows, BySupplier)
    ensures var r := OverallAnalysis(Exact, rows, target, OverallBaseline(rows, previous));
            SumBy(StatsOfResults(r), ContributionOf) == 0.0
  {
    var baseline := OverallBaseline(rows, previous);
    var s := Analyze(Exact, rows, BySupplier, SumOf(rows, Weight), baseline, ContributionBelowZero);
    assert StatsOfResults(OverallAnalysis(Exact, rows, target, baseline)) == s;
    ContributionsCancel(rows, BySupplier, ContributionBelowZero);
  }

  /** Supplier "a": one promoter at weight 1. */
  const PromoterA := Row("o1", 1, "a", 0, "", 0, 0, "", 1.0, 0.0, 1.0, 0.0)
  /** Supplier "b": one detractor at weight 0. */
  const DetractorB := Row("o2", 2, "b", 0, "", 0, 0, "", 0.0, 1.0, 0.0, 0.0)
  /** Supplier "a" again: one detractor at weight 0. */
  const DetractorA := Row("o3", 1, "a", 0, "", 0, 0, "", 0.0, 1.0, 0.0, 0.0)

  lemma SampleGroups()
    ensures Group([PromoterA, DetractorB], BySupplier, Key(1, "a")) == [PromoterA]
    ensures Group([PromoterA, DetractorB], BySupplier, Key(2, "b")) == [DetractorB]
    ensures GroupKeys([PromoterA, DetractorB], BySupplier) == [Key(1, "a"), Key(2, "b")]
  {
    var rows := [PromoterA, DetractorB];
    assert rows[1..] == [DetractorB] && [DetractorB][1..] == [];
    var ka, kb := Key(1, "a"), Key(2, "b");
    assert KeyOf(PromoterA, BySupplier) == ka && KeyOf(DetractorB, BySupplier) == kb;
    assert Select([DetractorB], BySupplier, [ka]) == [] by {
      assert Select([], BySupplier, [ka]) == [];
    }
    assert Select([DetractorB], BySupplier, [kb]) == [DetractorB] by {
      assert Select([], BySupplier, [kb]) == [];
    }
    var ks := GroupKeys(rows, BySupplier);
    assert PromoterA in rows && DetractorB in rows;
    assert ka in ks && kb in ks;
    assert forall k :: k in ks ==> k == ka || k == kb;
    if |ks| > 2 {
      AscendingDistinct(ks, 0, 1);
      AscendingDistinct(ks, 0, 2);
      AscendingDistinct(ks, 1, 2);
      assert ks[0] in ks && ks[1] in ks && ks[2] in ks;
    }
    assert KeyLt(ka, kb);
    KeyLtIrreflexive(ka);
    KeyLtIrreflexive(kb);
  }

  lemma SampleStats()
    ensures OverallBaseline([PromoterA, DetractorB], 0.0) == 0.0
    ensures StatOf(Exact, [PromoterA, DetractorB], BySupplier, Key(1, "a"), 1.0, 0.0, ContributionBelowZero).contribution == 100.0
    ensures StatOf(Exact, [PromoterA, DetractorB], BySupplier, Key(2, "b"), 1.0, 0.0, ContributionBelowZero).contribution == 0.0
    ensures SumOf([PromoterA, DetractorB], Weight) == 1.0
  {
    var rows := [PromoterA, DetractorB];
    assert rows[1..] == [DetractorB] && [DetractorB][1..] == [];
    SampleGroups();
    assert SumOf([], Weight) == 0.0 && SumOf([], Promoter) == 0.0 && SumOf([], Detractor) == 0.0;
    assert SumOf([DetractorB], Weight) == 0.0 && SumOf([DetractorB], Promoter) == 0.0 && SumOf([DetractorB], Detractor) == 1.0;
    assert [PromoterA][1..] == [];
    assert SumOf([PromoterA], Weight) == 1.0 && SumOf([PromoterA], Promoter) == 1.0 && SumOf([PromoterA], Detractor) == 0.0;
    assert SumOf(rows, Weight) == 1.0 && SumOf(rows, Promoter) == 1.0 && SumOf(rows, Detractor) == 1.0;
    assert NpsOf(1.0, 1.0, 1.0) == 0.0;
  }

  /** A detractor that is the only, weightless, order of its supplier breaks
      the cancellation: the baseline counts its flag, its supplier's share
      is 0, and the contributions of the two suppliers add up to 100. */
  lemma WeightlessDetractorBreaksCancel()
    ensures var r := OverallAnalysis(Exact, [PromoterA, DetractorB], 60, OverallBaseline([PromoterA, DetractorB], 0.0));
            SumBy(StatsOfResults(r), ContributionOf) == 100.0
  {
    var rows := [PromoterA, DetractorB];
    SampleGroups();
    SampleStats();
    var ka, kb := Key(1, "a"), Key(2, "b");
    var sa := StatOf(Exact, rows, BySupplier, ka, 1.0, 0.0, ContributionBelowZero);
    var sb := StatOf(Exact, rows, BySupplier, kb, 1.0, 0.0, ContributionBelowZero);
    var s := Stats(Exact, rows, BySupplier, [ka, kb], 1.0, 0.0, ContributionBelowZero);
    assert SumBy(s, ContributionOf) == 100.0 by {
      assert s[0] == sa && s[1] == sb && |s| == 2;
      assert s[1..][1..] == [];
      assert SumBy(s[1..][1..], ContributionOf) == 0.0;
    }
    AnalyzeSorts(Exact, rows, BySupplier, 1.0, 0.0, ContributionBelowZero);
    SortSum(s, ByNpsDescending, ContributionOf);
    assert StatsOfResults(OverallAnalysis(Exact, rows, 60, 0.0))
        == Analyze(Exact, rows, BySupplier, 1.0, 0.0, ContributionBelowZero);
  }

  /** The same weightless detractor filed under supplier "a", which has
      weight: it lowers that supplier's NPS along with the baseline, and the
      contributions cancel. What breaks the cancellation above is a group
      without weight, not a row without weight. */
  lemma WeightlessDetractorInWeightedGroupCancels()
    ensures !Cancellable([PromoterA, DetractorB], BySupplier)
    ensures Cancellable([PromoterA, DetractorA], BySupplier)
    ensures var rows := [PromoterA, DetractorA];
            var r := OverallAnalysis(Exact, rows, 60, OverallBaseline(rows, 0.0));
            SumBy(StatsOfResults(r), ContributionOf) == 0.0
  {
    assert !Cancellable([PromoterA, DetractorB], BySupplier) by {
      SampleGroups();
      var gb := Group([PromoterA, DetractorB], BySupplier, Key(2, "b"));
      assert gb == [DetractorB] && gb[1..] == [];
      assert SumOf([], Weight) == 0.0 && SumOf([], Detractor) == 0.0;
      assert SumOf(gb, Weight) == 0.0 && SumOf(gb, Detractor) == 1.0;
    }
    var rows := [PromoterA, DetractorA];
    var ka := Key(1, "a");
    assert rows[1..] == [DetractorA] && [DetractorA][1..] == [];
    assert SumOf([], Weight) == 0.0 && SumOf([DetractorA], Weight) == 0.0;
    assert SumOf(rows, Weight) == 1.0;
    forall k
      ensures SumOf(Group(rows, BySupplier, k), Weight) > 0.0
              || (SumOf(Group(rows, BySupplier, k), Promoter) == 0.0 && SumOf(Group(rows, BySupplier, k), Detractor) == 0.0)
    {
      assert KeyOf(PromoterA, BySupplier) == ka && KeyOf(DetractorA, BySupplier) == ka;
      assert Select([], BySupplier, [k]) == [];
      if k == ka {
        assert Select([DetractorA], BySupplier, [k]) == [DetractorA];
        assert Group(rows, BySupplier, k) == rows;
      } else {
        assert Select([DetractorA], BySupplier, [k]) == [];
        assert Group(rows, BySupplier, k) == [];
      }
    }
    OverallContributionsCancel(rows, 60, 0.0);
  }

  /** One entry of the supplier list: id, name and order count. */
  datatype SupplierEntry = SupplierEntry(id: int, name: string, count: nat)

  function EntryKey(e: SupplierEntry): Key {
    Key(e.id, e.name)
  }

  function EntryKeys(r: seq<SupplierEntry>): (ks: seq<Key>)
    ensures |ks| == |r|
    ensures forall i :: 0 <= i < |r| ==> ks[i] == EntryKey(r[i])
  {
    if |r| == 0 then [] else [EntryKey(r[0])] + EntryKeys(r[1..])
  }

  function Entries(rows: seq<Row>, ks: seq<Key>): (r: seq<SupplierEntry>)
    ensures |r| == |ks|
    ensures forall i :: 0 <= i < |ks| ==>
              EntryKey(r[i]) == ks[i] && r[i].count == |Group(rows, BySupplier, ks[i])|
  {
    if |ks| == 0 then []
    else [SupplierEntry(ks[0].id, ks[0].name, |Group(rows, BySupplier, ks[0])|)] + Entries(rows, ks[1..])
  }

  /** `get_supplier_list` on loaded rows: the `groupby(...).size()` table. */
  function SupplierList(rows: seq<Row>): (r: seq<SupplierEntry>)
    // one entry per distinct (id, name), in ascending key order
    ensures forall i, j :: 0 <= i < j < |r| ==> KeyLt(EntryKey(r[i]), EntryKey(r[j]))
    ensures forall k :: k in EntryKeys(r) <==> exists x :: x in rows && KeyOf(x, BySupplier) == k
    // each count is the number of that supplier's rows, never zero
    ensures forall i :: 0 <= i < |r| ==> r[i].count == |Group(rows, BySupplier, EntryKey(r[i]))| && r[i].count >= 1
  {
    var ks := GroupKeys(rows, BySupplier);
    var r := Entries(rows, ks);
    assert forall i :: 0 <= i < |r| ==> r[i].count >= 1 by {
      forall i | 0 <= i < |r|
        ensures r[i].count >= 1
      {
        assert ks[i] in ks;
        GroupNonEmpty(rows, BySupplier, ks[i]);
      }
    }
    assert EntryKeys(r) == ks;
    r
  }

  function SumCounts(r: seq<SupplierEntry>): int {
    if |r| == 0 then 0 else r[0].count + SumCounts(r[1..])
  }

  lemma {:induction false} EntriesCount(rows: seq<Row>, ks: seq<Key>)
    requires Distinct(ks)
    ensures SumCounts(Entries(rows, ks)) == |Select(rows, BySupplier, ks)|
    decreases |ks|
  {
    if |ks| == 0 {
      SelectNone(rows, BySupplier);
    } else {
      var e := Entries(rows, ks);
      assert e[1..] == Entries(rows, ks[1..]);
      EntriesCount(rows, ks[1..]);
      assert ks == [ks[0]] + ks[1..];
      SelectSplitLength(rows, BySupplier, ks[0], ks[1..]);
    }
  }

  /** The supplier list's counts add up to the number of rows. */
  lemma SupplierCountsSum(rows: seq<Row>)
    ensures SumCounts(SupplierList(rows)) == |rows|
  {
    var ks := GroupKeys(rows, BySupplier);
    GroupKeysDistinct(rows, BySupplier);
    EntriesCount(rows, ks);
    SelectAll(rows, BySupplier, ks);
  }

  /** The supplier list and the overall analysis cover the same suppliers,
      and where their keys meet, the list's count is the analysis' order
      count. */
  lemma SupplierListMatchesOverall(mode: Arith, rows: seq<Row>, target: int, baseline: real)
    ensures var l := SupplierList(rows);
            var r := OverallAnalysis(mode, rows, target, baseline);
            && (forall k :: k in EntryKeys(l) <==> k in ResultKeys(r))
            && (forall i, j :: 0 <= i < |l| && 0 <= j < |r| && EntryKey(l[i]) == r[j].stat.key ==>
                  l[i].count == r[j].stat.metrics.orderCount)
  {
  }
}
