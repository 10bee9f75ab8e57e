/** Orders used by the analyzer: Python's string order, the order pandas
    gives to grouping keys, and the lexicographic sort keys of the two
    `list.sort` calls. */
module Ordering {

  /** Python `str <`: lexicographic by code point, a proper prefix first. */
  predicate StrLt(a: string, b: string)
    decreases |a|
  {
    if |a| == 0 then |b| > 0
    else if |b| == 0 then false
    else a[0] < b[0] || (a[0] == b[0] && StrLt(a[1..], b[1..]))
  }

  lemma {:induction false} StrLtIrreflexive(a: string)
    ensures !StrLt(a, a)
    decreases |a|
  {
    if |a| > 0 {
      StrLtIrreflexive(a[1..]);
    }
  }

  lemma {:induction false} StrLtTransitive(a: string, b: string, c: string)
    requires StrLt(a, b) && StrLt(b, c)
    ensures StrLt(a, c)
    decreases |a|
  {
    if |a| > 0 && a[0] == b[0] && b[0] == c[0] {
      StrLtTransitive(a[1..], b[1..], c[1..]);
    }
  }

  lemma {:induction false} StrLtTotal(a: string, b: string)
    requires a != b
    ensures StrLt(a, b) || StrLt(b, a)
    decreases |a|
  {
    if |a| > 0 && |b| > 0 && a[0] == b[0] {
      assert a == [a[0]] + a[1..] && b == [b[0]] + b[1..];
      StrLtTotal(a[1..], b[1..]);
    }
  }

  /** A grouping key: an identifier and a display name. pandas `groupby`
      over two columns orders its groups by the pair, first by id and then
      by name. A date key uses the day number as id and the empty name. */
  datatype Key = Key(id: int, name: string)

  predicate KeyLt(a: Key, b: Key) {
    a.id < b.id || (a.id == b.id && StrLt(a.name, b.name))
  }

  lemma KeyLtIrreflexive(a: Key)
    ensures !KeyLt(a, a)
  {
    StrLtIrreflexive(a.name);
  }

  lemma KeyLtTransitive(a: Key, b: Key, c: Key)
    requires KeyLt(a, b) && KeyLt(b, c)
    ensures KeyLt(a, c)
  {
    if a.id == b.id == c.id {
      StrLtTransitive(a.name, b.name, c.name);
    }
  }

  lemma KeyLtTotal(a: Key, b: Key)
    requires a != b
    ensures KeyLt(a, b) || KeyLt(b, a)
  {
    if a.id == b.id {
      StrLtTotal(a.name, b.name);
    }
  }

  /** No element occurs twice. */
  ghost predicate Distinct<T>(s: seq<T>) {
    forall i, j :: 0 <= i < j < |s| ==> s[i] != s[j]
  }

  /** Strictly ascending, hence free of duplicates. */
  ghost predicate StrictlyAscending(ks: seq<Key>) {
    forall i, j :: 0 <= i < j < |ks| ==> KeyLt(ks[i], ks[j])
  }

  lemma AscendingDistinct(ks: seq<Key>, i: int, j: int)
    requires StrictlyAscending(ks)
    requires 0 <= i < |ks| && 0 <= j < |ks| && i != j
    ensures ks[i] != ks[j]
  {
    if i < j {
      KeyLtIrreflexive(ks[i]);
    } else {
      KeyLtIrreflexive(ks[j]);
    }
  }

  /** The key of a `list.sort(key=...)` call, compared as a Python tuple
      `(major, minor)`. A descending sort on `x` is the ascending sort on
      `-x`, because Python's `reverse=True` keeps equal items in order. */
  datatype SortKey = SortKey(major: int, minor: real)

  predicate SortLe(a: SortKey, b: SortKey) {
    a.major < b.major || (a.major == b.major && a.minor <= b.minor)
  }
}
