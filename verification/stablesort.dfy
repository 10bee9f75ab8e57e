/** Python's `list.sort(key=...)`: a stable sort, modelled as insertion
    sort ascending on a `SortKey`. */
module StableSort {
  import opened Ordering

  ghost predicate SortedBy<T>(s: seq<T>, key: T -> SortKey) {
    forall i, j :: 0 <= i < j < |s| ==> SortLe(key(s[i]), key(s[j]))
  }

  /** Inserts `x` in front of the first element whose key is not smaller,
      that is, before every element with an equal key. */
  function Insert<T>(x: T, s: seq<T>, key: T -> SortKey): (r: seq<T>)
    ensures multiset(r) == multiset(s) + multiset{x}
    ensures |r| == |s| + 1
    ensures SortedBy(s, key) ==> SortedBy(r, key)
  {
    if |s| == 0 then [x]
    else if SortLe(key(x), key(s[0])) then [x] + s
    else
      var rest := Insert(x, s[1..], key);
      assert s == [s[0]] + s[1..];
      MultisetElements(rest, s[1..], x);
      assert SortedBy(s, key) ==> SortedBy([s[0]] + rest, key) by {
        if SortedBy(s, key) {
          var r := [s[0]] + rest;
          forall i, j | 0 <= i < j < |r|
            ensures SortLe(key(r[i]), key(r[j]))
          {
            if i == 0 {
              assert r[j] in rest;
            } else {
              assert r[i] == rest[i - 1] && r[j] == rest[j - 1];
            }
          }
        }
      }
      [s[0]] + rest
  }

  lemma MultisetElements<T>(r: seq<T>, s: seq<T>, x: T)
    requires multiset(r) == multiset(s) + multiset{x}
    ensures forall y :: y in r ==> y == x || y in s
  {
    forall y | y in r
      ensures y == x || y in s
    {
      assert y in multiset(r);
    }
  }

  /** `sorted(s, key=key)`. */
  function Sort<T>(s: seq<T>, key: T -> SortKey): (r: seq<T>)
    ensures multiset(r) == multiset(s)
    ensures |r| == |s|
    ensures SortedBy(r, key)
  {
    if |s| == 0 then [] else
      assert s == [s[0]] + s[1..];
      Insert(s[0], Sort(s[1..], key), key)
  }

  /** The items of `s` whose key is `v`, in their order in `s`. */
  function WithKey<T>(s: seq<T>, key: T -> SortKey, v: SortKey): seq<T> {
    if |s| == 0 then []
    else if key(s[0]) == v then [s[0]] + WithKey(s[1..], key, v)
    else WithKey(s[1..], key, v)
  }

  lemma {:induction false} InsertWithKey<T>(x: T, s: seq<T>, key: T -> SortKey, v: SortKey)
    requires SortedBy(s, key)
    ensures WithKey(Insert(x, s, key), key, v)
         == (if key(x) == v then [x] else []) + WithKey(s, key, v)
    decreases |s|
  {
    if |s| > 0 && !SortLe(key(x), key(s[0])) {
      InsertWithKey(x, s[1..], key, v);
      assert Insert(x, s, key)[1..] == Insert(x, s[1..], key);
    }
  }

  /** Stability: among items with equal keys the sort keeps the input order. */
  lemma {:induction false} SortStable<T>(s: seq<T>, key: T -> SortKey, v: SortKey)
    ensures WithKey(Sort(s, key), key, v) == WithKey(s, key, v)
    decreases |s|
  {
    if |s| > 0 {
      SortStable(s[1..], key, v);
      InsertWithKey(s[0], Sort(s[1..], key), key, v);
    }
  }

  /** Ordered by the sort key, and by `tie` among equal sort keys. */
  ghost predicate OrderedWithTies<T>(s: seq<T>, key: T -> SortKey, tie: T -> Key) {
    forall i, j :: 0 <= i < j < |s| ==> Precedes(s[i], s[j], key, tie)
  }

  /** `a` goes strictly before `b`: a smaller sort key, or an equal sort key
      and a smaller tie key. */
  ghost predicate Precedes<T>(a: T, b: T, key: T -> SortKey, tie: T -> Key) {
    (SortLe(key(a), key(b)) && key(a) != key(b))
    || (key(a) == key(b) && KeyLt(tie(a), tie(b)))
  }

  /** The two steps of `Insert`, each keeping `OrderedWithTies`. */
  lemma ConsWithTies<T>(x: T, s: seq<T>, key: T -> SortKey, tie: T -> Key)
    requires OrderedWithTies(s, key, tie)
    requires forall y :: y in s ==> Precedes(x, y, key, tie)
    ensures OrderedWithTies([x] + s, key, tie)
  {
    var r := [x] + s;
    forall i, j | 0 <= i < j < |r|
      ensures Precedes(r[i], r[j], key, tie)
    {
      if i == 0 {
        assert r[j] in s;
      } else {
        assert r[i] == s[i - 1] && r[j] == s[j - 1];
      }
    }
  }

  lemma {:induction false} InsertWithTies<T>(x: T, s: seq<T>, key: T -> SortKey, tie: T -> Key)
    requires OrderedWithTies(s, key, tie)
    requires forall y :: y in s ==> KeyLt(tie(x), tie(y))
    ensures OrderedWithTies(Insert(x, s, key), key, tie)
    decreases |s|
  {
    if |s| == 0 {
    } else if SortLe(key(x), key(s[0])) {
      forall y | y in s
        ensures Precedes(x, y, key, tie)
      {
        var j :| 0 <= j < |s| && s[j] == y;
        if j > 0 {
          assert SortLe(key(s[0]), key(s[j]));
        }
      }
      ConsWithTies(x, s, key, tie);
    } else {
      var rest := Insert(x, s[1..], key);
      assert forall y :: y in s[1..] ==> y in s;
      InsertWithTies(x, s[1..], key, tie);
      MultisetElements(rest, s[1..], x);
      forall y | y in rest
        ensures Precedes(s[0], y, key, tie)
      {
        if y != x {
          var j :| 0 <= j < |s[1..]| && s[1..][j] == y;
          assert s[j + 1] == y;
        }
      }
      ConsWithTies(s[0], rest, key, tie);
    }
  }

  /** A sort of items already ascending by `tie` leaves ties in `tie` order. */
  lemma {:induction false} SortKeepsTieOrder<T>(s: seq<T>, key: T -> SortKey, tie: T -> Key)
    requires forall i, j :: 0 <= i < j < |s| ==> KeyLt(tie(s[i]), tie(s[j]))
    ensures OrderedWithTies(Sort(s, key), key, tie)
    decreases |s|
  {
    if |s| > 0 {
      SortKeepsTieOrder(s[1..], key, tie);
      forall y | y in Sort(s[1..], key)
        ensures KeyLt(tie(s[0]), tie(y))
      {
        assert y in multiset(Sort(s[1..], key));
        assert y in s[1..];
      }
      InsertWithTies(s[0], Sort(s[1..], key), key, tie);
    }
  }

  /** Sum of a real-valued attribute. */
  function SumBy<T>(s: seq<T>, val: T -> real): real {
    if |s| == 0 then 0.0 else val(s[0]) + SumBy(s[1..], val)
  }

  lemma {:induction false} InsertSum<T>(x: T, s: seq<T>, key: T -> SortKey, val: T -> real)
    ensures SumBy(Insert(x, s, key), val) == val(x) + SumBy(s, val)
    decreases |s|
  {
    if |s| > 0 && !SortLe(key(x), key(s[0])) {
      InsertSum(x, s[1..], key, val);
      assert Insert(x, s, key)[1..] == Insert(x, s[1..], key);
    }
  }

  /** Sorting does not change the sum of any attribute. */
  lemma {:induction false} SortSum<T>(s: seq<T>, key: T -> SortKey, val: T -> real)
    ensures SumBy(Sort(s, key), val) == SumBy(s, val)
    decreases |s|
  {
    if |s| > 0 {
      SortSum(s[1..], key, val);
      InsertSum(s[0], Sort(s[1..], key), key, val);
    }
  }
}
