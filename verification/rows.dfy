/** The survey records and the grouping primitives the analyzer applies to
    them: column sums, row selection by key, and the ascending list of
    distinct group keys that pandas `groupby` iterates over. */
module Rows {
  import opened Ordering

  /** One order row with the twelve required columns. `date` is the travel
      date already normalised to a day number, so that the order of day
      numbers is the order of the `YYYY-MM-DD` strings. */
  datatype Row = Row(
    orderId: string,
    supplierId: int,
    supplierName: string,
    accountUid: int,
    accountName: string,
    date: int,
    followerId: int,
    followerName: string,
    weight: real,      // denominator weight, column 分母V5
    detractor: real,   // fitted detractor flag, column 拟合诋毁V5
    promoter: real,    // fitted promoter score, column 拟合推荐V5
    feedback: real     // has-user-feedback flag, column 有用户反馈
  )

  /** The summed quantities of a metric: the denominator, the (unweighted)
      detractor flags, and the promoter score weighted by the denominator. */
  datatype Field = Weight | Detractor | Promoter

  function Value(r: Row, f: Field): real {
    match f
    case Weight => r.weight
    case Detractor => r.detractor
    case Promoter => r.promoter * r.weight
  }

  /** Column sum over a set of rows (`group[col].sum()`). */
  function SumOf(rows: seq<Row>, f: Field): real {
    if |rows| == 0 then 0.0 else Value(rows[0], f) + SumOf(rows[1..], f)
  }

  lemma {:induction false} SumOfAppend(a: seq<Row>, b: seq<Row>, f: Field)
    ensures SumOf(a + b, f) == SumOf(a, f) + SumOf(b, f)
    decreases |a|
  {
    if |a| > 0 {
      assert (a + b)[1..] == a[1..] + b;
      SumOfAppend(a[1..], b, f);
    } else {
      assert a + b == b;
    }
  }

  /** The grouping dimensions of the analyzer. */
  datatype Dim = BySupplier | ByAccount | ByFollower | ByDate

  function KeyOf(r: Row, d: Dim): Key {
    match d
    case BySupplier => Key(r.supplierId, r.supplierName)
    case ByAccount => Key(r.accountUid, r.accountName)
    case ByFollower => Key(r.followerId, r.followerName)
    case ByDate => Key(r.date, "")
  }

  /** The rows whose `d`-key is one of `ks`, in their original order. */
  function Select(rows: seq<Row>, d: Dim, ks: seq<Key>): (r: seq<Row>)
    ensures |r| <= |rows|
    ensures forall x :: x in r <==> x in rows && KeyOf(x, d) in ks
  {
    if |rows| == 0 then []
    else if KeyOf(rows[0], d) in ks then [rows[0]] + Select(rows[1..], d, ks)
    else Select(rows[1..], d, ks)
  }

  /** One pandas group: the rows with key `k`, in their original order. */
  function Group(rows: seq<Row>, d: Dim, k: Key): seq<Row> {
    Select(rows, d, [k])
  }

  /** The rows of one supplier, `df[df['成团供应商id'] == supplier_id]`:
      matched on the id alone, whatever the supplier's name. */
  function SupplierRows(rows: seq<Row>, supplierId: int): (r: seq<Row>)
    ensures forall x :: x in r <==> x in rows && x.supplierId == supplierId
    ensures (exists x :: x in rows && x.supplierId == supplierId) <==> |r| > 0
    // the matching rows keep the order of `rows` (and, with
    // `SupplierRowsPartition`, every copy)
    ensures Subsequence(r, rows)
  {
    if |rows| == 0 then []
    else
      var rest := SupplierRows(rows[1..], supplierId);
      assert rows == [rows[0]] + rows[1..];
      if rows[0].supplierId == supplierId then [rows[0]] + rest
      else
        assert rest != [] ==> rest[0] in rest;
        rest
  }

  /** The rows of every other supplier, `df[df['成团供应商id'] != supplier_id]`. */
  function OtherRows(rows: seq<Row>, supplierId: int): (r: seq<Row>)
    ensures forall x :: x in r <==> x in rows && x.supplierId != supplierId
    ensures Subsequence(r, rows)
  {
    if |rows| == 0 then []
    else
      var rest := OtherRows(rows[1..], supplierId);
      assert rows == [rows[0]] + rows[1..];
      if rows[0].supplierId != supplierId then [rows[0]] + rest
      else
        assert rest != [] ==> rest[0] in rest;
        rest
  }

  /** `a` is `b` with some rows left out and the others in their order. */
  predicate Subsequence(a: seq<Row>, b: seq<Row>)
    decreases |b|
  {
    if |a| == 0 then true
    else if |b| == 0 then false
    else if a[0] == b[0] then Subsequence(a[1..], b[1..])
    else Subsequence(a, b[1..])
  }

  /** The supplier filter and its complement split the table: together
      they have as many rows as the table and its column sums. */
  lemma {:induction false} SupplierRowsPartition(rows: seq<Row>, supplierId: int)
    ensures |SupplierRows(rows, supplierId)| + |OtherRows(rows, supplierId)| == |rows|
    ensures forall f :: SumOf(rows, f) == SumOf(SupplierRows(rows, supplierId), f) + SumOf(OtherRows(rows, supplierId), f)
  {
    PartitionLength(rows, supplierId);
    forall f
      ensures SumOf(rows, f) == SumOf(SupplierRows(rows, supplierId), f) + SumOf(OtherRows(rows, supplierId), f)
    {
      PartitionSum(rows, supplierId, f);
    }
  }

  lemma {:induction false} PartitionLength(rows: seq<Row>, supplierId: int)
    ensures |SupplierRows(rows, supplierId)| + |OtherRows(rows, supplierId)| == |rows|
    decreases |rows|
  {
    if |rows| > 0 {
      PartitionLength(rows[1..], supplierId);
    }
  }

  lemma {:induction false} PartitionSum(rows: seq<Row>, supplierId: int, f: Field)
    ensures SumOf(rows, f) == SumOf(SupplierRows(rows, supplierId), f) + SumOf(OtherRows(rows, supplierId), f)
    decreases |rows|
  {
    if |rows| > 0 {
      PartitionSum(rows[1..], supplierId, f);
      var s, o := SupplierRows(rows[1..], supplierId), OtherRows(rows[1..], supplierId);
      if rows[0].supplierId == supplierId {
        assert ([rows[0]] + s)[1..] == s;
      } else {
        assert ([rows[0]] + o)[1..] == o;
      }
    }
  }

  /** Adds `k` to an ascending key list unless it is already there. */
  function InsertKey(k: Key, ks: seq<Key>): (r: seq<Key>)
    requires StrictlyAscending(ks)
    ensures StrictlyAscending(r)
    ensures forall x :: x in r <==> x == k || x in ks
  {
    if |ks| == 0 then [k]
    else if k == ks[0] then ks
    else if KeyLt(k, ks[0]) then
      assert forall j :: 0 <= j < |ks| ==> KeyLt(k, ks[j]) by {
        forall j | 0 < j < |ks| {
          KeyLtTransitive(k, ks[0], ks[j]);
        }
      }
      [k] + ks
    else
      KeyLtTotal(k, ks[0]);
      var rest := InsertKey(k, ks[1..]);
      assert forall x :: x in rest ==> KeyLt(ks[0], x);
      [ks[0]] + rest
  }

  /** The keys pandas `groupby(...)` iterates over: each distinct key of the
      rows exactly once, in ascending order. */
  function GroupKeys(rows: seq<Row>, d: Dim): (r: seq<Key>)
    ensures StrictlyAscending(r)
    ensures forall k :: k in r <==> exists x :: x in rows && KeyOf(x, d) == k
  {
    if |rows| == 0 then []
    else
      var rest := GroupKeys(rows[1..], d);
      assert forall x :: x in rows <==> x == rows[0] || x in rows[1..] by {
        assert rows == [rows[0]] + rows[1..];
      }
      InsertKey(KeyOf(rows[0], d), rest)
  }

  /** Selecting by all keys that occur keeps every row. */
  lemma {:induction false} SelectAll(rows: seq<Row>, d: Dim, ks: seq<Key>)
    requires forall x :: x in rows ==> KeyOf(x, d) in ks
    ensures Select(rows, d, ks) == rows
    decreases |rows|
  {
    if |rows| > 0 {
      assert forall x :: x in rows[1..] ==> x in rows;
      SelectAll(rows[1..], d, ks);
      assert rows == [rows[0]] + rows[1..];
    }
  }

  /** Selecting by `[k] + ks` splits into the group of `k` and the rest,
      column sum by column sum, when `k` is not among `ks`. */
  lemma {:induction false} SelectSplitSum(rows: seq<Row>, d: Dim, k: Key, ks: seq<Key>, f: Field)
    requires k !in ks
    ensures SumOf(Select(rows, d, [k] + ks), f)
         == SumOf(Group(rows, d, k), f) + SumOf(Select(rows, d, ks), f)
    decreases |rows|
  {
    if |rows| > 0 {
      SelectSplitSum(rows[1..], d, k, ks, f);
    }
  }

  /** The same split, counted in rows. */
  lemma {:induction false} SelectSplitLength(rows: seq<Row>, d: Dim, k: Key, ks: seq<Key>)
    requires k !in ks
    ensures |Select(rows, d, [k] + ks)| == |Group(rows, d, k)| + |Select(rows, d, ks)|
    decreases |rows|
  {
    if |rows| > 0 {
      SelectSplitLength(rows[1..], d, k, ks);
    }
  }

  /** Selecting by a list of keys equals selecting by its elements. */
  lemma {:induction false} SelectSameKeys(rows: seq<Row>, d: Dim, ks: seq<Key>, ks': seq<Key>)
    requires forall k :: k in ks <==> k in ks'
    ensures Select(rows, d, ks) == Select(rows, d, ks')
    decreases |rows|
  {
    if |rows| > 0 {
      SelectSameKeys(rows[1..], d, ks, ks');
    }
  }

  /** The number of rows with key `k`. */
  lemma {:induction false} GroupNonEmpty(rows: seq<Row>, d: Dim, k: Key)
    requires exists x :: x in rows && KeyOf(x, d) == k
    ensures |Group(rows, d, k)| > 0
  {
    var x :| x in rows && KeyOf(x, d) == k;
    assert x in Group(rows, d, k);
  }
}
