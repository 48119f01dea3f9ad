/** The whole table as a sequence of buckets, and the finite map it refines. */
module Rows {
  import opened Bytes
  import opened Options
  import opened Hashing
  import opened Chains

  type Key = seq<byte>
  type Value = seq<byte>
  type Map = map<Key, Value>
  type Rows = seq<Chain>

  const OK: int := 0
  const ERROR: int := -1
  const KEY_EXISTS: int := -10

  // ---- The specification: a finite map with insert-if-absent, replace-if-present and remove ----

  function MapPut(m: Map, k: Key, v: Value): (Map, int) {
    if k in m then (m, KEY_EXISTS) else (m[k := v], OK)
  }

  function MapUpdate(m: Map, k: Key, v: Value): (Map, int) {
    if k in m then (m[k := v], OK) else (m, ERROR)
  }

  function MapDel(m: Map, k: Key): (Map, int) {
    if k in m then (m - {k}, OK) else (m, ERROR)
  }

  function MapGet(m: Map, k: Key): Option<Value> {
    if k in m then Some(m[k]) else None
  }

  /** Every key of the map once, and nothing else. */
  ghost predicate Enumerates(keys: seq<Key>, m: Map) {
    && (forall k :: k in keys <==> k in m)
    && (forall i, j :: 0 <= i < j < |keys| ==> keys[i] != keys[j])
  }

  // ---- The representation: one chain per bucket ----

  /** Every key of the first rows sits in the row that a table of `l` buckets gives it. */
  ghost predicate Placed(rows: Rows, l: int) {
    && l > 0
    && |rows| <= l
    && (forall i :: 0 <= i < |rows| ==> Descending(rows[i]))
    && (forall i, it :: 0 <= i < |rows| && it in rows[i] ==>
        Hashable(it.key) && KeyHash(it.key, l) == i && it.value != [])
  }

  ghost predicate WellFormed(rows: Rows) {
    |rows| > 0 && Placed(rows, |rows|)
  }

  function Bucket(rows: Rows, k: Key): (h: nat)
    requires |rows| > 0 && Hashable(k)
    ensures h < |rows|
  {
    IndexBound(k, |rows|);
    KeyHash(k, |rows|)
  }

  function RowsMap(rows: Rows): Map {
    if rows == [] then map[] else RowsMap(rows[..|rows| - 1]) + ItemMap(rows[|rows| - 1])
  }

  /** The sum of the list sizes. */
  function Total(rows: Rows): nat {
    if rows == [] then 0 else Total(rows[..|rows| - 1]) + |rows[|rows| - 1]|
  }

  /** Bucket by bucket, the keys of each list in list order. */
  function AllKeys(rows: Rows): (r: seq<Key>)
    ensures |r| == Total(rows)
  {
    if rows == [] then [] else AllKeys(rows[..|rows| - 1]) + Keys(rows[|rows| - 1])
  }

  function PutRows(rows: Rows, k: Key, v: Value): (Rows, int)
    requires |rows| > 0 && Hashable(k)
  {
    var h := Bucket(rows, k);
    if Lookup(rows[h], k).Some? then (rows, KEY_EXISTS)
    else (rows[h := Insert(rows[h], Item(k, v))], OK)
  }

  function UpdateRows(rows: Rows, k: Key, v: Value): (Rows, int)
    requires |rows| > 0 && Hashable(k)
  {
    var h := Bucket(rows, k);
    if Lookup(rows[h], k).Some? then (rows[h := Insert(rows[h], Item(k, v))], OK)
    else (rows, ERROR)
  }

  function DelRows(rows: Rows, k: Key): (Rows, int)
    requires |rows| > 0 && Hashable(k)
  {
    var h := Bucket(rows, k);
    if Lookup(rows[h], k).Some? then (rows[h := Delete(rows[h], k)], OK)
    else (rows, ERROR)
  }

  function GetRows(rows: Rows, k: Key): Option<Value>
    requires |rows| > 0 && Hashable(k)
  {
    Lookup(rows[Bucket(rows, k)], k)
  }

  // ---- The branches of the operations ----

  lemma PutCases(rows: Rows, k: Key, v: Value)
    requires |rows| > 0 && Hashable(k)
    ensures GetRows(rows, k).Some? ==> PutRows(rows, k, v) == (rows, KEY_EXISTS)
    ensures GetRows(rows, k).None? ==>
      PutRows(rows, k, v) == (rows[Bucket(rows, k) := Insert(rows[Bucket(rows, k)], Item(k, v))], OK)
    ensures GetRows(rows, k).Some? ==>
      UpdateRows(rows, k, v) == (rows[Bucket(rows, k) := Insert(rows[Bucket(rows, k)], Item(k, v))], OK)
    ensures GetRows(rows, k).None? ==> UpdateRows(rows, k, v) == (rows, ERROR)
  {
  }

  lemma DelCases(rows: Rows, k: Key)
    requires |rows| > 0 && Hashable(k)
    ensures DelRows(rows, k) == (rows[Bucket(rows, k) := Delete(rows[Bucket(rows, k)], k)],
                                 if GetRows(rows, k).Some? then OK else ERROR)
  {
    hide Delete, Lookup, Bucket;
    var h := Bucket(rows, k);
    if Lookup(rows[h], k).None? {
      AbsentDelete(rows[h], k);
      assert rows[h := rows[h]] == rows;
    }
  }

  // ---- Where a key lives ----

  lemma PlacedPrefix(rows: Rows, l: int)
    requires Placed(rows, l) && rows != []
    ensures Placed(rows[..|rows| - 1], l)
  {
    var r := rows[..|rows| - 1];
    forall i, it: Item | 0 <= i < |r| && it in r[i]
      ensures Hashable(it.key) && KeyHash(it.key, l) == i && it.value != []
    {
      assert it in rows[i];
    }
  }

  lemma ChainKeyPlaced(rows: Rows, l: int, i: nat, k: Key)
    requires Placed(rows, l) && i < |rows| && k in ItemMap(rows[i])
    ensures Hashable(k) && KeyHash(k, l) == i
  {
    MapKeys(rows[i]);
    var names := Keys(rows[i]);
    assert k in names;
    var j :| 0 <= j < |names| && names[j] == k;
    assert rows[i][j] in rows[i];
  }

  /** A key is in the table exactly when it is in its own bucket: never in two buckets, never in another one. */
  lemma {:induction false} KeyOnlyInItsBucket(rows: Rows, l: int, k: Key)
    requires Placed(rows, l)
    ensures k in RowsMap(rows) <==>
      Hashable(k) && 0 <= KeyHash(k, l) < |rows| && k in ItemMap(rows[KeyHash(k, l)])
    ensures k in RowsMap(rows) ==> RowsMap(rows)[k] == ItemMap(rows[KeyHash(k, l)])[k]
  {
    hide KeyHash, Hashable, HashSum, Placed, ItemMap;
    if rows != [] {
      var n := |rows| - 1;
      PlacedPrefix(rows, l);
      KeyOnlyInItsBucket(rows[..n], l, k);
      if k in ItemMap(rows[n]) {
        ChainKeyPlaced(rows, l, n, k);
      }
    }
  }

  lemma LookupAgrees(rows: Rows, k: Key)
    requires WellFormed(rows) && Hashable(k)
    ensures GetRows(rows, k) == MapGet(RowsMap(rows), k)
  {
    KeyOnlyInItsBucket(rows, |rows|, k);
    LookupIsMap(rows[Bucket(rows, k)], k);
  }

  /** Replacing the bucket of `k` by a chain that differs from it at most at `k`. */
  lemma ReplaceBucket(rows: Rows, k: Key, chain: Chain)
    requires WellFormed(rows) && Hashable(k) && Descending(chain)
    requires forall it :: it in chain ==> it in rows[Bucket(rows, k)] || (it.key == k && it.value != [])
    ensures WellFormed(rows[Bucket(rows, k) := chain])
  {
    var h := Bucket(rows, k);
    var r := rows[h := chain];
    forall i, it: Item | 0 <= i < |r| && it in r[i]
      ensures Hashable(it.key) && KeyHash(it.key, |r|) == i && it.value != []
    {
      if i != h {
        assert it in rows[i];
      }
    }
  }

  lemma ReplaceBucketMap(rows: Rows, k: Key, chain: Chain, m: Map)
    requires WellFormed(rows) && Hashable(k)
    requires WellFormed(rows[Bucket(rows, k) := chain])
    requires k in m <==> k in ItemMap(chain)
    requires k in m ==> m[k] == ItemMap(chain)[k]
    requires ItemMap(chain) - {k} == ItemMap(rows[Bucket(rows, k)]) - {k}
    requires m - {k} == RowsMap(rows) - {k}
    ensures RowsMap(rows[Bucket(rows, k) := chain]) == m
  {
    hide RowsMap, ItemMap, Placed, KeyHash, Hashable;
    var r := rows[Bucket(rows, k) := chain];
    forall x ensures (x in RowsMap(r) <==> x in m) && (x in m ==> RowsMap(r)[x] == m[x]) {
      ReplaceBucketAt(rows, k, chain, m, x);
    }
  }

  /** The same for one key `x`. */
  lemma ReplaceBucketAt(rows: Rows, k: Key, chain: Chain, m: Map, x: Key)
    requires WellFormed(rows) && Hashable(k)
    requires WellFormed(rows[Bucket(rows, k) := chain])
    requires k in m <==> k in ItemMap(chain)
    requires k in m ==> m[k] == ItemMap(chain)[k]
    requires ItemMap(chain) - {k} == ItemMap(rows[Bucket(rows, k)]) - {k}
    requires m - {k} == RowsMap(rows) - {k}
    ensures var r := RowsMap(rows[Bucket(rows, k) := chain]); (x in r <==> x in m) && (x in m ==> r[x] == m[x])
  {
    hide RowsMap, ItemMap, Placed, HashSum;
    KeyOnlyInItsBucket(rows, |rows|, x);
    KeyOnlyInItsBucket(rows[Bucket(rows, k) := chain], |rows|, x);
    if x != k {
      assert x in m <==> x in m - {k};
      assert x in RowsMap(rows) <==> x in RowsMap(rows) - {k};
      assert x in ItemMap(chain) <==> x in ItemMap(chain) - {k};
      assert x in ItemMap(rows[Bucket(rows, k)]) <==> x in ItemMap(rows[Bucket(rows, k)]) - {k};
    }
  }

  // ---- The table refines the map ----

  /** `table_put` inserts if absent, reports -10 otherwise, and keeps the table well formed. */
  lemma PutRefines(rows: Rows, k: Key, v: Value)
    requires WellFormed(rows) && Hashable(k) && v != []
    ensures WellFormed(PutRows(rows, k, v).0) && |PutRows(rows, k, v).0| == |rows|
    ensures (RowsMap(PutRows(rows, k, v).0), PutRows(rows, k, v).1) == MapPut(RowsMap(rows), k, v)
    ensures PutRows(rows, k, v).1 == if k in RowsMap(rows) then -10 else 0
  {
    LookupAgrees(rows, k);
    if k !in RowsMap(rows) {
      InsertRefines(rows, k, v);
    }
  }

  lemma RowDescending(rows: Rows, i: nat)
    requires WellFormed(rows) && i < |rows|
    ensures Descending(rows[i])
  {
  }

  lemma InsertRefines(rows: Rows, k: Key, v: Value)
    requires WellFormed(rows) && Hashable(k) && v != []
    ensures WellFormed(rows[Bucket(rows, k) := Insert(rows[Bucket(rows, k)], Item(k, v))])
    ensures RowsMap(rows[Bucket(rows, k) := Insert(rows[Bucket(rows, k)], Item(k, v))]) == RowsMap(rows)[k := v]
  {
    hide Insert, ItemMap, RowsMap, Descending, Placed;
    var c, m := rows[Bucket(rows, k)], RowsMap(rows);
    var d := Insert(c, Item(k, v));
    assert Descending(c) by { RowDescending(rows, Bucket(rows, k)); }
    InsertDescending(c, Item(k, v));
    InsertMembers(c, Item(k, v));
    InsertMap(c, Item(k, v));
    ReplaceBucket(rows, k, d);
    assert ItemMap(c)[k := v] - {k} == ItemMap(c) - {k};
    assert m[k := v] - {k} == m - {k};
    ReplaceBucketMap(rows, k, d, m[k := v]);
  }

  /** `table_update` replaces if present and fails with -1 otherwise. */
  lemma UpdateRefines(rows: Rows, k: Key, v: Value)
    requires WellFormed(rows) && Hashable(k) && v != []
    ensures WellFormed(UpdateRows(rows, k, v).0) && |UpdateRows(rows, k, v).0| == |rows|
    ensures (RowsMap(UpdateRows(rows, k, v).0), UpdateRows(rows, k, v).1) == MapUpdate(RowsMap(rows), k, v)
    ensures UpdateRows(rows, k, v).1 == if k in RowsMap(rows) then 0 else -1
  {
    LookupAgrees(rows, k);
    if k in RowsMap(rows) {
      InsertRefines(rows, k, v);
    }
  }

  /** `table_del` removes the key if present and fails with -1 otherwise. */
  lemma DelRefines(rows: Rows, k: Key)
    requires WellFormed(rows) && Hashable(k)
    ensures WellFormed(DelRows(rows, k).0) && |DelRows(rows, k).0| == |rows|
    ensures (RowsMap(DelRows(rows, k).0), DelRows(rows, k).1) == MapDel(RowsMap(rows), k)
    ensures DelRows(rows, k).1 == if k in RowsMap(rows) then 0 else -1
  {
    hide Delete, ItemMap, RowsMap, Descending, Placed;
    LookupAgrees(rows, k);
    if k in RowsMap(rows) {
      var c, m := rows[Bucket(rows, k)], RowsMap(rows);
      assert Descending(c) by { RowDescending(rows, Bucket(rows, k)); }
      DeleteDescending(c, k);
      DeleteMembers(c, k);
      DeleteMap(c, k);
      ReplaceBucket(rows, k, Delete(c, k));
      assert (ItemMap(c) - {k}) - {k} == ItemMap(c) - {k} && (m - {k}) - {k} == m - {k};
      ReplaceBucketMap(rows, k, Delete(c, k), m - {k});
    }
  }

  /** The entry counter, the sum of the list sizes and the cardinality of the map are one number. */
  lemma {:induction false} CardinalityIsTotal(rows: Rows, l: int)
    requires Placed(rows, l)
    ensures |RowsMap(rows)| == Total(rows)
  {
    if rows != [] {
      var n := |rows| - 1;
      PlacedPrefix(rows, l);
      CardinalityIsTotal(rows[..n], l);
      ChainSize(rows[n]);
      var a, b := RowsMap(rows[..n]), ItemMap(rows[n]);
      forall k | k in a && k in b ensures false {
        ChainKeyPlaced(rows, l, n, k);
        KeyOnlyInItsBucket(rows[..n], l, k);
      }
      assert (a + b).Keys == a.Keys + b.Keys && a.Keys !! b.Keys;
    }
  }

  /** The counter moves by one exactly on a successful put or delete. */
  lemma PutTotal(rows: Rows, k: Key, v: Value)
    requires WellFormed(rows) && Hashable(k) && v != []
    ensures Total(PutRows(rows, k, v).0) == Total(rows) + (if PutRows(rows, k, v).1 == OK then 1 else 0)
    ensures Total(UpdateRows(rows, k, v).0) == Total(rows)
  {
    hide Placed, RowsMap, Total, PutRows, UpdateRows;
    PutRefines(rows, k, v);
    UpdateRefines(rows, k, v);
    CardinalityIsTotal(rows, |rows|);
    CardinalityIsTotal(PutRows(rows, k, v).0, |rows|);
    CardinalityIsTotal(UpdateRows(rows, k, v).0, |rows|);
    var m := RowsMap(rows);
    assert m[k := v].Keys == m.Keys + {k};
  }

  lemma DelTotal(rows: Rows, k: Key)
    requires WellFormed(rows) && Hashable(k)
    ensures Total(DelRows(rows, k).0) == Total(rows) - (if DelRows(rows, k).1 == OK then 1 else 0)
  {
    hide Placed, RowsMap, Total, DelRows;
    DelRefines(rows, k);
    CardinalityIsTotal(rows, |rows|);
    CardinalityIsTotal(DelRows(rows, k).0, |rows|);
    var m := RowsMap(rows);
    assert (m - {k}).Keys == m.Keys - {k};
  }

  /** The key listing is exactly the domain of the map, each key once. */
  lemma {:induction false} AllKeysExact(rows: Rows, l: int)
    requires Placed(rows, l)
    ensures forall k :: k in AllKeys(rows) <==> k in RowsMap(rows)
    ensures forall i, j :: 0 <= i < j < |AllKeys(rows)| ==> AllKeys(rows)[i] != AllKeys(rows)[j]
  {
    if rows != [] {
      var n := |rows| - 1;
      var a, b := AllKeys(rows[..n]), Keys(rows[n]);
      PlacedPrefix(rows, l);
      AllKeysExact(rows[..n], l);
      MapKeys(rows[n]);
      forall j | 0 <= j < |b| ensures b[j] !in a {
        ChainKeyPlaced(rows, l, n, b[j]);
        KeyOnlyInItsBucket(rows[..n], l, b[j]);
      }
      forall i, j | 0 <= i < j < |a + b| ensures (a + b)[i] != (a + b)[j] {
        if i >= |a| {
          assert StrCmp(rows[n][i - |a|].key, rows[n][j - |a|].key) > 0;
        } else if j >= |a| {
          assert (a + b)[i] in a;
        }
      }
    }
  }

  /** The listing goes through the buckets in order, and through each bucket from its largest key down. */
  lemma {:induction false} AllKeysOrdered(rows: Rows, l: int, i: nat, j: nat)
    requires Placed(rows, l) && i < j < |AllKeys(rows)|
    ensures var a, b := AllKeys(rows)[i], AllKeys(rows)[j];
      KeyHash(a, l) < KeyHash(b, l) < |rows| || (KeyHash(a, l) == KeyHash(b, l) < |rows| && StrCmp(a, b) > 0)
  {
    hide KeyHash;
    var n := |rows| - 1;
    var a, b := AllKeys(rows[..n]), Keys(rows[n]);
    PlacedPrefix(rows, l);
    if j < |a| {
      AllKeysOrdered(rows[..n], l, i, j);
    } else {
      ListedPlace(rows, l, n, j - |a|);
      if i < |a| {
        ListedBelow(rows[..n], l, i);
      } else {
        ListedPlace(rows, l, n, i - |a|);
      }
    }
  }

  lemma ListedPlace(rows: Rows, l: int, n: nat, i: nat)
    requires Placed(rows, l) && n < |rows| && i < |rows[n]|
    ensures KeyHash(Keys(rows[n])[i], l) == n
    ensures forall j :: i < j < |rows[n]| ==> StrCmp(Keys(rows[n])[i], Keys(rows[n])[j]) > 0
  {
    hide KeyHash, Hashable;
    assert rows[n][i] in rows[n];
  }

  lemma {:induction false} ListedBelow(rows: Rows, l: int, i: nat)
    requires Placed(rows, l) && i < |AllKeys(rows)|
    ensures KeyHash(AllKeys(rows)[i], l) < |rows|
  {
    hide KeyHash;
    var n := |rows| - 1;
    PlacedPrefix(rows, l);
    if i < |AllKeys(rows[..n])| {
      ListedBelow(rows[..n], l, i);
    } else {
      ListedPlace(rows, l, n, i - |AllKeys(rows[..n])|);
    }
  }

  lemma {:induction false} AllKeysPrefix(rows: Rows, n: nat)
    requires n <= |rows|
    ensures AllKeys(rows[..n]) <= AllKeys(rows)
    ensures n < |rows| ==> AllKeys(rows[..n + 1]) == AllKeys(rows[..n]) + Keys(rows[n])
    decreases |rows|
  {
    if n < |rows| {
      assert rows[..n + 1][..n] == rows[..n];
      AllKeysPrefix(rows[..|rows| - 1], n);
      assert rows[..|rows| - 1][..n] == rows[..n];
    } else {
      assert rows[..n] == rows;
    }
  }

  /** In a table of more than 763 buckets those from index 763 on are never used. */
  lemma HighBucketsEmpty(rows: Rows, i: nat)
    requires WellFormed(rows) && 763 <= i < |rows|
    ensures rows[i] == []
  {
    if rows[i] != [] {
      var it := rows[i][0];
      assert it in rows[i];
      IndexBound(it.key, |rows|);
    }
  }

  /** Two well-formed tables of the same size with equal maps are equal bucket by bucket. */
  lemma CanonicalRows(a: Rows, b: Rows)
    requires WellFormed(a) && WellFormed(b) && |a| == |b| && RowsMap(a) == RowsMap(b)
    ensures a == b
  {
    forall i | 0 <= i < |a| ensures a[i] == b[i] {
      forall k ensures k in ItemMap(a[i]) <==> k in ItemMap(b[i])
               ensures k in ItemMap(a[i]) ==> ItemMap(a[i])[k] == ItemMap(b[i])[k]
      {
        KeyOnlyInItsBucket(a, |a|, k);
        KeyOnlyInItsBucket(b, |a|, k);
        if k in ItemMap(a[i]) { ChainKeyPlaced(a, |a|, i, k); }
        if k in ItemMap(b[i]) { ChainKeyPlaced(b, |b|, i, k); }
      }
      assert ItemMap(a[i]) == ItemMap(b[i]);
      Canonical(a[i], b[i]);
    }
  }

  function EmptyRows(n: nat): (r: Rows)
    ensures |r| == n && forall i :: 0 <= i < n ==> r[i] == []
  {
    seq(n, _ => [])
  }

  lemma {:induction false} EmptyRowsMap(rows: Rows, l: int)
    requires 0 < l && |rows| <= l && forall i :: 0 <= i < |rows| ==> rows[i] == []
    ensures Placed(rows, l) && RowsMap(rows) == map[] && Total(rows) == 0
  {
    if rows != [] {
      EmptyRowsMap(rows[..|rows| - 1], l);
    }
  }
}
