/** The contents of one bucket as a sequence of items, and what the list operations do to it. */
module Chains {
  import opened Bytes
  import opened Options

  datatype Item = Item(key: seq<byte>, value: seq<byte>)

  type Chain = seq<Item>

  /** Keys strictly descend under `strcmp`: hence no key occurs twice and no node is reached twice. */
  ghost predicate Descending(items: Chain) {
    forall i, j :: 0 <= i < j < |items| ==> StrCmp(items[i].key, items[j].key) > 0
  }

  function Keys(items: Chain): (r: seq<seq<byte>>)
    ensures |r| == |items|
    ensures forall i :: 0 <= i < |items| ==> r[i] == items[i].key
  {
    seq(|items|, i requires 0 <= i < |items| => items[i].key)
  }

  /** The finite map a chain stands for. */
  function ItemMap(items: Chain): map<seq<byte>, seq<byte>> {
    if items == [] then map[] else ItemMap(items[1..])[items[0].key := items[0].value]
  }

  function Lookup(items: Chain, key: seq<byte>): Option<seq<byte>> {
    if items == [] then None
    else if items[0].key == key then Some(items[0].value)
    else Lookup(items[1..], key)
  }

  /** Replace the item with the same key, or add the item before the first smaller key. */
  function Insert(items: Chain, it: Item): Chain {
    if items == [] then [it]
    else if items[0].key == it.key then [it] + items[1..]
    else if StrCmp(items[0].key, it.key) < 0 then [it] + items
    else [items[0]] + Insert(items[1..], it)
  }

  function Delete(items: Chain, key: seq<byte>): Chain {
    if items == [] then []
    else if items[0].key == key then items[1..]
    else [items[0]] + Delete(items[1..], key)
  }

  // ---- The operations by position, as the loops over the nodes see them ----

  lemma {:induction false} InsertAt(items: Chain, it: Item, p: nat)
    requires p <= |items|
    requires forall i :: 0 <= i < p ==> StrCmp(items[i].key, it.key) > 0
    requires p < |items| ==> StrCmp(items[p].key, it.key) < 0
    ensures Insert(items, it) == items[..p] + [it] + items[p..]
  {
    if p > 0 {
      InsertAt(items[1..], it, p - 1);
      assert items[1..][..p - 1] == items[1..p] && items[1..][p - 1..] == items[p..];
      assert items[..p] == [items[0]] + items[1..p];
    }
  }

  lemma {:induction false} ReplaceAt(items: Chain, it: Item, p: nat)
    requires p < |items| && items[p].key == it.key
    requires forall i :: 0 <= i < p ==> StrCmp(items[i].key, it.key) > 0
    ensures Insert(items, it) == items[p := it]
  {
    if p > 0 {
      ReplaceAt(items[1..], it, p - 1);
      assert items[p := it] == [items[0]] + items[1..][p - 1 := it];
    } else {
      assert items[p := it] == [it] + items[1..];
    }
  }

  lemma {:induction false} DeleteAt(items: Chain, key: seq<byte>, p: nat)
    requires p < |items| && items[p].key == key
    requires forall i :: 0 <= i < p ==> items[i].key != key
    ensures Delete(items, key) == items[..p] + items[p + 1..]
  {
    if p > 0 {
      DeleteAt(items[1..], key, p - 1);
      assert items[1..][..p - 1] == items[1..p] && items[1..][p..] == items[p + 1..];
      assert items[..p] == [items[0]] + items[1..p];
    }
  }

  lemma {:induction false} LookupAt(items: Chain, key: seq<byte>, p: nat)
    requires p <= |items|
    requires forall i :: 0 <= i < p ==> items[i].key != key
    ensures p < |items| && items[p].key == key ==> Lookup(items, key) == Some(items[p].value)
    ensures p == |items| ==> Lookup(items, key) == None && Delete(items, key) == items
  {
    if p > 0 {
      LookupAt(items[1..], key, p - 1);
    }
  }

  lemma {:induction false} AbsentDelete(items: Chain, key: seq<byte>)
    requires Lookup(items, key).None?
    ensures Delete(items, key) == items
  {
    if items != [] {
      AbsentDelete(items[1..], key);
    }
  }

  // ---- A chain is a map ----

  lemma {:induction false} LookupIsMap(items: Chain, key: seq<byte>)
    ensures Lookup(items, key) == if key in ItemMap(items) then Some(ItemMap(items)[key]) else None
  {
    if items != [] {
      LookupIsMap(items[1..], key);
    }
  }

  lemma {:induction false} MapKeys(items: Chain)
    ensures forall i :: 0 <= i < |items| ==> items[i].key in ItemMap(items)
    ensures forall k :: k in ItemMap(items) ==> k in Keys(items)
  {
    if items != [] {
      MapKeys(items[1..]);
      forall k | k in ItemMap(items) && k != items[0].key ensures k in Keys(items) {
        var names := Keys(items[1..]);
        assert k in names;
        var i :| 0 <= i < |names| && names[i] == k;
        assert Keys(items)[i + 1] == k;
      }
      assert Keys(items)[0] == items[0].key;
    }
  }

  lemma HeadNotInTail(items: Chain)
    requires Descending(items) && items != []
    ensures Descending(items[1..])
    ensures items[0].key !in ItemMap(items[1..])
  {
    MapKeys(items[1..]);
  }

  /** In a descending chain the length is the number of keys. */
  lemma {:induction false} ChainSize(items: Chain)
    requires Descending(items)
    ensures |ItemMap(items)| == |items|
  {
    if items != [] {
      HeadNotInTail(items);
      ChainSize(items[1..]);
      assert ItemMap(items).Keys == ItemMap(items[1..]).Keys + {items[0].key};
    }
  }

  /** `list_add` and `table_update` on the map: the new key takes the value and nothing else changes. */
  lemma {:induction false} InsertMap(items: Chain, it: Item)
    ensures ItemMap(Insert(items, it)) == ItemMap(items)[it.key := it.value]
  {
    if items != [] && items[0].key != it.key && StrCmp(items[0].key, it.key) > 0 {
      InsertMap(items[1..], it);
    }
  }

  lemma ConsDescending(head: Item, tail: Chain)
    requires Descending(tail)
    requires forall x :: x in tail ==> StrCmp(head.key, x.key) > 0
    ensures Descending([head] + tail)
  {
    var r := [head] + tail;
    forall i, j | 0 <= i < j < |r| ensures StrCmp(r[i].key, r[j].key) > 0 {
      assert r[j] == tail[j - 1];
      if i > 0 {
        assert r[i] == tail[i - 1];
      }
    }
  }

  lemma HeadAbove(items: Chain)
    requires Descending(items) && items != []
    ensures Descending(items[1..])
    ensures forall x :: x in items[1..] ==> StrCmp(items[0].key, x.key) > 0
  {
  }

  lemma {:induction false} InsertMembers(items: Chain, it: Item)
    ensures forall x :: x in Insert(items, it) ==> x == it || x in items
  {
    if items != [] && items[0].key != it.key && StrCmp(items[0].key, it.key) > 0 {
      InsertMembers(items[1..], it);
    }
  }

  /** Insertion keeps the chain strictly descending. */
  lemma {:induction false} InsertDescending(items: Chain, it: Item)
    requires Descending(items)
    ensures Descending(Insert(items, it))
  {
    if items != [] {
      HeadAbove(items);
      if items[0].key == it.key {
        ConsDescending(it, items[1..]);
      } else if StrCmp(items[0].key, it.key) < 0 {
        StrCmpAntisymmetric(items[0].key, it.key);
        forall x | x in items ensures StrCmp(it.key, x.key) > 0 {
          if x != items[0] {
            assert x in items[1..];
            StrCmpTransitive(it.key, items[0].key, x.key);
          }
        }
        ConsDescending(it, items);
      } else {
        InsertDescending(items[1..], it);
        InsertMembers(items[1..], it);
        ConsDescending(items[0], Insert(items[1..], it));
      }
    }
  }

  lemma {:induction false} DeleteMembers(items: Chain, key: seq<byte>)
    ensures forall x :: x in Delete(items, key) ==> x in items
  {
    if items != [] && items[0].key != key {
      DeleteMembers(items[1..], key);
    }
  }

  /** Deletion keeps the chain strictly descending. */
  lemma {:induction false} DeleteDescending(items: Chain, key: seq<byte>)
    requires Descending(items)
    ensures Descending(Delete(items, key))
  {
    if items != [] {
      HeadAbove(items);
      if items[0].key != key {
        DeleteDescending(items[1..], key);
        DeleteMembers(items[1..], key);
        ConsDescending(items[0], Delete(items[1..], key));
      }
    }
  }

  /** Deletion removes exactly the key from the map. */
  lemma {:induction false} DeleteMap(items: Chain, key: seq<byte>)
    requires Descending(items)
    ensures ItemMap(Delete(items, key)) == ItemMap(items) - {key}
  {
    if items != [] {
      HeadNotInTail(items);
      if items[0].key != key {
        DeleteMap(items[1..], key);
      }
    }
  }

  lemma {:induction false} MaximalHead(items: Chain, k: seq<byte>)
    requires Descending(items) && k in ItemMap(items)
    ensures items != [] && (k == items[0].key || StrCmp(items[0].key, k) > 0)
  {
    MapKeys(items);
    var names := Keys(items);
    assert k in names;
    var i :| 0 <= i < |names| && names[i] == k;
  }

  /** The order is canonical: a map has only one descending chain. */
  lemma {:induction false} Canonical(a: Chain, b: Chain)
    requires Descending(a) && Descending(b) && ItemMap(a) == ItemMap(b)
    ensures a == b
  {
    hide StrCmp;
    if a != [] || b != [] {
      if a != [] { assert a[0].key in ItemMap(a); MaximalHead(b, a[0].key); }
      if b != [] { assert b[0].key in ItemMap(b); MaximalHead(a, b[0].key); }
      StrCmpAntisymmetric(a[0].key, b[0].key);
      assert a[0] == b[0];
      HeadNotInTail(a);
      HeadNotInTail(b);
      assert ItemMap(a[1..]) == ItemMap(a) - {a[0].key};
      assert ItemMap(b[1..]) == ItemMap(b) - {b[0].key};
      Canonical(a[1..], b[1..]);
      assert a == [a[0]] + a[1..] && b == [b[0]] + b[1..];
    }
  }

}
