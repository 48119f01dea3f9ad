/** The hash table: an array of lists and a counter, updated in place, refining `Rows`. */
module Tables {
  import opened Bytes
  import opened Options
  import opened Hashing
  import opened Chains
  import opened Entries
  import opened Lists
  import opened Rows

  class Table {
    var buckets: array<List>
    var size: int
    var quantityEntry: int
    ghost var rows: Rows
    ghost var Repr: set<object>

    /** The lists of the table are valid, owned and pairwise disjoint. */
    ghost predicate Separate()
      reads this, Repr
    {
      && this in Repr && buckets in Repr
      && (forall i :: 0 <= i < buckets.Length ==>
          && buckets[i] in Repr && buckets[i].Repr <= Repr
          && this !in buckets[i].Repr && buckets !in buckets[i].Repr)
      && (forall i, j :: 0 <= i < j < buckets.Length ==> buckets[i].Repr !! buckets[j].Repr)
      && (forall i :: 0 <= i < buckets.Length ==> buckets[i].Valid())
    }

    /** `rows` says what the lists contain. */
    ghost predicate Matches()
      reads this, Repr
      requires Separate()
    {
      size == buckets.Length == |rows| && forall i :: 0 <= i < |rows| ==> buckets[i].items == rows[i]
    }

    ghost predicate Valid()
      reads this, Repr
      ensures Valid() ==> this in Repr
    {
      && Separate()
      && Matches()
      && WellFormed(rows)
      && quantityEntry == Total(rows)
    }

    constructor (buckets: array<List>, ghost blocks: set<object>)
      requires buckets.Length > 0 && EmptyLists(buckets, buckets.Length, blocks)
      ensures Valid() && rows == EmptyRows(buckets.Length)
      ensures Repr == {this, buckets} + blocks
    {
      this.buckets := buckets;
      size := buckets.Length;
      quantityEntry := 0;
      rows := EmptyRows(buckets.Length);
      Repr := {this, buckets} + blocks;
      new;
      hide List.Valid;
      EmptyRowsMap(rows, |rows|);
    }

    /** Only the list of bucket `h` has changed: the table's ghost state follows it. */
    ghost method NoteBucket(h: nat)
      requires h < buckets.Length == |rows|
      modifies this`rows, this`Repr
      ensures rows == old(rows)[h := buckets[h].items]
      ensures Repr == old(Repr) + buckets[h].Repr
    {
      rows := rows[h := buckets[h].items];
      Repr := Repr + buckets[h].Repr;
    }

    /** `table->quantity_entry += n`. */
    method Count(n: int)
      requires Separate() && Matches()
      modifies this`quantityEntry
      ensures Separate() && Matches() && quantityEntry == old(quantityEntry) + n
    {
      quantityEntry := quantityEntry + n;
    }

    /** `list_add` on one bucket. */
    method AddTo(h: nat, entry: Entry) returns (r: int)
      requires Separate() && Matches() && h < size && entry.Valid()
      modifies Repr
      ensures Separate() && Matches() && fresh(Repr - old(Repr)) && quantityEntry == old(quantityEntry)
      ensures r == 0 && rows == old(rows)[h := Insert(old(rows)[h], old(entry.Contents()))]
    {
      hide List.Valid, Insert, Entry.Contents;
      r := buckets[h].Add(entry);
      NoteBucket(h);
    }

    /** `list_remove` on one bucket. */
    method RemoveFrom(h: nat, key: array<byte>) returns (r: int)
      requires Separate() && Matches() && h < size
      modifies Repr
      ensures Separate() && Matches() && Repr == old(Repr) && quantityEntry == old(quantityEntry)
      ensures rows == old(rows)[h := Delete(old(rows)[h], old(Str(key)))]
      ensures r == if Lookup(old(rows)[h], old(Str(key))).Some? then 0 else -1
    {
      hide List.Valid, Delete, Lookup;
      r := buckets[h].Remove(key);
      NoteBucket(h);
    }

    /** `entry_to_update->value = new_data` in one bucket. */
    method SetIn(h: nat, e: Entry, ghost p: nat, d: Data)
      requires Separate() && Matches() && h < size
      requires p < |buckets[h].entries| && e == buckets[h].entries[p]
      requires d.Valid() && d.datasize > 0 && d !in Repr && d.data !in Repr
      modifies Repr
      ensures Separate() && Matches() && Repr == old(Repr) + d.Blocks() && quantityEntry == old(quantityEntry)
      ensures d.Payload() == old(d.Payload())
      ensures p < |old(rows)[h]|
      ensures rows == old(rows)[h := Insert(old(rows)[h], Item(old(rows)[h][p].key, d.Payload()))]
    {
      hide Insert, Data.Payload, List.Valid;
      SetBucket(buckets[h], e, p, d);
      NoteBucket(h);
    }

    /** `table_get`: a copy of the value, or NULL. */
    method Get(key: array?<byte>) returns (d: Data?)
      requires Valid() && (key != null ==> Hashable(Str(key)))
      ensures d != null ==> fresh(d.Blocks()) && d.Valid() && d.datasize == d.data.Length > 0
      ensures key == null ==> d == null
      ensures key != null ==> GetRows(rows, Str(key)) == if d == null then None else Some(d.Payload())
    {
      if key == null {
        return null;
      }
      var index := ComputeKeyHash(key, size);
      IndexBound(Str(key), size);
      var entry, p := buckets[index].Get(key);
      if entry == null {
        return null;
      }
      assert entry.Is(buckets[index].items[p]);
      d := DataDup(entry.value);
    }

    /** `table_put`: inserts a copy when the key is absent, reports -10 when it is present. */
    method Put(key: array?<byte>, value: Data?) returns (r: int)
      requires Valid() && (key != null ==> Hashable(Str(key)))
      requires value != null ==> value.Valid() && value.datasize > 0
      modifies Repr
      ensures Valid() && fresh(Repr - old(Repr))
      ensures key == null || value == null ==> r == ERROR && rows == old(rows)
      ensures key != null && value != null ==>
        (rows, r) == PutRows(old(rows), old(Str(key)), old(value.Payload()))
    {
      hide Separate, Matches, PutRows, Insert, Lookup, Total, WellFormed, RowsMap;
      hide Entry.Contents, Data.Payload, Hashable, KeyHash;
      if key == null || value == null {
        return ERROR;
      }
      var newEntry := EntryCreate(key, value);
      var place := ComputeKeyHash(key, size);
      ghost var k, v, was := Str(key), value.Payload(), rows;
      PlaceOf(k);
      PayloadNotEmpty(value);
      PutCases(rows, k, v);
      PutTotal(rows, k, v);
      PutRefines(rows, k, v);
      var found := Get(key);
      if found != null {
        return KEY_EXISTS;
      }
      r := AddTo(place, newEntry);
      if r == 0 {
        Count(1);
      }
    }

    /** `table_update`: replaces the value of a present key by a copy, fails otherwise or on an empty block. */
    method Update(key: array?<byte>, value: Data?) returns (r: int)
      requires Valid() && (key != null ==> Hashable(Str(key)))
      requires value != null ==> value.Valid()
      modifies Repr
      ensures Valid() && fresh(Repr - old(Repr))
      ensures key == null || value == null || old(value.datasize) <= 0 ==> r == ERROR && rows == old(rows)
      ensures key != null && value != null && old(value.datasize) > 0 ==>
        (rows, r) == UpdateRows(old(rows), old(Str(key)), old(value.Payload()))
    {
      hide Separate, Matches, UpdateRows, Insert, Lookup, Total, WellFormed, RowsMap, Data.Payload, Hashable, KeyHash;
      if key == null || value == null {
        return ERROR;
      }
      var newData := DataDup(value);
      if newData == null {
        return ERROR;
      }
      var index := ComputeKeyHash(key, size);
      ghost var k, v, was := Str(key), value.Payload(), rows;
      PlaceOf(k);
      PayloadNotEmpty(value);
      PutCases(rows, k, v);
      PutTotal(rows, k, v);
      UpdateRefines(rows, k, v);
      BucketAt(index);
      var entry, p := buckets[index].Get(key);
      if entry == null {
        return ERROR;
      }
      SetIn(index, entry, p, newData);
      return OK;
    }

    /** `table_del`: removes a present key, fails with -1 otherwise. */
    method Del(key: array?<byte>) returns (r: int)
      requires Valid() && (key != null ==> Hashable(Str(key)))
      modifies Repr
      ensures Valid() && Repr == old(Repr)
      ensures key == null ==> r == ERROR && rows == old(rows)
      ensures key != null ==> (rows, r) == DelRows(old(rows), old(Str(key)))
    {
      hide Separate, Matches, Delete, Lookup, Total, WellFormed, Hashable, KeyHash;
      if key == null {
        return ERROR;
      }
      var index := ComputeKeyHash(key, size);
      ghost var k, was := Str(key), rows;
      PlaceOf(k);
      DelCases(rows, k);
      DelTotal(rows, k);
      DelRefines(rows, k);
      r := RemoveFrom(index, key);
      if r == 0 {
        Count(-1);
      }
    }

    /** `table_size`: the counter is the number of keys. */
    method Size() returns (n: int)
      requires Valid()
      ensures n == quantityEntry == |RowsMap(rows)| == Total(rows)
    {
      CardinalityIsTotal(rows, |rows|);
      n := quantityEntry;
    }

    /** `table_get_keys`: a NULL-terminated array of exactly `quantity_entry + 1` slots listing every key once. */
    method GetKeys() returns (keys: array?<array?<byte>>)
      requires Valid()
      ensures keys == null <==> Total(rows) == 0
      ensures keys != null ==> fresh(keys) && keys.Length == quantityEntry + 1 && keys[quantityEntry] == null
      ensures keys != null ==> Listed(keys, AllKeys(rows))
      ensures keys != null ==> forall i :: 0 <= i < quantityEntry ==> keys[i] != null && fresh(keys[i])
    {
      hide Separate, AllKeys, Total, WellFormed, Listed;
      if quantityEntry == 0 {
        return null;
      }
      keys := new array?<byte>[quantityEntry + 1];
      var indexTable, indexTotal := 0, 0;
      assert rows[..0] == [];
      NothingListed(keys);
      while indexTable < size
        invariant 0 <= indexTable <= size && Valid()
        invariant indexTotal == |AllKeys(rows[..indexTable])|
        invariant indexTotal <= quantityEntry && Listed(keys, AllKeys(rows[..indexTable]))
        invariant forall i :: 0 <= i < indexTotal ==> keys[i] != null && fresh(keys[i])
      {
        BucketAt(indexTable);
        var temp := buckets[indexTable].GetKeys();
        AllKeysPrefix(rows, indexTable);
        AllKeysPrefix(rows, indexTable + 1);
        if temp != null {
          ListedIs(temp, Keys(rows[indexTable]));
          indexTotal := CopyKeys(temp, Keys(rows[indexTable]), keys, indexTotal, AllKeys(rows[..indexTable]));
        } else {
          assert AllKeys(rows[..indexTable + 1]) == AllKeys(rows[..indexTable]);
        }
        indexTable := indexTable + 1;
      }
      assert rows[..size] == rows;
      Terminate(keys, indexTotal, AllKeys(rows));
    }

    lemma PlaceOf(k: seq<byte>)
      requires Valid() && Hashable(k)
      ensures |rows| > 0 && size == |rows| && KeyHash(k, size) == Bucket(rows, k) && buckets in Repr
    {
    }

    lemma BucketAt(h: nat)
      requires Valid() && h < |rows|
      ensures h < buckets.Length && buckets[h] in Repr && buckets[h].Repr <= Repr
      ensures buckets[h].Valid() && buckets[h].items == rows[h] && |buckets[h].entries| == |rows[h]|
    {
    }
  }

  /** The first slots of the array hold strings of their own spelling `names`. */
  ghost predicate Listed(keys: array<array?<byte>>, names: seq<seq<byte>>)
    reads keys, set i | 0 <= i < keys.Length && keys[i] != null :: keys[i]
  {
    |names| <= keys.Length && forall i :: 0 <= i < |names| ==> keys[i] != null && Str(keys[i]) == names[i]
  }

  lemma NothingListed(keys: array<array?<byte>>)
    ensures AllKeys([]) == [] && Listed(keys, AllKeys([]))
  {
  }

  lemma ListedIs(keys: array<array?<byte>>, names: seq<seq<byte>>)
    requires |names| <= keys.Length
    requires forall i :: 0 <= i < |names| ==> keys[i] != null && Str(keys[i]) == names[i]
    ensures Listed(keys, names)
  {
  }

  /** `table_keys[index_total] = NULL`. */
  method Terminate(keys: array<array?<byte>>, end: nat, ghost names: seq<seq<byte>>)
    requires end == |names| < keys.Length && Listed(keys, names)
    modifies keys
    ensures keys[end] == null && Listed(keys, names)
    ensures forall i :: 0 <= i < end ==> keys[i] == old(keys[i])
  {
    keys[end] := null;
  }

  /** The inner loop of `table_get_keys`: copy a NULL-terminated list behind the keys already there. */
  method CopyKeys(temp: array<array?<byte>>, ghost more: seq<seq<byte>>,
                  keys: array<array?<byte>>, start: nat, ghost done: seq<seq<byte>>)
    returns (end: nat)
    requires temp != keys && temp.Length == |more| + 1 && Listed(temp, more) && temp[|more|] == null
    requires start == |done| && start + |more| <= keys.Length && Listed(keys, done)
    modifies keys
    ensures end == start + |more| && Listed(keys, done + more)
    ensures forall i :: 0 <= i < start || end <= i < keys.Length ==> keys[i] == old(keys[i])
    ensures forall i :: start <= i < end ==> keys[i] != null && fresh(keys[i])
  {
    hide CString;
    var index := 0;
    end := start;
    while temp[index] != null
      invariant 0 <= index <= |more| && end == start + index
      invariant Listed(keys, done + more[..index])
      invariant forall i :: 0 <= i < start || end <= i < keys.Length ==> keys[i] == old(keys[i])
      invariant forall i :: start <= i < end ==> keys[i] != null && fresh(keys[i])
      decreases |more| - index
    {
      assert more[..index + 1] == more[..index] + [more[index]];
      keys[end] := StrDup(temp[index]);
      end := end + 1;
      index := index + 1;
    }
    assert more[..index] == more;
  }

  lemma PayloadNotEmpty(d: Data)
    requires d.Valid()
    ensures d.datasize > 0 ==> d.Payload() != []
  {
  }

  /** The first `n` buckets are empty lists that live, disjointly, in `blocks`. */
  ghost predicate EmptyLists(buckets: array<List>, n: nat, blocks: set<object>)
    reads buckets, blocks
  {
    && n <= buckets.Length && buckets !in blocks
    && (forall j :: 0 <= j < n ==> buckets[j] in blocks && buckets[j].Repr <= blocks)
    && (forall j :: 0 <= j < n ==> buckets[j].Valid() && buckets[j].items == [])
    && (forall j, k :: 0 <= j < k < n ==> buckets[j].Repr !! buckets[k].Repr)
  }

  lemma NoLists(buckets: array<List>)
    ensures EmptyLists(buckets, 0, {})
  {
  }

  /** `new_table->buckets[i] = list_create()`. */
  method CreateBucket(buckets: array<List>, i: nat, ghost blocks: set<object>) returns (ghost all: set<object>)
    requires i < buckets.Length && EmptyLists(buckets, i, blocks)
    modifies buckets
    ensures EmptyLists(buckets, i + 1, all) && fresh(all - blocks)
  {
    hide List.Valid;
    var l := new List();
    buckets[i] := l;
    all := blocks + l.Repr;
  }

  /** `SetValue` seen from outside the list. */
  method SetBucket(l: List, e: Entry, ghost p: nat, d: Data)
    requires l.Valid() && p < |l.entries| && e == l.entries[p] && d.Valid() && d.datasize > 0
    requires d !in l.Repr && d.data !in l.Repr
    modifies l.Repr
    ensures l.Valid() && l.Repr == old(l.Repr) + d.Blocks()
    ensures p < |old(l.items)|
    ensures d.Valid() && d.datasize > 0 && d.data == old(d.data) && d.Payload() == old(d.Payload())
    ensures l.items == Insert(old(l.items), Item(old(l.items[p].key), d.Payload()))
  {
    hide Insert, Data.Payload, Descending, List.Linked, Entry.Is;
    assert e.In(l.Repr);
    l.SetValue(e, p, d);
  }

  /** The loop that creates the lists. */
  method CreateBuckets(buckets: array<List>) returns (ghost blocks: set<object>)
    modifies buckets
    ensures fresh(blocks) && EmptyLists(buckets, buckets.Length, blocks)
  {
    hide EmptyLists;
    blocks := {};
    NoLists(buckets);
    var i := 0;
    while i < buckets.Length
      invariant 0 <= i <= buckets.Length && fresh(blocks) && EmptyLists(buckets, i, blocks)
    {
      blocks := CreateBucket(buckets, i, blocks);
      i := i + 1;
    }
  }

  /** `table_create`. */
  method TableCreate(n: int) returns (t: Table?)
    ensures t == null <==> n <= 0
    ensures t != null ==> t.Valid() && fresh(t.Repr) && t.rows == EmptyRows(n)
  {
    hide EmptyLists, Table.Valid, List.Valid;
    if n <= 0 {
      return null;
    }
    var first := new List();
    var buckets := new List[n](_ => first);
    ghost var blocks := CreateBuckets(buckets);
    t := new Table(buckets, blocks);
  }
}
