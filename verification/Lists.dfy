/** A bucket: a singly linked list of entries, relinked in place. */
module Lists {
  import opened Bytes
  import opened Options
  import opened Chains
  import opened Entries

  class Node {
    var next: Node?
    var entry: Entry

    constructor (entry: Entry)
      ensures this.entry == entry && next == null
    {
      this.entry := entry;
      next := null;
    }
  }

  lemma IsItself(e: Entry)
    requires e.Valid()
    ensures e.Is(e.Contents()) && e.Contents().key == Str(e.key)
  {
  }

  /** `t` is `s` with `x` put in at position `p`. */
  ghost predicate Inserted<T>(s: seq<T>, p: nat, x: T, t: seq<T>) {
    && p <= |s| && |t| == |s| + 1
    && (forall i {:trigger t[i]} :: 0 <= i < |t| ==> t[i] == if i < p then s[i] else if i == p then x else s[i - 1])
  }

  lemma InsertedIs<T>(s: seq<T>, p: nat, x: T, t: seq<T>)
    requires Inserted(s, p, x, t)
    ensures t == s[..p] + [x] + s[p..]
  {
  }

  /** `t` is `s` without its element at position `p`. */
  ghost predicate Removed<T>(s: seq<T>, p: nat, t: seq<T>) {
    && p < |s| && |t| == |s| - 1
    && (forall i {:trigger t[i]} :: 0 <= i < |t| ==> t[i] == if i < p then s[i] else s[i + 1])
  }

  lemma RemovedIs<T>(s: seq<T>, p: nat, t: seq<T>)
    requires Removed(s, p, t)
    ensures t == s[..p] + s[p + 1..]
  {
  }

  /** `create_node`: a node with its own copy of the entry. */
  method CreateNode(entry: Entry?) returns (n: Node?)
    requires entry != null ==> entry.Valid()
    ensures n == null <==> entry == null
    ensures n != null ==> fresh(n) && fresh(n.entry.Blocks()) && n.next == null
    ensures n != null ==> n.entry.Valid() && n.entry.Contents() == entry.Contents()
  {
    if entry == null {
      return null;
    }
    var e := EntryDup(entry);
    n := new Node(e);
  }

  class List {
    var head: Node?
    var size: int
    ghost var spine: seq<Node>
    ghost var entries: seq<Entry>
    ghost var items: Chain
    ghost var Repr: set<object>

    /** Node `i` of the list, or NULL past its end. */
    ghost function At(i: nat): Node?
      reads this
    {
      if i < |spine| then spine[i] else null
    }

    /** The nodes from `head` on are `spine`, the last one ends the list, and node `i` refers to entry `i`. */
    ghost predicate Linked()
      reads this, spine
    {
      && head == At(0)
      && |spine| == |entries|
      && (forall i {:trigger spine[i].next} :: 0 <= i < |spine| ==> spine[i].next == At(i + 1))
      && (forall i {:trigger spine[i].entry} :: 0 <= i < |spine| ==> spine[i].entry == entries[i])
    }

    ghost predicate Shape()
      reads this, Repr
    {
      && this in Repr
      && |spine| == |entries| == |items|
      && (forall i :: 0 <= i < |spine| ==> spine[i] in Repr)
      && (forall i :: 0 <= i < |entries| ==> entries[i] in Repr && entries[i].value in Repr)
      && (forall i :: 0 <= i < |entries| ==> entries[i].In(Repr))
      && Linked()
      && (forall i :: 0 <= i < |entries| ==> entries[i].Is(items[i]))
    }

    ghost predicate Valid()
      reads this, Repr
      ensures Valid() ==> this in Repr
    {
      Shape() && size == |spine| && Descending(items)
    }

    constructor ()
      ensures Valid() && items == [] && fresh(Repr)
    {
      head := null;
      size := 0;
      spine := [];
      entries := [];
      items := [];
      Repr := {this};
    }

    /** Order alone makes the list acyclic: no node, and no entry, is met twice. */
    lemma Acyclic()
      requires Valid()
      ensures forall i, j :: 0 <= i < j < |spine| ==> spine[i] != spine[j] && entries[i] != entries[j]
    {
      forall i, j | 0 <= i < j < |spine| ensures spine[i] != spine[j] && entries[i] != entries[j] {
        assert StrCmp(items[i].key, items[j].key) > 0;
        assert entries[i].Is(items[i]) && entries[j].Is(items[j]);
        assert spine[i].entry == entries[i] && spine[j].entry == entries[j];
      }
    }

    lemma HeadIsFirst()
      requires Valid()
      ensures head == At(0) && |spine| == |items|
    {
    }

    /** The ghost side of linking a new node in at position `p`. */
    ghost method NoteLinked(p: nat, node: Node, e: Entry, it: Item)
      requires p <= |spine| == |entries| == |items|
      modifies this`spine, this`entries, this`items, this`Repr
      ensures Inserted(old(spine), p, node, spine)
      ensures Inserted(old(entries), p, e, entries)
      ensures Inserted(old(items), p, it, items)
      ensures Repr == old(Repr) + {node} + e.Blocks()
    {
      spine := spine[..p] + [node] + spine[p..];
      entries := entries[..p] + [e] + entries[p..];
      items := items[..p] + [it] + items[p..];
      Repr := Repr + {node} + e.Blocks();
    }

    /** `list->head = new_node; new_node->next = current`: right only while `current` is the head, as otherwise the
      * nodes before `current` would be lost. */
    method LinkFirst(node: Node, current: Node?, ghost e: Entry, ghost it: Item)
      requires Shape() && node !in Repr && node.entry == e && e.Is(it) && current == head
      modifies Repr, node
      ensures Shape() && size == old(size) + 1
      ensures Repr == old(Repr) + {node} + old(e.Blocks())
      ensures Inserted(old(spine), 0, node, spine) && Inserted(old(items), 0, it, items)
    {
      hide Entry.Is;
      head := node;
      node.next := current;
      size := size + 1;
      NoteLinked(0, node, e, it);
    }

    /** `temp = current->next; current->next = new_node; new_node->next = temp`, also the insertion at the end. */
    method LinkAfter(current: Node, ghost p: nat, node: Node, ghost e: Entry, ghost it: Item)
      requires Shape() && p < |spine| && current == spine[p]
      requires forall i, j :: 0 <= i < j < |spine| ==> spine[i] != spine[j]
      requires node !in Repr && node.entry == e && e.Is(it)
      modifies Repr, node
      ensures Shape() && size == old(size) + 1
      ensures Repr == old(Repr) + {node} + old(e.Blocks())
      ensures Inserted(old(spine), p + 1, node, spine) && Inserted(old(items), p + 1, it, items)
    {
      hide Entry.Is;
      node.next := current.next;
      current.next := node;
      size := size + 1;
      NoteLinked(p + 1, node, e, it);
    }

    /** `current->entry = entry_dup(entry)`: the value of an existing key is replaced. */
    method ReplaceEntry(current: Node, ghost p: nat, e: Entry, ghost it: Item)
      requires Shape() && p < |spine| && current == spine[p] && e.Is(it)
      requires forall i, j :: 0 <= i < j < |spine| ==> spine[i] != spine[j]
      modifies Repr
      ensures Shape() && size == old(size) && spine == old(spine)
      ensures Repr == old(Repr) + e.Blocks()
      ensures items == old(items)[p := it]
    {
      hide Entry.Is;
      current.entry := e;
      entries := entries[p := e];
      items := items[p := it];
      Repr := Repr + e.Blocks();
    }

    /** Adding in front keeps the order when the head is below the new key. */
    method AddFirst(node: Node, current: Node?, ghost it: Item)
      requires Valid() && node !in Repr && node.entry.Is(it) && current == head
      requires items != [] ==> StrCmp(items[0].key, it.key) < 0
      modifies Repr, node
      ensures Valid() && items == Insert(old(items), it)
      ensures Repr == old(Repr) + {node} + old(node.entry.Blocks())
      ensures Inserted(old(spine), 0, node, spine)
    {
      hide Entry.Is, StrCmp, Insert, Descending;
      ghost var was := items;
      InsertAt(items, it, 0);
      InsertDescending(items, it);
      LinkFirst(node, current, node.entry, it);
      InsertedIs(was, 0, it, items);
    }

    /** Adding behind node `p` keeps the order when that node is above the new key and its successor below. */
    method AddAfter(current: Node, ghost p: nat, node: Node, ghost it: Item)
      requires Valid() && p < |spine| && current == spine[p] && node !in Repr && node.entry.Is(it)
      requires forall i :: 0 <= i <= p ==> StrCmp(items[i].key, it.key) > 0
      requires p + 1 < |items| ==> StrCmp(items[p + 1].key, it.key) < 0
      modifies Repr, node
      ensures Valid() && items == Insert(old(items), it)
      ensures Repr == old(Repr) + {node} + old(node.entry.Blocks())
      ensures Inserted(old(spine), p + 1, node, spine)
    {
      hide Entry.Is, StrCmp, Insert, Descending;
      ghost var was := items;
      InsertAt(items, it, p + 1);
      InsertDescending(items, it);
      Acyclic();
      LinkAfter(current, p, node, node.entry, it);
      InsertedIs(was, p + 1, it, items);
    }

    method AddOver(current: Node, ghost p: nat, e: Entry, ghost it: Item)
      requires Valid() && p < |spine| && current == spine[p] && e.Is(it)
      requires forall i :: 0 <= i < p ==> StrCmp(items[i].key, it.key) > 0
      requires items[p].key == it.key
      modifies Repr
      ensures Valid() && items == Insert(old(items), it)
      ensures Repr == old(Repr) + e.Blocks()
      ensures spine == old(spine)
    {
      hide Entry.Is, StrCmp, Insert, Descending;
      ReplaceAt(items, it, p);
      InsertDescending(items, it);
      Acyclic();
      ReplaceEntry(current, p, e, it);
    }

    /** The key of node `p` is the key of item `p`. */
    lemma KeyAt(p: nat)
      requires Valid() && p < |spine|
      ensures spine[p] in Repr && spine[p].entry == entries[p] && Str(spine[p].entry.key) == items[p].key
      ensures spine[p].next == At(p + 1) && |spine| == |items|
    {
      assert spine[p].entry == entries[p] && entries[p].Is(items[p]);
    }

    /** `list_add`: no node is lost, a new one enters at the place its key demands, an equal key is replaced. */
    method Add(entry: Entry?) returns (r: int)
      requires Valid()
      requires entry != null ==> entry.Valid()
      modifies Repr
      ensures Valid() && fresh(Repr - old(Repr))
      ensures entry == null ==> r == -1 && items == old(items) && spine == old(spine)
      ensures entry != null ==> r == 0 && items == Insert(old(items), old(entry.Contents()))
      ensures spine == old(spine) || exists n, p :: fresh(n) && Inserted(old(spine), p, n, spine)
    {
      hide StrCmp, Str, Insert, Inserted, Shape, Descending, Entry.Is, Entry.Contents, Entry.In;
      var node := CreateNode(entry);
      if node == null {
        return -1;
      }
      ghost var it := entry.Contents();
      IsItself(node.entry);
      HeadIsFirst();
      if head == null {
        AddFirst(node, null, it);
        return 0;
      } else {
        var current := head;
        ghost var p := 0;
        while current != null
          invariant Repr == old(Repr) && unchanged(Repr) && Valid()
          invariant node !in Repr && fresh(node) && fresh(node.entry.Blocks())
          invariant node.entry.Is(it) && Str(node.entry.key) == it.key && entry.Valid() && entry.Contents() == it
          invariant p < |spine| && current == spine[p]
          invariant forall i :: 0 <= i < p ==> StrCmp(items[i].key, it.key) > 0
          invariant p > 0 ==> StrCmp(items[p].key, it.key) >= 0
          decreases |spine| - p
        {
          KeyAt(p);
          if StrCmp(Str(current.entry.key), Str(node.entry.key)) == 0 {
            var e := EntryDup(entry);
            IsItself(e);
            AddOver(current, p, e, it);
            return 0;
          }
          if StrCmp(Str(current.entry.key), Str(node.entry.key)) < 0 {
            // Only ever at the head: every later node's key was found to be at least the new one.
            assert p == 0;
            AddFirst(node, current, it);
            return 0;
          }
          if current.next == null {
            AddAfter(current, p, node, it);
            return 0;
          }
          KeyAt(p + 1);
          if StrCmp(Str(current.entry.key), Str(node.entry.key)) > 0
             && StrCmp(Str(current.next.entry.key), Str(node.entry.key)) < 0 {
            AddAfter(current, p, node, it);
            return 0;
          } else {
            current := current.next;
            p := p + 1;
          }
        }
        return -1;
      }
    }

    /** The ghost side of unlinking node `p`. */
    ghost method NoteUnlinked(p: nat)
      requires p < |spine| == |entries| == |items|
      modifies this`spine, this`entries, this`items
      ensures Removed(old(spine), p, spine)
      ensures Removed(old(entries), p, entries)
      ensures Removed(old(items), p, items)
    {
      entries := entries[..p] + entries[p + 1..];
      spine := spine[..p] + spine[p + 1..];
      items := items[..p] + items[p + 1..];
    }

    method UnlinkFirst(ghost k: seq<byte>)
      requires Valid() && items != [] && items[0].key == k
      modifies this
      ensures Valid() && Repr == old(Repr) && items == Delete(old(items), k)
    {
      hide Entry.Is, Entry.In, StrCmp, Delete, Descending;
      ghost var was := items;
      DeleteDescending(items, k);
      DeleteAt(items, k, 0);
      KeyAt(0);
      head := head.next;
      size := size - 1;
      NoteUnlinked(0);
      RemovedIs(was, 0, items);
    }

    /** `temp = current->next; current->next = temp->next`. */
    method Unlink(current: Node, ghost p: nat)
      requires Shape() && p + 1 < |spine| && current == spine[p]
      requires forall i, j :: 0 <= i < j < |spine| ==> spine[i] != spine[j]
      modifies this, current
      ensures Shape() && Repr == old(Repr) && size == old(size) - 1
      ensures Removed(old(spine), p + 1, spine) && Removed(old(items), p + 1, items)
    {
      hide Entry.Is, Entry.In;
      var temp := current.next;
      current.next := temp.next;
      size := size - 1;
      NoteUnlinked(p + 1);
    }

    method UnlinkAfter(current: Node, ghost p: nat, ghost k: seq<byte>)
      requires Valid() && p + 1 < |spine| && current == spine[p] && items[p + 1].key == k
      requires forall i :: 0 <= i <= p ==> items[i].key != k
      modifies this, current
      ensures Valid() && Repr == old(Repr) && items == Delete(old(items), k)
    {
      hide Entry.Is, StrCmp, Delete, Descending;
      ghost var was := items;
      DeleteDescending(items, k);
      DeleteAt(items, k, p + 1);
      Acyclic();
      Unlink(current, p);
      RemovedIs(was, p + 1, items);
    }

    /** `list_remove`: the node of the key is bypassed; the others keep their order. */
    method Remove(key: array?<byte>) returns (r: int)
      requires Valid()
      modifies Repr
      ensures Valid() && Repr == old(Repr)
      ensures key == null ==> r == -1 && items == old(items)
      ensures key != null ==> items == Delete(old(items), old(Str(key)))
      ensures key != null ==> r == if Lookup(old(items), old(Str(key))).Some? then 0 else -1
    {
      hide Entry.Is, StrCmp, Str, Delete, Descending, Linked;
      HeadIsFirst();
      if key == null || head == null {
        if key != null {
          LookupAt(items, Str(key), 0);
        }
        return -1;
      }
      ghost var k := Str(key);
      var current := head;
      KeyAt(0);
      if StrCmp(Str(current.entry.key), Str(key)) == 0 {
        LookupAt(items, k, 0);
        UnlinkFirst(k);
        return 0;
      }
      ghost var p := 0;
      while current != null
        invariant Repr == old(Repr) && unchanged(Repr) && Valid()
        invariant p < |spine| && current == spine[p]
        invariant forall i :: 0 <= i <= p ==> items[i].key != k
        decreases |spine| - p
      {
        KeyAt(p);
        if current.next == null {
          LookupAt(items, k, p + 1);
          return -1;
        }
        KeyAt(p + 1);
        if StrCmp(Str(current.next.entry.key), Str(key)) == 0 {
          LookupAt(items, k, p + 1);
          UnlinkAfter(current, p, k);
          return 0;
        }
        current := current.next;
        p := p + 1;
      }
      return -1;
    }

    /** `list_get`: a reference to the entry inside the list, and the position it has there. */
    method Get(key: array?<byte>) returns (e: Entry?, ghost p: nat)
      requires Valid()
      ensures key == null ==> e == null
      ensures key != null && e == null ==> Lookup(items, Str(key)) == None
      ensures e != null ==> key != null && p < |spine| && e == entries[p] && items[p].key == Str(key)
      ensures e != null ==> Lookup(items, Str(key)) == Some(items[p].value)
    {
      hide Entry.Is, StrCmp, Str, Lookup, Descending, Linked;
      HeadIsFirst();
      p := 0;
      if key == null {
        return null, 0;
      }
      var current := head;
      while current != null
        invariant 0 <= p <= |spine|
        invariant current == At(p)
        invariant forall i :: 0 <= i < p ==> items[i].key != Str(key)
        decreases |spine| - p
      {
        KeyAt(p);
        if StrCmp(Str(current.entry.key), Str(key)) == 0 {
          LookupAt(items, Str(key), p);
          return current.entry, p;
        }
        current := current.next;
        p := p + 1;
      }
      LookupAt(items, Str(key), p);
      return null, p;
    }

    /** `entry->value = new_data` through the reference that `Get` hands out. */
    method SetValue(e: Entry, ghost p: nat, d: Data)
      requires Valid() && p < |entries| && e == entries[p] && d.Valid() && d.datasize > 0
      modifies this, e
      ensures Valid() && Repr == old(Repr) + d.Blocks()
      ensures items == Insert(old(items), Item(old(items[p].key), d.Payload()))
    {
      hide StrCmp, Insert, Descending, Linked;
      ghost var it := Item(items[p].key, d.Payload());
      assert forall i :: 0 <= i < p ==> StrCmp(items[i].key, it.key) > 0 by { Above(p); }
      ReplaceAt(items, it, p);
      InsertDescending(items, it);
      Acyclic();
      PutValue(e, p, d, it);
    }

    lemma Above(p: nat)
      requires Valid() && p < |items|
      ensures forall i :: 0 <= i < p ==> StrCmp(items[i].key, items[p].key) > 0
    {
    }

    method PutValue(e: Entry, ghost p: nat, d: Data, ghost it: Item)
      requires Shape() && p < |entries| && e == entries[p] && d.Valid() && d.datasize > 0
      requires it == Item(items[p].key, d.Payload())
      requires forall i, j :: 0 <= i < j < |spine| ==> entries[i] != entries[j]
      modifies this, e
      ensures Shape() && size == old(size) && spine == old(spine)
      ensures Repr == old(Repr) + d.Blocks() && items == old(items)[p := it]
    {
      hide Data.Payload, Str;
      assert e.Is(items[p]);
      e.value := d;
      assert e.Is(it);
      items := items[p := it];
      Repr := Repr + d.Blocks();
    }

    /** `list_get_keys`: a NULL-terminated array of copies of the keys in list order, or NULL for an empty list. */
    method GetKeys() returns (keys: array?<array?<byte>>)
      requires Valid()
      ensures keys == null <==> items == []
      ensures keys != null ==> fresh(keys) && keys.Length == |items| + 1 && keys[|items|] == null
      ensures keys != null ==> forall i :: 0 <= i < |items| ==>
        keys[i] != null && fresh(keys[i]) && Str(keys[i]) == items[i].key
    {
      hide Entry.Is, StrCmp, Str, Descending, Linked;
      HeadIsFirst();
      if head == null {
        return null;
      }
      keys := new array?<byte>[size + 1];
      var current := head;
      var i := 0;
      while current != null
        invariant 0 <= i <= |spine| && Valid()
        invariant current == At(i)
        invariant forall j :: 0 <= j < i ==> keys[j] != null && fresh(keys[j]) && Str(keys[j]) == items[j].key
        decreases |spine| - i
      {
        KeyAt(i);
        keys[i] := StrDup(current.entry.key);
        i := i + 1;
        current := current.next;
      }
      keys[size] := null;
    }
  }
}
