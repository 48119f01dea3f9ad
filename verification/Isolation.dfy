/** A caller that keeps writing to every block it ever passed to the table or got back from it. */
module Isolation {
  import opened Bytes
  import opened Hashing
  import opened Rows
  import opened Entries
  import opened Tables
  import opened Blocks

  /** A step of the caller; blocks are named by the order in which the caller came to own them. */
  datatype Step =
    | Allocate(bytes: seq<byte>)
    | Write(block: nat, at: nat, b: byte)
    | Put(key: nat, value: nat)
    | Update(key: nat, value: nat)
    | Get(key: nat)
    | Del(key: nat)
    | Size
    | ListKeys(junk: byte)

  /** The run on values: writing to a block and changing the table are independent. */
  datatype World = World(blocks: seq<seq<byte>>, rows: Rows, codes: seq<int>, listings: seq<seq<Key>>)

  predicate Enabled(blocks: seq<seq<byte>>, s: Step) {
    match s
    case Allocate(_) => true
    case Write(i, at, _) => i < |blocks| && at < |blocks[i]|
    case Put(k, v) => k < |blocks| && v < |blocks| && Hashable(CString(blocks[k])) && blocks[v] != []
    case Update(k, v) => k < |blocks| && v < |blocks| && Hashable(CString(blocks[k]))
    case Get(k) => k < |blocks| && Hashable(CString(blocks[k]))
    case Del(k) => k < |blocks| && Hashable(CString(blocks[k]))
    case Size => true
    case ListKeys(_) => true
  }

  function Poke(s: seq<byte>, at: nat, b: byte): seq<byte>
    requires at < |s|
  {
    s[..at] + [b] + s[at + 1..]
  }

  /** A step the caller may not take is skipped. */
  function Perform(w: World, s: Step): World
    requires w.rows != []
    ensures Perform(w, s).rows != []
  {
    if !Enabled(w.blocks, s) then w else
      match s
      case Allocate(bytes) => w.(blocks := w.blocks + [bytes])
      case Write(i, at, b) => w.(blocks := w.blocks[i := Poke(w.blocks[i], at, b)])
      case Put(k, v) =>
        var (rows, r) := PutRows(w.rows, CString(w.blocks[k]), w.blocks[v]);
        w.(rows := rows, codes := w.codes + [r])
      case Update(k, v) =>
        var (rows, r) :=
          if w.blocks[v] == [] then (w.rows, ERROR) else UpdateRows(w.rows, CString(w.blocks[k]), w.blocks[v]);
        w.(rows := rows, codes := w.codes + [r])
      case Get(k) =>
        (match GetRows(w.rows, CString(w.blocks[k]))
         case None => w.(codes := w.codes + [ERROR])
         case Some(v) => w.(blocks := w.blocks + [v], codes := w.codes + [OK]))
      case Del(k) =>
        var (rows, r) := DelRows(w.rows, CString(w.blocks[k]));
        w.(rows := rows, codes := w.codes + [r])
      case Size => w.(codes := w.codes + [Total(w.rows)])
      case ListKeys(_) => w.(listings := w.listings + [AllKeys(w.rows)])
  }

  function Run(w: World, steps: seq<Step>): World
    requires w.rows != []
    decreases steps
  {
    if steps == [] then w else Run(Perform(w, steps[0]), steps[1..])
  }

  // ---- The same run on a map ----

  /** `listed`: the map of each moment at which the keys were listed. */
  datatype MapWorld = MapWorld(blocks: seq<seq<byte>>, m: Map, codes: seq<int>, listed: seq<Map>)

  function PerformMap(w: MapWorld, s: Step): MapWorld {
    if !Enabled(w.blocks, s) then w else
      match s
      case Allocate(bytes) => w.(blocks := w.blocks + [bytes])
      case Write(i, at, b) => w.(blocks := w.blocks[i := Poke(w.blocks[i], at, b)])
      case Put(k, v) =>
        var (m, r) := MapPut(w.m, CString(w.blocks[k]), w.blocks[v]);
        w.(m := m, codes := w.codes + [r])
      case Update(k, v) =>
        var (m, r) := if w.blocks[v] == [] then (w.m, ERROR) else MapUpdate(w.m, CString(w.blocks[k]), w.blocks[v]);
        w.(m := m, codes := w.codes + [r])
      case Get(k) =>
        (match MapGet(w.m, CString(w.blocks[k]))
         case None => w.(codes := w.codes + [ERROR])
         case Some(v) => w.(blocks := w.blocks + [v], codes := w.codes + [OK]))
      case Del(k) =>
        var (m, r) := MapDel(w.m, CString(w.blocks[k]));
        w.(m := m, codes := w.codes + [r])
      case Size => w.(codes := w.codes + [|w.m|])
      case ListKeys(_) => w.(listed := w.listed + [w.m])
  }

  function RunMap(w: MapWorld, steps: seq<Step>): MapWorld
    decreases steps
  {
    if steps == [] then w else RunMap(PerformMap(w, steps[0]), steps[1..])
  }

  /** A world of buckets stands for a world of maps: the same blocks, codes and contents, and each listing names every
    * key of the map of its moment once. */
  ghost predicate StandsFor(w: World, v: MapWorld) {
    && w.blocks == v.blocks && RowsMap(w.rows) == v.m && w.codes == v.codes
    && |w.listings| == |v.listed|
    && forall i :: 0 <= i < |w.listings| ==> Enumerates(w.listings[i], v.listed[i])
  }

  lemma PerformRefines(w: World, v: MapWorld, s: Step)
    requires WellFormed(w.rows) && StandsFor(w, v)
    ensures WellFormed(Perform(w, s).rows) && StandsFor(Perform(w, s), PerformMap(v, s))
  {
    hide PutRows, UpdateRows, DelRows, GetRows, AllKeys, RowsMap, Placed, Hashable, Total, Enumerates;
    if Enabled(w.blocks, s) {
      match s
      case Put(k, x) => PutRefines(w.rows, CString(w.blocks[k]), w.blocks[x]);
      case Update(k, x) =>
        if w.blocks[x] != [] {
          UpdateRefines(w.rows, CString(w.blocks[k]), w.blocks[x]);
        }
      case Get(k) => LookupAgrees(w.rows, CString(w.blocks[k]));
      case Del(k) => DelRefines(w.rows, CString(w.blocks[k]));
      case Size => SizeIs(w.rows);
      case ListKeys(_) => ListingIs(w.rows);
      case _ =>
    }
  }

  lemma SizeIs(rows: Rows)
    requires WellFormed(rows)
    ensures Total(rows) == |RowsMap(rows)|
  {
    CardinalityIsTotal(rows, |rows|);
  }

  lemma ListingIs(rows: Rows)
    requires WellFormed(rows)
    ensures Enumerates(AllKeys(rows), RowsMap(rows))
  {
    AllKeysExact(rows, |rows|);
  }

  /** After any sequence of operations the table answers, and stands for, what the map does: every code, every size,
    * every value handed out, every key list; and it is still well formed. */
  lemma {:induction false} RunRefines(w: World, v: MapWorld, steps: seq<Step>)
    requires WellFormed(w.rows) && StandsFor(w, v)
    ensures WellFormed(Run(w, steps).rows) && StandsFor(Run(w, steps), RunMap(v, steps))
    decreases steps
  {
    hide Placed, Perform, PerformMap, StandsFor;
    if steps != [] {
      PerformRefines(w, v, steps[0]);
      RunRefines(Perform(w, steps[0]), PerformMap(v, steps[0]), steps[1..]);
    }
  }

  // ---- On the heap ----

  /** The caller's blocks hold what the run on values says and none of them is inside the table. */
  ghost predicate Apart(t: Table, owned: seq<array<byte>>, blocks: seq<seq<byte>>)
    reads t, owned
  {
    && |owned| == |blocks|
    && (forall i :: 0 <= i < |owned| ==> owned[i] !in t.Repr && owned[i][..] == blocks[i])
    && (forall i, j :: 0 <= i < j < |owned| ==> owned[i] != owned[j])
  }

  /** A structure of the caller around one of its blocks goes to the table. */
  method Pass(t: Table, owned: seq<array<byte>>, ghost blocks: seq<seq<byte>>, k: nat, v: nat, put: bool)
    returns (r: int)
    requires t.Valid() && Apart(t, owned, blocks) && k < |owned| && v < |owned| && Hashable(CString(blocks[k]))
    requires put ==> blocks[v] != []
    modifies t.Repr
    ensures t.Valid() && Apart(t, owned, blocks) && old(t.rows) != []
    ensures put ==> (t.rows, r) == PutRows(old(t.rows), CString(blocks[k]), blocks[v])
    ensures !put && blocks[v] == [] ==> (t.rows, r) == (old(t.rows), ERROR)
    ensures !put && blocks[v] != [] ==> (t.rows, r) == UpdateRows(old(t.rows), CString(blocks[k]), blocks[v])
    ensures fresh(t.Repr - old(t.Repr))
  {
    hide Table.Separate, Table.Matches, PutRows, UpdateRows, Placed, Total, Hashable;
    var value := new Data.Around(owned[v]);
    assert owned[v][..value.datasize] == blocks[v];
    if put {
      r := t.Put(owned[k], value);
    } else {
      r := t.Update(owned[k], value);
    }
  }

  /** Overwrite every string of a key array. */
  method Spoil(keys: array<array?<byte>>, junk: byte)
    modifies set i | 0 <= i < keys.Length && keys[i] != null :: keys[i]
  {
    var i := 0;
    while i < keys.Length {
      if keys[i] != null {
        var s := keys[i];
        forall j | 0 <= j < s.Length {
          s[j] := junk;
        }
      }
      i := i + 1;
    }
  }

  /** The key list is read and then every string in it is overwritten. */
  method ReadAndSpoil(t: Table, owned: seq<array<byte>>, ghost blocks: seq<seq<byte>>, junk: byte)
    returns (names: seq<Key>)
    requires t.Valid() && Apart(t, owned, blocks)
    ensures t.Valid() && Apart(t, owned, blocks) && t.rows == old(t.rows) && names == AllKeys(t.rows)
  {
    hide Table.Separate, Table.Matches, Placed, Total, AllKeys, Listed;
    var keys := t.GetKeys();
    if keys == null {
      names := [];
    } else {
      names := NamesOf(keys, AllKeys(t.rows));
      assert forall i :: 0 <= i < keys.Length && keys[i] != null ==> fresh(keys[i]);
      Spoil(keys, junk);
    }
  }

  /** The caller writes into one of its blocks. */
  method WriteInto(t: Table, owned: seq<array<byte>>, ghost blocks: seq<seq<byte>>, i: nat, at: nat, b: byte)
    requires t.Valid() && Apart(t, owned, blocks) && i < |owned| && at < |blocks[i]|
    modifies owned[i]
    ensures t.Valid() && Apart(t, owned, blocks[i := Poke(blocks[i], at, b)]) && t.rows == old(t.rows)
    ensures owned[i][..] == old(owned[i][..])[at := b]
  {
    hide Table.Valid;
    owned[i][at] := b;
    assert owned[i][..] == Poke(blocks[i], at, b);
  }

  /** The caller gets a value and owns the block it comes in. */
  method Fetch(t: Table, owned: seq<array<byte>>, ghost blocks: seq<seq<byte>>, k: nat)
    returns (owned': seq<array<byte>>, found: bool)
    requires t.Valid() && Apart(t, owned, blocks) && k < |owned| && Hashable(CString(blocks[k]))
    requires t.rows != []
    ensures t.Valid() && t.rows == old(t.rows)
    ensures var v := GetRows(t.rows, CString(blocks[k]));
      && (found <==> v.Some?)
      && Apart(t, owned', if v.Some? then blocks + [v.value] else blocks)
    ensures forall i :: 0 <= i < |owned'| ==> owned'[i] in owned || fresh(owned'[i])
  {
    hide Table.Valid, GetRows, Hashable;
    var d := t.Get(owned[k]);
    found := d != null;
    owned' := if d != null then owned + [d.data] else owned;
  }

  /** The caller comes to own a new block. */
  method Own(t: Table, owned: seq<array<byte>>, ghost blocks: seq<seq<byte>>, bytes: seq<byte>)
    returns (owned': seq<array<byte>>)
    requires t.Valid() && Apart(t, owned, blocks)
    ensures t.Valid() && Apart(t, owned', blocks + [bytes]) && t.rows == old(t.rows)
    ensures forall i :: 0 <= i < |owned'| ==> owned'[i] in owned || fresh(owned'[i])
  {
    hide Table.Valid;
    var block := BlockOf(bytes);
    owned' := owned + [block];
  }

  method Drop(t: Table, owned: seq<array<byte>>, ghost blocks: seq<seq<byte>>, k: nat) returns (r: int)
    requires t.Valid() && Apart(t, owned, blocks) && k < |owned| && Hashable(CString(blocks[k])) && t.rows != []
    modifies t.Repr
    ensures t.Valid() && Apart(t, owned, blocks) && (t.rows, r) == DelRows(old(t.rows), CString(blocks[k]))
    ensures fresh(t.Repr - old(t.Repr))
  {
    hide Table.Separate, Table.Matches, DelRows, Placed, Total, Hashable;
    r := t.Del(owned[k]);
  }

  lemma ApartAt(t: Table, owned: seq<array<byte>>, blocks: seq<seq<byte>>, k: nat)
    requires Apart(t, owned, blocks)
    ensures |owned| == |blocks|
    ensures k < |owned| ==> Str(owned[k]) == CString(blocks[k]) && owned[k].Length == |blocks[k]|
  {
  }

  /** One step on the heap. */
  method Take(t: Table, owned: seq<array<byte>>, codes: seq<int>, listings: seq<seq<Key>>, s: Step, ghost w: World)
    returns (owned': seq<array<byte>>, codes': seq<int>, listings': seq<seq<Key>>)
    requires t.Valid() && Apart(t, owned, w.blocks) && t.rows == w.rows && w.rows != []
    requires codes == w.codes && listings == w.listings
    modifies t.Repr, owned
    ensures t.Valid() && Apart(t, owned', Perform(w, s).blocks) && t.rows == Perform(w, s).rows
    ensures codes' == Perform(w, s).codes && listings' == Perform(w, s).listings
    ensures fresh(t.Repr - old(t.Repr)) && forall i :: 0 <= i < |owned'| ==> owned'[i] in owned || fresh(owned'[i])
  {
    hide Table.Valid, PutRows, UpdateRows, DelRows, GetRows, AllKeys, Hashable, HashSum, Apart, Str, CString;
    hide Total, RowsMap, Poke;
    owned', codes', listings' := owned, codes, listings;
    match s
    case Allocate(bytes) =>
      owned' := Own(t, owned, w.blocks, bytes);
    case Write(i, at, b) =>
      ApartAt(t, owned, w.blocks, i);
      if i < |owned| && at < owned[i].Length {
        WriteInto(t, owned, w.blocks, i, at, b);
      }
    case Put(k, v) =>
      ApartAt(t, owned, w.blocks, k);
      ApartAt(t, owned, w.blocks, v);
      if k < |owned| && v < |owned| && Hashable(Str(owned[k])) && owned[v].Length > 0 {
        var r := Pass(t, owned, w.blocks, k, v, true);
        codes' := codes + [r];
      }
    case Update(k, v) =>
      ApartAt(t, owned, w.blocks, k);
      if k < |owned| && v < |owned| && Hashable(Str(owned[k])) {
        var r := Pass(t, owned, w.blocks, k, v, false);
        codes' := codes + [r];
      }
    case Get(k) =>
      ApartAt(t, owned, w.blocks, k);
      if k < |owned| && Hashable(Str(owned[k])) {
        var found;
        owned', found := Fetch(t, owned, w.blocks, k);
        codes' := codes + [if found then OK else ERROR];
      }
    case Del(k) =>
      ApartAt(t, owned, w.blocks, k);
      if k < |owned| && Hashable(Str(owned[k])) {
        var r := Drop(t, owned, w.blocks, k);
        codes' := codes + [r];
      }
    case Size =>
      var n := t.Size();
      codes' := codes + [n];
    case ListKeys(junk) =>
      var names := ReadAndSpoil(t, owned, w.blocks, junk);
      listings' := listings + [names];
  }

  /** A whole run: what the table holds and answers is what the run on values says, whatever the caller writes. */
  method Execute(t: Table, steps: seq<Step>)
    returns (owned: seq<array<byte>>, codes: seq<int>, listings: seq<seq<Key>>)
    requires t.Valid()
    modifies t.Repr
    ensures t.Valid() && old(t.rows) != []
    ensures var w := Run(World([], old(t.rows), [], []), steps);
      t.rows == w.rows && Apart(t, owned, w.blocks) && codes == w.codes && listings == w.listings
  {
    ghost var w := World([], t.rows, [], []);
    owned, codes, listings := [], [], [];
    var i := 0;
    assert steps[0..] == steps;
    while i < |steps|
      invariant 0 <= i <= |steps| && t.Valid() && w.rows != []
      invariant Apart(t, owned, w.blocks) && t.rows == w.rows && codes == w.codes && listings == w.listings
      invariant Run(w, steps[i..]) == Run(World([], old(t.rows), [], []), steps)
      invariant fresh(t.Repr - old(t.Repr)) && forall i :: 0 <= i < |owned| ==> fresh(owned[i])
    {
      hide Table.Valid, Perform, Apart;
      ghost var next := Perform(w, steps[i]);
      owned, codes, listings := Take(t, owned, codes, listings, steps[i], w);
      w := next;
      assert steps[i..][1..] == steps[i + 1..];
      i := i + 1;
    }
  }
}
