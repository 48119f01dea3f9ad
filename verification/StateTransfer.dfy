/** `update_state`: a restarted server lists the peer's keys, gets each value and puts it in its own table. */
module StateTransfer {
  import opened Bytes
  import opened Options
  import opened Hashing
  import opened Rows
  import opened Messages
  import opened Skeleton
  import opened Remote
  import opened Tables

  /** Get every key from `source` and put it into `dest`; None where a reply is not the value the loop takes it for. */
  function GetEach(source: Rows, keys: seq<Key>, dest: Rows): Option<Rows>
    requires source != [] && dest != []
    decreases keys
  {
    if keys == [] then Some(dest)
    else if !Sendable(GetRequest(keys[0])) then None
    else
      match Call(source, GetRequest(keys[0])).1
      case Some(Message(_, Value(v))) =>
        if v == [] then None
        else
          assert Serviceable(PutRequest(keys[0], v));
          InvokeKeepsSize(dest, PutRequest(keys[0], v));
          GetEach(source, keys[1..], Invoke(dest, PutRequest(keys[0], v)).0)
      case _ => None
  }

  lemma InvokeKeepsSize(rows: Rows, req: Message)
    requires rows != [] && Serviceable(req)
    ensures |Invoke(rows, req).0| == |rows|
  {
  }

  /** The whole transfer: an empty source answers with the number 0 instead of a list. */
  function Transfer(source: Rows, dest: Rows): Option<Rows>
    requires source != [] && dest != []
  {
    match Call(source, KEYS_REQUEST).1
    case Some(Message(_, KeyList(keys))) => GetEach(source, keys, dest)
    case Some(Message(_, Result(n))) => if n == 0 then Some(dest) else None
    case _ => None
  }

  /** The reply to one get, as the loop sees it. */
  lemma GetReply(source: Rows, k: Key)
    requires WellFormed(source) && Storable(RowsMap(source)) && Countable(source) && k in RowsMap(source)
    ensures Sendable(GetRequest(k)) && Call(source, GetRequest(k)).1.Some?
    ensures k != ALL_KEYS ==> Call(source, GetRequest(k)).1.value.content == Value(RowsMap(source)[k])
    ensures k == ALL_KEYS ==> Call(source, GetRequest(k)).1.value.content.KeyList?
  {
    hide Call, WellFormed, RowsMap, Countable, AllKeys, GetRows, Total, NulFree, HashSum;
    assert Travels(k, RowsMap(source)[k]);
    WireTransparent(source, GetRequest(k));
    LookupAgrees(source, k);
    assert Total(source) != 0 by {
      PlacedOf(source);
      CardinalityIsTotal(source, |source|);
      assert k in RowsMap(source).Keys;
    }
  }

  lemma PlacedOf(rows: Rows)
    requires WellFormed(rows)
    ensures rows != [] && Placed(rows, |rows|)
  {
  }

  /** The loop completes exactly when no key is "!", and then every listed key is there, nothing else is new,
    * and a key that was there before keeps its value. */
  lemma {:induction false} GetEachExact(source: Rows, keys: seq<Key>, dest: Rows)
    requires WellFormed(source) && Storable(RowsMap(source)) && Countable(source) && WellFormed(dest)
    requires forall k :: k in keys ==> k in RowsMap(source)
    ensures GetEach(source, keys, dest).Some? <==> ALL_KEYS !in keys
    ensures GetEach(source, keys, dest).Some? ==>
      var r := GetEach(source, keys, dest).value;
      && WellFormed(r) && |r| == |dest|
      && (forall k :: k in RowsMap(r) <==> k in keys || k in RowsMap(dest))
      && (forall k :: k in RowsMap(r) ==>
          RowsMap(r)[k] == if k in RowsMap(dest) then RowsMap(dest)[k] else RowsMap(source)[k])
    decreases keys
  {
    hide Call, WellFormed, RowsMap, Countable, Storable, Invoke, Sendable;
    PlacedOf(source);
    PlacedOf(dest);
    if keys != [] {
      var k := keys[0];
      assert k in keys;
      GetReply(source, k);
      if k != ALL_KEYS {
        var put := PutRequest(k, RowsMap(source)[k]);
        assert Serviceable(put) by { StoredServiceable(RowsMap(source), k); }
        InvokeRefines(dest, put);
        GetEachExact(source, keys[1..], Invoke(dest, put).0);
      }
    }
  }

  lemma StoredServiceable(m: Map, k: Key)
    requires Storable(m) && k in m
    ensures Serviceable(PutRequest(k, m[k])) && m[k] != []
  {
    assert Travels(k, m[k]);
  }

  /** State transfer for any two bucket counts: it completes exactly when "!" is not a key of the source, and
    * the destination then holds the source's pairs beneath its own. */
  lemma TransferExact(source: Rows, dest: Rows)
    requires WellFormed(source) && Storable(RowsMap(source)) && Countable(source) && WellFormed(dest)
    ensures Transfer(source, dest).Some? <==> ALL_KEYS !in RowsMap(source)
    ensures Transfer(source, dest).Some? ==>
      var r := Transfer(source, dest).value;
      WellFormed(r) && |r| == |dest| && RowsMap(r) == RowsMap(source) + RowsMap(dest)
  {
    hide Call, RowsMap, Countable, Storable, Invoke, Sendable, GetEach, AllKeys;
    KeysReply(source);
    AllKeysExact(source, |source|);
    GetEachExact(source, AllKeys(source), dest);
    if RowsMap(source) == map[] {
      assert RowsMap(source) + RowsMap(dest) == RowsMap(dest);
    } else if ALL_KEYS !in RowsMap(source) {
      var r := GetEach(source, AllKeys(source), dest).value;
      assert RowsMap(r) == RowsMap(source) + RowsMap(dest);
    }
  }

  lemma KeysReply(source: Rows)
    requires WellFormed(source) && Storable(RowsMap(source)) && Countable(source)
    ensures Sendable(KEYS_REQUEST) && Call(source, KEYS_REQUEST).1.Some?
    ensures var c := Call(source, KEYS_REQUEST).1.value.content;
      c == if RowsMap(source) == map[] then Result(0) else KeyList(AllKeys(source))
  {
    hide RowsMap, AllKeys, Call;
    WireTransparent(source, KEYS_REQUEST);
    CardinalityIsTotal(source, |source|);
    if RowsMap(source) != map[] {
      var k :| k in RowsMap(source);
      assert k in RowsMap(source).Keys;
    }
  }

  /** Every pair of `d` is a pair of `m`. */
  ghost predicate Agrees(d: Map, m: Map) {
    forall k :: k in d ==> k in m && m[k] == d[k]
  }

  /** From an empty table the transfer is exact; otherwise exactly when no own pair contradicts the source. */
  lemma TransferCopiesIff(source: Rows, dest: Rows)
    requires WellFormed(source) && Storable(RowsMap(source)) && Countable(source) && WellFormed(dest)
    requires ALL_KEYS !in RowsMap(source)
    ensures Transfer(source, dest).Some?
    ensures RowsMap(Transfer(source, dest).value) == RowsMap(source) <==> Agrees(RowsMap(dest), RowsMap(source))
  {
    hide RowsMap, Storable, Countable, Agrees;
    TransferExact(source, dest);
    OverlayIff(RowsMap(source), RowsMap(dest));
  }

  lemma OverlayIff(m: Map, d: Map)
    ensures m + d == m <==> Agrees(d, m)
  {
    if m + d == m {
      forall k | k in d ensures k in m && m[k] == d[k] {
        assert k in m + d && (m + d)[k] == d[k];
      }
    }
  }

  lemma GetEachStep(source: Rows, keys: seq<Key>, dest: Rows)
    requires source != [] && dest != [] && keys != [] && GetEach(source, keys, dest).Some?
    ensures Sendable(GetRequest(keys[0])) && Call(source, GetRequest(keys[0])).1.Some?
    ensures Call(source, GetRequest(keys[0])).1.value.content.Value?
    ensures var put := PutRequest(keys[0], Call(source, GetRequest(keys[0])).1.value.content.data);
      Serviceable(put) && Invoke(dest, put).0 != []
      && GetEach(source, keys, dest) == GetEach(source, keys[1..], Invoke(dest, put).0)
  {
    InvokeKeepsSize(dest, PutRequest(keys[0], Call(source, GetRequest(keys[0])).1.value.content.data));
  }

  /** `update_state` as it runs on the local table; -1 without a peer, 0 when the loop has ended. */
  method UpdateState(server: Option<Rows>, tabela: Table) returns (r: int)
    requires tabela.Valid() && tabela.rows != []
    requires server.Some? ==> server.value != [] && Sendable(KEYS_REQUEST)
    requires server.Some? ==> Transfer(server.value, tabela.rows).Some?
    modifies tabela.Repr
    ensures tabela.Valid() && fresh(tabela.Repr - old(tabela.Repr))
    ensures server == None ==> r == -1 && tabela.rows == old(tabela.rows)
    ensures server.Some? ==> r == 0 && Transfer(server.value, old(tabela.rows)) == Some(tabela.rows)
  {
    hide Call, Invoke, Table.Separate, Table.Matches, Placed, Sendable, Total;
    if server == None {
      return -1;
    }
    var source := server.value;
    var t := Call(source, KEYS_REQUEST).1.value;
    if t.content == Result(0) {
      return 0;
    }
    var keys := t.content.keys;
    ghost var goal := Transfer(source, tabela.rows);
    var i := 0;
    assert keys[0..] == keys;
    while i < |keys|
      invariant 0 <= i <= |keys| && tabela.Valid() && tabela.rows != []
      invariant fresh(tabela.Repr - old(tabela.Repr))
      invariant GetEach(source, keys[i..], tabela.rows) == goal
    {
      GetEachStep(source, keys[i..], tabela.rows);
      assert keys[i..][0] == keys[i] && keys[i..][1..] == keys[i + 1..];
      var tt := Call(source, GetRequest(keys[i])).1.value;
      var _ := InvokeOn(tabela, Some(PutRequest(keys[i], tt.content.data)));
      i := i + 1;
    }
    return 0;
  }
}
