/** A call through stub, wire and skeleton against the same call on a local map. */
module Remote {
  import opened Bytes
  import opened Options
  import opened Hashing
  import opened Rows
  import opened Messages
  import opened Skeleton

  predicate Travels(k: Key, v: Value) {
    NulFree(k) && |k| <= KEY_MAX && Hashable(k) && 0 < |v| <= INT_MAX
  }

  /** What came in under a 16-bit length and a positive size: stored data that can be sent out again. */
  ghost predicate Storable(m: Map) {
    forall k :: k in m ==> Travels(k, m[k])
  }

  /** The table's counter still fits the `int` it is kept in. */
  predicate Countable(rows: Rows) {
    Total(rows) <= INT_MAX
  }

  /** The requests that travel: what the client's stub builds and the parser delivers. */
  predicate Sendable(req: Message) {
    Representable(req) && Encodable(req) && Serviceable(req) && req.opcode >= 0
  }

  // ---- The requests the stub builds ----

  function PutRequest(k: Key, v: Value): Message { Message(OC_PUT, EntryOf(k, v)) }

  function UpdateRequest(k: Key, v: Value): Message { Message(OC_UPDATE, EntryOf(k, v)) }

  function GetRequest(k: Key): Message { Message(OC_GET, KeyName(k)) }

  function DelRequest(k: Key): Message { Message(OC_DEL, KeyName(k)) }

  const SIZE_REQUEST: Message := Message(OC_SIZE, Result(0))

  const KEYS_REQUEST: Message := GetRequest(ALL_KEYS)

  /** The reply a client decodes, and the table it leaves behind: both messages pass through their bytes. */
  function Call(rows: Rows, req: Message): (Rows, Option<Message>)
    requires rows != [] && Sendable(req)
  {
    assert Decode(Encode(req)) == Got(req, |Encode(req)|) by { RoundTripIff(req); }
    var (next, reply) := Invoke(rows, Decode(Encode(req)).value);
    if !reply.Reply? then (next, None) else
      match Decode(Encode(reply.m))
      case Got(m, _) => (next, Some(m))
      case _ => (next, None)
  }

  /** A request that travelled leaves only storable data behind. */
  lemma StorableKept(m: Map, req: Message)
    requires Storable(m) && Sendable(req)
    ensures Storable(ApplyMap(m, req))
  {
    hide Hashable, NulFree;
    assert req.content.EntryOf? && IsMutation(req) ==> Travels(req.content.name, req.content.value);
    hide Travels;
  }

  lemma KeysStorable(rows: Rows)
    requires WellFormed(rows) && Storable(RowsMap(rows))
    ensures forall i :: 0 <= i < |AllKeys(rows)| ==> NulFree(AllKeys(rows)[i]) && |AllKeys(rows)[i]| <= KEY_MAX
  {
    AllKeysExact(rows, |rows|);
    forall i | 0 <= i < |AllKeys(rows)| ensures NulFree(AllKeys(rows)[i]) && |AllKeys(rows)[i]| <= KEY_MAX {
      assert AllKeys(rows)[i] in AllKeys(rows);
    }
  }

  /** Every reply to a request that travelled can itself travel. */
  lemma ReplyEncodable(rows: Rows, req: Message)
    requires WellFormed(rows) && Storable(RowsMap(rows)) && Countable(rows) && Sendable(req)
    ensures var reply := Invoke(rows, req).1; reply.Reply? ==> Representable(reply.m) && Encodable(reply.m)
  {
    hide PutRows, UpdateRows, DelRows, GetRows, Placed, RowsMap, Total, AllKeys;
    CodesAreInts(rows, req);
    if req.opcode == OC_GET {
      KeysStorable(rows);
      LookupAgrees(rows, req.content.key);
    }
  }

  lemma CodesAreInts(rows: Rows, req: Message)
    requires rows != [] && Serviceable(req)
    ensures req.opcode == OC_PUT ==> PutRows(rows, req.content.name, req.content.value).1 in {OK, KEY_EXISTS}
    ensures req.opcode == OC_UPDATE ==> UpdateRows(rows, req.content.name, req.content.value).1 in {OK, ERROR}
    ensures req.opcode == OC_DEL ==> DelRows(rows, req.content.key).1 in {OK, ERROR}
  {
  }

  /** The wire is transparent: the client decodes exactly the message that `invoke` produced. */
  lemma WireTransparent(rows: Rows, req: Message)
    requires WellFormed(rows) && Storable(RowsMap(rows)) && Countable(rows) && Sendable(req)
    ensures Call(rows, req).0 == Invoke(rows, req).0
    ensures Call(rows, req).1 == if Invoke(rows, req).1.Reply? then Some(Invoke(rows, req).1.m) else None
  {
    hide Invoke, Encode, Decode, Representable, Encodable;
    RoundTripIff(req);
    ReplyEncodable(rows, req);
    var reply := Invoke(rows, req).1;
    if reply.Reply? {
      RoundTripIff(reply.m);
    }
  }

  // ---- The same call on the map ----

  /** What a table operation tells its caller. */
  datatype Outcome = Code(code: int) | Found(value: Value) | Listing(keys: seq<Key>) | Failed

  /** The local operation; a key list is any listing of the domain without repetition. */
  ghost predicate LocalOutcome(m: Map, req: Message, o: Outcome)
    requires Serviceable(req)
  {
    if req.opcode == OC_PUT then o == Code(MapPut(m, req.content.name, req.content.value).1)
    else if req.opcode == OC_UPDATE then o == if req.content.name in m then Code(OK) else Failed
    else if req.opcode == OC_DEL then o == if req.content.key in m then Code(OK) else Failed
    else if req.opcode == OC_SIZE then o == Code(|m|)
    else if req.opcode == OC_GET && req.content.key == [33] then
      (if m == map[] then o == Code(0) else o.Listing? && Enumerates(o.keys, m))
    else if req.opcode == OC_GET then o == if req.content.key in m then Found(m[req.content.key]) else Failed
    else true
  }

  /** How the client reads a reply: the error opcode first, then the content type. */
  function Read(reply: Message): Outcome {
    if reply.opcode == OC_RT_ERROR then Failed else
      match reply.content
      case Result(r) => Code(r)
      case Value(v) => Found(v)
      case KeyList(ks) => Listing(ks)
      case _ => Failed
  }

  predicate IsTableRequest(req: Message) {
    || req.opcode == OC_PUT || req.opcode == OC_UPDATE || req.opcode == OC_DEL
    || req.opcode == OC_GET || req.opcode == OC_SIZE
  }

  /** The operations that fail: get, update and del of an absent key. The key "!" is not looked up. */
  predicate Fails(m: Map, req: Message)
    requires Serviceable(req)
  {
    || (req.opcode == OC_GET && req.content.key != [33] && req.content.key !in m)
    || (req.opcode == OC_UPDATE && req.content.name !in m)
    || (req.opcode == OC_DEL && req.content.key !in m)
  }

  /** The reply has the error opcode and the number -1 exactly when the operation fails; otherwise the request's opcode
    * plus one and the content type of the operation. */
  ghost predicate Labelled(m: Map, req: Message, reply: Message)
    requires Serviceable(req)
  {
    if Fails(m, req) then reply == Message(99, Result(-1)) else
      && reply.opcode == req.opcode + 1
      && if req.opcode != OC_GET then reply.content.Result?
         else if req.content.key != [33] then reply.content.Value?
         else if m == map[] then reply.content == Result(0) else reply.content.KeyList?
  }

  lemma InvokeOutcome(rows: Rows, req: Message)
    requires WellFormed(rows) && Serviceable(req) && IsTableRequest(req)
    ensures Invoke(rows, req).1.Reply? && LocalOutcome(RowsMap(rows), req, Read(Invoke(rows, req).1.m))
    ensures Labelled(RowsMap(rows), req, Invoke(rows, req).1.m)
  {
    hide Invoke, LocalOutcome, Labelled, RowsMap, Placed, Read;
    if req.opcode == OC_GET {
      GetOutcome(rows, req);
    } else if req.opcode == OC_SIZE {
      SizeOutcome(rows, req);
    } else {
      MutationOutcome(rows, req);
    }
  }

  lemma GetOutcome(rows: Rows, req: Message)
    requires WellFormed(rows) && Serviceable(req) && req.opcode == OC_GET
    ensures Invoke(rows, req).1.Reply? && LocalOutcome(RowsMap(rows), req, Read(Invoke(rows, req).1.m))
    ensures Labelled(RowsMap(rows), req, Invoke(rows, req).1.m)
  {
    hide GetRows, Placed, RowsMap, Total, AllKeys, HashSum, NulFree;
    CardinalityIsTotal(rows, |rows|);
    if req.content.key == ALL_KEYS {
      AllKeysExact(rows, |rows|);
    } else {
      LookupAgrees(rows, req.content.key);
    }
  }

  lemma SizeOutcome(rows: Rows, req: Message)
    requires WellFormed(rows) && Serviceable(req) && req.opcode == OC_SIZE
    ensures Invoke(rows, req).1.Reply? && LocalOutcome(RowsMap(rows), req, Read(Invoke(rows, req).1.m))
    ensures Labelled(RowsMap(rows), req, Invoke(rows, req).1.m)
  {
    hide Placed, RowsMap, Total, AllKeys;
    CardinalityIsTotal(rows, |rows|);
  }

  lemma MutationOutcome(rows: Rows, req: Message)
    requires WellFormed(rows) && Serviceable(req) && IsMutation(req)
    ensures Invoke(rows, req).1.Reply? && LocalOutcome(RowsMap(rows), req, Read(Invoke(rows, req).1.m))
    ensures Labelled(RowsMap(rows), req, Invoke(rows, req).1.m)
  {
    hide PutRows, UpdateRows, DelRows, Placed, RowsMap, Total, AllKeys, HashSum, NulFree;
    if req.opcode == OC_PUT {
      PutRefines(rows, req.content.name, req.content.value);
    } else if req.opcode == OC_UPDATE {
      UpdateRefines(rows, req.content.name, req.content.value);
    } else {
      DelRefines(rows, req.content.key);
    }
  }

  /** Remote transparency: whatever the bucket count, the decoded reply tells what the local operation tells,
    * and the remote table moves as the map does. */
  lemma RemoteTransparency(rows: Rows, req: Message)
    requires WellFormed(rows) && Storable(RowsMap(rows)) && Countable(rows) && Sendable(req)
    requires req.opcode in {10, 20, 30, 40, 50}
    ensures Call(rows, req).1.Some? && LocalOutcome(RowsMap(rows), req, Read(Call(rows, req).1.value))
    ensures Labelled(RowsMap(rows), req, Call(rows, req).1.value)
    ensures WellFormed(Call(rows, req).0) && RowsMap(Call(rows, req).0) == ApplyMap(RowsMap(rows), req)
    ensures Storable(RowsMap(Call(rows, req).0))
  {
    hide Invoke, LocalOutcome, Labelled, Call, ApplyMap, Storable, WellFormed, Sendable, Read;
    WireTransparent(rows, req);
    assert Serviceable(req) by { SendableIsServiceable(req); }
    InvokeOutcome(rows, req);
    InvokeRefines(rows, req);
    StorableKept(RowsMap(rows), req);
  }

  lemma SendableIsServiceable(req: Message)
    requires Sendable(req)
    ensures Serviceable(req)
  {
  }

  /** The opcodes and content types of the requests, as the first four bytes on the wire. */
  lemma RequestBytes(k: Key, v: Value)
    ensures Encode(PutRequest(k, v))[..4] == [0, 50, 0, 50]
    ensures Encode(UpdateRequest(k, v))[..4] == [0, 30, 0, 50]
    ensures Encode(GetRequest(k))[..4] == [0, 40, 0, 30]
    ensures Encode(DelRequest(k))[..4] == [0, 20, 0, 30]
    ensures Encode(SIZE_REQUEST)[..4] == [0, 10, 0, 10]
    ensures Encode(KEYS_REQUEST) == [0, 40, 0, 30, 0, 1, 33]
  {
  }

  /** Which of the stub's requests can travel. */
  lemma SendableIff(k: Key, v: Value)
    ensures var key := NulFree(k) && |k| <= 65535 && HashSum(k) >= 0;
      && (Sendable(PutRequest(k, v)) <==> key && 0 < |v| <= 0x7FFF_FFFF)
      && (Sendable(UpdateRequest(k, v)) <==> key && 0 < |v| <= 0x7FFF_FFFF)
      && (Sendable(GetRequest(k)) <==> key) && (Sendable(DelRequest(k)) <==> key)
    ensures Sendable(SIZE_REQUEST) && Sendable(KEYS_REQUEST)
  {
    hide HashSum;
    ShortKeysSum([], [], 33);
  }

  // ---- What the stub's functions return for a reply ----

  const NO_ANSWER: int := -1

  /** `rtable_put` and `rtable_update` report 0 for every reply; `rtable_put` reports -1 without one. */
  function StubPut(reply: Option<Message>): int {
    if reply == None then NO_ANSWER else 0
  }

  function StubUpdate(reply: Option<Message>): int {
    0
  }

  /** `rtable_del` tells an error from a success. */
  function StubDel(reply: Option<Message>): int {
    if reply == None || reply.value.opcode == OC_RT_ERROR then NO_ANSWER else 0
  }

  /** `rtable_size` prints the size and returns 0. */
  function StubSize(reply: Option<Message>): int {
    if reply == None || reply.value.opcode == OC_RT_ERROR then NO_ANSWER else 0
  }

  /** Without any reply the stubs of put, del and size report -1; the one of update reports 0 even then. */
  lemma StubsWithoutReply()
    ensures StubPut(None) == StubDel(None) == StubSize(None) == -1 && StubUpdate(None) == 0
  {
  }

  /** The stub of `del` returns the table's own code. */
  lemma StubDelAgrees(rows: Rows, k: Key)
    requires WellFormed(rows) && Storable(RowsMap(rows)) && Countable(rows)
    requires Sendable(DelRequest(k))
    ensures StubDel(Call(rows, DelRequest(k)).1) == MapDel(RowsMap(rows), k).1
  {
    hide Call, WellFormed, Storable, Countable, RowsMap;
    DelReply(rows, k);
  }

  /** The stub of `put` hides "key exists": its code is the table's exactly when the key was absent. */
  lemma StubPutAgreesIff(rows: Rows, k: Key, v: Value)
    requires WellFormed(rows) && Storable(RowsMap(rows)) && Countable(rows)
    requires Sendable(PutRequest(k, v))
    ensures StubPut(Call(rows, PutRequest(k, v)).1) == MapPut(RowsMap(rows), k, v).1 <==> k !in RowsMap(rows)
  {
    hide Call, WellFormed, Storable, Countable, RowsMap;
    RemoteTransparency(rows, PutRequest(k, v));
  }

  /** The stub of `update` hides a failure that the reply tells: its code is the table's exactly when the key was
    * present. */
  lemma StubUpdateAgreesIff(rows: Rows, k: Key, v: Value)
    requires WellFormed(rows) && Storable(RowsMap(rows)) && Countable(rows)
    requires Sendable(UpdateRequest(k, v))
    ensures var (next, reply) := Call(rows, UpdateRequest(k, v));
      && (StubUpdate(reply) == MapUpdate(RowsMap(rows), k, v).1 <==> k in RowsMap(rows))
      && (reply.Some? && reply.value.opcode == OC_RT_ERROR <==> k !in RowsMap(rows))
      && RowsMap(next) == MapUpdate(RowsMap(rows), k, v).0
  {
    hide Call, WellFormed, Storable, Countable, RowsMap, UpdateRows;
    WireTransparent(rows, UpdateRequest(k, v));
    UpdateRefines(rows, k, v);
  }

  /** The stub of `size` returns 0 for every size: it is the promised number exactly for an empty table. */
  lemma StubSizeAgreesIff(rows: Rows)
    requires WellFormed(rows) && Storable(RowsMap(rows)) && Countable(rows)
    ensures StubSize(Call(rows, SIZE_REQUEST).1) == |RowsMap(rows)| <==> RowsMap(rows) == map[]
  {
    hide Call, WellFormed, Storable, Countable, RowsMap;
    RemoteTransparency(rows, SIZE_REQUEST);
    if RowsMap(rows) != map[] {
      var x :| x in RowsMap(rows);
      assert x in RowsMap(rows).Keys;
    }
  }

  lemma DelReply(rows: Rows, k: Key)
    requires WellFormed(rows) && Storable(RowsMap(rows)) && Countable(rows)
    requires Sendable(DelRequest(k))
    ensures Call(rows, DelRequest(k)).1.Some?
    ensures Call(rows, DelRequest(k)).1.value.opcode == OC_RT_ERROR <==> k !in RowsMap(rows)
  {
    hide Call, WellFormed, Storable, Countable, RowsMap, DelRows;
    WireTransparent(rows, DelRequest(k));
    DelRefines(rows, k);
  }
}
