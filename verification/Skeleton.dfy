/** `invoke`: the transition function of a replica. */
module Skeleton {
  import opened Bytes
  import opened Options
  import opened Hashing
  import opened Rows
  import opened Messages
  import opened Entries
  import opened Tables
  import opened Blocks

  /** The key "!", which asks for the list of all keys. */
  const ALL_KEYS: seq<byte> := [33]

  const ERROR_MESSAGE: Message := Message(OC_RT_ERROR, Result(-1))

  /** NULL, a reply whose fields were never set, or a message. */
  datatype Reply = NoReply | Unset | Reply(m: Message)

  /** The shape that `invoke` takes for granted: an entry to put or update, a key to get or delete. */
  predicate Serviceable(m: Message) {
    && (m.opcode == OC_PUT || m.opcode == OC_UPDATE ==>
        m.content.EntryOf? && NulFree(m.content.name) && Hashable(m.content.name) && m.content.value != [])
    && (m.opcode == OC_GET || m.opcode == OC_DEL ==>
        m.content.KeyName? && NulFree(m.content.key) && Hashable(m.content.key))
  }

  predicate IsMutation(m: Message) {
    m.opcode == OC_PUT || m.opcode == OC_UPDATE || m.opcode == OC_DEL
  }

  function Answer(opcode: int, r: int): Reply {
    if r == ERROR then Reply(ERROR_MESSAGE) else Reply(Message(opcode + 1, Result(r)))
  }

  function Invoke(rows: Rows, m: Message): (Rows, Reply)
    requires rows != [] && Serviceable(m)
  {
    if m.opcode < 0 then (rows, NoReply)
    else if m.opcode == OC_SIZE then (rows, Answer(OC_SIZE, Total(rows)))
    else if m.opcode == OC_PUT then
      var (next, r) := PutRows(rows, m.content.name, m.content.value);
      (next, Answer(OC_PUT, r))
    else if m.opcode == OC_GET then
      if m.content.key == ALL_KEYS then
        if Total(rows) == 0 then (rows, Reply(Message(OC_GET + 1, Result(0))))
        else (rows, Reply(Message(OC_GET + 1, KeyList(AllKeys(rows)))))
      else
        match GetRows(rows, m.content.key)
        case Some(v) => (rows, Reply(Message(OC_GET + 1, Value(v))))
        case None => (rows, Reply(ERROR_MESSAGE))
    else if m.opcode == OC_UPDATE then
      var (next, r) := UpdateRows(rows, m.content.name, m.content.value);
      (next, Answer(OC_UPDATE, r))
    else if m.opcode == OC_DEL then
      var (next, r) := DelRows(rows, m.content.key);
      (next, Answer(OC_DEL, r))
    else (rows, Unset)
  }

  /** A negative opcode gives NULL, one that is no table operation a reply that was never set; neither moves the
    * table. */
  lemma InvokeOther(rows: Rows, m: Message)
    requires rows != [] && Serviceable(m) && m.opcode !in {10, 20, 30, 40, 50}
    ensures Invoke(rows, m) == (rows, if m.opcode < 0 then NoReply else Unset)
  {
  }

  /** What a request does to the map; everything but put, update and delete leaves it alone. */
  function ApplyMap(m: Map, req: Message): Map
    requires Serviceable(req)
  {
    if req.opcode == OC_PUT then MapPut(m, req.content.name, req.content.value).0
    else if req.opcode == OC_UPDATE then MapUpdate(m, req.content.name, req.content.value).0
    else if req.opcode == OC_DEL then MapDel(m, req.content.key).0
    else m
  }

  /** Whatever the number of buckets, a request acts on the table as on the map. */
  lemma InvokeRefines(rows: Rows, req: Message)
    requires WellFormed(rows) && Serviceable(req)
    ensures WellFormed(Invoke(rows, req).0) && |Invoke(rows, req).0| == |rows|
    ensures RowsMap(Invoke(rows, req).0) == ApplyMap(RowsMap(rows), req)
  {
    hide PutRows, UpdateRows, DelRows, GetRows, Placed, RowsMap, Total, AllKeys;
    if req.opcode == OC_PUT {
      PutRefines(rows, req.content.name, req.content.value);
    } else if req.opcode == OC_UPDATE {
      UpdateRefines(rows, req.content.name, req.content.value);
    } else if req.opcode == OC_DEL {
      DelRefines(rows, req.content.key);
    }
  }

  /** The key a mutation is about. */
  function KeyOf(req: Message): Key
    requires Serviceable(req) && IsMutation(req)
  {
    if req.content.EntryOf? then req.content.name else req.content.key
  }

  /** The request finds work to do: an absent key to put, a present key with another value to update, a present key to
    * delete. */
  predicate Effective(m: Map, req: Message)
    requires Serviceable(req)
  {
    if req.opcode == OC_PUT then req.content.name !in m
    else if req.opcode == OC_UPDATE then req.content.name in m && m[req.content.name] != req.content.value
    else if req.opcode == OC_DEL then req.content.key in m
    else false
  }

  /** Exactly the effective requests change the map. */
  lemma EffectiveIff(m: Map, req: Message)
    requires Serviceable(req)
    ensures Effective(m, req) <==> ApplyMap(m, req) != m
    ensures Effective(m, req) ==> IsMutation(req)
  {
    if Effective(m, req) {
      assert MapGet(ApplyMap(m, req), KeyOf(req)) != MapGet(m, KeyOf(req));
    }
  }

  /** After an effective request, the request `next` still has the result it would have had without it: only a later
    * request on the same key can undo the difference, and only in these cases. */
  predicate Absorbed(m: Map, req: Message, next: Message)
    requires Serviceable(req) && IsMutation(req) && Serviceable(next) && IsMutation(next)
  {
    && KeyOf(req) == KeyOf(next)
    && (if next.opcode == OC_DEL then true
        else if next.opcode == OC_UPDATE then req.opcode == OC_UPDATE
        else if req.opcode == OC_PUT then req.content.value == next.content.value
        else req.opcode == OC_DEL && KeyOf(req) in m && m[KeyOf(req)] == next.content.value)
  }

  lemma AbsorbedIff(m: Map, req: Message, next: Message)
    requires Serviceable(req) && Effective(m, req) && IsMutation(req) && Serviceable(next) && IsMutation(next)
    ensures Absorbed(m, req, next) <==> ApplyMap(ApplyMap(m, req), next) == ApplyMap(m, next)
  {
    var k := KeyOf(req);
    var a, b := ApplyMap(ApplyMap(m, req), next), ApplyMap(m, next);
    AbsorbedAt(m, req, next);
    forall x | x != k ensures MapGet(a, x) == MapGet(b, x) {
      EqualAfter(m, ApplyMap(m, req), next, x);
    }
    if MapGet(a, k) == MapGet(b, k) {
      SameMap(a, b);
    }
  }

  lemma AbsorbedAt(m: Map, req: Message, next: Message)
    requires Serviceable(req) && Effective(m, req) && IsMutation(req) && Serviceable(next) && IsMutation(next)
    ensures Absorbed(m, req, next) <==>
      MapGet(ApplyMap(ApplyMap(m, req), next), KeyOf(req)) == MapGet(ApplyMap(m, next), KeyOf(req))
  {
  }

  lemma EqualAfter(m: Map, n: Map, req: Message, x: Key)
    requires Serviceable(req) && MapGet(m, x) == MapGet(n, x)
    ensures MapGet(ApplyMap(m, req), x) == MapGet(ApplyMap(n, req), x)
  {
  }

  lemma SameMap(a: Map, b: Map)
    requires forall x :: MapGet(a, x) == MapGet(b, x)
    ensures a == b
  {
    forall x ensures (x in a <==> x in b) && (x in a ==> a[x] == b[x]) {
      assert MapGet(a, x) == MapGet(b, x);
    }
  }

  /** A request repeated has no further effect on the map. */
  lemma ApplyIdempotent(m: Map, req: Message)
    requires Serviceable(req)
    ensures ApplyMap(ApplyMap(m, req), req) == ApplyMap(m, req)
  {
  }

  // ---- The table behind it, updated in place ----

  /** `invoke` as it runs: no table or no message gives NULL, otherwise the table moves as `Invoke` says. */
  method InvokeOn(tabela: Table?, req: Option<Message>) returns (reply: Reply)
    requires tabela != null ==> tabela.Valid()
    requires req.Some? ==> Serviceable(req.value)
    modifies if tabela != null then tabela.Repr else {}
    ensures tabela == null || req == None ==> reply == NoReply
    ensures tabela != null ==> tabela.Valid() && fresh(tabela.Repr - old(tabela.Repr))
    ensures tabela != null && req == None ==> tabela.rows == old(tabela.rows)
    ensures tabela != null ==> old(tabela.rows) != []
    ensures tabela != null && req.Some? ==> (tabela.rows, reply) == Invoke(old(tabela.rows), req.value)
  {
    hide PutRows, UpdateRows, DelRows, GetRows, Total, AllKeys, Hashable, Table.Separate, Table.Matches, Placed;
    hide Listed, Data.Payload;
    if tabela == null || req == None {
      return NoReply;
    }
    var m := req.value;
    if m.opcode < 0 {
      return NoReply;
    }
    if m.opcode == OC_SIZE {
      var n := tabela.Size();
      reply := Answer(OC_SIZE, n);
    } else if m.opcode == OC_PUT {
      var key := BlockOf(m.content.name);
      var value := DataOf(m.content.value);
      var r := tabela.Put(key, value);
      reply := Answer(OC_PUT, r);
    } else if m.opcode == OC_GET {
      var key := BlockOf(m.content.key);
      if m.content.key == ALL_KEYS {
        var keys := tabela.GetKeys();
        if tabela.quantityEntry == 0 {
          reply := Reply(Message(OC_GET + 1, Result(0)));
        } else {
          var names := NamesOf(keys, AllKeys(tabela.rows));
          reply := Reply(Message(OC_GET + 1, KeyList(names)));
        }
      } else {
        var data := tabela.Get(key);
        if data != null {
          var copy := DataDup(data);
          reply := Reply(Message(OC_GET + 1, Value(copy.data[..copy.datasize])));
          PayloadIs(copy);
        } else {
          reply := Reply(ERROR_MESSAGE);
        }
      }
    } else if m.opcode == OC_UPDATE {
      var key := BlockOf(m.content.name);
      var value := DataOf(m.content.value);
      var r := tabela.Update(key, value);
      reply := Answer(OC_UPDATE, r);
    } else if m.opcode == OC_DEL {
      var key := BlockOf(m.content.key);
      var r := tabela.Del(key);
      reply := Answer(OC_DEL, r);
    } else {
      reply := Unset;
    }
  }
}
