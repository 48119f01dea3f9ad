/** One server process: its role, the state of its backup link, its table, and how it serves a request. */
module Servers {
  import opened Options
  import opened Rows
  import opened Messages
  import opened Skeleton
  import opened Remote
  import opened StateTransfer
  import opened Tables

  const NONE: int := -1
  const DOWN: int := 0
  const UP: int := 1
  const PRIMARY: int := 1
  const SECUNDARY: int := 2

  const STATUS_REQUEST: Message := Message(OC_STATUS, Result(-100))

  /** The globals of a server: `status`, `state`, the connection `shared.current_backup` names, and `tabela`. */
  datatype Replica = Replica(status: int, state: int, backup: Option<nat>, rows: Rows)

  /** A mutation goes on to the backup only from a primary whose link is up. */
  predicate Forwards(r: Replica, req: Message) {
    IsMutation(req) && r.state == UP && r.status == PRIMARY
  }

  /** The local half of a request: `invoke`, then the answers to OC_STATUS and OC_UP. */
  function Begin(r: Replica, req: Message, connected: Option<nat>): (Replica, Reply)
    requires r.rows != [] && Serviceable(req)
  {
    var (rows, reply) := Invoke(r.rows, req);
    var r' := r.(rows := rows);
    if req.opcode == OC_STATUS then (r', Reply(Message(OC_STATUS, Result(r.status))))
    else if req.opcode == OC_UP then
      if connected == None then (r'.(backup := None), reply)
      else (r'.(backup := connected, state := UP), Reply(Message(OC_UP, Result(UP))))
    else (r', reply)
  }

  /** The link is marked down the first time the backup does not answer. */
  function Answered(r: Replica, answer: bool): Replica {
    if !answer && r.state != DOWN then r.(state := DOWN) else r
  }

  /** `network_receive_send` on a request that was read. */
  function Serve(r: Replica, req: Message, connected: Option<nat>, answer: bool): (Replica, Reply)
    requires r.rows != [] && Serviceable(req)
  {
    var (r', reply) := Begin(r, req, connected);
    (if Forwards(r', req) then Answered(r', answer) else r', reply)
  }

  /** A failed request closes its connection; a secundary takes that for the end of its primary. */
  function Disconnected(r: Replica): Replica {
    if r.status == SECUNDARY then r.(status := PRIMARY, state := DOWN) else r
  }

  /** `ask_status` over the wire; -1 without a connection. */
  function AskStatus(peer: Option<Replica>): int
    requires peer.Some? ==> peer.value.rows != []
  {
    if peer == None then -1 else
      match Begin(peer.value, STATUS_REQUEST, None).1
      case Reply(Message(_, Result(n))) => n
      case _ => -1
  }

  lemma AskStatusIs(r: Replica)
    requires r.rows != []
    ensures AskStatus(Some(r)) == r.status
  {
  }

  /** `primary`: join a peer that is primary, otherwise lead; None where the state transfer is undefined. */
  function PrimaryStart(rows: Rows, peer: Option<Replica>, peerId: nat): Option<Replica>
    requires rows != [] && (peer.Some? ==> peer.value.rows != [])
  {
    if AskStatus(peer) == PRIMARY then
      (if peer == None then None else
         match Transfer(peer.value.rows, rows)
         case Some(copy) => Some(Replica(SECUNDARY, UP, None, copy))
         case None => None)
    else Some(Replica(PRIMARY, UP, if peer == None then None else Some(peerId), rows))
  }

  /** `secundary`: copy the state of the peer it can reach, if any. */
  function SecundaryStart(rows: Rows, peer: Option<Replica>): Option<Replica>
    requires rows != [] && (peer.Some? ==> peer.value.rows != [])
  {
    if peer == None then Some(Replica(SECUNDARY, UP, None, rows)) else
      match Transfer(peer.value.rows, rows)
      case Some(copy) => Some(Replica(SECUNDARY, UP, None, copy))
      case None => None
  }

  /** What a server answers: its role to OC_STATUS, 1 to an OC_UP that it could connect back, and otherwise what
    * `invoke` answers, which for an OC_UP without a connection was never set. */
  lemma ServeAnswers(r: Replica, req: Message, connected: Option<nat>, answer: bool)
    requires r.rows != [] && Serviceable(req)
    ensures Serve(r, req, connected, answer).1 ==
      if req.opcode == 102 then Reply(Message(102, Result(r.status)))
      else if req.opcode != 100 then Invoke(r.rows, req).1
      else if connected.Some? then Reply(Message(100, Result(1)))
      else Unset
  {
    if req.opcode == 100 {
      InvokeOther(r.rows, req);
    }
  }

  /** When a server can start, and as what, for any two bucket counts: it joins a peer that says it is primary (1), and
    * a server of the other kind any peer it reaches, whose table must then not hold the key "!"; it ends with the
    * peer's map, as secundary (2) and up (1). Otherwise the one leads, linked to whatever peer runs, and the other
    * waits with its own table. */
  lemma StartsIff(size: nat, peer: Option<Replica>, peerId: nat)
    requires size > 0
    requires peer.Some? ==> WellFormed(peer.value.rows) && Storable(RowsMap(peer.value.rows))
    requires peer.Some? ==> Countable(peer.value.rows)
    ensures EmptyRows(size) != [] && (peer.Some? ==> peer.value.rows != [])
    ensures var r := PrimaryStart(EmptyRows(size), peer, peerId);
      if peer.Some? && peer.value.status == 1 then Joined(r, peer.value, size)
      else r == Some(Replica(1, 1, if peer.Some? then Some(peerId) else None, EmptyRows(size)))
    ensures var r := SecundaryStart(EmptyRows(size), peer);
      if peer.Some? then Joined(r, peer.value, size) else r == Some(Replica(2, 1, None, EmptyRows(size)))
  {
    hide Transfer, RowsMap, WellFormed, Storable, Countable, Begin;
    FreshRows(size);
    if peer.Some? {
      PlacedOf(peer.value.rows);
      TransferExact(peer.value.rows, EmptyRows(size));
      AskStatusIs(peer.value);
      assert RowsMap(peer.value.rows) + map[] == RowsMap(peer.value.rows);
    }
  }

  lemma FreshRows(size: nat)
    requires size > 0
    ensures WellFormed(EmptyRows(size)) && EmptyRows(size) != []
    ensures |EmptyRows(size)| == size && RowsMap(EmptyRows(size)) == map[]
  {
    EmptyRowsMap(EmptyRows(size), size);
  }

  /** `r` is a fresh secundary with a copy of the peer's table; there is none exactly if the peer stores "!". */
  ghost predicate Joined(r: Option<Replica>, peer: Replica, size: nat) {
    && (r.Some? <==> [33] !in RowsMap(peer.rows))
    && (r.Some? ==>
        && r.value == Replica(2, 1, None, r.value.rows)
        && WellFormed(r.value.rows) && |r.value.rows| == size && RowsMap(r.value.rows) == RowsMap(peer.rows))
  }

  /** The link goes up by an OC_UP that can be connected back, down by a forward without an answer, and stays as it is
    * otherwise; the role stays. */
  lemma ServeFacts(r: Replica, req: Message, connected: Option<nat>, answer: bool)
    requires WellFormed(r.rows) && Serviceable(req)
    ensures var r' := Serve(r, req, connected, answer).0;
      && WellFormed(r'.rows) && |r'.rows| == |r.rows|
      && RowsMap(r'.rows) == ApplyMap(RowsMap(r.rows), req)
      && r'.status == r.status
      && (r'.state == if req.opcode == OC_UP && connected.Some? then 1
                      else if Forwards(r, req) && !answer then 0 else r.state)
      && (r'.backup == if req.opcode == OC_UP then connected else r.backup)
  {
    hide RowsMap, Placed, Invoke, ApplyMap;
    InvokeRefines(r.rows, req);
  }

  // ---- The process ----

  class Server {
    var status: int
    var state: int
    var currentBackup: Option<nat>
    const tabela: Table

    ghost predicate Valid()
      reads this, tabela, tabela.Repr
    {
      this !in tabela.Repr && tabela.Valid()
    }

    ghost function View(): Replica
      reads this, tabela
    {
      Replica(status, state, currentBackup, tabela.rows)
    }

    constructor (tabela: Table)
      requires tabela.Valid()
      ensures this.tabela == tabela && Valid() && View() == Replica(NONE, NONE, None, tabela.rows)
    {
      this.tabela := tabela;
      status, state, currentBackup := NONE, NONE, None;
    }

    /** `network_receive_send`: `req` is what was read, `connected` what a connection back yields, `answer` whether a
      * forwarded request is answered, `written` whether the reply can be written. A request that `invoke` refuses,
      * such as one with a negative opcode, ends like one that was not read. */
    method NetworkReceiveSend(req: Option<Message>, connected: Option<nat>, answer: bool, written: bool)
      returns (code: int, reply: Reply, forwarded: bool)
      requires Valid()
      requires req.Some? ==> Serviceable(req.value)
      modifies this, tabela.Repr
      ensures Valid() && fresh(tabela.Repr - old(tabela.Repr)) && old(tabela.rows) != []
      ensures req == None ==> code == -1 && reply == NoReply && !forwarded && View() == old(View())
      ensures req.Some? ==> (View(), reply) == Serve(old(View()), req.value, connected, answer)
      ensures req.Some? ==> code == if reply == NoReply || !written then -1 else 1
      ensures req.Some? ==> (forwarded <==> Forwards(Begin(old(View()), req.value, connected).0, req.value))
    {
      hide Invoke, Table.Valid;
      forwarded := false;
      if req == None {
        reply := NoReply;
        NotEmpty();
        return -1, reply, false;
      }
      var m := req.value;
      reply := InvokeOn(tabela, req);
      if m.opcode == OC_STATUS {
        reply := Reply(Message(OC_STATUS, Result(status)));
      }
      if m.opcode == OC_UP {
        currentBackup := connected;
        if currentBackup != None {
          reply := Reply(Message(OC_UP, Result(UP)));
          state := UP;
        }
      }
      if m.opcode == OC_DEL || m.opcode == OC_PUT || m.opcode == OC_UPDATE {
        if state == UP && status == PRIMARY {
          forwarded := true;
          if !answer && state != DOWN {
            state := DOWN;
          }
        }
      }
      code := if reply == NoReply || !written then -1 else 1;
    }

    lemma NotEmpty()
      requires Valid()
      ensures tabela.rows != []
    {
    }

    /** The end of a connection, as the main loop sees it. */
    method ConnectionLost()
      requires Valid()
      modifies this
      ensures Valid() && View() == Disconnected(old(View()))
    {
      if status == SECUNDARY {
        status := PRIMARY;
        state := DOWN;
      }
    }

    /** One readable slot of the main loop: a request that ends with an error closes the connection. */
    method ServeSlot(req: Option<Message>, connected: Option<nat>, answer: bool, written: bool) returns (closed: bool)
      requires Valid()
      requires req.Some? ==> Serviceable(req.value)
      modifies this, tabela.Repr
      ensures Valid() && fresh(tabela.Repr - old(tabela.Repr)) && old(tabela.rows) != []
      ensures req == None ==> closed && View() == Disconnected(old(View()))
      ensures req.Some? ==>
        var (served, reply) := Serve(old(View()), req.value, connected, answer);
        && (closed <==> reply == NoReply || !written)
        && View() == if closed then Disconnected(served) else served
    {
      hide Serve, Table.Valid;
      var code, reply, forwarded := NetworkReceiveSend(req, connected, answer, written);
      closed := code < 0;
      if closed {
        ConnectionLost();
      }
    }

    /** `primary`; `up` says whether OC_UP was sent to the peer. */
    method Primary(peer: Option<Replica>, peerId: nat) returns (up: bool)
      requires Valid() && tabela.rows != []
      requires peer.Some? ==> peer.value.rows != [] && Sendable(KEYS_REQUEST)
      requires PrimaryStart(tabela.rows, peer, peerId).Some?
      modifies this, tabela.Repr
      ensures Valid() && PrimaryStart(old(tabela.rows), peer, peerId) == Some(View())
      ensures up <==> peer.Some? && peer.value.status == PRIMARY
    {
      hide Transfer, Table.Valid, Begin;
      var statusValue := AskStatus(peer);
      if peer.Some? {
        AskStatusIs(peer.value);
      }
      if statusValue == PRIMARY {
        var _ := UpdateState(Some(peer.value.rows), tabela);
        up := true;
        status := SECUNDARY;
        state := UP;
        currentBackup := None;
      } else {
        up := false;
        status := PRIMARY;
        state := UP;
        currentBackup := if peer == None then None else Some(peerId);
      }
    }

    /** `secundary`; `up` says whether OC_UP was sent to the peer. */
    method Secundary(peer: Option<Replica>) returns (up: bool)
      requires Valid() && tabela.rows != []
      requires peer.Some? ==> peer.value.rows != [] && Sendable(KEYS_REQUEST)
      requires SecundaryStart(tabela.rows, peer).Some?
      modifies this, tabela.Repr
      ensures Valid() && SecundaryStart(old(tabela.rows), peer) == Some(View())
      ensures up <==> peer.Some?
    {
      hide Transfer, Table.Valid;
      up := false;
      if peer.Some? {
        var _ := UpdateState(Some(peer.value.rows), tabela);
        up := true;
      }
      status := SECUNDARY;
      state := UP;
      currentBackup := None;
    }
  }
}
