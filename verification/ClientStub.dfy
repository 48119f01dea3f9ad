/** The client's side: two servers, one of them current, and up to four sends for one request. */
module ClientStub {
  import opened Options
  import opened Rows
  import opened Messages
  import opened Skeleton
  import opened Remote
  import opened StateTransfer
  import opened Servers

  const SERVER_ONE: int := 1
  const SERVER_TWO: int := 2
  const SENDS: nat := 4

  /** Which server is current, and which connections are there. */
  datatype Stub = Stub(current: int, one: bool, two: bool)

  /** The two servers as the client meets them. */
  datatype Pair = Pair(one: Replica, two: Replica)

  /** A server's role and link, which anything that happens between two sends may have changed: a promotion, a lost
    * link, a peer that came back. */
  datatype Role = Role(status: int, state: int, backup: Option<nat>)

  /** What befalls one send: what the roles have become before it, whether a connection could be made for it, whether
    * the server executed the request, whether the backup received it and answered, and whether the reply came back. */
  datatype Attempt = Attempt(
    one: Role, two: Role, connects: bool, executed: bool, delivered: bool, answered: bool, replied: bool)

  predicate Ready(p: Pair) {
    p.one.rows != [] && p.two.rows != []
  }

  function Get(p: Pair, server: int): Replica {
    if server == SERVER_ONE then p.one else p.two
  }

  function Set(p: Pair, server: int, mine: Replica, other: Replica): Pair {
    if server == SERVER_ONE then Pair(mine, other) else Pair(other, mine)
  }

  function Opposite(server: int): int {
    if server == SERVER_ONE then SERVER_TWO else SERVER_ONE
  }

  function Connected(c: Stub): bool {
    if c.current == SERVER_ONE then c.one else c.two
  }

  function Switch(c: Stub, connects: bool): Stub {
    if c.current == SERVER_ONE then Stub(SERVER_TWO, c.one, connects) else Stub(SERVER_ONE, connects, c.two)
  }

  /** The request executed on `server`, and on its backup if it forwards and the forward arrives. */
  function Execute(p: Pair, server: int, req: Message, a: Attempt): (Pair, Reply)
    requires Ready(p) && Serviceable(req)
  {
    var mine, other := Get(p, server), Get(p, Opposite(server));
    var (mine', reply) := Serve(mine, req, None, a.delivered && a.answered);
    var other' := if Forwards(mine, req) && a.delivered then Serve(other, req, None, false).0 else other;
    (Set(p, server, mine', other'), reply)
  }

  /** The servers in the roles they have when the attempt is made. */
  function Cast(p: Pair, a: Attempt): Pair {
    Pair(Replica(a.one.status, a.one.state, a.one.backup, p.one.rows),
         Replica(a.two.status, a.two.state, a.two.backup, p.two.rows))
  }

  function Send(c: Stub, p: Pair, req: Message, a: Attempt): (Pair, Option<Message>)
    requires Ready(p) && Serviceable(req)
  {
    if !Connected(c) || !a.executed then (Cast(p, a), None) else
      var (p', reply) := Execute(Cast(p, a), c.current, req, a);
      (p', if a.replied && reply.Reply? then Some(reply.m) else None)
  }

  datatype Ending = Ending(stub: Stub, servers: Pair, reply: Option<Message>)

  /** Send, and on silence switch to the other server and send again, while attempts are left. */
  function Retry(c: Stub, p: Pair, req: Message, attempts: seq<Attempt>): Ending
    requires Ready(p) && Serviceable(req) && attempts != []
    decreases attempts
  {
    var (p', reply) := Send(c, p, req, attempts[0]);
    SendReady(c, p, req, attempts[0]);
    if reply.Some? || |attempts| == 1 then Ending(c, p', reply)
    else Retry(Switch(c, attempts[1].connects), p', req, attempts[1..])
  }

  lemma SendReady(c: Stub, p: Pair, req: Message, a: Attempt)
    requires Ready(p) && Serviceable(req)
    ensures Ready(Send(c, p, req, a).0)
  {
    hide Invoke;
    InvokeKeepsSize(p.one.rows, req);
    InvokeKeepsSize(p.two.rows, req);
  }

  // ---- Safety of retries ----

  ghost predicate Sane(p: Pair) {
    WellFormed(p.one.rows) && WellFormed(p.two.rows)
  }

  /** The map is the original one or the original with one application of the request. */
  ghost predicate AtMostOnce(rows: Rows, m: Map, req: Message)
    requires Serviceable(req)
  {
    RowsMap(rows) == m || RowsMap(rows) == ApplyMap(m, req)
  }

  lemma OnceOfItself(rows: Rows, req: Message)
    requires Serviceable(req)
    ensures AtMostOnce(rows, RowsMap(rows), req)
  {
  }

  lemma ServeOnce(r: Replica, m: Map, req: Message, answer: bool)
    requires WellFormed(r.rows) && Serviceable(req) && req.opcode != OC_UP && AtMostOnce(r.rows, m, req)
    ensures WellFormed(Serve(r, req, None, answer).0.rows)
    ensures RowsMap(Serve(r, req, None, answer).0.rows) == ApplyMap(m, req)
    ensures req.opcode != OC_STATUS ==> Serve(r, req, None, answer).1 == Invoke(r.rows, req).1
  {
    hide RowsMap, ApplyMap, Invoke, WellFormed;
    ServeFacts(r, req, None, answer);
    ApplyIdempotent(m, req);
  }

  /** The reply tells the outcome of the request on the map before it, or on the map it had already changed. */
  ghost predicate ReplyOfFirstOrRepeat(reply: Message, m: Map, req: Message)
    requires Serviceable(req)
  {
    LocalOutcome(m, req, Read(reply)) || LocalOutcome(ApplyMap(m, req), req, Read(reply))
  }

  lemma SendSafe(c: Stub, p: Pair, req: Message, a: Attempt, m1: Map, m2: Map)
    requires Sane(p) && Serviceable(req) && IsTableRequest(req)
    requires AtMostOnce(p.one.rows, m1, req) && AtMostOnce(p.two.rows, m2, req)
    ensures Ready(p)
    ensures var (p', reply) := Send(c, p, req, a);
      && Sane(p') && AtMostOnce(p'.one.rows, m1, req) && AtMostOnce(p'.two.rows, m2, req)
      && var m := if c.current == SERVER_ONE then m1 else m2;
         (reply.Some? ==>
            && RowsMap(Get(p', c.current).rows) == ApplyMap(m, req)
            && ReplyOfFirstOrRepeat(reply.value, m, req))
  {
    hide RowsMap, ApplyMap, Invoke, Placed, LocalOutcome, Serve;
    var q := Cast(p, a);
    ServeOnce(q.one, m1, req, a.delivered && a.answered);
    ServeOnce(q.one, m1, req, false);
    ServeOnce(q.two, m2, req, a.delivered && a.answered);
    ServeOnce(q.two, m2, req, false);
    InvokeOutcome(p.one.rows, req);
    InvokeOutcome(p.two.rows, req);
  }

  /** Each replica saw the request at most once in effect, and the one that answered is current and saw it. */
  ghost predicate EndsSafely(e: Ending, req: Message, m1: Map, m2: Map)
    requires Serviceable(req)
  {
    && AtMostOnce(e.servers.one.rows, m1, req) && AtMostOnce(e.servers.two.rows, m2, req)
    && var m := if e.stub.current == SERVER_ONE then m1 else m2;
       (e.reply.Some? ==>
          && RowsMap(Get(e.servers, e.stub.current).rows) == ApplyMap(m, req)
          && ReplyOfFirstOrRepeat(e.reply.value, m, req))
  }

  /** However many sends are executed, forwarded or lose their reply, and whatever roles the servers take in between:
    * each replica ends with zero or one application of the request, and a replica that answered is the current
    * one, has exactly one, and tells its outcome. */
  lemma {:induction false} RetrySafe(c: Stub, p: Pair, req: Message, attempts: seq<Attempt>, m1: Map, m2: Map)
    requires Sane(p) && Serviceable(req) && IsTableRequest(req) && attempts != []
    requires AtMostOnce(p.one.rows, m1, req) && AtMostOnce(p.two.rows, m2, req)
    ensures Ready(p)
    ensures EndsSafely(Retry(c, p, req, attempts), req, m1, m2)
    decreases attempts
  {
    hide AtMostOnce, ReplyOfFirstOrRepeat, RowsMap, ApplyMap, Send, Sane;
    SendSafe(c, p, req, attempts[0], m1, m2);
    var (p', reply) := Send(c, p, req, attempts[0]);
    if reply == None && |attempts| > 1 {
      RetrySafe(Switch(c, attempts[1].connects), p', req, attempts[1..], m1, m2);
    }
  }

  /** Attempt `i` reaches a server and brings its reply back. */
  predicate Reaches(c: Stub, attempts: seq<Attempt>, i: nat)
    requires i < |attempts|
  {
    (if i == 0 then Connected(c) else attempts[i].connects) && attempts[i].executed && attempts[i].replied
  }

  lemma ReachesLater(c: Stub, attempts: seq<Attempt>, i: nat)
    requires 0 < i < |attempts|
    ensures Reaches(Switch(c, attempts[1].connects), attempts[1..], i - 1) == Reaches(c, attempts, i)
  {
  }

  lemma SwitchTurns(c: Stub, connects: bool)
    requires c.current == SERVER_ONE || c.current == SERVER_TWO
    ensures Switch(c, connects).current == Opposite(c.current) && Opposite(Opposite(c.current)) == c.current
  {
  }

  /** The sends alternate between the servers and stop at the first one that is answered: with attempt `k` the client
    * is back at its server when `k` is even and at the other one when it is odd; there is an answer exactly when
    * attempt `k` got one, and otherwise it was the last. */
  lemma {:induction false} AnswerTurn(c: Stub, p: Pair, req: Message, attempts: seq<Attempt>) returns (k: nat)
    requires Sane(p) && Serviceable(req) && IsTableRequest(req) && attempts != []
    requires c.current == SERVER_ONE || c.current == SERVER_TWO
    ensures Ready(p) && k < |attempts|
    ensures forall i :: 0 <= i < k ==> !Reaches(c, attempts, i)
    ensures Reaches(c, attempts, k) || k == |attempts| - 1
    ensures var e := Retry(c, p, req, attempts);
      && (e.reply.Some? <==> Reaches(c, attempts, k))
      && e.stub.current == if k % 2 == 0 then c.current else Opposite(c.current)
    decreases attempts
  {
    hide RowsMap, Serviceable, IsTableRequest, Sane, AtMostOnce, ReplyOfFirstOrRepeat, Send, Switch;
    assert AtMostOnce(p.one.rows, RowsMap(p.one.rows), req) && AtMostOnce(p.two.rows, RowsMap(p.two.rows), req) by {
      OnceOfItself(p.one.rows, req);
      OnceOfItself(p.two.rows, req);
    }
    SendSafe(c, p, req, attempts[0], RowsMap(p.one.rows), RowsMap(p.two.rows));
    SendAnswers(c, p, req, attempts[0]);
    var (p', reply) := Send(c, p, req, attempts[0]);
    k := 0;
    if reply == None && |attempts| > 1 {
      var c' := Switch(c, attempts[1].connects);
      SwitchTurns(c, attempts[1].connects);
      var k' := AnswerTurn(c', p', req, attempts[1..]);
      k := k' + 1;
      ReachesLater(c, attempts, k);
      forall i | 0 <= i < k ensures !Reaches(c, attempts, i) {
        if i > 0 {
          ReachesLater(c, attempts, i);
        }
      }
    }
  }

  lemma SendAnswers(c: Stub, p: Pair, req: Message, a: Attempt)
    requires Sane(p) && Serviceable(req) && IsTableRequest(req)
    ensures Ready(p)
    ensures Send(c, p, req, a).1.Some? <==> Connected(c) && a.executed && a.replied
  {
    hide RowsMap, ApplyMap, Invoke, Placed, LocalOutcome, Serve;
    var q := Cast(p, a);
    ServeOnce(q.one, RowsMap(p.one.rows), req, a.delivered && a.answered);
    ServeOnce(q.two, RowsMap(p.two.rows), req, a.delivered && a.answered);
    InvokeOutcome(p.one.rows, req);
    InvokeOutcome(p.two.rows, req);
  }

  // ---- What every send does to both servers ----

  /** Attempt `i` goes out on a connection and the server there executes it. */
  predicate Executed(c: Stub, attempts: seq<Attempt>, i: nat)
    requires i < |attempts|
  {
    (if i > 0 then attempts[i].connects else if c.current == 1 then c.one else c.two) && attempts[i].executed
  }

  /** The sends go to the two servers in turn. */
  function Target(c: Stub, i: nat): int {
    if i % 2 == 0 then c.current else 3 - c.current
  }

  /** The server forwards the request and its peer gets it. */
  predicate Passed(a: Attempt, server: int, req: Message) {
    var role := if server == 1 then a.one else a.two;
    a.delivered && role.status == 1 && role.state == 1 && req.opcode in {20, 30, 50}
  }

  /** Attempt `i` has the request applied at `server`: there itself, or at its peer, which passes it on. */
  predicate Touches(c: Stub, attempts: seq<Attempt>, i: nat, req: Message, server: int)
    requires i < |attempts|
  {
    Executed(c, attempts, i) && (Target(c, i) == server || Passed(attempts[i], Target(c, i), req))
  }

  function AppliedIf(applied: bool, m: Map, req: Message): Map
    requires Serviceable(req)
  {
    if applied then ApplyMap(m, req) else m
  }

  /** One send, whether or not its reply comes back. */
  lemma SendExact(c: Stub, p: Pair, req: Message, a: Attempt)
    requires Sane(p) && Serviceable(req) && IsTableRequest(req) && c.current in {1, 2}
    ensures Ready(p) && Sane(Send(c, p, req, a).0)
    ensures var q := Send(c, p, req, a).0;
      && RowsMap(q.one.rows) == AppliedIf(Touches(c, [a], 0, req, 1), RowsMap(p.one.rows), req)
      && RowsMap(q.two.rows) == AppliedIf(Touches(c, [a], 0, req, 2), RowsMap(p.two.rows), req)
  {
    hide RowsMap, ApplyMap, Invoke, WellFormed;
    SaneReady(p);
    var q := Cast(p, a);
    ServeFacts(q.one, req, None, a.delivered && a.answered);
    ServeFacts(q.one, req, None, false);
    ServeFacts(q.two, req, None, a.delivered && a.answered);
    ServeFacts(q.two, req, None, false);
  }

  lemma SaneReady(p: Pair)
    requires Sane(p)
    ensures Ready(p)
  {
  }

  ghost predicate Touched(c: Stub, attempts: seq<Attempt>, n: nat, req: Message, server: int) {
    exists i :: 0 <= i < n && i < |attempts| && Touches(c, attempts, i, req, server)
  }

  lemma TouchesLater(c: Stub, attempts: seq<Attempt>, i: nat, req: Message, server: int)
    requires i + 1 < |attempts| && c.current in {1, 2}
    ensures Touches(Switch(c, attempts[1].connects), attempts[1..], i, req, server)
      <==> Touches(c, attempts, i + 1, req, server)
  {
  }

  lemma TouchedFirst(c: Stub, attempts: seq<Attempt>, n: nat, req: Message, server: int)
    requires 0 < n <= |attempts| && c.current in {1, 2}
    ensures Touched(c, attempts, 1, req, server) <==> Touches(c, [attempts[0]], 0, req, server)
    ensures n > 1 ==>
      (Touched(c, attempts, n, req, server) <==>
        || Touched(c, attempts, 1, req, server)
        || Touched(Switch(c, attempts[1].connects), attempts[1..], n - 1, req, server))
  {
    hide Switch;
    assert Touches(c, [attempts[0]], 0, req, server) <==> Touches(c, attempts, 0, req, server) by {
      hide Passed;
    }
    hide Touches;
    if n > 1 {
      var d := Switch(c, attempts[1].connects);
      forall i | 0 <= i < n - 1
        ensures Touches(d, attempts[1..], i, req, server) <==> Touches(c, attempts, i + 1, req, server)
      {
        TouchesLater(c, attempts, i, req, server);
      }
      if Touched(c, attempts, n, req, server) {
        var i :| 0 <= i < n && Touches(c, attempts, i, req, server);
        assert i > 0 ==> Touches(d, attempts[1..], i - 1, req, server);
      }
      if Touched(d, attempts[1..], n - 1, req, server) {
        var i :| 0 <= i < n - 1 && Touches(d, attempts[1..], i, req, server);
        assert Touches(c, attempts, i + 1, req, server);
      }
    }
  }

  /** A whole retry: it stops at the first answered send `k`, or after the last; and either server has the request
    * applied exactly if one of the sends up to `k` was executed there, or at its peer which passed it on. */
  lemma {:induction false} RetryExact(c: Stub, p: Pair, req: Message, attempts: seq<Attempt>) returns (k: nat)
    requires Sane(p) && Serviceable(req) && IsTableRequest(req) && attempts != [] && c.current in {1, 2}
    ensures Ready(p) && k < |attempts|
    ensures forall i :: 0 <= i < k ==> !Reaches(c, attempts, i)
    ensures Reaches(c, attempts, k) || k == |attempts| - 1
    ensures var e := Retry(c, p, req, attempts).servers;
      && RowsMap(e.one.rows) == AppliedIf(Touched(c, attempts, k + 1, req, 1), RowsMap(p.one.rows), req)
      && RowsMap(e.two.rows) == AppliedIf(Touched(c, attempts, k + 1, req, 2), RowsMap(p.two.rows), req)
    decreases attempts
  {
    hide RowsMap, Serviceable, IsTableRequest, Sane, Send, Switch, Touches, Touched, ApplyMap;
    SendExact(c, p, req, attempts[0]);
    SendAnswers(c, p, req, attempts[0]);
    var (p', reply) := Send(c, p, req, attempts[0]);
    k := 0;
    TouchedFirst(c, attempts, 1, req, 1);
    TouchedFirst(c, attempts, 1, req, 2);
    if reply == None && |attempts| > 1 {
      SwitchTurns(c, attempts[1].connects);
      var k' := RetryExact(Switch(c, attempts[1].connects), p', req, attempts[1..]);
      k := k' + 1;
      ReachesLater(c, attempts, k);
      forall i | 0 <= i < k ensures !Reaches(c, attempts, i) {
        if i > 0 {
          ReachesLater(c, attempts, i);
        }
      }
      TouchedFirst(c, attempts, k + 1, req, 1);
      TouchedFirst(c, attempts, k + 1, req, 2);
      ApplyIdempotent(RowsMap(p.one.rows), req);
      ApplyIdempotent(RowsMap(p.two.rows), req);
    }
  }

  // ---- The remote table of the client ----

  class RTable {
    var currentServer: int
    var serverOne: bool
    var serverTwo: bool

    constructor (one: bool)
      ensures View() == Stub(SERVER_ONE, one, false)
    {
      currentServer, serverOne, serverTwo := SERVER_ONE, one, false;
    }

    function View(): Stub
      reads this
    {
      Stub(currentServer, serverOne, serverTwo)
    }

    /** `switch_server`. */
    method SwitchServer(connects: bool)
      modifies this
      ensures View() == Switch(old(View()), connects)
    {
      if currentServer == SERVER_ONE {
        currentServer := SERVER_TWO;
        serverTwo := connects;
      } else {
        currentServer := SERVER_ONE;
        serverOne := connects;
      }
    }

    /** `retry_servers`: one send, and up to three more after a switch each. */
    method RetryServers(servers: Pair, req: Message, attempts: seq<Attempt>)
      returns (reply: Option<Message>, servers': Pair)
      requires Ready(servers) && Serviceable(req) && |attempts| == SENDS
      modifies this
      ensures Retry(old(View()), servers, req, attempts) == Ending(View(), servers', reply)
    {
      hide Send, Switch;
      servers', reply := servers, None;
      ghost var goal := Retry(View(), servers, req, attempts);
      SendReady(View(), servers', req, attempts[0]);
      var r := Send(View(), servers', req, attempts[0]);
      servers', reply := r.0, r.1;
      if reply == None {
        SwitchServer(attempts[1].connects);
        assert goal == Retry(View(), servers', req, attempts[1..]);
        SendReady(View(), servers', req, attempts[1]);
        r := Send(View(), servers', req, attempts[1]);
        servers', reply := r.0, r.1;
        if reply == None {
          SwitchServer(attempts[2].connects);
          assert attempts[1..][1..] == attempts[2..];
          assert goal == Retry(View(), servers', req, attempts[2..]);
          SendReady(View(), servers', req, attempts[2]);
          r := Send(View(), servers', req, attempts[2]);
          servers', reply := r.0, r.1;
          if reply == None {
            SwitchServer(attempts[3].connects);
            assert attempts[2..][1..] == attempts[3..];
            assert goal == Retry(View(), servers', req, attempts[3..]);
            SendReady(View(), servers', req, attempts[3]);
            r := Send(View(), servers', req, attempts[3]);
            servers', reply := r.0, r.1;
          }
        }
      }
    }
  }
}
