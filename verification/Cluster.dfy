/** Two server processes, their clients and the network as a step machine.
  *
  * Process A runs `primary`, process B runs `secundary`. A process serves one request at a time; while it waits for
  * its backup's answer it does nothing else. A connection made to a process ends when that process ends, so the link
  * to the backup names the life (`epoch`) of the process it was made to. */
module Cluster {
  import opened Options
  import opened Rows
  import opened Messages
  import opened Skeleton
  import opened Remote
  import opened Servers

  datatype Id = A | B

  /** Who asked for the request a process is busy with. */
  datatype Origin = FromClient | FromPeer

  datatype Phase = Idle | Waiting(req: Message, origin: Origin, answered: bool)

  /** One life of a server. `inbox`: forwarded requests not yet read. `pending`: a connection of the peer has ended and
    * the poll loop has not seen it yet; it may see it before or after it reads requests on its other connections.
    * The last three are history: the effective mutations applied since the table was empty (a join copies the peer's),
    * whether the log takes part in the acknowledged history, and whether no client has changed this process since it
    * was linked. */
  datatype Process = Process(
    epoch: nat, replica: Replica, phase: Phase, inbox: seq<Message>, pending: bool,
    log: seq<Message>, insync: bool, clean: bool)

  datatype Node = Stopped | Running(p: Process)

  /** `acked`: the mutations answered to a client while the link was up, for as long as some replica that was in
    * step with them keeps running. */
  datatype System = System(a: Node, b: Node, sizeA: nat, sizeB: nat, next: nat, acked: seq<Message>)

  /** `sent`: whether what the process was forwarding, if anything, had left before it died. `Drop`: a forwarded
    * request arrives in a way the server does not accept, such as a body in two chunks, and it closes the
    * connection. */
  datatype Step =
    | Start(id: Id, known: bool)
    | Crash(id: Id, sent: bool)
    | Client(id: Id, req: Message)
    | Take(id: Id)
    | Drop(id: Id)
    | Finish(id: Id)
    | GiveUp(id: Id)
    | PeerGone(id: Id)
    | ClientGone(id: Id)

  function Other(id: Id): Id {
    if id == A then B else A
  }

  function At(s: System, id: Id): Node {
    if id == A then s.a else s.b
  }

  function Size(s: System, id: Id): nat {
    if id == A then s.sizeA else s.sizeB
  }

  function With(s: System, id: Id, me: Node, other: Node): System {
    if id == A then s.(a := me, b := other) else s.(a := other, b := me)
  }

  predicate LinkedTo(me: Node, other: Node) {
    me.Running? && other.Running? && me.p.replica.backup == Some(other.p.epoch)
  }

  predicate Leads(n: Node) {
    n.Running? && n.p.replica.status == PRIMARY && n.p.replica.state == UP
  }

  /** The process waits for an answer that its backup has not given. */
  predicate Lagging(n: Node) {
    n.Running? && n.p.phase.Waiting? && !n.p.phase.answered
  }

  const UP_REQUEST: Message := Message(OC_UP, KeyName([]))

  // ---- What a process does with a request ----

  /** The log of a process that applied `req`. */
  function Logged(p: Process, req: Message): seq<Message>
    requires Serviceable(req)
  {
    if Effective(RowsMap(p.replica.rows), req) then p.log + [req] else p.log
  }

  /** The process after it applied `req`: busy if the request has to go on to its backup. */
  function Work(p: Process, req: Message, origin: Origin): Process
    requires p.replica.rows != [] && Serviceable(req)
  {
    var r := Begin(p.replica, req, None).0;
    p.(replica := r,
       log := Logged(p, req),
       clean := p.clean && !(origin == FromClient && Effective(RowsMap(p.replica.rows), req)),
       phase := if Forwards(r, req) then Waiting(req, origin, false) else Idle)
  }

  /** The peer after that: a forwarded request is in its inbox if the link is alive. */
  function Sent(me: Process, req: Message, other: Node): Node {
    if me.phase.Waiting? && LinkedTo(Running(me), other) then
      Running(other.p.(inbox := other.p.inbox + [req]))
    else other
  }

  /** An answer reaches a peer that still waits for it on a live link. */
  function Notify(me: Process, other: Node): Node {
    if LinkedTo(other, Running(me)) && other.p.phase.Waiting? then
      Running(other.p.(phase := other.p.phase.(answered := true)))
    else other
  }

  /** The peer of a process that died: what had not left is not read, and a link ends. */
  function Bereaved(me: Process, other: Node, sent: bool): Node {
    if !LinkedTo(Running(me), other) then other else
      var unsent := !sent && Lagging(Running(me)) && other.p.inbox != [];
      Running(other.p.(
        pending := true,
        inbox := if unsent then other.p.inbox[..|other.p.inbox| - 1] else other.p.inbox))
  }

  function Promote(p: Process): Process {
    p.(replica := Disconnected(p.replica))
  }

  // ---- Starting ----

  function Peer(other: Node): Option<Replica> {
    if other.Running? then Some(other.p.replica) else None
  }

  predicate Sound(n: Node) {
    n.Running? ==> n.p.replica.rows != []
  }

  /** The replica a starting process ends its handshake with. */
  function Launch(s: System, id: Id, known: bool): Option<Replica>
    requires Size(s, id) > 0 && Sound(At(s, Other(id)))
  {
    var other := At(s, Other(id));
    if id == A then PrimaryStart(EmptyRows(s.sizeA), Peer(other), if other.Running? then other.p.epoch else 0)
    else SecundaryStart(EmptyRows(s.sizeB), if known then Peer(other) else None)
  }

  predicate Joins(s: System, id: Id, known: bool) {
    var other := At(s, Other(id));
    other.Running? && (if id == A then other.p.replica.status == PRIMARY else known)
  }

  /** The peer answers a handshake between two requests; its table can be listed. */
  predicate Quiet(n: Node) {
    n.Running? ==> n.p.phase == Idle && Countable(n.p.replica.rows)
  }

  function Started(s: System, id: Id, known: bool): System
    requires Size(s, id) > 0 && Sound(At(s, Other(id))) && Launch(s, id, known).Some?
  {
    var other, r := At(s, Other(id)), Launch(s, id, known).value;
    var me := Process(s.next, r, Idle, [], false, [], false, true);
    var s' := s.(next := s.next + 1);
    if Joins(s, id, known) then
      With(s', id,
           Running(me.(log := other.p.log, insync := true)),
           Running(other.p.(replica := Begin(other.p.replica, UP_REQUEST, Some(s.next)).0, insync := true)))
    else if id == A && other.Running? then
      With(s', id,
           Running(me.(log := if RowsMap(other.p.replica.rows) == map[] then other.p.log else [], insync := true)),
           Running(other.p.(pending := true, insync := true, clean := true)))
    else
      With(s', id, Running(me.(insync := id == A)), other)
  }

  // ---- The machine ----

  predicate Enabled(s: System, step: Step) {
    match step
    case Start(id, known) =>
      && At(s, id).Stopped? && Size(s, id) > 0 && Sound(At(s, Other(id))) && Quiet(At(s, Other(id)))
      && Launch(s, id, known).Some?
    case Crash(id, _) => At(s, id).Running?
    case Client(id, req) =>
      && At(s, id).Running? && At(s, id).p.phase == Idle && At(s, id).p.replica.rows != []
      && Sendable(req) && IsTableRequest(req)
    case Take(id) =>
      && At(s, id).Running? && At(s, id).p.phase == Idle && At(s, id).p.replica.rows != []
      && At(s, id).p.inbox != [] && Serviceable(At(s, id).p.inbox[0])
    case Drop(id) => At(s, id).Running? && At(s, id).p.phase == Idle && At(s, id).p.inbox != []
    case Finish(id) => At(s, id).Running? && At(s, id).p.phase.Waiting? && At(s, id).p.phase.answered
    case GiveUp(id) => At(s, id).Running? && At(s, id).p.phase.Waiting?
    case PeerGone(id) => At(s, id).Running? && At(s, id).p.phase == Idle && At(s, id).p.pending
    case ClientGone(id) => At(s, id).Running? && At(s, id).p.phase == Idle
  }

  function Next(s: System, step: Step): System
    requires Enabled(s, step)
  {
    var me, other := At(s, step.id), At(s, Other(step.id));
    match step
    case Start(id, known) => Started(s, id, known)
    case Crash(id, sent) =>
      var heard := if other.Running? && other.p.insync then s.acked else [];
      With(s, id, Stopped, Bereaved(me.p, other, sent)).(acked := heard)
    case Client(id, req) =>
      var p := Work(me.p, req, FromClient);
      With(s, id, Running(p), Sent(p, req, other))
    case Take(id) =>
      var req := me.p.inbox[0];
      var p := Work(me.p.(inbox := me.p.inbox[1..]), req, FromPeer);
      With(s, id, Running(p), if p.phase.Waiting? then Sent(p, req, other) else Notify(p, other))
    case Drop(id) => With(s, id, Running(Promote(me.p.(inbox := me.p.inbox[1..]))), other)
    case Finish(id) =>
      var p := me.p.(phase := Idle);
      if me.p.phase.origin == FromPeer then With(s, id, Running(p), Notify(p, other))
      else With(s, id, Running(p), other).(acked := if p.insync then p.log else s.acked)
    case GiveUp(id) =>
      var p := me.p.(phase := Idle, replica := Answered(me.p.replica, false));
      if me.p.phase.origin == FromPeer then With(s, id, Running(p), Notify(p, other))
      else With(s, id, Running(p), other)
    case PeerGone(id) => With(s, id, Running(Promote(me.p.(pending := false))), other)
    case ClientGone(id) => With(s, id, Running(Promote(me.p)), other)
  }

  predicate Init(s: System) {
    s.a == Stopped && s.b == Stopped && s.sizeA > 0 && s.sizeB > 0 && s.acked == []
  }

  predicate Run(s: System, steps: seq<Step>)
    decreases steps
  {
    steps == [] || (Enabled(s, steps[0]) && Run(Next(s, steps[0]), steps[1..]))
  }

  function Final(s: System, steps: seq<Step>): System
    requires Run(s, steps)
    decreases steps
  {
    if steps == [] then s else Final(Next(s, steps[0]), steps[1..])
  }

  lemma ThreeSteps(s: System, x: Step, y: Step, z: Step)
    requires Enabled(s, x) && Enabled(Next(s, x), y) && Enabled(Next(Next(s, x), y), z)
    ensures Run(s, [x, y, z]) && Final(s, [x, y, z]) == Next(Next(Next(s, x), y), z)
  {
    hide Enabled, Next;
    var t, u := Next(s, x), Next(Next(s, x), y);
    assert [x, y, z][1..] == [y, z] && [y, z][1..] == [z] && [z][1..] == [];
    assert Run(Next(u, z), []) && Final(Next(u, z), []) == Next(u, z);
    assert Run(u, [z]) && Final(u, [z]) == Next(u, z);
    assert Run(t, [y, z]) && Final(t, [y, z]) == Next(u, z);
  }

  // ---- Properties of whole runs ----

  /** Every state of the run, the first and the last included, satisfies `p`. */
  ghost predicate Always(p: System -> bool, s: System, steps: seq<Step>)
    requires Run(s, steps)
    decreases steps
  {
    p(s) && (steps == [] || Always(p, Next(s, steps[0]), steps[1..]))
  }

  /** Every step of the run satisfies `q` in the state it is taken in. */
  ghost predicate Each(q: (System, Step) -> bool, s: System, steps: seq<Step>)
    requires Run(s, steps)
    decreases steps
  {
    steps == [] || (q(s, steps[0]) && Each(q, Next(s, steps[0]), steps[1..]))
  }

  /** Where a single step keeps `p` exactly if it satisfies `q`, a run does. */
  lemma {:induction false} AlwaysIff(
    inv: System -> bool, p: System -> bool, q: (System, Step) -> bool, s: System, steps: seq<Step>)
    requires Run(s, steps) && inv(s) && p(s)
    requires forall t, step :: inv(t) && Enabled(t, step) ==> inv(Next(t, step))
    requires forall t, step :: inv(t) && p(t) && Enabled(t, step) ==> (p(Next(t, step)) <==> q(t, step))
    ensures Always(p, s, steps) <==> Each(q, s, steps)
    decreases steps
  {
    hide Enabled, Next;
    if steps != [] && q(s, steps[0]) {
      AlwaysIff(inv, p, q, Next(s, steps[0]), steps[1..]);
    }
  }

  lemma {:induction false} AlwaysWeaker(p: System -> bool, q: System -> bool, s: System, steps: seq<Step>)
    requires Run(s, steps) && Always(p, s, steps) && forall t :: p(t) ==> q(t)
    ensures Always(q, s, steps)
    decreases steps
  {
    hide Enabled, Next;
    if steps != [] {
      AlwaysWeaker(p, q, Next(s, steps[0]), steps[1..]);
    }
  }

  // ---- Meaning of a log ----

  function Replay(log: seq<Message>): Map
    requires forall i :: 0 <= i < |log| ==> Serviceable(log[i])
  {
    if log == [] then map[] else ApplyMap(Replay(log[..|log| - 1]), log[|log| - 1])
  }

  /** The machine's two halves of a request, work and its end, are `network_receive_send` cut at the forward. */
  lemma WorkIsServe(p: Process, req: Message, origin: Origin, answer: bool)
    requires p.replica.rows != [] && Serviceable(req) && req.opcode != OC_UP
    ensures var q := Work(p, req, origin);
      Serve(p.replica, req, None, answer).0 == if q.phase.Waiting? then Answered(q.replica, answer) else q.replica
  {
  }
}
