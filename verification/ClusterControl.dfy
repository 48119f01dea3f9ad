/** Roles and links over every run: who may lead, and how far a mutation travels. */
module ClusterControl {
  import opened Options
  import opened Rows
  import opened Messages
  import opened Skeleton
  import opened Remote
  import opened StateTransfer
  import opened Servers
  import opened Cluster

  /** What holds of one process in view of the other node. */
  ghost predicate Orderly(p: Process, other: Node, next: nat) {
    var r := p.replica;
    && r.rows != [] && p.epoch < next && (r.backup.Some? ==> r.backup.value < next)
    && (r.status == PRIMARY || r.status == SECUNDARY) && (r.state == UP || r.state == DOWN)
    && (r.status == SECUNDARY ==> r.state == UP)
    // Only a leader waits for a backup.
    && (p.phase.Waiting? ==> Leads(Running(p)) && Sendable(p.phase.req) && IsMutation(p.phase.req))
    && (forall i :: 0 <= i < |p.inbox| ==> Sendable(p.inbox[i]) && IsMutation(p.inbox[i]))
    // At most one of the two leads.
    && !(Leads(Running(p)) && Leads(other))
    && (other.Running? ==> other.p.epoch != p.epoch)
  }

  ghost predicate Control(s: System) {
    && s.sizeA > 0 && s.sizeB > 0
    && (s.a.Running? ==> Orderly(s.a.p, s.b, s.next))
    && (s.b.Running? ==> Orderly(s.b.p, s.a, s.next))
  }

  lemma OrderlyAt(s: System, id: Id)
    requires Control(s) && At(s, id).Running?
    ensures Orderly(At(s, id).p, At(s, Other(id)), s.next)
  {
    assert id == A || id == B;
  }

  lemma BeginFacts(r: Replica, req: Message, c: Option<nat>)
    requires r.rows != [] && Serviceable(req)
    ensures var r' := Begin(r, req, c).0;
      && r'.rows != [] && r'.status == r.status
      && (req.opcode != OC_UP ==> r'.state == r.state && r'.backup == r.backup)
      && (req.opcode == OC_UP && c.Some? ==> r'.state == UP && r'.backup == c && r'.rows == r.rows)
  {
    InvokeKeepsSize(r.rows, req);
  }

  lemma LaunchFacts(s: System, id: Id, known: bool)
    requires Size(s, id) > 0 && Sound(At(s, Other(id))) && Launch(s, id, known).Some?
    ensures var r, other := Launch(s, id, known).value, At(s, Other(id));
      && r.state == UP
      && r.status == (if id == A && !Joins(s, id, known) then PRIMARY else SECUNDARY)
      && r.backup == (if id == A && !Joins(s, id, known) && other.Running? then Some(other.p.epoch) else None)
  {
    hide Transfer, Begin;
    var other := At(s, Other(id));
    if other.Running? {
      AskStatusIs(other.p.replica);
    }
  }

  lemma StartKeeps(s: System, id: Id, known: bool)
    requires Control(s) && Enabled(s, Start(id, known))
    requires Launch(s, id, known).value.rows != []
    ensures Control(Next(s, Start(id, known)))
  {
    hide Begin, Launch, Sendable, Transfer, Countable;
    LaunchFacts(s, id, known);
    var other := At(s, Other(id));
    if other.Running? {
      BeginFacts(other.p.replica, UP_REQUEST, Some(s.next));
    }
  }

  lemma LaunchRows(s: System, id: Id, known: bool)
    requires Size(s, id) > 0 && Sound(At(s, Other(id))) && Launch(s, id, known).Some?
    ensures Launch(s, id, known).value.rows != []
  {
    var other := At(s, Other(id));
    var dest := EmptyRows(Size(s, id));
    if other.Running? {
      TransferKeepsSize(other.p.replica.rows, dest);
    }
  }

  lemma TransferKeepsSize(source: Rows, dest: Rows)
    requires source != [] && dest != []
    ensures Transfer(source, dest).Some? ==> |Transfer(source, dest).value| == |dest|
  {
    hide Invoke, Encode, Decode;
    var c := Call(source, KEYS_REQUEST).1;
    if c.Some? && c.value.content.KeyList? {
      GetEachKeepsSize(source, c.value.content.keys, dest);
    }
  }

  lemma {:induction false} GetEachKeepsSize(source: Rows, keys: seq<Key>, dest: Rows)
    requires source != [] && dest != []
    ensures GetEach(source, keys, dest).Some? ==> |GetEach(source, keys, dest).value| == |dest|
    decreases keys
  {
    hide Call, Invoke;
    if keys != [] && GetEach(source, keys, dest).Some? {
      GetEachStep(source, keys, dest);
      var put := PutRequest(keys[0], Call(source, GetRequest(keys[0])).1.value.content.data);
      InvokeKeepsSize(dest, put);
      GetEachKeepsSize(source, keys[1..], Invoke(dest, put).0);
    }
  }

  /** `p` is `me` after it applied `req`: a leader's mutation is on its way to the backup. */
  ghost predicate Worked(me: Process, p: Process, req: Message, origin: Origin)
    requires Serviceable(req)
  {
    && p == me.(replica := p.replica, log := Logged(me, req),
                clean := me.clean && !(origin == FromClient && Effective(RowsMap(me.replica.rows), req)),
                phase := if IsMutation(req) && Leads(Running(me)) then Waiting(req, origin, false) else Idle)
    && p.replica == me.replica.(rows := p.replica.rows)
    && p.replica.rows != []
  }

  lemma WorkShape(me: Process, req: Message, origin: Origin)
    requires me.replica.rows != [] && Serviceable(req) && req.opcode != OC_UP
    ensures Worked(me, Work(me, req, origin), req, origin)
  {
    hide Begin, RowsMap, Logged, Effective;
    BeginFacts(me.replica, req, None);
  }

  lemma ClientShape(s: System, id: Id, req: Message) returns (p: Process)
    requires Enabled(s, Client(id, req))
    ensures Serviceable(req) && p == Work(At(s, id).p, req, FromClient) && Worked(At(s, id).p, p, req, FromClient)
    ensures Next(s, Client(id, req)) == With(s, id, Running(p), Sent(p, req, At(s, Other(id))))
  {
    hide Sendable, Work, Worked, Serviceable;
    SendableIsServiceable(req);
    WorkShape(At(s, id).p, req, FromClient);
    p := Work(At(s, id).p, req, FromClient);
  }

  lemma ClientKeeps(s: System, id: Id, req: Message)
    requires Control(s) && Enabled(s, Client(id, req))
    ensures Control(Next(s, Client(id, req)))
  {
    hide Work, Sendable, Next, Serviceable, Effective, RowsMap, Logged;
    var _ := ClientShape(s, id, req);
  }

  lemma TakeShape(s: System, id: Id) returns (p: Process)
    requires Control(s) && Enabled(s, Take(id))
    ensures var me, other := At(s, id).p, At(s, Other(id));
      && p == Work(me.(inbox := me.inbox[1..]), me.inbox[0], FromPeer)
      && Worked(me.(inbox := me.inbox[1..]), p, me.inbox[0], FromPeer)
      && Next(s, Take(id)) ==
         With(s, id, Running(p), if p.phase.Waiting? then Sent(p, me.inbox[0], other) else Notify(p, other))
  {
    hide Sendable, Work, Worked, Serviceable;
    var me := At(s, id).p;
    OrderlyAt(s, id);
    WorkShape(me.(inbox := me.inbox[1..]), me.inbox[0], FromPeer);
    p := Work(me.(inbox := me.inbox[1..]), me.inbox[0], FromPeer);
  }

  lemma TakeKeeps(s: System, id: Id)
    requires Control(s) && Enabled(s, Take(id))
    ensures Control(Next(s, Take(id)))
  {
    hide Work, Sendable, Next, Serviceable, Effective, RowsMap, Logged;
    var _ := TakeShape(s, id);
  }

  lemma CrashKeeps(s: System, id: Id, sent: bool)
    requires Control(s) && Enabled(s, Crash(id, sent))
    ensures Control(Next(s, Crash(id, sent)))
  {
    hide Sendable;
  }

  /** The steps that apply no request and start no server. */
  predicate Quieter(step: Step) {
    !step.Start? && !step.Client? && !step.Take?
  }

  /** `q` is `p` after a step that applied nothing: the same rows, link and history, nothing new under way. */
  ghost predicate Rested(p: Process, q: Process) {
    && q == p.(replica := q.replica, phase := q.phase, inbox := q.inbox, pending := q.pending)
    && q.replica == p.replica.(status := q.replica.status, state := q.replica.state)
    && (q.phase.Waiting? ==> p.phase.Waiting? && q.phase == p.phase.(answered := q.phase.answered))
    && (forall req :: req in q.inbox ==> req in p.inbox)
  }

  lemma PeerRests(me: Process, other: Node, sent: bool)
    ensures Notify(me, other).Running? ==> other.Running? && Rested(other.p, Notify(me, other).p)
    ensures Bereaved(me, other, sent).Running? ==> other.Running? && Rested(other.p, Bereaved(me, other, sent).p)
    ensures other.Running? ==> Rested(other.p, other.p)
  {
  }

  /** The end of a connection was seen, or a request was dropped. */
  ghost predicate PromotedFrom(p: Process, q: Process) {
    && q == Promote(p.(pending := q.pending, inbox := q.inbox))
    && (q.inbox == p.inbox || (p.inbox != [] && q.inbox == p.inbox[1..]))
  }

  lemma PromoteRests(p: Process, q: Process)
    requires PromotedFrom(p, q)
    ensures Rested(p, q)
  {
  }

  lemma ReplyRests(p: Process)
    ensures Rested(p, p.(phase := Idle)) && Rested(p, p.(phase := Idle, replica := Answered(p.replica, false)))
  {
  }

  lemma QuietShape(s: System, step: Step, id: Id)
    requires Enabled(s, step) && Quieter(step) && At(Next(s, step), id).Running?
    ensures At(s, id).Running? && Rested(At(s, id).p, At(Next(s, step), id).p)
  {
    hide Next, Enabled, Notify, Bereaved, Rested, Answered, PromotedFrom;
    var me, other := QuietNext(s, step);
    var q := me.(phase := Idle);
    ReplyRests(me);
    PeerRests(q, other, false);
    PeerRests(q.(replica := Answered(me.replica, false)), other, false);
    PeerRests(me, other, step.Crash? && step.sent);
    if id == step.id && !step.Crash? && !step.Finish? && !step.GiveUp? {
      PromoteRests(me, At(Next(s, step), id).p);
    }
    assert id == step.id || id == Other(step.id);
  }

  /** Both nodes after such a step. */
  lemma QuietNext(s: System, step: Step) returns (me: Process, other: Node)
    requires Enabled(s, step) && Quieter(step)
    ensures At(s, step.id) == Running(me) && At(s, Other(step.id)) == other
    ensures var n, o, q := At(Next(s, step), step.id), At(Next(s, step), Other(step.id)), me.(phase := Idle);
      match step
      case Crash(_, sent) => n == Stopped && o == Bereaved(me, other, sent)
      case Finish(_) => n == Running(q) && (o == other || o == Notify(q, other))
      case GiveUp(_) =>
        var r := q.(replica := Answered(me.replica, false));
        n == Running(r) && (o == other || o == Notify(r, other))
      case _ =>
        o == other && n.Running? && PromotedFrom(me, n.p)
  {
    hide Sendable, Serviceable, RowsMap, Notify, Bereaved, Answered, Disconnected;
    me, other := At(s, step.id).p, At(s, Other(step.id));
  }

  /** The end of a request or of a connection: nothing under way, the same rows and link, a lead at most given up. */
  lemma RelaxedKeeps(p: Process, q: Process, other: Node, next: nat)
    requires Orderly(p, other, next) && (other.Running? ==> Orderly(other.p, Running(p), next))
    requires q.epoch == p.epoch && (forall req :: req in q.inbox ==> req in p.inbox) && q.phase == Idle
    requires q.replica.rows == p.replica.rows && q.replica.backup == p.replica.backup
    requires q.replica == p.replica || (q.replica.status == PRIMARY && q.replica.state == DOWN)
    ensures Orderly(q, other, next) && (other.Running? ==> Orderly(other.p, Running(q), next))
    ensures Orderly(q, Notify(q, other), next)
    ensures other.Running? ==> Notify(q, other).Running? && Orderly(Notify(q, other).p, Running(q), next)
  {
    hide Sendable;
    forall i | 0 <= i < |q.inbox| ensures Sendable(q.inbox[i]) && IsMutation(q.inbox[i]) {
      assert q.inbox[i] in p.inbox;
    }
  }

  lemma FinishKeeps(s: System, id: Id)
    requires Control(s) && Enabled(s, Finish(id))
    ensures Control(Next(s, Finish(id)))
  {
    hide Sendable, Orderly;
    RelaxedKeeps(At(s, id).p, At(s, id).p.(phase := Idle), At(s, Other(id)), s.next);
  }

  lemma GiveUpKeeps(s: System, id: Id)
    requires Control(s) && Enabled(s, GiveUp(id))
    ensures Control(Next(s, GiveUp(id)))
  {
    hide Sendable, Orderly;
    var p := At(s, id).p;
    WaiterLeads(s, id);
    RelaxedKeeps(p, p.(phase := Idle, replica := Answered(p.replica, false)), At(s, Other(id)), s.next);
  }

  lemma WaiterLeads(s: System, id: Id)
    requires Control(s) && At(s, id).Running? && At(s, id).p.phase.Waiting?
    ensures Leads(At(s, id))
  {
    hide Sendable;
    OrderlyAt(s, id);
  }

  lemma LeadsIfWaiting(s: System, id: Id)
    requires Control(s) && At(s, id).Running?
    ensures At(s, id).p.phase.Waiting? ==> Leads(At(s, id))
  {
    if At(s, id).p.phase.Waiting? {
      WaiterLeads(s, id);
    }
  }

  lemma OtherAside(s: System, id: Id)
    requires Control(s) && At(s, id).Running? && Leads(At(s, id))
    ensures !Leads(At(s, Other(id)))
  {
    OrderlyAt(s, id);
  }

  lemma NotWaiting(s: System, id: Id)
    requires Control(s) && !Leads(At(s, id))
    ensures At(s, id).Running? ==> At(s, id).p.phase == Idle
  {
    if At(s, id).Running? {
      LeadsIfWaiting(s, id);
    }
  }

  lemma GoneKeeps(s: System, step: Step)
    requires Control(s) && Enabled(s, step) && (step.PeerGone? || step.ClientGone?)
    ensures Control(Next(s, step))
  {
    hide Sendable, Orderly;
    var p := At(s, step.id).p;
    RelaxedKeeps(p, Promote(p.(pending := if step.PeerGone? then false else p.pending)), At(s, Other(step.id)), s.next);
  }

  lemma DropKeeps(s: System, id: Id)
    requires Control(s) && Enabled(s, Drop(id))
    ensures Control(Next(s, Drop(id)))
  {
    hide Sendable, Orderly;
    var p := At(s, id).p;
    RelaxedKeeps(p, Promote(p.(inbox := p.inbox[1..])), At(s, Other(id)), s.next);
  }

  lemma StepKeeps(s: System, step: Step)
    requires Control(s) && Enabled(s, step)
    ensures Control(Next(s, step))
  {
    hide Control, Enabled, Next;
    match step
    case Start(id, known) =>
      StartRows(s, id, known);
      StartKeeps(s, id, known);
    case Client(id, req) => ClientKeeps(s, id, req);
    case Take(id) => TakeKeeps(s, id);
    case Crash(id, sent) => CrashKeeps(s, id, sent);
    case Drop(id) => DropKeeps(s, id);
    case Finish(id) => FinishKeeps(s, id);
    case GiveUp(id) => GiveUpKeeps(s, id);
    case PeerGone(_) => GoneKeeps(s, step);
    case ClientGone(_) => GoneKeeps(s, step);
  }

  lemma StartRows(s: System, id: Id, known: bool)
    requires Enabled(s, Start(id, known))
    ensures Launch(s, id, known).value.rows != []
  {
    LaunchRows(s, id, known);
  }

  lemma {:induction false} RunKeeps(s: System, steps: seq<Step>)
    requires Control(s) && Run(s, steps)
    ensures Control(Final(s, steps))
    decreases steps
  {
    if steps != [] {
      StepKeeps(s, steps[0]);
      RunKeeps(Next(s, steps[0]), steps[1..]);
    }
  }

  /** In every run of starts, crashes, requests, lost answers and disconnects: never two leaders, only a leader waits
    * for a backup, and a secundary is up and has nothing under way. */
  lemma NeverTwoLeaders(s: System, steps: seq<Step>, id: Id)
    requires Init(s) && Run(s, steps)
    ensures var t := Final(s, steps);
      && !(Leads(t.a) && Leads(t.b))
      && (At(t, id).Running? ==>
          && (At(t, id).p.phase.Waiting? ==> Leads(At(t, id)))
          && (At(t, id).p.replica.status == SECUNDARY ==> At(t, id).p.replica.state == UP && At(t, id).p.phase == Idle)
          && (At(t, id).p.replica.status == PRIMARY || At(t, id).p.replica.status == SECUNDARY))
  {
    RunKeeps(s, steps);
    var t := Final(s, steps);
    if At(t, id).Running? {
      OrderlyAt(t, id);
    }
  }

  // ---- How far a mutation travels ----

  /** No process passes on what its peer forwarded to it. */
  ghost predicate NoSecondHop(s: System) {
    && (s.a.Running? && s.a.p.phase.Waiting? ==> s.a.p.phase.origin == FromClient)
    && (s.b.Running? && s.b.p.phase.Waiting? ==> s.b.p.phase.origin == FromClient)
  }

  /** A leader reads a forwarded request. */
  predicate LeaderTakes(s: System, step: Step) {
    step.Take? && Leads(At(s, step.id))
  }

  lemma SecondHopStep(s: System, step: Step)
    requires Control(s) && NoSecondHop(s) && Enabled(s, step)
    ensures NoSecondHop(Next(s, step)) <==> !LeaderTakes(s, step)
  {
    hide Control, Sendable, Launch, Begin, Countable, Transfer, Work, RowsMap, Serviceable;
    match step
    case Client(id, req) =>
      hide Next, Effective, Logged;
      var _ := ClientShape(s, id, req);
    case Take(id) =>
      hide Next, Effective, Logged;
      var _ := TakeShape(s, id);
      ReadsMutation(s, id);
    case _ =>
  }

  lemma ReadsMutation(s: System, id: Id)
    requires Control(s) && At(s, id).Running? && At(s, id).p.inbox != []
    ensures IsMutation(At(s, id).p.inbox[0]) && Sendable(At(s, id).p.inbox[0])
  {
    hide Sendable;
    OrderlyAt(s, id);
  }

  /** A mutation travels one hop at most throughout a run exactly if no leader ever reads a forwarded request. */
  lemma SecondHopIff(s: System, steps: seq<Step>)
    requires Init(s) && Run(s, steps)
    ensures Always(NoSecondHop, s, steps) <==> Each((t, step) => !LeaderTakes(t, step), s, steps)
  {
    hide Control, NoSecondHop, Enabled, Next, LeaderTakes;
    InitKept(s);
    forall t, step | Control(t) && Enabled(t, step) ensures Control(Next(t, step)) {
      StepKeeps(t, step);
    }
    forall t, step | Control(t) && NoSecondHop(t) && Enabled(t, step)
      ensures NoSecondHop(Next(t, step)) <==> !LeaderTakes(t, step)
    {
      SecondHopStep(t, step);
    }
    AlwaysIff(Control, NoSecondHop, (t, step) => !LeaderTakes(t, step), s, steps);
  }

  /** Only clients' mutations are forwarded, and no leader has a forwarded request to read. */
  ghost predicate OneHop(s: System) {
    && (s.a.Running? ==> Hop(s.a.p))
    && (s.b.Running? ==> Hop(s.b.p))
  }

  ghost predicate Hop(p: Process) {
    (p.phase.Waiting? ==> p.phase.origin == FromClient) && (p.inbox != [] ==> !Leads(Running(p)))
  }

  /** A server joins a primary that has yet to read what this server's previous life forwarded. */
  predicate BacklogJoin(s: System, step: Step) {
    && step.Start? && Joins(s, step.id, step.known)
    && var other := At(s, Other(step.id)); other.p.replica.status == PRIMARY && other.p.inbox != []
  }

  lemma OneHopStep(s: System, step: Step)
    requires Control(s) && OneHop(s) && Enabled(s, step)
    ensures OneHop(Next(s, step)) <==> !BacklogJoin(s, step)
  {
    hide Control, OneHop, Enabled, Next;
    match step
    case Start(id, known) => OneHopStart(s, id, known);
    case Client(id, req) => OneHopClient(s, id, req);
    case Take(id) => OneHopTake(s, id);
    case _ => OneHopQuiet(s, step);
  }

  lemma OneHopClient(s: System, id: Id, req: Message)
    requires Control(s) && OneHop(s) && Enabled(s, Client(id, req))
    ensures OneHop(Next(s, Client(id, req)))
  {
    hide Sendable, Serviceable, Effective, RowsMap, Logged, Next, Work;
    OrderlyAt(s, id);
    var _ := ClientShape(s, id, req);
  }

  lemma OneHopTake(s: System, id: Id)
    requires Control(s) && OneHop(s) && Enabled(s, Take(id))
    ensures OneHop(Next(s, Take(id)))
  {
    hide Sendable, Serviceable, Effective, RowsMap, Logged, Next, Work, Control;
    var _ := TakeShape(s, id);
  }

  lemma OneHopQuiet(s: System, step: Step)
    requires OneHop(s) && Enabled(s, step) && Quieter(step)
    ensures OneHop(Next(s, step))
  {
    hide Sendable, Serviceable, RowsMap;
  }

  lemma OneHopStart(s: System, id: Id, known: bool)
    requires Control(s) && OneHop(s) && Enabled(s, Start(id, known))
    ensures OneHop(Next(s, Start(id, known))) <==> !BacklogJoin(s, Start(id, known))
  {
    hide Sendable, Launch, Begin, Countable, RowsMap;
    LaunchFacts(s, id, known);
    if At(s, Other(id)).Running? {
      BeginFacts(At(s, Other(id)).p.replica, UP_REQUEST, Some(s.next));
    }
  }

  /** Leaders have nothing to read throughout a run exactly if no server joins a primary that still has something to
    * read from that server's previous life. */
  lemma OneHopIff(s: System, steps: seq<Step>)
    requires Init(s) && Run(s, steps)
    ensures Always(OneHop, s, steps) <==> Each((t, step) => !BacklogJoin(t, step), s, steps)
  {
    hide Control, OneHop, Enabled, Next, BacklogJoin;
    InitKept(s);
    forall t, step | Control(t) && Enabled(t, step) ensures Control(Next(t, step)) {
      StepKeeps(t, step);
    }
    forall t, step | Control(t) && OneHop(t) && Enabled(t, step)
      ensures OneHop(Next(t, step)) <==> !BacklogJoin(t, step)
    {
      OneHopStep(t, step);
    }
    AlwaysIff(Control, OneHop, (t, step) => !BacklogJoin(t, step), s, steps);
  }

  lemma InitKept(s: System)
    requires Init(s)
    ensures Control(s) && OneHop(s) && NoSecondHop(s) && AtMostOnePrimary(s)
  {
  }

  /** What keeps mutations from a second hop: that no server joins a primary that has yet to read what that server's
    * previous life forwarded. */
  lemma NoBacklogNoSecondHop(s: System, steps: seq<Step>)
    requires Init(s) && Run(s, steps) && Each((t, step) => !BacklogJoin(t, step), s, steps)
    ensures Always(NoSecondHop, s, steps)
  {
    hide OneHop, NoSecondHop, BacklogJoin, Run, Init;
    OneHopIff(s, steps);
    forall t | OneHop(t) ensures NoSecondHop(t) {
      HopIsOne(t);
    }
    AlwaysWeaker(OneHop, NoSecondHop, s, steps);
  }

  lemma HopIsOne(s: System)
    requires OneHop(s)
    ensures NoSecondHop(s)
  {
  }

  /** Where mutations travel one hop only, reading a forwarded request applies it and answers it. */
  lemma TakeAnswers(s: System, id: Id) returns (p: Process)
    requires Control(s) && OneHop(s) && Enabled(s, Take(id))
    ensures var me := At(s, id).p;
      && p == me.(replica := p.replica, log := Logged(me, me.inbox[0]), inbox := me.inbox[1..])
      && p.replica == me.replica.(rows := p.replica.rows) && p.replica.rows != []
      && Next(s, Take(id)) == With(s, id, Running(p), Notify(p, At(s, Other(id))))
  {
    hide Sendable, Work, Serviceable, Logged, Next;
    p := TakeShape(s, id);
    assert Logged(At(s, id).p.(inbox := At(s, id).p.inbox[1..]), At(s, id).p.inbox[0]) ==
      Logged(At(s, id).p, At(s, id).p.inbox[0]) by { LoggedBefore(At(s, id).p); }
  }

  lemma LoggedBefore(p: Process)
    requires p.inbox != [] && Serviceable(p.inbox[0])
    ensures Logged(p.(inbox := p.inbox[1..]), p.inbox[0]) == Logged(p, p.inbox[0])
  {
  }

  // ---- Primaries ----

  predicate IsPrimary(n: Node) {
    n.Running? && n.p.replica.status == PRIMARY
  }

  predicate AtMostOnePrimary(s: System) {
    !(IsPrimary(s.a) && IsPrimary(s.b))
  }

  /** A secundary loses a connection, of a client or of its peer, or closes one, while its peer runs as primary. */
  predicate PromotesBeside(s: System, step: Step) {
    && (step.PeerGone? || step.ClientGone? || step.Drop?) && IsPrimary(At(s, Other(step.id)))
    && At(s, step.id).Running? && At(s, step.id).p.replica.status == SECUNDARY
  }

  lemma SecondPrimaryStep(s: System, step: Step)
    requires Control(s) && AtMostOnePrimary(s) && Enabled(s, step)
    ensures AtMostOnePrimary(Next(s, step)) <==> !PromotesBeside(s, step)
  {
    hide Control, Sendable, Launch, Begin, Countable, Transfer, Work, RowsMap, Serviceable;
    match step
    case Start(id, known) =>
      LaunchFacts(s, id, known);
      if At(s, Other(id)).Running? {
        BeginFacts(At(s, Other(id)).p.replica, UP_REQUEST, Some(s.next));
      }
    case Client(id, req) =>
      hide Next, Effective, Logged;
      var _ := ClientShape(s, id, req);
    case Take(id) =>
      hide Next, Effective, Logged;
      var _ := TakeShape(s, id);
    case _ => RoleOf(s, step.id);
  }

  lemma RoleOf(s: System, id: Id)
    requires Control(s) && At(s, id).Running?
    ensures At(s, id).p.replica.status == PRIMARY || At(s, id).p.replica.status == SECUNDARY
  {
    hide Sendable;
    OrderlyAt(s, id);
  }

  /** A run has at most one primary throughout exactly if no secundary loses a connection beside a primary. */
  lemma SecondPrimaryIff(s: System, steps: seq<Step>)
    requires Init(s) && Run(s, steps)
    ensures Always(AtMostOnePrimary, s, steps) <==> Each((t, step) => !PromotesBeside(t, step), s, steps)
  {
    hide Control, AtMostOnePrimary, Enabled, Next, PromotesBeside;
    InitKept(s);
    forall t, step | Control(t) && Enabled(t, step) ensures Control(Next(t, step)) {
      StepKeeps(t, step);
    }
    forall t, step | Control(t) && AtMostOnePrimary(t) && Enabled(t, step)
      ensures AtMostOnePrimary(Next(t, step)) <==> !PromotesBeside(t, step)
    {
      SecondPrimaryStep(t, step);
    }
    AlwaysIff(Control, AtMostOnePrimary, (t, step) => !PromotesBeside(t, step), s, steps);
  }

  /** One step within one life of a primary. */
  lemma PrimaryStep(s: System, step: Step, id: Id)
    requires Control(s) && Enabled(s, step) && At(s, id).Running?
    ensures var n := At(Next(s, step), id);
      n.Running? ==> n.p.epoch == At(s, id).p.epoch && (IsPrimary(At(s, id)) ==> IsPrimary(n))
  {
    hide Control, Begin, Launch, Sendable, Serviceable, Effective, RowsMap, Logged, Countable, Work, Transfer;
    match step
    case Start(i, known) =>
      if At(s, Other(i)).Running? {
        BeginFacts(At(s, Other(i)).p.replica, UP_REQUEST, Some(s.next));
      }
    case Client(i, req) =>
      hide Next;
      var _ := ClientShape(s, i, req);
    case Take(i) =>
      hide Next;
      var _ := TakeShape(s, i);
    case _ =>
  }

  /** The number of a life that has ended is never given again. */
  lemma {:induction false} LifeEnds(s: System, steps: seq<Step>, id: Id, epoch: nat)
    requires Control(s) && Run(s, steps) && epoch < s.next
    requires At(s, id).Running? ==> At(s, id).p.epoch != epoch
    ensures At(Final(s, steps), id).Running? ==> At(Final(s, steps), id).p.epoch != epoch
    decreases steps
  {
    hide Control, Enabled;
    if steps != [] {
      StepKeeps(s, steps[0]);
      NextLife(s, steps[0], id, epoch);
      LifeEnds(Next(s, steps[0]), steps[1..], id, epoch);
    }
  }

  lemma NextLife(s: System, step: Step, id: Id, epoch: nat)
    requires Control(s) && Enabled(s, step) && epoch < s.next
    requires At(s, id).Running? ==> At(s, id).p.epoch != epoch
    ensures epoch < Next(s, step).next
    ensures At(Next(s, step), id).Running? ==> At(Next(s, step), id).p.epoch != epoch
  {
    hide Begin, Launch, Sendable, Serviceable, Effective, RowsMap, Logged, Countable;
    if At(s, id).Running? {
      PrimaryStep(s, step, id);
    }
  }

  /** From its promotion or its start as primary to the end of its life, however the run goes on, a process is
    * primary. */
  lemma {:induction false} StaysPrimary(s: System, steps: seq<Step>, id: Id)
    requires Control(s) && Run(s, steps) && At(s, id).Running? && IsPrimary(At(s, id))
    ensures var n := At(Final(s, steps), id);
      n.Running? && n.p.epoch == At(s, id).p.epoch ==> IsPrimary(n)
    decreases steps
  {
    hide Control, Enabled, IsPrimary;
    if steps != [] {
      StepKeeps(s, steps[0]);
      LifeGoesOn(s, steps[0], id);
      var t := Next(s, steps[0]);
      if At(t, id).Running? {
        StaysPrimary(t, steps[1..], id);
      } else {
        LifeEnds(t, steps[1..], id, At(s, id).p.epoch);
      }
    }
  }

  lemma LifeGoesOn(s: System, step: Step, id: Id)
    requires Control(s) && Enabled(s, step) && IsPrimary(At(s, id))
    ensures At(s, id).p.epoch < Next(s, step).next
    ensures At(Next(s, step), id).Running? ==>
      At(Next(s, step), id).p.epoch == At(s, id).p.epoch && IsPrimary(At(Next(s, step), id))
  {
    hide Begin, Launch, Sendable, Serviceable, Effective, RowsMap, Logged, Countable;
    PrimaryStep(s, step, id);
  }

  /** "At most one primary" does not hold: the ordinary start of both servers already ends with two. */
  lemma TwoPrimaries(s: System)
    requires Init(s)
    ensures var steps := [Start(B, false), Start(A, true), PeerGone(B)];
      && Run(s, steps)
      && var t := Final(s, steps);
         && t.a.Running? && t.a.p.replica.status == PRIMARY && t.a.p.replica.state == UP
         && t.b.Running? && t.b.p.replica.status == PRIMARY && t.b.p.replica.state == DOWN
  {
    hide Transfer, Begin;
    BothStart(s);
    ThreeSteps(s, Start(B, false), Start(A, true), PeerGone(B));
  }

  /** The ordinary start of both servers: B waits, A finds it and leads. */
  lemma BothStart(s: System)
    requires Init(s)
    ensures Enabled(s, Start(B, false)) && Enabled(Next(s, Start(B, false)), Start(A, true))
    ensures var u := Next(Next(s, Start(B, false)), Start(A, true));
      && u.a == Running(Process(s.next + 1, Replica(PRIMARY, UP, Some(s.next), EmptyRows(s.sizeA)), Idle, [], false,
                                [], true, true))
      && u.b == Running(Process(s.next, Replica(SECUNDARY, UP, None, EmptyRows(s.sizeB)), Idle, [], true,
                                [], true, true))
  {
    hide Transfer, Begin;
    EmptyRowsMap(EmptyRows(s.sizeB), s.sizeB);
    AskStatusIs(Next(s, Start(B, false)).b.p.replica);
  }
}
