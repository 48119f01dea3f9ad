/** Exactly when a leader and its live backup hold the same map, over every run. */
module ClusterMaps {
  import opened Options
  import opened Rows
  import opened Messages
  import opened Skeleton
  import opened Remote
  import opened StateTransfer
  import opened Servers
  import opened Cluster
  import opened ClusterControl
  import opened ClusterData

  // ---- In step ----

  /** A leader and the live backup it is linked to: equal maps between requests and once a request is answered, with
    * nothing left to read; until then the backup lags by exactly that request, which it has yet to read or has
    * dropped. */
  ghost predicate Agreed(me: Node, other: Node) {
    Leads(me) && LinkedTo(me, other) ==>
      if Lagging(me) then
        && (other.p.inbox == [me.p.phase.req] || other.p.inbox == []) && Serviceable(me.p.phase.req)
        && MapAt(me) == ApplyMap(MapAt(other), me.p.phase.req)
      else MapAt(me) == MapAt(other) && other.p.inbox == []
  }

  ghost predicate InStep(s: System) {
    Agreed(s.a, s.b) && Agreed(s.b, s.a)
  }

  /** Every step is harmless but these two: a client changes the live backup of a leader, and no request that the leader
    * is forwarding absorbs the change; a server starts as the leader of a peer that holds pairs or has requests to
    * read. */
  predicate Harmless(s: System, step: Step) {
    var me, other := At(s, step.id), At(s, Other(step.id));
    match step
    case Client(id, req) =>
      Leads(other) && LinkedTo(other, me) && Serviceable(req) && Effective(MapAt(me), req) ==>
        && Lagging(other) && IsMutation(req) && Serviceable(other.p.phase.req) && IsMutation(other.p.phase.req)
        && Absorbed(MapAt(me), req, other.p.phase.req)
    case Start(id, known) =>
      id == A && other.Running? && !Joins(s, id, known) ==> MapAt(other) == map[] && other.p.inbox == []
    case _ => true
  }

  // ---- Step by step ----

  lemma StartInStep(s: System, id: Id, known: bool)
    requires Regular(s) && InStep(s) && Enabled(s, Start(id, known))
    ensures InStep(Next(s, Start(id, known))) <==> Harmless(s, Start(id, known))
  {
    hide Sendable, Serviceable, Launch, Begin, Countable, Faithful, RowsMap, Transfer, ApplyMap, Effective;
    var other := At(s, Other(id));
    LaunchFacts(s, id, known);
    LaunchMap(s, id, known);
    if other.Running? {
      OrderlyAt(s, Other(id));
      BeginFacts(other.p.replica, UP_REQUEST, Some(s.next));
    }
  }

  /** A server that joins begins with the peer's map, any other with the empty one. */
  lemma LaunchMap(s: System, id: Id, known: bool)
    requires Regular(s) && Enabled(s, Start(id, known))
    ensures RowsMap(Launch(s, id, known).value.rows) ==
      if Joins(s, id, known) then MapAt(At(s, Other(id))) else map[]
  {
    hide Sendable, Begin, Countable, RowsMap, Transfer, WellFormed, Replay;
    var other := At(s, Other(id));
    FreshFaithful(Size(s, id));
    if other.Running? {
      FaithfulAt(s, Other(id));
      AskStatusIs(other.p.replica);
      JoinFaithful(other.p, Size(s, Other(id)), Size(s, id));
    }
  }

  /** A request at a leader or at a process that nobody leads. */
  lemma LeaderWorks(me: Process, p: Process, other: Node, req: Message, origin: Origin)
    requires Agreed(Running(me), other) && Agreed(other, Running(me))
    requires me.phase == Idle && Serviceable(req) && Worked(me, p, req, origin) && IsLed(other, Running(me)) == false
    requires RowsMap(p.replica.rows) == ApplyMap(RowsMap(me.replica.rows), req)
    requires !Leads(Running(me)) || !Leads(other)
    ensures var sent := if p.phase.Waiting? then Sent(p, req, other) else other;
      Agreed(Running(p), sent) && Agreed(sent, Running(p))
  {
    hide RowsMap, Serviceable, Effective, Logged;
    if !IsMutation(req) {
      hide ApplyMap;
      NotEffective(RowsMap(me.replica.rows), req);
    }
  }

  predicate IsLed(leader: Node, n: Node) {
    Leads(leader) && LinkedTo(leader, n)
  }

  lemma NotEffective(m: Map, req: Message)
    requires Serviceable(req) && !IsMutation(req)
    ensures !Effective(m, req) && ApplyMap(m, req) == m
  {
  }

  /** A request at the live backup of a leader. */
  lemma BackupWorks(me: Process, p: Process, leader: Node, req: Message)
    requires IsLed(leader, Running(me)) && Agreed(leader, Running(me))
    requires Serviceable(req) && Worked(me, p, req, FromClient) && !Leads(Running(me))
    requires RowsMap(p.replica.rows) == ApplyMap(RowsMap(me.replica.rows), req)
    requires Lagging(leader) ==> IsMutation(leader.p.phase.req)
    ensures Agreed(leader, Running(p)) <==>
      (Effective(RowsMap(me.replica.rows), req) ==>
        && Lagging(leader) && IsMutation(req) && Serviceable(leader.p.phase.req) && IsMutation(leader.p.phase.req)
        && Absorbed(RowsMap(me.replica.rows), req, leader.p.phase.req))
  {
    hide RowsMap, Serviceable, Effective, Logged, ApplyMap, Absorbed;
    var m := RowsMap(me.replica.rows);
    EffectiveIff(m, req);
    if Lagging(leader) && Effective(m, req) {
      AbsorbedIff(m, req, leader.p.phase.req);
    }
  }

  lemma ClientInStep(s: System, id: Id, req: Message)
    requires Regular(s) && InStep(s) && Enabled(s, Client(id, req))
    ensures InStep(Next(s, Client(id, req))) <==> Harmless(s, Client(id, req))
  {
    hide Sendable, Serviceable, Effective, Logged, ApplyMap, Absorbed, Work, Next, Faithful, RowsMap, Agreed, Worked;
    var p := ClientShape(s, id, req);
    var me, other := At(s, id).p, At(s, Other(id));
    FaithfulAt(s, id);
    OrderlyAt(s, id);
    WorkFaithful(me, Size(s, id), req, FromClient);
    if IsLed(other, Running(me)) {
      OrderlyAt(s, Other(id));
      BackupWorks(me, p, other, req);
      BackupAsks(me, p, other, req);
    } else {
      LeaderWorks(me, p, other, req, FromClient);
    }
  }

  /** A process that does not lead sends nothing and is in step with whatever it is linked to. */
  lemma BackupAsks(me: Process, p: Process, other: Node, req: Message)
    requires Serviceable(req) && Worked(me, p, req, FromClient) && !Leads(Running(me))
    ensures Sent(p, req, other) == other && Agreed(Running(p), other)
  {
  }

  /** Reading a forwarded request at the live backup of a leader: it is the one the leader waits for. */
  lemma BackupTakes(me: Process, p: Process, leader: Node)
    requires IsLed(leader, Running(me)) && Agreed(leader, Running(me)) && me.inbox != [] && Serviceable(me.inbox[0])
    requires Worked(me.(inbox := me.inbox[1..]), p, me.inbox[0], FromPeer) && !Leads(Running(me))
    requires RowsMap(p.replica.rows) == ApplyMap(RowsMap(me.replica.rows), me.inbox[0])
    ensures !p.phase.Waiting? && Agreed(Running(p), Notify(p, leader)) && Agreed(Notify(p, leader), Running(p))
  {
    hide RowsMap, Serviceable, Effective, Logged, ApplyMap;
  }

  lemma TakeInStep(s: System, id: Id)
    requires Regular(s) && InStep(s) && Enabled(s, Take(id))
    ensures InStep(Next(s, Take(id)))
  {
    hide Sendable, Serviceable, Effective, Logged, ApplyMap, Work, Next, Faithful, RowsMap, Agreed, Worked;
    var p := TakeShape(s, id);
    var me, other := At(s, id).p, At(s, Other(id));
    var rest := me.(inbox := me.inbox[1..]);
    OrderlyAt(s, id);
    TableRequest(me.inbox[0]);
    RestFaithful(s, id);
    WorkFaithful(rest, Size(s, id), me.inbox[0], FromPeer);
    if IsLed(other, Running(me)) {
      BackupTakes(me, p, other);
    } else {
      RestAgreed(me, other);
      LeaderWorks(rest, p, other, me.inbox[0], FromPeer);
      if other.Running? {
        OrderlyAt(s, Other(id));
      }
      Unheard(rest, p, me.inbox[0], other);
    }
  }

  lemma RestFaithful(s: System, id: Id)
    requires Regular(s) && At(s, id).Running? && At(s, id).p.inbox != []
    ensures var me := At(s, id).p; Faithful(Running(me.(inbox := me.inbox[1..])), Size(s, id))
  {
    hide RowsMap, WellFormed, Replay, Sendable;
    FaithfulAt(s, id);
  }

  lemma RestAgreed(me: Process, other: Node)
    requires Agreed(Running(me), other) && !IsLed(other, Running(me)) && me.inbox != []
    ensures var rest := me.(inbox := me.inbox[1..]);
      Agreed(Running(rest), other) && Agreed(other, Running(rest)) && !IsLed(other, Running(rest))
  {
  }

  /** Without a leader behind it, an answer changes nothing. */
  lemma Unheard(me: Process, p: Process, req: Message, other: Node)
    requires Serviceable(req) && Worked(me, p, req, FromPeer)
    requires !IsLed(other, Running(me)) && (other.Running? && other.p.phase.Waiting? ==> Leads(other))
    ensures Notify(p, other) == other
  {
  }

  lemma CrashInStep(s: System, id: Id, sent: bool)
    requires Enabled(s, Crash(id, sent))
    ensures InStep(Next(s, Crash(id, sent)))
  {
    hide RowsMap, ApplyMap, Serviceable, Bereaved;
  }

  lemma GoneInStep(s: System, step: Step)
    requires InStep(s) && Enabled(s, step) && (step.PeerGone? || step.ClientGone? || step.Drop?)
    ensures InStep(Next(s, step))
  {
    hide RowsMap, ApplyMap, Serviceable;
  }

  lemma ReplyInStep(s: System, step: Step)
    requires Regular(s) && InStep(s) && Enabled(s, step) && (step.Finish? || step.GiveUp?)
    ensures InStep(Next(s, step))
  {
    hide RowsMap, ApplyMap, Serviceable, Faithful, Control;
    RegularControl(s);
    WaiterLeads(s, step.id);
    OtherAside(s, step.id);
    NotWaiting(s, Other(step.id));
  }

  lemma StepInStep(s: System, step: Step)
    requires Regular(s) && InStep(s) && Enabled(s, step)
    ensures InStep(Next(s, step)) <==> Harmless(s, step)
  {
    hide Regular, InStep, Enabled, Next;
    match step
    case Start(id, known) => StartInStep(s, id, known);
    case Client(id, req) => ClientInStep(s, id, req);
    case Take(id) => TakeInStep(s, id);
    case Crash(id, sent) => CrashInStep(s, id, sent);
    case Finish(_) => ReplyInStep(s, step);
    case GiveUp(_) => ReplyInStep(s, step);
    case _ => GoneInStep(s, step);
  }

  // ---- Whole runs ----

  lemma InitInStep(s: System)
    requires Init(s)
    ensures InStep(s)
  {
  }

  /** The replication theorem, for any two bucket counts and any environment: a leader and its live backup are in step
    * throughout a run exactly if every step is harmless. */
  lemma InStepIff(s: System, steps: seq<Step>)
    requires Init(s) && Run(s, steps)
    ensures Always(InStep, s, steps) <==> Each(Harmless, s, steps)
  {
    hide Regular, InStep, Enabled, Next, Harmless, Init;
    InitRegular(s);
    InitInStep(s);
    forall t, step | Regular(t) && Enabled(t, step) ensures Regular(Next(t, step)) {
      StepRegular(t, step);
    }
    forall t, step | Regular(t) && InStep(t) && Enabled(t, step) ensures InStep(Next(t, step)) <==> Harmless(t, step) {
      StepInStep(t, step);
    }
    AlwaysIff(Regular, InStep, Harmless, s, steps);
  }

  /** Every state of the run, and so the last. */
  lemma {:induction false} AlwaysFinal(p: System -> bool, s: System, steps: seq<Step>)
    requires Run(s, steps) && Always(p, s, steps)
    ensures p(Final(s, steps))
    decreases steps
  {
    hide Enabled, Next;
    if steps != [] {
      AlwaysFinal(p, Next(s, steps[0]), steps[1..]);
    }
  }

  /** With the same number of buckets the two tables are the same bucket by bucket, key order included, whenever the
    * leader has nothing under way. */
  lemma SameSizeSameTable(s: System, steps: seq<Step>, id: Id)
    requires Init(s) && s.sizeA == s.sizeB && Run(s, steps) && Each(Harmless, s, steps)
    ensures var t := Final(s, steps);
      Leads(At(t, id)) && LinkedTo(At(t, id), At(t, Other(id))) && !Lagging(At(t, id)) ==>
        At(t, id).p.replica.rows == At(t, Other(id)).p.replica.rows
  {
    hide Init, Control, Run, Harmless, RowsMap, WellFormed, Replay;
    InitRegular(s);
    InStepIff(s, steps);
    AlwaysFinal(InStep, s, steps);
    RunRegular(s, steps);
    RunSizes(s, steps);
    var t := Final(s, steps);
    if Leads(At(t, id)) && LinkedTo(At(t, id), At(t, Other(id))) && !Lagging(At(t, id)) {
      FaithfulAt(t, id);
      FaithfulAt(t, Other(id));
      CanonicalRows(At(t, id).p.replica.rows, At(t, Other(id)).p.replica.rows);
    }
  }

  // ---- A client at the backup ----

  /** A mutation that a client sends to the backup of an idle leader keeps the two maps equal exactly when it finds no
    * work to do: a put of a present key, an update of an absent key or with the same value, a delete of an absent
    * key. */
  lemma DirectMutationIff(t: System, id: Id, req: Message)
    requires Regular(t) && InStep(t) && Leads(At(t, id)) && LinkedTo(At(t, id), At(t, Other(id)))
    requires At(t, id).p.phase == Idle && Enabled(t, Client(Other(id), req)) && Serviceable(req)
    ensures var u := Next(t, Client(Other(id), req));
      && At(u, id).Running? && At(u, Other(id)).Running?
      && (MapAt(At(u, id)) == MapAt(At(u, Other(id))) <==> !Effective(MapAt(At(t, id)), req))
  {
    hide Next, Sendable, Serviceable, Effective, Logged, ApplyMap, Work, Faithful, RowsMap;
    var me := At(t, Other(id)).p;
    var p := ClientShape(t, Other(id), req);
    FaithfulAt(t, Other(id));
    OrderlyAt(t, Other(id));
    WorkFaithful(me, Size(t, Other(id)), req, FromClient);
    BackupAsks(me, p, At(t, id), req);
    EffectiveIff(MapAt(At(t, id)), req);
  }
}
