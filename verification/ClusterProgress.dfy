/** What the machine gets done: the ordinary forward, the lost one, the failover, the return of a server. */
module ClusterProgress {
  import opened Options
  import opened Rows
  import opened Messages
  import opened Skeleton
  import opened Remote
  import opened StateTransfer
  import opened Servers
  import opened Cluster
  import opened ClusterControl
  import opened ClusterData
  import opened ClusterMaps

  // ---- Nobody is ever stuck ----

  /** In every state of every run a process that runs and waits for nobody serves any request that can be sent to it,
    * reads or drops what was forwarded to it, and sees connections end; one that waits can give up. */
  lemma NeverStuck(t: System, id: Id)
    requires Regular(t) && At(t, id).Running?
    ensures var p := At(t, id).p;
      && Enabled(t, Crash(id, true)) && Enabled(t, Crash(id, false))
      && (p.phase.Waiting? ==> Enabled(t, GiveUp(id)) && (p.phase.answered ==> Enabled(t, Finish(id))))
      && (p.phase == Idle ==> Enabled(t, ClientGone(id)) && (p.pending ==> Enabled(t, PeerGone(id))))
      && (p.phase == Idle && p.inbox != [] ==> Enabled(t, Take(id)) && Enabled(t, Drop(id)))
      && (p.phase == Idle ==> forall req :: Sendable(req) && req.opcode in {10, 20, 30, 40, 50} ==>
          Enabled(t, Client(id, req)))
  {
    hide Faithful, Sendable, Serviceable;
    RegularControl(t);
    OrderlyAt(t, id);
    if At(t, id).p.inbox != [] {
      ReadsMutation(t, id);
      SendableIsServiceable(At(t, id).p.inbox[0]);
    }
  }

  // ---- One request ----

  /** A client's request is applied at once; a leader's mutation, and nothing else, then waits, and its live backup has
    * it to read. The peer's table does not move. */
  lemma ClientApplies(t: System, id: Id, req: Message)
    requires Regular(t) && Enabled(t, Client(id, req))
    ensures Serviceable(req)
    ensures var u := Next(t, Client(id, req));
      var me, p, other, q := At(t, id), At(u, id), At(t, Other(id)), At(u, Other(id));
      var forwards := Leads(me) && req.opcode in {20, 30, 50};
      && p.Running? && MapAt(p) == ApplyMap(MapAt(me), req)
      && p.p.phase == (if forwards then Waiting(req, FromClient, false) else Idle)
      && p.p.replica == me.p.replica.(rows := p.p.replica.rows) && p.p.epoch == me.p.epoch
      && p.p.inbox == me.p.inbox
      && q == if forwards && LinkedTo(me, other)
              then Running(other.p.(inbox := other.p.inbox + [req])) else other
  {
    hide Sendable, Serviceable, Faithful, RowsMap, ApplyMap, Effective, Logged, Work, Next;
    RegularControl(t);
    var p := ClientShape(t, id, req);
    FaithfulAt(t, id);
    WorkFaithful(At(t, id).p, Size(t, id), req, FromClient);
  }

  /** A backup reads a forwarded request: it applies it, and the leader that is linked to it has its answer. */
  lemma BackupReads(t: System, id: Id)
    requires Regular(t) && At(t, id).Running? && At(t, id).p.phase == Idle && At(t, id).p.inbox != []
    requires !Leads(At(t, id))
    ensures Enabled(t, Take(id)) && Serviceable(At(t, id).p.inbox[0])
    ensures var u := Next(t, Take(id));
      var me, p, other, q := At(t, id).p, At(u, id), At(t, Other(id)), At(u, Other(id));
      && p.Running? && MapAt(p) == ApplyMap(MapAt(At(t, id)), me.inbox[0])
      && p.p.phase == Idle && p.p.inbox == me.inbox[1..] && p.p.epoch == me.epoch
      && p.p.replica == me.replica.(rows := p.p.replica.rows)
      && q == if LinkedTo(other, At(t, id)) && other.p.phase.Waiting?
              then Running(other.p.(phase := other.p.phase.(answered := true))) else other
  {
    hide Sendable, Serviceable, Faithful, RowsMap, ApplyMap, Effective, Logged, Work, Next;
    NeverStuck(t, id);
    RegularControl(t);
    ReadsMutation(t, id);
    var me := At(t, id).p;
    SendableIsServiceable(me.inbox[0]);
    TableRequest(me.inbox[0]);
    RestFaithful(t, id);
    var p := TakeShape(t, id);
    WorkFaithful(me.(inbox := me.inbox[1..]), Size(t, id), me.inbox[0], FromPeer);
  }

  /** The two steps after which a mutation at a leader has been applied on both sides. */
  lemma ForwardArrives(t: System, id: Id, req: Message)
    requires Regular(t) && InStep(t) && Leads(At(t, id)) && LinkedTo(At(t, id), At(t, Other(id)))
    requires At(t, id).p.phase == Idle && Sendable(req) && req.opcode in {20, 30, 50}
    ensures Serviceable(req) && Enabled(t, Client(id, req))
    ensures Enabled(Next(t, Client(id, req)), Take(Other(id)))
    ensures var u := Next(Next(t, Client(id, req)), Take(Other(id)));
      var me, other := At(u, id), At(u, Other(id));
      && Regular(u) && Leads(me) && LinkedTo(me, other) && me.p.phase == Waiting(req, FromClient, true)
      && me.p.inbox == At(t, id).p.inbox && other.p.inbox == [] && !Leads(other)
      && MapAt(me) == ApplyMap(MapAt(At(t, id)), req) && MapAt(other) == ApplyMap(MapAt(At(t, id)), req)
  {
    hide Next, Enabled, Regular, Sendable, Serviceable, RowsMap, ApplyMap;
    RegularControl(t);
    NeverStuck(t, id);
    ClientApplies(t, id, req);
    OtherAside(t, id);
    NotWaiting(t, Other(id));
    LedInbox(t, id);
    var u := Next(t, Client(id, req));
    StepRegular(t, Client(id, req));
    BackupReads(u, Other(id));
    StepRegular(u, Take(Other(id)));
    BothWays(id);
  }

  lemma BothWays(id: Id)
    ensures Other(Other(id)) == id
  {
  }

  lemma LedInbox(t: System, id: Id)
    requires InStep(t) && Leads(At(t, id)) && LinkedTo(At(t, id), At(t, Other(id))) && !Lagging(At(t, id))
    ensures At(t, Other(id)).p.inbox == [] && MapAt(At(t, id)) == MapAt(At(t, Other(id)))
  {
    assert id == A || id == B;
  }

  /** The ordinary forward completes: the leader applies the mutation, the backup reads it, the leader answers; both
    * tables then hold it, and the leader is as ready as before. */
  lemma ForwardCompletes(t: System, id: Id, req: Message)
    requires Regular(t) && InStep(t) && Leads(At(t, id)) && LinkedTo(At(t, id), At(t, Other(id)))
    requires At(t, id).p.phase == Idle && Sendable(req) && req.opcode in {20, 30, 50}
    ensures Serviceable(req)
    ensures var steps := [Client(id, req), Take(Other(id)), Finish(id)];
      && Run(t, steps)
      && var u := Final(t, steps);
         var me, other := At(u, id), At(u, Other(id));
         && Regular(u) && InStep(u) && Leads(me) && LinkedTo(me, other) && me.p.phase == Idle
         && me.p.inbox == At(t, id).p.inbox && other.p.inbox == []
         && MapAt(me) == ApplyMap(MapAt(At(t, id)), req) && MapAt(other) == ApplyMap(MapAt(At(t, id)), req)
  {
    hide Next, Enabled, Regular, Sendable, Serviceable, RowsMap, ApplyMap, InStep, Run, Final;
    ForwardArrives(t, id, req);
    var u := Next(Next(t, Client(id, req)), Take(Other(id)));
    NeverStuck(u, id);
    FinishEnds(u, id);
    StepRegular(u, Finish(id));
    PairInStep(Next(u, Finish(id)), id);
    ThreeSteps(t, Client(id, req), Take(Other(id)), Finish(id));
  }

  /** An idle leader with an equal backup that has nothing to read. */
  lemma PairInStep(u: System, id: Id)
    requires Leads(At(u, id)) && At(u, id).p.phase == Idle && !Leads(At(u, Other(id)))
    requires At(u, Other(id)).Running? && At(u, Other(id)).p.inbox == []
    requires MapAt(At(u, id)) == MapAt(At(u, Other(id)))
    ensures InStep(u)
  {
    assert id == A || id == B;
  }

  lemma FinishEnds(u: System, id: Id)
    requires Enabled(u, Finish(id)) && At(u, id).p.phase.origin == FromClient
    ensures At(Next(u, Finish(id)), id) == Running(At(u, id).p.(phase := Idle))
    ensures At(Next(u, Finish(id)), Other(id)) == At(u, Other(id))
  {
  }

  /** A leader that dies while it forwards: what had left is the only thing its backup has to read. */
  lemma ForwarderDies(t: System, id: Id, req: Message, sent: bool)
    requires Regular(t) && InStep(t) && Leads(At(t, id)) && LinkedTo(At(t, id), At(t, Other(id)))
    requires At(t, id).p.phase == Idle && Sendable(req) && req.opcode in {20, 30, 50}
    ensures Enabled(t, Client(id, req)) && Enabled(Next(t, Client(id, req)), Crash(id, sent))
    ensures var u := Next(Next(t, Client(id, req)), Crash(id, sent));
      && At(u, id) == Stopped
      && At(u, Other(id)) ==
         Running(At(t, Other(id)).p.(pending := true, inbox := if sent then [req] else []))
  {
    hide Next, Enabled, Regular, Sendable, Serviceable, RowsMap, ApplyMap;
    RegularControl(t);
    NeverStuck(t, id);
    ClientApplies(t, id, req);
    LedInbox(t, id);
    var u := Next(t, Client(id, req));
    StepRegular(t, Client(id, req));
    NeverStuck(u, id);
    BereavedEnds(u, id, sent);
    assert [req][..0] == [];
  }

  lemma BereavedEnds(u: System, id: Id, sent: bool)
    requires Enabled(u, Crash(id, sent)) && LinkedTo(At(u, id), At(u, Other(id))) && Lagging(At(u, id))
    requires At(u, Other(id)).p.inbox != []
    ensures At(Next(u, Crash(id, sent)), id) == Stopped
    ensures var inbox := At(u, Other(id)).p.inbox;
      At(Next(u, Crash(id, sent)), Other(id)) ==
        Running(At(u, Other(id)).p.(pending := true, inbox := if sent then inbox else inbox[..|inbox| - 1]))
  {
  }

  /** The forward that is lost: the backup drops the request and becomes primary with its table as it was; the leader
    * gives up and serves on alone, with the mutation applied. */
  lemma ForwardLost(t: System, id: Id, req: Message)
    requires Regular(t) && InStep(t) && Leads(At(t, id)) && LinkedTo(At(t, id), At(t, Other(id)))
    requires At(t, id).p.phase == Idle && Sendable(req) && req.opcode in {20, 30, 50}
    ensures Serviceable(req)
    ensures var steps := [Client(id, req), Drop(Other(id)), GiveUp(id)];
      && Run(t, steps)
      && var u := Final(t, steps);
         var me, other := At(u, id), At(u, Other(id));
         && IsPrimary(me) && !Leads(me) && me.p.phase == Idle && MapAt(me) == ApplyMap(MapAt(At(t, id)), req)
         && IsPrimary(other) && other.p.inbox == [] && MapAt(other) == MapAt(At(t, id))
  {
    hide Next, Enabled, Regular, Sendable, Serviceable, RowsMap, ApplyMap, Run, Final;
    RegularControl(t);
    NeverStuck(t, id);
    ClientApplies(t, id, req);
    OtherAside(t, id);
    NotWaiting(t, Other(id));
    LedInbox(t, id);
    var u := Next(t, Client(id, req));
    StepRegular(t, Client(id, req));
    RegularControl(u);
    NeverStuck(u, Other(id));
    DropEnds(u, Other(id));
    var v := Next(u, Drop(Other(id)));
    StepRegular(u, Drop(Other(id)));
    RegularControl(v);
    BothWays(id);
    NeverStuck(v, id);
    GiveUpEnds(v, id);
    ThreeSteps(t, Client(id, req), Drop(Other(id)), GiveUp(id));
  }

  /** A server that drops a request loses that request and its connection, and is primary from then on. */
  lemma DropEnds(u: System, id: Id)
    requires Control(u) && Enabled(u, Drop(id))
    ensures var n := At(Next(u, Drop(id)), id);
      && IsPrimary(n) && n.p.inbox == At(u, id).p.inbox[1..] && n.p.phase == Idle
      && n.p.replica.rows == At(u, id).p.replica.rows
      && At(Next(u, Drop(id)), Other(id)) == At(u, Other(id))
  {
    hide Sendable;
    OrderlyAt(u, id);
  }

  lemma GiveUpEnds(u: System, id: Id)
    requires Control(u) && Enabled(u, GiveUp(id)) && At(u, id).p.phase.origin == FromClient
    ensures var n := At(Next(u, GiveUp(id)), id);
      && IsPrimary(n) && !Leads(n) && n.p.phase == Idle && n.p.replica.rows == At(u, id).p.replica.rows
      && At(Next(u, GiveUp(id)), Other(id)) == At(u, Other(id))
  {
    hide Sendable;
    OrderlyAt(u, id);
  }

  // ---- Failover and return ----

  /** A leader dies between two requests: its backup becomes primary with the leader's map and serves on alone. */
  lemma FailOver(t: System, id: Id, sent: bool, req: Message)
    requires Regular(t) && InStep(t) && Leads(At(t, id)) && LinkedTo(At(t, id), At(t, Other(id)))
    requires At(t, id).p.phase == Idle && Sendable(req) && req.opcode in {10, 20, 30, 40, 50}
    ensures Serviceable(req)
    ensures var steps := [Crash(id, sent), PeerGone(Other(id)), Client(Other(id), req)];
      && Run(t, steps)
      && var u := Final(t, steps);
         && At(u, id) == Stopped
         && IsPrimary(At(u, Other(id))) && At(u, Other(id)).p.phase == Idle
         && MapAt(At(u, Other(id))) == ApplyMap(MapAt(At(t, id)), req)
  {
    hide Next, Enabled, Regular, Sendable, Serviceable, RowsMap, ApplyMap, Run, Final;
    RegularControl(t);
    NeverStuck(t, id);
    OtherAside(t, id);
    NotWaiting(t, Other(id));
    LedInbox(t, id);
    CrashEnds(t, id, sent);
    var u := Next(t, Crash(id, sent));
    StepRegular(t, Crash(id, sent));
    NeverStuck(u, Other(id));
    RegularControl(u);
    PeerGoneEnds(u, Other(id));
    var v := Next(u, PeerGone(Other(id)));
    StepRegular(u, PeerGone(Other(id)));
    BothWays(id);
    NeverStuck(v, Other(id));
    ClientApplies(v, Other(id), req);
    ThreeSteps(t, Crash(id, sent), PeerGone(Other(id)), Client(Other(id), req));
  }

  lemma CrashEnds(t: System, id: Id, sent: bool)
    requires Enabled(t, Crash(id, sent)) && LinkedTo(At(t, id), At(t, Other(id))) && !Lagging(At(t, id))
    ensures At(Next(t, Crash(id, sent)), id) == Stopped
    ensures At(Next(t, Crash(id, sent)), Other(id)) == Running(At(t, Other(id)).p.(pending := true))
  {
  }

  /** A server that sees its peer's connection end is primary and does not lead, unless it leads already. */
  lemma PeerGoneEnds(u: System, id: Id)
    requires Control(u) && Enabled(u, PeerGone(id))
    ensures var n := At(Next(u, PeerGone(id)), id);
      && IsPrimary(n) && (Leads(n) <==> Leads(At(u, id))) && n.p.phase == Idle && !n.p.pending
      && n.p.replica.rows == At(u, id).p.replica.rows && n.p.inbox == At(u, id).p.inbox
      && At(Next(u, PeerGone(id)), Other(id)) == At(u, Other(id))
  {
    hide Sendable;
    OrderlyAt(u, id);
  }

  /** The node can answer a handshake: it waits for nobody, and its number of keys fits an `int`. */
  predicate AtRest(n: Node) {
    n.Running? ==> n.p.phase == Idle && Total(n.p.replica.rows) <= 0x7FFF_FFFF
  }

  /** When a stopped server can start, and what it then is: it joins where it should, with the peer's map, and a primary
    * that it joined leads again, linked to it and in step; otherwise it starts empty, and leads exactly if it is A. */
  lemma StartIff(t: System, id: Id, known: bool)
    requires Regular(t) && At(t, id).Stopped? && AtRest(At(t, Other(id)))
    ensures Enabled(t, Start(id, known)) <==> (Joins(t, id, known) ==> [33] !in MapAt(At(t, Other(id))))
    ensures Enabled(t, Start(id, known)) ==>
      var u := Next(t, Start(id, known));
      var me, other := At(u, id), At(u, Other(id));
      && me.Running? && me.p.phase == Idle && me.p.inbox == [] && me.p.epoch == t.next < u.next
      && (if Joins(t, id, known)
          then !IsPrimary(me) && MapAt(me) == MapAt(At(t, Other(id))) == MapAt(other) && LinkedTo(other, me)
          else MapAt(me) == map[] && (Leads(me) <==> id == A) && (id == A ==> IsPrimary(me)))
      && (Joins(t, id, known) && IsPrimary(At(t, Other(id))) ==> Leads(other))
      && (id == A && At(t, B).Running? && !IsPrimary(At(t, B)) ==> LinkedTo(me, other) && other.p.pending)
  {
    hide Sendable, Faithful, RowsMap, Launch, Begin, Countable, Transfer, WellFormed;
    RegularControl(t);
    StartEnabled(t, id, known);
    if Enabled(t, Start(id, known)) {
      LaunchFacts(t, id, known);
      LaunchMap(t, id, known);
      if At(t, Other(id)).Running? {
        OrderlyAt(t, Other(id));
        BeginFacts(At(t, Other(id)).p.replica, UP_REQUEST, Some(t.next));
      }
    }
  }

  lemma StartEnabled(t: System, id: Id, known: bool)
    requires Regular(t) && At(t, id).Stopped? && AtRest(At(t, Other(id)))
    ensures Enabled(t, Start(id, known)) <==> (Joins(t, id, known) ==> [33] !in MapAt(At(t, Other(id))))
  {
    hide Sendable, RowsMap, WellFormed, Replay, Total, PrimaryStart, SecundaryStart;
    RegularControl(t);
    var other := At(t, Other(id));
    var peer := Peer(other);
    if other.Running? {
      FaithfulAt(t, Other(id));
      ReplayStorable(other.p.log);
      OrderlyAt(t, Other(id));
    }
    StartsIff(Size(t, id), peer, if other.Running? then other.p.epoch else 0);
    StartsIff(Size(t, id), None, 0);
  }

  /** The whole circle: a dead leader comes back, copies the table of the server that took over, and is its backup. */
  lemma Returns(t: System, id: Id, known: bool)
    requires Regular(t) && At(t, id).Stopped? && IsPrimary(At(t, Other(id))) && AtRest(At(t, Other(id)))
    requires Joins(t, id, known) && [33] !in MapAt(At(t, Other(id)))
    ensures Enabled(t, Start(id, known)) && InStep(Next(t, Start(id, known)))
    ensures var u := Next(t, Start(id, known));
      Leads(At(u, Other(id))) && LinkedTo(At(u, Other(id)), At(u, id)) && MapAt(At(u, id)) == MapAt(At(t, Other(id)))
  {
    hide Regular, RowsMap, Sendable, Enabled, Next;
    StartIff(t, id, known);
    StepRegular(t, Start(id, known));
    AloneInStep(t, id);
    StartInStep(t, id, known);
  }

  /** A server alone is in step with nobody. */
  lemma AloneInStep(t: System, id: Id)
    requires At(t, id).Stopped?
    ensures InStep(t)
  {
  }
}
