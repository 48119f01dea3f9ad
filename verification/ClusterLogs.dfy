/** The two histories, where clients change a leader's live backup only by repeating what is being forwarded: the
  * backup's is a prefix of the leader's, and what was acknowledged is a prefix of both. */
module ClusterLogs {
  import opened Options
  import opened Rows
  import opened Messages
  import opened Skeleton
  import opened Remote
  import opened StateTransfer
  import opened Servers
  import opened Cluster
  import opened ClusterControl
  import opened ClusterData
  import opened ClusterMaps
  import opened ClusterSafety

  // ---- Proper runs ----

  /** The process waits for its backup's answer to `req`. */
  predicate Forwarding(n: Node, req: Message) {
    Lagging(n) && n.p.phase.req == req
  }

  /** A harmless step in which a client's request does not change the live backup of a leader, unless it is the very
    * request that the leader is forwarding: so a client may always repeat a request at the other server. */
  predicate Proper(s: System, step: Step) {
    var me, other := At(s, step.id), At(s, Other(step.id));
    match step
    case Client(id, req) =>
      IsLed(other, me) && Serviceable(req) && Effective(MapAt(me), req) ==> Forwarding(other, req)
    case _ => Harmless(s, step)
  }

  lemma ProperIsHarmless(s: System, step: Step)
    requires Control(s) && Enabled(s, step) && Proper(s, step)
    ensures Harmless(s, step)
  {
    hide RowsMap, Sendable, Begin, Launch;
    if step.Client? {
      var me, other := At(s, step.id), At(s, Other(step.id));
      if IsLed(other, me) && Serviceable(step.req) && Effective(MapAt(me), step.req) {
        EffectiveIff(MapAt(me), step.req);
        OrderlyAt(s, Other(step.id));
      }
    }
  }

  lemma {:induction false} ProperRunHarmless(s: System, steps: seq<Step>)
    requires Control(s) && Run(s, steps) && Each(Proper, s, steps)
    ensures Each(Harmless, s, steps)
    decreases steps
  {
    hide Control, Enabled, Next, Proper, Harmless;
    if steps != [] {
      StepKeeps(s, steps[0]);
      ProperIsHarmless(s, steps[0]);
      ProperRunHarmless(Next(s, steps[0]), steps[1..]);
    }
  }

  // ---- How the two logs relate ----

  /** The log of a process that will have read its inbox, which holds one request at most. */
  function Caught(p: Process): seq<Message> {
    if p.inbox != [] && Serviceable(p.inbox[0]) then Logged(p, p.inbox[0]) else p.log
  }

  /** `j` is the backup that leader `i` is linked to: the logs are equal, or will be once `j` has applied what `i` is
    * forwarding. */
  ghost predicate InPace(i: Process, j: Process) {
    if Lagging(Running(i)) then
      && (j.inbox == [i.phase.req] || j.inbox == [])
      && Serviceable(i.phase.req) && Logged(j, i.phase.req) == i.log
    else j.log == i.log && j.inbox == []
  }

  /** What holds of process `i`, seen with the other node and the acknowledged history. */
  ghost predicate Related(i: Process, other: Node, acked: seq<Message>) {
    // A leader and its live backup are in pace.
    && (Leads(Running(i)) && LinkedTo(Running(i), other) ==> InPace(i, other.p))
    // After an answer was lost the backup stays behind, until a client mutates it.
    && (!Leads(Running(i)) && LinkedTo(Running(i), other) && other.p.clean ==>
        Caught(other.p) <= i.log && |other.p.inbox| <= 1)
    // What was acknowledged is in every replica that takes part.
    && (i.insync ==> acked <= i.log)
  }

  ghost predicate Replicated(s: System) {
    && (s.a.Running? ==> Related(s.a.p, s.b, s.acked))
    && (s.b.Running? ==> Related(s.b.p, s.a, s.acked))
    && (!Survivor(s) ==> s.acked == [])
  }

  /** The invariant of proper runs. */
  ghost predicate Safe(s: System) {
    Regular(s) && Shared(s) && Replicated(s)
  }

  lemma RelatedAt(s: System, id: Id)
    requires Replicated(s) && At(s, id).Running?
    ensures Related(At(s, id).p, At(s, Other(id)), s.acked)
  {
    assert id == A || id == B;
  }

  lemma StartReplicated(s: System, id: Id, known: bool)
    requires Safe(s) && Enabled(s, Start(id, known)) && Harmless(s, Start(id, known))
    ensures Replicated(Next(s, Start(id, known)))
  {
    hide Begin, Launch, Sendable, Transfer, Countable, Faithful, RowsMap, Serviceable, Logged;
    LaunchFacts(s, id, known);
    if At(s, Other(id)).Running? {
      OrderlyAt(s, Other(id));
      BeginFacts(At(s, Other(id)).p.replica, UP_REQUEST, Some(s.next));
    }
  }

  lemma CrashReplicated(s: System, id: Id, sent: bool)
    requires Safe(s) && Enabled(s, Crash(id, sent))
    ensures Replicated(Next(s, Crash(id, sent)))
  {
    hide Sendable, Serviceable, Logged, Faithful;
  }

  /** A request at `me`, seen from `me`: with a live backup in pace, the backup will log what `me` logs. */
  lemma WorkerRelated(me: Process, p: Process, other: Node, req: Message, origin: Origin, acked: seq<Message>)
    requires me.phase == Idle && Serviceable(req) && Worked(me, p, req, origin) && Related(me, other, acked)
    requires Leads(Running(me)) && LinkedTo(Running(me), other) && other.p.log == me.log ==>
      Logged(other.p, req) == Logged(me, req)
    requires !IsMutation(req) ==> Logged(me, req) == me.log
    ensures Related(p, Sent(p, req, other), acked)
  {
    hide RowsMap, Effective, Serviceable;
    assert me.log <= Logged(me, req);
  }

  /** Equal logs, equal maps: both log the request or neither does. */
  lemma SameLog(s: System, id: Id, req: Message)
    requires Regular(s) && At(s, id).Running? && At(s, Other(id)).Running? && Serviceable(req)
    ensures var me, other := At(s, id).p, At(s, Other(id)).p;
      other.log == me.log ==> Logged(other, req) == Logged(me, req)
  {
    hide Control, RowsMap, Effective, Serviceable, WellFormed, Replay, Sendable;
    FaithfulAt(s, id);
    FaithfulAt(s, Other(id));
  }

  lemma NotLogged(p: Process, req: Message)
    requires Serviceable(req) && !IsMutation(req)
    ensures Logged(p, req) == p.log
  {
    hide RowsMap, Effective;
    NotEffective(RowsMap(p.replica.rows), req);
  }

  /** A request of a client at `me`, seen from the other process: allowed where it changes nothing or repeats what
    * the other is forwarding. */
  lemma WatcherRelated(me: Process, p: Process, other: Process, req: Message, acked: seq<Message>)
    requires me.phase == Idle && Serviceable(req) && Worked(me, p, req, FromClient)
    requires Related(other, Running(me), acked)
    requires RowsMap(p.replica.rows) == ApplyMap(RowsMap(me.replica.rows), req)
    requires IsLed(Running(other), Running(me)) && Effective(RowsMap(me.replica.rows), req) ==>
      Forwarding(Running(other), req)
    ensures Related(other, Running(p), acked)
  {
    hide RowsMap, Serviceable, ApplyMap, Effective;
    EffectiveIff(RowsMap(me.replica.rows), req);
    Repeated(RowsMap(me.replica.rows), req);
  }

  /** The backup of `me` gets a request to read. */
  lemma BackupRelated(me: Process, p: Process, other: Process, req: Message, origin: Origin, acked: seq<Message>)
    requires Serviceable(req) && Worked(me, p, req, origin)
    requires Related(other, Running(p), acked) && !Leads(Running(other))
    ensures Related(Sent(p, req, Running(other)).p, Running(p), acked)
  {
    hide RowsMap, Serviceable, Effective, Logged;
  }

  lemma ClientReplicated(s: System, id: Id, req: Message)
    requires Safe(s) && Enabled(s, Client(id, req)) && Proper(s, Client(id, req))
    ensures Replicated(Next(s, Client(id, req)))
  {
    hide Sendable, Next, Related, Work, Faithful, RowsMap, Serviceable, Logged, Effective, Orderly, Worked;
    var p := ClientShape(s, id, req);
    var me, other := At(s, id).p, At(s, Other(id));
    RelatedAt(s, id);
    FaithfulAt(s, id);
    WorkFaithful(me, Size(s, id), req, FromClient);
    if !IsMutation(req) {
      NotLogged(me, req);
    }
    if other.Running? {
      RelatedAt(s, Other(id));
      SameLog(s, id, req);
      WatcherRelated(me, p, other.p, req, s.acked);
      if Leads(At(s, id)) {
        OtherAside(s, id);
        BackupRelated(me, p, other.p, req, FromClient, s.acked);
      } else {
        BackupAsks(me, p, other, req);
      }
    }
    WorkerRelated(me, p, other, req, FromClient, s.acked);
    WorkedPart(me, p, other, req, FromClient);
  }

  /** A request changes nobody's part in the history. */
  lemma WorkedPart(me: Process, p: Process, other: Node, req: Message, origin: Origin)
    requires Serviceable(req) && Worked(me, p, req, origin)
    ensures p.insync == me.insync && Sent(p, req, other).Running? == other.Running?
    ensures other.Running? ==> Sent(p, req, other).p.insync == other.p.insync
  {
    hide RowsMap, Serviceable, Effective, Logged;
  }

  /** The reader of a forwarded request, where nothing is passed on. */
  lemma TakerRelated(me: Process, p: Process, other: Node, acked: seq<Message>)
    requires me.inbox != [] && Serviceable(me.inbox[0]) && !Leads(Running(me))
    requires Related(me, other, acked) && Worked(me.(inbox := me.inbox[1..]), p, me.inbox[0], FromPeer)
    ensures Related(p, Notify(p, other), acked)
  {
    hide RowsMap, Serviceable, Effective;
  }

  /** The other process, seen with the reader: what it is still to read shrinks by what it has logged. */
  lemma ReaderRelated(me: Process, p: Process, other: Process, acked: seq<Message>)
    requires me.inbox != [] && Serviceable(me.inbox[0])
    requires Related(other, Running(me), acked) && Worked(me.(inbox := me.inbox[1..]), p, me.inbox[0], FromPeer)
    requires other.phase.Waiting? ==> Leads(Running(other))
    ensures !Leads(Running(me)) ==> Related(Notify(p, Running(other)).p, Running(p), acked)
    ensures !Leads(Running(other)) ==> Related(other, Running(p), acked)
  {
    hide RowsMap, Serviceable, Effective;
  }

  /** What is unread does not count for the reader itself. */
  lemma RestRelated(me: Process, other: Node, acked: seq<Message>)
    requires Related(me, other, acked) && me.inbox != []
    ensures Related(me.(inbox := me.inbox[1..]), other, acked)
  {
  }

  lemma TakeReplicated(s: System, id: Id)
    requires Safe(s) && Enabled(s, Take(id))
    ensures Replicated(Next(s, Take(id)))
  {
    hide Sendable, Next, Related, Faithful, RowsMap, Serviceable, Logged, Effective, Orderly, Work, Worked;
    var p := TakeShape(s, id);
    var me, other := At(s, id).p, At(s, Other(id));
    var rest, req := me.(inbox := me.inbox[1..]), me.inbox[0];
    RelatedAt(s, id);
    TakenPhase(rest, p, req);
    ReadsMutation(s, id);
    WorkedPart(rest, p, other, req, FromPeer);
    if other.Running? {
      RelatedAt(s, Other(id));
      LeadsIfWaiting(s, Other(id));
      ReaderRelated(me, p, other.p, s.acked);
    }
    if Leads(At(s, id)) {
      OtherAside(s, id);
      RestRelated(me, other, s.acked);
      if other.Running? {
        SameLog(s, id, req);
        LoggedBefore(me);
        BackupRelated(rest, p, other.p, req, FromPeer, s.acked);
      }
      WorkerRelated(rest, p, other, req, FromPeer, s.acked);
    } else {
      TakerRelated(me, p, other, s.acked);
    }
  }

  lemma TakenPhase(me: Process, p: Process, req: Message)
    requires Serviceable(req) && Worked(me, p, req, FromPeer)
    ensures p.phase.Waiting? <==> IsMutation(req) && Leads(Running(me))
  {
  }

  /** An answer: the logs are equal, and all of it may be acknowledged. */
  lemma FinishedRelated(me: Process, p: Process, other: Node, acked: seq<Message>, after: seq<Message>)
    requires Related(me, other, acked) && Shares(Running(me), other) && Leads(Running(me))
    requires me.phase.Waiting? && me.phase.answered && p == me.(phase := Idle) && (after == acked || after == me.log)
    ensures Related(p, other, after)
    ensures other.Running? && Related(other.p, Running(me), acked) ==> Related(other.p, Running(p), after)
  {
    hide RowsMap, Serviceable, Effective;
  }

  lemma FinishReplicated(s: System, id: Id)
    requires Safe(s) && Enabled(s, Finish(id))
    ensures Replicated(Next(s, Finish(id)))
  {
    hide Sendable, Faithful, Orderly, Related;
    var me := At(s, id).p;
    WaiterLeads(s, id);
    OtherAside(s, id);
    RelatedAt(s, id);
    NotWaiting(s, Other(id));
    FinishedRelated(me, me.(phase := Idle), At(s, Other(id)), s.acked, Next(s, Finish(id)).acked);
  }

  /** A lost answer: the link is down, and the backup's log with what it has yet to read is behind. */
  lemma GivenUpRelated(me: Process, p: Process, other: Node, acked: seq<Message>)
    requires Related(me, other, acked) && Leads(Running(me)) && me.phase.Waiting?
    requires p == me.(phase := Idle, replica := Answered(me.replica, false))
    ensures Related(p, other, acked)
    ensures other.Running? && Related(other.p, Running(me), acked) ==> Related(other.p, Running(p), acked)
  {
    hide RowsMap, Serviceable, Effective;
  }

  lemma GiveUpReplicated(s: System, id: Id)
    requires Safe(s) && Enabled(s, GiveUp(id))
    ensures Replicated(Next(s, GiveUp(id)))
  {
    hide Sendable, Faithful, Orderly, Related;
    var me := At(s, id).p;
    WaiterLeads(s, id);
    OtherAside(s, id);
    RelatedAt(s, id);
    NotWaiting(s, Other(id));
    GivenUpRelated(me, me.(phase := Idle, replica := Answered(me.replica, false)), At(s, Other(id)), s.acked);
  }

  /** A promotion keeps the relations, and so does a request that is dropped. */
  lemma PromotedRelated(me: Process, p: Process, other: Node, acked: seq<Message>)
    requires Related(me, other, acked)
    requires PromotedFrom(me, p)
    ensures Related(p, other, acked)
    ensures other.Running? && Related(other.p, Running(me), acked) ==> Related(other.p, Running(p), acked)
  {
    hide RowsMap, Serviceable, Effective;
  }

  lemma GoneReplicated(s: System, step: Step)
    requires Safe(s) && Enabled(s, step) && (step.PeerGone? || step.ClientGone? || step.Drop?)
    ensures Replicated(Next(s, step))
  {
    hide Sendable, Related, Faithful, Orderly;
    var me := At(s, step.id).p;
    RelatedAt(s, step.id);
    PromotedRelated(me, At(Next(s, step), step.id).p, At(s, Other(step.id)), s.acked);
  }

  lemma StepReplicated(s: System, step: Step)
    requires Safe(s) && Enabled(s, step) && Proper(s, step)
    ensures Replicated(Next(s, step))
  {
    hide Safe, Replicated, Enabled, Next, Harmless;
    match step
    case Start(id, known) => StartReplicated(s, id, known);
    case Crash(id, sent) => CrashReplicated(s, id, sent);
    case Client(id, req) => ClientReplicated(s, id, req);
    case Take(id) => TakeReplicated(s, id);
    case Finish(id) => FinishReplicated(s, id);
    case GiveUp(id) => GiveUpReplicated(s, id);
    case _ => GoneReplicated(s, step);
  }

  // ---- Whole runs ----

  lemma StepSafe(s: System, step: Step)
    requires Safe(s) && Enabled(s, step) && Proper(s, step)
    ensures Safe(Next(s, step))
  {
    hide Control, Faithful, Shared, Replicated, Enabled, Next, Proper;
    StepRegular(s, step);
    StepShared(s, step);
    StepReplicated(s, step);
  }

  lemma {:induction false} RunSafe(s: System, steps: seq<Step>)
    requires Safe(s) && Run(s, steps) && Each(Proper, s, steps)
    ensures Safe(Final(s, steps))
    decreases steps
  {
    hide Safe, Enabled, Next, Proper;
    if steps != [] {
      StepSafe(s, steps[0]);
      RunSafe(Next(s, steps[0]), steps[1..]);
    }
  }

  lemma InitSafe(s: System)
    requires Init(s)
    ensures Safe(s)
  {
  }

  /** Replication safety, for any two bucket counts, over every proper run: a leader and its live backup are in step,
    * and once an answer was lost the backup's log, with what it has yet to read, stays a prefix until a client
    * mutates the backup. */
  lemma ReplicationSafety(s: System, steps: seq<Step>, id: Id)
    requires Init(s) && Run(s, steps) && Each(Proper, s, steps)
    ensures InStep(Final(s, steps))
    ensures var t := Final(s, steps);
      var me, other := At(t, id), At(t, Other(id));
      !Leads(me) && LinkedTo(me, other) && other.p.clean ==> Caught(other.p) <= me.p.log
  {
    hide Init, Run, Final, InStep, Regular, Proper, Harmless, Caught;
    InitSafe(s);
    RunSafe(s, steps);
    RegularControl(s);
    ProperRunHarmless(s, steps);
    InStepIff(s, steps);
    AlwaysFinal(InStep, s, steps);
    var t := Final(s, steps);
    if At(t, id).Running? {
      RelatedAt(t, id);
    }
  }

  // ---- Acknowledged writes ----

  lemma AckedGrowsStep(s: System, step: Step)
    requires Safe(s) && Enabled(s, step) && Survivor(Next(s, step))
    ensures s.acked <= Next(s, step).acked
  {
    hide Begin, Launch, Sendable, Faithful, RowsMap, Logged, Serviceable;
  }

  /** The acknowledged history only ever grows while some replica of it keeps running. */
  lemma {:induction false} AckedGrows(s: System, steps: seq<Step>)
    requires Safe(s) && Run(s, steps) && Each(Proper, s, steps) && Always(Survivor, s, steps)
    ensures s.acked <= Final(s, steps).acked
    decreases steps
  {
    hide Safe, Enabled, Next, Proper, Survivor;
    if steps != [] {
      StepSafe(s, steps[0]);
      AlwaysFirst(Survivor, Next(s, steps[0]), steps[1..]);
      AckedGrowsStep(s, steps[0]);
      AckedGrows(Next(s, steps[0]), steps[1..]);
    }
  }

  /** In proper runs an acknowledged history is a prefix of the history behind the table of every replica that takes
    * part, for as long as one of them keeps running. */
  lemma AcknowledgedPrefix(s: System, before: seq<Step>, after: seq<Step>, id: Id)
    requires Init(s) && Run(s, before) && Each(Proper, s, before)
    requires var t := Final(s, before); Run(t, after) && Each(Proper, t, after) && Always(Survivor, t, after)
    ensures var t, u := Final(s, before), Final(Final(s, before), after);
      At(u, id).Running? && At(u, id).p.insync ==>
        && t.acked <= At(u, id).p.log
        && Mutations(At(u, id).p.log) && MapAt(At(u, id)) == Replayed(At(u, id).p.log)
  {
    hide Init, Run, Each, Always, Final, Control, Faithful, Shared, WellFormed, RowsMap, Replay, Logged, Caught;
    InitSafe(s);
    RunSafe(s, before);
    RunSafe(Final(s, before), after);
    AckedGrows(Final(s, before), after);
    var u := Final(Final(s, before), after);
    if At(u, id).Running? {
      RelatedAt(u, id);
      ReplayedAt(u, id);
    }
  }

  /** The crash of a leader leaves its live backup in pace: it survives with everything acknowledged, at most one
    * operation short of what the leader held, and it loses nothing by what it has yet to read. */
  lemma CrashLeavesSurvivor(t: System, id: Id, sent: bool)
    requires Safe(t) && Leads(At(t, id)) && LinkedTo(At(t, id), At(t, Other(id)))
    ensures var u := Next(t, Crash(id, sent)); var p := At(u, Other(id)).p;
      && Survivor(u) && u.acked == t.acked && p.pending
      && t.acked <= p.log <= Caught(p) <= At(t, id).p.log
      && |p.inbox| <= 1 && |At(t, id).p.log| <= |p.log| + 1
  {
    hide Sendable, Faithful, Orderly, RowsMap, Serviceable, Effective;
    RelatedAt(t, id);
    RelatedAt(t, Other(id));
  }
}
