/** Acknowledged writes over every harmless run: what is answered is on both servers, and survives a crash. */
module ClusterSafety {
  import opened Options
  import opened Rows
  import opened Messages
  import opened Skeleton
  import opened Remote
  import opened StateTransfer
  import opened Servers
  import opened Cluster
  import opened ClusterControl
  import opened ClusterData
  import opened ClusterMaps

  // ---- Who takes part in the acknowledged history ----

  /** A leader does, and besides it exactly the live backup that it is linked to. */
  ghost predicate Shares(me: Node, other: Node) {
    Leads(me) ==> me.p.insync && (other.Running? ==> (other.p.insync <==> LinkedTo(me, other)))
  }

  ghost predicate Shared(s: System) {
    Shares(s.a, s.b) && Shares(s.b, s.a)
  }

  lemma StartShared(s: System, id: Id, known: bool)
    requires Control(s) && Shared(s) && Enabled(s, Start(id, known))
    ensures Shared(Next(s, Start(id, known)))
  {
    hide Begin, Launch, Sendable, Transfer, Countable, RowsMap;
    LaunchFacts(s, id, known);
    if At(s, Other(id)).Running? {
      OrderlyAt(s, Other(id));
      BeginFacts(At(s, Other(id)).p.replica, UP_REQUEST, Some(s.next));
    }
  }

  lemma ClientShared(s: System, id: Id, req: Message)
    requires Shared(s) && Enabled(s, Client(id, req))
    ensures Shared(Next(s, Client(id, req)))
  {
    hide Sendable, Serviceable, Effective, RowsMap, Logged, Next, Work;
    var _ := ClientShape(s, id, req);
  }

  lemma TakeShared(s: System, id: Id)
    requires Control(s) && Shared(s) && Enabled(s, Take(id))
    ensures Shared(Next(s, Take(id)))
  {
    hide Sendable, Serviceable, Effective, RowsMap, Logged, Next, Work, Orderly;
    var _ := TakeShape(s, id);
  }

  lemma QuietShared(s: System, step: Step)
    requires Shared(s) && Enabled(s, step) && Quieter(step)
    ensures Shared(Next(s, step))
  {
    hide Sendable, Serviceable, RowsMap;
  }

  lemma StepShared(s: System, step: Step)
    requires Control(s) && Shared(s) && Enabled(s, step)
    ensures Shared(Next(s, step))
  {
    hide Control, Shared, Enabled, Next;
    match step
    case Start(id, known) => StartShared(s, id, known);
    case Client(id, req) => ClientShared(s, id, req);
    case Take(id) => TakeShared(s, id);
    case _ => QuietShared(s, step);
  }

  predicate Survivor(s: System) {
    (s.a.Running? && s.a.p.insync) || (s.b.Running? && s.b.p.insync)
  }

  // ---- What the histories pass through ----

  /** Somewhere along the log its map is `m`. */
  ghost predicate Passes(log: seq<Message>, m: Map)
    requires Mutations(log)
  {
    exists n :: 0 <= n <= |log| && Replayed(log[..n]) == m
  }

  /** The history of every process that takes part passes through `m`. */
  ghost predicate Holds(s: System, m: Map) {
    && (s.a.Running? && s.a.p.insync ==> Mutations(s.a.p.log) && Passes(s.a.p.log, m))
    && (s.b.Running? && s.b.p.insync ==> Mutations(s.b.p.log) && Passes(s.b.p.log, m))
  }

  lemma HoldsAt(s: System, m: Map, id: Id)
    requires Holds(s, m) && At(s, id).Running? && At(s, id).p.insync
    ensures Mutations(At(s, id).p.log) && Passes(At(s, id).p.log, m)
  {
    assert id == A || id == B;
  }

  lemma HoldsFor(s: System, m: Map)
    requires forall id :: At(s, id).Running? && At(s, id).p.insync ==>
      Mutations(At(s, id).p.log) && Passes(At(s, id).p.log, m)
    ensures Holds(s, m)
  {
    assert At(s, A) == s.a && At(s, B) == s.b;
  }

  lemma PassesOn(log: seq<Message>, longer: seq<Message>, m: Map)
    requires Mutations(longer) && log <= longer && Mutations(log) && Passes(log, m)
    ensures Passes(longer, m)
  {
    hide Replayed;
    var n :| 0 <= n <= |log| && Replayed(log[..n]) == m;
    assert log[..n] == longer[..n];
  }

  /** Every log begins with the empty map and ends with its own. */
  lemma PassesEnds(log: seq<Message>)
    requires Mutations(log)
    ensures Passes(log, map[]) && Passes(log, Replayed(log))
  {
    assert log[..0] == [] && Replayed(log[..0]) == map[];
    assert log[..|log|] == log;
  }

  /** But for a start, a process that takes part did so before, and its log has only grown. */
  lemma LogGrows(s: System, step: Step, id: Id)
    requires Control(s) && Enabled(s, step) && !step.Start? && At(Next(s, step), id).Running?
    ensures At(s, id).Running? && At(Next(s, step), id).p.insync == At(s, id).p.insync
    ensures At(s, id).p.log <= At(Next(s, step), id).p.log
  {
    hide Next, Control, Sendable, Serviceable, Effective, RowsMap, Work, Enabled;
    if step.Client? {
      var _ := ClientShape(s, step.id, step.req);
      Runs(s, step);
    } else if step.Take? {
      Runs(s, step);
      var _ := TakeShape(s, step.id);
    } else {
      QuietShape(s, step, id);
    }
  }

  lemma Runs(s: System, step: Step)
    requires Enabled(s, step) && !step.Start?
    ensures At(s, step.id).Running? && (step.Take? ==> At(s, step.id).p.inbox != [])
    ensures step.Take? ==> Serviceable(At(s, step.id).p.inbox[0])
  {
  }

  lemma StepHolds(s: System, step: Step, m: Map)
    requires Regular(s) && Enabled(s, step) && Harmless(s, step) && Holds(s, m) && Survivor(s)
    ensures Holds(Next(s, step), m)
  {
    hide Enabled, Next, Control, Faithful, Holds, Passes, Harmless;
    var t := Next(s, step);
    StepRegular(s, step);
    forall id | At(t, id).Running? && At(t, id).p.insync
      ensures Mutations(At(t, id).p.log) && Passes(At(t, id).p.log, m)
    {
      LogsRegular(t, id);
      if step.Start? {
        var other := Other(step.id);
        StartLog(s, step.id, step.known, id);
        HoldsAt(s, m, other);
      } else {
        LogGrows(s, step, id);
        HoldsAt(s, m, id);
        PassesOn(At(s, id).p.log, At(t, id).p.log, m);
      }
    }
    HoldsFor(t, m);
  }

  lemma LogsRegular(s: System, id: Id)
    requires Regular(s) && At(s, id).Running?
    ensures Mutations(At(s, id).p.log)
  {
    FaithfulAt(s, id);
  }

  /** After a harmless start of a server beside a process that takes part, whoever takes part has that one's log. */
  lemma StartLog(s: System, id: Id, known: bool, i: Id)
    requires Enabled(s, Start(id, known)) && Harmless(s, Start(id, known)) && Survivor(s)
    requires var t := Next(s, Start(id, known)); At(t, i).Running? && At(t, i).p.insync
    ensures At(s, Other(id)).Running? && At(s, Other(id)).p.insync
    ensures At(Next(s, Start(id, known)), i).p.log == At(s, Other(id)).p.log
  {
    hide Launch, Begin, Sendable, Countable, RowsMap;
  }

  /** The acknowledged map is behind every process that takes part, and without one nothing is acknowledged. */
  ghost predicate Acknowledged(s: System) {
    Mutations(s.acked) && Holds(s, Replayed(s.acked)) && (!Survivor(s) ==> s.acked == [])
  }

  lemma NothingHeld(s: System)
    requires Regular(s)
    ensures Mutations([]) && Holds(s, Replayed([]))
  {
    hide Control, Faithful, Holds;
    forall id | At(s, id).Running? && At(s, id).p.insync
      ensures Mutations(At(s, id).p.log) && Passes(At(s, id).p.log, map[])
    {
      LogsRegular(s, id);
      PassesEnds(At(s, id).p.log);
    }
    HoldsFor(s, map[]);
  }

  lemma StepAcknowledged(s: System, step: Step)
    requires Regular(s) && InStep(s) && Shared(s) && Acknowledged(s) && Enabled(s, step) && Harmless(s, step)
    ensures Acknowledged(Next(s, step))
  {
    hide Enabled, Next, Control, Faithful, Holds, Harmless, InStep, Shared, Mutations, Replayed;
    StepRegular(s, step);
    NothingHeld(Next(s, step));
    AckedStep(s, step);
    if step.Finish? {
      FinishAcknowledged(s, step);
    } else if Survivor(s) {
      StepHolds(s, step, Replayed(s.acked));
    }
  }

  /** But for an answer to a client, only the last crash changes what is acknowledged. */
  lemma AckedStep(s: System, step: Step)
    requires Control(s) && Enabled(s, step)
    ensures !step.Finish? ==> Next(s, step).acked == s.acked || Next(s, step).acked == []
    ensures !Survivor(Next(s, step)) && !step.Finish? ==>
      Next(s, step).acked == [] || (!Survivor(s) && Next(s, step).acked == s.acked)
  {
    hide Control, Launch, Begin, Sendable, Serviceable, Effective, Countable, RowsMap, Work, Transfer;
    match step
    case Client(i, req) =>
      hide Next;
      var _ := ClientShape(s, i, req);
    case Take(i) =>
      hide Next;
      var _ := TakeShape(s, i);
    case _ =>
  }

  /** At the answer to a client, leader and backup hold the acknowledged map. */
  lemma FinishAcknowledged(s: System, step: Step)
    requires Regular(s) && InStep(s) && Shared(s) && Acknowledged(s) && Enabled(s, step) && step.Finish?
    ensures Acknowledged(Next(s, step))
  {
    hide Faithful, Holds, Orderly, Mutations, Replayed, Passes;
    var t, i := Next(s, step), step.id;
    WaiterLeads(s, i);
    forall id | At(s, id).Running? && At(s, id).p.insync
      ensures At(t, id).Running? && At(t, id).p.insync && At(t, id).p.log == At(s, id).p.log
      ensures Mutations(At(t, id).p.log) && Mutations(t.acked) && Passes(At(t, id).p.log, Replayed(t.acked))
    {
      assert id == i || id == Other(i);
      LogsRegular(s, id);
      LogsRegular(s, i);
      if At(s, i).p.phase.origin == FromPeer {
        HoldsAt(s, Replayed(s.acked), id);
      } else {
        ReplayedAt(s, id);
        ReplayedAt(s, i);
        PassesEnds(At(s, id).p.log);
      }
    }
    HoldsFor(t, Replayed(t.acked));
  }

  lemma ReplayedAt(s: System, id: Id)
    requires Regular(s) && At(s, id).Running?
    ensures Mutations(At(s, id).p.log) && MapAt(At(s, id)) == Replayed(At(s, id).p.log)
  {
    FaithfulAt(s, id);
  }

  // ---- Whole runs ----

  /** What every state of a harmless run satisfies. */
  ghost predicate Kept(s: System) {
    Regular(s) && InStep(s) && Shared(s) && Acknowledged(s)
  }

  lemma StepKept(s: System, step: Step)
    requires Kept(s) && Enabled(s, step) && Harmless(s, step)
    ensures Kept(Next(s, step))
  {
    hide Enabled, Next, Control, Faithful, InStep, Shared, Acknowledged, Harmless;
    StepRegular(s, step);
    StepInStep(s, step);
    StepShared(s, step);
    StepAcknowledged(s, step);
  }

  lemma {:induction false} RunKept(s: System, steps: seq<Step>)
    requires Kept(s) && Run(s, steps) && Each(Harmless, s, steps)
    ensures Kept(Final(s, steps))
    decreases steps
  {
    hide Kept, Enabled, Next, Harmless;
    if steps != [] {
      StepKept(s, steps[0]);
      RunKept(Next(s, steps[0]), steps[1..]);
    }
  }

  lemma InitialKept(s: System)
    requires Init(s)
    ensures Kept(s)
  {
    InitRegular(s);
    InitInStep(s);
  }

  lemma {:induction false} RunHolds(s: System, steps: seq<Step>, m: Map)
    requires Kept(s) && Holds(s, m) && Run(s, steps) && Each(Harmless, s, steps) && Always(Survivor, s, steps)
    ensures Holds(Final(s, steps), m)
    decreases steps
  {
    hide Enabled, Next, Harmless, Control, Faithful, InStep, Shared, Acknowledged, Holds, Survivor;
    if steps != [] {
      AlwaysFirst(Survivor, s, steps);
      StepHolds(s, steps[0], m);
      StepKept(s, steps[0]);
      RunHolds(Next(s, steps[0]), steps[1..], m);
    }
  }

  lemma AlwaysFirst(p: System -> bool, s: System, steps: seq<Step>)
    requires Run(s, steps) && Always(p, s, steps)
    ensures p(s)
  {
  }

  /** Acknowledged writes survive failover, in every run that keeps the replicas in step: what was answered while the
    * link was up stays, for as long as one replica that takes part keeps running, a map that the history of every such
    * replica passes through; and its table is the replay of that whole history. */
  lemma AcknowledgedWritesSurvive(s: System, before: seq<Step>, after: seq<Step>, id: Id)
    requires Init(s) && Run(s, before) && Each(Harmless, s, before)
    requires var t := Final(s, before); Run(t, after) && Each(Harmless, t, after) && Always(Survivor, t, after)
    ensures var t, u := Final(s, before), Final(Final(s, before), after);
      At(u, id).Running? && At(u, id).p.insync ==>
        && Mutations(t.acked) && Mutations(At(u, id).p.log)
        && Passes(At(u, id).p.log, Replayed(t.acked)) && MapAt(At(u, id)) == Replayed(At(u, id).p.log)
  {
    hide Init, Run, Each, Always, Final, Control, Faithful, InStep, Shared, Holds, Mutations, Replayed, Passes;
    InitialKept(s);
    RunKept(s, before);
    RunKept(Final(s, before), after);
    var t, u := Final(s, before), Final(Final(s, before), after);
    RunHolds(t, after, Replayed(t.acked));
    if At(u, id).Running? && At(u, id).p.insync {
      HoldsAt(u, Replayed(t.acked), id);
      ReplayedAt(u, id);
    }
  }

  /** The answer to a client's mutation is sent after the backup has applied it: both tables hold its effect, and the
    * whole history is acknowledged. */
  lemma AnswerAcknowledges(t: System, id: Id)
    requires Regular(t) && Shared(t) && InStep(t) && Enabled(t, Finish(id))
    ensures var u, req := Next(t, Finish(id)), At(t, id).p.phase.req;
      && Serviceable(req) && ApplyMap(MapAt(At(u, id)), req) == MapAt(At(u, id))
      && (LinkedTo(At(t, id), At(t, Other(id))) ==> MapAt(At(u, Other(id))) == MapAt(At(u, id)))
      && (At(t, id).p.phase.origin == FromClient ==> u.acked == At(u, id).p.log)
  {
    hide Sendable, WellFormed, RowsMap, Serviceable, Effective, Replay, ApplyMap;
    OrderlyAt(t, id);
    WaiterLeads(t, id);
    FaithfulAt(t, id);
    SendableIsServiceable(At(t, id).p.phase.req);
    EffectiveIff(MapAt(At(t, id)), At(t, id).p.phase.req);
  }

  /** The map of a process once it has read its inbox, which holds one request at most. */
  function CaughtMap(p: Process): Map {
    if p.inbox != [] && Serviceable(p.inbox[0]) then ApplyMap(RowsMap(p.replica.rows), p.inbox[0])
    else RowsMap(p.replica.rows)
  }

  /** When a leader dies in a harmless run, its live backup, once it has read what arrived, holds the leader's map;
    * only a request that nobody was answered for, and that never arrived, is missing. */
  lemma CrashKeepsMap(s: System, steps: seq<Step>, id: Id, sent: bool)
    requires Init(s) && Run(s, steps) && Each(Harmless, s, steps)
    requires var t := Final(s, steps); Leads(At(t, id)) && LinkedTo(At(t, id), At(t, Other(id)))
    ensures var t := Final(s, steps); var me, u := At(t, id), Next(t, Crash(id, sent));
      var other := At(u, Other(id));
      && other.Running? && |other.p.inbox| <= 1
      && if Lagging(me) && other.p.inbox == []
         then Serviceable(me.p.phase.req) && MapAt(me) == ApplyMap(MapAt(other), me.p.phase.req)
         else MapAt(me) == CaughtMap(other.p)
  {
    hide Init, Run, Each, Final, Regular, Shared, Acknowledged, RowsMap, ApplyMap, Serviceable;
    InitialKept(s);
    RunKept(s, steps);
    var t := Final(s, steps);
    assert Agreed(At(t, id), At(t, Other(id))) by { assert id == A || id == B; }
  }
}
