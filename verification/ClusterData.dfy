/** The tables over every run: each holds the replay of its process's log. */
module ClusterData {
  import opened Options
  import opened Rows
  import opened Messages
  import opened Skeleton
  import opened Remote
  import opened StateTransfer
  import opened Servers
  import opened Cluster
  import opened ClusterControl

  // ---- Every table is the replay of its log ----

  ghost predicate Mutations(log: seq<Message>) {
    forall i :: 0 <= i < |log| ==> Sendable(log[i]) && IsMutation(log[i])
  }

  /** The table of a process stands for the map its log builds, whatever the number of its buckets; and what it
    * waits for it has applied. */
  ghost predicate Faithful(n: Node, size: nat) {
    n.Running? ==>
      var p := n.p;
      && Mutations(p.log)
      && WellFormed(p.replica.rows) && |p.replica.rows| == size
      && RowsMap(p.replica.rows) == Replayed(p.log)
      && (p.phase.Waiting? && Serviceable(p.phase.req) ==> !Effective(RowsMap(p.replica.rows), p.phase.req))
  }

  ghost function Replayed(log: seq<Message>): Map
    requires Mutations(log)
  {
    Replay(log)
  }

  lemma ReplayStep(log: seq<Message>, req: Message)
    requires Mutations(log) && Sendable(req) && IsMutation(req)
    ensures Mutations(log + [req]) && Replayed(log + [req]) == ApplyMap(Replayed(log), req)
  {
    var l := log + [req];
    assert l[..|l| - 1] == log;
  }

  /** What was built by requests that travelled can travel. */
  lemma {:induction false} ReplayStorable(log: seq<Message>)
    requires Mutations(log)
    ensures Storable(Replayed(log))
  {
    if log != [] {
      ReplayStorable(log[..|log| - 1]);
      StorableKept(Replayed(log[..|log| - 1]), log[|log| - 1]);
    }
  }

  lemma WorkFaithful(p: Process, size: nat, req: Message, origin: Origin)
    requires Faithful(Running(p), size) && Sendable(req) && IsTableRequest(req) && p.replica.rows != []
    ensures Faithful(Running(Work(p, req, origin)), size)
    ensures Serviceable(req) && RowsMap(Work(p, req, origin).replica.rows) == ApplyMap(RowsMap(p.replica.rows), req)
  {
    hide WellFormed, RowsMap, Invoke, Replay, Sendable, ApplyMap, Effective;
    SendableIsServiceable(req);
    InvokeRefines(p.replica.rows, req);
    EffectiveIff(RowsMap(p.replica.rows), req);
    Repeated(RowsMap(p.replica.rows), req);
    if Effective(RowsMap(p.replica.rows), req) {
      ReplayStep(p.log, req);
    }
  }

  /** A request that was applied has no work left. */
  lemma Repeated(m: Map, req: Message)
    requires Serviceable(req)
    ensures !Effective(ApplyMap(m, req), req)
  {
    hide Effective;
    ApplyIdempotent(m, req);
    EffectiveIff(ApplyMap(m, req), req);
  }

  lemma FreshFaithful(size: nat)
    requires size > 0
    ensures WellFormed(EmptyRows(size)) && RowsMap(EmptyRows(size)) == map[] == Replayed([])
  {
    EmptyRowsMap(EmptyRows(size), size);
  }

  /** A joining process ends with the peer's map, through the list, the gets and the puts. */
  lemma JoinFaithful(source: Process, sourceSize: nat, size: nat)
    requires Faithful(Running(source), sourceSize) && Countable(source.replica.rows) && size > 0 && sourceSize > 0
    ensures source.replica.rows != []
    ensures Transfer(source.replica.rows, EmptyRows(size)).Some? ==>
      var rows := Transfer(source.replica.rows, EmptyRows(size)).value;
      WellFormed(rows) && |rows| == size && RowsMap(rows) == Replayed(source.log)
  {
    hide RowsMap, WellFormed, Transfer, Replay, Sendable;
    FreshFaithful(size);
    ReplayStorable(source.log);
    TransferExact(source.replica.rows, EmptyRows(size));
    assert Replayed(source.log) + map[] == Replayed(source.log);
  }

  lemma StartFaithful(s: System, id: Id, known: bool)
    requires Control(s) && Enabled(s, Start(id, known))
    requires Faithful(s.a, s.sizeA) && Faithful(s.b, s.sizeB)
    ensures Faithful(Next(s, Start(id, known)).a, s.sizeA) && Faithful(Next(s, Start(id, known)).b, s.sizeB)
  {
    hide RowsMap, WellFormed, Transfer, Replay, Sendable, Orderly;
    FreshFaithful(Size(s, id));
    var other := At(s, Other(id));
    if other.Running? {
      JoinFaithful(other.p, Size(s, Other(id)), Size(s, id));
      AskStatusIs(other.p.replica);
      BeginFacts(other.p.replica, UP_REQUEST, Some(s.next));
    }
  }

  lemma TableRequest(req: Message)
    requires IsMutation(req)
    ensures IsTableRequest(req)
  {
  }

  lemma ClientFaithful(s: System, id: Id, req: Message)
    requires Faithful(s.a, s.sizeA) && Faithful(s.b, s.sizeB) && Enabled(s, Client(id, req))
    ensures var t := Next(s, Client(id, req)); Faithful(t.a, s.sizeA) && Faithful(t.b, s.sizeB)
  {
    hide RowsMap, WellFormed, Replay, Sendable, Work, Effective, Serviceable;
    WorkFaithful(At(s, id).p, Size(s, id), req, FromClient);
  }

  lemma TakeFaithful(s: System, id: Id)
    requires Control(s) && Faithful(s.a, s.sizeA) && Faithful(s.b, s.sizeB) && Enabled(s, Take(id))
    ensures var t := Next(s, Take(id)); Faithful(t.a, s.sizeA) && Faithful(t.b, s.sizeB)
  {
    hide RowsMap, WellFormed, Replay, Sendable, Work, Effective, Serviceable;
    var p := At(s, id).p;
    OrderlyAt(s, id);
    TableRequest(p.inbox[0]);
    WorkFaithful(p.(inbox := p.inbox[1..]), Size(s, id), p.inbox[0], FromPeer);
  }

  lemma SameTableFaithful(p: Process, q: Process, size: nat)
    requires Faithful(Running(p), size) && q.log == p.log && q.replica.rows == p.replica.rows
    requires q.phase.Waiting? ==> p.phase.Waiting? && q.phase.req == p.phase.req
    ensures Faithful(Running(q), size)
  {
    hide RowsMap, WellFormed, Replay, Sendable, Effective, Serviceable;
  }

  lemma QuietFaithful(s: System, step: Step)
    requires Faithful(s.a, s.sizeA) && Faithful(s.b, s.sizeB) && Enabled(s, step) && Quieter(step)
    ensures var t := Next(s, step); Faithful(t.a, s.sizeA) && Faithful(t.b, s.sizeB)
  {
    hide Enabled, Next, RowsMap, WellFormed, Sendable, Effective, Serviceable, Mutations;
    var t := Next(s, step);
    if t.a.Running? {
      QuietShape(s, step, A);
      SameTableFaithful(s.a.p, t.a.p, s.sizeA);
    }
    if t.b.Running? {
      QuietShape(s, step, B);
      SameTableFaithful(s.b.p, t.b.p, s.sizeB);
    }
  }

  /** Every step of every run, whatever the environment does, keeps the tables the replay of their logs. */
  lemma StepFaithful(s: System, step: Step)
    requires Control(s) && Enabled(s, step)
    requires Faithful(s.a, s.sizeA) && Faithful(s.b, s.sizeB)
    ensures Faithful(Next(s, step).a, s.sizeA) && Faithful(Next(s, step).b, s.sizeB)
  {
    hide Faithful, Control, Enabled, Next;
    match step
    case Start(id, known) => StartFaithful(s, id, known);
    case Client(id, req) => ClientFaithful(s, id, req);
    case Take(id) => TakeFaithful(s, id);
    case _ => QuietFaithful(s, step);
  }

  lemma SizesKept(s: System, step: Step)
    requires Enabled(s, step)
    ensures Next(s, step).sizeA == s.sizeA && Next(s, step).sizeB == s.sizeB
  {
    hide Begin, Launch;
  }

  /** What every state of every run satisfies, whatever the environment does. */
  ghost predicate Regular(s: System) {
    Control(s) && Faithful(s.a, s.sizeA) && Faithful(s.b, s.sizeB)
  }

  lemma RegularControl(s: System)
    requires Regular(s)
    ensures Control(s)
  {
  }

  lemma StepRegular(s: System, step: Step)
    requires Regular(s) && Enabled(s, step)
    ensures Regular(Next(s, step))
  {
    hide Control, Faithful, Enabled, Next;
    StepKeeps(s, step);
    StepFaithful(s, step);
    SizesKept(s, step);
  }

  lemma {:induction false} RunRegular(s: System, steps: seq<Step>)
    requires Regular(s) && Run(s, steps)
    ensures Regular(Final(s, steps))
    decreases steps
  {
    hide Regular, Enabled, Next;
    if steps != [] {
      StepRegular(s, steps[0]);
      RunRegular(Next(s, steps[0]), steps[1..]);
    }
  }

  lemma {:induction false} RunSizes(s: System, steps: seq<Step>)
    requires Run(s, steps)
    ensures Final(s, steps).sizeA == s.sizeA && Final(s, steps).sizeB == s.sizeB
    decreases steps
  {
    hide Enabled, Next;
    if steps != [] {
      SizesKept(s, steps[0]);
      RunSizes(Next(s, steps[0]), steps[1..]);
    }
  }

  lemma InitRegular(s: System)
    requires Init(s)
    ensures Regular(s)
  {
  }

  // ---- The map a process serves ----

  function MapAt(n: Node): Map
    requires n.Running?
  {
    RowsMap(n.p.replica.rows)
  }

  lemma FaithfulAt(s: System, id: Id)
    requires Regular(s)
    ensures Faithful(At(s, id), Size(s, id))
  {
    assert id == A || id == B;
  }
}
