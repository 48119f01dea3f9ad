/** Runs from the start that show what the system does not keep. */
module ClusterRuns {
  import opened Options
  import opened Rows
  import opened Messages
  import opened Skeleton
  import opened Remote
  import opened StateTransfer
  import opened Servers
  import opened Cluster
  import opened ClusterControl
  import opened ClusterData

  // ---- The two tables part ----

  /** A client that puts a pair at the backup parts the tables for good: the leader is up, linked and idle. */
  lemma PutAtBackupParts(s: System, k: Key, v: Value)
    requires Init(s) && Sendable(PutRequest(k, v))
    ensures var steps := [Start(B, false), Start(A, true), Client(B, PutRequest(k, v))];
      && Run(s, steps)
      && var t := Final(s, steps);
         && Leads(t.a) && LinkedTo(t.a, t.b) && t.a.p.phase == Idle
         && MapAt(t.a) == map[] && MapAt(t.b) == map[k := v]
  {
    hide Work, Transfer, RowsMap, Sendable, Serviceable, EmptyRows;
    BothStart(s);
    var u := Next(Next(s, Start(B, false)), Start(A, true));
    EmptyRowsMap(EmptyRows(s.sizeA), s.sizeA);
    PutInEmpty(u.b.p, k, v, s.sizeB, FromClient);
    ThreeSteps(s, Start(B, false), Start(A, true), Client(B, PutRequest(k, v)));
  }

  /** A primary that starts over a secundary with a pair in its table leads with an empty one. */
  lemma StartOverTableParts(s: System, k: Key, v: Value)
    requires Init(s) && Sendable(PutRequest(k, v))
    ensures var steps := [Start(B, false), Client(B, PutRequest(k, v)), Start(A, true)];
      && Run(s, steps)
      && var t := Final(s, steps);
         && Leads(t.a) && LinkedTo(t.a, t.b) && t.a.p.phase == Idle
         && MapAt(t.a) == map[] && MapAt(t.b) == map[k := v]
  {
    hide Work, Transfer, RowsMap, Sendable, Serviceable, EmptyRows, Begin, Countable;
    BothStart(s);
    var t := Next(s, Start(B, false));
    EmptyRowsMap(EmptyRows(s.sizeA), s.sizeA);
    PutInEmpty(t.b.p, k, v, s.sizeB, FromClient);
    AskStatusIs(Next(t, Client(B, PutRequest(k, v))).b.p.replica);
    ThreeSteps(s, Start(B, false), Client(B, PutRequest(k, v)), Start(A, true));
  }

  lemma PutInEmpty(p: Process, k: Key, v: Value, size: nat, origin: Origin)
    requires p.replica.rows == EmptyRows(size) && size > 0 && Sendable(PutRequest(k, v))
    ensures var put := PutRequest(k, v);
      && Serviceable(put) && p.replica.rows != []
      && var q := Work(p, put, origin);
         && RowsMap(q.replica.rows) == map[k := v] && Countable(q.replica.rows) && q.replica.rows != []
         && q == p.(replica := q.replica, log := q.log, clean := q.clean,
                    phase := if Leads(Running(p)) then Waiting(put, origin, false) else Idle)
         && q.replica == p.replica.(rows := q.replica.rows)
  {
    hide Invoke, RowsMap, WellFormed, Sendable, Total;
    var put := PutRequest(k, v);
    SendableIsServiceable(put);
    FreshFaithful(size);
    InvokeRefines(EmptyRows(size), put);
    var rows := Invoke(EmptyRows(size), put).0;
    assert RowsMap(rows) == map[k := v];
    assert RowsMap(rows).Keys == {k};
    PlacedOf(rows);
    CardinalityIsTotal(rows, |rows|);
  }

  // ---- A forwarded request outlives its sender ----

  /** A run with one more step. */
  lemma {:induction false} Longer(s: System, steps: seq<Step>, step: Step)
    requires Run(s, steps) && Enabled(Final(s, steps), step)
    ensures Run(s, steps + [step]) && Final(s, steps + [step]) == Next(Final(s, steps), step)
    decreases steps
  {
    hide Enabled, Next;
    var all := steps + [step];
    if steps == [] {
      assert all[1..] == [] && Run(Next(s, step), []);
    } else {
      assert all[1..] == steps[1..] + [step];
      Longer(Next(s, steps[0]), steps[1..], step);
    }
  }

  /** A forwards a put to B and dies before B reads it; B sees the end of a connection first. */
  function OrphanSteps(put: Message): seq<Step> {
    [Start(B, false), Start(A, true), Client(A, put), Crash(A, true), PeerGone(B)]
  }

  /** B is now primary with an empty table and the put still to read. */
  lemma Orphaned(s: System, k: Key, v: Value)
    requires Init(s) && Sendable(PutRequest(k, v))
    ensures Run(s, OrphanSteps(PutRequest(k, v)))
    ensures var t := Final(s, OrphanSteps(PutRequest(k, v)));
      && t.a == Stopped && t.sizeA == s.sizeA && t.sizeB == s.sizeB
      && t.b == Running(Process(s.next, Replica(PRIMARY, DOWN, None, EmptyRows(s.sizeB)), Idle,
                                [PutRequest(k, v)], false, [], true, true))
  {
    hide Work, Transfer, RowsMap, Sendable, Serviceable, EmptyRows, Countable;
    var put := PutRequest(k, v);
    BothStart(s);
    var u := Next(Next(s, Start(B, false)), Start(A, true));
    PutInEmpty(u.a.p, k, v, s.sizeA, FromClient);
    ThreeSteps(s, Start(B, false), Start(A, true), Client(A, put));
    Longer(s, [Start(B, false), Start(A, true), Client(A, put)], Crash(A, true));
    Longer(s, [Start(B, false), Start(A, true), Client(A, put)] + [Crash(A, true)], PeerGone(B));
    assert OrphanSteps(put) ==
      [Start(B, false), Start(A, true), Client(A, put)] + [Crash(A, true)] + [PeerGone(B)];
  }

  /** A second hop: A comes back and joins, and B passes the put on to the server it came from. */
  lemma SecondHopRun(s: System, k: Key, v: Value)
    requires Init(s) && Sendable(PutRequest(k, v))
    ensures var put := PutRequest(k, v);
      var steps := OrphanSteps(put) + [Start(A, true)] + [Take(B)];
      && Run(s, steps)
      && var t := Final(s, steps);
         t.b.Running? && t.b.p.phase == Waiting(put, FromPeer, false) && t.a.Running? && t.a.p.inbox == [put]
  {
    hide Work, Transfer, RowsMap, Sendable, Serviceable, EmptyRows, Countable, Final, OrphanSteps;
    var put := PutRequest(k, v);
    Orphaned(s, k, v);
    var t := Final(s, OrphanSteps(put));
    EmptyTransfer(s.sizeB, s.sizeA);
    AskStatusIs(t.b.p.replica);
    Longer(s, OrphanSteps(put), Start(A, true));
    var u := Next(t, Start(A, true));
    UpFacts(t.b.p.replica, t.next);
    assert u.a.Running? && u.a.p.epoch == t.next && u.a.p.inbox == [];
    assert u.b == Running(t.b.p.(replica := t.b.p.replica.(backup := Some(t.next), state := UP), insync := true));
    assert u.b.p.inbox[1..] == [];
    PutInEmpty(u.b.p.(inbox := u.b.p.inbox[1..]), k, v, s.sizeB, FromPeer);
    Longer(s, OrphanSteps(put) + [Start(A, true)], Take(B));
  }

  lemma UpFacts(r: Replica, id: nat)
    requires r.rows != []
    ensures Begin(r, UP_REQUEST, Some(id)).0 == r.(backup := Some(id), state := UP)
  {
  }

  lemma EmptyTransfer(from: nat, to: nat)
    requires from > 0 && to > 0
    ensures EmptyRows(from) != [] && EmptyRows(to) != [] && Countable(EmptyRows(from))
    ensures Transfer(EmptyRows(from), EmptyRows(to)).Some?
  {
    hide Transfer, RowsMap, WellFormed, Total;
    FreshFaithful(from);
    FreshFaithful(to);
    PlacedOf(EmptyRows(from));
    PlacedOf(EmptyRows(to));
    CardinalityIsTotal(EmptyRows(from), from);
    TransferExact(EmptyRows(from), EmptyRows(to));
  }
}
