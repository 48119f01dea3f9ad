/** The slots of the poll loop and the counter of connected clients. */
module Connections {

  const MAX_SOCKETS: nat := 10
  const N_POS_NOT_FREE: nat := 2
  const LISTENING_SOCKET_POS: nat := 0
  const STDIN_POS: nat := 1
  const FREE: int := -1

  datatype Slots = Slots(fds: seq<int>, clients: int)

  /** `Arrived(fd)`: a connection waits and `accept` returns `fd`. `Failed(j)`: a request on slot `j` failed. */
  datatype Event = Arrived(fd: int) | Failed(slot: nat)

  /** The number of client slots in use. */
  function Busy(fds: seq<int>): nat {
    if |fds| <= N_POS_NOT_FREE then 0
    else Busy(fds[..|fds| - 1]) + (if fds[|fds| - 1] == FREE then 0 else 1)
  }

  ghost predicate IsFirstFree(fds: seq<int>, k: int) {
    if k == -1 then forall i :: N_POS_NOT_FREE <= i < |fds| ==> fds[i] != FREE
    else N_POS_NOT_FREE <= k < |fds| && fds[k] == FREE && forall i :: N_POS_NOT_FREE <= i < k ==> fds[i] != FREE
  }

  function FirstFree(fds: seq<int>, from: nat): (k: int)
    requires N_POS_NOT_FREE <= from
    requires forall i :: N_POS_NOT_FREE <= i < from && i < |fds| ==> fds[i] != FREE
    ensures IsFirstFree(fds, k)
    decreases |fds| - from
  {
    if from >= |fds| then -1 else if fds[from] == FREE then from else FirstFree(fds, from + 1)
  }

  /** One event of the loop; the slot takes whatever `accept` returned, the counter moves on a positive one. */
  function React(s: Slots, e: Event): Slots {
    match e
    case Arrived(fd) =>
      if s.clients - N_POS_NOT_FREE >= MAX_SOCKETS then s else
        var k := FirstFree(s.fds, N_POS_NOT_FREE);
        if k == -1 then s
        else Slots(s.fds[k := fd], if fd > 0 then s.clients + 1 else s.clients)
    case Failed(j) =>
      if j < |s.fds| then Slots(s.fds[j := FREE], s.clients - 1) else s
  }

  /** `accept` returns -1 or a descriptor; the poll reports data only on slots in use. */
  predicate Possible(s: Slots, e: Event) {
    match e
    case Arrived(fd) => fd >= -1
    case Failed(j) => N_POS_NOT_FREE <= j < |s.fds| && s.fds[j] != FREE
  }

  predicate Conserved(s: Slots) {
    |s.fds| == MAX_SOCKETS && s.clients == Busy(s.fds)
  }

  lemma {:induction false} BusyBounds(fds: seq<int>)
    ensures Busy(fds) <= if |fds| <= N_POS_NOT_FREE then 0 else |fds| - N_POS_NOT_FREE
    ensures (forall i :: N_POS_NOT_FREE <= i < |fds| ==> fds[i] == FREE) ==> Busy(fds) == 0
  {
    if |fds| > N_POS_NOT_FREE {
      BusyBounds(fds[..|fds| - 1]);
    }
  }

  lemma {:induction false} BusyUpdate(fds: seq<int>, k: nat, fd: int)
    requires N_POS_NOT_FREE <= k < |fds|
    ensures Busy(fds[k := fd]) ==
      Busy(fds) - (if fds[k] == FREE then 0 else 1) + (if fd == FREE then 0 else 1)
  {
    var n := |fds| - 1;
    if k < n {
      BusyUpdate(fds[..n], k, fd);
      assert fds[k := fd][..n] == fds[..n][k := fd];
    } else {
      assert fds[k := fd][..n] == fds[..n];
    }
  }

  /** A client that connects gets the first free slot and is counted; with none free, or a failed `accept`, nothing
    * changes. */
  lemma AcceptTakesSlot(s: Slots, fd: int, k: int)
    requires Conserved(s) && IsFirstFree(s.fds, k)
    ensures k != -1 && fd > 0 ==> React(s, Arrived(fd)) == Slots(s.fds[k := fd], s.clients + 1)
    ensures k == -1 || fd == -1 ==> React(s, Arrived(fd)) == s
  {
    BusyBounds(s.fds);
    if k != -1 {
      assert s.fds[k] == FREE;
    }
  }

  /** A lost connection frees its slot, leaves every other one alone and is no longer counted. */
  lemma FailureFreesSlot(s: Slots, j: nat)
    requires Possible(s, Failed(j))
    ensures React(s, Failed(j)) == Slots(s.fds[j := -1], s.clients - 1)
  {
  }

  /** `accept` hands out descriptor 0 for a free slot: the slot is taken, but the client is not counted. */
  predicate Uncounted(s: Slots, e: Event) {
    e == Arrived(0) && FirstFree(s.fds, N_POS_NOT_FREE) != -1
  }

  /** One event keeps the counter exact unless `accept` hands out descriptor 0 for a free slot. */
  lemma ReactConservesIff(s: Slots, e: Event)
    requires Conserved(s) && Possible(s, e)
    ensures Conserved(React(s, e)) <==> !Uncounted(s, e)
  {
    hide Busy;
    BusyBounds(s.fds);
    match e
    case Arrived(fd) =>
      var k := FirstFree(s.fds, N_POS_NOT_FREE);
      if k != -1 {
        BusyUpdate(s.fds, k, fd);
      }
    case Failed(j) =>
      BusyUpdate(s.fds, j, FREE);
  }

  predicate PossibleRun(s: Slots, events: seq<Event>)
    decreases events
  {
    events == [] || (Possible(s, events[0]) && PossibleRun(React(s, events[0]), events[1..]))
  }

  function ReactAll(s: Slots, events: seq<Event>): Slots
    decreases events
  {
    if events == [] then s else ReactAll(React(s, events[0]), events[1..])
  }

  predicate AlwaysConserved(s: Slots, events: seq<Event>)
    decreases events
  {
    Conserved(s) && (events == [] || AlwaysConserved(React(s, events[0]), events[1..]))
  }

  predicate NoneUncounted(s: Slots, events: seq<Event>)
    decreases events
  {
    events == [] || (!Uncounted(s, events[0]) && NoneUncounted(React(s, events[0]), events[1..]))
  }

  /** Throughout a run of accepted, refused and lost connections the counter is the number of busy slots exactly if no
    * descriptor 0 is handed out for a free slot; then it stays within the eight client slots, so the loop's weaker
    * guard never refuses anyone. */
  lemma {:induction false} RunConservesIff(s: Slots, events: seq<Event>)
    requires Conserved(s) && PossibleRun(s, events)
    ensures AlwaysConserved(s, events) <==> NoneUncounted(s, events)
    ensures NoneUncounted(s, events) ==>
      Conserved(ReactAll(s, events)) && 0 <= ReactAll(s, events).clients <= 8
    decreases events
  {
    BusyBounds(s.fds);
    if events != [] {
      ReactConservesIff(s, events[0]);
      if !Uncounted(s, events[0]) {
        RunConservesIff(React(s, events[0]), events[1..]);
      }
    }
  }

  /** The array of a fresh server after it accepted the clients `fs`. */
  function Seated(listening: int, fs: seq<int>): seq<int>
    requires |fs| <= 8
  {
    [listening, 0] + fs + seq(8 - |fs|, _ => -1)
  }

  /** Eight clients fit, each in the next slot from the third on, and a ninth is left waiting. */
  lemma {:induction false} EightClients(listening: int, fs: seq<int>, events: seq<Event>)
    requires |events| == |fs| <= 8 && forall i :: 0 <= i < |fs| ==> fs[i] > 0 && events[i] == Arrived(fs[i])
    ensures PossibleRun(Slots(Seated(listening, []), 0), events)
    ensures ReactAll(Slots(Seated(listening, []), 0), events) == Slots(Seated(listening, fs), |fs|)
    ensures |fs| == 8 ==> forall fd :: fd > 0 ==>
      React(Slots(Seated(listening, fs), 8), Arrived(fd)) == Slots(Seated(listening, fs), 8)
  {
    var n := |fs| - 1;
    if n >= 0 {
      EightClients(listening, fs[..n], events[..n]);
      var t := Slots(Seated(listening, fs[..n]), n);
      NextSeat(listening, fs);
      RunExtends(Slots(Seated(listening, []), 0), events[..n], events[n]);
      assert events[..n] + [events[n]] == events;
    }
    if n == 7 {
      FullHouse(listening, fs);
    }
  }

  lemma NextSeat(listening: int, fs: seq<int>)
    requires 0 < |fs| <= 8 && forall i :: 0 <= i < |fs| ==> fs[i] > 0
    ensures var n := |fs| - 1;
      React(Slots(Seated(listening, fs[..n]), n), Arrived(fs[n])) == Slots(Seated(listening, fs), n + 1)
  {
    var n := |fs| - 1;
    var fds := Seated(listening, fs[..n]);
    assert fds[2 + n] == -1 && forall i :: 2 <= i < 2 + n ==> fds[i] == fs[i - 2] > 0;
    assert IsFirstFree(fds, 2 + n);
    var k := FirstFree(fds, N_POS_NOT_FREE);
    assert k == 2 + n;
    assert fds[2 + n := fs[n]] == Seated(listening, fs);
  }

  lemma FullHouse(listening: int, fs: seq<int>)
    requires |fs| == 8 && forall i :: 0 <= i < |fs| ==> fs[i] > 0
    ensures forall fd :: fd > 0 ==>
      React(Slots(Seated(listening, fs), 8), Arrived(fd)) == Slots(Seated(listening, fs), 8)
  {
    var fds := Seated(listening, fs);
    assert forall i :: 2 <= i < 10 ==> fds[i] == fs[i - 2] > 0;
    assert IsFirstFree(fds, -1);
    assert FirstFree(fds, N_POS_NOT_FREE) == -1;
  }

  lemma {:induction false} RunExtends(s: Slots, events: seq<Event>, e: Event)
    requires PossibleRun(s, events) && Possible(ReactAll(s, events), e)
    ensures PossibleRun(s, events + [e]) && ReactAll(s, events + [e]) == React(ReactAll(s, events), e)
    decreases events
  {
    if events == [] {
      assert [e][1..] == [];
    } else {
      RunExtends(React(s, events[0]), events[1..], e);
      assert (events + [e])[1..] == events[1..] + [e];
    }
  }

  /** Event `i` put descriptor `d` into slot `j`, and no later one emptied it. */
  ghost predicate TakenAt(s: Slots, events: seq<Event>, i: int, j: nat, d: int) {
    && 0 <= i < |events| && events[i] == Arrived(d) && d != FREE
    && IsFirstFree(ReactAll(s, events[..i]).fds, j)
    && Failed(j) !in events[i + 1..]
  }

  ghost predicate Held(s: Slots, events: seq<Event>, j: nat, d: int)
    requires j < |s.fds|
  {
    (s.fds[j] == d && Failed(j) !in events) || exists i :: TakenAt(s, events, i, j, d)
  }

  /** What a slot holds after a run: the descriptor last accepted for it, if that connection was not lost; what it held
    * before, if it was never lost; otherwise nothing. */
  lemma {:induction false} SlotHolds(s: Slots, events: seq<Event>, j: nat, d: int)
    requires Conserved(s) && PossibleRun(s, events) && NoneUncounted(s, events)
    requires N_POS_NOT_FREE <= j < MAX_SOCKETS && d != FREE
    ensures |ReactAll(s, events).fds| == MAX_SOCKETS
    ensures ReactAll(s, events).fds[j] == d <==> Held(s, events, j, d)
    decreases |events|
  {
    hide TakenAt, Held, React, Possible, Busy, Uncounted;
    if events == [] {
      NothingTaken(s, j, d);
    } else {
      var before := events[..|events| - 1];
      SplitLast(s, events);
      SlotHolds(s, before, j, d);
      RunConservesIff(s, before);
      LastReact(ReactAll(s, before), events[|events| - 1], j, d);
      HeldStep(s, events, j, d);
    }
  }

  lemma NothingTaken(s: Slots, j: nat, d: int)
    requires j < |s.fds|
    ensures Held(s, [], j, d) <==> s.fds[j] == d
  {
  }

  /** The last event adds what it puts there itself, or takes away what it empties. */
  lemma HeldStep(s: Slots, events: seq<Event>, j: nat, d: int)
    requires j < |s.fds| && events != [] && d != FREE
    ensures var before, e := events[..|events| - 1], events[|events| - 1];
      var stays := Held(s, before, j, d) && e != Failed(j);
      Held(s, events, j, d) <==> stays || (e == Arrived(d) && IsFirstFree(ReactAll(s, before).fds, j))
  {
    hide ReactAll, IsFirstFree, TakenAt;
    var n := |events| - 1;
    var before, e := events[..n], events[n];
    assert events == before + [e];
    forall i | 0 <= i < n ensures TakenAt(s, events, i, j, d) <==> TakenAt(s, before, i, j, d) && e != Failed(j) {
      TakenBefore(s, events, i, j, d);
    }
    TakenInside(s, before, j, d);
    TakenInside(s, events, j, d);
    TakenLast(s, events, j, d);
  }

  lemma TakenLast(s: Slots, events: seq<Event>, j: nat, d: int)
    requires events != [] && d != FREE
    ensures var n := |events| - 1;
      TakenAt(s, events, n, j, d) <==> events[n] == Arrived(d) && IsFirstFree(ReactAll(s, events[..n]).fds, j)
  {
    assert events[|events|..] == [];
  }

  lemma TakenBefore(s: Slots, events: seq<Event>, i: int, j: nat, d: int)
    requires events != [] && 0 <= i < |events| - 1
    ensures var n := |events| - 1;
      TakenAt(s, events, i, j, d) <==> TakenAt(s, events[..n], i, j, d) && events[n] != Failed(j)
  {
    var n := |events| - 1;
    assert events[..n][..i] == events[..i];
    assert events[i + 1..] == events[..n][i + 1..] + [events[n]];
  }

  lemma TakenInside(s: Slots, events: seq<Event>, j: nat, d: int)
    ensures forall i :: TakenAt(s, events, i, j, d) ==> 0 <= i < |events|
  {
  }

  /** One event, seen from one slot. */
  lemma LastReact(t: Slots, e: Event, j: nat, d: int)
    requires Conserved(t) && Possible(t, e) && !Uncounted(t, e)
    requires N_POS_NOT_FREE <= j < MAX_SOCKETS && d != FREE
    ensures |React(t, e).fds| == MAX_SOCKETS
    ensures React(t, e).fds[j] == d
      <==> (t.fds[j] == d && e != Failed(j)) || (e == Arrived(d) && IsFirstFree(t.fds, j))
  {
    BusyBounds(t.fds);
  }

  lemma {:induction false} SplitLast(s: Slots, events: seq<Event>)
    requires events != [] && PossibleRun(s, events) && NoneUncounted(s, events)
    ensures var n := |events| - 1;
      && PossibleRun(s, events[..n]) && NoneUncounted(s, events[..n])
      && Possible(ReactAll(s, events[..n]), events[n]) && !Uncounted(ReactAll(s, events[..n]), events[n])
      && ReactAll(s, events) == React(ReactAll(s, events[..n]), events[n])
    decreases events
  {
    var n := |events| - 1;
    if n > 0 {
      SplitLast(React(s, events[0]), events[1..]);
      assert events[1..][..n - 1] == events[..n][1..];
    }
  }

  /** `find_free_connection`. */
  method FindFreeConnection(fds: array<int>) returns (freeIndex: int)
    requires fds.Length == MAX_SOCKETS
    ensures freeIndex == FirstFree(fds[..], N_POS_NOT_FREE)
  {
    freeIndex := -1;
    var k := N_POS_NOT_FREE;
    while k < MAX_SOCKETS
      invariant N_POS_NOT_FREE <= k <= MAX_SOCKETS && freeIndex == -1
      invariant forall i :: N_POS_NOT_FREE <= i < k ==> fds[i] != FREE
    {
      if fds[k] == FREE {
        freeIndex := k;
        break;
      }
      k := k + 1;
    }
  }

  /** The loop of `main` and its array of connections. */
  class Loop {
    const connections: array<int>
    var numberClients: int

    constructor (listening: int)
      ensures connections.Length == MAX_SOCKETS && fresh(connections) && Conserved(View())
      ensures View() == Slots(Seated(listening, []), 0)
    {
      connections := new int[MAX_SOCKETS](i => if i == LISTENING_SOCKET_POS then listening
                                               else if i == STDIN_POS then 0 else FREE);
      numberClients := 0;
      new;
      BusyBounds(connections[..]);
    }

    ghost function View(): Slots
      reads this, connections
    {
      Slots(connections[..], numberClients)
    }

    /** The listening socket has a new connection. */
    method Arrive(fd: int)
      requires connections.Length == MAX_SOCKETS
      modifies this, connections
      ensures View() == React(old(View()), Arrived(fd))
    {
      if numberClients - N_POS_NOT_FREE < MAX_SOCKETS {
        var freeIndex := FindFreeConnection(connections);
        if freeIndex != -1 {
          connections[freeIndex] := fd;
          if fd > 0 {
            numberClients := numberClients + 1;
          }
        }
      }
    }

    /** `network_receive_send` failed on slot `j`. */
    method Fail(j: nat)
      requires connections.Length == MAX_SOCKETS && N_POS_NOT_FREE <= j < MAX_SOCKETS
      modifies this, connections
      ensures View() == React(old(View()), Failed(j))
    {
      numberClients := numberClients - 1;
      connections[j] := FREE;
    }

    /** The loop over a whole run of events. */
    method Serve(events: seq<Event>)
      requires connections.Length == MAX_SOCKETS && PossibleRun(View(), events)
      modifies this, connections
      ensures View() == ReactAll(old(View()), events)
      ensures old(Conserved(View()) && NoneUncounted(View(), events)) ==>
        Conserved(View()) && 0 <= numberClients <= 8
    {
      ghost var goal := ReactAll(View(), events);
      if Conserved(View()) {
        RunConservesIff(View(), events);
      }
      var rest := events;
      while rest != []
        invariant PossibleRun(View(), rest) && ReactAll(View(), rest) == goal
        decreases |rest|
      {
        match rest[0] {
          case Arrived(fd) => Arrive(fd);
          case Failed(j) => Fail(j);
        }
        rest := rest[1..];
      }
    }
  }
}
