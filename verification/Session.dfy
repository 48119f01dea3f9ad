/** One client's requests, one after the other, each sent until it is answered or given up, over the step machine. */
module Session {
  import opened Bytes
  import opened Options
  import opened Hashing
  import opened Rows
  import opened Messages
  import opened Skeleton
  import opened Remote
  import opened Servers
  import opened Cluster
  import opened ClusterControl
  import opened ClusterData
  import opened ClusterMaps
  import opened ClusterRuns
  import opened ClusterProgress

  /** One `retry_servers`: the request, and all that happens from its first send to the next request. */
  datatype Call = Call(req: Message, steps: seq<Step>)

  /** Nobody sends anything but `req`, to whichever server and however often, and a server that comes back joins. */
  predicate InCall(req: Message, s: System, step: Step) {
    (step.Client? ==> step.req == req) && (step.Start? ==> Joins(s, step.id, step.known))
  }

  /** Nothing of an earlier request is still to be read. */
  predicate Drained(s: System) {
    (s.a.Running? ==> s.a.p.inbox == []) && (s.b.Running? ==> s.b.p.inbox == [])
  }

  ghost predicate IsSession(s: System, calls: seq<Call>)
    decreases calls
  {
    calls == [] ||
    (&& Drained(s) && Sendable(calls[0].req) && IsTableRequest(calls[0].req)
     && Run(s, calls[0].steps) && Each((t, step) => InCall(calls[0].req, t, step), s, calls[0].steps)
     && IsSession(Final(s, calls[0].steps), calls[1..]))
  }

  function End(s: System, calls: seq<Call>): System
    requires IsSession(s, calls)
    decreases calls
  {
    if calls == [] then s else End(Final(s, calls[0].steps), calls[1..])
  }

  // ---- What a session may leave behind ----

  /** The map comes from one of `bases` by some of the requests, in their order, each at most once. */
  ghost predicate Outcome(bases: set<Map>, reqs: seq<Message>, m: Map)
    requires forall i :: 0 <= i < |reqs| ==> Serviceable(reqs[i])
    decreases reqs, 0
  {
    if reqs == [] then m in bases
    else Outcome(bases, reqs[..|reqs| - 1], m) || Applied(bases, reqs[..|reqs| - 1], reqs[|reqs| - 1], m)
  }

  /** The same, and the last request `req` is among them. */
  ghost predicate Applied(bases: set<Map>, reqs: seq<Message>, req: Message, m: Map)
    requires Serviceable(req) && forall i :: 0 <= i < |reqs| ==> Serviceable(reqs[i])
    decreases reqs, 1
  {
    exists before :: Outcome(bases, reqs, before) && m == ApplyMap(before, req)
  }

  ghost predicate Orders(reqs: seq<Message>) {
    forall i :: 0 <= i < |reqs| ==> Serviceable(reqs[i])
  }

  /** After `reqs`, while `req` is being sent. */
  ghost predicate During(n: Node, bases: set<Map>, reqs: seq<Message>, req: Message)
    requires Orders(reqs) && Serviceable(req)
  {
    n.Running? ==>
      && (Outcome(bases, reqs, MapAt(n)) || Applied(bases, reqs, req, MapAt(n)))
      && (forall r :: r in n.p.inbox ==> r == req)
  }

  /** One more application of the current request makes it one application. */
  lemma AppliedOnce(bases: set<Map>, reqs: seq<Message>, req: Message, m: Map)
    requires Orders(reqs) && Serviceable(req)
    requires Outcome(bases, reqs, m) || Applied(bases, reqs, req, m)
    ensures Applied(bases, reqs, req, ApplyMap(m, req))
  {
    hide ApplyMap, Serviceable, Outcome;
    if Applied(bases, reqs, req, m) {
      var before :| Outcome(bases, reqs, before) && m == ApplyMap(before, req);
      ApplyIdempotent(before, req);
    }
  }

  ghost predicate Both(s: System, bases: set<Map>, reqs: seq<Message>, req: Message)
    requires Orders(reqs) && Serviceable(req)
  {
    During(s.a, bases, reqs, req) && During(s.b, bases, reqs, req)
  }

  lemma BothAt(s: System, bases: set<Map>, reqs: seq<Message>, req: Message, id: Id)
    requires Orders(reqs) && Serviceable(req) && Both(s, bases, reqs, req)
    ensures During(At(s, id), bases, reqs, req)
  {
    assert id == A || id == B;
  }

  /** The two nodes after a request was applied at one of them. */
  lemma WorkDuring(me: Process, p: Process, other: Node, bases: set<Map>, reqs: seq<Message>, req: Message,
                   origin: Origin)
    requires Orders(reqs) && Serviceable(req) && Worked(me, p, req, origin)
    requires RowsMap(p.replica.rows) == ApplyMap(RowsMap(me.replica.rows), req)
    requires During(Running(me), bases, reqs, req) && During(other, bases, reqs, req)
    ensures Applied(bases, reqs, req, RowsMap(p.replica.rows))
    ensures During(Running(p), bases, reqs, req)
    ensures During(Sent(p, req, other), bases, reqs, req) && During(Notify(p, other), bases, reqs, req)
  {
    hide ApplyMap, Serviceable, Outcome, Applied, RowsMap, Logged, Effective, Orders;
    AppliedOnce(bases, reqs, req, RowsMap(me.replica.rows));
  }

  lemma ClientDuring(s: System, id: Id, bases: set<Map>, reqs: seq<Message>, req: Message)
    requires Orders(reqs) && Serviceable(req) && Regular(s) && Both(s, bases, reqs, req)
    requires Enabled(s, Client(id, req))
    ensures Both(Next(s, Client(id, req)), bases, reqs, req)
    ensures At(Next(s, Client(id, req)), id).Running?
    ensures Applied(bases, reqs, req, MapAt(At(Next(s, Client(id, req)), id)))
  {
    hide Sendable, Serviceable, Next, Work, Worked, Control, Faithful, RowsMap, ApplyMap, During, Orders, Applied;
    var p := ClientShape(s, id, req);
    BothAt(s, bases, reqs, req, id);
    BothAt(s, bases, reqs, req, Other(id));
    FaithfulAt(s, id);
    WorkFaithful(At(s, id).p, Size(s, id), req, FromClient);
    WorkDuring(At(s, id).p, p, At(s, Other(id)), bases, reqs, req, FromClient);
  }

  lemma TakeDuring(s: System, id: Id, bases: set<Map>, reqs: seq<Message>, req: Message)
    requires Orders(reqs) && Serviceable(req) && Regular(s) && Both(s, bases, reqs, req)
    requires Enabled(s, Take(id))
    ensures Both(Next(s, Take(id)), bases, reqs, req)
    ensures At(Next(s, Take(id)), id).Running?
    ensures Applied(bases, reqs, req, MapAt(At(Next(s, Take(id)), id)))
  {
    hide Sendable, Serviceable, Next, Work, Worked, Faithful, RowsMap, ApplyMap, During, Orders, Applied, Orderly;
    RegularControl(s);
    var p := TakeShape(s, id);
    var me := At(s, id).p;
    var rest := me.(inbox := me.inbox[1..]);
    BothAt(s, bases, reqs, req, id);
    BothAt(s, bases, reqs, req, Other(id));
    RestDuring(me, bases, reqs, req);
    RestFaithful(s, id);
    ReadsMutation(s, id);
    TableRequest(me.inbox[0]);
    WorkFaithful(rest, Size(s, id), me.inbox[0], FromPeer);
    WorkDuring(rest, p, At(s, Other(id)), bases, reqs, req, FromPeer);
  }

  lemma RestDuring(me: Process, bases: set<Map>, reqs: seq<Message>, req: Message)
    requires Orders(reqs) && Serviceable(req) && During(Running(me), bases, reqs, req) && me.inbox != []
    ensures me.inbox[0] == req && During(Running(me.(inbox := me.inbox[1..])), bases, reqs, req)
  {
    hide Outcome, Applied, RowsMap, Serviceable;
    assert me.inbox[0] in me.inbox;
    assert forall r :: r in me.inbox[1..] ==> r in me.inbox;
  }

  lemma StartDuring(s: System, id: Id, known: bool, bases: set<Map>, reqs: seq<Message>, req: Message)
    requires Orders(reqs) && Serviceable(req) && Regular(s) && Both(s, bases, reqs, req)
    requires Enabled(s, Start(id, known)) && Joins(s, id, known)
    ensures Both(Next(s, Start(id, known)), bases, reqs, req)
    ensures At(Next(s, Start(id, known)), Other(id)).Running?
    ensures MapAt(At(Next(s, Start(id, known)), Other(id))) == MapAt(At(s, Other(id)))
  {
    hide Sendable, Serviceable, Launch, Begin, Countable, Faithful, RowsMap, Outcome, Applied;
    BothAt(s, bases, reqs, req, Other(id));
    LaunchMap(s, id, known);
    OrderlyAt(s, Other(id));
    BeginFacts(At(s, Other(id)).p.replica, UP_REQUEST, Some(s.next));
  }

  lemma QuietDuring(s: System, step: Step, bases: set<Map>, reqs: seq<Message>, req: Message)
    requires Orders(reqs) && Serviceable(req) && Both(s, bases, reqs, req) && Enabled(s, step) && Quieter(step)
    ensures Both(Next(s, step), bases, reqs, req)
  {
    hide Next, Enabled, Outcome, Applied, RowsMap, Serviceable;
    var t := Next(s, step);
    if t.a.Running? {
      QuietShape(s, step, A);
    }
    if t.b.Running? {
      QuietShape(s, step, B);
    }
  }

  lemma StepDuring(s: System, step: Step, bases: set<Map>, reqs: seq<Message>, req: Message)
    requires Orders(reqs) && Serviceable(req) && Regular(s) && Both(s, bases, reqs, req)
    requires Enabled(s, step) && InCall(req, s, step)
    ensures Both(Next(s, step), bases, reqs, req)
  {
    hide Orders, Serviceable, Regular, Both, Enabled, Next;
    match step
    case Start(id, known) => StartDuring(s, id, known, bases, reqs, req);
    case Client(id, _) => ClientDuring(s, id, bases, reqs, req);
    case Take(id) => TakeDuring(s, id, bases, reqs, req);
    case _ => QuietDuring(s, step, bases, reqs, req);
  }

  lemma {:induction false} CallDuring(s: System, steps: seq<Step>, bases: set<Map>, reqs: seq<Message>, req: Message)
    requires Orders(reqs) && Serviceable(req) && Regular(s) && Both(s, bases, reqs, req)
    requires Run(s, steps) && Each((t, step) => InCall(req, t, step), s, steps)
    ensures Regular(Final(s, steps)) && Both(Final(s, steps), bases, reqs, req)
    decreases steps
  {
    hide Orders, Serviceable, Regular, Both, Enabled, Next, InCall;
    if steps != [] {
      StepRegular(s, steps[0]);
      StepDuring(s, steps[0], bases, reqs, req);
      CallDuring(Next(s, steps[0]), steps[1..], bases, reqs, req);
    }
  }

  // ---- Whole sessions ----

  ghost predicate Settled(n: Node, bases: set<Map>, reqs: seq<Message>)
    requires Orders(reqs)
  {
    n.Running? ==> Outcome(bases, reqs, MapAt(n))
  }

  function Requests(calls: seq<Call>): seq<Message> {
    if calls == [] then [] else [calls[0].req] + Requests(calls[1..])
  }

  lemma {:induction false} RequestsServiceable(s: System, calls: seq<Call>)
    requires IsSession(s, calls)
    ensures Orders(Requests(calls))
    decreases calls
  {
    hide Sendable, Serviceable;
    if calls != [] {
      SendableIsServiceable(calls[0].req);
      RequestsServiceable(Final(s, calls[0].steps), calls[1..]);
    }
  }

  /** A drained state after some requests is the first state of the next one. */
  lemma NextCall(n: Node, bases: set<Map>, reqs: seq<Message>, req: Message)
    requires Orders(reqs) && Serviceable(req) && Settled(n, bases, reqs) && (n.Running? ==> n.p.inbox == [])
    ensures During(n, bases, reqs, req)
  {
    hide Outcome, Applied, RowsMap, Serviceable;
  }

  lemma CallSettled(n: Node, bases: set<Map>, reqs: seq<Message>, req: Message)
    requires Orders(reqs) && Serviceable(req) && During(n, bases, reqs, req)
    ensures Orders(reqs + [req]) && Settled(n, bases, reqs + [req])
  {
    hide RowsMap, Serviceable, ApplyMap;
    assert (reqs + [req])[..|reqs|] == reqs;
  }

  lemma OneCall(s: System, call: Call, bases: set<Map>, reqs: seq<Message>)
    requires Regular(s) && Drained(s) && Orders(reqs) && Sendable(call.req)
    requires Run(s, call.steps) && Each((t, step) => InCall(call.req, t, step), s, call.steps)
    requires Settled(s.a, bases, reqs) && Settled(s.b, bases, reqs)
    ensures Orders(reqs + [call.req])
    ensures var t := Final(s, call.steps);
      Regular(t) && Settled(t.a, bases, reqs + [call.req]) && Settled(t.b, bases, reqs + [call.req])
  {
    hide Regular, Settled, Sendable, Serviceable, During, Run, Final, Each, InCall, Orders;
    var req, t := call.req, Final(s, call.steps);
    SendableIsServiceable(req);
    NextCall(s.a, bases, reqs, req);
    NextCall(s.b, bases, reqs, req);
    CallDuring(s, call.steps, bases, reqs, req);
    CallSettled(t.a, bases, reqs, req);
    CallSettled(t.b, bases, reqs, req);
  }

  lemma {:induction false} SessionFrom(s: System, calls: seq<Call>, bases: set<Map>, reqs: seq<Message>)
    requires Regular(s) && IsSession(s, calls) && Orders(reqs)
    requires Settled(s.a, bases, reqs) && Settled(s.b, bases, reqs)
    ensures Orders(reqs + Requests(calls))
    ensures var t := End(s, calls);
      Settled(t.a, bases, reqs + Requests(calls)) && Settled(t.b, bases, reqs + Requests(calls))
    decreases calls
  {
    hide Regular, Settled, Sendable, Drained, IsTableRequest, Run, Final, Each, InCall, Orders;
    if calls == [] {
      assert reqs + [] == reqs;
    } else {
      OneCall(s, calls[0], bases, reqs);
      SessionFrom(Final(s, calls[0].steps), calls[1..], bases, reqs + [calls[0].req]);
      assert reqs + [calls[0].req] + Requests(calls[1..]) == reqs + Requests(calls);
    }
  }

  /** A session whose requests each start with nothing unread: whatever is resent, forwarded late, dropped, crashes,
    * promotes itself or joins, every server ends with some of the requests applied, in their order, each at most
    * once. */
  lemma SessionSafe(s: System, calls: seq<Call>, bases: set<Map>)
    requires Regular(s) && IsSession(s, calls)
    requires forall id :: At(s, id).Running? ==> MapAt(At(s, id)) in bases
    ensures Orders(Requests(calls))
    ensures var t := End(s, calls);
      forall id :: At(t, id).Running? ==> Outcome(bases, Requests(calls), MapAt(At(t, id)))
  {
    hide Regular, Run, Final, Each, Sendable, Serviceable, RowsMap;
    assert At(s, A) == s.a && At(s, B) == s.b;
    SessionFrom(s, calls, bases, []);
    assert [] + Requests(calls) == Requests(calls);
  }

  // ---- The answer stands ----

  /** A server that executed the request for the client has it applied to the end of its life or of the call. */
  lemma {:induction false} AppliedStays(s: System, steps: seq<Step>, id: Id,
                                        bases: set<Map>, reqs: seq<Message>, req: Message)
    requires Orders(reqs) && Serviceable(req) && Regular(s) && Both(s, bases, reqs, req)
    requires Run(s, steps) && Each((t, step) => InCall(req, t, step), s, steps)
    requires At(s, id).Running? && Applied(bases, reqs, req, MapAt(At(s, id)))
    ensures var n := At(Final(s, steps), id);
      n.Running? && n.p.epoch == At(s, id).p.epoch ==> Applied(bases, reqs, req, MapAt(n))
    decreases steps
  {
    hide Orders, Serviceable, Regular, Both, Enabled, InCall, Applied, RowsMap, Next;
    if steps != [] {
      var t := Next(s, steps[0]);
      StepRegular(s, steps[0]);
      StepDuring(s, steps[0], bases, reqs, req);
      RegularControl(s);
      RegularControl(t);
      LifeStep(s, steps[0], id);
      if At(t, id).Running? {
        AppliedStep(s, steps[0], id, bases, reqs, req);
        AppliedStays(t, steps[1..], id, bases, reqs, req);
      } else {
        LifeEnds(t, steps[1..], id, At(s, id).p.epoch);
      }
    }
  }

  lemma LifeStep(s: System, step: Step, id: Id)
    requires Control(s) && Enabled(s, step) && At(s, id).Running?
    ensures At(s, id).p.epoch < Next(s, step).next
    ensures At(Next(s, step), id).Running? ==> At(Next(s, step), id).p.epoch == At(s, id).p.epoch
  {
    hide Begin, Launch, Sendable, Serviceable, Effective, RowsMap, Logged, Countable;
    PrimaryStep(s, step, id);
  }

  lemma AppliedStep(s: System, step: Step, id: Id, bases: set<Map>, reqs: seq<Message>, req: Message)
    requires Orders(reqs) && Serviceable(req) && Regular(s) && Both(s, bases, reqs, req)
    requires Enabled(s, step) && InCall(req, s, step)
    requires At(s, id).Running? && At(Next(s, step), id).Running? && Applied(bases, reqs, req, MapAt(At(s, id)))
    ensures Applied(bases, reqs, req, MapAt(At(Next(s, step), id)))
  {
    hide Orders, Serviceable, Regular, Both, Next, Applied, RowsMap, Sendable, Launch, Countable;
    if step.Start? {
      StartDuring(s, step.id, step.known, bases, reqs, req);
    } else if step.Client? {
      ClientDuring(s, step.id, bases, reqs, req);
      SameElsewhere(s, step, id);
    } else if step.Take? {
      TakeDuring(s, step.id, bases, reqs, req);
      SameElsewhere(s, step, id);
    } else {
      QuietShape(s, step, id);
    }
  }

  /** A request applied at one server leaves the other one's rows alone. */
  lemma SameElsewhere(s: System, step: Step, id: Id)
    requires Regular(s) && Enabled(s, step) && (step.Client? || step.Take?) && At(s, id).Running?
    ensures At(Next(s, step), id).Running?
    ensures id != step.id ==> MapAt(At(Next(s, step), id)) == MapAt(At(s, id))
  {
    hide Faithful, Sendable, Serviceable, Effective, RowsMap, Logged, Next, Work, Orderly;
    if step.Client? {
      var _ := ClientShape(s, step.id, step.req);
    } else {
      var _ := TakeShape(s, step.id);
    }
  }

  /** From the send that a server executes to the end of the call or of its life, that server has the request applied,
    * exactly once. */
  lemma AnswerStands(s: System, before: seq<Step>, id: Id, after: seq<Step>,
                     bases: set<Map>, reqs: seq<Message>, req: Message)
    requires Orders(reqs) && Serviceable(req) && Regular(s) && Drained(s)
    requires Settled(s.a, bases, reqs) && Settled(s.b, bases, reqs)
    requires Run(s, before) && Each((t, step) => InCall(req, t, step), s, before)
    requires Enabled(Final(s, before), Client(id, req))
    requires var u := Next(Final(s, before), Client(id, req));
      Run(u, after) && Each((t, step) => InCall(req, t, step), u, after)
    ensures var u := Next(Final(s, before), Client(id, req)); var n := At(Final(u, after), id);
      At(u, id).Running? &&
      (n.Running? && n.p.epoch == At(u, id).p.epoch ==> Applied(bases, reqs, req, MapAt(n)))
  {
    hide Orders, Serviceable, Regular, Enabled, InCall, Applied, RowsMap, Next, Run, Final, Settled, During;
    NextCall(s.a, bases, reqs, req);
    NextCall(s.b, bases, reqs, req);
    CallDuring(s, before, bases, reqs, req);
    var t := Final(s, before);
    ClientDuring(t, id, bases, reqs, req);
    StepRegular(t, Client(id, req));
    AppliedStays(Next(t, Client(id, req)), after, id, bases, reqs, req);
  }

  // ---- Why nothing may be left unread ----

  /** The map after a server has read everything in `inbox`. */
  function ReadAll(m: Map, inbox: seq<Message>): Map
    requires Orders(inbox)
    decreases inbox
  {
    if inbox == [] then m else ReadAll(ApplyMap(m, inbox[0]), inbox[1..])
  }

  /** What a request makes of the value under key `k`. */
  function KeyStep(v: Option<Value>, req: Message, k: Key): Option<Value>
    requires Serviceable(req)
  {
    if !IsMutation(req) || KeyOf(req) != k then v
    else if req.opcode == OC_DEL then None
    else if req.opcode == OC_PUT && v.Some? then v
    else if req.opcode == OC_UPDATE && v == None then None
    else Some(req.content.value)
  }

  function KeyRead(v: Option<Value>, inbox: seq<Message>, k: Key): Option<Value>
    requires Orders(inbox)
    decreases inbox
  {
    if inbox == [] then v else KeyRead(KeyStep(v, inbox[0], k), inbox[1..], k)
  }

  lemma KeyStepIs(m: Map, req: Message, k: Key)
    requires Serviceable(req)
    ensures MapGet(ApplyMap(m, req), k) == KeyStep(MapGet(m, k), req, k)
  {
  }

  lemma {:induction false} KeyReadIs(m: Map, inbox: seq<Message>, k: Key)
    requires Orders(inbox)
    ensures MapGet(ReadAll(m, inbox), k) == KeyRead(MapGet(m, k), inbox, k)
    decreases inbox
  {
    hide ApplyMap, KeyStep, Serviceable, MapGet;
    if inbox != [] {
      KeyStepIs(m, inbox[0], k);
      KeyReadIs(ApplyMap(m, inbox[0]), inbox[1..], k);
    }
  }

  /** Of three different stored values, reading never makes the first one vanish and tells the other two apart. */
  lemma {:induction false} NeverUndone(n: Value, a: Value, b: Value, inbox: seq<Message>, k: Key)
    requires Orders(inbox)
    ensures KeyRead(Some(n), inbox, k).Some? || KeyRead(Some(a), inbox, k) == KeyRead(Some(b), inbox, k)
    decreases inbox
  {
    hide Serviceable;
    if inbox != [] {
      NeverUndone(n, a, b, inbox[1..], k);
    }
  }

  /** Reading something about `k` changes one of these three states. */
  lemma SomethingChanges(inbox: seq<Message>, k: Key, a: Value, b: Value)
    requires Orders(inbox) && inbox != [] && IsMutation(inbox[0]) && KeyOf(inbox[0]) == k && a != b
    ensures KeyRead(None, inbox, k) != None || KeyRead(Some(a), inbox, k) != Some(a)
      || KeyRead(Some(b), inbox, k) != Some(b)
  {
    if inbox[0].opcode == OC_PUT {
      NeverUndone(inbox[0].content.value, a, b, inbox[1..], k);
    }
  }

  /** The answer to `req` stands once everything in `inbox` was read: its key is as `req` left it. */
  predicate Stands(m: Map, inbox: seq<Message>, req: Message)
    requires Orders(inbox) && Serviceable(req) && IsMutation(req)
  {
    MapGet(ReadAll(ApplyMap(m, req), inbox), KeyOf(req)) == MapGet(ApplyMap(m, req), KeyOf(req))
  }

  /** The request that brings key `k` of `m` to the state `v`. */
  function Bring(m: Map, k: Key, v: Option<Value>): Message {
    if v == None then DelRequest(k)
    else if k in m then UpdateRequest(k, v.value)
    else PutRequest(k, v.value)
  }

  lemma BringIs(m: Map, k: Key, v: Option<Value>, like: Message)
    requires Sendable(like) && IsMutation(like) && Serviceable(like) && KeyOf(like) == k
    requires v.Some? ==> 0 < |v.value| <= 2
    ensures var req := Bring(m, k, v);
      Sendable(req) && IsMutation(req) && Serviceable(req) && KeyOf(req) == k && MapGet(ApplyMap(m, req), k) == v
  {
    hide HashSum, NulFree;
  }

  /** Every next request's answer stands exactly if nothing is unread. */
  lemma DrainedIff(m: Map, inbox: seq<Message>)
    requires Orders(inbox) && forall i :: 0 <= i < |inbox| ==> Sendable(inbox[i]) && IsMutation(inbox[i])
    ensures (forall req :: Sendable(req) && Serviceable(req) && IsMutation(req) ==> Stands(m, inbox, req))
      <==> inbox == []
  {
    hide Sendable, Serviceable, ApplyMap, MapGet, Bring, IsMutation;
    if inbox != [] {
      var k := KeyOf(inbox[0]);
      var v := Changed(inbox, k);
      BringIs(m, k, v, inbox[0]);
      var req := Bring(m, k, v);
      KeyReadIs(ApplyMap(m, req), inbox, k);
      assert !Stands(m, inbox, req);
    }
  }

  lemma Changed(inbox: seq<Message>, k: Key) returns (v: Option<Value>)
    requires Orders(inbox) && inbox != [] && IsMutation(inbox[0]) && KeyOf(inbox[0]) == k
    ensures KeyRead(v, inbox, k) != v && (v.Some? ==> 0 < |v.value| <= 2)
  {
    hide Serviceable, KeyRead;
    var a: Value, b: Value := [0], [1];
    SomethingChanges(inbox, k, a, b);
    v :=
      if KeyRead(None, inbox, k) != None then None
      else if KeyRead(Some(a), inbox, k) != Some(a) then Some(a)
      else Some(b);
  }

  // ---- The same on the machine ----

  function Takes(id: Id, n: nat): seq<Step> {
    if n == 0 then [] else [Take(id)] + Takes(id, n - 1)
  }

  lemma InboxOrders(s: System, id: Id)
    requires Control(s) && At(s, id).Running?
    ensures Orders(At(s, id).p.inbox)
    ensures forall i :: 0 <= i < |At(s, id).p.inbox| ==>
      Sendable(At(s, id).p.inbox[i]) && IsMutation(At(s, id).p.inbox[i])
  {
    hide Sendable, Serviceable;
    OrderlyAt(s, id);
    forall i | 0 <= i < |At(s, id).p.inbox| ensures Serviceable(At(s, id).p.inbox[i]) {
      SendableIsServiceable(At(s, id).p.inbox[i]);
    }
  }

  /** One request read by a server that does not lead. */
  lemma ReadsOne(s: System, id: Id)
    requires Regular(s) && At(s, id).Running? && At(s, id).p.phase == Idle && !Leads(At(s, id))
    requires At(s, id).p.inbox != []
    ensures Enabled(s, Take(id)) && Serviceable(At(s, id).p.inbox[0])
    ensures var n := At(Next(s, Take(id)), id);
      && n.Running? && n.p.phase == Idle && !Leads(n) && n.p.inbox == At(s, id).p.inbox[1..]
      && MapAt(n) == ApplyMap(MapAt(At(s, id)), At(s, id).p.inbox[0])
  {
    hide Sendable, Serviceable, Faithful, RowsMap, ApplyMap, Effective, Logged, Work, Next;
    RegularControl(s);
    OrderlyAt(s, id);
    ReadsMutation(s, id);
    var me := At(s, id).p;
    SendableIsServiceable(me.inbox[0]);
    TableRequest(me.inbox[0]);
    RestFaithful(s, id);
    var p := TakeShape(s, id);
    WorkFaithful(me.(inbox := me.inbox[1..]), Size(s, id), me.inbox[0], FromPeer);
  }

  lemma {:induction false} ReadsAll(s: System, id: Id)
    requires Regular(s) && At(s, id).Running? && At(s, id).p.phase == Idle && !Leads(At(s, id))
    ensures var me := At(s, id).p;
      && Orders(me.inbox) && Run(s, Takes(id, |me.inbox|))
      && var n := At(Final(s, Takes(id, |me.inbox|)), id);
         n.Running? && MapAt(n) == ReadAll(RowsMap(me.replica.rows), me.inbox)
    decreases if At(s, id).Running? then |At(s, id).p.inbox| else 0
  {
    hide Regular, Sendable, Serviceable, RowsMap, ApplyMap, Next, Leads;
    RegularControl(s);
    InboxOrders(s, id);
    var me := At(s, id).p;
    if me.inbox != [] {
      ReadsOne(s, id);
      StepRegular(s, Take(id));
      var t := Next(s, Take(id));
      ReadsAll(t, id);
      var steps := Takes(id, |me.inbox|);
      assert steps[0] == Take(id) && steps[1..] == Takes(id, |me.inbox| - 1);
    }
  }

  /** The client's next request goes to this server, which then reads what is unread: its key is as the request left
    * it. */
  ghost predicate AnswerKept(s: System, id: Id, req: Message)
    requires At(s, id).Running? && Serviceable(req) && IsMutation(req)
  {
    var steps := [Client(id, req)] + Takes(id, |At(s, id).p.inbox|);
    && Run(s, steps) && At(Final(s, steps), id).Running?
    && MapGet(MapAt(At(Final(s, steps), id)), KeyOf(req)) == MapGet(ApplyMap(MapAt(At(s, id)), req), KeyOf(req))
  }

  lemma AnswerKeptIs(s: System, id: Id, req: Message)
    requires Regular(s) && At(s, id).Running? && At(s, id).p.phase == Idle && !Leads(At(s, id))
    requires Sendable(req) && Serviceable(req) && IsMutation(req)
    ensures Orders(At(s, id).p.inbox)
    ensures AnswerKept(s, id, req) <==> Stands(MapAt(At(s, id)), At(s, id).p.inbox, req)
  {
    hide Sendable, Serviceable, Faithful, RowsMap, ApplyMap, Effective, Logged, Work, Next, MapGet, IsMutation;
    hide Takes, Orderly;
    RegularControl(s);
    InboxOrders(s, id);
    OrderlyRows(s, id);
    TableRequest(req);
    var p := ClientShape(s, id, req);
    WorkedIdle(At(s, id).p, p, req);
    FaithfulAt(s, id);
    WorkFaithful(At(s, id).p, Size(s, id), req, FromClient);
    StepRegular(s, Client(id, req));
    var t := Next(s, Client(id, req));
    assert At(t, id) == Running(p);
    ReadsAll(t, id);
    var steps := [Client(id, req)] + Takes(id, |p.inbox|);
    assert steps[0] == Client(id, req) && steps[1..] == Takes(id, |p.inbox|);
  }

  lemma OrderlyRows(s: System, id: Id)
    requires Control(s) && At(s, id).Running?
    ensures At(s, id).p.replica.rows != []
  {
    hide Sendable;
    OrderlyAt(s, id);
  }

  lemma WorkedIdle(me: Process, p: Process, req: Message)
    requires Serviceable(req) && Worked(me, p, req, FromClient) && !Leads(Running(me))
    ensures p.phase == Idle && !Leads(Running(p)) && p.inbox == me.inbox
  {
  }

  /** Whatever the client asks next of a server that does not lead, the effect stays, exactly if that server has
    * nothing left to read. */
  lemma NextAnswerStandsIff(s: System, id: Id)
    requires Regular(s) && At(s, id).Running? && At(s, id).p.phase == Idle && !Leads(At(s, id))
    ensures (forall req :: Sendable(req) && Serviceable(req) && IsMutation(req) ==> AnswerKept(s, id, req))
      <==> At(s, id).p.inbox == []
  {
    hide Sendable, Serviceable, Regular, RowsMap, Stands, AnswerKept, IsMutation, Leads;
    RegularControl(s);
    InboxOrders(s, id);
    var m, inbox := MapAt(At(s, id)), At(s, id).p.inbox;
    DrainedIff(m, inbox);
    forall req | Sendable(req) && Serviceable(req) && IsMutation(req)
      ensures AnswerKept(s, id, req) <==> Stands(m, inbox, req)
    {
      AnswerKeptIs(s, id, req);
    }
  }

  /** A run that shows it: the client's put was forwarded by a server that died, and was then executed at the other
    * one; once that one reads the old forward, the client's next del there is undone. */
  lemma LateForwardUndoes(s: System, k: Key, v: Value)
    requires Init(s) && Sendable(PutRequest(k, v)) && Sendable(DelRequest(k))
    ensures var put, del := PutRequest(k, v), DelRequest(k);
      var steps := OrphanSteps(put) + [Client(B, put)];
      && Run(s, steps)
      && var t := Final(s, steps);
         && t.b.Running? && MapAt(t.b) == map[k := v] && t.b.p.inbox == [put]
         && Serviceable(del) && !AnswerKept(t, B, del)
  {
    hide Work, RowsMap, Sendable, Countable, Final, OrphanSteps, Run, Regular, AnswerKept, EmptyRows;
    var put, del := PutRequest(k, v), DelRequest(k);
    Orphaned(s, k, v);
    InitRegular(s);
    RunRegular(s, OrphanSteps(put));
    var t := Final(s, OrphanSteps(put));
    PutInEmpty(t.b.p, k, v, s.sizeB, FromClient);
    Longer(s, OrphanSteps(put), Client(B, put));
    StepRegular(t, Client(B, put));
    var u := Next(t, Client(B, put));
    SendableIsServiceable(del);
    AnswerKeptIs(u, B, del);
    DelUndone(k, v);
  }

  lemma DelUndone(k: Key, v: Value)
    requires Serviceable(PutRequest(k, v)) && Serviceable(DelRequest(k))
    ensures !Stands(map[k := v], [PutRequest(k, v)], DelRequest(k))
  {
    var put, del := PutRequest(k, v), DelRequest(k);
    KeyReadIs(ApplyMap(map[k := v], del), [put], k);
    assert [put][1..] == [];
    assert KeyRead(None, [put], k) == Some(v);
  }

  // ---- The ordinary session ----

  /** A leader and its backup between two requests, with nothing unread. */
  ghost predicate Ready(t: System, id: Id) {
    && Regular(t) && InStep(t) && Drained(t)
    && Leads(At(t, id)) && LinkedTo(At(t, id), At(t, Other(id))) && At(t, id).p.phase == Idle
  }

  /** Each request is sent to the leader once, forwarded, read and answered. */
  function Ordinary(id: Id, reqs: seq<Message>): seq<Call> {
    if reqs == [] then []
    else [Call(reqs[0], [Client(id, reqs[0]), Take(Other(id)), Finish(id)])] + Ordinary(id, reqs[1..])
  }

  lemma OrdinaryCall(t: System, id: Id, req: Message)
    requires Ready(t, id) && Sendable(req) && req.opcode in {20, 30, 50}
    ensures Serviceable(req)
    ensures var steps := [Client(id, req), Take(Other(id)), Finish(id)];
      && Run(t, steps) && Each((s, step) => InCall(req, s, step), t, steps)
      && var u := Final(t, steps);
         Ready(u, id) && MapAt(At(u, id)) == ApplyMap(MapAt(At(t, id)), req)
         && MapAt(At(u, Other(id))) == MapAt(At(u, id))
  {
    hide Regular, InStep, Sendable, Serviceable, Enabled, Next, ApplyMap, RowsMap;
    ForwardCompletes(t, id, req);
    var u, v := Next(t, Client(id, req)), Next(Next(t, Client(id, req)), Take(Other(id)));
    var steps := [Client(id, req), Take(Other(id)), Finish(id)];
    assert steps[1..] == [Take(Other(id)), Finish(id)] && steps[1..][1..] == [Finish(id)];
    assert [Finish(id)][1..] == [];
    assert Run(u, steps[1..]) && Run(v, [Finish(id)]) && Run(Next(v, Finish(id)), []);
    assert Each((s, step) => InCall(req, s, step), v, [Finish(id)]);
    assert Each((s, step) => InCall(req, s, step), u, steps[1..]);
    DrainedAt(t, id);
    DrainedBoth(Final(t, steps), id);
  }

  lemma DrainedBoth(u: System, id: Id)
    requires At(u, id).Running? ==> At(u, id).p.inbox == []
    requires At(u, Other(id)).Running? ==> At(u, Other(id)).p.inbox == []
    ensures Drained(u)
  {
    assert id == A || id == B;
  }

  lemma DrainedAt(t: System, id: Id)
    requires Drained(t)
    ensures At(t, id).Running? ==> At(t, id).p.inbox == []
  {
    assert id == A || id == B;
  }

  /** Any sequence of mutations sent to a leader with a live backup can go through, and then both servers hold the map
    * that all of them make, in their order. */
  lemma {:induction false} OrdinarySession(t: System, id: Id, reqs: seq<Message>)
    requires Ready(t, id) && forall i :: 0 <= i < |reqs| ==> Sendable(reqs[i]) && reqs[i].opcode in {20, 30, 50}
    ensures Orders(reqs) && IsSession(t, Ordinary(id, reqs)) && Requests(Ordinary(id, reqs)) == reqs
    ensures var u := End(t, Ordinary(id, reqs));
      && Ready(u, id)
      && MapAt(At(u, id)) == ReadAll(MapAt(At(t, id)), reqs) && LinkedTo(At(u, id), At(u, Other(id)))
      && MapAt(At(u, Other(id))) == MapAt(At(u, id))
    decreases reqs
  {
    hide Sendable, Serviceable, Each, InCall, Run, Final, ApplyMap, RowsMap;
    if reqs == [] {
      LedInbox(t, id);
    } else {
      OrdinaryCall(t, id, reqs[0]);
      var u := Final(t, [Client(id, reqs[0]), Take(Other(id)), Finish(id)]);
      OrdinarySession(u, id, reqs[1..]);
      assert Ordinary(id, reqs)[1..] == Ordinary(id, reqs[1..]);
    }
  }
}
