/** One request from the client's stub to the server's table and back, over two streams cut into chunks. */
module Exchange {
  import opened Bytes
  import opened Options
  import opened Rows
  import opened Messages
  import opened Skeleton
  import opened Remote
  import Network

  /** What the system calls of the two ends do: the client's writes, the server's reads and writes, the client's
    * reads. */
  datatype Calls = Calls(
    ask: Network.Schedule, hear: Network.Schedule, reply: Network.Schedule, wait: Network.Schedule)

  /** How the exchange ends: with the table left behind and the reply or NULL at the client, or where one of the ends
    * goes on with a value that was never set. */
  datatype Exchanged = Unspecified | Done(rows: Rows, reply: Option<Message>)

  /** The server's half: a request that it understood is invoked, and the reply is sent. */
  function Serve(rows: Rows, got: Network.Received, schedule: Network.Schedule): (Rows, seq<byte>)
    requires rows != []
  {
    if got.Request? && Serviceable(got.m) && Invoke(rows, got.m).1.Reply? then
      (Invoke(rows, got.m).0, Network.SendReply(Invoke(rows, got.m).1.m, schedule).bytes)
    else (rows, [])
  }

  /** `network_send_receive` against `network_receive_send`. */
  function Run(rows: Rows, req: Message, calls: Calls): Exchanged
    requires rows != []
  {
    var sent := Network.SendFrame(req, calls.ask);
    var got := Network.Receive(sent.bytes, calls.hear);
    if got == Network.Unset then Unspecified else
      var (next, bytes) := Serve(rows, got, calls.reply);
      if !sent.ok then Done(next, None) else
        match Network.ReceiveReply(bytes, calls.wait)
        case Request(m) => Done(next, Some(m))
        case Dropped => Done(next, None)
        case Unset => Unspecified
  }

  /** The request's length leaves in one call, arrives in any chunks, and its body arrives in one. */
  predicate Asked(req: Message, calls: Calls) {
    && Network.AtOnce(calls.ask, 4) && Network.Emits(Network.SkipZeros(calls.ask)[1..], |Encode(req)|)
    && Network.Delivers(calls.hear, 4)
    && Network.After(calls.hear, 4) != [] && Network.After(calls.hear, 4)[0] >= |Encode(req)|
  }

  /** The reply's length leaves in any calls, arrives in one chunk, and its body arrives in any. */
  predicate Answered(reply: Message, calls: Calls) {
    && Network.Emits(calls.reply, 4) && Network.Emits(Network.After(calls.reply, 4), |Encode(reply)|)
    && calls.wait != [] && calls.wait[0] >= 4 && Network.Delivers(calls.wait[1..], |Encode(reply)|)
  }

  lemma AskedIff(req: Message, calls: Calls)
    requires Representable(req) && Encodable(req) && |Encode(req)| <= INT_MAX
    ensures var sent := Network.SendFrame(req, calls.ask);
      Asked(req, calls) <==> sent.ok && Network.Receive(sent.bytes, calls.hear) == Network.Request(req)
  {
    hide Encode, Network.SendFrame, Network.Receive, Network.Frame;
    Network.SendFrameIff(req, calls.ask);
    Network.ReceiveIff(req, [], calls.hear);
    assert Network.Frame(req) + [] == Network.Frame(req);
  }

  /** What the server understands is the request, and only if the client's sending ended well. */
  lemma HeardOnly(req: Message, calls: Calls)
    requires Representable(req) && Encodable(req) && |Encode(req)| <= INT_MAX
    ensures var sent := Network.SendFrame(req, calls.ask);
      var got := Network.Receive(sent.bytes, calls.hear);
      got.Request? ==> sent.ok && got == Network.Request(req)
  {
    hide Encode, Network.SendFrame, Network.Receive, Network.Frame;
    Network.SendFrameIff(req, calls.ask);
    Network.ReceiveOnly(req, Network.SendFrame(req, calls.ask).bytes, calls.hear);
  }

  lemma AnsweredIff(reply: Message, calls: Calls)
    requires Representable(reply) && Encodable(reply) && |Encode(reply)| <= INT_MAX
    ensures var bytes := Network.SendReply(reply, calls.reply).bytes;
      && (Answered(reply, calls) <==> Network.ReceiveReply(bytes, calls.wait).Request?)
      && (Answered(reply, calls) <==> Network.ReceiveReply(bytes, calls.wait) == Network.Request(reply))
  {
    hide Encode, Network.SendReply, Network.ReceiveReply, Network.Frame;
    Network.SendReplyIff(reply, calls.reply);
    Network.ReceiveReplyIff(reply, [], calls.wait);
    Network.ReceiveReplyOnly(reply, Network.SendReply(reply, calls.reply).bytes, calls.wait);
    assert Network.Frame(reply) + [] == Network.Frame(reply);
  }

  /** Nothing sent, nothing understood. */
  lemma SilenceIsNoReply(schedule: Network.Schedule)
    ensures !Network.ReceiveReply([], schedule).Request?
  {
    Network.ReadAllExact([], schedule, 4);
  }

  /** An end uses a value that was never set exactly if the length of the request meets an error on its way in, or if
    * the client waits, and gets the length of a reply but not all of it. */
  predicate Muddled(req: Message, reply: Message, calls: Calls) {
    || Network.Breaks(calls.hear, Network.Moved(calls.ask, 4), 4)
    || (&& Asked(req, calls) && !Answered(reply, calls)
        && Network.Moved(calls.reply, 4) == 4 && calls.wait != [] && calls.wait[0] >= 4)
  }

  /** The whole call, for any bucket count and any cut of the two streams: the client gets a reply exactly when both
    * messages make it through their calls; the reply tells what the local operation tells, and the server's map has
    * moved by that operation exactly when the request made it through, reply or none. */
  lemma ExchangeIff(rows: Rows, req: Message, calls: Calls)
    requires WellFormed(rows) && Storable(RowsMap(rows)) && Countable(rows) && Sendable(req)
    requires req.opcode in {10, 20, 30, 40, 50}
    requires |Encode(req)| <= INT_MAX
    requires Call(rows, req).1.Some? ==> |Encode(Call(rows, req).1.value)| <= INT_MAX
    ensures Call(rows, req).1.Some?
    ensures var x, reply := Run(rows, req, calls), Call(rows, req).1.value;
      && (x.Done? <==> !Muddled(req, reply, calls))
      && (x.Done? && x.reply.Some? <==> Asked(req, calls) && Answered(reply, calls))
      && (x.Done? && x.reply.Some? ==>
            && LocalOutcome(RowsMap(rows), req, Read(x.reply.value))
            && Labelled(RowsMap(rows), req, x.reply.value))
      && (x.Done? ==> RowsMap(x.rows) == if Asked(req, calls) then ApplyMap(RowsMap(rows), req) else RowsMap(rows))
  {
    hide Invoke, LocalOutcome, Labelled, Call, ApplyMap, Storable, Placed, Sendable, Read, Encode, Asked, Answered;
    hide Network.SendFrame, Network.Receive, Network.SendReply, Network.ReceiveReply, Representable, Encodable;
    RemoteTransparency(rows, req);
    WireTransparent(rows, req);
    SendableTravels(req);
    AskedIff(req, calls);
    HeardOnly(req, calls);
    ReplyEncodable(rows, req);
    AnsweredIff(Call(rows, req).1.value, calls);
    SilenceIsNoReply(calls.wait);
    MuddledRequest(req, calls);
    MuddledReply(Call(rows, req).1.value, calls);
  }

  lemma MuddledRequest(req: Message, calls: Calls)
    requires Representable(req) && Encodable(req) && |Encode(req)| <= INT_MAX
    ensures var sent := Network.SendFrame(req, calls.ask).bytes;
      Network.Receive(sent, calls.hear) == Network.Unset <==>
        Network.Breaks(calls.hear, Network.Moved(calls.ask, 4), 4)
  {
    hide Encode, Network.SendFrame, Network.Receive, Network.Breaks, Network.Moved;
    var sent := Network.SendFrame(req, calls.ask).bytes;
    Network.SendFrameIff(req, calls.ask);
    Network.ReceiveUnsetIff(req, sent, calls.hear);
    LengthSent(req, calls.ask);
    if |sent| >= 4 {
      BreaksEnough(calls.hear, |sent|, 4);
    }
  }

  /** More than is asked for makes no difference. */
  lemma {:induction false} BreaksEnough(schedule: Network.Schedule, available: nat, length: nat)
    requires length <= available
    ensures Network.Breaks(schedule, available, length) == Network.Breaks(schedule, length, length)
    decreases schedule
  {
    if schedule != [] && 0 <= schedule[0] < length {
      BreaksEnough(schedule[1..], available - schedule[0], length - schedule[0]);
    }
  }

  lemma LengthSent(req: Message, schedule: Network.Schedule)
    ensures var sent := Network.SendFrame(req, schedule).bytes;
      if Network.Moved(schedule, 4) == 4 then |sent| >= 4 else |sent| == Network.Moved(schedule, 4)
  {
    hide Encode, U32, Network.WriteAll, Network.Moved;
    Network.EncodeNotEmpty(req);
    Network.WriteAllExact(U32(|Encode(req)|), schedule);
  }

  lemma MuddledReply(reply: Message, calls: Calls)
    requires Representable(reply) && Encodable(reply) && |Encode(reply)| <= INT_MAX
    ensures var bytes := Network.SendReply(reply, calls.reply).bytes;
      Network.ReceiveReply(bytes, calls.wait) == Network.Unset <==>
        && !Answered(reply, calls)
        && Network.Moved(calls.reply, 4) == 4 && calls.wait != [] && calls.wait[0] >= 4
    ensures Network.ReceiveReply([], calls.wait) != Network.Unset
  {
    hide Encode, Network.SendReply, Network.ReceiveReply, Network.Moved, Network.Frame;
    var bytes := Network.SendReply(reply, calls.reply).bytes;
    Network.SendReplyIff(reply, calls.reply);
    Network.ReceiveReplyUnsetIff(reply, bytes, calls.wait);
    Network.ReceiveReplyUnsetIff(reply, [], calls.wait);
    LengthLeft(reply, calls.reply);
  }

  lemma LengthLeft(reply: Message, schedule: Network.Schedule)
    ensures |Network.SendReply(reply, schedule).bytes| >= 4 <==> Network.Moved(schedule, 4) == 4
  {
    hide Encode, U32, Network.WriteAll, Network.Moved;
    Network.EncodeNotEmpty(reply);
    var size := U32(|Encode(reply)|);
    Network.WriteAllExact(size, schedule);
    var head := Network.WriteAll(size, schedule);
  }

  lemma SendableTravels(req: Message)
    requires Sendable(req)
    ensures Representable(req) && Encodable(req) && Serviceable(req)
  {
  }
}
