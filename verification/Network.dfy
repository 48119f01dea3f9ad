/** Transfers in chunks: `read_all`, `write_all`, and what the framing on top of them accepts. */
module Network {
  import opened Bytes
  import opened Options
  import opened Messages
  import MessageBuffers

  /** What the next system calls will do: a negative number is an error, any other one the most they transfer. */
  type Schedule = seq<int>

  function Min(a: int, b: int): int {
    if a <= b then a else b
  }

  /** The end of one transfer: the value returned, the bytes moved, the schedule left over. */
  datatype Transfer = Transfer(result: int, bytes: seq<byte>, left: Schedule)

  /** `read_all` on a stream: error and end of stream stop it, otherwise it goes on until nothing is missing. */
  function ReadAll(stream: seq<byte>, schedule: Schedule, length: int): Transfer
    requires length > 0
    decreases |schedule|
  {
    if schedule == [] || schedule[0] < 0 then Transfer(-1, [], schedule)
    else
      var n := Min(schedule[0], Min(length, |stream|));
      if n == 0 then Transfer(0, [], schedule[1..])
      else if n == length then Transfer(n, stream[..n], schedule[1..])
      else
        var t := ReadAll(stream[n..], schedule[1..], length - n);
        Transfer(t.result, stream[..n] + t.bytes, t.left)
  }

  /** `write_all`: a call that writes nothing is repeated. */
  function WriteAll(bytes: seq<byte>, schedule: Schedule): Transfer
    requires bytes != []
    decreases |schedule|
  {
    if schedule == [] || schedule[0] < 0 then Transfer(-1, [], schedule)
    else
      var n := Min(schedule[0], |bytes|);
      if n == |bytes| then Transfer(n, bytes, schedule[1..])
      else
        var t := WriteAll(bytes[n..], schedule[1..]);
        Transfer(t.result, bytes[..n] + t.bytes, t.left)
  }

  /** The schedule delivers `length` bytes in positive chunks before anything else happens. */
  predicate Delivers(schedule: Schedule, length: int) {
    length <= 0 || (schedule != [] && schedule[0] > 0 && Delivers(schedule[1..], length - schedule[0]))
  }

  /** The schedule lets `length` bytes out before an error; calls that move nothing are only repeated. */
  predicate Emits(schedule: Schedule, length: int) {
    length <= 0 || (schedule != [] && schedule[0] >= 0 && Emits(schedule[1..], length - schedule[0]))
  }

  /** What is left of a schedule once its calls have moved `length` bytes. */
  function After(schedule: Schedule, length: int): Schedule {
    if length <= 0 || schedule == [] then schedule else After(schedule[1..], length - schedule[0])
  }

  /** The schedule from its first call that does not move nothing. */
  function SkipZeros(schedule: Schedule): Schedule {
    if schedule != [] && schedule[0] == 0 then SkipZeros(schedule[1..]) else schedule
  }

  /** The first call that moves anything moves all `length` bytes. */
  predicate AtOnce(schedule: Schedule, length: int) {
    SkipZeros(schedule) != [] && SkipZeros(schedule)[0] >= length
  }

  /** Reading `length` of `available` bytes meets an error before it is done and before the stream ends. */
  predicate Breaks(schedule: Schedule, available: nat, length: int)
    decreases schedule
  {
    if schedule == [] || schedule[0] < 0 then true
    else
      var n := Min(schedule[0], Min(length, available));
      0 < n < length && Breaks(schedule[1..], available - n, length - n)
  }

  /** The number of bytes that leave, of `length`, before the first error. */
  function Moved(schedule: Schedule, length: nat): nat
    decreases schedule
  {
    if length == 0 || schedule == [] || schedule[0] < 0 then 0
    else
      var n := Min(schedule[0], length);
      n + Moved(schedule[1..], length - n)
  }

  lemma Extend(stream: seq<byte>, n: nat, more: seq<byte>)
    requires n <= |stream| && more <= stream[n..]
    ensures stream[..n] + more <= stream
  {
  }

  /** The transfer `t` seen together with the bytes moved before it. */
  function Behind(done: seq<byte>, t: Transfer): Transfer {
    Transfer(t.result, done + t.bytes, t.left)
  }

  /** One call: it settles the transfer, or moves a chunk and leaves the rest. */
  lemma ReadAllUnfold(stream: seq<byte>, schedule: Schedule, length: int)
    requires length > 0
    ensures var t := ReadAll(stream, schedule, length);
      if schedule == [] || schedule[0] <= 0 || stream == [] then t.bytes == [] && t.result <= 0
      else
        var n := Min(schedule[0], Min(length, |stream|));
        if n == length then t == Transfer(n, stream[..n], schedule[1..])
        else t == Behind(stream[..n], ReadAll(stream[n..], schedule[1..], length - n))
  {
  }

  lemma {:induction false} ReadAllSize(stream: seq<byte>, schedule: Schedule, length: int)
    requires length > 0
    ensures var t := ReadAll(stream, schedule, length);
      |t.bytes| <= |stream| && |t.bytes| <= length && (t.result > 0 <==> |t.bytes| == length)
    decreases |schedule|
  {
    hide ReadAll;
    ReadAllUnfold(stream, schedule, length);
    if schedule != [] && schedule[0] > 0 && stream != [] {
      var n := Min(schedule[0], Min(length, |stream|));
      if n < length {
        ReadAllSize(stream[n..], schedule[1..], length - n);
      }
    }
  }

  lemma {:induction false} ReadAllPrefix(stream: seq<byte>, schedule: Schedule, length: int)
    requires length > 0
    ensures ReadAll(stream, schedule, length).bytes <= stream
    decreases |schedule|
  {
    hide ReadAll;
    ReadAllUnfold(stream, schedule, length);
    if schedule != [] && schedule[0] > 0 && stream != [] {
      var n := Min(schedule[0], Min(length, |stream|));
      if n < length {
        ReadAllPrefix(stream[n..], schedule[1..], length - n);
        Extend(stream, n, ReadAll(stream[n..], schedule[1..], length - n).bytes);
      }
    }
  }

  lemma {:induction false} ReadAllSucceeds(stream: seq<byte>, schedule: Schedule, length: int)
    requires length > 0
    ensures ReadAll(stream, schedule, length).result > 0 <==> Delivers(schedule, length) && length <= |stream|
    decreases |schedule|
  {
    hide ReadAll;
    ReadAllUnfold(stream, schedule, length);
    if schedule != [] && schedule[0] > 0 && stream != [] {
      var n := Min(schedule[0], Min(length, |stream|));
      if n < length {
        ReadAllSucceeds(stream[n..], schedule[1..], length - n);
      }
    }
  }

  lemma {:induction false} ReadAllLeft(stream: seq<byte>, schedule: Schedule, length: int)
    requires length > 0 && ReadAll(stream, schedule, length).result > 0
    ensures ReadAll(stream, schedule, length).left == After(schedule, length)
    decreases |schedule|
  {
    hide ReadAll;
    ReadAllUnfold(stream, schedule, length);
    if schedule != [] && schedule[0] > 0 && stream != [] {
      var n := Min(schedule[0], Min(length, |stream|));
      if n < length {
        ReadAllUnfold(stream[n..], schedule[1..], length - n);
        ReadAllLeft(stream[n..], schedule[1..], length - n);
      }
    }
  }

  /** -1 means an error, 0 an end of the stream that came first. */
  lemma {:induction false} ReadAllBreaks(stream: seq<byte>, schedule: Schedule, length: int)
    requires length > 0
    ensures var t := ReadAll(stream, schedule, length);
      t.result >= -1 && (t.result == -1 <==> Breaks(schedule, |stream|, length))
    decreases |schedule|
  {
    if schedule != [] && schedule[0] >= 0 {
      var n := Min(schedule[0], Min(length, |stream|));
      if 0 < n < length {
        ReadAllBreaks(stream[n..], schedule[1..], length - n);
      }
    }
  }

  /** A positive result means exactly the requested bytes, in order; it happens exactly when chunks and stream
    * suffice. */
  lemma ReadAllExact(stream: seq<byte>, schedule: Schedule, length: int)
    requires length > 0
    ensures var t := ReadAll(stream, schedule, length);
      && |t.bytes| <= |stream| && |t.bytes| <= length && t.bytes == stream[..|t.bytes|]
      && (t.result > 0 <==> Delivers(schedule, length) && length <= |stream|)
      && (t.result > 0 <==> |t.bytes| == length)
      && t.result >= -1 && (t.result == -1 <==> Breaks(schedule, |stream|, length))
  {
    hide ReadAll;
    ReadAllBreaks(stream, schedule, length);
    ReadAllSize(stream, schedule, length);
    ReadAllPrefix(stream, schedule, length);
    ReadAllSucceeds(stream, schedule, length);
  }

  /** One call of `write_all`. */
  lemma WriteAllUnfold(bytes: seq<byte>, schedule: Schedule)
    requires bytes != []
    ensures var t := WriteAll(bytes, schedule);
      if schedule == [] || schedule[0] < 0 then t == Transfer(-1, [], schedule)
      else
        var n := Min(schedule[0], |bytes|);
        if n == |bytes| then t == Transfer(n, bytes, schedule[1..])
        else t == Behind(bytes[..n], WriteAll(bytes[n..], schedule[1..]))
  {
  }

  /** `write_all` emits a prefix of the buffer in order: all of it exactly when no error comes first, however many
    * calls move nothing. */
  lemma {:induction false} WriteAllExact(bytes: seq<byte>, schedule: Schedule)
    requires bytes != []
    ensures var t := WriteAll(bytes, schedule);
      && t.bytes <= bytes && |t.bytes| == Moved(schedule, |bytes|)
      && (t.result > 0 || t.result == -1)
      && (t.result > 0 <==> t.bytes == bytes)
      && (t.result > 0 <==> Emits(schedule, |bytes|))
      && (t.result > 0 ==> t.left == After(schedule, |bytes|))
    decreases |schedule|
  {
    hide WriteAll;
    WriteAllUnfold(bytes, schedule);
    if schedule != [] && 0 <= schedule[0] < |bytes| {
      var n := schedule[0];
      WriteAllExact(bytes[n..], schedule[1..]);
      Extend(bytes, n, WriteAll(bytes[n..], schedule[1..]).bytes);
      assert |bytes[..n] + WriteAll(bytes[n..], schedule[1..]).bytes| == |bytes| ==>
        |WriteAll(bytes[n..], schedule[1..]).bytes| == |bytes[n..]|;
    }
  }

  /** The value returned is the size of the last chunk: it equals the request only when one call did it all. */
  lemma {:induction false} ReadResultIff(stream: seq<byte>, schedule: Schedule, length: int)
    requires length > 0
    ensures ReadAll(stream, schedule, length).result == length
      <==> schedule != [] && schedule[0] >= length && |stream| >= length
    ensures ReadAll(stream, schedule, length).result <= length
    decreases |schedule|
  {
    if schedule != [] && schedule[0] > 0 && stream != [] {
      var n := Min(schedule[0], Min(length, |stream|));
      if n < length {
        ReadResultIff(stream[n..], schedule[1..], length - n);
      }
    }
  }

  lemma {:induction false} WriteResultIff(bytes: seq<byte>, schedule: Schedule)
    requires bytes != []
    ensures WriteAll(bytes, schedule).result <= |bytes|
    ensures WriteAll(bytes, schedule).result == |bytes| <==> AtOnce(schedule, |bytes|)
    ensures AtOnce(schedule, |bytes|) ==> WriteAll(bytes, schedule).left == SkipZeros(schedule)[1..]
    decreases |schedule|
  {
    hide WriteAll;
    WriteAllUnfold(bytes, schedule);
    if schedule != [] && 0 <= schedule[0] < |bytes| {
      assert bytes[0..] == bytes && [] + WriteAll(bytes, schedule[1..]).bytes == WriteAll(bytes, schedule[1..]).bytes;
      WriteResultIff(bytes[schedule[0]..], schedule[1..]);
    }
  }

  lemma ReadStep(done: seq<byte>, stream: seq<byte>, schedule: Schedule, length: int)
    requires length > 0
    ensures var all := Behind(done, ReadAll(stream, schedule, length));
      if schedule == [] || schedule[0] < 0 then all == Transfer(-1, done, schedule)
      else
        var n := Min(schedule[0], Min(length, |stream|));
        if n == 0 then all == Transfer(0, done, schedule[1..])
        else if n == length then all == Transfer(n, done + stream[..n], schedule[1..])
        else all == Behind(done + stream[..n], ReadAll(stream[n..], schedule[1..], length - n))
  {
    assert done + [] == done;
    if schedule != [] && schedule[0] > 0 {
      var n := Min(schedule[0], Min(length, |stream|));
      if 0 < n < length {
        var t := ReadAll(stream[n..], schedule[1..], length - n);
        assert done + (stream[..n] + t.bytes) == done + stream[..n] + t.bytes;
      }
    }
  }

  lemma WriteStep(done: seq<byte>, bytes: seq<byte>, schedule: Schedule)
    requires bytes != []
    ensures var all := Behind(done, WriteAll(bytes, schedule));
      if schedule == [] || schedule[0] < 0 then all == Transfer(-1, done, schedule)
      else
        var n := Min(schedule[0], |bytes|);
        if n == |bytes| then all == Transfer(n, done + bytes, schedule[1..])
        else all == Behind(done + bytes[..n], WriteAll(bytes[n..], schedule[1..]))
  {
    if schedule == [] || schedule[0] < 0 {
      assert done + [] == done;
    } else if schedule[0] < |bytes| {
      Associate(done, bytes[..schedule[0]], WriteAll(bytes[schedule[0]..], schedule[1..]).bytes);
    }
  }

  lemma Associate(a: seq<byte>, b: seq<byte>, c: seq<byte>)
    ensures a + (b + c) == a + b + c
  {
  }

  lemma Regroup(done: seq<byte>, rest: seq<byte>, n: nat)
    requires n <= |rest|
    ensures done + rest == done + rest[..n] + rest[n..]
  {
    assert rest == rest[..n] + rest[n..];
  }

  /** One end of a connection. */
  class Socket {
    var incoming: seq<byte>
    var outgoing: seq<byte>
    var schedule: Schedule

    constructor (incoming: seq<byte>, schedule: Schedule)
      ensures this.incoming == incoming && this.schedule == schedule && outgoing == []
    {
      this.incoming := incoming;
      this.schedule := schedule;
      outgoing := [];
    }

    /** `read`. */
    method Read(buffer: array<byte>, at: nat, length: int) returns (n: int)
      requires 0 < length && at + length <= buffer.Length
      modifies this`incoming, this`schedule, buffer
      ensures old(schedule) == [] || old(schedule[0]) < 0 ==> n == -1 && schedule == old(schedule)
      ensures old(schedule) != [] && old(schedule[0]) >= 0 ==>
        n == Min(old(schedule[0]), Min(length, |old(incoming)|)) && schedule == old(schedule)[1..]
      ensures incoming == if n > 0 then old(incoming)[n..] else old(incoming)
      ensures n <= 0 ==> buffer[..at] == old(buffer[..at])
      ensures n > 0 ==> buffer[..at + n] == old(buffer[..at]) + old(incoming)[..n]
    {
      if schedule == [] || schedule[0] < 0 {
        return -1;
      }
      n := Min(schedule[0], Min(length, |incoming|));
      schedule := schedule[1..];
      forall i | 0 <= i < n {
        buffer[at + i] := incoming[i];
      }
      incoming := incoming[n..];
    }

    /** `write`. */
    method Write(bytes: seq<byte>) returns (n: int)
      requires bytes != []
      modifies this`outgoing, this`schedule
      ensures old(schedule) == [] || old(schedule[0]) < 0 ==> n == -1 && schedule == old(schedule)
      ensures old(schedule) != [] && old(schedule[0]) >= 0 ==>
        n == Min(old(schedule[0]), |bytes|) && schedule == old(schedule)[1..]
      ensures outgoing == if n > 0 then old(outgoing) + bytes[..n] else old(outgoing)
    {
      if schedule == [] || schedule[0] < 0 {
        return -1;
      }
      n := Min(schedule[0], |bytes|);
      schedule := schedule[1..];
      outgoing := outgoing + bytes[..n];
    }

    /** `read_all`: fills the buffer from its start. */
    method FillAll(buffer: array<byte>, length: int) returns (result: int)
      requires 0 < length <= buffer.Length
      modifies this`incoming, this`schedule, buffer
      ensures var t := ReadAll(old(incoming), old(schedule), length);
        && result == t.result && schedule == t.left
        && old(incoming) == t.bytes + incoming
        && |t.bytes| <= length && buffer[..|t.bytes|] == t.bytes
    {
      hide ReadAll;
      ghost var stream, goal := incoming, ReadAll(incoming, schedule, length);
      ghost var done: seq<byte> := [];
      var missing, ptr := length, 0;
      result := 0;
      assert Behind(done, goal) == goal;
      while missing > 0
        invariant 0 <= missing <= length && ptr == length - missing == |done|
        invariant buffer[..ptr] == done && stream == done + incoming
        invariant missing > 0 ==> goal == Behind(done, ReadAll(incoming, schedule, missing))
        invariant missing == 0 ==> goal == Transfer(result, done, schedule)
        decreases |schedule|
      {
        ReadStep(done, incoming, schedule, missing);
        ghost var rest := incoming;
        result := Read(buffer, ptr, missing);
        if result < 0 {
          return -1;
        }
        if result == 0 {
          return 0;
        }
        Regroup(done, rest, result);
        done := done + rest[..result];
        ptr := ptr + result;
        missing := missing - result;
      }
    }

    /** `write_all`. */
    method EmitAll(bytes: seq<byte>) returns (result: int)
      requires bytes != []
      modifies this`outgoing, this`schedule
      ensures var t := WriteAll(bytes, old(schedule));
        result == t.result && outgoing == old(outgoing) + t.bytes && schedule == t.left
    {
      hide WriteAll;
      ghost var before, goal := outgoing, WriteAll(bytes, schedule);
      ghost var done: seq<byte> := [];
      var buffer := bytes;
      result := |bytes|;
      assert Behind(done, goal) == goal;
      while |buffer| > 0
        invariant outgoing == before + done && bytes == done + buffer
        invariant buffer != [] ==> goal == Behind(done, WriteAll(buffer, schedule))
        invariant buffer == [] ==> goal == Transfer(result, done, schedule)
        decreases |schedule|
      {
        WriteStep(done, buffer, schedule);
        result := Write(buffer);
        if result < 0 {
          return -1;
        }
        assert result == 0 ==> buffer[result..] == buffer && done + buffer[..result] == done;
        assert before + done + buffer[..result] == before + (done + buffer[..result]);
        Regroup(done, buffer, result);
        done := done + buffer[..result];
        buffer := buffer[result..];
      }
    }
  }

  // ---- Framing ----

  /** A message on the stream: four bytes of length, then its encoding. */
  function Frame(m: Message): seq<byte> {
    U32(|Encode(m)|) + Encode(m)
  }

  /** The length on the stream is the number of bytes behind it, most significant byte first. */
  lemma FrameLength(m: Message)
    requires |Encode(m)| <= INT_MAX
    ensures |Frame(m)| >= 8 && BigEndian(Frame(m)[..4]) == |Frame(m)| - 4 && Frame(m)[4..] == Encode(m)
  {
    hide Encode, U32, BigEndian;
    EncodeNotEmpty(m);
    FieldsAreBigEndian([], |Encode(m)|);
    assert Frame(m)[..4] == U32(|Encode(m)|);
  }

  /** What the server makes of its stream: it drops the connection, goes on with a value never set, or has a request. */
  datatype Received = Dropped | Unset | Request(m: Message)

  /** The receiving half of `network_receive_send`. */
  function Receive(stream: seq<byte>, schedule: Schedule): Received {
    var head := ReadAll(stream, schedule, 4);
    ReadAllExact(stream, schedule, 4);
    if head.result == 0 then Dropped
    else if head.result < 0 then Unset
    else
      var size := ToInt(FromU32(head.bytes));
      if size < 0 then Dropped
      else if size == 0 then Unset
      else
        var body := ReadAll(stream[4..], head.left, size);
        ReadAllExact(stream[4..], head.left, size);
        if body.result != size then Dropped else
          match Decode(body.bytes)
          case Undefined => Unset
          case Refused => Dropped
          case Got(m, _) => Request(m)
  }

  /** A request is understood exactly when its length arrives whole and its body arrives in a single chunk. */
  lemma ReceiveIff(m: Message, rest: seq<byte>, schedule: Schedule)
    requires Representable(m) && Encodable(m) && |Encode(m)| <= INT_MAX
    ensures Receive(Frame(m) + rest, schedule) == Request(m) <==>
      && Delivers(schedule, 4)
      && After(schedule, 4) != [] && After(schedule, 4)[0] >= |Encode(m)|
  {
    hide Encode, Decode, U32, FromU32;
    var stream := Frame(m) + rest;
    var size := |Encode(m)|;
    assert size > 0 by { EncodeNotEmpty(m); }
    ReadAllExact(stream, schedule, 4);
    var head := ReadAll(stream, schedule, 4);
    if head.result > 0 {
      ReadAllLeft(stream, schedule, 4);
      assert head.bytes == stream[..4] == U32(size);
      IntRoundTrip(size);
      assert stream[4..] == Encode(m) + rest;
      ReadResultIff(stream[4..], head.left, size);
      ReadAllExact(stream[4..], head.left, size);
      var body := ReadAll(stream[4..], head.left, size);
      if body.result == size {
        assert body.bytes == stream[4..][..size] == Encode(m);
        RoundTripIff(m);
      }
    }
  }

  /** From a frame that was cut short no request is understood, from a whole one nothing but its message. */
  lemma ReceiveOnly(m: Message, part: seq<byte>, schedule: Schedule)
    requires Representable(m) && Encodable(m) && |Encode(m)| <= INT_MAX && part <= Frame(m)
    ensures Receive(part, schedule).Request? ==> part == Frame(m) && Receive(part, schedule) == Request(m)
  {
    hide Encode, Decode, U32, FromU32;
    var size := |Encode(m)|;
    EncodeNotEmpty(m);
    ReadAllExact(part, schedule, 4);
    var head := ReadAll(part, schedule, 4);
    if head.result > 0 {
      assert head.bytes == part[..4] == Frame(m)[..4] == U32(size);
      IntRoundTrip(size);
      ReadAllExact(part[4..], head.left, size);
      var body := ReadAll(part[4..], head.left, size);
      if body.result == size {
        assert |part| == |Frame(m)| && part == Frame(m);
        assert part[4..] == Encode(m) == part[4..][..size];
        RoundTripIff(m);
      }
    }
  }

  /** The server uses a value that was never set exactly when the length meets an error; whatever else is missing makes
    * it drop the connection. */
  lemma ReceiveUnsetIff(m: Message, part: seq<byte>, schedule: Schedule)
    requires Representable(m) && Encodable(m) && |Encode(m)| <= INT_MAX && part <= Frame(m)
    ensures Receive(part, schedule) == Unset <==> Breaks(schedule, |part|, 4)
  {
    hide Encode, Decode, U32, FromU32, Breaks;
    var size := |Encode(m)|;
    EncodeNotEmpty(m);
    ReadAllExact(part, schedule, 4);
    var head := ReadAll(part, schedule, 4);
    if head.result > 0 {
      assert head.bytes == part[..4] == Frame(m)[..4] == U32(size);
      IntRoundTrip(size);
      ReadAllExact(part[4..], head.left, size);
      var body := ReadAll(part[4..], head.left, size);
      if body.result == size {
        assert |part| == |Frame(m)| && part == Frame(m);
        assert part[4..] == Encode(m) == part[4..][..size];
        RoundTripIff(m);
      }
    }
  }

  /** A length that is no positive number: a negative one is refused at both ends, with 0 both go on with a block that
    * was never filled. */
  lemma BadLength(n: int, rest: seq<byte>, schedule: Schedule)
    requires INT_MIN <= n <= 0
    ensures Delivers(schedule, 4) ==>
      Receive(U32(n) + rest, schedule) == if n < 0 then Dropped else Unset
    ensures schedule != [] && schedule[0] >= 4 ==>
      ReceiveReply(U32(n) + rest, schedule) == if n < 0 then Dropped else Unset
  {
    hide U32, FromU32, Decode;
    var stream := U32(n) + rest;
    ReadAllExact(stream, schedule, 4);
    ReadResultIff(stream, schedule, 4);
    IntRoundTrip(n);
    assert stream[..4] == U32(n);
  }

  lemma EncodeNotEmpty(m: Message)
    ensures |Encode(m)| >= 4
  {
  }

  /** The receiving half of `network_receive_send` as it runs; not called where the source would use an unset value. */
  method ReceiveRequest(socket: Socket) returns (r: Option<Message>)
    requires Receive(socket.incoming, socket.schedule) != Unset
    modifies socket`incoming, socket`schedule
    ensures var want := Receive(old(socket.incoming), old(socket.schedule));
      r == if want.Request? then Some(want.m) else None
  {
    hide Decode, FromU32;
    ghost var stream, schedule := socket.incoming, socket.schedule;
    ReadAllExact(stream, schedule, 4);
    var sizeField := new byte[4];
    var result := socket.FillAll(sizeField, 4);
    if result == 0 {
      return None;
    }
    assert sizeField[0..4] == sizeField[..4];
    var messageSize := ToInt(FromU32(sizeField[0..4]));
    if messageSize < 0 {
      // A negative size cannot be allocated.
      return None;
    }
    var pedido := new byte[messageSize];
    ReadAllExact(socket.incoming, socket.schedule, messageSize);
    ghost var body := ReadAll(socket.incoming, socket.schedule, messageSize);
    result := socket.FillAll(pedido, messageSize);
    if result != messageSize {
      return None;
    }
    assert pedido[..] == pedido[..messageSize] == body.bytes;
    r := MessageBuffers.BufferToMessage(pedido, messageSize);
  }

  // ---- The other end: `network_send_receive` ----

  /** The sending half: the bytes that left, and whether the caller goes on to wait for a reply. */
  datatype Sending = Sending(ok: bool, bytes: seq<byte>, left: Schedule)

  function SendFrame(m: Message, schedule: Schedule): Sending {
    EncodeNotEmpty(m);
    var head := WriteAll(U32(|Encode(m)|), schedule);
    if head.result != 4 then Sending(false, head.bytes, head.left)
    else
      var body := WriteAll(Encode(m), head.left);
      Sending(body.result != -1, head.bytes + body.bytes, body.left)
  }

  /** A request is waited for exactly when its length left in one call and its body left at all; then one whole
    * frame has left, and otherwise a prefix of it. */
  lemma SendFrameIff(m: Message, schedule: Schedule)
    ensures SendFrame(m, schedule).bytes <= Frame(m)
    ensures SendFrame(m, schedule).ok <==> AtOnce(schedule, 4) && Emits(SkipZeros(schedule)[1..], |Encode(m)|)
    ensures SendFrame(m, schedule).ok <==> SendFrame(m, schedule).bytes == Frame(m)
  {
    hide Encode, U32, WriteAll;
    EncodeNotEmpty(m);
    var size := U32(|Encode(m)|);
    WriteAllExact(size, schedule);
    WriteResultIff(size, schedule);
    var head := WriteAll(size, schedule);
    if head.result == 4 {
      WriteAllExact(Encode(m), head.left);
      var body := WriteAll(Encode(m), head.left);
      assert |body.bytes| == |Encode(m)| ==> body.bytes == Encode(m);
    } else {
      assert head.bytes <= size + Encode(m);
    }
  }

  /** The receiving half: an incomplete length gives NULL, an incomplete body is parsed without ever being set. */
  function ReceiveReply(stream: seq<byte>, schedule: Schedule): Received {
    var head := ReadAll(stream, schedule, 4);
    ReadAllExact(stream, schedule, 4);
    if head.result != 4 then Dropped
    else
      var size := ToInt(FromU32(head.bytes));
      if size < 0 then Dropped
      else if size == 0 then Unset
      else
        var body := ReadAll(stream[4..], head.left, size);
        ReadAllExact(stream[4..], head.left, size);
        if body.result <= 0 then Unset else
          match Decode(body.bytes)
          case Undefined => Unset
          case Refused => Dropped
          case Got(m, _) => Request(m)
  }

  /** A reply is understood exactly when its length arrives in one chunk; its body may come in any number of them. */
  lemma ReceiveReplyIff(m: Message, rest: seq<byte>, schedule: Schedule)
    requires Representable(m) && Encodable(m) && |Encode(m)| <= INT_MAX
    ensures ReceiveReply(Frame(m) + rest, schedule) == Request(m) <==>
      schedule != [] && schedule[0] >= 4 && Delivers(schedule[1..], |Encode(m)|)
  {
    hide Encode, Decode, U32, FromU32;
    var stream := Frame(m) + rest;
    var size := |Encode(m)|;
    assert size > 0 by { EncodeNotEmpty(m); }
    ReadAllExact(stream, schedule, 4);
    ReadResultIff(stream, schedule, 4);
    var head := ReadAll(stream, schedule, 4);
    if head.result == 4 {
      assert head.bytes == stream[..4] == U32(size) && head.left == schedule[1..];
      IntRoundTrip(size);
      assert stream[4..] == Encode(m) + rest;
      ReadAllExact(stream[4..], head.left, size);
      var body := ReadAll(stream[4..], head.left, size);
      if body.result > 0 {
        assert body.bytes == stream[4..][..size] == Encode(m);
        RoundTripIff(m);
      }
    }
  }

  /** From a frame that was cut short no reply is understood, from a whole one nothing but its message. */
  lemma ReceiveReplyOnly(m: Message, part: seq<byte>, schedule: Schedule)
    requires Representable(m) && Encodable(m) && |Encode(m)| <= INT_MAX && part <= Frame(m)
    ensures ReceiveReply(part, schedule).Request? ==> part == Frame(m) && ReceiveReply(part, schedule) == Request(m)
  {
    hide Encode, Decode, U32, FromU32;
    var size := |Encode(m)|;
    EncodeNotEmpty(m);
    ReadAllExact(part, schedule, 4);
    var head := ReadAll(part, schedule, 4);
    if head.result == 4 {
      assert head.bytes == part[..4] == Frame(m)[..4] == U32(size);
      IntRoundTrip(size);
      ReadAllExact(part[4..], head.left, size);
      var body := ReadAll(part[4..], head.left, size);
      if body.result > 0 {
        assert |part| == |Frame(m)| && part == Frame(m);
        assert part[4..] == Encode(m) == part[4..][..size];
        RoundTripIff(m);
      }
    }
  }

  /** The client parses a block that was never filled exactly when the length of the reply arrived and its body did
    * not; without the length it gives up. */
  lemma ReceiveReplyUnsetIff(m: Message, part: seq<byte>, schedule: Schedule)
    requires Representable(m) && Encodable(m) && |Encode(m)| <= INT_MAX && part <= Frame(m)
    ensures ReceiveReply(part, schedule) == Unset <==>
      && |part| >= 4 && schedule != [] && schedule[0] >= 4
      && !(part == Frame(m) && Delivers(schedule[1..], |Encode(m)|))
  {
    hide Encode, Decode, U32, FromU32;
    var size := |Encode(m)|;
    EncodeNotEmpty(m);
    ReadAllExact(part, schedule, 4);
    ReadResultIff(part, schedule, 4);
    var head := ReadAll(part, schedule, 4);
    if head.result == 4 {
      assert head.bytes == part[..4] == Frame(m)[..4] == U32(size);
      IntRoundTrip(size);
      ReadAllExact(part[4..], head.left, size);
      var body := ReadAll(part[4..], head.left, size);
      assert |part| == |Frame(m)| ==> part == Frame(m);
      if body.result > 0 {
        assert part == Frame(m) && part[4..] == Encode(m) == part[4..][..size];
        RoundTripIff(m);
      }
    }
  }

  /** The sending half of `network_receive_send`: unlike the client's it takes the length in any number of calls. */
  function SendReply(m: Message, schedule: Schedule): Sending {
    EncodeNotEmpty(m);
    var head := WriteAll(U32(|Encode(m)|), schedule);
    if head.result < 0 then Sending(false, head.bytes, head.left)
    else
      var body := WriteAll(Encode(m), head.left);
      Sending(body.result >= 0, head.bytes + body.bytes, body.left)
  }

  /** A reply leaves exactly when no error comes before its last byte, and then it is one whole frame; otherwise the
    * frame is cut short. */
  lemma SendReplyIff(m: Message, schedule: Schedule)
    ensures SendReply(m, schedule).bytes <= Frame(m)
    ensures SendReply(m, schedule).ok <==> Emits(schedule, 4) && Emits(After(schedule, 4), |Encode(m)|)
    ensures SendReply(m, schedule).ok <==> SendReply(m, schedule).bytes == Frame(m)
  {
    hide Encode, U32, WriteAll;
    EncodeNotEmpty(m);
    var size := U32(|Encode(m)|);
    WriteAllExact(size, schedule);
    var head := WriteAll(size, schedule);
    if head.result > 0 {
      WriteAllExact(Encode(m), head.left);
      var body := WriteAll(Encode(m), head.left);
      assert |body.bytes| == |Encode(m)| ==> body.bytes == Encode(m);
    } else {
      assert head.bytes <= size + Encode(m);
    }
  }

  /** `network_send_receive` up to the reply, on the connection `socket`. */
  method SendRequest(socket: Socket, m: Message) returns (ok: bool)
    modifies socket`outgoing, socket`schedule
    ensures var s := SendFrame(m, old(socket.schedule));
      ok == s.ok && socket.outgoing == old(socket.outgoing) + s.bytes && socket.schedule == s.left
  {
    hide Encode, U32, WriteAll;
    EncodeNotEmpty(m);
    ghost var before := socket.outgoing;
    var size, message := MessageBuffers.MessageToBuffer(m);
    ghost var head := WriteAll(U32(size), socket.schedule);
    var result := socket.EmitAll(U32(size));
    if result != 4 {
      return false;
    }
    ghost var body := WriteAll(message[..], socket.schedule);
    result := socket.EmitAll(message[..]);
    assert before + head.bytes + body.bytes == before + (head.bytes + body.bytes);
    ok := result != -1;
  }

  /** `network_receive_send` from the serialized reply on. */
  method WriteReply(socket: Socket, m: Message) returns (ok: bool)
    modifies socket`outgoing, socket`schedule
    ensures var s := SendReply(m, old(socket.schedule));
      ok == s.ok && socket.outgoing == old(socket.outgoing) + s.bytes && socket.schedule == s.left
  {
    hide Encode, U32, WriteAll;
    EncodeNotEmpty(m);
    ghost var before := socket.outgoing;
    var size, message := MessageBuffers.MessageToBuffer(m);
    ghost var head := WriteAll(U32(size), socket.schedule);
    var result := socket.EmitAll(U32(size));
    if result < 0 {
      return false;
    }
    ghost var body := WriteAll(message[..], socket.schedule);
    result := socket.EmitAll(message[..]);
    assert before + head.bytes + body.bytes == before + (head.bytes + body.bytes);
    ok := result >= 0;
  }

  /** `network_send_receive` from the reply on; not called where the source would use an unset value. */
  method AwaitReply(socket: Socket) returns (r: Option<Message>)
    requires ReceiveReply(socket.incoming, socket.schedule) != Unset
    modifies socket`incoming, socket`schedule
    ensures var want := ReceiveReply(old(socket.incoming), old(socket.schedule));
      r == if want.Request? then Some(want.m) else None
  {
    hide Decode, FromU32;
    ghost var stream, schedule := socket.incoming, socket.schedule;
    ReadAllExact(stream, schedule, 4);
    ReadResultIff(stream, schedule, 4);
    var sizeField := new byte[4];
    var result := socket.FillAll(sizeField, 4);
    if result != 4 {
      return None;
    }
    assert sizeField[0..4] == sizeField[..4];
    var messageSize := ToInt(FromU32(sizeField[0..4]));
    if messageSize < 0 {
      // A negative size is refused by the parser.
      return None;
    }
    var answer := new byte[messageSize];
    ReadAllExact(socket.incoming, socket.schedule, messageSize);
    ghost var body := ReadAll(socket.incoming, socket.schedule, messageSize);
    result := socket.FillAll(answer, messageSize);
    assert answer[..] == answer[..messageSize] == body.bytes;
    r := MessageBuffers.BufferToMessage(answer, messageSize);
  }
}
