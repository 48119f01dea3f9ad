/** The wire format: what a message is, which bytes stand for it, and what the bytes mean. */
module Messages {
  import opened Bytes

  const OC_SIZE: int := 10
  const OC_DEL: int := 20
  const OC_UPDATE: int := 30
  const OC_GET: int := 40
  const OC_PUT: int := 50
  const OC_RT_ERROR: int := 99
  const OC_UP: int := 100
  const OC_DOWN: int := 101
  const OC_STATUS: int := 102

  const CT_RESULT: int := 10
  const CT_VALUE: int := 20
  const CT_KEY: int := 30
  const CT_KEYS: int := 40
  const CT_ENTRY: int := 50

  const KEY_MAX: int := 0xFFFF

  /** The union of the source, tagged by its content type. */
  datatype Content =
    | Result(result: int)
    | Value(data: seq<byte>)
    | KeyName(key: seq<byte>)
    | KeyList(keys: seq<seq<byte>>)
    | EntryOf(name: seq<byte>, value: seq<byte>)

  datatype Message = Message(opcode: int, content: Content)

  function CType(c: Content): int {
    match c
    case Result(_) => CT_RESULT
    case Value(_) => CT_VALUE
    case KeyName(_) => CT_KEY
    case KeyList(_) => CT_KEYS
    case EntryOf(_, _) => CT_ENTRY
  }

  predicate KnownCType(ct: int) {
    ct == CT_RESULT || ct == CT_VALUE || ct == CT_KEY || ct == CT_KEYS || ct == CT_ENTRY
  }

  predicate KnownOpcode(op: int) {
    || op == OC_STATUS || op == OC_UP || op == OC_DOWN || op == OC_RT_ERROR
    || op == OC_DEL || op == OC_SIZE || op == OC_PUT || op == OC_UPDATE || op == OC_GET
    || op == OC_DEL + 1 || op == OC_SIZE + 1 || op == OC_PUT + 1 || op == OC_UPDATE + 1 || op == OC_GET + 1
  }

  /** `valid` as compiled: its first test assigns a non-zero value to the opcode, so only the content type counts. */
  predicate Valid(opcode: int, ctype: int) {
    KnownCType(ctype)
  }

  /** Exactly where the compiled test and the documented one (known opcode and known content type) agree. */
  lemma ValidAgreement(opcode: int, ctype: int)
    ensures Valid(opcode, ctype) == (KnownOpcode(opcode) && KnownCType(ctype))
      <==> KnownOpcode(opcode) || !KnownCType(ctype)
  {
  }

  /** What the C types of the fields can hold. */
  predicate Representable(m: Message) {
    && SHORT_MIN <= m.opcode <= SHORT_MAX
    && match m.content
       case Result(r) => INT_MIN <= r <= INT_MAX
       case Value(d) => |d| <= INT_MAX
       case KeyName(k) => NulFree(k)
       case KeyList(ks) => |ks| <= INT_MAX && forall i :: 0 <= i < |ks| ==> NulFree(ks[i])
       case EntryOf(k, d) => NulFree(k) && |d| <= INT_MAX
  }

  /** What a 16-bit key length and the refusal of empty data blocks leave room for. */
  predicate Encodable(m: Message) {
    match m.content
    case Result(_) => true
    case Value(d) => d != []
    case KeyName(k) => |k| <= KEY_MAX
    case KeyList(ks) => forall i :: 0 <= i < |ks| ==> |ks[i]| <= KEY_MAX
    case EntryOf(k, d) => |k| <= KEY_MAX && d != []
  }

  // ---- Serialization ----

  function KeyField(k: seq<byte>): (r: seq<byte>)
    ensures |r| == 2 + |k|
  {
    U16(|k|) + k
  }

  function ValueField(d: seq<byte>): seq<byte> {
    U32(|d|) + d
  }

  function KeyFields(ks: seq<seq<byte>>): seq<byte> {
    if ks == [] then [] else KeyFields(ks[..|ks| - 1]) + KeyField(ks[|ks| - 1])
  }

  function Body(c: Content): seq<byte> {
    match c
    case Result(r) => U32(r)
    case Value(d) => ValueField(d)
    case KeyName(k) => KeyField(k)
    case KeyList(ks) => U32(|ks|) + KeyFields(ks)
    case EntryOf(k, d) => KeyField(k) + ValueField(d)
  }

  function Encode(m: Message): seq<byte> {
    U16(m.opcode) + U16(CType(m.content)) + Body(m.content)
  }

  /** Where field `i` of a key list begins. */
  function Offset(ks: seq<seq<byte>>, i: nat): nat
    requires i <= |ks|
  {
    if i == 0 then 0 else Offset(ks, i - 1) + 2 + |ks[i - 1]|
  }

  lemma {:induction false} KeyFieldsLength(ks: seq<seq<byte>>)
    ensures |KeyFields(ks)| == Offset(ks, |ks|)
  {
    if ks != [] {
      var n := |ks| - 1;
      KeyFieldsLength(ks[..n]);
      OffsetOfPrefix(ks, n, n);
    }
  }

  lemma {:induction false} KeysAt(ks: seq<seq<byte>>, i: nat)
    requires i < |ks|
    ensures Offset(ks, i) + 2 + |ks[i]| <= |KeyFields(ks)|
    ensures KeyFields(ks)[Offset(ks, i) + 2..Offset(ks, i) + 2 + |ks[i]|] == ks[i]
    decreases |ks|
  {
    hide KeyField, Offset;
    var n := |ks| - 1;
    var front := KeyFields(ks[..n]);
    assert KeyFields(ks) == front + KeyField(ks[n]);
    OffsetOfPrefix(ks, n, i);
    if i < n {
      KeysAt(ks[..n], i);
      Within(front, KeyField(ks[n]), Offset(ks, i) + 2, Offset(ks, i) + 2 + |ks[i]|);
    } else {
      KeyFieldsLength(ks[..n]);
      FieldAtEnd(front, ks[n]);
    }
  }

  lemma Within(a: seq<byte>, b: seq<byte>, from: nat, to: nat)
    requires from <= to <= |a|
    ensures (a + b)[from..to] == a[from..to]
  {
  }

  lemma FieldAtEnd(front: seq<byte>, k: seq<byte>)
    ensures (front + KeyField(k))[|front| + 2..|front| + 2 + |k|] == k
  {
    assert KeyField(k)[2..] == k;
  }

  lemma {:induction false} OffsetOfPrefix(ks: seq<seq<byte>>, n: nat, i: nat)
    requires i <= n <= |ks|
    ensures Offset(ks[..n], i) == Offset(ks, i)
  {
    if i > 0 {
      OffsetOfPrefix(ks, n, i - 1);
    }
  }

  /** What stands where in an encoding: opcode and result as numbers, keys and data as they are. */
  lemma PayloadsAt(m: Message)
    ensures |Encode(m)| >= 4 && BigEndian(Encode(m)[..2]) == m.opcode % 0x1_0000
    ensures var b := Encode(m)[4..];
      match m.content
      case Result(r) => |b| == 4 && BigEndian(b) == r % 0x1_0000_0000
      case Value(d) => |b| == 4 + |d| && b[4..] == d
      case KeyName(k) => |b| == 2 + |k| && b[2..] == k
      case EntryOf(k, d) => |b| == 6 + |k| + |d| && b[2..2 + |k|] == k && b[6 + |k|..] == d
      case KeyList(ks) =>
        && |b| == 4 + Offset(ks, |ks|)
        && forall i :: 0 <= i < |ks| ==>
             Offset(ks, i) + 2 + |ks[i]| <= |b| - 4
             && b[4..][Offset(ks, i) + 2..Offset(ks, i) + 2 + |ks[i]|] == ks[i]
  {
    hide BigEndian, U16, U32, KeyFields, Offset;
    FieldsAreBigEndian([], m.opcode);
    assert Encode(m)[..2] == U16(m.opcode);
    var b := Encode(m)[4..];
    match m.content
    case Result(r) =>
      assert b == U32(r);
      FieldsAreBigEndian([], r);
    case KeyList(ks) =>
      assert b[4..] == KeyFields(ks);
      KeyFieldsLength(ks);
      forall i | 0 <= i < |ks|
        ensures Offset(ks, i) + 2 + |ks[i]| <= |KeyFields(ks)|
        ensures KeyFields(ks)[Offset(ks, i) + 2..Offset(ks, i) + 2 + |ks[i]|] == ks[i]
      {
        KeysAt(ks, i);
      }
    case _ =>
  }

  // ---- Parsing ----

  /** Undefined: the source touches memory outside its blocks. Refused: it returns NULL. */
  datatype Field<+T> = Undefined | Refused | Got(value: T, used: nat)

  function ReadKey(b: seq<byte>): Field<seq<byte>> {
    if |b| < 2 then Undefined else
      var n := FromU16(b[..2]);
      if |b| < 2 + n then Undefined else Got(CString(b[2..2 + n]), 2 + n)
  }

  function ReadValue(b: seq<byte>): Field<seq<byte>> {
    if |b| < 4 then Undefined else
      var n := ToInt(FromU32(b[..4]));
      if n <= 0 then Refused
      else if |b| < 4 + n then Undefined
      else Got(b[4..4 + n], 4 + n)
  }

  function ReadKeys(b: seq<byte>, n: nat): Field<seq<seq<byte>>> {
    if n == 0 then Got([], 0) else
      match ReadKey(b)
      case Undefined => Undefined
      case Refused => Refused
      case Got(k, u) =>
        match ReadKeys(b[u..], n - 1)
        case Undefined => Undefined
        case Refused => Refused
        case Got(ks, w) => Got([k] + ks, u + w)
  }

  function ReadBody(ct: int, b: seq<byte>): Field<Content>
    requires KnownCType(ct)
  {
    if ct == CT_RESULT then
      if |b| < 4 then Undefined else Got(Result(ToInt(FromU32(b[..4]))), 4)
    else if ct == CT_KEY then
      match ReadKey(b)
      case Undefined => Undefined
      case Refused => Refused
      case Got(k, u) => Got(KeyName(k), u)
    else if ct == CT_VALUE then
      match ReadValue(b)
      case Undefined => Undefined
      case Refused => Refused
      case Got(d, u) => Got(Value(d), u)
    else if ct == CT_ENTRY then
      match ReadKey(b)
      case Undefined => Undefined
      case Refused => Refused
      case Got(k, u) =>
        match ReadValue(b[u..])
        case Undefined => Undefined
        case Refused => Refused
        case Got(d, w) => Got(EntryOf(k, d), u + w)
    else
      if |b| < 4 then Undefined else
        var n := ToInt(FromU32(b[..4]));
        if n < 0 then Undefined else
          match ReadKeys(b[4..], n)
          case Undefined => Undefined
          case Refused => Refused
          case Got(ks, u) => Got(KeyList(ks), 4 + u)
  }

  function Decode(b: seq<byte>): Field<Message> {
    if |b| < 4 then Undefined else
      var op := ToShort(FromU16(b[..2]));
      var ct := ToShort(FromU16(b[2..4]));
      if !Valid(op, ct) then Refused else
        match ReadBody(ct, b[4..])
        case Undefined => Undefined
        case Refused => Refused
        case Got(c, u) => Got(Message(op, c), 4 + u)
  }

  // ---- Fields ----

  lemma KeyFieldRoundTrip(k: seq<byte>, rest: seq<byte>)
    requires NulFree(k) && |k| <= KEY_MAX
    ensures ReadKey(KeyField(k) + rest) == Got(k, 2 + |k|)
  {
    var b := KeyField(k) + rest;
    assert b[..2] == U16(|k|) && b[2..2 + |k|] == k;
    U16RoundTrip(|k|);
  }

  lemma ValueFieldRoundTrip(d: seq<byte>, rest: seq<byte>)
    requires 0 < |d| <= INT_MAX
    ensures ReadValue(ValueField(d) + rest) == Got(d, 4 + |d|)
  {
    var b := ValueField(d) + rest;
    assert b[..4] == U32(|d|) && b[4..4 + |d|] == d;
    IntRoundTrip(|d|);
  }

  /** The key list read from the front is the list written at the back. */
  lemma {:induction false} KeyFieldsFront(ks: seq<seq<byte>>)
    requires ks != []
    ensures KeyFields(ks) == KeyField(ks[0]) + KeyFields(ks[1..])
  {
    var n := |ks| - 1;
    if n > 0 {
      KeyFieldsFront(ks[..n]);
      assert ks[..n][1..] == ks[1..][..n - 1] && ks[1..][n - 1] == ks[n];
    }
  }

  lemma {:induction false} KeyFieldsRoundTrip(ks: seq<seq<byte>>, rest: seq<byte>)
    requires forall i :: 0 <= i < |ks| ==> NulFree(ks[i]) && |ks[i]| <= KEY_MAX
    ensures ReadKeys(KeyFields(ks) + rest, |ks|) == Got(ks, |KeyFields(ks)|)
  {
    hide ReadKey, KeyField;
    if ks != [] {
      var tail := KeyFields(ks[1..]) + rest;
      KeyFieldsFront(ks);
      assert KeyFields(ks) + rest == KeyField(ks[0]) + tail;
      KeyFieldRoundTrip(ks[0], tail);
      assert (KeyField(ks[0]) + tail)[2 + |ks[0]|..] == tail;
      KeyFieldsRoundTrip(ks[1..], rest);
      assert [ks[0]] + ks[1..] == ks;
    }
  }

  lemma BodyRoundTrip(m: Message, rest: seq<byte>)
    requires Representable(m) && Encodable(m)
    ensures ReadBody(CType(m.content), Body(m.content) + rest) == Got(m.content, |Body(m.content)|)
  {
    hide ReadKey, ReadValue, ReadKeys, KeyFields, U16, U32, FromU16, FromU32;
    var b := Body(m.content) + rest;
    match m.content
    case Result(r) =>
      assert b[..4] == U32(r);
      IntRoundTrip(r);
    case Value(d) =>
      ValueFieldRoundTrip(d, rest);
    case KeyName(k) =>
      KeyFieldRoundTrip(k, rest);
    case KeyList(ks) =>
      assert b[..4] == U32(|ks|) && b[4..] == KeyFields(ks) + rest;
      IntRoundTrip(|ks|);
      KeyFieldsRoundTrip(ks, rest);
    case EntryOf(k, d) =>
      assert b == KeyField(k) + (ValueField(d) + rest);
      KeyFieldRoundTrip(k, ValueField(d) + rest);
      assert b[2 + |k|..] == ValueField(d) + rest;
      ValueFieldRoundTrip(d, rest);
  }

  // ---- Round trips of whole messages ----

  /** Decoding an encoding, whatever follows it, gives the message back and consumes exactly its bytes. */
  lemma RoundTrip(m: Message, rest: seq<byte>)
    requires Representable(m) && Encodable(m)
    ensures Decode(Encode(m) + rest) == Got(m, |Encode(m)|)
  {
    hide ReadBody, Body;
    var b := Encode(m) + rest;
    assert b[..2] == U16(m.opcode) && b[2..4] == U16(CType(m.content));
    assert b[4..] == Body(m.content) + rest;
    ShortRoundTrip(m.opcode);
    ShortRoundTrip(CType(m.content));
    BodyRoundTrip(m, rest);
  }

  lemma {:induction false} ReadKeysBounds(b: seq<byte>, n: nat)
    requires ReadKeys(b, n).Got?
    ensures ReadKeys(b, n).used <= |b| && |ReadKeys(b, n).value| == n
    ensures forall i :: 0 <= i < n ==> NulFree(ReadKeys(b, n).value[i]) && |ReadKeys(b, n).value[i]| <= KEY_MAX
  {
    if n > 0 {
      ReadKeysBounds(b[ReadKey(b).used..], n - 1);
    }
  }

  /** Every message the parser delivers can be represented and sent on, and was read inside the buffer. */
  lemma DecodedIsEncodable(b: seq<byte>)
    requires Decode(b).Got?
    ensures Representable(Decode(b).value) && Encodable(Decode(b).value) && Decode(b).used <= |b|
  {
    var ct := ToShort(FromU16(b[2..4]));
    var body := b[4..];
    if ct == CT_KEYS {
      ReadKeysBounds(body[4..], ToInt(FromU32(body[..4])));
    }
  }

  /** The round trip holds exactly for the encodable messages; a key above 65535 bytes breaks it in every type. */
  lemma RoundTripIff(m: Message)
    requires Representable(m)
    ensures Decode(Encode(m)) == Got(m, |Encode(m)|) <==> Encodable(m)
  {
    hide Decode, Encode;
    if Encodable(m) {
      RoundTrip(m, []);
      assert Encode(m) + [] == Encode(m);
    } else if Decode(Encode(m)).Got? {
      DecodedIsEncodable(Encode(m));
    }
  }

  /** No encoding is a proper prefix of another one, and no two messages share an encoding. */
  lemma PrefixFree(m1: Message, m2: Message)
    requires Representable(m1) && Encodable(m1) && Representable(m2) && Encodable(m2)
    requires Encode(m1) <= Encode(m2)
    ensures m1 == m2
  {
    hide Decode, Encode;
    RoundTrip(m1, Encode(m2)[|Encode(m1)|..]);
    RoundTrip(m2, []);
    assert Encode(m1) + Encode(m2)[|Encode(m1)|..] == Encode(m2) == Encode(m2) + [];
  }

  // ---- The documented layout, by field lengths only ----

  predicate IsKeyField(b: seq<byte>) {
    |b| >= 2 && |b| == 2 + FromU16(b[..2]) && NulFree(b[2..])
  }

  predicate IsValueField(b: seq<byte>) {
    |b| >= 4 && 0 < FromU32(b[..4]) <= INT_MAX && |b| == 4 + FromU32(b[..4])
  }

  predicate IsKeyFields(b: seq<byte>, n: nat) {
    if n == 0 then b == []
    else (
      && |b| >= 2 && 2 + FromU16(b[..2]) <= |b|
      && IsKeyField(b[..2 + FromU16(b[..2])])
      && IsKeyFields(b[2 + FromU16(b[..2])..], n - 1))
  }

  predicate IsListBody(b: seq<byte>) {
    |b| >= 4 && FromU32(b[..4]) <= INT_MAX && IsKeyFields(b[4..], FromU32(b[..4]))
  }

  predicate IsEntryBody(b: seq<byte>) {
    && |b| >= 2 && 2 + FromU16(b[..2]) <= |b|
    && IsKeyField(b[..2 + FromU16(b[..2])])
    && IsValueField(b[2 + FromU16(b[..2])..])
  }

  /** The numbers are those that the format gives to the content types. */
  predicate IsBody(ct: int, b: seq<byte>) {
    if ct == 10 then |b| == 4
    else if ct == 20 then IsValueField(b)
    else if ct == 30 then IsKeyField(b)
    else if ct == 40 then IsListBody(b)
    else if ct == 50 then IsEntryBody(b)
    else false
  }

  predicate WellLaidOut(b: seq<byte>) {
    |b| >= 4 && IsBody(FromU16(b[2..4]), b[4..])
  }

  /** A data size that is not positive stands at position `at`. */
  predicate BadSizeAt(b: seq<byte>, at: nat) {
    at + 4 <= |b| && var size := BigEndian(b[at..at + 4]); size == 0 || size > INT_MAX
  }

  /** The parser returns NULL for exactly these buffers: an unknown content type, or a data size that is not positive,
    * of a value or behind the key of an entry. */
  lemma RefusedIff(b: seq<byte>)
    ensures Decode(b) == Refused <==>
      && |b| >= 4
      && var ct := BigEndian(b[2..4]);
         || ct !in {10, 20, 30, 40, 50}
         || (ct == 20 && BadSizeAt(b, 4))
         || (ct == 50 && |b| >= 6 && BadSizeAt(b, 6 + BigEndian(b[4..6])))
  {
    hide FromU16, FromU32, BigEndian, ReadKeys;
    if |b| >= 4 {
      var rest := b[4..];
      FieldsAreBigEndian(b[2..4], 0);
      if |rest| >= 4 {
        assert b[4..8] == rest[..4];
        FieldsAreBigEndian(rest[..4], 0);
      }
      KeysNeverRefused(rest[if |rest| >= 4 then 4 else 0..], if |rest| >= 4 then ToInt(FromU32(rest[..4])) else 0);
      if |rest| >= 2 {
        assert b[4..6] == rest[..2];
        FieldsAreBigEndian(rest[..2], 0);
        var u := 2 + FromU16(rest[..2]);
        if u + 4 <= |rest| {
          assert b[4 + u..8 + u] == rest[u..][..4];
          FieldsAreBigEndian(rest[u..][..4], 0);
        }
      }
    }
  }

  lemma {:induction false} KeysNeverRefused(b: seq<byte>, n: int)
    ensures n >= 0 ==> ReadKeys(b, n) != Refused
    decreases n
  {
    hide ReadKey;
    KeyNeverRefused(b);
    if n > 0 && ReadKey(b).Got? && ReadKey(b).used <= |b| {
      KeysNeverRefused(b[ReadKey(b).used..], n - 1);
    }
  }

  lemma KeyNeverRefused(b: seq<byte>)
    ensures ReadKey(b) != Refused && (ReadKey(b).Got? ==> ReadKey(b).used <= |b|)
  {
  }

  lemma KeyFieldReverse(b: seq<byte>)
    requires |b| >= 2 && 2 + FromU16(b[..2]) <= |b| && IsKeyField(b[..2 + FromU16(b[..2])])
    ensures ReadKey(b) == Got(b[2..2 + FromU16(b[..2])], 2 + FromU16(b[..2]))
    ensures KeyField(ReadKey(b).value) == b[..ReadKey(b).used]
  {
    var n := FromU16(b[..2]);
    assert b[..2 + n][2..] == b[2..2 + n];
    ShortBytesRoundTrip(b[..2]);
    assert b[..2] + b[2..2 + n] == b[..2 + n];
  }

  lemma ValueFieldReverse(b: seq<byte>)
    requires IsValueField(b)
    ensures ReadValue(b) == Got(b[4..], |b|) && ValueField(b[4..]) == b
  {
    IntBytesRoundTrip(b[..4]);
    assert b[..4] + b[4..] == b;
    assert b[4..4 + FromU32(b[..4])] == b[4..];
  }

  lemma {:induction false} KeyFieldsReverse(b: seq<byte>, n: nat)
    requires IsKeyFields(b, n)
    ensures ReadKeys(b, n).Got? && ReadKeys(b, n).used == |b| && |ReadKeys(b, n).value| == n
    ensures KeyFields(ReadKeys(b, n).value) == b
  {
    hide IsKeyField, ReadKey, KeyField, FromU16;
    if n > 0 {
      var u := 2 + FromU16(b[..2]);
      KeyFieldReverse(b);
      KeyFieldsReverse(b[u..], n - 1);
      var ks := ReadKeys(b, n).value;
      KeyFieldsFront(ks);
      assert ks[1..] == ReadKeys(b[u..], n - 1).value;
      assert b == b[..u] + b[u..];
    }
  }

  lemma BodyReverse(ct: int, b: seq<byte>)
    requires KnownCType(ct) && IsBody(ct, b)
    ensures ReadBody(ct, b).Got? && ReadBody(ct, b).used == |b|
    ensures CType(ReadBody(ct, b).value) == ct && Body(ReadBody(ct, b).value) == b
  {
    if ct == CT_RESULT {
      assert b[..4] == b;
      IntBytesRoundTrip(b);
    } else if ct == CT_VALUE {
      ValueFieldReverse(b);
    } else if ct == CT_KEY {
      assert b[..2 + FromU16(b[..2])] == b;
      KeyFieldReverse(b);
    } else if ct == CT_KEYS {
      IntBytesRoundTrip(b[..4]);
      KeyFieldsReverse(b[4..], FromU32(b[..4]));
      assert b[..4] + b[4..] == b;
    } else {
      var u := 2 + FromU16(b[..2]);
      KeyFieldReverse(b);
      ValueFieldReverse(b[u..]);
      assert b[..u] + b[u..] == b;
    }
  }

  /** Any buffer with the documented layout is read to its last byte and written back byte for byte. */
  lemma ReverseRoundTrip(b: seq<byte>)
    requires WellLaidOut(b)
    ensures Decode(b).Got? && Decode(b).used == |b|
    ensures Encode(Decode(b).value) == b
  {
    hide ReadBody, Body, IsBody;
    var ct := FromU16(b[2..4]);
    BodyKnown(ct, b[4..]);
    BodyReverse(ct, b[4..]);
    ShortBytesRoundTrip(b[..2]);
    ShortBytesRoundTrip(b[2..4]);
    assert b[..2] + b[2..4] + b[4..] == b;
  }

  lemma BodyKnown(ct: int, b: seq<byte>)
    requires IsBody(ct, b)
    ensures KnownCType(ct)
  {
  }

  lemma {:induction false} KeyFieldsLaidOut(ks: seq<seq<byte>>)
    requires forall i :: 0 <= i < |ks| ==> NulFree(ks[i]) && |ks[i]| <= KEY_MAX
    ensures IsKeyFields(KeyFields(ks), |ks|)
  {
    if ks != [] {
      KeyFieldsFront(ks);
      KeyFieldsLaidOut(ks[1..]);
      var b := KeyFields(ks);
      KeyFieldLaidOut(ks[0], KeyFields(ks[1..]));
      assert b[2 + |ks[0]|..] == KeyFields(ks[1..]);
    }
  }

  lemma KeyFieldLaidOut(k: seq<byte>, rest: seq<byte>)
    requires NulFree(k) && |k| <= KEY_MAX
    ensures FromU16((KeyField(k) + rest)[..2]) == |k| && IsKeyField((KeyField(k) + rest)[..2 + |k|])
  {
    var b := KeyField(k) + rest;
    assert b[..2] == U16(|k|) && b[..2 + |k|] == KeyField(k) && KeyField(k)[2..] == k && KeyField(k)[..2] == U16(|k|);
    U16RoundTrip(|k|);
  }

  lemma ValueFieldLaidOut(d: seq<byte>)
    requires 0 < |d| <= INT_MAX
    ensures IsValueField(ValueField(d))
  {
    assert ValueField(d)[..4] == U32(|d|);
    U32RoundTrip(|d|);
  }

  lemma BodyLaidOut(m: Message)
    requires Representable(m) && Encodable(m)
    ensures IsBody(CType(m.content), Body(m.content))
  {
    hide IsKeyField, IsValueField, IsListBody, IsEntryBody, FromU16, FromU32;
    match m.content
    case Result(r) =>
    case Value(d) => ValueFieldLaidOut(d);
    case KeyName(k) =>
      KeyFieldLaidOut(k, []);
      assert KeyField(k) + [] == KeyField(k) && KeyField(k)[..2 + |k|] == KeyField(k);
    case KeyList(ks) =>
      ListLaidOut(ks);
    case EntryOf(k, d) =>
      EntryLaidOut(k, d);
  }

  lemma ListLaidOut(ks: seq<seq<byte>>)
    requires |ks| <= INT_MAX && forall i :: 0 <= i < |ks| ==> NulFree(ks[i]) && |ks[i]| <= KEY_MAX
    ensures IsListBody(U32(|ks|) + KeyFields(ks))
  {
    hide IsKeyFields, FromU32, KeyFields, U32;
    var b := U32(|ks|) + KeyFields(ks);
    U32RoundTrip(|ks|);
    assert b[..4] == U32(|ks|) && b[4..] == KeyFields(ks);
    KeyFieldsLaidOut(ks);
  }

  lemma EntryLaidOut(k: seq<byte>, d: seq<byte>)
    requires NulFree(k) && |k| <= KEY_MAX && 0 < |d| <= INT_MAX
    ensures IsEntryBody(KeyField(k) + ValueField(d))
  {
    hide IsKeyField, IsValueField, FromU16, FromU32;
    var b := KeyField(k) + ValueField(d);
    KeyFieldLaidOut(k, ValueField(d));
    assert b[2 + |k|..] == ValueField(d);
    ValueFieldLaidOut(d);
  }

  /** The encodings of the encodable messages are exactly the buffers with the documented layout. */
  lemma LayoutIff(b: seq<byte>)
    ensures WellLaidOut(b) <==> exists m :: Representable(m) && Encodable(m) && Encode(m) == b
  {
    hide IsBody, Body, ReadBody, Representable, Encodable, Decode;
    if WellLaidOut(b) {
      ReverseRoundTrip(b);
      DecodedIsEncodable(b);
    }
    if m :| Representable(m) && Encodable(m) && Encode(m) == b {
      BodyLaidOut(m);
      U16RoundTrip(CType(m.content));
      assert b[2..4] == U16(CType(m.content)) && b[4..] == Body(m.content);
    }
  }
}
