/** `message_to_buffer` and `buffer_to_message`: cursors moving over a byte array. */
module MessageBuffers {
  import opened Bytes
  import opened Options
  import opened Messages

  const SHORT_SIZE: nat := 2
  const INT_SIZE: nat := 4

  /** `memcpy(ptr, source, n)` behind the bytes already written; the new cursor. */
  method CopyIn(buf: array<byte>, ptr: nat, source: seq<byte>) returns (next: nat)
    requires ptr + |source| <= buf.Length
    modifies buf
    ensures next == ptr + |source|
    ensures buf[..next] == old(buf[..ptr]) + source
  {
    forall i | 0 <= i < |source| {
      buf[ptr + i] := source[i];
    }
    next := ptr + |source|;
  }

  /** A 16-bit length and the characters of a key. */
  method WriteKey(buf: array<byte>, start: nat, k: seq<byte>) returns (ptr: nat)
    requires start + |KeyField(k)| <= buf.Length
    modifies buf
    ensures ptr == start + |KeyField(k)|
    ensures buf[..ptr] == old(buf[..start]) + KeyField(k)
  {
    hide U16;
    ghost var before := buf[..start];
    ptr := CopyIn(buf, start, U16(|k|));
    ptr := CopyIn(buf, ptr, k);
    assert before + U16(|k|) + k == before + KeyField(k);
  }

  /** A 32-bit size and the bytes of a data block. */
  method WriteValue(buf: array<byte>, start: nat, d: seq<byte>) returns (ptr: nat)
    requires start + |ValueField(d)| <= buf.Length
    modifies buf
    ensures ptr == start + |ValueField(d)|
    ensures buf[..ptr] == old(buf[..start]) + ValueField(d)
  {
    hide U32;
    ghost var before := buf[..start];
    ptr := CopyIn(buf, start, U32(|d|));
    ptr := CopyIn(buf, ptr, d);
    assert before + U32(|d|) + d == before + ValueField(d);
  }

  /** The first pass: the number of bytes each content type will take, and the number of keys. */
  method BufferSize(m: Message) returns (size: int, nkeys: int)
    ensures size == |Encode(m)|
    ensures m.content.KeyList? ==> nkeys == |m.content.keys|
  {
    nkeys := 0;
    match m.content
    case Result(_) =>
      size := SHORT_SIZE * 2 + INT_SIZE;
    case Value(d) =>
      size := SHORT_SIZE * 2 + INT_SIZE + |d|;
    case KeyList(keys) =>
      size := 0;
      var i := 0;
      while i < |keys|
        invariant 0 <= i <= |keys|
        invariant size == |KeyFields(keys[..i])| - SHORT_SIZE * i
      {
        assert keys[..i + 1][..i] == keys[..i];
        size := size + |keys[i]|;
        i := i + 1;
      }
      assert keys[..i] == keys;
      nkeys := i;
      size := size + SHORT_SIZE * 2 + SHORT_SIZE * nkeys + INT_SIZE;
    case KeyName(k) =>
      size := SHORT_SIZE * 3 + |k|;
    case EntryOf(k, d) =>
      size := SHORT_SIZE * 3 + |k| + INT_SIZE + |d|;
  }

  /** The loop that writes the keys one behind the other. */
  method WriteKeys(buf: array<byte>, start: nat, keys: seq<seq<byte>>) returns (ptr: nat)
    requires start + |KeyFields(keys)| <= buf.Length
    modifies buf
    ensures ptr == start + |KeyFields(keys)|
    ensures buf[..ptr] == old(buf[..start]) + KeyFields(keys)
  {
    ptr := start;
    var i := 0;
    assert keys[..0] == [];
    while i < |keys|
      invariant 0 <= i <= |keys|
      invariant ptr == start + |KeyFields(keys[..i])|
      invariant ptr <= buf.Length && buf[..ptr] == old(buf[..start]) + KeyFields(keys[..i])
    {
      hide KeyField;
      assert keys[..i + 1][..i] == keys[..i];
      KeyFieldsPrefix(keys, i + 1);
      ptr := WriteKey(buf, ptr, keys[i]);
      i := i + 1;
    }
    assert keys[..i] == keys;
  }

  lemma {:induction false} KeyFieldsPrefix(keys: seq<seq<byte>>, n: nat)
    requires n <= |keys|
    ensures |KeyFields(keys[..n])| <= |KeyFields(keys)|
    decreases |keys|
  {
    if n < |keys| {
      var front := keys[..|keys| - 1];
      KeyFieldsPrefix(front, n);
      assert front[..n] == keys[..n];
    } else {
      assert keys[..n] == keys;
    }
  }

  /** `message_to_buffer`: the second pass fills exactly the bytes that the first pass counted. */
  method MessageToBuffer(m: Message) returns (size: int, buf: array<byte>)
    ensures fresh(buf) && size == buf.Length && buf[..] == Encode(m)
  {
    hide U16, U32, KeyField, ValueField, KeyFields;
    var nkeys;
    size, nkeys := BufferSize(m);
    buf := new byte[size];
    var ptr := CopyIn(buf, 0, U16(m.opcode));
    ptr := CopyIn(buf, ptr, U16(CType(m.content)));
    ghost var header := buf[..ptr];
    assert header == U16(m.opcode) + U16(CType(m.content));
    match m.content
    case EntryOf(k, d) =>
      ptr := WriteKey(buf, ptr, k);
      ptr := WriteValue(buf, ptr, d);
      assert header + KeyField(k) + ValueField(d) == header + (KeyField(k) + ValueField(d));
    case KeyName(k) =>
      ptr := WriteKey(buf, ptr, k);
    case KeyList(keys) =>
      ptr := CopyIn(buf, ptr, U32(nkeys));
      ptr := WriteKeys(buf, ptr, keys);
      assert header + U32(nkeys) + KeyFields(keys) == header + (U32(nkeys) + KeyFields(keys));
    case Value(d) =>
      ptr := WriteValue(buf, ptr, d);
    case Result(r) =>
      ptr := CopyIn(buf, ptr, U32(r));
  }

  /** The key loop of the parser, from the cursor behind the count. */
  method ParseKeys(buf: array<byte>, start: nat, nkeys: nat) returns (keys: seq<seq<byte>>)
    requires start <= buf.Length && ReadKeys(buf[start..], nkeys).Got?
    ensures keys == ReadKeys(buf[start..], nkeys).value
  {
    hide ReadKey;
    keys := [];
    var ptr, i := start, 0;
    while i < nkeys
      invariant 0 <= i <= nkeys && 0 <= ptr <= buf.Length
      invariant ReadKeys(buf[ptr..], nkeys - i).Got?
      invariant keys + ReadKeys(buf[ptr..], nkeys - i).value == ReadKeys(buf[start..], nkeys).value
    {
      var key;
      key, ptr := ParseKey(buf, ptr);
      keys := keys + [key];
      i := i + 1;
    }
  }

  /** Two bytes of length, the characters, and a terminator of its own. */
  method ParseKey(buf: array<byte>, start: nat) returns (key: seq<byte>, ptr: nat)
    requires start <= buf.Length && ReadKey(buf[start..]).Got?
    ensures start <= ptr <= buf.Length
    ensures ReadKey(buf[start..]) == Got(key, ptr - start)
    ensures buf[start..][ptr - start..] == buf[ptr..]
  {
    ptr := start;
    ghost var rest := buf[start..];
    assert rest[..2] == buf[ptr..ptr + 2];
    var sizeKey := FromU16(buf[ptr..ptr + SHORT_SIZE]);
    ptr := ptr + SHORT_SIZE;
    assert rest[2..2 + sizeKey] == buf[ptr..ptr + sizeKey];
    key := CString(buf[ptr..ptr + sizeKey]);
    ptr := ptr + sizeKey;
  }

  /** Four bytes of size and the data; a size that is not positive is refused. */
  method ParseValue(buf: array<byte>, start: nat) returns (data: Option<seq<byte>>)
    requires start <= buf.Length && !ReadValue(buf[start..]).Undefined?
    ensures data == if ReadValue(buf[start..]).Got? then Some(ReadValue(buf[start..]).value) else None
  {
    var ptr := start;
    ghost var rest := buf[start..];
    assert rest[..4] == buf[ptr..ptr + 4];
    var dataSize := ToInt(FromU32(buf[ptr..ptr + INT_SIZE]));
    ptr := ptr + INT_SIZE;
    if dataSize <= 0 {
      return None;
    }
    assert rest[4..4 + dataSize] == buf[ptr..ptr + dataSize];
    data := Some(buf[ptr..ptr + dataSize]);
  }

  /** `buffer_to_message`, on any buffer it can read without leaving it. */
  method BufferToMessage(buf: array?<byte>, msgSize: int) returns (r: Option<Message>)
    requires buf != null && msgSize >= 0 ==> !Decode(buf[..]).Undefined?
    ensures buf == null || msgSize < 0 ==> r == None
    ensures buf != null && msgSize >= 0 ==>
      r == if Decode(buf[..]).Got? then Some(Decode(buf[..]).value) else None
  {
    if buf == null || msgSize < 0 {
      return None;
    }
    var ptr := 0;
    assert buf[..][..2] == buf[0..2] && buf[..][2..4] == buf[2..4] && buf[..][4..] == buf[4..];
    var opcode := ToShort(FromU16(buf[ptr..ptr + SHORT_SIZE]));
    ptr := ptr + SHORT_SIZE;
    var ctype := ToShort(FromU16(buf[ptr..ptr + SHORT_SIZE]));
    ptr := ptr + SHORT_SIZE;
    if !Valid(opcode, ctype) {
      return None;
    }
    var content := ParseContent(buf, ptr, ctype);
    r := if content.Some? then Some(Message(opcode, content.value)) else None;
  }

  /** The switch over the content type. */
  method ParseContent(buf: array<byte>, start: nat, ctype: int) returns (c: Option<Content>)
    requires start <= buf.Length && KnownCType(ctype) && !ReadBody(ctype, buf[start..]).Undefined?
    ensures c == if ReadBody(ctype, buf[start..]).Got? then Some(ReadBody(ctype, buf[start..]).value) else None
  {
    hide ReadKey, ReadValue, ReadKeys, FromU32;
    var ptr := start;
    if ctype == CT_RESULT {
      assert buf[start..][..4] == buf[ptr..ptr + 4];
      c := Some(Result(ToInt(FromU32(buf[ptr..ptr + INT_SIZE]))));
    } else if ctype == CT_KEY {
      KeyNeverRefused(buf[start..]);
      var key, _ := ParseKey(buf, ptr);
      c := Some(KeyName(key));
    } else if ctype == CT_VALUE {
      var data := ParseValue(buf, ptr);
      c := if data.Some? then Some(Value(data.value)) else None;
    } else if ctype == CT_ENTRY {
      KeyNeverRefused(buf[start..]);
      var key;
      key, ptr := ParseKey(buf, ptr);
      var data := ParseValue(buf, ptr);
      c := if data.Some? then Some(EntryOf(key, data.value)) else None;
    } else {
      assert buf[start..][..4] == buf[ptr..ptr + 4] && buf[start..][4..] == buf[ptr + 4..];
      var nkeys := ToInt(FromU32(buf[ptr..ptr + INT_SIZE]));
      ptr := ptr + INT_SIZE;
      KeysNeverRefused(buf[ptr..], nkeys);
      var keys := ParseKeys(buf, ptr, nkeys);
      c := Some(KeyList(keys));
    }
  }

  lemma KeyNeverRefused(b: seq<byte>)
    ensures !ReadKey(b).Refused? && (ReadKey(b).Got? ==> ReadKey(b).used <= |b|)
  {
  }

  lemma {:induction false} KeysNeverRefused(b: seq<byte>, n: nat)
    ensures !ReadKeys(b, n).Refused?
  {
    if n > 0 && ReadKey(b).Got? {
      KeysNeverRefused(b[ReadKey(b).used..], n - 1);
    }
  }
}
