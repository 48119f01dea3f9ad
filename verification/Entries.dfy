/** Data blocks and entries on the heap; every constructor copies what it is given. */
module Entries {
  import opened Bytes
  import opened Chains

  class Data {
    var datasize: int
    var data: array<byte>

    constructor (size: nat)
      ensures datasize == size == data.Length && fresh(data)
    {
      datasize := size;
      data := new byte[size];
    }

    /** A caller's own structure around a block it owns. */
    constructor Around(block: array<byte>)
      ensures data == block && datasize == block.Length
    {
      datasize := block.Length;
      data := block;
    }

    /** A caller may own a larger block than it declares. */
    ghost predicate Valid() reads this {
      datasize <= data.Length
    }

    function Payload(): seq<byte>
      requires Valid()
      reads this, data
    {
      if datasize <= 0 then [] else data[..datasize]
    }

    ghost function Blocks(): set<object> reads this {
      {this, data}
    }
  }

  /** `data_create`: refuses every size that is not positive. */
  method DataCreate(size: int) returns (d: Data?)
    ensures d == null <==> size <= 0
    ensures d != null ==> fresh(d.Blocks()) && d.datasize == size == d.data.Length
  {
    if size <= 0 {
      return null;
    }
    d := new Data(size);
  }

  /** `data_create2`: a block of its own holding the first `size` bytes of `source`. */
  method DataCreate2(size: int, source: array?<byte>) returns (d: Data?)
    requires source != null ==> size <= source.Length
    ensures d == null <==> source == null || size <= 0
    ensures d != null ==> fresh(d.Blocks()) && d.Valid() && d.datasize == size == d.data.Length
    ensures d != null ==> d.Payload() == source[..size]
  {
    if source == null || size <= 0 {
      return null;
    }
    d := DataCreate(size);
    forall i | 0 <= i < size {
      d.data[i] := source[i];
    }
  }

  /** `data_dup`: an independent copy, or NULL when the block is absent or empty. */
  method DataDup(source: Data?) returns (d: Data?)
    requires source != null ==> source.Valid()
    ensures d == null <==> source == null || source.datasize <= 0
    ensures d != null ==> fresh(d.Blocks()) && d.Valid() && d.datasize == source.datasize == d.data.Length
    ensures d != null ==> d.Payload() == source.Payload()
  {
    if source == null {
      return null;
    }
    d := DataCreate2(source.datasize, source.data);
  }

  /** `strdup`: a fresh block with the characters before the terminator. */
  method StrDup(s: array<byte>) returns (r: array<byte>)
    ensures fresh(r) && r[..] == Str(s) == Str(r)
  {
    var length := StrLen(s);
    r := new byte[length];
    forall i | 0 <= i < length {
      r[i] := s[i];
    }
    assert r[..] == s[..length];
  }

  class Entry {
    var key: array<byte>
    var value: Data

    constructor (key: array<byte>, value: Data)
      ensures this.key == key && this.value == value
    {
      this.key := key;
      this.value := value;
    }

    ghost function Blocks(): set<object> reads this, value {
      {this, key, value, value.data}
    }

    ghost predicate Valid() reads this, value {
      value.Valid() && value.datasize > 0
    }

    ghost function Contents(): Item
      requires Valid()
      reads this, key, value, value.data
    {
      Item(Str(key), value.Payload())
    }

    /** The entry stands for the item `it`. */
    ghost predicate Is(it: Item)
      reads this, key, value, value.data
    {
      Valid() && Contents() == it
    }

    /** Every block of the entry belongs to `blocks`. */
    ghost predicate In(blocks: set<object>)
      reads this, value
    {
      this in blocks && key in blocks && value in blocks && value.data in blocks
    }
  }

  /** `entry_create`: an entry none of whose four blocks is shared with the caller. */
  method EntryCreate(key: array?<byte>, value: Data?) returns (e: Entry?)
    requires value != null ==> value.Valid() && value.datasize > 0
    ensures e == null <==> key == null || value == null
    ensures e != null ==> fresh(e.Blocks()) && e.Valid()
    ensures e != null ==> e.Contents() == Item(Str(key), value.Payload())
  {
    if key == null || value == null {
      return null;
    }
    var k := StrDup(key);
    var v := DataDup(value);
    e := new Entry(k, v);
  }

  /** `entry_dup`. */
  method EntryDup(entry: Entry?) returns (e: Entry?)
    requires entry != null ==> entry.Valid()
    ensures e == null <==> entry == null
    ensures e != null ==> fresh(e.Blocks()) && e.Valid() && e.Contents() == entry.Contents()
  {
    if entry == null {
      return null;
    }
    e := EntryCreate(entry.key, entry.value);
  }
}
