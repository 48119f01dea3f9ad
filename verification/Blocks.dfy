/** Values laid out on heap blocks and read back from them. */
module Blocks {
  import opened Bytes
  import opened Entries
  import opened Tables

  /** The characters of a message on a block of their own. */
  method BlockOf(s: seq<byte>) returns (a: array<byte>)
    ensures fresh(a) && a[..] == s
  {
    a := new byte[|s|];
    forall i | 0 <= i < |s| {
      a[i] := s[i];
    }
  }

  method DataOf(s: seq<byte>) returns (d: Data)
    requires s != []
    ensures fresh(d.Blocks()) && d.Valid() && d.datasize > 0 && d.Payload() == s
  {
    var block := BlockOf(s);
    d := DataCreate2(|s|, block);
  }

  /** Walk a NULL-terminated key array. */
  method NamesOf(keys: array<array?<byte>>, ghost names: seq<seq<byte>>) returns (r: seq<seq<byte>>)
    requires keys.Length == |names| + 1 && Listed(keys, names) && keys[|names|] == null
    ensures r == names
  {
    r := [];
    var i := 0;
    while keys[i] != null
      invariant 0 <= i <= |names| && r == names[..i]
      decreases |names| - i
    {
      r := r + [Str(keys[i])];
      i := i + 1;
    }
    assert names[..i] == names;
  }

  lemma PayloadIs(d: Data)
    requires d.Valid() && d.datasize > 0
    ensures d.Payload() == d.data[..d.datasize]
  {
  }
}
