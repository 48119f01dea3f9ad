/** The bucket index of a key: a sum of at most six signed characters, reduced modulo the table size. */
module Hashing {
  import opened Bytes

  const EDGE: nat := 3
  const SHORT_KEY: nat := 5

  /** A `char` is signed on the platforms the program is written for. */
  function SignedChar(b: byte): (r: int)
    ensures -128 <= r <= 127
    ensures r >= 0 <==> b < 128
  {
    if b < 128 then b else b as int - 256
  }

  function CharSum(s: seq<byte>): int {
    if s == [] then 0 else CharSum(s[..|s| - 1]) + SignedChar(s[|s| - 1])
  }

  /** The characters that take part in the hash: all of a short key, the two ends of a longer one. */
  function Sampled(key: seq<byte>): (r: seq<byte>)
    ensures |r| <= 6
  {
    if |key| <= SHORT_KEY then key else key[..EDGE] + key[|key| - EDGE..]
  }

  function HashSum(key: seq<byte>): int {
    CharSum(Sampled(key))
  }

  /** The remainder of C, whose sign is that of the dividend. */
  function TruncMod(a: int, l: int): int
    requires l > 0
  {
    if a >= 0 then a % l else -((-a) % l)
  }

  function KeyHash(key: seq<byte>, l: int): int {
    if l <= 0 then -1 else TruncMod(HashSum(key), l)
  }

  /** The key can be placed in a table of any size; every key of 7-bit characters can. */
  predicate Hashable(key: seq<byte>) {
    HashSum(key) >= 0
  }

  predicate Ascii(key: seq<byte>) {
    forall i :: 0 <= i < |key| ==> 1 <= key[i] <= 127
  }

  lemma {:induction false} CharSumBounds(s: seq<byte>)
    ensures -128 * |s| <= CharSum(s) <= 127 * |s|
    ensures (forall i :: 0 <= i < |s| ==> s[i] <= 127) ==> CharSum(s) >= 0
  {
    if s != [] {
      CharSumBounds(s[..|s| - 1]);
    }
  }

  /** Before the reduction the sum never leaves [-768, 762], so the `int` accumulator cannot overflow. */
  lemma HashSumBounds(key: seq<byte>)
    ensures -768 <= HashSum(key) <= 762
    ensures Ascii(key) ==> Hashable(key)
  {
    CharSumBounds(Sampled(key));
  }

  /** Exactly when `key_hash` returns a bucket of a table of size `l`. */
  lemma InRangeIff(key: seq<byte>, l: int)
    requires l > 0
    ensures 0 <= KeyHash(key, l) < l <==> HashSum(key) >= 0 || HashSum(key) % l == 0
  {
    var s := HashSum(key);
    if s < 0 {
      var m := -s;
      assert m == l * (m / l) + m % l;
      if m % l == 0 {
        assert s == l * (-(m / l));
        MultipleMod(l, -(m / l));
      } else if s % l == 0 {
        assert m == l * (-(s / l));
        MultipleMod(l, -(s / l));
      }
    }
  }

  lemma MultipleMod(l: int, q: int)
    requires l > 0
    ensures (l * q) % l == 0
  {
    var r := (l * q) % l;
    var d := (l * q) / l;
    assert l * q == l * d + r;
    assert r == l * (q - d);
    if q - d >= 1 {
      ProductAtLeast(l, q - d);
    } else if q - d <= -1 {
      ProductAtLeast(l, d - q);
    }
  }

  lemma ProductAtLeast(l: int, k: int)
    requires l > 0 && k >= 1
    ensures l * k >= l
  {
    assert l * k == l + l * (k - 1);
    assert l * (k - 1) >= 0;
  }

  /** `Hashable` is the exact condition for a key to be safe whatever the size of the table. */
  lemma HashableIff(key: seq<byte>)
    ensures Hashable(key) <==> forall l: int :: l > 0 ==> 0 <= KeyHash(key, l) < l
  {
    if !Hashable(key) {
      var l := 1 - HashSum(key);
      assert KeyHash(key, l) == HashSum(key);
    }
  }

  /** No hashable key reaches bucket 763 or above. */
  lemma IndexBound(key: seq<byte>, l: int)
    requires l > 0 && Hashable(key)
    ensures 0 <= KeyHash(key, l) < l && KeyHash(key, l) <= 762
  {
    hide HashSum;
    HashSumBounds(key);
    ModAtMost(HashSum(key), l);
  }

  lemma ModAtMost(s: int, l: int)
    requires s >= 0 && l > 0
    ensures 0 <= s % l <= s && s % l < l
  {
    if s >= l {
      assert s % l < l;
    }
  }

  lemma CharSumConcat(a: seq<byte>, b: seq<byte>)
    ensures CharSum(a + b) == CharSum(a) + CharSum(b)
    decreases |b|
  {
    if b == [] {
      assert a + b == a;
    } else {
      var c := b[..|b| - 1];
      CharSumConcat(a, c);
      assert (a + b)[..|a + b| - 1] == a + c;
    }
  }

  // ---- Which characters count, and for how much ----

  /** One character counts with its signed value, up to five characters all count. */
  lemma ShortKeysSum(a: seq<byte>, c: seq<byte>, b: byte)
    ensures HashSum([]) == 0 && HashSum([b]) == if b < 128 then b as int else b as int - 256
    ensures |a| + |c| <= 5 ==> HashSum(a + c) == HashSum(a) + HashSum(c)
  {
    assert CharSum([b]) == CharSum([b][..0]) + SignedChar(b);
    CharSumConcat(a, c);
  }

  /** Of six characters and more the first three and the last three count, whatever lies between. */
  lemma LongKeysSum(a: seq<byte>, m: seq<byte>, c: seq<byte>)
    requires |a| == 3 && |c| == 3
    ensures HashSum(a + m + c) == HashSum(a) + HashSum(c)
  {
    var key := a + m + c;
    assert key[..3] == a && key[|key| - 3..] == c;
    CharSumConcat(a, c);
  }

  /** The remainder of C: it differs from the sum by a multiple of the size, is smaller than the size, and has the sign
    * of the sum. */
  lemma HashIsRemainder(key: seq<byte>, l: int)
    ensures l <= 0 ==> KeyHash(key, l) == -1
    ensures l > 0 ==> exists q :: HashSum(key) == l * q + KeyHash(key, l)
    ensures l > 0 ==> -l < KeyHash(key, l) < l
    ensures l > 0 ==> if HashSum(key) >= 0 then KeyHash(key, l) >= 0 else KeyHash(key, l) <= 0
  {
    hide HashSum;
    if l > 0 {
      var s := HashSum(key);
      if s >= 0 {
        assert s == l * (s / l) + KeyHash(key, l);
      } else {
        Opposite(-s, l);
        assert s == l * (-((-s) / l)) + KeyHash(key, l);
      }
    }
  }

  lemma Opposite(n: int, l: int)
    requires l > 0
    ensures -n == l * (-(n / l)) - n % l
  {
    assert n == l * (n / l) + n % l;
  }

  /** `key_hash`: two loops over the ends of a long key, one over a short key; -1 on bad arguments. */
  method ComputeKeyHash(key: array?<byte>, l: int) returns (r: int)
    ensures r == if key == null then -1 else KeyHash(Str(key), l)
  {
    if key == null || l <= 0 {
      return -1;
    }
    var hashCode := SumOfEnds(key);
    r := if hashCode >= 0 then hashCode % l else -((-hashCode) % l);
  }

  /** The accumulating loops of `key_hash`. */
  method SumOfEnds(key: array<byte>) returns (hashCode: int)
    ensures hashCode == HashSum(Str(key))
  {
    hide CharSum, Str;
    var length := StrLen(key);
    ghost var s := Str(key);
    assert s == key[..length];
    if length <= SHORT_KEY {
      hashCode := SumOf(key, 0, length);
      assert key[0..length] == s;
    } else {
      var front := SumOf(key, 0, EDGE);
      var back := SumOf(key, length - EDGE, length);
      hashCode := front + back;
      assert key[0..EDGE] == s[..EDGE] && key[length - EDGE..length] == s[|s| - EDGE..];
      CharSumConcat(s[..EDGE], s[|s| - EDGE..]);
    }
  }

  /** One accumulating loop. */
  method SumOf(key: array<byte>, start: nat, end: nat) returns (hashCode: int)
    requires start <= end <= key.Length
    ensures hashCode == CharSum(key[start..end])
  {
    hashCode := 0;
    var i := start;
    while i < end
      invariant start <= i <= end
      invariant hashCode == CharSum(key[start..i])
    {
      CharSumNext(key[start..i], key[i]);
      assert key[start..i] + [key[i]] == key[start..i + 1];
      hashCode := hashCode + SignedChar(key[i]);
      i := i + 1;
    }
  }

  lemma CharSumNext(s: seq<byte>, b: byte)
    ensures CharSum(s + [b]) == CharSum(s) + SignedChar(b)
  {
    assert (s + [b])[..|s + [b]| - 1] == s;
  }
}
