/** Bytes, C strings and the fixed-width integers of the wire format. */
module Bytes {

  type byte = x: int | 0 <= x < 256

  const SHORT_MIN: int := -0x8000
  const SHORT_MAX: int := 0x7FFF
  const INT_MIN: int := -0x8000_0000
  const INT_MAX: int := 0x7FFF_FFFF

  /** The bytes of a C string are those before its terminator, so none of them is NUL. */
  predicate NulFree(s: seq<byte>) {
    forall i :: 0 <= i < |s| ==> s[i] != 0
  }

  /** What a C program sees of a block that is followed by a terminator: the bytes before the first NUL. */
  function CString(s: seq<byte>): (r: seq<byte>)
    ensures NulFree(r) && r <= s
    ensures NulFree(s) ==> r == s
  {
    if s == [] || s[0] == 0 then [] else [s[0]] + CString(s[1..])
  }

  /** The string that a pointer to a block denotes; a terminator stands behind the last byte of every block. */
  function Str(a: array<byte>): seq<byte>
    reads a
  {
    CString(a[..])
  }

  lemma {:induction false} CStringLength(s: seq<byte>, n: nat)
    requires n <= |s| && NulFree(s[..n]) && (n < |s| ==> s[n] == 0)
    ensures CString(s) == s[..n]
  {
    if n > 0 {
      assert s[1..][..n - 1] == s[1..n] && s[..n] == [s[0]] + s[1..n];
      CStringLength(s[1..], n - 1);
    }
  }

  /** `strlen`. */
  method StrLen(a: array<byte>) returns (n: nat)
    ensures n <= a.Length && a[..n] == Str(a)
  {
    n := 0;
    while n < a.Length && a[n] != 0
      invariant n <= a.Length && NulFree(a[..n])
    {
      n := n + 1;
    }
    CStringLength(a[..], n);
    assert a[..][..n] == a[..n];
  }

  /** The sign of `strcmp`: unsigned bytes, first difference, and the terminator is below every key byte. */
  function StrCmp(a: seq<byte>, b: seq<byte>): (r: int)
    ensures -1 <= r <= 1
    ensures r == 0 <==> a == b
  {
    if a == [] && b == [] then 0
    else if a == [] then -1
    else if b == [] then 1
    else if a[0] < b[0] then -1
    else if a[0] > b[0] then 1
    else
      assert a == [a[0]] + a[1..] && b == [b[0]] + b[1..];
      StrCmp(a[1..], b[1..])
  }

  /** `b` is a proper prefix of `a`, or at the first difference `a` has the larger unsigned byte. */
  ghost predicate Above(a: seq<byte>, b: seq<byte>) {
    exists n :: 0 <= n <= |a| && n <= |b| && a[..n] == b[..n] && AboveAt(a, b, n)
  }

  predicate AboveAt(a: seq<byte>, b: seq<byte>, n: nat) {
    n < |a| && (n == |b| || (n < |b| && a[n] > b[n]))
  }

  /** What `strcmp` compares. */
  lemma {:induction false} StrCmpIff(a: seq<byte>, b: seq<byte>)
    ensures StrCmp(a, b) > 0 <==> Above(a, b)
  {
    if a == [] || b == [] || a[0] != b[0] {
      assert AboveAt(a, b, 0) ==> a[..0] == b[..0] && Above(a, b);
      if Above(a, b) {
        var n :| 0 <= n <= |a| && n <= |b| && a[..n] == b[..n] && AboveAt(a, b, n);
        assert n > 0 ==> a[..n][0] == b[..n][0];
      }
    } else {
      StrCmpIff(a[1..], b[1..]);
      if Above(a, b) {
        var n :| 0 <= n <= |a| && n <= |b| && a[..n] == b[..n] && AboveAt(a, b, n);
        assert n > 0 && a[1..][..n - 1] == a[..n][1..] && b[1..][..n - 1] == b[..n][1..];
        assert AboveAt(a[1..], b[1..], n - 1);
      }
      if Above(a[1..], b[1..]) {
        var n :| 0 <= n <= |a[1..]| && n <= |b[1..]| && a[1..][..n] == b[1..][..n] && AboveAt(a[1..], b[1..], n);
        assert a[..n + 1] == [a[0]] + a[1..][..n] && b[..n + 1] == [b[0]] + b[1..][..n];
        assert AboveAt(a, b, n + 1);
      }
    }
  }

  lemma {:induction false} StrCmpAntisymmetric(a: seq<byte>, b: seq<byte>)
    ensures StrCmp(a, b) == -StrCmp(b, a)
  {
    if a != [] && b != [] && a[0] == b[0] {
      StrCmpAntisymmetric(a[1..], b[1..]);
    }
  }

  lemma {:induction false} StrCmpTransitive(a: seq<byte>, b: seq<byte>, c: seq<byte>)
    requires StrCmp(a, b) > 0 && StrCmp(b, c) > 0
    ensures StrCmp(a, c) > 0
  {
    if a != [] && b != [] && c != [] && a[0] == b[0] == c[0] {
      StrCmpTransitive(a[1..], b[1..], c[1..]);
    }
  }

  /** `htons` followed by a copy of two bytes; a negative or too large value is reduced modulo 2^16. */
  function U16(n: int): (r: seq<byte>)
    ensures |r| == 2
  {
    [(n / 256) % 256, n % 256]
  }

  /** `htonl` followed by a copy of four bytes. */
  function U32(n: int): (r: seq<byte>)
    ensures |r| == 4
  {
    var q := n / 256;
    var p := q / 256;
    var o := p / 256;
    [o % 256, p % 256, q % 256, n % 256]
  }

  function FromU16(s: seq<byte>): (r: int)
    requires |s| == 2
    ensures 0 <= r < 0x1_0000
  {
    256 * (s[0] as int) + s[1] as int
  }

  function FromU32(s: seq<byte>): (r: int)
    requires |s| == 4
    ensures 0 <= r < 0x1_0000_0000
  {
    0x100_0000 * (s[0] as int) + 0x1_0000 * (s[1] as int) + 256 * (s[2] as int) + s[3] as int
  }

  /** Conversion of a 16-bit unsigned value to `short`. */
  function ToShort(u: int): (r: int)
    requires 0 <= u < 0x1_0000
    ensures SHORT_MIN <= r <= SHORT_MAX
  {
    if u <= SHORT_MAX then u else u - 0x1_0000
  }

  /** Conversion of a 32-bit unsigned value to `int`. */
  function ToInt(u: int): (r: int)
    requires 0 <= u < 0x1_0000_0000
    ensures INT_MIN <= r <= INT_MAX
  {
    if u <= INT_MAX then u else u - 0x1_0000_0000
  }

  lemma U16RoundTrip(n: int)
    ensures FromU16(U16(n)) == n % 0x1_0000
  {
  }

  /** A division by 256 read off its quotient and remainder. */
  lemma Byte(n: int, q: int, r: int)
    requires n == 256 * q + r && 0 <= r < 256
    ensures n / 256 == q && n % 256 == r
  {
  }

  lemma Word(n: int, t: int, r: int)
    requires n == 0x1_0000_0000 * t + r && 0 <= r < 0x1_0000_0000
    ensures n % 0x1_0000_0000 == r
  {
  }

  lemma U32RoundTrip(n: int)
    ensures FromU32(U32(n)) == n % 0x1_0000_0000
  {
    var q := n / 256;
    var p := q / 256;
    var o := p / 256;
    assert U32(n) == [o % 256, p % 256, q % 256, n % 256];
    hide U32;
    Word(n, o / 256, FromU32(U32(n)));
  }

  /** The number a byte string denotes in network byte order: the most significant byte comes first. */
  function BigEndian(s: seq<byte>): nat {
    if s == [] then 0 else 256 * BigEndian(s[..|s| - 1]) + s[|s| - 1] as int
  }

  lemma FieldsAreBigEndian(s: seq<byte>, n: int)
    ensures |s| == 2 ==> FromU16(s) == BigEndian(s)
    ensures |s| == 4 ==> FromU32(s) == BigEndian(s)
    ensures BigEndian(U16(n)) == n % 0x1_0000 && BigEndian(U32(n)) == n % 0x1_0000_0000
  {
    U16RoundTrip(n);
    U32RoundTrip(n);
    BigEndian2(U16(n));
    BigEndian4(U32(n));
    if |s| == 2 {
      BigEndian2(s);
    } else if |s| == 4 {
      BigEndian4(s);
    }
  }

  lemma BigEndian2(s: seq<byte>)
    requires |s| == 2
    ensures FromU16(s) == BigEndian(s)
  {
    assert s[..1][..0] == [] && BigEndian(s[..1]) == s[0] as int;
  }

  lemma BigEndian4(s: seq<byte>)
    requires |s| == 4
    ensures FromU32(s) == BigEndian(s)
  {
    BigEndian2(s[..2]);
    assert s[..3][..2] == s[..2];
  }

  /** Signed fields survive the unsigned big-endian encoding. */
  lemma ShortRoundTrip(n: int)
    requires SHORT_MIN <= n <= SHORT_MAX
    ensures ToShort(FromU16(U16(n))) == n
  {
    U16RoundTrip(n);
  }

  lemma IntRoundTrip(n: int)
    requires INT_MIN <= n <= INT_MAX
    ensures ToInt(FromU32(U32(n))) == n
  {
    U32RoundTrip(n);
  }

  /** And back: re-encoding a decoded field gives the same bytes. */
  lemma ShortBytesRoundTrip(s: seq<byte>)
    requires |s| == 2
    ensures U16(ToShort(FromU16(s))) == s && U16(FromU16(s)) == s
  {
    var u := FromU16(s);
    assert u / 256 == s[0] && u % 256 == s[1];
    var n := u - 0x1_0000;
    assert n / 256 == s[0] as int - 256 && n % 256 == s[1];
  }

  lemma IntBytesRoundTrip(s: seq<byte>)
    requires |s| == 4
    ensures U32(ToInt(FromU32(s))) == s && U32(FromU32(s)) == s
  {
    var u := FromU32(s);
    U32Digits(u, 0, s);
    U32Digits(u - 0x1_0000_0000, -1, s);
  }

  lemma U32Digits(n: int, t: int, s: seq<byte>)
    requires |s| == 4 && n == 0x1_0000_0000 * t + FromU32(s)
    ensures U32(n) == s
  {
    var o := 256 * t + s[0] as int;
    var p := 256 * o + s[1] as int;
    var q := 256 * p + s[2] as int;
    Byte(n, q, s[3]);
    Byte(q, p, s[2]);
    Byte(p, o, s[1]);
    Byte(o, t, s[0]);
  }
}
