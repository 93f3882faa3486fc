/** Bytes and the big-endian integers of the wire format; negative values are in two's complement. */
module Bytes {
  import opened Bits

  type byte = x: int | 0 <= x < 256

  const P16: nat := 0x1_0000
  const P32: nat := 0x1_0000_0000
  const P64: nat := 0x1_0000_0000_0000_0000

  // ---- Writing: the low 16, 32 or 64 bits, most significant byte first ----

  function B2(v: int): (s: seq<byte>)
    ensures |s| == 2
  {
    [v / 0x100 % 0x100, v % 0x100]
  }

  function B4(v: int): (s: seq<byte>)
    ensures |s| == 4
  {
    [v / 0x100_0000 % 0x100, v / 0x1_0000 % 0x100, v / 0x100 % 0x100, v % 0x100]
  }

  function B8(v: int): (s: seq<byte>)
    ensures |s| == 8
  {
    B4(v / P32) + B4(v)
  }

  // ---- Reading at a position ----

  function U16(s: seq<byte>, p: nat): (v: nat)
    requires p + 2 <= |s|
    ensures v < P16
  {
    s[p] as int * 0x100 + s[p + 1] as int
  }

  function U32(s: seq<byte>, p: nat): (v: nat)
    requires p + 4 <= |s|
    ensures v < P32
  {
    s[p] as int * 0x100_0000 + s[p + 1] as int * 0x1_0000 + s[p + 2] as int * 0x100 + s[p + 3] as int
  }

  function U64(s: seq<byte>, p: nat): (v: nat)
    requires p + 8 <= |s|
    ensures v < P64
  {
    U32(s, p) * P32 + U32(s, p + 4)
  }

  /** The signed reading of an unsigned value below `m`. */
  function Signed(u: nat, m: nat): int
  {
    if 2 * u < m then u else u - m
  }

  function I16(s: seq<byte>, p: nat): int requires p + 2 <= |s| { Signed(U16(s, p), P16) }
  function I32(s: seq<byte>, p: nat): int requires p + 4 <= |s| { Signed(U32(s, p), P32) }
  function I64(s: seq<byte>, p: nat): int requires p + 8 <= |s| { Signed(U64(s, p), P64) }

  predicate FitsSigned(v: int, m: nat)
  {
    0 <= 2 * v + m && 2 * v < m
  }

  // ---- Round trips ----

  lemma SignedOfMod(v: int, m: nat)
    requires m > 0 && FitsSigned(v, m)
    ensures Signed(v % m, m) == v
  {
    if v >= 0 { ModUnique(v, 0, v, m); } else { ModUnique(v, -1, v + m, m); }
  }

  lemma Digits16(v: int)
    ensures (v / 0x100 % 0x100) * 0x100 + v % 0x100 == v % P16
  {
    var a := v / 0x100;
    ModUnique(v, a / 0x100, (a % 0x100) * 0x100 + v % 0x100, P16);
  }

  lemma Read16(v: int, s: seq<byte>, p: nat)
    requires p + 2 <= |s| && s[p..p + 2] == B2(v)
    ensures U16(s, p) == v % P16
    ensures FitsSigned(v, P16) ==> I16(s, p) == v
  {
    assert s[p] == B2(v)[0] && s[p + 1] == B2(v)[1];
    Digits16(v);
    if FitsSigned(v, P16) { SignedOfMod(v, P16); }
  }

  lemma Digits32(v: int)
    ensures (v / 0x100_0000 % 0x100) * 0x100_0000 + (v / 0x1_0000 % 0x100) * 0x1_0000 + (v / 0x100 % 0x100) * 0x100 + v % 0x100
         == v % P32
  {
    var a := v / 0x100;
    var b := a / 0x100;
    var c := b / 0x100;
    assert v / 0x1_0000 == b && v / 0x100_0000 == c;
    ModUnique(v, c / 0x100, (c % 0x100) * 0x100_0000 + (b % 0x100) * 0x1_0000 + (a % 0x100) * 0x100 + v % 0x100, P32);
  }

  lemma Read32(v: int, s: seq<byte>, p: nat)
    requires p + 4 <= |s| && s[p..p + 4] == B4(v)
    ensures U32(s, p) == v % P32
    ensures FitsSigned(v, P32) ==> I32(s, p) == v
  {
    assert s[p] == B4(v)[0] && s[p + 1] == B4(v)[1] && s[p + 2] == B4(v)[2] && s[p + 3] == B4(v)[3];
    Digits32(v);
    if FitsSigned(v, P32) { SignedOfMod(v, P32); }
  }

  lemma Read64(v: int, s: seq<byte>, p: nat)
    requires p + 8 <= |s| && s[p..p + 8] == B8(v)
    ensures U64(s, p) == v % P64
    ensures FitsSigned(v, P64) ==> I64(s, p) == v
  {
    assert s[p..p + 4] == B8(v)[..4] == B4(v / P32);
    assert s[p + 4..p + 8] == B8(v)[4..] == B4(v);
    Read32(v / P32, s, p);
    Read32(v, s, p + 4);
    var hi := v / P32;
    ModUnique(v, hi / P32, (hi % P32) * P32 + v % P32, P64);
    if FitsSigned(v, P64) { SignedOfMod(v, P64); }
  }
}
