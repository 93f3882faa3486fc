/** Zigzag varints: the writer of the REST endpoint and the two readers, one bounded and 64-bit, one unbounded and 32-bit. */
module Varint {
  import Bits
  import opened Bytes
  import opened Options

  lemma WordSizes()
    ensures Bits.Pow2(32) == P32 && Bits.Pow2(64) == P64
  {
    assert Bits.Pow2(4) == 16;
    Bits.Squared(4, 16);
    Bits.Squared(8, 256);
    Bits.Squared(16, 65536);
    Bits.WordIsPow2();
  }

  // ---- Zigzag ----

  /** `(v << 1) ^ (v >> 63)` in uint64_t. */
  function ZigZagBits(v: int): nat
  {
    Bits.Xor(Bits.Shl(v % P64, 1, P64), if v < 0 then P64 - 1 else 0)
  }

  /** Twice the value, or, below zero, one less than twice its size. */
  function ZigZag(v: int): nat
  {
    if v >= 0 then 2 * v else -2 * v - 1
  }

  /** What the shifts and the exclusive or compute of every int64. */
  lemma ZigZagIsBits(v: int)
    requires FitsSigned(v, P64)
    ensures ZigZagBits(v) == ZigZag(v)
  {
    WordSizes();
    assert Bits.Pow2(1) == 2;
    if v >= 0 {
      Bits.ModUnique(v, 0, v, P64);
      Bits.ModUnique(2 * v, 0, 2 * v, P64);
      Bits.WithZero(2 * v);
    } else {
      Bits.ModUnique(v, -1, v + P64, P64);
      Bits.ModUnique(2 * (v + P64), 1, 2 * v + P64, P64);
      Bits.XorOnes(2 * v + P64, 64);
    }
  }

  /** `-(n & 1)` in unsigned words of `m` values. */
  function OddMask(n: nat, m: nat): nat
    requires m > 0
  {
    (0 - Bits.And(n, 1)) % m
  }

  /** `(n >> 1) ^ -(n & 1)`, read as signed. */
  function UnZigZagBits(n: nat, m: nat): int
    requires m > 0
  {
    Signed(Bits.Xor(n / 2, OddMask(n, m)), m)
  }

  function UnZigZag(n: nat): int
  {
    if n % 2 == 0 then n / 2 else -(n / 2) - 1
  }

  lemma OddMaskIs(n: nat, m: nat)
    requires m > 0
    ensures OddMask(n, m) == if n % 2 == 0 then 0 else m - 1
  {
    assert Bits.Pow2(1) == 2;
    Bits.MaskIsMod(n, 1);
    if n % 2 == 0 {
      Bits.ModUnique(0, 0, 0, m);
    } else {
      Bits.ModUnique(-1, -1, m - 1, m);
    }
  }

  lemma UnZigZagIsBits(n: nat, bits: nat)
    requires bits > 0 && n < Bits.Pow2(bits)
    ensures UnZigZagBits(n, Bits.Pow2(bits)) == UnZigZag(n)
  {
    OddMaskIs(n, Bits.Pow2(bits));
    Halved(n, bits, Bits.Pow2(bits));
  }

  lemma Halved(n: nat, bits: nat, m: nat)
    requires bits > 0 && m == Bits.Pow2(bits) && n < m
    ensures Signed(Bits.Xor(n / 2, if n % 2 == 0 then 0 else m - 1), m) == UnZigZag(n)
  {
    assert m == 2 * Bits.Pow2(bits - 1);
    if n % 2 == 0 {
      Bits.WithZero(n / 2);
    } else {
      Bits.XorOnes(n / 2, bits);
    }
  }

  lemma ZigZagRoundTrip(v: int)
    ensures UnZigZag(ZigZag(v)) == v
  {}

  // ---- Groups of seven bits ----

  /** Seven bits a byte, low bits first, the high bit set on all but the last. */
  function Groups(u: nat): (s: seq<byte>)
    ensures |s| >= 1
  {
    if u < 128 then [u] else [u % 128 + 128] + Groups(u / 128)
  }

  function Encode(v: int): (s: seq<byte>)
    ensures |s| >= 1
  {
    Groups(ZigZag(v))
  }

  /** `(zz & 0x7F) | 0x80` and the test of bit 7. */
  lemma LowSeven(zz: nat)
    ensures Bits.And(zz, 0x7F) == zz % 128 && Bits.Or(zz % 128, 0x80) == zz % 128 + 128
  {
    assert Bits.Pow2(7) == 128;
    Bits.MaskIsMod(zz, 7);
    Bits.OrDisjoint(zz % 128, 1, 7);
  }

  method WriteVarint(buf: seq<byte>, v: int) returns (r: seq<byte>)
    requires FitsSigned(v, P64)
    ensures r == buf + Encode(v)
  {
    var zz := ZigZagBits(v);
    ZigZagIsBits(v);
    r := buf;
    while zz > 0x7F
      invariant r + Groups(zz) == buf + Encode(v)
    {
      ghost var whole := r + Groups(zz);
      LowSeven(zz);
      r := r + [Bits.Or(Bits.And(zz, 0x7F), 0x80)];
      assert r + Groups(zz / 128) == whole;
      zz := zz / 128;
    }
    r := r + [zz];
  }

  /** What the groups from `pos` on, stopping at `end`, add up to, and where they stop. */
  function ReadGroups(s: seq<byte>, pos: nat, end: nat): (r: (nat, nat))
    requires end <= |s|
    ensures pos <= r.1 && (pos <= end ==> r.1 <= end)
    decreases end - pos
  {
    if pos >= end then (0, pos)
    else if s[pos] < 128 then (s[pos], pos + 1)
    else var (v, next) := ReadGroups(s, pos + 1, end); (s[pos] - 128 + 128 * v, next)
  }

  /** The reader of the peek endpoint: 64-bit, stops at the end of the batch. */
  function Peek(s: seq<byte>, pos: nat, end: nat): (int, nat)
    requires end <= |s|
  {
    var (v, next) := ReadGroups(s, pos, end);
    (UnZigZag(v % P64), next)
  }

  /** The reader of the Kafka decoder: 32-bit; running off the data is no value. */
  function ReadInt(s: seq<byte>, pos: nat): (r: Option<(int, nat)>)
    ensures r.Some? ==> pos < r.value.1 <= |s|
  {
    var (v, next) := ReadGroups(s, pos, |s|);
    if pos < next <= |s| && s[next - 1] < 128 then Some((UnZigZag(v % P32), next)) else None
  }

  lemma ModAddMod(a: int, b: int, m: nat)
    requires m > 0
    ensures (a % m + b) % m == (a + b) % m
  {
    var q := a / m;
    assert a + b == q * m + (a % m + b);
    Bits.ModUnique(a + b, q + (a % m + b) / m, (a % m + b) % m, m);
  }

  /** What the bits gathered so far and the groups to come make, in a word of `m` values. */
  function Acc(acc: nat, v: nat, weight: nat, m: nat): nat
    requires m > 0
  {
    (acc + v * weight) % m
  }

  lemma AccStep(acc: nat, low: nat, rest: nat, weight: nat, m: nat)
    requires m > 0
    ensures Acc(Acc(acc, low, weight, m), rest, weight * 128, m) == Acc(acc, low + 128 * rest, weight, m)
  {
    assert (low + 128 * rest) * weight == low * weight + rest * (weight * 128);
    ModAddMod(acc + low * weight, rest * (weight * 128), m);
  }

  lemma AccEnds(acc: nat, v: nat, weight: nat, m: nat)
    requires m > 0
    ensures Acc(acc, 0, weight, m) == acc % m
    ensures Acc(0, v, 1, m) == v % m
  {}

  /** A shift past the word leaves nothing. */
  lemma ShiftedOut(v: nat, shift: nat, bits: nat)
    requires shift >= bits
    ensures Bits.Shl(v, shift, Bits.Pow2(bits)) == 0
  {
    var m := Bits.Pow2(bits);
    Bits.PowSum(shift - bits, bits);
    var q := v * Bits.Pow2(shift - bits);
    assert v * Bits.Pow2(shift) == q * m + 0;
    Bits.ModUnique(v * Bits.Pow2(shift), q, 0, m);
  }

  lemma Distribute(q: int, top: int, r: int, w: int)
    ensures (q * top + r) * w == q * (top * w) + r * w
  {}

  /** The low part of a product. */
  lemma LowPart(v: nat, top: nat, w: nat)
    requires top > 0 && w > 0
    ensures (v % top + 1) * w <= top * w && (v * w) % (top * w) == (v % top) * w
  {
    var q, r := v / top, v % top;
    Distribute(q, top, r, w);
    Bits.MulAtMost(r + 1, top, w);
    Bits.ModUnique(v * w, q, r * w, top * w);
  }

  lemma ModAtMost(v: nat, top: nat)
    requires top > 0
    ensures v % top <= v
  {
    if v < top {
      Bits.ModUnique(v, 0, v, top);
    }
  }

  lemma LowBits(v: nat, top: nat, w: nat, m: nat) returns (u: nat)
    requires top > 0 && w > 0 && m == top * w
    ensures u <= v && (v * w) % m == u * w && (u + 1) * w <= m
  {
    u := v % top;
    LowPart(v, top, w);
    ModAtMost(v, top);
  }

  /** A shift within the word keeps the low bits that fit. */
  lemma ShiftedIn(v: nat, shift: nat, bits: nat) returns (u: nat)
    requires shift < bits
    ensures u <= v && Bits.Shl(v, shift, Bits.Pow2(bits)) == u * Bits.Pow2(shift) && (u + 1) * Bits.Pow2(shift) <= Bits.Pow2(bits)
  {
    Bits.PowSum(bits - shift, shift);
    u := LowBits(v, Bits.Pow2(bits - shift), Bits.Pow2(shift), Bits.Pow2(bits));
  }

  lemma SumFits(acc: nat, u: nat, w: nat, m: nat)
    requires acc < w && (u + 1) * w <= m && u < 128
    ensures acc + u * w < m && acc + u * w < 128 * w
  {
    Bits.MulAtMost(u + 1, 128, w);
  }

  lemma AccOf(acc: nat, v: nat, w: nat, m: nat, y: nat)
    requires m > 0 && (v * w) % m == y && acc + y < m
    ensures Acc(acc, v, w, m) == acc + y
  {
    ModAddMod(v * w, acc, m);
    Bits.ModUnique(acc + y, 0, acc + y, m);
  }

  /** `acc | (v << shift)`, for `acc` below the shifted bits, is the sum modulo the word. */
  lemma OrIsAcc(acc: nat, v: nat, shift: nat, bits: nat)
    requires acc < Bits.Pow2(shift) && acc < Bits.Pow2(bits) && v < 128
    ensures var m := Bits.Pow2(bits); var r := Bits.Or(acc, Bits.Shl(v, shift, m));
            r == Acc(acc, v, Bits.Pow2(shift), m) && r < m && r < 128 * Bits.Pow2(shift)
  {
    var m, w := Bits.Pow2(bits), Bits.Pow2(shift);
    if shift >= bits {
      ShiftedOut(v, shift, bits);
      Bits.WithZero(acc);
      AccOf(acc, v, w, m, 0);
    } else {
      var u := ShiftedIn(v, shift, bits);
      Bits.OrDisjoint(acc, u, shift);
      SumFits(acc, u, w, m);
      AccOf(acc, v, w, m, u * w);
    }
  }

  /** What one byte contributes to the groups. */
  lemma GroupsStep(s: seq<byte>, pos: nat, end: nat)
    requires pos < end <= |s|
    ensures var rest := if s[pos] >= 128 then ReadGroups(s, pos + 1, end) else (0, pos + 1);
            ReadGroups(s, pos, end) == (s[pos] % 128 + 128 * rest.0, rest.1)
  {}

  lemma Bit7(b: byte)
    ensures Bits.And(b, 0x80) == 0 <==> b < 128
  {
    Bit3(b / 16);
    assert Bits.And(b / 2, 64) == 2 * Bits.And(b / 4, 32);
    assert Bits.And(b / 8, 16) == 2 * Bits.And(b / 16, 8);
    assert Bits.And(b / 4, 32) == 2 * Bits.And(b / 8, 16);
  }

  lemma Bit3(b: nat)
    requires b < 16
    ensures Bits.And(b, 8) == 0 <==> b < 8
  {
    assert Bits.And(b / 8, 1) == b / 8;
    assert Bits.And(b / 4, 2) == 2 * Bits.And(b / 8, 1);
    assert Bits.And(b / 2, 4) == 2 * Bits.And(b / 4, 2);
  }

  /** The accumulating loop both readers share, in words of `bits` bits. */
  method ReadLoop(s: seq<byte>, pos: nat, end: nat, bits: nat) returns (value: int, next: nat)
    requires end <= |s| && bits > 0
    ensures var m := Bits.Pow2(bits);
            m > 0 && value == UnZigZag(ReadGroups(s, pos, end).0 % m) && next == ReadGroups(s, pos, end).1
  {
    var m := Bits.Pow2(bits);
    var result: nat, shift: nat, more := 0, 0, true;
    next := pos;
    ghost var whole := ReadGroups(s, pos, end);
    ghost var rest := whole;
    AccEnds(0, whole.0, 1, m);
    while more && next < end
      invariant rest == if more then ReadGroups(s, next, end) else (0, next)
      invariant result < Bits.Pow2(shift) && result < m
      invariant whole.1 == rest.1 && whole.0 % m == Acc(result, rest.0, Bits.Pow2(shift), m)
      decreases end - next, more
    {
      var b := s[next];
      GroupsStep(s, next, end);
      LowSeven(b);
      Bit7(b);
      next := next + 1;
      more := Bits.And(b, 0x80) != 0;
      rest := if more then ReadGroups(s, next, end) else (0, next);
      AccStep(result, b % 128, rest.0, Bits.Pow2(shift), m);
      OrIsAcc(result, b % 128, shift, bits);
      Bits.PowSum(shift, 7);
      assert Bits.Pow2(7) == 128;
      result := Bits.Or(result, Bits.Shl(Bits.And(b, 0x7F), shift, m));
      shift := shift + 7;
    }
    AccEnds(result, 0, Bits.Pow2(shift), m);
    Bits.ModUnique(result, 0, result, m);
    UnZigZagIsBits(result, bits);
    value := UnZigZagBits(result, m);
  }

  method PeekVarint(s: seq<byte>, pos: nat, end: nat) returns (value: int, next: nat)
    requires end <= |s|
    ensures (value, next) == Peek(s, pos, end)
  {
    WordSizes();
    value, next := ReadLoop(s, pos, end, 64);
  }

  method ReadSignedVarint(s: seq<byte>, pos: nat) returns (r: Option<(int, nat)>)
    ensures r == ReadInt(s, pos)
  {
    WordSizes();
    var value, next := ReadLoop(s, pos, |s|, 32);
    r := if pos < next <= |s| && s[next - 1] < 128 then Some((value, next)) else None;
  }

  /** Groups written anywhere are read back whole, by either reader's loop. */
  lemma {:induction false} GroupsRoundTrip(u: nat, s: seq<byte>, pos: nat, end: nat)
    requires pos + |Groups(u)| <= end <= |s| && s[pos..pos + |Groups(u)|] == Groups(u)
    ensures ReadGroups(s, pos, end) == (u, pos + |Groups(u)|)
    ensures s[pos + |Groups(u)| - 1] < 128
  {
    var g := Groups(u);
    assert s[pos] == g[0];
    if u >= 128 {
      assert Groups(u / 128) == g[1..];
      assert s[pos + 1..pos + 1 + |g[1..]|] == s[pos..pos + |g|][1..];
      GroupsRoundTrip(u / 128, s, pos + 1, end);
    }
  }

  /** Every int64 the writer writes, the peek reader reads back. */
  lemma PeekReadsBack(v: int, s: seq<byte>, pos: nat, end: nat)
    requires FitsSigned(v, P64)
    requires pos + |Encode(v)| <= end <= |s| && s[pos..pos + |Encode(v)|] == Encode(v)
    ensures Peek(s, pos, end) == (v, pos + |Encode(v)|)
  {
    GroupsRoundTrip(ZigZag(v), s, pos, end);
    Bits.ModUnique(ZigZag(v), 0, ZigZag(v), P64);
    ZigZagRoundTrip(v);
  }

  /** Every int32 the writer writes, both readers read back alike, over the same bytes. */
  lemma ReadersAgree(v: int, s: seq<byte>, pos: nat)
    requires FitsSigned(v, P32)
    requires pos + |Encode(v)| <= |s| && s[pos..pos + |Encode(v)|] == Encode(v)
    ensures ReadInt(s, pos) == Some((v, pos + |Encode(v)|))
    ensures Peek(s, pos, |s|) == (v, pos + |Encode(v)|)
  {
    GroupsRoundTrip(ZigZag(v), s, pos, |s|);
    Bits.ModUnique(ZigZag(v), 0, ZigZag(v), P32);
    PeekReadsBack(v, s, pos, |s|);
  }
}
