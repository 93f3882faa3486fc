/** Machine words: 64-bit counters that wrap, and power-of-two masks. */
module Bits {

  /** One more than the largest uint64_t. */
  const WORD: nat := 0x1_0000_0000_0000_0000

  function Pow2(k: nat): (p: nat)
    ensures p > 0
  {
    if k == 0 then 1 else 2 * Pow2(k - 1)
  }

  /** Bitwise `&` of two unsigned words. */
  function And(x: nat, y: nat): nat
  {
    if x == 0 || y == 0 then 0
    else (if x % 2 == 1 && y % 2 == 1 then 1 else 0) + 2 * And(x / 2, y / 2)
  }

  /** Bitwise `|`. */
  function Or(x: nat, y: nat): nat
    decreases x
  {
    if x == 0 then y
    else (if x % 2 == 1 || y % 2 == 1 then 1 else 0) + 2 * Or(x / 2, y / 2)
  }

  /** Bitwise `^`. */
  function Xor(x: nat, y: nat): nat
    decreases x
  {
    if x == 0 then y
    else (if x % 2 != y % 2 then 1 else 0) + 2 * Xor(x / 2, y / 2)
  }

  /** `x << k` in a word of `m` values. */
  function Shl(x: nat, k: nat, m: nat): (r: nat)
    requires m > 0
    ensures r < m
  {
    (x * Pow2(k)) % m
  }

  /** uint64_t addition. */
  function WAdd(x: nat, y: nat): (r: nat)
    ensures r < WORD
  {
    (x + y) % WORD
  }

  /** uint64_t subtraction. */
  function WSub(x: nat, y: nat): (r: nat)
    ensures r < WORD
  {
    (x - y) % WORD
  }

  /** What `static_assert((Capacity & (Capacity - 1)) == 0)` admits of a 64-bit size. */
  ghost predicate IsCapacity(c: nat)
  {
    exists k: nat | k <= 63 :: c == Pow2(k)
  }

  /** `counter & (capacity - 1)`, the slot a monotone counter names. */
  function Slot(counter: nat, c: nat): (slot: nat)
    requires IsCapacity(c)
    ensures c > 0 && slot == counter % c && slot < c
  {
    assert c > 0 && And(counter, c - 1) == counter % c by {
      var k: nat :| k <= 63 && c == Pow2(k);
      MaskIsMod(counter, k);
    }
    And(counter, c - 1)
  }

  lemma {:induction false} MaskIsMod(x: nat, k: nat)
    ensures And(x, Pow2(k) - 1) == x % Pow2(k)
  {
    if k > 0 && x > 0 {
      var m := Pow2(k - 1);
      assert (2 * m - 1) / 2 == m - 1;
      MaskIsMod(x / 2, k - 1);
      ModHalves(x, m);
    } else if k > 0 {
      assert 0 % Pow2(k) == 0;
    }
  }

  lemma ModHalves(x: nat, m: nat)
    requires m > 0
    ensures x % (2 * m) == x % 2 + 2 * ((x / 2) % m)
  {
    var q, r := (x / 2) / m, (x / 2) % m;
    assert x == q * (2 * m) + (x % 2 + 2 * r) by {
      assert x / 2 == q * m + r;
      assert q * (2 * m) == 2 * (q * m);
    }
    ModUnique(x, q, x % 2 + 2 * r, 2 * m);
  }

  lemma ModUnique(x: int, q: int, r: int, m: nat)
    requires x == q * m + r && 0 <= r < m
    ensures x % m == r && x / m == q
  {
    var q', r' := x / m, x % m;
    assert x == q' * m + r';
    assert (q - q') * m == r' - r;
    if q < q' {
      MulAtMost(q - q', -1, m);
    } else if q > q' {
      MulAtMost(1, q - q', m);
    }
  }

  lemma MulAtMost(a: int, b: int, m: nat)
    requires a <= b
    ensures a * m <= b * m
  {}

  lemma {:induction false} PowSum(a: nat, b: nat)
    ensures Pow2(a + b) == Pow2(a) * Pow2(b)
  {
    if a > 0 {
      PowSum(a - 1, b);
      assert Pow2(a) * Pow2(b) == 2 * (Pow2(a - 1) * Pow2(b));
    }
  }

  lemma Squared(k: nat, p: nat)
    requires Pow2(k) == p
    ensures Pow2(2 * k) == p * p
  {
    PowSum(k, k);
  }

  lemma WordIsPow2()
    ensures WORD == Pow2(64)
  {
    assert Pow2(4) == 16;
    Squared(4, 16); Squared(8, 256); Squared(16, 65536); Squared(32, 0x1_0000_0000);
  }

  /** A capacity divides the word, so wrapped counters name the same slots. */
  lemma CapacityDividesWord(c: nat)
    requires IsCapacity(c)
    ensures c > 0 && 2 * c <= WORD
    ensures exists q: nat :: q * c == WORD
  {
    var k: nat :| k <= 63 && c == Pow2(k);
    WordIsPow2();
    PowSum(64 - k, k);
    assert Pow2(64 - k) * c == WORD;
    assert Pow2(64 - k) == 2 * Pow2(63 - k) >= 2;
    MulAtMost(2, Pow2(64 - k), c);
  }

  lemma Regroup(a: int, q: int, d: int, c: int)
    ensures a * (q * c) + d * c == (a * q + d) * c
  {}

  lemma WrappedMod(x: nat, c: nat)
    requires IsCapacity(c)
    ensures c > 0 && (x % WORD) % c == x % c
  {
    CapacityDividesWord(c);
    var q: nat :| q * c == WORD;
    var a, b := x / WORD, x % WORD;
    var d, e := b / c, b % c;
    Regroup(a, q, d, c);
    ModUnique(x, a * q + d, e, c);
  }

  /** The slot of a wrapped counter is the slot of the count it stands for. */
  lemma SlotOf(x: nat, c: nat)
    requires IsCapacity(c)
    ensures c > 0 && Slot(x % WORD, c) == x % c
  {
    WrappedMod(x, c);
  }

  /** Two counts less than a capacity apart never share a slot. */
  lemma SlotsDiffer(x: nat, y: nat, c: nat)
    requires c > 0 && x < y < x + c
    ensures x % c != y % c
  {
    if x % c == y % c {
      var p, q := x / c, y / c;
      assert y - x == (q - p) * c by {
        assert x == p * c + x % c && y == q * c + y % c;
      }
      if q - p >= 1 { MulAtMost(1, q - p, c); } else { MulAtMost(q - p, 0, c); }
    }
  }

  /** Unsigned subtraction of two wrapped counters is their true distance. */
  lemma WSubOf(x: nat, y: nat)
    requires y <= x < y + WORD
    ensures WSub(x % WORD, y % WORD) == x - y
  {
    var a, b := x / WORD, y / WORD;
    assert x % WORD - y % WORD == (b - a) * WORD + (x - y);
    ModUnique(x % WORD - y % WORD, b - a, x - y, WORD);
  }

  lemma WAddOf(x: nat, y: nat)
    ensures WAdd(x % WORD, y) == (x + y) % WORD
  {
    var a := x / WORD;
    var q, r := (x + y) / WORD, (x + y) % WORD;
    ModUnique(x % WORD + y, q - a, r, WORD);
  }

  // ---- Or and exclusive or ----

  /** With nothing, the other word. */
  lemma {:induction false} WithZero(x: nat)
    ensures Or(x, 0) == x && Xor(x, 0) == x
  {
    if x > 0 {
      WithZero(x / 2);
    }
  }

  /** With all ones, the complement. */
  lemma {:induction false} XorOnes(x: nat, k: nat)
    requires x < Pow2(k)
    ensures Xor(x, Pow2(k) - 1) == Pow2(k) - 1 - x
  {
    if k > 0 && x > 0 {
      var m := Pow2(k - 1);
      assert (2 * m - 1) / 2 == m - 1;
      XorOnes(x / 2, k - 1);
    }
  }

  /** Of words without a bit in common, the sum. */
  lemma {:induction false} OrDisjoint(a: nat, b: nat, k: nat)
    requires a < Pow2(k)
    ensures Or(a, b * Pow2(k)) == a + b * Pow2(k)
  {
    if k > 0 {
      var half := b * Pow2(k - 1);
      assert b * Pow2(k) == 2 * half;
      if a > 0 {
        OrDisjoint(a / 2, b, k - 1);
      }
    }
  }
}
