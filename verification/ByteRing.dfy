/** The fixed-capacity byte ring of a connection: monotone uint64_t counters over a power-of-two array. */
module ByteRing {
  import opened Bits
  import opened Bytes

  function Min(a: nat, b: nat): (m: nat)
    ensures m <= a && m <= b && (m == a || m == b)
  {
    if a < b then a else b
  }

  // ---- A window of a circular array, on values ----

  /** The slot of the i-th byte after counter `t`. */
  function Idx(t: nat, i: nat, c: nat): (k: nat)
    requires c > 0
    ensures k < c
  {
    (t + i) % c
  }

  /** The `n` bytes from counter `t` on. */
  function Window(d: seq<byte>, t: nat, n: nat): (s: seq<byte>)
    requires |d| > 0
    ensures |s| == n
  {
    seq(n, i requires 0 <= i < n => d[Idx(t, i, |d|)])
  }

  /** memcpy of `src` to position `at`. */
  function Splice(d: seq<byte>, at: nat, src: seq<byte>): (r: seq<byte>)
    requires at + |src| <= |d|
    ensures |r| == |d|
  {
    d[..at] + src + d[at + |src|..]
  }

  /** Slot arithmetic either side of the wrap. */
  lemma IdxWraps(t: nat, i: nat, c: nat)
    requires c > 0 && i < c
    ensures Idx(t, i, c) == if i < c - t % c then t % c + i else t % c + i - c
  {
    var q, p := t / c, t % c;
    assert t == q * c + p;
    if i < c - p {
      ModUnique(t + i, q, p + i, c);
    } else {
      assert (q + 1) * c == q * c + c;
      ModUnique(t + i, q + 1, p + i - c, c);
    }
  }

  lemma IdxOfWord(t: nat, i: nat, c: nat)
    requires IsCapacity(c) && c > 0
    ensures Idx(t % WORD, i, c) == Idx(t, i, c)
  {
    WrappedMod(t % WORD + i, c);
    WrappedMod(t + i, c);
    WAddOf(t, i);
  }

  /** Counters that agree as words name the same window. */
  lemma WindowOfWord(d: seq<byte>, t: nat, n: nat)
    requires IsCapacity(|d|) && |d| > 0
    ensures Window(d, t % WORD, n) == Window(d, t, n)
  {
    forall i | 0 <= i < n ensures Window(d, t % WORD, n)[i] == Window(d, t, n)[i] {
      IdxOfWord(t, i, |d|);
    }
  }

  lemma WindowSplit(d: seq<byte>, t: nat, n: nat, k: nat)
    requires |d| > 0 && k <= n
    ensures Window(d, t, n)[..k] == Window(d, t, k)
    ensures Window(d, t, n)[k..] == Window(d, t + k, n - k)
  {
    forall i | 0 <= i < n - k ensures Window(d, t, n)[k..][i] == Window(d, t + k, n - k)[i] {
      assert Idx(t, k + i, |d|) == Idx(t + k, i, |d|);
    }
  }

  /** A window that does not reach the end of the array is a slice of it. */
  lemma WindowContig(d: seq<byte>, t: nat, n: nat)
    requires |d| > 0 && n <= |d| - t % |d|
    ensures Window(d, t, n) == d[t % |d|..t % |d| + n]
  {
    forall i | 0 <= i < n ensures Idx(t, i, |d|) == t % |d| + i {
      IdxWraps(t, i, |d|);
    }
  }

  /** One that does is the end of the array followed by its start. */
  lemma WindowWrapped(d: seq<byte>, t: nat, n: nat)
    requires |d| > 0 && |d| - t % |d| <= n <= |d|
    ensures Window(d, t, n) == d[t % |d|..] + d[..n - (|d| - t % |d|)]
  {
    forall i | 0 <= i < n ensures Window(d, t, n)[i] == (d[t % |d|..] + d[..n - (|d| - t % |d|)])[i] {
      IdxWraps(t, i, |d|);
    }
  }

  /** Writing after the window, in one or two pieces, appends to it. */
  lemma WindowAppend(d: seq<byte>, t: nat, n: nat, src: seq<byte>)
    requires |d| > 0 && n + |src| <= |d|
    ensures var p := Idx(t, n, |d|);
            var first := Min(|src|, |d| - p);
            var d' := Splice(Splice(d, p, src[..first]), 0, src[first..]);
            Window(d', t, n + |src|) == Window(d, t, n) + src
  {
    var c, p := |d|, Idx(t, n, |d|);
    var first := Min(|src|, c - p);
    var d1 := Splice(d, p, src[..first]);
    var d' := Splice(d1, 0, src[first..]);
    forall i | 0 <= i < n + |src| ensures d'[Idx(t, i, c)] == (Window(d, t, n) + src)[i] {
      var k := Idx(t, i, c);
      if i >= n {
        IdxWraps(t + n, i - n, c);
        assert Idx(t + n, i - n, c) == k;
      } else {
        OutsideSlot(t, n, |src|, i, c);
        assert !(p <= k < p + first) && !(k < |src| - first);
      }
    }
  }

  /** A queued byte's slot is none of the `m` slots after the last one. */
  lemma OutsideSlot(t: nat, n: nat, m: nat, i: nat, c: nat)
    requires c > 0 && n + m <= c && i < n
    ensures var p := Idx(t, n, c); var k := Idx(t, i, c);
            !(p <= k < p + m) && !(k < p + m - c)
  {
    var p, k := Idx(t, n, c), Idx(t, i, c);
    if p <= k < p + m {
      var j := k - p;
      IdxWraps(t + n, j, c);
      assert (t + n) % c == p;
      SlotsDiffer(t + i, t + n + j, c);
    }
    if k < p + m - c {
      var j := k + c - p;
      IdxWraps(t + n, j, c);
      assert (t + n) % c == p;
      SlotsDiffer(t + i, t + n + j, c);
    }
  }

  /** Unsigned sizes: adding to the head or the tail by no more than fits. */
  lemma SizeAfterAdd(h: nat, t: nat, n: nat)
    requires h < WORD && t < WORD && WSub(h, t) + n < WORD
    ensures WSub(WAdd(h, n), t) == WSub(h, t) + n
  {
    var q, q' := (h - t) / WORD, (h + n) / WORD;
    assert WAdd(h, n) == h + n - q' * WORD;
    ModUnique(WAdd(h, n) - t, q - q', WSub(h, t) + n, WORD);
  }

  lemma SizeAfterTake(h: nat, t: nat, n: nat)
    requires h < WORD && t < WORD && n <= WSub(h, t)
    ensures WSub(h, WAdd(t, n)) == WSub(h, t) - n
  {
    var q, q' := (h - t) / WORD, (t + n) / WORD;
    assert WAdd(t, n) == t + n - q' * WORD;
    ModUnique(h - WAdd(t, n), q + q', WSub(h, t) - n, WORD);
  }

  lemma AddBack(h: nat, t: nat)
    requires h < WORD && t < WORD
    ensures (t + WSub(h, t)) % WORD == h
  {
    ModUnique(t + WSub(h, t), -((h - t) / WORD), h, WORD);
  }

  /** The head's slot is the slot after the last queued byte. */
  lemma HeadSlot(h: nat, t: nat, c: nat)
    requires IsCapacity(c) && c > 0 && h < WORD && t < WORD
    ensures h % c == Idx(t, WSub(h, t), c)
  {
    AddBack(h, t);
    WrappedSlot(h, t, WSub(h, t), c);
  }

  lemma WrappedSlot(h: nat, t: nat, d: nat, c: nat)
    requires IsCapacity(c) && c > 0 && (t + d) % WORD == h
    ensures h % c == Idx(t, d, c)
  {
    WrappedMod(t + d, c);
  }

  /** Moving the tail drops the oldest bytes of the window. */
  lemma WindowAfterTake(d: seq<byte>, h: nat, t: nat, n: nat)
    requires IsCapacity(|d|) && |d| > 0 && h < WORD && t < WORD && n <= WSub(h, t)
    ensures WSub(h, WAdd(t, n)) == WSub(h, t) - n
    ensures Window(d, WAdd(t, n), WSub(h, t) - n) == Window(d, t, WSub(h, t))[n..]
  {
    SizeAfterTake(h, t, n);
    WindowSplit(d, t, WSub(h, t), n);
    WindowOfWord(d, t + n, WSub(h, t) - n);
  }

  // ---- The ring object ----

  method CopyIn(data: array<byte>, at: nat, src: seq<byte>)
    requires at + |src| <= data.Length
    modifies data
    ensures data[..] == Splice(old(data[..]), at, src)
  {
    for i := 0 to |src|
      invariant forall k | 0 <= k < data.Length ::
                  data[k] == if at <= k < at + i then src[k - at] else old(data[k])
    {
      data[at + i] := src[i];
    }
    SpliceAt(old(data[..]), at, src, data[..]);
  }

  lemma SpliceAt(d: seq<byte>, at: nat, src: seq<byte>, r: seq<byte>)
    requires at + |src| <= |d| == |r|
    requires forall k | 0 <= k < |d| :: r[k] == if at <= k < at + |src| then src[k - at] else d[k]
    ensures r == Splice(d, at, src)
  {}

  class FixedCircularBuffer {
    const data: array<byte>
    var head: nat
    var tail: nat

    ghost predicate Valid()
      reads this
    {
      && IsCapacity(data.Length) && 0 < data.Length && 2 * data.Length <= WORD
      && head < WORD && tail < WORD && Size() <= data.Length
    }

    /** The queued bytes, oldest first. */
    ghost function Contents(): (s: seq<byte>)
      requires Valid()
      reads this, data
      ensures |s| == Size()
    {
      Window(data[..], tail, Size())
    }

    constructor (capacity: nat)
      requires IsCapacity(capacity)
      ensures Valid() && fresh(data) && data.Length == capacity && Contents() == []
    {
      CapacityDividesWord(capacity);
      data := new byte[capacity];
      head, tail := 0, 0;
    }

    function Size(): nat
      reads this
    {
      WSub(head, tail)
    }

    /** How many bytes fit behind the queued ones without wrapping. */
    ghost function FreeRun(): (n: nat)
      requires Valid()
      reads this
      ensures n == 0 <==> Size() == data.Length
    {
      Min(data.Length - Idx(tail, Size(), data.Length), data.Length - Size())
    }

    /** Where the next bytes go, and how many fit there. */
    method WriteHead() returns (pos: nat, len: nat)
      requires Valid()
      ensures len == FreeRun() && pos == Idx(tail, Size(), data.Length) && pos + len <= data.Length
    {
      HeadSlot(head, tail, data.Length);
      pos := Slot(head, data.Length);
      len := Min(data.Length - pos, data.Length - Size());
    }

    /** Counts `n` bytes, already in place behind the queued ones. */
    method AdvanceHead(n: nat)
      requires Valid() && n <= data.Length - Size()
      modifies this`head
      ensures Valid() && Contents() == Window(data[..], tail, old(Size()) + n)
    {
      SizeAfterAdd(head, tail, n);
      head := WAdd(head, n);
    }

    /** Copies in as much of `src` as there is room for, in at most two pieces. */
    method Write(src: seq<byte>) returns (n: nat)
      requires Valid()
      modifies this`head, data
      ensures Valid() && n == Min(|src|, data.Length - old(Size()))
      ensures Contents() == old(Contents()) + src[..n]
    {
      n := Min(|src|, data.Length - Size());
      if n == 0 {
        return;
      }
      WindowAppend(data[..], tail, Size(), src[..n]);
      HeadSlot(head, tail, data.Length);
      var pos := Slot(head, data.Length);
      var first := Min(n, data.Length - pos);
      assert src[..n][..first] == src[..first] && src[..n][first..] == src[first..n];
      CopyIn(data, pos, src[..first]);
      if n > first {
        CopyIn(data, 0, src[first..n]);
      } else {
        assert data[..] == Splice(data[..], 0, src[first..n]);
      }
      AdvanceHead(n);
    }

    /** recv into the write head: the kernel fills the contiguous free piece, then the head moves. */
    method Receive(bytes: seq<byte>)
      requires Valid() && |bytes| <= FreeRun()
      modifies this`head, data
      ensures Valid() && Contents() == old(Contents()) + bytes
    {
      var pos, len := WriteHead();
      WindowAppend(data[..], tail, Size(), bytes);
      CopyIn(data, pos, bytes);
      assert bytes[..|bytes|] == bytes && data[..] == Splice(data[..], 0, bytes[|bytes|..]);
      AdvanceHead(|bytes|);
    }

    /** Where the oldest bytes are, and how many of them lie there without wrapping. */
    method ReadHead() returns (pos: nat, len: nat)
      requires Valid()
      ensures pos + len <= data.Length && len == Min(data.Length - tail % data.Length, Size())
      ensures data[pos..pos + len] == Contents()[..len]
    {
      pos := Slot(tail, data.Length);
      len := Min(data.Length - pos, Size());
      WindowSplit(data[..], tail, Size(), len);
      WindowContig(data[..], tail, len);
    }

    /** Consumes `n` bytes. */
    method AdvanceTail(n: nat)
      requires Valid() && n <= Size()
      modifies this`tail
      ensures Valid() && Contents() == old(Contents())[n..]
    {
      WindowAfterTake(data[..], head, tail, n);
      tail := WAdd(tail, n);
    }

    /** A copy of up to `len` of the oldest bytes, in at most two pieces. */
    method Peek(len: nat) returns (dst: seq<byte>)
      requires Valid()
      ensures dst == Contents()[..Min(len, Size())]
    {
      var n := Min(len, Size());
      if n == 0 {
        return [];
      }
      var pos := Slot(tail, data.Length);
      var first := Min(n, data.Length - pos);
      WindowSplit(data[..], tail, Size(), n);
      dst := data[pos..pos + first];
      if n > first {
        dst := dst + data[..n - first];
        WindowWrapped(data[..], tail, n);
      } else {
        WindowContig(data[..], tail, n);
      }
    }

    method Read(len: nat) returns (dst: seq<byte>)
      requires Valid()
      modifies this`tail
      ensures Valid() && dst + Contents() == old(Contents()) && |dst| == Min(len, old(Size()))
    {
      dst := Peek(len);
      AdvanceTail(|dst|);
    }
  }
}
