/** The partition log on values: segments of stored batches, the sparse index, and what a read returns. */
module LogModel {
  import opened Bytes
  import opened RecordBatch

  const BUFFER: nat := 65536
  const INDEX_STEP: nat := 4096

  datatype Entry = Entry(offset: int, position: nat)

  datatype Segment = Segment(base: int, batches: seq<seq<byte>>)

  /** `oldEntries` counts the index entries made for earlier segments; nothing reads it. */
  datatype Log = Log(segments: seq<Segment>, index: seq<Entry>, next: int, oldEntries: nat)

  // ---- Stored batches ----

  predicate Stored(b: seq<byte>)
  {
    HEADER <= |b| < BUFFER && I32(b, 8) == |b| - 12
  }

  function Base(b: seq<byte>): int
    requires Stored(b)
  {
    I64(b, 0)
  }

  function Count(b: seq<byte>): int
    requires Stored(b)
  {
    I32(b, 57)
  }

  /** What the log writes is a stored batch of the offset and record count it was given. */
  lemma SerializedIsStored(b: Batch)
    requires FieldsFit(b)
    ensures var s := Serialize(b, BUFFER); Stored(s) && Base(s) == b.baseOffset && Count(s) == |b.records|
  {
    var s := Serialize(b, BUFFER);
    HeaderReadsBack(b, |s| - 12, s);
    var h := ReadHeader(s);
    assert h.base == I64(s, 0) && h.length == I32(s, 8) && h.count == I32(s, 57);
  }

  ghost predicate AllStored(bs: seq<seq<byte>>)
  {
    forall i | 0 <= i < |bs| :: Stored(bs[i])
  }

  /** Bases never fall from one batch to the next. */
  ghost predicate Ascending(bs: seq<seq<byte>>)
    requires AllStored(bs)
  {
    forall i, j | 0 <= i <= j < |bs| :: Base(bs[i]) <= Base(bs[j])
  }

  // ---- Positions in a segment ----

  /** The byte position of batch `i`. */
  function Start(bs: seq<seq<byte>>, i: nat): nat
    requires i <= |bs|
  {
    if i == 0 then 0 else Start(bs, i - 1) + |bs[i - 1]|
  }

  lemma {:induction false} StartIsLength(bs: seq<seq<byte>>, i: nat)
    requires i <= |bs|
    ensures Start(bs, i) == |Flat(bs[..i])|
  {
    if i > 0 {
      StartIsLength(bs, i - 1);
      assert bs[..i] == bs[..i - 1] + [bs[i - 1]];
      FlatSnoc(bs[..i - 1], bs[i - 1]);
    }
  }

  /** Batches `i` to `j` are the bytes between their positions. */
  lemma FlatSlice(bs: seq<seq<byte>>, i: nat, j: nat)
    requires i <= j <= |bs|
    ensures Start(bs, i) <= Start(bs, j) <= |Flat(bs)|
    ensures Flat(bs)[Start(bs, i)..Start(bs, j)] == Flat(bs[i..j])
  {
    StartIsLength(bs, i);
    StartIsLength(bs, j);
    assert bs == bs[..j] + bs[j..] && bs[..j] == bs[..i] + bs[i..j];
    FlatConcat(bs[..j], bs[j..]);
    FlatConcat(bs[..i], bs[i..j]);
  }

  lemma EndIsLength(bs: seq<seq<byte>>)
    ensures Start(bs, |bs|) == |Flat(bs)|
  {
    StartIsLength(bs, |bs|);
    assert bs[..|bs|] == bs;
  }

  lemma {:induction false} StartOfPrefix(bs: seq<seq<byte>>, more: seq<seq<byte>>, i: nat)
    requires i <= |bs|
    ensures Start(bs + more, i) == Start(bs, i)
  {
    if i > 0 {
      StartOfPrefix(bs, more, i - 1);
    }
  }

  lemma BatchAt(bs: seq<seq<byte>>, i: nat)
    requires i < |bs|
    ensures Start(bs, i) + |bs[i]| == Start(bs, i + 1) <= |Flat(bs)|
    ensures Flat(bs)[Start(bs, i)..Start(bs, i) + |bs[i]|] == bs[i]
  {
    FlatSlice(bs, i, i + 1);
    assert bs[i..i + 1] == [bs[i]];
    assert Flat([bs[i]]) == bs[i] + Flat([bs[i]][1..]) == bs[i];
  }

  /** What the scan reads at a batch's position: its base and its length. */
  lemma HeaderAt(bs: seq<seq<byte>>, i: nat)
    requires AllStored(bs) && i < |bs|
    ensures var p, s := Start(bs, i), Flat(bs);
            p + |bs[i]| == Start(bs, i + 1) <= |s| && I64(s, p) == Base(bs[i]) && I32(s, p + 8) == |bs[i]| - 12
  {
    BatchAt(bs, i);
    SameInts(Flat(bs), Start(bs, i), bs[i]);
  }

  lemma SameInts(s: seq<byte>, p: nat, b: seq<byte>)
    requires p + |b| <= |s| && s[p..p + |b|] == b && |b| >= 12
    ensures I64(s, p) == I64(b, 0) && I32(s, p + 8) == I32(b, 8)
  {
    forall k | 0 <= k < 12 ensures s[p + k] == b[k] {
      assert s[p + k] == s[p..p + |b|][k];
    }
  }

  // ---- What a read returns ----

  /** The first batch whose base is at least `start`. */
  function FirstFrom(bs: seq<seq<byte>>, start: int): (i: nat)
    requires forall k | 0 <= k < |bs| :: Stored(bs[k])
    ensures i <= |bs| && (forall k | 0 <= k < i :: Base(bs[k]) < start) && (i < |bs| ==> Base(bs[i]) >= start)
  {
    if bs == [] then 0 else if Base(bs[0]) >= start then 0 else 1 + FirstFrom(bs[1..], start)
  }

  /** The first position behind batch `i`, batch boundaries only, where at least `max` bytes have been taken; else the end. */
  function StopAt(bs: seq<seq<byte>>, i: nat, j: nat, max: int): (k: nat)
    requires i < j <= |bs|
    ensures j <= k <= |bs|
    ensures k < |bs| ==> Start(bs, k) - Start(bs, i) >= max
    ensures forall m: nat | j <= m < k :: Start(bs, m) - Start(bs, i) < max
    decreases |bs| - j
  {
    if j == |bs| || Start(bs, j) - Start(bs, i) >= max then j else StopAt(bs, i, j + 1, max)
  }

  /** Batches `first` up to `last`. */
  datatype Span = Span(first: nat, last: nat)

  /** The batches a read returns. */
  function ReadRange(bs: seq<seq<byte>>, start: int, max: int): (r: Span)
    requires forall k | 0 <= k < |bs| :: Stored(bs[k])
    ensures r.first <= r.last <= |bs|
  {
    var i := FirstFrom(bs, start);
    if i == |bs| then Span(i, i) else Span(i, StopAt(bs, i, i + 1, max))
  }

  /** The scan stands before batch `m`, `i` the first wanted: still skipping, or taking batches and not yet at `max` bytes. */
  ghost predicate Scanning(bs: seq<seq<byte>>, i: nat, max: int, m: nat, found: bool, startPos: nat, scan: nat)
  {
    && i <= |bs| && m <= |bs| && scan == Start(bs, m)
    && if found then i < m && startPos == Start(bs, i) && forall k: nat | i < k <= m :: Start(bs, k) - startPos < max
       else m <= i && startPos == scan
  }

  /** The scan is over: it has batches `i` up to the first boundary with `max` bytes. */
  ghost predicate Scanned(bs: seq<seq<byte>>, i: nat, max: int, startPos: nat, scan: nat)
  {
    && i <= |bs| && startPos == Start(bs, i)
    && scan == Start(bs, if i == |bs| then i else StopAt(bs, i, i + 1, max))
  }

  lemma SkipOne(bs: seq<seq<byte>>, i: nat, max: int, m: nat, startPos: nat, scan: nat)
    requires Scanning(bs, i, max, m, false, startPos, scan) && m < i
    ensures Scanning(bs, i, max, m + 1, false, scan + |bs[m]|, scan + |bs[m]|)
  {}

  lemma TakeOne(bs: seq<seq<byte>>, i: nat, max: int, m: nat, found: bool, startPos: nat, scan: nat)
    requires Scanning(bs, i, max, m, found, startPos, scan) && m < |bs| && (found || m == i)
    ensures var end := scan + |bs[m]|;
            if end - startPos < max then Scanning(bs, i, max, m + 1, true, startPos, end)
            else Scanned(bs, i, max, startPos, end)
  {
    if Start(bs, m + 1) - startPos >= max {
      StopIs(bs, i, m + 1, max);
    }
  }

  lemma ScanEnds(bs: seq<seq<byte>>, i: nat, max: int, m: nat, found: bool, startPos: nat, scan: nat)
    requires Scanning(bs, i, max, m, found, startPos, scan) && m == |bs|
    ensures Scanned(bs, i, max, startPos, scan)
  {
    if found {
      StopIs(bs, i, m, max);
    }
  }

  /** Up to the first wanted batch, the base decides. */
  lemma BaseDecides(bs: seq<seq<byte>>, start: int, m: nat)
    requires AllStored(bs) && m <= FirstFrom(bs, start) && m < |bs|
    ensures Base(bs[m]) >= start <==> m == FirstFrom(bs, start)
  {}

  /** Fewer than twelve bytes behind a batch boundary means none. */
  lemma MoreBytesMoreBatches(bs: seq<seq<byte>>, m: nat)
    requires AllStored(bs) && m <= |bs|
    ensures Start(bs, m) <= |Flat(bs)|
    ensures Start(bs, m) + 12 <= |Flat(bs)| <==> m < |bs|
  {
    if m < |bs| {
      HeaderAt(bs, m);
    } else {
      EndIsLength(bs);
    }
  }

  // ---- The scan ----

  datatype Head = Head(base: int, len: int)

  type Heads = int -> Head

  /** Base offset and length at a position. */
  function HeadsOf(seg: seq<byte>): Heads
  {
    (p: int) => if 0 <= p && p + 12 <= |seg| then Head(I64(seg, p), I32(seg, p + 8)) else Head(0, 0)
  }

  /** The bytes a read returns, by position. */
  datatype Found = Found(from: int, to: int)

  /** The scan over any bytes: skips batches below `start`, then takes whole batches until `max` bytes. */
  function Scan(heads: Heads, size: int, scan: int, from: int, found: bool, start: int, max: int): Found
    decreases size - scan
  {
    if scan + 12 > size then Found(from, scan)
    else
      var h := heads(scan);
      var end := scan + 12 + h.len;
      if h.len <= 0 || end > size then Found(from, scan)
      else if !found && h.base < start then Scan(heads, size, end, end, false, start, max)
      else
        var first := if found then from else scan;
        if end - first >= max then Found(first, end) else Scan(heads, size, end, first, true, start, max)
  }

  /** It never goes back. */
  lemma {:induction false} ScanGoesOn(heads: Heads, size: int, scan: int, from: int, found: bool, start: int, max: int)
    requires from <= scan <= size
    ensures var f := Scan(heads, size, scan, from, found, start, max); from <= f.from <= f.to <= size
    decreases size - scan
  {
    if scan + 12 <= size {
      var h := heads(scan);
      var end := scan + 12 + h.len;
      if h.len > 0 && end <= size {
        if !found && h.base < start {
          ScanGoesOn(heads, size, end, end, false, start, max);
        } else {
          ScanGoesOn(heads, size, end, if found then from else scan, true, start, max);
        }
      }
    }
  }

  /** At batch `k` its length is read, and up to the first wanted batch `i` the base read tells if it is that one. */
  ghost predicate Marks(heads: Heads, bs: seq<seq<byte>>, i: nat, start: int, k: nat)
    requires k < |bs|
  {
    var h := heads(Start(bs, k));
    12 < |bs[k]| == h.len + 12 && (k <= i ==> (h.base >= start <==> k == i))
  }

  ghost predicate Marked(heads: Heads, bs: seq<seq<byte>>, i: nat, start: int)
  {
    forall k: nat | k < |bs| :: Marks(heads, bs, i, start, k)
  }

  lemma FlatIsMarked(bs: seq<seq<byte>>, start: int)
    requires AllStored(bs)
    ensures Marked(HeadsOf(Flat(bs)), bs, FirstFrom(bs, start), start)
  {
    var i := FirstFrom(bs, start);
    forall k: nat | k < |bs| ensures Marks(HeadsOf(Flat(bs)), bs, i, start, k) {
      HeaderAt(bs, k);
      if k <= i {
        BaseDecides(bs, start, k);
      }
    }
  }

  lemma {:induction false} StartGrows(bs: seq<seq<byte>>, i: nat, j: nat)
    requires i <= j <= |bs|
    ensures Start(bs, i) <= Start(bs, j)
  {
    if i < j {
      StartGrows(bs, i, j - 1);
    }
  }

  lemma {:induction false} ScanFindsRange(heads: Heads, bs: seq<seq<byte>>, i: nat, m: nat, found: bool, from: nat, scan: nat, start: int, max: int)
    requires Marked(heads, bs, i, start) && Scanning(bs, i, max, m, found, from, scan)
    ensures var f := Scan(heads, Start(bs, |bs|), scan, from, found, start, max);
            0 <= f.from && 0 <= f.to && Scanned(bs, i, max, f.from, f.to)
    decreases |bs| - m
  {
    if m == |bs| {
      ScanEnds(bs, i, max, m, found, from, scan);
    } else {
      assert Marks(heads, bs, i, start, m);
      StartGrows(bs, m + 1, |bs|);
      var end := scan + |bs[m]|;
      if !found && m < i {
        SkipOne(bs, i, max, m, from, scan);
        ScanFindsRange(heads, bs, i, m + 1, false, end, end, start, max);
      } else {
        var first := if found then from else scan;
        TakeOne(bs, i, max, m, found, from, scan);
        if end - first < max {
          ScanFindsRange(heads, bs, i, m + 1, true, first, end, start, max);
        }
      }
    }
  }

  /** Over stored batches, from any batch at or before the first wanted one, the scan finds what a scan from byte 0 finds. */
  lemma ScanFromBatch(bs: seq<seq<byte>>, at: nat, start: int, max: int)
    requires AllStored(bs) && at <= FirstFrom(bs, start)
    ensures var f := Scan(HeadsOf(Flat(bs)), |Flat(bs)|, Start(bs, at), Start(bs, at), false, start, max);
            0 <= f.from && 0 <= f.to && Scanned(bs, FirstFrom(bs, start), max, f.from, f.to)
  {
    FlatIsMarked(bs, start);
    EndIsLength(bs);
    ScanFindsRange(HeadsOf(Flat(bs)), bs, FirstFrom(bs, start), at, false, Start(bs, at), Start(bs, at), start, max);
  }

  /** `heads` is the reader of these bytes, said so that it is not unfolded at every use. */
  ghost predicate IsHeads(heads: Heads, seg: seq<byte>)
  {
    forall p: int :: ReadsHead(heads, seg, p)
  }

  ghost predicate ReadsHead(heads: Heads, seg: seq<byte>, p: int)
  {
    heads(p) == HeadsOf(seg)(p)
  }

  method ReadHead(seg: seq<byte>, scan: nat, ghost heads: Heads) returns (h: Head)
    requires IsHeads(heads, seg) && scan + 12 <= |seg|
    ensures h == heads(scan)
  {
    assert ReadsHead(heads, seg, scan);
    h := Head(I64(seg, scan), I32(seg, scan + 8));
  }

  method ScanLoop(seg: seq<byte>, pos: nat, start: int, max: int, ghost heads: Heads) returns (from: int, to: int)
    requires pos <= |seg| && IsHeads(heads, seg)
    ensures Found(from, to) == Scan(heads, |seg|, pos, pos, false, start, max)
  {
    var scan: nat, startPos: nat, found := pos, pos, false;
    ghost var whole := Scan(heads, |seg|, pos, pos, false, start, max);
    while scan + 12 <= |seg|
      invariant startPos <= scan <= |seg| && whole == Scan(heads, |seg|, scan, startPos, found, start, max)
      decreases |seg| - scan
    {
      var h := ReadHead(seg, scan, heads);
      if h.len <= 0 {
        break;
      }
      var total := 12 + h.len;
      if scan + total > |seg| {
        break;
      }
      if !found {
        if h.base >= start {
          startPos, found := scan, true;
        } else {
          scan := scan + total;
          startPos := scan;
          continue;
        }
      }
      scan := scan + total;
      if scan - startPos >= max {
        break;
      }
    }
    return startPos, scan;
  }

  /** The scan of a read from byte `pos`. */
  method ScanFrom(seg: seq<byte>, pos: nat, start: int, max: int) returns (from: int, to: int)
    requires pos <= |seg|
    ensures Found(from, to) == Scan(HeadsOf(seg), |seg|, pos, pos, false, start, max)
  {
    from, to := ScanLoop(seg, pos, start, max, HeadsOf(seg));
  }

  lemma StopIs(bs: seq<seq<byte>>, i: nat, m: nat, max: int)
    requires i < m <= |bs| && (forall k: nat | i < k < m :: Start(bs, k) - Start(bs, i) < max)
    requires m == |bs| || Start(bs, m) - Start(bs, i) >= max
    ensures StopAt(bs, i, i + 1, max) == m
  {}

  /** A scanned range is the bytes of whole batches. */
  lemma ScannedIsRange(bs: seq<seq<byte>>, start: int, max: int, startPos: nat, scan: nat)
    requires AllStored(bs) && Scanned(bs, FirstFrom(bs, start), max, startPos, scan)
    ensures var range := ReadRange(bs, start, max);
            startPos <= scan <= |Flat(bs)| && Flat(bs)[startPos..scan] == Flat(bs[range.first..range.last])
  {
    var range := ReadRange(bs, start, max);
    FlatSlice(bs, range.first, range.last);
  }
}
