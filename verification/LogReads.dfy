/** What a read returns, against all the batches the log holds: earlier segments included. */
module LogReads {
  import opened Bytes
  import opened RecordBatch
  import opened LogModel
  import opened LogRuns
  import opened RestPeek
  import opened Varint

  /** The bytes of a segment a read returns from a looked-up position. */
  function SegmentRead(seg: seq<byte>, pos: nat, start: int, max: int): Found
  {
    if |seg| == 0 || pos >= |seg| then Found(0, 0) else Scan(HeadsOf(seg), |seg|, pos, pos, false, start, max)
  }

  /** The bytes of the active segment a read returns, by position. */
  function ReadOf(l: Log, start: int, max: int): Found
    requires l.segments != []
  {
    if start >= l.next then Found(0, 0) else SegmentRead(Flat(Active(l).batches), Lookup(l.index, start), start, max)
  }

  lemma ReadIsInSegment(l: Log, start: int, max: int)
    requires l.segments != []
    ensures var f := ReadOf(l, start, max); 0 <= f.from <= f.to <= |Flat(Active(l).batches)|
  {
    var seg, pos := Flat(Active(l).batches), Lookup(l.index, start);
    if pos < |seg| {
      ScanGoesOn(HeadsOf(seg), |seg|, pos, pos, false, start, max);
    }
  }

  /** The batches of the segments before the active one. */
  function Earlier(l: Log): seq<seq<byte>>
    requires l.segments != []
  {
    AllBatches(l.segments[..|l.segments| - 1])
  }

  lemma AllIsEarlierAndActive(l: Log)
    requires l.segments != []
    ensures AllBatches(l.segments) == Earlier(l) + Active(l).batches
  {}

  // ---- What every append keeps of the whole log ----

  /** The base of the last batch. */
  function LastBase(bs: seq<seq<byte>>): int
    requires bs != [] && Stored(bs[|bs| - 1])
  {
    Base(bs[|bs| - 1])
  }

  /** Bases ascend over all segments, and entries made before the last roll name batches of earlier segments. */
  ghost predicate OldEntries(e: seq<seq<byte>>, index: seq<Entry>, made: nat)
    requires AllStored(e)
  {
    && made <= |index| && (e != [] <==> made > 0)
    && forall k | 0 <= k < made :: e != [] && index[k].offset <= LastBase(e)
  }

  ghost predicate Whole(l: Log)
  {
    && l.segments != [] && Between(Earlier(l) + Active(l).batches, 0, l.next) && AllStored(Earlier(l)) && 0 <= l.next
    && OldEntries(Earlier(l), l.index, l.oldEntries)
  }

  lemma PlaceEarlier(l: Log, b: seq<byte>)
    requires l.segments != []
    ensures var p := Place(l, b); Earlier(p) == Earlier(l) && Active(p).batches == Active(l).batches + [b]
  {
    var n := |l.segments| - 1;
    assert Place(l, b).segments[..n] == l.segments[..n];
  }

  lemma PlaceWhole(l: Log, b: seq<byte>)
    requires Whole(l) && Stored(b) && Base(b) == l.next
    ensures Whole(Place(l, b))
  {
    PlaceEarlier(l, b);
    var e, bs := Earlier(l), Active(l).batches;
    BetweenStays(e + bs, b, 0, l.next);
    assert (e + bs) + [b] == e + (bs + [b]);
  }

  lemma LastIsHighest(bs: seq<seq<byte>>, i: nat)
    requires AllStored(bs) && Ascending(bs) && i < |bs|
    ensures Base(bs[i]) <= LastBase(bs)
  {}

  lemma RollEntries(e: seq<seq<byte>>, bs: seq<seq<byte>>, index: seq<Entry>, made: nat, base: int, next: int)
    requires AllStored(e) && AllStored(bs) && AllStored(e + bs) && Ascending(e + bs)
    requires OldEntries(e, index, made) && Indexed(bs, index, made, base, next)
    ensures OldEntries(e + bs, index, |index|)
  {
    var all := e + bs;
    forall k | 0 <= k < |index| ensures all != [] && index[k].offset <= LastBase(all) {
      if k < made {
        assert all[|e| - 1] == e[|e| - 1];
        LastIsHighest(all, |e| - 1);
      } else {
        assert Points(bs, index[k]);
        var i: nat :| i < |bs| && index[k].offset == Base(bs[i]) && index[k].position == Start(bs, i);
        assert all[|e| + i] == bs[i];
        LastIsHighest(all, |e| + i);
      }
    }
  }

  lemma RollEarlier(l: Log)
    requires l.segments != []
    ensures var r := Roll(l); Earlier(r) == Earlier(l) + Active(l).batches && Active(r).batches == []
  {
    var r := Roll(l);
    assert r.segments[..|r.segments| - 1] == l.segments;
  }

  lemma RollWhole(l: Log)
    requires Whole(l) && Inv(l)
    ensures Whole(Roll(l))
  {
    var e, s := Earlier(l), Active(l);
    RollEarlier(l);
    RollEntries(e, s.batches, l.index, l.oldEntries, s.base, l.next);
    assert (e + s.batches) + [] == e + s.batches;
  }

  lemma LaterWhole(l: Log, n: nat)
    requires Whole(l)
    ensures Whole(l.(next := l.next + n))
  {
    var m := l.(next := l.next + n);
    assert Earlier(m) == Earlier(l) && Active(m) == Active(l);
  }

  lemma AppendWhole(l: Log, b: seq<byte>, n: nat, size: nat)
    requires Whole(l) && Inv(l) && Stored(b) && Base(b) == l.next
    ensures Whole(LogRuns.Append(l, b, n, size))
  {
    if !HasRoom(l, b, size) {
      RollWhole(l);
    }
    var r := MakeRoom(l, b, size);
    if HasRoom(r, b, size) {
      PlaceWhole(r, b);
    }
    LaterWhole(Store(r, b, size), n);
  }

  lemma AppendBatchWhole(l: Log, b: Batch, size: nat)
    requires Whole(l) && Inv(l) && l.next < P64 / 2 && FieldsFit(b.(baseOffset := 0))
    ensures Whole(AppendBatch(l, b, size))
  {
    var c := b.(baseOffset := l.next);
    SerializedIsStored(c);
    AppendWhole(l, Serialize(c, BUFFER), |b.records|, size);
  }

  lemma FreshWhole()
    ensures Whole(Fresh())
  {
    assert Fresh().segments[..0] == [];
  }

  lemma StepWhole(run: seq<Log>, batches: seq<Batch>, k: nat, size: nat)
    requires IsRun(run, batches, size) && Appendable(batches) && k < |batches| && Inv(run[k]) && Whole(run[k])
    ensures Whole(run[k + 1])
  {
    NextIsTotal(run, batches, k, size);
    TotalGrows(batches, k, |batches|);
    AppendBatchWhole(run[k], batches[k], size);
    assert Appended(run, batches, k, size);
  }

  lemma {:induction false} RunWhole(run: seq<Log>, batches: seq<Batch>, k: nat, size: nat)
    requires IsRun(run, batches, size) && Appendable(batches) && k <= |batches|
    ensures Whole(run[k])
  {
    if k == 0 {
      FreshWhole();
    } else {
      RunWhole(run, batches, k - 1, size);
      RunKeeps(run, batches, k - 1, size);
      StepWhole(run, batches, k - 1, size);
    }
  }

  // ---- A read against the whole log ----

  lemma FirstIs(bs: seq<seq<byte>>, start: int, i: nat)
    requires AllStored(bs) && i <= |bs| && (forall k | 0 <= k < i :: Base(bs[k]) < start) && (i < |bs| ==> Base(bs[i]) >= start)
    ensures FirstFrom(bs, start) == i
  {}

  lemma {:induction false} StartShift(e: seq<seq<byte>>, bs: seq<seq<byte>>, k: nat)
    requires k <= |bs|
    ensures Start(e + bs, |e| + k) == Start(e, |e|) + Start(bs, k)
  {
    if k == 0 {
      StartOfPrefix(e, bs, |e|);
    } else {
      StartShift(e, bs, k - 1);
      assert (e + bs)[|e| + k - 1] == bs[k - 1];
    }
  }

  lemma StopShift(e: seq<seq<byte>>, bs: seq<seq<byte>>, i: nat, max: int)
    requires i < |bs|
    ensures StopAt(e + bs, |e| + i, |e| + i + 1, max) == |e| + StopAt(bs, i, i + 1, max)
  {
    var all, n, j := e + bs, |e|, StopAt(bs, i, i + 1, max);
    StartShift(e, bs, i);
    StartShift(e, bs, j);
    forall k: nat | n + i < k < n + j ensures Start(all, k) - Start(all, n + i) < max {
      StartShift(e, bs, k - n);
    }
    StopIs(all, n + i, n + j, max);
  }

  /** The span of a read whose first batch is `i`. */
  function SpanFrom(bs: seq<seq<byte>>, i: nat, max: int): Span
    requires i <= |bs|
  {
    if i == |bs| then Span(i, i) else Span(i, StopAt(bs, i, i + 1, max))
  }

  lemma RangeIs(bs: seq<seq<byte>>, start: int, max: int, i: nat)
    requires AllStored(bs) && FirstFrom(bs, start) == i
    ensures ReadRange(bs, start, max) == SpanFrom(bs, i, max)
  {}

  lemma SpanShift(e: seq<seq<byte>>, bs: seq<seq<byte>>, i: nat, max: int)
    requires i <= |bs|
    ensures var r := SpanFrom(bs, i, max); SpanFrom(e + bs, |e| + i, max) == Span(|e| + r.first, |e| + r.last)
  {
    if i < |bs| {
      StopShift(e, bs, i, max);
    }
  }

  /** If no earlier batch is wanted, the whole log's range is the active segment's. */
  lemma RangeShift(e: seq<seq<byte>>, bs: seq<seq<byte>>, start: int, max: int)
    requires AllStored(e + bs) && AllStored(bs) && forall k | 0 <= k < |e| :: Base((e + bs)[k]) < start
    ensures var r, all := ReadRange(bs, start, max), ReadRange(e + bs, start, max); all == Span(|e| + r.first, |e| + r.last)
  {
    var i := FirstFrom(bs, start);
    FirstShift(e, bs, start);
    RangeIs(bs, start, max, i);
    RangeIs(e + bs, start, max, |e| + i);
    SpanShift(e, bs, i, max);
  }

  lemma FirstShift(e: seq<seq<byte>>, bs: seq<seq<byte>>, start: int)
    requires AllStored(e + bs) && AllStored(bs) && forall k | 0 <= k < |e| :: Base((e + bs)[k]) < start
    ensures FirstFrom(e + bs, start) == |e| + FirstFrom(bs, start)
  {
    var i := FirstFrom(bs, start);
    forall k | 0 <= k < |e| + i ensures Base((e + bs)[k]) < start {
      if k >= |e| {
        assert (e + bs)[k] == bs[k - |e|];
      }
    }
    assert i < |bs| ==> (e + bs)[|e| + i] == bs[i];
    FirstIs(e + bs, start, |e| + i);
  }

  /** If the last earlier batch is wanted, the whole log's range starts before the active segment. */
  lemma RangeEarlier(e: seq<seq<byte>>, bs: seq<seq<byte>>, start: int, max: int)
    requires AllStored(e) && AllStored(e + bs) && e != [] && LastBase(e) >= start
    ensures var all := ReadRange(e + bs, start, max); all.first < |e| && all.first < all.last
  {
    assert (e + bs)[|e| - 1] == e[|e| - 1];
    assert FirstFrom(e + bs, start) <= |e| - 1;
  }

  /** The bytes found are batches `r.first` up to `r.last`; none if that is empty. */
  ghost predicate IsRange(bs: seq<seq<byte>>, f: Found, r: Span)
    requires r.first <= r.last <= |bs|
  {
    if r.first == r.last then f.from == f.to else f.from == Start(bs, r.first) && f.to == Start(bs, r.last)
  }

  /** The same, counting the batches of all segments. */
  ghost predicate Returns(e: seq<seq<byte>>, bs: seq<seq<byte>>, f: Found, r: Span)
    requires r.first <= r.last <= |e| + |bs|
  {
    if r.first == r.last then f.from == f.to else |e| <= r.first && IsRange(bs, f, Span(r.first - |e|, r.last - |e|))
  }

  /** From a right position, the read is that of the segment's batches. */
  lemma RightPosition(bs: seq<seq<byte>>, start: int, max: int, at: nat)
    requires AllStored(bs) && at <= FirstFrom(bs, start)
    ensures IsRange(bs, SegmentRead(Flat(bs), Start(bs, at), start, max), ReadRange(bs, start, max))
  {
    MoreBytesMoreBatches(bs, at);
    if at < |bs| {
      ScanFromBatch(bs, at, start, max);
      ScannedRange(bs, start, max, Scan(HeadsOf(Flat(bs)), |Flat(bs)|, Start(bs, at), Start(bs, at), false, start, max));
    }
  }

  lemma ScannedRange(bs: seq<seq<byte>>, start: int, max: int, f: Found)
    requires AllStored(bs) && 0 <= f.from && 0 <= f.to && Scanned(bs, FirstFrom(bs, start), max, f.from, f.to)
    ensures IsRange(bs, f, ReadRange(bs, start, max))
  {}

  /** Nothing wanted lies in earlier segments, and the index leads to the right place. */
  ghost predicate Complete(l: Log, start: int)
    requires Whole(l) && Inv(l)
  {
    var e, bs := Earlier(l), Active(l).batches;
    || e == []
    || (if bs == [] then LastBase(e) < start
        else start > Base(bs[0]) || (LastBase(e) < start && l.index[l.oldEntries - 1].position == 0))
  }

  /** Between the last earlier batch and the first active one, the lookup ends at the last entry before the roll. */
  lemma LookupAtRoll(l: Log, start: int)
    requires Whole(l) && Inv(l) && Earlier(l) != [] && Active(l).batches != []
    requires LastBase(Earlier(l)) < start <= Base(Active(l).batches[0])
    ensures Lookup(l.index, start) == l.index[l.oldEntries - 1].position
  {
    assert LowerBound(l.index, start) == l.oldEntries;
  }

  lemma EarlierBelow(l: Log, start: int)
    requires Whole(l) && (Earlier(l) == [] || LastBase(Earlier(l)) < start)
    ensures AllStored(Earlier(l) + Active(l).batches)
    ensures forall k | 0 <= k < |Earlier(l)| :: Base((Earlier(l) + Active(l).batches)[k]) < start
  {
    var e, all := Earlier(l), Earlier(l) + Active(l).batches;
    forall k | 0 <= k < |e| ensures Base(all[k]) < start {
      assert all[|e| - 1] == e[|e| - 1];
      assert Base(all[k]) <= Base(all[|e| - 1]);
    }
  }

  /** A complete read wants nothing of earlier segments. */
  lemma CompleteIsLate(l: Log, start: int)
    requires Whole(l) && Inv(l) && Complete(l, start)
    ensures Earlier(l) == [] || LastBase(Earlier(l)) < start
  {
    var e, bs := Earlier(l), Active(l).batches;
    if e != [] && bs != [] && start > Base(bs[0]) {
      assert (e + bs)[|e|] == bs[0] && (e + bs)[|e| - 1] == e[|e| - 1];
      assert Base((e + bs)[|e| - 1]) <= Base((e + bs)[|e|]);
    }
  }

  lemma ShiftReturns(e: seq<seq<byte>>, bs: seq<seq<byte>>, f: Found, start: int, max: int)
    requires AllStored(bs) && IsRange(bs, f, ReadRange(bs, start, max))
    requires AllStored(e + bs) && forall k | 0 <= k < |e| :: Base((e + bs)[k]) < start
    ensures Returns(e, bs, f, ReadRange(e + bs, start, max))
  {
    RangeShift(e, bs, start, max);
  }

  lemma CompleteActive(l: Log, start: int, max: int)
    requires Whole(l) && Inv(l) && start < l.next && Complete(l, start)
    ensures IsRange(Active(l).batches, ReadOf(l, start, max), ReadRange(Active(l).batches, start, max))
  {
    var bs := Active(l).batches;
    if bs == [] {
      RightPosition(bs, start, max, 0);
    } else {
      var at := RightPlace(l, start);
      RightPosition(bs, start, max, at);
    }
  }

  lemma CompleteReturns(l: Log, start: int, max: int)
    requires Whole(l) && Inv(l) && start < l.next && Complete(l, start)
    ensures Returns(Earlier(l), Active(l).batches, ReadOf(l, start, max), ReadRange(Earlier(l) + Active(l).batches, start, max))
  {
    CompleteActive(l, start, max);
    CompleteIsLate(l, start);
    EarlierBelow(l, start);
    ShiftReturns(Earlier(l), Active(l).batches, ReadOf(l, start, max), start, max);
  }

  lemma RightPlace(l: Log, start: int) returns (at: nat)
    requires Whole(l) && Inv(l) && Complete(l, start) && Active(l).batches != []
    ensures at <= FirstFrom(Active(l).batches, start) && Lookup(l.index, start) == Start(Active(l).batches, at)
  {
    var bs := Active(l).batches;
    if Earlier(l) == [] || start > Base(bs[0]) {
      LookupSeeksRight(l, start);
      at :| at <= FirstFrom(bs, start) && Lookup(l.index, start) == Start(bs, at);
    } else {
      LookupAtRoll(l, start);
      at := 0;
    }
  }

  lemma IncompleteMisses(l: Log, start: int, max: int)
    requires Whole(l) && Inv(l) && start < l.next && !Complete(l, start)
    ensures !Returns(Earlier(l), Active(l).batches, ReadOf(l, start, max), ReadRange(Earlier(l) + Active(l).batches, start, max))
  {
    var e, bs := Earlier(l), Active(l).batches;
    if LastBase(e) >= start {
      RangeEarlier(e, bs, start, max);
    } else {
      EarlierBelow(l, start);
      RangeShift(e, bs, start, max);
      LookupAtRoll(l, start);
      var pos, seg := Lookup(l.index, start), Flat(bs);
      StartGrows(bs, 1, ReadRange(bs, start, max).last);
      if pos < |seg| {
        ScanGoesOn(HeadsOf(seg), |seg|, pos, pos, false, start, max);
      }
    }
  }

  /**
   In every reachable log, for every start below the next offset and every budget, a read returns the batches a scan
   of all the log's batches would return exactly when no batch of an earlier segment is wanted and the start is
   behind the active segment's first batch, or the last index entry made before the roll is at byte 0.
   */
  lemma ReadsWholeLogIff(l: Log, start: int, max: int)
    requires Whole(l) && Inv(l) && start < l.next
    ensures Returns(Earlier(l), Active(l).batches, ReadOf(l, start, max), ReadRange(Earlier(l) + Active(l).batches, start, max))
       <==> Complete(l, start)
  {
    if Complete(l, start) {
      CompleteReturns(l, start, max);
    } else {
      IncompleteMisses(l, start, max);
    }
  }

  // ---- The bytes of a read ----

  function Slice(seg: seq<byte>, f: Found): seq<byte>
  {
    if 0 <= f.from < f.to <= |seg| then seg[f.from..f.to] else []
  }

  /** The bytes of a range of batches. */
  lemma RangeSlice(e: seq<seq<byte>>, bs: seq<seq<byte>>, f: Found, r: Span)
    requires r.first <= r.last <= |e| + |bs| && Returns(e, bs, f, r) && 0 <= f.from <= f.to <= |Flat(bs)|
    ensures Slice(Flat(bs), f) == Flat((e + bs)[r.first..r.last])
  {
    if r.first == r.last {
      assert (e + bs)[r.first..r.last] == [];
    } else {
      var i, j := r.first - |e|, r.last - |e|;
      FlatSlice(bs, i, j);
      assert (e + bs)[r.first..r.last] == bs[i..j];
    }
  }

  /** A complete read returns the bytes of the batches of the whole log. */
  lemma CompleteBytes(l: Log, start: int, max: int)
    requires Whole(l) && Inv(l) && start < l.next && Complete(l, start)
    ensures var all := Earlier(l) + Active(l).batches; var range := ReadRange(all, start, max);
            Slice(Flat(Active(l).batches), ReadOf(l, start, max)) == Flat(all[range.first..range.last])
  {
    ReadIsInSegment(l, start, max);
    CompleteReturns(l, start, max);
    RangeSlice(Earlier(l), Active(l).batches, ReadOf(l, start, max), ReadRange(Earlier(l) + Active(l).batches, start, max));
  }

  // ---- A reader at a roll ----

  /** A message whose batch is exactly one index step long. */
  const PAGE := Pair([], seq(4026, _ => 0))

  lemma EncodeSize(v: int)
    ensures 0 <= v < 64 || v == -1 ==> |Encode(v)| == 1
    ensures 64 <= v < 8192 ==> |Encode(v)| == 2
  {
    var u := ZigZag(v);
    assert u < 16384 ==> |Groups(u / 128)| == 1;
  }

  lemma PageSize()
    ensures |RestRecord(0, PAGE)| == INDEX_STEP - HEADER
  {
    EncodeSize(0);
    EncodeSize(-1);
    EncodeSize(4026);
    EncodeSize(4033);
  }

  lemma PageBatch(base: nat)
    requires base < 3
    ensures var b := RestBatch([PAGE], 0).(baseOffset := base);
            FieldsFit(b) && |b.records| == 1 && |Serialize(b, BUFFER)| == INDEX_STEP && WellFormedRecord(b.records[0])
  {
    PageSize();
    RestIsWellFormed(0, PAGE);
    RecordsAt(RestRecord, [PAGE], 0);
    var recs := RestRecords([PAGE]);
    assert recs == [RestRecord(0, PAGE)];
    FlatOfTwo(recs[0], recs[0]);
    BodyIsWholeIff(recs, HEADER, BUFFER);
  }

  /** The log after three batches of one index step each, in files of two. */
  lemma ThreeOf(run: seq<Log>, p: Batch) returns (a: seq<byte>, b: seq<byte>, c: seq<byte>)
    requires IsRun(run, [p, p, p], 2 * INDEX_STEP) && |p.records| == 1
    requires forall k: nat | k < 3 :: FieldsFit(p.(baseOffset := k)) && |Serialize(p.(baseOffset := k), BUFFER)| == INDEX_STEP
    ensures run[3] == Log([Segment(0, [a, b]), Segment(2, [c])], [Entry(0, 0), Entry(1, INDEX_STEP), Entry(2, 0)], 3, 2)
    ensures Stored(c) && Base(c) == 2 && |c| == INDEX_STEP
  {
    var ps := [p, p, p];
    var c0, c1, c2 := p.(baseOffset := 0), p.(baseOffset := 1), p.(baseOffset := 2);
    a, b, c := Serialize(c0, BUFFER), Serialize(c1, BUFFER), Serialize(c2, BUFFER);
    SerializedIsStored(c2);
    assert Appended(run, ps, 0, 2 * INDEX_STEP) && Appended(run, ps, 1, 2 * INDEX_STEP) && Appended(run, ps, 2, 2 * INDEX_STEP);
    ThreePages(a, b, c);
  }

  /** The log after three such produce requests. */
  lemma ThreePosts(run: seq<Log>) returns (a: seq<byte>, b: seq<byte>, c: seq<byte>)
    requires var p := RestBatch([PAGE], 0); IsRun(run, [p, p, p], 2 * INDEX_STEP)
    ensures run[3] == Log([Segment(0, [a, b]), Segment(2, [c])], [Entry(0, 0), Entry(1, INDEX_STEP), Entry(2, 0)], 3, 2)
    ensures Stored(c) && Base(c) == 2 && |c| == INDEX_STEP
  {
    var p := RestBatch([PAGE], 0);
    PageBatch(0);
    forall k: nat | k < 3 ensures FieldsFit(p.(baseOffset := k)) && |Serialize(p.(baseOffset := k), BUFFER)| == INDEX_STEP {
      PageBatch(k);
    }
    a, b, c := ThreeOf(run, p);
  }

  /**
   Two readers of that log, with any budget. One that asks for offset 2, having read both batches of the first segment,
   is sent to the end of the second and gets nothing. One that asks for offset 0 gets batch 2: offsets 0 and 1 are skipped.
   */
  lemma ReadersAtRoll(max: int) returns (run: seq<Log>)
    ensures var p := RestBatch([PAGE], 0); IsRun(run, [p, p, p], 2 * INDEX_STEP)
    ensures var l := run[3];
            && l.next == 3 && l.segments != [] && |Earlier(l)| == 2 && |Active(l).batches| == 1
            && ReadOf(l, 2, max) == Found(0, 0) && ReadOf(l, 0, max) == Found(0, |Active(l).batches[0]|)
  {
    var p := RestBatch([PAGE], 0);
    run := RunExists([p, p, p], 2 * INDEX_STEP);
    var a, b, c := ThreePosts(run);
    var l := run[3];
    assert l.segments[..1] == [Segment(0, [a, b])];
    assert [Segment(0, [a, b])][..0] == [];
    assert AllBatches([]) + [a, b] == [a, b];
    FlatOfTwo(c, c);
    assert Flat([c]) == c + Flat([c][1..]) == c;
    assert Start([c], 1) == |c|;
    RightPosition([c], 0, max, 0);
    RangeIs([c], 0, max, 0);
  }
}
