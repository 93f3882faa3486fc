/**
 Readers racing one appender, step by step: every load, store and copied byte is one step, in any order.
 The log stays in its first segment; adding to the index and looking it up are atomic.
 */
module LogReader {
  import opened Bytes
  import opened RecordBatch
  import opened LogModel
  import opened LogRuns

  /** Where the appender is: copying bytes behind the log in any order, then size stored, then index updated, then next offset stored. */
  datatype Appender = Idle | Copying(batch: seq<byte>, count: nat, done: set<nat>)
    | Sized(batch: seq<byte>, count: nat, offset: nat) | Noted(count: nat)

  datatype Pc = Loaded | Admitted | Sought | Measured | Scan | Done | Nothing

  /** One call of read; `known` and `snap` are history: batches at the first load, and at the load of the size. */
  datatype Reader = Reader(
    start: int, max: int, hwm: int, pc: Pc, pos: nat, size: nat, scan: nat, startPos: nat, found: bool,
    known: nat, snap: seq<seq<byte>>)

  /** `batches` is history: the batches whose size has been stored. */
  datatype State = State(
    data: seq<byte>, writeOffset: nat, index: seq<Entry>, next: int, appender: Appender,
    readers: map<nat, Reader>, batches: seq<seq<byte>>)

  datatype Step = Begin(batch: seq<byte>, count: nat) | CopyByte(at: nat) | StoreSize | AddIndex | StoreNext
    | Open(id: nat, start: int, max: int) | LoadNext(id: nat) | Seek(id: nat) | LoadSize(id: nat) | Check(id: nat) | Turn(id: nat)

  ghost predicate Init(s: State)
  {
    s.writeOffset == 0 && s.index == [] && s.next == 0 && s.appender == Idle && s.readers == map[] && s.batches == []
  }

  // ---- The appender ----

  predicate AppenderEnabled(s: State, step: Step)
  {
    match step
    case Begin(b, n) => s.appender.Idle? && Stored(b) && Base(b) == s.next && s.writeOffset + |b| <= |s.data|
    case CopyByte(k) => s.appender.Copying? && k < |s.appender.batch| && s.writeOffset + k < |s.data|
    case StoreSize => s.appender.Copying? && forall k: nat | k < |s.appender.batch| :: k in s.appender.done
    case AddIndex => s.appender.Sized?
    case StoreNext => s.appender.Noted?
    case _ => false
  }

  function AppenderStep(s: State, step: Step): State
    requires AppenderEnabled(s, step)
  {
    match step
    case Begin(b, n) => s.(appender := Copying(b, n, {}))
    case CopyByte(k) =>
      var a := s.appender;
      s.(data := s.data[s.writeOffset + k := a.batch[k]], appender := a.(done := a.done + {k}))
    case StoreSize =>
      var a := s.appender;
      s.(writeOffset := s.writeOffset + |a.batch|, appender := Sized(a.batch, a.count, s.writeOffset), batches := s.batches + [a.batch])
    case AddIndex =>
      var a := s.appender;
      s.(index := if a.offset % INDEX_STEP == 0 then s.index + [Entry(s.next, a.offset)] else s.index, appender := Noted(a.count))
    case StoreNext => s.(next := s.next + s.appender.count, appender := Idle)
  }

  // ---- A reader ----

  predicate ReaderEnabled(s: State, step: Step)
  {
    match step
    case Open(id, start, max) => id !in s.readers
    case LoadNext(id) => id in s.readers && s.readers[id].pc == Loaded
    case Seek(id) => id in s.readers && s.readers[id].pc == Admitted
    case LoadSize(id) => id in s.readers && s.readers[id].pc == Sought
    case Check(id) => id in s.readers && s.readers[id].pc == Measured
    case Turn(id) => id in s.readers && s.readers[id].pc == Scan && s.readers[id].size <= |s.data|
    case _ => false
  }

  /** The load of the size: `size` is stored and the history records the batches it covers. */
  function Measure(r: Reader, writeOffset: nat, batches: seq<seq<byte>>): Reader
  {
    var m := r.(size := writeOffset, snap := batches);
    if writeOffset == 0 || r.pos >= writeOffset then m.(pc := Done, scan := 0, startPos := 0) else m.(pc := Measured)
  }

  /** A turn of the scan loop that finds a header with this base offset and length. */
  function TurnWith(r: Reader, base: int, len: int): Reader
  {
    if len <= 0 || r.scan + 12 + len > r.size then r.(pc := Done)
    else
      var end := r.scan + 12 + len;
      if !r.found && base < r.start then r.(scan := end, startPos := end)
      else
        var from := if r.found then r.startPos else r.scan;
        r.(scan := end, startPos := from, found := true, pc := if end - from >= r.max then Done else Scan)
  }

  /** One turn of the scan loop, or its end. */
  function TurnOf(r: Reader, data: seq<byte>): Reader
    requires r.size <= |data|
  {
    if r.scan + 12 > r.size then r.(pc := Done) else TurnWith(r, I64(data, r.scan), I32(data, r.scan + 8))
  }

  function ReaderStep(s: State, step: Step): Reader
    requires ReaderEnabled(s, step)
  {
    match step
    case Open(id, start, max) => Reader(start, max, s.next, Loaded, 0, 0, 0, 0, false, |s.batches|, [])
    case LoadNext(id) => var r := s.readers[id]; r.(pc := if r.start >= s.next then Nothing else Admitted)
    case Seek(id) => var r := s.readers[id]; r.(pc := Sought, pos := Lookup(s.index, r.start))
    case LoadSize(id) => Measure(s.readers[id], s.writeOffset, s.batches)
    case Check(id) =>
      var r := s.readers[id];
      if r.size > s.writeOffset then r.(pc := Nothing) else r.(pc := Scan, scan := r.pos, startPos := r.pos)
    case Turn(id) => TurnOf(s.readers[id], s.data)
  }

  predicate Enabled(s: State, step: Step)
  {
    AppenderEnabled(s, step) || ReaderEnabled(s, step)
  }

  function Next(s: State, step: Step): State
    requires Enabled(s, step)
  {
    if AppenderEnabled(s, step) then AppenderStep(s, step) else s.(readers := s.readers[step.id := ReaderStep(s, step)])
  }

  // ---- The invariant: the log ----

  ghost predicate AppenderInv(s: State)
    requires AllStored(s.batches)
  {
    match s.appender
    case Idle => true
    case Copying(b, n, done) =>
      && Stored(b) && Base(b) == s.next && s.writeOffset + |b| <= |s.data|
      && forall k | k in done :: k < |b| && s.data[s.writeOffset + k] == b[k]
    case Sized(b, n, offset) =>
      var last := |s.batches| - 1;
      last >= 0 && s.batches[last] == b && Base(b) == s.next && offset == Start(s.batches, last)
    case Noted(n) => true
  }

  /** Entries point at batches, the first at byte 0; none is missing but that of a first batch whose entry is still to come. */
  ghost predicate IndexInv(batches: seq<seq<byte>>, index: seq<Entry>, pending: bool)
    requires AllStored(batches)
  {
    && SortedIndex(index) && (forall k | 0 <= k < |index| :: Points(batches, index[k]))
    && if index == [] then batches == [] || (pending && |batches| == 1) else index[0].position == 0
  }

  ghost predicate LogInv(s: State)
  {
    && Between(s.batches, 0, s.next) && s.writeOffset <= |s.data| && s.data[..s.writeOffset] == Flat(s.batches) && 0 <= s.next
    && AppenderInv(s) && IndexInv(s.batches, s.index, s.appender.Sized?)
  }

  // ---- The invariant: readers ----

  /** A position at or before the first batch wanted, and not behind the log. */
  ghost predicate Found(batches: seq<seq<byte>>, pos: nat, start: int)
    requires AllStored(batches)
  {
    exists at: nat :: at <= |batches| && Before(batches, at, start) && pos == Start(batches, at) && (at == 0 || at < |batches|)
  }

  ghost predicate Before(batches: seq<seq<byte>>, at: nat, start: int)
    requires AllStored(batches) && at <= |batches|
  {
    forall k | 0 <= k < at :: Base(batches[k]) < start
  }

  ghost predicate InScan(r: Reader)
    requires AllStored(r.snap)
  {
    exists m: nat :: Scanning(r.snap, FirstFrom(r.snap, r.start), r.max, m, r.found, r.startPos, r.scan)
  }

  ghost predicate Covers(batches: seq<seq<byte>>, r: Reader)
  {
    r.snap <= batches && AllStored(r.snap) && r.known <= |r.snap| && r.size == |Flat(r.snap)|
  }

  ghost predicate AtPc(batches: seq<seq<byte>>, r: Reader)
    requires AllStored(batches)
  {
    match r.pc
    case Loaded => true
    case Admitted => !r.found
    case Sought => !r.found && Found(batches, r.pos, r.start)
    case Measured => !r.found && Covers(batches, r) && Found(r.snap, r.pos, r.start)
    case Scan => Covers(batches, r) && InScan(r)
    case Done => Covers(batches, r) && Scanned(r.snap, FirstFrom(r.snap, r.start), r.max, r.startPos, r.scan)
    case Nothing => r.start >= r.hwm
  }

  ghost predicate ReaderInv(batches: seq<seq<byte>>, next: int, r: Reader)
    requires AllStored(batches)
  {
    && r.hwm <= next && r.known <= |batches| && (r.pc == Loaded ==> !r.found)
    && (forall k | r.known <= k < |batches| :: Base(batches[k]) >= r.hwm)
    && AtPc(batches, r)
  }

  ghost predicate Inv(s: State)
  {
    LogInv(s) && forall id | id in s.readers :: ReaderInv(s.batches, s.next, s.readers[id])
  }

  // ---- The appender keeps it ----

  lemma CopyKeeps(s: State, k: nat)
    requires LogInv(s) && AppenderEnabled(s, CopyByte(k))
    ensures LogInv(AppenderStep(s, CopyByte(k)))
  {
    var t := AppenderStep(s, CopyByte(k));
    assert t.data[..t.writeOffset] == s.data[..s.writeOffset];
  }

  lemma StoreSizeShows(s: State)
    requires LogInv(s) && AppenderEnabled(s, StoreSize)
    ensures var t := AppenderStep(s, StoreSize); t.writeOffset <= |t.data| && t.data[..t.writeOffset] == Flat(t.batches)
  {
    var t, b := AppenderStep(s, StoreSize), s.appender.batch;
    FlatSnoc(s.batches, b);
    assert t.data[..t.writeOffset] == s.data[..s.writeOffset] + b;
  }

  lemma StoreSizePoints(batches: seq<seq<byte>>, b: seq<byte>, index: seq<Entry>)
    requires AllStored(batches) && Stored(b) && IndexInv(batches, index, false)
    ensures AllStored(batches + [b]) && IndexInv(batches + [b], index, true)
  {
    forall k | 0 <= k < |index| ensures Points(batches + [b], index[k]) {
      PointsStays(batches, b, index[k]);
    }
  }

  lemma StoreSizeKeeps(s: State)
    requires LogInv(s) && AppenderEnabled(s, StoreSize)
    ensures LogInv(AppenderStep(s, StoreSize))
  {
    var b := s.appender.batch;
    StoreSizeShows(s);
    StoreSizePoints(s.batches, b, s.index);
    BetweenStays(s.batches, b, 0, s.next);
    EndIsLength(s.batches);
    StartOfPrefix(s.batches, [b], |s.batches|);
  }

  lemma EntriesBelow(bs: seq<seq<byte>>, index: seq<Entry>, next: int)
    requires Between(bs, 0, next) && forall k | 0 <= k < |index| :: Points(bs, index[k])
    ensures forall k | 0 <= k < |index| :: index[k].offset <= next
  {
    forall k | 0 <= k < |index| ensures index[k].offset <= next {
      assert Points(bs, index[k]);
    }
  }

  lemma AddEntryKeeps(bs: seq<seq<byte>>, index: seq<Entry>, e: Entry)
    requires AllStored(bs) && IndexInv(bs, index, true) && Points(bs, e) && (index == [] ==> e.position == 0)
    requires forall k | 0 <= k < |index| :: index[k].offset <= e.offset
    ensures IndexInv(bs, index + [e], false)
  {}

  lemma AddIndexKeeps(s: State)
    requires LogInv(s) && AppenderEnabled(s, AddIndex)
    ensures LogInv(AppenderStep(s, AddIndex))
  {
    var e := Entry(s.next, s.appender.offset);
    EntriesBelow(s.batches, s.index, s.next);
    assert Points(s.batches, e);
    if s.index == [] {
      assert e.position == 0;
    }
    AddEntryKeeps(s.batches, s.index, e);
  }

  lemma AppenderKeepsLog(s: State, step: Step)
    requires LogInv(s) && AppenderEnabled(s, step)
    ensures LogInv(AppenderStep(s, step))
  {
    match step
    case Begin(b, n) =>
    case CopyByte(k) => CopyKeeps(s, k);
    case StoreSize => StoreSizeKeeps(s);
    case AddIndex => AddIndexKeeps(s);
    case StoreNext =>
  }

  lemma FoundStays(bs: seq<seq<byte>>, b: seq<byte>, pos: nat, start: int)
    requires AllStored(bs) && Stored(b) && Found(bs, pos, start)
    ensures AllStored(bs + [b]) && Found(bs + [b], pos, start)
  {
    var at: nat :| at <= |bs| && Before(bs, at, start) && pos == Start(bs, at) && (at == 0 || at < |bs|);
    StartOfPrefix(bs, [b], at);
    assert Before(bs + [b], at, start);
  }

  lemma ReaderStays(bs: seq<seq<byte>>, b: seq<byte>, next: int, r: Reader)
    requires AllStored(bs) && Stored(b) && Base(b) == next && ReaderInv(bs, next, r)
    ensures AllStored(bs + [b]) && ReaderInv(bs + [b], next, r)
  {
    if r.pc == Sought {
      FoundStays(bs, b, r.pos, r.start);
    }
    forall k | r.known <= k < |bs + [b]| ensures Base((bs + [b])[k]) >= r.hwm {
      if k < |bs| {
        assert (bs + [b])[k] == bs[k];
      }
    }
  }

  lemma AppenderKeeps(s: State, step: Step)
    requires Inv(s) && AppenderEnabled(s, step)
    ensures Inv(AppenderStep(s, step))
  {
    var t := AppenderStep(s, step);
    AppenderKeepsLog(s, step);
    forall id | id in t.readers ensures ReaderInv(t.batches, t.next, t.readers[id]) {
      if step == StoreSize {
        ReaderStays(s.batches, s.appender.batch, s.next, s.readers[id]);
      }
    }
  }

  // ---- A reader keeps it ----

  lemma SeekKeeps(s: State, start: int)
    requires LogInv(s)
    ensures Found(s.batches, Lookup(s.index, start), start)
  {
    var bs := s.batches;
    var k := LowerBound(s.index, start);
    if k == 0 {
      assert Before(bs, 0, start) && Start(bs, 0) == 0;
    } else {
      var e := s.index[k - 1];
      assert Points(bs, e);
      var at: nat :| at < |bs| && e.offset == Base(bs[at]) && e.position == Start(bs, at);
      assert Before(bs, at, start);
    }
  }

  lemma MeasureKeeps(bs: seq<seq<byte>>, next: int, r: Reader)
    requires AllStored(bs) && ReaderInv(bs, next, r) && r.pc == Sought
    ensures ReaderInv(bs, next, Measure(r, |Flat(bs)|, bs))
  {
    var at: nat :| at <= |bs| && Before(bs, at, r.start) && r.pos == Start(bs, at) && (at == 0 || at < |bs|);
    MoreBytesMoreBatches(bs, at);
  }

  lemma PrefixIsShorter(a: seq<seq<byte>>, b: seq<seq<byte>>)
    requires a <= b
    ensures |Flat(a)| <= |Flat(b)| && Flat(b)[..|Flat(a)|] == Flat(a)
  {
    assert b == a + b[|a|..];
    FlatConcat(a, b[|a|..]);
  }

  lemma CheckKeeps(s: State, next: int, r: Reader)
    requires LogInv(s) && ReaderInv(s.batches, next, r) && r.pc == Measured
    ensures r.size <= s.writeOffset && ReaderInv(s.batches, next, r.(pc := Scan, scan := r.pos, startPos := r.pos))
  {
    PrefixIsShorter(r.snap, s.batches);
    var at: nat :| at <= |r.snap| && Before(r.snap, at, r.start) && r.pos == Start(r.snap, at) && (at == 0 || at < |r.snap|);
    var i := FirstFrom(r.snap, r.start);
    assert at <= i;
    assert Scanning(r.snap, i, r.max, at, false, r.pos, r.pos);
  }

  lemma SliceOfPrefix(data: seq<byte>, f: seq<byte>, a: nat, b: nat)
    requires a <= b <= |f| <= |data| && data[..|f|] == f
    ensures data[a..b] == f[a..b]
  {
    forall k | 0 <= k < b - a ensures data[a..b][k] == f[a..b][k] {
      assert data[a + k] == data[..|f|][a + k];
    }
  }

  lemma HeaderBelow(data: seq<byte>, f: seq<byte>, p: nat, b: seq<byte>)
    requires Stored(b) && Shows(data, f) && p + |b| <= |f| && f[p..p + |b|] == b
    ensures I64(data, p) == Base(b) && I32(data, p + 8) == |b| - 12
  {
    SliceOfPrefix(data, f, p, p + |b|);
    SameInts(data, p, b);
  }

  /** A header read from memory inside the snapshot is that of its batch. */
  /** The first bytes of the memory are these. */
  ghost predicate Shows(data: seq<byte>, f: seq<byte>)
  {
    f <= data
  }

  lemma HeaderInMemory(data: seq<byte>, bs: seq<seq<byte>>, m: nat)
    requires m < |bs| && Stored(bs[m]) && Shows(data, Flat(bs))
    ensures Start(bs, m) + |bs[m]| <= |Flat(bs)|
    ensures I64(data, Start(bs, m)) == Base(bs[m]) && I32(data, Start(bs, m) + 8) == |bs[m]| - 12
  {
    BatchAt(bs, m);
    HeaderBelow(data, Flat(bs), Start(bs, m), bs[m]);
  }

  /** A turn from batch `m`, `i` the first wanted, moves to the next batch or ends the scan. */
  lemma TurnWithKeeps(r: Reader, i: nat, m: nat, base: int)
    requires Scanning(r.snap, i, r.max, m, r.found, r.startPos, r.scan) && r.pc == Scan
    requires m < |r.snap| && 12 < |r.snap[m]| && r.scan + |r.snap[m]| <= r.size && (r.found || (base >= r.start <==> m == i))
    ensures var t := TurnWith(r, base, |r.snap[m]| - 12);
            if t.pc == Scan then Scanning(t.snap, i, t.max, m + 1, t.found, t.startPos, t.scan)
            else Scanned(t.snap, i, t.max, t.startPos, t.scan)
  {
    if !r.found && m < i {
      SkipOne(r.snap, i, r.max, m, r.startPos, r.scan);
    } else {
      TakeOne(r.snap, i, r.max, m, r.found, r.startPos, r.scan);
    }
  }

  /** Before a batch of the snapshot, a turn reads that batch's base and length. */
  lemma TurnReads(data: seq<byte>, r: Reader, m: nat)
    requires r.size == |Flat(r.snap)| && Shows(data, Flat(r.snap))
    requires m < |r.snap| && Stored(r.snap[m]) && r.scan == Start(r.snap, m)
    ensures r.scan + |r.snap[m]| <= r.size && TurnOf(r, data) == TurnWith(r, Base(r.snap[m]), |r.snap[m]| - 12)
  {
    HeaderInMemory(data, r.snap, m);
  }

  lemma TurnKeeps(data: seq<byte>, r: Reader, i: nat, m: nat)
    requires AllStored(r.snap) && r.pc == Scan && r.size == |Flat(r.snap)| <= |data| && data[..r.size] == Flat(r.snap)
    requires i == FirstFrom(r.snap, r.start) && Scanning(r.snap, i, r.max, m, r.found, r.startPos, r.scan)
    ensures var t := TurnOf(r, data);
            if t.pc == Scan then Scanning(t.snap, i, t.max, m + 1, t.found, t.startPos, t.scan)
            else Scanned(t.snap, i, t.max, t.startPos, t.scan)
  {
    if m == |r.snap| {
      MoreBytesMoreBatches(r.snap, m);
      ScanEnds(r.snap, i, r.max, m, r.found, r.startPos, r.scan);
    } else {
      TurnReads(data, r, m);
      if !r.found {
        BaseDecides(r.snap, r.start, m);
      }
      TurnWithKeeps(r, i, m, Base(r.snap[m]));
    }
  }

  /** The log's bytes below a snapshot's size are the snapshot's. */
  lemma SnapInMemory(s: State, r: Reader)
    requires LogInv(s) && r.snap <= s.batches && r.size == |Flat(r.snap)|
    ensures r.size <= |s.data| && s.data[..r.size] == Flat(r.snap)
  {
    PrefixIsShorter(r.snap, s.batches);
    assert s.data[..r.size] == s.data[..s.writeOffset][..r.size];
  }

  lemma TurnFields(r: Reader, data: seq<byte>)
    requires r.pc == Scan && r.size <= |data|
    ensures var t := TurnOf(r, data);
            && t == r.(pc := t.pc, scan := t.scan, startPos := t.startPos, found := t.found)
            && (t.pc == Scan || t.pc == Done)
  {}

  lemma TurnedKeeps(bs: seq<seq<byte>>, next: int, r: Reader, t: Reader, m: nat)
    requires AllStored(bs) && ReaderInv(bs, next, r) && r.pc == Scan
    requires t == r.(pc := t.pc, scan := t.scan, startPos := t.startPos, found := t.found) && (t.pc == Scan || t.pc == Done)
    requires var i := FirstFrom(r.snap, r.start);
             if t.pc == Scan then Scanning(t.snap, i, t.max, m, t.found, t.startPos, t.scan)
             else Scanned(t.snap, i, t.max, t.startPos, t.scan)
    ensures ReaderInv(bs, next, t)
  {}

  lemma TurnKeepsReader(s: State, r: Reader)
    requires LogInv(s) && ReaderInv(s.batches, s.next, r) && r.pc == Scan
    ensures r.size <= |s.data| && ReaderInv(s.batches, s.next, TurnOf(r, s.data))
  {
    SnapInMemory(s, r);
    var m: nat :| Scanning(r.snap, FirstFrom(r.snap, r.start), r.max, m, r.found, r.startPos, r.scan);
    TurnKeeps(s.data, r, FirstFrom(r.snap, r.start), m);
    TurnFields(r, s.data);
    TurnedKeeps(s.batches, s.next, r, TurnOf(r, s.data), m + 1);
  }

  lemma ReaderKeeps(s: State, step: Step)
    requires Inv(s) && ReaderEnabled(s, step)
    ensures ReaderInv(s.batches, s.next, ReaderStep(s, step))
  {
    match step
    case Open(id, start, max) =>
    case LoadNext(id) =>
    case Seek(id) => SeekKeeps(s, s.readers[id].start);
    case LoadSize(id) => MeasureKeeps(s.batches, s.next, s.readers[id]);
    case Check(id) => CheckKeeps(s, s.next, s.readers[id]);
    case Turn(id) => TurnKeepsReader(s, s.readers[id]);
  }

  lemma StepKeeps(s: State, step: Step)
    requires Inv(s) && Enabled(s, step)
    ensures Inv(Next(s, step))
  {
    if AppenderEnabled(s, step) {
      AppenderKeeps(s, step);
    } else {
      ReaderKeeps(s, step);
    }
  }

  // ---- Whole runs ----

  ghost predicate IsRun(run: seq<State>, steps: seq<Step>)
  {
    && |run| == |steps| + 1 && Init(run[0])
    && forall k: nat | k < |steps| :: Taken(run, steps, k)
  }

  ghost predicate Taken(run: seq<State>, steps: seq<Step>, k: nat)
    requires k < |steps| && |run| == |steps| + 1
  {
    Enabled(run[k], steps[k]) && run[k + 1] == Next(run[k], steps[k])
  }

  lemma {:induction false} RunKeeps(run: seq<State>, steps: seq<Step>, k: nat)
    requires IsRun(run, steps) && k <= |steps|
    ensures Inv(run[k])
  {
    if k > 0 {
      RunKeeps(run, steps, k - 1);
      assert Taken(run, steps, k - 1);
      StepKeeps(run[k - 1], steps[k - 1]);
    }
  }

  /** What a finished read holds, in terms of its snapshot. */
  lemma DoneHolds(data: seq<byte>, r: Reader)
    requires AllStored(r.snap) && Scanned(r.snap, FirstFrom(r.snap, r.start), r.max, r.startPos, r.scan)
    requires |Flat(r.snap)| <= |data| && data[..|Flat(r.snap)|] == Flat(r.snap)
    ensures var range := ReadRange(r.snap, r.start, r.max);
            && r.startPos <= r.scan <= |data| && data[r.startPos..r.scan] == Flat(r.snap[range.first..range.last])
            && (r.scan - r.startPos < r.max ==> range.last == |r.snap|)
  {
    ScannedIsRange(r.snap, r.start, r.max, r.startPos, r.scan);
    SliceOfPrefix(data, Flat(r.snap), r.startPos, r.scan);
  }

  /** The range of batches a finished read returned. */
  function Range(r: Reader): Span
    requires forall k | 0 <= k < |r.snap| :: Stored(r.snap[k])
  {
    ReadRange(r.snap, r.start, r.max)
  }

  /**
   A finished read holds batches `i` to `j` of the log, whole and contiguous, at the bytes it was given, whatever the
   appender has done since. They start at the first batch from `start` on and go to the first boundary with `max` bytes;
   below `max`, and if there are none, each batch up to the high watermark is among them.
   */
  ghost predicate HoldsWholeBatches(s: State, r: Reader, start: int, max: int, hwm: int, i: nat, j: nat)
  {
    && i <= j <= |s.batches| && AllStored(s.batches) && r.startPos <= r.scan <= |s.data|
    && s.data[r.startPos..r.scan] == Flat(s.batches[i..j])
    && (forall m | 0 <= m < i :: Base(s.batches[m]) < start) && (i < j ==> Base(s.batches[i]) >= start)
    && (forall m: nat | i < m < j :: Start(s.batches, m) - r.startPos < max)
    && (r.scan - r.startPos < max || i == j ==> forall m | j <= m < |s.batches| :: Base(s.batches[m]) >= hwm)
  }

  lemma SliceOfSnap(batches: seq<seq<byte>>, snap: seq<seq<byte>>, i: nat, j: nat)
    requires snap <= batches && i <= j <= |snap|
    ensures batches[i..j] == snap[i..j]
  {}

  lemma WithinBudget(batches: seq<seq<byte>>, r: Reader)
    requires r.snap <= batches && AllStored(r.snap) && r.startPos == Start(r.snap, FirstFrom(r.snap, r.start))
    ensures var range := Range(r); forall m: nat | range.first < m < range.last :: Start(batches, m) - r.startPos < r.max
  {
    var range := Range(r);
    assert batches == r.snap + batches[|r.snap|..];
    forall m: nat | range.first < m < range.last ensures Start(batches, m) - r.startPos < r.max {
      StartOfPrefix(r.snap, batches[|r.snap|..], m);
    }
  }

  lemma DoneIsWhole(s: State, r: Reader)
    requires LogInv(s) && ReaderInv(s.batches, s.next, r) && r.pc == Done
    ensures var range := Range(r); HoldsWholeBatches(s, r, r.start, r.max, r.hwm, range.first, range.last)
  {
    var range := Range(r);
    SnapInMemory(s, r);
    DoneHolds(s.data, r);
    SliceOfSnap(s.batches, r.snap, range.first, range.last);
    WithinBudget(s.batches, r);
  }

  // ---- What a call asked for ----

  lemma StepRemembers(s: State, step: Step, id: nat)
    requires Enabled(s, step) && id in s.readers
    ensures var r, t := s.readers[id], Next(s, step); id in t.readers && t.readers[id].(start := r.start, max := r.max, hwm := r.hwm) == t.readers[id]
  {}

  /** A read keeps what it was asked for, and reports the next offset there was when it was called. */
  lemma {:induction false} ReportsNextAtCall(run: seq<State>, steps: seq<Step>, a: nat, k: nat)
    requires IsRun(run, steps) && a < k <= |steps| && steps[a].Open?
    ensures var id := steps[a].id;
            && id in run[k].readers
            && var r := run[k].readers[id]; r.start == steps[a].start && r.max == steps[a].max && r.hwm == run[a].next
  {
    assert Taken(run, steps, k - 1);
    if a < k - 1 {
      ReportsNextAtCall(run, steps, a, k - 1);
      StepRemembers(run[k - 1], steps[k - 1], steps[a].id);
    }
  }

  /** In every run, a finished read of what was asked holds whole batches, and none is missing up to the next offset at its call. */
  lemma ReadIsWholeBatches(run: seq<State>, steps: seq<Step>, a: nat, k: nat)
    requires IsRun(run, steps) && a < k <= |steps| && steps[a].Open?
    requires steps[a].id in run[k].readers && run[k].readers[steps[a].id].pc == Done
    ensures exists i: nat, j: nat ::
              HoldsWholeBatches(run[k], run[k].readers[steps[a].id], steps[a].start, steps[a].max, run[a].next, i, j)
  {
    RunKeeps(run, steps, k);
    ReportsNextAtCall(run, steps, a, k);
    DoneIsWhole(run[k], run[k].readers[steps[a].id]);
  }

  /** A read that returns early was asked for nothing below the next offset at its call. */
  lemma NothingMissed(run: seq<State>, steps: seq<Step>, a: nat, k: nat)
    requires IsRun(run, steps) && a < k <= |steps| && steps[a].Open?
    requires steps[a].id in run[k].readers && run[k].readers[steps[a].id].pc == Nothing
    ensures steps[a].start >= run[a].next
  {
    RunKeeps(run, steps, k);
    ReportsNextAtCall(run, steps, a, k);
  }

  /** A read returns early exactly if its start is not below the next offset there is at its second look. */
  lemma EarlyReturnIff(run: seq<State>, steps: seq<Step>, a: nat, b: nat)
    requires IsRun(run, steps) && a < b < |steps| && steps[a].Open? && steps[b] == LoadNext(steps[a].id)
    ensures steps[a].id in run[b + 1].readers && (run[b + 1].readers[steps[a].id].pc == Nothing <==> steps[a].start >= run[b].next)
  {
    ReportsNextAtCall(run, steps, a, b);
    assert Taken(run, steps, b);
  }

  // ---- What was appended ----

  /** Records in all appends begun. */
  function BegunRecords(steps: seq<Step>): nat
  {
    if steps == [] then 0
    else BegunRecords(steps[..|steps| - 1]) + if steps[|steps| - 1].Begin? then steps[|steps| - 1].count else 0
  }

  /** The batches of all appends begun. */
  function BegunBatches(steps: seq<Step>): seq<seq<byte>>
  {
    if steps == [] then []
    else BegunBatches(steps[..|steps| - 1]) + if steps[|steps| - 1].Begin? then [steps[|steps| - 1].batch] else []
  }

  function Unstored(a: Appender): nat
  {
    match a case Idle => 0 case Copying(_, n, _) => n case Sized(_, n, _) => n case Noted(n) => n
  }

  function Unsized(a: Appender): seq<seq<byte>>
  {
    if a.Copying? then [a.batch] else []
  }

  lemma StepAppends(s: State, step: Step)
    requires Enabled(s, step)
    ensures var t := Next(s, step); t.next + Unstored(t.appender) == s.next + Unstored(s.appender) + if step.Begin? then step.count else 0
    ensures var t := Next(s, step);
            t.batches + Unsized(t.appender) == s.batches + Unsized(s.appender) + if step.Begin? then [step.batch] else []
  {}

  /** In every state the next offset counts the records of the appends done, and the batches are theirs, in order. */
  lemma {:induction false} NextCountsAppends(run: seq<State>, steps: seq<Step>, k: nat)
    requires IsRun(run, steps) && k <= |steps|
    ensures run[k].next + Unstored(run[k].appender) == BegunRecords(steps[..k])
    ensures run[k].batches + Unsized(run[k].appender) == BegunBatches(steps[..k])
  {
    if k > 0 {
      NextCountsAppends(run, steps, k - 1);
      assert Taken(run, steps, k - 1);
      assert steps[..k][..k - 1] == steps[..k - 1];
      StepAppends(run[k - 1], steps[k - 1]);
    }
  }

  /** How far a read is. */
  function Stage(pc: Pc): nat
  {
    match pc
    case Done => 0 case Nothing => 0 case Scan => 1 case Measured => 2 case Sought => 3 case Admitted => 4 case Loaded => 5
  }

  /** Reads are wait-free: every own step goes on to a later stage, or the scan further on in the bytes measured. */
  lemma ReadIsWaitFree(s: State, step: Step)
    requires ReaderEnabled(s, step) && !step.Open?
    ensures var r, t := s.readers[step.id], ReaderStep(s, step);
            Stage(t.pc) < Stage(r.pc) || (t.pc == r.pc == Scan && r.scan < t.scan <= r.size == t.size)
  {}
}
