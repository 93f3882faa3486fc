/** Runs of appends: rolls, the sparse index, and where a read starts. */
module LogRuns {
  import opened Bytes
  import opened RecordBatch
  import opened LogModel

  function Fresh(): Log
  {
    Log([Segment(0, [])], [], 0, 0)
  }

  function Active(l: Log): Segment
    requires l.segments != []
  {
    l.segments[|l.segments| - 1]
  }

  predicate HasRoom(l: Log, b: seq<byte>, size: nat)
    requires l.segments != []
  {
    |Flat(Active(l).batches)| + |b| <= size
  }

  function Roll(l: Log): Log
  {
    l.(segments := l.segments + [Segment(l.next, [])], oldEntries := |l.index|)
  }

  /** The batch goes behind the active segment's bytes, and into the index if it lands on a multiple of 4096. */
  function Place(l: Log, b: seq<byte>): Log
    requires l.segments != []
  {
    var s := Active(l);
    var at := |Flat(s.batches)|;
    l.(segments := l.segments[|l.segments| - 1 := s.(batches := s.batches + [b])],
       index := if at % INDEX_STEP == 0 then l.index + [Entry(l.next, at)] else l.index)
  }

  function MakeRoom(l: Log, b: seq<byte>, size: nat): (r: Log)
    requires l.segments != []
    ensures r.segments != [] && r.next == l.next
  {
    if HasRoom(l, b, size) then l else Roll(l)
  }

  function Store(l: Log, b: seq<byte>, size: nat): (r: Log)
    requires l.segments != []
    ensures r.segments != [] && r.next == l.next
  {
    if HasRoom(l, b, size) then Place(l, b) else l
  }

  /** Appends `n` records written as `b`: one roll if there is no room; if there still is none, nothing is stored. */
  function Append(l: Log, b: seq<byte>, n: nat, size: nat): (r: Log)
    requires l.segments != []
    ensures r.segments != []
  {
    Store(MakeRoom(l, b, size), b, size).(next := l.next + n)
  }

  // ---- The index ----

  ghost predicate SortedIndex(index: seq<Entry>)
  {
    forall i, j | 0 <= i <= j < |index| :: index[i].offset <= index[j].offset
  }

  /** The first entry at or above `target`. */
  function LowerBound(index: seq<Entry>, target: int): (k: nat)
    ensures k <= |index| && (k < |index| ==> index[k].offset >= target)
    ensures forall j | 0 <= j < k :: index[j].offset < target
  {
    if index == [] then 0 else if index[0].offset >= target then 0 else 1 + LowerBound(index[1..], target)
  }

  function Lookup(index: seq<Entry>, target: int): nat
  {
    if index == [] then 0
    else var k := LowerBound(index, target); index[if k == 0 then 0 else k - 1].position
  }

  /** Binary search over the entries. */
  method LookupPosition(index: seq<Entry>, target: int) returns (position: nat)
    requires SortedIndex(index)
    ensures position == Lookup(index, target)
  {
    if index == [] {
      return 0;
    }
    var lo, hi := 0, |index|;
    while lo < hi
      invariant 0 <= lo <= hi <= |index|
      invariant lo <= LowerBound(index, target) <= hi
    {
      var mid := (lo + hi) / 2;
      if index[mid].offset < target {
        lo := mid + 1;
      } else {
        hi := mid;
      }
    }
    position := index[if lo == 0 then 0 else lo - 1].position;
  }

  // ---- What every append keeps ----

  /** The entry names a batch of the segment and where it starts. */
  ghost predicate Points(bs: seq<seq<byte>>, e: Entry)
    requires AllStored(bs)
  {
    exists i: nat :: i < |bs| && e.offset == Base(bs[i]) && e.position == Start(bs, i)
  }

  ghost predicate Between(bs: seq<seq<byte>>, lo: int, hi: int)
  {
    AllStored(bs) && Ascending(bs) && forall i | 0 <= i < |bs| :: lo <= Base(bs[i]) <= hi
  }

  /** Entries made before the last roll are at most the segment's base; the others point into it, the first at its start. */
  ghost predicate Indexed(bs: seq<seq<byte>>, index: seq<Entry>, made: nat, base: int, next: int)
    requires AllStored(bs)
  {
    && made <= |index| && SortedIndex(index)
    && (forall k | 0 <= k < |index| :: index[k].offset <= next)
    && (forall k | 0 <= k < made :: index[k].offset <= base)
    && (forall k | made <= k < |index| :: Points(bs, index[k]))
    && if bs == [] then made == |index| else made < |index| && index[made] == Entry(Base(bs[0]), 0)
  }

  ghost predicate Inv(l: Log)
  {
    && l.segments != [] && (|l.segments| == 1 ==> l.oldEntries == 0)
    && var s := Active(l);
    && s.base <= l.next && Between(s.batches, s.base, l.next) && Indexed(s.batches, l.index, l.oldEntries, s.base, l.next)
  }

  lemma PointsStays(bs: seq<seq<byte>>, b: seq<byte>, e: Entry)
    requires AllStored(bs) && Stored(b) && Points(bs, e)
    ensures AllStored(bs + [b]) && Points(bs + [b], e)
  {
    var i: nat :| i < |bs| && e.offset == Base(bs[i]) && e.position == Start(bs, i);
    StartOfPrefix(bs, [b], i);
    assert (bs + [b])[i] == bs[i];
  }

  lemma PointsNew(bs: seq<seq<byte>>, b: seq<byte>)
    requires AllStored(bs) && Stored(b)
    ensures AllStored(bs + [b]) && Points(bs + [b], Entry(Base(b), |Flat(bs)|))
  {
    StartOfPrefix(bs, [b], |bs|);
    EndIsLength(bs);
    assert (bs + [b])[|bs|] == b;
  }

  lemma BetweenStays(bs: seq<seq<byte>>, b: seq<byte>, lo: int, next: int)
    requires Between(bs, lo, next) && lo <= next && Stored(b) && Base(b) == next
    ensures Between(bs + [b], lo, next)
  {
    var cs := bs + [b];
    forall i | 0 <= i < |cs| ensures Stored(cs[i]) && lo <= Base(cs[i]) <= next {
      if i < |bs| { assert cs[i] == bs[i]; }
    }
    forall i, j | 0 <= i <= j < |cs| ensures Base(cs[i]) <= Base(cs[j]) {
      if j < |bs| { assert cs[i] == bs[i] && cs[j] == bs[j]; }
    }
  }

  lemma IndexedStays(bs: seq<seq<byte>>, b: seq<byte>, index: seq<Entry>, made: nat, base: int, next: int)
    requires AllStored(bs) && Stored(b) && Base(b) == next && Indexed(bs, index, made, base, next)
    ensures AllStored(bs + [b])
    ensures |Flat(bs)| % INDEX_STEP == 0 ==> Indexed(bs + [b], index + [Entry(next, |Flat(bs)|)], made, base, next)
    ensures |Flat(bs)| % INDEX_STEP != 0 ==> Indexed(bs + [b], index, made, base, next)
  {
    PointsNew(bs, b);
    forall k | made <= k < |index| ensures Points(bs + [b], index[k]) {
      PointsStays(bs, b, index[k]);
    }
    assert bs != [] ==> (bs + [b])[0] == bs[0];
  }

  lemma PlaceKeeps(l: Log, b: seq<byte>)
    requires Inv(l) && Stored(b) && Base(b) == l.next
    ensures Inv(Place(l, b))
  {
    var s := Active(l);
    var p := Place(l, b);
    assert Active(p) == s.(batches := s.batches + [b]);
    BetweenStays(s.batches, b, s.base, l.next);
    IndexedStays(s.batches, b, l.index, l.oldEntries, s.base, l.next);
  }

  lemma RollKeeps(l: Log)
    requires Inv(l)
    ensures Inv(Roll(l))
  {
    assert Active(Roll(l)) == Segment(l.next, []);
  }

  lemma LaterKeeps(l: Log, n: nat)
    requires Inv(l)
    ensures Inv(l.(next := l.next + n))
  {
    assert Active(l.(next := l.next + n)) == Active(l);
  }

  lemma MakeRoomKeeps(l: Log, b: seq<byte>, size: nat)
    requires Inv(l)
    ensures Inv(MakeRoom(l, b, size))
  {
    if !HasRoom(l, b, size) {
      RollKeeps(l);
    }
  }

  lemma StoreKeeps(l: Log, b: seq<byte>, size: nat)
    requires Inv(l) && Stored(b) && Base(b) == l.next
    ensures Inv(Store(l, b, size))
  {
    if HasRoom(l, b, size) {
      PlaceKeeps(l, b);
    }
  }

  lemma AppendKeeps(l: Log, b: seq<byte>, n: nat, size: nat)
    requires Inv(l) && Stored(b) && Base(b) == l.next
    ensures Inv(Append(l, b, n, size))
  {
    MakeRoomKeeps(l, b, size);
    StoreKeeps(MakeRoom(l, b, size), b, size);
    LaterKeeps(Store(MakeRoom(l, b, size), b, size), n);
  }

  // ---- Where a read starts ----

  /** The position is that of a batch at or before the first wanted one, so the scan from it is the scan from byte 0. */
  ghost predicate SeeksRight(bs: seq<seq<byte>>, position: nat, start: int)
    requires AllStored(bs)
  {
    exists at: nat :: at <= FirstFrom(bs, start) && position == Start(bs, at)
  }

  lemma BelowIsBefore(bs: seq<seq<byte>>, i: nat, start: int)
    requires AllStored(bs) && Ascending(bs) && i < |bs| && Base(bs[i]) < start
    ensures i < FirstFrom(bs, start)
  {}

  /** In a log that never rolled, or for a start behind the active segment's first batch, the index never leads too far. */
  lemma LookupSeeksRight(l: Log, start: int)
    requires Inv(l) && var bs := Active(l).batches; bs != [] && (l.oldEntries == 0 || start > Base(bs[0]))
    ensures SeeksRight(Active(l).batches, Lookup(l.index, start), start)
  {
    var bs := Active(l).batches;
    var k := LowerBound(l.index, start);
    if k == 0 {
      assert Lookup(l.index, start) == Start(bs, 0);
    } else {
      var e := l.index[k - 1];
      assert Points(bs, e);
      var i: nat :| i < |bs| && e.offset == Base(bs[i]) && e.position == Start(bs, i);
      BelowIsBefore(bs, i, start);
    }
  }

  // ---- Whole runs ----

  /** Records in the first `k` batches. */
  function Total(batches: seq<Batch>, k: nat): nat
    requires k <= |batches|
  {
    if k == 0 then 0 else Total(batches, k - 1) + |batches[k - 1].records|
  }

  /** The fields and the offsets reached are within the source's integer widths. */
  ghost predicate Appendable(batches: seq<Batch>)
  {
    Total(batches, |batches|) < P64 / 2 && forall k | 0 <= k < |batches| :: FieldsFit(batches[k].(baseOffset := 0))
  }

  /** What append stores for batch `k` of a run: serialized with the records before it as base offset. */
  function Written(batches: seq<Batch>, k: nat): seq<byte>
    requires k < |batches|
  {
    Serialize(batches[k].(baseOffset := Total(batches, k)), BUFFER)
  }

  function AppendBatch(l: Log, b: Batch, size: nat): (r: Log)
    requires l.segments != []
    ensures r.segments != [] && r.next == l.next + |b.records|
  {
    Append(l, Serialize(b.(baseOffset := l.next), BUFFER), |b.records|, size)
  }

  /** `run[k]` is the log after the first `k` appends. */
  ghost predicate IsRun(run: seq<Log>, batches: seq<Batch>, size: nat)
  {
    && |run| == |batches| + 1 && run[0] == Fresh()
    && forall k: nat | k < |batches| :: Appended(run, batches, k, size)
  }

  ghost predicate Appended(run: seq<Log>, batches: seq<Batch>, k: nat, size: nat)
    requires k < |batches| && |run| == |batches| + 1
  {
    run[k].segments != [] && run[k + 1] == AppendBatch(run[k], batches[k], size)
  }

  /** An append starts a new segment exactly if the batch does not fit behind what the active one holds. */
  lemma RollsIff(run: seq<Log>, batches: seq<Batch>, k: nat, size: nat)
    requires IsRun(run, batches, size) && k < |batches|
    ensures run[k].segments != [] && run[k + 1].segments != []
    ensures var b := Serialize(batches[k].(baseOffset := run[k].next), BUFFER);
            if |Flat(Active(run[k]).batches)| + |b| <= size
            then |run[k + 1].segments| == |run[k].segments| && Active(run[k + 1]).base == Active(run[k]).base
            else |run[k + 1].segments| == |run[k].segments| + 1 && Active(run[k + 1]).base == run[k].next
  {
    assert Appended(run, batches, k, size);
  }

  /** Every list of batches has its run. */
  lemma {:induction false} RunExists(batches: seq<Batch>, size: nat) returns (run: seq<Log>)
    ensures IsRun(run, batches, size) && run[|batches|].segments != []
  {
    if batches == [] {
      run := [Fresh()];
    } else {
      var n := |batches| - 1;
      var before := RunExists(batches[..n], size);
      run := before + [AppendBatch(before[n], batches[n], size)];
      forall k: nat | k < |batches| ensures Appended(run, batches, k, size) {
        assert k < n ==> Appended(before, batches[..n], k, size);
      }
    }
  }

  lemma {:induction false} TotalGrows(batches: seq<Batch>, j: nat, k: nat)
    requires j <= k <= |batches|
    ensures Total(batches, j) <= Total(batches, k)
  {
    if j < k {
      TotalGrows(batches, j, k - 1);
    }
  }

  lemma {:induction false} NextIsTotal(run: seq<Log>, batches: seq<Batch>, k: nat, size: nat)
    requires IsRun(run, batches, size) && k <= |batches|
    ensures run[k].next == Total(batches, k) && run[k].segments != []
  {
    if k > 0 {
      NextIsTotal(run, batches, k - 1, size);
      assert Appended(run, batches, k - 1, size);
      AppendNext(run[k - 1], batches[k - 1], size);
    }
  }

  lemma AppendNext(l: Log, b: Batch, size: nat)
    requires l.segments != []
    ensures var r := AppendBatch(l, b, size); r.segments != [] && r.next == l.next + |b.records|
  {}

  /** What is written has the base offset and record count it should. */
  lemma WrittenIsStored(batches: seq<Batch>, k: nat)
    requires Appendable(batches) && k < |batches|
    ensures Stored(Written(batches, k)) && Base(Written(batches, k)) == Total(batches, k)
    ensures Count(Written(batches, k)) == |batches[k].records|
  {
    TotalGrows(batches, k, |batches|);
    SerializedIsStored(batches[k].(baseOffset := Total(batches, k)));
  }

  lemma AppendBatchKeeps(l: Log, b: Batch, size: nat)
    requires Inv(l) && 0 <= l.next < P64 / 2 && FieldsFit(b.(baseOffset := 0))
    ensures Inv(AppendBatch(l, b, size))
  {
    var c := b.(baseOffset := l.next);
    SerializedIsStored(c);
    AppendKeeps(l, Serialize(c, BUFFER), |b.records|, size);
  }

  lemma FreshHolds()
    ensures Inv(Fresh())
  {}

  lemma StepKeeps(run: seq<Log>, batches: seq<Batch>, k: nat, size: nat)
    requires IsRun(run, batches, size) && Appendable(batches) && k < |batches| && Inv(run[k])
    ensures Inv(run[k + 1])
  {
    NextIsTotal(run, batches, k, size);
    TotalGrows(batches, k, |batches|);
    AppendBatchKeeps(run[k], batches[k], size);
    assert Appended(run, batches, k, size);
  }

  /** Every run keeps the invariant: empty batches, segments too small for a batch and all. */
  lemma {:induction false} RunKeeps(run: seq<Log>, batches: seq<Batch>, k: nat, size: nat)
    requires IsRun(run, batches, size) && Appendable(batches) && k <= |batches|
    ensures Inv(run[k])
  {
    if k == 0 {
      FreshHolds();
    } else {
      RunKeeps(run, batches, k - 1, size);
      StepKeeps(run, batches, k - 1, size);
    }
  }

  /** The stored batches of all segments in order. */
  function AllBatches(segments: seq<Segment>): seq<seq<byte>>
  {
    if segments == [] then [] else AllBatches(segments[..|segments| - 1]) + segments[|segments| - 1].batches
  }

  /** A later segment starts at its own base offset; bases strictly rise; no segment is longer than its file. */
  ghost predicate WellCut(segments: seq<Segment>, size: nat)
  {
    && (forall s | 0 <= s < |segments| :: |Flat(segments[s].batches)| <= size)
    && (forall s | 0 < s < |segments| :: StartsAtBase(segments[s]))
    && (forall r, s | 0 <= r < s < |segments| :: segments[r].base < segments[s].base)
  }

  ghost predicate StartsAtBase(s: Segment)
  {
    s.batches != [] && Stored(s.batches[0]) && Base(s.batches[0]) == s.base
  }

  lemma PlaceAdds(l: Log, b: seq<byte>)
    requires l.segments != []
    ensures AllBatches(Place(l, b).segments) == AllBatches(l.segments) + [b]
  {
    var n := |l.segments| - 1;
    assert Place(l, b).segments[..n] == l.segments[..n];
  }

  lemma RollAdds(l: Log)
    ensures AllBatches(Roll(l).segments) == AllBatches(l.segments)
  {
    var r := Roll(l);
    assert r.segments[..|r.segments| - 1] == l.segments;
  }

  /** With files at least as long as the buffer, every batch is stored, in the active segment or alone in a new one. */
  lemma AppendAdds(l: Log, b: seq<byte>, n: nat, size: nat)
    requires l.segments != [] && |b| <= size
    ensures AllBatches(Append(l, b, n, size).segments) == AllBatches(l.segments) + [b]
  {
    if HasRoom(l, b, size) {
      PlaceAdds(l, b);
    } else {
      RollAdds(l);
      PlaceAdds(Roll(l), b);
    }
  }

  lemma PlaceCut(l: Log, b: seq<byte>, size: nat)
    requires l.segments != [] && HasRoom(l, b, size) && WellCut(l.segments, size) && Active(l).batches != []
    ensures WellCut(Place(l, b).segments, size)
  {
    var s := Active(l);
    FlatSnoc(s.batches, b);
    assert (s.batches + [b])[0] == s.batches[0];
  }

  lemma FirstCut(l: Log, b: seq<byte>, size: nat)
    requires l.segments != [] && WellCut(l.segments, size) && Active(l).base < l.next
    requires |b| <= size && Stored(b) && Base(b) == l.next
    ensures WellCut(Place(Roll(l), b).segments, size)
  {
    var p := Place(Roll(l), b);
    assert Roll(l).segments[..|l.segments|] == l.segments;
    assert [] + [b] == [b];
    assert p.segments == l.segments + [Segment(l.next, [b])];
    FlatSnoc([], b);
    forall r, s | 0 <= r < s < |p.segments| ensures p.segments[r].base < p.segments[s].base {
      if s == |l.segments| && r < |l.segments| - 1 {
        assert l.segments[r].base < Active(l).base;
      }
    }
  }

  ghost predicate Cut(l: Log, size: nat)
  {
    && WellCut(l.segments, size) && l.segments != []
    && if l.next == 0 then l == Fresh() else Active(l).batches != [] && Active(l).base < l.next
  }

  lemma AppendCuts(l: Log, b: seq<byte>, n: nat, size: nat)
    requires Cut(l, size) && 0 <= l.next && 0 < n && |b| <= size && Stored(b) && Base(b) == l.next
    ensures Cut(Append(l, b, n, size), size)
  {
    if l.next == 0 {
      FlatSnoc([], b);
      assert Place(l, b).segments == [Segment(0, [] + [b])];
    } else if HasRoom(l, b, size) {
      PlaceCut(l, b, size);
    } else {
      FirstCut(l, b, size);
    }
  }

  /** The log holds exactly the first `k` batches, each written at the number of records before it. */
  ghost predicate Dense(l: Log, batches: seq<Batch>, k: nat)
    requires k <= |batches|
  {
    && l.next == Total(batches, k)
    && var all := AllBatches(l.segments);
    && |all| == k && forall j | 0 <= j < k :: all[j] == Written(batches, j)
  }

  lemma AppendDense(l: Log, batches: seq<Batch>, k: nat, size: nat)
    requires k < |batches| && Dense(l, batches, k) && l.segments != [] && size >= BUFFER
    ensures Dense(AppendBatch(l, batches[k], size), batches, k + 1)
  {
    AppendAdds(l, Written(batches, k), |batches[k].records|, size);
  }

  lemma AppendBatchCuts(l: Log, b: Batch, size: nat)
    requires Cut(l, size) && 0 <= l.next < P64 / 2 && FieldsFit(b.(baseOffset := 0)) && b.records != [] && size >= BUFFER
    ensures Cut(AppendBatch(l, b, size), size)
  {
    var c := b.(baseOffset := l.next);
    SerializedIsStored(c);
    AppendCuts(l, Serialize(c, BUFFER), |b.records|, size);
  }

  /**
   Every batch appended is stored, empty ones too, if files are no shorter than the append buffer; the batches of all
   segments in order are those, each written with the number of records before it as base offset.
   */
  lemma {:induction false} RunStores(run: seq<Log>, batches: seq<Batch>, k: nat, size: nat)
    requires IsRun(run, batches, size) && k <= |batches| && size >= BUFFER
    ensures Dense(run[k], batches, k) && run[k].segments != []
  {
    if k > 0 {
      RunStores(run, batches, k - 1, size);
      AppendDense(run[k - 1], batches, k - 1, size);
      assert Appended(run, batches, k - 1, size);
    }
  }

  lemma StepCuts(run: seq<Log>, batches: seq<Batch>, k: nat, size: nat)
    requires IsRun(run, batches, size) && Appendable(batches) && k < |batches| && size >= BUFFER && batches[k].records != []
    requires Dense(run[k], batches, k) && Cut(run[k], size)
    ensures Cut(run[k + 1], size)
  {
    TotalGrows(batches, k, |batches|);
    AppendBatchCuts(run[k], batches[k], size);
    assert Appended(run, batches, k, size);
  }

  /**
   Offsets are dense across rolls: with nonempty batches and files no shorter than the append buffer, every
   append is stored, and the batches of all segments in order are the ones appended, each written with the number
   of records before it as base offset. Each later segment's base is its first batch's, and bases strictly rise.
   */
  lemma {:induction false} RunIsDense(run: seq<Log>, batches: seq<Batch>, k: nat, size: nat)
    requires IsRun(run, batches, size) && Appendable(batches) && k <= |batches| && size >= BUFFER
    requires forall j | 0 <= j < |batches| :: batches[j].records != []
    ensures Dense(run[k], batches, k) && Cut(run[k], size)
  {
    RunStores(run, batches, k, size);
    if k > 0 {
      RunIsDense(run, batches, k - 1, size);
      StepCuts(run, batches, k - 1, size);
    }
  }

  // ---- The batch that contains an offset ----

  /** The offsets of a batch's records. */
  predicate Contains(b: seq<byte>, offset: int)
    requires Stored(b)
  {
    Base(b) <= offset < Base(b) + Count(b)
  }

  ghost predicate Numbered(b: seq<byte>, base: int, count: int)
  {
    Stored(b) && Base(b) == base && Count(b) == count
  }

  /** The batches are numbered one after another. */
  ghost predicate NumberedOn(bs: seq<seq<byte>>, batches: seq<Batch>)
  {
    |bs| <= |batches| && AllStored(bs) && forall j | 0 <= j < |bs| :: Numbered(bs[j], Total(batches, j), |batches[j].records|)
  }

  lemma DenseIsNumbered(l: Log, batches: seq<Batch>, k: nat)
    requires Appendable(batches) && k <= |batches| && Dense(l, batches, k)
    ensures NumberedOn(AllBatches(l.segments), batches)
  {
    var all := AllBatches(l.segments);
    forall j | 0 <= j < |all| ensures Numbered(all[j], Total(batches, j), |batches[j].records|) {
      WrittenIsStored(batches, j);
    }
  }

  lemma {:induction false} FindBatch(batches: seq<Batch>, k: nat, offset: int) returns (c: nat)
    requires k <= |batches| && 0 <= offset < Total(batches, k)
    ensures c < k && Total(batches, c) <= offset < Total(batches, c + 1)
  {
    if Total(batches, k - 1) <= offset {
      c := k - 1;
    } else {
      c := FindBatch(batches, k - 1, offset);
    }
  }

  /** Which batch an offset is in, and which base is the first not below it, by counting records. */
  lemma OnlyOne(batches: seq<Batch>, c: nat, j: nat, offset: int)
    requires c < |batches| && j < |batches| && Total(batches, c) <= offset < Total(batches, c + 1)
    ensures Total(batches, j) <= offset < Total(batches, j + 1) <==> j == c
  {
    if j < c {
      TotalGrows(batches, j + 1, c);
    } else if j > c {
      TotalGrows(batches, c + 1, j);
    }
  }

  ghost predicate IsFirst(batches: seq<Batch>, n: nat, offset: int, i: nat)
    requires n <= |batches|
  {
    i <= n && (i > 0 ==> Total(batches, i - 1) < offset) && (i < n ==> Total(batches, i) >= offset)
  }

  lemma FirstInside(batches: seq<Batch>, n: nat, c: nat, offset: int, i: nat)
    requires c < n <= |batches| && IsFirst(batches, n, offset, i) && Total(batches, c) < offset <= Total(batches, c + 1)
    ensures i == c + 1
  {
    if i <= c {
      TotalGrows(batches, i, c);
    } else if i > c + 1 {
      TotalGrows(batches, c + 1, i - 1);
    }
  }

  lemma FirstAtBase(batches: seq<Batch>, n: nat, c: nat, i: nat)
    requires c < n <= |batches| && IsFirst(batches, n, Total(batches, c), i)
    ensures i <= c && (forall j | i <= j < c :: batches[j].records == []) && (i == c <==> c == 0 || batches[c - 1].records != [])
  {
    if i > c {
      TotalGrows(batches, c, i - 1);
    }
    forall j | i <= j < c ensures batches[j].records == [] {
      TotalGrows(batches, i, j);
      TotalGrows(batches, j + 1, c);
    }
  }

  /** The same of the bytes. */
  lemma NumberedAt(bs: seq<seq<byte>>, batches: seq<Batch>, j: nat)
    requires NumberedOn(bs, batches) && j < |bs|
    ensures Stored(bs[j]) && Base(bs[j]) == Total(batches, j) && Count(bs[j]) == |batches[j].records|
  {
    assert Numbered(bs[j], Total(batches, j), |batches[j].records|);
  }

  lemma FirstIsFirst(bs: seq<seq<byte>>, batches: seq<Batch>, offset: int)
    requires NumberedOn(bs, batches)
    ensures IsFirst(batches, |bs|, offset, FirstFrom(bs, offset))
  {
    var i := FirstFrom(bs, offset);
    if i > 0 {
      NumberedAt(bs, batches, i - 1);
    }
    if i < |bs| {
      NumberedAt(bs, batches, i);
    }
  }

  lemma ContainsIff(bs: seq<seq<byte>>, batches: seq<Batch>, c: nat, j: nat, offset: int)
    requires NumberedOn(bs, batches) && c < |bs| && j < |bs| && Total(batches, c) <= offset < Total(batches, c + 1)
    ensures Contains(bs[j], offset) <==> j == c
  {
    NumberedAt(bs, batches, j);
    OnlyOne(batches, c, j, offset);
  }

  /**
   The scan for an offset of batch `c` stops at batch `i`: behind `c`, unless the offset is the base of `c`; then at `c`, or at an
   empty batch in front of it. So it stops at a batch that contains the offset exactly if that is a base, and of no empty batch.
   */
  ghost predicate StopsFor(bs: seq<seq<byte>>, c: nat, i: nat, offset: int)
    requires AllStored(bs) && c < |bs| && i <= |bs|
  {
    && (offset > Base(bs[c]) ==> i == c + 1)
    && (offset == Base(bs[c]) ==> i <= c && forall j | i <= j < c :: Count(bs[j]) == 0)
    && (i < |bs| && Contains(bs[i], offset) <==> offset == Base(bs[c]) && (c == 0 || Count(bs[c - 1]) > 0))
  }

  lemma StopsBehind(bs: seq<seq<byte>>, batches: seq<Batch>, c: nat, offset: int)
    requires NumberedOn(bs, batches) && c < |bs| && Total(batches, c) < offset < Total(batches, c + 1)
    ensures StopsFor(bs, c, FirstFrom(bs, offset), offset)
  {
    var i := FirstFrom(bs, offset);
    NumberedAt(bs, batches, c);
    FirstIsFirst(bs, batches, offset);
    FirstInside(batches, |bs|, c, offset, i);
    if i < |bs| {
      ContainsIff(bs, batches, c, i, offset);
    }
  }

  lemma EmptyBefore(bs: seq<seq<byte>>, batches: seq<Batch>, c: nat)
    requires NumberedOn(bs, batches) && c < |bs|
    ensures c == 0 || Count(bs[c - 1]) > 0 <==> c == 0 || batches[c - 1].records != []
  {
    if c > 0 {
      NumberedAt(bs, batches, c - 1);
    }
  }

  lemma StopsAtBase(bs: seq<seq<byte>>, batches: seq<Batch>, c: nat, offset: int)
    requires NumberedOn(bs, batches) && c < |bs| && Total(batches, c) == offset < Total(batches, c + 1)
    ensures StopsFor(bs, c, FirstFrom(bs, offset), offset)
  {
    var i := FirstFrom(bs, offset);
    NumberedAt(bs, batches, c);
    FirstIsFirst(bs, batches, offset);
    FirstAtBase(batches, |bs|, c, i);
    forall j | i <= j < c ensures Count(bs[j]) == 0 {
      NumberedAt(bs, batches, j);
    }
    ContainsIff(bs, batches, c, i, offset);
    EmptyBefore(bs, batches, c);
  }

  ghost predicate OnlyIn(bs: seq<seq<byte>>, c: nat, offset: int)
    requires AllStored(bs)
  {
    c < |bs| && forall j | 0 <= j < |bs| :: Contains(bs[j], offset) <==> j == c
  }

  lemma BatchWith(bs: seq<seq<byte>>, batches: seq<Batch>, offset: int) returns (c: nat)
    requires NumberedOn(bs, batches) && 0 <= offset < Total(batches, |bs|)
    ensures c < |bs| && Total(batches, c) <= offset < Total(batches, c + 1) && OnlyIn(bs, c, offset)
  {
    c := FindBatch(batches, |bs|, offset);
    forall j | 0 <= j < |bs| ensures Contains(bs[j], offset) <==> j == c {
      ContainsIff(bs, batches, c, j, offset);
    }
  }

  lemma ScanStops(bs: seq<seq<byte>>, batches: seq<Batch>, c: nat, offset: int)
    requires NumberedOn(bs, batches) && c < |bs| && Total(batches, c) <= offset < Total(batches, c + 1)
    ensures StopsFor(bs, c, FirstFrom(bs, offset), offset)
  {
    if offset > Total(batches, c) {
      StopsBehind(bs, batches, c, offset);
    } else {
      StopsAtBase(bs, batches, c, offset);
    }
  }

  lemma RunNumbers(run: seq<Log>, batches: seq<Batch>, k: nat, size: nat)
    requires IsRun(run, batches, size) && Appendable(batches) && k <= |batches| && size >= BUFFER
    ensures var bs := AllBatches(run[k].segments); |bs| == k && NumberedOn(bs, batches) && run[k].next == Total(batches, k)
  {
    RunStores(run, batches, k, size);
    DenseIsNumbered(run[k], batches, k);
  }

  /**
   In every run, every offset below the next one is in exactly one batch `c`, and a scan for it stops behind `c` unless it
   is the base of `c`: a read from inside a batch skips that batch.
   */
  lemma StartInsideBatchIff(run: seq<Log>, batches: seq<Batch>, k: nat, size: nat, start: int) returns (c: nat)
    requires IsRun(run, batches, size) && Appendable(batches) && k <= |batches| && size >= BUFFER && 0 <= start < run[k].next
    ensures var bs := AllBatches(run[k].segments);
            AllStored(bs) && OnlyIn(bs, c, start) && StopsFor(bs, c, FirstFrom(bs, start), start)
  {
    RunNumbers(run, batches, k, size);
    c := BatchWith(AllBatches(run[k].segments), batches, start);
    ScanStops(AllBatches(run[k].segments), batches, c, start);
  }

  // ---- A reader at the roll ----

  lemma FlatOfTwo(a: seq<byte>, b: seq<byte>)
    ensures |Flat([a])| == |a| && |Flat([a, b])| == |a| + |b|
  {
    FlatSnoc([], a);
    assert [] + [a] == [a];
    FlatSnoc([a], b);
    assert [a] + [b] == [a, b];
  }

  /** Three batches of one index step each, in files of two steps. */
  lemma ThreePages(a: seq<byte>, b: seq<byte>, c: seq<byte>)
    requires |a| == |b| == |c| == INDEX_STEP
    ensures var size := 2 * INDEX_STEP;
            Append(Append(Append(Fresh(), a, 1, size), b, 1, size), c, 1, size)
            == Log([Segment(0, [a, b]), Segment(2, [c])], [Entry(0, 0), Entry(1, INDEX_STEP), Entry(2, 0)], 3, 2)
  {
    FlatOfTwo(a, b);
    var size := 2 * INDEX_STEP;
    var one := Append(Fresh(), a, 1, size);
    assert [] + [a] == [a];
    assert one == Log([Segment(0, [a])], [Entry(0, 0)], 1, 0);
    var two := Append(one, b, 1, size);
    assert [a] + [b] == [a, b];
    assert two == Log([Segment(0, [a, b])], [Entry(0, 0), Entry(1, INDEX_STEP)], 2, 0);
    assert [] + [c] == [c];
  }
}
