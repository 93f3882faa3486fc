/** The partition log in place: segment files as byte arrays, the index, and the next offset. */
module PartitionLog {
  import opened Bytes
  import opened ByteRing
  import opened RecordBatch
  import opened LogModel
  import opened LogRuns
  import opened LogReads

  class LogSegment {
    const base: int
    const data: array<byte>
    var writeOffset: nat

    ghost predicate Valid()
      reads this
    {
      writeOffset <= data.Length
    }

    ghost function Contents(): seq<byte>
      requires Valid()
      reads this, data
    {
      data[..writeOffset]
    }

    constructor (base: int, size: nat)
      ensures Valid() && this.base == base && fresh(data) && data.Length == size && Contents() == []
    {
      this.base := base;
      data := new byte[size];
      writeOffset := 0;
    }

    /** Where the bytes went, or -1 if they do not fit. */
    method Append(bytes: seq<byte>) returns (offset: int)
      requires Valid()
      modifies this, data
      ensures Valid()
      ensures if |old(Contents())| + |bytes| <= data.Length
              then offset == |old(Contents())| && Contents() == old(Contents()) + bytes
              else offset == -1 && Contents() == old(Contents())
    {
      if writeOffset + |bytes| > data.Length {
        return -1;
      }
      CopyIn(data, writeOffset, bytes);
      offset := writeOffset;
      writeOffset := writeOffset + |bytes|;
    }

    /** The first `length` bytes, if that many have been written. */
    method Read(length: nat) returns (bytes: seq<byte>, ok: bool)
      requires Valid()
      ensures ok <==> length <= |Contents()|
      ensures ok ==> bytes == Contents()[..length]
    {
      ok := length <= writeOffset;
      bytes := if ok then data[..length] else [];
    }
  }

  ghost predicate Apart(segments: seq<LogSegment>)
  {
    forall i, j | 0 <= i < j < |segments| :: segments[i] != segments[j] && segments[i].data != segments[j].data
  }

  /** The segments' bytes and bases are the log's, and so are the index and the next offset. */
  ghost predicate Stands(bases: seq<int>, images: seq<seq<byte>>, index: seq<Entry>, next: int, l: Log)
  {
    && |bases| == |images| == |l.segments| > 0 && index == l.index && next == l.next
    && forall i | 0 <= i < |images| :: bases[i] == l.segments[i].base && images[i] == Flat(l.segments[i].batches)
  }

  /** The index after a write at `offset`; none if that is negative. */
  function Noted(index: seq<Entry>, next: int, offset: int): seq<Entry>
  {
    if offset >= 0 && offset % INDEX_STEP == 0 then index + [Entry(next, offset)] else index
  }

  lemma PlaceStands(bases: seq<int>, images: seq<seq<byte>>, index: seq<Entry>, next: int, l: Log, b: seq<byte>)
    requires Stands(bases, images, index, next, l)
    ensures var n := |images| - 1;
            Stands(bases, images[n := images[n] + b], Noted(index, next, |images[n]|), next, Place(l, b))
  {
    FlatSnoc(Active(l).batches, b);
  }

  lemma StoreStands(bases: seq<int>, images: seq<seq<byte>>, index: seq<Entry>, next: int, l: Log, b: seq<byte>, size: nat)
    requires Stands(bases, images, index, next, l)
    ensures var n := |images| - 1; var end := |images[n]|;
            && (HasRoom(l, b, size) <==> end + |b| <= size)
            && if end + |b| <= size then Stands(bases, images[n := images[n] + b], Noted(index, next, end), next, Store(l, b, size))
               else Stands(bases, images, Noted(index, next, -1), next, Store(l, b, size))
  {
    PlaceStands(bases, images, index, next, l, b);
  }

  /** The same of what is there after the write at `offset`. */
  lemma WriteStands(bases: seq<int>, images: seq<seq<byte>>, index: seq<Entry>, next: int, l: Log, b: seq<byte>, size: nat,
                    offset: int, images': seq<seq<byte>>, index': seq<Entry>)
    requires Stands(bases, images, index, next, l) && index' == Noted(index, next, offset)
    requires var n := |images| - 1; var end := |images[n]|;
             if end + |b| <= size then offset == end && images' == images[n := images[n] + b] else offset == -1 && images' == images
    ensures Stands(bases, images', index', next, Store(l, b, size)) && (offset < 0 <==> !HasRoom(l, b, size))
  {
    StoreStands(bases, images, index, next, l, b, size);
  }

  lemma RollStands(bases: seq<int>, images: seq<seq<byte>>, index: seq<Entry>, next: int, l: Log)
    requires Stands(bases, images, index, next, l)
    ensures Stands(bases + [next], images + [[]], index, next, Roll(l))
  {}

  lemma LaterStands(bases: seq<int>, images: seq<seq<byte>>, index: seq<Entry>, next: int, l: Log, n: nat)
    requires Stands(bases, images, index, next, l)
    ensures Stands(bases, images, index, next + n, l.(next := next + n))
  {}

  /** A read of the active segment's bytes. */
  method ReadSegment(seg: seq<byte>, index: seq<Entry>, start: int, max: int) returns (data: seq<byte>)
    requires SortedIndex(index)
    ensures data == Slice(seg, SegmentRead(seg, Lookup(index, start), start, max))
  {
    var position := LookupPosition(index, start);
    if |seg| == 0 || position >= |seg| {
      return [];
    }
    ScanGoesOn(HeadsOf(seg), |seg|, position, position, false, start, max);
    var from, to := ScanFrom(seg, position, start, max);
    data := if to > from then seg[from..to] else [];
  }

  datatype ReadResult = ReadResult(data: seq<byte>, highWatermark: int)

  class PartitionLog {
    const segmentSize: nat
    var segments: seq<LogSegment>
    var active: LogSegment
    var index: seq<Entry>
    var nextOffset: int
    /** The base of each segment and what has been written to it. */
    ghost var bases: seq<int>
    ghost var images: seq<seq<byte>>
    /** What the segments and the index stand for. */
    ghost var log: Log

    ghost function Arrays(): set<object>
      reads this`segments
    {
      set s | s in segments :: s.data
    }

    ghost predicate Files()
      reads this`segments, this`active, this`bases, this`images, segments, Arrays()
    {
      && |segments| == |bases| == |images| > 0 && active == segments[|segments| - 1] && Apart(segments)
      && (forall i | 0 <= i < |segments| :: segments[i].base == bases[i] && segments[i].data.Length == segmentSize)
      && forall i | 0 <= i < |segments| :: segments[i].Valid() && segments[i].Contents() == images[i]
    }

    ghost predicate Valid()
      reads this, segments, Arrays()
    {
      Files() && Means() && Inv(log) && Whole(log)
    }

    ghost predicate Means()
      reads this
    {
      Stands(bases, images, index, nextOffset, log)
    }

    lemma FreshIsValid()
      requires Files() && Means() && log == Fresh()
      ensures Valid()
    {
      FreshHolds();
      FreshWhole();
    }

    constructor (size: nat)
      ensures Valid() && segmentSize == size && log == Fresh() && fresh(segments) && fresh(Arrays())
    {
      var seg := new LogSegment(0, size);
      segmentSize := size;
      segments := [seg];
      active := seg;
      index := [];
      nextOffset := 0;
      bases, images := [0], [[]];
      log := Fresh();
      new;
      FreshIsValid();
    }

    method RollSegment()
      requires Files()
      modifies this`segments, this`active, this`bases, this`images
      ensures Files() && bases == old(bases) + [nextOffset] && images == old(images) + [[]]
      ensures fresh(active) && fresh(active.data) && segments == old(segments) + [active]
    {
      var seg := new LogSegment(nextOffset, segmentSize);
      active := seg;
      segments := segments + [seg];
      bases, images := bases + [nextOffset], images + [[]];
    }

    /** Writes behind the active segment's bytes, if there is room. */
    method WriteActive(bytes: seq<byte>) returns (offset: int)
      requires Files()
      modifies this`images, active, active.data
      ensures Files()
      ensures var n := |segments| - 1; var end := |old(images)[n]|;
              if end + |bytes| <= segmentSize then offset == end && images == old(images)[n := old(images)[n] + bytes]
              else offset == -1 && images == old(images)
    {
      offset := active.Append(bytes);
      if offset >= 0 {
        images := images[|images| - 1 := images[|images| - 1] + bytes];
      }
    }

    /** An index entry for every write at a multiple of the step. */
    method NoteWrite(offset: int)
      modifies this`index
      ensures index == Noted(old(index), nextOffset, offset)
    {
      if offset >= 0 && offset % INDEX_STEP == 0 {
        index := index + [Entry(nextOffset, offset)];
      }
    }

    /** Stores the bytes in the active segment, if they fit, and indexes them. */
    method Place(bytes: seq<byte>) returns (offset: int)
      requires Files() && Means()
      modifies this`images, this`index, this`log, active, active.data
      ensures Files() && Means()
      ensures offset < 0 <==> !HasRoom(old(log), bytes, segmentSize)
      ensures log == Store(old(log), bytes, segmentSize)
    {
      ghost var were, entries := images, index;
      offset := WriteActive(bytes);
      NoteWrite(offset);
      WriteStands(bases, were, entries, nextOffset, log, bytes, segmentSize, offset, images, index);
      log := Store(log, bytes, segmentSize);
    }

    method RollLog()
      requires Files() && Means()
      modifies this`segments, this`active, this`bases, this`images, this`log
      ensures Files() && Means() && log == Roll(old(log))
      ensures fresh(active) && fresh(active.data) && segments == old(segments) + [active]
    {
      RollStands(bases, images, index, nextOffset, log);
      RollSegment();
      log := Roll(log);
    }

    /** Appends the batch at the next offset. */
    method Append(batch: Batch) returns (baseOffset: int)
      requires Valid() && 0 <= nextOffset && nextOffset + |batch.records| < P64 / 2 && FieldsFit(batch.(baseOffset := 0))
      modifies this, segments, Arrays()
      ensures Valid() && baseOffset == old(nextOffset)
      ensures log == AppendBatch(old(log), batch, segmentSize)
      ensures segments == old(segments) || (segments == old(segments) + [active] && fresh(active) && fresh(active.data))
    {
      baseOffset := nextOffset;
      AppendBatchKeeps(log, batch, segmentSize);
      AppendBatchWhole(log, batch, segmentSize);
      var buf := new byte[BUFFER];
      var size := SerializeBatch(batch.(baseOffset := baseOffset), buf);
      AppendBytes(buf[..size], |batch.records|);
    }

    method AppendBytes(bytes: seq<byte>, count: nat)
      requires Files() && Means()
      modifies this, segments, Arrays()
      ensures Files() && Means() && log == LogRuns.Append(old(log), bytes, count, segmentSize)
      ensures segments == old(segments) || (segments == old(segments) + [active] && fresh(active) && fresh(active.data))
    {
      StoreOrRoll(bytes);
      Advance(count);
    }

    method Advance(count: nat)
      requires Files() && Means()
      modifies this`nextOffset, this`log
      ensures Files() && Means() && log == old(log).(next := old(log).next + count)
    {
      LaterStands(bases, images, index, nextOffset, log, count);
      nextOffset := nextOffset + count;
      log := log.(next := nextOffset);
    }

    method StoreOrRoll(bytes: seq<byte>)
      requires Files() && Means()
      modifies this, segments, Arrays()
      ensures Files() && Means() && nextOffset == old(nextOffset)
      ensures log == Store(MakeRoom(old(log), bytes, segmentSize), bytes, segmentSize)
      ensures segments == old(segments) || (segments == old(segments) + [active] && fresh(active) && fresh(active.data))
    {
      var offset := Place(bytes);
      if offset < 0 {
        RollLog();
        offset := Place(bytes);
      }
    }

    /**
     Bytes of the active segment, at the positions the specified read finds. If the read is complete these are the bytes
     of the batches of the whole log: from the first base not below `start`, whole, to the first boundary with `max` bytes.
     */
    method Read(start: int, max: int) returns (r: ReadResult)
      requires Valid()
      ensures r.highWatermark == nextOffset
      ensures r.data == Slice(Flat(Active(log).batches), ReadOf(log, start, max))
      ensures start >= nextOffset ==> r.data == []
      ensures start < nextOffset && Complete(log, start) ==>
                var all := AllBatches(log.segments);
                var range := ReadRange(all, start, max); r.data == Flat(all[range.first..range.last])
    {
      r := ReadResult([], nextOffset);
      if start >= nextOffset {
        return;
      }
      var size := active.writeOffset;
      var seg, ok := active.Read(size);
      if !ok {
        return;
      }
      assert seg == images[|images| - 1] == Flat(Active(log).batches);
      var data := ReadSegment(seg, index, start, max);
      r := ReadResult(data, nextOffset);
      if Complete(log, start) {
        CompleteBytes(log, start, max);
        AllIsEarlierAndActive(log);
      }
    }
  }
}
