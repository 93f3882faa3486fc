/** The v2 record batch: what the log writes and what the Kafka decoder reads. */
module RecordBatch {
  import opened Bytes
  import opened ByteRing
  import opened Options
  import opened Varint

  /** A batch as the broker holds it; a record is the bytes it was decoded from. */
  datatype Batch = Batch(
    baseOffset: int, epoch: int, magic: int, attributes: int, firstTimestamp: int, maxTimestamp: int,
    producerId: int, producerEpoch: int, baseSequence: int, records: seq<seq<byte>>)

  const HEADER: nat := 61

  function Flat(xs: seq<seq<byte>>): seq<byte>
  {
    if xs == [] then [] else xs[0] + Flat(xs[1..])
  }

  function SerializedSize(b: Batch): nat
  {
    HEADER + |Flat(b.records)|
  }

  lemma {:induction false} PartIsShorter(recs: seq<seq<byte>>, j: nat)
    requires j < |recs|
    ensures |recs[j]| <= |Flat(recs)|
  {
    if j > 0 {
      PartIsShorter(recs[1..], j - 1);
    }
  }

  lemma {:induction false} CountIsShorter(recs: seq<seq<byte>>)
    requires forall j: nat | j < |recs| :: recs[j] != []
    ensures |recs| <= |Flat(recs)|
  {
    if recs != [] {
      CountIsShorter(recs[1..]);
    }
  }

  lemma {:induction false} FlatSnoc(bs: seq<seq<byte>>, b: seq<byte>)
    ensures Flat(bs + [b]) == Flat(bs) + b
  {
    if bs == [] {
      assert bs + [b] == [b];
      assert Flat([b]) == b + Flat([b][1..]) == b;
    } else {
      assert (bs + [b])[1..] == bs[1..] + [b];
      FlatSnoc(bs[1..], b);
      assert bs[0] + (Flat(bs[1..]) + b) == (bs[0] + Flat(bs[1..])) + b;
    }
  }

  lemma {:induction false} FlatConcat(a: seq<seq<byte>>, b: seq<seq<byte>>)
    ensures Flat(a + b) == Flat(a) + Flat(b)
  {
    if a == [] {
      assert a + b == b;
    } else {
      assert (a + b)[1..] == a[1..] + b;
      FlatConcat(a[1..], b);
      assert a[0] + (Flat(a[1..]) + Flat(b)) == (a[0] + Flat(a[1..])) + Flat(b);
    }
  }

  // ---- serialize_batch ----

  /** The 61 bytes in front of the records, field after field. */
  function Header(b: Batch, length: int): (s: seq<byte>)
    ensures |s| == HEADER
  {
    B8(b.baseOffset) + B4(length) + B4(b.epoch) + [b.magic % 256] + B4(0) + B2(b.attributes)
    + B4(|b.records| - 1) + B8(b.firstTimestamp) + B8(b.maxTimestamp) + B8(b.producerId)
    + B2(b.producerEpoch) + B4(b.baseSequence) + B4(|b.records|)
  }

  /** The records written from `pos` on: one that would reach `cap` is left out. */
  function Body(records: seq<seq<byte>>, pos: nat, cap: nat): (s: seq<byte>)
    requires pos < cap
    ensures pos + |s| < cap
  {
    if records == [] then []
    else if |records[0]| > 0 && pos + |records[0]| < cap then records[0] + Body(records[1..], pos + |records[0]|, cap)
    else Body(records[1..], pos, cap)
  }

  function Serialize(b: Batch, cap: nat): (s: seq<byte>)
    requires HEADER < cap
    ensures HEADER <= |s| < cap
  {
    var body := Body(b.records, HEADER, cap);
    Header(b, HEADER - 12 + |body|) + body
  }

  /** All records are written exactly when the whole batch is shorter than the buffer. */
  lemma {:induction false} BodyIsWholeIff(records: seq<seq<byte>>, pos: nat, cap: nat)
    requires pos < cap
    ensures |Body(records, pos, cap)| <= |Flat(records)|
    ensures pos + |Flat(records)| < cap ==> Body(records, pos, cap) == Flat(records)
    ensures Body(records, pos, cap) == Flat(records) ==> pos + |Flat(records)| < cap
  {
    if records != [] {
      if |records[0]| > 0 && pos + |records[0]| < cap {
        BodyIsWholeIff(records[1..], pos + |records[0]|, cap);
      } else {
        BodyIsWholeIff(records[1..], pos, cap);
        if |records[0]| == 0 {
          assert records[0] + Flat(records[1..]) == Flat(records[1..]);
        }
      }
    }
  }

  /** Appends bytes at the cursor. */
  method Put(buf: array<byte>, pos: nat, src: seq<byte>) returns (pos': nat)
    requires pos + |src| <= buf.Length
    modifies buf
    ensures pos' == pos + |src| && buf[..pos'] == old(buf[..pos]) + src
  {
    CopyIn(buf, pos, src);
    pos' := pos + |src|;
  }

  method PutHeader(b: Batch, buf: array<byte>) returns (pos: nat)
    requires HEADER < buf.Length
    modifies buf
    ensures pos == HEADER && buf[..pos] == Header(b, 0)
  {
    pos := PutFront(b, buf);
    ghost var front := buf[..pos];
    pos := Put(buf, pos, B8(b.firstTimestamp));
    pos := Put(buf, pos, B8(b.maxTimestamp));
    pos := Put(buf, pos, B8(b.producerId));
    pos := Put(buf, pos, B2(b.producerEpoch));
    pos := Put(buf, pos, B4(b.baseSequence));
    pos := Put(buf, pos, B4(|b.records|));
    assert buf[..pos] == front + B8(b.firstTimestamp) + B8(b.maxTimestamp) + B8(b.producerId)
                         + B2(b.producerEpoch) + B4(b.baseSequence) + B4(|b.records|);
  }

  method PutFront(b: Batch, buf: array<byte>) returns (pos: nat)
    requires HEADER < buf.Length
    modifies buf
    ensures pos == 27
    ensures buf[..pos] == B8(b.baseOffset) + B4(0) + B4(b.epoch) + [b.magic % 256] + B4(0) + B2(b.attributes)
                          + B4(|b.records| - 1)
  {
    pos := Put(buf, 0, B8(b.baseOffset));
    assert buf[..pos] == B8(b.baseOffset);
    pos := Put(buf, pos, B4(0));
    pos := Put(buf, pos, B4(b.epoch));
    pos := Put(buf, pos, [b.magic % 256]);
    pos := Put(buf, pos, B4(0));
    pos := Put(buf, pos, B2(b.attributes));
    pos := Put(buf, pos, B4(|b.records| - 1));
  }

  lemma SpliceFront(front: seq<byte>, back: seq<byte>, at: nat, src: seq<byte>)
    requires at + |src| <= |front|
    ensures Splice(front + back, at, src) == Splice(front, at, src) + back
  {
    assert (front + back)[..at] == front[..at];
    assert (front + back)[at + |src|..] == front[at + |src|..] + back;
  }

  lemma SpliceSix(front: seq<byte>, a: seq<byte>, b: seq<byte>, c: seq<byte>, d: seq<byte>, e: seq<byte>, f: seq<byte>, at: nat, src: seq<byte>)
    requires at + |src| <= |front|
    ensures Splice(front + a + b + c + d + e + f, at, src) == Splice(front, at, src) + a + b + c + d + e + f
  {
    SpliceFront(front + a + b + c + d + e, f, at, src);
    SpliceFront(front + a + b + c + d, e, at, src);
    SpliceFront(front + a + b + c, d, at, src);
    SpliceFront(front + a + b, c, at, src);
    SpliceFront(front + a, b, at, src);
    SpliceFront(front, a, at, src);
  }

  /** Patching the length into the placeholder. */
  lemma PatchLength(b: Batch, length: int, body: seq<byte>)
    ensures Splice(Header(b, 0) + body, 8, B4(length)) == Header(b, length) + body
  {
    var start := B8(b.baseOffset) + B4(0);
    var front := start + B4(b.epoch) + [b.magic % 256] + B4(0) + B2(b.attributes) + B4(|b.records| - 1);
    SpliceFront(Header(b, 0), body, 8, B4(length));
    SpliceSix(front, B8(b.firstTimestamp), B8(b.maxTimestamp), B8(b.producerId), B2(b.producerEpoch), B4(b.baseSequence), B4(|b.records|), 8, B4(length));
    SpliceSix(start, B4(b.epoch), [b.magic % 256], B4(0), B2(b.attributes), B4(|b.records| - 1), [], 8, B4(length));
    assert front + [] == front;
    assert Splice(start, 8, B4(length)) == B8(b.baseOffset) + B4(length);
  }

  /** The records that fit, behind the header. */
  method PutRecords(b: Batch, buf: array<byte>, start: nat) returns (pos: nat)
    requires start == HEADER < buf.Length && buf[..start] == Header(b, 0)
    modifies buf
    ensures HEADER <= pos < buf.Length && buf[..pos] == Header(b, 0) + Body(b.records, HEADER, buf.Length)
  {
    pos := start;
    ghost var written := [];
    for i := 0 to |b.records|
      invariant HEADER <= pos < buf.Length && buf[..pos] == Header(b, 0) + written
      invariant written + Body(b.records[i..], pos, buf.Length) == Body(b.records, HEADER, buf.Length)
    {
      var r := b.records[i];
      assert b.records[i..][0] == r && b.records[i..][1..] == b.records[i + 1..];
      if |r| > 0 && pos + |r| < buf.Length {
        ghost var rest := Body(b.records[i + 1..], pos + |r|, buf.Length);
        assert written + (r + rest) == (written + r) + rest;
        assert (Header(b, 0) + written) + r == Header(b, 0) + (written + r);
        pos := Put(buf, pos, r);
        written := written + r;
      }
    }
    assert written == Body(b.records, HEADER, buf.Length);
  }

  /** Writes the batch into the buffer as the log does: header with a placeholder, records that fit, then the length. */
  method SerializeBatch(b: Batch, buf: array<byte>) returns (pos: nat)
    requires HEADER < buf.Length
    modifies buf
    ensures pos <= buf.Length && buf[..pos] == Serialize(b, buf.Length)
  {
    pos := PutHeader(b, buf);
    pos := PutRecords(b, buf, pos);
    ghost var written := Body(b.records, HEADER, buf.Length);
    PatchLength(b, pos - 12, written);
    ghost var before := buf[..];
    CopyIn(buf, 8, B4(pos - 12));
    SplicePrefix(before, pos, 8, B4(pos - 12));
  }

  lemma SplicePrefix(d: seq<byte>, n: nat, at: nat, src: seq<byte>)
    requires at + |src| <= n <= |d|
    ensures Splice(d, at, src)[..n] == Splice(d[..n], at, src)
  {}

  // ---- decode_record_batch ----

  /** A value read and the position behind it, or a cursor that has run off the data. */
  datatype Cursor = Off | At(value: int, pos: int)

  /** A cursor operation. */
  type Reader = int -> Cursor

  /** What the decoder keeps of one record, and where the next one starts. */
  datatype Record = NoRecord | Record(timestampDelta: int, keyLength: int, valueOffset: int, valueLength: int, next: int)

  /** `skip(n)` in data of length `len`. */
  function Skip(len: int, p: int, n: int): Cursor
  {
    if 0 <= p + n <= len then At(n, p + n) else Off
  }

  /** A length, and as many bytes skipped if it is not negative. */
  function Sized(read: Reader, len: int, p: int): Cursor
  {
    match read(p)
    case Off => Off
    case At(n, p1) => if n < 0 then At(n, p1) else Skip(len, p1, n)
  }

  /** One record header: the key's length is skipped unchecked, the value's only if not negative. */
  function Entry(read: Reader, len: int, p: int): Cursor
  {
    match read(p)
    case Off => Off
    case At(n, p1) =>
      match Skip(len, p1, n)
      case Off => Off
      case At(_, p2) => Sized(read, len, p2)
  }

  function Headers(read: Reader, len: int, p: int, n: int): Cursor
    decreases n
  {
    if n <= 0 then At(0, p)
    else
      match Entry(read, len, p)
      case Off => Off
      case At(_, p1) => Headers(read, len, p1, n - 1)
  }

  /** Length, attributes, timestamp delta and offset delta; keeps the timestamp delta. */
  function Lead(read: Reader, len: int, p: int): Cursor
  {
    match read(p)
    case Off => Off
    case At(_, p1) =>
      match Skip(len, p1, 1)
      case Off => Off
      case At(_, p2) =>
        match read(p2)
        case Off => Off
        case At(td, p3) =>
          match read(p3)
          case Off => Off
          case At(_, p4) => At(td, p4)
  }

  /** Key and value; keeps both lengths. */
  function KeyValue(read: Reader, len: int, p: int): (Cursor, Cursor)
  {
    match Sized(read, len, p)
    case Off => (Off, Off)
    case At(kl, p1) => (At(kl, p1), Sized(read, len, p1))
  }

  /** The header count and the headers. */
  function Tail(read: Reader, len: int, p: int): Cursor
  {
    match read(p)
    case Off => Off
    case At(n, p1) => Headers(read, len, p1, n)
  }

  function Assemble(read: Reader, len: int, p: int): Record
  {
    match Lead(read, len, p)
    case Off => NoRecord
    case At(td, p1) =>
      match KeyValue(read, len, p1)
      case (At(kl, _), At(vl, p2)) =>
        (match Tail(read, len, p2)
         case Off => NoRecord
         case At(_, next) =>
           var key := if kl >= 0 then kl else 0;
           Record(td, key, if vl >= 0 then key else 0, if vl >= 0 then vl else 0, next))
      case _ => NoRecord
  }

  function IntAt(s: seq<byte>): Reader
  {
    (q: int) => if q < 0 then Off else
      match ReadInt(s, q)
      case None => Off
      case Some((v, next)) => At(v, next)
  }

  /** One record: its leading fields, key, value, and as many headers as it announces. */
  function ParseRecord(s: seq<byte>, p: int): Record
  {
    Assemble(IntAt(s), |s|, p)
  }

  type RecordReader = int -> Record

  function RecordAt(s: seq<byte>): RecordReader
  {
    (q: int) => ParseRecord(s, q)
  }

  /** `n` records from `p` on, each with the bytes it took. */
  datatype Records = Broken | Parsed(items: seq<Record>, bytes: seq<seq<byte>>)

  function Cons(r: Record, b: seq<byte>, more: Records): Records
  {
    if more.Broken? then Broken else Parsed([r] + more.items, [b] + more.bytes)
  }

  function Chain(s: seq<byte>, rec: RecordReader, p: int, n: int): Records
    requires 0 <= p <= |s|
    decreases n
  {
    if n <= 0 then Parsed([], [])
    else
      var r := rec(p);
      if r.NoRecord? || !(p <= r.next <= |s|) then Broken
      else Cons(r, s[p..r.next], Chain(s, rec, r.next, n - 1))
  }

  /** A record of a decoded batch: its own timestamp, and where in it key and value are. */
  datatype Kept = Kept(timestamp: int, keyLength: int, valueOffset: int, valueLength: int)

  function Keep(first: int, r: Record): Kept
    requires r.Record?
  {
    Kept(first + r.timestampDelta, r.keyLength, r.valueOffset, r.valueLength)
  }

  /** What is kept of records parsed; nothing of one that was not. */
  function KeepAll(first: int, rs: seq<Record>): (ks: seq<Kept>)
    ensures |ks| == |rs|
  {
    seq(|rs|, i requires 0 <= i < |rs| => if rs[i].Record? then Keep(first, rs[i]) else Kept(0, 0, 0, 0))
  }

  datatype Decoded = Undecoded | Decoded(batch: Batch, crc: int, lastOffset: int, records: seq<Kept>)

  /** The integers of a batch header. */
  datatype HeaderFields = HeaderFields(
    base: int, length: int, epoch: int, magic: int, crc: int, attributes: int, lastOffsetDelta: int, firstTimestamp: int,
    maxTimestamp: int, producerId: int, producerEpoch: int, baseSequence: int, count: int)

  function ReadHeader(s: seq<byte>): HeaderFields
    requires |s| >= HEADER
  {
    HeaderFields(I64(s, 0), I32(s, 8), I32(s, 12), Signed(s[16], 256), I32(s, 17), I16(s, 21), I32(s, 23),
                 I64(s, 27), I64(s, 35), I64(s, 43), I16(s, 51), I32(s, 53), I32(s, 57))
  }

  /** A batch of any other magic yields only its first fields. */
  function Decode(s: seq<byte>): Decoded
  {
    if |s| < 17 then Undecoded
    else if Signed(s[16], 256) != 2 then
      Decoded(Batch(I64(s, 0), I32(s, 12), Signed(s[16], 256), 0, 0, 0, -1, -1, -1, []), 0, -1, [])
    else if |s| < HEADER then Undecoded
    else WithRecords(ReadHeader(s), Chain(s, RecordAt(s), HEADER, ReadHeader(s).count))
  }

  function WithRecords(h: HeaderFields, rs: Records): Decoded
  {
    if rs.Broken? then Undecoded
    else Decoded(Batch(h.base, h.epoch, h.magic, h.attributes, h.firstTimestamp, h.maxTimestamp,
                       h.producerId, h.producerEpoch, h.baseSequence, rs.bytes),
                 h.crc, h.base + h.lastOffsetDelta, KeepAll(h.firstTimestamp, rs.items))
  }

  /** `read` is the integer reader of these bytes, said so that it is not unfolded at every use. */
  ghost predicate IsReader(read: Reader, s: seq<byte>)
  {
    forall p: int :: ReadsInt(read, s, p)
  }

  ghost predicate ReadsInt(read: Reader, s: seq<byte>, p: int)
  {
    read(p) == IntAt(s)(p)
  }

  method NextInt(s: seq<byte>, p: int, ghost read: Reader) returns (c: Cursor)
    requires IsReader(read, s)
    ensures c == read(p)
  {
    assert ReadsInt(read, s, p);
    if p < 0 {
      return Off;
    }
    var r := ReadSignedVarint(s, p);
    c := match r case None => Off case Some((v, next)) => At(v, next);
  }

  method NextSized(s: seq<byte>, p: int, ghost read: Reader) returns (c: Cursor)
    requires IsReader(read, s)
    ensures c == Sized(read, |s|, p)
  {
    c := NextInt(s, p, read);
    if c.At? && c.value >= 0 {
      c := Skip(|s|, c.pos, c.value);
    }
  }

  method NextEntry(s: seq<byte>, p: int, ghost read: Reader) returns (c: Cursor)
    requires IsReader(read, s)
    ensures c == Entry(read, |s|, p)
  {
    c := NextInt(s, p, read);
    if c.At? {
      c := Skip(|s|, c.pos, c.value);
      if c.At? {
        c := NextSized(s, c.pos, read);
      }
    }
  }

  /** The header count, then the loop over the headers. */
  method NextTail(s: seq<byte>, p: int, ghost read: Reader) returns (c: Cursor)
    requires IsReader(read, s)
    ensures c == Tail(read, |s|, p)
  {
    c := NextInt(s, p, read);
    if c.Off? {
      return;
    }
    var n, at, h := c.value, c.pos, 0;
    while h < n
      invariant (h <= n || h == 0) && Headers(read, |s|, at, n - h) == Tail(read, |s|, p)
      decreases n - h
    {
      var e := NextEntry(s, at, read);
      if e.Off? {
        return Off;
      }
      at, h := e.pos, h + 1;
    }
    c := At(0, at);
  }

  method NextLead(s: seq<byte>, p: int, ghost read: Reader) returns (c: Cursor)
    requires IsReader(read, s)
    ensures c == Lead(read, |s|, p)
  {
    c := NextInt(s, p, read);
    if c.Off? {
      return;
    }
    c := Skip(|s|, c.pos, 1);
    if c.Off? {
      return;
    }
    var delta := NextInt(s, c.pos, read);
    if delta.Off? {
      return Off;
    }
    var offset := NextInt(s, delta.pos, read);
    c := if offset.Off? then Off else At(delta.value, offset.pos);
  }

  /** One record, field by field. */
  method NextRecord(s: seq<byte>, p: int, ghost read: Reader) returns (r: Record)
    requires IsReader(read, s)
    ensures r == Assemble(read, |s|, p)
  {
    var lead := NextLead(s, p, read);
    if lead.Off? {
      return NoRecord;
    }
    var key := NextSized(s, lead.pos, read);
    if key.Off? {
      return NoRecord;
    }
    var value := NextSized(s, key.pos, read);
    if value.Off? {
      return NoRecord;
    }
    var tail := NextTail(s, value.pos, read);
    if tail.Off? {
      return NoRecord;
    }
    var keyLength := if key.value >= 0 then key.value else 0;
    r := Record(lead.value, keyLength, if value.value >= 0 then keyLength else 0, if value.value >= 0 then value.value else 0, tail.pos);
  }

  ghost predicate IsRecordReader(rec: RecordReader, s: seq<byte>)
  {
    forall p: int :: ReadsRecord(rec, s, p)
  }

  ghost predicate ReadsRecord(rec: RecordReader, s: seq<byte>, p: int)
  {
    rec(p) == Assemble(IntAt(s), |s|, p)
  }

  method ReadRecord(s: seq<byte>, p: int, ghost rec: RecordReader) returns (r: Record)
    requires IsRecordReader(rec, s)
    ensures r == rec(p)
  {
    assert ReadsRecord(rec, s, p);
    r := NextRecord(s, p, IntAt(s));
  }

  /** The decoder's loop over the records. */
  method DecodeRecords(s: seq<byte>, n: int, ghost rec: RecordReader) returns (r: Records)
    requires HEADER <= |s| && IsRecordReader(rec, s)
    ensures r == Chain(s, rec, HEADER, n)
  {
    var p: int, i: nat, items: seq<Record>, bytes: seq<seq<byte>> := HEADER, 0, [], [];
    ghost var whole := Chain(s, rec, HEADER, n);
    ghost var left := whole;
    Append(Parsed([], []), whole);
    while i < n
      invariant 0 <= p <= |s| && left == Chain(s, rec, p, n - i) && whole == Joined(items, bytes, left)
      decreases n - i
    {
      var next := ReadRecord(s, p, rec);
      if next.NoRecord? || !(p <= next.next <= |s|) {
        return Broken;
      }
      left := Chain(s, rec, next.next, n - i - 1);
      JoinedNext(items, bytes, next, s[p..next.next], left);
      items, bytes := items + [next], bytes + [s[p..next.next]];
      p, i := next.next, i + 1;
    }
    r := Parsed(items, bytes);
    assert items + [] == items && bytes + [] == bytes;
  }

  method DecodeRecordBatch(s: seq<byte>) returns (d: Decoded)
    ensures d == Decode(s)
  {
    if |s| < 17 {
      return Undecoded;
    }
    var magic := Signed(s[16], 256);
    if magic != 2 {
      return Decoded(Batch(I64(s, 0), I32(s, 12), magic, 0, 0, 0, -1, -1, -1, []), 0, -1, []);
    }
    if |s| < HEADER {
      return Undecoded;
    }
    var h := ReadHeader(s);
    var rs := DecodeRecords(s, h.count, RecordAt(s));
    d := WithRecords(h, rs);
  }

  /** What was parsed, followed by what is left if that comes out. */
  function Joined(items: seq<Record>, bytes: seq<seq<byte>>, left: Records): Records
  {
    if left.Broken? then Broken else Parsed(items + left.items, bytes + left.bytes)
  }

  lemma Append(none: Records, whole: Records)
    requires none == Parsed([], [])
    ensures Joined(none.items, none.bytes, whole) == whole
  {
    if whole.Parsed? {
      assert [] + whole.items == whole.items && [] + whole.bytes == whole.bytes;
    }
  }

  lemma JoinedNext(items: seq<Record>, bytes: seq<seq<byte>>, r: Record, b: seq<byte>, more: Records)
    ensures Joined(items, bytes, Cons(r, b, more)) == Joined(items + [r], bytes + [b], more)
  {
    if more.Parsed? {
      assert items + ([r] + more.items) == (items + [r]) + more.items;
      assert bytes + ([b] + more.bytes) == (bytes + [b]) + more.bytes;
    }
  }

  // ---- Decoding does not look beyond a record ----

  /** `r` lies in `s` at `p`. */
  predicate Embeds(s: seq<byte>, p: nat, r: seq<byte>)
  {
    p + |r| <= |s| && s[p..p + |r|] == r
  }

  lemma Peel(s: seq<byte>, p: nat, a: seq<byte>, b: seq<byte>)
    requires Embeds(s, p, a + b)
    ensures Embeds(s, p, a) && Embeds(s, p + |a|, b)
  {
    var t := s[p..p + |a + b|];
    assert s[p..p + |a|] == t[..|a|];
    assert s[p + |a|..p + |a| + |b|] == t[|a|..];
  }

  lemma {:induction false} GroupsEmbed(s: seq<byte>, p: nat, r: seq<byte>, q: nat)
    requires Embeds(s, p, r)
    requires var (v, n) := ReadGroups(r, q, |r|); q < n <= |r| && r[n - 1] < 128
    ensures var (v, n) := ReadGroups(r, q, |r|); ReadGroups(s, p + q, |s|) == (v, p + n) && s[p + n - 1] < 128
    decreases |r| - q
  {
    assert s[p + q] == s[p..p + |r|][q];
    if r[q] >= 128 {
      GroupsEmbed(s, p, r, q + 1);
    }
  }

  lemma ReadEmbeds(s: seq<byte>, p: nat, r: seq<byte>, q: nat)
    requires Embeds(s, p, r) && ReadInt(r, q).Some?
    ensures ReadInt(s, p + q) == Some((ReadInt(r, q).value.0, p + ReadInt(r, q).value.1))
  {
    GroupsEmbed(s, p, r, q);
  }

  function Move(c: Cursor, p: int): Cursor
  {
    if c.Off? then Off else At(c.value, p + c.pos)
  }

  /** `g` does at `p + q` what `f` does at `q`, where `f` does anything. */
  ghost predicate Moved(f: Reader, g: Reader, p: int)
  {
    forall q :: f(q).At? ==> g(p + q) == Move(f(q), p)
  }

  lemma SizedMoves(f: Reader, g: Reader, len: int, len': int, p: int, q: int)
    requires Moved(f, g, p) && 0 <= p && p + len <= len' && Sized(f, len, q).At?
    ensures Sized(g, len', p + q) == Move(Sized(f, len, q), p)
  {
    assert f(q).At?;
  }

  lemma EntryMoves(f: Reader, g: Reader, len: int, len': int, p: int, q: int)
    requires Moved(f, g, p) && 0 <= p && p + len <= len' && Entry(f, len, q).At?
    ensures Entry(g, len', p + q) == Move(Entry(f, len, q), p)
  {
    assert f(q).At?;
    SizedMoves(f, g, len, len', p, f(q).pos + f(q).value);
  }

  lemma {:induction false} HeadersMove(f: Reader, g: Reader, len: int, len': int, p: int, q: int, n: int)
    requires Moved(f, g, p) && 0 <= p && p + len <= len' && Headers(f, len, q, n).At?
    ensures Headers(g, len', p + q, n) == Move(Headers(f, len, q, n), p)
    decreases n
  {
    if n > 0 {
      EntryMoves(f, g, len, len', p, q);
      HeadersMove(f, g, len, len', p, Entry(f, len, q).pos, n - 1);
    }
  }

  lemma LeadMoves(f: Reader, g: Reader, len: int, len': int, p: int, q: int)
    requires Moved(f, g, p) && 0 <= p && p + len <= len' && Lead(f, len, q).At?
    ensures Lead(g, len', p + q) == Move(Lead(f, len, q), p)
  {
    var q2 := f(q).pos + 1;
    assert g(p + q) == Move(f(q), p);
    assert g(p + q2) == Move(f(q2), p);
    assert g(p + f(q2).pos) == Move(f(f(q2).pos), p);
  }

  lemma KeyValueMoves(f: Reader, g: Reader, len: int, len': int, p: int, q: int)
    requires Moved(f, g, p) && 0 <= p && p + len <= len' && KeyValue(f, len, q).1.At?
    ensures KeyValue(g, len', p + q) == (Move(KeyValue(f, len, q).0, p), Move(KeyValue(f, len, q).1, p))
  {
    SizedMoves(f, g, len, len', p, q);
    SizedMoves(f, g, len, len', p, Sized(f, len, q).pos);
  }

  lemma TailMoves(f: Reader, g: Reader, len: int, len': int, p: int, q: int)
    requires Moved(f, g, p) && 0 <= p && p + len <= len' && Tail(f, len, q).At?
    ensures Tail(g, len', p + q) == Move(Tail(f, len, q), p)
  {
    assert f(q).At?;
    HeadersMove(f, g, len, len', p, f(q).pos, f(q).value);
  }

  lemma AssembleMoves(f: Reader, g: Reader, len: int, len': int, p: int)
    requires Moved(f, g, p) && 0 <= p && p + len <= len' && Assemble(f, len, 0).Record?
    ensures Assemble(g, len', p) == Assemble(f, len, 0).(next := p + Assemble(f, len, 0).next)
  {
    LeadMoves(f, g, len, len', p, 0);
    var q1 := Lead(f, len, 0).pos;
    KeyValueMoves(f, g, len, len', p, q1);
    TailMoves(f, g, len, len', p, KeyValue(f, len, q1).1.pos);
  }

  lemma OneIntMoved(s: seq<byte>, p: nat, r: seq<byte>, q: int)
    requires Embeds(s, p, r) && IntAt(r)(q).At?
    ensures IntAt(s)(p + q) == Move(IntAt(r)(q), p)
  {
    ReadEmbeds(s, p, r, q);
  }

  lemma IntMoved(s: seq<byte>, p: nat, r: seq<byte>)
    requires Embeds(s, p, r)
    ensures Moved(IntAt(r), IntAt(s), p)
  {
    forall q | IntAt(r)(q).At? ensures IntAt(s)(p + q) == Move(IntAt(r)(q), p) {
      OneIntMoved(s, p, r, q);
    }
  }

  /** The decoder reads a record the same wherever its bytes lie. */
  lemma RecordEmbeds(s: seq<byte>, p: nat, r: seq<byte>)
    requires Embeds(s, p, r) && ParseRecord(r, 0).Record?
    ensures ParseRecord(s, p) == ParseRecord(r, 0).(next := p + ParseRecord(r, 0).next)
  {
    IntMoved(s, p, r);
    AssembleMoves(IntAt(r), IntAt(s), |r|, |s|, p);
  }

  /** The decoder takes these bytes, and exactly these, as one record. */
  predicate WellFormedRecord(r: seq<byte>)
  {
    ParseRecord(r, 0).Record? && ParseRecord(r, 0).next == |r|
  }

  lemma FlatPeel(s: seq<byte>, p: nat, records: seq<seq<byte>>)
    requires records != [] && p <= |s| && s[p..] == Flat(records)
    ensures Embeds(s, p, records[0]) && s[p + |records[0]|..] == Flat(records[1..])
  {
    var r, t := records[0], s[p..];
    assert t == r + Flat(records[1..]);
    assert s[p..p + |r|] == t[..|r|] == r;
    assert s[p + |r|..] == t[|r|..] == Flat(records[1..]);
  }

  /** The reader takes each record of the list whole, one behind the other, for what is to be kept of it. */
  ghost predicate Takes(rec: RecordReader, p: int, records: seq<seq<byte>>, first: int, kept: seq<Kept>)
    requires |kept| == |records|
    decreases |records|
  {
    records != [] ==>
      && rec(p).Record? && rec(p).next == p + |records[0]| && Keep(first, rec(p)) == kept[0]
      && Takes(rec, p + |records[0]|, records[1..], first, kept[1..])
  }

  lemma KeepCons(first: int, r: Record, rs: seq<Record>)
    requires r.Record?
    ensures KeepAll(first, [r] + rs) == [Keep(first, r)] + KeepAll(first, rs)
  {}

  lemma {:induction false} ChainDecodes(s: seq<byte>, rec: RecordReader, p: nat, records: seq<seq<byte>>, first: int, kept: seq<Kept>)
    requires |kept| == |records| && p <= |s| && s[p..] == Flat(records) && Takes(rec, p, records, first, kept)
    ensures var rs := Chain(s, rec, p, |records|); rs.Parsed? && rs.bytes == records && KeepAll(first, rs.items) == kept
    decreases |records|
  {
    if records != [] {
      FlatPeel(s, p, records);
      ChainDecodes(s, rec, p + |records[0]|, records[1..], first, kept[1..]);
      KeepCons(first, rec(p), Chain(s, rec, p + |records[0]|, |records| - 1).items);
      assert records == [records[0]] + records[1..] && kept == [kept[0]] + kept[1..];
    }
  }

  /** `rec` takes the bytes `r` whole, for `k`, wherever they lie in `s`. */
  ghost predicate TakesWhole(s: seq<byte>, rec: RecordReader, r: seq<byte>, first: int, k: Kept)
  {
    forall q: nat :: Embeds(s, q, r) ==> rec(q).Record? && rec(q).next == q + |r| && Keep(first, rec(q)) == k
  }

  lemma {:induction false} AllTaken(s: seq<byte>, rec: RecordReader, p: nat, records: seq<seq<byte>>, first: int, kept: seq<Kept>)
    requires |kept| == |records| && p <= |s| && s[p..] == Flat(records)
    requires forall i | 0 <= i < |records| :: TakesWhole(s, rec, records[i], first, kept[i])
    ensures Takes(rec, p, records, first, kept)
    decreases |records|
  {
    if records != [] {
      FlatPeel(s, p, records);
      assert TakesWhole(s, rec, records[0], first, kept[0]);
      forall i | 0 <= i < |records[1..]| ensures TakesWhole(s, rec, records[1..][i], first, kept[1..][i]) {
        assert TakesWhole(s, rec, records[i + 1], first, kept[i + 1]);
      }
      AllTaken(s, rec, p + |records[0]|, records[1..], first, kept[1..]);
    }
  }

  lemma WellFormedTaken(s: seq<byte>, r: seq<byte>, first: int)
    requires WellFormedRecord(r)
    ensures TakesWhole(s, RecordAt(s), r, first, Keep(first, ParseRecord(r, 0)))
  {
    forall q: nat | Embeds(s, q, r)
      ensures RecordAt(s)(q).Record? && RecordAt(s)(q).next == q + |r| && Keep(first, RecordAt(s)(q)) == Keep(first, ParseRecord(r, 0))
    {
      RecordEmbeds(s, q, r);
    }
  }

  function ParseEach(records: seq<seq<byte>>): (rs: seq<Record>)
    ensures |rs| == |records|
  {
    seq(|records|, i requires 0 <= i < |records| => ParseRecord(records[i], 0))
  }

  /** What the decoder keeps of each of these records. */
  function KeptOf(first: int, records: seq<seq<byte>>): (ks: seq<Kept>)
    ensures |ks| == |records|
  {
    KeepAll(first, ParseEach(records))
  }

  lemma KeptAt(first: int, records: seq<seq<byte>>, i: nat)
    requires i < |records| && WellFormedRecord(records[i])
    ensures KeptOf(first, records)[i] == Keep(first, ParseRecord(records[i], 0))
  {}

  /** Well-formed records one after another are decoded one after another, byte for byte, as each would be by itself. */
  lemma RecordsDecode(s: seq<byte>, p: nat, records: seq<seq<byte>>, first: int)
    requires p <= |s| && s[p..] == Flat(records) && forall r | r in records :: WellFormedRecord(r)
    ensures var rs := Chain(s, RecordAt(s), p, |records|);
            rs.Parsed? && rs.bytes == records && KeepAll(first, rs.items) == KeptOf(first, records)
  {
    forall i | 0 <= i < |records| ensures TakesWhole(s, RecordAt(s), records[i], first, KeptOf(first, records)[i]) {
      WellFormedTaken(s, records[i], first);
      KeptAt(first, records, i);
    }
    AllTaken(s, RecordAt(s), p, records, first, KeptOf(first, records));
    ChainDecodes(s, RecordAt(s), p, records, first, KeptOf(first, records));
  }

  ghost predicate FieldsFit(b: Batch)
  {
    && FitsSigned(b.baseOffset, P64) && FitsSigned(b.epoch, P32) && FitsSigned(b.magic, 256) && FitsSigned(b.attributes, P16)
    && FitsSigned(b.firstTimestamp, P64) && FitsSigned(b.maxTimestamp, P64) && FitsSigned(b.producerId, P64)
    && FitsSigned(b.producerEpoch, P16) && FitsSigned(b.baseSequence, P32) && FitsSigned(|b.records|, P32)
  }

  function FieldsOf(b: Batch, length: int): HeaderFields
  {
    HeaderFields(b.baseOffset, length, b.epoch, b.magic, 0, b.attributes, |b.records| - 1, b.firstTimestamp,
                 b.maxTimestamp, b.producerId, b.producerEpoch, b.baseSequence, |b.records|)
  }

  lemma PeelSix(s: seq<byte>, front: seq<byte>, a: seq<byte>, b: seq<byte>, c: seq<byte>, d: seq<byte>, e: seq<byte>, f: seq<byte>)
    requires Embeds(s, 0, front + a + b + c + d + e + f)
    ensures Embeds(s, 0, front) && Embeds(s, |front|, a) && Embeds(s, |front| + |a|, b) && Embeds(s, |front| + |a| + |b|, c)
    ensures Embeds(s, |front| + |a| + |b| + |c|, d) && Embeds(s, |front| + |a| + |b| + |c| + |d|, e)
    ensures Embeds(s, |front| + |a| + |b| + |c| + |d| + |e|, f)
  {
    Peel(s, 0, front + a + b + c + d + e, f);
    Peel(s, 0, front + a + b + c + d, e);
    Peel(s, 0, front + a + b + c, d);
    Peel(s, 0, front + a + b, c);
    Peel(s, 0, front + a, b);
    Peel(s, 0, front, a);
  }

  /** Where each field of the header lies. */
  lemma HeaderLaid(b: Batch, length: int, s: seq<byte>)
    requires HEADER <= |s| && s[..HEADER] == Header(b, length)
    ensures Embeds(s, 0, B8(b.baseOffset)) && Embeds(s, 8, B4(length)) && Embeds(s, 12, B4(b.epoch)) && Embeds(s, 16, [b.magic % 256])
    ensures Embeds(s, 17, B4(0)) && Embeds(s, 21, B2(b.attributes)) && Embeds(s, 23, B4(|b.records| - 1))
    ensures Embeds(s, 27, B8(b.firstTimestamp)) && Embeds(s, 35, B8(b.maxTimestamp)) && Embeds(s, 43, B8(b.producerId))
    ensures Embeds(s, 51, B2(b.producerEpoch)) && Embeds(s, 53, B4(b.baseSequence)) && Embeds(s, 57, B4(|b.records|))
  {
    var front := B8(b.baseOffset) + B4(length) + B4(b.epoch) + [b.magic % 256] + B4(0) + B2(b.attributes) + B4(|b.records| - 1);
    assert s[0..HEADER] == s[..HEADER];
    PeelSix(s, front, B8(b.firstTimestamp), B8(b.maxTimestamp), B8(b.producerId), B2(b.producerEpoch), B4(b.baseSequence), B4(|b.records|));
    PeelSix(s, B8(b.baseOffset), B4(length), B4(b.epoch), [b.magic % 256], B4(0), B2(b.attributes), B4(|b.records| - 1));
  }

  /** The integer fields are read back from where they were written. */
  lemma HeaderReadsBack(b: Batch, length: int, s: seq<byte>)
    requires FieldsFit(b) && FitsSigned(length, P32) && HEADER <= |s| && s[..HEADER] == Header(b, length)
    ensures ReadHeader(s) == FieldsOf(b, length)
  {
    HeaderLaid(b, length, s);
    Read64(b.baseOffset, s, 0); Read32(length, s, 8); Read32(b.epoch, s, 12);
    assert s[16] == s[16..17][0];
    SignedOfMod(b.magic, 256);
    Read32(0, s, 17); Read16(b.attributes, s, 21); Read32(|b.records| - 1, s, 23);
    Read64(b.firstTimestamp, s, 27); Read64(b.maxTimestamp, s, 35); Read64(b.producerId, s, 43);
    Read16(b.producerEpoch, s, 51); Read32(b.baseSequence, s, 53); Read32(|b.records|, s, 57);
  }

  /**
   What the log writes of a batch of well-formed records that fits its buffer is exactly
   serialized_size() bytes, and decodes to the same batch, with a zero checksum, the last offset
   of its records, and of each record what the decoder makes of it by itself.
   */
  lemma BatchRoundTrip(b: Batch, cap: nat)
    requires HEADER < cap < 0x8000_0000 && SerializedSize(b) < cap
    requires b.magic == 2 && FieldsFit(b) && forall r | r in b.records :: WellFormedRecord(r)
    ensures |Serialize(b, cap)| == SerializedSize(b)
    ensures Decode(Serialize(b, cap)) == Decoded(b, 0, b.baseOffset + |b.records| - 1, KeptOf(b.firstTimestamp, b.records))
  {
    BodyIsWholeIff(b.records, HEADER, cap);
    var s := Serialize(b, cap);
    assert s[HEADER..] == Flat(b.records);
    RecordsDecode(s, HEADER, b.records, b.firstTimestamp);
    HeaderReadsBack(b, |s| - 12, s);
    DecodeOf(b, s, |s| - 12, KeptOf(b.firstTimestamp, b.records));
  }

  /** Of a batch of any other version only the base offset, the epoch and the version are read. */
  lemma OtherVersionDecodes(b: Batch, cap: nat)
    requires HEADER < cap < 0x8000_0000 && b.magic != 2 && FieldsFit(b)
    ensures Decode(Serialize(b, cap)) == Decoded(Batch(b.baseOffset, b.epoch, b.magic, 0, 0, 0, -1, -1, -1, []), 0, -1, [])
  {
    var s := Serialize(b, cap);
    HeaderReadsBack(b, |s| - 12, s);
    assert ReadHeader(s) == FieldsOf(b, |s| - 12);
  }

  lemma DecodeOf(b: Batch, s: seq<byte>, length: int, kept: seq<Kept>)
    requires HEADER <= |s| && ReadHeader(s) == FieldsOf(b, length) && b.magic == 2
    requires var rs := Chain(s, RecordAt(s), HEADER, |b.records|);
             rs.Parsed? && rs.bytes == b.records && KeepAll(b.firstTimestamp, rs.items) == kept
    ensures Decode(s) == Decoded(b, 0, b.baseOffset + |b.records| - 1, kept)
  {
    assert Decode(s) == WithRecords(FieldsOf(b, length), Chain(s, RecordAt(s), HEADER, |b.records|));
  }
}
