/** The REST endpoints: records written by a produce, and the peek that reads them back from the log. */
module RestPeek {
  import Bits
  import KafkaRecords
  import Options
  import opened Bytes
  import opened Varint
  import opened RecordBatch
  import opened LogModel
  import opened LogRuns

  // ---- The writer ----

  datatype Pair = Pair(key: seq<byte>, value: seq<byte>)

  function KeyLength(key: seq<byte>): int
  {
    if key == [] then -1 else |key|
  }

  /** The pieces of a record behind its length. */
  datatype Parts = Parts(attributes: seq<byte>, stamp: seq<byte>, delta: seq<byte>, keyLength: seq<byte>, key: seq<byte>,
                         valueLength: seq<byte>, value: seq<byte>, headers: seq<byte>)

  function Join(x: Parts): seq<byte>
  {
    x.attributes + x.stamp + x.delta + x.keyLength + x.key + x.valueLength + x.value + x.headers
  }

  function PartsOf(i: int, m: Pair): Parts
  {
    Parts([0], Encode(0), Encode(i), Encode(KeyLength(m.key)), m.key, Encode(|m.value|), m.value, Encode(0))
  }

  /** A record: length, attributes, timestamp delta, offset delta, key, value, no headers. */
  function RestRecord(i: int, m: Pair): seq<byte>
  {
    var content := Join(PartsOf(i, m));
    Encode(|content|) + content
  }

  method WriteContent(i: nat, m: Pair) returns (content: seq<byte>)
    requires FitsSigned(i, P64) && FitsSigned(|m.key|, P64) && FitsSigned(|m.value|, P64)
    ensures content == Join(PartsOf(i, m))
  {
    content := [0];
    content := WriteVarint(content, 0);
    content := WriteVarint(content, i);
    content := WriteVarint(content, KeyLength(m.key));
    if m.key != [] {
      content := content + m.key;
    }
    content := WriteVarint(content, |m.value|);
    content := content + m.value;
    content := WriteVarint(content, 0);
  }

  method WriteRecord(i: nat, m: Pair) returns (rbuf: seq<byte>)
    requires i < P64 / 2 && |RestRecord(i, m)| < P64 / 2
    ensures rbuf == RestRecord(i, m)
  {
    PartsFit(i, m, P64 / 2);
    var content := WriteContent(i, m);
    rbuf := WriteVarint([], |content|);
    rbuf := rbuf + content;
  }

  /** How a message with its number becomes a record. */
  type Recorder = (int, Pair) -> seq<byte>

  /** The records of messages `i` on. */
  function Records(rec: Recorder, messages: seq<Pair>, i: nat): seq<seq<byte>>
    requires i <= |messages|
    decreases |messages| - i
  {
    if i == |messages| then [] else [rec(i, messages[i])] + Records(rec, messages, i + 1)
  }

  /** The records of a produce request. */
  function RestRecords(messages: seq<Pair>): seq<seq<byte>>
  {
    Records(RestRecord, messages, 0)
  }

  /** A recorder that makes the REST writer's records. */
  ghost predicate IsRest(rec: Recorder)
  {
    forall i, m :: MakesRest(rec, i, m)
  }

  ghost predicate MakesRest(rec: Recorder, i: int, m: Pair)
  {
    rec(i, m) == RestRecord(i, m)
  }

  method WriteNext(i: nat, m: Pair, ghost rec: Recorder) returns (r: seq<byte>)
    requires IsRest(rec) && i < P64 / 2 && |rec(i, m)| < P64 / 2
    ensures r == rec(i, m)
  {
    assert MakesRest(rec, i, m);
    r := WriteRecord(i, m);
  }

  method WriteEach(messages: seq<Pair>, ghost rec: Recorder) returns (records: seq<seq<byte>>)
    requires IsRest(rec) && |messages| < P64 / 2 && forall i | 0 <= i < |messages| :: |rec(i, messages[i])| < P64 / 2
    ensures records == Records(rec, messages, 0)
  {
    records := [];
    for i := 0 to |messages|
      invariant records + Records(rec, messages, i) == Records(rec, messages, 0)
    {
      var r := WriteNext(i, messages[i], rec);
      ghost var rest := Records(rec, messages, i + 1);
      assert records + ([r] + rest) == (records + [r]) + rest;
      records := records + [r];
    }
  }

  method WriteRecords(messages: seq<Pair>) returns (records: seq<seq<byte>>)
    requires |messages| < P64 / 2 && forall i | 0 <= i < |messages| :: |RestRecord(i, messages[i])| < P64 / 2
    ensures records == RestRecords(messages)
  {
    records := WriteEach(messages, RestRecord);
  }

  // ---- Where a record's fields lie ----

  datatype Layout = Layout(p1: int, p2: int, p3: int, p4: int, p5: int, p6: int, p7: int, p8: int, p9: int)

  /** For a record at `p` with this length field and these pieces. */
  function LayoutOf(p: int, length: seq<byte>, x: Parts): Layout
  {
    var p1 := p + |length|;
    var p2 := p1 + |x.attributes|;
    var p3 := p2 + |x.stamp|;
    var p4 := p3 + |x.delta|;
    var p5 := p4 + |x.keyLength|;
    var p6 := p5 + |x.key|;
    var p7 := p6 + |x.valueLength|;
    var p8 := p7 + |x.value|;
    Layout(p1, p2, p3, p4, p5, p6, p7, p8, p8 + |x.headers|)
  }

  function RestLayout(p: int, i: nat, m: Pair): Layout
  {
    LayoutOf(p, Encode(|Join(PartsOf(i, m))|), PartsOf(i, m))
  }

  /** Eight pieces in a row lie one behind the other. */
  lemma PeelAll(s: seq<byte>, p: nat, a: seq<byte>, b: seq<byte>, c: seq<byte>, d: seq<byte>, e: seq<byte>, f: seq<byte>,
                g: seq<byte>, h: seq<byte>)
    requires Embeds(s, p, a + b + c + d + e + f + g + h)
    ensures Embeds(s, p + |a|, b) && Embeds(s, p + |a| + |b|, c) && Embeds(s, p + |a| + |b| + |c|, d)
    ensures Embeds(s, p + |a| + |b| + |c| + |d|, e) && Embeds(s, p + |a| + |b| + |c| + |d| + |e|, f)
    ensures Embeds(s, p + |a| + |b| + |c| + |d| + |e| + |f|, g) && Embeds(s, p + |a| + |b| + |c| + |d| + |e| + |f| + |g|, h)
  {
    Peel(s, p, a + b + c + d + e + f + g, h);
    Peel(s, p, a + b + c + d + e + f, g);
    Peel(s, p, a + b + c + d + e, f);
    Peel(s, p, a + b + c + d, e);
    Peel(s, p, a + b + c, d);
    Peel(s, p, a + b, c);
    Peel(s, p, a, b);
  }

  ghost predicate IsLaid(s: seq<byte>, p: nat, length: seq<byte>, x: Parts, l: Layout)
  {
    && l == LayoutOf(p, length, x) && l.p9 <= |s|
    && Embeds(s, p, length) && Embeds(s, l.p2, x.stamp) && Embeds(s, l.p3, x.delta) && Embeds(s, l.p4, x.keyLength)
    && Embeds(s, l.p5, x.key) && Embeds(s, l.p6, x.valueLength) && Embeds(s, l.p7, x.value) && Embeds(s, l.p8, x.headers)
  }

  lemma Laid(s: seq<byte>, p: nat, length: seq<byte>, x: Parts)
    requires Embeds(s, p, length + Join(x))
    ensures var l := LayoutOf(p, length, x); IsLaid(s, p, length, x, l) && l.p9 == p + |length + Join(x)|
  {
    var l := LayoutOf(p, length, x);
    Peel(s, p, length, Join(x));
    PeelAll(s, l.p1, x.attributes, x.stamp, x.delta, x.keyLength, x.key, x.valueLength, x.value, x.headers);
  }

  /** A reader that takes each integer of the record for what was written. */
  ghost predicate Reads(read: Reader, l: Layout, p: int, length: int, i: nat, m: Pair)
  {
    && read(p) == At(length, l.p1) && read(l.p2) == At(0, l.p3) && read(l.p3) == At(i, l.p4)
    && read(l.p4) == At(KeyLength(m.key), l.p5) && read(l.p6) == At(|m.value|, l.p7) && read(l.p8) == At(0, l.p9)
  }

  /** Wherever these bytes lie below `end`, the reader takes them for `v`. */
  ghost predicate Back(read: Reader, s: seq<byte>, end: int, e: seq<byte>, v: int)
  {
    forall q: nat | Embeds(s, q, e) && q + |e| <= end :: read(q) == At(v, q + |e|)
  }

  lemma BackAt(read: Reader, s: seq<byte>, end: int, e: seq<byte>, v: int, q: int)
    requires Back(read, s, end, e, v) && 0 <= q && Embeds(s, q, e) && q + |e| <= end
    ensures read(q) == At(v, q + |e|)
  {}

  lemma ReadsFront(read: Reader, s: seq<byte>, end: int, p: nat, length: int, e: seq<byte>, x: Parts, l: Layout, i: nat)
    requires IsLaid(s, p, e, x, l) && l.p9 <= end
    requires Back(read, s, end, e, length) && Back(read, s, end, x.stamp, 0) && Back(read, s, end, x.delta, i)
    ensures read(p) == At(length, l.p1) && read(l.p2) == At(0, l.p3) && read(l.p3) == At(i, l.p4)
  {
    BackAt(read, s, end, e, length, p);
    BackAt(read, s, end, x.stamp, 0, l.p2);
    BackAt(read, s, end, x.delta, i, l.p3);
  }

  lemma ReadsRear(read: Reader, s: seq<byte>, end: int, p: nat, e: seq<byte>, x: Parts, l: Layout, keyLength: int, valueLength: int)
    requires IsLaid(s, p, e, x, l) && l.p9 <= end
    requires Back(read, s, end, x.keyLength, keyLength) && Back(read, s, end, x.valueLength, valueLength) && Back(read, s, end, x.headers, 0)
    ensures read(l.p4) == At(keyLength, l.p5) && read(l.p6) == At(valueLength, l.p7) && read(l.p8) == At(0, l.p9)
  {
    BackAt(read, s, end, x.keyLength, keyLength, l.p4);
    BackAt(read, s, end, x.valueLength, valueLength, l.p6);
    BackAt(read, s, end, x.headers, 0, l.p8);
  }

  /** Such a reader, from what it does with each integer written. */
  lemma ReadsAll(read: Reader, s: seq<byte>, end: int, p: nat, length: int, e: seq<byte>, x: Parts, l: Layout, i: nat, m: Pair)
    requires IsLaid(s, p, e, x, l) && l.p9 <= end
    requires Back(read, s, end, e, length) && Back(read, s, end, x.stamp, 0) && Back(read, s, end, x.delta, i)
    requires Back(read, s, end, x.keyLength, KeyLength(m.key)) && Back(read, s, end, x.valueLength, |m.value|)
    requires Back(read, s, end, x.headers, 0)
    ensures Reads(read, l, p, length, i, m)
  {
    ReadsFront(read, s, end, p, length, e, x, l, i);
    ReadsRear(read, s, end, p, e, x, l, KeyLength(m.key), |m.value|);
  }

  // ---- The Kafka decoder takes a REST record as one record ----

  lemma PartsFit(i: nat, m: Pair, bound: nat)
    requires |RestRecord(i, m)| < bound
    ensures |Join(PartsOf(i, m))| < bound && |m.key| < bound && |m.value| < bound
  {}

  /** The record a message is written as: deltas 0 and its number, an empty key as null, no headers. */
  function ContentOf(i: int, m: Pair): KafkaRecords.Content
  {
    KafkaRecords.Content(0, 0, i, if m.key == [] then Options.None else Options.Some(m.key), Options.Some(m.value), [])
  }

  lemma Rejoin(a: seq<byte>, b: seq<byte>, c: seq<byte>, d: seq<byte>, e: seq<byte>, f: seq<byte>, g: seq<byte>, h: seq<byte>)
    ensures a + b + c + (d + e) + (f + g) + h + [] == a + b + c + d + e + f + g + h
  {}

  lemma RestIsContent(i: int, m: Pair)
    ensures RestRecord(i, m) == KafkaRecords.Written(ContentOf(i, m))
  {
    var x := PartsOf(i, m);
    Rejoin(x.attributes, x.stamp, x.delta, x.keyLength, x.key, x.valueLength, x.value, x.headers);
  }

  lemma ContentFits(i: nat, m: Pair)
    requires |RestRecord(i, m)| < P32 / 2 && i < P32 / 2
    ensures KafkaRecords.Writable(ContentOf(i, m))
  {
    PartsFit(i, m, P32 / 2);
    RestIsContent(i, m);
  }

  /** What REST clients produce, Kafka clients can fetch: the decoder takes the record whole, and for its key and value. */
  lemma RestIsWellFormed(i: nat, m: Pair)
    requires |RestRecord(i, m)| < P32 / 2 && i < P32 / 2
    ensures var r := RestRecord(i, m);
            WellFormedRecord(r) && ParseRecord(r, 0) == Record(0, |m.key|, |m.key|, |m.value|, |r|)
  {
    RestIsContent(i, m);
    ContentFits(i, m);
    KafkaRecords.RecordIsWellFormed(ContentOf(i, m));
  }

  // ---- The peek ----

  /** What the peek shows of a record; an empty key is shown as null. */
  datatype Message = Message(offset: int, key: seq<byte>, value: seq<byte>)

  datatype Peeked = Halt | Peeked(offsetDelta: int, key: seq<byte>, value: seq<byte>, next: int)

  datatype Piece = NoPiece | Piece(bytes: seq<byte>, next: int)

  /** The peek's integer reader in a batch that ends at `end`. */
  function PeekAt(s: seq<byte>, end: nat): Reader
    requires end <= |s|
  {
    (q: int) => if q < 0 then Off else var (v, next) := Peek(s, q, end); At(v, next)
  }

  /** A length and as many bytes; none if the length is not positive. */
  function PieceAt(s: seq<byte>, read: Reader, end: int, p: int): Piece
  {
    match read(p)
    case Off => NoPiece
    case At(n, p1) =>
      if n <= 0 then Piece([], p1)
      else if 0 <= p1 && p1 + n <= end <= |s| then Piece(s[p1..p1 + n], p1 + n)
      else NoPiece
  }

  /** Length, attributes, timestamp delta and offset delta; keeps the offset delta. */
  function PeekLead(read: Reader, end: int, p: int): Cursor
  {
    match read(p)
    case Off => Off
    case At(_, p1) =>
      if p1 >= end || p1 + 1 >= end then Off
      else
        match read(p1 + 1)
        case Off => Off
        case At(_, p3) => read(p3)
  }

  function PeekRecord(s: seq<byte>, read: Reader, end: int, p: int): Peeked
  {
    match PeekLead(read, end, p)
    case Off => Halt
    case At(delta, p1) =>
      match PieceAt(s, read, end, p1)
      case NoPiece => Halt
      case Piece(key, p2) =>
        match PieceAt(s, read, end, p2)
        case NoPiece => Halt
        case Piece(value, p3) =>
          match read(p3)
          case Off => Halt
          case At(_, next) => Peeked(delta, key, value, next)
  }

  type Peeker = int -> Peeked

  /** A peeker for the batch that ends at `end`. */
  type Opener = (seq<byte>, int) -> Peeker

  function PeekerOf(s: seq<byte>, end: int): Peeker
  {
    (q: int) => if 0 <= end <= |s| then PeekRecord(s, PeekAt(s, end), end, q) else Halt
  }

  /** Up to `left` records of a batch and up to `room` messages. */
  function PeekRecords(peek: Peeker, end: int, base: int, p: int, left: int, room: nat): (r: seq<Message>)
    ensures |r| <= room
    decreases left
  {
    if left <= 0 || room == 0 || p >= end then []
    else
      match peek(p)
      case Halt => []
      case Peeked(delta, key, value, next) =>
        [Message(base + delta, key, value)] + PeekRecords(peek, end, base, next, left - 1, room - 1)
  }

  datatype Turn = End | Turn(shown: seq<Message>, next: int)

  type Turner = (int, int) -> Turn

  /** One turn over the batch at `scan`. */
  function TurnAt(open: Opener, s: seq<byte>, scan: int, room: int): Turn
  {
    if scan < 0 || scan + 12 > |s| || room <= 0 then End
    else
      var base, len := I64(s, scan), I32(s, scan + 8);
      var end := scan + 12 + len;
      if len <= 0 || end > |s| then End
      else if end - scan < HEADER then Turn([], end)
      else Turn(PeekRecords(open(s, end), end, base, scan + HEADER, I32(s, scan + 57), room), end)
  }

  function TurnerOf(open: Opener, s: seq<byte>): Turner
  {
    (scan: int, room: int) => TurnAt(open, s, scan, room)
  }

  /** Turn after turn over `size` bytes, up to `room` messages. */
  function PeekBatches(turn: Turner, size: int, scan: int, room: int): seq<Message>
    decreases size - scan
  {
    match turn(scan, room)
    case End => []
    case Turn(shown, next) =>
      if scan < next <= size then shown + PeekBatches(turn, size, next, room - |shown|) else []
  }

  /** The messages shown for the bytes of a read: whole batches one after another, up to `room` messages. */
  function PeekAll(s: seq<byte>, room: nat): seq<Message>
  {
    PeekBatches(TurnerOf(PeekerOf, s), |s|, 0, room)
  }

  // ---- A REST record read back ----

  lemma PeekBack(s: seq<byte>, end: nat, v: int)
    requires end <= |s| && FitsSigned(v, P64)
    ensures Back(PeekAt(s, end), s, end, Encode(v), v)
  {
    forall q: nat | Embeds(s, q, Encode(v)) && q + |Encode(v)| <= end ensures PeekAt(s, end)(q) == At(v, q + |Encode(v)|) {
      PeekReadsBack(v, s, q, end);
    }
  }

  lemma PeekReadsRecord(s: seq<byte>, end: nat, p: nat, i: nat, m: Pair)
    requires end <= |s| && Embeds(s, p, RestRecord(i, m)) && p + |RestRecord(i, m)| <= end
    requires |RestRecord(i, m)| < P64 / 2 && i < P64 / 2
    ensures Reads(PeekAt(s, end), RestLayout(p, i, m), p, |Join(PartsOf(i, m))|, i, m)
  {
    PartsFit(i, m, P64 / 2);
    var x := PartsOf(i, m);
    PeekBack(s, end, |Join(x)|);
    PeekBack(s, end, 0);
    PeekBack(s, end, i);
    PeekBack(s, end, KeyLength(m.key));
    PeekBack(s, end, |m.value|);
    Laid(s, p, Encode(|Join(x)|), x);
    ReadsAll(PeekAt(s, end), s, end, p, |Join(x)|, Encode(|Join(x)|), x, RestLayout(p, i, m), i, m);
  }

  lemma PeekAssembles(s: seq<byte>, read: Reader, end: int, p: int, l: Layout, length: int, i: nat, m: Pair)
    requires Reads(read, l, p, length, i, m) && l.p2 == l.p1 + 1 && l.p6 == l.p5 + |m.key| && l.p8 == l.p7 + |m.value|
    requires 0 <= l.p5 && 0 <= l.p7 && l.p2 < end && l.p6 <= end && l.p8 <= end <= |s|
    requires Embeds(s, l.p5, m.key) && Embeds(s, l.p7, m.value)
    ensures PeekRecord(s, read, end, p) == Peeked(i, m.key, m.value, l.p9)
  {
    assert PeekLead(read, end, p) == At(i, l.p4);
    assert PieceAt(s, read, end, l.p4) == Piece(m.key, l.p6);
    assert PieceAt(s, read, end, l.p6) == Piece(m.value, l.p8);
  }

  /** A record written by the REST writer is shown as it was given: offset delta, key and value. */
  lemma PeekReturnsRecord(s: seq<byte>, end: nat, p: nat, i: nat, m: Pair)
    requires end <= |s| && Embeds(s, p, RestRecord(i, m)) && p + |RestRecord(i, m)| <= end
    requires |RestRecord(i, m)| < P64 / 2 && i < P64 / 2
    ensures PeekerOf(s, end)(p) == Peeked(i, m.key, m.value, p + |RestRecord(i, m)|)
  {
    PeekReadsRecord(s, end, p, i, m);
    Laid(s, p, Encode(|Join(PartsOf(i, m))|), PartsOf(i, m));
    PeekAssembles(s, PeekAt(s, end), end, p, RestLayout(p, i, m), |Join(PartsOf(i, m))|, i, m);
  }

  /** `peek` is the peeker of this batch, said so that it is not unfolded at every use. */
  ghost predicate IsPeeker(peek: Peeker, s: seq<byte>, end: int)
  {
    forall q: int :: Matches(peek, s, end, q)
  }

  ghost predicate Matches(peek: Peeker, s: seq<byte>, end: int, q: int)
  {
    peek(q) == PeekerOf(s, end)(q)
  }

  lemma PeekReturns(peek: Peeker, s: seq<byte>, end: nat, p: nat, i: nat, m: Pair)
    requires IsPeeker(peek, s, end) && end <= |s| && Embeds(s, p, RestRecord(i, m)) && p + |RestRecord(i, m)| <= end
    requires |RestRecord(i, m)| < P64 / 2 && i < P64 / 2
    ensures peek(p) == Peeked(i, m.key, m.value, p + |RestRecord(i, m)|)
  {
    PeekReturnsRecord(s, end, p, i, m);
    assert Matches(peek, s, end, p);
  }

  /** The messages of one produce request at base offset `base`, from message `i` on. */
  function Shown(messages: seq<Pair>, base: int, i: nat): (r: seq<Message>)
    requires i <= |messages|
    ensures |r| == |messages| - i
    decreases |messages| - i
  {
    if i == |messages| then [] else [Message(base + i, messages[i].key, messages[i].value)] + Shown(messages, base, i + 1)
  }

  function Take(ms: seq<Message>, n: nat): seq<Message>
  {
    if n < |ms| then ms[..n] else ms
  }

  /** The peek shows every one of these records, wherever it lies, as its message. */
  ghost predicate ShowsEach(peek: Peeker, s: seq<byte>, end: int, recs: seq<seq<byte>>, messages: seq<Pair>)
  {
    && |recs| == |messages|
    && forall j: nat, q: nat | j < |recs| && Embeds(s, q, recs[j]) && q + |recs[j]| <= end ::
         peek(q) == Peeked(j, messages[j].key, messages[j].value, q + |recs[j]|)
  }

  /** So does the peek of any bytes. */
  ghost predicate Peekable(open: Opener, recs: seq<seq<byte>>, messages: seq<Pair>)
  {
    && |recs| == |messages| && (forall j: nat | j < |recs| :: recs[j] != [])
    && forall s: seq<byte>, end: nat | end <= |s| :: ShowsEach(open(s, end), s, end, recs, messages)
  }

  lemma FlatOf(s: seq<byte>, p: nat, end: nat, r: seq<byte>, rest: seq<seq<byte>>)
    requires p <= end <= |s| && s[p..end] == Flat([r] + rest)
    ensures p + |r| <= end && Embeds(s, p, r) && s[p + |r|..end] == Flat(rest)
  {
    assert ([r] + rest)[1..] == rest;
    var t := s[p..end];
    assert t == r + Flat(rest);
    assert s[p..p + |r|] == t[..|r|] == r;
    assert s[p + |r|..end] == t[|r|..] == Flat(rest);
  }

  lemma TakeCons(m: Message, ms: seq<Message>, n: nat)
    ensures Take([m] + ms, n + 1) == [m] + Take(ms, n)
  {}

  lemma ShownAt(peek: Peeker, s: seq<byte>, end: int, recs: seq<seq<byte>>, messages: seq<Pair>, j: nat, q: nat)
    requires ShowsEach(peek, s, end, recs, messages) && j < |recs| && Embeds(s, q, recs[j]) && q + |recs[j]| <= end
    ensures peek(q) == Peeked(j, messages[j].key, messages[j].value, q + |recs[j]|)
  {}

  lemma PeekOneMore(peek: Peeker, end: int, base: int, p: int, left: int, room: nat, j: int, m: Pair, next: int)
    requires left > 0 && room > 0 && p < end && peek(p) == Peeked(j, m.key, m.value, next)
    ensures PeekRecords(peek, end, base, p, left, room)
         == [Message(base + j, m.key, m.value)] + PeekRecords(peek, end, base, next, left - 1, room - 1)
  {}

  /** From `p` on the peek shows the messages from `i` on, one behind the other, up to `end`. */
  ghost predicate Lined(peek: Peeker, end: int, p: int, messages: seq<Pair>, i: nat)
    requires i <= |messages|
    decreases |messages| - i
  {
    if i == |messages| then p == end
    else p < end && peek(p).Peeked? && peek(p) == Peeked(i, messages[i].key, messages[i].value, peek(p).next)
         && Lined(peek, end, peek(p).next, messages, i + 1)
  }

  lemma {:induction false} RecordsLined(peek: Peeker, s: seq<byte>, end: nat, p: nat, recs: seq<seq<byte>>, messages: seq<Pair>, i: nat)
    requires ShowsEach(peek, s, end, recs, messages) && (forall j: nat | j < |recs| :: recs[j] != [])
    requires i <= |messages| && p <= end <= |s| && s[p..end] == Flat(recs[i..])
    ensures Lined(peek, end, p, messages, i)
    decreases |messages| - i
  {
    if i < |messages| {
      assert recs[i..] == [recs[i]] + recs[i + 1..];
      FlatOf(s, p, end, recs[i], recs[i + 1..]);
      ShownAt(peek, s, end, recs, messages, i, p);
      RecordsLined(peek, s, end, p + |recs[i]|, recs, messages, i + 1);
    } else {
      assert recs[i..] == [];
    }
  }

  lemma {:induction false} LinedShown(peek: Peeker, end: int, base: int, p: int, messages: seq<Pair>, i: nat, room: nat)
    requires i <= |messages| && Lined(peek, end, p, messages, i)
    ensures PeekRecords(peek, end, base, p, |messages| - i, room) == Take(Shown(messages, base, i), room)
    decreases |messages| - i
  {
    if i < |messages| && room > 0 {
      var next := peek(p).next;
      PeekOneMore(peek, end, base, p, |messages| - i, room, i, messages[i], next);
      LinedShown(peek, end, base, next, messages, i + 1, room - 1);
      TakeCons(Message(base + i, messages[i].key, messages[i].value), Shown(messages, base, i + 1), room - 1);
    }
  }

  lemma RecordsShown(peek: Peeker, s: seq<byte>, end: nat, base: int, p: nat, recs: seq<seq<byte>>, messages: seq<Pair>, i: nat, room: nat)
    requires ShowsEach(peek, s, end, recs, messages) && (forall j: nat | j < |recs| :: recs[j] != [])
    requires i <= |messages| && p <= end <= |s| && s[p..end] == Flat(recs[i..])
    ensures PeekRecords(peek, end, base, p, |messages| - i, room) == Take(Shown(messages, base, i), room)
  {
    RecordsLined(peek, s, end, p, recs, messages, i);
    LinedShown(peek, end, base, p, messages, i, room);
  }

  // ---- A batch read back ----

  /** A stored batch of these records. */
  ghost predicate BatchOf(b: seq<byte>, base: int, recs: seq<seq<byte>>)
  {
    Stored(b) && Base(b) == base && Count(b) == |recs| && b[HEADER..] == Flat(recs)
  }

  lemma BatchFields(s: seq<byte>, scan: nat, b: seq<byte>)
    requires Stored(b) && Embeds(s, scan, b)
    ensures I64(s, scan) == Base(b) && I32(s, scan + 8) == |b| - 12 && I32(s, scan + 57) == Count(b)
    ensures s[scan + HEADER..scan + |b|] == b[HEADER..]
  {
    SameInts(s, scan, b);
    forall k | 0 <= k < |b| ensures s[scan + k] == b[k] {
      assert s[scan + k] == s[scan..scan + |b|][k];
    }
  }

  lemma BatchShown(open: Opener, s: seq<byte>, scan: nat, b: seq<byte>, base: int, recs: seq<seq<byte>>, messages: seq<Pair>, room: nat)
    requires BatchOf(b, base, recs) && Peekable(open, recs, messages) && Embeds(s, scan, b)
    ensures var end := scan + |b|;
            PeekRecords(open(s, end), end, base, scan + HEADER, |messages|, room) == Take(Shown(messages, base, 0), room)
  {
    var end := scan + |b|;
    BatchFields(s, scan, b);
    assert recs[0..] == recs;
    assert ShowsEach(open(s, end), s, end, recs, messages);
    RecordsShown(open(s, end), s, end, base, scan + HEADER, recs, messages, 0, room);
  }

  // ---- A read's batches shown ----

  /** Produce requests, the records written for them and the base offsets they were stored at. */
  datatype Posts = Posts(bases: seq<int>, records: seq<seq<seq<byte>>>, messages: seq<seq<Pair>>)

  ghost predicate AreStored(open: Opener, bs: seq<seq<byte>>, posts: Posts)
  {
    && |posts.bases| == |posts.records| == |posts.messages| == |bs|
    && forall k: nat | k < |bs| :: IsStored(open, bs, posts, k)
  }

  ghost predicate IsStored(open: Opener, bs: seq<seq<byte>>, posts: Posts, k: nat)
    requires |posts.bases| == |posts.records| == |posts.messages| == |bs| && k < |bs|
  {
    BatchOf(bs[k], posts.bases[k], posts.records[k]) && Peekable(open, posts.records[k], posts.messages[k])
  }

  /** The messages of requests `k` up to `end`. */
  function AllShown(posts: Posts, k: nat, end: nat): seq<Message>
    requires k <= end <= |posts.bases| == |posts.messages|
    decreases end - k
  {
    if k == end then [] else Shown(posts.messages[k], posts.bases[k], 0) + AllShown(posts, k + 1, end)
  }

  lemma TakeBoth(a: seq<Message>, b: seq<Message>, n: nat, rest: seq<Message>)
    requires |Take(a, n)| <= n && rest == Take(b, n - |Take(a, n)|)
    ensures Take(a, n) + rest == Take(a + b, n)
  {}

  /** A turn over a stored batch shows its messages. */
  lemma TurnShows(open: Opener, s: seq<byte>, scan: nat, b: seq<byte>, base: int, recs: seq<seq<byte>>, messages: seq<Pair>, room: nat)
    requires BatchOf(b, base, recs) && Peekable(open, recs, messages) && Embeds(s, scan, b) && 0 < room
    ensures TurnAt(open, s, scan, room) == Turn(Take(Shown(messages, base, 0), room), scan + |b|)
  {
    BatchFields(s, scan, b);
    BatchShown(open, s, scan, b, base, recs, messages, room);
  }

  lemma FlatRange(s: seq<byte>, scan: nat, bs: seq<seq<byte>>, k: nat, end: nat)
    requires k < end <= |bs| && scan <= |s| && s[scan..] == Flat(bs[k..end])
    ensures Embeds(s, scan, bs[k]) && s[scan + |bs[k]|..] == Flat(bs[k + 1..end])
  {
    assert bs[k..end] == [bs[k]] + bs[k + 1..end];
    assert s[scan..|s|] == s[scan..];
    FlatOf(s, scan, |s|, bs[k], bs[k + 1..end]);
    assert s[scan + |bs[k]|..|s|] == s[scan + |bs[k]|..];
  }

  ghost predicate IsTurner(turn: Turner, open: Opener, s: seq<byte>)
  {
    forall scan: int, room: int :: Turns(turn, open, s, scan, room)
  }

  ghost predicate Turns(turn: Turner, open: Opener, s: seq<byte>, scan: int, room: int)
  {
    turn(scan, room) == TurnAt(open, s, scan, room)
  }

  /** The turn at batch `k` shows its messages and leads to batch `k + 1`. */
  lemma PeekMoves(turn: Turner, open: Opener, s: seq<byte>, scan: nat, bs: seq<seq<byte>>, posts: Posts, k: nat, end: nat, room: nat)
    requires IsTurner(turn, open, s) && AreStored(open, bs, posts)
    requires k < end <= |bs| && scan <= |s| && s[scan..] == Flat(bs[k..end]) && 0 < room
    ensures turn(scan, room) == Turn(Take(Shown(posts.messages[k], posts.bases[k], 0), room), scan + |bs[k]|)
    ensures 0 < |bs[k]| && scan + |bs[k]| <= |s| && s[scan + |bs[k]|..] == Flat(bs[k + 1..end])
  {
    FlatRange(s, scan, bs, k, end);
    assert IsStored(open, bs, posts, k);
    TurnShows(open, s, scan, bs[k], posts.bases[k], posts.records[k], posts.messages[k], room);
    assert Turns(turn, open, s, scan, room);
  }

  lemma TurnsEnd(turn: Turner, open: Opener, s: seq<byte>, scan: nat, room: nat)
    requires IsTurner(turn, open, s) && (scan == |s| || room == 0)
    ensures turn(scan, room) == End
  {
    assert Turns(turn, open, s, scan, room);
  }

  lemma {:induction false} BatchesShown(turn: Turner, open: Opener, s: seq<byte>, scan: nat, bs: seq<seq<byte>>, posts: Posts,
                                        k: nat, end: nat, room: nat)
    requires IsTurner(turn, open, s) && AreStored(open, bs, posts)
    requires k <= end <= |bs| && scan <= |s| && s[scan..] == Flat(bs[k..end])
    ensures PeekBatches(turn, |s|, scan, room) == Take(AllShown(posts, k, end), room)
    decreases end - k
  {
    if k == end || room == 0 {
      assert k == end ==> bs[k..end] == [] && |s[scan..]| == 0;
      TurnsEnd(turn, open, s, scan, room);
    } else {
      PeekMoves(turn, open, s, scan, bs, posts, k, end, room);
      var first, next := Shown(posts.messages[k], posts.bases[k], 0), scan + |bs[k]|;
      var left := room - |Take(first, room)|;
      BatchesShown(turn, open, s, next, bs, posts, k + 1, end, left);
      TakeBoth(first, AllShown(posts, k + 1, end), room, PeekBatches(turn, |s|, next, left));
    }
  }

  // ---- Produce, then peek ----

  /** The batch of a produce request; append gives it its base offset. */
  function RestBatch(messages: seq<Pair>, stamp: int): Batch
  {
    Batch(0, 0, 2, 0, stamp, stamp, -1, -1, -1, RestRecords(messages))
  }

  function RestBatches(requests: seq<seq<Pair>>, stamps: seq<int>): (r: seq<Batch>)
    requires |stamps| == |requests|
    ensures |r| == |requests|
  {
    seq(|requests|, k requires 0 <= k < |requests| => RestBatch(requests[k], stamps[k]))
  }

  /** At least one message, and the whole batch shorter than the append buffer. */
  ghost predicate Fits(messages: seq<Pair>)
  {
    messages != [] && HEADER + |Flat(RestRecords(messages))| < BUFFER
  }

  lemma {:induction false} RecordsAt(rec: Recorder, messages: seq<Pair>, i: nat)
    requires i <= |messages|
    ensures var rs := Records(rec, messages, i);
            |rs| == |messages| - i && forall j: nat | j < |rs| :: rs[j] == rec(i + j, messages[i + j])
    decreases |messages| - i
  {
    if i < |messages| {
      RecordsAt(rec, messages, i + 1);
      var rs, rest := Records(rec, messages, i), Records(rec, messages, i + 1);
      forall j: nat | j < |rs| ensures rs[j] == rec(i + j, messages[i + j]) {
        if j > 0 {
          assert rs[j] == rest[j - 1] == rec(i + 1 + (j - 1), messages[i + 1 + (j - 1)]);
        }
      }
    }
  }

  /** Records that fit a buffer: fewer and shorter than it has bytes. */
  lemma RecordsBound(rec: Recorder, messages: seq<Pair>, bound: nat)
    requires |Flat(Records(rec, messages, 0))| < bound && forall j: nat | j < |messages| :: rec(j, messages[j]) != []
    ensures |messages| < bound && |Records(rec, messages, 0)| == |messages|
    ensures forall j: nat | j < |messages| :: var r := Records(rec, messages, 0)[j]; r == rec(j, messages[j]) && 0 < |r| < bound
  {
    var recs := Records(rec, messages, 0);
    RecordsAt(rec, messages, 0);
    forall j: nat | j < |recs| ensures recs[j] == rec(j, messages[j]) && 0 < |recs[j]| < bound {
      assert recs[j] == rec(0 + j, messages[0 + j]);
      PartIsShorter(recs, j);
    }
    CountIsShorter(recs);
  }

  lemma RecordIsNotEmpty(i: int, m: Pair)
    ensures RestRecord(i, m) != []
  {}

  lemma FitsBounds(messages: seq<Pair>)
    requires Fits(messages)
    ensures var recs := RestRecords(messages);
            && |recs| == |messages| < BUFFER
            && forall j: nat | j < |recs| :: recs[j] == RestRecord(j, messages[j]) && 0 < |recs[j]| < BUFFER
  {
    forall j: nat | j < |messages| ensures RestRecord(j, messages[j]) != [] {
      RecordIsNotEmpty(j, messages[j]);
    }
    RecordsBound(RestRecord, messages, BUFFER);
  }

  lemma ShowsRest(peek: Peeker, s: seq<byte>, end: nat, recs: seq<seq<byte>>, messages: seq<Pair>)
    requires IsPeeker(peek, s, end) && end <= |s| && |recs| == |messages| < BUFFER
    requires forall j: nat | j < |recs| :: recs[j] == RestRecord(j, messages[j]) && |recs[j]| < BUFFER
    ensures ShowsEach(peek, s, end, recs, messages)
  {
    forall j: nat, q: nat | j < |recs| && Embeds(s, q, recs[j]) && q + |recs[j]| <= end
      ensures peek(q) == Peeked(j, messages[j].key, messages[j].value, q + |recs[j]|)
    {
      PeekReturns(peek, s, end, q, j, messages[j]);
    }
  }

  lemma RestIsPeekable(messages: seq<Pair>)
    requires Fits(messages)
    ensures Peekable(PeekerOf, RestRecords(messages), messages)
  {
    var recs := RestRecords(messages);
    FitsBounds(messages);
    forall s: seq<byte>, end: nat | end <= |s| ensures ShowsEach(PeekerOf(s, end), s, end, recs, messages) {
      ShowsRest(PeekerOf(s, end), s, end, recs, messages);
    }
  }

  ghost predicate Posted(requests: seq<seq<Pair>>, stamps: seq<int>)
  {
    && |stamps| == |requests| && (forall k | 0 <= k < |requests| :: Fits(requests[k]) && FitsSigned(stamps[k], P64))
    && Total(RestBatches(requests, stamps), |requests|) < P64 / 2
  }

  lemma PostedIsAppendable(requests: seq<seq<Pair>>, stamps: seq<int>)
    requires Posted(requests, stamps)
    ensures var batches := RestBatches(requests, stamps);
            Appendable(batches) && forall k | 0 <= k < |batches| :: batches[k].records != []
  {
    var batches := RestBatches(requests, stamps);
    forall k | 0 <= k < |batches| ensures FieldsFit(batches[k].(baseOffset := 0)) && batches[k].records != [] {
      FitsBounds(requests[k]);
    }
  }

  function PostsOf(requests: seq<seq<Pair>>, batches: seq<Batch>): (r: Posts)
    requires |batches| == |requests|
    ensures |r.bases| == |r.records| == |r.messages| == |requests|
  {
    Posts(seq(|requests|, k requires 0 <= k < |requests| => Total(batches, k)),
          seq(|requests|, k requires 0 <= k < |requests| => RestRecords(requests[k])), requests)
  }

  /** What append stores of a request's batch. */
  lemma WrittenIsBatchOf(requests: seq<seq<Pair>>, stamps: seq<int>, k: nat)
    requires Posted(requests, stamps) && k < |requests|
    ensures var batches := RestBatches(requests, stamps);
            BatchOf(Written(batches, k), Total(batches, k), RestRecords(requests[k]))
  {
    var batches := RestBatches(requests, stamps);
    PostedIsAppendable(requests, stamps);
    WrittenIsStored(batches, k);
    BodyIsWholeIff(batches[k].records, HEADER, BUFFER);
  }

  // ---- The byte budget ----

  lemma {:induction false} BatchesAreShort(bs: seq<seq<byte>>, i: nat, j: nat)
    requires AllStored(bs) && i <= j <= |bs|
    ensures Start(bs, j) - Start(bs, i) <= BUFFER * (j - i)
  {
    if i < j {
      BatchesAreShort(bs, i, j - 1);
      assert Stored(bs[j - 1]);
    }
  }

  lemma {:induction false} ShownGrows(posts: Posts, k: nat, end: nat)
    requires k <= end <= |posts.bases| == |posts.messages| && forall m: nat | m < |posts.messages| :: posts.messages[m] != []
    ensures |AllShown(posts, k, end)| >= end - k
    decreases end - k
  {
    if k < end {
      ShownGrows(posts, k + 1, end);
    }
  }

  lemma {:induction false} ShownPrefix(posts: Posts, k: nat, mid: nat, end: nat)
    requires k <= mid <= end <= |posts.bases| == |posts.messages|
    ensures AllShown(posts, k, mid) + AllShown(posts, mid, end) == AllShown(posts, k, end)
    decreases mid - k
  {
    if k < mid {
      ShownPrefix(posts, k + 1, mid, end);
      var first := Shown(posts.messages[k], posts.bases[k], 0);
      assert (first + AllShown(posts, k + 1, mid)) + AllShown(posts, mid, end)
          == first + (AllShown(posts, k + 1, mid) + AllShown(posts, mid, end));
    }
  }

  /** A budget of one buffer a message never cuts a read off before that many messages. */
  lemma BudgetSuffices(bs: seq<seq<byte>>, posts: Posts, start: int, n: nat)
    requires AllStored(bs) && |posts.bases| == |posts.messages| == |bs| && 0 < n
    requires forall m: nat | m < |posts.messages| :: posts.messages[m] != []
    ensures var range := ReadRange(bs, start, n * BUFFER);
            Take(AllShown(posts, range.first, range.last), n) == Take(AllShown(posts, range.first, |bs|), n)
  {
    var range := ReadRange(bs, start, n * BUFFER);
    if range.last < |bs| {
      BatchesAreShort(bs, range.first, range.last);
      assert Start(bs, range.last) - Start(bs, range.first) >= n * BUFFER;
      ShownGrows(posts, range.first, range.last);
      ShownPrefix(posts, range.first, range.last, |bs|);
    }
  }

  // ---- What a peek shows ----

  lemma AllAreStored(bs: seq<seq<byte>>, requests: seq<seq<Pair>>, stamps: seq<int>)
    requires Posted(requests, stamps) && |bs| == |requests|
    requires forall k | 0 <= k < |bs| :: bs[k] == Written(RestBatches(requests, stamps), k)
    ensures AllStored(bs) && AreStored(PeekerOf, bs, PostsOf(requests, RestBatches(requests, stamps)))
    ensures forall k | 0 <= k < |bs| :: Base(bs[k]) == Total(RestBatches(requests, stamps), k)
  {
    var batches := RestBatches(requests, stamps);
    var posts := PostsOf(requests, batches);
    forall k: nat | k < |bs| ensures Stored(bs[k]) && Base(bs[k]) == Total(batches, k) && IsStored(PeekerOf, bs, posts, k) {
      WrittenIsBatchOf(requests, stamps, k);
      RestIsPeekable(requests[k]);
    }
  }

  /** A peek of stored requests shows the first `n` messages from the first batch at or behind `start`. */
  lemma PeekShows(bs: seq<seq<byte>>, posts: Posts, start: int, n: nat)
    requires AllStored(bs) && AreStored(PeekerOf, bs, posts) && 0 < n
    requires forall m: nat | m < |posts.messages| :: posts.messages[m] != []
    ensures var range := ReadRange(bs, start, n * BUFFER);
            PeekAll(Flat(bs[range.first..range.last]), n) == Take(AllShown(posts, FirstFrom(bs, start), |bs|), n)
  {
    var range := ReadRange(bs, start, n * BUFFER);
    var s := Flat(bs[range.first..range.last]);
    assert s[0..] == s;
    BatchesShown(TurnerOf(PeekerOf, s), PeekerOf, s, 0, bs, posts, range.first, range.last, n);
    BudgetSuffices(bs, posts, start, n);
  }

  // ---- The peek's loops ----

  method PeekFront(s: seq<byte>, end: nat, p: nat) returns (r: Cursor)
    requires end <= |s|
    ensures r == PeekLead(PeekAt(s, end), end, p)
    ensures r.At? ==> r.pos >= 0
  {
    var length, p1 := PeekVarint(s, p, end);
    if p1 >= end || p1 + 1 >= end {
      return Off;
    }
    var stampDelta, p3 := PeekVarint(s, p1 + 1, end);
    var delta, p4 := PeekVarint(s, p3, end);
    r := At(delta, p4);
  }

  method PeekOne(s: seq<byte>, end: nat, p: nat) returns (r: Peeked)
    requires end <= |s|
    ensures r == PeekerOf(s, end)(p)
    ensures r.Peeked? ==> r.next >= 0
  {
    var front := PeekFront(s, end, p);
    if front.Off? {
      return Halt;
    }
    var key := PeekPiece(s, end, front.pos);
    if key.NoPiece? {
      return Halt;
    }
    var value := PeekPiece(s, end, key.next);
    if value.NoPiece? {
      return Halt;
    }
    var headers, next := PeekVarint(s, value.next, end);
    r := Peeked(front.value, key.bytes, value.bytes, next);
  }

  method PeekPiece(s: seq<byte>, end: nat, p: nat) returns (r: Piece)
    requires end <= |s|
    ensures r == PieceAt(s, PeekAt(s, end), end, p)
    ensures r.Piece? ==> r.next >= 0
  {
    var n, p1 := PeekVarint(s, p, end);
    if n <= 0 {
      r := Piece([], p1);
    } else if p1 + n <= end {
      r := Piece(s[p1..p1 + n], p1 + n);
    } else {
      r := NoPiece;
    }
  }

  method PeekNext(s: seq<byte>, end: nat, p: nat, ghost peek: Peeker) returns (r: Peeked)
    requires end <= |s| && IsPeeker(peek, s, end)
    ensures r == peek(p)
    ensures r.Peeked? ==> r.next >= 0
  {
    r := PeekOne(s, end, p);
    assert Matches(peek, s, end, p);
  }

  method PeekBatchRecords(s: seq<byte>, end: nat, base: int, p: nat, count: int, room: nat, ghost peek: Peeker)
    returns (shown: seq<Message>)
    requires end <= |s| && IsPeeker(peek, s, end)
    ensures shown == PeekRecords(peek, end, base, p, count, room)
  {
    shown := [];
    var rpos: nat, r: nat := p, 0;
    ghost var whole := PeekRecords(peek, end, base, p, count, room);
    while r < count && |shown| < room && rpos < end
      invariant |shown| <= room && (r <= count || r == 0)
      invariant whole == shown + PeekRecords(peek, end, base, rpos, count - r, room - |shown|)
      decreases count - r
    {
      var one := PeekNext(s, end, rpos, peek);
      if one.Halt? {
        break;
      }
      ghost var rest := PeekRecords(peek, end, base, one.next, count - r - 1, room - |shown| - 1);
      var message := Message(base + one.offsetDelta, one.key, one.value);
      assert shown + ([message] + rest) == (shown + [message]) + rest;
      shown := shown + [message];
      rpos, r := one.next, r + 1;
    }
  }

  method PeekTurn(s: seq<byte>, scan: nat, room: nat, ghost open: Opener, ghost turn: Turner) returns (t: Turn)
    requires IsTurner(turn, open, s) && forall end: nat | end <= |s| :: IsPeeker(open(s, end), s, end)
    ensures t == turn(scan, room)
    ensures t.Turn? ==> scan < t.next <= |s| && |t.shown| <= room
  {
    assert Turns(turn, open, s, scan, room);
    if scan + 12 > |s| || room == 0 {
      return End;
    }
    var base, len := I64(s, scan), I32(s, scan + 8);
    var end := scan + 12 + len;
    if len <= 0 || end > |s| {
      return End;
    }
    if end - scan < HEADER {
      return Turn([], end);
    }
    var more := PeekBatchRecords(s, end, base, scan + HEADER, I32(s, scan + 57), room, open(s, end));
    t := Turn(more, end);
  }

  method PeekLoop(s: seq<byte>, limit: nat, ghost open: Opener, ghost turn: Turner) returns (shown: seq<Message>)
    requires IsTurner(turn, open, s) && forall end: nat | end <= |s| :: IsPeeker(open(s, end), s, end)
    ensures shown == PeekBatches(turn, |s|, 0, limit)
  {
    shown := [];
    var scan: nat := 0;
    ghost var whole := PeekBatches(turn, |s|, 0, limit);
    while true
      invariant |shown| <= limit && whole == shown + PeekBatches(turn, |s|, scan, limit - |shown|)
      decreases |s| - scan
    {
      var t := PeekTurn(s, scan, limit - |shown|, open, turn);
      if t.End? {
        break;
      }
      ghost var rest := PeekBatches(turn, |s|, t.next, limit - |shown| - |t.shown|);
      assert shown + (t.shown + rest) == (shown + t.shown) + rest;
      shown := shown + t.shown;
      scan := t.next;
    }
  }

  /** The handler's scan over the bytes a read returned. */
  method PeekMessages(s: seq<byte>, limit: nat) returns (shown: seq<Message>)
    ensures shown == PeekAll(s, limit)
  {
    shown := PeekLoop(s, limit, PeekerOf, TurnerOf(PeekerOf, s));
  }

  // ---- The timestamp ----

  /** The bytes `c` to `j` are eight bytes, `a` to `h` the eight two before: how the two numbers overlap. */
  lemma Overlap(a: byte, b: byte, c: byte, d: byte, e: byte, f: byte, g: byte, h: byte, i: byte, j: byte)
    ensures var low := (c * 0x100_0000 + d * 0x1_0000 + e * 0x100 + f) * 0x1_0000 + (g * 0x100 + h);
            && (a * 0x100_0000 + b * 0x1_0000 + c * 0x100 + d) * P32 + (e * 0x100_0000 + f * 0x1_0000 + g * 0x100 + h)
               == (a * 0x100 + b) * 0x1_0000_0000_0000 + low
            && (c * 0x100_0000 + d * 0x1_0000 + e * 0x100 + f) * P32 + (g * 0x100_0000 + h * 0x1_0000 + i * 0x100 + j)
               == low * P16 + (i * 0x100 + j)
  {}

  /** Two bytes early: the low half of the last offset delta, then all but the last two bytes of the timestamp. */
  lemma TwoBytesEarly(s: seq<byte>)
    requires |s| >= HEADER
    ensures U64(s, 25) == U16(s, 25) * 0x1_0000_0000_0000 + U64(s, 27) / P16
  {
    Overlap(s[25], s[26], s[27], s[28], s[29], s[30], s[31], s[32], s[33], s[34]);
    var low := U32(s, 27) * P16 + U16(s, 31);
    assert U64(s, 27) == low * P16 + U16(s, 33);
    Bits.ModUnique(U64(s, 27), low, U16(s, 33), P16);
  }

  lemma LowHalf(s: seq<byte>)
    requires |s| >= HEADER
    ensures U16(s, 25) == U32(s, 23) % P16
  {
    Bits.ModUnique(U32(s, 23), U16(s, 23), U16(s, 25), P16);
  }

  lemma ModOfMod(v: int)
    ensures v % P32 % P16 == v % P16
  {
  }

  lemma SignedInjective(u: nat, v: nat, m: nat)
    requires u < m && v < m
    ensures Signed(u, m) == Signed(v, m) <==> u == v
  {}

  /** What eight bytes from byte 25 on hold, of a batch of so many records with this timestamp. */
  function EarlyStamp(records: nat, stamp: int): int
  {
    Signed((records - 1) % P16 * 0x1_0000_0000_0000 + stamp % P64 / P16, P64)
  }

  /** The peek reads the first timestamp at byte 25, the log writes it at byte 27. What is read of a stored batch: */
  lemma PeekedTimestamp(b: Batch)
    ensures I64(Serialize(b, BUFFER), 25) == EarlyStamp(|b.records|, b.firstTimestamp)
  {
    var s := Serialize(b, BUFFER);
    HeaderLaid(b, |s| - 12, s);
    Read32(|b.records| - 1, s, 23);
    Read64(b.firstTimestamp, s, 27);
    ModOfMod(|b.records| - 1);
    LowHalf(s);
    TwoBytesEarly(s);
  }

  /** So the timestamp shown is the one stored exactly when the two happen to agree: */
  lemma PeekedTimestampRightIff(b: Batch)
    requires FitsSigned(b.firstTimestamp, P64)
    ensures var stamp := b.firstTimestamp % P64;
            I64(Serialize(b, BUFFER), 25) == b.firstTimestamp <==> stamp - stamp / P16 == (|b.records| - 1) % P16 * 0x1_0000_0000_0000
  {
    PeekedTimestamp(b);
    SignedOfMod(b.firstTimestamp, P64);
    var stamp, high := b.firstTimestamp % P64, (|b.records| - 1) % P16;
    assert 0 <= high <= P16 - 1 && 0 <= stamp / P16 < 0x1_0000_0000_0000;
    SignedInjective(high * 0x1_0000_0000_0000 + stamp / P16, stamp, P64);
  }

  lemma OnlyZero(stamp: nat)
    ensures stamp - stamp / P16 == 0 <==> stamp == 0
  {}

  /** A single message's timestamp, exactly when it is 0. */
  lemma SingleTimestampRightIff(b: Batch)
    requires FitsSigned(b.firstTimestamp, P64) && |b.records| == 1
    ensures I64(Serialize(b, BUFFER), 25) == b.firstTimestamp <==> b.firstTimestamp == 0
  {
    PeekedTimestampRightIff(b);
    OnlyZero(b.firstTimestamp % P64);
    assert (|b.records| - 1) % P16 == 0;
    assert b.firstTimestamp % P64 == 0 <==> b.firstTimestamp == 0 by {
      SignedOfMod(b.firstTimestamp, P64);
    }
  }
}
