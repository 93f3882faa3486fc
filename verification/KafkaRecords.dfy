/**
 Records as any Kafka producer writes them (section 5.3.2 of the Apache Kafka documentation), and what the decoder
 makes of them.
 */
module KafkaRecords {
  import opened Bytes
  import opened Options
  import opened Varint
  import opened RecordBatch

  /** How a number is written. The proofs need nothing else of it than that the decoder reads it back. */
  type Encoder = int -> seq<byte>

  datatype Header = Header(key: seq<byte>, value: Option<seq<byte>>)

  /** A record; key and value may be null. */
  datatype Content = Content(
    attributes: byte, timestampDelta: int, offsetDelta: int, key: Option<seq<byte>>, value: Option<seq<byte>>, headers: seq<Header>)

  function Length(x: Option<seq<byte>>): int
  {
    if x.Some? then |x.value| else -1
  }

  /** A length, -1 for null, and the bytes. */
  function Piece(enc: Encoder, x: Option<seq<byte>>): seq<byte>
  {
    enc(Length(x)) + if x.Some? then x.value else []
  }

  function HeaderBytes(enc: Encoder, h: Header): seq<byte>
  {
    enc(|h.key|) + h.key + Piece(enc, h.value)
  }

  function HeadersBytes(enc: Encoder, hs: seq<Header>): seq<byte>
  {
    if hs == [] then [] else HeaderBytes(enc, hs[0]) + HeadersBytes(enc, hs[1..])
  }

  function Body(enc: Encoder, c: Content): seq<byte>
  {
    [c.attributes] + enc(c.timestampDelta) + enc(c.offsetDelta) + Piece(enc, c.key) + Piece(enc, c.value) + enc(|c.headers|)
    + HeadersBytes(enc, c.headers)
  }

  function RecordBytes(enc: Encoder, c: Content): seq<byte>
  {
    enc(|Body(enc, c)|) + Body(enc, c)
  }

  predicate Short(x: Option<seq<byte>>)
  {
    Length(x) < P32 / 2
  }

  /** Every number is one of the format's, an int32. */
  ghost predicate Fits(enc: Encoder, c: Content)
  {
    && FitsSigned(c.timestampDelta, P32) && FitsSigned(c.offsetDelta, P32) && Short(c.key) && Short(c.value)
    && |c.headers| < P32 / 2 && |Body(enc, c)| < P32 / 2 && HeadersFit(c.headers)
  }

  ghost predicate HeadersFit(hs: seq<Header>)
  {
    hs == [] || (|hs[0].key| < P32 / 2 && Short(hs[0].value) && HeadersFit(hs[1..]))
  }

  /** What the decoder should make of it: a null key or value counts as empty, and a value lies behind the key. */
  function Fields(c: Content, next: int): Record
  {
    var k := if c.key.Some? then |c.key.value| else 0;
    Record(c.timestampDelta, k, if c.value.Some? then k else 0, if c.value.Some? then |c.value.value| else 0, next)
  }

  // ---- Reading back ----

  /** Wherever these bytes lie, the reader takes them for `v`. */
  ghost predicate Says(read: Reader, s: seq<byte>, e: seq<byte>, v: int)
  {
    forall q: nat {:trigger Embeds(s, q, e)} | Embeds(s, q, e) :: read(q) == At(v, q + |e|)
  }

  /** A reader that knows every int32. */
  ghost predicate IsDecoder(enc: Encoder, read: Reader, s: seq<byte>)
  {
    forall v | FitsSigned(v, P32) :: Knows(enc, read, s, v)
  }

  ghost predicate Knows(enc: Encoder, read: Reader, s: seq<byte>, v: int)
  {
    Says(read, s, enc(v), v)
  }

  lemma IntAtIsDecoder(s: seq<byte>)
    ensures IsDecoder(Encode, IntAt(s), s)
  {
    forall v | FitsSigned(v, P32) ensures Knows(Encode, IntAt(s), s, v) {
      forall q: nat | Embeds(s, q, Encode(v)) ensures IntAt(s)(q) == At(v, q + |Encode(v)|) {
        ReadersAgree(v, s, q);
      }
    }
  }

  lemma KnowsIt(enc: Encoder, read: Reader, s: seq<byte>, v: int)
    requires IsDecoder(enc, read, s) && FitsSigned(v, P32)
    ensures Says(read, s, enc(v), v)
  {
    assert Knows(enc, read, s, v);
  }

  lemma SizedOf(read: Reader, s: seq<byte>, p: nat, e: seq<byte>, n: int, bytes: seq<byte>)
    requires Says(read, s, e, n) && Embeds(s, p, e + bytes) && |bytes| == if n < 0 then 0 else n
    ensures Sized(read, |s|, p) == At(n, p + |e + bytes|)
  {
    Peel(s, p, e, bytes);
  }

  lemma PieceBack(enc: Encoder, read: Reader, s: seq<byte>, p: nat, x: Option<seq<byte>>)
    requires IsDecoder(enc, read, s) && Short(x) && Embeds(s, p, Piece(enc, x))
    ensures Sized(read, |s|, p) == At(Length(x), p + |Piece(enc, x)|)
  {
    KnowsIt(enc, read, s, Length(x));
    SizedOf(read, s, p, enc(Length(x)), Length(x), if x.Some? then x.value else []);
  }

  lemma EntryOf(read: Reader, s: seq<byte>, p: nat, e: seq<byte>, key: seq<byte>, piece: seq<byte>, n: int)
    requires Says(read, s, e, |key|) && Embeds(s, p, e + key + piece)
    requires Embeds(s, p + |e| + |key|, piece) ==> Sized(read, |s|, p + |e| + |key|) == At(n, p + |e| + |key| + |piece|)
    ensures Entry(read, |s|, p) == At(n, p + |e + key + piece|)
  {
    Peel(s, p, e + key, piece);
    Peel(s, p, e, key);
  }

  lemma HeaderBack(enc: Encoder, read: Reader, s: seq<byte>, p: nat, h: Header)
    requires IsDecoder(enc, read, s) && |h.key| < P32 / 2 && Short(h.value) && Embeds(s, p, HeaderBytes(enc, h))
    ensures Entry(read, |s|, p) == At(Length(h.value), p + |HeaderBytes(enc, h)|)
  {
    var e, at := enc(|h.key|), p + |enc(|h.key|)| + |h.key|;
    KnowsIt(enc, read, s, |h.key|);
    if Embeds(s, at, Piece(enc, h.value)) {
      PieceBack(enc, read, s, at, h.value);
    }
    EntryOf(read, s, p, e, h.key, Piece(enc, h.value), Length(h.value));
  }

  lemma {:induction false} HeadersBack(enc: Encoder, read: Reader, s: seq<byte>, p: nat, hs: seq<Header>)
    requires IsDecoder(enc, read, s) && HeadersFit(hs) && Embeds(s, p, HeadersBytes(enc, hs))
    ensures Headers(read, |s|, p, |hs|) == At(0, p + |HeadersBytes(enc, hs)|)
    decreases |hs|
  {
    if hs != [] {
      Peel(s, p, HeaderBytes(enc, hs[0]), HeadersBytes(enc, hs[1..]));
      HeaderBack(enc, read, s, p, hs[0]);
      HeadersBack(enc, read, s, p + |HeaderBytes(enc, hs[0])|, hs[1..]);
    }
  }

  lemma TailOf(read: Reader, s: seq<byte>, p: nat, e: seq<byte>, n: int, rest: seq<byte>)
    requires Says(read, s, e, n) && Embeds(s, p, e + rest)
    requires Embeds(s, p + |e|, rest) ==> Headers(read, |s|, p + |e|, n) == At(0, p + |e| + |rest|)
    ensures Tail(read, |s|, p) == At(0, p + |e + rest|)
  {
    Peel(s, p, e, rest);
  }

  lemma TailBack(enc: Encoder, read: Reader, s: seq<byte>, p: nat, hs: seq<Header>)
    requires IsDecoder(enc, read, s) && HeadersFit(hs) && |hs| < P32 / 2 && Embeds(s, p, enc(|hs|) + HeadersBytes(enc, hs))
    ensures Tail(read, |s|, p) == At(0, p + |enc(|hs|) + HeadersBytes(enc, hs)|)
  {
    KnowsIt(enc, read, s, |hs|);
    if Embeds(s, p + |enc(|hs|)|, HeadersBytes(enc, hs)) {
      HeadersBack(enc, read, s, p + |enc(|hs|)|, hs);
    }
    TailOf(read, s, p, enc(|hs|), |hs|, HeadersBytes(enc, hs));
  }

  lemma PeelFour(s: seq<byte>, p: nat, a: seq<byte>, b: seq<byte>, c: seq<byte>, d: seq<byte>)
    requires Embeds(s, p, a + b + c + d)
    ensures Embeds(s, p, a) && Embeds(s, p + |a|, b) && Embeds(s, p + |a| + |b|, c) && Embeds(s, p + |a| + |b| + |c|, d)
  {
    Peel(s, p, a + b + c, d);
    Peel(s, p, a + b, c);
    Peel(s, p, a, b);
  }

  lemma LeadIs(read: Reader, len: int, p: int, length: int, p1: int, td: int, p2: int, od: int, p3: int)
    requires read(p) == At(length, p1) && 0 <= p1 + 1 <= len && read(p1 + 1) == At(td, p2) && read(p2) == At(od, p3)
    ensures Lead(read, len, p) == At(td, p3)
  {}

  lemma KnowsAt(enc: Encoder, read: Reader, s: seq<byte>, v: int, q: nat)
    requires IsDecoder(enc, read, s) && FitsSigned(v, P32) && Embeds(s, q, enc(v))
    ensures read(q) == At(v, q + |enc(v)|)
  {
    assert Knows(enc, read, s, v);
  }

  /** The parts of a record, as they lie. */
  function Front(enc: Encoder, c: Content): seq<byte>
  {
    enc(|Body(enc, c)|) + [c.attributes] + enc(c.timestampDelta) + enc(c.offsetDelta)
  }

  function Rear(enc: Encoder, c: Content): seq<byte>
  {
    enc(|c.headers|) + HeadersBytes(enc, c.headers)
  }

  lemma Regroup(a: seq<byte>, b: seq<byte>, c: seq<byte>, d: seq<byte>, e: seq<byte>, f: seq<byte>, g: seq<byte>, h: seq<byte>)
    ensures a + (b + c + d + e + f + g + h) == (a + b + c + d) + e + f + (g + h)
  {}

  lemma RecordIsParts(enc: Encoder, c: Content)
    ensures RecordBytes(enc, c) == Front(enc, c) + Piece(enc, c.key) + Piece(enc, c.value) + Rear(enc, c)
  {
    Regroup(enc(|Body(enc, c)|), [c.attributes], enc(c.timestampDelta), enc(c.offsetDelta), Piece(enc, c.key), Piece(enc, c.value),
            enc(|c.headers|), HeadersBytes(enc, c.headers));
  }

  /** The cursor reads, put together. */
  lemma AssembleIs(read: Reader, len: int, p: int, td: int, p1: int, kl: int, p2: int, vl: int, p3: int, next: int)
    requires Lead(read, len, p) == At(td, p1) && Sized(read, len, p1) == At(kl, p2) && Sized(read, len, p2) == At(vl, p3)
    requires Tail(read, len, p3) == At(0, next)
    ensures Assemble(read, len, p)
         == Record(td, if kl >= 0 then kl else 0, if vl < 0 || kl < 0 then 0 else kl, if vl >= 0 then vl else 0, next)
  {}

  /** Length, attributes and the two deltas. */
  lemma FrontBack(enc: Encoder, read: Reader, s: seq<byte>, p: nat, c: Content)
    requires IsDecoder(enc, read, s) && Fits(enc, c) && Embeds(s, p, Front(enc, c))
    ensures Lead(read, |s|, p) == At(c.timestampDelta, p + |Front(enc, c)|)
  {
    var length, td, od := |Body(enc, c)|, c.timestampDelta, c.offsetDelta;
    var p1 := p + |enc(length)|;
    var p2 := p1 + 1 + |enc(td)|;
    PeelFour(s, p, enc(length), [c.attributes], enc(td), enc(od));
    KnowsAt(enc, read, s, length, p);
    KnowsAt(enc, read, s, td, p1 + 1);
    KnowsAt(enc, read, s, od, p2);
    LeadIs(read, |s|, p, length, p1, td, p2, od, p2 + |enc(od)|);
  }

  /** The parts lie one behind the other from `p` on. */
  ghost predicate Lies(enc: Encoder, s: seq<byte>, p: nat, c: Content)
  {
    Embeds(s, p, Front(enc, c) + Piece(enc, c.key) + Piece(enc, c.value) + Rear(enc, c))
  }

  function KeyAt(enc: Encoder, p: int, c: Content): int { p + |Front(enc, c)| }
  function ValueAt(enc: Encoder, p: int, c: Content): int { KeyAt(enc, p, c) + |Piece(enc, c.key)| }
  function RearAt(enc: Encoder, p: int, c: Content): int { ValueAt(enc, p, c) + |Piece(enc, c.value)| }

  lemma LeadLies(enc: Encoder, read: Reader, s: seq<byte>, p: nat, c: Content)
    requires IsDecoder(enc, read, s) && Fits(enc, c) && Lies(enc, s, p, c)
    ensures Lead(read, |s|, p) == At(c.timestampDelta, KeyAt(enc, p, c))
  {
    PeelFour(s, p, Front(enc, c), Piece(enc, c.key), Piece(enc, c.value), Rear(enc, c));
    FrontBack(enc, read, s, p, c);
  }

  lemma KeyLies(enc: Encoder, read: Reader, s: seq<byte>, p: nat, c: Content)
    requires IsDecoder(enc, read, s) && Short(c.key) && Lies(enc, s, p, c)
    ensures Sized(read, |s|, KeyAt(enc, p, c)) == At(Length(c.key), ValueAt(enc, p, c))
  {
    PeelFour(s, p, Front(enc, c), Piece(enc, c.key), Piece(enc, c.value), Rear(enc, c));
    PieceBack(enc, read, s, KeyAt(enc, p, c), c.key);
  }

  lemma ValueLies(enc: Encoder, read: Reader, s: seq<byte>, p: nat, c: Content)
    requires IsDecoder(enc, read, s) && Short(c.value) && Lies(enc, s, p, c)
    ensures Sized(read, |s|, ValueAt(enc, p, c)) == At(Length(c.value), RearAt(enc, p, c))
  {
    PeelFour(s, p, Front(enc, c), Piece(enc, c.key), Piece(enc, c.value), Rear(enc, c));
    PieceBack(enc, read, s, ValueAt(enc, p, c), c.value);
  }

  lemma RearLies(enc: Encoder, read: Reader, s: seq<byte>, p: nat, c: Content)
    requires IsDecoder(enc, read, s) && HeadersFit(c.headers) && |c.headers| < P32 / 2 && Lies(enc, s, p, c)
    ensures Tail(read, |s|, RearAt(enc, p, c)) == At(0, RearAt(enc, p, c) + |Rear(enc, c)|)
  {
    PeelFour(s, p, Front(enc, c), Piece(enc, c.key), Piece(enc, c.value), Rear(enc, c));
    TailBack(enc, read, s, RearAt(enc, p, c), c.headers);
  }

  lemma AssembleBack(enc: Encoder, read: Reader, s: seq<byte>, p: nat, c: Content)
    requires IsDecoder(enc, read, s) && Fits(enc, c) && Lies(enc, s, p, c)
    ensures Assemble(read, |s|, p) == Fields(c, RearAt(enc, p, c) + |Rear(enc, c)|)
  {
    LeadLies(enc, read, s, p, c);
    KeyLies(enc, read, s, p, c);
    ValueLies(enc, read, s, p, c);
    RearLies(enc, read, s, p, c);
    AssembleIs(read, |s|, p, c.timestampDelta, KeyAt(enc, p, c), Length(c.key), ValueAt(enc, p, c), Length(c.value), RearAt(enc, p, c),
               RearAt(enc, p, c) + |Rear(enc, c)|);
  }

  /** A record as it is written. */
  function Written(c: Content): seq<byte>
  {
    RecordBytes(Encode, c)
  }

  ghost predicate Writable(c: Content)
  {
    Fits(Encode, c)
  }

  lemma DecodesBy(enc: Encoder, read: Reader, s: seq<byte>, p: nat, c: Content)
    requires IsDecoder(enc, read, s) && Fits(enc, c) && Embeds(s, p, RecordBytes(enc, c))
    ensures Assemble(read, |s|, p) == Fields(c, p + |RecordBytes(enc, c)|)
  {
    RecordIsParts(enc, c);
    AssembleBack(enc, read, s, p, c);
  }

  /**
   Every record of the format, with any deltas, null or empty or other key and value, and any headers, wherever it lies:
   the decoder takes it for exactly these fields, and to its last byte.
   */
  lemma RecordDecodes(s: seq<byte>, p: nat, c: Content)
    requires Writable(c) && Embeds(s, p, Written(c))
    ensures ParseRecord(s, p) == Fields(c, p + |Written(c)|)
  {
    IntAtIsDecoder(s);
    DecodesBy(Encode, IntAt(s), s, p, c);
  }

  lemma RecordIsWellFormed(c: Content)
    requires Writable(c)
    ensures WellFormedRecord(Written(c)) && ParseRecord(Written(c), 0) == Fields(c, |Written(c)|)
  {
    var r := Written(c);
    assert r[0..|r|] == r;
    RecordDecodes(r, 0, c);
  }

  function AllWritten(cs: seq<Content>): (rs: seq<seq<byte>>)
    ensures |rs| == |cs|
  {
    seq(|cs|, i requires 0 <= i < |cs| => Written(cs[i]))
  }

  /** Timestamp, and where key and value are in the record. */
  function KeptFields(first: int, c: Content): Kept
  {
    Keep(first, Fields(c, 0))
  }

  /** A batch of such records that the log has written decodes to the fields of each of them, in order. */
  lemma ContentsRoundTrip(b: Batch, cs: seq<Content>, cap: nat)
    requires HEADER < cap < 0x8000_0000 && SerializedSize(b) < cap && b.magic == 2 && FieldsFit(b)
    requires b.records == AllWritten(cs) && forall i | 0 <= i < |cs| :: Writable(cs[i])
    ensures var d := Decode(Serialize(b, cap));
            && d.Decoded? && d.batch == b && d.crc == 0 && d.lastOffset == b.baseOffset + |cs| - 1 && |d.records| == |cs|
            && forall i | 0 <= i < |cs| :: d.records[i] == KeptFields(b.firstTimestamp, cs[i])
  {
    forall i | 0 <= i < |cs|
      ensures WellFormedRecord(b.records[i]) && KeptOf(b.firstTimestamp, b.records)[i] == KeptFields(b.firstTimestamp, cs[i])
    {
      RecordIsWellFormed(cs[i]);
      KeptAt(b.firstTimestamp, b.records, i);
    }
    BatchRoundTrip(b, cap);
  }
}
