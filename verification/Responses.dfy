/** The four responses that are grouped by topic: the fields of a partition's answer, written and read back. */
module Responses {
  import opened Bytes
  import opened RecordBatch
  import opened Grouping

  /** Correlation id, and in later versions a throttle time of 0. */
  function Head(correlationId: int, throttled: bool): seq<byte>
  {
    B4(correlationId) + Throttle(throttled)
  }

  /** The calls that write it. */
  function HeadFields(correlationId: int, throttled: bool): seq<Field>
  {
    [Int32(correlationId)] + if throttled then [Int32(0)] else []
  }

  lemma HeadIsWritten(correlationId: int, throttled: bool)
    ensures FieldsBytes(HeadFields(correlationId, throttled)) == Head(correlationId, throttled)
  {
    FieldsSnoc([], Int32(correlationId));
    assert [] + [Int32(correlationId)] == [Int32(correlationId)];
    if throttled {
      FieldsSnoc([Int32(correlationId)], Int32(0));
    } else {
      assert [Int32(correlationId)] + [] == [Int32(correlationId)];
    }
  }

  /** What follows the correlation id. */
  function Throttle(throttled: bool): seq<byte>
  {
    if throttled then B4(0) else []
  }

  /**
   What a client reads: the correlation id, a throttle time of 0 where there is one, each of the topics once in the order
   given with its own records in order, and where that ends.
   */
  ghost predicate ClientReads<T>(s: seq<byte>, correlationId: int, throttled: bool, size: Sizer, dec: Decoder<T>,
                             xs: seq<T>, topicOf: T -> seq<byte>, topics: seq<seq<byte>>, next: int)
  {
    && ReadTyped(s, 4 + |Throttle(throttled)|, size, dec) == Typed(correlationId, TypedGroups(xs, topicOf, topics, |topics|), next)
    && (throttled ==> |s| >= 12 && I32(s, 8) == 0)
  }

  lemma GroupedReadsBack<T>(s: seq<byte>, correlationId: int, throttled: bool, parts: seq<Part>, tail: seq<byte>,
                            size: Sizer, dec: Decoder<T>, xs: seq<T>, topicOf: T -> seq<byte>, next: int)
    requires FitsSigned(correlationId, P32) && Writable(Head(correlationId, throttled), parts, tail)
    requires s == Response(Head(correlationId, throttled), parts, tail) && next == |s| - |tail|
    requires Carries(parts, xs, topicOf, dec) && forall i | 0 <= i < |parts| :: Measures(size, s, parts[i].body)
    ensures ClientReads(s, correlationId, throttled, size, dec, xs, topicOf, Topics(parts), next)
  {
    TypedReadsBack(correlationId, Throttle(throttled), parts, tail, size, xs, topicOf, dec);
    HeadReadsBack(correlationId, Throttle(throttled), parts, tail);
    if throttled {
      Read32(0, s, 8);
    }
  }

  lemma Here(s: seq<byte>)
    ensures Embeds(s, 0, s)
  {
    assert s[0..|s|] == s;
  }

  // ---- ListOffsets ----

  datatype ListOffset = ListOffset(topic: seq<byte>, partition: int, errorCode: int, timestamp: int, offset: int)

  predicate ListOffsetFits(x: ListOffset)
  {
    FitsSigned(x.partition, P32) && FitsSigned(x.errorCode, P16) && FitsSigned(x.timestamp, P64) && FitsSigned(x.offset, P64)
  }

  /** Version 0 has an array of one offset, later versions a timestamp and an offset. */
  function ListOffsetBody(x: ListOffset, version: int): seq<byte>
  {
    B4(x.partition) + B2(x.errorCode) + (if version == 0 then B4(1) else B8(x.timestamp)) + B8(x.offset)
  }

  function ListOffsetSize(version: int): Sizer
  {
    (q: int) => q + if version == 0 then 18 else 22
  }

  /** Version 0 does not carry the timestamp. */
  function ReadListOffset(topic: seq<byte>, s: seq<byte>, version: int): ListOffset
    requires |s| == if version == 0 then 18 else 22
  {
    if version == 0 then ListOffset(topic, I32(s, 0), I16(s, 4), -1, I64(s, 10))
    else ListOffset(topic, I32(s, 0), I16(s, 4), I64(s, 6), I64(s, 14))
  }

  lemma ListOffsetReadsBack(x: ListOffset, version: int)
    requires ListOffsetFits(x)
    ensures var s := ListOffsetBody(x, version);
            && |s| == (if version == 0 then 18 else 22)
            && ReadListOffset(x.topic, s, version) == if version == 0 then x.(timestamp := -1) else x
  {
    var s := ListOffsetBody(x, version);
    var third := if version == 0 then B4(1) else B8(x.timestamp);
    Here(s);
    Peel(s, 0, B4(x.partition) + B2(x.errorCode) + third, B8(x.offset));
    Peel(s, 0, B4(x.partition) + B2(x.errorCode), third);
    Peel(s, 0, B4(x.partition), B2(x.errorCode));
    Read32(x.partition, s, 0);
    Read16(x.errorCode, s, 4);
    Read64(x.offset, s, 6 + |third|);
    if version != 0 {
      Read64(x.timestamp, s, 6);
    }
  }

  function ListOffsetParts(xs: seq<ListOffset>, version: int): (r: seq<Part>)
    ensures |r| == |xs|
  {
    seq(|xs|, i requires 0 <= i < |xs| => Part(xs[i].topic, ListOffsetBody(xs[i], version)))
  }

  function ListOffsets(correlationId: int, xs: seq<ListOffset>, version: int): seq<byte>
  {
    Response(Head(correlationId, version >= 2), ListOffsetParts(xs, version), [])
  }

  /** The calls that write an answer. */
  function ListOffsetFields(x: ListOffset, version: int): seq<Field>
  {
    [Int32(x.partition)] + [Int16(x.errorCode)] + [if version == 0 then Int32(1) else Int64(x.timestamp)] + [Int64(x.offset)]
  }

  lemma ListOffsetIsWritten(x: ListOffset, version: int)
    ensures FieldsBytes(ListOffsetFields(x, version)) == ListOffsetBody(x, version)
  {
    var third := if version == 0 then Int32(1) else Int64(x.timestamp);
    FieldsSnoc([], Int32(x.partition));
    assert [] + [Int32(x.partition)] == [Int32(x.partition)];
    FieldsSnoc([Int32(x.partition)], Int16(x.errorCode));
    FieldsSnoc([Int32(x.partition)] + [Int16(x.errorCode)], third);
    FieldsSnoc([Int32(x.partition)] + [Int16(x.errorCode)] + [third], Int64(x.offset));
  }

  method EncodeListOffsets(buf: array<byte>, correlationId: int, xs: seq<ListOffset>, version: int) returns (size: nat)
    requires |ListOffsets(correlationId, xs, version)| <= buf.Length
    modifies buf
    ensures size <= buf.Length && buf[..size] == ListOffsets(correlationId, xs, version)
  {
    var answers := seq(|xs|, i requires 0 <= i < |xs| => Answer(xs[i].topic, ListOffsetFields(xs[i], version)));
    forall i | 0 <= i < |xs| ensures FieldsBytes(ListOffsetFields(xs[i], version)) == ListOffsetBody(xs[i], version) {
      ListOffsetIsWritten(xs[i], version);
    }
    HeadIsWritten(correlationId, version >= 2);
    size := EncodeGrouped(buf, HeadFields(correlationId, version >= 2), answers, [], ListOffsetParts(xs, version));
  }

  function ListOffsetTopic(x: ListOffset): seq<byte>
  {
    x.topic
  }

  function ListOffsetDecoder(version: int): Decoder<ListOffset>
  {
    (topic: seq<byte>, s: seq<byte>) =>
      if |s| == if version == 0 then 18 else 22 then ReadListOffset(topic, s, version) else ListOffset(topic, 0, 0, 0, 0)
  }

  /** What a reader can know: version 0 carries no timestamp. */
  function Carried(xs: seq<ListOffset>, version: int): (r: seq<ListOffset>)
    ensures |r| == |xs|
  {
    seq(|xs|, i requires 0 <= i < |xs| => if version == 0 then xs[i].(timestamp := -1) else xs[i])
  }

  lemma ListOffsetsCarried(s: seq<byte>, xs: seq<ListOffset>, version: int)
    requires forall i | 0 <= i < |xs| :: ListOffsetFits(xs[i])
    ensures var parts := ListOffsetParts(xs, version);
            && Carries(parts, Carried(xs, version), ListOffsetTopic, ListOffsetDecoder(version))
            && forall i | 0 <= i < |parts| :: Measures(ListOffsetSize(version), s, parts[i].body)
  {
    forall i | 0 <= i < |xs|
      ensures Measures(ListOffsetSize(version), s, ListOffsetBody(xs[i], version))
      ensures ListOffsetDecoder(version)(xs[i].topic, ListOffsetBody(xs[i], version)) == Carried(xs, version)[i]
    {
      ListOffsetReadsBack(xs[i], version);
    }
  }

  /** The whole response read back: correlation id, throttle time, and for each topic in the order first seen its answers in order. */
  lemma ListOffsetsReadBack(correlationId: int, xs: seq<ListOffset>, version: int)
    requires FitsSigned(correlationId, P32) && forall i | 0 <= i < |xs| :: ListOffsetFits(xs[i])
    requires Writable(Head(correlationId, version >= 2), ListOffsetParts(xs, version), [])
    ensures var s, parts := ListOffsets(correlationId, xs, version), ListOffsetParts(xs, version);
            ClientReads(s, correlationId, version >= 2, ListOffsetSize(version), ListOffsetDecoder(version), Carried(xs, version), ListOffsetTopic,
                    Topics(parts), |s|)
  {
    var s := ListOffsets(correlationId, xs, version);
    ListOffsetsCarried(s, xs, version);
    GroupedReadsBack(s, correlationId, version >= 2, ListOffsetParts(xs, version), [], ListOffsetSize(version), ListOffsetDecoder(version),
                     Carried(xs, version), ListOffsetTopic, |s|);
  }

  // ---- Fetch ----

  datatype Fetched = Fetched(topic: seq<byte>, partition: int, errorCode: int, highWatermark: int, records: seq<byte>)

  predicate FetchedFits(x: Fetched)
  {
    FitsSigned(x.partition, P32) && FitsSigned(x.errorCode, P16) && FitsSigned(x.highWatermark, P64) && |x.records| < P32 / 2
  }

  /** From version 4 on the high watermark again as last stable offset, and no aborted transactions. */
  function Stable(x: Fetched, version: int): seq<byte>
  {
    if version >= 4 then B8(x.highWatermark) + B4(-1) else []
  }

  function FetchedBody(x: Fetched, version: int): seq<byte>
  {
    B4(x.partition) + B2(x.errorCode) + B8(x.highWatermark) + Stable(x, version) + B4(|x.records|) + x.records
  }

  /** Bytes in front of the number of record bytes. */
  function FetchedFront(version: int): nat
  {
    if version >= 4 then 26 else 14
  }

  function FetchedSize(s: seq<byte>, version: int): Sizer
  {
    (q: int) =>
      var at := q + FetchedFront(version);
      if q < 0 || at + 4 > |s| then -1 else at + 4 + I32(s, at)
  }

  function ReadFetched(topic: seq<byte>, s: seq<byte>, version: int): Fetched
    requires |s| >= FetchedFront(version) + 4
  {
    Fetched(topic, I32(s, 0), I16(s, 4), I64(s, 6), s[FetchedFront(version) + 4..])
  }

  lemma FetchedLaid(s: seq<byte>, q: nat, x: Fetched, version: int)
    requires Embeds(s, q, FetchedBody(x, version))
    ensures var at := q + FetchedFront(version);
            && Embeds(s, q, B4(x.partition)) && Embeds(s, q + 4, B2(x.errorCode)) && Embeds(s, q + 6, B8(x.highWatermark))
            && Embeds(s, at, B4(|x.records|)) && Embeds(s, at + 4, x.records) && at + 4 + |x.records| == q + |FetchedBody(x, version)|
  {
    var a, b, c, d, e := B4(x.partition), B2(x.errorCode), B8(x.highWatermark), Stable(x, version), B4(|x.records|);
    Peel(s, q, a + b + c + d + e, x.records);
    Peel(s, q, a + b + c + d, e);
    Peel(s, q, a + b + c, d);
    Peel(s, q, a + b, c);
    Peel(s, q, a, b);
  }

  lemma FetchedReadsBack(x: Fetched, version: int)
    requires FetchedFits(x)
    ensures var s := FetchedBody(x, version); |s| >= FetchedFront(version) + 4 && ReadFetched(x.topic, s, version) == x
  {
    var s := FetchedBody(x, version);
    Here(s);
    FetchedLaid(s, 0, x, version);
    Read32(x.partition, s, 0);
    Read16(x.errorCode, s, 4);
    Read64(x.highWatermark, s, 6);
    var at := FetchedFront(version) + 4;
    assert s[at..at + |x.records|] == s[at..];
  }

  lemma FetchedMeasured(s: seq<byte>, x: Fetched, version: int)
    requires FetchedFits(x)
    ensures Measures(FetchedSize(s, version), s, FetchedBody(x, version))
  {
    forall q: nat | Embeds(s, q, FetchedBody(x, version)) ensures FetchedSize(s, version)(q) == q + |FetchedBody(x, version)| {
      FetchedLaid(s, q, x, version);
      Read32(|x.records|, s, q + FetchedFront(version));
    }
  }

  function FetchedParts(xs: seq<Fetched>, version: int): (r: seq<Part>)
    ensures |r| == |xs|
  {
    seq(|xs|, i requires 0 <= i < |xs| => Part(xs[i].topic, FetchedBody(xs[i], version)))
  }

  function Fetch(correlationId: int, xs: seq<Fetched>, version: int): seq<byte>
  {
    Response(Head(correlationId, version >= 1), FetchedParts(xs, version), [])
  }

  /** The calls that write an answer. */
  function FetchedFields(x: Fetched, version: int): seq<Field>
  {
    [Int32(x.partition)] + [Int16(x.errorCode)] + [Int64(x.highWatermark)]
    + (if version >= 4 then [Int64(x.highWatermark)] + [Int32(-1)] else []) + [Int32(|x.records|)] + [Raw(x.records)]
  }

  lemma WatermarkIsWritten(x: Fetched)
    ensures FieldsBytes([Int32(x.partition)] + [Int16(x.errorCode)] + [Int64(x.highWatermark)])
         == B4(x.partition) + B2(x.errorCode) + B8(x.highWatermark)
  {
    FieldsSnoc([], Int32(x.partition));
    assert [] + [Int32(x.partition)] == [Int32(x.partition)];
    FieldsSnoc([Int32(x.partition)], Int16(x.errorCode));
    FieldsSnoc([Int32(x.partition)] + [Int16(x.errorCode)], Int64(x.highWatermark));
  }

  lemma StableIsWritten(front: seq<Field>, x: Fetched, version: int)
    ensures FieldsBytes(front + if version >= 4 then [Int64(x.highWatermark)] + [Int32(-1)] else []) == FieldsBytes(front) + Stable(x, version)
  {
    if version >= 4 {
      FieldsSnoc(front, Int64(x.highWatermark));
      FieldsSnoc(front + [Int64(x.highWatermark)], Int32(-1));
      assert front + ([Int64(x.highWatermark)] + [Int32(-1)]) == front + [Int64(x.highWatermark)] + [Int32(-1)];
      Grouping.Behind(FieldsBytes(front), B8(x.highWatermark), B4(-1));
    } else {
      assert front + [] == front;
    }
  }

  lemma FetchedIsWritten(x: Fetched, version: int)
    ensures FieldsBytes(FetchedFields(x, version)) == FetchedBody(x, version)
  {
    var front := [Int32(x.partition)] + [Int16(x.errorCode)] + [Int64(x.highWatermark)];
    var mid := front + if version >= 4 then [Int64(x.highWatermark)] + [Int32(-1)] else [];
    WatermarkIsWritten(x);
    StableIsWritten(front, x, version);
    FieldsSnoc(mid, Int32(|x.records|));
    FieldsSnoc(mid + [Int32(|x.records|)], Raw(x.records));
  }

  method EncodeFetch(buf: array<byte>, correlationId: int, xs: seq<Fetched>, version: int) returns (size: nat)
    requires |Fetch(correlationId, xs, version)| <= buf.Length
    modifies buf
    ensures size <= buf.Length && buf[..size] == Fetch(correlationId, xs, version)
  {
    var answers := seq(|xs|, i requires 0 <= i < |xs| => Answer(xs[i].topic, FetchedFields(xs[i], version)));
    forall i | 0 <= i < |xs| ensures FieldsBytes(FetchedFields(xs[i], version)) == FetchedBody(xs[i], version) {
      FetchedIsWritten(xs[i], version);
    }
    HeadIsWritten(correlationId, version >= 1);
    size := EncodeGrouped(buf, HeadFields(correlationId, version >= 1), answers, [], FetchedParts(xs, version));
  }

  function FetchedTopic(x: Fetched): seq<byte>
  {
    x.topic
  }

  function FetchedDecoder(version: int): Decoder<Fetched>
  {
    (topic: seq<byte>, s: seq<byte>) =>
      if |s| >= FetchedFront(version) + 4 then ReadFetched(topic, s, version) else Fetched(topic, 0, 0, 0, [])
  }

  lemma FetchCarried(s: seq<byte>, xs: seq<Fetched>, version: int)
    requires forall i | 0 <= i < |xs| :: FetchedFits(xs[i])
    ensures var parts := FetchedParts(xs, version);
            && Carries(parts, xs, FetchedTopic, FetchedDecoder(version))
            && forall i | 0 <= i < |parts| :: Measures(FetchedSize(s, version), s, parts[i].body)
  {
    forall i | 0 <= i < |xs|
      ensures Measures(FetchedSize(s, version), s, FetchedBody(xs[i], version))
      ensures FetchedDecoder(version)(xs[i].topic, FetchedBody(xs[i], version)) == xs[i]
    {
      FetchedMeasured(s, xs[i], version);
      FetchedReadsBack(xs[i], version);
    }
  }

  /** The whole response read back. */
  lemma FetchReadsBack(correlationId: int, xs: seq<Fetched>, version: int)
    requires FitsSigned(correlationId, P32) && forall i | 0 <= i < |xs| :: FetchedFits(xs[i])
    requires Writable(Head(correlationId, version >= 1), FetchedParts(xs, version), [])
    ensures var s, parts := Fetch(correlationId, xs, version), FetchedParts(xs, version);
            ClientReads(s, correlationId, version >= 1, FetchedSize(s, version), FetchedDecoder(version), xs, FetchedTopic, Topics(parts), |s|)
  {
    var s := Fetch(correlationId, xs, version);
    FetchCarried(s, xs, version);
    GroupedReadsBack(s, correlationId, version >= 1, FetchedParts(xs, version), [], FetchedSize(s, version), FetchedDecoder(version), xs, FetchedTopic, |s|);
  }

  // ---- OffsetCommit ----

  datatype Committed = Committed(topic: seq<byte>, partition: int, errorCode: int)

  predicate CommittedFits(x: Committed)
  {
    FitsSigned(x.partition, P32) && FitsSigned(x.errorCode, P16)
  }

  function CommittedBody(x: Committed): seq<byte>
  {
    B4(x.partition) + B2(x.errorCode)
  }

  function CommittedSize(): Sizer
  {
    (q: int) => q + 6
  }

  function ReadCommitted(topic: seq<byte>, s: seq<byte>): Committed
    requires |s| == 6
  {
    Committed(topic, I32(s, 0), I16(s, 4))
  }

  lemma CommittedReadsBack(x: Committed)
    requires CommittedFits(x)
    ensures |CommittedBody(x)| == 6 && ReadCommitted(x.topic, CommittedBody(x)) == x
  {
    var s := CommittedBody(x);
    Here(s);
    Peel(s, 0, B4(x.partition), B2(x.errorCode));
    Read32(x.partition, s, 0);
    Read16(x.errorCode, s, 4);
  }

  function CommittedParts(xs: seq<Committed>): (r: seq<Part>)
    ensures |r| == |xs|
  {
    seq(|xs|, i requires 0 <= i < |xs| => Part(xs[i].topic, CommittedBody(xs[i])))
  }

  function OffsetCommit(correlationId: int, xs: seq<Committed>, version: int): seq<byte>
  {
    Response(Head(correlationId, version >= 3), CommittedParts(xs), [])
  }

  /** The calls that write an answer. */
  function CommittedFields(x: Committed): seq<Field>
  {
    [Int32(x.partition)] + [Int16(x.errorCode)]
  }

  lemma CommittedIsWritten(x: Committed)
    ensures FieldsBytes(CommittedFields(x)) == CommittedBody(x)
  {
    FieldsSnoc([], Int32(x.partition));
    assert [] + [Int32(x.partition)] == [Int32(x.partition)];
    FieldsSnoc([Int32(x.partition)], Int16(x.errorCode));
  }

  method EncodeOffsetCommit(buf: array<byte>, correlationId: int, xs: seq<Committed>, version: int) returns (size: nat)
    requires |OffsetCommit(correlationId, xs, version)| <= buf.Length
    modifies buf
    ensures size <= buf.Length && buf[..size] == OffsetCommit(correlationId, xs, version)
  {
    var answers := seq(|xs|, i requires 0 <= i < |xs| => Answer(xs[i].topic, CommittedFields(xs[i])));
    forall i | 0 <= i < |xs| ensures FieldsBytes(CommittedFields(xs[i])) == CommittedBody(xs[i]) {
      CommittedIsWritten(xs[i]);
    }
    HeadIsWritten(correlationId, version >= 3);
    size := EncodeGrouped(buf, HeadFields(correlationId, version >= 3), answers, [], CommittedParts(xs));
  }

  function CommittedTopic(x: Committed): seq<byte>
  {
    x.topic
  }

  function CommittedDecoder(): Decoder<Committed>
  {
    (topic: seq<byte>, s: seq<byte>) => if |s| == 6 then ReadCommitted(topic, s) else Committed(topic, 0, 0)
  }

  lemma OffsetCommitCarried(s: seq<byte>, xs: seq<Committed>)
    requires forall i | 0 <= i < |xs| :: CommittedFits(xs[i])
    ensures var parts := CommittedParts(xs);
            && Carries(parts, xs, CommittedTopic, CommittedDecoder())
            && forall i | 0 <= i < |parts| :: Measures(CommittedSize(), s, parts[i].body)
  {
    forall i | 0 <= i < |xs|
      ensures Measures(CommittedSize(), s, CommittedBody(xs[i])) && CommittedDecoder()(xs[i].topic, CommittedBody(xs[i])) == xs[i]
    {
      CommittedReadsBack(xs[i]);
    }
  }

  /** The whole response read back. */
  lemma OffsetCommitReadsBack(correlationId: int, xs: seq<Committed>, version: int)
    requires FitsSigned(correlationId, P32) && forall i | 0 <= i < |xs| :: CommittedFits(xs[i])
    requires Writable(Head(correlationId, version >= 3), CommittedParts(xs), [])
    ensures var s, parts := OffsetCommit(correlationId, xs, version), CommittedParts(xs);
            ClientReads(s, correlationId, version >= 3, CommittedSize(), CommittedDecoder(), xs, CommittedTopic, Topics(parts), |s|)
  {
    var s := OffsetCommit(correlationId, xs, version);
    OffsetCommitCarried(s, xs);
    GroupedReadsBack(s, correlationId, version >= 3, CommittedParts(xs), [], CommittedSize(), CommittedDecoder(), xs, CommittedTopic, |s|);
  }

  // ---- OffsetFetch ----

  datatype Stored = Stored(topic: seq<byte>, partition: int, offset: int, metadata: seq<byte>, errorCode: int)

  predicate StoredFits(x: Stored)
  {
    FitsSigned(x.partition, P32) && FitsSigned(x.offset, P64) && FitsSigned(x.errorCode, P16) && |x.metadata| < P16 / 2
  }

  function StoredBody(x: Stored): seq<byte>
  {
    B4(x.partition) + B8(x.offset) + B2(|x.metadata|) + x.metadata + B2(x.errorCode)
  }

  function StoredSize(s: seq<byte>): Sizer
  {
    (q: int) => if q < 0 || q + 14 > |s| then -1 else q + 14 + I16(s, q + 12) + 2
  }

  function ReadStored(topic: seq<byte>, s: seq<byte>): Stored
    requires |s| >= 16
  {
    var n := |s| - 2;
    Stored(topic, I32(s, 0), I64(s, 4), s[14..n], I16(s, n))
  }

  lemma StoredLaid(s: seq<byte>, q: nat, x: Stored)
    requires Embeds(s, q, StoredBody(x))
    ensures Embeds(s, q, B4(x.partition)) && Embeds(s, q + 4, B8(x.offset)) && Embeds(s, q + 12, B2(|x.metadata|))
    ensures Embeds(s, q + 14, x.metadata) && Embeds(s, q + 14 + |x.metadata|, B2(x.errorCode)) && |StoredBody(x)| == 16 + |x.metadata|
  {
    var a, b, c := B4(x.partition), B8(x.offset), B2(|x.metadata|);
    Peel(s, q, a + b + c + x.metadata, B2(x.errorCode));
    Peel(s, q, a + b + c, x.metadata);
    Peel(s, q, a + b, c);
    Peel(s, q, a, b);
  }

  lemma StoredReadsBack(x: Stored)
    requires StoredFits(x)
    ensures |StoredBody(x)| >= 16 && ReadStored(x.topic, StoredBody(x)) == x
  {
    var s := StoredBody(x);
    Here(s);
    StoredLaid(s, 0, x);
    Read32(x.partition, s, 0);
    Read64(x.offset, s, 4);
    Read16(x.errorCode, s, 14 + |x.metadata|);
  }

  lemma StoredMeasured(s: seq<byte>, x: Stored)
    requires StoredFits(x)
    ensures Measures(StoredSize(s), s, StoredBody(x))
  {
    forall q: nat | Embeds(s, q, StoredBody(x)) ensures StoredSize(s)(q) == q + |StoredBody(x)| {
      StoredLaid(s, q, x);
      Read16(|x.metadata|, s, q + 12);
    }
  }

  function StoredParts(xs: seq<Stored>): (r: seq<Part>)
    ensures |r| == |xs|
  {
    seq(|xs|, i requires 0 <= i < |xs| => Part(xs[i].topic, StoredBody(xs[i])))
  }

  /** From version 2 on, an error code for the whole group at the end. */
  function OffsetFetchTail(groupError: int, version: int): seq<byte>
  {
    if version >= 2 then B2(groupError) else []
  }

  function OffsetFetch(correlationId: int, xs: seq<Stored>, groupError: int, version: int): seq<byte>
  {
    Response(Head(correlationId, version >= 3), StoredParts(xs), OffsetFetchTail(groupError, version))
  }

  /** The calls that write an answer. */
  function StoredFields(x: Stored): seq<Field>
  {
    [Int32(x.partition)] + [Int64(x.offset)] + [Text(x.metadata)] + [Int16(x.errorCode)]
  }

  lemma StoredIsWritten(x: Stored)
    ensures FieldsBytes(StoredFields(x)) == StoredBody(x)
  {
    FieldsSnoc([], Int32(x.partition));
    assert [] + [Int32(x.partition)] == [Int32(x.partition)];
    FieldsSnoc([Int32(x.partition)], Int64(x.offset));
    FieldsSnoc([Int32(x.partition)] + [Int64(x.offset)], Text(x.metadata));
    FieldsSnoc([Int32(x.partition)] + [Int64(x.offset)] + [Text(x.metadata)], Int16(x.errorCode));
    Grouping.Behind(B4(x.partition) + B8(x.offset), B2(|x.metadata|), x.metadata);
  }

  function TailFields(groupError: int, version: int): seq<Field>
  {
    if version >= 2 then [Int16(groupError)] else []
  }

  lemma TailIsWritten(groupError: int, version: int)
    ensures FieldsBytes(TailFields(groupError, version)) == OffsetFetchTail(groupError, version)
  {
    FieldsSnoc([], Int16(groupError));
    assert [] + [Int16(groupError)] == [Int16(groupError)];
  }

  method EncodeOffsetFetch(buf: array<byte>, correlationId: int, xs: seq<Stored>, groupError: int, version: int) returns (size: nat)
    requires |OffsetFetch(correlationId, xs, groupError, version)| <= buf.Length
    modifies buf
    ensures size <= buf.Length && buf[..size] == OffsetFetch(correlationId, xs, groupError, version)
  {
    var answers := seq(|xs|, i requires 0 <= i < |xs| => Answer(xs[i].topic, StoredFields(xs[i])));
    forall i | 0 <= i < |xs| ensures FieldsBytes(StoredFields(xs[i])) == StoredBody(xs[i]) {
      StoredIsWritten(xs[i]);
    }
    HeadIsWritten(correlationId, version >= 3);
    TailIsWritten(groupError, version);
    size := EncodeGrouped(buf, HeadFields(correlationId, version >= 3), answers, TailFields(groupError, version), StoredParts(xs));
  }

  function StoredTopic(x: Stored): seq<byte>
  {
    x.topic
  }

  function StoredDecoder(): Decoder<Stored>
  {
    (topic: seq<byte>, s: seq<byte>) => if |s| >= 16 then ReadStored(topic, s) else Stored(topic, 0, 0, [], 0)
  }

  lemma OffsetFetchCarried(s: seq<byte>, xs: seq<Stored>)
    requires forall i | 0 <= i < |xs| :: StoredFits(xs[i])
    ensures var parts := StoredParts(xs);
            && Carries(parts, xs, StoredTopic, StoredDecoder())
            && forall i | 0 <= i < |parts| :: Measures(StoredSize(s), s, parts[i].body)
  {
    forall i | 0 <= i < |xs|
      ensures Measures(StoredSize(s), s, StoredBody(xs[i])) && StoredDecoder()(xs[i].topic, StoredBody(xs[i])) == xs[i]
    {
      StoredMeasured(s, xs[i]);
      StoredReadsBack(xs[i]);
    }
  }

  lemma GroupErrorReadsBack(head: seq<byte>, parts: seq<Part>, groupError: int)
    requires FitsSigned(groupError, P16)
    ensures var s := Response(head, parts, B2(groupError)); |s| >= 2 && I16(s, |s| - 2) == groupError
  {
    TailEmbeds(head, parts, B2(groupError));
    var s := Response(head, parts, B2(groupError));
    Read16(groupError, s, |s| - 2);
  }

  lemma StoredAnswersReadBack(s: seq<byte>, correlationId: int, throttled: bool, xs: seq<Stored>, tail: seq<byte>)
    requires FitsSigned(correlationId, P32) && forall i | 0 <= i < |xs| :: StoredFits(xs[i])
    requires Writable(Head(correlationId, throttled), StoredParts(xs), tail)
    requires s == Response(Head(correlationId, throttled), StoredParts(xs), tail)
    ensures ClientReads(s, correlationId, throttled, StoredSize(s), StoredDecoder(), xs, StoredTopic, Topics(StoredParts(xs)), |s| - |tail|)
  {
    OffsetFetchCarried(s, xs);
    GroupedReadsBack(s, correlationId, throttled, StoredParts(xs), tail, StoredSize(s), StoredDecoder(), xs, StoredTopic, |s| - |tail|);
  }

  /** Behind the answers, from version 2 on. */
  ghost predicate SaysGroupError(s: seq<byte>, groupError: int, version: int)
  {
    version >= 2 ==> |s| >= 2 && I16(s, |s| - 2) == groupError
  }

  lemma OffsetFetchErrorReadsBack(correlationId: int, xs: seq<Stored>, groupError: int, version: int)
    requires FitsSigned(groupError, P16)
    ensures SaysGroupError(OffsetFetch(correlationId, xs, groupError, version), groupError, version)
  {
    if version >= 2 {
      GroupErrorReadsBack(Head(correlationId, version >= 3), StoredParts(xs), groupError);
    }
  }

  /** The whole response read back, the group's error code included. */
  lemma OffsetFetchReadsBack(correlationId: int, xs: seq<Stored>, groupError: int, version: int)
    requires FitsSigned(correlationId, P32) && FitsSigned(groupError, P16) && forall i | 0 <= i < |xs| :: StoredFits(xs[i])
    requires Writable(Head(correlationId, version >= 3), StoredParts(xs), OffsetFetchTail(groupError, version))
    ensures var s, parts := OffsetFetch(correlationId, xs, groupError, version), StoredParts(xs);
            && ClientReads(s, correlationId, version >= 3, StoredSize(s), StoredDecoder(), xs, StoredTopic, Topics(parts),
                           |s| - |OffsetFetchTail(groupError, version)|)
            && SaysGroupError(s, groupError, version)
  {
    StoredAnswersReadBack(OffsetFetch(correlationId, xs, groupError, version), correlationId, version >= 3, xs, OffsetFetchTail(groupError, version));
    OffsetFetchErrorReadsBack(correlationId, xs, groupError, version);
  }
}
