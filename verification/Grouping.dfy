/** Responses grouped by topic: what the four grouping encoders write, and a reader of the schema. */
module Grouping {
  import opened Bytes
  import opened ByteRing
  import opened RecordBatch

  /** One partition's answer: its topic, and the bytes of its fields. */
  datatype Part = Part(topic: seq<byte>, body: seq<byte>)

  // ---- Grouping ----

  /** The topics in the order first seen. */
  function Topics(parts: seq<Part>): seq<seq<byte>>
  {
    if parts == [] then []
    else
      var n := |parts| - 1;
      var before := Topics(parts[..n]);
      if parts[n].topic in before then before else before + [parts[n].topic]
  }

  /** Where a topic's parts are, in order. */
  function Places(parts: seq<Part>, topic: seq<byte>): seq<nat>
  {
    if parts == [] then []
    else
      var n := |parts| - 1;
      Places(parts[..n], topic) + if parts[n].topic == topic then [n] else []
  }

  /** The bodies of a topic's parts, in order. */
  function Bodies(parts: seq<Part>, topic: seq<byte>): seq<seq<byte>>
  {
    if parts == [] then []
    else
      var n := |parts| - 1;
      Bodies(parts[..n], topic) + if parts[n].topic == topic then [parts[n].body] else []
  }

  /** No topic twice, each that occurs, and none else. */
  lemma {:induction false} TopicsAreThoseSeen(parts: seq<Part>)
    ensures forall i, j | 0 <= i < j < |Topics(parts)| :: Topics(parts)[i] != Topics(parts)[j]
    ensures forall k | 0 <= k < |parts| :: parts[k].topic in Topics(parts)
    ensures forall t | t in Topics(parts) :: exists k | 0 <= k < |parts| :: parts[k].topic == t
  {
    if parts != [] {
      var n := |parts| - 1;
      var init := parts[..n];
      TopicsAreThoseSeen(init);
      forall k | 0 <= k < |parts| ensures parts[k].topic in Topics(parts) {
        if k < n { assert parts[k] == init[k]; }
      }
      forall t | t in Topics(parts) ensures exists k | 0 <= k < |parts| :: parts[k].topic == t {
        if t in Topics(init) {
          var k :| 0 <= k < |init| && init[k].topic == t;
          assert parts[k].topic == t;
        } else {
          assert parts[n].topic == t;
        }
      }
    }
  }

  /** A topic's place among the topics is that of its first part among the first parts. */
  lemma {:induction false} TopicsInFirstSeenOrder(parts: seq<Part>, i: nat, j: nat, k: nat)
    requires i < j < |Topics(parts)| && k < |parts| && parts[k].topic == Topics(parts)[j]
    ensures exists h | 0 <= h < k :: parts[h].topic == Topics(parts)[i]
  {
    var n := |parts| - 1;
    var init := parts[..n];
    TopicsAreThoseSeen(init);
    assert k < n ==> init[k] == parts[k] && init[k].topic in Topics(init);
    if k < n {
      TopicsInFirstSeenOrder(init, i, j, k);
      var h :| 0 <= h < k && init[h].topic == Topics(init)[i];
      assert parts[h] == init[h];
    } else {
      assert Topics(init)[i] in Topics(init);
      var h :| 0 <= h < |init| && init[h].topic == Topics(init)[i];
      assert parts[h] == init[h];
    }
  }

  /** A group holds exactly the parts of its topic, each once and in order. */
  lemma {:induction false} GroupHoldsItsParts(parts: seq<Part>, topic: seq<byte>)
    ensures |Bodies(parts, topic)| == |Places(parts, topic)|
    ensures forall i | 0 <= i < |Places(parts, topic)| ::
              Places(parts, topic)[i] < |parts| && parts[Places(parts, topic)[i]] == Part(topic, Bodies(parts, topic)[i])
    ensures forall i, j | 0 <= i < j < |Places(parts, topic)| :: Places(parts, topic)[i] < Places(parts, topic)[j]
    ensures forall k: nat | k < |parts| && parts[k].topic == topic :: k in Places(parts, topic)
  {
    if parts != [] {
      var n := |parts| - 1;
      var init := parts[..n];
      GroupHoldsItsParts(init, topic);
      var ps, qs := Places(init, topic), Places(parts, topic);
      forall i | 0 <= i < |qs| ensures qs[i] < |parts| && parts[qs[i]] == Part(topic, Bodies(parts, topic)[i]) {
        if i < |ps| { assert parts[ps[i]] == init[ps[i]]; }
      }
      forall k: nat | k < |parts| && parts[k].topic == topic ensures k in qs {
        if k < n { assert init[k] == parts[k]; }
      }
    }
  }

  /** The sizes of the groups of these topics together. */
  function Sizes(parts: seq<Part>, topics: seq<seq<byte>>): nat
  {
    if topics == [] then 0 else Sizes(parts, topics[..|topics| - 1]) + |Bodies(parts, topics[|topics| - 1])|
  }

  lemma BodiesGrow(parts: seq<Part>, topic: seq<byte>)
    requires parts != []
    ensures |Bodies(parts, topic)| == |Bodies(parts[..|parts| - 1], topic)| + if parts[|parts| - 1].topic == topic then 1 else 0
  {
  }

  lemma LastIsApart(topics: seq<seq<byte>>, t: seq<byte>)
    requires topics != [] && forall i, j | 0 <= i < j < |topics| :: topics[i] != topics[j]
    ensures var m := |topics| - 1;
            && (t in topics <==> t in topics[..m] || t == topics[m]) && topics[m] !in topics[..m]
            && forall i, j | 0 <= i < j < m :: topics[..m][i] != topics[..m][j]
  {
    var m := |topics| - 1;
    assert topics == topics[..m] + [topics[m]];
  }

  /** One more part makes exactly its own topic's group one longer. */
  lemma {:induction false} SizesGrow(parts: seq<Part>, topics: seq<seq<byte>>)
    requires parts != [] && forall i, j | 0 <= i < j < |topics| :: topics[i] != topics[j]
    ensures var n := |parts| - 1;
            Sizes(parts, topics) == Sizes(parts[..n], topics) + if parts[n].topic in topics then 1 else 0
  {
    if topics != [] {
      LastIsApart(topics, parts[|parts| - 1].topic);
      SizesGrow(parts, topics[..|topics| - 1]);
      BodiesGrow(parts, topics[|topics| - 1]);
    }
  }

  lemma {:induction false} NoneOfANewTopic(parts: seq<Part>, topic: seq<byte>)
    requires forall k | 0 <= k < |parts| :: parts[k].topic != topic
    ensures Bodies(parts, topic) == []
  {
    if parts != [] {
      NoneOfANewTopic(parts[..|parts| - 1], topic);
    }
  }

  /** The counts written sum to the number of parts: nothing is lost or doubled. */
  lemma {:induction false} CountsSum(parts: seq<Part>)
    ensures Sizes(parts, Topics(parts)) == |parts|
  {
    if parts != [] {
      var n := |parts| - 1;
      var init, t := parts[..n], parts[n].topic;
      CountsSum(init);
      TopicsAreThoseSeen(init);
      TopicsAreThoseSeen(parts);
      SizesGrow(parts, Topics(parts));
      if t !in Topics(init) {
        NoneOfANewTopic(init, t);
        assert Topics(parts)[..|Topics(init)|] == Topics(init);
      }
    }
  }

  // ---- What is written ----

  function Str(t: seq<byte>): seq<byte>
  {
    B2(|t|) + t
  }

  function GroupBytes(topic: seq<byte>, bodies: seq<seq<byte>>): seq<byte>
  {
    Str(topic) + B4(|bodies|) + Flat(bodies)
  }

  /** The groups of the first `k` topics. */
  function GroupList(parts: seq<Part>, topics: seq<seq<byte>>, k: nat): (gs: seq<seq<byte>>)
    requires k <= |topics|
    ensures |gs| == k
  {
    if k == 0 then [] else GroupList(parts, topics, k - 1) + [GroupBytes(topics[k - 1], Bodies(parts, topics[k - 1]))]
  }

  /** Head, number of topics, the groups, tail. */
  function Payload(head: seq<byte>, parts: seq<Part>, tail: seq<byte>): seq<byte>
  {
    var topics := Topics(parts);
    head + B4(|topics|) + Flat(GroupList(parts, topics, |topics|)) + tail
  }

  /** The response: its size, then the payload. */
  function Response(head: seq<byte>, parts: seq<Part>, tail: seq<byte>): seq<byte>
  {
    var payload := Payload(head, parts, tail);
    B4(|payload|) + payload
  }

  // ---- A reader of the schema ----

  /** Where the body at a position ends. */
  type Sizer = int -> int

  datatype Bodied = BadBodies | Bodied(bodies: seq<seq<byte>>, next: int)

  function ReadBodies(s: seq<byte>, size: Sizer, p: int, n: int): Bodied
    decreases n
  {
    if n <= 0 then Bodied([], p)
    else
      var q := size(p);
      if !(0 <= p <= q <= |s|) then BadBodies
      else
        match ReadBodies(s, size, q, n - 1)
        case BadBodies => BadBodies
        case Bodied(bodies, next) => Bodied([s[p..q]] + bodies, next)
  }

  datatype Group = Group(topic: seq<byte>, bodies: seq<seq<byte>>)

  datatype GroupRead = BadGroup | GroupRead(group: Group, next: int)

  type Grouper = int -> GroupRead

  /** Reads a number of bodies at a position. */
  type BodyReader = (int, int) -> Bodied

  function BodiesOf(s: seq<byte>, size: Sizer): BodyReader
  {
    (p: int, n: int) => ReadBodies(s, size, p, n)
  }

  /** A topic, a count, and as many bodies. */
  function GroupFrom(s: seq<byte>, read: BodyReader, p: int): GroupRead
  {
    if !(0 <= p && p + 2 <= |s|) then BadGroup
    else
      var n := I16(s, p);
      if !(0 <= n && p + 2 + n + 4 <= |s|) then BadGroup
      else
        match read(p + 2 + n + 4, I32(s, p + 2 + n))
        case BadBodies => BadGroup
        case Bodied(bodies, next) => GroupRead(Group(s[p + 2..p + 2 + n], bodies), next)
  }

  function GroupAt(s: seq<byte>, size: Sizer): Grouper
  {
    (p: int) => GroupFrom(s, BodiesOf(s, size), p)
  }

  datatype GroupsRead = BadGroups | GroupsRead(groups: seq<Group>, next: int)

  function ReadGroups(group: Grouper, p: int, n: int): GroupsRead
    decreases n
  {
    if n <= 0 then GroupsRead([], p)
    else
      match group(p)
      case BadGroup => BadGroups
      case GroupRead(g, next) =>
        match ReadGroups(group, next, n - 1)
        case BadGroups => BadGroups
        case GroupsRead(gs, end) => GroupsRead([g] + gs, end)
  }

  /** A response whose size field says what follows it, with a head of `head` bytes. */
  function ReadResponse(s: seq<byte>, head: nat, size: Sizer): GroupsRead
  {
    if |s| < head + 8 || I32(s, 0) != |s| - 4 then BadGroups
    else ReadGroups(GroupAt(s, size), head + 8, I32(s, head + 4))
  }

  // ---- Reading back ----

  /** The sizer finds the end of this body wherever it lies. */
  ghost predicate Measures(size: Sizer, s: seq<byte>, body: seq<byte>)
  {
    forall q: nat | Embeds(s, q, body) :: size(q) == q + |body|
  }

  /** The same of each of them; recursive, so that a proof looks at one body at a time. */
  ghost predicate MeasuresAll(size: Sizer, s: seq<byte>, bodies: seq<seq<byte>>)
  {
    bodies == [] || (Measures(size, s, bodies[0]) && MeasuresAll(size, s, bodies[1..]))
  }

  lemma {:induction false} EachMeasured(size: Sizer, s: seq<byte>, bodies: seq<seq<byte>>)
    requires forall i | 0 <= i < |bodies| :: Measures(size, s, bodies[i])
    ensures MeasuresAll(size, s, bodies)
  {
    if bodies != [] {
      EachMeasured(size, s, bodies[1..]);
    }
  }

  lemma EmbedsFlat(s: seq<byte>, p: nat, xs: seq<seq<byte>>)
    requires xs != [] && Embeds(s, p, Flat(xs))
    ensures Embeds(s, p, xs[0]) && Embeds(s, p + |xs[0]|, Flat(xs[1..])) && |Flat(xs)| == |xs[0]| + |Flat(xs[1..])|
  {
    Peel(s, p, xs[0], Flat(xs[1..]));
  }

  lemma ReadBody(s: seq<byte>, size: Sizer, p: nat, n: nat, q: nat, rest: seq<seq<byte>>, end: int)
    requires n > 0 && size(p) == q && p <= q <= |s| && ReadBodies(s, size, q, n - 1) == Bodied(rest, end)
    ensures ReadBodies(s, size, p, n) == Bodied([s[p..q]] + rest, end)
  {
  }

  lemma {:induction false} BodiesBack(s: seq<byte>, size: Sizer, p: nat, bodies: seq<seq<byte>>)
    requires Embeds(s, p, Flat(bodies)) && MeasuresAll(size, s, bodies)
    ensures ReadBodies(s, size, p, |bodies|) == Bodied(bodies, p + |Flat(bodies)|)
    decreases |bodies|
  {
    if bodies != [] {
      EmbedsFlat(s, p, bodies);
      var q, end := p + |bodies[0]|, p + |Flat(bodies)|;
      BodiesBack(s, size, q, bodies[1..]);
      ReadBody(s, size, p, |bodies|, q, bodies[1..], end);
      assert [bodies[0]] + bodies[1..] == bodies;
    }
  }

  /** What is required of sizes for the length and count fields to hold them. */
  ghost predicate Fits(topic: seq<byte>, bodies: seq<seq<byte>>)
  {
    |topic| < P16 / 2 && |bodies| < P32 / 2
  }

  lemma GroupLaid(s: seq<byte>, p: nat, topic: seq<byte>, bodies: seq<seq<byte>>)
    requires Embeds(s, p, GroupBytes(topic, bodies)) && Fits(topic, bodies)
    ensures |GroupBytes(topic, bodies)| == 6 + |topic| + |Flat(bodies)|
    ensures p + 6 + |topic| <= |s| && I16(s, p) == |topic| && s[p + 2..p + 2 + |topic|] == topic
    ensures I32(s, p + 2 + |topic|) == |bodies| && Embeds(s, p + 2 + |topic| + 4, Flat(bodies))
  {
    Peel(s, p, Str(topic) + B4(|bodies|), Flat(bodies));
    Peel(s, p, Str(topic), B4(|bodies|));
    Peel(s, p, B2(|topic|), topic);
    Read16(|topic|, s, p);
    Read32(|bodies|, s, p + 2 + |topic|);
  }

  lemma GroupFromIs(s: seq<byte>, read: BodyReader, p: nat, topic: seq<byte>, bodies: seq<seq<byte>>, end: int)
    requires p + 6 + |topic| <= |s| && I16(s, p) == |topic| && s[p + 2..p + 2 + |topic|] == topic
    requires read(p + 2 + |topic| + 4, I32(s, p + 2 + |topic|)) == Bodied(bodies, end)
    ensures GroupFrom(s, read, p) == GroupRead(Group(topic, bodies), end)
  {
  }

  lemma GroupAtIs(s: seq<byte>, size: Sizer, p: nat, topic: seq<byte>, bodies: seq<seq<byte>>, end: int)
    requires p + 6 + |topic| <= |s| && I16(s, p) == |topic| && s[p + 2..p + 2 + |topic|] == topic && I32(s, p + 2 + |topic|) == |bodies|
    requires ReadBodies(s, size, p + 2 + |topic| + 4, |bodies|) == Bodied(bodies, end)
    ensures GroupAt(s, size)(p) == GroupRead(Group(topic, bodies), end)
  {
    GroupFromIs(s, BodiesOf(s, size), p, topic, bodies, end);
  }

  lemma GroupBack(s: seq<byte>, size: Sizer, p: nat, topic: seq<byte>, bodies: seq<seq<byte>>)
    requires Embeds(s, p, GroupBytes(topic, bodies)) && Fits(topic, bodies) && MeasuresAll(size, s, bodies)
    ensures GroupAt(s, size)(p) == GroupRead(Group(topic, bodies), p + |GroupBytes(topic, bodies)|)
  {
    var end := p + |GroupBytes(topic, bodies)|;
    GroupLaid(s, p, topic, bodies);
    assert ReadBodies(s, size, p + 2 + |topic| + 4, |bodies|) == Bodied(bodies, end) by {
      BodiesBack(s, size, p + 2 + |topic| + 4, bodies);
    }
    GroupAtIs(s, size, p, topic, bodies, end);
  }

  /** The groups a reader should find: each topic with its bodies. */
  function Groups(parts: seq<Part>, topics: seq<seq<byte>>, k: nat): (gs: seq<Group>)
    requires k <= |topics|
    ensures |gs| == k
  {
    if k == 0 then [] else Groups(parts, topics, k - 1) + [Group(topics[k - 1], Bodies(parts, topics[k - 1]))]
  }

  /** These bytes are read as this group wherever they lie. */
  ghost predicate ReadsAs(group: Grouper, s: seq<byte>, bytes: seq<byte>, g: Group)
  {
    forall q: nat | Embeds(s, q, bytes) :: group(q) == GroupRead(g, q + |bytes|)
  }

  lemma {:induction false} GroupsBack(group: Grouper, s: seq<byte>, p: nat, bytes: seq<seq<byte>>, gs: seq<Group>)
    requires |bytes| == |gs| && Embeds(s, p, Flat(bytes)) && forall i | 0 <= i < |gs| :: ReadsAs(group, s, bytes[i], gs[i])
    ensures ReadGroups(group, p, |gs|) == GroupsRead(gs, p + |Flat(bytes)|)
    decreases |gs|
  {
    if gs != [] {
      EmbedsFlat(s, p, bytes);
      assert ReadsAs(group, s, bytes[0], gs[0]);
      GroupsBack(group, s, p + |bytes[0]|, bytes[1..], gs[1..]);
      assert [gs[0]] + gs[1..] == gs;
    }
  }

  /** Every group written is read as the group it is. */
  lemma {:induction false} GroupsReadAs(s: seq<byte>, size: Sizer, parts: seq<Part>, topics: seq<seq<byte>>, k: nat)
    requires k <= |topics| && forall i | 0 <= i < |topics| :: Fits(topics[i], Bodies(parts, topics[i]))
    requires forall i | 0 <= i < |parts| :: Measures(size, s, parts[i].body)
    ensures forall i | 0 <= i < k :: ReadsAs(GroupAt(s, size), s, GroupList(parts, topics, k)[i], Groups(parts, topics, k)[i])
  {
    if k > 0 {
      GroupsReadAs(s, size, parts, topics, k - 1);
      GroupReadsAs(s, size, parts, topics[k - 1]);
    }
  }

  lemma GroupReadsAs(s: seq<byte>, size: Sizer, parts: seq<Part>, topic: seq<byte>)
    requires Fits(topic, Bodies(parts, topic)) && forall i | 0 <= i < |parts| :: Measures(size, s, parts[i].body)
    ensures ReadsAs(GroupAt(s, size), s, GroupBytes(topic, Bodies(parts, topic)), Group(topic, Bodies(parts, topic)))
  {
    var bodies := Bodies(parts, topic);
    GroupHoldsItsParts(parts, topic);
    forall i | 0 <= i < |bodies| ensures Measures(size, s, bodies[i]) {
      assert parts[Places(parts, topic)[i]] == Part(topic, bodies[i]);
    }
    EachMeasured(size, s, bodies);
    forall q: nat | Embeds(s, q, GroupBytes(topic, bodies))
      ensures GroupAt(s, size)(q) == GroupRead(Group(topic, bodies), q + |GroupBytes(topic, bodies)|)
    {
      GroupBack(s, size, q, topic, bodies);
    }
  }

  /** Where the pieces of a response lie, and the numbers in front of them. */
  lemma ResponseLaid(s: seq<byte>, head: seq<byte>, count: nat, groups: seq<byte>, tail: seq<byte>)
    requires var payload := head + B4(count) + groups + tail; s == B4(|payload|) + payload && |s| < P32 / 2
    requires count < P32 / 2
    ensures |s| >= |head| + 8 && I32(s, 0) == |s| - 4 && I32(s, |head| + 4) == count
    ensures Embeds(s, |head| + 8, groups) && |head| + 8 + |groups| == |s| - |tail|
  {
    var payload := head + B4(count) + groups + tail;
    assert s[0..|s|] == s;
    Peel(s, 0, B4(|payload|), payload);
    Peel(s, 4, head + B4(count) + groups, tail);
    Peel(s, 4, head + B4(count), groups);
    Peel(s, 4, head, B4(count));
    Read32(|payload|, s, 0);
    Read32(count, s, 4 + |head|);
  }

  /** Names fit their length field, no body is empty, and the response fits its size field. */
  ghost predicate Writable(head: seq<byte>, parts: seq<Part>, tail: seq<byte>)
  {
    && |Response(head, parts, tail)| < P32 / 2
    && forall i | 0 <= i < |parts| :: |parts[i].topic| < P16 / 2 && parts[i].body != []
  }

  lemma {:induction false} ListIsGroups(parts: seq<Part>, topics: seq<seq<byte>>, k: nat)
    requires k <= |topics|
    ensures forall i | 0 <= i < k :: GroupList(parts, topics, k)[i] == GroupBytes(topics[i], Bodies(parts, topics[i]))
  {
    if k > 0 {
      ListIsGroups(parts, topics, k - 1);
    }
  }

  /** Then every count fits its field too. */
  lemma WritableFits(head: seq<byte>, parts: seq<Part>, tail: seq<byte>)
    requires Writable(head, parts, tail)
    ensures |Topics(parts)| < P32 / 2 && forall i | 0 <= i < |Topics(parts)| :: Fits(Topics(parts)[i], Bodies(parts, Topics(parts)[i]))
  {
    var topics := Topics(parts);
    var list := GroupList(parts, topics, |topics|);
    ListIsGroups(parts, topics, |topics|);
    assert |Flat(list)| <= |Response(head, parts, tail)|;
    CountIsShorter(list);
    TopicsAreThoseSeen(parts);
    forall i | 0 <= i < |topics| ensures Fits(topics[i], Bodies(parts, topics[i])) {
      var t := topics[i];
      var bodies := Bodies(parts, t);
      GroupHoldsItsParts(parts, t);
      forall j: nat | j < |bodies| ensures bodies[j] != [] {
        assert parts[Places(parts, t)[j]] == Part(t, bodies[j]);
      }
      CountIsShorter(bodies);
      PartIsShorter(list, i);
      assert t in topics;
    }
  }

  /**
   The whole response read back: the size field says what follows, there are as many groups as topics, each topic
   with its own bodies, and the reader stops where the tail starts.
   */
  lemma ResponseReadsBack(head: seq<byte>, parts: seq<Part>, tail: seq<byte>, size: Sizer)
    requires Writable(head, parts, tail)
    requires forall i | 0 <= i < |parts| :: Measures(size, Response(head, parts, tail), parts[i].body)
    ensures var s, topics := Response(head, parts, tail), Topics(parts);
            ReadResponse(s, |head|, size) == GroupsRead(Groups(parts, topics, |topics|), |s| - |tail|)
  {
    var s, topics := Response(head, parts, tail), Topics(parts);
    var list := GroupList(parts, topics, |topics|);
    WritableFits(head, parts, tail);
    ResponseLaid(s, head, |topics|, Flat(list), tail);
    GroupsReadAs(s, size, parts, topics, |topics|);
    GroupsBack(GroupAt(s, size), s, |head| + 8, list, Groups(parts, topics, |topics|));
  }

  // ---- The writer ----

  lemma GapFilled(gap: seq<byte>, behind: seq<byte>, size: seq<byte>, at: nat)
    requires |gap| == at + |size|
    ensures Splice(gap + behind, at, size) == gap[..at] + size + behind
  {
    assert (gap + behind)[..at] == gap[..at];
    assert (gap + behind)[|gap|..] == behind;
  }

  class BinaryWriter {
    const data: array<byte>
    var pos: nat

    ghost predicate Valid()
      reads this
    {
      pos <= data.Length
    }

    ghost function Written(): seq<byte>
      requires Valid()
      reads this, data
    {
      data[..pos]
    }

    constructor (data: array<byte>)
      ensures Valid() && this.data == data && Written() == []
    {
      this.data := data;
      pos := 0;
    }

    method WriteRaw(src: seq<byte>)
      requires Valid() && pos + |src| <= data.Length
      modifies this, data
      ensures Valid() && Written() == old(Written()) + src
    {
      CopyIn(data, pos, src);
      pos := pos + |src|;
    }

    method WriteInt32(v: int)
      requires Valid() && pos + 4 <= data.Length
      modifies this, data
      ensures Valid() && Written() == old(Written()) + B4(v)
    {
      WriteRaw(B4(v));
    }

    method WriteInt16(v: int)
      requires Valid() && pos + 2 <= data.Length
      modifies this, data
      ensures Valid() && Written() == old(Written()) + B2(v)
    {
      WriteRaw(B2(v));
    }

    method WriteInt64(v: int)
      requires Valid() && pos + 8 <= data.Length
      modifies this, data
      ensures Valid() && Written() == old(Written()) + B8(v)
    {
      WriteRaw(B8(v));
    }

    method WriteString(t: seq<byte>)
      requires Valid() && pos + |Str(t)| <= data.Length
      modifies this, data
      ensures Valid() && Written() == old(Written()) + Str(t)
    {
      WriteInt16(|t|);
      WriteRaw(t);
    }

    /** Leaves four bytes for the size. */
    method WriteSizePlaceholder() returns (at: nat)
      requires Valid() && pos + 4 <= data.Length
      modifies this
      ensures Valid() && at == old(pos) && pos == at + 4 && Written()[..at] == old(Written())
    {
      at := pos;
      pos := pos + 4;
    }

    /** Writes the number of bytes behind the placeholder into it. */
    method PatchSize(at: nat, ghost gap: seq<byte>, ghost payload: seq<byte>)
      requires Valid() && |gap| == at + 4 && Written() == gap + payload
      modifies data
      ensures Valid() && Written() == gap[..at] + B4(|payload|) + payload
    {
      ghost var was, rest := data[..], data[pos..];
      assert was == gap + (payload + rest);
      CopyIn(data, at, B4(pos - at - 4));
      GapFilled(gap, payload + rest, B4(|payload|), at);
      assert data[..pos] == data[..][..pos];
      assert (gap[..at] + B4(|payload|) + (payload + rest))[..pos] == gap[..at] + B4(|payload|) + payload;
    }
  }

  // ---- What an encoder writes, call by call ----

  /** One call of the writer. */
  datatype Field = Int16(v: int) | Int32(v: int) | Int64(v: int) | Text(t: seq<byte>) | Raw(bytes: seq<byte>)

  function FieldBytes(f: Field): seq<byte>
  {
    match f
    case Int16(v) => B2(v)
    case Int32(v) => B4(v)
    case Int64(v) => B8(v)
    case Text(t) => Str(t)
    case Raw(bytes) => bytes
  }

  /** The first `i` calls. */
  function FieldsUpTo(fs: seq<Field>, i: nat): seq<byte>
    requires i <= |fs|
  {
    if i == 0 then [] else FieldsUpTo(fs, i - 1) + FieldBytes(fs[i - 1])
  }

  function FieldsBytes(fs: seq<Field>): seq<byte>
  {
    FieldsUpTo(fs, |fs|)
  }

  lemma {:induction false} FieldsOfPrefix(fs: seq<Field>, f: Field, i: nat)
    requires i <= |fs|
    ensures FieldsUpTo(fs + [f], i) == FieldsUpTo(fs, i)
  {
    if i > 0 {
      FieldsOfPrefix(fs, f, i - 1);
    }
  }

  lemma FieldsSnoc(fs: seq<Field>, f: Field)
    ensures FieldsBytes(fs + [f]) == FieldsBytes(fs) + FieldBytes(f)
  {
    FieldsOfPrefix(fs, f, |fs|);
  }

  lemma {:induction false} FieldsGrow(fs: seq<Field>, i: nat, n: nat)
    requires i <= n <= |fs|
    ensures |FieldsUpTo(fs, i)| <= |FieldsUpTo(fs, n)|
  {
    if i < n {
      FieldsGrow(fs, i, n - 1);
    }
  }

  lemma Behind(was: seq<byte>, done: seq<byte>, more: seq<byte>)
    ensures was + (done + more) == (was + done) + more
  {}

  method WriteField(w: BinaryWriter, f: Field)
    requires w.Valid() && w.pos + |FieldBytes(f)| <= w.data.Length
    modifies w, w.data
    ensures w.Valid() && w.Written() == old(w.Written()) + FieldBytes(f)
  {
    match f
    case Int16(v) => w.WriteInt16(v);
    case Int32(v) => w.WriteInt32(v);
    case Int64(v) => w.WriteInt64(v);
    case Text(t) => w.WriteString(t);
    case Raw(bytes) => w.WriteRaw(bytes);
  }

  method WriteFields(w: BinaryWriter, fs: seq<Field>)
    requires w.Valid() && w.pos + |FieldsBytes(fs)| <= w.data.Length
    modifies w, w.data
    ensures w.Valid() && w.Written() == old(w.Written()) + FieldsBytes(fs)
  {
    ghost var was := w.Written();
    for i := 0 to |fs|
      invariant w.Valid() && w.Written() == was + FieldsUpTo(fs, i)
    {
      FieldsGrow(fs, i + 1, |fs|);
      Behind(was, FieldsUpTo(fs, i), FieldBytes(fs[i]));
      WriteField(w, fs[i]);
    }
  }

  /** An answer as the encoder gets it, with the calls that write its fields. */
  datatype Answer = Answer(topic: seq<byte>, fields: seq<Field>)

  ghost predicate Describes(answers: seq<Answer>, parts: seq<Part>)
  {
    |parts| == |answers| && forall i | 0 <= i < |parts| :: parts[i] == Part(answers[i].topic, FieldsBytes(answers[i].fields))
  }

  // ---- The encoders' loops ----

  method HasTopic(topics: seq<seq<byte>>, t: seq<byte>) returns (found: bool)
    ensures found <==> t in topics
  {
    found := false;
    for i := 0 to |topics|
      invariant !found && t !in topics[..i]
    {
      if topics[i] == t {
        return true;
      }
    }
  }

  method FindTopics(answers: seq<Answer>, ghost parts: seq<Part>) returns (topics: seq<seq<byte>>)
    requires Describes(answers, parts)
    ensures topics == Topics(parts)
  {
    topics := [];
    for i := 0 to |answers|
      invariant topics == Topics(parts[..i])
    {
      assert parts[..i + 1][..i] == parts[..i];
      var found := HasTopic(topics, answers[i].topic);
      if !found {
        topics := topics + [answers[i].topic];
      }
    }
    assert parts[..|parts|] == parts;
  }

  method CountParts(answers: seq<Answer>, topic: seq<byte>, ghost parts: seq<Part>) returns (n: nat)
    requires Describes(answers, parts)
    ensures n == |Bodies(parts, topic)|
  {
    n := 0;
    for i := 0 to |answers|
      invariant n == |Bodies(parts[..i], topic)|
    {
      assert parts[..i + 1][..i] == parts[..i];
      if answers[i].topic == topic {
        n := n + 1;
      }
    }
    assert parts[..|parts|] == parts;
  }

  /** What an answer adds to the section of a topic. */
  ghost function Share(answer: Answer, topic: seq<byte>): seq<byte>
  {
    if answer.topic == topic then FieldsBytes(answer.fields) else []
  }

  /** The section of a topic after the first answers. */
  ghost function Section(answers: seq<Answer>, topic: seq<byte>, i: nat): seq<byte>
    requires i <= |answers|
  {
    if i == 0 then [] else Section(answers, topic, i - 1) + Share(answers[i - 1], topic)
  }

  lemma ShareIs(answers: seq<Answer>, parts: seq<Part>, topic: seq<byte>, i: nat)
    requires Describes(answers, parts) && i < |parts|
    ensures Share(answers[i], topic) == if parts[i].topic == topic then parts[i].body else []
  {
  }

  /** The same from the parts. */
  ghost function BodiesUpTo(parts: seq<Part>, topic: seq<byte>, i: nat): seq<byte>
    requires i <= |parts|
  {
    if i == 0 then [] else BodiesUpTo(parts, topic, i - 1) + if parts[i - 1].topic == topic then parts[i - 1].body else []
  }

  lemma {:induction false} BodiesAreFlat(parts: seq<Part>, topic: seq<byte>, i: nat)
    requires i <= |parts|
    ensures BodiesUpTo(parts, topic, i) == Flat(Bodies(parts[..i], topic))
  {
    if i > 0 {
      BodiesAreFlat(parts, topic, i - 1);
      assert parts[..i][..i - 1] == parts[..i - 1];
      if parts[i - 1].topic == topic {
        FlatSnoc(Bodies(parts[..i - 1], topic), parts[i - 1].body);
      } else {
        assert Bodies(parts[..i - 1], topic) + [] == Bodies(parts[..i - 1], topic);
      }
    }
  }

  lemma {:induction false} SectionIs(answers: seq<Answer>, parts: seq<Part>, topic: seq<byte>, i: nat)
    requires Describes(answers, parts) && i <= |parts|
    ensures Section(answers, topic, i) == BodiesUpTo(parts, topic, i)
  {
    if i > 0 {
      SectionIs(answers, parts, topic, i - 1);
      ShareIs(answers, parts, topic, i - 1);
    }
  }

  lemma {:induction false} SectionGrows(answers: seq<Answer>, topic: seq<byte>, i: nat, n: nat)
    requires i <= n <= |answers|
    ensures |Section(answers, topic, i)| <= |Section(answers, topic, n)|
  {
    if i < n {
      SectionGrows(answers, topic, i, n - 1);
    }
  }

  method WriteShare(w: BinaryWriter, answer: Answer, topic: seq<byte>)
    requires w.Valid() && w.pos + |Share(answer, topic)| <= w.data.Length
    modifies w, w.data
    ensures w.Valid() && w.Written() == old(w.Written()) + Share(answer, topic)
  {
    if answer.topic == topic {
      WriteFields(w, answer.fields);
    }
  }

  method WriteSection(w: BinaryWriter, answers: seq<Answer>, topic: seq<byte>)
    requires w.Valid() && w.pos + |Section(answers, topic, |answers|)| <= w.data.Length
    modifies w, w.data
    ensures w.Valid() && w.Written() == old(w.Written()) + Section(answers, topic, |answers|)
  {
    ghost var was := w.Written();
    for i := 0 to |answers|
      invariant w.Valid() && w.Written() == was + Section(answers, topic, i)
    {
      SectionGrows(answers, topic, i + 1, |answers|);
      Behind(was, Section(answers, topic, i), Share(answers[i], topic));
      WriteShare(w, answers[i], topic);
    }
  }

  method WriteBodies(w: BinaryWriter, answers: seq<Answer>, topic: seq<byte>, ghost parts: seq<Part>)
    requires Describes(answers, parts) && w.Valid() && w.pos + |Flat(Bodies(parts, topic))| <= w.data.Length
    modifies w, w.data
    ensures w.Valid() && w.Written() == old(w.Written()) + Flat(Bodies(parts, topic))
  {
    SectionIs(answers, parts, topic, |parts|);
    BodiesAreFlat(parts, topic, |parts|);
    assert parts[..|parts|] == parts;
    WriteSection(w, answers, topic);
  }

  method WriteGroup(w: BinaryWriter, answers: seq<Answer>, topic: seq<byte>, ghost parts: seq<Part>)
    requires Describes(answers, parts) && w.Valid() && w.pos + |GroupBytes(topic, Bodies(parts, topic))| <= w.data.Length
    modifies w, w.data
    ensures w.Valid() && w.Written() == old(w.Written()) + GroupBytes(topic, Bodies(parts, topic))
  {
    ghost var was := w.Written();
    w.WriteString(topic);
    var n := CountParts(answers, topic, parts);
    w.WriteInt32(n);
    WriteBodies(w, answers, topic, parts);
    assert w.Written() == was + GroupBytes(topic, Bodies(parts, topic));
  }

  lemma {:induction false} ListOfPrefix(parts: seq<Part>, topics: seq<seq<byte>>, k: nat, n: nat)
    requires k <= n <= |topics|
    ensures |Flat(GroupList(parts, topics, k))| <= |Flat(GroupList(parts, topics, n))|
  {
    if k < n {
      ListOfPrefix(parts, topics, k, n - 1);
      FlatSnoc(GroupList(parts, topics, n - 1), GroupBytes(topics[n - 1], Bodies(parts, topics[n - 1])));
    }
  }

  lemma ListStep(parts: seq<Part>, topics: seq<seq<byte>>, k: nat)
    requires k < |topics|
    ensures Flat(GroupList(parts, topics, k + 1)) == Flat(GroupList(parts, topics, k)) + GroupBytes(topics[k], Bodies(parts, topics[k]))
    ensures |Flat(GroupList(parts, topics, k + 1))| <= |Flat(GroupList(parts, topics, |topics|))|
  {
    FlatSnoc(GroupList(parts, topics, k), GroupBytes(topics[k], Bodies(parts, topics[k])));
    ListOfPrefix(parts, topics, k + 1, |topics|);
  }

  method WriteGroups(w: BinaryWriter, answers: seq<Answer>, topics: seq<seq<byte>>, ghost parts: seq<Part>)
    requires Describes(answers, parts) && w.Valid() && w.pos + |Flat(GroupList(parts, topics, |topics|))| <= w.data.Length
    modifies w, w.data
    ensures w.Valid() && w.Written() == old(w.Written()) + Flat(GroupList(parts, topics, |topics|))
  {
    ghost var was := w.Written();
    for k := 0 to |topics|
      invariant w.Valid() && w.Written() == was + Flat(GroupList(parts, topics, k))
    {
      ListStep(parts, topics, k);
      Behind(was, Flat(GroupList(parts, topics, k)), GroupBytes(topics[k], Bodies(parts, topics[k])));
      WriteGroup(w, answers, topics[k], parts);
    }
  }

  method WritePayload(w: BinaryWriter, head: seq<Field>, answers: seq<Answer>, tail: seq<Field>, ghost parts: seq<Part>)
    requires Describes(answers, parts) && w.Valid()
    requires w.pos + |Payload(FieldsBytes(head), parts, FieldsBytes(tail))| <= w.data.Length
    modifies w, w.data
    ensures w.Valid() && w.Written() == old(w.Written()) + Payload(FieldsBytes(head), parts, FieldsBytes(tail))
  {
    WriteFields(w, head);
    var topics := FindTopics(answers, parts);
    w.WriteInt32(|topics|);
    WriteGroups(w, answers, topics, parts);
    WriteFields(w, tail);
    Regrouped(old(w.Written()), FieldsBytes(head), B4(|topics|), Flat(GroupList(parts, topics, |topics|)), FieldsBytes(tail));
  }

  lemma Regrouped(was: seq<byte>, a: seq<byte>, b: seq<byte>, c: seq<byte>, d: seq<byte>)
    ensures was + a + b + c + d == was + (a + b + c + d)
  {}

  /** Size placeholder, what `WritePayload` writes, and the size patched in. */
  method WriteFramed(w: BinaryWriter, head: seq<Field>, answers: seq<Answer>, tail: seq<Field>, ghost parts: seq<Part>)
    requires Describes(answers, parts) && w.Valid() && w.pos == 0
    requires 4 + |Payload(FieldsBytes(head), parts, FieldsBytes(tail))| <= w.data.Length
    modifies w, w.data
    ensures var payload := Payload(FieldsBytes(head), parts, FieldsBytes(tail));
            w.Valid() && w.Written() == B4(|payload|) + payload
  {
    var at := w.WriteSizePlaceholder();
    ghost var gap, payload := w.Written(), Payload(FieldsBytes(head), parts, FieldsBytes(tail));
    WritePayload(w, head, answers, tail, parts);
    w.PatchSize(at, gap, payload);
    assert gap[..0] + B4(|payload|) + payload == B4(|payload|) + payload;
  }

  /** The shape the four encoders share: size, head, number of topics, groups, tail, then the size patched in. */
  method EncodeGrouped(buf: array<byte>, head: seq<Field>, answers: seq<Answer>, tail: seq<Field>, ghost parts: seq<Part>)
    returns (size: nat)
    requires Describes(answers, parts) && |Response(FieldsBytes(head), parts, FieldsBytes(tail))| <= buf.Length
    modifies buf
    ensures size <= buf.Length && buf[..size] == Response(FieldsBytes(head), parts, FieldsBytes(tail))
  {
    var w := new BinaryWriter(buf);
    WriteFramed(w, head, answers, tail, parts);
    size := w.pos;
  }

  // ---- Typed answers ----

  /** The records of one topic, in order. */
  function Mine<T>(xs: seq<T>, topicOf: T -> seq<byte>, topic: seq<byte>): seq<T>
  {
    if xs == [] then []
    else
      var n := |xs| - 1;
      Mine(xs[..n], topicOf, topic) + if topicOf(xs[n]) == topic then [xs[n]] else []
  }

  /** Reads a body as a record of its topic. */
  type Decoder<T> = (seq<byte>, seq<byte>) -> T

  function DecodeBodies<T>(topic: seq<byte>, bodies: seq<seq<byte>>, dec: Decoder<T>): seq<T>
  {
    if bodies == [] then [] else DecodeBodies(topic, bodies[..|bodies| - 1], dec) + [dec(topic, bodies[|bodies| - 1])]
  }

  datatype TypedGroup<T> = TypedGroup(topic: seq<byte>, records: seq<T>)

  function DecodeGroups<T>(groups: seq<Group>, dec: Decoder<T>): seq<TypedGroup<T>>
  {
    if groups == [] then []
    else
      var g := groups[|groups| - 1];
      DecodeGroups(groups[..|groups| - 1], dec) + [TypedGroup(g.topic, DecodeBodies(g.topic, g.bodies, dec))]
  }

  /** The parts carry these records. */
  ghost predicate Carries<T>(parts: seq<Part>, xs: seq<T>, topicOf: T -> seq<byte>, dec: Decoder<T>)
  {
    |parts| == |xs| && forall i | 0 <= i < |xs| :: parts[i].topic == topicOf(xs[i]) && dec(parts[i].topic, parts[i].body) == xs[i]
  }

  lemma {:induction false} BodiesDecode<T>(parts: seq<Part>, xs: seq<T>, topicOf: T -> seq<byte>, dec: Decoder<T>, topic: seq<byte>)
    requires Carries(parts, xs, topicOf, dec)
    ensures DecodeBodies(topic, Bodies(parts, topic), dec) == Mine(xs, topicOf, topic)
  {
    if xs != [] {
      var n := |xs| - 1;
      BodiesDecode(parts[..n], xs[..n], topicOf, dec, topic);
      var before := Bodies(parts[..n], topic);
      if parts[n].topic == topic {
        assert (before + [parts[n].body])[..|before|] == before;
      } else {
        assert before + [] == before;
      }
    }
  }

  /** For each topic, its records. */
  function TypedGroups<T>(xs: seq<T>, topicOf: T -> seq<byte>, topics: seq<seq<byte>>, k: nat): seq<TypedGroup<T>>
    requires k <= |topics|
  {
    if k == 0 then [] else TypedGroups(xs, topicOf, topics, k - 1) + [TypedGroup(topics[k - 1], Mine(xs, topicOf, topics[k - 1]))]
  }

  lemma {:induction false} GroupsDecode<T>(parts: seq<Part>, xs: seq<T>, topicOf: T -> seq<byte>, dec: Decoder<T>, topics: seq<seq<byte>>, k: nat)
    requires Carries(parts, xs, topicOf, dec) && k <= |topics|
    ensures DecodeGroups(Groups(parts, topics, k), dec) == TypedGroups(xs, topicOf, topics, k)
  {
    if k > 0 {
      GroupsDecode(parts, xs, topicOf, dec, topics, k - 1);
      BodiesDecode(parts, xs, topicOf, dec, topics[k - 1]);
      var before := Groups(parts, topics, k - 1);
      assert Groups(parts, topics, k)[..|before|] == before;
    }
  }

  datatype Typed<T> = NoResponse | Typed(correlationId: int, groups: seq<TypedGroup<T>>, next: int)

  /** The correlation id, and for each topic its records; `next` is where the tail starts. */
  function ReadTyped<T>(s: seq<byte>, head: nat, size: Sizer, dec: Decoder<T>): Typed<T>
    requires head >= 4
  {
    match ReadResponse(s, head, size)
    case BadGroups => NoResponse
    case GroupsRead(groups, next) => Typed(I32(s, 4), DecodeGroups(groups, dec), next)
  }

  /** The head's first field is read back, and what follows it stands behind it. */
  lemma HeadReadsBack(correlationId: int, more: seq<byte>, parts: seq<Part>, tail: seq<byte>)
    requires FitsSigned(correlationId, P32)
    ensures var s := Response(B4(correlationId) + more, parts, tail); |s| >= 8 && I32(s, 4) == correlationId && Embeds(s, 8, more)
  {
    var head := B4(correlationId) + more;
    var s, payload := Response(head, parts, tail), Payload(head, parts, tail);
    var rest := B4(|Topics(parts)|) + Flat(GroupList(parts, Topics(parts), |Topics(parts)|)) + tail;
    assert payload == B4(correlationId) + (more + rest);
    assert s[0..|s|] == s;
    Peel(s, 0, B4(|payload|), payload);
    Peel(s, 4, B4(correlationId), more + rest);
    Peel(s, 8, more, rest);
    Read32(correlationId, s, 4);
  }

  /** A whole response read back as typed records: each topic once, in the order first seen, with its own records in order. */
  lemma TypedReadsBack<T>(correlationId: int, more: seq<byte>, parts: seq<Part>, tail: seq<byte>, size: Sizer,
                          xs: seq<T>, topicOf: T -> seq<byte>, dec: Decoder<T>)
    requires FitsSigned(correlationId, P32) && Writable(B4(correlationId) + more, parts, tail)
    requires forall i | 0 <= i < |parts| :: Measures(size, Response(B4(correlationId) + more, parts, tail), parts[i].body)
    requires Carries(parts, xs, topicOf, dec)
    ensures var s, topics := Response(B4(correlationId) + more, parts, tail), Topics(parts);
            ReadTyped(s, 4 + |more|, size, dec) == Typed(correlationId, TypedGroups(xs, topicOf, topics, |topics|), |s| - |tail|)
  {
    ResponseReadsBack(B4(correlationId) + more, parts, tail, size);
    HeadReadsBack(correlationId, more, parts, tail);
    GroupsDecode(parts, xs, topicOf, dec, Topics(parts), |Topics(parts)|);
  }

  /** What ends a response is read back there. */
  lemma TailEmbeds(head: seq<byte>, parts: seq<Part>, tail: seq<byte>)
    ensures var s := Response(head, parts, tail); Embeds(s, |s| - |tail|, tail)
  {
    var s := Response(head, parts, tail);
    assert s[|s| - |tail|..|s|] == tail;
  }
}
