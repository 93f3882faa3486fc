/**
 Frame extraction on a connection: length-prefixed requests out of a byte ring, however the stream
 was cut into receives.
 */
module Frames {
  import opened Bits
  import opened Bytes
  import opened ByteRing

  const MAX_FRAME: nat := 104857600

  // ---- The reference split of a byte stream ----

  /** Whole frames, the bytes behind the last of them, and whether those announce a frame that is too large. */
  datatype Parsed = Parsed(frames: seq<seq<byte>>, rest: seq<byte>, refused: bool)

  /** What the bytes so far start with. */
  datatype Next = Incomplete | TooLarge | Whole(frame: seq<byte>, rest: seq<byte>)

  function FirstFrame(s: seq<byte>): (r: Next)
    ensures r.Whole? ==> |r.rest| < |s|
  {
    if |s| < 4 then Incomplete
    else if U32(s, 0) > MAX_FRAME then TooLarge
    else if |s| < 4 + U32(s, 0) then Incomplete
    else Whole(s[4..4 + U32(s, 0)], s[4 + U32(s, 0)..])
  }

  function Split(s: seq<byte>): (p: Parsed)
    ensures |p.rest| <= |s|
    decreases |s|
  {
    var first := FirstFrame(s);
    if first.Whole? then Prepend([first.frame], Split(first.rest))
    else Parsed([], s, first.TooLarge?)
  }

  function Prepend(frames: seq<seq<byte>>, p: Parsed): Parsed
  {
    Parsed(frames + p.frames, p.rest, p.refused)
  }

  /** A decision about the first frame stands whatever follows. */
  lemma FirstFrameStands(a: seq<byte>, b: seq<byte>)
    requires !FirstFrame(a).Incomplete?
    ensures FirstFrame(a + b) == if FirstFrame(a).Whole? then Whole(FirstFrame(a).frame, FirstFrame(a).rest + b) else TooLarge
  {
    assert U32(a + b, 0) == U32(a, 0);
    if FirstFrame(a).Whole? {
      assert (a + b)[4..4 + U32(a, 0)] == a[4..4 + U32(a, 0)];
      assert (a + b)[4 + U32(a, 0)..] == a[4 + U32(a, 0)..] + b;
    }
  }

  /** Cutting a stream in two at any byte: what the first part leaves over goes in front of the second. */
  lemma {:induction false} SplitConcat(a: seq<byte>, b: seq<byte>)
    ensures Split(a).refused ==> Split(a + b) == Parsed(Split(a).frames, Split(a).rest + b, true)
    ensures !Split(a).refused ==> Split(a + b) == Prepend(Split(a).frames, Split(Split(a).rest + b))
    decreases |a|
  {
    var first := FirstFrame(a);
    if first.Whole? {
      FirstFrameStands(a, b);
      SplitConcat(first.rest, b);
      assert [first.frame] + (Split(first.rest).frames + Split(Split(first.rest).rest + b).frames)
          == ([first.frame] + Split(first.rest).frames) + Split(Split(first.rest).rest + b).frames;
    } else if first.TooLarge? {
      FirstFrameStands(a, b);
    } else {
      assert [] + Split(a + b).frames == Split(a + b).frames;
    }
  }

  /** What a split leaves over splits no further. */
  lemma {:induction false} RestIsStuck(s: seq<byte>)
    ensures Split(Split(s).rest) == Parsed([], Split(s).rest, Split(s).refused)
    decreases |s|
  {
    if FirstFrame(s).Whole? {
      RestIsStuck(FirstFrame(s).rest);
    }
  }

  function Frame(f: seq<byte>): seq<byte>
  {
    B4(|f|) + f
  }

  /** Length-prefix encoding, the inverse of the split. */
  function Encode(frames: seq<seq<byte>>): seq<byte>
  {
    if frames == [] then [] else Frame(frames[0]) + Encode(frames[1..])
  }

  lemma FirstOfEncoded(f: seq<byte>, rest: seq<byte>)
    requires |f| <= MAX_FRAME
    ensures FirstFrame(Frame(f) + rest) == Whole(f, rest)
  {
    var s := Frame(f) + rest;
    assert s[0..4] == B4(|f|);
    Read32(|f|, s, 0);
    assert s[4..4 + |f|] == f;
    assert s[4 + |f|..] == rest;
  }

  lemma SplitStep(s: seq<byte>, f: seq<byte>, rest: seq<byte>)
    requires FirstFrame(s) == Whole(f, rest)
    ensures Split(s) == Prepend([f], Split(rest))
  {}

  lemma PrependTwice(a: seq<seq<byte>>, b: seq<seq<byte>>, p: Parsed)
    ensures Prepend(a, Prepend(b, p)) == Prepend(a + b, p)
  {
    assert a + (b + p.frames) == (a + b) + p.frames;
  }

  lemma EncodeFirst(frames: seq<seq<byte>>, tail: seq<byte>)
    requires frames != []
    ensures Encode(frames) + tail == Frame(frames[0]) + (Encode(frames[1..]) + tail)
  {
    var a, b := Frame(frames[0]), Encode(frames[1..]);
    assert (a + b) + tail == a + (b + tail);
  }

  lemma SplitFrame(f: seq<byte>, rest: seq<byte>, s: seq<byte>)
    requires |f| <= MAX_FRAME && s == Frame(f) + rest
    ensures Split(s) == Prepend([f], Split(rest))
  {
    FirstOfEncoded(f, rest);
    SplitStep(s, f, rest);
  }

  /** Splitting encoded frames gives the frames back. */
  lemma {:induction false} SplitEncode(frames: seq<seq<byte>>, tail: seq<byte>, s: seq<byte>)
    requires (forall f | f in frames :: |f| <= MAX_FRAME) && s == Encode(frames) + tail
    ensures Split(s) == Prepend(frames, Split(tail))
  {
    if frames == [] {
      assert s == tail;
    } else {
      var rest := Encode(frames[1..]) + tail;
      EncodeFirst(frames, tail);
      SplitFrame(frames[0], rest, s);
      SplitEncode(frames[1..], tail, rest);
      PrependTwice([frames[0]], frames[1..], Split(tail));
      assert [frames[0]] + frames[1..] == frames;
    }
  }

  // ---- process_frames ----

  /** What queue_write leaves in the write ring: whatever of the response fits. */
  function Queue(out: seq<byte>, resp: seq<byte>, cap: nat): (r: seq<byte>)
    requires |out| <= cap
    ensures |r| <= cap
  {
    out + resp[..Min(|resp|, cap - |out|)]
  }

  function QueueAll(out: seq<byte>, frames: seq<seq<byte>>, route: seq<byte> -> seq<byte>, cap: nat): (r: seq<byte>)
    requires |out| <= cap
    ensures |r| <= cap
  {
    if frames == [] then out
    else Queue(QueueAll(out, frames[..|frames| - 1], route, cap), route(frames[|frames| - 1]), cap)
  }

  function Responses(frames: seq<seq<byte>>, route: seq<byte> -> seq<byte>): seq<byte>
  {
    if frames == [] then [] else Responses(frames[..|frames| - 1], route) + route(frames[|frames| - 1])
  }

  /** Responses that fit are all queued, in frame order. */
  lemma {:induction false} ResponsesThatFit(out: seq<byte>, frames: seq<seq<byte>>, route: seq<byte> -> seq<byte>, cap: nat)
    requires |out| + |Responses(frames, route)| <= cap
    ensures QueueAll(out, frames, route, cap) == out + Responses(frames, route)
  {
    if frames != [] {
      ResponsesThatFit(out, frames[..|frames| - 1], route, cap);
    }
  }

  lemma SliceOfSlice<T>(s: seq<T>, a: nat, b: nat, i: nat, j: nat)
    requires a <= b <= |s| && i <= j <= b - a
    ensures s[a..b][i..j] == s[a + i..a + j]
  {
    assert |s[a..b][i..j]| == |s[a + i..a + j]|;
    forall k | 0 <= k < j - i ensures s[a..b][i..j][k] == s[a + i..a + j][k] {}
  }

  class Connection {
    const readBuf: FixedCircularBuffer
    const writeBuf: FixedCircularBuffer

    ghost predicate Valid()
      reads this, readBuf, writeBuf
    {
      readBuf != writeBuf && readBuf.data != writeBuf.data && readBuf.Valid() && writeBuf.Valid()
    }

    constructor (capacity: nat)
      requires IsCapacity(capacity)
      ensures Valid() && fresh(readBuf) && fresh(writeBuf) && fresh(readBuf.data) && fresh(writeBuf.data)
      ensures readBuf.data.Length == writeBuf.data.Length == capacity
      ensures readBuf.Contents() == [] && writeBuf.Contents() == []
    {
      readBuf := new FixedCircularBuffer(capacity);
      writeBuf := new FixedCircularBuffer(capacity);
    }

    /** The bytes of the frame at the tail, straight from the ring if it lies there in one piece, else copied out. */
    method TakeFrame(total: nat) returns (frame: seq<byte>)
      requires Valid() && 4 <= total <= readBuf.Size()
      ensures frame == readBuf.Contents()[4..total]
    {
      var pos, contig := readBuf.ReadHead();
      ghost var s := readBuf.Contents();
      if contig >= total {
        frame := readBuf.data[pos + 4..pos + total];
        SliceOfSlice(readBuf.data[..], pos, pos + contig, 4, total);
        SliceOfSlice(s, 0, contig, 4, total);
      } else {
        var copy := readBuf.Peek(total);
        frame := copy[4..];
        SliceOfSlice(s, 0, total, 4, total);
      }
    }

    /** Answers one whole frame and drops it from the read ring. */
    method AnswerFrame(total: nat, route: seq<byte> -> seq<byte>) returns (frame: seq<byte>)
      requires Valid() && 4 <= total <= readBuf.Size()
      modifies readBuf`tail, writeBuf`head, writeBuf.data
      ensures Valid()
      ensures frame == old(readBuf.Contents())[4..total] && readBuf.Contents() == old(readBuf.Contents())[total..]
      ensures writeBuf.Contents() == Queue(old(writeBuf.Contents()), route(frame), writeBuf.data.Length)
    {
      frame := TakeFrame(total);
      var resp := route(frame);
      if |resp| > 0 {
        var n := writeBuf.Write(resp);
      }
      readBuf.AdvanceTail(total);
    }

    /** One turn of the loop: answers the first frame if it is all there. */
    method NextFrame(route: seq<byte> -> seq<byte>) returns (found: bool, tooLarge: bool, frame: seq<byte>)
      requires Valid()
      modifies readBuf`tail, writeBuf`head, writeBuf.data
      ensures Valid()
      ensures var next := FirstFrame(old(readBuf.Contents()));
              && (found <==> next.Whole?) && (tooLarge <==> next.TooLarge?)
              && (found ==> frame == next.frame && readBuf.Contents() == next.rest
                            && writeBuf.Contents() == Queue(old(writeBuf.Contents()), route(frame), writeBuf.data.Length))
              && (!found ==> readBuf.Contents() == old(readBuf.Contents()) && writeBuf.Contents() == old(writeBuf.Contents()))
    {
      found, tooLarge, frame := false, false, [];
      if readBuf.Size() < 4 {
        return;
      }
      ghost var s := readBuf.Contents();
      var hdr := readBuf.Peek(4);
      var frameSize := U32(hdr, 0);
      assert frameSize == U32(s, 0);
      if frameSize > MAX_FRAME {
        tooLarge := true;
        return;
      }
      var total := 4 + frameSize;
      if readBuf.Size() < total {
        return;
      }
      frame := AnswerFrame(total, route);
      found := true;
    }

    /** Hands every whole frame to the router, in order; leaves the rest, or closes on a frame that is too large. */
    method ProcessFrames(route: seq<byte> -> seq<byte>) returns (frames: seq<seq<byte>>, closed: bool)
      requires Valid()
      modifies readBuf`tail, writeBuf`head, writeBuf.data
      ensures Valid()
      ensures Parsed(frames, readBuf.Contents(), closed) == Split(old(readBuf.Contents()))
      ensures writeBuf.Contents() == QueueAll(old(writeBuf.Contents()), frames, route, writeBuf.data.Length)
    {
      ghost var all, queued, cap := readBuf.Contents(), writeBuf.Contents(), writeBuf.data.Length;
      ghost var rest, out := all, queued;
      frames, closed := [], false;
      var more := true;
      while more
        invariant Valid() && readBuf.Contents() == rest && writeBuf.Contents() == out
        invariant Split(all) == Prepend(frames, Split(rest))
        invariant !more ==> Split(rest) == Parsed([], rest, closed)
        invariant out == QueueAll(queued, frames, route, cap)
        decreases |rest|, more
      {
        var frame;
        more, closed, frame := NextFrame(route);
        if more {
          SplitStep(rest, frame, readBuf.Contents());
          PrependTwice(frames, [frame], Split(readBuf.Contents()));
          rest, out := readBuf.Contents(), writeBuf.Contents();
          assert (frames + [frame])[..|frames|] == frames;
          frames := frames + [frame];
        }
      }
      assert frames + [] == frames;
    }

    /** One recv of any size into the contiguous free piece; none if the ring is full or the socket would block. */
    method ReceiveSome(waiting: seq<byte>) returns (n: nat)
      requires Valid()
      modifies readBuf`head, readBuf.data
      ensures Valid() && n <= |waiting|
      ensures n == 0 <==> waiting == [] || |old(readBuf.Contents())| == readBuf.data.Length
      ensures readBuf.Contents() == old(readBuf.Contents()) + waiting[..n]
    {
      var pos, avail := readBuf.WriteHead();
      n := 0;
      if avail == 0 || waiting == [] {
        assert readBuf.Contents() + waiting[..0] == readBuf.Contents();
        return;
      }
      assert 1 <= Min(avail, |waiting|);
      n :| 1 <= n <= Min(avail, |waiting|);
      readBuf.Receive(waiting[..n]);
    }

    /** Receives what the socket has, piece by piece, until the ring is full, or the stream has ended, or it would block. */
    method ReceiveAll(socket: seq<byte>, fin: bool) returns (unread: seq<byte>, ended: bool)
      requires Valid()
      modifies readBuf`head, readBuf.data
      ensures Valid()
      ensures var k := Min(|socket|, readBuf.data.Length - |old(readBuf.Contents())|);
              unread == socket[k..] && readBuf.Contents() == old(readBuf.Contents()) + socket[..k]
      ensures ended <==> SeesEnd(old(readBuf.Contents()), socket, fin, readBuf.data.Length)
    {
      ghost var ring, taken: nat := readBuf.Contents(), 0;
      ghost var now := ring;
      unread := socket;
      var more := true;
      while more
        invariant Valid() && readBuf.Contents() == now
        invariant taken <= |socket| && unread == socket[taken..] && now == ring + socket[..taken]
        invariant !more ==> unread == [] || |now| == readBuf.data.Length
        decreases |unread|, more
      {
        var n := ReceiveSome(unread);
        TakeMore(ring, socket, taken, n);
        now, taken, unread, more := readBuf.Contents(), taken + n, unread[n..], n > 0;
      }
      ended := fin && readBuf.Size() < readBuf.data.Length;
    }

    /**
     A readable event: receive, then take the frames out; but on the end of the stream, or on a frame that is too large,
     the connection is closed.
     */
    method HandleRead(socket: seq<byte>, fin: bool, route: seq<byte> -> seq<byte>)
      returns (unread: seq<byte>, frames: seq<seq<byte>>, state: State)
      requires Valid()
      modifies readBuf, readBuf.data, writeBuf`head, writeBuf.data
      ensures Valid()
      ensures (Conn(readBuf.Contents(), frames, state), unread)
              == Poll(Conn(old(readBuf.Contents()), [], Open), socket, fin, readBuf.data.Length)
      ensures writeBuf.Contents() == QueueAll(old(writeBuf.Contents()), frames, route, writeBuf.data.Length)
    {
      var ended;
      unread, ended := ReceiveAll(socket, fin);
      if ended {
        return unread, [], Ended;
      }
      var refused;
      frames, refused := ProcessFrames(route);
      state := StateOf(refused);
      assert [] + frames == frames;
    }
  }

  lemma TakeMore(ring: seq<byte>, socket: seq<byte>, taken: nat, n: nat)
    requires taken + n <= |socket|
    ensures ring + socket[..taken] + socket[taken..][..n] == ring + socket[..taken + n]
    ensures socket[taken..][n..] == socket[taken + n..]
  {
    assert socket[..taken] + socket[taken..][..n] == socket[..taken + n];
  }

  // ---- A connection over its whole life ----

  /** Closed on a frame that is too large, or on the end of the stream. */
  datatype State = Open | Refused | Ended

  function StateOf(refused: bool): State
  {
    if refused then Refused else Open
  }

  /** The read ring, everything routed so far, and whether the connection was closed. */
  datatype Conn = Conn(ring: seq<byte>, routed: seq<seq<byte>>, state: State)

  /** A receive answers 0, or fails, when the connection is over and nothing waits; the ring must have had room to ask. */
  predicate SeesEnd(ring: seq<byte>, socket: seq<byte>, fin: bool, cap: nat)
  {
    fin && |ring| + |socket| < cap
  }

  /**
   One readable event: takes what fits from the socket, routes the whole frames. When it sees the end of the stream it
   closes the connection at once, with what it took unrouted in the ring.
   */
  function Poll(c: Conn, socket: seq<byte>, fin: bool, cap: nat): (Conn, seq<byte>)
    requires |c.ring| <= cap
  {
    if !c.state.Open? then (c, socket)
    else
      var k := Min(|socket|, cap - |c.ring|);
      var taken := c.ring + socket[..k];
      if SeesEnd(c.ring, socket, fin, cap) then (Conn(taken, c.routed, Ended), socket[k..])
      else
        var p := Split(taken);
        (Conn(p.rest, c.routed + p.frames, StateOf(p.refused)), socket[k..])
  }

  /** Bytes reach the socket, the peer finishes or breaks off, or the event loop reports the socket readable. */
  datatype Event = Arrive(bytes: seq<byte>) | Fin | Readable

  datatype Life = Life(conn: Conn, socket: seq<byte>, fin: bool, stream: seq<byte>)

  /** Nothing arrives behind the end. */
  function Live(l: Life, e: Event, cap: nat): Life
    requires |l.conn.ring| <= cap
  {
    match e
    case Arrive(bytes) => if l.fin then l else l.(socket := l.socket + bytes, stream := l.stream + bytes)
    case Fin => l.(fin := true)
    case Readable => var (c, s) := Poll(l.conn, l.socket, l.fin, cap); l.(conn := c, socket := s)
  }

  /** Routed frames plus what is still to be split, or was dropped at the end, account for the whole stream. */
  ghost predicate Accounted(l: Life, cap: nat)
  {
    && |l.conn.ring| <= cap
    && (l.conn.state.Refused? ==> Split(l.stream).frames == l.conn.routed && Split(l.stream).refused)
    && (l.conn.state.Open? ==>
          && Split(l.stream) == Prepend(l.conn.routed, Split(l.conn.ring + l.socket))
          && Split(l.conn.ring) == Parsed([], l.conn.ring, false))
    && (l.conn.state.Ended? ==> l.fin && l.socket == [] && Split(l.stream) == Prepend(l.conn.routed, Split(l.conn.ring)))
  }

  lemma ArriveKeeps(l: Life, bytes: seq<byte>, cap: nat)
    requires Accounted(l, cap)
    ensures Accounted(Live(l, Arrive(bytes), cap), cap)
  {
    SplitConcat(l.stream, bytes);
    if l.conn.state.Open? {
      var s := l.conn.ring + l.socket;
      assert l.conn.ring + (l.socket + bytes) == s + bytes;
      SplitConcat(s, bytes);
      if !Split(s).refused {
        PrependTwice(l.conn.routed, Split(s).frames, Split(Split(s).rest + bytes));
      }
    }
  }

  /** Splitting off what a poll takes and routing its frames loses nothing. */
  lemma PollAccounts(routed: seq<seq<byte>>, a: seq<byte>, b: seq<byte>)
    ensures Split(a).refused ==> Prepend(routed, Split(a + b)).frames == routed + Split(a).frames && Split(a + b).refused
    ensures !Split(a).refused ==> Prepend(routed, Split(a + b)) == Prepend(routed + Split(a).frames, Split(Split(a).rest + b))
  {
    SplitConcat(a, b);
    if !Split(a).refused {
      PrependTwice(routed, Split(a).frames, Split(Split(a).rest + b));
    }
  }

  lemma RoutingKeeps(l: Life, cap: nat)
    requires Accounted(l, cap) && l.conn.state.Open? && !SeesEnd(l.conn.ring, l.socket, l.fin, cap)
    ensures Accounted(Live(l, Readable, cap), cap)
  {
    var k := Min(|l.socket|, cap - |l.conn.ring|);
    var a, b := l.conn.ring + l.socket[..k], l.socket[k..];
    assert a + b == l.conn.ring + l.socket;
    PollAccounts(l.conn.routed, a, b);
    RestIsStuck(a);
    var p := Split(a);
    assert Live(l, Readable, cap) == Life(Conn(p.rest, l.conn.routed + p.frames, StateOf(p.refused)), b, l.fin, l.stream);
  }

  lemma EndingKeeps(l: Life, cap: nat)
    requires Accounted(l, cap) && l.conn.state.Open? && SeesEnd(l.conn.ring, l.socket, l.fin, cap)
    ensures Accounted(Live(l, Readable, cap), cap)
  {
    assert l.socket[..|l.socket|] == l.socket && l.socket[|l.socket|..] == [];
    assert Live(l, Readable, cap) == Life(Conn(l.conn.ring + l.socket, l.conn.routed, Ended), [], l.fin, l.stream);
  }

  lemma ReadableKeeps(l: Life, cap: nat)
    requires Accounted(l, cap)
    ensures Accounted(Live(l, Readable, cap), cap)
  {
    if l.conn.state.Open? {
      if SeesEnd(l.conn.ring, l.socket, l.fin, cap) {
        EndingKeeps(l, cap);
      } else {
        RoutingKeeps(l, cap);
      }
    } else {
      assert Live(l, Readable, cap) == l;
    }
  }

  ghost predicate IsLife(ls: seq<Life>, es: seq<Event>, cap: nat)
  {
    && |ls| == |es| + 1 && ls[0] == Life(Conn([], [], Open), [], false, [])
    && forall i | 0 <= i < |es| :: |ls[i].conn.ring| <= cap && ls[i + 1] == Live(ls[i], es[i], cap)
  }

  lemma {:induction false} LifeAccounted(ls: seq<Life>, es: seq<Event>, cap: nat, n: nat)
    requires IsLife(ls, es, cap) && n <= |es|
    ensures Accounted(ls[n], cap)
  {
    if n > 0 {
      LifeAccounted(ls, es, cap, n - 1);
      match es[n - 1] {
        case Arrive(bytes) => ArriveKeeps(ls[n - 1], bytes, cap);
        case Fin =>
        case Readable => ReadableKeeps(ls[n - 1], cap);
      }
    } else {
      assert Split(ls[0].stream) == Parsed([], [], false);
    }
  }

  // ---- Progress ----

  /** Every frame the stream announces, short of the refused ones, fits the ring with its length. */
  ghost predicate Fits(s: seq<byte>, cap: nat)
    decreases |s|
  {
    && (|s| >= 4 && U32(s, 0) <= MAX_FRAME ==> 4 + U32(s, 0) <= cap)
    && (FirstFrame(s).Whole? ==> Fits(FirstFrame(s).rest, cap))
  }

  lemma {:induction false} FitsBehind(a: seq<byte>, b: seq<byte>, cap: nat)
    requires Fits(a + b, cap) && !Split(a).refused
    ensures Fits(Split(a).rest + b, cap)
    decreases |a|
  {
    if FirstFrame(a).Whole? {
      FirstFrameStands(a, b);
      FitsBehind(FirstFrame(a).rest, b, cap);
    }
  }

  lemma {:induction false} FitsPrefix(a: seq<byte>, b: seq<byte>, cap: nat)
    requires Fits(a + b, cap)
    ensures Fits(a, cap)
    decreases |a|
  {
    if |a| >= 4 {
      assert U32(a + b, 0) == U32(a, 0);
    }
    if FirstFrame(a).Whole? {
      FirstFrameStands(a, b);
      FitsPrefix(FirstFrame(a).rest, b, cap);
    }
  }

  /** A ring that holds no whole frame is not full, if the frames fit: a full ring always holds a complete frame. */
  lemma FullRingHasFrame(ring: seq<byte>, cap: nat)
    requires cap >= 4 && Fits(ring, cap) && |ring| == cap && !FirstFrame(ring).TooLarge?
    ensures FirstFrame(ring).Whole?
  {}

  /** And only then: a full ring is stuck exactly when it starts with a frame larger than itself that is not refused. */
  lemma FullRingStuckIff(ring: seq<byte>, cap: nat)
    requires cap >= 4 && |ring| == cap
    ensures FirstFrame(ring).Incomplete? <==> cap < 4 + U32(ring, 0) <= 4 + MAX_FRAME
    ensures FirstFrame(ring).Incomplete? ==>
              forall routed, socket: seq<byte>, fin :: Poll(Conn(ring, routed, Open), socket, fin, cap) == (Conn(ring, routed, Open), socket)
  {
    if FirstFrame(ring).Incomplete? {
      forall routed, socket: seq<byte>, fin
        ensures Poll(Conn(ring, routed, Open), socket, fin, cap) == (Conn(ring, routed, Open), socket)
      {
        assert ring + socket[..0] == ring && socket[0..] == socket && routed + [] == routed;
      }
    }
  }

  /** `n` readable events in a row. */
  function PollTimes(c: Conn, socket: seq<byte>, fin: bool, cap: nat, n: nat): (r: (Conn, seq<byte>))
    requires |c.ring| <= cap
    decreases n
  {
    if n == 0 then (c, socket)
    else
      var (c', s') := Poll(c, socket, fin, cap);
      if |c'.ring| <= cap then PollTimes(c', s', fin, cap, n - 1) else (c', s')
  }

  /** The ring holds no whole frame, and the frames to come fit it. */
  ghost predicate Polled(c: Conn, socket: seq<byte>, cap: nat)
  {
    |c.ring| <= cap && (c.state.Open? ==> Split(c.ring) == Parsed([], c.ring, false) && Fits(c.ring + socket, cap))
  }

  lemma FittingRingHasRoom(ring: seq<byte>, socket: seq<byte>, cap: nat)
    requires cap >= 4 && |ring| <= cap && Split(ring) == Parsed([], ring, false) && Fits(ring + socket, cap)
    ensures |ring| < cap
  {
    FitsPrefix(ring, socket, cap);
    if |ring| == cap {
      FullRingHasFrame(ring, cap);
      assert false;
    }
  }

  lemma PollRoutes(c: Conn, socket: seq<byte>, fin: bool, cap: nat)
    requires cap >= 4 && Polled(c, socket, cap) && c.state.Open? && socket != [] && !SeesEnd(c.ring, socket, fin, cap)
    ensures var (c', s') := Poll(c, socket, fin, cap); Polled(c', s', cap) && |s'| < |socket|
  {
    FittingRingHasRoom(c.ring, socket, cap);
    var k := Min(|socket|, cap - |c.ring|);
    var a, b := c.ring + socket[..k], socket[k..];
    assert a + b == c.ring + socket;
    RestIsStuck(a);
    if !Split(a).refused {
      FitsBehind(a, b, cap);
    }
  }

  /** An event empties the socket, or takes something from it, or closes the connection. */
  lemma PollKeeps(c: Conn, socket: seq<byte>, fin: bool, cap: nat)
    requires cap >= 4 && Polled(c, socket, cap)
    ensures var (c', s') := Poll(c, socket, fin, cap); Polled(c', s', cap) && (c'.state.Open? ==> c.state.Open? && (s' == [] || |s'| < |socket|))
  {
    if c.state.Open? && !SeesEnd(c.ring, socket, fin, cap) {
      if socket == [] {
        PollIdle(c, socket, fin, cap);
      } else {
        PollRoutes(c, socket, fin, cap);
      }
    }
  }

  lemma PollIdle(c: Conn, socket: seq<byte>, fin: bool, cap: nat)
    requires |c.ring| <= cap && c.state.Open? && !SeesEnd(c.ring, socket, fin, cap) && socket == [] && Split(c.ring) == Parsed([], c.ring, false)
    ensures Poll(c, socket, fin, cap) == (c, socket)
  {
    assert c.ring + socket[..0] == c.ring && c.routed + [] == c.routed;
  }

  /** The frames of a fitting stream all arrive: as many readable events as there are bytes waiting empty the socket. */
  lemma {:induction false} PollingDrains(c: Conn, socket: seq<byte>, fin: bool, cap: nat, n: nat)
    requires cap >= 4 && Polled(c, socket, cap) && (!c.state.Open? || n >= |socket|)
    ensures var (c', s') := PollTimes(c, socket, fin, cap, n); |c'.ring| <= cap && (!c'.state.Open? || s' == [])
    decreases n
  {
    if n > 0 {
      PollKeeps(c, socket, fin, cap);
      var (c', s') := Poll(c, socket, fin, cap);
      PollingDrains(c', s', fin, cap, n - 1);
    }
  }

  /**
   However the stream was cut into arrivals and readable events, once the socket is empty the router has
   been given exactly the frames of the reference split, and the ring holds exactly its rest; unless the
   connection saw the end of the stream.
   */
  lemma ChunkingIrrelevant(ls: seq<Life>, es: seq<Event>, cap: nat)
    requires IsLife(ls, es, cap)
    ensures var l := ls[|es|]; var p := Split(l.stream);
            && (l.conn.state.Refused? ==> l.conn.routed == p.frames && p.refused)
            && (l.conn.state.Open? && l.socket == [] ==> l.conn == Conn(p.rest, p.frames, StateOf(p.refused)))
  {
    var l := ls[|es|];
    LifeAccounted(ls, es, cap, |es|);
    if l.conn.state.Open? && l.socket == [] {
      assert l.conn.ring + l.socket == l.conn.ring && l.conn.routed + [] == l.conn.routed;
    }
  }

  // ---- The end of the stream ----

  /**
   The event that sees the end of the stream loses exactly the frames its own bytes complete. So every frame sent
   was routed exactly when those bytes complete none.
   */
  lemma EndLosesItsOwnFrames(ls: seq<Life>, es: seq<Event>, cap: nat, n: nat)
    requires IsLife(ls, es, cap) && n < |es| && ls[n].conn.state.Open? && ls[n + 1].conn.state.Ended?
    ensures var l, l' := ls[n], ls[n + 1]; var taken := l.conn.ring + l.socket;
            && es[n] == Readable && SeesEnd(l.conn.ring, l.socket, l.fin, cap) && l'.stream == l.stream
            && FirstFrame(l.conn.ring).Incomplete?
            && Split(l.stream).frames == l'.conn.routed + Split(taken).frames
            && (l'.conn.routed == Split(l.stream).frames <==> !FirstFrame(taken).Whole?)
  {
    LifeAccounted(ls, es, cap, n);
  }

  /** An end seen stays: nothing more arrives, and nothing more is routed. */
  lemma {:induction false} EndIsFinal(ls: seq<Life>, es: seq<Event>, cap: nat, i: nat, j: nat)
    requires IsLife(ls, es, cap) && i <= j <= |es| && ls[i].conn.state.Ended?
    ensures ls[j] == ls[i]
  {
    if i < j {
      EndIsFinal(ls, es, cap, i, j - 1);
      LifeAccounted(ls, es, cap, j - 1);
      assert ls[j] == Live(ls[j - 1], es[j - 1], cap);
    }
  }

  /** A client that sends a request and finishes is answered or not by whether an event fell between the two. */
  lemma RequestThenEnd(f: seq<byte>, cap: nat)
    requires |f| <= MAX_FRAME && |Frame(f)| < cap
    ensures var l0 := Life(Conn([], [], Open), [], false, []);
            var sent := Live(l0, Arrive(Frame(f)), cap);
            && Live(Live(sent, Fin, cap), Readable, cap) == Life(Conn(Frame(f), [], Ended), [], true, Frame(f))
            && |Live(sent, Readable, cap).conn.ring| <= cap
            && Live(Live(Live(sent, Readable, cap), Fin, cap), Readable, cap) == Life(Conn([], [f], Ended), [], true, Frame(f))
  {
    var bytes := Frame(f);
    assert [] + bytes == bytes && bytes + [] == bytes && bytes[..|bytes|] == bytes && bytes[|bytes|..] == [];
    FirstOfEncoded(f, []);
    SplitStep(bytes, f, []);
    assert Split([]) == Parsed([], [], false);
    assert [] + [f] == [f] && [f] + [] == [f];
  }
}
