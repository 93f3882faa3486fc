/** Produce over REST, then read or peek: through appends, rolls, the index and the scan. */
module RestRuns {
  import opened Bytes
  import opened RecordBatch
  import opened LogModel
  import opened LogRuns
  import opened LogReads
  import opened RestPeek

  /** The log after the requests, however often it rolled. */
  lemma PostedLog(run: seq<Log>, requests: seq<seq<Pair>>, stamps: seq<int>, size: nat)
    requires Posted(requests, stamps) && IsRun(run, RestBatches(requests, stamps), size) && size >= BUFFER
    ensures var batches, l := RestBatches(requests, stamps), run[|requests|]; var bs := AllBatches(l.segments);
            && Inv(l) && Whole(l) && bs == Earlier(l) + Active(l).batches
            && |bs| == |requests| && NumberedOn(bs, batches) && AreStored(PeekerOf, bs, PostsOf(requests, batches))
  {
    var batches, l := RestBatches(requests, stamps), run[|requests|];
    PostedIsAppendable(requests, stamps);
    RunKeeps(run, batches, |requests|, size);
    RunWhole(run, batches, |requests|, size);
    RunStores(run, batches, |requests|, size);
    DenseIsNumbered(l, batches, |requests|);
    AllIsEarlierAndActive(l);
    AllAreStored(AllBatches(l.segments), requests, stamps);
  }

  /** What the handler shows: its read of the log, with a buffer a message as budget, then the peek of the bytes. */
  ghost function PeekOf(l: Log, start: int, n: nat): seq<Message>
    requires l.segments != []
  {
    PeekAll(Slice(Flat(Active(l).batches), ReadOf(l, start, n * BUFFER)), n)
  }

  /** The request a peek starts with: the one whose base offset it asks for, else the one behind that which contains it. */
  ghost function FirstShown(batches: seq<Batch>, c: nat, start: int): nat
    requires c < |batches|
  {
    if start == Total(batches, c) then c else c + 1
  }

  lemma FirstIsShown(bs: seq<seq<byte>>, batches: seq<Batch>, c: nat, start: int)
    requires NumberedOn(bs, batches) && c < |bs| && Total(batches, c) <= start < Total(batches, c + 1)
    requires forall j | 0 <= j < |batches| :: batches[j].records != []
    ensures FirstFrom(bs, start) == FirstShown(batches, c, start)
  {
    FirstIsFirst(bs, batches, start);
    if start == Total(batches, c) {
      FirstAtBase(batches, |bs|, c, FirstFrom(bs, start));
    } else {
      FirstInside(batches, |bs|, c, start, FirstFrom(bs, start));
    }
  }

  lemma PeekOfComplete(l: Log, bs: seq<seq<byte>>, posts: Posts, start: int, n: nat)
    requires Inv(l) && Whole(l) && start < l.next && Complete(l, start) && bs == Earlier(l) + Active(l).batches && 0 < n
    requires AllStored(bs) && AreStored(PeekerOf, bs, posts) && forall m: nat | m < |posts.messages| :: posts.messages[m] != []
    ensures PeekOf(l, start, n) == Take(AllShown(posts, FirstFrom(bs, start), |bs|), n)
  {
    CompleteBytes(l, start, n * BUFFER);
    PeekShows(bs, posts, start, n);
  }

  lemma PeekOfPosted(l: Log, bs: seq<seq<byte>>, batches: seq<Batch>, posts: Posts, c: nat, start: int, n: nat)
    requires Inv(l) && Whole(l) && start < l.next && Complete(l, start) && bs == Earlier(l) + Active(l).batches && 0 < n
    requires NumberedOn(bs, batches) && AreStored(PeekerOf, bs, posts) && forall m: nat | m < |posts.messages| :: posts.messages[m] != []
    requires c < |bs| && Total(batches, c) <= start < Total(batches, c + 1) && forall j | 0 <= j < |batches| :: batches[j].records != []
    ensures FirstShown(batches, c, start) <= |bs| == |posts.bases| == |posts.messages|
    ensures PeekOf(l, start, n) == Take(AllShown(posts, FirstShown(batches, c, start), |bs|), n)
  {
    PeekOfComplete(l, bs, posts, start, n);
    FirstIsShown(bs, batches, c, start);
  }

  lemma BelowNext(run: seq<Log>, batches: seq<Batch>, size: nat, c: nat, start: int)
    requires IsRun(run, batches, size) && c < |batches| && start < Total(batches, c + 1)
    ensures start < run[|batches|].next
  {
    NextIsTotal(run, batches, |batches|, size);
    TotalGrows(batches, c + 1, |batches|);
  }

  lemma NoneEmpty(requests: seq<seq<Pair>>, stamps: seq<int>)
    requires Posted(requests, stamps)
    ensures forall k | 0 <= k < |requests| :: requests[k] != []
    ensures forall k | 0 <= k < |requests| :: RestBatches(requests, stamps)[k].records != []
  {
    PostedIsAppendable(requests, stamps);
    forall k | 0 <= k < |requests| ensures requests[k] != [] {
      assert Fits(requests[k]);
    }
  }

  /**
   Produce, then peek: after any run of produce requests that fit, with any number of rolls, and wherever the log's read is
   complete, a peek of `n` messages from an offset of request `c` shows exactly the first `n` of all messages from request
   `c` on, or, if the offset is not its base, from the next request on; with the offsets they were given and their keys and
   values.
   */
  lemma PeekReturnsWhatWasPosted(run: seq<Log>, requests: seq<seq<Pair>>, stamps: seq<int>, size: nat, c: nat, start: int, n: nat)
    requires Posted(requests, stamps) && IsRun(run, RestBatches(requests, stamps), size) && size >= BUFFER
    requires var batches := RestBatches(requests, stamps); c < |requests| && Total(batches, c) <= start < Total(batches, c + 1) && 0 < n
    ensures var batches, l := RestBatches(requests, stamps), run[|requests|];
            && Inv(l) && Whole(l)
            && (Complete(l, start) ==>
                  PeekOf(l, start, n) == Take(AllShown(PostsOf(requests, batches), FirstShown(batches, c, start), |requests|), n))
  {
    var batches, l := RestBatches(requests, stamps), run[|requests|];
    PostedLog(run, requests, stamps, size);
    BelowNext(run, batches, size, c, start);
    NoneEmpty(requests, stamps);
    if Complete(l, start) {
      PeekOfPosted(l, AllBatches(l.segments), batches, PostsOf(requests, batches), c, start, n);
    }
  }

  /** A log that never rolled is complete everywhere. */
  lemma UnrolledIsComplete(l: Log, start: int)
    requires Inv(l) && Whole(l) && |l.segments| == 1
    ensures Complete(l, start)
  {
    assert l.segments[..0] == [];
  }

  // ---- A reader inside a batch ----

  const HELLO := Pair([], [104, 105])

  lemma HelloFits()
    ensures Fits([HELLO, HELLO])
  {
    EncodeSize(0);
    EncodeSize(1);
    EncodeSize(-1);
    EncodeSize(2);
    EncodeSize(9);
    RecordsAt(RestRecord, [HELLO, HELLO], 0);
    var recs := RestRecords([HELLO, HELLO]);
    assert recs == [recs[0], recs[1]];
    FlatOfTwo(recs[0], recs[1]);
  }

  /**
   Two messages posted in one request. A consumer that has read the first and asks for offset 1 gets nothing, for every
   budget, although the log holds the second.
   */
  lemma SecondMessageSkipped(max: int) returns (run: seq<Log>)
    ensures IsRun(run, RestBatches([[HELLO, HELLO]], [0]), BUFFER)
    ensures var l := run[1];
            && l.segments != [] && l.next == 2 && |Active(l).batches| == 1
            && Stored(Active(l).batches[0]) && Contains(Active(l).batches[0], 1)
            && ReadOf(l, 1, max).from == ReadOf(l, 1, max).to
  {
    var requests, stamps := [[HELLO, HELLO]], [0];
    var batches := RestBatches(requests, stamps);
    HelloFits();
    FitsBounds(requests[0]);
    assert Total(batches, 1) == Total(batches, 0) + |batches[0].records| == 2;
    run := RunExists(batches, BUFFER);
    PostedLog(run, requests, stamps, BUFFER);
    NextIsTotal(run, batches, 1, BUFFER);
    var l := run[1];
    var bs := AllBatches(l.segments);
    OneSegment(run, batches);
    UnrolledIsComplete(l, 1);
    ContainsIff(bs, batches, 0, 0, 1);
    FirstIsFirst(bs, batches, 1);
    FirstInside(batches, 1, 0, 1, FirstFrom(bs, 1));
    ReadsWholeLogIff(l, 1, max);
  }

  lemma OneSegment(run: seq<Log>, batches: seq<Batch>)
    requires IsRun(run, batches, BUFFER) && |batches| == 1
    ensures |run[1].segments| == 1 && AllBatches(run[1].segments) == Active(run[1]).batches
  {
    assert Appended(run, batches, 0, BUFFER);
    assert run[1].segments[..0] == [];
  }
}
