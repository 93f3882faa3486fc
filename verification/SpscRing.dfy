/**
 The single-producer single-consumer ring, one atomic load, store or slot access per step.

 The fields the code has are `head`, `tail`, the two cached copies and `storage`; counters
 are uint64_t and wrap. `hist` records what the run has done so far; no step reads it.
 */
module SpscRing {
  import opened Bits
  import opened Options

  /** The data members of the ring. */
  datatype Ring<T> = Ring(head: nat, tailCached: nat, tail: nat, headCached: nat, storage: seq<T>)

  /** Where the producer is inside try_push. */
  datatype Producer<T> =
    | PIdle
    | PReload(item: T, head: nat)   // looks full against the cached tail
    | PWrite(item: T, head: nat)
    | PPublish(item: T, head: nat)

  /** Where the consumer is inside try_pop or try_pop_batch. */
  datatype Consumer<T> =
    | CIdle
    | CReload(tail: nat)            // looks empty against the cached head
    | CRead(tail: nat)
    | CPublish(tail: nat, item: T)
    | BLoad(tail: nat, max: nat)
    | BCopy(tail: nat, count: nat, out: seq<T>)

  /** What happened so far: counts are true counts, not wrapped ones. */
  datatype History<T> = History(pushed: seq<T>, popped: seq<T>, seenTail: nat, seenHead: nat)

  datatype State<T> = State(ring: Ring<T>, prod: Producer<T>, cons: Consumer<T>, hist: History<T>)

  /** `moved` is whatever moving out of a slot leaves behind. */
  datatype Step<T> =
    | PushStart(item: T) | PushReload | PushWrite | PushPublish
    | PopStart | PopReload | PopRead(moved: T) | PopPublish
    | BatchStart(max: nat) | BatchLoad | BatchCopy(moved: T) | BatchPublish

  /** What a step returns to the caller of the operation, if it ends one. */
  datatype Output<T> = Silent | Pushed(item: T) | Refused | Popped(items: seq<T>) | NoItem

  function Init<T>(storage: seq<T>): State<T>
  {
    State(Ring(0, 0, 0, 0, storage), PIdle, CIdle, History([], [], 0, 0))
  }

  predicate Enabled<T>(s: State<T>, step: Step<T>)
  {
    match step
    case PushStart(_) => s.prod.PIdle?
    case PushReload => s.prod.PReload?
    case PushWrite => s.prod.PWrite?
    case PushPublish => s.prod.PPublish?
    case PopStart => s.cons.CIdle?
    case PopReload => s.cons.CReload?
    case PopRead(_) => s.cons.CRead?
    case PopPublish => s.cons.CPublish?
    case BatchStart(_) => s.cons.CIdle?
    case BatchLoad => s.cons.BLoad?
    case BatchCopy(_) => s.cons.BCopy? && |s.cons.out| < s.cons.count
    case BatchPublish => s.cons.BCopy? && |s.cons.out| >= s.cons.count
  }

  /** `head + 1 - cached > Capacity` in uint64_t arithmetic. */
  predicate LooksFull<T>(r: Ring<T>, head: nat)
  {
    WSub(WAdd(head, 1), r.tailCached) > |r.storage|
  }

  function At<T>(r: Ring<T>, counter: nat): T
    requires IsCapacity(|r.storage|)
  {
    r.storage[Slot(counter, |r.storage|)]
  }

  function Put<T>(r: Ring<T>, counter: nat, x: T): (r': Ring<T>)
    requires IsCapacity(|r.storage|)
    ensures |r'.storage| == |r.storage|
  {
    r.(storage := r.storage[Slot(counter, |r.storage|) := x])
  }

  /** One step of the code, with the history it leaves. */
  function Apply<T>(s: State<T>, step: Step<T>): (s': State<T>)
    requires IsCapacity(|s.ring.storage|) && Enabled(s, step)
  {
    var r, h := s.ring, s.hist;
    match step
    case PushStart(item) =>
      s.(prod := if LooksFull(r, r.head) then PReload(item, r.head) else PWrite(item, r.head))
    case PushReload =>
      var r' := r.(tailCached := r.tail);
      s.(ring := r',
         prod := if LooksFull(r', s.prod.head) then PIdle else PWrite(s.prod.item, s.prod.head),
         hist := h.(seenTail := |h.popped|))
    case PushWrite =>
      s.(ring := Put(r, s.prod.head, s.prod.item), prod := PPublish(s.prod.item, s.prod.head))
    case PushPublish =>
      s.(ring := r.(head := WAdd(s.prod.head, 1)), prod := PIdle, hist := h.(pushed := h.pushed + [s.prod.item]))
    case PopStart =>
      s.(cons := if r.headCached == r.tail then CReload(r.tail) else CRead(r.tail))
    case PopReload =>
      var r' := r.(headCached := r.head);
      s.(ring := r', cons := if r'.headCached == s.cons.tail then CIdle else CRead(s.cons.tail),
         hist := h.(seenHead := |h.pushed|))
    case PopRead(moved) =>
      s.(ring := Put(r, s.cons.tail, moved), cons := CPublish(s.cons.tail, At(r, s.cons.tail)))
    case PopPublish =>
      s.(ring := r.(tail := WAdd(s.cons.tail, 1)), cons := CIdle, hist := h.(popped := h.popped + [s.cons.item]))
    case BatchStart(max) =>
      s.(cons := BLoad(r.tail, max))
    case BatchLoad =>
      var available := WSub(r.head, s.cons.tail);
      var count := if available < s.cons.max then available else s.cons.max;
      s.(ring := r.(headCached := r.head), cons := BCopy(s.cons.tail, count, []),
         hist := h.(seenHead := |h.pushed|))
    case BatchCopy(moved) =>
      var c := WAdd(s.cons.tail, |s.cons.out|);
      s.(ring := Put(r, c, moved), cons := s.cons.(out := s.cons.out + [At(r, c)]))
    case BatchPublish =>
      s.(ring := if s.cons.count > 0 then r.(tail := WAdd(s.cons.tail, s.cons.count)) else r,
         cons := CIdle, hist := h.(popped := h.popped + s.cons.out))
  }

  function Out<T>(s: State<T>, step: Step<T>): Output<T>
    requires IsCapacity(|s.ring.storage|) && Enabled(s, step)
  {
    match step
    case PushReload => if Apply(s, step).prod.PIdle? then Refused else Silent
    case PushPublish => Pushed(s.prod.item)
    case PopReload => if Apply(s, step).cons.CIdle? then NoItem else Silent
    case PopPublish => Popped([s.cons.item])
    case BatchPublish => Popped(s.cons.out)
    case _ => Silent
  }

  // ---- The invariant ----

  /** How many items the consumer has already taken out of slots, published or not. */
  function Taken<T>(s: State<T>): nat
  {
    |s.hist.popped| + match s.cons
                      case CPublish(_, _) => 1
                      case BCopy(_, _, out) => |out|
                      case _ => 0
  }

  /** tail_cached <= tail <= head_cached <= head <= tail_cached + Capacity, in true counts. */
  predicate Ordered<T>(s: State<T>)
  {
    s.hist.seenTail <= |s.hist.popped| <= s.hist.seenHead <= |s.hist.pushed| <= s.hist.seenTail + |s.ring.storage|
  }

  /** The code's counters are the true counts, wrapped. */
  predicate Wrapped<T>(s: State<T>)
  {
    && s.ring.head == |s.hist.pushed| % WORD
    && s.ring.tail == |s.hist.popped| % WORD
    && s.ring.tailCached == s.hist.seenTail % WORD
    && s.ring.headCached == s.hist.seenHead % WORD
  }

  ghost predicate ProducerInv<T>(s: State<T>)
    requires |s.ring.storage| > 0
  {
    var cap, n := |s.ring.storage|, |s.hist.pushed|;
    && (s.prod.PIdle? || s.prod.head == s.ring.head)
    && (s.prod.PReload? ==> n == s.hist.seenTail + cap)
    && (s.prod.PWrite? || s.prod.PPublish? ==> n < s.hist.seenTail + cap)
    && (s.prod.PPublish? ==> s.ring.storage[n % cap] == s.prod.item)
  }

  ghost predicate ConsumerInv<T>(s: State<T>)
    requires Ordered(s)
  {
    var h, n := s.hist, |s.hist.popped|;
    && (s.cons.CIdle? || s.cons.tail == s.ring.tail)
    && (s.cons.CReload? ==> h.seenHead == n)
    && (s.cons.CRead? || s.cons.CPublish? ==> n < h.seenHead)
    && (s.cons.CPublish? ==> s.cons.item == h.pushed[n])
    && (s.cons.BCopy? ==> |s.cons.out| <= s.cons.count <= h.seenHead - n && s.cons.out == h.pushed[n..n + |s.cons.out|])
  }

  /** Every item pushed and not yet taken sits in its slot. */
  ghost predicate SlotsHold<T>(s: State<T>)
    requires |s.ring.storage| > 0
  {
    forall i | Taken(s) <= i < |s.hist.pushed| :: s.ring.storage[i % |s.ring.storage|] == s.hist.pushed[i]
  }

  ghost predicate Inv<T>(s: State<T>)
  {
    && IsCapacity(|s.ring.storage|) && |s.ring.storage| > 0
    && Ordered(s) && Wrapped(s)
    && s.hist.popped <= s.hist.pushed
    && ProducerInv(s) && ConsumerInv(s) && SlotsHold(s)
  }

  lemma InvInit<T>(storage: seq<T>)
    requires IsCapacity(|storage|)
    ensures Inv(Init(storage))
  {
    CapacityDividesWord(|storage|);
  }

  /** `head + 1 - tail > Capacity` on wrapped counters asks whether the true distance is Capacity. */
  lemma FullTest(head: nat, tail: nat, cap: nat)
    requires tail <= head <= tail + cap && 2 * cap <= WORD
    ensures WSub(WAdd(head % WORD, 1), tail % WORD) > cap <==> head == tail + cap
  {
    WAddOf(head, 1);
    WSubOf(head + 1, tail);
  }

  /** Equality of wrapped counters at most a capacity apart is equality of the counts. */
  lemma EmptyTest(head: nat, tail: nat, cap: nat)
    requires tail <= head <= tail + cap && 2 * cap <= WORD
    ensures head % WORD == tail % WORD <==> head == tail
    ensures WSub(head % WORD, tail % WORD) == head - tail
  {
    WSubOf(head, tail);
  }

  /** The uint64_t tests of the code decide the true questions. */
  lemma TestsAreTrue<T>(s: State<T>)
    requires Inv(s)
    ensures LooksFull(s.ring, s.ring.head) <==> |s.hist.pushed| == s.hist.seenTail + |s.ring.storage|
    ensures s.ring.headCached == s.ring.tail <==> s.hist.seenHead == |s.hist.popped|
    ensures WSub(s.ring.head, s.ring.tail) == |s.hist.pushed| - |s.hist.popped|
  {
    var h, cap := s.hist, |s.ring.storage|;
    CapacityDividesWord(cap);
    FullTest(|h.pushed|, h.seenTail, cap);
    EmptyTest(h.seenHead, |h.popped|, cap);
    EmptyTest(|h.pushed|, |h.popped|, cap);
  }

  lemma PushStepKeeps<T>(s: State<T>, step: Step<T>)
    requires Inv(s) && Enabled(s, step)
    requires step.PushStart? || step.PushReload? || step.PushWrite? || step.PushPublish?
    ensures Inv(Apply(s, step))
  {
    var s', cap, n := Apply(s, step), |s.ring.storage|, |s.hist.pushed|;
    TestsAreTrue(s);
    CapacityDividesWord(cap);
    match step {
      case PushStart(_) =>
      case PushReload =>
        FullTest(n, |s.hist.popped|, cap);
      case PushWrite =>
        SlotOf(n, cap);
        forall i | Taken(s') <= i < n ensures s'.ring.storage[i % cap] == s.hist.pushed[i] {
          SlotsDiffer(i, n, cap);
        }
      case PushPublish =>
        WAddOf(n, 1);
    }
  }

  lemma PopStepKeeps<T>(s: State<T>, step: Step<T>)
    requires Inv(s) && Enabled(s, step)
    requires step.PopStart? || step.PopReload? || step.PopRead? || step.PopPublish?
    ensures Inv(Apply(s, step))
  {
    var s', n := Apply(s, step), |s.hist.popped|;
    TestsAreTrue(s);
    CapacityDividesWord(|s.ring.storage|);
    match step {
      case PopStart =>
      case PopReload =>
        EmptyTest(|s.hist.pushed|, n, |s.ring.storage|);
      case PopRead(_) =>
        SlotOf(n, |s.ring.storage|);
        TakeSlot(s, n, s');
      case PopPublish =>
        WAddOf(n, 1);
        assert s'.hist.popped == s.hist.pushed[..n + 1];
    }
  }

  lemma BatchCopyKeeps<T>(s: State<T>, step: Step<T>)
    requires Inv(s) && step.BatchCopy? && Enabled(s, step)
    ensures Inv(Apply(s, step))
  {
    var s', n := Apply(s, step), |s.hist.popped|;
    var k := n + |s.cons.out|;
    WAddOf(n, |s.cons.out|);
    SlotOf(k, |s.ring.storage|);
    TakeSlot(s, k, s');
    assert s'.cons.out == s.hist.pushed[n..k + 1];
  }

  lemma BatchStepKeeps<T>(s: State<T>, step: Step<T>)
    requires Inv(s) && Enabled(s, step)
    requires step.BatchStart? || step.BatchLoad? || step.BatchPublish?
    ensures Inv(Apply(s, step))
  {
    var s', n := Apply(s, step), |s.hist.popped|;
    TestsAreTrue(s);
    if step.BatchPublish? {
      WAddOf(n, s.cons.count);
      assert s'.hist.popped == s.hist.pushed[..n + |s.cons.out|];
    }
  }

  /** Taking item `n` out of its slot disturbs neither later items nor the producer's slot. */
  lemma TakeSlot<T>(s: State<T>, n: nat, s': State<T>)
    requires Inv(s) && n == Taken(s) < s.hist.seenHead
    requires |s'.ring.storage| == |s.ring.storage| && s'.hist == s.hist && s'.prod == s.prod && Taken(s') == n + 1
    requires forall k | 0 <= k < |s.ring.storage| && k != n % |s.ring.storage| :: s'.ring.storage[k] == s.ring.storage[k]
    ensures Slot(n % WORD, |s.ring.storage|) == n % |s.ring.storage|
    ensures SlotsHold(s')
    ensures s.prod.PPublish? ==> s'.ring.storage[|s.hist.pushed| % |s.ring.storage|] == s.prod.item
  {
    var cap := |s.ring.storage|;
    SlotOf(n, cap);
    forall i | n + 1 <= i < |s.hist.pushed| ensures s'.ring.storage[i % cap] == s.hist.pushed[i] {
      SlotsDiffer(n, i, cap);
    }
    if s.prod.PPublish? {
      SlotsDiffer(n, |s.hist.pushed|, cap);
    }
  }

  lemma StepKeeps<T>(s: State<T>, step: Step<T>)
    requires Inv(s) && Enabled(s, step)
    ensures Inv(Apply(s, step))
  {
    match step {
      case PushStart(_) => PushStepKeeps(s, step);
      case PushReload => PushStepKeeps(s, step);
      case PushWrite => PushStepKeeps(s, step);
      case PushPublish => PushStepKeeps(s, step);
      case PopStart => PopStepKeeps(s, step);
      case PopReload => PopStepKeeps(s, step);
      case PopRead(_) => PopStepKeeps(s, step);
      case PopPublish => PopStepKeeps(s, step);
      case BatchStart(_) => BatchStepKeeps(s, step);
      case BatchLoad => BatchStepKeeps(s, step);
      case BatchCopy(_) => BatchCopyKeeps(s, step);
      case BatchPublish => BatchStepKeeps(s, step);
    }
  }

  // ---- The bounded FIFO it refines ----

  /** One atomic operation of a bounded queue, with the answer it gives. */
  ghost predicate FifoNext<T>(q: seq<T>, out: Output<T>, q': seq<T>, cap: nat)
  {
    match out
    case Silent => q' == q
    case Pushed(x) => |q| < cap && q' == q + [x]
    case Refused => |q| == cap && q' == q
    case Popped(xs) => q == xs + q'
    case NoItem => q == [] && q' == q
  }

  ghost function Queue<T>(s: State<T>): seq<T>
    requires Inv(s)
  {
    s.hist.pushed[|s.hist.popped|..]
  }

  lemma PushRefines<T>(s: State<T>, step: Step<T>)
    requires Inv(s) && Enabled(s, step) && Inv(Apply(s, step))
    requires step.PushStart? || step.PushReload? || step.PushWrite? || step.PushPublish?
    ensures FifoNext(Queue(s), Out(s, step), Queue(Apply(s, step)), |s.ring.storage|)
  {
    if step.PushReload? {
      CapacityDividesWord(|s.ring.storage|);
      FullTest(|s.hist.pushed|, |s.hist.popped|, |s.ring.storage|);
    } else if step.PushPublish? {
      assert Queue(Apply(s, step)) == Queue(s) + [s.prod.item];
    }
  }

  lemma PopRefines<T>(s: State<T>, step: Step<T>)
    requires Inv(s) && Enabled(s, step) && Inv(Apply(s, step))
    requires !(step.PushStart? || step.PushReload? || step.PushWrite? || step.PushPublish?)
    ensures FifoNext(Queue(s), Out(s, step), Queue(Apply(s, step)), |s.ring.storage|)
  {
    var s' := Apply(s, step);
    if step.PopReload? {
      CapacityDividesWord(|s.ring.storage|);
      EmptyTest(|s.hist.pushed|, |s.hist.popped|, |s.ring.storage|);
    } else if step.PopPublish? {
      assert Queue(s) == [s.cons.item] + Queue(s');
    } else if step.BatchPublish? {
      assert Queue(s) == s.cons.out + Queue(s');
    }
  }

  /** Every step of the code is one step of the bounded FIFO, or none of it. */
  lemma StepRefinesFifo<T>(s: State<T>, step: Step<T>)
    requires Inv(s) && Enabled(s, step)
    ensures Inv(Apply(s, step))
    ensures FifoNext(Queue(s), Out(s, step), Queue(Apply(s, step)), |s.ring.storage|)
  {
    StepKeeps(s, step);
    if step.PushStart? || step.PushReload? || step.PushWrite? || step.PushPublish? {
      PushRefines(s, step);
    } else {
      PopRefines(s, step);
    }
  }

  /** The batch a pop_batch takes is everything queued at its load of `head_`, up to its limit. */
  lemma BatchTakesAllQueued<T>(s: State<T>)
    requires Inv(s) && s.cons.BLoad?
    ensures Apply(s, BatchLoad).cons.count == if |Queue(s)| < s.cons.max then |Queue(s)| else s.cons.max
  {
    TestsAreTrue(s);
  }

  // ---- Whole runs ----

  ghost predicate IsRun<T>(run: seq<State<T>>, steps: seq<Step<T>>)
  {
    && |run| == |steps| + 1
    && IsCapacity(|run[0].ring.storage|)
    && run[0] == Init(run[0].ring.storage)
    && forall i | 0 <= i < |steps| ::
         IsCapacity(|run[i].ring.storage|) && Enabled(run[i], steps[i]) && run[i + 1] == Apply(run[i], steps[i])
  }

  ghost function Outputs<T>(run: seq<State<T>>, steps: seq<Step<T>>): seq<Output<T>>
    requires IsRun(run, steps)
  {
    seq(|steps|, i requires 0 <= i < |steps| => Out(run[i], steps[i]))
  }

  /** The items of the pushes that returned true, in order. */
  function Accepted<T>(outs: seq<Output<T>>): seq<T>
  {
    if outs == [] then []
    else Accepted(outs[..|outs| - 1]) + if outs[|outs| - 1].Pushed? then [outs[|outs| - 1].item] else []
  }

  /** The items the pops returned, in order. */
  function Delivered<T>(outs: seq<Output<T>>): seq<T>
  {
    if outs == [] then []
    else Delivered(outs[..|outs| - 1]) + if outs[|outs| - 1].Popped? then outs[|outs| - 1].items else []
  }

  lemma {:induction false} RunKeeps<T>(run: seq<State<T>>, steps: seq<Step<T>>, n: nat)
    requires IsRun(run, steps) && n <= |steps|
    ensures Inv(run[n]) && |run[n].ring.storage| == |run[0].ring.storage|
  {
    if n == 0 {
      InvInit(run[0].ring.storage);
    } else {
      RunKeeps(run, steps, n - 1);
      StepKeeps(run[n - 1], steps[n - 1]);
    }
  }

  lemma StepHistory<T>(s: State<T>, step: Step<T>)
    requires IsCapacity(|s.ring.storage|) && Enabled(s, step)
    ensures Apply(s, step).hist.pushed == s.hist.pushed + if Out(s, step).Pushed? then [Out(s, step).item] else []
    ensures Apply(s, step).hist.popped == s.hist.popped + if Out(s, step).Popped? then Out(s, step).items else []
  {}

  /** The history is what the callers were told, nothing else. */
  lemma {:induction false} HistoryIsOutputs<T>(run: seq<State<T>>, steps: seq<Step<T>>, n: nat)
    requires IsRun(run, steps) && n <= |steps|
    ensures run[n].hist.pushed == Accepted(Outputs(run, steps)[..n])
    ensures run[n].hist.popped == Delivered(Outputs(run, steps)[..n])
  {
    if n > 0 {
      HistoryIsOutputs(run, steps, n - 1);
      var outs := Outputs(run, steps);
      assert outs[..n][..n - 1] == outs[..n - 1];
      StepHistory(run[n - 1], steps[n - 1]);
    }
  }

  /** In every interleaving the consumer receives exactly a prefix of what was accepted, in order. */
  lemma RunIsFifo<T>(run: seq<State<T>>, steps: seq<Step<T>>)
    requires IsRun(run, steps)
    ensures Delivered(Outputs(run, steps)) <= Accepted(Outputs(run, steps))
    ensures |Accepted(Outputs(run, steps))| - |Delivered(Outputs(run, steps))| <= |run[0].ring.storage|
  {
    var n, outs := |steps|, Outputs(run, steps);
    RunKeeps(run, steps, n);
    HistoryIsOutputs(run, steps, n);
    assert outs[..n] == outs;
  }

  // ---- Calls and their arguments ----

  /** The argument of the push that has been called and has not returned yet. */
  ghost function InPush<T>(run: seq<State<T>>, steps: seq<Step<T>>, n: nat): Option<T>
    requires IsRun(run, steps) && n <= |steps|
  {
    if n == 0 then None
    else if steps[n - 1].PushStart? then Some(steps[n - 1].item)
    else if Out(run[n - 1], steps[n - 1]).Pushed? || Out(run[n - 1], steps[n - 1]).Refused? then None
    else InPush(run, steps, n - 1)
  }

  ghost function Holding<T>(s: State<T>): Option<T>
  {
    if s.prod.PIdle? then None else Some(s.prod.item)
  }

  lemma StepHolds<T>(s: State<T>, step: Step<T>)
    requires IsCapacity(|s.ring.storage|) && Enabled(s, step)
    ensures Holding(Apply(s, step))
         == if step.PushStart? then Some(step.item)
            else if Out(s, step).Pushed? || Out(s, step).Refused? then None else Holding(s)
  {}

  /** In every run the producer is in a call exactly until it returns, with the item it was called with. */
  lemma {:induction false} HoldsArgument<T>(run: seq<State<T>>, steps: seq<Step<T>>, n: nat)
    requires IsRun(run, steps) && n <= |steps|
    ensures Holding(run[n]) == InPush(run, steps, n)
  {
    if n > 0 {
      HoldsArgument(run, steps, n - 1);
      StepHolds(run[n - 1], steps[n - 1]);
    }
  }

  /** What a push reports is the item it was called with. */
  lemma PushedIsArgument<T>(run: seq<State<T>>, steps: seq<Step<T>>, i: nat)
    requires IsRun(run, steps) && i < |steps| && Outputs(run, steps)[i].Pushed?
    ensures InPush(run, steps, i) == Some(Outputs(run, steps)[i].item)
  {
    HoldsArgument(run, steps, i);
  }

  /** The limit of a batch that has been called and has not loaded the head yet, or how many it will take once it has. */
  ghost function InBatch<T>(run: seq<State<T>>, steps: seq<Step<T>>, n: nat): Option<nat>
    requires IsRun(run, steps) && n <= |steps|
  {
    if n == 0 then None
    else
      match steps[n - 1]
      case BatchStart(max) => Some(max)
      case BatchLoad =>
        var limit, queued := InBatch(run, steps, n - 1), |run[n - 1].hist.pushed| - |run[n - 1].hist.popped|;
        if limit.Some? && queued < limit.value && 0 <= queued then Some(queued) else limit
      case BatchPublish => None
      case _ => InBatch(run, steps, n - 1)
  }

  ghost function Taking<T>(c: Consumer<T>): Option<nat>
  {
    match c case BLoad(_, max) => Some(max) case BCopy(_, count, _) => Some(count) case _ => None
  }

  lemma {:induction false} TakesAsked<T>(run: seq<State<T>>, steps: seq<Step<T>>, n: nat)
    requires IsRun(run, steps) && n <= |steps|
    ensures Taking(run[n].cons) == InBatch(run, steps, n)
  {
    if n > 0 {
      TakesAsked(run, steps, n - 1);
      RunKeeps(run, steps, n - 1);
      if steps[n - 1].BatchLoad? {
        BatchTakesAllQueued(run[n - 1]);
      }
    }
  }

  /** Over every interleaving a batch returns as many items as it was asked for, or as were queued when it loaded the head. */
  lemma BatchReturnsAsked<T>(run: seq<State<T>>, steps: seq<Step<T>>, i: nat)
    requires IsRun(run, steps) && i < |steps| && steps[i].BatchPublish?
    ensures Outputs(run, steps)[i].Popped? && InBatch(run, steps, i) == Some(|Outputs(run, steps)[i].items|)
  {
    TakesAsked(run, steps, i);
    RunKeeps(run, steps, i);
  }

  predicate PushStep<T>(step: Step<T>)
  {
    step.PushReload? || step.PushWrite? || step.PushPublish?
  }

  predicate PopStep<T>(step: Step<T>)
  {
    step.PopReload? || step.PopRead? || step.PopPublish? || step.BatchLoad? || step.BatchCopy? || step.BatchPublish?
  }

  /** Own steps a push has left. */
  function PushLeft<T>(p: Producer<T>): nat
  {
    match p case PIdle => 0 case PPublish(_, _) => 1 case PWrite(_, _) => 2 case PReload(_, _) => 3
  }

  /** Own steps a pop or batch has left. */
  function PopLeft<T>(c: Consumer<T>): nat
  {
    match c
    case CIdle => 0
    case CPublish(_, _) => 1
    case CRead(_) => 2
    case CReload(_) => 3
    case BCopy(_, count, out) => if |out| < count then count - |out| + 1 else 1
    case BLoad(_, max) => max + 2
  }

  /** Wait-free on both sides: every own step brings a call nearer to its end, and no step of the other side sets it back. */
  lemma IsWaitFree<T>(s: State<T>, step: Step<T>)
    requires IsCapacity(|s.ring.storage|) && Enabled(s, step)
    ensures if step.PushStart? then 0 < PushLeft(Apply(s, step).prod) <= 3
            else if PushStep(step) then PushLeft(Apply(s, step).prod) < PushLeft(s.prod)
            else Apply(s, step).prod == s.prod
    ensures if step.PopStart? then 0 < PopLeft(Apply(s, step).cons) <= 3
            else if step.BatchStart? then PopLeft(Apply(s, step).cons) == step.max + 2
            else if PopStep(step) then PopLeft(Apply(s, step).cons) < PopLeft(s.cons)
            else Apply(s, step).cons == s.cons
    ensures PopStep(step) ==> (Apply(s, step).cons.CIdle? <==> Out(s, step).Popped? || Out(s, step).NoItem?)
  {}

  // ---- The ring as an object, used without interference ----

  /** `n` pops one after another. */
  function PopEach<T>(q: seq<T>, n: nat): (seq<T>, seq<T>)
  {
    if n == 0 || q == [] then ([], q)
    else var (out, rest) := PopEach(q[1..], n - 1); ([q[0]] + out, rest)
  }

  lemma {:induction false} PopEachTakes<T>(q: seq<T>, n: nat)
    ensures var k := if n < |q| then n else |q|; PopEach(q, n) == (q[..k], q[k..])
  {
    if n > 0 && q != [] {
      PopEachTakes(q[1..], n - 1);
      var k := if n < |q| then n else |q|;
      assert [q[0]] + q[1..][..k - 1] == q[..k];
    }
  }

  /** The k-th queued item sits in the slot the code computes for it. */
  lemma QueuedAt<T>(s: State<T>, k: nat)
    requires Inv(s) && s.cons.CIdle? && k < |Queue(s)|
    ensures var slot := Slot(WAdd(s.ring.tail, k), |s.ring.storage|);
            slot < |s.ring.storage| && s.ring.storage[slot] == Queue(s)[k]
  {
    WAddOf(|s.hist.popped|, k);
    SlotOf(|s.hist.popped| + k, |s.ring.storage|);
  }

  /** The state after an uninterrupted batch pop of `count` items. */
  ghost function AfterBatch<T>(s: State<T>, count: nat): State<T>
    requires Inv(s) && count <= |Queue(s)|
  {
    s.(ring := s.ring.(headCached := s.ring.head, tail := if count > 0 then WAdd(s.ring.tail, count) else s.ring.tail),
       hist := s.hist.(seenHead := |s.hist.pushed|, popped := s.hist.popped + Queue(s)[..count]))
  }

  lemma AfterBatchKeeps<T>(s: State<T>, count: nat)
    requires Inv(s) && s.cons.CIdle? && count <= |Queue(s)|
    ensures Inv(AfterBatch(s, count)) && Queue(AfterBatch(s, count)) == Queue(s)[count..]
  {
    WAddOf(|s.hist.popped|, count);
    assert AfterBatch(s, count).hist.popped == s.hist.pushed[..|s.hist.popped| + count];
  }

  /** A whole try_push, its steps taken with no consumer step between them. */
  ghost function SoloPush<T>(s: State<T>, item: T): (s': State<T>)
    requires IsCapacity(|s.ring.storage|) && s.prod.PIdle?
  {
    var s1 := Apply(s, PushStart(item));
    var s2 := if s1.prod.PReload? then Apply(s1, PushReload) else s1;
    if s2.prod.PIdle? then s2 else Apply(Apply(s2, PushWrite), PushPublish)
  }

  lemma SoloPushKeeps<T>(s: State<T>, item: T)
    requires Inv(s) && s.prod.PIdle?
    ensures Inv(SoloPush(s, item))
    ensures Queue(SoloPush(s, item)) == Queue(s) + if |Queue(s)| < |s.ring.storage| then [item] else []
  {
    var s1 := Apply(s, PushStart(item));
    StepRefinesFifo(s, PushStart(item));
    TestsAreTrue(s);
    if s1.prod.PReload? {
      StepRefinesFifo(s1, PushReload);
    }
    var s2 := if s1.prod.PReload? then Apply(s1, PushReload) else s1;
    if !s2.prod.PIdle? {
      StepRefinesFifo(s2, PushWrite);
      StepRefinesFifo(Apply(s2, PushWrite), PushPublish);
    }
  }

  /** A whole try_pop, its steps taken with no producer step between them. */
  ghost function SoloPop<T>(s: State<T>, moved: T): (s': State<T>)
    requires IsCapacity(|s.ring.storage|) && s.cons.CIdle?
  {
    var s1 := Apply(s, PopStart);
    var s2 := if s1.cons.CReload? then Apply(s1, PopReload) else s1;
    if s2.cons.CIdle? then s2 else Apply(Apply(s2, PopRead(moved)), PopPublish)
  }

  lemma SoloPopKeeps<T>(s: State<T>, moved: T)
    requires Inv(s) && s.cons.CIdle?
    ensures Inv(SoloPop(s, moved))
    ensures Queue(s) == (if Queue(s) != [] then [At(s.ring, s.ring.tail)] else []) + Queue(SoloPop(s, moved))
  {
    var s1 := Apply(s, PopStart);
    StepRefinesFifo(s, PopStart);
    TestsAreTrue(s);
    if s1.cons.CReload? {
      StepRefinesFifo(s1, PopReload);
    }
    var s2 := if s1.cons.CReload? then Apply(s1, PopReload) else s1;
    if !s2.cons.CIdle? {
      StepRefinesFifo(s2, PopRead(moved));
      StepRefinesFifo(Apply(s2, PopRead(moved)), PopPublish);
    }
  }

  class SpscQueue<T(0)> {
    var head: nat
    var tailCached: nat
    var tail: nat
    var headCached: nat
    const storage: array<T>
    ghost var hist: History<T>

    ghost function View(): State<T>
      reads this, storage
    {
      State(Ring(head, tailCached, tail, headCached, storage[..]), PIdle, CIdle, hist)
    }

    ghost predicate Valid()
      reads this, storage
    {
      Inv(View())
    }

    ghost function Contents(): seq<T>
      requires Valid()
      reads this, storage
    {
      Queue(View())
    }

    constructor (capacity: nat)
      requires IsCapacity(capacity)
      ensures Valid() && fresh(storage) && storage.Length == capacity && Contents() == []
    {
      storage := new T[capacity];
      head, tailCached, tail, headCached := 0, 0, 0, 0;
      hist := History([], [], 0, 0);
      new;
      InvInit(storage[..]);
    }

    method TryPush(item: T) returns (ok: bool)
      requires Valid()
      modifies this, storage
      ensures Valid()
      ensures ok <==> |old(Contents())| < storage.Length
      ensures Contents() == old(Contents()) + if ok then [item] else []
    {
      ghost var s := View();
      SoloPushKeeps(s, item);
      hist := SoloPush(s, item).hist;
      var h := head;
      if WSub(WAdd(h, 1), tailCached) > storage.Length {
        tailCached := tail;
        if WSub(WAdd(h, 1), tailCached) > storage.Length {
          assert View() == SoloPush(s, item);
          return false;
        }
      }
      storage[Slot(h, storage.Length)] := item;
      head := WAdd(h, 1);
      ok := true;
      assert storage[..] == SoloPush(s, item).ring.storage;
      assert View() == SoloPush(s, item);
    }

    method TryPop() returns (item: Option<T>)
      requires Valid()
      modifies this
      ensures Valid()
      ensures old(Contents()) == [] ==> item == None && Contents() == []
      ensures old(Contents()) != [] ==> item == Some(old(Contents())[0]) && Contents() == old(Contents())[1..]
    {
      ghost var s := View();
      ghost var moved := At(s.ring, s.ring.tail);
      SoloPopKeeps(s, moved);
      hist := SoloPop(s, moved).hist;
      var t := tail;
      if headCached == t {
        headCached := head;
        if headCached == t {
          assert View() == SoloPop(s, moved);
          return None;
        }
      }
      item := Some(storage[Slot(t, storage.Length)]);
      tail := WAdd(t, 1);
      assert storage[..] == SoloPop(s, moved).ring.storage;
      assert View() == SoloPop(s, moved);
    }

    /** The items in the slots from the tail on. */
    method CopyOut(t: nat, count: nat, ghost s: State<T>) returns (out: seq<T>)
      requires Inv(s) && s.cons.CIdle? && storage[..] == s.ring.storage && t == s.ring.tail && count <= |Queue(s)|
      ensures out == Queue(s)[..count]
    {
      out := [];
      while |out| < count
        invariant |out| <= count && out == Queue(s)[..|out|]
      {
        QueuedAt(s, |out|);
        out := out + [storage[Slot(WAdd(t, |out|), storage.Length)]];
      }
    }

    /** A batch pop answers what as many single pops would. */
    method TryPopBatch(maxCount: nat) returns (out: seq<T>)
      requires Valid()
      modifies this
      ensures Valid()
      ensures (out, Contents()) == PopEach(old(Contents()), maxCount)
    {
      ghost var s := View();
      TestsAreTrue(s);
      var t := tail;
      headCached := head;
      var available := WSub(headCached, t);
      var count := if available < maxCount then available else maxCount;
      out := CopyOut(t, count, s);
      if count > 0 {
        tail := WAdd(t, count);
      }
      AfterBatchKeeps(s, count);
      hist := AfterBatch(s, count).hist;
      assert storage[..] == s.ring.storage;
      assert View() == AfterBatch(s, count);
      PopEachTakes(Queue(s), maxCount);
    }
  }
}
