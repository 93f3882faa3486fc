/**
 The multi-producer single-consumer ring: any number of producers, one atomic load, store,
 compare-exchange or slot access per step. `hist` records what the run has done; no step reads it.
 */
module MpscRing {
  import opened Bits
  import opened Options

  /** The data members of the ring; counters are uint64_t. */
  datatype Ring<T> = Ring(head: nat, tail: nat, storage: seq<T>, committed: seq<bool>)

  /** Where a producer is inside try_push; `head` is its local copy. */
  datatype Producer<T> =
    | Loop(item: T, head: nat)     // about to load tail_ and test for space
    | Cas(item: T, head: nat)
    | Write(item: T, head: nat)    // owns ticket `head`
    | Commit(item: T, head: nat)   // owns ticket `head`, slot written

  /** Where the consumer is inside try_pop; `tail` is its local copy. */
  datatype Consumer<T> =
    | CIdle
    | CHead(tail: nat)
    | CCheck(tail: nat)
    | CRead(tail: nat)
    | CClear(tail: nat, item: T)
    | CPublish(tail: nat, item: T)

  /** Items in the order their compare-exchange succeeded, items returned by pops, and who holds which ticket. */
  datatype History<T> = History(tickets: seq<T>, popped: seq<T>, owner: map<nat, nat>)

  datatype State<T> = State(ring: Ring<T>, prods: map<nat, Producer<T>>, cons: Consumer<T>, hist: History<T>)

  /** `spurious` lets compare_exchange_weak fail on equal values; `moved` is what moving out leaves behind. */
  datatype Step<T> =
    | PushLoad(p: nat, item: T) | PushSpace(p: nat) | PushCas(p: nat, spurious: bool)
    | PushWrite(p: nat) | PushCommit(p: nat)
    | PopLoad | PopHead | PopCheck | PopRead(moved: T) | PopClear | PopPublish

  function Init<T>(storage: seq<T>): State<T>
  {
    State(Ring(0, 0, storage, seq(|storage|, _ => false)), map[], CIdle, History([], [], map[]))
  }

  predicate Enabled<T>(s: State<T>, step: Step<T>)
  {
    match step
    case PushLoad(p, _) => p !in s.prods
    case PushSpace(p) => p in s.prods && s.prods[p].Loop?
    case PushCas(p, _) => p in s.prods && s.prods[p].Cas?
    case PushWrite(p) => p in s.prods && s.prods[p].Write?
    case PushCommit(p) => p in s.prods && s.prods[p].Commit?
    case PopLoad => s.cons.CIdle?
    case PopHead => s.cons.CHead?
    case PopCheck => s.cons.CCheck?
    case PopRead(_) => s.cons.CRead?
    case PopClear => s.cons.CClear?
    case PopPublish => s.cons.CPublish?
  }

  ghost predicate Shaped<T>(r: Ring<T>)
  {
    IsCapacity(|r.storage|) && |r.committed| == |r.storage|
  }

  /** `head - tail >= Capacity` in uint64_t arithmetic. */
  predicate NoSpace<T>(r: Ring<T>, head: nat)
  {
    WSub(head, r.tail) >= |r.storage|
  }

  function Apply<T>(s: State<T>, step: Step<T>): (s': State<T>)
    requires Shaped(s.ring) && Enabled(s, step)
  {
    var r, h, cap := s.ring, s.hist, |s.ring.storage|;
    match step
    case PushLoad(p, item) => s.(prods := s.prods[p := Loop(item, r.head)])
    case PushSpace(p) =>
      var me := s.prods[p];
      if NoSpace(r, me.head) then s.(prods := s.prods - {p})
      else s.(prods := s.prods[p := Cas(me.item, me.head)])
    case PushCas(p, spurious) =>
      var me := s.prods[p];
      if r.head != me.head || spurious then s.(prods := s.prods[p := Loop(me.item, r.head)])
      else s.(ring := r.(head := WAdd(me.head, 1)), prods := s.prods[p := Write(me.item, me.head)],
              hist := h.(tickets := h.tickets + [me.item], owner := h.owner[me.head := p]))
    case PushWrite(p) =>
      var me := s.prods[p];
      s.(ring := r.(storage := r.storage[Slot(me.head, cap) := me.item]), prods := s.prods[p := Commit(me.item, me.head)])
    case PushCommit(p) =>
      var me := s.prods[p];
      s.(ring := r.(committed := r.committed[Slot(me.head, cap) := true]), prods := s.prods - {p},
         hist := h.(owner := h.owner - {me.head}))
    case PopLoad => s.(cons := CHead(r.tail))
    case PopHead => s.(cons := if s.cons.tail >= r.head then CIdle else CCheck(s.cons.tail))
    case PopCheck => s.(cons := if r.committed[Slot(s.cons.tail, cap)] then CRead(s.cons.tail) else CIdle)
    case PopRead(moved) =>
      var slot := Slot(s.cons.tail, cap);
      s.(ring := r.(storage := r.storage[slot := moved]), cons := CClear(s.cons.tail, r.storage[slot]))
    case PopClear =>
      s.(ring := r.(committed := r.committed[Slot(s.cons.tail, cap) := false]),
         cons := CPublish(s.cons.tail, s.cons.item))
    case PopPublish =>
      s.(ring := r.(tail := WAdd(s.cons.tail, 1)), cons := CIdle, hist := h.(popped := h.popped + [s.cons.item]))
  }

  // ---- The invariant ----

  predicate Owns<T>(p: Producer<T>)
  {
    p.Write? || p.Commit?
  }

  /** Tickets and the producers that hold them correspond one to one. */
  predicate OwnersMatch<T>(s: State<T>)
  {
    && (forall p | p in s.prods && Owns(s.prods[p]) :: s.prods[p].head in s.hist.owner && s.hist.owner[s.prods[p].head] == p)
    && (forall t | t in s.hist.owner ::
          s.hist.owner[t] in s.prods && Owns(s.prods[s.hist.owner[t]]) && s.prods[s.hist.owner[t]].head == t)
  }

  /** At most Capacity tickets are outstanding, and the counters count tickets and pops. */
  predicate Counted<T>(s: State<T>)
  {
    && s.ring.head == |s.hist.tickets| < WORD
    && s.ring.tail == |s.hist.popped| <= |s.hist.tickets| <= |s.hist.popped| + |s.ring.storage|
  }

  ghost predicate ProducerInv<T>(s: State<T>, p: Producer<T>)
    requires |s.ring.storage| > 0
  {
    var n, cap := |s.hist.tickets|, |s.ring.storage|;
    match p
    case Loop(_, h) => h <= n
    case Cas(_, h) => h <= n && h < |s.hist.popped| + cap
    case Write(x, h) => |s.hist.popped| <= h < n && s.hist.tickets[h] == x
    case Commit(x, h) => |s.hist.popped| <= h < n && s.hist.tickets[h] == x == s.ring.storage[h % cap]
  }

  /** Ticket `i` is committed and still waiting in its slot. */
  predicate Ready<T>(s: State<T>, i: nat)
  {
    i < |s.hist.tickets| && i !in s.hist.owner && !(s.cons.CPublish? && i == |s.hist.popped|)
  }

  ghost predicate SlotInv<T>(s: State<T>, i: nat)
    requires |s.ring.committed| == |s.ring.storage| > 0
  {
    var slot := i % |s.ring.storage|;
    && (s.ring.committed[slot] <==> Ready(s, i))
    && (Ready(s, i) && !(s.cons.CClear? && i == |s.hist.popped|) ==> s.ring.storage[slot] == s.hist.tickets[i])
  }

  ghost predicate ConsumerInv<T>(s: State<T>)
  {
    var n := |s.hist.popped|;
    && (s.cons.CIdle? || s.cons.tail == n)
    && (!s.cons.CIdle? && !s.cons.CHead? ==> n < |s.hist.tickets|)
    && (s.cons.CRead? || s.cons.CClear? || s.cons.CPublish? ==> n !in s.hist.owner)
    && (s.cons.CClear? || s.cons.CPublish? ==> s.cons.item == s.hist.tickets[n])
  }

  ghost predicate Inv<T>(s: State<T>)
  {
    && Shaped(s.ring) && |s.ring.storage| > 0
    && Counted(s) && s.hist.popped <= s.hist.tickets
    && OwnersMatch(s)
    && (forall p | p in s.prods :: ProducerInv(s, s.prods[p]))
    && (forall i | |s.hist.popped| <= i < |s.hist.popped| + |s.ring.storage| :: SlotInv(s, i))
    && ConsumerInv(s)
  }

  lemma InvInit<T>(storage: seq<T>)
    requires IsCapacity(|storage|)
    ensures Inv(Init(storage))
  {
    CapacityDividesWord(|storage|);
  }

  /** Within one window of Capacity tickets, different tickets have different slots. */
  lemma WindowSlots(base: nat, i: nat, j: nat, cap: nat)
    requires cap > 0 && base <= i < base + cap && base <= j < base + cap && i != j
    ensures i % cap != j % cap
  {
    if i < j { SlotsDiffer(i, j, cap); } else { SlotsDiffer(j, i, cap); }
  }

  lemma PushLocalKeeps<T>(s: State<T>, step: Step<T>)
    requires Inv(s) && Enabled(s, step) && (step.PushLoad? || step.PushSpace?)
    ensures Inv(Apply(s, step))
  {
    var s' := Apply(s, step);
    if step.PushSpace? {
      SpaceTest(s, s.prods[step.p].head);
    }
    forall i | |s.hist.popped| <= i < |s.hist.popped| + |s.ring.storage| ensures SlotInv(s', i) {
      assert SlotInv(s, i);
    }
  }

  lemma PopLocalKeeps<T>(s: State<T>, step: Step<T>)
    requires Inv(s) && Enabled(s, step) && (step.PopLoad? || step.PopHead? || step.PopCheck?)
    ensures Inv(Apply(s, step))
  {
    var s' := Apply(s, step);
    if step.PopCheck? {
      assert SlotInv(s, |s.hist.popped|);
    }
    forall i | |s.hist.popped| <= i < |s.hist.popped| + |s.ring.storage| ensures SlotInv(s', i) {
      assert SlotInv(s, i);
    }
  }

  /** What the space test decides: the ring is full, or the local head fell behind the tail. */
  lemma SpaceTest<T>(s: State<T>, h: nat)
    requires Inv(s) && h <= |s.hist.tickets|
    ensures NoSpace(s.ring, h) <==>
              || h == |s.hist.popped| + |s.ring.storage|
              || (h < |s.hist.popped| && |s.hist.popped| - h <= WORD - |s.ring.storage|)
  {
    CapacityDividesWord(|s.ring.storage|);
    var t := |s.hist.popped|;
    if h < t {
      ModUnique(h - t, -1, h - t + WORD, WORD);
    } else {
      ModUnique(h - t, 0, h - t, WORD);
    }
  }

  lemma CasFails<T>(s: State<T>, p: nat, spurious: bool)
    requires Inv(s) && Enabled(s, PushCas(p, spurious)) && (s.ring.head != s.prods[p].head || spurious)
    ensures Inv(Apply(s, PushCas(p, spurious)))
  {
    var s' := Apply(s, PushCas(p, spurious));
    forall i | |s.hist.popped| <= i < |s.hist.popped| + |s.ring.storage| ensures SlotInv(s', i) {
      assert SlotInv(s, i);
    }
  }

  /** A new ticket and its owner leave every slot as it was. */
  lemma CasSlots<T>(s: State<T>, p: nat)
    requires Inv(s) && Enabled(s, PushCas(p, false)) && s.ring.head == s.prods[p].head && |s.hist.tickets| + 1 < WORD
    ensures var s' := Apply(s, PushCas(p, false));
            forall i | |s.hist.popped| <= i < |s.hist.popped| + |s.ring.storage| :: SlotInv(s', i)
  {
    var s' := Apply(s, PushCas(p, false));
    forall i | |s.hist.popped| <= i < |s.hist.popped| + |s.ring.storage| ensures SlotInv(s', i) {
      assert SlotInv(s, i);
    }
  }

  lemma CasOwners<T>(s: State<T>, p: nat)
    requires Inv(s) && Enabled(s, PushCas(p, false)) && s.ring.head == s.prods[p].head && |s.hist.tickets| + 1 < WORD
    ensures OwnersMatch(Apply(s, PushCas(p, false)))
  {
    var s', n := Apply(s, PushCas(p, false)), |s.hist.tickets|;
    assert n !in s.hist.owner;
    assert s'.hist.owner == s.hist.owner[n := p];
  }

  lemma CasWins<T>(s: State<T>, p: nat)
    requires Inv(s) && Enabled(s, PushCas(p, false)) && s.ring.head == s.prods[p].head && |s.hist.tickets| + 1 < WORD
    ensures Inv(Apply(s, PushCas(p, false)))
  {
    var s', n := Apply(s, PushCas(p, false)), |s.hist.tickets|;
    CasSlots(s, p);
    CasOwners(s, p);
    assert n !in s.hist.owner;
    assert s'.ring.head == n + 1;
    forall q | q in s'.prods ensures ProducerInv(s', s'.prods[q]) {
      assert q != p ==> ProducerInv(s, s.prods[q]);
    }
  }

  lemma CasKeeps<T>(s: State<T>, p: nat, spurious: bool)
    requires Inv(s) && Enabled(s, PushCas(p, spurious))
    requires |Apply(s, PushCas(p, spurious)).hist.tickets| < WORD
    ensures Inv(Apply(s, PushCas(p, spurious)))
  {
    if s.ring.head != s.prods[p].head || spurious {
      CasFails(s, p, spurious);
    } else {
      CasWins(s, p);
    }
  }

  lemma WriteKeeps<T>(s: State<T>, p: nat)
    requires Inv(s) && Enabled(s, PushWrite(p))
    ensures Inv(Apply(s, PushWrite(p)))
  {
    var s', base, cap, h := Apply(s, PushWrite(p)), |s.hist.popped|, |s.ring.storage|, s.prods[p].head;
    forall i | base <= i < base + cap ensures SlotInv(s', i) {
      assert SlotInv(s, i);
      if i != h { WindowSlots(base, i, h, cap); }
    }
    forall q | q in s'.prods ensures ProducerInv(s', s'.prods[q]) {
      assert ProducerInv(s, s.prods[q]);
      if q != p && Owns(s.prods[q]) {
        assert s.prods[q].head != h;
        WindowSlots(base, s.prods[q].head, h, cap);
      }
    }
  }

  lemma CommitKeeps<T>(s: State<T>, p: nat)
    requires Inv(s) && Enabled(s, PushCommit(p))
    ensures Inv(Apply(s, PushCommit(p)))
  {
    var s', base, cap, h := Apply(s, PushCommit(p)), |s.hist.popped|, |s.ring.storage|, s.prods[p].head;
    assert ProducerInv(s, s.prods[p]);
    forall i | base <= i < base + cap ensures SlotInv(s', i) {
      assert SlotInv(s, i);
      if i != h { WindowSlots(base, i, h, cap); }
    }
  }

  lemma TakeKeeps<T>(s: State<T>, step: Step<T>)
    requires Inv(s) && Enabled(s, step) && (step.PopRead? || step.PopClear?)
    ensures Inv(Apply(s, step))
  {
    var s', base, cap := Apply(s, step), |s.hist.popped|, |s.ring.storage|;
    assert SlotInv(s, base);
    forall i | base <= i < base + cap ensures SlotInv(s', i) {
      assert SlotInv(s, i);
      if i != base { WindowSlots(base, i, base, cap); }
    }
    forall q | q in s.prods ensures ProducerInv(s', s.prods[q]) {
      assert ProducerInv(s, s.prods[q]);
      if Owns(s.prods[q]) { WindowSlots(base, s.prods[q].head, base, cap); }
    }
  }

  /** The slot just cleared is the one of the ticket a lap later. */
  lemma FreedSlot<T>(s: State<T>)
    requires Inv(s) && s.cons.CPublish?
    ensures SlotInv(Apply(s, PopPublish), |s.hist.popped| + |s.ring.storage|)
  {
    var base, cap := |s.hist.popped|, |s.ring.storage|;
    assert SlotInv(s, base);
    ModUnique(base + cap, base / cap + 1, base % cap, cap);
  }

  lemma PublishKeeps<T>(s: State<T>)
    requires Inv(s) && s.cons.CPublish?
    ensures Inv(Apply(s, PopPublish))
  {
    var s', base, cap := Apply(s, PopPublish), |s.hist.popped|, |s.ring.storage|;
    assert s'.hist.popped == s.hist.tickets[..base + 1];
    assert s'.ring.tail == base + 1;
    forall i | base + 1 <= i < base + 1 + cap ensures SlotInv(s', i) {
      if i < base + cap {
        assert SlotInv(s, i);
      } else {
        FreedSlot(s);
      }
    }
  }

  lemma StepKeeps<T>(s: State<T>, step: Step<T>)
    requires Inv(s) && Enabled(s, step) && |Apply(s, step).hist.tickets| < WORD
    ensures Inv(Apply(s, step))
  {
    match step {
      case PushLoad(_, _) => PushLocalKeeps(s, step);
      case PushSpace(_) => PushLocalKeeps(s, step);
      case PushCas(p, spurious) => CasKeeps(s, p, spurious);
      case PushWrite(p) => WriteKeeps(s, p);
      case PushCommit(p) => CommitKeeps(s, p);
      case PopLoad => PopLocalKeeps(s, step);
      case PopHead => PopLocalKeeps(s, step);
      case PopCheck => PopLocalKeeps(s, step);
      case PopRead(_) => TakeKeeps(s, step);
      case PopClear => TakeKeeps(s, step);
      case PopPublish => PublishKeeps(s);
    }
  }

  /** No two producers ever hold the same slot. */
  lemma OwnSlotsDiffer<T>(s: State<T>, p: nat, q: nat)
    requires Inv(s) && p != q && p in s.prods && q in s.prods && Owns(s.prods[p]) && Owns(s.prods[q])
    ensures Slot(s.prods[p].head, |s.ring.storage|) != Slot(s.prods[q].head, |s.ring.storage|)
  {
    assert ProducerInv(s, s.prods[p]) && ProducerInv(s, s.prods[q]);
    WindowSlots(|s.hist.popped|, s.prods[p].head, s.prods[q].head, |s.ring.storage|);
  }

  // ---- Whole runs ----

  /** What a step shows: a ticket won, a push or pop that returned. */
  datatype Output<T> =
    | Silent | Won(item: T) | Accepted(ticket: nat, item: T) | Refused
    | Popped(item: T) | NoItem

  function Out<T>(s: State<T>, step: Step<T>): Output<T>
    requires Shaped(s.ring) && Enabled(s, step)
  {
    match step
    case PushSpace(p) => if NoSpace(s.ring, s.prods[p].head) then Refused else Silent
    case PushCas(p, spurious) => if s.ring.head != s.prods[p].head || spurious then Silent else Won(s.prods[p].item)
    case PushCommit(p) => Accepted(s.prods[p].head, s.prods[p].item)
    case PopHead => if s.cons.tail >= s.ring.head then NoItem else Silent
    case PopCheck => if s.ring.committed[Slot(s.cons.tail, |s.ring.storage|)] then Silent else NoItem
    case PopPublish => Popped(s.cons.item)
    case _ => Silent
  }

  ghost predicate IsRun<T>(run: seq<State<T>>, steps: seq<Step<T>>)
  {
    && |run| == |steps| + 1
    && IsCapacity(|run[0].ring.storage|)
    && run[0] == Init(run[0].ring.storage)
    && forall i | 0 <= i < |steps| ::
         Shaped(run[i].ring) && Enabled(run[i], steps[i]) && run[i + 1] == Apply(run[i], steps[i])
  }

  ghost function Outputs<T>(run: seq<State<T>>, steps: seq<Step<T>>): seq<Output<T>>
    requires IsRun(run, steps)
  {
    seq(|steps|, i requires 0 <= i < |steps| => Out(run[i], steps[i]))
  }

  /** The items whose compare-exchange succeeded, in that order. */
  function Winners<T>(outs: seq<Output<T>>): seq<T>
  {
    if outs == [] then []
    else Winners(outs[..|outs| - 1]) + if outs[|outs| - 1].Won? then [outs[|outs| - 1].item] else []
  }

  /** The items the pops returned, in order. */
  function Delivered<T>(outs: seq<Output<T>>): seq<T>
  {
    if outs == [] then []
    else Delivered(outs[..|outs| - 1]) + if outs[|outs| - 1].Popped? then [outs[|outs| - 1].item] else []
  }

  lemma StepHistory<T>(s: State<T>, step: Step<T>)
    requires Shaped(s.ring) && Enabled(s, step)
    ensures Apply(s, step).hist.tickets == s.hist.tickets + if Out(s, step).Won? then [Out(s, step).item] else []
    ensures Apply(s, step).hist.popped == s.hist.popped + if Out(s, step).Popped? then [Out(s, step).item] else []
    ensures |Apply(s, step).ring.storage| == |s.ring.storage|
  {}

  /** The history is what the steps showed, nothing else. */
  lemma {:induction false} HistoryIsOutputs<T>(run: seq<State<T>>, steps: seq<Step<T>>, n: nat)
    requires IsRun(run, steps) && n <= |steps|
    ensures run[n].hist.tickets == Winners(Outputs(run, steps)[..n])
    ensures run[n].hist.popped == Delivered(Outputs(run, steps)[..n])
    ensures |run[n].ring.storage| == |run[0].ring.storage|
  {
    if n > 0 {
      HistoryIsOutputs(run, steps, n - 1);
      var outs := Outputs(run, steps);
      assert outs[..n][..n - 1] == outs[..n - 1];
      StepHistory(run[n - 1], steps[n - 1]);
    }
  }

  lemma {:induction false} TicketsGrow<T>(run: seq<State<T>>, steps: seq<Step<T>>, i: nat, j: nat)
    requires IsRun(run, steps) && i <= j <= |steps|
    ensures run[i].hist.tickets <= run[j].hist.tickets
    decreases j - i
  {
    if i < j {
      TicketsGrow(run, steps, i + 1, j);
      assert run[i].hist.tickets <= run[i + 1].hist.tickets by {
        assert run[i + 1] == Apply(run[i], steps[i]);
      }
    }
  }

  lemma {:induction false} RunKeeps<T>(run: seq<State<T>>, steps: seq<Step<T>>, n: nat)
    requires IsRun(run, steps) && n <= |steps| && |run[n].hist.tickets| < WORD
    ensures Inv(run[n])
  {
    if n == 0 {
      InvInit(run[0].ring.storage);
    } else {
      TicketsGrow(run, steps, n - 1, n);
      RunKeeps(run, steps, n - 1);
      StepKeeps(run[n - 1], steps[n - 1]);
    }
  }

  /**
   Over every interleaving that issues fewer than 2^64 tickets, the pops return exactly a prefix of the
   winners in ticket order, and at most Capacity tickets are outstanding.
   */
  lemma RunDeliversInTicketOrder<T>(run: seq<State<T>>, steps: seq<Step<T>>)
    requires IsRun(run, steps) && |Winners(Outputs(run, steps))| < WORD
    ensures Delivered(Outputs(run, steps)) <= Winners(Outputs(run, steps))
    ensures |Winners(Outputs(run, steps))| - |Delivered(Outputs(run, steps))| <= |run[0].ring.storage|
  {
    var n, outs := |steps|, Outputs(run, steps);
    assert outs[..n] == outs;
    HistoryIsOutputs(run, steps, n);
    RunKeeps(run, steps, n);
  }

  // ---- Calls and their arguments ----

  /** The step ends a push of `p`. */
  predicate Returns<T>(s: State<T>, step: Step<T>, p: nat)
    requires Shaped(s.ring) && Enabled(s, step)
  {
    (step.PushSpace? || step.PushCommit?) && step.p == p && (Out(s, step).Refused? || Out(s, step).Accepted?)
  }

  /** The argument of the push that `p` has called and that has not returned yet. */
  ghost function InCall<T>(run: seq<State<T>>, steps: seq<Step<T>>, p: nat, n: nat): Option<T>
    requires IsRun(run, steps) && n <= |steps|
  {
    if n == 0 then None
    else if steps[n - 1].PushLoad? && steps[n - 1].p == p then Some(steps[n - 1].item)
    else if Returns(run[n - 1], steps[n - 1], p) then None
    else InCall(run, steps, p, n - 1)
  }

  ghost function Held<T>(s: State<T>, p: nat): Option<T>
  {
    if p in s.prods then Some(s.prods[p].item) else None
  }

  /** A step changes what `p` holds only when it calls or returns. */
  lemma StepHolds<T>(s: State<T>, step: Step<T>, p: nat)
    requires Shaped(s.ring) && Enabled(s, step)
    ensures Held(Apply(s, step), p)
         == if step.PushLoad? && step.p == p then Some(step.item) else if Returns(s, step, p) then None else Held(s, p)
  {}

  /** In every run a producer holds exactly the argument of its call, through lost swaps and retries, until it returns. */
  lemma {:induction false} HoldsArgument<T>(run: seq<State<T>>, steps: seq<Step<T>>, p: nat, n: nat)
    requires IsRun(run, steps) && n <= |steps|
    ensures Held(run[n], p) == InCall(run, steps, p, n)
  {
    if n > 0 {
      HoldsArgument(run, steps, p, n - 1);
      StepHolds(run[n - 1], steps[n - 1], p);
    }
  }

  /** The call a producer is in began at some step, and it has not called or returned since. */
  lemma {:induction false} CallBegan<T>(run: seq<State<T>>, steps: seq<Step<T>>, p: nat, n: nat) returns (j: nat)
    requires IsRun(run, steps) && n <= |steps| && InCall(run, steps, p, n).Some?
    ensures j < n && steps[j] == PushLoad(p, InCall(run, steps, p, n).value)
    ensures forall k | j < k < n :: !(steps[k].PushLoad? && steps[k].p == p) && !Returns(run[k], steps[k], p)
  {
    if steps[n - 1].PushLoad? && steps[n - 1].p == p {
      j := n - 1;
    } else {
      j := CallBegan(run, steps, p, n - 1);
    }
  }

  /** What a push wins a ticket with, and what it reports as accepted, is the item of its producer's last call. */
  lemma AcceptedIsArgument<T>(run: seq<State<T>>, steps: seq<Step<T>>, i: nat) returns (j: nat)
    requires IsRun(run, steps) && i < |steps| && (Outputs(run, steps)[i].Accepted? || Outputs(run, steps)[i].Won?)
    ensures steps[i].PushCas? || steps[i].PushCommit?
    ensures j < i && steps[j] == PushLoad(steps[i].p, Outputs(run, steps)[i].item)
    ensures forall k | j < k < i :: !(steps[k].PushLoad? && steps[k].p == steps[i].p) && !Returns(run[k], steps[k], steps[i].p)
  {
    var p := steps[i].p;
    HoldsArgument(run, steps, p, i);
    j := CallBegan(run, steps, p, i);
  }

  /** Own steps a push has left if no swap is lost. */
  function Left<T>(s: State<T>, p: nat): nat
  {
    if p !in s.prods then 0
    else match s.prods[p] case Commit(_, _) => 1 case Write(_, _) => 2 case Cas(_, _) => 3 case Loop(_, _) => 4
  }

  predicate StepOf<T>(step: Step<T>, p: nat)
  {
    (step.PushLoad? || step.PushSpace? || step.PushCas? || step.PushWrite? || step.PushCommit?) && step.p == p
  }

  /** Steps of others do not touch a push. */
  lemma OthersKeep<T>(s: State<T>, step: Step<T>, p: nat)
    requires Shaped(s.ring) && Enabled(s, step) && !StepOf(step, p)
    ensures p in Apply(s, step).prods <==> p in s.prods
    ensures p in s.prods ==> Apply(s, step).prods[p] == s.prods[p]
  {}

  /** The step reads the head: a call, or a swap, which loads it if it fails. */
  predicate Reads<T>(step: Step<T>, p: nat)
  {
    (step.PushLoad? || step.PushCas?) && step.p == p
  }

  /** The head a push goes by is the number of tickets when it last read it. */
  lemma {:induction false} HeadWasRead<T>(run: seq<State<T>>, steps: seq<Step<T>>, p: nat, n: nat) returns (j: nat)
    requires IsRun(run, steps) && n <= |steps| && |run[n].hist.tickets| < WORD
    requires p in run[n].prods && (run[n].prods[p].Loop? || run[n].prods[p].Cas?)
    ensures j < n && Reads(steps[j], p) && (forall k | j < k < n :: !Reads(steps[k], p))
    ensures run[n].prods[p].head == |run[j].hist.tickets|
  {
    var step := steps[n - 1];
    TicketsGrow(run, steps, n - 1, n);
    if Reads(step, p) {
      j := n - 1;
      RunKeeps(run, steps, j);
    } else {
      if !StepOf(step, p) {
        OthersKeep(run[n - 1], step, p);
      }
      j := HeadWasRead(run, steps, p, n - 1);
    }
  }

  /**
   Pushes are lock-free: every step of a push brings it nearer to its end, except a swap that fails. In a run below 2^64
   tickets that happens only spuriously, or if somebody has won a ticket since step `j`, at which the push last read the
   head; it then goes on with the head there is.
   */
  lemma PushIsLockFree<T>(run: seq<State<T>>, steps: seq<Step<T>>, i: nat, p: nat) returns (j: nat)
    requires IsRun(run, steps) && i < |steps| && |run[i].hist.tickets| < WORD && StepOf(steps[i], p) && !steps[i].PushLoad?
    ensures steps[i].PushCas? ==> j < i && Reads(steps[j], p) && forall k | j < k < i :: !Reads(steps[k], p)
    ensures || Left(run[i + 1], p) < Left(run[i], p)
            || (&& steps[i].PushCas? && j < i && (steps[i].spurious || |run[j].hist.tickets| < |run[i].hist.tickets|)
                && run[i + 1] == run[i].(prods := run[i].prods[p := Loop(run[i].prods[p].item, |run[i].hist.tickets|)]))
  {
    RunKeeps(run, steps, i);
    assert ProducerInv(run[i], run[i].prods[p]);
    j := i;
    if steps[i].PushCas? {
      j := HeadWasRead(run, steps, p, i);
    }
  }

  /** A pop finds nothing exactly if every ticket is popped, or the oldest one that is not is still being written. */
  lemma NoItemIff<T>(run: seq<State<T>>, steps: seq<Step<T>>, i: nat)
    requires IsRun(run, steps) && i < |steps| && |run[i].hist.tickets| < WORD
    ensures steps[i].PopHead? ==> (Outputs(run, steps)[i] == NoItem <==> run[i].hist.popped == run[i].hist.tickets)
    ensures steps[i].PopCheck? ==> (Outputs(run, steps)[i] == NoItem <==> |run[i].hist.popped| in run[i].hist.owner)
    ensures Outputs(run, steps)[i] == NoItem ==> steps[i].PopHead? || steps[i].PopCheck?
  {
    RunKeeps(run, steps, i);
    var s := run[i];
    assert SlotInv(s, |s.hist.popped|);
    assert s.hist.popped == s.hist.tickets[..|s.hist.popped|];
  }

  /** Own steps a pop has left. */
  function PopLeft<T>(c: Consumer<T>): nat
  {
    match c
    case CIdle => 0 case CPublish(_, _) => 1 case CClear(_, _) => 2 case CRead(_) => 3 case CCheck(_) => 4 case CHead(_) => 5
  }

  predicate PopStep<T>(step: Step<T>)
  {
    step.PopHead? || step.PopCheck? || step.PopRead? || step.PopClear? || step.PopPublish?
  }

  /** Pops are wait-free: each own step brings one nearer to its end, and it ends with an answer. */
  lemma PopIsWaitFree<T>(s: State<T>, step: Step<T>)
    requires Shaped(s.ring) && Enabled(s, step)
    ensures if step.PopLoad? then PopLeft(Apply(s, step).cons) == 5
            else if PopStep(step) then
              && PopLeft(Apply(s, step).cons) < PopLeft(s.cons)
              && (Apply(s, step).cons.CIdle? <==> Out(s, step).Popped? || Out(s, step).NoItem?)
            else Apply(s, step).cons == s.cons
  {}

  /** A push that returned true put its item in the ticket order, under its ticket. */
  lemma AcceptedHasItsTicket<T>(run: seq<State<T>>, steps: seq<Step<T>>, i: nat)
    requires IsRun(run, steps) && |Winners(Outputs(run, steps))| < WORD
    requires i < |steps| && Outputs(run, steps)[i].Accepted?
    ensures var out := Outputs(run, steps)[i];
            out.ticket < |Winners(Outputs(run, steps))| && Winners(Outputs(run, steps))[out.ticket] == out.item
  {
    var n, outs := |steps|, Outputs(run, steps);
    assert outs[..n] == outs;
    HistoryIsOutputs(run, steps, n);
    TicketsGrow(run, steps, i, n);
    RunKeeps(run, steps, i);
    assert outs[i] == Out(run[i], steps[i]);
    assert ProducerInv(run[i], run[i].prods[steps[i].p]);
  }

  /** No ticket is accepted twice. */
  lemma AcceptedTicketsDiffer<T>(run: seq<State<T>>, steps: seq<Step<T>>, i: nat, j: nat)
    requires IsRun(run, steps) && |Winners(Outputs(run, steps))| < WORD
    requires i < j < |steps| && Outputs(run, steps)[i].Accepted? && Outputs(run, steps)[j].Accepted?
    ensures Outputs(run, steps)[j].ticket != Outputs(run, steps)[i].ticket
  {
    var n, outs := |steps|, Outputs(run, steps);
    assert outs[..n] == outs;
    HistoryIsOutputs(run, steps, n);
    TicketsGrow(run, steps, i, j);
    TicketsGrow(run, steps, j, n);
    RunKeeps(run, steps, i);
    RunKeeps(run, steps, j);
    assert outs[i] == Out(run[i], steps[i]) && outs[j] == Out(run[j], steps[j]);
    assert ProducerInv(run[i], run[i].prods[steps[i].p]);
    TicketsGrow(run, steps, i, i + 1);
    TicketsGrow(run, steps, i + 1, j);
    assert run[i + 1] == Apply(run[i], steps[i]);
    GivenBackStaysOut(run, steps, i + 1, j, outs[i].ticket);
  }

  /** A ticket that has been issued and committed is never owned again. */
  lemma {:induction false} GivenBackStaysOut<T>(run: seq<State<T>>, steps: seq<Step<T>>, i: nat, j: nat, t: nat)
    requires IsRun(run, steps) && i <= j <= |steps| && |run[j].hist.tickets| < WORD
    requires t < |run[i].hist.tickets| && t !in run[i].hist.owner
    ensures t !in run[j].hist.owner
    decreases j - i
  {
    if i < j {
      TicketsGrow(run, steps, i, i + 1);
      TicketsGrow(run, steps, i + 1, j);
      RunKeeps(run, steps, i);
      assert run[i + 1] == Apply(run[i], steps[i]);
      GivenBackStaysOut(run, steps, i + 1, j, t);
    }
  }

  /** Nothing is lost: with no push in progress, an uninterrupted pop returns the oldest waiting item. */
  lemma QuietPopReturnsNext<T>(s: State<T>, moved: T)
    requires Inv(s) && s.prods == map[] && s.cons.CIdle? && |s.hist.popped| < |s.hist.tickets|
    ensures var s3 := Apply(Apply(Apply(s, PopLoad), PopHead), PopCheck);
            && s3.cons.CRead?
            && var s5 := Apply(Apply(s3, PopRead(moved)), PopClear);
               Out(s5, PopPublish) == Popped(s.hist.tickets[|s.hist.popped|])
  {
    var n := |s.hist.popped|;
    assert n !in s.hist.owner;
    assert SlotInv(s, n);
  }

  // ---- Where the ring stops being a queue ----

  lemma Extend<T>(run0: seq<State<T>>, steps0: seq<Step<T>>, step: Step<T>, next: State<T>)
    returns (run: seq<State<T>>, steps: seq<Step<T>>)
    requires IsRun(run0, steps0) && Shaped(run0[|steps0|].ring) && Enabled(run0[|steps0|], step)
    requires next == Apply(run0[|steps0|], step)
    ensures IsRun(run, steps) && |steps| == |steps0| + 1 && run[|steps|] == next && run[|steps0|] == run0[|steps0|]
    ensures Outputs(run, steps)[|steps0|] == Out(run0[|steps0|], step)
  {
    run, steps := run0 + [next], steps0 + [step];
  }

  lemma TwoLoads(a: int, b: int) returns (run: seq<State<int>>, steps: seq<Step<int>>)
    ensures IsCapacity(1) && IsRun(run, steps)
    ensures run[|steps|] == State(Ring(0, 0, [0], [false]), map[0 := Loop(a, 0), 1 := Cas(b, 0)], CIdle, History([], [], map[]))
  {
    assert Pow2(0) == 1;
    var s0 := Init([0]);
    run, steps := [s0], [];
    var s1 := Apply(s0, PushLoad(0, a));
    run, steps := Extend(run, steps, PushLoad(0, a), s1);
    var s2 := Apply(s1, PushLoad(1, b));
    run, steps := Extend(run, steps, PushLoad(1, b), s2);
    run, steps := Extend(run, steps, PushSpace(1), Apply(s2, PushSpace(1)));
  }

  lemma TicketOfOne(a: int, b: int) returns (run: seq<State<int>>, steps: seq<Step<int>>)
    ensures IsCapacity(1) && IsRun(run, steps)
    ensures run[|steps|] == State(Ring(1, 0, [0], [false]), map[0 := Loop(a, 0), 1 := Write(b, 0)], CIdle,
                                  History([b], [], map[0 := 1]))
  {
    run, steps := TwoLoads(a, b);
    run, steps := Extend(run, steps, PushCas(1, false), Apply(run[|steps|], PushCas(1, false)));
  }

  lemma PushOfOne(a: int, b: int) returns (run: seq<State<int>>, steps: seq<Step<int>>)
    ensures IsCapacity(1) && IsRun(run, steps)
    ensures run[|steps|] == State(Ring(1, 0, [b], [true]), map[0 := Loop(a, 0)], CIdle, History([b], [], map[]))
  {
    run, steps := TicketOfOne(a, b);
    var s2 := Apply(run[|steps|], PushWrite(1));
    run, steps := Extend(run, steps, PushWrite(1), s2);
    run, steps := Extend(run, steps, PushCommit(1), Apply(s2, PushCommit(1)));
  }

  /** A push may be refused by an empty ring, when its loaded head has fallen behind the tail. */
  lemma StaleHeadRefused(a: int, b: int) returns (run: seq<State<int>>, steps: seq<Step<int>>)
    ensures IsRun(run, steps) && |steps| > 0
    ensures Outputs(run, steps)[|steps| - 1] == Refused
    ensures run[|steps| - 1].hist.tickets == run[|steps| - 1].hist.popped == [b]
  {
    run, steps := PushOfOne(a, b);
    var ps, full, h := map[0 := Loop(a, 0)], Ring(1, 0, [b], [true]), History([b], [], map[]);
    run, steps := Extend(run, steps, PopLoad, State(full, ps, CHead(0), h));
    run, steps := Extend(run, steps, PopHead, State(full, ps, CCheck(0), h));
    run, steps := Extend(run, steps, PopCheck, State(full, ps, CRead(0), h));
    run, steps := Extend(run, steps, PopRead(0), State(Ring(1, 0, [0], [true]), ps, CClear(0, b), h));
    run, steps := Extend(run, steps, PopClear, State(Ring(1, 0, [0], [false]), ps, CPublish(0, b), h));
    var empty := State(Ring(1, 1, [0], [false]), ps, CIdle, History([b], [b], map[]));
    run, steps := Extend(run, steps, PopPublish, empty);
    run, steps := Extend(run, steps, PushSpace(0), empty.(prods := map[]));
  }

  /** try_pop compares wrapped counters with `>=`; that is the true question exactly while both are in the same lap. */
  lemma PopTestIffSameLap(head: nat, tail: nat, cap: nat)
    requires tail <= head <= tail + cap && 2 * cap <= WORD
    ensures (tail % WORD >= head % WORD <==> tail == head) <==> (head / WORD == tail / WORD || head == tail)
  {
    if head / WORD != tail / WORD {
      assert head / WORD == tail / WORD + 1;
    }
  }

  /** The consumer has passed its test and will publish, or find its slot not committed. */
  predicate InPop<T>(c: Consumer<T>)
  {
    !c.CIdle? && !c.CHead?
  }

  /** Where the tail lets the wrapped head go. */
  function Limit<T>(s: State<T>): int
  {
    s.ring.tail + |s.ring.storage| - WORD
  }

  /** Producers about to swap a small head whose space test is out of date. */
  ghost function Stale<T>(s: State<T>): set<nat>
  {
    set p | p in s.prods && s.prods[p].Cas? && Limit(s) <= s.prods[p].head < WORD - |s.ring.storage|
  }

  ghost function Swapping<T>(s: State<T>): set<nat>
  {
    set p | p in s.prods && s.prods[p].Cas?
  }

  /** The head has wrapped and the tail has not; at most `n` swaps can still overshoot the limit. */
  ghost predicate Stalled<T>(s: State<T>, n: nat)
  {
    var cap := |s.ring.storage|;
    && Shaped(s.ring) && WORD - cap <= s.ring.tail < WORD && n <= WORD - 2 * cap
    && |Stale(s)| <= n && (s.ring.head <= Limit(s) || s.ring.head + |Stale(s)| <= Limit(s) + n)
    && (s.cons.CIdle? || s.cons.tail == s.ring.tail) && (InPop(s.cons) ==> s.ring.tail < WORD - 1)
  }

  /** Pops done, and one for a pop in progress. */
  function Pops<T>(s: State<T>): nat
  {
    |s.hist.popped| + if InPop(s.cons) then 1 else 0
  }

  /** The swap that issues ticket 2^64 stalls the ring, whatever the other threads are doing. */
  lemma WrapStalls<T>(s: State<T>, p: nat)
    requires Inv(s) && |s.hist.tickets| == WORD - 1 && Enabled(s, PushCas(p, false)) && s.prods[p].head == s.ring.head
    requires |Swapping(s)| <= WORD - 2 * |s.ring.storage|
    ensures Stalled(Apply(s, PushCas(p, false)), |Swapping(s)|)
    ensures |Apply(s, PushCas(p, false)).hist.tickets| == WORD
  {
    var t := Apply(s, PushCas(p, false));
    assert ProducerInv(s, s.prods[p]);
    assert t.ring.head == 0;
    assert Stale(t) <= Swapping(s);
    Fewer(Stale(t), Swapping(s));
  }

  lemma Fewer(a: set<nat>, b: set<nat>)
    requires a <= b
    ensures |a| <= |b|
  {
    assert b == a + (b - a);
  }

  /** The space test lets nobody past the limit. */
  lemma StalledSpace<T>(s: State<T>, n: nat, h: nat)
    requires Stalled(s, n) && !NoSpace(s.ring, h) && h < WORD
    ensures h < Limit(s) || h >= WORD - |s.ring.storage|
  {
    var d := h - s.ring.tail;
    if h < s.ring.tail {
      ModUnique(d, -1, d + WORD, WORD);
    }
  }

  lemma StalledTest<T>(s: State<T>, n: nat, p: nat)
    requires Stalled(s, n) && Enabled(s, PushSpace(p)) && s.prods[p].head < WORD
    ensures Stalled(Apply(s, PushSpace(p)), n)
  {
    if !NoSpace(s.ring, s.prods[p].head) {
      StalledSpace(s, n, s.prods[p].head);
    }
    assert Stale(Apply(s, PushSpace(p))) == Stale(s);
  }

  lemma StaleAfterSwap<T>(s: State<T>, p: nat, spurious: bool)
    requires Shaped(s.ring) && Enabled(s, PushCas(p, spurious))
    ensures Stale(Apply(s, PushCas(p, spurious))) == Stale(s) - {p}
  {}

  lemma LessOne(a: set<nat>, p: nat)
    ensures |a - {p}| == |a| - if p in a then 1 else 0
  {
    if p !in a {
      assert a - {p} == a;
    }
  }

  lemma SwapFails<T>(s: State<T>, n: nat, p: nat, spurious: bool)
    requires Stalled(s, n) && Enabled(s, PushCas(p, spurious)) && (s.ring.head != s.prods[p].head || spurious)
    ensures Stalled(Apply(s, PushCas(p, spurious)), n)
  {
    StaleAfterSwap(s, p, spurious);
    LessOne(Stale(s), p);
  }

  lemma HeadHasRoom<T>(s: State<T>, n: nat)
    requires Stalled(s, n)
    ensures s.ring.head < WORD - |s.ring.storage| && WAdd(s.ring.head, 1) == s.ring.head + 1
  {
    ModUnique(s.ring.head + 1, 0, s.ring.head + 1, WORD);
  }

  lemma SwapWins<T>(s: State<T>, n: nat, p: nat)
    requires Stalled(s, n) && Enabled(s, PushCas(p, false)) && s.ring.head == s.prods[p].head
    ensures Stalled(Apply(s, PushCas(p, false)), n)
  {
    HeadHasRoom(s, n);
    StaleAfterSwap(s, p, false);
    LessOne(Stale(s), p);
    assert p in Stale(s) <==> Limit(s) <= s.ring.head;
  }

  lemma StalledSwap<T>(s: State<T>, n: nat, p: nat, spurious: bool)
    requires Stalled(s, n) && Enabled(s, PushCas(p, spurious))
    ensures Stalled(Apply(s, PushCas(p, spurious)), n)
  {
    if s.ring.head != s.prods[p].head || spurious {
      SwapFails(s, n, p, spurious);
    } else {
      SwapWins(s, n, p);
    }
  }

  lemma StalledPop<T>(s: State<T>, n: nat, step: Step<T>)
    requires Stalled(s, n) && Enabled(s, step)
    requires step.PopLoad? || step.PopHead? || step.PopCheck? || step.PopRead? || step.PopClear? || step.PopPublish?
    ensures Stalled(Apply(s, step), n) && Pops(Apply(s, step)) <= Pops(s)
  {
    var t := Apply(s, step);
    if step.PopPublish? {
      assert Stale(t) <= Stale(s);
      Fewer(Stale(t), Stale(s));
    } else {
      assert Stale(t) == Stale(s);
    }
  }

  /** Heads stay words. */
  ghost predicate Words<T>(s: State<T>)
  {
    s.ring.head < WORD && forall p | p in s.prods :: s.prods[p].head < WORD
  }

  lemma StepWords<T>(s: State<T>, step: Step<T>)
    requires Words(s) && Shaped(s.ring) && Enabled(s, step)
    ensures Words(Apply(s, step))
  {}

  /** Once the head has wrapped, no step of any thread starts a pop that returns: at most the one in progress completes. */
  lemma StalledForever<T>(s: State<T>, n: nat, step: Step<T>)
    requires Stalled(s, n) && Words(s) && Enabled(s, step)
    ensures Stalled(Apply(s, step), n) && Pops(Apply(s, step)) <= Pops(s)
  {
    match step
    case PushLoad(_, _) => assert Stale(Apply(s, step)) == Stale(s);
    case PushSpace(p) => StalledTest(s, n, p);
    case PushCas(p, spurious) => StalledSwap(s, n, p, spurious);
    case PushWrite(_) => assert Stale(Apply(s, step)) == Stale(s);
    case PushCommit(_) => assert Stale(Apply(s, step)) == Stale(s);
    case _ => StalledPop(s, n, step);
  }

  lemma {:induction false} RunWords<T>(run: seq<State<T>>, steps: seq<Step<T>>, k: nat)
    requires IsRun(run, steps) && k <= |steps|
    ensures Words(run[k])
  {
    if k > 0 {
      RunWords(run, steps, k - 1);
      StepWords(run[k - 1], steps[k - 1]);
    }
  }

  lemma {:induction false} StalledFrom<T>(run: seq<State<T>>, steps: seq<Step<T>>, n: nat, i: nat, j: nat)
    requires IsRun(run, steps) && i <= j <= |steps| && Stalled(run[i], n)
    ensures Stalled(run[j], n) && Pops(run[j]) <= Pops(run[i])
  {
    if i < j {
      StalledFrom(run, steps, n, i, j - 1);
      RunWords(run, steps, j - 1);
      StalledForever(run[j - 1], n, steps[j - 1]);
    }
  }

  /** The swap with which a run reaches 2^64 tickets. */
  lemma {:induction false} FindWrap<T>(run: seq<State<T>>, steps: seq<Step<T>>, k: nat) returns (i: nat)
    requires IsRun(run, steps) && k <= |steps| && |run[k].hist.tickets| >= WORD
    ensures i < k && |run[i].hist.tickets| == WORD - 1 && |run[i + 1].hist.tickets| == WORD
    ensures steps[i].PushCas? && !steps[i].spurious && run[i].prods[steps[i].p].head == run[i].ring.head
  {
    StepHistory(run[k - 1], steps[k - 1]);
    if |run[k - 1].hist.tickets| >= WORD {
      i := FindWrap(run, steps, k - 1);
    } else {
      i := k - 1;
    }
  }

  /**
   Every run that issues 2^64 tickets: once the last of them is issued, with no more threads swapping than the word has
   room for, at most the pop then in progress completes, and none does if there is none.
   */
  lemma NothingPoppedAfterWrap<T>(run: seq<State<T>>, steps: seq<Step<T>>, i: nat, j: nat)
    requires IsRun(run, steps) && i < j <= |steps| && |run[i].hist.tickets| < WORD == |run[i + 1].hist.tickets|
    requires |Swapping(run[i])| <= WORD - 2 * |run[i].ring.storage|
    ensures |run[j].hist.popped| <= |run[i].hist.popped| + if InPop(run[i].cons) then 1 else 0
  {
    RunKeeps(run, steps, i);
    StepHistory(run[i], steps[i]);
    assert steps[i] == PushCas(steps[i].p, false);
    WrapStalls(run[i], steps[i].p);
    StalledFrom(run, steps, |Swapping(run[i])|, i + 1, j);
  }

  /**
   So over every run, of whatever length, fewer than 2^64 items are ever popped: the item of ticket 2^64 - 1 and all behind
   it are not delivered. The wrap is found at some step `i`, after which at most the pop then in progress completes.
   */
  lemma NeverDelivered<T>(run: seq<State<T>>, steps: seq<Step<T>>, k: nat) returns (i: nat)
    requires IsRun(run, steps) && k <= |steps| && |run[k].hist.tickets| >= WORD
    requires forall j | 0 <= j < k :: |Swapping(run[j])| <= WORD - 2 * |run[j].ring.storage|
    ensures i < k && |run[i].hist.tickets| == WORD - 1
    ensures |run[k].hist.popped| <= |run[i].hist.popped| + if InPop(run[i].cons) then 1 else 0
    ensures |run[k].hist.popped| < WORD
  {
    i := FindWrap(run, steps, k);
    NothingPoppedAfterWrap(run, steps, i, k);
    RunKeeps(run, steps, i);
  }

  // ---- A run that gets there ----

  /** Nobody is in the ring. */
  ghost predicate Quiet<T>(s: State<T>)
  {
    Inv(s) && s.prods == map[] && s.cons.CIdle?
  }

  lemma Take<T>(run0: seq<State<T>>, steps0: seq<Step<T>>, step: Step<T>) returns (run: seq<State<T>>, steps: seq<Step<T>>)
    requires IsRun(run0, steps0) && Inv(run0[|steps0|]) && Enabled(run0[|steps0|], step)
    requires |Apply(run0[|steps0|], step).hist.tickets| < WORD
    ensures IsRun(run, steps) && run[|steps|] == Apply(run0[|steps0|], step) && Inv(run[|steps|])
  {
    StepKeeps(run0[|steps0|], step);
    run, steps := Extend(run0, steps0, step, Apply(run0[|steps0|], step));
  }

  /** A push of a quiet, empty ring up to its swap. */
  lemma QuietSwap<T>(run0: seq<State<T>>, steps0: seq<Step<T>>, item: T) returns (run: seq<State<T>>, steps: seq<Step<T>>)
    requires IsRun(run0, steps0) && Quiet(run0[|steps0|])
    requires var s := run0[|steps0|]; |s.hist.popped| == |s.hist.tickets|
    ensures IsRun(run, steps) && Inv(run[|steps|])
    ensures var s := run0[|steps0|]; run[|steps|] == s.(prods := map[0 := Cas(item, s.ring.head)])
  {
    var s := run0[|steps0|];
    run, steps := Take(run0, steps0, PushLoad(0, item));
    SpaceTest(s, s.ring.head);
    run, steps := Take(run, steps, PushSpace(0));
  }

  lemma QuietPush<T>(run0: seq<State<T>>, steps0: seq<Step<T>>, item: T) returns (run: seq<State<T>>, steps: seq<Step<T>>)
    requires IsRun(run0, steps0) && Quiet(run0[|steps0|])
    requires var s := run0[|steps0|]; |s.hist.popped| == |s.hist.tickets| < WORD - 1
    ensures IsRun(run, steps) && Quiet(run[|steps|])
    ensures var s, t := run0[|steps0|], run[|steps|];
            t.hist.tickets == s.hist.tickets + [item] && t.hist.popped == s.hist.popped && |t.ring.storage| == |s.ring.storage|
  {
    run, steps := QuietSwap(run0, steps0, item);
    run, steps := Take(run, steps, PushCas(0, false));
    run, steps := Take(run, steps, PushWrite(0));
    run, steps := Take(run, steps, PushCommit(0));
  }

  lemma QuietPop<T>(run0: seq<State<T>>, steps0: seq<Step<T>>, moved: T) returns (run: seq<State<T>>, steps: seq<Step<T>>)
    requires IsRun(run0, steps0) && Quiet(run0[|steps0|])
    requires var s := run0[|steps0|]; |s.hist.popped| < |s.hist.tickets|
    ensures IsRun(run, steps) && Quiet(run[|steps|])
    ensures var s, t := run0[|steps0|], run[|steps|];
            t.hist.tickets == s.hist.tickets && |t.hist.popped| == |s.hist.popped| + 1 && |t.ring.storage| == |s.ring.storage|
  {
    QuietPopReturnsNext(run0[|steps0|], moved);
    run, steps := Take(run0, steps0, PopLoad);
    run, steps := Take(run, steps, PopHead);
    run, steps := Take(run, steps, PopCheck);
    run, steps := Take(run, steps, PopRead(moved));
    run, steps := Take(run, steps, PopClear);
    run, steps := Take(run, steps, PopPublish);
  }

  /** Any number of pushes below 2^64, each popped before the next. */
  lemma {:induction false} QuietRun(n: nat, cap: nat) returns (run: seq<State<int>>, steps: seq<Step<int>>)
    requires n < WORD && IsCapacity(cap)
    ensures IsRun(run, steps) && Quiet(run[|steps|]) && |run[|steps|].ring.storage| == cap
    ensures |run[|steps|].hist.tickets| == |run[|steps|].hist.popped| == n
  {
    if n == 0 {
      var storage := seq(cap, _ => 0);
      run, steps := [Init(storage)], [];
      InvInit(storage);
    } else {
      run, steps := QuietRun(n - 1, cap);
      run, steps := QuietPush(run, steps, 0);
      run, steps := QuietPop(run, steps, 0);
    }
  }

  /** For every capacity there is a run in which an item is accepted and, whatever is done from then on, never popped. */
  lemma AcceptedAndLost(cap: nat) returns (run: seq<State<int>>, steps: seq<Step<int>>)
    requires IsCapacity(cap) && 2 * cap < WORD
    ensures IsRun(run, steps) && |steps| > 0 && Outputs(run, steps)[|steps| - 1] == Accepted(WORD - 1, 0)
    ensures |run[|steps|].hist.popped| == WORD - 1 && Stalled(run[|steps|], 1) && Pops(run[|steps|]) == WORD - 1
  {
    run, steps := QuietRun(WORD - 1, cap);
    run, steps := QuietSwap(run, steps, 0);
    var s := run[|steps|];
    assert Swapping(s) == {0};
    WrapStalls(s, 0);
    var t := Apply(s, PushCas(0, false));
    run, steps := Extend(run, steps, PushCas(0, false), t);
    RunWords(run, steps, |steps|);
    StalledForever(t, 1, PushWrite(0));
    var u := Apply(t, PushWrite(0));
    run, steps := Extend(run, steps, PushWrite(0), u);
    RunWords(run, steps, |steps|);
    StalledForever(u, 1, PushCommit(0));
    run, steps := Extend(run, steps, PushCommit(0), Apply(u, PushCommit(0)));
  }

  /**
   In every run below 2^64 tickets, a push is refused exactly when its local head is a full ring ahead of the tail, or
   has fallen behind the tail by no more than a word less a ring.
   */
  lemma RefusedIff<T>(run: seq<State<T>>, steps: seq<Step<T>>, i: nat)
    requires IsRun(run, steps) && i < |steps| && |run[i].hist.tickets| < WORD && steps[i].PushSpace?
    ensures var h, popped, cap := run[i].prods[steps[i].p].head, |run[i].hist.popped|, |run[i].ring.storage|;
            Outputs(run, steps)[i] == Refused <==> h == popped + cap || (h < popped && popped - h <= WORD - cap)
  {
    RunKeeps(run, steps, i);
    assert ProducerInv(run[i], run[i].prods[steps[i].p]);
    SpaceTest(run[i], run[i].prods[steps[i].p].head);
  }
}
