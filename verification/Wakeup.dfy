/**
 Handing connections to workers: one acceptor, any number of workers, each with a ring of descriptors and a wakeup
 pipe. A ring is the bounded queue that the single-producer ring refines. Every push, pipe write, pipe read, load and
 publish is one step, in any order.
 */
module Wakeup {
  import opened Bits
  import opened Options

  const RING: nat := 1024
  const BATCH: nat := 64
  const READ: nat := 128
  /** What the pipe holds; a write into a full pipe is lost. */
  const PIPE: nat := 65536

  /** A worker asleep, emptying its pipe, about to load the ring's head, or about to publish a batch of `count`. */
  datatype Pc = Asleep | Draining | Loading | Popping(count: nat)

  /** `given` is history: all descriptors pushed. */
  datatype Worker = Worker(ring: seq<int>, pipe: nat, pc: Pc, connections: seq<int>, given: seq<int>)

  /** `full`, history, is the workers whose ring was found full for this descriptor. */
  datatype Acceptor = Ready | Trying(fd: int, start: nat, attempt: nat, full: set<nat>) | Pushed(index: nat)

  /** Descriptors are numbered as accepted; `closed` and `placed`, history, say what became of them. */
  datatype State = State(workers: seq<Worker>, next: nat, acceptor: Acceptor, accepted: int, closed: set<int>, placed: map<int, int>)

  datatype Step = Accept | Push | WriteByte | Close | Wake(w: nat) | ReadPipe(w: nat) | Load(w: nat) | Publish(w: nat)

  ghost predicate Init(s: State)
  {
    && |s.workers| > 0 && (forall w | 0 <= w < |s.workers| :: s.workers[w] == Worker([], 0, Asleep, [], []))
    && s.next == 0 && s.acceptor == Ready && s.accepted == 0 && s.closed == {} && s.placed == map[]
  }

  /** The worker of an attempt. */
  function At(start: nat, attempt: nat, n: nat): nat
    requires n > 0
  {
    (start + attempt) % n
  }

  function Index(s: State): nat
    requires s.acceptor.Trying? && |s.workers| > 0
  {
    At(s.acceptor.start, s.acceptor.attempt, |s.workers|)
  }

  predicate Enabled(s: State, step: Step)
  {
    |s.workers| > 0
    && match step
       case Accept => s.acceptor.Ready?
       case Push => s.acceptor.Trying? && s.acceptor.attempt < |s.workers|
       case WriteByte => s.acceptor.Pushed? && s.acceptor.index < |s.workers|
       case Close => s.acceptor.Trying? && s.acceptor.attempt == |s.workers|
       case Wake(w) => w < |s.workers| && s.workers[w].pc == Asleep && s.workers[w].pipe > 0
       case ReadPipe(w) => w < |s.workers| && s.workers[w].pc == Draining
       case Load(w) => w < |s.workers| && s.workers[w].pc == Loading
       case Publish(w) => w < |s.workers| && s.workers[w].pc.Popping? && s.workers[w].pc.count <= |s.workers[w].ring|
  }

  function PushTo(x: Worker, fd: int): Worker
  {
    x.(ring := x.ring + [fd], given := x.given + [fd])
  }

  function WorkerStep(x: Worker, step: Step): Worker
    requires step.Publish? ==> x.pc.Popping? && x.pc.count <= |x.ring|
  {
    match step
    case Wake(_) => x.(pc := Draining)
    case ReadPipe(_) => if x.pipe == 0 then x.(pc := Loading) else x.(pipe := if x.pipe < READ then 0 else x.pipe - READ)
    case Load(_) => x.(pc := Popping(if |x.ring| < BATCH then |x.ring| else BATCH))
    case Publish(_) => Worker(x.ring[x.pc.count..], x.pipe, Asleep, x.connections + x.ring[..x.pc.count], x.given)
    case _ => x
  }

  function Next(s: State, step: Step): State
    requires Enabled(s, step)
  {
    match step
    case Accept => s.(acceptor := Trying(s.accepted, s.next, 0, {}), accepted := s.accepted + 1)
    case Push =>
      var a, i := s.acceptor, Index(s);
      if |s.workers[i].ring| < RING then
        s.(workers := s.workers[i := PushTo(s.workers[i], a.fd)], acceptor := Pushed(i), placed := s.placed[a.fd := i])
      else s.(acceptor := a.(attempt := a.attempt + 1, full := a.full + {i}))
    case WriteByte =>
      var i := s.acceptor.index;
      var x := s.workers[i];
      s.(workers := s.workers[i := x.(pipe := if x.pipe < PIPE then x.pipe + 1 else x.pipe)],
         next := (i + 1) % |s.workers|, acceptor := Ready)
    case Close => s.(acceptor := Ready, closed := s.closed + {s.acceptor.fd}, placed := s.placed[s.acceptor.fd := -1])
    case _ => s.(workers := s.workers[step.w := WorkerStep(s.workers[step.w], step)])
  }

  // ---- No lost wakeup ----

  /** The acceptor has pushed to this worker and not yet written to its pipe. */
  predicate Pending(s: State, w: nat)
  {
    s.acceptor.Pushed? && s.acceptor.index == w
  }

  /** The worker will look at its ring again: a byte in the pipe, a write to come, or a pop that has not loaded the head. */
  predicate Noticed(s: State, w: nat)
    requires w < |s.workers|
  {
    s.workers[w].pipe > 0 || Pending(s, w) || s.workers[w].pc.Draining? || s.workers[w].pc.Loading?
  }

  /** Whatever a running pop does not take will be noticed. */
  ghost predicate Safe(s: State, w: nat)
    requires w < |s.workers|
  {
    var x := s.workers[w];
    var taken := if x.pc.Popping? then x.pc.count else 0;
    taken <= |x.ring| && (|x.ring| > taken ==> Noticed(s, w))
  }

  ghost predicate AllSafe(s: State)
  {
    forall w | 0 <= w < |s.workers| :: Safe(s, w)
  }

  /** No load of the head finds more than a batch waiting. */
  predicate Brief(s: State, step: Step)
  {
    step.Load? && step.w < |s.workers| ==> |s.workers[step.w].ring| <= BATCH
  }

  lemma StepIsSafe(s: State, step: Step)
    requires AllSafe(s) && Enabled(s, step) && Brief(s, step)
    ensures AllSafe(Next(s, step))
  {
    var t := Next(s, step);
    forall w | 0 <= w < |t.workers| ensures Safe(t, w) {
      assert Safe(s, w);
    }
  }

  // ---- Whole runs ----

  ghost predicate IsRun(run: seq<State>, steps: seq<Step>)
  {
    && |run| == |steps| + 1 && Init(run[0])
    && forall k: nat | k < |steps| :: Taken(run, steps, k)
  }

  ghost predicate Taken(run: seq<State>, steps: seq<Step>, k: nat)
    requires k < |steps| && |run| == |steps| + 1
  {
    Enabled(run[k], steps[k]) && run[k + 1] == Next(run[k], steps[k])
  }

  /** Descriptors waiting, the worker asleep, no byte in its pipe and none to come. */
  predicate Forgotten(s: State, w: nat)
    requires w < |s.workers|
  {
    var x := s.workers[w];
    x.ring != [] && x.pc == Asleep && x.pipe == 0 && !Pending(s, w)
  }

  lemma {:induction false} RunIsSafe(run: seq<State>, steps: seq<Step>, k: nat)
    requires IsRun(run, steps) && k <= |steps|
    requires forall j: nat | j < k :: Brief(run[j], steps[j])
    ensures AllSafe(run[k])
  {
    if k > 0 {
      RunIsSafe(run, steps, k - 1);
      assert Taken(run, steps, k - 1) && Brief(run[k - 1], steps[k - 1]);
      StepIsSafe(run[k - 1], steps[k - 1]);
    }
  }

  /** In every run in which no drain finds more than 64 waiting, no worker is ever left asleep with descriptors in its ring. */
  lemma NoLostWakeup(run: seq<State>, steps: seq<Step>, k: nat, w: nat)
    requires IsRun(run, steps) && k <= |steps| && w < |run[k].workers|
    requires forall j: nat | j < k :: Brief(run[j], steps[j])
    ensures !Forgotten(run[k], w)
  {
    RunIsSafe(run, steps, k);
    assert Safe(run[k], w);
  }

  /** And only then: with nothing in the pipe and none to come, a drain forgets descriptors exactly if it finds more than 64. */
  lemma DrainForgetsIff(s: State, w: nat)
    requires |s.workers| > 0 && w < |s.workers| && s.workers[w].pc == Loading && s.workers[w].pipe == 0 && !Pending(s, w)
    ensures var t := Next(s, Load(w));
            Enabled(t, Publish(w)) && (Forgotten(Next(t, Publish(w)), w) <==> |s.workers[w].ring| > BATCH)
  {}

  /** A worker after that many reads of its pipe, with no write between. */
  function ReadTimes(x: Worker, j: nat): Worker
  {
    if j == 0 then x else WorkerStep(ReadTimes(x, j - 1), ReadPipe(0))
  }

  /** A drain empties the pipe, 128 bytes a read, and then, at one more read, goes on to its ring. */
  lemma {:induction false} DrainReadsAll(x: Worker, j: nat)
    requires x.pc == Draining && (x.pipe == 0 ==> j == 0) && (j > 0 ==> READ * (j - 1) < x.pipe)
    ensures ReadTimes(x, j) == x.(pipe := if x.pipe < READ * j then 0 else x.pipe - READ * j)
    ensures x.pipe <= READ * j ==> ReadTimes(x, j + 1) == x.(pipe := 0, pc := Loading)
  {
    if j > 0 {
      DrainReadsAll(x, j - 1);
    }
  }

  // ---- What becomes of a descriptor ----

  /** What a worker was given is what it has registered, then what waits in its ring, in order and nothing twice. */
  ghost predicate KeepsOrder(x: Worker)
  {
    && x.given == x.connections + x.ring && (x.pc.Popping? ==> x.pc.count <= |x.ring|) && |x.ring| <= RING
    && forall i, j | 0 <= i < j < |x.given| :: x.given[i] != x.given[j]
  }

  ghost predicate InHand(s: State, fd: int)
  {
    s.acceptor.Trying? && s.acceptor.fd == fd
  }

  /** The history says for each descriptor accepted, except one in hand, whether it was closed or who got it. */
  ghost predicate Placed(s: State)
  {
    && 0 <= s.accepted && (s.acceptor.Trying? ==> 0 <= s.acceptor.fd < s.accepted)
    && (forall fd :: fd in s.placed <==> 0 <= fd < s.accepted && !InHand(s, fd))
    && (forall fd | fd in s.placed :: -1 <= s.placed[fd] < |s.workers|)
    && (forall fd :: fd in s.closed <==> fd in s.placed && s.placed[fd] == -1)
  }

  ghost predicate Given(x: Worker, w: int, placed: map<int, int>)
  {
    KeepsOrder(x) && forall fd :: fd in x.given <==> fd in placed && placed[fd] == w
  }

  /** Each descriptor accepted is in hand, closed, or given to exactly one worker. */
  ghost predicate Accounted(s: State)
  {
    Placed(s) && forall w | 0 <= w < |s.workers| :: Given(s.workers[w], w, s.placed)
  }

  lemma PushOrders(x: Worker, fd: int)
    requires KeepsOrder(x) && fd !in x.given && |x.ring| < RING
    ensures KeepsOrder(PushTo(x, fd))
  {}

  lemma WorkerOrders(x: Worker, step: Step)
    requires KeepsOrder(x) && (step.Publish? ==> x.pc.Popping?)
    ensures KeepsOrder(WorkerStep(x, step)) && WorkerStep(x, step).given == x.given
  {
    if step.Publish? {
      assert x.ring == x.ring[..x.pc.count] + x.ring[x.pc.count..];
    }
  }

  lemma PlacedElsewhere(x: Worker, w: int, placed: map<int, int>, fd: int, v: int)
    requires Given(x, w, placed) && fd !in placed && v != w
    ensures Given(x, w, placed[fd := v])
  {}

  lemma PlacedHere(x: Worker, w: int, placed: map<int, int>, fd: int)
    requires Given(x, w, placed) && fd !in placed && |x.ring| < RING
    ensures Given(PushTo(x, fd), w, placed[fd := w])
  {
    PushOrders(x, fd);
  }

  lemma PushAccounts(s: State)
    requires Accounted(s) && Enabled(s, Push)
    ensures Accounted(Next(s, Push))
  {
    var i, fd, t := Index(s), s.acceptor.fd, Next(s, Push);
    assert InHand(s, fd) && fd !in s.placed;
    if |s.workers[i].ring| < RING {
      forall w | 0 <= w < |t.workers| ensures Given(t.workers[w], w, t.placed) {
        if w == i {
          PlacedHere(s.workers[i], i, s.placed, fd);
        } else {
          PlacedElsewhere(s.workers[w], w, s.placed, fd, i);
        }
      }
    }
  }

  lemma CloseAccounts(s: State)
    requires Accounted(s) && Enabled(s, Close)
    ensures Accounted(Next(s, Close))
  {
    var fd, t := s.acceptor.fd, Next(s, Close);
    assert InHand(s, fd) && fd !in s.placed;
    forall w | 0 <= w < |t.workers| ensures Given(t.workers[w], w, t.placed) {
      PlacedElsewhere(s.workers[w], w, s.placed, fd, -1);
    }
  }

  lemma WorkerAccounts(s: State, step: Step)
    requires Accounted(s) && Enabled(s, step) && (step.Wake? || step.ReadPipe? || step.Load? || step.Publish?)
    ensures Accounted(Next(s, step))
  {
    var t := Next(s, step);
    forall w | 0 <= w < |t.workers| ensures Given(t.workers[w], w, t.placed) {
      assert Given(s.workers[w], w, s.placed);
      if w == step.w {
        WorkerOrders(s.workers[w], step);
      }
    }
  }

  lemma StepAccounts(s: State, step: Step)
    requires Accounted(s) && Enabled(s, step)
    ensures Accounted(Next(s, step))
  {
    match step
    case Accept =>
    case Push => PushAccounts(s);
    case WriteByte =>
      assert Given(s.workers[s.acceptor.index], s.acceptor.index, s.placed);
    case Close => CloseAccounts(s);
    case _ => WorkerAccounts(s, step);
  }

  lemma {:induction false} RunAccounts(run: seq<State>, steps: seq<Step>, k: nat)
    requires IsRun(run, steps) && k <= |steps|
    ensures Accounted(run[k])
  {
    if k > 0 {
      RunAccounts(run, steps, k - 1);
      assert Taken(run, steps, k - 1);
      StepAccounts(run[k - 1], steps[k - 1]);
    }
  }

  // ---- Round robin ----

  /** Some attempt of a whole round is at each worker. */
  lemma RoundMeetsAll(start: nat, n: nat, w: nat) returns (a: nat)
    requires w < n
    ensures a < n && At(start, a, n) == w
  {
    a := (w - start) % n;
    var q := (w - start) / n;
    assert start + a == (-q) * n + w;
    ModUnique(start + a, -q, w, n);
  }

  /** The workers found full are those of the attempts made. */
  ghost predicate Tried(s: State)
  {
    |s.workers| > 0 && (s.acceptor.Trying? ==> Met(s.acceptor, |s.workers|))
  }

  ghost predicate Met(a: Acceptor, n: nat)
    requires a.Trying? && n > 0
  {
    a.attempt <= n && forall i: nat | i < a.attempt :: At(a.start, i, n) in a.full
  }

  lemma StepTries(s: State, step: Step)
    requires Tried(s) && Enabled(s, step)
    ensures Tried(Next(s, step))
  {}

  lemma {:induction false} RunTries(run: seq<State>, steps: seq<Step>, k: nat)
    requires IsRun(run, steps) && k <= |steps|
    ensures Tried(run[k]) && |run[k].workers| == |run[0].workers|
  {
    if k > 0 {
      RunTries(run, steps, k - 1);
      assert Taken(run, steps, k - 1);
      StepTries(run[k - 1], steps[k - 1]);
    }
  }

  /** A connection is closed only when every worker's ring was found full for it. */
  lemma ClosedOnlyIfAllFull(run: seq<State>, steps: seq<Step>, k: nat, w: nat)
    requires IsRun(run, steps) && k < |steps| && steps[k] == Close && w < |run[k].workers|
    ensures run[k].acceptor.Trying? && w in run[k].acceptor.full
  {
    assert Taken(run, steps, k);
    RunTries(run, steps, k);
    var a := RoundMeetsAll(run[k].acceptor.start, |run[k].workers|, w);
  }

  // ---- Whose turn it is ----

  /** The push of this step finds room. */
  predicate Places(s: State, step: Step)
  {
    step == Push && Enabled(s, step) && |s.workers[Index(s)].ring| < RING
  }

  /** The worker that took the last descriptor placed. */
  ghost function Taker(run: seq<State>, steps: seq<Step>, k: nat): Option<nat>
    requires IsRun(run, steps) && k <= |steps|
  {
    if k == 0 then None
    else if Places(run[k - 1], steps[k - 1]) then Some(Index(run[k - 1]))
    else Taker(run, steps, k - 1)
  }

  /** The worker behind it; the first one if there is none. */
  function Behind(taker: Option<nat>, n: nat): nat
    requires n > 0
  {
    if taker.Some? then (taker.value + 1) % n else 0
  }

  ghost predicate TurnOf(s: State, taker: Option<nat>)
    requires |s.workers| > 0
  {
    match s.acceptor
    case Ready => s.next == Behind(taker, |s.workers|)
    case Trying(_, start, _, _) => s.next == start == Behind(taker, |s.workers|)
    case Pushed(i) => taker == Some(i)
  }

  lemma StepTurns(s: State, step: Step, taker: Option<nat>)
    requires Enabled(s, step) && TurnOf(s, taker)
    ensures TurnOf(Next(s, step), if Places(s, step) then Some(Index(s)) else taker)
  {}

  lemma {:induction false} RunTurns(run: seq<State>, steps: seq<Step>, k: nat)
    requires IsRun(run, steps) && k <= |steps|
    ensures |run[k].workers| == |run[0].workers| > 0 && TurnOf(run[k], Taker(run, steps, k))
  {
    if k > 0 {
      RunTurns(run, steps, k - 1);
      assert Taken(run, steps, k - 1);
      StepTurns(run[k - 1], steps[k - 1], Taker(run, steps, k - 1));
    }
  }

  /** A worker noted as full was tried for this descriptor, and its ring was full then. */
  lemma {:induction false} FoundFull(run: seq<State>, steps: seq<Step>, k: nat, w: nat) returns (j: nat)
    requires IsRun(run, steps) && k <= |steps| && run[k].acceptor.Trying? && w in run[k].acceptor.full
    ensures j < k && steps[j] == Push && run[j].acceptor.Trying? && run[j].acceptor.fd == run[k].acceptor.fd
    ensures w < |run[j].workers| && |run[j].workers[w].ring| >= RING
  {
    assert Taken(run, steps, k - 1);
    if steps[k - 1] == Push && Index(run[k - 1]) == w {
      j := k - 1;
    } else {
      j := FoundFull(run, steps, k - 1, w);
    }
  }

  /**
   In every run, a descriptor that is placed goes to the first worker with room, from the one behind the last taker on:
   every worker before it in that order was found full.
   */
  lemma PlacedInTurn(run: seq<State>, steps: seq<Step>, k: nat)
    requires IsRun(run, steps) && k < |steps| && Places(run[k], steps[k])
    ensures var a, n, start := run[k].acceptor, |run[0].workers|, Behind(Taker(run, steps, k), |run[0].workers|);
            && n > 0 && run[k + 1].placed == run[k].placed[a.fd := At(start, a.attempt, n)] && a.attempt < n
            && forall i: nat | i < a.attempt :: At(start, i, n) in a.full
  {
    assert Taken(run, steps, k);
    RunTurns(run, steps, k);
    RunTries(run, steps, k);
  }

  /** A step that finds no full ring. */
  predicate NeverFull(s: State, step: Step)
  {
    step == Push && Enabled(s, step) ==> Places(s, step)
  }

  /** The workers take turns, by the descriptors' numbers. */
  ghost predicate Rotates(s: State)
  {
    var n := |s.workers|;
    && n > 0 && 0 <= s.accepted && (forall fd | fd in s.placed :: 0 <= fd && s.placed[fd] == fd % n)
    && match s.acceptor
       case Ready => s.next == s.accepted % n
       case Trying(fd, start, attempt, _) => attempt == 0 && 0 <= fd == s.accepted - 1 && s.next == start == fd % n
       case Pushed(i) => 0 <= s.accepted - 1 && i == (s.accepted - 1) % n
  }

  lemma NextInTurn(a: nat, n: nat)
    requires n > 0
    ensures (a % n + 1) % n == (a + 1) % n && (a % n + 0) % n == a % n
  {
    var q, r := a / n, a % n;
    assert a == q * n + r;
    if r + 1 < n {
      ModUnique(a + 1, q, r + 1, n);
      ModUnique(r + 1, 0, r + 1, n);
    } else {
      assert a + 1 == (q + 1) * n + 0;
      ModUnique(a + 1, q + 1, 0, n);
      ModUnique(r + 1, 1, 0, n);
    }
    ModUnique(r, 0, r, n);
  }

  lemma StepRotates(s: State, step: Step)
    requires Rotates(s) && Enabled(s, step) && NeverFull(s, step)
    ensures Rotates(Next(s, step))
  {
    if s.accepted > 0 {
      NextInTurn(s.accepted - 1, |s.workers|);
    }
  }

  /** In every run in which no ring is found full, descriptor `fd` goes to worker `fd` modulo their number. */
  lemma {:induction false} RoundRobin(run: seq<State>, steps: seq<Step>, k: nat)
    requires IsRun(run, steps) && k <= |steps| && forall j: nat | j < k :: NeverFull(run[j], steps[j])
    ensures |run[k].workers| == |run[0].workers| > 0 && Rotates(run[k])
    ensures forall fd | fd in run[k].placed :: 0 <= fd && run[k].placed[fd] == fd % |run[0].workers|
  {
    if k > 0 {
      RoundRobin(run, steps, k - 1);
      assert Taken(run, steps, k - 1) && NeverFull(run[k - 1], steps[k - 1]);
      StepRotates(run[k - 1], steps[k - 1]);
    }
  }

  // ---- A burst of 65 ----

  /** One worker asleep, `n` descriptors waiting, as many bytes in its pipe. */
  function Burst(n: nat): State
  {
    var fds := seq(n, i => i);
    State([Worker(fds, n, Asleep, [], fds)], 0, Ready, n, {}, map i | i in fds :: 0)
  }

  lemma BurstGrows(n: nat)
    requires n < RING
    ensures Enabled(Burst(n), Accept) && Enabled(Next(Burst(n), Accept), Push)
    ensures var t := Next(Next(Burst(n), Accept), Push); Enabled(t, WriteByte) && Next(t, WriteByte) == Burst(n + 1)
  {
    var a := Next(Burst(n), Accept);
    assert Index(a) == 0;
    var p := Next(a, Push);
    var t, u := Next(p, WriteByte), Burst(n + 1);
    assert seq(n, i => i) + [n] == seq(n + 1, i => i);
    assert t.placed == u.placed;
  }

  lemma Extend(run: seq<State>, steps: seq<Step>, step: Step)
    requires IsRun(run, steps) && Enabled(run[|steps|], step)
    ensures IsRun(run + [Next(run[|steps|], step)], steps + [step])
  {
    var more, taken := run + [Next(run[|steps|], step)], steps + [step];
    forall k: nat | k < |taken| ensures Taken(more, taken, k) {
      if k < |steps| {
        assert Taken(run, steps, k);
      }
    }
  }

  lemma {:induction false} BurstRun(n: nat) returns (run: seq<State>, steps: seq<Step>)
    requires n <= RING
    ensures IsRun(run, steps) && run[|steps|] == Burst(n)
  {
    if n == 0 {
      run, steps := [Burst(0)], [];
      assert seq(0, i => i) == [];
      assert Burst(0).placed == map[];
    } else {
      run, steps := BurstRun(n - 1);
      BurstGrows(n - 1);
      run, steps := Stepped(run, steps, Accept);
      run, steps := Stepped(run, steps, Push);
      run, steps := Stepped(run, steps, WriteByte);
    }
  }

  lemma Stepped(run: seq<State>, steps: seq<Step>, step: Step) returns (run': seq<State>, steps': seq<Step>)
    requires IsRun(run, steps) && Enabled(run[|steps|], step)
    ensures IsRun(run', steps') && run'[|steps'|] == Next(run[|steps|], step)
  {
    Extend(run, steps, step);
    run', steps' := run + [Next(run[|steps|], step)], steps + [step];
  }

  /** 65 connections before the worker wakes: it takes 64, and the last one is forgotten. */
  lemma LostWakeup() returns (run: seq<State>, steps: seq<Step>)
    ensures IsRun(run, steps) && |run[|steps|].workers| == 1 && Forgotten(run[|steps|], 0)
  {
    run, steps := BurstRun(BATCH + 1);
    run, steps := Stepped(run, steps, Wake(0));
    run, steps := Stepped(run, steps, ReadPipe(0));
    run, steps := Stepped(run, steps, ReadPipe(0));
    DrainForgetsIff(run[|steps|], 0);
    run, steps := Stepped(run, steps, Load(0));
    run, steps := Stepped(run, steps, Publish(0));
  }
}
