/**
 The registry of partition logs: 64 shards, each a map under its own lock, acting as one map. A call that
 holds a shard's lock is one step; an iteration takes one step a shard, with any steps of others in between.
 */
module ShardedMap {
  import opened Bytes

  datatype Key = Key(topic: seq<byte>, partition: int)

  // ---- The hash ----

  const OFFSET_BASIS: bv64 := 14695981039346656037
  const PRIME: bv64 := 1099511628211
  const SHARDS: nat := 64

  /** One round of FNV-1a. */
  function Mix(h: bv64, b: int): bv64
  {
    (h ^ ((b % P64) as bv64)) * PRIME
  }

  type Mixer = (bv64, int) -> bv64

  function Fold(mix: Mixer, s: seq<byte>): bv64
  {
    if s == [] then OFFSET_BASIS else mix(Fold(mix, s[..|s| - 1]), s[|s| - 1])
  }

  /** Topic bytes, then the partition as an unsigned 32-bit value. */
  function Hash(mix: Mixer, k: Key): bv64
  {
    mix(Fold(mix, k.topic), k.partition % P32)
  }

  lemma TimesPrime()
    ensures (OFFSET_BASIS ^ 97) * PRIME == 0xaf63dc4c8601ec8c
  {}

  lemma FoldOne(mix: Mixer, b: byte)
    ensures Fold(mix, [b]) == mix(OFFSET_BASIS, b)
  {
    assert [b][..0] == [];
  }

  /** The published FNV-1a value of the one-letter string "a". */
  lemma FnvOfA()
    ensures Fold(Mix, [97]) == 0xaf63dc4c8601ec8c
  {
    FoldOne(Mix, 97);
    TimesPrime();
    assert (97 % P64) as bv64 == 97;
  }

  method ComputeHash(mix: Mixer, k: Key) returns (h: bv64)
    ensures h == Hash(mix, k)
  {
    h := OFFSET_BASIS;
    for i := 0 to |k.topic|
      invariant h == Fold(mix, k.topic[..i])
    {
      assert k.topic[..i + 1][..i] == k.topic[..i];
      h := mix(h, k.topic[i]);
    }
    assert k.topic[..|k.topic|] == k.topic;
    h := mix(h, k.partition % P32);
  }

  /** The shard of a hash: its low six bits. */
  function Low(h: bv64): (i: nat)
    ensures i < SHARDS
  {
    (h & 63) as nat
  }

  /** Where a key lives. Nothing below depends on what the rounds of the hash compute. */
  function Shard(mix: Mixer, k: Key): (i: nat)
    ensures i < SHARDS
  {
    Low(Hash(mix, k))
  }

  // ---- Shards as one map ----

  /** A log's number stands for the log; each log created gets a new one. */
  type Shards = seq<map<Key, int>>

  /** Every key is in its own shard. */
  ghost predicate Placed(mix: Mixer, shards: Shards)
  {
    |shards| == SHARDS && forall i, k | 0 <= i < |shards| && k in shards[i] :: Shard(mix, k) == i
  }

  ghost predicate Has(shards: Shards, k: Key, v: int)
  {
    exists i: nat :: i < |shards| && k in shards[i] && shards[i][k] == v
  }

  /** `whole` is the one map the shards stand for. */
  ghost predicate Stands(shards: Shards, whole: map<Key, int>)
  {
    forall k: Key, v: int :: Has(shards, k, v) <==> k in whole && whole[k] == v
  }

  function Find(mix: Mixer, shards: Shards, k: Key): (found: bool)
    requires |shards| == SHARDS
  {
    k in shards[Shard(mix, k)]
  }

  function Put(mix: Mixer, shards: Shards, k: Key, v: int): Shards
    requires |shards| == SHARDS
  {
    var i := Shard(mix, k);
    if k in shards[i] then shards else shards[i := shards[i][k := v]]
  }

  function Drop(mix: Mixer, shards: Shards, k: Key): Shards
    requires |shards| == SHARDS
  {
    var i := Shard(mix, k);
    shards[i := shards[i] - {k}]
  }

  /** Looking only in a key's own shard is looking in the whole map. */
  lemma FindIsWhole(mix: Mixer, shards: Shards, whole: map<Key, int>, k: Key)
    requires Placed(mix, shards) && Stands(shards, whole)
    ensures Find(mix, shards, k) <==> k in whole
    ensures k in whole ==> shards[Shard(mix, k)][k] == whole[k]
  {
    var i := Shard(mix, k);
    if k in shards[i] {
      assert Has(shards, k, shards[i][k]);
    }
    if k in whole {
      assert Has(shards, k, whole[k]);
    }
  }

  lemma PutIsWhole(mix: Mixer, shards: Shards, whole: map<Key, int>, k: Key, v: int)
    requires Placed(mix, shards) && Stands(shards, whole)
    ensures Placed(mix, Put(mix, shards, k, v))
    ensures Stands(Put(mix, shards, k, v), if k in whole then whole else whole[k := v])
  {
    FindIsWhole(mix, shards, whole, k);
    var i, next := Shard(mix, k), Put(mix, shards, k, v);
    if k !in whole {
      var more := whole[k := v];
      forall c: Key, x: int ensures Has(next, c, x) <==> c in more && more[c] == x {
        assert Has(shards, c, x) <==> c in whole && whole[c] == x;
        if c != k {
          SameElsewhere(shards, next, i, c, x);
        } else {
          assert next[i][k] == v;
        }
      }
    }
  }

  lemma DropIsWhole(mix: Mixer, shards: Shards, whole: map<Key, int>, k: Key)
    requires Placed(mix, shards) && Stands(shards, whole)
    ensures Placed(mix, Drop(mix, shards, k)) && Stands(Drop(mix, shards, k), whole - {k})
  {
    var i, next := Shard(mix, k), Drop(mix, shards, k);
    forall c: Key, x: int ensures Has(next, c, x) <==> c in whole - {k} && (whole - {k})[c] == x {
      assert Has(shards, c, x) <==> c in whole && whole[c] == x;
      if c != k {
        SameElsewhere(shards, next, i, c, x);
      }
    }
  }

  lemma SameElsewhere(shards: Shards, next: Shards, i: nat, c: Key, x: int)
    requires |next| == |shards| && i < |shards| && (forall j | 0 <= j < |shards| && j != i :: next[j] == shards[j])
    requires (c in next[i] <==> c in shards[i]) && (c in next[i] ==> next[i][c] == shards[i][c])
    ensures Has(next, c, x) <==> Has(shards, c, x)
  {
    forall j: nat | j < |shards| ensures (c in next[j] && next[j][c] == x) <==> (c in shards[j] && shards[j][c] == x) {
      if j != i {
        assert next[j] == shards[j];
      }
    }
  }

  // ---- Iterations among other operations ----

  datatype Entry = Entry(key: Key, value: int)

  /** An iteration before shard `next`: the entries its callback saw, those it erased; `born`, history, is the first number still unused when it began. */
  datatype Iter = Iter(next: nat, visited: seq<Entry>, erased: seq<Entry>, born: int)

  datatype State = State(shards: Shards, unused: int, iters: map<nat, Iter>)

  /** `Sweep` is one shard of for_each or erase_if: its entries in some order, and which of them the predicate takes. */
  datatype Step = Create(key: Key) | Erase(key: Key) | Open(id: nat) | Sweep(id: nat, order: seq<Entry>, doomed: set<Key>)

  /** Each entry of the map once. */
  ghost predicate Enumerates(order: seq<Entry>, m: map<Key, int>)
  {
    && (forall i, j | 0 <= i < j < |order| :: order[i].key != order[j].key)
    && (forall e | e in order :: e.key in m && m[e.key] == e.value)
    && (forall k | k in m :: Entry(k, m[k]) in order)
  }

  function Chosen(order: seq<Entry>, doomed: set<Key>): seq<Entry>
  {
    if order == [] then []
    else
      var n := |order| - 1;
      Chosen(order[..n], doomed) + if order[n].key in doomed then [order[n]] else []
  }

  ghost predicate Init(s: State)
  {
    |s.shards| == SHARDS && (forall i | 0 <= i < SHARDS :: s.shards[i] == map[]) && s.unused == 0 && s.iters == map[]
  }

  ghost predicate Enabled(s: State, step: Step)
  {
    |s.shards| == SHARDS
    && match step
       case Create(k) => true
       case Erase(k) => true
       case Open(id) => id !in s.iters
       case Sweep(id, order, doomed) => id in s.iters && s.iters[id].next < SHARDS && Enumerates(order, s.shards[s.iters[id].next])
  }

  function SweepIter(it: Iter, order: seq<Entry>, doomed: set<Key>): Iter
  {
    Iter(it.next + 1, it.visited + order, it.erased + Chosen(order, doomed), it.born)
  }

  ghost function Next(mix: Mixer, s: State, step: Step): State
    requires Enabled(s, step)
  {
    match step
    case Create(k) => s.(shards := Put(mix, s.shards, k, s.unused), unused := s.unused + 1)
    case Erase(k) => s.(shards := Drop(mix, s.shards, k))
    case Open(id) => s.(iters := s.iters[id := Iter(0, [], [], s.unused)])
    case Sweep(id, order, doomed) =>
      var it := s.iters[id];
      s.(shards := s.shards[it.next := s.shards[it.next] - doomed], iters := s.iters[id := SweepIter(it, order, doomed)])
  }

  ghost predicate Below(shards: Shards, unused: int)
  {
    forall i, k | 0 <= i < |shards| && k in shards[i] :: shards[i][k] < unused
  }

  ghost predicate Distinct(es: seq<Entry>)
  {
    forall i, j | 0 <= i < j < |es| :: es[i].key != es[j].key
  }

  /** Keys seen are distinct and of shards already passed; what was erased was seen, and is not in the map. */
  ghost predicate IterInv(mix: Mixer, s: State, it: Iter)
  {
    && it.next <= SHARDS && it.born <= s.unused && Distinct(it.visited) && Distinct(it.erased)
    && (forall e | e in it.visited :: Shard(mix, e.key) < it.next && e.value < s.unused)
    && (forall e | e in it.erased :: e in it.visited && !Has(s.shards, e.key, e.value))
  }

  ghost predicate Inv(mix: Mixer, s: State)
  {
    Placed(mix, s.shards) && Below(s.shards, s.unused) && forall id | id in s.iters :: IterInv(mix, s, s.iters[id])
  }

  /** No step makes an entry with a number already given out. */
  lemma OldStayOut(mix: Mixer, s: State, step: Step, k: Key, v: int)
    requires Inv(mix, s) && Enabled(s, step) && v < s.unused && !Has(s.shards, k, v)
    ensures !Has(Next(mix, s, step).shards, k, v)
  {
    var t := Next(mix, s, step);
    forall i: nat | i < |t.shards| && k in t.shards[i] ensures t.shards[i][k] != v {
      if k in s.shards[i] {
        assert t.shards[i][k] == s.shards[i][k];
        assert s.shards[i][k] == v ==> Has(s.shards, k, v);
      }
    }
  }

  lemma {:induction false} ChosenAre(order: seq<Entry>, doomed: set<Key>)
    requires Distinct(order)
    ensures Distinct(Chosen(order, doomed))
    ensures forall e :: e in Chosen(order, doomed) <==> e in order && e.key in doomed
  {
    if order != [] {
      var n := |order| - 1;
      var init := order[..n];
      ChosenAre(init, doomed);
      forall e | e in init ensures e.key != order[n].key {
        var i :| 0 <= i < n && init[i] == e;
        assert order[i] == e;
      }
      assert order == init + [order[n]];
    }
  }

  lemma DistinctJoin(a: seq<Entry>, b: seq<Entry>)
    requires Distinct(a) && Distinct(b) && forall x, y | x in a && y in b :: x.key != y.key
    ensures Distinct(a + b)
  {}

  lemma SweepKeepsIter(mix: Mixer, s: State, id: nat, order: seq<Entry>, doomed: set<Key>)
    requires Inv(mix, s) && Enabled(s, Sweep(id, order, doomed))
    ensures var t := Next(mix, s, Sweep(id, order, doomed)); IterInv(mix, t, t.iters[id])
  {
    var step := Sweep(id, order, doomed);
    var it, t := s.iters[id], Next(mix, s, step);
    assert IterInv(mix, s, it);
    ChosenAre(order, doomed);
    var chosen := Chosen(order, doomed);
    forall e | e in order ensures Shard(mix, e.key) == it.next && e.value < s.unused {
      assert e.key in s.shards[it.next];
    }
    DistinctJoin(it.visited, order);
    DistinctJoin(it.erased, chosen);
    forall e | e in it.erased ensures !Has(t.shards, e.key, e.value) {
      OldStayOut(mix, s, step, e.key, e.value);
    }
    forall e | e in chosen ensures !Has(t.shards, e.key, e.value) {
      forall i: nat | i < |t.shards| ensures e.key !in t.shards[i] {
        if e.key in s.shards[i] {
          assert i == it.next;
        }
      }
    }
  }

  lemma IterStays(mix: Mixer, s: State, step: Step, id: nat)
    requires Inv(mix, s) && Enabled(s, step) && id in s.iters && !(step.Sweep? && step.id == id)
    ensures var t := Next(mix, s, step); id in t.iters && t.iters[id] == s.iters[id] && IterInv(mix, t, t.iters[id])
  {
    var it := s.iters[id];
    assert IterInv(mix, s, it);
    forall e | e in it.erased ensures !Has(Next(mix, s, step).shards, e.key, e.value) {
      OldStayOut(mix, s, step, e.key, e.value);
    }
  }

  lemma UpdateStays(mix: Mixer, shards: Shards, unused: int, i: nat, m: map<Key, int>, later: int)
    requires Placed(mix, shards) && Below(shards, unused) && unused <= later && i < SHARDS
    requires forall k | k in m :: Shard(mix, k) == i && m[k] < later
    ensures Placed(mix, shards[i := m]) && Below(shards[i := m], later)
  {}

  lemma ShardsStay(mix: Mixer, s: State, step: Step)
    requires Placed(mix, s.shards) && Below(s.shards, s.unused) && Enabled(s, step)
    ensures var t := Next(mix, s, step); Placed(mix, t.shards) && Below(t.shards, t.unused)
  {
    match step
    case Create(k) =>
      var i := Shard(mix, k);
      UpdateStays(mix, s.shards, s.unused, i, s.shards[i][k := s.unused], s.unused + 1);
    case Erase(k) =>
      var i := Shard(mix, k);
      UpdateStays(mix, s.shards, s.unused, i, s.shards[i] - {k}, s.unused);
    case Open(id) =>
    case Sweep(id, order, doomed) =>
      var i := s.iters[id].next;
      UpdateStays(mix, s.shards, s.unused, i, s.shards[i] - doomed, s.unused);
  }

  lemma StepKeeps(mix: Mixer, s: State, step: Step)
    requires Inv(mix, s) && Enabled(s, step)
    ensures Inv(mix, Next(mix, s, step))
  {
    var t := Next(mix, s, step);
    ShardsStay(mix, s, step);
    forall id | id in t.iters ensures IterInv(mix, t, t.iters[id]) {
      IterKept(mix, s, step, id);
    }
  }

  lemma IterKept(mix: Mixer, s: State, step: Step, id: nat)
    requires Inv(mix, s) && Enabled(s, step) && id in Next(mix, s, step).iters
    ensures var t := Next(mix, s, step); IterInv(mix, t, t.iters[id])
  {
    if step.Sweep? && step.id == id {
      SweepKeepsIter(mix, s, id, step.order, step.doomed);
    } else if id in s.iters {
      IterStays(mix, s, step, id);
    }
  }

  // ---- Whole runs ----

  ghost predicate IsRun(mix: Mixer, run: seq<State>, steps: seq<Step>)
  {
    && |run| == |steps| + 1 && Init(run[0])
    && forall k: nat | k < |steps| :: Taken(mix, run, steps, k)
  }

  ghost predicate Taken(mix: Mixer, run: seq<State>, steps: seq<Step>, k: nat)
    requires k < |steps| && |run| == |steps| + 1
  {
    Enabled(run[k], steps[k]) && run[k + 1] == Next(mix, run[k], steps[k])
  }

  /** In every reachable state each key is in its own shard, and every iteration has seen distinct keys and erased for good. */
  lemma {:induction false} RunKeeps(mix: Mixer, run: seq<State>, steps: seq<Step>, k: nat)
    requires IsRun(mix, run, steps) && k <= |steps|
    ensures Inv(mix, run[k])
  {
    if k > 0 {
      RunKeeps(mix, run, steps, k - 1);
      assert Taken(mix, run, steps, k - 1);
      StepKeeps(mix, run[k - 1], steps[k - 1]);
    }
  }

  /** The key is present with one of these numbers. */
  ghost predicate PresentAs(mix: Mixer, s: State, k: Key, values: iset<int>)
  {
    |s.shards| == SHARDS && k in s.shards[Shard(mix, k)] && s.shards[Shard(mix, k)][k] in values
  }

  ghost predicate Saw(it: Iter, k: Key, values: iset<int>)
  {
    exists e :: e in it.visited && e.key == k && e.value in values
  }

  lemma SweepSees(mix: Mixer, s: State, step: Step, k: Key, values: iset<int>)
    requires Enabled(s, step) && step.Sweep? && PresentAs(mix, s, k, values)
    requires var it := s.iters[step.id]; Shard(mix, k) < it.next ==> Saw(it, k, values)
    ensures var it := Next(mix, s, step).iters[step.id]; Shard(mix, k) < it.next ==> Saw(it, k, values)
  {
    var it, i := s.iters[step.id], Shard(mix, k);
    var next := SweepIter(it, step.order, step.doomed);
    if i == it.next {
      assert Entry(k, s.shards[i][k]) in next.visited;
    } else if i < it.next {
      var e :| e in it.visited && e.key == k && e.value in values;
      assert e in next.visited;
    }
  }

  /** An iteration has seen every key of the shards it has passed that was present all along. */
  lemma {:induction false} PassedIsSeen(mix: Mixer, run: seq<State>, steps: seq<Step>, a: nat, b: nat, id: nat, k: Key, values: iset<int>)
    requires IsRun(mix, run, steps) && a < b <= |steps| && steps[a] == Open(id)
    requires forall j | a <= j <= b :: PresentAs(mix, run[j], k, values)
    ensures id in run[b].iters && (Shard(mix, k) < run[b].iters[id].next ==> Saw(run[b].iters[id], k, values))
  {
    assert Taken(mix, run, steps, b - 1);
    if b - 1 > a {
      PassedIsSeen(mix, run, steps, a, b - 1, id, k, values);
      if steps[b - 1].Sweep? && steps[b - 1].id == id {
        SweepSees(mix, run[b - 1], steps[b - 1], k, values);
      }
    }
  }

  /**
   A whole iteration, whatever happens between its shards: no key is seen twice, and every key present from its first
   step to its last is seen, with one of the logs it had.
   */
  lemma IterationSeesAll(mix: Mixer, run: seq<State>, steps: seq<Step>, a: nat, b: nat, id: nat, k: Key, values: iset<int>)
    requires IsRun(mix, run, steps) && a < b <= |steps| && steps[a] == Open(id)
    requires id in run[b].iters && run[b].iters[id].next == SHARDS
    requires forall j | a <= j <= b :: PresentAs(mix, run[j], k, values)
    ensures Distinct(run[b].iters[id].visited) && Saw(run[b].iters[id], k, values)
  {
    RunKeeps(mix, run, steps, b);
    PassedIsSeen(mix, run, steps, a, b, id, k, values);
  }

  // ---- erase_if ----

  /** The sweeps of this iteration take exactly the entries of a predicate. */
  ghost predicate SweepsBy(run: seq<State>, steps: seq<Step>, id: nat, j: nat, p: Entry -> bool)
    requires j < |steps| && |run| == |steps| + 1
  {
    steps[j].Sweep? && steps[j].id == id && Enabled(run[j], steps[j]) ==>
      var m := run[j].shards[run[j].iters[id].next];
      forall k | k in m :: k in steps[j].doomed <==> p(Entry(k, m[k]))
  }

  /** In the shards passed, an entry of the predicate is one created since the iteration began. */
  ghost predicate Swept(s: State, it: Iter, p: Entry -> bool)
  {
    forall i, k | 0 <= i < it.next && i < |s.shards| && k in s.shards[i] && p(Entry(k, s.shards[i][k])) :: s.shards[i][k] >= it.born
  }

  /** An entry behind a step was there before, or has the next number. */
  lemma NewOrOld(mix: Mixer, s: State, step: Step, i: nat, k: Key)
    requires Enabled(s, step)
    requires var t := Next(mix, s, step); i < |t.shards| && k in t.shards[i]
    ensures var t := Next(mix, s, step); t.shards[i][k] == s.unused || (k in s.shards[i] && t.shards[i][k] == s.shards[i][k])
  {}

  lemma SweptStays(mix: Mixer, s: State, step: Step, id: nat, p: Entry -> bool)
    requires Enabled(s, step) && id in s.iters && Swept(s, s.iters[id], p) && s.iters[id].born <= s.unused
    requires step.Sweep? && step.id == id ==>
               var m := s.shards[s.iters[id].next]; forall k | k in m :: k in step.doomed <==> p(Entry(k, m[k]))
    ensures var t := Next(mix, s, step); id in t.iters && Swept(t, t.iters[id], p)
  {
    var t := Next(mix, s, step);
    forall i, k | 0 <= i < t.iters[id].next && i < |t.shards| && k in t.shards[i] && p(Entry(k, t.shards[i][k]))
      ensures t.shards[i][k] >= t.iters[id].born
    {
      NewOrOld(mix, s, step, i, k);
    }
  }

  lemma {:induction false} EraseIfSweeps(mix: Mixer, run: seq<State>, steps: seq<Step>, a: nat, b: nat, id: nat, p: Entry -> bool)
    requires IsRun(mix, run, steps) && a < b <= |steps| && steps[a] == Open(id)
    requires forall j: nat | a < j < b :: SweepsBy(run, steps, id, j, p)
    ensures id in run[b].iters && Swept(run[b], run[b].iters[id], p) && run[b].iters[id].born == run[a].unused
  {
    assert Taken(mix, run, steps, b - 1);
    if b - 1 > a {
      EraseIfSweeps(mix, run, steps, a, b - 1, id, p);
      RunKeeps(mix, run, steps, b - 1);
      assert SweepsBy(run, steps, id, b - 1, p) && IterInv(mix, run[b - 1], run[b - 1].iters[id]);
      SweptStays(mix, run[b - 1], steps[b - 1], id, p);
    }
  }

  /** After a whole erase_if, no entry of the predicate is left but those created since it began. */
  lemma EraseIfLeavesNone(mix: Mixer, run: seq<State>, steps: seq<Step>, a: nat, b: nat, id: nat, p: Entry -> bool, e: Entry)
    requires IsRun(mix, run, steps) && a < b <= |steps| && steps[a] == Open(id)
    requires forall j: nat | a < j < b :: SweepsBy(run, steps, id, j, p)
    requires id in run[b].iters && run[b].iters[id].next == SHARDS && p(e) && e.value < run[a].unused
    ensures !Has(run[b].shards, e.key, e.value)
  {
    RunKeeps(mix, run, steps, b);
    EraseIfSweeps(mix, run, steps, a, b, id, p);
  }

  // ---- The registry in place ----

  /** The entries of a shard, in some order. */
  method ListEntries(m: map<Key, int>) returns (order: seq<Entry>)
    ensures Enumerates(order, m)
  {
    order := [];
    var left := m.Keys;
    while left != {}
      invariant left <= m.Keys
      invariant forall i, j | 0 <= i < j < |order| :: order[i].key != order[j].key
      invariant forall e | e in order :: e.key in m && e.key !in left && m[e.key] == e.value
      invariant forall k | k in m && k !in left :: Entry(k, m[k]) in order
      decreases |left|
    {
      var k :| k in left;
      left := left - {k};
      order := order + [Entry(k, m[k])];
    }
  }

  /** What a predicate leaves of a map. */
  function Left(m: map<Key, int>, p: Entry -> bool): map<Key, int>
  {
    map k | k in m && !p(Entry(k, m[k])) :: m[k]
  }

  function Doomed(m: map<Key, int>, p: Entry -> bool): set<Key>
  {
    set k | k in m && p(Entry(k, m[k]))
  }

  function KeysOf(es: seq<Entry>): set<Key>
  {
    set e | e in es :: e.key
  }

  lemma KeysOfMore(es: seq<Entry>, e: Entry)
    ensures KeysOf(es + [e]) == KeysOf(es) + {e.key}
  {
    assert e in es + [e];
    forall k | k in KeysOf(es) ensures k in KeysOf(es + [e]) {
      var x :| x in es && x.key == k;
      assert x in es + [e];
    }
  }

  /** What is left when all that a predicate takes is gone. */
  lemma ErasedLeave(m: map<Key, int>, p: Entry -> bool, order: seq<Entry>, erased: seq<Entry>)
    requires Enumerates(order, m) && erased == Chosen(order, Doomed(m, p))
    ensures m - KeysOf(erased) == Left(m, p) && Distinct(erased)
    ensures forall e :: e in erased <==> e.key in m && m[e.key] == e.value && p(e)
  {
    ChosenAre(order, Doomed(m, p));
    forall k | k in m ensures k in KeysOf(erased) <==> p(Entry(k, m[k])) {
      assert Entry(k, m[k]) in order;
      if p(Entry(k, m[k])) {
        assert Entry(k, m[k]) in erased;
      }
    }
  }

  /** The erasing loop over one shard's entries. */
  method EraseEntries(m: map<Key, int>, p: Entry -> bool) returns (left: map<Key, int>, erased: seq<Entry>)
    ensures left == Left(m, p) && Distinct(erased)
    ensures forall e :: e in erased <==> e.key in m && m[e.key] == e.value && p(e)
  {
    var order := ListEntries(m);
    left, erased := m, [];
    for i := 0 to |order|
      invariant left == m - KeysOf(erased) && erased == Chosen(order[..i], Doomed(m, p))
    {
      assert order[..i + 1][..i] == order[..i];
      var e := order[i];
      assert e in order;
      if p(e) {
        KeysOfMore(erased, e);
        erased := erased + [e];
        left := left - {e.key};
      }
    }
    assert order[..|order|] == order;
    ErasedLeave(m, p, order, erased);
  }

  class ShardedLogMap {
    const mix: Mixer
    var shards: Shards
    var created: int
    /** The one map the shards stand for. */
    ghost var whole: map<Key, int>

    ghost predicate Valid()
      reads this
    {
      Placed(mix, shards) && Stands(shards, whole) && Below(shards, created)
    }

    constructor ()
      ensures Valid() && whole == map[]
    {
      mix := Mix;
      shards := seq(SHARDS, _ => map[]);
      created := 0;
      whole := map[];
    }

    method Find(k: Key) returns (found: bool, log: int)
      requires Valid()
      ensures found <==> k in whole
      ensures found ==> log == whole[k]
    {
      var h := ComputeHash(mix, k);
      FindIsWhole(mix, shards, whole, k);
      found := k in shards[Low(h)];
      log := if found then shards[Low(h)][k] else -1;
    }

    method GetOrCreate(k: Key) returns (log: int, isNew: bool)
      requires Valid()
      modifies this
      ensures Valid() && (isNew <==> k !in old(whole))
      ensures whole == (if isNew then old(whole)[k := log] else old(whole)) && k in whole && whole[k] == log
    {
      var h := ComputeHash(mix, k);
      FindIsWhole(mix, shards, whole, k);
      PutIsWhole(mix, shards, whole, k, created);
      isNew := k !in shards[Low(h)];
      if isNew {
        log := created;
        shards := shards[Low(h) := shards[Low(h)][k := log]];
        created := created + 1;
        whole := whole[k := log];
      } else {
        log := shards[Low(h)][k];
      }
    }

    method Erase(k: Key) returns (erased: bool)
      requires Valid()
      modifies this
      ensures Valid() && (erased <==> k in old(whole)) && whole == old(whole) - {k}
    {
      var h := ComputeHash(mix, k);
      FindIsWhole(mix, shards, whole, k);
      DropIsWhole(mix, shards, whole, k);
      erased := k in shards[Low(h)];
      shards := shards[Low(h) := shards[Low(h)] - {k}];
      whole := whole - {k};
    }

    /** With nobody in between: every entry once. */
    method ForEach() returns (visited: seq<Entry>)
      requires Valid()
      ensures Distinct(visited) && forall e :: e in visited <==> e.key in whole && whole[e.key] == e.value
    {
      visited := [];
      for i := 0 to SHARDS
        invariant Distinct(visited)
        invariant forall e :: e in visited <==> InFirst(shards, i, e)
      {
        var order := ListEntries(shards[i]);
        AddShard(mix, shards, i, visited, order);
        visited := visited + order;
      }
      FirstIsWhole(shards, whole);
    }

    /** With nobody in between: the entries of the predicate are erased and listed, each once, and the rest stays. */
    method EraseIf(p: Entry -> bool) returns (erased: seq<Entry>)
      requires Valid()
      modifies this
      ensures Valid() && whole == Left(old(whole), p)
      ensures Distinct(erased) && forall e :: e in erased <==> e.key in old(whole) && old(whole)[e.key] == e.value && p(e)
    {
      FirstIsWhole(shards, whole);
      erased := EraseShards(p);
      LeftIsWhole(mix, old(shards), whole, shards, p);
      whole := Left(whole, p);
    }

    method EraseShards(p: Entry -> bool) returns (erased: seq<Entry>)
      requires Placed(mix, shards)
      modifies this`shards
      ensures |shards| == SHARDS && forall j | 0 <= j < SHARDS :: shards[j] == Left(old(shards)[j], p)
      ensures Distinct(erased) && forall e :: e in erased <==> InFirst(old(shards), SHARDS, e) && p(e)
    {
      ghost var was := shards;
      erased := [];
      for i := 0 to SHARDS
        invariant |shards| == SHARDS && (forall j | 0 <= j < SHARDS :: shards[j] == if j < i then Left(was[j], p) else was[j])
        invariant Distinct(erased) && forall e :: e in erased <==> InFirst(was, i, e) && p(e)
      {
        var left, more := EraseEntries(shards[i], p);
        AddErased(mix, was, i, erased, more, p);
        erased := erased + more;
        shards := shards[i := left];
      }
    }
  }

  lemma FirstDiffers(mix: Mixer, shards: Shards, i: nat, x: Entry, k: Key)
    requires Placed(mix, shards) && i < SHARDS && InFirst(shards, i, x) && k in shards[i]
    ensures x.key != k
  {
    var j: nat :| j < i && j < |shards| && x.key in shards[j] && shards[j][x.key] == x.value;
    assert Shard(mix, x.key) == j && Shard(mix, k) == i;
  }

  lemma NextShard(shards: Shards, i: nat, e: Entry)
    requires i < |shards|
    ensures InFirst(shards, i + 1, e) <==> InFirst(shards, i, e) || (e.key in shards[i] && shards[i][e.key] == e.value)
  {}

  /** The entries of one more shard, or those of them a predicate takes, come behind those of the shards before. */
  lemma AddErased(mix: Mixer, shards: Shards, i: nat, done: seq<Entry>, more: seq<Entry>, p: Entry -> bool)
    requires Placed(mix, shards) && i < SHARDS && Distinct(done) && Distinct(more)
    requires forall e :: e in done <==> InFirst(shards, i, e) && p(e)
    requires forall e :: e in more <==> e.key in shards[i] && shards[i][e.key] == e.value && p(e)
    ensures Distinct(done + more) && forall e :: e in done + more <==> InFirst(shards, i + 1, e) && p(e)
  {
    forall x, y | x in done && y in more ensures x.key != y.key {
      FirstDiffers(mix, shards, i, x, y.key);
    }
    DistinctJoin(done, more);
    forall e ensures e in done + more <==> InFirst(shards, i + 1, e) && p(e) {
      NextShard(shards, i, e);
    }
  }

  lemma AddShard(mix: Mixer, shards: Shards, i: nat, done: seq<Entry>, order: seq<Entry>)
    requires Placed(mix, shards) && i < SHARDS && Distinct(done) && Enumerates(order, shards[i])
    requires forall e :: e in done <==> InFirst(shards, i, e)
    ensures Distinct(done + order) && forall e :: e in done + order <==> InFirst(shards, i + 1, e)
  {
    AddErased(mix, shards, i, done, order, _ => true);
  }

  lemma FirstIsWhole(shards: Shards, whole: map<Key, int>)
    requires |shards| == SHARDS && Stands(shards, whole)
    ensures forall e :: InFirst(shards, SHARDS, e) <==> e.key in whole && whole[e.key] == e.value
  {
    forall e: Entry ensures InFirst(shards, SHARDS, e) <==> e.key in whole && whole[e.key] == e.value {
      assert Has(shards, e.key, e.value) <==> e.key in whole && whole[e.key] == e.value;
    }
  }

  /** The entry is in one of the first `n` shards. */
  ghost predicate InFirst(shards: Shards, n: nat, e: Entry)
  {
    exists i: nat :: i < n && i < |shards| && e.key in shards[i] && shards[i][e.key] == e.value
  }

  lemma LeftIsWhole(mix: Mixer, was: Shards, whole: map<Key, int>, shards: Shards, p: Entry -> bool)
    requires Placed(mix, was) && Stands(was, whole) && |shards| == SHARDS
    requires forall j | 0 <= j < SHARDS :: shards[j] == Left(was[j], p)
    ensures Stands(shards, Left(whole, p))
  {
    forall k: Key, v: int ensures Has(shards, k, v) <==> k in Left(whole, p) && Left(whole, p)[k] == v {
      assert Has(was, k, v) <==> k in whole && whole[k] == v;
      if Has(shards, k, v) {
        var i: nat :| i < |shards| && k in shards[i] && shards[i][k] == v;
        assert k in was[i] && was[i][k] == v;
      }
      if Has(was, k, v) && !p(Entry(k, v)) {
        var i: nat :| i < |was| && k in was[i] && was[i][k] == v;
        assert k in shards[i];
      }
    }
  }
}
