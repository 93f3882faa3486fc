/** The block pool: a freelist threaded through the free blocks' own memory, and buffers that own blocks. */
module BlockPool {
  import opened Bits
  import opened Options

  // ---- Sizes and addresses ----

  /** `(n + a - 1) & ~(a - 1)`. */
  function AlignUp(n: nat, a: nat): int
    requires a > 0
  {
    n + a - 1 - And(n + a - 1, a - 1)
  }

  lemma RoundDown(x: int, a: nat)
    requires a > 0
    ensures (x - x % a) % a == 0
  {
    var q := x / a;
    assert x - x % a == q * a + 0;
    ModUnique(x - x % a, q, 0, a);
  }

  /** For a power of two, the least multiple not below. */
  lemma AlignUpIsLeastMultiple(n: nat, a: nat, e: nat)
    requires a == Pow2(e) && a > 0
    ensures AlignUp(n, a) % a == 0 && n <= AlignUp(n, a) < n + a
  {
    var x := n + a - 1;
    var low := And(x, a - 1);
    assert low == x % a by { MaskIsMod(x, e); }
    RoundDown(x, a);
  }

  /** The address of block `i`. */
  function Addr(base: int, size: nat, i: int): int
  {
    base + i * size
  }

  lemma MulGap(a: nat, b: nat, size: nat)
    requires a < b
    ensures a * size + size <= b * size
  {
    var d: nat := b - a - 1;
    assert b * size == (a + 1 + d) * size == a * size + size + d * size;
  }

  /** Blocks do not overlap and lie in the pool. */
  lemma BlocksApart(base: int, size: nat, count: nat, i: nat, j: nat)
    requires i < j < count
    ensures Addr(base, size, i) + size <= Addr(base, size, j)
    ensures base <= Addr(base, size, i) && Addr(base, size, j) + size <= base + count * size
  {
    MulGap(i, j, size);
    MulGap(j, count, size);
  }

  lemma BlocksAligned(base: int, size: nat, i: int, a: nat)
    requires a > 0 && base % a == 0 && size % a == 0
    ensures Addr(base, size, i) % a == 0
  {
    var p, q := base / a, size / a;
    assert i * (q * a) == (i * q) * a;
    assert Addr(base, size, i) == p * a + (i * q) * a == (p + i * q) * a + 0;
    ModUnique(Addr(base, size, i), p + i * q, 0, a);
  }

  // ---- The freelist in memory ----

  /** `mem` is the first word of every block; 0 is the null pointer. */
  datatype Pool = Pool(mem: map<int, int>, freelist: int, inUse: int)

  /** From `head`, the words lead through exactly these blocks and end in null. */
  ghost predicate Linked(mem: map<int, int>, head: int, free: seq<int>)
    decreases |free|
  {
    if free == [] then head == 0
    else head == free[0] && head != 0 && head in mem && Linked(mem, mem[head], free[1..])
  }

  ghost predicate NoneTwice(xs: seq<int>)
  {
    forall i, j | 0 <= i < j < |xs| :: xs[i] != xs[j]
  }

  ghost function Members(xs: seq<int>): set<int>
  {
    set x | x in xs
  }

  /** Each block is free once or live, and not both. */
  ghost predicate Parts(all: set<int>, free: seq<int>, live: set<int>)
  {
    NoneTwice(free) && 0 !in all && forall x :: (x in all <==> x in free || x in live) && !(x in free && x in live)
  }

  /** The list is acyclic, free and live blocks partition the pool, and the counter counts the live ones. */
  ghost predicate Inv(p: Pool, all: set<int>, free: seq<int>, live: set<int>)
  {
    Linked(p.mem, p.freelist, free) && (forall x :: x in p.mem <==> x in all) && Parts(all, free, live) && p.inUse == |live|
  }

  function TakeBlock(p: Pool): (Pool, int)
    requires p.freelist == 0 || p.freelist in p.mem
  {
    if p.freelist == 0 then (p, 0)
    else (Pool(p.mem, p.mem[p.freelist], p.inUse + 1), p.freelist)
  }

  function GiveBack(p: Pool, ptr: int): Pool
  {
    if ptr == 0 then p else Pool(p.mem[ptr := p.freelist], ptr, p.inUse - 1)
  }

  /** A write elsewhere does not change the list. */
  lemma {:induction false} LinkedElsewhere(mem: map<int, int>, head: int, free: seq<int>, ptr: int, word: int)
    requires Linked(mem, head, free) && ptr !in free
    ensures Linked(mem[ptr := word], head, free)
    decreases |free|
  {
    if free != [] {
      LinkedElsewhere(mem, mem[head], free[1..], ptr, word);
    }
  }

  lemma {:induction false} SizeOfMembers(xs: seq<int>)
    requires NoneTwice(xs)
    ensures |Members(xs)| == |xs|
  {
    if xs == [] {
      assert Members(xs) == {};
    } else {
      SizeOfMembers(xs[1..]);
      assert Members(xs) == {xs[0]} + Members(xs[1..]);
    }
  }

  /** The counter and the freelist's length are always the number of blocks. */
  lemma CountsAddUp(p: Pool, all: set<int>, free: seq<int>, live: set<int>)
    requires Inv(p, all, free, live)
    ensures p.inUse + |free| == |all| && (p.freelist == 0 <==> p.inUse == |all|)
  {
    SizeOfMembers(free);
    forall x ensures x in Members(free) + live <==> x in all {
      assert x in all <==> x in free || x in live;
    }
    assert Members(free) * live == {} && Members(free) + live == all;
    assert |Members(free) + live| == |Members(free)| + |live|;
  }

  /** Null exactly when no block is free; otherwise a free block becomes live and the rest of the list stays. */
  lemma AllocateKeeps(p: Pool, all: set<int>, free: seq<int>, live: set<int>)
    requires Inv(p, all, free, live)
    ensures var (q, ptr) := TakeBlock(p);
            if free == [] then ptr == 0 && q == p
            else ptr == free[0] && ptr in all && ptr !in live && Inv(q, all, free[1..], live + {ptr})
    ensures TakeBlock(p).1 == 0 <==> live == all
  {
    forall x ensures x in all <==> x in free || x in live {}
    assert free == [] ==> live == all;
    assert free != [] ==> free[0] in free && free[0] in all;
    if free != [] {
      LiveOne(all, free, live);
    }
  }

  lemma LiveOne(all: set<int>, free: seq<int>, live: set<int>)
    requires Parts(all, free, live) && free != []
    ensures var ptr := free[0]; ptr in all && ptr !in live && Parts(all, free[1..], live + {ptr})
  {
    var ptr, rest := free[0], free[1..];
    forall x ensures x in free <==> x == ptr || x in rest {
      assert free == [ptr] + rest;
    }
    assert ptr !in rest;
  }

  lemma LinkTop(words: map<int, int>, head: int, rest: seq<int>, hdr: int)
    requires hdr != 0 && hdr !in rest && Linked(words, head, rest)
    ensures Linked(words[hdr := head], hdr, [hdr] + rest)
  {
    LinkedElsewhere(words, head, rest, hdr, head);
    assert ([hdr] + rest)[1..] == rest;
  }

  lemma FreeOne(all: set<int>, free: seq<int>, live: set<int>, ptr: int)
    requires Parts(all, free, live) && ptr in live
    ensures Parts(all, [ptr] + free, live - {ptr}) && ptr != 0 && ptr !in free && ptr in all
  {
    forall x ensures x in [ptr] + free <==> x == ptr || x in free {}
  }

  /** A live block goes in front of the list. */
  lemma DeallocateKeeps(p: Pool, all: set<int>, free: seq<int>, live: set<int>, ptr: int)
    requires Inv(p, all, free, live) && ptr in live
    ensures Inv(Pool(p.mem[ptr := p.freelist], ptr, p.inUse - 1), all, [ptr] + free, live - {ptr})
  {
    FreeOne(all, free, live, ptr);
    LinkTop(p.mem, p.freelist, free, ptr);
  }

  /** What the owner writes into a live block leaves the pool alone. */
  lemma WriteKeeps(p: Pool, all: set<int>, free: seq<int>, live: set<int>, ptr: int, word: int)
    requires Inv(p, all, free, live) && ptr in live
    ensures Inv(p.(mem := p.mem[ptr := word]), all, free, live)
  {
    assert ptr in all && ptr !in free;
    LinkedElsewhere(p.mem, p.freelist, free, ptr, word);
  }

  // ---- The pool in place ----

  ghost function AllBlocks(base: int, size: nat, count: nat): set<int>
  {
    set i | 0 <= i < count :: Addr(base, size, i)
  }

  /** The order in which the constructor links the blocks: the last one in front. */
  ghost function Down(base: int, size: nat, count: nat): (r: seq<int>)
    ensures |r| == count
  {
    if count == 0 then [] else [Addr(base, size, count - 1)] + Down(base, size, count - 1)
  }

  lemma {:induction false} DownIsAll(base: int, size: nat, count: nat)
    requires size > 0
    ensures NoneTwice(Down(base, size, count)) && Members(Down(base, size, count)) == AllBlocks(base, size, count)
  {
    if count == 0 {
      assert Members(Down(base, size, 0)) == {};
    } else {
      var n := count - 1;
      var rest, top := Down(base, size, n), Addr(base, size, n);
      DownIsAll(base, size, n);
      forall x | x in rest ensures x != top {
        assert x in Members(rest);
        var i :| 0 <= i < n && x == Addr(base, size, i);
        BlocksApart(base, size, count, i, n);
      }
      AddBlock(base, size, n);
      assert Members([top] + rest) == {top} + Members(rest);
    }
  }

  lemma AddBlock(base: int, size: nat, n: nat)
    ensures AllBlocks(base, size, n + 1) == AllBlocks(base, size, n) + {Addr(base, size, n)}
  {
    forall x | x in AllBlocks(base, size, n + 1) ensures x in AllBlocks(base, size, n) + {Addr(base, size, n)} {
      var i :| 0 <= i < n + 1 && x == Addr(base, size, i);
    }
  }

  /** The pool owns each of its blocks to the last byte. */
  lemma OwnsBlocks(base: int, size: nat, count: nat, ptr: int, k: nat)
    requires ptr in AllBlocks(base, size, count) && k < size
    ensures base <= ptr + k < base + count * size
  {
    var i :| 0 <= i < count && ptr == Addr(base, size, i);
    MulGap(i, count, size);
  }

  /** On a base aligned to a cache line, so is every block. */
  ghost predicate CacheAligned(base: int, all: set<int>)
  {
    base % 64 == 0 ==> forall ptr | ptr in all :: ptr % 64 == 0
  }

  lemma AllAligned(base: int, size: nat, count: nat)
    requires size % 64 == 0
    ensures CacheAligned(base, AllBlocks(base, size, count))
  {
    if base % 64 == 0 {
      forall ptr | ptr in AllBlocks(base, size, count) ensures ptr % 64 == 0 {
        var i :| 0 <= i < count && ptr == Addr(base, size, i);
        BlocksAligned(base, size, i, 64);
      }
    }
  }

  class HugePagePool {
    const base: int
    const blockSize: nat
    const numBlocks: nat
    /** The addresses of all blocks. */
    ghost const all: set<int>
    /** The first word of every block. */
    var mem: map<int, int>
    var freelist: int
    var inUse: int
    ghost var free: seq<int>
    ghost var live: set<int>

    ghost predicate Valid()
      reads this
    {
      Inv(Pool(mem, freelist, inUse), all, free, live) && CacheAligned(base, all)
    }

    /** `base` is where the mapping lies. */
    constructor (base: int, requested: nat, count: nat)
      requires base > 0
      ensures Valid() && live == {} && this.base == base && numBlocks == count
      ensures all == AllBlocks(base, blockSize, count) && blockSize % 64 == 0 && requested <= blockSize && 8 <= blockSize
    {
      var wanted := if requested < 8 then 8 else requested;
      assert Pow2(6) == 64;
      AlignUpIsLeastMultiple(wanted, 64, 6);
      var size := AlignUp(wanted, 64);
      this.base := base;
      blockSize := size;
      numBlocks := count;
      all := AllBlocks(base, size, count);
      var words: map<int, int>, head := map[], 0;
      for i := 0 to count
        invariant Linked(words, head, Down(base, size, i)) && words.Keys == AllBlocks(base, size, i)
      {
        var hdr := Addr(base, size, i);
        LinkBlock(base, size, i, words, head);
        words := words[hdr := head];
        head := hdr;
      }
      AllAligned(base, size, count);
      DownIsAll(base, size, count);
      forall x ensures x in Down(base, size, count) <==> x in AllBlocks(base, size, count) {
        assert x in Down(base, size, count) <==> x in Members(Down(base, size, count));
      }
      mem, freelist, inUse := words, head, 0;
      free, live := Down(base, size, count), {};
      forall x | x in AllBlocks(base, size, count) ensures x != 0 {
        OwnsBlocks(base, size, count, x, 0);
      }
    }

    /** Null exactly when every block is live; otherwise a block nobody holds, untouched from then on by the pool. */
    method Allocate() returns (ptr: int)
      requires Valid()
      modifies this
      ensures Valid() && (ptr == 0 <==> old(live) == all)
      ensures live == if ptr == 0 then old(live) else old(live) + {ptr}
      ensures ptr != 0 ==> ptr in all && ptr !in old(live)
      ensures base % 64 == 0 ==> ptr % 64 == 0
    {
      ghost var p := Pool(mem, freelist, inUse);
      AllocateKeeps(p, all, free, live);
      if freelist == 0 {
        return 0;
      }
      ptr := freelist;
      freelist := mem[ptr];
      inUse := inUse + 1;
      live := live + {ptr};
      free := free[1..];
      assert Pool(mem, freelist, inUse) == TakeBlock(p).0;
    }

    method Deallocate(ptr: int)
      requires Valid() && (ptr == 0 || ptr in live)
      modifies this
      ensures Valid() && live == if ptr == 0 then old(live) else old(live) - {ptr}
    {
      if ptr == 0 {
        return;
      }
      DeallocateKeeps(Pool(mem, freelist, inUse), all, free, live, ptr);
      mem := mem[ptr := freelist];
      freelist := ptr;
      inUse := inUse - 1;
      free, live := [ptr] + free, live - {ptr};
    }
  }

  lemma AddrIsPositive(base: int, size: nat, i: nat)
    requires base > 0
    ensures Addr(base, size, i) > 0
  {
    if i > 0 {
      MulGap(0, i, size);
    }
  }

  lemma HeadIsNew(top: int, rest: seq<int>)
    requires NoneTwice([top] + rest)
    ensures top !in rest
  {
    var xs := [top] + rest;
    forall k | 0 <= k < |rest| ensures rest[k] != top {
      assert xs[0] != xs[k + 1];
    }
  }

  lemma LinkBlock(base: int, size: nat, i: nat, words: map<int, int>, head: int)
    requires base > 0 && size > 0 && Linked(words, head, Down(base, size, i)) && words.Keys == AllBlocks(base, size, i)
    ensures var hdr := Addr(base, size, i);
            Linked(words[hdr := head], hdr, Down(base, size, i + 1)) && words[hdr := head].Keys == AllBlocks(base, size, i + 1)
  {
    DownIsAll(base, size, i + 1);
    HeadIsNew(Addr(base, size, i), Down(base, size, i));
    AddrIsPositive(base, size, i);
    LinkTop(words, head, Down(base, size, i), Addr(base, size, i));
    AddBlock(base, size, i);
  }

  // ---- Buffers that own blocks ----

  /** A buffer and the block it holds, 0 for none. */
  datatype Buffer = Buffer(pooled: bool, data: int)

  /** `free` is history: the freelist as a sequence. */
  datatype State = State(pool: Pool, buffers: map<nat, Buffer>, free: seq<int>)

  datatype Step = New(id: nat) | Empty(id: nat) | Move(id: nat, from: nat) | Assign(id: nat, from: nat) | Destroy(id: nat)
    | Write(id: nat, word: int)

  const NOTHING := Buffer(false, 0)

  predicate Enabled(s: State, step: Step)
  {
    match step
    case New(id) => id !in s.buffers && (s.pool.freelist == 0 || s.pool.freelist in s.pool.mem)
    case Empty(id) => id !in s.buffers
    case Move(id, from) => id !in s.buffers && from in s.buffers
    case Assign(id, from) => id in s.buffers && from in s.buffers
    case Destroy(id) => id in s.buffers
    case Write(id, word) => id in s.buffers && Owns(s.buffers[id])
  }

  predicate Owns(b: Buffer)
  {
    b.pooled && b.data != 0
  }

  /** The block a step gives back to the pool; 0 for none. */
  function Released(s: State, step: Step): int
    requires Enabled(s, step)
  {
    match step
    case Destroy(id) => if Owns(s.buffers[id]) then s.buffers[id].data else 0
    case Assign(id, from) => if id != from && Owns(s.buffers[id]) then s.buffers[id].data else 0
    case _ => 0
  }

  /** The block goes back to the pool, if there is one. */
  function GivenBack(s: State, ptr: int): State
  {
    if ptr == 0 then s else s.(pool := GiveBack(s.pool, ptr), free := [ptr] + s.free)
  }

  function Next(s: State, step: Step): State
    requires Enabled(s, step)
  {
    var t := GivenBack(s, Released(s, step));
    match step
    case New(id) =>
      var (q, ptr) := TakeBlock(s.pool);
      State(q, s.buffers[id := Buffer(true, ptr)], if ptr == 0 || s.free == [] then s.free else s.free[1..])
    case Empty(id) => t.(buffers := s.buffers[id := NOTHING])
    case Move(id, from) => t.(buffers := s.buffers[from := NOTHING][id := s.buffers[from]])
    case Assign(id, from) => if id == from then t else t.(buffers := s.buffers[from := NOTHING][id := s.buffers[from]])
    case Destroy(id) => t.(buffers := s.buffers - {id})
    case Write(id, word) => t.(pool := s.pool.(mem := s.pool.mem[s.buffers[id].data := word]))
  }

  /** The blocks the buffers hold. */
  ghost function Held(buffers: map<nat, Buffer>): set<int>
  {
    set id | id in buffers && Owns(buffers[id]) :: buffers[id].data
  }

  ghost predicate SoleOwners(buffers: map<nat, Buffer>)
  {
    forall a, b | a in buffers && b in buffers && a != b && Owns(buffers[a]) && Owns(buffers[b]) :: buffers[a].data != buffers[b].data
  }

  /** Every live block is held by exactly one buffer. */
  ghost predicate Owned(s: State, all: set<int>)
  {
    SoleOwners(s.buffers) && Inv(s.pool, all, s.free, Held(s.buffers))
  }

  lemma HeldWith(buffers: map<nat, Buffer>, id: nat, b: Buffer)
    requires id !in buffers
    ensures Held(buffers[id := b]) == Held(buffers) + if Owns(b) then {b.data} else {}
  {
    var more := buffers[id := b];
    forall x | x in Held(buffers) ensures x in Held(more) {
      var k :| k in buffers && Owns(buffers[k]) && buffers[k].data == x;
      assert more[k] == buffers[k];
    }
    assert Owns(b) ==> more[id].data in Held(more);
  }

  lemma HeldWithout(buffers: map<nat, Buffer>, id: nat)
    requires id in buffers && SoleOwners(buffers)
    ensures SoleOwners(buffers - {id})
    ensures Held(buffers - {id}) == Held(buffers) - if Owns(buffers[id]) then {buffers[id].data} else {}
  {
    var less := buffers - {id};
    forall x | x in Held(buffers) && !(Owns(buffers[id]) && x == buffers[id].data) ensures x in Held(less) {
      var k :| k in buffers && Owns(buffers[k]) && buffers[k].data == x;
      assert k in less && less[k] == buffers[k];
    }
  }

  /** Giving back a buffer's block, if it owns one, and forgetting the buffer. */
  lemma DestroyKeeps(s: State, all: set<int>, id: nat)
    requires Owned(s, all) && id in s.buffers
    ensures Owned(Next(s, Destroy(id)), all)
    ensures Released(s, Destroy(id)) != 0 ==> Released(s, Destroy(id)) in Held(s.buffers)
  {
    HeldWithout(s.buffers, id);
    if Owns(s.buffers[id]) {
      DeallocateKeeps(s.pool, all, s.free, Held(s.buffers), s.buffers[id].data);
    }
  }

  lemma NewKeeps(s: State, all: set<int>, id: nat)
    requires Owned(s, all) && Enabled(s, New(id))
    ensures Owned(Next(s, New(id)), all)
  {
    var (q, ptr) := TakeBlock(s.pool);
    AllocateKeeps(s.pool, all, s.free, Held(s.buffers));
    HeldWith(s.buffers, id, Buffer(true, ptr));
    forall a | a in s.buffers && Owns(s.buffers[a]) ensures s.buffers[a].data in Held(s.buffers) {}
  }

  /** A move hands the block over: what is held, and that it is held once, does not change. */
  lemma HandOver(buffers: map<nat, Buffer>, from: nat, id: nat)
    requires from in buffers && id !in buffers && SoleOwners(buffers)
    ensures var moved := buffers[from := NOTHING][id := buffers[from]]; SoleOwners(moved) && Held(moved) == Held(buffers)
  {
    var b := buffers[from];
    var less := buffers - {from};
    HeldWithout(buffers, from);
    HeldWith(less, from, NOTHING);
    var mid := less[from := NOTHING];
    HeldWith(mid, id, b);
    assert buffers[from := NOTHING] == mid;
    assert Owns(b) ==> b.data in Held(buffers);
  }

  /** A move assignment gives the old block back, then takes the other's over; onto itself it does nothing. */
  lemma AssignKeeps(s: State, all: set<int>, id: nat, from: nat)
    requires Owned(s, all) && id in s.buffers && from in s.buffers
    ensures Owned(Next(s, Assign(id, from)), all)
    ensures Released(s, Assign(id, from)) != 0 ==> Released(s, Assign(id, from)) in Held(s.buffers)
  {
    if id != from {
      DestroyKeeps(s, all, id);
      var t := Next(s, Destroy(id));
      HandOver(t.buffers, from, id);
      assert t.buffers[from := NOTHING][id := t.buffers[from]] == s.buffers[from := NOTHING][id := s.buffers[from]];
    }
  }

  lemma OwnerWriteKeeps(s: State, all: set<int>, id: nat, word: int)
    requires Owned(s, all) && id in s.buffers && Owns(s.buffers[id])
    ensures Owned(Next(s, Write(id, word)), all)
  {
    assert s.buffers[id].data in Held(s.buffers);
    WriteKeeps(s.pool, all, s.free, Held(s.buffers), s.buffers[id].data, word);
  }

  lemma StepKeeps(s: State, all: set<int>, step: Step)
    requires Owned(s, all) && Enabled(s, step)
    ensures Owned(Next(s, step), all)
    ensures Released(s, step) != 0 ==> Released(s, step) in Held(s.buffers)
  {
    match step
    case New(id) => NewKeeps(s, all, id);
    case Empty(id) => HeldWith(s.buffers, id, NOTHING);
    case Move(id, from) => HandOver(s.buffers, from, id);
    case Destroy(id) => DestroyKeeps(s, all, id);
    case Assign(id, from) => AssignKeeps(s, all, id, from);
    case Write(id, word) => OwnerWriteKeeps(s, all, id, word);
  }

  ghost predicate IsRun(run: seq<State>, steps: seq<Step>, all: set<int>)
  {
    && |run| == |steps| + 1 && run[0].buffers == map[] && Inv(run[0].pool, all, run[0].free, {})
    && forall k: nat | k < |steps| :: Taken(run, steps, k)
  }

  ghost predicate Taken(run: seq<State>, steps: seq<Step>, k: nat)
    requires k < |steps| && |run| == |steps| + 1
  {
    Enabled(run[k], steps[k]) && run[k + 1] == Next(run[k], steps[k])
  }

  /** In every state of every run each live block has exactly one owner. */
  lemma {:induction false} RunKeeps(run: seq<State>, steps: seq<Step>, all: set<int>, k: nat)
    requires IsRun(run, steps, all) && k <= |steps|
    ensures Owned(run[k], all)
  {
    if k == 0 {
      assert Held(run[0].buffers) == {};
    } else {
      RunKeeps(run, steps, all, k - 1);
      assert Taken(run, steps, k - 1);
      StepKeeps(run[k - 1], all, steps[k - 1]);
    }
  }

  /** So a block given back is always live, no buffer holds it afterwards, and with the last buffer gone all blocks are free. */
  lemma ReleasedOnce(run: seq<State>, steps: seq<Step>, all: set<int>, k: nat)
    requires IsRun(run, steps, all) && k < |steps|
    ensures Enabled(run[k], steps[k])
    ensures var ptr := Released(run[k], steps[k]);
            ptr != 0 ==> ptr in Held(run[k].buffers) && ptr !in Held(run[k + 1].buffers) && ptr in run[k + 1].free
    ensures run[k + 1].buffers == map[] ==> run[k + 1].pool.inUse == 0 && |run[k + 1].free| == |all|
  {
    assert Taken(run, steps, k);
    RunKeeps(run, steps, all, k);
    RunKeeps(run, steps, all, k + 1);
    StepKeeps(run[k], all, steps[k]);
    CountsAddUp(run[k + 1].pool, all, run[k + 1].free, Held(run[k + 1].buffers));
  }

  // ---- Where a block goes ----

  /** Who holds the block of buffer `h` after a step; nobody if it was given back. */
  function Passes(h: nat, step: Step): Option<nat>
  {
    match step
    case Move(id, from) => Some(if from == h then id else h)
    case Assign(id, from) => if id == from then Some(h) else if from == h then Some(id) else if id == h then None else Some(h)
    case Destroy(id) => if id == h then None else Some(h)
    case _ => Some(h)
  }

  /** A step hands the block on, whole, or gives it back; a buffer moved from holds nothing. */
  lemma StepPasses(s: State, step: Step, h: nat)
    requires Enabled(s, step) && h in s.buffers && Owns(s.buffers[h])
    ensures var t, b := Next(s, step), Passes(h, step);
            if b.Some? then b.value in t.buffers && t.buffers[b.value] == s.buffers[h] && (b.value != h ==> t.buffers[h] == NOTHING)
            else Released(s, step) == s.buffers[h].data
  {}

  /** Who holds it after steps `i` to `n`. */
  function Holder(steps: seq<Step>, h: nat, i: nat, n: nat): Option<nat>
    requires i <= n <= |steps|
    decreases n - i
  {
    if i == n then Some(h)
    else if Passes(h, steps[i]).None? then None
    else Holder(steps, Passes(h, steps[i]).value, i + 1, n)
  }

  /** Over every run the block of a buffer is where its moves and assignments have taken it, until it is given back. */
  lemma {:induction false} BlockFollowsMoves(run: seq<State>, steps: seq<Step>, all: set<int>, h: nat, i: nat, n: nat)
    requires IsRun(run, steps, all) && i <= n <= |steps| && h in run[i].buffers && Owns(run[i].buffers[h])
    ensures var b := Holder(steps, h, i, n);
            if b.Some? then b.value in run[n].buffers && run[n].buffers[b.value] == run[i].buffers[h]
            else exists k: nat | i <= k < n :: Frees(run, steps, k, run[i].buffers[h].data)
    decreases n - i
  {
    if i < n {
      assert Taken(run, steps, i);
      StepPasses(run[i], steps[i], h);
      var b := Passes(h, steps[i]);
      if b.Some? {
        BlockFollowsMoves(run, steps, all, b.value, i + 1, n);
      } else {
        assert Frees(run, steps, i, run[i].buffers[h].data);
      }
    }
  }

  ghost predicate Frees(run: seq<State>, steps: seq<Step>, k: nat, ptr: int)
  {
    k < |steps| && k < |run| && Enabled(run[k], steps[k]) && Released(run[k], steps[k]) == ptr
  }

  /** A new buffer gets a block nobody held, or none exactly if every block is held. */
  lemma NewGetsBlock(run: seq<State>, steps: seq<Step>, all: set<int>, k: nat)
    requires IsRun(run, steps, all) && k < |steps| && steps[k].New?
    ensures var id := steps[k].id;
            && id in run[k + 1].buffers && run[k + 1].buffers[id].pooled
            && var ptr := run[k + 1].buffers[id].data; (ptr == 0 <==> Held(run[k].buffers) == all) && ptr !in Held(run[k].buffers)
  {
    assert Taken(run, steps, k);
    RunKeeps(run, steps, all, k);
    AllocateKeeps(run[k].pool, all, run[k].free, Held(run[k].buffers));
  }
}
