/** Whole runs of a heap: allocations and releases in any order. */
module HeapRun {
  import opened Machine
  import opened FreeList

  /** The free list and the blocks handed out and not yet released. */
  datatype Heap = Heap(free: seq<Block>, live: set<Block>)

  ghost predicate Owned(live: set<Block>, x: int) { exists b :: b in live && In(b, x) }

  predicate Clear(b: Block, c: Block) { End(b) <= c.addr || End(c) <= b.addr }

  /** Every byte of the memory the heap started with, the list f0, is free or in exactly one
      live block, and the list is canonical with all sizes and addresses multiples of eight. */
  ghost predicate Sound(h: Heap, f0: seq<Block>) {
    && Canonical(h.free) && Aligned(h.free)
    && (forall b :: b in h.live ==> 0 < b.len && b.addr % 8 == 0 && b.len % 8 == 0)
    && (forall b, c :: b in h.live && c in h.live && b != c ==> Clear(b, c))
    && (forall x {:trigger Covers(h.free, x)} {:trigger Owned(h.live, x)} ::
          (Covers(f0, x) <==> Covers(h.free, x) || Owned(h.live, x)) && !(Covers(h.free, x) && Owned(h.live, x)))
  }

  /** A stack is taken with getstk; freestk releases it like any other block. */
  datatype Op = Gets(nbytes: int) | GetsStack(nbytes: int) | Frees(block: Block, size: int)

  /** A release names a live block and a size that rounds to its length; a stack's size is a
      multiple of eight once rounded to words. */
  predicate Allowed(h: Heap, op: Op) {
    match op
    case Gets(n) => 0 < n <= WORDS32 - 8
    case GetsStack(n) => 0 < n <= WORDS32 - 8 && RoundEw(n) % 8 == 0
    case Frees(b, size) => b in h.live && 0 < size < WORDS32 && RoundMb(size) == b.len
  }

  function Do(h: Heap, op: Op): Heap
    requires Allowed(h, op)
  {
    match op
    case Gets(n) =>
      (match Get(h.free, n)
       case None => h
       case Some((a, g)) => Heap(g, h.live + {Block(a, RoundMb(n))}))
    case GetsStack(n) =>
      (match GetStk(h.free, n)
       case None => h
       case Some((p, g)) => Heap(g, h.live + {StackBlock(p, RoundEw(n))}))
    case Frees(b, _) =>
      match Give(h.free, b)
      case None => h
      case Some(g) => Heap(g, h.live - {b})
  }

  lemma GetAligned(f: seq<Block>, n: int)
    requires Aligned(f) && 0 < n < WORDS32 && Get(f, n).Some?
    ensures Get(f, n).value.0 % 8 == 0 && Aligned(Get(f, n).value.1)
  {
  }

  lemma GiveAligned(f: seq<Block>, c: Block)
    requires Aligned(f) && c.addr % 8 == 0 && c.len % 8 == 0 && Give(f, c).Some?
    ensures Aligned(Give(f, c).value)
  {
    hide Below;
    var k := Below(f, c.addr, 0);
    var g := JoinLow(f, k, c);
    assert Aligned(g);
  }

  lemma OwnedMore(live: set<Block>, b: Block, x: int)
    ensures Owned(live + {b}, x) <==> Owned(live, x) || In(b, x)
  {
    if In(b, x) { assert b in live + {b}; }
    if Owned(live, x) {
      var c :| c in live && In(c, x);
      assert c in live + {b};
    }
  }

  lemma OwnedClear(live: set<Block>, b: Block, x: int)
    requires forall c :: c in live ==> Clear(b, c)
    ensures Owned(live, x) ==> !In(b, x)
  {
  }

  /** Blocks that share no byte are clear of each other. */
  lemma ClearIf(b: Block, c: Block)
    requires b.len > 0 && c.len > 0 && forall x :: In(b, x) ==> !In(c, x)
    ensures Clear(b, c)
  {
    assert In(b, b.addr) && In(c, c.addr);
    assert !In(c, b.addr) && !In(b, c.addr);
  }

  lemma GetStkAligned(f: seq<Block>, n: int)
    requires Aligned(f) && 0 < n <= WORDS32 - 8 && RoundEw(n) % 8 == 0 && GetStk(f, n).Some?
    ensures (GetStk(f, n).value.0 + 4) % 8 == 0 && Aligned(GetStk(f, n).value.1)
  {
    hide RoundEw, Aligned;
    var k := LastFit(f, RoundEw(n), |f|);
    CutHighAligned(f, k, RoundEw(n));
  }

  lemma CutHighAligned(f: seq<Block>, k: nat, n: int)
    requires Aligned(f) && k < |f| && n % 8 == 0
    ensures Aligned(CutHigh(f, k, n)) && End(f[k]) % 8 == 0
  {
  }

  /** Any way of turning free bytes into a live block keeps the heap sound. */
  lemma TakeSound(h: Heap, f0: seq<Block>, g: seq<Block>, b: Block)
    requires Sound(h, f0) && Canonical(g) && Aligned(g) && 0 < b.len && b.addr % 8 == 0 && b.len % 8 == 0
    requires forall x {:trigger In(b, x)} :: In(b, x) ==> Covers(h.free, x)
    requires forall x {:trigger Covers(g, x)} :: Covers(g, x) <==> Covers(h.free, x) && !In(b, x)
    ensures Sound(Heap(g, h.live + {b}), f0)
  {
    forall x
      ensures Owned(h.live + {b}, x) <==> Owned(h.live, x) || In(b, x)
    {
      OwnedMore(h.live, b, x);
    }
    forall c | c in h.live
      ensures Clear(b, c) && Clear(c, b)
    {
      forall x | In(b, x)
        ensures !In(c, x)
      {
        assert Covers(h.free, x) && !Owned(h.live, x);
      }
      ClearIf(b, c);
    }
  }

  lemma GetSound(h: Heap, f0: seq<Block>, n: int)
    requires Sound(h, f0) && 0 < n <= WORDS32 - 8
    ensures Sound(Do(h, Gets(n)), f0)
  {
    if Get(h.free, n).Some? {
      var (a, g) := Get(h.free, n).value;
      GetServes(h.free, n, 0);
      GetAligned(h.free, n);
      forall x
        ensures In(Block(a, RoundMb(n)), x) ==> Covers(h.free, x)
        ensures Covers(g, x) <==> Covers(h.free, x) && !In(Block(a, RoundMb(n)), x)
      {
        GetServes(h.free, n, x);
      }
      TakeSound(h, f0, g, Block(a, RoundMb(n)));
    }
  }

  /** What getstk takes, as a block. */
  lemma StackTaken(f: seq<Block>, n: int)
    requires Canonical(f) && Aligned(f) && 0 < n <= WORDS32 - 8 && RoundEw(n) % 8 == 0 && GetStk(f, n).Some?
    ensures
      var (p, g) := GetStk(f, n).value;
      var b := StackBlock(p, RoundEw(n));
      && Canonical(g) && Aligned(g) && 0 < b.len && b.addr % 8 == 0 && b.len % 8 == 0
      && (forall x {:trigger In(b, x)} :: In(b, x) ==> Covers(f, x))
      && (forall x {:trigger Covers(g, x)} :: Covers(g, x) <==> Covers(f, x) && !In(b, x))
  {
    hide GetStk, RoundEw, RoundMb, Covers, In, Canonical, Aligned, StackBlock;
    var (p, g) := GetStk(f, n).value;
    RoundEwUp(n);
    var b := StackBlock(p, RoundEw(n));
    StackBlockRight(p, n);
    GetStkServes(f, n, 0);
    GetStkAligned(f, n);
    forall x
      ensures In(b, x) ==> Covers(f, x)
      ensures Covers(g, x) <==> Covers(f, x) && !In(b, x)
    {
      GetStkServes(f, n, x);
    }
  }

  lemma GetStackSound(h: Heap, f0: seq<Block>, n: int)
    requires Sound(h, f0) && Allowed(h, GetsStack(n))
    ensures Sound(Do(h, GetsStack(n)), f0)
  {
    hide Sound, GetStk, RoundEw, Covers, In, Canonical, Aligned, StackBlock;
    SoundList(h, f0);
    if GetStk(h.free, n).Some? {
      var (p, g) := GetStk(h.free, n).value;
      RoundEwUp(n);
      StackTaken(h.free, n);
      TakeSound(h, f0, g, StackBlock(p, RoundEw(n)));
    }
  }

  lemma SoundList(h: Heap, f0: seq<Block>)
    requires Sound(h, f0)
    ensures Canonical(h.free) && Aligned(h.free)
  {
  }

  /** The release of a live block is never refused. */
  lemma NeverRefused(h: Heap, f0: seq<Block>, b: Block)
    requires Sound(h, f0) && b in h.live
    ensures Give(h.free, b).Some?
  {
    GiveRefuses(h.free, b);
    forall x | In(b, x)
      ensures !Covers(h.free, x)
    {
      assert Owned(h.live, x);
    }
  }

  lemma FreeSound(h: Heap, f0: seq<Block>, b: Block, size: int)
    requires Sound(h, f0) && Allowed(h, Frees(b, size))
    ensures Sound(Do(h, Frees(b, size)), f0)
  {
    hide Covers, Owned, Give, Canonical, Aligned, RoundMb;
    NeverRefused(h, f0, b);
    var g := Give(h.free, b).value;
    GiveAligned(h.free, b);
    GiveFrees(h.free, b, 0);
    var live := h.live - {b};
    assert live + {b} == h.live;
    forall x
      ensures Covers(g, x) <==> Covers(h.free, x) || In(b, x)
      ensures Owned(h.live, x) <==> Owned(live, x) || In(b, x)
      ensures Owned(live, x) ==> !In(b, x)
    {
      GiveFrees(h.free, b, x);
      OwnedMore(live, b, x);
      OwnedClear(live, b, x);
    }
  }

  lemma StepSound(h: Heap, f0: seq<Block>, op: Op)
    requires Sound(h, f0) && Allowed(h, op)
    ensures Sound(Do(h, op), f0)
  {
    match op
    case Gets(n) => GetSound(h, f0, n);
    case GetsStack(n) => GetStackSound(h, f0, n);
    case Frees(b, size) => FreeSound(h, f0, b, size);
  }

  /** Heap h2 has one live block more than h, of len bytes that were free. */
  ghost predicate Handed(h: Heap, h2: Heap, b: Block, len: int) {
    b !in h.live && b.len == len > 0 && h2.live == h.live + {b} && forall x {:trigger In(b, x)} :: In(b, x) ==> Covers(h.free, x)
  }

  /** The block ends where the last free block that is large enough ends. */
  ghost predicate AtTop(f: seq<Block>, b: Block) {
    exists k {:trigger f[k]} :: 0 <= k < |f| && LastThatFits(f, b.len, k) && End(f[k]) == End(b)
  }

  /** An operation serves a request exactly if some free block is large enough, a stack from
      the top of the last such block, and otherwise changes nothing; a release ends the life of
      exactly its block. */
  lemma StepServes(h: Heap, f0: seq<Block>, op: Op)
    requires Sound(h, f0) && Allowed(h, op)
    ensures op.Frees? ==> Do(h, op).live == h.live - {op.block}
    ensures op.Gets? ==>
      if exists k :: 0 <= k < |h.free| && h.free[k].len >= RoundMb(op.nbytes) then exists b :: Handed(h, Do(h, op), b, RoundMb(op.nbytes))
      else Do(h, op) == h
    ensures op.GetsStack? ==>
      if exists k :: 0 <= k < |h.free| && h.free[k].len >= RoundEw(op.nbytes) then
        exists b :: Handed(h, Do(h, op), b, RoundEw(op.nbytes)) && AtTop(h.free, b)
      else Do(h, op) == h
  {
    match op
    case Gets(n) => GetsHands(h, f0, n);
    case GetsStack(n) => StackHands(h, f0, n);
    case Frees(b, size) => NeverRefused(h, f0, b);
  }

  /** Free bytes are in no live block. */
  lemma NewBlock(h: Heap, f0: seq<Block>, b: Block)
    requires Sound(h, f0) && b.len > 0 && forall x {:trigger In(b, x)} :: In(b, x) ==> Covers(h.free, x)
    ensures b !in h.live
  {
    assert In(b, b.addr);
    if b in h.live { assert Owned(h.live, b.addr); }
  }

  lemma GetsHands(h: Heap, f0: seq<Block>, n: int)
    requires Sound(h, f0) && 0 < n <= WORDS32 - 8
    ensures
      if exists k :: 0 <= k < |h.free| && h.free[k].len >= RoundMb(n) then exists b :: Handed(h, Do(h, Gets(n)), b, RoundMb(n))
      else Do(h, Gets(n)) == h
  {
    hide Sound, Covers, In, Canonical, Aligned, Get;
    SoundList(h, f0);
    GetServes(h.free, n, 0);
    RoundMbGrows(n);
    if Get(h.free, n).Some? {
      var b := Block(Get(h.free, n).value.0, RoundMb(n));
      forall x | In(b, x)
        ensures Covers(h.free, x)
      {
        GetServes(h.free, n, x);
      }
      NewBlock(h, f0, b);
      assert Handed(h, Do(h, Gets(n)), b, RoundMb(n));
    }
  }

  lemma RoundMbGrows(n: int)
    requires 0 < n <= WORDS32 - 8
    ensures 0 < n <= RoundMb(n)
  {
  }

  lemma StackHands(h: Heap, f0: seq<Block>, n: int)
    requires Sound(h, f0) && Allowed(h, GetsStack(n))
    ensures
      if exists k :: 0 <= k < |h.free| && h.free[k].len >= RoundEw(n) then
        exists b :: Handed(h, Do(h, GetsStack(n)), b, RoundEw(n)) && AtTop(h.free, b)
      else Do(h, GetsStack(n)) == h
  {
    hide Sound, Covers, In, Canonical, Aligned, GetStk, RoundEw, StackBlock;
    SoundList(h, f0);
    GetStkServes(h.free, n, 0);
    if GetStk(h.free, n).Some? {
      var p := GetStk(h.free, n).value.0;
      RoundEwUp(n);
      StackTaken(h.free, n);
      var b := StackBlock(p, RoundEw(n));
      StackIs(p, n);
      NewBlock(h, f0, b);
      assert Handed(h, Do(h, GetsStack(n)), b, RoundEw(n)) && AtTop(h.free, b);
    }
  }

  lemma StackIs(p: int, n: int)
    requires 0 < n <= WORDS32 - 8 && RoundEw(n) % 8 == 0 && 0 <= RoundEw(n) < WORDS32
    ensures StackBlock(p, RoundEw(n)) == Block(p + 4 - RoundEw(n), RoundEw(n))
  {
  }

  /** A run of operations, each allowed where it happens. */
  ghost predicate IsRun(hs: seq<Heap>, ops: seq<Op>) {
    |hs| == |ops| + 1 && forall k :: 0 <= k < |ops| ==> Allowed(hs[k], ops[k]) && hs[k + 1] == Do(hs[k], ops[k])
  }

  lemma FreshSound(f0: seq<Block>)
    requires Canonical(f0) && Aligned(f0)
    ensures Sound(Heap(f0, {}), f0)
  {
  }

  lemma {:induction false} RunSound(hs: seq<Heap>, ops: seq<Op>, f0: seq<Block>, k: nat)
    requires IsRun(hs, ops) && Sound(hs[0], f0) && k < |hs|
    ensures Sound(hs[k], f0)
  {
    if k > 0 {
      RunSound(hs, ops, f0, k - 1);
      StepSound(hs[k - 1], f0, ops[k - 1]);
    }
  }

  /** After any run, the free list is the one list that covers what the live blocks leave;
      so once everything has been released, in whatever order, the heap is again the list it
      started with. */
  lemma AllReleased(hs: seq<Heap>, ops: seq<Op>, f0: seq<Block>)
    requires Canonical(f0) && Aligned(f0) && IsRun(hs, ops) && hs[0] == Heap(f0, {})
    ensures Sound(hs[|ops|], f0)
    ensures hs[|ops|].live == {} ==> hs[|ops|].free == f0
  {
    FreshSound(f0);
    RunSound(hs, ops, f0, |ops|);
    NothingLive(hs[|ops|], f0);
  }

  lemma NothingLive(h: Heap, f0: seq<Block>)
    requires Canonical(f0) && Sound(h, f0)
    ensures h.live == {} ==> h.free == f0
  {
    if h.live == {} {
      forall x
        ensures Covers(h.free, x) <==> Covers(f0, x)
      {
        assert !Owned(h.live, x);
      }
      CanonicalUnique(h.free, f0);
    }
  }

  /** Two runs that leave the same blocks live leave the same free list. */
  lemma SameLiveSameList(h: Heap, h2: Heap, f0: seq<Block>)
    requires Sound(h, f0) && Sound(h2, f0) && h.live == h2.live
    ensures h == h2
  {
    forall x
      ensures Covers(h.free, x) <==> Covers(h2.free, x)
    {
      assert Owned(h.live, x) == Owned(h2.live, x);
    }
    CanonicalUnique(h.free, h2.free);
  }

  /** The heap that vcreate starts a process with: n pages from virtual page 4096 on. */
  function FirstBlock(n: int): Block { Block(MIN_VPNO * NBPG, n * NBPG) }

  lemma FirstBlockRight(n: int)
    requires 1 <= n <= MAX_BS_PAGES
    ensures Canonical([FirstBlock(n)]) && Aligned([FirstBlock(n)]) && End(FirstBlock(n)) < WORDS32
  {
  }
}
