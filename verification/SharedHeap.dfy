/** The heaps of several processes. The vmemlist field of a process entry is set nowhere, so it
    is null for everyone, and the word at address zero is the header of every process's list;
    the nodes lie in the process's own memory. */
module SharedHeap {
  import opened Machine
  import opened FreeList
  import opened HeapRun
  import opened MemList

  /** The nodes in the memory of one process. */
  datatype Nodes = Nodes(mnext: map<int, int>, mlen: map<int, int>)

  /** The one header word, and the memories. */
  datatype Heaps = Heaps(first: int, mem: Memories)

  type Memories = m: seq<Nodes> | |m| == NPROC witness seq(NPROC, _ => Nodes(map[], map[]))

  function View(s: Heaps, p: int): Words
    requires IsPid(p)
  {
    Words(s.first, s.mem[p].mnext, s.mem[p].mlen)
  }

  /** Following the links from the header, process p finds list f. */
  ghost predicate Sees(s: Heaps, p: int, f: seq<Block>) {
    IsPid(p) && Canonical(f) && Within(f, 1) && Spells(View(s, p), f)
  }

  /** `vcreate`, `vgetmem` and `vfreemem` of some process. */
  datatype Act = Spawns(pages: int) | Allocs(nbytes: int) | Releases(block: Block)

  /** What a call leaves of the list that its process sees. */
  function After(f: seq<Block>, a: Act): seq<Block>
    requires a.Allocs? ==> 0 <= a.nbytes < WORDS32
  {
    match a
    case Spawns(n) => [FirstBlock(n)]
    case Allocs(n) => (match Get(f, n) case None => f case Some((_, g)) => g)
    case Releases(b) => (match Give(f, b) case None => f case Some(g) => g)
  }

  predicate Callable(a: Act) {
    match a
    case Spawns(n) => 1 <= n <= MAX_BS_PAGES
    case Allocs(n) => 0 <= n < WORDS32
    case Releases(b) => 0 < b.addr && 0 < b.len && End(b) < WORDS32
  }

  /** Process q does a, from s to s2. The memories of the others stay. A process that sees a
      list works on it, and touches no other word of its memory; what one does that finds no
      list at the header is left open. */
  ghost predicate Acts(s: Heaps, q: int, a: Act, s2: Heaps) {
    && IsPid(q) && Callable(a) && s2.mem == s.mem[q := s2.mem[q]]
    && match a
       case Spawns(n) => Sees(s2, q, [FirstBlock(n)])
       case _ => forall f {:trigger Sees(s, q, f)} :: Sees(s, q, f) ==> Worked(s, q, f, a, s2)
  }

  ghost predicate Worked(s: Heaps, q: int, f: seq<Block>, a: Act, s2: Heaps)
    requires IsPid(q) && Callable(a)
  {
    Sees(s2, q, After(f, a)) && Elsewhere(View(s, q), View(s2, q), After(f, a))
  }

  // ------------------------------------------------------------------------ what is seen

  /** A process sees at most one list. */
  lemma {:induction false} SpelledOnce(w: Words, f: seq<Block>, g: seq<Block>, k: nat)
    requires Spells(w, f) && Spells(w, g) && Rising(f) && Rising(g) && k <= |f| && k <= |g| && f[..k] == g[..k]
    ensures f == g
    decreases |f| - k
  {
    assert NodeAt(f, k) == NodeAt(g, k) by {
      if k > 0 {
        assert f[k - 1] == f[..k][k - 1] == g[..k][k - 1] == g[k - 1];
        assert Holds(w, f, k - 1) && Holds(w, g, k - 1);
      }
    }
    if k < |f| && k < |g| {
      assert Holds(w, f, k) && Holds(w, g, k);
      assert f[..k + 1] == f[..k] + [f[k]] && g[..k + 1] == g[..k] + [g[k]];
      SpelledOnce(w, f, g, k + 1);
    } else {
      assert f == f[..k] && g == g[..k];
    }
  }

  lemma SeesOnce(s: Heaps, p: int, f: seq<Block>, g: seq<Block>)
    requires Sees(s, p, f) && Sees(s, p, g)
    ensures f == g
  {
    WithinRises(f, 1);
    WithinRises(g, 1);
    SpelledOnce(View(s, p), f, g, 0);
  }

  /** Two processes can both see lists only if these begin at one address. */
  lemma SameFront(s: Heaps, p: int, q: int, f: seq<Block>, g: seq<Block>)
    requires Sees(s, p, f) && Sees(s, q, g)
    ensures NodeAt(f, 0) == NodeAt(g, 0) == s.first
  {
  }

  /** A call of another process leaves p its list exactly when it leaves the header. */
  lemma OthersCall(s: Heaps, q: int, a: Act, s2: Heaps, p: int, f: seq<Block>)
    requires Acts(s, q, a, s2) && p != q && Sees(s, p, f)
    ensures Sees(s2, p, f) <==> s2.first == s.first
  {
    assert View(s2, p) == View(s, p).(first := s2.first);
    forall k | 0 <= k < |f|
      ensures Holds(View(s2, p), f, k)
    {
      assert Holds(View(s, p), f, k);
    }
  }

  /** What can be told before the call: a process with list f leaves the header exactly when
      it is not served from the first block, or does not release below that; vcreate leaves
      the header only if it happens to point to the beginning of a heap. */
  predicate LeavesHeader(first: int, f: seq<Block>, a: Act)
    requires Callable(a)
  {
    match a
    case Spawns(n) => first == MIN_VPNO * NBPG
    case Allocs(n) => n == 0 || RoundMb(n) == 0 || FirstFit(f, RoundMb(n), 0) == |f| || FirstFit(f, RoundMb(n), 0) > 0
    case Releases(b) => Give(f, b).None? || Below(f, b.addr, 0) > 0
  }

  lemma HeaderLeft(s: Heaps, q: int, a: Act, s2: Heaps, f: seq<Block>)
    requires Acts(s, q, a, s2) && (a.Spawns? || Sees(s, q, f))
    ensures s2.first == s.first <==> LeavesHeader(s.first, f, a)
  {
    match a
    case Spawns(n) => assert NodeAt([FirstBlock(n)], 0) == MIN_VPNO * NBPG;
    case Allocs(n) =>
      assert Worked(s, q, f, a, s2);
      GetsFront(f, n);
    case Releases(b) =>
      assert Worked(s, q, f, a, s2);
      FreesFront(f, b);
  }

  /** So what another process's call does to the list of p can be told before the call. */
  lemma OthersCallExactly(s: Heaps, q: int, a: Act, s2: Heaps, p: int, f: seq<Block>, g: seq<Block>)
    requires Acts(s, q, a, s2) && p != q && Sees(s, p, f) && (a.Spawns? || Sees(s, q, g))
    ensures Sees(s2, p, f) <==> LeavesHeader(s.first, g, a)
  {
    hide Sees, LeavesHeader;
    OthersCall(s, q, a, s2, p, f);
    HeaderLeft(s, q, a, s2, g);
  }

  lemma GetsFront(f: seq<Block>, n: int)
    requires Canonical(f) && Within(f, 1) && 0 <= n < WORDS32
    ensures NodeAt(After(f, Allocs(n)), 0) == NodeAt(f, 0) <==> LeavesHeader(0, f, Allocs(n))
  {
  }

  lemma FreesFront(f: seq<Block>, b: Block)
    requires Canonical(f) && Within(f, 1) && Callable(Releases(b))
    ensures NodeAt(After(f, Releases(b)), 0) == NodeAt(f, 0) <==> LeavesHeader(0, f, Releases(b))
  {
  }

  // ------------------------------------------------------------------------ whole runs

  datatype Call = Call(pid: int, act: Act)

  /** Calls of several processes, one after the other. */
  ghost predicate IsSharedRun(ss: seq<Heaps>, cs: seq<Call>) {
    |ss| == |cs| + 1 && forall k :: 0 <= k < |cs| ==> Acts(ss[k], cs[k].pid, cs[k].act, ss[k + 1])
  }

  /** The heap a call would leave if its process had a header of its own. */
  function Mine(h: Heap, a: Act): Heap
    requires Callable(a)
  {
    match a
    case Spawns(n) => h
    case Allocs(n) =>
      (match Get(h.free, n)
       case None => h
       case Some((x, g)) => Heap(g, h.live + {Block(x, RoundMb(n))}))
    case Releases(b) =>
      match Give(h.free, b)
      case None => h
      case Some(g) => Heap(g, h.live - {b})
  }

  /** The heap process p would have after k calls if it had a header of its own. */
  ghost function Own(cs: seq<Call>, p: int, h0: Heap, k: nat): Heap
    requires k <= |cs| && forall j :: 0 <= j < |cs| ==> Callable(cs[j].act)
  {
    if k == 0 then h0
    else if cs[k - 1].pid != p then Own(cs, p, h0, k - 1)
    else Mine(Own(cs, p, h0, k - 1), cs[k - 1].act)
  }

  lemma OwnCall(s: Heaps, p: int, a: Act, s2: Heaps, h: Heap)
    requires Acts(s, p, a, s2) && !a.Spawns? && Sees(s, p, h.free)
    ensures Sees(s2, p, Mine(h, a).free)
  {
    assert Worked(s, p, h.free, a, s2);
  }

  lemma RunCallable(ss: seq<Heaps>, cs: seq<Call>)
    requires IsSharedRun(ss, cs)
    ensures forall j :: 0 <= j < |cs| ==> Callable(cs[j].act)
  {
    forall j | 0 <= j < |cs|
      ensures Callable(cs[j].act)
    {
      assert Acts(ss[j], cs[j].pid, cs[j].act, ss[j + 1]);
    }
  }

  /** A process finds its own list at every point of a run exactly when no call of another
      process changes the header word. */
  lemma {:induction false} KeepsItsList(ss: seq<Heaps>, cs: seq<Call>, p: int, h0: Heap, k: nat)
    requires IsSharedRun(ss, cs) && k <= |cs| && Sees(ss[0], p, h0.free)
    requires forall j :: 0 <= j < k && cs[j].pid == p ==> !cs[j].act.Spawns?
    ensures forall j :: 0 <= j < |cs| ==> Callable(cs[j].act)
    ensures
      (forall j :: 0 <= j <= k ==> Sees(ss[j], p, Own(cs, p, h0, j).free)) <==>
      (forall j :: 0 <= j < k && cs[j].pid != p ==> ss[j + 1].first == ss[j].first)
  {
    hide Acts, Sees, Callable;
    RunCallable(ss, cs);
    if k > 0 {
      KeepsItsList(ss, cs, p, h0, k - 1);
      var h, c := Own(cs, p, h0, k - 1), cs[k - 1];
      assert Acts(ss[k - 1], c.pid, c.act, ss[k]);
      if Sees(ss[k - 1], p, h.free) {
        if c.pid == p {
          OwnCall(ss[k - 1], p, c.act, ss[k], h);
        } else {
          OthersCall(ss[k - 1], c.pid, c.act, ss[k], p, h.free);
        }
      }
    }
  }

  /** The calls of p ask for something and release what it holds. */
  ghost predicate Proper(cs: seq<Call>, p: int, h0: Heap, k: nat)
    requires k <= |cs| && forall j :: 0 <= j < |cs| ==> Callable(cs[j].act)
  {
    forall j :: 0 <= j < k && cs[j].pid == p ==>
      match cs[j].act
      case Spawns(_) => false
      case Allocs(n) => 0 < n <= WORDS32 - 8
      case Releases(b) => b in Own(cs, p, h0, j).live
  }

  lemma MineIsDone(h: Heap, a: Act, f0: seq<Block>)
    requires Sound(h, f0) && Callable(a)
    requires match a case Spawns(_) => false case Allocs(n) => 0 < n <= WORDS32 - 8 case Releases(b) => b in h.live
    ensures Sound(Mine(h, a), f0)
  {
    hide Sound, RoundMb, Get, Give;
    match a
    case Allocs(n) => GetSound(h, f0, n);
    case Releases(b) =>
      LiveLength(h, f0, b);
      FreeSound(h, f0, b, b.len);
  }

  lemma LiveLength(h: Heap, f0: seq<Block>, b: Block)
    requires Sound(h, f0) && b in h.live && 0 < b.addr && End(b) < WORDS32
    ensures 0 < b.len < WORDS32 && RoundMb(b.len) == b.len
  {
    hide Canonical, Aligned, Covers, Owned, Clear, RoundMb;
    EightsRound(b.len);
  }

  lemma EightsRound(n: int)
    requires 0 <= n < WORDS32 && n % 8 == 0
    ensures RoundMb(n) == n
  {
    assert (n + 7) / 8 == n / 8;
  }

  lemma {:induction false} OwnSound(cs: seq<Call>, p: int, h0: Heap, f0: seq<Block>, k: nat)
    requires k <= |cs| && (forall j :: 0 <= j < |cs| ==> Callable(cs[j].act)) && Proper(cs, p, h0, k) && Sound(h0, f0)
    ensures Sound(Own(cs, p, h0, k), f0)
  {
    hide Sound;
    if k > 0 {
      OwnSound(cs, p, h0, f0, k - 1);
      if cs[k - 1].pid == p { MineIsDone(Own(cs, p, h0, k - 1), cs[k - 1].act, f0); }
    }
  }

  /** The heap of a process made by vcreate: as long as no call of another process changes the
      header word, its list is canonical and covers what its live blocks leave; and when
      everything has been released it is the single initial block. */
  lemma ProcessHeapRestored(ss: seq<Heaps>, cs: seq<Call>, p: int, n: int, k: nat)
    requires 1 <= n <= MAX_BS_PAGES && IsSharedRun(ss, cs) && k <= |cs| && Sees(ss[0], p, [FirstBlock(n)])
    requires (forall j :: 0 <= j < |cs| ==> Callable(cs[j].act)) && Proper(cs, p, Heap([FirstBlock(n)], {}), k)
    requires forall j :: 0 <= j < k && cs[j].pid != p ==> ss[j + 1].first == ss[j].first
    ensures
      var h := Own(cs, p, Heap([FirstBlock(n)], {}), k);
      && Sound(h, [FirstBlock(n)]) && Sees(ss[k], p, h.free)
      && (h.live == {} ==> Sees(ss[k], p, [FirstBlock(n)]))
  {
    hide Acts, Sees, Callable, Sound;
    var h0 := Heap([FirstBlock(n)], {});
    FirstBlockRight(n);
    FreshSound([FirstBlock(n)]);
    NoSpawn(cs, p, h0, k);
    KeepsItsList(ss, cs, p, h0, k);
    OwnSound(cs, p, h0, [FirstBlock(n)], k);
    NothingLive(Own(cs, p, h0, k), [FirstBlock(n)]);
  }

  /** In particular when no other process is vcreated, allocates or releases meanwhile. */
  lemma LeftAlone(ss: seq<Heaps>, cs: seq<Call>, p: int, n: int, k: nat)
    requires 1 <= n <= MAX_BS_PAGES && IsSharedRun(ss, cs) && k <= |cs| && Sees(ss[0], p, [FirstBlock(n)])
    requires (forall j :: 0 <= j < |cs| ==> Callable(cs[j].act)) && Proper(cs, p, Heap([FirstBlock(n)], {}), k)
    requires forall j :: 0 <= j < k ==> cs[j].pid == p
    ensures
      var h := Own(cs, p, Heap([FirstBlock(n)], {}), k);
      Sees(ss[k], p, h.free) && (h.live == {} ==> Sees(ss[k], p, [FirstBlock(n)]))
  {
    hide Acts, Sees, Callable, Sound;
    ProcessHeapRestored(ss, cs, p, n, k);
  }

  lemma NoSpawn(cs: seq<Call>, p: int, h0: Heap, k: nat)
    requires k <= |cs| && (forall j :: 0 <= j < |cs| ==> Callable(cs[j].act)) && Proper(cs, p, h0, k)
    ensures forall j :: 0 <= j < k && cs[j].pid == p ==> !cs[j].act.Spawns?
  {
    forall j | 0 <= j < k && cs[j].pid == p
      ensures !cs[j].act.Spawns?
    {
    }
  }

  // ----------------------------------------------------------- what happens otherwise

  const BASE: int := MIN_VPNO * NBPG

  /** A memory whose words spell one block, and one in which the first eight bytes of that
      block have been handed out. */
  function Whole(n: int): Nodes { Nodes(map[BASE := NULL], map[BASE := n * NBPG]) }

  function Begun(n: int): Nodes {
    Nodes(map[BASE := NULL, BASE + 8 := NULL], map[BASE := n * NBPG, BASE + 8 := n * NBPG - 8])
  }

  function Rest(n: int): Block { Block(BASE + 8, n * NBPG - 8) }

  lemma GetsEight(n: int)
    requires 1 <= n <= MAX_BS_PAGES
    ensures Get([FirstBlock(n)], 8) == Some((BASE, [Rest(n)])) && After([FirstBlock(n)], Allocs(8)) == [Rest(n)]
  {
    assert RoundMb(8) == 8;
    assert CutLow([FirstBlock(n)], 0, 8) == [Rest(n)];
  }

  lemma SpelledWhole(s: Heaps, p: int, n: int)
    requires IsPid(p) && 1 <= n <= MAX_BS_PAGES && s.first == BASE && (s.mem[p] == Whole(n) || s.mem[p] == Begun(n))
    ensures Sees(s, p, [FirstBlock(n)])
  {
    FirstBlockRight(n);
    assert Holds(View(s, p), [FirstBlock(n)], 0);
  }

  lemma SpelledRest(s: Heaps, p: int, n: int)
    requires IsPid(p) && 1 <= n <= MAX_BS_PAGES && s.first == BASE + 8 && s.mem[p] == Begun(n)
    ensures Sees(s, p, [Rest(n)])
  {
    assert Holds(View(s, p), [Rest(n)], 0);
  }

  lemma ActsSpawn(s: Heaps, q: int, n: int, s2: Heaps)
    requires IsPid(q) && 1 <= n <= MAX_BS_PAGES && s2 == Heaps(BASE, s.mem[q := Whole(n)])
    ensures Acts(s, q, Spawns(n), s2)
  {
    SpelledWhole(s2, q, n);
  }

  lemma ActsEight(s: Heaps, q: int, n: int, s2: Heaps)
    requires IsPid(q) && 1 <= n <= MAX_BS_PAGES && s.first == BASE && s.mem[q] == Whole(n)
    requires s2 == Heaps(BASE + 8, s.mem[q := Begun(n)])
    ensures Acts(s, q, Allocs(8), s2)
  {
    SpelledWhole(s, q, n);
    SpelledRest(s2, q, n);
    GetsEight(n);
    forall f: seq<Block> | Sees(s, q, f)
      ensures Worked(s, q, f, Allocs(8), s2)
    {
      SeesOnce(s, q, f, [FirstBlock(n)]);
      forall x | NoNode([Rest(n)], x)
        ensures SameAt(View(s, q), View(s2, q), x)
      {
        assert [Rest(n)][0].addr == BASE + 8;
      }
    }
  }

  lemma FrontHeld(s: Heaps, p: int, f: seq<Block>)
    requires s.first != NULL
    ensures Sees(s, p, f) ==> s.first in s.mem[p].mnext
  {
    if Sees(s, p, f) { assert Holds(View(s, p), f, 0); }
  }

  /** Two processes with heaps of n and m pages. The second allocates eight bytes, and the
      first, which holds nothing, no longer has its initial block. */
  lemma SecondHeapTakesOver(s0: Heaps, n: int, m: int)
    requires 1 <= n <= MAX_BS_PAGES && 1 <= m <= MAX_BS_PAGES
    ensures
      var s1 := Heaps(BASE, s0.mem[1 := Whole(n)]);
      var s2 := Heaps(BASE, s1.mem[2 := Whole(m)]);
      var s3 := Heaps(BASE + 8, s2.mem[2 := Begun(m)]);
      && Acts(s0, 1, Spawns(n), s1) && Acts(s1, 2, Spawns(m), s2) && Acts(s2, 2, Allocs(8), s3)
      && Sees(s1, 1, [FirstBlock(n)]) && forall f: seq<Block> :: !Sees(s3, 1, f)
  {
    var s1 := Heaps(BASE, s0.mem[1 := Whole(n)]);
    var s2 := Heaps(BASE, s1.mem[2 := Whole(m)]);
    var s3 := Heaps(BASE + 8, s2.mem[2 := Begun(m)]);
    ActsSpawn(s0, 1, n, s1);
    ActsSpawn(s1, 2, m, s2);
    ActsEight(s2, 2, m, s3);
    SpelledWhole(s1, 1, n);
    forall f: seq<Block>
      ensures !Sees(s3, 1, f)
    {
      FrontHeld(s3, 1, f);
    }
  }

  /** The first allocates eight bytes and the second is vcreated; the next allocation of the
      first hands out the same eight bytes again. */
  lemma HandedOutTwice(s0: Heaps, n: int, m: int)
    requires 1 <= n <= MAX_BS_PAGES && 1 <= m <= MAX_BS_PAGES
    ensures
      var s1 := Heaps(BASE, s0.mem[1 := Whole(n)]);
      var s2 := Heaps(BASE + 8, s1.mem[1 := Begun(n)]);
      var s3 := Heaps(BASE, s2.mem[2 := Whole(m)]);
      && Acts(s0, 1, Spawns(n), s1) && Acts(s1, 1, Allocs(8), s2) && Acts(s2, 2, Spawns(m), s3)
      && Sees(s2, 1, [Rest(n)]) && Sees(s3, 1, [FirstBlock(n)])
      && Mine(Heap([FirstBlock(n)], {}), Allocs(8)) == Heap([Rest(n)], {Block(BASE, 8)})
      && Get([FirstBlock(n)], 8).Some? && Get([FirstBlock(n)], 8).value.0 == BASE
  {
    var s1 := Heaps(BASE, s0.mem[1 := Whole(n)]);
    var s2 := Heaps(BASE + 8, s1.mem[1 := Begun(n)]);
    var s3 := Heaps(BASE, s2.mem[2 := Whole(m)]);
    ActsSpawn(s0, 1, n, s1);
    ActsEight(s1, 1, n, s2);
    ActsSpawn(s2, 2, m, s3);
    SpelledRest(s2, 1, n);
    SpelledWhole(s3, 1, n);
    GetsEight(n);
    assert RoundMb(8) == 8;
  }
}
