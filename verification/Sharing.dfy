/** Processes that share a store: when a mapping is granted, and that each sees what the
    other stores. */
module Sharing {
  import opened Machine
  import opened BackingStore
  import opened Frames
  import opened PagingInv
  import opened FreeFrame
  import opened Replacement
  import opened GetFrame
  import opened PageFault
  import opened FaultStep
  import opened Switch
  import opened Lifecycle
  import opened Death
  import opened Birth
  import opened HeapBirth
  import opened PagingRun

  // ------------------------------------------------------------------ when a map succeeds

  /** A request within the limits is granted exactly when the store is closed, or open with at
      least that many pages. */
  lemma MapSucceeds(bsm: StoreMap, p: int, v: int, b: int, n: int)
    ensures Map(bsm, p, v, b, n).Some? <==>
      && 0 <= b < MAX_NUM_BS && 1 <= n <= MAX_BS_PAGES && MIN_VPNO <= v <= MAX_VPNO
      && (bsm[b].mapped ==> n <= bsm[b].npages)
  {
  }

  /** xmmap refuses private stores besides, and nothing else. */
  lemma XmmapSucceeds(s: State, v: int, b: int, n: int)
    requires IsPid(s.cur)
    ensures Xmmap(s, v, b, n).Some? <==>
      && 0 <= b < MAX_NUM_BS && 1 <= n <= MAX_BS_PAGES && MIN_VPNO <= v <= MAX_VPNO && !s.bsm[b].priv
      && (s.bsm[b].mapped ==> n <= s.bsm[b].npages)
    ensures Xmmap(s, v, b, n).Some? ==>
      var s2 := Xmmap(s, v, b, n).value;
      && s2.proc[s.cur].store == PUBLIC && s2.cur == s.cur && s2.frm == s.frm && s2.phys == s.phys
      && forall q :: IsPid(q) && q != s.cur ==> s2.proc[q] == s.proc[q]
  {
  }

  /** xmunmap succeeds exactly on a page that the process has mapped. Afterwards the process
      counts as one on public stores exactly if it did before and still maps one; its heap and
      all other processes stay as they are. */
  lemma XmunmapSucceeds(s: State, v: int)
    requires IsPid(s.cur)
    ensures Xmunmap(s, v).Some? <==>
      MIN_VPNO <= v <= MAX_VPNO && exists b, k {:trigger IsMap(s.bsm, b, k)} :: IsMap(s.bsm, b, k) && Covers(s.bsm[b].maps[k], s.cur, v)
    ensures Xmunmap(s, v).Some? ==>
      var s2 := Xmunmap(s, v).value;
      && s2.proc == s.proc[s.cur := s.proc[s.cur].(store := s2.proc[s.cur].store)] && s2.cur == s.cur
      && (s2.proc[s.cur].store == PUBLIC || s2.proc[s.cur].store == NO_STORE)
      && (s2.proc[s.cur].store == PUBLIC <==>
            s.proc[s.cur].store == PUBLIC
            && exists b, k {:trigger IsMap(s2.bsm, b, k)} :: IsMap(s2.bsm, b, k) && !s2.bsm[b].priv && s2.bsm[b].maps[k].pid == s.cur)
  {
    hide FreePages, Unmap;
    var h := Lookup(s.bsm, s.cur, v);
    if h.Some? { assert IsMap(s.bsm, h.value.store, h.value.pos); }
  }

  // ------------------------------------------------------------------- the size of a store

  /** Stores that stay open keep their size and whether they are private. */
  ghost predicate SizesKept(bsm: StoreMap, bsm2: StoreMap) {
    forall b {:trigger bsm2[b]} :: 0 <= b < MAX_NUM_BS && bsm2[b].mapped ==>
      bsm[b].mapped && bsm2[b].npages == bsm[b].npages && bsm2[b].priv == bsm[b].priv
  }

  lemma BsmUnmapSizes(s: State, p: int, v: int)
    ensures SizesKept(s.bsm, BsmUnmap(s, p, v).bsm)
  {
    hide Lookup, FreePages;
    if Unmappable(s, p, v) { LookupCovers(s.bsm, p, v); }
  }

  lemma UnmapThenFreeSizes(s: State, p: int, v: int, b: int)
    ensures SizesKept(s.bsm, UnmapThenFree(s, p, v, b).bsm)
  {
    hide BsmUnmap;
    BsmUnmapSizes(s, p, v);
  }

  lemma {:induction false} UnmapPublicSizes(s: State, p: int, n: nat)
    requires n <= MAX_NUM_BS
    ensures SizesKept(s.bsm, UnmapPublic(s, p, n).bsm)
  {
    hide UnmapThenFree;
    if n > 0 {
      UnmapPublicSizes(s, p, n - 1);
      var s1 := UnmapPublic(s, p, n - 1);
      var st := s1.bsm[n - 1];
      var k := FirstOf(st.maps, p, 0);
      if st.mapped && !st.priv && k < |st.maps| { UnmapThenFreeSizes(s1, p, st.maps[k].vpno, n - 1); }
    }
  }

  lemma KillSizes(s: State, p: int)
    requires IsPid(p)
    ensures SizesKept(s.bsm, Kill(s, p).bsm)
  {
    hide FreePages, FreeDir, UnmapThenFree, UnmapPublic;
    var s1 := FreeDir(FreePages(s, p, 0, NVPAGES, NFRAMES), p);
    UnmapThenFreeSizes(s1, p, s1.proc[p].vhpno, s1.proc[p].store);
    UnmapPublicSizes(s1, p, MAX_NUM_BS);
  }

  /** The size a step asks for a store that it opens. */
  ghost function Opens(s: State, st: Step, b: int): Option<int>
    requires 0 <= b < MAX_NUM_BS
  {
    match st
    case Maps(_, c, n) => if c == b && !s.bsm[b].mapped then Some(n) else None
    case Vcreates(_, n) => if FirstClosed(s.bsm, 0) == b then Some(n) else None
    case _ => None
  }

  lemma StepSizes(s: State, st: Step, s2: State, b: int)
    requires Sound(s) && Next(s, st, s2) && 0 <= b < MAX_NUM_BS
    ensures s2.bsm[b].mapped ==>
      if Opens(s, st, b).Some? then s2.bsm[b].npages == Opens(s, st, b).value
      else s.bsm[b].mapped && s2.bsm[b].npages == s.bsm[b].npages
  {
    hide PageIn, Kill, SwitchTo, Create, Vcreate, BsmUnmap, FaultSafe, Fit, NoOrphans, Inv;
    match st
    case Faults(v) => FaultShape(s, v);
    case Unmaps(v) => BsmUnmapSizes(s, s.cur, v);
    case Switches(next) => SwitchShape(s, next);
    case Kills(p) => KillSizes(s, p);
    case Exits(next) =>
      KillSizes(s, s.cur);
      KillKeepsInv(s, s.cur);
      SwitchShape(Kill(s, s.cur), next);
    case Creates(p) => CreateSizes(s, p);
    case Vcreates(p, n) => VcreateSizes(s, p, n);
    case _ =>
  }

  lemma CreateSizes(s: State, p: int)
    requires Valid(s) && IsPid(p)
    ensures PagesOk(s) && QueueNodes(s) && AgesOk(s) && FramesOk(s)
    ensures Create(s, p).Some? ==> Create(s, p).value.bsm == s.bsm
  {
    hide Inv, GetFrm, PagesOk, QueueNodes, AgesOk, FramesOk, NewDir;
    GetFrmReady(s, -1, -1);
    if Create(s, p).Some? { GetFrmGrants(s); }
  }

  lemma VcreateSizes(s: State, p: int, n: int)
    requires Spawnable(s, p) && Vcreate(s, p, n).Some? && Vcreate(s, p, n).value.1
    ensures
      var b := FirstClosed(s.bsm, 0);
      && 0 <= b < MAX_NUM_BS && 1 <= n <= MAX_BS_PAGES && !s.bsm[b].mapped
      && Vcreate(s, p, n).value.0.bsm == s.bsm[b := Store(true, n, true, [Mapping(p, MIN_VPNO, n)])]
  {
    hide Inv, GetFrm, PagesOk, QueueNodes, AgesOk, FramesOk, NewDir, Vcreate, HeapHead, Remapped;
    Prepared(s, p, n);
    var s1 := Mapped(s, p, FirstClosed(s.bsm, 0), n);
    GetFrmReady(s1, -1, -1);
    GetFrmGrants(s1);
  }

  /** The size the mapping that opened the store last has asked for. */
  ghost function SizeAsked(ss: seq<State>, sts: seq<Step>, b: int, k: nat): int
    requires k <= |sts| < |ss| && 0 <= b < MAX_NUM_BS
  {
    if k == 0 then ss[0].bsm[b].npages
    else if Opens(ss[k - 1], sts[k - 1], b).Some? then Opens(ss[k - 1], sts[k - 1], b).value
    else SizeAsked(ss, sts, b, k - 1)
  }

  /** In every state of a run, an open store has the size that its first mapping asked for. */
  lemma {:induction false} SizeIsFirst(ss: seq<State>, sts: seq<Step>, m: Flat, b: int, k: nat)
    requires IsRun(ss, sts) && Represents(ss[0], m, NFRAMES) && k <= |sts| && 0 <= b < MAX_NUM_BS
    ensures ss[k].bsm[b].mapped ==> ss[k].bsm[b].npages == SizeAsked(ss, sts, b, k)
  {
    hide Sound, Represents, Next, Opens;
    if k > 0 {
      SizeIsFirst(ss, sts, m, b, k - 1);
      RunRefines(ss, sts, m, k - 1);
      assert Next(ss[k - 1], sts[k - 1], ss[k]);
      StepSizes(ss[k - 1], sts[k - 1], ss[k], b);
    }
  }

  // --------------------------------------------------------------------------- sharing

  /** The running process sees page k of store b at page v. */
  predicate SeesPage(s: State, v: int, b: int, k: int) {
    Lookup(s.bsm, s.cur, v).Some? && Lookup(s.bsm, s.cur, v).value.store == b && SlotOf(s.bsm, s.cur, v) == Slot(b, k)
  }

  lemma SeesTouches(s: State, v: int, b: int, k: int)
    requires SeesPage(s, v, b, k) && 0 <= b < MAX_NUM_BS && 0 <= k < MAX_BS_PAGES
    ensures TouchSlot(s, v) == Slot(b, k)
  {
  }

  /** A mapping shows its process page v + k of the address space as page k of the store. */
  lemma MappingShows(s: State, v: int, b: int, n: int, k: int)
    requires MapOk(s.bsm) && IsPid(s.cur) && XmmapAllowed(s, v, b, n) && Xmmap(s, v, b, n).Some? && 0 <= k < n
    ensures SeesPage(Xmmap(s, v, b, n).value, v + k, b, k) && MapOk(Xmmap(s, v, b, n).value.bsm)
  {
    hide Lookup, MapOk;
    MapLookup(s.bsm, s.cur, v, b, n, s.cur, v + k);
    MapKeepsOk(s.bsm, s.cur, v, b, n);
    SlotBounds(Xmmap(s, v, b, n).value.bsm, s.cur, v + k);
    assert Slot(b, k) / MAX_BS_PAGES == b;
  }

  /** What one process has mapped, the mappings of others leave. */
  lemma MappingStays(s: State, v: int, b: int, n: int, q: int, w: int)
    requires MapOk(s.bsm) && IsPid(s.cur) && q != s.cur && XmmapAllowed(s, v, b, n) && Xmmap(s, v, b, n).Some?
    requires Lookup(s.bsm, q, w).Some?
    ensures
      var s2 := Xmmap(s, v, b, n).value;
      Lookup(s2.bsm, q, w) == Lookup(s.bsm, q, w) && SlotOf(s2.bsm, q, w) == SlotOf(s.bsm, q, w)
  {
    hide Lookup, MapOk;
    MapLookup(s.bsm, s.cur, v, b, n, q, w);
  }

  /** A process without a private heap may map n pages of store b at v: the range meets none
      of its mappings, none of which is in b, and b is public and large enough. */
  ghost predicate MayShare(s: State, p: int, v: int, b: int, n: int) {
    && Live(s, p) && !(0 <= s.proc[p].store < MAX_NUM_BS) && MapAllowed(s.bsm, p, v, b, n)
    && 0 <= b < MAX_NUM_BS && 1 <= n <= MAX_BS_PAGES && MIN_VPNO <= v <= MAX_VPNO && !s.bsm[b].priv
    && (s.bsm[b].mapped ==> n <= s.bsm[b].npages)
  }

  /** One process maps n pages of a store and another, running next, r pages: both succeed,
      and page v + k of the one is page w + k of the other. */
  lemma TwoSharers(s: State, m: Flat, q: int, v: int, w: int, b: int, n: int, r: int, k: int)
    requires Sound(s) && Represents(s, m, NFRAMES) && MayShare(s, s.cur, v, b, n) && MayShare(s, q, w, b, r) && q != s.cur
    requires !s.bsm[b].mapped ==> r <= n
    requires 0 <= k < n && k < r
    ensures Xmmap(s, v, b, n).Some?
    ensures
      var s1 := Xmmap(s, v, b, n).value;
      var s2 := SwitchTo(s1, q);
      && Next(s, Maps(v, b, n), s1) && Sound(s1) && Next(s1, Switches(q), s2) && Sound(s2)
      && IsPid(s2.cur) && Xmmap(s2, w, b, r).Some?
      && var s3 := Xmmap(s2, w, b, r).value;
      && Next(s2, Maps(w, b, r), s3) && Sound(s3) && Represents(s3, m, NFRAMES)
      && s1.cur == s.cur && s3.cur == q && SeesPage(s1, v + k, b, k) && SeesPage(s3, w + k, b, k)
      && SeesPage(s3.(cur := s.cur), v + k, b, k)
  {
    hide Inv, Represents, NoOrphans, Lookup, SwitchTo, MapOk, MapAllowed;
    OneSharer(s, m, v, b, n, k);
    var s1 := Xmmap(s, v, b, n).value;
    StillAllowed(s, v, b, n, q, w, r);
    SwitchStep(s1, q, m);
    SwitchShape(s1, q);
    var s2 := SwitchTo(s1, q);
    OneSharer(s2, m, w, b, r, k);
    MappingStays(s2, w, b, r, s.cur, v + k);
  }

  lemma OneSharer(s: State, m: Flat, v: int, b: int, n: int, k: int)
    requires Sound(s) && Represents(s, m, NFRAMES) && MayShare(s, s.cur, v, b, n) && 0 <= k < n
    ensures MapOk(s.bsm) && Xmmap(s, v, b, n).Some? && XmmapAllowed(s, v, b, n)
    ensures
      var s1 := Xmmap(s, v, b, n).value;
      Next(s, Maps(v, b, n), s1) && Sound(s1) && Represents(s1, m, NFRAMES) && s1.cur == s.cur && SeesPage(s1, v + k, b, k)
  {
    hide Inv, Represents, NoOrphans, Lookup, MapOk, MapAllowed;
    XmmapSucceeds(s, v, b, n);
    InvParts(s, -1, -1);
    MapStep(s, Maps(v, b, n), Xmmap(s, v, b, n).value, m);
    MappingShows(s, v, b, n, k);
  }

  lemma StillAllowed(s: State, v: int, b: int, n: int, q: int, w: int, r: int)
    requires MapOk(s.bsm) && IsPid(s.cur) && q != s.cur && Xmmap(s, v, b, n).Some? && MapAllowed(s.bsm, q, w, b, r)
    ensures MapAllowed(Xmmap(s, v, b, n).value.bsm, q, w, b, r)
  {
    assert StoreOk(s.bsm[b]);
    var s1 := Xmmap(s, v, b, n).value;
    forall c, k | IsMap(s1.bsm, c, k) && s1.bsm[c].maps[k].pid == q
      ensures IsMap(s.bsm, c, k) && s1.bsm[c].maps[k] == s.bsm[c].maps[k]
    {
    }
  }

  /** In any run, a byte that one process stores at its page v, page k of store b, is what any
      process reads there at its own page w, however many switches, faults and evictions lie in
      between, until another is stored at that place. */
  lemma {:induction false} SharedByte(ss: seq<State>, sts: seq<Step>, m: Flat, i: nat, j: nat, b: int, k: int)
    requires IsRun(ss, sts) && Represents(ss[0], m, NFRAMES) && i < j < |sts| && 0 <= b < MAX_NUM_BS && 0 <= k < MAX_BS_PAGES
    requires sts[i].Writes? && SeesPage(ss[i], sts[i].v, b, k)
    requires sts[j].Reads? && SeesPage(ss[j], sts[j].v, b, k) && sts[j].off == sts[i].off
    requires forall t :: i < t < j ==> Stored(ss[t], sts[t], Slot(b, k), sts[i].off) == None
    ensures Sound(ss[j]) && Next(ss[j], sts[j], ss[j + 1])
    ensures Result(ss[j], sts[j]) == sts[i].b
  {
    hide Sound, Represents, SeesPage;
    RunRefines(ss, sts, m, i);
    PagingIsTransparent(ss, sts, m, j);
    SeesTouches(ss[i], sts[i].v, b, k);
    SeesTouches(ss[j], sts[j].v, b, k);
    StillLast(ss, sts, m, i, j, Slot(b, k));
  }

  lemma {:induction false} StillLast(ss: seq<State>, sts: seq<Step>, m: Flat, i: nat, j: nat, x: int)
    requires i < j <= |sts| < |ss| && 0 <= x < NSLOTS && sts[i].Writes? && 0 <= sts[i].off < NBPG && TouchSlot(ss[i], sts[i].v) == x
    requires forall t :: i < t < j ==> Stored(ss[t], sts[t], x, sts[i].off) == None
    ensures LastStored(ss, sts, m, j, x, sts[i].off) == sts[i].b
    decreases j
  {
    hide TouchSlot;
    if j > i + 1 {
      StillLast(ss, sts, m, i, j - 1, x);
      assert Stored(ss[j - 1], sts[j - 1], x, sts[i].off) == None;
    }
  }
}
