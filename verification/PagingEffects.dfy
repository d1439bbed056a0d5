/** What the paging calls bring about, and when they are served: frames, faults, births, heaps,
    deaths and the choice of a policy. */
module PagingEffects {
  import opened Machine
  import opened BackingStore
  import opened Frames
  import opened PagingInv
  import opened FreeFrame
  import opened Replacement
  import opened GetFrame
  import opened PageFault
  import opened FaultStep
  import opened Switch
  import opened Lifecycle
  import opened Death
  import opened Birth
  import opened HeapBirth
  import opened PagingRun
  import FreeList
  import HeapRun
  import KernelFacts
  import MemList

  // ------------------------------------------------------------------------------ get_frm

  /** get_frm takes the first free frame, and evicts only if there is none. */
  lemma FreeFirst(s: State)
    requires PagesOk(s) && QueueNodes(s) && AgesOk(s)
    ensures (exists i :: IsFrame(i) && !s.frm[i].mapped) ==>
      && GetFrm(s).Some? && IsFrame(GetFrm(s).value.1) && !s.frm[GetFrm(s).value.1].mapped
      && (forall i :: 0 <= i < GetFrm(s).value.1 ==> s.frm[i].mapped)
      && GetFrm(s).value.0.frm == s.frm && GetFrm(s).value.0.phys == s.phys
    ensures (forall i :: IsFrame(i) ==> s.frm[i].mapped) ==>
      GetFrm(s).Some? == Search(s).Some?
      && (GetFrm(s).Some? ==> GetFrm(s).value.1 == Search(s).value.1 && PageFrame(s, GetFrm(s).value.1))
  {
    hide PagesOk, QueueNodes, AgesOk, Search, FreeFrm;
    var f := FirstFree(s.frm, 0);
    if f == NFRAMES {
      forall i | IsFrame(i)
        ensures s.frm[i].mapped
      {
      }
      SearchKeepsPages(s);
      if Search(s).Some? { SearchShape(s); }
    }
  }

  /** Distinct numbers below n are at most n. */
  lemma {:induction false} Pigeonhole(q: seq<int>, n: nat)
    requires NoDup(q) && forall j :: 0 <= j < |q| ==> 0 <= q[j] < n
    ensures |q| <= n
    decreases n
  {
    assert q == [] || 0 <= q[0] < n;
    if n > 0 {
      WithoutMembers(q, n - 1);
      var r := Without(q, n - 1);
      forall j | 0 <= j < |r|
        ensures 0 <= r[j] < n - 1
      {
        assert r[j] in r;
      }
      WithoutLength(q, n - 1);
      Pigeonhole(r, n - 1);
    }
  }

  lemma {:induction false} WithoutLength(q: seq<int>, x: int)
    ensures |Without(q, x)| >= |q| - 1
  {
    if q != [] && q[0] != x { WithoutLength(q[1..], x); }
  }

  /** A table with a reference has a page. */
  lemma TableHasPage(s: State, fill: int, t: int)
    requires TablesOk(s, fill) && PtesOk(s) && TblFrame(s, t) && t != fill
    ensures exists i :: PageFrame(s, i)
  {
    assert TableOk(s, t, fill);
    CountZero(s.phys[FRAME0 + t].pt);
    var k :| 0 <= k < NENTRIES && s.phys[FRAME0 + t].pt[k].pres;
    assert PteAt(s, t, k).pres;
    assert PteBacked(s, t, k);
  }

  /** Position j of the frames past the global tables, but for frame x. */
  function Past(j: int, x: int): int { if 4 + j < x then 4 + j else 5 + j }

  /** If all frames are taken, one of them holds a page: directories are fewer than frames,
      and each table has a page. */
  lemma SomePage(s: State, fill: int)
    requires DirFramesOk(s) && TablesOk(s, fill) && PtesOk(s) && forall i :: IsFrame(i) ==> s.frm[i].mapped
    ensures exists i :: PageFrame(s, i)
  {
    if forall i :: IsFrame(i) ==> !PageFrame(s, i) {
      forall j | 0 <= j <= NPROC
        ensures IsPid(s.frm[Past(j, fill)].pid) && s.proc[s.frm[Past(j, fill)].pid].pdbr == FRAME0 + Past(j, fill)
      {
        var i := Past(j, fill);
        assert !PageFrame(s, i);
        if s.frm[i].ftype == FR_TBL { TableHasPage(s, fill, i); }
      }
      var q := seq(NPROC + 1, j requires 0 <= j <= NPROC => s.frm[Past(j, fill)].pid);
      Pigeonhole(q, NPROC);
    }
  }

  /** Under Aging get_frm never fails. */
  lemma AgingServes(s: State, fill: int)
    requires Inv(s, fill, -1) && s.policy == AGING
    ensures PagesOk(s) && QueueNodes(s) && AgesOk(s) && GetFrm(s).Some?
  {
    hide Inv, Search, FreeFrm, PagesOk, QueueNodes, AgesOk, DirFramesOk, TablesOk, PtesOk, QueueOk;
    InvParts(s, fill, -1);
    GetFrmReady(s, fill, -1);
    if FirstFree(s.frm, 0) == NFRAMES {
      SomePage(s, fill);
      var i :| PageFrame(s, i);
      Queued(s, i);
      PageServes(s, i);
      SearchKeepsPages(s);
    }
  }

  lemma PageServes(s: State, i: int)
    requires PagesOk(s) && QueueNodes(s) && AgesOk(s) && s.policy == AGING && PageFrame(s, i) && i in s.queue
    ensures Search(s).Some?
  {
    hide PagesOk, QueueNodes, AgesOk, SearchAging;
    AgingVictim(s);
  }

  lemma Queued(s: State, i: int)
    requires QueueOk(s, -1) && PageFrame(s, i)
    ensures i in s.queue
  {
  }

  // -------------------------------------------------------------------------------- faults

  /** A legal fault is served exactly when get_frm is, once for the page and before that once
      for the table if it is missing. */
  lemma FaultServed(s: State, v: int)
    requires Valid(s) && Legal(s, v)
    ensures HasDir(s, s.cur) && PagesOk(s) && QueueNodes(s) && AgesOk(s)
    ensures !PdeAt(s, s.cur, Pdi(v)).pres && GetFrm(s).None? ==> PageIn(s, v).None?
    ensures PdeAt(s, s.cur, Pdi(v)).pres ==> PageIn(s, v).Some? == GetFrm(s).Some?
    ensures !PdeAt(s, s.cur, Pdi(v)).pres && GetFrm(s).Some? ==>
      TableFor(s, v).Some?
      && var c := TableFor(s, v).value.0;
      PagesOk(c) && QueueNodes(c) && AgesOk(c) && PageIn(s, v).Some? == GetFrm(c).Some?
  {
    hide Inv, PagesOk, QueueNodes, AgesOk, GetFrm, FillPage;
    InvParts(s, -1, -1);
    CurHasDir(s);
    GetFrmReady(s, -1, -1);
    if PdeAt(s, s.cur, Pdi(v)).pres {
      OldTableReady(s, v);
    } else if GetFrm(s).Some? {
      NewTableReady(s, v);
      var (c, t) := TableFor(s, v).value;
      GetFrmReady(c, t, -1);
    }
  }

  /** Under Aging every legal fault is served. */
  lemma AgingServesFaults(s: State, v: int)
    requires Valid(s) && Legal(s, v) && s.policy == AGING
    ensures PageIn(s, v).Some?
  {
    hide Inv, GetFrm, FillPage, PagesOk, QueueNodes, AgesOk;
    FaultServed(s, v);
    AgingServes(s, -1);
    if !PdeAt(s, s.cur, Pdi(v)).pres {
      NewTableReady(s, v);
      AgingServes(TableFor(s, v).value.0, TableFor(s, v).value.1);
    }
  }

  /** So under Aging every access ends well that costs no table its last page. */
  lemma AgingReaches(s: State, v: int)
    requires KernelFacts.Touchable(s, v) && s.policy == AGING
    ensures KernelFacts.Reachable(s, v)
  {
    hide Inv, PageIn, FaultSafe;
    AgingServesFaults(s, v);
  }

  /** The page a safe fault brings in is clean, untouched and new to the table, in a frame of
      the running process that records its number. */
  lemma FaultBrings(s: State, v: int)
    requires Valid(s) && Legal(s, v) && NotCached(s, s.cur, v) && PageIn(s, v).Some? && FaultSafe(s, v)
    ensures
      var s2 := PageIn(s, v).value;
      exists f :: Linked(s2, f) && s2.frm[f] == Frame(true, s.cur, v, 0, FR_PAGE, 0)
        && EntryOf(s2, f) == Pte(true, false, false, FRAME0 + f) && s2.cur == s.cur && s2.bsm == s.bsm && s2.proc == s.proc
  {
    hide Inv, PagesOk, NotCached, EvictsLast, GetFrm, QueueNodes, AgesOk, Lookup;
    SafeForTable(s, v);
    var (s1, t) := TableFor(s, v).value;
    FillSurvivor(s1, v, t);
    GetFrmReady(s1, t, -1);
    GetFrmGrants(s1);
    var (s2, f) := GetFrm(s1).value;
    InvParts(s2, t, f);
    FilledPage(s2, s.cur, v, t, f);
  }

  /** The frame of a table that a fault adds records the running process and nothing else; the
      directory names it, and no page is present in it. */
  lemma TableMakes(s: State, v: int)
    requires Valid(s) && Legal(s, v) && HasDir(s, s.cur) && !PdeAt(s, s.cur, Pdi(v)).pres && TableFor(s, v).Some?
    ensures
      var (s2, t) := TableFor(s, v).value;
      && IsFrame(t) && s2.frm[t] == Frame(true, s.cur, 0, 0, FR_TBL, 0) && IsTable(s2, t) && HasDir(s2, s.cur)
      && PdeAt(s2, s.cur, Pdi(v)) == Pde(true, FRAME0 + t)
      && forall k :: 0 <= k < NENTRIES ==> !PteAt(s2, t, k).pres
  {
    hide Inv, GetFrm, PagesOk, QueueNodes, AgesOk, DirsOk;
    InvParts(s, -1, -1);
    GetFrmReady(s, -1, -1);
    GetFrmGrants(s);
    GetFrmKeepsAbsent(s, s.cur, Pdi(v));
    NewTableReady(s, v);
  }

  // -------------------------------------------------------------------------------- births

  /** create is served exactly when get_frm is, and makes a process without stores whose
      directory is the frame. */
  lemma CreateMakes(s: State, p: int)
    requires Valid(s) && IsPid(p)
    ensures PagesOk(s) && QueueNodes(s) && AgesOk(s) && FramesOk(s) && Create(s, p).Some? == GetFrm(s).Some?
    ensures Create(s, p).Some? ==>
      var s2, f := Create(s, p).value, GetFrm(s).value.1;
      && IsFrame(f) && s2.proc == s.proc[p := Proc(true, FRAME0 + f, NO_STORE, 0, 0)] && s2.bsm == s.bsm && s2.cur == s.cur
      && s2.frm[f] == Frame(true, p, 0, 0, FR_DIR, 0) && s2.policy == s.policy
  {
    hide Inv, PagesOk, QueueNodes, AgesOk, FramesOk, GetFrm, NewDir;
    GetFrmReady(s, -1, -1);
    if Create(s, p).Some? { GetFrmGrants(s); }
  }

  /** vcreate succeeds exactly when a store is closed, the size is right and get_frm is served;
      the process owns the first closed store, at page 4096. */
  lemma VcreateMakes(s: State, p: int, n: int)
    requires Spawnable(s, p)
    ensures
      var b := FirstClosed(s.bsm, 0);
      (Vcreate(s, p, n).Some? && Vcreate(s, p, n).value.1 <==>
         b < MAX_NUM_BS && 1 <= n <= MAX_BS_PAGES
         && var c := Mapped(s, p, b, n); PagesOk(c) && QueueNodes(c) && AgesOk(c) && GetFrm(c).Some?)
    ensures Vcreate(s, p, n).Some? && Vcreate(s, p, n).value.1 ==>
      var s2 := Vcreate(s, p, n).value.0;
      var b := FirstClosed(s.bsm, 0);
      && b < MAX_NUM_BS && !s.bsm[b].mapped && (forall c :: 0 <= c < b ==> s.bsm[c].mapped)
      && s2.bsm == s.bsm[b := Store(true, n, true, [Mapping(p, MIN_VPNO, n)])]
      && IsFrame(s2.proc[p].pdbr - FRAME0) && s2.proc == s.proc[p := Proc(true, s2.proc[p].pdbr, b, MIN_VPNO, n)]
      && s2.frm[s2.proc[p].pdbr - FRAME0] == Frame(true, p, 0, 0, FR_DIR, 0)
      && s2.cur == s.cur && s2.policy == s.policy
  {
    hide Inv, PagesOk, QueueNodes, AgesOk, GetFrm, NewDir, HeapHead, Remapped;
    var b := FirstClosed(s.bsm, 0);
    if b < MAX_NUM_BS && 1 <= n <= MAX_BS_PAGES {
      MappedInv(s, p, b, n);
      GetFrmReady(Mapped(s, p, b, n), -1, -1);
      if Vcreate(s, p, n).Some? {
        GetFrmGrants(Mapped(s, p, b, n));
      }
    }
  }

  /** The heap of the new process: the first two words of its page 4096 spell, behind a header
      that points there, the one free block of n pages; nothing else in the stores changes. */
  lemma VcreateSpells(s: State, p: int, n: int, m: Flat) returns (m2: Flat)
    requires Spawnable(s, p) && Vcreate(s, p, n).Some? && Vcreate(s, p, n).value.1 && Represents(s, m, NFRAMES)
    ensures
      var s2 := Vcreate(s, p, n).value.0;
      && Represents(s2, m2, NFRAMES) && 1 <= n <= MAX_BS_PAGES
      && Lookup(s2.bsm, p, MIN_VPNO).Some? && 0 <= SlotOf(s2.bsm, p, MIN_VPNO) < NSLOTS
      && var x := SlotOf(s2.bsm, p, MIN_VPNO);
      var w := MemList.Words(MIN_VPNO * NBPG, map[MIN_VPNO * NBPG := Word(m2[x], 0)], map[MIN_VPNO * NBPG := Word(m2[x], 1)]);
      && MemList.Spells(w, [HeapRun.FirstBlock(n)])
      && m2[x][8..] == m[x][8..] && (forall y :: 0 <= y < NSLOTS && y != x ==> m2[y] == m[y])
  {
    hide Inv, Represents, Vcreate, HeapHead, Spawnable, Lookup, Word;
    VcreateMemory(s, p, n, m);
    VcreateMakes(s, p, n);
    var x := Slot(FirstClosed(s.bsm, 0), 0);
    m2 := m[x := HeapHead(m[x], n)];
    HeadWords(m[x], n);
    HeapThere(s, p, n);
    var w := MemList.Words(MIN_VPNO * NBPG, map[MIN_VPNO * NBPG := Word(m2[x], 0)], map[MIN_VPNO * NBPG := Word(m2[x], 1)]);
    assert MemList.Holds(w, [HeapRun.FirstBlock(n)], 0);
  }

  /** Page 4096 of the new process is page 0 of its store. */
  lemma HeapThere(s: State, p: int, n: int)
    requires Spawnable(s, p) && Vcreate(s, p, n).Some? && Vcreate(s, p, n).value.1
    ensures
      var s2 := Vcreate(s, p, n).value.0;
      Lookup(s2.bsm, p, MIN_VPNO).Some? && SlotOf(s2.bsm, p, MIN_VPNO) == Slot(FirstClosed(s.bsm, 0), 0)
  {
    hide Inv, Vcreate;
    VcreateMakes(s, p, n);
    var b, s2 := FirstClosed(s.bsm, 0), Vcreate(s, p, n).value.0;
    DeadNotMapped(s, p);
    assert IsMap(s2.bsm, b, 0);
    OnlyThere(s.bsm, s2.bsm, p, b, n);
  }

  lemma DeadNotMapped(s: State, p: int)
    requires NoOrphans(s) && !Live(s, p)
    ensures forall c, k {:trigger IsMap(s.bsm, c, k)} :: IsMap(s.bsm, c, k) ==> s.bsm[c].maps[k].pid != p
  {
  }

  lemma OnlyThere(bsm: StoreMap, bsm2: StoreMap, p: int, b: int, n: int)
    requires 0 <= b < MAX_NUM_BS && 1 <= n <= MAX_BS_PAGES && bsm2 == bsm[b := Store(true, n, true, [Mapping(p, MIN_VPNO, n)])]
    requires forall c, k {:trigger IsMap(bsm, c, k)} :: IsMap(bsm, c, k) ==> bsm[c].maps[k].pid != p
    ensures Lookup(bsm2, p, MIN_VPNO) == Some(Hit(b, 0))
  {
    assert IsMap(bsm2, b, 0);
    if Lookup(bsm2, p, MIN_VPNO).Some? {
      var h := Lookup(bsm2, p, MIN_VPNO).value;
      assert h.store != b ==> IsMap(bsm, h.store, h.pos);
    }
  }

  // -------------------------------------------------------------------------------- deaths

  /** kill leaves every other process as it is; the one killed is no longer live, and one that
      used public stores forgets them. */
  lemma KillForgets(s: State, p: int)
    requires Valid(s) && 0 < p && Live(s, p)
    ensures
      var s2 := Kill(s, p);
      && s2.proc == s.proc[p := s2.proc[p]] && s2.cur == s.cur && s2.policy == s.policy && s2.hand == s.hand
      && s2.proc[p] == if s.proc[p].store == PUBLIC then Proc(false, s.proc[p].pdbr, NO_STORE, 0, 0) else s.proc[p].(live := false)
  {
    hide Inv, FreePages, FreeDir, UnmapThenFree, UnmapPublic, Retired, MapOk;
    KillRetires(s, p);
    KillHand(s, p);
  }

  lemma KillHand(s: State, p: int)
    requires Valid(s) && 0 < p && Live(s, p)
    ensures Kill(s, p).cur == s.cur && Kill(s, p).policy == s.policy && Kill(s, p).hand == s.hand
  {
    hide Inv, FreePages, Kill, MapOk;
    KillRetires(s, p);
  }

  // -------------------------------------------------------------------------------- policy

  /** srpolicy selects the policy that the next searches follow; Second-Chance starts at the
      front of the queue, and whoever goes on with Aging keeps the hand. */
  lemma PolicySet(s: State, p: Policy)
    requires PagesOk(s)
    ensures
      var s2 := SetPolicy(s, p);
      && s2.policy == p && s2 == s.(policy := p, hand := s2.hand) && PagesOk(s2)
      && (p == SC ==> Search(s2) == SearchSC(s2) && (s.queue != [] ==> NextPos(s2) == Some(0)))
      && (p == AGING ==> Search(s2) == SearchAging(s2) && s2.hand == s.hand)
  {
    forall i | PageFrame(SetPolicy(s, p), i)
      ensures PageOk(SetPolicy(s, p), i)
    {
      assert PageOk(s, i);
    }
  }
}
