/** A state in which every frame is taken and the page that goes next is the only one of its
    table: the case in which a page fault, or a Second-Chance search, goes wrong. */
module FullMemory {
  import opened Machine
  import opened BackingStore
  import opened Frames
  import opened PagingInv
  import opened Replacement
  import opened GetFrame
  import opened FaultStep
  import opened PagingRun
  import opened Boot

  /** Process 1 has two tables, in the seventh frame and the last, the first with one page and the
      second with a page in each frame between. */
  const FEW: int := 6
  const ONLY: int := 7
  const MANY: int := 1023

  function PageNo(i: int): int { if i == ONLY then 4096 else 5112 + i }

  function FullFrame(i: int): Frame {
    if i < 4 then Frame(true, 0, 0, NENTRIES, FR_TBL, 0)
    else if i < FEW then Frame(true, i - 4, 0, 0, FR_DIR, 0)
    else if i == FEW then Frame(true, 1, 0, 1, FR_TBL, 0)
    else if i < MANY then Frame(true, 1, PageNo(i), 0, FR_PAGE, 0)
    else Frame(true, 1, 0, MANY - 8, FR_TBL, 0)
  }

  function TableOfFew(acc: bool): PageTable {
    seq(NENTRIES, k => if k == 0 then Pte(true, acc, false, FRAME0 + ONLY) else Pte(false, false, false, 0))
  }

  function TableOfMany(acc: bool): PageTable {
    seq(NENTRIES, k => if k < MANY - 8 then Pte(true, acc, false, FRAME0 + 8 + k) else Pte(false, false, false, 0))
  }

  function FullEntry(p: int, d: int): Pde {
    if d < 4 then Pde(true, FRAME0 + d)
    else if p == 1 && d == 4 then Pde(true, FRAME0 + FEW)
    else if p == 1 && d == 5 then Pde(true, FRAME0 + MANY)
    else Pde(false, 0)
  }

  function FullDir(p: int): Directory { seq(NENTRIES, d => FullEntry(p, d)) }

  function FullPage(n: int, acc: bool): Content {
    if FRAME0 <= n < FRAME0 + 4 then Table(GlobalTable(n - FRAME0))
    else if FRAME0 + 4 <= n < FRAME0 + FEW then Dir(FullDir(n - FRAME0 - 4))
    else if n == FRAME0 + FEW then Table(TableOfFew(acc))
    else if n == FRAME0 + MANY then Table(TableOfMany(acc))
    else Data(ZeroPage())
  }

  function FullMapping(b: int): Mapping { Mapping(1, if b == 0 then 4096 else 4864 + MAX_BS_PAGES * b, MAX_BS_PAGES) }

  function FullStore(b: int): Store {
    if 0 <= b < 5 then Store(true, MAX_BS_PAGES, false, [FullMapping(b)]) else FREE_STORE
  }

  function FullProc(p: int): Proc {
    Proc(p == 0 || p == 1, FRAME0 + (if p == 1 then 5 else 4), if p == 1 then PUBLIC else NO_STORE, 0, 0)
  }

  function FullFrames(): FrameTable { seq(NFRAMES, i => FullFrame(i)) }
  function FullMem(acc: bool): Memory { seq(NPAGES, n => FullPage(n, acc)) }
  function FullStores(): StoreMap { seq(MAX_NUM_BS, b => FullStore(b)) }
  function FullProcs(): ProcTable { seq(NPROC, p => FullProc(p)) }
  function FullQueue(): seq<int> { seq(NFRAMES, i => i) }

  /** The frames joined the queue in the order of their numbers; all access bits are acc. */
  function Full(policy: Policy, acc: bool, hand: int): State {
    State(FullFrames(), FullMem(acc), FullStores(), FullProcs(), 1, FullQueue(), hand, policy, FirstFrames(NFRAMES))
  }

  ghost predicate Shape(s: State, acc: bool) {
    && (forall i {:trigger s.frm[i]} :: IsFrame(i) ==> s.frm[i] == FullFrame(i))
    && (forall n {:trigger s.phys[n]} :: 0 <= n < NPAGES ==> s.phys[n] == FullPage(n, acc))
    && (forall b {:trigger s.bsm[b]} :: 0 <= b < MAX_NUM_BS ==> s.bsm[b] == FullStore(b))
    && (forall p {:trigger s.proc[p]} :: IsPid(p) ==> s.proc[p] == FullProc(p))
    && |s.queue| == NFRAMES && (forall i {:trigger s.queue[i]} :: IsFrame(i) ==> s.queue[i] == i)
    && s.cur == 1
  }

  lemma FullShape(policy: Policy, acc: bool, hand: int)
    ensures Shape(Full(policy, acc, hand), acc)
  {
    hide FullFrame, FullPage, FullStore, FullProc;
  }

  // --------------------------------------------------------------------- it is valid

  lemma {:induction false} CountFirst(pt: seq<Pte>, n: nat, m: nat)
    requires m <= |pt| && forall k :: 0 <= k < |pt| ==> pt[k].pres == (k < n)
    ensures Count(pt[..m]) == if m < n then m else n
    decreases m
  {
    if m > 0 {
      CountFirst(pt, n, m - 1);
      assert pt[..m][..m - 1] == pt[..m - 1];
    }
  }

  lemma FullDirs(s: State, acc: bool)
    requires Shape(s, acc)
    ensures HasDir(s, 0) && HasDir(s, 1) && forall p, d :: 0 <= p <= 1 && 0 <= d < NENTRIES ==> PdeAt(s, p, d) == FullEntry(p, d)
    ensures DirsOk(s) && DirFramesOk(s) && forall p :: Live(s, p) <==> p == 0 || p == 1
  {
    hide GlobalTable, FullEntry, TableOfFew, TableOfMany;
    forall p
      ensures Live(s, p) <==> p == 0 || p == 1
    {
      if IsPid(p) { assert s.proc[p] == FullProc(p); }
    }
    forall p | 0 <= p <= 1
      ensures HasDir(s, p) && s.phys[s.proc[p].pdbr] == Dir(FullDir(p))
    {
      assert s.phys[FRAME0 + 4 + p] == FullPage(FRAME0 + 4 + p, acc);
    }
    forall p | Live(s, p)
      ensures DirOk(s, p)
    {
      DirIs(s, p);
    }
  }

  lemma DirIs(s: State, p: int)
    requires HasDir(s, p) && s.phys[s.proc[p].pdbr] == Dir(FullDir(p)) && s.frm[s.proc[p].pdbr - FRAME0] == Frame(true, p, 0, 0, FR_DIR, 0)
    ensures DirOk(s, p)
  {
    forall d | 0 <= d < 4
      ensures PdeAt(s, p, d) == Pde(true, FRAME0 + d)
    {
      assert PdeAt(s, p, d) == FullEntry(p, d);
    }
  }

  lemma FullStoresOk(s: State, acc: bool)
    requires Shape(s, acc)
    ensures forall b, k :: IsMap(s.bsm, b, k) <==> 0 <= b < 5 && k == 0
    ensures MapOk(s.bsm) && OwnersOk(s) && NoOrphans(s)
  {
    forall b, k
      ensures IsMap(s.bsm, b, k) <==> 0 <= b < 5 && k == 0
      ensures IsMap(s.bsm, b, k) ==> s.bsm[b] == FullStore(b)
    {
      if 0 <= b < MAX_NUM_BS { assert s.bsm[b] == FullStore(b); }
    }
    assert s.proc[1] == FullProc(1);
    forall p | Live(s, p)
      ensures StoreFieldOk(s, p)
    {
      assert s.proc[p] == FullProc(p);
    }
  }

  /** The store behind each page of process 1. */
  lemma FullLookup(s: State, acc: bool, b: int, v: int)
    requires Shape(s, acc) && 0 <= b < 5 && FullMapping(b).vpno <= v < FullMapping(b).vpno + MAX_BS_PAGES
    ensures WellMapped(s.bsm, 1, v)
  {
    hide MapOk, Lookup, OwnersOk, NoOrphans;
    FullStoresOk(s, acc);
    assert s.bsm[b] == FullStore(b);
    assert IsMap(s.bsm, b, 0);
    MapPairs(s.bsm);
    LookupIsUnique(s.bsm, 1, v, b, 0);
    SlotBounds(s.bsm, 1, v);
  }

  lemma MapPairs(bsm: StoreMap)
    requires MapOk(bsm)
    ensures PairsOk(bsm)
  {
  }

  /** Every frame between the two tables holds its page. */
  lemma FullPageOk(s: State, acc: bool, i: int)
    requires Shape(s, acc) && ONLY <= i < MANY
    ensures PageFrame(s, i) && PageOk(s, i) && Linked(s, i) && EntryOf(s, i) == Pte(true, acc, false, FRAME0 + i)
    ensures TableOf(s, i) == if i == ONLY then FEW else MANY
  {
    hide DirsOk, DirFramesOk, GlobalTable, Lookup, FullDir;
    FullDirs(s, acc);
    var t := if i == ONLY then FEW else MANY;
    assert s.frm[i] == FullFrame(i) && s.frm[t] == FullFrame(t);
    FullLookup(s, acc, if i == ONLY then 0 else 1 + (i - 8) / MAX_BS_PAGES, PageNo(i));
    EntryFull(s, acc, i, t);
  }

  lemma EntryFull(s: State, acc: bool, i: int, t: int)
    requires Shape(s, acc) && ONLY <= i < MANY && t == if i == ONLY then FEW else MANY
    ensures s.phys[FRAME0 + i].Data? && IsTable(s, t) && PteAt(s, t, Pti(PageNo(i))) == Pte(true, acc, false, FRAME0 + i)
    ensures Pdi(PageNo(i)) == if i == ONLY then 4 else 5
  {
    hide GlobalTable;
    assert s.phys[FRAME0 + i] == FullPage(FRAME0 + i, acc) && s.phys[FRAME0 + t] == FullPage(FRAME0 + t, acc);
  }

  /** Which frames are what. */
  lemma FullKinds(s: State, acc: bool, i: int)
    requires Shape(s, acc) && IsFrame(i)
    ensures s.frm[i].mapped && s.frm[i].age == 0
    ensures PageFrame(s, i) <==> ONLY <= i < MANY
    ensures TblFrame(s, i) <==> i == FEW || i == MANY
  {
    assert s.frm[i] == FullFrame(i);
  }

  lemma FullTables(s: State, acc: bool)
    requires Shape(s, acc)
    ensures TablesOk(s, -1)
  {
    hide GlobalTable, DirsOk, DirFramesOk;
    FullDirs(s, acc);
    assert s.phys[FRAME0 + FEW] == FullPage(FRAME0 + FEW, acc) && s.phys[FRAME0 + MANY] == FullPage(FRAME0 + MANY, acc);
    CountsFull(acc);
    forall t | TblFrame(s, t)
      ensures TableOk(s, t, -1)
    {
      FullKinds(s, acc, t);
      assert s.frm[t] == FullFrame(t);
    }
  }

  lemma CountsFull(acc: bool)
    ensures Count(TableOfFew(acc)) == 1 && Count(TableOfMany(acc)) == MANY - 8
  {
    CountFirst(TableOfFew(acc), 1, NENTRIES);
    CountFirst(TableOfMany(acc), MANY - 8, NENTRIES);
    assert TableOfFew(acc)[..NENTRIES] == TableOfFew(acc) && TableOfMany(acc)[..NENTRIES] == TableOfMany(acc);
  }

  lemma FullPtes(s: State, acc: bool)
    requires Shape(s, acc)
    ensures PtesOk(s)
  {
    hide GlobalTable, DirsOk, DirFramesOk, PageOk, Linked;
    FullDirs(s, acc);
    forall t, k | TblFrame(s, t) && IsTable(s, t) && 0 <= k < NENTRIES && PteAt(s, t, k).pres
      ensures PteBacked(s, t, k)
    {
      FullKinds(s, acc, t);
      assert s.phys[FRAME0 + t] == FullPage(FRAME0 + t, acc) && s.frm[t] == FullFrame(t);
      var i := PteAt(s, t, k).base - FRAME0;
      FullKinds(s, acc, i);
      assert s.frm[i] == FullFrame(i);
    }
  }

  lemma FullTree(s: State, acc: bool)
    requires Shape(s, acc)
    ensures TreeOk(s, -1)
  {
    hide GlobalTable, DirsOk, DirFramesOk, PageOk, PtesOk, TablesOk;
    FullDirs(s, acc);
    FullTables(s, acc);
    FullPtes(s, acc);
    assert s.frm[FEW] == FullFrame(FEW) && s.frm[MANY] == FullFrame(MANY);
    forall p, d | Live(s, p) && HasDir(s, p) && 4 <= d < NENTRIES && PdeAt(s, p, d).pres
      ensures PdeAt(s, p, d) == FullEntry(p, d)
    {
    }
    forall i | PageFrame(s, i)
      ensures PageOk(s, i)
    {
      FullKinds(s, acc, i);
      FullPageOk(s, acc, i);
    }
    forall g | 0 <= g < 4
      ensures GlobalOk(s, g)
    {
      assert s.frm[g] == FullFrame(g) && s.phys[FRAME0 + g] == FullPage(FRAME0 + g, acc);
    }
    forall i | IsFrame(i)
      ensures s.frm[i].mapped
    {
      FullKinds(s, acc, i);
    }
    forall n | FRAME0 + NFRAMES <= n < NPAGES
      ensures s.phys[n].Data?
    {
      assert s.phys[n] == FullPage(n, acc);
    }
  }

  lemma FullRest(s: State, acc: bool)
    requires Shape(s, acc)
    ensures QueueOk(s, -1) && CleanOk(s) && AgesOk(s)
  {
    hide PageOk;
    forall i | IsFrame(i)
      ensures i in s.queue && s.frm[i].mapped && s.frm[i].age == 0 && !Dirty(s, i)
    {
      assert s.queue[i] == i;
      FullKinds(s, acc, i);
      if PageFrame(s, i) { FullPageOk(s, acc, i); }
    }
  }

  lemma FullIsSound(policy: Policy, acc: bool, hand: int)
    ensures Shape(Full(policy, acc, hand), acc) && Sound(Full(policy, acc, hand))
  {
    hide Shape, Full, TreeOk, QueueOk, MapOk, OwnersOk, CleanOk, AgesOk, NoOrphans, DirsOk, DirFramesOk;
    FullShape(policy, acc, hand);
    var s := Full(policy, acc, hand);
    FullTree(s, acc);
    FullStoresOk(s, acc);
    FullRest(s, acc);
    FullDirs(s, acc);
  }

  // ----------------------------------------------------------------------- it fails

  lemma QueuePlace(s: State, acc: bool, i: int)
    requires Shape(s, acc) && IsFrame(i)
    ensures IndexOf(s.queue, i) == i && i in s.queue
  {
    assert s.queue[i] == i;
    assert s.queue[IndexOf(s.queue, i)] == IndexOf(s.queue, i);
  }

  /** Aging evicts the only page of the first table. */
  lemma OnlyPageAges(s: State)
    requires Sound(s) && Shape(s, false) && s.policy == AGING
    ensures PagesOk(s) && QueueNodes(s) && AgesOk(s) && EvictsLast(s, FEW)
  {
    hide Inv, PagesOk, QueueNodes, AgeAll, SearchAging, AgesOk, Shape, PageOk, Linked;
    GetFrmReady(s, -1, -1);
    AgingVictim(s);
    QueuePlace(s, false, ONLY);
    FullKinds(s, false, ONLY);
    FullPageOk(s, false, ONLY);
    AllTaken(s, false);
    var (s1, v) := SearchAging(s).value;
    QueuePlace(s, false, v);
    FullKinds(s, false, v);
    NotAged(s, ONLY);
    NoAge(s1, v);
    assert s.queue[ONLY] == ONLY by { QueueAt(s, false, ONLY); }
    assert v == ONLY;
  }

  lemma QueueAt(s: State, acc: bool, i: int)
    requires Shape(s, acc) && IsFrame(i)
    ensures |s.queue| == NFRAMES && s.queue[i] == i
  {
  }

  lemma AllTaken(s: State, acc: bool)
    requires Shape(s, acc)
    ensures FirstFree(s.frm, 0) == NFRAMES && s.frm[FEW].refcnt == 1
  {
    assert s.frm[FEW] == FullFrame(FEW);
    if FirstFree(s.frm, 0) < NFRAMES { FullKinds(s, acc, FirstFree(s.frm, 0)); }
  }

  lemma NotAged(s: State, i: int)
    requires Shape(s, false) && ONLY <= i < MANY
    ensures AgeAll(s, s.queue).frm[i].age == 0
  {
    FullPageOk(s, false, i);
    FullKinds(s, false, i);
    QueuePlace(s, false, i);
  }

  lemma NoAge(s: State, i: int)
    requires AgesOk(s) && IsFrame(i)
    ensures s.frm[i].age >= 0
  {
  }

  /** A fault on the second page of that table takes its only page for the frame, and with it
      the table: the instruction will not find its page, and the invariant is lost. */
  lemma FaultFails()
    ensures
      var s := Full(AGING, false, -1);
      && Sound(s) && Legal(s, 4097) && s.cur == 1 && NotCached(s, 1, 4097) && !FaultSafe(s, 4097)
      && PageIn(s, 4097).Some? && !Valid(PageIn(s, 4097).value) && !Resident(PageIn(s, 4097).value, 1, 4097)
  {
    hide Full, Shape, Inv, PagesOk, QueueNodes, AgesOk, GetFrame.Search, PageIn, NotCached, EvictsLast;
    var s := Full(AGING, false, -1);
    assert s.policy == AGING && s.cur == 1 by { FullFields(AGING, false, -1); }
    FullIsSound(AGING, false, -1);
    OnlyPageAges(s);
    FullDirs(s, false);
    FullLookup(s, false, 0, 4097);
    NotThere(s, false, 4097);
    CurHasDir(s) by { InvParts(s, -1, -1); }
    assert Pdi(4097) == 4 && PdeAt(s, 1, 4) == FullEntry(1, 4);
    EvictsGets(s, FEW);
    FaultEnds(s, 4097);
    FaultKeepsInv(s, 4097);
    FaultMakesResident(s, 4097);
  }

  lemma FullFields(policy: Policy, acc: bool, hand: int)
    ensures var s := Full(policy, acc, hand); s.policy == policy && s.cur == 1 && s.hand == hand
  {
  }

  lemma NotThere(s: State, acc: bool, v: int)
    requires Shape(s, acc) && 4096 < v < 5120
    ensures NotCached(s, 1, v)
  {
    forall i | PageFrame(s, i)
      ensures s.frm[i].vpno != v
    {
      assert s.frm[i] == FullFrame(i);
    }
  }

  lemma EvictsGets(s: State, t: int)
    requires PagesOk(s) && QueueNodes(s) && AgesOk(s) && EvictsLast(s, t)
    ensures GetFrm(s).Some?
  {
    SearchKeepsPages(s);
  }

  lemma FaultEnds(s: State, v: int)
    requires Valid(s) && Legal(s, v) && HasDir(s, s.cur) && PdeAt(s, s.cur, Pdi(v)).pres
    requires PagesOk(s) && QueueNodes(s) && AgesOk(s) && GetFrm(s).Some?
    ensures PageIn(s, v).Some?
  {
    hide Inv, PagesOk, QueueNodes, AgesOk, GetFrm;
    OldTableReady(s, v);
  }

  lemma OneUnaccessed(s: State)
    requires Shape(s, false)
    ensures SomeUnaccessed(s)
  {
    FullPageOk(s, false, ONLY);
    QueuePlace(s, false, ONLY);
    assert !Accessed(s, ONLY);
  }

  lemma AllAccessed(s: State)
    requires Shape(s, true)
    ensures !SomeUnaccessed(s)
  {
    forall i | i in s.queue && PageFrame(s, i)
      ensures Accessed(s, i)
    {
      FullKinds(s, true, i);
      FullPageOk(s, true, i);
    }
  }

  /** With every access bit set and the last page behind the hand, the search has nowhere to
      go after its lap; with the hand on the tail it has nowhere to start. */
  lemma SearchFails(hand: int)
    requires MANY - 1 <= hand <= MANY
    ensures var s := Full(SC, true, hand); Sound(s) && PagesOk(s) && SearchSC(s) == None
  {
    hide Full, Shape, Inv, PagesOk, QueueNodes, AgesOk, SomeUnaccessed;
    var s := Full(SC, true, hand);
    FullFields(SC, true, hand);
    FullIsSound(SC, true, hand);
    GetFrmReady(s, -1, -1);
    SecondChanceDefined(s);
    AllAccessed(s);
    QueuePlace(s, true, hand);
    QueueAt(s, true, MANY);
    FullKinds(s, true, MANY);
    NoPageFrom(s, MANY);
  }

  lemma NoPageFrom(s: State, k: nat)
    requires |s.queue| == NFRAMES && k == NFRAMES - 1 && s.queue[k] == k && !PageFrame(s, k)
    ensures FirstPage(s.frm, s.queue, k) == |s.queue|
  {
  }

  /** The hand comes to rest on the first table, which goes with its only page: the next
      search has nowhere to start. */
  lemma HandFails()
    ensures
      var s := Full(SC, false, -1);
      && Sound(s) && PagesOk(s) && QueueNodes(s) && AgesOk(s) && NextPos(s).Some? && GetFrm(s).Some?
      && NextPos(GetFrm(s).value.0) == None
  {
    hide Full, Shape, Inv, PagesOk, QueueNodes, AgesOk, SearchSC, SomeUnaccessed, SecondChance;
    var s := Full(SC, false, -1);
    FullFields(SC, false, -1);
    FullIsSound(SC, false, -1);
    GetFrmReady(s, -1, -1);
    AllTaken(s, false);
    QueueAt(s, false, 0);
    SecondChanceDefined(s);
    OneUnaccessed(s);
    SecondChanceVictim(s);
    FirstVictim(s, SearchSC(s).value.0, SearchSC(s).value.1);
    HandAfterEviction(s);
  }

  lemma FirstVictim(s: State, s1: State, v: int)
    requires Shape(s, false) && PageFrame(s, v) && v in s.queue && SecondChance(s, s1, v, 0)
    ensures v == ONLY && Pred(s.queue, IndexOf(s.queue, v)) == FEW && TableOf(s, v) == FEW
  {
    FullKinds(s, false, v);
    FullPageOk(s, false, ONLY);
    QueuePlace(s, false, v);
    assert Lap(s.queue, 0) == s.queue;
    assert s.queue[ONLY] == ONLY && s.queue[FEW] == FEW;
  }
}
