/** The paging part of sys/initialize.c: the state from which every run starts. */
module Boot {
  import opened Machine
  import opened BackingStore
  import opened Frames
  import opened PagingInv
  import opened Birth
  import opened PagingRun

  /** Physical memory before initialisation: raw data. */
  ghost predicate Raw(phys: Memory) {
    forall n {:trigger phys[n]} :: 0 <= n < NPAGES ==> phys[n].Data?
  }

  /** Global table g maps the g-th block of 1024 physical pages onto itself. */
  function GlobalTable(g: int): PageTable {
    seq(NENTRIES, j => Pte(true, false, false, g * NENTRIES + j))
  }

  function BootFrame(i: int): Frame {
    if 0 <= i < 4 then Frame(true, 0, 0, NENTRIES, FR_TBL, 0)
    else if i == 4 then Frame(true, 0, 0, 0, FR_DIR, 0)
    else BLANK
  }

  function BootFrames(): FrameTable { seq(NFRAMES, i => BootFrame(i)) }

  function BootMemory(phys: Memory): Memory {
    var p0 := phys[FRAME0 := Table(GlobalTable(0))];
    var p1 := p0[FRAME0 + 1 := Table(GlobalTable(1))];
    var p2 := p1[FRAME0 + 2 := Table(GlobalTable(2))];
    var p3 := p2[FRAME0 + 3 := Table(GlobalTable(3))];
    p3[FRAME0 + 4 := Dir(NewDir(phys[FRAME0 + 4]))]
  }

  function BootPage(phys: Memory, n: int): Content
    requires 0 <= n < NPAGES
  {
    if FRAME0 <= n < FRAME0 + 4 then Table(GlobalTable(n - FRAME0))
    else if n == FRAME0 + 4 then Dir(NewDir(phys[FRAME0 + 4]))
    else phys[n]
  }

  function BootProcs(): ProcTable {
    seq(NPROC, p => Proc(p == 0, FRAME0 + 4, NO_STORE, 0, 0))
  }

  function ClosedStores(): StoreMap { seq(MAX_NUM_BS, _ => FREE_STORE) }

  /** Frames 0 to n - 1 handed out in this order. */
  function FirstFrames(n: nat): History { History(seq(NFRAMES, i => if 0 <= i < n then i else 0), n) }

  /** `sysinit` after its paging steps: four global tables, the null process's directory,
      all stores closed. The Second-Chance hand points nowhere before srpolicy is called. */
  function BootState(phys: Memory, policy: Policy): State {
    State(BootFrames(), BootMemory(phys), ClosedStores(), BootProcs(), 0, [0, 1, 2, 3, 4], -2, policy, FirstFrames(5))
  }

  /** What the boot state looks like, place by place. */
  lemma BootShape(phys: Memory, policy: Policy)
    ensures
      var s := BootState(phys, policy);
      && (forall i {:trigger s.frm[i]} :: IsFrame(i) ==> s.frm[i] == BootFrame(i))
      && (forall p {:trigger s.proc[p]} :: IsPid(p) ==> s.proc[p] == Proc(p == 0, FRAME0 + 4, NO_STORE, 0, 0))
      && (forall b {:trigger s.bsm[b]} :: 0 <= b < MAX_NUM_BS ==> s.bsm[b] == FREE_STORE)
      && (forall n {:trigger s.phys[n]} :: 0 <= n < NPAGES ==> s.phys[n] == BootPage(phys, n))
  {
    hide NewDir, GlobalTable;
  }

  lemma BootDir(phys: Memory, policy: Policy)
    ensures
      var s := BootState(phys, policy);
      HasDir(s, 0) && (forall g :: 0 <= g < 4 ==> PdeAt(s, 0, g) == Pde(true, FRAME0 + g))
      && forall d :: 4 <= d < NENTRIES ==> PdeAt(s, 0, d) == AsDir(phys[FRAME0 + 4])[d]
  {
    hide GlobalTable, AsDir, BootFrames, BootProcs, BootMemory, ClosedStores;
    BootShape(phys, policy);
  }

  /** Through the global tables every page below 4096 leads to itself. */
  lemma LowMemoryIsIdentity(phys: Memory, policy: Policy, v: int)
    requires 0 <= v < NPAGES
    ensures
      var s := BootState(phys, policy);
      var t := Pdi(v);
      Resident(s, 0, v) && PdeAt(s, 0, t).base == FRAME0 + t && IsTable(s, t) && PteAt(s, t, Pti(v)) == Pte(true, false, false, v)
  {
    hide BootFrames, BootProcs, BootMemory, ClosedStores, NewDir;
    IndexSplit(v, v);
    BootShape(phys, policy);
    BootDir(phys, policy);
    var s := BootState(phys, policy);
    assert s.phys[FRAME0 + Pdi(v)] == Table(GlobalTable(Pdi(v)));
  }

  /** The initial memory: what the stores' pages hold at boot. */
  ghost function BootFlat(phys: Memory): Flat
    requires Raw(phys)
  {
    seq<Page>(NSLOTS, n requires 0 <= n < NSLOTS => phys[SlotPage(n)].bytes)
  }

  /** No frame holds a page, and no table but the global ones exists. */
  lemma BootEmpty(phys: Memory, policy: Policy, i: int)
    requires IsFrame(i)
    ensures
      var s := BootState(phys, policy);
      s.frm[i] == BootFrame(i) && !PageFrame(s, i) && !TblFrame(s, i) && !Linked(s, i)
  {
    hide NewDir, GlobalTable;
  }

  lemma BootRepresents(phys: Memory, policy: Policy)
    requires Raw(phys)
    ensures Represents(BootState(phys, policy), BootFlat(phys), NFRAMES)
  {
    hide NewDir, GlobalTable, BootFrames, BootProcs, ClosedStores;
    var s := BootState(phys, policy);
    forall i | IsFrame(i)
      ensures !Linked(s, i)
    {
      BootEmpty(phys, policy, i);
    }
    forall n | 0 <= n < NSLOTS
      ensures s.phys[SlotPage(n)] == Data(BootFlat(phys)[n])
    {
    }
  }

  lemma BootDirs(phys: Memory, policy: Policy)
    ensures var s := BootState(phys, policy); DirsOk(s) && DirFramesOk(s)
  {
    hide BootFrames, BootProcs, BootMemory, ClosedStores, NewDir, GlobalTable;
    BootShape(phys, policy);
    BootDir(phys, policy);
    var s := BootState(phys, policy);
    assert s.frm[4] == BootFrame(4) && s.proc[0] == Proc(true, FRAME0 + 4, NO_STORE, 0, 0);
    forall i | IsFrame(i) && s.frm[i].mapped && s.frm[i].ftype == FR_DIR
      ensures i == 4
    {
      assert s.frm[i] == BootFrame(i);
    }
    forall p | Live(s, p)
      ensures p == 0
    {
      assert s.proc[p] == Proc(p == 0, FRAME0 + 4, NO_STORE, 0, 0);
    }
    assert DirOk(s, 0);
  }

  lemma NothingToCount(s: State)
    requires forall i {:trigger s.frm[i]} :: IsFrame(i) && s.frm[i].mapped ==>
      s.frm[i].ftype == FR_DIR || (s.frm[i].ftype == FR_TBL && i < 4)
    ensures TablesOk(s, -1) && PtesOk(s) && PagesOk(s)
  {
    forall t ensures !TblFrame(s, t) { }
    forall i ensures !PageFrame(s, i) { }
  }

  lemma BootTree(phys: Memory, policy: Policy)
    requires Raw(phys) && StaleClear(phys[FRAME0 + 4])
    ensures TreeOk(BootState(phys, policy), -1)
  {
    hide AsDir, BootFrames, BootProcs, BootMemory, ClosedStores, NewDir, GlobalTable, DirsOk, DirFramesOk;
    var s := BootState(phys, policy);
    BootShape(phys, policy);
    BootDir(phys, policy);
    BootDirs(phys, policy);
    forall p, d | Live(s, p) && HasDir(s, p) && 4 <= d < NENTRIES
      ensures !PdeAt(s, p, d).pres
    {
      assert s.proc[p] == Proc(p == 0, FRAME0 + 4, NO_STORE, 0, 0);
    }
    forall i | IsFrame(i) && s.frm[i].mapped
      ensures s.frm[i].ftype == FR_DIR || (s.frm[i].ftype == FR_TBL && i < 4)
    {
      assert s.frm[i] == BootFrame(i);
    }
    NothingToCount(s);
    forall g | 0 <= g < 4
      ensures GlobalOk(s, g)
    {
      assert s.frm[g] == BootFrame(g) && s.phys[FRAME0 + g] == BootPage(phys, FRAME0 + g);
    }
    forall i | IsFrame(i) && !s.frm[i].mapped
      ensures s.frm[i] == BLANK
    {
      assert s.frm[i] == BootFrame(i);
    }
    forall n | FRAME0 + NFRAMES <= n < NPAGES
      ensures s.phys[n].Data?
    {
      assert s.phys[n] == BootPage(phys, n);
    }
  }

  lemma BootStores(phys: Memory, policy: Policy)
    ensures
      var s := BootState(phys, policy);
      MapOk(s.bsm) && OwnersOk(s) && NoOrphans(s) && Live(s, 0)
  {
    hide BootFrames, BootMemory, NewDir, GlobalTable;
    var s := BootState(phys, policy);
    forall b, k
      ensures !IsMap(s.bsm, b, k)
    {
    }
    forall p | Live(s, p)
      ensures StoreFieldOk(s, p)
    {
      assert p == 0;
    }
  }

  lemma BootRest(phys: Memory, policy: Policy)
    ensures var s := BootState(phys, policy); QueueOk(s, -1) && CleanOk(s) && AgesOk(s)
  {
    hide BootProcs, BootMemory, ClosedStores, NewDir, GlobalTable;
    var s := BootState(phys, policy);
    forall i | IsFrame(i)
      ensures s.frm[i] == BootFrame(i) && !Linked(s, i)
    {
      BootEmpty(phys, policy, i);
    }
  }

  /** The boot state is sound exactly when the null process's directory frame reads as
      empty beyond the four entries that are written. */
  lemma BootIsSound(phys: Memory, policy: Policy)
    requires Raw(phys)
    ensures Sound(BootState(phys, policy)) <==> StaleClear(phys[FRAME0 + 4])
  {
    hide BootFrames, BootProcs, BootMemory, ClosedStores, QueueOk, MapOk, OwnersOk, NoOrphans, CleanOk, AgesOk, AsDir;
    BootRest(phys, policy);
    BootStores(phys, policy);
    if StaleClear(phys[FRAME0 + 4]) {
      BootTree(phys, policy);
    } else {
      BootStale(phys, policy);
    }
  }

  lemma BootStale(phys: Memory, policy: Policy)
    requires !StaleClear(phys[FRAME0 + 4])
    ensures !PdesOk(BootState(phys, policy))
  {
    hide BootFrames, BootProcs, BootMemory, ClosedStores, AsDir, NewDir, GlobalTable;
    var s := BootState(phys, policy);
    BootShape(phys, policy);
    BootDir(phys, policy);
    var d :| 4 <= d < NENTRIES && AsDir(phys[FRAME0 + 4])[d].pres;
    assert PdeAt(s, 0, d).pres;
  }
}
