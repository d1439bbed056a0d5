/** paging/pfint.c: making a page resident. */
module PageFault {
  import opened Machine
  import opened BackingStore
  import opened Frames
  import opened PagingInv
  import opened Tweak
  import opened FreeFrame
  import opened Replacement
  import opened GetFrame

  function EmptyTable(): PageTable { seq(NENTRIES, _ => Pte(false, false, false, 0)) }

  function MarkTable(f: Frame, p: int): Frame { f.(mapped := true, ftype := FR_TBL, pid := p) }

  function MarkPage(f: Frame, p: int, v: int): Frame { f.(mapped := true, ftype := FR_PAGE, pid := p, vpno := v) }

  function MoreRef(f: Frame): Frame { f.(refcnt := f.refcnt + 1) }

  /** Frame t becomes an empty table named by directory entry d of process p. The bases of
      absent entries, which the code leaves as they were, are written as zero. */
  function AddTable(s: State, p: int, d: int, t: int): State
    requires HasDir(s, p) && 0 <= d < NENTRIES && IsFrame(t)
  {
    var dir := s.proc[p].pdbr;
    var frm1 := s.frm[t := MarkTable(s.frm[t], p)];
    var phys1 := s.phys[dir := Dir(s.phys[dir].pd[d := Pde(true, FRAME0 + t)])];
    var phys2 := phys1[FRAME0 + t := Table(EmptyTable())];
    s.(frm := frm1, phys := phys2)
  }

  /** Frame f takes page v of process p from its store, entry Pti(v) of table t names it,
      and the table counts one more reference. */
  function FillPage(s: State, p: int, v: int, t: int, f: int): State
    requires IsTable(s, t) && IsFrame(f) && f != t && WellMapped(s.bsm, p, v)
  {
    var pt := s.phys[FRAME0 + t].pt;
    var frm1 := s.frm[f := MarkPage(s.frm[f], p, v)];
    var phys1 := s.phys[FRAME0 + f := s.phys[SlotPage(SlotOf(s.bsm, p, v))]];
    var phys2 := phys1[FRAME0 + t := Table(pt[Pti(v) := Pte(true, false, false, FRAME0 + f)])];
    var frm2 := frm1[t := MoreRef(s.frm[t])];
    s.(frm := frm2, phys := phys2)
  }


  // ------------------------------------------------------------------- the table's frame

  /** What holds when a blank frame t is about to become table d of process p. */
  ghost predicate TableWanted(s: State, p: int, d: int, t: int) {
    && Live(s, p) && HasDir(s, p) && 4 <= d < NENTRIES && !PdeAt(s, p, d).pres
    && 4 <= t < NFRAMES && s.frm[t] == BLANK
    && DirsOk(s)
  }

  lemma AddTablePages(s: State, p: int, d: int, t: int, j: int)
    requires TableWanted(s, p, d, t) && PagesOk(s) && IsFrame(j)
    ensures
      var s2 := AddTable(s, p, d, t);
      (Linked(s2, j) <==> Linked(s, j))
      && (PageFrame(s, j) ==> PageOk(s, j) && PageOk(s2, j) && EntryOf(s2, j) == EntryOf(s, j) && Loc(s2, j) == Loc(s, j))
  {
    assert DirOk(s, p);
    if PageFrame(s, j) {
      assert PageOk(s, j);
      assert DirOk(s, s.frm[j].pid);
    }
  }

  lemma AddTablePde(s: State, p: int, d: int, t: int, q: int, e: int)
    requires TableWanted(s, p, d, t) && DirFramesOk(s) && Live(s, q) && 0 <= e < NENTRIES
    ensures
      var s2 := AddTable(s, p, d, t);
      && DirOk(s, q) && HasDir(s2, q) && Live(s2, q)
      && PdeAt(s2, q, e) == (if (q, e) == (p, d) then Pde(true, FRAME0 + t) else PdeAt(s, q, e))
      && (var f := s2.frm[s2.proc[q].pdbr - FRAME0]; f.mapped && f.ftype == FR_DIR && f.pid == q)
  {
    assert DirOk(s, p) && DirOk(s, q);
    hide DirsOk, DirFramesOk;
  }

  lemma AddTableDirs(s: State, p: int, d: int, t: int)
    requires TableWanted(s, p, d, t) && DirFramesOk(s) && PdesOk(s) && PdesDistinct(s)
    ensures var s2 := AddTable(s, p, d, t); DirsOk(s2) && DirFramesOk(s2) && PdesOk(s2) && PdesDistinct(s2)
  {
    assert DirOk(s, p);
    var s2 := AddTable(s, p, d, t);
    forall q | Live(s2, q)
      ensures DirOk(s2, q)
    {
      AddTablePde(s, p, d, t, q, 0);
      forall e | 0 <= e < 4
        ensures PdeAt(s2, q, e) == Pde(true, FRAME0 + e)
      {
        AddTablePde(s, p, d, t, q, e);
      }
    }
    forall q, e | Live(s2, q) && HasDir(s2, q) && 4 <= e < NENTRIES
      ensures HasDir(s, q)
      ensures PdeAt(s2, q, e) == if (q, e) == (p, d) then Pde(true, FRAME0 + t) else PdeAt(s, q, e)
      ensures PdeAt(s, q, e).pres ==> PdeAt(s, q, e).base != FRAME0 + t
    {
      AddTablePde(s, p, d, t, q, e);
    }
  }

  lemma AddTableTables(s: State, p: int, d: int, t: int)
    requires TableWanted(s, p, d, t) && TablesOk(s, -1) && PtesOk(s)
    ensures TablesOk(AddTable(s, p, d, t), t) && PtesOk(AddTable(s, p, d, t))
  {
    var s2 := AddTable(s, p, d, t);
    CountZero(EmptyTable());
    assert DirOk(s, p);
    forall t2 | TblFrame(s2, t2)
      ensures TableOk(s2, t2, t)
    {
      assert t2 != t ==> TableOk(s, t2, -1);
    }
    forall t2, k | TblFrame(s2, t2) && IsTable(s2, t2) && 0 <= k < NENTRIES && PteAt(s2, t2, k).pres
      ensures PteBacked(s2, t2, k)
    {
      assert t2 != t;
      assert PteAt(s, t2, k) == PteAt(s2, t2, k);
      assert PteBacked(s, t2, k);
      assert TableOk(s, t2, -1);
      assert DirOk(s, s.frm[t2].pid);
    }
  }

  lemma AddTableTree(s: State, p: int, d: int, t: int)
    requires TableWanted(s, p, d, t) && TreeOk(s, -1)
    ensures TreeOk(AddTable(s, p, d, t), t)
  {
    var s2 := AddTable(s, p, d, t);
    AddTableDirs(s, p, d, t);
    AddTableTables(s, p, d, t);
    forall j | PageFrame(s2, j)
      ensures PageOk(s2, j)
    {
      AddTablePages(s, p, d, t, j);
    }
    assert DirOk(s, p);
    forall g | 0 <= g < 4
      ensures GlobalOk(s2, g)
    {
      assert GlobalOk(s, g);
    }
  }

  lemma AddTableQueue(s: State, p: int, d: int, t: int)
    requires TableWanted(s, p, d, t) && QueueOk(s, t) && AgesOk(s)
    ensures QueueOk(AddTable(s, p, d, t), -1) && AgesOk(AddTable(s, p, d, t))
  {
    var s2 := AddTable(s, p, d, t);
    forall i | IsFrame(i)
      ensures i in s2.queue <==> s2.frm[i].mapped
    {
      assert i in s.queue <==> s.frm[i].mapped || i == t;
    }
  }

  lemma AddTableClean(s: State, p: int, d: int, t: int)
    requires TableWanted(s, p, d, t) && PagesOk(s) && CleanOk(s)
    ensures CleanOk(AddTable(s, p, d, t))
  {
    var s2 := AddTable(s, p, d, t);
    forall j | IsFrame(j) && Dirty(s2, j)
      ensures s2.frm[j].pid == s2.cur || s2.proc[s2.frm[j].pid].store != PUBLIC
    {
      AddTablePages(s, p, d, t, j);
      assert Dirty(s, j);
    }
  }

  /** The frame taken for a table makes the tree whole again, with the new table empty. */
  lemma AddTableKeepsInv(s: State, p: int, d: int, t: int)
    requires TableWanted(s, p, d, t) && Inv(s, -1, t)
    ensures Inv(AddTable(s, p, d, t), t, -1)
  {
    var s2 := AddTable(s, p, d, t);
    AddTableTree(s, p, d, t);
    SameTreeOwners(s, s2);
    AddTableQueue(s, p, d, t);
    AddTableClean(s, p, d, t);
  }

  lemma AddTableKeepsMemory(s: State, p: int, d: int, t: int, m: Flat, n: int)
    requires TableWanted(s, p, d, t) && PagesOk(s) && Represents(s, m, n)
    ensures Represents(AddTable(s, p, d, t), m, n)
  {
    var s2 := AddTable(s, p, d, t);
    assert DirOk(s, p);
    forall j | IsFrame(j)
      ensures Linked(s2, j) <==> Linked(s, j)
      ensures Linked(s, j) ==> Loc(s2, j) == Loc(s, j) && (Dirty(s2, j) <==> Dirty(s, j))
      ensures Linked(s, j) ==> s2.frm[j] == s.frm[j] && s2.phys[FRAME0 + j] == s.phys[FRAME0 + j]
    {
      AddTablePages(s, p, d, t, j);
    }
    forall j | IsFrame(j) && Linked(s2, j) && Fresh(s2, j, n) && 0 <= Loc(s2, j) < NSLOTS
      ensures s2.phys[FRAME0 + j] == Data(m[Loc(s2, j)])
    {
      assert Fresh(s, j, n);
    }
    forall x | 0 <= x < NSLOTS && !DirtyAt(s2, x)
      ensures !DirtyAt(s, x)
    {
      forall j | IsFrame(j) && Dirty(s, j) && Loc(s, j) == x
        ensures Dirty(s2, j) && Loc(s2, j) == x
      {
      }
    }
  }

  // -------------------------------------------------------------------- the page's frame

  /** What holds when blank frame f is about to take page v of process p into table t. */
  ghost predicate PageWanted(s: State, p: int, v: int, t: int, f: int) {
    && Live(s, p) && DirOk(s, p) && MIN_VPNO <= v < NVPAGES
    && PdeAt(s, p, Pdi(v)) == Pde(true, FRAME0 + t)
    && TblFrame(s, t) && IsTable(s, t) && s.frm[t].pid == p
    && IsFrame(f) && s.frm[f] == BLANK
    && WellMapped(s.bsm, p, v)
  }

  /** A present entry of a table names the frame that holds its page. */
  lemma EntryCaches(s: State, p: int, v: int, t: int)
    requires PtesOk(s) && PdesDistinct(s) && PagesOk(s)
    requires Live(s, p) && HasDir(s, p) && MIN_VPNO <= v < NVPAGES && PdeAt(s, p, Pdi(v)) == Pde(true, FRAME0 + t)
    requires TblFrame(s, t) && IsTable(s, t) && s.frm[t].pid == p
    requires PteAt(s, t, Pti(v)).pres
    ensures var i := PteAt(s, t, Pti(v)).base - FRAME0; PageFrame(s, i) && s.frm[i].pid == p && s.frm[i].vpno == v
  {
    assert PteBacked(s, t, Pti(v));
    var i := PteAt(s, t, Pti(v)).base - FRAME0;
    assert PageOk(s, i);
    var w := s.frm[i].vpno;
    assert PdeAt(s, p, Pdi(w)).base == PdeAt(s, p, Pdi(v)).base;
    IndexSplit(v, w);
  }

  lemma FillPages(s: State, p: int, v: int, t: int, f: int, j: int)
    requires PageWanted(s, p, v, t, f) && NotCached(s, p, v) && IsFrame(j)
    requires PagesOk(s) && DirsOk(s) && PdesDistinct(s)
    ensures
      var s2 := FillPage(s, p, v, t, f);
      (Linked(s2, j) <==> Linked(s, j) || j == f)
      && (PageFrame(s, j) ==> j != f && PageOk(s, j) && PageOk(s2, j) && Loc(s2, j) == Loc(s, j) && EntryOf(s2, j) == EntryOf(s, j))
  {
    if PageFrame(s, j) {
      assert PageOk(s, j);
      assert DirOk(s, s.frm[j].pid);
      var w := s.frm[j].vpno;
      IndexSplit(v, w);
      if s.frm[j].pid == p && TableOf(s, j) == t {
        assert PdeAt(s, p, Pdi(w)).base == PdeAt(s, p, Pdi(v)).base;
      }
    }
  }

  lemma FilledPage(s: State, p: int, v: int, t: int, f: int)
    requires PageWanted(s, p, v, t, f) && FramesOk(s)
    ensures
      var s2 := FillPage(s, p, v, t, f);
      PageOk(s2, f) && EntryOf(s2, f) == Pte(true, false, false, FRAME0 + f) && Loc(s2, f) == SlotOf(s.bsm, p, v)
  {
  }

  lemma FillDirs(s: State, p: int, v: int, t: int, f: int)
    requires PageWanted(s, p, v, t, f) && DirsOk(s) && DirFramesOk(s)
    ensures DirsOk(FillPage(s, p, v, t, f)) && DirFramesOk(FillPage(s, p, v, t, f))
  {
    var s2 := FillPage(s, p, v, t, f);
    forall q | Live(s2, q)
      ensures DirOk(s2, q)
    {
      assert DirOk(s, q);
      forall e | 0 <= e < 4
        ensures PdeAt(s2, q, e) == Pde(true, FRAME0 + e)
      {
        assert PdeAt(s, q, e) == Pde(true, FRAME0 + e);
      }
    }
  }

  lemma FillPdes(s: State, p: int, v: int, t: int, f: int)
    requires PageWanted(s, p, v, t, f) && DirsOk(s) && PdesOk(s) && PdesDistinct(s)
    ensures PdesOk(FillPage(s, p, v, t, f)) && PdesDistinct(FillPage(s, p, v, t, f))
  {
    var s2 := FillPage(s, p, v, t, f);
    forall q, e | Live(s2, q) && HasDir(s2, q) && 4 <= e < NENTRIES
      ensures HasDir(s, q) && PdeAt(s2, q, e) == PdeAt(s, q, e)
    {
      assert DirOk(s, q);
    }
  }

  lemma FillTables(s: State, p: int, v: int, t: int, f: int)
    requires PageWanted(s, p, v, t, f) && TablesOk(s, t) && DirsOk(s)
    requires !PteAt(s, t, Pti(v)).pres
    ensures TablesOk(FillPage(s, p, v, t, f), -1)
  {
    var s2 := FillPage(s, p, v, t, f);
    CountUpdate(s.phys[FRAME0 + t].pt, Pti(v), Pte(true, false, false, FRAME0 + f));
    forall t2 | TblFrame(s2, t2)
      ensures TableOk(s2, t2, -1)
    {
      assert TableOk(s, t2, t);
    }
  }

  lemma FillPtes(s: State, p: int, v: int, t: int, f: int)
    requires PageWanted(s, p, v, t, f) && PtesOk(s) && DirsOk(s) && TablesOk(s, t)
    ensures PtesOk(FillPage(s, p, v, t, f))
  {
    var s2 := FillPage(s, p, v, t, f);
    forall t2, k | TblFrame(s2, t2) && IsTable(s2, t2) && 0 <= k < NENTRIES && PteAt(s2, t2, k).pres
      ensures PteBacked(s2, t2, k)
    {
      assert TableOk(s, t2, t);
      if (t2, k) != (t, Pti(v)) {
        assert PteAt(s, t2, k) == PteAt(s2, t2, k);
        assert PteBacked(s, t2, k);
        assert DirOk(s, s.frm[t2].pid);
      }
    }
  }

  lemma FillGlobals(s: State, p: int, v: int, t: int, f: int)
    requires PageWanted(s, p, v, t, f) && FramesOk(s)
    ensures FramesOk(FillPage(s, p, v, t, f))
  {
    forall g | 0 <= g < 4
      ensures GlobalOk(FillPage(s, p, v, t, f), g)
    {
      assert GlobalOk(s, g);
    }
  }

  lemma FillTree(s: State, p: int, v: int, t: int, f: int)
    requires PageWanted(s, p, v, t, f) && NotCached(s, p, v) && TreeOk(s, t)
    ensures TreeOk(FillPage(s, p, v, t, f), -1)
  {
    var s2 := FillPage(s, p, v, t, f);
    FillDirs(s, p, v, t, f);
    FillPdes(s, p, v, t, f);
    assert !PteAt(s, t, Pti(v)).pres by {
      if PteAt(s, t, Pti(v)).pres {
        EntryCaches(s, p, v, t);
      }
    }
    FillTables(s, p, v, t, f);
    FillPtes(s, p, v, t, f);
    FillGlobals(s, p, v, t, f);
    FilledPage(s, p, v, t, f);
    forall j | PageFrame(s2, j)
      ensures PageOk(s2, j)
    {
      FillPages(s, p, v, t, f, j);
    }
  }

  lemma FillClean(s: State, p: int, v: int, t: int, f: int)
    requires PageWanted(s, p, v, t, f) && NotCached(s, p, v) && FramesOk(s)
    requires PagesOk(s) && DirsOk(s) && PdesDistinct(s) && CleanOk(s)
    ensures CleanOk(FillPage(s, p, v, t, f))
  {
    var s2 := FillPage(s, p, v, t, f);
    forall j | IsFrame(j) && Dirty(s2, j)
      ensures s2.frm[j].pid == s2.cur || s2.proc[s2.frm[j].pid].store != PUBLIC
    {
      FillPages(s, p, v, t, f, j);
      FilledPage(s, p, v, t, f);
      assert Dirty(s, j);
    }
  }

  lemma FillQueue(s: State, p: int, v: int, t: int, f: int)
    requires PageWanted(s, p, v, t, f) && QueueOk(s, f) && AgesOk(s)
    ensures QueueOk(FillPage(s, p, v, t, f), -1) && AgesOk(FillPage(s, p, v, t, f))
  {
  }

  /** With the page in place every count is right again, the new table's included. */
  lemma FillKeepsInv(s: State, p: int, v: int, t: int, f: int)
    requires PageWanted(s, p, v, t, f) && NotCached(s, p, v) && Inv(s, t, f)
    ensures Valid(FillPage(s, p, v, t, f))
  {
    FillTree(s, p, v, t, f);
    SameTreeOwners(s, FillPage(s, p, v, t, f));
    FillQueue(s, p, v, t, f);
    FillClean(s, p, v, t, f);
  }

  /** If two processes see one slot, and the first does not use public stores, they are one. */
  lemma OneViewer(s: State, p: int, v: int, q: int, w: int)
    requires MapOk(s.bsm) && OwnersOk(s) && Live(s, p) && Lookup(s.bsm, p, v).Some? && Lookup(s.bsm, q, w).Some?
    requires SlotOf(s.bsm, p, v) == SlotOf(s.bsm, q, w) && s.proc[p].store != PUBLIC
    ensures p == q
  {
    hide Lookup, SlotOf, PairsOk, StoreOk;
    SlotBounds(s.bsm, p, v);
    SlotBounds(s.bsm, q, w);
    var h, h2 := Lookup(s.bsm, p, v).value, Lookup(s.bsm, q, w).value;
    LookupCovers(s.bsm, p, v);
    LookupCovers(s.bsm, q, w);
    assert OwnerOk(s, h.store, h.pos);
    OnlyMapping(s.bsm, h.store);
  }

  lemma OnlyMapping(bsm: StoreMap, b: int)
    requires MapOk(bsm) && 0 <= b < MAX_NUM_BS
    ensures bsm[b].mapped && bsm[b].priv ==> |bsm[b].maps| == 1
  {
    assert StoreOk(bsm[b]);
  }

  /** No frame holds unsaved changes to a page that is not resident in the running process. */
  lemma NoDirtyCopy(s: State, p: int, v: int)
    requires PagesOk(s) && CleanOk(s) && MapOk(s.bsm) && OwnersOk(s)
    requires p == s.cur && WellMapped(s.bsm, p, v) && NotCached(s, p, v)
    ensures !DirtyAt(s, SlotOf(s.bsm, p, v))
  {
    hide Lookup, SlotOf, MapOk, OwnersOk;
    forall i | IsFrame(i) && Dirty(s, i)
      ensures Loc(s, i) != SlotOf(s.bsm, p, v)
    {
      var f := s.frm[i];
      assert PageOk(s, i);
      if Loc(s, i) == SlotOf(s.bsm, p, v) {
        if f.pid != p { OneViewer(s, f.pid, f.vpno, p, v); }
        SlotInjective(s.bsm, p, f.vpno, v);
      }
    }
  }

  /** The other page frames keep slot, dirty bit and contents. */
  lemma FillOthers(s: State, p: int, v: int, t: int, f: int, j: int)
    requires PageWanted(s, p, v, t, f) && NotCached(s, p, v) && PagesOk(s) && FramesOk(s) && DirsOk(s) && PdesDistinct(s) && IsFrame(j)
    ensures
      var s2 := FillPage(s, p, v, t, f);
      && (Linked(s2, j) <==> Linked(s, j) || j == f)
      && (Linked(s, j) ==> Loc(s2, j) == Loc(s, j) && (Dirty(s2, j) <==> Dirty(s, j)))
      && (Linked(s, j) ==> j != f && s2.frm[j] == s.frm[j] && s2.phys[FRAME0 + j] == s.phys[FRAME0 + j])
  {
    FillPages(s, p, v, t, f, j);
    assert Linked(s, j) ==> PageOk(s, j);
    hide PagesOk, DirsOk, PdesDistinct, NotCached;
  }

  lemma FillKeepsMemory(s: State, p: int, v: int, t: int, f: int, m: Flat, n: int)
    requires PageWanted(s, p, v, t, f) && NotCached(s, p, v) && FramesOk(s)
    requires PagesOk(s) && DirsOk(s) && PdesDistinct(s) && Represents(s, m, n)
    requires !DirtyAt(s, SlotOf(s.bsm, p, v))
    ensures Represents(FillPage(s, p, v, t, f), m, n)
  {
    hide PagesOk, DirsOk, PdesDistinct, NotCached;
    var s2 := FillPage(s, p, v, t, f);
    forall j | IsFrame(j)
      ensures Linked(s2, j) <==> Linked(s, j) || j == f
      ensures Linked(s, j) ==> Loc(s2, j) == Loc(s, j) && (Dirty(s2, j) <==> Dirty(s, j))
      ensures Linked(s, j) ==> j != f && s2.frm[j] == s.frm[j] && s2.phys[FRAME0 + j] == s.phys[FRAME0 + j]
    {
      FillOthers(s, p, v, t, f, j);
    }
    FilledPage(s, p, v, t, f);
    forall j | IsFrame(j) && Linked(s2, j) && Fresh(s2, j, n) && 0 <= Loc(s2, j) < NSLOTS
      ensures s2.phys[FRAME0 + j] == Data(m[Loc(s2, j)])
    {
      assert j != f ==> Fresh(s, j, n);
    }
    forall x | 0 <= x < NSLOTS && !DirtyAt(s2, x)
      ensures !DirtyAt(s, x)
    {
      forall j | IsFrame(j) && Dirty(s, j) && Loc(s, j) == x
        ensures Dirty(s2, j) && Loc(s2, j) == x
      {
      }
    }
  }
}
