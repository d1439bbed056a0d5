/** The whole page-fault transition of paging/pfint.c, and when it is right. */
module FaultStep {
  import opened Machine
  import opened BackingStore
  import opened Frames
  import opened PagingInv
  import opened Tweak
  import opened Replacement
  import opened GetFrame
  import opened PageFault

  /** The running process touches mapped page v. */
  ghost predicate Legal(s: State, v: int) {
    Live(s, s.cur) && MIN_VPNO <= v < NVPAGES && WellMapped(s.bsm, s.cur, v)
  }

  lemma CurHasDir(s: State)
    requires DirsOk(s) && Live(s, s.cur)
    ensures DirOk(s, s.cur)
  {
  }

  /** The table for page v: the one the directory names, or a new one. */
  ghost function TableFor(s: State, v: int): Option<(State, int)>
    requires Valid(s) && Legal(s, v)
  {
    CurHasDir(s);
    var e := PdeAt(s, s.cur, Pdi(v));
    if e.pres then Some((s, e.base - FRAME0))
    else
      match GetFrm(s)
      case None => None
      case Some((s1, t)) =>
        GetFrmKeepsAbsent(s, s.cur, Pdi(v));
        GetFrmGrants(s);
        Some((AddTable(s1, s.cur, Pdi(v), t), t))
  }

  /** Everything that is known once the table is there. */
  ghost predicate TableReady(s: State, s1: State, v: int, t: int) {
    && Inv(s1, t, -1) && Legal(s1, v)
    && s1.bsm == s.bsm && s1.proc == s.proc && s1.cur == s.cur && s1.policy == s.policy
    && TblFrame(s1, t) && IsTable(s1, t) && s1.frm[t].pid == s.cur
    && HasDir(s1, s.cur) && PdeAt(s1, s.cur, Pdi(v)) == Pde(true, FRAME0 + t)
    && (NotCached(s, s.cur, v) ==> NotCached(s1, s.cur, v))
  }

  lemma GrantedNotCached(s: State, s2: State, f: int, p: int, v: int)
    requires Granted(s, s2, f) && NotCached(s, p, v)
    ensures NotCached(s2, p, v)
  {
    forall i | PageFrame(s2, i)
      ensures s2.frm[i].pid != p || s2.frm[i].vpno != v
    {
      assert PageFrame(s, i);
    }
  }

  lemma FillWeaker(s: State, t: int, pend: int)
    requires Inv(s, -1, pend)
    ensures Inv(s, t, pend)
  {
    forall t2 | TblFrame(s, t2)
      ensures TableOk(s, t2, t)
    {
      assert TableOk(s, t2, -1);
    }
  }

  lemma NewTableReady(s: State, v: int)
    requires Valid(s) && Legal(s, v) && HasDir(s, s.cur) && !PdeAt(s, s.cur, Pdi(v)).pres && GetFrm(s).Some?
    ensures TableFor(s, v).Some? && TableReady(s, TableFor(s, v).value.0, v, TableFor(s, v).value.1)
    ensures TableFor(s, v).value.0.frm[TableFor(s, v).value.1].refcnt == 0
  {
    hide QueueOk, MapOk, OwnersOk, CleanOk, GetFrm, PagesOk, PtesOk, PdesOk, PdesDistinct;
    GetFrmReady(s, -1, -1);
    InvParts(s, -1, -1);
    var p, d := s.cur, Pdi(v);
    var (s1, t) := GetFrm(s).value;
    GetFrmKeepsInv(s, -1);
    GetFrmGrants(s);
    GetFrmKeepsAbsent(s, p, d);
    if NotCached(s, p, v) {
      GrantedNotCached(s, s1, t, p, v);
    }
    forall g | 0 <= g < 4
      ensures s1.frm[g].mapped
    {
      assert GlobalOk(s1, g);
    }
    AddTableKeepsInv(s1, p, d, t);
  }

  lemma OldTableReady(s: State, v: int)
    requires Valid(s) && Legal(s, v) && HasDir(s, s.cur) && PdeAt(s, s.cur, Pdi(v)).pres
    ensures TableFor(s, v).Some? && TableReady(s, TableFor(s, v).value.0, v, TableFor(s, v).value.1)
    ensures TableFor(s, v).value.0 == s
  {
    var t := PdeAt(s, s.cur, Pdi(v)).base - FRAME0;
    assert TblFrame(s, t);
    assert TableOk(s, t, -1);
    FillWeaker(s, t, -1);
  }

  lemma TableForReady(s: State, v: int)
    requires Valid(s) && Legal(s, v) && TableFor(s, v).Some?
    ensures TableReady(s, TableFor(s, v).value.0, v, TableFor(s, v).value.1)
  {
    CurHasDir(s);
    if PdeAt(s, s.cur, Pdi(v)).pres { OldTableReady(s, v); } else { NewTableReady(s, v); }
  }

  /** The legal part of `pfint`: table, frame, contents, entry, reference count. None
      stands for a victim search that follows a null link. */
  ghost function PageIn(s: State, v: int): Option<State>
    requires Valid(s) && Legal(s, v)
  {
    match TableFor(s, v)
    case None => None
    case Some((s1, t)) =>
      TableForReady(s, v);
      match GetFrm(s1)
      case None => None
      case Some((s2, f)) =>
        GetFrmKeepsKind(s1, s.cur, t);
        GetFrmKeepsAbsent(s1, s.cur, Pdi(v));
        GetFrmGrants(s1);
        Some(FillPage(s2, s.cur, v, t, f))
  }

  /** What a caller can check before the fault: if the page's table exists, the victim is
      not the only page in it. The count is raised only after the eviction. */
  ghost predicate FaultSafe(s: State, v: int)
    requires Valid(s) && Legal(s, v)
  {
    CurHasDir(s);
    PdeAt(s, s.cur, Pdi(v)).pres ==> !EvictsLast(s, PdeAt(s, s.cur, Pdi(v)).base - FRAME0)
  }

  /** The condition as it stands once the table is there. */
  lemma SafeForTable(s: State, v: int)
    requires Valid(s) && Legal(s, v) && TableFor(s, v).Some?
    ensures TableReady(s, TableFor(s, v).value.0, v, TableFor(s, v).value.1)
    ensures FaultSafe(s, v) <==> !EvictsLast(TableFor(s, v).value.0, TableFor(s, v).value.1)
  {
    CurHasDir(s);
    if PdeAt(s, s.cur, Pdi(v)).pres { OldTableReady(s, v); } else { NewTableReady(s, v); }
  }

  /** Filling a table that survived. */
  lemma FillSurvivor(s1: State, v: int, t: int)
    requires Inv(s1, t, -1) && Legal(s1, v) && NotCached(s1, s1.cur, v) && GetFrm(s1).Some? && !EvictsLast(s1, t)
    requires TblFrame(s1, t) && IsTable(s1, t) && s1.frm[t].pid == s1.cur
    requires HasDir(s1, s1.cur) && PdeAt(s1, s1.cur, Pdi(v)) == Pde(true, FRAME0 + t)
    ensures
      var (s2, f) := GetFrm(s1).value;
      Inv(s2, t, f) && PageWanted(s2, s1.cur, v, t, f) && NotCached(s2, s1.cur, v) && s2.cur == s1.cur
  {
    var (s2, f) := GetFrm(s1).value;
    GetFrmKeepsInv(s1, t);
    GetFrmGrants(s1);
    GetFrmKeepsTable(s1, s1.cur, Pdi(v), t);
    GetFrmKeepsKind(s1, s1.cur, t);
    GrantedNotCached(s1, s2, f, s1.cur, v);
    CurHasDir(s2);
  }

  /** Filling a table that get_frm has just revoked: the freed frame of the table counts
      a reference, and no directory entry leads to the page. */
  lemma FillRevoked(s1: State, v: int, t: int)
    requires Inv(s1, t, -1) && Legal(s1, v) && GetFrm(s1).Some? && EvictsLast(s1, t)
    requires TblFrame(s1, t) && IsTable(s1, t) && s1.frm[t].pid == s1.cur
    requires HasDir(s1, s1.cur) && PdeAt(s1, s1.cur, Pdi(v)) == Pde(true, FRAME0 + t)
    ensures
      var (s2, f) := GetFrm(s1).value;
      IsTable(s2, t) && IsFrame(f) && f != t && WellMapped(s2.bsm, s1.cur, v) && s2.proc == s1.proc
      && s2.frm[t] == BLANK && s2.frm[f] == BLANK && HasDir(s2, s1.cur) && !PdeAt(s2, s1.cur, Pdi(v)).pres
      && DirOk(s2, s1.cur)
  {
    GetFrmGrants(s1);
    GetFrmRevokes(s1, s1.cur, Pdi(v), t);
    GetFrmKeepsAbsent(s1, s1.cur, Pdi(v));
    GetFrmKeepsKind(s1, s1.cur, t);
    RevokedBlank(s1, v, t);
  }

  lemma RevokedBlank(s1: State, v: int, t: int)
    requires Inv(s1, t, -1) && Legal(s1, v) && GetFrm(s1).Some? && EvictsLast(s1, t)
    requires TblFrame(s1, t) && HasDir(s1, s1.cur) && PdeAt(s1, s1.cur, Pdi(v)) == Pde(true, FRAME0 + t)
    ensures GetFrm(s1).value.0.frm[t] == BLANK && Live(GetFrm(s1).value.0, s1.cur) && DirOk(GetFrm(s1).value.0, s1.cur)
  {
    GetFrmKeepsInv(s1, t);
    GetFrmGrants(s1);
    GetFrmKeepsTable(s1, s1.cur, Pdi(v), t);
    CurHasDir(GetFrm(s1).value.0);
  }

  /** The fill itself then leaves the directory alone. */
  lemma FillLeavesDir(s: State, p: int, v: int, t: int, f: int)
    requires IsTable(s, t) && IsFrame(f) && f != t && WellMapped(s.bsm, p, v) && IsPid(p) && DirOk(s, p) && s.frm[f] == BLANK
    requires MIN_VPNO <= v < NVPAGES
    ensures HasDir(FillPage(s, p, v, t, f), p) && PdeAt(FillPage(s, p, v, t, f), p, Pdi(v)) == PdeAt(s, p, Pdi(v))
    ensures FillPage(s, p, v, t, f).frm[t].refcnt == s.frm[t].refcnt + 1
    ensures FillPage(s, p, v, t, f).frm[t].mapped == s.frm[t].mapped
  {
  }

  /** A page fault keeps the invariant exactly when its victim is not the only page of the
      table it fills. */
  lemma FaultKeepsInv(s: State, v: int)
    requires Valid(s) && Legal(s, v) && NotCached(s, s.cur, v) && PageIn(s, v).Some?
    ensures Valid(PageIn(s, v).value) <==> FaultSafe(s, v)
  {
    SafeForTable(s, v);
    var (s1, t) := TableFor(s, v).value;
    var (s2, f) := GetFrm(s1).value;
    if FaultSafe(s, v) {
      FillSurvivor(s1, v, t);
      FillKeepsInv(s2, s.cur, v, t, f);
    } else {
      FillRevoked(s1, v, t);
      FillLeavesDir(s2, s.cur, v, t, f);
      assert PageIn(s, v).value.frm[t] != BLANK;
    }
  }

  /** A safe fault leaves the flat memory alone and makes the page resident, with the
      contents of its slot, untouched and clean. */
  lemma FaultKeepsMemory(s: State, v: int, m: Flat)
    requires Valid(s) && Legal(s, v) && NotCached(s, s.cur, v) && PageIn(s, v).Some? && FaultSafe(s, v)
    requires Represents(s, m, NFRAMES)
    ensures Represents(PageIn(s, v).value, m, NFRAMES)
  {
    SafeForTable(s, v);
    var (s1, t) := TableFor(s, v).value;
    var (s2, f) := GetFrm(s1).value;
    TableForKeepsMemory(s, v, m);
    GetFrmKeepsMemory(s1, t, m, NFRAMES);
    FillSurvivor(s1, v, t);
    NoDirtyCopy(s2, s.cur, v);
    FillKeepsMemory(s2, s.cur, v, t, f, m, NFRAMES);
  }

  lemma TableForKeepsMemory(s: State, v: int, m: Flat)
    requires Valid(s) && Legal(s, v) && TableFor(s, v).Some? && Represents(s, m, NFRAMES)
    ensures Represents(TableFor(s, v).value.0, m, NFRAMES)
  {
    CurHasDir(s);
    var p, d := s.cur, Pdi(v);
    if !PdeAt(s, p, d).pres {
      GetFrmKeepsMemory(s, -1, m, NFRAMES);
      GetFrmKeepsInv(s, -1);
      GetFrmGrants(s);
      GetFrmKeepsAbsent(s, p, d);
      var (s1, t) := GetFrm(s).value;
      forall g | 0 <= g < 4
        ensures s1.frm[g].mapped
      {
        assert GlobalOk(s1, g);
      }
      AddTableKeepsMemory(s1, p, d, t, m, NFRAMES);
    }
  }

  lemma FillResident(s: State, p: int, v: int, t: int, f: int)
    requires PageWanted(s, p, v, t, f)
    ensures Resident(FillPage(s, p, v, t, f), p, v)
  {
  }

  /** After a fault the instruction finds its page exactly when the fault was safe. */
  lemma FaultMakesResident(s: State, v: int)
    requires Valid(s) && Legal(s, v) && NotCached(s, s.cur, v) && PageIn(s, v).Some?
    ensures Resident(PageIn(s, v).value, s.cur, v) <==> FaultSafe(s, v)
  {
    SafeForTable(s, v);
    var (s1, t) := TableFor(s, v).value;
    var (s2, f) := GetFrm(s1).value;
    if FaultSafe(s, v) {
      FillSurvivor(s1, v, t);
      FillResident(s2, s.cur, v, t, f);
    } else {
      FillRevoked(s1, v, t);
      FillLeavesDir(s2, s.cur, v, t, f);
    }
  }
}
