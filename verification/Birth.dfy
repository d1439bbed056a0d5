/** The paging part of sys/create.c: a directory for the new process. */
module Birth {
  import opened Machine
  import opened BackingStore
  import opened Frames
  import opened PagingInv
  import opened Tweak
  import opened FreeFrame
  import opened Replacement
  import opened GetFrame
  import opened Switch
  import opened Lifecycle
  import opened Death

  /** The directory that `allocate_page_directory` leaves in a frame: it writes the four
      global entries and nothing else. */
  function NewDir(c: Content): Directory {
    AsDir(c)[0 := Pde(true, FRAME0)][1 := Pde(true, FRAME0 + 1)][2 := Pde(true, FRAME0 + 2)][3 := Pde(true, FRAME0 + 3)]
  }

  function MarkDir(f: Frame, p: int): Frame { f.(mapped := true, pid := p, ftype := FR_DIR) }

  function MakeDir(s: State, p: int, f: int, pr: Proc): State
    requires IsPid(p) && IsFrame(f)
  {
    var frm1 := s.frm[f := MarkDir(s.frm[f], p)];
    var phys1 := s.phys[FRAME0 + f := Dir(NewDir(s.phys[FRAME0 + f]))];
    s.(frm := frm1, phys := phys1, proc := s.proc[p := pr.(live := true, pdbr := FRAME0 + f)])
  }

  /** What the code needs of the frame it is given: read as a directory, its old contents
      have no present entry beyond the first four. */
  ghost predicate StaleClear(c: Content) {
    forall d :: 4 <= d < NENTRIES ==> !AsDir(c)[d].pres
  }

  /** `create`: None is a victim search that follows a null link. */
  ghost function Create(s: State, p: int): Option<State>
    requires IsPid(p) && PagesOk(s) && QueueNodes(s) && AgesOk(s) && FramesOk(s)
  {
    match GetFrm(s)
    case None => None
    case Some((s1, f)) => GetFrmGrants(s); Some(MakeDir(s1, p, f, Proc(true, 0, NO_STORE, 0, 0)))
  }

  // --------------------------------------------------------------- adding the directory

  /** Frame f is blank and becomes the directory of p, a slot that was free. */
  ghost predicate Unborn(s: State, p: int, f: int) {
    IsPid(p) && !Live(s, p) && Live(s, 0) && IsFrame(f) && s.frm[f] == BLANK
  }

  /** The store field and the map agree about the new process. */
  ghost predicate OwnsRight(s: State, p: int, pr: Proc) {
    && IsPid(p)
    && StoreFieldOk(s.(proc := s.proc[p := pr]), p)
    && forall b, k {:trigger IsMap(s.bsm, b, k)} :: IsMap(s.bsm, b, k) && s.bsm[b].maps[k].pid == p ==>
      if s.bsm[b].priv then pr.store == b && pr.vhpno == s.bsm[b].maps[k].vpno else pr.store == PUBLIC
  }

  lemma NewDirEntries(c: Content, d: int)
    requires 0 <= d < NENTRIES
    ensures NewDir(c)[d] == if d < 4 then Pde(true, FRAME0 + d) else AsDir(c)[d]
  {
    hide AsDir;
  }

  lemma BornPlace(s: State, p: int, f: int, pr: Proc, d: int)
    requires Unborn(s, p, f) && 0 <= d < NENTRIES
    ensures
      var s2 := MakeDir(s, p, f, pr);
      s2.proc[p].pdbr == FRAME0 + f && HasDir(s2, p) && PdeAt(s2, p, d) == NewDir(s.phys[FRAME0 + f])[d]
  {
    hide NewDir, AsDir;
  }

  lemma BornOwnDir(s: State, p: int, f: int, pr: Proc)
    requires Unborn(s, p, f)
    ensures
      var s2 := MakeDir(s, p, f, pr);
      DirOk(s2, p)
      && forall d :: 4 <= d < NENTRIES ==> PdeAt(s2, p, d) == AsDir(s.phys[FRAME0 + f])[d]
  {
    hide NewDir, AsDir, PdeAt, HasDir;
    var s2 := MakeDir(s, p, f, pr);
    BornPlace(s, p, f, pr, 0);
    forall d | 0 <= d < NENTRIES
      ensures PdeAt(s2, p, d) == if d < 4 then Pde(true, FRAME0 + d) else AsDir(s.phys[FRAME0 + f])[d]
    {
      NewDirEntries(s.phys[FRAME0 + f], d);
      BornPlace(s, p, f, pr, d);
    }
  }

  lemma BornOtherDir(s: State, p: int, f: int, pr: Proc, q: int)
    requires Unborn(s, p, f) && DirsOk(s) && Live(s, q)
    ensures q != p && DirOk(s, q)
    ensures
      var s2 := MakeDir(s, p, f, pr);
      HasDir(s2, q) && DirOk(s2, q) && forall d :: 0 <= d < NENTRIES ==> PdeAt(s2, q, d) == PdeAt(s, q, d)
  {
    hide NewDir, AsDir;
    assert DirOk(s, q);
    var s2 := MakeDir(s, p, f, pr);
    forall e | 0 <= e < 4
      ensures PdeAt(s2, q, e) == Pde(true, FRAME0 + e)
    {
      assert PdeAt(s, q, e) == Pde(true, FRAME0 + e);
    }
  }

  lemma BornDirs(s: State, p: int, f: int, pr: Proc)
    requires Unborn(s, p, f) && DirsOk(s) && DirFramesOk(s)
    ensures DirsOk(MakeDir(s, p, f, pr)) && DirFramesOk(MakeDir(s, p, f, pr))
  {
    hide NewDir, AsDir;
    var s2 := MakeDir(s, p, f, pr);
    forall q | Live(s2, q)
      ensures DirOk(s2, q)
    {
      if q == p { BornOwnDir(s, p, f, pr); } else { BornOtherDir(s, p, f, pr, q); }
    }
  }

  lemma BornPdes(s: State, p: int, f: int, pr: Proc)
    requires Unborn(s, p, f) && DirsOk(s) && PdesOk(s) && PdesDistinct(s) && StaleClear(s.phys[FRAME0 + f])
    ensures PdesOk(MakeDir(s, p, f, pr)) && PdesDistinct(MakeDir(s, p, f, pr))
  {
    hide NewDir, AsDir;
    var s2 := MakeDir(s, p, f, pr);
    forall q, e | Live(s2, q) && HasDir(s2, q) && 4 <= e < NENTRIES
      ensures if q == p then !PdeAt(s2, q, e).pres else HasDir(s, q) && PdeAt(s2, q, e) == PdeAt(s, q, e)
    {
      if q == p { BornOwnDir(s, p, f, pr); } else { BornOtherDir(s, p, f, pr, q); }
    }
  }

  lemma BornTables(s: State, p: int, f: int, pr: Proc)
    requires Unborn(s, p, f) && TablesOk(s, -1) && PtesOk(s) && DirsOk(s)
    ensures TablesOk(MakeDir(s, p, f, pr), -1) && PtesOk(MakeDir(s, p, f, pr))
  {
    hide NewDir, AsDir;
    var s2 := MakeDir(s, p, f, pr);
    forall t | TblFrame(s2, t)
      ensures TableOk(s2, t, -1)
    {
      assert TableOk(s, t, -1);
    }
    forall t, k | TblFrame(s2, t) && IsTable(s2, t) && 0 <= k < NENTRIES && PteAt(s2, t, k).pres
      ensures PteBacked(s2, t, k)
    {
      assert PteAt(s, t, k) == PteAt(s2, t, k);
      assert PteBacked(s, t, k);
      assert TableOk(s, t, -1);
      BornOtherDir(s, p, f, pr, s.frm[t].pid);
    }
  }

  lemma BornPages(s: State, p: int, f: int, pr: Proc, j: int)
    requires Unborn(s, p, f) && PagesOk(s) && DirsOk(s) && IsFrame(j)
    ensures
      var s2 := MakeDir(s, p, f, pr);
      (Linked(s2, j) <==> Linked(s, j)) && (PageFrame(s2, j) <==> PageFrame(s, j))
      && (PageFrame(s, j) ==> PageOk(s, j) && PageOk(s2, j) && EntryOf(s2, j) == EntryOf(s, j) && Loc(s2, j) == Loc(s, j)
                              && j != f && s.frm[j].pid != p)
  {
    hide NewDir, AsDir;
    if PageFrame(s, j) {
      assert PageOk(s, j);
      BornOtherDir(s, p, f, pr, s.frm[j].pid);
    }
  }

  lemma BornGlobals(s: State, p: int, f: int, pr: Proc)
    requires Unborn(s, p, f) && FramesOk(s)
    ensures FramesOk(MakeDir(s, p, f, pr))
  {
    hide NewDir, AsDir;
    forall g | 0 <= g < 4
      ensures GlobalOk(MakeDir(s, p, f, pr), g)
    {
      assert GlobalOk(s, g);
    }
  }

  lemma BornTree(s: State, p: int, f: int, pr: Proc)
    requires Unborn(s, p, f) && TreeOk(s, -1) && StaleClear(s.phys[FRAME0 + f])
    ensures TreeOk(MakeDir(s, p, f, pr), -1)
  {
    hide DirsOk, DirFramesOk, PdesOk, PdesDistinct, TablesOk, PtesOk, StaleClear, FramesOk, NewDir;
    var s2 := MakeDir(s, p, f, pr);
    BornDirs(s, p, f, pr);
    BornPdes(s, p, f, pr);
    BornTables(s, p, f, pr);
    BornGlobals(s, p, f, pr);
    forall j | PageFrame(s2, j)
      ensures PageOk(s2, j)
    {
      BornPages(s, p, f, pr, j);
    }
  }

  lemma BornQueue(s: State, p: int, f: int, pr: Proc)
    requires Unborn(s, p, f) && QueueOk(s, f) && AgesOk(s)
    ensures QueueOk(MakeDir(s, p, f, pr), -1) && AgesOk(MakeDir(s, p, f, pr))
  {
    var s2 := MakeDir(s, p, f, pr);
    forall i | IsFrame(i)
      ensures i in s2.queue <==> s2.frm[i].mapped
    {
      assert i in s.queue <==> s.frm[i].mapped || i == f;
    }
  }

  lemma BornOwners(s: State, p: int, f: int, pr: Proc)
    requires Unborn(s, p, f) && OwnersOk(s) && OwnsRight(s, p, pr)
    ensures OwnersOk(MakeDir(s, p, f, pr))
  {
    var s2 := MakeDir(s, p, f, pr);
    forall b, k | IsMap(s2.bsm, b, k)
      ensures OwnerOk(s2, b, k)
    {
      assert OwnerOk(s, b, k);
    }
    forall q | Live(s2, q)
      ensures StoreFieldOk(s2, q)
    {
      if q != p {
        assert StoreFieldOk(s, q);
      }
    }
  }

  lemma BornClean(s: State, p: int, f: int, pr: Proc)
    requires Unborn(s, p, f) && PagesOk(s) && DirsOk(s) && CleanOk(s)
    ensures CleanOk(MakeDir(s, p, f, pr))
  {
    var s2 := MakeDir(s, p, f, pr);
    forall j | IsFrame(j) && Dirty(s2, j)
      ensures s2.frm[j].pid == s2.cur || s2.proc[s2.frm[j].pid].store != PUBLIC
    {
      BornPages(s, p, f, pr, j);
      assert Dirty(s, j);
    }
  }

  lemma BornInv(s: State, p: int, f: int, pr: Proc)
    requires Unborn(s, p, f) && Inv(s, -1, f) && OwnsRight(s, p, pr) && StaleClear(s.phys[FRAME0 + f])
    ensures Valid(MakeDir(s, p, f, pr))
  {
    hide OwnsRight, StaleClear, TreeOk, QueueOk, OwnersOk, CleanOk, AgesOk, MapOk, DirsOk, PagesOk;
    InvParts(s, -1, f);
    BornTree(s, p, f, pr);
    BornQueue(s, p, f, pr);
    BornOwners(s, p, f, pr);
    BornClean(s, p, f, pr);
  }

  lemma BornMemory(s: State, p: int, f: int, pr: Proc, m: Flat, n: int)
    requires Unborn(s, p, f) && PagesOk(s) && DirsOk(s) && Represents(s, m, n)
    ensures Represents(MakeDir(s, p, f, pr), m, n)
  {
    var s2 := MakeDir(s, p, f, pr);
    forall j | IsFrame(j)
      ensures Linked(s2, j) <==> Linked(s, j)
      ensures Linked(s, j) ==> Loc(s2, j) == Loc(s, j) && (Dirty(s2, j) <==> Dirty(s, j)) && s2.frm[j] == s.frm[j]
      ensures Linked(s, j) ==> s.frm[j].pid != p && s2.phys[FRAME0 + j] == s.phys[FRAME0 + j]
    {
      BornPages(s, p, f, pr, j);
    }
    forall j | IsFrame(j) && Linked(s2, j) && Fresh(s2, j, n) && 0 <= Loc(s2, j) < NSLOTS
      ensures s2.phys[FRAME0 + j] == Data(m[Loc(s2, j)])
    {
      assert Fresh(s, j, n);
    }
    forall x | 0 <= x < NSLOTS && !DirtyAt(s2, x)
      ensures !DirtyAt(s, x)
    {
      forall j | IsFrame(j) && Dirty(s, j) && Loc(s, j) == x
        ensures Dirty(s2, j) && Loc(s2, j) == x
      {
      }
    }
  }

  /** A stale present entry names a table the new process does not have. */
  lemma StaleBreaks(s: State, p: int, f: int, pr: Proc)
    requires Unborn(s, p, f) && Inv(s, -1, f) && !StaleClear(s.phys[FRAME0 + f])
    ensures !Valid(MakeDir(s, p, f, pr))
  {
    var s2 := MakeDir(s, p, f, pr);
    var d :| 4 <= d < NENTRIES && AsDir(s.phys[FRAME0 + f])[d].pres;
    BornOwnDir(s, p, f, pr);
    assert PdeAt(s2, p, d).pres;
    forall t | TblFrame(s, t)
      ensures s.frm[t].pid != p
    {
      assert TableOk(s, t, -1);
    }
  }

  // ------------------------------------------------------------------------- theorems

  lemma NoOrphanOwns(s: State, p: int)
    requires NoOrphans(s) && IsPid(p) && !Live(s, p)
    ensures OwnsRight(s, p, Proc(true, 0, NO_STORE, 0, 0))
  {
  }

  lemma CreateCases(s: State, p: int)
    requires IsPid(p) && PagesOk(s) && QueueNodes(s) && AgesOk(s) && FramesOk(s) && Create(s, p).Some?
    ensures GetFrm(s).Some? && Granted(s, GetFrm(s).value.0, GetFrm(s).value.1)
    ensures Create(s, p).value == MakeDir(GetFrm(s).value.0, p, GetFrm(s).value.1, Proc(true, 0, NO_STORE, 0, 0))
  {
    GetFrmGrants(s);
  }

  lemma CreateStart(s: State, p: int)
    requires Valid(s) && NoOrphans(s) && IsPid(p) && !Live(s, p) && Live(s, 0) && Create(s, p).Some?
    ensures GetFrm(s).Some?
    ensures
      var (s1, f) := GetFrm(s).value;
      var pr := Proc(true, 0, NO_STORE, 0, 0);
      Inv(s1, -1, f) && Unborn(s1, p, f) && OwnsRight(s1, p, pr) && Create(s, p).value == MakeDir(s1, p, f, pr)
  {
    hide MakeDir, OwnsRight, GetFrm;
    CreateCases(s, p);
    GetFrmKeepsInv(s, -1);
    NoOrphanOwns(GetFrm(s).value.0, p);
  }

  /** create keeps the invariant exactly when the frame it is given reads as an empty
      directory beyond the four entries it writes. */
  lemma CreateKeepsInv(s: State, p: int)
    requires Valid(s) && NoOrphans(s) && IsPid(p) && !Live(s, p) && Live(s, 0) && Create(s, p).Some?
    ensures GetFrm(s).Some? && IsFrame(GetFrm(s).value.1)
    ensures Valid(Create(s, p).value) <==> StaleClear(GetFrm(s).value.0.phys[FRAME0 + GetFrm(s).value.1])
  {
    hide MakeDir, OwnsRight, GetFrm, Create, StaleClear, Inv, PagesOk, AgesOk, FramesOk, TreeOk, MapOk, OwnersOk, CleanOk, DirsOk;
    InvParts(s, -1, -1);
    CreateStart(s, p);
    var (s1, f) := GetFrm(s).value;
    if StaleClear(s1.phys[FRAME0 + f]) {
      BornInv(s1, p, f, Proc(true, 0, NO_STORE, 0, 0));
    } else {
      StaleBreaks(s1, p, f, Proc(true, 0, NO_STORE, 0, 0));
    }
  }

  lemma CreateKeepsMemory(s: State, p: int, m: Flat)
    requires Valid(s) && IsPid(p) && !Live(s, p) && Live(s, 0) && Create(s, p).Some? && Represents(s, m, NFRAMES)
    ensures Represents(Create(s, p).value, m, NFRAMES)
  {
    hide Inv, PagesOk, AgesOk, DirsOk, Represents, MakeDir;
    InvParts(s, -1, -1);
    GetFrmKeepsInv(s, -1);
    GetFrmGrants(s);
    GetFrmKeepsMemory(s, -1, m, NFRAMES);
    var (s1, f) := GetFrm(s).value;
    InvParts(s1, -1, f);
    BornMemory(s1, p, f, Proc(true, 0, NO_STORE, 0, 0), m, NFRAMES);
  }
}
