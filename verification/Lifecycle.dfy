/** Mapping and unmapping stores, and the birth and death of a process: paging/xm.c,
    the rest of paging/bsm.c, the paging parts of sys/create.c, paging/vcreate.c and
    sys/kill.c. */
module Lifecycle {
  import opened Machine
  import opened BackingStore
  import opened Frames
  import opened PagingInv
  import opened Tweak
  import opened FreeFrame
  import opened Switch

  // ------------------------------------------------------- releasing pages of a process

  predicate PageOf(s: State, p: int, lo: int, hi: int, i: int) {
    PageFrame(s, i) && s.frm[i].pid == p && lo <= s.frm[i].vpno < hi
  }

  /** The loops of bsm_unmap and kill: every page frame below n that holds a page of p
      with number in [lo, hi) is released. */
  function FreePages(s: State, p: int, lo: int, hi: int, n: nat): (r: State)
    requires n <= NFRAMES
    ensures r.bsm == s.bsm && r.proc == s.proc && r.cur == s.cur && r.hand == s.hand && r.policy == s.policy
  {
    if n == 0 then s
    else
      var s1 := FreePages(s, p, lo, hi, n - 1);
      if PageOf(s1, p, lo, hi, n - 1) && Linked(s1, n - 1) then FreeFrm(s1, n - 1) else s1
  }

  /** The released pages are gone, every other page frame is as it was, and so are all
      frames of other processes. */
  ghost predicate Released(s: State, s2: State, p: int, lo: int, hi: int, n: nat) {
    && s2.bsm == s.bsm && s2.proc == s.proc && s2.cur == s.cur && s2.hand == s.hand && s2.policy == s.policy
    && (forall i {:trigger s2.frm[i]} {:trigger FrameReleased(s, s2, p, lo, hi, n, i)} :: IsFrame(i) ==> FrameReleased(s, s2, p, lo, hi, n, i))
  }

  ghost predicate FrameReleased(s: State, s2: State, p: int, lo: int, hi: int, n: nat, i: int)
    requires IsFrame(i)
  {
    && (PageFrame(s2, i) ==> s2.frm[i] == s.frm[i] && !(PageOf(s, p, lo, hi, i) && i < n))
    && (PageFrame(s, i) && !(PageOf(s, p, lo, hi, i) && i < n) ==> s2.frm[i] == s.frm[i])
    && (s.frm[i].mapped && (s.frm[i].pid != p || s.frm[i].ftype == FR_DIR) ==> s2.frm[i] == s.frm[i])
    && (s2.frm[i].mapped ==> s.frm[i].mapped && s2.frm[i].pid == s.frm[i].pid && s2.frm[i].ftype == s.frm[i].ftype)
  }

  /** Frame i is released, at most the count of its table t changes besides. */
  ghost predicate FreedOne(s: State, s2: State, i: int, t: int) {
    && s2.bsm == s.bsm && s2.proc == s.proc && s2.cur == s.cur && s2.hand == s.hand && s2.policy == s.policy
    && IsFrame(i) && s2.frm[i] == BLANK
    && IsFrame(t) && s.frm[t].mapped && s.frm[t].ftype == FR_TBL && s.frm[t].pid == s.frm[i].pid
    && (s2.frm[t] == BLANK || s2.frm[t] == s.frm[t].(refcnt := s.frm[t].refcnt - 1))
    && (forall j {:trigger s2.frm[j]} :: IsFrame(j) && j != i && j != t ==> s2.frm[j] == s.frm[j])
  }

  lemma FreeOneReleased(s: State, i: int)
    requires PagesOk(s) && PageFrame(s, i)
    ensures Linked(s, i) && FreedOne(s, FreeFrm(s, i), i, TableOf(s, i))
  {
    assert PageOk(s, i);
  }

  lemma {:induction false} FreePagesInv(s: State, p: int, lo: int, hi: int, n: nat)
    requires Valid(s) && n <= NFRAMES
    ensures Valid(FreePages(s, p, lo, hi, n))
  {
    hide Inv;
    if n > 0 {
      FreePagesInv(s, p, lo, hi, n - 1);
      var s1 := FreePages(s, p, lo, hi, n - 1);
      if PageOf(s1, p, lo, hi, n - 1) {
        KeepsInv(s1, n - 1, -1, -1);
      }
    }
  }

  lemma {:induction false} FreePagesMemory(s: State, p: int, lo: int, hi: int, n: nat, m: Flat, k: int)
    requires Valid(s) && n <= NFRAMES && Represents(s, m, k)
    ensures Represents(FreePages(s, p, lo, hi, n), m, k)
  {
    hide Inv, TreeOk, Represents;
    if n > 0 {
      FreePagesMemory(s, p, lo, hi, n - 1, m, k);
      var s1 := FreePages(s, p, lo, hi, n - 1);
      FreePagesInv(s, p, lo, hi, n - 1);
      InvParts(s1, -1, -1);
      if PageOf(s1, p, lo, hi, n - 1) {
        KeepsMemory(s1, n - 1, -1, m, k);
      }
    }
  }

  lemma ReleaseFreed(s: State, s1: State, s2: State, p: int, lo: int, hi: int, i: nat, t: int)
    requires Released(s, s1, p, lo, hi, i) && PageOf(s1, p, lo, hi, i) && FreedOne(s1, s2, i, t)
    ensures Released(s, s2, p, lo, hi, i + 1)
  {
    forall j | IsFrame(j)
      ensures FrameReleased(s, s2, p, lo, hi, i + 1, j)
    {
      assert s1.frm[j] == s1.frm[j];
    }
  }

  lemma ReleaseSkipped(s: State, s1: State, p: int, lo: int, hi: int, i: nat)
    requires Released(s, s1, p, lo, hi, i) && i < NFRAMES && !PageOf(s1, p, lo, hi, i)
    ensures Released(s, s1, p, lo, hi, i + 1)
  {
    assert s1.frm[i] == s.frm[i] || !PageFrame(s, i);
    assert !PageOf(s, p, lo, hi, i);
    forall j | IsFrame(j)
      ensures FrameReleased(s, s1, p, lo, hi, i + 1, j)
    {
      assert s1.frm[j] == s1.frm[j];
    }
  }

  lemma ReleasedNone(s: State, p: int, lo: int, hi: int)
    ensures Released(s, s, p, lo, hi, 0)
  {
    forall i | IsFrame(i)
      ensures FrameReleased(s, s, p, lo, hi, 0, i)
    {
    }
  }

  lemma {:induction false} FreePagesReleased(s: State, p: int, lo: int, hi: int, n: nat)
    requires Valid(s) && n <= NFRAMES
    ensures Released(s, FreePages(s, p, lo, hi, n), p, lo, hi, n)
  {
    hide Inv, Released, FreedOne, PagesOk;
    if n == 0 {
      ReleasedNone(s, p, lo, hi);
    } else {
      var s1 := FreePages(s, p, lo, hi, n - 1);
      FreePagesReleased(s, p, lo, hi, n - 1);
      FreePagesInv(s, p, lo, hi, n - 1);
      InvParts(s1, -1, -1);
      if PageOf(s1, p, lo, hi, n - 1) {
        FreeOneReleased(s1, n - 1);
        ReleaseFreed(s, s1, FreeFrm(s1, n - 1), p, lo, hi, n - 1, TableOf(s1, n - 1));
      } else {
        ReleaseSkipped(s, s1, p, lo, hi, n - 1);
      }
    }
  }

  // --------------------------------------------------------- changing the map of stores

  /** The map changes, and so may the store fields of the running process and of free slots;
      every resident page is still found at the same slot. */
  ghost predicate Remapped(s: State, s2: State) {
    && s2 == s.(bsm := s2.bsm, proc := s2.proc)
    && (forall q {:trigger s2.proc[q]} :: IsPid(q) ==>
         && s2.proc[q].live == s.proc[q].live && s2.proc[q].pdbr == s.proc[q].pdbr
         && (q != s.cur && s.proc[q].live ==> s2.proc[q] == s.proc[q]))
    && (forall i {:trigger s.frm[i]} :: PageFrame(s, i) ==>
         && WellMapped(s.bsm, s.frm[i].pid, s.frm[i].vpno) && WellMapped(s2.bsm, s.frm[i].pid, s.frm[i].vpno)
         && SlotOf(s2.bsm, s.frm[i].pid, s.frm[i].vpno) == SlotOf(s.bsm, s.frm[i].pid, s.frm[i].vpno))
  }

  lemma RemappedLinks(s: State, s2: State, i: int)
    requires Remapped(s, s2) && IsFrame(i)
    ensures Linked(s, i) <==> Linked(s2, i)
    ensures Linked(s, i) ==> EntryOf(s, i) == EntryOf(s2, i) && Loc(s, i) == Loc(s2, i) && TableOf(s, i) == TableOf(s2, i)
  {
  }

  lemma RemappedDirs(s: State, s2: State)
    requires Remapped(s, s2) && DirsOk(s) && DirFramesOk(s) && PdesOk(s) && PdesDistinct(s)
    ensures DirsOk(s2) && DirFramesOk(s2) && PdesOk(s2) && PdesDistinct(s2)
  {
    forall p | Live(s2, p)
      ensures DirOk(s2, p)
    {
      assert DirOk(s, p);
      forall d | 0 <= d < 4
        ensures PdeAt(s2, p, d) == Pde(true, FRAME0 + d)
      {
        assert PdeAt(s, p, d) == Pde(true, FRAME0 + d);
      }
    }
    forall p, d | Live(s2, p) && HasDir(s2, p) && 4 <= d < NENTRIES
      ensures HasDir(s, p) && PdeAt(s2, p, d) == PdeAt(s, p, d)
    {
    }
  }

  lemma RemappedTables(s: State, s2: State, fill: int)
    requires Remapped(s, s2) && TablesOk(s, fill) && PtesOk(s)
    ensures TablesOk(s2, fill) && PtesOk(s2)
  {
    forall t | TblFrame(s2, t)
      ensures TableOk(s2, t, fill)
    {
      assert TableOk(s, t, fill);
    }
    forall t, k | TblFrame(s2, t) && IsTable(s2, t) && 0 <= k < NENTRIES && PteAt(s2, t, k).pres
      ensures PteBacked(s2, t, k)
    {
      assert PteAt(s, t, k) == PteAt(s2, t, k);
      assert PteBacked(s, t, k);
    }
  }

  lemma RemappedTree(s: State, s2: State, fill: int)
    requires Remapped(s, s2) && TreeOk(s, fill)
    ensures TreeOk(s2, fill)
  {
    RemappedDirs(s, s2);
    RemappedTables(s, s2, fill);
    forall i | PageFrame(s2, i)
      ensures PageOk(s2, i)
    {
      assert PageOk(s, i);
      RemappedLinks(s, s2, i);
    }
    forall t | 0 <= t < 4
      ensures GlobalOk(s2, t)
    {
      assert GlobalOk(s, t);
    }
  }

  lemma RemappedClean(s: State, s2: State)
    requires Remapped(s, s2) && PagesOk(s) && CleanOk(s)
    ensures CleanOk(s2)
  {
    forall i | IsFrame(i) && Dirty(s2, i)
      ensures s2.frm[i].pid == s2.cur || s2.proc[s2.frm[i].pid].store != PUBLIC
    {
      RemappedLinks(s, s2, i);
      assert Dirty(s, i) && PageOk(s, i);
    }
  }

  lemma RemappedMemory(s: State, s2: State, m: Flat)
    requires Remapped(s, s2) && PagesOk(s) && Represents(s, m, NFRAMES)
    ensures Represents(s2, m, NFRAMES)
  {
    forall i | IsFrame(i)
      ensures Linked(s, i) <==> Linked(s2, i)
      ensures Linked(s, i) ==> Loc(s, i) == Loc(s2, i) && (Dirty(s, i) <==> Dirty(s2, i))
    {
      RemappedLinks(s, s2, i);
    }
    forall j | IsFrame(j) && Linked(s2, j) && Fresh(s2, j, NFRAMES) && 0 <= Loc(s2, j) < NSLOTS
      ensures s2.phys[FRAME0 + j] == Data(m[Loc(s2, j)])
    {
      assert PageOk(s, j) && Fresh(s, j, NFRAMES);
    }
    forall x | 0 <= x < NSLOTS && !DirtyAt(s2, x)
      ensures !DirtyAt(s, x)
    {
      forall j | IsFrame(j) && Dirty(s, j) && Loc(s, j) == x
        ensures Dirty(s2, j) && Loc(s2, j) == x
      {
      }
    }
  }

  lemma RemappedInv(s: State, s2: State, pend: int)
    requires Remapped(s, s2) && Inv(s, -1, pend) && MapOk(s2.bsm) && OwnersOk(s2)
    ensures Inv(s2, -1, pend)
  {
    hide Remapped, MapOk, OwnersOk, DirsOk, DirFramesOk, PdesOk, PdesDistinct, TablesOk, PtesOk, PagesOk, FramesOk, CleanOk;
    RemappedTree(s, s2, -1);
    RemappedClean(s, s2);
    RemappedQueue(s, s2, pend);
  }

  lemma RemappedQueue(s: State, s2: State, pend: int)
    requires Remapped(s, s2) && QueueOk(s, pend) && AgesOk(s)
    ensures QueueOk(s2, pend) && AgesOk(s2)
  {
  }

  // -------------------------------------------------------------------- xmmap, xmunmap

  function SetStore(s: State, p: int, b: int): State
    requires IsPid(p)
  {
    s.(proc := s.proc[p := s.proc[p].(store := b)])
  }

  /** `xmmap`; None is SYSERR. */
  function Xmmap(s: State, v: int, b: int, n: int): Option<State>
    requires IsPid(s.cur)
  {
    if 0 <= b < MAX_NUM_BS && s.bsm[b].priv then None
    else
      match Map(s.bsm, s.cur, v, b, n)
      case None => None
      case Some(bsm) => Some(SetStore(s.(bsm := bsm), s.cur, PUBLIC))
  }

  /** What xmmap leaves to its caller: the process was made by create(), has no mapping in
      the store yet, and the new range meets none of its others. */
  ghost predicate XmmapAllowed(s: State, v: int, b: int, n: int) {
    IsPid(s.cur) && !(0 <= s.proc[s.cur].store < MAX_NUM_BS) && MapAllowed(s.bsm, s.cur, v, b, n)
  }

  lemma XmmapRemaps(s: State, v: int, b: int, n: int)
    requires PagesOk(s) && MapOk(s.bsm) && XmmapAllowed(s, v, b, n) && Xmmap(s, v, b, n).Some?
    ensures Remapped(s, Xmmap(s, v, b, n).value)
  {
    var s2 := Xmmap(s, v, b, n).value;
    forall i | PageFrame(s, i)
      ensures WellMapped(s2.bsm, s.frm[i].pid, s.frm[i].vpno)
      ensures WellMapped(s.bsm, s.frm[i].pid, s.frm[i].vpno)
      ensures SlotOf(s2.bsm, s.frm[i].pid, s.frm[i].vpno) == SlotOf(s.bsm, s.frm[i].pid, s.frm[i].vpno)
    {
      assert PageOk(s, i);
      MapLookup(s.bsm, s.cur, v, b, n, s.frm[i].pid, s.frm[i].vpno);
    }
  }

  lemma XmmapOwners(s: State, v: int, b: int, n: int)
    requires MapOk(s.bsm) && OwnersOk(s) && XmmapAllowed(s, v, b, n) && Xmmap(s, v, b, n).Some?
    ensures OwnersOk(Xmmap(s, v, b, n).value)
  {
    var s2 := Xmmap(s, v, b, n).value;
    assert StoreOk(s.bsm[b]);
    forall c, k | IsMap(s2.bsm, c, k)
      ensures OwnerOk(s2, c, k)
    {
      if IsMap(s.bsm, c, k) {
        assert OwnerOk(s, c, k);
      }
    }
    forall q | Live(s2, q)
      ensures StoreFieldOk(s2, q)
    {
      assert StoreFieldOk(s, q);
    }
  }

  /** xmmap keeps the invariant exactly when its caller respects those conditions. */
  lemma XmmapKeepsInv(s: State, v: int, b: int, n: int)
    requires Valid(s) && Live(s, s.cur) && Xmmap(s, v, b, n).Some?
    ensures Valid(Xmmap(s, v, b, n).value) <==> XmmapAllowed(s, v, b, n)
  {
    if XmmapAllowed(s, v, b, n) {
      XmmapRemaps(s, v, b, n);
      XmmapOwners(s, v, b, n);
      MapKeepsOk(s.bsm, s.cur, v, b, n);
      RemappedInv(s, Xmmap(s, v, b, n).value, -1);
    } else {
      XmmapRefused(s, v, b, n);
    }
  }

  lemma XmmapRefused(s: State, v: int, b: int, n: int)
    requires MapOk(s.bsm) && OwnersOk(s) && Live(s, s.cur) && Xmmap(s, v, b, n).Some? && !XmmapAllowed(s, v, b, n)
    ensures !MapOk(Xmmap(s, v, b, n).value.bsm) || !OwnersOk(Xmmap(s, v, b, n).value)
  {
    var s2 := Xmmap(s, v, b, n).value;
    var p, last := s.cur, |s.bsm[b].maps|;
    assert StoreOk(s.bsm[b]);
    assert IsMap(s2.bsm, b, last);
    if 0 <= s.proc[p].store < MAX_NUM_BS {
      var c := s.proc[p].store;
      assert StoreFieldOk(s, p);
      assert IsMap(s2.bsm, c, 0);
      assert !OwnerOk(s2, c, 0);
    } else {
      var c, k :| IsMap(s.bsm, c, k) && s.bsm[c].maps[k].pid == p && !(c != b && Apart(s.bsm[c].maps[k], Mapping(p, v, n)));
      assert IsMap(s2.bsm, c, k);
      assert !PairOk(s2.bsm, c, k, b, last);
    }
  }

  predicate Unmappable(s: State, p: int, v: int) {
    MIN_VPNO <= v <= MAX_VPNO && Lookup(s.bsm, p, v).Some?
  }

  function MappingAt(s: State, p: int, v: int): Mapping
    requires Lookup(s.bsm, p, v).Some?
  {
    var h := Lookup(s.bsm, p, v).value;
    s.bsm[h.store].maps[h.pos]
  }

  /** `bsm_unmap`: the frames that hold pages of the mapping are released, each dirty one
      reaching its store, and then the mapping is dropped. Without a mapping, SYSERR and
      no change. */
  function BsmUnmap(s: State, p: int, v: int): (r: State)
    ensures r.proc == s.proc && r.cur == s.cur
  {
    if !Unmappable(s, p, v) then s
    else
      var mp := MappingAt(s, p, v);
      var s1 := FreePages(s, mp.pid, mp.vpno, mp.vpno + mp.npages, NFRAMES);
      s1.(bsm := Unmap(s.bsm, Lookup(s.bsm, p, v).value))
  }

  /** Process p still has a mapping in a store that is open and not private. */
  predicate HasPublic(s: State, p: int) {
    exists b, k | 0 <= b < MAX_NUM_BS && 0 <= k < |s.bsm[b].maps| ::
      IsMap(s.bsm, b, k) && !s.bsm[b].priv && s.bsm[b].maps[k].pid == p
  }

  /** The store field after an unmap: PUBLIC stays only while a public mapping is left. */
  function StoreAfter(s: State, p: int): int
    requires IsPid(p)
  {
    if s.proc[p].store != PUBLIC || !HasPublic(s, p) then NO_STORE else PUBLIC
  }

  /** `xmunmap`; None is SYSERR. */
  function Xmunmap(s: State, v: int): Option<State>
    requires IsPid(s.cur)
  {
    if !Unmappable(s, s.cur, v) then None
    else
      var s1 := BsmUnmap(s, s.cur, v);
      Some(SetStore(s1, s1.cur, StoreAfter(s1, s1.cur)))
  }

  lemma MappingIs(s: State, p: int, v: int)
    requires Lookup(s.bsm, p, v).Some?
    ensures MappingAt(s, p, v).pid == p
  {
  }

  lemma UnmapIs(s: State, p: int, v: int, mp: Mapping)
    requires Unmappable(s, p, v) && mp == MappingAt(s, p, v)
    ensures
      BsmUnmap(s, p, v) ==
        FreePages(s, mp.pid, mp.vpno, mp.vpno + mp.npages, NFRAMES).(bsm := Unmap(s.bsm, Lookup(s.bsm, p, v).value))
  {
    hide FreePages, Unmap, Lookup, MappingAt;
  }

  /** The state between the release of the frames and the final one. */
  lemma UnmapReleases(s: State, p: int, v: int)
    requires Valid(s) && Unmappable(s, p, v)
    ensures
      var mp := MappingAt(s, p, v);
      var s1 := FreePages(s, mp.pid, mp.vpno, mp.vpno + mp.npages, NFRAMES);
      mp.pid == p && Valid(s1) && Released(s, s1, mp.pid, mp.vpno, mp.vpno + mp.npages, NFRAMES)
      && BsmUnmap(s, p, v) == s1.(bsm := Unmap(s.bsm, Lookup(s.bsm, p, v).value))
  {
    hide Valid, Inv, Released, FreePages, Lookup, Unmap, BsmUnmap, MappingAt;
    var mp := MappingAt(s, p, v);
    UnmapIs(s, p, v, mp);
    FreePagesInv(s, mp.pid, mp.vpno, mp.vpno + mp.npages, NFRAMES);
    FreePagesReleased(s, mp.pid, mp.vpno, mp.vpno + mp.npages, NFRAMES);
    MappingIs(s, p, v);
  }

  /** After the release no frame holds a page of the mapping, so dropping the mapping
      moves no resident page. */
  lemma DropRemaps(s: State, s1: State, h: Hit, store: int)
    requires PagesOk(s1) && MapOk(s1.bsm) && IsMap(s1.bsm, h.store, h.pos) && IsPid(s1.cur)
    requires s1.bsm[h.store].maps[h.pos].pid == s1.cur
    requires
      var mp := s1.bsm[h.store].maps[h.pos];
      Released(s, s1, mp.pid, mp.vpno, mp.vpno + mp.npages, NFRAMES)
    ensures Remapped(s1, SetStore(s1.(bsm := Unmap(s1.bsm, h)), s1.cur, store))
  {
    var s2 := SetStore(s1.(bsm := Unmap(s1.bsm, h)), s1.cur, store);
    forall i | PageFrame(s1, i)
      ensures WellMapped(s1.bsm, s1.frm[i].pid, s1.frm[i].vpno)
      ensures WellMapped(s2.bsm, s1.frm[i].pid, s1.frm[i].vpno)
      ensures SlotOf(s2.bsm, s1.frm[i].pid, s1.frm[i].vpno) == SlotOf(s1.bsm, s1.frm[i].pid, s1.frm[i].vpno)
    {
      assert PageOk(s1, i);
      UnmapLookup(s1.bsm, h, s1.frm[i].pid, s1.frm[i].vpno);
    }
  }

  /** What unmapping leaves of the mappings: the others, with their owners. */
  lemma DropOwners(s: State, h: Hit, b: int, k: int)
    requires MapOk(s.bsm) && OwnersOk(s) && IsMap(s.bsm, h.store, h.pos)
    ensures
      var bsm2 := Unmap(s.bsm, h);
      IsMap(bsm2, b, k) ==>
        0 <= k && IsMap(s.bsm, b, Before(h, b, k)) && bsm2[b].maps[k] == s.bsm[b].maps[Before(h, b, k)] && bsm2[b].priv == s.bsm[b].priv
        && OwnerOk(s, b, Before(h, b, k))
  {
    assert StoreOk(s.bsm[h.store]);
    UnmapPositions(s.bsm, h, b, k);
    if IsMap(Unmap(s.bsm, h), b, k) {
      assert OwnerOk(s, b, Before(h, b, k));
    }
  }

  /** xmunmap gives the process the store field that fits the mappings it has left. */
  lemma XmunmapOwners(s: State, h: Hit, store: int)
    requires MapOk(s.bsm) && OwnersOk(s) && IsMap(s.bsm, h.store, h.pos) && Live(s, s.cur)
    requires s.bsm[h.store].maps[h.pos].pid == s.cur
    requires store == StoreAfter(s.(bsm := Unmap(s.bsm, h)), s.cur)
    ensures OwnersOk(SetStore(s.(bsm := Unmap(s.bsm, h)), s.cur, store))
  {
    var s1 := s.(bsm := Unmap(s.bsm, h));
    var s2 := SetStore(s1, s.cur, store);
    assert StoreOk(s.bsm[h.store]) && OwnerOk(s, h.store, h.pos);
    forall b, k | IsMap(s2.bsm, b, k)
      ensures OwnerOk(s2, b, k)
    {
      DropOwners(s, h, b, k);
      if s2.bsm[b].maps[k].pid == s.cur {
        assert PairOk(s.bsm, h.store, h.pos, b, Before(h, b, k));
        XmunmapOwn(s, h, b, Before(h, b, k));
        assert IsMap(s1.bsm, b, k);
      }
    }
    forall q | Live(s2, q)
      ensures StoreFieldOk(s2, q)
    {
      assert StoreFieldOk(s, q);
    }
  }

  /** A process with a second mapping uses public stores only. */
  lemma XmunmapOwn(s: State, h: Hit, b: int, k: int)
    requires MapOk(s.bsm) && OwnersOk(s) && IsMap(s.bsm, h.store, h.pos) && IsMap(s.bsm, b, k) && (b, k) != (h.store, h.pos)
    requires Live(s, s.cur) && s.bsm[h.store].maps[h.pos].pid == s.cur && s.bsm[b].maps[k].pid == s.cur
    ensures s.proc[s.cur].store == PUBLIC && !s.bsm[b].priv && !s.bsm[h.store].priv
  {
    assert OwnerOk(s, b, k) && OwnerOk(s, h.store, h.pos) && PairOk(s.bsm, b, k, h.store, h.pos);
  }

  lemma UnmapMemory(s: State, p: int, v: int, m: Flat)
    requires Valid(s) && Unmappable(s, p, v) && Represents(s, m, NFRAMES)
    ensures
      var mp := MappingAt(s, p, v);
      Represents(FreePages(s, p, mp.vpno, mp.vpno + mp.npages, NFRAMES), m, NFRAMES)
  {
    hide Inv, Represents, Lookup, FreePages;
    var mp := MappingAt(s, p, v);
    FreePagesMemory(s, p, mp.vpno, mp.vpno + mp.npages, NFRAMES, m, NFRAMES);
  }

  lemma DropKeeps(s: State, s1: State, h: Hit, m: Flat)
    requires Valid(s1) && Live(s1, s1.cur) && IsMap(s1.bsm, h.store, h.pos) && s1.bsm[h.store].maps[h.pos].pid == s1.cur
    requires
      var mp := s1.bsm[h.store].maps[h.pos];
      Released(s, s1, mp.pid, mp.vpno, mp.vpno + mp.npages, NFRAMES)
    ensures
      var s2 := s1.(bsm := Unmap(s1.bsm, h));
      var s3 := SetStore(s2, s2.cur, StoreAfter(s2, s2.cur));
      Valid(s3) && (Represents(s1, m, NFRAMES) ==> Represents(s3, m, NFRAMES))
  {
    hide Inv, Represents, Released, PagesOk, MapOk, OwnersOk, Remapped;
    InvParts(s1, -1, -1);
    var s2 := s1.(bsm := Unmap(s1.bsm, h));
    var store := StoreAfter(s2, s2.cur);
    DropRemaps(s, s1, h, store);
    XmunmapOwners(s1, h, store);
    UnmapKeepsOk(s1.bsm, h);
    RemappedInv(s1, SetStore(s2, s2.cur, store), -1);
    if Represents(s1, m, NFRAMES) {
      RemappedMemory(s1, SetStore(s2, s2.cur, store), m);
    }
  }

  /** xmunmap keeps the invariant and the flat memory. */
  lemma XmunmapKeeps(s: State, v: int, m: Flat)
    requires Valid(s) && Live(s, s.cur) && Xmunmap(s, v).Some? && Represents(s, m, NFRAMES)
    ensures Valid(Xmunmap(s, v).value) && Represents(Xmunmap(s, v).value, m, NFRAMES)
  {
    hide Inv, Represents, Released, StoreAfter, FreePages;
    var mp := MappingAt(s, s.cur, v);
    UnmapReleases(s, s.cur, v);
    UnmapMemory(s, s.cur, v, m);
    DropKeeps(s, FreePages(s, s.cur, mp.vpno, mp.vpno + mp.npages, NFRAMES), Lookup(s.bsm, s.cur, v).value, m);
  }
}
