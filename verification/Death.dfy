/** The paging part of sys/kill.c: pages, tables, directory and mappings of a process. */
module Death {
  import opened Machine
  import opened BackingStore
  import opened Frames
  import opened PagingInv
  import opened Tweak
  import opened FreeFrame
  import opened Lifecycle

  // ------------------------------------------------------------------------- the steps

  predicate DirOf(frm: FrameTable, p: int, i: int) {
    IsFrame(i) && frm[i].mapped && frm[i].pid == p && frm[i].ftype == FR_DIR
  }

  function FirstDir(frm: FrameTable, p: int, k: nat): (r: nat)
    requires k <= NFRAMES
    ensures k <= r <= NFRAMES
    ensures r < NFRAMES ==> DirOf(frm, p, r)
    ensures forall j :: k <= j < r ==> !DirOf(frm, p, j)
    decreases NFRAMES - k
  {
    if k == NFRAMES || DirOf(frm, p, k) then k else FirstDir(frm, p, k + 1)
  }

  /** The first directory frame of the process is given up. */
  function FreeDir(s: State, p: int): (r: State)
    ensures r.bsm == s.bsm && r.proc == s.proc && r.cur == s.cur
  {
    var i := FirstDir(s.frm, p, 0);
    if i < NFRAMES then s.(frm := s.frm[i := BLANK], queue := Without(s.queue, i)) else s
  }

  /** Position of the first mapping of process p; the length if there is none. */
  function FirstOf(maps: seq<Mapping>, p: int, k: nat): (r: nat)
    requires k <= |maps|
    ensures k <= r <= |maps|
    ensures r < |maps| ==> maps[r].pid == p
    ensures forall j :: k <= j < r ==> maps[j].pid != p
    decreases |maps| - k
  {
    if k == |maps| || maps[k].pid == p then k else FirstOf(maps, p, k + 1)
  }

  /** `free_bsm`: an open store is closed if it is private or has no mapping. */
  function FreeBsm(bsm: StoreMap, b: int): StoreMap {
    if 0 <= b < MAX_NUM_BS && bsm[b].mapped && (bsm[b].priv || bsm[b].maps == []) then bsm[b := FREE_STORE] else bsm
  }

  function UnmapThenFree(s: State, p: int, v: int, b: int): (r: State)
    ensures r.proc == s.proc && r.cur == s.cur
  {
    var s1 := BsmUnmap(s, p, v);
    s1.(bsm := FreeBsm(s1.bsm, b))
  }

  /** kill's loop over the public stores below n: the first mapping of p in each goes. */
  function UnmapPublic(s: State, p: int, n: nat): (r: State)
    requires n <= MAX_NUM_BS
    ensures r.proc == s.proc && r.cur == s.cur
  {
    if n == 0 then s
    else
      var s1 := UnmapPublic(s, p, n - 1);
      var st := s1.bsm[n - 1];
      var k := FirstOf(st.maps, p, 0);
      if st.mapped && !st.priv && k < |st.maps| then UnmapThenFree(s1, p, st.maps[k].vpno, n - 1) else s1
  }

  function DropStores(s: State, p: int): (r: State)
    requires IsPid(p)
    ensures r.proc[p].live == s.proc[p].live && r.cur == s.cur
  {
    var b := s.proc[p].store;
    if b == NO_STORE then s
    else if b != PUBLIC then UnmapThenFree(s, p, s.proc[p].vhpno, b)
    else
      var s1 := UnmapPublic(s, p, MAX_NUM_BS);
      s1.(proc := s1.proc[p := s1.proc[p].(store := NO_STORE, vhpno := 0, vhpnpages := 0)])
  }

  /** `kill`: frames, directory and stores first; only then is the pid checked. */
  function Kill(s: State, p: int): (r: State)
    requires IsPid(p)
    ensures r.cur == s.cur
  {
    var s1 := FreePages(s, p, 0, NVPAGES, NFRAMES);
    var s2 := DropStores(FreeDir(s1, p), p);
    if p == 0 || !s2.proc[p].live then s2 else s2.(proc := s2.proc[p := s2.proc[p].(live := false)])
  }

  // ------------------------------------------------------------------ the stores' side

  /** The map has lost only mappings of process p. */
  ghost predicate Shrunk(bsm: StoreMap, bsm2: StoreMap, p: int) {
    && (forall b, k {:trigger IsMap(bsm2, b, k)} :: IsMap(bsm2, b, k) ==> KeptFrom(bsm, bsm2, b, k))
    && (forall q, v {:trigger Lookup(bsm2, q, v)} :: q != p ==> SameHit(bsm, bsm2, q, v))
    && (forall b {:trigger bsm2[b]} :: 0 <= b < MAX_NUM_BS && (forall k :: 0 <= k < |bsm[b].maps| ==> bsm[b].maps[k].pid != p) ==> bsm2[b] == bsm[b])
  }

  ghost predicate KeptFrom(bsm: StoreMap, bsm2: StoreMap, b: int, k: int)
    requires IsMap(bsm2, b, k)
  {
    exists k2 :: IsMap(bsm, b, k2) && bsm2[b].maps[k] == bsm[b].maps[k2] && bsm2[b].priv == bsm[b].priv
  }

  predicate SameHit(bsm: StoreMap, bsm2: StoreMap, q: int, v: int) {
    Lookup(bsm, q, v).Some? == Lookup(bsm2, q, v).Some?
    && (Lookup(bsm, q, v).Some? ==> SlotOf(bsm, q, v) == SlotOf(bsm2, q, v))
  }

  lemma ShrunkTrans(a: StoreMap, b: StoreMap, c: StoreMap, p: int)
    requires Shrunk(a, b, p) && Shrunk(b, c, p)
    ensures Shrunk(a, c, p)
  {
    forall d, k | IsMap(c, d, k)
      ensures KeptFrom(a, c, d, k)
    {
      assert KeptFrom(b, c, d, k);
      var k2 :| IsMap(b, d, k2) && c[d].maps[k] == b[d].maps[k2] && c[d].priv == b[d].priv;
      assert KeptFrom(a, b, d, k2);
    }
    forall q, v | q != p
      ensures SameHit(a, c, q, v)
    {
      assert SameHit(b, c, q, v);
      assert SameHit(a, b, q, v);
    }
    forall d | 0 <= d < MAX_NUM_BS && forall k :: 0 <= k < |a[d].maps| ==> a[d].maps[k].pid != p
      ensures c[d] == a[d]
    {
      assert b[d] == a[d];
    }
  }

  lemma UnmapShrinks(bsm: StoreMap, h: Hit, p: int)
    requires MapOk(bsm) && IsMap(bsm, h.store, h.pos) && bsm[h.store].maps[h.pos].pid == p
    ensures MapOk(Unmap(bsm, h)) && Shrunk(bsm, Unmap(bsm, h), p)
    ensures FreeBsm(Unmap(bsm, h), h.store) == Unmap(bsm, h)
    ensures forall k :: IsMap(Unmap(bsm, h), h.store, k) ==> Unmap(bsm, h)[h.store].maps[k].pid != p
  {
    var bsm2 := Unmap(bsm, h);
    UnmapKeepsOk(bsm, h);
    assert StoreOk(bsm[h.store]) && StoreOk(bsm2[h.store]);
    forall b, k | IsMap(bsm2, b, k)
      ensures KeptFrom(bsm, bsm2, b, k)
      ensures b == h.store ==> bsm2[b].maps[k].pid != p
    {
      UnmapPositions(bsm, h, b, k);
      assert IsMap(bsm, b, Before(h, b, k));
      assert PairOk(bsm, h.store, h.pos, b, Before(h, b, k));
    }
    forall q, v | q != p
      ensures SameHit(bsm, bsm2, q, v)
    {
      UnmapLookup(bsm, h, q, v);
    }
  }

  // -------------------------------------------------------------- nothing left to free

  ghost predicate NoPages(s: State, p: int) {
    forall i {:trigger s.frm[i]} :: PageFrame(s, i) ==> s.frm[i].pid != p
  }

  lemma {:induction false} FreePagesNone(s: State, p: int, lo: int, hi: int, n: nat)
    requires NoPages(s, p) && n <= NFRAMES
    ensures FreePages(s, p, lo, hi, n) == s
  {
    hide FreeFrm, Linked;
    if n > 0 {
      FreePagesNone(s, p, lo, hi, n - 1);
    }
  }

  /** Unmapping the mapping at position (b, k) of a process without pages. */
  lemma UnmapBare(s: State, p: int, b: int, k: int)
    requires NoPages(s, p) && MapOk(s.bsm) && IsMap(s.bsm, b, k) && s.bsm[b].maps[k].pid == p
    ensures UnmapThenFree(s, p, s.bsm[b].maps[k].vpno, b) == s.(bsm := Unmap(s.bsm, Hit(b, k)))
  {
    hide MapOk, Lookup, Unmap, FreePages, FreeBsm, Shrunk, NoPages, BsmUnmap;
    var mp := s.bsm[b].maps[k];
    MappingFound(s, p, b, k);
    UnmapIs(s, p, mp.vpno, mp);
    FreePagesNone(s, p, mp.vpno, mp.vpno + mp.npages, NFRAMES);
    UnmapShrinks(s.bsm, Hit(b, k), p);
  }

  /** The page number of a mapping leads back to it. */
  lemma MappingFound(s: State, p: int, b: int, k: int)
    requires MapOk(s.bsm) && IsMap(s.bsm, b, k) && s.bsm[b].maps[k].pid == p
    ensures
      var mp := s.bsm[b].maps[k];
      Unmappable(s, p, mp.vpno) && Lookup(s.bsm, p, mp.vpno) == Some(Hit(b, k)) && MappingAt(s, p, mp.vpno) == mp
  {
    assert StoreOk(s.bsm[b]);
    LookupIsUnique(s.bsm, p, s.bsm[b].maps[k].vpno, b, k);
  }

  /** No mapping of p in the open public stores below n. */
  ghost predicate NoneBelow(bsm: StoreMap, p: int, n: int) {
    forall b, k {:trigger IsMap(bsm, b, k)} :: b < n && IsMap(bsm, b, k) && !bsm[b].priv ==> bsm[b].maps[k].pid != p
  }

  lemma ShrunkNone(a: StoreMap, b: StoreMap, p: int, n: int)
    requires Shrunk(a, b, p) && NoneBelow(a, p, n)
    ensures NoneBelow(b, p, n)
  {
    forall c, k | c < n && IsMap(b, c, k) && !b[c].priv
      ensures b[c].maps[k].pid != p
    {
      assert KeptFrom(a, b, c, k);
    }
  }

  lemma ShrunkSelf(a: StoreMap, p: int)
    ensures Shrunk(a, a, p)
  {
    forall b, k | IsMap(a, b, k)
      ensures KeptFrom(a, a, b, k)
    {
      assert IsMap(a, b, k);
    }
    forall q, v
      ensures SameHit(a, a, q, v)
    {
    }
  }

  lemma {:induction false} UnmapPublicShrinks(s: State, p: int, n: nat)
    requires NoPages(s, p) && MapOk(s.bsm) && n <= MAX_NUM_BS
    ensures
      var s2 := UnmapPublic(s, p, n);
      s2 == s.(bsm := s2.bsm) && MapOk(s2.bsm) && Shrunk(s.bsm, s2.bsm, p) && NoneBelow(s2.bsm, p, n)
  {
    hide MapOk, Shrunk;
    if n == 0 {
      ShrunkSelf(s.bsm, p);
    } else {
      UnmapPublicShrinks(s, p, n - 1);
      var s1 := UnmapPublic(s, p, n - 1);
      var st := s1.bsm[n - 1];
      var k := FirstOf(st.maps, p, 0);
      if st.mapped && !st.priv && k < |st.maps| {
        assert IsMap(s1.bsm, n - 1, k);
        UnmapBare(s1, p, n - 1, k);
        UnmapShrinks(s1.bsm, Hit(n - 1, k), p);
        ShrunkTrans(s.bsm, s1.bsm, Unmap(s1.bsm, Hit(n - 1, k)), p);
        ShrunkNone(s1.bsm, Unmap(s1.bsm, Hit(n - 1, k)), p, n - 1);
      }
    }
  }

  ghost predicate NoMapping(bsm: StoreMap, p: int) {
    forall b, k {:trigger IsMap(bsm, b, k)} :: IsMap(bsm, b, k) ==> bsm[b].maps[k].pid != p
  }

  /** kill drops every mapping of a live process and no other. */
  lemma DropStoresPurges(s: State, p: int)
    requires NoPages(s, p) && MapOk(s.bsm) && OwnersOk(s) && Live(s, p)
    ensures
      var s2 := DropStores(s, p);
      && s2 == s.(bsm := s2.bsm, proc := s2.proc)
      && MapOk(s2.bsm) && Shrunk(s.bsm, s2.bsm, p) && NoMapping(s2.bsm, p)
      && (forall q {:trigger s2.proc[q]} :: IsPid(q) && q != p ==> s2.proc[q] == s.proc[q])
      && s2.proc[p].pdbr == s.proc[p].pdbr
  {
    var b := s.proc[p].store;
    var s2 := DropStores(s, p);
    assert StoreFieldOk(s, p);
    forall c, k | IsMap(s.bsm, c, k) && s.bsm[c].maps[k].pid == p
      ensures if s.bsm[c].priv then b == c && s.proc[p].vhpno == s.bsm[c].maps[k].vpno else b == PUBLIC
    {
      assert OwnerOk(s, c, k);
    }
    if b == NO_STORE {
      ShrunkSelf(s.bsm, p);
    } else if b != PUBLIC {
      assert IsMap(s.bsm, b, 0);
      UnmapBare(s, p, b, 0);
      UnmapShrinks(s.bsm, Hit(b, 0), p);
      forall c, k | IsMap(s2.bsm, c, k)
        ensures s2.bsm[c].maps[k].pid != p
      {
        assert KeptFrom(s.bsm, s2.bsm, c, k);
      }
    } else {
      UnmapPublicShrinks(s, p, MAX_NUM_BS);
      forall c, k | IsMap(s2.bsm, c, k)
        ensures s2.bsm[c].maps[k].pid != p
      {
        assert KeptFrom(s.bsm, s2.bsm, c, k);
      }
    }
  }

  // ------------------------------------------------------------ the process disappears

  /** From a state in which p has no pages left: its directory frame i is blanked, it is no
      longer live, and the map has lost its mappings. */
  ghost predicate Retired(s: State, s2: State, p: int, i: int) {
    && IsPid(p) && 0 < p && Live(s, p) && IsFrame(i) && NoPages(s, p)
    && s.proc[p].pdbr == FRAME0 + i && DirOf(s.frm, p, i)
    && s2 == s.(frm := s.frm[i := BLANK], queue := Without(s.queue, i), bsm := s2.bsm, proc := s2.proc)
    && !s2.proc[p].live && s2.proc[p].pdbr == s.proc[p].pdbr
    && (forall q {:trigger s2.proc[q]} :: IsPid(q) && q != p ==> s2.proc[q] == s.proc[q])
    && Shrunk(s.bsm, s2.bsm, p) && NoMapping(s2.bsm, p)
  }

  /** A process without pages has no tables: each table has a present entry, and a present
      entry names a page of the table's process. */
  lemma NoTables(s: State, p: int, t: int)
    requires NoPages(s, p) && TablesOk(s, -1) && PtesOk(s) && TblFrame(s, t)
    ensures s.frm[t].pid != p
  {
    assert TableOk(s, t, -1);
    CountZero(s.phys[FRAME0 + t].pt);
    var k :| 0 <= k < NENTRIES && s.phys[FRAME0 + t].pt[k].pres;
    assert PteAt(s, t, k).pres;
    assert PteBacked(s, t, k);
    var i := PteAt(s, t, k).base - FRAME0;
    assert PageFrame(s, i);
  }

  lemma RetiredDirs(s: State, s2: State, p: int, i: int)
    requires Retired(s, s2, p, i) && DirsOk(s) && DirFramesOk(s)
    ensures DirsOk(s2) && DirFramesOk(s2)
  {
    forall q | Live(s2, q)
      ensures DirOk(s2, q)
    {
      assert q != p && DirOk(s, q) && DirOk(s, p);
      forall d | 0 <= d < 4
        ensures PdeAt(s2, q, d) == Pde(true, FRAME0 + d)
      {
        assert PdeAt(s, q, d) == Pde(true, FRAME0 + d);
      }
    }
  }

  lemma RetiredPdes(s: State, s2: State, p: int, i: int)
    requires Retired(s, s2, p, i) && PdesOk(s) && PdesDistinct(s)
    ensures PdesOk(s2) && PdesDistinct(s2)
  {
    forall q, d | Live(s2, q) && HasDir(s2, q) && 4 <= d < NENTRIES
      ensures q != p && HasDir(s, q) && PdeAt(s2, q, d) == PdeAt(s, q, d)
    {
    }
  }

  lemma RetiredTables(s: State, s2: State, p: int, i: int)
    requires Retired(s, s2, p, i) && TablesOk(s, -1) && PtesOk(s) && DirsOk(s)
    ensures TablesOk(s2, -1) && PtesOk(s2)
  {
    forall t | TblFrame(s2, t)
      ensures TableOk(s2, t, -1)
    {
      assert TableOk(s, t, -1);
      NoTables(s, p, t);
    }
    forall t, k | TblFrame(s2, t) && IsTable(s2, t) && 0 <= k < NENTRIES && PteAt(s2, t, k).pres
      ensures PteBacked(s2, t, k)
    {
      assert PteAt(s, t, k) == PteAt(s2, t, k);
      assert PteBacked(s, t, k);
      assert TableOk(s, t, -1);
      NoTables(s, p, t);
    }
  }

  lemma RetiredPages(s: State, s2: State, p: int, i: int, j: int)
    requires Retired(s, s2, p, i) && PagesOk(s) && IsFrame(j)
    ensures Linked(s2, j) <==> Linked(s, j)
    ensures PageFrame(s2, j) <==> PageFrame(s, j)
    ensures PageFrame(s, j) ==>
      PageOk(s2, j) && j != i && EntryOf(s2, j) == EntryOf(s, j) && Loc(s2, j) == Loc(s, j) && TableOf(s2, j) == TableOf(s, j)
  {
    if PageFrame(s, j) {
      assert PageOk(s, j);
      assert SameHit(s.bsm, s2.bsm, s.frm[j].pid, s.frm[j].vpno);
    }
  }

  lemma RetiredTree(s: State, s2: State, p: int, i: int)
    requires Retired(s, s2, p, i) && TreeOk(s, -1)
    ensures TreeOk(s2, -1)
  {
    hide DirsOk, DirFramesOk, PdesOk, PdesDistinct, TablesOk, PtesOk, Shrunk, NoMapping;
    RetiredDirs(s, s2, p, i);
    RetiredPdes(s, s2, p, i);
    RetiredTables(s, s2, p, i);
    forall j | PageFrame(s2, j)
      ensures PageOk(s2, j)
    {
      RetiredPages(s, s2, p, i, j);
    }
    forall t | 0 <= t < 4
      ensures GlobalOk(s2, t)
    {
      assert GlobalOk(s, t);
    }
  }

  lemma RetiredQueue(s: State, s2: State, p: int, i: int)
    requires Retired(s, s2, p, i) && QueueOk(s, -1) && AgesOk(s)
    ensures QueueOk(s2, -1) && AgesOk(s2)
  {
    hide Shrunk, NoMapping, NoPages;
    WithoutMembers(s.queue, i);
    forall j | IsFrame(j)
      ensures j in s2.queue <==> s2.frm[j].mapped
    {
      assert j in s.queue <==> s.frm[j].mapped;
    }
  }

  lemma RetiredOwners(s: State, s2: State, p: int, i: int)
    requires Retired(s, s2, p, i) && OwnersOk(s) && NoOrphans(s)
    ensures OwnersOk(s2) && NoOrphans(s2)
  {
    forall b, k | IsMap(s2.bsm, b, k)
      ensures OwnerOk(s2, b, k) && Live(s2, s2.bsm[b].maps[k].pid)
    {
      assert KeptFrom(s.bsm, s2.bsm, b, k);
      var k2 :| IsMap(s.bsm, b, k2) && s2.bsm[b].maps[k] == s.bsm[b].maps[k2] && s2.bsm[b].priv == s.bsm[b].priv;
      assert OwnerOk(s, b, k2);
    }
    forall q | Live(s2, q)
      ensures StoreFieldOk(s2, q)
    {
      assert StoreFieldOk(s, q);
    }
  }

  lemma RetiredClean(s: State, s2: State, p: int, i: int)
    requires Retired(s, s2, p, i) && PagesOk(s) && CleanOk(s)
    ensures CleanOk(s2)
  {
    forall j | IsFrame(j) && Dirty(s2, j)
      ensures s2.frm[j].pid == s2.cur || s2.proc[s2.frm[j].pid].store != PUBLIC
    {
      RetiredPages(s, s2, p, i, j);
      assert Dirty(s, j);
    }
  }

  lemma RetiredMemory(s: State, s2: State, p: int, i: int, m: Flat, n: int)
    requires Retired(s, s2, p, i) && PagesOk(s) && Represents(s, m, n)
    ensures Represents(s2, m, n)
  {
    forall j | IsFrame(j)
      ensures Linked(s2, j) <==> Linked(s, j)
      ensures Linked(s, j) ==> Loc(s2, j) == Loc(s, j) && (Dirty(s2, j) <==> Dirty(s, j)) && s2.frm[j] == s.frm[j]
    {
      RetiredPages(s, s2, p, i, j);
    }
    forall j | IsFrame(j) && Linked(s2, j) && Fresh(s2, j, n) && 0 <= Loc(s2, j) < NSLOTS
      ensures s2.phys[FRAME0 + j] == Data(m[Loc(s2, j)])
    {
      assert s.frm[j].pid != p;
      assert Fresh(s, j, n);
    }
    forall x | 0 <= x < NSLOTS && !DirtyAt(s2, x)
      ensures !DirtyAt(s, x)
    {
      forall j | IsFrame(j) && Dirty(s, j) && Loc(s, j) == x
        ensures Dirty(s2, j) && Loc(s2, j) == x
      {
      }
    }
  }

  // ---------------------------------------------------------------------- the theorems

  /** The directory frame that kill finds is the one the process uses. */
  lemma DirFound(s: State, p: int)
    requires DirsOk(s) && DirFramesOk(s) && Live(s, p)
    ensures FirstDir(s.frm, p, 0) == s.proc[p].pdbr - FRAME0 < NFRAMES
  {
    assert DirOk(s, p);
    assert DirOf(s.frm, p, s.proc[p].pdbr - FRAME0);
    assert DirOf(s.frm, p, FirstDir(s.frm, p, 0));
  }

  /** What follows the release of the pages, as one step. */
  lemma RestRetires(s: State, p: int)
    requires DirsOk(s) && DirFramesOk(s) && MapOk(s.bsm) && OwnersOk(s) && NoPages(s, p) && 0 < p && Live(s, p)
    ensures
      var s2 := DropStores(FreeDir(s, p), p);
      s2.proc[p].live && Retired(s, s2.(proc := s2.proc[p := s2.proc[p].(live := false)]), p, s.proc[p].pdbr - FRAME0)
      && MapOk(s2.bsm)
  {
    hide Shrunk, NoMapping, MapOk, OwnersOk;
    DirFound(s, p);
    var s1 := FreeDir(s, p);
    SameTreeOwners(s, s1);
    forall i | PageFrame(s1, i)
      ensures s1.frm[i].pid != p
    {
      assert PageFrame(s, i);
    }
    DropStoresPurges(s1, p);
  }

  /** What kill does to a live process, as one step from the state in which its pages have
      been released. */
  lemma KillRetires(s: State, p: int)
    requires Valid(s) && 0 < p && Live(s, p)
    ensures
      var s1 := FreePages(s, p, 0, NVPAGES, NFRAMES);
      Valid(s1) && Released(s, s1, p, 0, NVPAGES, NFRAMES)
      && Retired(s1, Kill(s, p), p, s.proc[p].pdbr - FRAME0) && MapOk(Kill(s, p).bsm)
  {
    hide Inv, Released, Retired, PagesOk, MapOk, OwnersOk, DirsOk, DirFramesOk, NoPages, FreePages, FreeDir;
    var s1 := FreePages(s, p, 0, NVPAGES, NFRAMES);
    FreePagesInv(s, p, 0, NVPAGES, NFRAMES);
    FreePagesReleased(s, p, 0, NVPAGES, NFRAMES);
    InvParts(s1, -1, -1);
    NothingOf(s, s1, p);
    RestRetires(s1, p);
  }

  lemma NothingOf(s: State, s1: State, p: int)
    requires Released(s, s1, p, 0, NVPAGES, NFRAMES) && PagesOk(s1)
    ensures NoPages(s1, p)
  {
    forall i | PageFrame(s1, i)
      ensures s1.frm[i].pid != p
    {
      assert PageOk(s1, i);
    }
  }

  /** Killing a live process keeps the invariant. */
  lemma KillKeepsInv(s: State, p: int)
    requires Valid(s) && NoOrphans(s) && 0 < p && Live(s, p)
    ensures Valid(Kill(s, p)) && NoOrphans(Kill(s, p))
  {
    hide Inv, Released, Retired, PagesOk, QueueOk, OwnersOk, CleanOk, NoOrphans, TreeOk, Kill;
    KillRetires(s, p);
    var s1, s2, i := FreePages(s, p, 0, NVPAGES, NFRAMES), Kill(s, p), s.proc[p].pdbr - FRAME0;
    InvParts(s1, -1, -1);
    assert NoOrphans(s1) by { OrphansSame(s, s1); }
    RetiredTree(s1, s2, p, i);
    RetiredQueue(s1, s2, p, i);
    RetiredOwners(s1, s2, p, i);
    RetiredClean(s1, s2, p, i);
    InvWhole(s2);
  }

  lemma OrphansSame(s: State, s1: State)
    requires NoOrphans(s) && s1.bsm == s.bsm && s1.proc == s.proc
    ensures NoOrphans(s1)
  {
  }

  lemma InvWhole(s: State)
    requires TreeOk(s, -1) && QueueOk(s, -1) && MapOk(s.bsm) && OwnersOk(s) && CleanOk(s) && AgesOk(s)
    ensures Valid(s)
  {
  }

  /** Killing a process leaves the flat memory alone: each of its dirty pages reached its
      own store page before the mapping was dropped. */
  lemma KillKeepsMemory(s: State, p: int, m: Flat)
    requires Valid(s) && 0 < p && Live(s, p) && Represents(s, m, NFRAMES)
    ensures Represents(Kill(s, p), m, NFRAMES)
  {
    hide Inv, Released, Retired, PagesOk, Represents, Kill;
    KillRetires(s, p);
    var s1, s2, i := FreePages(s, p, 0, NVPAGES, NFRAMES), Kill(s, p), s.proc[p].pdbr - FRAME0;
    InvParts(s1, -1, -1);
    FreePagesMemory(s, p, 0, NVPAGES, NFRAMES, m, NFRAMES);
    RetiredMemory(s1, s2, p, i, m, NFRAMES);
  }

  /** What can still carry the pid of a process without pages is its directory. */
  lemma LeftOver(s: State, p: int, j: int)
    requires Valid(s) && NoPages(s, p) && 0 < p && IsPid(p) && IsFrame(j) && s.frm[j].mapped && s.frm[j].pid == p
    ensures s.proc[p].pdbr == FRAME0 + j
  {
    forall g | 0 <= g < 4
      ensures s.frm[g].pid != p
    {
      assert GlobalOk(s, g);
    }
    if TblFrame(s, j) { NoTables(s, p, j); }
  }

  lemma KillFrame(s: State, p: int, j: int)
    requires Valid(s) && 0 < p && Live(s, p) && IsFrame(j)
    ensures Kill(s, p).frm[j].mapped ==> Kill(s, p).frm[j].pid != p
    ensures s.frm[j].mapped && s.frm[j].pid != p ==> Kill(s, p).frm[j] == s.frm[j]
  {
    hide Inv, Kill, FreePages, Shrunk, NoMapping, NoPages;
    KillRetires(s, p);
    var s1 := FreePages(s, p, 0, NVPAGES, NFRAMES);
    assert Kill(s, p).frm[j] == if j == s.proc[p].pdbr - FRAME0 then BLANK else s1.frm[j];
    if s1.frm[j].mapped && s1.frm[j].pid == p {
      LeftOver(s1, p, j);
    }
  }

  /** kill leaks nothing: no frame of any kind and no mapping belongs to the process, and
      frames and lookups of every other process are as before. */
  lemma KillLeaksNothing(s: State, p: int)
    requires Valid(s) && 0 < p && Live(s, p)
    ensures
      var s2 := Kill(s, p);
      && !Live(s2, p) && NoMapping(s2.bsm, p)
      && (forall j {:trigger s2.frm[j]} :: IsFrame(j) && s2.frm[j].mapped ==> s2.frm[j].pid != p)
      && (forall j {:trigger s2.frm[j]} :: IsFrame(j) && s.frm[j].mapped && s.frm[j].pid != p ==> s2.frm[j] == s.frm[j])
      && (forall q, v {:trigger Lookup(s2.bsm, q, v)} :: q != p ==> SameHit(s.bsm, s2.bsm, q, v))
  {
    hide Inv, Kill, FreePages, Released, NoMapping;
    KillRetires(s, p);
    forall j | IsFrame(j)
      ensures Kill(s, p).frm[j].mapped ==> Kill(s, p).frm[j].pid != p
      ensures s.frm[j].mapped && s.frm[j].pid != p ==> Kill(s, p).frm[j] == s.frm[j]
    {
      KillFrame(s, p, j);
    }
    var s1 := FreePages(s, p, 0, NVPAGES, NFRAMES);
    assert s1.bsm == s.bsm;
    forall q, v | q != p
      ensures SameHit(s.bsm, Kill(s, p).bsm, q, v)
    {
      assert SameHit(s1.bsm, Kill(s, p).bsm, q, v);
    }
  }

  // --------------------------------------------------------------- kill with a bad pid

  /** The pid check comes last. For the null process kill returns SYSERR having given away
      the directory it still runs on. */
  lemma KillNullLosesDirectory(s: State)
    requires Valid(s) && Live(s, 0)
    ensures !Valid(Kill(s, 0)) && Live(Kill(s, 0), 0)
  {
    hide Inv, Released, PagesOk, MapOk, OwnersOk, DirsOk, DirFramesOk, NoPages, FreePages, FreeDir, DropStores;
    var s1 := FreePages(s, 0, 0, NVPAGES, NFRAMES);
    FreePagesInv(s, 0, 0, NVPAGES, NFRAMES);
    FreePagesReleased(s, 0, 0, NVPAGES, NFRAMES);
    InvParts(s1, -1, -1);
    NothingOf(s, s1, 0);
    NullDrops(s1);
    NoDirNotValid(Kill(s, 0), 0);
  }

  lemma NullDrops(s: State)
    requires DirsOk(s) && DirFramesOk(s) && MapOk(s.bsm) && OwnersOk(s) && NoPages(s, 0) && Live(s, 0)
    ensures
      var s2 := DropStores(FreeDir(s, 0), 0);
      s2.proc[0].live && FRAME0 <= s2.proc[0].pdbr < FRAME0 + NFRAMES && s2.frm[s2.proc[0].pdbr - FRAME0] == BLANK
  {
    hide Shrunk, NoMapping, MapOk, OwnersOk;
    DirFound(s, 0);
    var s1 := FreeDir(s, 0);
    SameTreeOwners(s, s1);
    forall i | PageFrame(s1, i)
      ensures s1.frm[i].pid != 0
    {
      assert PageFrame(s, i);
    }
    DropStoresPurges(s1, 0);
  }

  lemma NoDirNotValid(s: State, p: int)
    requires Live(s, p) && FRAME0 <= s.proc[p].pdbr < FRAME0 + NFRAMES && s.frm[s.proc[p].pdbr - FRAME0] == BLANK
    ensures !Valid(s)
  {
    assert !DirOk(s, p);
  }

  /** For a pid that is not live, kill returns SYSERR having closed whatever private store
      the slot's store field still names. It does no harm exactly when that store is not
      private now, or not open. */
  lemma KillDeadPid(s: State, p: int)
    requires Valid(s) && NoOrphans(s) && IsPid(p) && 0 < p && !Live(s, p)
    ensures
      var b := s.proc[p].store;
      Valid(Kill(s, p)) <==> !(0 <= b < MAX_NUM_BS && s.bsm[b].mapped && s.bsm[b].priv)
  {
    hide TreeOk, QueueOk, CleanOk, AgesOk, Released;
    var b := s.proc[p].store;
    DeadHasNothing(s, p);
    FreePagesNone(s, p, 0, NVPAGES, NFRAMES);
    DeadDrop(s, p);
    var s2 := Kill(s, p);
    if 0 <= b < MAX_NUM_BS && s.bsm[b].mapped && s.bsm[b].priv {
      assert StoreOk(s.bsm[b]);
      assert IsMap(s.bsm, b, 0) && OwnerOk(s, b, 0);
      var q := s.bsm[b].maps[0].pid;
      assert Live(s2, q) && !StoreFieldOk(s2, q);
      assert !OwnersOk(s2);
    } else {
      assert s2.bsm == s.bsm;
      DeadSlot(s, s2, p);
    }
  }

  lemma DeadHasNothing(s: State, p: int)
    requires Valid(s) && NoOrphans(s) && IsPid(p) && 0 < p && !Live(s, p)
    ensures NoPages(s, p) && NoMapping(s.bsm, p) && FirstDir(s.frm, p, 0) == NFRAMES
  {
    forall i | PageFrame(s, i)
      ensures s.frm[i].pid != p
    {
      assert PageOk(s, i);
    }
    forall i
      ensures !DirOf(s.frm, p, i)
    {
    }
  }

  lemma {:induction false} PublicNone(s: State, p: int, n: nat)
    requires NoMapping(s.bsm, p) && n <= MAX_NUM_BS
    ensures UnmapPublic(s, p, n) == s
  {
    if n > 0 {
      PublicNone(s, p, n - 1);
      var k := FirstOf(s.bsm[n - 1].maps, p, 0);
      assert s.bsm[n - 1].mapped && k < |s.bsm[n - 1].maps| ==> IsMap(s.bsm, n - 1, k);
    }
  }

  /** What is left of kill for a process without frames and mappings. */
  lemma DeadDrop(s: State, p: int)
    requires NoPages(s, p) && NoMapping(s.bsm, p) && IsPid(p) && !Live(s, p) && FirstDir(s.frm, p, 0) == NFRAMES
    ensures
      var b := s.proc[p].store;
      var s2 := Kill(s, p);
      && s2 == s.(bsm := s2.bsm, proc := s2.proc)
      && s2.bsm == (if b == NO_STORE || b == PUBLIC then s.bsm else FreeBsm(s.bsm, b))
      && (forall q {:trigger s2.proc[q]} :: IsPid(q) && q != p ==> s2.proc[q] == s.proc[q])
      && s2.proc[p].live == s.proc[p].live && s2.proc[p].pdbr == s.proc[p].pdbr
  {
    FreePagesNone(s, p, 0, NVPAGES, NFRAMES);
    PublicNone(s, p, MAX_NUM_BS);
    assert Lookup(s.bsm, p, s.proc[p].vhpno).None?;
  }

  /** The store fields of a free slot do not matter. */
  lemma DeadSlot(s: State, s2: State, p: int)
    requires Valid(s) && IsPid(p) && !Live(s, p) && s2 == s.(proc := s2.proc)
    requires s2.proc[p].live == s.proc[p].live && s2.proc[p].pdbr == s.proc[p].pdbr
    requires forall q {:trigger s2.proc[q]} :: IsPid(q) && q != p ==> s2.proc[q] == s.proc[q]
    ensures Valid(s2)
  {
    hide Inv, TreeOk, MapOk, QueueOk, CleanOk;
    InvParts(s, -1, -1);
    assert Remapped(s, s2) by {
      forall i | PageFrame(s, i)
        ensures WellMapped(s.bsm, s.frm[i].pid, s.frm[i].vpno)
      {
        assert PageOk(s, i);
      }
    }
    forall b, k | IsMap(s2.bsm, b, k)
      ensures OwnerOk(s2, b, k)
    {
      assert OwnerOk(s, b, k);
    }
    forall q | Live(s2, q)
      ensures StoreFieldOk(s2, q)
    {
      assert StoreFieldOk(s, q);
    }
    RemappedInv(s, s2, -1);
  }
}
