/** The paging part of paging/vcreate.c: a private store with its initial heap block, and
    a directory, for the new process. */
module HeapBirth {
  import opened Machine
  import opened BackingStore
  import opened Frames
  import opened PagingInv
  import opened Tweak
  import opened GetFrame
  import opened Switch
  import opened Lifecycle
  import opened Birth

  /** `get_bsm`: the first store that is not open; 8 if all are. */
  function FirstClosed(bsm: StoreMap, k: nat): (r: nat)
    requires k <= MAX_NUM_BS
    ensures k <= r <= MAX_NUM_BS
    ensures r < MAX_NUM_BS ==> !bsm[r].mapped
    ensures forall j :: k <= j < r ==> bsm[j].mapped
    decreases MAX_NUM_BS - k
  {
    if k == MAX_NUM_BS || !bsm[k].mapped then k else FirstClosed(bsm, k + 1)
  }

  function SetPrivate(s: State, b: int): State
    requires 0 <= b < MAX_NUM_BS
  {
    s.(bsm := s.bsm[b := s.bsm[b].(priv := true)])
  }

  /** A 32-bit number below 2^24 as four little-endian bytes. */
  function Le32(x: int): seq<Byte>
    requires 0 <= x < 0x100_0000
  {
    [x % 256, x / 256 % 256, x / 65536 % 256, 0]
  }

  /** The head of a heap of n pages: one free block, no successor, n pages long. */
  function HeapHead(p: Page, n: int): Page
    requires 1 <= n <= MAX_BS_PAGES
  {
    [0, 0, 0, 0] + Le32(n * NBPG) + p[8..]
  }

  /** The first two words are a null link and the length in bytes; the rest stays. */
  lemma HeadWords(p: Page, n: int)
    requires 1 <= n <= MAX_BS_PAGES
    ensures Word(HeapHead(p, n), 0) == 0 && Word(HeapHead(p, n), 1) == n * NBPG
    ensures HeapHead(p, n)[8..] == p[8..]
  {
    LittleEndian(n * NBPG);
    var h := HeapHead(p, n);
    assert h[4] == Le32(n * NBPG)[0] && h[5] == Le32(n * NBPG)[1] && h[6] == Le32(n * NBPG)[2] && h[7] == Le32(n * NBPG)[3];
  }

  lemma LittleEndian(x: int)
    requires 0 <= x < 0x100_0000
    ensures var b := Le32(x); |b| == 4 && x == b[0] as int + 0x100 * b[1] as int + 0x1_0000 * b[2] as int + 0x100_0000 * b[3] as int
  {
    assert x / 65536 % 256 == x / 65536;
  }

  function InitHeap(s: State, b: int, n: int): State
    requires 0 <= b < MAX_NUM_BS && 1 <= n <= MAX_BS_PAGES && s.phys[SlotPage(Slot(b, 0))].Data?
  {
    var page := HeapHead(s.phys[SlotPage(Slot(b, 0))].bytes, n);
    s.(phys := s.phys[SlotPage(Slot(b, 0)) := Data(page)])
  }

  function Mapped(s: State, p: int, b: int, n: int): State
    requires 0 <= b < MAX_NUM_BS && 1 <= n <= MAX_BS_PAGES
  {
    s.(bsm := s.bsm[b := Store(true, n, s.bsm[b].priv, s.bsm[b].maps + [Mapping(p, MIN_VPNO, n)])])
  }

  function Owner(b: int, n: int): Proc { Proc(true, 0, b, MIN_VPNO, n) }

  /** A slot taken by a call that failed after marking it. */
  function Taken(s: State, p: int): State
    requires IsPid(p)
  {
    s.(proc := s.proc[p := s.proc[p].(live := true)])
  }

  ghost predicate Spawnable(s: State, p: int) {
    Valid(s) && NoOrphans(s) && IsPid(p) && !Live(s, p) && Live(s, 0)
  }

  /** `vcreate` from the point where a slot and a stack have been found. The result says
      whether the call succeeded; None is a victim search that follows a null link. */
  ghost function Vcreate(s: State, p: int, n: int): Option<(State, bool)>
    requires Spawnable(s, p)
  {
    var b := FirstClosed(s.bsm, 0);
    if b == MAX_NUM_BS || Map(s.bsm, p, MIN_VPNO, b, n).None? then Some((Taken(s, p), false))
    else
      MappedInv(s, p, b, n);
      match GetFrm(Mapped(s, p, b, n))
      case None => None
      case Some((s2, f)) =>
        GetFrmGrants(Mapped(s, p, b, n));
        GetFrmKeepsInv(Mapped(s, p, b, n), -1);
        Some((InitHeap(MakeDir(SetPrivate(s2, b), p, f, Owner(b, n)), b, n), true))
  }

  // ------------------------------------------------------------------ mapping the store

  /** A closed store mapped for a process that is not live yet. */
  lemma MappedInv(s: State, p: int, b: int, n: int)
    requires Spawnable(s, p) && 0 <= b < MAX_NUM_BS && !s.bsm[b].mapped && Map(s.bsm, p, MIN_VPNO, b, n).Some?
    ensures 1 <= n <= MAX_BS_PAGES && Map(s.bsm, p, MIN_VPNO, b, n) == Some(Mapped(s, p, b, n).bsm)
    ensures Valid(Mapped(s, p, b, n)) && Remapped(s, Mapped(s, p, b, n))
    ensures Mapped(s, p, b, n).bsm[b] == Store(true, n, false, [Mapping(p, MIN_VPNO, n)])
  {
    hide TreeOk, QueueOk, CleanOk, AgesOk;
    InvParts(s, -1, -1);
    assert StoreOk(s.bsm[b]);
    var s1 := Mapped(s, p, b, n);
    assert MapAllowed(s.bsm, p, MIN_VPNO, b, n);
    MapKeepsOk(s.bsm, p, MIN_VPNO, b, n);
    MappedRemaps(s, p, b, n);
    MappedOwners(s, p, b, n);
    RemappedInv(s, s1, -1);
  }

  lemma MappedRemaps(s: State, p: int, b: int, n: int)
    requires PagesOk(s) && MapOk(s.bsm) && 0 <= b < MAX_NUM_BS && 1 <= n <= MAX_BS_PAGES
    requires MapAllowed(s.bsm, p, MIN_VPNO, b, n) && Map(s.bsm, p, MIN_VPNO, b, n) == Some(Mapped(s, p, b, n).bsm)
    ensures Remapped(s, Mapped(s, p, b, n))
  {
    var s1 := Mapped(s, p, b, n);
    forall i | PageFrame(s, i)
      ensures WellMapped(s.bsm, s.frm[i].pid, s.frm[i].vpno) && WellMapped(s1.bsm, s.frm[i].pid, s.frm[i].vpno)
      ensures SlotOf(s1.bsm, s.frm[i].pid, s.frm[i].vpno) == SlotOf(s.bsm, s.frm[i].pid, s.frm[i].vpno)
    {
      assert PageOk(s, i);
      MapLookup(s.bsm, p, MIN_VPNO, b, n, s.frm[i].pid, s.frm[i].vpno);
    }
  }

  lemma MappedOwners(s: State, p: int, b: int, n: int)
    requires OwnersOk(s) && IsPid(p) && !Live(s, p) && 0 <= b < MAX_NUM_BS && 1 <= n <= MAX_BS_PAGES
    requires s.bsm[b] == FREE_STORE
    ensures OwnersOk(Mapped(s, p, b, n))
  {
    var s1 := Mapped(s, p, b, n);
    forall c, k | IsMap(s1.bsm, c, k)
      ensures OwnerOk(s1, c, k)
    {
      assert c != b ==> IsMap(s.bsm, c, k) && OwnerOk(s, c, k);
    }
    forall q | Live(s1, q)
      ensures StoreFieldOk(s1, q)
    {
      assert StoreFieldOk(s, q);
    }
  }

  // --------------------------------------------------------------- making it private

  ghost predicate OneOwner(s: State, p: int, b: int, n: int) {
    0 <= b < MAX_NUM_BS && 1 <= n <= MAX_BS_PAGES && s.bsm[b] == Store(true, n, false, [Mapping(p, MIN_VPNO, n)])
    && IsPid(p) && !Live(s, p)
    && forall c, k {:trigger IsMap(s.bsm, c, k)} :: IsMap(s.bsm, c, k) && s.bsm[c].maps[k].pid == p ==> c == b
  }

  lemma {:induction false} SameLookup(a: StoreMap, c: StoreMap, q: int, v: int, b: int)
    requires 0 <= b <= MAX_NUM_BS && forall d :: 0 <= d < MAX_NUM_BS ==> a[d].mapped == c[d].mapped && a[d].maps == c[d].maps
    ensures LookupFrom(a, q, v, b) == LookupFrom(c, q, v, b)
    decreases MAX_NUM_BS - b
  {
    if b < MAX_NUM_BS {
      SameLookup(a, c, q, v, b + 1);
    }
  }

  lemma PrivateRemaps(s: State, p: int, b: int, n: int)
    requires PagesOk(s) && OneOwner(s, p, b, n)
    ensures Remapped(s, SetPrivate(s, b))
  {
    var s2 := SetPrivate(s, b);
    forall i | PageFrame(s, i)
      ensures WellMapped(s.bsm, s.frm[i].pid, s.frm[i].vpno) && WellMapped(s2.bsm, s.frm[i].pid, s.frm[i].vpno)
      ensures SlotOf(s2.bsm, s.frm[i].pid, s.frm[i].vpno) == SlotOf(s.bsm, s.frm[i].pid, s.frm[i].vpno)
    {
      assert PageOk(s, i);
      SameLookup(s.bsm, s2.bsm, s.frm[i].pid, s.frm[i].vpno, 0);
    }
  }

  lemma PrivateMap(s: State, p: int, b: int, n: int)
    requires MapOk(s.bsm) && OneOwner(s, p, b, n)
    ensures MapOk(SetPrivate(s, b).bsm)
  {
    var s2 := SetPrivate(s, b);
    assert StoreOk(s.bsm[b]);
    assert StoreOk(s2.bsm[b]);
    forall c, k, c2, k2 | IsMap(s2.bsm, c, k) && IsMap(s2.bsm, c2, k2)
      ensures PairOk(s2.bsm, c, k, c2, k2)
    {
      assert IsMap(s.bsm, c, k) && IsMap(s.bsm, c2, k2) && PairOk(s.bsm, c, k, c2, k2);
    }
  }

  lemma PrivateOwners(s: State, p: int, b: int, n: int)
    requires OwnersOk(s) && OneOwner(s, p, b, n)
    ensures OwnersOk(SetPrivate(s, b))
  {
    var s2 := SetPrivate(s, b);
    forall c, k | IsMap(s2.bsm, c, k)
      ensures OwnerOk(s2, c, k)
    {
      assert IsMap(s.bsm, c, k) && OwnerOk(s, c, k);
    }
    forall q | Live(s2, q)
      ensures StoreFieldOk(s2, q)
    {
      assert StoreFieldOk(s, q);
    }
  }

  lemma PrivateInv(s: State, p: int, b: int, n: int, f: int)
    requires Inv(s, -1, f) && OneOwner(s, p, b, n)
    ensures Inv(SetPrivate(s, b), -1, f) && Remapped(s, SetPrivate(s, b))
  {
    hide TreeOk, QueueOk, CleanOk, AgesOk, MapOk, OwnersOk, Remapped, OneOwner;
    InvParts(s, -1, f);
    assert 0 <= b < MAX_NUM_BS by { OneOwnerStore(s, p, b, n); }
    PrivateRemaps(s, p, b, n);
    PrivateMap(s, p, b, n);
    PrivateOwners(s, p, b, n);
    RemappedInv(s, SetPrivate(s, b), f);
  }

  lemma OneOwnerStore(s: State, p: int, b: int, n: int)
    requires OneOwner(s, p, b, n)
    ensures 0 <= b < MAX_NUM_BS
  {
  }

  lemma OwnerOwns(s: State, p: int, b: int, n: int)
    requires MapOk(s.bsm) && OneOwner(s, p, b, n)
    ensures OwnsRight(SetPrivate(s, b), p, Owner(b, n))
  {
    var s2 := SetPrivate(s, b);
    forall c, k | IsMap(s2.bsm, c, k) && s2.bsm[c].maps[k].pid == p
      ensures c == b
    {
      assert IsMap(s.bsm, c, k);
    }
  }

  // ----------------------------------------------------------------- the initial heap

  /** No frame caches a page of the store. */
  lemma NobodyCaches(s: State, p: int, b: int, n: int, j: int)
    requires PagesOk(s) && MapOk(s.bsm) && OneOwner(s, p, b, n) && IsFrame(j) && Linked(s, j)
    ensures Loc(s, j) != Slot(b, 0)
  {
    assert PageOk(s, j);
    SlotBounds(s.bsm, s.frm[j].pid, s.frm[j].vpno);
    var h := Lookup(s.bsm, s.frm[j].pid, s.frm[j].vpno).value;
    assert IsMap(s.bsm, h.store, h.pos);
  }

  /** Writing a store page that no frame caches writes that page of the flat memory. */
  lemma PokeMemory(s: State, x: int, page: Page, m: Flat, k: int)
    requires Represents(s, m, k) && PagesOk(s) && FramesOk(s) && 0 <= x < NSLOTS
    requires forall j {:trigger s.frm[j]} :: IsFrame(j) && Linked(s, j) ==> Loc(s, j) != x
    ensures Represents(s.(phys := s.phys[SlotPage(x) := Data(page)]), m[x := page], k)
  {
    var s2 := s.(phys := s.phys[SlotPage(x) := Data(page)]);
    assert DataOnly(s, s2);
    forall j | IsFrame(j)
      ensures Linked(s2, j) <==> Linked(s, j)
      ensures Linked(s, j) ==> Loc(s2, j) == Loc(s, j) && (Dirty(s2, j) <==> Dirty(s, j))
    {
      DataOnlyLinks(s, s2, j);
    }
    forall j | IsFrame(j) && Linked(s2, j) && Fresh(s2, j, k) && 0 <= Loc(s2, j) < NSLOTS
      ensures s2.phys[FRAME0 + j] == Data(m[x := page][Loc(s2, j)])
    {
      assert Fresh(s, j, k);
    }
    forall y | 0 <= y < NSLOTS && !DirtyAt(s2, y)
      ensures s2.phys[SlotPage(y)] == Data(m[x := page][y])
    {
      forall j | IsFrame(j) && Dirty(s, j) && Loc(s, j) == y
        ensures Dirty(s2, j) && Loc(s2, j) == y
      {
      }
      assert !DirtyAt(s, y);
    }
  }

  // ------------------------------------------------------------------------- theorems

  lemma MappedOwner(s: State, p: int, b: int, n: int)
    requires Spawnable(s, p) && 0 <= b < MAX_NUM_BS && !s.bsm[b].mapped && Map(s.bsm, p, MIN_VPNO, b, n).Some?
    ensures 1 <= n <= MAX_BS_PAGES && OneOwner(Mapped(s, p, b, n), p, b, n)
  {
    hide Inv;
    MappedInv(s, p, b, n);
    var s1 := Mapped(s, p, b, n);
    forall c, k | IsMap(s1.bsm, c, k) && s1.bsm[c].maps[k].pid == p
      ensures c == b
    {
      assert c != b ==> IsMap(s.bsm, c, k);
    }
  }

  /** The state in which vcreate turns frame f into the directory. */
  lemma Prepared(s: State, p: int, n: int)
    requires Spawnable(s, p) && Vcreate(s, p, n).Some? && Vcreate(s, p, n).value.1
    ensures
      var b := FirstClosed(s.bsm, 0);
      && 0 <= b < MAX_NUM_BS && 1 <= n <= MAX_BS_PAGES && Valid(Mapped(s, p, b, n)) && Remapped(s, Mapped(s, p, b, n))
      && GetFrm(Mapped(s, p, b, n)).Some?
      && var (s2, f) := GetFrm(Mapped(s, p, b, n)).value;
      && Inv(s2, -1, f) && Unborn(s2, p, f) && OneOwner(s2, p, b, n) && s2.phys[SlotPage(Slot(b, 0))].Data?
      && Vcreate(s, p, n).value.0 == InitHeap(MakeDir(SetPrivate(s2, b), p, f, Owner(b, n)), b, n)
  {
    hide MakeDir, InitHeap, TreeOk, QueueOk, MapOk, OwnersOk, CleanOk;
    var b := FirstClosed(s.bsm, 0);
    MappedInv(s, p, b, n);
    MappedOwner(s, p, b, n);
    var s1 := Mapped(s, p, b, n);
    InvParts(s1, -1, -1);
    GetFrmGrants(s1);
    GetFrmKeepsInv(s1, -1);
    InvParts(GetFrm(s1).value.0, -1, GetFrm(s1).value.1);
  }

  /** A successful vcreate keeps the invariant exactly when the directory frame's stale
      entries are clear. */
  lemma VcreateKeepsInv(s: State, p: int, n: int)
    requires Spawnable(s, p) && Vcreate(s, p, n).Some? && Vcreate(s, p, n).value.1
    ensures FirstClosed(s.bsm, 0) < MAX_NUM_BS && 1 <= n <= MAX_BS_PAGES && Valid(Mapped(s, p, FirstClosed(s.bsm, 0), n))
    ensures
      var g := GetFrm(Mapped(s, p, FirstClosed(s.bsm, 0), n));
      g.Some? && IsFrame(g.value.1)
      && (Valid(Vcreate(s, p, n).value.0) <==> StaleClear(g.value.0.phys[FRAME0 + g.value.1]))
  {
    hide Inv, OneOwner, OwnsRight, StaleClear, Vcreate, GetFrm, Remapped, Spawnable;
    Prepared(s, p, n);
    var b := FirstClosed(s.bsm, 0);
    GetFrmReady(Mapped(s, p, b, n), -1, -1);
    var (s2, f) := GetFrm(Mapped(s, p, b, n)).value;
    VcreateEnd(s2, p, b, n, f);
  }

  lemma VcreateEnd(s2: State, p: int, b: int, n: int, f: int)
    requires Inv(s2, -1, f) && Unborn(s2, p, f) && OneOwner(s2, p, b, n)
    ensures s2.phys[SlotPage(Slot(b, 0))].Data?
    ensures
      Valid(InitHeap(MakeDir(SetPrivate(s2, b), p, f, Owner(b, n)), b, n)) <==> StaleClear(s2.phys[FRAME0 + f])
  {
    hide TreeOk, QueueOk, OwnersOk, CleanOk, OwnsRight, StaleClear;
    InvParts(s2, -1, f);
    PrivateInv(s2, p, b, n, f);
    OwnerOwns(s2, p, b, n);
    var s3 := SetPrivate(s2, b);
    var s4 := MakeDir(s3, p, f, Owner(b, n));
    var s5 := InitHeap(s4, b, n);
    if StaleClear(s2.phys[FRAME0 + f]) {
      BornInv(s3, p, f, Owner(b, n));
      HeapInv(s4, s5);
    } else {
      StaleBreaks(s3, p, f, Owner(b, n));
      if Valid(s5) {
        HeapInv(s5, s4);
      }
    }
  }

  lemma HeapInv(s: State, s2: State)
    requires Valid(s) && DataOnly(s, s2)
    ensures Valid(s2)
  {
    DataOnlyInv(s, s2, -1, -1);
  }

  /** A vcreate that finds no store, or is asked for no page or more than 256, has already
      marked its slot as taken and leaves it without a directory. */
  lemma VcreateFailureLeaksSlot(s: State, p: int, n: int)
    requires Spawnable(s, p)
    ensures FirstClosed(s.bsm, 0) == MAX_NUM_BS || !(1 <= n <= MAX_BS_PAGES) ==>
      Vcreate(s, p, n) == Some((Taken(s, p), false)) && !Valid(Taken(s, p))
  {
    if FirstClosed(s.bsm, 0) == MAX_NUM_BS || !(1 <= n <= MAX_BS_PAGES) {
      var s2 := Taken(s, p);
      forall i | IsFrame(i) && s.frm[i].mapped && s.frm[i].ftype == FR_DIR
        ensures s.frm[i].pid != p
      {
        assert Live(s, s.frm[i].pid);
      }
      assert Live(s2, p) && !DirOk(s2, p);
    }
  }

  /** A successful vcreate writes the heap's head into the first page of the store it
      chose and leaves the rest of the flat memory alone. */
  lemma VcreateMemory(s: State, p: int, n: int, m: Flat)
    requires Spawnable(s, p) && Vcreate(s, p, n).Some? && Vcreate(s, p, n).value.1 && Represents(s, m, NFRAMES)
    ensures
      var x := Slot(FirstClosed(s.bsm, 0), 0);
      1 <= n <= MAX_BS_PAGES && 0 <= x < NSLOTS && Represents(Vcreate(s, p, n).value.0, m[x := HeapHead(m[x], n)], NFRAMES)
  {
    hide Inv, Represents, OneOwner, Vcreate, GetFrm, Remapped, InitHeap, MakeDir;
    Prepared(s, p, n);
    var b := FirstClosed(s.bsm, 0);
    var s1 := Mapped(s, p, b, n);
    GetFrmReady(s, -1, -1);
    GetFrmReady(s1, -1, -1);
    RemappedMemory(s, s1, m);
    GetFrmKeepsMemory(s1, -1, m, NFRAMES);
    var (s2, f) := GetFrm(s1).value;
    VcreateEndMemory(s2, p, b, n, f, m);
  }

  lemma Uncached(s: State, p: int, b: int, n: int, m: Flat)
    requires PagesOk(s) && MapOk(s.bsm) && OneOwner(s, p, b, n) && Represents(s, m, NFRAMES)
    ensures s.phys[SlotPage(Slot(b, 0))] == Data(m[Slot(b, 0)])
    ensures forall j {:trigger s.frm[j]} :: IsFrame(j) && Linked(s, j) ==> Loc(s, j) != Slot(b, 0)
  {
    forall j | IsFrame(j) && Linked(s, j)
      ensures Loc(s, j) != Slot(b, 0)
    {
      NobodyCaches(s, p, b, n, j);
    }
    assert !DirtyAt(s, Slot(b, 0));
  }

  /** Setting up the heap before the store is made private. */
  lemma HeapFirst(s: State, p: int, b: int, n: int, f: int, m: Flat)
    requires Inv(s, -1, f) && OneOwner(s, p, b, n) && Represents(s, m, NFRAMES)
    ensures s.phys[SlotPage(Slot(b, 0))].Data?
    ensures
      var x := Slot(b, 0);
      Inv(InitHeap(s, b, n), -1, f) && Represents(InitHeap(s, b, n), m[x := HeapHead(m[x], n)], NFRAMES)
  {
    hide Inv, HeapHead, Represents, PagesOk, FramesOk, MapOk;
    InvParts(s, -1, f);
    Uncached(s, p, b, n, m);
    var x := Slot(b, 0);
    forall j | IsFrame(j) && Linked(s, j)
      ensures Loc(s, j) != x
    {
      NobodyCaches(s, p, b, n, j);
    }
    PokeMemory(s, x, HeapHead(m[x], n), m, NFRAMES);
    DataOnlyInv(s, InitHeap(s, b, n), -1, f);
  }

  lemma VcreateEndMemory(s2: State, p: int, b: int, n: int, f: int, m: Flat)
    requires Inv(s2, -1, f) && Unborn(s2, p, f) && OneOwner(s2, p, b, n) && Represents(s2, m, NFRAMES)
    ensures s2.phys[SlotPage(Slot(b, 0))].Data?
    ensures
      var x := Slot(b, 0);
      Represents(InitHeap(MakeDir(SetPrivate(s2, b), p, f, Owner(b, n)), b, n), m[x := HeapHead(m[x], n)], NFRAMES)
  {
    hide Inv, Represents, HeapHead, PagesOk, DirsOk, Remapped;
    HeapFirst(s2, p, b, n, f, m);
    var s3 := InitHeap(s2, b, n);
    InvParts(s3, -1, f);
    PrivateInv(s3, p, b, n, f);
    var s4 := SetPrivate(s3, b);
    InvParts(s4, -1, f);
    var x := Slot(b, 0);
    RemappedMemory(s3, s4, m[x := HeapHead(m[x], n)]);
    BornMemory(s4, p, f, Owner(b, n), m[x := HeapHead(m[x], n)], NFRAMES);
    assert MakeDir(s4, p, f, Owner(b, n)) == InitHeap(MakeDir(SetPrivate(s2, b), p, f, Owner(b, n)), b, n) by {
      HeapCommutes(s2, p, b, n, f);
    }
  }

  lemma HeapCommutes(s: State, p: int, b: int, n: int, f: int)
    requires IsPid(p) && 0 <= b < MAX_NUM_BS && 1 <= n <= MAX_BS_PAGES && IsFrame(f) && s.phys[SlotPage(Slot(b, 0))].Data?
    ensures
      MakeDir(SetPrivate(InitHeap(s, b, n), b), p, f, Owner(b, n)) == InitHeap(MakeDir(SetPrivate(s, b), p, f, Owner(b, n)), b, n)
  {
    hide HeapHead, NewDir;
    var l := MakeDir(SetPrivate(InitHeap(s, b, n), b), p, f, Owner(b, n));
    var r := InitHeap(MakeDir(SetPrivate(s, b), p, f, Owner(b, n)), b, n);
    assert l.phys == r.phys;
  }
}
