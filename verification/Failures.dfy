/** Runs from boot that end in a state that is not valid: for each condition that the code
    leaves unchecked, a case in which it does not hold. */
module Failures {
  import opened Machine
  import opened BackingStore
  import opened Frames
  import opened PagingInv
  import opened Replacement
  import opened GetFrame
  import opened Lifecycle
  import opened Death
  import opened Birth
  import opened HeapBirth
  import opened PagingRun
  import opened Boot

  function ZeroMemory(): Memory { seq(NPAGES, _ => Data(ZeroPage())) }

  /** Zeros, but for an odd fifth word: read as a directory, a present entry. */
  function OddPage(): Page { ZeroPage()[16 := 1] }

  function OddMemory(n: int): Memory
    requires 0 <= n < NPAGES
  {
    ZeroMemory()[n := Data(OddPage())]
  }

  lemma ZeroIsClear()
    ensures StaleClear(Data(ZeroPage()))
  {
  }

  lemma OddIsStale()
    ensures !StaleClear(Data(OddPage()))
  {
    assert Word(OddPage(), 4) == 1;
    assert AsDir(Data(OddPage()))[4].pres;
  }

  /** The null process's directory lands in the fifth frame. */
  lemma BootFails(policy: Policy)
    ensures !Sound(BootState(OddMemory(FRAME0 + 4), policy))
  {
    hide Sound, BootState, StaleClear, OddPage, ZeroPage;
    OddIsStale();
    BootIsSound(OddMemory(FRAME0 + 4), policy);
  }

  lemma BootWorks(mem: Memory, policy: Policy)
    requires Raw(mem) && mem[FRAME0 + 4] == Data(ZeroPage())
    ensures
      var s := BootState(mem, policy);
      && Sound(s) && s.cur == 0 && s.bsm == ClosedStores() && (forall p :: 0 < p < NPROC ==> !Live(s, p))
      && s.proc[0].store == NO_STORE
      && FirstFree(s.frm, 0) == 5 && s.frm[5] == BLANK && (forall i :: IsFrame(i) ==> !PageFrame(s, i))
      && (forall n :: FRAME0 + 5 <= n < NPAGES ==> s.phys[n] == mem[n])
  {
    hide Sound, StaleClear, AsDir, GlobalTable, NewDir;
    ZeroIsClear();
    BootIsSound(mem, policy);
    BootShape(mem, policy);
    var s := BootState(mem, policy);
    forall i | 0 <= i <= 5
      ensures s.frm[i].mapped <==> i < 5
    {
      assert s.frm[i] == BootFrame(i);
    }
    forall i | IsFrame(i)
      ensures !PageFrame(s, i)
    {
      assert s.frm[i] == BootFrame(i);
    }
  }

  /** The directory of the first process made lands in the sixth. */
  lemma CreateFails(policy: Policy)
    ensures
      var s := BootState(OddMemory(FRAME0 + 5), policy);
      && Sound(s) && PagesOk(s) && QueueNodes(s) && AgesOk(s) && FramesOk(s) && !Live(s, 1)
      && Create(s, 1).Some? && !Valid(Create(s, 1).value)
  {
    hide Inv, BootState, StaleClear, OddPage, ZeroPage, PagesOk, QueueNodes, AgesOk, FramesOk;
    BootWorks(OddMemory(FRAME0 + 5), policy);
    var s := BootState(OddMemory(FRAME0 + 5), policy);
    GetFrmReady(s, -1, -1);
    OddIsStale();
    CreateKeepsInv(s, 1);
  }

  /** A second xmmap whose range meets the first. */
  lemma XmmapFails(policy: Policy)
    ensures
      var s := BootState(ZeroMemory(), policy);
      && Sound(s) && IsPid(s.cur) && Xmmap(s, 4096, 0, 10).Some?
      && var s1 := Xmmap(s, 4096, 0, 10).value;
      && Valid(s1) && s1.cur == s.cur && Xmmap(s1, 4100, 1, 10).Some? && !Valid(Xmmap(s1, 4100, 1, 10).value)
  {
    hide Inv, BootState, ZeroPage;
    BootWorks(ZeroMemory(), policy);
    var s := BootState(ZeroMemory(), policy);
    XmmapKeepsInv(s, 4096, 0, 10);
    var s1 := Xmmap(s, 4096, 0, 10).value;
    assert IsMap(s1.bsm, 0, 0) && s1.bsm[0].maps[0] == Mapping(0, 4096, 10);
    XmmapKeepsInv(s1, 4100, 1, 10);
  }

  /** A Second-Chance search before srpolicy has been called. */
  lemma UnsetHandFails(s: State)
    requires s.hand == -2 && PagesOk(s) && QueueNodes(s)
    ensures SearchSC(s) == None
  {
    SecondChanceDefined(s);
  }

  /** What vcreate leaves when it takes store 0 and the sixth frame. */
  lemma FirstSpawn(s: State, p: int)
    requires Spawnable(s, p) && !s.bsm[0].mapped && FirstFree(s.frm, 0) == 5 && s.frm[5] == BLANK && StaleClear(s.phys[FRAME0 + 5])
    ensures Vcreate(s, p, 1).Some? && Vcreate(s, p, 1).value.1
    ensures
      var s2 := Vcreate(s, p, 1).value.0;
      && Valid(s2) && NoOrphans(s2) && Live(s2, 0) && s2.bsm[0] == Store(true, 1, true, [Mapping(p, MIN_VPNO, 1)])
      && s2.proc == s.proc[p := Proc(true, FRAME0 + 5, 0, MIN_VPNO, 1)]
      && s2.frm == s.frm[5 := MarkDir(BLANK, p)] && s2.phys[FRAME0 + 5] == Dir(NewDir(s.phys[FRAME0 + 5]))
  {
    hide Inv, NoOrphans, StaleClear, NewDir, HeapHead, PagesOk, QueueNodes, AgesOk;
    assert FirstClosed(s.bsm, 0) == 0;
    MappedInv(s, p, 0, 1);
    GetFrmReady(Mapped(s, p, 0, 1), -1, -1);
    VcreateKeepsInv(s, p, 1);
    VcreateOrphans(s, p, 1);
  }

  /** kill leaves the number of a private store in the slot it frees. */
  lemma KillKeepsField(s: State, p: int)
    requires IsPid(p) && 0 <= s.proc[p].store < MAX_NUM_BS
    ensures Kill(s, p).proc[p].store == s.proc[p].store
  {
    hide FreePages, FreeDir, BsmUnmap;
  }

  /** The last process that was vcreated is killed again: store and frame are free. */
  lemma FirstKill(s: State, p: int)
    requires Valid(s) && NoOrphans(s) && Live(s, 0) && 0 < p && Live(s, p) && NoPages(s, p)
    requires s.proc[p] == Proc(true, FRAME0 + 5, 0, MIN_VPNO, 1) && forall i :: 0 <= i < 5 ==> s.frm[i].mapped
    requires s.bsm[0].maps == [Mapping(p, MIN_VPNO, 1)]
    ensures
      var s2 := Kill(s, p);
      && Valid(s2) && NoOrphans(s2) && Live(s2, 0) && !Live(s2, p) && s2.proc[p].store == 0 && s2.phys == s.phys
      && !s2.bsm[0].mapped && FirstFree(s2.frm, 0) == 5 && s2.frm[5] == BLANK
      && forall q :: IsPid(q) && q != p ==> s2.proc[q] == s.proc[q]
  {
    hide Inv, NoOrphans, Kill, FreePages, PagesOk;
    KillKeepsInv(s, p);
    KillRetires(s, p);
    KillKeepsField(s, p);
    FreePagesNone(s, p, 0, NVPAGES, NFRAMES);
    var s2 := Kill(s, p);
    assert s2.frm[5] == BLANK;
    StoreGone(s, s2, p);
  }

  lemma StoreGone(s: State, s2: State, p: int)
    requires s.bsm[0].maps == [Mapping(p, MIN_VPNO, 1)] && MapOk(s2.bsm) && Shrunk(s.bsm, s2.bsm, p) && NoMapping(s2.bsm, p)
    ensures !s2.bsm[0].mapped
  {
    assert StoreOk(s2.bsm[0]);
    if IsMap(s2.bsm, 0, 0) { KeptOwner(s.bsm, s2.bsm, p); }
  }

  lemma KeptOwner(a: StoreMap, b: StoreMap, p: int)
    requires a[0].maps == [Mapping(p, MIN_VPNO, 1)] && Shrunk(a, b, p) && IsMap(b, 0, 0)
    ensures b[0].maps[0].pid == p
  {
    assert KeptFrom(a, b, 0, 0);
  }

  lemma NewDirClear(c: Content)
    requires StaleClear(c)
    ensures StaleClear(Dir(NewDir(c)))
  {
  }

  /** Process 1 gets a private store and is killed, process 2 gets the store, and process 1
      is killed again: kill reports an error and closes the store of process 2. */
  lemma KillFails(policy: Policy)
    ensures
      var s := BootState(ZeroMemory(), policy);
      && Sound(s) && Spawnable(s, 1) && Vcreate(s, 1, 1).Some?
      && var s1 := Vcreate(s, 1, 1).value.0;
      && Valid(s1) && IsPid(1) && Live(s1, 1)
      && var s2 := Kill(s1, 1);
      && Spawnable(s2, 2) && Vcreate(s2, 2, 1).Some?
      && var s3 := Vcreate(s2, 2, 1).value.0;
      && Valid(s3) && NoOrphans(s3) && Live(s3, 2) && !Live(s3, 1) && !Valid(Kill(s3, 1))
  {
    hide Inv, NoOrphans, BootState, StaleClear, Vcreate, Kill, NewDir;
    BootWorks(ZeroMemory(), policy);
    ZeroIsClear();
    var s := BootState(ZeroMemory(), policy);
    FirstSpawn(s, 1);
    var s1 := Vcreate(s, 1, 1).value.0;
    forall i | PageFrame(s1, i)
      ensures i == 5 || PageFrame(s, i)
    {
    }
    FirstKill(s1, 1);
    var s2 := Kill(s1, 1);
    NewDirClear(Data(ZeroPage()));
    assert s2.proc[2] == s1.proc[2] == s.proc[2] && !Live(s, 2);
    FirstSpawn(s2, 2);
    KillDeadPid(Vcreate(s2, 2, 1).value.0, 1);
  }
}
