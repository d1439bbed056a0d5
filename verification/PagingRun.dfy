/** Whole runs of the paging system: whatever happens, a read returns the last byte
    written to its place in its store. */
module PagingRun {
  import opened Machine
  import opened BackingStore
  import opened Frames
  import opened PagingInv
  import opened Tweak
  import opened FreeFrame
  import opened Replacement
  import opened GetFrame
  import opened PageFault
  import opened FaultStep
  import opened Switch
  import opened Access
  import opened Lifecycle
  import opened Death
  import opened Birth
  import opened HeapBirth

  /** What can happen. Exit is a kill of the running process, by itself or by an illegal
      fault, after which another process runs. */
  datatype Step =
    | Reads(v: int, off: int)
    | Writes(v: int, off: int, b: Byte)
    | Faults(v: int)
    | Maps(v: int, store: int, n: int)
    | Unmaps(v: int)
    | Switches(next: int)
    | Kills(p: int)
    | Exits(next: int)
    | Creates(p: int)
    | Vcreates(p: int, n: int)
    | SetsPolicy(policy: Policy)

  ghost predicate Sound(s: State) { Valid(s) && NoOrphans(s) && Live(s, 0) }

  /** `srpolicy` with one of its two legal arguments. */
  function SetPolicy(s: State, p: Policy): State {
    if p == SC then s.(policy := SC, hand := -1) else s.(policy := AGING)
  }

  predicate CanTouch(s: State, v: int, off: int) {
    Live(s, s.cur) && MIN_VPNO <= v && Resident(s, s.cur, v) && 0 <= off < NBPG
  }

  /** Step st leads from s to s2. The conditions besides the hardware's are those the code
      leaves to its callers. */
  ghost predicate Next(s: State, st: Step, s2: State)
    requires Sound(s)
  {
    match st
    case Reads(v, off) => CanTouch(s, v, off) && Backed(s, v) && s2 == Read(s, v, off).0
    case Writes(v, off, b) => CanTouch(s, v, off) && Backed(s, v) && s2 == Write(s, v, off, b)
    case Faults(v) =>
      Legal(s, v) && !Resident(s, s.cur, v) && FaultSafe(s, v) && PageIn(s, v) == Some(s2)
    case Maps(v, b, n) => Live(s, s.cur) && XmmapAllowed(s, v, b, n) && Xmmap(s, v, b, n) == Some(s2)
    case Unmaps(v) => Live(s, s.cur) && Xmunmap(s, v) == Some(s2)
    case Switches(next) => Live(s, next) && s2 == SwitchTo(s, next)
    case Kills(p) => 0 < p && Live(s, p) && p != s.cur && s2 == Kill(s, p)
    case Exits(next) =>
      0 < s.cur && Live(s, s.cur) && Live(Kill(s, s.cur), next) && s2 == SwitchTo(Kill(s, s.cur), next)
    case Creates(p) => IsPid(p) && !Live(s, p) && Create(s, p) == Some(s2) && Fit(s)
    case Vcreates(p, n) =>
      Spawnable(s, p) && Vcreate(s, p, n) == Some((s2, true)) && Fit(Mapped(s, p, FirstClosed(s.bsm, 0), n))
    case SetsPolicy(p) => s2 == SetPolicy(s, p)
  }

  /** The frame get_frm will hand out reads as an empty directory. */
  ghost predicate Fit(s: State) {
    && PagesOk(s) && QueueNodes(s) && AgesOk(s) && GetFrm(s).Some? && IsFrame(GetFrm(s).value.1)
    && StaleClear(GetFrm(s).value.0.phys[FRAME0 + GetFrm(s).value.1])
  }

  /** The byte a read step returns. */
  ghost function Result(s: State, st: Step): Byte
    requires Sound(s) && st.Reads? && CanTouch(s, st.v, st.off) && Backed(s, st.v)
  {
    Read(s, st.v, st.off).1
  }

  /** The slot of the page the running process touches. */
  ghost function TouchSlot(s: State, v: int): int {
    if WellMapped(s.bsm, s.cur, v) then SlotOf(s.bsm, s.cur, v) else 0
  }

  /** The same step on the flat memory: only a write and the birth of a heap change it. */
  ghost function Abstract(s: State, st: Step, m: Flat): Flat {
    match st
    case Writes(v, off, b) =>
      if 0 <= TouchSlot(s, v) < NSLOTS && 0 <= off < NBPG then Updated(m, TouchSlot(s, v), off, b) else m
    case Vcreates(p, n) =>
      var x := Slot(FirstClosed(s.bsm, 0), 0);
      if 0 <= x < NSLOTS && 1 <= n <= MAX_BS_PAGES then m[x := HeapHead(m[x], n)] else m
    case _ => m
  }

  // ------------------------------------------------------------------ one step at a time

  lemma OrphansKept(s: State, s2: State)
    requires NoOrphans(s) && s2.bsm == s.bsm && s2.proc == s.proc
    ensures NoOrphans(s2)
  {
  }

  lemma ReadStep(s: State, st: Step, s2: State, m: Flat)
    requires st.Reads? && Sound(s) && Next(s, st, s2) && Represents(s, m, NFRAMES)
    ensures Sound(s2) && Represents(s2, m, NFRAMES)
    ensures 0 <= TouchSlot(s, st.v) < NSLOTS && Result(s, st) == m[TouchSlot(s, st.v)][st.off]
  {
    hide Inv, Represents, NoOrphans;
    ReadIsTransparent(s, st.v, st.off, m);
    OrphansKept(s, s2);
  }

  lemma WriteStep(s: State, st: Step, s2: State, m: Flat)
    requires st.Writes? && Sound(s) && Next(s, st, s2) && Represents(s, m, NFRAMES)
    ensures Sound(s2) && Represents(s2, Abstract(s, st, m), NFRAMES)
    ensures 0 <= TouchSlot(s, st.v) < NSLOTS
  {
    hide Inv, Represents, NoOrphans;
    WriteIsTransparent(s, st.v, st.off, st.b, m);
    OrphansKept(s, s2);
  }

  lemma FaultStepKeeps(s: State, st: Step, s2: State, m: Flat)
    requires st.Faults? && Sound(s) && Next(s, st, s2) && Represents(s, m, NFRAMES)
    ensures Sound(s2) && Represents(s2, m, NFRAMES)
  {
    hide Inv, Represents, NoOrphans, PageIn, PagesOk, PtesOk, PdesOk, PdesDistinct, NotCached, FaultSafe;
    InvParts(s, -1, -1);
    NotResident(s, st.v);
    FaultKeepsInv(s, st.v);
    FaultKeepsMemory(s, st.v, m);
    FaultShape(s, st.v);
    OrphansKept(s, s2);
  }

  /** A fault changes neither the map nor the process table. */
  lemma FaultShape(s: State, v: int)
    requires Valid(s) && Legal(s, v) && PageIn(s, v).Some?
    ensures PageIn(s, v).value.bsm == s.bsm && PageIn(s, v).value.proc == s.proc
  {
    hide Inv;
    TableForReady(s, v);
    var (s1, t) := TableFor(s, v).value;
    GetFrmReady(s1, t, -1);
    GetFrmGrants(s1);
  }

  lemma MapStep(s: State, st: Step, s2: State, m: Flat)
    requires st.Maps? && Sound(s) && Next(s, st, s2) && Represents(s, m, NFRAMES)
    ensures Sound(s2) && Represents(s2, m, NFRAMES)
  {
    hide Inv, Represents, PagesOk, MapOk, MapAllowed, Remapped, NoOrphans;
    InvParts(s, -1, -1);
    XmmapKeepsInv(s, st.v, st.store, st.n);
    XmmapRemaps(s, st.v, st.store, st.n);
    RemappedMemory(s, s2, m);
    MapOrphans(s, st.v, st.store, st.n);
  }

  lemma MapOrphans(s: State, v: int, b: int, n: int)
    requires MapOk(s.bsm) && NoOrphans(s) && Live(s, s.cur) && Xmmap(s, v, b, n).Some?
    ensures NoOrphans(Xmmap(s, v, b, n).value)
  {
    var s2 := Xmmap(s, v, b, n).value;
    assert StoreOk(s.bsm[b]);
    forall c, k | IsMap(s2.bsm, c, k)
      ensures Live(s2, s2.bsm[c].maps[k].pid)
    {
      assert (c == b && k == |s.bsm[b].maps|) || IsMap(s.bsm, c, k);
    }
  }

  lemma UnmapStep(s: State, st: Step, s2: State, m: Flat)
    requires st.Unmaps? && Sound(s) && Next(s, st, s2) && Represents(s, m, NFRAMES)
    ensures Sound(s2) && Represents(s2, m, NFRAMES)
  {
    hide Inv, Represents, NoOrphans, MapOk, OwnersOk, FreePages;
    XmunmapKeeps(s, st.v, m);
    InvParts(s, -1, -1);
    UnmapOrphans(s, st.v);
  }

  lemma UnmapOrphans(s: State, v: int)
    requires MapOk(s.bsm) && OwnersOk(s) && NoOrphans(s) && Live(s, s.cur) && Xmunmap(s, v).Some?
    ensures NoOrphans(Xmunmap(s, v).value)
  {
    var s2 := Xmunmap(s, v).value;
    var h := Lookup(s.bsm, s.cur, v).value;
    assert s2.bsm == Unmap(s.bsm, h);
    forall c, k | IsMap(s2.bsm, c, k)
      ensures Live(s2, s2.bsm[c].maps[k].pid)
    {
      DropOwners(s, h, c, k);
      assert IsMap(s.bsm, c, Before(h, c, k));
    }
  }

  lemma SwitchStep(s: State, next: int, m: Flat)
    requires Valid(s) && NoOrphans(s) && IsPid(next) && Live(s, 0) && Represents(s, m, NFRAMES)
    ensures Sound(SwitchTo(s, next)) && Represents(SwitchTo(s, next), m, NFRAMES)
    ensures SwitchTo(s, next).cur == next
  {
    hide Inv, Represents, NoOrphans;
    InvParts(s, -1, -1);
    SwitchKeepsInv(s, next);
    SwitchKeepsMemory(s, next, m);
    SwitchShape(s, next);
    OrphansKept(s, SwitchTo(s, next));
  }

  lemma SwitchShape(s: State, next: int)
    requires Valid(s) && IsPid(next)
    ensures SwitchTo(s, next) == s.(phys := SwitchTo(s, next).phys, cur := next)
  {
    hide Inv;
    InvParts(s, -1, -1);
    LeaveFlushes(s);
    ChangeCur(Leave(s), next);
    LoadInv(Leave(s).(cur := next), next, NFRAMES);
  }

  lemma KillStep(s: State, p: int, m: Flat)
    requires Sound(s) && 0 < p && Live(s, p) && Represents(s, m, NFRAMES)
    ensures Sound(Kill(s, p)) && Represents(Kill(s, p), m, NFRAMES)
  {
    hide Inv, Represents, NoOrphans, Kill, FreePages, Shrunk, NoMapping, NoPages, Released;
    KillKeepsInv(s, p);
    KillKeepsMemory(s, p, m);
    KillRetires(s, p);
    assert FreePages(s, p, 0, NVPAGES, NFRAMES).proc == s.proc;
    assert Kill(s, p).proc[0] == s.proc[0];
  }

  lemma CreateStep(s: State, st: Step, s2: State, m: Flat)
    requires st.Creates? && Sound(s) && Next(s, st, s2) && Represents(s, m, NFRAMES)
    ensures Sound(s2) && Represents(s2, m, NFRAMES)
  {
    hide Inv, Represents, NoOrphans, Create, StaleClear, GetFrm;
    GetFrmReady(s, -1, -1);
    CreateKeepsInv(s, st.p);
    CreateKeepsMemory(s, st.p, m);
    CreateOrphans(s, st.p);
  }

  lemma CreateOrphans(s: State, p: int)
    requires PagesOk(s) && QueueNodes(s) && AgesOk(s) && FramesOk(s) && NoOrphans(s) && IsPid(p) && Create(s, p).Some? && Live(s, 0) && !Live(s, p)
    ensures NoOrphans(Create(s, p).value) && Live(Create(s, p).value, 0)
  {
    CreateCases(s, p);
  }

  lemma VcreateStep(s: State, st: Step, s2: State, m: Flat)
    requires st.Vcreates? && Sound(s) && Next(s, st, s2) && Represents(s, m, NFRAMES)
    ensures Sound(s2) && Represents(s2, Abstract(s, st, m), NFRAMES)
  {
    hide Inv, Represents, NoOrphans, Vcreate, StaleClear, GetFrm, HeapHead, OneOwner, Remapped, MakeDir, InitHeap;
    VcreateKeepsInv(s, st.p, st.n);
    VcreateMemory(s, st.p, st.n, m);
    VcreateOrphans(s, st.p, st.n);
  }

  lemma VcreateOrphans(s: State, p: int, n: int)
    requires Spawnable(s, p) && Vcreate(s, p, n).Some? && Vcreate(s, p, n).value.1
    ensures NoOrphans(Vcreate(s, p, n).value.0) && Live(Vcreate(s, p, n).value.0, 0)
  {
    hide Inv, Vcreate, Remapped, StaleClear, HeapHead, NewDir;
    Prepared(s, p, n);
    var b := FirstClosed(s.bsm, 0);
    GetFrmReady(Mapped(s, p, b, n), -1, -1);
    GetFrmGrants(Mapped(s, p, b, n));
    var s2 := Vcreate(s, p, n).value.0;
    forall c, k | IsMap(s2.bsm, c, k)
      ensures Live(s2, s2.bsm[c].maps[k].pid)
    {
      assert s2.bsm[c].maps[k].pid == p || IsMap(s.bsm, c, k);
    }
  }

  lemma PolicyStep(s: State, p: Policy, m: Flat)
    requires Sound(s) && Represents(s, m, NFRAMES)
    ensures Sound(SetPolicy(s, p)) && Represents(SetPolicy(s, p), m, NFRAMES)
  {
    var s2 := SetPolicy(s, p);
    SameTreeOk(s, s2, -1);
    SameTreeOwners(s, s2);
    SameTreeClean(s, s2);
    SameTreeMemory(s, s2, m, NFRAMES);
  }

  /** Every step keeps the system sound and does to the flat memory exactly what its
      abstract counterpart does. */
  lemma StepRefines(s: State, st: Step, s2: State, m: Flat)
    requires Sound(s) && Next(s, st, s2) && Represents(s, m, NFRAMES)
    ensures Sound(s2) && Represents(s2, Abstract(s, st, m), NFRAMES)
  {
    hide Sound, Represents, Kill, SwitchTo, SetPolicy;
    match st
    case Reads(v, off) => ReadStep(s, st, s2, m);
    case Writes(v, off, b) => WriteStep(s, st, s2, m);
    case Faults(v) => FaultStepKeeps(s, st, s2, m);
    case Maps(v, b, n) => MapStep(s, st, s2, m);
    case Unmaps(v) => UnmapStep(s, st, s2, m);
    case Switches(next) => SoundParts(s); SwitchStep(s, next, m);
    case Kills(p) => KillStep(s, p, m);
    case Exits(next) => KillStep(s, s.cur, m); SoundParts(Kill(s, s.cur)); SwitchStep(Kill(s, s.cur), next, m);
    case Creates(p) => CreateStep(s, st, s2, m);
    case Vcreates(p, n) => VcreateStep(s, st, s2, m);
    case SetsPolicy(p) => PolicyStep(s, p, m);
  }

  lemma SoundParts(s: State)
    requires Sound(s)
    ensures Valid(s) && NoOrphans(s) && Live(s, 0)
  {
  }

  // ------------------------------------------------------------------------ whole runs

  /** States and steps alternate, from a sound first state. */
  ghost predicate IsRun(ss: seq<State>, sts: seq<Step>) {
    && |ss| == |sts| + 1 && Sound(ss[0])
    && forall k {:trigger sts[k]} :: 0 <= k < |sts| && Sound(ss[k]) ==> Next(ss[k], sts[k], ss[k + 1])
  }

  /** The flat memory after the first k steps. */
  ghost function MemoryAfter(ss: seq<State>, sts: seq<Step>, m: Flat, k: nat): Flat
    requires k <= |sts| < |ss|
  {
    if k == 0 then m else Abstract(ss[k - 1], sts[k - 1], MemoryAfter(ss, sts, m, k - 1))
  }

  /** Every state of a run is sound and represents the flat memory of its steps so far. */
  lemma {:induction false} RunRefines(ss: seq<State>, sts: seq<Step>, m: Flat, k: nat)
    requires IsRun(ss, sts) && Represents(ss[0], m, NFRAMES) && k <= |sts|
    ensures Sound(ss[k]) && Represents(ss[k], MemoryAfter(ss, sts, m, k), NFRAMES)
  {
    hide Sound, Represents, Next;
    if k > 0 {
      RunRefines(ss, sts, m, k - 1);
      assert Next(ss[k - 1], sts[k - 1], ss[k]);
      StepRefines(ss[k - 1], sts[k - 1], ss[k], MemoryAfter(ss, sts, m, k - 1));
    }
  }

  /** The byte that step st stores at offset off of slot n, if it stores one there. */
  ghost function Stored(s: State, st: Step, n: int, off: int): Option<Byte> {
    match st
    case Writes(v, o, b) => if TouchSlot(s, v) == n && o == off then Some(b) else None
    case Vcreates(p, size) =>
      if Slot(FirstClosed(s.bsm, 0), 0) == n && 0 <= off < 8 && 1 <= size <= MAX_BS_PAGES
      then Some(([0, 0, 0, 0] + Le32(size * NBPG))[off]) else None
    case _ => None
  }

  /** The byte last stored at offset off of slot n in the first k steps, by whichever
      process; the initial byte if none was. */
  ghost function LastStored(ss: seq<State>, sts: seq<Step>, m: Flat, k: nat, n: int, off: int): Byte
    requires k <= |sts| < |ss| && 0 <= n < NSLOTS && 0 <= off < NBPG
  {
    if k == 0 then m[n][off]
    else
      match Stored(ss[k - 1], sts[k - 1], n, off)
      case Some(b) => b
      case None => LastStored(ss, sts, m, k - 1, n, off)
  }

  lemma AbstractStores(s: State, st: Step, s2: State, m: Flat, n: int, off: int)
    requires Sound(s) && Next(s, st, s2) && Represents(s, m, NFRAMES) && 0 <= n < NSLOTS && 0 <= off < NBPG
    ensures Abstract(s, st, m)[n][off] == match Stored(s, st, n, off) case Some(b) => b case None => m[n][off]
  {
    hide Sound, Represents, Vcreate;
    if st.Writes? {
      WriteStep(s, st, s2, m);
    }
  }

  lemma {:induction false} MemoryIsLastStored(ss: seq<State>, sts: seq<Step>, m: Flat, k: nat, n: int, off: int)
    requires IsRun(ss, sts) && Represents(ss[0], m, NFRAMES) && k <= |sts| && 0 <= n < NSLOTS && 0 <= off < NBPG
    ensures MemoryAfter(ss, sts, m, k)[n][off] == LastStored(ss, sts, m, k, n, off)
  {
    hide Sound, Represents, Next;
    if k > 0 {
      RunRefines(ss, sts, m, k - 1);
      assert Next(ss[k - 1], sts[k - 1], ss[k]);
      AbstractStores(ss[k - 1], sts[k - 1], ss[k], MemoryAfter(ss, sts, m, k - 1), n, off);
      MemoryIsLastStored(ss, sts, m, k - 1, n, off);
    }
  }

  /** Paging is transparent: over every run of reads, writes, faults with their evictions,
      maps, unmaps, switches, kills, exits and births, a read by the running process returns
      the byte last written to that place of that store by any process. */
  lemma PagingIsTransparent(ss: seq<State>, sts: seq<Step>, m: Flat, k: nat)
    requires IsRun(ss, sts) && Represents(ss[0], m, NFRAMES) && k < |sts| && sts[k].Reads?
    ensures Sound(ss[k]) && Next(ss[k], sts[k], ss[k + 1])
    ensures 0 <= TouchSlot(ss[k], sts[k].v) < NSLOTS
    ensures Result(ss[k], sts[k]) == LastStored(ss, sts, m, k, TouchSlot(ss[k], sts[k].v), sts[k].off)
  {
    hide Sound, Represents;
    RunRefines(ss, sts, m, k);
    ReadStep(ss[k], sts[k], ss[k + 1], MemoryAfter(ss, sts, m, k));
    MemoryIsLastStored(ss, sts, m, k, TouchSlot(ss[k], sts[k].v), sts[k].off);
  }

  // --------------------------------------------------------- what every state satisfies

  /** Coherence: a dirty page belongs to the running process or to the owner of a private
      store; no two frames hold unsaved changes to one store page; and every resident page
      of the running process equals the flat memory. */
  lemma Coherence(s: State, m: Flat, i: int, j: int)
    requires Valid(s) && Represents(s, m, NFRAMES) && PageFrame(s, i) && PageFrame(s, j)
    ensures Linked(s, i) && Linked(s, j) && 0 <= Loc(s, i) < NSLOTS
    ensures Dirty(s, i) ==> s.frm[i].pid == s.cur || s.proc[s.frm[i].pid].store != PUBLIC
    ensures Dirty(s, i) && Dirty(s, j) && Loc(s, i) == Loc(s, j) ==> i == j
    ensures s.frm[i].pid == s.cur ==> s.phys[FRAME0 + i] == Data(m[Loc(s, i)])
  {
    InvParts(s, -1, -1);
    assert PageOk(s, i) && PageOk(s, j);
    if Dirty(s, i) && Dirty(s, j) && Loc(s, i) == Loc(s, j) {
      SameSlot(s, i, j, NFRAMES);
    }
    if s.frm[i].pid == s.cur {
      assert Fresh(s, i, NFRAMES);
    }
  }

  /** The memory a state represents is unique. */
  lemma RepresentsOne(s: State, m: Flat, m2: Flat)
    requires Valid(s) && Represents(s, m, NFRAMES) && Represents(s, m2, NFRAMES)
    ensures m == m2
  {
    forall n | 0 <= n < NSLOTS
      ensures m[n] == m2[n]
    {
      if DirtyAt(s, n) {
        var i :| IsFrame(i) && Dirty(s, i) && Loc(s, i) == n;
        assert Fresh(s, i, NFRAMES);
      }
    }
  }

  /** A present entry of a table leads to a page that leads to the table. */
  lemma TableNamed(s: State, t: int, k: int)
    requires TblFrame(s, t) && IsTable(s, t) && 0 <= k < NENTRIES && PteAt(s, t, k).pres && PtesOk(s) && PagesOk(s)
    ensures
      var i := PteAt(s, t, k).base - FRAME0;
      PageFrame(s, i) && MIN_VPNO <= s.frm[i].vpno < NVPAGES && HasDir(s, s.frm[t].pid)
      && PdeAt(s, s.frm[t].pid, Pdi(s.frm[i].vpno)) == Pde(true, FRAME0 + t)
  {
    assert PteBacked(s, t, k);
    assert PageOk(s, PteAt(s, t, k).base - FRAME0);
  }

  /** Reference counting: a table that is not global counts its present entries, has at
      least one, and is named by a present entry of its process's directory. */
  lemma TableCounts(s: State, t: int)
    requires Valid(s) && TblFrame(s, t)
    ensures IsTable(s, t) && s.frm[t].refcnt == Count(s.phys[FRAME0 + t].pt) && s.frm[t].refcnt > 0
    ensures exists d :: 4 <= d < NENTRIES && HasDir(s, s.frm[t].pid) && PdeAt(s, s.frm[t].pid, d) == Pde(true, FRAME0 + t)
  {
    hide Inv, PtesOk, PagesOk, Count;
    InvParts(s, -1, -1);
    assert TableOk(s, t, -1);
    CountZero(s.phys[FRAME0 + t].pt);
    var k :| 0 <= k < NENTRIES && s.phys[FRAME0 + t].pt[k].pres;
    TableNamed(s, t, k);
    assert 4 <= Pdi(s.frm[PteAt(s, t, k).base - FRAME0].vpno) < NENTRIES;
  }

  /** Present entries and page frames are in bijection: the entry of a page frame names the
      frame, and the frame of a present entry has that entry as its own. */
  lemma FrameHasEntry(s: State, i: int)
    requires Valid(s) && PageFrame(s, i)
    ensures Linked(s, i) && TblFrame(s, TableOf(s, i)) && EntryOf(s, i).pres && EntryOf(s, i).base == FRAME0 + i
  {
    hide DirsOk, DirFramesOk, PdesOk, PdesDistinct, TablesOk, PtesOk, FramesOk, QueueOk, MapOk, OwnersOk, CleanOk;
    assert PageOk(s, i);
  }

  lemma EntryHasFrame(s: State, t: int, k: int)
    requires Valid(s) && TblFrame(s, t) && IsTable(s, t) && 0 <= k < NENTRIES && PteAt(s, t, k).pres
    ensures
      var j := PteAt(s, t, k).base - FRAME0;
      PageFrame(s, j) && Linked(s, j) && TableOf(s, j) == t && Pti(s.frm[j].vpno) == k && s.frm[j].pid == s.frm[t].pid
  {
    hide DirsOk, DirFramesOk, PdesOk, PdesDistinct, TablesOk, FramesOk, QueueOk, MapOk, OwnersOk, CleanOk;
    assert PteBacked(s, t, k);
    assert PageOk(s, PteAt(s, t, k).base - FRAME0);
  }
}
