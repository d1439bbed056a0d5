/** What the steps of the paging code do to the state, between the granularity of one
    statement and that of the functions on states. */
module KernelFacts {
  import opened Machine
  import opened BackingStore
  import opened Frames
  import opened PagingInv
  import opened Tweak
  import opened FreeFrame
  import opened Replacement
  import opened FrameQueue
  import opened GetFrame
  import opened PageFault
  import opened FaultStep
  import opened Switch
  import opened Lifecycle
  import opened Death
  import opened Birth
  import opened HeapBirth
  import opened Access
  import opened PagingRun
  import opened Boot

  /** Table t, named by entry d of the directory in page dir, with one reference less. */
  function Deref(s: State, t: int, dir: int, d: int): State
    requires IsFrame(t) && 0 <= dir < NPAGES && s.phys[dir].Dir? && 0 <= d < NENTRIES
  {
    var pd := s.phys[dir].pd;
    if s.frm[t].refcnt == 1 then
      s.(frm := s.frm[t := BLANK], queue := Without(s.queue, t), phys := s.phys[dir := Dir(pd[d := pd[d].(pres := false)])])
    else s.(frm := s.frm[t := s.frm[t].(refcnt := s.frm[t].refcnt - 1)])
  }

  /** Position in the queue of the k-th frame of the lap that starts at x. */
  function LapPos(n: int, x: int, k: int): int { if x + k < n then x + k else x + k - n }

  /** The hand plays no part in what a traversal sees and changes. */
  lemma HandPages(s: State, h: int, i: int)
    requires PagesOk(s) && IsFrame(i)
    ensures PagesOk(s.(hand := h)) && PageFrame(s.(hand := h), i) == PageFrame(s, i)
    ensures Accessed(s.(hand := h), i) == Accessed(s, i)
    ensures Accessed(s, i) ==> Linked(s, i) && Linked(s.(hand := h), i) && ClearAcc(s.(hand := h), i) == ClearAcc(s, i).(hand := h)
    ensures Accessed(s, i) ==> PageFrame(s, i) && PagesOk(ClearAcc(s, i)) && ClearAcc(s, i) == s.(phys := ClearAcc(s, i).phys)
  {
    var s2 := s.(hand := h);
    if Accessed(s, i) { ClearAccEffect(s, i); }
    forall j | PageFrame(s2, j)
      ensures PageOk(s2, j)
    {
      assert PageOk(s, j);
    }
  }

  lemma SweepStep(s: State, order: seq<int>, k: nat)
    requires PagesOk(s) && k < |order|
    ensures Sweep(s, order[k..]) ==
      if !PageFrame(s, order[k]) then (Sweep(s, order[k + 1..]).0, Sweep(s, order[k + 1..]).1 + 1)
      else if !Accessed(s, order[k]) then (s, 0)
      else
        (ClearAccEffect(s, order[k]);
         var r := Sweep(ClearAcc(s, order[k]), order[k + 1..]); (r.0, r.1 + 1))
  {
    assert order[k..][0] == order[k] && order[k..][1..] == order[k + 1..];
  }

  /** The first k frames of a lap from s have led to t. */
  ghost predicate Underway(s: State, t: State, order: seq<int>, k: nat) {
    && PagesOk(s) && PagesOk(t) && k <= |order| && t == s.(phys := t.phys)
    && Sweep(s, order) == (Sweep(t, order[k..]).0, Sweep(t, order[k..]).1 + k)
  }

  lemma LapAt(q: seq<int>, x: nat, k: nat)
    requires x < |q|
    ensures |Lap(q, x)| == |q| && (k < |q| ==> Lap(q, x)[k] == q[LapPos(|q|, x, k)])
  {
  }

  ghost predicate Allocated(s: State) { forall i :: i in s.queue ==> IsFrame(i) && s.frm[i].mapped }

  predicate Stops(s: State, i: int) { PageFrame(s, i) && !Accessed(s, i) }

  function Passed(s: State, i: int): State { if Accessed(s, i) then ClearAcc(s, i) else s }

  lemma LapStart(s: State, order: seq<int>)
    requires PagesOk(s)
    ensures Underway(s, s, order, 0)
  {
    assert order[0..] == order;
  }

  lemma LapStep(s: State, t: State, order: seq<int>, k: nat, h: int)
    requires Underway(s, t, order, k) && k < |order| && IsFrame(order[k])
    ensures PagesOk(t.(hand := h)) && Stops(t.(hand := h), order[k]) == Stops(t, order[k])
    ensures Passed(t.(hand := h), order[k]) == Passed(t, order[k]).(hand := h)
    ensures Passed(t, order[k]) == t.(phys := Passed(t, order[k]).phys)
    ensures if Stops(t, order[k]) then Sweep(s, order) == (t, k) && Passed(t, order[k]) == t
      else Underway(s, Passed(t, order[k]), order, k + 1)
  {
    hide PagesOk, Accessed, PageFrame, ClearAcc, Sweep;
    HandPages(t, h, order[k]);
    SweepStep(t, order, k);
  }

  lemma UnderwayShape(s: State, t: State, order: seq<int>, k: nat)
    requires Underway(s, t, order, k)
    ensures t == s.(phys := t.phys)
  {
  }

  lemma LapEnd(s: State, t: State, order: seq<int>)
    requires Underway(s, t, order, |order|)
    ensures Sweep(s, order) == (t, |order|)
  {
    assert order[|order|..] == [];
  }

  lemma LapShape(s: State, x: nat)
    requires PagesOk(s) && NoDup(s.queue) && x < |s.queue| && Allocated(s)
    ensures var r := Sweep(s, Lap(s.queue, x)); r.0 == s.(phys := r.0.phys) && r.1 <= |s.queue| == |Lap(s.queue, x)|
    ensures forall k :: 0 <= k < |s.queue| ==> Lap(s.queue, x)[k] == s.queue[LapPos(|s.queue|, x, k)]
  {
    LapMembers(s.queue, x);
    SweepClears(s, Lap(s.queue, x));
  }

  /** The outcome of the search in terms of positions in the queue. */
  lemma SearchFound(s: State, x: nat)
    requires PagesOk(s) && NoDup(s.queue) && NextPos(s) == Some(x) && Allocated(s)
    ensures
      var (s1, k) := Sweep(s, Lap(s.queue, x));
      var n := |s.queue|;
      var y := if k < n then LapPos(n, x, k) else FirstPage(s.frm, s.queue, x);
      0 <= y && SearchSC(s) == if y < n then Some((s1.(hand := NodeAt(s.queue, y - 1)), s.queue[y])) else None
  {
    hide PagesOk, Sweep, NoDup, Lap;
    LapShape(s, x);
    var (s1, k) := Sweep(s, Lap(s.queue, x));
    var n := |s.queue|;
    var y := if k < n then LapPos(n, x, k) else FirstPage(s.frm, s.queue, x);
    if y < n { IndexAt(s.queue, y); }
  }

  lemma NoNext(s: State)
    requires PagesOk(s) && (if s.hand == -1 then 0 else IndexOf(s.queue, s.hand) + 1) >= |s.queue|
    ensures SearchSC(s) == None
  {
  }

  lemma NextAt(s: State, x: nat)
    requires x == (if s.hand == -1 then 0 else IndexOf(s.queue, s.hand) + 1) < |s.queue|
    ensures NextPos(s) == Some(x)
  {
  }

  /** One frame of the first traversal of `get_frm_by_Aging`. */
  function AgeOne(s: State, i: int): State {
    if Linked(s, i) then s.(frm := s.frm[i := Aged(s, i)]) else s
  }

  lemma AgeAllPages(s: State, q: seq<int>)
    requires PagesOk(s) && AgesOk(s)
    ensures PagesOk(AgeAll(s, q)) && AgesOk(AgeAll(s, q))
  {
    AgeAllFrames(s, q);
    var t := AgeAll(s, q);
    forall i | PageFrame(t, i)
      ensures PageOk(t, i)
    {
      SameTreeLinks(s, t, i);
      assert PageOk(s, i);
    }
  }

  lemma AgeAllStep(s: State, k: nat)
    requires AgesOk(s) && NoDup(s.queue) && k < |s.queue| && IsFrame(s.queue[k])
    ensures var t := AgeAll(s, s.queue[..k]);
      t == s.(frm := t.frm) && t.frm[s.queue[k]].mapped == s.frm[s.queue[k]].mapped
      && AgeOne(t, s.queue[k]) == AgeAll(s, s.queue[..k + 1])
  {
    var c, t, t2 := s.queue[k], AgeAll(s, s.queue[..k]), AgeAll(s, s.queue[..k + 1]);
    assert c !in s.queue[..k];
    SameTreeLinks(s, t, c) by { AgeAllFrames(s, s.queue[..k]); }
    forall i | IsFrame(i)
      ensures AgeOne(t, c).frm[i] == t2.frm[i]
    {
      assert i in s.queue[..k + 1] <==> i in s.queue[..k] || i == c;
    }
    assert AgeOne(t, c).frm == t2.frm;
  }

  lemma {:induction false} MinAgeFrame(frm: FrameTable, frm2: FrameTable, q: seq<int>)
    requires forall j :: 0 <= j < |q| && IsFrame(q[j]) ==> frm[q[j]] == frm2[q[j]]
    ensures MinAge(frm, q) == MinAge(frm2, q)
  {
    if q != [] { MinAgeFrame(frm, frm2, q[..|q| - 1]); }
  }

  lemma MinAgeStep(s: State, k: nat)
    requires NoDup(s.queue) && k < |s.queue|
    ensures
      var m := MinAge(s.frm, s.queue[..k]);
      var i := s.queue[k];
      MinAge(AgeOne(s, i).frm, s.queue[..k + 1])
      == if IsPage(AgeOne(s, i).frm, i) && AgeOne(s, i).frm[i].age < m then AgeOne(s, i).frm[i].age else m
  {
    assert s.queue[..k + 1][..k] == s.queue[..k];
    MinAgeFrame(s.frm, AgeOne(s, s.queue[k]).frm, s.queue[..k]);
  }

  lemma AgeAllNone(s: State)
    ensures AgeAll(s, s.queue[..0]) == s && MinAge(s.frm, s.queue[..0]) == MAX_FRM_AGE
  {
    assert AgeAll(s, s.queue[..0]).frm == s.frm;
  }

  lemma AgeAllShape(s: State)
    requires AgesOk(s) && Allocated(s)
    ensures var t := AgeAll(s, s.queue); t.queue == s.queue && Allocated(t)
  {
    AgeAllFrames(s, s.queue);
  }

  /** Everything that get_frm needs at its steps, and its outcome case by case. */
  lemma GetFrmFacts(s: State, fill: int)
    requires Inv(s, fill, -1)
    ensures PagesOk(s) && QueueNodes(s) && AgesOk(s) && NoDup(s.queue) && Allocated(s)
    ensures var f := FirstFree(s.frm, 0);
      if f < NFRAMES then f !in s.queue && GetFrame.GetFrm(s) == Some((GetFrame.Enqueue(s, f), f))
      else match GetFrame.Search(s)
        case None => GetFrame.GetFrm(s) == None
        case Some((s1, v)) =>
          PageFrame(s1, v) && PageOk(s1, v) && v !in Frames.FreeFrm(s1, v).queue
          && GetFrame.GetFrm(s) == Some((GetFrame.Enqueue(Frames.FreeFrm(s1, v), v), v))
  {
    hide Inv, GetFrame.Search;
    InvParts(s, fill, -1);
    if GetFrame.Search(s).Some? {
      var (s1, v) := GetFrame.Search(s).value;
      SearchKeepsInv(s, fill, -1);
      SearchPicksPage(s);
      FreedGone(s1, v, fill);
    }
  }

  lemma FreedGone(s: State, v: int, fill: int)
    requires Inv(s, fill, -1) && PageFrame(s, v)
    ensures PageOk(s, v) && v !in Frames.FreeFrm(s, v).queue
  {
    hide Inv;
    InvParts(s, fill, -1);
    var t := TableOf(s, v);
    WithoutMembers(s.queue, t);
    WithoutMembers(if s.frm[t].refcnt == 1 then Without(s.queue, t) else s.queue, v);
  }

  /** Whatever page the loop that releases [lo, hi) of process p meets is linked. */
  ghost predicate Releasable(s: State, p: int, lo: int, hi: int) {
    forall n {:trigger FreePages(s, p, lo, hi, n)} :: 0 <= n < NFRAMES ==>
      var t := FreePages(s, p, lo, hi, n);
      PageOf(t, p, lo, hi, n) ==> PageOk(t, n)
  }

  lemma ReleasableIf(s: State, p: int, lo: int, hi: int)
    ensures PagingInv.Valid(s) || NoPages(s, p) ==> Releasable(s, p, lo, hi)
  {
    forall n | 0 <= n < NFRAMES
      ensures PagingInv.Valid(s) ==> PagesOk(FreePages(s, p, lo, hi, n))
      ensures NoPages(s, p) ==> FreePages(s, p, lo, hi, n) == s
    {
      hide Inv;
      if PagingInv.Valid(s) {
        FreePagesInv(s, p, lo, hi, n);
        InvParts(FreePages(s, p, lo, hi, n), -1, -1);
      }
      if NoPages(s, p) { FreePagesNone(s, p, lo, hi, n); }
    }
  }

  lemma PageLinked(s: State, i: int)
    requires PagesOk(s) && PageFrame(s, i)
    ensures PageOk(s, i) && Linked(s, i) && WellMapped(s.bsm, s.frm[i].pid, s.frm[i].vpno)
  {
  }

  lemma CurIsPid(s: State)
    requires PagingInv.Valid(s)
    ensures IsPid(s.cur)
  {
  }

  lemma UnmapKeepsNone(s: State, p: int, v: int, b: int)
    requires NoPages(s, p)
    ensures NoPages(UnmapThenFree(s, p, v, b), p) && NoPages(Lifecycle.BsmUnmap(s, p, v), p)
  {
    hide FreePages, Unmap, Lookup, MappingAt, Lifecycle.BsmUnmap;
    if Unmappable(s, p, v) {
      var mp := MappingAt(s, p, v);
      MappingIs(s, p, v);
      UnmapIs(s, p, v, mp);
      FreePagesNone(s, mp.pid, mp.vpno, mp.vpno + mp.npages, NFRAMES);
    } else {
      NotUnmapped(s, p, v);
    }
  }

  lemma NotUnmapped(s: State, p: int, v: int)
    requires !Unmappable(s, p, v)
    ensures Lifecycle.BsmUnmap(s, p, v) == s
  {
  }

  lemma NoPagesAfter(s: State, p: int)
    requires PagingInv.Valid(s) && IsPid(p)
    ensures NoPages(FreePages(s, p, 0, NVPAGES, NFRAMES), p)
  {
    hide Inv;
    FreePagesInv(s, p, 0, NVPAGES, NFRAMES);
    FreePagesReleased(s, p, 0, NVPAGES, NFRAMES);
    InvParts(FreePages(s, p, 0, NVPAGES, NFRAMES), -1, -1);
    NothingOf(s, FreePages(s, p, 0, NVPAGES, NFRAMES), p);
  }

  lemma NoPagesFreeDir(s: State, p: int)
    requires NoPages(s, p)
    ensures NoPages(FreeDir(s, p), p)
  {
  }

  /** How a page fault ends: the instruction restarts, the process is killed for an
      illegal address, or a victim search follows a null link. */
  datatype FaultEnd = Resumed | Killed | Astray

  /** The legality test of `pfint`, a store and a mapping that covers the page, is passed
      exactly by the pages a process may touch. */
  lemma FaultTest(s: State, v: int)
    requires PagingInv.Valid(s) && Live(s, s.cur) && 0 <= v < NVPAGES
    ensures Legal(s, v) <==> s.proc[s.cur].store != NO_STORE && Lookup(s.bsm, s.cur, v).Some?
  {
    hide Inv, Lookup, TreeOk;
    InvParts(s, -1, -1);
    if Lookup(s.bsm, s.cur, v).Some? {
      SlotBounds(s.bsm, s.cur, v);
      var h := Lookup(s.bsm, s.cur, v).value;
      LookupCovers(s.bsm, s.cur, v);
      assert OwnerOk(s, h.store, h.pos) && StoreOk(s.bsm[h.store]);
    }
  }

  /** Whatever get_frm evicts, a directory entry keeps the base it names. */
  lemma BaseKept(s: State, p: int, d: int)
    requires PagesOk(s) && DirsOk(s) && QueueNodes(s) && AgesOk(s) && GetFrame.GetFrm(s).Some?
    requires Live(s, p) && HasDir(s, p) && 0 <= d < NENTRIES
    ensures HasDir(GetFrame.GetFrm(s).value.0, p) && PdeAt(GetFrame.GetFrm(s).value.0, p, d).base == PdeAt(s, p, d).base
  {
    hide GetFrame.GetFrm, GetFrame.Search, Frames.FreeFrm;
    GetFrmCases(s);
    if FirstFree(s.frm, 0) == NFRAMES {
      var (s1, v) := GetFrame.Search(s).value;
      SearchKeepsDir(s, p, d);
      assert PageOk(s, v);
      assert DirOk(s, p) && DirOk(s, s.frm[v].pid);
      FreeFrmTable(s1, v, p, d);
    }
  }

  function NoFrames(): FrameTable { seq(NFRAMES, _ => BLANK) }

  /** Before any frame is taken. */
  function Blank(mem: Memory, p: Policy): State {
    State(NoFrames(), mem, ClosedStores(), BootProcs(), 0, [], NULL, p, FirstFrames(0))
  }

  function AddGlobal(s: State, i: int): State
    requires 0 <= i < 4
  {
    s.(frm := s.frm[i := BootFrame(i)], queue := s.queue + [i], phys := s.phys[FRAME0 + i := Table(GlobalTable(i))],
       hist := Stamped(s.hist, i))
  }

  function Globals(s: State, n: nat): State
    requires n <= 4
  {
    if n == 0 then s else AddGlobal(Globals(s, n - 1), n - 1)
  }

  lemma NextFrame(n: nat)
    requires n < NFRAMES
    ensures Stamped(FirstFrames(n), n) == FirstFrames(n + 1)
  {
    assert Stamped(FirstFrames(n), n).stamp == FirstFrames(n + 1).stamp;
  }

  lemma {:induction false} GlobalsFrames(mem: Memory, p: Policy, n: nat)
    requires n <= 4
    ensures var s := Globals(Blank(mem, p), n);
      && s == Blank(mem, p).(frm := s.frm, phys := s.phys, queue := s.queue, hist := FirstFrames(n))
      && s.queue == seq(n, k => k) && s.frm[n] == BLANK && FirstFree(s.frm, 0) == n && n !in s.queue
      && (forall k :: 0 <= k < NFRAMES ==> s.frm[k] == if k < n then BootFrame(k) else BLANK)
      && (forall k :: 0 <= k < NPAGES ==> s.phys[k] == if FRAME0 <= k < FRAME0 + n then Table(GlobalTable(k - FRAME0)) else mem[k])
  {
    if n > 0 {
      GlobalsFrames(mem, p, n - 1);
      NextFrame(n - 1);
    }
  }

  lemma GlobalsBoot(mem: Memory, p: Policy)
    ensures
      var s := GetFrame.Enqueue(Globals(Blank(mem, p), 4), 4);
      MakeDir(s, 0, 4, s.proc[0]) == BootState(mem, p)
  {
    hide GlobalTable, BootState, Globals, FirstFree, NewDir, FirstFrames;
    GlobalsFrames(mem, p, 4);
    BootShape(mem, p);
    BootFields(mem, p);
    NextFrame(4);
    var s := GetFrame.Enqueue(Globals(Blank(mem, p), 4), 4);
    var r := MakeDir(s, 0, 4, s.proc[0]);
    assert r.frm == BootState(mem, p).frm;
    assert r.phys == BootState(mem, p).phys;
    assert r.proc == BootState(mem, p).proc;
  }

  lemma BootFields(mem: Memory, p: Policy)
    ensures var s := BootState(mem, p);
      s.queue == [0, 1, 2, 3, 4] && s.cur == 0 && s.hand == NULL && s.policy == p && s.bsm == ClosedStores() && s.hist == FirstFrames(5)
  {
  }

  lemma FaultCur(s: State, v: int)
    requires PagingInv.Valid(s) && Legal(s, v) && FaultStep.PageIn(s, v).Some?
    ensures FaultStep.PageIn(s, v).value.cur == s.cur
  {
    hide Inv;
    TableForReady(s, v);
    var (s1, t) := TableFor(s, v).value;
    GetFrmReady(s1, t, -1);
    GetFrmGrants(s1);
  }

  /** The running process touches a page it may touch, and either it is there or bringing
      it in costs no table its last page. */
  ghost predicate Touchable(s: State, v: int) {
    Sound(s) && Legal(s, v) && (Resident(s, s.cur, v) || FaultSafe(s, v))
  }

  /** The page is there, or the fault ends well. */
  ghost predicate Reachable(s: State, v: int) {
    Sound(s) && Legal(s, v) && (Resident(s, s.cur, v) || FaultStep.PageIn(s, v).Some?)
  }

  lemma ResumedTouch(s: State, s2: State, v: int, m: Flat)
    requires Touchable(s, v) && !Resident(s, s.cur, v) && FaultStep.PageIn(s, v) == Some(s2) && Represents(s, m, NFRAMES)
    ensures Sound(s2) && Represents(s2, m, NFRAMES) && Legal(s2, v) && s2.cur == s.cur && Resident(s2, s2.cur, v)
    ensures s2.bsm == s.bsm
  {
    hide Inv, Lookup, FaultStep.PageIn, FaultSafe, Represents, NoOrphans, Resident, NotCached;
    InvParts(s, -1, -1);
    NotResident(s, v);
    FaultKeepsInv(s, v);
    FaultKeepsMemory(s, v, m);
    FaultMakesResident(s, v);
    FaultShape(s, v);
    OrphansKept(s, s2);
    FaultCur(s, v);
  }
}
