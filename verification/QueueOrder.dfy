/** The order of the frame queue over whole runs: frames stand on it in the order in which
    get_frm last handed them out. Both replacement policies rest on this. */
module QueueOrder {
  import opened Machine
  import opened BackingStore
  import opened Frames
  import opened PagingInv
  import opened FreeFrame
  import opened Replacement
  import opened FrameQueue
  import opened GetFrame
  import opened PageFault
  import opened FaultStep
  import opened Switch
  import opened Access
  import opened Lifecycle
  import opened Death
  import opened Birth
  import opened HeapBirth
  import opened PagingRun
  import opened Boot
  import opened KernelFacts

  ghost predicate InOrder(q: seq<int>, h: History) {
    && (forall j :: 0 <= j < |q| ==> IsFrame(q[j]) && h.stamp[q[j]] < h.now)
    && (forall j, k :: 0 <= j < k < |q| ==> h.stamp[q[j]] < h.stamp[q[k]])
  }

  /** Frames joined the queue in the order in which they stand on it. */
  ghost predicate Ordered(s: State) { InOrder(s.queue, s.hist) }

  // -------------------------------------------------------- single changes of the queue

  lemma DroppedInOrder(q: seq<int>, k: nat, h: History)
    requires InOrder(q, h) && k < |q|
    ensures InOrder(q[..k] + q[k + 1..], h)
  {
    var r := q[..k] + q[k + 1..];
    forall j | 0 <= j < |r|
      ensures r[j] == q[if j < k then j else j + 1]
    {
    }
  }

  lemma WithoutInOrder(q: seq<int>, x: int, h: History)
    requires InOrder(q, h)
    ensures InOrder(Without(q, x), h)
  {
    hide InOrder, IndexOf, Without;
    var k := IndexOf(q, x);
    WithoutAt(q, x, k);
    if k < |q| { DroppedInOrder(q, k, h); }
  }

  /** From s to s2 frames only left the queue. */
  ghost predicate Thinned(s: State, s2: State) { s2.hist == s.hist && (Ordered(s) ==> Ordered(s2)) }

  /** free_frm takes its frame off the queue, and with the last page of a table the table. */
  lemma FreeThins(s: State, i: int)
    requires Linked(s, i)
    ensures Thinned(s, FreeFrm(s, i)) && AgesKept(s, FreeFrm(s, i))
  {
    hide InOrder;
    var t := TableOf(s, i);
    if Ordered(s) {
      WithoutInOrder(s.queue, t, s.hist);
      WithoutInOrder(if s.frm[t].refcnt == 1 then Without(s.queue, t) else s.queue, i, s.hist);
    }
  }

  lemma JoinsInOrder(s: State, f: int)
    requires IsFrame(f) && f !in s.queue
    ensures Ordered(s) ==> Ordered(Enqueue(s, f))
  {
  }

  /** The frame that get_frm hands out is the last on the queue and has the newest stamp;
      no other stamp changes. */
  lemma GetFrmOrders(s: State, fill: int)
    requires Inv(s, fill, -1)
    ensures PagesOk(s) && QueueNodes(s) && AgesOk(s)
    ensures GetFrm(s).Some? ==>
      var (s2, f) := GetFrm(s).value;
      && IsFrame(f) && s2.hist == Stamped(s.hist, f) && s2.queue != [] && s2.queue[|s2.queue| - 1] == f
      && (Ordered(s) ==> Ordered(s2))
  {
    hide Inv, GetFrm, GetFrame.Search, PagesOk, QueueNodes, AgesOk, FreeFrm, Ordered;
    GetFrmFacts(s, fill);
    if GetFrm(s).Some? {
      var (s2, f) := GetFrm(s).value;
      if FirstFree(s.frm, 0) == NFRAMES {
        SearchShape(s);
        SearchKeepsPages(s);
        var s1 := GetFrame.Search(s).value.0;
        FreeThins(s1, f);
        SameOrder(s, s1);
        JoinsInOrder(FreeFrm(s1, f), f);
      } else {
        JoinsInOrder(s, f);
      }
    }
  }

  /** No frame is taken, and those that stay keep their age. */
  ghost predicate AgesKept(s: State, s2: State) {
    forall i {:trigger s2.frm[i]} :: IsFrame(i) && s2.frm[i].mapped ==> s.frm[i].mapped && s2.frm[i].age == s.frm[i].age
  }

  lemma SameOrder(s: State, s2: State)
    requires s2.queue == s.queue && s2.hist == s.hist
    ensures Thinned(s, s2) && (s2.frm == s.frm ==> AgesKept(s, s2))
  {
  }

  // ------------------------------------------------------------------- releasing frames

  lemma {:induction false} FreePagesThin(s: State, p: int, lo: int, hi: int, n: nat)
    requires n <= NFRAMES
    ensures Thinned(s, FreePages(s, p, lo, hi, n)) && AgesKept(s, FreePages(s, p, lo, hi, n))
  {
    hide Ordered, FreeFrm, Linked;
    if n > 0 {
      FreePagesThin(s, p, lo, hi, n - 1);
      var s1 := FreePages(s, p, lo, hi, n - 1);
      if PageOf(s1, p, lo, hi, n - 1) && Linked(s1, n - 1) { FreeThins(s1, n - 1); }
    }
  }

  lemma BsmUnmapThins(s: State, p: int, v: int)
    ensures Thinned(s, BsmUnmap(s, p, v)) && AgesKept(s, BsmUnmap(s, p, v))
  {
    hide Ordered, FreePages, Unmap, Lookup, MappingAt, BsmUnmap;
    if Unmappable(s, p, v) {
      var mp := MappingAt(s, p, v);
      UnmapIs(s, p, v, mp);
      FreePagesThin(s, mp.pid, mp.vpno, mp.vpno + mp.npages, NFRAMES);
      SameOrder(FreePages(s, mp.pid, mp.vpno, mp.vpno + mp.npages, NFRAMES), BsmUnmap(s, p, v));
    } else {
      NotUnmapped(s, p, v);
    }
  }

  lemma UnmapThenFreeThins(s: State, p: int, v: int, b: int)
    ensures Thinned(s, UnmapThenFree(s, p, v, b)) && AgesKept(s, UnmapThenFree(s, p, v, b))
  {
    hide Ordered, BsmUnmap, FreeBsm;
    BsmUnmapThins(s, p, v);
    SameOrder(BsmUnmap(s, p, v), UnmapThenFree(s, p, v, b));
  }

  lemma {:induction false} UnmapPublicThins(s: State, p: int, n: nat)
    requires n <= MAX_NUM_BS
    ensures Thinned(s, UnmapPublic(s, p, n)) && AgesKept(s, UnmapPublic(s, p, n))
  {
    hide Ordered, UnmapThenFree;
    if n > 0 {
      UnmapPublicThins(s, p, n - 1);
      var s1 := UnmapPublic(s, p, n - 1);
      var st := s1.bsm[n - 1];
      var k := FirstOf(st.maps, p, 0);
      if st.mapped && !st.priv && k < |st.maps| { UnmapThenFreeThins(s1, p, st.maps[k].vpno, n - 1); }
    }
  }

  lemma DropStoresThins(s: State, p: int)
    requires IsPid(p)
    ensures Thinned(s, DropStores(s, p)) && AgesKept(s, DropStores(s, p))
  {
    hide Ordered, UnmapThenFree, UnmapPublic;
    UnmapThenFreeThins(s, p, s.proc[p].vhpno, s.proc[p].store);
    UnmapPublicThins(s, p, MAX_NUM_BS);
    if s.proc[p].store == PUBLIC { SameOrder(UnmapPublic(s, p, MAX_NUM_BS), DropStores(s, p)); }
  }

  lemma FreeDirThins(s: State, p: int)
    ensures Thinned(s, FreeDir(s, p)) && AgesKept(s, FreeDir(s, p))
  {
    hide InOrder;
    if Ordered(s) { WithoutInOrder(s.queue, FirstDir(s.frm, p, 0), s.hist); }
  }

  lemma KillThins(s: State, p: int)
    requires IsPid(p)
    ensures Thinned(s, Kill(s, p)) && AgesKept(s, Kill(s, p))
  {
    hide Ordered, FreePages, FreeDir, DropStores;
    var s1 := FreePages(s, p, 0, NVPAGES, NFRAMES);
    var s2 := DropStores(FreeDir(s1, p), p);
    FreePagesThin(s, p, 0, NVPAGES, NFRAMES);
    FreeDirThins(s1, p);
    DropStoresThins(FreeDir(s1, p), p);
    SameOrder(s2, Kill(s, p));
  }

  // -------------------------------------------------------------------- taking frames

  /** The frames that get_frm hands out in a step, one after the other. */
  ghost function Handed(s: State, st: Step): seq<int>
    requires Sound(s)
  {
    match st
    case Faults(v) =>
      if Legal(s, v) && TableFor(s, v).Some? then
        var (s1, t) := TableFor(s, v).value;
        TableForReady(s, v);
        GetFrmReady(s1, t, -1);
        CurHasDir(s);
        (if PdeAt(s, s.cur, Pdi(v)).pres then [] else [t]) + Taker(s1)
      else []
    case Creates(p) => GetFrmReady(s, -1, -1); Taker(s)
    case Vcreates(p, n) =>
      if Spawnable(s, p) && Vcreate(s, p, n).Some? && Vcreate(s, p, n).value.1 then
        Prepared(s, p, n);
        GetFrmReady(Mapped(s, p, FirstClosed(s.bsm, 0), n), -1, -1);
        Taker(Mapped(s, p, FirstClosed(s.bsm, 0), n))
      else []
    case _ => []
  }

  ghost function Taker(s: State): seq<int>
    requires PagesOk(s) && QueueNodes(s) && AgesOk(s)
  {
    if GetFrm(s).Some? then [GetFrm(s).value.1] else []
  }

  predicate AllFrames(fs: seq<int>) { forall j :: 0 <= j < |fs| ==> IsFrame(fs[j]) }

  /** The history after those frames have been handed out. */
  function Recorded(h: History, fs: seq<int>): (r: History)
    requires AllFrames(fs)
    decreases |fs|
  {
    if fs == [] then h
    else
      assert IsFrame(fs[|fs| - 1]);
      Stamped(Recorded(h, fs[..|fs| - 1]), fs[|fs| - 1])
  }

  lemma TwoRecorded(h: History, t: int, f: int)
    requires IsFrame(t) && IsFrame(f)
    ensures Recorded(h, []) == h && Recorded(h, [f]) == Stamped(h, f) && Recorded(h, [t, f]) == Stamped(Stamped(h, t), f)
  {
    assert [f][..0] == [] && [t, f][..1] == [t] && [t][..0] == [];
  }

  lemma {:induction false} RecordedTwice(h: History, fs: seq<int>, gs: seq<int>)
    requires AllFrames(fs) && AllFrames(gs)
    ensures AllFrames(fs + gs) && Recorded(h, fs + gs) == Recorded(Recorded(h, fs), gs)
    decreases |gs|
  {
    if gs == [] {
      assert fs + gs == fs;
    } else {
      RecordedTwice(h, fs, gs[..|gs| - 1]);
      assert (fs + gs)[..|fs + gs| - 1] == fs + gs[..|gs| - 1];
    }
  }

  /** What a step does to history and order. */
  ghost predicate Follows(s: State, s2: State, fs: seq<int>) {
    AllFrames(fs) && s2.hist == Recorded(s.hist, fs) && (Ordered(s) ==> Ordered(s2))
  }

  lemma ThinFollows(s: State, s2: State)
    requires Thinned(s, s2)
    ensures Follows(s, s2, [])
  {
  }

  lemma FaultOrders(s: State, v: int)
    requires Sound(s) && Legal(s, v) && PageIn(s, v).Some?
    ensures Follows(s, PageIn(s, v).value, Handed(s, Faults(v)))
  {
    hide Inv, GetFrm, PagesOk, QueueNodes, AgesOk, Ordered, Recorded, NoOrphans;
    CurHasDir(s) by { InvParts(s, -1, -1); }
    TableForReady(s, v);
    var (s1, t) := TableFor(s, v).value;
    GetFrmOrders(s, -1);
    GetFrmOrders(s1, t);
    var (s2, f) := GetFrm(s1).value;
    TwoRecorded(s.hist, t, f);
    SameOrder(s2, PageIn(s, v).value);
    if PdeAt(s, s.cur, Pdi(v)).pres {
      assert Handed(s, Faults(v)) == [f];
    } else {
      assert Handed(s, Faults(v)) == [t, f];
      SameOrder(GetFrm(s).value.0, s1);
    }
  }

  lemma CreateOrders(s: State, p: int)
    requires Sound(s) && IsPid(p) && Create(s, p).Some?
    ensures Follows(s, Create(s, p).value, Handed(s, Creates(p)))
  {
    hide Inv, GetFrm, PagesOk, QueueNodes, AgesOk, Ordered, Recorded, NoOrphans, NewDir;
    GetFrmOrders(s, -1);
    GetFrmReady(s, -1, -1);
    var (s2, f) := GetFrm(s).value;
    TwoRecorded(s.hist, f, f);
    SameOrder(s2, Create(s, p).value);
  }

  lemma VcreateOrders(s: State, p: int, n: int)
    requires Sound(s) && Spawnable(s, p) && Vcreate(s, p, n).Some? && Vcreate(s, p, n).value.1
    ensures Follows(s, Vcreate(s, p, n).value.0, Handed(s, Vcreates(p, n)))
  {
    hide Inv, GetFrm, PagesOk, QueueNodes, AgesOk, Ordered, Recorded, NoOrphans, Vcreate, HeapHead, NewDir, OneOwner;
    Prepared(s, p, n);
    var s1 := Mapped(s, p, FirstClosed(s.bsm, 0), n);
    GetFrmOrders(s1, -1);
    var (s2, f) := GetFrm(s1).value;
    TwoRecorded(s.hist, f, f);
    SameOrder(s, s1);
    SameOrder(s2, Vcreate(s, p, n).value.0);
  }

  /** Every step hands out the frames it hands out, gives them new stamps in that order,
      and keeps the queue in order. */
  lemma StepOrders(s: State, st: Step, s2: State)
    requires Sound(s) && Next(s, st, s2)
    ensures Follows(s, s2, Handed(s, st))
  {
    hide Ordered, PageIn, Kill, SwitchTo, Create, Vcreate, BsmUnmap, Recorded, FaultSafe, Fit, NoOrphans, Inv, GetFrm;
    match st
    case Reads(v, off) => SameOrder(s, s2); ThinFollows(s, s2);
    case Writes(v, off, b) => SameOrder(s, s2); ThinFollows(s, s2);
    case Faults(v) => FaultOrders(s, v);
    case Maps(v, b, n) => SameOrder(s, s2); ThinFollows(s, s2);
    case Unmaps(v) =>
      BsmUnmapThins(s, s.cur, v);
      SameOrder(BsmUnmap(s, s.cur, v), s2);
      ThinFollows(s, s2);
    case Switches(next) => SwitchShape(s, next); SameOrder(s, s2); ThinFollows(s, s2);
    case Kills(p) => KillThins(s, p); ThinFollows(s, s2);
    case Exits(next) =>
      KillThins(s, s.cur);
      KillKeepsInv(s, s.cur);
      SwitchShape(Kill(s, s.cur), next);
      SameOrder(Kill(s, s.cur), s2);
      ThinFollows(s, s2);
    case Creates(p) => CreateOrders(s, p);
    case Vcreates(p, n) => VcreateOrders(s, p, n);
    case SetsPolicy(p) => SameOrder(s, s2); ThinFollows(s, s2);
  }

  // ------------------------------------------------------------------------- whole runs

  /** All frames handed out in the first k steps, in order. */
  ghost function AllHanded(ss: seq<State>, sts: seq<Step>, k: nat): seq<int>
    requires k <= |sts| < |ss| && forall j :: 0 <= j < k ==> Sound(ss[j])
  {
    if k == 0 then [] else AllHanded(ss, sts, k - 1) + Handed(ss[k - 1], sts[k - 1])
  }

  /** When frame f was last handed out: its last place in the list fs, which continues a
      history h. */
  function Latest(h: History, fs: seq<int>, f: int): int
    requires IsFrame(f)
    decreases |fs|
  {
    if fs == [] then h.stamp[f]
    else if fs[|fs| - 1] == f then h.now + |fs| - 1
    else Latest(h, fs[..|fs| - 1], f)
  }

  lemma {:induction false} RecordedLatest(h: History, fs: seq<int>, f: int)
    requires AllFrames(fs) && IsFrame(f)
    ensures Recorded(h, fs).stamp[f] == Latest(h, fs, f) && Recorded(h, fs).now == h.now + |fs|
    decreases |fs|
  {
    if fs != [] { RecordedLatest(h, fs[..|fs| - 1], f); }
  }

  lemma {:induction false} RunOrders(ss: seq<State>, sts: seq<Step>, m: Flat, k: nat)
    requires IsRun(ss, sts) && Represents(ss[0], m, NFRAMES) && k <= |sts|
    ensures forall j :: 0 <= j <= k ==> Sound(ss[j])
    ensures Follows(ss[0], ss[k], AllHanded(ss, sts, k))
  {
    hide Sound, Represents, Next, Ordered, Recorded, Handed;
    if k == 0 {
      SameOrder(ss[0], ss[0]);
      ThinFollows(ss[0], ss[0]);
    } else {
      RunOrders(ss, sts, m, k - 1);
      RunRefines(ss, sts, m, k);
      assert Next(ss[k - 1], sts[k - 1], ss[k]);
      StepOrders(ss[k - 1], sts[k - 1], ss[k]);
      RecordedTwice(ss[0].hist, AllHanded(ss, sts, k - 1), Handed(ss[k - 1], sts[k - 1]));
    }
  }

  /** In every state of a run the queue lists exactly the allocated frames, once each, in
      the order in which they were last handed out, whatever was allocated, evicted, revoked,
      unmapped or killed in between. */
  lemma QueueInOrder(ss: seq<State>, sts: seq<Step>, m: Flat, k: nat)
    requires IsRun(ss, sts) && Represents(ss[0], m, NFRAMES) && k <= |sts| && Ordered(ss[0])
    ensures forall j :: 0 <= j <= k ==> Sound(ss[j])
    ensures forall i :: IsFrame(i) ==> (i in ss[k].queue <==> ss[k].frm[i].mapped)
    ensures forall j :: 0 <= j < |ss[k].queue| ==> IsFrame(ss[k].queue[j])
    ensures forall j, l :: 0 <= j < l < |ss[k].queue| ==>
      var q, fs := ss[k].queue, AllHanded(ss, sts, k);
      Latest(ss[0].hist, fs, q[j]) < Latest(ss[0].hist, fs, q[l])
  {
    hide Next, Represents, Handed, TreeOk, CleanOk, OwnersOk, NoOrphans, AllHanded;
    RunOrders(ss, sts, m, k);
    var q, fs := ss[k].queue, AllHanded(ss, sts, k);
    forall j | 0 <= j < |q|
      ensures ss[k].hist.stamp[q[j]] == Latest(ss[0].hist, fs, q[j])
    {
      RecordedLatest(ss[0].hist, fs, q[j]);
    }
  }

  /** A run may start from boot. */
  lemma BootOrdered(phys: Memory, policy: Policy)
    ensures Ordered(BootState(phys, policy))
  {
    hide BootFrames, BootMemory, BootProcs, ClosedStores;
  }

  /** Aging therefore evicts, of the pages of least age, the one allocated longest ago. */
  lemma AgingTakesOldest(s: State, i: int)
    requires PagesOk(s) && QueueNodes(s) && AgesOk(s) && Ordered(s) && SearchAging(s).Some?
    requires PageFrame(s, i) && i in s.queue
    ensures
      var (s1, v) := SearchAging(s).value;
      && IsFrame(v) && s1.frm[v].age <= s1.frm[i].age
      && (s1.frm[v].age == s1.frm[i].age ==> s.hist.stamp[v] <= s.hist.stamp[i])
  {
    hide AgeAll, MinAge, FirstAged, PagesOk, AgesOk;
    AgingVictim(s);
  }
}
