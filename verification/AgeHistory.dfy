/** What an age says: which of the last eight searches found the page accessed. Over whole
    runs, and with it which page Aging evicts. */
module AgeHistory {
  import opened Machine
  import opened BackingStore
  import opened Frames
  import opened PagingInv
  import opened FreeFrame
  import opened Replacement
  import opened GetFrame
  import opened PageFault
  import opened FaultStep
  import opened Switch
  import opened Access
  import opened Lifecycle
  import opened Death
  import opened Birth
  import opened HeapBirth
  import opened PagingRun
  import opened Boot
  import opened KernelFacts
  import opened QueueOrder

  // ------------------------------------------------------------------ eight bits of history

  /** Whether the j-th search from the end found the page accessed; no search, no access. */
  predicate Bit(seen: seq<bool>, j: nat) { j < |seen| && seen[|seen| - 1 - j] }

  function Weight(seen: seq<bool>, j: nat, w: nat): nat { if Bit(seen, j) then w else 0 }

  /** The last eight searches as a number, the latest weighing most. */
  function Register(seen: seq<bool>): nat {
    Weight(seen, 0, 128) + Weight(seen, 1, 64) + Weight(seen, 2, 32) + Weight(seen, 3, 16)
    + Weight(seen, 4, 8) + Weight(seen, 5, 4) + Weight(seen, 6, 2) + Weight(seen, 7, 1)
  }

  /** One more search shifts the register. */
  lemma RegisterShifts(seen: seq<bool>, b: bool)
    ensures Register(seen + [b]) == Register(seen) / 2 + if b then 128 else 0
  {
    var t := seen + [b];
    assert Bit(t, 0) == b;
    forall j: nat
      ensures Bit(t, j + 1) == Bit(seen, j)
    {
      if j < |seen| { assert t[|t| - 1 - (j + 1)] == seen[|seen| - 1 - j]; }
    }
  }

  /** Two histories that agree on the latest j searches and differ on the one before. */
  ghost predicate FirstDiffer(a: seq<bool>, b: seq<bool>, j: nat) {
    (forall i: nat :: i < j ==> Bit(a, i) == Bit(b, i)) && Bit(a, j) != Bit(b, j)
  }

  /** The latest difference within eight searches decides. */
  lemma LatestDecides(a: seq<bool>, b: seq<bool>, j: nat)
    requires FirstDiffer(a, b, j) && j < 8
    ensures Register(a) < Register(b) <==> Bit(b, j)
  {
    forall i: nat | i < j
      ensures Bit(a, i) == Bit(b, i)
    {
    }
  }

  lemma SameEight(a: seq<bool>, b: seq<bool>)
    ensures Register(a) == Register(b) <==> forall j: nat :: j < 8 ==> Bit(a, j) == Bit(b, j)
  {
    if j: nat :| j < 8 && Bit(a, j) != Bit(b, j) {
      var i := First(a, b, j);
      LatestDecides(a, b, i);
      LatestDecides(b, a, i);
    }
  }

  lemma First(a: seq<bool>, b: seq<bool>, j: nat) returns (i: nat)
    requires Bit(a, j) != Bit(b, j)
    ensures i <= j && FirstDiffer(a, b, i)
  {
    i := 0;
    while Bit(a, i) == Bit(b, i)
      invariant i <= j && forall k: nat :: k < i ==> Bit(a, k) == Bit(b, k)
      decreases j - i
    {
      i := i + 1;
    }
  }

  // ---------------------------------------------------------------------- one call of get_frm

  /** For every frame, what the searches since it was last handed out have seen. */
  type Seen = h: seq<seq<bool>> | |h| == NFRAMES witness seq(NFRAMES, _ => [])

  /** get_frm has to search, and by Aging. */
  predicate Searches(c: State) { FirstFree(c.frm, 0) == NFRAMES && c.policy == AGING }

  /** An Aging search looks at every page frame; the frame handed out starts afresh. */
  ghost function Noted(h: Seen, c: State): Seen
    requires PagesOk(c) && QueueNodes(c) && AgesOk(c)
  {
    AfterCall(h, c, if GetFrm(c).Some? then GetFrm(c).value.1 else NOBODY)
  }

  function AfterCall(h: Seen, c: State, f: int): Seen {
    seq(NFRAMES, i requires 0 <= i < NFRAMES =>
      if i == f then []
      else if Searches(c) && PageFrame(c, i) then h[i] + [Accessed(c, i)]
      else h[i])
  }

  /** Every age is the register of what has been seen. */
  ghost predicate AgesTell(s: State, h: Seen) {
    forall i {:trigger s.frm[i]} :: IsFrame(i) && s.frm[i].mapped ==> s.frm[i].age == Register(h[i])
  }

  lemma KeptTells(s: State, s2: State, h: Seen)
    requires AgesTell(s, h) && AgesKept(s, s2)
    ensures AgesTell(s2, h)
  {
    hide Register;
  }

  /** An Aging search brings every age up to date, and touches no access bit. */
  lemma SearchTells(c: State, h: Seen, i: int)
    requires PagesOk(c) && AgesOk(c) && AgesTell(c, h) && IsFrame(i) && c.frm[i].mapped && (PageFrame(c, i) ==> i in c.queue)
    ensures AgeAll(c, c.queue).frm[i].age == Register(if PageFrame(c, i) then h[i] + [Accessed(c, i)] else h[i])
    ensures Accessed(AgeAll(c, c.queue), i) == Accessed(c, i)
  {
    hide Register, WellMapped;
    if PageFrame(c, i) {
      assert PageOk(c, i);
      RegisterShifts(h[i], Accessed(c, i));
    }
  }

  lemma OnQueue(c: State, fill: int, i: int)
    requires Inv(c, fill, -1) && IsFrame(i) && c.frm[i].mapped
    ensures i in c.queue
  {
  }

  lemma GetFrmTells(c: State, fill: int, h: Seen)
    requires Inv(c, fill, -1) && AgesTell(c, h)
    ensures PagesOk(c) && QueueNodes(c) && AgesOk(c) && FramesOk(c)
    ensures GetFrm(c).Some? ==> AgesTell(GetFrm(c).value.0, Noted(h, c)) && Granted(c, GetFrm(c).value.0, GetFrm(c).value.1)
  {
    hide Inv, GetFrm, PagesOk, QueueNodes, AgesOk, FramesOk, FreeFrm, AgeAll, SearchSC, SearchAging, Register, Accessed;
    GetFrmReady(c, fill, -1);
    if GetFrm(c).Some? {
      GetFrmCases(c);
      GetFrmGrants(c);
      var (s2, f) := GetFrm(c).value;
      if FirstFree(c.frm, 0) == NFRAMES {
        var s1 := GetFrame.Search(c).value.0;
        SearchAges(c, fill, h);
        FreeThins(s1, f);
      }
    }
  }

  /** The ages a search leaves. */
  lemma SearchAges(c: State, fill: int, h: Seen)
    requires Inv(c, fill, -1) && AgesTell(c, h) && PagesOk(c) && GetFrame.Search(c).Some?
    ensures forall i {:trigger GetFrame.Search(c).value.0.frm[i]} :: IsFrame(i) && GetFrame.Search(c).value.0.frm[i].mapped ==>
      c.frm[i].mapped
      && GetFrame.Search(c).value.0.frm[i].age == Register(if c.policy == AGING && PageFrame(c, i) then h[i] + [Accessed(c, i)] else h[i])
  {
    hide Inv, PagesOk, QueueNodes, AgesOk, AgeAll, Register, Accessed, SecondChance, SomeUnaccessed;
    GetFrmReady(c, fill, -1);
    var s1 := GetFrame.Search(c).value.0;
    SearchShape(c);
    if c.policy == SC {
      SecondChanceVictim(c);
    } else {
      AgingVictim(c);
      forall i | IsFrame(i) && c.frm[i].mapped
        ensures s1.frm[i].age == Register(if PageFrame(c, i) then h[i] + [Accessed(c, i)] else h[i])
      {
        OnQueue(c, fill, i);
        SearchTells(c, h, i);
      }
    }
  }

  /** Of any page and the one that Aging evicts: if the last eight searches saw them
      differently, the victim is the one that was not accessed at the latest difference;
      if not, it is the one allocated longest ago. */
  lemma VictimByHistory(c: State, fill: int, h: Seen, i: int)
    requires Inv(c, fill, -1) && AgesTell(c, h) && Ordered(c) && Searches(c) && PageFrame(c, i)
    ensures PagesOk(c) && QueueNodes(c) && AgesOk(c)
    ensures GetFrm(c).Some? ==>
      var v := GetFrm(c).value.1;
      && PageFrame(c, v)
      && var a, b := h[v] + [Accessed(c, v)], h[i] + [Accessed(c, i)];
      && (forall j: nat {:trigger FirstDiffer(a, b, j)} :: j < 8 && FirstDiffer(a, b, j) ==> !Bit(a, j) && Bit(b, j))
      && ((forall j: nat :: j < 8 ==> Bit(a, j) == Bit(b, j)) ==> c.hist.stamp[v] <= c.hist.stamp[i])
  {
    hide Inv, GetFrm, PagesOk, QueueNodes, AgesOk, AgeAll, SearchAging, Register, Accessed, Ordered, FreeFrm;
    GetFrmReady(c, fill, -1);
    if GetFrm(c).Some? {
      GetFrmCases(c);
      OnQueue(c, fill, i);
      AgingTakesOldest(c, i);
      AgingVictim(c);
      var v := GetFrm(c).value.1;
      SearchTells(c, h, i);
      SearchTells(c, h, v);
      var a, b := h[v] + [Accessed(c, v)], h[i] + [Accessed(c, i)];
      SameEight(a, b);
      forall j: nat | j < 8 && FirstDiffer(a, b, j)
        ensures !Bit(a, j) && Bit(b, j)
      {
        LatestDecides(b, a, j);
      }
    }
  }

  // ----------------------------------------------------------------------------- one step

  /** The states in which a step calls get_frm, one after the other. */
  ghost function Calls(s: State, st: Step): seq<State>
    requires Sound(s)
  {
    match st
    case Faults(v) =>
      if Legal(s, v) && TableFor(s, v).Some? then
        CurHasDir(s);
        (if PdeAt(s, s.cur, Pdi(v)).pres then [] else [s]) + [TableFor(s, v).value.0]
      else []
    case Creates(p) => [s]
    case Vcreates(p, n) =>
      if Spawnable(s, p) && Vcreate(s, p, n).Some? && Vcreate(s, p, n).value.1 then
        Prepared(s, p, n);
        [Mapped(s, p, FirstClosed(s.bsm, 0), n)]
      else []
    case _ => []
  }

  /** In each of them the invariant holds. */
  ghost predicate Callable(c: State) { exists fill :: Inv(c, fill, -1) }

  lemma CallableReady(c: State)
    requires Callable(c)
    ensures PagesOk(c) && QueueNodes(c) && AgesOk(c)
  {
    hide Inv;
    var fill :| Inv(c, fill, -1);
    GetFrmReady(c, fill, -1);
  }

  ghost function NotedAll(h: Seen, cs: seq<State>): Seen
    requires forall j :: 0 <= j < |cs| ==> Callable(cs[j])
    decreases |cs|
  {
    if cs == [] then h
    else
      CallableReady(cs[|cs| - 1]);
      Noted(NotedAll(h, cs[..|cs| - 1]), cs[|cs| - 1])
  }

  lemma TwoNoted(h: Seen, c: State, d: State)
    requires Callable(c) && Callable(d)
    ensures PagesOk(c) && QueueNodes(c) && AgesOk(c) && PagesOk(d) && QueueNodes(d) && AgesOk(d)
    ensures NotedAll(h, []) == h && NotedAll(h, [d]) == Noted(h, d) && NotedAll(h, [c, d]) == Noted(Noted(h, c), d)
  {
    hide Inv, Noted, Callable, PagesOk, QueueNodes, AgesOk;
    CallableReady(c);
    CallableReady(d);
    assert [d][..0] == [] && [c, d][..1] == [c] && [c][..0] == [];
  }

  /** What a step does to ages and history. */
  ghost predicate Tells(s: State, s2: State, h: Seen, cs: seq<State>) {
    (forall j :: 0 <= j < |cs| ==> Callable(cs[j])) && (AgesTell(s, h) ==> AgesTell(s2, NotedAll(h, cs)))
  }

  lemma KeptSteps(s: State, s2: State, h: Seen)
    requires AgesKept(s, s2)
    ensures Tells(s, s2, h, [])
  {
    if AgesTell(s, h) { KeptTells(s, s2, h); }
  }

  /** A frame that get_frm has just handed out is put to use. */
  lemma UsedTells(s2: State, s3: State, f: int, h: Seen)
    requires AgesTell(s2, h) && IsFrame(f) && s2.frm[f] == BLANK && h[f] == []
    requires forall i {:trigger s3.frm[i]} :: IsFrame(i) ==> s3.frm[i].age == s2.frm[i].age && (s3.frm[i].mapped ==> s2.frm[i].mapped || i == f)
    ensures AgesTell(s3, h)
  {
    assert Register([]) == 0;
    hide Register;
  }

  lemma HandedFresh(h: Seen, c: State)
    requires PagesOk(c) && QueueNodes(c) && AgesOk(c) && GetFrm(c).Some? && IsFrame(GetFrm(c).value.1)
    ensures Noted(h, c)[GetFrm(c).value.1] == []
  {
    hide GetFrm, PagesOk, QueueNodes, AgesOk, Accessed;
  }

  lemma CreateTells(s: State, p: int, h: Seen)
    requires Sound(s) && IsPid(p) && Create(s, p).Some?
    ensures Tells(s, Create(s, p).value, h, Calls(s, Creates(p)))
  {
    hide Inv, GetFrm, PagesOk, QueueNodes, AgesOk, FramesOk, NoOrphans, NewDir, AgesTell, Noted;
    assert Callable(s) by { assert Inv(s, -1, -1); }
    TwoNoted(h, s, s);
    if AgesTell(s, h) {
      GetFrmTells(s, -1, h);
      HandedFresh(h, s);
      var (s2, f) := GetFrm(s).value;
      UsedTells(s2, Create(s, p).value, f, Noted(h, s));
    }
  }

  lemma VcreateTells(s: State, p: int, n: int, h: Seen)
    requires Sound(s) && Spawnable(s, p) && Vcreate(s, p, n).Some? && Vcreate(s, p, n).value.1
    ensures Tells(s, Vcreate(s, p, n).value.0, h, Calls(s, Vcreates(p, n)))
  {
    hide Inv, GetFrm, PagesOk, QueueNodes, AgesOk, FramesOk, NoOrphans, NewDir, AgesTell, Noted, Vcreate, HeapHead, OneOwner, Remapped;
    Prepared(s, p, n);
    var c := Mapped(s, p, FirstClosed(s.bsm, 0), n);
    assert Callable(c) by { assert Inv(c, -1, -1); }
    TwoNoted(h, c, c);
    if AgesTell(s, h) {
      SameFrames(s, c, h);
      GetFrmTells(c, -1, h);
      HandedFresh(h, c);
      var (s2, f) := GetFrm(c).value;
      UsedTells(s2, Vcreate(s, p, n).value.0, f, Noted(h, c));
    }
  }

  lemma SameFrames(s: State, s2: State, h: Seen)
    requires s2.frm == s.frm
    ensures AgesTell(s, h) <==> AgesTell(s2, h)
  {
  }

  /** The frame of a new table is put to use. */
  lemma TableTells(s: State, v: int, h: Seen)
    requires Valid(s) && Legal(s, v) && TableFor(s, v).Some? && AgesTell(s, h) && HasDir(s, s.cur) && !PdeAt(s, s.cur, Pdi(v)).pres
    ensures PagesOk(s) && QueueNodes(s) && AgesOk(s)
    ensures AgesTell(TableFor(s, v).value.0, Noted(h, s))
  {
    hide Inv, GetFrm, PagesOk, QueueNodes, AgesOk, FramesOk, AgesTell, Noted;
    GetFrmReady(s, -1, -1);
    GetFrmTells(s, -1, h);
    HandedFresh(h, s);
    var (s2, t) := GetFrm(s).value;
    UsedTells(s2, TableFor(s, v).value.0, t, Noted(h, s));
  }

  lemma FaultTells(s: State, v: int, h: Seen)
    requires Sound(s) && Legal(s, v) && FaultSafe(s, v) && PageIn(s, v).Some?
    ensures Tells(s, PageIn(s, v).value, h, Calls(s, Faults(v)))
  {
    hide Inv, GetFrm, PagesOk, QueueNodes, AgesOk, FramesOk, NoOrphans, AgesTell, Noted, FaultSafe, EvictsLast, PageIn, TableFor, NotedAll;
    CurHasDir(s) by { InvParts(s, -1, -1); }
    TableThere(s, v);
    TableForReady(s, v);
    var (c, t) := TableFor(s, v).value;
    assert Callable(s) by { assert Inv(s, -1, -1); }
    assert Callable(c) by { assert Inv(c, t, -1); }
    TwoNoted(h, s, c);
    if PdeAt(s, s.cur, Pdi(v)).pres {
      assert Calls(s, Faults(v)) == [c];
      OldTableReady(s, v);
      if AgesTell(s, h) { PageTells(s, v, h); }
    } else {
      assert Calls(s, Faults(v)) == [s, c];
      if AgesTell(s, h) {
        TableTells(s, v, h);
        PageTells(s, v, Noted(h, s));
      }
    }
  }

  lemma TableThere(s: State, v: int)
    requires Valid(s) && Legal(s, v) && PageIn(s, v).Some?
    ensures TableFor(s, v).Some?
  {
  }

  /** And the frame of the page. */
  lemma PageTells(s: State, v: int, h: Seen)
    requires Valid(s) && Legal(s, v) && PageIn(s, v).Some? && TableFor(s, v).Some? && AgesTell(TableFor(s, v).value.0, h)
    requires FaultSafe(s, v)
    ensures var c := TableFor(s, v).value.0;
      PagesOk(c) && QueueNodes(c) && AgesOk(c) && AgesTell(PageIn(s, v).value, Noted(h, c))
  {
    hide Inv, GetFrm, PagesOk, QueueNodes, AgesOk, FramesOk, AgesTell, Noted, FaultSafe, EvictsLast;
    SafeForTable(s, v);
    var (c, t) := TableFor(s, v).value;
    GetFrmTells(c, t, h);
    HandedFresh(h, c);
    var (s2, f) := GetFrm(c).value;
    UsedTells(s2, PageIn(s, v).value, f, Noted(h, c));
  }

  lemma StepTells(s: State, st: Step, s2: State, h: Seen)
    requires Sound(s) && Next(s, st, s2)
    ensures Tells(s, s2, h, Calls(s, st))
  {
    hide AgesTell, PageIn, Kill, SwitchTo, Create, Vcreate, BsmUnmap, FaultSafe, Fit, NoOrphans, Inv, GetFrm, NotedAll, Ordered;
    match st
    case Reads(v, off) => SameOrder(s, s2); KeptSteps(s, s2, h);
    case Writes(v, off, b) => SameOrder(s, s2); KeptSteps(s, s2, h);
    case Faults(v) => FaultTells(s, v, h);
    case Maps(v, b, n) => SameOrder(s, s2); KeptSteps(s, s2, h);
    case Unmaps(v) =>
      BsmUnmapThins(s, s.cur, v);
      KeptSteps(s, s2, h);
    case Switches(next) => SwitchShape(s, next); SameOrder(s, s2); KeptSteps(s, s2, h);
    case Kills(p) => KillThins(s, p); KeptSteps(s, s2, h);
    case Exits(next) =>
      KillThins(s, s.cur);
      KillKeepsInv(s, s.cur);
      SwitchShape(Kill(s, s.cur), next);
      KeptSteps(s, s2, h);
    case Creates(p) => CreateTells(s, p, h);
    case Vcreates(p, n) => VcreateTells(s, p, n, h);
    case SetsPolicy(p) => SameOrder(s, s2); KeptSteps(s, s2, h);
  }

  // ------------------------------------------------------------------------- whole runs

  /** All states in which get_frm is called in the first k steps of a run. */
  ghost function AllCalls(ss: seq<State>, sts: seq<Step>, k: nat): seq<State>
    requires k <= |sts| < |ss| && forall j :: 0 <= j < k ==> Sound(ss[j])
  {
    if k == 0 then [] else AllCalls(ss, sts, k - 1) + Calls(ss[k - 1], sts[k - 1])
  }

  lemma {:induction false} NotedMore(h: Seen, cs: seq<State>, ds: seq<State>)
    requires (forall j :: 0 <= j < |cs| ==> Callable(cs[j])) && forall j :: 0 <= j < |ds| ==> Callable(ds[j])
    ensures (forall j :: 0 <= j < |cs + ds| ==> Callable((cs + ds)[j])) && NotedAll(h, cs + ds) == NotedAll(NotedAll(h, cs), ds)
    decreases |ds|
  {
    hide Callable, Noted;
    if ds == [] {
      assert cs + ds == cs;
    } else {
      NotedMore(h, cs, ds[..|ds| - 1]);
      assert (cs + ds)[..|cs + ds| - 1] == cs + ds[..|ds| - 1];
    }
  }

  /** In every state of a run, the age of a frame says which of the last eight Aging searches
      since it was handed out found its page accessed. */
  lemma {:induction false} AgesTellHistory(ss: seq<State>, sts: seq<Step>, m: Flat, h: Seen, k: nat)
    requires IsRun(ss, sts) && Represents(ss[0], m, NFRAMES) && k <= |sts| && AgesTell(ss[0], h)
    ensures forall j :: 0 <= j <= k ==> Sound(ss[j])
    ensures forall j :: 0 <= j < |AllCalls(ss, sts, k)| ==> Callable(AllCalls(ss, sts, k)[j])
    ensures AgesTell(ss[k], NotedAll(h, AllCalls(ss, sts, k)))
  {
    hide Sound, Represents, Next, AgesTell, NotedAll, Calls, Callable;
    if k == 0 {
      NoneNoted(h);
    } else {
      AgesTellHistory(ss, sts, m, h, k - 1);
      RunRefines(ss, sts, m, k);
      assert Next(ss[k - 1], sts[k - 1], ss[k]);
      var h1 := NotedAll(h, AllCalls(ss, sts, k - 1));
      StepTells(ss[k - 1], sts[k - 1], ss[k], h1);
      NotedMore(h, AllCalls(ss, sts, k - 1), Calls(ss[k - 1], sts[k - 1]));
    }
  }

  lemma NoneNoted(h: Seen)
    ensures NotedAll(h, []) == h
  {
  }

  function NothingSeen(): Seen { seq(NFRAMES, _ => []) }

  /** A run may start from boot. */
  lemma BootTells(phys: Memory, policy: Policy)
    ensures AgesTell(BootState(phys, policy), NothingSeen())
  {
    hide BootMemory, BootProcs, ClosedStores;
    forall i | IsFrame(i)
      ensures BootState(phys, policy).frm[i].age == 0 && Register(NothingSeen()[i]) == 0
    {
      BootEmpty(phys, policy, i);
    }
  }

  /** So in a run, a fault whose table exists evicts by what the searches of the run have
      seen: the victim lost the comparison with every other page. */
  lemma RunVictim(ss: seq<State>, sts: seq<Step>, m: Flat, h: Seen, k: nat, i: int)
    requires IsRun(ss, sts) && Represents(ss[0], m, NFRAMES) && k <= |sts| && AgesTell(ss[0], h) && Ordered(ss[0])
    requires Searches(ss[k]) && PageFrame(ss[k], i)
    ensures forall j :: 0 <= j <= k ==> Sound(ss[j])
    ensures forall j :: 0 <= j < |AllCalls(ss, sts, k)| ==> Callable(AllCalls(ss, sts, k)[j])
    ensures PagesOk(ss[k]) && QueueNodes(ss[k]) && AgesOk(ss[k])
    ensures GetFrm(ss[k]).Some? ==>
      var c, v := ss[k], GetFrm(ss[k]).value.1;
      && PageFrame(c, v)
      && var seen := NotedAll(h, AllCalls(ss, sts, k));
         var a, b := seen[v] + [Accessed(c, v)], seen[i] + [Accessed(c, i)];
      && (forall j: nat {:trigger FirstDiffer(a, b, j)} :: j < 8 && FirstDiffer(a, b, j) ==> !Bit(a, j) && Bit(b, j))
      && ((forall j: nat :: j < 8 ==> Bit(a, j) == Bit(b, j)) ==> c.hist.stamp[v] <= c.hist.stamp[i])
  {
    hide Represents, Next, AgesTell, NotedAll, Calls, Callable, Handed, NoOrphans, Inv, GetFrm, Accessed, FirstDiffer, Ordered;
    AgesTellHistory(ss, sts, m, h, k);
    RunOrders(ss, sts, m, k);
    VictimByHistory(ss[k], -1, NotedAll(h, AllCalls(ss, sts, k)), i);
  }
}
