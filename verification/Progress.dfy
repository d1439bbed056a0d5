/** What the steps of a run can bring about: accesses, deaths, births, unmappings and changes of
    policy that are possible end in sound states with the promised result. */
module Progress {
  import opened Machine
  import opened BackingStore
  import opened Frames
  import opened PagingInv
  import opened Replacement
  import opened GetFrame
  import opened FaultStep
  import opened Switch
  import opened Access
  import opened Lifecycle
  import opened Death
  import opened Birth
  import opened HeapBirth
  import opened PagingRun
  import opened KernelFacts
  import opened PagingEffects

  // ----------------------------------------------------------------------------- accesses

  /** If the page is not there, one fault step brings it in; in the end it can be touched. */
  lemma Arrives(s: State, v: int, off: int, m: Flat) returns (ss: seq<State>, sts: seq<Step>)
    requires Touchable(s, v) && Reachable(s, v) && Represents(s, m, NFRAMES) && 0 <= off < NBPG
    ensures |ss| == |sts| + 1 <= 2 && ss[0] == s && (sts == [] || sts == [Faults(v)])
    ensures IsRun(ss, sts)
    ensures
      var t := ss[|sts|];
      && Sound(t) && Represents(t, m, NFRAMES) && t.cur == s.cur && t.bsm == s.bsm && CanTouch(t, v, off) && Backed(t, v)
      && 0 <= TouchSlot(t, v) < NSLOTS && TouchSlot(t, v) == TouchSlot(s, v)
  {
    hide Inv, PageIn, FaultSafe, Represents, NoOrphans, Resident, Lookup, SlotOf;
    if Resident(s, s.cur, v) {
      ss, sts := [s], [];
      CanBeRead(s, v, off, m);
    } else {
      var t := PageIn(s, v).value;
      ss, sts := [s, t], [Faults(v)];
      ResumedTouch(s, t, v, m);
      CanBeRead(t, v, off, m);
    }
  }

  /** A run goes on with one more step. */
  lemma GoesOn(ss: seq<State>, sts: seq<Step>, st: Step, t: State)
    requires IsRun(ss, sts) && Sound(ss[|sts|]) && Next(ss[|sts|], st, t)
    ensures IsRun(ss + [t], sts + [st])
  {
    hide Sound, Next;
    var us, uts := ss + [t], sts + [st];
    forall k | 0 <= k < |uts| && Sound(us[k])
      ensures Next(us[k], uts[k], us[k + 1])
    {
      if k < |sts| { assert sts[k] == uts[k]; }
    }
  }

  lemma CanBeRead(s: State, v: int, off: int, m: Flat)
    requires Sound(s) && Legal(s, v) && Resident(s, s.cur, v) && Represents(s, m, NFRAMES) && 0 <= off < NBPG
    ensures CanTouch(s, v, off) && Backed(s, v) && 0 <= TouchSlot(s, v) < NSLOTS
    ensures Result(s, Reads(v, off)) == m[TouchSlot(s, v)][off]
  {
    hide Inv, Represents, NoOrphans, Resident;
    ReadIsTransparent(s, v, off, m);
  }

  /** A load that can end well is a run of at most two steps, of which the last reads the byte of
      the flat memory. */
  lemma LoadCompletes(s: State, v: int, off: int, m: Flat) returns (ss: seq<State>, sts: seq<Step>)
    requires Touchable(s, v) && Reachable(s, v) && Represents(s, m, NFRAMES) && 0 <= off < NBPG
    ensures IsRun(ss, sts) && ss[0] == s && 1 <= |sts| <= 2 && sts[|sts| - 1] == Reads(v, off)
    ensures var t := ss[|sts| - 1];
      Sound(t) && CanTouch(t, v, off) && Backed(t, v) && 0 <= TouchSlot(s, v) < NSLOTS && Result(t, Reads(v, off)) == m[TouchSlot(s, v)][off]
  {
    hide Inv, PageIn, FaultSafe, Represents, NoOrphans, Resident, Lookup, SlotOf, TouchSlot, Touchable, Reachable, Backed, IsRun, Next;
    ss, sts := Arrives(s, v, off, m);
    var t := ss[|sts|];
    ReadsThere(t, v, off, m);
    GoesOn(ss, sts, Reads(v, off), Read(t, v, off).0);
    ss, sts := ss + [Read(t, v, off).0], sts + [Reads(v, off)];
  }

  lemma ReadsThere(t: State, v: int, off: int, m: Flat)
    requires Sound(t) && Represents(t, m, NFRAMES) && CanTouch(t, v, off) && Backed(t, v)
    ensures Next(t, Reads(v, off), Read(t, v, off).0)
    ensures 0 <= TouchSlot(t, v) < NSLOTS && Result(t, Reads(v, off)) == m[TouchSlot(t, v)][off]
  {
    hide Inv, Represents, NoOrphans, Resident;
    ReadIsTransparent(t, v, off, m);
    InvParts(t, -1, -1);
    SlotBounds(t.bsm, t.cur, v);
  }

  /** A store that can end well is a run of at most two steps that changes exactly its byte of
      the flat memory. */
  lemma StoreCompletes(s: State, v: int, off: int, b: Byte, m: Flat) returns (ss: seq<State>, sts: seq<Step>)
    requires Touchable(s, v) && Reachable(s, v) && Represents(s, m, NFRAMES) && 0 <= off < NBPG
    ensures IsRun(ss, sts) && ss[0] == s && 1 <= |sts| <= 2 && sts[|sts| - 1] == Writes(v, off, b)
    ensures 0 <= TouchSlot(s, v) < NSLOTS && Sound(ss[|sts|]) && Represents(ss[|sts|], Updated(m, TouchSlot(s, v), off, b), NFRAMES)
  {
    hide Inv, PageIn, FaultSafe, Represents, NoOrphans, Resident, Lookup, SlotOf, TouchSlot, Touchable, Reachable, Backed, IsRun, Next;
    ss, sts := Arrives(s, v, off, m);
    var t := ss[|sts|];
    WritesThere(t, v, off, b, m);
    GoesOn(ss, sts, Writes(v, off, b), Write(t, v, off, b));
    ss, sts := ss + [Write(t, v, off, b)], sts + [Writes(v, off, b)];
  }

  lemma WritesThere(t: State, v: int, off: int, b: Byte, m: Flat)
    requires Sound(t) && Represents(t, m, NFRAMES) && CanTouch(t, v, off) && Backed(t, v) && 0 <= TouchSlot(t, v) < NSLOTS
    ensures
      var u := Write(t, v, off, b);
      Next(t, Writes(v, off, b), u) && Sound(u) && Represents(u, Updated(m, TouchSlot(t, v), off, b), NFRAMES)
  {
    hide Inv, Represents, NoOrphans, Resident, TouchSlot;
    StepRefines(t, Writes(v, off, b), Write(t, v, off, b), m);
  }

  // ------------------------------------------------------------------------ other steps

  /** A live process can be killed, and is then gone with all its frames and mappings. */
  lemma DeathCompletes(s: State, p: int, m: Flat)
    requires Sound(s) && Represents(s, m, NFRAMES) && 0 < p && Live(s, p) && p != s.cur
    ensures
      exists t ::
        && Next(s, Kills(p), t) && Sound(t) && Represents(t, m, NFRAMES) && !Live(t, p) && NoMapping(t.bsm, p)
        && forall j {:trigger t.frm[j]} :: IsFrame(j) && t.frm[j].mapped ==> t.frm[j].pid != p
  {
    hide Inv, Kill, Represents, NoOrphans, NoMapping;
    var t := Kill(s, p);
    KillLeaksNothing(s, p);
    assert Next(s, Kills(p), t);
    StepRefines(s, Kills(p), t, m);
  }

  /** The running process can leave it to any other live one. */
  lemma ExitCompletes(s: State, next: int, m: Flat)
    requires Sound(s) && Represents(s, m, NFRAMES) && 0 < s.cur && Live(s, s.cur) && Live(s, next) && next != s.cur
    ensures exists t :: Next(s, Exits(next), t) && Sound(t) && Represents(t, m, NFRAMES) && t.cur == next && !Live(t, s.cur)
  {
    hide Inv, Kill, SwitchTo, Represents, NoOrphans;
    var u := Kill(s, s.cur);
    KillForgets(s, s.cur);
    KillKeepsInv(s, s.cur);
    SwitchShape(u, next);
    var t := SwitchTo(u, next);
    assert Next(s, Exits(next), t);
    StepRefines(s, Exits(next), t, m);
  }

  /** A free slot can become a process, if the frame for its directory reads as empty. */
  lemma BirthCompletes(s: State, p: int, m: Flat)
    requires Sound(s) && Represents(s, m, NFRAMES) && IsPid(p) && !Live(s, p) && Fit(s)
    ensures exists t :: Next(s, Creates(p), t) && Sound(t) && Represents(t, m, NFRAMES) && Live(t, p) && t.proc[p].store == NO_STORE
  {
    hide Inv, Create, Represents, NoOrphans, StaleClear, GetFrm;
    CreateMakes(s, p);
    var t := Create(s, p).value;
    assert Next(s, Creates(p), t);
    StepRefines(s, Creates(p), t, m);
  }

  /** And with a heap, if a store is closed. */
  lemma HeapBirthCompletes(s: State, p: int, n: int, m: Flat)
    requires Sound(s) && Represents(s, m, NFRAMES) && IsPid(p) && !Live(s, p) && 1 <= n <= MAX_BS_PAGES
    requires FirstClosed(s.bsm, 0) < MAX_NUM_BS && Fit(Mapped(s, p, FirstClosed(s.bsm, 0), n))
    ensures
      var b := FirstClosed(s.bsm, 0);
      exists t ::
        && Next(s, Vcreates(p, n), t) && Sound(t) && Live(t, p)
        && t.proc[p].store == b && t.bsm[b] == Store(true, n, true, [Mapping(p, MIN_VPNO, n)])
  {
    hide Inv, Vcreate, Represents, NoOrphans, StaleClear, GetFrm;
    VcreateMakes(s, p, n);
    var t := Vcreate(s, p, n).value.0;
    assert Next(s, Vcreates(p, n), t);
    StepRefines(s, Vcreates(p, n), t, m);
  }

  /** A page that the running process has mapped can be unmapped, and then is not mapped. */
  lemma UnmapCompletes(s: State, v: int, m: Flat)
    requires Sound(s) && Represents(s, m, NFRAMES) && Live(s, s.cur) && Unmappable(s, s.cur, v)
    ensures exists t :: Next(s, Unmaps(v), t) && Sound(t) && Represents(t, m, NFRAMES) && Lookup(t.bsm, s.cur, v).None?
  {
    hide Inv, Represents, NoOrphans, Lookup, FreePages, Released, MapOk, StoreAfter;
    InvParts(s, -1, -1);
    var t := Xmunmap(s, v).value;
    var h := Lookup(s.bsm, s.cur, v).value;
    assert Next(s, Unmaps(v), t);
    StepRefines(s, Unmaps(v), t, m);
    LookupCovers(s.bsm, s.cur, v);
    UnmapReleases(s, s.cur, v);
    UnmapLookup(s.bsm, h, s.cur, v);
  }

  /** Either policy can be selected at any time. */
  lemma PolicyCompletes(s: State, p: Policy, m: Flat)
    requires Sound(s) && Represents(s, m, NFRAMES)
    ensures exists t :: Next(s, SetsPolicy(p), t) && Sound(t) && Represents(t, m, NFRAMES) && t.policy == p
  {
    hide Inv, Represents, NoOrphans;
    var t := SetPolicy(s, p);
    assert Next(s, SetsPolicy(p), t);
    StepRefines(s, SetsPolicy(p), t, m);
  }
}
