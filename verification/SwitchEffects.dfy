/** What a context switch does to every page of memory: which store pages it writes, which frames
    it reads again, which pages it leaves clean. */
module SwitchEffects {
  import opened Machine
  import opened BackingStore
  import opened Frames
  import opened PagingInv
  import opened Tweak
  import opened FreeFrame
  import opened Switch

  // ------------------------------------------------------------------------------ flushing

  /** A frame below n holds unsaved changes of process p to store page x. */
  ghost predicate FlushesTo(s: State, p: int, n: nat, x: int) {
    exists i {:trigger Flushes(s, p, i)} :: PageFrame(s, i) && i < n && Flushes(s, p, i) && Loc(s, i) == x
  }

  /** Frame i after the flush of the frames below n. */
  ghost predicate FlushedFrame(s: State, s2: State, p: int, n: nat, i: int) {
    && Linked(s2, i) && Linked(s, i) && Loc(s2, i) == Loc(s, i) && 0 <= Loc(s, i) < NSLOTS
    && s2.phys[FRAME0 + i] == s.phys[FRAME0 + i]
    && (Dirty(s2, i) <==> Dirty(s, i) && !(s.frm[i].pid == p && i < n))
    && (Flushes(s, p, i) && i < n ==> s2.phys[SlotPage(Loc(s, i))] == s.phys[FRAME0 + i])
  }

  ghost predicate Flushed(s: State, s2: State, p: int, n: nat) {
    && s2 == s.(phys := s2.phys)
    && (forall i {:trigger s.frm[i]} {:trigger FlushedFrame(s, s2, p, n, i)} :: PageFrame(s, i) ==> FlushedFrame(s, s2, p, n, i))
    && (forall x {:trigger SlotPage(x)} {:trigger FlushesTo(s, p, n, x)} :: 0 <= x < NSLOTS && !FlushesTo(s, p, n, x) ==>
          s2.phys[SlotPage(x)] == s.phys[SlotPage(x)])
  }

  lemma FlushOneStores(s: State, i: int, x: int)
    requires PageFrame(s, i) && Linked(s, i) && 0 <= Loc(s, i) < NSLOTS && 0 <= x < NSLOTS
    ensures FlushOne(s, i).phys[SlotPage(x)] == if x == Loc(s, i) then s.phys[FRAME0 + i] else s.phys[SlotPage(x)]
    ensures FlushOne(s, i) == s.(phys := FlushOne(s, i).phys)
  {
    hide Lookup, SlotOf;
  }

  lemma NothingFlushed(s: State, p: int)
    requires PagesOk(s)
    ensures Flushed(s, s, p, 0)
  {
    hide PagesOk, Lookup, SlotOf;
    forall i | PageFrame(s, i)
      ensures FlushedFrame(s, s, p, 0, i)
    {
      PageThere(s, i);
    }
  }

  lemma PageThere(s: State, i: int)
    requires PagesOk(s) && PageFrame(s, i)
    ensures Linked(s, i) && 0 <= Loc(s, i) < NSLOTS
  {
    assert PageOk(s, i);
  }

  /** Unsaved changes of two frames belong to two store pages. */
  lemma TwoSlots(s: State, i: int, j: int)
    requires Valid(s) && IsFrame(i) && IsFrame(j) && Dirty(s, i) && Dirty(s, j) && i != j
    ensures Loc(s, i) != Loc(s, j)
  {
    hide Inv;
    InvParts(s, -1, -1);
    if Loc(s, i) == Loc(s, j) { SameSlot(s, i, j, NFRAMES); }
  }

  lemma FlushedMore(s: State, s1: State, p: int, i: nat, j: int)
    requires Valid(s) && PagesOk(s1) && FramesOk(s1) && Flushed(s, s1, p, i) && Flushes(s1, p, i) && i < NFRAMES && PageFrame(s, j)
    ensures FlushedFrame(s, FlushOne(s1, i), p, i + 1, j)
  {
    hide Inv, PagesOk, FramesOk, Lookup, SlotOf, FlushOne;
    assert s.frm[i] == s.frm[i];
    assert FlushedFrame(s, s1, p, i, i) && FlushedFrame(s, s1, p, i, j);
    FlushOneFrames(s1, i, j);
    FlushOneStores(s1, i, Loc(s, j));
    if Flushes(s, p, j) && j < i { TwoSlots(s, i, j); }
  }

  lemma FlushedStores(s: State, s1: State, p: int, i: nat, x: int)
    requires PagesOk(s1) && Flushed(s, s1, p, i) && Flushes(s1, p, i) && i < NFRAMES && 0 <= x < NSLOTS && !FlushesTo(s, p, i + 1, x)
    ensures FlushOne(s1, i).phys[SlotPage(x)] == s.phys[SlotPage(x)]
  {
    hide PagesOk, Lookup, SlotOf, FlushOne;
    assert s.frm[i] == s.frm[i];
    assert FlushedFrame(s, s1, p, i, i);
    FlushOneStores(s1, i, x);
    assert Flushes(s, p, i) && !FlushesTo(s, p, i, x);
  }

  lemma FlushedOne(s: State, s1: State, p: int, i: nat)
    requires Valid(s) && PagesOk(s1) && FramesOk(s1) && Flushed(s, s1, p, i) && Flushes(s1, p, i) && i < NFRAMES
    ensures Flushed(s, FlushOne(s1, i), p, i + 1)
  {
    hide Inv, PagesOk, FramesOk, Lookup, SlotOf, FlushOne, FlushedFrame, FlushesTo;
    forall j | PageFrame(s, j)
      ensures FlushedFrame(s, FlushOne(s1, i), p, i + 1, j)
    {
      FlushedMore(s, s1, p, i, j);
    }
    forall x | 0 <= x < NSLOTS && !FlushesTo(s, p, i + 1, x)
      ensures FlushOne(s1, i).phys[SlotPage(x)] == s.phys[SlotPage(x)]
    {
      FlushedStores(s, s1, p, i, x);
    }
    OnlyMemory(s1, i);
  }

  lemma OnlyMemory(s: State, i: int)
    requires Linked(s, i)
    ensures FlushOne(s, i) == s.(phys := FlushOne(s, i).phys)
  {
  }

  lemma FlushedSkip(s: State, s1: State, p: int, i: nat)
    requires Flushed(s, s1, p, i) && !Flushes(s1, p, i) && i < NFRAMES
    ensures Flushed(s, s1, p, i + 1)
  {
    hide Lookup, SlotOf;
    forall j | PageFrame(s, j)
      ensures FlushedFrame(s, s1, p, i + 1, j)
    {
      assert FlushedFrame(s, s1, p, i, j);
    }
    forall x | 0 <= x < NSLOTS && !FlushesTo(s, p, i + 1, x)
      ensures !FlushesTo(s, p, i, x)
    {
    }
  }

  /** The flush writes each dirty page of the process to its store page, and no other page. */
  lemma {:induction false} FlushDoes(s: State, p: int, n: nat)
    requires Valid(s) && n <= NFRAMES
    ensures Flushed(s, Flush(s, p, n), p, n)
  {
    hide Inv, Flushed, PagesOk, FramesOk, Flushes, FlushOne;
    if n == 0 {
      InvParts(s, -1, -1);
      NothingFlushed(s, p);
    } else {
      FlushDoes(s, p, n - 1);
      FlushInv(s, p, n - 1);
      var s1 := Flush(s, p, n - 1);
      InvParts(s1, -1, -1);
      if Flushes(s1, p, n - 1) { FlushedOne(s, s1, p, n - 1); } else { FlushedSkip(s, s1, p, n - 1); }
    }
  }

  // ----------------------------------------------------------------------------- reloading

  /** Frame i after the reload of the frames below n. */
  ghost predicate LoadedFrame(s: State, s2: State, p: int, n: nat, i: int) {
    Linked(s, i) && 0 <= Loc(s, i) < NSLOTS
    && s2.phys[FRAME0 + i] == if s.frm[i].pid == p && i < n then s.phys[SlotPage(Loc(s, i))] else s.phys[FRAME0 + i]
  }

  ghost predicate Loaded(s: State, s2: State, p: int, n: nat) {
    && (forall i {:trigger s.frm[i]} {:trigger LoadedFrame(s, s2, p, n, i)} :: PageFrame(s, i) ==> LoadedFrame(s, s2, p, n, i))
    && (forall x {:trigger SlotPage(x)} :: 0 <= x < NSLOTS ==> s2.phys[SlotPage(x)] == s.phys[SlotPage(x)])
  }

  lemma NothingLoaded(s: State, p: int)
    requires PagesOk(s)
    ensures Loaded(s, s, p, 0)
  {
    hide PagesOk, Lookup, SlotOf;
    forall i | PageFrame(s, i)
      ensures LoadedFrame(s, s, p, 0, i)
    {
      PageThere(s, i);
    }
  }

  lemma LoadedOne(s: State, s1: State, p: int, i: nat)
    requires DataOnly(s, s1) && Loaded(s, s1, p, i) && i < NFRAMES && Loads(s1, p, i)
    ensures Loaded(s, LoadOne(s1, i), p, i + 1)
  {
    hide Lookup, SlotOf, DataOnly, Linked;
    DataOnlyLinks(s, s1, i);
    var s2 := LoadOne(s1, i);
    assert s1.frm == s.frm by { SameFrames(s, s1); }
    LinkedPage(s1, i);
    assert LoadedFrame(s, s1, p, i, i);
    forall j | PageFrame(s, j)
      ensures LoadedFrame(s, s2, p, i + 1, j)
    {
      assert LoadedFrame(s, s1, p, i, j);
    }
  }

  lemma LinkedPage(s: State, i: int)
    requires Linked(s, i)
    ensures PageFrame(s, i)
  {
  }

  lemma SameFrames(s: State, s2: State)
    requires DataOnly(s, s2)
    ensures s2.frm == s.frm
  {
  }

  lemma LoadedSkip(s: State, s1: State, p: int, i: nat)
    requires DataOnly(s, s1) && Loaded(s, s1, p, i) && i < NFRAMES && !Loads(s1, p, i)
    ensures Loaded(s, s1, p, i + 1)
  {
    hide Lookup, SlotOf, DataOnly, Linked;
    DataOnlyLinks(s, s1, i);
    assert s1.frm == s.frm by { SameFrames(s, s1); }
    forall j | PageFrame(s, j)
      ensures LoadedFrame(s, s1, p, i + 1, j)
    {
      assert LoadedFrame(s, s1, p, i, j);
    }
  }

  lemma {:induction false} LoadDoes(s: State, p: int, n: nat)
    requires Valid(s) && n <= NFRAMES && AllFlushed(s)
    ensures Loaded(s, Load(s, p, n), p, n)
  {
    hide Inv, Loaded, PagesOk, Loads, LoadOne, DataOnly, AllFlushed;
    if n == 0 {
      InvParts(s, -1, -1);
      NothingLoaded(s, p);
    } else {
      LoadDoes(s, p, n - 1);
      LoadInv(s, p, n - 1);
      var s1 := Load(s, p, n - 1);
      if Loads(s1, p, n - 1) { LoadedOne(s, s1, p, n - 1); } else { LoadedSkip(s, s1, p, n - 1); }
    }
  }

  // ---------------------------------------------------------------------------- the switch

  /** The process that gives up the processor is live and uses public stores. */
  predicate Leaves(s: State) { IsPid(s.cur) && s.proc[s.cur].live && s.proc[s.cur].store == PUBLIC }

  /** Frame i before and after the flush at a switch. */
  ghost predicate LeftFrame(s: State, s1: State, i: int) {
    && Linked(s, i) && Linked(s1, i) && Loc(s1, i) == Loc(s, i) && 0 <= Loc(s, i) < NSLOTS
    && s1.phys[FRAME0 + i] == s.phys[FRAME0 + i]
    && (Dirty(s1, i) <==> Dirty(s, i) && !(Leaves(s) && s.frm[i].pid == s.cur))
    && (Leaves(s) && Flushes(s, s.cur, i) ==> s1.phys[SlotPage(Loc(s, i))] == s.phys[FRAME0 + i])
  }

  lemma LeaveFrame(s: State, i: int)
    requires Valid(s) && IsPid(s.cur) && PageFrame(s, i)
    ensures LeftFrame(s, Leave(s), i)
  {
    hide Inv, Flush, PagesOk, FlushesTo, Lookup, SlotOf, Linked;
    InvParts(s, -1, -1);
    PageThere(s, i);
    if Leaves(s) {
      FlushDoes(s, s.cur, NFRAMES);
      assert FlushedFrame(s, Leave(s), s.cur, NFRAMES, i);
    }
  }

  lemma LeaveStore(s: State, x: int)
    requires Valid(s) && IsPid(s.cur) && 0 <= x < NSLOTS && !(Leaves(s) && FlushesTo(s, s.cur, NFRAMES, x))
    ensures Leave(s).phys[SlotPage(x)] == s.phys[SlotPage(x)]
  {
    hide Inv, Flush, FlushesTo, FlushedFrame;
    if Leaves(s) { FlushDoes(s, s.cur, NFRAMES); }
  }

  /** Frame i before and after the reload at a switch. */
  ghost predicate EnteredFrame(s: State, s2: State, next: int, i: int)
    requires IsPid(next)
  {
    && Linked(s, i) && Linked(s2, i) && Loc(s2, i) == Loc(s, i) && 0 <= Loc(s, i) < NSLOTS && (Dirty(s2, i) <==> Dirty(s, i))
    && s2.phys[FRAME0 + i] == if s.frm[i].pid == next && s.proc[next].store == PUBLIC then s.phys[SlotPage(Loc(s, i))] else s.phys[FRAME0 + i]
  }

  lemma NewCur(s: State, next: int, i: int)
    requires Linked(s, i)
    ensures Linked(s.(cur := next), i) && Loc(s.(cur := next), i) == Loc(s, i) && (Dirty(s.(cur := next), i) <==> Dirty(s, i))
  {
    SameTreeLinks(s, s.(cur := next), i);
  }

  lemma EnterFrame(s: State, next: int, i: int)
    requires Valid(s) && AllFlushed(s) && IsPid(next) && PageFrame(s, i)
    ensures EnteredFrame(s, Enter(s, next), next, i)
  {
    hide Inv, Load, PagesOk, Lookup, SlotOf, Linked, AllFlushed, DataOnly;
    InvParts(s, -1, -1);
    PageThere(s, i);
    ChangeCur(s, next);
    NewCur(s, next, i);
    var s1 := s.(cur := next);
    if s.proc[next].store == PUBLIC {
      LoadInv(s1, next, NFRAMES);
      LoadDoes(s1, next, NFRAMES);
      DataOnlyLinks(s1, Load(s1, next, NFRAMES), i);
      assert LoadedFrame(s1, Load(s1, next, NFRAMES), next, NFRAMES, i);
    }
  }

  lemma EnterStore(s: State, next: int, x: int)
    requires Valid(s) && AllFlushed(s) && IsPid(next) && 0 <= x < NSLOTS
    ensures Enter(s, next).phys[SlotPage(x)] == s.phys[SlotPage(x)]
  {
    hide Inv, Load, AllFlushed, LoadedFrame;
    ChangeCur(s, next);
    if s.proc[next].store == PUBLIC { LoadDoes(s.(cur := next), next, NFRAMES); }
  }

  /** Frame i before and after a switch. */
  ghost predicate SwitchedFrame(s: State, s2: State, next: int, i: int)
    requires IsPid(next)
  {
    && Linked(s, i) && Linked(s2, i) && Loc(s2, i) == Loc(s, i) && 0 <= Loc(s, i) < NSLOTS
    && (Dirty(s2, i) <==> Dirty(s, i) && !(Leaves(s) && s.frm[i].pid == s.cur))
    && (Leaves(s) && Flushes(s, s.cur, i) ==> s2.phys[SlotPage(Loc(s, i))] == s.phys[FRAME0 + i])
    && s2.phys[FRAME0 + i] == if s.frm[i].pid == next && s.proc[next].store == PUBLIC then s2.phys[SlotPage(Loc(s, i))] else s.phys[FRAME0 + i]
  }

  /** The switch writes exactly the unsaved pages of a live process on public stores that leaves,
      each to its store page, and leaves them clean; it reads again exactly the pages of a process
      on public stores that comes, after that; it touches no other page of a store or frame. */
  lemma SwitchDoes(s: State, next: int)
    requires Valid(s) && IsPid(next)
    ensures IsPid(s.cur)
    ensures forall i {:trigger s.frm[i]} :: PageFrame(s, i) ==> SwitchedFrame(s, SwitchTo(s, next), next, i)
    ensures forall x {:trigger SlotPage(x)} :: 0 <= x < NSLOTS && !(Leaves(s) && FlushesTo(s, s.cur, NFRAMES, x)) ==>
      SwitchTo(s, next).phys[SlotPage(x)] == s.phys[SlotPage(x)]
  {
    hide Inv, Leave, Enter, PagesOk, FlushesTo, Lookup, SlotOf, Linked, AllFlushed, Leaves, Flushes;
    InvParts(s, -1, -1);
    LeaveFlushes(s);
    var s1 := Leave(s);
    forall i | PageFrame(s, i)
      ensures SwitchedFrame(s, SwitchTo(s, next), next, i)
    {
      LeaveFrame(s, i);
      EnterFrame(s1, next, i);
      EnterStore(s1, next, Loc(s, i));
    }
    forall x | 0 <= x < NSLOTS && !(Leaves(s) && FlushesTo(s, s.cur, NFRAMES, x))
      ensures SwitchTo(s, next).phys[SlotPage(x)] == s.phys[SlotPage(x)]
    {
      LeaveStore(s, x);
      EnterStore(s1, next, x);
    }
  }
}
