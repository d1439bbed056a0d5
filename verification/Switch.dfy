/** The memory side of sys/resched.c: the process that gives up the processor flushes its
    dirty pages if it uses public stores, and the one that gets it reloads its pages. */
module Switch {
  import opened Machine
  import opened BackingStore
  import opened Frames
  import opened PagingInv
  import opened Tweak
  import opened FreeFrame

  // ------------------------------------------------------------- changing page contents

  /** Only contents of data pages differ. */
  ghost predicate DataOnly(s: State, s2: State) {
    s2 == s.(phys := s2.phys)
    && forall n {:trigger s2.phys[n]} {:trigger s.phys[n]} :: 0 <= n < NPAGES ==>
      s2.phys[n] == s.phys[n] || (s2.phys[n].Data? && s.phys[n].Data?)
  }

  lemma DataOnlyLinks(s: State, s2: State, i: int)
    requires DataOnly(s, s2) && IsFrame(i)
    ensures Linked(s, i) <==> Linked(s2, i)
    ensures Linked(s, i) ==> EntryOf(s, i) == EntryOf(s2, i) && Loc(s, i) == Loc(s2, i) && TableOf(s, i) == TableOf(s2, i)
  {
  }

  lemma DataOnlyDirs(s: State, s2: State)
    requires DataOnly(s, s2) && DirsOk(s) && DirFramesOk(s) && PdesOk(s) && PdesDistinct(s)
    ensures DirsOk(s2) && DirFramesOk(s2) && PdesOk(s2) && PdesDistinct(s2)
  {
    forall p | Live(s2, p)
      ensures DirOk(s2, p)
    {
      assert DirOk(s, p);
      forall d | 0 <= d < 4
        ensures PdeAt(s2, p, d) == Pde(true, FRAME0 + d)
      {
        assert PdeAt(s, p, d) == Pde(true, FRAME0 + d);
      }
    }
    forall p, d | Live(s2, p) && HasDir(s2, p) && 4 <= d < NENTRIES
      ensures HasDir(s, p) && PdeAt(s2, p, d) == PdeAt(s, p, d)
    {
    }
  }

  lemma DataOnlyTables(s: State, s2: State, fill: int)
    requires DataOnly(s, s2) && TablesOk(s, fill) && PtesOk(s)
    ensures TablesOk(s2, fill) && PtesOk(s2)
  {
    forall t | TblFrame(s2, t)
      ensures TableOk(s2, t, fill)
    {
      assert TableOk(s, t, fill);
    }
    forall t, k | TblFrame(s2, t) && IsTable(s2, t) && 0 <= k < NENTRIES && PteAt(s2, t, k).pres
      ensures PteBacked(s2, t, k)
    {
      assert PteAt(s, t, k) == PteAt(s2, t, k);
      assert PteBacked(s, t, k);
    }
  }

  lemma DataOnlyTree(s: State, s2: State, fill: int)
    requires DataOnly(s, s2) && TreeOk(s, fill)
    ensures TreeOk(s2, fill)
  {
    DataOnlyDirs(s, s2);
    DataOnlyTables(s, s2, fill);
    forall i | PageFrame(s2, i)
      ensures PageOk(s2, i)
    {
      assert PageOk(s, i);
    }
    forall t | 0 <= t < 4
      ensures GlobalOk(s2, t)
    {
      assert GlobalOk(s, t);
    }
  }

  lemma DataOnlyInv(s: State, s2: State, fill: int, pend: int)
    requires DataOnly(s, s2) && Inv(s, fill, pend)
    ensures Inv(s2, fill, pend)
  {
    DataOnlyTree(s, s2, fill);
    SameTreeOwners(s, s2);
    forall i | IsFrame(i) && Dirty(s2, i)
      ensures s2.frm[i].pid == s2.cur || s2.proc[s2.frm[i].pid].store != PUBLIC
    {
      DataOnlyLinks(s, s2, i);
      assert Dirty(s, i);
    }
  }

  // -------------------------------------------------------------------------- flushing

  /** One page written to its store, its dirty bit cleared. */
  function FlushOne(s: State, i: int): State
    requires Linked(s, i)
  {
    SetPte(WriteBack(s, i), TableOf(s, i), Pti(s.frm[i].vpno), EntryOf(s, i).(dirty := false))
  }

  function WriteBack(s: State, i: int): State
    requires Linked(s, i)
  {
    s.(phys := s.phys[SlotPage(Loc(s, i)) := s.phys[FRAME0 + i]])
  }

  predicate Flushes(s: State, p: int, i: int) { Dirty(s, i) && s.frm[i].pid == p }

  /** The dirty pages of process p in frames below n. */
  function Flush(s: State, p: int, n: nat): State
    requires n <= NFRAMES
  {
    if n == 0 then s
    else
      var s1 := Flush(s, p, n - 1);
      if Flushes(s1, p, n - 1) then FlushOne(s1, n - 1) else s1
  }

  /** Replacing the dirty bit of one entry: what it means for every frame. */
  lemma FlushOneFrames(s: State, i: int, j: int)
    requires PagesOk(s) && FramesOk(s) && PageFrame(s, i) && IsFrame(j)
    ensures Linked(s, i) && DataOnly(s, WriteBack(s, i))
    ensures
      var s2 := FlushOne(s, i);
      (Linked(s2, j) <==> Linked(s, j))
      && (Linked(s, j) ==> Loc(s2, j) == Loc(s, j) && (Dirty(s2, j) <==> Dirty(s, j) && j != i))
      && (Linked(s, j) ==> s2.phys[FRAME0 + j] == s.phys[FRAME0 + j])
  {
    assert PageOk(s, i);
    var s1 := WriteBack(s, i);
    DataOnlyLinks(s, s1, i);
    DataOnlyLinks(s, s1, j);
    WriteBackPages(s, i);
    SetEntry(s1, i, EntryOf(s, i).(dirty := false), j);
    if Linked(s, j) { assert PageOk(s, j); }
  }

  lemma WriteBackPages(s: State, i: int)
    requires PagesOk(s) && FramesOk(s) && PageFrame(s, i)
    ensures Linked(s, i) && PagesOk(WriteBack(s, i)) && DataOnly(s, WriteBack(s, i))
  {
    assert PageOk(s, i);
    var s1 := WriteBack(s, i);
    forall j | PageFrame(s1, j)
      ensures PageOk(s1, j)
    {
      assert PageOk(s, j);
    }
  }

  lemma FlushOneInv(s: State, i: int, fill: int, pend: int)
    requires Inv(s, fill, pend) && PageFrame(s, i)
    ensures Linked(s, i) && Inv(FlushOne(s, i), fill, pend)
  {
    WriteBackPages(s, i);
    var s1 := WriteBack(s, i);
    DataOnlyInv(s, s1, fill, pend);
    DataOnlyLinks(s, s1, i);
    SetPteKeepsTree(s1, TableOf(s, i), Pti(s.frm[i].vpno), EntryOf(s, i).(dirty := false), fill);
    SameTreeOwners(s, FlushOne(s, i));
    FlushOneClean(s, i);
  }

  lemma FlushOneClean(s: State, i: int)
    requires PagesOk(s) && FramesOk(s) && CleanOk(s) && PageFrame(s, i)
    ensures Linked(s, i) && CleanOk(FlushOne(s, i))
  {
    FlushOneFrames(s, i, i);
    var s2 := FlushOne(s, i);
    forall j | IsFrame(j) && Dirty(s2, j)
      ensures s2.frm[j].pid == s2.cur || s2.proc[s2.frm[j].pid].store != PUBLIC
    {
      FlushOneFrames(s, i, j);
      assert Dirty(s, j);
    }
  }

  lemma FlushOneMemory(s: State, i: int, m: Flat, n: int)
    requires PagesOk(s) && FramesOk(s) && PageFrame(s, i) && Dirty(s, i) && Represents(s, m, n)
    ensures Represents(FlushOne(s, i), m, n)
  {
    var s2 := FlushOne(s, i);
    forall j | IsFrame(j)
      ensures Linked(s2, j) <==> Linked(s, j)
      ensures Linked(s, j) ==> Loc(s2, j) == Loc(s, j) && (Dirty(s2, j) <==> Dirty(s, j) && j != i)
      ensures Linked(s, j) ==> s2.phys[FRAME0 + j] == s.phys[FRAME0 + j]
    {
      FlushOneFrames(s, i, j);
    }
    forall j | IsFrame(j) && Linked(s2, j) && Fresh(s2, j, n) && 0 <= Loc(s2, j) < NSLOTS
      ensures s2.phys[FRAME0 + j] == Data(m[Loc(s2, j)])
    {
      assert Fresh(s, j, n);
    }
    assert Fresh(s, i, n);
    forall x | 0 <= x < NSLOTS && !DirtyAt(s2, x)
      ensures s2.phys[SlotPage(x)] == Data(m[x])
    {
      if x != Loc(s, i) {
        forall j | IsFrame(j) && Dirty(s, j) && Loc(s, j) == x
          ensures Dirty(s2, j) && Loc(s2, j) == x
        {
        }
        assert !DirtyAt(s, x);
      }
    }
  }

  lemma {:induction false} FlushInv(s: State, p: int, n: nat)
    requires Valid(s) && n <= NFRAMES
    ensures Valid(Flush(s, p, n)) && Flush(s, p, n) == s.(phys := Flush(s, p, n).phys)
  {
    hide Inv;
    if n > 0 {
      FlushInv(s, p, n - 1);
      var s1 := Flush(s, p, n - 1);
      if Flushes(s1, p, n - 1) {
        FlushOneInv(s1, n - 1, -1, -1);
      }
    }
  }

  lemma FlushOneCleans(s: State, p: int, k: int, i: int)
    requires PagesOk(s) && FramesOk(s) && IsFrame(k) && IsFrame(i)
    requires Dirty(if Flushes(s, p, k) then FlushOne(s, k) else s, i)
    ensures Dirty(s, i) && !(s.frm[i].pid == p && i == k)
  {
    if Flushes(s, p, k) { FlushOneFrames(s, k, i); }
  }

  /** A flush makes no page dirty and leaves none of the process's pages dirty. */
  lemma {:induction false} FlushCleans(s: State, p: int, n: nat, i: int)
    requires Valid(s) && n <= NFRAMES && IsFrame(i) && Dirty(Flush(s, p, n), i)
    ensures Dirty(s, i) && !(s.frm[i].pid == p && i < n)
  {
    hide Inv, PagesOk, FramesOk, Flushes, FlushOne, Dirty;
    if n > 0 {
      var s1 := Flush(s, p, n - 1);
      FlushInv(s, p, n - 1);
      InvParts(s1, -1, -1);
      FlushOneCleans(s1, p, n - 1, i);
      FlushCleans(s, p, n - 1, i);
    }
  }

  lemma {:induction false} FlushMemory(s: State, p: int, n: nat, m: Flat, k: int)
    requires Valid(s) && n <= NFRAMES && Represents(s, m, k)
    ensures Represents(Flush(s, p, n), m, k)
  {
    hide Inv, PagesOk, FramesOk, Represents;
    if n > 0 {
      FlushInv(s, p, n - 1);
      FlushMemory(s, p, n - 1, m, k);
      var s1 := Flush(s, p, n - 1);
      InvParts(s1, -1, -1);
      if Flushes(s1, p, n - 1) {
        FlushOneMemory(s1, n - 1, m, k);
      }
    }
  }

  // ------------------------------------------------------------------------- reloading

  function LoadOne(s: State, i: int): State
    requires Linked(s, i)
  {
    s.(phys := s.phys[FRAME0 + i := s.phys[SlotPage(Loc(s, i))]])
  }

  predicate Loads(s: State, p: int, i: int) { Linked(s, i) && s.frm[i].pid == p }

  /** The resident pages of process p in frames below n, read from their stores. */
  function Load(s: State, p: int, n: nat): State
    requires n <= NFRAMES
  {
    if n == 0 then s
    else
      var s1 := Load(s, p, n - 1);
      if Loads(s1, p, n - 1) then LoadOne(s1, n - 1) else s1
  }

  /** No dirty page belongs to a process that uses public stores. */
  ghost predicate AllFlushed(s: State) {
    forall i {:trigger s.frm[i]} :: IsFrame(i) && Dirty(s, i) ==> s.proc[s.frm[i].pid].store != PUBLIC
  }

  lemma LoadOneInv(s: State, i: int)
    requires Valid(s) && Linked(s, i)
    ensures Valid(LoadOne(s, i)) && DataOnly(s, LoadOne(s, i))
  {
    assert PageOk(s, i);
    DataOnlyInv(s, LoadOne(s, i), -1, -1);
  }

  lemma LoadOneFlushed(s: State, s2: State)
    requires DataOnly(s, s2) && AllFlushed(s)
    ensures AllFlushed(s2)
  {
    forall i | IsFrame(i) && Dirty(s2, i)
      ensures s2.proc[s2.frm[i].pid].store != PUBLIC
    {
      DataOnlyLinks(s, s2, i);
      assert Dirty(s, i);
    }
  }

  /** The store page behind a page of the running process is up to date at the switch. */
  lemma LoadSource(s: State, i: int, m: Flat)
    requires Valid(s) && AllFlushed(s) && Linked(s, i) && s.frm[i].pid == s.cur && s.proc[s.cur].store == PUBLIC
    requires Represents(s, m, i)
    ensures 0 <= Loc(s, i) < NSLOTS && s.phys[SlotPage(Loc(s, i))] == Data(m[Loc(s, i)])
  {
    assert PageOk(s, i);
    forall j | IsFrame(j) && Dirty(s, j)
      ensures Loc(s, j) != Loc(s, i)
    {
      if Loc(s, j) == Loc(s, i) {
        SameSlot(s, j, i, NFRAMES);
      }
    }
    assert !DirtyAt(s, Loc(s, i));
  }

  lemma LoadOneMemory(s: State, i: int, m: Flat)
    requires PagesOk(s) && Linked(s, i) && 0 <= Loc(s, i) < NSLOTS && s.phys[SlotPage(Loc(s, i))] == Data(m[Loc(s, i)])
    requires Represents(s, m, i)
    ensures Represents(LoadOne(s, i), m, i + 1)
  {
    assert PageOk(s, i);
    var s2 := LoadOne(s, i);
    assert DataOnly(s, s2);
    forall j | IsFrame(j)
      ensures Linked(s2, j) <==> Linked(s, j)
      ensures Linked(s, j) ==> Loc(s2, j) == Loc(s, j) && (Dirty(s2, j) <==> Dirty(s, j))
    {
      DataOnlyLinks(s, s2, j);
    }
    forall j | IsFrame(j) && Linked(s2, j) && Fresh(s2, j, i + 1) && 0 <= Loc(s2, j) < NSLOTS
      ensures s2.phys[FRAME0 + j] == Data(m[Loc(s2, j)])
    {
      assert j != i ==> Fresh(s, j, i);
    }
    forall y | 0 <= y < NSLOTS && !DirtyAt(s2, y)
      ensures !DirtyAt(s, y)
    {
      forall j | IsFrame(j) && Dirty(s, j) && Loc(s, j) == y
        ensures Dirty(s2, j) && Loc(s2, j) == y
      {
      }
    }
  }

  lemma SkipMemory(s: State, i: int, m: Flat)
    requires Represents(s, m, i) && !Loads(s, s.cur, i)
    ensures Represents(s, m, i + 1)
  {
    forall j | IsFrame(j) && Linked(s, j) && Fresh(s, j, i + 1) && 0 <= Loc(s, j) < NSLOTS
      ensures s.phys[FRAME0 + j] == Data(m[Loc(s, j)])
    {
      assert Fresh(s, j, i);
    }
  }

  lemma {:induction false} LoadInv(s: State, p: int, n: nat)
    requires Valid(s) && n <= NFRAMES && AllFlushed(s)
    ensures Valid(Load(s, p, n)) && AllFlushed(Load(s, p, n)) && DataOnly(s, Load(s, p, n))
  {
    hide Inv;
    if n > 0 {
      LoadInv(s, p, n - 1);
      var s1 := Load(s, p, n - 1);
      if Loads(s1, p, n - 1) {
        LoadOneInv(s1, n - 1);
        LoadOneFlushed(s1, LoadOne(s1, n - 1));
      }
    }
  }

  lemma {:induction false} LoadMemory(s: State, n: nat, m: Flat)
    requires Valid(s) && n <= NFRAMES && AllFlushed(s) && s.proc[s.cur].store == PUBLIC && Represents(s, m, 0)
    ensures Represents(Load(s, s.cur, n), m, n)
  {
    hide Inv, Represents, PagesOk;
    if n > 0 {
      LoadInv(s, s.cur, n - 1);
      LoadMemory(s, n - 1, m);
      var s1 := Load(s, s.cur, n - 1);
      InvParts(s1, -1, -1);
      if Loads(s1, s.cur, n - 1) {
        LoadSource(s1, n - 1, m);
        LoadOneMemory(s1, n - 1, m);
      } else {
        SkipMemory(s1, n - 1, m);
      }
    }
  }

  // ------------------------------------------------------------------------ the switch

  function Leave(s: State): State
    requires IsPid(s.cur)
  {
    if s.proc[s.cur].live && s.proc[s.cur].store == PUBLIC then Flush(s, s.cur, NFRAMES) else s
  }

  function Enter(s: State, next: int): State
    requires IsPid(next)
  {
    var s1 := s.(cur := next);
    if s.proc[next].store == PUBLIC then Load(s1, next, NFRAMES) else s1
  }

  /** The memory effect of `resched` when it hands the processor to `next`. */
  function SwitchTo(s: State, next: int): State
    requires IsPid(s.cur) && IsPid(next)
  {
    Enter(Leave(s), next)
  }

  lemma LeaveDirty(s: State, i: int)
    requires Valid(s) && IsFrame(i) && Dirty(Leave(s), i)
    ensures IsPid(s.frm[i].pid) && s.proc[s.frm[i].pid].store != PUBLIC
  {
    if s.proc[s.cur].live && s.proc[s.cur].store == PUBLIC {
      FlushCleans(s, s.cur, NFRAMES, i);
    }
    assert Dirty(s, i) && PageOk(s, i);
  }

  lemma LeaveFlushes(s: State)
    requires Valid(s)
    ensures Valid(Leave(s)) && AllFlushed(Leave(s)) && Leave(s) == s.(phys := Leave(s).phys)
  {
    FlushInv(s, s.cur, NFRAMES);
    forall i | IsFrame(i) && Dirty(Leave(s), i)
      ensures Leave(s).proc[Leave(s).frm[i].pid].store != PUBLIC
    {
      LeaveDirty(s, i);
    }
  }

  lemma ChangeCur(s: State, next: int)
    requires Valid(s) && AllFlushed(s) && IsPid(next)
    ensures Valid(s.(cur := next)) && AllFlushed(s.(cur := next))
  {
    var s2 := s.(cur := next);
    SameTreeOk(s, s2, -1);
    SameTreeOwners(s, s2);
    forall i | IsFrame(i) && Dirty(s2, i)
      ensures s2.proc[s2.frm[i].pid].store != PUBLIC
    {
      SameTreeLinks(s, s2, i);
      assert Dirty(s, i);
    }
  }

  lemma ChangeCurMemory(s: State, next: int, m: Flat, n: int)
    requires Represents(s, m, n)
    ensures Represents(s.(cur := next), m, 0)
  {
    var s2 := s.(cur := next);
    forall j | IsFrame(j) && Linked(s2, j) && Fresh(s2, j, 0) && 0 <= Loc(s2, j) < NSLOTS
      ensures s2.phys[FRAME0 + j] == Data(m[Loc(s2, j)])
    {
      SameTreeLinks(s, s2, j);
      assert Fresh(s, j, n);
    }
    forall x | 0 <= x < NSLOTS && !DirtyAt(s2, x)
      ensures !DirtyAt(s, x)
    {
      forall j | IsFrame(j) && Dirty(s, j) && Loc(s, j) == x
        ensures Dirty(s2, j) && Loc(s2, j) == x
      {
        SameTreeLinks(s, s2, j);
      }
    }
  }

  /** A context switch keeps the invariant. */
  lemma SwitchKeepsInv(s: State, next: int)
    requires Valid(s) && IsPid(next)
    ensures Valid(SwitchTo(s, next)) && AllFlushed(SwitchTo(s, next))
  {
    LeaveFlushes(s);
    ChangeCur(Leave(s), next);
    LoadInv(Leave(s).(cur := next), next, NFRAMES);
  }

  /** A context switch leaves the flat memory alone, and every resident page of the
      process that runs next agrees with it. */
  lemma SwitchKeepsMemory(s: State, next: int, m: Flat)
    requires Valid(s) && IsPid(next) && Represents(s, m, NFRAMES)
    ensures Represents(SwitchTo(s, next), m, NFRAMES)
  {
    LeaveFlushes(s);
    FlushMemory(s, s.cur, NFRAMES, m, NFRAMES);
    var s1 := Leave(s);
    ChangeCur(s1, next);
    ChangeCurMemory(s1, next, m, NFRAMES);
    var s2 := s1.(cur := next);
    if s2.proc[next].store == PUBLIC {
      LoadMemory(s2, NFRAMES, m);
    } else {
      PrivateFresh(s2, m);
    }
  }

  lemma PrivateFresh(s: State, m: Flat)
    requires IsPid(s.cur) && s.proc[s.cur].store != PUBLIC && Represents(s, m, 0)
    ensures Represents(s, m, NFRAMES)
  {
    forall j | IsFrame(j) && Linked(s, j) && Fresh(s, j, NFRAMES) && 0 <= Loc(s, j) < NSLOTS
      ensures s.phys[FRAME0 + j] == Data(m[Loc(s, j)])
    {
      assert Fresh(s, j, 0);
    }
  }
}
