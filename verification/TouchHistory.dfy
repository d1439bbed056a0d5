/** What an access bit says: that the page has been touched since it was brought in, and since
    the hand of Second-Chance last passed it. Over whole runs, and with it which page
    Second-Chance evicts. */
module TouchHistory {
  import opened Machine
  import opened BackingStore
  import opened Frames
  import opened PagingInv
  import opened Tweak
  import opened FreeFrame
  import opened Replacement
  import opened GetFrame
  import opened PageFault
  import opened FaultStep
  import opened Switch
  import opened Access
  import opened Lifecycle
  import opened Death
  import opened Birth
  import opened HeapBirth
  import opened PagingRun
  import opened KernelFacts
  import AgeHistory

  // ---------------------------------------------------------------------- one call of get_frm

  /** get_frm has to search by Second-Chance, and the hand passes frame i before it stops; it
      goes all the way round if every page on the queue has been accessed. */
  ghost predicate Passed(c: State, i: int)
    requires PagesOk(c) && QueueNodes(c) && AgesOk(c)
  {
    && FirstFree(c.frm, 0) == NFRAMES && c.policy == SC && NextPos(c).Some? && GetFrm(c).Some? && i in c.queue
    && var order := Lap(c.queue, NextPos(c).value);
    SomeUnaccessed(c) ==> i in order[..IndexOf(order, GetFrm(c).value.1)]
  }

  /** The call neither hands frame i out nor has the hand pass it. */
  ghost predicate Spares(c: State, i: int)
    requires PagesOk(c) && QueueNodes(c) && AgesOk(c)
  {
    !Passed(c, i) && (GetFrm(c).Some? ==> GetFrm(c).value.1 != i)
  }

  /** The search clears the bits of the pages it passes, and no others; Aging clears none. */
  lemma SearchBits(c: State, i: int)
    requires PagesOk(c) && QueueNodes(c) && AgesOk(c) && FirstFree(c.frm, 0) == NFRAMES && GetFrame.Search(c).Some?
    requires PageFrame(c, i) && i in c.queue
    ensures Accessed(GetFrame.Search(c).value.0, i) <==> Accessed(c, i) && !Passed(c, i)
  {
    hide PagesOk, QueueNodes, AgesOk, AgeAll, SearchSC, GetFrm, SomeUnaccessed, Accessed, FreeFrm;
    FoundServes(c);
    if c.policy == SC {
      SecondChanceDefined(c);
      SecondChanceVictim(c);
    } else {
      AgingVictim(c);
      AgeBits(c, i);
    }
  }

  lemma FoundServes(c: State)
    requires PagesOk(c) && QueueNodes(c) && AgesOk(c) && FirstFree(c.frm, 0) == NFRAMES && GetFrame.Search(c).Some?
    ensures GetFrm(c).Some? && GetFrm(c).value.1 == GetFrame.Search(c).value.1
  {
    SearchKeepsPages(c);
  }

  lemma AgeBits(c: State, i: int)
    requires PageFrame(c, i) && PagesOk(c)
    ensures Accessed(AgeAll(c, c.queue), i) <==> Accessed(c, i)
  {
    hide WellMapped;
    assert PageOk(c, i);
  }

  /** A call of get_frm: of the pages that stay, exactly those keep their bit that it spares. */
  lemma GetFrmBits(c: State, fill: int, i: int)
    requires Inv(c, fill, -1) && GetFrm(c).Some?
    ensures PagesOk(c) && QueueNodes(c) && AgesOk(c)
    ensures Accessed(GetFrm(c).value.0, i) <==> Accessed(c, i) && Spares(c, i)
  {
    hide Inv, GetFrm, PagesOk, QueueNodes, AgesOk, FreeFrm, Accessed, Passed, GetFrame.Search;
    GetFrmReady(c, fill, -1);
    GetFrmCases(c);
    var f := GetFrm(c).value.1;
    if FirstFree(c.frm, 0) < NFRAMES {
      NotPassed(c, i);
      Queued(c, f, i);
      FreeIsBare(c);
    } else {
      EvictBits(c, fill, i);
    }
  }

  lemma NotPassed(c: State, i: int)
    requires PagesOk(c) && QueueNodes(c) && AgesOk(c) && FirstFree(c.frm, 0) < NFRAMES
    ensures !Passed(c, i)
  {
  }

  lemma FreeIsBare(c: State)
    requires FirstFree(c.frm, 0) < NFRAMES
    ensures !Accessed(c, FirstFree(c.frm, 0))
  {
  }

  /** Joining the queue changes no bit. */
  lemma Queued(s: State, f: int, i: int)
    requires IsFrame(f)
    ensures Accessed(Enqueue(s, f), i) <==> Accessed(s, i)
  {
  }

  lemma EvictBits(c: State, fill: int, i: int)
    requires Inv(c, fill, -1) && GetFrm(c).Some? && PagesOk(c) && QueueNodes(c) && AgesOk(c) && FirstFree(c.frm, 0) == NFRAMES
    ensures Accessed(GetFrm(c).value.0, i) <==> Accessed(c, i) && Spares(c, i)
  {
    hide Inv, GetFrm, PagesOk, QueueNodes, AgesOk, FreeFrm, Accessed, Passed, GetFrame.Search;
    GetFrmCases(c);
    var (s1, v) := GetFrame.Search(c).value;
    SearchShape(c);
    SearchKeepsInv(c, fill, -1);
    InvParts(s1, fill, -1);
    FreedBits(s1, v, fill, i);
    Queued(FreeFrm(s1, v), v, i);
    if PageFrame(c, i) {
      AgeHistory.OnQueue(c, fill, i);
      SearchBits(c, i);
    } else {
      Bare(c, i);
      Bare(s1, i);
    }
  }

  lemma Bare(s: State, i: int)
    requires !PageFrame(s, i)
    ensures !Accessed(s, i)
  {
  }

  /** free_frm leaves the bits of all other pages. */
  lemma FreedBits(s: State, v: int, fill: int, i: int)
    requires TreeOk(s, fill) && PageFrame(s, v)
    ensures Linked(s, v) && (Accessed(FreeFrm(s, v), i) <==> Accessed(s, i) && i != v)
  {
    hide TreeOk, FreeFrm;
    if IsFrame(i) {
      OthersUntouched(s, v, fill, i);
    } else {
      OthersUntouched(s, v, fill, v);
    }
  }

  // ------------------------------------------------------------------- steps that take no frame

  /** No page appears, and those that stay keep their bit. */
  ghost predicate BitsKept(s: State, s2: State) {
    forall i {:trigger s2.frm[i]} {:trigger Accessed(s2, i)} :: PageFrame(s2, i) ==> PageFrame(s, i) && (Accessed(s2, i) <==> Accessed(s, i))
  }

  lemma KeptTwice(s: State, s2: State, s3: State)
    requires BitsKept(s, s2) && BitsKept(s2, s3)
    ensures BitsKept(s, s3)
  {
    hide Accessed;
    forall i | PageFrame(s3, i)
      ensures PageFrame(s, i) && (Accessed(s3, i) <==> Accessed(s, i))
    {
      assert s3.frm[i] == s3.frm[i];
      assert s2.frm[i] == s2.frm[i];
    }
  }

  lemma DataBits(s: State, s2: State)
    requires DataOnly(s, s2)
    ensures BitsKept(s, s2)
  {
    hide DataOnly;
    assert s2.frm == s.frm by { DataFrames(s, s2); }
    forall i | PageFrame(s2, i)
      ensures Accessed(s2, i) <==> Accessed(s, i)
    {
      DataOnlyLinks(s, s2, i);
    }
  }

  lemma DataFrames(s: State, s2: State)
    requires DataOnly(s, s2)
    ensures s2.frm == s.frm
  {
  }

  lemma RemappedBits(s: State, s2: State)
    requires Remapped(s, s2)
    ensures BitsKept(s, s2)
  {
    hide Remapped;
    assert s2.frm == s.frm by { RemappedFrames(s, s2); }
    forall i | PageFrame(s2, i)
      ensures Accessed(s2, i) <==> Accessed(s, i)
    {
      RemappedLinks(s, s2, i);
    }
  }

  lemma RemappedFrames(s: State, s2: State)
    requires Remapped(s, s2)
    ensures s2.frm == s.frm
  {
  }

  /** Switching hand, policy or process. */
  lemma SameBits(s: State, s2: State)
    requires s2.frm == s.frm && s2.phys == s.phys && s2.proc == s.proc && s2.bsm == s.bsm
    ensures BitsKept(s, s2)
  {
    forall i | PageFrame(s2, i)
      ensures Accessed(s2, i) <==> Accessed(s, i)
    {
    }
  }

  /** A page written to its store loses its dirty bit only. */
  lemma FlushOneBits(s: State, i: int)
    requires PagesOk(s) && FramesOk(s) && PageFrame(s, i)
    ensures Linked(s, i) && BitsKept(s, FlushOne(s, i))
  {
    hide PagesOk, FramesOk, DataOnly;
    WriteBackPages(s, i);
    var s1 := WriteBack(s, i);
    DataOnlyLinks(s, s1, i);
    forall j | PageFrame(FlushOne(s, i), j)
      ensures Accessed(FlushOne(s, i), j) <==> Accessed(s, j)
    {
      DataOnlyLinks(s, s1, j);
      SetEntry(s1, i, EntryOf(s, i).(dirty := false), j);
    }
  }

  lemma {:induction false} FlushBits(s: State, p: int, n: nat)
    requires Valid(s) && n <= NFRAMES
    ensures BitsKept(s, Flush(s, p, n))
  {
    hide Inv, PagesOk, FramesOk, BitsKept, FlushOne, Accessed;
    if n == 0 {
      SameBits(s, s);
    } else {
      FlushBits(s, p, n - 1);
      FlushInv(s, p, n - 1);
      var s1 := Flush(s, p, n - 1);
      InvParts(s1, -1, -1);
      if Flushes(s1, p, n - 1) {
        FlushOneBits(s1, n - 1);
        KeptTwice(s, s1, FlushOne(s1, n - 1));
      }
    }
  }

  /** A context switch leaves every access bit. */
  lemma SwitchBits(s: State, next: int)
    requires Valid(s) && IsPid(next)
    ensures IsPid(s.cur) && BitsKept(s, SwitchTo(s, next))
  {
    hide Inv, BitsKept, Flush, Load, DataOnly;
    InvParts(s, -1, -1);
    LeaveFlushes(s);
    var s1 := Leave(s);
    FlushBits(s, s.cur, NFRAMES);
    SameBits(s, s);
    var s2 := s1.(cur := next);
    SameBits(s1, s2);
    ChangeCur(s1, next);
    LoadInv(s2, next, NFRAMES);
    DataBits(s2, Load(s2, next, NFRAMES));
    KeptTwice(s, s1, s2);
    KeptTwice(s, s2, Load(s2, next, NFRAMES));
  }

  lemma FreeOneBits(s: State, v: int)
    requires TreeOk(s, -1) && PageFrame(s, v)
    ensures Linked(s, v) && BitsKept(s, FreeFrm(s, v))
  {
    hide TreeOk, FreeFrm, Accessed;
    FreedBits(s, v, -1, v);
    forall i | PageFrame(FreeFrm(s, v), i)
      ensures PageFrame(s, i) && (Accessed(FreeFrm(s, v), i) <==> Accessed(s, i))
    {
      FreedBits(s, v, -1, i);
      FreedKind(s, v, i);
    }
  }

  lemma FreedKind(s: State, v: int, i: int)
    requires Linked(s, v) && PageFrame(FreeFrm(s, v), i)
    ensures PageFrame(s, i) && i != v
  {
  }

  lemma {:induction false} FreePagesBits(s: State, p: int, lo: int, hi: int, n: nat)
    requires Valid(s) && n <= NFRAMES
    ensures BitsKept(s, FreePages(s, p, lo, hi, n))
  {
    hide Inv, TreeOk, BitsKept, FreeFrm, Linked;
    if n == 0 {
      SameBits(s, s);
    } else {
      FreePagesBits(s, p, lo, hi, n - 1);
      FreePagesInv(s, p, lo, hi, n - 1);
      var s1 := FreePages(s, p, lo, hi, n - 1);
      InvParts(s1, -1, -1);
      if PageOf(s1, p, lo, hi, n - 1) {
        FreeOneBits(s1, n - 1);
        KeptTwice(s, s1, FreeFrm(s1, n - 1));
      }
    }
  }

  lemma RetiredBits(s: State, s2: State, p: int, f: int)
    requires Retired(s, s2, p, f) && PagesOk(s)
    ensures BitsKept(s, s2)
  {
    hide Retired, PagesOk;
    forall i | PageFrame(s2, i)
      ensures PageFrame(s, i) && (Accessed(s2, i) <==> Accessed(s, i))
    {
      RetiredPages(s, s2, p, f, i);
    }
  }

  lemma KillBits(s: State, p: int)
    requires Valid(s) && 0 < p && Live(s, p)
    ensures BitsKept(s, Kill(s, p))
  {
    hide Inv, Released, Retired, PagesOk, MapOk, FreePages, Kill, BitsKept;
    KillRetires(s, p);
    var s1 := FreePages(s, p, 0, NVPAGES, NFRAMES);
    InvParts(s1, -1, -1);
    FreePagesBits(s, p, 0, NVPAGES, NFRAMES);
    RetiredBits(s1, Kill(s, p), p, s.proc[p].pdbr - FRAME0);
    KeptTwice(s, s1, Kill(s, p));
  }

  lemma XmunmapBits(s: State, v: int)
    requires Valid(s) && Live(s, s.cur) && Xmunmap(s, v).Some?
    ensures BitsKept(s, Xmunmap(s, v).value)
  {
    hide Inv, Released, StoreAfter, FreePages, BitsKept, Remapped, PagesOk, MapOk;
    var mp := MappingAt(s, s.cur, v);
    UnmapReleases(s, s.cur, v);
    var s1 := FreePages(s, s.cur, mp.vpno, mp.vpno + mp.npages, NFRAMES);
    InvParts(s1, -1, -1);
    FreePagesBits(s, s.cur, mp.vpno, mp.vpno + mp.npages, NFRAMES);
    var s2 := BsmUnmap(s, s.cur, v);
    DropRemaps(s, s1, Lookup(s.bsm, s.cur, v).value, StoreAfter(s2, s2.cur));
    RemappedBits(s1, Xmunmap(s, v).value);
    KeptTwice(s, s1, Xmunmap(s, v).value);
  }

  // -------------------------------------------------------------------- steps that take frames

  lemma BornBits(s: State, p: int, f: int, pr: Proc, i: int)
    requires Unborn(s, p, f) && PagesOk(s) && DirsOk(s)
    ensures Accessed(MakeDir(s, p, f, pr), i) <==> Accessed(s, i)
  {
    hide Unborn, PagesOk, DirsOk, MakeDir, NewDir;
    if IsFrame(i) { BornPages(s, p, f, pr, i); }
  }

  lemma CreateBits(s: State, p: int, i: int)
    requires Sound(s) && IsPid(p) && !Live(s, p) && Create(s, p).Some?
    ensures PagesOk(s) && QueueNodes(s) && AgesOk(s)
    ensures Accessed(Create(s, p).value, i) <==> Accessed(s, i) && Spares(s, i)
  {
    hide Inv, GetFrm, PagesOk, QueueNodes, AgesOk, NoOrphans, OwnsRight, MakeDir, DirsOk, Accessed, Unborn, Spares, Create;
    GetFrmReady(s, -1, -1);
    CreateStart(s, p);
    var (s1, f) := GetFrm(s).value;
    InvParts(s1, -1, f);
    GetFrmBits(s, -1, i);
    BornBits(s1, p, f, Proc(true, 0, NO_STORE, 0, 0), i);
  }

  lemma HeapBits(s: State, s2: State, i: int)
    requires DataOnly(s, s2)
    ensures Accessed(s2, i) <==> Accessed(s, i)
  {
    hide DataOnly;
    assert s2.frm == s.frm by { DataFrames(s, s2); }
    if IsFrame(i) { DataOnlyLinks(s, s2, i); }
  }

  lemma MapBits(s: State, s2: State, i: int)
    requires Remapped(s, s2)
    ensures Accessed(s2, i) <==> Accessed(s, i)
  {
    hide Remapped;
    assert s2.frm == s.frm by { RemappedFrames(s, s2); }
    if IsFrame(i) { RemappedLinks(s, s2, i); }
  }

  /** From the state in which vcreate is given its frame. */
  lemma VcreateEndBits(s2: State, p: int, b: int, n: int, f: int, i: int)
    requires Inv(s2, -1, f) && Unborn(s2, p, f) && OneOwner(s2, p, b, n)
    ensures s2.phys[SlotPage(Slot(b, 0))].Data?
    ensures Accessed(InitHeap(MakeDir(SetPrivate(s2, b), p, f, Owner(b, n)), b, n), i) <==> Accessed(s2, i)
  {
    hide Inv, PagesOk, DirsOk, Remapped, HeapHead, Accessed;
    InvParts(s2, -1, f);
    PrivateInv(s2, p, b, n, f);
    var s3 := SetPrivate(s2, b);
    InvParts(s3, -1, f);
    MapBits(s2, s3, i);
    BornBits(s3, p, f, Owner(b, n), i);
    var s4 := MakeDir(s3, p, f, Owner(b, n));
    HeapBits(s4, InitHeap(s4, b, n), i);
  }

  lemma VcreateBits(s: State, p: int, n: int, i: int)
    requires Sound(s) && Spawnable(s, p) && Vcreate(s, p, n).Some? && Vcreate(s, p, n).value.1
    ensures 1 <= n <= MAX_BS_PAGES && FirstClosed(s.bsm, 0) < MAX_NUM_BS
    ensures
      var c := Mapped(s, p, FirstClosed(s.bsm, 0), n);
      PagesOk(c) && QueueNodes(c) && AgesOk(c) && (Accessed(Vcreate(s, p, n).value.0, i) <==> Accessed(s, i) && Spares(c, i))
  {
    hide Inv, GetFrm, PagesOk, QueueNodes, AgesOk, NoOrphans, Vcreate, HeapHead, MakeDir, Accessed, Unborn, OneOwner, Spares, Remapped, InitHeap, Spawnable;
    Prepared(s, p, n);
    var b := FirstClosed(s.bsm, 0);
    var c := Mapped(s, p, b, n);
    GetFrmReady(c, -1, -1);
    MapBits(s, c, i);
    GetFrmBits(c, -1, i);
    var (s2, f) := GetFrm(c).value;
    VcreateEndBits(s2, p, b, n, f, i);
  }

  /** The table that a fault adds. */
  lemma AddedBits(s: State, p: int, d: int, t: int, i: int)
    requires TableWanted(s, p, d, t) && PagesOk(s)
    ensures Accessed(AddTable(s, p, d, t), i) <==> Accessed(s, i)
  {
    hide TableWanted, PagesOk, AddTable;
    if IsFrame(i) { AddTablePages(s, p, d, t, i); }
  }

  lemma TableBits(s: State, v: int, i: int)
    requires Valid(s) && Legal(s, v) && HasDir(s, s.cur) && !PdeAt(s, s.cur, Pdi(v)).pres && TableFor(s, v).Some?
    ensures PagesOk(s) && QueueNodes(s) && AgesOk(s)
    ensures Accessed(TableFor(s, v).value.0, i) <==> Accessed(s, i) && Spares(s, i)
  {
    hide Inv, GetFrm, PagesOk, QueueNodes, AgesOk, Accessed, Spares, AddTable;
    GetFrmReady(s, -1, -1);
    InvParts(s, -1, -1);
    GetFrmBits(s, -1, i);
    var (s1, t) := GetFrm(s).value;
    GetFrmKeepsInv(s, -1);
    GetFrmGrants(s);
    GetFrmKeepsAbsent(s, s.cur, Pdi(v));
    InvParts(s1, -1, t);
    BlankPast(s1, t);
    AddedBits(s1, s.cur, Pdi(v), t, i);
  }

  /** A blank frame is none of the global tables. */
  lemma BlankPast(s: State, t: int)
    requires FramesOk(s) && IsFrame(t) && s.frm[t] == BLANK
    ensures 4 <= t
  {
    assert t < 4 ==> GlobalOk(s, t);
  }

  lemma PageBits(s: State, v: int, i: int)
    requires Valid(s) && Legal(s, v) && NotCached(s, s.cur, v) && PageIn(s, v).Some? && FaultSafe(s, v) && TableFor(s, v).Some?
    ensures
      var c := TableFor(s, v).value.0;
      PagesOk(c) && QueueNodes(c) && AgesOk(c) && (Accessed(PageIn(s, v).value, i) <==> Accessed(c, i) && Spares(c, i))
  {
    hide Inv, GetFrm, PagesOk, QueueNodes, AgesOk, Accessed, Spares, FillPage, NotCached, EvictsLast, PageWanted, TableFor, DirsOk, PdesDistinct, FramesOk;
    SafeForTable(s, v);
    var (c, t) := TableFor(s, v).value;
    GetFrmReady(c, t, -1);
    GetFrmBits(c, t, i);
    FillSurvivor(c, v, t);
    var (s2, f) := GetFrm(c).value;
    InvParts(s2, t, f);
    FilledBits(s2, c.cur, v, t, f, i);
    HandedBare(c, t);
  }

  /** The page brought in starts untouched; the others stay as they are. */
  lemma FilledBits(s: State, p: int, v: int, t: int, f: int, i: int)
    requires PageWanted(s, p, v, t, f) && NotCached(s, p, v) && PagesOk(s) && DirsOk(s) && PdesDistinct(s) && FramesOk(s)
    ensures IsTable(s, t) && IsFrame(f) && f != t && WellMapped(s.bsm, p, v)
    ensures Accessed(FillPage(s, p, v, t, f), i) <==> Accessed(s, i)
  {
    hide PagesOk, DirsOk, PdesDistinct, FramesOk, NotCached;
    if i == f {
      FilledPage(s, p, v, t, f);
    } else if IsFrame(i) {
      FillPages(s, p, v, t, f, i);
    }
  }

  lemma HandedBare(c: State, t: int)
    requires Inv(c, t, -1) && GetFrm(c).Some?
    ensures !Accessed(GetFrm(c).value.0, GetFrm(c).value.1)
  {
    hide Inv, GetFrm;
    GetFrmReady(c, t, -1);
    GetFrmGrants(c);
  }

  // ----------------------------------------------------------------------------- touches

  /** Frame i holds page v of the running process. */
  predicate Holds(s: State, v: int, i: int) { PageFrame(s, i) && s.frm[i].pid == s.cur && s.frm[i].vpno == v }

  lemma OneFrame(s: State, v: int, i: int, j: int)
    requires PagesOk(s) && Holds(s, v, i) && Holds(s, v, j)
    ensures i == j
  {
    assert PageOk(s, i) && PageOk(s, j);
  }

  lemma TouchBits(s: State, i: int, e: Pte, j: int)
    requires PagesOk(s) && PageFrame(s, i) && Linked(s, i) && SameLink(EntryOf(s, i), e) && e.acc
    ensures Accessed(SetPte(s, TableOf(s, i), Pti(s.frm[i].vpno), e), j) <==> Accessed(s, j) || j == i
  {
    hide PagesOk;
    if IsFrame(j) { SetEntry(s, i, e, j); }
    SetEntry(s, i, e, i);
  }

  lemma ReadBits(s: State, v: int, off: int, j: int)
    requires Sound(s) && CanTouch(s, v, off) && Backed(s, v)
    ensures Accessed(Read(s, v, off).0, j) <==> Accessed(s, j) || Holds(s, v, j)
  {
    hide Inv, PagesOk, PtesOk, PdesOk, PdesDistinct, NoOrphans, Accessed;
    InvParts(s, -1, -1);
    WalkFinds(s, v);
    var i := WalkEntry(s, v).base - FRAME0;
    TouchBits(s, i, EntryOf(s, i).(acc := true), j);
    if Holds(s, v, j) { OneFrame(s, v, i, j); }
  }

  lemma PutBits(s: State, n: int, off: int, b: Byte, j: int)
    requires 0 <= n < NPAGES && s.phys[n].Data? && 0 <= off < NBPG
    ensures Accessed(PutByte(s, n, off, b), j) <==> Accessed(s, j)
  {
    HeapBits(s, PutByte(s, n, off, b), j);
  }

  lemma WriteBits(s: State, v: int, off: int, b: Byte, j: int)
    requires Sound(s) && CanTouch(s, v, off) && Backed(s, v)
    ensures Accessed(Write(s, v, off, b), j) <==> Accessed(s, j) || Holds(s, v, j)
  {
    hide Inv, PagesOk, PtesOk, PdesOk, PdesDistinct, NoOrphans, Accessed, PutByte;
    InvParts(s, -1, -1);
    WalkFinds(s, v);
    var i := WalkEntry(s, v).base - FRAME0;
    var e := EntryOf(s, i).(acc := true, dirty := true);
    TouchBits(s, i, e, j);
    PutBits(SetPte(s, TableOf(s, i), Pti(s.frm[i].vpno), e), FRAME0 + i, off, b, j);
    if Holds(s, v, j) { OneFrame(s, v, i, j); }
  }

  // ----------------------------------------------------------------------------- one step

  /** The step reads or writes the page in frame i. */
  predicate Touches(s: State, st: Step, i: int) {
    match st
    case Reads(v, _) => Holds(s, v, i)
    case Writes(v, _, _) => Holds(s, v, i)
    case _ => false
  }

  ghost predicate SparesAt(c: State, i: int) {
    AgeHistory.Callable(c) && (AgeHistory.CallableReady(c); Spares(c, i))
  }

  /** None of the calls of get_frm in the step hands frame i out or passes it. */
  ghost predicate Spared(s: State, st: Step, i: int)
    requires Sound(s)
  {
    forall j {:trigger AgeHistory.Calls(s, st)[j]} :: 0 <= j < |AgeHistory.Calls(s, st)| ==> SparesAt(AgeHistory.Calls(s, st)[j], i)
  }

  /** After a step, a page has its bit set exactly if the step touches it, or it was set and
      the step spares it. */
  ghost predicate BitsAfter(s: State, st: Step, s2: State, i: int)
    requires Sound(s)
  {
    PageFrame(s2, i) ==>
      (Accessed(s2, i) <==> Touches(s, st, i) || (Accessed(s, i) && Spared(s, st, i))) && (!PageFrame(s, i) ==> !Spared(s, st, i))
  }

  lemma NoCalls(s: State, st: Step, i: int)
    requires Sound(s) && !st.Faults? && !st.Creates? && !st.Vcreates?
    ensures Spared(s, st, i)
  {
  }

  lemma KeptAfter(s: State, st: Step, s2: State, i: int)
    requires Sound(s) && BitsKept(s, s2) && !st.Faults? && !st.Creates? && !st.Vcreates? && !st.Reads? && !st.Writes?
    ensures BitsAfter(s, st, s2, i)
  {
    hide Sound, Spared, Accessed;
    NoCalls(s, st, i);
  }

  lemma TouchAfter(s: State, st: Step, s2: State, i: int)
    requires Sound(s) && (st.Reads? || st.Writes?) && s2.frm == s.frm
    requires Accessed(s2, i) <==> Accessed(s, i) || Touches(s, st, i)
    ensures BitsAfter(s, st, s2, i)
  {
    hide Sound, Spared, Accessed;
    NoCalls(s, st, i);
  }

  lemma OneCall(s: State, st: Step, c: State, i: int)
    requires Sound(s) && AgeHistory.Calls(s, st) == [c] && AgeHistory.Callable(c)
    ensures PagesOk(c) && QueueNodes(c) && AgesOk(c) && (Spared(s, st, i) <==> Spares(c, i))
  {
    hide Sound, Spares, AgeHistory.Callable, AgeHistory.Calls;
    AgeHistory.CallableReady(c);
    assert AgeHistory.Calls(s, st)[0] == c;
  }

  lemma TwoCalls(s: State, st: Step, c: State, d: State, i: int)
    requires Sound(s) && AgeHistory.Calls(s, st) == [c, d] && AgeHistory.Callable(c) && AgeHistory.Callable(d)
    ensures PagesOk(c) && QueueNodes(c) && AgesOk(c) && PagesOk(d) && QueueNodes(d) && AgesOk(d)
    ensures Spared(s, st, i) <==> Spares(c, i) && Spares(d, i)
  {
    hide Sound, Spares, AgeHistory.Callable, AgeHistory.Calls;
    AgeHistory.CallableReady(c);
    AgeHistory.CallableReady(d);
    assert AgeHistory.Calls(s, st)[0] == c && AgeHistory.Calls(s, st)[1] == d;
  }

  /** The frame that get_frm hands out holds no page after it, and no page appears. */
  lemma HandedOut(c: State, fill: int, i: int)
    requires Inv(c, fill, -1) && GetFrm(c).Some?
    ensures PageFrame(GetFrm(c).value.0, i) ==> PageFrame(c, i) && i != GetFrm(c).value.1
  {
    hide Inv, GetFrm;
    GetFrmReady(c, fill, -1);
    GetFrmGrants(c);
  }

  lemma CreateAfter(s: State, p: int, i: int)
    requires Sound(s) && IsPid(p) && !Live(s, p) && Create(s, p).Some?
    ensures BitsAfter(s, Creates(p), Create(s, p).value, i)
  {
    hide Inv, GetFrm, PagesOk, QueueNodes, AgesOk, NoOrphans, Accessed, Spares, Spared;
    CreateBits(s, p, i);
    GetFrmReady(s, -1, -1);
    assert AgeHistory.Callable(s) by { assert Inv(s, -1, -1); }
    OneCall(s, Creates(p), s, i);
    HandedOut(s, -1, i);
  }

  lemma VcreateAfter(s: State, p: int, n: int, i: int)
    requires Sound(s) && Spawnable(s, p) && Vcreate(s, p, n).Some? && Vcreate(s, p, n).value.1
    ensures BitsAfter(s, Vcreates(p, n), Vcreate(s, p, n).value.0, i)
  {
    hide Inv, GetFrm, PagesOk, QueueNodes, AgesOk, NoOrphans, Accessed, Spares, Spared, Vcreate, OneOwner, Remapped, HeapHead, NewDir;
    Prepared(s, p, n);
    VcreateBits(s, p, n, i);
    var c := Mapped(s, p, FirstClosed(s.bsm, 0), n);
    assert AgeHistory.Callable(c) by { assert Inv(c, -1, -1); }
    OneCall(s, Vcreates(p, n), c, i);
    HandedOut(c, -1, i);
  }

  /** Before a fault step the page is in no frame. */
  lemma FaultAbsent(s: State, v: int)
    requires Valid(s) && Legal(s, v) && !Resident(s, s.cur, v)
    ensures NotCached(s, s.cur, v)
  {
    hide Inv, PagesOk, PtesOk, PdesOk, PdesDistinct;
    InvParts(s, -1, -1);
    NotResident(s, v);
  }

  lemma PageAppears(s: State, v: int, i: int)
    requires Valid(s) && Legal(s, v) && NotCached(s, s.cur, v) && PageIn(s, v).Some? && FaultSafe(s, v) && TableFor(s, v).Some?
    ensures
      var c := TableFor(s, v).value.0;
      PagesOk(c) && QueueNodes(c) && AgesOk(c) && GetFrm(c).Some?
      && (PageFrame(PageIn(s, v).value, i) ==> PageFrame(c, i) || i == GetFrm(c).value.1)
  {
    hide Inv, GetFrm, PagesOk, QueueNodes, AgesOk, TableFor, NotCached, EvictsLast, FillPage;
    SafeForTable(s, v);
    var (c, t) := TableFor(s, v).value;
    GetFrmReady(c, t, -1);
    HandedOut(c, t, i);
    FillSurvivor(c, v, t);
    var (s2, f) := GetFrm(c).value;
    FilledKind(s2, c.cur, v, t, f, i);
  }

  lemma FilledKind(s: State, p: int, v: int, t: int, f: int, i: int)
    requires PageWanted(s, p, v, t, f)
    ensures PageFrame(FillPage(s, p, v, t, f), i) ==> PageFrame(s, i) || i == f
  {
  }

  lemma TableAppears(s: State, v: int, i: int)
    requires Valid(s) && Legal(s, v) && TableFor(s, v).Some? && PageFrame(TableFor(s, v).value.0, i)
    ensures PageFrame(s, i)
  {
    hide Inv, GetFrm;
    CurHasDir(s) by { InvParts(s, -1, -1); }
    GetFrmReady(s, -1, -1);
    if !PdeAt(s, s.cur, Pdi(v)).pres { HandedOut(s, -1, i); }
  }

  lemma FaultAfter(s: State, v: int, i: int)
    requires Sound(s) && Legal(s, v) && !Resident(s, s.cur, v) && FaultSafe(s, v) && PageIn(s, v).Some?
    ensures BitsAfter(s, Faults(v), PageIn(s, v).value, i)
  {
    hide Inv, GetFrm, PagesOk, QueueNodes, AgesOk, NoOrphans, Accessed, Spares, Spared, PageIn, TableFor, FaultSafe, NotCached, Resident;
    CurHasDir(s) by { InvParts(s, -1, -1); }
    FaultAbsent(s, v);
    AgeHistory.TableThere(s, v);
    TableForReady(s, v);
    var (c, t) := TableFor(s, v).value;
    assert AgeHistory.Callable(s) by { assert Inv(s, -1, -1); }
    assert AgeHistory.Callable(c) by { assert Inv(c, t, -1); }
    PageBits(s, v, i);
    PageAppears(s, v, i);
    if PageFrame(c, i) { TableAppears(s, v, i); }
    if PdeAt(s, s.cur, Pdi(v)).pres {
      OldTableReady(s, v);
      OneCall(s, Faults(v), c, i);
    } else {
      TableBits(s, v, i);
      TwoCalls(s, Faults(v), s, c, i);
    }
    if i == GetFrm(c).value.1 { Unspared(c, i); }
  }

  lemma Unspared(c: State, i: int)
    requires PagesOk(c) && QueueNodes(c) && AgesOk(c) && GetFrm(c).Some? && i == GetFrm(c).value.1
    ensures !Spares(c, i)
  {
  }

  /** Every step sets the bit of the page it touches, clears those of the pages that the hand
      of Second-Chance passes, and starts a page that it brings in with a clear one; it does
      nothing else to any bit. */
  lemma StepBits(s: State, st: Step, s2: State, i: int)
    requires Sound(s) && Next(s, st, s2)
    ensures BitsAfter(s, st, s2, i)
  {
    hide BitsAfter, BitsKept, Inv, NoOrphans, PageIn, Kill, SwitchTo, Create, Vcreate, Xmmap, Xmunmap, Read, Write, Fit, FaultSafe, Accessed, Remapped;
    match st
    case Reads(v, off) => ReadBits(s, v, off, i); ReadFrames(s, v, off); TouchAfter(s, st, s2, i);
    case Writes(v, off, b) => WriteBits(s, v, off, b, i); WriteKeepsFrames(s, v, off, b); TouchAfter(s, st, s2, i);
    case Faults(v) => FaultAfter(s, v, i);
    case Maps(v, b, n) => MapStepBits(s, v, b, n); KeptAfter(s, st, s2, i);
    case Unmaps(v) => XmunmapBits(s, v); KeptAfter(s, st, s2, i);
    case Switches(next) => SwitchBits(s, next); KeptAfter(s, st, s2, i);
    case Kills(p) => KillBits(s, p); KeptAfter(s, st, s2, i);
    case Exits(next) => ExitBits(s, next); KeptAfter(s, st, s2, i);
    case Creates(p) => CreateAfter(s, p, i);
    case Vcreates(p, n) => VcreateAfter(s, p, n, i);
    case SetsPolicy(p) => SameBits(s, s2); KeptAfter(s, st, s2, i);
  }

  lemma ReadFrames(s: State, v: int, off: int)
    requires Resident(s, s.cur, v) && Backed(s, v) && 0 <= off < NBPG
    ensures Read(s, v, off).0.frm == s.frm
  {
  }

  lemma WriteKeepsFrames(s: State, v: int, off: int, b: Byte)
    requires Resident(s, s.cur, v) && Backed(s, v) && 0 <= off < NBPG
    ensures Write(s, v, off, b).frm == s.frm
  {
  }

  lemma MapStepBits(s: State, v: int, b: int, n: int)
    requires Valid(s) && Live(s, s.cur) && XmmapAllowed(s, v, b, n) && Xmmap(s, v, b, n).Some?
    ensures BitsKept(s, Xmmap(s, v, b, n).value)
  {
    hide Inv, Xmmap, Remapped, BitsKept, PagesOk, MapOk;
    InvParts(s, -1, -1);
    XmmapRemaps(s, v, b, n);
    RemappedBits(s, Xmmap(s, v, b, n).value);
  }

  lemma ExitBits(s: State, next: int)
    requires Sound(s) && 0 < s.cur && Live(s, s.cur) && IsPid(next)
    ensures IsPid(Kill(s, s.cur).cur) && BitsKept(s, SwitchTo(Kill(s, s.cur), next))
  {
    hide Inv, Kill, SwitchTo, BitsKept, NoOrphans;
    KillBits(s, s.cur);
    KillKeepsInv(s, s.cur);
    SwitchBits(Kill(s, s.cur), next);
    KeptTwice(s, Kill(s, s.cur), SwitchTo(Kill(s, s.cur), next));
  }

  // ------------------------------------------------------------------------- whole runs

  /** No step from the a-th up to the b-th hands frame i out or passes it. */
  ghost predicate SparedFrom(ss: seq<State>, sts: seq<Step>, a: nat, b: nat, i: int)
    requires b <= |sts| < |ss| && forall j :: 0 <= j < b ==> Sound(ss[j])
  {
    forall j {:trigger sts[j]} :: a <= j < b ==> Spared(ss[j], sts[j], i)
  }

  /** The page in frame i has been touched in the first k steps, and neither has the hand
      passed it since nor has it been brought in again; or all this holds from the start. */
  ghost predicate TouchedSince(ss: seq<State>, sts: seq<Step>, k: nat, i: int)
    requires k <= |sts| < |ss| && forall j :: 0 <= j < k ==> Sound(ss[j])
  {
    || (Accessed(ss[0], i) && SparedFrom(ss, sts, 0, k, i))
    || exists j {:trigger sts[j]} :: 0 <= j < k && Touches(ss[j], sts[j], i) && SparedFrom(ss, sts, j + 1, k, i)
  }

  lemma SinceStep(ss: seq<State>, sts: seq<Step>, k: nat, i: int)
    requires 0 < k <= |sts| < |ss| && forall j :: 0 <= j < k ==> Sound(ss[j])
    ensures TouchedSince(ss, sts, k, i) <==>
      Touches(ss[k - 1], sts[k - 1], i) || (TouchedSince(ss, sts, k - 1, i) && Spared(ss[k - 1], sts[k - 1], i))
  {
    hide Sound, Spared, Touches, Accessed;
    forall a: nat | a < k
      ensures SparedFrom(ss, sts, a, k, i) <==> SparedFrom(ss, sts, a, k - 1, i) && Spared(ss[k - 1], sts[k - 1], i)
    {
      assert sts[k - 1] == sts[k - 1];
    }
    if Touches(ss[k - 1], sts[k - 1], i) { assert SparedFrom(ss, sts, k, k, i); }
    if exists j :: 0 <= j < k - 1 && Touches(ss[j], sts[j], i) && SparedFrom(ss, sts, j + 1, k - 1, i) && Spared(ss[k - 1], sts[k - 1], i) {
      var j :| 0 <= j < k - 1 && Touches(ss[j], sts[j], i) && SparedFrom(ss, sts, j + 1, k - 1, i);
      assert SparedFrom(ss, sts, j + 1, k, i);
    }
  }

  /** In every state of a run, the access bit of a page says whether it has been touched since
      it was brought in and the hand last passed it. */
  lemma {:induction false} BitTells(ss: seq<State>, sts: seq<Step>, m: Flat, k: nat, i: int)
    requires IsRun(ss, sts) && Represents(ss[0], m, NFRAMES) && k <= |sts|
    ensures forall j :: 0 <= j <= k ==> Sound(ss[j])
    ensures PageFrame(ss[k], i) ==> (Accessed(ss[k], i) <==> TouchedSince(ss, sts, k, i))
  {
    hide Sound, Represents, Next, Spared, Accessed, TouchedSince;
    if k == 0 {
      SinceStart(ss, sts, i);
    } else {
      BitTells(ss, sts, m, k - 1, i);
      RunRefines(ss, sts, m, k);
      assert Next(ss[k - 1], sts[k - 1], ss[k]);
      StepBits(ss[k - 1], sts[k - 1], ss[k], i);
      SinceStep(ss, sts, k, i);
      if !PageFrame(ss[k - 1], i) { Bare(ss[k - 1], i); }
    }
  }

  lemma SinceStart(ss: seq<State>, sts: seq<Step>, i: int)
    requires |sts| < |ss|
    ensures TouchedSince(ss, sts, 0, i) <==> Accessed(ss[0], i)
  {
  }

  /** So in a run Second-Chance evicts the first page from its hand on that has not been
      touched since it was brought in or last passed, and passes only pages that have; if all
      have, the first page from its hand on. */
  lemma RunSecondChance(ss: seq<State>, sts: seq<Step>, m: Flat, k: nat, i: int)
    requires IsRun(ss, sts) && Represents(ss[0], m, NFRAMES) && k <= |sts| && PageFrame(ss[k], i)
    requires FirstFree(ss[k].frm, 0) == NFRAMES && ss[k].policy == SC
    ensures forall j :: 0 <= j <= k ==> Sound(ss[j])
    ensures PagesOk(ss[k]) && QueueNodes(ss[k]) && AgesOk(ss[k])
    ensures GetFrm(ss[k]).Some? ==>
      var c, v := ss[k], GetFrm(ss[k]).value.1;
      && NextPos(c).Some? && PageFrame(c, v)
      && var order := Lap(c.queue, NextPos(c).value);
      && (!TouchedSince(ss, sts, k, i) ==> !TouchedSince(ss, sts, k, v) && i !in order[..IndexOf(order, v)])
      && (TouchedSince(ss, sts, k, v) ==>
            FirstPage(c.frm, c.queue, NextPos(c).value) < |c.queue| && v == c.queue[FirstPage(c.frm, c.queue, NextPos(c).value)])
  {
    hide Represents, Next, Spared, Accessed, TouchedSince, Inv, NoOrphans, GetFrm, PagesOk, QueueNodes, AgesOk;
    BitTells(ss, sts, m, k, i);
    var c := ss[k];
    GetFrmReady(c, -1, -1);
    if GetFrm(c).Some? {
      var v := GetFrm(c).value.1;
      BitTells(ss, sts, m, k, v);
      AgeHistory.OnQueue(c, -1, i);
      HandStops(c, i);
    }
  }

  /** Where the hand stops, in terms of one page. */
  lemma HandStops(c: State, i: int)
    requires PagesOk(c) && QueueNodes(c) && AgesOk(c) && FirstFree(c.frm, 0) == NFRAMES && c.policy == SC && GetFrm(c).Some?
    requires PageFrame(c, i) && i in c.queue
    ensures
      var v := GetFrm(c).value.1;
      && NextPos(c).Some? && PageFrame(c, v)
      && var order := Lap(c.queue, NextPos(c).value);
      && (!Accessed(c, i) ==> !Accessed(c, v) && i !in order[..IndexOf(order, v)])
      && (Accessed(c, v) ==>
            FirstPage(c.frm, c.queue, NextPos(c).value) < |c.queue| && v == c.queue[FirstPage(c.frm, c.queue, NextPos(c).value)])
  {
    hide PagesOk, QueueNodes, AgesOk, SearchSC, GetFrm, Accessed, FreeFrm, Lap;
    GetFrmCases(c);
    SecondChanceDefined(c);
    SecondChanceVictim(c);
  }

  // -------------------------------------------------------------------- under Aging alone

  ghost predicate HandsOut(c: State, i: int) {
    AgeHistory.Callable(c) && (AgeHistory.CallableReady(c); GetFrm(c).Some? && GetFrm(c).value.1 == i)
  }

  /** Some call of get_frm in the step hands frame i out. */
  ghost predicate HandedIn(s: State, st: Step, i: int)
    requires Sound(s)
  {
    exists j {:trigger AgeHistory.Calls(s, st)[j]} :: 0 <= j < |AgeHistory.Calls(s, st)| && HandsOut(AgeHistory.Calls(s, st)[j], i)
  }

  lemma CallsPolicy(s: State, st: Step, j: nat)
    requires Sound(s) && j < |AgeHistory.Calls(s, st)|
    ensures AgeHistory.Callable(AgeHistory.Calls(s, st)[j]) && AgeHistory.Calls(s, st)[j].policy == s.policy
  {
    hide Inv, GetFrm, NoOrphans, TableFor, Vcreate, OneOwner, NewDir, HeapHead;
    match st
    case Faults(v) =>
      CurHasDir(s) by { InvParts(s, -1, -1); }
      TableForReady(s, v);
      assert AgeHistory.Callable(s) by { assert Inv(s, -1, -1); }
      assert AgeHistory.Callable(TableFor(s, v).value.0) by { assert Inv(TableFor(s, v).value.0, TableFor(s, v).value.1, -1); }
    case Creates(p) => assert AgeHistory.Callable(s) by { assert Inv(s, -1, -1); }
    case Vcreates(p, n) =>
      Prepared(s, p, n);
      assert AgeHistory.Callable(Mapped(s, p, FirstClosed(s.bsm, 0), n)) by { assert Inv(Mapped(s, p, FirstClosed(s.bsm, 0), n), -1, -1); }
  }

  lemma AgingSpares(s: State, st: Step, i: int)
    requires Sound(s) && s.policy == AGING && !HandedIn(s, st, i)
    ensures Spared(s, st, i)
  {
    hide Sound, GetFrm, AgeHistory.Callable, AgeHistory.Calls;
    forall j | 0 <= j < |AgeHistory.Calls(s, st)|
      ensures SparesAt(AgeHistory.Calls(s, st)[j], i)
    {
      CallsPolicy(s, st, j);
      assert !HandsOut(AgeHistory.Calls(s, st)[j], i);
    }
  }

  /** The x-th step is taken under Aging, and leaves the page in frame i. */
  ghost predicate StaysIn(ss: seq<State>, sts: seq<Step>, x: nat, i: int)
    requires x < |sts| < |ss| && Sound(ss[x])
  {
    ss[x].policy == AGING && PageFrame(ss[x + 1], i) && !HandedIn(ss[x], sts[x], i)
  }

  /** Nothing but Second-Chance clears an access bit. In a run under Aging alone, a page once
      touched is found accessed by every later search, as long as it stays in its frame. */
  lemma {:induction false} OnceTouched(ss: seq<State>, sts: seq<Step>, j: nat, k: nat, i: int)
    requires IsRun(ss, sts) && j <= k <= |sts| && Accessed(ss[j], i)
    requires forall x :: 0 <= x < k ==> Sound(ss[x])
    requires forall x: nat :: j <= x < k ==> StaysIn(ss, sts, x, i)
    ensures Accessed(ss[k], i)
  {
    hide Sound, Next, Spared, Accessed, HandedIn;
    if k > j {
      OnceTouched(ss, sts, j, k - 1, i);
      assert StaysIn(ss, sts, k - 1, i);
      assert Next(ss[k - 1], sts[k - 1], ss[k]);
      AgingSpares(ss[k - 1], sts[k - 1], i);
      StepBits(ss[k - 1], sts[k - 1], ss[k], i);
    }
  }
}
