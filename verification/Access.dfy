/** What the hardware does when the running process reads or writes a resident page. */
module Access {
  import opened Machine
  import opened BackingStore
  import opened Frames
  import opened PagingInv
  import opened Tweak
  import opened FreeFrame
  import opened GetFrame
  import opened PageFault
  import opened Switch

  /** The table frame and the entry the hardware walks to. */
  function WalkTable(s: State, v: int): int
    requires Resident(s, s.cur, v)
  {
    PdeAt(s, s.cur, Pdi(v)).base - FRAME0
  }

  function WalkEntry(s: State, v: int): Pte
    requires Resident(s, s.cur, v)
  {
    PteAt(s, WalkTable(s, v), Pti(v))
  }

  /** The entry leads to a page of physical memory that holds data. */
  predicate Backed(s: State, v: int)
    requires Resident(s, s.cur, v)
  {
    0 <= WalkEntry(s, v).base < NPAGES && s.phys[WalkEntry(s, v).base].Data?
  }

  /** A read of byte `off` of page v: the byte, and the state with the access bit set. */
  function Read(s: State, v: int, off: int): (State, Byte)
    requires Resident(s, s.cur, v) && Backed(s, v) && 0 <= off < NBPG
  {
    var e := WalkEntry(s, v);
    (SetPte(s, WalkTable(s, v), Pti(v), e.(acc := true)), s.phys[e.base].bytes[off])
  }

  function PutByte(s: State, n: int, off: int, b: Byte): State
    requires 0 <= n < NPAGES && s.phys[n].Data? && 0 <= off < NBPG
  {
    var page: Page := s.phys[n].bytes[off := b];
    s.(phys := s.phys[n := Data(page)])
  }

  /** A write of byte `off` of page v: access and dirty bits set, the byte stored. */
  function Write(s: State, v: int, off: int, b: Byte): State
    requires Resident(s, s.cur, v) && Backed(s, v) && 0 <= off < NBPG
  {
    var e := WalkEntry(s, v);
    PutByte(SetPte(s, WalkTable(s, v), Pti(v), e.(acc := true, dirty := true)), e.base, off, b)
  }

  /** In a valid state the walk ends at the frame the inverted page table records. */
  lemma WalkFinds(s: State, v: int)
    requires PagesOk(s) && PtesOk(s) && PdesOk(s) && PdesDistinct(s)
    requires Live(s, s.cur) && MIN_VPNO <= v && Resident(s, s.cur, v)
    ensures
      var i := WalkEntry(s, v).base - FRAME0;
      PageFrame(s, i) && s.frm[i].pid == s.cur && s.frm[i].vpno == v && PageOk(s, i)
      && TableOf(s, i) == WalkTable(s, v) && EntryOf(s, i) == WalkEntry(s, v) && Backed(s, v)
  {
    hide PtesOk, PdesOk, PdesDistinct, PagesOk;
    WalkTableOk(s, v);
    EntryCaches(s, s.cur, v, WalkTable(s, v));
    WalkBack(s, v);
  }

  lemma WalkTableOk(s: State, v: int)
    requires PdesOk(s) && Live(s, s.cur) && MIN_VPNO <= v && Resident(s, s.cur, v)
    ensures
      var t := WalkTable(s, v);
      PdeAt(s, s.cur, Pdi(v)) == Pde(true, FRAME0 + t) && TblFrame(s, t) && IsTable(s, t) && s.frm[t].pid == s.cur
  {
  }

  lemma WalkBack(s: State, v: int)
    requires PagesOk(s) && Resident(s, s.cur, v)
    requires var i := WalkEntry(s, v).base - FRAME0; PageFrame(s, i) && s.frm[i].pid == s.cur && s.frm[i].vpno == v
    ensures
      var i := WalkEntry(s, v).base - FRAME0;
      PageOk(s, i) && TableOf(s, i) == WalkTable(s, v) && EntryOf(s, i) == WalkEntry(s, v) && Backed(s, v)
  {
    assert PageOk(s, WalkEntry(s, v).base - FRAME0);
  }

  /** A page that no frame caches is not resident. */
  lemma NotResident(s: State, v: int)
    requires PagesOk(s) && PtesOk(s) && PdesOk(s) && PdesDistinct(s) && Live(s, s.cur) && MIN_VPNO <= v < NVPAGES
    ensures NotCached(s, s.cur, v) <==> !Resident(s, s.cur, v)
  {
    if Resident(s, s.cur, v) {
      WalkFinds(s, v);
    }
    forall i | PageFrame(s, i) && s.frm[i].pid == s.cur && s.frm[i].vpno == v
      ensures Resident(s, s.cur, v)
    {
      assert PageOk(s, i);
    }
  }

  /** A read returns the byte of the flat memory at the slot of the page. */
  lemma ReadIsTransparent(s: State, v: int, off: int, m: Flat)
    requires Valid(s) && Live(s, s.cur) && MIN_VPNO <= v && Resident(s, s.cur, v) && 0 <= off < NBPG
    requires Represents(s, m, NFRAMES)
    ensures Backed(s, v) && WellMapped(s.bsm, s.cur, v)
    ensures Read(s, v, off).1 == m[SlotOf(s.bsm, s.cur, v)][off]
    ensures Valid(Read(s, v, off).0) && Represents(Read(s, v, off).0, m, NFRAMES)
  {
    WalkFinds(s, v);
    var i := WalkEntry(s, v).base - FRAME0;
    assert Fresh(s, i, NFRAMES);
    assert s.phys[FRAME0 + i] == Data(m[Loc(s, i)]);
    AccKeepsInv(s, i, EntryOf(s, i).(acc := true), -1, -1);
    AccKeepsMemory(s, i, EntryOf(s, i).(acc := true), m, NFRAMES);
  }

  // ------------------------------------------------------------------------------ write

  /** The written frame's entry, and every other frame, after a write. */
  lemma WriteFrames(s: State, i: int, off: int, b: Byte, j: int)
    requires PagesOk(s) && PageFrame(s, i) && IsFrame(j) && 0 <= off < NBPG
    ensures Linked(s, i) && s.phys[FRAME0 + i].Data?
    ensures
      var e := EntryOf(s, i).(acc := true, dirty := true);
      var s1 := SetPte(s, TableOf(s, i), Pti(s.frm[i].vpno), e);
      && s1.phys[FRAME0 + i] == s.phys[FRAME0 + i]
      && var s2 := PutByte(s1, FRAME0 + i, off, b);
      && DataOnly(s1, s2)
      && (Linked(s2, j) <==> Linked(s, j))
      && (Linked(s, j) ==> Loc(s2, j) == Loc(s, j) && (Dirty(s2, j) <==> Dirty(s, j) || j == i))
      && (j != i && Linked(s, j) ==> s2.phys[FRAME0 + j] == s.phys[FRAME0 + j])
  {
    assert PageOk(s, i);
    var e := EntryOf(s, i).(acc := true, dirty := true);
    SetEntry(s, i, e, j);
    SetEntry(s, i, e, i);
    var s1 := SetPte(s, TableOf(s, i), Pti(s.frm[i].vpno), e);
    DataOnlyLinks(s1, PutByte(s1, FRAME0 + i, off, b), j);
    if Linked(s, j) { assert PageOk(s, j); }
  }

  /** Setting the dirty bit of a page of the running process. */
  lemma SetDirtyInv(s: State, i: int)
    requires Valid(s) && PageFrame(s, i) && s.frm[i].pid == s.cur
    ensures Linked(s, i)
    ensures Valid(SetPte(s, TableOf(s, i), Pti(s.frm[i].vpno), EntryOf(s, i).(acc := true, dirty := true)))
  {
    assert PageOk(s, i);
    var e := EntryOf(s, i).(acc := true, dirty := true);
    var s2 := SetPte(s, TableOf(s, i), Pti(s.frm[i].vpno), e);
    SetPteKeepsTree(s, TableOf(s, i), Pti(s.frm[i].vpno), e, -1);
    SameTreeOwners(s, s2);
    forall j | IsFrame(j) && Dirty(s2, j)
      ensures s2.frm[j].pid == s2.cur || s2.proc[s2.frm[j].pid].store != PUBLIC
    {
      SetEntry(s, i, e, j);
      assert j != i ==> Dirty(s, j);
    }
  }

  function Updated(m: Flat, n: int, off: int, b: Byte): Flat
    requires 0 <= n < NSLOTS && 0 <= off < NBPG
  {
    var page: Page := m[n][off := b];
    m[n := page]
  }

  /** Frame i has become dirty and may have new contents; all else is as before. */
  ghost predicate OneDirtied(s: State, s2: State, i: int) {
    && s2 == s.(phys := s2.phys)
    && (forall j {:trigger Linked(s2, j)} :: IsFrame(j) ==>
         && (Linked(s2, j) <==> Linked(s, j))
         && (Linked(s, j) ==> Loc(s2, j) == Loc(s, j) && (Dirty(s2, j) <==> Dirty(s, j) || j == i))
         && (j != i && Linked(s, j) ==> s2.phys[FRAME0 + j] == s.phys[FRAME0 + j]))
    && (forall n {:trigger SlotPage(n)} :: 0 <= n < NSLOTS ==> s2.phys[SlotPage(n)] == s.phys[SlotPage(n)])
  }

  lemma WriteFramesAgree(s: State, s2: State, i: int, off: int, b: Byte, m: Flat)
    requires OneDirtied(s, s2, i) && FramesAgree(s, m, NFRAMES)
    requires PagesOk(s2) && CleanOk(s2) && MapOk(s2.bsm) && OwnersOk(s2)
    requires IsFrame(i) && Linked(s, i) && 0 <= off < NBPG && 0 <= Loc(s, i) < NSLOTS
    requires s2.phys[FRAME0 + i] == Data(Updated(m, Loc(s, i), off, b)[Loc(s, i)])
    ensures FramesAgree(s2, Updated(m, Loc(s, i), off, b), NFRAMES)
  {
    var x := Loc(s, i);
    var m2 := Updated(m, x, off, b);
    assert Linked(s2, i) && Dirty(s2, i);
    forall j | IsFrame(j) && Linked(s2, j) && Fresh(s2, j, NFRAMES) && 0 <= Loc(s2, j) < NSLOTS
      ensures s2.phys[FRAME0 + j] == Data(m2[Loc(s2, j)])
    {
      if j != i {
        assert Fresh(s, j, NFRAMES);
        if Loc(s2, j) == x {
          SameSlot(s2, i, j, NFRAMES);
        }
      }
    }
  }

  lemma WriteStoresAgree(s: State, s2: State, i: int, off: int, b: Byte, m: Flat)
    requires OneDirtied(s, s2, i) && StoresAgree(s, m)
    requires IsFrame(i) && Linked(s, i) && 0 <= off < NBPG && 0 <= Loc(s, i) < NSLOTS
    ensures StoresAgree(s2, Updated(m, Loc(s, i), off, b))
  {
    var m2 := Updated(m, Loc(s, i), off, b);
    assert Linked(s2, i) && Dirty(s2, i);
    forall y | 0 <= y < NSLOTS && !DirtyAt(s2, y)
      ensures s2.phys[SlotPage(y)] == Data(m2[y])
    {
      assert y != Loc(s, i);
      forall j | IsFrame(j) && Dirty(s, j) && Loc(s, j) == y
        ensures Dirty(s2, j) && Loc(s2, j) == y
      {
        assert Linked(s2, j);
      }
      assert !DirtyAt(s, y);
      assert m2[y] == m[y];
    }
  }

  lemma WriteEffect(s: State, i: int, off: int, b: Byte)
    requires PagesOk(s) && FramesOk(s) && PageFrame(s, i) && 0 <= off < NBPG
    ensures Linked(s, i) && s.phys[FRAME0 + i].Data?
    ensures
      var s1 := SetPte(s, TableOf(s, i), Pti(s.frm[i].vpno), EntryOf(s, i).(acc := true, dirty := true));
      s1.phys[FRAME0 + i] == s.phys[FRAME0 + i] && OneDirtied(s, PutByte(s1, FRAME0 + i, off, b), i)
  {
    WriteFrames(s, i, off, b, i);
    var s1 := SetPte(s, TableOf(s, i), Pti(s.frm[i].vpno), EntryOf(s, i).(acc := true, dirty := true));
    var s2 := PutByte(s1, FRAME0 + i, off, b);
    forall j | IsFrame(j)
      ensures Linked(s2, j) <==> Linked(s, j)
      ensures Linked(s, j) ==> Loc(s2, j) == Loc(s, j) && (Dirty(s2, j) <==> Dirty(s, j) || j == i)
      ensures j != i && Linked(s, j) ==> s2.phys[FRAME0 + j] == s.phys[FRAME0 + j]
    {
      WriteFrames(s, i, off, b, j);
    }
  }

  /** The page of frame i with its access and dirty bits set. */
  function Marked(s: State, i: int): State
    requires IsFrame(i) && Linked(s, i)
  {
    SetPte(s, TableOf(s, i), Pti(s.frm[i].vpno), EntryOf(s, i).(acc := true, dirty := true))
  }

  /** A page of the running process agrees with the flat memory. */
  lemma MineAgrees(s: State, i: int, m: Flat)
    requires PagesOk(s) && PageFrame(s, i) && s.frm[i].pid == s.cur && FramesAgree(s, m, NFRAMES)
    ensures Linked(s, i) && 0 <= Loc(s, i) < NSLOTS && s.phys[FRAME0 + i] == Data(m[Loc(s, i)])
  {
    assert PageOk(s, i);
    assert Fresh(s, i, NFRAMES);
  }

  lemma PutLands(s: State, s1: State, i: int, off: int, b: Byte, m: Flat, x: int)
    requires IsFrame(i) && s1.phys[FRAME0 + i] == s.phys[FRAME0 + i]
    requires 0 <= x < NSLOTS && s.phys[FRAME0 + i] == Data(m[x]) && 0 <= off < NBPG
    ensures PutByte(s1, FRAME0 + i, off, b).phys[FRAME0 + i] == Data(Updated(m, x, off, b)[x])
  {
  }

  lemma WriteAt(s: State, s2: State, i: int, off: int, b: Byte, m: Flat)
    requires PageFrame(s, i) && s.frm[i].pid == s.cur && Linked(s, i) && 0 <= off < NBPG && 0 <= Loc(s, i) < NSLOTS
    requires Marked(s, i).phys[FRAME0 + i].Data? && s2 == PutByte(Marked(s, i), FRAME0 + i, off, b)
    requires Valid(s) && Represents(s, m, NFRAMES)
    ensures Valid(s2) && Represents(s2, Updated(m, Loc(s, i), off, b), NFRAMES)
  {
    hide Inv, TreeOk, PagesOk, FramesOk, MapOk, OwnersOk, CleanOk, FramesAgree, StoresAgree, OneDirtied, DataOnly,
         Linked, SetPte, PutByte, Updated;
    InvParts(s, -1, -1);
    MineAgrees(s, i, m);
    SetDirtyInv(s, i);
    WriteFrames(s, i, off, b, i);
    WriteEffect(s, i, off, b);
    var s1 := Marked(s, i);
    DataOnlyInv(s1, s2, -1, -1);
    InvParts(s2, -1, -1);
    PutLands(s, s1, i, off, b, m, Loc(s, i));
    WriteFramesAgree(s, s2, i, off, b, m);
    WriteStoresAgree(s, s2, i, off, b, m);
  }

  lemma OnePage(s: State, i: int)
    requires PagesOk(s) && PageFrame(s, i)
    ensures PageOk(s, i)
  {
  }

  lemma WriteIs(s: State, v: int, off: int, b: Byte)
    requires PagesOk(s) && PtesOk(s) && PdesOk(s) && PdesDistinct(s)
    requires Live(s, s.cur) && MIN_VPNO <= v && Resident(s, s.cur, v) && 0 <= off < NBPG
    ensures
      var i := WalkEntry(s, v).base - FRAME0;
      PageFrame(s, i) && s.frm[i].pid == s.cur && Linked(s, i) && s.phys[FRAME0 + i].Data?
      && Marked(s, i).phys[FRAME0 + i].Data? && Backed(s, v) && WellMapped(s.bsm, s.cur, v)
      && Write(s, v, off, b) == PutByte(Marked(s, i), FRAME0 + i, off, b) && Loc(s, i) == SlotOf(s.bsm, s.cur, v)
  {
    hide PagesOk, PtesOk, PdesOk, PdesDistinct, PutByte;
    WalkFinds(s, v);
    WriteFrames(s, WalkEntry(s, v).base - FRAME0, off, b, 0);
  }

  /** A write changes exactly one byte of the flat memory. */
  lemma WriteIsTransparent(s: State, v: int, off: int, b: Byte, m: Flat)
    requires Valid(s) && Live(s, s.cur) && MIN_VPNO <= v && Resident(s, s.cur, v) && 0 <= off < NBPG
    requires Represents(s, m, NFRAMES)
    ensures Backed(s, v) && WellMapped(s.bsm, s.cur, v)
    ensures Valid(Write(s, v, off, b))
    ensures Represents(Write(s, v, off, b), Updated(m, SlotOf(s.bsm, s.cur, v), off, b), NFRAMES)
  {
    hide Inv, PagesOk, Represents, Linked, PutByte, Write, Updated;
    InvParts(s, -1, -1);
    WriteIs(s, v, off, b);
    var i := WalkEntry(s, v).base - FRAME0;
    assert PageOk(s, i) by { OnePage(s, i); }
    WriteAt(s, Write(s, v, off, b), i, off, b, m);
  }
}
