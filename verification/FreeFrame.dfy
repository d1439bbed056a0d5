/** Releasing a frame keeps the invariant and the flat memory. */
module FreeFrame {
  import opened Machine
  import opened BackingStore
  import opened Frames
  import opened PagingInv
  import opened Tweak

  /** Two present entries count twice. */
  lemma TwoPresent(pt: seq<Pte>, k: int, k2: int)
    requires 0 <= k < |pt| && 0 <= k2 < |pt| && k != k2 && pt[k].pres && pt[k2].pres
    ensures Count(pt) >= 2
  {
    var pt2 := pt[k := pt[k].(pres := false)];
    CountUpdate(pt, k, pt[k].(pres := false));
    CountZero(pt2);
    assert pt2[k2].pres;
  }

  /** Another page whose table entry lies in the same table keeps the table alive. */
  lemma SharedTable(s: State, i: int, j: int, fill: int)
    requires TablesOk(s, fill)
    requires PageFrame(s, i) && PageOk(s, i) && PageFrame(s, j) && PageOk(s, j) && i != j
    requires TableOf(s, i) == TableOf(s, j)
    ensures s.frm[TableOf(s, i)].refcnt >= 2
    ensures Pti(s.frm[i].vpno) != Pti(s.frm[j].vpno)
  {
    var t := TableOf(s, i);
    assert TableOk(s, t, fill);
    TwoPresent(s.phys[FRAME0 + t].pt, Pti(s.frm[i].vpno), Pti(s.frm[j].vpno));
  }

  lemma KeepsDirs(s: State, i: int, fill: int)
    requires PageFrame(s, i) && PageOk(s, i) && DirsOk(s) && DirFramesOk(s)
    ensures DirsOk(FreeFrm(s, i)) && DirFramesOk(FreeFrm(s, i))
  {
    var s2 := FreeFrm(s, i);
    forall p | Live(s2, p)
      ensures DirOk(s2, p)
    {
      assert DirOk(s, p);
      forall d | 0 <= d < 4
        ensures PdeAt(s2, p, d) == Pde(true, FRAME0 + d)
      {
        assert PdeAt(s, p, d) == Pde(true, FRAME0 + d);
      }
    }
  }

  lemma KeepsPdes(s: State, i: int)
    requires PageFrame(s, i) && PageOk(s, i) && DirsOk(s) && PdesOk(s) && PdesDistinct(s)
    ensures PdesOk(FreeFrm(s, i)) && PdesDistinct(FreeFrm(s, i))
  {
    var s2 := FreeFrm(s, i);
    forall p, d | Live(s2, p) && HasDir(s2, p) && 4 <= d < NENTRIES && PdeAt(s2, p, d).pres
      ensures HasDir(s, p) && PdeAt(s, p, d) == PdeAt(s2, p, d)
      ensures TblFrame(s2, PdeAt(s2, p, d).base - FRAME0) && s2.frm[PdeAt(s2, p, d).base - FRAME0].pid == p
    {
      assert DirOk(s, p) && DirOk(s, s.frm[i].pid);
      var f := s.frm[i];
      assert PdeAt(s, f.pid, Pdi(f.vpno)).pres;
    }
  }

  lemma KeepsTables(s: State, i: int, fill: int)
    requires PageFrame(s, i) && PageOk(s, i) && TablesOk(s, fill)
    ensures TablesOk(FreeFrm(s, i), fill)
  {
    var s2 := FreeFrm(s, i);
    var t, k := TableOf(s, i), Pti(s.frm[i].vpno);
    assert TableOk(s, t, fill);
    var pt := s.phys[FRAME0 + t].pt;
    CountUpdate(pt, k, pt[k].(pres := false));
    forall t2 | TblFrame(s2, t2)
      ensures TableOk(s2, t2, fill)
    {
      assert TableOk(s, t2, fill);
    }
  }

  lemma KeepsPtes(s: State, i: int)
    requires PageFrame(s, i) && PageOk(s, i) && PtesOk(s)
    ensures PtesOk(FreeFrm(s, i))
  {
    var s2 := FreeFrm(s, i);
    forall t, k | TblFrame(s2, t) && IsTable(s2, t) && 0 <= k < NENTRIES && PteAt(s2, t, k).pres
      ensures PteBacked(s2, t, k)
    {
      assert PteAt(s, t, k) == PteAt(s2, t, k);
      assert PteBacked(s, t, k);
      var j := PteAt(s, t, k).base - FRAME0;
      assert j != i;
    }
  }

  /** What releasing a page does to directory entry d of process p and its table. */
  lemma FreeFrmTable(s: State, v: int, p: int, d: int)
    requires Linked(s, v) && HasDir(s, p) && HasDir(s, s.frm[v].pid) && 0 <= d < NENTRIES
    requires p != s.frm[v].pid ==> s.proc[p].pdbr != s.proc[s.frm[v].pid].pdbr
    ensures
      var s2 := FreeFrm(s, v);
      && HasDir(s2, p)
      && PdeAt(s2, p, d) == (
        if s.frm[TableOf(s, v)].refcnt == 1 && p == s.frm[v].pid && d == Pdi(s.frm[v].vpno)
        then PdeAt(s, p, d).(pres := false) else PdeAt(s, p, d))
      && forall t {:trigger IsTable(s2, t)} :: IsTable(s, t) ==> IsTable(s2, t)
  {
  }

  lemma FreeFrmTables(s: State, v: int, t: int)
    requires Linked(s, v) && TblFrame(s, t) && PageFrame(s, v)
    ensures TblFrame(FreeFrm(s, v), t) <==> !(TableOf(s, v) == t && s.frm[t].refcnt == 1)
  {
  }

  /** Another page of a table keeps its entry, and every other frame its page. */
  lemma FreeFrmEntry(s: State, i: int, j: int)
    requires Linked(s, i) && Linked(s, j) && j != i && PageFrame(s, j)
    requires s.phys[FRAME0 + j].Data? && s.phys[FRAME0 + i].Data?
    requires TableOf(s, j) == TableOf(s, i) ==> Pti(s.frm[j].vpno) != Pti(s.frm[i].vpno)
    ensures
      var s2 := FreeFrm(s, i);
      IsTable(s2, TableOf(s, j)) && PteAt(s2, TableOf(s, j), Pti(s.frm[j].vpno)) == EntryOf(s, j)
      && s2.phys[FRAME0 + j] == s.phys[FRAME0 + j]
  {
    hide Lookup, SlotOf, Without;
  }

  lemma FreeFrmOthers(s: State, i: int, j: int)
    requires Linked(s, i) && TblFrame(s, TableOf(s, i)) && PageFrame(s, j) && j != i
    ensures FreeFrm(s, i).frm[j] == s.frm[j] && FreeFrm(s, i).proc == s.proc && FreeFrm(s, i).bsm == s.bsm
    ensures forall t :: TblFrame(FreeFrm(s, i), t) ==> FreeFrm(s, i).frm[t].pid == s.frm[t].pid
  {
  }

  lemma KeepsPage(s: State, i: int, fill: int, j: int)
    requires PageFrame(s, i) && PagesOk(s) && TablesOk(s, fill) && DirsOk(s) && PageFrame(s, j) && j != i
    ensures Linked(s, i) && PageOk(FreeFrm(s, i), j) && EntryOf(FreeFrm(s, i), j) == EntryOf(s, j)
  {
    hide FreeFrm, TablesOk;
    assert PageOk(s, i) && PageOk(s, j);
    assert DirOk(s, s.frm[j].pid) && DirOk(s, s.frm[i].pid);
    hide PagesOk, DirsOk;
    if TableOf(s, j) == TableOf(s, i) {
      SharedTable(s, i, j, fill);
    }
    FreeFrmEntry(s, i, j);
    FreeFrmTable(s, i, s.frm[j].pid, Pdi(s.frm[j].vpno));
    FreeFrmTables(s, i, TableOf(s, j));
    FreeFrmOthers(s, i, j);
  }

  lemma KeepsPages(s: State, i: int, fill: int)
    requires PageFrame(s, i) && PagesOk(s) && TablesOk(s, fill) && DirsOk(s)
    ensures PagesOk(FreeFrm(s, i))
    ensures forall j {:trigger s.frm[j]} :: PageFrame(s, j) && j != i ==>
      Linked(FreeFrm(s, i), j) && EntryOf(FreeFrm(s, i), j) == EntryOf(s, j)
  {
    hide TablesOk, DirsOk;
    assert PageOk(s, i);
    var s2 := FreeFrm(s, i);
    forall j | PageFrame(s, j) && j != i
      ensures PageOk(s2, j) && EntryOf(s2, j) == EntryOf(s, j)
    {
      KeepsPage(s, i, fill, j);
    }
    forall j | PageFrame(s2, j)
      ensures PageFrame(s, j) && j != i
    {
    }
  }

  lemma KeepsFrames(s: State, i: int)
    requires PageFrame(s, i) && PageOk(s, i) && FramesOk(s)
    ensures FramesOk(FreeFrm(s, i))
  {
    var s2 := FreeFrm(s, i);
    forall t | 0 <= t < 4
      ensures GlobalOk(s2, t)
    {
      assert GlobalOk(s, t);
    }
  }

  lemma KeepsQueue(s: State, i: int, pend: int)
    requires PageFrame(s, i) && PageOk(s, i) && QueueOk(s, pend) && i != pend && TableOf(s, i) != pend
    ensures QueueOk(FreeFrm(s, i), pend)
  {
    var t := TableOf(s, i);
    var q1 := if s.frm[t].refcnt == 1 then Without(s.queue, t) else s.queue;
    WithoutMembers(s.queue, t);
    WithoutMembers(q1, i);
  }

  lemma KeepsTree(s: State, i: int, fill: int)
    requires TreeOk(s, fill) && PageFrame(s, i)
    ensures Linked(s, i) && TreeOk(FreeFrm(s, i), fill)
  {
    assert PageOk(s, i);
    KeepsDirs(s, i, fill);
    KeepsPdes(s, i);
    KeepsTables(s, i, fill);
    KeepsPtes(s, i);
    KeepsPages(s, i, fill);
    KeepsFrames(s, i);
  }

  /** The other page frames keep their entry, their slot and their contents. */
  lemma OthersUntouched(s: State, i: int, fill: int, j: int)
    requires TreeOk(s, fill) && PageFrame(s, i) && IsFrame(j)
    ensures Linked(s, i)
    ensures Linked(FreeFrm(s, i), j) <==> Linked(s, j) && j != i
    ensures Linked(s, j) && j != i ==>
      EntryOf(FreeFrm(s, i), j) == EntryOf(s, j)
      && Loc(FreeFrm(s, i), j) == Loc(s, j)
      && FreeFrm(s, i).frm[j] == s.frm[j]
  {
    hide PdesOk, PtesOk, PdesDistinct, TablesOk, DirsOk, DirFramesOk;
    assert PageOk(s, i);
    KeepsPages(s, i, fill);
  }

  lemma KeepsClean(s: State, i: int, fill: int)
    requires TreeOk(s, fill) && CleanOk(s) && PageFrame(s, i)
    ensures Linked(s, i) && CleanOk(FreeFrm(s, i))
  {
    OthersUntouched(s, i, fill, i);
    var s2 := FreeFrm(s, i);
    forall j | IsFrame(j) && Dirty(s2, j)
      ensures s2.frm[j].pid == s2.cur || s2.proc[s2.frm[j].pid].store != PUBLIC
    {
      OthersUntouched(s, i, fill, j);
      assert Dirty(s, j);
    }
  }

  /** free_frm keeps the invariant. */
  lemma KeepsInv(s: State, i: int, fill: int, pend: int)
    requires Inv(s, fill, pend) && PageFrame(s, i) && !(IsFrame(pend) && s.frm[pend].mapped)
    ensures Linked(s, i) && Inv(FreeFrm(s, i), fill, pend)
  {
    KeepsTree(s, i, fill);
    assert PageOk(s, i);
    KeepsQueue(s, i, pend);
    SameTreeOwners(s, FreeFrm(s, i));
    KeepsClean(s, i, fill);
  }

  /** Two frames that cache the same slot, one of them dirty and the other one fresh,
      are the same frame. */
  lemma SameSlot(s: State, i: int, j: int, n: int)
    requires PagesOk(s) && CleanOk(s) && MapOk(s.bsm) && OwnersOk(s)
    requires IsFrame(i) && IsFrame(j) && Dirty(s, i) && Linked(s, j) && Fresh(s, j, n) && Loc(s, i) == Loc(s, j)
    ensures i == j
  {
    var f, g := s.frm[i], s.frm[j];
    assert PageOk(s, i) && PageOk(s, j);
    SlotBounds(s.bsm, f.pid, f.vpno);
    SlotBounds(s.bsm, g.pid, g.vpno);
    var h, h2 := Lookup(s.bsm, f.pid, f.vpno).value, Lookup(s.bsm, g.pid, g.vpno).value;
    assert OwnerOk(s, h.store, h.pos) && OwnerOk(s, h2.store, h2.pos);
    assert h.store == h2.store;
    assert StoreOk(s.bsm[h.store]);
    assert f.pid == g.pid;
    SlotInjective(s.bsm, f.pid, f.vpno, g.vpno);
  }

  lemma ContentsUntouched(s: State, i: int, j: int)
    requires PageFrame(s, i) && PageOk(s, i) && PageFrame(s, j) && PageOk(s, j)
    ensures FreeFrm(s, i).phys[FRAME0 + j] == s.phys[FRAME0 + j]
  {
    hide Lookup, SlotOf, Without;
    assert s.phys[FRAME0 + j].Data? && s.phys[FRAME0 + TableOf(s, i)].Table? && s.phys[s.proc[s.frm[i].pid].pdbr].Dir?;
  }

  lemma KeepsFramesAgree(s: State, i: int, fill: int, m: Flat, n: int)
    requires TreeOk(s, fill) && PageFrame(s, i) && FramesAgree(s, m, n)
    ensures Linked(s, i) && FramesAgree(FreeFrm(s, i), m, n)
  {
    assert PageOk(s, i);
    var s2 := FreeFrm(s, i);
    forall j | IsFrame(j) && Linked(s2, j) && Fresh(s2, j, n) && 0 <= Loc(s2, j) < NSLOTS
      ensures s2.phys[FRAME0 + j] == Data(m[Loc(s2, j)])
    {
      OthersUntouched(s, i, fill, j);
      ContentsUntouched(s, i, j);
      assert Fresh(s, j, n);
    }
  }

  lemma KeepsStoresAgree(s: State, i: int, fill: int, m: Flat, n: int)
    requires TreeOk(s, fill) && PageFrame(s, i) && Represents(s, m, n)
    ensures Linked(s, i) && StoresAgree(FreeFrm(s, i), m)
  {
    assert PageOk(s, i);
    var s2 := FreeFrm(s, i);
    forall x | 0 <= x < NSLOTS && !DirtyAt(s2, x)
      ensures s2.phys[SlotPage(x)] == Data(m[x])
    {
      if Dirty(s, i) && Loc(s, i) == x {
        assert Fresh(s, i, n);
      } else {
        forall j | IsFrame(j) && Dirty(s, j) && Loc(s, j) == x
          ensures false
        {
          OthersUntouched(s, i, fill, j);
          assert Dirty(s2, j);
        }
        assert !DirtyAt(s, x);
        assert s2.phys[SlotPage(x)] == s.phys[SlotPage(x)];
      }
    }
  }

  /** free_frm leaves the flat memory alone: a dirty page reaches its store page. */
  lemma KeepsMemory(s: State, i: int, fill: int, m: Flat, n: int)
    requires TreeOk(s, fill) && PageFrame(s, i) && Represents(s, m, n)
    ensures Linked(s, i) && Represents(FreeFrm(s, i), m, n)
  {
    KeepsFramesAgree(s, i, fill, m, n);
    KeepsStoresAgree(s, i, fill, m, n);
  }
}
