/** Changing the access or dirty bit of a table entry, the age of a frame or the
    Second-Chance hand disturbs nothing else. */
module Tweak {
  import opened Machine
  import opened BackingStore
  import opened Frames
  import opened PagingInv

  /** Entry k of table t replaced. */
  function SetPte(s: State, t: int, k: int, e: Pte): State
    requires IsTable(s, t) && 0 <= k < NENTRIES
  {
    s.(phys := s.phys[FRAME0 + t := Table(s.phys[FRAME0 + t].pt[k := e])])
  }

  predicate SameLink(e: Pte, e2: Pte) { e.pres == e2.pres && e.base == e2.base }

  lemma SetPteKeepsLinks(s: State, t: int, k: int, e: Pte)
    requires IsTable(s, t) && 0 <= k < NENTRIES && SameLink(PteAt(s, t, k), e)
    ensures forall p {:trigger HasDir(SetPte(s, t, k, e), p)} :: HasDir(SetPte(s, t, k, e), p) <==> HasDir(s, p)
    ensures forall i {:trigger Linked(SetPte(s, t, k, e), i)} :: Linked(SetPte(s, t, k, e), i) <==> Linked(s, i)
    ensures forall i {:trigger EntryOf(SetPte(s, t, k, e), i)} :: Linked(s, i) ==>
      SameLink(EntryOf(SetPte(s, t, k, e), i), EntryOf(s, i))
      && (TableOf(s, i) != t || Pti(s.frm[i].vpno) != k ==> EntryOf(SetPte(s, t, k, e), i) == EntryOf(s, i))
      && (TableOf(s, i) == t && Pti(s.frm[i].vpno) == k ==> EntryOf(SetPte(s, t, k, e), i) == e)
  {
  }

  lemma SetPteKeepsDirs(s: State, t: int, k: int, e: Pte)
    requires IsTable(s, t) && 0 <= k < NENTRIES && SameLink(PteAt(s, t, k), e)
    requires DirsOk(s) && DirFramesOk(s) && PdesOk(s) && PdesDistinct(s)
    ensures var s2 := SetPte(s, t, k, e); DirsOk(s2) && DirFramesOk(s2) && PdesOk(s2) && PdesDistinct(s2)
  {
    var s2 := SetPte(s, t, k, e);
    forall p | Live(s2, p)
      ensures DirOk(s2, p)
    {
      assert DirOk(s, p);
      forall d | 0 <= d < 4
        ensures PdeAt(s2, p, d) == Pde(true, FRAME0 + d)
      {
        assert PdeAt(s, p, d) == Pde(true, FRAME0 + d);
      }
    }
    forall p, d | Live(s2, p) && HasDir(s2, p) && 4 <= d < NENTRIES
      ensures HasDir(s, p) && PdeAt(s2, p, d) == PdeAt(s, p, d)
    {
    }
  }

  lemma SetPteKeepsTables(s: State, t: int, k: int, e: Pte, fill: int)
    requires IsTable(s, t) && 0 <= k < NENTRIES && SameLink(PteAt(s, t, k), e)
    requires TablesOk(s, fill) && PtesOk(s)
    ensures var s2 := SetPte(s, t, k, e); TablesOk(s2, fill) && PtesOk(s2)
  {
    var s2 := SetPte(s, t, k, e);
    CountUpdate(s.phys[FRAME0 + t].pt, k, e);
    forall t2 | TblFrame(s2, t2)
      ensures TableOk(s2, t2, fill)
    {
      assert TableOk(s, t2, fill);
    }
    forall t2, k2 | TblFrame(s2, t2) && IsTable(s2, t2) && 0 <= k2 < NENTRIES && PteAt(s2, t2, k2).pres
      ensures PteBacked(s2, t2, k2)
    {
      assert SameLink(PteAt(s, t2, k2), PteAt(s2, t2, k2));
      assert PteBacked(s, t2, k2);
    }
  }

  lemma SetPteKeepsPages(s: State, t: int, k: int, e: Pte)
    requires IsTable(s, t) && 0 <= k < NENTRIES && SameLink(PteAt(s, t, k), e)
    requires PagesOk(s)
    ensures PagesOk(SetPte(s, t, k, e))
  {
    var s2 := SetPte(s, t, k, e);
    SetPteKeepsLinks(s, t, k, e);
    forall i | PageFrame(s2, i)
      ensures PageOk(s2, i)
    {
      assert PageOk(s, i);
      assert SameLink(EntryOf(s2, i), EntryOf(s, i));
    }
  }

  lemma SetPteKeepsTree(s: State, t: int, k: int, e: Pte, fill: int)
    requires IsTable(s, t) && 0 <= k < NENTRIES && SameLink(PteAt(s, t, k), e)
    requires TreeOk(s, fill)
    ensures TreeOk(SetPte(s, t, k, e), fill)
  {
    var s2 := SetPte(s, t, k, e);
    SetPteKeepsDirs(s, t, k, e);
    SetPteKeepsTables(s, t, k, e, fill);
    SetPteKeepsPages(s, t, k, e);
    forall g | 0 <= g < 4
      ensures GlobalOk(s2, g)
    {
      assert GlobalOk(s, g);
    }
  }

  /** The entry of page frame i is its own: replacing it leaves the entries of the other
      page frames alone. */
  lemma SetEntry(s: State, i: int, e: Pte, j: int)
    requires PagesOk(s) && PageFrame(s, i) && IsFrame(j)
    ensures Linked(s, i)
    ensures SameLink(EntryOf(s, i), e) ==>
      var s2 := SetPte(s, TableOf(s, i), Pti(s.frm[i].vpno), e);
      PagesOk(s2) && (Linked(s2, j) <==> Linked(s, j))
      && (Linked(s, j) ==> EntryOf(s2, j) == (if j == i then e else EntryOf(s, j)) && Loc(s2, j) == Loc(s, j))
  {
    assert PageOk(s, i);
    if PageFrame(s, j) {
      assert PageOk(s, j);
    }
    if SameLink(EntryOf(s, i), e) {
      SetPteKeepsPages(s, TableOf(s, i), Pti(s.frm[i].vpno), e);
    }
  }

  /** Two states that agree on memory, map and processes, and on frames up to the age of
      page frames. */
  ghost predicate SameTree(s: State, s2: State) {
    && s2.phys == s.phys && s2.bsm == s.bsm && s2.proc == s.proc
    && forall i {:trigger s2.frm[i]} {:trigger s.frm[i]} :: IsFrame(i) ==>
      s2.frm[i] == if PageFrame(s, i) then s.frm[i].(age := s2.frm[i].age) else s.frm[i]
  }

  lemma SameTreeLinks(s: State, s2: State, i: int)
    requires SameTree(s, s2) && IsFrame(i)
    ensures Linked(s, i) <==> Linked(s2, i)
    ensures Linked(s, i) ==> EntryOf(s, i) == EntryOf(s2, i) && Loc(s, i) == Loc(s2, i) && TableOf(s, i) == TableOf(s2, i)
  {
  }

  lemma SameTreeDirs(s: State, s2: State)
    requires SameTree(s, s2) && DirsOk(s) && DirFramesOk(s) && PdesOk(s) && PdesDistinct(s)
    ensures DirsOk(s2) && DirFramesOk(s2) && PdesOk(s2) && PdesDistinct(s2)
  {
    forall p | Live(s2, p)
      ensures DirOk(s2, p)
    {
      assert DirOk(s, p);
      forall d | 0 <= d < 4
        ensures PdeAt(s2, p, d) == Pde(true, FRAME0 + d)
      {
        assert PdeAt(s, p, d) == Pde(true, FRAME0 + d);
      }
    }
    forall p, d | Live(s2, p) && HasDir(s2, p) && 4 <= d < NENTRIES
      ensures HasDir(s, p) && PdeAt(s2, p, d) == PdeAt(s, p, d)
    {
    }
  }

  lemma SameTreeTables(s: State, s2: State, fill: int)
    requires SameTree(s, s2) && TablesOk(s, fill) && PtesOk(s)
    ensures TablesOk(s2, fill) && PtesOk(s2)
  {
    forall t | TblFrame(s2, t)
      ensures TableOk(s2, t, fill)
    {
      assert TableOk(s, t, fill);
    }
    forall t, k | TblFrame(s2, t) && IsTable(s2, t) && 0 <= k < NENTRIES && PteAt(s2, t, k).pres
      ensures PteBacked(s2, t, k)
    {
      assert PteAt(s, t, k) == PteAt(s2, t, k);
      assert PteBacked(s, t, k);
    }
  }

  lemma SameTreeOk(s: State, s2: State, fill: int)
    requires SameTree(s, s2) && TreeOk(s, fill)
    ensures TreeOk(s2, fill)
  {
    SameTreeDirs(s, s2);
    SameTreeTables(s, s2, fill);
    forall i | PageFrame(s2, i)
      ensures PageOk(s2, i)
    {
      assert PageOk(s, i);
    }
    forall t | 0 <= t < 4
      ensures GlobalOk(s2, t)
    {
      assert GlobalOk(s, t);
    }
  }

  lemma SameTreeOwners(s: State, s2: State)
    requires s2.bsm == s.bsm && s2.proc == s.proc && OwnersOk(s)
    ensures OwnersOk(s2)
  {
    forall b, k | IsMap(s2.bsm, b, k) ensures OwnerOk(s2, b, k) { assert OwnerOk(s, b, k); }
    forall p | Live(s2, p) ensures StoreFieldOk(s2, p) { assert StoreFieldOk(s, p); }
  }

  lemma SameTreeClean(s: State, s2: State)
    requires SameTree(s, s2) && s2.cur == s.cur && CleanOk(s)
    ensures CleanOk(s2)
  {
    forall i | IsFrame(i) && Dirty(s2, i)
      ensures s2.frm[i].pid == s2.cur || s2.proc[s2.frm[i].pid].store != PUBLIC
    {
      SameTreeLinks(s, s2, i);
      assert Dirty(s, i);
    }
  }

  lemma SameTreeMemory(s: State, s2: State, m: Flat, n: int)
    requires SameTree(s, s2) && s2.cur == s.cur && Represents(s, m, n)
    ensures Represents(s2, m, n)
  {
    forall i | IsFrame(i) && Linked(s2, i) && Fresh(s2, i, n) && 0 <= Loc(s2, i) < NSLOTS
      ensures s2.phys[FRAME0 + i] == Data(m[Loc(s2, i)])
    {
      SameTreeLinks(s, s2, i);
      assert Fresh(s, i, n);
    }
    forall x | 0 <= x < NSLOTS && !DirtyAt(s2, x)
      ensures !DirtyAt(s, x)
    {
      forall i | IsFrame(i) && Dirty(s, i) && Loc(s, i) == x
        ensures false
      {
        SameTreeLinks(s, s2, i);
        assert Dirty(s2, i);
      }
    }
  }

  /** Replacing only the access bit of a page frame's entry keeps the invariant and the
      flat memory. */
  lemma AccKeepsInv(s: State, i: int, e: Pte, fill: int, pend: int)
    requires Inv(s, fill, pend) && PageFrame(s, i)
    ensures Linked(s, i)
    ensures e == EntryOf(s, i).(acc := e.acc) ==>
      Inv(SetPte(s, TableOf(s, i), Pti(s.frm[i].vpno), e), fill, pend)
  {
    assert PageOk(s, i);
    if e == EntryOf(s, i).(acc := e.acc) {
      var s2 := SetPte(s, TableOf(s, i), Pti(s.frm[i].vpno), e);
      SetPteKeepsTree(s, TableOf(s, i), Pti(s.frm[i].vpno), e, fill);
      SameTreeOwners(s, s2);
      forall j | IsFrame(j) && Dirty(s2, j)
        ensures s2.frm[j].pid == s2.cur || s2.proc[s2.frm[j].pid].store != PUBLIC
      {
        SetEntry(s, i, e, j);
        assert Dirty(s, j);
      }
    }
  }

  lemma AccKeepsMemory(s: State, i: int, e: Pte, m: Flat, n: int)
    requires PagesOk(s) && PageFrame(s, i) && Represents(s, m, n)
    ensures Linked(s, i)
    ensures e == EntryOf(s, i).(acc := e.acc) ==>
      Represents(SetPte(s, TableOf(s, i), Pti(s.frm[i].vpno), e), m, n)
  {
    assert PageOk(s, i);
    if e == EntryOf(s, i).(acc := e.acc) {
      var s2 := SetPte(s, TableOf(s, i), Pti(s.frm[i].vpno), e);
      forall j | IsFrame(j)
        ensures Linked(s2, j) <==> Linked(s, j)
        ensures Linked(s, j) ==> Loc(s2, j) == Loc(s, j) && (Dirty(s2, j) <==> Dirty(s, j))
      {
        SetEntry(s, i, e, j);
      }
      forall j | IsFrame(j) && Linked(s2, j) && Fresh(s2, j, n) && 0 <= Loc(s2, j) < NSLOTS
        ensures s2.phys[FRAME0 + j] == Data(m[Loc(s2, j)])
      {
        assert PageOk(s, j) && Fresh(s, j, n);
      }
      forall x | 0 <= x < NSLOTS && !DirtyAt(s2, x)
        ensures !DirtyAt(s, x)
      {
        forall j | IsFrame(j) && Dirty(s, j) && Loc(s, j) == x
          ensures Dirty(s2, j) && Loc(s2, j) == x
        {
        }
      }
    }
  }
}
