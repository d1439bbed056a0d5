/** `get_frm`: a free frame if there is one, else the frame of an evicted page. */
module GetFrame {
  import opened Machine
  import opened BackingStore
  import opened Frames
  import opened PagingInv
  import opened Tweak
  import opened FreeFrame
  import opened Replacement

  function FirstFree(frm: FrameTable, k: nat): (r: nat)
    requires k <= NFRAMES
    ensures k <= r <= NFRAMES
    ensures r < NFRAMES ==> !frm[r].mapped
    ensures forall j :: k <= j < r ==> frm[j].mapped
    decreases NFRAMES - k
  {
    if k == NFRAMES || !frm[k].mapped then k else FirstFree(frm, k + 1)
  }

  /** Frame f joins the queue; the history records when. */
  function Enqueue(s: State, f: int): State
    requires IsFrame(f)
  {
    s.(queue := s.queue + [f], hist := Stamped(s.hist, f))
  }

  ghost function Search(s: State): Option<(State, int)>
    requires PagesOk(s)
  {
    if s.policy == SC then SearchSC(s) else SearchAging(s)
  }

  /** None stands for a search that follows a null link. The frame comes back on the
      queue, still marked unmapped. */
  ghost function GetFrm(s: State): Option<(State, int)>
    requires PagesOk(s) && QueueNodes(s) && AgesOk(s)
  {
    var f := FirstFree(s.frm, 0);
    if f < NFRAMES then Some((Enqueue(s, f), f))
    else
      match Search(s)
      case None => None
      case Some((s1, v)) => SearchKeepsPages(s); Some((Enqueue(FreeFrm(s1, v), v), v))
  }

  /** No frame holds page v of process p. */
  ghost predicate NotCached(s: State, p: int, v: int) {
    forall i {:trigger s.frm[i]} :: PageFrame(s, i) ==> s.frm[i].pid != p || s.frm[i].vpno != v
  }

  /** The state a search leaves, but for ages and the hand. */
  ghost function Swept(s: State): State
    requires PagesOk(s)
  {
    if s.policy == SC && NextPos(s).Some? then Sweep(s, Lap(s.queue, NextPos(s).value)).0 else s
  }

  /** A search changes access bits, ages and the hand only. */
  lemma SearchShape(s: State)
    requires PagesOk(s) && QueueNodes(s) && AgesOk(s) && Search(s).Some?
    ensures
      var (s1, v) := Search(s).value;
      && SameTree(Swept(s), s1) && AgesOk(s1) && PagesOk(Swept(s)) && TablesOnly(s, s1)
      && s1 == s.(phys := s1.phys, frm := s1.frm, hand := s1.hand)
      && Swept(s) == s.(phys := Swept(s).phys)
      && PageFrame(s, v) && v in s.queue
      && forall i :: IsFrame(i) ==> s1.frm[i] == s.frm[i].(age := s1.frm[i].age)
  {
    hide PagesOk, QueueNodes, AgesOk, SearchSC, SearchAging, AgeAll, Sweep, TablesOnly, SameTree, PageFrame;
    var (s1, v) := Search(s).value;
    if s.policy == SC {
      HandKept(s);
      LapMembers(s.queue, NextPos(s).value);
      SweepClears(s, Lap(s.queue, NextPos(s).value));
      SecondChanceVictim(s);
      SweptShape(s, Swept(s), s1);
    } else {
      AgingVictim(s);
      AgeAllFrames(s, s.queue);
      AgedShape(s);
    }
  }

  lemma HandKept(s: State)
    requires PagesOk(s) && QueueNodes(s) && SearchSC(s).Some?
    ensures NextPos(s).Some? && NextPos(s).value <= |s.queue| && NoDup(s.queue) && forall i :: i in s.queue ==> IsFrame(i)
    ensures SearchSC(s).value.0 == Sweep(s, Lap(s.queue, NextPos(s).value)).0.(hand := SearchSC(s).value.0.hand)
  {
    hide PagesOk, Sweep;
  }

  lemma SweptShape(s: State, w: State, s1: State)
    requires AgesOk(s) && PagesOk(w) && TablesOnly(s, w) && w == s.(phys := w.phys) && s1 == w.(hand := s1.hand)
    ensures SameTree(w, s1) && AgesOk(s1) && TablesOnly(s, s1)
  {
  }

  lemma AgedShape(s: State)
    requires AgesOk(s) && PagesOk(s)
    ensures TablesOnly(s, AgeAll(s, s.queue))
    ensures var s1 := AgeAll(s, s.queue); s1 == s.(phys := s1.phys, frm := s1.frm, hand := s1.hand)
    ensures forall i :: IsFrame(i) ==> AgeAll(s, s.queue).frm[i] == s.frm[i].(age := AgeAll(s, s.queue).frm[i].age)
  {
  }

  lemma SearchPicksPage(s: State)
    requires PagesOk(s) && QueueNodes(s) && AgesOk(s) && Search(s).Some?
    ensures PageFrame(Search(s).value.0, Search(s).value.1)
  {
    SearchShape(s);
  }

  lemma SearchKeepsPages(s: State)
    requires PagesOk(s) && QueueNodes(s) && AgesOk(s)
    ensures Search(s).Some? ==> Linked(Search(s).value.0, Search(s).value.1)
  {
    if Search(s).Some? {
      var (s1, v) := Search(s).value;
      SearchShape(s);
      assert PageOk(Swept(s), v);
      SameTreeLinks(Swept(s), s1, v);
    }
  }

  lemma {:induction false} SweepKeepsInv(s: State, order: seq<int>, fill: int, pend: int)
    requires Inv(s, fill, pend)
    ensures Inv(Sweep(s, order).0, fill, pend)
    decreases |order|
  {
    if order != [] {
      var i := order[0];
      if !PageFrame(s, i) {
        SweepKeepsInv(s, order[1..], fill, pend);
      } else if Accessed(s, i) {
        AccKeepsInv(s, i, EntryOf(s, i).(acc := false), fill, pend);
        SweepKeepsInv(ClearAcc(s, i), order[1..], fill, pend);
      }
    }
  }

  lemma {:induction false} SweepKeepsMemory(s: State, order: seq<int>, m: Flat, n: int)
    requires PagesOk(s) && Represents(s, m, n)
    ensures Represents(Sweep(s, order).0, m, n)
    decreases |order|
  {
    if order != [] {
      var i := order[0];
      if !PageFrame(s, i) {
        SweepKeepsMemory(s, order[1..], m, n);
      } else if Accessed(s, i) {
        ClearAccEffect(s, i);
        AccKeepsMemory(s, i, EntryOf(s, i).(acc := false), m, n);
        SweepKeepsMemory(ClearAcc(s, i), order[1..], m, n);
      }
    }
  }

  lemma SearchKeepsInv(s: State, fill: int, pend: int)
    requires Inv(s, fill, pend) && Search(s).Some?
    ensures Inv(Search(s).value.0, fill, pend)
  {
    var s1, s2 := Search(s).value.0, Swept(s);
    if s.policy == SC && NextPos(s).Some? {
      SweepKeepsInv(s, Lap(s.queue, NextPos(s).value), fill, pend);
    }
    SearchShape(s);
    SameTreeOk(s2, s1, fill);
    SameTreeOwners(s2, s1);
    SameTreeClean(s2, s1);
    assert QueueOk(s1, pend);
  }

  lemma SearchKeepsMemory(s: State, m: Flat, n: int)
    requires PagesOk(s) && QueueNodes(s) && AgesOk(s) && Search(s).Some? && Represents(s, m, n)
    ensures Represents(Search(s).value.0, m, n)
  {
    if s.policy == SC && NextPos(s).Some? {
      SweepKeepsMemory(s, Lap(s.queue, NextPos(s).value), m, n);
    }
    SearchShape(s);
    SameTreeMemory(Swept(s), Search(s).value.0, m, n);
  }

  lemma EnqueueKeepsInv(s: State, f: int, fill: int)
    requires Inv(s, fill, -1) && IsFrame(f) && !s.frm[f].mapped
    ensures Inv(Enqueue(s, f), fill, f)
  {
    var s2 := Enqueue(s, f);
    SameTreeOk(s, s2, fill);
    SameTreeOwners(s, s2);
    SameTreeClean(s, s2);
  }

  /** The frame handed out is blank and last on the queue; no page appears anywhere. */
  ghost predicate Granted(s: State, s2: State, f: int) {
    && IsFrame(f) && s2.frm[f] == BLANK && s2.hist == Stamped(s.hist, f)
    && s2.queue != [] && s2.queue[|s2.queue| - 1] == f
    && s2.bsm == s.bsm && s2.proc == s.proc && s2.cur == s.cur && s2.policy == s.policy
    && (forall i {:trigger s2.frm[i]} :: IsFrame(i) && s2.frm[i].mapped ==>
          s.frm[i].mapped && s2.frm[i].pid == s.frm[i].pid && s2.frm[i].ftype == s.frm[i].ftype && s2.frm[i].vpno == s.frm[i].vpno)
  }

  lemma GetFrmGrants(s: State)
    requires PagesOk(s) && QueueNodes(s) && AgesOk(s) && FramesOk(s) && GetFrm(s).Some?
    ensures Granted(s, GetFrm(s).value.0, GetFrm(s).value.1)
  {
    hide GetFrm, Search, PagesOk, QueueNodes, AgesOk, FreeFrm;
    GetFrmCases(s);
    if FirstFree(s.frm, 0) == NFRAMES {
      SearchShape(s);
      var (s1, v) := Search(s).value;
      EvictGrants(s, s1, v);
    } else {
      FirstFreeBlank(s);
    }
  }

  lemma FirstFreeBlank(s: State)
    requires FramesOk(s) && FirstFree(s.frm, 0) < NFRAMES
    ensures s.frm[FirstFree(s.frm, 0)] == BLANK
  {
  }

  lemma EvictGrants(s: State, s1: State, v: int)
    requires s1 == s.(phys := s1.phys, frm := s1.frm, hand := s1.hand) && IsFrame(v) && Linked(s1, v)
    requires forall i :: IsFrame(i) ==> s1.frm[i] == s.frm[i].(age := s1.frm[i].age)
    ensures Granted(s, Enqueue(FreeFrm(s1, v), v), v)
  {
  }

  lemma EvictKeepsInv(s: State, v: int, fill: int)
    requires Inv(s, fill, -1) && PageFrame(s, v)
    ensures Linked(s, v) && Inv(Enqueue(FreeFrm(s, v), v), fill, v)
  {
    KeepsInv(s, v, fill, -1);
    EnqueueKeepsInv(FreeFrm(s, v), v, fill);
  }

  /** The eviction that would take the last page of table t, and with it the table. */
  ghost predicate EvictsLast(s: State, t: int)
    requires PagesOk(s) && QueueNodes(s) && AgesOk(s)
  {
    FirstFree(s.frm, 0) == NFRAMES && Search(s).Some? && IsFrame(t)
    && var v := Search(s).value.1; Linked(s, v) && TableOf(s, v) == t && s.frm[t].refcnt == 1
  }

  lemma SearchKeepsDir(s: State, p: int, d: int)
    requires PagesOk(s) && QueueNodes(s) && AgesOk(s) && Search(s).Some?
    requires HasDir(s, p) && 0 <= d < NENTRIES
    ensures
      var (s1, v) := Search(s).value;
      && HasDir(s1, p) && PdeAt(s1, p, d) == PdeAt(s, p, d)
      && (forall t {:trigger IsTable(s1, t)} :: IsTable(s, t) <==> IsTable(s1, t))
      && (forall t {:trigger TblFrame(s1, t)} :: TblFrame(s, t) ==> TblFrame(s1, t) && s1.frm[t].refcnt == s.frm[t].refcnt)
      && PageFrame(s1, v) && Linked(s, v) && Linked(s1, v) && s1.frm[v].pid == s.frm[v].pid && s1.frm[v].vpno == s.frm[v].vpno
      && TableOf(s1, v) == TableOf(s, v)
      && PageFrame(s, v) && s1.proc == s.proc
  {
    hide Search, PagesOk, QueueNodes, AgesOk, Swept, SameTree, TablesOnly, Linked, TableOf, HasDir, PdeAt, TblFrame, IsTable;
    var (s1, v) := Search(s).value;
    SearchShape(s);
    SearchKeepsPages(s);
    PageIsLinked(s, v);
    AgedDir(s, s1, p, d);
    AgedKinds(s, s1);
    AgedTable(s, s1, v);
  }

  lemma PageIsLinked(s: State, v: int)
    requires PagesOk(s) && PageFrame(s, v)
    ensures Linked(s, v)
  {
    assert PageOk(s, v);
  }

  lemma AgedDir(s: State, s1: State, p: int, d: int)
    requires TablesOnly(s, s1) && s1.proc == s.proc && HasDir(s, p) && 0 <= d < NENTRIES
    ensures HasDir(s1, p) && PdeAt(s1, p, d) == PdeAt(s, p, d)
  {
  }

  lemma AgedKinds(s: State, s1: State)
    requires TablesOnly(s, s1) && forall i :: IsFrame(i) ==> s1.frm[i] == s.frm[i].(age := s1.frm[i].age)
    ensures forall t {:trigger IsTable(s1, t)} :: IsTable(s, t) <==> IsTable(s1, t)
    ensures forall t {:trigger TblFrame(s1, t)} :: TblFrame(s, t) ==> TblFrame(s1, t) && s1.frm[t].refcnt == s.frm[t].refcnt
  {
  }

  lemma AgedTable(s: State, s1: State, v: int)
    requires Linked(s, v) && Linked(s1, v) && TablesOnly(s, s1) && s1.proc == s.proc && s1.frm[v] == s.frm[v].(age := s1.frm[v].age)
    ensures PageFrame(s1, v) && TableOf(s1, v) == TableOf(s, v)
  {
    hide WellMapped, IsTable;
    AgedDir(s, s1, s.frm[v].pid, Pdi(s.frm[v].vpno));
  }

  /** The table that entry d of process p names goes exactly when v is its last page. */
  lemma EvictKeepsTable(s: State, v: int, p: int, d: int, t: int)
    requires Linked(s, v) && PageFrame(s, v) && HasDir(s, p) && 0 <= d < NENTRIES && TblFrame(s, t)
    requires PdeAt(s, p, d) == Pde(true, FRAME0 + t)
    requires p != s.frm[v].pid ==> s.proc[p].pdbr != s.proc[s.frm[v].pid].pdbr
    requires p == s.frm[v].pid && d == Pdi(s.frm[v].vpno) ==> TableOf(s, v) == t
    ensures
      var s2 := FreeFrm(s, v);
      var goes := TableOf(s, v) == t && s.frm[t].refcnt == 1;
      HasDir(s2, p) && (TblFrame(s2, t) <==> !goes) && (!goes ==> PdeAt(s2, p, d) == Pde(true, FRAME0 + t))
  {
    FreeFrmTable(s, v, p, d);
    FreeFrmTables(s, v, t);
  }

  lemma GetFrmReady(s: State, fill: int, pend: int)
    requires Inv(s, fill, pend)
    ensures PagesOk(s) && QueueNodes(s) && AgesOk(s) && FramesOk(s)
  {
  }

  lemma GetFrmCases(s: State)
    requires PagesOk(s) && QueueNodes(s) && AgesOk(s) && GetFrm(s).Some?
    ensures FirstFree(s.frm, 0) < NFRAMES ==> GetFrm(s).value == (Enqueue(s, FirstFree(s.frm, 0)), FirstFree(s.frm, 0))
    ensures FirstFree(s.frm, 0) == NFRAMES ==>
      Search(s).Some? && Linked(Search(s).value.0, Search(s).value.1)
      && GetFrm(s).value == (Enqueue(FreeFrm(Search(s).value.0, Search(s).value.1), Search(s).value.1), Search(s).value.1)
  {
    SearchKeepsPages(s);
  }

  lemma DirsApart(s: State, p: int, v: int)
    requires PagesOk(s) && DirsOk(s) && Live(s, p) && PageFrame(s, v)
    ensures PageOk(s, v) && DirOk(s, p) && IsPid(s.frm[v].pid) && DirOk(s, s.frm[v].pid)
    ensures p != s.frm[v].pid ==> s.proc[p].pdbr != s.proc[s.frm[v].pid].pdbr
  {
    assert PageOk(s, v);
    assert DirOk(s, p) && DirOk(s, s.frm[v].pid);
  }

  /** A table of process p survives get_frm, and so does its directory entry, unless its
      last page is the one evicted. */
  lemma GetFrmKeepsTable(s: State, p: int, d: int, t: int)
    requires PagesOk(s) && DirsOk(s) && QueueNodes(s) && AgesOk(s) && GetFrm(s).Some?
    requires Live(s, p) && HasDir(s, p) && 0 <= d < NENTRIES && TblFrame(s, t) && PdeAt(s, p, d) == Pde(true, FRAME0 + t)
    ensures HasDir(GetFrm(s).value.0, p)
    ensures TblFrame(GetFrm(s).value.0, t) <==> !EvictsLast(s, t)
    ensures !EvictsLast(s, t) ==> PdeAt(GetFrm(s).value.0, p, d) == PdeAt(s, p, d)
  {
    hide GetFrm, Search, PagesOk, DirsOk, QueueNodes, AgesOk, FreeFrm;
    GetFrmCases(s);
    if FirstFree(s.frm, 0) == NFRAMES {
      var (s1, v) := Search(s).value;
      SearchKeepsDir(s, p, d);
      DirsApart(s, p, v);
      EvictKeepsTable(s1, v, p, d, t);
    }
  }

  /** Evicting the last page of a table clears the directory entry that names the table. */
  lemma GetFrmRevokes(s: State, p: int, d: int, t: int)
    requires PagesOk(s) && DirsOk(s) && PdesDistinct(s) && QueueNodes(s) && AgesOk(s) && GetFrm(s).Some?
    requires Live(s, p) && HasDir(s, p) && 4 <= d < NENTRIES && TblFrame(s, t) && s.frm[t].pid == p
    requires PdeAt(s, p, d) == Pde(true, FRAME0 + t) && EvictsLast(s, t)
    ensures HasDir(GetFrm(s).value.0, p) && !PdeAt(GetFrm(s).value.0, p, d).pres
  {
    GetFrmCases(s);
    var (s1, v) := Search(s).value;
    SearchKeepsDir(s, p, d);
    assert PageOk(s, v);
    var e := Pdi(s.frm[v].vpno);
    assert s.frm[v].pid == p;
    assert PdeAt(s, p, e).base == PdeAt(s, p, d).base;
    assert e == d;
    assert TblFrame(s1, t);
    FreeFrmTable(s1, v, p, d);
  }

  /** get_frm makes no directory entry present and never hands out the frame of a table. */
  lemma GetFrmKeepsAbsent(s: State, p: int, d: int)
    requires PagesOk(s) && DirsOk(s) && QueueNodes(s) && AgesOk(s) && GetFrm(s).Some?
    requires Live(s, p) && HasDir(s, p) && 0 <= d < NENTRIES
    ensures HasDir(GetFrm(s).value.0, p)
    ensures !PdeAt(s, p, d).pres ==> !PdeAt(GetFrm(s).value.0, p, d).pres
    ensures !TblFrame(s, GetFrm(s).value.1)
  {
    hide GetFrm, Search, PagesOk, DirsOk, QueueNodes, AgesOk, FreeFrm;
    GetFrmCases(s);
    if FirstFree(s.frm, 0) == NFRAMES {
      var (s1, v) := Search(s).value;
      SearchKeepsDir(s, p, d);
      DirsApart(s, p, v);
      FreeFrmTable(s1, v, p, d);
    }
  }

  /** get_frm turns no table into anything else. */
  lemma GetFrmKeepsKind(s: State, p: int, t: int)
    requires PagesOk(s) && DirsOk(s) && QueueNodes(s) && AgesOk(s) && GetFrm(s).Some? && Live(s, p) && IsTable(s, t)
    ensures IsTable(GetFrm(s).value.0, t)
  {
    GetFrmCases(s);
    if FirstFree(s.frm, 0) == NFRAMES {
      var (s1, v) := Search(s).value;
      assert DirOk(s, p);
      SearchKeepsDir(s, p, 0);
      FreeFrmTable(s1, v, s1.frm[v].pid, 0);
      assert IsTable(FreeFrm(s1, v), t);
    }
  }

  /** get_frm keeps the invariant: whatever it evicts, tables, counts, directories, queue
      and stores stay consistent, and the frame it returns is on the queue and blank. */
  lemma GetFrmKeepsInv(s: State, fill: int)
    requires Inv(s, fill, -1) && GetFrm(s).Some?
    ensures Inv(GetFrm(s).value.0, fill, GetFrm(s).value.1)
  {
    GetFrmCases(s);
    if FirstFree(s.frm, 0) < NFRAMES {
      EnqueueKeepsInv(s, FirstFree(s.frm, 0), fill);
    } else {
      SearchPicksPage(s);
      SearchKeepsInv(s, fill, -1);
      EvictKeepsInv(Search(s).value.0, Search(s).value.1, fill);
    }
  }

  lemma EvictKeepsMemory(s: State, v: int, fill: int, m: Flat, n: int)
    requires TreeOk(s, fill) && PageFrame(s, v) && Represents(s, m, n)
    ensures Linked(s, v) && Represents(Enqueue(FreeFrm(s, v), v), m, n)
  {
    KeepsMemory(s, v, fill, m, n);
    SameTreeMemory(FreeFrm(s, v), Enqueue(FreeFrm(s, v), v), m, n);
  }

  /** get_frm leaves the flat memory alone. */
  lemma GetFrmKeepsMemory(s: State, fill: int, m: Flat, n: int)
    requires Inv(s, fill, -1) && GetFrm(s).Some? && Represents(s, m, n)
    ensures Represents(GetFrm(s).value.0, m, n)
  {
    var f := FirstFree(s.frm, 0);
    if f < NFRAMES {
      SameTreeMemory(s, Enqueue(s, f), m, n);
    } else {
      SearchPicksPage(s);
      SearchKeepsMemory(s, m, n);
      SearchKeepsInv(s, fill, -1);
      EvictKeepsMemory(Search(s).value.0, Search(s).value.1, fill, m, n);
    }
  }

  // ------------------------------------------------------------------ the hand afterwards

  lemma IndexOfPrefix(q: seq<int>, r: seq<int>, x: int)
    requires x in q
    ensures IndexOf(q + r, x) < |q|
  {
    var k := IndexOf(q, x);
    assert (q + r)[k] == x;
  }

  lemma {:induction false} IndexOfAbsent(q: seq<int>, x: int)
    requires x !in q
    ensures IndexOf(q, x) == |q|
  {
    if q != [] {
      IndexOfAbsent(q[1..], x);
    }
  }

  /** A free frame joins at the tail, so every hand that is on the queue has a successor. */
  lemma EnqueueServesHand(s: State, f: int)
    requires IsFrame(f) && (s.hand == -1 || s.hand in s.queue)
    ensures NextPos(Enqueue(s, f)).Some?
  {
    if s.hand != -1 {
      IndexOfPrefix(s.queue, [f], s.hand);
    }
  }

  /** After an eviction by Second-Chance the hand can go on exactly when it does not rest
      on a table that the eviction revoked: such a table leaves the queue with the hand. */
  lemma HandAfterEviction(s: State)
    requires PagesOk(s) && QueueNodes(s) && AgesOk(s) && s.policy == SC && FirstFree(s.frm, 0) == NFRAMES && GetFrm(s).Some?
    ensures Search(s).Some? && Linked(s, Search(s).value.1)
    ensures
      var (s1, v) := Search(s).value;
      var t := TableOf(s, v);
      NextPos(GetFrm(s).value.0).Some? <==> !(s.frm[t].refcnt == 1 && s1.hand == t && t in s.queue)
  {
    hide GetFrm, SearchSC, SecondChance, SomeUnaccessed, NextPos, IndexOf, Pred;
    GetFrmCases(s);
    SearchShape(s);
    var (s1, v) := Search(s).value;
    assert PageOk(s, v);
    SearchKeepsDir(s, s.frm[v].pid, Pdi(s.frm[v].vpno));
    SecondChanceVictim(s);
    assert TblFrame(s1, TableOf(s, v));
    HandAfterFree(s1, v);
  }

  lemma HandAfterFree(s1: State, v: int)
    requires Linked(s1, v) && QueueNodes(s1) && v in s1.queue && PageFrame(s1, v)
    requires s1.hand == Pred(s1.queue, IndexOf(s1.queue, v))
    ensures
      var t := TableOf(s1, v);
      NextPos(Enqueue(FreeFrm(s1, v), v)).Some? <==> !(s1.frm[t].refcnt == 1 && s1.hand == t && t in s1.queue)
  {
    var t := TableOf(s1, v);
    var q1 := if s1.frm[t].refcnt == 1 then Without(s1.queue, t) else s1.queue;
    WithoutMembers(s1.queue, t);
    WithoutMembers(q1, v);
    var q2 := Without(q1, v);
    var s2 := Enqueue(FreeFrm(s1, v), v);
    assert s2.queue == q2 + [v] && s2.hand == s1.hand;
    if s1.hand != -1 {
      assert s1.hand in s1.queue && s1.hand != v;
      if s1.hand in q2 { IndexOfPrefix(q2, [v], s1.hand); } else { IndexOfAbsent(q2 + [v], s1.hand); }
    }
  }
}
