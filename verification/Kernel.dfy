/** The paging code in the form it is written: tables updated in place, one field or page
    at a time, by loops over frames, stores and links. Every method is proved equal to the
    function on states that the properties are about. */
module Kernel {
  import opened Machine
  import opened BackingStore
  import opened Frames
  import opened PagingInv
  import opened Tweak
  import opened FreeFrame
  import opened Replacement
  import opened FrameQueue
  import opened GetFrame
  import opened PageFault
  import opened FaultStep
  import opened Switch
  import opened Lifecycle
  import opened Death
  import opened Birth
  import opened HeapBirth
  import opened Access
  import opened PagingRun
  import opened Boot
  import opened KernelFacts

  class Paging {
    const frm: array<Frame>     // frm_tab
    const phys: array<Content>  // physical memory, by page
    const bsm: array<Store>     // bsm_tab
    const proc: array<Proc>     // the paging fields of proctab
    const q: Queue              // frm_qhead, frm_qtail and the links
    var cur: int                // currpid
    var hand: int               // sc_dummy
    var policy: Policy          // page_replace_policy

    ghost predicate Valid()
      reads this, frm, phys, bsm, proc, q, q.next
    {
      && frm.Length == NFRAMES && phys.Length == NPAGES && bsm.Length == MAX_NUM_BS && proc.Length == NPROC
      && q.Valid() && q.Clean(NULL)
      && (hand == DUMMY || hand == NULL || IsFrame(hand))
    }

    /** The state that the tables, the links and the fields spell out. */
    ghost function S(): State
      reads this, frm, phys, bsm, proc, q, q.next
      requires Valid()
    {
      State(frm[..], phys[..], bsm[..], proc[..], cur, q.nodes, hand, policy, q.hist)
    }

    /** `sysinit` over given memory: all frames free and all stores closed, then four global
        tables and the directory of the null process, each in the first free frame. */
    constructor (mem: Memory, p: Policy)
      ensures Valid() && fresh(frm) && fresh(phys) && fresh(bsm) && fresh(proc) && fresh(q) && fresh(q.next)
      ensures S() == BootState(mem, p)
    {
      frm := new Frame[NFRAMES](_ => BLANK);
      phys := new Content[NPAGES](n requires 0 <= n < NPAGES => mem[n]);
      bsm := new Store[MAX_NUM_BS](_ => FREE_STORE);
      proc := new Proc[NPROC](n => Proc(n == 0, FRAME0 + 4, NO_STORE, 0, 0));
      q := new Queue();
      cur, hand, policy := 0, NULL, p;
      new;
      assert S().frm == NoFrames() && S().phys == mem && S().bsm == ClosedStores() && S().proc == BootProcs();
      InitTables(mem, p);
    }

    /** The steps of `sysinit` that take frames. */
    method InitTables(ghost mem: Memory, ghost p: Policy)
      requires Valid() && S() == Blank(mem, p)
      modifies frm, phys, proc, q, q.next
      ensures Valid() && S() == BootState(mem, p)
    {
      hide Queue.Valid, GlobalTable, BootState, AddGlobal, FirstFree, MakeDir;
      var i := 0;
      GlobalsFrames(mem, p, 0);
      while i < 4
        invariant 0 <= i <= 4 && Valid() && S() == Globals(Blank(mem, p), i)
      {
        GlobalsFrames(mem, p, i);
        MakeGlobal(i);
        i := i + 1;
      }
      GlobalsFrames(mem, p, 4);
      var f := FreeFrame();
      assert f == 4;
      Enqueue(f);
      NameDir(0, f, proc[0]);
      GlobalsBoot(mem, p);
    }

    /** One of the four global page tables. */
    method MakeGlobal(i: int)
      requires Valid() && 0 <= i < 4 && FirstFree(S().frm, 0) == i && S().frm[i] == BLANK && i !in S().queue
      modifies frm, phys, q, q.next
      ensures Valid() && S() == AddGlobal(old(S()), i)
    {
      var f := FreeFrame();
      assert f == i;
      Enqueue(f);
      SetFrm(f, frm[f].(mapped := true, ftype := FR_TBL, refcnt := NENTRIES, pid := 0));
      SetPage(FRAME0 + f, Table(GlobalTable(i)));
    }

    /** The rest of `allocate_page_directory` once there is a frame, and the process entry. */
    method NameDir(p: int, f: int, pr: Proc)
      requires Valid() && IsPid(p) && IsFrame(f)
      modifies frm, phys, proc
      ensures Valid() && S() == MakeDir(old(S()), p, f, pr)
    {
      hide Queue.Valid, AsDir;
      SetFrm(f, MarkDir(frm[f], p));
      proc[p] := pr.(live := true, pdbr := FRAME0 + f);
      var pd := AsDir(phys[FRAME0 + f]);
      ghost var pd0 := pd;
      var i := 0;
      while i < 4
        invariant 0 <= i <= 4 && |pd| == NENTRIES
        invariant forall d :: 0 <= d < NENTRIES ==> pd[d] == if d < i then Pde(true, FRAME0 + d) else pd0[d]
      {
        pd := pd[i := Pde(true, FRAME0 + i)];
        i := i + 1;
      }
      assert pd == NewDir(phys[FRAME0 + f]);
      SetPage(FRAME0 + f, Dir(pd));
    }

    // ------------------------------------------------------------------- single stores

    method SetFrm(i: int, f: Frame)
      requires Valid() && IsFrame(i)
      modifies frm
      ensures Valid() && S() == old(S()).(frm := old(S()).frm[i := f])
    {
      frm[i] := f;
    }

    method SetPage(n: int, c: Content)
      requires Valid() && 0 <= n < NPAGES
      modifies phys
      ensures Valid() && S() == old(S()).(phys := old(S()).phys[n := c])
    {
      phys[n] := c;
    }

    method SetPteAt(t: int, k: int, e: Pte)
      requires Valid() && IsTable(S(), t) && 0 <= k < NENTRIES
      modifies phys
      ensures Valid() && S() == SetPte(old(S()), t, k, e)
    {
      phys[FRAME0 + t] := Table(phys[FRAME0 + t].pt[k := e]);
    }

    // ------------------------------------------------------------- the backing-store map

    /** `bsm_lookup`: stores in index order, each list from its head. */
    method BsmLookup(p: int, v: int) returns (r: Option<Hit>)
      requires Valid()
      ensures r == Lookup(S().bsm, p, v)
    {
      var i := 0;
      while i < MAX_NUM_BS
        invariant 0 <= i <= MAX_NUM_BS
        invariant LookupFrom(S().bsm, p, v, 0) == LookupFrom(S().bsm, p, v, i)
      {
        if bsm[i].mapped {
          var k := 0;
          while k < |bsm[i].maps|
            invariant 0 <= k <= |bsm[i].maps|
            invariant FindIn(S().bsm[i].maps, p, v, 0) == FindIn(S().bsm[i].maps, p, v, k)
          {
            if Covers(bsm[i].maps[k], p, v) {
              return Some(Hit(i, k));
            }
            k := k + 1;
          }
        }
        i := i + 1;
      }
      return None;
    }

    // ------------------------------------------------------------------------- free_frm

    /** `frm_remove` followed by `reset_frm_entry`. */
    method Retire(i: int)
      requires Valid() && IsFrame(i)
      modifies frm, q, q.next
      ensures Valid() && S() == old(S()).(frm := old(S()).frm[i := BLANK], queue := Without(old(S()).queue, i))
    {
      WithoutMembers(q.nodes, i);
      q.Remove(i);
      q.ResetLink(i);
      frm[i] := BLANK;
    }

    /** One reference less to table t, and with the last one the table goes. */
    method DropRef(t: int, dir: int, d: int)
      requires Valid() && IsFrame(t) && 0 <= dir < NPAGES && S().phys[dir].Dir? && 0 <= d < NENTRIES
      modifies frm, phys, q, q.next
      ensures Valid()
      ensures S() == Deref(old(S()), t, dir, d)
    {
      ghost var s := S();
      SetFrm(t, frm[t].(refcnt := frm[t].refcnt - 1));
      if frm[t].refcnt == 0 {
        Retire(t);
        assert s.frm[t := s.frm[t].(refcnt := 0)][t := BLANK] == s.frm[t := BLANK];
        var pd := phys[dir].pd;
        SetPage(dir, Dir(pd[d := pd[d].(pres := false)]));
      }
    }

    /** `write_bs` to the store page that backs page v of process p. */
    method WriteOut(i: int, p: int, v: int)
      requires Valid() && IsFrame(i) && WellMapped(S().bsm, p, v)
      modifies phys
      ensures Valid()
      ensures S() == old(S()).(phys := old(S()).phys[SlotPage(SlotOf(old(S()).bsm, p, v)) := old(S()).phys[FRAME0 + i]])
    {
      var h := BsmLookup(p, v);
      var page := v - bsm[h.value.store].maps[h.value.pos].vpno;
      SetPage(SlotPage(Slot(h.value.store, page)), phys[FRAME0 + i]);
    }

    /** `free_frm`, statement by statement. */
    method FreeFrm(i: int)
      requires Valid() && PageFrame(S(), i) && PageOk(S(), i)
      modifies frm, phys, q, q.next
      ensures Valid() && S() == Frames.FreeFrm(old(S()), i)
    {
      ghost var s := S();
      var p, v := frm[i].pid, frm[i].vpno;
      var dir := proc[p].pdbr;
      var t := phys[dir].pd[Pdi(v)].base - FRAME0;
      var e := phys[FRAME0 + t].pt[Pti(v)];
      SetPteAt(t, Pti(v), e.(pres := false));
      DropRef(t, dir, Pdi(v));
      if e.dirty {
        WriteOut(i, p, v);
      }
      Retire(i);
      assert S() == Frames.FreeFrm(s, i) by {
        hide Without, PageOk, Lookup;
      }
    }

    // ------------------------------------------------------------------ victim searches

    /** `get_pt_entry` for the page in frame i. */
    method PtEntry(i: int) returns (t: int, e: Pte)
      requires Valid() && Linked(S(), i)
      ensures t == TableOf(S(), i) && e == EntryOf(S(), i)
    {
      var p, v := frm[i].pid, frm[i].vpno;
      t := phys[proc[p].pdbr].pd[Pdi(v)].base - FRAME0;
      e := phys[FRAME0 + t].pt[Pti(v)];
    }

    /** One frame of the first traversal: stop at a page whose access bit is clear, clear it
        if it is set. */
    method Inspect(c: int) returns (stop: bool)
      requires Valid() && PagesOk(S()) && IsFrame(c) && S().frm[c].mapped
      modifies phys
      ensures Valid()
      ensures stop == Stops(old(S()), c) && S() == Passed(old(S()), c)
    {
      stop := false;
      if frm[c].ftype == FR_PAGE {
        assert PageFrame(S(), c) && PageOk(S(), c);
        var t, e := PtEntry(c);
        if !e.acc {
          return true;
        }
        SetPteAt(t, Pti(frm[c].vpno), e.(acc := false));
      }
    }

    /** The hand moves on to the frame at position y, and from the tail to the dummy head. */
    method Advance(ghost y: nat)
      requires Valid() && y < |S().queue| && hand == NodeAt(S().queue, y - 1)
      modifies this`hand
      ensures Valid() && S() == old(S()).(hand := hand)
      ensures hand == NodeAt(S().queue, (if y + 1 < |S().queue| then y + 1 else 0) - 1)
    {
      q.Follow(y);
      hand := q.Succ(hand);
      q.Follow(y + 1);
      if q.Succ(hand) == NULL {
        hand := DUMMY;
      }
    }

    /** One round of the first traversal, at the k-th frame of the lap from position x. */
    method LapRound(ghost s: State, ghost t: State, ghost x: nat, ghost k: nat) returns (found: bool, ghost t2: State)
      requires Valid() && x < |s.queue| && k < |s.queue| && s.queue == S().queue && Allocated(s)
      requires t == S().(hand := s.hand) && Underway(s, t, Lap(s.queue, x), k) && s.frm == t.frm
      requires hand == NodeAt(s.queue, LapPos(|s.queue|, x, k) - 1)
      modifies this`hand, phys
      ensures Valid() && t2 == S().(hand := s.hand)
      ensures found ==> Sweep(s, Lap(s.queue, x)) == (t2, k) && hand == old(hand)
      ensures !found ==> Underway(s, t2, Lap(s.queue, x), k + 1)
      ensures !found ==> hand == NodeAt(s.queue, (var y := LapPos(|s.queue|, x, k); if y + 1 < |s.queue| then y + 1 else 0) - 1)
    {
      hide PagesOk, Sweep, Underway, Stops, Passed, Lap, Queue.Valid, NoDup;
      q.Follow(LapPos(|s.queue|, x, k));
      var c := q.Succ(hand);
      LapAt(s.queue, x, k);
      assert c in s.queue;
      LapStep(s, t, Lap(s.queue, x), k, hand);
      assert S() == t.(hand := hand);
      found := Inspect(c);
      t2 := Passed(t, c);
      if !found {
        Advance(LapPos(|s.queue|, x, k));
      }
    }

    /** The first traversal of `get_frm_by_SC`; `found` if it stopped at a page whose access
        bit is clear. */
    method FirstLap(ghost x: nat) returns (found: bool, ghost k: nat)
      requires Valid() && PagesOk(S()) && NoDup(S().queue) && Allocated(S())
      requires x < |S().queue| && hand == NodeAt(S().queue, x - 1)
      modifies this`hand, phys
      ensures Valid()
      ensures k == Sweep(old(S()), Lap(old(S()).queue, x)).1
      ensures found <==> k < |old(S()).queue|
      ensures S() == Sweep(old(S()), Lap(old(S()).queue, x)).0.(hand := NodeAt(old(S()).queue, LapPos(|old(S()).queue|, x, k) - 1))
    {
      hide PagesOk, Sweep, Underway, Stops, Passed, Lap, Queue.Valid, NoDup, Allocated;
      ghost var s := S();
      var start := hand;
      ghost var n, order, t := |s.queue|, Lap(s.queue, x), s;
      LapAt(s.queue, x, 0);
      LapStart(s, order);
      k := 0;
      while true
        invariant Valid() && t == S().(hand := s.hand) && Underway(s, t, order, k)
        invariant k < n && hand == NodeAt(s.queue, LapPos(n, x, k) - 1)
        decreases n - k
      {
        UnderwayShape(s, t, order, k);
        found, t := LapRound(s, t, x, k);
        if found {
          break;
        }
        k := k + 1;
        if hand == start {
          q.Apart(LapPos(n, x, k), x);
          LapEnd(s, t, order);
          break;
        }
      }
    }

    /** The second traversal: the first page frame after the hand, without wrapping. */
    method SecondLap(ghost x: nat) returns (ok: bool, v: int)
      requires Valid() && Allocated(S()) && x < |S().queue| && hand == NodeAt(S().queue, x - 1)
      modifies this`hand
      ensures Valid()
      ensures ok <==> FirstPage(old(S()).frm, old(S()).queue, x) < |old(S()).queue|
      ensures ok ==> v == old(S()).queue[FirstPage(old(S()).frm, old(S()).queue, x)]
      ensures ok ==> S() == old(S()).(hand := NodeAt(S().queue, FirstPage(old(S()).frm, old(S()).queue, x) - 1))
    {
      hide Queue.Valid;
      ghost var y := x;
      while true
        invariant x <= y <= |q.nodes| && Valid() && S() == old(S()).(hand := NodeAt(S().queue, y - 1))
        invariant FirstPage(old(S()).frm, q.nodes, x) == FirstPage(old(S()).frm, q.nodes, y)
        decreases |q.nodes| - y
      {
        q.Follow(y);
        v := q.Succ(hand);
        if v == NULL {
          return false, v;
        }
        if frm[v].ftype == FR_PAGE {
          return true, v;
        }
        hand := v;
        y := y + 1;
      }
    }

    /** Both traversals, from a hand that has a successor. */
    method BothLaps(ghost x: nat) returns (ok: bool, v: int)
      requires Valid() && PagesOk(S()) && NoDup(S().queue) && Allocated(S()) && NextPos(S()) == Some(x)
      requires x < |S().queue| && hand == NodeAt(S().queue, x - 1)
      modifies this`hand, phys
      ensures Valid()
      ensures ok == SearchSC(old(S())).Some?
      ensures ok ==> SearchSC(old(S())).value == (S(), v)
    {
      hide PagesOk, Sweep, Queue.Valid, NoDup, SearchSC, Lap, FirstPage, IndexOf, NextPos;
      LapAt(q.nodes, x, 0);
      SearchFound(S(), x);
      var found;
      ghost var k;
      found, k := FirstLap(x);
      if found {
        q.Follow(LapPos(|q.nodes|, x, k));
        ok, v := true, q.Succ(hand);
      } else {
        ok, v := SecondLap(x);
      }
    }

    /** `get_frm_by_SC`; not ok if it follows a null link. */
    method FrmBySC() returns (ok: bool, v: int)
      requires Valid() && PagesOk(S()) && NoDup(S().queue) && Allocated(S())
      modifies this`hand, phys
      ensures Valid()
      ensures ok == SearchSC(old(S())).Some?
      ensures ok ==> SearchSC(old(S())).value == (S(), v)
    {
      hide PagesOk, Sweep, Queue.Valid, NoDup, SearchSC, Lap, FirstPage, IndexOf, NextPos;
      q.Follow(0);
      if hand == NULL || q.Succ(hand) == NULL {
        q.DeadEnd(hand);
        NoNext(S());
        return false, 0;
      }
      ghost var x := q.Place(hand);
      NextAt(S(), x);
      ok, v := BothLaps(x);
    }

    /** One frame of the first traversal of `get_frm_by_Aging`, and the least age so far. */
    method AgeFrame(c: int, m: int) returns (m2: int)
      requires Valid() && PagesOk(S()) && AgesOk(S()) && IsFrame(c) && S().frm[c].mapped
      modifies frm
      ensures Valid() && S() == AgeOne(old(S()), c)
      ensures m2 == if IsPage(S().frm, c) && S().frm[c].age < m then S().frm[c].age else m
    {
      m2 := m;
      if frm[c].ftype == FR_PAGE {
        assert PageFrame(S(), c) && PageOk(S(), c);
        var _, e := PtEntry(c);
        var age := frm[c].age / 2;
        if e.acc {
          age := age + 128;
          if age > MAX_FRM_AGE {
            age := MAX_FRM_AGE;
          }
        }
        SetFrm(c, frm[c].(age := age));
        if age < m2 {
          m2 := age;
        }
      }
    }

    /** The second traversal of `get_frm_by_Aging`. */
    method FindAged(a: int) returns (ok: bool, v: int)
      requires Valid() && Allocated(S())
      ensures ok <==> FirstAged(S().frm, S().queue, a, 0) < |S().queue|
      ensures ok ==> v == S().queue[FirstAged(S().frm, S().queue, a, 0)]
    {
      hide Queue.Valid;
      ghost var y := 0;
      q.Follow(0);
      v := q.Succ(DUMMY);
      while v != NULL
        invariant 0 <= y <= |q.nodes| && v == NodeAt(q.nodes, y)
        invariant FirstAged(S().frm, q.nodes, a, 0) == FirstAged(S().frm, q.nodes, a, y)
        decreases |q.nodes| - y
      {
        if frm[v].ftype == FR_PAGE && frm[v].age == a {
          return true, v;
        }
        y := y + 1;
        q.Follow(y);
        v := q.Succ(v);
      }
      return false, v;
    }

    /** `get_frm_by_Aging`; not ok if no page frame is queued. */
    method FrmByAging() returns (ok: bool, v: int)
      requires Valid() && PagesOk(S()) && AgesOk(S()) && NoDup(S().queue) && Allocated(S())
      modifies frm
      ensures Valid()
      ensures ok == SearchAging(old(S())).Some?
      ensures ok ==> SearchAging(old(S())).value == (S(), v)
    {
      hide PagesOk, AgesOk, Queue.Valid, NoDup, AgeAll, AgeOne, MinAge, FirstAged;
      ghost var s, y := S(), 0;
      q.Follow(0);
      var c, m := q.Succ(DUMMY), MAX_FRM_AGE;
      AgeAllNone(s);
      while c != NULL
        invariant Valid() && 0 <= y <= |s.queue| && c == NodeAt(s.queue, y)
        invariant S() == AgeAll(s, s.queue[..y])
        invariant m == MinAge(S().frm, s.queue[..y])
        decreases |s.queue| - y
      {
        assert s.queue[y] in s.queue;
        AgeAllStep(s, y);
        AgeAllPages(s, s.queue[..y]);
        MinAgeStep(S(), y);
        m := AgeFrame(c, m);
        y := y + 1;
        q.Follow(y);
        c := q.Succ(c);
      }
      q.Ends(y);
      assert s.queue[..y] == s.queue;
      AgeAllShape(s);
      ok, v := FindAged(m);
    }

    // -------------------------------------------------------------------------- get_frm

    /** The scan for a free frame. */
    method FreeFrame() returns (f: int)
      requires Valid()
      ensures f == FirstFree(S().frm, 0)
    {
      f := 0;
      while f < NFRAMES && frm[f].mapped
        invariant 0 <= f <= NFRAMES && FirstFree(S().frm, 0) == FirstFree(S().frm, f)
      {
        f := f + 1;
      }
    }

    method Search() returns (ok: bool, v: int)
      requires Valid() && PagesOk(S()) && AgesOk(S()) && NoDup(S().queue) && Allocated(S())
      modifies this`hand, frm, phys
      ensures Valid()
      ensures ok == GetFrame.Search(old(S())).Some?
      ensures ok ==> GetFrame.Search(old(S())).value == (S(), v)
    {
      hide PagesOk, AgesOk, NoDup, Allocated, SearchSC, SearchAging, Queue.Valid;
      if policy == SC {
        ok, v := FrmBySC();
      } else {
        ok, v := FrmByAging();
      }
    }

    method Enqueue(f: int)
      requires Valid() && IsFrame(f) && f !in S().queue
      modifies q, q.next
      ensures Valid() && S() == GetFrame.Enqueue(old(S()), f)
    {
      q.Enqueue(f);
    }

    /** `get_frm`; not ok if the victim search follows a null link. */
    method GetFrm(ghost fill: int) returns (ok: bool, f: int)
      requires Valid() && Inv(S(), fill, -1)
      modifies this`hand, frm, phys, q, q.next
      ensures Valid()
      ensures PagesOk(old(S())) && QueueNodes(old(S())) && AgesOk(old(S()))
      ensures ok == GetFrame.GetFrm(old(S())).Some?
      ensures ok ==> GetFrame.GetFrm(old(S())).value == (S(), f)
    {
      hide Inv, GetFrame.Search, GetFrame.GetFrm, Frames.FreeFrm, Queue.Valid, PagesOk, AgesOk, NoDup, Allocated, QueueNodes;
      ghost var s := S();
      GetFrmFacts(s, fill);
      f := FreeFrame();
      if f < NFRAMES {
        Enqueue(f);
        return true, f;
      }
      ok, f := Search();
      if ok {
        FreeFrm(f);
        Enqueue(f);
      }
    }

    // ------------------------------------------------------------------ context switch

    /** The flush of `resched`. */
    method Flush(p: int)
      requires Valid() && PagingInv.Valid(S()) && IsPid(p)
      modifies phys
      ensures Valid() && S() == Switch.Flush(old(S()), p, NFRAMES)
    {
      hide Inv, PagesOk, Queue.Valid, Flushes, FlushOne;
      ghost var s := S();
      var i := 0;
      while i < NFRAMES
        invariant 0 <= i <= NFRAMES && Valid() && S() == Switch.Flush(s, p, i)
      {
        FlushInv(s, p, i);
        InvParts(S(), -1, -1);
        FlushFrame(i, p);
        i := i + 1;
      }
    }

    method FlushFrame(i: int, p: int)
      requires Valid() && PagesOk(S()) && IsFrame(i)
      modifies phys
      ensures Valid() && S() == if Flushes(old(S()), p, i) then FlushOne(old(S()), i) else old(S())
    {
      if frm[i].mapped && frm[i].pid == p && frm[i].ftype == FR_PAGE {
        PageLinked(S(), i);
        var t, e := PtEntry(i);
        if e.dirty {
          WriteOut(i, p, frm[i].vpno);
          SetPteAt(t, Pti(frm[i].vpno), e.(dirty := false));
        }
      }
    }

    /** The reload of `resched`. */
    method Load(p: int)
      requires Valid() && PagingInv.Valid(S()) && AllFlushed(S()) && IsPid(p)
      modifies phys
      ensures Valid() && S() == Switch.Load(old(S()), p, NFRAMES)
    {
      hide Inv, PagesOk, Queue.Valid;
      ghost var s := S();
      var i := 0;
      while i < NFRAMES
        invariant 0 <= i <= NFRAMES && Valid() && S() == Switch.Load(s, p, i)
      {
        LoadInv(s, p, i);
        InvParts(S(), -1, -1);
        if frm[i].mapped && frm[i].pid == p && frm[i].ftype == FR_PAGE {
          PageLinked(S(), i);
          ReadIn(i, p, frm[i].vpno);
        }
        i := i + 1;
      }
    }

    /** `read_bs` from the store page that backs page v of process p. */
    method ReadIn(i: int, p: int, v: int)
      requires Valid() && IsFrame(i) && WellMapped(S().bsm, p, v)
      modifies phys
      ensures Valid()
      ensures S() == old(S()).(phys := old(S()).phys[FRAME0 + i := old(S()).phys[SlotPage(SlotOf(old(S()).bsm, p, v))]])
    {
      var h := BsmLookup(p, v);
      var page := v - bsm[h.value.store].maps[h.value.pos].vpno;
      SetPage(FRAME0 + i, phys[SlotPage(Slot(h.value.store, page))]);
    }

    /** What `resched` does to memory when it hands the processor to process next. */
    method SwitchTo(next: int)
      requires Valid() && PagingInv.Valid(S()) && IsPid(next)
      modifies this`cur, phys
      ensures Valid() && IsPid(old(S()).cur) && S() == Switch.SwitchTo(old(S()), next)
    {
      hide Inv, AllFlushed, Switch.Flush, Switch.Load, Queue.Valid;
      CurIsPid(S());
      LeaveFlushes(S());
      if proc[cur].live && proc[cur].store == PUBLIC {
        Flush(cur);
      }
      ChangeCur(S(), next);
      cur := next;
      if proc[next].store == PUBLIC {
        Load(next);
      }
    }

    // ---------------------------------------------------------------- mapping, unmapping

    /** `bsm_map`. */
    method BsmMap(p: int, v: int, b: int, n: int) returns (ok: bool)
      requires Valid()
      modifies bsm
      ensures Valid()
      ensures var r := Map(old(S()).bsm, p, v, b, n);
        ok == r.Some? && S() == if ok then old(S()).(bsm := r.value) else old(S())
    {
      if b < 0 || b >= MAX_NUM_BS || n <= 0 || n > MAX_BS_PAGES || v < MIN_VPNO || v > MAX_VPNO {
        return false;
      }
      if !bsm[b].mapped {
        bsm[b] := bsm[b].(mapped := true, npages := n);
      } else if n > bsm[b].npages {
        return false;
      }
      bsm[b] := bsm[b].(maps := bsm[b].maps + [Mapping(p, v, n)]);
      return true;
    }

    /** `free_bsm`. */
    method FreeBsm(b: int) returns (ok: bool)
      requires Valid()
      modifies bsm
      ensures Valid() && S() == old(S()).(bsm := Death.FreeBsm(old(S()).bsm, b))
      ensures ok <==> 0 <= b < MAX_NUM_BS && old(S()).bsm[b].mapped
    {
      if b < 0 || b >= MAX_NUM_BS || !bsm[b].mapped {
        return false;
      }
      var maps := if bsm[b].priv then [] else bsm[b].maps;
      if maps == [] {
        bsm[b] := FREE_STORE;
      }
      return true;
    }

    method FreeFrameOf(i: int, p: int, lo: int, hi: int)
      requires Valid() && IsFrame(i) && (PageOf(S(), p, lo, hi, i) ==> PageOk(S(), i))
      modifies frm, phys, q, q.next
      ensures Valid()
      ensures S() == if PageOf(old(S()), p, lo, hi, i) && Linked(old(S()), i) then Frames.FreeFrm(old(S()), i) else old(S())
    {
      if frm[i].mapped && frm[i].ftype == FR_PAGE && frm[i].pid == p && lo <= frm[i].vpno < hi {
        FreeFrm(i);
      }
    }

    /** The loop of `bsm_unmap`. */
    method FreePages(p: int, lo: int, hi: int)
      requires Valid() && Releasable(S(), p, lo, hi)
      modifies frm, phys, q, q.next
      ensures Valid() && S() == Lifecycle.FreePages(old(S()), p, lo, hi, NFRAMES)
    {
      hide Queue.Valid, PageOf, PageOk, Linked, Frames.FreeFrm;
      ghost var s := S();
      var i := 0;
      while i < NFRAMES
        invariant 0 <= i <= NFRAMES && Valid() && S() == Lifecycle.FreePages(s, p, lo, hi, i)
      {
        FreeFrameOf(i, p, lo, hi);
        i := i + 1;
      }
    }

    /** `bsm_unmap`. */
    method BsmUnmap(p: int, v: int) returns (ok: bool)
      requires Valid()
      requires Unmappable(S(), p, v) ==> var mp := MappingAt(S(), p, v); Releasable(S(), p, mp.vpno, mp.vpno + mp.npages)
      modifies frm, phys, bsm, q, q.next
      ensures Valid() && S() == Lifecycle.BsmUnmap(old(S()), p, v)
      ensures ok == Unmappable(old(S()), p, v)
    {
      hide Queue.Valid, Releasable, Lifecycle.FreePages;
      if v < MIN_VPNO || v > MAX_VPNO {
        return false;
      }
      var r := BsmLookup(p, v);
      if r.None? {
        return false;
      }
      var i, k := r.value.store, r.value.pos;
      var c := bsm[i].maps[k];
      FreePages(p, c.vpno, c.vpno + c.npages);
      var maps := bsm[i].maps[..k] + bsm[i].maps[k + 1..];
      bsm[i] := bsm[i].(maps := maps);
      if maps == [] {
        bsm[i] := FREE_STORE;
      }
      return true;
    }

    /** `xmmap`. The check of the store's privacy comes before the check of its number; a
        number outside the table is taken here as not private. */
    method Xmmap(v: int, b: int, n: int) returns (ok: bool)
      requires Valid() && IsPid(cur)
      modifies bsm, proc
      ensures Valid()
      ensures var r := Lifecycle.Xmmap(old(S()), v, b, n);
        ok == r.Some? && S() == if ok then r.value else old(S())
    {
      if 0 <= b < MAX_NUM_BS && bsm[b].priv {
        return false;
      }
      ok := BsmMap(cur, v, b, n);
      if ok {
        proc[cur] := proc[cur].(store := PUBLIC);
      }
    }

    /** The search of `xmunmap` for a public mapping that is left. */
    method FindPublic(p: int) returns (found: bool)
      requires Valid()
      ensures found == HasPublic(S(), p)
    {
      var i := 0;
      while i < MAX_NUM_BS
        invariant 0 <= i <= MAX_NUM_BS
        invariant forall b, k {:trigger IsMap(S().bsm, b, k)} :: b < i && IsMap(S().bsm, b, k) && !S().bsm[b].priv ==> S().bsm[b].maps[k].pid != p
      {
        if bsm[i].mapped && !bsm[i].priv {
          var k := 0;
          while k < |bsm[i].maps|
            invariant 0 <= k <= |bsm[i].maps|
            invariant forall j :: 0 <= j < k ==> bsm[i].maps[j].pid != p
          {
            if bsm[i].maps[k].pid == p {
              assert IsMap(S().bsm, i, k);
              return true;
            }
            k := k + 1;
          }
        }
        i := i + 1;
      }
      return false;
    }

    /** `xmunmap`. */
    method Xmunmap(v: int) returns (ok: bool)
      requires Valid() && PagingInv.Valid(S()) && IsPid(cur)
      modifies frm, phys, bsm, proc, q, q.next
      ensures Valid()
      ensures var r := Lifecycle.Xmunmap(old(S()), v);
        ok == r.Some? && S() == if ok then r.value else old(S())
    {
      hide Queue.Valid, Inv, Lifecycle.FreePages, HasPublic, Releasable, Lookup;
      ghost var mp := if Unmappable(S(), cur, v) then MappingAt(S(), cur, v) else Mapping(0, 0, 0);
      ReleasableIf(S(), cur, mp.vpno, mp.vpno + mp.npages);
      ok := BsmUnmap(cur, v);
      if !ok {
        return;
      }
      if proc[cur].store != PUBLIC {
        proc[cur] := proc[cur].(store := NO_STORE);
      } else {
        var found := FindPublic(cur);
        if !found {
          proc[cur] := proc[cur].(store := NO_STORE);
        } else {
          assert proc[..][cur := proc[cur].(store := PUBLIC)] == proc[..];
        }
      }
    }

    // ----------------------------------------------------------------------------- kill

    method FreeFrameBy(i: int, p: int)
      requires Valid() && IsFrame(i) && PagesOk(S())
      modifies frm, phys, q, q.next
      ensures Valid()
      ensures S() ==
        if PageOf(old(S()), p, 0, NVPAGES, i) && Linked(old(S()), i) then Frames.FreeFrm(old(S()), i) else old(S())
    {
      if frm[i].mapped && frm[i].pid == p && frm[i].ftype == FR_PAGE {
        PageLinked(S(), i);
        FreeFrm(i);
      }
    }

    /** The first loop of `kill`. */
    method FreeAllPages(p: int)
      requires Valid() && PagingInv.Valid(S())
      modifies frm, phys, q, q.next
      ensures Valid() && S() == Lifecycle.FreePages(old(S()), p, 0, NVPAGES, NFRAMES)
    {
      hide Queue.Valid, Inv, PagesOk, PageOf, Linked, Frames.FreeFrm;
      ghost var s := S();
      var i := 0;
      while i < NFRAMES
        invariant 0 <= i <= NFRAMES && Valid() && S() == Lifecycle.FreePages(s, p, 0, NVPAGES, i)
      {
        FreePagesInv(s, p, 0, NVPAGES, i);
        InvParts(S(), -1, -1);
        FreeFrameBy(i, p);
        i := i + 1;
      }
    }

    /** The second loop of `kill`. */
    method FreeDir(p: int)
      requires Valid()
      modifies frm, q, q.next
      ensures Valid() && S() == Death.FreeDir(old(S()), p)
    {
      hide Queue.Valid, Without;
      var i := 0;
      while i < NFRAMES
        invariant 0 <= i <= NFRAMES && FirstDir(S().frm, p, 0) == FirstDir(S().frm, p, i)
        invariant Valid() && S() == old(S())
      {
        if frm[i].mapped && frm[i].pid == p && frm[i].ftype == FR_DIR {
          Retire(i);
          return;
        }
        i := i + 1;
      }
    }

    method UnmapThenFree(p: int, v: int, b: int)
      requires Valid() && NoPages(S(), p)
      modifies frm, phys, bsm, q, q.next
      ensures Valid() && S() == Death.UnmapThenFree(old(S()), p, v, b) && NoPages(S(), p)
    {
      hide Queue.Valid, NoPages, Lifecycle.BsmUnmap, Releasable, Death.FreeBsm;
      ghost var mp := if Unmappable(S(), p, v) then MappingAt(S(), p, v) else Mapping(0, 0, 0);
      ReleasableIf(S(), p, mp.vpno, mp.vpno + mp.npages);
      UnmapKeepsNone(S(), p, v, b);
      var _ := BsmUnmap(p, v);
      var _ := FreeBsm(b);
    }

    /** The public branch of `kill`: in every open public store, the first mapping of p. */
    method UnmapPublic(p: int)
      requires Valid() && NoPages(S(), p)
      modifies frm, phys, bsm, q, q.next
      ensures Valid() && S() == Death.UnmapPublic(old(S()), p, MAX_NUM_BS)
    {
      hide Queue.Valid, NoPages, Death.UnmapThenFree;
      ghost var s := S();
      var j := 0;
      while j < MAX_NUM_BS
        invariant 0 <= j <= MAX_NUM_BS && Valid() && S() == Death.UnmapPublic(s, p, j) && NoPages(S(), p)
      {
        if bsm[j].mapped && !bsm[j].priv {
          var maps, k := bsm[j].maps, 0;
          while k < |maps| && maps[k].pid != p
            invariant 0 <= k <= |maps| && FirstOf(maps, p, 0) == FirstOf(maps, p, k)
          {
            k := k + 1;
          }
          if k < |maps| {
            UnmapThenFree(p, maps[k].vpno, j);
          }
        }
        j := j + 1;
      }
    }

    method DropStores(p: int)
      requires Valid() && NoPages(S(), p) && IsPid(p)
      modifies frm, phys, bsm, proc, q, q.next
      ensures Valid() && S() == Death.DropStores(old(S()), p)
    {
      hide Queue.Valid, NoPages, Death.UnmapThenFree, Death.UnmapPublic;
      if proc[p].store != NO_STORE {
        if proc[p].store != PUBLIC {
          UnmapThenFree(p, proc[p].vhpno, proc[p].store);
        } else {
          UnmapPublic(p);
          proc[p] := proc[p].(store := NO_STORE, vhpno := 0, vhpnpages := 0);
        }
      }
    }

    /** The paging part of `kill`. The frames, the directory and the stores go before the
        process number is checked. */
    method Kill(p: int) returns (ok: bool)
      requires Valid() && PagingInv.Valid(S()) && IsPid(p)
      modifies frm, phys, bsm, proc, q, q.next
      ensures Valid() && S() == Death.Kill(old(S()), p)
      ensures ok <==> p != 0 && old(S()).proc[p].live
    {
      hide Queue.Valid, Inv, NoPages, Death.FreeDir, Death.DropStores, Lifecycle.FreePages;
      NoPagesAfter(S(), p);
      FreeAllPages(p);
      NoPagesFreeDir(S(), p);
      FreeDir(p);
      DropStores(p);
      if p == 0 || !proc[p].live {
        return false;
      }
      proc[p] := proc[p].(live := false);
      return true;
    }

    // ----------------------------------------------------------------------- page fault

    /** The branch of `pfint` that makes a page table. */
    method MakeTable(d: int) returns (ok: bool, t: int)
      requires Valid() && PagingInv.Valid(S()) && Live(S(), cur) && HasDir(S(), cur) && 0 <= d < NENTRIES
      modifies this`hand, frm, phys, q, q.next
      ensures Valid()
      ensures PagesOk(old(S())) && QueueNodes(old(S())) && AgesOk(old(S()))
      ensures ok == GetFrame.GetFrm(old(S())).Some?
      ensures ok ==>
        var (s1, f) := GetFrame.GetFrm(old(S())).value;
        t == f && IsFrame(f) && HasDir(s1, cur) && S() == AddTable(s1, cur, d, f)
    {
      hide Inv, Queue.Valid, GetFrame.GetFrm, PagesOk, QueueNodes, AgesOk, DirsOk, FramesOk;
      ghost var s := S();
      InvParts(s, -1, -1);
      GetFrmReady(s, -1, -1);
      ok, t := GetFrm(-1);
      if ok {
        GetFrmGrants(s);
        GetFrmKeepsAbsent(s, cur, d);
        SetFrm(t, MarkTable(frm[t], cur));
        var dir := proc[cur].pdbr;
        SetPage(dir, Dir(phys[dir].pd[d := Pde(true, FRAME0 + t)]));
        SetPage(FRAME0 + t, Table(EmptyTable()));
      }
    }

    /** The rest of `pfint` once a frame f is there for the page. */
    method Fill(v: int, b: int, page: int, t: int, f: int)
      requires Valid() && IsTable(S(), t) && IsFrame(f) && f != t && WellMapped(S().bsm, cur, v)
      requires 0 <= Slot(b, page) < NSLOTS && Slot(b, page) == SlotOf(S().bsm, cur, v)
      requires HasDir(S(), cur) && 0 <= v < NVPAGES && PdeAt(S(), cur, Pdi(v)).base == FRAME0 + t
      modifies frm, phys
      ensures Valid() && S() == FillPage(old(S()), cur, v, t, f)
    {
      hide Queue.Valid, Lookup;
      ghost var s := S();
      var tbl := phys[proc[cur].pdbr].pd[Pdi(v)].base;
      SetPage(FRAME0 + f, phys[SlotPage(Slot(b, page))]);
      SetFrm(f, MarkPage(frm[f], cur, v));
      SetPage(tbl, Table(phys[tbl].pt[Pti(v) := Pte(true, false, false, FRAME0 + f)]));
      SetFrm(t, MoreRef(frm[t]));
    }

    /** `pfint` at a legal address whose page the caller has located in its store. */
    method PageIn(v: int, b: int, page: int) returns (ok: bool)
      requires Valid() && PagingInv.Valid(S()) && Legal(S(), v)
      requires Slot(b, page) == SlotOf(S().bsm, cur, v)
      modifies this`hand, frm, phys, q, q.next
      ensures Valid()
      ensures ok == FaultStep.PageIn(old(S()), v).Some?
      ensures ok ==> FaultStep.PageIn(old(S()), v).value == S()
    {
      hide Inv, Queue.Valid, GetFrame.GetFrm, PagesOk, QueueNodes, AgesOk, DirsOk, FramesOk, Lookup, AddTable, FillPage;
      ghost var s := S();
      CurHasDir(s) by { InvParts(s, -1, -1); }
      var e := phys[proc[cur].pdbr].pd[Pdi(v)];
      var t := e.base - FRAME0;
      if !e.pres {
        ok, t := MakeTable(Pdi(v));
        if !ok {
          return;
        }
      }
      assert TableFor(s, v) == Some((S(), t));
      TableForReady(s, v);
      ghost var s1 := S();
      InvParts(s1, t, -1);
      GetFrmReady(s1, t, -1);
      var f;
      ok, f := GetFrm(t);
      if ok {
        GetFrmGrants(s1);
        GetFrmKeepsKind(s1, cur, t);
        GetFrmKeepsAbsent(s1, cur, Pdi(v));
        BaseKept(s1, cur, Pdi(v));
        Fill(v, b, page, t, f);
      }
    }

    /** `pfint` for the faulting address a. */
    method Pfint(a: int) returns (end: FaultEnd)
      requires Valid() && PagingInv.Valid(S()) && Live(S(), cur) && 0 <= a < NVPAGES * NBPG
      modifies this`hand, frm, phys, bsm, proc, q, q.next
      ensures Valid()
      ensures end == Killed <==> !Legal(old(S()), a / NBPG)
      ensures end == Killed ==> S() == Death.Kill(old(S()), cur)
      ensures end == Astray ==> FaultStep.PageIn(old(S()), a / NBPG) == None
      ensures end == Resumed ==> FaultStep.PageIn(old(S()), a / NBPG) == Some(S())
    {
      hide Inv, Queue.Valid, Lookup, FaultStep.PageIn, Death.Kill, Legal;
      var v := FaultVpno(a, NFRAMES);
      FaultVpnoRight(NFRAMES);
      FaultTest(S(), v);
      var r := BsmLookup(cur, v);
      if proc[cur].store == NO_STORE || r.None? {
        var _ := Kill(cur);
        return Killed;
      }
      LookupCovers(S().bsm, cur, v);
      var b := r.value.store;
      var ok := PageIn(v, b, v - bsm[b].maps[r.value.pos].vpno);
      return if ok then Resumed else Astray;
    }

    // ------------------------------------------------------------------ create, vcreate

    /** The paging part of `create`. */
    method Create(p: int) returns (ok: bool)
      requires Valid() && PagingInv.Valid(S()) && IsPid(p)
      modifies this`hand, frm, phys, proc, q, q.next
      ensures Valid()
      ensures PagesOk(old(S())) && QueueNodes(old(S())) && AgesOk(old(S())) && FramesOk(old(S()))
      ensures ok == Birth.Create(old(S()), p).Some?
      ensures ok ==> Birth.Create(old(S()), p).value == S()
    {
      hide Inv, Queue.Valid, GetFrame.GetFrm, PagesOk, QueueNodes, AgesOk, FramesOk, MakeDir;
      GetFrmReady(S(), -1, -1);
      ghost var s := S();
      var f;
      ok, f := GetFrm(-1);
      if ok {
        GetFrmGrants(s);
        NameDir(p, f, Proc(true, 0, NO_STORE, 0, 0));
      }
    }

    /** `get_bsm`. */
    method GetBsm() returns (b: int)
      requires Valid()
      ensures b == FirstClosed(S().bsm, 0)
    {
      b := 0;
      while b < MAX_NUM_BS && bsm[b].mapped
        invariant 0 <= b <= MAX_NUM_BS && FirstClosed(S().bsm, 0) == FirstClosed(S().bsm, b)
      {
        b := b + 1;
      }
    }

    /** The paging part of `vcreate`; not ok if the victim search goes astray, and otherwise
        `made` unless it returns SYSERR. */
    method Vcreate(p: int, n: int) returns (ok: bool, made: bool)
      requires Valid() && Spawnable(S(), p)
      modifies this`hand, frm, phys, bsm, proc, q, q.next
      ensures Valid()
      ensures ok == HeapBirth.Vcreate(old(S()), p, n).Some?
      ensures ok ==> HeapBirth.Vcreate(old(S()), p, n).value == (S(), made)
    {
      hide Inv, Queue.Valid, GetFrame.GetFrm, MakeDir, NoOrphans, Remapped, InitHeap, SetPrivate;
      ghost var s := S();
      var b := GetBsm();
      if b == MAX_NUM_BS {
        proc[p] := proc[p].(live := true);
        return true, false;
      }
      var mapped := BsmMap(p, MIN_VPNO, b, n);
      if !mapped {
        proc[p] := proc[p].(live := true);
        return true, false;
      }
      MappedInv(s, p, b, n);
      assert S() == Mapped(s, p, b, n);
      ghost var s1 := S();
      GetFrmReady(s1, -1, -1);
      var f;
      ok, f := GetFrm(-1);
      if ok {
        GetFrmGrants(s1);
        GetFrmKeepsInv(s1, -1);
        InvParts(S(), -1, f);
        FinishHeap(p, b, n, f);
        made := true;
      } else {
        made := false;
      }
    }

    /** The end of `vcreate`: the directory, the private mark, the heap's first block. */
    method FinishHeap(p: int, b: int, n: int, f: int)
      requires Valid() && IsPid(p) && IsFrame(f) && 0 <= b < MAX_NUM_BS && 1 <= n <= MAX_BS_PAGES
      requires S().phys[SlotPage(Slot(b, 0))].Data?
      modifies frm, phys, bsm, proc
      ensures Valid() && S() == InitHeap(MakeDir(SetPrivate(old(S()), b), p, f, Owner(b, n)), b, n)
    {
      hide Queue.Valid, NewDir, HeapHead;
      bsm[b] := bsm[b].(priv := true);
      NameDir(p, f, Owner(b, n));
      SetPage(SlotPage(Slot(b, 0)), Data(HeapHead(phys[SlotPage(Slot(b, 0))].bytes, n)));
    }

    /** `srpolicy`. */
    method SrPolicy(p: Policy)
      requires Valid()
      modifies this`policy, this`hand
      ensures Valid() && S() == SetPolicy(old(S()), p)
    {
      policy := p;
      if p == SC {
        hand := DUMMY;
      }
    }

    // ---------------------------------------------------------------------- the hardware

    /** The hardware reads a byte of a resident page. */
    method Fetch(v: int, off: int) returns (b: Byte)
      requires Valid() && 0 <= off < NBPG && Resident(S(), cur, v) && Backed(S(), v)
      modifies phys
      ensures Valid() && (S(), b) == Access.Read(old(S()), v, off)
    {
      var t := phys[proc[cur].pdbr].pd[Pdi(v)].base - FRAME0;
      var e := phys[FRAME0 + t].pt[Pti(v)];
      SetPteAt(t, Pti(v), e.(acc := true));
      b := phys[e.base].bytes[off];
    }

    /** The hardware writes a byte of a resident page. */
    method Put(v: int, off: int, b: Byte)
      requires Valid() && 0 <= off < NBPG && Resident(S(), cur, v) && Backed(S(), v)
      modifies phys
      ensures Valid() && S() == Access.Write(old(S()), v, off, b)
    {
      var t := phys[proc[cur].pdbr].pd[Pdi(v)].base - FRAME0;
      var e := phys[FRAME0 + t].pt[Pti(v)];
      SetPteAt(t, Pti(v), e.(acc := true, dirty := true));
      var page: Page := phys[e.base].bytes[off := b];
      SetPage(e.base, Data(page));
    }

    // ------------------------------------------------- an instruction that touches memory

    /** The hardware's walk. */
    method Walk(v: int) returns (there: bool)
      requires Valid() && HasDir(S(), cur) && 0 <= v < NVPAGES
      ensures there == Resident(S(), cur, v)
    {
      var e := phys[proc[cur].pdbr].pd[Pdi(v)];
      if !e.pres || !(0 <= e.base - FRAME0 < NFRAMES) {
        return false;
      }
      match phys[e.base]
      case Table(pt) => return pt[Pti(v)].pres;
      case _ => return false;
    }

    /** A page that is not there is brought in, and the instruction starts again. */
    method Touch(v: int, ghost m: Flat) returns (ok: bool)
      requires Valid() && Touchable(S(), v) && Represents(S(), m, NFRAMES)
      modifies this`hand, frm, phys, bsm, proc, q, q.next
      ensures Valid() && ok == Reachable(old(S()), v)
      ensures ok ==> Sound(S()) && Represents(S(), m, NFRAMES) && Legal(S(), v) && Resident(S(), cur, v)
      ensures ok ==> TouchSlot(S(), v) == TouchSlot(old(S()), v)
    {
      hide Inv, Queue.Valid, Lookup, FaultStep.PageIn, FaultSafe, Represents, NoOrphans, Resident;
      ghost var s := S();
      InvParts(s, -1, -1);
      CurHasDir(s);
      var there := Walk(v);
      if there {
        return true;
      }
      var end := Pfint(v * NBPG);
      assert v * NBPG / NBPG == v;
      if end == Resumed {
        ResumedTouch(s, S(), v, m);
      }
      return end == Resumed;
    }

    /** Whatever happened before, a load returns the byte of the flat memory; it is not
        finished only if a victim search went astray. */
    method LoadByte(v: int, off: int, ghost m: Flat) returns (r: Option<Byte>)
      requires Valid() && 0 <= off < NBPG && Touchable(S(), v) && Represents(S(), m, NFRAMES)
      modifies this`hand, frm, phys, bsm, proc, q, q.next
      ensures 0 <= TouchSlot(old(S()), v) < NSLOTS && (r.Some? ==> r.value == m[TouchSlot(old(S()), v)][off])
      ensures Valid() && r.Some? == Reachable(old(S()), v)
      ensures r.Some? ==> Sound(S()) && Represents(S(), m, NFRAMES)
    {
      hide Inv, Queue.Valid, Lookup, FaultStep.PageIn, FaultSafe, Represents, NoOrphans, Resident, Reachable;
      var ok := Touch(v, m);
      if !ok {
        return None;
      }
      ReadIsTransparent(S(), v, off, m);
      ghost var s1 := S();
      var b := Fetch(v, off);
      OrphansKept(s1, S());
      return Some(b);
    }

    /** A store changes that byte of the flat memory and nothing else. */
    method StoreByte(v: int, off: int, b: Byte, ghost m: Flat) returns (ok: bool)
      requires Valid() && 0 <= off < NBPG && Touchable(S(), v) && Represents(S(), m, NFRAMES)
      modifies this`hand, frm, phys, bsm, proc, q, q.next
      ensures 0 <= TouchSlot(old(S()), v) < NSLOTS && Valid() && ok == Reachable(old(S()), v)
      ensures ok ==> Sound(S()) && Represents(S(), Updated(m, TouchSlot(old(S()), v), off, b), NFRAMES)
    {
      hide Inv, Queue.Valid, Lookup, FaultStep.PageIn, FaultSafe, Represents, NoOrphans, Resident, Reachable;
      ok := Touch(v, m);
      if ok {
        WriteIsTransparent(S(), v, off, b, m);
        ghost var s1 := S();
        Put(v, off, b);
        OrphansKept(s1, S());
      }
    }
  }
}
