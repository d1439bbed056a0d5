/** Every system call keeps process states, lists, counts and priorities in agreement. */
module SchedOps {
  import opened Machine
  import opened DeltaList
  import opened QLists
  import opened QTable
  import opened Sched
  import opened SchedInv

  // ------------------------------------------------------------------------------ resched

  /** Nothing but the fields that resched and ready touch differs. */
  predicate SameLists(s: Sys, s2: Sys) {
    s2.sem == s.sem && s2.clock == s.clock && s2.slnempty == s.slnempty && s2.sltop == s.sltop && s2.defclk == s.defclk
    && s2.clkdiff == s.clkdiff
  }

  /** One process changes state, to one that no message wait depends on. */
  lemma StateMsg(s: Sys, s2: Sys, p: int)
    requires MsgBut(s, p) && IsPid(p) && St(s2, p) != PRRECV && St(s2, p) != PRTRECV
    requires forall q {:trigger s2.proc[q]} :: IsPid(q) && q != p ==> s2.proc[q] == s.proc[q]
    ensures MsgOk(s2)
  {
  }

  lemma StatePrio(s: Sys, s2: Sys, p: int)
    requires PrioOk(s) && IsPid(p) && s2.proc[p].prio == s.proc[p].prio
    requires p == 0 || 1 <= s.proc[p].prio <= MAXINT || St(s2, p) == PRFREE
    requires forall q {:trigger s2.proc[q]} :: IsPid(q) && q != p ==> s2.proc[q] == s.proc[q]
    ensures PrioOk(s2)
  {
  }

  lemma MakeReadyBase(s: Sys, p: int)
    requires Loose(s, p)
    ensures Base(MakeReady(s, p)) && SameLists(s, MakeReady(s, p))
  {
    hide HomesBut, Homes, ReadyOk, PrioOk, MsgOk, MsgBut, Natural, InsertKey;
    ReadyHomes(s, p);
    LooseParts(s, p);
    ReadyOrder(s, p);
    StateMsg(s, MakeReady(s, p), p);
    StatePrio(s, MakeReady(s, p), p);
  }

  lemma LooseParts(s: Sys, p: int)
    requires HomesBut(s, p)
    ensures IsPid(p) && Nowhere(s, p) && !Has(s.ready, p)
  {
  }

  /** A process on no list takes a state that has none. */
  lemma SettleBase(s: Sys, p: int, st: PState)
    requires Loose(s, p) && st != PRREADY && st != PRWAIT && st != PRRECV && !Sleepy(st) && (p == 0 ==> st == PRCURR)
    ensures Base(SetState(s, p, st)) && SameLists(s, SetState(s, p, st))
  {
    hide HomesBut, Homes, PrioOk, MsgOk, MsgBut, Natural;
    LooseParts(s, p);
    SettleHomes(s, p, st);
    StateMsg(s, SetState(s, p, st), p);
    StatePrio(s, SetState(s, p, st), p);
  }

  /** The tail of the ready list is at the top in priority, and the earliest there. */
  lemma DispatchLoose(s: Sys)
    requires Base(s) && s.ready != []
    ensures
      var n := |s.ready| - 1;
      var p := s.ready[n].pid;
      IsPid(p) && St(s, p) == PRREADY && Loose(s.(ready := s.ready[..n]), p)
      && s.ready[n].key == s.proc[p].prio && Single(s.ready)
  {
    LastLeaves(s);
    var n := |s.ready| - 1;
    var p := s.ready[n].pid;
    assert AtHome(s, p) && Has(s.ready, p);
  }

  /** With no process running the null process is ready. */
  lemma NullReady(s: Sys)
    requires Base(s) && CurrOk(s, false)
    ensures s.ready != [] && Homes(s) && ReadyOk(s)
  {
    assert AtHome(s, 0) && St(s, 0) == PRREADY;
    assert Has(s.ready, 0);
  }

  /** The running process after a dispatch. */
  lemma DispatchBase(s: Sys)
    requires Base(s) && CurrOk(s, false)
    ensures s.ready != [] && Base(Dispatch(s)) && SameLists(s, Dispatch(s)) && CurrOk(Dispatch(s), true) && PriOk(Dispatch(s))
  {
    hide Base, Homes, ReadyOk, PrioOk, MsgOk, Loose, AtHome;
    NullReady(s);
    var n := |s.ready| - 1;
    var p := s.ready[n].pid;
    DispatchLoose(s);
    var s1 := s.(ready := s.ready[..n]);
    SettleBase(s1, p, PRCURR);
    var s2 := Dispatch(s);
    assert s2 == SetState(s1, p, PRCURR).(cur := p, preempt := QUANTUM);
    BaseIgnores(SetState(s1, p, PRCURR), s2);
    forall q | IsPid(q) && St(s2, q) == PRREADY
      ensures s2.proc[q].prio <= s2.proc[p].prio
    {
      ReadyKey(s, q);
    }
  }

  /** The base of the invariant looks at processes, lists and history only. */
  lemma BaseIgnores(s: Sys, s2: Sys)
    requires Base(s) && s2.proc == s.proc && s2.sem == s.sem && s2.ready == s.ready && s2.clock == s.clock
    requires s2.stamp == s.stamp && s2.now == s.now
    ensures Base(s2)
  {
    forall q | IsPid(q)
      ensures AtHome(s2, q)
    {
      assert AtHome(s, q);
    }
  }

  /** A ready process stands on the list with its priority for a key, below the tail. */
  lemma ReadyKey(s: Sys, q: int)
    requires Homes(s) && ReadyOk(s) && IsPid(q) && St(s, q) == PRREADY
    ensures s.ready != [] && s.proc[q].prio <= LastKey(s.ready)
  {
    assert AtHome(s, q) && Has(s.ready, q);
    var k :| 0 <= k < |s.ready| && s.ready[k].pid == q;
  }

  /** The running process is moved to the ready list. */
  lemma CurrLoose(s: Sys)
    requires Base(s) && CurrOk(s, true)
    ensures Loose(s, s.cur)
  {
    HomelessNowhere(s, s.cur);
  }

  /** One process p changes state, and is then not running. */
  lemma StateCurr(s: Sys, s2: Sys, p: int)
    requires CurrOk(s, true) && IsPid(p) && St(s2, p) != PRCURR && s2.cur == s.cur
    requires forall q {:trigger s2.proc[q]} :: IsPid(q) && q != p ==> s2.proc[q].state == s.proc[q].state
    ensures CurrOk(s2, p != s.cur)
  {
    forall q | IsPid(q)
      ensures St(s2, q) == PRCURR <==> p != s.cur && q == s.cur
    {
      assert St(s, q) == PRCURR <==> q == s.cur;
      assert s2.proc[q].state == St(s2, q);
    }
  }

  /** resched: whoever runs afterwards outranks or equals every ready process. */
  lemma ReschedKeeps(s: Sys, r: bool)
    requires Base(s) && CurrOk(s, r)
    ensures Base(Resched(s)) && SameLists(s, Resched(s)) && CurrOk(Resched(s), true) && PriOk(Resched(s))
  {
    var c := s.proc[s.cur];
    if c.state == PRCURR && LastKey(s.ready) < c.prio {
      forall q | IsPid(q) && St(s, q) == PRREADY
        ensures s.proc[q].prio <= c.prio
      {
        ReadyKey(s, q);
      }
    } else if c.state == PRCURR {
      CurrLoose(s);
      MakeReadyBase(s, s.cur);
      StateCurr(s, MakeReady(s, s.cur), s.cur);
      DispatchBase(MakeReady(s, s.cur));
    } else {
      DispatchBase(s);
    }
  }

  /** The tail of the ready list outranks every other ready process. */
  lemma LastOutranks(s: Sys, q: int)
    requires Base(s) && IsPid(q) && St(s, q) == PRREADY
    ensures s.ready != []
    ensures
      var p := s.ready[|s.ready| - 1].pid;
      IsPid(p) && St(s, p) == PRREADY
      && (q != p ==> s.proc[q].prio < s.proc[p].prio || (s.proc[q].prio == s.proc[p].prio && s.stamp[q] > s.stamp[p]))
  {
    assert AtHome(s, q) && Has(s.ready, q);
    var k :| 0 <= k < |s.ready| && s.ready[k].pid == q;
    DispatchLoose(s);
    hide Homes, AtHome, Loose;
  }

  /** The process that resched picks when it switches: everyone else ready has a lower
      priority, or the same one and came to the ready list later. The process that gave up
      the processor counts as the last to come. */
  lemma DispatchesInOrder(s: Sys, r: bool, q: int)
    requires Base(s) && CurrOk(s, r) && !(r && LastKey(s.ready) < s.proc[s.cur].prio)
    requires IsPid(q) && (St(s, q) == PRREADY || (r && q == s.cur)) && q != Resched(s).cur
    ensures
      var s1 := if r then MakeReady(s, s.cur) else s;
      var p := Resched(s).cur;
      St(s1, p) == PRREADY
      && (s1.proc[q].prio < s1.proc[p].prio || (s1.proc[q].prio == s1.proc[p].prio && s1.stamp[q] > s1.stamp[p]))
  {
    hide Base, Loose, InsertKey;
    var s1 := if r then MakeReady(s, s.cur) else s;
    if r {
      CurrLoose(s);
      MakeReadyBase(s, s.cur);
    }
    LastOutranks(s1, q);
  }

  // --------------------------------------------------------------------------- semaphores

  lemma LooseFrom(s: Sys, s2: Sys, p: int)
    requires Base(s) && HomesBut(s2, p) && ReadyOk(s2) && s2.proc == s.proc && Natural(s2.clock) && St(s, p) != PRFREE
    ensures Loose(s2, p)
  {
  }

  /** Whoever changes state without running before or after leaves the running process be. */
  lemma CurrStays(s: Sys, s2: Sys, p: int)
    requires CurrOk(s, true) && IsPid(p) && St(s, p) != PRCURR && St(s2, p) != PRCURR && s2.cur == s.cur
    requires forall q {:trigger s2.proc[q]} :: IsPid(q) && q != p ==> s2.proc[q].state == s.proc[q].state
    ensures CurrOk(s2, true)
  {
    forall q | IsPid(q)
      ensures St(s2, q) == PRCURR <==> q == s.cur
    {
      assert St(s, q) == PRCURR <==> q == s.cur;
      assert s2.proc[q].state == St(s2, q);
    }
  }

  /** The null process is on no waiting list. */
  lemma WaiterNotNull(s: Sys, m: int, p: int)
    requires Base(s) && !BadSem(m) && p in s.sem[m].waiters
    ensures IsPid(p) && p != 0 && St(s, p) == PRWAIT && s.proc[p].sem == m
  {
    assert AtHome(s, p);
  }

  lemma ReadyIgnores(s: Sys, s2: Sys)
    requires ReadyOk(s) && s2.ready == s.ready && s2.proc == s.proc && s2.stamp == s.stamp && s2.now == s.now
    ensures ReadyOk(s2)
  {
  }

  lemma ReleaseKeeps(s: Sys, m: int)
    requires Base(s) && CurrOk(s, true) && !BadSem(m) && s.sem[m].waiters != []
    ensures Base(Release(s, m)) && CurrOk(Release(s, m), true)
    ensures
      var w := s.sem[m].waiters;
      SameLists(SetSem(s, m, s.sem[m].(waiters := w[1..])), Release(s, m))
  {
    hide Homes, AtHome, HomesBut, ReadyOk, PrioOk, MsgOk, Natural, Loose, InsertKey;
    var w := s.sem[m].waiters;
    var s1 := SetSem(s, m, s.sem[m].(waiters := w[1..]));
    WaiterNotNull(s, m, w[0]);
    WaiterLeaves(s, m);
    ReadyIgnores(s, s1);
    LooseFrom(s, s1, w[0]);
    MakeReadyBase(s1, w[0]);
    CurrStays(s, MakeReady(s1, w[0]), w[0]);
  }

  /** Counts and use marks are not looked at. */
  lemma BaseCount(s: Sys, m: int, x: Sem)
    requires Base(s) && !BadSem(m) && x.waiters == s.sem[m].waiters
    ensures Base(SetSem(s, m, x))
  {
    var s2 := SetSem(s, m, x);
    forall q | IsPid(q)
      ensures AtHome(s2, q)
    {
      assert AtHome(s, q);
    }
  }

  lemma SameRunner(s: Sys, s2: Sys)
    requires CurrOk(s, true) && s2.proc == s.proc && s2.cur == s.cur
    ensures CurrOk(s2, true)
  {
    forall q | IsPid(q)
      ensures St(s2, q) == St(s, q)
    {
    }
  }

  lemma CountAt(s: Sys, m: int)
    requires Counts(s) && !BadSem(m)
    ensures CountOk(s, m)
  {
  }

  /** The count went up and the first waiter left. */
  lemma FirstReleased(s: Sys, s1: Sys, s2: Sys, m: int)
    requires Counts(s) && !BadSem(m) && s.sem[m].used && s.sem[m].cnt < 0 && s.sem[m].waiters != []
    requires s1 == Count(s, m, s.sem[m].cnt + 1)
    requires SameLists(SetSem(s1, m, s1.sem[m].(waiters := s.sem[m].waiters[1..])), s2)
    ensures Counts(s2) && s2.sem[m].used && s2.sem[m].cnt == s.sem[m].cnt + 1
  {
    hide Counts;
    CountAt(s, m);
    var y := Sem(true, s.sem[m].cnt + 1, s.sem[m].waiters[1..]);
    assert s2.sem == s.sem[m := y];
    CountsSet(s, s2, m);
  }

  lemma SignalOneKeeps(s: Sys, m: int)
    requires Base(s) && CurrOk(s, true) && Counts(s) && !BadSem(m) && s.sem[m].used
    ensures var s2 := SignalOne(s, m);
      && Base(s2) && CurrOk(s2, true) && Counts(s2)
      && s2.clock == s.clock && s2.slnempty == s.slnempty && s2.sltop == s.sltop
      && s2.sem[m].used && s2.sem[m].cnt == s.sem[m].cnt + 1
  {
    hide Base, Counts, CurrOk, Release;
    var x := s.sem[m];
    CountAt(s, m);
    var s1 := Count(s, m, x.cnt + 1);
    BaseCount(s, m, x.(cnt := x.cnt + 1));
    SameRunner(s, s1);
    if x.cnt < 0 {
      ReleaseKeeps(s1, m);
      FirstReleased(s, s1, Release(s1, m), m);
    } else {
      CountsSet(s, s1, m);
    }
  }

  lemma {:induction false} SignalManyKeeps(s: Sys, m: int, n: nat)
    requires Base(s) && CurrOk(s, true) && Counts(s) && !BadSem(m) && s.sem[m].used
    ensures var s2 := SignalMany(s, m, n);
      && Base(s2) && CurrOk(s2, true) && Counts(s2)
      && s2.clock == s.clock && s2.slnempty == s.slnempty && s2.sltop == s.sltop
      && s2.sem[m].used && s2.sem[m].cnt == s.sem[m].cnt + n
  {
    hide Base, Counts, CurrOk, SignalOne;
    if n > 0 {
      SignalManyKeeps(s, m, n - 1);
      SignalOneKeeps(SignalMany(s, m, n - 1), m);
    }
  }

  /** Rescheduling completes the invariant. */
  lemma Finish(s: Sys, r: bool)
    requires IsPid(s.cur) && Base(s) && CurrOk(s, r) && Counts(s) && FlagsOk(s)
    ensures Inv(Resched(s))
  {
    hide Base, CurrOk, PriOk, Resched;
    ReschedKeeps(s, r);
    SameCounts(s, Resched(s));
  }

  lemma SameCounts(s: Sys, s2: Sys)
    requires Counts(s) && s2.sem == s.sem
    ensures Counts(s2)
  {
    forall n | !BadSem(n)
      ensures CountOk(s2, n)
    {
      assert CountOk(s, n);
    }
  }

  lemma CurIsPid(s: Sys)
    requires Inv(s)
    ensures IsPid(s.cur) && St(s, s.cur) == PRCURR
  {
  }

  /** wait keeps the invariant; the null process never calls it. */
  lemma WaitKeeps(s: Sys, m: int)
    requires Inv(s) && s.cur != 0
    ensures IsPid(s.cur) && Inv(Wait(s, m))
  {
    CurIsPid(s);
    hide Base, CurrOk, PriOk;
    if !BadSem(m) && s.sem[m].used {
      var x := s.sem[m];
      assert CountOk(s, m);
      if x.cnt - 1 >= 0 {
        BaseCount(s, m, x.(cnt := x.cnt - 1));
        CountsSet(s, Count(s, m, x.cnt - 1), m);
        SameRest(s, Count(s, m, x.cnt - 1));
      } else {
        BlockBase(s, m);
        Finish(Blocking(s, m), false);
      }
    }
  }

  /** Nothing that concerns the runner and the sleep queue differs. */
  lemma SameRest(s: Sys, s2: Sys)
    requires CurrOk(s, true) && PriOk(s) && FlagsOk(s) && s2.proc == s.proc && s2.cur == s.cur
    requires s2.clock == s.clock && s2.slnempty == s.slnempty && s2.sltop == s.sltop
    ensures CurrOk(s2, true) && PriOk(s2) && FlagsOk(s2)
  {
    forall q | IsPid(q)
      ensures St(s2, q) == St(s, q) && s2.proc[q] == s.proc[q]
    {
    }
  }

  lemma CountsSet(s: Sys, s2: Sys, m: int)
    requires Counts(s) && !BadSem(m) && CountOk(s2, m) && s2.sem == s.sem[m := s2.sem[m]]
    ensures Counts(s2)
  {
    forall n | !BadSem(n)
      ensures CountOk(s2, n)
    {
      assert n != m ==> CountOk(s, n);
    }
  }

  lemma ReadyPart(s: Sys)
    requires Base(s)
    ensures ReadyOk(s)
  {
  }

  lemma BaseOf(s: Sys)
    requires Homes(s) && ReadyOk(s) && NullOk(s) && PrioOk(s) && MsgOk(s) && Natural(s.clock)
    ensures Base(s)
  {
  }

  /** The ready list does not depend on states. */
  lemma StateReady(s: Sys, s2: Sys, p: int)
    requires ReadyOk(s) && IsPid(p) && s2.proc[p].prio == s.proc[p].prio && s2.ready == s.ready && s2.stamp == s.stamp && s2.now == s.now
    requires forall q {:trigger s2.proc[q]} :: IsPid(q) && q != p ==> s2.proc[q] == s.proc[q]
    ensures ReadyOk(s2)
  {
  }

  lemma BlockBase(s: Sys, m: int)
    requires Inv(s) && s.cur != 0 && !BadSem(m) && s.sem[m].used && s.sem[m].cnt <= 0
    ensures IsPid(s.cur)
    ensures var s1 := Blocking(s, m); Base(s1) && CurrOk(s1, false) && Counts(s1) && FlagsOk(s1)
  {
    CurIsPid(s);
    assert CountOk(s, m);
    CurrLoose(s);
    hide Homes, HomesBut, ReadyOk, Counts, Base, PriOk;
    assert ReadyOk(s) by { ReadyPart(s); }
    var x := s.sem[m];
    var pr := s.proc[s.cur].(state := PRWAIT, sem := m, waitret := OK);
    var s1 := Blocking(s, m);
    WaiterJoins(s, s.cur, m, pr, x.cnt - 1);
    StateMsg(s, s1, s.cur);
    StatePrio(s, s1, s.cur);
    StateCurr(s, s1, s.cur);
    StateReady(s, s1, s.cur);
    CountsSet(s, s1, m);
    BaseOf(s1);
  }

  lemma SignalKeeps(s: Sys, m: int)
    requires Inv(s)
    ensures IsPid(s.cur) && Inv(Signal(s, m))
  {
    CurIsPid(s);
    if !BadSem(m) && s.sem[m].used {
      SignalOneKeeps(s, m);
      if s.sem[m].cnt < 0 {
        Finish(SignalOne(s, m), true);
      } else {
        assert SignalOne(s, m) == Count(s, m, s.sem[m].cnt + 1);
      }
    }
  }

  lemma SignalnKeeps(s: Sys, m: int, n: int)
    requires Inv(s)
    ensures IsPid(s.cur) && Inv(Signaln(s, m, n))
  {
    CurIsPid(s);
    if !BadSem(m) && s.sem[m].used && n > 0 {
      SignalManyKeeps(s, m, n);
      Finish(SignalMany(s, m, n), true);
    }
  }

  lemma SetRet(s: Sys, p: int, v: int)
    requires Base(s) && CurrOk(s, true) && IsPid(p)
    ensures var s2 := s.(proc := s.proc[p := s.proc[p].(waitret := v)]); Base(s2) && CurrOk(s2, true)
  {
    var s2 := s.(proc := s.proc[p := s.proc[p].(waitret := v)]);
    forall q | IsPid(q)
      ensures AtHome(s2, q) && St(s2, q) == St(s, q) && s2.proc[q].prio == s.proc[q].prio && s2.proc[q].hasmsg == s.proc[q].hasmsg
    {
      assert AtHome(s, q);
    }
    assert CurrOk(s2, true) by {
      forall q | IsPid(q)
        ensures St(s2, q) == PRCURR <==> q == s.cur
      {
        assert St(s, q) == PRCURR <==> q == s.cur;
      }
    }
  }

  lemma {:induction false} ReleaseAllKeeps(s: Sys, m: int, ret: Option<int>)
    requires Base(s) && CurrOk(s, true) && !BadSem(m)
    ensures var s2 := ReleaseAll(s, m, ret);
      && Base(s2) && CurrOk(s2, true) && s2.sem == s.sem[m := s.sem[m].(waiters := [])]
      && s2.clock == s.clock && s2.slnempty == s.slnempty && s2.sltop == s.sltop
    decreases |s.sem[m].waiters|
  {
    hide Base, CurrOk, Release;
    var w := s.sem[m].waiters;
    if w == [] {
      assert s.sem == s.sem[m := s.sem[m].(waiters := [])];
    } else {
      var s1 := if ret.Some? && IsPid(w[0]) then s.(proc := s.proc[w[0] := s.proc[w[0]].(waitret := ret.value)]) else s;
      if ret.Some? && IsPid(w[0]) { SetRet(s, w[0], ret.value); }
      ReleaseKeeps(s1, m);
      ReleaseAllKeeps(Release(s1, m), m, ret);
    }
  }

  lemma SresetKeeps(s: Sys, m: int, n: int)
    requires Inv(s)
    ensures IsPid(s.cur) && Inv(Sreset(s, m, n))
  {
    CurIsPid(s);
    hide Base, CurrOk, PriOk, Counts, ReleaseAll;
    if !BadSem(m) && n >= 0 && s.sem[m].used {
      ReleaseAllKeeps(s, m, None);
      var s1 := ReleaseAll(s, m, None);
      var s2 := Count(s1, m, n);
      BaseCount(s1, m, s1.sem[m].(cnt := n));
      CountsSet(s, s2, m);
      SameRunner(s1, s2);
      Finish(s2, true);
    }
  }

  /** A semaphore that is being deleted, its waiters released. */
  lemma SdeleteBase(s: Sys, m: int)
    requires Inv(s) && !BadSem(m) && s.sem[m].used
    ensures IsPid(s.cur)
    ensures
      var s1 := SetSem(s, m, s.sem[m].(used := false));
      var s2 := ReleaseAll(s1, m, Some(DELETED));
      Base(s1) && CurrOk(s1, true) && Base(s2) && CurrOk(s2, true) && Counts(s2) && FlagsOk(s2)
  {
    CurIsPid(s);
    hide Base, CurrOk, PriOk, Counts, ReleaseAll, CountOk;
    var s1 := SetSem(s, m, s.sem[m].(used := false));
    BaseCount(s, m, s.sem[m].(used := false));
    SameRunner(s, s1);
    ReleaseAllKeeps(s1, m, Some(DELETED));
    var s2 := ReleaseAll(s1, m, Some(DELETED));
    assert s2.sem == s.sem[m := Sem(false, s.sem[m].cnt, [])];
    NoCount(s2, m);
    CountsSet(s, s2, m);
  }

  lemma NoCount(s: Sys, m: int)
    requires !BadSem(m) && !s.sem[m].used && s.sem[m].waiters == []
    ensures CountOk(s, m)
  {
  }

  lemma SdeleteKeeps(s: Sys, m: int)
    requires Inv(s)
    ensures IsPid(s.cur) && Inv(Sdelete(s, m))
  {
    CurIsPid(s);
    hide Base, CurrOk, PriOk, Counts, Resched;
    if !BadSem(m) && s.sem[m].used {
      var s1 := SetSem(s, m, s.sem[m].(used := false));
      SdeleteBase(s, m);
      if s.sem[m].waiters == [] {
        SameRest(s, s1);
      } else {
        Finish(ReleaseAll(s1, m, Some(DELETED)), true);
      }
    }
  }

  lemma ScreateKeeps(s: Sys, m: int, n: int)
    requires Inv(s) && !BadSem(m) && !s.sem[m].used
    ensures Inv(Screate(s, m, n))
  {
    if n >= 0 {
      assert CountOk(s, m);
      hide Base, CurrOk, PriOk, Counts;
      BaseCount(s, m, s.sem[m].(used := true, cnt := n));
      CountsSet(s, Screate(s, m, n), m);
      SameRest(s, Screate(s, m, n));
    }
  }
}
