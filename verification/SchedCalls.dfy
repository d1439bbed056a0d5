/** The rest of the system calls: suspension, priorities, birth and death, messages, the sleep
    queue and the clock. */
module SchedCalls {
  import opened Machine
  import opened DeltaList
  import opened QLists
  import opened QTable
  import opened Sched
  import opened SchedInv
  import opened SchedOps

  // -------------------------------------------------------------- one process and the rest

  /** What a step that moves one other process leaves to show. */
  lemma MovedOther(s: Sys, s2: Sys, p: int)
    requires Inv(s) && IsPid(p) && p != s.cur && Base(s2) && Counts(s2) && FlagsOk(s2) && s2.cur == s.cur
    requires forall q {:trigger s2.proc[q]} :: IsPid(q) && q != p ==> s2.proc[q] == s.proc[q]
    requires St(s2, p) != PRCURR && St(s2, p) != PRREADY
    ensures Inv(s2)
  {
    forall q | IsPid(q)
      ensures St(s2, q) == PRCURR <==> q == s2.cur
      ensures St(s2, q) == PRREADY ==> s2.proc[q].prio <= s2.proc[s2.cur].prio
    {
      assert St(s, q) == PRCURR <==> q == s.cur;
      assert q != p ==> s2.proc[q] == s.proc[q];
    }
  }

  lemma NotNull(s: Sys, p: int)
    requires Inv(s) && IsPid(p) && St(s, p) != PRCURR && St(s, p) != PRREADY
    ensures p != 0 && p != s.cur
  {
  }

  // ------------------------------------------------------------------- suspend and resume

  /** A ready process is taken off the list and put into a state that has none. */
  lemma UnreadySettles(s: Sys, p: int, st: PState)
    requires Inv(s) && 0 < p < NPROC && St(s, p) == PRREADY && (st == PRSUSP || st == PRFREE)
    ensures Inv(SetState(Unready(s, p), p, st))
  {
    UnreadyHomes(s, p);
    UnreadyOrder(s, p);
    var s1 := Unready(s, p);
    LooseFrom(s, s1, p);
    SettleBase(s1, p, st);
    SameCounts(s, SetState(s1, p, st));
    MovedOther(s, SetState(s1, p, st), p);
  }

  /** The running process stops running, in a state that has no list. */
  lemma RunnerBase(s: Sys, s1: Sys, st: PState)
    requires Inv(s) && s.cur != 0 && IsPid(s.cur) && s1 == SetState(s, s.cur, st)
    requires st == PRSUSP || st == PRFREE || (st == PRRECV && !s.proc[s.cur].hasmsg)
    ensures Base(s1) && CurrOk(s1, false) && Counts(s1) && FlagsOk(s1)
  {
    CurrLoose(s);
    SettleHomes(s, s.cur, st);
    StatePrio(s, s1, s.cur);
    StateReady(s, s1, s.cur);
    StateCurr(s, s1, s.cur);
    SameCounts(s, s1);
    assert MsgOk(s1) by {
      forall q | IsPid(q) && (St(s1, q) == PRRECV || St(s1, q) == PRTRECV)
        ensures !s1.proc[q].hasmsg
      {
        assert q != s.cur ==> s1.proc[q] == s.proc[q];
      }
    }
    BaseOf(s1);
  }

  lemma RunnerSettles(s: Sys, s1: Sys, st: PState)
    requires Inv(s) && s.cur != 0 && IsPid(s.cur) && s1 == SetState(s, s.cur, st)
    requires st == PRSUSP || st == PRFREE || (st == PRRECV && !s.proc[s.cur].hasmsg)
    ensures Inv(Resched(s1))
  {
    RunnerBase(s, s1, st);
    hide Base, CurrOk, Counts;
    Finish(s1, false);
  }

  /** suspend keeps the invariant, whomever it suspends. */
  lemma SuspendKeeps(s: Sys, p: int)
    requires Inv(s)
    ensures IsPid(s.cur) && Inv(Suspend(s, p))
  {
    CurIsPid(s);
    hide Inv;
    if !BadPid(p) && St(s, p) == PRREADY {
      UnreadySettles(s, p, PRSUSP);
      assert Unready(SetState(s, p, PRSUSP), p) == SetState(Unready(s, p), p, PRSUSP);
    } else if !BadPid(p) && St(s, p) == PRCURR {
      OnlyRunner(s, p);
      RunnerSettles(s, SetState(s, p, PRSUSP), PRSUSP);
    }
  }

  lemma OnlyRunner(s: Sys, p: int)
    requires Inv(s) && IsPid(p) && St(s, p) == PRCURR
    ensures p == s.cur
  {
  }

  /** A process that was on no list is readied, and the processor is handed out again. */
  lemma ReadyBase(s: Sys, s1: Sys, p: int)
    requires CurrOk(s, true) && Loose(s1, p) && p != 0 && p != s.cur && Counts(s1) && FlagsOk(s1) && s1.cur == s.cur
    requires forall q {:trigger s1.proc[q]} :: IsPid(q) && q != p ==> s1.proc[q].state == s.proc[q].state
    ensures IsPid(p) && Ready(s1, p) == MakeReady(s1, p)
    ensures var s2 := MakeReady(s1, p); Base(s2) && CurrOk(s2, true) && Counts(s2) && FlagsOk(s2)
  {
    MakeReadyBase(s1, p);
    var s2 := MakeReady(s1, p);
    forall q | IsPid(q)
      ensures St(s2, q) == PRCURR <==> q == s2.cur
    {
      assert St(s, q) == PRCURR <==> q == s.cur;
      assert q != p ==> s1.proc[q].state == s.proc[q].state;
    }
    SameCounts(s1, s2);
  }

  lemma ReadyFinish(s: Sys, s1: Sys, p: int)
    requires CurrOk(s, true) && Loose(s1, p) && p != 0 && p != s.cur && Counts(s1) && FlagsOk(s1) && s1.cur == s.cur
    requires forall q {:trigger s1.proc[q]} :: IsPid(q) && q != p ==> s1.proc[q].state == s.proc[q].state
    ensures IsPid(s.cur) && Inv(Resched(Ready(s1, p)))
  {
    ReadyBase(s, s1, p);
    hide Base, Counts;
    Finish(Ready(s1, p), true);
  }

  /** resume keeps the invariant. */
  lemma ResumeKeeps(s: Sys, p: int)
    requires Inv(s)
    ensures IsPid(s.cur) && Inv(Resume(s, p))
  {
    CurIsPid(s);
    if !BadPid(p) && St(s, p) == PRSUSP {
      NotNull(s, p);
      HomelessNowhere(s, p);
      ReadyFinish(s, s, p);
    }
  }

  // ------------------------------------------------------------------------------- chprio

  /** Another priority for a process that is not on the ready list. */
  lemma PrioSet(s: Sys, p: int, n: int)
    requires Base(s) && 0 < p < NPROC && St(s, p) != PRREADY && 1 <= n <= MAXINT
    ensures Base(s.(proc := s.proc[p := s.proc[p].(prio := n)]))
  {
    var s2 := s.(proc := s.proc[p := s.proc[p].(prio := n)]);
    assert AtHome(s, p);
    forall q | IsPid(q)
      ensures AtHome(s2, q)
    {
      assert AtHome(s, q);
    }
    forall k | 0 <= k < |s.ready|
      ensures s.ready[k].pid != p
    {
      assert !Has(s.ready, p);
    }
  }

  /** Another priority for a process that is being moved. */
  lemma LoosePrio(s: Sys, p: int, n: int)
    requires Loose(s, p) && p != 0 && 1 <= n <= MAXINT
    ensures Loose(s.(proc := s.proc[p := s.proc[p].(prio := n)]), p)
  {
    var s2 := s.(proc := s.proc[p := s.proc[p].(prio := n)]);
    forall q | IsPid(q) && q != p
      ensures AtHome(s2, q)
    {
      assert AtHome(s, q);
    }
    forall k | 0 <= k < |s.ready|
      ensures s.ready[k].pid != p
    {
      assert !Has(s.ready, p);
    }
  }

  lemma PrioLoose(s: Sys, p: int, n: int)
    requires Base(s) && 0 < p < NPROC && St(s, p) == PRREADY && 1 <= n <= MAXINT
    ensures Loose(Unready(s.(proc := s.proc[p := s.proc[p].(prio := n)]), p), p)
  {
    UnreadyHomes(s, p);
    UnreadyOrder(s, p);
    LooseFrom(s, Unready(s, p), p);
    LoosePrio(Unready(s, p), p, n);
  }

  /** chprio keeps the invariant: the ready list follows the new priority. */
  lemma ChprioKeeps(s: Sys, p: int, n: int)
    requires Inv(s) && n <= MAXINT
    ensures IsPid(s.cur) && Inv(Chprio(s, p, n))
  {
    CurIsPid(s);
    if !BadPid(p) && n > 0 && St(s, p) != PRFREE {
      var s1 := s.(proc := s.proc[p := s.proc[p].(prio := n)]);
      SameCounts(s, s1);
      if St(s, p) == PRREADY {
        PrioLoose(s, p, n);
        SameCounts(s, Unready(s1, p));
        ReadyFinish(s, Unready(s1, p), p);
      } else {
        PrioSet(s, p, n);
        if St(s, p) == PRCURR {
          assert CurrOk(s1, true) by { SameStates(s, s1); }
          Finish(s1, true);
        } else {
          MovedOther(s, s1, p);
        }
      }
    }
  }

  lemma SameStates(s: Sys, s2: Sys)
    requires CurrOk(s, true) && s2.cur == s.cur && forall q {:trigger s2.proc[q]} :: IsPid(q) ==> s2.proc[q].state == s.proc[q].state
    ensures CurrOk(s2, true)
  {
    forall q | IsPid(q)
      ensures St(s2, q) == St(s, q)
    {
      assert s2.proc[q].state == s.proc[q].state;
    }
  }

  // ---------------------------------------------------------------------- birth and death

  /** create and vcreate fill a free slot with a suspended process. */
  lemma BornKeeps(s: Sys, p: int, n: int)
    requires Inv(s) && IsPid(p) && St(s, p) == PRFREE && 1 <= n <= MAXINT
    ensures Inv(Born(s, p, n))
  {
    var s2 := Born(s, p, n);
    NotNull(s, p);
    assert AtHome(s, p);
    forall q | IsPid(q)
      ensures AtHome(s2, q)
    {
      assert AtHome(s, q);
    }
    forall k | 0 <= k < |s.ready|
      ensures s.ready[k].pid != p
    {
      assert !Has(s.ready, p);
    }
    SameCounts(s, s2);
    MovedOther(s, s2, p);
  }

  lemma WaitsThere(s: Sys, p: int)
    requires Inv(s) && IsPid(p) && St(s, p) == PRWAIT
    ensures var m := s.proc[p].sem; !BadSem(m) && p in s.sem[m].waiters && NoDup(s.sem[m].waiters) && CountOk(s, m)
  {
    assert AtHome(s, p);
    var m := s.proc[p].sem;
    assert CountOk(s, m);
  }

  lemma CancelLoose(s: Sys, p: int)
    requires Inv(s) && 0 < p < NPROC && St(s, p) == PRWAIT
    ensures
      var m := s.proc[p].sem;
      !BadSem(m) && Loose(SetSem(s, m, Sem(s.sem[m].used, s.sem[m].cnt + 1, Cancel(s.sem[m].waiters, p))), p)
  {
    var m := s.proc[p].sem;
    WaitsThere(s, p);
    WaiterCancelled(s, p, s.sem[m].cnt + 1);
    LooseFrom(s, SetSem(s, m, Sem(s.sem[m].used, s.sem[m].cnt + 1, Cancel(s.sem[m].waiters, p))), p);
  }

  lemma DieWaiting(s: Sys, p: int)
    requires Inv(s) && 0 < p < NPROC && St(s, p) == PRWAIT
    ensures IsPid(s.cur) && Inv(Die(s, p))
  {
    CurIsPid(s);
    NotNull(s, p);
    WaitsThere(s, p);
    CancelLoose(s, p);
    hide Loose, Base, Homes, CurrOk, PriOk;
    var m := s.proc[p].sem;
    var x := s.sem[m];
    var s1 := SetSem(s, m, Sem(x.used, x.cnt + 1, Cancel(x.waiters, p)));
    CancelHas(x.waiters, p, p);
    SettleBase(s1, p, PRFREE);
    CountsSet(s, SetState(s1, p, PRFREE), m);
    MovedOther(s, SetState(s1, p, PRFREE), p);
  }

  /** The flags after an early wake-up. */
  lemma UnqueueFlags(s: Sys, p: int)
    requires FlagsOk(s) && Single(s.clock) && Has(s.clock, p)
    ensures FlagsOk(Unqueue(s, p))
  {
  }

  lemma SleeperLoose(s: Sys, p: int)
    requires Inv(s) && IsPid(p) && Sleepy(St(s, p))
    ensures p != 0 && p != s.cur && Loose(Unqueue(s, p), p) && FlagsOk(Unqueue(s, p)) && Counts(Unqueue(s, p))
  {
    NotNull(s, p);
    assert AtHome(s, p);
    UnqueueHomes(s, p);
    UnqueueFlags(s, p);
    LooseFrom(s, Unqueue(s, p), p);
    SameCounts(s, Unqueue(s, p));
  }

  /** kill keeps the invariant: whatever list the process was on, it is off it, and a
      semaphore it waited for counts one waiter less. */
  lemma DieKeeps(s: Sys, p: int)
    requires Inv(s)
    ensures IsPid(s.cur) && Inv(Die(s, p))
  {
    CurIsPid(s);
    hide Inv, Loose, Base, Counts, Unqueue;
    if !BadPid(p) && St(s, p) != PRFREE {
      match St(s, p)
      case PRCURR =>
        OnlyRunner(s, p);
        RunnerSettles(s, SetState(s, p, PRFREE), PRFREE);
      case PRWAIT => DieWaiting(s, p);
      case PRREADY => UnreadySettles(s, p, PRFREE);
      case PRSLEEP => DieAsleep(s, p);
      case PRTRECV => DieAsleep(s, p);
      case _ => DieIdle(s, p);
    }
  }

  lemma DieAsleep(s: Sys, p: int)
    requires Inv(s) && 0 < p < NPROC && Sleepy(St(s, p))
    ensures Inv(SetState(Unqueue(s, p), p, PRFREE))
  {
    SleeperLoose(s, p);
    SettleBase(Unqueue(s, p), p, PRFREE);
    SameCounts(Unqueue(s, p), SetState(Unqueue(s, p), p, PRFREE));
    MovedOther(s, SetState(Unqueue(s, p), p, PRFREE), p);
  }

  lemma DieIdle(s: Sys, p: int)
    requires Inv(s) && 0 < p < NPROC && (St(s, p) == PRSUSP || St(s, p) == PRRECV)
    ensures Inv(SetState(s, p, PRFREE))
  {
    NotNull(s, p);
    HomelessNowhere(s, p);
    SettleBase(s, p, PRFREE);
    SameCounts(s, SetState(s, p, PRFREE));
    MovedOther(s, SetState(s, p, PRFREE), p);
  }

  // ----------------------------------------------------------------- messages and sleeping

  /** Taking or storing a message changes nothing the invariant looks at, unless the process
      waits for one. */
  lemma MessageBase(s: Sys, p: int, pr: PEntry)
    requires Inv(s) && IsPid(p) && pr.state == s.proc[p].state && pr.prio == s.proc[p].prio && pr.sem == s.proc[p].sem
    requires pr.hasmsg ==> pr.state != PRRECV && pr.state != PRTRECV
    ensures Inv(s.(proc := s.proc[p := pr]))
  {
    hide AtHome, Has;
    var s2 := s.(proc := s.proc[p := pr]);
    forall q | IsPid(q)
      ensures AtHome(s2, q) && St(s2, q) == St(s, q) && s2.proc[q].prio == s.proc[q].prio
    {
      SameHome(s, s2, q);
    }
    SameStates(s, s2);
    SameCounts(s, s2);
  }

  lemma SameHome(s: Sys, s2: Sys, q: int)
    requires IsPid(q) && Homes(s) && s2 == s.(proc := s2.proc)
    requires s2.proc[q].state == s.proc[q].state && s2.proc[q].sem == s.proc[q].sem
    ensures AtHome(s2, q)
  {
    assert AtHome(s, q);
  }

  lemma CollectKeeps(s: Sys)
    requires Inv(s)
    ensures IsPid(s.cur) && Inv(Collect(s))
  {
    CurIsPid(s);
    MessageBase(s, s.cur, s.proc[s.cur].(hasmsg := false));
  }

  /** receive keeps the invariant; the null process never calls it. */
  lemma ReceiveKeeps(s: Sys)
    requires Inv(s) && s.cur != 0
    ensures IsPid(s.cur) && Inv(Receive(s))
  {
    CurIsPid(s);
    CollectKeeps(s);
    if !s.proc[s.cur].hasmsg {
      RunnerSettles(s, SetState(s, s.cur, PRRECV), PRRECV);
    }
  }

  /** A process that is being moved gets a message. */
  lemma LooseMsg(s: Sys, p: int, pr: PEntry)
    requires Loose(s, p) && pr.prio == s.proc[p].prio && pr.state == s.proc[p].state
    ensures Loose(s.(proc := s.proc[p := pr]), p)
  {
    var s2 := s.(proc := s.proc[p := pr]);
    forall q | IsPid(q) && q != p
      ensures AtHome(s2, q)
    {
      assert AtHome(s, q);
    }
    forall k | 0 <= k < |s.ready|
      ensures s.ready[k].pid != p
    {
      assert !Has(s.ready, p);
    }
  }

  lemma SendReceiver(s: Sys, p: int, pr: PEntry)
    requires Inv(s) && 0 < p < NPROC && St(s, p) == PRRECV && pr.state == PRRECV && pr.prio == s.proc[p].prio
    ensures IsPid(s.cur) && Inv(Resched(Ready(s.(proc := s.proc[p := pr]), p)))
  {
    var s1 := s.(proc := s.proc[p := pr]);
    NotNull(s, p);
    HomelessNowhere(s, p);
    LooseFrom(s, s, p);
    LooseMsg(s, p, pr);
    SameCounts(s, s1);
    hide Loose, Base, Counts;
    ReadyFinish(s, s1, p);
  }

  lemma UnqueueOnly(s: Sys, p: int, procs: Procs)
    ensures Unqueue(s.(proc := procs), p) == Unqueue(s, p).(proc := procs)
    ensures Unqueue(s, p).proc == s.proc && Unqueue(s, p).sem == s.sem && Unqueue(s, p).cur == s.cur
  {
  }

  lemma SendTimed(s: Sys, p: int, pr: PEntry)
    requires Inv(s) && 0 < p < NPROC && St(s, p) == PRTRECV && pr.state == PRTRECV && pr.prio == s.proc[p].prio
    ensures IsPid(s.cur) && Inv(Resched(Ready(Unqueue(s.(proc := s.proc[p := pr]), p), p)))
  {
    var s1 := s.(proc := s.proc[p := pr]);
    SleeperLoose(s, p);
    UnqueueOnly(s, p, s1.proc);
    hide Loose, Base, Counts, Unqueue, PriOk;
    LooseMsg(Unqueue(s, p), p, pr);
    SameCounts(Unqueue(s, p), Unqueue(s1, p));
    ReadyFinish(s, Unqueue(s1, p), p);
  }

  /** send keeps the invariant: a process that waits for a message becomes ready with it, and
      leaves the sleep queue if it was timing the wait. */
  lemma SendKeeps(s: Sys, p: int, w: int)
    requires Inv(s)
    ensures IsPid(s.cur) && Inv(Send(s, p, w))
  {
    CurIsPid(s);
    hide Inv, Resched, Unqueue, Ready;
    if !(BadPid(p) || St(s, p) == PRFREE || s.proc[p].hasmsg) {
      var pr := s.proc[p].(hasmsg := true, msg := w);
      if St(s, p) == PRRECV {
        SendReceiver(s, p, pr);
      } else if St(s, p) == PRTRECV {
        SendTimed(s, p, pr);
      } else {
        MessageBase(s, p, pr);
      }
    }
  }

  /** The running process joins the sleep queue. */
  lemma DozeBase(s: Sys, n: int, st: PState)
    requires Inv(s) && s.cur != 0 && n >= 0 && Sleepy(st) && IsPid(s.cur) && (st == PRTRECV ==> !s.proc[s.cur].hasmsg)
    ensures var s1 := Doze(s, n, st); Base(s1) && CurrOk(s1, false) && Counts(s1) && FlagsOk(s1)
  {
    CurIsPid(s);
    CurrLoose(s);
    DozeHomes(s, n, st);
    var s1 := Doze(s, n, st);
    StatePrio(s, s1, s.cur);
    StateReady(s, s1, s.cur);
    StateCurr(s, s1, s.cur);
    SameCounts(s, s1);
    assert MsgOk(s1) by {
      forall q | IsPid(q) && (St(s1, q) == PRRECV || St(s1, q) == PRTRECV)
        ensures !s1.proc[q].hasmsg
      {
        assert q != s.cur ==> s1.proc[q] == s.proc[q];
      }
    }
    BaseOf(s1);
  }

  lemma DozeKeeps(s: Sys, n: int, st: PState)
    requires Inv(s) && s.cur != 0 && n >= 0 && Sleepy(st) && IsPid(s.cur) && (st == PRTRECV ==> !s.proc[s.cur].hasmsg)
    ensures Inv(Resched(Doze(s, n, st)))
  {
    DozeBase(s, n, st);
    hide Base, CurrOk, Counts;
    Finish(Doze(s, n, st), false);
  }

  /** The sleep calls keep the invariant; the null process may only end its time slice. */
  lemma SleepKeeps(s: Sys, n: int, u: int)
    requires Inv(s) && u >= 1 && (s.cur == 0 ==> n <= 0)
    ensures IsPid(s.cur) && Inv(SleepFor(s, n, u))
  {
    CurIsPid(s);
    if n == 0 {
      Finish(s, true);
    } else if n > 0 {
      assert n * u >= 0;
      DozeKeeps(s, n * u, PRSLEEP);
    }
  }

  /** A timed receive keeps the invariant, with any waiting time. */
  lemma RecvtimKeeps(s: Sys, n: int)
    requires Inv(s) && s.cur != 0
    ensures IsPid(s.cur) && Inv(Recvtim(s, n))
  {
    CurIsPid(s);
    CollectKeeps(s);
    if n >= 0 && !s.proc[s.cur].hasmsg {
      DozeKeeps(s, n * 1000, PRTRECV);
    }
  }

  // -------------------------------------------------------------------------------- clock

  /** The invariant but for the first key of the sleep queue and the flags. */
  ghost predicate Almost(s: Sys) {
    && Homes(s) && ReadyOk(s) && NullOk(s) && PrioOk(s) && MsgOk(s) && CurrOk(s, true)
    && (s.clock != [] ==> Natural(s.clock[1..])) && (s.clock != [] && s.clock[0].key > 0 ==> Natural(s.clock))
  }

  /** The head of the sleep queue is readied. */
  lemma WakeOneKeeps(s: Sys)
    requires Almost(s) && s.clock != []
    ensures
      var p := s.clock[0].pid;
      var s2 := MakeReady(s.(clock := s.clock[1..]), p);
      IsPid(p) && p != 0 && Base(s2) && CurrOk(s2, true) && Nowhere(s.(clock := s.clock[1..]), p) && s.proc[p].prio <= MAXINT
  {
    hide Almost, Base, Loose, Nowhere, Natural, CurrOk;
    WokenLoose(s);
    var p, s1 := s.clock[0].pid, s.(clock := s.clock[1..]);
    MakeReadyBase(s1, p);
    CurrStays(s, MakeReady(s1, p), p);
  }

  lemma WokenLoose(s: Sys)
    requires Almost(s) && s.clock != []
    ensures
      var p := s.clock[0].pid;
      var s1 := s.(clock := s.clock[1..]);
      && Loose(s1, p) && IsPid(p) && p != 0 && Nowhere(s1, p) && s.proc[p].prio <= MAXINT && CurrOk(s, true)
      && St(s, p) != PRCURR
  {
    var p := s.clock[0].pid;
    assert Has(s.clock, p);
    assert AtHome(s, p);
    SleeperLeaves(s);
  }

  lemma BaseAlmost(s: Sys)
    requires Base(s) && CurrOk(s, true)
    ensures Almost(s)
  {
    assert s.clock != [] ==> Natural(s.clock[1..]);
  }

  /** wakeup readies those at the front of the sleep queue, in order, and leaves the rest. */
  lemma {:induction false} WakeAllKeeps(s: Sys)
    requires Almost(s)
    ensures var s2 := WakeAll(s);
      && Base(s2) && CurrOk(s2, true) && s2.sem == s.sem && s2.clock == Asleep(s.clock)
      && s2.preempt == s.preempt && s2.defclk == s.defclk && s2.clkdiff == s.clkdiff
    decreases |s.clock|
  {
    hide Homes, ReadyOk, PrioOk, MsgOk, CurrOk;
    if s.clock != [] && s.clock[0].key <= 0 {
      WakeOneKeeps(s);
      BaseAlmost(MakeReady(s.(clock := s.clock[1..]), s.clock[0].pid));
      WakeAllKeeps(MakeReady(s.(clock := s.clock[1..]), s.clock[0].pid));
    }
  }

  /** The invariant with keys that a tick or a backlog has lowered. */
  lemma WakeupKeeps(s: Sys, s1: Sys)
    requires Inv(s) && s1.proc == s.proc && s1.sem == s.sem && s1.ready == s.ready && s1.cur == s.cur && s1.stamp == s.stamp && s1.now == s.now
    requires Single(s1.clock) && (forall q {:trigger Has(s1.clock, q)} :: Has(s1.clock, q) <==> Has(s.clock, q))
    requires (s1.clock != [] ==> Natural(s1.clock[1..])) && (s1.clock != [] && s1.clock[0].key > 0 ==> Natural(s1.clock))
    ensures IsPid(s1.cur) && Inv(Wakeup(s1)) && Almost(s1)
  {
    EntriesArePids(s1.clock, s.clock);
    forall q | IsPid(q)
      ensures AtHome(s1, q)
    {
      assert AtHome(s, q);
    }
    SameRunner(s, s1);
    WakeAllKeeps(s1);
    var s2 := WakeAll(s1);
    BaseIgnores(s2, SetTop(s2));
    SameRunner(s2, SetTop(s2));
    SameCounts(s, SetTop(s2));
    Finish(SetTop(s2), true);
  }

  /** A clock interrupt keeps the invariant, as far as its call of wakeup. */
  lemma ClkintKeeps(s: Sys)
    requires Inv(s)
    ensures IsPid(s.cur) && Inv(Clkint(s))
  {
    CurIsPid(s);
    var s1 := if s.slnempty then TakeTick(s) else s;
    if s.clock != [] {
      forall q
        ensures Has(s1.clock, q) <==> Has(s.clock, q)
      {
        DecrementEffect(s.clock, q);
      }
      DecrementEffect(s.clock, 0);
      if s1.clock[0].key <= 0 {
        WakeupKeeps(s, s1);
      } else {
        TickedInv(s, s1);
      }
    }
  }

  lemma TickedInv(s: Sys, s1: Sys)
    requires Inv(s) && s.clock != [] && s1 == s.(clock := Decrement(s.clock)) && s1.clock[0].key > 0
    requires Single(s1.clock) && (forall q {:trigger Has(s1.clock, q)} :: Has(s1.clock, q) <==> Has(s.clock, q))
    ensures Inv(s1)
  {
    forall q | IsPid(q)
      ensures AtHome(s1, q)
    {
      assert AtHome(s, q);
    }
    SameCounts(s, s1);
    SameRunner(s, s1);
  }

  lemma OtherFields(s: Sys, s2: Sys)
    requires Inv(s) && s2 == s.(preempt := s2.preempt, defclk := s2.defclk, clkdiff := s2.clkdiff)
    ensures Inv(s2)
  {
    BaseIgnores(s, s2);
    SameCounts(s, s2);
    SameRest(s, s2);
  }

  lemma MaybeResched(s: Sys)
    requires Inv(s)
    ensures IsPid(s.cur) && Inv(Resched(s))
  {
    CurIsPid(s);
    Finish(s, true);
  }

  /** And so does the rest of the handler, whichever process runs by then. */
  lemma PreemptKeeps(s: Sys)
    requires Inv(s)
    ensures IsPid(s.cur) && Inv(Preempt(s))
  {
    CurIsPid(s);
    hide Inv, Resched;
    var s1 := s.(preempt := s.preempt - 1);
    OtherFields(s, s1);
    MaybeResched(s1);
  }

  lemma CatchUpKeeps(s: Sys, m: int)
    requires Inv(s) && m >= 0
    ensures IsPid(s.cur) && Inv(CatchUpQueue(s, m))
  {
    CurIsPid(s);
    if s.slnempty {
      forall q
        ensures Has(Advance(s.clock, m), q) <==> Has(s.clock, q)
      {
        AdvanceEffect(s.clock, m, q);
      }
      AdvanceEffect(s.clock, m, 0);
      WakeupKeeps(s, s.(clock := Advance(s.clock, m)));
    }
  }

  /** strtclk keeps the invariant, with any backlog, as far as its call of wakeup. */
  lemma StrtclkKeeps(s: Sys)
    requires Inv(s) && s.clkdiff >= 0
    ensures IsPid(s.cur) && Inv(Strtclk(s))
  {
    CurIsPid(s);
    hide Inv, Resched, CatchUpQueue;
    if s.defclk <= 0 || s.defclk - 1 > 0 {
      OtherFields(s, Strtclk(s));
    } else {
      OtherFields(s, Charge(s));
      CatchUpKeeps(Charge(s), s.clkdiff);
    }
  }

  /** And so does the rest of strtclk. */
  lemma OverdueKeeps(s: Sys)
    requires Inv(s)
    ensures IsPid(s.cur) && Inv(Overdue(s))
  {
    hide Inv, Resched;
    MaybeResched(s);
  }
}
