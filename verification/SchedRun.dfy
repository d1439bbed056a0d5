/** Whole runs of the scheduler, the semaphores and the clock. */
module SchedRun {
  import opened Machine
  import opened DeltaList
  import opened QLists
  import opened QTable
  import opened Sched
  import opened SchedInv
  import opened SchedOps
  import opened SchedCalls

  /** System calls of the running process, and clock interrupts. What the interrupt handler and
      strtclk do after their call of wakeup is a step of its own, as another process may run
      in between; it may come at any time and any number of times. */
  datatype Step =
    | Waits(m: int) | Signals(m: int) | SignalsMany(m: int, n: int) | Resets(m: int, n: int) | Deletes(m: int)
    | MakesSem(m: int, n: int)
    | Suspends(p: int) | Resumes(p: int) | Ranks(p: int, n: int) | Makes(p: int, n: int) | Kills(p: int)
    | Sends(p: int, w: int) | Receives | Collects
    | Sleeps(n: int, u: int) | TimedReceives(n: int)
    | Interrupt | EndsInterrupt | StopsClock | StartsClock | EndsStart

  /** What the code leaves to its callers: the null process never blocks, newsem and newpid
      choose free slots, and products and priorities fit an int. */
  predicate Legal(s: Sys, st: Step) {
    match st
    case Waits(_) => s.cur != 0
    case MakesSem(m, n) => !BadSem(m) && !s.sem[m].used
    case Ranks(p, n) => n <= MAXINT
    case Makes(p, n) => IsPid(p) && St(s, p) == PRFREE && 1 <= n <= MAXINT
    case Receives => s.cur != 0
    case Sleeps(n, u) => u >= 1 && n * u <= MAXINT && (s.cur == 0 ==> n <= 0)
    case TimedReceives(n) => s.cur != 0 && n * 1000 <= MAXINT
    case StartsClock => s.clkdiff >= 0
    case _ => true
  }

  function Apply(s: Sys, st: Step): Sys
    requires IsPid(s.cur) && Legal(s, st)
  {
    match st
    case Waits(m) => Wait(s, m)
    case Signals(m) => Signal(s, m)
    case SignalsMany(m, n) => Signaln(s, m, n)
    case Resets(m, n) => Sreset(s, m, n)
    case Deletes(m) => Sdelete(s, m)
    case MakesSem(m, n) => Screate(s, m, n)
    case Suspends(p) => Suspend(s, p)
    case Resumes(p) => Resume(s, p)
    case Ranks(p, n) => Chprio(s, p, n)
    case Makes(p, n) => Born(s, p, n)
    case Kills(p) => Die(s, p)
    case Sends(p, w) => Send(s, p, w)
    case Receives => Receive(s)
    case Collects => Collect(s)
    case Sleeps(n, u) => SleepFor(s, n, u)
    case TimedReceives(n) => Recvtim(s, n)
    case Interrupt => Clkint(s)
    case EndsInterrupt => Preempt(s)
    case StopsClock => Stopclk(s)
    case StartsClock => Strtclk(s)
    case EndsStart => Overdue(s)
  }

  lemma StepKeeps(s: Sys, st: Step)
    requires Inv(s) && Legal(s, st)
    ensures IsPid(s.cur) && Inv(Apply(s, st))
  {
    CurIsPid(s);
    match st
    case Waits(m) => WaitKeeps(s, m);
    case Signals(m) => SignalKeeps(s, m);
    case SignalsMany(m, n) => SignalnKeeps(s, m, n);
    case Resets(m, n) => SresetKeeps(s, m, n);
    case Deletes(m) => SdeleteKeeps(s, m);
    case MakesSem(m, n) => ScreateKeeps(s, m, n);
    case Suspends(p) => SuspendKeeps(s, p);
    case Resumes(p) => ResumeKeeps(s, p);
    case Ranks(p, n) => ChprioKeeps(s, p, n);
    case Makes(p, n) => BornKeeps(s, p, n);
    case Kills(p) => DieKeeps(s, p);
    case Sends(p, w) => SendKeeps(s, p, w);
    case Receives => ReceiveKeeps(s);
    case Collects => CollectKeeps(s);
    case Sleeps(n, u) => SleepKeeps(s, n, u);
    case TimedReceives(n) => RecvtimKeeps(s, n);
    case Interrupt => ClkintKeeps(s);
    case EndsInterrupt => PreemptKeeps(s);
    case StopsClock => OtherFields(s, Stopclk(s));
    case StartsClock => StrtclkKeeps(s);
    case EndsStart => OverdueKeeps(s);
  }

  ghost predicate IsRun(ss: seq<Sys>, sts: seq<Step>) {
    |ss| == |sts| + 1
    && forall k :: 0 <= k < |sts| ==> IsPid(ss[k].cur) && Legal(ss[k], sts[k]) && ss[k + 1] == Apply(ss[k], sts[k])
  }

  /** After sysinit: the null process runs, nothing else exists. */
  function Start(): Sys {
    Sys(seq(NPROC, p => PEntry(if p == 0 then PRCURR else PRFREE, 0, 0, false, 0, 0)), seq(NSEM, _ => Sem(false, 0, [])),
        [], [], 0, false, 0, QUANTUM, 0, 0, seq(NPROC, _ => -1), 0)
  }

  lemma StartInv()
    ensures Inv(Start())
  {
    var s := Start();
    forall p | IsPid(p)
      ensures s.proc[p] == PEntry(if p == 0 then PRCURR else PRFREE, 0, 0, false, 0, 0) && AtHome(s, p)
    {
    }
    forall m | !BadSem(m)
      ensures s.sem[m] == Sem(false, 0, []) && CountOk(s, m)
    {
    }
  }

  lemma {:induction false} RunInv(ss: seq<Sys>, sts: seq<Step>, k: nat)
    requires IsRun(ss, sts) && ss[0] == Start() && k < |ss|
    ensures Inv(ss[k])
  {
    hide Inv, Apply, Legal;
    if k == 0 {
      StartInv();
    } else {
      RunInv(ss, sts, k - 1);
      StepKeeps(ss[k - 1], sts[k - 1]);
    }
  }

  /** In every reachable state, process states and lists agree: a process is ready, waiting or
      asleep exactly when it is on the ready list, on the list of the one semaphore it waits
      for, or on the sleep queue, and it is on no other list; exactly one process runs; the
      null process runs or is ready; each semaphore has as many waiters as its count is below
      zero; and sltop and slnempty describe the sleep queue. */
  lemma StatesAndListsAgree(ss: seq<Sys>, sts: seq<Step>, k: nat, p: int, m: int)
    requires IsRun(ss, sts) && ss[0] == Start() && k < |ss| && IsPid(p) && !BadSem(m)
    ensures var s := ss[k];
      && (Has(s.ready, p) <==> St(s, p) == PRREADY)
      && (Has(s.clock, p) <==> St(s, p) == PRSLEEP || St(s, p) == PRTRECV)
      && (p in s.sem[m].waiters <==> St(s, p) == PRWAIT && s.proc[p].sem == m)
      && Single(s.ready) && Single(s.clock) && NoDup(s.sem[m].waiters)
      && (St(s, p) == PRCURR <==> p == s.cur)
      && (St(s, 0) == PRCURR || St(s, 0) == PRREADY)
      && |s.sem[m].waiters| == (if s.sem[m].used && s.sem[m].cnt < 0 then -s.sem[m].cnt else 0)
      && (s.slnempty <==> s.clock != []) && (s.clock != [] ==> s.sltop == s.clock[0].pid)
  {
    RunInv(ss, sts, k);
    assert AtHome(ss[k], p) && CountOk(ss[k], m);
  }

  /** After every system call and every interrupt, no ready process outranks the running one,
      and the ready list is in order of the current priorities. */
  lemma HighestRuns(ss: seq<Sys>, sts: seq<Step>, k: nat, p: int)
    requires IsRun(ss, sts) && ss[0] == Start() && k < |ss| && IsPid(p) && St(ss[k], p) == PRREADY
    ensures var s := ss[k];
      && IsPid(s.cur) && s.proc[p].prio <= s.proc[s.cur].prio
      && (s.cur == 0 ==> p == 0)
      && forall i, j :: 0 <= i < j < |s.ready| && IsPid(s.ready[i].pid) && IsPid(s.ready[j].pid) ==>
        s.proc[s.ready[i].pid].prio <= s.proc[s.ready[j].pid].prio
  {
    RunInv(ss, sts, k);
    var s := ss[k];
    assert s.proc[p].prio <= s.proc[s.cur].prio;
  }

  // -------------------------------------------------------------------------------- clock

  predicate Awake(s: Sys, p: int) { IsPid(p) && (St(s, p) == PRREADY || St(s, p) == PRCURR) }

  lemma ReschedAwake(s: Sys, p: int)
    requires IsPid(s.cur) && Awake(s, p)
    ensures Awake(Resched(s), p)
  {
  }

  lemma {:induction false} WakeAllReadies(s: Sys, p: int)
    requires IsPid(p) && p != 0 && (p in Woken(s.clock) || St(s, p) == PRREADY)
    ensures St(WakeAll(s), p) == PRREADY
    decreases |s.clock|
  {
    if s.clock != [] && s.clock[0].key <= 0 {
      WakeAllReadies(Ready(s.(clock := s.clock[1..]), s.clock[0].pid), p);
    }
  }

  lemma WakeupReadies(s: Sys, p: int)
    requires IsPid(s.cur) && IsPid(p) && p != 0 && p in Woken(s.clock)
    ensures Awake(Wakeup(s), p)
  {
    WakeAllReadies(s, p);
    ReschedAwake(SetTop(WakeAll(s)), p);
  }

  lemma WokenNotNull(s: Sys, p: int)
    requires Inv(s) && s.clock != [] && p in Woken(Decrement(s.clock))
    ensures IsPid(p) && p != 0
  {
    DecrementEffect(s.clock, p);
    WakeSplits(Decrement(s.clock), p);
    var k :| 0 <= k < |s.clock| && s.clock[k].pid == p;
    assert IsPid(s.clock[k].pid);
    assert AtHome(s, p);
  }

  /** A clock interrupt does to the sleep queue what a tick does to a delta list, and those
      it takes off are ready or running afterwards. */
  lemma InterruptIsTick(s: Sys, p: int)
    requires Inv(s)
    ensures IsPid(s.cur) && Clkint(s).clock == Tick(s.clock).1
    ensures p in Tick(s.clock).0 ==> Awake(Clkint(s), p)
  {
    CurIsPid(s);
    if s.clock != [] && Decrement(s.clock)[0].key <= 0 {
      var s1 := TakeTick(s);
      if p in Tick(s.clock).0 {
        WokenNotNull(s, p);
        WakeupReadies(s1, p);
      }
    }
  }

  /** The deferred ticks have the same effect on the sleep queue as that many interrupts,
      exactly when it is empty, its first key is positive, or everyone's time is up. */
  lemma BacklogIsTicks(s: Sys, m: nat)
    requires Inv(s)
    ensures IsPid(s.cur) && CatchUpQueue(s, m).clock == CatchUp(s.clock, m).1
    ensures CatchUp(s.clock, m) == TickTimes(s.clock, m) <==> s.clock == [] || s.clock[0].key >= 1 || Total(s.clock) < m
  {
    CurIsPid(s);
    DeferredClock(s.clock, m);
  }

  // -------------------------------------------------------------------- the clock deferred

  lemma ClkdiffKept(s: Sys, st: Step)
    requires IsPid(s.cur) && Legal(s, st) && s.clkdiff == 0
    ensures Apply(s, st).clkdiff == 0
  {
    hide Resched, SignalOne, SignalMany, ReleaseAll, WakeAll, Wakeup, Preempt, Insertd, Unsleep, Drop, Cancel, Advance;
  }

  /** The interrupt handler never looks at defclk, so no tick is ever deferred: the backlog
      is zero in every reachable state, and stopclk does not stop the clock. */
  lemma {:induction false} NothingIsDeferred(ss: seq<Sys>, sts: seq<Step>, k: nat)
    requires IsRun(ss, sts) && ss[0] == Start() && k < |ss|
    ensures ss[k].clkdiff == 0
  {
    hide Inv, Apply, Legal;
    if k > 0 {
      NothingIsDeferred(ss, sts, k - 1);
      RunInv(ss, sts, k - 1);
      ClkdiffKept(ss[k - 1], sts[k - 1]);
    }
  }

  // --------------------------------------------------------------------- sleepers in runs

  lemma OtherClock(s: Sys, st: Step)
    requires IsPid(s.cur) && Legal(s, st)
    requires !st.Kills? && !st.Sends? && !st.Sleeps? && !st.TimedReceives? && !st.Interrupt? && !st.StartsClock?
    ensures Apply(s, st).clock == s.clock
  {
    hide Resched, SignalOne, SignalMany, ReleaseAll, Drop, Cancel;
  }

  /** What one step does to a sleeper that it does not kill and sends nothing to. */
  lemma StepClock(s: Sys, st: Step, p: int)
    requires Inv(s) && Legal(s, st) && s.clkdiff == 0 && Ahead(s.clock) && Has(s.clock, p)
    requires st != TimedReceives(0) && st != Kills(p) && !(st.Sends? && st.p == p)
    ensures IsPid(s.cur)
    ensures var s2 := Apply(s, st);
      && Ahead(s2.clock)
      && (!st.Interrupt? ==> Has(s2.clock, p) && Remaining(s2.clock, p) == Remaining(s.clock, p))
      && (st.Interrupt? && Remaining(s.clock, p) > 1 ==> Has(s2.clock, p) && Remaining(s2.clock, p) == Remaining(s.clock, p) - 1)
      && (st.Interrupt? && Remaining(s.clock, p) == 1 ==> !Has(s2.clock, p) && Awake(s2, p))
  {
    CurIsPid(s);
    if st.Interrupt? {
      InterruptIsTick(s, p);
      TickExact(s.clock);
    } else if st.StartsClock? {
      AdvanceNone(s.clock);
    } else if st.Sleeps? || st.TimedReceives? {
      DozesClock(s, st, p);
    } else if st.Kills? || st.Sends? {
      LeavesClock(s, st.p, p);
      RemovedClock(s, st);
    } else {
      OtherClock(s, st);
    }
  }

  lemma DozesClock(s: Sys, st: Step, p: int)
    requires Inv(s) && Legal(s, st) && Ahead(s.clock) && Has(s.clock, p) && (st.Sleeps? || (st.TimedReceives? && st.n != 0))
    ensures IsPid(s.cur)
    ensures var s2 := Apply(s, st); Ahead(s2.clock) && Has(s2.clock, p) && Remaining(s2.clock, p) == Remaining(s.clock, p)
  {
    CurIsPid(s);
    assert !Has(s.clock, s.cur) by { assert AtHome(s, s.cur); }
    var n := if st.Sleeps? then st.n * st.u else st.n * 1000;
    assert st.n >= 1 ==> n >= 1 by { if st.Sleeps? && st.n >= 1 { assert st.n * st.u >= 1; } }
    InsertdExact(s.clock, s.cur, n, p);
    InsertdOrder(s.clock, s.cur, n);
  }

  /** unsleep of another process. */
  lemma LeavesClock(s: Sys, q: int, p: int)
    requires Inv(s) && Ahead(s.clock) && Has(s.clock, p) && q != p
    ensures Has(s.clock, q) ==>
      Ahead(Unsleep(s.clock, q)) && Has(Unsleep(s.clock, q), p) && Remaining(Unsleep(s.clock, q), p) == Remaining(s.clock, p)
    ensures IsPid(q) && Sleepy(St(s, q)) ==> Has(s.clock, q)
  {
    if Has(s.clock, q) { UnsleepExact(s.clock, q, p); }
    if IsPid(q) { assert AtHome(s, q); }
  }

  lemma RemovedClock(s: Sys, st: Step)
    requires IsPid(s.cur) && Legal(s, st) && (st.Kills? || st.Sends?)
    ensures Apply(s, st).clock == s.clock || (IsPid(st.p) && Sleepy(St(s, st.p)) && Apply(s, st).clock == Unsleep(s.clock, st.p))
  {
    hide Resched, Unsleep, Drop, Cancel, InsertKey;
  }

  function Interrupts(sts: seq<Step>): nat {
    if sts == [] then 0 else Interrupts(sts[..|sts| - 1]) + (if sts[|sts| - 1].Interrupt? then 1 else 0)
  }

  /** In any run, whatever else happens, a process with n ticks to sleep stays asleep through
      n - 1 clock interrupts and is ready or running after the n-th, unless it is killed or
      sent a message first; no timed receive of zero may slip a tick in between. */
  lemma {:induction false} SleeperWakes(ss: seq<Sys>, sts: seq<Step>, p: int, k: nat)
    requires IsRun(ss, sts) && Inv(ss[0]) && ss[0].clkdiff == 0 && Ahead(ss[0].clock) && Has(ss[0].clock, p) && k < |ss|
    requires forall j :: 0 <= j < k ==> sts[j] != TimedReceives(0) && sts[j] != Kills(p) && !(sts[j].Sends? && sts[j].p == p)
    requires Interrupts(sts[..k]) <= Remaining(ss[0].clock, p)
    ensures Inv(ss[k]) && ss[k].clkdiff == 0
    ensures Interrupts(sts[..k]) < Remaining(ss[0].clock, p) ==>
      Ahead(ss[k].clock) && Has(ss[k].clock, p) && Remaining(ss[k].clock, p) == Remaining(ss[0].clock, p) - Interrupts(sts[..k])
    ensures k > 0 && sts[k - 1].Interrupt? && Interrupts(sts[..k]) == Remaining(ss[0].clock, p) ==> Awake(ss[k], p)
  {
    hide Inv, Apply, Legal;
    if k == 0 {
      assert sts[..0] == [];
    } else {
      assert sts[..k][..k - 1] == sts[..k - 1] && sts[..k][k - 1] == sts[k - 1];
      SleeperWakes(ss, sts, p, k - 1);
      StepKeeps(ss[k - 1], sts[k - 1]);
      ClkdiffKept(ss[k - 1], sts[k - 1]);
      if Interrupts(sts[..k - 1]) < Remaining(ss[0].clock, p) {
        StepClock(ss[k - 1], sts[k - 1], p);
      }
    }
  }

  // ---------------------------------------------------------------------- 32-bit products

  /** What a C int holds of a product. */
  function Int32(x: int): int {
    var r := x % 0x1_0000_0000;
    if r > MAXINT then r - 0x1_0000_0000 else r
  }

  /** sleep10, sleep100 and recvtim ask insertd for the delay their caller means exactly when
      the product fits an int; for tenths of seconds that is up to 21474836. */
  lemma DelayFits(n: int)
    requires 0 <= n <= MAXINT
    ensures Int32(n * 100) == n * 100 <==> n <= 21474836
    ensures Int32(n * 10) == n * 10 <==> n <= 214748364
    ensures Int32(n * 1000) == n * 1000 <==> n <= 2147483
  {
  }
}
