/** What every call and interrupt brings about, for every process and every semaphore: where
    each process goes, what becomes of its entry, of the counts and waiting lists, of the sleep
    queue and of the time slice. Each is told from the state before. */
module SchedEffects {
  import opened Machine
  import opened DeltaList
  import opened QLists
  import opened QTable
  import opened Sched
  import opened SchedInv
  import opened SchedOps
  import opened SchedCalls
  import opened SchedRun
  import opened SchedFair

  // ------------------------------------------------------------------ what is to happen

  /** Ready and running in one: which of the two is decided by the priorities. */
  function Settled(st: PState): PState { if st == PRCURR then PRREADY else st }

  predicate GoodSem(s: Sys, m: int) { !BadSem(m) && s.sem[m].used }

  /** How many of the waiters n signals release. */
  function Served(s: Sys, m: int, n: int): nat
    requires !BadSem(m)
  {
    if n <= 0 then 0 else if n < |s.sem[m].waiters| then n else |s.sem[m].waiters|
  }

  /** The state of process q after a step, ready for ready or running. */
  function Goes(s: Sys, st: Step, q: int): PState
    requires IsPid(q)
  {
    var from := Settled(St(s, q));
    match st
    case Waits(m) => if q == s.cur && GoodSem(s, m) && s.sem[m].cnt <= 0 then PRWAIT else from
    case Signals(m) => if GoodSem(s, m) && q in s.sem[m].waiters[..Served(s, m, 1)] then PRREADY else from
    case SignalsMany(m, n) => if GoodSem(s, m) && q in s.sem[m].waiters[..Served(s, m, n)] then PRREADY else from
    case Resets(m, n) => if GoodSem(s, m) && n >= 0 && q in s.sem[m].waiters then PRREADY else from
    case Deletes(m) => if GoodSem(s, m) && q in s.sem[m].waiters then PRREADY else from
    case Suspends(p) => if q == p && !BadPid(p) && from == PRREADY then PRSUSP else from
    case Resumes(p) => if q == p && !BadPid(p) && from == PRSUSP then PRREADY else from
    case Makes(p, n) => if q == p then PRSUSP else from
    case Kills(p) => if q == p && !BadPid(p) then PRFREE else from
    case Sends(p, w) => if q == p && !BadPid(p) && (from == PRRECV || from == PRTRECV) then PRREADY else from
    case Receives => if q == s.cur && !s.proc[q].hasmsg then PRRECV else from
    case Sleeps(n, u) => if q == s.cur && n > 0 then PRSLEEP else from
    case TimedReceives(n) => if q == s.cur && n >= 0 && !s.proc[q].hasmsg then PRTRECV else from
    case Interrupt => if q in Tick(s.clock).0 then PRREADY else from
    case StartsClock => if s.defclk == 1 && s.slnempty && q in CatchUp(s.clock, s.clkdiff).0 then PRREADY else from
    case _ => from
  }

  /** Its entry, but for the state. */
  function EntryAfter(s: Sys, st: Step, q: int): PEntry
    requires IsPid(q)
  {
    var e := s.proc[q];
    match st
    case Waits(m) => if q == s.cur && GoodSem(s, m) && s.sem[m].cnt <= 0 then e.(sem := m, waitret := OK) else e
    case Deletes(m) => if GoodSem(s, m) && q in s.sem[m].waiters then e.(waitret := DELETED) else e
    case Ranks(p, n) => if q == p && !BadPid(p) && n > 0 && e.state != PRFREE then e.(prio := n) else e
    case Makes(p, n) => if q == p then PEntry(PRSUSP, n, 0, false, 0, e.waitret) else e
    case Sends(p, w) => if q == p && !BadPid(p) && e.state != PRFREE && !e.hasmsg then e.(hasmsg := true, msg := w) else e
    case Receives => if q == s.cur then e.(hasmsg := false) else e
    case Collects => if q == s.cur then e.(hasmsg := false) else e
    case TimedReceives(n) => if q == s.cur && n >= 0 then e.(hasmsg := false) else e
    case _ => e
  }

  /** Semaphore m after the step. */
  function SemAfter(s: Sys, st: Step, m: int): Sem
    requires !BadSem(m)
  {
    var x := s.sem[m];
    match st
    case Waits(k) =>
      if k == m && x.used then Sem(true, x.cnt - 1, if x.cnt <= 0 then x.waiters + [s.cur] else x.waiters) else x
    case Signals(k) => if k == m && x.used then Sem(true, x.cnt + 1, x.waiters[Served(s, m, 1)..]) else x
    case SignalsMany(k, n) => if k == m && x.used && n > 0 then Sem(true, x.cnt + n, x.waiters[Served(s, m, n)..]) else x
    case Resets(k, n) => if k == m && x.used && n >= 0 then Sem(true, n, []) else x
    case Deletes(k) => if k == m && x.used then Sem(false, x.cnt, []) else x
    case MakesSem(k, n) => if k == m && n >= 0 then Sem(true, n, []) else x
    case Kills(p) => if !BadPid(p) && p in x.waiters then Sem(x.used, x.cnt + 1, Cancel(x.waiters, p)) else x
    case _ => x
  }

  /** The sleep queue after the step, in terms of the delta list. */
  function ClockAfter(s: Sys, st: Step): seq<Entry>
    requires IsPid(s.cur)
  {
    match st
    case Sleeps(n, u) => if n > 0 then Insertd(s.clock, s.cur, n * u) else s.clock
    case TimedReceives(n) => if n >= 0 && !s.proc[s.cur].hasmsg then Insertd(s.clock, s.cur, n * 1000) else s.clock
    case Kills(p) => if !BadPid(p) && Sleepy(St(s, p)) then Unsleep(s.clock, p) else s.clock
    case Sends(p, w) => if !BadPid(p) && St(s, p) == PRTRECV then Unsleep(s.clock, p) else s.clock
    case Interrupt => Tick(s.clock).1
    case StartsClock => if s.defclk == 1 then CatchUp(s.clock, s.clkdiff).1 else s.clock
    case _ => s.clock
  }

  /** What the step takes off the time slice. */
  function Slice(s: Sys, st: Step): int {
    match st
    case EndsInterrupt => 1
    case StartsClock => if s.defclk == 1 then s.clkdiff else 0
    case _ => 0
  }

  /** The step calls resched with the caller able to go on. */
  predicate Reschedules(s: Sys, st: Step)
    requires IsPid(s.cur)
  {
    match st
    case Signals(m) => GoodSem(s, m) && s.sem[m].waiters != []
    case SignalsMany(m, n) => GoodSem(s, m) && n > 0
    case Resets(m, n) => GoodSem(s, m) && n >= 0
    case Deletes(m) => GoodSem(s, m) && s.sem[m].waiters != []
    case Resumes(p) => !BadPid(p) && St(s, p) == PRSUSP
    case Ranks(p, n) => !BadPid(p) && n > 0 && (St(s, p) == PRREADY || St(s, p) == PRCURR)
    case Sends(p, w) => !BadPid(p) && (St(s, p) == PRRECV || St(s, p) == PRTRECV)
    case Sleeps(n, u) => n == 0
    case Interrupt => Tick(s.clock).0 != []
    case StartsClock => s.defclk == 1 && s.slnempty
    case EndsInterrupt => s.preempt <= 1
    case EndsStart => s.preempt <= 0
    case _ => false
  }

  // ---------------------------------------------------------------------------- resched

  /** Whoever is on the ready list is ready. */
  ghost predicate ReadyTrue(t: Sys) {
    forall x {:trigger Has(t.ready, x)} :: IsPid(x) && Has(t.ready, x) ==> St(t, x) == PRREADY
  }

  lemma InvReady(s: Sys)
    requires Inv(s)
    ensures ReadyTrue(s) && IsPid(s.cur) && St(s, s.cur) == PRCURR && (forall q :: IsPid(q) && St(s, q) == PRCURR ==> q == s.cur)
  {
    CurIsPid(s);
    forall x | IsPid(x) && Has(s.ready, x)
      ensures St(s, x) == PRREADY
    {
      assert AtHome(s, x);
    }
  }

  /** resched only decides who runs. */
  lemma ReschedSettles(t: Sys, q: int)
    requires IsPid(t.cur) && ReadyTrue(t) && IsPid(q)
    ensures
      var u := Resched(t);
      && Settled(St(u, q)) == Settled(St(t, q)) && u.proc[q] == t.proc[q].(state := u.proc[q].state)
      && (u.cur != t.cur ==> u.preempt == QUANTUM)
  {
    hide InsertKey, Has;
    var c := t.proc[t.cur];
    if !(c.state == PRCURR && LastKey(t.ready) < c.prio) {
      var t1 := if c.state == PRCURR then MakeReady(t, t.cur) else t;
      InsertReady(t, t1);
      LastIsReady(t1);
    }
  }

  lemma InsertReady(t: Sys, t1: Sys)
    requires IsPid(t.cur) && ReadyTrue(t) && t1 == if t.proc[t.cur].state == PRCURR then MakeReady(t, t.cur) else t
    ensures ReadyTrue(t1)
  {
    forall x | IsPid(x) && Has(t1.ready, x)
      ensures St(t1, x) == PRREADY
    {
      InsertKeyHas(t.ready, t.cur, t.proc[t.cur].prio, x);
    }
  }

  lemma LastIsReady(t: Sys)
    requires ReadyTrue(t)
    ensures t.ready != [] && IsPid(t.ready[|t.ready| - 1].pid) ==> St(t, t.ready[|t.ready| - 1].pid) == PRREADY
  {
    if t.ready != [] { assert Has(t.ready, t.ready[|t.ready| - 1].pid); }
  }

  /** A caller that goes on keeps its time slice, and strictly outranks whoever is last on the
      ready list: it yields to its equals. */
  lemma ReschedStays(t: Sys)
    requires IsPid(t.cur) && ReadyTrue(t) && St(t, t.cur) != PRREADY && t.proc[t.cur].prio >= 0
    requires forall k :: 0 <= k < |t.ready| ==> IsPid(t.ready[k].pid)
    ensures var u := Resched(t);
      u.cur == t.cur ==> u == t && (St(t, t.cur) == PRCURR ==> LastKey(t.ready) < t.proc[t.cur].prio)
  {
    hide InsertKey, Has;
    if t.ready != [] {
      var n := |t.ready| - 1;
      LastIsReady(t);
      assert t.ready[n].pid != t.cur;
      if t.ready[n].key >= t.proc[t.cur].prio { InsertLast(t.ready, t.cur, t.proc[t.cur].prio); }
    }
  }

  /** A key that is not larger than the last goes before it. */
  lemma InsertLast(d: seq<Entry>, p: int, key: int)
    requires d != [] && d[|d| - 1].key >= key
    ensures var r := InsertKey(d, p, key); |r| == |d| + 1 && r[|r| - 1] == d[|d| - 1]
  {
    InsertKeyAt(d, p, key);
  }

  lemma LastIsLeast(s: Sys, q: int)
    requires Inv(s) && LastKey(s.ready) < s.proc[s.cur].prio && IsPid(q) && St(s, q) == PRREADY
    ensures IsPid(s.cur) && s.proc[q].prio < s.proc[s.cur].prio
  {
    CurIsPid(s);
    assert AtHome(s, q);
    var k :| 0 <= k < |s.ready| && s.ready[k].pid == q;
    assert s.ready[k].key <= s.ready[|s.ready| - 1].key;
  }

  // ------------------------------------------------------------------------ all at once

  ghost predicate EntryRight(s: Sys, st: Step, t: Sys, q: int)
    requires IsPid(q)
  {
    Settled(t.proc[q].state) == Goes(s, st, q) && t.proc[q] == EntryAfter(s, st, q).(state := t.proc[q].state)
  }

  /** The state before the step calls resched, or at its end. */
  ghost predicate Stage(s: Sys, st: Step, t: Sys)
    requires IsPid(s.cur)
  {
    && t.cur == s.cur && ReadyTrue(t) && t.clock == ClockAfter(s, st) && t.preempt == s.preempt - Slice(s, st)
    && (forall k :: 0 <= k < |t.ready| ==> IsPid(t.ready[k].pid))
    && (forall q {:trigger t.proc[q]} {:trigger EntryRight(s, st, t, q)} :: IsPid(q) ==> EntryRight(s, st, t, q))
    && (forall m {:trigger t.sem[m]} :: !BadSem(m) ==> t.sem[m] == SemAfter(s, st, m))
  }

  /** What the step brings about. Besides: whoever gets the processor gets a whole time slice,
      and a caller that could go on after resched and does strictly outranks all others. */
  ghost predicate Does(s: Sys, st: Step, s2: Sys)
    requires IsPid(s.cur)
  {
    && IsPid(s2.cur) && s2.clock == ClockAfter(s, st)
    && s2.preempt == (if s2.cur != s.cur then QUANTUM else s.preempt - Slice(s, st))
    && (forall q {:trigger s2.proc[q]} {:trigger EntryRight(s, st, s2, q)} :: IsPid(q) ==> EntryRight(s, st, s2, q))
    && (forall m {:trigger s2.sem[m]} :: !BadSem(m) ==> s2.sem[m] == SemAfter(s, st, m))
    && (Reschedules(s, st) && s2.cur == s.cur ==>
          forall q {:trigger s2.proc[q]} :: IsPid(q) && s2.proc[q].state == PRREADY ==> s2.proc[q].prio < s2.proc[s2.cur].prio)
  }

  lemma Concludes(s: Sys, st: Step, t: Sys, s2: Sys)
    requires IsPid(s.cur) && Stage(s, st, t) && Inv(s2)
    requires (s2 == t && !Reschedules(s, st))
      || (s2 == Resched(t) && St(t, t.cur) != PRREADY && t.proc[t.cur].prio >= 0 && (Reschedules(s, st) ==> St(t, t.cur) == PRCURR))
    ensures Does(s, st, s2)
  {
    hide Inv, Goes, EntryAfter, SemAfter, ClockAfter, Slice, Reschedules, Resched;
    CurIsPid(s2);
    if !(s2 == t && !Reschedules(s, st)) {
      forall q | IsPid(q)
        ensures Settled(St(s2, q)) == Settled(St(t, q)) && s2.proc[q] == t.proc[q].(state := s2.proc[q].state) && (s2.cur != t.cur ==> s2.preempt == QUANTUM)
      {
        ReschedSettles(t, q);
      }
      ReschedSettles(t, t.cur);
      ReschedStays(t);
      if Reschedules(s, st) && s2.cur == s.cur {
        forall q | IsPid(q) && St(s2, q) == PRREADY
          ensures s2.proc[q].prio < s2.proc[s2.cur].prio
        {
          LastIsLeast(s2, q);
        }
      }
    }
  }

  // ----------------------------------------------------------------------- call by call

  /** A state that differs from s only in what nobody but its caller looks at. */
  lemma Idles(s: Sys, st: Step, t: Sys)
    requires Inv(s) && IsPid(s.cur) && t == s.(defclk := t.defclk, clkdiff := t.clkdiff, preempt := s.preempt - Slice(s, st))
    requires ClockAfter(s, st) == s.clock && (forall q :: IsPid(q) ==> Goes(s, st, q) == Settled(St(s, q)) && EntryAfter(s, st, q) == s.proc[q])
    requires forall m :: !BadSem(m) ==> SemAfter(s, st, m) == s.sem[m]
    ensures Stage(s, st, t) && St(t, t.cur) == PRCURR && t.proc[t.cur].prio >= 0
  {
    hide Goes, EntryAfter, SemAfter, ClockAfter, Slice;
    InvReady(s);
    CurPrio(s);
  }

  lemma CurPrio(s: Sys)
    requires Inv(s)
    ensures IsPid(s.cur) && s.proc[s.cur].prio >= 0 && forall k :: 0 <= k < |s.ready| ==> IsPid(s.ready[k].pid)
  {
    CurIsPid(s);
    assert St(s, s.cur) == PRCURR;
  }

  lemma CountsAt(s: Sys, m: int)
    requires Inv(s) && !BadSem(m)
    ensures |s.sem[m].waiters| == if s.sem[m].used && s.sem[m].cnt < 0 then -s.sem[m].cnt else 0
    ensures NoDup(s.sem[m].waiters)
    ensures forall q :: IsPid(q) && q in s.sem[m].waiters ==> St(s, q) == PRWAIT && s.proc[q].sem == m
    ensures forall k :: 0 <= k < |s.sem[m].waiters| ==> 0 < s.sem[m].waiters[k] < NPROC
  {
    assert CountOk(s, m);
    WaitersArePids(s, m);
    forall q | IsPid(q) && q in s.sem[m].waiters
      ensures St(s, q) == PRWAIT && s.proc[q].sem == m
    {
      assert AtHome(s, q);
    }
  }

  /** The state in which wait calls resched, or that it leaves. */
  function Waiting(s: Sys, m: int): Sys
    requires IsPid(s.cur)
  {
    if !GoodSem(s, m) then s else if s.sem[m].cnt > 0 then Count(s, m, s.sem[m].cnt - 1) else Blocking(s, m)
  }

  lemma WaitStage(s: Sys, m: int)
    requires Inv(s) && s.cur != 0
    ensures IsPid(s.cur) && Stage(s, Waits(m), Waiting(s, m)) && Waiting(s, m).proc[s.cur].prio >= 0 && St(Waiting(s, m), s.cur) != PRREADY
  {
    hide Inv;
    InvReady(s);
    CurPrio(s);
    var t := Waiting(s, m);
    forall q | IsPid(q)
      ensures EntryRight(s, Waits(m), t, q)
    {
    }
    forall x | IsPid(x) && Has(t.ready, x)
      ensures St(t, x) == PRREADY
    {
      assert Has(s.ready, x);
    }
  }

  lemma WaitDoes(s: Sys, m: int)
    requires Inv(s) && s.cur != 0
    ensures IsPid(s.cur) && Does(s, Waits(m), Wait(s, m))
  {
    hide Inv, Resched, Does, Stage;
    WaitKeeps(s, m);
    WaitStage(s, m);
    Concludes(s, Waits(m), Waiting(s, m), Wait(s, m));
  }

  /** A process that is readied, with a result for its wait if there is one. */
  function Woke(e: PEntry, ret: Option<int>): PEntry {
    e.(state := PRREADY, waitret := match ret case Some(v) => v case None => e.waitret)
  }

  /** From s to t the processes in w have been readied, and semaphore m is x. */
  ghost predicate Readied(s: Sys, t: Sys, w: seq<int>, ret: Option<int>, m: int, x: Sem) {
    && t.cur == s.cur && t.preempt == s.preempt && t.clock == s.clock && (ReadyTrue(s) ==> ReadyTrue(t))
    && ((forall k :: 0 <= k < |s.ready| ==> IsPid(s.ready[k].pid)) ==> forall k :: 0 <= k < |t.ready| ==> IsPid(t.ready[k].pid))
    && !BadSem(m) && t.sem == s.sem[m := x]
    && forall q {:trigger t.proc[q]} :: IsPid(q) ==> t.proc[q] == if q in w then Woke(s.proc[q], ret) else s.proc[q]
  }

  lemma ReadiedOne(s: Sys, p: int, ret: Option<int>, m: int, y: Sem, s1: Sys)
    requires 0 < p < NPROC && !BadSem(m) && ReadyTrue(s) && St(s, p) != PRREADY
    requires s1 == s.(sem := s.sem[m := y], proc := match ret case Some(v) => s.proc[p := s.proc[p].(waitret := v)] case None => s.proc)
    ensures Readied(s, Ready(s1, p), [p], ret, m, y)
  {
    hide Ready;
    forall x | IsPid(x) && Has(s1.ready, x)
      ensures St(s1, x) == PRREADY
    {
    }
    ReadyOne(s1, p);
  }

  lemma ReadiedBoth(s: Sys, t: Sys, u: Sys, w: seq<int>, w2: seq<int>, ret: Option<int>, m: int, x: Sem, y: Sem)
    requires Readied(s, t, w, ret, m, x) && Readied(t, u, w2, ret, m, y)
    ensures Readied(s, u, w + w2, ret, m, y)
  {
    hide ReadyTrue;
    assert t.sem[m := y] == s.sem[m := y];
  }

  lemma ReadiedNone(s: Sys, ret: Option<int>, m: int, y: Sem)
    requires !BadSem(m)
    ensures Readied(s, SetSem(s, m, y), [], ret, m, y)
  {
    hide ReadyTrue;
    SameReady(s, SetSem(s, m, y));
  }

  /** The part of it that concerns lists. */
  lemma ReadiedParts(s: Sys, t: Sys, w: seq<int>, ret: Option<int>, m: int, x: Sem)
    requires Readied(s, t, w, ret, m, x)
    ensures !BadSem(m) && t.sem == s.sem[m := x] && (ReadyTrue(s) ==> ReadyTrue(t)) && t.proc == t.proc
    ensures forall q :: IsPid(q) && q !in w ==> t.proc[q] == s.proc[q]
  {
    hide ReadyTrue;
  }

  /** One signal readies the first waiter. */
  lemma OneSignal(t: Sys, m: int, w: seq<int>)
    requires GoodSem(t, m) && t.sem[m].waiters == w && w != [] && 0 < w[0] < NPROC && ReadyTrue(t) && St(t, w[0]) != PRREADY && t.sem[m].cnt < 0
    ensures Readied(t, SignalOne(t, m), [w[0]], None, m, Sem(true, t.sem[m].cnt + 1, w[1..]))
  {
    hide Readied, Ready, ReadyTrue;
    var y := Sem(true, t.sem[m].cnt + 1, w[1..]);
    assert t.sem[m := t.sem[m].(cnt := t.sem[m].cnt + 1)][m := y] == t.sem[m := y];
    ReadiedOne(t, w[0], None, m, y, SetSem(t, m, y));
  }

  /** n signals ready the first waiters, as many as there are. */
  lemma {:induction false} SignalManyIs(s: Sys, m: int, n: nat)
    requires GoodSem(s, m) && ReadyTrue(s) && AllWait(s, s.sem[m].waiters)
    requires |s.sem[m].waiters| == (if s.sem[m].cnt < 0 then -s.sem[m].cnt else 0)
    ensures
      var x, r := s.sem[m], Served(s, m, n);
      Readied(s, SignalMany(s, m, n), x.waiters[..r], None, m, Sem(true, x.cnt + n, x.waiters[r..]))
  {
    hide Readied, ReadyTrue, SignalOne;
    var x := s.sem[m];
    if n == 0 {
      ReadiedNone(s, None, m, x);
      assert x.waiters[..0] == [] && x.waiters[0..] == x.waiters && s.sem[m := x] == s.sem;
    } else {
      SignalManyIs(s, m, n - 1);
      NextSignal(s, m, n - 1, SignalMany(s, m, n - 1));
    }
  }

  lemma NextSignal(s: Sys, m: int, n: nat, t: Sys)
    requires GoodSem(s, m) && ReadyTrue(s) && AllWait(s, s.sem[m].waiters)
    requires |s.sem[m].waiters| == (if s.sem[m].cnt < 0 then -s.sem[m].cnt else 0)
    requires var r := Served(s, m, n);
      Readied(s, t, s.sem[m].waiters[..r], None, m, Sem(true, s.sem[m].cnt + n, s.sem[m].waiters[r..]))
    ensures var r := Served(s, m, n + 1);
      Readied(s, SignalOne(t, m), s.sem[m].waiters[..r], None, m, Sem(true, s.sem[m].cnt + n + 1, s.sem[m].waiters[r..]))
  {
    hide Readied, Ready, ReadyTrue;
    var x, r := s.sem[m], Served(s, m, n);
    ReadiedParts(s, t, x.waiters[..r], None, m, Sem(true, x.cnt + n, x.waiters[r..]));
    if n < |x.waiters| {
      assert x.waiters[n] !in x.waiters[..n];
      OneSignal(t, m, x.waiters[n..]);
      assert x.waiters[n..][1..] == x.waiters[n + 1..] && x.waiters[..n + 1] == x.waiters[..n] + [x.waiters[n]];
      ReadiedBoth(s, t, SignalOne(t, m), x.waiters[..n], [x.waiters[n]], None, m, t.sem[m], Sem(true, x.cnt + n + 1, x.waiters[n + 1..]));
    } else {
      var y := Sem(true, x.cnt + n + 1, x.waiters[r..]);
      ReadiedNone(t, None, m, y);
      ReadiedBoth(s, t, SignalOne(t, m), x.waiters[..r], [], None, m, t.sem[m], y);
      assert x.waiters[..r] + [] == x.waiters[..r];
    }
  }

  /** All in the list wait, none twice. */
  predicate AllWait(s: Sys, w: seq<int>) {
    && (forall k :: 0 <= k < |w| ==> 0 < w[k] < NPROC && St(s, w[k]) != PRREADY)
    && forall j, k :: 0 <= j < k < |w| ==> w[j] != w[k]
  }

  lemma SameReady(t: Sys, u: Sys)
    requires u.ready == t.ready && u.proc == t.proc
    ensures ReadyTrue(u) <==> ReadyTrue(t)
  {
  }

  lemma ReadyOne(t: Sys, p: int)
    requires 0 < p < NPROC
    ensures Ready(t, p).proc == t.proc[p := t.proc[p].(state := PRREADY)] && (ReadyTrue(t) ==> ReadyTrue(Ready(t, p)))
    ensures var u := Ready(t, p); u.sem == t.sem && u.clock == t.clock && u.cur == t.cur && u.preempt == t.preempt
    ensures (forall k :: 0 <= k < |t.ready| ==> IsPid(t.ready[k].pid)) ==>
      forall k :: 0 <= k < |Ready(t, p).ready| ==> IsPid(Ready(t, p).ready[k].pid)
  {
    var u := Ready(t, p);
    forall x | IsPid(x) && Has(u.ready, x)
      ensures x == p || Has(t.ready, x)
    {
      InsertKeyHas(t.ready, p, t.proc[p].prio, x);
    }
    InsertKeyAt(t.ready, p, t.proc[p].prio);
  }

  /** The waiters that are released are readied, and the others stay. */
  lemma SignalsStage(s: Sys, m: int, n: nat, st: Step)
    requires Inv(s) && GoodSem(s, m) && ((st == Signals(m) && n == 1) || (st == SignalsMany(m, n) && n > 0))
    ensures IsPid(s.cur) && Stage(s, st, SignalMany(s, m, n)) && SignalMany(s, m, n).proc[s.cur].prio >= 0
    ensures St(SignalMany(s, m, n), s.cur) == PRCURR
  {
    hide Inv, ReadyTrue, SignalMany;
    InvReady(s);
    CurPrio(s);
    CountsAt(s, m);
    SignalManyIs(s, m, n);
    var t, w := SignalMany(s, m, n), s.sem[m].waiters;
    forall q | IsPid(q)
      ensures EntryRight(s, st, t, q)
    {
    }
  }

  lemma SignalDoes(s: Sys, m: int)
    requires Inv(s)
    ensures IsPid(s.cur) && Does(s, Signals(m), Signal(s, m))
  {
    hide Inv, Resched, Does, Stage, EntryRight, SignalOne;
    CurIsPid(s);
    SignalKeeps(s, m);
    if GoodSem(s, m) {
      SignalsStage(s, m, 1, Signals(m));
      assert SignalMany(s, m, 1) == SignalOne(s, m);
      CountsAt(s, m);
      Concludes(s, Signals(m), SignalOne(s, m), Signal(s, m));
    } else {
      SameSems(s, Signals(m));
      Idles(s, Signals(m), s);
      Concludes(s, Signals(m), s, s);
    }
  }

  lemma SignalnDoes(s: Sys, m: int, n: int)
    requires Inv(s)
    ensures IsPid(s.cur) && Does(s, SignalsMany(m, n), Signaln(s, m, n))
  {
    hide Inv, Resched, Does, Stage, EntryRight, SignalMany;
    CurIsPid(s);
    SignalnKeeps(s, m, n);
    if GoodSem(s, m) && n > 0 {
      SignalsStage(s, m, n, SignalsMany(m, n));
      Concludes(s, SignalsMany(m, n), SignalMany(s, m, n), Signaln(s, m, n));
    } else {
      NoneServed(s, SignalsMany(m, n));
      Idles(s, SignalsMany(m, n), s);
      Concludes(s, SignalsMany(m, n), s, s);
    }
  }

  /** A bad or free semaphore, or a count of none, changes nothing. */
  lemma SameSems(s: Sys, st: Step)
    requires (st.Signals? || st.Waits? || st.Deletes?) && !GoodSem(s, st.m)
    ensures forall q :: IsPid(q) ==> Goes(s, st, q) == Settled(St(s, q)) && EntryAfter(s, st, q) == s.proc[q]
    ensures forall k :: !BadSem(k) ==> SemAfter(s, st, k) == s.sem[k]
  {
  }

  lemma NoneServed(s: Sys, st: Step)
    requires (st.SignalsMany? && (!GoodSem(s, st.m) || st.n <= 0)) || (st.Resets? && (!GoodSem(s, st.m) || st.n < 0))
    ensures forall q :: IsPid(q) ==> Goes(s, st, q) == Settled(St(s, q)) && EntryAfter(s, st, q) == s.proc[q]
    ensures forall k :: !BadSem(k) ==> SemAfter(s, st, k) == s.sem[k]
  {
    if GoodSem(s, st.m) && st.SignalsMany? { assert s.sem[st.m].waiters[..0] == []; }
  }

  // -------------------------------------------------------------------- reset, delete, create

  lemma {:induction false} ReleaseAllIs(s: Sys, m: int, ret: Option<int>)
    requires !BadSem(m) && ReadyTrue(s) && AllWait(s, s.sem[m].waiters)
    ensures Readied(s, ReleaseAll(s, m, ret), s.sem[m].waiters, ret, m, s.sem[m].(waiters := []))
    decreases |s.sem[m].waiters|
  {
    hide Readied, Ready, ReadyTrue;
    var x := s.sem[m];
    var w := x.waiters;
    if w == [] {
      ReadiedNone(s, ret, m, x);
      assert s.sem[m := x] == s.sem && x == x.(waiters := []);
    } else {
      FirstFreed(s, m, ret);
      var s1 := if ret.Some? then s.(proc := s.proc[w[0] := s.proc[w[0]].(waitret := ret.value)]) else s;
      var t := Release(s1, m);
      ReadiedParts(s, t, [w[0]], ret, m, x.(waiters := w[1..]));
      forall k | 0 <= k < |w| - 1
        ensures 0 < w[1..][k] < NPROC && St(t, w[1..][k]) != PRREADY
      {
        assert w[1..][k] == w[k + 1] && w[k + 1] !in [w[0]];
      }
      ReleaseAllIs(t, m, ret);
      ReadiedBoth(s, t, ReleaseAll(t, m, ret), [w[0]], w[1..], ret, m, x.(waiters := w[1..]), x.(waiters := []));
      assert [w[0]] + w[1..] == w;
    }
  }

  lemma FirstFreed(s: Sys, m: int, ret: Option<int>)
    requires !BadSem(m) && ReadyTrue(s) && AllWait(s, s.sem[m].waiters) && s.sem[m].waiters != []
    ensures
      var w := s.sem[m].waiters;
      var s1 := if ret.Some? then s.(proc := s.proc[w[0] := s.proc[w[0]].(waitret := ret.value)]) else s;
      Readied(s, Release(s1, m), [w[0]], ret, m, s.sem[m].(waiters := w[1..]))
  {
    hide Readied, Ready, ReadyTrue;
    var w := s.sem[m].waiters;
    var s1 := if ret.Some? then s.(proc := s.proc[w[0] := s.proc[w[0]].(waitret := ret.value)]) else s;
    ReadiedOne(s, w[0], ret, m, s.sem[m].(waiters := w[1..]), SetSem(s1, m, s.sem[m].(waiters := w[1..])));
  }

  lemma AllWaiting(s: Sys, m: int)
    requires Inv(s) && !BadSem(m)
    ensures AllWait(s, s.sem[m].waiters) && IsPid(s.cur) && s.cur !in s.sem[m].waiters
  {
    hide Inv;
    CountsAt(s, m);
    InvReady(s);
  }

  lemma ResetStage(s: Sys, m: int, n: int)
    requires Inv(s) && GoodSem(s, m) && n >= 0
    ensures IsPid(s.cur)
    ensures var t := Count(ReleaseAll(s, m, None), m, n);
      Stage(s, Resets(m, n), t) && t.proc[s.cur].prio >= 0 && St(t, s.cur) == PRCURR
  {
    hide Inv, ReadyTrue, ReleaseAll;
    InvReady(s);
    CurPrio(s);
    CountsAt(s, m);
    AllWaiting(s, m);
    ReleaseAllIs(s, m, None);
    var t := Count(ReleaseAll(s, m, None), m, n);
    SameReady(ReleaseAll(s, m, None), t);
    forall q | IsPid(q)
      ensures EntryRight(s, Resets(m, n), t, q)
    {
    }
  }

  lemma SresetDoes(s: Sys, m: int, n: int)
    requires Inv(s)
    ensures IsPid(s.cur) && Does(s, Resets(m, n), Sreset(s, m, n))
  {
    hide Inv, Resched, Does, Stage, EntryRight, ReleaseAll;
    CurIsPid(s);
    SresetKeeps(s, m, n);
    if GoodSem(s, m) && n >= 0 {
      ResetStage(s, m, n);
      Concludes(s, Resets(m, n), Count(ReleaseAll(s, m, None), m, n), Sreset(s, m, n));
    } else {
      NoneServed(s, Resets(m, n));
      Idles(s, Resets(m, n), s);
      Concludes(s, Resets(m, n), s, s);
    }
  }

  lemma DeleteStage(s: Sys, m: int)
    requires Inv(s) && GoodSem(s, m)
    ensures IsPid(s.cur)
    ensures var t := ReleaseAll(SetSem(s, m, s.sem[m].(used := false)), m, Some(DELETED));
      Stage(s, Deletes(m), t) && t.proc[s.cur].prio >= 0 && St(t, s.cur) == PRCURR
  {
    hide Inv, ReadyTrue, ReleaseAll;
    InvReady(s);
    CurPrio(s);
    CountsAt(s, m);
    AllWaiting(s, m);
    var s1 := SetSem(s, m, s.sem[m].(used := false));
    SameReady(s, s1);
    ReleaseAllIs(s1, m, Some(DELETED));
    var t := ReleaseAll(s1, m, Some(DELETED));
    forall q | IsPid(q)
      ensures EntryRight(s, Deletes(m), t, q)
    {
    }
  }

  lemma SdeleteDoes(s: Sys, m: int)
    requires Inv(s)
    ensures IsPid(s.cur) && Does(s, Deletes(m), Sdelete(s, m))
  {
    hide Inv, Resched, Does, Stage, EntryRight;
    CurIsPid(s);
    SdeleteKeeps(s, m);
    if GoodSem(s, m) {
      DeleteStage(s, m);
      var t := ReleaseAll(SetSem(s, m, s.sem[m].(used := false)), m, Some(DELETED));
      Concludes(s, Deletes(m), t, Sdelete(s, m));
    } else {
      SameSems(s, Deletes(m));
      Idles(s, Deletes(m), s);
      Concludes(s, Deletes(m), s, s);
    }
  }

  lemma ScreateDoes(s: Sys, m: int, n: int)
    requires Inv(s) && !BadSem(m) && !s.sem[m].used
    ensures IsPid(s.cur) && Does(s, MakesSem(m, n), Screate(s, m, n))
  {
    hide Inv, Resched, Does;
    CurIsPid(s);
    ScreateKeeps(s, m, n);
    InvReady(s);
    CurPrio(s);
    CountsAt(s, m);
    var t := Screate(s, m, n);
    SameReady(s, t);
    Concludes(s, MakesSem(m, n), t, t);
  }

  // --------------------------------------------------- suspension, priority, birth, death

  /** One process has a new entry and is off the ready list, if it was on it. */
  ghost predicate Moved(s: Sys, t: Sys, p: int, e: PEntry) {
    && 0 < p < NPROC && t.cur == s.cur && t.preempt == s.preempt && t.proc == s.proc[p := e]
    && (t.ready == s.ready || t.ready == Drop(s.ready, p)) && (e.state != PRREADY ==> !Has(t.ready, p))
  }

  lemma MovedReady(s: Sys, t: Sys, p: int, e: PEntry)
    requires Inv(s) && Moved(s, t, p, e) && (t.ready != s.ready ==> e.state != PRREADY)
    requires e.state == PRREADY ==> St(s, p) == PRREADY
    ensures ReadyTrue(t) && forall k :: 0 <= k < |t.ready| ==> IsPid(t.ready[k].pid)
  {
    InvReady(s);
    CurPrio(s);
    forall x | IsPid(x) && Has(t.ready, x)
      ensures St(t, x) == PRREADY
    {
      DropHas(s.ready, p, x);
    }
    var k := DropAt(s.ready, p);
  }

  /** Such a step does what it should if its effect on the one process is right. */
  lemma MovedStage(s: Sys, t: Sys, st: Step, p: int, e: PEntry)
    requires Inv(s) && IsPid(s.cur) && Moved(s, t, p, e) && (t.ready != s.ready ==> e.state != PRREADY)
    requires e.state == PRREADY ==> St(s, p) == PRREADY
    requires forall q :: IsPid(q) && q != p ==> Goes(s, st, q) == Settled(St(s, q)) && EntryAfter(s, st, q) == s.proc[q]
    requires Settled(e.state) == Goes(s, st, p) && e == EntryAfter(s, st, p).(state := e.state)
    requires t.clock == ClockAfter(s, st) && Slice(s, st) == 0 && forall m :: !BadSem(m) ==> t.sem[m] == SemAfter(s, st, m)
    ensures Stage(s, st, t)
  {
    hide Inv, Goes, EntryAfter, SemAfter, ClockAfter, Slice, Drop;
    MovedReady(s, t, p, e);
    forall q | IsPid(q)
      ensures EntryRight(s, st, t, q)
    {
    }
  }

  lemma OffReady(s: Sys, p: int)
    requires Inv(s) && 0 < p < NPROC
    ensures IsPid(s.cur) && !Has(Drop(s.ready, p), p) && (St(s, p) != PRREADY ==> !Has(s.ready, p))
  {
    CurIsPid(s);
    assert AtHome(s, p);
    DropHas(s.ready, p, p);
  }

  /** A step that names a process, and does nothing to it. */
  lemma NothingDone(s: Sys, st: Step)
    requires Inv(s) && IsPid(s.cur) && Slice(s, st) == 0
    requires ClockAfter(s, st) == s.clock && (forall q :: IsPid(q) ==> Goes(s, st, q) == Settled(St(s, q)) && EntryAfter(s, st, q) == s.proc[q])
    requires (forall m :: !BadSem(m) ==> SemAfter(s, st, m) == s.sem[m]) && !Reschedules(s, st)
    ensures Does(s, st, s)
  {
    hide Inv, Goes, EntryAfter, SemAfter, ClockAfter, Slice, Does, Stage, Reschedules;
    Idles(s, st, s);
    Concludes(s, st, s, s);
  }

  lemma SuspendDoes(s: Sys, p: int)
    requires Inv(s)
    ensures IsPid(s.cur) && Does(s, Suspends(p), Suspend(s, p))
  {
    hide Inv, Resched, Does, Stage, Drop, Has;
    CurIsPid(s);
    SuspendKeeps(s, p);
    CurPrio(s);
    if BadPid(p) || (St(s, p) != PRCURR && St(s, p) != PRREADY) {
      NothingDone(s, Suspends(p));
    } else {
      OffReady(s, p);
      InvReady(s);
      var e := s.proc[p].(state := PRSUSP);
      var t := if St(s, p) == PRREADY then Unready(SetState(s, p, PRSUSP), p) else SetState(s, p, PRSUSP);
      MovedStage(s, t, Suspends(p), p, e);
      Concludes(s, Suspends(p), t, Suspend(s, p));
    }
  }

  lemma ResumeStage(s: Sys, p: int)
    requires Inv(s) && !BadPid(p) && St(s, p) == PRSUSP
    ensures IsPid(s.cur) && Stage(s, Resumes(p), Ready(s, p)) && Ready(s, p).proc[s.cur].prio >= 0 && St(Ready(s, p), s.cur) == PRCURR && Ready(s, p).cur == s.cur
  {
    hide Inv, ReadyTrue, Ready;
    InvReady(s);
    CurPrio(s);
    ReadyOne(s, p);
    var t := Ready(s, p);
    forall q | IsPid(q)
      ensures EntryRight(s, Resumes(p), t, q)
    {
    }
  }

  lemma ResumeDoes(s: Sys, p: int)
    requires Inv(s)
    ensures IsPid(s.cur) && Does(s, Resumes(p), Resume(s, p))
  {
    hide Inv, Resched, Does, Stage, Ready;
    CurIsPid(s);
    ResumeKeeps(s, p);
    if BadPid(p) || St(s, p) != PRSUSP {
      NothingDone(s, Resumes(p));
    } else {
      ResumeStage(s, p);
      Concludes(s, Resumes(p), Ready(s, p), Resume(s, p));
    }
  }

  lemma RankStage(s: Sys, p: int, n: int)
    requires Inv(s) && !BadPid(p) && 0 < n <= MAXINT && St(s, p) == PRREADY
    ensures IsPid(s.cur)
    ensures var t := MakeReady(Unready(s.(proc := s.proc[p := s.proc[p].(prio := n)]), p), p);
      Stage(s, Ranks(p, n), t) && t.proc[s.cur].prio >= 0 && St(t, s.cur) == PRCURR && t.cur == s.cur
  {
    hide Inv, Drop, InsertKey, Has;
    InvReady(s);
    CurPrio(s);
    OffReady(s, p);
    var e := s.proc[p].(prio := n, state := PRSUSP);
    var t0 := Unready(s, p).(proc := s.proc[p := e]);
    MovedReady(s, t0, p, e);
    ReadyOne(t0, p);
    var t := MakeReady(Unready(s.(proc := s.proc[p := s.proc[p].(prio := n)]), p), p);
    SameReady(Ready(t0, p), t);
    forall q | IsPid(q)
      ensures EntryRight(s, Ranks(p, n), t, q)
    {
    }
  }

  lemma ChprioDoes(s: Sys, p: int, n: int)
    requires Inv(s) && n <= MAXINT
    ensures IsPid(s.cur) && Does(s, Ranks(p, n), Chprio(s, p, n))
  {
    hide Inv, Resched, Does, Stage, Drop, InsertKey, Has, MakeReady;
    CurIsPid(s);
    ChprioKeeps(s, p, n);
    if BadPid(p) || n <= 0 || St(s, p) == PRFREE {
      NothingDone(s, Ranks(p, n));
    } else {
      OffReady(s, p);
      CurPrio(s);
      InvReady(s);
      var s1 := s.(proc := s.proc[p := s.proc[p].(prio := n)]);
      if St(s, p) == PRREADY {
        RankStage(s, p, n);
        Concludes(s, Ranks(p, n), MakeReady(Unready(s1, p), p), Chprio(s, p, n));
      } else {
        MovedStage(s, s1, Ranks(p, n), p, s.proc[p].(prio := n));
        Concludes(s, Ranks(p, n), s1, Chprio(s, p, n));
      }
    }
  }

  lemma BornDoes(s: Sys, p: int, n: int)
    requires Inv(s) && IsPid(p) && St(s, p) == PRFREE && 1 <= n <= MAXINT
    ensures IsPid(s.cur) && Does(s, Makes(p, n), Born(s, p, n))
  {
    hide Inv, Does, Stage, Drop, Has;
    CurIsPid(s);
    BornKeeps(s, p, n);
    NullLives(s);
    OffReady(s, p);
    var t := Born(s, p, n);
    MovedStage(s, t, Makes(p, n), p, t.proc[p]);
    Concludes(s, Makes(p, n), t, t);
  }

  lemma NullLives(s: Sys)
    requires Inv(s)
    ensures St(s, 0) == PRCURR || St(s, 0) == PRREADY
  {
  }

  /** kill of a process that waits for a semaphore. */
  lemma WaiterOnce(s: Sys, p: int, m: int)
    requires Inv(s) && 0 < p < NPROC && !BadSem(m)
    ensures p in s.sem[m].waiters <==> St(s, p) == PRWAIT && s.proc[p].sem == m
    ensures St(s, p) == PRWAIT ==> !BadSem(s.proc[p].sem)
  {
    assert AtHome(s, p);
  }

  lemma DieDoes(s: Sys, p: int)
    requires Inv(s)
    ensures IsPid(s.cur) && Does(s, Kills(p), Die(s, p))
  {
    hide Inv, Resched, Does, Stage, Drop, Has, Unsleep, Cancel, NoDup;
    CurIsPid(s);
    DieKeeps(s, p);
    if BadPid(p) {
      NothingDone(s, Kills(p));
    } else {
      forall m | !BadSem(m)
        ensures p in s.sem[m].waiters <==> St(s, p) == PRWAIT && s.proc[p].sem == m
        ensures St(s, p) == PRWAIT ==> !BadSem(s.proc[p].sem)
      {
        WaiterOnce(s, p, m);
      }
      if St(s, p) == PRFREE {
        NothingDone(s, Kills(p));
      } else {
        OffReady(s, p);
        CurPrio(s);
        InvReady(s);
        var t := if St(s, p) == PRCURR then SetState(s, p, PRFREE) else Die(s, p);
        DieMoves(s, p, t);
        Concludes(s, Kills(p), t, Die(s, p));
      }
    }
  }

  lemma DieMoves(s: Sys, p: int, t: Sys)
    requires Inv(s) && IsPid(s.cur) && 0 < p < NPROC && St(s, p) != PRFREE
    requires t == if St(s, p) == PRCURR then SetState(s, p, PRFREE) else Die(s, p)
    ensures Stage(s, Kills(p), t)
  {
    hide Inv, Resched, Stage, Drop, Has, Unsleep, Cancel, NoDup;
    OffReady(s, p);
    forall m | !BadSem(m)
      ensures p in s.sem[m].waiters <==> St(s, p) == PRWAIT && s.proc[p].sem == m
      ensures St(s, p) == PRWAIT ==> !BadSem(s.proc[p].sem)
    {
      WaiterOnce(s, p, m);
    }
    WaiterOnce(s, p, 0);
    MovedStage(s, t, Kills(p), p, s.proc[p].(state := PRFREE));
  }

  // -------------------------------------------------------------------- messages, sleeping

  lemma SendStage(s: Sys, p: int, w: int)
    requires Inv(s) && !BadPid(p) && (St(s, p) == PRRECV || St(s, p) == PRTRECV)
    ensures IsPid(s.cur)
    ensures
      var s1 := s.(proc := s.proc[p := s.proc[p].(hasmsg := true, msg := w)]);
      var t := if St(s, p) == PRRECV then Ready(s1, p) else Ready(Unqueue(s1, p), p);
      Stage(s, Sends(p, w), t) && t.proc[s.cur].prio >= 0 && St(t, s.cur) == PRCURR && t.cur == s.cur
  {
    hide Inv, ReadyTrue, Ready, Unsleep;
    InvReady(s);
    CurPrio(s);
    NoMessage(s, p);
    var s1 := s.(proc := s.proc[p := s.proc[p].(hasmsg := true, msg := w)]);
    var s0 := if St(s, p) == PRRECV then s1 else Unqueue(s1, p);
    StillTrue(s, s0);
    ReadyOne(s0, p);
    var t := Ready(s0, p);
    forall q | IsPid(q)
      ensures EntryRight(s, Sends(p, w), t, q)
    {
    }
  }

  lemma StillTrue(s: Sys, t: Sys)
    requires ReadyTrue(s) && t.ready == s.ready && forall q {:trigger t.proc[q]} :: IsPid(q) ==> t.proc[q].state == s.proc[q].state || s.proc[q].state != PRREADY
    ensures ReadyTrue(t)
  {
    forall x | IsPid(x) && Has(t.ready, x)
      ensures St(t, x) == PRREADY
    {
      assert St(s, x) == PRREADY && t.proc[x].state == s.proc[x].state;
    }
  }

  lemma NoMessage(s: Sys, p: int)
    requires Inv(s) && IsPid(p) && (St(s, p) == PRRECV || St(s, p) == PRTRECV)
    ensures !s.proc[p].hasmsg
  {
  }

  lemma SendDoes(s: Sys, p: int, w: int)
    requires Inv(s)
    ensures IsPid(s.cur) && Does(s, Sends(p, w), Send(s, p, w))
  {
    hide Inv, Resched, Does, Stage, Drop, Ready, Unqueue, Has;
    CurIsPid(s);
    SendKeeps(s, p, w);
    if !BadPid(p) && (St(s, p) == PRRECV || St(s, p) == PRTRECV) {
      NoMessage(s, p);
      SendStage(s, p, w);
      var s1 := s.(proc := s.proc[p := s.proc[p].(hasmsg := true, msg := w)]);
      Concludes(s, Sends(p, w), if St(s, p) == PRRECV then Ready(s1, p) else Ready(Unqueue(s1, p), p), Send(s, p, w));
    } else if BadPid(p) || St(s, p) == PRFREE || s.proc[p].hasmsg {
      NothingDone(s, Sends(p, w));
    } else {
      OffReady(s, p);
      var t := Send(s, p, w);
      MovedStage(s, t, Sends(p, w), p, t.proc[p]);
      Concludes(s, Sends(p, w), t, t);
    }
  }

  /** Only the caller's entry changes, and the sleep queue. */
  lemma CallerStage(s: Sys, t: Sys, st: Step, e: PEntry)
    requires Inv(s) && IsPid(s.cur) && t.cur == s.cur && t.ready == s.ready && t.preempt == s.preempt && t.proc == s.proc[s.cur := e]
    requires e.state != PRREADY && Settled(e.state) == Goes(s, st, s.cur) && e == EntryAfter(s, st, s.cur).(state := e.state)
    requires forall q :: IsPid(q) && q != s.cur ==> Goes(s, st, q) == Settled(St(s, q)) && EntryAfter(s, st, q) == s.proc[q]
    requires t.clock == ClockAfter(s, st) && Slice(s, st) == 0 && t.sem == s.sem && forall m :: !BadSem(m) ==> s.sem[m] == SemAfter(s, st, m)
    ensures Stage(s, st, t)
  {
    hide Inv, Goes, EntryAfter, SemAfter, ClockAfter, Slice;
    InvReady(s);
    CurPrio(s);
    StillTrue(s, t);
    forall q | IsPid(q)
      ensures EntryRight(s, st, t, q)
    {
    }
  }

  lemma ReceiveDoes(s: Sys)
    requires Inv(s) && s.cur != 0
    ensures IsPid(s.cur) && Does(s, Receives, Receive(s))
  {
    hide Inv, Resched, Does, Stage;
    CurIsPid(s);
    ReceiveKeeps(s);
    CurPrio(s);
    InvReady(s);
    var t := if !s.proc[s.cur].hasmsg then SetState(s, s.cur, PRRECV) else Collect(s);
    CallerStage(s, t, Receives, t.proc[s.cur]);
    Concludes(s, Receives, t, Receive(s));
  }

  lemma CollectDoes(s: Sys)
    requires Inv(s)
    ensures IsPid(s.cur) && Does(s, Collects, Collect(s))
  {
    hide Inv, Does, Stage;
    CurIsPid(s);
    CollectKeeps(s);
    InvReady(s);
    CallerStage(s, Collect(s), Collects, Collect(s).proc[s.cur]);
    Concludes(s, Collects, Collect(s), Collect(s));
  }

  lemma SleepDoes(s: Sys, n: int, u: int)
    requires Inv(s) && u >= 1 && (s.cur == 0 ==> n <= 0)
    ensures IsPid(s.cur) && Does(s, Step.Sleeps(n, u), SleepFor(s, n, u))
  {
    hide Inv, Resched, Does, Stage, Insertd;
    CurIsPid(s);
    SleepKeeps(s, n, u);
    CurPrio(s);
    InvReady(s);
    if n < 0 {
      NothingDone(s, Step.Sleeps(n, u));
    } else if n == 0 {
      Idles(s, Step.Sleeps(n, u), s);
      Concludes(s, Step.Sleeps(n, u), s, SleepFor(s, n, u));
    } else {
      var t := Doze(s, n * u, PRSLEEP);
      CallerStage(s, t, Step.Sleeps(n, u), t.proc[s.cur]);
      Concludes(s, Step.Sleeps(n, u), t, SleepFor(s, n, u));
    }
  }

  lemma RecvtimDoes(s: Sys, n: int)
    requires Inv(s) && s.cur != 0
    ensures IsPid(s.cur) && Does(s, TimedReceives(n), Recvtim(s, n))
  {
    hide Inv, Resched, Does, Stage, Insertd;
    CurIsPid(s);
    RecvtimKeeps(s, n);
    CurPrio(s);
    InvReady(s);
    if n < 0 {
      NothingDone(s, TimedReceives(n));
    } else {
      var t := if !s.proc[s.cur].hasmsg then Doze(s, n * 1000, PRTRECV) else Collect(s);
      CallerStage(s, t, TimedReceives(n), t.proc[s.cur]);
      Concludes(s, TimedReceives(n), t, Recvtim(s, n));
    }
  }

  // -------------------------------------------------------------------------------- clock

  /** wakeup readies those at the front of the sleep queue. */
  lemma {:induction false} WakeAllIs(s: Sys)
    requires ReadyTrue(s) && AllWait(s, Woken(s.clock))
    ensures var t := WakeAll(s);
      && t.cur == s.cur && t.preempt == s.preempt && t.sem == s.sem && t.clock == Asleep(s.clock) && ReadyTrue(t)
      && ((forall k :: 0 <= k < |s.ready| ==> IsPid(s.ready[k].pid)) ==> forall k :: 0 <= k < |t.ready| ==> IsPid(t.ready[k].pid))
      && forall q {:trigger t.proc[q]} :: IsPid(q) ==> t.proc[q] == if q in Woken(s.clock) then Woke(s.proc[q], None) else s.proc[q]
    decreases |s.clock|
  {
    hide Ready, ReadyTrue;
    if s.clock != [] && s.clock[0].key <= 0 {
      var p, s1 := s.clock[0].pid, s.(clock := s.clock[1..]);
      var w := Woken(s.clock);
      assert w[0] == p && w[1..] == Woken(s1.clock);
      SameReady(s, s1);
      ReadyOne(s1, p);
      forall k | 0 <= k < |w| - 1
        ensures 0 < w[1..][k] < NPROC && St(Ready(s1, p), w[1..][k]) != PRREADY
      {
        assert w[1..][k] == w[k + 1] && w[k + 1] != w[0];
      }
      WakeAllIs(Ready(s1, p));
    }
  }

  /** Those at the front of a queue with the same processes sleep. */
  lemma WokenSleep(s: Sys, d: seq<Entry>)
    requires Inv(s) && Single(d) && forall q {:trigger Has(d, q)} :: Has(d, q) ==> Has(s.clock, q)
    ensures AllWait(s, Woken(d)) && IsPid(s.cur) && s.cur !in Woken(d)
  {
    CurIsPid(s);
    WokenSingle(d);
    var w := Woken(d);
    forall k | 0 <= k < |w|
      ensures 0 < w[k] < NPROC && St(s, w[k]) != PRREADY && w[k] != s.cur
    {
      assert Has(s.clock, w[k]);
      var j :| 0 <= j < |s.clock| && s.clock[j].pid == w[k];
      assert IsPid(s.clock[j].pid);
      assert AtHome(s, w[k]);
    }
  }

  lemma {:induction false} WokenSingle(d: seq<Entry>)
    requires Single(d)
    ensures forall k :: 0 <= k < |Woken(d)| ==> Has(d, Woken(d)[k])
    ensures forall j, k :: 0 <= j < k < |Woken(d)| ==> Woken(d)[j] != Woken(d)[k]
    decreases |d|
  {
    if d != [] && d[0].key <= 0 {
      HasTail(d, d[0].pid);
      WokenSingle(d[1..]);
      forall k | 0 <= k < |Woken(d)|
        ensures Has(d, Woken(d)[k]) && (k > 0 ==> Woken(d)[k] != d[0].pid)
      {
        if k > 0 { HasTail(d, Woken(d)[k]); }
      }
    }
  }

  /** The state in which wakeup calls resched. */
  lemma WakeStage(s: Sys, d: seq<Entry>, st: Step, s1: Sys)
    requires Inv(s) && IsPid(s.cur) && Single(d) && (forall q {:trigger Has(d, q)} :: Has(d, q) ==> Has(s.clock, q))
    requires s1 == s.(clock := d, preempt := s.preempt - Slice(s, st), defclk := s1.defclk, clkdiff := s1.clkdiff)
    requires ClockAfter(s, st) == Asleep(d) && forall m :: !BadSem(m) ==> SemAfter(s, st, m) == s.sem[m]
    requires forall q :: IsPid(q) ==> Goes(s, st, q) == (if q in Woken(d) then PRREADY else Settled(St(s, q))) && EntryAfter(s, st, q) == s.proc[q]
    ensures var t := SetTop(WakeAll(s1));
      Stage(s, st, t) && t.proc[s.cur].prio >= 0 && St(t, s.cur) == PRCURR && t.cur == s.cur
  {
    hide Inv, Goes, EntryAfter, SemAfter, ClockAfter, Slice, Woken, Asleep, Single, Has, ReadyTrue, WakeAll;
    InvReady(s);
    CurPrio(s);
    WokenSleep(s, d);
    SameReady(s, s1);
    WakeAllIs(s1);
    var t := SetTop(WakeAll(s1));
    SameReady(WakeAll(s1), t);
    forall q | IsPid(q)
      ensures EntryRight(s, st, t, q)
    {
    }
  }

  lemma TickDoes(s: Sys)
    requires Inv(s)
    ensures IsPid(s.cur) && Does(s, Interrupt, Clkint(s))
  {
    hide Inv, Resched, Does, Stage, Woken, Asleep, Single, Has;
    ClkintKeeps(s);
    CurPrio(s);
    InvReady(s);
    ClockFlags(s);
    if s.clock == [] {
      NobodyWakes(s, []);
      NothingDone(s, Interrupt);
    } else {
      var d := Decrement(s.clock);
      SameSleepers(s, d);
      if d[0].key <= 0 {
        assert s.slnempty && Woken(d) != [] by { FrontWakes(d); }
        WakeStage(s, d, Interrupt, TakeTick(s));
        Concludes(s, Interrupt, SetTop(WakeAll(TakeTick(s))), Clkint(s));
      } else {
        QuietStage(s, d);
        Concludes(s, Interrupt, TakeTick(s), Clkint(s));
      }
    }
  }

  lemma ClockFlags(s: Sys)
    requires Inv(s)
    ensures s.slnempty <==> s.clock != []
  {
  }

  lemma FrontWakes(d: seq<Entry>)
    requires d != [] && d[0].key <= 0
    ensures Woken(d) != []
  {
  }

  lemma NobodyWakes(s: Sys, d: seq<Entry>)
    requires d == []
    ensures Tick(d) == ([], []) && CatchUp(d, s.clkdiff) == ([], [])
  {
  }

  /** A tick leaves the same processes on the queue. */
  lemma SameSleepers(s: Sys, d: seq<Entry>)
    requires Inv(s) && s.clock != [] && d == Decrement(s.clock)
    ensures Single(d) && forall q {:trigger Has(d, q)} :: Has(d, q) <==> Has(s.clock, q)
  {
    forall q
      ensures Has(d, q) <==> Has(s.clock, q)
    {
      DecrementEffect(s.clock, q);
    }
    DecrementEffect(s.clock, 0);
  }

  /** A tick that wakes nobody. */
  lemma QuietStage(s: Sys, d: seq<Entry>)
    requires Inv(s) && s.clock != [] && d == Decrement(s.clock) && d[0].key > 0
    ensures IsPid(s.cur) && Stage(s, Interrupt, s.(clock := d)) && !Reschedules(s, Interrupt)
  {
    hide Inv, ReadyTrue, Woken, Asleep;
    CurPrio(s);
    InvReady(s);
    var t := s.(clock := d);
    SameReady(s, t);
    forall q | IsPid(q)
      ensures EntryRight(s, Interrupt, t, q)
    {
    }
  }

  lemma StartDoes(s: Sys)
    requires Inv(s) && s.clkdiff >= 0
    ensures IsPid(s.cur) && Does(s, StartsClock, Strtclk(s))
  {
    hide Inv, Resched, Does, Stage, Woken, Asleep, Single, Has, Advance;
    StrtclkKeeps(s);
    CurPrio(s);
    InvReady(s);
    ClockFlags(s);
    if s.defclk != 1 {
      Idles(s, StartsClock, Strtclk(s));
      Concludes(s, StartsClock, Strtclk(s), Strtclk(s));
    } else if !s.slnempty {
      NobodyWakes(s, s.clock);
      Idles(s, StartsClock, Charge(s));
      Concludes(s, StartsClock, Charge(s), Strtclk(s));
    } else {
      var d := Advance(s.clock, s.clkdiff);
      LateSleepers(s, d);
      WakeStage(s, d, StartsClock, Charge(s).(clock := d));
      Concludes(s, StartsClock, SetTop(WakeAll(Charge(s).(clock := d))), Strtclk(s));
    }
  }

  lemma LateSleepers(s: Sys, d: seq<Entry>)
    requires Inv(s) && s.clkdiff >= 0 && d == Advance(s.clock, s.clkdiff)
    ensures Single(d) && forall q {:trigger Has(d, q)} :: Has(d, q) <==> Has(s.clock, q)
  {
    forall q
      ensures Has(d, q) <==> Has(s.clock, q)
    {
      AdvanceEffect(s.clock, s.clkdiff, q);
    }
    AdvanceEffect(s.clock, s.clkdiff, 0);
  }

  lemma RestDoes(s: Sys, st: Step)
    requires Inv(s) && (st.EndsInterrupt? || st.EndsStart? || st.StopsClock?)
    ensures IsPid(s.cur) && Legal(s, st) && Does(s, st, Apply(s, st))
  {
    hide Inv, Resched, Does, Stage;
    CurPrio(s);
    InvReady(s);
    StepKeeps(s, st);
    var t := if st.EndsInterrupt? then s.(preempt := s.preempt - 1) else if st.StopsClock? then Stopclk(s) else s;
    Idles(s, st, t);
    Concludes(s, st, t, Apply(s, st));
  }

  // --------------------------------------------------------------------------- theorems

  /** Every call and interrupt does to every process, every semaphore, the sleep queue and the
      time slice what is said above, and nothing else. Which of the ready processes runs is
      settled by SchedRun.HighestRuns and SchedOps.DispatchesInOrder. */
  lemma StepDoes(s: Sys, st: Step)
    requires Inv(s) && IsPid(s.cur) && Legal(s, st)
    ensures Does(s, st, Apply(s, st))
  {
    hide Inv, Does;
    match st
    case Waits(m) => WaitDoes(s, m);
    case Signals(m) => SignalDoes(s, m);
    case SignalsMany(m, n) => SignalnDoes(s, m, n);
    case Resets(m, n) => SresetDoes(s, m, n);
    case Deletes(m) => SdeleteDoes(s, m);
    case MakesSem(m, n) => ScreateDoes(s, m, n);
    case Suspends(p) => SuspendDoes(s, p);
    case Resumes(p) => ResumeDoes(s, p);
    case Ranks(p, n) => ChprioDoes(s, p, n);
    case Makes(p, n) => BornDoes(s, p, n);
    case Kills(p) => DieDoes(s, p);
    case Sends(p, w) => SendDoes(s, p, w);
    case Receives => ReceiveDoes(s);
    case Collects => CollectDoes(s);
    case Sleeps(n, u) => SleepDoes(s, n, u);
    case TimedReceives(n) => RecvtimDoes(s, n);
    case Interrupt => TickDoes(s);
    case StartsClock => StartDoes(s);
    case EndsInterrupt => RestDoes(s, st);
    case EndsStart => RestDoes(s, st);
    case StopsClock => RestDoes(s, st);
  }

  /** resume of a suspended process: it is ready or running, at once if it outranks the caller;
      no entry changes otherwise, and no semaphore. */
  lemma ResumeStarts(s: Sys, p: int)
    requires Inv(s) && !BadPid(p) && St(s, p) == PRSUSP
    ensures IsPid(s.cur)
    ensures var s2 := Resume(s, p);
      && Awake(s2, p) && (s.proc[p].prio > s.proc[s.cur].prio ==> St(s2, p) == PRCURR && s2.cur == p)
      && s2.sem == s.sem && s2.clock == s.clock
      && forall q {:trigger s2.proc[q]} :: IsPid(q) ==>
        s2.proc[q] == s.proc[q].(state := s2.proc[q].state) && (q != p ==> Settled(s2.proc[q].state) == Settled(s.proc[q].state))
  {
    hide Resched, Ready;
    CurIsPid(s);
    ResumeDoes(s, p);
    ResumeKeeps(s, p);
    var s2 := Resume(s, p);
    forall q | IsPid(q)
      ensures EntryRight(s, Resumes(p), s2, q)
    {
    }
    if s.proc[p].prio > s.proc[s.cur].prio {
      hide Does, EntryRight, Base, Counts;
      RunsFirst(s, p, s2);
    }
  }

  /** If p had not got the processor, some process would outrank it. */
  lemma RunsFirst(s: Sys, p: int, s2: Sys)
    requires Inv(s) && Inv(s2) && IsPid(p) && Awake(s2, p) && IsPid(s.cur) && s.proc[p].prio > s.proc[s.cur].prio
    requires forall q {:trigger s2.proc[q]} :: IsPid(q) ==>
      s2.proc[q] == s.proc[q].(state := s2.proc[q].state) && (q != p ==> Settled(s2.proc[q].state) == Settled(s.proc[q].state))
    ensures St(s2, p) == PRCURR && s2.cur == p
  {
    hide Inv;
    InvReady(s2);
    StillAtMost(s, p, s2);
    PrioOver(s2, p);
  }

  lemma StillAtMost(s: Sys, p: int, s2: Sys)
    requires Inv(s) && Inv(s2) && IsPid(s.cur)
    requires forall q {:trigger s2.proc[q]} :: IsPid(q) ==>
      s2.proc[q] == s.proc[q].(state := s2.proc[q].state) && (q != p ==> Settled(s2.proc[q].state) == Settled(s.proc[q].state))
    ensures IsPid(s2.cur) && (s2.cur != p ==> s2.proc[s2.cur].prio <= s.proc[s.cur].prio)
  {
    InvReady(s2);
    InvReady(s);
    var c := s2.cur;
    assert c != p ==> Settled(s2.proc[c].state) == Settled(s.proc[c].state) && (St(s, c) == PRREADY || c == s.cur);
    assert St(s, c) == PRREADY ==> s.proc[c].prio <= s.proc[s.cur].prio;
  }

  lemma PrioOver(s: Sys, p: int)
    requires Inv(s) && IsPid(p) && Awake(s, p)
    ensures IsPid(s.cur) && s.proc[p].prio <= s.proc[s.cur].prio
  {
    InvReady(s);
  }

  /** In any run, a suspended process stays suspended, on no list, until a resume or a kill
      names it; whatever else is called in between leaves it alone. */
  lemma {:induction false} StaysSuspended(ss: seq<Sys>, sts: seq<Step>, p: int, k: nat)
    requires IsRun(ss, sts) && Inv(ss[0]) && 0 < p < NPROC && St(ss[0], p) == PRSUSP && k < |ss|
    requires forall j :: 0 <= j < k ==> sts[j] != Resumes(p) && sts[j] != Kills(p)
    ensures Inv(ss[k]) && St(ss[k], p) == PRSUSP
    ensures !Has(ss[k].ready, p) && !Has(ss[k].clock, p) && forall m :: !BadSem(m) ==> p !in ss[k].sem[m].waiters
  {
    hide Inv, Apply, Legal, Does, Has;
    if k > 0 {
      StaysSuspended(ss, sts, p, k - 1);
      StepKeeps(ss[k - 1], sts[k - 1]);
      StepDoes(ss[k - 1], sts[k - 1]);
      NotNamed(ss[k - 1], sts[k - 1], ss[k], p);
    }
    OnNoList(ss[k], p);
  }

  lemma OnNoList(s: Sys, p: int)
    requires Inv(s) && IsPid(p) && St(s, p) == PRSUSP
    ensures !Has(s.ready, p) && !Has(s.clock, p) && forall m :: !BadSem(m) ==> p !in s.sem[m].waiters
  {
    assert AtHome(s, p);
  }

  lemma NotNamed(s: Sys, st: Step, s2: Sys, p: int)
    requires Inv(s) && IsPid(s.cur) && Legal(s, st) && Does(s, st, s2) && 0 < p < NPROC && St(s, p) == PRSUSP
    requires st != Resumes(p) && st != Kills(p)
    ensures St(s2, p) == PRSUSP
  {
    hide Inv, EntryAfter, SemAfter, ClockAfter, Tick, CatchUp;
    InvReady(s);
    OnNoList(s, p);
    assert EntryRight(s, st, s2, p);
    WakesSleepers(s, st, p);
  }

  /** Only sleepers are woken. */
  lemma WakesSleepers(s: Sys, st: Step, p: int)
    requires Inv(s) && !Has(s.clock, p) && Legal(s, st)
    ensures st.Interrupt? ==> p !in Tick(s.clock).0
    ensures st.StartsClock? ==> p !in CatchUp(s.clock, s.clkdiff).0
  {
    hide Inv, Has, Advance;
    if st.Interrupt? && s.clock != [] {
      SameSleepers(s, Decrement(s.clock));
      WokenSingle(Decrement(s.clock));
    }
    if st.StartsClock? {
      LateSleepers(s, Advance(s.clock, s.clkdiff));
      WokenSingle(Advance(s.clock, s.clkdiff));
    }
  }

  /** And right after the resume it is awake. */
  lemma AwakeAfterResume(ss: seq<Sys>, sts: seq<Step>, p: int, k: nat)
    requires IsRun(ss, sts) && Inv(ss[0]) && 0 < p < NPROC && St(ss[0], p) == PRSUSP && k < |sts| && sts[k] == Resumes(p)
    requires forall j :: 0 <= j < k ==> sts[j] != Resumes(p) && sts[j] != Kills(p)
    ensures Awake(ss[k + 1], p)
  {
    hide Inv, Resume;
    StaysSuspended(ss, sts, p, k);
    ResumeStarts(ss[k], p);
  }

  // ------------------------------------------------------------------------ deferral

  /** How deep the deferral of the clock is after a step. */
  function DepthAfter(d: int, st: Step): int {
    match st
    case StopsClock => d + 1
    case StartsClock => if d > 0 then d - 1 else d
    case _ => d
  }

  /** Only stopclk and strtclk change it, and only the strtclk that ends the deferral takes up
      the deferred ticks, all of them. */
  lemma Defers(s: Sys, st: Step)
    requires IsPid(s.cur) && Legal(s, st)
    ensures Apply(s, st).defclk == DepthAfter(s.defclk, st)
    ensures Apply(s, st).clkdiff == if st.StartsClock? && s.defclk == 1 then 0 else s.clkdiff
  {
    hide Resched, SignalOne, SignalMany, ReleaseAll, WakeAll, Drop, Cancel, Insertd, Unsleep, Advance;
  }

  function Depth(sts: seq<Step>): int {
    if sts == [] then 0 else DepthAfter(Depth(sts[..|sts| - 1]), sts[|sts| - 1])
  }

  /** In any run the clock is deferred as deep as the stops not yet matched by starts. */
  lemma {:induction false} DeferralsNest(ss: seq<Sys>, sts: seq<Step>, k: nat)
    requires IsRun(ss, sts) && ss[0] == Start() && k < |ss|
    ensures ss[k].defclk == Depth(sts[..k])
  {
    hide Apply, Legal, Inv;
    if k > 0 {
      assert sts[..k][..k - 1] == sts[..k - 1] && sts[..k][k - 1] == sts[k - 1];
      DeferralsNest(ss, sts, k - 1);
      Defers(ss[k - 1], sts[k - 1]);
    }
  }
}
