/** Processes, the ready list, semaphores, messages and the sleep queue: the system calls of
    sys/ that move processes between lists, as functions on the state of the tables. Calls
    that name a bad process or semaphore leave the state alone and return SYSERR. */
module Sched {
  import opened Machine
  import opened DeltaList
  import opened QLists
  import opened QTable

  const QUANTUM: int := 10
  const OK: int := 1
  const DELETED: int := -6

  datatype PState = PRCURR | PRFREE | PRREADY | PRRECV | PRSLEEP | PRSUSP | PRWAIT | PRTRECV

  datatype PEntry = PEntry(state: PState, prio: int, sem: int, hasmsg: bool, msg: int, waitret: int)

  datatype Sem = Sem(used: bool, cnt: int, waiters: seq<int>)

  type Procs = s: seq<PEntry> | |s| == NPROC witness seq(NPROC, _ => PEntry(PRFREE, 0, 0, false, 0, 0))
  type Sems = s: seq<Sem> | |s| == NSEM witness seq(NSEM, _ => Sem(false, 0, []))
  type Stamps = s: seq<int> | |s| == NPROC witness seq(NPROC, _ => 0)

  /** `sltop` is kept as the process whose key it points to. `stamp` and `now` are history:
      they number the arrivals on the ready list and nothing depends on them. */
  datatype Sys = Sys(
    proc: Procs, sem: Sems, ready: seq<Entry>, clock: seq<Entry>, cur: int,
    slnempty: bool, sltop: int, preempt: int, defclk: int, clkdiff: int, stamp: Stamps, now: int)

  function St(s: Sys, p: int): PState
    requires IsPid(p)
  {
    s.proc[p].state
  }

  predicate BadPid(p: int) { p <= 0 || p >= NPROC }
  predicate BadSem(m: int) { m < 0 || m >= NSEM }

  function SetState(s: Sys, p: int, st: PState): Sys
    requires IsPid(p)
  {
    s.(proc := s.proc[p := s.proc[p].(state := st)])
  }

  // ----------------------------------------------------------------------- ready, resched

  /** The process becomes ready, behind the others of its priority. */
  function MakeReady(s: Sys, p: int): Sys
    requires IsPid(p)
  {
    SetState(s, p, PRREADY).(ready := InsertKey(s.ready, p, s.proc[p].prio), stamp := s.stamp[p := s.now], now := s.now + 1)
  }

  /** `ready` without its call of resched. */
  function Ready(s: Sys, p: int): Sys { if BadPid(p) then s else MakeReady(s, p) }

  function LastKey(d: seq<Entry>): int { if d == [] then MININT else d[|d| - 1].key }

  /** The process at the tail of the ready list gets the processor. */
  function Dispatch(s: Sys): Sys {
    var n := |s.ready| - 1;
    if n < 0 || !IsPid(s.ready[n].pid) then s
    else SetState(s, s.ready[n].pid, PRCURR).(ready := s.ready[..n], cur := s.ready[n].pid, preempt := QUANTUM)
  }

  /** `resched`; its caller has set the next state of the running process. */
  function Resched(s: Sys): (r: Sys)
    requires IsPid(s.cur)
    ensures r.clock == s.clock && r.sem == s.sem && r.defclk == s.defclk && r.clkdiff == s.clkdiff
  {
    var c := s.proc[s.cur];
    if c.state == PRCURR && LastKey(s.ready) < c.prio then s
    else Dispatch(if c.state == PRCURR then MakeReady(s, s.cur) else s)
  }

  // --------------------------------------------------------------------------- semaphores

  function SetSem(s: Sys, m: int, x: Sem): Sys
    requires !BadSem(m)
  {
    s.(sem := s.sem[m := x])
  }

  /** The first waiter of a semaphore is readied, if there is one. */
  function Release(s: Sys, m: int): Sys
    requires !BadSem(m)
  {
    var w := s.sem[m].waiters;
    if w == [] then s else Ready(SetSem(s, m, s.sem[m].(waiters := w[1..])), w[0])
  }

  function Count(s: Sys, m: int, n: int): Sys
    requires !BadSem(m)
  {
    SetSem(s, m, s.sem[m].(cnt := n))
  }

  /** The running process goes on the list of a semaphore. */
  function Blocking(s: Sys, m: int): Sys
    requires IsPid(s.cur) && !BadSem(m)
  {
    var x := s.sem[m];
    var pr := s.proc[s.cur].(state := PRWAIT, sem := m, waitret := OK);
    s.(proc := s.proc[s.cur := pr], sem := s.sem[m := x.(cnt := x.cnt - 1, waiters := x.waiters + [s.cur])])
  }

  /** `wait`. */
  function Wait(s: Sys, m: int): Sys
    requires IsPid(s.cur)
  {
    if BadSem(m) || !s.sem[m].used then s
    else if s.sem[m].cnt - 1 >= 0 then Count(s, m, s.sem[m].cnt - 1)
    else Resched(Blocking(s, m))
  }

  function SignalOne(s: Sys, m: int): (r: Sys)
    requires !BadSem(m)
    ensures r.cur == s.cur && r.clkdiff == s.clkdiff && r.defclk == s.defclk && r.clock == s.clock
  {
    var x := s.sem[m];
    if x.cnt < 0 then Release(Count(s, m, x.cnt + 1), m) else Count(s, m, x.cnt + 1)
  }

  /** `signal`; it reschedules only if it readies a process. */
  function Signal(s: Sys, m: int): Sys
    requires IsPid(s.cur)
  {
    if BadSem(m) || !s.sem[m].used then s
    else if s.sem[m].cnt < 0 then Resched(SignalOne(s, m)) else SignalOne(s, m)
  }

  function SignalMany(s: Sys, m: int, n: nat): (r: Sys)
    requires !BadSem(m)
    ensures r.cur == s.cur && r.clkdiff == s.clkdiff && r.defclk == s.defclk && r.clock == s.clock
  {
    if n == 0 then s else SignalOne(SignalMany(s, m, n - 1), m)
  }

  /** `signaln`. */
  function Signaln(s: Sys, m: int, n: int): Sys
    requires IsPid(s.cur)
  {
    if BadSem(m) || !s.sem[m].used || n <= 0 then s else Resched(SignalMany(s, m, n))
  }

  /** All waiters are readied, in order; each first gets the given result of wait, if any. */
  function ReleaseAll(s: Sys, m: int, ret: Option<int>): (r: Sys)
    requires !BadSem(m)
    ensures r.cur == s.cur && r.clkdiff == s.clkdiff && r.defclk == s.defclk && r.clock == s.clock
    decreases |s.sem[m].waiters|
  {
    var w := s.sem[m].waiters;
    if w == [] then s
    else
      var s1 := if ret.Some? && IsPid(w[0]) then s.(proc := s.proc[w[0] := s.proc[w[0]].(waitret := ret.value)]) else s;
      ReleaseAll(Release(s1, m), m, ret)
  }

  /** `sreset`. */
  function Sreset(s: Sys, m: int, n: int): Sys
    requires IsPid(s.cur)
  {
    if BadSem(m) || n < 0 || !s.sem[m].used then s
    else Resched(Count(ReleaseAll(s, m, None), m, n))
  }

  /** `sdelete`. */
  function Sdelete(s: Sys, m: int): Sys
    requires IsPid(s.cur)
  {
    if BadSem(m) || !s.sem[m].used then s
    else
      var s1 := SetSem(s, m, s.sem[m].(used := false));
      if s.sem[m].waiters == [] then s1 else Resched(ReleaseAll(s1, m, Some(DELETED)))
  }

  /** `screate` in a free entry m, which newsem chooses. */
  function Screate(s: Sys, m: int, n: int): Sys
    requires !BadSem(m) && !s.sem[m].used
  {
    if n < 0 then s else SetSem(s, m, s.sem[m].(used := true, cnt := n))
  }

  // ---------------------------------------------------- suspension, priority, birth, death

  /** The ready list without a process. */
  function Unready(s: Sys, p: int): Sys { s.(ready := Drop(s.ready, p)) }

  /** A list without the entry of a process. */
  function Drop(d: seq<Entry>, p: int): seq<Entry> {
    if d == [] then [] else if d[0].pid == p then d[1..] else [d[0]] + Drop(d[1..], p)
  }

  /** `suspend`. */
  function Suspend(s: Sys, p: int): Sys
    requires IsPid(s.cur)
  {
    if BadPid(p) || (St(s, p) != PRCURR && St(s, p) != PRREADY) then s
    else if St(s, p) == PRREADY then Unready(SetState(s, p, PRSUSP), p)
    else Resched(SetState(s, p, PRSUSP))
  }

  /** `resume`. */
  function Resume(s: Sys, p: int): Sys
    requires IsPid(s.cur)
  {
    if BadPid(p) || St(s, p) != PRSUSP then s else Resched(Ready(s, p))
  }

  /** `chprio`: a ready process is queued again under its new priority. */
  function Chprio(s: Sys, p: int, n: int): Sys
    requires IsPid(s.cur)
  {
    if BadPid(p) || n <= 0 || St(s, p) == PRFREE then s
    else
      var s1 := s.(proc := s.proc[p := s.proc[p].(prio := n)]);
      if St(s, p) == PRREADY then Resched(MakeReady(Unready(s1, p), p))
      else if St(s, p) == PRCURR then Resched(s1)
      else s1
  }

  /** The process entry that create and vcreate fill in for a free slot p. */
  function Born(s: Sys, p: int, n: int): Sys
    requires IsPid(p)
  {
    s.(proc := s.proc[p := PEntry(PRSUSP, n, 0, false, 0, s.proc[p].waitret)])
  }

  /** The part of `kill` that concerns the lists. */
  function Die(s: Sys, p: int): Sys
    requires IsPid(s.cur)
  {
    if BadPid(p) || St(s, p) == PRFREE then s
    else
      match St(s, p)
      case PRCURR => Resched(SetState(s, p, PRFREE))
      case PRWAIT =>
        var m := s.proc[p].sem;
        if BadSem(m) then s
        else SetState(SetSem(s, m, Sem(s.sem[m].used, s.sem[m].cnt + 1, Cancel(s.sem[m].waiters, p))), p, PRFREE)
      case PRREADY => SetState(Unready(s, p), p, PRFREE)
      case PRSLEEP => SetState(Unqueue(s, p), p, PRFREE)
      case PRTRECV => SetState(Unqueue(s, p), p, PRFREE)
      case _ => SetState(s, p, PRFREE)
  }

  function Cancel(w: seq<int>, p: int): seq<int> {
    if w == [] then [] else if w[0] == p then w[1..] else [w[0]] + Cancel(w[1..], p)
  }

  // ------------------------------------------------------------------- messages, sleeping

  function Top(d: seq<Entry>, top: int): int { if d == [] then top else d[0].pid }

  /** The lists and flags part of `unsleep`. */
  function Unqueue(s: Sys, p: int): Sys {
    var d := Unsleep(s.clock, p);
    s.(clock := d, slnempty := if d == [] then false else s.slnempty, sltop := Top(d, s.sltop))
  }

  /** The running process goes to sleep for n ticks, and in state st. */
  function Doze(s: Sys, n: int, st: PState): Sys
    requires IsPid(s.cur)
  {
    var d := Insertd(s.clock, s.cur, n);
    SetState(s, s.cur, st).(clock := d, slnempty := true, sltop := Top(d, s.sltop))
  }

  /** `sleep10`, `sleep100` and `sleep1000`: n units of u ticks; nothing of n ends the slice. */
  function SleepFor(s: Sys, n: int, u: int): Sys
    requires IsPid(s.cur)
  {
    if n < 0 then s else if n == 0 then Resched(s) else Resched(Doze(s, n * u, PRSLEEP))
  }

  /** `recvtim` up to its call of resched; a waiting message is taken at once. */
  function Recvtim(s: Sys, n: int): Sys
    requires IsPid(s.cur)
  {
    if n < 0 then s
    else if !s.proc[s.cur].hasmsg then Resched(Doze(s, n * 1000, PRTRECV))
    else Collect(s)
  }

  /** The end of receive and recvtim, and recvclr: the message, if any, is taken. */
  function Collect(s: Sys): Sys
    requires IsPid(s.cur)
  {
    s.(proc := s.proc[s.cur := s.proc[s.cur].(hasmsg := false)])
  }

  /** `receive` up to its call of resched. */
  function Receive(s: Sys): Sys
    requires IsPid(s.cur)
  {
    if !s.proc[s.cur].hasmsg then Resched(SetState(s, s.cur, PRRECV)) else Collect(s)
  }

  /** `send`. */
  function Send(s: Sys, p: int, w: int): Sys
    requires IsPid(s.cur)
  {
    if BadPid(p) || St(s, p) == PRFREE || s.proc[p].hasmsg then s
    else
      var s1 := s.(proc := s.proc[p := s.proc[p].(hasmsg := true, msg := w)]);
      if St(s, p) == PRRECV then Resched(Ready(s1, p))
      else if St(s, p) == PRTRECV then Resched(Ready(Unqueue(s1, p), p))
      else s1
  }

  // -------------------------------------------------------------------------------- clock

  /** The loop of `wakeup`. */
  function WakeAll(s: Sys): (r: Sys)
    ensures r.cur == s.cur && r.clkdiff == s.clkdiff && r.defclk == s.defclk && r.clock == Asleep(s.clock)
    decreases |s.clock|
  {
    if s.clock == [] || s.clock[0].key > 0 then s else WakeAll(Ready(s.(clock := s.clock[1..]), s.clock[0].pid))
  }

  function SetTop(s: Sys): Sys { s.(slnempty := s.clock != [], sltop := Top(s.clock, s.sltop)) }

  /** `wakeup`. */
  function Wakeup(s: Sys): (r: Sys)
    requires IsPid(s.cur)
    ensures r.clkdiff == s.clkdiff && r.defclk == s.defclk && r.clock == Asleep(s.clock)
  {
    Resched(SetTop(WakeAll(s)))
  }

  /** Taking a tick from the key sltop points to. */
  function TakeTick(s: Sys): Sys {
    if s.clock == [] then s else s.(clock := Decrement(s.clock))
  }

  /** The clock interrupt `clkint` up to and including its call of wakeup; the time of day is
      left out. If wakeup hands the processor to another process, the rest of the handler
      waits until the interrupted process runs again. */
  function Clkint(s: Sys): (r: Sys)
    requires IsPid(s.cur)
    ensures r.clkdiff == s.clkdiff
  {
    var s1 := if s.slnempty then TakeTick(s) else s;
    if s.slnempty && s1.clock != [] && s1.clock[0].key <= 0 then Wakeup(s1) else s1
  }

  /** The rest of the handler: a tick off the time slice of whoever runs by then. */
  function Preempt(s: Sys): (r: Sys)
    requires IsPid(s.cur)
    ensures r.clkdiff == s.clkdiff && r.clock == s.clock
  {
    var s1 := s.(preempt := s.preempt - 1);
    if s1.preempt > 0 then s1 else Resched(s1)
  }

  /** `stopclk`. */
  function Stopclk(s: Sys): Sys { s.(defclk := s.defclk + 1) }

  /** The deferred ticks are charged to the time slice. */
  function Charge(s: Sys): Sys { s.(defclk := 0, preempt := s.preempt - s.clkdiff, clkdiff := 0) }

  /** And to the sleep queue. */
  function CatchUpQueue(s: Sys, m: int): Sys
    requires IsPid(s.cur)
  {
    if s.slnempty then Wakeup(s.(clock := Advance(s.clock, m))) else s
  }

  /** `strtclk` up to and including its call of wakeup. */
  function Strtclk(s: Sys): Sys
    requires IsPid(s.cur)
  {
    if s.defclk <= 0 then s
    else if s.defclk - 1 > 0 then s.(defclk := s.defclk - 1)
    else CatchUpQueue(Charge(s), s.clkdiff)
  }

  /** The rest of `strtclk`, when its caller runs again. */
  function Overdue(s: Sys): (r: Sys)
    requires IsPid(s.cur)
    ensures r.clkdiff == s.clkdiff && r.clock == s.clock
  {
    if s.preempt <= 0 then Resched(s) else s
  }
}
