/** Processes of one priority take turns: over any run, whoever gives up the processor does not
    get it back before those of its priority that are ready. */
module SchedTurns {
  import opened Machine
  import opened DeltaList
  import opened QLists
  import opened QTable
  import opened Sched
  import opened SchedInv
  import opened SchedOps
  import opened SchedRun
  import SchedEffects

  /** Process p stands on the ready list behind no entry of process q, and with a key that q
      does not exceed: the tail is served first, so p's turn comes before q's. */
  ghost predicate Turn(s: Sys, p: int, q: int) {
    IsPid(q) && exists k {:trigger TurnAt(s, p, q, k)} :: TurnAt(s, p, q, k)
  }

  ghost predicate TurnAt(s: Sys, p: int, q: int, k: int)
    requires IsPid(q)
  {
    && 0 <= k < |s.ready| && s.ready[k].pid == p && s.ready[k].key >= s.proc[q].prio
    && forall j :: 0 <= j < |s.ready| && s.ready[j].pid == q ==> j < k
  }

  // ------------------------------------------------------------------------ single changes

  /** A process that becomes ready is put in before the first entry with as high a key. */
  lemma InsertTurn(s: Sys, x: int, p: int, q: int)
    requires IsPid(x) && Turn(s, p, q) && p != q
    ensures Turn(MakeReady(s, x), p, q)
  {
    hide InsertKey, KeyPos;
    var k :| TurnAt(s, p, q, k);
    var t, n := MakeReady(s, x), KeyPos(s.ready, s.proc[x].prio, 0);
    InsertKeyAt(s.ready, x, s.proc[x].prio);
    if x == q { KeyPosFirst(s.ready, s.proc[x].prio, k); }
    assert TurnAt(t, p, q, if k < n then k else k + 1);
  }

  lemma KeyPosFirst(d: seq<Entry>, key: int, k: nat)
    requires k < |d| && d[k].key >= key
    ensures KeyPos(d, key, 0) <= k
  {
  }

  lemma SameTurn(s: Sys, t: Sys, p: int, q: int)
    requires Turn(s, p, q) && t.ready == s.ready && t.proc[q].prio == s.proc[q].prio
    ensures Turn(t, p, q)
  {
    var k :| TurnAt(s, p, q, k);
    assert TurnAt(t, p, q, k);
  }

  lemma TurnPid(s: Sys, p: int, q: int)
    requires Turn(s, p, q)
    ensures IsPid(q)
  {
  }

  lemma DropTurn(s: Sys, x: int, p: int, q: int)
    requires Turn(s, p, q) && x != p && Single(s.ready)
    ensures Turn(Unready(s, x), p, q)
  {
    var t := Unready(s, x);
    var n := DropAt(s.ready, x);
    var k :| TurnAt(s, p, q, k);
    assert TurnAt(t, p, q, if k < n then k else k - 1);
  }

  lemma DispatchTurn(s: Sys, p: int, q: int)
    requires Turn(s, p, q) && IsPid(p) && p != q && St(Dispatch(s), p) == PRREADY
    ensures Turn(Dispatch(s), p, q) && (Dispatch(s).cur == q ==> s.cur == q)
  {
    var k :| TurnAt(s, p, q, k);
    if IsPid(s.ready[|s.ready| - 1].pid) {
      assert k < |s.ready| - 1;
      assert TurnAt(Dispatch(s), p, q, k);
    }
  }

  lemma ReschedTurn(s: Sys, p: int, q: int)
    requires IsPid(s.cur) && Turn(s, p, q) && IsPid(p) && p != q && St(Resched(s), p) == PRREADY
    ensures Turn(Resched(s), p, q) && (Resched(s).cur == q ==> s.cur == q)
  {
    hide Turn, InsertKey, Dispatch;
    if !(s.proc[s.cur].state == PRCURR && LastKey(s.ready) < s.proc[s.cur].prio) {
      var t := if s.proc[s.cur].state == PRCURR then MakeReady(s, s.cur) else s;
      if s.proc[s.cur].state == PRCURR { InsertTurn(s, s.cur, p, q); }
      DispatchTurn(t, p, q);
    }
  }

  // ------------------------------------------------------------------------------- loops

  lemma ReadyTurn(s: Sys, x: int, p: int, q: int)
    requires Turn(s, p, q) && p != q
    ensures Turn(Ready(s, x), p, q)
  {
    hide Turn, MakeReady;
    if !BadPid(x) { InsertTurn(s, x, p, q); }
  }

  lemma SignalOneTurn(s: Sys, m: int, p: int, q: int)
    requires !BadSem(m) && Turn(s, p, q) && p != q
    ensures Turn(SignalOne(s, m), p, q)
  {
    hide Turn, Ready;
    var x := s.sem[m];
    var s1 := Count(s, m, x.cnt + 1);
    SameTurn(s, s1, p, q);
    if x.cnt < 0 && x.waiters != [] {
      var s2 := SetSem(s1, m, s1.sem[m].(waiters := x.waiters[1..]));
      SameTurn(s, s2, p, q);
      ReadyTurn(s2, x.waiters[0], p, q);
    }
  }

  lemma {:induction false} SignalManyTurn(s: Sys, m: int, n: nat, p: int, q: int)
    requires !BadSem(m) && Turn(s, p, q) && p != q
    ensures Turn(SignalMany(s, m, n), p, q)
  {
    hide Turn, SignalOne;
    if n > 0 {
      SignalManyTurn(s, m, n - 1, p, q);
      SignalOneTurn(SignalMany(s, m, n - 1), m, p, q);
    }
  }

  lemma {:induction false} ReleaseAllTurn(s: Sys, m: int, ret: Option<int>, p: int, q: int)
    requires !BadSem(m) && Turn(s, p, q) && p != q
    ensures Turn(ReleaseAll(s, m, ret), p, q)
    decreases |s.sem[m].waiters|
  {
    hide Turn, Ready;
    var w := s.sem[m].waiters;
    if w != [] {
      var s1 := if ret.Some? && IsPid(w[0]) then s.(proc := s.proc[w[0] := s.proc[w[0]].(waitret := ret.value)]) else s;
      var s2 := SetSem(s1, m, s1.sem[m].(waiters := w[1..]));
      TurnPid(s, p, q);
      SameTurn(s, s2, p, q);
      ReadyTurn(s2, w[0], p, q);
      ReleaseTurns(s1, m);
      ReleaseAllTurn(Release(s1, m), m, ret, p, q);
    }
  }

  lemma ReleaseTurns(s: Sys, m: int)
    requires !BadSem(m) && s.sem[m].waiters != []
    ensures Release(s, m).sem[m].waiters == s.sem[m].waiters[1..]
  {
    hide InsertKey;
  }

  lemma {:induction false} WakeAllTurn(s: Sys, p: int, q: int)
    requires Turn(s, p, q) && p != q
    ensures Turn(WakeAll(s), p, q)
    decreases |s.clock|
  {
    hide Turn;
    if s.clock != [] && s.clock[0].key <= 0 {
      var s1 := s.(clock := s.clock[1..]);
      SameTurn(s, s1, p, q);
      ReadyTurn(s1, s.clock[0].pid, p, q);
      hide Ready;
      WakeAllTurn(Ready(s1, s.clock[0].pid), p, q);
    }
  }

  // ---------------------------------------------------------------------------- one step

  /** The step leaves it to the two themselves: chprio names neither, p is not taken off the
      ready list by suspend or kill, and q is not made anew. */
  predicate LeavesTurn(st: Step, p: int, q: int) {
    match st
    case Ranks(x, _) => x != p && x != q
    case Suspends(x) => x != p
    case Kills(x) => x != p
    case Makes(x, _) => x != q
    case _ => true
  }

  lemma OneReady(s: Sys)
    requires Inv(s)
    ensures Single(s.ready)
  {
  }

  /** Semaphore calls. */
  lemma SemTurn(s: Sys, st: Step, p: int, q: int)
    requires Legal(s, st) && IsPid(s.cur) && IsPid(p) && p != q && Turn(s, p, q) && St(Apply(s, st), p) == PRREADY
    requires st.Waits? || st.Signals? || st.SignalsMany? || st.Resets? || st.Deletes? || st.MakesSem?
    ensures Turn(Apply(s, st), p, q) && (Apply(s, st).cur == q ==> s.cur == q)
  {
    hide Turn, Resched, SignalOne, SignalMany, ReleaseAll;
    TurnPid(s, p, q);
    if BadSem(st.m) || !s.sem[st.m].used {
      SameTurn(s, Apply(s, st), p, q);
    } else {
      match st
      case Waits(m) =>
        SameTurn(s, Count(s, m, s.sem[m].cnt - 1), p, q);
        SameTurn(s, Blocking(s, m), p, q);
        if s.sem[m].cnt <= 0 { ReschedTurn(Blocking(s, m), p, q); }
      case Signals(m) =>
        SignalOneTurn(s, m, p, q);
        if s.sem[m].cnt < 0 { ReschedTurn(SignalOne(s, m), p, q); }
      case SignalsMany(m, n) =>
        if n > 0 {
          SignalManyTurn(s, m, n, p, q);
          ReschedTurn(SignalMany(s, m, n), p, q);
        }
      case Resets(m, n) =>
        if n >= 0 {
          ReleaseAllTurn(s, m, None, p, q);
          var t := Count(ReleaseAll(s, m, None), m, n);
          SameTurn(ReleaseAll(s, m, None), t, p, q);
          ReschedTurn(t, p, q);
        }
      case Deletes(m) =>
        var t := SetSem(s, m, s.sem[m].(used := false));
        SameTurn(s, t, p, q);
        ReleaseAllTurn(t, m, Some(DELETED), p, q);
        if s.sem[m].waiters != [] { ReschedTurn(ReleaseAll(t, m, Some(DELETED)), p, q); }
      case _ =>
    }
  }

  /** Calls that name a process. */
  lemma NamedTurn(s: Sys, st: Step, p: int, q: int)
    requires Inv(s) && Legal(s, st) && IsPid(s.cur) && IsPid(p) && p != q && Turn(s, p, q) && LeavesTurn(st, p, q)
    requires St(Apply(s, st), p) == PRREADY
    requires st.Suspends? || st.Resumes? || st.Ranks? || st.Makes? || st.Kills? || st.Sends?
    ensures Turn(Apply(s, st), p, q) && (Apply(s, st).cur == q ==> s.cur == q)
  {
    hide Turn, Resched, Inv, Drop, Cancel, Unsleep, InsertKey;
    TurnPid(s, p, q);
    OneReady(s);
    var x := st.p;
    if BadPid(x) {
      SameTurn(s, Apply(s, st), p, q);
    } else {
      match st
      case Suspends(_) =>
        var t := SetState(s, x, PRSUSP);
        SameTurn(s, t, p, q);
        if St(s, x) == PRREADY { DropTurn(t, x, p, q); } else if St(s, x) == PRCURR { ReschedTurn(t, p, q); }
      case Resumes(_) =>
        if St(s, x) == PRSUSP {
          ReadyTurn(s, x, p, q);
          ReschedTurn(Ready(s, x), p, q);
        }
      case Ranks(_, n) =>
        var t := s.(proc := s.proc[x := s.proc[x].(prio := n)]);
        SameTurn(s, t, p, q);
        if n > 0 && St(s, x) == PRREADY {
          DropTurn(t, x, p, q);
          InsertTurn(Unready(t, x), x, p, q);
          ReschedTurn(MakeReady(Unready(t, x), x), p, q);
        } else if n > 0 && St(s, x) == PRCURR {
          ReschedTurn(t, p, q);
        }
      case Makes(_, n) => SameTurn(s, Apply(s, st), p, q);
      case Kills(_) => DieTurn(s, x, p, q);
      case Sends(_, w) => SendTurn(s, x, w, p, q);
    }
  }

  lemma DieTurn(s: Sys, x: int, p: int, q: int)
    requires Single(s.ready) && IsPid(s.cur) && IsPid(p) && p != q && x != p && Turn(s, p, q) && St(Die(s, x), p) == PRREADY
    ensures Turn(Die(s, x), p, q) && (Die(s, x).cur == q ==> s.cur == q)
  {
    hide Turn, Resched, Drop, Cancel, Unsleep;
    TurnPid(s, p, q);
    if BadPid(x) || St(s, x) == PRFREE {
    } else if St(s, x) == PRCURR {
      SameTurn(s, SetState(s, x, PRFREE), p, q);
      ReschedTurn(SetState(s, x, PRFREE), p, q);
    } else if St(s, x) == PRREADY {
      DropTurn(s, x, p, q);
      SameTurn(Unready(s, x), Die(s, x), p, q);
    } else {
      SameTurn(s, Die(s, x), p, q);
    }
  }

  lemma SendTurn(s: Sys, x: int, w: int, p: int, q: int)
    requires IsPid(s.cur) && IsPid(p) && p != q && Turn(s, p, q) && St(Send(s, x, w), p) == PRREADY
    ensures Turn(Send(s, x, w), p, q) && (Send(s, x, w).cur == q ==> s.cur == q)
  {
    hide Turn, Resched, Unsleep, InsertKey;
    TurnPid(s, p, q);
    if !(BadPid(x) || St(s, x) == PRFREE || s.proc[x].hasmsg) {
      var t := s.(proc := s.proc[x := s.proc[x].(hasmsg := true, msg := w)]);
      SameTurn(s, t, p, q);
      var u := if St(s, x) == PRTRECV then Unqueue(t, x) else t;
      SameTurn(t, u, p, q);
      if St(s, x) == PRRECV || St(s, x) == PRTRECV {
        ReadyTurn(u, x, p, q);
        ReschedTurn(Ready(u, x), p, q);
      }
    }
  }

  lemma WakeupTurn(s: Sys, p: int, q: int)
    requires IsPid(s.cur) && IsPid(p) && p != q && Turn(s, p, q) && St(Wakeup(s), p) == PRREADY
    ensures Turn(Wakeup(s), p, q) && (Wakeup(s).cur == q ==> s.cur == q)
  {
    hide Turn, Resched, WakeAll;
    WakeAllTurn(s, p, q);
    var t := SetTop(WakeAll(s));
    SameTurn(WakeAll(s), t, p, q);
    ReschedTurn(t, p, q);
  }

  /** Calls by which the running process waits, and the clock. */
  lemma TimeTurn(s: Sys, st: Step, p: int, q: int)
    requires Legal(s, st) && IsPid(s.cur) && IsPid(p) && p != q && Turn(s, p, q) && St(Apply(s, st), p) == PRREADY
    requires st.Receives? || st.Collects? || st.Sleeps? || st.TimedReceives? || st.EndsInterrupt? || st.StopsClock? || st.EndsStart?
    ensures Turn(Apply(s, st), p, q) && (Apply(s, st).cur == q ==> s.cur == q)
  {
    hide Turn, Resched, Insertd;
    TurnPid(s, p, q);
    SameTurn(s, Collect(s), p, q);
    match st
    case Receives =>
      SameTurn(s, SetState(s, s.cur, PRRECV), p, q);
      if !s.proc[s.cur].hasmsg { ReschedTurn(SetState(s, s.cur, PRRECV), p, q); }
    case Sleeps(n, u) =>
      SameTurn(s, Doze(s, n * u, PRSLEEP), p, q);
      if n == 0 { ReschedTurn(s, p, q); } else if n > 0 { ReschedTurn(Doze(s, n * u, PRSLEEP), p, q); }
    case TimedReceives(n) =>
      SameTurn(s, Doze(s, n * 1000, PRTRECV), p, q);
      if n >= 0 && !s.proc[s.cur].hasmsg { ReschedTurn(Doze(s, n * 1000, PRTRECV), p, q); }
    case EndsInterrupt =>
      var t := s.(preempt := s.preempt - 1);
      SameTurn(s, t, p, q);
      if t.preempt <= 0 { ReschedTurn(t, p, q); }
    case StopsClock => SameTurn(s, Stopclk(s), p, q);
    case EndsStart => if s.preempt <= 0 { ReschedTurn(s, p, q); }
    case _ =>
  }

  lemma ClockTurn(s: Sys, st: Step, p: int, q: int)
    requires Legal(s, st) && IsPid(s.cur) && IsPid(p) && p != q && Turn(s, p, q) && St(Apply(s, st), p) == PRREADY
    requires st.Interrupt? || st.StartsClock?
    ensures Turn(Apply(s, st), p, q) && (Apply(s, st).cur == q ==> s.cur == q)
  {
    hide Turn, Resched, Wakeup, Advance;
    TurnPid(s, p, q);
    if st.Interrupt? {
      var t := if s.slnempty then TakeTick(s) else s;
      SameTurn(s, t, p, q);
      if t != Clkint(s) { WakeupTurn(t, p, q); }
    } else if s.defclk == 1 {
      var t := Charge(s);
      SameTurn(s, t, p, q);
      var u := t.(clock := Advance(t.clock, s.clkdiff));
      SameTurn(t, u, p, q);
      if t.slnempty { WakeupTurn(u, p, q); }
    } else {
      SameTurn(s, Strtclk(s), p, q);
    }
  }

  /** One step: if p, whose turn comes first, is still ready, then its turn still comes first
      and q has not been given the processor. */
  lemma StepTurn(s: Sys, st: Step, p: int, q: int)
    requires Inv(s) && Legal(s, st) && IsPid(s.cur) && IsPid(p) && p != q && Turn(s, p, q) && LeavesTurn(st, p, q)
    requires St(Apply(s, st), p) == PRREADY
    ensures Turn(Apply(s, st), p, q) && (Apply(s, st).cur == q ==> s.cur == q)
  {
    hide Inv, Turn, Apply, Legal;
    match st
    case Waits(_) => SemTurn(s, st, p, q);
    case Signals(_) => SemTurn(s, st, p, q);
    case SignalsMany(_, _) => SemTurn(s, st, p, q);
    case Resets(_, _) => SemTurn(s, st, p, q);
    case Deletes(_) => SemTurn(s, st, p, q);
    case MakesSem(_, _) => SemTurn(s, st, p, q);
    case Suspends(_) => NamedTurn(s, st, p, q);
    case Resumes(_) => NamedTurn(s, st, p, q);
    case Ranks(_, _) => NamedTurn(s, st, p, q);
    case Makes(_, _) => NamedTurn(s, st, p, q);
    case Kills(_) => NamedTurn(s, st, p, q);
    case Sends(_, _) => NamedTurn(s, st, p, q);
    case Interrupt => ClockTurn(s, st, p, q);
    case StartsClock => ClockTurn(s, st, p, q);
    case _ => TimeTurn(s, st, p, q);
  }

  // ------------------------------------------------------------------------- whole runs

  /** In any run, a process whose turn comes later does not get the processor while the one
      whose turn comes first stays ready, unless chprio names one of them. */
  lemma {:induction false} TurnsKept(ss: seq<Sys>, sts: seq<Step>, p: int, q: int, i: nat, k: nat)
    requires IsRun(ss, sts) && Inv(ss[0]) && i <= k < |ss| && IsPid(p) && p != q && Turn(ss[i], p, q) && ss[i].cur != q
    requires forall j :: i <= j <= k ==> St(ss[j], p) == PRREADY
    requires forall j :: i <= j < k ==> LeavesTurn(sts[j], p, q)
    ensures Turn(ss[k], p, q) && ss[k].cur != q
  {
    hide Inv, Turn, Apply, Legal, LeavesTurn;
    if k > i {
      TurnsKept(ss, sts, p, q, i, k - 1);
      RunFrom(ss, sts, k - 1);
      assert ss[k] == Apply(ss[k - 1], sts[k - 1]);
      StepTurn(ss[k - 1], sts[k - 1], p, q);
    }
  }

  lemma {:induction false} RunFrom(ss: seq<Sys>, sts: seq<Step>, k: nat)
    requires IsRun(ss, sts) && Inv(ss[0]) && k < |ss|
    ensures Inv(ss[k])
  {
    hide Inv, Apply, Legal;
    if k > 0 {
      RunFrom(ss, sts, k - 1);
      StepKeeps(ss[k - 1], sts[k - 1]);
    }
  }

  /** While q runs, the turn of every ready process that q does not outrank comes before q's. */
  lemma RunnerIsLast(s: Sys, p: int, q: int)
    requires Inv(s) && s.cur == q && IsPid(p) && St(s, p) == PRREADY && s.proc[p].prio >= s.proc[q].prio
    ensures IsPid(q) && p != q && Turn(s, p, q)
  {
    assert IsPid(q) && St(s, q) == PRCURR;
    assert AtHome(s, p) && AtHome(s, q);
    var k :| 0 <= k < |s.ready| && s.ready[k].pid == p;
    assert TurnAt(s, p, q, k);
  }

  /** Of two ready processes, the one of higher priority comes first, and of equals the one
      that became ready first. */
  lemma FirstOfTwo(s: Sys, p: int, q: int)
    requires Inv(s) && IsPid(p) && IsPid(q) && p != q && St(s, p) == PRREADY && St(s, q) == PRREADY
    requires s.proc[p].prio > s.proc[q].prio || (s.proc[p].prio == s.proc[q].prio && s.stamp[p] < s.stamp[q])
    ensures Turn(s, p, q) && s.cur != q
  {
    assert AtHome(s, p) && AtHome(s, q);
    var k :| 0 <= k < |s.ready| && s.ready[k].pid == p;
    assert TurnAt(s, p, q, k);
  }

  /** Round robin. In any run, once q has given up the processor it does not get it back while
      a process p stays ready that was ready then and that q does not outrank, unless chprio
      names one of them or q is made anew. */
  lemma RoundRobin(ss: seq<Sys>, sts: seq<Step>, p: int, q: int, i: nat, k: nat)
    requires IsRun(ss, sts) && Inv(ss[0]) && i < k < |ss| && IsPid(p) && IsPid(q)
    requires ss[i].cur == q && ss[i].proc[p].prio >= ss[i].proc[q].prio && ss[i + 1].cur != q
    requires forall j :: i <= j <= k ==> St(ss[j], p) == PRREADY
    requires forall j :: i <= j < k ==> LeavesTurn(sts[j], p, q)
    ensures ss[k].cur != q
  {
    hide Inv, Turn, Apply, Legal, LeavesTurn;
    RunFrom(ss, sts, i);
    RunnerIsLast(ss[i], p, q);
    assert ss[i + 1] == Apply(ss[i], sts[i]);
    StepTurn(ss[i], sts[i], p, q);
    TurnsKept(ss, sts, p, q, i + 1, k);
  }

  /** And of two ready processes the one that comes first gets the processor first. */
  lemma InTurn(ss: seq<Sys>, sts: seq<Step>, p: int, q: int, i: nat, k: nat)
    requires IsRun(ss, sts) && Inv(ss[0]) && i <= k < |ss| && IsPid(p) && IsPid(q) && p != q && St(ss[i], q) == PRREADY
    requires ss[i].proc[p].prio > ss[i].proc[q].prio || (ss[i].proc[p].prio == ss[i].proc[q].prio && ss[i].stamp[p] < ss[i].stamp[q])
    requires forall j :: i <= j <= k ==> St(ss[j], p) == PRREADY
    requires forall j :: i <= j < k ==> LeavesTurn(sts[j], p, q)
    ensures ss[k].cur != q
  {
    hide Inv, Turn, Apply, Legal, LeavesTurn;
    RunFrom(ss, sts, i);
    FirstOfTwo(ss[i], p, q);
    TurnsKept(ss, sts, p, q, i, k);
  }

  // ------------------------------------------------------------------------- time slices

  /** The clock interrupts that have run to their end. */
  function Ticks(sts: seq<Step>): nat {
    if sts == [] then 0 else Ticks(sts[..|sts| - 1]) + (if sts[|sts| - 1].EndsInterrupt? then 1 else 0)
  }

  /** A tick ends the slice that it uses up if an equal is ready. */
  lemma TickTakes(s: Sys, st: Step, p: int)
    requires Inv(s) && Legal(s, st) && IsPid(s.cur) && IsPid(p)
    requires
      var s2 := Apply(s, st);
      s2.cur == s.cur && St(s2, p) == PRREADY && s2.proc[p].prio >= s2.proc[s.cur].prio
    ensures Apply(s, st).preempt <= s.preempt - (if st.EndsInterrupt? then 1 else 0)
    ensures st.EndsInterrupt? ==> s.preempt >= 2
  {
    hide Inv, Apply;
    SchedEffects.StepDoes(s, st);
    var s2 := Apply(s, st);
    assert s2.proc[p].state == PRREADY;
  }

  /** While q runs and a process that it does not outrank is ready, fewer ticks pass than are
      left of q's time slice. */
  lemma {:induction false} SliceEnds(ss: seq<Sys>, sts: seq<Step>, p: int, q: int, i: nat, k: nat)
    requires IsRun(ss, sts) && Inv(ss[0]) && i <= k < |ss| && IsPid(p) && IsPid(q)
    requires forall j :: i <= j <= k ==> ss[j].cur == q && St(ss[j], p) == PRREADY && ss[j].proc[p].prio >= ss[j].proc[q].prio
    ensures ss[k].preempt <= ss[i].preempt - Ticks(sts[i..k])
    ensures Ticks(sts[i..k]) > 0 ==> Ticks(sts[i..k]) < ss[i].preempt
  {
    hide Inv, Apply, Legal;
    if k > i {
      SliceEnds(ss, sts, p, q, i, k - 1);
      assert sts[i..k][..k - i - 1] == sts[i..k - 1] && sts[i..k][k - i - 1] == sts[k - 1];
      RunFrom(ss, sts, k - 1);
      assert ss[k] == Apply(ss[k - 1], sts[k - 1]);
      TickTakes(ss[k - 1], sts[k - 1], p);
    } else {
      assert sts[i..k] == [];
    }
  }

  /** A process that is given the processor keeps it for fewer than ten ticks while one that it
      does not outrank is ready. */
  lemma TenTicks(ss: seq<Sys>, sts: seq<Step>, p: int, q: int, i: nat, k: nat)
    requires IsRun(ss, sts) && Inv(ss[0]) && 0 < i <= k < |ss| && IsPid(p) && IsPid(q) && ss[i - 1].cur != q
    requires forall j :: i <= j <= k ==> ss[j].cur == q && St(ss[j], p) == PRREADY && ss[j].proc[p].prio >= ss[j].proc[q].prio
    ensures ss[i].preempt == 10 && Ticks(sts[i..k]) < 10
  {
    hide Inv, Apply, Legal;
    RunFrom(ss, sts, i - 1);
    assert ss[i] == Apply(ss[i - 1], sts[i - 1]);
    SchedEffects.StepDoes(ss[i - 1], sts[i - 1]);
    SliceEnds(ss, sts, p, q, i, k);
  }
}
