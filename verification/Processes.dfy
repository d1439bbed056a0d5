/** The process table, the semaphore table and the queues as the code updates them: every
    system call proved equal to the function on states that the invariants are about. */
module Processes {
  import opened Machine
  import opened DeltaList
  import opened QLists
  import opened QTable
  import opened Sched
  import opened SchedInv
  import opened SchedOps
  import opened SchedCalls
  import opened SchedRun

  const CLOCKQ: int := 0
  const READYQ: int := 51

  /** The list of semaphore m: the clock queue is made first, the ready list last. */
  function SemQ(m: int): int { m + 1 }

  datatype SEntry = SEntry(used: bool, cnt: int)

  /** The abstract state behind the tables. */
  ghost function View(proc: Procs, sem: seq<SEntry>, ls: Lists, keys: seq<int>, cur: int, slnempty: bool, sltop: int,
                      preempt: int, defclk: int, clkdiff: int, stamp: Stamps, now: int): Sys
    requires |sem| == NSEM && |ls| == NLISTS
  {
    Sys(proc, seq(NSEM, m requires 0 <= m < NSEM => Sem(sem[m].used, sem[m].cnt, ls[SemQ(m)])),
        Keyed(keys, ls[READYQ]), Keyed(keys, ls[CLOCKQ]), cur, slnempty, sltop, preempt, defclk, clkdiff, stamp, now)
  }

  /** Keys that agree on a list give it the same entries. */
  lemma KeyedSame(keys: seq<int>, keys2: seq<int>, ms: seq<int>)
    requires |keys| == |keys2| && forall k :: 0 <= k < |ms| && 0 <= ms[k] < |keys| ==> keys[ms[k]] == keys2[ms[k]]
    ensures Keyed(keys, ms) == Keyed(keys2, ms)
  {
  }

  /** A process on no list in the view is on none in the table. */
  lemma NowhereUnlisted(s: Sys, ls: Lists, keys: seq<int>, p: int)
    requires |ls| == NLISTS && Nowhere(s, p) && s.ready == Keyed(keys, ls[READYQ]) && s.clock == Keyed(keys, ls[CLOCKQ])
    requires forall m :: 0 <= m < NSEM ==> s.sem[m].waiters == ls[SemQ(m)]
    ensures !QLists.Listed(ls, p)
  {
    forall l, k | 0 <= l < |ls| && 0 <= k < |ls[l]|
      ensures ls[l][k] != p
    {
      if l == READYQ {
        assert s.ready[k].pid == ls[l][k];
      } else if l == CLOCKQ {
        assert s.clock[k].pid == ls[l][k];
      } else {
        assert s.sem[l - 1].waiters == ls[SemQ(l - 1)];
      }
    }
  }

  class Kernel {
    const proc: array<PEntry>
    const sem: array<SEntry>
    const q: Table
    var cur: int
    var slnempty: bool
    var sltop: int
    var preempt: int
    var defclk: int
    var clkdiff: int
    ghost var stamp: Stamps
    ghost var now: int

    ghost predicate Valid()
      reads this, proc, sem, q, q.qkey, q.qnext, q.qprev
    {
      proc.Length == NPROC && sem.Length == NSEM && q.Valid() && |q.lists| == NLISTS
    }

    ghost function S(): Sys
      reads this, proc, sem, q, q.qkey, q.qnext, q.qprev
      requires Valid()
    {
      View(proc[..], sem[..], q.lists, q.qkey[..], cur, slnempty, sltop, preempt, defclk, clkdiff, stamp, now)
    }

    /** The part of `sysinit` that concerns processes: the sleep queue, a list for each
        semaphore and the ready list are made, and the null process runs. */
    constructor ()
      ensures Valid() && S() == Start()
    {
      proc := new PEntry[NPROC](p => PEntry(if p == 0 then PRCURR else PRFREE, 0, 0, false, 0, 0));
      sem := new SEntry[NSEM](_ => SEntry(false, 0));
      q := new Table();
      cur, slnempty, sltop, preempt, defclk, clkdiff := 0, false, 0, QUANTUM, 0, 0;
      stamp, now := seq(NPROC, _ => -1), 0;
      new;
      hide Table.Valid;
      q.MakeLists();
      assert S().proc == Start().proc;
      assert S().sem == Start().sem;
    }

    // -------------------------------------------------------------------- single changes

    method SetProc(p: int, pr: PEntry)
      requires Valid() && IsPid(p)
      modifies proc
      ensures Valid() && S() == old(S()).(proc := old(S()).proc[p := pr])
    {
      proc[p] := pr;
    }

    method SetEntry(m: int, x: SEntry)
      requires Valid() && !BadSem(m)
      modifies sem
      ensures Valid() && S() == SetSem(old(S()), m, Sem(x.used, x.cnt, old(S()).sem[m].waiters))
    {
      ghost var s := S();
      sem[m] := x;
      assert S().sem == s.sem[m := Sem(x.used, x.cnt, s.sem[m].waiters)];
    }

    /** Into the ready list, by priority. */
    method PutReady(p: int)
      requires Valid() && IsPid(p) && Nowhere(S(), p) && proc[p].prio <= MAXINT
      modifies this`stamp, this`now, q`lists, q.qkey, q.qnext, q.qprev
      ensures Valid()
      ensures S() == old(S()).(ready := InsertKey(old(S()).ready, p, old(S()).proc[p].prio), stamp := old(S()).stamp[p := old(S()).now], now := old(S()).now + 1)
    {
      ghost var s, ls, keys := S(), q.lists, q.qkey[..];
      NowhereUnlisted(s, ls, keys, p);
      q.Insert(p, Head(READYQ), proc[p].prio, READYQ);
      stamp := stamp[p := now];
      now := now + 1;
      KeyedSame(keys, q.qkey[..], ls[CLOCKQ]);
      assert S().sem == s.sem;
    }

    /** The tail of the ready list is taken off. */
    method TakeLast() returns (p: int)
      requires Valid() && S().ready != []
      modifies q`lists, q.qnext, q.qprev
      ensures Valid() && p == old(S()).ready[|old(S()).ready| - 1].pid
      ensures S() == old(S()).(ready := old(S()).ready[..|old(S()).ready| - 1])
    {
      ghost var s, ms, n := S(), q.lists[READYQ], |S().ready| - 1;
      p := q.Getlast(Tail(READYQ), READYQ);
      assert S().ready == s.ready[..n];
      assert S().sem == s.sem;
    }

    /** `dequeue` of a ready process. */
    method DropReady(p: int)
      requires Valid() && Single(S().ready) && Has(S().ready, p)
      modifies q`lists, q.qnext, q.qprev
      ensures Valid() && S() == Unready(old(S()), p)
    {
      ghost var s := S();
      ghost var k := DropAt(s.ready, p);
      DropsSome(s.ready, p);
      KeyedTake(q.qkey[..], q.lists[READYQ], k);
      q.Dequeue(p, READYQ, k);
      assert S().sem == s.sem;
    }

    /** `enqueue` on the list of a semaphore. */
    method PutWaiter(p: int, m: int)
      requires Valid() && IsPid(p) && Nowhere(S(), p) && !BadSem(m)
      modifies q`lists, q.qnext, q.qprev
      ensures Valid() && S() == SetSem(old(S()), m, old(S()).sem[m].(waiters := old(S()).sem[m].waiters + [p]))
    {
      ghost var s := S();
      NowhereUnlisted(s, q.lists, q.qkey[..], p);
      q.Enqueue(p, Tail(SemQ(m)), SemQ(m));
      assert S().sem == s.sem[m := s.sem[m].(waiters := s.sem[m].waiters + [p])];
    }

    /** `getfirst` on the list of a semaphore. */
    method TakeWaiter(m: int) returns (p: int)
      requires Valid() && !BadSem(m)
      modifies q`lists, q.qnext, q.qprev
      ensures Valid()
      ensures var w := old(S()).sem[m].waiters;
        if w == [] then p == EMPTY && S() == old(S())
        else p == w[0] && S() == SetSem(old(S()), m, old(S()).sem[m].(waiters := w[1..]))
    {
      ghost var s := S();
      p := q.Getfirst(Head(SemQ(m)), SemQ(m));
      assert s.sem[m].waiters != [] ==> S().sem == s.sem[m := s.sem[m].(waiters := s.sem[m].waiters[1..])];
      assert s.sem[m].waiters == [] ==> S().sem == s.sem;
    }

    /** `dequeue` of a waiting process. */
    method CancelWaiter(p: int, m: int)
      requires Valid() && !BadSem(m) && p in S().sem[m].waiters
      modifies q`lists, q.qnext, q.qprev
      ensures Valid() && S() == SetSem(old(S()), m, old(S()).sem[m].(waiters := Cancel(old(S()).sem[m].waiters, p)))
    {
      ghost var s := S();
      ghost var k := CancelAt(s.sem[m].waiters, p);
      q.Dequeue(p, SemQ(m), k);
      assert S().sem == s.sem[m := s.sem[m].(waiters := Cancel(s.sem[m].waiters, p))];
    }

    /** Into the sleep queue. */
    method PutClock(p: int, n: int)
      requires Valid() && IsPid(p) && Nowhere(S(), p) && Natural(S().clock) && n <= MAXINT
      modifies q`lists, q.qkey, q.qnext, q.qprev
      ensures Valid() && S() == old(S()).(clock := Insertd(old(S()).clock, p, n))
    {
      ghost var s, ls, keys := S(), q.lists, q.qkey[..];
      NowhereUnlisted(s, ls, keys, p);
      q.InsertDelta(p, Head(CLOCKQ), n, CLOCKQ);
      OtherList(ls, CLOCKQ, READYQ);
      KeyedSame(keys, q.qkey[..], ls[READYQ]);
      assert S().sem == s.sem;
    }

    /** The head of the sleep queue is taken off. */
    method TakeClock() returns (p: int)
      requires Valid() && S().clock != []
      modifies q`lists, q.qnext, q.qprev
      ensures Valid() && p == old(S()).clock[0].pid && S() == old(S()).(clock := old(S()).clock[1..])
    {
      ghost var s := S();
      p := q.Getfirst(Head(CLOCKQ), CLOCKQ);
      assert S().clock == s.clock[1..];
      assert S().sem == s.sem;
    }

    /** Out of the sleep queue, the next sleeper getting what is left. */
    method DropClock(p: int)
      requires Valid() && Has(S().clock, p)
      modifies q`lists, q.qkey, q.qnext, q.qprev
      ensures Valid() && S() == old(S()).(clock := Unsleep(old(S()).clock, p))
    {
      ghost var s, ls, keys := S(), q.lists, q.qkey[..];
      ghost var k :| 0 <= k < |s.clock| && s.clock[k].pid == p;
      q.Withdraw(p, CLOCKQ, k);
      OtherList(ls, CLOCKQ, READYQ);
      KeyedSame(keys, q.qkey[..], ls[READYQ]);
      assert S().sem == s.sem;
    }

    /** Another key for the entry at position k of the sleep queue. */
    method SetKey(p: int, key: int, ghost k: nat)
      requires Valid() && k < |S().clock| && S().clock[k].pid == p
      modifies q.qkey
      ensures Valid() && S() == old(S()).(clock := old(S()).clock[k := Entry(p, key)])
    {
      ghost var ls, keys := q.lists, q.qkey[..];
      OtherList(ls, CLOCKQ, READYQ);
      NodeBounds(ls, CLOCKQ, k);
      KeyedSet(keys, ls[CLOCKQ], k, key);
      q.qkey[p] := key;
      KeyedSame(keys, q.qkey[..], ls[READYQ]);
    }

    // --------------------------------------------------------------------- ready, resched

    /** The state and the list of `ready`. */
    method MakeReady(p: int)
      requires Valid() && IsPid(p) && Nowhere(S(), p) && S().proc[p].prio <= MAXINT
      modifies this`stamp, this`now, proc, q`lists, q.qkey, q.qnext, q.qprev
      ensures Valid() && S() == Sched.MakeReady(old(S()), p)
    {
      SetProc(p, proc[p].(state := PRREADY));
      PutReady(p);
    }

    /** `lastkey` of the ready list. */
    method LastReadyKey() returns (key: int)
      requires Valid()
      ensures key == LastKey(S().ready)
    {
      ghost var n := |q.lists[READYQ]|;
      q.Follow(READYQ, n - 1);
      NodeBounds(q.lists, READYQ, n - 1);
      key := q.qkey[q.qprev[Tail(READYQ)]];
    }

    /** `resched`. */
    method Resched(ghost r: bool)
      requires Valid() && Base(S()) && CurrOk(S(), r)
      modifies this`cur, this`preempt, this`stamp, this`now, proc, q`lists, q.qkey, q.qnext, q.qprev
      ensures Valid() && IsPid(old(S()).cur) && S() == Sched.Resched(old(S()))
    {
      hide Table.Valid, Base, Keyed, InsertKey;
      ghost var s := S();
      ReschedFacts(s, r);
      if proc[cur].state == PRCURR {
        var key := LastReadyKey();
        if key < proc[cur].prio {
          return;
        }
        MakeReady(cur);
      }
      var p := TakeLast();
      cur := p;
      SetProc(p, proc[p].(state := PRCURR));
      preempt := QUANTUM;
    }

    // ------------------------------------------------------------------------- semaphores

    /** `wait`. */
    method Wait(m: int) returns (ok: bool)
      requires Valid() && Inv(S()) && cur != 0
      modifies this`cur, this`preempt, this`stamp, this`now, proc, sem, q`lists, q.qkey, q.qnext, q.qprev
      ensures Valid() && IsPid(old(S()).cur) && S() == Sched.Wait(old(S()), m)
      ensures ok <==> !BadSem(m) && old(S()).sem[m].used
    {
      hide Table.Valid, Inv, Keyed, Sched.Resched, Base;
      ghost var s := S();
      CurIsPid(s);
      if BadSem(m) || !sem[m].used {
        return false;
      }
      var cnt := sem[m].cnt - 1;
      SetEntry(m, sem[m].(cnt := cnt));
      if cnt < 0 {
        BlockBase(s, m);
        RunnerNowhere(s);
        SetProc(cur, proc[cur].(state := PRWAIT, sem := m, waitret := OK));
        PutWaiter(cur, m);
        assert S().sem == Blocking(s, m).sem;
        Resched(false);
      }
      return true;
    }

    /** The body of `signal` and of the loop of `signaln`. */
    method SignalOne(m: int) returns (woke: bool)
      requires Valid() && Base(S()) && CurrOk(S(), true) && Counts(S()) && !BadSem(m) && S().sem[m].used
      modifies this`stamp, this`now, proc, sem, q`lists, q.qkey, q.qnext, q.qprev
      ensures Valid() && S() == Sched.SignalOne(old(S()), m) && (woke <==> old(S()).sem[m].cnt < 0)
    {
      hide Table.Valid, Base, Keyed, Counts;
      ghost var s := S();
      SignalOneKeeps(s, m);
      SetEntry(m, sem[m].(cnt := sem[m].cnt + 1));
      if sem[m].cnt - 1 < 0 {
        BaseCount(s, m, s.sem[m].(cnt := s.sem[m].cnt + 1));
        SameRunner(s, S());
        ReleaseFirst(m);
        return true;
      }
      return false;
    }

    /** `ready(getfirst(...))`. */
    method ReleaseFirst(m: int)
      requires Valid() && Base(S()) && CurrOk(S(), true) && !BadSem(m)
      modifies this`stamp, this`now, proc, q`lists, q.qkey, q.qnext, q.qprev
      ensures Valid() && S() == Release(old(S()), m)
    {
      hide Table.Valid, Base, Keyed, InsertKey;
      ghost var s := S();
      if s.sem[m].waiters != [] { WaiterFacts(s, m); }
      var p := TakeWaiter(m);
      if !BadPid(p) {
        MakeReady(p);
      }
    }

    /** `signal`. */
    method Signal(m: int) returns (ok: bool)
      requires Valid() && Inv(S())
      modifies this`cur, this`preempt, this`stamp, this`now, proc, sem, q`lists, q.qkey, q.qnext, q.qprev
      ensures Valid() && IsPid(old(S()).cur) && S() == Sched.Signal(old(S()), m)
      ensures ok <==> !BadSem(m) && old(S()).sem[m].used
    {
      hide Table.Valid, Base, Keyed, Counts, Sched.Resched, Sched.SignalOne;
      CurIsPid(S());
      if BadSem(m) || !sem[m].used {
        return false;
      }
      SignalOneKeeps(S(), m);
      var woke := SignalOne(m);
      if woke {
        Resched(true);
      }
      return true;
    }

    /** `signaln`. */
    method Signaln(m: int, n: int) returns (ok: bool)
      requires Valid() && Inv(S())
      modifies this`cur, this`preempt, this`stamp, this`now, proc, sem, q`lists, q.qkey, q.qnext, q.qprev
      ensures Valid() && IsPid(old(S()).cur) && S() == Sched.Signaln(old(S()), m, n)
      ensures ok <==> !BadSem(m) && old(S()).sem[m].used && n > 0
    {
      hide Table.Valid, Base, Keyed, Counts, CurrOk, Sched.Resched, Sched.SignalOne;
      ghost var s := S();
      CurIsPid(s);
      if BadSem(m) || !sem[m].used || n <= 0 {
        return false;
      }
      var i := 0;
      while i < n
        invariant 0 <= i <= n && Valid() && S() == SignalMany(s, m, i)
      {
        SignalManyKeeps(s, m, i);
        var _ := SignalOne(m);
        i := i + 1;
      }
      SignalManyKeeps(s, m, n);
      Resched(true);
      return true;
    }

    /** The loop of `sreset` and `sdelete`. */
    method ReleaseAll(m: int, ret: Option<int>)
      requires Valid() && Base(S()) && CurrOk(S(), true) && !BadSem(m)
      modifies this`stamp, this`now, proc, q`lists, q.qkey, q.qnext, q.qprev
      ensures Valid() && S() == Sched.ReleaseAll(old(S()), m, ret)
    {
      hide Table.Valid, Base, Keyed, CurrOk, InsertKey;
      ghost var s := S();
      while true
        invariant Valid() && Base(S()) && CurrOk(S(), true)
        invariant Sched.ReleaseAll(s, m, ret) == Sched.ReleaseAll(S(), m, ret)
        decreases |S().sem[m].waiters|
      {
        ghost var t := S();
        if t.sem[m].waiters != [] {
          WaiterFacts(t, m);
          ReleaseKeeps(Told(t, m, ret), m) by { ToldKeeps(t, m, ret); }
        }
        var p := TakeWaiter(m);
        if p == EMPTY {
          break;
        }
        if ret.Some? {
          SetProc(p, proc[p].(waitret := ret.value));
        }
        MakeReady(p);
      }
    }

    /** `sreset`. */
    method Sreset(m: int, n: int) returns (ok: bool)
      requires Valid() && Inv(S())
      modifies this`cur, this`preempt, this`stamp, this`now, proc, sem, q`lists, q.qkey, q.qnext, q.qprev
      ensures Valid() && IsPid(old(S()).cur) && S() == Sched.Sreset(old(S()), m, n)
      ensures ok <==> !BadSem(m) && old(S()).sem[m].used && n >= 0
    {
      hide Table.Valid, Base, Keyed, Counts, CurrOk, Sched.Resched, Sched.ReleaseAll;
      ghost var s := S();
      CurIsPid(s);
      if BadSem(m) || n < 0 || !sem[m].used {
        return false;
      }
      ReleaseAllKeeps(s, m, None);
      ReleaseAll(m, None);
      BaseCount(S(), m, S().sem[m].(cnt := n));
      SameRunner(S(), Count(S(), m, n));
      SetEntry(m, sem[m].(cnt := n));
      Resched(true);
      return true;
    }

    /** `sdelete`. */
    method Sdelete(m: int) returns (ok: bool)
      requires Valid() && Inv(S())
      modifies this`cur, this`preempt, this`stamp, this`now, proc, sem, q`lists, q.qkey, q.qnext, q.qprev
      ensures Valid() && IsPid(old(S()).cur) && S() == Sched.Sdelete(old(S()), m)
      ensures ok <==> !BadSem(m) && old(S()).sem[m].used
    {
      hide Table.Valid, Base, Counts, CurrOk, Sched.Resched, Sched.ReleaseAll;
      ghost var s := S();
      CurIsPid(s);
      if BadSem(m) || !sem[m].used {
        return false;
      }
      SdeleteBase(s, m);
      SetEntry(m, sem[m].(used := false));
      var none := IsEmpty(Head(SemQ(m)), SemQ(m));
      if !none {
        ReleaseAll(m, Some(DELETED));
        Resched(true);
      }
      return true;
    }

    /** `isempty`. */
    method IsEmpty(h: int, ghost l: int) returns (b: bool)
      requires Valid() && 0 <= l < NLISTS && h == Head(l)
      ensures b <==> q.lists[l] == []
    {
      q.Follow(l, -1);
      NodeBounds(q.lists, l, 0);
      b := q.qnext[h] >= NPROC;
    }

    /** `screate`, the entry having been found. */
    method Screate(m: int, n: int) returns (ok: bool)
      requires Valid() && !BadSem(m) && !S().sem[m].used
      modifies sem
      ensures Valid() && S() == Sched.Screate(old(S()), m, n) && (ok <==> n >= 0)
    {
      if n < 0 {
        return false;
      }
      SetEntry(m, SEntry(true, n));
      return true;
    }

    // -------------------------------------------------- suspension, priority, birth, death

    /** `suspend`. */
    method Suspend(p: int) returns (ok: bool)
      requires Valid() && Inv(S())
      modifies this`cur, this`preempt, this`stamp, this`now, proc, q`lists, q.qkey, q.qnext, q.qprev
      ensures Valid() && IsPid(old(S()).cur) && S() == Sched.Suspend(old(S()), p)
      ensures ok <==> !BadPid(p) && (St(old(S()), p) == PRCURR || St(old(S()), p) == PRREADY)
    {
      hide Table.Valid, Inv, Keyed, Sched.Resched, Base, Drop;
      ghost var s := S();
      CurIsPid(s);
      if BadPid(p) || (proc[p].state != PRCURR && proc[p].state != PRREADY) {
        return false;
      }
      if proc[p].state == PRREADY {
        ReadyThere(s, p);
        SetProc(p, proc[p].(state := PRSUSP));
        DropReady(p);
      } else {
        OnlyRunner(s, p);
        SetProc(p, proc[p].(state := PRSUSP));
        RunnerBase(s, S(), PRSUSP);
        Resched(false);
      }
      return true;
    }

    /** `resume`. */
    method Resume(p: int) returns (ok: bool)
      requires Valid() && Inv(S())
      modifies this`cur, this`preempt, this`stamp, this`now, proc, q`lists, q.qkey, q.qnext, q.qprev
      ensures Valid() && IsPid(old(S()).cur) && S() == Sched.Resume(old(S()), p)
      ensures ok <==> !BadPid(p) && St(old(S()), p) == PRSUSP
    {
      hide Table.Valid, Inv, Keyed, Sched.Resched, Base, InsertKey, Loose;
      ghost var s := S();
      CurIsPid(s);
      if BadPid(p) || proc[p].state != PRSUSP {
        return false;
      }
      SuspendedLoose(s, p);
      ReadyBase(s, s, p);
      LooseNowhere(s, p);
      MakeReady(p);
      Resched(true);
      return true;
    }

    /** `chprio`. */
    method Chprio(p: int, n: int) returns (ok: bool)
      requires Valid() && Inv(S()) && n <= MAXINT
      modifies this`cur, this`preempt, this`stamp, this`now, proc, q`lists, q.qkey, q.qnext, q.qprev
      ensures Valid() && IsPid(old(S()).cur) && S() == Sched.Chprio(old(S()), p, n)
      ensures ok <==> !BadPid(p) && n > 0 && St(old(S()), p) != PRFREE
    {
      hide Table.Valid, Inv, Keyed, Sched.Resched, Base, Loose, InsertKey, Drop;
      ghost var s := S();
      CurIsPid(s);
      if BadPid(p) || n <= 0 || proc[p].state == PRFREE {
        return false;
      }
      ChprioBase(s, p, n);
      SetProc(p, proc[p].(prio := n));
      if proc[p].state == PRREADY {
        ReadyThere(s, p);
        DropReady(p);
        LooseNowhere(S(), p);
        PutReady(p);
        assert S() == Sched.MakeReady(Unready(s.(proc := s.proc[p := s.proc[p].(prio := n)]), p), p) by {
          assert s.proc[p := s.proc[p].(prio := n)][p].(state := PRREADY) == s.proc[p].(prio := n);
          assert s.proc[p := s.proc[p].(prio := n)][p := s.proc[p].(prio := n)] == s.proc[p := s.proc[p].(prio := n)];
        }
        Resched(true);
      } else if proc[p].state == PRCURR {
        Resched(true);
      }
      return true;
    }

    /** The process entry that `create` and `vcreate` fill in. */
    method Born(p: int, n: int)
      requires Valid() && IsPid(p)
      modifies proc
      ensures Valid() && S() == Sched.Born(old(S()), p, n)
    {
      SetProc(p, PEntry(PRSUSP, n, 0, false, 0, proc[p].waitret));
    }

    /** `unsleep`: the rest of the delay goes to the next sleeper, and the flags follow. */
    method Unqueue(p: int)
      requires Valid() && Has(S().clock, p)
      modifies this`slnempty, this`sltop, q`lists, q.qkey, q.qnext, q.qprev
      ensures Valid() && S() == Sched.Unqueue(old(S()), p)
    {
      hide Table.Valid, Keyed, Unsleep;
      DropClock(p);
      var first := FirstSleeper();
      if first < NPROC {
        sltop := first;
      } else {
        slnempty := false;
      }
    }

    /** `firstid` of the sleep queue. */
    method FirstSleeper() returns (p: int)
      requires Valid()
      ensures p < NPROC <==> S().clock != []
      ensures S().clock != [] ==> p == S().clock[0].pid
      ensures 0 <= p < NQENT == q.qkey.Length == q.qnext.Length
    {
      q.Follow(CLOCKQ, -1);
      NodeBounds(q.lists, CLOCKQ, 0);
      p := q.qnext[Head(CLOCKQ)];
    }

    /** A waiting process gives up, and the semaphore counts one waiter less. */
    method LeaveSem(p: int, m: int)
      requires Valid() && !BadSem(m) && p in S().sem[m].waiters
      modifies sem, q`lists, q.qnext, q.qprev
      ensures Valid()
      ensures S() == SetSem(old(S()), m, Sem(old(S()).sem[m].used, old(S()).sem[m].cnt + 1, Cancel(old(S()).sem[m].waiters, p)))
    {
      hide Table.Valid, Keyed, Cancel;
      ghost var s := S();
      var cnt := sem[m].cnt + 1;
      SetEntry(m, sem[m].(cnt := cnt));
      CancelWaiter(p, m);
      assert S().sem == s.sem[m := Sem(s.sem[m].used, cnt, Cancel(s.sem[m].waiters, p))];
    }

    /** The end of `kill`. */
    method Die(p: int)
      requires Valid() && Inv(S())
      modifies this`cur, this`preempt, this`stamp, this`now, this`slnempty, this`sltop, proc, sem, q`lists, q.qkey, q.qnext, q.qprev
      ensures Valid() && IsPid(old(S()).cur) && S() == Sched.Die(old(S()), p)
    {
      hide Table.Valid, Inv, Keyed, Sched.Resched, Base, Drop, Cancel, Unsleep;
      ghost var s := S();
      CurIsPid(s);
      if BadPid(p) || proc[p].state == PRFREE {
        return;
      }
      if proc[p].state == PRCURR {
        OnlyRunner(s, p);
        SetProc(p, proc[p].(state := PRFREE));
        RunnerBase(s, S(), PRFREE);
        Resched(false);
      } else if proc[p].state == PRWAIT {
        WaitsThere(s, p);
        LeaveSem(p, proc[p].sem);
        SetProc(p, proc[p].(state := PRFREE));
      } else if proc[p].state == PRREADY {
        ReadyThere(s, p);
        DropReady(p);
        SetProc(p, proc[p].(state := PRFREE));
      } else {
        if proc[p].state == PRSLEEP || proc[p].state == PRTRECV {
          SleepsThere(s, p);
          Unqueue(p);
        }
        SetProc(p, proc[p].(state := PRFREE));
      }
    }

    // ----------------------------------------------------------------- messages, sleeping

    /** `send`. */
    method Send(p: int, w: int) returns (ok: bool)
      requires Valid() && Inv(S())
      modifies this`cur, this`preempt, this`stamp, this`now, this`slnempty, this`sltop, proc, q`lists, q.qkey, q.qnext, q.qprev
      ensures Valid() && IsPid(old(S()).cur) && S() == Sched.Send(old(S()), p, w)
      ensures ok <==> !BadPid(p) && St(old(S()), p) != PRFREE && !old(S()).proc[p].hasmsg
    {
      hide Table.Valid, Inv, Keyed, Sched.Resched, Base, Loose, InsertKey, Unsleep;
      ghost var s := S();
      CurIsPid(s);
      if BadPid(p) || proc[p].state == PRFREE || proc[p].hasmsg {
        return false;
      }
      ghost var pr := s.proc[p].(hasmsg := true, msg := w);
      SetProc(p, proc[p].(hasmsg := true, msg := w));
      if proc[p].state == PRRECV {
        ReceiverBase(s, p, pr);
        LooseNowhere(S(), p);
        MakeReady(p);
        Resched(true);
      } else if proc[p].state == PRTRECV {
        SleepsThere(s, p);
        TimedBase(s, p, pr);
        Unqueue(p);
        LooseNowhere(S(), p);
        MakeReady(p);
        Resched(true);
      }
      return true;
    }

    /** `receive` up to its call of resched, and at once if there is a message. */
    method Receive() returns (w: Option<int>)
      requires Valid() && Inv(S()) && cur != 0
      modifies this`cur, this`preempt, this`stamp, this`now, proc, q`lists, q.qkey, q.qnext, q.qprev
      ensures Valid() && IsPid(old(S()).cur) && S() == Sched.Receive(old(S()))
      ensures w == if old(S()).proc[old(S()).cur].hasmsg then Some(old(S()).proc[old(S()).cur].msg) else None
    {
      hide Table.Valid, Inv, Keyed, Sched.Resched, Base;
      ghost var s := S();
      CurIsPid(s);
      if !proc[cur].hasmsg {
        SetProc(cur, proc[cur].(state := PRRECV));
        RunnerBase(s, S(), PRRECV);
        Resched(false);
        return None;
      }
      w := Some(proc[cur].msg);
      SetProc(cur, proc[cur].(hasmsg := false));
    }

    /** The end of `receive` and `recvtim`, once the process runs again. */
    method Collect() returns (w: Option<int>)
      requires Valid() && IsPid(cur)
      modifies proc
      ensures Valid() && S() == Sched.Collect(old(S()))
      ensures w == if old(S()).proc[old(S()).cur].hasmsg then Some(old(S()).proc[old(S()).cur].msg) else None
    {
      w := if proc[cur].hasmsg then Some(proc[cur].msg) else None;
      SetProc(cur, proc[cur].(hasmsg := false));
    }

    /** The caller goes on the sleep queue. */
    method Doze(n: int, st: PState)
      requires Valid() && Inv(S()) && cur != 0 && 0 <= n <= MAXINT
      modifies this`slnempty, this`sltop, proc, q`lists, q.qkey, q.qnext, q.qprev
      ensures Valid() && IsPid(old(S()).cur) && S() == Sched.Doze(old(S()), n, st)
    {
      hide Table.Valid, Inv, Keyed, Insertd;
      ghost var s := S();
      CurIsPid(s);
      RunnerNowhere(s);
      NaturalClock(s);
      PutClock(cur, n);
      slnempty := true;
      sltop := FirstSleeper();
      SetProc(cur, proc[cur].(state := st));
    }

    /** `sleep10`, `sleep100`, `sleep1000`. */
    method SleepFor(n: int, u: int) returns (ok: bool)
      requires Valid() && Inv(S()) && u >= 1 && n * u <= MAXINT && (cur == 0 ==> n <= 0)
      modifies this`cur, this`preempt, this`stamp, this`now, this`slnempty, this`sltop, proc, q`lists, q.qkey, q.qnext, q.qprev
      ensures Valid() && IsPid(old(S()).cur) && S() == Sched.SleepFor(old(S()), n, u) && (ok <==> n >= 0)
    {
      hide Table.Valid, Keyed, Sched.Resched, Base, Sched.Doze;
      ghost var s := S();
      CurIsPid(s);
      if n < 0 {
        return false;
      }
      if n == 0 {
        Resched(true);
      } else {
        assert n * u >= 0;
        DozeBase(s, n * u, PRSLEEP);
        Doze(n * u, PRSLEEP);
        Resched(false);
      }
      return true;
    }

    /** `recvtim`: a waiting message is returned at once; otherwise this is the part up to its
        call of resched, and `Collect` the rest. */
    method Recvtim(n: int) returns (ok: bool, w: Option<int>)
      requires Valid() && Inv(S()) && cur != 0 && n * 1000 <= MAXINT
      modifies this`cur, this`preempt, this`stamp, this`now, this`slnempty, this`sltop, proc, q`lists, q.qkey, q.qnext, q.qprev
      ensures Valid() && IsPid(old(S()).cur) && S() == Sched.Recvtim(old(S()), n) && (ok <==> n >= 0)
      ensures w == if ok && old(S()).proc[old(S()).cur].hasmsg then Some(old(S()).proc[old(S()).cur].msg) else None
    {
      hide Table.Valid, Keyed, Sched.Resched, Base, Sched.Doze;
      ghost var s := S();
      CurIsPid(s);
      ok, w := n >= 0, None;
      if !ok {
        return;
      }
      if !proc[cur].hasmsg {
        DozeBase(s, n * 1000, PRTRECV);
        Doze(n * 1000, PRTRECV);
        Resched(false);
      } else {
        w := Some(proc[cur].msg);
        SetProc(cur, proc[cur].(hasmsg := false));
      }
    }

    // ------------------------------------------------------------------------------ clock

    /** `wakeup`. */
    method Wakeup()
      requires Valid() && Almost(S())
      modifies this`cur, this`preempt, this`stamp, this`now, this`slnempty, this`sltop, proc, q`lists, q.qkey, q.qnext, q.qprev
      ensures Valid() && IsPid(old(S()).cur) && S() == Sched.Wakeup(old(S()))
    {
      hide Table.Valid, Keyed, Base, InsertKey, Almost, CurrOk, Sched.Resched;
      ghost var s := S();
      WakeAllKeeps(s);
      AlmostCur(s);
      while true
        invariant Valid() && Almost(S()) && WakeAll(S()) == WakeAll(s)
        decreases |S().clock|
      {
        var head := FirstSleeper();
        if head >= NPROC {
          break;
        }
        var key := HeadKey();
        if key > 0 {
          break;
        }
        WakeOneKeeps(S());
        BaseAlmost(Sched.MakeReady(S().(clock := S().clock[1..]), S().clock[0].pid));
        var p := TakeClock();
        MakeReady(p);
      }
      var head := FirstSleeper();
      slnempty := head < NPROC;
      if slnempty {
        sltop := head;
      }
      BaseIgnores(WakeAll(s), S());
      SameRunner(WakeAll(s), S());
      Resched(true);
    }

    /** `firstkey` of the sleep queue. */
    method HeadKey() returns (key: int)
      requires Valid() && S().clock != []
      ensures key == S().clock[0].key
    {
      q.Follow(CLOCKQ, -1);
      NodeBounds(q.lists, CLOCKQ, 0);
      key := q.qkey[q.qnext[Head(CLOCKQ)]];
    }

    /** The clock interrupt `clkint` up to its call of wakeup. */
    method Clkint()
      requires Valid() && Inv(S())
      modifies this`cur, this`preempt, this`stamp, this`now, this`slnempty, this`sltop, proc, q`lists, q.qkey, q.qnext, q.qprev
      ensures Valid() && IsPid(old(S()).cur) && S() == Sched.Clkint(old(S()))
    {
      hide Table.Valid, Keyed, Base, Sched.Resched, Sched.Wakeup, CurrOk, Almost;
      ghost var s := S();
      CurIsPid(s);
      ClkintFacts(s);
      if slnempty {
        var key := HeadKey();
        key := key - 1;
        SetKey(sltop, key, 0);
        assert S().clock == Decrement(s.clock);
        if key <= 0 {
          Wakeup();
        }
      }
    }

    /** The rest of `clkint`, when the interrupted process runs again. */
    method Preempt()
      requires Valid() && Inv(S())
      modifies this`cur, this`preempt, this`stamp, this`now, proc, q`lists, q.qkey, q.qnext, q.qprev
      ensures Valid() && IsPid(old(S()).cur) && S() == Sched.Preempt(old(S()))
    {
      hide Table.Valid, Keyed, Base, Sched.Resched, CurrOk, Inv;
      RunsOn(S(), S().(preempt := preempt - 1));
      preempt := preempt - 1;
      if preempt <= 0 {
        Resched(true);
      }
    }

    /** `stopclk`. */
    method Stopclk()
      requires Valid()
      modifies this`defclk
      ensures Valid() && S() == Sched.Stopclk(old(S()))
    {
      defclk := defclk + 1;
    }

    /** The loop of `strtclk`: the backlog is taken from the front of the sleep queue. */
    method TakeBacklog(m0: int)
      requires Valid() && Single(S().clock)
      modifies q.qkey
      ensures Valid() && S() == old(S()).(clock := Advance(old(S()).clock, m0))
    {
      hide Table.Valid, Keyed, Advance, Total, PassedOver, Spent;
      ghost var s, k: nat := S(), 0;
      var m := m0;
      var next := FirstSleeper();
      PassNone(s.clock, m0);
      while next < NPROC && q.qkey[next] < m
        invariant Valid() && 0 <= k <= |s.clock| && S() == s.(clock := Spent(s.clock, k))
        invariant next < NPROC <==> k < |s.clock|
        invariant k < |s.clock| ==> next == s.clock[k].pid
        invariant 0 <= next < NQENT && m == m0 - Total(s.clock[..k])
        invariant PassedOver(s.clock, m0, k)
        decreases |s.clock| - k
      {
        SpentAt(s.clock, k);
        SleeperKey(k);
        PassOne(s.clock, m0, k);
        m := m - q.qkey[next];
        var after := q.qnext[next];
        SetKey(next, 0, k);
        next := after;
        k := k + 1;
      }
      if next < NPROC {
        SpentAt(s.clock, k);
        SleeperKey(k);
      }
      AdvanceEnd(s.clock, m0, m, k);
      if next < NPROC {
        SetKey(next, q.qkey[next] - m, k);
      }
    }

    /** The sleeper at position k: its key and the one behind it. */
    lemma SleeperKey(k: nat)
      requires Valid() && k < |S().clock|
      ensures var p := S().clock[k].pid;
        && 0 <= p < NPROC && q.qkey[p] == S().clock[k].key && 0 <= q.qnext[p] < NQENT
        && (q.qnext[p] < NPROC <==> k + 1 < |S().clock|) && (k + 1 < |S().clock| ==> q.qnext[p] == S().clock[k + 1].pid)
    {
      q.Follow(CLOCKQ, k);
      NodeBounds(q.lists, CLOCKQ, k);
      NodeBounds(q.lists, CLOCKQ, k + 1);
    }

    /** `strtclk` up to its call of wakeup. */
    method Strtclk()
      requires Valid() && Inv(S()) && clkdiff >= 0
      modifies this`cur, this`preempt, this`stamp, this`now, this`slnempty, this`sltop, this`defclk, this`clkdiff, proc, q`lists, q.qkey, q.qnext, q.qprev
      ensures Valid() && IsPid(old(S()).cur) && S() == Sched.Strtclk(old(S()))
    {
      hide Table.Valid, Keyed, Inv, Sched.Resched, CatchUpQueue, CurrOk, Base;
      ghost var s := S();
      StrtclkFacts(s);
      if defclk <= 0 {
        return;
      }
      defclk := defclk - 1;
      if defclk > 0 {
        return;
      }
      var makeup := clkdiff;
      preempt := preempt - makeup;
      clkdiff := 0;
      assert S() == Charge(s);
      CatchUpNow(s, makeup);
    }

    /** The rest of `strtclk`, when its caller runs again. */
    method Overdue()
      requires Valid() && Inv(S())
      modifies this`cur, this`preempt, this`stamp, this`now, proc, q`lists, q.qkey, q.qnext, q.qprev
      ensures Valid() && IsPid(old(S()).cur) && S() == Sched.Overdue(old(S()))
    {
      hide Table.Valid, Keyed, Base, Sched.Resched, CurrOk, Inv;
      RunsOn(S(), S());
      if preempt <= 0 {
        Resched(true);
      }
    }

    /** The sleep queue's share of a backlog. */
    method CatchUpNow(ghost s: Sys, m: int)
      requires Valid() && Inv(s) && m == s.clkdiff >= 0 && S() == Charge(s)
      modifies this`cur, this`preempt, this`stamp, this`now, this`slnempty, this`sltop, proc, q`lists, q.qkey, q.qnext, q.qprev
      ensures Valid() && IsPid(s.cur) && S() == CatchUpQueue(Charge(s), m)
    {
      hide Table.Valid, Keyed, Inv, Sched.Resched, Sched.Wakeup, Advance, CurrOk, Base, Almost;
      StrtclkFacts(s);
      if slnempty {
        TakeBacklog(m);
        Wakeup();
      }
    }
  }

  /** The loop of strtclk has passed over the first k entries. */
  ghost predicate PassedOver(d: seq<Entry>, m0: int, k: nat) {
    k <= |d| && forall j :: 0 <= j < k ==> d[j].key < m0 - Total(d[..j])
  }

  lemma PassNone(d: seq<Entry>, m0: int)
    ensures PassedOver(d, m0, 0) && Spent(d, 0) == d && Total(d[..0]) == 0
  {
  }

  lemma PassOne(d: seq<Entry>, m0: int, k: nat)
    requires PassedOver(d, m0, k) && k < |d| && d[k].key < m0 - Total(d[..k])
    ensures PassedOver(d, m0, k + 1) && Total(d[..k + 1]) == Total(d[..k]) + d[k].key
    ensures Spent(d, k)[k := Entry(d[k].pid, 0)] == Spent(d, k + 1)
  {
    TotalStep(d, k);
  }

  lemma SpentAt(d: seq<Entry>, k: nat)
    requires k < |d|
    ensures Spent(d, k)[k] == d[k] && (k + 1 < |d| ==> Spent(d, k)[k + 1] == d[k + 1])
  {
  }

  lemma AdvanceEnd(d: seq<Entry>, m0: int, m: int, k: nat)
    requires PassedOver(d, m0, k) && m == m0 - Total(d[..k]) && (k < |d| ==> d[k].key >= m)
    ensures Advance(d, m0) == if k < |d| then Spent(d, k)[k := Entry(d[k].pid, d[k].key - m)] else Spent(d, k)
  {
    AdvanceFrom(d, m0, k, m);
    if k < |d| { assert d[k..][0] == d[k] && d[k..][1..] == d[k + 1..]; }
  }

  /** What strtclk finds and leaves at its steps. */
  lemma StrtclkFacts(s: Sys)
    requires Inv(s) && s.clkdiff >= 0
    ensures IsPid(s.cur) && Single(s.clock)
    ensures var s1 := Charge(s).(clock := Advance(s.clock, s.clkdiff));
      s.slnempty ==> Almost(s1) && IsPid(s1.cur)
  {
    CurIsPid(s);
    OtherFields(s, Charge(s));
    var s1 := Charge(s).(clock := Advance(s.clock, s.clkdiff));
    forall x
      ensures Has(s1.clock, x) <==> Has(s.clock, x)
    {
      AdvanceEffect(s.clock, s.clkdiff, x);
    }
    AdvanceEffect(s.clock, s.clkdiff, 0);
    if s.slnempty {
      WakeupKeeps(Charge(s), s1);
    }
  }

  lemma ReadyThere(s: Sys, p: int)
    requires Inv(s) && IsPid(p) && St(s, p) == PRREADY
    ensures Single(s.ready) && Has(s.ready, p)
  {
    assert AtHome(s, p);
  }

  lemma SleepsThere(s: Sys, p: int)
    requires Inv(s) && IsPid(p) && Sleepy(St(s, p))
    ensures Has(s.clock, p)
  {
    assert AtHome(s, p);
  }

  lemma LooseNowhere(s: Sys, p: int)
    requires Loose(s, p)
    ensures IsPid(p) && Nowhere(s, p) && (p != 0 ==> s.proc[p].prio <= MAXINT)
  {
  }

  lemma NaturalClock(s: Sys)
    requires Inv(s)
    ensures Natural(s.clock)
  {
  }

  lemma SuspendedLoose(s: Sys, p: int)
    requires Inv(s) && 0 < p < NPROC && St(s, p) == PRSUSP
    ensures CurrOk(s, true) && Loose(s, p) && p != s.cur && Counts(s) && FlagsOk(s)
  {
    NotNull(s, p);
    HomelessNowhere(s, p);
  }

  /** The states in which chprio hands out the processor again. */
  lemma ChprioBase(s: Sys, p: int, n: int)
    requires Inv(s) && 0 < p < NPROC && 1 <= n <= MAXINT && St(s, p) != PRFREE
    ensures
      var s1 := s.(proc := s.proc[p := s.proc[p].(prio := n)]);
      && (St(s, p) == PRREADY ==>
            Loose(Unready(s1, p), p) && Base(Sched.MakeReady(Unready(s1, p), p)) && CurrOk(Sched.MakeReady(Unready(s1, p), p), true))
      && (St(s, p) == PRCURR ==> Base(s1) && CurrOk(s1, true))
  {
    var s1 := s.(proc := s.proc[p := s.proc[p].(prio := n)]);
    if St(s, p) == PRREADY {
      PrioLoose(s, p, n);
      SameCounts(s, Unready(s1, p));
      assert p != s.cur;
      hide Base, Loose;
      ReadyBase(s, Unready(s1, p), p);
    } else if St(s, p) == PRCURR {
      PrioSet(s, p, n);
      SameStates(s, s1);
    }
  }

  lemma ReceiverBase(s: Sys, p: int, pr: PEntry)
    requires Inv(s) && 0 < p < NPROC && St(s, p) == PRRECV && pr.state == PRRECV && pr.prio == s.proc[p].prio
    ensures
      var s1 := s.(proc := s.proc[p := pr]);
      Loose(s1, p) && Base(Sched.MakeReady(s1, p)) && CurrOk(Sched.MakeReady(s1, p), true)
  {
    var s1 := s.(proc := s.proc[p := pr]);
    NotNull(s, p);
    HomelessNowhere(s, p);
    LooseFrom(s, s, p);
    LooseMsg(s, p, pr);
    SameCounts(s, s1);
    hide Loose, Base, Counts;
    ReadyBase(s, s1, p);
  }

  lemma TimedBase(s: Sys, p: int, pr: PEntry)
    requires Inv(s) && 0 < p < NPROC && St(s, p) == PRTRECV && pr.state == PRTRECV && pr.prio == s.proc[p].prio
    ensures
      var s1 := Sched.Unqueue(s.(proc := s.proc[p := pr]), p);
      Loose(s1, p) && Base(Sched.MakeReady(s1, p)) && CurrOk(Sched.MakeReady(s1, p), true)
  {
    var s0 := s.(proc := s.proc[p := pr]);
    SleeperLoose(s, p);
    UnqueueOnly(s, p, s0.proc);
    hide Loose, Base, Counts, Sched.Unqueue, PriOk;
    LooseMsg(Sched.Unqueue(s, p), p, pr);
    SameCounts(Sched.Unqueue(s, p), Sched.Unqueue(s0, p));
    ReadyBase(s, Sched.Unqueue(s0, p), p);
  }

  lemma AlmostCur(s: Sys)
    requires Almost(s)
    ensures IsPid(s.cur)
  {
  }

  /** What a clock interrupt finds and leaves at its steps. */
  lemma ClkintFacts(s: Sys)
    requires Inv(s)
    ensures IsPid(s.cur) && (s.slnempty <==> s.clock != [])
    ensures s.clock != [] ==> s.sltop == s.clock[0].pid
    ensures s.clock != [] && s.clock[0].key <= 1 ==> Almost(TakeTick(s))
  {
    CurIsPid(s);
    var s1 := if s.clock != [] then TakeTick(s) else s;
    if s.clock != [] {
      forall x
        ensures Has(s1.clock, x) <==> Has(s.clock, x)
      {
        DecrementEffect(s.clock, x);
      }
      DecrementEffect(s.clock, 0);
      if s.clock[0].key <= 1 { WakeupKeeps(s, s1); }
    }
  }

  /** The running process goes on with another time slice. */
  lemma RunsOn(s: Sys, s2: Sys)
    requires Inv(s) && s2 == s.(preempt := s2.preempt)
    ensures IsPid(s.cur) && Base(s2) && CurrOk(s2, true)
  {
    CurIsPid(s);
    OtherFields(s, s2);
  }

  lemma ReschedFacts(s: Sys, r: bool)
    requires Base(s) && CurrOk(s, r)
    ensures IsPid(s.cur) && (St(s, s.cur) == PRCURR <==> r)
    ensures r ==> Nowhere(s, s.cur) && s.proc[s.cur].prio <= MAXINT && LastPid(Sched.MakeReady(s, s.cur))
    ensures !r ==> LastPid(s)
  {
    if r {
      CurrLoose(s);
      MakeReadyBase(s, s.cur);
      StateCurr(s, Sched.MakeReady(s, s.cur), s.cur);
      DispatchBase(Sched.MakeReady(s, s.cur));
      DispatchLoose(Sched.MakeReady(s, s.cur));
    } else {
      DispatchBase(s);
      DispatchLoose(s);
    }
  }

  predicate LastPid(s: Sys) { s.ready != [] && IsPid(s.ready[|s.ready| - 1].pid) }

  lemma RunnerNowhere(s: Sys)
    requires Inv(s)
    ensures IsPid(s.cur) && Nowhere(s, s.cur)
  {
    CurrLoose(s);
  }

  /** The first waiter can be readied. */
  lemma WaiterFacts(s: Sys, m: int)
    requires Base(s) && CurrOk(s, true) && !BadSem(m) && s.sem[m].waiters != []
    ensures
      var w := s.sem[m].waiters;
      IsPid(w[0]) && w[0] != 0 && Nowhere(SetSem(s, m, s.sem[m].(waiters := w[1..])), w[0]) && s.proc[w[0]].prio <= MAXINT
  {
    WaiterNotNull(s, m, s.sem[m].waiters[0]);
    WaiterLeaves(s, m);
  }

  /** The first waiter has been told the result of its wait. */
  function Told(s: Sys, m: int, ret: Option<int>): Sys
    requires !BadSem(m) && s.sem[m].waiters != []
  {
    var w := s.sem[m].waiters;
    if ret.Some? && IsPid(w[0]) then s.(proc := s.proc[w[0] := s.proc[w[0]].(waitret := ret.value)]) else s
  }

  lemma ToldKeeps(s: Sys, m: int, ret: Option<int>)
    requires Base(s) && CurrOk(s, true) && !BadSem(m) && s.sem[m].waiters != []
    ensures Base(Told(s, m, ret)) && CurrOk(Told(s, m, ret), true) && Told(s, m, ret).sem == s.sem
  {
    var w := s.sem[m].waiters;
    if ret.Some? && IsPid(w[0]) { SetRet(s, w[0], ret.value); }
  }

  lemma {:induction false} CancelAt(w: seq<int>, p: int) returns (k: nat)
    requires p in w
    ensures k < |w| && w[k] == p && Cancel(w, p) == w[..k] + w[k + 1..]
  {
    if w[0] == p {
      k := 0;
    } else {
      k := CancelAt(w[1..], p);
      k := k + 1;
      assert w[1..][..k - 1] == w[1..k] && w[1..][k..] == w[k + 1..];
    }
  }

  lemma {:induction false} DropsSome(d: seq<Entry>, p: int)
    requires Has(d, p)
    ensures |Drop(d, p)| == |d| - 1
  {
    HasTail(d, p);
    if d[0].pid != p { DropsSome(d[1..], p); }
  }

  /** Two lists share no process. */
  lemma OtherList(ls: Lists, l: int, m: int)
    requires Distinct(ls) && 0 <= l < |ls| && 0 <= m < |ls| && l != m
    ensures forall x :: x in ls[m] ==> x !in ls[l] && IsPid(x)
  {
  }
}
