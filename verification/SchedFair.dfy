/** What the calls do for those who wait: semaphores serve in order of arrival, over any run;
    deletion and reset release everyone; a message reaches its receiver. */
module SchedFair {
  import opened Machine
  import opened DeltaList
  import opened QLists
  import opened QTable
  import opened Sched
  import opened SchedInv
  import opened SchedOps
  import opened SchedCalls
  import opened SchedRun

  /** Process p came to the list before process q. */
  ghost predicate CameBefore(w: seq<int>, p: int, q: int) {
    exists i, j :: 0 <= i < j < |w| && w[i] == p && w[j] == q
  }

  // ------------------------------------------------------- what becomes of the waiting lists

  /** List w2 is list w after some have left at the front, one perhaps in the middle, and
      some have joined at the end. */
  ghost predicate Served(w: seq<int>, w2: seq<int>, gone: int) {
    w2 == w || (|w| > 0 && w2 == w[1..]) || w2 == [] || w2 == Cancel(w, gone) || (exists p :: w2 == w + [p])
  }

  lemma {:induction false} CancelKeepsOrder(w: seq<int>, gone: int, p: int, q: int)
    requires CameBefore(w, p, q) && gone != p && gone != q
    ensures CameBefore(Cancel(w, gone), p, q)
    decreases |w|
  {
    var i, j :| 0 <= i < j < |w| && w[i] == p && w[j] == q;
    var r := Cancel(w, gone);
    if w[0] == gone {
      assert r[i - 1] == p && r[j - 1] == q;
    } else if i == 0 {
      CancelHolds(w[1..], gone, q, j - 1);
      var k :| 0 <= k < |Cancel(w[1..], gone)| && Cancel(w[1..], gone)[k] == q;
      assert r[0] == p && r[k + 1] == q;
    } else {
      assert w[1..][i - 1] == p && w[1..][j - 1] == q;
      CancelKeepsOrder(w[1..], gone, p, q);
      var x, y :| 0 <= x < y < |Cancel(w[1..], gone)| && Cancel(w[1..], gone)[x] == p && Cancel(w[1..], gone)[y] == q;
      assert r[x + 1] == p && r[y + 1] == q;
    }
  }

  lemma {:induction false} CancelHolds(w: seq<int>, gone: int, q: int, j: nat)
    requires j < |w| && w[j] == q && gone != q
    ensures q in Cancel(w, gone)
    decreases |w|
  {
    if w[0] == gone {
      assert w[1..][j - 1] == q;
    } else if j > 0 {
      CancelHolds(w[1..], gone, q, j - 1);
      assert q in [w[0]] + Cancel(w[1..], gone);
    }
  }

  lemma {:induction false} CancelTakes(w: seq<int>, gone: int)
    requires NoDup(w)
    ensures gone !in Cancel(w, gone)
    decreases |w|
  {
    if w != [] {
      assert forall k :: 0 <= k < |w| - 1 ==> w[1..][k] == w[k + 1];
      CancelTakes(w[1..], gone);
    }
  }

  /** A list that has lost its front keeps the order of the rest. */
  lemma ServedKeepsOrder(w: seq<int>, w2: seq<int>, gone: int, p: int, q: int)
    requires NoDup(w) && Served(w, w2, gone) && CameBefore(w, p, q) && p in w2 && gone != q
    ensures CameBefore(w2, p, q)
  {
    var i, j :| 0 <= i < j < |w| && w[i] == p && w[j] == q;
    if w2 == w {
    } else if |w| > 0 && w2 == w[1..] {
      assert i > 0;
      assert w2[i - 1] == p && w2[j - 1] == q;
    } else if w2 == [] {
    } else if w2 == Cancel(w, gone) {
      CancelTakes(w, gone);
      CancelKeepsOrder(w, gone, p, q);
    } else {
      assert w2[i] == p && w2[j] == q;
    }
  }

  // ----------------------------------------------------------------------- call by call

  lemma SignalOneWaiters(s: Sys, m: int, n: int)
    requires !BadSem(m) && !BadSem(n)
    ensures
      var w := s.sem[n].waiters;
      SignalOne(s, m).sem[n].waiters == if n == m && s.sem[m].cnt < 0 && w != [] then w[1..] else w
  {
  }

  lemma TailPart(w: seq<int>, p: int)
    requires NoDup(w) && w != []
    ensures NoDup(w[1..]) && (p in w[1..] ==> p in w) && w[0] !in w[1..]
  {
  }

  lemma {:induction false} SignalManyOrder(s: Sys, m: int, k: nat, n: int, p: int, q: int)
    requires !BadSem(m) && !BadSem(n) && NoDup(s.sem[n].waiters) && CameBefore(s.sem[n].waiters, p, q)
    ensures NoDup(SignalMany(s, m, k).sem[n].waiters)
    ensures p in SignalMany(s, m, k).sem[n].waiters ==> CameBefore(SignalMany(s, m, k).sem[n].waiters, p, q)
  {
    hide SignalOne, NoDup, CameBefore;
    if k > 0 {
      var s1 := SignalMany(s, m, k - 1);
      var w := s1.sem[n].waiters;
      SignalManyOrder(s, m, k - 1, n, p, q);
      SignalOneWaiters(s1, m, n);
      if w != [] {
        TailPart(w, p);
        if p in SignalOne(s1, m).sem[n].waiters {
          ServedKeepsOrder(w, SignalOne(s1, m).sem[n].waiters, q + 1, p, q);
        }
      }
    }
  }

  lemma {:induction false} ReleaseAllWaiters(s: Sys, m: int, ret: Option<int>, n: int)
    requires !BadSem(m) && !BadSem(n)
    ensures ReleaseAll(s, m, ret).sem[n].waiters == if n == m then [] else s.sem[n].waiters
    ensures ReleaseAll(s, m, ret).sem[m].used == s.sem[m].used && ReleaseAll(s, m, ret).sem[m].cnt == s.sem[m].cnt
    decreases |s.sem[m].waiters|
  {
    var w := s.sem[m].waiters;
    if w != [] {
      var s1 := if ret.Some? && IsPid(w[0]) then s.(proc := s.proc[w[0] := s.proc[w[0]].(waitret := ret.value)]) else s;
      ReleaseAllWaiters(Release(s1, m), m, ret, n);
    }
  }

  lemma {:induction false} WakeAllSem(s: Sys)
    ensures WakeAll(s).sem == s.sem
    decreases |s.clock|
  {
    if s.clock != [] && s.clock[0].key <= 0 {
      WakeAllSem(Ready(s.(clock := s.clock[1..]), s.clock[0].pid));
    }
  }

  lemma WakeupSem(s: Sys)
    requires IsPid(s.cur)
    ensures Wakeup(s).sem == s.sem
  {
    hide Resched;
    WakeAllSem(s);
  }

  lemma ClkintSem(s: Sys)
    requires IsPid(s.cur)
    ensures Clkint(s).sem == s.sem
  {
    hide Wakeup, Resched;
    var s1 := if s.slnempty then TakeTick(s) else s;
    WakeupSem(s1);
  }

  lemma StrtclkSem(s: Sys)
    requires IsPid(s.cur)
    ensures Strtclk(s).sem == s.sem
  {
    hide Wakeup, Resched;
    WakeupSem(Charge(s).(clock := Advance(s.clock, s.clkdiff)));
  }

  /** Calls that concern neither semaphores nor waiting processes leave all their lists alone. */
  lemma SameSem(s: Sys, st: Step)
    requires IsPid(s.cur) && Legal(s, st)
    requires !st.Waits? && !st.Signals? && !st.SignalsMany? && !st.Resets? && !st.Deletes? && !st.MakesSem? && !st.Kills?
    ensures Apply(s, st).sem == s.sem
  {
    hide Resched, Clkint, Strtclk, Wakeup;
    ClkintSem(s);
    StrtclkSem(s);
  }

  lemma DieSem(s: Sys, g: int, n: int)
    requires IsPid(s.cur) && !BadSem(n)
    ensures
      var w, w2 := s.sem[n].waiters, Die(s, g).sem[n].waiters;
      w2 == w || w2 == Cancel(w, g)
  {
    hide Resched, Cancel, Unsleep, Drop;
  }

  /** One step: whoever came later is not released while p still waits. */
  lemma StepIsFair(s: Sys, st: Step, n: int, p: int, q: int)
    requires Inv(s) && Legal(s, st) && !BadSem(n) && CameBefore(s.sem[n].waiters, p, q) && st != Kills(q)
    ensures IsPid(s.cur)
    ensures p in Apply(s, st).sem[n].waiters ==> CameBefore(Apply(s, st).sem[n].waiters, p, q)
  {
    hide Resched, CameBefore, NoDup, Inv, SignalOne, SignalMany, ReleaseAll, Die, Clkint, Strtclk;
    CurIsPid(s);
    WaitersOnce(s, n);
    var w, s2 := s.sem[n].waiters, Apply(s, st);
    if p in s2.sem[n].waiters {
      match st
      case Signals(m) =>
        if !BadSem(m) { SignalOneWaiters(s, m, n); }
        ServedKeepsOrder(w, s2.sem[n].waiters, q + 1, p, q);
      case SignalsMany(m, k) =>
        if !BadSem(m) && k > 0 { SignalManyOrder(s, m, k, n, p, q); }
      case Resets(m, _) =>
        if !BadSem(m) { ReleaseAllWaiters(s, m, None, n); }
      case Deletes(m) =>
        if !BadSem(m) { ReleaseAllWaiters(SetSem(s, m, s.sem[m].(used := false)), m, Some(DELETED), n); }
      case Kills(g) =>
        DieSem(s, g, n);
        ServedKeepsOrder(w, s2.sem[n].waiters, g, p, q);
      case Waits(m) =>
        assert s2.sem[n].waiters == w || s2.sem[n].waiters == w + [s.cur];
        ServedKeepsOrder(w, s2.sem[n].waiters, q + 1, p, q);
      case MakesSem(_, _) =>
      case _ => SameSem(s, st);
    }
  }

  lemma WaitersOnce(s: Sys, n: int)
    requires Inv(s) && !BadSem(n)
    ensures NoDup(s.sem[n].waiters)
  {
  }

  /** Semaphores serve in order of arrival. In any run, of two processes waiting for one
      semaphore the later one is not released, short of being killed, while the earlier one
      still waits. */
  lemma {:induction false} FirstComeFirstServed(ss: seq<Sys>, sts: seq<Step>, n: int, p: int, q: int, k: nat)
    requires IsRun(ss, sts) && Inv(ss[0]) && !BadSem(n) && k < |ss|
    requires CameBefore(ss[0].sem[n].waiters, p, q)
    requires forall j :: 0 <= j < k ==> sts[j] != Kills(q)
    requires forall j :: 0 <= j <= k ==> p in ss[j].sem[n].waiters
    ensures Inv(ss[k]) && CameBefore(ss[k].sem[n].waiters, p, q)
  {
    hide Inv, Legal, Apply, CameBefore;
    if k > 0 {
      FirstComeFirstServed(ss, sts, n, p, q, k - 1);
      StepKeeps(ss[k - 1], sts[k - 1]);
      StepIsFair(ss[k - 1], sts[k - 1], n, p, q);
    }
  }

  // ------------------------------------------------------------------------------ effects

  /** A process that waits goes to the end of the list, unless the count lets it pass. */
  lemma WaitJoins(s: Sys, m: int)
    requires Inv(s) && s.cur != 0 && !BadSem(m) && s.sem[m].used
    ensures IsPid(s.cur)
    ensures
      var s2, w := Wait(s, m), s.sem[m].waiters;
      && s2.sem[m].cnt == s.sem[m].cnt - 1
      && (if s.sem[m].cnt > 0 then s2.sem[m].waiters == w && s2.cur == s.cur && St(s2, s.cur) == PRCURR
          else s2.sem[m].waiters == w + [s.cur] && St(s2, s.cur) == PRWAIT && s2.proc[s.cur].sem == m)
  {
    WaitKeeps(s, m);
    CurIsPid(s);
    hide Resched;
    var s2 := Wait(s, m);
    if s.sem[m].cnt <= 0 {
      var w2 := s2.sem[m].waiters;
      assert w2[|w2| - 1] == s.cur && s.cur in w2;
      assert AtHome(s2, s.cur);
    }
  }

  /** A signal releases the one that has waited longest, and no other. */
  lemma SignalReleases(s: Sys, m: int)
    requires Inv(s) && !BadSem(m) && s.sem[m].used
    ensures IsPid(s.cur)
    ensures
      var s2, w := Signal(s, m), s.sem[m].waiters;
      && s2.sem[m].cnt == s.sem[m].cnt + 1
      && (if s.sem[m].cnt >= 0 then s2 == Count(s, m, s.sem[m].cnt + 1)
          else w != [] && s2.sem[m].waiters == w[1..] && Awake(s2, w[0]))
  {
    CurIsPid(s);
    if s.sem[m].cnt < 0 {
      var w := s.sem[m].waiters;
      assert CountOk(s, m);
      WaiterNotNull(s, m, w[0]);
      hide Inv, Resched, InsertKey;
      ReschedAwake(SignalOne(s, m), w[0]);
    }
  }

  lemma {:induction false} AllReleased(s: Sys, m: int, ret: Option<int>, p: int)
    requires !BadSem(m) && IsPid(p) && (forall k :: 0 <= k < |s.sem[m].waiters| ==> 0 < s.sem[m].waiters[k] < NPROC)
    requires p in s.sem[m].waiters || (St(s, p) == PRREADY && (ret.Some? ==> s.proc[p].waitret == ret.value))
    ensures var s2 := ReleaseAll(s, m, ret); St(s2, p) == PRREADY && (ret.Some? ==> s2.proc[p].waitret == ret.value)
    decreases |s.sem[m].waiters|
  {
    var w := s.sem[m].waiters;
    if w != [] {
      var s1 := if ret.Some? && IsPid(w[0]) then s.(proc := s.proc[w[0] := s.proc[w[0]].(waitret := ret.value)]) else s;
      hide InsertKey;
      AllReleased(Release(s1, m), m, ret, p);
    }
  }

  lemma ReschedRest(s: Sys, p: int)
    requires IsPid(s.cur) && IsPid(p)
    ensures
      var e, e2 := s.proc[p], Resched(s).proc[p];
      e2 == e.(state := e2.state)
  {
    hide InsertKey, LastKey;
  }

  lemma WaitersArePids(s: Sys, m: int)
    requires Inv(s) && !BadSem(m)
    ensures forall k :: 0 <= k < |s.sem[m].waiters| ==> 0 < s.sem[m].waiters[k] < NPROC
  {
    forall k | 0 <= k < |s.sem[m].waiters|
      ensures 0 < s.sem[m].waiters[k] < NPROC
    {
      WaiterNotNull(s, m, s.sem[m].waiters[k]);
    }
  }

  /** Deleting a semaphore releases everyone who waits for it, with DELETED for an answer. */
  lemma DeleteReleases(s: Sys, m: int, p: int)
    requires Inv(s) && !BadSem(m) && s.sem[m].used && p in s.sem[m].waiters
    ensures IsPid(s.cur) && IsPid(p)
    ensures
      var s2 := Sdelete(s, m);
      !s2.sem[m].used && s2.sem[m].waiters == [] && Awake(s2, p) && s2.proc[p].waitret == DELETED
  {
    hide Inv, Resched, ReleaseAll;
    CurIsPid(s);
    WaitersArePids(s, m);
    var s1 := SetSem(s, m, s.sem[m].(used := false));
    var s2 := ReleaseAll(s1, m, Some(DELETED));
    AllReleased(s1, m, Some(DELETED), p);
    ReleaseAllWaiters(s1, m, Some(DELETED), m);
    ReschedAwake(s2, p);
    ReschedRest(s2, p);
  }

  /** Resetting it releases everyone and sets the count. */
  lemma ResetReleases(s: Sys, m: int, n: int, p: int)
    requires Inv(s) && !BadSem(m) && s.sem[m].used && n >= 0 && p in s.sem[m].waiters
    ensures IsPid(s.cur) && IsPid(p)
    ensures var s2 := Sreset(s, m, n); s2.sem[m].used && s2.sem[m].cnt == n && s2.sem[m].waiters == [] && Awake(s2, p)
  {
    hide Inv, Resched, ReleaseAll;
    CurIsPid(s);
    WaitersArePids(s, m);
    var s2 := ReleaseAll(s, m, None);
    AllReleased(s, m, None, p);
    ReleaseAllWaiters(s, m, None, m);
    ReschedAwake(Count(s2, m, n), p);
  }

  lemma InClock(s: Sys, p: int)
    requires Inv(s) && IsPid(p)
    ensures IsPid(s.cur) && Single(s.clock) && (Has(s.clock, p) <==> Sleepy(St(s, p)))
  {
    assert AtHome(s, p);
  }

  /** A message that is accepted reaches its receiver, and wakes it if it was waiting. */
  lemma SendDelivers(s: Sys, p: int, w: int)
    requires Inv(s) && !BadPid(p) && St(s, p) != PRFREE && !s.proc[p].hasmsg
    ensures IsPid(s.cur)
    ensures
      var s2 := Send(s, p, w);
      && s2.proc[p].hasmsg && s2.proc[p].msg == w
      && (St(s, p) == PRRECV || St(s, p) == PRTRECV ==> Awake(s2, p) && !Has(s2.clock, p))
  {
    hide Inv, Resched, Single, Has, Unsleep, InsertKey;
    InClock(s, p);
    var s1 := s.(proc := s.proc[p := s.proc[p].(hasmsg := true, msg := w)]);
    if St(s, p) == PRRECV {
      ReschedAwake(Ready(s1, p), p);
      ReschedRest(Ready(s1, p), p);
    } else if St(s, p) == PRTRECV {
      UnsleepExact(s.clock, p, p);
      ReschedAwake(Ready(Unqueue(s1, p), p), p);
      ReschedRest(Ready(Unqueue(s1, p), p), p);
    }
  }
}
