/** Agreement between process states and lists, and what moving one process does to it. */
module SchedInv {
  import opened Machine
  import opened DeltaList
  import opened QLists
  import opened QTable
  import opened Sched

  // ------------------------------------------------------------------------- the invariant

  predicate Sleepy(st: PState) { st == PRSLEEP || st == PRTRECV }

  /** A process is on the list its state names, and on no other. */
  ghost predicate AtHome(s: Sys, p: int)
    requires IsPid(p)
  {
    && (Has(s.ready, p) <==> St(s, p) == PRREADY)
    && (Has(s.clock, p) <==> Sleepy(St(s, p)))
    && (St(s, p) == PRWAIT ==> !BadSem(s.proc[p].sem))
    && forall m {:trigger s.sem[m]} :: !BadSem(m) ==> (p in s.sem[m].waiters <==> St(s, p) == PRWAIT && s.proc[p].sem == m)
  }

  predicate NoDup(w: seq<int>) { forall j, k :: 0 <= j < k < |w| ==> w[j] != w[k] }

  /** Lists hold processes, each at most once. */
  ghost predicate Listing(s: Sys) {
    && Single(s.ready) && Single(s.clock) && (forall m {:trigger s.sem[m]} :: !BadSem(m) ==> NoDup(s.sem[m].waiters))
    && (forall k :: 0 <= k < |s.ready| ==> IsPid(s.ready[k].pid))
    && (forall k :: 0 <= k < |s.clock| ==> IsPid(s.clock[k].pid))
    && (forall m, k :: !BadSem(m) && 0 <= k < |s.sem[m].waiters| ==> IsPid(s.sem[m].waiters[k]))
  }

  ghost predicate Homes(s: Sys) {
    Listing(s) && forall p {:trigger s.proc[p]} :: IsPid(p) ==> AtHome(s, p)
  }

  ghost predicate Nowhere(s: Sys, p: int) {
    !Has(s.ready, p) && !Has(s.clock, p) && forall m {:trigger s.sem[m]} :: !BadSem(m) ==> p !in s.sem[m].waiters
  }

  /** Process p is on no list, whatever its state says; all others are at home. */
  ghost predicate HomesBut(s: Sys, p: int) {
    IsPid(p) && Listing(s) && Nowhere(s, p) && forall q {:trigger s.proc[q]} :: IsPid(q) && q != p ==> AtHome(s, q)
  }

  /** One process runs, and it is currpid; with r false, none does. */
  ghost predicate CurrOk(s: Sys, r: bool) {
    IsPid(s.cur) && forall p {:trigger St(s, p)} {:trigger s.proc[p]} :: IsPid(p) ==> (St(s, p) == PRCURR <==> r && p == s.cur)
  }

  /** The ready list carries current priorities in order, and among equals the process that
      became ready first stands nearest the tail. */
  ghost predicate ReadyOk(s: Sys) {
    && (forall k :: 0 <= k < |s.ready| && IsPid(s.ready[k].pid) ==> s.ready[k].key == s.proc[s.ready[k].pid].prio)
    && (forall j, k :: 0 <= j < k < |s.ready| ==> s.ready[j].key <= s.ready[k].key)
    && (forall j, k :: 0 <= j < k < |s.ready| && s.ready[j].key == s.ready[k].key && IsPid(s.ready[j].pid) && IsPid(s.ready[k].pid) ==>
          s.stamp[s.ready[j].pid] > s.stamp[s.ready[k].pid])
    && (forall p {:trigger s.stamp[p]} :: IsPid(p) ==> s.stamp[p] < s.now)
  }

  /** The length of a semaphore's list is max(0, -semcnt); a free one has no list. */
  ghost predicate CountOk(s: Sys, m: int)
    requires !BadSem(m)
  {
    var x := s.sem[m];
    |x.waiters| == if x.used && x.cnt < 0 then -x.cnt else 0
  }

  ghost predicate Counts(s: Sys) { forall m {:trigger s.sem[m]} :: !BadSem(m) ==> CountOk(s, m) }

  predicate FlagsOk(s: Sys) {
    (s.slnempty <==> s.clock != []) && (s.clock != [] ==> s.sltop == s.clock[0].pid)
  }

  /** The null process has priority 0, every other one more. */
  ghost predicate PrioOk(s: Sys) {
    s.proc[0].prio == 0 && forall p {:trigger s.proc[p]} :: 0 < p < NPROC && St(s, p) != PRFREE ==> 1 <= s.proc[p].prio <= MAXINT
  }

  /** The null process can always run. */
  predicate NullOk(s: Sys) { St(s, 0) == PRCURR || St(s, 0) == PRREADY }

  /** A process that waits for a message has none. */
  ghost predicate MsgOk(s: Sys) {
    forall p {:trigger s.proc[p]} :: IsPid(p) && (St(s, p) == PRRECV || St(s, p) == PRTRECV) ==> !s.proc[p].hasmsg
  }

  ghost predicate MsgBut(s: Sys, p: int) {
    forall q {:trigger s.proc[q]} :: IsPid(q) && q != p && (St(s, q) == PRRECV || St(s, q) == PRTRECV) ==> !s.proc[q].hasmsg
  }

  /** No ready process outranks the running one. */
  ghost predicate PriOk(s: Sys) {
    IsPid(s.cur) && forall p {:trigger St(s, p)} {:trigger s.proc[p]} :: IsPid(p) && St(s, p) == PRREADY ==> s.proc[p].prio <= s.proc[s.cur].prio
  }

  ghost predicate Base(s: Sys) { Homes(s) && ReadyOk(s) && NullOk(s) && PrioOk(s) && MsgOk(s) && Natural(s.clock) }

  /** What must hold of the rest while process p is being moved. */
  ghost predicate Loose(s: Sys, p: int) {
    && HomesBut(s, p) && ReadyOk(s) && PrioOk(s) && MsgBut(s, p) && Natural(s.clock) && (p == 0 || NullOk(s))
    && (p == 0 || 1 <= s.proc[p].prio <= MAXINT)
  }

  ghost predicate Inv(s: Sys) { Base(s) && Counts(s) && FlagsOk(s) && CurrOk(s, true) && PriOk(s) }

  // ------------------------------------------------------------------------ list membership

  lemma InsertKeyHas(d: seq<Entry>, p: int, key: int, q: int)
    ensures Has(InsertKey(d, p, key), q) <==> Has(d, q) || q == p
    ensures Single(d) && !Has(d, p) ==> Single(InsertKey(d, p, key))
  {
    var k, r := KeyPos(d, key, 0), InsertKey(d, p, key);
    forall j {:trigger r[j]} | 0 <= j < |r|
      ensures r[j] == if j < k then d[j] else if j == k then Entry(p, key) else d[j - 1]
    {
    }
    if Has(d, q) {
      var j :| 0 <= j < |d| && d[j].pid == q;
      assert r[if j < k then j else j + 1].pid == q;
    }
    if q == p { assert r[k].pid == q; }
  }

  lemma InsertKeySorted(d: seq<Entry>, p: int, key: int)
    requires forall j, k :: 0 <= j < k < |d| ==> d[j].key <= d[k].key
    ensures var r := InsertKey(d, p, key); forall j, k :: 0 <= j < k < |r| ==> r[j].key <= r[k].key
  {
    var n, r := KeyPos(d, key, 0), InsertKey(d, p, key);
    forall j {:trigger r[j]} | 0 <= j < |r|
      ensures r[j] == if j < n then d[j] else if j == n then Entry(p, key) else d[j - 1]
    {
    }
  }

  lemma {:induction false} DropHas(d: seq<Entry>, p: int, q: int)
    requires Single(d)
    ensures Has(Drop(d, p), q) <==> Has(d, q) && q != p
    ensures Single(Drop(d, p))
    decreases |d|
  {
    if d != [] {
      HasTail(d, q);
      HasTail(d, p);
      if d[0].pid != p {
        DropHas(d[1..], p, q);
        DropHas(d[1..], p, d[0].pid);
        HasCons(d[0], Drop(d[1..], p), q);
      }
    }
  }

  /** Dropping an entry is taking out one position. */
  lemma {:induction false} DropAt(d: seq<Entry>, p: int) returns (k: nat)
    requires Single(d)
    ensures k <= |d| && Drop(d, p) == (if k < |d| then d[..k] + d[k + 1..] else d)
    ensures k < |d| ==> d[k].pid == p
    decreases |d|
  {
    if d == [] {
      k := 0;
    } else if d[0].pid == p {
      k := 0;
    } else {
      k := DropAt(d[1..], p);
      k := k + 1;
      if k < |d| { assert d[1..][..k - 1] == d[1..k] && d[1..][k..] == d[k + 1..]; }
    }
  }

  lemma {:induction false} CancelHas(w: seq<int>, p: int, q: int)
    requires NoDup(w)
    ensures q in Cancel(w, p) <==> q in w && q != p
    ensures NoDup(Cancel(w, p))
    ensures |Cancel(w, p)| == if p in w then |w| - 1 else |w|
    decreases |w|
  {
    if w != [] {
      assert w == [w[0]] + w[1..];
      if w[0] != p {
        CancelHas(w[1..], p, q);
        CancelHas(w[1..], p, w[0]);
      } else {
        assert p !in w[1..];
      }
    }
  }

  // ------------------------------------------------------------------ moving one process

  /** A process on no list takes a state that has no list. */
  lemma SettleHomes(s: Sys, p: int, st: PState)
    requires HomesBut(s, p) && st != PRREADY && st != PRWAIT && !Sleepy(st)
    ensures Homes(SetState(s, p, st))
  {
    var s2 := SetState(s, p, st);
    forall q | IsPid(q)
      ensures AtHome(s2, q)
    {
      assert q != p ==> AtHome(s, q);
    }
  }

  /** A process whose state has no list is on none. */
  lemma HomelessNowhere(s: Sys, p: int)
    requires Homes(s) && IsPid(p) && St(s, p) != PRREADY && St(s, p) != PRWAIT && !Sleepy(St(s, p))
    ensures HomesBut(s, p)
  {
    assert AtHome(s, p);
    assert Nowhere(s, p);
    forall q | IsPid(q)
      ensures AtHome(s, q)
    {
    }
  }

  lemma ReadyHomes(s: Sys, p: int)
    requires HomesBut(s, p)
    ensures Homes(MakeReady(s, p))
  {
    var s2 := MakeReady(s, p);
    InsertKeyHas(s.ready, p, s.proc[p].prio, p);
    forall q | IsPid(q)
      ensures AtHome(s2, q)
    {
      InsertKeyHas(s.ready, p, s.proc[p].prio, q);
      assert q != p ==> AtHome(s, q);
    }
    forall k | 0 <= k < |s2.ready|
      ensures IsPid(s2.ready[k].pid)
    {
      InsertKeyHas(s.ready, p, s.proc[p].prio, s2.ready[k].pid);
      assert Has(s2.ready, s2.ready[k].pid);
    }
  }

  /** Where insert puts the entry, seen from the new list. */
  lemma InsertKeyAt(d: seq<Entry>, p: int, key: int)
    ensures
      var n, r := KeyPos(d, key, 0), InsertKey(d, p, key);
      && n <= |d| && |r| == |d| + 1 && (n < |d| ==> d[n].key >= key) && (forall j {:trigger d[j]} :: 0 <= j < n ==> d[j].key < key)
      && forall j {:trigger r[j]} :: 0 <= j < |r| ==> r[j] == if j < n then d[j] else if j == n then Entry(p, key) else d[j - 1]
  {
  }

  lemma ReadyTies(s: Sys, p: int, j: int, k: int)
    requires ReadyOk(s) && IsPid(p) && !Has(s.ready, p)
    requires
      var r := MakeReady(s, p).ready;
      0 <= j < k < |r| && r[j].key == r[k].key && IsPid(r[j].pid) && IsPid(r[k].pid)
    ensures
      var s2 := MakeReady(s, p);
      s2.stamp[s2.ready[j].pid] > s2.stamp[s2.ready[k].pid]
  {
    hide InsertKey, KeyPos, Has;
    var key := s.proc[p].prio;
    var n, d, r := KeyPos(s.ready, key, 0), s.ready, InsertKey(s.ready, p, key);
    InsertKeyAt(d, p, key);
    assert r[j] == r[j] && r[k] == r[k];
    var k0 := if k < n then k else k - 1;
    if k != n { NotThere(d, k0, p); }
    if j != n && k != n {
      var j0 := if j < n then j else j - 1;
      NotThere(d, j0, p);
      assert d[j0].key == d[k0].key && j0 < k0;
    }
  }

  lemma NotThere(d: seq<Entry>, k: nat, p: int)
    requires k < |d| && !Has(d, p)
    ensures d[k].pid != p
  {
  }

  lemma ReadyOrder(s: Sys, p: int)
    requires ReadyOk(s) && IsPid(p) && !Has(s.ready, p)
    ensures ReadyOk(MakeReady(s, p))
  {
    hide InsertKey, KeyPos, Has;
    var key := s.proc[p].prio;
    var n, d, s2 := KeyPos(s.ready, key, 0), s.ready, MakeReady(s, p);
    InsertKeyAt(d, p, key);
    InsertKeySorted(d, p, key);
    forall k | 0 <= k < |s2.ready| && IsPid(s2.ready[k].pid)
      ensures s2.ready[k].key == s2.proc[s2.ready[k].pid].prio
    {
      assert k != n ==> s2.ready[k] == d[if k < n then k else k - 1];
    }
    forall j, k | 0 <= j < k < |s2.ready| && s2.ready[j].key == s2.ready[k].key && IsPid(s2.ready[j].pid) && IsPid(s2.ready[k].pid)
      ensures s2.stamp[s2.ready[j].pid] > s2.stamp[s2.ready[k].pid]
    {
      ReadyTies(s, p, j, k);
    }
  }

  /** The tail of the ready list leaves it. */
  lemma LastLeaves(s: Sys)
    requires Homes(s) && s.ready != []
    ensures var n := |s.ready| - 1; HomesBut(s.(ready := s.ready[..n]), s.ready[n].pid)
  {
    var n := |s.ready| - 1;
    var p, s2 := s.ready[n].pid, s.(ready := s.ready[..n]);
    forall q
      ensures Has(s2.ready, q) <==> Has(s.ready, q) && q != p
    {
      if Has(s.ready, q) && q != p {
        var k :| 0 <= k < |s.ready| && s.ready[k].pid == q;
        assert s2.ready[k].pid == q;
      }
      if Has(s2.ready, q) {
        var k :| 0 <= k < n && s2.ready[k].pid == q;
        assert s.ready[k].pid == q;
      }
    }
    assert AtHome(s, p) && Has(s.ready, p);
    forall q | IsPid(q) && q != p
      ensures AtHome(s2, q)
    {
      assert AtHome(s, q);
    }
  }

  lemma UnreadyHomes(s: Sys, p: int)
    requires Homes(s) && IsPid(p) && St(s, p) == PRREADY
    ensures HomesBut(Unready(s, p), p)
  {
    var s2 := Unready(s, p);
    assert AtHome(s, p);
    var k := DropAt(s.ready, p);
    forall q
      ensures Has(s2.ready, q) <==> Has(s.ready, q) && q != p
    {
      DropHas(s.ready, p, q);
    }
    DropHas(s.ready, p, p);
    forall q | IsPid(q) && q != p
      ensures AtHome(s2, q)
    {
      assert AtHome(s, q);
    }
  }

  /** The list without entry k; its entries are where they were or one further on. */
  function Dropped(d: seq<Entry>, k: nat): (r: seq<Entry>)
    requires k < |d|
    ensures |r| == |d| - 1 && forall j {:trigger r[j]} :: 0 <= j < |r| ==> r[j] == d[if j < k then j else j + 1]
  {
    d[..k] + d[k + 1..]
  }

  lemma DroppedKeys(d: seq<Entry>, k: nat, procs: Procs)
    requires k < |d| && forall j :: 0 <= j < |d| && IsPid(d[j].pid) ==> d[j].key == procs[d[j].pid].prio
    ensures var r := Dropped(d, k); forall j :: 0 <= j < |r| && IsPid(r[j].pid) ==> r[j].key == procs[r[j].pid].prio
  {
    hide Dropped;
  }

  lemma DroppedRises(d: seq<Entry>, k: nat)
    requires k < |d| && forall i, j :: 0 <= i < j < |d| ==> d[i].key <= d[j].key
    ensures var r := Dropped(d, k); forall i, j :: 0 <= i < j < |r| ==> r[i].key <= r[j].key
  {
    hide Dropped;
  }

  lemma DroppedTies(d: seq<Entry>, k: nat, stamp: Stamps)
    requires k < |d| && forall i, j :: 0 <= i < j < |d| && d[i].key == d[j].key && IsPid(d[i].pid) && IsPid(d[j].pid) ==>
      stamp[d[i].pid] > stamp[d[j].pid]
    ensures var r := Dropped(d, k);
      forall i, j :: 0 <= i < j < |r| && r[i].key == r[j].key && IsPid(r[i].pid) && IsPid(r[j].pid) ==>
        stamp[r[i].pid] > stamp[r[j].pid]
  {
    hide Dropped;
  }

  lemma UnreadyOrder(s: Sys, p: int)
    requires ReadyOk(s) && Single(s.ready)
    ensures ReadyOk(Unready(s, p))
  {
    hide Dropped, Drop;
    var k := DropAt(s.ready, p);
    if k < |s.ready| {
      UnreadyIs(s, p, k);
      DroppedKeys(s.ready, k, s.proc);
      DroppedRises(s.ready, k);
      DroppedTies(s.ready, k, s.stamp);
    }
  }

  lemma UnreadyIs(s: Sys, p: int, k: nat)
    requires k < |s.ready| && Drop(s.ready, p) == s.ready[..k] + s.ready[k + 1..]
    ensures Unready(s, p) == s.(ready := Dropped(s.ready, k))
  {
  }

  /** The first waiter of a semaphore leaves its list. */
  lemma WaiterLeaves(s: Sys, m: int)
    requires Homes(s) && !BadSem(m) && s.sem[m].waiters != []
    ensures var w := s.sem[m].waiters; HomesBut(SetSem(s, m, s.sem[m].(waiters := w[1..])), w[0])
  {
    var w := s.sem[m].waiters;
    var p, s2 := w[0], SetSem(s, m, s.sem[m].(waiters := w[1..]));
    assert w == [p] + w[1..];
    assert p !in w[1..];
    assert AtHome(s, p) && p in s.sem[m].waiters;
    forall q | IsPid(q) && q != p
      ensures AtHome(s2, q)
    {
      assert AtHome(s, q);
    }
    assert NoDup(w[1..]);
  }

  lemma WaiterCancelled(s: Sys, p: int, cnt: int)
    requires Homes(s) && IsPid(p) && St(s, p) == PRWAIT
    ensures var m := s.proc[p].sem;
      !BadSem(m) && HomesBut(SetSem(s, m, Sem(s.sem[m].used, cnt, Cancel(s.sem[m].waiters, p))), p)
  {
    assert AtHome(s, p);
    var m := s.proc[p].sem;
    var w := s.sem[m].waiters;
    var s2 := SetSem(s, m, Sem(s.sem[m].used, cnt, Cancel(w, p)));
    forall q
      ensures q in Cancel(w, p) <==> q in w && q != p
    {
      CancelHas(w, p, q);
    }
    CancelHas(w, p, p);
    forall k | 0 <= k < |Cancel(w, p)|
      ensures IsPid(Cancel(w, p)[k])
    {
      assert Cancel(w, p)[k] in w;
    }
    forall q | IsPid(q) && q != p
      ensures AtHome(s2, q)
    {
      assert AtHome(s, q);
    }
  }

  /** A process joins the list of a semaphore. */
  lemma WaiterJoins(s: Sys, p: int, m: int, pr: PEntry, cnt: int)
    requires HomesBut(s, p) && !BadSem(m) && pr.state == PRWAIT && pr.sem == m
    ensures
      var x := s.sem[m];
      Homes(s.(proc := s.proc[p := pr], sem := s.sem[m := x.(cnt := cnt, waiters := x.waiters + [p])]))
  {
    var x := s.sem[m];
    var s2 := s.(proc := s.proc[p := pr], sem := s.sem[m := x.(cnt := cnt, waiters := x.waiters + [p])]);
    assert p !in s.sem[m].waiters;
    forall q | IsPid(q)
      ensures AtHome(s2, q)
    {
      assert q != p ==> AtHome(s, q);
    }
  }

  /** The head of the sleep queue leaves it. */
  lemma SleeperLeaves(s: Sys)
    requires Homes(s) && s.clock != []
    ensures HomesBut(s.(clock := s.clock[1..]), s.clock[0].pid)
  {
    var p, s2 := s.clock[0].pid, s.(clock := s.clock[1..]);
    forall q
      ensures Has(s2.clock, q) <==> Has(s.clock, q) && q != p
    {
      HasTail(s.clock, q);
    }
    HasTail(s.clock, p);
    assert AtHome(s, p);
    forall q | IsPid(q) && q != p
      ensures AtHome(s2, q)
    {
      assert AtHome(s, q);
    }
  }

  /** unsleep takes a process out of the sleep queue. */
  lemma UnqueueHomes(s: Sys, p: int)
    requires Homes(s) && IsPid(p) && Sleepy(St(s, p))
    ensures HomesBut(Unqueue(s, p), p) && (Natural(s.clock) ==> Natural(Unqueue(s, p).clock))
  {
    var s2 := Unqueue(s, p);
    assert AtHome(s, p);
    forall q
      ensures Has(s2.clock, q) <==> Has(s.clock, q) && q != p
    {
      UnsleepExact(s.clock, p, q);
    }
    UnsleepExact(s.clock, p, p);
    EntriesArePids(s2.clock, s.clock);
    forall q | IsPid(q) && q != p
      ensures AtHome(s2, q)
    {
      assert AtHome(s, q);
    }
  }

  /** A list whose members come from lists of processes is one. */
  lemma EntriesArePids(d: seq<Entry>, e: seq<Entry>)
    requires forall q {:trigger Has(d, q)} :: Has(d, q) ==> Has(e, q) || IsPid(q)
    requires forall k :: 0 <= k < |e| ==> IsPid(e[k].pid)
    ensures forall k :: 0 <= k < |d| ==> IsPid(d[k].pid)
  {
    forall k | 0 <= k < |d|
      ensures IsPid(d[k].pid)
    {
      assert Has(d, d[k].pid);
    }
  }

  /** insertd puts a process into the sleep queue. */
  lemma DozeHomes(s: Sys, n: int, st: PState)
    requires HomesBut(s, s.cur) && Sleepy(st)
    ensures Homes(Doze(s, n, st)) && (Natural(s.clock) && n >= 0 ==> Natural(Doze(s, n, st).clock))
  {
    var p, s2 := s.cur, Doze(s, n, st);
    forall q
      ensures Has(s2.clock, q) <==> Has(s.clock, q) || q == p
    {
      InsertdHas(s.clock, p, n, q);
    }
    InsertdOrder(s.clock, p, n);
    EntriesArePids(s2.clock, s.clock);
    forall q | IsPid(q)
      ensures AtHome(s2, q)
    {
      assert q != p ==> AtHome(s, q);
    }
  }
}
