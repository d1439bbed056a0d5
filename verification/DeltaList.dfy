/** The delta list of sleeping processes: sys/insertd.c, sys/unsleep.c, sys/clkint.S,
    sys/wakeup.c and sys/ssclock.c as functions on a sequence of entries, each holding the
    ticks it adds to the one before. */
module DeltaList {

  datatype Entry = Entry(pid: int, key: int)

  function Pids(d: seq<Entry>): (r: seq<int>)
    ensures |r| == |d| && forall k :: 0 <= k < |d| ==> r[k] == d[k].pid
  {
    seq(|d|, k requires 0 <= k < |d| => d[k].pid)
  }

  predicate Has(d: seq<Entry>, p: int) { exists k | 0 <= k < |d| :: d[k].pid == p }

  /** No process twice. */
  predicate Single(d: seq<Entry>) { forall j, k :: 0 <= j < k < |d| ==> d[j].pid != d[k].pid }

  /** The ticks until process p wakes: the keys up to its own. */
  function Remaining(d: seq<Entry>, p: int): int {
    if d == [] then 0 else if d[0].pid == p then d[0].key else d[0].key + Remaining(d[1..], p)
  }

  function Total(d: seq<Entry>): int { if d == [] then 0 else d[0].key + Total(d[1..]) }

  predicate Natural(d: seq<Entry>) { forall k :: 0 <= k < |d| ==> d[k].key >= 0 }

  /** Between ticks: no key is negative, and the first is at least one. */
  predicate Ahead(d: seq<Entry>) { Natural(d) && (d != [] ==> d[0].key >= 1) }

  // ------------------------------------------------------------------------- operations

  /** `insertd`: past the entries with a smaller key, each of which uses up its own; the
      entry after the new one gives up what the new one takes. */
  function Insertd(d: seq<Entry>, p: int, key: int): (r: seq<Entry>)
    ensures |r| == |d| + 1
  {
    if d == [] then [Entry(p, key)]
    else if d[0].key < key then [d[0]] + Insertd(d[1..], p, key - d[0].key)
    else [Entry(p, key), Entry(d[0].pid, d[0].key - key)] + d[1..]
  }

  /** The list part of `unsleep`: what is left of the key goes to the next entry. */
  function Unsleep(d: seq<Entry>, p: int): seq<Entry> {
    if d == [] then []
    else if d[0].pid != p then [d[0]] + Unsleep(d[1..], p)
    else if |d| == 1 then []
    else [Entry(d[1].pid, d[1].key + d[0].key)] + d[2..]
  }

  /** The processes that `wakeup` readies, in order: those at the front with no ticks left. */
  function Woken(d: seq<Entry>): seq<int> {
    if d == [] || d[0].key > 0 then [] else [d[0].pid] + Woken(d[1..])
  }

  function Asleep(d: seq<Entry>): (r: seq<Entry>)
    ensures |r| <= |d|
  {
    if d == [] || d[0].key > 0 then d else Asleep(d[1..])
  }

  function Decrement(d: seq<Entry>): seq<Entry>
    requires d != []
  {
    [Entry(d[0].pid, d[0].key - 1)] + d[1..]
  }

  /** One clock interrupt: the processes it readies and the list it leaves. */
  function Tick(d: seq<Entry>): (seq<int>, seq<Entry>) {
    if d == [] then ([], [])
    else
      var d1 := Decrement(d);
      if d1[0].key <= 0 then (Woken(d1), Asleep(d1)) else ([], d1)
  }

  function TickTimes(d: seq<Entry>, m: nat): (seq<int>, seq<Entry>)
    decreases m
  {
    if m == 0 then ([], d)
    else
      var (w1, d1) := Tick(d);
      var (w2, d2) := TickTimes(d1, m - 1);
      (w1 + w2, d2)
  }

  /** The loop of `strtclk`: m ticks are taken from the front. */
  function Advance(d: seq<Entry>, m: int): (r: seq<Entry>)
    ensures |r| == |d|
  {
    if d == [] then []
    else if d[0].key < m then [Entry(d[0].pid, 0)] + Advance(d[1..], m - d[0].key)
    else [Entry(d[0].pid, d[0].key - m)] + d[1..]
  }

  /** `strtclk` with a backlog of m ticks: the processes it readies and the list it leaves. */
  function CatchUp(d: seq<Entry>, m: int): (seq<int>, seq<Entry>) {
    if d == [] then ([], []) else (Woken(Advance(d, m)), Asleep(Advance(d, m)))
  }

  // -------------------------------------------------------------------------- membership

  lemma HasTail(d: seq<Entry>, p: int)
    requires d != []
    ensures Has(d, p) <==> d[0].pid == p || Has(d[1..], p)
    ensures Single(d) ==> Single(d[1..]) && !Has(d[1..], d[0].pid)
  {
    if Has(d[1..], p) {
      var k :| 0 <= k < |d| - 1 && d[1..][k].pid == p;
      assert d[k + 1].pid == p;
    }
    if Has(d, p) && d[0].pid != p {
      var k :| 0 <= k < |d| && d[k].pid == p;
      assert d[1..][k - 1].pid == p;
    }
  }

  lemma HasCons(e: Entry, d: seq<Entry>, p: int)
    ensures Has([e] + d, p) <==> e.pid == p || Has(d, p)
    ensures ([e] + d)[1..] == d
    ensures Single(d) && !Has(d, e.pid) ==> Single([e] + d)
  {
    assert ([e] + d)[1..] == d;
    HasTail([e] + d, p);
    if Single(d) && !Has(d, e.pid) {
      forall j, k | 0 <= j < k < |d| + 1
        ensures ([e] + d)[j].pid != ([e] + d)[k].pid
      {
        if j == 0 { assert d[k - 1].pid != e.pid; }
      }
    }
  }

  // --------------------------------------------------------------------------- deadlines

  lemma {:induction false} InsertdHas(d: seq<Entry>, p: int, key: int, q: int)
    ensures Has(Insertd(d, p, key), q) <==> Has(d, q) || q == p
    decreases |d|
  {
    if d == [] {
      HasCons(Entry(p, key), [], q);
    } else {
      HasTail(d, q);
      if d[0].key < key {
        InsertdHas(d[1..], p, key - d[0].key, q);
        HasCons(d[0], Insertd(d[1..], p, key - d[0].key), q);
      } else {
        var e := Entry(d[0].pid, d[0].key - key);
        HasCons(e, d[1..], q);
        HasCons(Entry(p, key), [e] + d[1..], q);
        assert Insertd(d, p, key) == [Entry(p, key)] + ([e] + d[1..]);
      }
    }
  }

  lemma InsertdPast(d: seq<Entry>, p: int, key: int)
    requires d != [] && d[0].key < key
    ensures Insertd(d, p, key) == [d[0]] + Insertd(d[1..], p, key - d[0].key)
  {
  }

  lemma InsertdHere(d: seq<Entry>, p: int, key: int)
    requires d == [] || d[0].key >= key
    ensures Insertd(d, p, key) ==
      [Entry(p, key)] + if d == [] then [] else [Entry(d[0].pid, d[0].key - key)] + d[1..]
  {
  }

  lemma {:induction false} InsertdSingle(d: seq<Entry>, p: int, key: int)
    requires Single(d) && !Has(d, p)
    ensures Single(Insertd(d, p, key))
    decreases |d|
  {
    hide Single, Has, Insertd;
    if d == [] {
      InsertdHere(d, p, key);
      HasCons(Entry(p, key), [], p);
    } else {
      HasTail(d, p);
      HasTail(d, d[0].pid);
      if d[0].key < key {
        InsertdPast(d, p, key);
        InsertdSingle(d[1..], p, key - d[0].key);
        InsertdHas(d[1..], p, key - d[0].key, d[0].pid);
        HasCons(d[0], Insertd(d[1..], p, key - d[0].key), p);
      } else {
        InsertdHere(d, p, key);
        var e := Entry(d[0].pid, d[0].key - key);
        HasCons(e, d[1..], p);
        HasCons(Entry(p, key), [e] + d[1..], p);
      }
    }
  }

  lemma {:induction false} InsertdNatural(d: seq<Entry>, p: int, key: int)
    requires Natural(d) && key >= 0
    ensures Natural(Insertd(d, p, key))
    decreases |d|
  {
    if d != [] && d[0].key < key {
      InsertdNatural(d[1..], p, key - d[0].key);
    }
  }

  lemma InsertdOrder(d: seq<Entry>, p: int, key: int)
    ensures Single(d) && !Has(d, p) ==> Single(Insertd(d, p, key))
    ensures Natural(d) && key >= 0 ==> Natural(Insertd(d, p, key))
    ensures Ahead(d) && key >= 1 ==> Ahead(Insertd(d, p, key))
  {
    hide Single, Has, Natural;
    if Single(d) && !Has(d, p) { InsertdSingle(d, p, key); }
    if Natural(d) && key >= 0 { InsertdNatural(d, p, key); }
  }

  /** insertd adds the process with exactly the delay it asks for and changes no other's. */
  lemma {:induction false} InsertdExact(d: seq<Entry>, p: int, key: int, q: int)
    requires !Has(d, p)
    ensures Has(Insertd(d, p, key), q) <==> Has(d, q) || q == p
    ensures Remaining(Insertd(d, p, key), p) == key
    ensures Has(d, q) ==> Remaining(Insertd(d, p, key), q) == Remaining(d, q)
    decreases |d|
  {
    hide Insertd;
    InsertdHas(d, p, key, q);
    if d == [] {
      InsertdHere(d, p, key);
    } else {
      HasTail(d, p);
      HasTail(d, q);
      if d[0].key < key {
        InsertdPast(d, p, key);
        InsertdExact(d[1..], p, key - d[0].key, q);
        HasCons(d[0], Insertd(d[1..], p, key - d[0].key), q);
      } else {
        InsertdHere(d, p, key);
        var e := Entry(d[0].pid, d[0].key - key);
        HasCons(e, d[1..], q);
        HasCons(Entry(p, key), [e] + d[1..], q);
      }
    }
  }

  /** unsleep removes the process and changes no other's remaining time. */
  lemma {:induction false} UnsleepExact(d: seq<Entry>, p: int, q: int)
    requires Single(d) && Has(d, p)
    ensures Has(Unsleep(d, p), q) <==> Has(d, q) && q != p
    ensures Has(d, q) && q != p ==> Remaining(Unsleep(d, p), q) == Remaining(d, q)
    ensures Single(Unsleep(d, p))
    ensures Natural(d) ==> Natural(Unsleep(d, p))
    ensures Ahead(d) ==> Ahead(Unsleep(d, p))
    decreases |d|
  {
    HasTail(d, p);
    HasTail(d, q);
    HasTail(d, d[0].pid);
    if d[0].pid != p {
      UnsleepExact(d[1..], p, q);
      UnsleepExact(d[1..], p, d[0].pid);
      HasCons(d[0], Unsleep(d[1..], p), q);
    } else if |d| > 1 {
      var e := Entry(d[1].pid, d[1].key + d[0].key);
      HasTail(d[1..], q);
      HasTail(d[1..], d[1].pid);
      assert d[1..][1..] == d[2..];
      HasCons(e, d[2..], q);
    }
  }

  /** wakeup takes from the front those that have no ticks left. */
  lemma {:induction false} WakeSplits(d: seq<Entry>, p: int)
    requires Single(d)
    ensures Has(d, p) <==> p in Woken(d) || Has(Asleep(d), p)
    ensures !(p in Woken(d) && Has(Asleep(d), p))
    ensures Single(Asleep(d))
    ensures Asleep(d) != [] ==> Asleep(d)[0].key > 0
    ensures Natural(d) ==> Ahead(Asleep(d))
    ensures Natural(d) && Has(d, p) ==>
      (p in Woken(d) <==> Remaining(d, p) <= 0) && (Has(Asleep(d), p) ==> Remaining(Asleep(d), p) == Remaining(d, p))
    decreases |d|
  {
    if d != [] {
      HasTail(d, p);
      if d[0].key <= 0 {
        WakeSplits(d[1..], p);
        WakeSplits(d[1..], d[0].pid);
      } else if Natural(d) && Has(d, p) {
        RemainingNatural(d[1..], p);
      }
    }
  }

  lemma {:induction false} RemainingNatural(d: seq<Entry>, p: int)
    requires Natural(d)
    ensures 0 <= Remaining(d, p) <= Total(d)
    ensures Ahead(d) && Has(d, p) ==> Remaining(d, p) >= 1
    ensures Total(d) == 0 <==> forall k :: 0 <= k < |d| ==> d[k].key == 0
    decreases |d|
  {
    if d != [] {
      HasTail(d, p);
      RemainingNatural(d[1..], p);
      assert forall k :: 0 <= k < |d| ==> d[k].key == if k == 0 then d[0].key else d[1..][k - 1].key;
    }
  }

  lemma DecrementEffect(d: seq<Entry>, p: int)
    requires d != []
    ensures Has(Decrement(d), p) <==> Has(d, p)
    ensures Has(d, p) ==> Remaining(Decrement(d), p) == Remaining(d, p) - 1
    ensures Single(d) ==> Single(Decrement(d))
  {
    HasTail(d, p);
    HasTail(d, d[0].pid);
    HasCons(Entry(d[0].pid, d[0].key - 1), d[1..], p);
  }

  /** What a tick promises: it readies exactly the processes with at most one tick to go, and
      leaves every other one a tick less. */
  ghost predicate TickRight(d: seq<Entry>) {
    var (w, r) := Tick(d);
    forall p {:trigger Has(d, p)} :: Has(d, p) ==>
      (p in w <==> Remaining(d, p) <= 1) && (Has(r, p) <==> Remaining(d, p) > 1)
      && (Has(r, p) ==> Remaining(r, p) == Remaining(d, p) - 1)
  }

  /** A tick on a list whose first key is positive. */
  lemma TickExact(d: seq<Entry>)
    requires Single(d) && Ahead(d)
    ensures TickRight(d) && Single(Tick(d).1) && Ahead(Tick(d).1)
    ensures forall p {:trigger p in Tick(d).0} :: p in Tick(d).0 ==> Has(d, p)
  {
    if d != [] {
      var d1 := Decrement(d);
      DecrementEffect(d, d[0].pid);
      WakeSplits(d1, d[0].pid);
      forall p
        ensures Has(d1, p) <==> Has(d, p)
        ensures Has(d, p) ==> Remaining(d1, p) == Remaining(d, p) - 1
        ensures Has(d1, p) <==> p in Woken(d1) || Has(Asleep(d1), p)
        ensures Has(d, p) ==> (p in Woken(d1) <==> Remaining(d1, p) <= 0)
        ensures Has(d, p) && Has(Asleep(d1), p) ==> p !in Woken(d1) && Remaining(Asleep(d1), p) == Remaining(d1, p)
      {
        DecrementEffect(d, p);
        WakeSplits(d1, p);
      }
      if d1[0].key > 0 {
        forall p | Has(d, p)
          ensures Remaining(d1, p) > 0
        {
          RemainingNatural(d1, p);
        }
      }
    }
  }

  /** A zero key in front, as recvtim(0) leaves it, costs everyone behind it a tick: the
      first process wakes, and the rest keep their times. */
  lemma ZeroSlips(d: seq<Entry>)
    requires Single(d) && Natural(d) && d != [] && d[0].key == 0
    ensures Tick(d) == ([d[0].pid] + Woken(d[1..]), Asleep(d[1..]))
    ensures forall p {:trigger Has(Tick(d).1, p)} :: Has(Tick(d).1, p) ==> Remaining(Tick(d).1, p) == Remaining(d, p)
  {
    assert Decrement(d)[1..] == d[1..];
    forall p | Has(Asleep(d[1..]), p)
      ensures Remaining(Asleep(d[1..]), p) == Remaining(d, p)
    {
      HasTail(d, p);
      WakeSplits(d[1..], p);
    }
  }

  /** A tick does what it promises exactly when the list is empty, its first key is positive,
      or nobody on it has any ticks left. */
  lemma TickRightWhen(d: seq<Entry>)
    requires Single(d) && Natural(d)
    ensures TickRight(d) <==> d == [] || d[0].key >= 1 || Total(d) == 0
  {
    if Ahead(d) {
      TickExact(d);
    } else {
      ZeroSlips(d);
      assert Decrement(d)[1..] == d[1..];
      if Total(d) == 0 {
        forall p | Has(d, p)
          ensures Remaining(d, p) == 0 && p in Tick(d).0 && !Has(Tick(d).1, p)
        {
          RemainingNatural(d, p);
          HasTail(d, p);
          WakeSplits(d[1..], p);
          RemainingNatural(d[1..], p);
        }
      } else {
        ZeroBreaks(d);
      }
    }
  }

  lemma ZeroBreaks(d: seq<Entry>)
    requires Single(d) && Natural(d) && d != [] && d[0].key == 0 && Total(d) != 0
    ensures !TickRight(d)
  {
    var p := d[|d| - 1].pid;
    Latest(d);
    RemainingNatural(d, p);
    HasTail(d, p);
    ZeroSlips(d);
    WakeSplits(d[1..], p);
    assert Has(d, p) && Has(Asleep(d[1..]), p);
  }

  /** The last process on the list has the sum of all keys to wait. */
  lemma {:induction false} Latest(d: seq<Entry>)
    requires Single(d) && d != []
    ensures Has(d, d[|d| - 1].pid) && Remaining(d, d[|d| - 1].pid) == Total(d)
    decreases |d|
  {
    if |d| > 1 {
      Latest(d[1..]);
      assert d[0].pid != d[|d| - 1].pid;
    }
  }

  // --------------------------------------------------------------------- any interleaving

  datatype Event = Sleeps(pid: int, ticks: int) | Leaves(pid: int) | Ticks

  /** A sleeper asks for at least one tick and is not asleep yet; one that leaves early is. */
  predicate Possible(d: seq<Entry>, e: Event) {
    match e
    case Sleeps(p, n) => n >= 1 && !Has(d, p)
    case Leaves(p) => Has(d, p)
    case Ticks => true
  }

  function After(d: seq<Entry>, e: Event): seq<Entry> {
    match e
    case Sleeps(p, n) => Insertd(d, p, n)
    case Leaves(p) => Unsleep(d, p)
    case Ticks => Tick(d).1
  }

  ghost predicate IsHistory(ds: seq<seq<Entry>>, es: seq<Event>) {
    |ds| == |es| + 1 && forall k :: 0 <= k < |es| ==> Possible(ds[k], es[k]) && ds[k + 1] == After(ds[k], es[k])
  }

  function TickCount(es: seq<Event>): nat {
    if es == [] then 0 else TickCount(es[..|es| - 1]) + (if es[|es| - 1].Ticks? then 1 else 0)
  }

  lemma EventKeeps(d: seq<Entry>, e: Event)
    requires Single(d) && Ahead(d) && Possible(d, e)
    ensures Single(After(d, e)) && Ahead(After(d, e))
  {
    match e
    case Sleeps(p, n) => InsertdOrder(d, p, n);
    case Leaves(p) => UnsleepExact(d, p, p);
    case Ticks => TickExact(d);
  }

  lemma {:induction false} HistoryKeeps(ds: seq<seq<Entry>>, es: seq<Event>, k: nat)
    requires IsHistory(ds, es) && Single(ds[0]) && Ahead(ds[0]) && k < |ds|
    ensures Single(ds[k]) && Ahead(ds[k])
  {
    if k > 0 {
      HistoryKeeps(ds, es, k - 1);
      EventKeeps(ds[k - 1], es[k - 1]);
    }
  }

  /** A sleeper of n ticks stays on the list through the first n - 1 of them, whatever other
      processes do meanwhile, and has exactly the rest to go; the n-th tick readies it. */
  lemma {:induction false} WakesOnTime(ds: seq<seq<Entry>>, es: seq<Event>, p: int, k: nat)
    requires IsHistory(ds, es) && Single(ds[0]) && Ahead(ds[0]) && Has(ds[0], p) && k < |ds|
    requires forall j :: 0 <= j < k ==> es[j] != Leaves(p)
    ensures TickCount(es[..k]) < Remaining(ds[0], p) ==>
      Has(ds[k], p) && Remaining(ds[k], p) == Remaining(ds[0], p) - TickCount(es[..k])
    ensures k > 0 && es[k - 1].Ticks? && TickCount(es[..k]) == Remaining(ds[0], p) ==>
      p in Tick(ds[k - 1]).0 && !Has(ds[k], p)
  {
    if k > 0 {
      WakesOnTime(ds, es, p, k - 1);
      assert es[..k][..k - 1] == es[..k - 1];
      HistoryKeeps(ds, es, k - 1);
      var d, e := ds[k - 1], es[k - 1];
      match e
      case Sleeps(q, n) => InsertdExact(d, q, n, p);
      case Leaves(q) => UnsleepExact(d, q, p);
      case Ticks => TickExact(d);
    } else {
      assert es[..0] == [];
    }
  }

  // ------------------------------------------------------------------- the deferred clock

  lemma AdvanceNone(d: seq<Entry>)
    requires Natural(d)
    ensures Advance(d, 0) == d
  {
    if d != [] { assert d == [d[0]] + d[1..]; }
  }

  /** The first k entries with no ticks left. */
  function Spent(d: seq<Entry>, k: nat): (r: seq<Entry>)
    requires k <= |d|
    ensures |r| == |d|
  {
    seq(|d|, j requires 0 <= j < |d| => if j < k then Entry(d[j].pid, 0) else d[j])
  }

  /** What strtclk's loop has done at position k, with m ticks still to take. */
  lemma {:induction false} AdvanceFrom(d: seq<Entry>, m0: int, k: nat, m: int)
    requires k <= |d| && m == m0 - Total(d[..k])
    requires forall j :: 0 <= j < k ==> d[j].key < m0 - Total(d[..j])
    ensures Advance(d, m0) == Spent(d, k)[..k] + Advance(d[k..], m)
    decreases k
  {
    hide Advance, Total, Spent;
    if k == 0 {
      assert d[..0] == [] && d[0..] == d && Spent(d, 0)[..0] == [];
      TotalNone();
    } else {
      var t, m1 := d[1..], m0 - d[0].key;
      forall j | 0 <= j < k
        ensures Total(d[..j + 1]) == d[0].key + Total(t[..j])
        ensures j < k - 1 ==> t[j].key < m1 - Total(t[..j])
      {
        TotalTail(d, j);
      }
      assert d[..0] == [];
      TotalNone();
      AdvancePast(d, m0);
      AdvanceFrom(t, m1, k - 1, m);
      assert t[k - 1..] == d[k..];
      SpentPast(d, k);
    }
  }

  lemma TotalNone()
    ensures Total([]) == 0
  {
  }

  lemma TotalTail(d: seq<Entry>, j: nat)
    requires j < |d|
    ensures Total(d[..j + 1]) == d[0].key + Total(d[1..][..j])
  {
    assert d[..j + 1][0] == d[0] && d[..j + 1][1..] == d[1..][..j];
  }

  lemma AdvancePast(d: seq<Entry>, m: int)
    requires d != [] && d[0].key < m
    ensures Advance(d, m) == [Entry(d[0].pid, 0)] + Advance(d[1..], m - d[0].key)
  {
  }

  lemma SpentPast(d: seq<Entry>, k: nat)
    requires 0 < k <= |d|
    ensures Spent(d, k)[..k] == [Entry(d[0].pid, 0)] + Spent(d[1..], k - 1)[..k - 1]
  {
  }

  /** What a backlog does to the entries: nobody's order changes, and everyone's time falls
      by the backlog, but not below zero. */
  lemma {:induction false} AdvanceEffect(d: seq<Entry>, m: int, p: int)
    requires Natural(d) && Single(d) && m >= 0
    ensures Natural(Advance(d, m)) && Single(Advance(d, m))
    ensures Has(Advance(d, m), p) <==> Has(d, p)
    ensures Has(d, p) ==> Remaining(Advance(d, m), p) == if Remaining(d, p) > m then Remaining(d, p) - m else 0
    decreases |d|
  {
    if d != [] {
      HasTail(d, p);
      HasTail(d, d[0].pid);
      RemainingNatural(d[1..], p);
      if d[0].key < m {
        AdvanceEffect(d[1..], m - d[0].key, p);
        AdvanceEffect(d[1..], m - d[0].key, d[0].pid);
        HasCons(Entry(d[0].pid, 0), Advance(d[1..], m - d[0].key), p);
      } else {
        HasCons(Entry(d[0].pid, d[0].key - m), d[1..], p);
      }
    }
  }

  /** Those already out of time are readied first. */
  lemma {:induction false} SplitAdvance(d: seq<Entry>, n: int)
    requires Natural(d) && n >= 0
    ensures Woken(Advance(d, n)) == Woken(d) + CatchUp(Asleep(d), n).0
    ensures Asleep(Advance(d, n)) == CatchUp(Asleep(d), n).1
    decreases |d|
  {
    if d != [] && d[0].key == 0 {
      SplitAdvance(d[1..], n);
      AdvanceNone(d);
      AdvanceNone(d[1..]);
      assert Advance(d, n) == [Entry(d[0].pid, 0)] + Advance(d[1..], n);
      assert Advance(d, n)[1..] == Advance(d[1..], n);
    }
  }

  lemma AdvanceStop(d: seq<Entry>, m: int)
    requires d != [] && d[0].key >= m
    ensures Advance(d, m) == [Entry(d[0].pid, d[0].key - m)] + d[1..]
  {
  }

  /** The tick readies nobody. */
  lemma LongStep(d: seq<Entry>, m: int)
    requires d != [] && d[0].key > 1 && m >= 1
    ensures CatchUp(d, m) == CatchUp(Decrement(d), m - 1) && Tick(d) == ([], Decrement(d))
  {
    hide Advance, Woken, Asleep;
    var d1 := Decrement(d);
    assert d1[1..] == d[1..];
    if d[0].key < m {
      AdvancePast(d, m);
      AdvancePast(d1, m - 1);
    } else {
      AdvanceStop(d, m);
      AdvanceStop(d1, m - 1);
    }
  }

  /** The tick readies the first, and the rest counts on from there. */
  lemma ShortStep(d: seq<Entry>, m: int)
    requires Natural(d) && d != [] && d[0].key == 1 && m >= 1
    ensures CatchUp(d, m) == ([d[0].pid] + Woken(Advance(d[1..], m - 1)), Asleep(Advance(d[1..], m - 1)))
    ensures Tick(d) == ([d[0].pid] + Woken(d[1..]), Asleep(d[1..]))
  {
    hide Advance, Woken, Asleep;
    var e, t := Entry(d[0].pid, 0), d[1..];
    if m > 1 {
      AdvancePast(d, m);
    } else {
      AdvanceStop(d, m);
      AdvanceNone(t);
    }
    FrontWakes(e, Advance(t, m - 1));
    FrontWakes(e, t);
  }

  lemma Gathered(p: int, a: seq<int>, b: seq<int>)
    ensures [p] + (a + b) == [p] + a + b && [] + b == b
  {
  }

  lemma CatchUpNobody(d: seq<Entry>, m: int)
    requires d == []
    ensures CatchUp(d, m) == ([], d) && Tick(d) == ([], d)
  {
  }

  /** Catching up with one tick more is a tick and then the rest. */
  lemma CatchUpStep(d: seq<Entry>, m: int)
    requires Ahead(d) && m >= 1
    ensures CatchUp(d, m) == (Tick(d).0 + CatchUp(Tick(d).1, m - 1).0, CatchUp(Tick(d).1, m - 1).1)
  {
    hide CatchUp, Tick, Woken, Asleep, Advance, Decrement;
    if d == [] {
      CatchUpNobody(d, m);
      CatchUpNobody(d, m - 1);
      Gathered(0, [], []);
    } else if d[0].key > 1 {
      LongStep(d, m);
      Gathered(0, [], CatchUp(Decrement(d), m - 1).0);
    } else {
      ShortStep(d, m);
      SplitAdvance(d[1..], m - 1);
      Gathered(d[0].pid, Woken(d[1..]), CatchUp(Asleep(d[1..]), m - 1).0);
    }
  }

  /** A backlog of m ticks has the effect of m ticks, on a list whose first key is positive:
      the same processes are readied, in the same order, and the same list is left. */
  lemma {:induction false} CatchUpIsTicks(d: seq<Entry>, m: nat)
    requires Single(d) && Ahead(d)
    ensures CatchUp(d, m) == TickTimes(d, m)
    decreases m
  {
    if m == 0 {
      AdvanceNone(d);
    } else {
      CatchUpStep(d, m);
      TickExact(d);
      CatchUpIsTicks(Tick(d).1, m - 1);
    }
  }

  lemma FrontWakes(e: Entry, d: seq<Entry>)
    requires e.key == 0
    ensures Woken([e] + d) == [e.pid] + Woken(d) && Asleep([e] + d) == Asleep(d)
  {
    assert ([e] + d)[1..] == d;
  }

  lemma {:induction false} AllWoken(d: seq<Entry>, m: int)
    requires Natural(d) && Total(d) <= m
    ensures CatchUp(d, m) == (Pids(d), [])
    decreases |d|
  {
    if d != [] {
      RemainingNatural(d[1..], 0);
      AllWoken(d[1..], m - d[0].key);
      AdvanceNone(d[1..]);
      var rest := Advance(d[1..], m - d[0].key);
      assert Advance(d, m) == [Entry(d[0].pid, 0)] + rest;
      FrontWakes(Entry(d[0].pid, 0), rest);
      assert Pids(d) == [d[0].pid] + Pids(d[1..]);
    } else {
      assert Pids(d) == [];
    }
  }

  /** The last entry after m ticks at once. */
  lemma LastAfter(d: seq<Entry>, m: int)
    requires Single(d) && Ahead(d) && d != [] && m >= 0
    ensures
      var p, e := d[|d| - 1].pid, CatchUp(d, m).1;
      (Has(e, p) <==> m < Total(d)) && (m < Total(d) ==> Remaining(e, p) == Total(d) - m)
  {
    hide Single, Natural, Has, Remaining, Total, Advance, Woken, Asleep;
    var p := d[|d| - 1].pid;
    Latest(d);
    RemainingNatural(d, p);
    AdvanceEffect(d, m, p);
    WakeSplits(Advance(d, m), p);
  }

  /** One tick more or less makes no difference only once everyone has been readied. */
  lemma CatchUpDiffers(d: seq<Entry>, m: int)
    requires Single(d) && Ahead(d) && m >= 0
    ensures CatchUp(d, m) == CatchUp(d, m + 1) <==> Total(d) <= m
  {
    hide Single, Ahead, Natural, Has, Remaining, CatchUp;
    if Total(d) <= m {
      AheadNatural(d);
      AllWoken(d, m);
      AllWoken(d, m + 1);
    } else {
      LastAfter(d, m);
      LastAfter(d, m + 1);
    }
  }

  lemma AheadNatural(d: seq<Entry>)
    requires Ahead(d)
    ensures Natural(d)
  {
  }

  /** strtclk with a backlog of m ticks does what m clock ticks would have done exactly when
      the list is empty, its first key is positive, or the backlog exceeds the time of the
      last sleeper: a zero key in front slips a tick under ticks, but not under strtclk. */
  lemma DeferredClock(d: seq<Entry>, m: nat)
    requires Single(d) && Natural(d)
    ensures CatchUp(d, m) == TickTimes(d, m) <==> d == [] || d[0].key >= 1 || Total(d) < m
  {
    if Ahead(d) {
      CatchUpIsTicks(d, m);
    } else if m == 0 {
      AdvanceNone(d);
    } else {
      ZeroDeferred(d, m);
    }
    RemainingNatural(d, 0);
  }

  lemma Prefixed(w: seq<int>, a: (seq<int>, seq<Entry>), b: (seq<int>, seq<Entry>))
    ensures (w + a.0, a.1) == (w + b.0, b.1) <==> a == b
  {
    if w + a.0 == w + b.0 {
      assert a.0 == (w + a.0)[|w|..];
      assert b.0 == (w + b.0)[|w|..];
    }
  }

  /** With a zero in front, m ticks are worth m - 1 to those behind. */
  lemma ZeroTicks(d: seq<Entry>, m: nat)
    requires Single(d) && Natural(d) && d != [] && d[0].key == 0 && m >= 1
    ensures
      var r, w := Asleep(d[1..]), [d[0].pid] + Woken(d[1..]);
      Ahead(r) && Single(r) && TickTimes(d, m) == (w + CatchUp(r, m - 1).0, CatchUp(r, m - 1).1)
  {
    hide Woken, Asleep, CatchUp;
    var r := Asleep(d[1..]);
    ZeroSlips(d);
    HasTail(d, 0);
    WakeSplits(d[1..], 0);
    CatchUpIsTicks(r, m - 1);
  }

  /** And a backlog of m is worth m. */
  lemma ZeroBacklog(d: seq<Entry>, m: nat)
    requires Natural(d) && d != [] && d[0].key == 0 && m >= 1
    ensures
      var r, w := Asleep(d[1..]), [d[0].pid] + Woken(d[1..]);
      CatchUp(d, m) == (w + CatchUp(r, m).0, CatchUp(r, m).1)
  {
    hide Woken, Asleep;
    var r, w := Asleep(d[1..]), [d[0].pid] + Woken(d[1..]);
    SplitAdvance(d[1..], m);
    assert Advance(d, m) == [Entry(d[0].pid, 0)] + Advance(d[1..], m);
    FrontWakes(Entry(d[0].pid, 0), Advance(d[1..], m));
    assert [d[0].pid] + (Woken(d[1..]) + CatchUp(r, m).0) == w + CatchUp(r, m).0;
  }

  lemma ZeroDeferred(d: seq<Entry>, m: nat)
    requires Single(d) && Natural(d) && d != [] && d[0].key == 0 && m >= 1
    ensures CatchUp(d, m) == TickTimes(d, m) <==> Total(d) < m
  {
    hide CatchUp, TickTimes, Woken, Asleep;
    var r, w := Asleep(d[1..]), [d[0].pid] + Woken(d[1..]);
    ZeroTicks(d, m);
    ZeroBacklog(d, m);
    Prefixed(w, CatchUp(r, m), CatchUp(r, m - 1));
    CatchUpDiffers(r, m - 1);
    AsleepTotal(d[1..]);
  }

  lemma {:induction false} AsleepTotal(d: seq<Entry>)
    requires Natural(d)
    ensures Total(Asleep(d)) == Total(d)
    decreases |d|
  {
    if d != [] && d[0].key == 0 { AsleepTotal(d[1..]); }
  }
}
