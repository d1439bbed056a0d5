/** The table q[] as an object whose methods relink it in place. */
module QTable {
  import opened Machine
  import opened DeltaList
  import opened QLists

  /** A list with the keys its processes carry. */
  function Keyed(keys: seq<int>, ms: seq<int>): (r: seq<Entry>)
    ensures |r| == |ms|
  {
    seq(|ms|, k requires 0 <= k < |ms| => Entry(ms[k], if 0 <= ms[k] < |keys| then keys[ms[k]] else 0))
  }

  /** The position of the first entry whose key is not smaller. */
  function KeyPos(d: seq<Entry>, key: int, k: nat): (r: nat)
    requires k <= |d|
    ensures k <= r <= |d|
    ensures r < |d| ==> d[r].key >= key
    ensures forall j :: k <= j < r ==> d[j].key < key
    decreases |d| - k
  {
    if k == |d| || d[k].key >= key then k else KeyPos(d, key, k + 1)
  }

  /** `insert`: before the first entry whose key is not smaller. */
  function InsertKey(d: seq<Entry>, p: int, key: int): seq<Entry> {
    var k := KeyPos(d, key, 0);
    d[..k] + [Entry(p, key)] + d[k..]
  }

  /** What insertd passes over and what is left of the key. */
  lemma {:induction false} InsertdFrom(d: seq<Entry>, p: int, key: int, k: nat, rest: int)
    requires k <= |d| && rest == key - Total(d[..k])
    requires forall j :: 0 <= j < k ==> d[j].key < key - Total(d[..j])
    ensures Insertd(d, p, key) == d[..k] + Insertd(d[k..], p, rest)
    decreases k
  {
    hide Insertd, Total;
    if k == 0 {
      assert d[..0] == [] && d[0..] == d;
      TotalNone();
    } else {
      var t, m := d[1..], key - d[0].key;
      forall j | 0 <= j < k
        ensures Total(d[..j + 1]) == d[0].key + Total(t[..j])
        ensures j < k - 1 ==> t[j].key < m - Total(t[..j])
      {
        TotalTail(d, j);
      }
      assert d[..0] == [];
      TotalNone();
      InsertdPast(d, p, key);
      InsertdFrom(t, p, m, k - 1, rest);
      assert t[k - 1..] == d[k..];
      assert d[..k] == [d[0]] + t[..k - 1];
    }
  }

  lemma {:induction false} TotalStep(d: seq<Entry>, k: nat)
    requires k < |d|
    ensures Total(d[..k + 1]) == Total(d[..k]) + d[k].key
    decreases k
  {
    if k == 0 {
      assert d[..1] == [d[0]] && d[..0] == [];
    } else {
      TotalStep(d[1..], k - 1);
      assert d[..k + 1][1..] == d[1..][..k] && d[..k][1..] == d[1..][..k - 1];
    }
  }

  class Table {
    const qkey: array<int>
    const qnext: array<int>
    const qprev: array<int>
    var nextqueue: int
    ghost var lists: Lists

    ghost predicate Valid()
      reads this, qkey, qnext, qprev
    {
      && qkey.Length == NQENT && qnext.Length == NQENT && qprev.Length == NQENT
      && qkey != qnext && qkey != qprev && qnext != qprev
      && Linked(Links(qnext[..], qprev[..]), lists)
      && nextqueue == Head(|lists|)
      && (forall l :: 0 <= l < |lists| ==> qkey[Head(l)] == MININT && qkey[Tail(l)] == MAXINT)
    }

    /** List l with its keys. */
    ghost function D(l: int): seq<Entry>
      reads this, qkey
      requires 0 <= l < |lists|
    {
      Keyed(qkey[..], lists[l])
    }

    /** No list yet. */
    constructor ()
      ensures Valid() && lists == [] && fresh(qkey) && fresh(qnext) && fresh(qprev)
    {
      qkey := new int[NQENT];
      qnext := new int[NQENT];
      qprev := new int[NQENT];
      nextqueue := NPROC;
      lists := [];
    }

    /** `newqueue`: an empty list between a new head and a new tail. */
    method Newqueue() returns (h: int)
      requires Valid() && |lists| < NLISTS
      modifies this, qkey, qnext, qprev
      ensures Valid() && h == Head(|old(lists)|) && lists == old(lists) + [[]]
      ensures forall p :: 0 <= p < NPROC ==> qkey[p] == old(qkey[p])
    {
      ghost var n, ls := Links(qnext[..], qprev[..]), lists;
      h := nextqueue;
      nextqueue := nextqueue + 1;
      var t := nextqueue;
      nextqueue := nextqueue + 1;
      qnext[h], qprev[h], qkey[h] := t, EMPTY, MININT;
      qnext[t], qprev[t], qkey[t] := EMPTY, h, MAXINT;
      lists := lists + [[]];
      NewList(n, ls, Links(qnext[..], qprev[..]));
    }

    /** All the lists there will ever be, each empty. */
    method MakeLists()
      requires Valid() && lists == []
      modifies this, qkey, qnext, qprev
      ensures Valid() && |lists| == NLISTS && forall l :: 0 <= l < NLISTS ==> lists[l] == []
    {
      hide Linked;
      var i := 0;
      while i < NLISTS
        invariant 0 <= i <= NLISTS && Valid() && |lists| == i
        invariant forall l :: 0 <= l < i ==> lists[l] == []
      {
        var _ := Newqueue();
        i := i + 1;
      }
    }

    /** The link to follow out of a position. */
    lemma Follow(l: int, k: int)
      requires Valid() && 0 <= l < |lists| && -1 <= k < |lists[l]|
      ensures 0 <= NodeAt(lists, l, k) < NQENT && qnext[NodeAt(lists, l, k)] == NodeAt(lists, l, k + 1)
      ensures 0 <= NodeAt(lists, l, k + 1) < NQENT && qprev[NodeAt(lists, l, k + 1)] == NodeAt(lists, l, k)
    {
      NodeBounds(lists, l, k);
      NodeBounds(lists, l, k + 1);
      assert Step(Links(qnext[..], qprev[..]), lists, l, k);
    }

    /** Process p between two neighbours. */
    method Splice(p: int, prev: int, next: int, ghost l: int, ghost k: int)
      requires Valid() && IsPid(p) && !QLists.Listed(lists, p) && 0 <= l < |lists| && 0 <= k <= |lists[l]|
      requires prev == NodeAt(lists, l, k - 1) && next == NodeAt(lists, l, k)
      modifies this`lists, qnext, qprev
      ensures Valid() && lists == Put(old(lists), l, k, p)
    {
      JoinPuts(Links(qnext[..], qprev[..]), lists, l, k, p);
      qnext[p] := next;
      qprev[p] := prev;
      qnext[prev] := p;
      qprev[next] := p;
      lists := Put(lists, l, k, p);
    }

    /** `enqueue`: at the tail. */
    method Enqueue(p: int, t: int, ghost l: int)
      requires Valid() && IsPid(p) && !QLists.Listed(lists, p) && 0 <= l < |lists| && t == Tail(l)
      modifies this`lists, qnext, qprev
      ensures Valid() && lists == old(lists)[l := old(lists)[l] + [p]]
    {
      ghost var k := |lists[l]|;
      Follow(l, k - 1);
      Splice(p, qprev[t], t, l, k);
      assert old(lists)[l][..k] + [p] + old(lists)[l][k..] == old(lists)[l] + [p];
    }

    /** `dequeue`: out of whatever list the process is in. */
    method Dequeue(p: int, ghost l: int, ghost k: int)
      requires Valid() && 0 <= l < |lists| && 0 <= k < |lists[l]| && p == lists[l][k]
      modifies this`lists, qnext, qprev
      ensures Valid() && lists == QLists.Take(old(lists), l, k) && !QLists.Listed(lists, p)
    {
      PartTakes(Links(qnext[..], qprev[..]), lists, l, k);
      TakeDistinct(lists, l, k);
      var next, prev := qnext[p], qprev[p];
      qnext[prev] := next;
      qprev[next] := prev;
      lists := QLists.Take(lists, l, k);
    }

    /** `getfirst`: EMPTY if there is none. */
    method Getfirst(h: int, ghost l: int) returns (p: int)
      requires Valid() && 0 <= l < |lists| && h == Head(l)
      modifies this`lists, qnext, qprev
      ensures Valid()
      ensures if old(lists)[l] == [] then p == EMPTY && lists == old(lists)
        else p == old(lists)[l][0] && lists == old(lists)[l := old(lists)[l][1..]] && !QLists.Listed(lists, p)
    {
      Follow(l, -1);
      NodeBounds(lists, l, 0);
      p := qnext[h];
      if p < NPROC {
        assert lists[l][..0] + lists[l][1..] == lists[l][1..];
        Dequeue(p, l, 0);
      } else {
        p := EMPTY;
      }
    }

    /** `getlast`. */
    method Getlast(t: int, ghost l: int) returns (p: int)
      requires Valid() && 0 <= l < |lists| && t == Tail(l) && lists[l] != []
      modifies this`lists, qnext, qprev
      ensures Valid() && !QLists.Listed(lists, p)
      ensures var n := |old(lists)[l]| - 1; p == old(lists)[l][n] && lists == old(lists)[l := old(lists)[l][..n]]
    {
      ghost var n := |lists[l]| - 1;
      Follow(l, n);
      NodeBounds(lists, l, n);
      p := qprev[t];
      assert lists[l][..n] + lists[l][n + 1..] == lists[l][..n];
      Dequeue(p, l, n);
    }

    /** The search of `insert`. */
    method FindKey(h: int, key: int, ghost l: int) returns (next: int, ghost k: nat)
      requires Valid() && 0 <= l < |lists| && h == Head(l) && key <= MAXINT
      ensures k == KeyPos(D(l), key, 0) && next == NodeAt(lists, l, k)
    {
      ghost var d := D(l);
      k := 0;
      Follow(l, -1);
      next := qnext[h];
      while qkey[next] < key
        invariant 0 <= k <= |d| && next == NodeAt(lists, l, k) && 0 <= next < NQENT
        invariant KeyPos(d, key, 0) == KeyPos(d, key, k)
        decreases |d| - k
      {
        NodeBounds(lists, l, k);
        Follow(l, k);
        next := qnext[next];
        k := k + 1;
      }
      NodeBounds(lists, l, k);
    }

    /** `insert`: into a list kept in key order. */
    method Insert(p: int, h: int, key: int, ghost l: int)
      requires Valid() && IsPid(p) && !QLists.Listed(lists, p) && 0 <= l < |lists| && h == Head(l) && key <= MAXINT
      modifies this`lists, qkey, qnext, qprev
      ensures Valid() && lists == Put(old(lists), l, KeyPos(old(D(l)), key, 0), p)
      ensures qkey[p] == key && forall x :: 0 <= x < NPROC && x != p ==> qkey[x] == old(qkey[x])
      ensures D(l) == InsertKey(old(D(l)), p, key)
    {
      ghost var k: int;
      var next;
      next, k := FindKey(h, key, l);
      Follow(l, k - 1);
      KeyedPut(qkey[..], lists, l, k, p, key);
      Splice(p, qprev[next], next, l, k);
      qkey[p] := key;
    }

    /** A listed process gets a new key. */
    method Adjust(p: int, key: int, ghost l: int, ghost k: int)
      requires Valid() && 0 <= l < |lists| && 0 <= k < |lists[l]| && p == lists[l][k]
      modifies qkey
      ensures Valid() && qkey[..] == old(qkey[..])[p := key] && D(l) == old(D(l))[k := Entry(p, key)]
    {
      hide Linked, Keyed;
      ListedPids(Links(qnext[..], qprev[..]), lists, l, k);
      KeyedSet(qkey[..], lists[l], k, key);
      qkey[p] := key;
    }

    /** The relinking of `unsleep`: the next key grows by what is left of this one. */
    method Withdraw(p: int, ghost l: int, ghost k: nat)
      requires Valid() && 0 <= l < |lists| && k < |lists[l]| && p == lists[l][k]
      modifies this`lists, qkey, qnext, qprev
      ensures Valid() && lists == QLists.Take(old(lists), l, k) && !QLists.Listed(lists, p)
      ensures D(l) == Unsleep(old(D(l)), p)
      ensures forall x :: 0 <= x < NPROC && x !in old(lists)[l] ==> qkey[x] == old(qkey[x])
    {
      hide Linked, Keyed, Distinct, Unsleep;
      Follow(l, k);
      ListedPids(Links(qnext[..], qprev[..]), lists, l, k);
      ghost var d, ms := D(l), lists[l];
      KeyedEntry(qkey[..], ms, k);
      KeysSingle(qkey[..], lists, l);
      UnsleepAt(d, k);
      var next := qnext[p];
      NodeBounds(lists, l, k + 1);
      if next < NPROC {
        KeyedEntry(qkey[..], ms, k + 1);
        Adjust(next, qkey[next] + qkey[p], l, k + 1);
        assert next in ms;
      }
      ghost var d1 := D(l);
      assert k + 1 < |d| ==> d1[..k] + d1[k + 1..] == d[..k] + [d1[k + 1]] + d[k + 2..];
      assert k + 1 == |d| ==> d1[..k] + d1[k + 1..] == d[..k];
      KeyedTake(qkey[..], ms, k);
      Dequeue(p, l, k);
      assert lists[l] == ms[..k] + ms[k + 1..];
    }

    /** The search of `insertd`. */
    method FindDelta(h: int, key: int, ghost p: int, ghost l: int) returns (prev: int, next: int, rest: int, ghost k: nat)
      requires Valid() && 0 <= l < |lists| && h == Head(l) && key <= MAXINT && Natural(D(l))
      ensures k <= |lists[l]| && prev == NodeAt(lists, l, k - 1) && next == NodeAt(lists, l, k)
      ensures Insertd(D(l), p, key) == D(l)[..k] + Insertd(D(l)[k..], p, rest)
      ensures k < |lists[l]| ==> D(l)[k].key >= rest
    {
      ghost var d := D(l);
      k, rest, prev := 0, key, h;
      Follow(l, -1);
      next := qnext[h];
      while qkey[next] < rest
        invariant 0 <= k <= |d| && prev == NodeAt(lists, l, k - 1) && next == NodeAt(lists, l, k) && 0 <= next < NQENT
        invariant rest == key - Total(d[..k]) <= MAXINT
        invariant forall j :: 0 <= j < k ==> d[j].key < key - Total(d[..j])
        decreases |d| - k
      {
        NodeBounds(lists, l, k);
        Follow(l, k);
        TotalStep(d, k);
        rest := rest - qkey[next];
        prev, next := next, qnext[next];
        k := k + 1;
      }
      NodeBounds(lists, l, k);
      InsertdFrom(d, p, key, k, rest);
    }

    /** `insertd`: into a delta list, given the delay. */
    method InsertDelta(p: int, h: int, key: int, ghost l: int)
      requires Valid() && IsPid(p) && !QLists.Listed(lists, p) && 0 <= l < |lists| && h == Head(l) && key <= MAXINT
      requires Natural(D(l))
      modifies this`lists, qkey, qnext, qprev
      ensures Valid() && D(l) == Insertd(old(D(l)), p, key)
      ensures exists k :: 0 <= k <= |old(lists)[l]| && lists == Put(old(lists), l, k, p)
      ensures forall x :: 0 <= x < NPROC && x != p && x !in old(lists)[l] ==> qkey[x] == old(qkey[x])
    {
      ghost var k;
      var prev, next, rest;
      prev, next, rest, k := FindDelta(h, key, p, l);
      NodeBounds(lists, l, k);
      ghost var d, keys, ms := D(l), qkey[..], lists[l];
      KeyedPut(qkey[..], lists, l, k, p, rest);
      PutDistinct(lists, l, k, p);
      Splice(p, prev, next, l, k);
      qkey[p] := rest;
      if next < NPROC {
        KeyedSet(qkey[..], lists[l], k + 1, qkey[next] - rest);
        qkey[next] := qkey[next] - rest;
        assert next == ms[k] && next in ms;
      }
      DeltaPut(d, p, rest, k);
    }
  }

  lemma KeysSingle(keys: seq<int>, ls: Lists, l: int)
    requires Distinct(ls) && 0 <= l < |ls|
    ensures Single(Keyed(keys, ls[l]))
  {
  }

  lemma KeyedEntry(keys: seq<int>, ms: seq<int>, k: nat)
    requires k < |ms| && 0 <= ms[k] < |keys|
    ensures Keyed(keys, ms)[k] == Entry(ms[k], keys[ms[k]])
  {
  }

  lemma ListedPids(n: Links, ls: Lists, l: int, k: int)
    requires Linked(n, ls) && 0 <= l < |ls| && 0 <= k < |ls[l]|
    ensures Distinct(ls) && IsPid(ls[l][k])
    ensures forall j :: 0 <= j < |ls[l]| ==> 0 <= ls[l][j] < NPROC && (j != k ==> ls[l][j] != ls[l][k])
  {
  }

  lemma KeyedTake(keys: seq<int>, ms: seq<int>, k: nat)
    requires k < |ms|
    ensures Keyed(keys, ms[..k] + ms[k + 1..]) == Keyed(keys, ms)[..k] + Keyed(keys, ms)[k + 1..]
  {
  }

  /** What unsleep does at the position of the process. */
  lemma {:induction false} UnsleepAt(d: seq<Entry>, k: nat)
    requires Single(d) && k < |d|
    ensures Unsleep(d, d[k].pid) ==
      if k + 1 < |d| then d[..k] + [Entry(d[k + 1].pid, d[k + 1].key + d[k].key)] + d[k + 2..] else d[..k]
    decreases k
  {
    if k > 0 {
      assert d[0].pid != d[k].pid;
      UnsleepAt(d[1..], k - 1);
      if k + 1 < |d| {
        assert d[1..][..k - 1] == d[1..k] && d[1..][k + 1..] == d[k + 2..];
        assert [d[0]] + (d[1..k] + [Entry(d[k + 1].pid, d[k + 1].key + d[k].key)] + d[k + 2..])
          == d[..k] + [Entry(d[k + 1].pid, d[k + 1].key + d[k].key)] + d[k + 2..];
      } else {
        assert [d[0]] + d[1..][..k - 1] == d[..k];
      }
    }
  }

  /** Where the search stops, insertd splits the next key. */
  lemma DeltaPut(d: seq<Entry>, p: int, rest: int, k: nat)
    requires k <= |d| && (k < |d| ==> d[k].key >= rest)
    ensures
      d[..k] + Insertd(d[k..], p, rest) ==
      if k == |d| then d + [Entry(p, rest)]
      else (d[..k] + [Entry(p, rest)] + d[k..])[k + 1 := Entry(d[k].pid, d[k].key - rest)]
  {
    if k < |d| { assert d[k..][0] == d[k] && d[k..][1..] == d[k + 1..]; }
  }

  lemma KeyedPut(keys: seq<int>, ls: Lists, l: int, k: int, p: int, key: int)
    requires Distinct(ls) && 0 <= l < |ls| && 0 <= k <= |ls[l]| && !QLists.Listed(ls, p) && IsPid(p) && |keys| == NQENT
    ensures
      var d := Keyed(keys, ls[l]);
      Keyed(keys[p := key], Put(ls, l, k, p)[l]) == d[..k] + [Entry(p, key)] + d[k..]
  {
  }

  /** Changing the key of one entry. */
  lemma KeyedSet(keys: seq<int>, ms: seq<int>, k: nat, key: int)
    requires k < |ms| && (forall j :: 0 <= j < |ms| ==> 0 <= ms[j] < |keys|) && (forall j :: 0 <= j < |ms| && j != k ==> ms[j] != ms[k])
    ensures Keyed(keys[ms[k] := key], ms) == Keyed(keys, ms)[k := Entry(ms[k], key)]
  {
  }

  /** A new empty list leaves the others linked. */
  lemma NewList(n: Links, ls: Lists, n2: Links)
    requires Linked(n, ls) && |ls| < NLISTS && Sized(n2)
    requires forall x {:trigger n2.next[x]} {:trigger n2.prev[x]} :: 0 <= x < NQENT && x != Head(|ls|) && x != Tail(|ls|) ==>
      n2.next[x] == n.next[x] && n2.prev[x] == n.prev[x]
    requires n2.next[Head(|ls|)] == Tail(|ls|) && n2.prev[Tail(|ls|)] == Head(|ls|)
    ensures Linked(n2, ls + [[]])
  {
    var r := ls + [[]];
    forall l, k | 0 <= l < |r| && -1 <= k < |r[l]|
      ensures Step(n2, r, l, k)
    {
      if l < |ls| { assert Step(n, ls, l, k); NodeBounds(ls, l, k); NodeBounds(ls, l, k + 1); }
    }
  }
}
