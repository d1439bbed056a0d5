/** The array q[] of sys/queue.c, sys/insert.c, sys/insertd.c, sys/getitem.c and
    sys/newqueue.c: many doubly linked lists of processes that share one table of links, each
    between a head and a tail entry of its own. */
module QLists {
  import opened Machine
  import opened DeltaList

  const NSEM: int := 50
  const NLISTS: int := 52                    // one for each semaphore, ready, sleeping
  const NQENT: int := 154                    // NPROC + NSEM + NSEM + 4
  const MININT: int := -0x8000_0000
  const MAXINT: int := 0x7fff_ffff
  const EMPTY: int := -1

  function Head(l: int): int { NPROC + 2 * l }
  function Tail(l: int): int { NPROC + 2 * l + 1 }

  type Lists = seq<seq<int>>

  datatype Links = Links(next: seq<int>, prev: seq<int>)

  /** Position k of list l: its head before the first process, its tail after the last. */
  ghost function NodeAt(ls: Lists, l: int, k: int): int
    requires 0 <= l < |ls|
  {
    if k < 0 then Head(l) else if k < |ls[l]| then ls[l][k] else Tail(l)
  }

  /** Only processes are listed, and none twice. */
  ghost predicate Distinct(ls: Lists) {
    && |ls| <= NLISTS
    && (forall l, k :: 0 <= l < |ls| && 0 <= k < |ls[l]| ==> IsPid(ls[l][k]))
    && (forall l, k, m, j :: 0 <= l < |ls| && 0 <= k < |ls[l]| && 0 <= m < |ls| && 0 <= j < |ls[m]| && ls[l][k] == ls[m][j] ==>
          l == m && k == j)
  }

  predicate Sized(n: Links) { |n.next| == NQENT && |n.prev| == NQENT }

  /** The links between position k and the next one. */
  ghost predicate Step(n: Links, ls: Lists, l: int, k: int)
    requires Sized(n) && Distinct(ls) && 0 <= l < |ls| && -1 <= k < |ls[l]|
  {
    NodeBounds(ls, l, k);
    NodeBounds(ls, l, k + 1);
    n.next[NodeAt(ls, l, k)] == NodeAt(ls, l, k + 1) && n.prev[NodeAt(ls, l, k + 1)] == NodeAt(ls, l, k)
  }

  lemma NodeBounds(ls: Lists, l: int, k: int)
    requires Distinct(ls) && 0 <= l < |ls|
    ensures 0 <= NodeAt(ls, l, k) < NQENT
    ensures 0 <= k < |ls[l]| <==> NodeAt(ls, l, k) < NPROC
  {
  }

  /** The links spell out the lists. */
  ghost predicate Linked(n: Links, ls: Lists) {
    && Sized(n) && Distinct(ls)
    && forall l, k {:trigger Step(n, ls, l, k)} :: 0 <= l < |ls| && -1 <= k < |ls[l]| ==> Step(n, ls, l, k)
  }

  ghost predicate Listed(ls: Lists, p: int) {
    exists l, k :: 0 <= l < |ls| && 0 <= k < |ls[l]| && ls[l][k] == p
  }

  function Join(n: Links, prev: int, p: int, next: int): (r: Links)
    requires Sized(n) && 0 <= prev < NQENT && 0 <= p < NQENT && 0 <= next < NQENT
    ensures Sized(r)
  {
    Links(n.next[p := next][prev := p], n.prev[p := prev][next := p])
  }

  function Part(n: Links, p: int): Links
    requires Sized(n) && 0 <= p < NQENT && 0 <= n.next[p] < NQENT && 0 <= n.prev[p] < NQENT
  {
    Links(n.next[n.prev[p] := n.next[p]], n.prev[n.next[p] := n.prev[p]])
  }

  function Put(ls: Lists, l: int, k: int, p: int): Lists
    requires 0 <= l < |ls| && 0 <= k <= |ls[l]|
  {
    ls[l := ls[l][..k] + [p] + ls[l][k..]]
  }

  function Take(ls: Lists, l: int, k: int): Lists
    requires 0 <= l < |ls| && 0 <= k < |ls[l]|
  {
    ls[l := ls[l][..k] + ls[l][k + 1..]]
  }

  lemma PutDistinct(ls: Lists, l: int, k: int, p: int)
    requires Distinct(ls) && 0 <= l < |ls| && 0 <= k <= |ls[l]| && IsPid(p) && !Listed(ls, p)
    ensures Distinct(Put(ls, l, k, p))
  {
    var r := Put(ls, l, k, p);
    forall m, j | 0 <= m < |r| && 0 <= j < |r[m]|
      ensures IsPid(r[m][j])
      ensures r[m][j] == if m == l && j >= k then (if j == k then p else ls[m][j - 1]) else ls[m][j]
    {
    }
  }

  lemma TakeDistinct(ls: Lists, l: int, k: int)
    requires Distinct(ls) && 0 <= l < |ls| && 0 <= k < |ls[l]|
    ensures Distinct(Take(ls, l, k)) && !Listed(Take(ls, l, k), ls[l][k])
  {
    var r := Take(ls, l, k);
    forall m, j | 0 <= m < |r| && 0 <= j < |r[m]|
      ensures IsPid(r[m][j])
      ensures r[m][j] == if m == l && j >= k then ls[m][j + 1] else ls[m][j]
    {
    }
  }

  /** Nodes at different places differ. */
  lemma NodesDiffer(ls: Lists, l: int, k: int, m: int, j: int)
    requires Distinct(ls) && 0 <= l < |ls| && -1 <= k <= |ls[l]| && 0 <= m < |ls| && -1 <= j <= |ls[m]|
    requires NodeAt(ls, l, k) == NodeAt(ls, m, j)
    ensures l == m && k == j
  {
  }

  lemma NotListed(ls: Lists, p: int, l: int, k: int)
    requires !Listed(ls, p) && IsPid(p) && 0 <= l < |ls|
    ensures NodeAt(ls, l, k) != p
  {
  }

  /** Joining a process in between two neighbours puts it there. */
  lemma JoinPuts(n: Links, ls: Lists, l: int, k: int, p: int)
    requires Linked(n, ls) && 0 <= l < |ls| && 0 <= k <= |ls[l]| && IsPid(p) && !Listed(ls, p)
    ensures 0 <= NodeAt(ls, l, k - 1) < NQENT && 0 <= NodeAt(ls, l, k) < NQENT
    ensures Linked(Join(n, NodeAt(ls, l, k - 1), p, NodeAt(ls, l, k)), Put(ls, l, k, p))
  {
    NodeBounds(ls, l, k - 1);
    NodeBounds(ls, l, k);
    PutDistinct(ls, l, k, p);
    var n2, r := Join(n, NodeAt(ls, l, k - 1), p, NodeAt(ls, l, k)), Put(ls, l, k, p);
    forall m, j | 0 <= m < |r| && -1 <= j < |r[m]|
      ensures Step(n2, r, m, j)
    {
      JoinStep(n, ls, l, k, p, m, j);
    }
  }

  /** The nodes after the joining, by those before it. */
  lemma PutNodes(ls: Lists, l: int, k: int, p: int, m: int, j: int)
    requires 0 <= l < |ls| && 0 <= k <= |ls[l]| && 0 <= m < |ls| && -1 <= j <= |Put(ls, l, k, p)[m]|
    ensures NodeAt(Put(ls, l, k, p), m, j) == if m == l && j == k then p else NodeAt(ls, m, if m == l && j > k then j - 1 else j)
  {
  }

  lemma JoinStep(n: Links, ls: Lists, l: int, k: int, p: int, m: int, j: int)
    requires Linked(n, ls) && 0 <= l < |ls| && 0 <= k <= |ls[l]| && IsPid(p) && !Listed(ls, p)
    requires Distinct(Put(ls, l, k, p)) && 0 <= m < |ls| && -1 <= j < |Put(ls, l, k, p)[m]|
    requires 0 <= NodeAt(ls, l, k - 1) < NQENT && 0 <= NodeAt(ls, l, k) < NQENT
    ensures Step(Join(n, NodeAt(ls, l, k - 1), p, NodeAt(ls, l, k)), Put(ls, l, k, p), m, j)
  {
    PutNodes(ls, l, k, p, m, j);
    PutNodes(ls, l, k, p, m, j + 1);
    var i := if m == l && j > k then j - 1 else j;
    var ours := m == l && (j == k - 1 || j == k);
    assert |Put(ls, l, k, p)[m]| == if m == l then |ls[m]| + 1 else |ls[m]|;
    hide NodeAt, Distinct, Listed, Put;
    NotListed(ls, p, m, if ours then k - 1 else i);
    NotListed(ls, p, m, if ours then k else i + 1);
    if !ours {
      assert Step(n, ls, m, i);
      if NodeAt(ls, m, i) == NodeAt(ls, l, k - 1) { NodesDiffer(ls, m, i, l, k - 1); }
      if NodeAt(ls, m, i + 1) == NodeAt(ls, l, k) { NodesDiffer(ls, m, i + 1, l, k); }
    }
  }

  /** dequeue takes the process out of whatever list it is in. */
  lemma PartTakes(n: Links, ls: Lists, l: int, k: int)
    requires Linked(n, ls) && 0 <= l < |ls| && 0 <= k < |ls[l]|
    ensures var p := ls[l][k];
      IsPid(p) && n.next[p] == NodeAt(ls, l, k + 1) && n.prev[p] == NodeAt(ls, l, k - 1)
      && 0 <= n.next[p] < NQENT && 0 <= n.prev[p] < NQENT && Linked(Part(n, p), Take(ls, l, k))
  {
    var p, r := ls[l][k], Take(ls, l, k);
    NodeBounds(ls, l, k - 1);
    NodeBounds(ls, l, k + 1);
    assert Step(n, ls, l, k - 1) && Step(n, ls, l, k);
    TakeDistinct(ls, l, k);
    var n2 := Part(n, p);
    forall m, j | 0 <= m < |r| && -1 <= j < |r[m]|
      ensures Step(n2, r, m, j)
    {
      PartStep(n, ls, l, k, m, j);
    }
  }

  lemma PartStep(n: Links, ls: Lists, l: int, k: int, m: int, j: int)
    requires Linked(n, ls) && 0 <= l < |ls| && 0 <= k < |ls[l]|
    requires Distinct(Take(ls, l, k)) && 0 <= m < |ls| && -1 <= j < |Take(ls, l, k)[m]|
    requires var p := ls[l][k];
      n.next[p] == NodeAt(ls, l, k + 1) && n.prev[p] == NodeAt(ls, l, k - 1) && 0 <= n.next[p] < NQENT && 0 <= n.prev[p] < NQENT
    ensures Step(Part(n, ls[l][k]), Take(ls, l, k), m, j)
  {
    var r := Take(ls, l, k);
    if m == l && j == k - 1 {
      assert NodeAt(r, m, j) == NodeAt(ls, l, k - 1) && NodeAt(r, m, j + 1) == NodeAt(ls, l, k + 1);
    } else {
      var i := if m == l && j >= k then j + 1 else j;
      assert Step(n, ls, m, i);
      assert NodeAt(r, m, j) == NodeAt(ls, m, i) && NodeAt(r, m, j + 1) == NodeAt(ls, m, i + 1);
      if NodeAt(ls, m, i) == NodeAt(ls, l, k - 1) { NodesDiffer(ls, m, i, l, k - 1); }
      if NodeAt(ls, m, i + 1) == NodeAt(ls, l, k + 1) { NodesDiffer(ls, m, i + 1, l, k + 1); }
    }
  }
}
