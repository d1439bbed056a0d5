/** The linked queue of allocated frames of paging/frame.c: a dummy head, one link per
    frame, and a tail pointer. */
module FrameQueue {
  import opened Machine
  import opened Frames
  import opened Replacement

  /** The dummy head as a node, and the null link. */
  const DUMMY: int := -1
  const NULL: int := -2

  /** Position k of a queue as a node: the dummy before the first, null after the last. */
  ghost function NodeAt(q: seq<int>, k: int): int {
    if k < 0 then DUMMY else if k < |q| then q[k] else NULL
  }

  class Queue {
    const next: array<int>   // fr_next of every frame
    var first: int           // fr_next of the dummy head
    var tail: int            // frm_qtail
    ghost var nodes: seq<int>
    ghost var hist: History  // when each frame last joined

    /** The links spell out `nodes`, without a repetition, from the dummy to the tail. */
    ghost predicate Valid()
      reads this, next
    {
      && next.Length == NFRAMES
      && NoDup(nodes) && (forall k :: 0 <= k < |nodes| ==> IsFrame(nodes[k]))
      && tail == NodeAt(nodes, |nodes| - 1)
      && forall k {:trigger Succ(NodeAt(nodes, k))} :: -1 <= k < |nodes| ==> Succ(NodeAt(nodes, k)) == NodeAt(nodes, k + 1)
    }

    /** A frame that is off the queue has a null link, except possibly frame x. */
    ghost predicate Clean(x: int)
      reads this, next
      requires next.Length == NFRAMES
    {
      forall i :: 0 <= i < NFRAMES && i !in nodes && i != x ==> next[i] == NULL
    }

    /** `init_frm_queue`, with every link reset. */
    constructor ()
      ensures Valid() && Clean(NULL) && nodes == [] && fresh(next)
      ensures hist.now == 0 && forall i :: 0 <= i < NFRAMES ==> hist.stamp[i] == 0
    {
      next := new int[NFRAMES](_ => NULL);
      first := NULL;
      tail := DUMMY;
      nodes := [];
      hist := History(seq(NFRAMES, _ => 0), 0);
    }

    /** The link out of a node or of the dummy. */
    function Succ(p: int): int
      reads this`first, next
      requires next.Length == NFRAMES && (p == DUMMY || IsFrame(p))
    {
      if p == DUMMY then first else next[p]
    }

    /** One step along the queue. */
    lemma Follow(k: int)
      requires Valid() && 0 <= k <= |nodes|
      ensures NodeAt(nodes, k - 1) == DUMMY || IsFrame(NodeAt(nodes, k - 1))
      ensures next.Length == NFRAMES && Succ(NodeAt(nodes, k - 1)) == NodeAt(nodes, k)
    {
    }

    /** Nodes at different positions differ. */
    lemma Apart(k: int, j: int)
      requires Valid() && 0 <= k <= |nodes| && 0 <= j <= |nodes| && NodeAt(nodes, k - 1) == NodeAt(nodes, j - 1)
      ensures k == j
    {
    }

    lemma Ends(k: int)
      requires Valid() && 0 <= k <= |nodes| && NodeAt(nodes, k) == NULL
      ensures k == |nodes|
    {
    }

    /** A null link leaves the tail, or a frame that is off the queue. */
    lemma DeadEnd(p: int)
      requires Valid() && Clean(NULL) && (p == NULL || ((p == DUMMY || IsFrame(p)) && Succ(p) == NULL))
      ensures (if p == DUMMY then 0 else IndexOf(nodes, p) + 1) >= |nodes|
    {
      if IsFrame(p) && IndexOf(nodes, p) < |nodes| {
        Follow(IndexOf(nodes, p) + 1);
      } else if p == DUMMY {
        Follow(0);
      }
    }

    /** Any other link leads to the next node of the queue. */
    lemma Place(p: int) returns (x: nat)
      requires Valid() && Clean(NULL) && (p == DUMMY || IsFrame(p)) && Succ(p) != NULL
      ensures x < |nodes| && p == NodeAt(nodes, x - 1) && x == if p == DUMMY then 0 else IndexOf(nodes, p) + 1
    {
      x := if p == DUMMY then 0 else IndexOf(nodes, p) + 1;
      Follow(if x <= |nodes| then x else 0);
    }

    method SetSucc(p: int, q: int)
      requires next.Length == NFRAMES && (p == DUMMY || IsFrame(p))
      modifies this`first, next
      ensures Succ(p) == q
      ensures forall x {:trigger Succ(x)} :: (x == DUMMY || IsFrame(x)) && x != p ==> Succ(x) == old(Succ(x))
      ensures forall i :: 0 <= i < NFRAMES && i != p ==> next[i] == old(next[i])
    {
      if p == DUMMY {
        first := q;
      } else {
        next[p] := q;
      }
    }

    /** `frm_enqueue`: the frame joins at the tail. */
    method Enqueue(i: int)
      requires Valid() && Clean(NULL) && IsFrame(i) && i !in nodes
      modifies this, next
      ensures Valid() && Clean(NULL) && nodes == old(nodes) + [i] && hist == Stamped(old(hist), i)
    {
      ghost var before := nodes;
      assert Succ(i) == NULL;
      SetSucc(tail, i);
      tail := i;
      nodes := nodes + [i];
      hist := Stamped(hist, i);
      forall k | -1 <= k < |nodes|
        ensures Succ(NodeAt(nodes, k)) == NodeAt(nodes, k + 1)
      {
        if k < |before| - 1 {
          assert old(Succ(NodeAt(before, k))) == NodeAt(before, k + 1);
          assert NodeAt(nodes, k) == NodeAt(before, k) != NodeAt(before, |before| - 1);
        } else if k == |before| - 1 {
          assert NodeAt(nodes, k) == NodeAt(before, k);
        } else {
          assert NodeAt(nodes, k) == i != NodeAt(before, |before| - 1);
          assert Succ(i) == old(Succ(i));
        }
      }
    }

    /** The walk of `frm_remove`: q is frame i, or null if i is not on the queue, and p the
        node before it. */
    method Find(i: int) returns (p: int, q: int, ghost k: nat)
      requires Valid()
      ensures k <= |nodes| && i !in nodes[..k]
      ensures p == NodeAt(nodes, k - 1) && q == NodeAt(nodes, k) && (k < |nodes| ==> q == i)
    {
      p, q, k := DUMMY, Succ(DUMMY), 0;
      assert Succ(NodeAt(nodes, -1)) == NodeAt(nodes, 0);
      while q != NULL && q != i
        invariant 0 <= k <= |nodes|
        invariant p == NodeAt(nodes, k - 1)
        invariant q == NodeAt(nodes, k)
        invariant i !in nodes[..k]
        decreases |nodes| - k
      {
        assert nodes[..k + 1] == nodes[..k] + [nodes[k]];
        assert Succ(NodeAt(nodes, k)) == NodeAt(nodes, k + 1);
        p, q, k := q, Succ(q), k + 1;
      }
    }

    /** The relinking of `frm_remove`, around the k-th node. */
    method Unlink(p: int, q: int, ghost k: nat)
      requires Valid() && Clean(NULL) && k < |nodes| && q == nodes[k]
      requires p == NodeAt(nodes, k - 1)
      modifies this, next
      ensures Valid() && Clean(q) && nodes == old(nodes[..k] + nodes[k + 1..]) && hist == old(hist)
    {
      hide NoDup;
      ghost var before := nodes;
      assert Succ(NodeAt(nodes, k)) == NodeAt(nodes, k + 1);
      NodesApart(nodes, k - 1);
      SetSucc(p, Succ(q));
      if q == tail {
        tail := p;
      }
      RemovedNodes(nodes, k);
      nodes := nodes[..k] + nodes[k + 1..];
      forall j | 0 <= j < |nodes|
        ensures IsFrame(nodes[j])
      {
        assert nodes[j] == before[if j < k then j else j + 1];
      }
      forall j | -1 <= j < |nodes|
        ensures Succ(NodeAt(nodes, j)) == NodeAt(nodes, j + 1)
      {
        var j0 := if j < k then j else j + 1;
        assert NodeAt(nodes, j) == NodeAt(before, j0);
        assert old(Succ(NodeAt(before, j0))) == NodeAt(before, j0 + 1);
      }
    }

    /** `frm_remove`: the node before frame i, found by walking from the dummy, is linked
        past it, and the tail moves back if i was last. Off the queue, nothing happens. The
        link out of i stays as it was. */
    method Remove(i: int)
      requires Valid() && Clean(NULL)
      modifies this, next
      ensures Valid() && Clean(i) && nodes == Without(old(nodes), i) && hist == old(hist)
    {
      ghost var k;
      var p, q;
      p, q, k := Find(i);
      WithoutAt(nodes, i, k);
      if q != NULL {
        Unlink(p, q, k);
      }
    }

    /** The part of `reset_frm_entry` that concerns the queue. */
    method ResetLink(i: int)
      requires Valid() && Clean(i) && IsFrame(i) && i !in nodes
      modifies next
      ensures Valid() && Clean(NULL)
    {
      next[i] := NULL;
      forall k | -1 <= k < |nodes|
        ensures Succ(NodeAt(nodes, k)) == NodeAt(nodes, k + 1)
      {
        assert k >= 0 ==> nodes[k] in nodes;
        assert old(Succ(NodeAt(nodes, k))) == NodeAt(nodes, k + 1);
      }
    }
  }

  lemma {:induction false} WithoutAt(q: seq<int>, i: int, k: nat)
    requires k <= |q| && i !in q[..k] && (k < |q| ==> q[k] == i)
    ensures Without(q, i) == if k < |q| then q[..k] + q[k + 1..] else q
  {
    if q != [] && k > 0 {
      assert q[0] in q[..k];
      assert q[1..][..k - 1] == q[1..k];
      forall x | x in q[1..k] ensures x in q[..k] { }
      WithoutAt(q[1..], i, k - 1);
    }
  }

  lemma NodesApart(q: seq<int>, k: int)
    requires NoDup(q) && -1 <= k < |q| && forall j :: 0 <= j < |q| ==> IsFrame(q[j])
    ensures forall j {:trigger NodeAt(q, j)} :: -1 <= j < |q| && j != k ==> NodeAt(q, j) != NodeAt(q, k)
  {
  }

  lemma RemovedNodes(q: seq<int>, k: nat)
    requires k < |q| && NoDup(q)
    ensures var r := q[..k] + q[k + 1..];
      NoDup(r) && q[k] !in r && forall x :: x in r <==> x in q && x != q[k]
  {
    var r := q[..k] + q[k + 1..];
    forall x | x in q && x != q[k] ensures x in r
    {
      var j :| 0 <= j < |q| && q[j] == x;
      assert if j < k then r[j] == x else r[j - 1] == x;
    }
  }
}
