/** The library's quicksort, lib/libxc/qsort.c: records of a given number of bytes are
    sorted in place, around a pivot block that grows in the middle. */
module QSort {
  import opened Machine

  type Elem = seq<Byte>
  type Comparison = (Elem, Elem) -> int

  /** The order a caller promises: cmp is negative, zero or positive as x is below, equal
      or above y in a total preorder. */
  ghost predicate Preorder(cmp: Comparison) {
    && (forall x, y :: cmp(x, y) < 0 <==> cmp(y, x) > 0)
    && (forall x, y, z :: cmp(x, y) <= 0 && cmp(y, z) <= 0 ==> cmp(x, z) <= 0)
  }

  ghost predicate Sorted(cmp: Comparison, e: seq<Elem>) {
    forall x, y :: 0 <= x < y < |e| ==> cmp(e[x], e[y]) <= 0
  }

  // --------------------------------------------------------------------------- records

  /** Where record k starts. */
  function At(k: nat, es: nat): nat { k * es }

  lemma Blocks(k: nat, k2: nat, es: nat)
    requires k < k2
    ensures At(k, es) + es <= At(k2, es)
  {
    assert k2 * es == k * es + es + (k2 - k - 1) * es;
    assert (k2 - k - 1) * es >= 0;
  }

  /** Record k of a block of bytes. */
  function Record(b: seq<Byte>, es: nat, n: nat, k: nat): (r: Elem)
    requires es > 0 && |b| == At(n, es) && k < n
    ensures |r| == es
  {
    Blocks(k, n, es);
    b[At(k, es)..At(k, es) + es]
  }

  /** The bytes as n records. */
  ghost function Records(b: seq<Byte>, es: nat, n: nat): (r: seq<Elem>)
    requires es > 0 && |b| == At(n, es)
    ensures |r| == n
  {
    seq(n, k requires 0 <= k < n => Record(b, es, n, k))
  }

  /** The middle that qs1 computes in bytes is the middle record. */
  lemma MiddleRecord(n: nat, es: nat)
    requires es > 0
    ensures es * (n * es / (2 * es)) == n / 2 * es
  {
    var h := n / 2;
    assert n == 2 * h || n == 2 * h + 1;
    if n == 2 * h {
      assert n * es == h * (2 * es) + 0;
      Quotient(n * es, 2 * es, h, 0);
    } else {
      assert n * es == h * (2 * es) + es;
      Quotient(n * es, 2 * es, h, es);
    }
  }

  lemma Quotient(x: int, d: int, q: int, r: int)
    requires d > 0 && 0 <= r < d && x == q * d + r
    ensures x / d == q
  {
    Unique(d, q, r, x / d, x % d);
  }

  lemma Unique(d: int, q: int, r: int, q2: int, r2: int)
    requires 0 <= r < d && 0 <= r2 < d && q * d + r == q2 * d + r2
    ensures q == q2
  {
    assert (q - q2) * d == r2 - r && (q2 - q) * d == r - r2;
    if q > q2 { Stretch(q - q2, d); }
    if q < q2 { Stretch(q2 - q, d); }
  }

  lemma Stretch(k: int, d: int)
    requires k >= 1 && d >= 0
    ensures k * d >= d
  {
  }

  function Swap(e: seq<Elem>, i: nat, j: nat): seq<Elem>
    requires i < |e| && j < |e|
  {
    e[i := e[j]][j := e[i]]
  }

  /** i takes from k, k from j, and j from i; j and k may be the same. */
  function Rotate(e: seq<Elem>, i: nat, j: nat, k: nat): seq<Elem>
    requires i < |e| && j < |e| && k < |e|
  {
    e[i := e[k]][k := e[j]][j := e[i]]
  }

  lemma Apart(k: nat, i: nat, es: nat, n: nat)
    requires k < n && i < n && k != i
    ensures At(k, es) + es <= At(i, es) || At(i, es) + es <= At(k, es)
    ensures At(k, es) + es <= At(n, es) && At(i, es) + es <= At(n, es)
  {
    Blocks(k, n, es);
    Blocks(i, n, es);
    if k < i { Blocks(k, i, es); } else { Blocks(i, k, es); }
  }

  /** Byte y after the block at bi has taken from bk, that from bj, and that from bi; bj and
      bk may be the same, and then two blocks have changed places. */
  function ByteAfter(b: seq<Byte>, es: nat, bi: nat, bj: nat, bk: nat, y: nat): Byte
    requires bi + es <= |b| && bj + es <= |b| && bk + es <= |b| && y < |b|
  {
    if bi <= y < bi + es then b[y - bi + bk]
    else if bj <= y < bj + es then b[y - bj + bi]
    else if bk <= y < bk + es then b[y - bk + bj]
    else b[y]
  }

  ghost predicate BytesRotated(b: seq<Byte>, b2: seq<Byte>, es: nat, bi: nat, bj: nat, bk: nat) {
    && |b| == |b2| && bi + es <= |b| && bj + es <= |b| && bk + es <= |b|
    && forall y :: 0 <= y < |b| ==> b2[y] == ByteAfter(b, es, bi, bj, bk, y)
  }

  lemma Moved(b: seq<Byte>, b2: seq<Byte>, es: nat, to: nat, from: nat)
    requires |b| == |b2| && to + es <= |b| && from + es <= |b|
    requires forall y :: to <= y < to + es ==> b2[y] == b[y - to + from]
    ensures b2[to..to + es] == b[from..from + es]
  {
  }

  lemma RotatedOther(b: seq<Byte>, b2: seq<Byte>, es: nat, n: nat, i: nat, j: nat, k: nat, x: nat)
    requires es > 0 && |b| == At(n, es) && i < n && j < n && k < n && x < n && x != i && x != j && x != k
    requires BytesRotated(b, b2, es, At(i, es), At(j, es), At(k, es))
    ensures Record(b2, es, n, x) == Record(b, es, n, x)
  {
    hide At;
    Apart(x, i, es, n);
    Apart(x, j, es, n);
    Apart(x, k, es, n);
    Moved(b, b2, es, At(x, es), At(x, es));
  }

  lemma RotatedThree(b: seq<Byte>, b2: seq<Byte>, es: nat, n: nat, i: nat, j: nat, k: nat)
    requires es > 0 && |b| == At(n, es) && i < n && j < n && k < n && i != j && i != k
    requires BytesRotated(b, b2, es, At(i, es), At(j, es), At(k, es))
    ensures Record(b2, es, n, i) == Record(b, es, n, k) && Record(b2, es, n, j) == Record(b, es, n, i)
    ensures j != k ==> Record(b2, es, n, k) == Record(b, es, n, j)
  {
    hide At;
    Apart(i, j, es, n);
    Apart(i, k, es, n);
    Moved(b, b2, es, At(i, es), At(k, es));
    Moved(b, b2, es, At(j, es), At(i, es));
    if j != k {
      Apart(j, k, es, n);
      Moved(b, b2, es, At(k, es), At(j, es));
    }
  }

  /** What moves the bytes moves the records. */
  lemma RotatedRecords(b: seq<Byte>, b2: seq<Byte>, es: nat, n: nat, i: nat, j: nat, k: nat)
    requires es > 0 && |b| == At(n, es) && i < n && j < n && k < n && i != j && i != k
    requires BytesRotated(b, b2, es, At(i, es), At(j, es), At(k, es))
    ensures Records(b2, es, n) == Rotate(Records(b, es, n), i, j, k)
  {
    hide At, Record;
    RotatedThree(b, b2, es, n, i, j, k);
    forall x | 0 <= x < n && x != i && x != j && x != k
      ensures Record(b2, es, n, x) == Record(b, es, n, x)
    {
      RotatedOther(b, b2, es, n, i, j, k, x);
    }
  }

  /** `qsexc`: byte by byte; the two blocks may be the same. */
  method ExchangeBytes(a: array<Byte>, es: nat, bi: nat, bj: nat)
    requires bi + es <= a.Length && bj + es <= a.Length && (bi == bj || bi + es <= bj || bj + es <= bi)
    modifies a
    ensures BytesRotated(old(a[..]), a[..], es, bi, bj, bj)
  {
    ghost var b := a[..];
    var m := 0;
    while m < es
      invariant 0 <= m <= es
      invariant forall y :: 0 <= y < a.Length ==> a[y] == ByteAfter(b, m, bi, bj, bj, y)
    {
      var c := a[bi + m];
      a[bi + m] := a[bj + m];
      a[bj + m] := c;
      m := m + 1;
    }
  }

  /** `qstexc`; the second and third block may be the same. */
  method RotateBytes(a: array<Byte>, es: nat, bi: nat, bj: nat, bk: nat)
    requires bi + es <= a.Length && bj + es <= a.Length && bk + es <= a.Length
    requires (bi + es <= bj || bj + es <= bi) && (bi + es <= bk || bk + es <= bi) && (bj == bk || bj + es <= bk || bk + es <= bj)
    modifies a
    ensures BytesRotated(old(a[..]), a[..], es, bi, bj, bk)
  {
    ghost var b := a[..];
    var m := 0;
    while m < es
      invariant 0 <= m <= es
      invariant forall y :: 0 <= y < a.Length ==> a[y] == ByteAfter(b, m, bi, bj, bk, y)
    {
      var c := a[bi + m];
      a[bi + m] := a[bk + m];
      a[bk + m] := a[bj + m];
      a[bj + m] := c;
      m := m + 1;
    }
  }

  method Exchange(a: array<Byte>, es: nat, ghost n: nat, i: nat, j: nat)
    requires es > 0 && a.Length == At(n, es) && i < n && j < n
    modifies a
    ensures Records(a[..], es, n) == Swap(Records(old(a[..]), es, n), i, j)
  {
    hide At;
    Blocks(i, n, es);
    Blocks(j, n, es);
    ghost var b := a[..];
    if i != j { Apart(i, j, es, n); }
    ExchangeBytes(a, es, At(i, es), At(j, es));
    if i != j {
      RotatedRecords(b, a[..], es, n, i, j, j);
    } else {
      assert a[..] == b;
    }
  }

  method Exchange3(a: array<Byte>, es: nat, ghost n: nat, i: nat, j: nat, k: nat)
    requires es > 0 && a.Length == At(n, es) && i < n && j < n && k < n && i != j && i != k
    modifies a
    ensures Records(a[..], es, n) == Rotate(Records(old(a[..]), es, n), i, j, k)
  {
    hide At;
    Apart(i, j, es, n);
    Apart(i, k, es, n);
    if j != k { Apart(j, k, es, n); }
    ghost var b := a[..];
    RotateBytes(a, es, At(i, es), At(j, es), At(k, es));
    RotatedRecords(b, a[..], es, n, i, j, k);
  }

  // ------------------------------------------------------------------------- partition

  /** Only records lo to hi - 1 may differ, and they are the same ones in some order. */
  ghost predicate Reordered(e: seq<Elem>, e2: seq<Elem>, lo: nat, hi: nat) {
    && |e| == |e2| && lo <= hi <= |e|
    && e[..lo] == e2[..lo] && e[hi..] == e2[hi..] && multiset(e[lo..hi]) == multiset(e2[lo..hi])
  }

  lemma SwapReorders(e: seq<Elem>, i: nat, j: nat, lo: nat, hi: nat)
    requires lo <= i < hi <= |e| && lo <= j < hi
    ensures Reordered(e, Swap(e, i, j), lo, hi)
  {
    var e2 := Swap(e, i, j);
    var s, s2 := e[lo..hi], e2[lo..hi];
    assert s2 == s[i - lo := s[j - lo]][j - lo := s[i - lo]];
  }

  lemma ReorderedTrans(a: seq<Elem>, b: seq<Elem>, c: seq<Elem>, lo: nat, hi: nat)
    requires Reordered(a, b, lo, hi) && Reordered(b, c, lo, hi)
    ensures Reordered(a, c, lo, hi)
  {
  }

  lemma RotateReorders(e: seq<Elem>, i: nat, j: nat, k: nat, lo: nat, hi: nat)
    requires lo <= i < hi <= |e| && lo <= j < hi && lo <= k < hi && i != j && i != k
    ensures Reordered(e, Rotate(e, i, j, k), lo, hi)
  {
    var e1 := Swap(e, i, k);
    SwapReorders(e, i, k, lo, hi);
    SwapReorders(e1, j, k, lo, hi);
    assert Rotate(e, i, j, k) == if j == k then e1 else Swap(e1, j, k);
    if j != k { ReorderedTrans(e, e1, Swap(e1, j, k), lo, hi); }
  }

  /** The state of the partition: records below the pivot p from lo to i - 1, equal to it
      from lp to hp, above it from j + 1 to hi - 1. */
  ghost predicate Parted(cmp: Comparison, e: seq<Elem>, p: Elem, lo: nat, i: nat, lp: nat, hp: nat, j: nat, hi: nat) {
    && lo <= i <= lp <= hp <= j < hi <= |e|
    && (forall x :: lo <= x < i ==> cmp(e[x], p) < 0)
    && (forall x :: lp <= x <= hp ==> cmp(e[x], p) == 0)
    && (forall x :: j < x < hi ==> cmp(e[x], p) > 0)
  }

  /** Comparing with a record of the pivot block is comparing with the pivot. */
  lemma LikePivot(cmp: Comparison, x: Elem, y: Elem, p: Elem)
    requires Preorder(cmp) && cmp(y, p) == 0
    ensures cmp(x, y) < 0 <==> cmp(x, p) < 0
    ensures cmp(x, y) > 0 <==> cmp(x, p) > 0
    ensures cmp(y, x) > 0 <==> cmp(x, p) < 0
    ensures cmp(y, x) < 0 <==> cmp(x, p) > 0
  {
    assert cmp(p, y) == 0;
    if cmp(x, p) <= 0 { assert cmp(x, y) <= 0; }
    if cmp(x, y) <= 0 { assert cmp(x, p) <= 0; }
    if cmp(p, x) <= 0 { assert cmp(y, x) <= 0; }
    if cmp(y, x) <= 0 { assert cmp(p, x) <= 0; }
  }

  /** Where a step at the low end leads, by what the code compares. */
  lemma LowStep(cmp: Comparison, e: seq<Elem>, p: Elem, lo: nat, i: nat, lp: nat, hp: nat, j: nat, hi: nat)
    requires Preorder(cmp) && Parted(cmp, e, p, lo, i, lp, hp, j, hi) && i < lp
    ensures cmp(e[i], e[lp]) == 0 ==> Parted(cmp, Swap(e, i, lp - 1), p, lo, i, lp - 1, hp, j, hi)
    ensures cmp(e[i], e[lp]) < 0 ==> Parted(cmp, e, p, lo, i + 1, lp, hp, j, hi)
    ensures cmp(e[i], e[lp]) > 0 ==> cmp(e[i], p) > 0
  {
    LikePivot(cmp, e[i], e[lp], p);
    hide Preorder;
  }

  /** The same at the high end. */
  lemma HighStep(cmp: Comparison, e: seq<Elem>, p: Elem, lo: nat, i: nat, lp: nat, hp: nat, j: nat, hi: nat)
    requires Preorder(cmp) && Parted(cmp, e, p, lo, i, lp, hp, j, hi) && hp < j
    ensures cmp(e[hp], e[j]) == 0 ==> Parted(cmp, Swap(e, hp + 1, j), p, lo, i, lp, hp + 1, j, hi)
    ensures cmp(e[hp], e[j]) < 0 ==> Parted(cmp, e, p, lo, i, lp, hp, j - 1, hi)
    ensures cmp(e[hp], e[j]) > 0 ==> cmp(e[j], p) < 0
    ensures i < lp ==> Swap(e, hp + 1, j)[i] == e[i]
  {
    LikePivot(cmp, e[j], e[hp], p);
    hide Preorder;
  }

  /** A record below the pivot at the high end changes places with the pivot block or with
      one above the pivot at the low end. */
  lemma CrossStep(cmp: Comparison, e: seq<Elem>, p: Elem, lo: nat, i: nat, lp: nat, hp: nat, j: nat, hi: nat)
    requires Parted(cmp, e, p, lo, i, lp, hp, j, hi) && hp < j && cmp(e[j], p) < 0
    ensures i == lp ==> Parted(cmp, Rotate(e, i, hp + 1, j), p, lo, lp + 1, lp + 1, hp + 1, j, hi)
    ensures i < lp && cmp(e[i], p) > 0 ==> Parted(cmp, Swap(e, i, j), p, lo, i + 1, lp, hp, j - 1, hi)
  {
  }

  /** A record above the pivot at the low end, when nothing is left at the high end. */
  lemma ShiftStep(cmp: Comparison, e: seq<Elem>, p: Elem, lo: nat, i: nat, lp: nat, hp: nat, hi: nat)
    requires Parted(cmp, e, p, lo, i, lp, hp, hp, hi) && i < lp && cmp(e[i], p) > 0
    ensures Parted(cmp, Rotate(e, hp, lp - 1, i), p, lo, i, lp - 1, hp - 1, hp - 1, hi)
  {
  }

  lemma PivotItself(cmp: Comparison, e: seq<Elem>, lo: nat, m: nat, hi: nat)
    requires Preorder(cmp) && lo <= m < hi <= |e|
    ensures Parted(cmp, e, e[m], lo, lo, m, m, hi - 1, hi)
  {
  }

  lemma PivotFound(cmp: Comparison, e: seq<Elem>, p: Elem, lo: nat, lp: nat, hp: nat, hi: nat)
    requires Preorder(cmp) && Parted(cmp, e, p, lo, lp, lp, hp, hp, hi)
    ensures Parted(cmp, e, e[lp], lo, lp, lp, hp, hp, hi)
    ensures cmp(e[lp], p) == 0
  {
    forall x | lo <= x < hi
      ensures cmp(e[x], p) < 0 <==> cmp(e[x], e[lp]) < 0
      ensures cmp(e[x], p) > 0 <==> cmp(e[x], e[lp]) > 0
    {
      LikePivot(cmp, e[x], e[lp], p);
    }
  }

  lemma SwapStep(e0: seq<Elem>, e: seq<Elem>, i: nat, j: nat, lo: nat, hi: nat)
    requires Reordered(e0, e, lo, hi) && lo <= i < hi && lo <= j < hi
    ensures Reordered(e0, Swap(e, i, j), lo, hi)
  {
    SwapReorders(e, i, j, lo, hi);
    ReorderedTrans(e0, e, Swap(e, i, j), lo, hi);
  }

  lemma RotateStep(e0: seq<Elem>, e: seq<Elem>, i: nat, j: nat, k: nat, lo: nat, hi: nat)
    requires Reordered(e0, e, lo, hi) && lo <= i < hi && lo <= j < hi && lo <= k < hi && i != j && i != k
    ensures Reordered(e0, Rotate(e, i, j, k), lo, hi)
  {
    RotateReorders(e, i, j, k, lo, hi);
    ReorderedTrans(e0, e, Rotate(e, i, j, k), lo, hi);
  }

  function ReadRecord(a: array<Byte>, es: nat, n: nat, k: nat): (r: Elem)
    reads a
    requires es > 0 && a.Length == At(n, es) && k < n
    ensures r == Records(a[..], es, n)[k]
  {
    Blocks(k, n, es);
    a[At(k, es)..At(k, es) + es]
  }

  /** What the partition loop keeps: e is a rearrangement of e0, and parted if the caller
      keeps its promise. */
  ghost predicate Going(cmp: Comparison, e0: seq<Elem>, e: seq<Elem>, p: Elem, lo: nat, i: nat, lp: nat, hp: nat, j: nat, hi: nat) {
    && lo <= i <= lp <= hp <= j < hi <= |e| && Reordered(e0, e, lo, hi)
    && (Preorder(cmp) ==> Parted(cmp, e, p, lo, i, lp, hp, j, hi))
  }

  /** The record at i, if there is one, is above the pivot. */
  ghost predicate Stuck(cmp: Comparison, e: seq<Elem>, p: Elem, i: nat, lp: nat) {
    i < lp <= |e| && Preorder(cmp) ==> cmp(e[i], p) > 0
  }

  lemma Start(cmp: Comparison, e: seq<Elem>, lo: nat, m: nat, hi: nat)
    requires lo <= m < hi <= |e|
    ensures Going(cmp, e, e, e[m], lo, lo, m, m, hi - 1, hi)
  {
    if Preorder(cmp) { PivotItself(cmp, e, lo, m, hi); }
  }

  lemma LowGoes(cmp: Comparison, e0: seq<Elem>, e: seq<Elem>, p: Elem, lo: nat, i: nat, lp: nat, hp: nat, j: nat, hi: nat)
    requires Going(cmp, e0, e, p, lo, i, lp, hp, j, hi) && i < lp
    ensures cmp(e[i], e[lp]) == 0 ==> Going(cmp, e0, Swap(e, i, lp - 1), p, lo, i, lp - 1, hp, j, hi)
    ensures cmp(e[i], e[lp]) < 0 ==> Going(cmp, e0, e, p, lo, i + 1, lp, hp, j, hi)
    ensures cmp(e[i], e[lp]) > 0 ==> Stuck(cmp, e, p, i, lp)
  {
    hide Preorder, Reordered, Parted, Swap;
    SwapStep(e0, e, i, lp - 1, lo, hi);
    if Preorder(cmp) { LowStep(cmp, e, p, lo, i, lp, hp, j, hi); }
  }

  lemma HighGoes(cmp: Comparison, e0: seq<Elem>, e: seq<Elem>, p: Elem, lo: nat, i: nat, lp: nat, hp: nat, j: nat, hi: nat)
    requires Going(cmp, e0, e, p, lo, i, lp, hp, j, hi) && Stuck(cmp, e, p, i, lp) && hp < j
    ensures cmp(e[hp], e[j]) == 0 ==>
      Going(cmp, e0, Swap(e, hp + 1, j), p, lo, i, lp, hp + 1, j, hi) && Stuck(cmp, Swap(e, hp + 1, j), p, i, lp)
    ensures cmp(e[hp], e[j]) < 0 ==> Going(cmp, e0, e, p, lo, i, lp, hp, j - 1, hi)
    ensures cmp(e[hp], e[j]) > 0 && i == lp ==>
      Going(cmp, e0, Rotate(e, i, hp + 1, j), p, lo, lp + 1, lp + 1, hp + 1, j, hi)
    ensures cmp(e[hp], e[j]) > 0 && i < lp ==> Going(cmp, e0, Swap(e, i, j), p, lo, i + 1, lp, hp, j - 1, hi)
  {
    hide Preorder, Reordered, Parted, Rotate;
    SwapStep(e0, e, hp + 1, j, lo, hi);
    RotateStep(e0, e, i, hp + 1, j, lo, hi);
    SwapStep(e0, e, i, j, lo, hi);
    if Preorder(cmp) {
      HighStep(cmp, e, p, lo, i, lp, hp, j, hi);
      if cmp(e[j], p) < 0 { CrossStep(cmp, e, p, lo, i, lp, hp, j, hi); }
    }
  }

  lemma ShiftGoes(cmp: Comparison, e0: seq<Elem>, e: seq<Elem>, p: Elem, lo: nat, i: nat, lp: nat, hp: nat, hi: nat)
    requires Going(cmp, e0, e, p, lo, i, lp, hp, hp, hi) && Stuck(cmp, e, p, i, lp)
    ensures i < lp ==> Going(cmp, e0, Rotate(e, hp, lp - 1, i), p, lo, i, lp - 1, hp - 1, hp - 1, hi)
    ensures i == lp && Preorder(cmp) ==> Parted(cmp, e, e[lp], lo, lp, lp, hp, hp, hi) && cmp(e[lp], p) == 0
    ensures Reordered(e0, e, lo, hi)
  {
    hide Preorder, Reordered, Parted, Rotate;
    if i < lp {
      RotateStep(e0, e, hp, lp - 1, i, lo, hi);
      if Preorder(cmp) { ShiftStep(cmp, e, p, lo, i, lp, hp, hi); }
    } else if Preorder(cmp) {
      PivotFound(cmp, e, p, lo, lp, hp, hi);
    }
  }

  /** The loop of `qs1` between two splits: from any comparison function, a rearrangement;
      from a preorder, one in which lp to hp hold the records equal to the pivot, with the
      smaller ones before and the larger ones after. */
  method Partition(a: array<Byte>, es: nat, cmp: Comparison, n: nat, lo: nat, hi: nat)
    returns (lp: nat, hp: nat)
    requires es > 0 && a.Length == At(n, es) && lo + 2 <= hi <= n
    modifies a
    ensures lo <= lp <= hp < hi && Reordered(Records(old(a[..]), es, n), Records(a[..], es, n), lo, hi)
    ensures Preorder(cmp) ==>
      var e := Records(a[..], es, n); Parted(cmp, e, e[lp], lo, lp, lp, hp, hp, hi)
    ensures Preorder(cmp) ==> cmp(Records(a[..], es, n)[lp], Records(old(a[..]), es, n)[lo + (hi - lo) / 2]) == 0
  {
    hide At, Preorder, Parted, Swap, Rotate, Reordered, Records, Stuck, Going;
    ghost var e0 := Records(a[..], es, n);
    hp := lo + (hi - lo) / 2;
    lp := hp;
    var i: nat, j: nat := lo, hi - 1;
    ghost var p, e := e0[lp], e0;
    Start(cmp, e, lo, lp, hi);
    label outer:
    while true
      invariant lo <= i <= lp <= hp <= j < hi
      invariant e == Records(a[..], es, n) && Going(cmp, e0, e, p, lo, i, lp, hp, j, hi)
      decreases lp - i + j - hp
    {
      ghost var work := lp - i + j - hp;
      if i < lp {
        var c := cmp(ReadRecord(a, es, n, i), ReadRecord(a, es, n, lp));
        LowGoes(cmp, e0, e, p, lo, i, lp, hp, j, hi);
        if c == 0 {
          lp := lp - 1;
          Exchange(a, es, n, i, lp);
          e := Swap(e, i, lp);
          continue;
        }
        if c < 0 {
          i := i + 1;
          continue;
        }
      }
      StuckNone(cmp, e, p, i, lp);
      while j > hp
        invariant lo <= i <= lp <= hp <= j < hi
        invariant e == Records(a[..], es, n) && Going(cmp, e0, e, p, lo, i, lp, hp, j, hi)
        invariant Stuck(cmp, e, p, i, lp) && lp - i + j - hp <= work
        decreases j - hp
      {
        var c := cmp(ReadRecord(a, es, n, hp), ReadRecord(a, es, n, j));
        HighGoes(cmp, e0, e, p, lo, i, lp, hp, j, hi);
        if c == 0 {
          hp := hp + 1;
          Exchange(a, es, n, hp, j);
          e := Swap(e, hp, j);
          continue;
        }
        if c > 0 {
          if i == lp {
            hp := hp + 1;
            Exchange3(a, es, n, i, hp, j);
            e := Rotate(e, i, hp, j);
            lp := lp + 1;
            i := lp;
            StuckNone(cmp, e, p, i, lp);
            continue;
          }
          Exchange(a, es, n, i, j);
          e := Swap(e, i, j);
          j := j - 1;
          i := i + 1;
          continue outer;
        }
        j := j - 1;
      }
      ShiftGoes(cmp, e0, e, p, lo, i, lp, hp, hi);
      if i == lp {
        return;
      }
      lp := lp - 1;
      Exchange3(a, es, n, j, lp, i);
      e := Rotate(e, j, lp, i);
      hp := hp - 1;
      j := hp;
    }
  }

  lemma StuckNone(cmp: Comparison, e: seq<Elem>, p: Elem, i: nat, lp: nat)
    ensures i >= lp ==> Stuck(cmp, e, p, i, lp)
  {
  }

  // ------------------------------------------------------------------------ the recursion

  /** Records x < y between lo and hi are in order unless both lie in one of two blocks. */
  ghost predicate OrderedBut(cmp: Comparison, e: seq<Elem>, lo: nat, hi: nat, a1: nat, b1: nat, a2: nat, b2: nat) {
    hi <= |e| && forall x, y :: lo <= x < y < hi && !(a1 <= x && y < b1) && !(a2 <= x && y < b2) ==> cmp(e[x], e[y]) <= 0
  }

  /** Every record of a rearranged block comes from the block. */
  lemma ComesFrom(e: seq<Elem>, e2: seq<Elem>, lo: nat, hi: nat, y: nat) returns (z: nat)
    requires Reordered(e, e2, lo, hi) && y < |e|
    ensures z < |e| && e[z] == e2[y] && (lo <= z < hi <==> lo <= y < hi) && (lo <= y < hi || z == y)
  {
    if lo <= y < hi {
      assert e2[lo..hi][y - lo] in multiset(e[lo..hi]);
      var k :| 0 <= k < hi - lo && e[lo..hi][k] == e2[y];
      z := lo + k;
    } else {
      z := y;
      if y < lo { assert e[..lo][y] == e2[..lo][y]; } else { assert e[hi..][y - hi] == e2[hi..][y - hi]; }
    }
  }

  lemma RearrangeBlock(cmp: Comparison, e: seq<Elem>, e2: seq<Elem>, lo: nat, hi: nat, a1: nat, b1: nat, a2: nat, b2: nat)
    requires OrderedBut(cmp, e, lo, hi, a1, b1, a2, b2) && Reordered(e, e2, a2, b2)
    requires lo <= a2 <= b2 <= hi && (b1 <= a2 || b2 <= a1)
    ensures OrderedBut(cmp, e2, lo, hi, a1, b1, a2, b2)
  {
    forall x, y | lo <= x < y < hi && !(a1 <= x && y < b1) && !(a2 <= x && y < b2)
      ensures cmp(e2[x], e2[y]) <= 0
    {
      var x0 := ComesFrom(e, e2, a2, b2, x);
      var y0 := ComesFrom(e, e2, a2, b2, y);
      assert x0 < y0;
    }
  }

  lemma SortedBlock(cmp: Comparison, e: seq<Elem>, lo: nat, hi: nat, a1: nat, b1: nat, a2: nat, b2: nat)
    requires OrderedBut(cmp, e, lo, hi, a1, b1, a2, b2) && a2 <= b2 <= |e| && Sorted(cmp, e[a2..b2])
    ensures OrderedBut(cmp, e, lo, hi, a1, b1, 0, 0)
  {
    forall x, y | lo <= x < y < hi && !(a1 <= x && y < b1)
      ensures cmp(e[x], e[y]) <= 0
    {
      if a2 <= x && y < b2 { assert e[a2..b2][x - a2] == e[x] && e[a2..b2][y - a2] == e[y]; }
    }
  }

  lemma SplitBlock(cmp: Comparison, e: seq<Elem>, lo: nat, hi: nat, a: nat, lp: nat, hp: nat, b: nat)
    requires Preorder(cmp) && OrderedBut(cmp, e, lo, hi, 0, 0, a, b) && lo <= a && b <= hi && a <= lp <= hp < b
    requires Parted(cmp, e, e[lp], a, lp, lp, hp, hp, b)
    ensures OrderedBut(cmp, e, lo, hi, a, lp, hp + 1, b)
  {
    var p := e[lp];
    forall x, y | a <= x < y < b && !(a <= x && y < lp) && !(hp + 1 <= x && y < b)
      ensures cmp(e[x], e[y]) <= 0
    {
      assert cmp(e[x], p) <= 0;
      assert cmp(p, e[y]) <= 0;
    }
  }

  lemma OtherBlock(cmp: Comparison, e: seq<Elem>, lo: nat, hi: nat, a1: nat, b1: nat, a2: nat, b2: nat)
    requires OrderedBut(cmp, e, lo, hi, a1, b1, a2, b2)
    ensures OrderedBut(cmp, e, lo, hi, a2, b2, a1, b1)
  {
  }

  /** Rearranging a part rearranges the whole. */
  lemma PartReorders(e0: seq<Elem>, e: seq<Elem>, e2: seq<Elem>, lo: nat, hi: nat, a: nat, b: nat)
    requires Reordered(e0, e, lo, hi) && Reordered(e, e2, a, b) && lo <= a <= b <= hi
    ensures Reordered(e0, e2, lo, hi)
  {
    assert e[lo..hi] == e[lo..a] + e[a..b] + e[b..hi];
    assert e2[lo..hi] == e2[lo..a] + e2[a..b] + e2[b..hi];
    assert e[lo..a] == e[..a][lo..] && e2[lo..a] == e2[..a][lo..];
    assert e[b..hi] == e[b..][..hi - b] && e2[b..hi] == e2[b..][..hi - b];
    assert e[..lo] == e[..a][..lo] && e2[..lo] == e2[..a][..lo];
    assert e[hi..] == e[b..][hi - b..] && e2[hi..] == e2[b..][hi - b..];
  }

  /** The floor of the binary logarithm, and 0 for 0. */
  function Log2(n: nat): nat { if n <= 1 then 0 else 1 + Log2(n / 2) }

  lemma {:induction false} Log2Grows(m: nat, n: nat)
    requires m <= n
    ensures Log2(m) <= Log2(n)
  {
    if m > 1 { Log2Grows(m / 2, n / 2); }
  }

  lemma Log2Smaller(m: nat, n: nat, k: nat)
    requires 2 * m + 1 <= k <= n && 2 <= k
    ensures Log2(m) + 1 <= Log2(n)
  {
    Log2Grows(m, k / 2);
    Log2Grows(k, n);
  }

  /** Records lo0 to hi0 - 1 are the ones they were, and sorted but for those from lo to hi - 1. */
  ghost predicate Sorting(cmp: Comparison, e0: seq<Elem>, e: seq<Elem>, lo0: nat, lo: nat, hi: nat, hi0: nat) {
    && lo0 <= lo <= hi <= hi0 && Reordered(e0, e, lo0, hi0)
    && (Preorder(cmp) ==> OrderedBut(cmp, e, lo0, hi0, 0, 0, lo, hi))
  }

  /** A partition. */
  lemma RoundStart(cmp: Comparison, e0: seq<Elem>, e: seq<Elem>, e1: seq<Elem>, lo0: nat, lo: nat, lp: nat, hp: nat, hi: nat, hi0: nat)
    requires Sorting(cmp, e0, e, lo0, lo, hi, hi0) && Reordered(e, e1, lo, hi) && lo <= lp <= hp < hi
    requires Preorder(cmp) ==> Parted(cmp, e1, e1[lp], lo, lp, lp, hp, hp, hi)
    ensures Reordered(e0, e1, lo0, hi0) && (Preorder(cmp) ==> OrderedBut(cmp, e1, lo0, hi0, lo, lp, hp + 1, hi))
  {
    hide Preorder, Parted, Sorted, OrderedBut;
    PartReorders(e0, e, e1, lo0, hi0, lo, hi);
    if Preorder(cmp) {
      RearrangeBlock(cmp, e, e1, lo0, hi0, 0, 0, lo, hi);
      SplitBlock(cmp, e1, lo0, hi0, lo, lp, hp, hi);
    }
  }

  /** Then a sort of the high part leaves the low one. */
  lemma RoundHigh(cmp: Comparison, e0: seq<Elem>, e: seq<Elem>, e1: seq<Elem>, e2: seq<Elem>,
                  lo0: nat, lo: nat, lp: nat, hp: nat, hi: nat, hi0: nat)
    requires Sorting(cmp, e0, e, lo0, lo, hi, hi0) && Reordered(e, e1, lo, hi) && lo <= lp <= hp < hi
    requires Preorder(cmp) ==> Parted(cmp, e1, e1[lp], lo, lp, lp, hp, hp, hi)
    requires Reordered(e1, e2, hp + 1, hi) && (Preorder(cmp) ==> Sorted(cmp, e2[hp + 1..hi]))
    ensures Sorting(cmp, e0, e2, lo0, lo, lp, hi0)
  {
    hide Preorder, Parted, Sorted, OrderedBut;
    RoundStart(cmp, e0, e, e1, lo0, lo, lp, hp, hi, hi0);
    PartReorders(e0, e1, e2, lo0, hi0, hp + 1, hi);
    if Preorder(cmp) {
      RearrangeBlock(cmp, e1, e2, lo0, hi0, lo, lp, hp + 1, hi);
      SortedBlock(cmp, e2, lo0, hi0, lo, lp, hp + 1, hi);
      OtherBlock(cmp, e2, lo0, hi0, lo, lp, 0, 0);
    }
  }

  /** And a sort of the low part leaves the high one. */
  lemma RoundLow(cmp: Comparison, e0: seq<Elem>, e: seq<Elem>, e1: seq<Elem>, e2: seq<Elem>,
                 lo0: nat, lo: nat, lp: nat, hp: nat, hi: nat, hi0: nat)
    requires Sorting(cmp, e0, e, lo0, lo, hi, hi0) && Reordered(e, e1, lo, hi) && lo <= lp <= hp < hi
    requires Preorder(cmp) ==> Parted(cmp, e1, e1[lp], lo, lp, lp, hp, hp, hi)
    requires Reordered(e1, e2, lo, lp) && (Preorder(cmp) ==> Sorted(cmp, e2[lo..lp]))
    ensures Sorting(cmp, e0, e2, lo0, hp + 1, hi, hi0)
  {
    hide Preorder, Parted, Sorted, OrderedBut;
    RoundStart(cmp, e0, e, e1, lo0, lo, lp, hp, hi, hi0);
    PartReorders(e0, e1, e2, lo0, hi0, lo, lp);
    if Preorder(cmp) {
      OtherBlock(cmp, e1, lo0, hi0, lo, lp, hp + 1, hi);
      RearrangeBlock(cmp, e1, e2, lo0, hi0, hp + 1, hi, lo, lp);
      SortedBlock(cmp, e2, lo0, hi0, hp + 1, hi, lo, lp);
      OtherBlock(cmp, e2, lo0, hi0, hp + 1, hi, 0, 0);
    }
  }

  lemma Unsorted(cmp: Comparison, e: seq<Elem>, lo: nat, hi: nat)
    requires lo <= hi <= |e|
    ensures Sorting(cmp, e, e, lo, lo, hi, hi)
  {
  }

  lemma Finished(cmp: Comparison, e0: seq<Elem>, e: seq<Elem>, lo0: nat, lo: nat, hi: nat, hi0: nat)
    requires Sorting(cmp, e0, e, lo0, lo, hi, hi0) && hi <= lo + 1
    ensures Reordered(e0, e, lo0, hi0) && (Preorder(cmp) ==> Sorted(cmp, e[lo0..hi0]))
  {
    if Preorder(cmp) {
      forall x, y | 0 <= x < y < hi0 - lo0
        ensures cmp(e[lo0..hi0][x], e[lo0..hi0][y]) <= 0
      {
        assert cmp(e[lo0 + x], e[lo0 + y]) <= 0;
      }
    }
  }

  /** `qs1`: recursion on the part that is not larger, iteration on the other. With `depth`
      the number of activations on the stack at once, this one included. */
  method Qs1(a: array<Byte>, es: nat, cmp: Comparison, n: nat, lo0: nat, hi0: nat) returns (ghost depth: nat)
    requires es > 0 && a.Length == At(n, es) && lo0 <= hi0 <= n
    modifies a
    ensures Reordered(Records(old(a[..]), es, n), Records(a[..], es, n), lo0, hi0)
    ensures Preorder(cmp) ==> Sorted(cmp, Records(a[..], es, n)[lo0..hi0])
    ensures depth <= Log2(hi0 - lo0) + 1
    decreases hi0 - lo0
  {
    hide At, Records, Preorder, Parted, Sorted, Reordered, Sorting, Log2;
    var lo, hi := lo0, hi0;
    depth := 1;
    ghost var e0 := Records(a[..], es, n);
    ghost var e := e0;
    Unsorted(cmp, e, lo0, hi0);
    while hi - lo > 1
      invariant lo0 <= lo <= hi <= hi0 && e == Records(a[..], es, n) && Sorting(cmp, e0, e, lo0, lo, hi, hi0)
      invariant depth <= Log2(hi0 - lo0) + 1
      decreases hi - lo
    {
      ghost var d;
      var lp, hp := Partition(a, es, cmp, n, lo, hi);
      ghost var e1 := Records(a[..], es, n);
      if lp - lo >= hi - hp {
        d := Qs1(a, es, cmp, n, hp + 1, hi);
        RoundHigh(cmp, e0, e, e1, Records(a[..], es, n), lo0, lo, lp, hp, hi, hi0);
        Log2Smaller(hi - hp - 1, hi0 - lo0, hi - lo);
        hi := lp;
      } else {
        d := Qs1(a, es, cmp, n, lo, lp);
        RoundLow(cmp, e0, e, e1, Records(a[..], es, n), lo0, lo, lp, hp, hi, hi0);
        Log2Smaller(lp - lo, hi0 - lo0, hi - lo);
        lo := hp + 1;
      }
      e := Records(a[..], es, n);
      depth := if d + 1 > depth then d + 1 else depth;
    }
    Finished(cmp, e0, e, lo0, lo, hi, hi0);
  }

  /** `qsort`: the records are those that were given; a total preorder comes out sorted; and
      the stack holds at most floor(log2 n) + 1 activations, whatever the comparison does.
      Records of no bytes are left at once. */
  method Qsort(a: array<Byte>, n: nat, es: nat, cmp: Comparison) returns (ghost depth: nat)
    requires a.Length == At(n, es)
    modifies a
    ensures es > 0 ==> multiset(Records(a[..], es, n)) == multiset(Records(old(a[..]), es, n))
    ensures es > 0 && Preorder(cmp) ==> Sorted(cmp, Records(a[..], es, n))
    ensures es == 0 ==> a[..] == old(a[..])
    ensures depth <= Log2(n) + 1
  {
    depth := 1;
    if es > 0 {
      depth := Qs1(a, es, cmp, n, 0, n);
      assert Records(a[..], es, n)[0..n] == Records(a[..], es, n);
      assert Records(old(a[..]), es, n)[0..n] == Records(old(a[..]), es, n);
    }
  }
}
