/** The two page-replacement policies of paging/frame.c: Second-Chance with its clock
    hand, and Aging. Each search ends with a victim or by following a null link. */
module Replacement {
  import opened Machine
  import opened BackingStore
  import opened Frames
  import opened PagingInv
  import opened Tweak

  // --------------------------------------------------------------------- Second-Chance

  predicate Accessed(s: State, i: int) { Linked(s, i) && EntryOf(s, i).acc }

  function ClearAcc(s: State, i: int): State
    requires Linked(s, i)
  {
    SetPte(s, TableOf(s, i), Pti(s.frm[i].vpno), EntryOf(s, i).(acc := false))
  }

  lemma ClearAccEffect(s: State, i: int)
    requires PagesOk(s) && PageFrame(s, i)
    ensures Linked(s, i) && PagesOk(ClearAcc(s, i))
    ensures forall j {:trigger Accessed(ClearAcc(s, i), j)} :: IsFrame(j) ==>
      (Accessed(ClearAcc(s, i), j) <==> Accessed(s, j) && j != i)
  {
    SetEntry(s, i, if Linked(s, i) then EntryOf(s, i).(acc := false) else Pte(false, false, false, 0), i);
    forall j | IsFrame(j)
      ensures Accessed(ClearAcc(s, i), j) <==> Accessed(s, j) && j != i
    {
      SetEntry(s, i, EntryOf(s, i).(acc := false), j);
    }
  }

  /** One lap: pass over the frames in order, clearing access bits, up to the first page
      frame whose bit is clear. The result's second part is its position, or the length. */
  ghost function Sweep(s: State, order: seq<int>): (r: (State, nat))
    requires PagesOk(s)
    ensures r.1 <= |order|
    decreases |order|
  {
    if order == [] then (s, 0)
    else if !PageFrame(s, order[0]) then
      var r := Sweep(s, order[1..]); (r.0, r.1 + 1)
    else if !Accessed(s, order[0]) then (s, 0)
    else
      ClearAccEffect(s, order[0]);
      var r := Sweep(ClearAcc(s, order[0]), order[1..]); (r.0, r.1 + 1)
  }

  predicate IsPage(frm: FrameTable, i: int) { IsFrame(i) && frm[i].mapped && frm[i].ftype == FR_PAGE }

  /** Position of the first page frame at or after k; the length if there is none. */
  function FirstPage(frm: FrameTable, q: seq<int>, k: nat): (r: nat)
    requires k <= |q|
    ensures k <= r <= |q|
    ensures r < |q| ==> IsPage(frm, q[r])
    ensures forall j :: k <= j < r ==> !IsPage(frm, q[j])
    decreases |q| - k
  {
    if k == |q| || IsPage(frm, q[k]) then k else FirstPage(frm, q, k + 1)
  }

  /** Position in the queue of frame i; the length if it is not there. */
  function IndexOf(q: seq<int>, i: int): (r: nat)
    ensures r <= |q|
    ensures r < |q| ==> q[r] == i
    ensures forall j :: 0 <= j < r ==> q[j] != i
    ensures i in q <==> r < |q|
  {
    if q == [] || q[0] == i then 0 else IndexOf(q[1..], i) + 1
  }

  /** The position the hand looks at next; None when that link is null, which is so for
      a hand left on a frame that is off the queue or at its tail. */
  function NextPos(s: State): (r: Option<nat>)
    ensures r.Some? ==> r.value < |s.queue|
  {
    var x := if s.hand == -1 then 0 else IndexOf(s.queue, s.hand) + 1;
    if x < |s.queue| then Some(x) else None
  }

  /** The node before position x. */
  function Pred(q: seq<int>, x: int): int
    requires 0 <= x < |q|
  {
    if x == 0 then -1 else q[x - 1]
  }

  /** The queue in the order the clock visits it from position x. */
  function Lap(q: seq<int>, x: nat): seq<int>
    requires x <= |q|
  {
    q[x..] + q[..x]
  }

  /** `get_frm_by_SC`: a lap from the hand; if every access bit was set, all are clear now
      and the second pass takes the first page frame after the hand, without wrapping. */
  ghost function SearchSC(s: State): Option<(State, int)>
    requires PagesOk(s)
  {
    match NextPos(s)
    case None => None
    case Some(x) =>
      var order := Lap(s.queue, x);
      var (s1, k) := Sweep(s, order);
      var y := FirstPage(s.frm, s.queue, x);
      if k < |order| then Some(StopBefore(s1, order[k]))
      else if y < |s.queue| then Some(StopBefore(s1, s.queue[y]))
      else None
  }

  /** The hand comes to rest on the node before the victim. */
  function StopBefore(s: State, v: int): (State, int) {
    var x := IndexOf(s.queue, v);
    (if x < |s.queue| then s.(hand := Pred(s.queue, x)) else s, v)
  }

  /** What a sweep does, in terms of the state before it: it stops at the first page frame
      in order whose access bit is clear; every page frame before it had its bit set. */
  lemma {:induction false} SweepStops(s: State, order: seq<int>)
    requires PagesOk(s) && NoDup(order) && forall i :: i in order ==> IsFrame(i)
    ensures var k := Sweep(s, order).1;
      (k < |order| ==> PageFrame(s, order[k]) && !Accessed(s, order[k]))
      && (forall j :: 0 <= j < k && PageFrame(s, order[j]) ==> Accessed(s, order[j]))
    decreases |order|
  {
    if order != [] {
      var i, rest := order[0], order[1..];
      if !PageFrame(s, i) {
        SweepStops(s, rest);
      } else if Accessed(s, i) {
        ClearAccEffect(s, i);
        SweepStops(ClearAcc(s, i), rest);
      }
    }
  }

  /** Only pages that hold tables differ, and they still hold tables. */
  ghost predicate TablesOnly(s: State, s2: State) {
    forall n {:trigger s2.phys[n]} :: 0 <= n < NPAGES ==>
      if s.phys[n].Table? then s2.phys[n].Table? else s2.phys[n] == s.phys[n]
  }

  lemma SameTables(s: State, s2: State)
    requires s2.phys == s.phys
    ensures TablesOnly(s, s2)
  {
  }

  lemma TablesTrans(s: State, s1: State, s2: State)
    requires TablesOnly(s, s1) && TablesOnly(s1, s2)
    ensures TablesOnly(s, s2)
  {
  }

  lemma ClearAccTables(s: State, i: int)
    requires PagesOk(s) && Accessed(s, i)
    ensures TablesOnly(s, ClearAcc(s, i)) && ClearAcc(s, i) == s.(phys := ClearAcc(s, i).phys)
  {
  }

  lemma NotAccessed(s: State, i: int)
    requires !PageFrame(s, i)
    ensures !Accessed(s, i)
  {
  }

  lemma OrderTail(order: seq<int>)
    requires NoDup(order) && order != [] && forall i :: i in order ==> IsFrame(i)
    ensures NoDup(order[1..]) && IsFrame(order[0]) && forall i :: i in order[1..] ==> IsFrame(i) && i != order[0]
  {
  }

  /** It changes nothing but access bits, and of those exactly the ones it passed over. */
  lemma {:induction false} SweepClears(s: State, order: seq<int>)
    requires PagesOk(s) && NoDup(order) && forall i :: i in order ==> IsFrame(i)
    ensures PagesOk(Sweep(s, order).0) && Sweep(s, order).0 == s.(phys := Sweep(s, order).0.phys)
    ensures TablesOnly(s, Sweep(s, order).0)
    ensures forall i {:trigger Accessed(Sweep(s, order).0, i)} :: IsFrame(i) ==>
      (Accessed(Sweep(s, order).0, i) <==> Accessed(s, i) && i !in order[..Sweep(s, order).1])
    decreases |order|
  {
    hide PagesOk, NoDup, PageFrame, TablesOnly, Accessed, ClearAcc;
    if order == [] {
      SameTables(s, s);
    } else {
      var i, rest := order[0], order[1..];
      OrderTail(order);
      if !PageFrame(s, i) {
        SweepClears(s, rest);
        assert order[..Sweep(s, order).1] == [i] + rest[..Sweep(s, rest).1];
        NotAccessed(s, i);
      } else if Accessed(s, i) {
        ClearAccEffect(s, i);
        var s1 := ClearAcc(s, i);
        ClearAccTables(s, i);
        SweepClears(s1, rest);
        TablesTrans(s, s1, Sweep(s1, rest).0);
        assert order[..Sweep(s, order).1] == [i] + rest[..Sweep(s1, rest).1];
      } else {
        SameTables(s, s);
      }
    }
  }

  ghost predicate SomeUnaccessed(s: State) {
    exists i :: i in s.queue && PageFrame(s, i) && !Accessed(s, i)
  }

  ghost predicate QueueNodes(s: State) {
    NoDup(s.queue) && forall i :: i in s.queue ==> IsFrame(i)
  }

  lemma LapMembers(q: seq<int>, x: nat)
    requires x <= |q| && NoDup(q)
    ensures |Lap(q, x)| == |q| && NoDup(Lap(q, x))
    ensures forall i :: i in Lap(q, x) <==> i in q
    ensures forall k :: 0 <= k < |q| ==> Lap(q, x)[k] == q[if x + k < |q| then x + k else x + k - |q|]
  {
    var l := Lap(q, x);
    forall i | i in q
      ensures i in l
    {
      var j :| 0 <= j < |q| && q[j] == i;
      assert if j >= x then l[j - x] == i else l[|q| - x + j] == i;
    }
  }

  /** Victim v is the first frame with a clear bit in clock order from position x, and
      exactly the bits before it are cleared from s to s1. */
  ghost predicate SecondChance(s: State, s1: State, v: int, x: nat)
    requires x <= |s.queue|
  {
    var order := Lap(s.queue, x);
    var k := IndexOf(order, v);
    && !Accessed(s, v)
    && (forall j :: 0 <= j < k && PageFrame(s, order[j]) ==> Accessed(s, order[j]))
    && (forall i :: PageFrame(s, i) && i in s.queue ==> (Accessed(s1, i) <==> Accessed(s, i) && i !in order[..k]))
  }

  lemma IndexAt(q: seq<int>, k: nat)
    requires NoDup(q) && k < |q|
    ensures IndexOf(q, q[k]) == k
  {
  }

  /** A lap ends early exactly when some access bit is clear. */
  lemma SweepEndsEarly(s: State, x: nat)
    requires PagesOk(s) && QueueNodes(s) && x <= |s.queue|
    ensures Sweep(s, Lap(s.queue, x)).1 < |s.queue| <==> SomeUnaccessed(s)
  {
    var order := Lap(s.queue, x);
    LapMembers(s.queue, x);
    SweepStops(s, order);
    var k := Sweep(s, order).1;
    if k < |order| {
      assert order[k] in s.queue;
    } else {
      forall i | i in s.queue && PageFrame(s, i)
        ensures Accessed(s, i)
      {
        assert i in order;
      }
    }
  }

  /** The search succeeds exactly when the hand has a successor and either some access bit
      is clear or a page frame stands between the hand and the tail. Otherwise the code
      follows a null link. */
  lemma SecondChanceDefined(s: State)
    requires PagesOk(s) && QueueNodes(s)
    ensures SearchSC(s).Some? <==>
      && NextPos(s).Some?
      && (SomeUnaccessed(s) || FirstPage(s.frm, s.queue, NextPos(s).value) < |s.queue|)
  {
    if NextPos(s).Some? {
      SweepEndsEarly(s, NextPos(s).value);
      LapMembers(s.queue, NextPos(s).value);
    }
  }

  lemma SweepVictim(s: State, x: nat)
    requires PagesOk(s) && QueueNodes(s) && x <= |s.queue| && SomeUnaccessed(s)
    ensures
      var (s1, k) := Sweep(s, Lap(s.queue, x));
      k < |s.queue| && SecondChance(s, s1, Lap(s.queue, x)[k], x)
      && PageFrame(s, Lap(s.queue, x)[k]) && Lap(s.queue, x)[k] in s.queue
  {
    var order := Lap(s.queue, x);
    LapMembers(s.queue, x);
    SweepEndsEarly(s, x);
    SweepStops(s, order);
    SweepClears(s, order);
    var (s1, k) := Sweep(s, order);
    assert order[k] in s.queue;
    IndexAt(order, k);
  }

  lemma SweepAll(s: State, x: nat)
    requires PagesOk(s) && QueueNodes(s) && x <= |s.queue| && !SomeUnaccessed(s)
    ensures
      var (s1, k) := Sweep(s, Lap(s.queue, x));
      k == |s.queue| && forall i :: PageFrame(s, i) && i in s.queue ==> !Accessed(s1, i)
  {
    var order := Lap(s.queue, x);
    LapMembers(s.queue, x);
    SweepEndsEarly(s, x);
    SweepClears(s, order);
    var (s1, k) := Sweep(s, order);
    assert order[..k] == order;
  }

  lemma HandIgnored(s: State, h: int, i: int)
    requires IsFrame(i)
    ensures Accessed(s.(hand := h), i) <==> Accessed(s, i)
  {
  }

  /** Where the search ends, in terms of the sweep. */
  lemma SearchIs(s: State)
    requires PagesOk(s) && NoDup(s.queue) && SearchSC(s).Some?
    ensures NextPos(s).Some?
    ensures
      var (s1, v) := SearchSC(s).value;
      var (s2, k) := Sweep(s, Lap(s.queue, NextPos(s).value));
      var y := FirstPage(s.frm, s.queue, NextPos(s).value);
      && |Lap(s.queue, NextPos(s).value)| == |s.queue| && (k < |s.queue| || y < |s.queue|)
      && v == (if k < |s.queue| then Lap(s.queue, NextPos(s).value)[k] else s.queue[y])
      && s1 == (if IndexOf(s2.queue, v) < |s2.queue| then s2.(hand := Pred(s2.queue, IndexOf(s2.queue, v))) else s2)
  {
    hide PagesOk, Sweep, NoDup;
    LapMembers(s.queue, NextPos(s).value);
  }

  /** Second-Chance meets its specification: the victim is the first page frame in clock
      order from the hand whose access bit is clear, and the bits of exactly the page
      frames passed over are cleared; if no bit was clear, all are now, and the victim is
      the first page frame after the hand. The hand stops just before the victim. */
  lemma SecondChanceVictim(s: State)
    requires PagesOk(s) && QueueNodes(s) && SearchSC(s).Some?
    ensures
      var (s1, v) := SearchSC(s).value;
      var y := FirstPage(s.frm, s.queue, NextPos(s).value);
      && PageFrame(s, v) && v in s.queue
      && s1 == s.(phys := s1.phys, hand := Pred(s.queue, IndexOf(s.queue, v)))
      && (SomeUnaccessed(s) ==> SecondChance(s, s1, v, NextPos(s).value))
      && (!SomeUnaccessed(s) ==>
            y < |s.queue| && v == s.queue[y]
            && forall i :: PageFrame(s, i) && i in s.queue ==> !Accessed(s1, i))
  {
    hide PagesOk, Sweep, SearchSC;
    SearchIs(s);
    var x := NextPos(s).value;
    var order := Lap(s.queue, x);
    LapMembers(s.queue, x);
    SweepClears(s, order);
    var s2 := Sweep(s, order).0;
    var (s1, v) := SearchSC(s).value;
    if SomeUnaccessed(s) { SweepVictim(s, x); } else { SweepAll(s, x); }
    forall i | IsFrame(i)
      ensures Accessed(s1, i) == Accessed(s2, i)
    {
      HandIgnored(s2, s1.hand, i);
    }
  }

  // ----------------------------------------------------------------------------- Aging

  /** A page frame one aging step later: halved, plus 128 if it was accessed, at most 255. */
  function Aged(s: State, i: int): Frame
    requires Linked(s, i)
  {
    var a := s.frm[i].age / 2 + (if Accessed(s, i) then 128 else 0);
    s.frm[i].(age := if a > MAX_FRM_AGE then MAX_FRM_AGE else a)
  }

  /** Every page frame on the list q one step older. */
  function AgeAll(s: State, q: seq<int>): State {
    s.(frm := seq(NFRAMES, i requires 0 <= i < NFRAMES => if i in q && Linked(s, i) then Aged(s, i) else s.frm[i]))
  }

  /** The least age of a page frame on q, or 255. */
  function MinAge(frm: FrameTable, q: seq<int>): int {
    if q == [] then MAX_FRM_AGE
    else
      var m, i := MinAge(frm, q[..|q| - 1]), q[|q| - 1];
      if IsPage(frm, i) && frm[i].age < m then frm[i].age else m
  }

  function FirstAged(frm: FrameTable, q: seq<int>, a: int, k: nat): (r: nat)
    requires k <= |q|
    ensures k <= r <= |q|
    ensures r < |q| ==> IsPage(frm, q[r]) && frm[q[r]].age == a
    ensures forall j :: k <= j < r ==> !(IsPage(frm, q[j]) && frm[q[j]].age == a)
    decreases |q| - k
  {
    if k == |q| || (IsPage(frm, q[k]) && frm[q[k]].age == a) then k else FirstAged(frm, q, a, k + 1)
  }

  /** `get_frm_by_Aging`. */
  function SearchAging(s: State): Option<(State, int)> {
    var s1 := AgeAll(s, s.queue);
    var k := FirstAged(s1.frm, s.queue, MinAge(s1.frm, s.queue), 0);
    if k < |s.queue| then Some((s1, s.queue[k])) else None
  }

  lemma {:induction false} MinAgeMeaning(frm: FrameTable, q: seq<int>)
    ensures MinAge(frm, q) <= MAX_FRM_AGE
    ensures forall j :: 0 <= j < |q| && IsPage(frm, q[j]) ==> MinAge(frm, q) <= frm[q[j]].age
    ensures MinAge(frm, q) == MAX_FRM_AGE || exists j :: 0 <= j < |q| && IsPage(frm, q[j]) && frm[q[j]].age == MinAge(frm, q)
  {
    if q != [] {
      var n := |q| - 1;
      MinAgeMeaning(frm, q[..n]);
      assert forall j :: 0 <= j < n ==> q[..n][j] == q[j];
    }
  }

  lemma AgeAllFrames(s: State, q: seq<int>)
    requires AgesOk(s)
    ensures AgesOk(AgeAll(s, q)) && SameTree(s, AgeAll(s, q))
    ensures forall i {:trigger AgeAll(s, q).frm[i]} :: IsFrame(i) && i in q && Linked(s, i) ==>
      AgeAll(s, q).frm[i] == Aged(s, i) && (Accessed(s, i) <==> AgeAll(s, q).frm[i].age >= 128)
  {
  }

  /** Aging meets its specification: after every page frame on the queue has aged one
      step, the victim has the least age and stands before every other frame of that age. */
  lemma AgingVictim(s: State)
    requires PagesOk(s) && QueueNodes(s) && AgesOk(s)
    ensures SearchAging(s).Some? <==> exists i :: i in s.queue && PageFrame(s, i)
    ensures SearchAging(s).Some? ==>
      var (s1, v) := SearchAging(s).value;
      && s1 == AgeAll(s, s.queue) && AgesOk(s1)
      && PageFrame(s, v) && v in s.queue
      && forall j :: 0 <= j < |s.queue| && PageFrame(s, s.queue[j]) ==>
        s1.frm[v].age <= s1.frm[s.queue[j]].age
        && (j < IndexOf(s.queue, v) ==> s1.frm[v].age < s1.frm[s.queue[j]].age)
  {
    hide AgeAll, MinAge, FirstAged, PagesOk, SameTree;
    var s1 := AgeAll(s, s.queue);
    AgeAllFrames(s, s.queue);
    var a := MinAge(s1.frm, s.queue);
    MinAgeMeaning(s1.frm, s.queue);
    var k := FirstAged(s1.frm, s.queue, a, 0);
    forall j | 0 <= j < |s.queue|
      ensures PageFrame(s, s.queue[j]) <==> IsPage(s1.frm, s.queue[j])
      ensures IsPage(s1.frm, s.queue[j]) ==> a <= s1.frm[s.queue[j]].age <= MAX_FRM_AGE
    {
      AgedPage(s, s.queue[j]);
    }
    if k < |s.queue| {
      IndexAt(s.queue, k);
    }
  }

  lemma AgedPage(s: State, i: int)
    requires AgesOk(s) && IsFrame(i)
    ensures PageFrame(s, i) <==> IsPage(AgeAll(s, s.queue).frm, i)
    ensures 0 <= AgeAll(s, s.queue).frm[i].age <= MAX_FRM_AGE
  {
  }

  /** An accessed page is evicted only if every page on the queue was accessed: aged,
      accessed pages stand at 128 or more and the others at 127 or less. */
  lemma AgingSparesAccessed(s: State)
    requires PagesOk(s) && QueueNodes(s) && AgesOk(s) && SearchAging(s).Some?
    requires Accessed(s, SearchAging(s).value.1)
    ensures !SomeUnaccessed(s)
  {
    var (s1, v) := SearchAging(s).value;
    AgingVictim(s);
    AgeAllFrames(s, s.queue);
    forall i | i in s.queue && PageFrame(s, i)
      ensures Accessed(s, i)
    {
      assert PageOk(s, i) && PageOk(s, v);
      var j :| 0 <= j < |s.queue| && s.queue[j] == i;
      assert s1.frm[i] == Aged(s, i) && s1.frm[v] == Aged(s, v);
    }
  }
}
