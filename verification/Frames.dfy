/** paging/frame.c and paging/pfint.c as functions on the paging state: walking a
    directory and a table, releasing a frame, finding a frame, and the page fault. */
module Frames {
  import opened Machine
  import opened BackingStore

  // ----------------------------------------------------------------- walking the tables

  predicate IsFrame(i: int) { 0 <= i < NFRAMES }

  predicate PageFrame(s: State, i: int) { IsFrame(i) && s.frm[i].mapped && s.frm[i].ftype == FR_PAGE }

  /** A page table other than the four shared global ones, which sit in frames 0 to 3. */
  predicate TblFrame(s: State, t: int) { 4 <= t < NFRAMES && s.frm[t].mapped && s.frm[t].ftype == FR_TBL }

  predicate HasDir(s: State, p: int) {
    IsPid(p) && FRAME0 <= s.proc[p].pdbr < FRAME0 + NFRAMES && s.phys[s.proc[p].pdbr].Dir?
  }

  /** Entry d of the directory of process p: `get_pd_entry`. */
  function PdeAt(s: State, p: int, d: int): Pde
    requires HasDir(s, p) && 0 <= d < NENTRIES
  {
    s.phys[s.proc[p].pdbr].pd[d]
  }

  predicate IsTable(s: State, t: int) { IsFrame(t) && s.phys[FRAME0 + t].Table? }

  /** Entry k of the table in frame t: `get_pt_entry`, the table already located. */
  function PteAt(s: State, t: int, k: int): Pte
    requires IsTable(s, t) && 0 <= k < NENTRIES
  {
    s.phys[FRAME0 + t].pt[k]
  }

  predicate WellMapped(bsm: StoreMap, p: int, v: int) {
    Lookup(bsm, p, v).Some? && 0 <= SlotOf(bsm, p, v) < NSLOTS
  }

  /** Frame t holds the table for the page, whether or not its entry is present. */
  predicate TableIs(s: State, p: int, v: int, t: int) {
    HasDir(s, p) && 0 <= v < NVPAGES && PdeAt(s, p, Pdi(v)).base == FRAME0 + t && IsTable(s, t)
  }

  /** Everything `free_frm` dereferences for frame i is there. */
  predicate Linked(s: State, i: int) {
    && PageFrame(s, i)
    && HasDir(s, s.frm[i].pid)
    && 0 <= s.frm[i].vpno < NVPAGES
    && TableIs(s, s.frm[i].pid, s.frm[i].vpno, TableOf(s, i))
    && WellMapped(s.bsm, s.frm[i].pid, s.frm[i].vpno)
  }

  /** The frame of the page table that maps frame i: `get_pt_fr_index`. */
  function TableOf(s: State, i: int): int
    requires IsFrame(i) && HasDir(s, s.frm[i].pid) && 0 <= s.frm[i].vpno < NVPAGES
  {
    PdeAt(s, s.frm[i].pid, Pdi(s.frm[i].vpno)).base - FRAME0
  }

  /** The table entry of the page in frame i. */
  function EntryOf(s: State, i: int): Pte
    requires Linked(s, i)
  {
    PteAt(s, TableOf(s, i), Pti(s.frm[i].vpno))
  }

  /** Frame i holds changes that its store has not seen. */
  predicate Dirty(s: State, i: int) { Linked(s, i) && EntryOf(s, i).dirty }

  /** The slot of the flat memory that frame i caches. */
  function Loc(s: State, i: int): int
    requires Linked(s, i)
  {
    SlotOf(s.bsm, s.frm[i].pid, s.frm[i].vpno)
  }

  /** The hardware finds page v of process p without a fault. */
  predicate Resident(s: State, p: int, v: int) {
    && HasDir(s, p) && 0 <= v < NVPAGES
    && PdeAt(s, p, Pdi(v)).pres
    && IsTable(s, PdeAt(s, p, Pdi(v)).base - FRAME0)
    && PteAt(s, PdeAt(s, p, Pdi(v)).base - FRAME0, Pti(v)).pres
  }

  // -------------------------------------------------------------------- counting, lists

  /** Number of present entries. */
  function Count(pt: seq<Pte>): nat {
    if |pt| == 0 then 0 else Count(pt[..|pt| - 1]) + (if pt[|pt| - 1].pres then 1 else 0)
  }

  lemma {:induction false} CountUpdate(pt: seq<Pte>, k: int, e: Pte)
    requires 0 <= k < |pt|
    ensures Count(pt[k := e]) == Count(pt) - (if pt[k].pres then 1 else 0) + (if e.pres then 1 else 0)
  {
    var n := |pt| - 1;
    if k == n {
      assert pt[k := e][..n] == pt[..n];
    } else {
      assert pt[k := e][..n] == pt[..n][k := e];
      CountUpdate(pt[..n], k, e);
    }
  }

  lemma {:induction false} CountZero(pt: seq<Pte>)
    ensures Count(pt) == 0 <==> forall k :: 0 <= k < |pt| ==> !pt[k].pres
  {
    if |pt| > 0 {
      var n := |pt| - 1;
      CountZero(pt[..n]);
      assert forall k :: 0 <= k < n ==> pt[..n][k] == pt[k];
    }
  }

  lemma {:induction false} CountSame(pt: seq<Pte>, pt2: seq<Pte>)
    requires |pt| == |pt2| && forall k :: 0 <= k < |pt| ==> pt[k].pres == pt2[k].pres
    ensures Count(pt) == Count(pt2)
  {
    if |pt| > 0 {
      CountSame(pt[..|pt| - 1], pt2[..|pt| - 1]);
    }
  }

  predicate NoDup(q: seq<int>) {
    forall a, b :: 0 <= a < b < |q| ==> q[a] != q[b]
  }

  /** The queue after `frm_remove`: the node goes, the order of the rest stays. */
  function Without(q: seq<int>, x: int): seq<int> {
    if q == [] then [] else if q[0] == x then q[1..] else [q[0]] + Without(q[1..], x)
  }

  lemma {:induction false} WithoutMembers(q: seq<int>, x: int)
    requires NoDup(q)
    ensures NoDup(Without(q, x))
    ensures forall y :: y in Without(q, x) <==> y in q && y != x
  {
    if q != [] {
      assert q == [q[0]] + q[1..];
      if q[0] != x {
        WithoutMembers(q[1..], x);
        assert q[0] !in q[1..];
      }
    }
  }

  // --------------------------------------------------------------------------- free_frm

  /** `free_frm`: clear the entry, drop the table's count and with the last reference the
      table itself, write a dirty page back, and give the frame up. */
  function FreeFrm(s: State, i: int): State
    requires Linked(s, i)
  {
    var f := s.frm[i];
    var d, k := Pdi(f.vpno), Pti(f.vpno);
    var t, dir := TableOf(s, i), s.proc[f.pid].pdbr;
    var pt, pd := s.phys[FRAME0 + t].pt, s.phys[dir].pd;
    var last := s.frm[t].refcnt == 1;
    var phys1 := s.phys[FRAME0 + t := Table(pt[k := pt[k].(pres := false)])];
    var phys2 := if last then phys1[dir := Dir(pd[d := pd[d].(pres := false)])] else phys1;
    var phys3 := if pt[k].dirty then phys2[SlotPage(Loc(s, i)) := phys2[FRAME0 + i]] else phys2;
    var frm1 := s.frm[t := if last then BLANK else s.frm[t].(refcnt := s.frm[t].refcnt - 1)];
    var queue1 := if last then Without(s.queue, t) else s.queue;
    s.(frm := frm1[i := BLANK], phys := phys3, queue := Without(queue1, i))
  }
}
