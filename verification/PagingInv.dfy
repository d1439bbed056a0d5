/** The invariant of the paging subsystem and its relation to the flat memory. */
module PagingInv {
  import opened Machine
  import opened BackingStore
  import opened Frames

  predicate Live(s: State, p: int) { IsPid(p) && s.proc[p].live }

  // --------------------------------------------------- directories, tables, page frames

  /** A live process has a directory of its own whose first four entries are the global tables. */
  predicate DirOk(s: State, p: int)
    requires IsPid(p)
  {
    && HasDir(s, p)
    && (var f := s.frm[s.proc[p].pdbr - FRAME0]; f.mapped && f.ftype == FR_DIR && f.pid == p)
    && forall d :: 0 <= d < 4 ==> PdeAt(s, p, d) == Pde(true, FRAME0 + d)
  }

  ghost predicate DirsOk(s: State) {
    forall p {:trigger s.proc[p]} :: Live(s, p) ==> DirOk(s, p)
  }

  ghost predicate DirFramesOk(s: State) {
    forall i {:trigger s.frm[i]} :: IsFrame(i) && s.frm[i].mapped && s.frm[i].ftype == FR_DIR ==>
      Live(s, s.frm[i].pid) && s.proc[s.frm[i].pid].pdbr == FRAME0 + i
  }

  /** A present directory entry names an allocated table of the same process. */
  ghost predicate PdesOk(s: State) {
    forall p, d {:trigger PdeAt(s, p, d)} ::
      Live(s, p) && HasDir(s, p) && 4 <= d < NENTRIES && PdeAt(s, p, d).pres ==>
      TblFrame(s, PdeAt(s, p, d).base - FRAME0) && s.frm[PdeAt(s, p, d).base - FRAME0].pid == p
  }

  ghost predicate PdesDistinct(s: State) {
    forall p, d, d2 {:trigger PdeAt(s, p, d), PdeAt(s, p, d2)} ::
      Live(s, p) && HasDir(s, p) && 4 <= d < NENTRIES && 4 <= d2 < NENTRIES && d != d2
      && PdeAt(s, p, d).pres && PdeAt(s, p, d2).pres ==>
      PdeAt(s, p, d).base != PdeAt(s, p, d2).base
  }

  /** The reference count of a table is its number of present entries, and positive
      unless the table is the one a fault is about to fill. */
  predicate TableOk(s: State, t: int, fill: int)
    requires IsFrame(t)
  {
    && IsTable(s, t)
    && Live(s, s.frm[t].pid)
    && s.frm[t].refcnt == Count(s.phys[FRAME0 + t].pt)
    && (s.frm[t].refcnt > 0 || t == fill)
  }

  ghost predicate TablesOk(s: State, fill: int) {
    forall t {:trigger s.frm[t]} :: TblFrame(s, t) ==> TableOk(s, t, fill)
  }

  /** A present entry k of table t names a page frame that names the entry. */
  predicate PteBacked(s: State, t: int, k: int)
    requires IsTable(s, t) && 0 <= k < NENTRIES
  {
    var i := PteAt(s, t, k).base - FRAME0;
    && PageFrame(s, i)
    && s.frm[i].pid == s.frm[t].pid
    && 0 <= s.frm[i].vpno < NVPAGES
    && Pti(s.frm[i].vpno) == k
    && HasDir(s, s.frm[i].pid)
    && PdeAt(s, s.frm[i].pid, Pdi(s.frm[i].vpno)) == Pde(true, FRAME0 + t)
  }

  ghost predicate PtesOk(s: State) {
    forall t, k {:trigger PteAt(s, t, k)} ::
      TblFrame(s, t) && IsTable(s, t) && 0 <= k < NENTRIES && PteAt(s, t, k).pres ==> PteBacked(s, t, k)
  }

  /** A page frame belongs to a live process, is named by a present entry of a table that
      the process's directory names, and lies in a mapped range. */
  predicate PageOk(s: State, i: int)
    requires IsFrame(i)
  {
    var f := s.frm[i];
    && Live(s, f.pid)
    && MIN_VPNO <= f.vpno
    && Linked(s, i)
    && PdeAt(s, f.pid, Pdi(f.vpno)).pres
    && TblFrame(s, TableOf(s, i))
    && s.frm[TableOf(s, i)].pid == f.pid
    && EntryOf(s, i).pres
    && EntryOf(s, i).base == FRAME0 + i
    && s.phys[FRAME0 + i].Data?
  }

  ghost predicate PagesOk(s: State) {
    forall i {:trigger s.frm[i]} :: PageFrame(s, i) ==> PageOk(s, i)
  }

  predicate GlobalOk(s: State, t: int)
    requires IsFrame(t)
  {
    IsTable(s, t) && s.frm[t] == Frame(true, 0, 0, NENTRIES, FR_TBL, 0)
  }

  ghost predicate FramesOk(s: State) {
    && (forall t :: 0 <= t < 4 ==> GlobalOk(s, t))
    && (forall i {:trigger s.frm[i]} :: IsFrame(i) && !s.frm[i].mapped ==> s.frm[i] == BLANK)
    && (forall n {:trigger s.phys[n]} :: FRAME0 + NFRAMES <= n < NPAGES ==> s.phys[n].Data?)
  }

  /** The frame queue lists the allocated frames once each; `pend` is a frame that get_frm
      has enqueued and its caller has not yet marked. */
  ghost predicate QueueOk(s: State, pend: int) {
    && NoDup(s.queue)
    && (forall i :: i in s.queue ==> IsFrame(i))
    && (forall i {:trigger s.frm[i]} :: IsFrame(i) ==> (i in s.queue <==> s.frm[i].mapped || i == pend))
  }

  // -------------------------------------------------------------- processes and stores

  predicate OwnerOk(s: State, b: int, k: int)
    requires IsMap(s.bsm, b, k)
  {
    var mp := s.bsm[b].maps[k];
    IsPid(mp.pid)
    && (Live(s, mp.pid) ==>
          if s.bsm[b].priv then s.proc[mp.pid].store == b && s.proc[mp.pid].vhpno == mp.vpno
          else s.proc[mp.pid].store == PUBLIC)
  }

  predicate StoreFieldOk(s: State, p: int)
    requires IsPid(p)
  {
    var b := s.proc[p].store;
    NO_STORE <= b <= PUBLIC
    && (0 <= b < MAX_NUM_BS ==> s.bsm[b].mapped && s.bsm[b].priv && |s.bsm[b].maps| == 1 && s.bsm[b].maps[0].pid == p)
  }

  ghost predicate OwnersOk(s: State) {
    && (forall b, k {:trigger IsMap(s.bsm, b, k)} :: IsMap(s.bsm, b, k) ==> OwnerOk(s, b, k))
    && (forall p {:trigger s.proc[p]} :: Live(s, p) ==> StoreFieldOk(s, p))
  }

  /** No suspended process that uses public stores has a dirty page. */
  ghost predicate CleanOk(s: State) {
    IsPid(s.cur)
    && forall i {:trigger s.frm[i]} :: IsFrame(i) && Dirty(s, i) ==>
      s.frm[i].pid == s.cur || s.proc[s.frm[i].pid].store != PUBLIC
  }

  /** Every mapping belongs to a live process. */
  ghost predicate NoOrphans(s: State) {
    forall b, k {:trigger IsMap(s.bsm, b, k)} :: IsMap(s.bsm, b, k) ==> Live(s, s.bsm[b].maps[k].pid)
  }

  ghost predicate AgesOk(s: State) {
    forall i {:trigger s.frm[i]} :: IsFrame(i) ==> 0 <= s.frm[i].age <= MAX_FRM_AGE
  }

  // ------------------------------------------------------------------------- the whole

  ghost predicate TreeOk(s: State, fill: int) {
    DirsOk(s) && DirFramesOk(s) && PdesOk(s) && PdesDistinct(s) && TablesOk(s, fill) && PtesOk(s) && PagesOk(s)
    && FramesOk(s)
  }

  ghost predicate Inv(s: State, fill: int, pend: int) {
    TreeOk(s, fill) && QueueOk(s, pend) && MapOk(s.bsm) && OwnersOk(s) && CleanOk(s) && AgesOk(s)
  }

  /** Between system calls. */
  ghost predicate Valid(s: State) { Inv(s, -1, -1) }

  /** What the invariant consists of, for proofs that keep its definition folded. */
  lemma InvParts(s: State, fill: int, pend: int)
    requires Inv(s, fill, pend)
    ensures TreeOk(s, fill) && QueueOk(s, pend) && MapOk(s.bsm) && OwnersOk(s) && CleanOk(s) && AgesOk(s)
    ensures DirsOk(s) && DirFramesOk(s) && PdesOk(s) && PdesDistinct(s) && TablesOk(s, fill) && PtesOk(s)
    ensures PagesOk(s) && FramesOk(s)
  {
  }

  // ------------------------------------------------------------ relation to flat memory

  /** Frames whose contents count: dirty ones, those of processes with a private store,
      and of the running process those below n. A suspended public process may keep
      outdated clean pages until it is reloaded. */
  predicate Fresh(s: State, i: int, n: int)
    requires Linked(s, i)
  {
    Dirty(s, i) || s.proc[s.frm[i].pid].store != PUBLIC || (s.frm[i].pid == s.cur && i < n)
  }

  ghost predicate DirtyAt(s: State, n: int) {
    exists i {:trigger s.frm[i]} :: IsFrame(i) && Dirty(s, i) && Loc(s, i) == n
  }

  ghost predicate FramesAgree(s: State, m: Flat, n: int) {
    forall i {:trigger s.frm[i]} :: IsFrame(i) && Linked(s, i) && Fresh(s, i, n) && 0 <= Loc(s, i) < NSLOTS ==>
      s.phys[FRAME0 + i] == Data(m[Loc(s, i)])
  }

  ghost predicate StoresAgree(s: State, m: Flat) {
    forall n {:trigger m[n]} :: 0 <= n < NSLOTS && !DirtyAt(s, n) ==> s.phys[SlotPage(n)] == Data(m[n])
  }

  /** Frames, dirty bits and stores together represent the flat memory m. */
  ghost predicate Represents(s: State, m: Flat, n: int) {
    FramesAgree(s, m, n) && StoresAgree(s, m)
  }
}
