/** The data of the paging subsystem: page tables, directories, the inverted page
    table, the backing-store map and the process fields that paging uses.

    Physical memory is one sequence indexed by physical page number, so that frames,
    page tables, directories and the emulated backing stores share one address space
    just as they do on the machine. A page that holds a table or a directory is kept
    decoded; reading it under another type goes through the bit layout of a 32-bit
    entry. */
module Machine {

  datatype Option<+T> = None | Some(value: T)

  const NBPG: int := 4096
  const FRAME0: int := 1024
  const NFRAMES: int := 1024
  const NENTRIES: int := 1024
  const NPAGES: int := 4096          // physical pages on the machine
  const NVPAGES: int := 0x10_0000    // virtual pages a 32-bit address can name
  const NPROC: int := 50
  const MAX_NUM_BS: int := 8
  const MAX_BS_PAGES: int := 256
  const MIN_VPNO: int := 4096
  const MAX_VPNO: int := 0xff_ffff
  const MAX_FRM_AGE: int := 255
  const BACKING_STORE_BASE: int := 0x0080_0000
  const BACKING_STORE_UNIT_SIZE: int := 0x0010_0000
  const NSLOTS: int := 2048          // MAX_NUM_BS * MAX_BS_PAGES
  const NO_STORE: int := -1
  const PUBLIC: int := 8
  const NOBODY: int := -1

  type Byte = b: int | 0 <= b < 256
  type Page = p: seq<Byte> | |p| == NBPG witness seq(NBPG, _ => 0)

  function ZeroPage(): Page { seq(NBPG, _ => 0) }

  datatype Pte = Pte(pres: bool, acc: bool, dirty: bool, base: int)
  datatype Pde = Pde(pres: bool, base: int)

  type PageTable = t: seq<Pte> | |t| == NENTRIES witness seq(NENTRIES, _ => Pte(false, false, false, 0))
  type Directory = d: seq<Pde> | |d| == NENTRIES witness seq(NENTRIES, _ => Pde(false, 0))

  datatype Content = Data(bytes: Page) | Table(pt: PageTable) | Dir(pd: Directory)

  datatype FrameType = FR_PAGE | FR_TBL | FR_DIR

  /** One entry of the inverted page table; the queue link is kept by the frame queue. */
  datatype Frame = Frame(mapped: bool, pid: int, vpno: int, refcnt: int, ftype: FrameType, age: int)

  /** The value that `reset_frm_entry` stores. */
  const BLANK: Frame := Frame(false, NOBODY, 0, 0, FR_PAGE, 0)

  datatype Mapping = Mapping(pid: int, vpno: int, npages: int)

  /** One entry of the backing-store map with its list of mappings. */
  datatype Store = Store(mapped: bool, npages: int, priv: bool, maps: seq<Mapping>)

  const FREE_STORE: Store := Store(false, 0, false, [])

  /** The paging fields of a process table entry. `live` is `pstate != PRFREE`;
      `pdbr` is the page number of the directory. */
  datatype Proc = Proc(live: bool, pdbr: int, store: int, vhpno: int, vhpnpages: int)

  datatype Policy = SC | AGING

  type FrameTable = f: seq<Frame> | |f| == NFRAMES witness seq(NFRAMES, _ => BLANK)
  type Memory = m: seq<Content> | |m| == NPAGES
    witness seq(NPAGES, _ => Data(ZeroPage()))
  type StoreMap = b: seq<Store> | |b| == MAX_NUM_BS witness seq(MAX_NUM_BS, _ => FREE_STORE)
  type ProcTable = p: seq<Proc> | |p| == NPROC
    witness seq(NPROC, _ => Proc(false, 0, NO_STORE, 0, 0))

  type FrameStamps = s: seq<nat> | |s| == NFRAMES witness seq(NFRAMES, _ => 0)

  /** When get_frm last handed out each frame, by a count of the frames it has handed out.
      No code reads it; it is there to say in what order frames were allocated. */
  datatype History = History(stamp: FrameStamps, now: nat)

  function Stamped(h: History, f: int): History
    requires 0 <= f < NFRAMES
  {
    History(h.stamp[f := h.now], h.now + 1)
  }

  /** The whole paging state. `queue` lists the frames reachable from the head of the
      frame queue; `hand` is the node `sc_dummy` points to, -1 for the dummy head. */
  datatype State = State(
    frm: FrameTable, phys: Memory, bsm: StoreMap, proc: ProcTable,
    cur: int, queue: seq<int>, hand: int, policy: Policy, hist: History)

  /** The abstract memory: one page for every page of every backing store. */
  type Flat = m: seq<Page> | |m| == NSLOTS witness seq<Page>(NSLOTS, _ => ZeroPage())

  predicate IsPid(p: int) { 0 <= p < NPROC }

  // ---------------------------------------------------------------- address arithmetic

  function Pdi(v: int): (r: int) { v / NENTRIES }

  function Pti(v: int): (r: int)
    ensures 0 <= r < NENTRIES
  { v % NENTRIES }

  /** Physical address of page `page` of store `b`, as read_bs and write_bs compute it. */
  function StoreAddr(b: int, page: int): int {
    BACKING_STORE_BASE + b * BACKING_STORE_UNIT_SIZE + page * NBPG
  }

  /** Position of store page (b, page) in the flat memory. */
  function Slot(b: int, page: int): int { MAX_BS_PAGES * b + page }

  /** Physical page number of a slot: stores occupy the pages above the frames. */
  function SlotPage(n: int): int { FRAME0 + NFRAMES + n }

  /** Two store pages never share an address, and none lies in a frame: the address
      that read_bs and write_bs form is the page above all frames numbered by the slot,
      and slots of distinct store pages differ. */
  lemma StorePagesDisjoint(b: int, page: int, b2: int, page2: int)
    requires 0 <= b < MAX_NUM_BS && 0 <= page < MAX_BS_PAGES
    requires 0 <= b2 < MAX_NUM_BS && 0 <= page2 < MAX_BS_PAGES
    ensures StoreAddr(b, page) == NBPG * SlotPage(Slot(b, page))
    ensures FRAME0 + NFRAMES <= SlotPage(Slot(b, page)) < NPAGES
    ensures Slot(b, page) == Slot(b2, page2) <==> b == b2 && page == page2
    ensures (b, page) != (b2, page2) ==>
      StoreAddr(b, page) + NBPG <= StoreAddr(b2, page2) || StoreAddr(b2, page2) + NBPG <= StoreAddr(b, page)
  {
  }

  /** Directory and table index together name a virtual page. */
  lemma IndexSplit(v: int, w: int)
    ensures v == NENTRIES * Pdi(v) + Pti(v)
    ensures Pdi(v) == Pdi(w) && Pti(v) == Pti(w) ==> v == w
  {
  }

  /** The page number pfint forms from the two indices of a faulting address, on a machine
      configured with n frames: it multiplies the directory index by the number of frames. */
  function FaultVpno(a: int, n: int): int { a / (NENTRIES * NBPG) * n + a / NBPG % NENTRIES }

  /** It is the page of the address, for every address, exactly when there are 1024
      frames: the frame count cannot be changed on its own, as README.md:502 would have it. */
  lemma FaultVpnoRight(n: int)
    ensures (forall a :: 0 <= a < NVPAGES * NBPG ==> FaultVpno(a, n) == a / NBPG) <==> n == NENTRIES
  {
    if n == NENTRIES {
      forall a | 0 <= a < NVPAGES * NBPG
        ensures FaultVpno(a, n) == a / NBPG
      {
        assert a / (NENTRIES * NBPG) == a / NBPG / NENTRIES;
      }
    } else {
      assert FaultVpno(NENTRIES * NBPG, n) == n;
    }
  }

  // ------------------------------------------------- reading a page under another type

  /** The k-th little-endian 32-bit word of a data page. */
  function Word(p: Page, k: int): int
    requires 0 <= k < NENTRIES
  {
    p[4 * k] as int + 0x100 * p[4 * k + 1] as int + 0x1_0000 * p[4 * k + 2] as int + 0x100_0000 * p[4 * k + 3] as int
  }

  /** A page read as a directory: present is bit 0, the base is the top 20 bits. */
  function AsDir(c: Content): (d: Directory) {
    match c
    case Dir(pd) => pd
    case Table(pt) => seq(NENTRIES, k requires 0 <= k < NENTRIES => Pde(pt[k].pres, pt[k].base))
    case Data(p) => seq(NENTRIES, k requires 0 <= k < NENTRIES => Pde(Word(p, k) % 2 == 1, Word(p, k) / NBPG))
  }
}
