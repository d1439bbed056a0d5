/** The boot client of mon/: mon/montftp.c, mon/monudp.c, mon/monboot.c and mon/montimer.c as
    functions on the client's state, and what they achieve against a server that sends blocks
    of one file, over a network that may lose, repeat, delay and reorder them (RFC 1350,
    sections 2 and 6). */
module Tftp {
  import opened Machine

  const TFTP_BLOCK_SIZE: int := 512
  const MON_MAX_TRY: int := 3
  const MAX_RETX: int := 5

  datatype Phase =
    BEGIN_BOOTP | BOOTP_REQ_SENT | BEGIN_TFTP | TFTP_REQ_SENT | BOOT_DONE | BOOT_ERROR | BOOTP_RETX | TFTP_RETX | GAVE_UP

  /** The client. `mem` is memory from the load address on; `asked`, `tried` and `retold` count
      TFTP read requests, BOOTP requests and acknowledgements repeated by the timer, and `acks`
      lists the acknowledgements sent. */
  datatype Client = Client(
    phase: Phase, try: int, clock: int, timeout: int, block: int, bytes: int, retx: int, mem: seq<Byte>,
    asked: nat, tried: nat, retold: nat, acks: seq<int>)

  /** What arrives: a block with its 16-bit number on the wire, an error, a BOOTP message that
      parses or does not, or something for another port. */
  datatype Packet = TftpData(wire: int, bytes: seq<Byte>) | TftpError | Bootp(good: bool) | Other

  /** A 16-bit number as the client's signed short reads it. */
  function Short(x: int): (r: int)
    ensures -0x8000 <= r < 0x8000
  {
    var r := x % 0x1_0000;
    if r >= 0x8000 then r - 0x1_0000 else r
  }

  /** `mon_tftp_ack`: the acknowledgement goes out and the timer starts. */
  function Ack(c: Client, n: int): Client {
    c.(acks := c.acks + [n], timeout := c.clock + 2)
  }

  /** `blkcopy` to the load pointer. */
  function Copied(mem: seq<Byte>, at: nat, data: seq<Byte>): (r: seq<Byte>)
    requires at + |data| <= |mem|
    ensures |r| == |mem|
  {
    mem[..at] + data + mem[at + |data|..]
  }

  /** What the client copies stays within memory. */
  predicate Fits(c: Client, p: Packet) {
    c.phase == TFTP_REQ_SENT && p.TftpData? && Short(p.wire) == c.block ==> 0 <= c.bytes && c.bytes + |p.bytes| <= |c.mem|
  }

  /** `mon_tftp_in` and what mon_udp_in makes of its result: done after a short block, begin
      again after an error, otherwise wait. */
  function TftpIn(c: Client, p: Packet): Client
    requires c.phase == TFTP_REQ_SENT && Fits(c, p)
  {
    match p
    case TftpError => c.(phase := TFTP_RETX)
    case TftpData(wire, data) =>
      if Short(wire) != c.block then
        var diff := c.block - Short(wire);
        if diff == 1 then Ack(c, Short(wire)) else if diff == -1 then Ack(c, c.block) else c
      else
        var c1 := Ack(c.(mem := Copied(c.mem, c.bytes, data), bytes := c.bytes + |data|), c.block);
        if |data| < TFTP_BLOCK_SIZE then c1.(phase := BOOT_DONE) else c1.(block := c.block + 1)
    case _ => c
  }

  /** `mon_udp_in`, the checksum having been found right. */
  function UdpIn(c: Client, p: Packet): Client
    requires Fits(c, p)
  {
    match p
    case Bootp(good) =>
      if c.phase != BOOTP_REQ_SENT then c
      else if good then c.(timeout := 0, phase := BEGIN_TFTP, try := 0)
      else c.(timeout := 0, phase := BOOTP_RETX)
    case Other => c
    case _ => if c.phase == TFTP_REQ_SENT then TftpIn(c.(timeout := 0), p) else c
  }

  /** The read request of `boot_xinu` and `mon_tftp_req`, as one step. */
  function Request(c: Client): Client {
    c.(phase := TFTP_REQ_SENT, timeout := c.clock + c.try + 2, block := 1, bytes := 0, retx := 0, retold := 0, asked := c.asked + 1)
  }

  function BootpRequest(c: Client): Client {
    c.(phase := BOOTP_REQ_SENT, timeout := c.clock + c.try + 2, tried := c.tried + 1)
  }

  /** One round of the loop of `boot_xinu`. */
  function Poll(c: Client): Client {
    match c.phase
    case BOOTP_RETX =>
      var c1 := c.(try := c.try + 1);
      if c1.try > MON_MAX_TRY then c1.(phase := GAVE_UP) else BootpRequest(c1)
    case BEGIN_BOOTP => BootpRequest(c)
    case TFTP_RETX =>
      var c1 := c.(try := c.try + 1);
      if c1.try > MON_MAX_TRY then c1.(phase := GAVE_UP) else Request(c1)
    case BEGIN_TFTP => Request(c)
    case BOOT_ERROR => c.(phase := GAVE_UP)
    case _ => c
  }

  /** A second passes: `mon_clkint` counts it and calls `mon_timer`. */
  function Second(c: Client): Client {
    var c1 := c.(clock := c.clock + 1);
    if c1.timeout == 0 || c1.clock < c1.timeout then c1
    else
      match c1.phase
      case BOOTP_REQ_SENT => c1.(phase := BOOTP_RETX)
      case TFTP_REQ_SENT =>
        if c1.bytes == 0 then c1.(phase := TFTP_RETX)
        else if c1.retx < MAX_RETX then Ack(c1, c1.block - 1).(retx := c1.retx + 1, retold := c1.retold + 1)
        else c1.(phase := BOOT_ERROR, timeout := 0)
      case _ => c1
  }

  /** `boot_xinu` at its start, over whatever memory holds. */
  function Start(mem: seq<Byte>, clock: int): Client {
    Client(BEGIN_BOOTP, 0, clock, 0, 0, 0, 0, mem, 0, 0, 0, [])
  }

  // ----------------------------------------------------------------------------- the file

  /** How many blocks the server cuts a file into; the last one is short, perhaps empty. */
  function Blocks(file: seq<Byte>): int { |file| / TFTP_BLOCK_SIZE + 1 }

  /** Block n of the file. */
  function BlockOf(file: seq<Byte>, n: int): (r: seq<Byte>)
    requires 1 <= n <= Blocks(file)
    ensures |r| <= TFTP_BLOCK_SIZE && (|r| < TFTP_BLOCK_SIZE <==> n == Blocks(file))
  {
    var lo := TFTP_BLOCK_SIZE * (n - 1);
    file[lo..if lo + TFTP_BLOCK_SIZE <= |file| then lo + TFTP_BLOCK_SIZE else |file|]
  }

  /** An honest packet: some block of the file under its number on the wire, or anything that
      is not a block. When it was sent, and how often, is left to the network. */
  ghost predicate Honest(file: seq<Byte>, p: Packet) {
    p.TftpData? ==> exists n {:trigger BlockOf(file, n)} :: 1 <= n <= Blocks(file) && p.wire == n % 0x1_0000 && p.bytes == BlockOf(file, n)
  }

  // -------------------------------------------------------------------------- the invariant

  /** The first bytes of memory are the first bytes of the file. */
  predicate Loaded(c: Client, file: seq<Byte>) {
    0 <= c.bytes <= |file| <= |c.mem| && c.mem[..c.bytes] == file[..c.bytes]
  }

  predicate Sound(c: Client, file: seq<Byte>) {
    && Loaded(c, file)
    && (c.phase == TFTP_REQ_SENT ==> 1 <= c.block <= Blocks(file) && c.bytes == TFTP_BLOCK_SIZE * (c.block - 1))
    && (c.phase == BOOT_DONE ==> c.bytes == |file|)
  }

  /** The requests sent so far leave enough tries. */
  predicate Counted(c: Client) {
    && 0 <= c.try && 0 <= c.retx <= MAX_RETX && c.retold == c.retx
    && (match c.phase
        case BEGIN_BOOTP => c.try == 0 && c.tried == 0 && c.asked == 0
        case BOOTP_REQ_SENT => c.try <= MON_MAX_TRY && c.tried == c.try + 1 && c.asked == 0
        case BOOTP_RETX => c.try <= MON_MAX_TRY && c.tried == c.try + 1 && c.asked == 0
        case BEGIN_TFTP => c.try == 0 && c.tried <= 1 + MON_MAX_TRY && c.asked == 0
        case TFTP_REQ_SENT => c.try <= MON_MAX_TRY && c.tried <= 1 + MON_MAX_TRY && c.asked == c.try + 1
        case TFTP_RETX => c.try <= MON_MAX_TRY && c.tried <= 1 + MON_MAX_TRY && c.asked == c.try + 1
        case _ => c.tried <= 1 + MON_MAX_TRY && c.asked <= 1 + MON_MAX_TRY)
  }

  // --------------------------------------------------------------------------------- steps

  datatype Step = Polls | Gets(p: Packet) | Seconds

  /** The block numbers of a file of fewer than 65536 blocks are told apart on the wire. */
  predicate Numbered(file: seq<Byte>) { Blocks(file) <= 0xffff }

  lemma WireNumbers(n: int, m: int)
    requires 1 <= n <= 0xffff && 1 <= m <= 0xffff
    ensures Short(n % 0x1_0000) == m ==> n == m
    ensures Short(n % 0x1_0000) == n <==> n <= 0x7fff
  {
  }

  lemma CopyExtends(mem: seq<Byte>, file: seq<Byte>, at: nat, n: nat)
    requires at + n <= |file| <= |mem| && mem[..at] == file[..at]
    ensures Copied(mem, at, file[at..at + n])[..at + n] == file[..at + n]
  {
    var r := Copied(mem, at, file[at..at + n]);
    assert file[..at + n] == file[..at] + file[at..at + n];
    assert r[..at + n] == mem[..at] + file[at..at + n];
  }

  /** The expected block arrives. */
  lemma NextBlock(c: Client, file: seq<Byte>, n: int)
    requires Sound(c, file) && c.phase == TFTP_REQ_SENT && c.block == n && n <= Blocks(file)
    ensures c.bytes + |BlockOf(file, n)| <= |file|
    ensures BlockOf(file, n) == file[c.bytes..c.bytes + |BlockOf(file, n)|]
    ensures n == Blocks(file) ==> c.bytes + |BlockOf(file, n)| == |file|
  {
  }

  lemma DataKeeps(c: Client, file: seq<Byte>, p: Packet)
    requires Sound(c, file) && c.phase == TFTP_REQ_SENT && Numbered(file) && Honest(file, p) && p.TftpData? && Short(p.wire) == c.block
    ensures Fits(c, p) && Sound(TftpIn(c, p), file)
    ensures TftpIn(c, p).phase == BOOT_DONE ==> Blocks(file) <= 0x7fff && c.block == Blocks(file)
  {
    var n :| 1 <= n <= Blocks(file) && p.wire == n % 0x1_0000 && p.bytes == BlockOf(file, n);
    WireNumbers(n, c.block);
    NextBlock(c, file, n);
    CopyExtends(c.mem, file, c.bytes, |p.bytes|);
  }

  /** A block of the file never runs past the end of the file's image in memory. */
  lemma NeverOverruns(c: Client, file: seq<Byte>, p: Packet)
    requires Sound(c, file) && Numbered(file) && Honest(file, p)
    ensures Fits(c, p)
  {
    if c.phase == TFTP_REQ_SENT && p.TftpData? && Short(p.wire) == c.block { DataKeeps(c, file, p); }
  }

  /** An honest packet in any phase. */
  lemma UdpKeeps(c: Client, file: seq<Byte>, p: Packet)
    requires Sound(c, file) && Numbered(file) && Honest(file, p)
    ensures Fits(c, p) && Sound(UdpIn(c, p), file)
  {
    NeverOverruns(c, file, p);
    if p.TftpData? && c.phase == TFTP_REQ_SENT && Short(p.wire) == c.block {
      DataKeeps(c.(timeout := 0), file, p);
    }
  }

  function Do(c: Client, st: Step): Client
    requires st.Gets? ==> Fits(c, st.p)
  {
    match st
    case Polls => Poll(c)
    case Gets(p) => UdpIn(c, p)
    case Seconds => Second(c)
  }

  /** A run of the client against an honest server. */
  ghost predicate IsRun(cs: seq<Client>, sts: seq<Step>, file: seq<Byte>) {
    && |cs| == |sts| + 1
    && forall k :: 0 <= k < |sts| ==>
      (sts[k].Gets? ==> Honest(file, sts[k].p) && Fits(cs[k], sts[k].p)) && cs[k + 1] == Do(cs[k], sts[k])
  }

  lemma StepKeeps(c: Client, st: Step, file: seq<Byte>)
    requires Sound(c, file) && Counted(c) && Numbered(file)
    requires st.Gets? ==> Honest(file, st.p) && Fits(c, st.p)
    ensures Sound(Do(c, st), file) && Counted(Do(c, st))
  {
    if st.Gets? { UdpKeeps(c, file, st.p); }
  }

  lemma {:induction false} RunKeeps(cs: seq<Client>, sts: seq<Step>, file: seq<Byte>, k: nat)
    requires IsRun(cs, sts, file) && Numbered(file) && k < |cs|
    requires Sound(cs[0], file) && Counted(cs[0])
    ensures Sound(cs[k], file) && Counted(cs[k])
  {
    if k > 0 {
      RunKeeps(cs, sts, file, k - 1);
      StepKeeps(cs[k - 1], sts[k - 1], file);
    }
  }

  /** Under any loss, duplication, delay and reordering: what has been loaded is always the
      beginning of the file, during the transfer its first 512 * (block - 1) bytes; a boot
      that is done has loaded the whole file and nothing but the file; and a boot sends at
      most 1 + MON_MAX_TRY read requests, as many BOOTP requests, and after a request at most
      five acknowledgements by the timer. */
  lemma LoadsTheFile(cs: seq<Client>, sts: seq<Step>, file: seq<Byte>, mem: seq<Byte>, clock: int, k: nat)
    requires IsRun(cs, sts, file) && cs[0] == Start(mem, clock) && Numbered(file) && |file| <= |mem| && k < |cs|
    ensures var c := cs[k];
      && Loaded(c, file)
      && (c.phase == TFTP_REQ_SENT ==> c.bytes == TFTP_BLOCK_SIZE * (c.block - 1))
      && (c.phase == BOOT_DONE ==> c.bytes == |file| && c.mem[..|file|] == file)
      && c.asked <= 1 + MON_MAX_TRY && c.tried <= 1 + MON_MAX_TRY && c.retold <= MAX_RETX
  {
    RunKeeps(cs, sts, file, k);
  }

  /** Once the client is done or has given up, nothing changes it but time. */
  lemma DoneStays(c: Client, st: Step)
    requires (c.phase == BOOT_DONE || c.phase == GAVE_UP) && (st.Gets? ==> Fits(c, st.p))
    ensures var d := Do(c, st); d == c.(clock := d.clock)
  {
  }

  // ------------------------------------------------------------ how far the numbers reach

  /** A boot that is done had a file of at most 32767 blocks: later block numbers read as
      negative and are never the expected one. */
  lemma {:induction false} DoneIsShort(cs: seq<Client>, sts: seq<Step>, file: seq<Byte>, mem: seq<Byte>, clock: int, k: nat)
    requires IsRun(cs, sts, file) && cs[0] == Start(mem, clock) && Numbered(file) && |file| <= |mem| && k < |cs|
    ensures cs[k].phase == BOOT_DONE ==> Blocks(file) <= 0x7fff
  {
    if k > 0 {
      DoneIsShort(cs, sts, file, mem, clock, k - 1);
      RunKeeps(cs, sts, file, k - 1);
      var c, st := cs[k - 1], sts[k - 1];
      if st.Gets? && st.p.TftpData? && c.phase == TFTP_REQ_SENT && Short(st.p.wire) == c.block {
        DataKeeps(c.(timeout := 0), file, st.p);
      }
    }
  }

  /** The client after blocks 1 to n have arrived in order. */
  function Fed(c: Client, file: seq<Byte>, n: nat): Client
    requires n <= Blocks(file)
  {
    if n == 0 then c
    else
      var c1, p := Fed(c, file, n - 1), TftpData(n % 0x1_0000, BlockOf(file, n));
      if Fits(c1, p) then Do(c1, Gets(p)) else c1
  }

  lemma TimerApart(c: Client, file: seq<Byte>)
    requires Sound(c, file)
    ensures Sound(c.(timeout := 0), file)
  {
  }

  lemma {:induction false} FedState(c: Client, file: seq<Byte>, n: nat)
    requires Sound(c, file) && c.phase == TFTP_REQ_SENT && c.block == 1 && Numbered(file) && n <= Blocks(file)
    ensures var d := Fed(c, file, n);
      && Sound(d, file)
      && (n == Blocks(file) && n <= 0x7fff ==> d.phase == BOOT_DONE)
      && (n < Blocks(file) || n > 0x7fff ==> d.phase == TFTP_REQ_SENT && d.block == if n <= 0x7fff then n + 1 else 0x8000)
  {
    hide Short, Copied, BlockOf, Loaded;
    if n > 0 {
      FedState(c, file, n - 1);
      var d, p := Fed(c, file, n - 1), TftpData(n % 0x1_0000, BlockOf(file, n));
      WireNumbers(n, n);
      assert Honest(file, p);
      UdpKeeps(d, file, p);
      if n <= 0x7fff {
        TimerApart(d, file);
        DataKeeps(d.(timeout := 0), file, p);
      }
    }
  }

  /** Blocks that arrive in order complete the boot exactly when there are at most 32767. */
  lemma InOrderCompletes(c: Client, file: seq<Byte>)
    requires Sound(c, file) && c.phase == TFTP_REQ_SENT && c.block == 1 && Numbered(file)
    ensures Fed(c, file, Blocks(file)).phase == BOOT_DONE <==> Blocks(file) <= 0x7fff
  {
    FedState(c, file, Blocks(file));
  }

  // ------------------------------------------------------------- acknowledgements and timer

  /** A block that is not the last one stops the timer; it runs again exactly when the block
      was the expected one or a neighbour of it. After any other stale block the client has no
      timer left to repeat its acknowledgement. */
  lemma TimerAfterData(c: Client, p: Packet)
    requires c.phase == TFTP_REQ_SENT && p.TftpData? && Fits(c, p) && c.clock >= 0 && UdpIn(c, p).phase == TFTP_REQ_SENT
    ensures UdpIn(c, p).timeout != 0 <==> -1 <= c.block - Short(p.wire) <= 1
  {
  }

  /** An acknowledgement sent for a block names a block the client has, except exactly when
      the block after the expected one arrives: then it acknowledges the missing one. */
  lemma AcksWhatItHas(c: Client, p: Packet)
    requires c.phase == TFTP_REQ_SENT && p.TftpData? && Fits(c, p)
    ensures
      var d := UdpIn(c, p);
      var got := if Short(p.wire) == c.block then c.block else c.block - 1;
      |d.acks| > |c.acks| ==> (d.acks[|d.acks| - 1] <= got <==> Short(p.wire) != c.block + 1)
  {
  }
}
