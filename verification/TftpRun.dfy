/** The boot client over time: what its acknowledgements name, when its timer fires, when it
    gives up, and that a boot without losses succeeds. */
module TftpRun {
  import opened Machine
  import opened Tftp

  // ---------------------------------------------------------------------- acknowledgements

  /** Blocks 1 to n of the file are in memory. */
  predicate Holds(c: Client, file: seq<Byte>, n: int) {
    0 <= n <= Blocks(file) && Loaded(c, file) && (TFTP_BLOCK_SIZE * n <= c.bytes || c.bytes == |file|)
  }

  /** The step appends one acknowledgement, for block n. */
  predicate Acks(c: Client, d: Client, n: int) { d.acks == c.acks + [n] }

  /** The timer repeats the acknowledgement of the last block the client has; it sends no
      other, and changes nothing in memory. */
  lemma TimerRepeats(c: Client, file: seq<Byte>)
    requires Sound(c, file) && Counted(c)
    ensures
      var d := Second(c);
      && d.mem == c.mem && d.bytes == c.bytes && d.clock == c.clock + 1
      && (d.acks == c.acks
          || (Acks(c, d, c.block - 1) && c.phase == TFTP_REQ_SENT && TFTP_BLOCK_SIZE * (c.block - 1) == c.bytes && c.block >= 2))
      && (d.acks != c.acks <==>
            c.phase == TFTP_REQ_SENT && c.timeout != 0 && d.clock >= c.timeout && c.bytes != 0 && c.retx < MAX_RETX)
  {
  }

  /** Each acknowledgement of a run names a block that is in memory, with all before it, when
      it is sent; except exactly when the block after the expected one has arrived. */
  lemma {:induction false} AcksHeld(cs: seq<Client>, sts: seq<Step>, file: seq<Byte>, mem: seq<Byte>, clock: int, k: nat)
    requires IsRun(cs, sts, file) && cs[0] == Start(mem, clock) && Numbered(file) && |file| <= |mem| && k < |sts|
    ensures
      var c, d := cs[k], cs[k + 1];
      && (d.acks == c.acks || exists n :: Acks(c, d, n))
      && forall n {:trigger Acks(c, d, n)} :: Acks(c, d, n) ==>
        (Holds(d, file, n) <==> !(sts[k].Gets? && sts[k].p.TftpData? && Short(sts[k].p.wire) == c.block + 1))
  {
    RunKeeps(cs, sts, file, k);
    RunKeeps(cs, sts, file, k + 1);
    var c, d, st := cs[k], cs[k + 1], sts[k];
    match st
    case Polls => assert d.acks == c.acks;
    case Seconds =>
      TimerRepeats(c, file);
      OneAck(c, d, c.block - 1);
    case Gets(p) => PacketAcks(c, p, file);
  }

  lemma OneAck(c: Client, d: Client, n: int)
    ensures Acks(c, d, n) ==> forall i {:trigger Acks(c, d, i)} :: Acks(c, d, i) ==> i == n
  {
    if Acks(c, d, n) {
      forall i | Acks(c, d, i)
        ensures i == n
      {
        assert (c.acks + [i])[|c.acks|] == i && (c.acks + [n])[|c.acks|] == n;
      }
    }
  }

  lemma PacketAcks(c: Client, p: Packet, file: seq<Byte>)
    requires Sound(c, file) && Numbered(file) && Honest(file, p) && Fits(c, p)
    ensures
      var d := UdpIn(c, p);
      && (d.acks == c.acks || exists n :: Acks(c, d, n))
      && forall n {:trigger Acks(c, d, n)} :: Acks(c, d, n) ==>
        (Holds(d, file, n) <==> !(p.TftpData? && Short(p.wire) == c.block + 1))
  {
    hide Short, Copied, Loaded;
    var d := UdpIn(c, p);
    UdpKeeps(c, file, p);
    if c.phase == TFTP_REQ_SENT && p.TftpData? {
      var e := Short(p.wire);
      if e == c.block {
        OneAck(c, d, c.block);
        DataLoads(c, p, file);
      } else if e == c.block - 1 {
        OneAck(c, d, e);
        Positive(file, p);
        FromWire(file, p, e);
      } else if e == c.block + 1 {
        OneAck(c, d, c.block);
        NotYet(c, file, p);
      }
    }
  }

  lemma DataLoads(c: Client, p: Packet, file: seq<Byte>)
    requires Sound(c, file) && Numbered(file) && Honest(file, p) && Fits(c, p) && c.phase == TFTP_REQ_SENT && p.TftpData? && Short(p.wire) == c.block
    ensures Holds(UdpIn(c, p), file, c.block)
  {
    UdpKeeps(c, file, p);
    var n :| 1 <= n <= Blocks(file) && p.wire == n % 0x1_0000 && p.bytes == BlockOf(file, n);
    WireNumbers(n, c.block);
  }

  lemma Positive(file: seq<Byte>, p: Packet)
    requires Honest(file, p) && p.TftpData? && Numbered(file)
    ensures Short(p.wire) != 0
  {
    var n :| 1 <= n <= Blocks(file) && p.wire == n % 0x1_0000 && p.bytes == BlockOf(file, n);
  }

  lemma FromWire(file: seq<Byte>, p: Packet, e: int)
    requires Honest(file, p) && p.TftpData? && Numbered(file) && e == Short(p.wire)
    ensures e > 0 ==> e <= Blocks(file)
  {
    var n :| 1 <= n <= Blocks(file) && p.wire == n % 0x1_0000 && p.bytes == BlockOf(file, n);
  }

  /** The block after the expected one exists, so the expected one is not the last and is
      not there yet. */
  lemma NotYet(c: Client, file: seq<Byte>, p: Packet)
    requires Sound(c, file) && Honest(file, p) && p.TftpData? && Numbered(file) && c.phase == TFTP_REQ_SENT && Short(p.wire) == c.block + 1
    ensures TFTP_BLOCK_SIZE * c.block > c.bytes && c.bytes != |file|
  {
    FromWire(file, p, c.block + 1);
  }

  // ----------------------------------------------------------------------------- patience

  /** The client gives up only after all its requests of one kind, or all repetitions of one
      acknowledgement, have gone unanswered. */
  predicate Patient(c: Client) {
    && (c.phase == BOOT_ERROR ==> c.retold == MAX_RETX)
    && (c.phase == GAVE_UP ==> c.tried == 1 + MON_MAX_TRY || c.asked == 1 + MON_MAX_TRY || c.retold == MAX_RETX)
  }

  lemma {:induction false} GivesUpLate(cs: seq<Client>, sts: seq<Step>, file: seq<Byte>, mem: seq<Byte>, clock: int, k: nat)
    requires IsRun(cs, sts, file) && cs[0] == Start(mem, clock) && Numbered(file) && |file| <= |mem| && k < |cs|
    ensures Patient(cs[k])
  {
    if k > 0 {
      GivesUpLate(cs, sts, file, mem, clock, k - 1);
      RunKeeps(cs, sts, file, k - 1);
      StepPatient(cs[k - 1], sts[k - 1]);
    }
  }

  lemma StepPatient(c: Client, st: Step)
    requires Counted(c) && Patient(c) && (st.Gets? ==> Fits(c, st.p))
    ensures Patient(Do(c, st))
  {
  }

  // ------------------------------------------------------------------------------- seconds

  /** n seconds without a packet; after each the loop of `boot_xinu` comes round. */
  function Idle(c: Client, n: nat): Client {
    if n == 0 then c else Do(Do(Idle(c, n - 1), Seconds), Polls)
  }

  predicate Asking(c: Client) { c.phase == BOOTP_REQ_SENT || (c.phase == TFTP_REQ_SENT && c.bytes == 0) }

  /** While the timer runs nothing happens. */
  lemma {:induction false} Waits(c: Client, n: nat)
    requires (c.phase == BOOTP_REQ_SENT || c.phase == TFTP_REQ_SENT) && n < c.timeout - c.clock && c.timeout != 0
    ensures Idle(c, n) == c.(clock := c.clock + n)
  {
    if n > 0 { Waits(c, n - 1); }
  }

  /** A request without an answer is repeated try + 2 seconds after it went out, with the next
      try, up to the last. */
  lemma AsksAgain(c: Client)
    requires Asking(c) && 0 <= c.try <= MON_MAX_TRY && 0 <= c.clock && c.timeout == c.clock + c.try + 2
    ensures
      var d := Idle(c, c.try + 2);
      && d.clock == c.clock + c.try + 2
      && (c.try == MON_MAX_TRY ==> d.phase == GAVE_UP)
      && (c.try < MON_MAX_TRY ==>
            && Asking(d) && d.phase == c.phase && d.try == c.try + 1 && d.timeout == d.clock + d.try + 2
            && (c.phase == BOOTP_REQ_SENT ==> d.tried == c.tried + 1 && d.asked == c.asked)
            && (c.phase == TFTP_REQ_SENT ==> d.asked == c.asked + 1 && d.tried == c.tried && d.block == 1))
  {
    hide Idle, Poll, Second;
    Waits(c, c.try + 1);
    IdleStep(c, c.try + 1);
    TimerAsks(c.(clock := c.clock + c.try + 1));
  }

  lemma TimerAsks(c: Client)
    requires Asking(c) && 0 <= c.try <= MON_MAX_TRY && 0 <= c.clock && c.timeout == c.clock + 1
    ensures
      var d := Poll(Second(c));
      && d.clock == c.clock + 1
      && (c.try == MON_MAX_TRY ==> d.phase == GAVE_UP)
      && (c.try < MON_MAX_TRY ==>
            && Asking(d) && d.phase == c.phase && d.try == c.try + 1 && d.timeout == d.clock + d.try + 2
            && (c.phase == BOOTP_REQ_SENT ==> d.tried == c.tried + 1 && d.asked == c.asked)
            && (c.phase == TFTP_REQ_SENT ==> d.asked == c.asked + 1 && d.tried == c.tried && d.block == 1))
  {
  }

  lemma {:induction false} IdleTwice(c: Client, m: nat, n: nat)
    ensures Idle(c, m + n) == Idle(Idle(c, m), n)
  {
    hide Poll, Second;
    if n > 0 { IdleTwice(c, m, n - 1); }
  }

  /** Without any answer the client sends four requests, after 0, 2, 5 and 9 seconds, and gives
      up after 14. */
  lemma Silence(c: Client)
    requires Asking(c) && c.try == 0 && 0 <= c.clock && c.timeout == c.clock + 2
    ensures Asking(Idle(c, 13)) && Idle(c, 13).try == MON_MAX_TRY && Idle(c, 14).phase == GAVE_UP
    ensures Asking(Idle(c, 8)) && Idle(c, 8).try == 2 && Asking(Idle(c, 9)) && Idle(c, 9).try == 3
    ensures Asking(Idle(c, 4)) && Idle(c, 4).try == 1 && Asking(Idle(c, 5)) && Idle(c, 5).try == 2
    ensures Asking(Idle(c, 1)) && Idle(c, 1).try == 0 && Asking(Idle(c, 2)) && Idle(c, 2).try == 1
  {
    hide Idle, Poll, Second;
    AsksAgain(c);
    Waits(c, 1);
    var c1 := Idle(c, 2);
    AsksAgain(c1);
    Waits(c1, 2);
    IdleTwice(c, 2, 2);
    IdleTwice(c, 2, 3);
    var c2 := Idle(c1, 3);
    AsksAgain(c2);
    Waits(c2, 3);
    IdleTwice(c, 5, 3);
    IdleTwice(c, 5, 4);
    var c3 := Idle(c2, 4);
    AsksAgain(c3);
    Waits(c3, 4);
    IdleTwice(c, 9, 4);
    IdleTwice(c, 9, 5);
  }

  /** After an acknowledgement without a following block, the same one goes out again after two
      seconds and, as the timer is then set anew, every two seconds, five times in all. */
  lemma AcksAgain(c: Client)
    requires c.phase == TFTP_REQ_SENT && c.bytes != 0 && 0 <= c.clock && c.timeout == c.clock + 2 && 0 <= c.retx <= MAX_RETX
    ensures Idle(c, 1) == c.(clock := c.clock + 1)
    ensures
      var d := Idle(c, 2);
      if c.retx < MAX_RETX then
        d == c.(clock := c.clock + 2, timeout := c.clock + 4, retx := c.retx + 1, retold := c.retold + 1, acks := c.acks + [c.block - 1])
      else d.phase == GAVE_UP && d.acks == c.acks && d.timeout == 0
  {
    hide Idle, Poll, Second;
    Waits(c, 1);
    IdleStep(c, 1);
    TimerGoesOff(c.(clock := c.clock + 1));
  }

  lemma IdleStep(c: Client, n: nat)
    ensures Idle(c, n + 1) == Poll(Second(Idle(c, n)))
  {
  }

  lemma TimerGoesOff(c: Client)
    requires c.phase == TFTP_REQ_SENT && c.bytes != 0 && 0 < c.timeout == c.clock + 1 && 0 <= c.retx <= MAX_RETX
    ensures
      var d := Poll(Second(c));
      if c.retx < MAX_RETX then
        d == c.(clock := c.clock + 1, timeout := c.clock + 3, retx := c.retx + 1, retold := c.retold + 1, acks := c.acks + [c.block - 1])
      else d.phase == GAVE_UP && d.acks == c.acks && d.timeout == 0
  {
  }

  // ------------------------------------------------------------------------- a whole boot

  /** Without losses: the BOOTP reply, then the blocks in order. The boot is done and memory
      holds the file, exactly when the file has at most 32767 blocks. */
  lemma CleanBoot(mem: seq<Byte>, clock: int, file: seq<Byte>)
    requires Numbered(file) && |file| <= |mem|
    ensures
      var c1 := Do(Start(mem, clock), Polls);
      var c2 := Do(Do(c1, Gets(Bootp(true))), Polls);
      var c3 := Fed(c2, file, Blocks(file));
      && c1.phase == BOOTP_REQ_SENT && c1.tried == 1 && c2.phase == TFTP_REQ_SENT && c2.asked == 1
      && (c3.phase == BOOT_DONE <==> Blocks(file) <= 0x7fff)
      && |c3.mem| == |mem|
      && (c3.phase == BOOT_DONE ==> c3.mem[..|file|] == file && c3.mem[|file|..] == mem[|file|..])
  {
    var c1 := Poll(Start(mem, clock));
    var c2 := Poll(UdpIn(c1, Bootp(true)));
    FedState(c2, file, Blocks(file));
    InOrderCompletes(c2, file);
    FedTail(c2, file, Blocks(file));
  }

  /** Memory behind the file stays as it is. */
  lemma {:induction false} FedTail(c: Client, file: seq<Byte>, n: nat)
    requires Sound(c, file) && c.phase == TFTP_REQ_SENT && c.block == 1 && Numbered(file) && n <= Blocks(file)
    ensures |Fed(c, file, n).mem| == |c.mem| && Fed(c, file, n).mem[|file|..] == c.mem[|file|..]
  {
    if n > 0 {
      FedTail(c, file, n - 1);
      FedState(c, file, n - 1);
      var d, p := Fed(c, file, n - 1), TftpData(n % 0x1_0000, BlockOf(file, n));
      assert Honest(file, p);
      TailKept(d, file, p);
    }
  }

  lemma TailKept(c: Client, file: seq<Byte>, p: Packet)
    requires Sound(c, file) && Numbered(file) && Honest(file, p)
    ensures Fits(c, p) && |UdpIn(c, p).mem| == |c.mem| && UdpIn(c, p).mem[|file|..] == c.mem[|file|..]
  {
    hide Copied, BlockOf, Short;
    UdpKeeps(c, file, p);
    MemAfter(c, p);
    if c.phase == TFTP_REQ_SENT && p.TftpData? && Short(p.wire) == c.block {
      var n :| 1 <= n <= Blocks(file) && p.wire == n % 0x1_0000 && p.bytes == BlockOf(file, n);
      WireNumbers(n, c.block);
      NextBlock(c, file, n);
      CopyTail(c.mem, c.bytes, p.bytes, |file|);
    }
  }

  /** Only the expected block reaches memory. */
  lemma MemAfter(c: Client, p: Packet)
    requires Fits(c, p)
    ensures UdpIn(c, p).mem ==
      if c.phase == TFTP_REQ_SENT && p.TftpData? && Short(p.wire) == c.block then Copied(c.mem, c.bytes, p.bytes) else c.mem
  {
    hide Copied, Short;
  }

  lemma CopyTail(mem: seq<Byte>, at: nat, data: seq<Byte>, n: nat)
    requires at + |data| <= n <= |mem|
    ensures Copied(mem, at, data)[n..] == mem[n..]
  {
  }

  // ---------------------------------------------------------------------------- refusals

  /** A packet that nobody waits for changes nothing. */
  lemma Ignored(c: Client, p: Packet)
    requires Fits(c, p)
    requires (p.Bootp? ==> c.phase != BOOTP_REQ_SENT) && (p.TftpData? || p.TftpError? ==> c.phase != TFTP_REQ_SENT)
    ensures UdpIn(c, p) == c
  {
  }

  /** An answer that refuses the request makes the client ask again at once, from the first
      block, or give up after four requests of that kind. */
  lemma RefusalAsksAgain(c: Client, p: Packet)
    requires (c.phase == BOOTP_REQ_SENT && p == Bootp(false)) || (c.phase == TFTP_REQ_SENT && p == TftpError)
    ensures
      var d := Poll(UdpIn(c, p));
      && d.mem == c.mem && d.acks == c.acks && d.clock == c.clock
      && (c.try >= MON_MAX_TRY ==> d.phase == GAVE_UP)
      && (c.try < MON_MAX_TRY ==>
            && d.phase == c.phase && d.try == c.try + 1 && d.timeout == d.clock + d.try + 2
            && (c.phase == BOOTP_REQ_SENT ==> d.tried == c.tried + 1 && d.asked == c.asked)
            && (c.phase == TFTP_REQ_SENT ==> d.asked == c.asked + 1 && d.tried == c.tried && d.block == 1 && d.bytes == 0))
  {
  }

  /** The acknowledgements that the timer has repeated since the last read request. */
  function Repeats(cs: seq<Client>, sts: seq<Step>, k: nat): nat
    requires k <= |sts| < |cs|
  {
    if k == 0 || cs[k].asked > cs[k - 1].asked then 0
    else Repeats(cs, sts, k - 1) + (if sts[k - 1].Seconds? && cs[k].acks != cs[k - 1].acks then 1 else 0)
  }

  lemma StepRepeats(c: Client, st: Step)
    requires Counted(c) && (st.Gets? ==> Fits(c, st.p))
    ensures
      var d := Do(c, st);
      d.asked >= c.asked
      && d.retx == if d.asked > c.asked then 0 else c.retx + if st.Seconds? && d.acks != c.acks then 1 else 0
  {
  }

  /** In any run the client counts them from one read request to the next, however much data
      arrives in between: it repeats five at most. */
  lemma {:induction false} RepeatsCounted(cs: seq<Client>, sts: seq<Step>, file: seq<Byte>, mem: seq<Byte>, clock: int, k: nat)
    requires IsRun(cs, sts, file) && cs[0] == Start(mem, clock) && Numbered(file) && |file| <= |mem| && k < |cs|
    ensures cs[k].retx == Repeats(cs, sts, k) <= MAX_RETX
  {
    RunKeeps(cs, sts, file, k);
    if k > 0 {
      RepeatsCounted(cs, sts, file, mem, clock, k - 1);
      RunKeeps(cs, sts, file, k - 1);
      StepRepeats(cs[k - 1], sts[k - 1]);
    }
  }
}
