/** The boot client as the monitor keeps it: global variables that packets, the timer and the
    loop of boot_xinu change in place, and memory that blocks are copied into. */
module BootLoader {
  import opened Machine
  import opened Tftp

  class Monitor {
    const mem: array<Byte>   // memory from BOOTPLOC on
    var phase: Phase         // mon_boot_state
    var try: int             // mon_boot_try
    var clock: int           // mon_clktime
    var timeout: int         // mon_timeout
    var block: int           // mon_tftp_block
    var bytes: int           // mon_tftp_bytes, and where mon_tftp_memloc points
    var retx: int            // mon_tftp_retx
    ghost var asked: nat
    ghost var tried: nat
    ghost var retold: nat
    ghost var acks: seq<int>

    ghost function S(): Client
      reads this, mem
    {
      Client(phase, try, clock, timeout, block, bytes, retx, mem[..], asked, tried, retold, acks)
    }

    /** `boot_xinu` at its start. */
    constructor (m: array<Byte>, now: int)
      ensures mem == m && S() == Start(m[..], now)
    {
      mem := m;
      phase, try, clock, timeout, block, bytes, retx := BEGIN_BOOTP, 0, now, 0, 0, 0, 0;
      asked, tried, retold, acks := 0, 0, 0, [];
    }

    /** `mon_tftp_ack`. */
    method Ack(n: int)
      modifies this`timeout, this`acks
      ensures S() == Tftp.Ack(old(S()), n)
    {
      acks := acks + [n];
      timeout := clock + 2;
    }

    /** `blkcopy`, byte by byte. */
    method Copy(data: seq<Byte>)
      requires 0 <= bytes && bytes + |data| <= mem.Length
      modifies mem
      ensures mem[..] == Copied(old(mem[..]), bytes, data)
    {
      ghost var before := mem[..];
      var k := 0;
      while k < |data|
        invariant 0 <= k <= |data|
        invariant forall x :: 0 <= x < mem.Length ==> mem[x] == if bytes <= x < bytes + k then data[x - bytes] else before[x]
      {
        mem[bytes + k] := data[k];
        k := k + 1;
      }
      assert mem[..] == Copied(before, bytes, data);
    }

    /** `mon_tftp_in`, with what `mon_udp_in` makes of its result. */
    method TftpIn(p: Packet)
      requires S().phase == TFTP_REQ_SENT && Fits(S(), p)
      modifies this, mem
      ensures S() == Tftp.TftpIn(old(S()), p)
    {
      match p
      case TftpError =>
        phase := TFTP_RETX;
      case TftpData(wire, data) =>
        var number := Short(wire);
        if number != block {
          var diff := block - number;
          if diff == 1 {
            Ack(number);
          } else if diff == -1 {
            Ack(block);
          }
          return;
        }
        Copy(data);
        bytes := bytes + |data|;
        Ack(block);
        if |data| < TFTP_BLOCK_SIZE {
          phase := BOOT_DONE;
        } else {
          block := block + 1;
        }
      case _ =>
    }

    /** `mon_udp_in`. */
    method UdpIn(p: Packet)
      requires Fits(S(), p)
      modifies this, mem
      ensures S() == Tftp.UdpIn(old(S()), p)
    {
      match p
      case Bootp(good) =>
        if phase == BOOTP_REQ_SENT {
          timeout := 0;
          if good {
            phase := BEGIN_TFTP;
            try := 0;
          } else {
            phase := BOOTP_RETX;
          }
        }
      case Other =>
      case _ =>
        if phase == TFTP_REQ_SENT {
          timeout := 0;
          TftpIn(p);
        }
    }

    /** A BOOTP request goes out. */
    method AskBootp()
      modifies this
      ensures S() == BootpRequest(old(S()))
    {
      phase := BOOTP_REQ_SENT;
      timeout := clock + try + 2;
      tried := tried + 1;
    }

    /** A TFTP read request goes out. */
    method AskTftp()
      modifies this
      ensures S() == Request(old(S()))
    {
      phase := TFTP_REQ_SENT;
      timeout := clock + try + 2;
      block, bytes, retx := 1, 0, 0;
      asked, retold := asked + 1, 0;
    }

    /** One round of the loop of `boot_xinu`. */
    method Poll()
      modifies this
      ensures S() == Tftp.Poll(old(S()))
    {
      match phase
      case BOOTP_RETX =>
        try := try + 1;
        if try > MON_MAX_TRY {
          phase := GAVE_UP;
          return;
        }
        AskBootp();
      case BEGIN_BOOTP =>
        AskBootp();
      case TFTP_RETX =>
        try := try + 1;
        if try > MON_MAX_TRY {
          phase := GAVE_UP;
          return;
        }
        AskTftp();
      case BEGIN_TFTP =>
        AskTftp();
      case BOOT_ERROR =>
        phase := GAVE_UP;
      case _ =>
    }

    /** `mon_clkint` once a second, and `mon_timer`. */
    method Second()
      modifies this
      ensures S() == Tftp.Second(old(S()))
    {
      clock := clock + 1;
      if timeout != 0 && clock >= timeout {
        match phase
        case BOOTP_REQ_SENT =>
          phase := BOOTP_RETX;
        case TFTP_REQ_SENT =>
          if bytes == 0 {
            phase := TFTP_RETX;
          } else if retx < MAX_RETX {
            Ack(block - 1);
            retx := retx + 1;
            retold := retold + 1;
          } else {
            phase := BOOT_ERROR;
            timeout := 0;
          }
        case _ =>
      }
    }

    /** A packet from an honest server: memory keeps holding the beginning of the file. */
    method Receive(p: Packet, ghost file: seq<Byte>)
      requires Sound(S(), file) && Counted(S()) && Numbered(file) && Honest(file, p)
      modifies this, mem
      ensures Sound(S(), file) && Counted(S())
      ensures S().phase == BOOT_DONE ==> mem[..|file|] == file
    {
      UdpKeeps(S(), file, p);
      StepKeeps(S(), Gets(p), file);
      UdpIn(p);
    }
  }
}
