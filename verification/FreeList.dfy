/** The address-ordered free lists of the virtual heaps (paging/vgetmem.c,
    paging/vfreemem.c) and of kernel memory (sys/getmem.c, sys/freemem.c, sys/getstk.c), as
    functions on sequences of blocks. */
module FreeList {
  import opened Machine

  datatype Block = Block(addr: int, len: int)

  const WORDS32: int := 0x1_0000_0000

  function End(b: Block): int { b.addr + b.len }

  /** Sorted by address, no block empty, and no two blocks touching. */
  ghost predicate Canonical(f: seq<Block>) {
    && (forall k :: 0 <= k < |f| ==> f[k].len > 0)
    && (forall j, k :: 0 <= j < k < |f| ==> End(f[j]) < f[k].addr)
  }

  predicate In(b: Block, x: int) { b.addr <= x < End(b) }

  /** Byte x is free. */
  ghost predicate Covers(f: seq<Block>, x: int) {
    exists k :: 0 <= k < |f| && In(f[k], x)
  }

  ghost predicate Aligned(f: seq<Block>) {
    forall k :: 0 <= k < |f| ==> f[k].addr % 8 == 0 && f[k].len % 8 == 0
  }

  // ------------------------------------------------------------------------- uniqueness

  lemma TailCovers(f: seq<Block>, x: int)
    requires Canonical(f) && |f| > 0
    ensures Canonical(f[1..])
    ensures Covers(f[1..], x) <==> Covers(f, x) && x >= End(f[0])
  {
    if Covers(f[1..], x) {
      var k :| 0 <= k < |f| - 1 && In(f[1..][k], x);
      assert In(f[k + 1], x);
    }
    if Covers(f, x) && x >= End(f[0]) {
      var k :| 0 <= k < |f| && In(f[k], x);
      assert In(f[1..][k - 1], x);
    }
  }

  /** The first byte past the first block is not free, nor is any before the block. */
  lemma HeadBounds(f: seq<Block>)
    requires Canonical(f) && |f| > 0
    ensures Covers(f, f[0].addr) && !Covers(f, End(f[0]))
    ensures forall x :: x < f[0].addr ==> !Covers(f, x)
    ensures forall x :: In(f[0], x) ==> Covers(f, x)
  {
    assert In(f[0], f[0].addr);
  }

  /** A canonical list is determined by the bytes it covers. */
  lemma {:induction false} CanonicalUnique(f: seq<Block>, g: seq<Block>)
    requires Canonical(f) && Canonical(g) && forall x :: Covers(f, x) <==> Covers(g, x)
    ensures f == g
  {
    if |f| == 0 {
      if |g| > 0 { HeadBounds(g); }
    } else if |g| == 0 {
      HeadBounds(f);
    } else {
      HeadBounds(f);
      HeadBounds(g);
      assert f[0].addr == g[0].addr;
      assert !(End(f[0]) < End(g[0])) by { assert End(f[0]) < End(g[0]) ==> In(g[0], End(f[0])); }
      assert !(End(g[0]) < End(f[0])) by { assert End(g[0]) < End(f[0]) ==> In(f[0], End(g[0])); }
      forall x
        ensures Covers(f[1..], x) <==> Covers(g[1..], x)
      {
        TailCovers(f, x);
        TailCovers(g, x);
      }
      TailCovers(f, 0);
      TailCovers(g, 0);
      CanonicalUnique(f[1..], g[1..]);
      assert f == [f[0]] + f[1..] && g == [g[0]] + g[1..];
    }
  }

  // ------------------------------------------------------------------------- allocation

  /** `roundmb` on a 32-bit word. */
  function RoundMb(x: int): (r: int)
    requires 0 <= x < WORDS32
    ensures r % 8 == 0 && 0 <= r < WORDS32
  {
    (x + 7) / 8 * 8 % WORDS32
  }

  /** It rounds up, except that the seven largest requests wrap round to nothing. */
  lemma RoundMbUp(x: int)
    requires 0 <= x < WORDS32
    ensures x <= RoundMb(x) < x + 8 <==> x <= WORDS32 - 8
    ensures x > WORDS32 - 8 ==> RoundMb(x) == 0
  {
  }

  /** The first block, from position k on, of at least n bytes; the length if there is none. */
  function FirstFit(f: seq<Block>, n: int, k: nat): (r: nat)
    requires k <= |f|
    ensures k <= r <= |f|
    ensures r < |f| ==> f[r].len >= n
    ensures forall j :: k <= j < r ==> f[j].len < n
    decreases |f| - k
  {
    if k == |f| || f[k].len >= n then k else FirstFit(f, n, k + 1)
  }

  /** The list without the first n bytes of block k. */
  function CutLow(f: seq<Block>, k: nat, n: int): seq<Block>
    requires k < |f|
  {
    if f[k].len == n then f[..k] + f[k + 1..] else f[k := Block(f[k].addr + n, f[k].len - n)]
  }

  /** The list without the last n bytes of block k. */
  function CutHigh(f: seq<Block>, k: nat, n: int): seq<Block>
    requires k < |f|
  {
    if f[k].len == n then f[..k] + f[k + 1..] else f[k := Block(f[k].addr, f[k].len - n)]
  }

  /** `vgetmem` and `getmem`: the address handed out and the list after it; None is SYSERR. */
  function Get(f: seq<Block>, nbytes: int): Option<(int, seq<Block>)>
    requires 0 <= nbytes < WORDS32
  {
    if nbytes == 0 || f == [] then None
    else
      var n := RoundMb(nbytes);
      var k := FirstFit(f, n, 0);
      if k < |f| then Some((f[k].addr, CutLow(f, k, n))) else None
  }

  lemma Found(f: seq<Block>, k: nat, x: int)
    requires k < |f| && In(f[k], x)
    ensures Covers(f, x)
  {
  }

  lemma Find(f: seq<Block>, x: int) returns (k: nat)
    requires Covers(f, x)
    ensures k < |f| && In(f[k], x)
  {
    k :| 0 <= k < |f| && In(f[k], x);
  }

  lemma OneBlock(f: seq<Block>, j: nat, k: nat, x: int)
    requires Canonical(f) && j < |f| && k < |f| && In(f[j], x) && In(f[k], x)
    ensures j == k
  {
  }

  /** Removing block k. */
  lemma Removed(f: seq<Block>, k: nat, x: int)
    requires Canonical(f) && k < |f|
    ensures var g := f[..k] + f[k + 1..]; Canonical(g) && (Covers(g, x) <==> Covers(f, x) && !In(f[k], x))
  {
    var g := f[..k] + f[k + 1..];
    if Covers(g, x) {
      var j := Find(g, x);
      Found(f, if j < k then j else j + 1, x);
      if In(f[k], x) { OneBlock(f, k, if j < k then j else j + 1, x); }
    }
    if Covers(f, x) && !In(f[k], x) {
      var j := Find(f, x);
      Found(g, if j < k then j else j - 1, x);
    }
  }

  /** Replacing block k by a part of it. */
  lemma Shrunk(f: seq<Block>, k: nat, c: Block, x: int)
    requires Canonical(f) && k < |f| && c.len > 0 && f[k].addr <= c.addr && End(c) <= End(f[k])
    ensures var g := f[k := c]; Canonical(g) && (Covers(g, x) <==> Covers(f, x) && (In(f[k], x) ==> In(c, x)))
  {
    var g := f[k := c];
    if Covers(g, x) {
      var j := Find(g, x);
      Found(f, j, x);
      if In(f[k], x) { OneBlock(f, j, k, x); }
    }
    if Covers(f, x) && (In(f[k], x) ==> In(c, x)) {
      var j := Find(f, x);
      Found(g, j, x);
    }
  }

  /** What remains of a list when the block c is cut from an end of block k. */
  lemma Cut(f: seq<Block>, g: seq<Block>, k: nat, c: Block, x: int)
    requires Canonical(f) && k < |f| && 0 < c.len <= f[k].len
    requires g == (if c.addr == f[k].addr then CutLow(f, k, c.len) else CutHigh(f, k, c.len))
    requires c.addr == f[k].addr || End(c) == End(f[k])
    ensures Canonical(g)
    ensures Covers(g, x) <==> Covers(f, x) && !In(c, x)
    ensures In(c, x) ==> Covers(f, x)
  {
    hide Canonical, Covers;
    if In(c, x) { Found(f, k, x); }
    if c.len == f[k].len {
      Removed(f, k, x);
    } else {
      Shrunk(f, k, if c.addr == f[k].addr then Block(f[k].addr + c.len, f[k].len - c.len) else Block(f[k].addr, f[k].len - c.len), x);
      if !In(f[k], x) && Covers(f, x) { assert !In(c, x); }
    }
  }

  /** An allocation serves a request of n bytes, rounded, with bytes that were free and are
      not free afterwards, and changes nothing else; it fails only if no block is large
      enough; and the list stays canonical. */
  lemma GetServes(f: seq<Block>, nbytes: int, x: int)
    requires Canonical(f) && 0 < nbytes <= WORDS32 - 8
    ensures Get(f, nbytes).None? <==> forall k :: 0 <= k < |f| ==> f[k].len < nbytes || f[k].len < RoundMb(nbytes)
    ensures Get(f, nbytes).Some? ==>
      var (a, g) := Get(f, nbytes).value;
      var c := Block(a, RoundMb(nbytes));
      && Canonical(g) && nbytes <= c.len
      && (In(c, x) ==> Covers(f, x))
      && (Covers(g, x) <==> Covers(f, x) && !In(c, x))
  {
    RoundMbUp(nbytes);
    var n := RoundMb(nbytes);
    var k := FirstFit(f, n, 0);
    if k < |f| {
      Cut(f, CutLow(f, k, n), k, Block(f[k].addr, n), x);
    }
  }

  /** A request is served with at least the bytes asked for exactly when it does not exceed
      2^32 - 8: above, the rounded size is zero and the caller gets the address of a block
      that stays free. */
  lemma GetShort(f: seq<Block>, nbytes: int)
    requires Canonical(f) && 0 < nbytes < WORDS32 && Get(f, nbytes).Some?
    ensures nbytes <= RoundMb(nbytes) <==> nbytes <= WORDS32 - 8
    ensures nbytes > WORDS32 - 8 ==> Get(f, nbytes) == Some((f[0].addr, f))
  {
    RoundMbUp(nbytes);
    if nbytes > WORDS32 - 8 { assert f[0 := Block(f[0].addr + 0, f[0].len - 0)] == f; }
  }

  // ------------------------------------------------------------------------------ stacks

  /** `roundew`. */
  function RoundEw(x: int): (r: int)
    requires 0 <= x < WORDS32
  {
    (x + 3) / 4 * 4 % WORDS32
  }

  /** The last block of at least n bytes before position k; the length if there is none. */
  function LastFit(f: seq<Block>, n: int, k: nat): (r: nat)
    requires k <= |f|
    ensures r < k || r == |f|
    ensures r < |f| ==> f[r].len >= n
    ensures forall j :: (if r < |f| then r else -1) < j < k ==> f[j].len < n
  {
    if k == 0 then |f| else if f[k - 1].len >= n then k - 1 else LastFit(f, n, k - 1)
  }

  /** `getstk`: the address of the top word of the stack and the list after it. */
  function GetStk(f: seq<Block>, nbytes: int): Option<(int, seq<Block>)>
    requires 0 <= nbytes < WORDS32
  {
    if nbytes == 0 then None
    else
      var n := RoundEw(nbytes);
      var k := LastFit(f, n, |f|);
      if k < |f| then Some((End(f[k]) - 4, CutHigh(f, k, n))) else None
  }

  /** A stack is cut from the top of the last block that is large enough, and from nothing
      else; there is none exactly when no block is. */
  lemma GetStkServes(f: seq<Block>, nbytes: int, x: int)
    requires Canonical(f) && 0 < nbytes <= WORDS32 - 4
    ensures GetStk(f, nbytes).None? <==> forall k :: 0 <= k < |f| ==> f[k].len < RoundEw(nbytes)
    ensures GetStk(f, nbytes).Some? ==>
      var (p, g) := GetStk(f, nbytes).value;
      var c := Block(p + 4 - RoundEw(nbytes), RoundEw(nbytes));
      && Canonical(g) && nbytes <= c.len
      && (exists k :: 0 <= k < |f| && LastThatFits(f, RoundEw(nbytes), k) && End(f[k]) == End(c))
      && (In(c, x) ==> Covers(f, x))
      && (Covers(g, x) <==> Covers(f, x) && !In(c, x))
  {
    var n := RoundEw(nbytes);
    var k := LastFit(f, n, |f|);
    assert nbytes <= n < nbytes + 4;
    if k < |f| {
      var c := Block(End(f[k]) - n, n);
      assert CutLow(f, k, n) == CutHigh(f, k, n) || f[k].len != n;
      Cut(f, CutHigh(f, k, n), k, c, x);
      assert LastThatFits(f, n, k);
    }
  }

  /** Block k has at least n bytes, and no later one has. */
  predicate LastThatFits(f: seq<Block>, n: int, k: int)
    requires 0 <= k < |f|
  {
    f[k].len >= n && forall j :: k < j < |f| ==> f[j].len < n
  }

  // ---------------------------------------------------------------------------- release

  /** The number of blocks that start below address b, counted from k. */
  function Below(f: seq<Block>, b: int, k: nat): (r: nat)
    requires k <= |f|
    ensures k <= r <= |f|
    ensures r < |f| ==> f[r].addr >= b
    ensures forall j :: k <= j < r ==> f[j].addr < b
    decreases |f| - k
  {
    if k == |f| || f[k].addr >= b then k else Below(f, b, k + 1)
  }

  /** The block joined to the one before it, or put in its place in the list. */
  function JoinLow(f: seq<Block>, k: nat, c: Block): seq<Block>
    requires k <= |f|
  {
    if k > 0 && End(f[k - 1]) == c.addr then f[k - 1 := Block(f[k - 1].addr, f[k - 1].len + c.len)]
    else f[..k] + [c] + f[k..]
  }

  /** Block k joined to the one after it if they touch. */
  function JoinHigh(f: seq<Block>, k: nat): seq<Block>
    requires k < |f|
  {
    if k + 1 < |f| && End(f[k]) == f[k + 1].addr then
      f[..k] + [Block(f[k].addr, f[k].len + f[k + 1].len)] + f[k + 2..]
    else f
  }

  /** The end of `vfreemem` and `freemem`, for the rounded block c; None is SYSERR. */
  function Give(f: seq<Block>, c: Block): Option<seq<Block>> {
    var k := Below(f, c.addr, 0);
    if (k > 0 && End(f[k - 1]) > c.addr) || (k < |f| && End(c) > f[k].addr) then None
    else
      var cur := if k > 0 && End(f[k - 1]) == c.addr then k - 1 else k;
      Some(JoinHigh(JoinLow(f, k, c), cur))
  }

  /** A release is refused exactly when some byte of the block is free already. */
  lemma GiveRefuses(f: seq<Block>, c: Block)
    requires Canonical(f) && c.len > 0
    ensures Give(f, c).None? <==> exists x :: In(c, x) && Covers(f, x)
  {
    var k := Below(f, c.addr, 0);
    if k > 0 && End(f[k - 1]) > c.addr {
      assert In(f[k - 1], c.addr) && In(c, c.addr);
    } else if k < |f| && End(c) > f[k].addr {
      assert In(f[k], f[k].addr) && In(c, f[k].addr);
    } else {
      forall x | Covers(f, x)
        ensures !In(c, x)
      {
        var j :| 0 <= j < |f| && In(f[j], x);
        assert j < k ==> End(f[j]) <= End(f[k - 1]);
      }
    }
  }

  /** Blocks in order that may touch. */
  ghost predicate Loose(f: seq<Block>) {
    && (forall k :: 0 <= k < |f| ==> f[k].len > 0)
    && (forall j, k :: 0 <= j < k < |f| ==> End(f[j]) <= f[k].addr)
  }

  /** Only block k may touch the one after it. */
  ghost predicate LooseAt(f: seq<Block>, k: int) {
    Loose(f) && forall j, i :: 0 <= j < i < |f| && (j != k || i != k + 1) ==> End(f[j]) < f[i].addr
  }

  lemma InsertedOrder(f: seq<Block>, g: seq<Block>, k: nat, c: Block)
    requires Canonical(f) && k <= |f| && c.len > 0
    requires forall j :: 0 <= j < k ==> End(f[j]) < c.addr
    requires forall j :: k <= j < |f| ==> End(c) <= f[j].addr
    requires |g| == |f| + 1 && forall j {:trigger g[j]} :: 0 <= j < |g| ==> g[j] == if j < k then f[j] else if j == k then c else f[j - 1]
    ensures LooseAt(g, k)
  {
    forall j, i | 0 <= j < i < |g|
      ensures End(g[j]) <= g[i].addr && (j != k || i != k + 1 ==> End(g[j]) < g[i].addr)
    {
      if j == k && i > k + 1 {
        assert End(c) <= f[k].addr && End(f[k]) < f[i - 1].addr;
      }
    }
  }

  lemma Inserted(f: seq<Block>, k: nat, c: Block, x: int)
    requires Canonical(f) && k <= |f| && c.len > 0
    requires forall j :: 0 <= j < k ==> End(f[j]) < c.addr
    requires forall j :: k <= j < |f| ==> End(c) <= f[j].addr
    ensures var g := f[..k] + [c] + f[k..]; LooseAt(g, k) && (Covers(g, x) <==> Covers(f, x) || In(c, x))
  {
    hide Canonical, Covers, LooseAt;
    var g := f[..k] + [c] + f[k..];
    InsertedOrder(f, g, k, c);
    if Covers(g, x) {
      var j := Find(g, x);
      if j != k { Found(f, if j < k then j else j - 1, x); }
    }
    if Covers(f, x) {
      var j := Find(f, x);
      Found(g, if j < k then j else j + 1, x);
    }
    if In(c, x) { Found(g, k, x); }
  }

  lemma Lengthened(f: seq<Block>, k: nat, c: Block, x: int)
    requires Canonical(f) && k < |f| && c.len > 0 && End(f[k]) == c.addr
    requires forall j :: k < j < |f| ==> End(c) <= f[j].addr
    ensures
      var g := f[k := Block(f[k].addr, f[k].len + c.len)];
      LooseAt(g, k) && (Covers(g, x) <==> Covers(f, x) || In(c, x))
  {
    var g := f[k := Block(f[k].addr, f[k].len + c.len)];
    if Covers(g, x) {
      var j := Find(g, x);
      if j != k || !In(c, x) { Found(f, j, x); }
    }
    if Covers(f, x) {
      var j := Find(f, x);
      Found(g, j, x);
    }
    if In(c, x) { Found(g, k, x); }
    assert k + 1 < |f| ==> forall j :: k + 1 < j < |f| ==> End(f[k + 1]) < f[j].addr;
  }

  lemma JoinedOrder(g: seq<Block>, h: seq<Block>, k: nat)
    requires k + 1 < |g| && LooseAt(g, k) && End(g[k]) == g[k + 1].addr
    requires |h| == |g| - 1
    requires forall j {:trigger h[j]} :: 0 <= j < |h| ==>
      h[j] == if j < k then g[j] else if j == k then Block(g[k].addr, g[k].len + g[k + 1].len) else g[j + 1]
    ensures Canonical(h)
  {
    forall j, i | 0 <= j < i < |h|
      ensures End(h[j]) < h[i].addr
    {
      if j == k { assert End(g[k + 1]) < g[i + 1].addr; }
    }
  }

  lemma Joined(g: seq<Block>, k: nat, x: int)
    requires k < |g| && LooseAt(g, k)
    ensures Canonical(JoinHigh(g, k)) && (Covers(JoinHigh(g, k), x) <==> Covers(g, x))
  {
    var h := JoinHigh(g, k);
    if k + 1 < |g| && End(g[k]) == g[k + 1].addr {
      JoinedOrder(g, h, k);
      JoinedCovers(g, h, k, x);
    } else {
      assert k + 1 < |g| ==> End(g[k]) < g[k + 1].addr;
    }
  }

  lemma JoinedCovers(g: seq<Block>, h: seq<Block>, k: nat, x: int)
    requires k + 1 < |g| && End(g[k]) == g[k + 1].addr && g[k].len > 0 && g[k + 1].len > 0
    requires |h| == |g| - 1
    requires forall j {:trigger h[j]} :: 0 <= j < |h| ==>
      h[j] == if j < k then g[j] else if j == k then Block(g[k].addr, g[k].len + g[k + 1].len) else g[j + 1]
    ensures Covers(h, x) <==> Covers(g, x)
  {
    hide Covers;
    if Covers(g, x) {
      var j := Find(g, x);
      Found(h, if j <= k then j else j - 1, x);
    }
    if Covers(h, x) {
      var j := Find(h, x);
      Found(g, if j < k then j else if j > k then j + 1 else if In(g[k], x) then k else k + 1, x);
    }
  }

  /** A release that is accepted makes exactly the bytes of the block free, and the list
      stays canonical: it is joined on both sides. */
  lemma GiveFrees(f: seq<Block>, c: Block, x: int)
    requires Canonical(f) && c.len > 0 && Give(f, c).Some?
    ensures Canonical(Give(f, c).value)
    ensures Covers(Give(f, c).value, x) <==> Covers(f, x) || In(c, x)
  {
    hide Covers, LooseAt, JoinHigh;
    var k := Below(f, c.addr, 0);
    assert forall j :: 0 <= j < k ==> End(f[j]) <= End(f[k - 1]);
    if k > 0 && End(f[k - 1]) == c.addr {
      Lengthened(f, k - 1, c, x);
      Joined(JoinLow(f, k, c), k - 1, x);
    } else {
      Inserted(f, k, c, x);
      Joined(JoinLow(f, k, c), k, x);
    }
  }

  /** Releasing what was allocated gives back the list that was there, whatever it was. */
  lemma GiveAfterGet(f: seq<Block>, nbytes: int)
    requires Canonical(f) && 0 < nbytes <= WORDS32 - 8 && Get(f, nbytes).Some?
    ensures
      var (a, g) := Get(f, nbytes).value;
      Give(g, Block(a, RoundMb(nbytes))) == Some(f)
  {
    var (a, g) := Get(f, nbytes).value;
    var c := Block(a, RoundMb(nbytes));
    RoundMbUp(nbytes);
    GetServes(f, nbytes, 0);
    forall x
      ensures Covers(g, x) <==> Covers(f, x) && !In(c, x)
      ensures In(c, x) ==> Covers(f, x)
    {
      GetServes(f, nbytes, x);
    }
    GiveRefuses(g, c);
    var h := Give(g, c).value;
    forall x
      ensures Covers(h, x) <==> Covers(f, x)
    {
      GiveFrees(g, c, x);
    }
    GiveFrees(g, c, 0);
    CanonicalUnique(f, h);
  }

  /** The block that `freestk` passes to `freemem` for a stack with top word p. */
  function StackBlock(p: int, len: int): Block
    requires 0 <= len < WORDS32
  {
    Block(p - RoundMb(len) + 4, RoundMb(len))
  }

  lemma RoundEwUp(x: int)
    requires 0 < x <= WORDS32 - 8
    ensures RoundEw(x) % 4 == 0 && x <= RoundEw(x) < x + 4 && RoundEw(x) <= WORDS32 - 8
  {
  }

  lemma RoundMbOf(q: int, r: int)
    requires (r == 0 || r == 4) && 0 <= 8 * q + r <= WORDS32 - 8
    ensures RoundMb(8 * q + r) == if r == 0 then 8 * q else 8 * q + 8
  {
    assert (8 * q + r + 7) / 8 == if r == 0 then q else q + 1;
  }

  lemma RoundMbWords(n: int)
    requires 0 <= n <= WORDS32 - 8 && n % 4 == 0
    ensures RoundMb(n) == if n % 8 == 0 then n else n + 4
  {
    hide RoundMb;
    var q, r := n / 8, n % 8;
    assert n == 8 * q + r && (r == 0 || r == 4);
    RoundMbOf(q, r);
  }

  /** freestk names the bytes that getstk took exactly when the stack size, which getstk
      rounds to words, is a multiple of eight; otherwise it starts four bytes too low. */
  lemma StackBlockRight(p: int, nbytes: int)
    requires 0 < nbytes <= WORDS32 - 8
    ensures StackBlock(p, RoundEw(nbytes)) == Block(p + 4 - RoundEw(nbytes), RoundEw(nbytes)) <==> RoundEw(nbytes) % 8 == 0
    ensures RoundEw(nbytes) % 8 != 0 ==> StackBlock(p, RoundEw(nbytes)).addr == p - RoundEw(nbytes)
  {
    hide RoundMb, RoundEw;
    var n := RoundEw(nbytes);
    RoundEwUp(nbytes);
    RoundMbWords(n);
  }
}
