/** The allocators as they work in memory: a header, and in every free block the address of
    the next one and its own length. A header is an object of its own, as several lists may
    share one. */
module MemList {
  import opened Machine
  import opened FreeList

  const HEAD: int := -1    // the list header, a node of its own
  const NULL: int := 0

  /** The header's link, and the two words of the node at every address. */
  datatype Words = Words(first: int, mnext: map<int, int>, mlen: map<int, int>)

  /** The address of block k; the header before the first, null after the last. */
  ghost function NodeAt(f: seq<Block>, k: int): int {
    if k < 0 then HEAD else if k < |f| then f[k].addr else NULL
  }

  ghost predicate Holds(w: Words, f: seq<Block>, k: int)
    requires 0 <= k < |f|
  {
    && f[k].addr in w.mnext && w.mnext[f[k].addr] == NodeAt(f, k + 1)
    && f[k].addr in w.mlen && w.mlen[f[k].addr] == f[k].len
  }

  /** The words spell out the list. */
  ghost predicate Spells(w: Words, f: seq<Block>) {
    w.first == NodeAt(f, 0) && forall k {:trigger Holds(w, f, k)} :: 0 <= k < |f| ==> Holds(w, f, k)
  }

  ghost predicate Rising(f: seq<Block>) {
    && (forall k :: 0 <= k < |f| ==> f[k].addr > NULL)
    && (forall j, k :: 0 <= j < k < |f| ==> f[j].addr < f[k].addr)
  }

  function SetNext(w: Words, q: int, p: int): Words {
    if q == HEAD then w.(first := p) else w.(mnext := w.mnext[q := p])
  }

  function SetLen(w: Words, p: int, n: int): Words { w.(mlen := w.mlen[p := n]) }

  /** Linking the node before block k to the node after it drops the block. */
  lemma Unlinked(w: Words, f: seq<Block>, k: nat)
    requires Spells(w, f) && Rising(f) && k < |f|
    ensures Spells(SetNext(w, NodeAt(f, k - 1), NodeAt(f, k + 1)), f[..k] + f[k + 1..])
    ensures Rising(f[..k] + f[k + 1..])
  {
    var g := f[..k] + f[k + 1..];
    var w2 := SetNext(w, NodeAt(f, k - 1), NodeAt(f, k + 1));
    forall j | 0 <= j < |g|
      ensures Holds(w2, g, j)
    {
      assert Holds(w, f, if j < k then j else j + 1);
    }
  }

  /** A block that starts within block k, linked in its place. */
  lemma Replaced(w: Words, f: seq<Block>, k: nat, c: Block)
    requires Spells(w, f) && Rising(f) && k < |f| && f[k].addr <= c.addr && (k + 1 < |f| ==> c.addr < f[k + 1].addr)
    ensures
      var w2 := SetNext(SetNext(w, NodeAt(f, k - 1), c.addr), c.addr, NodeAt(f, k + 1));
      Spells(SetLen(w2, c.addr, c.len), f[k := c]) && Rising(f[k := c])
  {
    var g := f[k := c];
    var w2 := SetLen(SetNext(SetNext(w, NodeAt(f, k - 1), c.addr), c.addr, NodeAt(f, k + 1)), c.addr, c.len);
    forall j | 0 <= j < |g|
      ensures Holds(w2, g, j)
    {
      assert Holds(w, f, j);
      assert j > k ==> f[k + 1].addr <= f[j].addr;
    }
  }

  /** A block between block k - 1 and block k. */
  lemma Linked(w: Words, f: seq<Block>, k: nat, c: Block)
    requires Spells(w, f) && Rising(f) && k <= |f| && c.addr > NULL
    requires (forall j :: 0 <= j < k ==> f[j].addr < c.addr) && (forall j :: k <= j < |f| ==> c.addr < f[j].addr)
    ensures
      var w2 := SetNext(SetNext(SetLen(w, c.addr, c.len), c.addr, NodeAt(f, k)), NodeAt(f, k - 1), c.addr);
      Spells(w2, f[..k] + [c] + f[k..]) && Rising(f[..k] + [c] + f[k..])
  {
    var g := f[..k] + [c] + f[k..];
    var w2 := SetNext(SetNext(SetLen(w, c.addr, c.len), c.addr, NodeAt(f, k)), NodeAt(f, k - 1), c.addr);
    forall j | 0 <= j < |g|
      ensures Holds(w2, g, j)
    {
      if j < k { assert Holds(w, f, j); } else if j > k { assert Holds(w, f, j - 1); }
    }
  }

  /** A block with another length. */
  lemma Resized(w: Words, f: seq<Block>, k: nat, n: int)
    requires Spells(w, f) && Rising(f) && k < |f|
    ensures Spells(SetLen(w, f[k].addr, n), f[k := Block(f[k].addr, n)]) && Rising(f[k := Block(f[k].addr, n)])
  {
    var g := f[k := Block(f[k].addr, n)];
    var w2 := SetLen(w, f[k].addr, n);
    forall j | 0 <= j < |g|
      ensures Holds(w2, g, j)
    {
      assert Holds(w, f, j);
    }
  }

  /** A block grown over the next one. */
  lemma Absorbed(w: Words, f: seq<Block>, k: nat)
    requires Spells(w, f) && Rising(f) && k + 1 < |f|
    ensures
      var n := f[k].len + f[k + 1].len;
      Spells(SetNext(SetLen(w, f[k].addr, n), f[k].addr, NodeAt(f, k + 2)), f[..k] + [Block(f[k].addr, n)] + f[k + 2..])
  {
    var n := f[k].len + f[k + 1].len;
    Resized(w, f, k, n);
    var g := f[k := Block(f[k].addr, n)];
    Unlinked(SetLen(w, f[k].addr, n), g, k + 1);
    assert g[..k + 1] + g[k + 2..] == f[..k] + [Block(f[k].addr, n)] + f[k + 2..];
  }

  /** A list within memory. */
  ghost predicate Within(f: seq<Block>, low: int) {
    low > NULL && forall k :: 0 <= k < |f| ==> f[k].addr >= low && End(f[k]) < WORDS32
  }

  lemma WithinRises(f: seq<Block>, low: int)
    requires Canonical(f) && Within(f, low)
    ensures Rising(f)
  {
  }

  lemma RemovedWithin(f: seq<Block>, k: nat, low: int)
    requires Canonical(f) && Within(f, low) && k < |f|
    ensures var g := f[..k] + f[k + 1..]; Canonical(g) && Within(g, low)
  {
    Removed(f, k, 0);
    var g := f[..k] + f[k + 1..];
    forall j | 0 <= j < |g|
      ensures g[j].addr >= low && End(g[j]) < WORDS32
    {
      assert g[j] == f[if j < k then j else j + 1];
    }
  }

  lemma ShrunkWithin(f: seq<Block>, k: nat, c: Block, low: int)
    requires Canonical(f) && Within(f, low) && k < |f| && c.len > 0 && f[k].addr <= c.addr && End(c) <= End(f[k])
    ensures Canonical(f[k := c]) && Within(f[k := c], low)
  {
    Shrunk(f, k, c, 0);
  }

  lemma JoinLowWithin(f: seq<Block>, k: nat, c: Block, low: int)
    requires Within(f, low) && k <= |f| && c.len > 0 && c.addr >= low && End(c) < WORDS32
    ensures Within(JoinLow(f, k, c), low)
  {
    var g := JoinLow(f, k, c);
    forall j | 0 <= j < |g|
      ensures g[j].addr >= low && End(g[j]) < WORDS32
    {
      if |g| == |f| + 1 && j != k { assert g[j] == f[if j < k then j else j - 1]; }
    }
  }

  lemma JoinHighWithin(g: seq<Block>, k: nat, low: int)
    requires Within(g, low) && k < |g|
    ensures Within(JoinHigh(g, k), low)
  {
    var h := JoinHigh(g, k);
    forall j | 0 <= j < |h|
      ensures h[j].addr >= low && End(h[j]) < WORDS32
    {
      if |h| < |g| && j != k { assert h[j] == g[if j < k then j else j + 1]; }
    }
  }

  lemma PlaceRight(f: seq<Block>, c: Block)
    requires Canonical(f) && c.len > 0 && Give(f, c).Some?
    ensures var k := Below(f, c.addr, 0);
      (forall j :: 0 <= j < k ==> f[j].addr < c.addr) && (forall j :: k <= j < |f| ==> c.addr < f[j].addr)
  {
  }

  lemma NotNull(f: seq<Block>, low: int, k: nat)
    requires Within(f, low) && k <= |f| && NodeAt(f, k) == NULL
    ensures k == |f|
  {
  }

  /** Words of addresses that are not nodes of list g are the same. */
  ghost predicate Elsewhere(w: Words, w2: Words, g: seq<Block>) {
    forall x {:trigger NoNode(g, x)} :: NoNode(g, x) ==> SameAt(w, w2, x)
  }

  ghost predicate NoNode(g: seq<Block>, x: int) { forall k :: 0 <= k < |g| ==> g[k].addr != x }

  ghost predicate SameAt(w: Words, w2: Words, x: int) {
    && (x in w2.mnext <==> x in w.mnext) && (x in w.mnext && x in w2.mnext ==> w2.mnext[x] == w.mnext[x])
    && (x in w2.mlen <==> x in w.mlen) && (x in w.mlen && x in w2.mlen ==> w2.mlen[x] == w.mlen[x])
  }

  /** Of all nodes only those at a and b may have new words. */
  ghost predicate Only(w: Words, w2: Words, a: int, b: int) {
    forall x {:trigger SameAt(w, w2, x)} :: (x != a || a == HEAD) && (x != b || b == HEAD) ==> SameAt(w, w2, x)
  }

  lemma OnlyNodes(w: Words, w2: Words, a: int, b: int, g: seq<Block>)
    requires Only(w, w2, a, b) && (a == HEAD || !NoNode(g, a)) && (b == HEAD || !NoNode(g, b))
    ensures Elsewhere(w, w2, g)
  {
  }

  lemma OnlyBoth(w: Words, w1: Words, w2: Words, a: int, b: int)
    requires Only(w, w1, a, b) && Only(w1, w2, b, b)
    ensures Only(w, w2, a, b)
  {
    forall x | (x != a || a == HEAD) && (x != b || b == HEAD)
      ensures SameAt(w, w2, x)
    {
      assert SameAt(w, w1, x) && SameAt(w1, w2, x);
    }
  }

  lemma LenOnly(w: Words, p: int, n: int)
    requires p != HEAD && p in w.mnext && p in w.mlen
    ensures Only(w, SetLen(w, p, n), p, p)
  {
  }

  lemma NodeWords(w: Words, f: seq<Block>, k: nat)
    requires Spells(w, f) && k < |f|
    ensures f[k].addr in w.mnext && f[k].addr in w.mlen && w.mlen[f[k].addr] == f[k].len
  {
    assert Holds(w, f, k);
  }

  lemma Starts(f: seq<Block>, low: int, k: nat)
    requires Within(f, low) && k <= |f|
    ensures k > 0 ==> f[k - 1].addr != HEAD
  {
  }

  /** The nodes that a release writes to are nodes of the list it leaves. */
  lemma JoinedNodes(f: seq<Block>, k: nat, c: Block)
    requires k == Below(f, c.addr, 0) && Give(f, c).Some?
    ensures
      var g := Give(f, c).value;
      var j := if k > 0 && End(f[k - 1]) == c.addr then k - 1 else k;
      && |g| > j && g[j].addr == (if j < k then f[k - 1].addr else c.addr) && (k > 0 ==> g[k - 1].addr == f[k - 1].addr)
  {
  }

  /** Blocks begin and end at words. */
  ghost predicate InWords(f: seq<Block>) {
    forall k :: 0 <= k < |f| ==> f[k].addr % 4 == 0 && f[k].len % 4 == 0
  }

  /** The words after n has been stored at address t. */
  function Poked(w: Words, t: int, n: int): Words {
    w.(mnext := if t in w.mnext then w.mnext[t := n] else w.mnext,
       mlen := if t - 4 in w.mlen then w.mlen[t - 4 := n] else w.mlen)
  }

  lemma RoundEwWraps(x: int)
    requires 0 <= x < WORDS32
    ensures RoundEw(x) % 4 == 0 && RoundEw(x) >= 0 && (x > 0 ==> (RoundEw(x) == 0 <==> x > WORDS32 - 4))
  {
  }

  lemma NoneFits(f: seq<Block>, n: int)
    requires Canonical(f) && LastFit(f, n, |f|) == |f|
    ensures n == 0 ==> f == []
  {
  }

  /** The top word of the bytes taken from block k is a word of a node only if that block
      stays and has four or eight bytes. */
  lemma TopMisses(f: seq<Block>, k: nat, n: int, j: nat)
    requires Canonical(f) && InWords(f) && k < |f| && 0 <= n <= f[k].len && n % 4 == 0 && j < |CutHigh(f, k, n)|
    ensures
      var t, b := End(f[k]) - 4, CutHigh(f, k, n)[j];
      b.addr == t || b.addr == t - 4 ==> j == k && n < f[k].len && b.addr == f[k].addr && (f[k].len == 4 || f[k].len == 8)
  {
    if n == f[k].len {
      assert CutHigh(f, k, n)[j] == f[if j < k then j else j + 1];
    }
  }

  /** What storing the size there does to the list. */
  lemma PokeSpares(w: Words, f: seq<Block>, k: nat, n: int)
    requires Canonical(f) && InWords(f) && k < |f| && k == LastFit(f, n, |f|) && 0 <= n <= f[k].len && n % 4 == 0
    requires Spells(w, CutHigh(f, k, n))
    ensures Spells(Poked(w, End(f[k]) - 4, n), CutHigh(f, k, n)) <==> !(n == 0 && f[|f| - 1].len == 8)
  {
    var g, w2 := CutHigh(f, k, n), Poked(w, End(f[k]) - 4, n);
    assert n == 0 ==> k == |f| - 1;
    if n == 0 && f[k].len == 8 {
      assert Holds(w, g, k) && !Holds(w2, g, k);
    } else {
      forall j | 0 <= j < |g|
        ensures Holds(w2, g, j)
      {
        assert Holds(w, g, j);
        TopMisses(f, k, n, j);
      }
    }
  }

  /** The word that begins a list. */
  class Header {
    var first: int

    constructor (a: int)
      ensures first == a
    {
      first := a;
    }
  }

  class List {
    const low: int             // the end of the kernel image
    const high: Option<int>    // the top of memory, where the release checks it
    const hdr: Header
    var mnext: map<int, int>
    var mlen: map<int, int>
    ghost var free: seq<Block>

    ghost predicate Valid()
      reads this, hdr
    {
      Canonical(free) && Within(free, low) && Spells(W(), free)
    }

    ghost function W(): Words
      reads this, hdr
    {
      Words(hdr.first, mnext, mlen)
    }

    /** A list of one block, as vcreate and sysinit set it up: the header, whoever else may
        be using it, is made to point to the block. */
    constructor (lo: int, hi: Option<int>, h: Header, b: Block)
      requires 0 < lo <= b.addr && 0 < b.len && End(b) < WORDS32
      modifies h
      ensures Valid() && free == [b] && low == lo && high == hi && hdr == h && h.first == b.addr
    {
      low, high, hdr := lo, hi, h;
      mnext, mlen := map[b.addr := NULL], map[b.addr := b.len];
      free := [b];
      new;
      h.first := b.addr;
    }

    /** A list of two blocks, as sysinit leaves kernel memory on a machine with a hole. */
    constructor WithHole(lo: int, hi: Option<int>, h: Header, b: Block, c: Block)
      requires 0 < lo <= b.addr && 0 < b.len && End(b) < c.addr && 0 < c.len && End(c) < WORDS32
      modifies h
      ensures Valid() && free == [b, c] && low == lo && high == hi && hdr == h && h.first == b.addr
    {
      low, high, hdr := lo, hi, h;
      mnext, mlen := map[b.addr := c.addr, c.addr := NULL], map[b.addr := b.len, c.addr := c.len];
      free := [b, c];
      new;
      h.first := b.addr;
    }

    /** The link out of a node, or out of the header. */
    method SetLink(q: int, p: int)
      modifies this`mnext, hdr
      ensures W() == SetNext(old(W()), q, p)
    {
      if q == HEAD {
        hdr.first := p;
      } else {
        mnext := mnext[q := p];
      }
    }

    /** Block k leaves the list. */
    method Unlink(q: int, p: int, ghost k: nat)
      requires Valid() && k < |free| && q == NodeAt(free, k - 1) && p == free[k].addr
      modifies this, hdr
      ensures Valid() && free == old(free[..k] + free[k + 1..]) && Elsewhere(old(W()), W(), free)
    {
      WithinRises(free, low);
      assert Holds(W(), free, k);
      Unlinked(W(), free, k);
      RemovedWithin(free, k, low);
      ghost var w := W();
      SetLink(q, mnext[p]);
      free := free[..k] + free[k + 1..];
      assert k > 0 ==> free[k - 1].addr == q;
      OnlyNodes(w, W(), q, q, free);
    }

    /** The first n bytes of block k leave the list. */
    method Split(q: int, p: int, n: int, ghost k: nat)
      requires Valid() && k < |free| && q == NodeAt(free, k - 1) && p == free[k].addr && 0 <= n < free[k].len
      modifies this, hdr
      ensures Valid() && free == old(free[k := Block(free[k].addr + n, free[k].len - n)])
      ensures Elsewhere(old(W()), W(), free)
    {
      WithinRises(free, low);
      assert Holds(W(), free, k);
      var leftover, next, len := p + n, mnext[p], mlen[p];
      ghost var c := Block(leftover, len - n);
      Replaced(W(), free, k, c);
      ShrunkWithin(free, k, c, low);
      ghost var w := W();
      SetLink(q, leftover);
      SetLink(leftover, next);
      mlen := mlen[leftover := len - n];
      free := free[k := c];
      assert (k > 0 ==> free[k - 1].addr == q) && free[k].addr == leftover;
      OnlyNodes(w, W(), q, leftover, free);
    }

    /** `vgetmem` and `getmem`: the first block that fits, whole or its low end. */
    method Getmem(nbytes: int) returns (r: Option<int>)
      requires Valid() && 0 <= nbytes < WORDS32
      modifies this, hdr
      ensures Valid() && Elsewhere(old(W()), W(), free)
      ensures match Get(old(free), nbytes)
        case None => r == None && free == old(free)
        case Some((a, g)) => r == Some(a) && free == g
    {
      hide Canonical;
      if nbytes == 0 || hdr.first == NULL {
        if hdr.first == NULL { NotNull(free, low, 0); }
        return None;
      }
      var n := RoundMb(nbytes);
      var q, p := HEAD, hdr.first;
      ghost var k := 0;
      while p != NULL
        invariant 0 <= k <= |free| && p == NodeAt(free, k) && q == NodeAt(free, k - 1)
        invariant FirstFit(free, n, 0) == FirstFit(free, n, k)
        decreases |free| - k
      {
        assert Holds(W(), free, k);
        if mlen[p] == n {
          Unlink(q, p, k);
          return Some(p);
        } else if mlen[p] > n {
          Split(q, p, n, k);
          return Some(p);
        }
        q, p := p, mnext[p];
        k := k + 1;
      }
      NotNull(free, low, k);
      return None;
    }

    /** The last n bytes of block k leave the list. */
    method TakeTop(q: int, p: int, n: int, ghost k: nat) returns (top: int)
      requires Valid() && k < |free| && q == NodeAt(free, k - 1) && p == free[k].addr && 0 <= n <= free[k].len
      modifies this, hdr
      ensures Valid() && free == CutHigh(old(free), k, n) && top == End(old(free)[k]) - 4
    {
      assert Holds(W(), free, k);
      var len := mlen[p];
      if n == len {
        Unlink(q, p, k);
      } else {
        WithinRises(free, low);
        Resized(W(), free, k, len - n);
        ShrunkWithin(free, k, Block(p, len - n), low);
        mlen := mlen[p := len - n];
        free := free[k := Block(p, len - n)];
      }
      return p + len - 4;
    }

    /** A word is stored at an address; it may be one of the two of a node. */
    method Poke(t: int, n: int)
      modifies this`mnext, this`mlen
      ensures W() == Poked(old(W()), t, n)
    {
      if t in mnext { mnext := mnext[t := n]; }
      if t - 4 in mlen { mlen := mlen[t - 4 := n]; }
    }

    /** `getstk`: the high end of the last block that fits; the address of its top word, in
        which the size is stored. A list of whole words survives exactly unless the size wraps to zero and
        the last block has eight bytes: then the stored word is that block's length. */
    method Getstk(nbytes: int) returns (r: Option<int>)
      requires Valid() && 0 <= nbytes < WORDS32
      modifies this, hdr
      ensures match GetStk(old(free), nbytes)
        case None => r == None && free == old(free)
        case Some((a, g)) => r == Some(a) && free == g
      ensures InWords(old(free)) ==>
        (Valid() <==> !(nbytes > WORDS32 - 4 && old(free) != [] && old(free)[|old(free)| - 1].len == 8))
    {
      hide Canonical;
      RoundEwWraps(nbytes);
      if nbytes == 0 {
        return None;
      }
      var n := RoundEw(nbytes);
      var fits, fitsq := NULL, HEAD;
      var q, p := HEAD, hdr.first;
      ghost var k, best := 0, |free|;
      while p != NULL
        invariant 0 <= k <= |free| && p == NodeAt(free, k) && q == NodeAt(free, k - 1)
        invariant best == LastFit(free, n, k)
        invariant fits == NodeAt(free, best) && (best < |free| ==> fitsq == NodeAt(free, best - 1))
        decreases |free| - k
      {
        assert Holds(W(), free, k);
        if mlen[p] >= n {
          fitsq, fits, best := q, p, k;
        }
        q, p := p, mnext[p];
        k := k + 1;
      }
      NotNull(free, low, k);
      if fits == NULL {
        NotNull(free, low, best);
        NoneFits(free, n);
        return None;
      }
      ghost var f := free;
      var top := TakeTop(fitsq, fits, n, best);
      if InWords(f) { PokeSpares(W(), f, best, n); }
      Poke(top, n);
      return Some(top);
    }

    /** The search of `vfreemem` and `freemem` for the place of an address. */
    method Place(block: int) returns (q: int, p: int, ghost k: nat)
      requires Valid()
      ensures k == Below(free, block, 0) && p == NodeAt(free, k) && q == NodeAt(free, k - 1)
    {
      hide Canonical;
      q, p, k := HEAD, hdr.first, 0;
      while p != NULL && p < block
        invariant 0 <= k <= |free| && p == NodeAt(free, k) && q == NodeAt(free, k - 1)
        invariant Below(free, block, 0) == Below(free, block, k)
        decreases |free| - k
      {
        assert Holds(W(), free, k);
        q, p := p, mnext[p];
        k := k + 1;
      }
      if p == NULL { NotNull(free, low, k); }
    }

    /** The block gets a node of its own. */
    method LinkIn(q: int, p: int, block: int, n: int, ghost k: nat)
      requires Spells(W(), free) && Rising(free) && k <= |free| && block > NULL
      requires p == NodeAt(free, k) && q == NodeAt(free, k - 1)
      requires (forall j :: 0 <= j < k ==> free[j].addr < block) && (forall j :: k <= j < |free| ==> block < free[j].addr)
      modifies this`mnext, this`mlen, hdr
      ensures var g := free[..k] + [Block(block, n)] + free[k..]; Spells(W(), g) && Rising(g)
      ensures Only(old(W()), W(), q, block)
    {
      hide Spells, Rising;
      Linked(W(), free, k, Block(block, n));
      mlen := mlen[block := n];
      SetLink(block, p);
      SetLink(q, block);
    }

    /** The block joins the one below it or gets a node of its own; the node it is in now. */
    method JoinBelow(q: int, p: int, block: int, n: int, ghost k: nat) returns (cur: int)
      requires Valid() && k == Below(free, block, 0) && p == NodeAt(free, k) && q == NodeAt(free, k - 1)
      requires n > 0 && block > NULL && Give(free, Block(block, n)).Some?
      modifies this`mnext, this`mlen, hdr
      ensures var g := JoinLow(free, k, Block(block, n)); Spells(W(), g) && Rising(g)
      ensures cur == if k > 0 && End(free[k - 1]) == block then free[k - 1].addr else block
      ensures Only(old(W()), W(), q, cur)
    {
      hide Canonical, Give, Within, Spells, Rising, Only, SameAt, Holds, Below;
      WithinRises(free, low);
      PlaceRight(free, Block(block, n));
      Starts(free, low, k);
      if k > 0 { NodeWords(W(), free, k - 1); }
      if q != HEAD && q + mlen[q] == block {
        Resized(W(), free, k - 1, mlen[q] + n);
        LenOnly(W(), q, mlen[q] + n);
        mlen := mlen[q := mlen[q] + n];
        return q;
      }
      LinkIn(q, p, block, n, k);
      return block;
    }

    /** The node at q joins the one above it if they touch. */
    method JoinAbove(q: int, p: int, ghost g: seq<Block>, ghost k: nat)
      requires k < |g| && Spells(W(), g) && Rising(g) && q == g[k].addr && p == NodeAt(g, k + 1) && g[k].len > 0
      modifies this`mnext, this`mlen, hdr
      ensures Spells(W(), JoinHigh(g, k)) && Only(old(W()), W(), q, q)
    {
      assert Holds(W(), g, k);
      if k + 1 < |g| { assert Holds(W(), g, k + 1); }
      if q + mlen[q] == p {
        Absorbed(W(), g, k);
        var next, len := mnext[p], mlen[q] + mlen[p];
        mlen := mlen[q := len];
        SetLink(q, next);
      }
    }

    /** The block goes into its place and joins its neighbours. */
    method Insert(q: int, p: int, block: int, n: int, ghost k: nat)
      requires Valid() && k == Below(free, block, 0) && p == NodeAt(free, k) && q == NodeAt(free, k - 1)
      requires n > 0 && block >= low && block + n < WORDS32 && Give(free, Block(block, n)).Some?
      modifies this, hdr
      ensures Valid() && free == Give(old(free), Block(block, n)).value && Elsewhere(old(W()), W(), free)
    {
      hide Canonical, Below, Spells;
      ghost var c, w := Block(block, n), W();
      GiveFrees(free, c, 0);
      var cur := JoinBelow(q, p, block, n, k);
      ghost var w1 := W();
      JoinLowWithin(free, k, c, low);
      ghost var j := if k > 0 && End(free[k - 1]) == block then k - 1 else k;
      JoinHighWithin(JoinLow(free, k, c), j, low);
      JoinAbove(cur, p, JoinLow(free, k, c), j);
      ghost var f := free;
      free := Give(free, c).value;
      JoinedNodes(f, k, c);
      assert free[j].addr == cur && (k > 0 ==> free[k - 1].addr == q);
      OnlyBoth(w, w1, W(), q, cur);
      OnlyNodes(w, W(), q, cur, free);
    }

    /** `vfreemem`, and `freemem` where there is an upper limit. A block handed to it lies
        below the top of the address space. */
    method Freemem(block: int, size: int) returns (ok: bool)
      requires Valid() && 0 <= size < WORDS32 && (low <= block ==> block + size <= WORDS32 - 8)
      modifies this, hdr
      ensures Valid() && Elsewhere(old(W()), W(), free)
      ensures
        var refused := size == 0 || (high.Some? && block > high.value) || block < low;
        var r := if refused then None else Give(old(free), Block(block, RoundMb(size)));
        ok == r.Some? && free == if ok then r.value else old(free)
    {
      hide Canonical;
      if size == 0 || (high.Some? && block > high.value) || block < low {
        return false;
      }
      var n := RoundMb(size);
      ghost var k;
      var q, p;
      q, p, k := Place(block);
      if k > 0 { assert Holds(W(), free, k - 1); }
      if (q != HEAD && q + mlen[q] > block) || (p != NULL && block + n > p) {
        return false;
      }
      Insert(q, p, block, n, k);
      return true;
    }
  }
}
