/** The backing-store map of paging/bsm.c: which virtual range of which process is
    backed by which store, with the lookup, map and unmap operations as functions on
    the table. */
module BackingStore {
  import opened Machine

  /** Where a lookup ends: the store, and the position of the mapping in its list. */
  datatype Hit = Hit(store: int, pos: int)

  predicate Covers(mp: Mapping, p: int, v: int) {
    mp.pid == p && mp.vpno <= v < mp.vpno + mp.npages
  }

  /** The first mapping from position k on that covers the page; the list's length if none. */
  function FindIn(maps: seq<Mapping>, p: int, v: int, k: nat): (r: nat)
    requires k <= |maps|
    ensures k <= r <= |maps|
    ensures r < |maps| ==> Covers(maps[r], p, v)
    ensures forall j {:trigger maps[j]} :: k <= j < r ==> !Covers(maps[j], p, v)
    decreases |maps| - k
  {
    if k == |maps| || Covers(maps[k], p, v) then k else FindIn(maps, p, v, k + 1)
  }

  function LookupFrom(bsm: StoreMap, p: int, v: int, b: int): (r: Option<Hit>)
    requires 0 <= b <= MAX_NUM_BS
    ensures r.Some? ==> IsMap(bsm, r.value.store, r.value.pos)
    ensures r.Some? ==> Covers(bsm[r.value.store].maps[r.value.pos], p, v)
    ensures r.None? ==>
      forall c, k {:trigger IsMap(bsm, c, k)} :: b <= c && IsMap(bsm, c, k) ==> !Covers(bsm[c].maps[k], p, v)
    decreases MAX_NUM_BS - b
  {
    if b == MAX_NUM_BS then None
    else
      var k := FindIn(bsm[b].maps, p, v, 0);
      if bsm[b].mapped && k < |bsm[b].maps| then Some(Hit(b, k)) else LookupFrom(bsm, p, v, b + 1)
  }

  /** `bsm_lookup`: the first store, in index order, with a mapping that covers the page. */
  function Lookup(bsm: StoreMap, p: int, v: int): (r: Option<Hit>) {
    LookupFrom(bsm, p, v, 0)
  }

  /** A live position in the map. */
  predicate IsMap(bsm: StoreMap, b: int, k: int) {
    0 <= b < MAX_NUM_BS && bsm[b].mapped && 0 <= k < |bsm[b].maps|
  }

  predicate Apart(m1: Mapping, m2: Mapping) {
    m1.vpno + m1.npages <= m2.vpno || m2.vpno + m2.npages <= m1.vpno
  }

  /** One entry: an unmapped store is blank, a mapped one has a size of 1 to 256 pages
      and every mapping on its list fits it; a private store has exactly one mapping. */
  predicate StoreOk(st: Store) {
    if !st.mapped then st == FREE_STORE
    else
      && 1 <= st.npages <= MAX_BS_PAGES
      && |st.maps| >= 1
      && (st.priv ==> |st.maps| == 1)
      && forall k :: 0 <= k < |st.maps| ==>
        1 <= st.maps[k].npages <= st.npages && MIN_VPNO <= st.maps[k].vpno <= MAX_VPNO
  }

  /** Two mappings of one process lie in different stores and cover disjoint ranges. */
  predicate PairOk(bsm: StoreMap, b: int, k: int, b2: int, k2: int)
    requires IsMap(bsm, b, k) && IsMap(bsm, b2, k2)
  {
    var m1, m2 := bsm[b].maps[k], bsm[b2].maps[k2];
    (b, k) != (b2, k2) && m1.pid == m2.pid ==> b != b2 && Apart(m1, m2)
  }

  ghost predicate PairsOk(bsm: StoreMap) {
    forall b, k, b2, k2 {:trigger IsMap(bsm, b, k), IsMap(bsm, b2, k2)} ::
      IsMap(bsm, b, k) && IsMap(bsm, b2, k2) ==> PairOk(bsm, b, k, b2, k2)
  }

  ghost predicate MapOk(bsm: StoreMap) {
    && (forall b :: 0 <= b < MAX_NUM_BS ==> StoreOk(bsm[b]))
    && PairsOk(bsm)
  }

  /** The slot of the flat memory behind a page that a lookup finds. */
  function SlotOf(bsm: StoreMap, p: int, v: int): int
    requires Lookup(bsm, p, v).Some?
  {
    var h := Lookup(bsm, p, v).value;
    Slot(h.store, v - bsm[h.store].maps[h.pos].vpno)
  }

  // ------------------------------------------------------------------------ properties

  lemma LookupCovers(bsm: StoreMap, p: int, v: int)
    requires Lookup(bsm, p, v).Some?
    ensures var h := Lookup(bsm, p, v).value; IsMap(bsm, h.store, h.pos) && Covers(bsm[h.store].maps[h.pos], p, v)
  {
  }

  /** bsm_lookup finds the one mapping that covers the page, wherever it stands. */
  lemma LookupIsUnique(bsm: StoreMap, p: int, v: int, b: int, k: int)
    requires PairsOk(bsm) && IsMap(bsm, b, k)
    ensures Covers(bsm[b].maps[k], p, v) <==> Lookup(bsm, p, v) == Some(Hit(b, k))
  {
    var r := LookupFrom(bsm, p, v, 0);
    if Covers(bsm[b].maps[k], p, v) {
      assert r.Some?;
      var h := r.value;
      assert PairOk(bsm, b, k, h.store, h.pos);
    }
  }

  /** A slot lies in the stores, and belongs to the store the lookup found. */
  lemma SlotBounds(bsm: StoreMap, p: int, v: int)
    requires MapOk(bsm) && Lookup(bsm, p, v).Some?
    ensures 0 <= SlotOf(bsm, p, v) < NSLOTS
    ensures SlotOf(bsm, p, v) / MAX_BS_PAGES == Lookup(bsm, p, v).value.store
    ensures FRAME0 + NFRAMES <= SlotPage(SlotOf(bsm, p, v)) < NPAGES
  {
    var h := Lookup(bsm, p, v).value;
    assert StoreOk(bsm[h.store]);
  }

  /** One process sees a slot at one virtual page only. */
  lemma SlotInjective(bsm: StoreMap, p: int, v: int, w: int)
    requires MapOk(bsm) && Lookup(bsm, p, v).Some? && Lookup(bsm, p, w).Some?
    requires SlotOf(bsm, p, v) == SlotOf(bsm, p, w)
    ensures v == w
  {
    SlotBounds(bsm, p, v);
    SlotBounds(bsm, p, w);
    var h := Lookup(bsm, p, v).value;
    var h2 := Lookup(bsm, p, w).value;
    assert IsMap(bsm, h.store, h.pos) && IsMap(bsm, h2.store, h2.pos);
  }

  // ------------------------------------------------------------------------ operations

  /** `bsm_map`: validity checks, then the store is opened with the requested size or,
      if it is already open, the request must fit it; the mapping goes to the list's end. */
  function Map(bsm: StoreMap, p: int, v: int, b: int, n: int): (r: Option<StoreMap>) {
    if b < 0 || b >= MAX_NUM_BS || n <= 0 || n > MAX_BS_PAGES || v < MIN_VPNO || v > MAX_VPNO then None
    else if !bsm[b].mapped then
      Some(bsm[b := bsm[b].(mapped := true, npages := n, maps := bsm[b].maps + [Mapping(p, v, n)])])
    else if n > bsm[b].npages then None
    else Some(bsm[b := bsm[b].(maps := bsm[b].maps + [Mapping(p, v, n)])])
  }

  /** What the code leaves to its callers: the process has no mapping in this store yet,
      the new range meets none of its others, and a private store is not extended. */
  ghost predicate MapAllowed(bsm: StoreMap, p: int, v: int, b: int, n: int) {
    && (0 <= b < MAX_NUM_BS ==> !bsm[b].priv)
    && forall c, k {:trigger IsMap(bsm, c, k)} :: IsMap(bsm, c, k) && bsm[c].maps[k].pid == p ==>
      c != b && Apart(bsm[c].maps[k], Mapping(p, v, n))
  }

  /** `delete_list_node` and the reset of a store whose list has become empty. */
  function Unmap(bsm: StoreMap, h: Hit): (r: StoreMap)
    requires IsMap(bsm, h.store, h.pos)
  {
    var st := bsm[h.store];
    var maps := st.maps[..h.pos] + st.maps[h.pos + 1..];
    bsm[h.store := if maps == [] then FREE_STORE else st.(maps := maps)]
  }

  lemma MapKeepsOk(bsm: StoreMap, p: int, v: int, b: int, n: int)
    requires MapOk(bsm) && MapAllowed(bsm, p, v, b, n) && Map(bsm, p, v, b, n).Some?
    ensures MapOk(Map(bsm, p, v, b, n).value)
  {
    var bsm2 := Map(bsm, p, v, b, n).value;
    assert StoreOk(bsm[b]);
    assert StoreOk(bsm2[b]);
    var last := |bsm[b].maps|;
    forall c, k, c2, k2 | IsMap(bsm2, c, k) && IsMap(bsm2, c2, k2)
      ensures PairOk(bsm2, c, k, c2, k2)
    {
      assert (c, k) == (b, last) || IsMap(bsm, c, k);
      assert (c2, k2) == (b, last) || IsMap(bsm, c2, k2);
    }
  }

  /** After a map exactly the pages of the new range are added to what a lookup finds,
      and every page found before is found at the same slot. */
  lemma MapLookup(bsm: StoreMap, p: int, v: int, b: int, n: int, q: int, w: int)
    requires MapOk(bsm) && MapAllowed(bsm, p, v, b, n) && Map(bsm, p, v, b, n).Some?
    ensures
      var bsm2 := Map(bsm, p, v, b, n).value;
      if q == p && v <= w < v + n then
        Lookup(bsm, q, w).None? && Lookup(bsm2, q, w).Some? && SlotOf(bsm2, q, w) == Slot(b, w - v)
      else
        Lookup(bsm2, q, w) == Lookup(bsm, q, w)
        && (Lookup(bsm, q, w).Some? ==> SlotOf(bsm2, q, w) == SlotOf(bsm, q, w))
  {
    hide PairsOk, Lookup;
    var bsm2 := Map(bsm, p, v, b, n).value;
    MapKeepsOk(bsm, p, v, b, n);
    assert StoreOk(bsm[b]);
    var last := |bsm[b].maps|;
    assert IsMap(bsm2, b, last);
    LookupIsUnique(bsm2, q, w, b, last);
    var r, r2 := Lookup(bsm, q, w), Lookup(bsm2, q, w);
    if r.Some? {
      LookupCovers(bsm, q, w);
      assert IsMap(bsm2, r.value.store, r.value.pos);
      LookupIsUnique(bsm2, q, w, r.value.store, r.value.pos);
    }
    if r2.Some? {
      LookupCovers(bsm2, q, w);
      if IsMap(bsm, r2.value.store, r2.value.pos) { LookupIsUnique(bsm, q, w, r2.value.store, r2.value.pos); }
    }
  }

  /** Position before the deletion of the mapping at position k of store b after it. */
  function Before(h: Hit, b: int, k: int): int {
    if b == h.store && k >= h.pos then k + 1 else k
  }

  lemma UnmapPositions(bsm: StoreMap, h: Hit, b: int, k: int)
    requires IsMap(bsm, h.store, h.pos) && StoreOk(bsm[h.store])
    ensures
      var bsm2 := Unmap(bsm, h);
      IsMap(bsm2, b, k) <==> IsMap(bsm, b, Before(h, b, k)) && 0 <= k
    ensures
      var bsm2 := Unmap(bsm, h);
      IsMap(bsm2, b, k) ==> bsm2[b].maps[k] == bsm[b].maps[Before(h, b, k)]
  {
  }

  lemma UnmapKeepsOk(bsm: StoreMap, h: Hit)
    requires MapOk(bsm) && IsMap(bsm, h.store, h.pos)
    ensures MapOk(Unmap(bsm, h))
  {
    var bsm2 := Unmap(bsm, h);
    assert StoreOk(bsm[h.store]);
    assert StoreOk(bsm2[h.store]);
    forall b, k, b2, k2 | IsMap(bsm2, b, k) && IsMap(bsm2, b2, k2)
      ensures PairOk(bsm2, b, k, b2, k2)
    {
      UnmapPositions(bsm, h, b, k);
      UnmapPositions(bsm, h, b2, k2);
      assert PairOk(bsm, b, Before(h, b, k), b2, Before(h, b2, k2));
    }
  }

  /** Unmapping removes exactly the pages of that mapping from what a lookup finds. */
  lemma UnmapLookup(bsm: StoreMap, h: Hit, q: int, w: int)
    requires MapOk(bsm) && IsMap(bsm, h.store, h.pos)
    ensures
      var bsm2 := Unmap(bsm, h);
      if Covers(bsm[h.store].maps[h.pos], q, w) then
        Lookup(bsm2, q, w).None?
      else
        Lookup(bsm2, q, w).Some? == Lookup(bsm, q, w).Some?
        && (Lookup(bsm, q, w).Some? ==> SlotOf(bsm2, q, w) == SlotOf(bsm, q, w))
  {
    hide Lookup, PairsOk, Unmap;
    var bsm2 := Unmap(bsm, h);
    UnmapKeepsOk(bsm, h);
    assert StoreOk(bsm[h.store]);
    LookupIsUnique(bsm, q, w, h.store, h.pos);
    var r, r2 := Lookup(bsm, q, w), Lookup(bsm2, q, w);
    if r2.Some? {
      LookupCovers(bsm2, q, w);
      var k := Before(h, r2.value.store, r2.value.pos);
      UnmapPositions(bsm, h, r2.value.store, r2.value.pos);
      LookupIsUnique(bsm, q, w, r2.value.store, k);
    }
    if r.Some? { LookupCovers(bsm, q, w); }
    if r.Some? && r != Some(h) {
      var k := if r.value.store == h.store && r.value.pos > h.pos then r.value.pos - 1 else r.value.pos;
      UnmapPositions(bsm, h, r.value.store, k);
      LookupIsUnique(bsm2, q, w, r.value.store, k);
    }
  }

  /** Unmap undoes map: the lookup relation is what it was, and so is the whole table. */
  lemma UnmapAfterMap(bsm: StoreMap, p: int, v: int, b: int, n: int)
    requires MapOk(bsm) && MapAllowed(bsm, p, v, b, n) && Map(bsm, p, v, b, n).Some?
    ensures
      var bsm2 := Map(bsm, p, v, b, n).value;
      Lookup(bsm2, p, v).Some? && Unmap(bsm2, Lookup(bsm2, p, v).value) == bsm
  {
    var bsm2 := Map(bsm, p, v, b, n).value;
    MapKeepsOk(bsm, p, v, b, n);
    assert StoreOk(bsm[b]);
    var last := |bsm[b].maps|;
    assert IsMap(bsm2, b, last);
    LookupIsUnique(bsm2, p, v, b, last);
    assert bsm2[b].maps[..last] + bsm2[b].maps[last + 1..] == bsm[b].maps;
    assert Unmap(bsm2, Hit(b, last)) == bsm;
  }
}
