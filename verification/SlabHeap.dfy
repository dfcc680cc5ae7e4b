/**
  The whole slab allocator, rt-thread/kernel/src/slab.c: pages, the usage table, zones by size class,
  spare zones and large runs together.  Addresses are byte offsets from heap_start.
 */
module SlabHeap {
  import opened Wrappers
  import opened Queues
  import opened SlabPages
  import opened SlabZones

  /** ZONE_RELEASE_THRESH */
  const SPARES: nat := 2

  /** What pages in use are for: the usage table, a zone with chunks, a spare zone, a large run. */
  datatype Area = Table(pages: nat) | Chunked | Spare | Big(pages: nat)

  /** A block handed out: chunk k of the zone at page b, or the large run at page b. */
  datatype Block = Chunk(b: nat, k: nat) | Whole(b: nat)

  /**
    The state: pages in use and the area each is part of, areas by first page, the usage table, zone
    headers, zone_array and zone_free by first page, and the blocks handed out, by address.
   */
  datatype View = View(used: set<nat>, owner: map<nat, nat>, areas: map<nat, Area>, usage: map<nat, Usage>,
                       zones: map<nat, Zone>, chains: seq<seq<nat>>, spare: seq<nat>, live: map<nat, Block>)

  function Len(a: Area, zonePages: nat): nat {
    match a
    case Table(n) => n
    case Big(n) => n
    case _ => zonePages
  }

  // ----- Areas -----

  ghost predicate PageOk(owner: map<nat, nat>, areas: map<nat, Area>, zp: nat, p: nat)
    requires p in owner
  {
    owner[p] in areas && owner[p] <= p < owner[p] + Len(areas[owner[p]], zp)
  }

  ghost predicate PartOf(owner: map<nat, nat>, p: nat, b: nat) {
    p in owner && owner[p] == b
  }

  ghost predicate Owns(owner: map<nat, nat>, b: nat, n: nat) {
    n > 0 && forall p: nat {:trigger PartOf(owner, p, b)} :: b <= p < b + n ==> PartOf(owner, p, b)
  }

  /** Every page in use is part of one area, and areas do not meet. */
  ghost predicate AreasOk(v: View, zp: nat) {
    && v.owner.Keys == v.used
    && (forall p {:trigger PageOk(v.owner, v.areas, zp, p)} :: p in v.owner ==> PageOk(v.owner, v.areas, zp, p))
    && (forall b {:trigger Owns(v.owner, b, Len(v.areas[b], zp))} :: b in v.areas ==> Owns(v.owner, b, Len(v.areas[b], zp)))
  }

  /** Different areas have no page in common. */
  lemma AreasApart(v: View, zp: nat, b: nat, c: nat, p: nat)
    requires AreasOk(v, zp) && b in v.areas && c in v.areas
    requires b <= p < b + Len(v.areas[b], zp) && c <= p < c + Len(v.areas[c], zp)
    ensures b == c
  {
    assert Owns(v.owner, b, Len(v.areas[b], zp)) && Owns(v.owner, c, Len(v.areas[c], zp));
    assert PartOf(v.owner, p, b) && PartOf(v.owner, p, c);
  }

  lemma AreaUsed(v: View, zp: nat, b: nat)
    requires AreasOk(v, zp) && b in v.areas
    ensures Interval(b, Len(v.areas[b], zp)) <= v.used && b in v.used && Len(v.areas[b], zp) > 0
  {
    assert Owns(v.owner, b, Len(v.areas[b], zp));
    forall p | p in Interval(b, Len(v.areas[b], zp)) ensures p in v.used {
      assert PartOf(v.owner, p, b);
    }
    assert PartOf(v.owner, b, b);
  }

  ghost function Claim(owner: map<nat, nat>, b: nat, n: nat): map<nat, nat> {
    map p | p in owner.Keys + Interval(b, n) :: if b <= p < b + n then b else owner[p]
  }

  /** The pages b, ..., b + n - 1, free so far, become an area. */
  ghost function AddArea(v: View, b: nat, a: Area, zp: nat): View {
    v.(used := v.used + Interval(b, Len(a, zp)), owner := Claim(v.owner, b, Len(a, zp)), areas := v.areas[b := a])
  }

  lemma AddAreaOk(v: View, b: nat, a: Area, zp: nat)
    requires AreasOk(v, zp) && Len(a, zp) > 0 && Interval(b, Len(a, zp)) !! v.used
    ensures b !in v.areas && AreasOk(AddArea(v, b, a, zp), zp)
  {
    var n, v' := Len(a, zp), AddArea(v, b, a, zp);
    FreshArea(v, b, n, zp);
    forall p | p in v'.owner ensures PageOk(v'.owner, v'.areas, zp, p) {
      OwnerElsewhere(v, b, a, zp, p);
    }
    forall c | c in v'.areas ensures Owns(v'.owner, c, Len(v'.areas[c], zp)) {
      if c == b {
        assert forall p: nat {:trigger PartOf(v'.owner, p, b)} :: b <= p < b + n ==> PartOf(v'.owner, p, b);
      } else {
        OwnsElsewhere(v, b, n, zp, c);
      }
    }
  }

  lemma FreshArea(v: View, b: nat, n: nat, zp: nat)
    requires AreasOk(v, zp) && n > 0 && Interval(b, n) !! v.used
    ensures b !in v.areas
  {
    assert b in Interval(b, n);
    if b in v.areas {
      AreaUsed(v, zp, b);
    }
  }

  lemma OwnerElsewhere(v: View, b: nat, a: Area, zp: nat, p: nat)
    requires AreasOk(v, zp) && b !in v.areas && p in Claim(v.owner, b, Len(a, zp))
    ensures PageOk(Claim(v.owner, b, Len(a, zp)), v.areas[b := a], zp, p)
  {
    if !(b <= p < b + Len(a, zp)) {
      assert PageOk(v.owner, v.areas, zp, p);
    }
  }

  lemma OwnsElsewhere(v: View, b: nat, n: nat, zp: nat, c: nat)
    requires AreasOk(v, zp) && c in v.areas && Interval(b, n) !! v.used
    ensures Owns(Claim(v.owner, b, n), c, Len(v.areas[c], zp))
  {
    var owner' := Claim(v.owner, b, n);
    assert Owns(v.owner, c, Len(v.areas[c], zp));
    forall p: nat | c <= p < c + Len(v.areas[c], zp) ensures PartOf(owner', p, c) {
      assert PartOf(v.owner, p, c) && p !in Interval(b, n);
    }
  }

  /** An area is given back. */
  ghost function DropArea(v: View, b: nat, zp: nat): View
    requires b in v.areas
  {
    var n := Len(v.areas[b], zp);
    v.(used := v.used - Interval(b, n), owner := v.owner - Interval(b, n), areas := v.areas - {b})
  }

  lemma DropAreaOk(v: View, b: nat, zp: nat)
    requires AreasOk(v, zp) && b in v.areas
    ensures AreasOk(DropArea(v, b, zp), zp)
  {
    var n, v' := Len(v.areas[b], zp), DropArea(v, b, zp);
    forall p | p in v'.owner ensures PageOk(v'.owner, v'.areas, zp, p) {
      assert PageOk(v.owner, v.areas, zp, p) && p !in Interval(b, n);
    }
    forall c | c in v'.areas ensures Owns(v'.owner, c, Len(v'.areas[c], zp)) {
      assert Owns(v.owner, c, Len(v.areas[c], zp));
      forall p: nat | c <= p < c + Len(v.areas[c], zp) ensures PartOf(v'.owner, p, c) {
        assert PartOf(v.owner, p, c);
        if b <= p < b + n {
          AreasApart(v, zp, b, c, p);
        }
      }
    }
  }

  /** A zone gets chunks, or becomes spare. */
  lemma ChangeAreaOk(v: View, b: nat, a: Area, zp: nat)
    requires AreasOk(v, zp) && b in v.areas && Len(a, zp) == Len(v.areas[b], zp)
    ensures AreasOk(v.(areas := v.areas[b := a]), zp)
  {
    var v' := v.(areas := v.areas[b := a]);
    forall p | p in v'.owner ensures PageOk(v'.owner, v'.areas, zp, p) {
      assert PageOk(v.owner, v.areas, zp, p);
    }
    forall c | c in v'.areas ensures Owns(v'.owner, c, Len(v'.areas[c], zp)) {
      assert Owns(v.owner, c, Len(v.areas[c], zp));
    }
  }

  // ----- The usage table -----

  /** What the table says about the pages of an area. */
  ghost predicate Described(usage: map<nat, Usage>, b: nat, a: Area, zp: nat) {
    match a
    case Table(_) => true
    case Big(n) => b in usage && usage[b] == Large(n)
    case _ => Marked(usage, b, zp)
  }

  ghost predicate UsageOk(v: View, zp: nat) {
    forall b {:trigger v.areas[b]} :: b in v.areas ==> Described(v.usage, b, v.areas[b], zp)
  }

  /** Entries of pages that are not part of an area do not matter to it. */
  lemma DescribedElsewhere(v: View, usage': map<nat, Usage>, c: nat, zp: nat)
    requires AreasOk(v, zp) && c in v.areas && Described(v.usage, c, v.areas[c], zp)
    requires forall p: nat :: p in v.usage && PartOf(v.owner, p, c) ==> p in usage' && usage'[p] == v.usage[p]
    ensures Described(usage', c, v.areas[c], zp)
  {
    assert Owns(v.owner, c, Len(v.areas[c], zp));
    match v.areas[c]
    case Table(_) =>
    case Big(n) => assert PartOf(v.owner, c, c);
    case _ =>
      forall p | c <= p < c + zp ensures p in usage' && usage'[p] == Small(p - c) {
        assert PartOf(v.owner, p, c);
      }
  }

  // ----- Zones, chains and blocks -----

  ghost predicate KindsOk(v: View) {
    && (forall b {:trigger b in v.areas} :: b in v.areas ==>
          (v.areas[b].Chunked? <==> b in v.zones) && (v.areas[b].Spare? <==> b in v.spare))
    && (forall b {:trigger b in v.zones} :: b in v.zones ==> b in v.areas)
    && (forall b {:trigger b in v.spare} :: b in v.spare ==> b in v.areas)
    && NoDup(v.spare)
  }

  ghost predicate ZonesOk(zones: map<nat, Zone>, zp: nat) {
    forall b {:trigger zones[b]} :: b in zones ==> ZoneOk(zones[b], zp * PAGE)
  }

  /** zone_array[zi]: the zones of that class that have a chunk to give. */
  ghost predicate ChainOk(q: seq<nat>, zones: map<nat, Zone>, zi: nat) {
    NoDup(q) && forall b {:trigger b in q} {:trigger b in zones} :: b in q <==> b in zones && zones[b].zi == zi && zones[b].nfree > 0
  }

  ghost predicate ChainsOk(chains: seq<seq<nat>>, zones: map<nat, Zone>) {
    |chains| == NZONES && forall zi {:trigger ChainOk(chains[zi], zones, zi)} :: 0 <= zi < NZONES ==> ChainOk(chains[zi], zones, zi)
  }

  function Address(z: Zone, b: nat, k: nat): nat {
    b * PAGE + z.off + k * z.chunkSize
  }

  /** A block at addr is a chunk in use, or a large run. */
  ghost predicate Backed(v: View, addr: nat, block: Block) {
    match block
    case Chunk(b, k) => b in v.zones && k in ZoneLive(v.zones[b]) && addr == Address(v.zones[b], b, k)
    case Whole(b) => b in v.areas && v.areas[b].Big? && addr == b * PAGE
  }

  ghost predicate LiveOk(v: View) {
    forall addr {:trigger Backed(v, addr, v.live[addr])} :: addr in v.live ==> Backed(v, addr, v.live[addr])
  }

  ghost predicate Good(v: View, zp: nat) {
    && AreasOk(v, zp) && UsageOk(v, zp) && KindsOk(v)
    && ZonesOk(v.zones, zp) && ChainsOk(v.chains, v.zones) && LiveOk(v)
  }

  /** The bytes that a block offers. */
  ghost function Bytes(v: View, block: Block): nat {
    match block
    case Chunk(b, _) => if b in v.zones then v.zones[b].chunkSize else 0
    case Whole(b) => if b in v.areas && v.areas[b].Big? then v.areas[b].pages * PAGE else 0
  }

  /** The blocks handed out, by address, with the bytes each offers. */
  ghost function Blocks(v: View): map<nat, nat> {
    map addr | addr in v.live :: Bytes(v, v.live[addr])
  }

  // ----- What a reader of the invariant gets -----

  /** A block lies inside its own area, behind the zone header if it is a chunk. */
  lemma BlockInArea(v: View, zp: nat, addr: nat)
    requires Good(v, zp) && addr in v.live
    ensures Backed(v, addr, v.live[addr])
    ensures var block := v.live[addr];
      && block.b in v.areas && Bytes(v, block) > 0 && block.b * PAGE <= addr
      && addr + Bytes(v, block) <= (block.b + Len(v.areas[block.b], zp)) * PAGE
  {
    var block := v.live[addr];
    assert Backed(v, addr, block);
    match block
    case Chunk(b, k) =>
      assert b in v.areas && v.areas[b].Chunked?;
      assert ZoneOk(v.zones[b], zp * PAGE);
      ChunkInside(v.zones[b], zp * PAGE, k);
      ChunkEnd(b, v.zones[b].off, k, v.zones[b].chunkSize, zp);
    case Whole(b) =>
      assert Owns(v.owner, b, Len(v.areas[b], zp));
      RunEnd(b, v.areas[b].pages);
  }

  lemma ChunkEnd(b: nat, off: nat, k: nat, chunk: nat, zp: nat)
    requires off + (k + 1) * chunk <= zp * PAGE
    ensures b * PAGE <= b * PAGE + off + k * chunk && b * PAGE + off + k * chunk + chunk <= (b + zp) * PAGE
  {
    assert (b + zp) * PAGE == b * PAGE + zp * PAGE;
    assert (k + 1) * chunk == k * chunk + chunk;
  }

  lemma RunEnd(b: nat, n: nat)
    ensures b * PAGE + n * PAGE <= (b + n) * PAGE && (n > 0 ==> n * PAGE > 0)
  {
  }

  lemma PageOfByte(b: nat, n: nat, x: nat)
    requires b * PAGE <= x < (b + n) * PAGE
    ensures b <= x / PAGE < b + n
  {
  }

  /** Blocks handed out do not overlap, whichever zone or run they are in. */
  lemma BlocksApart(v: View, zp: nat, x: nat, y: nat)
    requires Good(v, zp) && x in v.live && y in v.live && x < y
    ensures Backed(v, x, v.live[x]) && x + Bytes(v, v.live[x]) <= y
  {
    BlockInArea(v, zp, x);
    BlockInArea(v, zp, y);
    var b, c := v.live[x].b, v.live[y].b;
    if y < x + Bytes(v, v.live[x]) {
      PageOfByte(b, Len(v.areas[b], zp), y);
      PageOfByte(c, Len(v.areas[c], zp), y);
      AreasApart(v, zp, b, c, y / PAGE);
      SameZone(v, zp, x, y);
    }
  }

  /** Two chunks of one zone. */
  lemma SameZone(v: View, zp: nat, x: nat, y: nat)
    requires Good(v, zp) && x in v.live && y in v.live && x < y && v.live[x].b == v.live[y].b
    ensures Backed(v, x, v.live[x]) && x + Bytes(v, v.live[x]) <= y
  {
    assert Backed(v, x, v.live[x]) && Backed(v, y, v.live[y]);
    var b := v.live[x].b;
    assert b in v.areas;
    var z, j, k := v.zones[b], v.live[x].k, v.live[y].k;
    if k < j {
      ChunksApart(k, j, b * PAGE + z.off, z.chunkSize);
    } else {
      ChunksApart(j, k, b * PAGE + z.off, z.chunkSize);
    }
  }

  lemma ChunkLookup(v: View, zp: nat, b: nat, k: nat)
    requires Good(v, zp) && b in v.zones && k in ZoneLive(v.zones[b])
    ensures var addr := Address(v.zones[b], b, k);
      addr / PAGE in v.usage && v.usage[addr / PAGE].Small? && ZoneOf(v.usage, addr) == b
  {
    var z := v.zones[b];
    assert Marked(v.usage, b, zp) by { assert b in v.areas && v.areas[b].Chunked?; }
    assert z.off + (k + 1) * z.chunkSize <= zp * PAGE && z.chunkSize > 0 by { ChunkInside(z, zp * PAGE, k); }
    LookupFindsZone(v.usage, b, zp, z.off, z.chunkSize, k);
  }

  /** The lookup of rt_free: a chunk leads to its own zone, a large run to its own length. */
  lemma Lookup(v: View, zp: nat, addr: nat)
    requires Good(v, zp) && addr in v.live
    ensures var block, page := v.live[addr], addr / PAGE;
      && page in v.usage
      && (block.Chunk? ==> v.usage[page].Small? && ZoneOf(v.usage, addr) == block.b)
      && (block.Whole? ==> block.b in v.areas && v.areas[block.b].Big? && v.usage[page] == Large(v.areas[block.b].pages) && page == block.b)
  {
    var block := v.live[addr];
    assert Backed(v, addr, block);
    match block
    case Chunk(b, k) =>
      ChunkLookup(v, zp, b, k);
    case Whole(b) =>
      assert Described(v.usage, b, v.areas[b], zp);
      assert b * PAGE / PAGE == b;
  }

  /**
    Blocks in a heap at start are aligned to 8 bytes.  One whose size is a power of two is aligned to its
    size if it is at most a page, and above that exactly if its zone or run begins at such an address.
   */
  lemma PowerAligned(v: View, zp: nat, start: nat, addr: nat)
    requires Good(v, zp) && addr in v.live && start % PAGE == 0
    ensures Bytes(v, v.live[addr]) > 0
    ensures Aligned(start + addr, start + v.live[addr].b * PAGE, Bytes(v, v.live[addr]), v.live[addr].Whole?)
  {
    assert Backed(v, addr, v.live[addr]);
    if v.live[addr].Chunk? {
      ChunkAligns(v, zp, start, addr);
    } else {
      RunAligns(v, zp, start, addr);
    }
  }

  /** How address x of a block of s bytes in an area at home is aligned. */
  predicate Aligned(x: nat, home: nat, s: nat, whole: bool)
    requires s > 0
  {
    && x % 8 == 0 && (PowerOfTwo(s) && s <= PAGE ==> x % s == 0)
    && (PowerOfTwo(s) || whole ==> (x % s == 0 <==> home % s == 0))
  }

  lemma RunAligns(v: View, zp: nat, start: nat, addr: nat)
    requires Good(v, zp) && addr in v.live && v.live[addr].Whole? && start % PAGE == 0
    ensures Bytes(v, v.live[addr]) > 0
    ensures Aligned(start + addr, start + v.live[addr].b * PAGE, Bytes(v, v.live[addr]), true)
  {
    BlockInArea(v, zp, addr);
    assert Backed(v, addr, v.live[addr]);
    PageMultiple(start, v.live[addr].b);
    PageDivides(start + addr, Bytes(v, v.live[addr]));
  }

  lemma ChunkAligns(v: View, zp: nat, start: nat, addr: nat)
    requires Good(v, zp) && addr in v.live && v.live[addr].Chunk? && start % PAGE == 0
    ensures Bytes(v, v.live[addr]) > 0
    ensures Aligned(start + addr, start + v.live[addr].b * PAGE, Bytes(v, v.live[addr]), false)
  {
    assert Backed(v, addr, v.live[addr]);
    var b: nat, k: nat := v.live[addr].b, v.live[addr].k;
    var z := v.zones[b];
    assert ZoneOk(z, zp * PAGE);
    assert ChunkSize(z.zi) == 8 * Eighths(z.zi);
    assert addr == b * PAGE + FirstChunk(ChunkSize(z.zi)) + k * ChunkSize(z.zi);
    ClassAligned(start, b, z.zi, k);
  }

  lemma ClassAligned(start: nat, b: nat, zi: nat, k: nat)
    requires zi < NZONES && start % PAGE == 0
    ensures var s, home := ChunkSize(zi), start + b * PAGE;
      s > 0 && Aligned(home + FirstChunk(s) + k * s, home, s, false)
  {
    PageMultiple(start, b);
    ChunkAligned(start + b * PAGE, zi, k);
    PageDivides(start + b * PAGE, ChunkSize(zi));
  }

  lemma PageMultiple(start: nat, b: nat)
    requires start % PAGE == 0
    ensures (start + b * PAGE) % PAGE == 0 && (start + b * PAGE) % 8 == 0
  {
    var q := start / 4096;
    var n := q + b;
    assert start + b * PAGE == 4096 * n;
    assert 4096 * n == 8 * (512 * n);
  }

  lemma PageDivides(x: nat, s: nat)
    requires x % PAGE == 0
    ensures PowerOfTwo(s) && s <= PAGE ==> x % s == 0
  {
    if PowerOfTwo(s) && s <= PAGE {
      var q, m := x / 4096, 4096 / s;
      assert m * s == 4096;
      assert (q * m) * s == q * (m * s) == x;
      MultipleShift(0, q * m, s);
    }
  }

  // ----- Large runs -----

  lemma LivePageUsed(v: View, zp: nat, addr: nat)
    requires Good(v, zp) && addr in v.live
    ensures var b := v.live[addr].b; b in v.areas && b <= addr / PAGE < b + Len(v.areas[b], zp) && addr / PAGE in v.used
  {
    BlockInArea(v, zp, addr);
    var b := v.live[addr].b;
    PageOfByte(b, Len(v.areas[b], zp), addr);
    AreaUsed(v, zp, b);
    assert addr / PAGE in Interval(b, Len(v.areas[b], zp));
  }

  ghost function TakeRun(v: View, b: nat, n: nat, zp: nat): View {
    AddArea(v, b, Big(n), zp).(usage := v.usage[b := Large(n)], live := v.live[b * PAGE := Whole(b)])
  }

  lemma TakeRunGood(v: View, b: nat, n: nat, zp: nat)
    requires Good(v, zp) && n > 0 && Interval(b, n) !! v.used
    ensures Good(TakeRun(v, b, n, zp), zp) && b * PAGE !in v.live && b !in v.areas
    ensures Blocks(TakeRun(v, b, n, zp)) == Blocks(v)[b * PAGE := n * PAGE]
  {
    var v' := TakeRun(v, b, n, zp);
    AddAreaOk(v, b, Big(n), zp);
    assert AreasOk(v', zp) by { assert AreasOk(AddArea(v, b, Big(n), zp), zp); }
    assert b in Interval(b, n) && b * PAGE / PAGE == b;
    if b * PAGE in v.live {
      LivePageUsed(v, zp, b * PAGE);
    }
    forall c | c in v'.areas ensures Described(v'.usage, c, v'.areas[c], zp) {
      if c != b {
        DescribedElsewhere(v, v'.usage, c, zp);
      }
    }
    AddedKinds(v, b, v');
    LiveAdds(v, v', b * PAGE, Whole(b));
  }

  /** Zones keep their shape and their chunks, and large runs stay. */
  ghost predicate KeepsBlocks(v: View, v': View) {
    && (forall b {:trigger v.zones[b]} :: b in v.zones ==> b in v'.zones && KeepsChunks(v.zones[b], v'.zones[b]))
    && (forall b {:trigger v.areas[b]} :: b in v.areas && v.areas[b].Big? ==> b in v'.areas && v'.areas[b] == v.areas[b])
  }

  ghost predicate KeepsChunks(z: Zone, z': Zone) {
    z'.off == z.off && z'.chunkSize == z.chunkSize && ZoneLive(z) <= ZoneLive(z')
  }

  /** A new area that is a large run or a spare zone. */
  lemma AddedKinds(v: View, b: nat, v': View)
    requires KindsOk(v) && b !in v.areas && v'.zones == v.zones && v'.areas.Keys == v.areas.Keys + {b}
    requires (forall c {:trigger v'.areas[c]} :: c in v.areas ==> v'.areas[c] == v.areas[c]) && b in v'.areas
    requires (v'.areas[b].Big? && v'.spare == v.spare) || (v'.areas[b].Spare? && v'.spare == [b] + v.spare)
    ensures KindsOk(v') && b !in v.spare
  {
    assert b !in v.zones && b !in v.spare;
    forall c | c in v'.areas
      ensures (v'.areas[c].Chunked? <==> c in v'.zones) && (v'.areas[c].Spare? <==> c in v'.spare)
    {
      assert c != b ==> c in v.areas;
    }
  }

  lemma LiveSame(v: View, v': View)
    requires LiveOk(v) && KeepsBlocks(v, v') && v'.live == v.live
    ensures LiveOk(v') && Blocks(v') == Blocks(v)
  {
    forall a | a in v'.live ensures Backed(v', a, v'.live[a]) && Bytes(v', v'.live[a]) == Bytes(v, v.live[a]) {
      assert Backed(v, a, v.live[a]);
    }
  }

  /** A new block joins those there are. */
  lemma LiveAdds(v: View, v': View, addr: nat, block: Block)
    requires LiveOk(v) && KeepsBlocks(v, v') && v'.live == v.live[addr := block] && Backed(v', addr, block)
    ensures LiveOk(v') && Blocks(v') == Blocks(v)[addr := Bytes(v', block)]
  {
    forall a | a in v.live && a != addr
      ensures Backed(v', a, v.live[a]) && Bytes(v', v.live[a]) == Bytes(v, v.live[a])
    {
      assert Backed(v, a, v.live[a]);
      BlockKept(v, v', a, v.live[a]);
    }
  }

  lemma BlockKept(v: View, v': View, a: nat, block: Block)
    requires KeepsBlocks(v, v') && Backed(v, a, block)
    ensures Backed(v', a, block) && Bytes(v', block) == Bytes(v, block)
  {
  }

  ghost function GiveRun(v: View, b: nat, zp: nat): View
    requires b in v.areas
  {
    DropArea(v, b, zp).(usage := v.usage[b := Large(0)], live := v.live - {b * PAGE})
  }

  lemma GiveRunGood(v: View, b: nat, zp: nat)
    requires Good(v, zp) && b in v.areas && v.areas[b].Big?
    ensures Good(GiveRun(v, b, zp), zp) && Blocks(GiveRun(v, b, zp)) == Blocks(v) - {b * PAGE}
  {
    var v' := GiveRun(v, b, zp);
    DropAreaOk(v, b, zp);
    assert AreasOk(v', zp) by { assert AreasOk(DropArea(v, b, zp), zp); }
    AreaUsed(v, zp, b);
    assert Owns(v.owner, b, Len(v.areas[b], zp)) && PartOf(v.owner, b, b);
    forall c | c in v'.areas ensures Described(v'.usage, c, v'.areas[c], zp) {
      DescribedElsewhere(v, v'.usage, c, zp);
    }
    forall a | a in v'.live ensures Backed(v', a, v'.live[a]) && Bytes(v', v'.live[a]) == Bytes(v, v.live[a]) {
      assert Backed(v, a, v.live[a]);
    }
  }

  // ----- Chunks -----

  ghost function TakeFromZone(v: View, b: nat): View
    requires b in v.zones && (v.zones[b].uindex + 1 != v.zones[b].nmax || v.zones[b].free != [])
    requires v.zones[b].zi < |v.chains| && v.chains[v.zones[b].zi] != []
  {
    var (z', k) := TakeChunk(v.zones[b]);
    var q := v.chains[z'.zi];
    v.(zones := v.zones[b := z'], chains := v.chains[z'.zi := if z'.nfree == 0 then q[1..] else q],
       live := v.live[Address(z', b, k) := Chunk(b, k)])
  }

  /** The first zone of a class with a chunk to give gives one. */
  lemma TakeFromZoneGood(v: View, zp: nat, zi: nat)
    requires Good(v, zp) && zi < NZONES && v.chains[zi] != []
    ensures var b := v.chains[zi][0];
      && b in v.zones && v.zones[b].zi == zi && (v.zones[b].uindex + 1 != v.zones[b].nmax || v.zones[b].free != [])
      && Good(TakeFromZone(v, b), zp)
      && Blocks(TakeFromZone(v, b)) == Blocks(v)[Address(v.zones[b], b, TakeChunk(v.zones[b]).1) := ChunkSize(zi)]
      && Address(v.zones[b], b, TakeChunk(v.zones[b]).1) !in v.live
  {
    var b := v.chains[zi][0];
    assert ChainOk(v.chains[zi], v.zones, zi) && b in v.chains[zi];
    var z := v.zones[b];
    assert ZoneOk(z, zp * PAGE);
    TakeOk(z, zp * PAGE);
    var (z', k) := TakeChunk(z);
    TakeChains(v.chains, v.zones, zi, b, z');
    NotLive(v, zp, b, k);
    var q := v.chains[zi];
    ZoneGives(v, zp, b, z', k, v.chains[zi := if z'.nfree == 0 then q[1..] else q]);
  }

  /** A zone changes its header, keeping its chunks, and one of its chunks is handed out. */
  lemma ZoneGives(v: View, zp: nat, b: nat, z': Zone, k: nat, chains': seq<seq<nat>>)
    requires Good(v, zp) && b in v.zones && ZoneOk(z', zp * PAGE)
    requires KeepsChunks(v.zones[b], z') && k in ZoneLive(z') && ChainsOk(chains', v.zones[b := z'])
    ensures var v' := v.(zones := v.zones[b := z'], chains := chains', live := v.live[Address(z', b, k) := Chunk(b, k)]);
      Good(v', zp) && Blocks(v') == Blocks(v)[Address(z', b, k) := z'.chunkSize]
  {
    var addr := Address(z', b, k);
    var v' := v.(zones := v.zones[b := z'], chains := chains', live := v.live[addr := Chunk(b, k)]);
    ZonesSet(v.zones, b, z', zp);
    LiveAdds(v, v', addr, Chunk(b, k));
    KeepsAreas(v, v', zp);
  }

  lemma ZonesSet(zones: map<nat, Zone>, b: nat, z: Zone, zp: nat)
    requires ZonesOk(zones, zp) && ZoneOk(z, zp * PAGE)
    ensures ZonesOk(zones[b := z], zp)
  {
    var zones' := zones[b := z];
    forall c | c in zones' ensures ZoneOk(zones'[c], zp * PAGE) {
      assert c != b ==> ZoneOk(zones[c], zp * PAGE);
    }
  }

  /** Areas and the usage table are the same, and zones exist where they did. */
  lemma KeepsAreas(v: View, v': View, zp: nat)
    requires AreasOk(v, zp) && UsageOk(v, zp) && KindsOk(v)
    requires v'.used == v.used && v'.owner == v.owner && v'.areas == v.areas && v'.usage == v.usage
    requires v'.zones.Keys == v.zones.Keys && v'.spare == v.spare
    ensures AreasOk(v', zp) && UsageOk(v', zp) && KindsOk(v')
  {
    forall p | p in v'.owner ensures PageOk(v'.owner, v'.areas, zp, p) {
      assert PageOk(v.owner, v.areas, zp, p);
    }
    forall c | c in v'.areas ensures Owns(v'.owner, c, Len(v'.areas[c], zp)) {
      assert Owns(v.owner, c, Len(v.areas[c], zp));
    }
  }

  lemma TakeChains(chains: seq<seq<nat>>, zones: map<nat, Zone>, zi: nat, b: nat, z': Zone)
    requires ChainsOk(chains, zones) && zi < NZONES && chains[zi] != [] && b == chains[zi][0] && b in zones
    requires zones[b].zi == zi && z'.zi == zi && z'.nfree == zones[b].nfree - 1
    ensures ChainsOk(chains[zi := if z'.nfree == 0 then chains[zi][1..] else chains[zi]], zones[b := z'])
  {
    var q := chains[zi];
    var q' := if z'.nfree == 0 then q[1..] else q;
    assert ChainOk(q, zones, zi) && b in q;
    assert q == [b] + q[1..] && b !in q[1..];
    assert ChainOk(q', zones[b := z'], zi);
    OtherChains(chains, zones, zi, b, z', q');
  }

  /** The chains of other classes do not mind a change to a zone of this one. */
  lemma OtherChains(chains: seq<seq<nat>>, zones: map<nat, Zone>, zi: nat, b: nat, z': Zone, q': seq<nat>)
    requires ChainsOk(chains, zones) && zi < NZONES && z'.zi == zi && (b in zones ==> zones[b].zi == zi)
    requires ChainOk(q', zones[b := z'], zi)
    ensures ChainsOk(chains[zi := q'], zones[b := z'])
  {
    var chains', zones' := chains[zi := q'], zones[b := z'];
    forall j | 0 <= j < NZONES ensures ChainOk(chains'[j], zones', j) {
      assert ChainOk(chains[j], zones, j);
    }
  }

  /** A chunk that is not in use is not at the address of any block. */
  lemma NotLive(v: View, zp: nat, b: nat, k: nat)
    requires Good(v, zp) && b in v.zones && k !in ZoneLive(v.zones[b]) && k < v.zones[b].nmax
    ensures Address(v.zones[b], b, k) !in v.live
  {
    var addr := Address(v.zones[b], b, k);
    assert ZoneOk(v.zones[b], zp * PAGE);
    if addr in v.live {
      ChunkPage(v.zones[b], b, k, zp, addr);
      LivePageUsed(v, zp, addr);
      assert b in v.areas && v.areas[b].Chunked?;
      assert Backed(v, addr, v.live[addr]);
      AreasApart(v, zp, b, v.live[addr].b, addr / PAGE);
      SameChunk(v.zones[b], b, v.live[addr].k, k);
    }
  }

  /** The page of a chunk is a page of its zone. */
  lemma ChunkPage(z: Zone, b: nat, k: nat, zp: nat, addr: nat)
    requires ZoneOk(z, zp * PAGE) && k < z.nmax && addr == Address(z, b, k)
    ensures z.chunkSize > 0 && b <= addr / PAGE < b + zp
  {
    ChunkPositive(z, zp);
    InZone(k, z.nmax, z.chunkSize, z.off, zp * PAGE);
    ChunkEnd(b, z.off, k, z.chunkSize, zp);
    PageOfByte(b, zp, addr);
  }

  lemma SameChunk(z: Zone, b: nat, j: nat, k: nat)
    requires z.chunkSize > 0 && Address(z, b, j) == Address(z, b, k)
    ensures j == k
  {
    if j < k {
      ChunksApart(j, k, b * PAGE + z.off, z.chunkSize);
    } else if k < j {
      ChunksApart(k, j, b * PAGE + z.off, z.chunkSize);
    }
  }

  lemma ChunkPositive(z: Zone, zp: nat)
    requires ZoneOk(z, zp * PAGE)
    ensures z.chunkSize > 0
  {
  }

  ghost function GiveToZone(v: View, addr: nat, b: nat, k: nat): View
    requires b in v.zones && v.zones[b].zi < |v.chains|
  {
    var z := v.zones[b];
    var q := v.chains[z.zi];
    v.(zones := v.zones[b := GiveChunk(z, k)], chains := v.chains[z.zi := if z.nfree == 0 then [b] + q else q],
       live := v.live - {addr})
  }

  /** A chunk comes back to its zone, which then has a chunk to give. */
  lemma GiveToZoneGood(v: View, zp: nat, addr: nat)
    requires Good(v, zp) && addr in v.live && v.live[addr].Chunk?
    ensures var b, k := v.live[addr].b, v.live[addr].k;
      && b in v.zones && v.zones[b].zi < |v.chains| && k in ZoneLive(v.zones[b])
      && Good(GiveToZone(v, addr, b, k), zp) && Blocks(GiveToZone(v, addr, b, k)) == Blocks(v) - {addr}
  {
    assert Backed(v, addr, v.live[addr]);
    var b, k := v.live[addr].b, v.live[addr].k;
    var z := v.zones[b];
    assert ZoneOk(z, zp * PAGE);
    GiveOk(z, zp * PAGE, k);
    var v' := GiveToZone(v, addr, b, k);
    ZonesSet(v.zones, b, GiveChunk(z, k), zp);
    GiveChains(v.chains, v.zones, b, GiveChunk(z, k));
    KeepsAreas(v, v', zp);
    forall a | a in v'.live ensures Backed(v', a, v'.live[a]) && Bytes(v', v'.live[a]) == Bytes(v, v.live[a]) {
      assert Backed(v, a, v.live[a]);
    }
  }

  lemma GiveChains(chains: seq<seq<nat>>, zones: map<nat, Zone>, b: nat, z': Zone)
    requires ChainsOk(chains, zones) && b in zones && zones[b].zi < NZONES && zones[b].nfree >= 0
    requires z'.zi == zones[b].zi && z'.nfree == zones[b].nfree + 1
    ensures var q := chains[z'.zi];
      ChainsOk(chains[z'.zi := if zones[b].nfree == 0 then [b] + q else q], zones[b := z'])
  {
    var zi := z'.zi;
    var q := chains[zi];
    var q' := if zones[b].nfree == 0 then [b] + q else q;
    assert ChainOk(q, zones, zi);
    assert ChainOk(q', zones[b := z'], zi);
    OtherChains(chains, zones, zi, b, z', q');
  }

  // ----- Whole zones -----

  /** Fresh pages become a spare zone; usage' describes them. */
  ghost function AddSpare(v: View, b: nat, usage': map<nat, Usage>, zp: nat): View {
    AddArea(v, b, Spare, zp).(usage := usage', spare := [b] + v.spare)
  }

  ghost predicate SameElsewhere(usage: map<nat, Usage>, usage': map<nat, Usage>, b: nat, n: nat) {
    forall p :: p in usage && !(b <= p < b + n) ==> p in usage' && usage'[p] == usage[p]
  }

  lemma AddSpareGood(v: View, b: nat, usage': map<nat, Usage>, zp: nat)
    requires Good(v, zp) && zp > 0 && Interval(b, zp) !! v.used
    requires Marked(usage', b, zp) && SameElsewhere(v.usage, usage', b, zp)
    ensures Good(AddSpare(v, b, usage', zp), zp) && Blocks(AddSpare(v, b, usage', zp)) == Blocks(v)
    ensures b !in v.areas && b !in v.spare
  {
    var v' := AddSpare(v, b, usage', zp);
    AddAreaOk(v, b, Spare, zp);
    assert AreasOk(v', zp) by { assert AreasOk(AddArea(v, b, Spare, zp), zp); }
    forall c | c in v'.areas ensures Described(v'.usage, c, v'.areas[c], zp) {
      if c != b {
        UsedElsewhere(v, usage', b, zp, c);
      }
    }
    AddedKinds(v, b, v');
    LiveSame(v, v');
  }

  /** Rewriting entries of free pages. */
  lemma UsedElsewhere(v: View, usage': map<nat, Usage>, b: nat, zp: nat, c: nat)
    requires AreasOk(v, zp) && c in v.areas && Described(v.usage, c, v.areas[c], zp)
    requires Interval(b, zp) !! v.used && SameElsewhere(v.usage, usage', b, zp)
    ensures Described(usage', c, v.areas[c], zp)
  {
    forall p: nat | p in v.usage && PartOf(v.owner, p, c) ensures p in usage' && usage'[p] == v.usage[p] {
      assert p in v.used && p !in Interval(b, zp);
    }
    DescribedElsewhere(v, usage', c, zp);
  }

  /** The first spare zone gets chunks of class zi, and hands out the first of them. */
  ghost function UseSpare(v: View, zi: nat, size: nat, zp: nat): View
    requires v.spare != [] && zi < |v.chains| && size > 0 && FirstChunk(size) <= zp * PAGE
  {
    var b, z := v.spare[0], NewZone(zi, size, zp * PAGE);
    v.(areas := v.areas[b := Chunked], zones := v.zones[b := z], chains := v.chains[zi := [b] + v.chains[zi]],
       spare := v.spare[1..], live := v.live[Address(z, b, 0) := Chunk(b, 0)])
  }

  lemma UseSpareGood(v: View, zi: nat, size: nat, zp: nat)
    requires Good(v, zp) && v.spare != [] && zi < NZONES && size == ChunkSize(zi)
    requires 4 * size <= zp * PAGE && zp * PAGE >= 0x8000
    ensures size > 0 && FirstChunk(size) <= zp * PAGE && Good(UseSpare(v, zi, size, zp), zp)
    ensures var z := NewZone(zi, size, zp * PAGE);
      Address(z, v.spare[0], 0) !in v.live && Blocks(UseSpare(v, zi, size, zp)) == Blocks(v)[Address(z, v.spare[0], 0) := size]
  {
    NewZoneOk(zi, size, zp * PAGE);
    var b, z := v.spare[0], NewZone(zi, size, zp * PAGE);
    assert b in v.spare && b in v.areas && b !in v.zones;
    SpareUntouched(v, zp, b, z);
    var addr, v' := Address(z, b, 0), UseSpare(v, zi, size, zp);
    ChangeAreaOk(v, b, Chunked, zp);
    assert AreasOk(v', zp) by { assert AreasOk(v.(areas := v.areas[b := Chunked]), zp); }
    SpareKinds(v, b, z, v');
    ZonesSet(v.zones, b, z, zp);
    NewChain(v.chains, v.zones, zi, b, z);
    LiveAdds(v, v', addr, Chunk(b, 0));
    SpareUsage(v, v', b, zp);
  }

  lemma SpareUsage(v: View, v': View, b: nat, zp: nat)
    requires UsageOk(v, zp) && b in v.areas && v.areas[b].Spare? && v'.usage == v.usage && v'.areas == v.areas[b := Chunked]
    ensures UsageOk(v', zp)
  {
    forall c | c in v'.areas ensures Described(v'.usage, c, v'.areas[c], zp) {
      assert Described(v.usage, c, v.areas[c], zp);
    }
  }

  lemma SpareKinds(v: View, b: nat, z: Zone, v': View)
    requires KindsOk(v) && v.spare != [] && b == v.spare[0] && b in v.areas
    requires v'.areas == v.areas[b := Chunked] && v'.zones == v.zones[b := z] && v'.spare == v.spare[1..]
    ensures KindsOk(v')
  {
    assert v.spare == [b] + v.spare[1..] && b !in v.spare[1..];
    assert NoDup(v.spare[1..]);
    assert forall c :: c in v.spare[1..] ==> c in v.spare;
  }

  lemma NewChain(chains: seq<seq<nat>>, zones: map<nat, Zone>, zi: nat, b: nat, z: Zone)
    requires ChainsOk(chains, zones) && zi < NZONES && b !in zones && z.zi == zi && z.nfree > 0
    ensures ChainsOk(chains[zi := [b] + chains[zi]], zones[b := z])
  {
    assert ChainOk(chains[zi], zones, zi);
    assert ChainOk([b] + chains[zi], zones[b := z], zi);
    OtherChains(chains, zones, zi, b, z, [b] + chains[zi]);
  }

  /** No block lies in a spare zone. */
  lemma SpareUntouched(v: View, zp: nat, b: nat, z: Zone)
    requires Good(v, zp) && b in v.areas && v.areas[b].Spare? && ZoneOk(z, zp * PAGE) && 0 in ZoneLive(z)
    ensures Address(z, b, 0) !in v.live
  {
    var addr := Address(z, b, 0);
    ChunkPage(z, b, 0, zp, addr);
    if addr in v.live {
      LivePageUsed(v, zp, addr);
      assert Backed(v, addr, v.live[addr]);
      assert b in v.areas && v.areas[b].Spare?;
      AreasApart(v, zp, b, v.live[addr].b, addr / PAGE);
    }
  }

  /** A zone without chunks in use goes from its chain to the spare ones. */
  ghost function Retire(v: View, b: nat): View
    requires b in v.zones && v.zones[b].zi < |v.chains|
  {
    var zi := v.zones[b].zi;
    v.(areas := v.areas[b := Spare], zones := v.zones - {b}, chains := v.chains[zi := Without(v.chains[zi], b)],
       spare := [b] + v.spare)
  }

  lemma RetireGood(v: View, zp: nat, b: nat)
    requires Good(v, zp) && b in v.zones && v.zones[b].nfree == v.zones[b].nmax
    ensures v.zones[b].zi < |v.chains| && Good(Retire(v, b), zp) && b !in v.spare && Blocks(Retire(v, b)) == Blocks(v)
  {
    var z := v.zones[b];
    assert ZoneOk(z, zp * PAGE);
    WhollyFree(z, zp * PAGE);
    assert b in v.areas && v.areas[b].Chunked?;
    var v' := Retire(v, b);
    ChangeAreaOk(v, b, Spare, zp);
    assert AreasOk(v', zp) by { assert AreasOk(v.(areas := v.areas[b := Spare]), zp); }
    RetireChains(v.chains, v.zones, z.zi, b);
    RetireKinds(v, b, v');
    RetireLive(v, b, v');
    forall c | c in v'.areas ensures Described(v'.usage, c, v'.areas[c], zp) {
      assert Described(v.usage, c, v.areas[c], zp);
    }
    forall c | c in v'.zones ensures ZoneOk(v'.zones[c], zp * PAGE) {
      assert ZoneOk(v.zones[c], zp * PAGE);
    }
  }

  lemma RetireKinds(v: View, b: nat, v': View)
    requires KindsOk(v) && b in v.zones
    requires v'.areas == v.areas[b := Spare] && v'.zones == v.zones - {b} && v'.spare == [b] + v.spare
    ensures KindsOk(v') && b !in v.spare
  {
    assert b in v.areas && b !in v.spare;
    forall c | c in v'.areas
      ensures (v'.areas[c].Chunked? <==> c in v'.zones) && (v'.areas[c].Spare? <==> c in v'.spare)
    {
      assert c in v.areas;
    }
  }

  lemma RetireLive(v: View, b: nat, v': View)
    requires LiveOk(v) && b in v.zones && ZoneLive(v.zones[b]) == {} && b in v.areas && v.areas[b].Chunked?
    requires v'.areas == v.areas[b := Spare] && v'.zones == v.zones - {b} && v'.live == v.live
    ensures LiveOk(v') && Blocks(v') == Blocks(v)
  {
    forall a | a in v'.live ensures Backed(v', a, v'.live[a]) && Bytes(v', v'.live[a]) == Bytes(v, v.live[a]) {
      assert Backed(v, a, v.live[a]);
    }
  }

  lemma RetireChains(chains: seq<seq<nat>>, zones: map<nat, Zone>, zi: nat, b: nat)
    requires ChainsOk(chains, zones) && zi < NZONES && b in zones && zones[b].zi == zi
    ensures ChainsOk(chains[zi := Without(chains[zi], b)], zones - {b})
  {
    var chains', zones' := chains[zi := Without(chains[zi], b)], zones - {b};
    forall j | 0 <= j < NZONES ensures ChainOk(chains'[j], zones', j) {
      assert ChainOk(chains[j], zones, j);
      if j == zi {
        WithoutNoDup(chains[zi], b);
        forall c ensures c in chains'[zi] <==> c in chains[zi] && c != b {
          WithoutIn(chains[zi], b, c);
        }
      }
    }
  }

  /** The first spare zone is given back; usage' says that its pages are free. */
  ghost function Release(v: View, usage': map<nat, Usage>, zp: nat): View
    requires v.spare != [] && v.spare[0] in v.areas
  {
    DropArea(v, v.spare[0], zp).(usage := usage', spare := v.spare[1..])
  }

  lemma ReleaseGood(v: View, usage': map<nat, Usage>, zp: nat)
    requires Good(v, zp) && v.spare != [] && SameElsewhere(v.usage, usage', v.spare[0], zp)
    ensures v.spare[0] in v.areas && Good(Release(v, usage', zp), zp) && Blocks(Release(v, usage', zp)) == Blocks(v)
  {
    var b := v.spare[0];
    assert b in v.spare && b in v.areas && v.areas[b].Spare?;
    var v' := Release(v, usage', zp);
    DropAreaOk(v, b, zp);
    assert AreasOk(v', zp) by { assert AreasOk(DropArea(v, b, zp), zp); }
    forall c | c in v'.areas ensures Described(v'.usage, c, v'.areas[c], zp) {
      KeptElsewhere(v, usage', b, zp, c);
    }
    ReleaseKinds(v, b, v');
    LiveSame(v, v');
  }

  lemma ReleaseKinds(v: View, b: nat, v': View)
    requires KindsOk(v) && v.spare != [] && b == v.spare[0]
    requires v'.areas == v.areas - {b} && v'.zones == v.zones && v'.spare == v.spare[1..]
    ensures KindsOk(v')
  {
    assert v.spare == [b] + v.spare[1..] && b !in v.spare[1..];
    assert b in v.spare && b in v.areas;
    assert NoDup(v.spare[1..]);
    assert forall c :: c in v.spare[1..] ==> c in v.spare;
  }

  /** Rewriting entries of one zone does not matter to another area. */
  lemma KeptElsewhere(v: View, usage': map<nat, Usage>, b: nat, zp: nat, c: nat)
    requires AreasOk(v, zp) && UsageOk(v, zp) && b in v.areas && v.areas[b].Spare? && c in v.areas && c != b
    requires SameElsewhere(v.usage, usage', b, zp)
    ensures Described(usage', c, v.areas[c], zp)
  {
    assert Owns(v.owner, b, Len(v.areas[b], zp));
    forall p: nat | p in v.usage && PartOf(v.owner, p, c) ensures p in usage' && usage'[p] == v.usage[p] {
      assert b <= p < b + zp ==> PartOf(v.owner, p, b);
    }
    DescribedElsewhere(v, usage', c, zp);
  }

  // ----- The allocator -----

  /** The zone and the number of a chunk, as rt_free finds them. */
  lemma FoundChunk(v: View, zp: nat, addr: nat)
    requires Good(v, zp) && addr in v.live && v.live[addr].Chunk?
    ensures addr / PAGE in v.usage && v.usage[addr / PAGE].Small? && ZoneOf(v.usage, addr) == v.live[addr].b
    ensures var b := v.live[addr].b;
      && b in v.zones && v.zones[b].chunkSize > 0 && b * PAGE + v.zones[b].off <= addr
      && ChunkAt(v.zones[b], b, addr) == v.live[addr].k
  {
    Lookup(v, zp, addr);
    var b, k := v.live[addr].b, v.live[addr].k;
    assert b in v.zones && addr == Address(v.zones[b], b, k) && v.zones[b].chunkSize > 0 by {
      assert Backed(v, addr, v.live[addr]);
      assert ZoneOk(v.zones[b], zp * PAGE);
      ChunkPositive(v.zones[b], zp);
    }
    ChunkNumber(v.zones[b], b, k, addr);
  }

  /** Fresh pages become a zone at once. */
  lemma FreshZoneGood(v: View, b: nat, usage': map<nat, Usage>, zi: nat, size: nat, zp: nat)
    requires Good(v, zp) && zp > 0 && Interval(b, zp) !! v.used
    requires Marked(usage', b, zp) && SameElsewhere(v.usage, usage', b, zp)
    requires zi < NZONES && size == ChunkSize(zi) && 4 * size <= zp * PAGE && zp * PAGE >= 0x8000
    ensures size > 0 && FirstChunk(size) <= zp * PAGE && zi < |v.chains|
    ensures var addr, v' := Address(NewZone(zi, size, zp * PAGE), b, 0), UseSpare(AddSpare(v, b, usage', zp), zi, size, zp);
      Good(v', zp) && addr !in v.live && Blocks(v') == Blocks(v)[addr := size]
  {
    AddSpareGood(v, b, usage', zp);
    UseSpareGood(AddSpare(v, b, usage', zp), zi, size, zp);
  }

  /** zone_limit */
  function Limit(zonePages: nat): (r: nat)
    ensures zonePages == 8 ==> r == 8192
    ensures zonePages >= 16 ==> r == 16384
  {
    if zonePages * PAGE / 4 > 16384 then 16384 else zonePages * PAGE / 4
  }

  /** The pages that a large request takes. */
  function PagesFor(size: nat): (n: nat)
    ensures size <= 4096 * n < size + 4096
  {
    (size + (PAGE - 1)) / PAGE
  }

  /** No n pages in a row are free. */
  ghost predicate NoPages(list: seq<Run>, n: nat) {
    forall a: nat :: !Fits(list, a, n)
  }

  /** The lowest n pages in a row that are free begin at page b. */
  ghost predicate Lowest(list: seq<Run>, n: nat, b: nat) {
    Fits(list, b, n) && forall a: nat :: Fits(list, a, n) ==> b <= a
  }

  /** Address p is that of the lowest n pages in a row that are free. */
  ghost predicate LowestPages(list: seq<Run>, n: nat, p: nat) {
    exists b: nat :: Lowest(list, n, b) && p == b * PAGE
  }

  lemma ClassFits(zp: nat, size: nat)
    requires zp in {8, 16, 32} && 0 < size < Limit(zp)
    ensures 0 <= ZoneIndex(size) < NZONES && ZoneSize(size) == ChunkSize(ZoneIndex(size)) && size <= ZoneSize(size)
    ensures 4 * ZoneSize(size) <= zp * PAGE && zp * PAGE >= 0x8000
  {
    ZoneBounds(size);
    IndexGivesSize(size);
    SizeWithin(size, Limit(zp));
  }

  /** Rounding up does not pass a limit that is itself a size of its class. */
  lemma SizeWithin(size: nat, limit: nat)
    requires 0 < size < limit && limit in {8192, 16384}
    ensures ZoneSize(size) <= limit
  {
    GrainsBound(size);
    ClassOf(size, Grains(size));
  }

  lemma {:induction false} ManyPages(size: nat)
    requires size > 0
    ensures PagesFor(size) > 0 && size <= PagesFor(size) * PAGE < size + PAGE
  {
  }

  /** The pages that become free when a spare zone is released. */
  method MarkFree(usage: map<nat, Usage>, b: nat, n: nat) returns (r: map<nat, Usage>)
    ensures SameElsewhere(usage, r, b, n) && forall p :: b <= p < b + n ==> p in r && r[p] == Usage.Free
  {
    r := usage;
    var i := 0;
    while i < n
      invariant 0 <= i <= n && SameElsewhere(usage, r, b, n)
      invariant forall p :: b <= p < b + i ==> p in r && r[p] == Usage.Free
    {
      r := r[b + i := Usage.Free];
      i := i + 1;
    }
  }

  /** The number of the chunk at an address. */
  function ChunkAt(z: Zone, b: nat, addr: nat): nat
    requires z.chunkSize > 0 && b * PAGE + z.off <= addr
  {
    (addr - (b * PAGE + z.off)) / z.chunkSize
  }

  lemma ChunkNumber(z: Zone, b: nat, k: nat, addr: nat)
    requires z.chunkSize > 0 && addr == Address(z, b, k)
    ensures b * PAGE + z.off <= addr && ChunkAt(z, b, addr) == k
  {
    Quotient(k, z.chunkSize);
  }

  lemma Quotient(k: nat, c: nat)
    requires c > 0
    ensures k * c / c == k
  {
    var q, rest := k * c / c, k * c % c;
    assert k * c == c * q + rest;
    if q < k {
      Scaled(c, q + 1, k);
    } else if q > k {
      Scaled(c, k + 1, q);
    }
  }

  lemma Scaled(c: nat, a: nat, b: nat)
    requires a <= b
    ensures c * a <= c * b
  {
  }

  /** The largest of 32K, 64K and 128K below a thousandth of the heap, or 32K. */
  predicate ZoneChosen(npages: nat, zp: nat) {
    && zp in {8, 16, 32}
    && (zp > 8 ==> zp * PAGE < npages * PAGE / 1024) && (zp < 32 ==> 2 * zp * PAGE >= npages * PAGE / 1024)
  }

  /** zone_size in pages: 32K, doubled while it is below 128K and its double below a thousandth of the heap. */
  method ChooseZone(npages: nat) returns (zp: nat)
    ensures ZoneChosen(npages, zp)
  {
    zp := 8;
    while zp < 32 && zp * 2 * PAGE < npages * PAGE / 1024
      invariant zp in {8, 16, 32} && (zp > 8 ==> zp * PAGE < npages * PAGE / 1024)
      decreases 32 - zp
    {
      zp := zp * 2;
    }
  }

  /** The pages of the usage table: a word for each page of the heap. */
  function TablePages(npages: nat): (m: nat)
    ensures npages > 0 ==> 0 < m <= npages
    ensures npages * 4 <= m * 4096 < npages * 4 + 4096
  {
    (npages * 4 + 4095) / 4096
  }

  ghost function BootView(m: nat): View {
    View(Interval(0, m), map p | p in Interval(0, m) :: 0, map[0 := Table(m)], map[], map[], seq(NZONES, _ => []), [], map[])
  }

  lemma BootGood(m: nat, zp: nat)
    requires m > 0
    ensures Good(BootView(m), zp) && Blocks(BootView(m)) == map[]
  {
    var v := BootView(m);
    forall b | b in v.areas ensures Owns(v.owner, b, Len(v.areas[b], zp)) {
    }
  }

  /** A page list whose first m pages are taken. */
  method FirstPages(npages: nat, m: nat) returns (list: PageList)
    requires 0 < m <= npages
    ensures fresh(list) && list.Valid() && list.used == Interval(0, m) && list.heap == Interval(0, npages)
  {
    list := new PageList(0, npages);
    assert Fits(list.list, 0, m);
    var r := list.Alloc(m);
    assert r == Some(0);
  }

  class Slab {
    const zonePages: nat
    const pages: PageList
    var usage: map<nat, Usage>
    var zones: map<nat, Zone>
    var zoneArray: seq<seq<nat>>
    var zoneFree: seq<nat>
    var zoneFreeCnt: int
    ghost var owner: map<nat, nat>
    ghost var areas: map<nat, Area>
    ghost var live: map<nat, Block>

    ghost function V(): View
      reads this, pages
    {
      View(pages.used, owner, areas, usage, zones, zoneArray, zoneFree, live)
    }

    ghost predicate Valid()
      reads this, pages
    {
      && zonePages in {8, 16, 32} && pages.Valid() && Good(V(), zonePages)
      && zoneFreeCnt == |zoneFree| <= SPARES
    }

    /** rt_system_heap_init on a heap of npages pages: the first of them hold the usage table. */
    constructor (npages: nat)
      requires npages > 0
      ensures Valid() && Blocks(V()) == map[] && fresh(pages) && pages.heap == Interval(0, npages)
      ensures pages.used == Interval(0, TablePages(npages)) && areas == map[0 := Table(TablePages(npages))]
      ensures zones == map[] && zoneFree == [] && ZoneChosen(npages, zonePages)
    {
      var zp := ChooseZone(npages);
      var m := TablePages(npages);
      var list := FirstPages(npages, m);
      zonePages, pages := zp, list;
      usage, zones, zoneArray, zoneFree, zoneFreeCnt := map[], map[], seq(NZONES, _ => []), [], 0;
      owner, areas, live := map p | p in Interval(0, m) :: 0, map[0 := Table(m)], map[];
      new;
      BootGood(m, zp);
      assert V() == BootView(m);
    }

    // What each part leaves behind; what it is not said to change is as before.

    /** The lowest n pages in a row that were free have been handed out as a large run, at address p. */
    ghost predicate TookRun(p: nat, n: nat, list: seq<Run>, usedWas: set<nat>, liveWas: map<nat, Block>)
      reads this, pages
    {
      exists b: nat :: Lowest(list, n, b) && RunAt(p, b, n, usedWas, liveWas)
    }

    ghost predicate RunAt(p: nat, b: nat, n: nat, usedWas: set<nat>, liveWas: map<nat, Block>)
      reads this, pages
    {
      p == b * PAGE && live == liveWas[p := Whole(b)] && pages.used == usedWas + Interval(b, n)
    }

    /**
      The first zone of class zi has handed out a chunk: the next of its never-used ones, or, if there is none, the
      one freed last.  With its last chunk it leaves the chain.
     */
    ghost predicate TookChunk(p: nat, zi: nat, zonesWas: map<nat, Zone>, chainsWas: seq<seq<nat>>, liveWas: map<nat, Block>)
      reads this
    {
      && zi < |chainsWas| && chainsWas[zi] != [] && chainsWas[zi][0] in zonesWas
      && var b, q := chainsWas[zi][0], chainsWas[zi]; var z := zonesWas[b];
      && (z.uindex + 1 != z.nmax ==>
            && live == liveWas[p := Chunk(b, z.uindex + 1)]
            && zones == zonesWas[b := z.(nfree := z.nfree - 1, uindex := z.uindex + 1)])
      && (z.uindex + 1 == z.nmax ==>
            && z.free != [] && live == liveWas[p := Chunk(b, z.free[0])]
            && zones == zonesWas[b := z.(nfree := z.nfree - 1, free := z.free[1..])])
      && zoneArray == chainsWas[zi := if z.nfree == 1 then q[1..] else q]
    }

    /** The zone at page b, which now has chunks of class zi, is first in its chain, and has handed out its first chunk. */
    ghost predicate Opened(p: nat, zi: nat, b: nat, zonesWas: map<nat, Zone>, chainsWas: seq<seq<nat>>, liveWas: map<nat, Block>)
      reads this
    {
      && live == liveWas[p := Chunk(b, 0)] && zones.Keys == zonesWas.Keys + {b}
      && (forall c :: c in zonesWas && c != b ==> zones[c] == zonesWas[c])
      && zones[b].zi == zi && zones[b].uindex == 0 && zones[b].free == [] && zones[b].nfree == zones[b].nmax - 1
      && zones[b].chunkSize > 0 && zones[b].nmax == (zonePages * PAGE - zones[b].off) / zones[b].chunkSize
      && zi < |chainsWas| && zoneArray == chainsWas[zi := [b] + chainsWas[zi]]
    }

    /** The same, for a zone on the lowest pages in a row that were free. */
    ghost predicate OpenedFresh(p: nat, zi: nat, list: seq<Run>, usedWas: set<nat>, zonesWas: map<nat, Zone>,
                                chainsWas: seq<seq<nat>>, liveWas: map<nat, Block>)
      reads this, pages
    {
      exists b: nat :: Lowest(list, zonePages, b) && pages.used == usedWas + Interval(b, zonePages)
                       && Opened(p, zi, b, zonesWas, chainsWas, liveWas)
    }

    /** Chunk k is back in the zone at page b, first on its free list; the zone is in its chain, in front if it was not. */
    ghost predicate GaveChunk(b: nat, k: nat, zonesWas: map<nat, Zone>, chainsWas: seq<seq<nat>>)
      reads this
    {
      && b in zonesWas && zonesWas[b].zi < |chainsWas|
      && var z := zonesWas[b];
      && zones == zonesWas[b := z.(nfree := z.nfree + 1, free := [k] + z.free)]
      && zoneArray == chainsWas[z.zi := if z.nfree == 0 then [b] + chainsWas[z.zi] else chainsWas[z.zi]]
    }

    /** Freeing chunk k of the zone at page b: it goes back, and then the zone may retire. */
    ghost predicate Freed(b: nat, k: nat, zonesWas: map<nat, Zone>, chainsWas: seq<seq<nat>>, spareWas: seq<nat>, usedWas: set<nat>)
      reads this, pages
    {
      && b in zonesWas && zonesWas[b].zi < |chainsWas|
      && var z := zonesWas[b].(nfree := zonesWas[b].nfree + 1, free := [k] + zonesWas[b].free);
      var q := if zonesWas[b].nfree == 0 then [b] + chainsWas[z.zi] else chainsWas[z.zi];
      if z.nfree == z.nmax && q != [b] then
        Retired(b, zonesWas[b := z], chainsWas[z.zi := q], spareWas, usedWas)
      else
        zones == zonesWas[b := z] && zoneArray == chainsWas[z.zi := q] && zoneFree == spareWas && pages.used == usedWas
    }

    /** The zone at page b is wholly free, and its class has another with chunks to give. */
    ghost predicate Retires(z: Zone, b: nat, chains: seq<seq<nat>>) {
      z.nfree == z.nmax && z.zi < |chains| && chains[z.zi] != [b]
    }

    /** It has left its chain, and is the first spare zone, or, with two spare ones already, its pages are free. */
    ghost predicate Retired(b: nat, zonesWas: map<nat, Zone>, chainsWas: seq<seq<nat>>, spareWas: seq<nat>, usedWas: set<nat>)
      reads this, pages
    {
      && b in zonesWas && zonesWas[b].zi < |chainsWas|
      && zones == zonesWas - {b} && zoneArray == chainsWas[zonesWas[b].zi := Without(chainsWas[zonesWas[b].zi], b)]
      && (|spareWas| < 2 ==> zoneFree == [b] + spareWas && pages.used == usedWas)
      && (|spareWas| >= 2 ==> zoneFree == spareWas && pages.used == usedWas - Interval(b, zonePages))
    }

    // What each part does to the state, whatever the state is.

    /** n pages as a large run. */
    method TakePages(n: nat) returns (r: Option<nat>)
      requires pages.Valid() && n > 0
      modifies this`usage, this`owner, this`areas, this`live, pages
      ensures pages.Valid() && (r.None? ==> NoPages(old(pages.list), n) && V() == old(V()))
      ensures r.Some? ==> Fits(old(pages.list), r.value, n) && Interval(r.value, n) !! old(pages.used)
      ensures r.Some? ==> V() == TakeRun(old(V()), r.value, n, zonePages)
      ensures r.Some? ==> Lowest(old(pages.list), n, r.value)
    {
      r := pages.Alloc(n);
      if r.Some? {
        var b := r.value;
        usage := usage[b := Large(n)];
        owner, areas, live := Claim(owner, b, n), areas[b := Big(n)], live[b * PAGE := Whole(b)];
      }
    }

    /** A chunk from zone b, which leaves its chain with its last chunk. */
    method TakeFirst(zi: nat, b: nat) returns (p: nat)
      requires zi < |zoneArray| && zoneArray[zi] != [] && b == zoneArray[zi][0] && b in zones && zones[b].zi == zi
      requires zones[b].uindex + 1 != zones[b].nmax || zones[b].free != []
      modifies this`zones, this`zoneArray, this`live
      ensures V() == TakeFromZone(old(V()), b) && p == Address(old(zones)[b], b, TakeChunk(old(zones)[b]).1)
      ensures TookChunk(p, zi, old(zones), old(zoneArray), old(live))
    {
      var (z, k) := TakeChunk(zones[b]);
      zones := zones[b := z];
      if z.nfree == 0 {
        zoneArray := zoneArray[zi := zoneArray[zi][1..]];
      }
      p := Address(z, b, k);
      live := live[p := Chunk(b, k)];
    }

    // ----- rt_malloc -----

    /** A request of zone_limit bytes or more: whole pages. */
    method MallocLarge(size: nat) returns (p: Option<nat>)
      requires Valid() && size > 0
      modifies this`usage, this`owner, this`areas, this`live, pages
      ensures Valid() && (p.None? <==> NoPages(old(pages.list), PagesFor(size)))
      ensures p.None? ==> V() == old(V())
      ensures p.Some? ==> p.value !in old(live) && Blocks(V()) == Blocks(old(V()))[p.value := PagesFor(size) * PAGE]
      ensures p.Some? ==> TookRun(p.value, PagesFor(size), old(pages.list), old(pages.used), old(live))
    {
      ManyPages(size);
      var n := PagesFor(size);
      var r := TakePages(n);
      if r.None? {
        return None;
      }
      TakeRunGood(old(V()), r.value, n, zonePages);
      p := Some(r.value * PAGE);
    }

    /** From the first zone of the class that has a chunk to give. */
    method FromZone(zi: nat) returns (p: nat)
      requires Valid() && zi < NZONES && zoneArray[zi] != []
      modifies this`zones, this`zoneArray, this`live
      ensures Valid() && p !in old(live) && Blocks(V()) == Blocks(old(V()))[p := ChunkSize(zi)]
      ensures TookChunk(p, zi, old(zones), old(zoneArray), old(live))
    {
      TakeFromZoneGood(V(), zonePages, zi);
      p := TakeFirst(zi, zoneArray[zi][0]);
    }

    /** Pages for another zone, described in the usage table. */
    method FreshZone() returns (r: Option<nat>)
      requires pages.Valid() && zonePages > 0 && zoneFree == []
      modifies this`usage, this`owner, this`areas, pages
      ensures pages.Valid() && (r.None? ==> NoPages(old(pages.list), zonePages) && V() == old(V()))
      ensures r.Some? ==>
        && Lowest(old(pages.list), zonePages, r.value) && Interval(r.value, zonePages) !! old(pages.used)
        && Marked(usage, r.value, zonePages) && SameElsewhere(old(usage), usage, r.value, zonePages)
        && V() == AddSpare(old(V()), r.value, usage, zonePages).(spare := [])
    {
      r := pages.Alloc(zonePages);
      if r.Some? {
        usage := MarkZone(usage, r.value, zonePages);
        owner, areas := Claim(owner, r.value, zonePages), areas[r.value := Spare];
      }
    }

    /** A new zone header, linked into its chain; the first chunk is handed out. */
    method OpenZone(b: nat, zi: nat, size: nat, ghost v: View) returns (p: nat)
      requires zi < |zoneArray| && size > 0 && FirstChunk(size) <= zonePages * PAGE
      requires v.spare != [] && v.spare[0] == b && V() == v.(spare := v.spare[1..])
      modifies this`zones, this`zoneArray, this`areas, this`live
      ensures V() == UseSpare(v, zi, size, zonePages) && p == Address(NewZone(zi, size, zonePages * PAGE), b, 0)
      ensures Opened(p, zi, b, old(zones), old(zoneArray), old(live))
    {
      var z := NewZone(zi, size, zonePages * PAGE);
      p := Address(z, b, 0);
      zones := zones[b := z];
      zoneArray := zoneArray[zi := [b] + zoneArray[zi]];
      areas, live := areas[b := Chunked], live[p := Chunk(b, 0)];
    }

    /** All zones of the class are full: the first spare zone becomes another. */
    method FromSpare(zi: nat, size: nat) returns (p: nat)
      requires Valid() && zi < NZONES && size == ChunkSize(zi) && 4 * size <= zonePages * PAGE && zonePages * PAGE >= 0x8000
      requires zoneFree != []
      modifies this`zones, this`zoneArray, this`zoneFree, this`zoneFreeCnt, this`areas, this`live
      ensures Valid() && p !in old(live) && Blocks(V()) == Blocks(old(V()))[p := size]
      ensures Opened(p, zi, old(zoneFree)[0], old(zones), old(zoneArray), old(live)) && zoneFree == old(zoneFree)[1..]
    {
      ghost var v := V();
      UseSpareGood(v, zi, size, zonePages);
      var b := zoneFree[0];
      zoneFree, zoneFreeCnt := zoneFree[1..], zoneFreeCnt - 1;
      p := OpenZone(b, zi, size, v);
    }

    /** All zones of the class are full, and no zone is spare: fresh pages become another. */
    method FromPages(zi: nat, size: nat) returns (p: Option<nat>)
      requires pages.Valid() && Good(V(), zonePages) && zonePages > 0 && zoneFree == []
      requires zi < NZONES && size == ChunkSize(zi) && 4 * size <= zonePages * PAGE && zonePages * PAGE >= 0x8000
      modifies this`usage, this`zones, this`zoneArray, this`owner, this`areas, this`live, pages
      ensures pages.Valid() && Good(V(), zonePages) && (p.None? <==> NoPages(old(pages.list), zonePages))
      ensures p.None? ==> V() == old(V())
      ensures p.Some? ==> p.value !in old(live) && Blocks(V()) == Blocks(old(V()))[p.value := size]
      ensures p.Some? ==> OpenedFresh(p.value, zi, old(pages.list), old(pages.used), old(zones), old(zoneArray), old(live))
    {
      ghost var v := V();
      RoomForThree(size, zonePages * PAGE);
      ghost var b;
      p, b := ZoneFromPages(zi, size);
      if p.Some? {
        FreshZoneGood(v, b, usage, zi, size, zonePages);
      }
    }

    method ZoneFromPages(zi: nat, size: nat) returns (p: Option<nat>, ghost b: nat)
      requires pages.Valid() && zonePages > 0 && zoneFree == [] && zi < |zoneArray| && size > 0 && FirstChunk(size) <= zonePages * PAGE
      modifies this`usage, this`zones, this`zoneArray, this`owner, this`areas, this`live, pages
      ensures pages.Valid() && (p.None? ==> NoPages(old(pages.list), zonePages) && V() == old(V()))
      ensures p.Some? ==>
        && Lowest(old(pages.list), zonePages, b) && Interval(b, zonePages) !! old(pages.used)
        && Marked(usage, b, zonePages) && SameElsewhere(old(usage), usage, b, zonePages)
        && V() == UseSpare(AddSpare(old(V()), b, usage, zonePages), zi, size, zonePages)
        && p.value == Address(NewZone(zi, size, zonePages * PAGE), b, 0)
        && pages.used == old(pages.used) + Interval(b, zonePages) && Opened(p.value, zi, b, old(zones), old(zoneArray), old(live))
    {
      ghost var v := V();
      b := 0;
      var r := FreshZone();
      if r.None? {
        return None, 0;
      }
      b := r.value;
      var addr := OpenZone(r.value, zi, size, AddSpare(v, r.value, usage, zonePages));
      p := Some(addr);
    }

    /** What rt_malloc finds nothing for. */
    ghost predicate Refused(size: nat)
      requires Valid()
      reads this, pages
    {
      || size == 0
      || (size >= Limit(zonePages) && NoPages(pages.list, PagesFor(size)))
      || (0 < size < Limit(zonePages) && NoZone(zoneArray, zoneFree, pages.list, zonePages, ZoneIndex(size)))
    }

    /** rt_malloc: whole pages for large requests, else a chunk of the class of the size. */
    method Malloc(size: nat) returns (p: Option<nat>)
      requires Valid()
      modifies this, pages
      ensures Valid() && (p.None? <==> old(Refused(size)))
      ensures p.None? ==> V() == old(V())
      ensures p.Some? ==> p.value !in old(live) && Blocks(V()) == Blocks(old(V()))[p.value := Granted(size, zonePages)]
      // a large request gets the lowest pages that fit
      ensures p.Some? && size >= Limit(zonePages) ==>
        && TookRun(p.value, PagesFor(size), old(pages.list), old(pages.used), old(live))
        && zones == old(zones) && zoneArray == old(zoneArray) && zoneFree == old(zoneFree)
      // a small one comes from the first zone of its class, then from the first spare zone, then from fresh pages
      ensures p.Some? && size < Limit(zonePages) ==> 0 <= ZoneIndex(size) < |old(zoneArray)|
      ensures p.Some? && size < Limit(zonePages) && old(zoneArray)[ZoneIndex(size)] != [] ==>
        && TookChunk(p.value, ZoneIndex(size), old(zones), old(zoneArray), old(live))
        && zoneFree == old(zoneFree) && pages.used == old(pages.used)
      ensures p.Some? && size < Limit(zonePages) && old(zoneArray)[ZoneIndex(size)] == [] && old(zoneFree) != [] ==>
        && Opened(p.value, ZoneIndex(size), old(zoneFree)[0], old(zones), old(zoneArray), old(live))
        && zoneFree == old(zoneFree)[1..] && pages.used == old(pages.used)
      ensures p.Some? && size < Limit(zonePages) && old(zoneArray)[ZoneIndex(size)] == [] && old(zoneFree) == [] ==>
        OpenedFresh(p.value, ZoneIndex(size), old(pages.list), old(pages.used), old(zones), old(zoneArray), old(live))
    {
      if size == 0 {
        return None;
      }
      if size >= Limit(zonePages) {
        p := MallocLarge(size);
        return;
      }
      ClassFits(zonePages, size);
      var zi, n := ZoneIndex(size), ZoneSize(size);
      if zoneArray[zi] != [] {
        var addr := FromZone(zi);
        return Some(addr);
      }
      if zoneFree != [] {
        var addr := FromSpare(zi, n);
        return Some(addr);
      }
      p := FromPages(zi, n);
    }

    // ----- rt_free -----

    /** A large run: its length is in the table. */
    method GivePages(b: nat)
      requires pages.Valid() && b in usage && usage[b].Large? && b in areas && areas[b] == Big(usage[b].pages)
      requires usage[b].pages > 0 && Interval(b, usage[b].pages) <= pages.used
      modifies this`usage, this`owner, this`areas, this`live, pages
      ensures pages.Valid() && V() == GiveRun(old(V()), b, zonePages)
    {
      var n := usage[b].pages;
      usage := usage[b := Large(0)];
      pages.Free(b, n);
      owner, areas, live := owner - Interval(b, n), areas - {b}, live - {b * PAGE};
    }

    /** A chunk goes on the free list of its zone, and the zone back to its chain if it had left. */
    method GiveBack(addr: nat, b: nat, k: nat)
      requires b in zones && zones[b].zi < |zoneArray|
      modifies this`zones, this`zoneArray, this`live
      ensures V() == GiveToZone(old(V()), addr, b, k)
    {
      var z := zones[b];
      zones := zones[b := GiveChunk(z, k)];
      if z.nfree == 0 {
        zoneArray := zoneArray[z.zi := [b] + zoneArray[z.zi]];
      }
      live := live - {addr};
    }

    /** A zone that is wholly free, and not the only one of its class with chunks to give, becomes spare. */
    method RetireZone(b: nat)
      requires b in zones && zones[b].zi < |zoneArray|
      modifies this`zones, this`zoneArray, this`zoneFree, this`zoneFreeCnt, this`areas
      ensures V() == Retire(old(V()), b) && zoneFreeCnt == old(zoneFreeCnt) + 1
    {
      var zi := zones[b].zi;
      zoneArray := zoneArray[zi := Without(zoneArray[zi], b)];
      zones := zones - {b};
      zoneFree, zoneFreeCnt := [b] + zoneFree, zoneFreeCnt + 1;
      areas := areas[b := Spare];
    }

    /** With too many spare zones, the first goes back to the page allocator. */
    method ReleaseZone()
      requires pages.Valid() && zonePages > 0 && zoneFree != [] && zoneFree[0] in areas && areas[zoneFree[0]].Spare?
      requires Interval(zoneFree[0], zonePages) <= pages.used
      modifies this`usage, this`zoneFree, this`zoneFreeCnt, this`owner, this`areas, pages
      ensures pages.Valid() && zoneFreeCnt == old(zoneFreeCnt) - 1
      ensures SameElsewhere(old(usage), usage, old(zoneFree)[0], zonePages) && V() == Release(old(V()), usage, zonePages)
    {
      var b := zoneFree[0];
      zoneFree, zoneFreeCnt := zoneFree[1..], zoneFreeCnt - 1;
      usage := MarkFree(usage, b, zonePages);
      pages.Free(b, zonePages);
      owner, areas := owner - Interval(b, zonePages), areas - {b};
    }

    method FreeLarge(addr: nat)
      requires Valid() && addr in live && live[addr].Whole?
      modifies this`usage, this`owner, this`areas, this`live, pages
      ensures Valid() && Blocks(V()) == Blocks(old(V())) - {addr} && live == old(live) - {addr}
      ensures pages.used == old(pages.used) - Interval(addr / PAGE, Blocks(old(V()))[addr] / PAGE)
    {
      ghost var v := V();
      Lookup(v, zonePages, addr);
      assert Backed(v, addr, live[addr]);
      var b := addr / PAGE;
      AreaUsed(v, zonePages, b);
      GiveRunGood(v, b, zonePages);
      GivePages(b);
    }

    /** The zone of a chunk, from the usage table, and its number there. */
    method FindChunk(addr: nat) returns (b: nat, k: nat)
      requires Good(V(), zonePages) && addr in live && live[addr].Chunk?
      ensures Chunk(b, k) == live[addr]
    {
      FoundChunk(V(), zonePages, addr);
      b := ZoneOf(usage, addr);
      k := ChunkAt(zones[b], b, addr);
    }

    /** The first part of freeing a chunk. */
    method FreeToZone(addr: nat) returns (b: nat)
      requires Good(V(), zonePages) && addr in live && live[addr].Chunk?
      modifies this`zones, this`zoneArray, this`live
      ensures Good(V(), zonePages) && Blocks(V()) == Blocks(old(V())) - {addr} && b in zones && zones[b].zi < |zoneArray|
      ensures b == old(live)[addr].b && b in old(zones) && live == old(live) - {addr}
      ensures GaveChunk(b, old(live)[addr].k, old(zones), old(zoneArray))
    {
      ghost var v := V();
      var k;
      b, k := FindChunk(addr);
      GiveToZoneGood(v, zonePages, addr);
      GiveBack(addr, b, k);
      assert V() == GiveToZone(v, addr, b, k);
    }

    /** The second part: a wholly free zone is kept in reserve, or released. */
    method Reduce(b: nat)
      requires Valid() && b in zones && zones[b].zi < |zoneArray|
      modifies this, pages
      ensures Valid() && Blocks(V()) == Blocks(old(V())) && live == old(live)
      ensures Retires(old(zones)[b], b, old(zoneArray)) ==>
        Retired(b, old(zones), old(zoneArray), old(zoneFree), old(pages.used))
      ensures !Retires(old(zones)[b], b, old(zoneArray)) ==>
        zones == old(zones) && zoneArray == old(zoneArray) && zoneFree == old(zoneFree) && pages.used == old(pages.used)
    {
      var z := zones[b];
      if z.nfree == z.nmax && zoneArray[z.zi] != [b] {
        RetireGood(V(), zonePages, b);
        RetireZone(b);
        if zoneFreeCnt > SPARES {
          DropSpare();
        }
      }
    }

    method DropSpare()
      requires zonePages in {8, 16, 32} && pages.Valid() && Good(V(), zonePages) && zoneFreeCnt == |zoneFree| == SPARES + 1
      modifies this`usage, this`zoneFree, this`zoneFreeCnt, this`owner, this`areas, pages
      ensures Valid() && Blocks(V()) == Blocks(old(V())) && live == old(live)
      ensures zoneFree == old(zoneFree)[1..] && pages.used == old(pages.used) - Interval(old(zoneFree)[0], zonePages)
    {
      ghost var v := V();
      assert zoneFree[0] in v.spare && zoneFree[0] in v.areas;
      AreaUsed(v, zonePages, zoneFree[0]);
      ReleaseZone();
      ReleaseGood(v, usage, zonePages);
    }

    /** rt_free: exactly that block goes, and comes back to the zone or the pages that it came from. */
    method FreeMem(ptr: Option<nat>)
      requires Valid() && (ptr.Some? ==> ptr.value in live)
      modifies this, pages
      ensures Valid() && Blocks(V()) == if ptr.Some? then Blocks(old(V())) - {ptr.value} else Blocks(old(V()))
      ensures ptr.None? ==> V() == old(V())
      ensures ptr.Some? ==> live == old(live) - {ptr.value}
      ensures ptr.Some? && old(live)[ptr.value].Whole? ==>
        && pages.used == old(pages.used) - Interval(ptr.value / PAGE, Blocks(old(V()))[ptr.value] / PAGE)
        && zones == old(zones) && zoneArray == old(zoneArray) && zoneFree == old(zoneFree)
      ensures ptr.Some? && old(live)[ptr.value].Chunk? ==>
        Freed(old(live)[ptr.value].b, old(live)[ptr.value].k, old(zones), old(zoneArray), old(zoneFree), old(pages.used))
    {
      if ptr.None? {
        return;
      }
      Lookup(V(), zonePages, ptr.value);
      if usage[ptr.value / PAGE].Large? {
        FreeLarge(ptr.value);
      } else {
        var b := FreeToZone(ptr.value);
        Reduce(b);
      }
    }
  }

  /** In a heap of up to four megabytes at a multiple of 8192, the first 8192 bytes handed out are not so aligned. */
  method PowerUnaligned(start: nat, npages: nat) returns (p: Option<nat>)
    requires start % 8192 == 0 && 3 <= npages <= 1024
    ensures p.Some? && (start + p.value) % 8192 != 0
  {
    var slab := new Slab(npages);
    ghost var list := slab.pages.list;
    SecondPageFree(list, slab.pages.used, npages);
    SmallZones(npages, slab.zonePages);
    p := slab.Malloc(8192);
    assert p.value == 4096 by { LowestIsSecond(list, p.value); }
    OddPage(start);
  }

  lemma OddPage(start: nat)
    requires start % 8192 == 0
    ensures (start + 4096) % 8192 != 0
  {
  }

  lemma LowestIsSecond(list: seq<Run>, p: nat)
    requires LowestPages(list, 2, p) && Fits(list, 1, 2) && !Fits(list, 0, 2)
    ensures p == 4096
  {
    var b: nat :| Lowest(list, 2, b) && p == b * PAGE;
    assert b == 1;
  }

  lemma SmallZones(npages: nat, zp: nat)
    requires npages <= 1024 && ZoneChosen(npages, zp)
    ensures Limit(zp) == 8192 && PagesFor(8192) == 2
  {
    assert zp == 8;
  }

  /** With the usage table on the first page, the lowest two pages in a row begin at the second. */
  lemma SecondPageFree(list: seq<Run>, used: set<nat>, npages: nat)
    requires 3 <= npages <= 1024 && used == Interval(0, TablePages(npages))
    requires Pages(list) !! used && Pages(list) + used == Interval(0, npages)
    ensures Fits(list, 1, 2) && !Fits(list, 0, 2)
  {
    assert TablePages(npages) == 1;
    assert 0 in used && 0 in Interval(0, 2);
  }

  /** Nothing to be had for class zi: no zone with a chunk to give, no spare one, no pages for another. */
  ghost predicate NoZone(zoneArray: seq<seq<nat>>, zoneFree: seq<nat>, list: seq<Run>, zp: nat, zi: int) {
    0 <= zi < |zoneArray| && zoneArray[zi] == [] && zoneFree == [] && NoPages(list, zp)
  }

  /** The bytes granted for a request. */
  function Granted(size: nat, zp: nat): nat {
    if size >= Limit(zp) then PagesFor(size) * PAGE else ZoneSize(size)
  }

  /** Never fewer bytes than asked for. */
  lemma GrantedEnough(size: nat, zp: nat)
    requires zp in {8, 16, 32} && size > 0
    ensures size <= Granted(size, zp)
  {
    if size >= Limit(zp) {
      ManyPages(size);
    } else {
      ClassFits(zp, size);
    }
  }
}
