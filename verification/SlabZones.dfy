/**
  Zones of the slab allocator, rt-thread/kernel/src/slab.c: the size classes of zoneindex, the chunks
  of one zone, and the way from a chunk back to its zone.
 */
module SlabZones {
  import opened Queues

  const NZONES: nat := 72
  const PAGE: nat := 4096

  // ----- zoneindex -----

  function RoundUp(n: nat, k: nat): nat
    requires k > 0
  {
    (n + k - 1) / k * k
  }

  /** Granularity of the size class of n. */
  function Grain(n: nat): (g: nat)
    ensures g > 0
  {
    if n < 128 then 8
    else if n < 256 then 16
    else if n < 512 then 32
    else if n < 1024 then 64
    else if n < 2048 then 128
    else if n < 4096 then 256
    else if n < 8192 then 512
    else 1024
  }

  /** The rounded size that zoneindex writes back. */
  function ZoneSize(n: nat): nat {
    if n < 16384 then RoundUp(n, Grain(n)) else n
  }

  /** The index it returns. */
  function ZoneIndex(n: nat): int {
    var s := ZoneSize(n);
    if n < 128 then s / 8 - 1
    else if n < 256 then s / 16 + 7
    else if n < 512 then s / 32 + 15
    else if n < 1024 then s / 64 + 23
    else if n < 2048 then s / 128 + 31
    else if n < 4096 then s / 256 + 39
    else if n < 8192 then s / 512 + 47
    else if n < 16384 then s / 1024 + 55
    else 0
  }

  /** The chunk size that belongs to an index. */
  function ChunkSize(zi: nat): nat {
    if zi <= 15 then 8 * (zi + 1)
    else if zi <= 23 then 16 * (zi - 7)
    else if zi <= 31 then 32 * (zi - 15)
    else if zi <= 39 then 64 * (zi - 23)
    else if zi <= 47 then 128 * (zi - 31)
    else if zi <= 55 then 256 * (zi - 39)
    else if zi <= 63 then 512 * (zi - 47)
    else 1024 * (zi - 55)
  }

  /** The number of grains in the rounded size. */
  function Grains(n: nat): nat {
    (n + Grain(n) - 1) / Grain(n)
  }

  lemma GrainsBound(n: nat)
    requires n < 16384
    ensures var g, q := Grain(n), Grains(n);
      ZoneSize(n) == q * g && ZoneSize(n) / g == q && n <= q * g < n + g
  {
    var g := Grain(n);
    RoundFacts(n, g);
  }

  lemma RoundFacts(n: nat, k: nat)
    requires k in {8, 16, 32, 64, 128, 256, 512, 1024}
    ensures var q := (n + k - 1) / k; n <= q * k < n + k && q * k / k == q
  {
  }

  /** In range, never rounded down, and little wasted. */
  lemma ZoneBounds(n: nat)
    requires 1 <= n < 16384
    ensures 0 <= ZoneIndex(n) < NZONES
    ensures n <= ZoneSize(n) && ZoneSize(n) < n + Grain(n)
    ensures n >= 128 ==> 8 * (ZoneSize(n) - n) < n
  {
    GrainsBound(n);
    ClassOf(n, Grains(n));
  }

  /** Where a size lies with respect to its grain. */
  lemma ClassOf(n: nat, q: nat)
    requires 1 <= n < 16384 && q == Grains(n) && n <= q * Grain(n) < n + Grain(n)
    ensures n < 128 ==> 1 <= q <= 16
    ensures n >= 128 ==> 8 <= q <= 16 && 8 * Grain(n) <= n
  {
    assert n < 128 ==> q * 8 < 136;
  }

  /** The least multiple of g that is not below n. */
  predicate LeastMultiple(s: nat, n: nat, g: nat)
    requires g > 0
  {
    s % g == 0 && n <= s < n + g
  }

  /** The table of zoneindex, range by range. */
  lemma ZoneTable(n: nat)
    ensures n < 128 ==> LeastMultiple(ZoneSize(n), n, 8) && ZoneIndex(n) == (n + 7) / 8 - 1
    ensures 128 <= n < 256 ==> LeastMultiple(ZoneSize(n), n, 16) && ZoneIndex(n) == (n + 15) / 16 + 7
    ensures 256 <= n < 512 ==> LeastMultiple(ZoneSize(n), n, 32) && ZoneIndex(n) == (n + 31) / 32 + 15
    ensures 512 <= n < 1024 ==> LeastMultiple(ZoneSize(n), n, 64) && ZoneIndex(n) == (n + 63) / 64 + 23
    ensures 1024 <= n < 2048 ==> LeastMultiple(ZoneSize(n), n, 128) && ZoneIndex(n) == (n + 127) / 128 + 31
    ensures 2048 <= n < 4096 ==> LeastMultiple(ZoneSize(n), n, 256) && ZoneIndex(n) == (n + 255) / 256 + 39
    ensures 4096 <= n < 8192 ==> LeastMultiple(ZoneSize(n), n, 512) && ZoneIndex(n) == (n + 511) / 512 + 47
    ensures 8192 <= n < 16384 ==> LeastMultiple(ZoneSize(n), n, 1024) && ZoneIndex(n) == (n + 1023) / 1024 + 55
    ensures n >= 16384 ==> ZoneSize(n) == n && ZoneIndex(n) == 0
  {
    if n < 16384 {
      GrainsBound(n);
    }
  }

  /** The index alone determines the chunk size, also where two ranges of sizes meet. */
  lemma IndexGivesSize(n: nat)
    requires 1 <= n < 16384
    ensures ZoneIndex(n) >= 0 && ZoneSize(n) == ChunkSize(ZoneIndex(n))
  {
    GrainsBound(n);
    ClassOf(n, Grains(n));
  }

  lemma ChunkSizeMonotone(a: nat, b: nat)
    requires a < b < 72
    ensures ChunkSize(a) < ChunkSize(b)
  {
  }

  /** Larger requests have larger classes, and a class has one size. */
  lemma ZoneMonotone(m: nat, n: nat)
    requires 1 <= m <= n < 16384
    ensures ZoneIndex(m) <= ZoneIndex(n) && ZoneSize(m) <= ZoneSize(n)
    ensures ZoneIndex(m) == ZoneIndex(n) <==> ZoneSize(m) == ZoneSize(n)
  {
    ZoneBounds(m);
    ZoneBounds(n);
    IndexGivesSize(m);
    IndexGivesSize(n);
    SizeMonotone(m, n);
    if ZoneIndex(m) < ZoneIndex(n) {
      ChunkSizeMonotone(ZoneIndex(m), ZoneIndex(n));
    } else if ZoneIndex(n) < ZoneIndex(m) {
      ChunkSizeMonotone(ZoneIndex(n), ZoneIndex(m));
    }
  }

  lemma SizeMonotone(m: nat, n: nat)
    requires 1 <= m <= n < 16384
    ensures ZoneSize(m) <= ZoneSize(n)
  {
    if Grain(m) == Grain(n) {
      RoundMonotone(m, n, Grain(m));
    } else {
      ClassTop(m);
    }
  }

  lemma RoundMonotone(m: nat, n: nat, k: nat)
    requires m <= n && k in {8, 16, 32, 64, 128, 256, 512, 1024}
    ensures RoundUp(m, k) <= RoundUp(n, k)
  {
  }

  /** Rounding does not leave the range of sizes with one grain, except to its end. */
  lemma ClassTop(m: nat)
    requires 1 <= m < 16384
    ensures forall n: nat :: m <= n < 16384 && Grain(n) != Grain(m) ==> ZoneSize(m) <= n <= ZoneSize(n)
  {
    forall n: nat | m <= n < 16384 && Grain(n) != Grain(m) ensures ZoneSize(m) <= n <= ZoneSize(n) {
      ZoneBounds(n);
    }
  }

  /** Rounding a rounded size changes nothing, so rt_realloc may pass it on to rt_malloc. */
  lemma ZoneIdempotent(n: nat)
    requires 1 <= n < 16384 && ZoneSize(n) < 16384
    ensures ZoneSize(ZoneSize(n)) == ZoneSize(n) && ZoneIndex(ZoneSize(n)) == ZoneIndex(n)
  {
    ZoneBounds(n);
    GrainsBound(n);
    ClassOf(n, Grains(n));
    var s, q, g := ZoneSize(n), Grains(n), Grain(n);
    if q < 16 {
      assert Grain(s) == g;
      RoundExact(q, g);
    } else {
      assert Grain(s) == 2 * g && s == 8 * (2 * g);
      RoundExact(8, 2 * g);
    }
    ZoneMonotone(n, s);
  }

  lemma RoundExact(q: nat, k: nat)
    requires k in {8, 16, 32, 64, 128, 256, 512, 1024}
    ensures RoundUp(q * k, k) == q * k
  {
    if k == 8 {
      assert (q * 8 + 7) / 8 == q;
    } else if k == 16 {
      assert (q * 16 + 15) / 16 == q;
    } else if k == 32 {
      assert (q * 32 + 31) / 32 == q;
    } else if k == 64 {
      assert (q * 64 + 63) / 64 == q;
    } else if k == 128 {
      assert (q * 128 + 127) / 128 == q;
    } else if k == 256 {
      assert (q * 256 + 255) / 256 == q;
    } else if k == 512 {
      assert (q * 512 + 511) / 512 == q;
    } else {
      assert (q * 1024 + 1023) / 1024 == q;
    }
  }

  // ----- Chunks of one zone -----

  /** sizeof(slab_zone): nine words. */
  const HEADER: nat := 36

  predicate PowerOfTwo(size: nat) {
    size in {8, 16, 32, 64, 128, 256, 512, 1024, 2048, 4096, 8192, 16384}
  }

  /** Where the chunks of a new zone begin: aligned to their size if that is a power of two, else to 8. */
  function FirstChunk(size: nat): nat
    requires size > 0
  {
    if PowerOfTwo(size) then RoundUp(HEADER, size) else RoundUp(HEADER, 8)
  }

  /** The first multiple of the size, or of 8, behind the header of 36 bytes. */
  lemma FirstChunkLeast(size: nat)
    requires size > 0
    ensures if PowerOfTwo(size) then LeastMultiple(FirstChunk(size), 36, size) else FirstChunk(size) == 40
  {
    if PowerOfTwo(size) {
      FirstMultiple(size);
    }
  }

  lemma FirstChunkBound(size: nat)
    requires size > 0
    ensures HEADER <= FirstChunk(size) && (FirstChunk(size) <= 64 || FirstChunk(size) == size)
  {
    if PowerOfTwo(size) && size >= 64 {
      assert (HEADER + size - 1) / size == 1;
    }
  }

  /** Distances from the start of the zone keep the alignment: to the chunk size if a power of two, to 8 in any case. */
  lemma ChunkAligned(x: nat, zi: nat, k: nat)
    requires zi < NZONES
    ensures var s := ChunkSize(zi);
      && s > 0 && (PowerOfTwo(s) ==> (x + FirstChunk(s) + k * s) % s == x % s)
      && (x % 8 == 0 ==> (x + FirstChunk(s) + k * s) % 8 == 0)
  {
    var s := ChunkSize(zi);
    EightAligned(x, zi, k);
    if PowerOfTwo(s) {
      FirstMultiple(s);
      var f := FirstChunk(s) / s;
      assert (f + k) * s == FirstChunk(s) + k * s;
      MultipleShift(x, f + k, s);
    }
  }

  lemma EightAligned(x: nat, zi: nat, k: nat)
    requires zi < NZONES
    ensures var s := ChunkSize(zi); s > 0 && (x % 8 == 0 ==> (x + FirstChunk(s) + k * s) % 8 == 0)
  {
    var s, q := ChunkSize(zi), Eighths(zi);
    assert FirstChunk(s) % 8 == 0 by {
      if PowerOfTwo(s) {
        FirstMultiple(s);
      }
    }
    assert k * s == 8 * (k * q);
    EightSum(x, FirstChunk(s), k * q);
  }

  /** All chunk sizes are multiples of eight. */
  function Eighths(zi: nat): (q: nat)
    ensures ChunkSize(zi) == 8 * q && q > 0
  {
    if zi <= 15 then zi + 1
    else if zi <= 23 then 2 * (zi - 7)
    else if zi <= 31 then 4 * (zi - 15)
    else if zi <= 39 then 8 * (zi - 23)
    else if zi <= 47 then 16 * (zi - 31)
    else if zi <= 55 then 32 * (zi - 39)
    else if zi <= 63 then 64 * (zi - 47)
    else 128 * (zi - 55)
  }

  lemma EightSum(x: nat, f: nat, n: nat)
    requires f % 8 == 0
    ensures x % 8 == 0 ==> (x + f + 8 * n) % 8 == 0
  {
  }

  lemma FirstMultiple(s: nat)
    requires PowerOfTwo(s)
    ensures FirstChunk(s) / s * s == FirstChunk(s) && FirstChunk(s) % 8 == 0 && FirstChunk(s) % s == 0
  {
  }

  lemma MultipleShift(x: nat, q: nat, s: nat)
    requires s > 0
    ensures (x + q * s) % s == x % s
  {
    var y := x + q * s;
    var n := y / s - q - x / s;
    assert y == y / s * s + y % s && x == x / s * s + x % s;
    assert n * s == x % s - y % s;
    if n != 0 {
      LargeFactor(n, s);
    }
  }

  lemma LargeFactor(n: int, s: nat)
    requires n != 0 && s > 0
    ensures n * s >= s || n * s + s <= 0
  {
    if n > 0 {
      assert (n - 1) * s >= 0;
    } else {
      assert (-1 - n) * s >= 0;
    }
  }

  /** A zone of at least four times the chunk size holds at least three chunks. */
  lemma RoomForThree(size: nat, zoneSize: nat)
    requires size >= 8 && 4 * size <= zoneSize && zoneSize >= 0x8000
    ensures FirstChunk(size) <= zoneSize && (zoneSize - FirstChunk(size)) / size >= 3
  {
    FirstChunkBound(size);
    var room := zoneSize - FirstChunk(size);
    if size < 64 {
      assert room >= 3 * size;
    }
    AtLeast(room, size, 3);
  }

  lemma AtLeast(a: nat, k: nat, q: nat)
    requires k > 0 && a >= q * k
    ensures a / k >= q && a / k * k <= a
  {
    var d, r := a / k, a % k;
    assert a == k * d + r;
    assert d + 1 <= q ==> (d + 1) * k <= q * k;
  }

  /** The chunks up to uindex that are not on the free list. */
  ghost function LiveChunks(uindex: nat, free: seq<nat>): (r: set<nat>)
    ensures forall k: nat :: k in r <==> k <= uindex && k !in free
  {
    ChunksTo(uindex) - Elements(free)
  }

  lemma LiveNext(uindex: nat, free: seq<nat>)
    requires forall k :: k in free ==> k <= uindex
    ensures LiveChunks(uindex + 1, free) == LiveChunks(uindex, free) + {uindex + 1} && uindex + 1 !in LiveChunks(uindex, free)
  {
  }

  lemma LivePop(uindex: nat, free: seq<nat>)
    requires free != [] && NoDup(free) && free[0] <= uindex
    ensures LiveChunks(uindex, free[1..]) == LiveChunks(uindex, free) + {free[0]} && free[0] !in LiveChunks(uindex, free)
    ensures NoDup(free[1..]) && forall k :: k in free[1..] ==> k in free
  {
    assert free == [free[0]] + free[1..] && free[0] !in free[1..];
  }

  lemma LivePush(uindex: nat, free: seq<nat>, k: nat)
    requires k in LiveChunks(uindex, free) && NoDup(free)
    ensures LiveChunks(uindex, [k] + free) == LiveChunks(uindex, free) - {k} && NoDup([k] + free)
  {
  }

  /** All chunks handed out are back exactly when none is in use. */
  lemma LiveNone(uindex: nat, free: seq<nat>)
    requires NoDup(free) && forall k :: k in free ==> k <= uindex
    ensures |free| == uindex + 1 <==> LiveChunks(uindex, free) == {}
  {
    var all, f := ChunksTo(uindex), Elements(free);
    ChunksToSize(uindex);
    if LiveChunks(uindex, free) == {} {
      assert f == all;
    } else {
      var k :| k in LiveChunks(uindex, free);
      SubsetSize(f, all - {k});
    }
  }

  /** The zone header: chunks up to uindex have been handed out at least once, and free links the returned ones. */
  datatype Zone = Zone(zi: nat, chunkSize: nat, off: nat, nmax: nat, nfree: int, uindex: nat, free: seq<nat>)

  /** The chunks lie behind the header, inside the zone, from where a new zone has them. */
  ghost predicate Shaped(zi: nat, chunkSize: nat, off: nat, nmax: nat, zoneSize: nat) {
    && zi < NZONES && chunkSize == ChunkSize(zi) && HEADER <= off && off + nmax * chunkSize <= zoneSize
    && forall s: nat {:trigger FirstChunk(s)} :: s == chunkSize && s > 0 ==> off == FirstChunk(s)
  }

  /** nfree counts the chunks never used and those returned. */
  ghost predicate Counted(uindex: nat, free: seq<nat>, nmax: nat, nfree: int) {
    && uindex < nmax && NoDup(free) && (forall k :: k in free ==> k <= uindex)
    && nfree == (nmax - 1 - uindex) + |free|
  }

  ghost predicate ZoneOk(z: Zone, zoneSize: nat) {
    Shaped(z.zi, z.chunkSize, z.off, z.nmax, zoneSize) && Counted(z.uindex, z.free, z.nmax, z.nfree)
  }

  /** The chunks in use. */
  ghost function ZoneLive(z: Zone): set<nat> {
    LiveChunks(z.uindex, z.free)
  }

  /** A new zone, whose first chunk is handed out at once. */
  function NewZone(zi: nat, size: nat, zoneSize: nat): Zone
    requires size > 0 && FirstChunk(size) <= zoneSize
  {
    var nmax := (zoneSize - FirstChunk(size)) / size;
    Zone(zi, size, FirstChunk(size), nmax, nmax - 1, 0, [])
  }

  lemma NewZoneOk(zi: nat, size: nat, zoneSize: nat)
    requires zi < NZONES && size == ChunkSize(zi) && 4 * size <= zoneSize && zoneSize >= 0x8000
    ensures FirstChunk(size) <= zoneSize
    ensures var z := NewZone(zi, size, zoneSize); ZoneOk(z, zoneSize) && ZoneLive(z) == {0} && z.nfree > 0
  {
    RoomForThree(size, zoneSize);
    AtLeast(zoneSize - FirstChunk(size), size, 3);
  }

  /** It holds as many chunks as fit. */
  lemma NewZoneFull(zi: nat, size: nat, zoneSize: nat)
    requires size > 0 && FirstChunk(size) <= zoneSize
    ensures var z := NewZone(zi, size, zoneSize);
      z.zi == zi && z.off + z.nmax * size <= zoneSize < z.off + (z.nmax + 1) * size
  {
    var room := zoneSize - FirstChunk(size);
    var q := room / size;
    assert room == size * q + room % size;
    assert (q + 1) * size == q * size + size;
  }

  /** rt_malloc from a zone with nfree > 0: never-used space first, then the free list. */
  function TakeChunk(z: Zone): (Zone, nat)
    requires z.uindex + 1 != z.nmax || z.free != []
  {
    if z.uindex + 1 != z.nmax then (z.(nfree := z.nfree - 1, uindex := z.uindex + 1), z.uindex + 1)
    else (z.(nfree := z.nfree - 1, free := z.free[1..]), z.free[0])
  }

  /** While nfree says so there is a chunk to take, and it was not in use. */
  lemma TakeOk(z: Zone, zoneSize: nat)
    requires ZoneOk(z, zoneSize) && z.nfree > 0
    ensures z.uindex + 1 != z.nmax || z.free != []
    ensures var (z', k) := TakeChunk(z);
      && ZoneOk(z', zoneSize) && z'.nfree == z.nfree - 1 && k !in ZoneLive(z) && ZoneLive(z') == ZoneLive(z) + {k}
  {
    if z.uindex + 1 != z.nmax {
      CountedNext(z.uindex, z.free, z.nmax, z.nfree);
    } else {
      CountedPop(z.uindex, z.free, z.nmax, z.nfree);
    }
  }

  lemma CountedNext(uindex: nat, free: seq<nat>, nmax: nat, nfree: int)
    requires Counted(uindex, free, nmax, nfree) && uindex + 1 != nmax
    ensures Counted(uindex + 1, free, nmax, nfree - 1)
    ensures LiveChunks(uindex + 1, free) == LiveChunks(uindex, free) + {uindex + 1} && uindex + 1 !in LiveChunks(uindex, free)
  {
    LiveNext(uindex, free);
  }

  lemma CountedPop(uindex: nat, free: seq<nat>, nmax: nat, nfree: int)
    requires Counted(uindex, free, nmax, nfree) && uindex + 1 == nmax && nfree > 0
    ensures free != [] && free[0] < nmax && Counted(uindex, free[1..], nmax, nfree - 1)
    ensures LiveChunks(uindex, free[1..]) == LiveChunks(uindex, free) + {free[0]} && free[0] !in LiveChunks(uindex, free)
  {
    assert free[0] in free;
    LivePop(uindex, free);
  }

  /** rt_free of a chunk. */
  function GiveChunk(z: Zone, k: nat): Zone {
    z.(nfree := z.nfree + 1, free := [k] + z.free)
  }

  lemma GiveOk(z: Zone, zoneSize: nat, k: nat)
    requires ZoneOk(z, zoneSize) && k in ZoneLive(z)
    ensures ZoneOk(GiveChunk(z, k), zoneSize) && ZoneLive(GiveChunk(z, k)) == ZoneLive(z) - {k}
  {
    LivePush(z.uindex, z.free, k);
    CountedGive(z.uindex, z.free, z.nmax, z.nfree, k);
  }

  lemma CountedGive(uindex: nat, free: seq<nat>, nmax: nat, nfree: int, k: nat)
    requires Counted(uindex, free, nmax, nfree) && k in LiveChunks(uindex, free)
    ensures Counted(uindex, [k] + free, nmax, nfree + 1)
  {
    LivePush(uindex, free, k);
  }

  /** The zone is wholly free exactly when no chunk is in use. */
  lemma WhollyFree(z: Zone, zoneSize: nat)
    requires ZoneOk(z, zoneSize)
    ensures z.nfree == z.nmax <==> ZoneLive(z) == {}
  {
    LiveNone(z.uindex, z.free);
  }

  /** A chunk in use lies behind the header, inside the zone. */
  lemma ChunkInside(z: Zone, zoneSize: nat, k: nat)
    requires ZoneOk(z, zoneSize) && k in ZoneLive(z)
    ensures HEADER <= z.off && z.off + (k + 1) * z.chunkSize <= zoneSize && z.chunkSize > 0
  {
    InZone(k, z.nmax, z.chunkSize, z.off, zoneSize);
  }

  lemma InZone(k: nat, nmax: nat, chunk: nat, off: nat, zoneSize: nat)
    requires k < nmax && off + nmax * chunk <= zoneSize
    ensures off + (k + 1) * chunk <= zoneSize
  {
    assert (k + 1) * chunk <= nmax * chunk;
  }

  ghost function ChunksTo(n: nat): (r: set<nat>)
    ensures forall k: nat :: k in r <==> k <= n
  {
    if n == 0 then {0} else ChunksTo(n - 1) + {n}
  }

  lemma {:induction false} ChunksToSize(n: nat)
    ensures |ChunksTo(n)| == n + 1
  {
    if n > 0 {
      ChunksToSize(n - 1);
    }
  }

  /** Different chunks of a zone do not meet. */
  lemma ChunksApart(j: nat, k: nat, off: nat, chunk: nat)
    requires j < k
    ensures off + j * chunk + chunk <= off + k * chunk
  {
    assert (j + 1) * chunk <= k * chunk;
  }

  // ----- From a chunk back to its zone -----

  datatype Usage = Free | Small(offset: nat) | Large(pages: nat)

  /** Every page of the zone that begins at page b says how far it is from b. */
  ghost predicate Marked(usage: map<nat, Usage>, b: nat, zonePages: nat) {
    forall p :: b <= p < b + zonePages ==> p in usage && usage[p] == Small(p - b)
  }

  /** The loop of rt_malloc that describes the pages of a new zone. */
  method MarkZone(usage: map<nat, Usage>, b: nat, zonePages: nat) returns (r: map<nat, Usage>)
    ensures Marked(r, b, zonePages)
    ensures forall p :: p in usage && !(b <= p < b + zonePages) ==> p in r && r[p] == usage[p]
  {
    r := usage;
    var off := 0;
    while off < zonePages
      invariant 0 <= off <= zonePages
      invariant Marked(r, b, off)
      invariant forall p :: p in usage && !(b <= p < b + zonePages) ==> p in r && r[p] == usage[p]
    {
      r := r[b + off := Small(off)];
      off := off + 1;
    }
  }

  /** The zone rt_free finds for an address: its page, less what the page's entry says. */
  function ZoneOf(usage: map<nat, Usage>, addr: nat): int
    requires addr / PAGE in usage && usage[addr / PAGE].Small?
  {
    addr / PAGE - usage[addr / PAGE].offset
  }

  /** Every chunk of a marked zone leads back to that zone. */
  lemma LookupFindsZone(usage: map<nat, Usage>, b: nat, zonePages: nat, off: nat, chunk: nat, k: nat)
    requires Marked(usage, b, zonePages) && chunk > 0 && off + (k + 1) * chunk <= zonePages * PAGE
    ensures var addr := b * PAGE + off + k * chunk;
      addr / PAGE in usage && usage[addr / PAGE].Small? && ZoneOf(usage, addr) == b
  {
    var inside := off + k * chunk;
    assert (k + 1) * chunk == k * chunk + chunk;
    var i := inside / 4096;
    assert (b * 4096 + inside) / 4096 == b + i;
    assert i < zonePages;
    assert b + i in usage && usage[b + i] == Small(i);
  }
}
