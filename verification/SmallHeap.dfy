/** The allocator object of rt-thread/kernel/src/mem.c over the block theory of HeapBlocks. */
module SmallHeap {
  import opened Wrappers
  import opened HeapBlocks
  import opened Memory

  /** A pointer as the distance from heap_ptr; it may lie outside the heap. */
  datatype Ptr = Null | At(off: int)

  ghost predicate Free(h: Headers, bs: set<nat>, b: nat)
    requires bs <= h.Keys
  {
    b in bs && !h[b].used
  }

  /** Block b is free and has room for n user bytes. */
  ghost predicate Fits(h: Headers, bs: set<nat>, b: nat, n: nat)
    requires bs <= h.Keys
  {
    Free(h, bs, b) && h[b].next - (b + SIZEOF_STRUCT_MEM) >= n
  }

  function Redirect(p: nat, from: nat, to: nat): nat { if p == from then to else p }

  /** Memory after a header has been written at p: the bytes under it are lost. */
  function Stamp(bytes: seq<int>, p: nat): (r: seq<int>)
    requires p + SIZEOF_HEADER <= |bytes|
    ensures |r| == |bytes|
    ensures forall i :: 0 <= i < |bytes| && !(p <= i < p + SIZEOF_HEADER) ==> r[i] == bytes[i]
  {
    seq(|bytes|, i requires 0 <= i < |bytes| => if p <= i < p + SIZEOF_HEADER then 0 else bytes[i])
  }

  /** A header never lies over user bytes of a live block. */
  lemma StampKeepsUser(h: Headers, bs: set<nat>, end: nat, bytes: seq<int>, p: nat, keep: map<nat, int>)
    requires Tiling(h, bs, end) && |bytes| == end + SIZEOF_STRUCT_MEM && p in bs
    requires KeepFits(h, bs, end, keep)
    ensures p + SIZEOF_STRUCT_MEM <= |bytes|
    ensures KeepsUser(bytes, Stamp(bytes, p), keep)
  {
    forall b: nat, i | InUser(keep, b, i) ensures !(p <= i < p + SIZEOF_HEADER) {
      assert b in bs;
      assert BlockOk(h, bs, end, b) && BlockOk(h, bs, end, p);
      assert b < p ==> Before(h, b, p);
      assert p < b ==> Before(h, p, b);
    }
  }

  lemma KeepsUserTrans(a: seq<int>, b: seq<int>, c: seq<int>, keep: map<nat, int>)
    requires KeepsUser(a, b, keep) && KeepsUser(b, c, keep)
    ensures KeepsUser(a, c, keep)
  {
    forall p, i | InUser(keep, p, i) && 0 <= i < |a| ensures c[i] == a[i] {
      assert b[i] == a[i];
    }
  }

  /** The blocks tile the heap, no two neighbours are free, lfree is the lowest free one, the books are right. */
  ghost predicate Sound(h: Headers, bs: set<nat>, end: nat, lfree: nat, used: int) {
    && Tiling(h, bs, end) && Coalesced(h, bs) && LowestFree(h, bs, end, lfree)
    && used == UsedSum(h, bs)
  }

  /** The same just after block mem has been handed out, when lfree may still point to it. */
  ghost predicate SoundTaken(h: Headers, bs: set<nat>, end: nat, lfree: nat, used: int, mem: nat) {
    && Tiling(h, bs, end) && Coalesced(h, bs) && used == UsedSum(h, bs)
    && lfree in bs && NothingFreeBelow(h, bs, lfree) && (mem == lfree || !h[lfree].used)
  }

  class Heap {
    const memSize: nat
    var hdr: Headers
    var bytes: seq<int>
    var lfree: nat
    var usedMem: int
    var maxMem: int
    ghost var blocks: set<nat>

    function HeapEnd(): nat { memSize + SIZEOF_STRUCT_MEM }

    ghost predicate Valid()
      reads this
    {
      && Sound(hdr, blocks, HeapEnd(), lfree, usedMem)
      && usedMem <= maxMem
      && |bytes| == HeapEnd() + SIZEOF_STRUCT_MEM
    }

    ghost function LiveBlocks(): map<nat, int>
      requires blocks <= hdr.Keys
      reads this
    {
      Live(hdr, blocks, HeapEnd())
    }

    /** rt_system_heap_init on [begin, end) once both ends have been aligned and found to fit. */
    constructor (size: nat, memory: seq<int>)
      requires size % 16 == 0 && |memory| == size + 2 * SIZEOF_STRUCT_MEM
      ensures Valid() && memSize == size
      ensures LiveBlocks() == map[] && usedMem == maxMem == 0
      ensures blocks == {0, HeapEnd()} && hdr == map[0 := Header(false, HeapEnd(), 0), HeapEnd() := Header(true, HeapEnd(), HeapEnd())]
    {
      memSize := size;
      var end := size + SIZEOF_STRUCT_MEM;
      hdr := map[0 := Header(false, end, 0), end := Header(true, end, end)];
      bytes := memory;
      lfree, usedMem, maxMem := 0, 0, 0;
      blocks := {0, end};
      new;
      assert BlockOk(hdr, blocks, HeapEnd(), 0);
      assert BlockOk(hdr, blocks, HeapEnd(), HeapEnd());
      UsedSumRemove(hdr, blocks, 0);
      UsedSumRemove(hdr, blocks - {0}, HeapEnd());
      assert blocks - {0} - {HeapEnd()} == {};
    }

    /** Store a header; whatever user data lay there is gone. */
    method PutHeader(p: nat, h: Header)
      requires p + SIZEOF_HEADER <= |bytes|
      modifies this`hdr, this`bytes
      ensures hdr == old(hdr)[p := h]
      ensures bytes == Stamp(old(bytes), p)
    {
      hdr := hdr[p := h];
      bytes := Stamp(bytes, p);
    }

    /** Cut block b at p2, as both rt_malloc and the shrinking path of rt_realloc do. */
    method Split(b: nat, p2: nat)
      requires CanSplit(hdr, blocks, HeapEnd(), b, p2)
      requires |bytes| == HeapEnd() + SIZEOF_STRUCT_MEM
      modifies this`hdr, this`bytes, this`blocks
      ensures p2 !in old(blocks) && old(hdr)[b].next in old(hdr) && p2 !in {b, old(hdr)[b].next}
      ensures hdr == SplitHeaders(old(hdr), HeapEnd(), b, p2)
      ensures blocks == old(blocks) + {p2}
      ensures KeepsUser(old(bytes), bytes, old(LiveBlocks())[b := p2 - b - SIZEOF_STRUCT_MEM])
    {
      ghost var h0, bs0, m0 := hdr, blocks, bytes;
      ghost var keep := LiveBlocks()[b := p2 - b - SIZEOF_STRUCT_MEM];
      SplitTiling(hdr, blocks, HeapEnd(), b, p2);
      ghost var g, gs := SplitHeaders(h0, HeapEnd(), b, p2), bs0 + {p2};
      assert KeepFits(g, gs, HeapEnd(), keep) by { SplitLive(h0, bs0, HeapEnd(), b, p2); }
      var nx := hdr[b].next;
      assert p2 in gs && b in gs && nx in gs by { assert BlockOk(h0, bs0, HeapEnd(), b); }
      StampKeepsUser(g, gs, HeapEnd(), bytes, p2, keep);
      PutHeader(p2, Header(false, nx, b));
      ghost var m1 := bytes;
      StampKeepsUser(g, gs, HeapEnd(), bytes, b, keep);
      PutHeader(b, Header(true, p2, hdr[b].prev));
      KeepsUserTrans(m0, m1, bytes, keep);
      ghost var m2 := bytes;
      if nx != HeapEnd() {
        StampKeepsUser(g, gs, HeapEnd(), bytes, nx, keep);
        PutHeader(nx, hdr[nx].(prev := p2));
        KeepsUserTrans(m0, m2, bytes, keep);
      }
      blocks := blocks + {p2};
    }

    /** Let free block b swallow the free block behind it. */
    method Absorb(b: nat)
      requires CanMerge(hdr, blocks, HeapEnd(), b)
      requires |bytes| == HeapEnd() + SIZEOF_STRUCT_MEM
      modifies this`hdr, this`bytes, this`blocks
      ensures old(hdr)[old(hdr)[b].next].next in old(hdr)
      ensures hdr == MergeHeaders(old(hdr), b)
      ensures blocks == old(blocks) - {old(hdr)[b].next}
      ensures KeepsUser(old(bytes), bytes, old(LiveBlocks()))
    {
      ghost var h0, bs0, m0, keep := hdr, blocks, bytes, LiveBlocks();
      MergeNext(hdr, blocks, HeapEnd(), b);
      var n := hdr[b].next;
      var nn := hdr[n].next;
      StampKeepsUser(h0, bs0, HeapEnd(), bytes, b, keep);
      PutHeader(b, hdr[b].(next := nn));
      ghost var m1 := bytes;
      StampKeepsUser(h0, bs0, HeapEnd(), bytes, nn, keep);
      PutHeader(nn, hdr[nn].(prev := b));
      KeepsUserTrans(m0, m1, bytes, keep);
      blocks := blocks - {n};
    }

    /** plug_holes: join a just-freed block with free neighbours. */
    method PlugHoles(mem: nat)
      requires Tiling(hdr, blocks, HeapEnd()) && |bytes| == HeapEnd() + SIZEOF_STRUCT_MEM
      requires mem in blocks && mem != HeapEnd() && !hdr[mem].used
      requires CoalescedBut(hdr, blocks, mem)
      requires LowestFree(hdr, blocks, HeapEnd(), lfree)
      modifies this`hdr, this`bytes, this`blocks, this`lfree
      ensures Tiling(hdr, blocks, HeapEnd()) && Coalesced(hdr, blocks)
      ensures LowestFree(hdr, blocks, HeapEnd(), lfree)
      ensures LiveBlocks() == old(LiveBlocks())
      ensures UsedSum(hdr, blocks) == old(UsedSum(hdr, blocks))
      ensures KeepsUser(old(bytes), bytes, old(LiveBlocks()))
    {
      PlugForward(mem);
      label afterForward:
      ghost var m1 := bytes;
      assert pred: BlockOk(hdr, blocks, HeapEnd(), mem);
      var pmem := hdr[mem].prev;
      if pmem != mem && !hdr[pmem].used {
        assert CanMerge(hdr, blocks, HeapEnd(), pmem);
        MergeTiling(hdr, blocks, HeapEnd(), pmem);
        MergeLive(hdr, blocks, HeapEnd(), pmem);
        MergeNext(hdr, blocks, HeapEnd(), pmem);
        MergeSum(hdr, blocks, pmem);
        MergeLowest(hdr, blocks, HeapEnd(), pmem, lfree);
        MergeBackward(hdr, blocks, HeapEnd(), pmem);
        lfree := Redirect(lfree, mem, pmem);
        Absorb(pmem);
        KeepsUserTrans(old(bytes), m1, bytes, old(LiveBlocks()));
      } else {
        NothingBefore(hdr, blocks, HeapEnd(), mem);
      }
    }

    /** The forward half of plug_holes. */
    method PlugForward(mem: nat)
      requires Tiling(hdr, blocks, HeapEnd()) && |bytes| == HeapEnd() + SIZEOF_STRUCT_MEM
      requires mem in blocks && mem != HeapEnd() && !hdr[mem].used
      requires CoalescedBut(hdr, blocks, mem)
      requires LowestFree(hdr, blocks, HeapEnd(), lfree)
      modifies this`hdr, this`bytes, this`blocks, this`lfree
      ensures Tiling(hdr, blocks, HeapEnd()) && |bytes| == HeapEnd() + SIZEOF_STRUCT_MEM
      ensures mem in blocks && !hdr[mem].used && hdr[mem].prev == old(hdr[mem].prev)
      ensures CoalescedButBefore(hdr, blocks, mem)
      ensures LowestFree(hdr, blocks, HeapEnd(), lfree)
      ensures LiveBlocks() == old(LiveBlocks())
      ensures UsedSum(hdr, blocks) == old(UsedSum(hdr, blocks))
      ensures KeepsUser(old(bytes), bytes, old(LiveBlocks()))
    {
      assert BlockOk(hdr, blocks, HeapEnd(), mem);
      var nmem := hdr[mem].next;
      if mem != nmem && !hdr[nmem].used && nmem != HeapEnd() {
        MergeTiling(hdr, blocks, HeapEnd(), mem);
        MergeLive(hdr, blocks, HeapEnd(), mem);
        MergeNext(hdr, blocks, HeapEnd(), mem);
        MergeSum(hdr, blocks, mem);
        MergeLowest(hdr, blocks, HeapEnd(), mem, lfree);
        MergeForward(hdr, blocks, HeapEnd(), mem);
        lfree := Redirect(lfree, nmem, mem);
        Absorb(mem);
      }
    }

    /** rt_free. */
    method FreeMem(rmem: Ptr)
      requires Valid()
      requires rmem.At? && 0 <= rmem.off < HeapEnd() ==>
        rmem.off >= SIZEOF_STRUCT_MEM && rmem.off - SIZEOF_STRUCT_MEM in LiveBlocks()
      modifies this
      ensures Valid() && maxMem == old(maxMem)
      ensures rmem.At? && 0 <= rmem.off < HeapEnd() ==>
        var b := rmem.off - SIZEOF_STRUCT_MEM;
        && LiveBlocks() == old(LiveBlocks()) - {b}
        && usedMem == old(usedMem) - (old(LiveBlocks())[b] + SIZEOF_STRUCT_MEM)
      ensures !(rmem.At? && 0 <= rmem.off < HeapEnd()) ==>
        hdr == old(hdr) && LiveBlocks() == old(LiveBlocks()) && usedMem == old(usedMem)
      ensures KeepsUser(old(bytes), bytes, LiveBlocks())
    {
      if rmem.Null? || rmem.off < 0 || rmem.off >= HeapEnd() {
        return;
      }
      FreeBlock(rmem.off - SIZEOF_STRUCT_MEM);
    }

    /** The locked section of rt_free, on the header of a block that is in use. */
    method FreeBlock(mem: nat)
      requires Valid() && mem in LiveBlocks()
      modifies this
      ensures Valid() && maxMem == old(maxMem)
      ensures LiveBlocks() == old(LiveBlocks()) - {mem}
      ensures usedMem == old(usedMem) - (old(LiveBlocks())[mem] + SIZEOF_STRUCT_MEM)
      ensures KeepsUser(old(bytes), bytes, LiveBlocks())
    {
      MarkFree(mem);
      ghost var m1 := bytes;
      usedMem := usedMem - (hdr[mem].next - mem);
      Settle(mem);
      KeepsUserTrans(old(bytes), m1, bytes, LiveBlocks());
    }

    /** Clear the used flag of a live block. */
    method MarkFree(mem: nat)
      requires Valid() && mem in LiveBlocks()
      modifies this`hdr, this`bytes
      ensures Tiling(hdr, blocks, HeapEnd()) && |bytes| == HeapEnd() + SIZEOF_STRUCT_MEM
      ensures mem in blocks && !hdr[mem].used
      ensures hdr[mem].next - mem == old(LiveBlocks())[mem] + SIZEOF_STRUCT_MEM >= 0
      ensures CoalescedBut(hdr, blocks, mem)
      ensures LowestFree(hdr, blocks, HeapEnd(), if mem < lfree then mem else lfree)
      ensures LiveBlocks() == old(LiveBlocks()) - {mem}
      ensures UsedSum(hdr, blocks) == usedMem - (hdr[mem].next - mem)
      ensures KeepsUser(old(bytes), bytes, LiveBlocks())
    {
      ghost var h0, live := hdr, LiveBlocks() - {mem};
      StampKeepsUser(hdr, blocks, HeapEnd(), bytes, mem, live);
      PutHeader(mem, hdr[mem].(used := false));
      assert hdr == MarkHeaders(h0, mem, false);
      MarkTiling(h0, blocks, HeapEnd(), mem, false);
      MarkLive(h0, blocks, HeapEnd(), mem, false);
      MarkSum(h0, blocks, mem, false);
      MarkFreeCoalesced(h0, blocks, mem);
      MarkFreeLowest(h0, blocks, HeapEnd(), mem, lfree);
      assert BlockOk(h0, blocks, HeapEnd(), mem);
    }

    /** The first-fit search of rt_malloc, with its strict bound on the block offset. */
    method FindFit(size: nat) returns (found: bool, ptr: nat)
      requires Valid() && 0 < size <= memSize
      ensures found ==>
        && Fits(hdr, blocks, ptr, size)
        && (forall c :: Fits(hdr, blocks, c, size) ==> ptr <= c)
      ensures !found <==> OnlyExactFitAtEnd(hdr, blocks, HeapEnd(), size)
    {
      found, ptr := false, lfree;
      while ptr < memSize - size
        invariant ptr in blocks
        invariant forall c :: Fits(hdr, blocks, c, size) ==> ptr <= c
        decreases HeapEnd() - ptr
      {
        if !hdr[ptr].used && hdr[ptr].next - (ptr + SIZEOF_STRUCT_MEM) >= size {
          found := true;
          assert Fits(hdr, blocks, ptr, size);
          return;
        }
        assert BlockOk(hdr, blocks, HeapEnd(), ptr);
        forall c | Fits(hdr, blocks, c, size) ensures hdr[ptr].next <= c {
          assert ptr < c ==> Before(hdr, ptr, c);
        }
        ptr := hdr[ptr].next;
      }
      forall c | Fits(hdr, blocks, c, size) ensures hdr[c].next <= HeapEnd() {
        assert BlockOk(hdr, blocks, HeapEnd(), c);
      }
    }

    /** Hand out block mem: cut it when a further block fits behind it, else give it whole. */
    method TakeBlock(mem: nat, size: nat)
      requires Valid() && size % 16 == 0 && MIN_SIZE_ALIGNED <= size
      requires Fits(hdr, blocks, mem, size)
      modifies this`hdr, this`bytes, this`blocks, this`usedMem, this`maxMem
      ensures SoundTaken(hdr, blocks, HeapEnd(), lfree, usedMem, mem) && |bytes| == |old(bytes)|
      ensures mem in LiveBlocks() && mem !in old(LiveBlocks())
      ensures LiveBlocks() == old(LiveBlocks())[mem := LiveBlocks()[mem]]
      ensures usedMem == old(usedMem) + LiveBlocks()[mem] + SIZEOF_STRUCT_MEM
      ensures CutExactly(mem, size, old(hdr), old(blocks), hdr, blocks, LiveBlocks()[mem])
      ensures maxMem == Max(old(maxMem), usedMem)
      ensures KeepsUser(old(bytes), bytes, old(LiveBlocks()))
    {
      if hdr[mem].next - (mem + SIZEOF_STRUCT_MEM) >= size + SIZEOF_STRUCT_MEM + MIN_SIZE_ALIGNED {
        RoomInFree(hdr, blocks, HeapEnd(), mem, size);
        TakeFront(mem, mem + SIZEOF_STRUCT_MEM + size);
        usedMem := usedMem + (size + SIZEOF_STRUCT_MEM);
      } else {
        TakeWhole(mem);
        usedMem := usedMem + (hdr[mem].next - mem);
      }
      if maxMem < usedMem {
        maxMem := usedMem;
      }
    }

    method TakeFront(mem: nat, ptr2: nat)
      requires Valid() && CanCutFree(hdr, blocks, mem, ptr2)
      modifies this`hdr, this`bytes, this`blocks
      ensures SoundTaken(hdr, blocks, HeapEnd(), lfree, usedMem + (ptr2 - mem), mem)
      ensures LiveBlocks() == old(LiveBlocks())[mem := ptr2 - mem - SIZEOF_STRUCT_MEM] && mem !in old(LiveBlocks())
      ensures blocks == old(blocks) + {ptr2} && ptr2 !in old(blocks) && ptr2 in hdr
      ensures !hdr[ptr2].used && hdr[ptr2].next == old(hdr)[mem].next
      ensures KeepsUser(old(bytes), bytes, old(LiveBlocks()))
    {
      ghost var live := LiveBlocks();
      SplitFree(hdr, blocks, HeapEnd(), mem, ptr2, lfree, usedMem);
      Split(mem, ptr2);
      KeepsUserWithout(old(bytes), bytes, live, mem, ptr2 - mem - SIZEOF_STRUCT_MEM);
    }

    method TakeWhole(mem: nat)
      requires Valid() && Free(hdr, blocks, mem)
      modifies this`hdr, this`bytes
      ensures mem in hdr && hdr[mem].next == old(hdr)[mem].next
      ensures SoundTaken(hdr, blocks, HeapEnd(), lfree, usedMem + (hdr[mem].next - mem), mem)
      ensures mem !in old(LiveBlocks())
      ensures LiveBlocks() == old(LiveBlocks())[mem := hdr[mem].next - mem - SIZEOF_STRUCT_MEM]
      ensures KeepsUser(old(bytes), bytes, old(LiveBlocks()))
    {
      StampKeepsUser(hdr, blocks, HeapEnd(), bytes, mem, LiveBlocks());
      MarkUsed(hdr, blocks, HeapEnd(), mem, lfree, usedMem);
      PutHeader(mem, hdr[mem].(used := true));
    }

    /** Move lfree up to the next free block. */
    method AdvanceLfree()
      requires Tiling(hdr, blocks, HeapEnd()) && lfree in blocks
      requires NothingFreeBelow(hdr, blocks, lfree)
      modifies this`lfree
      ensures LowestFree(hdr, blocks, HeapEnd(), lfree)
    {
      while hdr[lfree].used && lfree != HeapEnd()
        invariant lfree in blocks
        invariant NothingFreeBelow(hdr, blocks, lfree)
        decreases HeapEnd() - lfree
      {
        assert BlockOk(hdr, blocks, HeapEnd(), lfree);
        forall b | b in blocks && !hdr[b].used ensures hdr[lfree].next <= b {
          assert lfree < b ==> Before(hdr, lfree, b);
        }
        lfree := hdr[lfree].next;
      }
    }

    /** rt_malloc. */
    method Malloc(size: nat) returns (p: Ptr)
      requires Valid()
      modifies this
      ensures Valid()
      ensures p.Null? <==> size == 0 || OnlyExactFitAtEnd(old(hdr), old(blocks), HeapEnd(), AlignUp(size))
      ensures p.Null? ==> hdr == old(hdr) && bytes == old(bytes) && blocks == old(blocks)
      ensures p.Null? ==> usedMem == old(usedMem) && maxMem == old(maxMem)
      ensures p.At? ==> p.off >= SIZEOF_STRUCT_MEM && Handed(p.off - SIZEOF_STRUCT_MEM, AlignUp(size),
        old(hdr), old(blocks), hdr, blocks, old(LiveBlocks()), LiveBlocks())
      ensures p.At? ==> usedMem == old(usedMem) + LiveBlocks()[p.off - SIZEOF_STRUCT_MEM] + SIZEOF_STRUCT_MEM
      ensures maxMem == Max(old(maxMem), usedMem)
      ensures KeepsUser(old(bytes), bytes, old(LiveBlocks()))
    {
      if size == 0 {
        return Null;
      }
      var n := AlignUp(size);
      if n > memSize {
        NoBlockThatLarge(hdr, blocks, HeapEnd(), n);
        return Null;
      }
      if n < MIN_SIZE_ALIGNED {
        n := MIN_SIZE_ALIGNED;
      }
      var found, mem := FindFit(n);
      if !found {
        return Null;
      }
      TakeBlock(mem, n);
      if mem == lfree {
        AdvanceLfree();
      }
      assert LowestFree(hdr, blocks, HeapEnd(), lfree);
      return At(mem + SIZEOF_STRUCT_MEM);
    }

    /** Give the tail of a live block back, from ptr2 on: the in-place path of rt_realloc. */
    method Shrink(mem: nat, ptr2: nat)
      requires Valid() && mem in LiveBlocks() && ptr2 % 16 == 0
      requires mem + SIZEOF_STRUCT_MEM <= ptr2 && ptr2 + SIZEOF_STRUCT_MEM <= hdr[mem].next
      modifies this
      ensures Valid() && maxMem == old(maxMem)
      ensures LiveBlocks() == old(LiveBlocks())[mem := ptr2 - mem - SIZEOF_STRUCT_MEM]
      ensures usedMem == old(usedMem) - (old(hdr)[mem].next - ptr2)
      ensures KeepsUser(old(bytes), bytes, LiveBlocks())
    {
      usedMem := usedMem - (hdr[mem].next - ptr2);
      CutLive(mem, ptr2);
      ghost var m1 := bytes;
      Settle(ptr2);
      KeepsUserTrans(old(bytes), m1, bytes, LiveBlocks());
    }

    /** Repair lfree and the borders around a block that has just become free. */
    method Settle(mem: nat)
      requires Tiling(hdr, blocks, HeapEnd()) && |bytes| == HeapEnd() + SIZEOF_STRUCT_MEM
      requires mem in blocks && mem != HeapEnd() && !hdr[mem].used
      requires CoalescedBut(hdr, blocks, mem)
      requires LowestFree(hdr, blocks, HeapEnd(), if mem < lfree then mem else lfree)
      requires usedMem == UsedSum(hdr, blocks) && usedMem <= maxMem
      modifies this`hdr, this`bytes, this`blocks, this`lfree
      ensures Valid() && LiveBlocks() == old(LiveBlocks())
      ensures KeepsUser(old(bytes), bytes, LiveBlocks())
    {
      if mem < lfree {
        lfree := mem;
      }
      PlugHoles(mem);
    }

    method CutLive(mem: nat, ptr2: nat)
      requires Tiling(hdr, blocks, HeapEnd()) && Coalesced(hdr, blocks)
      requires LowestFree(hdr, blocks, HeapEnd(), lfree) && |bytes| == HeapEnd() + SIZEOF_STRUCT_MEM
      requires mem in LiveBlocks() && ptr2 % 16 == 0
      requires mem + SIZEOF_STRUCT_MEM <= ptr2 && ptr2 + SIZEOF_STRUCT_MEM <= hdr[mem].next
      modifies this`hdr, this`bytes, this`blocks
      ensures Tiling(hdr, blocks, HeapEnd()) && |bytes| == |old(bytes)|
      ensures ptr2 in blocks && ptr2 != HeapEnd() && !hdr[ptr2].used
      ensures CoalescedBut(hdr, blocks, ptr2)
      ensures LowestFree(hdr, blocks, HeapEnd(), if ptr2 < lfree then ptr2 else lfree)
      ensures LiveBlocks() == old(LiveBlocks())[mem := ptr2 - mem - SIZEOF_STRUCT_MEM]
      ensures UsedSum(hdr, blocks) == old(UsedSum(hdr, blocks)) - (old(hdr)[mem].next - ptr2)
      ensures KeepsUser(old(bytes), bytes, LiveBlocks())
    {
      SplitLiveBlock(hdr, blocks, HeapEnd(), mem, ptr2, lfree);
      Split(mem, ptr2);
    }

    /** Allocate, copy and free: the moving path of rt_realloc. */
    method Move(mem: nat, newsize: nat) returns (p: Ptr)
      requires Valid() && mem in LiveBlocks() && 0 < newsize && newsize % 16 == 0 && !InPlace(LiveBlocks()[mem], newsize)
      modifies this
      ensures Valid()
      ensures Resized(p, mem, newsize, old(hdr), OnlyExactFitAtEnd(old(hdr), old(blocks), HeapEnd(), newsize),
        old(LiveBlocks()), LiveBlocks(), old(bytes), bytes, old(usedMem), old(maxMem), maxMem)
      ensures KeepsUser(old(bytes), bytes, old(LiveBlocks()) - {mem})
    {
      ghost var live0, refused := LiveBlocks(), OnlyExactFitAtEnd(hdr, blocks, HeapEnd(), newsize);
      p := MallocBeside(mem, newsize);
      if p.Null? {
        MoveRefused(mem, newsize, old(hdr), refused, live0, bytes, old(usedMem), maxMem);
      } else {
        FinishMove(mem, p.off - SIZEOF_STRUCT_MEM, newsize, old(bytes), old(hdr), live0, old(usedMem), old(maxMem));
      }
    }

    /** The rt_malloc call of the moving path, seen from the block that is to be moved. */
    method MallocBeside(mem: nat, newsize: nat) returns (p: Ptr)
      requires Valid() && mem in LiveBlocks() && 0 < newsize && newsize % 16 == 0
      modifies this
      ensures Valid()
      ensures p.Null? <==> OnlyExactFitAtEnd(old(hdr), old(blocks), HeapEnd(), newsize)
      ensures p.Null? ==> hdr == old(hdr) && bytes == old(bytes) && blocks == old(blocks) && maxMem == old(maxMem)
      ensures p.At? ==> Obtained(p.off - SIZEOF_STRUCT_MEM, newsize, old(hdr), old(LiveBlocks()), LiveBlocks())
      ensures p.At? ==> maxMem == Max(old(maxMem), old(usedMem) + Whole(LiveBlocks(), p.off - SIZEOF_STRUCT_MEM))
      ensures KeepsUser(old(bytes), bytes, old(LiveBlocks()))
    {
      AlignUpFixed(newsize);
      p := Malloc(newsize);
    }

    /** The part of the moving path after a new block b has been obtained. */
    method FinishMove(mem: nat, b: nat, newsize: nat, ghost m: seq<int>, ghost h: Headers, ghost before: map<nat, int>,
                      ghost used: int, ghost peak: int)
      requires Valid() && mem in before && Obtained(b, newsize, h, before, LiveBlocks())
      requires KeepsUser(m, bytes, before) && !InPlace(before[mem], newsize)
      requires maxMem == Max(peak, used + Whole(LiveBlocks(), b))
      modifies this
      ensures Valid()
      ensures Resized(At(b + SIZEOF_STRUCT_MEM), mem, newsize, h, false, before, LiveBlocks(), m, bytes, used, peak, maxMem)
      ensures KeepsUser(m, bytes, before - {mem})
    {
      ghost var m1, live := bytes, LiveBlocks();
      MoveInto(mem, b, newsize);
      ResizedIntro(m, m1, bytes, mem, b, newsize, h, before, live, LiveBlocks(), used, peak);
    }

    /** Copy one live block into another that is at least newsize bytes long, then free the first. */
    method MoveInto(mem: nat, b: nat, newsize: nat)
      requires Valid() && mem in LiveBlocks() && b in LiveBlocks() && b != mem
      requires newsize <= LiveBlocks()[b]
      modifies this
      ensures Valid() && LiveBlocks() == old(LiveBlocks()) - {mem} && maxMem == old(maxMem)
      ensures CameAlong(old(bytes), bytes, mem + SIZEOF_STRUCT_MEM, b + SIZEOF_STRUCT_MEM,
        old(LiveBlocks())[mem], newsize)
      ensures KeepsUser(old(bytes), bytes, old(LiveBlocks()) - {mem, b})
    {
      ghost var live := LiveBlocks();
      CopyBlock(mem, b, newsize);
      ghost var m1 := bytes;
      FreeBlock(mem);
      MoveChain(old(bytes), m1, bytes, mem, b, newsize, live);
    }

    /** The rt_memcpy of the moving path. */
    method CopyBlock(mem: nat, b: nat, newsize: nat)
      requires Tiling(hdr, blocks, HeapEnd()) && |bytes| == HeapEnd() + SIZEOF_STRUCT_MEM
      requires mem in LiveBlocks() && b in LiveBlocks() && b != mem && newsize <= LiveBlocks()[b]
      modifies this`bytes
      ensures |bytes| == |old(bytes)| && b + SIZEOF_STRUCT_MEM + newsize <= |bytes|
      ensures CameAlong(old(bytes), bytes, mem + SIZEOF_STRUCT_MEM, b + SIZEOF_STRUCT_MEM,
        LiveBlocks()[mem], newsize)
      ensures KeepsUser(old(bytes), bytes, LiveBlocks() - {b})
    {
      var size := hdr[mem].next - mem - SIZEOF_STRUCT_MEM;
      Apart(hdr, blocks, HeapEnd(), mem, b);
      bytes := CopyWithin(bytes, b + SIZEOF_STRUCT_MEM, mem + SIZEOF_STRUCT_MEM, if size < newsize then size else newsize);
      CopyFacts(hdr, blocks, HeapEnd(), old(bytes), bytes, mem, b, newsize);
    }

    /** A pointer the allocator looks at: it lies in the heap. */
    predicate InHeap(p: Ptr) {
      p.At? && 0 <= p.off < HeapEnd()
    }

    /** rt_realloc. */
    method Realloc(rmem: Ptr, newsize: nat) returns (p: Ptr)
      requires Valid()
      requires InHeap(rmem) ==> rmem.off >= SIZEOF_STRUCT_MEM && rmem.off - SIZEOF_STRUCT_MEM in LiveBlocks()
      modifies this
      ensures Valid()
      // a failed call leaves every block, also the one passed in, as it was
      ensures p.Null? && newsize != 0 ==> LiveBlocks() == old(LiveBlocks()) && bytes == old(bytes)
      // size zero frees
      ensures newsize == 0 ==> p.Null?
      ensures newsize == 0 && InHeap(rmem) ==> LiveBlocks() == old(LiveBlocks()) - {rmem.off - SIZEOF_STRUCT_MEM}
      ensures newsize == 0 && !InHeap(rmem) ==> LiveBlocks() == old(LiveBlocks())
      // NULL allocates; a pointer from outside the heap is handed back
      ensures newsize != 0 && rmem.Null? ==>
        (p.Null? <==> OnlyExactFitAtEnd(old(hdr), old(blocks), HeapEnd(), AlignUp(newsize)))
      ensures rmem.Null? && p.At? ==> p.off >= SIZEOF_STRUCT_MEM && Handed(p.off - SIZEOF_STRUCT_MEM,
        AlignUp(newsize), old(hdr), old(blocks), hdr, blocks, old(LiveBlocks()), LiveBlocks())
      ensures newsize != 0 && rmem.At? && !InHeap(rmem) ==>
        p == (if AlignUp(newsize) > memSize then Null else rmem) && LiveBlocks() == old(LiveBlocks())
      // a live block is resized in place or moved, and keeps its leading bytes either way
      ensures newsize != 0 && InHeap(rmem) && AlignUp(newsize) > memSize ==> p.Null?
      ensures newsize != 0 && InHeap(rmem) && AlignUp(newsize) <= memSize ==>
        Resized(p, rmem.off - SIZEOF_STRUCT_MEM, AlignUp(newsize), old(hdr),
          OnlyExactFitAtEnd(old(hdr), old(blocks), HeapEnd(), AlignUp(newsize)),
          old(LiveBlocks()), LiveBlocks(), old(bytes), bytes, old(usedMem), old(maxMem), maxMem)
      // it stays exactly if its size is the new one, or more than 28 bytes larger
      ensures newsize != 0 && InHeap(rmem) && AlignUp(newsize) <= memSize ==>
        var b, n := rmem.off - SIZEOF_STRUCT_MEM, AlignUp(newsize); var size := old(LiveBlocks())[b];
        if size == n || n + 28 < size then p == rmem && LiveBlocks() == old(LiveBlocks())[b := n] else p != rmem
      ensures newsize == 0 || p.Null? || (rmem.At? && !InHeap(rmem)) ==> maxMem == old(maxMem)
      ensures rmem.Null? && p.At? ==> maxMem == Max(old(maxMem), usedMem)
      ensures KeepsUser(old(bytes), bytes,
        if InHeap(rmem) then old(LiveBlocks()) - {rmem.off - SIZEOF_STRUCT_MEM} else old(LiveBlocks()))
    {
      var n := AlignUp(newsize);
      if n > memSize {
        NoBlockThatLarge(hdr, blocks, HeapEnd(), n);
        return Null;
      }
      if n == 0 {
        FreeMem(rmem);
        return Null;
      }
      if rmem.Null? {
        AlignUpFixed(n);
        p := Malloc(n);
        return;
      }
      if rmem.off < 0 || rmem.off >= HeapEnd() {
        return rmem;
      }
      p := Resize(rmem.off - SIZEOF_STRUCT_MEM, n);
    }

    /** The part of rt_realloc that deals with a live block and a sensible size. */
    method Resize(mem: nat, n: nat) returns (p: Ptr)
      requires Valid() && mem in LiveBlocks() && 0 < n && n % 16 == 0
      modifies this
      ensures Valid()
      ensures Resized(p, mem, n, old(hdr), OnlyExactFitAtEnd(old(hdr), old(blocks), HeapEnd(), n),
        old(LiveBlocks()), LiveBlocks(), old(bytes), bytes, old(usedMem), old(maxMem), maxMem)
      ensures KeepsUser(old(bytes), bytes, old(LiveBlocks()) - {mem})
    {
      var size := hdr[mem].next - mem - SIZEOF_STRUCT_MEM;
      if size == n {
        return At(mem + SIZEOF_STRUCT_MEM);
      }
      if n + SIZEOF_STRUCT_MEM + MIN_SIZE < size {
        RoomBehind(hdr, blocks, HeapEnd(), mem, n);
        Shrink(mem, mem + SIZEOF_STRUCT_MEM + n);
        KeepsUserLess(old(bytes), bytes, LiveBlocks(), old(LiveBlocks()) - {mem});
        return At(mem + SIZEOF_STRUCT_MEM);
      }
      p := Move(mem, n);
    }

    /** A store by the owner of block b; any header record it lands on is destroyed. */
    method UserWrite(ghost b: nat, addr: nat, v: int)
      requires Valid() && InUser(LiveBlocks(), b, addr)
      modifies this`hdr, this`bytes
      ensures Valid() && LiveBlocks() == old(LiveBlocks())
      ensures addr < |old(bytes)| && bytes == old(bytes)[addr := v]
      ensures forall c, i :: InUser(LiveBlocks(), c, i) && i != addr && 0 <= i < |bytes| ==>
        bytes[i] == old(bytes)[i]
      ensures forall c: nat :: InUser(LiveBlocks(), c, addr) ==> c == b
    {
      ghost var h0 := hdr;
      LiveRegionsDisjoint(hdr, blocks, HeapEnd(), b, b);
      bytes := bytes[addr := v];
      hdr := map p | p in hdr && !(p <= addr < p + SIZEOF_HEADER) :: hdr[p];
      HeadersApart(h0, blocks, HeapEnd(), b, addr);
      SameOnBlocks(h0, hdr, blocks, HeapEnd(), lfree);
      forall c: nat | InUser(LiveBlocks(), c, addr) ensures c == b {
        LiveRegionsDisjoint(h0, blocks, HeapEnd(), b, c);
        LiveRegionsDisjoint(h0, blocks, HeapEnd(), c, b);
      }
    }
  }

  ghost predicate KeepFits(h: Headers, bs: set<nat>, end: nat, keep: map<nat, int>)
    requires bs <= h.Keys
  {
    forall b :: b in keep ==> b in bs && b != end && keep[b] <= h[b].next - b - SIZEOF_STRUCT_MEM
  }

  /** No free block has room for n bytes, but for one that fits exactly and ends at heap_end. */
  ghost predicate OnlyExactFitAtEnd(h: Headers, bs: set<nat>, end: nat, n: nat)
    requires bs <= h.Keys
  {
    forall b: nat :: Fits(h, bs, b, n) ==> h[b].next == end && h[b].next - (b + SIZEOF_STRUCT_MEM) == n
  }

  /** Block b, the lowest that fits, has become live, cut or whole; nothing else moved. */
  ghost predicate Handed(b: nat, n: nat, h: Headers, bs: set<nat>, h': Headers, bs': set<nat>,
                         before: map<nat, int>, after: map<nat, int>)
    requires bs <= h.Keys
  {
    && Fits(h, bs, b, n)
    && (forall c :: Fits(h, bs, c, n) ==> b <= c)
    && b !in before && b in after && after == before[b := after[b]]
    && CutExactly(b, n, h, bs, h', bs', after[b])
  }

  /**
    Free block b of 32 bytes more than n, or larger, is cut behind its first n bytes: the rest, up to where b
    ended, is a free block.  A smaller one is handed out with all its bytes, and no block is added.
   */
  ghost predicate CutExactly(b: nat, n: nat, h: Headers, bs: set<nat>, h': Headers, bs': set<nat>, given: int) {
    && b in h
    && (h[b].next - (b + 16) >= n + 32 ==>
          && given == n && b + 16 + n !in bs && bs' == bs + {b + 16 + n}
          && b + 16 + n in h' && !h'[b + 16 + n].used && h'[b + 16 + n].next == h[b].next)
    && (h[b].next - (b + 16) < n + 32 ==> given == h[b].next - (b + 16) && bs' == bs)
  }

  lemma KeepsUserLess(a: seq<int>, b: seq<int>, more: map<nat, int>, less: map<nat, int>)
    requires KeepsUser(a, b, more)
    requires forall p :: p in less ==> p in more && less[p] <= more[p]
    ensures KeepsUser(a, b, less)
  {
    forall p, i | InUser(less, p, i) && 0 <= i < |a| ensures b[i] == a[i] {
      assert InUser(more, p, i);
    }
  }

  lemma KeepsUserWithout(a: seq<int>, b: seq<int>, keep: map<nat, int>, p: nat, n: int)
    requires KeepsUser(a, b, keep[p := n]) && p !in keep
    ensures KeepsUser(a, b, keep)
  {
    KeepsUserLess(a, b, keep[p := n], keep);
  }

  /** Free block b can be cut at p2. */
  ghost predicate CanCutFree(h: Headers, bs: set<nat>, b: nat, p2: nat)
    requires bs <= h.Keys
  {
    Free(h, bs, b) && p2 % 16 == 0 && b + SIZEOF_STRUCT_MEM <= p2 && p2 + SIZEOF_STRUCT_MEM <= h[b].next
  }

  lemma RoomInFree(h: Headers, bs: set<nat>, end: nat, b: nat, n: nat)
    requires Tiling(h, bs, end) && n % 16 == 0 && Fits(h, bs, b, n + SIZEOF_STRUCT_MEM + MIN_SIZE_ALIGNED)
    ensures CanCutFree(h, bs, b, b + SIZEOF_STRUCT_MEM + n)
  {
    assert BlockOk(h, bs, end, b);
  }

  /** Everything a split does to a free block, gathered. */
  lemma SplitFree(h: Headers, bs: set<nat>, end: nat, b: nat, p2: nat, lfree: nat, used: int)
    requires Sound(h, bs, end, lfree, used)
    requires CanCutFree(h, bs, b, p2)
    ensures CanSplit(h, bs, end, b, p2)
    ensures b !in Live(h, bs, end)
    ensures p2 !in bs && h[b].next in h && p2 !in {b, h[b].next}
    ensures var g := SplitHeaders(h, end, b, p2);
      && SoundTaken(g, bs + {p2}, end, lfree, used + (p2 - b), b)
      && Live(g, bs + {p2}, end) == Live(h, bs, end)[b := p2 - b - SIZEOF_STRUCT_MEM]
  {
    SplitTiling(h, bs, end, b, p2);
    assert h[b].next != b by { assert BlockOk(h, bs, end, b); }
    SplitLive(h, bs, end, b, p2);
    SplitSum(h, bs, end, b, p2);
    SplitCoalesced(h, bs, end, b, p2);
    SplitLowest(h, bs, end, b, p2, lfree);
  }

  /** Everything that happens when a free block is handed out whole, gathered. */
  lemma MarkUsed(h: Headers, bs: set<nat>, end: nat, b: nat, lfree: nat, used: int)
    requires Sound(h, bs, end, lfree, used) && Free(h, bs, b)
    ensures b !in Live(h, bs, end)
    ensures var g := MarkHeaders(h, b, true);
      && SoundTaken(g, bs, end, lfree, used + (h[b].next - b), b)
      && Live(g, bs, end) == Live(h, bs, end)[b := h[b].next - b - SIZEOF_STRUCT_MEM]
  {
    MarkTiling(h, bs, end, b, true);
    MarkLive(h, bs, end, b, true);
    MarkSum(h, bs, b, true);
    MarkUsedCoalesced(h, bs, b);
    MarkUsedLowest(h, bs, end, b, lfree);
  }

  /** Everything the cut of a live block does before plug_holes runs, gathered. */
  lemma SplitLiveBlock(h: Headers, bs: set<nat>, end: nat, b: nat, p2: nat, lfree: nat)
    requires Tiling(h, bs, end) && Coalesced(h, bs) && LowestFree(h, bs, end, lfree)
    requires b in Live(h, bs, end) && p2 % 16 == 0
    requires b + SIZEOF_STRUCT_MEM <= p2 && p2 + SIZEOF_STRUCT_MEM <= h[b].next
    ensures CanSplit(h, bs, end, b, p2) && p2 != end
    ensures p2 !in bs && h[b].next in h && p2 !in {b, h[b].next}
    ensures var g := SplitHeaders(h, end, b, p2);
      && Tiling(g, bs + {p2}, end) && CoalescedBut(g, bs + {p2}, p2) && !g[p2].used
      && Live(g, bs + {p2}, end) == Live(h, bs, end)[b := p2 - b - SIZEOF_STRUCT_MEM]
      && UsedSum(g, bs + {p2}) == UsedSum(h, bs) - (h[b].next - p2)
      && LowestFree(g, bs + {p2}, end, if p2 < lfree then p2 else lfree)
  {
    SplitTiling(h, bs, end, b, p2);
    assert h[b].next != b by { assert BlockOk(h, bs, end, b); }
    SplitLive(h, bs, end, b, p2);
    SplitSum(h, bs, end, b, p2);
    SplitCoalesced(h, bs, end, b, p2);
    SplitLowest(h, bs, end, b, p2, lfree);
  }

  /** User bytes and the headers of the current blocks never overlap. */
  lemma HeadersApart(h: Headers, bs: set<nat>, end: nat, b: nat, addr: nat)
    requires Tiling(h, bs, end) && InUser(Live(h, bs, end), b, addr)
    ensures forall p :: p in bs ==> !(p <= addr < p + SIZEOF_HEADER)
  {
    assert BlockOk(h, bs, end, b);
    forall p | p in bs ensures !(p <= addr < p + SIZEOF_HEADER) {
      assert BlockOk(h, bs, end, p);
      assert p < b ==> Before(h, p, b);
      assert b < p ==> Before(h, b, p);
    }
  }

  /** The invariant depends on the headers of the current blocks only, not on stale ones. */
  lemma SameTiling(h: Headers, g: Headers, bs: set<nat>, end: nat)
    requires Tiling(h, bs, end)
    requires bs <= g.Keys && forall b :: b in bs ==> g[b] == h[b]
    ensures Tiling(g, bs, end)
  {
    forall b | b in bs ensures BlockOk(g, bs, end, b) {
      assert BlockOk(h, bs, end, b);
    }
    SameOrder(h, g, bs);
  }

  lemma SameCoalesced(h: Headers, g: Headers, bs: set<nat>, end: nat)
    requires Tiling(h, bs, end) && Coalesced(h, bs)
    requires bs <= g.Keys && forall b :: b in bs ==> g[b] == h[b]
    ensures Coalesced(g, bs)
  {
    forall b | b in bs && !g[b].used ensures g[b].next in g && g[g[b].next].used {
      assert BlockOk(h, bs, end, b);
    }
  }

  lemma SameLive(h: Headers, g: Headers, bs: set<nat>, end: nat)
    requires bs <= h.Keys && bs <= g.Keys && forall b :: b in bs ==> g[b] == h[b]
    ensures Live(g, bs, end) == Live(h, bs, end)
  {
  }

  lemma SameOnBlocks(h: Headers, g: Headers, bs: set<nat>, end: nat, lfree: nat)
    requires Tiling(h, bs, end) && Coalesced(h, bs) && LowestFree(h, bs, end, lfree)
    requires bs <= g.Keys && forall b :: b in bs ==> g[b] == h[b]
    ensures Tiling(g, bs, end) && Coalesced(g, bs) && LowestFree(g, bs, end, lfree)
    ensures Live(g, bs, end) == Live(h, bs, end) && UsedSum(g, bs) == UsedSum(h, bs)
  {
    SameTiling(h, g, bs, end);
    SameCoalesced(h, g, bs, end);
    UsedSumSame(h, g, bs);
    SameLive(h, g, bs, end);
  }

  /** The guard of the in-place shrink leaves room for a header and 16 bytes behind the cut. */
  lemma RoomBehind(h: Headers, bs: set<nat>, end: nat, b: nat, newsize: nat)
    requires Tiling(h, bs, end) && b in bs && b != end && newsize % 16 == 0
    requires newsize + SIZEOF_STRUCT_MEM + MIN_SIZE < h[b].next - b - SIZEOF_STRUCT_MEM
    ensures (b + SIZEOF_STRUCT_MEM + newsize) % 16 == 0
    ensures b + SIZEOF_STRUCT_MEM + newsize + SIZEOF_STRUCT_MEM + MIN_SIZE_ALIGNED <= h[b].next
  {
    assert BlockOk(h, bs, end, b);
    assert BlockOk(h, bs, end, h[b].next);
  }

  /** Block b has become live, with n bytes of those it had, or all if those were fewer than n + 32. */
  ghost predicate Obtained(b: int, n: nat, h: Headers, before: map<nat, int>, after: map<nat, int>) {
    && 0 <= b && b in h && b !in before && b in after && n <= after[b] && after == before[b := after[b]]
    && after[b] == if h[b].next - (b + 16) >= n + 32 then n else h[b].next - (b + 16)
  }

  /** The bytes of live block b, its header included. */
  ghost function Whole(live: map<nat, int>, b: int): int {
    (if b in live then live[b] else 0) + SIZEOF_STRUCT_MEM
  }

  /** Block mem has moved to user address p: its bytes came along and nothing else changed. */
  ghost predicate Moved(mem: nat, p: int, newsize: nat, h: Headers, before: map<nat, int>, after: map<nat, int>,
                        m: seq<int>, m': seq<int>)
  {
    var b := p - SIZEOF_STRUCT_MEM;
    && mem in before && 0 <= b && b in h && b !in before && b in after && newsize <= after[b]
    && after[b] == (if h[b].next - (b + 16) >= newsize + 32 then newsize else h[b].next - (b + 16))
    && after == before[b := after[b]] - {mem}
    && CameAlong(m, m', mem + SIZEOF_STRUCT_MEM, p, before[mem], newsize)
  }

  /**
    What resizing block mem to n bytes comes to: it fails, leaving all as it was, if it has to move and
    is refused; it keeps its place and its bytes; or it moves, and the peak counts both blocks.
   */
  ghost predicate Resized(p: Ptr, mem: nat, n: nat, h: Headers, refused: bool, before: map<nat, int>, after: map<nat, int>,
                          m: seq<int>, m': seq<int>, used: int, peak: int, peak': int)
  {
    && mem in before
    && (p.Null? <==> !InPlace(before[mem], n) && refused)
    && (p.Null? ==> after == before && m' == m && peak' == peak)
    && (p.At? && InPlace(before[mem], n) ==>
          p.off == mem + SIZEOF_STRUCT_MEM && after == before[mem := n] && KeepsUser(m, m', after) && peak' == peak)
    && (p.At? && !InPlace(before[mem], n) ==>
          Moved(mem, p.off, n, h, before, after, m, m') && peak' == Max(peak, used + Whole(after, p.off - SIZEOF_STRUCT_MEM)))
  }

  ghost predicate CameAlong(m: seq<int>, m': seq<int>, from: nat, to: int, size: int, newsize: nat) {
    var n := if size < newsize then size else newsize;
    && 0 <= n && 0 <= to && from + n <= |m| && to + n <= |m'|
    && m'[to..to + n] == m[from..from + n]
  }

  /** Copying into one live block leaves all others alone. */
  lemma CopyKeeps(h: Headers, bs: set<nat>, end: nat, m: seq<int>, m': seq<int>, b: nat, src: nat, n: nat)
    requires Tiling(h, bs, end)
    requires b in Live(h, bs, end) && n <= Live(h, bs, end)[b]
    requires CopiedTo(m, m', b + SIZEOF_STRUCT_MEM, src, n)
    ensures KeepsUser(m, m', Live(h, bs, end) - {b})
  {
    var keep, dst := Live(h, bs, end) - {b}, b + SIZEOF_STRUCT_MEM;
    forall c, i | InUser(keep, c, i) && 0 <= i < |m| ensures m'[i] == m[i] {
      Apart(h, bs, end, b, c);
      CopyElsewhere(m, m', dst, src, n, i);
    }
  }

  lemma CopyFacts(h: Headers, bs: set<nat>, end: nat, m: seq<int>, m': seq<int>, mem: nat, b: nat, newsize: nat)
    requires Tiling(h, bs, end) && |m| == end + SIZEOF_STRUCT_MEM
    requires mem in Live(h, bs, end) && b in Live(h, bs, end) && b != mem
    requires 0 <= Live(h, bs, end)[mem] && newsize <= Live(h, bs, end)[b]
    requires var size := Live(h, bs, end)[mem];
      CopiedTo(m, m', b + SIZEOF_STRUCT_MEM, mem + SIZEOF_STRUCT_MEM, if size < newsize then size else newsize)
    ensures b + SIZEOF_STRUCT_MEM + newsize <= |m|
    ensures CameAlong(m, m', mem + SIZEOF_STRUCT_MEM, b + SIZEOF_STRUCT_MEM, Live(h, bs, end)[mem], newsize)
    ensures KeepsUser(m, m', Live(h, bs, end) - {b})
  {
    Apart(h, bs, end, mem, b);
    var size := Live(h, bs, end)[mem];
    CopyKeeps(h, bs, end, m, m', b, mem + SIZEOF_STRUCT_MEM, if size < newsize then size else newsize);
  }

  /** Sizes for which rt_realloc keeps the block where it is; others, also some smaller ones, move. */
  predicate InPlace(size: int, n: nat) {
    size == n || n + SIZEOF_STRUCT_MEM + MIN_SIZE < size
  }

  lemma NoBlockThatLarge(h: Headers, bs: set<nat>, end: nat, n: nat)
    requires Tiling(h, bs, end) && end < n + SIZEOF_STRUCT_MEM
    ensures forall b :: !Fits(h, bs, b, n)
  {
    forall b ensures !Fits(h, bs, b, n) {
      if b in bs && b != end {
        assert BlockOk(h, bs, end, b);
        assert h[b].next in bs;
      }
    }
  }

  lemma MoveRefused(mem: nat, n: nat, h: Headers, refused: bool, live: map<nat, int>, m: seq<int>, used: int, peak: int)
    requires mem in live && !InPlace(live[mem], n) && refused
    ensures Resized(Null, mem, n, h, refused, live, live, m, m, used, peak, peak) && KeepsUser(m, m, live - {mem})
  {
  }

  lemma ResizedIntro(m: seq<int>, m1: seq<int>, m2: seq<int>, mem: nat, b: nat, newsize: nat, h: Headers,
                     before: map<nat, int>, live: map<nat, int>, after: map<nat, int>, used: int, peak: int)
    requires mem in before && Obtained(b, newsize, h, before, live) && after == live - {mem}
    requires KeepsUser(m, m1, before) && !InPlace(before[mem], newsize)
    requires CameAlong(m1, m2, mem + SIZEOF_STRUCT_MEM, b + SIZEOF_STRUCT_MEM, live[mem], newsize)
    requires KeepsUser(m1, m2, live - {mem, b})
    ensures Resized(At(b + SIZEOF_STRUCT_MEM), mem, newsize, h, false, before, after, m, m2, used, peak,
                    Max(peak, used + Whole(live, b)))
    ensures KeepsUser(m, m2, before - {mem})
  {
    assert live - {mem, b} == before - {mem, b};
    MovedIntro(m, m1, m2, mem, b, newsize, h, before, after);
  }

  lemma MovedIntro(m: seq<int>, m1: seq<int>, m2: seq<int>, mem: nat, b: nat,
                   newsize: nat, h: Headers, before: map<nat, int>, after: map<nat, int>)
    requires mem in before && b in h && b !in before && b in after && newsize <= after[b]
    requires after[b] == if h[b].next - (b + 16) >= newsize + 32 then newsize else h[b].next - (b + 16)
    requires after == before[b := after[b]] - {mem}
    requires KeepsUser(m, m1, before)
    requires CameAlong(m1, m2, mem + SIZEOF_STRUCT_MEM, b + SIZEOF_STRUCT_MEM, before[mem], newsize)
    requires KeepsUser(m1, m2, before - {mem, b})
    ensures Moved(mem, b + SIZEOF_STRUCT_MEM, newsize, h, before, after, m, m2)
    ensures KeepsUser(m, m2, before - {mem})
  {
    KeepsSlice(m, m1, mem, if before[mem] < newsize then before[mem] else newsize, before);
    KeepsUserLess(m, m1, before, before - {mem});
    assert before - {mem, b} == before - {mem};
    KeepsUserTrans(m, m1, m2, before - {mem});
  }

  lemma MoveChain(m0: seq<int>, m1: seq<int>, m2: seq<int>, mem: nat, b: nat, newsize: nat, live: map<nat, int>)
    requires mem in live && b in live && mem != b && newsize <= live[b]
    requires b + SIZEOF_STRUCT_MEM + newsize <= |m1|
    requires CameAlong(m0, m1, mem + SIZEOF_STRUCT_MEM, b + SIZEOF_STRUCT_MEM, live[mem], newsize)
    requires KeepsUser(m0, m1, live - {b}) && KeepsUser(m1, m2, live - {mem})
    ensures CameAlong(m0, m2, mem + SIZEOF_STRUCT_MEM, b + SIZEOF_STRUCT_MEM, live[mem], newsize)
    ensures KeepsUser(m0, m2, live - {mem, b})
  {
    KeepsSlice(m1, m2, b, if live[mem] < newsize then live[mem] else newsize, live - {mem});
    KeepsUserLess(m0, m1, live - {b}, live - {mem, b});
    KeepsUserLess(m1, m2, live - {mem}, live - {mem, b});
    KeepsUserTrans(m0, m1, m2, live - {mem, b});
  }

  lemma KeepsSlice(m: seq<int>, m': seq<int>, b: nat, n: nat, keep: map<nat, int>)
    requires KeepsUser(m, m', keep) && b in keep && n <= keep[b]
    requires b + SIZEOF_STRUCT_MEM + n <= |m|
    ensures m'[b + SIZEOF_STRUCT_MEM..b + SIZEOF_STRUCT_MEM + n] == m[b + SIZEOF_STRUCT_MEM..b + SIZEOF_STRUCT_MEM + n]
  {
    forall i | b + SIZEOF_STRUCT_MEM <= i < b + SIZEOF_STRUCT_MEM + n ensures m'[i] == m[i] {
      assert InUser(keep, b, i);
    }
  }

  lemma Apart(h: Headers, bs: set<nat>, end: nat, b: nat, c: nat)
    requires Tiling(h, bs, end) && b in Live(h, bs, end) && c in Live(h, bs, end) && b != c
    ensures var live := Live(h, bs, end);
      && 0 <= live[b] && b + SIZEOF_STRUCT_MEM + live[b] <= end
      && 0 <= live[c] && c + SIZEOF_STRUCT_MEM + live[c] <= end
      && (b + SIZEOF_STRUCT_MEM + live[b] <= c || c + SIZEOF_STRUCT_MEM + live[c] <= b)
  {
    LiveRegionsDisjoint(h, bs, end, b, c);
    LiveRegionsDisjoint(h, bs, end, c, b);
  }

  /** rt_system_heap_init: no heap at all when the aligned range cannot hold two headers. */
  method SystemHeapInit(begin: nat, end: nat, memory: seq<int>) returns (heap: Heap?)
    requires AlignUp(begin) <= AlignDown(end) ==> |memory| == AlignDown(end) - AlignUp(begin)
    ensures heap != null <==>
      AlignDown(end) > 2 * SIZEOF_STRUCT_MEM &&
      AlignUp(begin) + 2 * SIZEOF_STRUCT_MEM <= AlignDown(end)
    ensures heap != null ==> fresh(heap) && heap.Valid() && heap.LiveBlocks() == map[] && heap.usedMem == 0
    ensures heap != null ==> heap.HeapEnd() + SIZEOF_STRUCT_MEM == AlignDown(end) - AlignUp(begin)
  {
    var first, last := AlignUp(begin), AlignDown(end);
    if last > 2 * SIZEOF_STRUCT_MEM && last - 2 * SIZEOF_STRUCT_MEM >= first {
      heap := new Heap(last - first - 2 * SIZEOF_STRUCT_MEM, memory);
    } else {
      heap := null;
    }
  }

  /**
    "NULL means that no free block is large enough" does not hold of the code: on every fresh heap
    the one block of mem_size_aligned bytes is refused, since the search bound is strict.
   */
  method ExactFitRefused(size: nat, memory: seq<int>) returns (heap: Heap, p: Ptr)
    requires size % 16 == 0 && 0 < size && |memory| == size + 2 * SIZEOF_STRUCT_MEM
    ensures fresh(heap) && heap.Valid() && heap.LiveBlocks() == map[]
    ensures p.Null? && Fits(heap.hdr, heap.blocks, 0, size)
  {
    heap := new Heap(size, memory);
    AlignUpFixed(size);
    p := heap.Malloc(size);
  }
}
