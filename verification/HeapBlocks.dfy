/**
  The small-memory allocator of rt-thread/kernel/src/mem.c.

  Memory is a byte sequence addressed by offsets from heap_ptr.  The in-band block headers are
  read through `hdr`, a map from header offset to header; every header write also destroys the
  bytes under it, and every user write destroys any header record it lands on, so keeping user
  data and headers apart is something that has to be proved.
 */
module HeapBlocks {

  const SIZEOF_STRUCT_MEM: nat := 16
  const SIZEOF_HEADER: nat := 12
  const MIN_SIZE: nat := 12
  const MIN_SIZE_ALIGNED: nat := 16

  datatype Header = Header(used: bool, next: nat, prev: nat)

  type Headers = map<nat, Header>

  // ----- Tiling: the headers in `bs` cut [0, end) into blocks -----

  /** The links of one block agree with its neighbours; prev of heap_end is not maintained. */
  ghost predicate BlockOk(h: Headers, bs: set<nat>, end: nat, b: nat)
    requires bs <= h.Keys && b in bs
  {
    && b % 16 == 0
    && (b == 0 ==> h[b].prev == 0)
    && (b != end ==>
          && b + SIZEOF_STRUCT_MEM <= h[b].next
          && h[b].next in bs
          && (h[b].next != end ==> h[h[b].next].prev == b))
    && (b != 0 && b != end ==>
          h[b].prev in bs && h[b].prev < b && h[h[b].prev].next == b)
  }

  /** Block b ends before c begins. */
  ghost predicate Before(h: Headers, b: nat, c: nat) {
    b in h && h[b].next <= c
  }

  ghost predicate Tiling(h: Headers, bs: set<nat>, end: nat) {
    && bs <= h.Keys && 0 in bs && end in bs && 0 < end
    && h[end].used && h[end].next == end
    && (forall b {:trigger BlockOk(h, bs, end, b)} :: b in bs ==> BlockOk(h, bs, end, b))
    && (forall b, c {:trigger Before(h, b, c)} :: b in bs && c in bs && b < c ==> Before(h, b, c))
    && (forall b {:trigger b in bs} :: b in bs ==> b <= end)
  }

  /** No two neighbouring blocks are both free. */
  ghost predicate Coalesced(h: Headers, bs: set<nat>)
    requires bs <= h.Keys
  {
    forall b {:trigger b in bs} :: b in bs && !h[b].used ==> h[b].next in h && h[h[b].next].used
  }

  /** lfree is the lowest free block, or heap_end when there is none. */
  ghost predicate LowestFree(h: Headers, bs: set<nat>, end: nat, lfree: nat)
    requires bs <= h.Keys
  {
    && lfree in bs
    && (lfree == end || !h[lfree].used)
    && NothingFreeBelow(h, bs, lfree)
  }

  ghost predicate NothingFreeBelow(h: Headers, bs: set<nat>, p: nat)
    requires bs <= h.Keys
  {
    forall b {:trigger b in bs} :: b in bs && !h[b].used ==> p <= b
  }

  // ----- The abstract state: which blocks are handed out, and how large they are -----

  /** Live blocks, by header offset, with the number of user bytes each one owns. */
  ghost function Live(h: Headers, bs: set<nat>, end: nat): map<nat, int>
    requires bs <= h.Keys
  {
    map b | b in bs && b != end && h[b].used :: h[b].next - b - SIZEOF_STRUCT_MEM
  }

  ghost predicate InUser(live: map<nat, int>, b: nat, i: int) {
    b in live && b + SIZEOF_STRUCT_MEM <= i < b + SIZEOF_STRUCT_MEM + live[b]
  }

  /** Every user byte of the given blocks is the same in both memories. */
  ghost predicate KeepsUser(m: seq<int>, m': seq<int>, live: map<nat, int>) {
    && |m| == |m'|
    && forall b, i {:trigger InUser(live, b, i)} ::
      InUser(live, b, i) && 0 <= i < |m| ==> m'[i] == m[i]
  }

  /** Live regions are aligned, inside the heap and pairwise disjoint, headers included. */
  lemma LiveRegionsDisjoint(h: Headers, bs: set<nat>, end: nat, b: nat, c: nat)
    requires Tiling(h, bs, end)
    requires b in Live(h, bs, end) && c in Live(h, bs, end)
    ensures (b + SIZEOF_STRUCT_MEM) % 16 == 0
    ensures 0 <= Live(h, bs, end)[b]
    ensures b + SIZEOF_STRUCT_MEM + Live(h, bs, end)[b] <= end
    ensures b < c ==> b + SIZEOF_STRUCT_MEM + Live(h, bs, end)[b] <= c
  {
    assert BlockOk(h, bs, end, b);
    assert b < c ==> Before(h, b, c);
  }

  // ----- Accounting -----

  ghost function Weight(h: Headers, b: nat): int
    requires b in h
  {
    if h[b].used then h[b].next - b else 0
  }

  /** Bytes covered by used blocks, headers included: what used_mem is meant to be. */
  ghost function UsedSum(h: Headers, bs: set<nat>): int
    requires bs <= h.Keys
  {
    if bs == {} then 0 else
      var b :| b in bs;
      Weight(h, b) + UsedSum(h, bs - {b})
  }

  lemma {:induction false} UsedSumRemove(h: Headers, bs: set<nat>, b: nat)
    requires bs <= h.Keys && b in bs
    ensures UsedSum(h, bs) == Weight(h, b) + UsedSum(h, bs - {b})
    decreases |bs|
  {
    var c :| c in bs && UsedSum(h, bs) == Weight(h, c) + UsedSum(h, bs - {c});
    if c != b {
      UsedSumRemove(h, bs - {c}, b);
      UsedSumRemove(h, bs - {b}, c);
      assert bs - {c} - {b} == bs - {b} - {c};
    }
  }

  lemma {:induction false} UsedSumSame(h: Headers, g: Headers, bs: set<nat>)
    requires bs <= h.Keys && bs <= g.Keys
    requires forall b :: b in bs ==> Weight(h, b) == Weight(g, b)
    ensures UsedSum(h, bs) == UsedSum(g, bs)
    decreases |bs|
  {
    if bs != {} {
      var b :| b in bs;
      UsedSumRemove(h, bs, b);
      UsedSumRemove(g, bs, b);
      UsedSumSame(h, g, bs - {b});
    }
  }

  /** Changing one block's header moves the sum by the change of that block's weight. */
  lemma UsedSumChange(h: Headers, g: Headers, bs: set<nat>, b: nat)
    requires bs <= h.Keys && bs <= g.Keys && b in bs
    requires forall c :: c in bs && c != b ==> Weight(h, c) == Weight(g, c)
    ensures UsedSum(g, bs) == UsedSum(h, bs) - Weight(h, b) + Weight(g, b)
  {
    UsedSumRemove(h, bs, b);
    UsedSumRemove(g, bs, b);
    UsedSumSame(h, g, bs - {b});
  }

  // ----- Splitting a block -----

  /** Headers after cutting block b at p2: b keeps the front, a free block starts at p2. */
  function SplitHeaders(h: Headers, end: nat, b: nat, p2: nat): Headers
    requires b in h && h[b].next in h && p2 !in h.Keys * {b, h[b].next}
  {
    var nx := h[b].next;
    var h1 := h[p2 := Header(false, nx, b)];
    var h2 := h1[b := Header(true, p2, h[b].prev)];
    if nx != end then h2[nx := h2[nx].(prev := p2)] else h2
  }

  ghost predicate CanSplit(h: Headers, bs: set<nat>, end: nat, b: nat, p2: nat) {
    && Tiling(h, bs, end) && b in bs && b != end
    && p2 % 16 == 0
    && b + SIZEOF_STRUCT_MEM <= p2 && p2 + SIZEOF_STRUCT_MEM <= h[b].next
  }

  lemma SplitFresh(h: Headers, bs: set<nat>, end: nat, b: nat, p2: nat)
    requires CanSplit(h, bs, end, b, p2)
    ensures p2 !in bs && h[b].next in bs && p2 != b && p2 != h[b].next && h[b].next != b
    ensures forall c {:trigger c in bs} :: c in bs ==> c <= b || h[b].next <= c
  {
    assert BlockOk(h, bs, end, b);
    assert p2 in bs ==> Before(h, b, p2);
    forall c | c in bs ensures c <= b || h[b].next <= c {
      assert b < c ==> Before(h, b, c);
    }
  }

  lemma SplitBlockOk(h: Headers, bs: set<nat>, end: nat, b: nat, p2: nat, c: nat)
    requires CanSplit(h, bs, end, b, p2) && c in bs + {p2}
    requires h[b].next in h && p2 !in {b, h[b].next}
    ensures bs + {p2} <= SplitHeaders(h, end, b, p2).Keys
    ensures BlockOk(SplitHeaders(h, end, b, p2), bs + {p2}, end, c)
  {
    SplitFresh(h, bs, end, b, p2);
    assert BlockOk(h, bs, end, b);
    if c != p2 {
      assert BlockOk(h, bs, end, c);
      if c != end { assert BlockOk(h, bs, end, h[c].next); }
      if c != 0 && c != end { assert BlockOk(h, bs, end, h[c].prev); }
    }
  }

  lemma SplitOrder(h: Headers, bs: set<nat>, end: nat, b: nat, p2: nat, c: nat, d: nat)
    requires CanSplit(h, bs, end, b, p2) && c in bs + {p2} && d in bs + {p2} && c < d
    requires h[b].next in h && p2 !in {b, h[b].next}
    ensures Before(SplitHeaders(h, end, b, p2), c, d)
  {
    SplitFresh(h, bs, end, b, p2);
    var g := SplitHeaders(h, end, b, p2);
    assert c != p2 && c != b ==> g[c].next == h[c].next;
    assert c in bs && d in bs ==> Before(h, c, d);
    assert c in bs && c < b ==> Before(h, c, b);
  }

  lemma SplitTiling(h: Headers, bs: set<nat>, end: nat, b: nat, p2: nat)
    requires CanSplit(h, bs, end, b, p2)
    ensures p2 !in bs && h[b].next in h && p2 !in {b, h[b].next}
    ensures Tiling(SplitHeaders(h, end, b, p2), bs + {p2}, end)
  {
    SplitFresh(h, bs, end, b, p2);
    var g, bs' := SplitHeaders(h, end, b, p2), bs + {p2};
    assert bs' <= g.Keys;
    assert forall c {:trigger BlockOk(g, bs', end, c)} :: c in bs' ==> BlockOk(g, bs', end, c) by {
      forall c | c in bs' ensures BlockOk(g, bs', end, c) {
        SplitBlockOk(h, bs, end, b, p2, c);
      }
    }
    assert forall c, d {:trigger Before(g, c, d)} :: c in bs' && d in bs' && c < d ==> Before(g, c, d) by {
      forall c, d | c in bs' && d in bs' && c < d ensures Before(g, c, d) {
        SplitOrder(h, bs, end, b, p2, c, d);
      }
    }
  }

  lemma SplitLive(h: Headers, bs: set<nat>, end: nat, b: nat, p2: nat)
    requires CanSplit(h, bs, end, b, p2)
    requires h[b].next in h && p2 !in bs && p2 !in {b, h[b].next}
    ensures bs + {p2} <= SplitHeaders(h, end, b, p2).Keys
    ensures Live(SplitHeaders(h, end, b, p2), bs + {p2}, end)
         == Live(h, bs, end)[b := p2 - b - SIZEOF_STRUCT_MEM]
  {
    var g := SplitHeaders(h, end, b, p2);
    assert h[b].next != b by { assert BlockOk(h, bs, end, b); }
    assert g[b].used && g[b].next == p2 && !g[p2].used;
    assert forall c {:trigger c in bs} :: c in bs && c != b ==> g[c].used == h[c].used && g[c].next == h[c].next;
    LiveSet(h, bs, g, end, b, p2);
  }

  /** Only b, which ends at the free block p2 now, is live differently. */
  lemma LiveSet(h: Headers, bs: set<nat>, g: Headers, end: nat, b: nat, p2: nat)
    requires bs <= h.Keys && b in bs && b != end && p2 !in bs && bs + {p2} <= g.Keys
    requires g[b].used && g[b].next == p2 && !g[p2].used
    requires forall c {:trigger c in bs} :: c in bs && c != b ==> g[c].used == h[c].used && g[c].next == h[c].next
    ensures Live(g, bs + {p2}, end) == Live(h, bs, end)[b := p2 - b - SIZEOF_STRUCT_MEM]
  {
  }

  lemma SplitSum(h: Headers, bs: set<nat>, end: nat, b: nat, p2: nat)
    requires bs <= h.Keys && b in bs && h[b].next in h && b != h[b].next
    requires p2 !in bs && p2 !in {b, h[b].next}
    ensures bs + {p2} <= SplitHeaders(h, end, b, p2).Keys
    ensures UsedSum(SplitHeaders(h, end, b, p2), bs + {p2})
         == UsedSum(h, bs) - Weight(h, b) + (p2 - b)
  {
    var g, bs' := SplitHeaders(h, end, b, p2), bs + {p2};
    UsedSumRemove(g, bs', p2);
    assert bs' - {p2} == bs;
    UsedSumChange(h, g, bs, b);
  }

  // ----- Merging a block with its successor -----

  /** Headers after block b has swallowed the block behind it. */
  function MergeHeaders(h: Headers, b: nat): Headers
    requires b in h && h[b].next in h && h[h[b].next].next in h
  {
    var nn := h[h[b].next].next;
    var h1 := h[b := h[b].(next := nn)];
    h1[nn := h1[nn].(prev := b)]
  }

  ghost predicate CanMerge(h: Headers, bs: set<nat>, end: nat, b: nat) {
    && Tiling(h, bs, end) && b in bs && b != end && h[b].next in bs && h[b].next != end
    && !h[b].used && !h[h[b].next].used
  }

  lemma MergeNext(h: Headers, bs: set<nat>, end: nat, b: nat)
    requires CanMerge(h, bs, end, b)
    ensures b < h[b].next < h[h[b].next].next
    ensures h[h[b].next].next in bs
    ensures forall c {:trigger c in bs} :: c in bs ==> c <= b || c == h[b].next || h[h[b].next].next <= c
  {
    assert BlockOk(h, bs, end, b);
    assert BlockOk(h, bs, end, h[b].next);
    forall c | c in bs ensures c <= b || c == h[b].next || h[h[b].next].next <= c {
      assert b < c ==> Before(h, b, c);
      assert h[b].next < c ==> Before(h, h[b].next, c);
    }
  }

  lemma MergeBlockOk(h: Headers, bs: set<nat>, end: nat, b: nat, c: nat)
    requires CanMerge(h, bs, end, b) && h[h[b].next].next in h
    requires c in bs - {h[b].next}
    ensures bs <= MergeHeaders(h, b).Keys
    ensures BlockOk(MergeHeaders(h, b), bs - {h[b].next}, end, c)
  {
    MergeNext(h, bs, end, b);
    assert BlockOk(h, bs, end, b);
    assert BlockOk(h, bs, end, h[b].next);
    assert BlockOk(h, bs, end, c);
    if c != end { assert BlockOk(h, bs, end, h[c].next); }
    if c != 0 && c != end { assert BlockOk(h, bs, end, h[c].prev); }
  }

  lemma MergeTiling(h: Headers, bs: set<nat>, end: nat, b: nat)
    requires CanMerge(h, bs, end, b)
    ensures h[h[b].next].next in h
    ensures Tiling(MergeHeaders(h, b), bs - {h[b].next}, end)
  {
    MergeNext(h, bs, end, b);
    var g, bs' := MergeHeaders(h, b), bs - {h[b].next};
    forall c | c in bs' ensures BlockOk(g, bs', end, c) {
      MergeBlockOk(h, bs, end, b, c);
    }
    forall c, d | c in bs' && d in bs' && c < d ensures Before(g, c, d) {
      assert c != b ==> Before(h, c, d);
    }
  }

  lemma MergeLive(h: Headers, bs: set<nat>, end: nat, b: nat)
    requires CanMerge(h, bs, end, b) && h[h[b].next].next in h
    ensures bs - {h[b].next} <= MergeHeaders(h, b).Keys
    ensures Live(MergeHeaders(h, b), bs - {h[b].next}, end) == Live(h, bs, end)
  {
    MergeNext(h, bs, end, b);
  }

  lemma MergeSum(h: Headers, bs: set<nat>, b: nat)
    requires bs <= h.Keys && b in bs && h[b].next in bs && h[h[b].next].next in h
    requires !h[b].used && !h[h[b].next].used && b != h[b].next
    requires h[h[b].next].next !in {b, h[b].next}
    ensures bs - {h[b].next} <= MergeHeaders(h, b).Keys
    ensures UsedSum(MergeHeaders(h, b), bs - {h[b].next}) == UsedSum(h, bs)
  {
    var n := h[b].next;
    UsedSumRemove(h, bs, n);
    UsedSumSame(h, MergeHeaders(h, b), bs - {n});
  }

  // ----- Switching a block between free and used -----

  function MarkHeaders(h: Headers, b: nat, used: bool): Headers
    requires b in h
  {
    h[b := h[b].(used := used)]
  }

  /** The order of blocks is a matter of their next fields alone. */
  lemma SameOrder(h: Headers, g: Headers, bs: set<nat>)
    requires bs <= h.Keys && bs <= g.Keys && (forall b {:trigger g[b]} :: b in bs ==> g[b].next == h[b].next)
    requires forall b, c {:trigger Before(h, b, c)} :: b in bs && c in bs && b < c ==> Before(h, b, c)
    ensures forall b, c {:trigger Before(g, b, c)} :: b in bs && c in bs && b < c ==> Before(g, b, c)
  {
    forall b, c | b in bs && c in bs && b < c ensures Before(g, b, c) {
      assert Before(h, b, c);
    }
  }

  lemma MarkTiling(h: Headers, bs: set<nat>, end: nat, b: nat, used: bool)
    requires Tiling(h, bs, end) && b in bs && b != end
    ensures Tiling(MarkHeaders(h, b, used), bs, end)
  {
    var g := MarkHeaders(h, b, used);
    forall c | c in bs ensures BlockOk(g, bs, end, c) {
      assert BlockOk(h, bs, end, c);
    }
    SameOrder(h, g, bs);
  }

  lemma MarkLive(h: Headers, bs: set<nat>, end: nat, b: nat, used: bool)
    requires bs <= h.Keys && b in bs && b != end
    ensures Live(MarkHeaders(h, b, used), bs, end)
         == if used then Live(h, bs, end)[b := h[b].next - b - SIZEOF_STRUCT_MEM]
            else Live(h, bs, end) - {b}
  {}

  lemma MarkSum(h: Headers, bs: set<nat>, b: nat, used: bool)
    requires bs <= h.Keys && b in bs
    ensures UsedSum(MarkHeaders(h, b, used), bs)
         == UsedSum(h, bs) - Weight(h, b) + (if used then h[b].next - b else 0)
  {
    UsedSumChange(h, MarkHeaders(h, b, used), bs, b);
  }

  // ----- Restoring the no-two-free-neighbours property around one block -----

  /** Coalesced, except perhaps between b and either neighbour. */
  ghost predicate CoalescedBut(h: Headers, bs: set<nat>, b: nat)
    requires bs <= h.Keys
  {
    forall c {:trigger c in bs} :: c in bs && !h[c].used && c != b && h[c].next != b ==>
      h[c].next in h && h[h[c].next].used
  }

  /** Coalesced, except perhaps between b and the block before it. */
  ghost predicate CoalescedButBefore(h: Headers, bs: set<nat>, b: nat)
    requires bs <= h.Keys
  {
    forall c {:trigger c in bs} :: c in bs && !h[c].used && h[c].next != b ==>
      h[c].next in h && h[h[c].next].used
  }

  /** Freeing a block leaves only its own two borders to be repaired. */
  lemma MarkFreeCoalesced(h: Headers, bs: set<nat>, b: nat)
    requires bs <= h.Keys && Coalesced(h, bs) && b in bs
    ensures CoalescedBut(MarkHeaders(h, b, false), bs, b)
  {
  }

  lemma MarkFreeLowest(h: Headers, bs: set<nat>, end: nat, b: nat, lfree: nat)
    requires bs <= h.Keys && LowestFree(h, bs, end, lfree) && b in bs && b != end
    ensures LowestFree(MarkHeaders(h, b, false), bs, end, if b < lfree then b else lfree)
  {
  }

  lemma MergeLowest(h: Headers, bs: set<nat>, end: nat, b: nat, lfree: nat)
    requires CanMerge(h, bs, end, b) && h[h[b].next].next in h
    requires LowestFree(h, bs, end, lfree)
    ensures bs - {h[b].next} <= MergeHeaders(h, b).Keys
    ensures LowestFree(MergeHeaders(h, b), bs - {h[b].next}, end, lfree)
  {
    MergeNext(h, bs, end, b);
  }

  lemma MergeForward(h: Headers, bs: set<nat>, end: nat, b: nat)
    requires CanMerge(h, bs, end, b) && h[h[b].next].next in h
    requires CoalescedBut(h, bs, b)
    ensures bs - {h[b].next} <= MergeHeaders(h, b).Keys
    ensures CoalescedButBefore(MergeHeaders(h, b), bs - {h[b].next}, b)
  {
    MergeNext(h, bs, end, b);
    var g, bs' := MergeHeaders(h, b), bs - {h[b].next};
    forall c | c in bs' && !g[c].used && g[c].next != b
      ensures g[c].next in g && g[g[c].next].used
    {
      if c == b {
        assert h[b].next in bs;
      } else {
        assert BlockOk(h, bs, end, c);
      }
    }
  }

  lemma MergeBackward(h: Headers, bs: set<nat>, end: nat, p: nat)
    requires CanMerge(h, bs, end, p) && h[h[p].next].next in h
    requires CoalescedButBefore(h, bs, h[p].next)
    ensures bs - {h[p].next} <= MergeHeaders(h, p).Keys
    ensures Coalesced(MergeHeaders(h, p), bs - {h[p].next})
  {
    MergeNext(h, bs, end, p);
    var b := h[p].next;
    var g, bs' := MergeHeaders(h, p), bs - {b};
    forall c | c in bs' && !g[c].used ensures g[c].next in g && g[g[c].next].used {
      if c == p {
        assert b in bs;
      } else {
        assert BlockOk(h, bs, end, c);
        assert c < p ==> Before(h, c, p);
      }
    }
  }

  lemma NothingBefore(h: Headers, bs: set<nat>, end: nat, b: nat)
    requires Tiling(h, bs, end) && b in bs && b != end
    requires h[b].prev == b || (h[b].prev in h && h[h[b].prev].used)
    requires CoalescedButBefore(h, bs, b)
    ensures Coalesced(h, bs)
  {
    assert BlockOk(h, bs, end, b);
    forall c | c in bs && !h[c].used ensures h[c].next in h && h[h[c].next].used {
      assert BlockOk(h, bs, end, c);
    }
  }

  /** Cutting a block can only leave the new free block next to another free one. */
  lemma SplitCoalesced(h: Headers, bs: set<nat>, end: nat, b: nat, p2: nat)
    requires CanSplit(h, bs, end, b, p2) && Coalesced(h, bs)
    requires p2 !in bs && h[b].next in h && p2 !in {b, h[b].next}
    ensures bs + {p2} <= SplitHeaders(h, end, b, p2).Keys
    ensures CoalescedBut(SplitHeaders(h, end, b, p2), bs + {p2}, p2)
    ensures h[h[b].next].used ==> Coalesced(SplitHeaders(h, end, b, p2), bs + {p2})
  {
    SplitFresh(h, bs, end, b, p2);
    var g, bs' := SplitHeaders(h, end, b, p2), bs + {p2};
    forall c | c in bs && !g[c].used ensures g[c].next in g && g[g[c].next].used {
      assert BlockOk(h, bs, end, c);
      assert h[h[c].next].used;
    }
  }

  lemma SplitLowest(h: Headers, bs: set<nat>, end: nat, b: nat, p2: nat, lfree: nat)
    requires CanSplit(h, bs, end, b, p2) && LowestFree(h, bs, end, lfree)
    requires p2 !in bs && h[b].next in h && p2 !in {b, h[b].next}
    ensures bs + {p2} <= SplitHeaders(h, end, b, p2).Keys
    ensures !h[b].used ==>
      && NothingFreeBelow(SplitHeaders(h, end, b, p2), bs + {p2}, lfree)
      && (b == lfree || !SplitHeaders(h, end, b, p2)[lfree].used)
    ensures h[b].used ==>
      LowestFree(SplitHeaders(h, end, b, p2), bs + {p2}, end, if p2 < lfree then p2 else lfree)
  {
    SplitFresh(h, bs, end, b, p2);
    assert !h[b].used ==> lfree <= b < p2;
  }

  lemma MarkUsedLowest(h: Headers, bs: set<nat>, end: nat, b: nat, lfree: nat)
    requires bs <= h.Keys && LowestFree(h, bs, end, lfree) && b in bs && !h[b].used && b < end
    ensures NothingFreeBelow(MarkHeaders(h, b, true), bs, lfree)
    ensures b == lfree || !MarkHeaders(h, b, true)[lfree].used
  {
  }

  lemma MarkUsedCoalesced(h: Headers, bs: set<nat>, b: nat)
    requires bs <= h.Keys && Coalesced(h, bs) && b in bs
    ensures Coalesced(MarkHeaders(h, b, true), bs)
  {
  }

  // ----- What the tiling says about addresses -----

  lemma {:induction false} LargestUpTo(bs: set<nat>, i: nat) returns (b: nat)
    requires 0 in bs
    ensures b in bs && b <= i && forall c :: c in bs && c <= i ==> c <= b
    decreases i
  {
    if i in bs {
      b := i;
    } else {
      b := LargestUpTo(bs, i - 1);
    }
  }

  /** Exact tiling: every address below heap_end lies in exactly one block. */
  lemma EveryAddressInOneBlock(h: Headers, bs: set<nat>, end: nat, i: nat) returns (b: nat)
    requires Tiling(h, bs, end) && i < end
    ensures b in bs && b != end && b <= i < h[b].next
    ensures forall c :: c in bs && c != end && c <= i < h[c].next ==> c == b
  {
    b := LargestUpTo(bs, i);
    assert BlockOk(h, bs, end, b);
    forall c | c in bs && c != end && c <= i < h[c].next ensures c == b {
      assert c < b ==> Before(h, c, b);
    }
  }

  function Flipped(h: Headers): Headers {
    map b | b in h :: h[b].(used := !h[b].used)
  }

  ghost function Below(bs: set<nat>, c: nat): set<nat> {
    set b | b in bs && b < c
  }

  lemma {:induction false} LengthsBelow(h: Headers, bs: set<nat>, end: nat, c: nat)
    requires Tiling(h, bs, end) && c in bs
    ensures UsedSum(h, Below(bs, c)) + UsedSum(Flipped(h), Below(bs, c)) == c
    decreases c
  {
    if c == 0 {
      assert Below(bs, c) == {};
    } else {
      var b := LargestUpTo(bs, c - 1);
      assert h[b].next == c by { assert BlockOk(h, bs, end, b) && Before(h, b, c); }
      LengthsBelow(h, bs, end, b);
      UsedSumRemove(h, Below(bs, c), b);
      UsedSumRemove(Flipped(h), Below(bs, c), b);
      assert Below(bs, c) - {b} == Below(bs, b);
    }
  }

  /** Conservation: used and free bytes, headers included, add up to the whole heap. */
  lemma UsedPlusFree(h: Headers, bs: set<nat>, end: nat)
    requires Tiling(h, bs, end)
    ensures UsedSum(h, bs) + UsedSum(Flipped(h), bs) == end
  {
    assert bs - {end} == Below(bs, end);
    assert UsedSum(h, bs) == UsedSum(h, Below(bs, end)) by {
      UsedSumRemove(h, bs, end);
    }
    assert UsedSum(Flipped(h), bs) == UsedSum(Flipped(h), Below(bs, end)) by {
      UsedSumRemove(Flipped(h), bs, end);
    }
    LengthsBelow(h, bs, end, end);
  }
}
