/**
  The layout of a memheap pool, rt-thread/kernel/src/memheap.c, in terms of HeapBlocks: items are
  tiles with a header of 32 bytes, and the tailer's prev is kept up.

  The ring is cut open at the tailer: its next, set once to the first item and never followed, reads
  as itself here, and so does the first item's prev, the tailer.
 */
module MemHeapBlocks {
  import opened Queues
  import opened HeapBlocks

  /** RT_MEMHEAP_SIZE: six words, aligned to 16. */
  const ITEM: nat := 32
  /** RT_MEMHEAP_MINIALLOC */
  const MINIALLOC: nat := 12

  /** Every item has room for its header, and the tailer knows the item before it. */
  ghost predicate Laid(h: Headers, bs: set<nat>, end: nat) {
    && Tiling(h, bs, end)
    && (forall b {:trigger b in bs} :: b in bs && b != end ==> b + ITEM <= h[b].next)
    && h[end].prev in bs && h[end].prev != end && h[h[end].prev].next == end
  }

  /** Payloads are aligned and meet neither each other nor any header. */
  lemma PayloadsApart(h: Headers, bs: set<nat>, end: nat, b: nat, c: nat)
    requires Laid(h, bs, end) && b in bs && c in bs && b != end && b != c
    ensures (b + ITEM) % 16 == 0 && b + ITEM <= h[b].next <= end
    ensures b < c ==> h[b].next <= c
    ensures c < b ==> c + ITEM <= h[c].next <= b
  {
    assert BlockOk(h, bs, end, b) && BlockOk(h, bs, end, c);
    assert h[b].next in bs;
    assert b < c ==> Before(h, b, c);
    assert c < b ==> Before(h, c, b);
  }

  function TailPrev(h: Headers, end: nat, p: nat): Headers
    requires end in h
  {
    h[end := h[end].(prev := p)]
  }

  lemma TailPrevTiling(h: Headers, bs: set<nat>, end: nat, p: nat)
    requires Tiling(h, bs, end)
    ensures Tiling(TailPrev(h, end, p), bs, end)
  {
    var g := TailPrev(h, end, p);
    forall b | b in bs ensures BlockOk(g, bs, end, b) {
      assert BlockOk(h, bs, end, b);
    }
    SameOrder(h, g, bs);
  }

  lemma TailPrevRest(h: Headers, bs: set<nat>, end: nat, p: nat)
    requires bs <= h.Keys && end in bs
    ensures Coalesced(h, bs) ==> Coalesced(TailPrev(h, end, p), bs)
    ensures UsedSum(TailPrev(h, end, p), bs) == UsedSum(h, bs)
  {
    UsedSumSame(h, TailPrev(h, end, p), bs);
  }

  // ----- Cutting an item in two -----

  ghost predicate CanCut(h: Headers, bs: set<nat>, end: nat, b: nat, p2: nat) {
    Laid(h, bs, end) && b in bs && b != end && p2 % 16 == 0 && b + ITEM <= p2 && p2 + ITEM <= h[b].next
  }

  /** Headers after cutting item b at p2: b is used, p2 is free. */
  ghost function Cut(h: Headers, bs: set<nat>, end: nat, b: nat, p2: nat): Headers
    requires CanCut(h, bs, end, b, p2)
  {
    SplitTiling(h, bs, end, b, p2);
    var g := SplitHeaders(h, end, b, p2);
    if h[b].next == end then TailPrev(g, end, p2) else g
  }

  lemma CutTiling(h: Headers, bs: set<nat>, end: nat, b: nat, p2: nat)
    requires CanCut(h, bs, end, b, p2)
    ensures p2 !in bs && Tiling(Cut(h, bs, end, b, p2), bs + {p2}, end)
  {
    SplitTiling(h, bs, end, b, p2);
    TailPrevTiling(SplitHeaders(h, end, b, p2), bs + {p2}, end, p2);
  }

  lemma CutLaid(h: Headers, bs: set<nat>, end: nat, b: nat, p2: nat)
    requires CanCut(h, bs, end, b, p2)
    ensures p2 !in bs && Laid(Cut(h, bs, end, b, p2), bs + {p2}, end)
  {
    CutTiling(h, bs, end, b, p2);
    SplitFresh(h, bs, end, b, p2);
    assert BlockOk(h, bs, end, b);
  }

  lemma CutCoalesced(h: Headers, bs: set<nat>, end: nat, b: nat, p2: nat)
    requires CanCut(h, bs, end, b, p2) && Coalesced(h, bs)
    ensures bs + {p2} <= Cut(h, bs, end, b, p2).Keys
    ensures CoalescedBut(Cut(h, bs, end, b, p2), bs + {p2}, p2)
    ensures h[b].next in h && h[h[b].next].used ==> Coalesced(Cut(h, bs, end, b, p2), bs + {p2})
  {
    SplitTiling(h, bs, end, b, p2);
    SplitCoalesced(h, bs, end, b, p2);
    TailPrevRest(SplitHeaders(h, end, b, p2), bs + {p2}, end, p2);
  }

  lemma CutSum(h: Headers, bs: set<nat>, end: nat, b: nat, p2: nat)
    requires CanCut(h, bs, end, b, p2)
    ensures bs + {p2} <= Cut(h, bs, end, b, p2).Keys
    ensures UsedSum(Cut(h, bs, end, b, p2), bs + {p2}) == UsedSum(h, bs) - Weight(h, b) + (p2 - b)
  {
    SplitTiling(h, bs, end, b, p2);
    SplitSum(h, bs, end, b, p2);
    TailPrevRest(SplitHeaders(h, end, b, p2), bs + {p2}, end, p2);
  }

  /** Which items are used, after the cut. */
  lemma CutUsed(h: Headers, bs: set<nat>, end: nat, b: nat, p2: nat)
    requires CanCut(h, bs, end, b, p2)
    ensures var g := Cut(h, bs, end, b, p2);
      && p2 in g && !g[p2].used && g[p2].next == h[b].next && b in g && g[b].used && g[b].next == p2
      && forall c {:trigger c in bs} :: c in bs && c != b ==> c in g && g[c].used == h[c].used && g[c].next == h[c].next
  {
    SplitTiling(h, bs, end, b, p2);
  }

  // ----- Joining two free items -----

  lemma JoinLaid(h: Headers, bs: set<nat>, end: nat, b: nat)
    requires Laid(h, bs, end) && CanMerge(h, bs, end, b)
    ensures h[h[b].next].next in h && Laid(MergeHeaders(h, b), bs - {h[b].next}, end)
  {
    MergeNext(h, bs, end, b);
    MergeTiling(h, bs, end, b);
  }

  lemma JoinUsed(h: Headers, bs: set<nat>, end: nat, b: nat)
    requires CanMerge(h, bs, end, b)
    ensures h[h[b].next].next in h
    ensures var g := MergeHeaders(h, b);
      && b in g && g[b].next == h[h[b].next].next && !g[b].used
      && forall c {:trigger c in bs} :: c in bs && c != b ==> c in g && g[c].used == h[c].used && g[c].next == h[c].next
  {
    MergeNext(h, bs, end, b);
  }

  lemma MarkLaid(h: Headers, bs: set<nat>, end: nat, b: nat, used: bool)
    requires Laid(h, bs, end) && b in bs && b != end
    ensures Laid(MarkHeaders(h, b, used), bs, end)
  {
    MarkTiling(h, bs, end, b, used);
  }

  // ----- Repairing the borders of a freed item: first the one before it, then the one behind -----

  /** Coalesced, except perhaps between b and the item behind it. */
  ghost predicate CoalescedButAfter(h: Headers, bs: set<nat>, b: nat)
    requires bs <= h.Keys
  {
    forall c {:trigger c in bs} :: c in bs && !h[c].used && c != b ==> h[c].next in h && h[h[c].next].used
  }

  lemma JoinBackward(h: Headers, bs: set<nat>, end: nat, p: nat)
    requires CanMerge(h, bs, end, p) && CoalescedBut(h, bs, h[p].next)
    ensures h[h[p].next].next in h && bs - {h[p].next} <= MergeHeaders(h, p).Keys
    ensures CoalescedButAfter(MergeHeaders(h, p), bs - {h[p].next}, p)
  {
    MergeNext(h, bs, end, p);
    var b := h[p].next;
    var g, bs' := MergeHeaders(h, p), bs - {b};
    forall c | c in bs' && !g[c].used && c != p ensures g[c].next in g && g[g[c].next].used {
      assert BlockOk(h, bs, end, c);
      assert h[c].next != b by {
        assert BlockOk(h, bs, end, b) && BlockOk(h, bs, end, p);
      }
    }
  }

  lemma NoJoinBackward(h: Headers, bs: set<nat>, end: nat, b: nat)
    requires Tiling(h, bs, end) && b in bs && b != end && CoalescedBut(h, bs, b)
    requires b == 0 || (h[b].prev in h && h[h[b].prev].used)
    ensures CoalescedButAfter(h, bs, b)
  {
    assert BlockOk(h, bs, end, b);
    forall c | c in bs && !h[c].used && c != b ensures h[c].next in h && h[h[c].next].used {
      assert BlockOk(h, bs, end, c);
    }
  }

  lemma JoinForward(h: Headers, bs: set<nat>, end: nat, b: nat)
    requires CanMerge(h, bs, end, b) && CoalescedButAfter(h, bs, b)
    ensures h[h[b].next].next in h && bs - {h[b].next} <= MergeHeaders(h, b).Keys
    ensures Coalesced(MergeHeaders(h, b), bs - {h[b].next})
  {
    MergeNext(h, bs, end, b);
    var n := h[b].next;
    var g, bs' := MergeHeaders(h, b), bs - {n};
    forall c | c in bs' && !g[c].used ensures g[c].next in g && g[g[c].next].used {
      assert n in bs;
      if c != b {
        assert BlockOk(h, bs, end, c);
      }
    }
  }

  lemma NoJoinForward(h: Headers, bs: set<nat>, b: nat)
    requires bs <= h.Keys && CoalescedButAfter(h, bs, b) && b in bs && h[b].next in h && h[h[b].next].used
    ensures Coalesced(h, bs)
  {
  }

  // ----- The free list and the byte count -----

  /** free holds exactly the items that are not used, once each. */
  ghost predicate Listed(h: Headers, bs: set<nat>, free: seq<nat>)
    requires bs <= h.Keys
  {
    NoDup(free) && forall b {:trigger b in bs} {:trigger b in free} :: b in free <==> b in bs && !h[b].used
  }

  /** Bytes available by the books: what is not used, less a header for each free item. */
  ghost function Books(h: Headers, bs: set<nat>, end: nat, k: nat): int
    requires bs <= h.Keys
  {
    end - UsedSum(h, bs) - ITEM * k
  }

  ghost function Payload(h: Headers, b: nat): int
    requires b in h
  {
    h[b].next - b - ITEM
  }

  ghost function PayloadSum(h: Headers, free: seq<nat>): int
    requires forall b :: b in free ==> b in h
  {
    if free == [] then 0 else Payload(h, free[0]) + PayloadSum(h, free[1..])
  }

  /** Bytes in free items, one by one. */
  lemma {:induction false} FreeBytes(h: Headers, bs: set<nat>, free: seq<nat>)
    requires bs <= h.Keys && Listed(h, bs, free)
    ensures UsedSum(Flipped(h), bs) == PayloadSum(h, free) + ITEM * |free|
    decreases |free|
  {
    var f := Flipped(h);
    if free == [] {
      NoWeight(f, bs);
    } else {
      var b, rest := free[0], free[1..];
      assert b in free;
      UsedSumRemove(f, bs, b);
      assert NoDup(rest) && b !in rest && free == [b] + rest;
      FreeBytes(h, bs - {b}, rest);
    }
  }

  lemma {:induction false} NoWeight(h: Headers, bs: set<nat>)
    requires bs <= h.Keys && forall b :: b in bs ==> !h[b].used
    ensures UsedSum(h, bs) == 0
    decreases |bs|
  {
    if bs != {} {
      var b :| b in bs;
      UsedSumRemove(h, bs, b);
      NoWeight(h, bs - {b});
    }
  }

  /** The books are right: they show the sum of the payloads of the free items. */
  lemma BooksAreRight(h: Headers, bs: set<nat>, end: nat, free: seq<nat>)
    requires Tiling(h, bs, end) && Listed(h, bs, free)
    ensures Books(h, bs, end, |free|) == PayloadSum(h, free)
  {
    UsedPlusFree(h, bs, end);
    FreeBytes(h, bs, free);
  }
}
