/**
  rt-thread/kernel/src/memheap.c: a pool of items in address order, and a ring of the free ones, kept
  in step by alloc, free, grow-in-place and shrink-with-merge.
 */
module MemHeap {
  import opened Wrappers
  import opened Queues
  import opened HeapBlocks
  import opened MemHeapBlocks
  import opened RtList
  import opened Memory

  /** The ring of free items, through free_header. */
  class FreeRing {
    const head: nat
    var nextFree: Links
    var prevFree: Links
    ghost var items: seq<nat>

    ghost predicate Valid()
      reads this
    {
      Ring(nextFree, prevFree, [head] + items)
    }

    constructor (head: nat)
      ensures Valid() && items == [] && this.head == head
    {
      this.head := head;
      nextFree, prevFree, items := map[head := head], map[head := head], [];
    }

    /** The j-th free item, or free_header behind the last. */
    ghost function ItemAt(j: nat): nat
      requires j <= |items|
      reads this
    {
      if j < |items| then items[j] else head
    }

    /** Follow next_free from the j-th node of the ring. */
    method Behind(p: nat, ghost j: nat) returns (q: nat)
      requires Valid() && j <= |items| && p == (if j == 0 then head else items[j - 1])
      ensures q == ItemAt(j) && (q == head <==> j == |items|)
    {
      ghost var c := [head] + items;
      HeadApart(head, items);
      assert c[j] in nextFree && nextFree[c[j]] == Succ(c, j);
      q := nextFree[p];
    }

    /** Insert behind free_header. */
    method PutFront(n: nat) returns (first: nat)
      requires Valid() && n != head && n !in items
      modifies this
      ensures Valid() && items == [n] + old(items) && OnRing(old(items), head, first)
    {
      ghost var c := [head] + items;
      RingInsert(nextFree, prevFree, c, 0, n);
      assert c[..1] + [n] + c[1..] == [head] + ([n] + items);
      assert c[0] == head && Succ(c, 0) == if items == [] then head else items[0];
      first := nextFree[head];
      nextFree := nextFree[n := first];
      prevFree := prevFree[first := n];
      prevFree := prevFree[n := head];
      nextFree := nextFree[head := n];
      items := [n] + items;
    }

    /** Take off, wherever it is. */
    method TakeOff(n: nat) returns (before: nat, after: nat)
      requires Valid() && n in items
      modifies this
      ensures Valid() && items == Without(old(items), n) && |items| == |old(items)| - 1
      ensures OnRing(old(items), head, before) && OnRing(old(items), head, after)
    {
      TakeOffFacts(nextFree, prevFree, n, head, items);
      NeighboursOn(nextFree, prevFree, n, head, items);
      before, after := prevFree[n], nextFree[n];
      prevFree := prevFree[after := before];
      nextFree := nextFree[before := after];
      prevFree, nextFree := prevFree - {n}, nextFree - {n};
      items := Without(items, n);
    }

    /** Take n off, and put m in front; touched are the nodes written to. */
    method Replace(n: nat, m: nat) returns (touched: seq<nat>)
      requires Valid() && n in items && m != head && m !in Without(items, n)
      modifies this
      ensures Valid() && items == [m] + Without(old(items), n)
      ensures forall p :: p in touched ==> OnRing(old(items), head, p)
    {
      ghost var was := items;
      var before, after := TakeOff(n);
      var first := PutFront(m);
      WithoutIn(was, n, first);
      touched := [before, after, first];
    }
  }

  /** A node that ring operations write to: a free item or free_header. */
  ghost predicate OnRing(items: seq<nat>, head: nat, p: nat) {
    p == head || p in items
  }

  lemma NeighboursOn(next: Links, prev: Links, n: nat, head: nat, items: seq<nat>)
    requires Ring(next, prev, [head] + items) && n in items
    ensures n in next && n in prev && OnRing(items, head, next[n]) && OnRing(items, head, prev[n])
  {
    var c := [head] + items;
    var i :| 0 <= i < |items| && items[i] == n;
    assert c[i + 1] == n && Succ(c, i) == n;
    assert next[n] == Succ(c, i + 1) && prev[n] == c[i];
  }

  lemma TakeOffFacts(next: Links, prev: Links, n: nat, head: nat, items: seq<nat>)
    requires Ring(next, prev, [head] + items) && n in items
    ensures n in next && n in prev && next[n] != n && prev[n] != n && |Without(items, n)| == |items| - 1
    ensures Ring(next[prev[n] := next[n]] - {n}, prev[next[n] := prev[n]] - {n}, [head] + Without(items, n))
  {
    var c := [head] + items;
    var i :| 0 <= i < |items| && items[i] == n;
    assert |Without(items, n)| == |items| - 1 && [head] + Without(items, n) == c[..i + 1] + c[i + 2..] by {
      TakenOff(head, items, i);
    }
    assert c[i + 1] == n && n != head by { assert c[0] == head; }
    RingRemove(next, prev, c, i + 1);
    TakeOffRing(next, prev, n, [head] + Without(items, n), head, items);
  }

  lemma TakenOff(head: nat, items: seq<nat>, i: nat)
    requires NoDup([head] + items) && i < |items|
    ensures |Without(items, items[i])| == |items| - 1
    ensures [head] + Without(items, items[i]) == ([head] + items)[..i + 1] + ([head] + items)[i + 2..]
  {
    MembersNoDup(head, items);
    WithoutAt(items, i);
  }

  /** What the removed item's own links say does not matter. */
  lemma TakeOffRing(next: Links, prev: Links, n: nat, c: seq<nat>, head: nat, items: seq<nat>)
    requires n in next && n in prev && next[n] != n && prev[n] != n && n != head
    requires c == [head] + Without(items, n) && Ring(next[prev[n] := next[n]][n := n], prev[next[n] := prev[n]][n := n], c)
    ensures Ring(next[prev[n] := next[n]] - {n}, prev[next[n] := prev[n]] - {n}, c)
  {
    WithoutIn(items, n, n);
    RingSame(next[prev[n] := next[n]][n := n], prev[next[n] := prev[n]][n := n],
             next[prev[n] := next[n]] - {n}, prev[next[n] := prev[n]] - {n}, c);
  }

  lemma ItemsKnown(h: Headers, bs: set<nat>, free: seq<nat>)
    requires bs <= h.Keys && Listed(h, bs, free)
    ensures forall i :: 0 <= i < |free| ==> free[i] in h
  {
    forall i | 0 <= i < |free| ensures free[i] in h {
      assert free[i] in free;
    }
  }

  lemma HeadApart(head: nat, items: seq<nat>)
    requires NoDup([head] + items)
    ensures head !in items
  {
    var c := [head] + items;
    forall i | 0 <= i < |items| ensures items[i] != head {
      assert c[i + 1] == items[i] && c[0] == head;
    }
  }

  /** The used items, with the bytes each one offers. */
  ghost function UsedItems(h: Headers, bs: set<nat>, end: nat): map<nat, int>
    requires bs <= h.Keys
  {
    map b | b in bs && b != end && h[b].used :: h[b].next - b - ITEM
  }

  /** Used items differ at b only, which offers v bytes afterwards. */
  lemma ItemsSet(h: Headers, bs: set<nat>, g: Headers, bs': set<nat>, end: nat, b: nat, v: int)
    requires bs <= h.Keys && bs' <= g.Keys && b in bs' && b != end && g[b].used && g[b].next - b - ITEM == v
    requires forall c {:trigger c in bs} {:trigger c in bs'} :: c != b && c != end ==>
      (c in bs && h[c].used <==> c in bs' && g[c].used) && (c in bs && h[c].used ==> g[c].next == h[c].next)
    ensures UsedItems(g, bs', end) == UsedItems(h, bs, end)[b := v]
  {
  }

  lemma MarkItems(h: Headers, bs: set<nat>, end: nat, b: nat, used: bool)
    requires bs <= h.Keys && b in bs && b != end
    ensures UsedItems(MarkHeaders(h, b, used), bs, end) ==
      if used then UsedItems(h, bs, end)[b := h[b].next - b - ITEM] else UsedItems(h, bs, end) - {b}
  {
  }

  lemma CutItems(h: Headers, bs: set<nat>, end: nat, b: nat, p2: nat)
    requires CanCut(h, bs, end, b, p2)
    ensures bs + {p2} <= Cut(h, bs, end, b, p2).Keys
    ensures UsedItems(Cut(h, bs, end, b, p2), bs + {p2}, end) == UsedItems(h, bs, end)[b := p2 - b - ITEM]
  {
    CutLaid(h, bs, end, b, p2);
    CutUsed(h, bs, end, b, p2);
    ItemsSet(h, bs, Cut(h, bs, end, b, p2), bs + {p2}, end, b, p2 - b - ITEM);
  }

  lemma JoinItems(h: Headers, bs: set<nat>, end: nat, b: nat)
    requires CanMerge(h, bs, end, b)
    ensures h[h[b].next].next in h && bs - {h[b].next} <= MergeHeaders(h, b).Keys
    ensures UsedItems(MergeHeaders(h, b), bs - {h[b].next}, end) == UsedItems(h, bs, end)
  {
    JoinUsed(h, bs, end, b);
  }

  /** Item b is the first on the free list that is large enough. */
  ghost predicate FirstFit(h: Headers, free: seq<nat>, n: nat, b: nat)
    requires forall i :: 0 <= i < |free| ==> free[i] in h
  {
    exists j :: 0 <= j < |free| && free[j] == b && Payload(h, b) >= n && forall i :: 0 <= i < j ==> Payload(h, free[i]) < n
  }

  /** No free item is large enough. */
  ghost predicate NoFit(h: Headers, bs: set<nat>, n: nat)
    requires bs <= h.Keys
  {
    forall b :: b in bs && !h[b].used ==> Payload(h, b) < n
  }

  // ----- Bytes -----

  ghost predicate InPayload(used: map<nat, int>, b: nat, i: int) {
    b in used && b + ITEM <= i < b + ITEM + used[b]
  }

  /** Every payload byte of the given items is the same in both memories. */
  ghost predicate KeepsPayload(m: seq<int>, m': seq<int>, used: map<nat, int>) {
    && |m| == |m'|
    && forall b, i {:trigger InPayload(used, b, i)} :: InPayload(used, b, i) && 0 <= i < |m| ==> m'[i] == m[i]
  }

  lemma KeepsPayloadLess(m: seq<int>, m': seq<int>, more: map<nat, int>, less: map<nat, int>)
    requires KeepsPayload(m, m', more) && forall b :: b in less ==> b in more && less[b] <= more[b]
    ensures KeepsPayload(m, m', less)
  {
    forall b, i | InPayload(less, b, i) && 0 <= i < |m| ensures m'[i] == m[i] {
      assert InPayload(more, b, i);
    }
  }

  /** Memory after a header has been written at p: the bytes under it are lost. */
  function Stamp(m: seq<int>, p: nat): (r: seq<int>)
    requires p + ITEM <= |m|
    ensures |r| == |m| && forall i :: 0 <= i < |m| && !(p <= i < p + ITEM) ==> r[i] == m[i]
  {
    seq(|m|, i requires 0 <= i < |m| => if p <= i < p + ITEM then 0 else m[i])
  }

  /** What is used before and after, as far as it is both times. */
  ghost function Common(u: map<nat, int>, u': map<nat, int>): map<nat, int> {
    map b | b in u && b in u' :: if u[b] < u'[b] then u[b] else u'[b]
  }

  /** A header of the layout before or after an operation is not under a payload used both times. */
  lemma HeaderSpares(h: Headers, bs: set<nat>, g: Headers, bs': set<nat>, end: nat, p: nat, b: nat, i: int)
    requires Laid(h, bs, end) && Laid(g, bs', end) && p in bs + bs'
    requires InPayload(Common(UsedItems(h, bs, end), UsedItems(g, bs', end)), b, i)
    ensures p + ITEM <= end + ITEM && !(p <= i < p + ITEM)
  {
    if p in bs {
      HeaderUnder(h, bs, end, p, b);
    } else {
      HeaderUnder(g, bs', end, p, b);
    }
  }

  lemma HeaderUnder(h: Headers, bs: set<nat>, end: nat, p: nat, b: nat)
    requires Laid(h, bs, end) && p in bs && b in bs && b != end
    ensures p <= end && (p + ITEM <= b + ITEM || h[b].next <= p)
  {
    if p != b {
      PayloadsApart(h, bs, end, b, p);
    }
  }

  /** The headers written belong to items of either layout, or to free_header outside the pool. */
  ghost predicate Headed(ps: seq<nat>, bs: set<nat>, head: nat) {
    forall p :: p in ps ==> p in bs || p == head
  }

  lemma HeadedAll(b: nat, ps: seq<nat>, qs: seq<nat>, rs: seq<nat>, bs: set<nat>, bs': set<nat>, head: nat)
    requires b in bs && Headed(ps, bs, head) && Headed(qs, bs, head) && Headed(rs, bs', head)
    ensures Headed([b] + ps + qs + rs, bs + bs', head)
  {
  }

  lemma RingHeaded(h: Headers, bs: set<nat>, free: seq<nat>, ps: seq<nat>, head: nat)
    requires bs <= h.Keys && Listed(h, bs, free) && forall i :: 0 <= i < |ps| ==> OnRing(free, head, ps[i])
    ensures Headed(ps, bs + bs, head)
  {
    forall p | p in ps ensures p in bs || p == head {
      var i :| 0 <= i < |ps| && ps[i] == p;
    }
  }

  lemma CutHeaded(h: Headers, bs: set<nat>, end: nat, free: seq<nat>, b: nat, p2: nat, nodes: seq<nat>, head: nat)
    requires CanCut(h, bs, end, b, p2) && Listed(h, bs, free) && forall p :: p in nodes ==> OnRing(free, head, p)
    ensures Headed([b, p2, h[b].next] + nodes, bs + (bs + {p2}), head)
  {
    assert h[b].next in bs by { assert BlockOk(h, bs, end, b); }
  }

  lemma GrowHeaded(h: Headers, bs: set<nat>, end: nat, free: seq<nat>, b: nat, p2: nat, nodes: seq<nat>, head: nat)
    requires CanGrow(h, bs, end, b, p2) && Listed(h, bs, free) && forall p :: p in nodes ==> OnRing(free, head, p)
    ensures Headed([b, h[h[b].next].next, p2] + nodes, bs + (bs - {h[b].next} + {p2}), head)
  {
    assert h[h[b].next].next in bs by { assert BlockOk(h, bs, end, h[b].next); }
  }

  lemma AheadHeaded(h: Headers, bs: set<nat>, end: nat, b: nat, free: seq<nat>, insert: bool, before: nat, after: nat, head: nat)
    requires Laid(h, bs, end) && CanMerge(h, bs, end, b) && h[h[b].next].next in h
    requires if insert then ListedBut(h, bs, free, b) else Listed(h, bs, free)
    requires OnRing(free, head, before) && OnRing(free, head, after)
    ensures Headed([b, h[h[b].next].next, before, after], bs, head)
  {
    assert h[h[b].next].next in bs by { assert BlockOk(h, bs, end, h[b].next); }
  }

  lemma CommonResized(m: seq<int>, m': seq<int>, u: map<nat, int>, u': map<nat, int>, b: nat, n: int)
    requires b in u && u' == u[b := n] && KeepsPayload(m, m', Common(u, u'))
    ensures u[b] <= n ==> KeepsPayload(m, m', u)
    ensures n <= u[b] ==> KeepsPayload(m, m', u')
  {
    if u[b] <= n {
      KeepsPayloadLess(m, m', Common(u, u'), u);
    }
    if n <= u[b] {
      KeepsPayloadLess(m, m', Common(u, u'), u');
    }
  }

  lemma CommonDropped(m: seq<int>, m': seq<int>, u: map<nat, int>, u': map<nat, int>, b: nat)
    requires u' == u - {b} && KeepsPayload(m, m', Common(u, u'))
    ensures KeepsPayload(m, m', u')
  {
    KeepsPayloadLess(m, m', Common(u, u'), u');
  }

  lemma CommonAdded(m: seq<int>, m': seq<int>, u: map<nat, int>, u': map<nat, int>, b: nat)
    requires b !in u && b in u' && u' == u[b := u'[b]] && KeepsPayload(m, m', Common(u, u'))
    ensures KeepsPayload(m, m', u)
  {
    KeepsPayloadLess(m, m', Common(u, u'), u);
  }

  /** The first min(size, n) payload bytes of item b are those of item c now. */
  ghost predicate CameAlong(m: seq<int>, m': seq<int>, b: nat, c: nat, size: int, n: nat) {
    var k := if size < n then size else n;
    && 0 <= k && b + ITEM + k <= |m| && c + ITEM + k <= |m'|
    && m'[c + ITEM..c + ITEM + k] == m[b + ITEM..b + ITEM + k]
  }

  lemma CopyRoom(h: Headers, bs: set<nat>, end: nat, b: nat, c: nat, k: int)
    requires Laid(h, bs, end) && b in UsedItems(h, bs, end) && c in UsedItems(h, bs, end) && b != c
    requires k <= UsedItems(h, bs, end)[b] && k <= UsedItems(h, bs, end)[c]
    ensures 0 <= UsedItems(h, bs, end)[b] && b + ITEM + k <= end && c + ITEM + k <= end
    ensures b + ITEM + k <= c + ITEM || c + ITEM + k <= b + ITEM
  {
    PayloadsApart(h, bs, end, b, c);
    PayloadsApart(h, bs, end, c, b);
  }

  lemma CopyDone(h: Headers, bs: set<nat>, end: nat, m: seq<int>, m': seq<int>, b: nat, c: nat, n: nat, k: nat)
    requires Laid(h, bs, end) && |m| == end + ITEM && b in UsedItems(h, bs, end) && c in UsedItems(h, bs, end)
    requires n <= UsedItems(h, bs, end)[c] && k == if UsedItems(h, bs, end)[b] < n then UsedItems(h, bs, end)[b] else n
    requires CopiedTo(m, m', c + ITEM, b + ITEM, k)
    ensures CameAlong(m, m', b, c, UsedItems(h, bs, end)[b], n) && KeepsPayload(m, m', UsedItems(h, bs, end) - {c})
  {
    CopyKeeps(h, bs, end, m, m', b, c, k);
  }

  lemma CopyKeeps(h: Headers, bs: set<nat>, end: nat, m: seq<int>, m': seq<int>, b: nat, c: nat, k: nat)
    requires Laid(h, bs, end) && |m| == end + ITEM && c in UsedItems(h, bs, end) && k <= UsedItems(h, bs, end)[c]
    requires CopiedTo(m, m', c + ITEM, b + ITEM, k)
    ensures KeepsPayload(m, m', UsedItems(h, bs, end) - {c})
  {
    var keep := UsedItems(h, bs, end) - {c};
    forall x, i | InPayload(keep, x, i) && 0 <= i < |m| ensures m'[i] == m[i] {
      PayloadsApart(h, bs, end, x, c);
      CopyElsewhere(m, m', c + ITEM, b + ITEM, k, i);
    }
  }

  lemma PayloadSlice(m: seq<int>, m': seq<int>, used: map<nat, int>, b: nat, k: nat)
    requires KeepsPayload(m, m', used) && b in used && k <= used[b] && b + ITEM + k <= |m|
    ensures m'[b + ITEM..b + ITEM + k] == m[b + ITEM..b + ITEM + k]
  {
    forall i | b + ITEM <= i < b + ITEM + k ensures m'[i] == m[i] {
      assert InPayload(used, b, i);
    }
  }

  /** Allocate, copy, free: what comes of the bytes. */
  lemma MoveChain(m: seq<int>, m1: seq<int>, m2: seq<int>, m3: seq<int>, used: map<nat, int>, live: map<nat, int>, b: nat, c: nat, n: nat)
    requires b in used && c !in used && c in live && live == used[c := live[c]] && n <= live[c]
    requires KeepsPayload(m, m1, used) && CameAlong(m1, m2, b, c, used[b], n)
    requires KeepsPayload(m1, m2, live - {c}) && KeepsPayload(m2, m3, live - {b})
    ensures CameAlong(m, m3, b, c, used[b], n) && KeepsPayload(m, m3, used - {b})
  {
    var k := if used[b] < n then used[b] else n;
    PayloadSlice(m, m1, used, b, k);
    PayloadSlice(m2, m3, live - {b}, c, k);
    forall x, i | InPayload(used - {b}, x, i) && 0 <= i < |m| ensures m3[i] == m[i] {
      assert InPayload(used, x, i) && InPayload(live - {c}, x, i) && InPayload(live - {b}, x, i);
    }
  }

  /** Whether the item behind b is free and large enough for b to grow to n bytes in place. */
  ghost predicate RoomBehind(h: Headers, b: nat, n: nat)
    requires b in h && h[b].next in h
  {
    !h[h[b].next].used && Payload(h, h[b].next) + Payload(h, b) > n + MINIALLOC
  }

  // ----- The free list in step with the headers -----

  /** free holds every free item but b. */
  ghost predicate ListedBut(h: Headers, bs: set<nat>, free: seq<nat>, b: nat)
    requires bs <= h.Keys
  {
    NoDup(free) && b !in free &&
    forall c {:trigger c in bs} {:trigger c in free} :: c != b ==> (c in free <==> c in bs && !h[c].used)
  }

  lemma ListedCut(h: Headers, bs: set<nat>, end: nat, b: nat, p2: nat, free: seq<nat>)
    requires CanCut(h, bs, end, b, p2) && ListedBut(h, bs, free, b)
    ensures bs + {p2} <= Cut(h, bs, end, b, p2).Keys && p2 !in free
    ensures Listed(Cut(h, bs, end, b, p2), bs + {p2}, [p2] + free)
    ensures ListedBut(Cut(h, bs, end, b, p2), bs + {p2}, free, p2)
  {
    CutLaid(h, bs, end, b, p2);
    CutUsed(h, bs, end, b, p2);
  }

  lemma ListedTake(h: Headers, bs: set<nat>, free: seq<nat>, b: nat)
    requires bs <= h.Keys && Listed(h, bs, free)
    ensures ListedBut(h, bs, Without(free, b), b)
  {
    WithoutNoDup(free, b);
    forall c ensures c in Without(free, b) <==> c in free && c != b {
      WithoutIn(free, b, c);
    }
  }

  lemma ListedInsert(h: Headers, bs: set<nat>, free: seq<nat>, b: nat)
    requires bs <= h.Keys && ListedBut(h, bs, free, b) && b in bs && !h[b].used
    ensures Listed(h, bs, [b] + free)
  {
  }

  lemma ListedJoin(h: Headers, bs: set<nat>, end: nat, b: nat, free: seq<nat>)
    requires CanMerge(h, bs, end, b)
    ensures h[h[b].next].next in h && bs - {h[b].next} <= MergeHeaders(h, b).Keys
    ensures ListedBut(h, bs, free, h[b].next) ==> Listed(MergeHeaders(h, b), bs - {h[b].next}, free)
  {
    JoinUsed(h, bs, end, b);
  }

  lemma {:induction false} WithoutSize(q: seq<nat>, n: nat)
    requires NoDup(q) && n in q
    ensures |Without(q, n)| == |q| - 1
  {
    var i :| 0 <= i < |q| && q[i] == n;
    WithoutAt(q, i);
  }

  // ----- The pool -----

  /** The items tile the pool with no two free neighbours, the free list and the count are right. */
  ghost predicate Good(h: Headers, bs: set<nat>, end: nat, free: seq<nat>, available: int) {
    && Laid(h, bs, end) && Coalesced(h, bs) && Listed(h, bs, free)
    && available == Books(h, bs, end, |free|)
  }

  /** Between the steps of a free: item cur is free, and on the free list unless it is still to be put there. */
  ghost predicate HalfFreed(h: Headers, bs: set<nat>, end: nat, cur: nat, free: seq<nat>, insert: bool, available: int) {
    && Laid(h, bs, end) && cur in bs && cur != end && !h[cur].used
    && (if insert then ListedBut(h, bs, free, cur) else Listed(h, bs, free))
    && available == Books(h, bs, end, |free| + if insert then 1 else 0)
  }

  /** The guard of the source leaves room for a header behind the cut. */
  lemma FreeRoom(h: Headers, bs: set<nat>, end: nat, free: seq<nat>, b: nat, n: nat)
    requires Laid(h, bs, end) && Listed(h, bs, free) && b in free && n % 16 == 0
    requires b in h && Payload(h, b) >= n + ITEM + MINIALLOC
    ensures !h[b].used && CanCut(h, bs, end, b, b + n + ITEM)
  {
    ListedMember(h, bs, end, free, b);
    CutRoom(h, bs, end, b, n);
  }

  /** A free item is cut: its front is used, the rest takes its place among the free ones. */
  lemma CutGood(h: Headers, bs: set<nat>, end: nat, free: seq<nat>, available: int, b: nat, p2: nat)
    requires Good(h, bs, end, free, available) && b in free && CanCut(h, bs, end, b, p2) && !h[b].used
    ensures p2 !in bs && p2 !in Without(free, b)
    ensures Good(Cut(h, bs, end, b, p2), bs + {p2}, end, [p2] + Without(free, b), available - (p2 - b))
    ensures UsedItems(Cut(h, bs, end, b, p2), bs + {p2}, end) == UsedItems(h, bs, end)[b := p2 - b - ITEM]
  {
    CutFacts(h, bs, end, b, p2);
    CutListed(h, bs, end, free, b, p2);
    CutBooks(h, bs, end, b, p2, |free|);
  }

  lemma CutBooks(h: Headers, bs: set<nat>, end: nat, b: nat, p2: nat, k: nat)
    requires CanCut(h, bs, end, b, p2) && !h[b].used
    ensures bs + {p2} <= Cut(h, bs, end, b, p2).Keys
    ensures Books(Cut(h, bs, end, b, p2), bs + {p2}, end, k) == Books(h, bs, end, k) - (p2 - b)
  {
    CutSum(h, bs, end, b, p2);
  }

  lemma CutListed(h: Headers, bs: set<nat>, end: nat, free: seq<nat>, b: nat, p2: nat)
    requires CanCut(h, bs, end, b, p2) && Listed(h, bs, free) && b in free && p2 !in bs
    ensures bs + {p2} <= Cut(h, bs, end, b, p2).Keys && p2 !in Without(free, b)
    ensures Listed(Cut(h, bs, end, b, p2), bs + {p2}, [p2] + Without(free, b)) && |[p2] + Without(free, b)| == |free|
  {
    CutUsed(h, bs, end, b, p2);
    ListedReplace(h, bs, Cut(h, bs, end, b, p2), free, b, p2);
  }

  /** Item p2 takes the place of b among the free ones. */
  lemma ListedReplace(h: Headers, bs: set<nat>, g: Headers, free: seq<nat>, b: nat, p2: nat)
    requires bs <= h.Keys && Listed(h, bs, free) && b in free && b in bs && p2 !in bs && bs + {p2} <= g.Keys
    requires !g[p2].used && g[b].used && forall c {:trigger c in bs} :: c in bs && c != b ==> g[c].used == h[c].used
    ensures p2 !in Without(free, b) && Listed(g, bs + {p2}, [p2] + Without(free, b))
    ensures |[p2] + Without(free, b)| == |free|
  {
    ListedTake(h, bs, free, b);
    WithoutSize(free, b);
  }

  /** The books after a change of the used bytes and of the number of free items. */
  lemma BooksMove(h: Headers, bs: set<nat>, g: Headers, bs': set<nat>, end: nat, k: nat, k': nat, d: int)
    requires bs <= h.Keys && bs' <= g.Keys && UsedSum(g, bs') == UsedSum(h, bs) - d - ITEM * (k' - k)
    ensures Books(g, bs', end, k') == Books(h, bs, end, k) + d
  {
  }

  lemma TakeWholeFacts(h: Headers, bs: set<nat>, end: nat, free: seq<nat>, available: int, b: nat)
    requires Good(h, bs, end, free, available) && b in free
    ensures b in h && b != end
    ensures Good(MarkHeaders(h, b, true), bs, end, Without(free, b), available - Payload(h, b))
    ensures UsedItems(MarkHeaders(h, b, true), bs, end) == UsedItems(h, bs, end)[b := Payload(h, b)]
  {
    ListedMember(h, bs, end, free, b);
    MarkLaid(h, bs, end, b, true);
    MarkUsedCoalesced(h, bs, b);
    MarkItems(h, bs, end, b, true);
    ListedMark(h, bs, end, free, b);
  }

  lemma ListedMember(h: Headers, bs: set<nat>, end: nat, free: seq<nat>, b: nat)
    requires bs <= h.Keys && Listed(h, bs, free) && b in free && end in h && h[end].used
    ensures b in bs && b != end && !h[b].used
  {
  }

  lemma ListedMark(h: Headers, bs: set<nat>, end: nat, free: seq<nat>, b: nat)
    requires bs <= h.Keys && Listed(h, bs, free) && b in free && b in bs && !h[b].used
    ensures Listed(MarkHeaders(h, b, true), bs, Without(free, b))
    ensures Books(MarkHeaders(h, b, true), bs, end, |Without(free, b)|) == Books(h, bs, end, |free|) - Payload(h, b)
  {
    ListedTake(h, bs, free, b);
    WithoutSize(free, b);
    MarkSum(h, bs, b, true);
  }

  // ----- Requests and pools that spoil the layout -----

  /** The bytes that rt_memheap_alloc looks for. */
  function Request(size: nat): (n: nat)
    ensures n % 16 == 0 <==> size > 0
    ensures size > 0 ==> n == AlignUp(size)
  {
    if AlignUp(size) < MINIALLOC then MINIALLOC else AlignUp(size)
  }

  /** Headers and items after free item b is handed out for n bytes, at whatever address a cut would be. */
  ghost function HandOut(h: Headers, bs: set<nat>, b: nat, n: nat): (Headers, set<nat>)
    requires b in h && h[b].next in h
  {
    var nx, p2 := h[b].next, b + n + ITEM;
    if Payload(h, b) >= n + ITEM + MINIALLOC then
      var h1 := h[p2 := Header(false, nx, b)];
      var h2 := h1[nx := h1[nx].(prev := p2)];
      (h2[b := h2[b].(used := true, next := p2)], bs + {p2})
    else
      (MarkHeaders(h, b, true), bs)
  }

  /** A request keeps the items aligned and laid out exactly if it is not for zero bytes, or nothing is cut. */
  lemma RequestExact(h: Headers, bs: set<nat>, end: nat, b: nat, size: nat)
    requires Laid(h, bs, end) && b in bs && b != end && !h[b].used && Payload(h, b) >= Request(size)
    ensures h[b].next in h
    ensures var (h', bs') := HandOut(h, bs, b, Request(size));
      Laid(h', bs', end) <==> size > 0 || Payload(h, b) < ITEM + 2 * MINIALLOC
  {
    assert BlockOk(h, bs, end, b);
    var n := Request(size);
    var (h', bs') := HandOut(h, bs, b, n);
    if Payload(h, b) < n + ITEM + MINIALLOC {
      MarkLaid(h, bs, end, b, true);
    } else if size > 0 {
      HandOutCuts(h, bs, end, b, n);
      CutLaid(h, bs, end, b, b + n + ITEM);
    } else {
      LaidAligned(h', bs', end, b + n + ITEM);
    }
  }

  lemma HandOutCuts(h: Headers, bs: set<nat>, end: nat, b: nat, n: nat)
    requires CanCut(h, bs, end, b, b + n + ITEM) && Payload(h, b) >= n + ITEM + MINIALLOC
    ensures h[b].next in h && HandOut(h, bs, b, n) == (Cut(h, bs, end, b, b + n + ITEM), bs + {b + n + ITEM})
  {
    assert BlockOk(h, bs, end, b);
    SplitTiling(h, bs, end, b, b + n + ITEM);
    assert HandOut(h, bs, b, n).0 == Cut(h, bs, end, b, b + n + ITEM);
  }

  lemma LaidAligned(h: Headers, bs: set<nat>, end: nat, p: nat)
    requires p in bs
    ensures Laid(h, bs, end) ==> p % 16 == 0
  {
    assert Laid(h, bs, end) ==> BlockOk(h, bs, end, p);
  }

  /** The count of available bytes of a new pool, as 32-bit arithmetic has it, is right exactly if two headers fit. */
  lemma PoolExact(size: nat)
    requires AlignDown(size) < 0x1_0000_0000
    ensures (AlignDown(size) - 2 * ITEM) % 0x1_0000_0000 <= AlignDown(size) <==> AlignDown(size) >= 2 * ITEM
  {
  }

  /** What is left of item b behind a cut. */
  lemma CutRest(h: Headers, bs: set<nat>, end: nat, b: nat, p2: nat)
    requires CanCut(h, bs, end, b, p2)
    ensures p2 !in bs && p2 in Cut(h, bs, end, b, p2)
    ensures var rest := Cut(h, bs, end, b, p2)[p2]; !rest.used && rest.next == h[b].next
  {
    SplitFresh(h, bs, end, b, p2);
    SplitTiling(h, bs, end, b, p2);
    assert BlockOk(h, bs, end, b);
  }

  /** The links of item b lead to items. */
  ghost predicate Neighboured(h: Headers, b: nat) {
    b in h && h[b].next in h && (b != 0 ==> h[b].prev in h)
  }

  /** The item before b is free. */
  ghost predicate FreeBefore(h: Headers, b: nat)
    requires Neighboured(h, b)
  {
    b != 0 && !h[h[b].prev].used
  }

  /** The free list after b is freed: b is first unless it joins the item before it, and a free item behind b leaves. */
  ghost function ListedAfter(h: Headers, items: seq<nat>, b: nat): seq<nat>
    requires Neighboured(h, b)
  {
    (if FreeBefore(h, b) then [] else [b]) + (if h[h[b].next].used then items else Without(items, h[b].next))
  }

  /** The free list after the end of b is cut off at p2: that is first, and a free item behind b leaves. */
  ghost function CutList(h: Headers, items: seq<nat>, b: nat, p2: nat): seq<nat>
    requires b in h && h[b].next in h
  {
    [p2] + if h[h[b].next].used then items else Without(items, h[b].next)
  }

  /** It does not matter whether b itself is marked already. */
  lemma ListedAfterMark(h: Headers, bs: set<nat>, end: nat, items: seq<nat>, b: nat)
    requires Laid(h, bs, end) && b in bs && b != end
    ensures var g := h[b := h[b].(used := false)];
      Neighboured(h, b) && Neighboured(g, b) && ListedAfter(g, items, b) == ListedAfter(h, items, b)
  {
    assert BlockOk(h, bs, end, b);
  }

  class RtMemHeap {
    const poolSize: nat
    var hdr: Headers
    var available: int
    var maxUsed: int
    var bytes: seq<int>
    const ring: FreeRing
    ghost var blocks: set<nat>

    function End(): int { poolSize - ITEM }

    /** The items tile the pool, no two free ones are neighbours. */
    ghost predicate Tiled()
      reads this
    {
      poolSize >= 2 * ITEM && Laid(hdr, blocks, End()) && Coalesced(hdr, blocks)
    }

    ghost predicate Valid()
      reads this, ring
    {
      && Tiled() && ring.Valid() && ring.head == poolSize
      && Good(hdr, blocks, End(), ring.items, available)
      && poolSize - available <= maxUsed && |bytes| == poolSize
    }

    ghost function Used(): map<nat, int>
      requires Tiled()
      reads this
    {
      UsedItems(hdr, blocks, End())
    }

    /** rt_memheap_init: one free item and the tailer. */
    constructor (size: nat, memory: seq<int>)
      requires AlignDown(size) >= 2 * ITEM && |memory| == AlignDown(size)
      ensures Valid() && fresh(ring) && poolSize == AlignDown(size) && Used() == map[]
      ensures available == poolSize - 2 * ITEM && maxUsed == 2 * ITEM
      ensures blocks == {0, End()} && !hdr[0].used && hdr[0].next == End()
    {
      poolSize := AlignDown(size);
      var end := AlignDown(size) - ITEM;
      hdr := map[0 := Header(false, end, 0), end := Header(true, end, 0)];
      blocks, bytes := {0, end}, memory;
      available, maxUsed := AlignDown(size) - 2 * ITEM, 2 * ITEM;
      var r := new FreeRing(AlignDown(size));
      var _ := r.PutFront(0);
      ring := r;
      new;
      InitialPool(hdr, End());
    }

    /** The walk along the free list to the first item that is large enough. */
    method WalkFree(size: nat) returns (r: Option<nat>)
      requires ring.Valid() && forall i :: 0 <= i < |ring.items| ==> ring.items[i] in hdr
      ensures r.Some? ==> FirstFit(hdr, ring.items, size, r.value)
      ensures r.None? ==> forall i :: 0 <= i < |ring.items| ==> Payload(hdr, ring.items[i]) < size
    {
      ghost var j := 0;
      var p := ring.Behind(ring.head, j);
      while p != ring.head && hdr[p].next - p - ITEM < size
        invariant 0 <= j <= |ring.items| && p == ring.ItemAt(j) && (p == ring.head <==> j == |ring.items|)
        invariant forall i :: 0 <= i < j ==> Payload(hdr, ring.items[i]) < size
        decreases |ring.items| - j
      {
        p := ring.Behind(p, j + 1);
        j := j + 1;
      }
      r := if p == ring.head then None else Some(p);
    }

    /** The search: the first free item that is large enough, or there is none. */
    method FindFit(size: nat) returns (r: Option<nat>)
      requires Valid()
      ensures forall i :: 0 <= i < |ring.items| ==> ring.items[i] in hdr
      ensures r.Some? ==> FirstFit(hdr, ring.items, size, r.value)
      ensures r.None? <==> NoFit(hdr, blocks, size)
    {
      ItemsKnown(hdr, blocks, ring.items);
      r := WalkFree(size);
      if r.None? {
        NoneFits(hdr, blocks, ring.items, size);
      } else {
        FitIsFree(hdr, blocks, ring.items, size, r.value);
      }
    }

    /** Bytes leave the count of available ones; the peak is noted. */
    method Charge(bytes: int)
      modifies this`available, this`maxUsed
      ensures available == old(available) - bytes && maxUsed == Max(old(maxUsed), poolSize - available)
    {
      available := available - bytes;
      if poolSize - available > maxUsed {
        maxUsed := poolSize - available;
      }
    }

    /** Links of the items after cutting b at p2. */
    method CutItem(b: nat, p2: nat)
      requires poolSize >= 2 * ITEM && CanCut(hdr, blocks, End(), b, p2)
      modifies this`hdr, this`blocks
      ensures hdr == Cut(old(hdr), old(blocks), End(), b, p2) && blocks == old(blocks) + {p2}
    {
      SplitTiling(hdr, blocks, End(), b, p2);
      assert hdr[b].next in hdr by { assert BlockOk(hdr, blocks, End(), b); }
      var nx := hdr[b].next;
      hdr := hdr[p2 := Header(false, nx, b)];
      hdr := hdr[nx := hdr[nx].(prev := p2)];
      hdr := hdr[b := hdr[b].(used := true, next := p2)];
      blocks := blocks + {p2};
    }

    /** The header writes of an operation, as memory sees them. */
    method Touch(ps: seq<nat>, ghost h: Headers, ghost bs: set<nat>)
      requires poolSize >= 2 * ITEM && Laid(h, bs, End()) && Laid(hdr, blocks, End()) && |bytes| == poolSize
      requires Headed(ps, bs + blocks, poolSize)
      modifies this`bytes
      ensures |bytes| == poolSize && KeepsPayload(old(bytes), bytes, Common(UsedItems(h, bs, End()), UsedItems(hdr, blocks, End())))
    {
      ghost var keep := Common(UsedItems(h, bs, End()), UsedItems(hdr, blocks, End()));
      var k := 0;
      while k < |ps|
        invariant 0 <= k <= |ps| && |bytes| == poolSize && KeepsPayload(old(bytes), bytes, keep)
      {
        var p := ps[k];
        if p != poolSize {
          StampKeeps(h, bs, hdr, blocks, End(), old(bytes), bytes, p);
          bytes := Stamp(bytes, p);
        }
        k := k + 1;
      }
    }

    /** rt_memheap_alloc for a request other than zero: first fit, and never all that is available. */
    method Alloc(size: nat) returns (r: Option<nat>)
      requires Valid() && size > 0
      modifies this, ring
      ensures Valid()
      ensures r.None? <==> AlignUp(size) >= old(available) || NoFit(old(hdr), old(blocks), AlignUp(size))
      ensures r.None? ==> hdr == old(hdr) && blocks == old(blocks) && bytes == old(bytes)
      ensures r.None? ==> available == old(available) && Used() == old(Used()) && maxUsed == old(maxUsed)
      ensures KeepsPayload(old(bytes), bytes, old(Used()))
      ensures forall i :: 0 <= i < |old(ring.items)| ==> old(ring.items)[i] in old(hdr)
      ensures r.Some? ==> FirstFit(old(hdr), old(ring.items), AlignUp(size), r.value)
      ensures r.Some? ==> r.value in old(hdr) && !old(hdr)[r.value].used && r.value !in old(Used()) && r.value % 16 == 0
      ensures r.Some? ==>
        Handed(old(hdr), old(blocks), old(ring.items), old(Used()), old(available), old(maxUsed), r.value, AlignUp(size))
    {
      var n := AlignUp(size);
      if n < MINIALLOC {
        n := MINIALLOC;
      }
      ItemsKnown(hdr, blocks, ring.items);
      if n >= available {
        return None;
      }
      var f := FindFit(n);
      if f.None? {
        return None;
      }
      FitIsFree(hdr, blocks, ring.items, n, f.value);
      Give(f.value, n);
      r := f;
    }

    /** The item found is handed out, in memory too. */
    method Give(b: nat, n: nat)
      requires Valid() && b in ring.items && b in hdr && n > 0 && n % 16 == 0 && Payload(hdr, b) >= n
      modifies this, ring
      ensures Valid() && Handed(old(hdr), old(blocks), old(ring.items), old(Used()), old(available), old(maxUsed), b, n)
      ensures !old(hdr)[b].used && b !in old(Used()) && b % 16 == 0 && KeepsPayload(old(bytes), bytes, old(Used()))
    {
      var touched := TakeItem(b, n);
      Touch(touched, old(hdr), old(blocks));
      CommonAdded(old(bytes), bytes, old(Used()), Used(), b);
    }

    /**
      What handing out item b for n bytes comes to.  If it offers 44 bytes more than n, it is cut behind its first
      n: the rest is a free item, first on the free list.  Otherwise all of it is handed out, and no item is added.
     */
    ghost predicate Handed(was: Headers, blocksWas: set<nat>, itemsWas: seq<nat>, usedWas: map<nat, int>,
                           availableWas: int, maxUsedWas: int, b: nat, n: nat)
      requires Tiled() && b in was
      reads this, ring
    {
      var offer := was[b].next - (b + 32);
      && maxUsed == Max(maxUsedWas, poolSize - available)
      && (offer >= n + 44 ==>
            && Used() == usedWas[b := n] && available == availableWas - (n + 32)
            && b + 32 + n !in blocksWas && blocks == blocksWas + {b + 32 + n}
            && !hdr[b + 32 + n].used && hdr[b + 32 + n].next == was[b].next
            && ring.items == [b + 32 + n] + Without(itemsWas, b))
      && (offer < n + 44 ==>
            && Used() == usedWas[b := offer] && available == availableWas - offer
            && blocks == blocksWas && ring.items == Without(itemsWas, b))
    }

    /** A free item that is large enough is cut, or handed out whole; touched are the headers written. */
    method TakeItem(b: nat, n: nat) returns (touched: seq<nat>)
      requires Valid() && b in ring.items && b in hdr && n > 0 && n % 16 == 0 && Payload(hdr, b) >= n
      modifies this`hdr, this`blocks, this`available, this`maxUsed, ring
      ensures Valid() && Handed(old(hdr), old(blocks), old(ring.items), old(Used()), old(available), old(maxUsed), b, n)
      ensures !old(hdr)[b].used && b !in old(Used()) && b % 16 == 0
      ensures Headed(touched, old(blocks) + blocks, poolSize)
    {
      assert b in blocks && !hdr[b].used && b % 16 == 0 by {
        ListedMember(hdr, blocks, End(), ring.items, b);
        Aligned(hdr, blocks, End(), b);
      }
      if hdr[b].next - b - ITEM >= n + ITEM + MINIALLOC {
        FreeRoom(hdr, blocks, End(), ring.items, b, n);
        touched := TakeFront(b, b + n + ITEM);
      } else {
        touched := TakeWhole(b);
      }
    }

    /** The item is cut at p2: its front is handed out, the rest goes to the front of the free list. */
    method TakeFront(b: nat, p2: nat) returns (touched: seq<nat>)
      requires Valid() && b in ring.items && CanCut(hdr, blocks, End(), b, p2) && !hdr[b].used
      modifies this`hdr, this`blocks, this`available, this`maxUsed, ring
      ensures Valid() && available == old(available) - (p2 - b) && maxUsed == Max(old(maxUsed), poolSize - available)
      ensures Used() == old(Used())[b := p2 - b - ITEM]
      ensures p2 !in old(blocks) && blocks == old(blocks) + {p2} && !hdr[p2].used && hdr[p2].next == old(hdr)[b].next
      ensures ring.items == [p2] + Without(old(ring.items), b)
      ensures Headed(touched, old(blocks) + blocks, poolSize)
    {
      CutRest(hdr, blocks, End(), b, p2);
      CutGood(hdr, blocks, End(), ring.items, available, b, p2);
      ghost var h, bs, items := hdr, blocks, ring.items;
      var nx := hdr[b].next;
      var nodes := ring.Replace(b, p2);
      Charge(p2 - b);
      CutItem(b, p2);
      assert Good(hdr, blocks, End(), ring.items, available);
      touched := [b, p2, nx] + nodes;
      CutHeaded(h, bs, End(), items, b, p2, nodes, poolSize);
    }

    /** The whole item is handed out. */
    method TakeWhole(b: nat) returns (touched: seq<nat>)
      requires Valid() && b in ring.items && b in hdr
      modifies this`hdr, this`blocks, this`available, this`maxUsed, ring
      ensures Valid() && available == old(available) - Payload(old(hdr), b)
      ensures maxUsed == Max(old(maxUsed), poolSize - available)
      ensures Used() == old(Used())[b := Payload(old(hdr), b)]
      ensures blocks == old(blocks) && ring.items == Without(old(ring.items), b)
      ensures Headed(touched, old(blocks) + blocks, poolSize)
    {
      TakeWholeFacts(hdr, blocks, End(), ring.items, available, b);
      ghost var h, items := hdr, ring.items;
      Charge(hdr[b].next - b - ITEM);
      var before, after := ring.TakeOff(b);
      hdr := hdr[b := hdr[b].(used := true)];
      touched := [b, before, after];
      RingHeaded(h, blocks, items, [b, before, after], poolSize);
    }

    // ----- rt_memheap_free -----

    /** Links of the items after b has swallowed the one behind it. */
    method JoinItem(b: nat)
      requires poolSize >= 2 * ITEM && CanMerge(hdr, blocks, End(), b)
      modifies this`hdr, this`blocks
      ensures old(hdr)[old(hdr)[b].next].next in old(hdr)
      ensures hdr == MergeHeaders(old(hdr), b) && blocks == old(blocks) - {old(hdr)[b].next}
    {
      MergeNext(hdr, blocks, End(), b);
      var n := hdr[b].next;
      var nn := hdr[n].next;
      hdr := hdr[b := hdr[b].(next := nn)];
      hdr := hdr[nn := hdr[nn].(prev := b)];
      blocks := blocks - {n};
    }

    ghost predicate Freeing(cur: nat, insert: bool)
      reads this, ring
    {
      && poolSize >= 2 * ITEM && ring.Valid() && ring.head == poolSize
      && HalfFreed(hdr, blocks, End(), cur, ring.items, insert, available)
      && poolSize - available <= maxUsed
    }

    ghost function UsedNow(): map<nat, int>
      requires poolSize >= 2 * ITEM && Laid(hdr, blocks, End())
      reads this
    {
      UsedItems(hdr, blocks, End())
    }

    /** rt_memheap_free of a used item. */
    method Free(b: nat)
      requires Valid() && b in Used()
      modifies this, ring
      ensures Valid() && Used() == old(Used()) - {b} && maxUsed == old(maxUsed)
      ensures Neighboured(old(hdr), b) && ring.items == ListedAfter(old(hdr), old(ring.items), b)
      ensures KeepsPayload(old(bytes), bytes, Used())
    {
      var touched := FreeLinks(b);
      Touch(touched, old(hdr), old(blocks));
      CommonDropped(old(bytes), bytes, old(Used()), Used(), b);
    }

    /** All of it but the memory; touched are the headers written. */
    method FreeLinks(b: nat) returns (touched: seq<nat>)
      requires Valid() && b in Used()
      modifies this`hdr, this`blocks, this`available, ring
      ensures Valid() && Used() == old(Used()) - {b}
      ensures Neighboured(old(hdr), b) && ring.items == ListedAfter(old(hdr), old(ring.items), b)
      ensures Headed(touched, old(blocks) + blocks, poolSize)
    {
      ListedAfterMark(hdr, blocks, End(), ring.items, b);
      MarkFree(b);
      touched := Reclaim(b);
    }

    /** Join a freed item with its free neighbours, and list what comes of it. */
    method Reclaim(b: nat) returns (touched: seq<nat>)
      requires Freeing(b, true) && CoalescedBut(hdr, blocks, b) && |bytes| == poolSize
      modifies this`hdr, this`blocks, this`available, ring
      ensures Valid() && Used() == old(UsedNow())
      ensures Neighboured(old(hdr), b) && ring.items == ListedAfter(old(hdr), old(ring.items), b)
      ensures Headed(touched, old(blocks) + blocks, poolSize)
    {
      var cur, insert, back := MergeBack(b);
      var ahead := MergeAhead(cur, insert);
      var more := FreeInsert(cur, insert);
      touched := [b] + back + ahead + more;
      HeadedAll(b, back, ahead, more, old(blocks), blocks, poolSize);
    }

    /** On the free list, unless it is part of an item that is. */
    method FreeInsert(cur: nat, insert: bool) returns (touched: seq<nat>)
      requires Freeing(cur, insert) && Coalesced(hdr, blocks) && |bytes| == poolSize
      modifies ring
      ensures Valid() && Used() == old(UsedNow()) && Headed(touched, blocks, poolSize)
      ensures ring.items == (if insert then [cur] else []) + old(ring.items)
    {
      touched := [];
      if insert {
        ListedInsert(hdr, blocks, ring.items, cur);
        var first := ring.PutFront(cur);
        touched := [cur, first];
      }
      assert Good(hdr, blocks, End(), ring.items, available);
    }

    method MarkFree(b: nat)
      requires Valid() && b in Used()
      modifies this`hdr, this`available
      ensures Freeing(b, true) && CoalescedBut(hdr, blocks, b) && UsedNow() == old(Used()) - {b}
      ensures b in old(hdr) && old(hdr)[b].used && hdr == old(hdr)[b := old(hdr)[b].(used := false)]
    {
      ghost var h, bs, end := hdr, blocks, End();
      MarkLaid(h, bs, end, b, false);
      MarkFreeCoalesced(h, bs, b);
      MarkSum(h, bs, b, false);
      MarkItems(h, bs, end, b, false);
      assert BlockOk(h, bs, end, b);
      hdr := hdr[b := hdr[b].(used := false)];
      available := available + (hdr[b].next - b - ITEM);
    }

    /** Join with the item before, if that is free. */
    method MergeBack(b: nat) returns (cur: nat, insert: bool, touched: seq<nat>)
      requires Freeing(b, true) && CoalescedBut(hdr, blocks, b)
      modifies this`hdr, this`blocks, this`available
      ensures Headed(touched, old(blocks), poolSize) && blocks <= old(blocks)
      ensures Freeing(cur, insert) && CoalescedButAfter(hdr, blocks, cur) && UsedNow() == old(UsedNow())
      ensures Neighboured(old(hdr), b) && (insert <==> !FreeBefore(old(hdr), b))
      ensures cur in hdr && hdr[cur].next == old(hdr)[b].next && (insert ==> cur == b)
      ensures hdr[cur].next in hdr && hdr[hdr[cur].next].used == old(hdr)[old(hdr)[b].next].used
    {
      assert BlockOk(hdr, blocks, End(), b);
      if b != 0 && !hdr[hdr[b].prev].used {
        cur := hdr[b].prev;
        BackFacts(hdr, blocks, End(), b, ring.items, available);
        touched := [cur, hdr[b].next];
        available := available + ITEM;
        JoinItem(cur);
        insert := false;
      } else {
        NoJoinBackward(hdr, blocks, End(), b);
        cur, insert, touched := b, true, [];
      }
    }

    /** Join with the item behind, if that is free. */
    method MergeAhead(cur: nat, insert: bool) returns (touched: seq<nat>)
      requires Freeing(cur, insert) && CoalescedButAfter(hdr, blocks, cur)
      modifies this`hdr, this`blocks, this`available, ring
      ensures Headed(touched, old(blocks), poolSize) && blocks <= old(blocks)
      ensures Freeing(cur, insert) && Coalesced(hdr, blocks) && UsedNow() == old(UsedNow())
      ensures cur in old(hdr) && old(hdr)[cur].next in old(hdr)
      ensures ring.items ==
        if old(hdr)[old(hdr)[cur].next].used then old(ring.items) else Without(old(ring.items), old(hdr)[cur].next)
    {
      assert BlockOk(hdr, blocks, End(), cur);
      var n := hdr[cur].next;
      if !hdr[n].used {
        AheadFacts(hdr, blocks, End(), cur, ring.items, insert, available);
        ghost var h, bs, items := hdr, blocks, ring.items;
        var nn := hdr[n].next;
        available := available + ITEM;
        var before, after := ring.TakeOff(n);
        JoinItem(cur);
        touched := [cur, nn, before, after];
        AheadHeaded(h, bs, End(), cur, items, insert, before, after, poolSize);
      } else {
        NoJoinForward(hdr, blocks, cur);
        touched := [];
      }
    }

    // ----- rt_memheap_realloc -----

    /** rt_memheap_realloc: size zero frees, NULL allocates, otherwise the item stays, shrinks, grows or moves. */
    method Realloc(p: Option<nat>, size: nat) returns (r: Option<nat>)
      requires Valid() && (p.Some? ==> p.value in Used())
      modifies this, ring
      ensures Valid()
      ensures size == 0 ==>
        && r.None? && Used() == (if p.Some? then old(Used()) - {p.value} else old(Used())) && maxUsed == old(maxUsed)
        && KeepsPayload(old(bytes), bytes, Used())
      ensures size > 0 && p.None? ==>
        && (r.None? <==> AlignUp(size) >= old(available) || NoFit(old(hdr), old(blocks), AlignUp(size)))
        && (r.None? ==> Used() == old(Used()) && bytes == old(bytes) && maxUsed == old(maxUsed))
        && (r.Some? ==>
              && r.value in old(hdr)
              && Handed(old(hdr), old(blocks), old(ring.items), old(Used()), old(available), old(maxUsed), r.value, AlignUp(size)))
        && KeepsPayload(old(bytes), bytes, old(Used()))
      ensures p.Some? ==> p.value in old(hdr) && old(hdr)[p.value].next in old(hdr)
      ensures size > 0 && p.Some? ==>
        Resized(old(hdr), old(blocks), old(ring.items), old(Used()), old(bytes), old(available), old(maxUsed), p.value, AlignUp(size), r)
    {
      assert p.Some? ==> BlockOk(hdr, blocks, End(), p.value);
      if size == 0 {
        if p.Some? {
          Free(p.value);
        }
        return None;
      }
      var n := AlignUp(size);
      if n < MINIALLOC {
        n := MINIALLOC;
      }
      AlignUpFixed(n);
      if p.None? {
        r := Alloc(n);
      } else {
        r := Resize(p.value, n);
      }
    }

    /**
      What resizing item b to n bytes comes to: it stays as it is if it offers up to 44 bytes more, gives its end
      back if more than that, grows into a free item behind if more than 12 bytes are left of both, else moves.
     */
    ghost predicate Resized(was: Headers, blocksWas: set<nat>, itemsWas: seq<nat>, usedWas: map<nat, int>, bytesWas: seq<int>,
                            availableWas: int, maxUsedWas: int, b: nat, n: nat, r: Option<nat>)
      requires Tiled() && blocksWas <= was.Keys && b in was && was[b].next in was
      reads this, ring
    {
      var nx := was[b].next;
      var grows := !was[nx].used && was[nx].next - (b + 64) > n + 12;
      && b in usedWas
      && (n <= usedWas[b] <= n + 44 ==>
            && r == Some(b) && hdr == was && Used() == usedWas && bytes == bytesWas
            && available == availableWas && maxUsed == maxUsedWas && ring.items == itemsWas)
      && (usedWas[b] > n + 44 ==>
            && r == Some(b) && Used() == usedWas[b := n] && KeepsPayload(bytesWas, bytes, Used()) && maxUsed == maxUsedWas
            && ring.items == [b + 32 + n] + if was[nx].used then itemsWas else Without(itemsWas, nx))
      && (usedWas[b] < n && grows ==>
            && r == Some(b) && Used() == usedWas[b := n] && KeepsPayload(bytesWas, bytes, usedWas)
            && available == availableWas - (n - usedWas[b]) && maxUsed == Max(maxUsedWas, poolSize - available)
            && ring.items == [b + 32 + n] + Without(itemsWas, nx))
      && (usedWas[b] < n && !grows ==>
            Moved(was, blocksWas, usedWas, bytesWas, availableWas, maxUsedWas, b, n, r))
    }

    /** A used item and a size other than zero. */
    method Resize(b: nat, n: nat) returns (r: Option<nat>)
      requires Valid() && b in Used() && n > 0 && n % 16 == 0
      modifies this, ring
      ensures Valid() && b in old(hdr) && old(hdr)[b].next in old(hdr)
      ensures Resized(old(hdr), old(blocks), old(ring.items), old(Used()), old(bytes), old(available), old(maxUsed), b, n, r)
    {
      assert hdr[b].next in hdr by { assert BlockOk(hdr, blocks, End(), b); }
      if n > hdr[b].next - b - ITEM {
        r := GrowOrMove(b, n);
      } else {
        ShrinkOrStay(b, n);
        r := Some(b);
      }
    }

    /** The new size is more than the item offers. */
    method GrowOrMove(b: nat, n: nat) returns (r: Option<nat>)
      requires Valid() && b in Used() && Used()[b] < n && n % 16 == 0 && hdr[b].next in hdr
      modifies this, ring
      ensures Valid()
      ensures RoomBehind(old(hdr), b, n) ==>
        && r == Some(b) && Used() == old(Used())[b := n] && KeepsPayload(old(bytes), bytes, old(Used()))
        && available == old(available) - (n - old(Used())[b]) && maxUsed == Max(old(maxUsed), poolSize - available)
        && ring.items == [b + ITEM + n] + Without(old(ring.items), old(hdr)[b].next)
      ensures !RoomBehind(old(hdr), b, n) ==>
        Moved(old(hdr), old(blocks), old(Used()), old(bytes), old(available), old(maxUsed), b, n, r)
    {
      var next, oldsize := hdr[b].next, hdr[b].next - b - ITEM;
      if !hdr[next].used && (hdr[next].next - next - ITEM) + oldsize > n + MINIALLOC {
        GrowInPlace(b, n);
        r := Some(b);
      } else {
        r := Move(b, n);
      }
    }

    method GrowInPlace(b: nat, n: nat)
      requires Valid() && b in Used() && Used()[b] < n && n % 16 == 0 && hdr[b].next in hdr && RoomBehind(hdr, b, n)
      modifies this, ring
      ensures Valid() && Used() == old(Used())[b := n] && KeepsPayload(old(bytes), bytes, old(Used()))
      ensures available == old(available) - (n - old(Used())[b]) && maxUsed == Max(old(maxUsed), poolSize - available)
      ensures ring.items == [b + ITEM + n] + Without(old(ring.items), old(hdr)[b].next)
    {
      GrowRoom(hdr, blocks, End(), b, n);
      GrowTo(b, b + ITEM + n);
    }

    method GrowTo(b: nat, p2: nat)
      requires Valid() && CanGrow(hdr, blocks, End(), b, p2) && hdr[b].next <= p2
      modifies this, ring
      ensures Valid() && Used() == old(Used())[b := p2 - b - ITEM] && KeepsPayload(old(bytes), bytes, old(Used()))
      ensures available == old(available) - (p2 - old(hdr)[b].next) && maxUsed == Max(old(maxUsed), poolSize - available)
      ensures ring.items == [p2] + Without(old(ring.items), old(hdr)[b].next)
    {
      ghost var h, bs, used := hdr, blocks, Used();
      var touched := Grow(b, p2);
      Touch(touched, h, bs);
      CommonResized(old(bytes), bytes, used, Used(), b, p2 - b - ITEM);
    }

    /** The new size is no more than the item offers: cut only if a header and MINIALLOC bytes are to spare. */
    method ShrinkOrStay(b: nat, n: nat)
      requires Valid() && b in Used() && n <= Used()[b] && n % 16 == 0
      modifies this, ring
      ensures Valid() && maxUsed == old(maxUsed)
      ensures old(Used())[b] <= n + ITEM + MINIALLOC ==>
        && hdr == old(hdr) && Used() == old(Used()) && available == old(available) && bytes == old(bytes)
        && ring.items == old(ring.items)
      ensures b in old(hdr) && old(hdr)[b].next in old(hdr)
      ensures old(Used())[b] > n + ITEM + MINIALLOC ==>
        && Used() == old(Used())[b := n] && KeepsPayload(old(bytes), bytes, Used())
        && ring.items == CutList(old(hdr), old(ring.items), b, b + n + ITEM)
    {
      assert hdr[b].next in hdr by { assert BlockOk(hdr, blocks, End(), b); }
      if n + ITEM + MINIALLOC < hdr[b].next - b - ITEM {
        CutDown(b, n);
      }
    }

    method CutDown(b: nat, n: nat)
      requires Valid() && b in Used() && n + ITEM + MINIALLOC < Used()[b] && n % 16 == 0
      modifies this`hdr, this`blocks, this`available, this`bytes, ring
      ensures Valid() && Used() == old(Used())[b := n] && KeepsPayload(old(bytes), bytes, Used())
      ensures b in old(hdr) && old(hdr)[b].next in old(hdr) && ring.items == CutList(old(hdr), old(ring.items), b, b + n + ITEM)
    {
      ghost var h, bs, used := hdr, blocks, Used();
      CutRoom(h, bs, End(), b, n);
      var touched := Shrink(b, b + n + ITEM);
      Touch(touched, h, bs);
      CommonResized(old(bytes), bytes, used, Used(), b, n);
    }

    /** What the new item offers, and the peak with both items in use. */
    ghost predicate MovedPeak(was: Headers, availableWas: int, maxUsedWas: int, c: nat, n: nat, given: int, peak: int)
      requires c in was
    {
      var offer := was[c].next - (c + 32);
      && (offer >= n + 44 ==> given == n && peak == Max(maxUsedWas, poolSize - (availableWas - (n + 32))))
      && (offer < n + 44 ==> given == offer && peak == Max(maxUsedWas, poolSize - (availableWas - offer)))
    }

    /** A move: nothing fits and nothing changes, or the first fit takes over, and the peak counts both items. */
    ghost predicate Moved(was: Headers, blocksWas: set<nat>, usedWas: map<nat, int>, bytesWas: seq<int>,
                          availableWas: int, maxUsedWas: int, b: nat, n: nat, r: Option<nat>)
      requires Tiled() && blocksWas <= was.Keys
      reads this
    {
      && b in usedWas
      && (r.None? <==> n >= availableWas || NoFit(was, blocksWas, n))
      && (r.None? ==> hdr == was && Used() == usedWas && bytes == bytesWas && available == availableWas && maxUsed == maxUsedWas)
      && (r.Some? ==>
            && r.value != b && r.value !in usedWas && r.value in was && !was[r.value].used
            && r.value in Used() && Used() == (usedWas - {b})[r.value := Used()[r.value]]
            && MovedPeak(was, availableWas, maxUsedWas, r.value, n, Used()[r.value], maxUsed)
            && CameAlong(bytesWas, bytes, b, r.value, usedWas[b], n) && KeepsPayload(bytesWas, bytes, usedWas - {b}))
    }

    /** The first half of a move, seen from the item that is to be moved. */
    method AllocBeside(b: nat, n: nat) returns (r: Option<nat>)
      requires Valid() && b in Used() && n > 0 && n % 16 == 0
      modifies this, ring
      ensures Valid() && (r.None? <==> n >= old(available) || NoFit(old(hdr), old(blocks), n))
      ensures r.None? ==> hdr == old(hdr) && bytes == old(bytes)
      ensures r.None? ==> available == old(available) && Used() == old(Used()) && maxUsed == old(maxUsed)
      ensures KeepsPayload(old(bytes), bytes, old(Used()))
      ensures r.Some? ==>
        && r.value != b && r.value !in old(Used()) && r.value in old(hdr) && !old(hdr)[r.value].used
        && r.value in Used() && n <= Used()[r.value] && Used() == old(Used())[r.value := Used()[r.value]]
        && MovedPeak(old(hdr), old(available), old(maxUsed), r.value, n, Used()[r.value], maxUsed)
    {
      AlignUpFixed(n);
      r := Alloc(n);
    }

    /** A new item, then the old one is freed. */
    method Move(b: nat, n: nat) returns (r: Option<nat>)
      requires Valid() && b in Used() && n > 0 && n % 16 == 0
      modifies this, ring
      ensures Valid() && Moved(old(hdr), old(blocks), old(Used()), old(bytes), old(available), old(maxUsed), b, n, r)
    {
      ghost var used := Used();
      r := AllocBeside(b, n);
      if r.Some? {
        ghost var m1, live := bytes, Used();
        SwapItems(used, b, r.value, live[r.value]);
        CopyItem(b, r.value, n);
        ghost var m2 := bytes;
        Free(b);
        MoveChain(old(bytes), m1, m2, bytes, used, live, b, r.value, n);
      }
    }

    /** The rt_memcpy of a move, for min(old, new) bytes. */
    method CopyItem(b: nat, c: nat, n: nat)
      requires poolSize >= 2 * ITEM && Laid(hdr, blocks, End()) && |bytes| == poolSize
      requires b in UsedNow() && c in UsedNow() && b != c && n <= UsedNow()[c]
      modifies this`bytes
      ensures |bytes| == poolSize && CameAlong(old(bytes), bytes, b, c, UsedNow()[b], n)
      ensures KeepsPayload(old(bytes), bytes, UsedNow() - {c})
    {
      var k := if hdr[b].next - b - ITEM < n then hdr[b].next - b - ITEM else n;
      CopyRoom(hdr, blocks, End(), b, c, k);
      bytes := CopyWithin(bytes, c + ITEM, b + ITEM, k);
      CopyDone(hdr, blocks, End(), old(bytes), bytes, b, c, n, k);
    }

    /** The border between b and the free item behind it moves up to p2. */
    method Grow(b: nat, p2: nat) returns (touched: seq<nat>)
      requires Valid() && CanGrow(hdr, blocks, End(), b, p2)
      modifies this`hdr, this`blocks, this`available, this`maxUsed, ring
      ensures Headed(touched, old(blocks) + blocks, poolSize)
      ensures Valid() && available == old(available) - (p2 - old(hdr)[b].next)
      ensures maxUsed == Max(old(maxUsed), poolSize - available)
      ensures Used() == old(Used())[b := p2 - b - ITEM]
      ensures ring.items == [p2] + Without(old(ring.items), old(hdr)[b].next)
    {
      var nx := hdr[b].next;
      GrowGood(hdr, blocks, End(), b, p2, ring.items, available);
      ghost var h, bs, items := hdr, blocks, ring.items;
      var nn := hdr[nx].next;
      Charge(p2 - nx);
      var nodes := ring.Replace(nx, p2);
      MoveBorder(b, nx, p2);
      assert Good(hdr, blocks, End(), ring.items, available);
      touched := [b, nn, p2] + nodes;
      GrowHeaded(h, bs, End(), items, b, p2, nodes, poolSize);
    }

    /** Unlink item nx behind b, and link a new free one at p2. */
    method MoveBorder(b: nat, nx: nat, p2: nat)
      requires poolSize >= 2 * ITEM && CanGrow(hdr, blocks, End(), b, p2) && nx == hdr[b].next
      modifies this`hdr, this`blocks
      ensures hdr == Grown(old(hdr), old(blocks), End(), b, p2) && blocks == old(blocks) - {nx} + {p2}
    {
      GrownIs(hdr, blocks, End(), b, p2);
      var nn := hdr[nx].next;
      MoveLinks(b, nn, p2);
      blocks := blocks - {nx} + {p2};
    }

    /** The five pointer writes that move the border. */
    method MoveLinks(b: nat, nn: nat, p2: nat)
      requires b in hdr && nn in hdr && b != nn
      modifies this`hdr
      ensures hdr == BorderMoved(old(hdr), b, nn, p2)
    {
      hdr := hdr[nn := hdr[nn].(prev := b)];
      hdr := hdr[b := hdr[b].(next := nn)];
      hdr := hdr[p2 := Header(false, nn, b)];
      hdr := hdr[nn := hdr[nn].(prev := p2)];
      hdr := hdr[b := hdr[b].(next := p2)];
    }

    /** The end of b is cut off at p2, and joined with the item behind if that is free. */
    method Shrink(b: nat, p2: nat) returns (touched: seq<nat>)
      requires Valid() && CanCut(hdr, blocks, End(), b, p2) && hdr[b].used
      modifies this`hdr, this`blocks, this`available, ring
      ensures Headed(touched, old(blocks) + blocks, poolSize)
      ensures Valid() && Used() == old(Used())[b := p2 - b - ITEM]
      ensures old(hdr)[b].next in old(hdr) && ring.items == CutList(old(hdr), old(ring.items), b, p2)
    {
      var nx := CutOff(b, p2);
      var ahead, more := GiveEnd(p2);
      touched := [b] + [p2, nx] + ahead + more;
      HeadedAll(b, [p2, nx], ahead, more, old(blocks) + {p2}, blocks, poolSize);
    }

    /** What has been cut off is joined with a free item behind it, and listed. */
    method GiveEnd(p2: nat) returns (ahead: seq<nat>, more: seq<nat>)
      requires Freeing(p2, true) && CoalescedButAfter(hdr, blocks, p2) && |bytes| == poolSize
      modifies this`hdr, this`blocks, this`available, ring
      ensures Headed(ahead, old(blocks), poolSize) && Headed(more, blocks, poolSize) && blocks <= old(blocks)
      ensures Valid() && Used() == old(UsedNow())
      ensures p2 in old(hdr) && old(hdr)[p2].next in old(hdr)
      ensures ring.items ==
        [p2] + if old(hdr)[old(hdr)[p2].next].used then old(ring.items) else Without(old(ring.items), old(hdr)[p2].next)
    {
      ahead := MergeAhead(p2, true);
      more := FreeInsert(p2, true);
    }

    /** The cut itself: what is cut off is free, but not yet on the free list. */
    method CutOff(b: nat, p2: nat) returns (nx: nat)
      requires Valid() && CanCut(hdr, blocks, End(), b, p2) && hdr[b].used
      modifies this`hdr, this`blocks, this`available
      ensures nx in old(blocks) && blocks == old(blocks) + {p2} && nx == old(hdr)[b].next
      ensures p2 in hdr && hdr[p2].next == nx && nx in hdr && hdr[nx].used == old(hdr)[nx].used
      ensures Freeing(p2, true) && CoalescedButAfter(hdr, blocks, p2) && UsedNow() == old(Used())[b := p2 - b - ITEM]
    {
      ShrinkGood(hdr, blocks, End(), b, p2, ring.items, available);
      nx := hdr[b].next;
      assert nx in blocks by { assert BlockOk(hdr, blocks, End(), b); }
      available := available + (hdr[b].next - p2 - ITEM);
      CutItem(b, p2);
    }
  }

  /** An exact fit of all that is available is refused: on a new pool, its one free item cannot be had whole. */
  method ExactFitRefused(size: nat, memory: seq<int>) returns (heap: RtMemHeap, n: nat, r: Option<nat>)
    requires AlignDown(size) > 2 * ITEM && |memory| == AlignDown(size)
    ensures fresh(heap) && heap.Valid() && heap.Used() == map[] && r.None?
    ensures 0 in heap.blocks && !heap.hdr[0].used && Payload(heap.hdr, 0) == n == heap.available
  {
    heap := new RtMemHeap(size, memory);
    n := heap.available;
    AlignUpFixed(n);
    r := heap.Alloc(n);
  }

  lemma StampKeeps(h: Headers, bs: set<nat>, g: Headers, bs': set<nat>, end: nat, m: seq<int>, m1: seq<int>, p: nat)
    requires Laid(h, bs, end) && Laid(g, bs', end) && p in bs + bs' && |m1| == end + ITEM
    requires KeepsPayload(m, m1, Common(UsedItems(h, bs, end), UsedItems(g, bs', end)))
    ensures p + ITEM <= |m1| && KeepsPayload(m, Stamp(m1, p), Common(UsedItems(h, bs, end), UsedItems(g, bs', end)))
  {
    assert p <= end;
    var keep := Common(UsedItems(h, bs, end), UsedItems(g, bs', end));
    forall b, i | InPayload(keep, b, i) && 0 <= i < |m| ensures Stamp(m1, p)[i] == m[i] {
      HeaderSpares(h, bs, g, bs', end, p, b, i);
    }
  }

  lemma SwapItems(used: map<nat, int>, b: nat, c: nat, v: int)
    requires b in used && c !in used
    ensures used[c := v] - {b} == (used - {b})[c := v]
  {
  }

  lemma FitIsFree(h: Headers, bs: set<nat>, free: seq<nat>, n: nat, b: nat)
    requires bs <= h.Keys && Listed(h, bs, free) && (forall i :: 0 <= i < |free| ==> free[i] in h) && FirstFit(h, free, n, b)
    ensures b in free && b in h && Payload(h, b) >= n && !NoFit(h, bs, n)
  {
    assert b in bs && !h[b].used;
  }

  lemma NoneFits(h: Headers, bs: set<nat>, free: seq<nat>, n: nat)
    requires bs <= h.Keys && Listed(h, bs, free) && (forall i :: 0 <= i < |free| ==> free[i] in h && Payload(h, free[i]) < n)
    ensures NoFit(h, bs, n)
  {
    forall b | b in bs && !h[b].used ensures Payload(h, b) < n {
      assert b in free;
    }
  }

  /** Joining back: the item before swallows the freed one, which is not on the free list. */
  lemma BackFacts(h: Headers, bs: set<nat>, end: nat, b: nat, free: seq<nat>, available: int)
    requires HalfFreed(h, bs, end, b, free, true, available) && CoalescedBut(h, bs, b)
    requires b != 0 && h[b].prev in h && !h[h[b].prev].used
    ensures var p := h[b].prev;
      && CanMerge(h, bs, end, p) && h[p].next == b && h[b].next in h
      && HalfFreed(MergeHeaders(h, p), bs - {b}, end, p, free, false, available + ITEM)
      && CoalescedButAfter(MergeHeaders(h, p), bs - {b}, p)
      && UsedItems(MergeHeaders(h, p), bs - {b}, end) == UsedItems(h, bs, end)
  {
    var p := h[b].prev;
    assert p in bs && p < b && h[p].next == b by { assert BlockOk(h, bs, end, b); }
    MergeNext(h, bs, end, p);
    JoinLaid(h, bs, end, p);
    JoinBackward(h, bs, end, p);
    ListedJoin(h, bs, end, p, free);
    MergeSum(h, bs, p);
    JoinItems(h, bs, end, p);
  }

  /** Joining ahead: the item swallowed leaves the free list. */
  lemma AheadFacts(h: Headers, bs: set<nat>, end: nat, b: nat, free: seq<nat>, insert: bool, available: int)
    requires HalfFreed(h, bs, end, b, free, insert, available) && CoalescedButAfter(h, bs, b)
    requires h[b].next in h && !h[h[b].next].used
    ensures CanMerge(h, bs, end, b) && h[b].next in free && h[h[b].next].next in h
    ensures var g, bs' := MergeHeaders(h, b), bs - {h[b].next};
      && HalfFreed(g, bs', end, b, Without(free, h[b].next), insert, available + ITEM)
      && Coalesced(g, bs') && UsedItems(g, bs', end) == UsedItems(h, bs, end)
  {
    var n := h[b].next;
    assert n in bs && n != b by { assert BlockOk(h, bs, end, b); }
    MergeNext(h, bs, end, b);
    JoinLaid(h, bs, end, b);
    JoinForward(h, bs, end, b);
    JoinItems(h, bs, end, b);
    ListedAhead(h, bs, end, b, free, insert);
    AheadBooks(h, bs, end, b, free, available - (if insert then 0 - ITEM else 0));
  }

  lemma AheadBooks(h: Headers, bs: set<nat>, end: nat, b: nat, free: seq<nat>, available: int)
    requires CanMerge(h, bs, end, b) && available == Books(h, bs, end, |free|) && NoDup(free) && h[b].next in free
    ensures h[h[b].next].next in h && bs - {h[b].next} <= MergeHeaders(h, b).Keys
    ensures available + ITEM == Books(MergeHeaders(h, b), bs - {h[b].next}, end, |Without(free, h[b].next)|)
  {
    MergeNext(h, bs, end, b);
    MergeSum(h, bs, b);
    WithoutSize(free, h[b].next);
  }

  lemma ListedAhead(h: Headers, bs: set<nat>, end: nat, b: nat, free: seq<nat>, insert: bool)
    requires CanMerge(h, bs, end, b)
    requires if insert then ListedBut(h, bs, free, b) else Listed(h, bs, free)
    ensures h[h[b].next].next in h && bs - {h[b].next} <= MergeHeaders(h, b).Keys
    ensures var g, rest := MergeHeaders(h, b), Without(free, h[b].next);
      if insert then ListedBut(g, bs - {h[b].next}, rest, b) else Listed(g, bs - {h[b].next}, rest)
  {
    var n := h[b].next;
    MergeNext(h, bs, end, b);
    JoinUsed(h, bs, end, b);
    WithoutNoDup(free, n);
    forall c ensures c in Without(free, n) <==> c in free && c != n {
      WithoutIn(free, n, c);
    }
  }

  lemma CutRoom(h: Headers, bs: set<nat>, end: nat, b: nat, n: nat)
    requires Laid(h, bs, end) && b in bs && b != end && n % 16 == 0 && Payload(h, b) >= n + ITEM + MINIALLOC
    ensures CanCut(h, bs, end, b, b + n + ITEM)
  {
    Aligned(h, bs, end, b);
    AlignedSum(b, n);
  }

  // ----- Growing in place -----

  lemma GrowRoom(h: Headers, bs: set<nat>, end: nat, b: nat, n: nat)
    requires Laid(h, bs, end) && b in bs && b != end && h[b].used && n % 16 == 0 && n > Payload(h, b)
    requires h[b].next in h && !h[h[b].next].used && Payload(h, h[b].next) + Payload(h, b) > n + MINIALLOC
    ensures CanGrow(h, bs, end, b, b + ITEM + n)
  {
    assert h[b].next in bs by { assert BlockOk(h, bs, end, b); }
    var nn := h[h[b].next].next;
    assert nn in bs by { assert BlockOk(h, bs, end, h[b].next); }
    Aligned(h, bs, end, b);
    AlignedSum(b, n);
  }

  lemma Aligned(h: Headers, bs: set<nat>, end: nat, b: nat)
    requires Tiling(h, bs, end) && b in bs
    ensures b % 16 == 0
  {
    assert BlockOk(h, bs, end, b);
  }

  lemma AlignedSum(b: nat, n: nat)
    requires b % 16 == 0 && n % 16 == 0
    ensures (b + ITEM + n) % 16 == 0
  {
  }

  ghost predicate CanGrow(h: Headers, bs: set<nat>, end: nat, b: nat, p2: nat) {
    && Laid(h, bs, end) && b in bs && b != end && h[b].used && h[b].next in bs && h[b].next != end && !h[h[b].next].used
    && p2 % 16 == 0 && b + ITEM <= p2 && h[h[b].next].next in h && p2 + ITEM <= h[h[b].next].next
  }

  /** As if b had been freed, joined with the item behind it, and cut again. */
  ghost function Grown(h: Headers, bs: set<nat>, end: nat, b: nat, p2: nat): Headers
    requires CanGrow(h, bs, end, b, p2)
  {
    GrowSteps(h, bs, end, b, p2);
    Cut(MergeHeaders(MarkHeaders(h, b, false), b), bs - {h[b].next}, end, b, p2)
  }

  lemma GrowSteps(h: Headers, bs: set<nat>, end: nat, b: nat, p2: nat)
    requires CanGrow(h, bs, end, b, p2)
    ensures var h1, n := MarkHeaders(h, b, false), h[b].next;
      && CanMerge(h1, bs, end, b) && h1[h1[b].next].next in h1 && h[n].next in bs && h[n].next != n && h[n].next != b
      && CanCut(MergeHeaders(h1, b), bs - {n}, end, b, p2)
  {
    MarkLaid(h, bs, end, b, false);
    var h1 := MarkHeaders(h, b, false);
    JoinLaid(h1, bs, end, b);
    MergeNext(h1, bs, end, b);
  }

  /** Moving the border takes five pointer writes. */
  lemma GrownIs(h: Headers, bs: set<nat>, end: nat, b: nat, p2: nat)
    requires CanGrow(h, bs, end, b, p2)
    ensures var nx, nn := h[b].next, h[h[b].next].next;
      && nx in h && nn in h && nn != b
      && Grown(h, bs, end, b, p2) == BorderMoved(h, b, nn, p2)
  {
    GrowSteps(h, bs, end, b, p2);
  }

  function BorderMoved(h: Headers, b: nat, nn: nat, p2: nat): Headers
    requires b in h && nn in h && b != nn
  {
    var h1 := h[nn := h[nn].(prev := b)];
    var h2 := h1[b := h1[b].(next := nn)];
    var h3 := h2[p2 := Header(false, nn, b)];
    var h4 := h3[nn := h3[nn].(prev := p2)];
    h4[b := h4[b].(next := p2)]
  }

  lemma GrowSum(h: Headers, bs: set<nat>, end: nat, b: nat, p2: nat)
    requires CanGrow(h, bs, end, b, p2)
    ensures bs - {h[b].next} + {p2} <= Grown(h, bs, end, b, p2).Keys
    ensures UsedSum(Grown(h, bs, end, b, p2), bs - {h[b].next} + {p2}) == UsedSum(h, bs) + (p2 - h[b].next)
  {
    GrowSteps(h, bs, end, b, p2);
    var h1 := MarkHeaders(h, b, false);
    MarkSum(h, bs, b, false);
    MergeNext(h1, bs, end, b);
    MergeSum(h1, bs, b);
    CutSum(MergeHeaders(h1, b), bs - {h[b].next}, end, b, p2);
  }

  lemma GrowUsed(h: Headers, bs: set<nat>, end: nat, b: nat, p2: nat)
    requires CanGrow(h, bs, end, b, p2)
    ensures var g := Grown(h, bs, end, b, p2);
      && p2 in g && !g[p2].used && g[p2].next == h[h[b].next].next && b in g && g[b].used && g[b].next == p2
      && (forall c {:trigger c in bs} :: c in bs && c != b && c != h[b].next ==>
            c in g && g[c].used == h[c].used && g[c].next == h[c].next)
  {
    GrowSteps(h, bs, end, b, p2);
    var h1 := MarkHeaders(h, b, false);
    JoinUsed(h1, bs, end, b);
    var g, h2, rest := Grown(h, bs, end, b, p2), MergeHeaders(h1, b), bs - {h[b].next};
    CutUsed(h2, rest, end, b, p2);
    forall c | c in bs && c != b && c != h[b].next ensures c in g && g[c].used == h[c].used && g[c].next == h[c].next {
      assert c in rest;
    }
  }

  lemma GrowCoalesced(h: Headers, bs: set<nat>, end: nat, b: nat, p2: nat)
    requires CanGrow(h, bs, end, b, p2) && Coalesced(h, bs)
    ensures bs - {h[b].next} + {p2} <= Grown(h, bs, end, b, p2).Keys
    ensures Coalesced(Grown(h, bs, end, b, p2), bs - {h[b].next} + {p2})
  {
    var g, bs' := Grown(h, bs, end, b, p2), bs - {h[b].next} + {p2};
    GrowSteps(h, bs, end, b, p2);
    GrowUsed(h, bs, end, b, p2);
    forall c | c in bs' && !g[c].used ensures g[c].next in g && g[g[c].next].used {
      if c == p2 {
        assert h[b].next in bs;
        assert h[h[b].next].next in bs;
      } else {
        assert BlockOk(h, bs, end, c);
        assert h[c].next in bs;
        assert h[c].next != h[b].next;
      }
    }
  }

  lemma GrowFacts(h: Headers, bs: set<nat>, end: nat, b: nat, p2: nat, free: seq<nat>)
    requires CanGrow(h, bs, end, b, p2) && Coalesced(h, bs) && Listed(h, bs, free)
    ensures h[b].next in free
    ensures var g, bs' := Grown(h, bs, end, b, p2), bs - {h[b].next} + {p2};
      && Laid(g, bs', end) && Coalesced(g, bs')
      && p2 !in Without(free, h[b].next) && Listed(g, bs', [p2] + Without(free, h[b].next))
      && UsedSum(g, bs') == UsedSum(h, bs) + (p2 - h[b].next)
      && UsedItems(g, bs', end) == UsedItems(h, bs, end)[b := p2 - b - ITEM]
  {
    GrowSteps(h, bs, end, b, p2);
    CutLaid(MergeHeaders(MarkHeaders(h, b, false), b), bs - {h[b].next}, end, b, p2);
    GrowCoalesced(h, bs, end, b, p2);
    GrowSum(h, bs, end, b, p2);
    GrowListed(h, bs, end, b, p2, free);
    GrowItems(h, bs, end, b, p2);
  }

  lemma GrowGood(h: Headers, bs: set<nat>, end: nat, b: nat, p2: nat, free: seq<nat>, available: int)
    requires CanGrow(h, bs, end, b, p2) && Good(h, bs, end, free, available)
    ensures h[b].next in free
    ensures var g, bs', free' := Grown(h, bs, end, b, p2), bs - {h[b].next} + {p2}, Without(free, h[b].next);
      && p2 !in free' && Good(g, bs', end, [p2] + free', available - (p2 - h[b].next))
      && UsedItems(g, bs', end) == UsedItems(h, bs, end)[b := p2 - b - ITEM]
  {
    GrowFacts(h, bs, end, b, p2, free);
    WithoutSize(free, h[b].next);
    BooksMove(h, bs, Grown(h, bs, end, b, p2), bs - {h[b].next} + {p2}, end, |free|, |free|, -(p2 - h[b].next));
  }

  lemma GrowListed(h: Headers, bs: set<nat>, end: nat, b: nat, p2: nat, free: seq<nat>)
    requires CanGrow(h, bs, end, b, p2) && Listed(h, bs, free)
    ensures bs - {h[b].next} + {p2} <= Grown(h, bs, end, b, p2).Keys
    ensures p2 !in Without(free, h[b].next)
    ensures Listed(Grown(h, bs, end, b, p2), bs - {h[b].next} + {p2}, [p2] + Without(free, h[b].next))
  {
    var n := h[b].next;
    GrowSteps(h, bs, end, b, p2);
    CutLaid(MergeHeaders(MarkHeaders(h, b, false), b), bs - {n}, end, b, p2);
    GrowUsed(h, bs, end, b, p2);
    WithoutNoDup(free, n);
    forall c ensures c in Without(free, n) <==> c in free && c != n {
      WithoutIn(free, n, c);
    }
  }

  /** Free item nx gives way to free item p2; only b, which ends there now, is used differently. */
  lemma ItemsMoved(h: Headers, bs: set<nat>, g: Headers, end: nat, b: nat, nx: nat, p2: nat)
    requires bs <= h.Keys && b in bs && b != end && nx in bs && nx != b && !h[nx].used && p2 !in bs - {nx} && p2 != b
    requires bs - {nx} + {p2} <= g.Keys && !g[p2].used && g[b].used && g[b].next == p2
    requires forall c {:trigger c in bs} :: c in bs && c != b && c != nx ==> g[c].used == h[c].used && g[c].next == h[c].next
    ensures UsedItems(g, bs - {nx} + {p2}, end) == UsedItems(h, bs, end)[b := p2 - b - ITEM]
  {
  }

  lemma GrowItems(h: Headers, bs: set<nat>, end: nat, b: nat, p2: nat)
    requires CanGrow(h, bs, end, b, p2)
    ensures bs - {h[b].next} + {p2} <= Grown(h, bs, end, b, p2).Keys
    ensures UsedItems(Grown(h, bs, end, b, p2), bs - {h[b].next} + {p2}, end) == UsedItems(h, bs, end)[b := p2 - b - ITEM]
  {
    var nx, g := h[b].next, Grown(h, bs, end, b, p2);
    assert p2 !in bs - {nx} && bs - {nx} + {p2} <= g.Keys by {
      GrowSteps(h, bs, end, b, p2);
      CutLaid(MergeHeaders(MarkHeaders(h, b, false), b), bs - {nx}, end, b, p2);
    }
    assert b in bs && b != p2;
    GrowUsed(h, bs, end, b, p2);
    ItemsMoved(h, bs, g, end, b, nx, p2);
  }

  lemma ShrinkGood(h: Headers, bs: set<nat>, end: nat, b: nat, p2: nat, free: seq<nat>, available: int)
    requires Good(h, bs, end, free, available) && CanCut(h, bs, end, b, p2) && h[b].used
    ensures var g, bs' := Cut(h, bs, end, b, p2), bs + {p2};
      && p2 !in bs && Laid(g, bs', end) && CoalescedButAfter(g, bs', p2) && ListedBut(g, bs', free, p2)
      && !g[p2].used && available + (h[b].next - p2 - ITEM) == Books(g, bs', end, |free| + 1)
      && UsedItems(g, bs', end) == UsedItems(h, bs, end)[b := p2 - b - ITEM]
  {
    ShrinkFacts(h, bs, end, b, p2, free);
    BooksMove(h, bs, Cut(h, bs, end, b, p2), bs + {p2}, end, |free|, |free| + 1, h[b].next - p2 - ITEM);
  }

  /** Cutting a used item: the new free one may still have a free neighbour behind it. */
  lemma ShrinkFacts(h: Headers, bs: set<nat>, end: nat, b: nat, p2: nat, free: seq<nat>)
    requires CanCut(h, bs, end, b, p2) && Coalesced(h, bs) && h[b].used && Listed(h, bs, free)
    ensures var g, bs' := Cut(h, bs, end, b, p2), bs + {p2};
      && p2 !in bs && Laid(g, bs', end) && CoalescedButAfter(g, bs', p2) && ListedBut(g, bs', free, p2)
      && !g[p2].used && g[p2].next == h[b].next
      && UsedSum(g, bs') == UsedSum(h, bs) - (h[b].next - b) + (p2 - b)
      && UsedItems(g, bs', end) == UsedItems(h, bs, end)[b := p2 - b - ITEM]
  {
    CutLaid(h, bs, end, b, p2);
    CutUsed(h, bs, end, b, p2);
    CutSum(h, bs, end, b, p2);
    CutItems(h, bs, end, b, p2);
    CutCoalesced(h, bs, end, b, p2);
    assert ListedBut(h, bs, free, b);
    ListedCut(h, bs, end, b, p2, free);
    var g, bs' := Cut(h, bs, end, b, p2), bs + {p2};
    assert g[p2].prev == b && g[b].used by {
      assert BlockOk(g, bs', end, b);
    }
    NoJoinBackward(g, bs', end, p2);
  }

  lemma InitialPool(h: Headers, end: nat)
    requires ITEM <= end && end % 16 == 0 && h == map[0 := Header(false, end, 0), end := Header(true, end, 0)]
    ensures Laid(h, {0, end}, end) && Coalesced(h, {0, end}) && Listed(h, {0, end}, [0])
    ensures UsedSum(h, {0, end}) == 0 && UsedItems(h, {0, end}, end) == map[]
  {
    var bs := {0, end};
    assert BlockOk(h, bs, end, 0) && BlockOk(h, bs, end, end);
    UsedSumRemove(h, bs, end);
    UsedSumRemove(h, bs - {end}, 0);
    assert bs - {end} - {0} == {};
  }

  /** Everything that cutting a free item keeps. */
  lemma CutFacts(h: Headers, bs: set<nat>, end: nat, b: nat, p2: nat)
    requires CanCut(h, bs, end, b, p2) && Coalesced(h, bs) && !h[b].used
    ensures p2 !in bs && Laid(Cut(h, bs, end, b, p2), bs + {p2}, end) && Coalesced(Cut(h, bs, end, b, p2), bs + {p2})
    ensures UsedSum(Cut(h, bs, end, b, p2), bs + {p2}) == UsedSum(h, bs) + (p2 - b)
    ensures UsedItems(Cut(h, bs, end, b, p2), bs + {p2}, end) == UsedItems(h, bs, end)[b := p2 - b - ITEM]
  {
    CutLaid(h, bs, end, b, p2);
    CutCoalesced(h, bs, end, b, p2);
    CutSum(h, bs, end, b, p2);
    CutItems(h, bs, end, b, p2);
  }
}
