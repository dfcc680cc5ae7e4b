/**
  The page allocator under the slab allocator, rt-thread/kernel/src/slab.c: a list of free runs in
  address order, fully coalesced, against the plain set of free pages.
 */
module SlabPages {
  import opened Wrappers

  /** A node of the page list: a free run that begins at page start. */
  datatype Run = Run(start: nat, len: nat)

  function End(r: Run): nat { r.start + r.len }

  /** The pages a, a + 1, ..., a + n - 1. */
  ghost function Interval(a: nat, n: nat): (r: set<nat>)
    ensures forall p: nat :: p in r <==> a <= p < a + n
  {
    if n == 0 then {} else Interval(a, n - 1) + {a + n - 1}
  }

  ghost function Pages(list: seq<Run>): set<nat> {
    if list == [] then {} else Interval(list[0].start, list[0].len) + Pages(list[1..])
  }

  /** In address order above lo, with a used page before each run. */
  ghost predicate Tidy(list: seq<Run>, lo: int) {
    list == [] || (list[0].len > 0 && lo < list[0].start && Tidy(list[1..], End(list[0])))
  }

  lemma {:induction false} PagesAbove(list: seq<Run>, lo: int)
    requires Tidy(list, lo)
    ensures forall p :: p in Pages(list) ==> p > lo
  {
    if list != [] {
      PagesAbove(list[1..], End(list[0]));
    }
  }

  lemma {:induction false} TidyLower(list: seq<Run>, lo: int, lo': int)
    requires Tidy(list, lo) && lo' <= lo
    ensures Tidy(list, lo')
  {
  }

  lemma {:induction false} IntervalSize(a: nat, n: nat)
    ensures |Interval(a, n)| == n
  {
    if n > 0 {
      IntervalSize(a, n - 1);
    }
  }

  ghost function Total(list: seq<Run>): nat {
    if list == [] then 0 else list[0].len + Total(list[1..])
  }

  /** The runs are disjoint: their lengths add up to the number of free pages. */
  lemma {:induction false} PagesCounted(list: seq<Run>, lo: int)
    requires Tidy(list, lo)
    ensures |Pages(list)| == Total(list)
  {
    if list != [] {
      PagesCounted(list[1..], End(list[0]));
      PagesAbove(list[1..], End(list[0]));
      IntervalSize(list[0].start, list[0].len);
      assert Interval(list[0].start, list[0].len) !! Pages(list[1..]);
    }
  }

  // ----- rt_page_alloc -----

  /** n pages from a on are free. */
  ghost predicate Fits(list: seq<Run>, a: nat, n: nat) {
    Interval(a, n) <= Pages(list)
  }

  /** The first run that is long enough. */
  function FirstFit(list: seq<Run>, n: nat): Option<nat> {
    if list == [] then None
    else if list[0].len >= n then Some(list[0].start)
    else FirstFit(list[1..], n)
  }

  function AfterAlloc(list: seq<Run>, n: nat): seq<Run> {
    if list == [] then []
    else if list[0].len > n then [Run(list[0].start + n, list[0].len - n)] + list[1..]
    else if list[0].len == n then list[1..]
    else [list[0]] + AfterAlloc(list[1..], n)
  }

  /** Consecutive free pages lie in the first run or behind it, since a used page follows the run. */
  lemma FitSplit(list: seq<Run>, lo: int, a: nat, n: nat)
    requires Tidy(list, lo) && list != [] && n > 0 && Fits(list, a, n)
    ensures (list[0].start <= a && a + n <= End(list[0])) || (a > End(list[0]) && Fits(list[1..], a, n))
  {
    PagesAbove(list[1..], End(list[0]));
    assert a in Interval(a, n);
    assert End(list[0]) in Interval(a, n) <==> a <= End(list[0]) < a + n;
  }

  /** Success takes the lowest pages that fit; failure means that none fit. */
  lemma {:induction false} AllocLowest(list: seq<Run>, lo: int, a: nat, n: nat)
    requires Tidy(list, lo) && n > 0 && Fits(list, a, n)
    ensures FirstFit(list, n).Some? && FirstFit(list, n).value <= a
  {
    assert a in Interval(a, n);
    if list != [] {
      FitSplit(list, lo, a, n);
      if list[0].len < n {
        AllocLowest(list[1..], End(list[0]), a, n);
      }
    }
  }

  /** Exactly the pages handed out leave the free set. */
  lemma {:induction false} AllocExact(list: seq<Run>, lo: int, n: nat)
    requires Tidy(list, lo) && n > 0
    ensures Tidy(AfterAlloc(list, n), lo)
    ensures FirstFit(list, n).None? ==> AfterAlloc(list, n) == list
    ensures FirstFit(list, n).Some? ==>
      var a := FirstFit(list, n).value;
      a > lo && Fits(list, a, n) && Pages(AfterAlloc(list, n)) == Pages(list) - Interval(a, n)
  {
    if list != [] {
      var r, rest := list[0], list[1..];
      PagesAbove(rest, End(r));
      if r.len > n {
        assert ([Run(r.start + n, r.len - n)] + rest)[1..] == rest;
      } else if r.len == n {
        TidyLower(rest, End(r), lo);
      } else {
        AllocExact(rest, End(r), n);
        assert ([r] + AfterAlloc(rest, n))[1..] == AfterAlloc(rest, n);
      }
    }
  }

  // ----- rt_page_free -----

  function AfterFree(list: seq<Run>, addr: nat, n: nat): seq<Run> {
    if list == [] then [Run(addr, n)]
    else if End(list[0]) == addr then
      var rest := list[1..];
      if rest != [] && addr + n == rest[0].start
      then [Run(list[0].start, list[0].len + n + rest[0].len)] + rest[1..]
      else [Run(list[0].start, list[0].len + n)] + rest
    else if list[0].start == addr + n then [Run(addr, list[0].len + n)] + list[1..]
    else if list[0].start > addr + n then [Run(addr, n)] + list
    else [list[0]] + AfterFree(list[1..], addr, n)
  }

  lemma IntervalJoin(a: nat, m: nat, n: nat)
    ensures Interval(a, m) + Interval(a + m, n) == Interval(a, m + n)
  {
  }

  /** A run apart from the freed pages ends before or begins behind them. */
  lemma Beside(list: seq<Run>, lo: int, addr: nat, n: nat)
    requires Tidy(list, lo) && list != [] && n > 0 && Interval(addr, n) !! Pages(list)
    ensures End(list[0]) <= addr || addr + n <= list[0].start
  {
    var p := if list[0].start <= addr then addr else list[0].start;
    assert p in Interval(addr, n) <==> p < addr + n;
  }

  lemma FreeUp(r: Run, rest: seq<Run>, lo: int, n: nat)
    requires r.len > 0 && lo < r.start && Tidy(rest, End(r)) && n > 0
    requires rest == [] || End(r) + n < rest[0].start
    ensures var list' := [Run(r.start, r.len + n)] + rest;
      Tidy(list', lo) && Pages(list') == Interval(r.start, r.len) + Pages(rest) + Interval(End(r), n)
  {
    IntervalJoin(r.start, r.len, n);
    assert ([Run(r.start, r.len + n)] + rest)[1..] == rest;
  }

  lemma FreeDown(r: Run, rest: seq<Run>, lo: int, addr: nat, n: nat)
    requires r.len > 0 && lo < addr && r.start == addr + n && Tidy(rest, End(r))
    ensures var list' := [Run(addr, r.len + n)] + rest;
      Tidy(list', lo) && Pages(list') == Interval(r.start, r.len) + Pages(rest) + Interval(addr, n)
  {
    IntervalJoin(addr, n, r.len);
    assert ([Run(addr, r.len + n)] + rest)[1..] == rest;
  }

  lemma FreeBetween(r: Run, rest: seq<Run>, lo: int, n: nat)
    requires r.len > 0 && lo < r.start && Tidy(rest, End(r)) && n > 0
    requires rest != [] && End(r) + n == rest[0].start
    ensures var list' := [Run(r.start, r.len + n + rest[0].len)] + rest[1..];
      Tidy(list', lo) && Pages(list') == Interval(r.start, r.len) + Pages(rest) + Interval(End(r), n)
  {
    IntervalJoin(r.start, r.len, n);
    IntervalJoin(r.start, r.len + n, rest[0].len);
    assert ([Run(r.start, r.len + n + rest[0].len)] + rest[1..])[1..] == rest[1..];
  }

  lemma FreeBehind(list: seq<Run>, lo: int, addr: nat, n: nat)
    requires Tidy(list, lo) && list != [] && n > 0 && Interval(addr, n) !! Pages(list) && End(list[0]) == addr
    ensures Tidy(AfterFree(list, addr, n), lo)
    ensures Pages(AfterFree(list, addr, n)) == Pages(list) + Interval(addr, n)
  {
    var r, rest := list[0], list[1..];
    if rest != [] {
      Beside(rest, End(r), addr, n);
    }
    if rest != [] && addr + n == rest[0].start {
      FreeBetween(r, rest, lo, n);
    } else {
      FreeUp(r, rest, lo, n);
    }
  }

  /** Exactly the pages given back join the free set, and neighbours are coalesced. */
  lemma {:induction false} FreeExact(list: seq<Run>, lo: int, addr: nat, n: nat)
    requires Tidy(list, lo) && n > 0 && lo < addr && Interval(addr, n) !! Pages(list)
    ensures Tidy(AfterFree(list, addr, n), lo)
    ensures Pages(AfterFree(list, addr, n)) == Pages(list) + Interval(addr, n)
  {
    if list == [] {
      assert [Run(addr, n)][1..] == [];
    } else {
      var r, rest := list[0], list[1..];
      Beside(list, lo, addr, n);
      if End(r) == addr {
        FreeBehind(list, lo, addr, n);
      } else if r.start == addr + n {
        FreeDown(r, rest, lo, addr, n);
      } else if r.start > addr + n {
        assert ([Run(addr, n)] + list)[1..] == list;
      } else {
        FreeExact(rest, End(r), addr, n);
        assert ([r] + AfterFree(rest, addr, n))[1..] == AfterFree(rest, addr, n);
      }
    }
  }

  /** Freeing what was just allocated restores the free set. */
  lemma AllocFree(list: seq<Run>, n: nat)
    requires Tidy(list, -1) && n > 0 && FirstFit(list, n).Some?
    ensures var a := FirstFit(list, n).value;
      Pages(AfterFree(AfterAlloc(list, n), a, n)) == Pages(list)
  {
    AllocExact(list, -1, n);
    FreeExact(AfterAlloc(list, n), -1, FirstFit(list, n).value, n);
  }

  // ----- The allocator -----

  /** The walk has passed front: what remains to do is an allocation from rest. */
  ghost predicate AllocAt(front: seq<Run>, rest: seq<Run>, list: seq<Run>, n: nat) {
    FirstFit(rest, n) == FirstFit(list, n) && AfterAlloc(list, n) == front + AfterAlloc(rest, n)
  }

  lemma {:induction false} NoFitSame(list: seq<Run>, n: nat)
    requires FirstFit(list, n).None?
    ensures AfterAlloc(list, n) == list
  {
    if list != [] {
      NoFitSame(list[1..], n);
    }
  }

  lemma AllocPast(front: seq<Run>, rest: seq<Run>, list: seq<Run>, n: nat)
    requires AllocAt(front, rest, list, n) && rest != [] && rest[0].len < n
    ensures AllocAt(front + [rest[0]], rest[1..], list, n)
  {
    Past(front, rest[0], AfterAlloc(rest[1..], n));
  }

  ghost predicate FreeAt(front: seq<Run>, rest: seq<Run>, list: seq<Run>, addr: nat, n: nat) {
    AfterFree(list, addr, n) == front + AfterFree(rest, addr, n)
  }

  lemma FreePast(front: seq<Run>, rest: seq<Run>, list: seq<Run>, addr: nat, n: nat)
    requires FreeAt(front, rest, list, addr, n) && rest != [] && End(rest[0]) != addr && rest[0].start < addr + n
    ensures FreeAt(front + [rest[0]], rest[1..], list, addr, n)
  {
    Past(front, rest[0], AfterFree(rest[1..], addr, n));
  }

  lemma Past(front: seq<Run>, b: Run, x: seq<Run>)
    ensures front + ([b] + x) == front + [b] + x
  {
  }

  class PageList {
    var list: seq<Run>
    ghost var used: set<nat>
    ghost const heap: set<nat>

    /** Every page of the heap is free or used, never both. */
    ghost predicate Valid()
      reads this
    {
      Tidy(list, -1) && Pages(list) !! used && Pages(list) + used == heap
    }

    /** rt_page_init: all pages free. */
    constructor (start: nat, npages: nat)
      requires npages > 0
      ensures Valid() && used == {} && heap == Interval(start, npages)
    {
      list, used := [Run(start, npages)], {};
      heap := Interval(start, npages);
      assert [Run(start, npages)][1..] == [];
    }

    /** rt_page_alloc: the lowest fitting pages, and none only if no pages fit. */
    method Alloc(npages: nat) returns (r: Option<nat>)
      requires Valid()
      modifies this
      ensures Valid()
      ensures r.Some? ==>
        && npages > 0 && Fits(old(list), r.value, npages)
        && (forall a: nat :: Fits(old(list), a, npages) ==> r.value <= a)
        && used == old(used) + Interval(r.value, npages) && Pages(list) == Pages(old(list)) - Interval(r.value, npages)
      ensures r.None? ==>
        && list == old(list) && used == old(used)
        && (npages == 0 || forall a: nat :: !Fits(list, a, npages))
    {
      if npages == 0 {
        return None;
      }
      AllocExact(list, -1, npages);
      forall a: nat | Fits(list, a, npages) ensures FirstFit(list, npages).Some? && FirstFit(list, npages).value <= a {
        AllocLowest(list, -1, a, npages);
      }
      r := Unlink(npages);
      if r.Some? {
        used := used + Interval(r.value, npages);
      }
    }

    /** The walk along the list: front is behind the prev pointer, rest is what it leads to. */
    method Unlink(npages: nat) returns (r: Option<nat>)
      requires npages > 0
      modifies this`list
      ensures r == FirstFit(old(list), npages) && list == AfterAlloc(old(list), npages)
    {
      var front, rest := [], list;
      while rest != [] && rest[0].len < npages
        invariant list == old(list) && AllocAt(front, rest, list, npages)
        decreases |rest|
      {
        AllocPast(front, rest, list, npages);
        front, rest := front + [rest[0]], rest[1..];
      }
      if rest == [] {
        NoFitSame(list, npages);
        return None;
      }
      var b := rest[0];
      r := Some(b.start);
      if b.len > npages {
        var spliced := [Run(b.start + npages, b.len - npages)] + rest[1..];
        assert AfterAlloc(rest, npages) == spliced;
        list := front + spliced;
      } else {
        list := front + rest[1..];
      }
    }

    /** rt_page_free of used pages: exactly those become free. */
    method Free(addr: nat, npages: nat)
      requires Valid() && npages > 0 && Interval(addr, npages) <= used
      modifies this
      ensures Valid() && used == old(used) - Interval(addr, npages)
      ensures Pages(list) == Pages(old(list)) + Interval(addr, npages)
    {
      FreeExact(list, -1, addr, npages);
      Link(addr, npages);
      used := used - Interval(addr, npages);
    }

    /** The walk along the list, to where the freed pages belong. */
    method Link(addr: nat, npages: nat)
      modifies this`list
      ensures list == AfterFree(old(list), addr, npages)
    {
      var front, rest := [], list;
      while rest != []
        invariant list == old(list) && FreeAt(front, rest, list, addr, npages)
        decreases |rest|
      {
        var b, tail := rest[0], rest[1..];
        if End(b) == addr {
          if tail != [] && addr + npages == tail[0].start {
            var spliced := [Run(b.start, b.len + npages + tail[0].len)] + tail[1..];
            assert AfterFree(rest, addr, npages) == spliced;
            list := front + spliced;
          } else {
            var spliced := [Run(b.start, b.len + npages)] + tail;
            assert AfterFree(rest, addr, npages) == spliced;
            list := front + spliced;
          }
          return;
        }
        if b.start == addr + npages {
          var spliced := [Run(addr, b.len + npages)] + tail;
          assert AfterFree(rest, addr, npages) == spliced;
          list := front + spliced;
          return;
        }
        if b.start > addr + npages {
          break;
        }
        FreePast(front, rest, list, addr, npages);
        front, rest := front + [b], tail;
      }
      var spliced := [Run(addr, npages)] + rest;
      assert AfterFree(rest, addr, npages) == spliced;
      list := front + spliced;
    }
  }
}
