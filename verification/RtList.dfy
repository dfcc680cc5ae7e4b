/**
  The circular doubly linked list of rt-thread/kernel/include/rtservice.h on which every kernel queue
  rests: pointer updates that know neither the list nor its head do what the sequence view says.
 */
module RtList {
  import opened Queues

  type Node = nat
  type Links = map<Node, Node>

  // ----- Rings -----

  function Succ(c: seq<Node>, i: nat): Node
    requires i < |c|
  {
    if i + 1 < |c| then c[i + 1] else c[0]
  }

  /** next goes round c, and prev goes back. */
  ghost predicate Ring(next: Links, prev: Links, c: seq<Node>) {
    && c != [] && NoDup(c)
    && (forall i :: 0 <= i < |c| ==> c[i] in next && next[c[i]] == Succ(c, i))
    && (forall i :: 0 <= i < |c| ==> Succ(c, i) in prev && prev[Succ(c, i)] == c[i])
  }

  /** Links that agree on the nodes of a ring make it a ring again. */
  lemma RingSame(next: Links, prev: Links, next': Links, prev': Links, c: seq<Node>)
    requires Ring(next, prev, c)
    requires forall x :: x in c ==> x in next' && next'[x] == next[x]
    requires forall x :: x in c && x in prev ==> x in prev' && prev'[x] == prev[x]
    ensures Ring(next', prev', c)
  {
    forall i | 0 <= i < |c| ensures Succ(c, i) in prev' && prev'[Succ(c, i)] == c[i] {
      assert Succ(c, i) in c;
    }
  }

  lemma InsertNoDup(c: seq<Node>, i: nat, n: Node)
    requires NoDup(c) && i < |c| && n !in c
    ensures NoDup(c[..i + 1] + [n] + c[i + 1..])
  {
    var d := c[..i + 1] + [n] + c[i + 1..];
    assert forall j :: 0 <= j < |d| ==> d[j] == if j <= i then c[j] else if j == i + 1 then n else c[j - 1];
  }

  /** rt_list_insert_after(c[i], n) */
  lemma RingInsert(next: Links, prev: Links, c: seq<Node>, i: nat, n: Node)
    requires Ring(next, prev, c) && i < |c| && n !in c
    ensures var l, r := c[i], next[c[i]];
      Ring(next[n := r][l := n], prev[r := n][n := l], c[..i + 1] + [n] + c[i + 1..])
  {
    var l, r, d := c[i], next[c[i]], c[..i + 1] + [n] + c[i + 1..];
    var next', prev' := next[n := r][l := n], prev[r := n][n := l];
    InsertNoDup(c, i, n);
    forall j | 0 <= j < |d|
      ensures d[j] in next' && next'[d[j]] == Succ(d, j) && Succ(d, j) in prev' && prev'[Succ(d, j)] == d[j]
    {
      if j < i {
        assert d[j] == c[j] && Succ(d, j) == Succ(c, j) && c[j + 1] != r;
      } else if j > i + 1 {
        assert d[j] == c[j - 1] && Succ(d, j) == Succ(c, j - 1);
        assert Succ(c, j - 1) != r;
      }
    }
  }

  /** rt_list_remove(c[i]), for a node that is not the first. */
  lemma RingRemove(next: Links, prev: Links, c: seq<Node>, i: nat)
    requires Ring(next, prev, c) && 0 < i < |c|
    ensures var n := c[i];
      && n in prev && next[n] != n && prev[n] != n
      && Ring(next[prev[n] := next[n]][n := n], prev[next[n] := prev[n]][n := n], c[..i] + c[i + 1..])
  {
    var n, d := c[i], c[..i] + c[i + 1..];
    assert Succ(c, i - 1) == n;
    var next', prev' := next[prev[n] := next[n]][n := n], prev[next[n] := prev[n]][n := n];
    assert forall j :: 0 <= j < |d| ==> d[j] == c[if j < i then j else j + 1];
    forall j | 0 <= j < |d|
      ensures d[j] in next' && next'[d[j]] == Succ(d, j) && Succ(d, j) in prev' && prev'[Succ(d, j)] == d[j]
    {
      var k := if j < i then j else j + 1;
      assert d[j] == c[k];
      if j == i - 1 {
        assert Succ(d, j) == Succ(c, i);
      } else {
        assert Succ(d, j) == Succ(c, k) && c[k] != c[i - 1];
        assert Succ(c, k) != next[n];
      }
    }
  }

  // ----- All lists at once -----

  type Lists = map<Node, seq<Node>>

  /** The ring of a list: its head, then its members. */
  ghost function RingOf(ls: Lists, h: Node): seq<Node>
    requires h in ls
  {
    [h] + ls[h]
  }

  /** home says which list each linked node is on, so it is on one only. */
  ghost predicate Housed(ls: Lists, home: map<Node, Node>) {
    && (forall h {:trigger AllHome(RingOf(ls, h), home, h)} :: h in ls ==> AllHome(RingOf(ls, h), home, h))
    && (forall n {:trigger home[n]} :: n in home ==> home[n] in ls && n in RingOf(ls, home[n]))
  }

  ghost predicate AllHome(c: seq<Node>, home: map<Node, Node>, h: Node) {
    forall n :: n in c ==> n in home && home[n] == h
  }

  ghost predicate Rings(next: Links, prev: Links, ls: Lists) {
    forall h {:trigger Ring(next, prev, RingOf(ls, h))} :: h in ls ==> Ring(next, prev, RingOf(ls, h))
  }

  /** Nodes on no list link to themselves. */
  ghost predicate Loose(next: Links, prev: Links, home: map<Node, Node>) {
    next.Keys == prev.Keys && forall n :: n in next && n !in home ==> next[n] == n && prev[n] == n
  }

  ghost predicate Represents(next: Links, prev: Links, ls: Lists, home: map<Node, Node>) {
    Rings(next, prev, ls) && Housed(ls, home) && Loose(next, prev, home)
  }

  /** The i-th node of the ring of h, and the one behind it. */
  lemma RingAt(next: Links, prev: Links, ls: Lists, home: map<Node, Node>, h: Node, i: nat)
    requires Rings(next, prev, ls) && Housed(ls, home) && h in ls && i <= |ls[h]|
    ensures var l := RingOf(ls, h)[i];
      && l in next && next[l] == Succ(RingOf(ls, h), i) && next[l] in prev && prev[next[l]] == l
      && l in home && home[l] == h && next[l] in home && home[next[l]] == h
  {
    var c := RingOf(ls, h);
    assert Ring(next, prev, c) && AllHome(c, home, h);
    assert Succ(c, i) in c && c[i] in c;
  }

  /** Rings that a change of links at nodes of list h, and at a node n on no other list, leaves alone. */
  lemma OtherRing(next: Links, prev: Links, next': Links, prev': Links, ls: Lists, home: map<Node, Node>, h: Node, k: Node)
    requires Rings(next, prev, ls) && Housed(ls, home) && k in ls && k != h
    requires forall x :: x in next && x in home && home[x] != h ==> x in next' && next'[x] == next[x]
    requires forall x :: x in prev && x in home && home[x] != h ==> x in prev' && prev'[x] == prev[x]
    ensures Ring(next', prev', RingOf(ls, k))
  {
    assert Ring(next, prev, RingOf(ls, k)) && AllHome(RingOf(ls, k), home, k);
    RingSame(next, prev, next', prev', RingOf(ls, k));
  }

  // ----- Inserting -----

  function InsertedList(q: seq<Node>, i: nat, n: Node): seq<Node>
    requires i <= |q|
  {
    q[..i] + [n] + q[i..]
  }

  lemma InsertHoused(ls: Lists, home: map<Node, Node>, h: Node, i: nat, n: Node)
    requires Housed(ls, home) && h in ls && i <= |ls[h]| && n !in home
    ensures Housed(ls[h := InsertedList(ls[h], i, n)], home[n := h])
  {
    var ls', home' := ls[h := InsertedList(ls[h], i, n)], home[n := h];
    assert ls[h] == ls[h][..i] + ls[h][i..];
    forall k | k in ls' ensures AllHome(RingOf(ls', k), home', k) {
      assert AllHome(RingOf(ls, k), home, k);
    }
    forall x | x in home' ensures home'[x] in ls' && x in RingOf(ls', home'[x]) {
      if x != n {
        assert x in RingOf(ls, home[x]);
      }
    }
  }

  /** The links after rt_list_insert_after(l, n). */
  function NextInserted(next: Links, l: Node, n: Node): Links
    requires l in next
  {
    next[n := next[l]][l := n]
  }

  function PrevInserted(next: Links, prev: Links, l: Node, n: Node): Links
    requires l in next
  {
    prev[next[l] := n][n := l]
  }

  lemma InsertOwnRing(next: Links, prev: Links, ls: Lists, h: Node, i: nat, n: Node)
    requires Rings(next, prev, ls) && h in ls && i <= |ls[h]| && n !in RingOf(ls, h)
    ensures var l := RingOf(ls, h)[i];
      l in next && Ring(NextInserted(next, l, n), PrevInserted(next, prev, l, n), [h] + InsertedList(ls[h], i, n))
  {
    var c := RingOf(ls, h);
    assert Ring(next, prev, c);
    RingInsert(next, prev, c, i, n);
    assert c[..i + 1] + [n] + c[i + 1..] == [h] + InsertedList(ls[h], i, n);
  }

  lemma InsertRings(next: Links, prev: Links, ls: Lists, home: map<Node, Node>, h: Node, i: nat, n: Node)
    requires Rings(next, prev, ls) && Housed(ls, home) && h in ls && i <= |ls[h]| && n !in home
    ensures var l := RingOf(ls, h)[i];
      && l in next
      && Rings(NextInserted(next, l, n), PrevInserted(next, prev, l, n), ls[h := InsertedList(ls[h], i, n)])
  {
    RingAt(next, prev, ls, home, h, i);
    var l, ls' := RingOf(ls, h)[i], ls[h := InsertedList(ls[h], i, n)];
    var next', prev' := NextInserted(next, l, n), PrevInserted(next, prev, l, n);
    forall k | k in ls' ensures Ring(next', prev', RingOf(ls', k)) {
      if k == h {
        assert AllHome(RingOf(ls, h), home, h);
        InsertOwnRing(next, prev, ls, h, i, n);
      } else {
        OtherRing(next, prev, next', prev', ls, home, h, k);
        assert RingOf(ls', k) == RingOf(ls, k);
      }
    }
  }

  /** Inserting n behind the i-th node of the ring of h. */
  lemma InsertRepresents(next: Links, prev: Links, ls: Lists, home: map<Node, Node>, h: Node, i: nat, n: Node)
    requires Represents(next, prev, ls, home) && h in ls && i <= |ls[h]| && n in next && n !in home
    ensures var l := RingOf(ls, h)[i];
      && l in next && l != n && next[l] != n && next[l] in prev && prev[next[l]] == l
      && Represents(NextInserted(next, l, n), PrevInserted(next, prev, l, n),
                    ls[h := InsertedList(ls[h], i, n)], home[n := h])
  {
    RingAt(next, prev, ls, home, h, i);
    var l := RingOf(ls, h)[i];
    assert Rings(NextInserted(next, l, n), PrevInserted(next, prev, l, n), ls[h := InsertedList(ls[h], i, n)]) by {
      InsertRings(next, prev, ls, home, h, i, n);
    }
    assert Housed(ls[h := InsertedList(ls[h], i, n)], home[n := h]) by {
      InsertHoused(ls, home, h, i, n);
    }
    InsertLoose(next, prev, home, l, n, h);
  }

  lemma InsertLoose(next: Links, prev: Links, home: map<Node, Node>, l: Node, n: Node, h: Node)
    requires Loose(next, prev, home) && l in next && l in home && next[l] in next && next[l] in home && n in next
    ensures Loose(NextInserted(next, l, n), PrevInserted(next, prev, l, n), home[n := h])
  {
  }

  // ----- Removing -----

  lemma RemoveHoused(ls: Lists, home: map<Node, Node>, h: Node, i: nat)
    requires Housed(ls, home) && h in ls && i < |ls[h]| && NoDup(RingOf(ls, h))
    ensures Housed(ls[h := ls[h][..i] + ls[h][i + 1..]], home - {ls[h][i]})
  {
    var q, c, n := ls[h], RingOf(ls, h), ls[h][i];
    var ls', home' := ls[h := q[..i] + q[i + 1..]], home - {n};
    assert q == q[..i] + [n] + q[i + 1..] && c[i + 1] == n;
    assert n in c && AllHome(c, home, h);
    forall j | 0 <= j < |c| && j != i + 1 ensures c[j] != n {
    }
    assert RingOf(ls', h) == c[..i + 1] + c[i + 2..];
    forall k | k in ls' ensures AllHome(RingOf(ls', k), home', k) {
      assert AllHome(RingOf(ls, k), home, k);
    }
    forall x | x in home' ensures home'[x] in ls' && x in RingOf(ls', home'[x]) {
      assert x in RingOf(ls, home[x]);
    }
  }

  /** The links after rt_list_remove(n). */
  function NextRemoved(next: Links, prev: Links, n: Node): Links
    requires n in next && n in prev
  {
    next[prev[n] := next[n]][n := n]
  }

  function PrevRemoved(next: Links, prev: Links, n: Node): Links
    requires n in next && n in prev
  {
    prev[next[n] := prev[n]][n := n]
  }

  lemma RemoveOwnRing(next: Links, prev: Links, ls: Lists, h: Node, i: nat)
    requires Rings(next, prev, ls) && h in ls && i < |ls[h]|
    ensures var n := ls[h][i];
      && n in next && n in prev && next[n] != n
      && Ring(NextRemoved(next, prev, n), PrevRemoved(next, prev, n), [h] + (ls[h][..i] + ls[h][i + 1..]))
  {
    var c := RingOf(ls, h);
    assert Ring(next, prev, c) && c[i + 1] == ls[h][i];
    RingRemove(next, prev, c, i + 1);
    assert c[..i + 1] + c[i + 2..] == [h] + (ls[h][..i] + ls[h][i + 1..]);
  }

  lemma RemoveRings(next: Links, prev: Links, ls: Lists, home: map<Node, Node>, h: Node, i: nat)
    requires Rings(next, prev, ls) && Housed(ls, home) && h in ls && i < |ls[h]|
    ensures var n := ls[h][i];
      && n in next && n in prev
      && Rings(NextRemoved(next, prev, n), PrevRemoved(next, prev, n), ls[h := ls[h][..i] + ls[h][i + 1..]])
  {
    var n, ls' := ls[h][i], ls[h := ls[h][..i] + ls[h][i + 1..]];
    RingAt(next, prev, ls, home, h, i);
    RingAt(next, prev, ls, home, h, i + 1);
    assert Succ(RingOf(ls, h), i) == n && RingOf(ls, h)[i + 1] == n;
    RemoveOwnRing(next, prev, ls, h, i);
    var next', prev' := NextRemoved(next, prev, n), PrevRemoved(next, prev, n);
    forall k | k in ls' ensures Ring(next', prev', RingOf(ls', k)) {
      if k != h {
        OtherRing(next, prev, next', prev', ls, home, h, k);
        assert RingOf(ls', k) == RingOf(ls, k);
      }
    }
  }

  /** Unlinking the i-th member of list h. */
  lemma RemoveRepresents(next: Links, prev: Links, ls: Lists, home: map<Node, Node>, h: Node, i: nat)
    requires Represents(next, prev, ls, home) && h in ls && i < |ls[h]|
    ensures var n := ls[h][i];
      && n in next && n in prev && next[n] != n && prev[n] in next
      && Represents(NextRemoved(next, prev, n), PrevRemoved(next, prev, n),
                    ls[h := ls[h][..i] + ls[h][i + 1..]], home - {n})
  {
    assert NoDup(RingOf(ls, h)) by {
      assert Ring(next, prev, RingOf(ls, h));
    }
    var n := ls[h][i];
    RingAt(next, prev, ls, home, h, i);
    RingAt(next, prev, ls, home, h, i + 1);
    assert RingOf(ls, h)[i + 1] == n && Succ(RingOf(ls, h), i) == n;
    assert next[n] != n by {
      RemoveOwnRing(next, prev, ls, h, i);
    }
    assert Rings(NextRemoved(next, prev, n), PrevRemoved(next, prev, n), ls[h := ls[h][..i] + ls[h][i + 1..]]) by {
      RemoveRings(next, prev, ls, home, h, i);
    }
    assert Housed(ls[h := ls[h][..i] + ls[h][i + 1..]], home - {n}) by {
      RemoveHoused(ls, home, h, i);
    }
    RemoveLoose(next, prev, home, n);
  }

  lemma RemoveLoose(next: Links, prev: Links, home: map<Node, Node>, n: Node)
    requires Loose(next, prev, home) && n in next && next[n] in next && prev[n] in next
    requires next[n] in home && prev[n] in home
    ensures Loose(NextRemoved(next, prev, n), PrevRemoved(next, prev, n), home - {n})
  {
  }

  /** Every list without n. */
  ghost function Unlinked(ls: Lists, n: Node): Lists {
    map h | h in ls :: Without(ls[h], n)
  }

  lemma MembersNoDup(h: Node, q: seq<Node>)
    requires NoDup([h] + q)
    ensures NoDup(q)
  {
    forall i, j | 0 <= i < j < |q| ensures q[i] != q[j] {
      assert q[i] == ([h] + q)[i + 1] && q[j] == ([h] + q)[j + 1];
    }
  }

  lemma UnlinkedAt(ls: Lists, home: map<Node, Node>, h: Node, i: nat)
    requires Housed(ls, home) && h in ls && i < |ls[h]| && NoDup(RingOf(ls, h))
    ensures Unlinked(ls, ls[h][i]) == ls[h := ls[h][..i] + ls[h][i + 1..]]
  {
    var n := ls[h][i];
    MembersNoDup(h, ls[h]);
    WithoutAt(ls[h], i);
    assert n in RingOf(ls, h) && AllHome(RingOf(ls, h), home, h);
    forall k | k in ls && k != h ensures Without(ls[k], n) == ls[k] {
      assert AllHome(RingOf(ls, k), home, k);
      assert n !in RingOf(ls, k);
      WithoutAbsent(ls[k], n);
    }
  }

  lemma UnlinkedNone(ls: Lists, home: map<Node, Node>, n: Node)
    requires Housed(ls, home) && n !in home
    ensures Unlinked(ls, n) == ls
  {
    forall k | k in ls ensures Without(ls[k], n) == ls[k] {
      assert AllHome(RingOf(ls, k), home, k);
      assert n !in RingOf(ls, k);
      WithoutAbsent(ls[k], n);
    }
  }

  /** Where a linked node is. */
  lemma PlaceOf(ls: Lists, home: map<Node, Node>, n: Node) returns (i: nat)
    requires Housed(ls, home) && n in home && n !in ls
    ensures home[n] in ls && i < |ls[home[n]]| && ls[home[n]][i] == n
  {
    var c := RingOf(ls, home[n]);
    var j :| 0 <= j < |c| && c[j] == n;
    i := j - 1;
  }

  lemma RemoveHere(next: Links, prev: Links, ls: Lists, home: map<Node, Node>, n: Node)
    requires Represents(next, prev, ls, home) && n in home && n !in ls
    ensures n in next && n in prev && next[n] != n && prev[n] in next
    ensures Represents(NextRemoved(next, prev, n), PrevRemoved(next, prev, n), Unlinked(ls, n), home - {n})
  {
    var i := PlaceOf(ls, home, n);
    var h := home[n];
    RemoveRepresents(next, prev, ls, home, h, i);
    assert Unlinked(ls, n) == ls[h := ls[h][..i] + ls[h][i + 1..]] by {
      assert Ring(next, prev, RingOf(ls, h));
      UnlinkedAt(ls, home, h, i);
    }
  }

  lemma RemoveNowhere(next: Links, prev: Links, ls: Lists, home: map<Node, Node>, n: Node)
    requires Housed(ls, home) && Loose(next, prev, home) && n in next && n !in home
    ensures n in prev && next[n] == n && prev[n] == n && NextRemoved(next, prev, n) == next && PrevRemoved(next, prev, n) == prev
    ensures Unlinked(ls, n) == ls && home - {n} == home
  {
    UnlinkedNone(ls, home, n);
  }

  /** rt_list_remove, which is not told the list. */
  lemma RemoveAnywhere(next: Links, prev: Links, ls: Lists, home: map<Node, Node>, n: Node)
    requires Represents(next, prev, ls, home) && n in next && n !in ls
    ensures n in prev && (next[n] == n ==> prev[n] == n) && prev[n] in next
    ensures Represents(NextRemoved(next, prev, n), PrevRemoved(next, prev, n), Unlinked(ls, n), home - {n})
  {
    if n in home {
      RemoveHere(next, prev, ls, home, n);
    } else {
      RemoveNowhere(next, prev, ls, home, n);
    }
  }

  // ----- New nodes -----

  lemma AddNode(next: Links, prev: Links, ls: Lists, home: map<Node, Node>, n: Node)
    requires Represents(next, prev, ls, home) && n !in next
    ensures Represents(next[n := n], prev[n := n], ls, home) && n !in home
  {
    forall h | h in ls ensures Ring(next[n := n], prev[n := n], RingOf(ls, h)) {
      assert Ring(next, prev, RingOf(ls, h));
      RingSame(next, prev, next[n := n], prev[n := n], RingOf(ls, h));
    }
    forall x | x in home ensures x in next {
      HomeLinked(next, prev, ls, home, x);
    }
  }

  lemma HomeLinked(next: Links, prev: Links, ls: Lists, home: map<Node, Node>, x: Node)
    requires Rings(next, prev, ls) && Housed(ls, home) && x in home
    ensures x in next
  {
    var c := RingOf(ls, home[x]);
    var i :| 0 <= i < |c| && c[i] == x;
    assert Ring(next, prev, c);
  }

  lemma AddHead(next: Links, prev: Links, ls: Lists, home: map<Node, Node>, l: Node)
    requires Represents(next, prev, ls, home) && l !in next
    ensures Represents(next[l := l], prev[l := l], ls[l := []], home[l := l])
  {
    AddNode(next, prev, ls, home, l);
    HeadsHome(ls, home);
    AddHeadRings(next[l := l], prev[l := l], ls, l);
    AddHeadHoused(ls, home, l);
  }

  lemma HeadsHome(ls: Lists, home: map<Node, Node>)
    requires Housed(ls, home)
    ensures ls.Keys <= home.Keys
  {
    forall h | h in ls ensures h in home {
      assert h in RingOf(ls, h) && AllHome(RingOf(ls, h), home, h);
    }
  }

  lemma AddHeadRings(next: Links, prev: Links, ls: Lists, l: Node)
    requires Rings(next, prev, ls) && l in next && l in prev && next[l] == l && prev[l] == l
    ensures Rings(next, prev, ls[l := []])
  {
    var ls' := ls[l := []];
    forall h | h in ls' ensures Ring(next, prev, RingOf(ls', h)) {
      if h == l {
        assert RingOf(ls', l) == [l];
      } else {
        assert Ring(next, prev, RingOf(ls, h)) && RingOf(ls', h) == RingOf(ls, h);
      }
    }
  }

  lemma AddHeadHoused(ls: Lists, home: map<Node, Node>, l: Node)
    requires Housed(ls, home) && l !in home && l !in ls
    ensures Housed(ls[l := []], home[l := l])
  {
    var ls', home' := ls[l := []], home[l := l];
    assert RingOf(ls', l) == [l];
    forall h | h in ls' ensures AllHome(RingOf(ls', h), home', h) {
      if h != l {
        assert AllHome(RingOf(ls, h), home, h) && RingOf(ls', h) == RingOf(ls, h);
      }
    }
    forall x | x in home' ensures home'[x] in ls' && x in RingOf(ls', home'[x]) {
      if x != l {
        assert x in RingOf(ls, home[x]);
      }
    }
  }

  // ----- rtservice.h -----

  class ListMemory {
    var next: Links
    var prev: Links
    ghost var lists: Lists
    ghost var home: map<Node, Node>

    ghost predicate Valid()
      reads this
    {
      Represents(next, prev, lists, home)
    }

    constructor ()
      ensures Valid() && lists == map[] && home == map[] && next == map[]
    {
      next, prev, lists, home := map[], map[], map[], map[];
    }

    /** rt_list_init(l), for a list head. */
    method InitHead(l: Node)
      requires Valid() && l !in next
      modifies this
      ensures Valid() && lists == old(lists)[l := []] && next.Keys == old(next.Keys) + {l}
    {
      AddHead(next, prev, lists, home, l);
      next, prev, lists, home := next[l := l], prev[l := l], lists[l := []], home[l := l];
    }

    /** rt_list_init(n), for a node that will go on lists: new, or on none. */
    method InitNode(n: Node)
      requires Valid() && n !in home
      modifies this`next, this`prev
      ensures Valid() && next.Keys == old(next.Keys) + {n}
    {
      if n in next {
        assert next[n := n] == next && prev[n := n] == prev;
      } else {
        AddNode(next, prev, lists, home, n);
      }
      next, prev := next[n := n], prev[n := n];
    }

    /** The pointer updates of rt_list_insert_after. */
    method LinkAfter(l: Node, n: Node)
      requires l in next && n != l
      modifies this`next, this`prev
      ensures next == NextInserted(old(next), l, n) && prev == PrevInserted(old(next), old(prev), l, n)
    {
      prev := prev[next[l] := n];
      next := next[n := next[l]];
      next := next[l := n];
      prev := prev[n := l];
    }

    /** The pointer updates of rt_list_insert_before. */
    method LinkBefore(r: Node, n: Node, ghost l: Node)
      requires l in next && next[l] == r && r in prev && prev[r] == l && n != l && n != r
      modifies this`next, this`prev
      ensures next == NextInserted(old(next), l, n) && prev == PrevInserted(old(next), old(prev), l, n)
    {
      InsertLinks(next, prev, l, r, n);
      next := next[prev[r] := n];
      prev := prev[n := prev[r]];
      prev := prev[r := n];
      next := next[n := r];
    }

    /** The pointer updates of rt_list_remove. */
    method Unlink(n: Node)
      requires n in next && n in prev && (next[n] == n ==> prev[n] == n)
      modifies this`next, this`prev
      ensures next == NextRemoved(old(next), old(prev), n) && prev == PrevRemoved(old(next), old(prev), n)
    {
      prev := prev[next[n] := prev[n]];
      next := next[prev[n] := next[n]];
      next := next[n := n];
      prev := prev[n := n];
    }

    /** rt_list_insert_after(l, n): l is the i-th node of the ring of list h, n is on no list. */
    method InsertAfter(l: Node, n: Node, ghost h: Node, ghost i: nat)
      requires Valid() && h in lists && i <= |lists[h]| && l == RingOf(lists, h)[i] && n in next && n !in home
      modifies this
      ensures Valid() && lists == old(lists)[h := InsertedList(old(lists)[h], i, n)] && home == old(home)[n := h]
      ensures next.Keys == old(next.Keys)
    {
      RingAt(next, prev, lists, home, h, i);
      InsertRepresents(next, prev, lists, home, h, i, n);
      LinkAfter(l, n);
      lists, home := lists[h := InsertedList(lists[h], i, n)], home[n := h];
    }

    /** rt_list_insert_before(r, n): r follows the i-th node of the ring of list h. */
    method InsertBefore(r: Node, n: Node, ghost h: Node, ghost i: nat)
      requires Valid() && h in lists && i <= |lists[h]| && r == Succ(RingOf(lists, h), i) && n in next && n !in home
      modifies this
      ensures Valid() && lists == old(lists)[h := InsertedList(old(lists)[h], i, n)] && home == old(home)[n := h]
      ensures next.Keys == old(next.Keys)
    {
      ghost var l := RingOf(lists, h)[i];
      InsertRepresents(next, prev, lists, home, h, i, n);
      RingAt(next, prev, lists, home, h, i);
      LinkBefore(r, n, l);
      lists, home := lists[h := InsertedList(lists[h], i, n)], home[n := h];
    }

    /** rt_list_remove(n): off whatever list n is on; nothing happens to a node on none. */
    method Remove(n: Node)
      requires Valid() && n in next && n !in lists
      modifies this
      ensures Valid() && lists == Unlinked(old(lists), n) && home == old(home) - {n}
      ensures next.Keys == old(next.Keys)
    {
      RemoveAnywhere(next, prev, lists, home, n);
      Unlink(n);
      lists, home := Unlinked(lists, n), home - {n};
    }

    /** Follow next from the i-th node of the ring of list h; back at the head only behind the last member. */
    method Follow(n: Node, h: Node, ghost i: nat) returns (r: Node)
      requires Valid() && h in lists && i <= |lists[h]| && n == RingOf(lists, h)[i]
      ensures r == Succ(RingOf(lists, h), i) && (r == h <==> i == |lists[h]|)
    {
      ghost var c := RingOf(lists, h);
      assert Ring(next, prev, c) && c[0] == h;
      assert next[c[i]] == Succ(c, i);
      r := next[n];
    }

    /** node.next != node.prev: the node shares its list. */
    method Shares(n: Node, ghost h: Node) returns (r: bool)
      requires Valid() && h in lists && n in lists[h]
      ensures r <==> |lists[h]| > 1
    {
      ghost var c := RingOf(lists, h);
      ghost var j :| 0 <= j < |lists[h]| && lists[h][j] == n;
      assert Ring(next, prev, c) && c[j + 1] == n;
      assert Succ(c, j) == n && next[c[j + 1]] == Succ(c, j + 1) && prev[Succ(c, j)] == c[j];
      r := next[n] != prev[n];
    }

    /** rt_list_isempty */
    method IsEmpty(h: Node) returns (r: bool)
      requires Valid() && h in lists
      ensures r <==> lists[h] == []
    {
      ghost var c := RingOf(lists, h);
      assert Ring(next, prev, c);
      assert c[0] == h && next[c[0]] == Succ(c, 0);
      r := next[h] == h;
    }

    /** rt_list_len */
    method Len(h: Node) returns (len: nat)
      requires Valid() && h in lists
      ensures len == |lists[h]|
    {
      ghost var c := RingOf(lists, h);
      assert Ring(next, prev, c) && c[0] == h;
      var p := h;
      len := 0;
      while next[p] != h
        invariant len < |c| && p == c[len]
        decreases |c| - len
      {
        assert next[p] == Succ(c, len);
        p := next[p];
        len := len + 1;
      }
      assert next[p] == Succ(c, len);
    }
  }

  /** Inserting before r is inserting after what r follows. */
  lemma InsertLinks(next: Links, prev: Links, l: Node, r: Node, n: Node)
    requires l in next && next[l] == r && r in prev && prev[r] == l && n != l && n != r
    ensures next[l := n][n := r] == NextInserted(next, l, n)
    ensures prev[n := l][r := n] == PrevInserted(next, prev, l, n)
  {
  }
}
