/**
  The thread lists of the kernel as they are in memory: every list head and every thread's tlist is a
  node of an RtList.ListMemory, threads being named by the addresses of their nodes.  What the
  pointers do is shown to be what Scheduler does on sequences.
 */
module ThreadLists {
  import opened Queues
  import opened Scheduler
  import opened Ipc
  import R = RtList

  type Heads = map<ListId, R.Node>
  type Names = map<R.Node, ListId>

  /** Every ring is one of the named lists, and the other way round. */
  ghost predicate Named(ls: R.Lists, heads: Heads, names: Names) {
    && (forall l {:trigger heads[l]} :: l in heads ==> heads[l] in ls && heads[l] in names && names[heads[l]] == l)
    && (forall h :: h in ls ==> h in names && names[h] in heads && heads[names[h]] == h)
  }

  /** The lists as sequences of threads. */
  ghost function Abs(ls: R.Lists, heads: Heads): Lists
    requires forall l :: l in heads ==> heads[l] in ls
  {
    map l | l in heads :: ls[heads[l]]
  }

  lemma AbsUnlinked(ls: R.Lists, heads: Heads, names: Names, t: Tid)
    requires Named(ls, heads, names)
    ensures Named(R.Unlinked(ls, t), heads, names) && Abs(R.Unlinked(ls, t), heads) == Unlink(Abs(ls, heads), t)
  {
  }

  lemma AbsInserted(ls: R.Lists, heads: Heads, names: Names, l: ListId, k: nat, t: Tid)
    requires Named(ls, heads, names) && l in heads && k <= |ls[heads[l]]|
    ensures var ls' := ls[heads[l] := R.InsertedList(ls[heads[l]], k, t)];
      Named(ls', heads, names) && Abs(ls', heads) == Link(Abs(ls, heads), l, k, t)
  {
  }

  lemma AbsNewList(ls: R.Lists, heads: Heads, names: Names, l: ListId, h: R.Node)
    requires Named(ls, heads, names) && l !in heads && h !in ls
    ensures Named(ls[h := []], heads[l := h], names[h := l])
    ensures Abs(ls[h := []], heads[l := h]) == Abs(ls, heads)[l := []]
  {
  }

  /** A thread on no list is on no ring. */
  lemma NotHome(ls: R.Lists, home: map<R.Node, R.Node>, heads: Heads, names: Names, t: Tid)
    requires R.Housed(ls, home) && Named(ls, heads, names) && t !in ls && OnNone(Abs(ls, heads), t)
    ensures t !in home
  {
    forall x | x in home && x !in ls ensures On(Abs(ls, heads), names[home[x]], x) {
      assert x in R.RingOf(ls, home[x]);
    }
  }

  class ListTable {
    const mem: R.ListMemory
    var heads: Heads
    ghost var names: Names

    ghost predicate Valid()
      reads this, mem
    {
      mem.Valid() && Named(mem.lists, heads, names)
    }

    ghost function Lists(): Lists
      requires Valid()
      reads this, mem
    {
      Abs(mem.lists, heads)
    }

    /** The thread nodes, linked or not. */
    ghost function Nodes(): set<Tid>
      reads mem
    {
      mem.next.Keys - mem.lists.Keys
    }

    constructor ()
      ensures Valid() && fresh(mem) && Lists() == map[] && mem.next == map[]
    {
      mem := new R.ListMemory();
      heads, names := map[], map[];
    }

    /** rt_list_init(&thread->tlist), of a thread on no list, at an address that is not a list head's. */
    method NewThread(t: Tid)
      requires Valid() && t !in mem.lists && OnNone(Lists(), t)
      modifies mem
      ensures Valid() && Lists() == old(Lists()) && Nodes() == old(Nodes()) + {t}
    {
      NotHome(mem.lists, mem.home, heads, names, t);
      mem.InitNode(t);
    }

    /** rt_list_init of a list head. */
    method NewList(l: ListId, h: R.Node)
      requires Valid() && h !in mem.next && l !in heads
      modifies this, mem
      ensures Valid() && Lists() == old(Lists())[l := []] && Nodes() == old(Nodes())
      ensures mem.next.Keys == old(mem.next.Keys) + {h}
    {
      UnknownNode(mem.next, mem.prev, mem.lists, mem.home, h);
      AbsNewList(mem.lists, heads, names, l, h);
      mem.InitHead(h);
      heads, names := heads[l := h], names[h := l];
    }

    /** rt_list_insert_before(r, tlist), where r follows the k-th node of the ring of list l. */
    method InsertBefore(l: ListId, r: R.Node, t: Tid, ghost k: nat)
      requires Valid() && l in heads && t in Nodes() && OnNone(Lists(), t)
      requires k <= |mem.lists[heads[l]]| && r == R.Succ(R.RingOf(mem.lists, heads[l]), k)
      modifies mem
      ensures Valid() && l in old(Lists()) && Lists() == Link(old(Lists()), l, k, t) && Nodes() == old(Nodes())
    {
      NotHome(mem.lists, mem.home, heads, names, t);
      AbsInserted(mem.lists, heads, names, l, k, t);
      mem.InsertBefore(r, t, heads[l], k);
    }

    /** rt_list_insert_before(head, tlist) */
    method Append(l: ListId, t: Tid)
      requires Valid() && l in heads && t in Nodes() && OnNone(Lists(), t)
      modifies mem
      ensures Valid() && l in old(Lists()) && Lists() == Link(old(Lists()), l, |old(Lists())[l]|, t)
      ensures Nodes() == old(Nodes())
    {
      InsertBefore(l, heads[l], t, |mem.lists[heads[l]]|);
    }

    /** rt_list_insert_after(head, tlist) */
    method Prepend(l: ListId, t: Tid)
      requires Valid() && l in heads && t in Nodes() && OnNone(Lists(), t)
      modifies mem
      ensures Valid() && l in old(Lists()) && Lists() == Link(old(Lists()), l, 0, t)
      ensures Nodes() == old(Nodes())
    {
      NotHome(mem.lists, mem.home, heads, names, t);
      AbsInserted(mem.lists, heads, names, l, 0, t);
      mem.InsertAfter(heads[l], t, heads[l], 0);
    }

    /** rt_list_remove(&thread->tlist): off whatever list it is on. */
    method Unlink(t: Tid)
      requires Valid() && t in Nodes()
      modifies mem
      ensures Valid() && Lists() == Scheduler.Unlink(old(Lists()), t)
      ensures Nodes() == old(Nodes())
    {
      AbsUnlinked(mem.lists, heads, names, t);
      mem.Remove(t);
    }

    /** rt_list_isempty */
    method IsEmpty(l: ListId) returns (r: bool)
      requires Valid() && l in heads
      ensures l in Lists() && (r <==> Lists()[l] == [])
    {
      r := mem.IsEmpty(heads[l]);
    }

    /** tlist.next != tlist.prev: t is not alone on its list. */
    method Shares(t: Tid, ghost l: ListId) returns (r: bool)
      requires Valid() && l in heads && t in Lists()[l]
      ensures r <==> |Lists()[l]| > 1
    {
      r := mem.Shares(t, heads[l]);
    }

    /** The first thread on a list. */
    method First(l: ListId) returns (t: Tid)
      requires Valid() && l in heads && Lists()[l] != []
      ensures t == Lists()[l][0]
    {
      t := mem.Follow(heads[l], heads[l], 0);
    }

    /** The loop of rt_ipc_list_suspend: before the first thread that is less urgent, else last. */
    method JoinByPriority(l: ListId, t: Tid, threads: map<Tid, Thread>)
      requires Valid() && l in heads && t in Nodes() && t in threads && OnNone(Lists(), t)
      requires forall x :: x in Lists()[l] ==> x in threads
      modifies mem
      ensures Valid() && l in old(Lists())
      ensures Lists() == Link(old(Lists()), l, Position(threads, old(Lists())[l], threads[t].cur, 0), t)
      ensures Nodes() == old(Nodes())
    {
      ghost var i: nat;
      var n;
      n, i := FindPlace(l, t, threads);
      InsertBefore(l, n, t, i);
    }

    /** The walk to the first thread that is less urgent than t, or back to the head. */
    method FindPlace(l: ListId, t: Tid, threads: map<Tid, Thread>) returns (n: R.Node, ghost i: nat)
      requires Valid() && l in heads && t in threads && forall x :: x in Lists()[l] ==> x in threads
      ensures i == Position(threads, Lists()[l], threads[t].cur, 0)
      ensures n == R.Succ(R.RingOf(mem.lists, heads[l]), i)
    {
      var h := heads[l];
      ghost var q := Lists()[l];
      i := 0;
      n := mem.Follow(h, h, 0);
      while n != h && threads[n].cur <= threads[t].cur
        invariant 0 <= i <= |q| && n == R.Succ(R.RingOf(mem.lists, h), i) && (n == h <==> i == |q|)
        invariant Position(threads, q, threads[t].cur, i) == Position(threads, q, threads[t].cur, 0)
        decreases |q| - i
      {
        n := mem.Follow(n, h, i + 1);
        i := i + 1;
      }
    }
  }

  lemma UnknownNode(next: R.Links, prev: R.Links, ls: R.Lists, home: map<R.Node, R.Node>, n: R.Node)
    requires R.Represents(next, prev, ls, home) && n !in next
    ensures n !in ls
  {
    R.AddNode(next, prev, ls, home, n);
    R.HeadsHome(ls, home);
  }
}
