/**
  What mailboxes, message queues and block pools of rt-thread/kernel/src share: a queue of threads
  waiting for a unit of something, and singly linked chains of nodes.

  A thread that has been resumed runs again later, and finds the unit or finds it stolen; until
  then it is in the set woken.
 */
module WaitQueues {
  import opened Wrappers
  import opened Queues

  // ----- Waiting for units -----

  /**
    No lost wake-up: while somebody waits, each available unit has a resumed thread on its way to it.
   */
  ghost predicate Served(q: seq<Tid>, woken: set<Tid>, units: nat) {
    && NoDup(q) && (forall t :: t in q ==> t !in woken)
    && (q != [] ==> units <= |woken|)
  }

  /** Thread t runs in a locked section: resumed or not, it is no longer on its way. */
  lemma ServedRuns(q: seq<Tid>, woken: set<Tid>, units: nat, t: Tid)
    requires Served(q, woken, units) && t !in q
    ensures Served(q, woken - {t}, if units > 0 then units - 1 else 0)
  {
    assert t in woken ==> |woken - {t}| == |woken| - 1;
    assert t !in woken ==> woken - {t} == woken;
  }

  /** A unit is added, and the first waiter, if any, is resumed. */
  lemma ServedGive(q: seq<Tid>, woken: set<Tid>, units: nat)
    requires Served(q, woken, units)
    ensures q == [] ==> Served(q, woken, units + 1)
    ensures q != [] ==> Served(q[1..], woken + {q[0]}, units + 1)
  {
    if q != [] {
      assert forall t :: t in q[1..] ==> t in q && t != q[0];
      assert NoDup(q[1..]);
    }
  }

  /** With no unit available a thread may join anywhere in the queue. */
  lemma ServedJoin(q: seq<Tid>, woken: set<Tid>, t: Tid, k: nat)
    requires Served(q, woken, 0) && t !in q && t !in woken && k <= |q|
    ensures Served(q[..k] + [t] + q[k..], woken, 0)
  {
    assert q == q[..k] + q[k..];
  }

  /** A waiter gives up. */
  lemma ServedLeave(q: seq<Tid>, woken: set<Tid>, units: nat, t: Tid)
    requires Served(q, woken, units)
    ensures Served(Without(q, t), woken, units) && t !in Without(q, t)
  {
    WithoutNoDup(q, t);
    forall x ensures x in Without(q, t) <==> x in q && x != t {
      WithoutIn(q, t, x);
    }
  }

  /** A list of suspended threads. */
  class WaitList {
    var queue: seq<Tid>
    ghost var woken: set<Tid>

    ghost predicate Serves(units: nat)
      reads this
    {
      Served(queue, woken, units)
    }

    constructor ()
      ensures queue == [] && woken == {}
    {
      queue, woken := [], {};
    }

    /** Thread t is in a locked section, to take a unit if there is one. */
    ghost method Runs(t: Tid, units: nat)
      requires Serves(units) && t !in queue
      modifies this`woken
      ensures woken == old(woken) - {t} && Serves(if units > 0 then units - 1 else 0)
    {
      ServedRuns(queue, woken, units, t);
      woken := woken - {t};
    }

    /** rt_ipc_list_suspend, at the place its flag calls for. */
    method Join(t: Tid, place: nat)
      requires Serves(0) && t !in queue && t !in woken && place <= |queue|
      modifies this`queue
      ensures Serves(0) && queue == old(queue)[..place] + [t] + old(queue)[place..]
    {
      ServedJoin(queue, woken, t, place);
      queue := queue[..place] + [t] + queue[place..];
    }

    /** rt_ipc_list_resume, if anybody waits, for one more unit. */
    method Wake(ghost units: nat)
      requires Serves(units)
      modifies this
      ensures Serves(units + 1) && queue == if old(queue) == [] then [] else old(queue)[1..]
    {
      ServedGive(queue, woken, units);
      if queue != [] {
        woken := woken + {queue[0]};
        queue := queue[1..];
      }
    }

    /** The thread timer of t expires. */
    method Leave(t: Tid, ghost units: nat)
      requires Serves(units)
      modifies this`queue
      ensures Serves(units) && queue == Without(old(queue), t)
    {
      ServedLeave(queue, woken, units, t);
      queue := Without(queue, t);
    }

    /** rt_ipc_list_resume_all: everybody leaves with an error. */
    method Clear(ghost units: nat)
      modifies this`queue
      ensures queue == [] && Serves(units)
    {
      queue := [];
    }
  }

  // ----- Chains -----

  type Node = nat
  type Next = map<Node, Option<Node>>

  /** Following next from first visits exactly s. */
  ghost predicate Chain(next: Next, first: Option<Node>, s: seq<Node>) {
    && first == (if s == [] then None else Some(s[0]))
    && forall i :: 0 <= i < |s| ==> s[i] in next && next[s[i]] == After(s, i)
  }

  function After(s: seq<Node>, i: nat): Option<Node>
    requires i < |s|
  {
    if i + 1 < |s| then Some(s[i + 1]) else None
  }

  lemma ChainTail(next: Next, first: Option<Node>, s: seq<Node>)
    requires Chain(next, first, s) && s != []
    ensures s[0] in next && Chain(next, next[s[0]], s[1..])
  {
    assert next[s[0]] == After(s, 0);
    forall i | 0 <= i < |s[1..]| ensures s[1..][i] in next && next[s[1..][i]] == After(s[1..], i) {
      assert s[1..][i] == s[i + 1] && After(s[1..], i) == After(s, i + 1);
    }
  }

  /** Writes to nodes off the chain do not matter. */
  lemma ChainElsewhere(next: Next, first: Option<Node>, s: seq<Node>, n: Node, to: Option<Node>)
    requires Chain(next, first, s) && n !in s
    ensures Chain(next[n := to], first, s)
  {
  }

  lemma ChainPush(next: Next, first: Option<Node>, s: seq<Node>, n: Node)
    requires Chain(next, first, s) && n !in s
    ensures Chain(next[n := first], Some(n), [n] + s)
  {
    var t, next' := [n] + s, next[n := first];
    forall i | 0 <= i < |t| ensures t[i] in next' && next'[t[i]] == After(t, i) {
      if i > 0 {
        assert t[i] == s[i - 1] && s[i - 1] in s && After(t, i) == After(s, i - 1);
      }
    }
  }

  /** Linking n behind the last node. */
  lemma ChainAppend(next: Next, first: Option<Node>, s: seq<Node>, n: Node)
    requires Chain(next, first, s) && n !in s && NoDup(s) && n in next && next[n] == None
    ensures s == [] ==> Chain(next, Some(n), [n])
    ensures s != [] ==> Chain(next[s[|s| - 1] := Some(n)], first, s + [n])
  {
    if s != [] {
      var t, next' := s + [n], next[s[|s| - 1] := Some(n)];
      forall i | 0 <= i < |t| ensures t[i] in next' && next'[t[i]] == After(t, i) {
        if i < |s| - 1 {
          assert t[i] == s[i] && After(t, i) == After(s, i);
        }
      }
    }
  }
}
