/** Kernel lists, rt-thread/kernel/include/rtservice.h, as the sequences of the nodes linked into them. */
module Queues {
  /** A thread, named by the address of its list node. */
  type Tid = nat

  /** What rt_list_remove leaves of a list. */
  function Without(q: seq<nat>, t: nat): seq<nat> {
    if q == [] then []
    else if q[0] == t then Without(q[1..], t)
    else [q[0]] + Without(q[1..], t)
  }

  ghost predicate NoDup(q: seq<nat>) {
    forall i, j :: 0 <= i < j < |q| ==> q[i] != q[j]
  }

  lemma {:induction false} WithoutIn(q: seq<nat>, t: nat, x: nat)
    ensures x in Without(q, t) <==> x in q && x != t
  {
    if q != [] {
      WithoutIn(q[1..], t, x);
      assert q == [q[0]] + q[1..];
    }
  }

  lemma {:induction false} WithoutNoDup(q: seq<nat>, t: nat)
    requires NoDup(q)
    ensures NoDup(Without(q, t))
  {
    if q != [] {
      var w := Without(q[1..], t);
      WithoutNoDup(q[1..], t);
      if q[0] != t {
        forall i, j | 0 <= i < j < |[q[0]] + w| ensures ([q[0]] + w)[i] != ([q[0]] + w)[j] {
          if i == 0 {
            WithoutIn(q[1..], t, w[j - 1]);
          }
        }
      }
    }
  }

  lemma {:induction false} WithoutAbsent(q: seq<nat>, t: nat)
    requires t !in q
    ensures Without(q, t) == q
  {
    if q != [] {
      WithoutAbsent(q[1..], t);
    }
  }

  /** Exactly that one leaves the line. */
  lemma {:induction false} WithoutAt(q: seq<nat>, i: nat)
    requires NoDup(q) && i < |q|
    ensures Without(q, q[i]) == q[..i] + q[i + 1..]
  {
    if i == 0 {
      WithoutAbsent(q[1..], q[0]);
    } else {
      WithoutAt(q[1..], i - 1);
      assert q[1..][..i - 1] == q[1..i] && q[1..][i..] == q[i + 1..];
    }
  }

  lemma {:induction false} WithoutAppend(a: seq<nat>, b: seq<nat>, t: nat)
    ensures Without(a + b, t) == Without(a, t) + Without(b, t)
    decreases |a|
  {
    if a == [] {
      assert a + b == b;
    } else {
      assert (a + b)[0] == a[0] && (a + b)[1..] == a[1..] + b;
      WithoutAppend(a[1..], b, t);
    }
  }

  ghost function Elements(q: seq<nat>): (r: set<nat>)
    ensures forall n :: n in r <==> n in q
    ensures NoDup(q) ==> |r| == |q|
  {
    if q == [] then {} else
      assert NoDup(q) ==> NoDup(q[1..]) && q[0] !in q[1..];
      {q[0]} + Elements(q[1..])
  }

  lemma {:induction false} SubsetSize(a: set<nat>, b: set<nat>)
    requires a <= b
    ensures |a| <= |b|
  {
    if a != {} {
      var x :| x in a;
      SubsetSize(a - {x}, b - {x});
    }
  }
}
