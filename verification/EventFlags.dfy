/**
  Event objects: rt-thread/kernel/src/ipc.c.  Waiters ask for all (AND) or any (OR) of some bits; a caller
  that sets neither flag, which only a compiled-out assertion objects to, waits too.
 */
module EventFlags {
  import opened Queues

  /** A 32-bit word, as the set of its one bits; WordOps and SameBits say how |, &, & ~ and == read on sets. */
  type Bits = set<bv5>

  datatype Outcome = OK | ERROR | EINVAL | TIMEDOUT | BLOCKED

  /** The flags of an option that matter for waiting: AND wins over OR. */
  datatype Mode = AND | OR | NEITHER

  /** event_set and event_info of a thread; clear: flag CLEAR. */
  datatype Waiter = Waiter(t: Tid, want: Bits, mode: Mode, clear: bool)

  datatype Grant = Grant(t: Tid, got: Bits)

  // ----- Bits -----

  predicate Satisfied(flags: Bits, w: Waiter) {
    match w.mode
    case AND => w.want * flags == w.want
    case OR => w.want * flags != {}
    case NEITHER => false
  }

  /** AND asks for every bit, OR for some bit. */
  lemma SatisfiedBits(flags: Bits, w: Waiter)
    ensures w.mode == AND ==> (Satisfied(flags, w) <==> forall i :: i in w.want ==> i in flags)
    ensures w.mode == OR ==> (Satisfied(flags, w) <==> exists i :: i in w.want && i in flags)
    ensures w.mode == NEITHER ==> !Satisfied(flags, w)
  {
    CommonAll(w.want, flags);
    CommonSome(w.want, flags);
  }

  lemma CommonAll(s: Bits, t: Bits)
    ensures s * t == s <==> forall i :: i in s ==> i in t
  {
    if s * t == s {
      forall i | i in s ensures i in t {
        assert i in s * t;
      }
    }
    if forall i :: i in s ==> i in t {
      forall i ensures i in s * t <==> i in s {
      }
    }
  }

  lemma Member<T>(s: set<T>) returns (x: T)
    requires s != {}
    ensures x in s
  {
    x :| x in s;
  }

  lemma CommonSome(s: Bits, t: Bits)
    ensures s * t != {} <==> exists i :: i in s && i in t
  {
    var c := s * t;
    if c != {} {
      var i := Member(c);
      assert i in s && i in t;
    }
    if exists i :: i in s && i in t {
      var i :| i in s && i in t;
      assert i in c;
    }
  }

  /** Fewer bits satisfy fewer waiters. */
  lemma SatisfiedMonotone(a: Bits, b: Bits, w: Waiter)
    requires a <= b && Satisfied(a, w)
    ensures Satisfied(b, w)
  {
    if w.mode == AND {
      assert w.want <= a;
    } else {
      LargerNotEmpty(w.want * a, w.want * b);
    }
  }

  lemma LargerNotEmpty<T>(s: set<T>, t: set<T>)
    requires s <= t && s != {}
    ensures t != {}
  {
    var x :| x in s;
    assert x in t;
  }

  // ----- The words behind the sets -----

  predicate Bit(word: bv32, i: bv5) {
    (word >> i) & 1 == 1
  }

  ghost predicate Denotes(word: bv32, s: Bits) {
    forall i: bv5 :: i in s <==> Bit(word, i)
  }

  lemma BitOps(a: bv32, b: bv32, i: bv5)
    ensures Bit(a | b, i) <==> Bit(a, i) || Bit(b, i)
    ensures Bit(a & b, i) <==> Bit(a, i) && Bit(b, i)
    ensures Bit(a & !b, i) <==> Bit(a, i) && !Bit(b, i)
  {
  }

  lemma LowHalf(a: bv32, b: bv32)
    requires Bit(a, 0) == Bit(b, 0) && Bit(a, 1) == Bit(b, 1) && Bit(a, 2) == Bit(b, 2) && Bit(a, 3) == Bit(b, 3)
    requires Bit(a, 4) == Bit(b, 4) && Bit(a, 5) == Bit(b, 5) && Bit(a, 6) == Bit(b, 6) && Bit(a, 7) == Bit(b, 7)
    requires Bit(a, 8) == Bit(b, 8) && Bit(a, 9) == Bit(b, 9) && Bit(a, 10) == Bit(b, 10) && Bit(a, 11) == Bit(b, 11)
    requires Bit(a, 12) == Bit(b, 12) && Bit(a, 13) == Bit(b, 13) && Bit(a, 14) == Bit(b, 14) && Bit(a, 15) == Bit(b, 15)
    ensures a & 0xFFFF == b & 0xFFFF
  {
  }

  lemma HighHalf(a: bv32, b: bv32)
    requires Bit(a, 16) == Bit(b, 16) && Bit(a, 17) == Bit(b, 17) && Bit(a, 18) == Bit(b, 18) && Bit(a, 19) == Bit(b, 19)
    requires Bit(a, 20) == Bit(b, 20) && Bit(a, 21) == Bit(b, 21) && Bit(a, 22) == Bit(b, 22) && Bit(a, 23) == Bit(b, 23)
    requires Bit(a, 24) == Bit(b, 24) && Bit(a, 25) == Bit(b, 25) && Bit(a, 26) == Bit(b, 26) && Bit(a, 27) == Bit(b, 27)
    requires Bit(a, 28) == Bit(b, 28) && Bit(a, 29) == Bit(b, 29) && Bit(a, 30) == Bit(b, 30) && Bit(a, 31) == Bit(b, 31)
    ensures a & 0xFFFF_0000 == b & 0xFFFF_0000
  {
  }

  lemma Halves(a: bv32, b: bv32)
    requires a & 0xFFFF == b & 0xFFFF && a & 0xFFFF_0000 == b & 0xFFFF_0000
    ensures a == b
  {
  }

  /** A word is determined by the set of its bits. */
  lemma SameBits(a: bv32, b: bv32, s: Bits)
    requires Denotes(a, s) && Denotes(b, s)
    ensures a == b
  {
    LowHalf(a, b);
    HighHalf(a, b);
    Halves(a, b);
  }

  /** What the machine does to words is what the model does to the sets of their bits. */
  lemma WordOps(a: bv32, b: bv32, s: Bits, t: Bits)
    requires Denotes(a, s) && Denotes(b, t)
    ensures Denotes(a | b, s + t) && Denotes(a & b, s * t) && Denotes(a & !b, s - t)
  {
    forall i: bv5
      ensures Bit(a | b, i) <==> Bit(a, i) || Bit(b, i)
      ensures Bit(a & b, i) <==> Bit(a, i) && Bit(b, i)
      ensures Bit(a & !b, i) <==> Bit(a, i) && !Bit(b, i)
    {
      BitOps(a, b, i);
    }
  }

  // ----- One receiver -----

  /** What an immediate rt_event_recv leaves in the event, if it succeeds. */
  function AfterRecv(flags: Bits, w: Waiter): Bits {
    if w.clear then flags - w.want else flags
  }

  /** What rt_event_send saves as the bits received by a satisfied waiter. */
  function Saved(flags: Bits, w: Waiter): Bits {
    if w.mode == AND then w.want else w.want * flags
  }

  /** What rt_event_send leaves in the event after granting w. */
  function AfterGrant(flags: Bits, w: Waiter): Bits {
    if w.clear then flags - Saved(flags, w) else flags
  }

  /** Being granted while waiting gives and takes exactly what an immediate receive would. */
  lemma GrantIsRecv(flags: Bits, w: Waiter)
    requires Satisfied(flags, w)
    ensures Saved(flags, w) == flags * w.want
    ensures AfterGrant(flags, w) == AfterRecv(flags, w)
  {
    assert w.mode == AND ==> w.want * flags == w.want;
    assert flags - w.want * flags == flags - w.want;
  }

  // ----- The pass of rt_event_send over the queue -----

  datatype Pass = Pass(flags: Bits, left: seq<Waiter>, granted: seq<Grant>)

  /** Everybody in turn tries an immediate receive; those who fail stay.  A waiter with neither flag ends the pass. */
  function TryAll(flags: Bits, q: seq<Waiter>): Pass {
    if q == [] || q[0].mode == NEITHER then Pass(flags, q, [])
    else if Satisfied(flags, q[0]) then
      var rest := TryAll(AfterRecv(flags, q[0]), q[1..]);
      rest.(granted := [Grant(q[0].t, flags * q[0].want)] + rest.granted)
    else
      var rest := TryAll(flags, q[1..]);
      rest.(left := [q[0]] + rest.left)
  }

  /** One waiter: granted if satisfied, with the bits there are of those it asks for, which then are cleared if it says so. */
  lemma TryOne(flags: Bits, w: Waiter)
    ensures TryAll(flags, [w]) ==
      if w.mode != NEITHER && Satisfied(flags, w)
      then Pass(if w.clear then flags - w.want else flags, [], [Grant(w.t, flags * w.want)])
      else Pass(flags, [w], [])
  {
    assert [w][1..] == [] && [w] + [] == [w];
  }

  /** One pass, and then another over those who came later. */
  function Then(p: Pass, q: Pass): Pass {
    Pass(q.flags, p.left + q.left, p.granted + q.granted)
  }

  /** A pass over a longer queue is a pass over its front and then, with the bits that leaves, one over the rest. */
  lemma {:induction false} TryAllSplit(flags: Bits, a: seq<Waiter>, b: seq<Waiter>)
    requires AllFlagged(a)
    ensures TryAll(flags, a + b) == Then(TryAll(flags, a), TryAll(TryAll(flags, a).flags, b))
    decreases |a|
  {
    if a == [] {
      assert a + b == b;
      var q := TryAll(flags, b);
      assert [] + q.left == q.left && [] + q.granted == q.granted;
    } else {
      assert (a + b)[0] == a[0] && (a + b)[1..] == a[1..] + b && a[0] in a;
      if Satisfied(flags, a[0]) {
        var f := AfterRecv(flags, a[0]);
        TryAllSplit(f, a[1..], b);
        ThenGranted(Grant(a[0].t, flags * a[0].want), TryAll(f, a[1..]), TryAll(TryAll(f, a[1..]).flags, b));
      } else {
        TryAllSplit(flags, a[1..], b);
        ThenLeft(a[0], TryAll(flags, a[1..]), TryAll(TryAll(flags, a[1..]).flags, b));
      }
    }
  }

  lemma ThenGranted(g: Grant, p: Pass, q: Pass)
    ensures Then(p.(granted := [g] + p.granted), q) == Then(p, q).(granted := [g] + Then(p, q).granted)
  {
    assert [g] + p.granted + q.granted == [g] + (p.granted + q.granted);
  }

  lemma ThenLeft(w: Waiter, p: Pass, q: Pass)
    ensures Then(p.(left := [w] + p.left), q) == Then(p, q).(left := [w] + Then(p, q).left)
  {
    assert [w] + p.left + q.left == [w] + (p.left + q.left);
  }

  ghost predicate AllFlagged(q: seq<Waiter>) {
    forall w :: w in q ==> w.mode != NEITHER
  }

  /** Those behind the first waiter with neither flag. */
  function Behind(q: seq<Waiter>): (r: seq<Waiter>)
    ensures AllFlagged(q) ==> r == []
  {
    if q == [] then [] else if q[0].mode == NEITHER then q[1..] else Behind(q[1..])
  }

  ghost predicate NoneSatisfied(flags: Bits, q: seq<Waiter>) {
    forall w :: w in q ==> !Satisfied(flags, w)
  }

  lemma NoneSatisfiedMonotone(a: Bits, b: Bits, q: seq<Waiter>)
    requires a <= b && NoneSatisfied(b, q)
    ensures NoneSatisfied(a, q)
  {
    forall w | w in q ensures !Satisfied(a, w) {
      if Satisfied(a, w) {
        SatisfiedMonotone(a, b, w);
      }
    }
  }

  /** A pass only removes bits. */
  lemma {:induction false} TryAllWithin(flags: Bits, q: seq<Waiter>)
    ensures TryAll(flags, q).flags <= flags
  {
    if q != [] && q[0].mode != NEITHER {
      if Satisfied(flags, q[0]) {
        TryAllWithin(AfterRecv(flags, q[0]), q[1..]);
      } else {
        TryAllWithin(flags, q[1..]);
      }
    }
  }

  /**
    One pass suffices, although later waiters clear bits: nobody left behind is satisfied, exactly if nobody
    behind the first waiter with neither flag is.
   */
  lemma {:induction false} OnePassExact(flags: Bits, q: seq<Waiter>)
    ensures var p := TryAll(flags, q); NoneSatisfied(p.flags, p.left) <==> NoneSatisfied(p.flags, Behind(q))
  {
    if q != [] {
      if q[0].mode == NEITHER {
        assert q == [q[0]] + q[1..];
      } else if Satisfied(flags, q[0]) {
        OnePassExact(AfterRecv(flags, q[0]), q[1..]);
      } else {
        OnePassExact(flags, q[1..]);
        TryAllWithin(flags, q[1..]);
        NoneSatisfiedMonotone(TryAll(flags, q).flags, flags, [q[0]]);
      }
    }
  }

  /** With everybody flagged, one pass suffices. */
  lemma OnePassSuffices(flags: Bits, q: seq<Waiter>)
    requires AllFlagged(q)
    ensures NoneSatisfied(TryAll(flags, q).flags, TryAll(flags, q).left) && AllFlagged(TryAll(flags, q).left)
  {
    OnePassExact(flags, q);
    LeftFlagged(flags, q);
  }

  lemma {:induction false} LeftFlagged(flags: Bits, q: seq<Waiter>)
    requires AllFlagged(q)
    ensures AllFlagged(TryAll(flags, q).left)
  {
    if q != [] {
      assert q == [q[0]] + q[1..] && q[0] in q;
      LeftFlagged(if Satisfied(flags, q[0]) then AfterRecv(flags, q[0]) else flags, q[1..]);
    }
  }

  /** A waiter n with neither flag is not served, and nor is anybody behind it, whatever is sent. */
  lemma {:induction false} NeitherStops(flags: Bits, q: seq<Waiter>, n: Waiter, rest: seq<Waiter>)
    requires AllFlagged(q) && n.mode == NEITHER
    ensures var p := TryAll(flags, q); TryAll(flags, q + [n] + rest) == p.(left := p.left + [n] + rest)
    decreases |q|
  {
    var all := q + [n] + rest;
    if q == [] {
      assert all[0] == n && all == [n] + rest;
    } else {
      assert all[0] == q[0] && all[1..] == q[1..] + [n] + rest && q[0] in q;
      NeitherStops(if Satisfied(flags, q[0]) then AfterRecv(flags, q[0]) else flags, q[1..], n, rest);
    }
  }

  /** Bits received and cleared by the waiters granted. */
  ghost function Consumed(flags: Bits, q: seq<Waiter>): Bits {
    if q == [] || q[0].mode == NEITHER then {}
    else if Satisfied(flags, q[0]) then
      (if q[0].clear then flags * q[0].want else {}) + Consumed(AfterRecv(flags, q[0]), q[1..])
    else Consumed(flags, q[1..])
  }

  /** Every bit is still set, or has been received and cleared by exactly the waiters granted. */
  lemma {:induction false} BitsConserved(flags: Bits, q: seq<Waiter>)
    ensures TryAll(flags, q).flags + Consumed(flags, q) == flags && TryAll(flags, q).flags !! Consumed(flags, q)
  {
    if q != [] && q[0].mode != NEITHER {
      if Satisfied(flags, q[0]) {
        BitsConserved(AfterRecv(flags, q[0]), q[1..]);
      } else {
        BitsConserved(flags, q[1..]);
      }
    }
  }

  /** Where the walk has got to: what it has kept and granted, and what a pass over the rest would, make up the whole pass. */
  ghost predicate WalkAt(goal: Pass, flags: Bits, rest: seq<Waiter>, kept: seq<Waiter>, granted: seq<Grant>) {
    var p := TryAll(flags, rest);
    goal == Pass(p.flags, kept + p.left, granted + p.granted)
  }

  lemma WalkPast(goal: Pass, flags: Bits, rest: seq<Waiter>, kept: seq<Waiter>, granted: seq<Grant>)
    requires rest != [] && WalkAt(goal, flags, rest, kept, granted) && rest[0].mode != NEITHER
    ensures var w := rest[0];
      if Satisfied(flags, w) then WalkAt(goal, AfterGrant(flags, w), rest[1..], kept, granted + [Grant(w.t, Saved(flags, w))])
      else WalkAt(goal, flags, rest[1..], kept + [w], granted)
  {
    var w := rest[0];
    if Satisfied(flags, w) {
      GrantIsRecv(flags, w);
      var p := TryAll(AfterGrant(flags, w), rest[1..]);
      assert granted + [Grant(w.t, Saved(flags, w))] + p.granted == granted + ([Grant(w.t, Saved(flags, w))] + p.granted);
    } else {
      assert kept + [w] + TryAll(flags, rest[1..]).left == kept + ([w] + TryAll(flags, rest[1..]).left);
    }
  }

  lemma FlaggedTail(q: seq<Waiter>)
    requires q != []
    ensures AllFlagged(q) <==> q[0].mode != NEITHER && AllFlagged(q[1..])
  {
    assert q == [q[0]] + q[1..];
  }

  // ----- The event object -----

  class RtEvent {
    var bits: Bits
    var waiters: seq<Waiter>
    /** Nobody has waited with neither flag since the event was made or reset. */
    ghost var proper: bool

    /** Nobody is queued for what is there. */
    ghost predicate Valid()
      reads this
    {
      proper ==> NoneSatisfied(bits, waiters) && AllFlagged(waiters)
    }

    constructor ()
      ensures Valid() && bits == {} && waiters == [] && proper
    {
      bits, waiters, proper := {}, [], true;
    }

    /** rt_event_send: one walk over the queue, granting as it goes, that gives up at a waiter with neither flag. */
    method Send(flags: Bits) returns (r: Outcome, granted: seq<Grant>)
      requires Valid()
      modifies this`bits, this`waiters
      ensures Valid()
      ensures flags == {} ==> r == ERROR && bits == old(bits) && waiters == old(waiters) && granted == []
      ensures flags != {} ==> Pass(bits, waiters, granted) == TryAll(old(bits) + flags, old(waiters))
      ensures flags != {} ==> r == if AllFlagged(old(waiters)) then OK else EINVAL
      ensures flags != {} && AllFlagged(old(waiters)) ==> NoneSatisfied(bits, waiters)
    {
      granted := [];
      if flags == {} {
        return ERROR, [];
      }
      bits := bits + flags;
      if AllFlagged(waiters) {
        OnePassSuffices(bits, waiters);
      }
      var all;
      all, granted := Walk(waiters);
      r := if all then OK else EINVAL;
    }

    /** The walk over queue q: whether it came to the end, and whom it granted what. */
    method Walk(q: seq<Waiter>) returns (all: bool, granted: seq<Grant>)
      modifies this`bits, this`waiters
      ensures Pass(bits, waiters, granted) == TryAll(old(bits), q) && all == AllFlagged(q)
    {
      var kept, rest := [], q;
      granted := [];
      ghost var goal := TryAll(bits, q);
      while rest != []
        invariant WalkAt(goal, bits, rest, kept, granted) && (AllFlagged(q) <==> AllFlagged(rest))
        decreases |rest|
      {
        var w := rest[0];
        FlaggedTail(rest);
        if w.mode == NEITHER {
          waiters := kept + rest;
          return false, granted;
        }
        WalkPast(goal, bits, rest, kept, granted);
        if Satisfied(bits, w) {
          granted := granted + [Grant(w.t, Saved(bits, w))];
          bits := AfterGrant(bits, w);
        } else {
          kept := kept + [w];
        }
        rest := rest[1..];
      }
      waiters := kept;
      all := true;
    }

    /** rt_event_recv up to the point where the caller goes on or is suspended, at its place in the queue. */
    method Recv(w: Waiter, timeout: int, place: nat) returns (r: Outcome, got: Bits)
      requires Valid() && place <= |waiters|
      modifies this
      ensures Valid() && proper == (old(proper) && !(r == BLOCKED && w.mode == NEITHER))
      ensures r == if w.want == {} then ERROR
                   else if Satisfied(old(bits), w) then OK
                   else if timeout == 0 then TIMEDOUT else BLOCKED
      ensures r == OK ==> got == old(bits) * w.want && bits == if w.clear then old(bits) - w.want else old(bits)
      ensures w.want != {} && w.mode == AND ==> (r == OK <==> forall i :: i in w.want ==> i in old(bits))
      ensures w.want != {} && w.mode == OR ==> (r == OK <==> exists i :: i in w.want && i in old(bits))
      ensures w.mode == NEITHER ==> r != OK
      ensures r != OK ==> bits == old(bits)
      ensures waiters == var q := old(waiters); if r == BLOCKED then q[..place] + [w] + q[place..] else q
    {
      got := {};
      SatisfiedBits(bits, w);
      if w.want == {} {
        return ERROR, {};
      }
      if Satisfied(bits, w) {
        if proper {
          NoneSatisfiedMonotone(AfterRecv(bits, w), bits, waiters);
        }
        got := bits * w.want;
        bits := AfterRecv(bits, w);
        return OK, got;
      }
      if timeout == 0 {
        return TIMEDOUT, {};
      }
      assert waiters == waiters[..place] + waiters[place..];
      waiters := waiters[..place] + [w] + waiters[place..];
      proper := proper && w.mode != NEITHER;
      r := BLOCKED;
    }

    /** The thread timer of the k-th waiter expires. */
    method Expire(k: nat)
      requires Valid() && k < |waiters|
      modifies this`waiters
      ensures Valid() && waiters == old(waiters)[..k] + old(waiters)[k + 1..]
    {
      assert forall w :: w in waiters[..k] + waiters[k + 1..] ==> w in waiters;
      waiters := waiters[..k] + waiters[k + 1..];
    }

    /** rt_event_control(event, RT_IPC_CMD_RESET) */
    method Reset()
      modifies this
      ensures Valid() && bits == {} && waiters == [] && proper
    {
      bits, waiters, proper := {}, [], true;
    }
  }
}
