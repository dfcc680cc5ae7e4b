/**
  What the timer list means, rt-thread/kernel/src/timer.c: deadlines as unbounded integers, the
  armed timers as one sequence in firing order.  TimerList holds the 32-bit skip list proved to
  behave like this.
 */
module Timers {
  import opened Wrappers
  import opened Queues

  type Id = nat

  /** RT_TICK_MAX / 2 */
  const HALF: nat := 0x7FFF_FFFF

  /** flags ACTIVATED and PERIODIC, init_tick, and the wrapped timeout_tick */
  datatype Timer = Timer(active: bool, periodic: bool, init: nat, timeout: nat)

  type Due = map<Id, int>

  /** tmp is the temporary list that rt_timer_check keeps a firing timer on. */
  datatype Wheel = Wheel(armed: seq<Id>, timers: map<Id, Timer>, due: Due, tmp: seq<Id>)

  // ----- Wrap-around ticks -----

  /** The comparison of rt_timer_start: tick a comes strictly after tick b. */
  predicate Later(a: nat, b: nat) {
    0 < (a - b) % 0x1_0000_0000 < HALF
  }

  /** The comparison of rt_timer_check: deadline a has been reached at tick b. */
  predicate Reached(a: nat, b: nat) {
    (b - a) % 0x1_0000_0000 < HALF
  }

  function Wrap(x: int): (r: nat)
    ensures r < 0x1_0000_0000
  {
    x % 0x1_0000_0000
  }

  lemma WrapDifference(x: int, y: int)
    ensures (Wrap(x) - Wrap(y)) % 0x1_0000_0000 == (x - y) % 0x1_0000_0000
  {
    var m := 0x1_0000_0000;
    assert x == m * (x / m) + x % m && y == m * (y / m) + y % m;
    ModShift(x % m - y % m, x / m - y / m);
  }

  /** Within one turn of the counter the wrapped order is the true one exactly in this range. */
  lemma WrapExact(x: int, y: int)
    requires -0x1_0000_0000 < x - y < 0x1_0000_0000
    ensures (Later(Wrap(x), Wrap(y)) <==> x > y) <==> -0x8000_0001 <= x - y < HALF
  {
    WrapDifference(x, y);
  }

  /** In a window shorter than RT_TICK_MAX / 2 the wrapped comparisons are the true ones. */
  lemma WindowExact(x: int, y: int)
    requires 0 - HALF < x - y < HALF
    ensures Later(Wrap(x), Wrap(y)) <==> x > y
    ensures Reached(Wrap(x), Wrap(y)) <==> x <= y
  {
    WrapDifference(x, y);
    WrapDifference(y, x);
  }

  /** In a window of RT_TICK_MAX / 2 they are not: the later deadline is taken for the earlier one. */
  lemma WindowSharp(y: int)
    ensures !Later(Wrap(y + HALF), Wrap(y))
  {
    WrapDifference(y + HALF, y);
  }

  // ----- Rows in order of deadline -----

  ghost predicate Sorted(due: Due, q: seq<Id>) {
    && (forall x :: x in q ==> x in due)
    && (forall i, j :: 0 <= i < j < |q| ==> due[q[i]] <= due[q[j]])
  }

  /** How many timers at the front of q are due no later than d. */
  ghost function Place(due: Due, q: seq<Id>, d: int): (k: nat)
    requires forall x :: x in q ==> x in due
    ensures k <= |q|
    ensures forall i :: 0 <= i < k ==> due[q[i]] <= d
    ensures k < |q| ==> due[q[k]] > d
  {
    if q == [] || due[q[0]] > d then 0 else 1 + Place(due, q[1..], d)
  }

  /** t, due at d, goes after everything due no later. */
  ghost function Inserted(due: Due, q: seq<Id>, t: Id, d: int): seq<Id>
    requires forall x :: x in q ==> x in due
  {
    var k := Place(due, q, d);
    q[..k] + [t] + q[k..]
  }

  /** Any place that separates the earlier from the later ones is the place. */
  lemma PlaceUnique(due: Due, q: seq<Id>, d: int, k: nat)
    requires Sorted(due, q) && k <= |q|
    requires k > 0 ==> due[q[k - 1]] <= d
    requires k < |q| ==> due[q[k]] > d
    ensures Place(due, q, d) == k
  {
  }

  lemma InsertedIn(due: Due, q: seq<Id>, t: Id, d: int, x: Id)
    requires forall x :: x in q ==> x in due
    ensures x in Inserted(due, q, t, d) <==> x == t || x in q
  {
    var k := Place(due, q, d);
    assert q == q[..k] + q[k..];
  }

  lemma InsertedSorted(due: Due, q: seq<Id>, t: Id, d: int)
    requires Sorted(due, q) && t !in q && NoDup(q)
    ensures Sorted(due[t := d], Inserted(due, q, t, d)) && NoDup(Inserted(due, q, t, d))
  {
    var k, due', q' := Place(due, q, d), due[t := d], Inserted(due, q, t, d);
    forall x | x in q' ensures x in due' {
      InsertedIn(due, q, t, d, x);
    }
    forall i, j | 0 <= i < j < |q'| ensures due'[q'[i]] <= due'[q'[j]] && q'[i] != q'[j] {
      InsertedPair(due, q, t, d, i, j);
    }
  }

  lemma InsertedPair(due: Due, q: seq<Id>, t: Id, d: int, i: nat, j: nat)
    requires Sorted(due, q) && t !in q && NoDup(q) && i < j <= |q|
    ensures var q' := Inserted(due, q, t, d);
      && |q'| == |q| + 1 && q'[i] != q'[j] && (q'[i] == t || q'[i] in due) && (q'[j] == t || q'[j] in due)
      && due[t := d][q'[i]] <= due[t := d][q'[j]]
  {
    var k, q' := Place(due, q, d), Inserted(due, q, t, d);
    var a, b := if i < k then i else i - 1, if j < k then j else j - 1;
    if i == k {
      assert q'[i] == t && q'[j] == q[b] && q[b] in q;
      assert due[q[k]] <= due[q[b]];
    } else if j == k {
      assert q'[i] == q[a] && q[a] in q;
    } else {
      assert q'[i] == q[a] && q'[j] == q[b] && q[a] in q && q[b] in q;
    }
  }

  lemma {:induction false} WithoutSorted(due: Due, q: seq<Id>, t: Id)
    requires Sorted(due, q)
    ensures Sorted(due, Without(q, t))
  {
    if q != [] {
      var w := Without(q[1..], t);
      WithoutSorted(due, q[1..], t);
      if q[0] != t {
        forall i, j | 0 <= i < j < |[q[0]] + w| ensures due[([q[0]] + w)[i]] <= due[([q[0]] + w)[j]] {
          if i == 0 {
            WithoutIn(q[1..], t, w[j - 1]);
          }
        }
      }
    }
  }

  // ----- rt_timer_start, rt_timer_stop, rt_timer_detach -----

  /** What being armed, firing or idle says about the record of timer x. */
  ghost predicate TimerOk(w: Wheel, x: Id)
    requires w.due.Keys == w.timers.Keys
  {
    && (x in w.armed ==> x in w.timers && w.timers[x].active && w.timers[x].timeout == Wrap(w.due[x]))
    && (x in w.timers && w.timers[x].active ==> x in w.armed || x in w.tmp)
    && (x in w.tmp ==> x in w.timers && x !in w.armed && (w.timers[x].active <==> w.timers[x].periodic))
  }

  ghost predicate Ok(w: Wheel) {
    && NoDup(w.armed) && Sorted(w.due, w.armed) && |w.tmp| <= 1
    && w.due.Keys == w.timers.Keys
    && (forall x {:trigger TimerOk(w, x)} :: TimerOk(w, x))
  }

  ghost function Start(w: Wheel, t: Id, now: int): Wheel
    requires Ok(w) && t in w.timers
  {
    var d := now + w.timers[t].init;
    WithoutSorted(w.due, w.armed, t);
    Wheel(Inserted(w.due, Without(w.armed, t), t, d), w.timers[t := w.timers[t].(active := true, timeout := Wrap(d))],
          w.due[t := d], Without(w.tmp, t))
  }

  ghost function Detach(w: Wheel, t: Id): Wheel
    requires t in w.timers
  {
    Wheel(Without(w.armed, t), w.timers[t := w.timers[t].(active := false)], w.due, Without(w.tmp, t))
  }

  /** rt_timer_stop: an error, and no change, unless the timer is activated. */
  ghost function Stop(w: Wheel, t: Id): Wheel
    requires t in w.timers
  {
    if w.timers[t].active then Detach(w, t) else w
  }

  lemma TmpWithout(w: Wheel, t: Id)
    requires |w.tmp| <= 1
    ensures Without(w.tmp, t) == if w.tmp == [t] then [] else w.tmp
  {
  }

  lemma StartRow(w: Wheel, t: Id, now: int)
    requires Ok(w) && t in w.timers
    ensures var w' := Start(w, t, now);
      && NoDup(w'.armed) && Sorted(w'.due, w'.armed)
      && forall x :: x in w'.armed <==> x == t || x in w.armed
  {
    var q, d := Without(w.armed, t), now + w.timers[t].init;
    WithoutSorted(w.due, w.armed, t);
    WithoutNoDup(w.armed, t);
    WithoutIn(w.armed, t, t);
    InsertedSorted(w.due, q, t, d);
    forall x ensures x in Inserted(w.due, q, t, d) <==> x == t || x in w.armed {
      WithoutIn(w.armed, t, x);
      InsertedIn(w.due, q, t, d, x);
    }
  }

  lemma StartOk(w: Wheel, t: Id, now: int)
    requires Ok(w) && t in w.timers
    ensures Ok(Start(w, t, now))
    ensures forall x :: x in Start(w, t, now).armed <==> x == t || x in w.armed
  {
    StartRow(w, t, now);
    TmpWithout(w, t);
    var w' := Start(w, t, now);
    forall x ensures TimerOk(w', x) {
      assert TimerOk(w, x);
    }
  }

  lemma DetachOk(w: Wheel, t: Id)
    requires Ok(w) && t in w.timers
    ensures Ok(Detach(w, t))
    ensures forall x :: x in Detach(w, t).armed <==> x in w.armed && x != t
  {
    WithoutSorted(w.due, w.armed, t);
    WithoutNoDup(w.armed, t);
    TmpWithout(w, t);
    forall x ensures x in Without(w.armed, t) <==> x in w.armed && x != t {
      WithoutIn(w.armed, t, x);
    }
    forall x ensures TimerOk(Detach(w, t), x) {
      assert TimerOk(w, x);
    }
  }

  /** Equal deadlines fire in the order in which they were started. */
  lemma StartFifo(w: Wheel, t: Id, now: int, i: nat, j: nat)
    requires Ok(w) && t in w.timers && i < |Start(w, t, now).armed| && j < |Start(w, t, now).armed|
    requires Start(w, t, now).armed[j] == t && i != j
    ensures var w' := Start(w, t, now);
      && w'.armed[i] in w.due && w'.due[w'.armed[i]] == w.due[w'.armed[i]]
      && (i < j <==> w.due[w'.armed[i]] <= now + w.timers[t].init)
  {
    WithoutSorted(w.due, w.armed, t);
    WithoutIn(w.armed, t, t);
    InsertedFifo(w.due, Without(w.armed, t), t, now + w.timers[t].init, i, j);
  }

  lemma InsertedFifo(due: Due, q: seq<Id>, t: Id, d: int, i: nat, j: nat)
    requires Sorted(due, q) && t !in q && i < |Inserted(due, q, t, d)| && j < |Inserted(due, q, t, d)|
    requires Inserted(due, q, t, d)[j] == t && i != j
    ensures var q' := Inserted(due, q, t, d); q'[i] in q && (i < j <==> due[q'[i]] <= d)
  {
    var k, q' := Place(due, q, d), Inserted(due, q, t, d);
    assert forall m :: 0 <= m < k ==> q'[m] == q[m];
    assert forall m :: k < m < |q'| ==> q'[m] == q[m - 1];
    if i < k {
      assert q'[i] == q[i];
    } else {
      assert q'[i] == q[i - 1] && due[q[k]] <= due[q[i - 1]];
    }
  }

  // ----- Callbacks -----

  /** What a timeout function may do to the timers, its own included. */
  datatype Op = StartOp(id: Id) | StopOp(id: Id) | DetachOp(id: Id)

  ghost function Apply(w: Wheel, op: Op, now: int): Wheel
    requires Ok(w) && op.id in w.timers
  {
    match op
    case StartOp(x) => Start(w, x, now)
    case StopOp(x) => Stop(w, x)
    case DetachOp(x) => Detach(w, x)
  }

  lemma ApplyOk(w: Wheel, op: Op, now: int)
    requires Ok(w) && op.id in w.timers
    ensures Ok(Apply(w, op, now)) && Apply(w, op, now).timers.Keys == w.timers.Keys
  {
    if op.StartOp? {
      StartOk(w, op.id, now);
    } else {
      DetachOk(w, op.id);
    }
  }

  ghost predicate Known(w: Wheel, ops: seq<Op>) {
    forall op :: op in ops ==> op.id in w.timers
  }

  ghost function ApplyAll(w: Wheel, ops: seq<Op>, now: int): (r: Wheel)
    requires Ok(w) && Known(w, ops)
    ensures Ok(r) && r.timers.Keys == w.timers.Keys
    decreases |ops|
  {
    if ops == [] then w else
      var n := |ops| - 1;
      assert ops[n] in ops;
      var w1 := ApplyAll(w, ops[..n], now);
      ApplyOk(w1, ops[n], now);
      Apply(w1, ops[n], now)
  }

  /** The last operation of the callback on timer x. */
  ghost function LastOn(ops: seq<Op>, x: Id): Option<Op> {
    if ops == [] then None
    else if ops[|ops| - 1].id == x then Some(ops[|ops| - 1])
    else LastOn(ops[..|ops| - 1], x)
  }

  /** Parts of a timer that operations on others leave alone. */
  ghost predicate SameTimer(w: Wheel, w': Wheel, x: Id) {
    && x in w.timers && x in w'.timers && w'.timers[x] == w.timers[x]
    && x in w.due && x in w'.due && w'.due[x] == w.due[x]
    && (x in w'.armed <==> x in w.armed) && (x in w'.tmp <==> x in w.tmp)
  }

  lemma ApplyOther(w: Wheel, op: Op, now: int, x: Id)
    requires Ok(w) && op.id in w.timers && x in w.timers && op.id != x
    ensures SameTimer(w, Apply(w, op, now), x)
  {
    TmpWithout(w, op.id);
    if op.StartOp? {
      StartOk(w, op.id, now);
    } else {
      DetachOk(w, op.id);
    }
  }

  /** Armed at the full period from now. */
  ghost predicate Fresh(w: Wheel, x: Id, now: int) {
    x in w.armed && x in w.timers && x in w.due && w.due[x] == now + w.timers[x].init && x !in w.tmp
  }

  ghost predicate Idle(w: Wheel, x: Id) {
    x in w.timers && x !in w.armed && !w.timers[x].active
  }

  lemma ApplyOwn(w: Wheel, op: Op, now: int)
    requires Ok(w) && op.id in w.timers
    ensures var w' := Apply(w, op, now);
      && (op.StartOp? ==> Fresh(w', op.id, now))
      && (!op.StartOp? ==> Idle(w', op.id))
  {
    TmpWithout(w, op.id);
    assert TimerOk(w, op.id);
    if op.StartOp? {
      StartOk(w, op.id, now);
    } else {
      DetachOk(w, op.id);
    }
  }

  /** A callback leaves each timer as its last operation on it did, and the rest untouched. */
  lemma {:induction false} ApplyAllEffect(w: Wheel, ops: seq<Op>, now: int, x: Id)
    requires Ok(w) && Known(w, ops) && x in w.timers
    ensures var w', last := ApplyAll(w, ops, now), LastOn(ops, x);
      && (last == None ==> SameTimer(w, w', x))
      && (last != None && last.value.StartOp? ==> Fresh(w', x, now))
      && (last != None && !last.value.StartOp? ==> Idle(w', x))
    decreases |ops|
  {
    if ops != [] {
      var n := |ops| - 1;
      var w1 := ApplyAll(w, ops[..n], now);
      assert ops[n] in ops;
      ApplyAllEffect(w, ops[..n], now, x);
      if ops[n].id == x {
        ApplyOwn(w1, ops[n], now);
      } else {
        ApplyOther(w1, ops[n], now, x);
      }
    }
  }

  lemma {:induction false} ApplyAllTmp(w: Wheel, ops: seq<Op>, now: int)
    requires Ok(w) && Known(w, ops)
    ensures ApplyAll(w, ops, now).tmp == w.tmp || ApplyAll(w, ops, now).tmp == []
    ensures forall x :: x in w.timers ==>
      ApplyAll(w, ops, now).timers[x].periodic == w.timers[x].periodic && ApplyAll(w, ops, now).timers[x].init == w.timers[x].init
    decreases |ops|
  {
    if ops != [] {
      var n := |ops| - 1;
      assert ops[n] in ops;
      ApplyAllTmp(w, ops[..n], now);
      TmpWithout(ApplyAll(w, ops[..n], now), ops[n].id);
    }
  }

  // ----- One round of rt_timer_check -----

  /** The first timer leaves the list, for the temporary one. */
  ghost function Pick(w: Wheel): Wheel
    requires Ok(w) && w.armed != [] && w.tmp == []
  {
    var t := w.armed[0];
    assert TimerOk(w, t);
    Wheel(w.armed[1..], w.timers[t := w.timers[t].(active := w.timers[t].periodic)], w.due, [t])
  }

  lemma PickOk(w: Wheel)
    requires Ok(w) && w.armed != [] && w.tmp == []
    ensures Ok(Pick(w))
    ensures forall x :: x in Pick(w).armed <==> x in w.armed && x != w.armed[0]
  {
    var q := w.armed;
    assert q == [q[0]] + q[1..];
    assert q[0] !in q[1..];
    assert forall x :: x in q[1..] ==> x in q;
    assert Sorted(w.due, q[1..]) && NoDup(q[1..]);
    assert TimerOk(w, q[0]);
    forall x ensures TimerOk(Pick(w), x) {
      assert TimerOk(w, x);
    }
  }

  /** After the callback: re-arm the timer if it is periodic and still on the temporary list. */
  ghost function Settle(w: Wheel, t: Id, now: int): Wheel
    requires Ok(w) && t in w.timers && (w.tmp == [] || w.tmp == [t])
  {
    if w.tmp == [] then w
    else if w.timers[t].periodic && w.timers[t].active then Start(Dropped(w, t), t, now)
    else Dropped(w, t)
  }

  /** Off the temporary list. */
  ghost function Dropped(w: Wheel, t: Id): (r: Wheel)
    requires Ok(w) && t in w.timers && w.tmp == [t]
    ensures Ok(r)
  {
    DroppedOk(w, t);
    w.(tmp := [], timers := w.timers[t := w.timers[t].(active := false)])
  }

  lemma DroppedOk(w: Wheel, t: Id)
    requires Ok(w) && t in w.timers && w.tmp == [t]
    ensures Ok(w.(tmp := [], timers := w.timers[t := w.timers[t].(active := false)]))
  {
    var w' := w.(tmp := [], timers := w.timers[t := w.timers[t].(active := false)]);
    assert TimerOk(w, t);
    forall x ensures TimerOk(w', x) {
      assert TimerOk(w, x);
    }
  }

  ghost function Fire(w: Wheel, ops: seq<Op>, now: int): Wheel
    requires Ok(w) && w.armed != [] && w.tmp == [] && Known(w, ops)
  {
    PickOk(w);
    ApplyAllTmp(Pick(w), ops, now);
    Settle(ApplyAll(Pick(w), ops, now), w.armed[0], now)
  }

  /** What one firing does to timer x: last is the callback's last operation on x. */
  ghost predicate FireEffect(w: Wheel, w': Wheel, x: Id, last: Option<Op>, now: int)
    requires w.armed != []
  {
    match last
    case Some(op) =>
      if op.StartOp? then Fresh(w', x, now) else Idle(w', x)
    case None =>
      if x != w.armed[0] then SameTimer(w, w', x)
      else x in w.timers && if w.timers[x].periodic then Fresh(w', x, now) else Idle(w', x)
  }

  /**
    A timer that fires is armed again exactly if its callback's last word on it is a start, or it is
    periodic and the callback says nothing about it; all others are as the callback leaves them.
   */
  lemma FireTheorem(w: Wheel, ops: seq<Op>, now: int, x: Id)
    requires Ok(w) && w.armed != [] && w.tmp == [] && Known(w, ops) && x in w.timers
    ensures FireEffect(w, Fire(w, ops, now), x, LastOn(ops, x), now)
  {
    PickOk(w);
    assert TimerOk(w, w.armed[0]);
    ApplyAllTmp(Pick(w), ops, now);
    ApplyAllEffect(Pick(w), ops, now, x);
    SettleEffect(ApplyAll(Pick(w), ops, now), w.armed[0], now, x);
  }

  lemma SettleEffect(w: Wheel, t: Id, now: int, x: Id)
    requires Ok(w) && t in w.timers && x in w.timers && (w.tmp == [] || w.tmp == [t])
    ensures var w' := Settle(w, t, now);
      && Ok(w') && w'.tmp == [] && w'.timers.Keys == w.timers.Keys
      && (x !in w.tmp ==> SameTimer(w, w', x))
      && (x in w.tmp ==> if w.timers[x].periodic then Fresh(w', x, now) else Idle(w', x))
  {
    assert TimerOk(w, t);
    if w.tmp != [] && w.timers[t].periodic {
      StartOk(Dropped(w, t), t, now);
    }
  }

  lemma FireOk(w: Wheel, ops: seq<Op>, now: int)
    requires Ok(w) && w.armed != [] && w.tmp == [] && Known(w, ops)
    ensures var w' := Fire(w, ops, now); Ok(w') && w'.tmp == [] && w'.timers.Keys == w.timers.Keys
    ensures forall x :: x in w.timers ==>
      Fire(w, ops, now).timers[x].init == w.timers[x].init && Fire(w, ops, now).timers[x].periodic == w.timers[x].periodic
  {
    PickOk(w);
    ApplyAllTmp(Pick(w), ops, now);
    SettleEffect(ApplyAll(Pick(w), ops, now), w.armed[0], now, w.armed[0]);
  }

  // ----- All of rt_timer_check -----

  /** Armed timers whose deadline has come. */
  ghost function Late(w: Wheel, now: int): set<Id>
    requires Ok(w)
  {
    set x | x in w.armed && w.due[x] <= now
  }

  /** No timer has period zero. */
  ghost predicate Positive(w: Wheel) {
    forall x :: x in w.timers ==> w.timers[x].init > 0
  }

  lemma FireLateOne(w: Wheel, ops: seq<Op>, now: int, x: Id)
    requires Ok(w) && w.armed != [] && w.tmp == [] && Known(w, ops) && Positive(w)
    requires Ok(Fire(w, ops, now)) && x in Late(Fire(w, ops, now), now)
    ensures x in Late(w, now) && x != w.armed[0] && Fire(w, ops, now).due[x] == w.due[x]
  {
    FireOk(w, ops, now);
    FireTheorem(w, ops, now, x);
  }

  /** Firing makes nothing late: what is late afterwards was so before, with the same deadline. */
  lemma FireLate(w: Wheel, ops: seq<Op>, now: int)
    requires Ok(w) && w.armed != [] && w.tmp == [] && Known(w, ops) && Positive(w)
    ensures Ok(Fire(w, ops, now)) && w.armed[0] !in Late(Fire(w, ops, now), now)
    ensures forall x :: x in Late(Fire(w, ops, now), now) ==> x in Late(w, now) && Fire(w, ops, now).due[x] == w.due[x]
  {
    FireOk(w, ops, now);
    var late := Late(Fire(w, ops, now), now);
    forall x | x in late ensures x in Late(w, now) && x != w.armed[0] && Fire(w, ops, now).due[x] == w.due[x] {
      FireLateOne(w, ops, now, x);
    }
  }

  lemma FireKeepsLate(w: Wheel, ops: seq<Op>, now: int, x: Id)
    requires Ok(w) && w.armed != [] && w.tmp == [] && Known(w, ops)
    requires x in Late(w, now) && x != w.armed[0] && LastOn(ops, x) == None
    ensures Ok(Fire(w, ops, now)) && x in Late(Fire(w, ops, now), now)
  {
    FireOk(w, ops, now);
    FireTheorem(w, ops, now, x);
  }

  ghost predicate Scripted(w: Wheel, script: nat -> seq<Op>) {
    forall k: nat :: Known(w, script(k))
  }

  lemma FireShrinks(w: Wheel, ops: seq<Op>, now: int)
    requires Ok(w) && w.armed != [] && w.tmp == [] && Known(w, ops) && Positive(w) && w.due[w.armed[0]] <= now
    ensures Ok(Fire(w, ops, now)) && |Late(Fire(w, ops, now), now)| < |Late(w, now)|
  {
    FireLate(w, ops, now);
    assert w.armed[0] in Late(w, now);
    assert Late(Fire(w, ops, now), now) <= Late(w, now) - {w.armed[0]};
    SubsetSize(Late(Fire(w, ops, now), now), Late(w, now) - {w.armed[0]});
  }

  ghost predicate Checkable(w: Wheel, script: nat -> seq<Op>) {
    Ok(w) && w.tmp == [] && Positive(w) && Scripted(w, script)
  }

  lemma FireCheckable(w: Wheel, script: nat -> seq<Op>, k: nat, now: int)
    requires Checkable(w, script) && w.armed != []
    ensures Checkable(Fire(w, script(k), now), script)
  {
    FireOk(w, script(k), now);
  }

  ghost predicate Pending(w: Wheel, now: int)
    requires Ok(w)
  {
    w.armed != [] && w.due[w.armed[0]] <= now
  }

  /** The wheel after rt_timer_check whose k-th callback from now on runs script(k). */
  ghost function Check(w: Wheel, script: nat -> seq<Op>, k: nat, now: int): Wheel
    requires Checkable(w, script)
    decreases |Late(w, now)|
  {
    if !Pending(w, now) then w else
      FireShrinks(w, script(k), now);
      FireCheckable(w, script, k, now);
      Check(Fire(w, script(k), now), script, k + 1, now)
  }

  /** The timers it fires, in order. */
  ghost function Fired(w: Wheel, script: nat -> seq<Op>, k: nat, now: int): seq<Id>
    requires Checkable(w, script)
    decreases |Late(w, now)|
  {
    if !Pending(w, now) then [] else
      FireShrinks(w, script(k), now);
      FireCheckable(w, script, k, now);
      [w.armed[0]] + Fired(Fire(w, script(k), now), script, k + 1, now)
  }

  /** At the end nothing armed is late, and the list is in order again. */
  lemma {:induction false} CheckLeavesNoneLate(w: Wheel, script: nat -> seq<Op>, k: nat, now: int)
    requires Checkable(w, script)
    ensures Checkable(Check(w, script, k, now), script)
    ensures forall x :: x in Check(w, script, k, now).armed ==> Check(w, script, k, now).due[x] > now
    decreases |Late(w, now)|
  {
    if Pending(w, now) {
      FireShrinks(w, script(k), now);
      FireCheckable(w, script, k, now);
      CheckLeavesNoneLate(Fire(w, script(k), now), script, k + 1, now);
    }
  }

  /** Only timers late at the start fire, each at most once, at deadlines that never decrease. */
  lemma {:induction false} FiredInOrder(w: Wheel, script: nat -> seq<Op>, k: nat, now: int)
    requires Checkable(w, script)
    ensures var f := Fired(w, script, k, now);
      && (forall x :: x in f ==> x in Late(w, now))
      && Sorted(w.due, f) && NoDup(f)
    decreases |Late(w, now)|
  {
    if Pending(w, now) {
      FireShrinks(w, script(k), now);
      FireCheckable(w, script, k, now);
      var w1, t := Fire(w, script(k), now), w.armed[0];
      var g := Fired(w1, script, k + 1, now);
      FiredInOrder(w1, script, k + 1, now);
      FireLate(w, script(k), now);
      forall x | x in g ensures x in Late(w, now) && x != t && w1.due[x] == w.due[x] && w.due[t] <= w.due[x] {
        assert x in Late(w1, now);
        assert Sorted(w.due, w.armed) && x in w.armed;
      }
      ConsSorted(w.due, w1.due, t, g);
    }
  }

  lemma ConsSorted(due: Due, due1: Due, t: Id, g: seq<Id>)
    requires Sorted(due1, g) && NoDup(g) && t in due
    requires forall x :: x in g ==> x in due && x != t && due1[x] == due[x] && due[t] <= due[x]
    ensures Sorted(due, [t] + g) && NoDup([t] + g)
  {
    var f := [t] + g;
    forall i, j | 0 <= i < j < |f| ensures due[f[i]] <= due[f[j]] && f[i] != f[j] {
      assert f[j] == g[j - 1] && g[j - 1] in g;
      if i > 0 {
        assert f[i] == g[i - 1] && g[i - 1] in g;
      }
    }
  }

  /** Every late timer fires, unless a callback before it has stopped, detached or restarted it. */
  lemma {:induction false} LateFires(w: Wheel, script: nat -> seq<Op>, k: nat, now: int, x: Id)
    requires Checkable(w, script) && x in Late(w, now)
    ensures x in Fired(w, script, k, now) ||
      exists i: nat :: k <= i < k + |Fired(w, script, k, now)| && LastOn(script(i), x) != None
    decreases |Late(w, now)|
  {
    assert Pending(w, now);
    FireShrinks(w, script(k), now);
    FireCheckable(w, script, k, now);
    var w1 := Fire(w, script(k), now);
    if x != w.armed[0] && LastOn(script(k), x) == None {
      FireKeepsLate(w, script(k), now, x);
      LateFires(w1, script, k + 1, now, x);
      assert Fired(w, script, k, now)[1..] == Fired(w1, script, k + 1, now);
    }
  }

  // ----- A period of zero -----

  /** The check at tick now makes n more rounds at least, whose callbacks run script(k), script(k + 1), and so on. */
  ghost predicate GoesOn(w: Wheel, script: nat -> seq<Op>, k: nat, now: int, n: nat)
    decreases n
  {
    n > 0 ==>
      && Ok(w) && w.tmp == [] && Pending(w, now) && Known(w, script(k))
      && GoesOn(Fire(w, script(k), now), script, k + 1, now, n - 1)
  }

  /** Timer x is armed and due, and is periodic with period zero. */
  ghost predicate Restless(w: Wheel, x: Id, now: int) {
    && Ok(w) && w.tmp == [] && x in w.armed && x in w.timers && w.timers[x].periodic && w.timers[x].init == 0
    && x in w.due && w.due[x] <= now
  }

  /** With positive periods the check makes at most as many rounds as timers are due. */
  lemma {:induction false} RoundsBounded(w: Wheel, script: nat -> seq<Op>, k: nat, now: int, n: nat)
    requires Checkable(w, script) && GoesOn(w, script, k, now, n)
    ensures n <= |Late(w, now)|
    decreases n
  {
    if n > 0 {
      FireShrinks(w, script(k), now);
      FireCheckable(w, script, k, now);
      RoundsBounded(Fire(w, script(k), now), script, k + 1, now, n - 1);
    }
  }

  lemma RestlessStays(w: Wheel, ops: seq<Op>, now: int, x: Id)
    requires Restless(w, x, now) && Known(w, ops) && (LastOn(ops, x) == None || LastOn(ops, x).value.StartOp?)
    ensures Pending(w, now) && Restless(Fire(w, ops, now), x, now)
  {
    var i :| 0 <= i < |w.armed| && w.armed[i] == x;
    assert w.due[w.armed[0]] <= w.due[w.armed[i]];
    FireOk(w, ops, now);
    FireTheorem(w, ops, now, x);
  }

  /** With a period of zero the check never ends, unless a callback stops or detaches the timer. */
  lemma {:induction false} ZeroPeriodLoops(w: Wheel, script: nat -> seq<Op>, k: nat, now: int, n: nat, x: Id)
    requires Restless(w, x, now) && Scripted(w, script)
    requires forall i: nat :: LastOn(script(i), x) == None || LastOn(script(i), x).value.StartOp?
    ensures GoesOn(w, script, k, now, n)
    decreases n
  {
    if n > 0 {
      RestlessStays(w, script(k), now, x);
      FireOk(w, script(k), now);
      ZeroPeriodLoops(Fire(w, script(k), now), script, k + 1, now, n - 1, x);
    }
  }
}
