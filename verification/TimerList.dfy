/**
  The timer skip list of rt-thread/kernel/src/timer.c, for any number of levels: rows of timers
  compared by wrapped 32-bit ticks, proved to do what Timers specifies on true deadlines.
 */
module TimerList {
  import opened Queues
  import opened Timers

  // ----- Rows -----

  /** u is what is left of v after leaving out some elements. */
  ghost predicate Sub(u: seq<Id>, v: seq<Id>)
    decreases |v|
  {
    u == [] || (v != [] && if u[0] == v[0] then Sub(u[1..], v[1..]) else Sub(u, v[1..]))
  }

  lemma {:induction false} SubIn(u: seq<Id>, v: seq<Id>, x: Id)
    requires Sub(u, v) && x in u
    ensures x in v
    decreases |v|
  {
    assert u == [u[0]] + u[1..];
    if u[0] == v[0] {
      if x != u[0] {
        SubIn(u[1..], v[1..], x);
      }
    } else {
      SubIn(u, v[1..], x);
    }
  }

  lemma {:induction false} SubWithout(u: seq<Id>, v: seq<Id>, t: Id)
    requires Sub(u, v) && NoDup(v)
    ensures Sub(Without(u, t), Without(v, t))
    decreases |v|
  {
    if u != [] {
      if u[0] == v[0] {
        SubWithout(u[1..], v[1..], t);
      } else {
        SubWithout(u, v[1..], t);
        var a, b := Without(u, t), Without(v[1..], t);
        if v[0] != t && a != [] {
          WithoutIn(u, t, a[0]);
          SubIn(u, v[1..], a[0]);
          assert ([v[0]] + b)[1..] == b;
        }
      }
    }
  }

  lemma InsertedCons(due: Due, q: seq<Id>, t: Id, d: int)
    requires forall x :: x in q ==> x in due
    ensures Inserted(due, q, t, d) ==
      if q == [] || due[q[0]] > d then [t] + q else [q[0]] + Inserted(due, q[1..], t, d)
  {
  }

  /** Inserting into the lower row alone keeps the upper row a part of it. */
  lemma {:induction false} SubLower(due: Due, u: seq<Id>, v: seq<Id>, t: Id, d: int)
    requires Sub(u, v) && t !in v && (forall x :: x in v ==> x in due)
    ensures Sub(u, Inserted(due, v, t, d))
    decreases |v|
  {
    InsertedCons(due, v, t, d);
    if v == [] || due[v[0]] > d {
      if u != [] {
        SubIn(u, v, u[0]);
      }
      assert ([t] + v)[1..] == v;
    } else {
      var b := Inserted(due, v[1..], t, d);
      assert ([v[0]] + b)[1..] == b;
      if u != [] && u[0] == v[0] {
        SubLower(due, u[1..], v[1..], t, d);
      } else {
        SubLower(due, u, v[1..], t, d);
      }
    }
  }

  /** Inserting into the lower row alone, or into both, keeps the upper row a part of the lower. */
  lemma SubInserted(due: Due, u: seq<Id>, v: seq<Id>, t: Id, d: int)
    requires Sub(u, v) && Sorted(due, v) && t !in v && (forall x :: x in u ==> x in due)
    ensures Sub(u, Inserted(due, v, t, d)) && Sub(Inserted(due, u, t, d), Inserted(due, v, t, d))
  {
    SubLower(due, u, v, t, d);
    SubBoth(due, u, v, t, d);
  }

  lemma SubCons(t: Id, u: seq<Id>, v: seq<Id>)
    requires Sub(u, v)
    ensures Sub([t] + u, [t] + v)
  {
    assert ([t] + v)[1..] == v && ([t] + u)[1..] == u;
  }

  lemma SortedFirst(due: Due, v: seq<Id>, x: Id)
    requires Sorted(due, v) && x in v
    ensures due[v[0]] <= due[x]
  {
  }

  lemma {:induction false} SubBoth(due: Due, u: seq<Id>, v: seq<Id>, t: Id, d: int)
    requires Sub(u, v) && Sorted(due, v) && t !in v && (forall x :: x in u ==> x in due)
    ensures Sub(Inserted(due, u, t, d), Inserted(due, v, t, d))
    decreases |v|
  {
    InsertedCons(due, u, t, d);
    InsertedCons(due, v, t, d);
    if v == [] || due[v[0]] > d {
      if u != [] {
        SubIn(u, v, u[0]);
        SortedFirst(due, v, u[0]);
      }
      SubCons(t, u, v);
    } else {
      var b := Inserted(due, v[1..], t, d);
      assert ([v[0]] + b)[1..] == b;
      if u != [] && u[0] == v[0] {
        SubBoth(due, u[1..], v[1..], t, d);
        assert ([u[0]] + Inserted(due, u[1..], t, d))[1..] == Inserted(due, u[1..], t, d);
      } else {
        SubBoth(due, u, v[1..], t, d);
      }
    }
  }

  type Rows = seq<seq<Id>>

  /** Each row is in order, and a part of the row below it. */
  ghost predicate RowsOk(rows: Rows, due: Due) {
    && (forall r :: 0 <= r < |rows| ==> RowOk(rows[r], due))
    && (forall r :: 0 <= r < |rows| - 1 ==> Sub(rows[r], rows[r + 1]))
  }

  ghost predicate RowOk(q: seq<Id>, due: Due) {
    Sorted(due, q) && NoDup(q)
  }

  ghost function Removed(rows: Rows, t: Id): Rows {
    seq(|rows|, r requires 0 <= r < |rows| => Without(rows[r], t))
  }

  /** rows' is rows with t inserted into the h lowest of them. */
  ghost predicate Raised(rows: Rows, rows': Rows, due: Due, t: Id, d: int, h: nat)
    requires RowsOk(rows, due)
  {
    && |rows'| == |rows|
    && (forall r :: 0 <= r < |rows| - h && r < |rows| ==> rows'[r] == rows[r])
    && (forall r :: 0 <= r < |rows| && r >= |rows| - h ==> RowOk(rows[r], due) && rows'[r] == Inserted(due, rows[r], t, d))
  }

  lemma RemovedOk(rows: Rows, due: Due, t: Id)
    requires RowsOk(rows, due)
    ensures RowsOk(Removed(rows, t), due)
    ensures Absent(Removed(rows, t), t)
  {
    forall r | 0 <= r < |rows| ensures RowOk(Removed(rows, t)[r], due) && t !in Removed(rows, t)[r] {
      assert RowOk(rows[r], due);
      WithoutSorted(due, rows[r], t);
      WithoutNoDup(rows[r], t);
      WithoutIn(rows[r], t, t);
    }
    forall r | 0 <= r < |rows| - 1 ensures Sub(Removed(rows, t)[r], Removed(rows, t)[r + 1]) {
      assert RowOk(rows[r + 1], due);
      SubWithout(rows[r], rows[r + 1], t);
    }
  }

  function InsertAt(rows: Rows, r: nat, k: nat, t: Id): Rows
    requires r < |rows| && k <= |rows[r]|
  {
    rows[r := rows[r][..k] + [t] + rows[r][k..]]
  }

  /** at[r] is the place in row r of a timer due at d. */
  ghost predicate Placed(rows: Rows, due: Due, at: seq<nat>, d: int) {
    |at| == |rows| && forall r :: 0 <= r < |rows| ==> RowOk(rows[r], due) && at[r] == Place(due, rows[r], d)
  }

  ghost predicate Absent(rows: Rows, t: Id) {
    forall r :: 0 <= r < |rows| ==> t !in rows[r]
  }

  lemma RaisedMore(rows: Rows, rows': Rows, due: Due, t: Id, d: int, h: nat, at: seq<nat>)
    requires RowsOk(rows, due) && h < |rows| && Raised(rows, rows', due, t, d, h) && Placed(rows, due, at, d)
    ensures at[|rows| - 1 - h] <= |rows'[|rows| - 1 - h]|
    ensures Raised(rows, InsertAt(rows', |rows| - 1 - h, at[|rows| - 1 - h], t), due, t, d, h + 1)
  {
  }

  lemma SortedElsewhere(due: Due, q: seq<Id>, t: Id, d: int)
    requires Sorted(due, q) && t !in q
    ensures Sorted(due[t := d], q)
  {
    assert forall i :: 0 <= i < |q| ==> q[i] in q;
  }

  lemma RaisedOk(rows: Rows, rows': Rows, due: Due, t: Id, d: int, h: nat)
    requires RowsOk(rows, due) && Absent(rows, t) && Raised(rows, rows', due, t, d, h)
    ensures RowsOk(rows', due[t := d])
  {
    forall r | 0 <= r < |rows| ensures RowOk(rows'[r], due[t := d]) {
      assert RowOk(rows[r], due);
      InsertedSorted(due, rows[r], t, d);
      SortedElsewhere(due, rows[r], t, d);
    }
    forall r | 0 <= r < |rows| - 1 ensures Sub(rows'[r], rows'[r + 1]) {
      assert RowOk(rows[r + 1], due) && RowOk(rows[r], due);
      SubInserted(due, rows[r], rows[r + 1], t, d);
    }
  }

  /** Every row is a part of the lowest one. */
  lemma {:induction false} RowInBottom(rows: Rows, due: Due, r: nat, x: Id)
    requires RowsOk(rows, due) && r < |rows| && x in rows[r]
    ensures x in rows[|rows| - 1]
    decreases |rows| - r
  {
    if r < |rows| - 1 {
      SubIn(rows[r], rows[r + 1], x);
      RowInBottom(rows, due, r + 1, x);
    }
  }

  lemma NewDeadline(rows: Rows, due: Due, t: Id, d: int)
    requires RowsOk(rows, due) && t !in due
    ensures RowsOk(rows, due[t := d])
  {
    forall r | 0 <= r < |rows| ensures RowOk(rows[r], due[t := d]) {
      assert RowOk(rows[r], due);
      SortedElsewhere(due, rows[r], t, d);
    }
  }

  lemma NewTimer(w: Wheel, t: Id, timer: Timer)
    requires Ok(w) && t !in w.timers && !timer.active
    ensures Ok(w.(timers := w.timers[t := timer], due := w.due[t := 0]))
  {
    assert TimerOk(w, t);
    SortedElsewhere(w.due, w.armed, t, 0);
    var w' := w.(timers := w.timers[t := timer], due := w.due[t := 0]);
    forall x ensures TimerOk(w', x) {
      assert TimerOk(w, x);
    }
  }

  // ----- Deadlines in a window shorter than RT_TICK_MAX / 2 -----

  /** The deadlines of the armed timers lie in the window that begins at lo. */
  ghost predicate InWindow(w: Wheel, lo: int) {
    forall x {:trigger x in w.armed} :: x in w.armed ==> x in w.due && lo <= w.due[x] < lo + HALF
  }

  /** And so would the deadline of any timer that were started now. */
  ghost predicate Fits(w: Wheel, now: int, lo: int) {
    && lo <= now && InWindow(w, lo)
    && (forall x {:trigger x in w.timers} :: x in w.timers ==> now + w.timers[x].init < lo + HALF)
  }

  lemma StartInWindow(w: Wheel, t: Id, now: int, lo: int)
    requires Ok(w) && t in w.timers && InWindow(w, lo) && lo <= now + w.timers[t].init < lo + HALF
    ensures InWindow(Timers.Start(w, t, now), lo)
  {
    StartOk(w, t, now);
  }

  lemma FitsApply(w: Wheel, op: Op, now: int, lo: int)
    requires Ok(w) && op.id in w.timers && Fits(w, now, lo)
    ensures Fits(Apply(w, op, now), now, lo)
  {
    if op.StartOp? {
      StartOk(w, op.id, now);
    } else {
      DetachOk(w, op.id);
    }
  }

  function IndexOf(q: seq<Id>, x: Id): (k: nat)
    requires x in q
    ensures k < |q| && q[k] == x
  {
    if q[0] == x then 0 else 1 + IndexOf(q[1..], x)
  }

  class TimerTable {
    var rows: Rows
    var timers: map<Id, Timer>
    var random: nat
    var tmp: seq<Id>
    ghost var due: Due

    ghost function W(): Wheel
      requires |rows| > 0
      reads this
    {
      Wheel(rows[|rows| - 1], timers, due, tmp)
    }

    ghost predicate Valid()
      reads this
    {
      |rows| > 0 && Ok(W()) && RowsOk(rows, due)
    }

    constructor (levels: nat)
      requires levels > 0
      ensures Valid() && |rows| == levels && W() == Wheel([], map[], map[], [])
    {
      rows := seq(levels, _ => []);
      timers, random, tmp, due := map[], 0, [], map[];
    }

    /** rt_timer_init */
    method Init(t: Id, time: nat, periodic: bool)
      requires Valid() && t !in timers
      modifies this`timers, this`due
      ensures Valid() && timers == old(timers)[t := Timer(false, periodic, time, 0)]
      ensures rows == old(rows) && tmp == old(tmp) && due == old(due)[t := 0]
    {
      NewDeadline(rows, due, t, 0);
      NewTimer(W(), t, Timer(false, periodic, time, 0));
      timers := timers[t := Timer(false, periodic, time, 0)];
      due := due[t := 0];
    }

    /** _rt_timer_remove: off every row, and off the temporary list. */
    method Remove(t: Id)
      modifies this`rows, this`tmp
      ensures rows == Removed(old(rows), t) && tmp == Without(old(tmp), t)
    {
      var i := 0;
      while i < |rows|
        invariant 0 <= i <= |rows| == |old(rows)| && tmp == old(tmp)
        invariant forall r :: 0 <= r < i ==> rows[r] == Without(old(rows)[r], t)
        invariant forall r :: i <= r < |rows| ==> rows[r] == old(rows)[r]
      {
        rows := rows[i := Without(rows[i], t)];
        i := i + 1;
      }
      assert rows == Removed(old(rows), t);
      tmp := Without(tmp, t);
    }

    /** One row of the search: on from start, past every timer that is not later. */
    method WalkRow(r: nat, start: nat, timeout: nat, ghost d: int, ghost lo: int) returns (n: nat)
      requires |rows| > 0 && RowsOk(rows, due) && r < |rows| && start <= |rows[r]|
      requires timeout == Wrap(d) && lo <= d < lo + HALF && Readable(W(), lo)
      requires start > 0 ==> due[rows[r][start - 1]] <= d
      ensures RowOk(rows[r], due) && n == Place(due, rows[r], d)
    {
      assert RowOk(rows[r], due);
      n := start;
      while n < |rows[r]| && !InRowLater(r, n, timeout, d, lo)
        invariant start <= n <= |rows[r]|
        invariant n > 0 ==> due[rows[r][n - 1]] <= d
      {
        n := n + 1;
      }
      PlaceUnique(due, rows[r], d, n);
    }

    /** The n-th timer of row r is due later than the tick given. */
    function InRowLater(r: nat, n: nat, timeout: nat, ghost d: int, ghost lo: int): (b: bool)
      requires |rows| > 0 && RowsOk(rows, due) && r < |rows| && n < |rows[r]|
      requires timeout == Wrap(d) && lo <= d < lo + HALF && Readable(W(), lo)
      reads this
      ensures rows[r][n] in due && (b <==> due[rows[r][n]] > d)
    {
      RowInBottom(rows, due, r, rows[r][n]);
      WindowExact(due[rows[r][n]], d);
      Later(timers[rows[r][n]].timeout, timeout)
    }

    /** The search of rt_timer_start, row by row, each from where the row above left off. */
    method FindPlaces(timeout: nat, ghost d: int, ghost lo: int) returns (at: seq<nat>)
      requires |rows| > 0 && RowsOk(rows, due)
      requires timeout == Wrap(d) && lo <= d < lo + HALF && Readable(W(), lo)
      ensures Placed(rows, due, at, d)
    {
      at := [];
      while |at| < |rows|
        invariant |at| <= |rows|
        invariant forall r :: 0 <= r < |at| ==> RowOk(rows[r], due) && at[r] == Place(due, rows[r], d)
      {
        var r := |at|;
        var start := 0;
        if r > 0 && at[r - 1] > 0 {
          var last := rows[r - 1][at[r - 1] - 1];
          SubIn(rows[r - 1], rows[r], last);
          start := IndexOf(rows[r], last) + 1;
        }
        var n := WalkRow(r, start, timeout, d, lo);
        at := at + [n];
      }
    }

    /** rt_timer_start at tick, which stands for the true time now; the new deadline fits the window too. */
    method Start(t: Id, tick: nat, ghost now: int, ghost lo: int)
      requires Valid() && t in timers && tick == Wrap(now)
      requires InWindow(W(), lo) && lo <= now + timers[t].init < lo + HALF
      modifies this
      ensures Valid() && |rows| == |old(rows)| && W() == Timers.Start(old(W()), t, now)
      ensures InWindow(W(), lo)
    {
      ghost var w, d := W(), now + timers[t].init;
      var timeout := AddTicks(tick, timers[t].init, now);
      Relink(t, timeout, d, lo);
      timers := timers[t := timers[t].(active := true, timeout := timeout)];
      due := due[t := d];
      assert W() == Timers.Start(w, t, now);
      assert Ok(W()) by { StartOk(w, t, now); }
      assert InWindow(W(), lo) by { StartInWindow(w, t, now, lo); }
    }

    /** From wherever the timer was to its place for the deadline d. */
    method Relink(t: Id, timeout: nat, ghost d: int, ghost lo: int)
      requires Valid() && t in timers && InWindow(W(), lo)
      requires timeout == Wrap(d) && lo <= d < lo + HALF
      modifies this`rows, this`tmp, this`random
      ensures |rows| == |old(rows)| && RowsOk(rows, due[t := d]) && tmp == Without(old(tmp), t)
      ensures Sorted(due, Without(old(W()).armed, t)) && W().armed == Inserted(due, Without(old(W()).armed, t), t, d)
    {
      ghost var w := W();
      RemovedOk(rows, due, t);
      DetachedReadable(w, t, lo);
      Remove(t);
      assert W() == w.(armed := Without(w.armed, t), tmp := Without(w.tmp, t));
      Enter(t, timeout, d, lo);
    }

    /** Into the rows, for a timer that is on none. */
    method Enter(t: Id, timeout: nat, ghost d: int, ghost lo: int)
      requires |rows| > 0 && RowsOk(rows, due) && Absent(rows, t)
      requires timeout == Wrap(d) && lo <= d < lo + HALF && Readable(W(), lo)
      modifies this`rows, this`random
      ensures |rows| == |old(rows)| && RowsOk(rows, due[t := d])
      ensures RowOk(old(rows)[|rows| - 1], due) && rows[|rows| - 1] == Inserted(due, old(rows)[|rows| - 1], t, d)
    {
      var at := FindPlaces(timeout, d, lo);
      var height := NextHeight();
      Raise(t, at, height, d);
    }

    /** How many rows the insertion counter gives the next timer: two of its bits decide on each. */
    method NextHeight() returns (h: nat)
      requires |rows| > 0
      modifies this`random
      ensures 1 <= h <= |rows|
    {
      random := (random + 1) % 0x1_0000_0000;
      var tst := random;
      h := 1;
      while h < |rows| && tst % 4 == 0
        invariant 1 <= h <= |rows|
      {
        h := h + 1;
        tst := tst / 4;
      }
    }

    /** Link the timer into the lowest rows. */
    method Raise(t: Id, at: seq<nat>, height: nat, ghost d: int)
      requires 1 <= height <= |rows| && RowsOk(rows, due) && Absent(rows, t) && Placed(rows, due, at, d)
      modifies this`rows
      ensures |rows| == |old(rows)| && RowsOk(rows, due[t := d])
      ensures rows[|rows| - 1] == Inserted(due, old(rows)[|rows| - 1], t, d)
    {
      ghost var before := rows;
      var h := 0;
      while h < height
        invariant h <= height && Raised(before, rows, due, t, d, h)
      {
        RaisedMore(before, rows, due, t, d, h, at);
        rows := InsertAt(rows, |rows| - 1 - h, at[|rows| - 1 - h], t);
        h := h + 1;
      }
      RaisedOk(before, rows, due, t, d, h);
    }

    /** rt_timer_detach, and rt_timer_delete up to freeing the timer. */
    method Detach(t: Id)
      requires Valid() && t in timers
      modifies this`rows, this`tmp, this`timers
      ensures Valid() && |rows| == |old(rows)| && W() == Timers.Detach(old(W()), t)
    {
      DetachOk(W(), t);
      RemovedOk(rows, due, t);
      Remove(t);
      timers := timers[t := timers[t].(active := false)];
    }

    /** rt_timer_stop */
    method Stop(t: Id) returns (ok: bool)
      requires Valid() && t in timers
      modifies this`rows, this`tmp, this`timers
      ensures Valid() && |rows| == |old(rows)| && W() == Timers.Stop(old(W()), t)
      ensures ok == old(timers)[t].active
    {
      if !timers[t].active {
        return false;
      }
      Detach(t);
      ok := true;
    }

    method RunOp(op: Op, tick: nat, ghost now: int, ghost lo: int)
      requires Valid() && op.id in timers && tick == Wrap(now) && Fits(W(), now, lo)
      modifies this
      ensures Valid() && |rows| == |old(rows)| && W() == Apply(old(W()), op, now) && Fits(W(), now, lo)
    {
      FitsApply(W(), op, now, lo);
      match op {
        case StartOp(x) => Start(x, tick, now, lo);
        case StopOp(x) => var _ := Stop(x);
        case DetachOp(x) => Detach(x);
      }
    }

    /** What a callback does. */
    method RunOps(ops: seq<Op>, tick: nat, ghost now: int, ghost lo: int)
      requires Valid() && Known(W(), ops) && tick == Wrap(now) && Fits(W(), now, lo)
      modifies this
      ensures Valid() && |rows| == |old(rows)| && W() == ApplyAll(old(W()), ops, now) && Fits(W(), now, lo)
    {
      ghost var w := W();
      var i := 0;
      assert ops[..0] == [];
      while i < |ops|
        invariant 0 <= i <= |ops| && Valid() && Fits(W(), now, lo) && |rows| == |old(rows)|
        invariant W() == ApplyAll(w, ops[..i], now)
      {
        NextOp(w, ops, i, now);
        RunOp(ops[i], tick, now, lo);
        i := i + 1;
      }
      assert ops[..i] == ops;
    }

    /** The first timer fires: off the list, its callback runs, and perhaps it is armed again. */
    method FireFirst(ops: seq<Op>, tick: nat, ghost now: int, ghost lo: int)
      requires Valid() && W().armed != [] && tmp == [] && Known(W(), ops) && tick == Wrap(now) && Fits(W(), now, lo)
      modifies this
      ensures Valid() && |rows| == |old(rows)| && W() == Fire(old(W()), ops, now) && Fits(W(), now, lo)
    {
      ghost var w := W();
      PickOk(w);
      var t := TakeFirst();
      ApplyAllTmp(Pick(w), ops, now);
      RunOps(ops, tick, now, lo);
      Rearm(t, tick, now, lo);
    }

    /** Off the list, on to the temporary one. */
    method TakeFirst() returns (t: Id)
      requires Valid() && W().armed != [] && tmp == []
      modifies this`rows, this`timers, this`tmp
      ensures Valid() && |rows| == |old(rows)| && t == old(W()).armed[0] && W() == Pick(old(W()))
    {
      ghost var w := W();
      t := rows[|rows| - 1][0];
      assert TimerOk(w, t);
      PickRow(w.armed);
      PickTimers(w);
      RemovedOk(rows, due, t);
      Remove(t);
      if !timers[t].periodic {
        timers := timers[t := timers[t].(active := false)];
      }
      tmp := [t];
      assert W() == Pick(w);
      PickOk(w);
    }

    /** After the callback. */
    method Rearm(t: Id, tick: nat, ghost now: int, ghost lo: int)
      requires Valid() && t in timers && (tmp == [] || tmp == [t]) && tick == Wrap(now) && Fits(W(), now, lo)
      modifies this
      ensures Valid() && |rows| == |old(rows)| && W() == Settle(old(W()), t, now) && Fits(W(), now, lo)
    {
      ghost var w := W();
      assert TimerOk(w, t);
      if tmp == [] {
        return;
      }
      tmp := [];
      if timers[t].periodic && timers[t].active {
        timers := timers[t := timers[t].(active := false)];
        assert W() == Dropped(w, t);
        FitsApply(W(), StartOp(t), now, lo);
        Start(t, tick, now, lo);
      } else {
        assert timers == timers[t := timers[t].(active := false)];
        assert W() == Dropped(w, t);
      }
    }

    /** rt_timer_check at one tick, its k-th callback running script(k). */
    method Check(script: nat -> seq<Op>, tick: nat, ghost now: int, ghost lo: int) returns (fired: seq<Id>)
      requires Valid() && Checkable(W(), script) && tick == Wrap(now) && Fits(W(), now, lo)
      modifies this
      ensures Valid() && |rows| == |old(rows)| && Checkable(W(), script)
      ensures W() == Timers.Check(old(W()), script, 0, now) && fired == Fired(old(W()), script, 0, now)
      ensures forall x :: x in W().armed ==> W().due[x] > now
      ensures Sorted(old(due), fired) && NoDup(fired) && forall x :: x in fired ==> x in Late(old(W()), now)
    {
      ghost var w := W();
      fired := [];
      while rows[|rows| - 1] != [] && FirstReached(tick, now, lo)
        invariant Valid() && |rows| == |old(rows)| && Fits(W(), now, lo) && SoFar(w, W(), script, fired, now)
        decreases |Late(W(), now)|
      {
        CheckStep(w, W(), script, fired, now);
        var t := rows[|rows| - 1][0];
        FireFirst(script(|fired|), tick, now, lo);
        fired := fired + [t];
      }
      CheckDone(w, W(), script, fired, now);
    }

    /** The first timer's deadline has come. */
    function FirstReached(tick: nat, ghost now: int, ghost lo: int): (b: bool)
      requires Valid() && rows[|rows| - 1] != [] && tick == Wrap(now) && Fits(W(), now, lo)
      reads this
      ensures b <==> Pending(W(), now)
    {
      var x := rows[|rows| - 1][0];
      assert TimerOk(W(), x);
      assert Near(W(), x, now, lo);
      WindowExact(due[x], now);
      Reached(timers[x].timeout, tick)
    }
  }

  /** Having fired those in fired, the check that began with w has come to w'. */
  ghost predicate SoFar(w: Wheel, w': Wheel, script: nat -> seq<Op>, fired: seq<Id>, now: int) {
    && Checkable(w, script) && Checkable(w', script)
    && Timers.Check(w', script, |fired|, now) == Timers.Check(w, script, 0, now)
    && fired + Fired(w', script, |fired|, now) == Fired(w, script, 0, now)
  }

  lemma CheckUnfold(w: Wheel, script: nat -> seq<Op>, k: nat, now: int)
    requires Checkable(w, script) && Pending(w, now)
    ensures Known(w, script(k))
    ensures var w' := Fire(w, script(k), now);
      && Checkable(w', script) && |Late(w', now)| < |Late(w, now)|
      && Timers.Check(w, script, k, now) == Timers.Check(w', script, k + 1, now)
      && Fired(w, script, k, now) == [w.armed[0]] + Fired(w', script, k + 1, now)
  {
    FireShrinks(w, script(k), now);
    FireCheckable(w, script, k, now);
  }

  lemma CheckStep(w: Wheel, w': Wheel, script: nat -> seq<Op>, fired: seq<Id>, now: int)
    requires SoFar(w, w', script, fired, now) && Pending(w', now)
    ensures Known(w', script(|fired|))
    ensures var next := Fire(w', script(|fired|), now);
      && Checkable(next, script) && |Late(next, now)| < |Late(w', now)|
      && SoFar(w, next, script, fired + [w'.armed[0]], now)
  {
    var k, t := |fired|, w'.armed[0];
    CheckUnfold(w', script, k, now);
    SoFarNext(w, w', Fire(w', script(k), now), script, fired, now);
  }

  lemma SoFarNext(w: Wheel, w': Wheel, next: Wheel, script: nat -> seq<Op>, fired: seq<Id>, now: int)
    requires SoFar(w, w', script, fired, now) && Pending(w', now) && Checkable(next, script)
    requires Timers.Check(w', script, |fired|, now) == Timers.Check(next, script, |fired| + 1, now)
    requires Fired(w', script, |fired|, now) == [w'.armed[0]] + Fired(next, script, |fired| + 1, now)
    ensures SoFar(w, next, script, fired + [w'.armed[0]], now)
  {
    assert |fired + [w'.armed[0]]| == |fired| + 1;
    Shift(fired, w'.armed[0], Fired(next, script, |fired| + 1, now), Fired(w', script, |fired|, now));
  }

  lemma Shift(a: seq<Id>, t: Id, rest: seq<Id>, b: seq<Id>)
    requires b == [t] + rest
    ensures (a + [t]) + rest == a + b
  {
  }

  lemma CheckDone(w: Wheel, w': Wheel, script: nat -> seq<Op>, fired: seq<Id>, now: int)
    requires SoFar(w, w', script, fired, now) && !Pending(w', now)
    ensures w' == Timers.Check(w, script, 0, now) && fired == Fired(w, script, 0, now)
    ensures forall x :: x in w'.armed ==> w'.due[x] > now
    ensures Sorted(w.due, fired) && NoDup(fired) && forall x :: x in fired ==> x in Late(w, now)
  {
    assert fired + [] == fired;
    CheckLeavesNoneLate(w, script, 0, now);
    FiredInOrder(w, script, 0, now);
  }

  lemma NextOp(w: Wheel, ops: seq<Op>, i: nat, now: int)
    requires Ok(w) && Known(w, ops) && i < |ops|
    ensures Known(w, ops[..i]) && Known(w, ops[..i + 1]) && ops[i].id in w.timers
    ensures ApplyAll(w, ops[..i + 1], now) == Apply(ApplyAll(w, ops[..i], now), ops[i], now)
  {
    assert ops[i] in ops && ops[..i + 1][..i] == ops[..i];
  }

  /** First deadline and present time are less than half the counter apart. */
  ghost predicate Near(w: Wheel, x: Id, now: int, lo: int) {
    x in w.armed ==> x in w.due && x in w.timers && 0 - HALF < w.due[x] - now < HALF
  }

  /** What reading the rows of a wheel relies on. */
  ghost predicate Readable(w: Wheel, lo: int) {
    forall x :: x in w.armed ==>
      && x in w.due && lo <= w.due[x] < lo + HALF
      && x in w.timers && w.timers[x].timeout == Wrap(w.due[x])
  }

  lemma DetachedReadable(w: Wheel, t: Id, lo: int)
    requires Ok(w) && t in w.timers && InWindow(w, lo)
    ensures Readable(w.(armed := Without(w.armed, t), tmp := Without(w.tmp, t)), lo)
  {
    forall x | x in Without(w.armed, t)
      ensures x in w.due && lo <= w.due[x] < lo + HALF && x in w.timers && w.timers[x].timeout == Wrap(w.due[x])
    {
      WithoutIn(w.armed, t, x);
      assert TimerOk(w, x);
    }
  }

  /** 32-bit addition of ticks. */
  method AddTicks(tick: nat, init: nat, ghost now: int) returns (r: nat)
    requires tick == Wrap(now)
    ensures r == Wrap(now + init)
  {
    var back: int := 0 - init;
    WrapDifference(now, back);
    WrapDifference(Wrap(now), back);
    r := (tick + init) % 0x1_0000_0000;
  }

  lemma PickRow(q: seq<Id>)
    requires q != [] && NoDup(q)
    ensures Without(q, q[0]) == q[1..]
  {
    assert q[0] !in q[1..];
    WithoutAbsent(q[1..], q[0]);
  }

  lemma PickTimers(w: Wheel)
    requires Ok(w) && w.armed != [] && w.tmp == []
    ensures var t := w.armed[0];
      Pick(w).timers == if w.timers[t].periodic then w.timers else w.timers[t := w.timers[t].(active := false)]
  {
    var t := w.armed[0];
    assert TimerOk(w, t);
    assert w.timers[t := w.timers[t]] == w.timers;
  }
}
