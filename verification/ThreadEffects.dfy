/**
  What each operation of scheduler.c and thread.c does to the record of its thread and to the lists:
  state, error, timer, priority, and the place in the one list that gains the thread.
 */
module ThreadEffects {
  import opened Queues
  import opened Scheduler

  /** Only the record of t has changed, to th. */
  ghost predicate Recorded(s: Sched, s': Sched, t: Tid, th: Thread) {
    s'.thr.Keys == s.thr.Keys + {t} && s'.thr[t] == th && forall x :: x in s.thr && x != t ==> s'.thr[x] == s.thr[x]
  }

  /** Nobody but t has come, gone or changed places. */
  ghost predicate OthersKeepPlace(ls: Lists, ls': Lists, t: Tid) {
    ls'.Keys == ls.Keys && forall l :: l in ls ==> Without(ls'[l], t) == Without(ls[l], t)
  }

  /** Thread t is on no list. */
  ghost predicate Gone(ls: Lists, ls': Lists, t: Tid) {
    OthersKeepPlace(ls, ls', t) && OnNone(ls', t)
  }

  /** Thread t is on list l, once, at place k, and on no other list. */
  ghost predicate Placed(ls: Lists, ls': Lists, t: Tid, l: ListId, k: int) {
    && OthersKeepPlace(ls, ls', t) && (forall m :: On(ls', m, t) <==> m == l)
    && l in ls' && 0 <= k < |ls'[l]| && ls'[l][k] == t && NoDup(ls'[l])
  }

  /** The last place of list l. */
  ghost function Back(ls: Lists, l: ListId): int {
    if l in ls then |ls[l]| - 1 else -1
  }

  lemma WithoutTwice(q: seq<nat>, t: nat)
    ensures Without(Without(q, t), t) == Without(q, t)
  {
    WithoutIn(q, t, t);
    WithoutAbsent(Without(q, t), t);
  }

  lemma UnlinkGone(ls: Lists, t: Tid)
    ensures Gone(ls, Unlink(ls, t), t)
  {
    UnlinkOn(ls, t);
    forall l | l in ls ensures Without(Unlink(ls, t)[l], t) == Without(ls[l], t) {
      WithoutTwice(ls[l], t);
    }
  }

  lemma LinkPlaced(ls: Lists, ls1: Lists, l: ListId, k: nat, t: Tid)
    requires Gone(ls, ls1, t) && l in ls1 && k <= |ls1[l]| && NoDup(ls1[l])
    ensures Placed(ls, Link(ls1, l, k, t), t, l, k)
  {
    var ls2 := Link(ls1, l, k, t);
    LinkOn(ls1, l, k, t);
    assert t !in ls1[l] by { assert !On(ls1, l, t); }
    WithoutInserted(ls1[l], k, t);
    forall m | m in ls ensures Without(ls2[m], t) == Without(ls[m], t) {
    }
  }

  lemma WithoutInserted(q: seq<nat>, k: nat, t: nat)
    requires NoDup(q) && t !in q && k <= |q|
    ensures var r := q[..k] + [t] + q[k..]; NoDup(r) && r[k] == t && Without(r, t) == Without(q, t)
  {
    WithoutMiddle(q[..k], q[k..], t);
    assert q[..k] + q[k..] == q;
  }

  lemma WithoutMiddle(a: seq<nat>, b: seq<nat>, t: nat)
    ensures Without(a + [t] + b, t) == Without(a + b, t)
  {
    assert a + [t] + b == a + ([t] + b);
    assert ([t] + b)[0] == t && ([t] + b)[1..] == b;
    WithoutAppend(a, [t] + b, t);
    WithoutAppend(a, b, t);
  }

  /** Unlinked from wherever it is, with the record th, and inserted. */
  lemma RequeueDoes(s: Sched, t: Tid, th: Thread)
    requires t in s.thr && ListsOk(s.lists) && HasReadyLists(s)
    ensures var r := Insert(s.(thr := s.thr[t := th], lists := Unlink(s.lists, t)), t);
      && Recorded(s, r, t, th.(stat := READY)) && Placed(s.lists, r.lists, t, Ready(th.cur), Back(r.lists, Ready(th.cur)))
  {
    var ls, l := Unlink(s.lists, t), Ready(th.cur);
    UnlinkGone(s.lists, t);
    UnlinkOk(s.lists, t);
    LinkPlaced(s.lists, ls, l, |ls[l]|, t);
  }

  // ----- Insert, remove, yield -----

  /** rt_schedule_insert_thread: READY, and last on the ready list of the current priority. */
  lemma InsertDoes(s: Sched, t: Tid)
    requires Detached(s, t)
    ensures var r, th := Insert(s, t), s.thr[t];
      && Recorded(s, r, t, th.(stat := READY)) && Placed(s.lists, r.lists, t, Ready(th.cur), Back(r.lists, Ready(th.cur)))
  {
    var l := Ready(s.thr[t].cur);
    LinkPlaced(s.lists, s.lists, l, |s.lists[l]|, t);
  }

  /** rt_schedule_remove_thread: off its list; no record changes. */
  lemma RemoveDoes(s: Sched, t: Tid)
    requires InvBut(s, t)
    ensures Remove(s, t).thr == s.thr && Gone(s.lists, Remove(s, t).lists, t)
  {
    UnlinkGone(s.lists, t);
  }

  /** rt_thread_yield: a ready thread that shares its list goes last; otherwise nothing happens. */
  lemma YieldDoes(s: Sched, t: Tid)
    requires Inv(s) && t in s.thr && t !in s.busy
    ensures var r, l := Yield(s, t), Ready(s.thr[t].cur);
      && r.thr == s.thr && r.group == s.group && r.busy == s.busy
      && l in s.lists
      && (s.thr[t].stat == READY && |s.lists[l]| >= 2 ==> Placed(s.lists, r.lists, t, l, |s.lists[l]| - 1))
      && (s.thr[t].stat != READY || |s.lists[l]| < 2 ==> r == s)
  {
    var l := Ready(s.thr[t].cur);
    assert ThreadOk(s, t) && l in s.lists;
    if s.thr[t].stat == READY && |s.lists[l]| >= 2 {
      var ls, q := Unlink(s.lists, t), s.lists[l];
      UnlinkGone(s.lists, t);
      UnlinkOk(s.lists, t);
      LinkPlaced(s.lists, ls, l, |ls[l]|, t);
      var i :| 0 <= i < |q| && q[i] == t;
      WithoutAt(q, i);
    }
  }

  // ----- Suspend, sleep, time out, resume -----

  /** rt_thread_suspend: a ready thread is SUSPENDed, on no list, its timer off; of others nothing changes. */
  lemma SuspendDoes(s: Sched, t: Tid)
    requires Inv(s) && t in s.thr
    ensures var r, th := Suspend(s, t), s.thr[t];
      && (th.stat == READY ==>
            && Recorded(s, r, t, Thread(SUSPEND, th.cur, th.init, th.mask, th.error, false))
            && Gone(s.lists, r.lists, t) && r.busy == s.busy)
      && (th.stat != READY ==> r == s)
  {
    InvGivesInvBut(s, t);
    RemoveDoes(s, t);
  }

  /** rt_thread_sleep: suspended, with the timer armed. */
  lemma ArmDoes(s: Sched, t: Tid)
    requires t in s.thr
    ensures var th := s.thr[t];
      && Recorded(s, Arm(s, t), t, Thread(th.stat, th.cur, th.init, th.mask, th.error, true))
      && Arm(s, t).lists == s.lists && Arm(s, t).group == s.group && Arm(s, t).busy == s.busy
  {
  }

  /** rt_thread_timeout: the thread wakes with ETIMEOUT, last among the ready ones of its priority. */
  lemma TimeoutDoes(s: Sched, t: Tid)
    requires Inv(s) && t in s.thr && s.thr[t].timer
    ensures var r, th := Timeout(s, t), s.thr[t];
      && Recorded(s, r, t, Thread(READY, th.cur, th.init, th.mask, ETIMEOUT, false))
      && Placed(s.lists, r.lists, t, Ready(th.cur), Back(r.lists, Ready(th.cur))) && r.busy == s.busy
  {
    RequeueDoes(s, t, s.thr[t].(error := ETIMEOUT, timer := false));
  }

  /** rt_thread_resume under one lock: a suspended thread goes on with the error it has; others do not change. */
  lemma ResumeDoes(s: Sched, t: Tid)
    requires Inv(s) && t in s.thr
    ensures var r, th := Resume(s, t), s.thr[t];
      && (th.stat == SUSPEND ==>
            && Recorded(s, r, t, Thread(READY, th.cur, th.init, th.mask, th.error, false))
            && Placed(s.lists, r.lists, t, Ready(th.cur), Back(r.lists, Ready(th.cur))) && r.busy == s.busy)
      && (th.stat != SUSPEND ==> r == s)
  {
    if s.thr[t].stat == SUSPEND {
      RequeueDoes(s, t, s.thr[t].(timer := false));
    }
  }

  /** The first section of a resume: on no list, timer off, still suspended. */
  lemma ResumeBeginDoes(s: Sched, t: Tid)
    requires Inv(s) && t in s.thr
    ensures var r, th := ResumeBegin(s, t), s.thr[t];
      && Recorded(s, r, t, Thread(th.stat, th.cur, th.init, th.mask, th.error, false))
      && Gone(s.lists, r.lists, t) && r.group == s.group && r.busy == s.busy[t := Resuming]
  {
    UnlinkGone(s.lists, t);
  }

  /** The last section: READY, and last on its ready list. */
  lemma ResumeEndDoes(s: Sched, t: Tid)
    requires Inv(s) && t in s.busy
    ensures t in s.thr
    ensures var r, th := ResumeEnd(s, t), s.thr[t];
      && Recorded(s, r, t, Thread(READY, th.cur, th.init, th.mask, th.error, th.timer))
      && Placed(s.lists, r.lists, t, Ready(th.cur), Back(r.lists, Ready(th.cur))) && r.busy == s.busy - {t}
  {
    BusyIsDetached(s, t);
    InsertDoes(s.(busy := s.busy - {t}), t);
  }

  // ----- Priority, start, end -----

  /** Changing the priority: a ready thread goes last on the ready list of the new one; any other only notes it. */
  lemma ChangePriorityDoes(s: Sched, t: Tid, p: Prio)
    requires Inv(s) && t in s.thr
    ensures var r, th := ChangePriority(s, t, p), s.thr[t];
      && Recorded(s, r, t, Thread(th.stat, p, th.init, 1 << p, th.error, th.timer)) && r.busy == s.busy
      && (th.stat == READY ==> Placed(s.lists, r.lists, t, Ready(p), Back(r.lists, Ready(p))))
      && (th.stat != READY ==> r.lists == s.lists && r.group == s.group)
  {
    InvGivesInvBut(s, t);
    if s.thr[t].stat == READY {
      var s1 := Remove(s, t);
      RemoveDoes(s, t);
      UnlinkOk(s.lists, t);
      var l := Ready(p);
      LinkPlaced(s.lists, s1.lists, l, |s1.lists[l]|, t);
    }
  }

  /** rt_thread_startup up to the unlock of its resume: the thread takes on its initial priority. */
  lemma StartupBeginDoes(s: Sched, t: Tid)
    requires Inv(s) && t in s.thr
    ensures var r, th := StartupBegin(s, t), s.thr[t];
      && Recorded(s, r, t, Thread(SUSPEND, th.init, th.init, 1 << th.init, th.error, false))
      && Gone(s.lists, r.lists, t) && r.group == s.group && r.busy == s.busy[t := Resuming]
  {
    UnlinkGone(s.lists, t);
  }

  /** Closed: a dynamic thread is first on the defunct list, a static one on no list; the timer is off. */
  ghost predicate Closed(s: Sched, r: Sched, t: Tid, dynamic: bool)
    requires t in s.thr
  {
    var th := s.thr[t];
    && Recorded(s, r, t, Thread(CLOSE, th.cur, th.init, th.mask, th.error, false))
    && (dynamic ==> Placed(s.lists, r.lists, t, Defunct, 0))
    && (!dynamic ==> Gone(s.lists, r.lists, t))
  }

  lemma ExitDoes(s: Sched, t: Tid, dynamic: bool)
    requires Inv(s) && t in s.thr
    ensures Closed(s, Exit(s, t, dynamic), t, dynamic) && Exit(s, t, dynamic).busy == s.busy
  {
    UnlinkGone(s.lists, t);
    UnlinkOk(s.lists, t);
    if dynamic {
      LinkPlaced(s.lists, Unlink(s.lists, t), Defunct, 0, t);
    }
  }

  /** The first section of a delete or detach: off its list; no record changes. */
  lemma CloseBeginDoes(s: Sched, t: Tid)
    requires Inv(s) && t in s.thr
    ensures var r := CloseBegin(s, t); r.thr == s.thr && Gone(s.lists, r.lists, t) && r.busy == s.busy[t := Closing]
  {
    InvGivesInvBut(s, t);
    RemoveDoes(s, t);
  }

  lemma CloseEndDoes(s: Sched, t: Tid, dynamic: bool)
    requires Inv(s) && t in s.busy
    ensures t in s.thr && Closed(s, CloseEnd(s, t, dynamic), t, dynamic)
    ensures CloseEnd(s, t, dynamic).group == s.group && CloseEnd(s, t, dynamic).busy == s.busy - {t}
  {
    BusyIsDetached(s, t);
    if dynamic {
      LinkPlaced(s.lists, s.lists, Defunct, 0, t);
    }
  }
}
