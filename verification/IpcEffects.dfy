/**
  What each locked section of rt-thread/kernel/src/ipc.c answers and does, branch by branch: counts,
  owners, records, queues and the history.
 */
module IpcEffects {
  import opened Wrappers
  import opened Queues
  import opened Scheduler
  import opened ThreadEffects
  import opened Ipc

  // ----- Waiting -----

  /** Where t belongs in wait queue q: last, or, by priority, behind all that are as urgent and before the first that is less. */
  ghost predicate Belongs(thr: map<Tid, Thread>, q: seq<Tid>, t: Tid, byPriority: bool, k: nat) {
    && t in thr && k <= |q| && (forall x :: x in q ==> x in thr)
    && (!byPriority ==> k == |q|)
    && (byPriority ==>
          && (forall i :: 0 <= i < k ==> thr[q[i]].cur <= thr[t].cur)
          && (k < |q| ==> thr[t].cur < thr[q[k]].cur))
  }

  /** Suspended on a wait queue, at the place where it belongs, with the timer armed exactly if the wait is timed. */
  ghost predicate Waits(s: Sched, r: Sched, t: Tid, obj: nat, byPriority: bool, timed: bool)
    requires t in s.thr && Wait(obj) in s.lists
  {
    var th := s.thr[t];
    && Recorded(s, r, t, Thread(SUSPEND, th.cur, th.init, th.mask, th.error, timed)) && r.busy == s.busy
    && exists k: nat :: Belongs(s.thr, s.lists[Wait(obj)], t, byPriority, k) && Placed(s.lists, r.lists, t, Wait(obj), k)
  }

  lemma JoinBelongs(thr: map<Tid, Thread>, thr1: map<Tid, Thread>, q: seq<Tid>, t: Tid, byPriority: bool)
    requires t in thr && t in thr1 && thr1[t].cur == thr[t].cur
    requires forall i :: 0 <= i < |q| ==> q[i] in thr && q[i] in thr1 && thr1[q[i]].cur == thr[q[i]].cur
    ensures Belongs(thr, q, t, byPriority, JoinAt(thr1, q, t, byPriority))
  {
  }

  /** rt_ipc_list_suspend */
  lemma BlockDoes(s: Sched, t: Tid, obj: nat, byPriority: bool, timed: bool)
    requires Inv(s) && CanRun(s, t) && Wait(obj) in s.lists
    ensures Waits(s, Block(s, t, obj, byPriority, timed), t, obj, byPriority, timed)
  {
    SuspendDoes(s, t);
    SuspendWaits(s, t);
    var s1, q := Suspend(s, t), s.lists[Wait(obj)];
    assert Inv(s1) by { SuspendInv(s, t); }
    assert forall i :: 0 <= i < |q| ==> q[i] in s1.thr by { QueueKnown(s1, obj); }
    JoinBelongs(s.thr, s1.thr, q, t, byPriority);
    BlockPlaces(s, s1, t, obj, JoinAt(s1.thr, q, t, byPriority));
  }

  lemma BlockPlaces(s: Sched, s1: Sched, t: Tid, obj: nat, k: nat)
    requires Inv(s1) && Gone(s.lists, s1.lists, t) && Wait(obj) in s1.lists && k <= |s1.lists[Wait(obj)]|
    ensures Placed(s.lists, Link(s1.lists, Wait(obj), k, t), t, Wait(obj), k)
  {
    LinkPlaced(s.lists, s1.lists, Wait(obj), k, t);
  }

  /** rt_thread_sleep */
  lemma SleepDoes(s: Sched, t: Tid)
    requires Inv(s) && CanRun(s, t)
    ensures var r, th := Sleep(s, t), s.thr[t];
      && Recorded(s, r, t, Thread(SUSPEND, th.cur, th.init, th.mask, th.error, true))
      && Gone(s.lists, r.lists, t) && r.busy == s.busy
  {
    SuspendDoes(s, t);
  }

  /** rt_thread_idle_excute: the thread that became defunct last is forgotten. */
  lemma ReapDoes(s: Sched)
    requires Inv(s) && s.lists[Defunct] != []
    ensures var r, t := Reap(s), s.lists[Defunct][0];
      r.thr == s.thr - {t} && Gone(s.lists, r.lists, t) && r.group == s.group && r.busy == s.busy
  {
    UnlinkGone(s.lists, s.lists[Defunct][0]);
  }

  // ----- Waking -----

  /** A waiter goes on with error e: READY, timer off, last among the ready ones of its priority. */
  ghost predicate Woken(s: Sched, r: Sched, t: Tid, e: Err)
    requires t in s.thr
  {
    var th := s.thr[t];
    && Recorded(s, r, t, Thread(READY, th.cur, th.init, th.mask, e, false)) && r.busy == s.busy
    && Placed(s.lists, r.lists, t, Ready(th.cur), Back(r.lists, Ready(th.cur)))
  }

  /** rt_ipc_list_resume: the first waiter goes on with the error it has. */
  lemma WakeHeadDoes(s: Sched, obj: nat)
    requires Inv(s) && Wait(obj) in s.lists && s.lists[Wait(obj)] != []
    ensures var t := s.lists[Wait(obj)][0]; t in s.thr && Woken(s, WakeHead(s, obj), t, s.thr[t].error)
  {
    QueueKnown(s, obj);
    ResumeDoes(s, s.lists[Wait(obj)][0]);
  }

  lemma WakeFirstDoes(s: Sched, obj: nat, e: Err)
    requires Inv(s) && Wait(obj) in s.lists && s.lists[Wait(obj)] != []
    ensures var t := s.lists[Wait(obj)][0]; t in s.thr && Woken(s, WakeFirst(s, obj, e), t, e)
  {
    QueueKnown(s, obj);
    var t := s.lists[Wait(obj)][0];
    assert ThreadOk(s, t);
    SetQuietInv(s, t, s.thr[t].(error := e));
    ResumeDoes(SetThread(s, t, s.thr[t].(error := e)), t);
  }

  /** Those of q that have priority p, in the order of q. */
  ghost function OfPriority(thr: map<Tid, Thread>, q: seq<Tid>, p: Prio): seq<Tid>
    requires forall x :: x in q ==> x in thr
  {
    if q == [] then []
    else if thr[q[0]].cur == p then [q[0]] + OfPriority(thr, q[1..], p)
    else OfPriority(thr, q[1..], p)
  }

  /** Everybody in q goes on with ERROR; nobody else notices. */
  ghost predicate RecordsWoken(thr: map<Tid, Thread>, thr': map<Tid, Thread>, q: seq<Tid>) {
    && thr'.Keys == thr.Keys
    && forall x :: x in thr ==>
         thr'[x] == if x in q then Thread(READY, thr[x].cur, thr[x].init, thr[x].mask, ERROR, false) else thr[x]
  }

  /** Queue q is empty, and its threads are behind those that were ready, in the order in which they waited. */
  ghost predicate QueueWoken(thr: map<Tid, Thread>, ls: Lists, ls': Lists, obj: nat, q: seq<Tid>)
    requires forall x :: x in q ==> x in thr
  {
    && ls'.Keys == ls.Keys && Wait(obj) in ls' && ls'[Wait(obj)] == []
    && (forall p: Prio :: Ready(p) in ls ==> ls'[Ready(p)] == ls[Ready(p)] + OfPriority(thr, q, p))
    && (forall l :: l in ls && !l.Ready? && l != Wait(obj) ==> ls'[l] == ls[l])
  }

  ghost predicate AllWoken(s: Sched, r: Sched, obj: nat)
    requires Wait(obj) in s.lists && forall x :: x in s.lists[Wait(obj)] ==> x in s.thr
  {
    var q := s.lists[Wait(obj)];
    RecordsWoken(s.thr, r.thr, q) && QueueWoken(s.thr, s.lists, r.lists, obj, q) && r.busy == s.busy
  }

  /** One waiter less, seen list by list: t has gone from the front of its queue to the back of list c. */
  ghost predicate OneLess(ls: Lists, ls': Lists, obj: nat, c: ListId, t: Tid)
    requires Wait(obj) in ls && ls[Wait(obj)] != []
  {
    && ls'.Keys == ls.Keys && ls'[Wait(obj)] == ls[Wait(obj)][1..]
    && c in ls && ls'[c] == ls[c] + [t]
    && forall l :: l in ls && l != Wait(obj) && l != c ==> ls'[l] == ls[l]
  }

  lemma WokenLists(ls: Lists, ls': Lists, obj: nat, c: ListId, t: Tid)
    requires ListsOk(ls) && Wait(obj) in ls && ls[Wait(obj)] != [] && t == ls[Wait(obj)][0] && c.Ready?
    requires Placed(ls, ls', t, c, Back(ls', c))
    ensures OneLess(ls, ls', obj, c, t)
  {
    var q := ls[Wait(obj)];
    assert On(ls, Wait(obj), t);
    forall l | l in ls && l != Wait(obj) ensures Without(ls[l], t) == ls[l] {
      assert !On(ls, l, t);
      WithoutAbsent(ls[l], t);
    }
    forall l | l in ls && l != c ensures Without(ls'[l], t) == ls'[l] {
      assert !On(ls', l, t);
      WithoutAbsent(ls'[l], t);
    }
    WithoutAt(q, 0);
    assert q[..0] + q[1..] == q[1..];
    LastOff(ls'[c], t);
  }

  lemma LastOff(q: seq<nat>, t: nat)
    requires NoDup(q) && q != [] && q[|q| - 1] == t
    ensures q == Without(q, t) + [t]
  {
    WithoutAt(q, |q| - 1);
    assert q == q[..|q| - 1] + [t] && q[|q|..] == [];
  }

  lemma {:induction false} OfPrioritySame(thr: map<Tid, Thread>, thr': map<Tid, Thread>, q: seq<Tid>, p: Prio)
    requires forall x :: x in q ==> x in thr && x in thr' && thr'[x].cur == thr[x].cur
    ensures OfPriority(thr', q, p) == OfPriority(thr, q, p)
  {
    if q != [] {
      assert q[0] in q;
      OfPrioritySame(thr, thr', q[1..], p);
    }
  }

  /** rt_ipc_list_resume_all */
  lemma {:induction false} WakeAllDoes(s: Sched, obj: nat)
    requires Inv(s) && Wait(obj) in s.lists
    ensures forall x :: x in s.lists[Wait(obj)] ==> x in s.thr
    ensures AllWoken(s, WakeAll(s, obj), obj)
    decreases |s.lists[Wait(obj)]|
  {
    QueueKnown(s, obj);
    var q := s.lists[Wait(obj)];
    if q != [] {
      var s1 := WakeFirst(s, obj, ERROR);
      WakeFirstInv(s, obj, ERROR);
      WakeFirstDoes(s, obj, ERROR);
      WokenLists(s.lists, s1.lists, obj, Ready(s.thr[q[0]].cur), q[0]);
      WakeAllDoes(s1, obj);
      AllWokenMore(s, s1, WakeAll(s, obj), obj);
    }
  }

  lemma AllWokenMore(s: Sched, s1: Sched, r: Sched, obj: nat)
    requires Wait(obj) in s.lists && s.lists[Wait(obj)] != [] && NoDup(s.lists[Wait(obj)])
    requires forall x :: x in s.lists[Wait(obj)] ==> x in s.thr
    requires var t := s.lists[Wait(obj)][0]; var th := s.thr[t];
      && Recorded(s, s1, t, Thread(READY, th.cur, th.init, th.mask, ERROR, false)) && s1.busy == s.busy
      && OneLess(s.lists, s1.lists, obj, Ready(th.cur), t)
    requires (forall x :: x in s1.lists[Wait(obj)] ==> x in s1.thr) && AllWoken(s1, r, obj)
    ensures AllWoken(s, r, obj)
  {
    var q := s.lists[Wait(obj)];
    assert q[0] !in q[1..] && q == [q[0]] + q[1..];
    RecordsWokenMore(s.thr, s1.thr, r.thr, q);
    QueueWokenMore(s.thr, s1.thr, s.lists, s1.lists, r.lists, obj, q);
  }

  lemma RecordsWokenMore(thr: map<Tid, Thread>, thr1: map<Tid, Thread>, thr': map<Tid, Thread>, q: seq<Tid>)
    requires q != [] && q[0] !in q[1..] && q[0] in thr && thr1.Keys == thr.Keys && RecordsWoken(thr1, thr', q[1..])
    requires thr1[q[0]] == Thread(READY, thr[q[0]].cur, thr[q[0]].init, thr[q[0]].mask, ERROR, false)
    requires forall x :: x in thr && x != q[0] ==> thr1[x] == thr[x]
    ensures RecordsWoken(thr, thr', q)
  {
    assert q == [q[0]] + q[1..];
  }

  lemma QueueWokenMore(thr: map<Tid, Thread>, thr1: map<Tid, Thread>, ls: Lists, ls1: Lists, ls': Lists, obj: nat, q: seq<Tid>)
    requires q != [] && (forall x :: x in q ==> x in thr && x in thr1 && thr1[x].cur == thr[x].cur)
    requires ls1.Keys == ls.Keys && (forall x :: x in q[1..] ==> x in thr1) && QueueWoken(thr1, ls1, ls', obj, q[1..])
    requires var c := Ready(thr[q[0]].cur);
      && c in ls && ls1[c] == ls[c] + [q[0]] && forall l :: l in ls && l != Wait(obj) && l != c ==> ls1[l] == ls[l]
    ensures QueueWoken(thr, ls, ls', obj, q)
  {
    forall p: Prio | Ready(p) in ls ensures ls'[Ready(p)] == ls[Ready(p)] + OfPriority(thr, q, p) {
      OfPrioritySame(thr, thr1, q[1..], p);
      OfPriorityFirst(thr, q, p, ls[Ready(p)]);
    }
  }

  lemma OfPriorityFirst(thr: map<Tid, Thread>, q: seq<Tid>, p: Prio, before: seq<Tid>)
    requires q != [] && forall x :: x in q ==> x in thr
    ensures before + OfPriority(thr, q, p) ==
      (if thr[q[0]].cur == p then before + [q[0]] else before) + OfPriority(thr, q[1..], p)
  {
    var tail := OfPriority(thr, q[1..], p);
    assert before + [q[0]] + tail == before + ([q[0]] + tail);
  }

  // ----- rt_mutex_take -----

  /** Only the error of t has changed, to e. */
  ghost predicate ErrorOnly(s: Sched, r: Sched, t: Tid, e: Err)
    requires t in s.thr
  {
    var th := s.thr[t];
    && Recorded(s, r, t, Thread(th.stat, th.cur, th.init, th.mask, e, th.timer))
    && r.lists == s.lists && r.group == s.group && r.busy == s.busy
  }

  /** Thread o has priority p, and is last among the ready ones of that priority if it is ready. */
  ghost predicate Reprioritised(s: Sched, r: Sched, o: Tid, p: Prio)
    requires o in s.thr
  {
    var oh := s.thr[o];
    && Recorded(s, r, o, Thread(oh.stat, p, oh.init, 1 << p, oh.error, oh.timer)) && r.busy == s.busy
    && (oh.stat == READY ==> Placed(s.lists, r.lists, o, Ready(p), Back(r.lists, Ready(p))))
    && (oh.stat != READY ==> r.lists == s.lists && r.group == s.group)
  }

  /** Raised to p, if that is more urgent. */
  ghost predicate Raised(s: Sched, r: Sched, o: Tid, p: Prio)
    requires o in s.thr
  {
    if p < s.thr[o].cur then Reprioritised(s, r, o, p) else r == s
  }

  /** Set back to p, if that is another priority. */
  ghost predicate SetBack(s: Sched, r: Sched, o: Tid, p: Prio)
    requires o in s.thr
  {
    if p != s.thr[o].cur then Reprioritised(s, r, o, p) else r == s
  }

  lemma ErrorDoes(s: Sched, t: Tid, e: Err)
    requires t in s.thr
    ensures ErrorOnly(s, WithError(s, t, e), t, e)
  {
  }

  /** The owner takes again: hold counts one more; at 255 holds it is refused, and nothing is taken. */
  lemma TakeAgainDoes(k: Kernel, t: Tid, m: nat, time: int)
    requires KInv(k) && Acts(k, t) && m in k.mtx && k.mtx[m].owner == Some(t)
    ensures var (k', r), mu := MutexTake(k, t, m, time), k.mtx[m];
      && ErrorOnly(k.s, k'.s, t, EOK) && k'.sem == k.sem
      && (mu.hold < 255 ==>
            && r == OK && k'.mtx == k.mtx[m := Mutex(mu.value, mu.hold + 1, mu.owner, mu.orig, mu.prioFlag)]
            && k'.log == k.log + [Reacquired(m, t)])
      && (mu.hold == 255 ==> r == FULL && k'.mtx == k.mtx && k'.log == k.log)
  {
  }

  /** A free mutex: the caller owns it once, and its present priority is noted. */
  lemma TakeFreeDoes(k: Kernel, t: Tid, m: nat, time: int)
    requires KInv(k) && Acts(k, t) && m in k.mtx && k.mtx[m].owner.None?
    ensures var (k', r) := MutexTake(k, t, m, time);
      && ErrorOnly(k.s, k'.s, t, EOK) && k'.sem == k.sem && r == OK
      && k'.mtx == k.mtx[m := Mutex(0, 1, Some(t), k.s.thr[t].cur, k.mtx[m].prioFlag)]
      && k'.log == k.log + [Acquired(m, t, k.s.thr[t].cur)]
  {
    assert MutexOk(k, m);
  }

  /** Another's mutex and no time: ETIMEOUT at once, and nothing is taken. */
  lemma TakeRefusedDoes(k: Kernel, t: Tid, m: nat)
    requires KInv(k) && Acts(k, t) && m in k.mtx && k.mtx[m].owner.Some? && k.mtx[m].owner != Some(t)
    ensures var (k', r) := MutexTake(k, t, m, 0);
      && ErrorOnly(k.s, k'.s, t, ETIMEOUT) && k'.mtx == k.mtx && k'.sem == k.sem && k'.log == k.log && r == TIMEDOUT
  {
    assert MutexOk(k, m);
  }

  /** Another's mutex and time: the owner is raised to the caller's priority, and the caller waits with error EOK. */
  lemma TakeWaitsDoes(k: Kernel, t: Tid, m: nat, time: int)
    requires KInv(k) && Acts(k, t) && m in k.mtx && k.mtx[m].owner.Some? && k.mtx[m].owner != Some(t) && time != 0
    ensures var (k', r), o, p := MutexTake(k, t, m, time), k.mtx[m].owner.value, k.s.thr[t].cur;
      && k'.mtx == k.mtx && k'.sem == k.sem && k'.log == k.log + [Blocked(t)] && r == BLOCKED
      && exists s0: Sched, s1: Sched ::
           && ErrorOnly(k.s, s0, t, EOK) && o in s0.thr && Raised(s0, s1, o, p)
           && t in s1.thr && Wait(m) in s1.lists && Waits(s1, k'.s, t, m, k.mtx[m].prioFlag, time > 0)
  {
    var mu := k.mtx[m];
    var o, p := mu.owner.value, k.s.thr[t].cur;
    assert mu.value == 0 && Wait(m) in k.s.lists && Alive(k.s, o) by { assert MutexOk(k, m); }
    var s0 := WithError(k.s, t, EOK);
    assert Inv(s0) by { WithErrorInv(k.s, t, EOK); }
    ErrorDoes(k.s, t, EOK);
    var s1 := Boost(s0, t, o);
    BoostInv(s0, t, o);
    BoostDoes(s0, t, o);
    BlockDoes(s1, t, m, mu.prioFlag, time > 0);
  }

  lemma BoostDoes(s: Sched, t: Tid, o: Tid)
    requires Inv(s) && t in s.thr && o in s.thr
    ensures Raised(s, Boost(s, t, o), o, s.thr[t].cur)
  {
    if s.thr[t].cur < s.thr[o].cur {
      ChangePriorityDoes(s, o, s.thr[t].cur);
    }
  }

  // ----- rt_mutex_release -----

  /** Not the owner: an error, and nothing is released. */
  lemma ReleaseRefusedDoes(k: Kernel, t: Tid, m: nat)
    requires KInv(k) && Acts(k, t) && m in k.mtx && k.mtx[m].owner != Some(t)
    ensures var (k', r) := MutexRelease(k, t, m);
      && ErrorOnly(k.s, k'.s, t, ERROR) && k'.mtx == k.mtx && k'.sem == k.sem && k'.log == k.log && r == REFUSED
  {
  }

  /** One of several holds: hold counts one less, and nothing else changes. */
  lemma ReleaseOneDoes(k: Kernel, t: Tid, m: nat)
    requires KInv(k) && Acts(k, t) && m in k.mtx && k.mtx[m].owner == Some(t) && k.mtx[m].hold > 1
    ensures var (k', r), mu := MutexRelease(k, t, m), k.mtx[m];
      && k'.s == k.s && k'.mtx == k.mtx[m := Mutex(mu.value, mu.hold - 1, mu.owner, mu.orig, mu.prioFlag)]
      && k'.sem == k.sem && k'.log == k.log + [Released(m, t)] && r == OK
  {
  }

  /** The last hold, nobody waiting: the mutex is free, and the owner has the priority it had when it took it. */
  lemma ReleaseLastDoes(k: Kernel, t: Tid, m: nat)
    requires KInv(k) && Acts(k, t) && m in k.mtx && k.mtx[m].owner == Some(t) && k.mtx[m].hold == 1
    requires Wait(m) in k.s.lists && k.s.lists[Wait(m)] == []
    ensures var (k', r), mu := MutexRelease(k, t, m), k.mtx[m];
      && SetBack(k.s, k'.s, t, mu.orig) && k'.mtx == k.mtx[m := Mutex(1, 0, None, mu.orig, mu.prioFlag)]
      && k'.sem == k.sem && k'.log == k.log + [Released(m, t)] && r == OK
  {
    assert k.mtx[m].value == 0 by { assert MutexOk(k, m); }
    ReleaseFreesIs(k, t, m);
    RestoreDoes(k.s, t, k.mtx[m].orig);
  }

  lemma RestoreDoes(s: Sched, t: Tid, p: Prio)
    requires Inv(s) && t in s.thr
    ensures SetBack(s, Restore(s, t, p), t, p)
  {
    if p != s.thr[t].cur {
      ChangePriorityDoes(s, t, p);
    }
  }

  /** The last hold, somebody waiting: so, and the first waiter owns the mutex once and goes on with the error it has. */
  lemma ReleasePassesDoes(k: Kernel, t: Tid, m: nat)
    requires KInv(k) && Acts(k, t) && m in k.mtx && k.mtx[m].owner == Some(t) && k.mtx[m].hold == 1
    requires Wait(m) in k.s.lists && k.s.lists[Wait(m)] != []
    ensures var (k', r), mu, w := MutexRelease(k, t, m), k.mtx[m], k.s.lists[Wait(m)][0];
      && w in k.s.thr && k'.mtx == k.mtx[m := Mutex(0, 1, Some(w), k.s.thr[w].cur, mu.prioFlag)] && k'.sem == k.sem
      && k'.log == k.log + [Released(m, t)] + [Acquired(m, w, k.s.thr[w].cur)] && r == OK
      && exists s1: Sched ::
           SetBack(k.s, s1, t, mu.orig) && w in s1.thr && s1.thr[w] == k.s.thr[w] && Woken(s1, k'.s, w, k.s.thr[w].error)
  {
    var mu := k.mtx[m];
    assert mu.value == 0 by { assert MutexOk(k, m); }
    var s1, w := Restore(k.s, t, mu.orig), k.s.lists[Wait(m)][0];
    ReleasePassesIs(k, t, m);
    assert SetBack(k.s, s1, t, mu.orig) by { RestoreDoes(k.s, t, mu.orig); }
    assert w in k.s.thr && w != t by { QueueKnown(k.s, m); }
    assert s1.thr[w] == k.s.thr[w] by { RestoreInv(k.s, t, mu.orig); }
    assert Woken(s1, WakeHead(s1, m), w, s1.thr[w].error) by { WakeHeadDoes(s1, m); }
  }

  lemma ReleasePassesIs(k: Kernel, t: Tid, m: nat)
    requires KInv(k) && Acts(k, t) && m in k.mtx && k.mtx[m].owner == Some(t) && k.mtx[m].hold == 1 && k.mtx[m].value == 0
    requires Wait(m) in k.s.lists && k.s.lists[Wait(m)] != []
    ensures var s1, w := Restore(k.s, t, k.mtx[m].orig), k.s.lists[Wait(m)][0];
      && Inv(s1) && Wait(m) in s1.lists && s1.lists[Wait(m)] == k.s.lists[Wait(m)] && w in s1.thr
      && MutexRelease(k, t, m) ==
           (HandOff(k, s1, t, m, Mutex(0, 1, Some(w), s1.thr[w].cur, k.mtx[m].prioFlag)), OK)
  {
    RestoreInv(k.s, t, k.mtx[m].orig);
    QueueKnown(Restore(k.s, t, k.mtx[m].orig), m);
  }

  // ----- Semaphores -----

  /** A unit is there: the caller has it, there is one less, and the caller's record does not change. */
  lemma SemTakesDoes(k: Kernel, t: Tid, x: nat, time: int)
    requires KInv(k) && Acts(k, t) && x in k.sem && k.sem[x].value > 0
    ensures var (k', r), sm := SemTake(k, t, x, time), k.sem[x];
      && k'.s == k.s && k'.mtx == k.mtx && k'.sem == k.sem[x := Sem(sm.value - 1, sm.prioFlag)]
      && k'.log == k.log + [SemGranted(x)] && r == OK
  {
    assert SemOk(k, x);
  }

  /** None is there and no time: ETIMEOUT, and nothing changes at all. */
  lemma SemRefusedDoes(k: Kernel, t: Tid, x: nat)
    requires KInv(k) && Acts(k, t) && x in k.sem && k.sem[x].value == 0
    ensures SemTake(k, t, x, 0) == (k, TIMEDOUT)
  {
    assert SemOk(k, x);
  }

  /** None is there and time: the caller waits, with error EOK. */
  lemma SemWaitsDoes(k: Kernel, t: Tid, x: nat, time: int)
    requires KInv(k) && Acts(k, t) && x in k.sem && k.sem[x].value == 0 && time != 0
    ensures var (k', r) := SemTake(k, t, x, time);
      && k'.mtx == k.mtx && k'.sem == k.sem && k'.log == k.log + [Blocked(t)] && r == BLOCKED
      && exists s0: Sched ::
           && ErrorOnly(k.s, s0, t, EOK) && Wait(x) in s0.lists && Waits(s0, k'.s, t, x, k.sem[x].prioFlag, time > 0)
  {
    assert Wait(x) in k.s.lists by { assert SemOk(k, x); }
    var s0 := WithError(k.s, t, EOK);
    WithErrorInv(k.s, t, EOK);
    ErrorDoes(k.s, t, EOK);
    BlockDoes(s0, t, x, k.sem[x].prioFlag, time > 0);
  }

  /** Somebody waits: the first waiter goes on with the error it has, and the value stays. */
  lemma SemPassesDoes(k: Kernel, x: nat)
    requires KInv(k) && x in k.sem && Wait(x) in k.s.lists && k.s.lists[Wait(x)] != []
    ensures var (k', r), w := SemRelease(k, x), k.s.lists[Wait(x)][0];
      && k'.mtx == k.mtx && k'.sem == k.sem && k'.log == k.log + [SemReleased(x)] + [SemGranted(x)] && r == OK
      && w in k.s.thr && Woken(k.s, k'.s, w, k.s.thr[w].error)
  {
    assert SemOk(k, x);
    WakeHeadDoes(k.s, x);
  }

  /** Nobody waits: there is one unit more; at 65535 the release is refused and nothing changes. */
  lemma SemReleasesDoes(k: Kernel, x: nat)
    requires KInv(k) && x in k.sem && Wait(x) in k.s.lists && k.s.lists[Wait(x)] == []
    ensures var (k', r), sm := SemRelease(k, x), k.sem[x];
      && (sm.value < 65535 ==>
            && k'.s == k.s && k'.mtx == k.mtx && k'.sem == k.sem[x := Sem(sm.value + 1, sm.prioFlag)]
            && k'.log == k.log + [SemReleased(x)] && r == OK)
      && (sm.value >= 65535 ==> k' == k && r == FULL)
  {
    assert SemOk(k, x);
  }

  /** Reset: everybody goes on with ERROR, and the value is the given one, cut to 16 bits. */
  lemma SemResetDoes(k: Kernel, x: nat, v: nat)
    requires KInv(k) && x in k.sem
    ensures Wait(x) in k.s.lists && (forall w :: w in k.s.lists[Wait(x)] ==> w in k.s.thr)
    ensures var k' := SemReset(k, x, v);
      && AllWoken(k.s, k'.s, x) && k'.mtx == k.mtx && k'.sem == k.sem[x := Sem(v % 0x10000, k.sem[x].prioFlag)]
      && k'.log == k.log + [SemSet(x, v % 0x10000)]
  {
    assert SemOk(k, x);
    WakeAllDoes(k.s, x);
  }

  // ----- New objects -----

  /** A new mutex is free, a new semaphore has the units given, a new thread waits to be started; nothing else changes. */
  lemma NewDoes(k: Kernel, st: Step)
    requires KInv(k) && Allowed(k, st) && (st.NewMutex? || st.NewSem? || st.NewQueue? || st.NewThread?)
    ensures var k' := Do(k, st);
      && (st.NewMutex? ==> exists p: Prio :: k'.mtx == k.mtx[st.m := Mutex(1, 0, None, p, st.prioFlag)])
      && (st.NewSem? ==> k'.sem == k.sem[st.x := Sem(st.v, st.prioFlag)] && k'.log == k.log + [SemSet(st.x, st.v)])
      && (st.NewThread? ==>
            Recorded(k.s, k'.s, st.t, Thread(INIT, st.p, st.p, 0, EOK, false)) && k'.s.lists == k.s.lists)
      && (!st.NewThread? ==>
            && k'.s.thr == k.s.thr
            && k'.s.lists == k.s.lists[Wait(if st.NewMutex? then st.m else if st.NewSem? then st.x else st.obj) := []])
      && (!st.NewMutex? ==> k'.mtx == k.mtx) && (!st.NewSem? ==> k'.sem == k.sem && k'.log == k.log)
      && k'.s.group == k.s.group && k'.s.busy == k.s.busy
  {
  }

  // ----- Steps of the thread layer -----

  /** Which operation a step of the thread layer is, by what it does. */
  ghost predicate ThreadEffect(s: Sched, r: Sched, st: Step)
    requires ThreadStep(st) && (!st.IdleReap? ==> st.t in s.thr)
  {
    match st
    case StartBegin(t) =>
      var th := s.thr[t];
      && Recorded(s, r, t, Thread(SUSPEND, th.init, th.init, 1 << th.init, th.error, false))
      && Gone(s.lists, r.lists, t) && r.busy == s.busy[t := Resuming]
    case ThreadSuspend(t) =>
      var th := s.thr[t];
      if th.stat == READY
      then Recorded(s, r, t, Thread(SUSPEND, th.cur, th.init, th.mask, th.error, false)) && Gone(s.lists, r.lists, t)
      else r == s
    case ReadyBegin(t) =>
      var th := s.thr[t];
      if th.stat == SUSPEND
      then Recorded(s, r, t, Thread(SUSPEND, th.cur, th.init, th.mask, th.error, false))
           && Gone(s.lists, r.lists, t) && r.busy == s.busy[t := Resuming]
      else r == s
    case ReadyEnd(t) => Woken(s.(busy := s.busy - {t}), r, t, s.thr[t].error)
    case ThreadSleep(t) =>
      var th := s.thr[t];
      Recorded(s, r, t, Thread(SUSPEND, th.cur, th.init, th.mask, th.error, true)) && Gone(s.lists, r.lists, t)
    case TimerFires(t) => Woken(s, r, t, ETIMEOUT)
    case SetPriority(t, p) => Reprioritised(s, r, t, p)
    case ThreadYield(t) =>
      var l := Ready(s.thr[t].cur);
      && l in s.lists && r.thr == s.thr
      && if |s.lists[l]| >= 2 then Placed(s.lists, r.lists, t, l, |s.lists[l]| - 1) else r == s
    case ThreadExit(t, dynamic) => Closed(s, r, t, dynamic)
    case DeleteBegin(t) =>
      if s.thr[t].stat == CLOSE then r == s
      else r.thr == s.thr && Gone(s.lists, r.lists, t) && r.busy == s.busy[t := Closing]
    case DeleteEnd(t, dynamic) => Closed(s, r, t, dynamic) && r.busy == s.busy - {t}
    case IdleReap =>
      && Defunct in s.lists && s.lists[Defunct] != []
      && r.thr == s.thr - {s.lists[Defunct][0]} && Gone(s.lists, r.lists, s.lists[Defunct][0])
  }

  lemma ResumedDoes(s: Sched, t: Tid)
    requires Inv(s) && t in s.busy && s.busy[t].Resuming?
    ensures t in s.thr && Woken(s.(busy := s.busy - {t}), ResumeEnd(s, t), t, s.thr[t].error)
  {
    ResumeEndDoes(s, t);
    assert ThreadOk(s, t);
  }

  lemma RunsDoes(k: Kernel, st: Step)
    requires KInv(k) && Allowed(k, st) && (st.ReadyEnd? || st.ThreadSleep? || st.TimerFires?)
    ensures ThreadEffect(k.s, Do(k, st).s, st)
  {
    match st
    case ReadyEnd(t) => ResumedDoes(k.s, t);
    case ThreadSleep(t) => SleepDoes(k.s, t);
    case TimerFires(t) => TimeoutDoes(k.s, t);
  }

  lemma StaysDoes(k: Kernel, st: Step)
    requires KInv(k) && Allowed(k, st) && (st.SetPriority? || st.ThreadYield?)
    ensures ThreadEffect(k.s, Do(k, st).s, st)
  {
    match st
    case SetPriority(t, p) => ChangePriorityDoes(k.s, t, p);
    case ThreadYield(t) => YieldDoes(k.s, t);
  }

  lemma HaltsDoes(k: Kernel, st: Step)
    requires KInv(k) && Allowed(k, st) && (st.StartBegin? || st.ThreadSuspend? || st.ReadyBegin? || st.DeleteBegin?)
    ensures ThreadEffect(k.s, Do(k, st).s, st)
  {
    match st
    case StartBegin(t) => StartupBeginDoes(k.s, t);
    case ThreadSuspend(t) => SuspendDoes(k.s, t);
    case ReadyBegin(t) => ResumeBeginDoes(k.s, t);
    case DeleteBegin(t) => CloseBeginDoes(k.s, t);
  }

  lemma EndsDoes(k: Kernel, st: Step)
    requires KInv(k) && Allowed(k, st) && (st.ThreadExit? || st.DeleteEnd? || st.IdleReap?)
    ensures ThreadEffect(k.s, Do(k, st).s, st)
  {
    match st
    case ThreadExit(t, dynamic) => ExitDoes(k.s, t, dynamic);
    case DeleteEnd(t, dynamic) => CloseEndDoes(k.s, t, dynamic);
    case IdleReap => ReapDoes(k.s);
  }

  /** Each step does to records and lists what its name says. */
  lemma ThreadStepDoes(k: Kernel, st: Step)
    requires KInv(k) && Allowed(k, st) && ThreadStep(st)
    ensures ThreadEffect(k.s, Do(k, st).s, st)
  {
    if st.StartBegin? || st.ThreadSuspend? || st.ReadyBegin? || st.DeleteBegin? {
      HaltsDoes(k, st);
    } else if st.ThreadExit? || st.DeleteEnd? || st.IdleReap? {
      EndsDoes(k, st);
    } else if st.SetPriority? || st.ThreadYield? {
      StaysDoes(k, st);
    } else {
      RunsDoes(k, st);
    }
  }
}
