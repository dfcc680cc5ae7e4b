/**
  With what error a thread goes on after waiting, over runs of rt-thread/kernel/src/ipc.c: the blocking
  calls return the error they find in the record when the thread runs again.
 */
module Wakeups {
  import opened Wrappers
  import opened Queues
  import opened Scheduler
  import opened Ipc
  import opened ThreadEffects
  import opened IpcEffects
  import opened KernelRuns
  import opened Accounts

  // ----- Steps that leave a thread aside -----

  /** State, error and timer of t, and the queues it waits in, are as before. */
  ghost predicate Aside(s: Sched, r: Sched, t: Tid) {
    && t in s.thr && t in r.thr
    && r.thr[t].stat == s.thr[t].stat && r.thr[t].error == s.thr[t].error && r.thr[t].timer == s.thr[t].timer
    && forall o: nat :: On(r.lists, Wait(o), t) <==> On(s.lists, Wait(o), t)
  }

  lemma RecordedAside(s: Sched, r: Sched, x: Tid, th: Thread, t: Tid)
    requires t in s.thr && t != x && Recorded(s, r, x, th) && OthersKeepPlace(s.lists, r.lists, x)
    ensures Aside(s, r, t)
  {
    forall o: nat ensures On(r.lists, Wait(o), t) <==> On(s.lists, Wait(o), t) {
      if Wait(o) in s.lists {
        WithoutIn(s.lists[Wait(o)], x, t);
        WithoutIn(r.lists[Wait(o)], x, t);
      }
    }
  }

  /** Thread t is the first to wait for obj. */
  ghost predicate FirstOf(s: Sched, obj: nat, t: Tid) {
    Wait(obj) in s.lists && s.lists[Wait(obj)] != [] && s.lists[Wait(obj)][0] == t
  }

  /** The step is one of t, or on t, or wakes t. */
  ghost predicate Concerns(s: Sched, st: Step, t: Tid) {
    match st
    case NewThread(u, _) => u == t
    case StartBegin(u) => u == t
    case ThreadSuspend(u) => u == t
    case ReadyBegin(u) => u == t
    case ReadyEnd(u) => u == t
    case ThreadSleep(u) => u == t
    case TimerFires(u) => u == t
    case ThreadExit(u, _) => u == t
    case DeleteBegin(u) => u == t
    case DeleteEnd(u, _) => u == t
    case IdleReap => Defunct in s.lists && s.lists[Defunct] != [] && s.lists[Defunct][0] == t
    case WaitOn(u, _, _, _) => u == t
    case TakeMutex(u, _, _) => u == t
    case ReleaseMutex(u, m) => u == t || FirstOf(s, m, t)
    case TakeSem(u, _, _) => u == t
    case ReleaseSem(x) => FirstOf(s, x, t)
    case WakeOne(obj) => FirstOf(s, obj, t)
    case WakeEvery(obj) => On(s.lists, Wait(obj), t)
    case ResetSem(x, _) => On(s.lists, Wait(x), t)
    case _ => false
  }

  lemma PriorityAside(s: Sched, x: Tid, p: Prio, t: Tid)
    requires Inv(s) && x in s.thr && t in s.thr
    ensures Aside(s, ChangePriority(s, x, p), t)
  {
    ChangePriorityDoes(s, x, p);
    if x != t {
      RecordedAside(s, ChangePriority(s, x, p), x, ChangePriority(s, x, p).thr[x], t);
    } else {
      assert ThreadOk(s, t);
    }
  }

  lemma YieldAside(s: Sched, x: Tid, t: Tid)
    requires Inv(s) && x in s.thr && t in s.thr && x !in s.busy
    ensures Aside(s, Yield(s, x), t)
  {
    YieldDoes(s, x);
    var r, l := Yield(s, x), Ready(s.thr[x].cur);
    if s.thr[x].stat == READY && |s.lists[l]| >= 2 {
      if x != t {
        RecordedAside(s, r, x, s.thr[x], t);
      } else {
        assert ThreadOk(s, t);
      }
    }
  }

  lemma ReapAside(s: Sched, t: Tid)
    requires Inv(s) && s.lists[Defunct] != [] && s.lists[Defunct][0] != t && t in s.thr
    ensures Aside(s, Reap(s), t)
  {
    UnlinkOn(s.lists, s.lists[Defunct][0]);
  }

  /** The record of x and its place are all that has changed. */
  ghost predicate OnlyOf(s: Sched, r: Sched, x: Tid) {
    x in r.thr && Recorded(s, r, x, r.thr[x]) && OthersKeepPlace(s.lists, r.lists, x)
  }

  lemma ExitOnly(s: Sched, x: Tid, dynamic: bool)
    requires Inv(s) && x in s.thr
    ensures OnlyOf(s, Exit(s, x, dynamic), x)
  {
    ExitDoes(s, x, dynamic);
  }

  lemma CloseBeginOnly(s: Sched, x: Tid)
    requires Inv(s) && x in s.thr
    ensures OnlyOf(s, CloseBegin(s, x), x)
  {
    CloseBeginDoes(s, x);
  }

  lemma CloseEndOnly(s: Sched, x: Tid, dynamic: bool)
    requires Inv(s) && x in s.busy
    ensures x in s.thr && OnlyOf(s, CloseEnd(s, x, dynamic), x)
  {
    CloseEndDoes(s, x, dynamic);
  }

  lemma StartOnly(s: Sched, x: Tid)
    requires Inv(s) && x in s.thr
    ensures OnlyOf(s, StartupBegin(s, x), x)
  {
    StartupBeginDoes(s, x);
  }

  lemma SuspendOnly(s: Sched, x: Tid)
    requires Inv(s) && x in s.thr
    ensures OnlyOf(s, Suspend(s, x), x)
  {
    SuspendDoes(s, x);
  }

  lemma ResumeBeginOnly(s: Sched, x: Tid)
    requires Inv(s) && x in s.thr
    ensures OnlyOf(s, ResumeBegin(s, x), x)
  {
    ResumeBeginDoes(s, x);
  }

  lemma ResumeEndOnly(s: Sched, x: Tid)
    requires Inv(s) && x in s.busy
    ensures x in s.thr && OnlyOf(s, ResumeEnd(s, x), x)
  {
    ResumeEndDoes(s, x);
  }

  lemma SleepOnly(s: Sched, x: Tid)
    requires Inv(s) && CanRun(s, x)
    ensures OnlyOf(s, Sleep(s, x), x)
  {
    SleepDoes(s, x);
  }

  lemma TimeoutOnly(s: Sched, x: Tid)
    requires Inv(s) && x in s.thr && s.thr[x].timer
    ensures OnlyOf(s, Timeout(s, x), x)
  {
    TimeoutDoes(s, x);
  }

  lemma SameOnly(s: Sched, x: Tid)
    requires x in s.thr
    ensures OnlyOf(s, s, x)
  {
  }

  lemma ThreadAside(k: Kernel, st: Step, t: Tid)
    requires KInv(k) && Allowed(k, st) && ThreadStep(st) && t in k.s.thr && !Concerns(k.s, st, t)
    ensures Aside(k.s, DoThread(k.s, st), t)
  {
    if st.SetPriority? {
      PriorityAside(k.s, st.t, st.p, t);
    } else if st.ThreadYield? {
      YieldAside(k.s, st.t, t);
    } else if st.IdleReap? {
      ReapAside(k.s, t);
    } else {
      SubjectOnly(k, st);
      RecordedAside(k.s, DoThread(k.s, st), st.t, DoThread(k.s, st).thr[st.t], t);
    }
  }

  lemma SubjectOnly(k: Kernel, st: Step)
    requires KInv(k) && Allowed(k, st) && ThreadStep(st) && !st.SetPriority? && !st.ThreadYield? && !st.IdleReap?
    ensures OnlyOf(k.s, DoThread(k.s, st), st.t)
  {
    match st
    case StartBegin(x) => StartOnly(k.s, x);
    case ThreadSuspend(x) => SuspendOnly(k.s, x);
    case ReadyBegin(x) => ResumeBeginOnly(k.s, x); SameOnly(k.s, x);
    case ReadyEnd(x) => ResumeEndOnly(k.s, x);
    case ThreadSleep(x) => SleepOnly(k.s, x);
    case TimerFires(x) => TimeoutOnly(k.s, x);
    case ThreadExit(x, dynamic) => ExitOnly(k.s, x, dynamic);
    case DeleteBegin(x) => CloseBeginOnly(k.s, x); SameOnly(k.s, x);
    case DeleteEnd(x, dynamic) => CloseEndOnly(k.s, x, dynamic);
  }

  // ----- Steps of mutexes, semaphores and other objects -----

  lemma ErrorAside(s: Sched, r: Sched, x: Tid, e: Err, t: Tid)
    requires x in s.thr && ErrorOnly(s, r, x, e) && t in s.thr && t != x
    ensures Aside(s, r, t)
  {
  }

  lemma WaitsAside(s: Sched, r: Sched, x: Tid, obj: nat, byPriority: bool, timed: bool, t: Tid)
    requires x in s.thr && Wait(obj) in s.lists && Waits(s, r, x, obj, byPriority, timed) && t in s.thr && t != x
    ensures Aside(s, r, t)
  {
    RecordedAside(s, r, x, r.thr[x], t);
  }

  lemma WokenAside(s: Sched, r: Sched, x: Tid, e: Err, t: Tid)
    requires x in s.thr && Woken(s, r, x, e) && t in s.thr && t != x
    ensures Aside(s, r, t)
  {
    RecordedAside(s, r, x, r.thr[x], t);
  }

  /** A change of priority, also of t itself, leaves the queues it waits in alone. */
  lemma ReprioritisedAside(s: Sched, r: Sched, x: Tid, p: Prio, t: Tid)
    requires Inv(s) && x in s.thr && t in s.thr && (r == s || Reprioritised(s, r, x, p))
    ensures Aside(s, r, t)
  {
    if r != s {
      if x != t {
        RecordedAside(s, r, x, r.thr[x], t);
      } else {
        assert ThreadOk(s, t);
      }
    }
  }

  lemma TakeAside(k: Kernel, x: Tid, m: nat, time: int, t: Tid)
    requires KInv(k) && Acts(k, x) && m in k.mtx && t in k.s.thr && t != x
    ensures Aside(k.s, MutexTake(k, x, m, time).0.s, t)
  {
    var r := MutexTake(k, x, m, time).0.s;
    if k.mtx[m].owner == Some(x) {
      TakeAgainDoes(k, x, m, time);
      ErrorAside(k.s, r, x, EOK, t);
    } else if k.mtx[m].owner.None? {
      TakeFreeDoes(k, x, m, time);
      ErrorAside(k.s, r, x, EOK, t);
    } else if time == 0 {
      TakeRefusedDoes(k, x, m);
      ErrorAside(k.s, r, x, ETIMEOUT, t);
    } else {
      TakeWaitsAside(k, x, m, time, t);
    }
  }

  lemma TakeWaitsAside(k: Kernel, x: Tid, m: nat, time: int, t: Tid)
    requires KInv(k) && Acts(k, x) && m in k.mtx && t in k.s.thr && t != x
    requires k.mtx[m].owner.Some? && k.mtx[m].owner != Some(x) && time != 0
    ensures Aside(k.s, MutexTake(k, x, m, time).0.s, t)
  {
    var o, p, flag, r := k.mtx[m].owner.value, k.s.thr[x].cur, k.mtx[m].prioFlag, MutexTake(k, x, m, time).0.s;
    TakeWaitsDoes(k, x, m, time);
    var s0: Sched, s1: Sched :|
      && ErrorOnly(k.s, s0, x, EOK) && o in s0.thr && Raised(s0, s1, o, p)
      && x in s1.thr && Wait(m) in s1.lists && Waits(s1, r, x, m, flag, time > 0);
    assert Inv(s0) by { ErrorKeepsInv(k.s, s0, x, EOK); }
    ErrorAside(k.s, s0, x, EOK, t);
    ReprioritisedAside(s0, s1, o, p, t);
    WaitsAside(s1, r, x, m, flag, time > 0, t);
  }

  lemma ErrorKeepsInv(s: Sched, r: Sched, x: Tid, e: Err)
    requires Inv(s) && x in s.thr && ErrorOnly(s, r, x, e)
    ensures Inv(r)
  {
    WithErrorInv(s, x, e);
    assert r.thr == WithError(s, x, e).thr;
    assert r == WithError(s, x, e);
  }

  lemma ReleaseAside(k: Kernel, x: Tid, m: nat, t: Tid)
    requires KInv(k) && Acts(k, x) && m in k.mtx && t in k.s.thr && t != x && !FirstOf(k.s, m, t)
    ensures Aside(k.s, MutexRelease(k, x, m).0.s, t)
  {
    var r := MutexRelease(k, x, m).0.s;
    assert Wait(m) in k.s.lists && (k.mtx[m].owner == Some(x) ==> k.mtx[m].hold >= 1) by { assert MutexOk(k, m); }
    if k.mtx[m].owner != Some(x) {
      ReleaseRefusedDoes(k, x, m);
      ErrorAside(k.s, r, x, ERROR, t);
    } else if k.mtx[m].hold > 1 {
      ReleaseOneDoes(k, x, m);
    } else if k.s.lists[Wait(m)] == [] {
      ReleaseLastDoes(k, x, m);
      ReprioritisedAside(k.s, r, x, k.mtx[m].orig, t);
    } else {
      PassAside(k, x, m, t);
    }
  }

  lemma PassAside(k: Kernel, x: Tid, m: nat, t: Tid)
    requires KInv(k) && Acts(k, x) && m in k.mtx && t in k.s.thr && t != x && !FirstOf(k.s, m, t)
    requires k.mtx[m].owner == Some(x) && k.mtx[m].hold == 1 && Wait(m) in k.s.lists && k.s.lists[Wait(m)] != []
    ensures Aside(k.s, MutexRelease(k, x, m).0.s, t)
  {
    var r, w := MutexRelease(k, x, m).0.s, k.s.lists[Wait(m)][0];
    ReleasePassesDoes(k, x, m);
    var s1: Sched :| SetBack(k.s, s1, x, k.mtx[m].orig) && w in s1.thr && Woken(s1, r, w, k.s.thr[w].error);
    ReprioritisedAside(k.s, s1, x, k.mtx[m].orig, t);
    WokenAside(s1, r, w, k.s.thr[w].error, t);
  }

  lemma AllWokenAside(s: Sched, obj: nat, t: Tid)
    requires Inv(s) && Wait(obj) in s.lists && t in s.thr && !On(s.lists, Wait(obj), t)
    ensures Aside(s, WakeAll(s, obj), t)
  {
    WakeAllDoes(s, obj);
    WakeAllInv(s, obj);
  }

  lemma SemTakeAside(k: Kernel, x: Tid, y: nat, time: int, t: Tid)
    requires KInv(k) && Acts(k, x) && y in k.sem && t in k.s.thr && t != x
    ensures Aside(k.s, SemTake(k, x, y, time).0.s, t)
  {
    if k.sem[y].value > 0 {
      SemTakesDoes(k, x, y, time);
    } else if time == 0 {
      SemRefusedDoes(k, x, y);
    } else {
      var r := SemTake(k, x, y, time).0.s;
      SemWaitsDoes(k, x, y, time);
      var s0: Sched :| ErrorOnly(k.s, s0, x, EOK) && Wait(y) in s0.lists && Waits(s0, r, x, y, k.sem[y].prioFlag, time > 0);
      ErrorAside(k.s, s0, x, EOK, t);
      WaitsAside(s0, r, x, y, k.sem[y].prioFlag, time > 0, t);
    }
  }

  lemma SemReleaseAside(k: Kernel, y: nat, t: Tid)
    requires KInv(k) && y in k.sem && t in k.s.thr && !FirstOf(k.s, y, t)
    ensures Aside(k.s, SemRelease(k, y).0.s, t)
  {
    assert Wait(y) in k.s.lists by { assert SemOk(k, y); }
    if k.s.lists[Wait(y)] == [] {
      SemReleasesDoes(k, y);
    } else {
      SemPassesDoes(k, y);
      var w := k.s.lists[Wait(y)][0];
      WokenAside(k.s, SemRelease(k, y).0.s, w, k.s.thr[w].error, t);
    }
  }

  lemma BlockAside(s: Sched, x: Tid, obj: nat, flag: bool, timed: bool, t: Tid)
    requires Inv(s) && CanRun(s, x) && Wait(obj) in s.lists && t in s.thr && t != x
    ensures Aside(s, Block(s, x, obj, flag, timed), t)
  {
    BlockDoes(s, x, obj, flag, timed);
    WaitsAside(s, Block(s, x, obj, flag, timed), x, obj, flag, timed, t);
  }

  lemma WakeHeadAside(s: Sched, obj: nat, t: Tid)
    requires Inv(s) && Wait(obj) in s.lists && s.lists[Wait(obj)] != [] && t in s.thr && !FirstOf(s, obj, t)
    ensures Aside(s, WakeHead(s, obj), t)
  {
    WakeHeadDoes(s, obj);
    WokenAside(s, WakeHead(s, obj), s.lists[Wait(obj)][0], s.thr[s.lists[Wait(obj)][0]].error, t);
  }

  lemma ObjectAside(k: Kernel, st: Step, t: Tid)
    requires KInv(k) && Allowed(k, st) && t in k.s.thr && !Concerns(k.s, st, t)
    requires st.WaitOn? || st.WakeOne? || st.WakeEvery? || st.ResetSem?
    ensures Aside(k.s, Do(k, st).s, t)
  {
    match st
    case WaitOn(x, obj, flag, timed) => BlockAside(k.s, x, obj, flag, timed, t);
    case WakeOne(obj) => WakeHeadAside(k.s, obj, t);
    case WakeEvery(obj) => AllWokenAside(k.s, obj, t);
    case ResetSem(x, v) =>
      assert Wait(x) in k.s.lists by { assert SemOk(k, x); }
      AllWokenAside(k.s, x, t);
  }

  lemma NewAside(k: Kernel, st: Step, t: Tid)
    requires KInv(k) && Allowed(k, st) && t in k.s.thr && !Concerns(k.s, st, t)
    requires st.NewMutex? || st.NewSem? || st.NewQueue? || st.NewThread?
    ensures Aside(k.s, Do(k, st).s, t)
  {
    NewDoes(k, st);
  }

  /** A step that does not concern t leaves it aside. */
  lemma StepAside(k: Kernel, st: Step, t: Tid)
    requires KInv(k) && Allowed(k, st) && t in k.s.thr && !Concerns(k.s, st, t)
    ensures Aside(k.s, Do(k, st).s, t)
  {
    if ThreadStep(st) {
      ThreadAside(k, st, t);
    } else if st.TakeMutex? {
      TakeAside(k, st.t, st.m, st.time, t);
    } else if st.ReleaseMutex? {
      ReleaseAside(k, st.t, st.m, t);
    } else if st.TakeSem? {
      SemTakeAside(k, st.t, st.x, st.time, t);
    } else if st.ReleaseSem? {
      SemReleaseAside(k, st.x, t);
    } else if st.NewMutex? || st.NewSem? || st.NewQueue? || st.NewThread? {
      NewAside(k, st, t);
    } else {
      ObjectAside(k, st, t);
    }
  }

  // ----- Steps that end a wait -----

  lemma WaiterFacts(s: Sched, o: nat, t: Tid)
    requires Inv(s) && On(s.lists, Wait(o), t)
    ensures t in s.thr && s.thr[t].stat == SUSPEND && t !in s.busy
    ensures forall l :: On(s.lists, l, t) ==> l == Wait(o)
  {
    assert ThreadOk(s, t);
  }

  /** The step releases what t is the first to wait for. */
  ghost predicate GivenBy(k: Kernel, st: Step, o: nat, t: Tid)
    requires KInv(k) && Allowed(k, st)
  {
    && FirstOf(k.s, o, t)
    && (st == ReleaseSem(o) || st == WakeOne(o) || (st.ReleaseMutex? && st.m == o && Answer(k, st) == OK))
  }

  predicate Resets(st: Step, o: nat) {
    st == WakeEvery(o) || (st.ResetSem? && st.x == o)
  }

  /** The mutex o, if it is one, is owned by t, once. */
  ghost predicate Owned(mtx: map<nat, Mutex>, o: nat, t: Tid) {
    o in mtx && mtx[o].owner == Some(t) && mtx[o].hold == 1
  }

  /** How a wait ends: with the error the thread had, unless it timed out or the object was reset. */
  ghost predicate EndsAs(th: Thread, was: Err, timedOut: bool, given: bool, reset: bool, named: bool) {
    || (timedOut && th.stat == READY && th.error == ETIMEOUT)
    || (given && th.stat == READY && th.error == was)
    || (reset && th.stat == READY && th.error == ERROR)
    || (named && th.stat == SUSPEND && th.error == was)
  }

  /** By which steps t stops waiting for o. */
  ghost predicate Leaves(k: Kernel, st: Step, o: nat, t: Tid)
    requires KInv(k) && Allowed(k, st) && t in k.s.thr
  {
    var k' := Do(k, st);
    && t in k'.s.thr && !On(k'.s.lists, Wait(o), t)
    && EndsAs(k'.s.thr[t], k.s.thr[t].error, st == TimerFires(t), GivenBy(k, st, o, t), Resets(st, o),
              st == ReadyBegin(t) || st == DeleteBegin(t))
    && (GivenBy(k, st, o, t) && o in k.mtx ==> Owned(k'.mtx, o, t))
  }

  /** Still waiting, with the same error. */
  ghost predicate Stays(k: Kernel, k': Kernel, o: nat, t: Tid)
    requires t in k.s.thr
  {
    On(k'.s.lists, Wait(o), t) && t in k'.s.thr && k'.s.thr[t].error == k.s.thr[t].error
  }

  lemma AsideStays(k: Kernel, k': Kernel, o: nat, t: Tid)
    requires On(k.s.lists, Wait(o), t) && Aside(k.s, k'.s, t)
    ensures Stays(k, k', o, t)
  {
  }

  lemma MutexCalls(k: Kernel, u: Tid, o: nat, t: Tid)
    requires KInv(k) && Allowed(k, ReleaseMutex(u, o)) && FirstOf(k.s, o, t) && On(k.s.lists, Wait(o), t) && t in k.s.thr
    ensures Leaves(k, ReleaseMutex(u, o), o, t) || Stays(k, Do(k, ReleaseMutex(u, o)), o, t)
  {
    var k' := Do(k, ReleaseMutex(u, o));
    assert Wait(o) in k.s.lists && (k.mtx[o].owner == Some(u) ==> k.mtx[o].hold >= 1) by { assert MutexOk(k, o); }
    WaiterFacts(k.s, o, t);
    if k.mtx[o].owner != Some(u) {
      ReleaseRefusedDoes(k, u, o);
      ErrorAside(k.s, k'.s, u, ERROR, t);
    } else if k.mtx[o].hold > 1 {
      ReleaseOneDoes(k, u, o);
    } else {
      MutexPasses(k, u, o, t);
    }
  }

  /** A thread that has been woken waits for nothing. */
  lemma WokenOut(s: Sched, r: Sched, t: Tid, e: Err, o: nat)
    requires t in s.thr && Woken(s, r, t, e)
    ensures t in r.thr && r.thr[t].stat == READY && r.thr[t].error == e && !On(r.lists, Wait(o), t)
  {
  }

  lemma PassedTo(k: Kernel, u: Tid, o: nat, t: Tid)
    requires KInv(k) && Acts(k, u) && o in k.mtx && k.mtx[o].owner == Some(u) && k.mtx[o].hold == 1
    requires FirstOf(k.s, o, t) && t in k.s.thr
    ensures var (k', r) := MutexRelease(k, u, o);
      && r == OK && t in k'.s.thr && k'.s.thr[t].stat == READY && k'.s.thr[t].error == k.s.thr[t].error
      && !On(k'.s.lists, Wait(o), t) && Owned(k'.mtx, o, t)
  {
    ReleasePassesDoes(k, u, o);
    var r, e := MutexRelease(k, u, o).0.s, k.s.thr[t].error;
    var s1: Sched :| SetBack(k.s, s1, u, k.mtx[o].orig) && t in s1.thr && Woken(s1, r, t, e);
    WokenOut(s1, r, t, e, o);
  }

  lemma MutexPasses(k: Kernel, u: Tid, o: nat, t: Tid)
    requires KInv(k) && Acts(k, u) && o in k.mtx && k.mtx[o].owner == Some(u) && k.mtx[o].hold == 1
    requires FirstOf(k.s, o, t) && t in k.s.thr
    ensures Leaves(k, ReleaseMutex(u, o), o, t)
  {
    var st := ReleaseMutex(u, o);
    PassedTo(k, u, o, t);
    assert Do(k, st) == MutexRelease(k, u, o).0 && Answer(k, st) == MutexRelease(k, u, o).1;
    assert GivenBy(k, st, o, t);
  }

  lemma SemCalls(k: Kernel, o: nat, t: Tid)
    requires KInv(k) && o in k.sem && FirstOf(k.s, o, t) && t in k.s.thr
    ensures Leaves(k, ReleaseSem(o), o, t)
  {
    SemPassesDoes(k, o);
    WokenOut(k.s, SemRelease(k, o).0.s, t, k.s.thr[t].error, o);
    assert Do(k, ReleaseSem(o)) == SemRelease(k, o).0;
    assert GivenBy(k, ReleaseSem(o), o, t);
  }

  lemma ObjectCalls(k: Kernel, o: nat, t: Tid)
    requires KInv(k) && Allowed(k, WakeOne(o)) && FirstOf(k.s, o, t) && t in k.s.thr
    ensures Leaves(k, WakeOne(o), o, t)
  {
    WakeHeadDoes(k.s, o);
  }

  lemma ResetEnds(k: Kernel, st: Step, o: nat, t: Tid)
    requires KInv(k) && Allowed(k, st) && Resets(st, o) && On(k.s.lists, Wait(o), t) && t in k.s.thr
    ensures Leaves(k, st, o, t)
  {
    if st.ResetSem? {
      SemResetDoes(k, st.x, st.v);
    } else {
      WakeAllDoes(k.s, o);
    }
  }

  lemma TimerEnds(k: Kernel, o: nat, t: Tid)
    requires KInv(k) && Allowed(k, TimerFires(t)) && On(k.s.lists, Wait(o), t)
    ensures Leaves(k, TimerFires(t), o, t)
  {
    TimeoutDoes(k.s, t);
  }

  lemma ResumedEnds(k: Kernel, o: nat, t: Tid)
    requires KInv(k) && Allowed(k, ReadyBegin(t)) && On(k.s.lists, Wait(o), t)
    ensures t in k.s.thr && Leaves(k, ReadyBegin(t), o, t)
  {
    WaiterFacts(k.s, o, t);
    ResumeBeginDoes(k.s, t);
  }

  lemma DeletedEnds(k: Kernel, o: nat, t: Tid)
    requires KInv(k) && Allowed(k, DeleteBegin(t)) && On(k.s.lists, Wait(o), t)
    ensures t in k.s.thr && Leaves(k, DeleteBegin(t), o, t)
  {
    WaiterFacts(k.s, o, t);
    CloseBeginDoes(k.s, t);
  }

  /** Steps that a waiting thread cannot take, or that cannot be taken on it. */
  lemma NotOfWaiter(k: Kernel, st: Step, o: nat, t: Tid)
    requires KInv(k) && Allowed(k, st) && On(k.s.lists, Wait(o), t) && Concerns(k.s, st, t)
    requires !st.ReleaseMutex? && !st.ReleaseSem? && !st.WakeOne? && !Resets(st, o)
    ensures st in {ThreadSuspend(t), TimerFires(t), ReadyBegin(t), DeleteBegin(t)}
  {
    WaiterFacts(k.s, o, t);
    if st.IdleReap? {
      ReapInv(k.s);
    }
  }

  lemma WaiterStep(k: Kernel, st: Step, o: nat, t: Tid)
    requires KInv(k) && Allowed(k, st) && On(k.s.lists, Wait(o), t)
    ensures t in k.s.thr && (Stays(k, Do(k, st), o, t) || Leaves(k, st, o, t))
  {
    WaiterFacts(k.s, o, t);
    if !Concerns(k.s, st, t) {
      StepAside(k, st, t);
      AsideStays(k, Do(k, st), o, t);
    } else if st.ReleaseMutex? {
      assert FirstOf(k.s, st.m, t) ==> On(k.s.lists, Wait(st.m), t);
      MutexCalls(k, st.t, o, t);
    } else if st.ReleaseSem? {
      assert On(k.s.lists, Wait(st.x), t);
      SemCalls(k, o, t);
    } else if st.WakeOne? {
      assert On(k.s.lists, Wait(st.obj), t);
      ObjectCalls(k, o, t);
    } else if Resets(st, o) {
      ResetEnds(k, st, o, t);
    } else {
      NotOfWaiter(k, st, o, t);
      WaiterNamed(k, st, o, t);
    }
  }

  lemma WaiterNamed(k: Kernel, st: Step, o: nat, t: Tid)
    requires KInv(k) && Allowed(k, st) && On(k.s.lists, Wait(o), t)
    requires st in {ThreadSuspend(t), TimerFires(t), ReadyBegin(t), DeleteBegin(t)}
    ensures t in k.s.thr && (Stays(k, Do(k, st), o, t) || Leaves(k, st, o, t))
  {
    WaiterFacts(k.s, o, t);
    if st == TimerFires(t) {
      TimerEnds(k, o, t);
    } else if st == ThreadSuspend(t) {
      SuspendDoes(k.s, t);
    } else if st == ReadyBegin(t) {
      ResumedEnds(k, o, t);
    } else {
      DeletedEnds(k, o, t);
    }
  }

  // ----- Runs -----

  /** Thread t waits for o in every state of the run. */
  ghost predicate WaitsThrough(k: Kernel, steps: seq<Step>, o: nat, t: Tid)
    decreases |steps|
  {
    && On(k.s.lists, Wait(o), t)
    && (steps != [] ==> KInv(k) && Allowed(k, steps[0]) && WaitsThrough(Do(k, steps[0]), steps[1..], o, t))
  }

  lemma {:induction false} ErrorWaits(k: Kernel, steps: seq<Step>, k': Kernel, o: nat, t: Tid)
    requires KInv(k) && Reaches(k, steps, k') && WaitsThrough(k, steps, o, t)
    ensures KInv(k') && t in k.s.thr && Stays(k, k', o, t)
    decreases |steps|
  {
    WaiterFacts(k.s, o, t);
    if steps != [] {
      WaiterStep(k, steps[0], o, t);
      StepKept(k, steps[0]);
      assert On(Do(k, steps[0]).s.lists, Wait(o), t);
      ErrorWaits(Do(k, steps[0]), steps[1..], k', o, t);
    }
  }

  /** A blocking take puts the caller on the queue with error EOK. */
  lemma BlockedTake(k: Kernel, st: Step, o: nat, t: Tid, time: int)
    requires KInv(k) && Allowed(k, st) && (st == TakeSem(t, o, time) || st == TakeMutex(t, o, time)) && Answer(k, st) == BLOCKED
    ensures var k' := Do(k, st);
      && On(k'.s.lists, Wait(o), t) && t in k'.s.thr && k'.s.thr[t].error == EOK && (k'.s.thr[t].timer <==> time > 0)
  {
    if st.TakeSem? {
      BlockedSem(k, t, o, time);
    } else {
      BlockedMutex(k, t, o, time);
    }
  }

  lemma BlockedSem(k: Kernel, t: Tid, o: nat, time: int)
    requires KInv(k) && Acts(k, t) && o in k.sem && SemTake(k, t, o, time).1 == BLOCKED
    ensures var k' := SemTake(k, t, o, time).0;
      && On(k'.s.lists, Wait(o), t) && t in k'.s.thr && k'.s.thr[t].error == EOK && (k'.s.thr[t].timer <==> time > 0)
  {
    if k.sem[o].value > 0 {
      SemTakesDoes(k, t, o, time);
    } else if time == 0 {
      SemRefusedDoes(k, t, o);
    } else {
      SemWaitsDoes(k, t, o, time);
    }
  }

  lemma BlockedMutex(k: Kernel, t: Tid, o: nat, time: int)
    requires KInv(k) && Acts(k, t) && o in k.mtx && MutexTake(k, t, o, time).1 == BLOCKED
    ensures var k' := MutexTake(k, t, o, time).0;
      && On(k'.s.lists, Wait(o), t) && t in k'.s.thr && k'.s.thr[t].error == EOK && (k'.s.thr[t].timer <==> time > 0)
  {
    if k.mtx[o].owner == Some(t) {
      assert k.mtx[o].hold <= 255 by { assert MutexOk(k, o); }
      TakeAgainDoes(k, t, o, time);
    } else if k.mtx[o].owner.None? {
      TakeFreeDoes(k, t, o, time);
    } else if time == 0 {
      TakeRefusedDoes(k, t, o);
    } else {
      BlockedWaits(k, t, o, time);
    }
  }

  lemma BlockedWaits(k: Kernel, t: Tid, o: nat, time: int)
    requires KInv(k) && Acts(k, t) && o in k.mtx && k.mtx[o].owner.Some? && k.mtx[o].owner != Some(t) && time != 0
    ensures var k' := MutexTake(k, t, o, time).0;
      && On(k'.s.lists, Wait(o), t) && t in k'.s.thr && k'.s.thr[t].error == EOK && (k'.s.thr[t].timer <==> time > 0)
  {
    var u, p, flag, r := k.mtx[o].owner.value, k.s.thr[t].cur, k.mtx[o].prioFlag, MutexTake(k, t, o, time).0.s;
    TakeWaitsDoes(k, t, o, time);
    var s0: Sched, s1: Sched :|
      && ErrorOnly(k.s, s0, t, EOK) && u in s0.thr && Raised(s0, s1, u, p)
      && t in s1.thr && Wait(o) in s1.lists && Waits(s1, r, t, o, flag, time > 0);
    assert s1.thr[t].error == EOK;
  }

  lemma ReadyUnbound(s: Sched, t: Tid)
    requires Inv(s) && t in s.thr && s.thr[t].stat == READY
    ensures Unbound(s, t)
  {
    assert ThreadOk(s, t);
  }

  /**
    A thread blocks in a take of o, waits through any run, and the step st ends the wait.  If nobody resumed or
    deleted it by hand it is ready, and goes on with EOK exactly if st gave it what it waited for, with ETIMEOUT
    exactly if its timer fired, and with ERROR exactly if o was reset.  With EOK from a mutex it owns the mutex.
   */
  lemma GoesOn(k: Kernel, take: Step, steps: seq<Step>, k2: Kernel, st: Step, o: nat, t: Tid, time: int)
    requires KInv(k) && Allowed(k, take) && (take == TakeSem(t, o, time) || take == TakeMutex(t, o, time))
    requires Answer(k, take) == BLOCKED
    requires Reaches(Do(k, take), steps, k2) && WaitsThrough(Do(k, take), steps, o, t)
    requires KInv(k2) && Allowed(k2, st) && !On(Do(k2, st).s.lists, Wait(o), t)
    requires st != ReadyBegin(t) && st != DeleteBegin(t)
    ensures var k3 := Do(k2, st);
      && t in k3.s.thr && k3.s.thr[t].stat == READY
      && (k3.s.thr[t].error == EOK <==> GivenBy(k2, st, o, t))
      && (k3.s.thr[t].error == ETIMEOUT <==> st == TimerFires(t))
      && (k3.s.thr[t].error == ERROR <==> Resets(st, o))
      && (k3.s.thr[t].error == EOK && o in k2.mtx ==> Owned(k3.mtx, o, t))
      && Unbound(k3.s, t)
  {
    var k1 := Do(k, take);
    assert t in k1.s.thr && k1.s.thr[t].error == EOK by { BlockedTake(k, take, o, t, time); }
    assert KInv(k1) by { StepKept(k, take); }
    assert Stays(k1, k2, o, t) by { ErrorWaits(k1, steps, k2, o, t); }
    WaiterStep(k2, st, o, t);
    LeavesExactly(k2, st, o, t);
    assert Unbound(Do(k2, st).s, t) by { StepKept(k2, st); ReadyUnbound(Do(k2, st).s, t); }
  }

  lemma LeavesExactly(k: Kernel, st: Step, o: nat, t: Tid)
    requires KInv(k) && Allowed(k, st) && t in k.s.thr && k.s.thr[t].error == EOK && Leaves(k, st, o, t)
    requires st != ReadyBegin(t) && st != DeleteBegin(t)
    ensures var k' := Do(k, st);
      && t in k'.s.thr && k'.s.thr[t].stat == READY
      && (k'.s.thr[t].error == EOK <==> GivenBy(k, st, o, t))
      && (k'.s.thr[t].error == ETIMEOUT <==> st == TimerFires(t))
      && (k'.s.thr[t].error == ERROR <==> Resets(st, o))
      && (k'.s.thr[t].error == EOK && o in k.mtx ==> Owned(k'.mtx, o, t))
  {
    CausesApart(k, st, o, t);
    EndsExactly(Do(k, st).s.thr[t], st == TimerFires(t), GivenBy(k, st, o, t), Resets(st, o));
  }

  lemma CausesApart(k: Kernel, st: Step, o: nat, t: Tid)
    requires KInv(k) && Allowed(k, st)
    ensures GivenBy(k, st, o, t) ==> st != TimerFires(t) && !Resets(st, o)
    ensures Resets(st, o) ==> st != TimerFires(t)
  {
  }

  lemma EndsExactly(th: Thread, timedOut: bool, given: bool, reset: bool)
    requires EndsAs(th, EOK, timedOut, given, reset, false)
    requires (given ==> !timedOut && !reset) && (reset ==> !timedOut)
    ensures th.stat == READY
    ensures (th.error == EOK <==> given) && (th.error == ETIMEOUT <==> timedOut) && (th.error == ERROR <==> reset)
  {
  }

  // ----- From being woken to running again -----

  /** Thread t waits for nothing, and its timer is off. */
  ghost predicate Unbound(s: Sched, t: Tid) {
    t in s.thr && !s.thr[t].timer && forall o: nat :: !On(s.lists, Wait(o), t)
  }

  /** A call that t itself makes and that may set its error or make it wait, or the initialisation of t. */
  predicate OwnCall(st: Step, t: Tid) {
    match st
    case TakeMutex(u, _, _) => u == t
    case ReleaseMutex(u, _) => u == t
    case TakeSem(u, _, _) => u == t
    case WaitOn(u, _, _, _) => u == t
    case ThreadSleep(u) => u == t
    case NewThread(u, _) => u == t
    case _ => false
  }

  /** Waiting for nothing still, with the same error. */
  ghost predicate Carries(s: Sched, r: Sched, t: Tid)
    requires t in s.thr
  {
    Unbound(r, t) && r.thr[t].error == s.thr[t].error
  }

  lemma MovedCarries(k: Kernel, st: Step, t: Tid)
    requires KInv(k) && Allowed(k, st) && Unbound(k.s, t)
    requires st in {StartBegin(t), ThreadSuspend(t), ReadyBegin(t), ReadyEnd(t)}
    ensures Carries(k.s, DoThread(k.s, st), t)
  {
    match st
    case StartBegin(_) => StartupBeginDoes(k.s, t);
    case ThreadSuspend(_) => SuspendDoes(k.s, t);
    case ReadyBegin(_) => ResumeBeginDoes(k.s, t);
    case ReadyEnd(_) => ResumeEndDoes(k.s, t);
  }

  lemma ClosedCarries(k: Kernel, st: Step, t: Tid)
    requires KInv(k) && Allowed(k, st) && Unbound(k.s, t)
    requires (st.ThreadExit? || st.DeleteBegin? || st.DeleteEnd?) && st.t == t
    ensures Carries(k.s, DoThread(k.s, st), t)
  {
    match st
    case ThreadExit(_, dynamic) => ExitDoes(k.s, t, dynamic);
    case DeleteBegin(_) => CloseBeginDoes(k.s, t);
    case DeleteEnd(_, dynamic) => CloseEndDoes(k.s, t, dynamic);
  }

  lemma CarriesStep(k: Kernel, st: Step, t: Tid)
    requires KInv(k) && Allowed(k, st) && Unbound(k.s, t) && !OwnCall(st, t) && t in Do(k, st).s.thr
    ensures Carries(k.s, Do(k, st).s, t)
  {
    if !Concerns(k.s, st, t) {
      StepAside(k, st, t);
    } else if st.ThreadExit? || st.DeleteBegin? || st.DeleteEnd? {
      ClosedCarries(k, st, t);
    } else if st.IdleReap? {
      ReapDoes(k.s);
      assert false;
    } else {
      ConcernsUnbound(k, st, t);
      MovedCarries(k, st, t);
    }
  }

  lemma ConcernsUnbound(k: Kernel, st: Step, t: Tid)
    requires KInv(k) && Allowed(k, st) && Unbound(k.s, t) && !OwnCall(st, t) && Concerns(k.s, st, t)
    requires !st.ThreadExit? && !st.DeleteBegin? && !st.DeleteEnd? && !st.IdleReap?
    ensures st in {StartBegin(t), ThreadSuspend(t), ReadyBegin(t), ReadyEnd(t)}
  {
    assert forall o: nat :: FirstOf(k.s, o, t) ==> On(k.s.lists, Wait(o), t);
  }

  /** Thread t is known in every state of the run. */
  ghost predicate KnownThrough(k: Kernel, steps: seq<Step>, t: Tid)
    decreases |steps|
  {
    && t in k.s.thr
    && (steps != [] ==> KInv(k) && Allowed(k, steps[0]) && KnownThrough(Do(k, steps[0]), steps[1..], t))
  }

  /** A thread that waits for nothing keeps its error until it makes a call itself, whatever others do meanwhile. */
  lemma {:induction false} ErrorStays(k: Kernel, steps: seq<Step>, k': Kernel, t: Tid)
    requires KInv(k) && Reaches(k, steps, k') && KnownThrough(k, steps, t) && Unbound(k.s, t)
    requires forall st :: st in steps ==> !OwnCall(st, t)
    ensures Carries(k.s, k'.s, t)
    decreases |steps|
  {
    if steps != [] {
      assert t in Do(k, steps[0]).s.thr;
      CarriesStep(k, steps[0], t);
      StepKept(k, steps[0]);
      ErrorStays(Do(k, steps[0]), steps[1..], k', t);
    }
  }
}
