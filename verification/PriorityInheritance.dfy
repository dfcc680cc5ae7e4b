/**
  Priority inheritance of RT_IPC_FLAG_PRIO mutexes: rt-thread/kernel/src/ipc.c, over all runs in
  which a thread holds at most one mutex, holds none while it waits for one, and nobody changes
  priorities by hand.
 */
module PriorityInheritance {
  import opened Wrappers
  import opened Queues
  import opened Scheduler
  import opened Ipc
  import opened KernelRuns

  /** x goes before y in a priority queue: more urgent, or as urgent and waiting for longer. */
  ghost predicate Before(thr: map<Tid, Thread>, log: Log, x: Tid, y: Tid) {
    && x in thr && y in thr
    && (thr[x].cur < thr[y].cur || (thr[x].cur == thr[y].cur && BlockedSince(log, x) < BlockedSince(log, y)))
  }

  ghost predicate Ordered(thr: map<Tid, Thread>, log: Log, q: seq<Tid>) {
    && (forall x :: x in q ==> x in thr)
    && (forall i, j :: 0 <= i < j < |q| ==> Before(thr, log, q[i], q[j]))
  }

  /** The queue of m is ordered and its owner is at least as urgent as every waiter. */
  ghost predicate Inherits(k: Kernel, m: nat)
    requires m in k.mtx && Wait(m) in k.s.lists
  {
    var q, mu := k.s.lists[Wait(m)], k.mtx[m];
    && Ordered(k.s.thr, k.log, q)
    && (mu.owner.Some? ==>
          && mu.owner.value in k.s.thr
          && k.s.thr[mu.owner.value].cur <= mu.orig
          && forall w :: w in q ==> k.s.thr[mu.owner.value].cur <= k.s.thr[w].cur)
  }

  /** One mutex per thread, and none while waiting for one. */
  ghost predicate Solo(k: Kernel) {
    && (forall t, m: nat, n: nat :: Owns(k, t, m) && Owns(k, t, n) ==> m == n)
    && (forall m: nat, w, n: nat :: m in k.mtx && On(k.s.lists, Wait(m), w) ==> !Owns(k, w, n))
  }

  ghost predicate Pi(k: Kernel) {
    && KInv(k) && Solo(k)
    && (forall m: nat :: m in k.mtx ==> Wait(m) in k.s.lists)
    && (forall m: nat {:trigger Inherits(k, m)} :: m in k.mtx && k.mtx[m].prioFlag ==> Inherits(k, m))
  }

  ghost predicate PiAllowed(k: Kernel, st: Step) {
    && Allowed(k, st) && !st.SetPriority?
    && (st.TakeMutex? ==> forall n: nat :: n != st.m ==> !Owns(k, st.t, n))
  }

  // ----- Order of a queue -----

  lemma {:induction false} WithoutOrdered(thr: map<Tid, Thread>, log: Log, q: seq<Tid>, t: Tid)
    requires Ordered(thr, log, q)
    ensures Ordered(thr, log, Without(q, t))
  {
    if q != [] {
      var w := Without(q[1..], t);
      WithoutOrdered(thr, log, q[1..], t);
      if q[0] != t {
        forall i, j | 0 <= i < j < |[q[0]] + w| ensures Before(thr, log, ([q[0]] + w)[i], ([q[0]] + w)[j]) {
          if i == 0 {
            WithoutIn(q[1..], t, w[j - 1]);
          }
        }
      }
    }
  }

  /** The order depends only on what is known about the threads in the queue. */
  lemma OrderedSame(thr: map<Tid, Thread>, log: Log, thr': map<Tid, Thread>, log': Log, q: seq<Tid>)
    requires Ordered(thr, log, q)
    requires forall x :: x in q ==> x in thr' && thr'[x].cur == thr[x].cur && BlockedSince(log', x) == BlockedSince(log, x)
    ensures Ordered(thr', log', q)
  {
    forall i, j | 0 <= i < j < |q| ensures Before(thr', log', q[i], q[j]) {
      assert Before(thr, log, q[i], q[j]);
    }
  }

  /** Joining at Position keeps the queue in order: after everyone at least as urgent. */
  lemma JoinOrdered(thr: map<Tid, Thread>, log: Log, q: seq<Tid>, t: Tid)
    requires Ordered(thr, log, q) && t in thr
    ensures var k := Position(thr, q, thr[t].cur, 0);
      t !in q ==> Ordered(thr, log + [Blocked(t)], q[..k] + [t] + q[k..])
  {
    if t !in q {
      var k := Position(thr, q, thr[t].cur, 0);
      var log', q' := log + [Blocked(t)], q[..k] + [t] + q[k..];
      LogAppend(log, Blocked(t));
      forall x | x in q ensures BlockedSince(log', x) == BlockedSince(log, x) < |log| {
        BlockedSincePast(log, x);
      }
      OrderedSame(thr, log, thr, log', q);
      forall i, j | 0 <= i < j < |q'| ensures Before(thr, log', q'[i], q'[j]) {
        JoinPair(thr, log', q, t, k, i, j);
      }
    }
  }

  lemma JoinPair(thr: map<Tid, Thread>, log: Log, q: seq<Tid>, t: Tid, k: nat, i: nat, j: nat)
    requires Ordered(thr, log, q) && t in thr && k <= |q| && i < j <= |q|
    requires forall n :: 0 <= n < k ==> thr[q[n]].cur <= thr[t].cur
    requires k < |q| ==> thr[t].cur < thr[q[k]].cur
    requires forall x :: x in q ==> BlockedSince(log, x) < BlockedSince(log, t)
    ensures var q' := q[..k] + [t] + q[k..]; Before(thr, log, q'[i], q'[j])
  {
    var q' := q[..k] + [t] + q[k..];
    if i < k && j == k {
      assert q[i] in q;
    } else if i == k {
      assert q'[j] == q[j - 1];
      if k < j - 1 {
        assert Before(thr, log, q[k], q[j - 1]);
      }
    } else {
      var a, b := if i < k then i else i - 1, if j < k then j else j - 1;
      assert Before(thr, log, q[a], q[b]);
    }
  }

  // ----- Steps that leave the mutexes alone -----

  ghost predicate KeepsRunning(k: Kernel, k': Kernel) {
    forall x :: x in k.s.thr && Runs(k.s.thr[x].stat) ==> x in k'.s.thr && k'.s.thr[x].cur == k.s.thr[x].cur
  }

  /** Mutex queues are as before, or have lost thread t. */
  ghost predicate KeepsQueues(k: Kernel, k': Kernel, t: Tid) {
    forall m: nat :: m in k.mtx && Wait(m) in k.s.lists ==>
      && Wait(m) in k'.s.lists
      && (k'.s.lists[Wait(m)] == k.s.lists[Wait(m)] || k'.s.lists[Wait(m)] == Without(k.s.lists[Wait(m)], t))
  }

  ghost predicate KeepsSince(k: Kernel, k': Kernel) {
    forall m: nat, x :: m in k.mtx && On(k.s.lists, Wait(m), x) ==> BlockedSince(k'.log, x) == BlockedSince(k.log, x)
  }

  /** Owner, saved priority and flag of every mutex are as before. */
  ghost predicate SameOwners(k: Kernel, k': Kernel) {
    && k'.mtx.Keys == k.mtx.Keys
    && forall m: nat :: m in k.mtx ==>
      k'.mtx[m].owner == k.mtx[m].owner && k'.mtx[m].orig == k.mtx[m].orig && k'.mtx[m].prioFlag == k.mtx[m].prioFlag
  }

  lemma SoloKept(k: Kernel, k': Kernel, t: Tid)
    requires Pi(k) && SameOwners(k, k') && KeepsQueues(k, k', t)
    ensures Solo(k')
  {
    forall m: nat, w, n: nat | m in k'.mtx && On(k'.s.lists, Wait(m), w) ensures !Owns(k', w, n) {
      WithoutIn(k.s.lists[Wait(m)], t, w);
      assert On(k.s.lists, Wait(m), w);
      assert !Owns(k, w, n);
    }
    forall x, m: nat, n: nat | Owns(k', x, m) && Owns(k', x, n) ensures m == n {
      assert Owns(k, x, m) && Owns(k, x, n);
    }
  }

  /** A mutex whose waiters keep their place and whose owner gets no less urgent still inherits. */
  lemma InheritsFrame(k: Kernel, k': Kernel, t: Tid, m: nat)
    requires m in k.mtx && Wait(m) in k.s.lists && Inherits(k, m)
    requires m in k'.mtx && Wait(m) in k'.s.lists
    requires k'.mtx[m].owner == k.mtx[m].owner && k'.mtx[m].orig == k.mtx[m].orig
    requires k'.s.lists[Wait(m)] == k.s.lists[Wait(m)] || k'.s.lists[Wait(m)] == Without(k.s.lists[Wait(m)], t)
    requires forall x :: x in k.s.lists[Wait(m)] ==> x in k'.s.thr && k'.s.thr[x].cur == k.s.thr[x].cur
    requires forall x :: x in k.s.lists[Wait(m)] ==> BlockedSince(k'.log, x) == BlockedSince(k.log, x)
    requires k.mtx[m].owner.Some? ==>
      && k.mtx[m].owner.value in k'.s.thr
      && k'.s.thr[k.mtx[m].owner.value].cur <= k.s.thr[k.mtx[m].owner.value].cur
    ensures Inherits(k', m)
  {
    var q, q' := k.s.lists[Wait(m)], k'.s.lists[Wait(m)];
    WithoutOrdered(k.s.thr, k.log, q, t);
    forall x | x in q' ensures x in q {
      WithoutIn(q, t, x);
    }
    OrderedSame(k.s.thr, k.log, k'.s.thr, k'.log, q');
  }

  lemma InheritsKept(k: Kernel, k': Kernel, t: Tid, m: nat)
    requires Pi(k) && m in k.mtx && k.mtx[m].prioFlag && SameOwners(k, k')
    requires KeepsQueues(k, k', t) && KeepsRunning(k, k') && KeepsSince(k, k')
    ensures Wait(m) in k'.s.lists && Inherits(k', m)
  {
    assert Inherits(k, m);
    QueueKnown(k.s, m);
    forall x | x in k.s.lists[Wait(m)] ensures On(k.s.lists, Wait(m), x) {
    }
    if k.mtx[m].owner.Some? {
      OwnersRun(k, m);
    }
    InheritsFrame(k, k', t, m);
  }

  lemma QuietPi(k: Kernel, k': Kernel, t: Tid)
    requires Pi(k) && KInv(k') && SameOwners(k, k')
    requires KeepsQueues(k, k', t) && KeepsRunning(k, k') && KeepsSince(k, k')
    ensures Pi(k')
  {
    SoloKept(k, k', t);
    forall m: nat | m in k'.mtx && k'.mtx[m].prioFlag ensures Inherits(k', m) {
      InheritsKept(k, k', t, m);
    }
  }

  lemma ThreadStepQueues(k: Kernel, st: Step)
    requires KInv(k) && Allowed(k, st) && ThreadStep(st) && !st.SetPriority? && !st.IdleReap?
    ensures KeepsQueues(k, Do(k, st), st.t) && KeepsRunning(k, Do(k, st))
  {
    ThreadStepLists(k.s, st);
  }

  lemma ThreadStepLists(s: Sched, st: Step)
    requires Inv(s) && ThreadStep(st) && !st.SetPriority? && !st.IdleReap? && st.t in s.thr
    requires st.StartBegin? ==> s.thr[st.t].stat == INIT
    ensures var s' := DoThread(s, st);
      && (forall x :: x in s.thr && Runs(s.thr[x].stat) ==> x in s'.thr && s'.thr[x].cur == s.thr[x].cur)
      && forall o: nat :: Wait(o) in s.lists ==>
        && Wait(o) in s'.lists
        && (s'.lists[Wait(o)] == s.lists[Wait(o)] || s'.lists[Wait(o)] == Without(s.lists[Wait(o)], st.t))
  {
    if st.ThreadExit? || st.DeleteBegin? || st.DeleteEnd? {
      ClosingLists(s, st);
    } else {
      match st
      case StartBegin(t) =>
      case ThreadSuspend(t) =>
      case ReadyBegin(t) =>
      case ReadyEnd(t) =>
      case ThreadSleep(t) =>
      case TimerFires(t) =>
      case ThreadYield(t) =>
    }
  }

  lemma ClosingLists(s: Sched, st: Step)
    requires Inv(s) && (st.ThreadExit? || st.DeleteBegin? || st.DeleteEnd?) && st.t in s.thr
    ensures var s' := DoThread(s, st);
      && (forall x :: x in s.thr && Runs(s.thr[x].stat) ==> x in s'.thr && s'.thr[x].cur == s.thr[x].cur)
      && forall o: nat :: Wait(o) in s.lists ==>
        && Wait(o) in s'.lists
        && (s'.lists[Wait(o)] == s.lists[Wait(o)] || s'.lists[Wait(o)] == Without(s.lists[Wait(o)], st.t))
  {
  }

  lemma ReapQueues(k: Kernel)
    requires KInv(k) && Allowed(k, IdleReap)
    ensures KeepsQueues(k, Do(k, IdleReap), k.s.lists[Defunct][0]) && KeepsRunning(k, Do(k, IdleReap))
  {
    ReapInv(k.s);
  }

  lemma ThreadStepPi(k: Kernel, st: Step)
    requires Pi(k) && PiAllowed(k, st) && ThreadStep(st)
    ensures Pi(Do(k, st))
  {
    StepKept(k, st);
    if st.IdleReap? {
      ReapQueues(k);
      QuietPi(k, Do(k, st), k.s.lists[Defunct][0]);
    } else {
      ThreadStepQueues(k, st);
      QuietPi(k, Do(k, st), st.t);
    }
  }

  lemma SinceElsewhere(k: Kernel, k': Kernel, e: Event)
    requires KInv(k) && k'.log == k.log + [e]
    requires e.Blocked? ==> Acts(k, e.t)
    ensures KeepsSince(k, k')
  {
    LogAppend(k.log, e);
    forall m: nat, x | m in k.mtx && On(k.s.lists, Wait(m), x)
      ensures BlockedSince(k'.log, x) == BlockedSince(k.log, x)
    {
      QueueKnown(k.s, m);
    }
  }

  lemma BlockQueues(s: Sched, t: Tid, obj: nat, flag: bool, timed: bool)
    requires Inv(s) && CanRun(s, t) && Wait(obj) in s.lists
    ensures var r := Block(s, t, obj, flag, timed);
      r.thr.Keys == s.thr.Keys && forall x :: x in s.thr ==> r.thr[x].cur == s.thr[x].cur
  {
    SuspendWaits(s, t);
  }

  lemma WakeFirstCur(s: Sched, obj: nat, e: Err)
    requires Inv(s) && Wait(obj) in s.lists && s.lists[Wait(obj)] != []
    ensures var r := WakeFirst(s, obj, e);
      && r.thr.Keys == s.thr.Keys
      && forall x :: x in s.thr ==> r.thr[x].cur == s.thr[x].cur && r.thr[x].init == s.thr[x].init
  {
    QueueKnown(s, obj);
  }

  lemma {:induction false} WakeAllCur(s: Sched, obj: nat)
    requires Inv(s) && Wait(obj) in s.lists
    ensures WakeAll(s, obj).thr.Keys == s.thr.Keys
    ensures forall x :: x in s.thr ==> WakeAll(s, obj).thr[x].cur == s.thr[x].cur
    ensures forall x :: x in s.thr ==> WakeAll(s, obj).thr[x].init == s.thr[x].init
    decreases |s.lists[Wait(obj)]|
  {
    if s.lists[Wait(obj)] != [] {
      WakeFirstInv(s, obj, ERROR);
      WakeFirstCur(s, obj, ERROR);
      WakeAllCur(WakeFirst(s, obj, ERROR), obj);
    }
  }

  lemma WaitPi(k: Kernel, t: Tid, obj: nat, flag: bool, timed: bool)
    requires Pi(k) && Acts(k, t) && PlainQueue(k, obj)
    ensures Pi(Do(k, WaitOn(t, obj, flag, timed)))
  {
    var k' := Do(k, WaitOn(t, obj, flag, timed));
    StepKept(k, WaitOn(t, obj, flag, timed));
    BlockQueues(k.s, t, obj, flag, timed);
    BlockSteady(k.s, t, obj, flag, timed);
    SinceElsewhere(k, k', Blocked(t));
    QuietPi(k, k', t);
  }

  lemma WakePi(k: Kernel, st: Step)
    requires Pi(k) && PiAllowed(k, st) && (st.WakeOne? || st.WakeEvery?)
    ensures Pi(Do(k, st))
  {
    StepKept(k, st);
    if st.WakeOne? {
      WakeHeadInv(k.s, st.obj);
    } else {
      WakeAllInv(k.s, st.obj);
      WakeAllCur(k.s, st.obj);
    }
    QuietPi(k, Do(k, st), 0);
  }

  lemma SemTakeFrame(k: Kernel, t: Tid, x: nat, time: int)
    requires KInv(k) && Acts(k, t) && x in k.sem
    ensures var k' := SemTake(k, t, x, time).0;
      k'.mtx == k.mtx && KeepsQueues(k, k', t) && KeepsRunning(k, k') && KeepsSince(k, k')
  {
    var k' := SemTake(k, t, x, time).0;
    assert Wait(x) in k.s.lists by { assert SemOk(k, x); }
    if k.sem[x].value > 0 {
      SinceElsewhere(k, k', SemGranted(x));
    } else if time != 0 {
      WithErrorInv(k.s, t, EOK);
      var s0 := WithError(k.s, t, EOK);
      BlockQueues(s0, t, x, k.sem[x].prioFlag, time > 0);
      BlockSteady(s0, t, x, k.sem[x].prioFlag, time > 0);
      SinceElsewhere(k, k', Blocked(t));
    }
  }

  lemma SemTakePi(k: Kernel, t: Tid, x: nat, time: int)
    requires Pi(k) && Acts(k, t) && x in k.sem
    ensures Pi(Do(k, TakeSem(t, x, time)))
  {
    SemTakeInv(k, t, x, time);
    SemTakeFrame(k, t, x, time);
    QuietPi(k, SemTake(k, t, x, time).0, t);
  }

  lemma SinceTwice(k: Kernel, k': Kernel, e: Event, e': Event)
    requires KInv(k) && k'.log == k.log + [e] + [e'] && !e.Blocked? && !e'.Blocked?
    ensures KeepsSince(k, k')
  {
    LogAppend(k.log, e);
    LogAppend(k.log + [e], e');
  }

  lemma SemReleaseFrame(k: Kernel, x: nat)
    requires KInv(k) && x in k.sem
    ensures var k' := SemRelease(k, x).0;
      k'.mtx == k.mtx && KeepsQueues(k, k', 0) && KeepsRunning(k, k') && KeepsSince(k, k')
  {
    var k' := SemRelease(k, x).0;
    assert Wait(x) in k.s.lists by { assert SemOk(k, x); }
    if k.s.lists[Wait(x)] != [] {
      WakeHeadInv(k.s, x);
      SinceTwice(k, k', SemReleased(x), SemGranted(x));
    } else if k.sem[x].value < SEM_VALUE_MAX {
      SinceElsewhere(k, k', SemReleased(x));
    }
  }

  lemma SemReleasePi(k: Kernel, x: nat)
    requires Pi(k) && x in k.sem
    ensures Pi(Do(k, ReleaseSem(x)))
  {
    var k' := SemRelease(k, x).0;
    SemReleaseInv(k, x);
    SemReleaseFrame(k, x);
    SemPi(k, k');
  }

  lemma SemPi(k: Kernel, k': Kernel)
    requires Pi(k) && KInv(k') && k'.mtx == k.mtx
    requires KeepsQueues(k, k', 0) && KeepsRunning(k, k') && KeepsSince(k, k')
    ensures Pi(k')
  {
    QuietPi(k, k', 0);
  }

  lemma SemResetPi(k: Kernel, x: nat, v: nat)
    requires Pi(k) && x in k.sem
    ensures Pi(Do(k, ResetSem(x, v)))
  {
    var k' := Do(k, ResetSem(x, v));
    StepKept(k, ResetSem(x, v));
    assert SemOk(k, x);
    WakeAllInv(k.s, x);
    WakeAllCur(k.s, x);
    SinceElsewhere(k, k', SemSet(x, v % 0x10000));
    QuietPi(k, k', 0);
  }

  // ----- New objects -----

  lemma NewPi(k: Kernel, st: Step)
    requires Pi(k) && PiAllowed(k, st) && (st.NewSem? || st.NewQueue? || st.NewThread?)
    ensures Pi(Do(k, st))
  {
    StepKept(k, st);
    if st.NewSem? {
      SinceElsewhere(k, Do(k, st), SemSet(st.x, st.v));
    }
    QuietPi(k, Do(k, st), 0);
  }

  lemma NewMutexPi(k: Kernel, m: nat, flag: bool)
    requires Pi(k) && NeverUsed(k, m)
    ensures Pi(Do(k, NewMutex(m, flag)))
  {
    StepKept(k, NewMutex(m, flag));
    var k' := Do(k, NewMutex(m, flag));
    forall n: nat | n in k'.mtx && k'.mtx[n].prioFlag ensures Inherits(k', n) {
      if n != m {
        assert Inherits(k, n);
      }
    }
    forall n: nat, w, x: nat | n in k'.mtx && On(k'.s.lists, Wait(n), w) ensures !Owns(k', w, x) {
      assert On(k.s.lists, Wait(n), w);
      assert !Owns(k, w, x);
    }
    forall x, a: nat, b: nat | Owns(k', x, a) && Owns(k', x, b) ensures a == b {
      assert Owns(k, x, a) && Owns(k, x, b);
    }
  }

  // ----- rt_mutex_take -----

  lemma TakeHeldPi(k: Kernel, t: Tid, m: nat, time: int)
    requires Pi(k) && Acts(k, t) && m in k.mtx && k.mtx[m].owner == Some(t)
    ensures Pi(MutexTake(k, t, m, time).0)
  {
    TakeInv(k, t, m, time);
    var k' := MutexTake(k, t, m, time).0;
    if k.mtx[m].hold < MUTEX_HOLD_MAX {
      SinceElsewhere(k, k', Reacquired(m, t));
    }
    QuietPi(k, k', t);
  }

  /** A thread that runs waits for nothing. */
  lemma ActorWaitsNot(k: Kernel, t: Tid, m: nat)
    requires KInv(k) && Acts(k, t)
    ensures !On(k.s.lists, Wait(m), t)
  {
    assert ThreadOk(k.s, t);
  }

  lemma TakeFreeSolo(k: Kernel, k': Kernel, t: Tid, m: nat)
    requires Pi(k) && Acts(k, t) && m in k.mtx && (forall n: nat :: n != m ==> !Owns(k, t, n))
    requires k'.s.lists == k.s.lists && k'.mtx.Keys == k.mtx.Keys && k'.mtx[m].owner == Some(t)
    requires forall n: nat :: n in k.mtx && n != m ==> k'.mtx[n] == k.mtx[n]
    ensures Solo(k')
  {
    forall n: nat, w, x: nat | n in k'.mtx && On(k'.s.lists, Wait(n), w) ensures !Owns(k', w, x) {
      assert On(k.s.lists, Wait(n), w) && !Owns(k, w, x);
      ActorWaitsNot(k, t, n);
    }
    forall x, a: nat, b: nat | Owns(k', x, a) && Owns(k', x, b) ensures a == b {
      assert a != m ==> Owns(k, x, a);
      assert b != m ==> Owns(k, x, b);
    }
  }

  /** Owner t of a mutex nobody waits for inherits nothing. */
  lemma AloneInherits(k: Kernel, t: Tid, m: nat)
    requires m in k.mtx && Wait(m) in k.s.lists && k.s.lists[Wait(m)] == []
    requires k.mtx[m].owner == Some(t) && t in k.s.thr && k.mtx[m].orig == k.s.thr[t].cur
    ensures Inherits(k, m)
  {
  }

  lemma TakeFreeIs(k: Kernel, t: Tid, m: nat, time: int)
    requires KInv(k) && Acts(k, t) && m in k.mtx && k.mtx[m].owner.None?
    ensures var k', mu, p := MutexTake(k, t, m, time).0, k.mtx[m], k.s.thr[t].cur;
      && k'.s == WithError(k.s, t, EOK) && k'.log == k.log + [Acquired(m, t, p)]
      && Wait(m) in k.s.lists && k.s.lists[Wait(m)] == []
      && k'.mtx == k.mtx[m := mu.(value := 0, hold := 1, owner := Some(t), orig := p)]
  {
    assert MutexOk(k, m);
  }

  lemma TakeFreePi(k: Kernel, t: Tid, m: nat, time: int)
    requires Pi(k) && Acts(k, t) && m in k.mtx && k.mtx[m].owner.None?
    requires forall n: nat :: n != m ==> !Owns(k, t, n)
    ensures Pi(MutexTake(k, t, m, time).0)
  {
    TakeInv(k, t, m, time);
    TakeFreeIs(k, t, m, time);
    var k' := MutexTake(k, t, m, time).0;
    SinceElsewhere(k, k', Acquired(m, t, k.s.thr[t].cur));
    TakeFreeSolo(k, k', t, m);
    forall n: nat | n in k'.mtx && k'.mtx[n].prioFlag ensures Inherits(k', n) {
      if n == m {
        AloneInherits(k', t, m);
      } else {
        OtherInherits(k, k', t, n);
      }
    }
  }

  /** A mutex whose record, waiters and owner's priority are untouched still inherits. */
  lemma OtherInherits(k: Kernel, k': Kernel, t: Tid, n: nat)
    requires n in k.mtx && Wait(n) in k.s.lists && Inherits(k, n) && KeepsSince(k, k')
    requires n in k'.mtx && k'.mtx[n] == k.mtx[n] && Wait(n) in k'.s.lists && k'.s.lists[Wait(n)] == k.s.lists[Wait(n)]
    requires k'.s.thr.Keys == k.s.thr.Keys
    requires forall x :: x in k.s.lists[Wait(n)] ==> x in k.s.thr && k'.s.thr[x].cur == k.s.thr[x].cur
    requires k.mtx[n].owner.Some? && k.mtx[n].owner.value in k.s.thr ==>
      k'.s.thr[k.mtx[n].owner.value].cur == k.s.thr[k.mtx[n].owner.value].cur
    ensures Inherits(k', n)
  {
    assert forall x :: x in k.s.lists[Wait(n)] ==> On(k.s.lists, Wait(n), x);
    InheritsFrame(k, k', t, n);
  }

  // ----- rt_mutex_take on a mutex somebody else holds -----

  /** Threads thr1 are thr but for the priority of o, which may have become more urgent. */
  ghost predicate Boosted(thr: map<Tid, Thread>, thr1: map<Tid, Thread>, o: Tid) {
    && thr1.Keys == thr.Keys && o in thr
    && (forall x :: x in thr && x != o ==> thr1[x].cur == thr[x].cur)
    && thr1[o].cur <= thr[o].cur
  }

  /** No thread in the queue of a mutex owns one. */
  lemma OwnerWaitsNot(k: Kernel, o: Tid, m: nat, n: nat)
    requires Pi(k) && Owns(k, o, m) && n in k.mtx
    ensures o !in k.s.lists[Wait(n)]
  {
    assert !On(k.s.lists, Wait(n), o);
  }

  lemma QueueSince(k: Kernel, t: Tid, n: nat)
    requires KInv(k) && Acts(k, t) && n in k.mtx && Wait(n) in k.s.lists
    ensures t !in k.s.lists[Wait(n)]
    ensures forall x :: x in k.s.lists[Wait(n)] ==> BlockedSince(k.log + [Blocked(t)], x) == BlockedSince(k.log, x)
  {
    QueueKnown(k.s, n);
    LogAppend(k.log, Blocked(t));
  }

  /** Mutexes other than the one waited for do not notice. */
  lemma TakeBlocksOthers(k: Kernel, k': Kernel, t: Tid, o: Tid, m: nat, n: nat)
    requires Pi(k) && Owns(k, o, m) && Boosted(k.s.thr, k'.s.thr, o)
    requires n in k.mtx && n != m && k.mtx[n].prioFlag
    requires k'.mtx == k.mtx && k'.log == k.log + [Blocked(t)] && Acts(k, t)
    requires Wait(n) in k'.s.lists && k'.s.lists[Wait(n)] == k.s.lists[Wait(n)]
    ensures Inherits(k', n)
  {
    assert Inherits(k, n);
    QueueSince(k, t, n);
    OwnerWaitsNot(k, o, m, n);
    InheritsFrame(k, k', t, n);
  }

  lemma {:induction false} PositionSame(thr: map<Tid, Thread>, thr': map<Tid, Thread>, q: seq<Tid>, c: Prio, i: nat)
    requires i <= |q| && forall x :: x in q ==> x in thr && x in thr' && thr'[x].cur == thr[x].cur
    ensures Position(thr', q, c, i) == Position(thr, q, c, i)
    decreases |q| - i
  {
    if i < |q| {
      assert q[i] in q;
      PositionSame(thr, thr', q, c, i + 1);
    }
  }

  /** Where Block puts the thread. */
  lemma BlockJoins(s: Sched, t: Tid, obj: nat, timed: bool)
    requires Inv(s) && CanRun(s, t) && Wait(obj) in s.lists
    ensures var q, r := s.lists[Wait(obj)], Block(s, t, obj, true, timed);
      && (forall x :: x in q ==> x in s.thr)
      && Wait(obj) in r.lists
      && var p := Position(s.thr, q, s.thr[t].cur, 0); r.lists[Wait(obj)] == q[..p] + [t] + q[p..]
  {
    SuspendInv(s, t);
    SuspendWaits(s, t);
    QueueKnown(s, obj);
    PositionSame(s.thr, Suspend(s, t).thr, s.lists[Wait(obj)], s.thr[t].cur, 0);
  }

  /** The queue with its new member is in order, whatever the boost did to a thread outside it. */
  lemma JoinBoosted(thr: map<Tid, Thread>, thr1: map<Tid, Thread>, log: Log, q: seq<Tid>, t: Tid, o: Tid)
    requires Ordered(thr, log, q) && Boosted(thr, thr1, o) && o !in q && t !in q && t in thr1
    ensures var p := Position(thr1, q, thr1[t].cur, 0);
      Ordered(thr1, log + [Blocked(t)], q[..p] + [t] + q[p..])
  {
    OrderedSame(thr, log, thr1, log, q);
    JoinOrdered(thr1, log, q, t);
  }

  /** The mutex waited for: the queue is joined in order and the owner is as urgent as the new waiter. */
  lemma JoinInherits(k: Kernel, k': Kernel, t: Tid, o: Tid, m: nat)
    requires m in k.mtx && Wait(m) in k.s.lists && Inherits(k, m) && t in k.s.thr && BlockedOn(k, k', t, o, m)
    requires k.mtx[m].owner == Some(o) && k.mtx[m].prioFlag && t != o
    requires o !in k.s.lists[Wait(m)] && t !in k.s.lists[Wait(m)]
    ensures Inherits(k', m)
  {
    var q := k.s.lists[Wait(m)];
    JoinBoosted(k.s.thr, k'.s.thr, k.log, q, t, o);
    forall w | w in k'.s.lists[Wait(m)] ensures k'.s.thr[o].cur <= k'.s.thr[w].cur {
      assert w == t || w in q;
    }
  }

  lemma TakeBlocksJoins(k: Kernel, k': Kernel, t: Tid, o: Tid, m: nat)
    requires Pi(k) && Acts(k, t) && Owns(k, o, m) && t != o && k.mtx[m].prioFlag
    requires BlockedOn(k, k', t, o, m)
    ensures Inherits(k', m)
  {
    OwnerWaitsNot(k, o, m, m);
    QueueSince(k, t, m);
    JoinInherits(k, k', t, o, m);
  }

  lemma TakeBusySolo(k: Kernel, k': Kernel, t: Tid, m: nat)
    requires Pi(k) && (forall n: nat :: !Owns(k, t, n)) && k'.mtx == k.mtx
    requires forall n: nat, w :: n in k.mtx && On(k'.s.lists, Wait(n), w) ==> w == t || On(k.s.lists, Wait(n), w)
    ensures Solo(k')
  {
    forall n: nat, w, x: nat | n in k'.mtx && On(k'.s.lists, Wait(n), w) ensures !Owns(k', w, x) {
      assert !Owns(k, t, x);
      assert On(k.s.lists, Wait(n), w) ==> !Owns(k, w, x);
    }
    forall x, a: nat, b: nat | Owns(k', x, a) && Owns(k', x, b) ensures a == b {
      assert Owns(k, x, a) && Owns(k, x, b);
    }
  }

  /** What the state is after blocking on m behind owner o. */
  ghost predicate BlockedOn(k: Kernel, k': Kernel, t: Tid, o: Tid, m: nat)
    requires m in k.mtx && Wait(m) in k.s.lists && t in k.s.thr
  {
    && k'.mtx == k.mtx && k'.log == k.log + [Blocked(t)]
    && Boosted(k.s.thr, k'.s.thr, o) && t in k'.s.thr && k'.s.thr[o].cur <= k.s.thr[t].cur
    && JoinedQueue(k.s.lists, k'.s.lists, k'.s.thr, t, m, k.mtx[m].prioFlag)
  }

  /** Only queue m has changed: t has joined it, at the place its flag calls for. */
  ghost predicate JoinedQueue(ls: Lists, ls': Lists, thr: map<Tid, Thread>, t: Tid, m: nat, flag: bool)
    requires Wait(m) in ls && t in thr
  {
    && ls'.Keys == ls.Keys
    && (forall n: nat :: Wait(n) in ls && n != m ==> ls'[Wait(n)] == ls[Wait(n)])
    && (forall w :: w in ls'[Wait(m)] ==> w == t || w in ls[Wait(m)])
    && (flag ==>
          var q := ls[Wait(m)];
          && (forall x :: x in q ==> x in thr)
          && var p := Position(thr, q, thr[t].cur, 0); ls'[Wait(m)] == q[..p] + [t] + q[p..])
  }

  lemma TakeBusyPiFrom(k: Kernel, k': Kernel, t: Tid, o: Tid, m: nat)
    requires Pi(k) && Acts(k, t) && Owns(k, o, m) && t != o && (forall n: nat :: !Owns(k, t, n))
    requires KInv(k') && BlockedOn(k, k', t, o, m)
    ensures Pi(k')
  {
    TakeBusySolo(k, k', t, m);
    forall n: nat | n in k'.mtx && k'.mtx[n].prioFlag ensures Inherits(k', n) {
      if n == m {
        TakeBlocksJoins(k, k', t, o, m);
      } else {
        TakeBlocksOthers(k, k', t, o, m, n);
      }
    }
  }

  lemma BlockMembers(s: Sched, t: Tid, obj: nat, flag: bool, timed: bool)
    requires Inv(s) && CanRun(s, t) && Wait(obj) in s.lists
    ensures Wait(obj) in Block(s, t, obj, flag, timed).lists
    ensures forall w :: w in Block(s, t, obj, flag, timed).lists[Wait(obj)] ==> w == t || w in s.lists[Wait(obj)]
  {
    SuspendInv(s, t);
    SuspendWaits(s, t);
  }

  lemma BoostBlock(k: Kernel, s1: Sched, t: Tid, o: Tid, m: nat, timed: bool)
    requires t in k.s.thr && m in k.mtx && Wait(m) in k.s.lists && t != o
    requires Inv(s1) && Boosted(k.s.thr, s1.thr, o) && CanRun(s1, t) && s1.thr[o].cur <= k.s.thr[t].cur
    requires s1.lists.Keys == k.s.lists.Keys
    requires forall x: nat :: Wait(x) in k.s.lists ==> s1.lists[Wait(x)] == k.s.lists[Wait(x)]
    ensures BlockedOn(k, Kernel(Block(s1, t, m, k.mtx[m].prioFlag, timed), k.mtx, k.sem, k.log + [Blocked(t)]), t, o, m)
  {
    var flag := k.mtx[m].prioFlag;
    BlockQueues(s1, t, m, flag, timed);
    BlockJoinedQueue(s1, t, m, flag, timed);
    BlockedFrom(k, s1, Block(s1, t, m, flag, timed), t, o, m);
  }

  lemma BlockedFrom(k: Kernel, s1: Sched, r: Sched, t: Tid, o: Tid, m: nat)
    requires t in k.s.thr && m in k.mtx && Wait(m) in k.s.lists && t != o && t in s1.thr
    requires Boosted(k.s.thr, s1.thr, o) && s1.thr[o].cur <= k.s.thr[t].cur && s1.lists.Keys == k.s.lists.Keys
    requires forall x: nat :: Wait(x) in k.s.lists ==> s1.lists[Wait(x)] == k.s.lists[Wait(x)]
    requires r.thr.Keys == s1.thr.Keys && forall x :: x in s1.thr ==> r.thr[x].cur == s1.thr[x].cur
    requires JoinedQueue(s1.lists, r.lists, r.thr, t, m, k.mtx[m].prioFlag)
    ensures BlockedOn(k, Kernel(r, k.mtx, k.sem, k.log + [Blocked(t)]), t, o, m)
  {
    JoinedElsewhere(k.s.lists, s1.lists, r.lists, r.thr, t, m, k.mtx[m].prioFlag);
  }

  lemma JoinedElsewhere(ls: Lists, ls1: Lists, ls': Lists, thr: map<Tid, Thread>, t: Tid, m: nat, flag: bool)
    requires Wait(m) in ls1 && t in thr && JoinedQueue(ls1, ls', thr, t, m, flag)
    requires ls1.Keys == ls.Keys && forall x: nat :: Wait(x) in ls ==> ls1[Wait(x)] == ls[Wait(x)]
    ensures JoinedQueue(ls, ls', thr, t, m, flag)
  {
  }

  lemma BlockJoinedQueue(s: Sched, t: Tid, m: nat, flag: bool, timed: bool)
    requires Inv(s) && CanRun(s, t) && Wait(m) in s.lists
    ensures var r := Block(s, t, m, flag, timed);
      t in r.thr && JoinedQueue(s.lists, r.lists, r.thr, t, m, flag)
  {
    var r := Block(s, t, m, flag, timed);
    assert r.lists.Keys == s.lists.Keys && forall n: nat :: Wait(n) in s.lists && n != m ==> r.lists[Wait(n)] == s.lists[Wait(n)] by {
      BlockSteady(s, t, m, flag, timed);
    }
    BlockQueues(s, t, m, flag, timed);
    BlockMembers(s, t, m, flag, timed);
    if flag {
      BlockJoinsAs(s, t, m, timed, r.thr);
    }
  }

  /** The place, read off the threads as they are afterwards. */
  lemma BlockJoinsAs(s: Sched, t: Tid, obj: nat, timed: bool, thr: map<Tid, Thread>)
    requires Inv(s) && CanRun(s, t) && Wait(obj) in s.lists
    requires thr.Keys == s.thr.Keys && forall x :: x in s.thr ==> thr[x].cur == s.thr[x].cur
    ensures var q, r := s.lists[Wait(obj)], Block(s, t, obj, true, timed);
      && (forall x :: x in q ==> x in thr)
      && Wait(obj) in r.lists
      && var p := Position(thr, q, thr[t].cur, 0); r.lists[Wait(obj)] == q[..p] + [t] + q[p..]
  {
    BlockJoins(s, t, obj, timed);
    PositionSame(s.thr, thr, s.lists[Wait(obj)], s.thr[t].cur, 0);
  }

  /** The boost of owner o by thread t, which has just cleared its error code. */
  lemma BoostIs(s: Sched, t: Tid, o: Tid)
    requires Inv(s) && CanRun(s, t) && Alive(s, o) && t != o
    ensures Inv(WithError(s, t, EOK))
    ensures var s1 := Boost(WithError(s, t, EOK), t, o);
      && Inv(s1) && Boosted(s.thr, s1.thr, o) && CanRun(s1, t) && s1.thr[o].cur <= s.thr[t].cur
      && s1.lists.Keys == s.lists.Keys
      && (forall x: nat :: Wait(x) in s.lists ==> s1.lists[Wait(x)] == s.lists[Wait(x)])
  {
    WithErrorInv(s, t, EOK);
    BoostShape(WithError(s, t, EOK), t, o);
  }

  lemma BoostShape(s: Sched, t: Tid, o: Tid)
    requires Inv(s) && CanRun(s, t) && Alive(s, o) && t != o
    ensures var s1 := Boost(s, t, o);
      && Inv(s1) && Boosted(s.thr, s1.thr, o) && CanRun(s1, t) && s1.thr[o].cur <= s.thr[t].cur
      && s1.lists.Keys == s.lists.Keys
      && (forall x: nat :: Wait(x) in s.lists ==> s1.lists[Wait(x)] == s.lists[Wait(x)])
  {
    BoostInv(s, t, o);
  }

  lemma TakeBusyIs(k: Kernel, t: Tid, o: Tid, m: nat, time: int)
    requires KInv(k) && Acts(k, t) && Owns(k, o, m) && t != o && time != 0
    ensures Alive(k.s, o) && Wait(m) in k.s.lists && Inv(WithError(k.s, t, EOK))
    ensures var s1 := Boost(WithError(k.s, t, EOK), t, o);
      && Inv(s1) && Boosted(k.s.thr, s1.thr, o) && CanRun(s1, t) && s1.thr[o].cur <= k.s.thr[t].cur
      && s1.lists.Keys == k.s.lists.Keys
      && (forall x: nat :: Wait(x) in k.s.lists ==> s1.lists[Wait(x)] == k.s.lists[Wait(x)])
      && MutexTake(k, t, m, time).0 ==
         Kernel(Block(s1, t, m, k.mtx[m].prioFlag, time > 0), k.mtx, k.sem, k.log + [Blocked(t)])
  {
    assert MutexOk(k, m);
    BoostIs(k.s, t, o);
  }

  /** rt_mutex_take on a held mutex, waiting: boost, then block. */
  lemma TakeBusyBlocks(k: Kernel, t: Tid, o: Tid, m: nat, time: int)
    requires KInv(k) && Acts(k, t) && Owns(k, o, m) && t != o && time != 0
    ensures Wait(m) in k.s.lists && BlockedOn(k, MutexTake(k, t, m, time).0, t, o, m)
  {
    TakeBusyIs(k, t, o, m, time);
    var s1 := Boost(WithError(k.s, t, EOK), t, o);
    BoostBlock(k, s1, t, o, m, time > 0);
  }

  lemma TakeTimesOut(k: Kernel, t: Tid, m: nat)
    requires KInv(k) && Acts(k, t) && m in k.mtx && k.mtx[m].owner.Some? && k.mtx[m].owner != Some(t)
    ensures var k' := MutexTake(k, t, m, 0).0;
      SameOwners(k, k') && KeepsQueues(k, k', t) && KeepsRunning(k, k') && KeepsSince(k, k')
  {
    assert k.mtx[m].value == 0 by { assert MutexOk(k, m); }
  }

  lemma TakeBusyPi(k: Kernel, t: Tid, m: nat, time: int)
    requires Pi(k) && PiAllowed(k, TakeMutex(t, m, time)) && k.mtx[m].owner.Some? && k.mtx[m].owner != Some(t)
    ensures Pi(MutexTake(k, t, m, time).0)
  {
    var k', o := MutexTake(k, t, m, time).0, k.mtx[m].owner.value;
    TakeInv(k, t, m, time);
    if time == 0 {
      TakeTimesOut(k, t, m);
      QuietPi(k, k', t);
    } else {
      TakeBusyBlocks(k, t, o, m, time);
      TakeBusyPiFrom(k, k', t, o, m);
    }
  }

  lemma TakePi(k: Kernel, t: Tid, m: nat, time: int)
    requires Pi(k) && PiAllowed(k, TakeMutex(t, m, time))
    ensures Pi(MutexTake(k, t, m, time).0)
  {
    if k.mtx[m].owner == Some(t) {
      TakeHeldPi(k, t, m, time);
    } else if k.mtx[m].owner.None? {
      TakeFreePi(k, t, m, time);
    } else {
      TakeBusyPi(k, t, m, time);
    }
  }

  // ----- rt_mutex_release -----

  /** A release that keeps the owner: refused, or not the last one. */
  lemma ReleaseKeepsPi(k: Kernel, t: Tid, m: nat)
    requires Pi(k) && Acts(k, t) && m in k.mtx && (k.mtx[m].owner == Some(t) ==> k.mtx[m].hold > 1)
    ensures Pi(MutexRelease(k, t, m).0)
  {
    ReleaseInv(k, t, m);
    var k' := MutexRelease(k, t, m).0;
    if k.mtx[m].owner == Some(t) {
      SinceElsewhere(k, k', Released(m, t));
    }
    QuietPi(k, k', t);
  }

  /** The last release of m by t, up to the point where m finds its next owner. */
  ghost predicate LetGo(k: Kernel, k': Kernel, t: Tid, m: nat)
    requires m in k.mtx
  {
    && k'.mtx.Keys == k.mtx.Keys && (forall n: nat :: n in k.mtx && n != m ==> k'.mtx[n] == k.mtx[n])
    && k'.mtx[m].prioFlag == k.mtx[m].prioFlag
    && k'.s.thr.Keys == k.s.thr.Keys && k'.s.lists.Keys == k.s.lists.Keys
    && (forall x :: x in k.s.thr && x != t ==> k'.s.thr[x].cur == k.s.thr[x].cur)
    && (forall n: nat :: Wait(n) in k.s.lists && n != m ==> k'.s.lists[Wait(n)] == k.s.lists[Wait(n)])
    && KeepsSince(k, k')
  }

  lemma LetGoOthers(k: Kernel, k': Kernel, t: Tid, m: nat, n: nat)
    requires Pi(k) && Owns(k, t, m) && n in k.mtx && n != m && k.mtx[n].prioFlag && LetGo(k, k', t, m)
    ensures Wait(n) in k'.s.lists && Inherits(k', n)
  {
    assert Inherits(k, n);
    OwnerWaitsNot(k, t, m, n);
    assert !Owns(k, t, n);
    OtherInherits(k, k', t, n);
  }

  lemma LetGoPi(k: Kernel, k': Kernel, t: Tid, m: nat)
    requires Pi(k) && KInv(k') && Owns(k, t, m) && LetGo(k, k', t, m) && Solo(k')
    requires k.mtx[m].prioFlag ==> Inherits(k', m)
    ensures Pi(k')
  {
    forall n: nat | n in k'.mtx && k'.mtx[n].prioFlag ensures Inherits(k', n) {
      if n != m {
        LetGoOthers(k, k', t, m, n);
      }
    }
  }

  lemma ReleaseFreesHow(k: Kernel, t: Tid, m: nat)
    requires KInv(k) && Acts(k, t) && Owns(k, t, m) && k.mtx[m].hold == 1
    requires Wait(m) in k.s.lists && k.s.lists[Wait(m)] == []
    ensures var k' := MutexRelease(k, t, m).0;
      && LetGo(k, k', t, m) && k'.mtx[m].owner == None && k'.s.lists[Wait(m)] == []
      && t in k'.s.thr && k'.s.thr[t].cur == k.mtx[m].orig
  {
    ReleaseFreesIs(k, t, m);
    FreedHow(k, MutexRelease(k, t, m).0, t, m);
  }

  lemma FreedHow(k: Kernel, k': Kernel, t: Tid, m: nat)
    requires KInv(k) && Acts(k, t) && m in k.mtx && k'.log == k.log + [Released(m, t)]
    requires k'.s == Restore(k.s, t, k.mtx[m].orig) && k'.mtx.Keys == k.mtx.Keys
    requires k'.mtx[m].prioFlag == k.mtx[m].prioFlag && forall n: nat :: n in k.mtx && n != m ==> k'.mtx[n] == k.mtx[n]
    ensures LetGo(k, k', t, m) && t in k'.s.thr && k'.s.thr[t].cur == k.mtx[m].orig
    ensures forall n: nat :: Wait(n) in k.s.lists ==> Wait(n) in k'.s.lists && k'.s.lists[Wait(n)] == k.s.lists[Wait(n)]
  {
    SinceElsewhere(k, k', Released(m, t));
    RestoreInv(k.s, t, k.mtx[m].orig);
  }

  lemma FreedSolo(k: Kernel, k': Kernel, t: Tid, m: nat)
    requires Solo(k) && m in k.mtx && LetGo(k, k', t, m) && k'.mtx[m].owner == None
    requires Wait(m) in k'.s.lists && k'.s.lists[Wait(m)] == []
    ensures Solo(k')
  {
    forall x, n: nat | Owns(k', x, n) ensures Owns(k, x, n) {
    }
    forall n: nat, w, x: nat | n in k'.mtx && On(k'.s.lists, Wait(n), w) ensures !Owns(k', w, x) {
      assert On(k.s.lists, Wait(n), w);
    }
  }

  lemma ReleaseFreesPi(k: Kernel, t: Tid, m: nat)
    requires Pi(k) && Acts(k, t) && Owns(k, t, m) && k.mtx[m].hold == 1 && k.s.lists[Wait(m)] == []
    ensures Pi(MutexRelease(k, t, m).0)
  {
    ReleaseInv(k, t, m);
    ReleaseFreesHow(k, t, m);
    FreedSolo(k, MutexRelease(k, t, m).0, t, m);
    LetGoPi(k, MutexRelease(k, t, m).0, t, m);
  }

  /** What a hand-off leaves: the head of the queue owns m, at its own priority. */
  ghost predicate HandedOff(k: Kernel, k': Kernel, t: Tid, m: nat)
    requires Wait(m) in k.s.lists && k.s.lists[Wait(m)] != [] && m in k.mtx
  {
    var w := k.s.lists[Wait(m)][0];
    && LetGo(k, k', t, m) && k'.mtx[m].owner == Some(w)
    && w in k'.s.thr && k'.mtx[m].orig == k'.s.thr[w].cur && k'.s.lists[Wait(m)] == k.s.lists[Wait(m)][1..]
    && t in k'.s.thr && k'.s.thr[t].cur == k.mtx[m].orig
  }

  lemma ResumeCur(s: Sched, t: Tid)
    requires Inv(s) && t in s.thr
    ensures Resume(s, t).thr.Keys == s.thr.Keys
    ensures forall x :: x in s.thr ==> Resume(s, t).thr[x].cur == s.thr[x].cur
  {
  }

  lemma RestoredIs(s: Sched, t: Tid, p: Prio, m: nat)
    requires Inv(s) && CanRun(s, t) && Wait(m) in s.lists && s.lists[Wait(m)] != []
    ensures Inv(Restore(s, t, p)) && Wait(m) in Restore(s, t, p).lists && Restore(s, t, p).lists[Wait(m)] == s.lists[Wait(m)]
    ensures var w, s1 := s.lists[Wait(m)][0], Restore(s, t, p);
      && w in s.thr && w != t && w in s1.thr && s1.thr[w].cur == s.thr[w].cur
      && var r := WakeHead(s1, m);
      && r.thr.Keys == s.thr.Keys && r.lists.Keys == s.lists.Keys && r.lists[Wait(m)] == s.lists[Wait(m)][1..]
      && (forall n: nat :: Wait(n) in s.lists && n != m ==> r.lists[Wait(n)] == s.lists[Wait(n)])
      && r.thr[t].cur == p && forall x :: x in s.thr && x != t ==> r.thr[x].cur == s.thr[x].cur
  {
    RestoreInv(s, t, p);
    QueueKnown(s, m);
    WakeHeadInv(Restore(s, t, p), m);
    ResumeCur(Restore(s, t, p), s.lists[Wait(m)][0]);
  }

  lemma ReleaseWithWaiters(k: Kernel, t: Tid, m: nat)
    requires KInv(k) && Acts(k, t) && Owns(k, t, m) && k.mtx[m].hold == 1
    requires Wait(m) in k.s.lists && k.s.lists[Wait(m)] != []
    ensures Inv(Restore(k.s, t, k.mtx[m].orig)) && Wait(m) in Restore(k.s, t, k.mtx[m].orig).lists
    ensures var k', s1, w := MutexRelease(k, t, m).0, Restore(k.s, t, k.mtx[m].orig), k.s.lists[Wait(m)][0];
      && s1.lists[Wait(m)] == k.s.lists[Wait(m)] && w in s1.thr && k'.s == WakeHead(s1, m)
      && k'.mtx == k.mtx[m := k.mtx[m].(owner := Some(w), orig := s1.thr[w].cur)]
      && k'.log == k.log + [Released(m, t)] + [Acquired(m, w, s1.thr[w].cur)]
  {
    RestoreInv(k.s, t, k.mtx[m].orig);
    QueueKnown(Restore(k.s, t, k.mtx[m].orig), m);
  }

  lemma HandedOffFrom(k: Kernel, k': Kernel, t: Tid, m: nat)
    requires Inv(k.s) && Acts(k, t) && m in k.mtx && Wait(m) in k.s.lists && k.s.lists[Wait(m)] != []
    requires Inv(Restore(k.s, t, k.mtx[m].orig)) && Wait(m) in Restore(k.s, t, k.mtx[m].orig).lists && KeepsSince(k, k')
    requires var s1, w := Restore(k.s, t, k.mtx[m].orig), k.s.lists[Wait(m)][0];
      && s1.lists[Wait(m)] == k.s.lists[Wait(m)] && w in s1.thr && k'.s == WakeHead(s1, m)
      && k'.mtx == k.mtx[m := k.mtx[m].(owner := Some(w), orig := s1.thr[w].cur)]
    ensures HandedOff(k, k', t, m)
  {
    RestoredIs(k.s, t, k.mtx[m].orig, m);
  }

  lemma ReleaseHandsOffIs(k: Kernel, t: Tid, m: nat)
    requires KInv(k) && Acts(k, t) && Owns(k, t, m) && k.mtx[m].hold == 1
    requires Wait(m) in k.s.lists && k.s.lists[Wait(m)] != []
    ensures HandedOff(k, MutexRelease(k, t, m).0, t, m)
  {
    var k', w := MutexRelease(k, t, m).0, k.s.lists[Wait(m)][0];
    ReleaseWithWaiters(k, t, m);
    SinceTwice(k, k', Released(m, t), Acquired(m, w, Restore(k.s, t, k.mtx[m].orig).thr[w].cur));
    HandedOffFrom(k, k', t, m);
  }

  lemma HandedOffSolo(k: Kernel, k': Kernel, t: Tid, m: nat)
    requires Solo(k) && Inv(k.s) && Owns(k, t, m) && Wait(m) in k.s.lists && k.s.lists[Wait(m)] != []
    requires HandedOff(k, k', t, m)
    ensures Solo(k')
  {
    var q, w := k.s.lists[Wait(m)], k.s.lists[Wait(m)][0];
    assert On(k.s.lists, Wait(m), w);
    assert w !in q[1..];
    forall x, n: nat | Owns(k', x, n) ensures (n == m && x == w) || (x != w && Owns(k, x, n)) {
      assert n != m ==> Owns(k, x, n);
      assert !Owns(k, w, n);
    }
    forall n: nat, v, x: nat | n in k'.mtx && On(k'.s.lists, Wait(n), v) ensures !Owns(k', v, x) {
      assert On(k.s.lists, Wait(n), v);
    }
  }

  /** The new owner headed an ordered queue, so it is as urgent as everyone it leaves behind. */
  lemma HandedOffInherits(k: Kernel, k': Kernel, t: Tid, m: nat)
    requires m in k.mtx && Wait(m) in k.s.lists && k.s.lists[Wait(m)] != [] && Inherits(k, m)
    requires t !in k.s.lists[Wait(m)] && HandedOff(k, k', t, m)
    ensures Inherits(k', m)
  {
    var q := k.s.lists[Wait(m)];
    assert forall x :: x in q ==> On(k.s.lists, Wait(m), x);
    OrderedSame(k.s.thr, k.log, k'.s.thr, k'.log, q);
    forall x | x in q[1..] ensures k'.s.thr[q[0]].cur <= k'.s.thr[x].cur {
      var j :| 1 <= j < |q| && q[j] == x;
      assert Before(k'.s.thr, k'.log, q[0], q[j]);
    }
  }

  lemma ReleaseHandsOffPi(k: Kernel, t: Tid, m: nat)
    requires Pi(k) && Acts(k, t) && Owns(k, t, m) && k.mtx[m].hold == 1 && k.s.lists[Wait(m)] != []
    ensures Pi(MutexRelease(k, t, m).0)
  {
    var k' := MutexRelease(k, t, m).0;
    ReleaseInv(k, t, m);
    ReleaseHandsOffIs(k, t, m);
    HandedOffSolo(k, k', t, m);
    if k.mtx[m].prioFlag {
      OwnerWaitsNot(k, t, m, m);
      HandedOffInherits(k, k', t, m);
    }
    LetGoPi(k, k', t, m);
  }

  lemma ReleasePi(k: Kernel, t: Tid, m: nat)
    requires Pi(k) && Acts(k, t) && m in k.mtx
    ensures Pi(MutexRelease(k, t, m).0)
  {
    assert k.mtx[m].owner == Some(t) ==> k.mtx[m].hold > 0 by { assert MutexOk(k, m); }
    if k.mtx[m].owner != Some(t) || k.mtx[m].hold > 1 {
      ReleaseKeepsPi(k, t, m);
    } else if k.s.lists[Wait(m)] == [] {
      ReleaseFreesPi(k, t, m);
    } else {
      ReleaseHandsOffPi(k, t, m);
    }
  }

  // ----- All runs -----

  lemma StepPi(k: Kernel, st: Step)
    requires Pi(k) && PiAllowed(k, st)
    ensures Pi(Do(k, st))
  {
    if ThreadStep(st) {
      ThreadStepPi(k, st);
    } else {
      ObjectStepPi(k, st);
    }
  }

  lemma ObjectStepPi(k: Kernel, st: Step)
    requires Pi(k) && PiAllowed(k, st) && !ThreadStep(st)
    ensures Pi(Do(k, st))
  {
    if st.NewMutex? {
      NewMutexPi(k, st.m, st.prioFlag);
    } else if st.NewSem? || st.NewQueue? || st.NewThread? {
      NewPi(k, st);
    } else if st.WakeOne? || st.WakeEvery? {
      WakePi(k, st);
    } else {
      match st
      case WaitOn(t, obj, flag, timed) => WaitPi(k, t, obj, flag, timed);
      case TakeMutex(t, m, time) => TakePi(k, t, m, time);
      case ReleaseMutex(t, m) => ReleasePi(k, t, m);
      case TakeSem(t, x, time) => SemTakePi(k, t, x, time);
      case ReleaseSem(x) => SemReleasePi(k, x);
      case ResetSem(x, v) => SemResetPi(k, x, v);
    }
  }

  /** As Reaches, under the discipline of this module. */
  ghost predicate PiReaches(k: Kernel, steps: seq<Step>, k': Kernel)
    decreases |steps|
  {
    if steps == [] then k' == k
    else KInv(k) && PiAllowed(k, steps[0]) && PiReaches(Do(k, steps[0]), steps[1..], k')
  }

  lemma {:induction false} RunPi(k: Kernel, steps: seq<Step>, k': Kernel)
    requires Pi(k) && PiReaches(k, steps, k')
    ensures Pi(k')
    decreases |steps|
  {
    if steps != [] {
      StepPi(k, steps[0]);
      RunPi(Do(k, steps[0]), steps[1..], k');
    }
  }

  /**
    In every run: each priority queue is ordered, FIFO among equals, and the owner's current priority
    is never less urgent than that of any thread waiting for it.
   */
  lemma NoInversion(steps: seq<Step>, k: Kernel, m: nat, o: Tid)
    requires PiReaches(Boot(), steps, k) && Owns(k, o, m) && k.mtx[m].prioFlag
    ensures Wait(m) in k.s.lists && o in k.s.thr && Ordered(k.s.thr, k.log, k.s.lists[Wait(m)])
    ensures forall w :: w in k.s.lists[Wait(m)] ==> w in k.s.thr && k.s.thr[o].cur <= k.s.thr[w].cur
  {
    BootInv();
    RunPi(Boot(), steps, k);
    assert Inherits(k, m);
  }

  /**
    In every run: the last release gives the owner back the priority it had when it acquired the
    mutex, and the next owner, if any, is the head of the queue.
   */
  lemma ReleaseRestores(steps: seq<Step>, k: Kernel, m: nat, o: Tid)
    requires Reaches(Boot(), steps, k) && Acts(k, o) && Owns(k, o, m) && k.mtx[m].hold == 1
    ensures KInv(k)
    ensures var k' := MutexRelease(k, o, m).0;
      && o in k'.s.thr && k'.s.thr[o].cur == AcquiredAt(k.log, m)
      && Wait(m) in k.s.lists && m in k'.mtx
      && k'.mtx[m].owner == if k.s.lists[Wait(m)] == [] then None else Some(k.s.lists[Wait(m)][0])
  {
    EveryRunSafe(steps, k);
    assert k.mtx[m].orig == AcquiredAt(k.log, m) && Wait(m) in k.s.lists by { assert MutexOk(k, m); }
    if k.s.lists[Wait(m)] == [] {
      ReleaseFreesHow(k, o, m);
    } else {
      ReleaseHandsOffIs(k, o, m);
    }
  }

  // ----- Outside the discipline: exactly when a release or a take leaves no inversion -----

  /** The owner of m is at least as urgent as all who wait for it. */
  ghost predicate Leads(k: Kernel, m: nat)
    requires m in k.mtx && Wait(m) in k.s.lists
  {
    k.mtx[m].owner.Some? ==> Outranks(k.s.thr, k.mtx[m].owner.value, k.s.lists[Wait(m)])
  }

  ghost predicate Outranks(thr: map<Tid, Thread>, o: Tid, q: seq<Tid>) {
    o in thr && forall w :: w in q ==> w in thr && thr[o].cur <= thr[w].cur
  }

  /** Priority p is at least as urgent as everybody in q. */
  ghost predicate AtLeast(thr: map<Tid, Thread>, p: Prio, q: seq<Tid>) {
    forall w :: w in q ==> w in thr && p <= thr[w].cur
  }

  /**
    A thread that holds another mutex, a, and releases m: it stays ahead of those who wait for a exactly
    if the priority it had when it took m is.
   */
  lemma NestedReleaseExact(k: Kernel, t: Tid, a: nat, m: nat)
    requires KInv(k) && Acts(k, t) && Owns(k, t, a) && Owns(k, t, m) && a != m && k.mtx[m].hold == 1
    ensures Wait(a) in k.s.lists
    ensures var k' := MutexRelease(k, t, m).0;
      && Owns(k', t, a) && Wait(a) in k'.s.lists && k'.s.lists[Wait(a)] == k.s.lists[Wait(a)]
      && (Leads(k', a) <==> AtLeast(k.s.thr, k.mtx[m].orig, k.s.lists[Wait(a)]))
  {
    assert Wait(a) in k.s.lists by { assert MutexOk(k, a); }
    assert Wait(m) in k.s.lists by { assert MutexOk(k, m); }
    var k' := MutexRelease(k, t, m).0;
    if k.s.lists[Wait(m)] == [] {
      ReleaseFreesHow(k, t, m);
    } else {
      ReleaseHandsOffIs(k, t, m);
    }
    QueueKnown(k.s, a);
    LeadsIs(k, k', t, a, m);
  }

  lemma LeadsIs(k: Kernel, k': Kernel, t: Tid, a: nat, m: nat)
    requires m in k.mtx && LetGo(k, k', t, m) && a != m && Owns(k', t, a) && Wait(a) in k.s.lists && Wait(a) in k'.s.lists
    requires t in k'.s.thr && k'.s.thr[t].cur == k.mtx[m].orig
    requires forall w :: w in k.s.lists[Wait(a)] ==> w in k.s.thr && w != t
    ensures Leads(k', a) <==> AtLeast(k.s.thr, k.mtx[m].orig, k.s.lists[Wait(a)])
  {
    forall w | w in k.s.lists[Wait(a)] ensures w in k'.s.thr && k'.s.thr[w].cur == k.s.thr[w].cur {
    }
  }

  /** A hand-off, which boosts nobody, leaves the new owner ahead exactly if it was ahead in the queue. */
  lemma HandOffExact(k: Kernel, t: Tid, m: nat)
    requires KInv(k) && Acts(k, t) && Owns(k, t, m) && k.mtx[m].hold == 1
    requires Wait(m) in k.s.lists && k.s.lists[Wait(m)] != []
    ensures var k', q := MutexRelease(k, t, m).0, k.s.lists[Wait(m)];
      && m in k'.mtx && Wait(m) in k'.s.lists && k'.mtx[m].owner == Some(q[0])
      && (Leads(k', m) <==> Outranks(k.s.thr, q[0], q[1..]))
  {
    ReleaseHandsOffIs(k, t, m);
    QueueKnown(k.s, m);
    HandedLeads(k, MutexRelease(k, t, m).0, t, m);
  }

  lemma HandedLeads(k: Kernel, k': Kernel, t: Tid, m: nat)
    requires m in k.mtx && Wait(m) in k.s.lists && k.s.lists[Wait(m)] != [] && HandedOff(k, k', t, m)
    requires forall w :: w in k.s.lists[Wait(m)] ==> w in k.s.thr && w != t
    ensures m in k'.mtx && Wait(m) in k'.s.lists && k'.mtx[m].owner == Some(k.s.lists[Wait(m)][0])
    ensures Leads(k', m) <==> Outranks(k.s.thr, k.s.lists[Wait(m)][0], k.s.lists[Wait(m)][1..])
  {
    var q := k.s.lists[Wait(m)];
    forall w | w in q ensures w in k'.s.thr && k'.s.thr[w].cur == k.s.thr[w].cur {
    }
    assert q[0] in q && forall w :: w in q[1..] ==> w in q;
  }

  lemma TakesFree(k: Kernel, t: Tid, m: nat)
    requires KInv(k) && Acts(k, t) && m in k.mtx && k.mtx[m].owner.None?
    ensures var k' := MutexTake(k, t, m, -1).0;
      && KInv(k') && k'.s == WithError(k.s, t, EOK) && k'.mtx.Keys == k.mtx.Keys
      && k'.mtx[m].owner == Some(t) && k'.mtx[m].orig == k.s.thr[t].cur && k'.mtx[m].hold == 1
      && forall n: nat :: n in k.mtx && n != m ==> k'.mtx[n] == k.mtx[n]
  {
    assert MutexOk(k, m);
    TakeInv(k, t, m, -1);
  }

  lemma WaitsBehind(k: Kernel, h: Tid, l: Tid, a: nat)
    requires KInv(k) && Acts(k, h) && Acts(k, l) && Owns(k, l, a) && l != h
    requires Wait(a) in k.s.lists && k.s.lists[Wait(a)] == []
    ensures var k' := MutexTake(k, h, a, -1).0;
      && KInv(k') && k'.mtx == k.mtx && Acts(k', l) && Wait(a) in k'.s.lists && h in k'.s.lists[Wait(a)]
      && h in k'.s.thr && k'.s.thr[h].cur == k.s.thr[h].cur
  {
    assert KInv(MutexTake(k, h, a, -1).0) by { TakeInv(k, h, a, -1); }
    assert Inv(WithError(k.s, h, EOK)) by { WithErrorInv(k.s, h, EOK); }
    var s1 := Boost(WithError(k.s, h, EOK), h, l);
    BoostedReady(k.s, h, l, a);
    WaitsIs(k, h, l, a, s1);
    BlockedAlone(s1, h, a, k.mtx[a].prioFlag);
  }

  lemma BoostedReady(s: Sched, h: Tid, l: Tid, a: nat)
    requires Inv(s) && CanRun(s, h) && CanRun(s, l) && h != l && Wait(a) in s.lists && HasReadyLists(WithError(s, h, EOK))
    ensures var s1 := Boost(WithError(s, h, EOK), h, l);
      && Inv(s1) && CanRun(s1, h) && CanRun(s1, l) && s1.thr[h].cur == s.thr[h].cur
      && Wait(a) in s1.lists && s1.lists[Wait(a)] == s.lists[Wait(a)]
  {
    WithErrorInv(s, h, EOK);
    BoostInv(WithError(s, h, EOK), h, l);
  }

  lemma WaitsIs(k: Kernel, h: Tid, l: Tid, a: nat, s1: Sched)
    requires KInv(k) && Acts(k, h) && Owns(k, l, a) && l != h && Wait(a) in k.s.lists && l in k.s.thr
    requires Inv(WithError(k.s, h, EOK)) && s1 == Boost(WithError(k.s, h, EOK), h, l)
    requires Inv(s1) && CanRun(s1, h) && Wait(a) in s1.lists
    ensures MutexTake(k, h, a, -1).0 ==
      Kernel(Block(s1, h, a, k.mtx[a].prioFlag, false), k.mtx, k.sem, k.log + [Blocked(h)])
  {
    assert k.mtx[a].value == 0 by { assert MutexOk(k, a); }
  }

  lemma BlockedAlone(s: Sched, h: Tid, a: nat, flag: bool)
    requires Inv(s) && CanRun(s, h) && Wait(a) in s.lists && s.lists[Wait(a)] == []
    ensures var s' := Block(s, h, a, flag, false);
      && Wait(a) in s'.lists && s'.lists[Wait(a)] == [h] && s'.busy == s.busy
      && s'.thr == s.thr[h := s.thr[h].(stat := SUSPEND, timer := false)]
  {
    SuspendInv(s, h);
    SuspendWaits(s, h);
    QueueKnown(Suspend(s, h), a);
  }

  /** Two mutexes held at once: after these four steps a less urgent thread keeps a more urgent one waiting. */
  lemma NestedInverts(k: Kernel, l: Tid, h: Tid, a: nat, m: nat)
    requires KInv(k) && Acts(k, l) && Acts(k, h) && l != h && k.s.thr[h].cur < k.s.thr[l].cur
    requires a in k.mtx && m in k.mtx && a != m && k.mtx[a].owner.None? && k.mtx[m].owner.None?
    ensures var k1 := MutexTake(k, l, a, -1).0;
      && KInv(k1) && Acts(k1, l) && m in k1.mtx
      && var k2 := MutexTake(k1, l, m, -1).0;
      && KInv(k2) && Acts(k2, h) && a in k2.mtx
      && var k3 := MutexTake(k2, h, a, -1).0;
      && KInv(k3) && Acts(k3, l) && m in k3.mtx
      && var k4 := MutexRelease(k3, l, m).0;
      && a in k4.mtx && Wait(a) in k4.s.lists && k4.mtx[a].owner == Some(l) && !Leads(k4, a)
  {
    assert Wait(a) in k.s.lists && k.s.lists[Wait(a)] == [] by { assert MutexOk(k, a); }
    TakesFree(k, l, a);
    var k1 := MutexTake(k, l, a, -1).0;
    TakesFree(k1, l, m);
    var k2 := MutexTake(k1, l, m, -1).0;
    WaitsBehind(k2, h, l, a);
    var k3 := MutexTake(k2, h, a, -1).0;
    NestedReleaseExact(k3, l, a, m);
    assert !AtLeast(k3.s.thr, k3.mtx[m].orig, k3.s.lists[Wait(a)]);
  }

  /**
    Taking m boosts its owner o and nobody further.  If o itself waits for c, the owner of c is still ahead
    of those who wait for it exactly if it is at least as urgent as the taker, and o keeps its place.
   */
  lemma ChainedTakeExact(k: Kernel, t: Tid, o: Tid, m: nat, x: Tid, c: nat, time: int)
    requires KInv(k) && Acts(k, t) && Owns(k, o, m) && t != o && time != 0
    requires Owns(k, x, c) && c != m && x != o && On(k.s.lists, Wait(c), o) && Leads(k, c)
    ensures var k' := MutexTake(k, t, m, time).0;
      && Owns(k', x, c) && Wait(c) in k'.s.lists && k'.s.lists[Wait(c)] == k.s.lists[Wait(c)]
      && (Leads(k', c) <==> k.s.thr[x].cur <= k.s.thr[t].cur)
  {
    TakeBusyIs(k, t, o, m, time);
    var s1 := Boost(WithError(k.s, t, EOK), t, o);
    BlockedElsewhere(s1, t, m, k.mtx[m].prioFlag, time > 0, c);
    BoostedPriorities(k.s, t, o);
    OutranksBoosted(k.s.thr, MutexTake(k, t, m, time).0.s.thr, t, o, x, k.s.lists[Wait(c)]);
  }

  /** Current priorities after a boost: that of the owner is the taker's if the taker is more urgent. */
  lemma BoostedPriorities(s: Sched, t: Tid, o: Tid)
    requires Inv(s) && CanRun(s, t) && Alive(s, o) && HasReadyLists(WithError(s, t, EOK))
    ensures var s1 := Boost(WithError(s, t, EOK), t, o);
      BoostedTo(s.thr, s1.thr, t, o)
  {
    WithErrorInv(s, t, EOK);
    BoostInv(WithError(s, t, EOK), t, o);
  }

  lemma BlockedElsewhere(s: Sched, t: Tid, m: nat, flag: bool, timed: bool, c: nat)
    requires Inv(s) && CanRun(s, t) && Wait(m) in s.lists && Wait(c) in s.lists && c != m
    ensures var s' := Block(s, t, m, flag, timed);
      && Wait(c) in s'.lists && s'.lists[Wait(c)] == s.lists[Wait(c)] && s'.thr.Keys == s.thr.Keys
      && forall y :: y in s.thr ==> s'.thr[y].cur == s.thr[y].cur
  {
    SuspendWaits(s, t);
  }

  /** After a boost of o by t only the priority of o may have changed, to that of t. */
  ghost predicate BoostedTo(thr: map<Tid, Thread>, thr1: map<Tid, Thread>, t: Tid, o: Tid) {
    && thr1.Keys == thr.Keys && t in thr && o in thr
    && thr1[o].cur == (if thr[t].cur < thr[o].cur then thr[t].cur else thr[o].cur)
    && forall y :: y in thr && y != o ==> thr1[y].cur == thr[y].cur
  }

  lemma Urgency(a: Prio, b: Prio, c: Prio)
    requires b <= c
    ensures a < b ==> a < c
    ensures b <= a ==> b <= if a < c then a else c
  {
  }

  lemma OutranksBoosted(thr: map<Tid, Thread>, thr1: map<Tid, Thread>, t: Tid, o: Tid, x: Tid, q: seq<Tid>)
    requires Outranks(thr, x, q) && o in q && x != o && BoostedTo(thr, thr1, t, o)
    ensures Outranks(thr1, x, q) <==> thr[x].cur <= thr[t].cur
  {
    Urgency(thr[t].cur, thr[x].cur, thr[o].cur);
    if thr[x].cur <= thr[t].cur {
      assert thr1[x].cur <= thr1[o].cur;
    } else {
      assert thr1[o].cur < thr1[x].cur;
    }
  }

  /** The first to wait for a mutex: its owner leads, and everybody else is as before. */
  lemma WaitsFirst(k: Kernel, h: Tid, l: Tid, a: nat, t: Tid)
    requires KInv(k) && Acts(k, h) && Acts(k, l) && Owns(k, l, a) && l != h && Acts(k, t) && t != h && t != l
    requires Wait(a) in k.s.lists && k.s.lists[Wait(a)] == []
    ensures var k' := MutexTake(k, h, a, -1).0;
      && KInv(k') && k'.mtx == k.mtx && Acts(k', t) && On(k'.s.lists, Wait(a), h) && Leads(k', a)
      && k'.s.thr.Keys == k.s.thr.Keys && k'.s.thr[t].cur == k.s.thr[t].cur
      && (k'.s.thr[l].cur == k.s.thr[l].cur || k'.s.thr[l].cur == k.s.thr[h].cur)
  {
    var k' := MutexTake(k, h, a, -1).0;
    assert KInv(k') by { TakeInv(k, h, a, -1); }
    assert Inv(WithError(k.s, h, EOK)) by { WithErrorInv(k.s, h, EOK); }
    var s1 := Boost(WithError(k.s, h, EOK), h, l);
    BoostedReady(k.s, h, l, a);
    WaitsIs(k, h, l, a, s1);
    BlockedAlone(s1, h, a, k.mtx[a].prioFlag);
    BoostedPriorities(k.s, h, l);
    BoostSpares(k.s, h, l, t);
    LoneWaiterLed(k, k', s1, h, l, a, t);
  }

  lemma BoostSpares(s: Sched, h: Tid, l: Tid, t: Tid)
    requires Inv(s) && CanRun(s, h) && CanRun(s, l) && CanRun(s, t) && HasReadyLists(WithError(s, h, EOK))
    ensures CanRun(Boost(WithError(s, h, EOK), h, l), t)
  {
    WithErrorInv(s, h, EOK);
    BoostInv(WithError(s, h, EOK), h, l);
  }

  lemma LoneWaiterLed(k: Kernel, k': Kernel, s1: Sched, h: Tid, l: Tid, a: nat, t: Tid)
    requires Owns(k, l, a) && k'.mtx == k.mtx && h in k.s.thr && l in k.s.thr && t in k.s.thr && l != h && t != h && t != l
    requires BoostedTo(k.s.thr, s1.thr, h, l) && CanRun(s1, t)
    requires k'.s.thr == s1.thr[h := s1.thr[h].(stat := SUSPEND, timer := false)] && k'.s.busy == s1.busy
    requires Wait(a) in k'.s.lists && k'.s.lists[Wait(a)] == [h]
    ensures Acts(k', t) && On(k'.s.lists, Wait(a), h) && Leads(k', a)
    ensures k'.s.thr.Keys == k.s.thr.Keys && k'.s.thr[t].cur == k.s.thr[t].cur
    ensures k'.s.thr[l].cur == k.s.thr[l].cur || k'.s.thr[l].cur == k.s.thr[h].cur
  {
  }

  /** A chain of two: after these four takes x holds what o waits for, and is less urgent than o has become. */
  lemma ChainInverts(k: Kernel, x: Tid, o: Tid, t: Tid, c: nat, m: nat)
    requires KInv(k) && Acts(k, x) && Acts(k, o) && Acts(k, t) && x != o && o != t && t != x
    requires k.s.thr[t].cur < k.s.thr[o].cur && k.s.thr[t].cur < k.s.thr[x].cur
    requires c in k.mtx && m in k.mtx && c != m && k.mtx[c].owner.None? && k.mtx[m].owner.None?
    ensures var k1 := MutexTake(k, o, m, -1).0;
      && KInv(k1) && Acts(k1, x) && c in k1.mtx
      && var k2 := MutexTake(k1, x, c, -1).0;
      && KInv(k2) && Acts(k2, o) && c in k2.mtx
      && var k3 := MutexTake(k2, o, c, -1).0;
      && KInv(k3) && Acts(k3, t) && m in k3.mtx
      && var k4 := MutexTake(k3, t, m, -1).0;
      && Owns(k4, x, c) && Wait(c) in k4.s.lists && !Leads(k4, c)
  {
    assert Wait(c) in k.s.lists && k.s.lists[Wait(c)] == [] by { assert MutexOk(k, c); }
    TakesFree(k, o, m);
    var k1 := MutexTake(k, o, m, -1).0;
    TakesFree(k1, x, c);
    var k2 := MutexTake(k1, x, c, -1).0;
    ChainEnds(k2, x, o, t, c, m);
  }

  lemma ChainEnds(k: Kernel, x: Tid, o: Tid, t: Tid, c: nat, m: nat)
    requires KInv(k) && Acts(k, x) && Acts(k, o) && Acts(k, t) && x != o && o != t && t != x
    requires k.s.thr[t].cur < k.s.thr[o].cur && k.s.thr[t].cur < k.s.thr[x].cur
    requires Owns(k, x, c) && Owns(k, o, m) && c != m && Wait(c) in k.s.lists && k.s.lists[Wait(c)] == []
    ensures var k1 := MutexTake(k, o, c, -1).0;
      && KInv(k1) && Acts(k1, t) && m in k1.mtx
      && var k2 := MutexTake(k1, t, m, -1).0;
      && Owns(k2, x, c) && Wait(c) in k2.s.lists && !Leads(k2, c)
  {
    WaitsFirst(k, o, x, c, t);
    ChainedTakeExact(MutexTake(k, o, c, -1).0, t, o, m, x, c, -1);
  }

  // ----- Nothing of an inherited priority remains -----

  /** A thread without a mutex runs at its own priority, and every saved priority is the owner's own. */
  ghost predicate NoResidue(k: Kernel) {
    && (forall t :: t in k.s.thr && (forall m: nat :: !Owns(k, t, m)) ==> k.s.thr[t].cur == k.s.thr[t].init)
    && (forall m: nat, t :: Owns(k, t, m) && t in k.s.thr ==> k.mtx[m].orig == k.s.thr[t].init)
  }

  /** Every thread of s' has the priorities it had in s, or is at its own priority, a new one only if closed in s. */
  ghost predicate SamePriorities(s: Sched, s': Sched) {
    forall t :: t in s'.thr ==>
      || (t in s.thr && s'.thr[t].cur == s.thr[t].cur && s'.thr[t].init == s.thr[t].init)
      || (s'.thr[t].cur == s'.thr[t].init && (t in s.thr && s.thr[t].stat != CLOSE ==> s'.thr[t].init == s.thr[t].init))
  }

  lemma QuietResidue(k: Kernel, k': Kernel)
    requires KInv(k) && NoResidue(k) && SameOwners(k, k') && SamePriorities(k.s, k'.s)
    ensures NoResidue(k')
  {
    forall t, m: nat ensures Owns(k', t, m) <==> Owns(k, t, m) {
    }
    forall m: nat, t | Owns(k', t, m) && t in k'.s.thr ensures k'.mtx[m].orig == k'.s.thr[t].init {
      OwnersRun(k, m);
    }
  }

  lemma ThreadStepPriorities(s: Sched, st: Step)
    requires Inv(s) && ThreadStep(st) && !st.SetPriority?
    requires !st.IdleReap? ==> st.t in s.thr
    requires st.IdleReap? ==> s.lists[Defunct] != []
    ensures SamePriorities(s, DoThread(s, st))
  {
    if st.ThreadExit? || st.DeleteBegin? || st.DeleteEnd? || st.IdleReap? {
      ClosingPriorities(s, st);
    } else {
      match st
      case StartBegin(t) =>
      case ThreadSuspend(t) =>
      case ReadyBegin(t) =>
      case ReadyEnd(t) =>
      case ThreadSleep(t) =>
      case TimerFires(t) =>
      case ThreadYield(t) =>
    }
  }

  lemma ClosingPriorities(s: Sched, st: Step)
    requires Inv(s) && (st.ThreadExit? || st.DeleteBegin? || st.DeleteEnd? || st.IdleReap?)
    requires !st.IdleReap? ==> st.t in s.thr
    requires st.IdleReap? ==> s.lists[Defunct] != []
    ensures SamePriorities(s, DoThread(s, st))
  {
    match st
    case ThreadExit(t, dynamic) =>
    case DeleteBegin(t) =>
    case DeleteEnd(t, dynamic) =>
    case IdleReap =>
  }

  lemma TakeSemPriorities(k: Kernel, t: Tid, x: nat, time: int)
    requires KInv(k) && Acts(k, t) && x in k.sem
    ensures SamePriorities(k.s, SemTake(k, t, x, time).0.s)
  {
    if k.sem[x].value == 0 && time != 0 {
      assert SemOk(k, x);
      WithErrorInv(k.s, t, EOK);
      WaitPriorities(WithError(k.s, t, EOK), t, x, k.sem[x].prioFlag, time > 0);
    }
  }

  lemma WakeHeadCur(s: Sched, obj: nat)
    requires Inv(s) && Wait(obj) in s.lists && s.lists[Wait(obj)] != []
    ensures SamePriorities(s, WakeHead(s, obj))
  {
    QueueKnown(s, obj);
  }

  lemma WaitPriorities(s: Sched, t: Tid, obj: nat, flag: bool, timed: bool)
    requires Inv(s) && CanRun(s, t) && Wait(obj) in s.lists
    ensures SamePriorities(s, Block(s, t, obj, flag, timed))
  {
    BlockQueues(s, t, obj, flag, timed);
    BlockInits(s, t, obj, flag, timed);
  }

  lemma OtherStepPriorities(k: Kernel, st: Step)
    requires KInv(k) && PiAllowed(k, st) && !ThreadStep(st) && !st.TakeMutex? && !st.ReleaseMutex? && !st.NewMutex?
    ensures SamePriorities(k.s, Do(k, st).s)
  {
    match st
    case TakeSem(t, x, time) => TakeSemPriorities(k, t, x, time);
    case ResetSem(x, v) =>
      assert SemOk(k, x);
      WakeAllCur(k.s, x);
    case ReleaseSem(x) =>
      assert SemOk(k, x);
      if k.s.lists[Wait(x)] != [] {
        WakeHeadCur(k.s, x);
      }
    case WaitOn(t, obj, flag, timed) => WaitPriorities(k.s, t, obj, flag, timed);
    case WakeOne(obj) => WakeHeadCur(k.s, obj);
    case WakeEvery(obj) => WakeAllCur(k.s, obj);
    case NewSem(_, _, _) =>
    case NewQueue(_) =>
    case NewThread(_, _) =>
  }

  lemma NewMutexResidue(k: Kernel, m: nat, flag: bool)
    requires KInv(k) && NoResidue(k) && NeverUsed(k, m)
    ensures NoResidue(Do(k, NewMutex(m, flag)))
  {
    var k' := Do(k, NewMutex(m, flag));
    forall t, n: nat ensures Owns(k', t, n) <==> Owns(k, t, n) {
    }
  }

  lemma TakeFreeResidue(k: Kernel, t: Tid, m: nat, time: int)
    requires KInv(k) && NoResidue(k) && PiAllowed(k, TakeMutex(t, m, time)) && k.mtx[m].owner.None?
    ensures NoResidue(MutexTake(k, t, m, time).0)
  {
    TakeFreeIs(k, t, m, time);
    var k' := MutexTake(k, t, m, time).0;
    assert Owns(k', t, m);
    forall x, n: nat | n != m ensures Owns(k', x, n) <==> Owns(k, x, n) {
    }
    forall x, n: nat | x != t ensures Owns(k', x, n) <==> Owns(k, x, n) {
    }
  }

  /** Waiting changes no priority but the owner's. */
  lemma TakeBusyResidue(k: Kernel, t: Tid, m: nat, time: int)
    requires KInv(k) && NoResidue(k) && PiAllowed(k, TakeMutex(t, m, time))
    requires k.mtx[m].owner.Some? && k.mtx[m].owner != Some(t)
    ensures NoResidue(MutexTake(k, t, m, time).0)
  {
    var k', o := MutexTake(k, t, m, time).0, k.mtx[m].owner.value;
    assert Owns(k, o, m);
    if time == 0 {
      assert k.mtx[m].value == 0 by { assert MutexOk(k, m); }
      QuietResidue(k, k');
    } else {
      TakeBusyInit(k, t, o, m, time);
      TakeBusyBlocks(k, t, o, m, time);
      BlockedResidue(k, k', t, o, m);
    }
  }

  lemma BlockedResidue(k: Kernel, k': Kernel, t: Tid, o: Tid, m: nat)
    requires NoResidue(k) && Owns(k, o, m) && Wait(m) in k.s.lists && t in k.s.thr
    requires BlockedOn(k, k', t, o, m) && SameInits(k.s, k'.s)
    ensures NoResidue(k')
  {
    forall x, n: nat ensures Owns(k', x, n) <==> Owns(k, x, n) {
    }
  }

  lemma TakeBusyInit(k: Kernel, t: Tid, o: Tid, m: nat, time: int)
    requires KInv(k) && Acts(k, t) && Owns(k, o, m) && t != o && time != 0
    ensures SameInits(k.s, MutexTake(k, t, m, time).0.s)
  {
    TakeBusyIs(k, t, o, m, time);
    BoostBlockInits(k.s, t, o, m, k.mtx[m].prioFlag, time > 0);
  }

  lemma BoostBlockInits(s: Sched, t: Tid, o: Tid, m: nat, flag: bool, timed: bool)
    requires Inv(s) && CanRun(s, t) && Alive(s, o) && t != o && Wait(m) in s.lists
    ensures Inv(WithError(s, t, EOK))
    ensures var s1 := Boost(WithError(s, t, EOK), t, o);
      && Inv(s1) && CanRun(s1, t) && Wait(m) in s1.lists
      && SameInits(s, Block(s1, t, m, flag, timed))
  {
    BoostIs(s, t, o);
    var s1 := Boost(WithError(s, t, EOK), t, o);
    BoostInits(s, t, o);
    BlockInits(s1, t, m, flag, timed);
  }

  lemma BlockInits(s: Sched, t: Tid, m: nat, flag: bool, timed: bool)
    requires Inv(s) && CanRun(s, t) && Wait(m) in s.lists
    ensures SameInits(s, Block(s, t, m, flag, timed))
  {
    SuspendWaits(s, t);
  }

  lemma BoostInits(s: Sched, t: Tid, o: Tid)
    requires Inv(s) && t in s.thr && Alive(s, o)
    ensures Inv(WithError(s, t, EOK)) && SameInits(s, Boost(WithError(s, t, EOK), t, o))
  {
    WithErrorInv(s, t, EOK);
    BoostInv(WithError(s, t, EOK), t, o);
  }

  lemma ReleaseResidue(k: Kernel, t: Tid, m: nat)
    requires Pi(k) && NoResidue(k) && Acts(k, t) && m in k.mtx
    ensures NoResidue(MutexRelease(k, t, m).0)
  {
    assert k.mtx[m].owner == Some(t) ==> k.mtx[m].hold > 0 by { assert MutexOk(k, m); }
    var k' := MutexRelease(k, t, m).0;
    if k.mtx[m].owner != Some(t) || k.mtx[m].hold > 1 {
      QuietResidue(k, k');
    } else {
      ReleaseInits(k, t, m);
      if k.s.lists[Wait(m)] == [] {
        ReleaseFreesHow(k, t, m);
        FreedResidue(k, k', t, m);
      } else {
        ReleaseHandsOffIs(k, t, m);
        HandedOffResidue(k, k', t, m);
      }
    }
  }

  lemma ReleaseInits(k: Kernel, t: Tid, m: nat)
    requires KInv(k) && Acts(k, t) && Owns(k, t, m) && k.mtx[m].hold == 1
    ensures SameInits(k.s, MutexRelease(k, t, m).0.s)
  {
    assert Wait(m) in k.s.lists by { assert MutexOk(k, m); }
    if k.s.lists[Wait(m)] != [] {
      ReleaseWithWaiters(k, t, m);
    }
    RestoreInits(k.s, t, k.mtx[m].orig, m);
  }

  lemma RestoreInits(s: Sched, t: Tid, p: Prio, m: nat)
    requires Inv(s) && CanRun(s, t) && Wait(m) in s.lists
    ensures Inv(Restore(s, t, p)) && SameInits(s, Restore(s, t, p)) && Wait(m) in Restore(s, t, p).lists
    ensures Restore(s, t, p).lists[Wait(m)] != [] ==> SameInits(s, WakeHead(Restore(s, t, p), m))
  {
    RestoreInv(s, t, p);
    QueueKnown(Restore(s, t, p), m);
  }

  ghost predicate SameInits(s: Sched, s': Sched) {
    s'.thr.Keys == s.thr.Keys && forall x :: x in s.thr ==> s'.thr[x].init == s.thr[x].init
  }

  lemma FreedResidue(k: Kernel, k': Kernel, t: Tid, m: nat)
    requires NoResidue(k) && Owns(k, t, m) && t in k.s.thr && LetGo(k, k', t, m) && k'.mtx[m].owner == None
    requires SameInits(k.s, k'.s)
    requires t in k'.s.thr && k'.s.thr[t].cur == k.mtx[m].orig
    ensures NoResidue(k')
  {
    forall x, n: nat | n != m ensures Owns(k', x, n) <==> Owns(k, x, n) {
    }
    forall x | x in k'.s.thr && (forall n: nat :: !Owns(k', x, n)) ensures k'.s.thr[x].cur == k'.s.thr[x].init {
      if x != t {
        assert forall n: nat :: !Owns(k, x, n);
      }
    }
  }

  lemma HandedOffResidue(k: Kernel, k': Kernel, t: Tid, m: nat)
    requires NoResidue(k) && Solo(k) && Owns(k, t, m) && t in k.s.thr
    requires Wait(m) in k.s.lists && k.s.lists[Wait(m)] != [] && HandedOff(k, k', t, m)
    requires SameInits(k.s, k'.s)
    ensures NoResidue(k')
  {
    var w := k.s.lists[Wait(m)][0];
    assert On(k.s.lists, Wait(m), w);
    assert forall n: nat :: !Owns(k, w, n);
    forall x, n: nat | n != m ensures Owns(k', x, n) <==> Owns(k, x, n) {
    }
    forall x | x in k'.s.thr && (forall n: nat :: !Owns(k', x, n)) ensures k'.s.thr[x].cur == k'.s.thr[x].init {
      if x != t {
        assert !Owns(k', x, m);
        assert forall n: nat :: !Owns(k, x, n);
      }
    }
  }

  lemma StepPriorities(k: Kernel, st: Step)
    requires KInv(k) && PiAllowed(k, st) && !st.TakeMutex? && !st.ReleaseMutex? && !st.NewMutex?
    ensures SamePriorities(k.s, Do(k, st).s)
  {
    if ThreadStep(st) {
      ThreadStepPriorities(k.s, st);
    } else {
      OtherStepPriorities(k, st);
    }
  }

  lemma StepOwners(k: Kernel, st: Step)
    requires KInv(k) && PiAllowed(k, st) && !st.TakeMutex? && !st.ReleaseMutex? && !st.NewMutex?
    ensures SameOwners(k, Do(k, st))
  {
  }

  lemma TakeHeldResidue(k: Kernel, t: Tid, m: nat, time: int)
    requires KInv(k) && NoResidue(k) && Acts(k, t) && m in k.mtx && k.mtx[m].owner == Some(t)
    ensures NoResidue(MutexTake(k, t, m, time).0)
  {
    QuietResidue(k, MutexTake(k, t, m, time).0);
  }

  lemma TakeResidue(k: Kernel, t: Tid, m: nat, time: int)
    requires KInv(k) && NoResidue(k) && PiAllowed(k, TakeMutex(t, m, time))
    ensures NoResidue(MutexTake(k, t, m, time).0)
  {
    if k.mtx[m].owner == Some(t) {
      TakeHeldResidue(k, t, m, time);
    } else if k.mtx[m].owner.None? {
      TakeFreeResidue(k, t, m, time);
    } else {
      TakeBusyResidue(k, t, m, time);
    }
  }

  lemma StepResidue(k: Kernel, st: Step)
    requires Pi(k) && NoResidue(k) && PiAllowed(k, st)
    ensures NoResidue(Do(k, st))
  {
    if st.TakeMutex? {
      TakeResidue(k, st.t, st.m, st.time);
    } else if st.ReleaseMutex? {
      ReleaseResidue(k, st.t, st.m);
    } else if st.NewMutex? {
      NewMutexResidue(k, st.m, st.prioFlag);
    } else {
      StepPriorities(k, st);
      StepOwners(k, st);
      QuietResidue(k, Do(k, st));
    }
  }

  lemma {:induction false} RunResidue(k: Kernel, steps: seq<Step>, k': Kernel)
    requires Pi(k) && NoResidue(k) && PiReaches(k, steps, k')
    ensures NoResidue(k')
    decreases |steps|
  {
    if steps != [] {
      StepPi(k, steps[0]);
      StepResidue(k, steps[0]);
      RunResidue(Do(k, steps[0]), steps[1..], k');
    }
  }

  /** In every run: a thread that holds no mutex has its own priority, however often it was boosted. */
  lemma BoostsNeverStick(steps: seq<Step>, k: Kernel, t: Tid)
    requires PiReaches(Boot(), steps, k) && t in k.s.thr && forall m: nat :: !Owns(k, t, m)
    ensures k.s.thr[t].cur == k.s.thr[t].init
  {
    BootInv();
    RunResidue(Boot(), steps, k);
  }
}
