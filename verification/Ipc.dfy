/**
  Semaphores, mutexes and the wait queues shared by all IPC objects: rt-thread/kernel/src/ipc.c.

  Each interrupt-disabled section is one step.  A blocking call is the step that suspends the
  caller; being granted, timing out or being reset are steps of others.  Any READY thread may act,
  which covers every schedule.  The log is history only: no operation reads it.
 */
module Ipc {
  import opened Wrappers
  import opened Queues
  import opened Scheduler

  const MUTEX_HOLD_MAX: nat := 255
  const MUTEX_VALUE_MAX: nat := 65535
  const SEM_VALUE_MAX: nat := 65535

  datatype Mutex = Mutex(value: nat, hold: nat, owner: Option<Tid>, orig: Prio, prioFlag: bool)
  datatype Sem = Sem(value: nat, prioFlag: bool)

  datatype Event =
    | Acquired(m: nat, t: Tid, p: Prio)   // first hold of the mutex, at current priority p
    | Reacquired(m: nat, t: Tid)
    | Released(m: nat, t: Tid)
    | Blocked(t: Tid)
    | SemSet(x: nat, v: nat)
    | SemReleased(x: nat)
    | SemGranted(x: nat)

  type Log = seq<Event>

  datatype Kernel = Kernel(s: Sched, mtx: map<nat, Mutex>, sem: map<nat, Sem>, log: Log)

  datatype Outcome = OK | FULL | TIMEDOUT | REFUSED | BLOCKED

  // ----- Reading the history -----

  /** Takes of mutex m granted to t that t has not matched with a release. */
  ghost function Unmatched(log: Log, m: nat, t: Tid): int {
    if log == [] then 0 else
      Unmatched(log[..|log| - 1], m, t) +
      match log[|log| - 1]
      case Acquired(m', t', _) => if m' == m && t' == t then 1 else 0
      case Reacquired(m', t') => if m' == m && t' == t then 1 else 0
      case Released(m', t') => if m' == m && t' == t then -1 else 0
      case _ => 0
  }

  /** Initial value plus releases minus grants since the semaphore was last set. */
  ghost function Balance(log: Log, x: nat): int {
    if log == [] then 0 else
      match log[|log| - 1]
      case SemSet(x', v) => if x' == x then v else Balance(log[..|log| - 1], x)
      case SemReleased(x') => Balance(log[..|log| - 1], x) + (if x' == x then 1 else 0)
      case SemGranted(x') => Balance(log[..|log| - 1], x) - (if x' == x then 1 else 0)
      case _ => Balance(log[..|log| - 1], x)
  }

  /** The current priority the present owner of m had when it acquired m. */
  ghost function AcquiredAt(log: Log, m: nat): Prio {
    if log == [] then (0 as Prio) else
      match log[|log| - 1]
      case Acquired(m', _, p) => if m' == m then p else AcquiredAt(log[..|log| - 1], m)
      case _ => AcquiredAt(log[..|log| - 1], m)
  }

  /** When t last began to wait. */
  ghost function BlockedSince(log: Log, t: Tid): int {
    if log == [] then -1
    else if log[|log| - 1] == Blocked(t) then |log| - 1
    else BlockedSince(log[..|log| - 1], t)
  }

  lemma LogAppend(log: Log, e: Event)
    ensures (log + [e])[..|log + [e]| - 1] == log && (log + [e])[|log + [e]| - 1] == e
  {
  }

  lemma {:induction false} BlockedSincePast(log: Log, t: Tid)
    ensures -1 <= BlockedSince(log, t) < |log|
  {
    if log != [] {
      BlockedSincePast(log[..|log| - 1], t);
    }
  }

  // ----- Steps that no waiter or owner can be hurt by -----

  /** No thread alive is closed and no empty wait queue gains a waiter, save that of obj. */
  ghost predicate SteadyBut(s: Sched, s': Sched, obj: Option<nat>) {
    && (forall t: Tid :: Alive(s, t) ==> Alive(s', t))
    && (forall o: nat :: Wait(o) in s.lists ==> Wait(o) in s'.lists)
    && (forall o: nat :: Wait(o) in s.lists && obj != Some(o) && s.lists[Wait(o)] == [] ==> s'.lists[Wait(o)] == [])
  }

  ghost predicate Steady(s: Sched, s': Sched) {
    SteadyBut(s, s', None)
  }

  lemma ChangePrioritySteady(s: Sched, t: Tid, p: Prio)
    requires Inv(s) && t in s.thr && (s.thr[t].stat == READY ==> t !in s.busy)
    ensures Steady(s, ChangePriority(s, t, p)) && ChangePriority(s, t, p).busy == s.busy
    ensures ChangePriority(s, t, p).lists.Keys == s.lists.Keys
    ensures ChangePriority(s, t, p).thr == s.thr[t := WithPriority(s.thr[t], p)]
    ensures forall o: nat :: Wait(o) in s.lists ==> ChangePriority(s, t, p).lists[Wait(o)] == s.lists[Wait(o)]
  {
    assert ThreadOk(s, t);
    if s.thr[t].stat == READY {
      forall o | Wait(o) in s.lists ensures Without(s.lists[Wait(o)], t) == s.lists[Wait(o)] {
        assert !On(s.lists, Wait(o), t);
        WithoutAbsent(s.lists[Wait(o)], t);
      }
    }
  }

  // ----- rt_ipc_list_suspend and friends -----

  /** First position whose thread is less urgent than priority c. */
  function Position(thr: map<Tid, Thread>, q: seq<Tid>, c: Prio, i: nat): (k: nat)
    requires i <= |q| && forall x :: x in q ==> x in thr
    ensures i <= k <= |q|
    ensures forall j :: i <= j < k ==> thr[q[j]].cur <= c
    ensures k < |q| ==> c < thr[q[k]].cur
    decreases |q| - i
  {
    if i == |q| || c < thr[q[i]].cur then i else Position(thr, q, c, i + 1)
  }

  /** Where t joins wait queue q. */
  function JoinAt(thr: map<Tid, Thread>, q: seq<Tid>, t: Tid, prioFlag: bool): (k: nat)
    requires t in thr && forall x :: x in q ==> x in thr
    ensures k <= |q|
  {
    if prioFlag then Position(thr, q, thr[t].cur, 0) else |q|
  }

  lemma SuspendWaits(s: Sched, t: Tid)
    requires Inv(s) && CanRun(s, t)
    ensures Suspend(s, t).lists.Keys == s.lists.Keys
    ensures forall o: nat :: Wait(o) in s.lists ==> Suspend(s, t).lists[Wait(o)] == s.lists[Wait(o)]
    ensures Suspend(s, t).thr == s.thr[t := s.thr[t].(stat := SUSPEND, timer := false)]
  {
    assert ThreadOk(s, t);
    forall o | Wait(o) in s.lists ensures Suspend(s, t).lists[Wait(o)] == s.lists[Wait(o)] {
      assert !On(s.lists, Wait(o), t);
      WithoutAbsent(s.lists[Wait(o)], t);
    }
  }

  /** rt_ipc_list_suspend, then the thread timer if the wait is timed. */
  ghost function Block(s: Sched, t: Tid, obj: nat, prioFlag: bool, timed: bool): (r: Sched)
    requires Inv(s) && CanRun(s, t) && Wait(obj) in s.lists
  {
    SuspendInv(s, t);
    SuspendWaits(s, t);
    var s1 := Suspend(s, t);
    QueueKnown(s1, obj);
    var s2 := s1.(lists := Link(s1.lists, Wait(obj), JoinAt(s1.thr, s1.lists[Wait(obj)], t, prioFlag), t));
    if timed then Arm(s2, t) else s2
  }

  lemma QueueKnown(s: Sched, obj: nat)
    requires Inv(s) && Wait(obj) in s.lists
    ensures forall x :: x in s.lists[Wait(obj)] ==> x in s.thr && s.thr[x].stat == SUSPEND && x !in s.busy
  {
    forall x | x in s.lists[Wait(obj)] ensures x in s.thr && s.thr[x].stat == SUSPEND && x !in s.busy {
      assert On(s.lists, Wait(obj), x);
      assert ThreadOk(s, x);
    }
  }

  lemma BlockInv(s: Sched, t: Tid, obj: nat, prioFlag: bool, timed: bool)
    requires Inv(s) && CanRun(s, t) && Wait(obj) in s.lists
    ensures Inv(Block(s, t, obj, prioFlag, timed))
  {
    SuspendInv(s, t);
    SuspendWaits(s, t);
    var s1 := Suspend(s, t);
    QueueKnown(s1, obj);
    var k := JoinAt(s1.thr, s1.lists[Wait(obj)], t, prioFlag);
    LinkInv(s1, t, Wait(obj), k);
    var s2 := s1.(lists := Link(s1.lists, Wait(obj), k, t));
    if timed {
      assert ThreadOk(s2, t);
      SetQuietInv(s2, t, s2.thr[t].(timer := true));
    }
  }

  /** One round of rt_ipc_list_resume_all: the first waiter leaves with error code e. */
  ghost function WakeFirst(s: Sched, obj: nat, e: Err): Sched
    requires Inv(s) && Wait(obj) in s.lists && s.lists[Wait(obj)] != []
  {
    QueueKnown(s, obj);
    var t := s.lists[Wait(obj)][0];
    Resume(SetThread(s, t, s.thr[t].(error := e)), t)
  }

  /** rt_ipc_list_resume: wake the first waiter. */
  ghost function WakeHead(s: Sched, obj: nat): Sched
    requires Inv(s) && Wait(obj) in s.lists && s.lists[Wait(obj)] != []
  {
    QueueKnown(s, obj);
    Resume(s, s.lists[Wait(obj)][0])
  }

  lemma WakeHeadInv(s: Sched, obj: nat)
    requires Inv(s) && Wait(obj) in s.lists && s.lists[Wait(obj)] != []
    ensures Inv(WakeHead(s, obj))
    ensures WakeHead(s, obj).lists.Keys == s.lists.Keys
    ensures WakeHead(s, obj).lists[Wait(obj)] == s.lists[Wait(obj)][1..]
    ensures forall o: nat :: Wait(o) in s.lists && o != obj ==> WakeHead(s, obj).lists[Wait(o)] == s.lists[Wait(o)]
    ensures Steady(s, WakeHead(s, obj))
  {
    QueueKnown(s, obj);
    var t := s.lists[Wait(obj)][0];
    assert SetThread(s, t, s.thr[t].(error := s.thr[t].error)) == s;
    WakeFirstInv(s, obj, s.thr[t].error);
  }

  lemma WakeFirstInv(s: Sched, obj: nat, e: Err)
    requires Inv(s) && Wait(obj) in s.lists && s.lists[Wait(obj)] != []
    ensures Inv(WakeFirst(s, obj, e))
    ensures WakeFirst(s, obj, e).lists.Keys == s.lists.Keys
    ensures WakeFirst(s, obj, e).lists[Wait(obj)] == s.lists[Wait(obj)][1..]
    ensures forall o: nat :: Wait(o) in s.lists && o != obj ==> WakeFirst(s, obj, e).lists[Wait(o)] == s.lists[Wait(o)]
    ensures Steady(s, WakeFirst(s, obj, e))
  {
    QueueKnown(s, obj);
    var q, t := s.lists[Wait(obj)], s.lists[Wait(obj)][0];
    assert On(s.lists, Wait(obj), t);
    assert ThreadOk(s, t);
    var s1 := SetThread(s, t, s.thr[t].(error := e));
    SetQuietInv(s, t, s.thr[t].(error := e));
    ResumeInv(s1, t);
    assert q == [t] + q[1..] && t !in q[1..];
    WithoutAbsent(q[1..], t);
    forall o | Wait(o) in s.lists && o != obj ensures Without(s.lists[Wait(o)], t) == s.lists[Wait(o)] {
      assert !On(s.lists, Wait(o), t);
      WithoutAbsent(s.lists[Wait(o)], t);
    }
  }

  /** rt_ipc_list_resume_all: every waiter is woken with an error. */
  ghost function WakeAll(s: Sched, obj: nat): Sched
    requires Inv(s) && Wait(obj) in s.lists
    decreases |s.lists[Wait(obj)]|
  {
    if s.lists[Wait(obj)] == [] then s else
      WakeFirstInv(s, obj, ERROR);
      WakeAll(WakeFirst(s, obj, ERROR), obj)
  }

  lemma {:induction false} WakeAllInv(s: Sched, obj: nat)
    requires Inv(s) && Wait(obj) in s.lists
    ensures Inv(WakeAll(s, obj))
    ensures WakeAll(s, obj).lists.Keys == s.lists.Keys && WakeAll(s, obj).lists[Wait(obj)] == []
    ensures forall o: nat :: Wait(o) in s.lists && o != obj ==> WakeAll(s, obj).lists[Wait(o)] == s.lists[Wait(o)]
    ensures Steady(s, WakeAll(s, obj))
    decreases |s.lists[Wait(obj)]|
  {
    if s.lists[Wait(obj)] != [] {
      WakeFirstInv(s, obj, ERROR);
      WakeAllInv(WakeFirst(s, obj, ERROR), obj);
    }
  }

  // ----- The invariant of semaphores and mutexes -----

  /** Free, or held by one running thread whose unmatched takes are counted in hold. */
  ghost predicate MutexOk(k: Kernel, m: nat)
    requires m in k.mtx
  {
    var mu := k.mtx[m];
    && Wait(m) in k.s.lists
    && mu.value <= 1 && mu.hold <= MUTEX_HOLD_MAX
    && (mu.owner.None? <==> mu.value == 1) && (mu.owner.None? <==> mu.hold == 0)
    && (mu.owner.None? ==> k.s.lists[Wait(m)] == [])
    && (mu.owner.Some? ==> Alive(k.s, mu.owner.value))
    && (mu.owner.Some? ==> mu.orig == AcquiredAt(k.log, m))
    && (forall t: Tid :: Unmatched(k.log, m, t) == if mu.owner == Some(t) then mu.hold else 0)
  }

  ghost predicate SemOk(k: Kernel, x: nat)
    requires x in k.sem
  {
    && Wait(x) in k.s.lists
    && k.sem[x].value <= SEM_VALUE_MAX
    && (k.sem[x].value > 0 ==> k.s.lists[Wait(x)] == [])
    && k.sem[x].value == Balance(k.log, x)
  }

  ghost predicate KInv(k: Kernel) {
    && Inv(k.s) && k.mtx.Keys !! k.sem.Keys
    && (forall m: nat {:trigger MutexOk(k, m)} :: m in k.mtx ==> MutexOk(k, m))
    && (forall x: nat {:trigger SemOk(k, x)} :: x in k.sem ==> SemOk(k, x))
  }

  /** The event concerns neither mutex m nor semaphore m. */
  predicate Elsewhere(e: Event, m: nat) {
    match e
    case Acquired(m', _, _) => m' != m
    case Reacquired(m', _) => m' != m
    case Released(m', _) => m' != m
    case Blocked(_) => true
    case SemSet(x, _) => x != m
    case SemReleased(x) => x != m
    case SemGranted(x) => x != m
  }

  lemma ElsewhereKeeps(log: Log, e: Event, m: nat)
    requires Elsewhere(e, m)
    ensures forall t: Tid :: Unmatched(log + [e], m, t) == Unmatched(log, m, t)
    ensures AcquiredAt(log + [e], m) == AcquiredAt(log, m)
    ensures Balance(log + [e], m) == Balance(log, m)
  {
    LogAppend(log, e);
  }

  lemma MutexElsewhere(k: Kernel, k': Kernel, m: nat, obj: Option<nat>, e: Event)
    requires m in k.mtx && MutexOk(k, m) && SteadyBut(k.s, k'.s, obj) && obj != Some(m)
    requires m in k'.mtx && k'.mtx[m] == k.mtx[m] && k'.log == k.log + [e] && Elsewhere(e, m)
    ensures MutexOk(k', m)
  {
    ElsewhereKeeps(k.log, e, m);
  }

  lemma SemElsewhere(k: Kernel, k': Kernel, x: nat, obj: Option<nat>, e: Event)
    requires x in k.sem && SemOk(k, x) && SteadyBut(k.s, k'.s, obj) && obj != Some(x)
    requires x in k'.sem && k'.sem[x] == k.sem[x] && k'.log == k.log + [e] && Elsewhere(e, x)
    ensures SemOk(k', x)
  {
    ElsewhereKeeps(k.log, e, x);
  }

  /** A step on object obj, logged as e, keeps the invariant if it keeps it for obj itself. */
  lemma OthersKept(k: Kernel, k': Kernel, obj: nat, e: Event)
    requires KInv(k) && Inv(k'.s) && SteadyBut(k.s, k'.s, Some(obj))
    requires k'.log == k.log + [e] && (forall m: nat :: m != obj ==> Elsewhere(e, m))
    requires k'.mtx.Keys == k.mtx.Keys && k'.sem.Keys == k.sem.Keys
    requires forall m: nat :: m in k.mtx && m != obj ==> k'.mtx[m] == k.mtx[m]
    requires forall x: nat :: x in k.sem && x != obj ==> k'.sem[x] == k.sem[x]
    requires obj in k'.mtx ==> MutexOk(k', obj)
    requires obj in k'.sem ==> SemOk(k', obj)
    ensures KInv(k')
  {
    forall m | m in k'.mtx ensures MutexOk(k', m) {
      if m != obj { MutexElsewhere(k, k', m, Some(obj), e); }
    }
    forall x | x in k'.sem ensures SemOk(k', x) {
      if x != obj { SemElsewhere(k, k', x, Some(obj), e); }
    }
  }

  /** A step that touches no semaphore or mutex keeps the invariant if it is steady. */
  lemma QuietKept(k: Kernel, s': Sched)
    requires KInv(k) && Inv(s') && Steady(k.s, s')
    ensures KInv(k.(s := s'))
  {
    var k' := k.(s := s');
    forall m | m in k'.mtx ensures MutexOk(k', m) {
      assert MutexOk(k, m);
    }
    forall x | x in k'.sem ensures SemOk(k', x) {
      assert SemOk(k, x);
    }
  }

  // ----- rt_mutex_take -----

  ghost predicate Acts(k: Kernel, t: Tid) {
    CanRun(k.s, t)
  }

  function WithError(s: Sched, t: Tid, e: Err): Sched
    requires t in s.thr
  {
    SetThread(s, t, s.thr[t].(error := e))
  }

  lemma WithErrorInv(s: Sched, t: Tid, e: Err)
    requires Inv(s) && t in s.thr
    ensures Inv(WithError(s, t, e)) && Steady(s, WithError(s, t, e))
  {
    assert ThreadOk(s, t);
    SetQuietInv(s, t, s.thr[t].(error := e));
  }

  /** The boost a waiter gives to the owner, in the locked section that suspends it. */
  ghost function Boost(s: Sched, t: Tid, o: Tid): Sched
    requires HasReadyLists(s) && t in s.thr && o in s.thr
  {
    if s.thr[t].cur < s.thr[o].cur then ChangePriority(s, o, s.thr[t].cur) else s
  }

  lemma BoostInv(s: Sched, t: Tid, o: Tid)
    requires Inv(s) && t in s.thr && Alive(s, o)
    ensures Boost(s, t, o).busy == s.busy
    ensures Inv(Boost(s, t, o)) && Steady(s, Boost(s, t, o))
    ensures Boost(s, t, o).lists.Keys == s.lists.Keys
    ensures forall x: nat :: Wait(x) in s.lists ==> Boost(s, t, o).lists[Wait(x)] == s.lists[Wait(x)]
    ensures Boost(s, t, o).thr == s.thr ||
      (s.thr[t].cur < s.thr[o].cur && Boost(s, t, o).thr == s.thr[o := WithPriority(s.thr[o], s.thr[t].cur)])
    ensures o in Boost(s, t, o).thr && t in Boost(s, t, o).thr
    ensures Boost(s, t, o).thr[o].cur <= s.thr[t].cur
  {
    assert ThreadOk(s, o);
    if s.thr[t].cur < s.thr[o].cur {
      ChangePriorityInv(s, o, s.thr[t].cur);
      ChangePrioritySteady(s, o, s.thr[t].cur);
    }
  }

  ghost function MutexTake(k: Kernel, t: Tid, m: nat, time: int): (Kernel, Outcome)
    requires KInv(k) && Acts(k, t) && m in k.mtx
  {
    var mu := k.mtx[m];
    WithErrorInv(k.s, t, EOK);
    var s0 := WithError(k.s, t, EOK);
    if mu.owner == Some(t) then
      if mu.hold < MUTEX_HOLD_MAX then
        (Kernel(s0, k.mtx[m := mu.(hold := mu.hold + 1)], k.sem, k.log + [Reacquired(m, t)]), OK)
      else
        (k.(s := s0), FULL)
    else if mu.value > 0 then
      var mu1 := mu.(value := mu.value - 1, owner := Some(t), orig := s0.thr[t].cur);
      if mu1.hold < MUTEX_HOLD_MAX then
        (Kernel(s0, k.mtx[m := mu1.(hold := mu1.hold + 1)], k.sem, k.log + [Acquired(m, t, s0.thr[t].cur)]), OK)
      else
        (k.(s := s0, mtx := k.mtx[m := mu1]), FULL)
    else if time == 0 then
      (k.(s := WithError(s0, t, ETIMEOUT)), TIMEDOUT)
    else
      assert MutexOk(k, m);
      BoostInv(s0, t, mu.owner.value);
      var s1 := Boost(s0, t, mu.owner.value);
      (Kernel(Block(s1, t, m, mu.prioFlag, time > 0), k.mtx, k.sem, k.log + [Blocked(t)]), BLOCKED)
  }

  lemma TakeHeld(k: Kernel, t: Tid, m: nat, time: int)
    requires KInv(k) && Acts(k, t) && m in k.mtx && k.mtx[m].owner == Some(t)
    ensures KInv(MutexTake(k, t, m, time).0)
  {
    WithErrorInv(k.s, t, EOK);
    var mu, k' := k.mtx[m], MutexTake(k, t, m, time).0;
    if mu.hold < MUTEX_HOLD_MAX {
      assert MutexOk(k, m);
      LogAppend(k.log, Reacquired(m, t));
      assert MutexOk(k', m);
      OthersKept(k, k', m, Reacquired(m, t));
    } else {
      QuietKept(k, k'.s);
    }
  }

  /** A free mutex is always acquired: the overflow exit is unreachable. */
  lemma TakeFree(k: Kernel, t: Tid, m: nat, time: int)
    requires KInv(k) && Acts(k, t) && m in k.mtx && k.mtx[m].owner.None?
    ensures KInv(MutexTake(k, t, m, time).0) && MutexTake(k, t, m, time).1 == OK
  {
    WithErrorInv(k.s, t, EOK);
    assert MutexOk(k, m);
    var k', e := MutexTake(k, t, m, time).0, Acquired(m, t, k.s.thr[t].cur);
    LogAppend(k.log, e);
    assert MutexOk(k', m);
    OthersKept(k, k', m, e);
  }

  lemma BlockSteady(s: Sched, t: Tid, obj: nat, prioFlag: bool, timed: bool)
    requires Inv(s) && CanRun(s, t) && Wait(obj) in s.lists
    ensures SteadyBut(s, Block(s, t, obj, prioFlag, timed), Some(obj))
    ensures Block(s, t, obj, prioFlag, timed).lists.Keys == s.lists.Keys
    ensures forall o: nat :: Wait(o) in s.lists && o != obj ==>
      Block(s, t, obj, prioFlag, timed).lists[Wait(o)] == s.lists[Wait(o)]
  {
    SuspendWaits(s, t);
  }

  lemma TakeBlocks(k: Kernel, s1: Sched, t: Tid, m: nat, timed: bool)
    requires KInv(k.(s := s1)) && m in k.mtx && k.mtx[m].owner.Some?
    requires CanRun(s1, t) && Wait(m) in s1.lists
    ensures KInv(Kernel(Block(s1, t, m, k.mtx[m].prioFlag, timed), k.mtx, k.sem, k.log + [Blocked(t)]))
  {
    var k1 := k.(s := s1);
    var k' := Kernel(Block(s1, t, m, k.mtx[m].prioFlag, timed), k.mtx, k.sem, k.log + [Blocked(t)]);
    BlockInv(s1, t, m, k.mtx[m].prioFlag, timed);
    BlockSteady(s1, t, m, k.mtx[m].prioFlag, timed);
    assert MutexOk(k', m) by {
      assert MutexOk(k1, m);
      ElsewhereKeeps(k.log, Blocked(t), m);
    }
    OthersKept(k1, k', m, Blocked(t));
  }

  lemma TakeBusy(k: Kernel, t: Tid, m: nat, time: int)
    requires KInv(k) && Acts(k, t) && m in k.mtx && k.mtx[m].owner.Some? && k.mtx[m].owner != Some(t)
    ensures KInv(MutexTake(k, t, m, time).0)
    ensures MutexTake(k, t, m, time).0.mtx == k.mtx
  {
    WithErrorInv(k.s, t, EOK);
    var s0 := WithError(k.s, t, EOK);
    assert MutexOk(k, m);
    if time == 0 {
      WithErrorInv(s0, t, ETIMEOUT);
      QuietKept(k, WithError(s0, t, ETIMEOUT));
    } else {
      BoostInv(s0, t, k.mtx[m].owner.value);
      var s1 := Boost(s0, t, k.mtx[m].owner.value);
      QuietKept(k, s1);
      TakeBlocks(k, s1, t, m, time > 0);
    }
  }

  /** What a take answers, and what it makes of the mutex. */
  ghost predicate TakenAs(mu: Mutex, mu': Mutex, t: Tid, time: int, r: Outcome) {
    && (mu.owner == Some(t) && mu.hold < 255 ==> r == OK && mu' == mu.(hold := mu.hold + 1))
    && (mu.owner == Some(t) && mu.hold == 255 ==> r == FULL && mu' == mu)
    && (mu.owner == None ==> r == OK && mu'.owner == Some(t) && mu'.hold == 1 && mu'.value == 0 && mu'.prioFlag == mu.prioFlag)
    && (mu.owner != None && mu.owner != Some(t) ==> r == (if time == 0 then TIMEDOUT else BLOCKED) && mu' == mu)
  }

  lemma TakeAnswers(k: Kernel, t: Tid, m: nat, time: int)
    requires KInv(k) && Acts(k, t) && m in k.mtx
    ensures var (k', r) := MutexTake(k, t, m, time); k'.mtx.Keys == k.mtx.Keys && TakenAs(k.mtx[m], k'.mtx[m], t, time, r)
  {
    assert MutexOk(k, m);
  }

  lemma TakeInv(k: Kernel, t: Tid, m: nat, time: int)
    requires KInv(k) && Acts(k, t) && m in k.mtx
    ensures var (k', r) := MutexTake(k, t, m, time);
      KInv(k') && k'.mtx.Keys == k.mtx.Keys && TakenAs(k.mtx[m], k'.mtx[m], t, time, r)
  {
    TakeAnswers(k, t, m, time);
    if k.mtx[m].owner == Some(t) {
      TakeHeld(k, t, m, time);
    } else if k.mtx[m].owner.None? {
      TakeFree(k, t, m, time);
    } else {
      TakeBusy(k, t, m, time);
    }
  }

  // ----- rt_mutex_release -----

  /** The owner's priority goes back to what it was on acquisition. */
  ghost function Restore(s: Sched, t: Tid, p: Prio): Sched
    requires HasReadyLists(s) && t in s.thr
  {
    if p != s.thr[t].cur then ChangePriority(s, t, p) else s
  }

  lemma RestoreInv(s: Sched, t: Tid, p: Prio)
    requires Inv(s) && CanRun(s, t)
    ensures Restore(s, t, p).busy == s.busy
    ensures Inv(Restore(s, t, p)) && Steady(s, Restore(s, t, p))
    ensures Restore(s, t, p).lists.Keys == s.lists.Keys
    ensures forall x: nat :: Wait(x) in s.lists ==> Restore(s, t, p).lists[Wait(x)] == s.lists[Wait(x)]
    ensures t in Restore(s, t, p).thr && Restore(s, t, p).thr[t].cur == p
    ensures Restore(s, t, p).thr.Keys == s.thr.Keys
    ensures forall x :: x in s.thr && x != t ==> Restore(s, t, p).thr[x] == s.thr[x]
  {
    if p != s.thr[t].cur {
      ChangePriorityInv(s, t, p);
      ChangePrioritySteady(s, t, p);
    }
  }

  /** The first waiter becomes runnable with mutex record mu, which names it as owner. */
  ghost function HandOff(k: Kernel, s1: Sched, t: Tid, m: nat, mu: Mutex): Kernel
    requires Inv(s1) && Wait(m) in s1.lists && s1.lists[Wait(m)] != []
  {
    QueueKnown(s1, m);
    var w := s1.lists[Wait(m)][0];
    Kernel(WakeHead(s1, m), k.mtx[m := mu], k.sem,
           k.log + [Released(m, t)] + [Acquired(m, w, s1.thr[w].cur)])
  }

  ghost function MutexRelease(k: Kernel, t: Tid, m: nat): (Kernel, Outcome)
    requires KInv(k) && Acts(k, t) && m in k.mtx
  {
    var mu := k.mtx[m];
    assert MutexOk(k, m);
    if mu.owner != Some(t) then
      (k.(s := WithError(k.s, t, ERROR)), REFUSED)
    else
      var mu1 := mu.(hold := mu.hold - 1);
      if mu1.hold != 0 then
        (Kernel(k.s, k.mtx[m := mu1], k.sem, k.log + [Released(m, t)]), OK)
      else
        RestoreInv(k.s, t, mu.orig);
        PassOn(k, Restore(k.s, t, mu.orig), t, m, mu1)
  }

  /** The end of the last release: mutex record mu goes to the first waiter, or is freed. */
  ghost function PassOn(k: Kernel, s1: Sched, t: Tid, m: nat, mu: Mutex): (Kernel, Outcome)
    requires Inv(s1) && Wait(m) in s1.lists
  {
    if s1.lists[Wait(m)] != [] then
      QueueKnown(s1, m);
      var w := s1.lists[Wait(m)][0];
      var mu2 := mu.(owner := Some(w), orig := s1.thr[w].cur);
      if mu2.hold < MUTEX_HOLD_MAX then
        (HandOff(k, s1, t, m, mu2.(hold := mu2.hold + 1)), OK)
      else
        (Kernel(s1, k.mtx[m := mu2], k.sem, k.log + [Released(m, t)]), FULL)
    else if mu.value < MUTEX_VALUE_MAX then
      (Kernel(s1, k.mtx[m := mu.(value := mu.value + 1, owner := None)], k.sem, k.log + [Released(m, t)]), OK)
    else
      (Kernel(s1, k.mtx[m := mu], k.sem, k.log + [Released(m, t)]), FULL)
  }

  lemma PassOnFrees(k: Kernel, s1: Sched, t: Tid, m: nat, mu: Mutex)
    requires Inv(s1) && Wait(m) in s1.lists && s1.lists[Wait(m)] == [] && mu.value < MUTEX_VALUE_MAX
    ensures PassOn(k, s1, t, m, mu) ==
      (Kernel(s1, k.mtx[m := mu.(value := mu.value + 1, owner := None)], k.sem, k.log + [Released(m, t)]), OK)
  {
  }

  /** The last release with nobody waiting, written out. */
  lemma ReleaseFreesIs(k: Kernel, t: Tid, m: nat)
    requires KInv(k) && Acts(k, t) && m in k.mtx && k.mtx[m].owner == Some(t) && k.mtx[m].hold == 1
    requires Wait(m) in k.s.lists && k.s.lists[Wait(m)] == []
    ensures var s1, mu := Restore(k.s, t, k.mtx[m].orig), k.mtx[m];
      && Inv(s1) && Steady(k.s, s1) && Wait(m) in s1.lists && s1.lists[Wait(m)] == []
      && MutexRelease(k, t, m) ==
         (Kernel(s1, k.mtx[m := mu.(hold := 0, value := mu.value + 1, owner := None)], k.sem, k.log + [Released(m, t)]), OK)
  {
    var mu := k.mtx[m];
    assert mu.value < MUTEX_VALUE_MAX by { assert MutexOk(k, m); }
    RestoreInv(k.s, t, mu.orig);
    PassOnFrees(k, Restore(k.s, t, mu.orig), t, m, mu.(hold := 0));
  }

  lemma ReleaseNested(k: Kernel, t: Tid, m: nat)
    requires KInv(k) && Acts(k, t) && m in k.mtx && k.mtx[m].owner == Some(t) && k.mtx[m].hold > 1
    ensures KInv(MutexRelease(k, t, m).0) && MutexRelease(k, t, m).1 == OK
  {
    var k' := MutexRelease(k, t, m).0;
    assert MutexOk(k', m) by {
      assert MutexOk(k, m);
      LogAppend(k.log, Released(m, t));
    }
    OthersKept(k, k', m, Released(m, t));
  }

  /** Releasing with nobody waiting frees the mutex: the value overflow exit is unreachable. */
  lemma ReleaseFrees(k: Kernel, t: Tid, m: nat)
    requires KInv(k) && Acts(k, t) && m in k.mtx && k.mtx[m].owner == Some(t) && k.mtx[m].hold == 1
    requires Wait(m) in k.s.lists && k.s.lists[Wait(m)] == []
    ensures KInv(MutexRelease(k, t, m).0) && MutexRelease(k, t, m).1 == OK
    ensures MutexRelease(k, t, m).0.mtx[m].owner == None
  {
    ReleaseFreesIs(k, t, m);
    FreedKept(k, Restore(k.s, t, k.mtx[m].orig), t, m);
  }

  lemma FreedKept(k: Kernel, s1: Sched, t: Tid, m: nat)
    requires KInv(k) && m in k.mtx && k.mtx[m].owner == Some(t) && k.mtx[m].hold == 1
    requires Inv(s1) && Steady(k.s, s1) && Wait(m) in s1.lists && s1.lists[Wait(m)] == []
    ensures var mu := k.mtx[m].(hold := 0, value := k.mtx[m].value + 1, owner := None);
      KInv(Kernel(s1, k.mtx[m := mu], k.sem, k.log + [Released(m, t)]))
  {
    var mu := k.mtx[m].(hold := 0, value := k.mtx[m].value + 1, owner := None);
    var k' := Kernel(s1, k.mtx[m := mu], k.sem, k.log + [Released(m, t)]);
    assert MutexOk(k', m) by {
      assert MutexOk(k, m);
      LogAppend(k.log, Released(m, t));
    }
    OthersKept(k, k', m, Released(m, t));
  }

  /** Mid hand-off: m is released, restored and unowned, its queue still full. */
  lemma HandOffOthers(k: Kernel, s1: Sched, t: Tid, w: Tid, m: nat, k': Kernel, p: Prio)
    requires KInv(k) && m in k.mtx && Inv(s1) && Steady(k.s, s1) && Inv(k'.s) && Steady(s1, k'.s)
    requires k'.mtx.Keys == k.mtx.Keys && k'.sem == k.sem
    requires forall n: nat :: n in k.mtx && n != m ==> k'.mtx[n] == k.mtx[n]
    requires k'.log == k.log + [Released(m, t)] + [Acquired(m, w, p)]
    requires MutexOk(k', m)
    ensures KInv(k')
  {
    var mid := k.log + [Released(m, t)];
    forall n: nat | n in k'.mtx ensures MutexOk(k', n) {
      if n != m {
        assert MutexOk(k, n);
        ElsewhereKeeps(k.log, Released(m, t), n);
        ElsewhereKeeps(mid, Acquired(m, w, p), n);
      }
    }
    forall x: nat | x in k'.sem ensures SemOk(k', x) {
      assert SemOk(k, x) && x != m;
      ElsewhereKeeps(k.log, Released(m, t), x);
      ElsewhereKeeps(mid, Acquired(m, w, p), x);
    }
  }

  lemma HandOffCounts(log: Log, m: nat, t: Tid, w: Tid, p: Prio)
    requires forall x: Tid :: Unmatched(log, m, x) == if x == t then 1 else 0
    ensures var log' := log + [Released(m, t)] + [Acquired(m, w, p)];
      && AcquiredAt(log', m) == p
      && forall x: Tid :: Unmatched(log', m, x) == if x == w then 1 else 0
  {
    var mid := log + [Released(m, t)];
    LogAppend(log, Released(m, t));
    LogAppend(mid, Acquired(m, w, p));
    forall x: Tid ensures Unmatched(mid + [Acquired(m, w, p)], m, x) == if x == w then 1 else 0 {
      assert Unmatched(mid, m, x) == 0;
    }
  }

  lemma HandOffMutexOk(k: Kernel, s1: Sched, t: Tid, w: Tid, m: nat, k': Kernel)
    requires m in k.mtx && MutexOk(k, m) && k.mtx[m].owner == Some(t) && k.mtx[m].hold == 1
    requires w in s1.thr && Alive(k'.s, w) && Wait(m) in k'.s.lists
    requires m in k'.mtx && k'.mtx[m] == k.mtx[m].(owner := Some(w), orig := s1.thr[w].cur)
    requires k'.log == k.log + [Released(m, t)] + [Acquired(m, w, s1.thr[w].cur)]
    ensures MutexOk(k', m)
  {
    HandOffCounts(k.log, m, t, w, s1.thr[w].cur);
  }

  lemma HandOffKept(k: Kernel, s1: Sched, t: Tid, m: nat, mu: Mutex)
    requires KInv(k) && m in k.mtx && k.mtx[m].owner == Some(t) && k.mtx[m].hold == 1
    requires Inv(s1) && Steady(k.s, s1) && Wait(m) in s1.lists && s1.lists[Wait(m)] != []
    requires var w := s1.lists[Wait(m)][0];
      w in s1.thr && mu == k.mtx[m].(owner := Some(w), orig := s1.thr[w].cur)
    ensures KInv(HandOff(k, s1, t, m, mu))
  {
    QueueKnown(s1, m);
    var w := s1.lists[Wait(m)][0];
    WakeHeadInv(s1, m);
    var k' := HandOff(k, s1, t, m, mu);
    HandOffMutexOk(k, s1, t, w, m, k');
    HandOffOthers(k, s1, t, w, m, k', s1.thr[w].cur);
  }

  /** With waiters the mutex passes to the first of them: the hold overflow exit is unreachable. */
  lemma ReleaseHandsOff(k: Kernel, t: Tid, m: nat)
    requires KInv(k) && Acts(k, t) && m in k.mtx && k.mtx[m].owner == Some(t) && k.mtx[m].hold == 1
    requires Wait(m) in k.s.lists && k.s.lists[Wait(m)] != []
    ensures KInv(MutexRelease(k, t, m).0) && MutexRelease(k, t, m).1 == OK
    ensures MutexRelease(k, t, m).0.mtx[m].owner == Some(k.s.lists[Wait(m)][0])
  {
    RestoreInv(k.s, t, k.mtx[m].orig);
    var s1 := Restore(k.s, t, k.mtx[m].orig);
    QueueKnown(s1, m);
    var w := s1.lists[Wait(m)][0];
    HandOffKept(k, s1, t, m, k.mtx[m].(owner := Some(w), orig := s1.thr[w].cur));
  }

  lemma ReleaseInv(k: Kernel, t: Tid, m: nat)
    requires KInv(k) && Acts(k, t) && m in k.mtx
    ensures KInv(MutexRelease(k, t, m).0)
    ensures MutexRelease(k, t, m).1 == if k.mtx[m].owner == Some(t) then OK else REFUSED
  {
    assert MutexOk(k, m);
    if k.mtx[m].owner != Some(t) {
      WithErrorInv(k.s, t, ERROR);
      QuietKept(k, WithError(k.s, t, ERROR));
    } else if k.mtx[m].hold > 1 {
      ReleaseNested(k, t, m);
    } else if k.s.lists[Wait(m)] == [] {
      ReleaseFrees(k, t, m);
    } else {
      ReleaseHandsOff(k, t, m);
    }
  }

  // ----- rt_sem_take, rt_sem_release, rt_sem_control(RT_IPC_CMD_RESET) -----

  ghost function SemTake(k: Kernel, t: Tid, x: nat, time: int): (Kernel, Outcome)
    requires KInv(k) && Acts(k, t) && x in k.sem
  {
    var sm := k.sem[x];
    assert SemOk(k, x);
    if sm.value > 0 then
      (k.(sem := k.sem[x := sm.(value := sm.value - 1)], log := k.log + [SemGranted(x)]), OK)
    else if time == 0 then
      (k, TIMEDOUT)
    else
      WithErrorInv(k.s, t, EOK);
      var s0 := WithError(k.s, t, EOK);
      (k.(s := Block(s0, t, x, sm.prioFlag, time > 0), log := k.log + [Blocked(t)]), BLOCKED)
  }

  ghost function SemRelease(k: Kernel, x: nat): (Kernel, Outcome)
    requires KInv(k) && x in k.sem
  {
    var sm := k.sem[x];
    assert SemOk(k, x);
    if k.s.lists[Wait(x)] != [] then
      (k.(s := WakeHead(k.s, x), log := k.log + [SemReleased(x)] + [SemGranted(x)]), OK)
    else if sm.value < SEM_VALUE_MAX then
      (k.(sem := k.sem[x := sm.(value := sm.value + 1)], log := k.log + [SemReleased(x)]), OK)
    else
      (k, FULL)
  }

  ghost function SemReset(k: Kernel, x: nat, v: nat): Kernel
    requires KInv(k) && x in k.sem
  {
    assert SemOk(k, x);
    var value := v % 0x10000;
    k.(s := WakeAll(k.s, x), sem := k.sem[x := k.sem[x].(value := value)], log := k.log + [SemSet(x, value)])
  }

  lemma SemTakeInv(k: Kernel, t: Tid, x: nat, time: int)
    requires KInv(k) && Acts(k, t) && x in k.sem
    ensures var (k', r) := SemTake(k, t, x, time);
      && KInv(k') && k'.sem.Keys == k.sem.Keys
      && (k.sem[x].value > 0 ==> r == OK && k'.sem[x].value == k.sem[x].value - 1)
      && (k.sem[x].value == 0 ==> r == (if time == 0 then TIMEDOUT else BLOCKED) && k'.sem == k.sem)
  {
    assert SemOk(k, x);
    var k' := SemTake(k, t, x, time).0;
    if k.sem[x].value > 0 {
      LogAppend(k.log, SemGranted(x));
      OthersKept(k, k', x, SemGranted(x));
    } else if time != 0 {
      WithErrorInv(k.s, t, EOK);
      var s0 := WithError(k.s, t, EOK);
      BlockInv(s0, t, x, k.sem[x].prioFlag, time > 0);
      BlockSteady(s0, t, x, k.sem[x].prioFlag, time > 0);
      ElsewhereKeeps(k.log, Blocked(t), x);
      OthersKept(k, k', x, Blocked(t));
    }
  }

  lemma SemReleaseInv(k: Kernel, x: nat)
    requires KInv(k) && x in k.sem
    ensures Wait(x) in k.s.lists
    ensures var (k', r) := SemRelease(k, x);
      && KInv(k') && k'.sem.Keys == k.sem.Keys
      && (k.s.lists[Wait(x)] != [] ==> r == OK && k'.sem == k.sem)
      && (k.s.lists[Wait(x)] == [] && k.sem[x].value < 65535 ==> r == OK && k'.sem[x].value == k.sem[x].value + 1)
      && (k.s.lists[Wait(x)] == [] && k.sem[x].value >= 65535 ==> r == FULL && k' == k)
  {
    assert SemOk(k, x);
    var k' := SemRelease(k, x).0;
    if k.s.lists[Wait(x)] != [] {
      WakeHeadInv(k.s, x);
      LogAppend(k.log, SemReleased(x));
      var k1 := k.(s := k'.s, log := k.log + [SemReleased(x)]);
      SemHandOff(k, k1, k', x);
    } else if k.sem[x].value < SEM_VALUE_MAX {
      LogAppend(k.log, SemReleased(x));
      OthersKept(k, k', x, SemReleased(x));
    }
  }

  /** Direct hand-off is a release and a grant in one step. */
  lemma SemHandOff(k: Kernel, k1: Kernel, k': Kernel, x: nat)
    requires KInv(k) && x in k.sem && Inv(k'.s) && Steady(k.s, k'.s)
    requires k' == k.(s := k'.s, log := k.log + [SemReleased(x)] + [SemGranted(x)])
    requires k1 == k.(s := k'.s, log := k.log + [SemReleased(x)])
    ensures KInv(k')
  {
    LogAppend(k.log, SemReleased(x));
    LogAppend(k1.log, SemGranted(x));
    assert SemOk(k', x) by { assert SemOk(k, x); }
    forall m: nat | m in k'.mtx ensures MutexOk(k', m) {
      MutexElsewhere(k, k1, m, None, SemReleased(x));
      MutexElsewhere(k1, k', m, None, SemGranted(x));
    }
    forall y: nat | y in k'.sem ensures SemOk(k', y) {
      if y != x {
        SemElsewhere(k, k1, y, None, SemReleased(x));
        SemElsewhere(k1, k', y, None, SemGranted(x));
      }
    }
  }

  lemma SemResetInv(k: Kernel, x: nat, v: nat)
    requires KInv(k) && x in k.sem
    ensures KInv(SemReset(k, x, v))
  {
    assert SemOk(k, x);
    WakeAllInv(k.s, x);
    LogAppend(k.log, SemSet(x, v % 0x10000));
    OthersKept(k, SemReset(k, x, v), x, SemSet(x, v % 0x10000));
  }

  // ----- Steps of the thread layer -----

  /** Every mutex owner still runs, and no empty wait queue has gained a waiter. */
  ghost predicate Harmless(k: Kernel, s': Sched) {
    && (forall m: nat :: m in k.mtx && k.mtx[m].owner.Some? ==>
          Alive(s', k.mtx[m].owner.value))
    && (forall o: nat :: Wait(o) in k.s.lists ==> Wait(o) in s'.lists)
    && (forall o: nat :: (o in k.mtx || o in k.sem) && Wait(o) in k.s.lists && k.s.lists[Wait(o)] == [] ==>
          s'.lists[Wait(o)] == [])
  }

  lemma HarmlessKept(k: Kernel, s': Sched)
    requires KInv(k) && Inv(s') && Harmless(k, s')
    ensures KInv(k.(s := s'))
  {
    var k' := k.(s := s');
    forall m: nat | m in k'.mtx ensures MutexOk(k', m) {
      assert MutexOk(k, m);
    }
    forall x: nat | x in k'.sem ensures SemOk(k', x) {
      assert SemOk(k, x);
    }
  }

  lemma OwnersRun(k: Kernel, m: nat)
    requires KInv(k) && m in k.mtx && k.mtx[m].owner.Some?
    ensures Alive(k.s, k.mtx[m].owner.value)
  {
    assert MutexOk(k, m);
  }

  datatype Step =
    | NewMutex(m: nat, prioFlag: bool)
    | NewSem(x: nat, v: nat, prioFlag: bool)
    | NewQueue(obj: nat)
    | NewThread(t: Tid, p: Prio)
    | StartBegin(t: Tid)
    | ThreadSuspend(t: Tid)
    | ReadyBegin(t: Tid)
    | ReadyEnd(t: Tid)
    | ThreadSleep(t: Tid)
    | TimerFires(t: Tid)
    | SetPriority(t: Tid, p: Prio)
    | ThreadYield(t: Tid)
    | ThreadExit(t: Tid, dynamic: bool)
    | DeleteBegin(t: Tid)
    | DeleteEnd(t: Tid, dynamic: bool)
    | IdleReap
    | WaitOn(t: Tid, obj: nat, prioFlag: bool, timed: bool)
    | WakeOne(obj: nat)
    | WakeEvery(obj: nat)
    | TakeMutex(t: Tid, m: nat, time: int)
    | ReleaseMutex(t: Tid, m: nat)
    | TakeSem(t: Tid, x: nat, time: int)
    | ReleaseSem(x: nat)
    | ResetSem(x: nat, v: nat)

  /** The wait queue of an object other than a mutex or a semaphore: event, mailbox, message queue, pool. */
  ghost predicate PlainQueue(k: Kernel, obj: nat) {
    obj !in k.mtx && obj !in k.sem && Wait(obj) in k.s.lists
  }

  ghost predicate Owns(k: Kernel, t: Tid, m: nat) {
    m in k.mtx && k.mtx[m].owner == Some(t)
  }

  /** A name for a new object: nothing in the kernel or its past mentions it. */
  ghost predicate NeverUsed(k: Kernel, obj: nat) {
    && obj !in k.mtx && obj !in k.sem && Wait(obj) !in k.s.lists
    && forall e :: e in k.log ==> Elsewhere(e, obj)
  }

  /** A thread that may be initialised: unknown, or exited or detached and on no list. */
  ghost predicate Unborn(s: Sched, t: Tid) {
    t in s.thr ==> s.thr[t].stat == CLOSE && t !in s.busy && OnNone(s.lists, t)
  }

  /** rt_ipc_object_init: an empty wait queue. */
  function AddQueue(s: Sched, obj: nat): Sched {
    s.(lists := s.lists[Wait(obj) := []])
  }

  /**
    When a thread may be deleted or detached: it owns no mutex, nobody is half way through another
    operation on it, and its timer is not armed (Sections.OneCallBetween says why).
   */
  ghost predicate Deletable(k: Kernel, t: Tid) {
    t in k.s.thr && t !in k.s.busy && !k.s.thr[t].timer && forall m: nat :: !Owns(k, t, m)
  }

  /**
    What callers must respect: RT_ASSERTs, blocking only when READY, no closing of a mutex owner, and
    what Sections.OneCallBetween shows that a half-done resume or delete does not stand: a resume of a
    thread that is SUSPENDed, a start of one that is INIT, another priority for one that is READY, and a
    delete or detach (a second detach, which a half-done call would stand, is not a step either).
   */
  ghost predicate Allowed(k: Kernel, st: Step) {
    match st
    case NewMutex(m, _) => NeverUsed(k, m)
    case NewSem(x, v, _) => NeverUsed(k, x) && v < 0x10000
    case NewQueue(obj) => NeverUsed(k, obj)
    case NewThread(t, _) => Unborn(k.s, t)
    case StartBegin(t) => t in k.s.thr && k.s.thr[t].stat == INIT && t !in k.s.busy
    case ThreadSuspend(t) => t in k.s.thr
    case ReadyBegin(t) => t in k.s.thr && (k.s.thr[t].stat == SUSPEND ==> t !in k.s.busy)
    case ReadyEnd(t) => t in k.s.busy && k.s.busy[t].Resuming?
    case ThreadSleep(t) => Acts(k, t)
    case TimerFires(t) => t in k.s.thr && k.s.thr[t].timer
    case SetPriority(t, _) => t in k.s.thr && (k.s.thr[t].stat == READY ==> t !in k.s.busy)
    case ThreadYield(t) => Acts(k, t)
    case ThreadExit(t, _) => Acts(k, t) && forall m: nat :: !Owns(k, t, m)
    case DeleteBegin(t) => Deletable(k, t)
    case DeleteEnd(t, _) => t in k.s.busy && k.s.busy[t].Closing?
    case IdleReap => Defunct in k.s.lists && k.s.lists[Defunct] != []
    case WaitOn(t, obj, _, _) => Acts(k, t) && PlainQueue(k, obj)
    case WakeOne(obj) => PlainQueue(k, obj) && k.s.lists[Wait(obj)] != []
    case WakeEvery(obj) => PlainQueue(k, obj)
    case TakeMutex(t, m, _) => Acts(k, t) && m in k.mtx
    case ReleaseMutex(t, m) => Acts(k, t) && m in k.mtx
    case TakeSem(t, x, _) => Acts(k, t) && x in k.sem
    case ReleaseSem(x) => x in k.sem
    case ResetSem(x, _) => x in k.sem
  }

  /** rt_thread_idle_excute: delete the first defunct thread. */
  ghost function Reap(s: Sched): Sched
    requires Defunct in s.lists && s.lists[Defunct] != []
  {
    var t := s.lists[Defunct][0];
    s.(thr := s.thr - {t}, lists := Unlink(s.lists, t))
  }

  /** rt_thread_sleep */
  ghost function Sleep(s: Sched, t: Tid): Sched
    requires HasReadyLists(s) && t in s.thr
  {
    Arm(Suspend(s, t), t)
  }

  predicate ThreadStep(st: Step) {
    st.StartBegin? || st.ThreadSuspend? || st.ReadyBegin? || st.ReadyEnd? || st.ThreadSleep? || st.TimerFires? ||
    st.SetPriority? || st.ThreadYield? || st.ThreadExit? || st.DeleteBegin? || st.DeleteEnd? || st.IdleReap?
  }

  /** Steps that change threads and lists only. */
  ghost function DoThread(s: Sched, st: Step): Sched
    requires HasReadyLists(s) && ThreadStep(st)
    requires !st.IdleReap? ==> st.t in s.thr
    requires st.IdleReap? ==> s.lists[Defunct] != []
  {
    match st
    case StartBegin(t) => StartupBegin(s, t)
    case ThreadSuspend(t) => Suspend(s, t)
    case ReadyBegin(t) => if s.thr[t].stat == SUSPEND then ResumeBegin(s, t) else s
    case ReadyEnd(t) => ResumeEnd(s, t)
    case ThreadSleep(t) => Sleep(s, t)
    case TimerFires(t) => Timeout(s, t)
    case SetPriority(t, p) => ChangePriority(s, t, p)
    case ThreadYield(t) => Yield(s, t)
    case ThreadExit(t, dynamic) => Exit(s, t, dynamic)
    case DeleteBegin(t) => if s.thr[t].stat == CLOSE then s else CloseBegin(s, t)
    case DeleteEnd(t, dynamic) => CloseEnd(s, t, dynamic)
    case IdleReap => Reap(s)
  }

  ghost function Do(k: Kernel, st: Step): Kernel
    requires KInv(k) && Allowed(k, st)
  {
    if ThreadStep(st) then k.(s := DoThread(k.s, st)) else
      match st
      case NewMutex(m, flag) => k.(s := AddQueue(k.s, m), mtx := k.mtx[m := Mutex(1, 0, None, 31, flag)])
      case NewSem(x, v, flag) =>
        k.(s := AddQueue(k.s, x), sem := k.sem[x := Sem(v, flag)], log := k.log + [SemSet(x, v)])
      case NewQueue(obj) => k.(s := AddQueue(k.s, obj))
      case NewThread(t, p) => k.(s := SetThread(k.s, t, Thread(INIT, p, p, 0, EOK, false)))
      case WaitOn(t, obj, flag, timed) => k.(s := Block(k.s, t, obj, flag, timed), log := k.log + [Blocked(t)])
      case WakeOne(obj) => k.(s := WakeHead(k.s, obj))
      case WakeEvery(obj) => k.(s := WakeAll(k.s, obj))
      case TakeMutex(t, m, time) => MutexTake(k, t, m, time).0
      case ReleaseMutex(t, m) => MutexRelease(k, t, m).0
      case TakeSem(t, x, time) => SemTake(k, t, x, time).0
      case ReleaseSem(x) => SemRelease(k, x).0
      case ResetSem(x, v) => SemReset(k, x, v)
  }
}
