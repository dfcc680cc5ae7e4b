/**
  The stale check of rt_thread_suspend, rt-thread/kernel/src/thread.c:724-735: a waiter that it takes
  off its wait queue stays suspended through every run in which nobody resumes it by hand.
 */
module Stranding {
  import opened Wrappers
  import opened Queues
  import opened Scheduler
  import opened Sections
  import opened Ipc
  import opened KernelRuns

  /** The locked part of rt_thread_suspend, for a thread that has blocked since the check. */
  ghost function SuspendLate(k: Kernel, t: Tid): Kernel
    requires KInv(k) && t in k.s.thr
  {
    k.(s := SuspendNow(k.s, t))
  }

  /** Nothing shows: the kernel invariant holds, and the waiter is nowhere. */
  lemma SuspendLateStrands(k: Kernel, t: Tid)
    requires KInv(k) && t in k.s.thr && k.s.thr[t].stat == SUSPEND && t !in k.s.busy
    ensures KInv(SuspendLate(k, t)) && Stranded(SuspendLate(k, t).s, t)
  {
    StaleSuspend(k.s, t);
    HarmlessIntro(k, SuspendNow(k.s, t));
    HarmlessKept(k, SuspendNow(k.s, t));
  }

  lemma UnlinkAside(s: Sched, x: Tid, t: Tid)
    requires OnNone(s.lists, t)
    ensures OnNone(Unlink(s.lists, x), t)
  {
    UnlinkOn(s.lists, x);
  }

  lemma LinkAside(ls: Lists, l: ListId, i: nat, x: Tid, t: Tid)
    requires l in ls && i <= |ls[l]| && x != t && OnNone(ls, t)
    ensures OnNone(Link(ls, l, i, x), t)
  {
    LinkOn(ls, l, i, x);
  }

  lemma InsertAside(s: Sched, x: Tid, t: Tid)
    requires HasReadyLists(s) && x in s.thr && x != t && Stranded(s, t)
    ensures Stranded(Insert(s, x), t)
  {
    var l := Ready(s.thr[x].cur);
    LinkAside(s.lists, l, |s.lists[l]|, x, t);
  }

  lemma ChangePriorityAside(s: Sched, x: Tid, p: Prio, t: Tid)
    requires HasReadyLists(s) && x in s.thr && Stranded(s, t)
    ensures Stranded(ChangePriority(s, x, p), t)
  {
    UnlinkAside(s, x, t);
    if s.thr[x].stat == READY {
      InsertAside(SetThread(Remove(s, x), x, WithPriority(s.thr[x], p)), x, t);
    }
  }

  lemma ResumeAside(s: Sched, x: Tid, t: Tid)
    requires HasReadyLists(s) && x in s.thr && x != t && Stranded(s, t)
    ensures Stranded(Resume(s, x), t)
  {
    UnlinkAside(s, x, t);
    if s.thr[x].stat == SUSPEND {
      InsertAside(s.(thr := s.thr[x := s.thr[x].(timer := false)], lists := Unlink(s.lists, x)), x, t);
    }
  }

  lemma BlockAside(s: Sched, x: Tid, obj: nat, flag: bool, timed: bool, t: Tid)
    requires Inv(s) && CanRun(s, x) && Wait(obj) in s.lists && Stranded(s, t)
    ensures Stranded(Block(s, x, obj, flag, timed), t)
  {
    UnlinkAside(s, x, t);
    SuspendInv(s, x);
    SuspendWaits(s, x);
    QueueKnown(Suspend(s, x), obj);
    var s1 := Suspend(s, x);
    LinkAside(s1.lists, Wait(obj), JoinAt(s1.thr, s1.lists[Wait(obj)], x, flag), x, t);
  }

  lemma WakeFirstAside(s: Sched, obj: nat, e: Err, t: Tid)
    requires Inv(s) && Wait(obj) in s.lists && s.lists[Wait(obj)] != [] && Stranded(s, t)
    ensures Stranded(WakeFirst(s, obj, e), t)
  {
    QueueKnown(s, obj);
    var x := s.lists[Wait(obj)][0];
    assert On(s.lists, Wait(obj), x);
    ResumeAside(SetThread(s, x, s.thr[x].(error := e)), x, t);
  }

  lemma WakeHeadAside(s: Sched, obj: nat, t: Tid)
    requires Inv(s) && Wait(obj) in s.lists && s.lists[Wait(obj)] != [] && Stranded(s, t)
    ensures Stranded(WakeHead(s, obj), t)
  {
    QueueKnown(s, obj);
    assert On(s.lists, Wait(obj), s.lists[Wait(obj)][0]);
    ResumeAside(s, s.lists[Wait(obj)][0], t);
  }

  lemma {:induction false} WakeAllAside(s: Sched, obj: nat, t: Tid)
    requires Inv(s) && Wait(obj) in s.lists && Stranded(s, t)
    ensures Stranded(WakeAll(s, obj), t)
    decreases |s.lists[Wait(obj)]|
  {
    if s.lists[Wait(obj)] != [] {
      WakeFirstInv(s, obj, ERROR);
      WakeFirstAside(s, obj, ERROR, t);
      WakeAllAside(WakeFirst(s, obj, ERROR), obj, t);
    }
  }

  /** The steps that help a stranded thread: a resume or a delete of it by name. */
  predicate Rescues(st: Step, t: Tid) {
    st == ReadyBegin(t) || st == DeleteBegin(t)
  }

  lemma TakeAside(k: Kernel, x: Tid, m: nat, time: int, t: Tid)
    requires KInv(k) && Acts(k, x) && m in k.mtx && Stranded(k.s, t)
    ensures Stranded(MutexTake(k, x, m, time).0.s, t)
  {
    assert MutexOk(k, m);
    WithErrorInv(k.s, x, EOK);
    var s0 := WithError(k.s, x, EOK);
    assert Stranded(s0, t);
    if k.mtx[m].owner.Some? && k.mtx[m].owner != Some(x) && time != 0 {
      var o := k.mtx[m].owner.value;
      BoostInv(s0, x, o);
      ChangePriorityAside(s0, o, s0.thr[x].cur, t);
      BlockAside(Boost(s0, x, o), x, m, k.mtx[m].prioFlag, time > 0, t);
    }
  }

  lemma ReleaseAside(k: Kernel, x: Tid, m: nat, t: Tid)
    requires KInv(k) && Acts(k, x) && m in k.mtx && Stranded(k.s, t)
    ensures Stranded(MutexRelease(k, x, m).0.s, t)
  {
    assert MutexOk(k, m);
    if k.mtx[m].owner == Some(x) && k.mtx[m].hold == 1 {
      RestoreInv(k.s, x, k.mtx[m].orig);
      ChangePriorityAside(k.s, x, k.mtx[m].orig, t);
      var s1 := Restore(k.s, x, k.mtx[m].orig);
      if s1.lists[Wait(m)] != [] {
        WakeHeadAside(s1, m, t);
      }
    }
  }

  lemma ThreadStepAside(k: Kernel, st: Step, t: Tid)
    requires KInv(k) && Allowed(k, st) && ThreadStep(st) && !Rescues(st, t) && Stranded(k.s, t)
    ensures Stranded(DoThread(k.s, st), t)
  {
    var s := k.s;
    if st.SetPriority? {
      ChangePriorityAside(s, st.t, st.p, t);
    } else if st.IdleReap? {
      var x := s.lists[Defunct][0];
      assert On(s.lists, Defunct, x);
      UnlinkAside(s, x, t);
    } else if st.t != t {
      UnlinkAside(s, st.t, t);
      OtherStepAside(s, st, t);
    }
  }

  lemma OtherStepAside(s: Sched, st: Step, t: Tid)
    requires Inv(s) && ThreadStep(st) && !st.IdleReap? && !st.SetPriority? && st.t in s.thr && st.t != t
    requires Stranded(s, t) && OnNone(Unlink(s.lists, st.t), t)
    ensures Stranded(DoThread(s, st), t)
  {
    match st
    case ReadyEnd(x) => InsertAside(s.(busy := s.busy - {x}), x, t);
    case TimerFires(x) =>
      InsertAside(s.(thr := s.thr[x := s.thr[x].(error := ETIMEOUT, timer := false)], lists := Unlink(s.lists, x)), x, t);
    case ThreadYield(x) =>
      var ls, l := Unlink(s.lists, x), Ready(s.thr[x].cur);
      LinkAside(ls, l, |ls[l]|, x, t);
    case ThreadExit(x, dynamic) => LinkAside(Remove(s, x).lists, Defunct, 0, x, t);
    case DeleteEnd(x, dynamic) => LinkAside(s.lists, Defunct, 0, x, t);
    case _ =>
  }

  /** No step of anybody else brings a stranded thread back. */
  lemma StepStrands(k: Kernel, st: Step, t: Tid)
    requires KInv(k) && Allowed(k, st) && !Rescues(st, t) && Stranded(k.s, t)
    ensures Stranded(Do(k, st).s, t)
  {
    if ThreadStep(st) {
      ThreadStepAside(k, st, t);
    } else {
      match st
      case WaitOn(x, obj, flag, timed) => BlockAside(k.s, x, obj, flag, timed, t);
      case WakeOne(obj) => WakeHeadAside(k.s, obj, t);
      case WakeEvery(obj) => WakeAllAside(k.s, obj, t);
      case TakeMutex(x, m, time) => TakeAside(k, x, m, time, t);
      case ReleaseMutex(x, m) => ReleaseAside(k, x, m, t);
      case TakeSem(x, m, time) => SemTakeAside(k, x, m, time, t);
      case ReleaseSem(x) => SemReleaseAside(k, x, t);
      case ResetSem(x, v) => assert SemOk(k, x); WakeAllAside(k.s, x, t);
      case NewMutex(m, _) => AddQueueAside(k.s, m, t);
      case NewSem(x, _, _) => AddQueueAside(k.s, x, t);
      case NewQueue(obj) => AddQueueAside(k.s, obj, t);
      case NewThread(_, _) =>
    }
  }

  lemma AddQueueAside(s: Sched, obj: nat, t: Tid)
    requires Stranded(s, t)
    ensures Stranded(AddQueue(s, obj), t)
  {
    forall l ensures !On(AddQueue(s, obj).lists, l, t) {
      assert !On(s.lists, l, t);
    }
  }

  lemma SemTakeAside(k: Kernel, x: Tid, m: nat, time: int, t: Tid)
    requires KInv(k) && Acts(k, x) && m in k.sem && Stranded(k.s, t)
    ensures Stranded(SemTake(k, x, m, time).0.s, t)
  {
    assert SemOk(k, m);
    WithErrorInv(k.s, x, EOK);
    if k.sem[m].value == 0 && time != 0 {
      BlockAside(WithError(k.s, x, EOK), x, m, k.sem[m].prioFlag, time > 0, t);
    }
  }

  lemma SemReleaseAside(k: Kernel, x: nat, t: Tid)
    requires KInv(k) && x in k.sem && Stranded(k.s, t)
    ensures Stranded(SemRelease(k, x).0.s, t)
  {
    assert SemOk(k, x);
    if k.s.lists[Wait(x)] != [] {
      WakeHeadAside(k.s, x, t);
    }
  }

  /** The lost waiter: in every run that goes on from there it stays suspended until someone names it. */
  lemma {:induction false} StrandedForGood(k: Kernel, steps: seq<Step>, k': Kernel, t: Tid)
    requires KInv(k) && Reaches(k, steps, k') && Stranded(k.s, t)
    requires forall st :: st in steps ==> !Rescues(st, t)
    ensures Stranded(k'.s, t)
    decreases |steps|
  {
    if steps != [] {
      StepKept(k, steps[0]);
      StepStrands(k, steps[0], t);
      StrandedForGood(Do(k, steps[0]), steps[1..], k', t);
    }
  }
}
