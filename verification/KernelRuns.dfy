/** Every run of the kernel keeps the invariant of Ipc: the steps one by one, then all sequences. */
module KernelRuns {
  import opened Wrappers
  import opened Queues
  import opened Scheduler
  import opened Ipc

  lemma AddQueueInv(s: Sched, obj: nat)
    requires Inv(s) && Wait(obj) !in s.lists
    ensures Inv(AddQueue(s, obj)) && Steady(s, AddQueue(s, obj))
  {
    var r := AddQueue(s, obj);
    assert forall l, x :: On(r.lists, l, x) <==> On(s.lists, l, x);
    BitmapSame(s.lists, r.lists, s.group);
    forall x | x in r.thr ensures ThreadOk(r, x) {
      assert ThreadOk(s, x);
    }
  }

  lemma {:induction false} UnmentionedZero(log: Log, m: nat, t: Tid)
    requires forall e :: e in log ==> Elsewhere(e, m)
    ensures Unmatched(log, m, t) == 0
  {
    if log != [] {
      assert log[|log| - 1] in log;
      UnmentionedZero(log[..|log| - 1], m, t);
    }
  }

  lemma NewQueueKept(k: Kernel, obj: nat)
    requires KInv(k) && NeverUsed(k, obj)
    ensures KInv(Do(k, NewQueue(obj)))
  {
    AddQueueInv(k.s, obj);
    QuietKept(k, AddQueue(k.s, obj));
  }

  lemma NewMutexKept(k: Kernel, m: nat, flag: bool)
    requires KInv(k) && NeverUsed(k, m)
    ensures KInv(Do(k, NewMutex(m, flag)))
  {
    NewQueueKept(k, m);
    var k1, k' := k.(s := AddQueue(k.s, m)), Do(k, NewMutex(m, flag));
    forall n: nat | n in k'.mtx ensures MutexOk(k', n) {
      if n == m {
        forall t: Tid ensures Unmatched(k'.log, m, t) == 0 {
          UnmentionedZero(k.log, m, t);
        }
      } else {
        assert MutexOk(k1, n);
      }
    }
    forall x: nat | x in k'.sem ensures SemOk(k', x) {
      assert SemOk(k1, x);
    }
  }

  lemma NewSemKept(k: Kernel, x: nat, v: nat, flag: bool)
    requires KInv(k) && NeverUsed(k, x) && v < 0x10000
    ensures KInv(Do(k, NewSem(x, v, flag)))
  {
    NewQueueKept(k, x);
    var k1, k' := k.(s := AddQueue(k.s, x)), Do(k, NewSem(x, v, flag));
    LogAppend(k.log, SemSet(x, v));
    forall m: nat | m in k'.mtx ensures MutexOk(k', m) {
      MutexElsewhere(k1, k', m, None, SemSet(x, v));
    }
    forall y: nat | y in k'.sem ensures SemOk(k', y) {
      if y != x {
        SemElsewhere(k1, k', y, None, SemSet(x, v));
      }
    }
  }

  lemma NewThreadKept(k: Kernel, t: Tid, p: Prio)
    requires KInv(k) && Unborn(k.s, t)
    ensures KInv(Do(k, NewThread(t, p)))
  {
    var s' := SetThread(k.s, t, Thread(INIT, p, p, 0, EOK, false));
    assert OnNone(k.s.lists, t);
    forall x | x in s'.thr ensures ThreadOk(s', x) {
      if x != t {
        assert ThreadOk(k.s, x);
      }
    }
    forall m: nat | m in k.mtx && k.mtx[m].owner.Some? ensures Alive(s', k.mtx[m].owner.value) {
      OwnersRun(k, m);
    }
    HarmlessKept(k, s');
  }

  /** A step that leaves every owner running, proved thread by thread. */
  lemma HarmlessIntro(k: Kernel, s': Sched)
    requires KInv(k)
    requires forall t :: Alive(k.s, t) ==> Alive(s', t)
    requires s'.lists.Keys == k.s.lists.Keys
    requires forall o: nat :: Wait(o) in k.s.lists && k.s.lists[Wait(o)] == [] ==> s'.lists[Wait(o)] == []
    ensures Harmless(k, s')
  {
    forall m: nat | m in k.mtx && k.mtx[m].owner.Some?
      ensures Alive(s', k.mtx[m].owner.value)
    {
      OwnersRun(k, m);
    }
  }

  lemma StartKept(k: Kernel, t: Tid)
    requires KInv(k) && Allowed(k, StartBegin(t))
    ensures KInv(Do(k, StartBegin(t)))
  {
    StartupBeginInv(k.s, t);
    HarmlessIntro(k, StartupBegin(k.s, t));
    HarmlessKept(k, StartupBegin(k.s, t));
  }

  lemma SuspendKept(k: Kernel, t: Tid)
    requires KInv(k) && t in k.s.thr
    ensures KInv(Do(k, ThreadSuspend(t)))
  {
    SuspendInv(k.s, t);
    HarmlessIntro(k, Suspend(k.s, t));
    HarmlessKept(k, Suspend(k.s, t));
  }

  lemma ReadyBeginKept(k: Kernel, t: Tid)
    requires KInv(k) && Allowed(k, ReadyBegin(t))
    ensures KInv(Do(k, ReadyBegin(t)))
  {
    if k.s.thr[t].stat == SUSPEND {
      ResumeBeginInv(k.s, t);
      HarmlessIntro(k, ResumeBegin(k.s, t));
      HarmlessKept(k, ResumeBegin(k.s, t));
    }
  }

  lemma ReadyEndKept(k: Kernel, t: Tid)
    requires KInv(k) && Allowed(k, ReadyEnd(t))
    ensures KInv(Do(k, ReadyEnd(t)))
  {
    ResumeEndInv(k.s, t);
    HarmlessIntro(k, ResumeEnd(k.s, t));
    HarmlessKept(k, ResumeEnd(k.s, t));
  }

  lemma SleepKept(k: Kernel, t: Tid)
    requires KInv(k) && Acts(k, t)
    ensures KInv(Do(k, ThreadSleep(t)))
  {
    SuspendInv(k.s, t);
    var s1 := Suspend(k.s, t);
    assert ThreadOk(s1, t);
    SetQuietInv(s1, t, s1.thr[t].(timer := true));
    HarmlessIntro(k, Sleep(k.s, t));
    HarmlessKept(k, Sleep(k.s, t));
  }

  lemma TimeoutKept(k: Kernel, t: Tid)
    requires KInv(k) && Allowed(k, TimerFires(t))
    ensures KInv(Do(k, TimerFires(t)))
  {
    TimeoutInv(k.s, t);
    HarmlessIntro(k, Timeout(k.s, t));
    HarmlessKept(k, Timeout(k.s, t));
  }

  lemma SetPriorityKept(k: Kernel, t: Tid, p: Prio)
    requires KInv(k) && Allowed(k, SetPriority(t, p))
    ensures KInv(Do(k, SetPriority(t, p)))
  {
    ChangePriorityInv(k.s, t, p);
    ChangePrioritySteady(k.s, t, p);
    QuietKept(k, ChangePriority(k.s, t, p));
  }

  lemma YieldKept(k: Kernel, t: Tid)
    requires KInv(k) && Acts(k, t)
    ensures KInv(Do(k, ThreadYield(t)))
  {
    YieldInv(k.s, t);
    HarmlessIntro(k, Yield(k.s, t));
    HarmlessKept(k, Yield(k.s, t));
  }

  /** Nobody who owns a mutex is hurt by the closing of a thread that owns none. */
  lemma OwnersStay(k: Kernel, s': Sched, t: Tid)
    requires KInv(k) && (forall m: nat :: !Owns(k, t, m)) && s'.lists.Keys == k.s.lists.Keys
    requires forall x :: x != t && Alive(k.s, x) ==> Alive(s', x)
    requires forall o: nat :: Wait(o) in k.s.lists && k.s.lists[Wait(o)] == [] ==> s'.lists[Wait(o)] == []
    ensures Harmless(k, s')
  {
    forall m: nat | m in k.mtx && k.mtx[m].owner.Some? ensures Alive(s', k.mtx[m].owner.value) {
      OwnersRun(k, m);
      assert !Owns(k, t, m);
    }
  }

  lemma ExitKept(k: Kernel, t: Tid, dynamic: bool)
    requires KInv(k) && Allowed(k, ThreadExit(t, dynamic))
    ensures KInv(Do(k, ThreadExit(t, dynamic)))
  {
    ExitInv(k.s, t, dynamic);
    OwnersStay(k, Exit(k.s, t, dynamic), t);
    HarmlessKept(k, Exit(k.s, t, dynamic));
  }

  lemma DeleteBeginKept(k: Kernel, t: Tid)
    requires KInv(k) && Allowed(k, DeleteBegin(t))
    ensures KInv(Do(k, DeleteBegin(t)))
  {
    if k.s.thr[t].stat != CLOSE {
      CloseBeginInv(k.s, t);
      OwnersStay(k, CloseBegin(k.s, t), t);
      HarmlessKept(k, CloseBegin(k.s, t));
    }
  }

  lemma DeleteEndKept(k: Kernel, t: Tid, dynamic: bool)
    requires KInv(k) && Allowed(k, DeleteEnd(t, dynamic))
    ensures KInv(Do(k, DeleteEnd(t, dynamic)))
  {
    CloseEndInv(k.s, t, dynamic);
    HarmlessIntro(k, CloseEnd(k.s, t, dynamic));
    HarmlessKept(k, CloseEnd(k.s, t, dynamic));
  }

  lemma ReapInv(s: Sched)
    requires Inv(s) && s.lists[Defunct] != []
    ensures Inv(Reap(s))
    ensures s.lists[Defunct][0] in s.thr && s.thr[s.lists[Defunct][0]].stat == CLOSE
  {
    var t, r := s.lists[Defunct][0], Reap(s);
    assert On(s.lists, Defunct, t);
    assert ThreadOk(s, t);
    UnlinkOn(s.lists, t);
    UnlinkOk(s.lists, t);
    forall p: Prio ensures Ready(p) in r.lists && r.lists[Ready(p)] == s.lists[Ready(p)] {
      assert Ready(p) in s.lists && !On(s.lists, Ready(p), t);
      WithoutAbsent(s.lists[Ready(p)], t);
    }
    BitmapSame(s.lists, r.lists, s.group);
    forall x | x in r.thr ensures ThreadOk(r, x) {
      assert ThreadOk(s, x);
    }
  }

  lemma ReapKept(k: Kernel)
    requires KInv(k) && Allowed(k, IdleReap)
    ensures KInv(Do(k, IdleReap))
  {
    ReapInv(k.s);
    HarmlessIntro(k, Reap(k.s));
    HarmlessKept(k, Reap(k.s));
  }

  lemma WaitKept(k: Kernel, t: Tid, obj: nat, flag: bool, timed: bool)
    requires KInv(k) && Acts(k, t) && PlainQueue(k, obj)
    ensures KInv(Do(k, WaitOn(t, obj, flag, timed)))
  {
    BlockInv(k.s, t, obj, flag, timed);
    BlockSteady(k.s, t, obj, flag, timed);
    OthersKept(k, Do(k, WaitOn(t, obj, flag, timed)), obj, Blocked(t));
  }

  lemma WakeOneKept(k: Kernel, obj: nat)
    requires KInv(k) && Allowed(k, WakeOne(obj))
    ensures KInv(Do(k, WakeOne(obj)))
  {
    WakeHeadInv(k.s, obj);
    QuietKept(k, WakeHead(k.s, obj));
  }

  lemma WakeEveryKept(k: Kernel, obj: nat)
    requires KInv(k) && Allowed(k, WakeEvery(obj))
    ensures KInv(Do(k, WakeEvery(obj)))
  {
    WakeAllInv(k.s, obj);
    QuietKept(k, WakeAll(k.s, obj));
  }

  /** Every step a caller may take keeps the whole invariant. */
  lemma StepKept(k: Kernel, st: Step)
    requires KInv(k) && Allowed(k, st)
    ensures KInv(Do(k, st))
  {
    match st
    case NewMutex(m, flag) => NewMutexKept(k, m, flag);
    case NewSem(x, v, flag) => NewSemKept(k, x, v, flag);
    case NewQueue(obj) => NewQueueKept(k, obj);
    case NewThread(t, p) => NewThreadKept(k, t, p);
    case StartBegin(t) => StartKept(k, t);
    case ThreadSuspend(t) => SuspendKept(k, t);
    case ReadyBegin(t) => ReadyBeginKept(k, t);
    case ReadyEnd(t) => ReadyEndKept(k, t);
    case ThreadSleep(t) => SleepKept(k, t);
    case TimerFires(t) => TimeoutKept(k, t);
    case SetPriority(t, p) => SetPriorityKept(k, t, p);
    case ThreadYield(t) => YieldKept(k, t);
    case ThreadExit(t, dynamic) => ExitKept(k, t, dynamic);
    case DeleteBegin(t) => DeleteBeginKept(k, t);
    case DeleteEnd(t, dynamic) => DeleteEndKept(k, t, dynamic);
    case IdleReap => ReapKept(k);
    case WaitOn(t, obj, flag, timed) => WaitKept(k, t, obj, flag, timed);
    case WakeOne(obj) => WakeOneKept(k, obj);
    case WakeEvery(obj) => WakeEveryKept(k, obj);
    case TakeMutex(t, m, time) => TakeInv(k, t, m, time);
    case ReleaseMutex(t, m) => ReleaseInv(k, t, m);
    case TakeSem(t, x, time) => SemTakeInv(k, t, x, time);
    case ReleaseSem(x) => SemReleaseInv(k, x);
    case ResetSem(x, v) => SemResetInv(k, x, v);
  }

  // ----- Runs -----

  /** Kernel k' is reached from k by the given steps, each of them allowed where it is taken. */
  ghost predicate Reaches(k: Kernel, steps: seq<Step>, k': Kernel)
    decreases |steps|
  {
    if steps == [] then k' == k
    else KInv(k) && Allowed(k, steps[0]) && Reaches(Do(k, steps[0]), steps[1..], k')
  }

  lemma {:induction false} RunKept(k: Kernel, steps: seq<Step>, k': Kernel)
    requires KInv(k) && Reaches(k, steps, k')
    ensures KInv(k')
    decreases |steps|
  {
    if steps != [] {
      StepKept(k, steps[0]);
      RunKept(Do(k, steps[0]), steps[1..], k');
    }
  }

  /** rt_system_scheduler_init: 32 empty ready lists, no threads, no objects. */
  ghost function Boot(): Kernel {
    Kernel(Sched(map[], EmptyLists(), 0, map[]), map[], map[], [])
  }

  function ReadyList(i: nat): ListId
    requires i < 32
  {
    Ready(i as Prio)
  }

  /** The lists that exist from the start. */
  function SystemLists(): set<ListId> {
    (set i: nat | i < 32 :: ReadyList(i)) + {Defunct}
  }

  function EmptyLists(): Lists {
    map l | l in SystemLists() :: []
  }

  lemma SystemListsComplete(p: Prio)
    ensures Ready(p) in SystemLists()
  {
    var i := p as nat;
    assert i < 32 && i as Prio == p;
    assert ReadyList(i) in SystemLists();
  }

  lemma ZeroHasNoBits(p: Prio)
    ensures !Bit(0, p)
  {
  }

  lemma EmptyInv(ls: Lists)
    requires Defunct in ls && (forall p: Prio :: Ready(p) in ls) && (forall l :: l in ls ==> ls[l] == [])
    ensures KInv(Kernel(Sched(map[], ls, 0, map[]), map[], map[], []))
  {
    assert forall l, t :: !On(ls, l, t);
    assert BitmapOk(ls, 0) by {
      forall p: Prio ensures Ready(p) in ls && (Bit(0, p) <==> ls[Ready(p)] != []) {
        ZeroHasNoBits(p);
      }
    }
  }

  lemma BootInv()
    ensures KInv(Boot())
    ensures Boot().s.thr == map[] && Boot().mtx == map[] && Boot().sem == map[] && Boot().log == []
    ensures forall l :: l in Boot().s.lists <==> l.Ready? || l.Defunct?
    ensures forall l :: l in Boot().s.lists ==> Boot().s.lists[l] == []
  {
    forall p: Prio ensures Ready(p) in EmptyLists() {
      SystemListsComplete(p);
    }
    EmptyInv(EmptyLists());
    forall l ensures l in SystemLists() <==> l.Ready? || l.Defunct? {
      if l.Ready? {
        SystemListsComplete(l.p);
      }
    }
  }

  /** Safety of every run: from boot, through any allowed steps, the invariant holds. */
  lemma EveryRunSafe(steps: seq<Step>, k: Kernel)
    requires Reaches(Boot(), steps, k)
    ensures KInv(k)
  {
    BootInv();
    RunKept(Boot(), steps, k);
  }

  lemma TakeKeepsOwner(k: Kernel, t: Tid, n: nat, time: int, m: nat)
    requires KInv(k) && Acts(k, t) && n in k.mtx && m in k.mtx && k.mtx[m].owner.Some?
    ensures m in MutexTake(k, t, n, time).0.mtx && MutexTake(k, t, n, time).0.mtx[m].owner == k.mtx[m].owner
  {
    assert MutexOk(k, m);
  }

  lemma ReleaseKeepsOwner(k: Kernel, t: Tid, n: nat, m: nat)
    requires KInv(k) && Acts(k, t) && n in k.mtx && m in k.mtx && k.mtx[m].owner.Some?
    ensures m in MutexRelease(k, t, n).0.mtx
    ensures MutexRelease(k, t, n).0.mtx[m].owner == k.mtx[m].owner ||
      (n == m && k.mtx[m].owner == Some(t) && k.mtx[m].hold == 1)
  {
    assert MutexOk(k, m);
  }

  lemma OtherStepsKeepMutexes(k: Kernel, st: Step, m: nat)
    requires KInv(k) && Allowed(k, st) && m in k.mtx && !st.TakeMutex? && !st.ReleaseMutex?
    ensures m in Do(k, st).mtx && Do(k, st).mtx[m] == k.mtx[m]
  {
  }

  /** Only the owner's own last release takes a mutex away from it. */
  lemma OnlyOwnerReleases(k: Kernel, st: Step, m: nat)
    requires KInv(k) && Allowed(k, st) && m in k.mtx && k.mtx[m].owner.Some?
    ensures m in Do(k, st).mtx
    ensures Do(k, st).mtx[m].owner == k.mtx[m].owner ||
      (st == ReleaseMutex(k.mtx[m].owner.value, m) && k.mtx[m].hold == 1)
  {
    if st.TakeMutex? {
      TakeKeepsOwner(k, st.t, st.m, st.time, m);
    } else if st.ReleaseMutex? {
      ReleaseKeepsOwner(k, st.t, st.m, m);
    } else {
      OtherStepsKeepMutexes(k, st, m);
    }
  }
}
