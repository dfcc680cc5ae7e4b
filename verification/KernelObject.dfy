/**
  The kernel as the source has it: one object whose records are updated and whose lists are rings of
  pointers, each locked section a method.  S() and K() read the rings as sequences; every method is
  proved to do to them what the step functions of Scheduler and Ipc do.
 */
module KernelObject {
  import opened Wrappers
  import opened Queues
  import opened Scheduler
  import opened Ipc
  import opened KernelRuns
  import opened ThreadLists

  class RtKernel {
    var threads: map<Tid, Thread>
    var readyGroup: bv32
    var mutexes: map<nat, Mutex>
    var semaphores: map<nat, Sem>
    const table: ListTable
    ghost var busy: map<Tid, Phase>
    ghost var log: Log

    /** The rings are sound, and every thread has a node. */
    ghost predicate Linked()
      reads this, table, table.mem
    {
      table.Valid() && threads.Keys <= table.Nodes()
    }

    ghost function S(): Sched
      requires Linked()
      reads this, table, table.mem
    {
      Sched(threads, table.Lists(), readyGroup, busy)
    }

    ghost function K(): Kernel
      requires Linked()
      reads this, table, table.mem
    {
      Kernel(S(), mutexes, semaphores, log)
    }

    ghost predicate Valid()
      reads this, table, table.mem
    {
      Linked() && KInv(K())
    }

    /** rt_system_scheduler_init: every ready list, and the defunct list, links to itself. */
    constructor (heads: Heads)
      requires heads.Keys == SystemLists() && Injective(heads)
      ensures Valid() && K() == Boot() && fresh(table) && fresh(table.mem)
    {
      var lists := new ListTable();
      InitLists(lists, heads);
      threads, readyGroup, mutexes, semaphores := map[], 0, map[], map[];
      table, busy, log := lists, map[], [];
      new;
      BootInv();
      assert K() == Boot();
    }

    // ----- New objects -----

    /** rt_thread_init: a thread record whose tlist, on no list, links to itself. */
    method InitThread(t: Tid, p: Prio)
      requires Linked() && t !in table.mem.lists && OnNone(S().lists, t)
      modifies this`threads, table.mem
      ensures Linked() && S() == SetThread(old(S()), t, Thread(INIT, p, p, 0, EOK, false))
    {
      table.NewThread(t);
      threads := threads[t := Thread(INIT, p, p, 0, EOK, false)];
    }

    /** rt_ipc_object_init: an empty wait queue, with the list head at a fresh address. */
    method InitQueue(obj: nat, head: nat)
      requires Linked() && Wait(obj) !in S().lists && head !in table.mem.next
      modifies table, table.mem
      ensures Linked() && S() == AddQueue(old(S()), obj)
    {
      table.NewList(Wait(obj), head);
    }

    /** rt_mutex_init */
    method InitMutex(m: nat, head: nat, flag: bool)
      requires Linked() && Wait(m) !in S().lists && head !in table.mem.next
      modifies this`mutexes, table, table.mem
      ensures Linked() && S() == AddQueue(old(S()), m) && mutexes == old(mutexes)[m := Mutex(1, 0, None, 31, flag)]
    {
      InitQueue(m, head);
      mutexes := mutexes[m := Mutex(1, 0, None, 31, flag)];
    }

    /** rt_sem_init */
    method InitSem(x: nat, head: nat, value: nat, flag: bool)
      requires Linked() && Wait(x) !in S().lists && head !in table.mem.next
      modifies this`semaphores, this`log, table, table.mem
      ensures Linked() && S() == AddQueue(old(S()), x) && semaphores == old(semaphores)[x := Sem(value, flag)]
      ensures log == old(log) + [SemSet(x, value)]
    {
      InitQueue(x, head);
      semaphores := semaphores[x := Sem(value, flag)];
      log := log + [SemSet(x, value)];
    }

    // ----- scheduler.c -----

    /** rt_schedule_insert_thread, of a thread that is on no list. */
    method InsertThread(t: Tid)
      requires Linked() && HasReadyLists(S()) && t in threads && OnNone(S().lists, t)
      modifies this`threads, this`readyGroup, table.mem
      ensures Linked() && S() == Insert(old(S()), t)
    {
      var l := Ready(threads[t].cur);
      assert l in table.Lists();
      readyGroup := readyGroup | threads[t].mask;
      threads := threads[t := threads[t].(stat := READY)];
      table.Append(l, t);
    }

    /** rt_schedule_remove_thread: off whatever list the thread is on. */
    method RemoveThread(t: Tid)
      requires Linked() && HasReadyLists(S()) && t in threads
      modifies this`readyGroup, table.mem
      ensures Linked() && S() == Remove(old(S()), t) && OnNone(S().lists, t)
    {
      assert Ready(threads[t].cur) in table.Lists();
      UnlinkOn(table.Lists(), t);
      table.Unlink(t);
      var empty := table.IsEmpty(Ready(threads[t].cur));
      if empty {
        readyGroup := readyGroup & !threads[t].mask;
      }
    }

    /** Off the list the thread is on, and into the ready list of its priority. */
    method MakeReady(t: Tid)
      requires Linked() && HasReadyLists(S()) && t in threads
      modifies this`threads, this`readyGroup, table.mem
      ensures Linked() && S() == Insert(old(S()).(lists := Unlink(old(S()).lists, t)), t)
    {
      UnlinkOn(table.Lists(), t);
      table.Unlink(t);
      InsertThread(t);
    }

    /** rt_schedule: the thread to run next, at the head of the most urgent non-empty ready list. */
    method Schedule() returns (to: Tid)
      requires Valid() && exists t :: CanRun(S(), t)
      ensures CanRun(S(), to) && Ready(threads[to].cur) in S().lists
      ensures S().lists[Ready(threads[to].cur)] != [] && S().lists[Ready(threads[to].cur)][0] == to
      ensures forall t :: CanRun(S(), t) ==> threads[to].cur <= threads[t].cur
    {
      ghost var r :| CanRun(S(), r);
      assert ThreadOk(S(), r);
      assert Ready(threads[r].cur) in S().lists && Bit(readyGroup, threads[r].cur);
      var p := LowestBit(readyGroup, threads[r].cur);
      ScheduleMostUrgent(S(), p);
      to := table.First(Ready(p));
      assert On(S().lists, Ready(p), to);
      assert ThreadOk(S(), to);
    }

    // ----- thread.c -----

    /** rt_thread_suspend */
    method ThreadSuspend(t: Tid) returns (ok: bool)
      requires Linked() && HasReadyLists(S()) && t in threads
      modifies this`threads, this`readyGroup, table.mem
      ensures Linked() && S() == Suspend(old(S()), t)
      ensures ok <==> old(threads)[t].stat == READY
      ensures ok ==> OnNone(S().lists, t)
    {
      if threads[t].stat != READY {
        return false;
      }
      RemoveThread(t);
      threads := threads[t := threads[t].(stat := SUSPEND, timer := false)];
      ok := true;
    }

    /** rt_thread_resume inside a locked section: off the queue, and ready. */
    method ThreadResume(t: Tid) returns (ok: bool)
      requires Linked() && HasReadyLists(S()) && t in threads
      modifies this`threads, this`readyGroup, table.mem
      ensures Linked() && S() == Resume(old(S()), t)
      ensures ok <==> old(threads)[t].stat == SUSPEND
    {
      if threads[t].stat != SUSPEND {
        return false;
      }
      threads := threads[t := threads[t].(timer := false)];
      MakeReady(t);
      ok := true;
    }

    /** rt_thread_resume from outside, first section. */
    method ResumeBegin(t: Tid)
      requires Linked() && t in threads
      modifies this`threads, this`busy, table.mem
      ensures Linked() && S() == Scheduler.ResumeBegin(old(S()), t)
    {
      table.Unlink(t);
      threads := threads[t := threads[t].(timer := false)];
      busy := busy[t := Resuming];
    }

    /** rt_thread_resume from outside, second section. */
    method ResumeEnd(t: Tid)
      requires Linked() && HasReadyLists(S()) && t in threads && OnNone(S().lists, t)
      modifies this`threads, this`readyGroup, this`busy, table.mem
      ensures Linked() && S() == Scheduler.ResumeEnd(old(S()), t)
    {
      busy := busy - {t};
      InsertThread(t);
    }

    /** rt_thread_timeout, the callback of the thread timer. */
    method ThreadTimeout(t: Tid)
      requires Linked() && HasReadyLists(S()) && t in threads
      modifies this`threads, this`readyGroup, table.mem
      ensures Linked() && S() == Timeout(old(S()), t)
      ensures t in threads && threads[t].stat == READY && threads[t].error == ETIMEOUT && !threads[t].timer
    {
      threads := threads[t := threads[t].(error := ETIMEOUT, timer := false)];
      MakeReady(t);
    }

    /** rt_thread_sleep */
    method ThreadSleep(t: Tid)
      requires Linked() && HasReadyLists(S()) && t in threads
      modifies this`threads, this`readyGroup, table.mem
      ensures Linked() && S() == Sleep(old(S()), t)
    {
      var _ := ThreadSuspend(t);
      StartTimer(t);
    }

    /** rt_thread_control(t, RT_THREAD_CTRL_CHANGE_PRIORITY, &p) */
    method ThreadSetPriority(t: Tid, p: Prio)
      requires Linked() && HasReadyLists(S()) && t in threads
      modifies this`threads, this`readyGroup, table.mem
      ensures Linked() && S() == ChangePriority(old(S()), t, p)
    {
      if threads[t].stat == READY {
        RemoveThread(t);
        threads := threads[t := threads[t].(cur := p, mask := Mask(p))];
        InsertThread(t);
      } else {
        threads := threads[t := threads[t].(cur := p, mask := Mask(p))];
      }
    }

    /** rt_thread_startup, up to the point where its resume unlocks. */
    method StartupBegin(t: Tid)
      requires Linked() && t in threads
      modifies this`threads, this`busy, table.mem
      ensures Linked() && S() == Scheduler.StartupBegin(old(S()), t)
    {
      var p := threads[t].init;
      threads := threads[t := threads[t].(cur := p, mask := Mask(p), stat := SUSPEND)];
      ResumeBegin(t);
    }

    /** The end of rt_thread_exit and of rt_thread_delete: closed, and on the defunct list if dynamic. */
    method LinkDefunct(t: Tid, dynamic: bool)
      requires Linked() && t in threads && Defunct in S().lists && OnNone(S().lists, t)
      modifies this`threads, table.mem
      ensures Linked() && S() == CloseLinked(old(S()), t, dynamic)
    {
      threads := threads[t := threads[t].(stat := CLOSE, timer := false)];
      if dynamic {
        table.Prepend(Defunct, t);
      }
    }

    /** rt_thread_exit */
    method ThreadExit(t: Tid, dynamic: bool)
      requires Linked() && HasReadyLists(S()) && t in threads
      modifies this`threads, this`readyGroup, table.mem
      ensures Linked() && S() == Exit(old(S()), t, dynamic)
    {
      RemoveThread(t);
      LinkDefunct(t, dynamic);
    }

    /** rt_thread_delete and rt_thread_detach, first section. */
    method CloseBegin(t: Tid)
      requires Linked() && HasReadyLists(S()) && t in threads
      modifies this`readyGroup, this`busy, table.mem
      ensures Linked() && S() == Scheduler.CloseBegin(old(S()), t)
    {
      if threads[t].stat != INIT {
        RemoveThread(t);
      }
      busy := busy[t := Closing];
    }

    /** rt_thread_delete and rt_thread_detach, last section. */
    method CloseEnd(t: Tid, dynamic: bool)
      requires Linked() && Defunct in S().lists && t in threads && OnNone(S().lists, t)
      modifies this`threads, this`busy, table.mem
      ensures Linked() && S() == Scheduler.CloseEnd(old(S()), t, dynamic)
    {
      busy := busy - {t};
      LinkDefunct(t, dynamic);
    }

    /** rt_thread_idle_excute: the first defunct thread goes. */
    method IdleReap()
      requires Linked() && Defunct in S().lists && S().lists[Defunct] != [] && S().lists[Defunct][0] in threads
      modifies this`threads, table.mem
      ensures Linked() && S() == Reap(old(S()))
    {
      var t := table.First(Defunct);
      table.Unlink(t);
      threads := threads - {t};
    }

    method MoveToBack(l: ListId, t: Tid)
      requires Linked() && t in threads && l in S().lists
      modifies table.mem
      ensures Linked() && l in Unlink(old(S()).lists, t)
      ensures var ls := Unlink(old(S()).lists, t); S() == old(S()).(lists := Link(ls, l, |ls[l]|, t))
    {
      UnlinkOn(table.Lists(), t);
      table.Unlink(t);
      table.Append(l, t);
    }

    /** rt_thread_yield */
    method ThreadYield(t: Tid)
      requires Linked() && HasReadyLists(S()) && t in threads
      requires threads[t].stat == READY ==> On(S().lists, Ready(threads[t].cur), t)
      modifies table.mem
      ensures Linked() && S() == Yield(old(S()), t)
    {
      var l := Ready(threads[t].cur);
      if threads[t].stat == READY {
        var shares := table.Shares(t, l);
        if shares {
          MoveToBack(l, t);
        }
      }
    }

    // ----- ipc.c: wait queues -----

    /** The two ways of joining a wait queue. */
    method JoinQueue(l: ListId, t: Tid, prioFlag: bool)
      requires Linked() && l in S().lists && t in threads && OnNone(S().lists, t)
      requires forall x :: x in S().lists[l] ==> x in threads
      modifies table.mem
      ensures Linked()
      ensures S() == old(S()).(lists := Link(old(S()).lists, l, JoinAt(threads, old(S()).lists[l], t, prioFlag), t))
    {
      if prioFlag {
        table.JoinByPriority(l, t, threads);
      } else {
        table.Append(l, t);
      }
    }

    /** rt_ipc_list_suspend, and the thread timer of a timed wait. */
    method ListSuspend(obj: nat, t: Tid, prioFlag: bool, timed: bool)
      requires Linked() && CanBlock(S(), t, obj)
      modifies this`threads, this`readyGroup, table.mem
      ensures Linked() && S() == Blocking(old(S()), t, obj, prioFlag, timed)
    {
      SuspendedQueue(S(), t, obj);
      var _ := ThreadSuspend(t);
      JoinQueue(Wait(obj), t, prioFlag);
      if timed {
        StartTimer(t);
      }
    }

    /** rt_timer_start of the thread timer. */
    method StartTimer(t: Tid)
      requires Linked() && t in threads
      modifies this`threads
      ensures Linked() && S() == Arm(old(S()), t)
    {
      threads := threads[t := threads[t].(timer := true)];
    }

    /** rt_ipc_list_resume */
    method ListResume(obj: nat)
      requires Linked() && HasReadyLists(S()) && HasHead(S(), obj)
      modifies this`threads, this`readyGroup, table.mem
      ensures Linked() && S() == Resume(old(S()), old(S()).lists[Wait(obj)][0])
    {
      var t := table.First(Wait(obj));
      var _ := ThreadResume(t);
    }

    /** One round of rt_ipc_list_resume_all. */
    method ResumeFirst(obj: nat)
      requires Linked() && HasReadyLists(S()) && HasHead(S(), obj)
      modifies this`threads, this`readyGroup, table.mem
      ensures Linked()
      ensures var t := old(S()).lists[Wait(obj)][0];
        S() == Resume(SetThread(old(S()), t, old(S()).thr[t].(error := ERROR)), t)
    {
      var t := table.First(Wait(obj));
      threads := threads[t := threads[t].(error := ERROR)];
      var _ := ThreadResume(t);
    }

    /** rt_ipc_list_resume_all: every waiter leaves with an error. */
    method ListResumeAll(obj: nat)
      requires Linked() && Inv(S()) && Wait(obj) in S().lists
      modifies this`threads, this`readyGroup, table.mem
      ensures Linked() && S() == WakeAll(old(S()), obj)
    {
      ghost var goal := WakeAll(S(), obj);
      var empty := table.IsEmpty(Wait(obj));
      while !empty
        invariant Linked() && Inv(S()) && Wait(obj) in S().lists && busy == old(busy)
        invariant WakeAll(S(), obj) == goal && (empty <==> S().lists[Wait(obj)] == [])
        decreases |S().lists[Wait(obj)]|
      {
        QueueKnown(S(), obj);
        WakeFirstInv(S(), obj, ERROR);
        ResumeFirst(obj);
        empty := table.IsEmpty(Wait(obj));
      }
    }

    // ----- ipc.c: mutexes -----

    /** The waiting branch of rt_mutex_take: boost the owner, then join the queue. */
    method WaitForOwner(t: Tid, m: nat, o: Tid, prioFlag: bool, timed: bool)
      requires Linked() && HasReadyLists(S()) && t in threads && o in threads
      requires CanBlock(Boost(WithError(S(), t, EOK), t, o), t, m)
      modifies this`threads, this`readyGroup, this`log, table.mem
      ensures Linked() && S() == Blocking(Boost(WithError(old(S()), t, EOK), t, o), t, m, prioFlag, timed)
      ensures log == old(log) + [Blocked(t)]
    {
      log := log + [Blocked(t)];
      threads := threads[t := threads[t].(error := EOK)];
      if threads[t].cur < threads[o].cur {
        ThreadSetPriority(o, threads[t].cur);
      }
      ListSuspend(m, t, prioFlag, timed);
    }

    /** rt_mutex_take by the owner, or of a free mutex. */
    method TakeAtOnce(t: Tid, m: nat) returns (r: Outcome)
      requires Linked() && t in threads && m in mutexes && mutexes[m].owner in {None, Some(t)}
      requires mutexes[m].owner == None ==> mutexes[m].value > 0
      modifies this`threads, this`mutexes, this`log
      ensures Linked() && (K(), r) == Taking(old(K()), t, m)
    {
      var mu := mutexes[m];
      threads := threads[t := threads[t].(error := EOK)];
      if mu.owner == None {
        mutexes := mutexes[m := mu.(value := mu.value - 1, owner := Some(t), orig := threads[t].cur, hold := mu.hold + 1)];
        log := log + [Acquired(m, t, threads[t].cur)];
      } else if mu.hold < MUTEX_HOLD_MAX {
        mutexes := mutexes[m := mu.(hold := mu.hold + 1)];
        log := log + [Reacquired(m, t)];
      } else {
        return FULL;
      }
      r := OK;
    }

    /** The branches of rt_mutex_take. */
    method TakeOrWait(t: Tid, m: nat, time: int) returns (r: Outcome)
      requires Linked() && CanTake(K(), t, m)
      modifies this`threads, this`readyGroup, this`mutexes, this`log, table.mem
      ensures Linked() && (K(), r) == Taken(old(K()), t, m, time)
    {
      var mu := mutexes[m];
      if mu.owner == Some(t) || mu.owner == None {
        r := TakeAtOnce(t, m);
      } else if time == 0 {
        threads := threads[t := threads[t].(error := ETIMEOUT)];
        r := TIMEDOUT;
      } else {
        WaitForOwner(t, m, mu.owner.value, mu.prioFlag, time > 0);
        r := BLOCKED;
      }
    }

    /** rt_mutex_take, up to the point where the caller goes on or is suspended. */
    method TakeMutex(t: Tid, m: nat, time: int) returns (r: Outcome)
      requires Valid() && Acts(K(), t) && m in mutexes
      modifies this`threads, this`readyGroup, this`mutexes, this`log, table.mem
      ensures Linked() && (K(), r) == MutexTake(old(K()), t, m, time)
      ensures m in mutexes && TakenAs(old(mutexes)[m], mutexes[m], t, time, r)
    {
      TakeAnswers(K(), t, m, time);
      TakenIs(K(), t, m, time);
      r := TakeOrWait(t, m, time);
    }

    /** The owner's old priority comes back with its last release. */
    method RestorePriority(t: Tid, p: Prio)
      requires Linked() && HasReadyLists(S()) && t in threads
      modifies this`threads, this`readyGroup, table.mem
      ensures Linked() && S() == Restore(old(S()), t, p)
    {
      if p != threads[t].cur {
        ThreadSetPriority(t, p);
      }
    }

    /** The first waiter becomes the owner of mutex m, and ready. */
    method PassToFirst(m: nat, t: Tid)
      requires Linked() && HasReadyLists(S()) && m in mutexes && HasHead(S(), m)
      modifies this`threads, this`readyGroup, this`mutexes, this`log, table.mem
      ensures Linked() && K() == Passing(old(K()), t, m)
    {
      var w := table.First(Wait(m));
      log := log + [Released(m, t)] + [Acquired(m, w, threads[w].cur)];
      mutexes := mutexes[m := mutexes[m].(owner := Some(w), orig := threads[w].cur)];
      var _ := ThreadResume(w);
    }

    /** The last release of mutex m: to the first waiter, or free. */
    method PassMutex(m: nat, t: Tid)
      requires Linked() && Inv(S()) && m in mutexes && mutexes[m].hold == 1 && mutexes[m].value < MUTEX_VALUE_MAX
      requires Wait(m) in S().lists
      modifies this`threads, this`readyGroup, this`mutexes, this`log, table.mem
      ensures Linked() && (K(), OK) == PassOn(old(K()), old(S()), t, m, old(mutexes)[m].(hold := 0))
    {
      var empty := table.IsEmpty(Wait(m));
      if empty {
        PassOnFrees(K(), S(), t, m, mutexes[m].(hold := 0));
        mutexes := mutexes[m := mutexes[m].(hold := 0, value := mutexes[m].value + 1, owner := None)];
        log := log + [Released(m, t)];
      } else {
        PassesToFirst(K(), t, m);
        PassToFirst(m, t);
      }
    }

    /** The last release: restore the priority, then pass the mutex on. */
    method LetGoOf(m: nat, t: Tid)
      requires Valid() && Acts(K(), t) && Owns(K(), t, m) && mutexes[m].hold == 1
      modifies this`threads, this`readyGroup, this`mutexes, this`log, table.mem
      ensures Linked() && (K(), OK) == MutexRelease(old(K()), t, m)
    {
      var p := mutexes[m].orig;
      LastRelease(K(), t, m);
      RestorePriority(t, p);
      PassMutex(m, t);
    }

    /** rt_mutex_release */
    method ReleaseMutex(t: Tid, m: nat) returns (r: Outcome)
      requires Valid() && Acts(K(), t) && m in mutexes
      modifies this`threads, this`readyGroup, this`mutexes, this`log, table.mem
      ensures Linked() && (K(), r) == MutexRelease(old(K()), t, m)
    {
      var mu := mutexes[m];
      MutexFacts(K(), m, t);
      if mu.owner == Some(t) && mu.hold == 1 {
        LetGoOf(m, t);
        return OK;
      }
      if mu.owner != Some(t) {
        threads := threads[t := threads[t].(error := ERROR)];
        return REFUSED;
      }
      mutexes := mutexes[m := mu.(hold := mu.hold - 1)];
      log := log + [Released(m, t)];
      r := OK;
    }

    // ----- ipc.c: semaphores -----

    /** rt_sem_take, up to the point where the caller goes on or is suspended. */
    method TakeSem(t: Tid, x: nat, time: int) returns (r: Outcome)
      requires Valid() && Acts(K(), t) && x in semaphores
      modifies this`threads, this`readyGroup, this`semaphores, this`log, table.mem
      ensures Linked() && (K(), r) == SemTake(old(K()), t, x, time)
      ensures x in semaphores
      ensures old(semaphores)[x].value > 0 ==> r == OK && semaphores[x].value == old(semaphores)[x].value - 1
      ensures old(semaphores)[x].value == 0 ==>
        r == (if time == 0 then TIMEDOUT else BLOCKED) && semaphores == old(semaphores)
    {
      SemTakenIs(K(), t, x, time);
      r := UnitOrWait(t, x, time);
    }

    /** The branches of rt_sem_take. */
    method UnitOrWait(t: Tid, x: nat, time: int) returns (r: Outcome)
      requires Linked() && CanSemTake(K(), t, x, time)
      modifies this`threads, this`readyGroup, this`semaphores, this`log, table.mem
      ensures Linked() && (K(), r) == SemTaken(old(K()), t, x, time)
    {
      if semaphores[x].value > 0 {
        TakeUnit(x);
        r := OK;
      } else if time == 0 {
        r := TIMEDOUT;
      } else {
        WaitForUnit(t, x, time > 0);
        r := BLOCKED;
      }
    }

    /** The branch of rt_sem_take that finds a unit. */
    method TakeUnit(x: nat)
      requires Linked() && x in semaphores && semaphores[x].value > 0
      modifies this`semaphores, this`log
      ensures Linked() && K() == WithoutUnit(old(K()), x)
    {
      semaphores := semaphores[x := semaphores[x].(value := semaphores[x].value - 1)];
      log := log + [SemGranted(x)];
    }

    /** The waiting branch of rt_sem_take. */
    method WaitForUnit(t: Tid, x: nat, timed: bool)
      requires Linked() && t in threads && x in semaphores && CanBlock(WithError(S(), t, EOK), t, x)
      modifies this`threads, this`readyGroup, this`log, table.mem
      ensures Linked() && S() == Blocking(WithError(old(S()), t, EOK), t, x, semaphores[x].prioFlag, timed)
      ensures log == old(log) + [Blocked(t)]
    {
      Note(Blocked(t));
      StartWait(t, x, semaphores[x].prioFlag, timed);
    }

    /** One more entry of the history. */
    method Note(e: Event)
      requires Linked()
      modifies this`log
      ensures Linked() && S() == old(S()) && log == old(log) + [e]
    {
      log := log + [e];
    }

    /** Error EOK, and onto the queue. */
    method StartWait(t: Tid, x: nat, prioFlag: bool, timed: bool)
      requires Linked() && t in threads && CanBlock(WithError(S(), t, EOK), t, x)
      modifies this`threads, this`readyGroup, table.mem
      ensures Linked() && S() == Blocking(WithError(old(S()), t, EOK), t, x, prioFlag, timed)
    {
      threads := threads[t := threads[t].(error := EOK)];
      ListSuspend(x, t, prioFlag, timed);
    }

    /** rt_sem_release */
    method ReleaseSem(x: nat) returns (r: Outcome)
      requires Valid() && x in semaphores
      modifies this`threads, this`readyGroup, this`semaphores, this`log, table.mem
      ensures Linked() && (K(), r) == SemRelease(old(K()), x)
    {
      SemReleases(K(), x);
      var empty := table.IsEmpty(Wait(x));
      if !empty {
        log := log + [SemReleased(x)] + [SemGranted(x)];
        ListResume(x);
        r := OK;
      } else if semaphores[x].value < SEM_VALUE_MAX {
        semaphores := semaphores[x := semaphores[x].(value := semaphores[x].value + 1)];
        log := log + [SemReleased(x)];
        r := OK;
      } else {
        r := FULL;
      }
    }

    /** rt_sem_control(x, RT_IPC_CMD_RESET, v) */
    method ResetSem(x: nat, v: nat)
      requires Valid() && x in semaphores
      modifies this`threads, this`readyGroup, this`semaphores, this`log, table.mem
      ensures Linked() && K() == SemReset(old(K()), x, v)
    {
      assert SemOk(K(), x);
      semaphores := semaphores[x := semaphores[x].(value := v % 0x10000)];
      log := log + [SemSet(x, v % 0x10000)];
      ListResumeAll(x);
    }

    // ----- Every step -----

    /** The steps of the thread layer that move threads between running and resting. */
    method RunMoveStep(st: Step)
      requires Linked() && Prepared(S(), st)
      requires st.ThreadSuspend? || st.ThreadSleep? || st.TimerFires? || st.SetPriority? || st.ThreadYield?
      modifies this`threads, this`readyGroup, table.mem
      ensures Linked() && S() == DoThread(old(S()), st)
    {
      match st
      case ThreadSuspend(t) => var _ := ThreadSuspend(t);
      case ThreadSleep(t) => ThreadSleep(t);
      case TimerFires(t) => ThreadTimeout(t);
      case SetPriority(t, p) => ThreadSetPriority(t, p);
      case ThreadYield(t) => ThreadYield(t);
    }

    /** The steps of the thread layer that begin or end a resume, or the life of a thread. */
    method RunLifeStep(st: Step)
      requires Linked() && Prepared(S(), st)
      requires st.StartBegin? || st.ReadyBegin? || st.ReadyEnd? || st.ThreadExit? || st.DeleteBegin? || st.DeleteEnd? || st.IdleReap?
      modifies this`threads, this`readyGroup, this`busy, table.mem
      ensures Linked() && S() == DoThread(old(S()), st)
    {
      match st
      case StartBegin(t) => StartupBegin(t);
      case ReadyBegin(t) =>
        if threads[t].stat == SUSPEND {
          ResumeBegin(t);
        }
      case ReadyEnd(t) => ResumeEnd(t);
      case ThreadExit(t, dynamic) => ThreadExit(t, dynamic);
      case DeleteBegin(t) =>
        if threads[t].stat != CLOSE {
          CloseBegin(t);
        }
      case DeleteEnd(t, dynamic) => CloseEnd(t, dynamic);
      case IdleReap => IdleReap();
    }

    method RunThreadStep(st: Step)
      requires Linked() && Prepared(S(), st)
      modifies this`threads, this`readyGroup, this`busy, table.mem
      ensures Linked() && S() == DoThread(old(S()), st)
    {
      if st.ThreadSuspend? || st.ThreadSleep? || st.TimerFires? || st.SetPriority? || st.ThreadYield? {
        RunMoveStep(st);
      } else {
        RunLifeStep(st);
      }
    }

    /** Steps that make an object; list heads are at fresh addresses, threads at addresses that are not heads'. */
    method RunNewStep(st: Step, head: nat)
      requires Linked() && NewName(S(), st)
      requires if st.NewThread? then st.t !in table.mem.lists else head !in table.mem.next
      modifies this`threads, this`mutexes, this`semaphores, this`log, table, table.mem
      ensures Linked() && K() == MadeObject(old(K()), st)
    {
      match st
      case NewMutex(m, flag) => InitMutex(m, head, flag);
      case NewSem(x, v, flag) => InitSem(x, head, v, flag);
      case NewQueue(obj) => InitQueue(obj, head);
      case NewThread(t, p) => InitThread(t, p);
    }

    /** Waiting on, and being woken from, the queue of any other object. */
    method RunQueueStep(st: Step)
      requires Linked() && QueueReady(S(), st)
      modifies this`threads, this`readyGroup, this`log, table.mem
      ensures Linked() && K() == QueueDone(old(K()), st)
    {
      match st
      case WaitOn(t, obj, flag, timed) =>
        log := log + [Blocked(t)];
        ListSuspend(obj, t, flag, timed);
      case WakeOne(obj) => ListResume(obj);
      case WakeEvery(obj) => ListResumeAll(obj);
    }

    method RunIpc(st: Step)
      requires Valid() && Allowed(K(), st)
      requires st.TakeMutex? || st.ReleaseMutex? || st.TakeSem? || st.ReleaseSem? || st.ResetSem?
      modifies this`threads, this`readyGroup, this`mutexes, this`semaphores, this`log, table.mem
      ensures Linked() && K() == Do(old(K()), st)
    {
      match st
      case TakeMutex(t, m, time) => var _ := TakeMutex(t, m, time);
      case ReleaseMutex(t, m) => var _ := ReleaseMutex(t, m);
      case TakeSem(t, x, time) => var _ := TakeSem(t, x, time);
      case ReleaseSem(x) => var _ := ReleaseSem(x);
      case ResetSem(x, v) => ResetSem(x, v);
    }

    /** Any allowed step, carried out on records and rings, is the step on sequences, and keeps the invariant. */
    method Run(st: Step, head: nat)
      requires Valid() && Allowed(K(), st)
      requires st.NewThread? ==> st.t !in table.mem.lists
      requires st.NewMutex? || st.NewSem? || st.NewQueue? ==> head !in table.mem.next
      modifies this, table, table.mem
      ensures Valid() && K() == Do(old(K()), st)
    {
      ghost var k := K();
      if ThreadStep(st) {
        RunThread(st);
      } else if st.NewMutex? || st.NewSem? || st.NewQueue? || st.NewThread? {
        RunNew(st, head);
      } else if st.WaitOn? || st.WakeOne? || st.WakeEvery? {
        RunQueue(st);
      } else {
        RunIpc(st);
      }
      StepKept(k, st);
    }

    method RunThread(st: Step)
      requires Valid() && Allowed(K(), st) && ThreadStep(st)
      modifies this`threads, this`readyGroup, this`busy, table.mem
      ensures Linked() && K() == Do(old(K()), st)
    {
      AllowedPrepared(K(), st);
      RunThreadStep(st);
    }

    method RunNew(st: Step, head: nat)
      requires Valid() && Allowed(K(), st) && (st.NewMutex? || st.NewSem? || st.NewQueue? || st.NewThread?)
      requires if st.NewThread? then st.t !in table.mem.lists else head !in table.mem.next
      modifies this`threads, this`mutexes, this`semaphores, this`log, table, table.mem
      ensures Linked() && K() == Do(old(K()), st)
    {
      NewSteps(K(), st);
      RunNewStep(st, head);
    }

    method RunQueue(st: Step)
      requires Valid() && Allowed(K(), st) && (st.WaitOn? || st.WakeOne? || st.WakeEvery?)
      modifies this`threads, this`readyGroup, this`log, table.mem
      ensures Linked() && K() == Do(old(K()), st)
    {
      QueueSteps(K(), st);
      RunQueueStep(st);
    }
  }

  /** The branches of rt_mutex_take that do not wait, defined without the invariant. */
  ghost function Taking(k: Kernel, t: Tid, m: nat): (Kernel, Outcome)
    requires t in k.s.thr && m in k.mtx && (k.mtx[m].owner == None ==> k.mtx[m].value > 0)
  {
    var mu, s0 := k.mtx[m], WithError(k.s, t, EOK);
    if mu.owner == None then
      (Kernel(s0, k.mtx[m := mu.(value := mu.value - 1, owner := Some(t), orig := s0.thr[t].cur, hold := mu.hold + 1)],
              k.sem, k.log + [Acquired(m, t, s0.thr[t].cur)]), OK)
    else if mu.hold < MUTEX_HOLD_MAX then
      (Kernel(s0, k.mtx[m := mu.(hold := mu.hold + 1)], k.sem, k.log + [Reacquired(m, t)]), OK)
    else
      (k.(s := s0), FULL)
  }

  lemma TakesAtOnce(k: Kernel, t: Tid, m: nat, time: int)
    requires KInv(k) && Acts(k, t) && m in k.mtx && k.mtx[m].owner in {None, Some(t)}
    ensures (k.mtx[m].owner == None ==> k.mtx[m].value > 0) && MutexTake(k, t, m, time) == Taking(k, t, m)
  {
    MutexFacts(k, m, t);
  }

  /** What the branches of rt_mutex_take need to find. */
  ghost predicate CanTake(k: Kernel, t: Tid, m: nat) {
    && HasReadyLists(k.s) && t in k.s.thr && m in k.mtx && (k.mtx[m].owner == None ==> k.mtx[m].value > 0)
    && (k.mtx[m].owner.Some? && k.mtx[m].owner.value != t ==>
          k.mtx[m].owner.value in k.s.thr && CanBlock(Boost(WithError(k.s, t, EOK), t, k.mtx[m].owner.value), t, m))
  }

  /** rt_mutex_take, defined without the invariant. */
  ghost function Taken(k: Kernel, t: Tid, m: nat, time: int): (Kernel, Outcome)
    requires CanTake(k, t, m)
  {
    var mu := k.mtx[m];
    if mu.owner == Some(t) || mu.owner == None then Taking(k, t, m)
    else if time == 0 then (k.(s := WithError(k.s, t, ETIMEOUT)), TIMEDOUT)
    else
      var s1 := Boost(WithError(k.s, t, EOK), t, mu.owner.value);
      (Kernel(Blocking(s1, t, m, mu.prioFlag, time > 0), k.mtx, k.sem, k.log + [Blocked(t)]), BLOCKED)
  }

  lemma TakenIs(k: Kernel, t: Tid, m: nat, time: int)
    requires KInv(k) && Acts(k, t) && m in k.mtx
    ensures CanTake(k, t, m) && MutexTake(k, t, m, time) == Taken(k, t, m, time)
  {
    if k.mtx[m].owner == Some(t) || k.mtx[m].owner == None {
      TakesAtOnce(k, t, m, time);
    } else {
      TakeWaits(k, t, m, 1);
      if time == 0 {
        TakeGivesUp(k, t, m);
      } else {
        TakeWaits(k, t, m, time);
      }
    }
  }

  /** The object to be made has a new name. */
  ghost predicate NewName(s: Sched, st: Step) {
    match st
    case NewMutex(m, _) => Wait(m) !in s.lists
    case NewSem(x, _, _) => Wait(x) !in s.lists
    case NewQueue(obj) => Wait(obj) !in s.lists
    case NewThread(t, _) => OnNone(s.lists, t)
    case _ => false
  }

  ghost function MadeObject(k: Kernel, st: Step): Kernel
    requires NewName(k.s, st)
  {
    match st
    case NewMutex(m, flag) => k.(s := AddQueue(k.s, m), mtx := k.mtx[m := Mutex(1, 0, None, 31, flag)])
    case NewSem(x, v, flag) =>
      k.(s := AddQueue(k.s, x), sem := k.sem[x := Sem(v, flag)], log := k.log + [SemSet(x, v)])
    case NewQueue(obj) => k.(s := AddQueue(k.s, obj))
    case NewThread(t, p) => k.(s := SetThread(k.s, t, Thread(INIT, p, p, 0, EOK, false)))
  }

  lemma NewSteps(k: Kernel, st: Step)
    requires KInv(k) && Allowed(k, st) && (st.NewMutex? || st.NewSem? || st.NewQueue? || st.NewThread?)
    ensures NewName(k.s, st) && Do(k, st) == MadeObject(k, st)
  {
    if st.NewThread? {
      UnbornOnNone(k.s, st.t);
    }
  }

  lemma UnbornOnNone(s: Sched, t: Tid)
    requires Inv(s) && Unborn(s, t)
    ensures OnNone(s.lists, t)
  {
  }

  ghost predicate QueueReady(s: Sched, st: Step) {
    match st
    case WaitOn(t, obj, _, _) => CanBlock(s, t, obj)
    case WakeOne(obj) => HasReadyLists(s) && HasHead(s, obj)
    case WakeEvery(obj) => Inv(s) && Wait(obj) in s.lists
    case _ => false
  }

  ghost function QueueDone(k: Kernel, st: Step): Kernel
    requires QueueReady(k.s, st)
  {
    match st
    case WaitOn(t, obj, flag, timed) => k.(s := Blocking(k.s, t, obj, flag, timed), log := k.log + [Blocked(t)])
    case WakeOne(obj) => k.(s := Resume(k.s, k.s.lists[Wait(obj)][0]))
    case WakeEvery(obj) => k.(s := WakeAll(k.s, obj))
  }

  lemma QueueSteps(k: Kernel, st: Step)
    requires KInv(k) && Allowed(k, st) && (st.WaitOn? || st.WakeOne? || st.WakeEvery?)
    ensures QueueReady(k.s, st) && Do(k, st) == QueueDone(k, st)
  {
    QueueKnown(k.s, st.obj);
    if st.WaitOn? {
      BlockingIs(k.s, st.t, st.obj, st.prioFlag, st.timed);
    }
  }

  ghost function Passing(k: Kernel, t: Tid, m: nat): Kernel
    requires HasReadyLists(k.s) && HasHead(k.s, m) && m in k.mtx
  {
    var w := k.s.lists[Wait(m)][0];
    var p := k.s.thr[w].cur;
    Kernel(Resume(k.s, w), k.mtx[m := k.mtx[m].(owner := Some(w), orig := p)], k.sem,
           k.log + [Released(m, t)] + [Acquired(m, w, p)])
  }

  lemma PassesToFirst(k: Kernel, t: Tid, m: nat)
    requires Inv(k.s) && Wait(m) in k.s.lists && k.s.lists[Wait(m)] != [] && m in k.mtx && k.mtx[m].hold == 1
    ensures HasHead(k.s, m) && PassOn(k, k.s, t, m, k.mtx[m].(hold := 0)) == (Passing(k, t, m), OK)
  {
    QueueKnown(k.s, m);
  }

  /** rt_sem_release with the waking of the first waiter written out. */
  lemma SemReleases(k: Kernel, x: nat)
    requires KInv(k) && x in k.sem
    ensures HasReadyLists(k.s) && Wait(x) in k.s.lists
    ensures k.s.lists[Wait(x)] != [] ==> HasHead(k.s, x)
    ensures k.s.lists[Wait(x)] != [] ==>
      SemRelease(k, x) ==
         (k.(s := Resume(k.s, k.s.lists[Wait(x)][0]), log := k.log + [SemReleased(x)] + [SemGranted(x)]), OK)
  {
    assert SemOk(k, x);
    QueueKnown(k.s, x);
  }

  /** What the methods of the thread layer need to find. */
  ghost predicate Prepared(s: Sched, st: Step) {
    && HasReadyLists(s) && ThreadStep(st)
    && (!st.IdleReap? ==> st.t in s.thr)
    && (st.IdleReap? ==> s.lists[Defunct] != [] && s.lists[Defunct][0] in s.thr)
    && (st.ThreadYield? && s.thr[st.t].stat == READY ==> On(s.lists, Ready(s.thr[st.t].cur), st.t))
    && (st.ReadyEnd? || st.DeleteEnd? ==> OnNone(s.lists, st.t))
  }

  lemma AllowedPrepared(k: Kernel, st: Step)
    requires KInv(k) && Allowed(k, st) && ThreadStep(st)
    ensures Prepared(k.s, st)
  {
    if st.ReadyEnd? || st.DeleteEnd? || st.ThreadYield? {
      assert ThreadOk(k.s, st.t);
    }
    if st.IdleReap? {
      ReapInv(k.s);
    }
  }

  ghost predicate HasHead(s: Sched, obj: nat) {
    Wait(obj) in s.lists && s.lists[Wait(obj)] != [] && s.lists[Wait(obj)][0] in s.thr
  }

  /** A runnable thread and a queue of known threads. */
  ghost predicate CanBlock(s: Sched, t: Tid, obj: nat) {
    && HasReadyLists(s) && t in s.thr && s.thr[t].stat == READY && Wait(obj) in s.lists
    && (forall x :: x in s.lists[Wait(obj)] ==> x in s.thr)
  }

  lemma SuspendedQueue(s: Sched, t: Tid, obj: nat)
    requires CanBlock(s, t, obj)
    ensures Wait(obj) in Suspend(s, t).lists
    ensures forall x :: x in Suspend(s, t).lists[Wait(obj)] ==> x in Suspend(s, t).thr
  {
    forall x | x in Suspend(s, t).lists[Wait(obj)] ensures x in Suspend(s, t).thr {
      WithoutIn(s.lists[Wait(obj)], t, x);
    }
  }

  /** Ipc.Block, defined without the invariant. */
  ghost function Blocking(s: Sched, t: Tid, obj: nat, prioFlag: bool, timed: bool): Sched
    requires CanBlock(s, t, obj)
  {
    SuspendedQueue(s, t, obj);
    var s1 := Suspend(s, t);
    var s2 := s1.(lists := Link(s1.lists, Wait(obj), JoinAt(s1.thr, s1.lists[Wait(obj)], t, prioFlag), t));
    if timed then Arm(s2, t) else s2
  }

  lemma BlockingIs(s: Sched, t: Tid, obj: nat, prioFlag: bool, timed: bool)
    requires Inv(s) && CanRun(s, t) && Wait(obj) in s.lists
    ensures CanBlock(s, t, obj) && Blocking(s, t, obj, prioFlag, timed) == Block(s, t, obj, prioFlag, timed)
  {
    QueueKnown(s, obj);
  }

  /** What the branches of take and release rely on; both overflow exits are ruled out here. */
  lemma MutexFacts(k: Kernel, m: nat, t: Tid)
    requires KInv(k) && m in k.mtx && t in k.s.thr
    ensures Inv(k.s) && Wait(m) in k.s.lists && Inv(WithError(k.s, t, EOK))
    ensures var mu := k.mtx[m];
      && (mu.owner == None <==> mu.value > 0) && mu.value < MUTEX_VALUE_MAX
      && (mu.owner == None ==> mu.hold == 0) && (mu.owner.Some? ==> mu.hold >= 1 && Alive(k.s, mu.owner.value))
  {
    assert MutexOk(k, m);
    WithErrorInv(k.s, t, EOK);
  }

  /** The last release is restoring the priority and passing the mutex on. */
  lemma LastRelease(k: Kernel, t: Tid, m: nat)
    requires KInv(k) && Acts(k, t) && Owns(k, t, m) && k.mtx[m].hold == 1
    ensures HasReadyLists(k.s) && k.mtx[m].value < MUTEX_VALUE_MAX
    ensures var s1 := Restore(k.s, t, k.mtx[m].orig);
      && Inv(s1) && Wait(m) in s1.lists
      && MutexRelease(k, t, m) == PassOn(k.(s := s1), s1, t, m, k.mtx[m].(hold := 0))
  {
    MutexFacts(k, m, t);
    RestoreInv(k.s, t, k.mtx[m].orig);
  }

  ghost function WithoutUnit(k: Kernel, x: nat): Kernel
    requires x in k.sem && k.sem[x].value > 0
  {
    k.(sem := k.sem[x := k.sem[x].(value := k.sem[x].value - 1)], log := k.log + [SemGranted(x)])
  }

  /** What the branches of rt_sem_take need to find. */
  ghost predicate CanSemTake(k: Kernel, t: Tid, x: nat, time: int) {
    && t in k.s.thr && x in k.sem
    && (k.sem[x].value == 0 && time != 0 ==> CanBlock(WithError(k.s, t, EOK), t, x))
  }

  /** rt_sem_take, defined without the invariant. */
  ghost function SemTaken(k: Kernel, t: Tid, x: nat, time: int): (Kernel, Outcome)
    requires CanSemTake(k, t, x, time)
  {
    if k.sem[x].value > 0 then (WithoutUnit(k, x), OK)
    else if time == 0 then (k, TIMEDOUT)
    else (WaitsForUnit(k, t, x, time > 0), BLOCKED)
  }

  ghost function WaitsForUnit(k: Kernel, t: Tid, x: nat, timed: bool): Kernel
    requires t in k.s.thr && x in k.sem && CanBlock(WithError(k.s, t, EOK), t, x)
  {
    k.(s := Blocking(WithError(k.s, t, EOK), t, x, k.sem[x].prioFlag, timed), log := k.log + [Blocked(t)])
  }

  lemma SemTakenIs(k: Kernel, t: Tid, x: nat, time: int)
    requires KInv(k) && Acts(k, t) && x in k.sem
    ensures CanSemTake(k, t, x, time) && SemTake(k, t, x, time) == SemTaken(k, t, x, time)
  {
    assert SemOk(k, x);
    if k.sem[x].value == 0 && time != 0 {
      SemWaits(k, t, x, time);
    }
  }

  lemma SemWaits(k: Kernel, t: Tid, x: nat, time: int)
    requires KInv(k) && Acts(k, t) && x in k.sem && k.sem[x].value == 0 && time != 0
    ensures CanBlock(WithError(k.s, t, EOK), t, x)
    ensures SemTake(k, t, x, time) ==
      (k.(s := Blocking(WithError(k.s, t, EOK), t, x, k.sem[x].prioFlag, time > 0), log := k.log + [Blocked(t)]), BLOCKED)
  {
    assert SemOk(k, x);
    WithErrorInv(k.s, t, EOK);
    BlockingIs(WithError(k.s, t, EOK), t, x, k.sem[x].prioFlag, time > 0);
  }

  lemma TakeGivesUp(k: Kernel, t: Tid, m: nat)
    requires KInv(k) && Acts(k, t) && m in k.mtx && k.mtx[m].owner.Some? && k.mtx[m].owner != Some(t)
    ensures MutexTake(k, t, m, 0) == (k.(s := WithError(k.s, t, ETIMEOUT)), TIMEDOUT)
  {
    MutexFacts(k, m, t);
    var s0 := WithError(k.s, t, EOK);
    assert WithError(s0, t, ETIMEOUT).thr == WithError(k.s, t, ETIMEOUT).thr;
  }

  /** A take that has to wait, in the form in which the method carries it out. */
  lemma TakeWaits(k: Kernel, t: Tid, m: nat, time: int)
    requires KInv(k) && Acts(k, t) && m in k.mtx && k.mtx[m].owner.Some? && k.mtx[m].owner != Some(t) && time != 0
    ensures var o, s0 := k.mtx[m].owner.value, WithError(k.s, t, EOK);
      && HasReadyLists(k.s) && o in k.s.thr && CanBlock(Boost(s0, t, o), t, m)
      && MutexTake(k, t, m, time) ==
         (Kernel(Blocking(Boost(s0, t, o), t, m, k.mtx[m].prioFlag, time > 0), k.mtx, k.sem, k.log + [Blocked(t)]), BLOCKED)
  {
    MutexFacts(k, m, t);
    var o, s0 := k.mtx[m].owner.value, WithError(k.s, t, EOK);
    BoostInv(s0, t, o);
    BlockingIs(Boost(s0, t, o), t, m, k.mtx[m].prioFlag, time > 0);
  }

  /** Make an empty list at each of the given heads. */
  method InitLists(table: ListTable, heads: Heads)
    requires table.Valid() && table.mem.next == map[] && table.Lists() == map[] && Injective(heads)
    modifies table, table.mem
    ensures table.Valid() && table.Lists() == map l | l in heads :: []
  {
    var todo := heads.Keys;
    while todo != {}
      invariant table.Valid() && todo <= heads.Keys && table.Lists() == Made(heads, todo)
      invariant Unused(heads, todo, table.mem.next.Keys)
      decreases |todo|
    {
      var l :| l in todo;
      InitList(table, heads, todo, l);
      todo := todo - {l};
    }
  }

  /** One of them. */
  method InitList(table: ListTable, heads: Heads, ghost todo: set<ListId>, l: ListId)
    requires table.Valid() && table.Lists() == Made(heads, todo) && Unused(heads, todo, table.mem.next.Keys)
    requires Injective(heads) && l in todo && l in heads
    modifies table, table.mem
    ensures table.Valid() && table.Lists() == Made(heads, todo - {l})
    ensures Unused(heads, todo - {l}, table.mem.next.Keys)
  {
    NextList(heads, todo, l, table.mem.next.Keys);
    table.NewList(l, heads[l]);
  }

  ghost predicate Injective(heads: Heads) {
    forall l, m :: l in heads && m in heads && heads[l] == heads[m] ==> l == m
  }

  /** The lists made when those in todo are still missing. */
  ghost function Made(heads: Heads, todo: set<ListId>): Lists {
    map l | l in heads && l !in todo :: []
  }

  ghost predicate Unused(heads: Heads, todo: set<ListId>, nodes: set<nat>) {
    forall l :: l in todo && l in heads ==> heads[l] !in nodes
  }

  lemma NextList(heads: Heads, todo: set<ListId>, l: ListId, nodes: set<nat>)
    requires Injective(heads) && l in todo && l in heads && Unused(heads, todo, nodes)
    ensures heads[l] !in nodes && l !in Made(heads, todo)
    ensures Unused(heads, todo - {l}, nodes + {heads[l]}) && Made(heads, todo)[l := []] == Made(heads, todo - {l})
  {
  }

  /** __rt_ffs: the lowest set bit. */
  method LowestBit(g: bv32, ghost top: Prio) returns (p: Prio)
    requires Bit(g, top)
    ensures IsLowestBit(g, p)
  {
    p := 0;
    while !Bit(g, p)
      invariant p <= top && forall q: Prio :: q < p ==> !Bit(g, q)
      decreases 31 - p
    {
      NextPrio(g, p, top);
      p := p + 1;
    }
  }

  lemma NextPrio(g: bv32, p: Prio, top: Prio)
    requires !Bit(g, p) && Bit(g, top) && p <= top
    ensures p < 31 && p + 1 <= top && 31 - (p + 1) < 31 - p
    ensures forall q: Prio :: q < p + 1 && Bit(g, q) ==> q < p
  {
  }
}
