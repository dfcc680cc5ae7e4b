/**
  Runs of rt-thread/kernel/src/ipc.c counted by what callers see: the steps they take, the answers they
  get and who is woken.  Nothing here reads the history that the kernel model keeps.
 */
module Accounts {
  import opened Wrappers
  import opened Queues
  import opened Scheduler
  import opened Ipc
  import opened ThreadEffects
  import opened IpcEffects
  import opened KernelRuns

  /** What a step answers its caller. */
  ghost function Answer(k: Kernel, st: Step): Outcome
    requires KInv(k) && Allowed(k, st)
  {
    match st
    case TakeMutex(t, m, time) => MutexTake(k, t, m, time).1
    case ReleaseMutex(t, m) => MutexRelease(k, t, m).1
    case TakeSem(t, x, time) => SemTake(k, t, x, time).1
    case ReleaseSem(x) => SemRelease(k, x).1
    case _ => OK
  }

  /** How many threads that waited for obj do so no longer. */
  ghost function Departed(k: Kernel, k': Kernel, obj: nat): int {
    if Wait(obj) in k.s.lists && Wait(obj) in k'.s.lists then |k.s.lists[Wait(obj)]| - |k'.s.lists[Wait(obj)]| else 0
  }

  /** Thread t waited for obj before all others, and does so no longer. */
  ghost predicate Called(k: Kernel, k': Kernel, obj: nat, t: Tid) {
    && Wait(obj) in k.s.lists && k.s.lists[Wait(obj)] != [] && k.s.lists[Wait(obj)][0] == t
    && !On(k'.s.lists, Wait(obj), t)
  }

  // ----- Mutexes -----

  /** How often thread t holds mutex m. */
  ghost function Holding(k: Kernel, m: nat, t: Tid): int {
    if m in k.mtx && k.mtx[m].owner == Some(t) then k.mtx[m].hold else 0
  }

  /** A take that is answered OK is one hold more, so is being called by a release; a release answered OK is one less. */
  ghost function HoldChange(k: Kernel, st: Step, m: nat, t: Tid): int
    requires KInv(k) && Allowed(k, st)
  {
    match st
    case TakeMutex(u, n, _) => if n == m && u == t && Answer(k, st) == OK then 1 else 0
    case ReleaseMutex(u, n) =>
      if n != m || Answer(k, st) != OK then 0
      else (if u == t then -1 else 0) + (if Called(k, Do(k, st), m, t) then 1 else 0)
    case _ => 0
  }

  lemma TakeHolds(k: Kernel, u: Tid, n: nat, time: int, m: nat, t: Tid)
    requires KInv(k) && Acts(k, u) && n in k.mtx
    ensures var st := TakeMutex(u, n, time); Holding(Do(k, st), m, t) == Holding(k, m, t) + HoldChange(k, st, m, t)
  {
    var mu := k.mtx[n];
    if mu.owner == Some(u) {
      TakeAgainDoes(k, u, n, time);
      assert mu.hold <= 255 by { assert MutexOk(k, n); }
    } else if mu.owner.None? {
      TakeFreeDoes(k, u, n, time);
    } else if time == 0 {
      TakeRefusedDoes(k, u, n);
    } else {
      TakeWaitsDoes(k, u, n, time);
    }
  }

  lemma ReleaseHolds(k: Kernel, u: Tid, n: nat, m: nat, t: Tid)
    requires KInv(k) && Acts(k, u) && n in k.mtx
    ensures var st := ReleaseMutex(u, n); Holding(Do(k, st), m, t) == Holding(k, m, t) + HoldChange(k, st, m, t)
  {
    var mu := k.mtx[n];
    assert Wait(n) in k.s.lists && (mu.owner == Some(u) ==> mu.hold >= 1) by { assert MutexOk(k, n); }
    if mu.owner != Some(u) {
      ReleaseRefusedDoes(k, u, n);
    } else if mu.hold > 1 {
      ReleaseOneDoes(k, u, n);
    } else if k.s.lists[Wait(n)] == [] {
      ReleaseLastDoes(k, u, n);
    } else {
      PassHolds(k, u, n, m, t);
    }
  }

  lemma PassHolds(k: Kernel, u: Tid, n: nat, m: nat, t: Tid)
    requires KInv(k) && Acts(k, u) && n in k.mtx && k.mtx[n].owner == Some(u) && k.mtx[n].hold == 1
    requires Wait(n) in k.s.lists && k.s.lists[Wait(n)] != []
    ensures var st := ReleaseMutex(u, n); Holding(Do(k, st), m, t) == Holding(k, m, t) + HoldChange(k, st, m, t)
  {
    CalledIs(k, u, n);
    assert Do(k, ReleaseMutex(u, n)) == MutexRelease(k, u, n).0;
  }

  /** The hand-off takes the first waiter, who is not the owner, off the queue. */
  lemma CalledIs(k: Kernel, u: Tid, n: nat)
    requires KInv(k) && Acts(k, u) && n in k.mtx && k.mtx[n].owner == Some(u) && k.mtx[n].hold == 1
    requires Wait(n) in k.s.lists && k.s.lists[Wait(n)] != []
    ensures var (k', r), mu, w := MutexRelease(k, u, n), k.mtx[n], k.s.lists[Wait(n)][0];
      && w != u && Called(k, k', n, w) && r == OK && w in k.s.thr
      && k'.mtx == k.mtx[n := Mutex(0, 1, Some(w), k.s.thr[w].cur, mu.prioFlag)]
  {
    var w := k.s.lists[Wait(n)][0];
    QueueKnown(k.s, n);
    ReleasePassesDoes(k, u, n);
    var s1: Sched :| SetBack(k.s, s1, u, k.mtx[n].orig) && w in s1.thr && Woken(s1, MutexRelease(k, u, n).0.s, w, k.s.thr[w].error);
  }

  lemma OthersHold(k: Kernel, st: Step, m: nat, t: Tid)
    requires KInv(k) && Allowed(k, st) && !st.TakeMutex? && !st.ReleaseMutex?
    ensures Holding(Do(k, st), m, t) == Holding(k, m, t)
  {
    if m in k.mtx {
      OtherStepsKeepMutexes(k, st, m);
    }
  }

  lemma HoldStep(k: Kernel, st: Step, m: nat, t: Tid)
    requires KInv(k) && Allowed(k, st)
    ensures Holding(Do(k, st), m, t) == Holding(k, m, t) + HoldChange(k, st, m, t)
  {
    match st
    case TakeMutex(u, n, time) => TakeHolds(k, u, n, time, m, t);
    case ReleaseMutex(u, n) => ReleaseHolds(k, u, n, m, t);
    case _ => OthersHold(k, st, m, t);
  }

  /** What the steps of a run, taken together, say about the holds of t on m. */
  ghost function HoldsCounted(k: Kernel, steps: seq<Step>, m: nat, t: Tid): int
    decreases |steps|
  {
    if steps == [] then 0
    else if !(KInv(k) && Allowed(k, steps[0])) then 0
    else HoldChange(k, steps[0], m, t) + HoldsCounted(Do(k, steps[0]), steps[1..], m, t)
  }

  lemma {:induction false} HoldsFollow(k: Kernel, steps: seq<Step>, k': Kernel, m: nat, t: Tid)
    requires KInv(k) && Reaches(k, steps, k')
    ensures Holding(k', m, t) == Holding(k, m, t) + HoldsCounted(k, steps, m, t)
    decreases |steps|
  {
    if steps != [] {
      HoldStep(k, steps[0], m, t);
      StepKept(k, steps[0]);
      HoldsFollow(Do(k, steps[0]), steps[1..], k', m, t);
    }
  }

  /**
    In every run: the owner's hold is the number of its takes that were answered OK, and of hand-offs to it,
    less its releases that were answered OK; for everybody else these balance out.
   */
  lemma HoldAccount(steps: seq<Step>, k: Kernel, m: nat, t: Tid)
    requires Reaches(Boot(), steps, k)
    ensures HoldsCounted(Boot(), steps, m, t) == if m in k.mtx && k.mtx[m].owner == Some(t) then k.mtx[m].hold else 0
  {
    BootInv();
    HoldsFollow(Boot(), steps, k, m, t);
  }

  // ----- Semaphores -----

  /** The units of semaphore x after a step, when there were v before it. */
  ghost function UnitsNext(k: Kernel, st: Step, x: nat, v: int): int
    requires KInv(k) && Allowed(k, st)
  {
    match st
    case NewSem(y, n, _) => if y == x then n else v
    case ResetSem(y, n) => if y == x then n % 0x10000 else v
    case TakeSem(_, y, _) => if y == x && Answer(k, st) == OK then v - 1 else v
    case ReleaseSem(y) => if y == x && Answer(k, st) == OK then v + 1 - Departed(k, Do(k, st), x) else v
    case _ => v
  }

  ghost function Units(k: Kernel, x: nat): int {
    if x in k.sem then k.sem[x].value else 0
  }

  lemma SemReleaseUnits(k: Kernel, x: nat)
    requires KInv(k) && x in k.sem
    ensures Units(Do(k, ReleaseSem(x)), x) == UnitsNext(k, ReleaseSem(x), x, Units(k, x))
  {
    assert Wait(x) in k.s.lists && k.sem[x].value <= 65535 by { assert SemOk(k, x); }
    if k.s.lists[Wait(x)] == [] {
      SemReleasesDoes(k, x);
    } else {
      SemPassesDoes(k, x);
      WakeHeadInv(k.s, x);
    }
  }

  lemma UnitStep(k: Kernel, st: Step, x: nat)
    requires KInv(k) && Allowed(k, st)
    ensures Units(Do(k, st), x) == UnitsNext(k, st, x, Units(k, x))
  {
    match st
    case TakeSem(t, y, time) => SemTakeUnits(k, t, y, time, x);
    case ReleaseSem(y) =>
      if y == x {
        SemReleaseUnits(k, x);
      } else {
        assert SemOk(k, y);
      }
    case ResetSem(y, v) => SemResetDoes(k, y, v);
    case _ => OtherUnits(k, st, x);
  }

  lemma OtherUnits(k: Kernel, st: Step, x: nat)
    requires KInv(k) && Allowed(k, st) && !st.TakeSem? && !st.ReleaseSem? && !st.ResetSem?
    ensures Units(Do(k, st), x) == UnitsNext(k, st, x, Units(k, x))
  {
  }

  lemma SemTakeUnits(k: Kernel, t: Tid, y: nat, time: int, x: nat)
    requires KInv(k) && Acts(k, t) && y in k.sem
    ensures var st := TakeSem(t, y, time); Units(Do(k, st), x) == UnitsNext(k, st, x, Units(k, x))
  {
    if k.sem[y].value > 0 {
      SemTakesDoes(k, t, y, time);
    } else if time == 0 {
      SemRefusedDoes(k, t, y);
    } else {
      SemWaitsDoes(k, t, y, time);
    }
  }

  ghost function UnitsCounted(k: Kernel, steps: seq<Step>, x: nat, v: int): int
    decreases |steps|
  {
    if steps == [] then v
    else if !(KInv(k) && Allowed(k, steps[0])) then v
    else UnitsCounted(Do(k, steps[0]), steps[1..], x, UnitsNext(k, steps[0], x, v))
  }

  lemma {:induction false} UnitsFollow(k: Kernel, steps: seq<Step>, k': Kernel, x: nat)
    requires KInv(k) && Reaches(k, steps, k')
    ensures Units(k', x) == UnitsCounted(k, steps, x, Units(k, x))
    decreases |steps|
  {
    if steps != [] {
      UnitStep(k, steps[0], x);
      StepKept(k, steps[0]);
      UnitsFollow(Do(k, steps[0]), steps[1..], k', x);
    }
  }

  /**
    In every run: the value is what the semaphore was last set to, plus the releases since that were answered OK,
    less the takes that were answered OK at once, less the waiters that releases have woken.
   */
  lemma UnitAccount(steps: seq<Step>, k: Kernel, x: nat)
    requires Reaches(Boot(), steps, k) && x in k.sem
    ensures k.sem[x].value == UnitsCounted(Boot(), steps, x, 0)
  {
    BootInv();
    UnitsFollow(Boot(), steps, k, x);
  }
}
