/**
  Threads, ready lists and the ready bitmap: rt-thread/kernel/src/scheduler.c and thread.c,
  for RT_THREAD_PRIORITY_MAX == 32.

  A list is the sequence of the threads whose tlist node is linked into it.  Unlinking a node does
  not name the list it is on, exactly as rt_list_remove does not.
 */
module Scheduler {
  import opened Queues

  /** A priority below RT_THREAD_PRIORITY_MAX == 32; smaller is more urgent. */
  type Prio = bv5

  datatype Stat = INIT | READY | SUSPEND | CLOSE
  /** Started and not yet closed. */
  predicate Runs(stat: Stat) { stat == READY || stat == SUSPEND }

  datatype Err = EOK | ERROR | ETIMEOUT

  /** timer: the built-in thread timer is armed. */
  datatype Thread = Thread(stat: Stat, cur: Prio, init: Prio, mask: bv32, error: Err, timer: bool)

  datatype ListId = Ready(p: Prio) | Wait(obj: nat) | Defunct

  type Lists = map<ListId, seq<Tid>>

  /** Operations that release the interrupt lock half way: a resume, and a delete or detach. */
  datatype Phase = Resuming | Closing

  /** busy: the threads that such an operation is half way through with. */
  datatype Sched = Sched(thr: map<Tid, Thread>, lists: Lists, group: bv32, busy: map<Tid, Phase>)

  // ----- Lists -----

  ghost predicate On(ls: Lists, l: ListId, t: Tid) {
    l in ls && t in ls[l]
  }

  ghost predicate OnNone(ls: Lists, t: Tid) {
    forall l :: !On(ls, l, t)
  }

  /** rt_list_remove(&thread->tlist): off whatever list it is on. */
  function Unlink(ls: Lists, t: Tid): Lists {
    map l | l in ls :: Without(ls[l], t)
  }

  /** Insert t at position k of list l. */
  function Link(ls: Lists, l: ListId, k: nat, t: Tid): Lists
    requires l in ls && k <= |ls[l]|
  {
    ls[l := ls[l][..k] + [t] + ls[l][k..]]
  }

  /** Every list holds each thread at most once, and no thread is on two lists. */
  ghost predicate ListsOk(ls: Lists) {
    && (forall l :: l in ls ==> NoDup(ls[l]))
    && (forall l, m, t :: On(ls, l, t) && On(ls, m, t) ==> l == m)
  }

  lemma UnlinkOn(ls: Lists, t: Tid)
    ensures Unlink(ls, t).Keys == ls.Keys
    ensures forall l, x :: On(Unlink(ls, t), l, x) <==> On(ls, l, x) && x != t
  {
    forall l, x ensures On(Unlink(ls, t), l, x) <==> On(ls, l, x) && x != t {
      if l in ls {
        WithoutIn(ls[l], t, x);
      }
    }
  }

  lemma UnlinkOk(ls: Lists, t: Tid)
    requires ListsOk(ls)
    ensures ListsOk(Unlink(ls, t))
  {
    UnlinkOn(ls, t);
    forall l | l in ls ensures NoDup(Unlink(ls, t)[l]) {
      WithoutNoDup(ls[l], t);
    }
  }

  lemma LinkOn(ls: Lists, l: ListId, k: nat, t: Tid)
    requires l in ls && k <= |ls[l]|
    ensures Link(ls, l, k, t).Keys == ls.Keys
    ensures forall m, x :: On(Link(ls, l, k, t), m, x) <==> On(ls, m, x) || (m == l && x == t)
  {
    assert ls[l] == ls[l][..k] + ls[l][k..];
  }

  lemma LinkOk(ls: Lists, l: ListId, k: nat, t: Tid)
    requires ListsOk(ls) && l in ls && k <= |ls[l]|
    requires forall m :: !On(ls, m, t)
    ensures ListsOk(Link(ls, l, k, t))
  {
    LinkOn(ls, l, k, t);
    assert !On(ls, l, t);
    assert NoDup(Link(ls, l, k, t)[l]);
  }

  // ----- The ready bitmap -----

  predicate Bit(g: bv32, p: Prio) {
    (g >> p) & 1 == 1
  }

  function Mask(p: Prio): bv32 {
    1 << p
  }

  lemma BitSet(g: bv32, p: Prio, q: Prio)
    ensures Bit(g | Mask(p), q) <==> q == p || Bit(g, q)
  {
  }

  lemma BitClear(g: bv32, p: Prio, q: Prio)
    ensures Bit(g & !Mask(p), q) <==> q != p && Bit(g, q)
  {
  }

  // ----- The invariant -----

  /** What the state of thread t says about the lists it may be on. */
  ghost predicate ThreadOk(s: Sched, t: Tid)
    requires t in s.thr
  {
    var th := s.thr[t];
    && (Runs(th.stat) ==> th.mask == Mask(th.cur))
    && (th.timer ==> th.stat == SUSPEND && t !in s.busy)
    && (th.stat == READY && t !in s.busy ==> On(s.lists, Ready(th.cur), t))
    && (forall l :: On(s.lists, l, t) ==> t !in s.busy && Fitting(th, l))
    && (t in s.busy ==> BusyOk(th, s.busy[t]))
  }

  /** A thread between the halves of an operation, when it is on no list and its timer is off. */
  predicate BusyOk(th: Thread, phase: Phase) {
    match phase
    case Resuming => th.stat == SUSPEND
    case Closing => th.stat != CLOSE
  }

  /** The only kinds of list a thread in the given state can be on. */
  predicate Fitting(th: Thread, l: ListId) {
    match th.stat
    case INIT => false
    case READY => l == Ready(th.cur)
    case SUSPEND => l.Wait?
    case CLOSE => l.Defunct?
  }

  ghost predicate Frame(s: Sched) {
    && ListsOk(s.lists)
    && BitmapOk(s.lists, s.group) && Defunct in s.lists
    && (forall l, t :: On(s.lists, l, t) ==> t in s.thr)
    && s.busy.Keys <= s.thr.Keys
  }

  /** Bit p of the bitmap is set iff ready list p is not empty. */
  ghost predicate BitmapOk(ls: Lists, g: bv32) {
    forall p: Prio :: Ready(p) in ls && (Bit(g, p) <==> ls[Ready(p)] != [])
  }

  lemma BitmapInsert(ls: Lists, ls': Lists, g: bv32, c: Prio)
    requires BitmapOk(ls, g)
    requires Ready(c) in ls' && ls'[Ready(c)] != []
    requires forall p: Prio :: p != c ==> Ready(p) in ls' && ls'[Ready(p)] == ls[Ready(p)]
    ensures BitmapOk(ls', g | Mask(c))
  {
    forall p: Prio ensures Ready(p) in ls' && (Bit(g | Mask(c), p) <==> ls'[Ready(p)] != []) {
      BitSet(g, c, p);
    }
  }

  lemma BitmapRemove(ls: Lists, ls': Lists, g: bv32, c: Prio)
    requires BitmapOk(ls, g)
    requires Ready(c) in ls' && ls'[Ready(c)] == []
    requires forall p: Prio :: p != c ==> Ready(p) in ls' && ls'[Ready(p)] == ls[Ready(p)]
    ensures BitmapOk(ls', g & !Mask(c))
  {
    forall p: Prio ensures Ready(p) in ls' && (Bit(g & !Mask(c), p) <==> ls'[Ready(p)] != []) {
      BitClear(g, c, p);
    }
  }

  lemma BitmapSame(ls: Lists, ls': Lists, g: bv32)
    requires BitmapOk(ls, g)
    requires forall p: Prio :: Ready(p) in ls' && (ls'[Ready(p)] == [] <==> ls[Ready(p)] == [])
    ensures BitmapOk(ls', g)
  {
  }

  ghost predicate Inv(s: Sched) {
    && Frame(s)
    && (forall t {:trigger ThreadOk(s, t)} :: t in s.thr ==> ThreadOk(s, t))
  }

  /** The invariant while thread t is between lists. */
  ghost predicate Detached(s: Sched, t: Tid) {
    && Frame(s) && t in s.thr
    && (forall l :: !On(s.lists, l, t))
    && (forall x {:trigger ThreadOk(s, x)} :: x in s.thr && x != t ==> ThreadOk(s, x))
  }

  /** The invariant, but that a half-done operation on t may be at work: t may be READY and on no list. */
  ghost predicate InvBut(s: Sched, t: Tid) {
    && Frame(s) && t in s.thr
    && (Runs(s.thr[t].stat) ==> s.thr[t].mask == Mask(s.thr[t].cur))
    && (s.thr[t].timer ==> s.thr[t].stat == SUSPEND)
    && (forall l :: On(s.lists, l, t) ==> Fitting(s.thr[t], l))
    && (forall x {:trigger ThreadOk(s, x)} :: x in s.thr && x != t ==> ThreadOk(s, x))
  }

  lemma InvGivesInvBut(s: Sched, t: Tid)
    requires Inv(s) && t in s.thr
    ensures InvBut(s, t)
  {
    assert ThreadOk(s, t);
  }

  /** A thread that may run: ready, and nobody is half way through an operation on it. */
  ghost predicate CanRun(s: Sched, t: Tid) {
    t in s.thr && s.thr[t].stat == READY && t !in s.busy
  }

  /** A started thread that nobody has begun to close. */
  ghost predicate Alive(s: Sched, t: Tid) {
    t in s.thr && Runs(s.thr[t].stat) && (t in s.busy ==> s.busy[t].Resuming?)
  }

  // ----- scheduler.c -----

  function SetThread(s: Sched, t: Tid, th: Thread): Sched {
    s.(thr := s.thr[t := th])
  }

  /** rt_schedule_insert_thread */
  function Insert(s: Sched, t: Tid): Sched
    requires t in s.thr && Ready(s.thr[t].cur) in s.lists
  {
    var th := s.thr[t];
    var l := Ready(th.cur);
    s.(thr := s.thr[t := th.(stat := READY)], lists := Link(s.lists, l, |s.lists[l]|, t), group := s.group | th.mask)
  }

  /** rt_schedule_remove_thread */
  function Remove(s: Sched, t: Tid): Sched
    requires t in s.thr && Ready(s.thr[t].cur) in s.lists
  {
    var th := s.thr[t];
    var ls := Unlink(s.lists, t);
    s.(lists := ls, group := if ls[Ready(th.cur)] == [] then s.group & !th.mask else s.group)
  }

  lemma RemoveDetaches(s: Sched, t: Tid)
    requires InvBut(s, t) && Runs(s.thr[t].stat)
    ensures Detached(Remove(s, t), t)
  {
    var r := Remove(s, t);
    UnlinkOn(s.lists, t);
    UnlinkOk(s.lists, t);
    RemoveBitmap(s, t);
    forall x | x in r.thr && x != t ensures ThreadOk(r, x) {
      assert ThreadOk(s, x);
    }
  }

  lemma RemoveBitmap(s: Sched, t: Tid)
    requires InvBut(s, t) && Runs(s.thr[t].stat)
    ensures BitmapOk(Remove(s, t).lists, Remove(s, t).group)
  {
    var r, c := Remove(s, t), s.thr[t].cur;
    forall p: Prio | p != c ensures r.lists[Ready(p)] == s.lists[Ready(p)] {
      assert Ready(p) in s.lists && !On(s.lists, Ready(p), t);
      WithoutAbsent(s.lists[Ready(p)], t);
    }
    assert Ready(c) in s.lists;
    if r.lists[Ready(c)] == [] {
      BitmapRemove(s.lists, r.lists, s.group, c);
    } else {
      WithoutIn(s.lists[Ready(c)], t, r.lists[Ready(c)][0]);
      BitmapSame(s.lists, r.lists, s.group);
    }
  }

  lemma InsertInv(s: Sched, t: Tid)
    requires Detached(s, t) && t !in s.busy && s.thr[t].mask == Mask(s.thr[t].cur) && !s.thr[t].timer
    ensures Inv(Insert(s, t))
  {
    var r, l := Insert(s, t), Ready(s.thr[t].cur);
    LinkOn(s.lists, l, |s.lists[l]|, t);
    LinkOk(s.lists, l, |s.lists[l]|, t);
    BitmapInsert(s.lists, r.lists, s.group, s.thr[t].cur);
    forall x | x in r.thr ensures ThreadOk(r, x) {
      assert x != t ==> ThreadOk(s, x);
    }
  }

  /** A detached thread may rest off all lists in any state but READY. */
  lemma RestInv(s: Sched, t: Tid, th: Thread)
    requires Detached(s, t) && th.stat != READY
    requires Runs(th.stat) ==> th.mask == Mask(th.cur)
    requires th.timer ==> th.stat == SUSPEND && t !in s.busy
    requires t in s.busy ==> BusyOk(th, s.busy[t])
    ensures Inv(SetThread(s, t, th))
  {
    var r := SetThread(s, t, th);
    forall x | x in r.thr ensures ThreadOk(r, x) {
      assert x != t ==> ThreadOk(s, x);
    }
  }

  /** A thread that is off all lists may be linked into one that fits its state. */
  lemma LinkInv(s: Sched, t: Tid, l: ListId, k: nat)
    requires Inv(s) && t in s.thr && t !in s.busy && (forall m :: !On(s.lists, m, t))
    requires l in s.lists && k <= |s.lists[l]| && !l.Ready? && Fitting(s.thr[t], l)
    ensures Inv(s.(lists := Link(s.lists, l, k, t)))
  {
    var r := s.(lists := Link(s.lists, l, k, t));
    LinkOn(s.lists, l, k, t);
    LinkOk(s.lists, l, k, t);
    BitmapSame(s.lists, r.lists, s.group);
    forall x | x in r.thr ensures ThreadOk(r, x) {
      assert ThreadOk(s, x);
    }
  }

  /** Taking a suspended thread off its wait queue leaves the ready side alone. */
  lemma UnlinkDetaches(s: Sched, t: Tid)
    requires InvBut(s, t) && s.thr[t].stat == SUSPEND
    ensures Detached(s.(lists := Unlink(s.lists, t)), t)
  {
    var r := s.(lists := Unlink(s.lists, t));
    UnlinkOn(s.lists, t);
    UnlinkOk(s.lists, t);
    forall p: Prio ensures Ready(p) in r.lists && r.lists[Ready(p)] == s.lists[Ready(p)] {
      assert Ready(p) in s.lists && !On(s.lists, Ready(p), t);
      WithoutAbsent(s.lists[Ready(p)], t);
    }
    BitmapSame(s.lists, r.lists, s.group);
    forall x | x in r.thr && x != t ensures ThreadOk(r, x) {
      assert ThreadOk(s, x);
    }
  }

  // ----- thread.c -----

  /** Every ready list exists: enough for the operations below to be defined. */
  ghost predicate HasReadyLists(s: Sched) {
    Defunct in s.lists && forall p: Prio :: Ready(p) in s.lists
  }

  /** The locked section of rt_thread_suspend. */
  function SuspendNow(s: Sched, t: Tid): Sched
    requires t in s.thr && HasReadyLists(s)
  {
    SetThread(Remove(s, t), t, s.thr[t].(stat := SUSPEND, timer := false))
  }

  /** rt_thread_suspend: fails, changing nothing, unless the thread is READY. */
  function Suspend(s: Sched, t: Tid): Sched
    requires t in s.thr && HasReadyLists(s)
  {
    if s.thr[t].stat != READY then s else SuspendNow(s, t)
  }

  /**
    rt_thread_resume inside a locked section, as the IPC calls use it: fails, changing nothing,
    unless the thread is SUSPENDed.
   */
  function Resume(s: Sched, t: Tid): Sched
    requires t in s.thr && HasReadyLists(s)
  {
    if s.thr[t].stat != SUSPEND then s
    else Insert(s.(thr := s.thr[t := s.thr[t].(timer := false)], lists := Unlink(s.lists, t)), t)
  }

  /** rt_thread_timeout, run by the expired (and thereby disarmed) thread timer. */
  function Timeout(s: Sched, t: Tid): Sched
    requires t in s.thr && HasReadyLists(s)
  {
    Insert(s.(thr := s.thr[t := s.thr[t].(error := ETIMEOUT, timer := false)], lists := Unlink(s.lists, t)), t)
  }

  function WithPriority(th: Thread, p: Prio): Thread {
    th.(cur := p, mask := Mask(p))
  }

  /** rt_thread_control(thread, RT_THREAD_CTRL_CHANGE_PRIORITY, &p) */
  function ChangePriority(s: Sched, t: Tid, p: Prio): Sched
    requires t in s.thr && HasReadyLists(s)
  {
    if s.thr[t].stat == READY then
      Insert(SetThread(Remove(s, t), t, WithPriority(s.thr[t], p)), t)
    else
      SetThread(s, t, WithPriority(s.thr[t], p))
  }

  /** rt_thread_exit, in one locked section; only dynamic threads await the idle thread. */
  function Exit(s: Sched, t: Tid, dynamic: bool): Sched
    requires t in s.thr && HasReadyLists(s)
  {
    CloseLinked(Remove(s, t), t, dynamic)
  }

  /** The thread is closed and, if dynamic, put on the defunct list. */
  function CloseLinked(s: Sched, t: Tid, dynamic: bool): Sched
    requires t in s.thr && Defunct in s.lists
  {
    var s2 := SetThread(s, t, s.thr[t].(stat := CLOSE, timer := false));
    if dynamic then s2.(lists := Link(s2.lists, Defunct, 0, t)) else s2
  }

  // ----- thread.c: operations of two locked sections -----

  /** rt_thread_resume, first section: off the suspend list, timer stopped. */
  function ResumeBegin(s: Sched, t: Tid): Sched
    requires t in s.thr
  {
    s.(thr := s.thr[t := s.thr[t].(timer := false)], lists := Unlink(s.lists, t), busy := s.busy[t := Resuming])
  }

  /** rt_thread_resume, second section: into the ready list. */
  function ResumeEnd(s: Sched, t: Tid): Sched
    requires t in s.thr && HasReadyLists(s)
  {
    Insert(s.(busy := s.busy - {t}), t)
  }

  /** rt_thread_startup up to the point where its rt_thread_resume unlocks. */
  function StartupBegin(s: Sched, t: Tid): Sched
    requires t in s.thr
  {
    ResumeBegin(SetThread(s, t, WithPriority(s.thr[t], s.thr[t].init).(stat := SUSPEND)), t)
  }

  /** rt_thread_delete and rt_thread_detach, first section: off the schedule. */
  function CloseBegin(s: Sched, t: Tid): Sched
    requires t in s.thr && HasReadyLists(s)
  {
    var s1 := if s.thr[t].stat != INIT then Remove(s, t) else s;
    s1.(busy := s1.busy[t := Closing])
  }

  /** rt_thread_delete and rt_thread_detach, last section, after the cleanup and the detaching of the timer. */
  function CloseEnd(s: Sched, t: Tid, dynamic: bool): Sched
    requires t in s.thr && Defunct in s.lists
  {
    CloseLinked(s.(busy := s.busy - {t}), t, dynamic)
  }

  /** rt_thread_yield: to the back of the own ready list, if anyone else is on it. */
  function Yield(s: Sched, t: Tid): Sched
    requires t in s.thr && HasReadyLists(s)
  {
    var l := Ready(s.thr[t].cur);
    if s.thr[t].stat == READY && |s.lists[l]| > 1 then
      var ls := Unlink(s.lists, t);
      s.(lists := Link(ls, l, |ls[l]|, t))
    else s
  }

  /** Arm the thread timer, as a timed wait or sleep does after suspending. */
  function Arm(s: Sched, t: Tid): Sched
    requires t in s.thr
  {
    SetThread(s, t, s.thr[t].(timer := true))
  }

  lemma SuspendInv(s: Sched, t: Tid)
    requires Inv(s) && t in s.thr
    ensures Inv(Suspend(s, t))
    ensures s.thr[t].stat == READY ==> forall l :: !On(Suspend(s, t).lists, l, t)
  {
    if s.thr[t].stat == READY {
      InvGivesInvBut(s, t);
      RemoveDetaches(s, t);
      assert ThreadOk(s, t);
      RestInv(Remove(s, t), t, s.thr[t].(stat := SUSPEND, timer := false));
    }
  }

  lemma DisarmDetached(s: Sched, t: Tid, th: Thread)
    requires Detached(s, t)
    ensures Detached(SetThread(s, t, th), t)
  {
    forall x | x in s.thr && x != t ensures ThreadOk(SetThread(s, t, th), x) {
      assert ThreadOk(s, x);
    }
  }

  lemma ResumeInv(s: Sched, t: Tid)
    requires Inv(s) && t in s.thr && t !in s.busy
    ensures Inv(Resume(s, t))
    ensures s.thr[t].stat == SUSPEND ==> Resume(s, t).thr[t].stat == READY
  {
    if s.thr[t].stat == SUSPEND {
      assert ThreadOk(s, t);
      InvGivesInvBut(s, t);
      UnlinkDetaches(s, t);
      DisarmDetached(s.(lists := Unlink(s.lists, t)), t, s.thr[t].(timer := false));
      InsertInv(SetThread(s.(lists := Unlink(s.lists, t)), t, s.thr[t].(timer := false)), t);
    }
  }

  /** The timer callback's own assertion, that the thread is suspended, always holds. */
  lemma TimeoutInv(s: Sched, t: Tid)
    requires Inv(s) && t in s.thr && s.thr[t].timer
    ensures s.thr[t].stat == SUSPEND
    ensures Inv(Timeout(s, t))
    ensures var th := Timeout(s, t).thr[t]; th.stat == READY && th.error == ETIMEOUT && !th.timer && th.cur == s.thr[t].cur
  {
    assert ThreadOk(s, t);
    var th := s.thr[t].(error := ETIMEOUT, timer := false);
    InvGivesInvBut(s, t);
    UnlinkDetaches(s, t);
    DisarmDetached(s.(lists := Unlink(s.lists, t)), t, th);
    InsertInv(SetThread(s.(lists := Unlink(s.lists, t)), t, th), t);
  }

  lemma ChangePriorityInv(s: Sched, t: Tid, p: Prio)
    requires Inv(s) && t in s.thr && (s.thr[t].stat == READY ==> t !in s.busy)
    ensures Inv(ChangePriority(s, t, p))
  {
    assert ThreadOk(s, t);
    var th := WithPriority(s.thr[t], p);
    if s.thr[t].stat == READY {
      InvGivesInvBut(s, t);
      RemoveDetaches(s, t);
      DisarmDetached(Remove(s, t), t, th);
      InsertInv(SetThread(Remove(s, t), t, th), t);
    } else {
      SetQuietInv(s, t, th);
    }
  }

  /** Changing the record of a thread without touching its state or the kind of lists that fit. */
  lemma SetQuietInv(s: Sched, t: Tid, th: Thread)
    requires Inv(s) && t in s.thr && th.stat == s.thr[t].stat
    requires th.stat == READY ==> th.cur == s.thr[t].cur
    requires Runs(th.stat) ==> th.mask == Mask(th.cur)
    requires th.timer ==> th.stat == SUSPEND && t !in s.busy
    ensures Inv(SetThread(s, t, th))
  {
    var r := SetThread(s, t, th);
    forall x | x in r.thr ensures ThreadOk(r, x) {
      assert ThreadOk(s, x);
    }
  }

  lemma InitDetached(s: Sched, t: Tid)
    requires Inv(s) && t in s.thr && s.thr[t].stat == INIT
    ensures Detached(s, t)
  {
    assert ThreadOk(s, t);
  }

  /** A thread on no list may be put between the halves of an operation, or taken out of it. */
  lemma BusyDetached(s: Sched, t: Tid, busy: map<Tid, Phase>)
    requires Detached(s, t) && busy.Keys <= s.thr.Keys
    requires forall x :: x != t ==> (x in busy <==> x in s.busy) && (x in busy ==> busy[x] == s.busy[x])
    ensures Detached(s.(busy := busy), t)
  {
    forall x | x in s.thr && x != t ensures ThreadOk(s.(busy := busy), x) {
      assert ThreadOk(s, x);
    }
  }

  lemma CloseFrom(s: Sched, t: Tid, dynamic: bool)
    requires Detached(s, t) && t !in s.busy
    ensures Inv(CloseLinked(s, t, dynamic))
  {
    var th := s.thr[t].(stat := CLOSE, timer := false);
    RestInv(s, t, th);
    if dynamic {
      LinkInv(SetThread(s, t, th), t, Defunct, 0);
    }
  }

  lemma ExitInv(s: Sched, t: Tid, dynamic: bool)
    requires Inv(s) && t in s.thr && Runs(s.thr[t].stat) && t !in s.busy
    ensures Inv(Exit(s, t, dynamic))
  {
    InvGivesInvBut(s, t);
    RemoveDetaches(s, t);
    CloseFrom(Remove(s, t), t, dynamic);
  }

  lemma ResumeBeginInv(s: Sched, t: Tid)
    requires Inv(s) && t in s.thr && t !in s.busy && s.thr[t].stat == SUSPEND
    ensures Inv(ResumeBegin(s, t))
  {
    assert ThreadOk(s, t);
    InvGivesInvBut(s, t);
    UnlinkDetaches(s, t);
    var s1, th := s.(lists := Unlink(s.lists, t)), s.thr[t].(timer := false);
    BusyDetached(s1, t, s.busy[t := Resuming]);
    RestInv(s1.(busy := s.busy[t := Resuming]), t, th);
  }

  /** A thread between the halves is on no list. */
  lemma BusyIsDetached(s: Sched, t: Tid)
    requires Inv(s) && t in s.busy
    ensures t in s.thr && Detached(s.(busy := s.busy - {t}), t)
  {
    assert ThreadOk(s, t);
    BusyDetached(s, t, s.busy - {t});
  }

  lemma ResumeEndInv(s: Sched, t: Tid)
    requires Inv(s) && t in s.busy && s.busy[t].Resuming?
    ensures Inv(ResumeEnd(s, t)) && ResumeEnd(s, t).thr[t].stat == READY
  {
    assert ThreadOk(s, t);
    BusyIsDetached(s, t);
    InsertInv(s.(busy := s.busy - {t}), t);
  }

  lemma StartupBeginInv(s: Sched, t: Tid)
    requires Inv(s) && t in s.thr && s.thr[t].stat == INIT && t !in s.busy
    ensures Inv(StartupBegin(s, t))
  {
    var th := WithPriority(s.thr[t], s.thr[t].init).(stat := SUSPEND);
    assert ThreadOk(s, t);
    InitDetached(s, t);
    RestInv(s, t, th);
    ResumeBeginInv(SetThread(s, t, th), t);
  }

  lemma CloseBeginInv(s: Sched, t: Tid)
    requires Inv(s) && t in s.thr && s.thr[t].stat != CLOSE && t !in s.busy && !s.thr[t].timer
    ensures Inv(CloseBegin(s, t))
  {
    assert ThreadOk(s, t);
    var s1 := if s.thr[t].stat != INIT then Remove(s, t) else s;
    if s.thr[t].stat != INIT {
      InvGivesInvBut(s, t);
      RemoveDetaches(s, t);
    } else {
      InitDetached(s, t);
    }
    BusyDetached(s1, t, s1.busy[t := Closing]);
    ClosingRests(s1.(busy := s1.busy[t := Closing]), t);
  }

  lemma ClosingRests(s: Sched, t: Tid)
    requires Detached(s, t) && t in s.busy && s.busy[t].Closing? && s.thr[t].stat != CLOSE && !s.thr[t].timer
    requires Runs(s.thr[t].stat) ==> s.thr[t].mask == Mask(s.thr[t].cur)
    ensures Inv(s)
  {
    forall x | x in s.thr ensures ThreadOk(s, x) {
    }
  }

  lemma CloseEndInv(s: Sched, t: Tid, dynamic: bool)
    requires Inv(s) && t in s.busy && s.busy[t].Closing?
    ensures Inv(CloseEnd(s, t, dynamic))
  {
    BusyIsDetached(s, t);
    CloseFrom(s.(busy := s.busy - {t}), t, dynamic);
  }

  lemma OrSame(g: bv32, p: Prio)
    requires Bit(g, p)
    ensures g | Mask(p) == g
  {
  }

  lemma YieldInv(s: Sched, t: Tid)
    requires Inv(s) && t in s.thr && t !in s.busy
    ensures Inv(Yield(s, t))
  {
    var l := Ready(s.thr[t].cur);
    if s.thr[t].stat == READY && |s.lists[l]| > 1 {
      assert ThreadOk(s, t);
      InvGivesInvBut(s, t);
      RemoveDetaches(s, t);
      InsertInv(Remove(s, t), t);
      assert Bit(s.group, s.thr[t].cur);
      OrSame(s.group, s.thr[t].cur);
      var x := if s.lists[l][0] == t then s.lists[l][1] else s.lists[l][0];
      WithoutIn(s.lists[l], t, x);
      assert s.thr[t := s.thr[t].(stat := READY)] == s.thr;
      assert Yield(s, t) == Insert(Remove(s, t), t);
    }
  }

  // ----- What a reader of the invariant gets -----

  /** READY iff on the ready list of its own priority, half-done operations apart; on at most one list in any state. */
  lemma OneListPerThread(s: Sched, t: Tid)
    requires Inv(s) && t in s.thr
    ensures forall p: Prio :: On(s.lists, Ready(p), t) <==> s.thr[t].stat == READY && s.thr[t].cur == p && t !in s.busy
    ensures forall l, m :: On(s.lists, l, t) && On(s.lists, m, t) ==> l == m
    ensures forall l :: On(s.lists, l, t) ==> Fitting(s.thr[t], l) && t !in s.busy
    ensures forall l :: l in s.lists ==> NoDup(s.lists[l])
  {
    assert ThreadOk(s, t);
  }

  /** The lowest set bit of the bitmap: __rt_ffs(group) - 1. */
  ghost predicate IsLowestBit(g: bv32, p: Prio) {
    Bit(g, p) && forall q: Prio :: Bit(g, q) ==> p <= q
  }

  /** rt_schedule: the head of the list named by the lowest set bit is a most urgent ready thread. */
  lemma ScheduleMostUrgent(s: Sched, p: Prio)
    requires Inv(s) && IsLowestBit(s.group, p)
    ensures Ready(p) in s.lists && s.lists[Ready(p)] != []
    ensures var to := s.lists[Ready(p)][0];
      && to in s.thr && s.thr[to].stat == READY && s.thr[to].cur == p
      && forall t :: t in s.thr && s.thr[t].stat == READY && t !in s.busy ==> p <= s.thr[t].cur
  {
    assert Ready(p) in s.lists && s.lists[Ready(p)] != [];
    var to := s.lists[Ready(p)][0];
    assert On(s.lists, Ready(p), to);
    assert ThreadOk(s, to);
    forall t | t in s.thr && s.thr[t].stat == READY && t !in s.busy ensures p <= s.thr[t].cur {
      assert ThreadOk(s, t);
      assert Bit(s.group, s.thr[t].cur);
    }
  }
}
