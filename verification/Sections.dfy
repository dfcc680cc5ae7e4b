/**
  Operations on one thread that release the interrupt lock half way, rt-thread/kernel/src/thread.c,
  and what else may happen to the thread meanwhile: exactly which interleavings keep the invariant.
 */
module Sections {
  import opened Queues
  import opened Scheduler

  /**
    What is done to a thread under one lock.  A first section is preceded by the check of the state,
    and is skipped, with its last section, if the check fails.  The timer fires if it is armed.
   */
  datatype Section =
    | Fire
    | ResumeFirst | ResumeLast
    | StartFirst
    | CloseFirst | CloseLast
    | Reprioritise(p: Prio)
    | SuspendIt

  function DoSection(s: Sched, t: Tid, dynamic: bool, x: Section): (r: Sched)
    requires t in s.thr && HasReadyLists(s)
    ensures t in r.thr && HasReadyLists(r)
  {
    var th := s.thr[t];
    match x
    case Fire => if th.timer then Timeout(s, t) else s
    case ResumeFirst => if th.stat == SUSPEND then ResumeBegin(s, t) else s
    case ResumeLast => ResumeEnd(s, t)
    case StartFirst => if th.stat == INIT then StartupBegin(s, t) else s
    case CloseFirst => if th.stat == CLOSE then s else CloseBegin(s, t)
    case CloseLast => CloseEnd(s, t, dynamic)
    case Reprioritise(p) => ChangePriority(s, t, p)
    case SuspendIt => Suspend(s, t)
  }

  // ----- What decides: four facts about the thread -----

  /** linked: on some list.  masked: its number_mask is that of its current priority. */
  datatype Spot = Spot(stat: Stat, linked: bool, timer: bool, masked: bool)

  ghost function SpotOf(s: Sched, t: Tid): Spot
    requires t in s.thr
  {
    var th := s.thr[t];
    Spot(th.stat, !OnNone(s.lists, t), th.timer, th.mask == Mask(th.cur))
  }

  /** Only a last section can do harm: it links, or closes, a thread that is linked already. */
  predicate Clash(sp: Spot, dynamic: bool, x: Section) {
    match x
    case ResumeLast => sp.linked || sp.timer || !sp.masked
    case CloseLast => sp.linked && (dynamic || sp.stat != CLOSE)
    case _ => false
  }

  function Next(sp: Spot, dynamic: bool, x: Section): Spot {
    match x
    case Fire => if sp.timer then Spot(READY, true, false, sp.masked) else sp
    case ResumeFirst => if sp.stat == SUSPEND then sp.(linked := false, timer := false) else sp
    case ResumeLast => sp.(stat := READY, linked := true)
    case StartFirst => if sp.stat == INIT then Spot(SUSPEND, false, false, true) else sp
    case CloseFirst => if Runs(sp.stat) then sp.(linked := false) else sp
    case CloseLast => sp.(stat := CLOSE, linked := sp.linked || dynamic, timer := false)
    case Reprioritise(_) => sp.(linked := sp.linked || sp.stat == READY, masked := true)
    case SuspendIt => if sp.stat == READY then Spot(SUSPEND, false, false, sp.masked) else sp
  }

  // ----- One section -----

  /** A thread on no list, with a record that makes sense, is a state of affairs that the others do not notice. */
  lemma DetachedInvBut(s: Sched, t: Tid)
    requires Detached(s, t)
    requires Runs(s.thr[t].stat) ==> s.thr[t].mask == Mask(s.thr[t].cur)
    requires s.thr[t].timer ==> s.thr[t].stat == SUSPEND
    ensures InvBut(s, t) && OnNone(s.lists, t)
  {
  }

  lemma InvButOff(s: Sched, t: Tid)
    requires InvBut(s, t) && OnNone(s.lists, t)
    ensures Detached(s, t)
  {
  }

  /** Inserting works for a thread on no list, whatever operations are half way through with it. */
  lemma InsertInvBut(s: Sched, t: Tid)
    requires Detached(s, t) && s.thr[t].mask == Mask(s.thr[t].cur) && !s.thr[t].timer
    ensures InvBut(Insert(s, t), t) && On(Insert(s, t).lists, Ready(s.thr[t].cur), t)
  {
    var s1 := s.(busy := s.busy - {t});
    BusyDetached(s, t, s.busy - {t});
    InsertInv(s1, t);
    var r1, r := Insert(s1, t), Insert(s, t);
    InvGivesInvBut(r1, t);
    LinkOn(s.lists, Ready(s.thr[t].cur), |s.lists[Ready(s.thr[t].cur)]|, t);
    MarkInvBut(r1, t, s.busy);
    assert r1.(busy := s.busy) == r;
  }

  /** The marks of half-done operations on t do not matter. */
  lemma MarkInvBut(s: Sched, t: Tid, busy: map<Tid, Phase>)
    requires InvBut(s, t) && busy.Keys <= s.thr.Keys
    requires forall x :: x != t ==> (x in busy <==> x in s.busy) && (x in busy ==> busy[x] == s.busy[x])
    ensures InvBut(s.(busy := busy), t)
  {
    forall x | x in s.thr && x != t ensures ThreadOk(s.(busy := busy), x) {
      assert ThreadOk(s, x);
    }
  }

  /** A linked thread that is inserted is linked twice. */
  lemma InsertTwice(s: Sched, t: Tid)
    requires InvBut(s, t) && !OnNone(s.lists, t)
    ensures !ListsOk(Insert(s, t).lists)
  {
    var l, r := Ready(s.thr[t].cur), Insert(s, t);
    var q, m :| On(s.lists, m, t) && q == s.lists[l];
    LinkOn(s.lists, l, |q|, t);
    if m == l {
      var i :| 0 <= i < |q| && q[i] == t;
      assert r.lists[l][i] == t && r.lists[l][|q|] == t;
      assert !NoDup(r.lists[l]);
    } else {
      assert On(r.lists, l, t) && On(r.lists, m, t);
    }
  }

  /** The section keeps the invariant exactly if there is no clash, and then moves the spot as said. */
  ghost predicate AsSaid(s: Sched, t: Tid, dynamic: bool, x: Section)
    requires t in s.thr && HasReadyLists(s)
  {
    var r := DoSection(s, t, dynamic, x);
    && (InvBut(r, t) <==> !Clash(SpotOf(s, t), dynamic, x))
    && (InvBut(r, t) ==> SpotOf(r, t) == Next(SpotOf(s, t), dynamic, x))
  }

  lemma FireAsSaid(s: Sched, t: Tid, dynamic: bool)
    requires InvBut(s, t)
    ensures AsSaid(s, t, dynamic, Fire)
  {
    if s.thr[t].timer {
      var th := s.thr[t].(error := ETIMEOUT, timer := false);
      UnlinkDetaches(s, t);
      DisarmDetached(s.(lists := Unlink(s.lists, t)), t, th);
      InsertInvBut(SetThread(s.(lists := Unlink(s.lists, t)), t, th), t);
    }
  }

  lemma ResumeFirstAsSaid(s: Sched, t: Tid, dynamic: bool)
    requires InvBut(s, t)
    ensures AsSaid(s, t, dynamic, ResumeFirst)
  {
    if s.thr[t].stat == SUSPEND {
      var s1 := s.(lists := Unlink(s.lists, t));
      UnlinkDetaches(s, t);
      DisarmDetached(s1, t, s.thr[t].(timer := false));
      var s2 := SetThread(s1, t, s.thr[t].(timer := false));
      BusyDetached(s2, t, s.busy[t := Resuming]);
      DetachedInvBut(s2.(busy := s.busy[t := Resuming]), t);
    }
  }

  lemma ResumeLastAsSaid(s: Sched, t: Tid, dynamic: bool)
    requires InvBut(s, t)
    ensures AsSaid(s, t, dynamic, ResumeLast)
  {
    var s1, sp := s.(busy := s.busy - {t}), SpotOf(s, t);
    if sp.linked {
      MarkInvBut(s, t, s1.busy);
      InsertTwice(s1, t);
    } else if !sp.timer && sp.masked {
      InvButOff(s, t);
      BusyDetached(s, t, s1.busy);
      InsertInvBut(s1, t);
    }
  }

  lemma StartFirstAsSaid(s: Sched, t: Tid, dynamic: bool)
    requires InvBut(s, t)
    ensures AsSaid(s, t, dynamic, StartFirst)
  {
    if s.thr[t].stat == INIT {
      var th := WithPriority(s.thr[t], s.thr[t].init).(stat := SUSPEND);
      InvButOff(s, t);
      DisarmDetached(s, t, th);
      DetachedInvBut(SetThread(s, t, th), t);
      ResumeFirstAsSaid(SetThread(s, t, th), t, dynamic);
    }
  }

  lemma CloseFirstAsSaid(s: Sched, t: Tid, dynamic: bool)
    requires InvBut(s, t)
    ensures AsSaid(s, t, dynamic, CloseFirst)
  {
    if Runs(s.thr[t].stat) {
      RemoveDetaches(s, t);
      var s1 := Remove(s, t);
      BusyDetached(s1, t, s1.busy[t := Closing]);
      DetachedInvBut(s1.(busy := s1.busy[t := Closing]), t);
    } else if s.thr[t].stat == INIT {
      MarkInvBut(s, t, s.busy[t := Closing]);
    }
  }

  lemma CloseLastAsSaid(s: Sched, t: Tid, dynamic: bool)
    requires InvBut(s, t)
    ensures AsSaid(s, t, dynamic, CloseLast)
  {
    var s1 := s.(busy := s.busy - {t});
    var s2 := SetThread(s1, t, s.thr[t].(stat := CLOSE, timer := false));
    MarkInvBut(s, t, s1.busy);
    if OnNone(s.lists, t) {
      InvButOff(s1, t);
      DisarmDetached(s1, t, s2.thr[t]);
      CloseFrom(s1, t, dynamic);
      InvGivesInvBut(CloseEnd(s, t, dynamic), t);
      if dynamic {
        LinkOn(s.lists, Defunct, 0, t);
        assert On(CloseEnd(s, t, dynamic).lists, Defunct, t);
      }
    } else {
      CloseLinkedAsSaid(s1, s2, t, dynamic);
    }
  }

  lemma CloseLinkedAsSaid(s: Sched, s2: Sched, t: Tid, dynamic: bool)
    requires InvBut(s, t) && !OnNone(s.lists, t)
    requires s2 == SetThread(s, t, s.thr[t].(stat := CLOSE, timer := false))
    ensures InvBut(CloseLinked(s, t, dynamic), t) <==> !dynamic && s.thr[t].stat == CLOSE
  {
    var m :| On(s.lists, m, t);
    var r := CloseLinked(s, t, dynamic);
    if dynamic {
      LinkOn(s.lists, Defunct, 0, t);
      if m == Defunct {
        var q := s.lists[Defunct];
        var i :| 0 <= i < |q| && q[i] == t;
        assert r.lists[m][0] == t && r.lists[m][i + 1] == t;
        assert !NoDup(r.lists[m]);
      } else {
        assert On(r.lists, Defunct, t) && On(r.lists, m, t);
      }
    } else if s.thr[t].stat == CLOSE {
      assert r == s by { assert s.thr[t := s.thr[t]] == s.thr; }
    } else {
      assert On(r.lists, m, t) && !Fitting(r.thr[t], m);
    }
  }

  lemma ReprioritiseAsSaid(s: Sched, t: Tid, dynamic: bool, p: Prio)
    requires InvBut(s, t)
    ensures AsSaid(s, t, dynamic, Reprioritise(p))
  {
    var th := WithPriority(s.thr[t], p);
    if s.thr[t].stat == READY {
      RemoveDetaches(s, t);
      DisarmDetached(Remove(s, t), t, th);
      InsertInvBut(SetThread(Remove(s, t), t, th), t);
    } else {
      var r := SetThread(s, t, th);
      forall x | x in r.thr && x != t ensures ThreadOk(r, x) {
        assert ThreadOk(s, x);
      }
    }
  }

  lemma SuspendAsSaid(s: Sched, t: Tid, dynamic: bool)
    requires InvBut(s, t)
    ensures AsSaid(s, t, dynamic, SuspendIt)
  {
    if s.thr[t].stat == READY {
      var th := s.thr[t].(stat := SUSPEND, timer := false);
      RemoveDetaches(s, t);
      DisarmDetached(Remove(s, t), t, th);
      DetachedInvBut(SetThread(Remove(s, t), t, th), t);
    }
  }

  lemma SectionExact(s: Sched, t: Tid, dynamic: bool, x: Section)
    requires InvBut(s, t)
    ensures AsSaid(s, t, dynamic, x)
  {
    match x
    case Fire => FireAsSaid(s, t, dynamic);
    case ResumeFirst => ResumeFirstAsSaid(s, t, dynamic);
    case ResumeLast => ResumeLastAsSaid(s, t, dynamic);
    case StartFirst => StartFirstAsSaid(s, t, dynamic);
    case CloseFirst => CloseFirstAsSaid(s, t, dynamic);
    case CloseLast => CloseLastAsSaid(s, t, dynamic);
    case Reprioritise(p) => ReprioritiseAsSaid(s, t, dynamic, p);
    case SuspendIt => SuspendAsSaid(s, t, dynamic);
  }

  // ----- Any interleaving -----

  /** Between lists or on one, thread t is as the invariant wants it after each of the sections. */
  ghost predicate StaysSound(s: Sched, t: Tid, dynamic: bool, xs: seq<Section>)
    requires t in s.thr && HasReadyLists(s)
    decreases |xs|
  {
    InvBut(s, t) && (xs != [] ==> StaysSound(DoSection(s, t, dynamic, xs[0]), t, dynamic, xs[1..]))
  }

  predicate ClashFree(sp: Spot, dynamic: bool, xs: seq<Section>)
    decreases |xs|
  {
    xs != [] ==> !Clash(sp, dynamic, xs[0]) && ClashFree(Next(sp, dynamic, xs[0]), dynamic, xs[1..])
  }

  /**
    Sections of any number of operations on t, in any order, keep the invariant all the way exactly if
    none of them clashes, and that can be told beforehand from four facts about t.
   */
  lemma {:induction false} InterleavingExact(s: Sched, t: Tid, dynamic: bool, xs: seq<Section>)
    requires InvBut(s, t)
    ensures StaysSound(s, t, dynamic, xs) <==> ClashFree(SpotOf(s, t), dynamic, xs)
    decreases |xs|
  {
    if xs != [] {
      SectionExact(s, t, dynamic, xs[0]);
      if InvBut(DoSection(s, t, dynamic, xs[0]), t) {
        InterleavingExact(DoSection(s, t, dynamic, xs[0]), t, dynamic, xs[1..]);
      }
    }
  }

  // ----- One call under way and others in between -----

  /** What others may do to the thread; Expiry is that of its timer, CloseCall a delete or a detach. */
  datatype Call = Nothing | Expiry | ResumeCall | StartCall | CloseCall | ChangeCall(p: Prio) | SuspendCall

  /** The calls that unlock half way. */
  predicate Split(c: Call) {
    c.ResumeCall? || c.StartCall? || c.CloseCall?
  }

  /** The check of the state that such a call begins with. */
  predicate Passes(c: Call, stat: Stat)
    requires Split(c)
  {
    match c
    case ResumeCall => stat == SUSPEND
    case StartCall => stat == INIT
    case CloseCall => stat != CLOSE
  }

  function First(c: Call): Section
    requires Split(c)
  {
    match c
    case ResumeCall => ResumeFirst
    case StartCall => StartFirst
    case CloseCall => CloseFirst
  }

  function Last(c: Call): Section
    requires Split(c)
  {
    if c.CloseCall? then CloseLast else ResumeLast
  }

  /** The only section of any other call. */
  function Only(c: Call): Section
    requires !Split(c) && !c.Nothing?
  {
    match c
    case Expiry => Fire
    case ChangeCall(p) => Reprioritise(p)
    case SuspendCall => SuspendIt
  }

  /** A call from its beginning to its end. */
  function Whole(s: Sched, t: Tid, dynamic: bool, c: Call): (r: Sched)
    requires t in s.thr && HasReadyLists(s)
    ensures t in r.thr && HasReadyLists(r)
  {
    if c.Nothing? then s
    else if !Split(c) then DoSection(s, t, dynamic, Only(c))
    else if !Passes(c, s.thr[t].stat) then s
    else DoSection(DoSection(s, t, dynamic, First(c)), t, dynamic, Last(c))
  }

  function Wholes(s: Sched, t: Tid, dynamic: bool, cs: seq<Call>): (r: Sched)
    requires t in s.thr && HasReadyLists(s)
    ensures t in r.thr && HasReadyLists(r)
    decreases |cs|
  {
    if cs == [] then s else Wholes(Whole(s, t, dynamic, cs[0]), t, dynamic, cs[1..])
  }

  /** Call c, between whose sections the calls cs are made on the same thread. */
  function Meeting(s: Sched, t: Tid, dynamic: bool, c: Call, cs: seq<Call>): Sched
    requires t in s.thr && HasReadyLists(s) && Split(c)
  {
    DoSection(Wholes(DoSection(s, t, dynamic, First(c)), t, dynamic, cs), t, dynamic, Last(c))
  }

  function SpotWhole(sp: Spot, dynamic: bool, c: Call): Spot {
    if c.Nothing? then sp
    else if !Split(c) then Next(sp, dynamic, Only(c))
    else if !Passes(c, sp.stat) then sp
    else Next(Next(sp, dynamic, First(c)), dynamic, Last(c))
  }

  function SpotWholes(sp: Spot, dynamic: bool, cs: seq<Call>): Spot
    decreases |cs|
  {
    if cs == [] then sp else SpotWholes(SpotWhole(sp, dynamic, cs[0]), dynamic, cs[1..])
  }

  /** A call that nothing interrupts does no harm, whatever is half way through with the thread. */
  lemma WholeSound(s: Sched, t: Tid, dynamic: bool, c: Call)
    requires InvBut(s, t)
    ensures InvBut(Whole(s, t, dynamic, c), t)
    ensures SpotOf(Whole(s, t, dynamic, c), t) == SpotWhole(SpotOf(s, t), dynamic, c)
  {
    if c.Nothing? {
    } else if !Split(c) {
      SectionExact(s, t, dynamic, Only(c));
    } else if Passes(c, s.thr[t].stat) {
      SectionExact(s, t, dynamic, First(c));
      SectionExact(DoSection(s, t, dynamic, First(c)), t, dynamic, Last(c));
    }
  }

  lemma {:induction false} WholesSound(s: Sched, t: Tid, dynamic: bool, cs: seq<Call>)
    requires InvBut(s, t)
    ensures InvBut(Wholes(s, t, dynamic, cs), t)
    ensures SpotOf(Wholes(s, t, dynamic, cs), t) == SpotWholes(SpotOf(s, t), dynamic, cs)
    decreases |cs|
  {
    if cs != [] {
      WholeSound(s, t, dynamic, cs[0]);
      WholesSound(Whole(s, t, dynamic, cs[0]), t, dynamic, cs[1..]);
    }
  }

  /** After a last section the thread is where it belongs. */
  lemma LastSettles(s: Sched, t: Tid, dynamic: bool, c: Call)
    requires InvBut(s, t) && Split(c)
    ensures Inv(DoSection(s, t, dynamic, Last(c))) <==> !Clash(SpotOf(s, t), dynamic, Last(c))
  {
    var r := DoSection(s, t, dynamic, Last(c));
    SectionExact(s, t, dynamic, Last(c));
    if Inv(r) {
      InvGivesInvBut(r, t);
    } else if InvBut(r, t) {
      assert ThreadOk(r, t);
    }
  }

  /** A call keeps the invariant, whatever is called in between and how often, exactly if its end does not clash. */
  lemma MeetingExact(s: Sched, t: Tid, dynamic: bool, c: Call, cs: seq<Call>)
    requires Inv(s) && t in s.thr && Split(c) && Passes(c, s.thr[t].stat)
    ensures Inv(Meeting(s, t, dynamic, c, cs)) <==>
      !Clash(SpotWholes(Next(SpotOf(s, t), dynamic, First(c)), dynamic, cs), dynamic, Last(c))
  {
    InvGivesInvBut(s, t);
    SectionExact(s, t, dynamic, First(c));
    var s1 := DoSection(s, t, dynamic, First(c));
    WholesSound(s1, t, dynamic, cs);
    LastSettles(Wholes(s1, t, dynamic, cs), t, dynamic, c);
  }

  /** Whether call c stands call d between its sections, by the state of the thread before call c. */
  predicate Stands(stat: Stat, timer: bool, dynamic: bool, c: Call, d: Call) {
    match d
    case Nothing => true
    case SuspendCall => true
    case Expiry => c.CloseCall? ==> !timer
    case ResumeCall => c.CloseCall? && stat != SUSPEND
    case StartCall => c.CloseCall? ==> stat != INIT
    case ChangeCall(_) => c.CloseCall? ==> stat != READY
    case CloseCall => !dynamic
  }

  /** What the invariant says of the spot. */
  predicate Sensible(sp: Spot) {
    (sp.timer ==> sp.stat == SUSPEND) && (sp.stat == INIT ==> !sp.linked) && (Runs(sp.stat) ==> sp.masked)
  }

  lemma SpotSensible(s: Sched, t: Tid)
    requires Inv(s) && t in s.thr
    ensures Sensible(SpotOf(s, t))
  {
    assert ThreadOk(s, t);
  }

  lemma StandsExact(sp: Spot, dynamic: bool, c: Call, d: Call)
    requires Sensible(sp) && Split(c) && Passes(c, sp.stat)
    ensures Clash(SpotWhole(Next(sp, dynamic, First(c)), dynamic, d), dynamic, Last(c)) <==>
      !Stands(sp.stat, sp.timer, dynamic, c, d)
  {
  }

  lemma SpotWholeOne(sp: Spot, dynamic: bool, d: Call)
    ensures SpotWholes(sp, dynamic, [d]) == SpotWhole(sp, dynamic, d)
  {
    assert [d][1..] == [] && SpotWholes(SpotWhole(sp, dynamic, d), dynamic, []) == SpotWhole(sp, dynamic, d);
  }

  lemma OneCallBetween(s: Sched, t: Tid, dynamic: bool, c: Call, d: Call)
    requires Inv(s) && t in s.thr && Split(c) && Passes(c, s.thr[t].stat)
    ensures Inv(Meeting(s, t, dynamic, c, [d])) <==> Stands(s.thr[t].stat, s.thr[t].timer, dynamic, c, d)
  {
    SpotSensible(s, t);
    MeetingExact(s, t, dynamic, c, [d]);
    SpotWholeOne(Next(SpotOf(s, t), dynamic, First(c)), dynamic, d);
    StandsExact(SpotOf(s, t), dynamic, c, d);
  }

  // ----- The calls that do not stand each other -----

  lemma MeetingOne(s: Sched, t: Tid, dynamic: bool, c: Call, d: Call)
    requires t in s.thr && HasReadyLists(s) && Split(c)
    ensures Meeting(s, t, dynamic, c, [d]) ==
      DoSection(Whole(DoSection(s, t, dynamic, First(c)), t, dynamic, d), t, dynamic, Last(c))
  {
    var s1 := Whole(DoSection(s, t, dynamic, First(c)), t, dynamic, d);
    assert [d][1..] == [] && Wholes(s1, t, dynamic, []) == s1;
  }

  /** The timer of a thread that is being deleted fires. */
  lemma CloseMeetsTimer(s: Sched, t: Tid, dynamic: bool)
    requires Inv(s) && t in s.thr && s.thr[t].timer
    ensures !Inv(CloseEnd(Timeout(CloseBegin(s, t), t), t, dynamic))
  {
    SpotSensible(s, t);
    OneCallBetween(s, t, dynamic, CloseCall, Expiry);
    MeetingOne(s, t, dynamic, CloseCall, Expiry);
  }

  /** A thread is resumed again between the sections of a resume: it is twice on its ready list. */
  lemma ResumedTwice(s: Sched, t: Tid)
    requires Inv(s) && t in s.thr && s.thr[t].stat == SUSPEND
    ensures !Inv(ResumeEnd(ResumeEnd(ResumeBegin(ResumeBegin(s, t), t), t), t))
  {
    OneCallBetween(s, t, false, ResumeCall, ResumeCall);
    MeetingOne(s, t, false, ResumeCall, ResumeCall);
  }

  /**
    All the pairs: while a thread is being deleted its timer fires, it is resumed, it gets another priority,
    it is started or it is deleted again; while it is being resumed it is resumed again or deleted.
   */
  lemma Incompatible(s: Sched, t: Tid, dynamic: bool, p: Prio)
    requires Inv(s) && t in s.thr
    ensures s.thr[t].timer ==> !Inv(Meeting(s, t, dynamic, CloseCall, [Expiry]))
    ensures s.thr[t].stat == SUSPEND ==> !Inv(Meeting(s, t, dynamic, CloseCall, [ResumeCall]))
    ensures s.thr[t].stat == READY ==> !Inv(Meeting(s, t, dynamic, CloseCall, [ChangeCall(p)]))
    ensures s.thr[t].stat == INIT ==> !Inv(Meeting(s, t, dynamic, CloseCall, [StartCall]))
    ensures s.thr[t].stat != CLOSE && dynamic ==> !Inv(Meeting(s, t, dynamic, CloseCall, [CloseCall]))
    ensures s.thr[t].stat == SUSPEND ==> !Inv(Meeting(s, t, dynamic, ResumeCall, [ResumeCall]))
    ensures s.thr[t].stat == SUSPEND && dynamic ==> !Inv(Meeting(s, t, dynamic, ResumeCall, [CloseCall]))
  {
    SpotSensible(s, t);
    if s.thr[t].stat != CLOSE {
      OneCallBetween(s, t, dynamic, CloseCall, Expiry);
      OneCallBetween(s, t, dynamic, CloseCall, ResumeCall);
      OneCallBetween(s, t, dynamic, CloseCall, ChangeCall(p));
      OneCallBetween(s, t, dynamic, CloseCall, StartCall);
      OneCallBetween(s, t, dynamic, CloseCall, CloseCall);
    }
    if s.thr[t].stat == SUSPEND {
      OneCallBetween(s, t, dynamic, ResumeCall, ResumeCall);
      OneCallBetween(s, t, dynamic, ResumeCall, CloseCall);
    }
  }

  /** A resume and a delete that cross, neither inside the other, break the invariant too. */
  lemma ResumeCrossesClose(s: Sched, t: Tid, dynamic: bool)
    requires Inv(s) && t in s.thr && s.thr[t].stat == SUSPEND
    ensures !StaysSound(s, t, dynamic, [ResumeFirst, CloseFirst, ResumeLast, CloseLast])
  {
    InvGivesInvBut(s, t);
    var xs := [ResumeFirst, CloseFirst, ResumeLast, CloseLast];
    InterleavingExact(s, t, dynamic, xs);
    assert xs[1..] == [CloseFirst, ResumeLast, CloseLast];
    assert xs[1..][1..] == [ResumeLast, CloseLast];
    assert xs[1..][1..][1..] == [CloseLast];
  }

  // ----- Checks made before the lock -----

  /**
    rt_thread_resume looks at the state before it locks.  If the thread has become ready meanwhile, the
    bitmap is right after the first section exactly if another thread shares its list.
   */
  lemma StaleResume(s: Sched, t: Tid)
    requires Inv(s) && CanRun(s, t)
    ensures BitmapOk(ResumeBegin(s, t).lists, s.group) <==> |s.lists[Ready(s.thr[t].cur)]| > 1
  {
    var r, c := ResumeBegin(s, t), s.thr[t].cur;
    var q := s.lists[Ready(c)];
    assert ThreadOk(s, t);
    assert Bit(s.group, c) && t in q;
    if |q| > 1 {
      var x := if q[0] == t then q[1] else q[0];
      WithoutIn(q, t, x);
      StaleOthers(s, t, r);
    } else {
      assert q == [t] && q[1..] == [];
      assert Without(q, t) == Without(q[1..], t);
      assert Ready(c) in r.lists && r.lists[Ready(c)] == [];
    }
  }

  lemma StaleOthers(s: Sched, t: Tid, r: Sched)
    requires Inv(s) && CanRun(s, t) && r.lists == Unlink(s.lists, t) && r.lists[Ready(s.thr[t].cur)] != []
    ensures BitmapOk(r.lists, s.group)
  {
    assert ThreadOk(s, t);
    forall p: Prio ensures Ready(p) in r.lists && (r.lists[Ready(p)] == [] <==> s.lists[Ready(p)] == []) {
      assert Ready(p) in s.lists;
      if p != s.thr[t].cur {
        assert !On(s.lists, Ready(p), t);
        WithoutAbsent(s.lists[Ready(p)], t);
      }
    }
    BitmapSame(s.lists, r.lists, s.group);
  }

  /**
    If the thread has blocked since the check, it is taken off its wait queue and its timer is stopped.
    The invariant holds, and nothing is left that would wake it.
   */
  lemma StaleSuspend(s: Sched, t: Tid)
    requires Inv(s) && t in s.thr && s.thr[t].stat == SUSPEND && t !in s.busy
    ensures Inv(SuspendNow(s, t)) && Stranded(SuspendNow(s, t), t)
  {
    InvGivesInvBut(s, t);
    RemoveDetaches(s, t);
    RestInv(Remove(s, t), t, s.thr[t].(stat := SUSPEND, timer := false));
  }

  /** Suspended, on no list, with no timer. */
  ghost predicate Stranded(s: Sched, t: Tid) {
    t in s.thr && s.thr[t].stat == SUSPEND && !s.thr[t].timer && OnNone(s.lists, t) && t !in s.busy
  }
}
