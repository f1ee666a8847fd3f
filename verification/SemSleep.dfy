/**
 The sleeping end of semop(): a task reads queue.status without the lock, and once more
 under it, before it takes its call off the queue; wakeups, signals, timeouts and IPC_RMID
 may come in between. Any number of tasks over one set, for its whole life.
 */
module SemSleepers {
  import opened Options
  import opened SemOps
  import opened SemEval
  import opened SemSet
  import opened SemWakeup
  import opened SemCalls
  import opened SemRuns
  import opened SemPlaces

  datatype Pc =
    | Idle
    | Asleep(e: Entry)  // in schedule()
    | Unsure(e: Entry)  // read EINTR without the lock

  /** issued bounds the ids of the calls so far; ended lists the calls that slept and returned. */
  datatype Sys = Sys(full: Full, valid: bool, pcs: seq<Pc>, issued: nat, ended: seq<Wake>)

  datatype Move =
    | Call(e: Entry)
    | Look                 // schedule() returned, for whatever reason
    | Relock(timedOut: bool, signal: bool, loc: Loc, alters: bool, k: nat)  // the call's node is there, if it is queued
    | Other(a: Action)     // SETVAL, SETALL, undo rows
    | Rmid

  /** What the task of a sleeping call finds in queue.status */
  ghost function Reads(s: Sys, e: Entry): int {
    StatusNow(s.full.st.woken, e)
  }

  predicate Stays(timedOut: bool, signal: bool) {
    !timedOut && !signal
  }

  ghost predicate Can(s: Sys, t: nat, m: Move)
    requires Inv(s.full)
  {
    match m
    case Call(e) => s.valid && t < |s.pcs| && s.pcs[t].Idle? && e.id == s.issued && Enabled(s.full, Semop(e))
    case Look => t < |s.pcs| && s.pcs[t].Asleep?
    case Relock(timedOut, signal, loc, alters, k) =>
      && t < |s.pcs| && s.pcs[t].Unsure?
      && (s.valid && Reads(s, s.pcs[t].e) == -EINTR && !Stays(timedOut, signal) ==>
            QueuedAt(s.full.st, s.pcs[t].e, loc, alters, k))
    case Other(a) => s.valid && !a.Semop? && !a.Interrupt? && Enabled(s.full, a)
    case Rmid => s.valid
  }

  // ---------- Steps ----------

  ghost predicate SectionOk(f: Full, n: int) {
    Inv(f) && (TakesGlobal(f, n) || (f.st.complex == 0 && f.st.alter == []))
  }

  /** A section that changes nothing */
  lemma PassOk(f: Full, n: int)
    requires Inv(f)
    ensures SectionOk(f, n) && Section(f, n, f.st).st == f.st
  {
    LeaveInv(f, n, f.st);
    UnmergeIdle(f.st);
  }

  ghost function Passed(f: Full, n: int): (r: Full)
    requires Inv(f)
    ensures Inv(r) && r.st == f.st
  {
    PassOk(f, n);
    Section(f, n, f.st)
  }

  lemma PassIs(f: Full, n: int)
    requires Inv(f)
    ensures TakesGlobal(f, n) ==> Placeable(|f.st.semAlter|, f.st.alter) && Enter(f, n).lock > 0
    ensures Enter(f, n).st == f.st && Passed(f, n) == Leave(Enter(f, n), TakesGlobal(f, n))
  {
    PassOk(f, n);
    LeaveInv(f, n, f.st);
  }

  function Back(s: Sys, t: nat, e: Entry, status: int): Sys
    requires t < |s.pcs|
  {
    s.(pcs := s.pcs[t := Idle], ended := s.ended + [Wake(e, status)])
  }

  ghost function Act(s: Sys, t: nat, m: Move): (r: Sys)
    requires Inv(s.full) && Can(s, t, m)
    ensures Inv(r.full) && |r.pcs| == |s.pcs|
  {
    match m
    case Call(e) =>
      s.(full := Step(s.full, Semop(e)), issued := s.issued + 1,
         pcs := if Queued(s.full, Semop(e)).Some? then s.pcs[t := Asleep(e)] else s.pcs)
    case Look =>
      var e := s.pcs[t].e;
      if Reads(s, e) != -EINTR then Back(s, t, e, Reads(s, e)) else s.(pcs := s.pcs[t := Unsure(e)])
    case Relock(timedOut, signal, loc, alters, k) =>
      var e := s.pcs[t].e;
      if !s.valid then Back(s.(full := Passed(s.full, |e.sops|)), t, e, -EINTR)
      else if Reads(s, e) != -EINTR then Back(s.(full := Passed(s.full, |e.sops|)), t, e, Reads(s, e))
      else if Stays(timedOut, signal) then s.(full := Passed(s.full, |e.sops|), pcs := s.pcs[t := Asleep(e)])
      else Back(s.(full := Step(s.full, Interrupt(loc, alters, k))), t, e, if timedOut then -EAGAIN else -EINTR)
    case Other(a) => s.(full := Step(s.full, a))
    case Rmid =>
      RemovedInv(s.full.st, USE_GLOBAL_LOCK_HYSTERESIS - 1);
      s.(full := Full(Removed(s.full.st), USE_GLOBAL_LOCK_HYSTERESIS - 1), valid := false)
  }

  // ---------- The invariant ----------

  ghost predicate CallsOk(st: State, issued: nat) {
    AllFinal(st.woken) && forall c :: Places(st, c) <= 1 && (Places(st, c) > 0 ==> c.id < issued)
  }

  predicate Inside(pcs: seq<Pc>, t: nat, e: Entry) {
    t < |pcs| && !pcs[t].Idle? && pcs[t].e == e
  }

  ghost predicate TasksOk(st: State, pcs: seq<Pc>) {
    && (forall t, e | Inside(pcs, t, e) :: Places(st, e) == 1)
    && (forall t, u, e | Inside(pcs, t, e) && Inside(pcs, u, e) :: t == u)
    && (forall c | Held(st, c) > 0 :: exists t :: Inside(pcs, t, c))
  }

  /** The call returned the status it was woken with; or it gave up and is nowhere; or its task
      had read EINTR when it was woken, and found the set gone. */
  ghost predicate Justly(st: State, valid: bool, w: Wake) {
    || w in st.woken
    || (Places(st, w.entry) == 0 && (w.status == -EINTR || w.status == -EAGAIN))
    || (!valid && Told(st.woken, w.entry) == 1 && w.status == -EINTR)
  }

  ghost predicate EndedOk(s: Sys) {
    && (forall j | 0 <= j < |s.ended| ::
          s.ended[j].entry.id < s.issued && Held(s.full.st, s.ended[j].entry) == 0 && Justly(s.full.st, s.valid, s.ended[j]))
    && (forall j, t | 0 <= j < |s.ended| :: !Inside(s.pcs, t, s.ended[j].entry))
    && (forall j, k | 0 <= j < k < |s.ended| :: s.ended[j].entry != s.ended[k].entry)
  }

  ghost predicate SleepInv(s: Sys) {
    && Inv(s.full)
    && CallsOk(s.full.st, s.issued)
    && TasksOk(s.full.st, s.pcs)
    && (!s.valid ==> forall c :: Held(s.full.st, c) == 0)
    && EndedOk(s)
  }

  lemma InvOf(s: Sys)
    requires SleepInv(s)
    ensures Inv(s.full)
  {
  }

  // ---------- What keeps it ----------

  ghost predicate Shifted(st: State, r: State) {
    (forall c :: Places(r, c) == Places(st, c) && Held(r, c) <= Held(st, c))
    && (AllFinal(st.woken) ==> AllFinal(r.woken)) && (forall w | w in st.woken :: w in r.woken)
  }

  lemma JustlyShifted(st: State, r: State, valid: bool, valid': bool, w: Wake)
    requires Shifted(st, r) && Justly(st, valid, w) && Places(st, w.entry) <= 1 && (valid' ==> valid)
    requires Held(st, w.entry) == 0
    ensures Justly(r, valid', w)
  {
  }

  lemma ShiftedInv(s: Sys, r: Sys)
    requires SleepInv(s) && Inv(r.full) && Shifted(s.full.st, r.full.st) && r.issued >= s.issued
    requires r.pcs == s.pcs && r.ended == s.ended && (r.valid ==> s.valid)
    requires !r.valid ==> forall c :: Held(r.full.st, c) == 0
    ensures SleepInv(r)
  {
    hide Inv, Held, Places, Shifted, Justly, AllFinal, Told;
    ShiftedSays(s.full.st, r.full.st);
    forall j | 0 <= j < |r.ended|
      ensures Justly(r.full.st, r.valid, r.ended[j]) && Held(r.full.st, r.ended[j].entry) == 0
    {
      assert Places(s.full.st, s.ended[j].entry) <= 1;
      JustlyShifted(s.full.st, r.full.st, s.valid, r.valid, s.ended[j]);
      assert Held(r.full.st, r.ended[j].entry) <= Held(s.full.st, r.ended[j].entry);
    }
    forall c | Held(r.full.st, c) > 0
      ensures exists t :: Inside(r.pcs, t, c)
    {
      assert Held(s.full.st, c) > 0;
    }
  }

  lemma ShiftedSays(st: State, r: State)
    requires Shifted(st, r)
    ensures forall c :: Places(r, c) == Places(st, c) && Held(r, c) <= Held(st, c)
    ensures AllFinal(st.woken) ==> AllFinal(r.woken)
  {
  }

  lemma GrownShifted(st: State, r: State)
    requires Grown(st.woken, r.woken) && forall c :: Places(r, c) == Places(st, c)
    ensures Shifted(st, r)
  {
    hide Grown, AllFinal, Told, Held;
    forall c
      ensures Held(r, c) <= Held(st, c)
    {
      ToldGrows(st.woken, r.woken, c);
      assert Places(r, c) == Places(st, c);
    }
    ToldGrows(st.woken, r.woken, Entry(0, [], None, false));
  }

  /** A section that neither queues a call nor takes one off */
  lemma IdleStep(s: Sys, a: Action, issued: nat)
    requires SleepInv(s) && s.valid && Enabled(s.full, a) && Queued(s.full, a).None? && GivenUp(s.full, a).None?
    requires issued >= s.issued
    ensures SleepInv(s.(full := Step(s.full, a), issued := issued))
  {
    hide Inv, Enabled, Step, Held, Places, Grown, Shifted, Queued, GivenUp, Justly, EndedOk, TasksOk, CallsOk;
    var r := Step(s.full, a).st;
    forall c
      ensures Places(r, c) == Places(s.full.st, c)
    {
      StepPlaces(s.full, a, c);
    }
    StepPlaces(s.full, a, Entry(0, [], None, false));
    GrownShifted(s.full.st, r);
    ShiftedInv(s, s.(full := Step(s.full, a), issued := issued));
  }

  lemma PassInv(s: Sys, n: int)
    requires SleepInv(s)
    ensures SleepInv(s.(full := Passed(s.full, n)))
  {
    hide Inv, Held, Places;
  }

  /** A task changes between asleep and unsure. */
  lemma TurnInv(s: Sys, t: nat, pc: Pc)
    requires SleepInv(s) && t < |s.pcs| && !s.pcs[t].Idle? && !pc.Idle? && pc.e == s.pcs[t].e
    ensures SleepInv(s.(pcs := s.pcs[t := pc]))
  {
    hide Inv, Held, Places, Justly, CallsOk;
    var r := s.pcs[t := pc];
    assert forall u, e :: Inside(r, u, e) <==> Inside(s.pcs, u, e);
  }

  /** A task whose call is on no queue returns. */
  lemma BackInv(s: Sys, t: nat, status: int)
    requires SleepInv(s) && t < |s.pcs| && !s.pcs[t].Idle? && Held(s.full.st, s.pcs[t].e) == 0
    requires Justly(s.full.st, s.valid, Wake(s.pcs[t].e, status))
    ensures SleepInv(Back(s, t, s.pcs[t].e, status))
  {
    hide Inv, Held, Places, Justly;
    var e, r := s.pcs[t].e, Back(s, t, s.pcs[t].e, status);
    assert Inside(s.pcs, t, e);
    assert forall u, c :: Inside(r.pcs, u, c) <==> Inside(s.pcs, u, c) && u != t;
    forall c | Held(r.full.st, c) > 0
      ensures exists u :: Inside(r.pcs, u, c)
    {
      var u :| Inside(s.pcs, u, c);
      assert Inside(r.pcs, u, c);
    }
    assert Places(s.full.st, e) == 1;
    assert e.id < s.issued;
  }

  /** The call that queues itself */
  lemma QueueStep(s: Sys, t: nat, e: Entry, f: Full)
    requires SleepInv(s) && s.valid && t < |s.pcs| && s.pcs[t].Idle? && e.id == s.issued
    requires Inv(f) && OneMore(s.full.st, f.st, e)
    ensures SleepInv(s.(full := f, issued := s.issued + 1, pcs := s.pcs[t := Asleep(e)]))
  {
    hide Inv, Held, Told, AllFinal, CallsOk, TasksOk, EndedOk, OneMore;
    var r := s.(full := f, issued := s.issued + 1, pcs := s.pcs[t := Asleep(e)]);
    FreshCall(s, e);
    QueuedCalls(s.full.st, f.st, s.issued, e);
    QueuedTasks(s.full.st, f.st, s.pcs, t, e);
    QueuedEnded(s, r, t, e);
  }

  lemma FreshCall(s: Sys, e: Entry)
    requires SleepInv(s) && e.id == s.issued
    ensures Places(s.full.st, e) == 0 && forall u :: !Inside(s.pcs, u, e)
  {
    hide Inv, Held, Told, AllFinal, EndedOk;
    assert Places(s.full.st, e) == 0;
  }

  ghost predicate OneMore(st: State, r: State, e: Entry) {
    r.woken == st.woken && forall c :: Held(r, c) == Held(st, c) + if c == e then 1 else 0
  }

  lemma QueuedCalls(st: State, r: State, issued: nat, e: Entry)
    requires CallsOk(st, issued) && OneMore(st, r, e) && Places(st, e) == 0 && e.id == issued
    ensures CallsOk(r, issued + 1)
  {
    hide Held, Told, AllFinal;
    forall c
      ensures Places(r, c) <= 1 && (Places(r, c) > 0 ==> c.id < issued + 1)
    {
      assert Held(r, c) == Held(st, c) + if c == e then 1 else 0;
      assert Places(st, c) <= 1;
    }
  }

  lemma QueuedTasks(st: State, r: State, pcs: seq<Pc>, t: nat, e: Entry)
    requires TasksOk(st, pcs) && OneMore(st, r, e) && Places(st, e) == 0 && t < |pcs| && pcs[t].Idle?
    ensures TasksOk(r, pcs[t := Asleep(e)])
  {
    hide Held, Told;
    var q := pcs[t := Asleep(e)];
    assert forall u, c :: Inside(q, u, c) <==> (u == t && c == e) || Inside(pcs, u, c);
    forall u, c | Inside(q, u, c)
      ensures Places(r, c) == 1
    {
      assert Held(r, c) == Held(st, c) + if c == e then 1 else 0;
    }
    forall c | Held(r, c) > 0
      ensures exists u :: Inside(q, u, c)
    {
      if c == e {
        assert Inside(q, t, c);
      } else {
        assert Held(r, c) == Held(st, c);
        var u :| Inside(pcs, u, c);
        assert Inside(q, u, c);
      }
    }
  }

  lemma QueuedEnded(s: Sys, r: Sys, t: nat, e: Entry)
    requires EndedOk(s) && OneMore(s.full.st, r.full.st, e) && t < |s.pcs| && e.id == s.issued
    requires r.ended == s.ended && r.issued == s.issued + 1 && r.valid == s.valid && r.pcs == s.pcs[t := Asleep(e)]
    ensures EndedOk(r)
  {
    hide Held, Justly;
    forall j | 0 <= j < |s.ended|
      ensures Held(r.full.st, s.ended[j].entry) == 0 && Justly(r.full.st, r.valid, s.ended[j]) && s.ended[j].entry != e
    {
      assert s.ended[j].entry.id < s.issued;
      assert Held(r.full.st, s.ended[j].entry) == Held(s.full.st, s.ended[j].entry);
      JustlyElsewhere(s.full.st, r.full.st, s.valid, e, s.ended[j]);
    }
    assert forall u, c :: Inside(r.pcs, u, c) ==> c == e || Inside(s.pcs, u, c);
  }

  /** Queueing wakes nobody. */
  lemma QueueKeeps(f: Full, e: Entry)
    requires Inv(f) && Enabled(f, Semop(e)) && Queued(f, Semop(e)).Some?
    ensures OneMore(f.st, Step(f, Semop(e)).st, e)
  {
    hide Inv, Enabled, Queued, Held, Step;
    QueueKeepsAt(f, e, e);
    forall c
      ensures Held(Step(f, Semop(e)).st, c) == Held(f.st, c) + if c == e then 1 else 0
    {
      QueueKeepsAt(f, e, c);
    }
  }

  lemma QueueKeepsAt(f: Full, e: Entry, c: Entry)
    requires Inv(f) && Enabled(f, Semop(e)) && Queued(f, Semop(e)).Some?
    ensures Step(f, Semop(e)).st.woken == f.st.woken
    ensures Held(Step(f, Semop(e)).st, c) == Held(f.st, c) + if c == e then 1 else 0
  {
    hide Good, Quiet, Held, Told, Enqueue, Section, SemEval.Status;
    CallFits(f, e);
    StepIsSection(f, e);
    EnqueueHeld(f.st, e, c);
    SectionPlaces(f, |e.sops|, Enqueue(f.st, e), c);
  }

  lemma CallFits(f: Full, e: Entry)
    requires Inv(f) && Enabled(f, Semop(e))
    ensures Good(f.st) && CanEval(f.st.store, e)
  {
  }

  lemma StepIsSection(f: Full, e: Entry)
    requires Inv(f) && Enabled(f, Semop(e)) && Queued(f, Semop(e)).Some?
    ensures Good(Enqueue(f.st, e)) && Quiet(Enqueue(f.st, e))
    ensures TakesGlobal(f, |e.sops|) || (Enqueue(f.st, e).complex == 0 && Enqueue(f.st, e).alter == [])
    ensures Step(f, Semop(e)) == Section(f, |e.sops|, Enqueue(f.st, e))
  {
    hide Good, Quiet, Section, Enqueue, CanEval, SemEval.Status;
    BodyInv(f, Semop(e));
  }

  lemma JustlyElsewhere(st: State, r: State, valid: bool, e: Entry, w: Wake)
    requires Justly(st, valid, w) && r.woken == st.woken && w.entry != e && Held(r, w.entry) == Held(st, w.entry)
    ensures Justly(r, valid, w)
  {
  }

  /** Giving up: the call is on its queue, is taken off, and its task returns. */
  lemma UnlinkStep(s: Sys, t: nat, m: Move)
    requires SleepInv(s) && m.Relock? && Can(s, t, m) && s.valid
    requires Reads(s, s.pcs[t].e) == -EINTR && !Stays(m.timedOut, m.signal)
    ensures SleepInv(Act(s, t, m))
  {
    hide Inv, Enabled, Step, Held, Told, Justly, GivenUp, Queued, AllFinal, QueuedAt;
    var st, r, e := s.full.st, Act(s, t, m), s.pcs[t].e;
    var a, st' := Interrupt(m.loc, m.alters, m.k), r.full.st;
    QueuedGivesUp(s.full, e, m.loc, m.alters, m.k);
    forall c
      ensures Held(st', c) == Held(st, c) - if c == e then 1 else 0
    {
      StepPlaces(s.full, a, c);
      assert Places(st', c) == Places(st, c) - if c == e then 1 else 0;
    }
    assert Inside(s.pcs, t, e);
    StatusTold(st.woken, e);
    assert forall u, c :: Inside(r.pcs, u, c) <==> Inside(s.pcs, u, c) && u != t;
    forall c | Held(st', c) > 0
      ensures exists u :: Inside(r.pcs, u, c)
    {
      var u :| Inside(s.pcs, u, c);
      assert Inside(r.pcs, u, c);
    }
    forall j | 0 <= j < |s.ended|
      ensures Held(st', s.ended[j].entry) == 0 && Justly(st', r.valid, s.ended[j])
    {
      JustlyElsewhere(st, st', s.valid, e, s.ended[j]);
    }
    GaveUp(st', r.valid, e, if m.timedOut then -EAGAIN else -EINTR);
  }

  lemma GaveUp(st: State, valid: bool, e: Entry, status: int)
    requires Places(st, e) == 0 && (status == -EINTR || status == -EAGAIN)
    ensures Justly(st, valid, Wake(e, status))
  {
  }

  lemma QueuedGivesUp(f: Full, e: Entry, loc: Loc, alters: bool, k: nat)
    requires Inv(f) && QueuedAt(f.st, e, loc, alters, k)
    ensures var a := Interrupt(loc, alters, k);
            && Enabled(f, a) && GivenUp(f, a) == Some(e) && Queued(f, a).None? && Step(f, a).st.woken == f.st.woken
  {
    hide Quiet, Held, Told;
    var a := Interrupt(loc, alters, k);
    BodyInv(f, a);
    SectionPlaces(f, Nsops(f, a), Body(f, a), e);
    InterruptPlaces(f, a, e);
  }

  lemma RmidStep(s: Sys, t: nat)
    requires SleepInv(s) && s.valid
    ensures SleepInv(Act(s, t, Rmid))
  {
    hide Held, Told, Grown, Shifted, Justly, AllFinal, Removed, EndedOk, TasksOk, CallsOk, Quiet;
    var st, r := s.full.st, Act(s, t, Rmid);
    forall c
      ensures Places(r.full.st, c) == Places(st, c) && Held(r.full.st, c) == 0
    {
      RemovedPlaces(st, c);
    }
    RemovedPlaces(st, Entry(0, [], None, false));
    GrownShifted(st, r.full.st);
    ShiftedInv(s, r);
  }

  /** A call whose status is there is on no queue. */
  lemma WokenOff(s: Sys, t: nat)
    requires SleepInv(s) && t < |s.pcs| && !s.pcs[t].Idle? && Reads(s, s.pcs[t].e) != -EINTR
    ensures Held(s.full.st, s.pcs[t].e) == 0 && Justly(s.full.st, s.valid, Wake(s.pcs[t].e, Reads(s, s.pcs[t].e)))
  {
    hide Inv, Held, Told;
    assert Inside(s.pcs, t, s.pcs[t].e);
    StatusTold(s.full.st.woken, s.pcs[t].e);
  }

  lemma GoneOff(s: Sys, t: nat)
    requires SleepInv(s) && !s.valid && t < |s.pcs| && !s.pcs[t].Idle?
    ensures Held(s.full.st, s.pcs[t].e) == 0 && Told(s.full.st.woken, s.pcs[t].e) == 1
    ensures Justly(s.full.st, s.valid, Wake(s.pcs[t].e, -EINTR)) && Reads(s, s.pcs[t].e) != -EINTR
  {
    hide Inv, Held, Told;
    assert Inside(s.pcs, t, s.pcs[t].e);
    StatusTold(s.full.st.woken, s.pcs[t].e);
  }

  lemma RelockStep(s: Sys, t: nat, m: Move)
    requires SleepInv(s) && m.Relock? && Can(s, t, m)
    ensures SleepInv(Act(s, t, m))
  {
    hide Inv, Held, Told, Justly, AllFinal, TasksOk, CallsOk, EndedOk, QueuedAt, Enabled, Step;
    var e := s.pcs[t].e;
    if !s.valid {
      PassInv(s, |e.sops|);
      GoneOff(s.(full := Passed(s.full, |e.sops|)), t);
      BackInv(s.(full := Passed(s.full, |e.sops|)), t, -EINTR);
    } else if Reads(s, e) != -EINTR {
      PassInv(s, |e.sops|);
      WokenOff(s, t);
      BackInv(s.(full := Passed(s.full, |e.sops|)), t, Reads(s, e));
    } else if Stays(m.timedOut, m.signal) {
      PassInv(s, |e.sops|);
      TurnInv(s.(full := Passed(s.full, |e.sops|)), t, Asleep(e));
    } else {
      UnlinkStep(s, t, m);
    }
  }

  lemma CallStep(s: Sys, t: nat, e: Entry)
    requires SleepInv(s) && Can(s, t, Call(e))
    ensures SleepInv(Act(s, t, Call(e)))
  {
    hide Inv, SleepInv, Enabled, Step, Can, Act, OneMore, Queued;
    CallSays(s, t, e);
    if Queued(s.full, Semop(e)).Some? {
      QueueKeeps(s.full, e);
      QueueStep(s, t, e, Step(s.full, Semop(e)));
    } else {
      IdleStep(s, Semop(e), s.issued + 1);
    }
  }

  lemma CallSays(s: Sys, t: nat, e: Entry)
    requires SleepInv(s) && Can(s, t, Call(e))
    ensures s.valid && t < |s.pcs| && s.pcs[t].Idle? && e.id == s.issued
    ensures Inv(s.full) && Enabled(s.full, Semop(e)) && GivenUp(s.full, Semop(e)).None?
    ensures Act(s, t, Call(e)) ==
            s.(full := Step(s.full, Semop(e)), issued := s.issued + 1,
               pcs := if Queued(s.full, Semop(e)).Some? then s.pcs[t := Asleep(e)] else s.pcs)
  {
    hide Enabled, Inv, Step, Queued, TasksOk, CallsOk, EndedOk;
  }

  lemma LookStep(s: Sys, t: nat)
    requires SleepInv(s) && Can(s, t, Look)
    ensures SleepInv(Act(s, t, Look))
  {
    hide Inv, Justly, TasksOk, CallsOk, EndedOk;
    if Reads(s, s.pcs[t].e) != -EINTR {
      WokenOff(s, t);
      BackInv(s, t, Reads(s, s.pcs[t].e));
    } else {
      TurnInv(s, t, Unsure(s.pcs[t].e));
    }
  }

  lemma OtherStep(s: Sys, t: nat, a: Action)
    requires SleepInv(s) && Can(s, t, Other(a))
    ensures SleepInv(Act(s, t, Other(a)))
  {
    hide Inv, Enabled, Step, TasksOk, CallsOk, EndedOk;
    IdleStep(s, a, s.issued);
  }

  lemma StepInv(s: Sys, t: nat, m: Move)
    requires SleepInv(s) && Can(s, t, m)
    ensures SleepInv(Act(s, t, m))
  {
    hide SleepInv, Inv, Can, Act;
    match m
    case Call(e) => CallStep(s, t, e);
    case Look => LookStep(s, t);
    case Relock(_, _, _, _, _) => RelockStep(s, t, m);
    case Other(a) => OtherStep(s, t, a);
    case Rmid => RmidSays(s, t); RmidStep(s, t);
  }

  lemma RmidSays(s: Sys, t: nat)
    requires SleepInv(s) && Can(s, t, Rmid)
    ensures s.valid
  {
  }

  // ---------- Runs ----------

  /** newary, with any number of tasks about to use the set */
  ghost function Fresh(tasks: nat, n: nat): (s: Sys)
    ensures SleepInv(s)
  {
    var s := Sys(Created(n), true, seq(tasks, _ => Idle), 0, []);
    NothingThere(n);
    s
  }

  lemma NothingThere(n: nat)
    ensures Created(n).st.woken == [] && forall c :: Held(Created(n).st, c) == 0 && Places(Created(n).st, c) == 0
  {
    forall c
      ensures Held(Created(n).st, c) == 0 && Places(Created(n).st, c) == 0
    {
      InQueuesNone(Created(n).st.semAlter, n, c);
      InQueuesNone(Created(n).st.semConst, n, c);
    }
  }

  ghost predicate Runs(s: Sys, steps: seq<(nat, Move)>)
    requires SleepInv(s)
    decreases |steps|
  {
    steps == [] ||
    (Can(s, steps[0].0, steps[0].1) &&
     (StepInv(s, steps[0].0, steps[0].1); Runs(Act(s, steps[0].0, steps[0].1), steps[1..])))
  }

  ghost function Run(s: Sys, steps: seq<(nat, Move)>): (r: Sys)
    requires SleepInv(s) && Runs(s, steps)
    ensures SleepInv(r)
    decreases |steps|
  {
    if steps == [] then s
    else StepInv(s, steps[0].0, steps[0].1); Run(Act(s, steps[0].0, steps[0].1), steps[1..])
  }

  /**
   Over every run a call that sleeps is in one place: on one queue, or woken once. A queued
   call's task is still inside semop(), so the node on its stack is there. A call returns once,
   with the status it was woken with, or after it gave up and was taken off its queue; a call
   woken while its task was on its way to the lock is told EINTR if the set is gone by then.
   */
  lemma EachCallOnce(tasks: nat, n: nat, steps: seq<(nat, Move)>)
    requires Runs(Fresh(tasks, n), steps)
    ensures var s := Run(Fresh(tasks, n), steps);
            && (forall t, e | Inside(s.pcs, t, e) :: Places(s.full.st, e) == 1)
            && (forall c | Held(s.full.st, c) > 0 :: exists t :: Inside(s.pcs, t, c))
            && (forall j, k | 0 <= j < k < |s.ended| :: s.ended[j].entry != s.ended[k].entry)
            && (forall j | 0 <= j < |s.ended| :: Justly(s.full.st, s.valid, s.ended[j]))
            && (forall j, t | 0 <= j < |s.ended| :: !Inside(s.pcs, t, s.ended[j].entry))
  {
    hide Runs, Run, Inv, Held, Places, Justly, CallsOk;
    assert SleepInv(Run(Fresh(tasks, n), steps));
  }

  /** Taking a call off its queue happens to queued calls only: a task that comes to that point
      finds its node on exactly one queue, however wakeups and signals raced; and no task is ever
      stuck between its two looks. */
  lemma NeverUnlinkedTwice(tasks: nat, n: nat, steps: seq<(nat, Move)>, t: nat, timedOut: bool, signal: bool)
    requires Runs(Fresh(tasks, n), steps)
    requires var s := Run(Fresh(tasks, n), steps); t < |s.pcs| && s.pcs[t].Unsure?
    ensures var s := Run(Fresh(tasks, n), steps);
            && (s.valid && Reads(s, s.pcs[t].e) == -EINTR ==> Held(s.full.st, s.pcs[t].e) == 1)
            && exists loc, alters, k :: Can(s, t, Relock(timedOut, signal, loc, alters, k))
  {
    hide Runs, Run, Held, Told, Inv, QueuedAt, AllFinal;
    var s := Run(Fresh(tasks, n), steps);
    var e := s.pcs[t].e;
    assert Inside(s.pcs, t, e);
    StatusTold(s.full.st.woken, e);
    var loc, alters, k := Global, true, 0;
    if Held(s.full.st, e) > 0 {
      GoodOf(s.full);
      loc, alters, k := HeldAt(s.full.st, e);
    }
    assert Can(s, t, Relock(timedOut, signal, loc, alters, k));
  }

  lemma GoodOf(f: Full)
    requires Inv(f)
    ensures Good(f.st)
  {
  }

  /** A wakeup that races with a signal or a timeout wins: whichever look of the task comes next,
      it returns, the queues are not touched, and it returns the status of the wakeup if and only
      if the set is still there or the look is the one without the lock. The second look at a
      set that is gone returns EINTR. */
  lemma WakeupWins(tasks: nat, n: nat, steps: seq<(nat, Move)>, t: nat, m: Move, status: int)
    requires Runs(Fresh(tasks, n), steps)
    requires var s := Run(Fresh(tasks, n), steps);
             && t < |s.pcs| && !s.pcs[t].Idle? && Wake(s.pcs[t].e, status) in s.full.st.woken
             && (m.Look? || m.Relock?) && Can(s, t, m)
    ensures var s := Run(Fresh(tasks, n), steps);
            var r := Act(s, t, m);
            && r.pcs[t] == Idle && r.full.st == s.full.st
            && |r.ended| == |s.ended| + 1 && r.ended[..|s.ended|] == s.ended && r.ended[|s.ended|].entry == s.pcs[t].e
            && (r.ended[|s.ended|].status == status <==> s.valid || m.Look?)
            && (!s.valid && m.Relock? ==> r.ended[|s.ended|].status == -EINTR)
  {
    hide Runs, Run, Held, Told, Inv, Final;
    var s := Run(Fresh(tasks, n), steps);
    var w := Wake(s.pcs[t].e, status);
    assert Inside(s.pcs, t, s.pcs[t].e);
    assert Places(s.full.st, s.pcs[t].e) == 1;
    StatusIs(s.full.st.woken, w);
    StatusTold(s.full.st.woken, s.pcs[t].e);
    assert status != -EINTR by {
      var k :| 0 <= k < |s.full.st.woken| && s.full.st.woken[k] == w;
      NotInterrupted(s.full.st.woken, k);
    }
  }

  /** A task that was not woken gives up, under the lock, if and only if its time is over or a signal
      is pending: EAGAIN if its time is over, whether or not there is a signal, EINTR for a signal
      alone; its call is on no queue any more and every other call is where it was. */
  lemma GivesUp(tasks: nat, n: nat, steps: seq<(nat, Move)>, t: nat, m: Move, c: Entry)
    requires Runs(Fresh(tasks, n), steps)
    requires var s := Run(Fresh(tasks, n), steps);
             && m.Relock? && Can(s, t, m) && s.valid && Reads(s, s.pcs[t].e) == -EINTR
    ensures var s := Run(Fresh(tasks, n), steps);
            var e, r := s.pcs[t].e, Act(s, t, m);
            && (!m.timedOut && !m.signal ==> r.pcs == s.pcs[t := Asleep(e)] && r.ended == s.ended && r.full.st == s.full.st)
            && (m.timedOut ==> r.ended == s.ended + [Wake(e, -EAGAIN)])
            && (!m.timedOut && m.signal ==> r.ended == s.ended + [Wake(e, -EINTR)])
            && (m.timedOut || m.signal ==>
                  r.pcs == s.pcs[t := Idle] && Held(r.full.st, e) == 0
                  && (c != e ==> Places(r.full.st, c) == Places(s.full.st, c)))
  {
    hide SleepInv, Inv, Runs, Run, Held, Places, Step, Enabled;
    var s := Run(Fresh(tasks, n), steps);
    InvOf(s);
    StepInv(s, t, m);
    if m.timedOut || m.signal {
      QueuedGivesUp(s.full, s.pcs[t].e, m.loc, m.alters, m.k);
      StepPlaces(s.full, Interrupt(m.loc, m.alters, m.k), c);
      LastEnded(Act(s, t, m), |s.ended|);
    }
  }

  lemma LastEnded(s: Sys, j: nat)
    requires SleepInv(s) && j < |s.ended|
    ensures Held(s.full.st, s.ended[j].entry) == 0
  {
  }

  lemma NotInterrupted(ws: seq<Wake>, k: nat)
    requires AllFinal(ws) && k < |ws|
    ensures ws[k].status != -EINTR
  {
    assert Final(ws[k].status);
  }

  /** After IPC_RMID nothing is queued and everybody inside was woken: the next look returns. */
  lemma NobodySleepsOnNothing(tasks: nat, n: nat, steps: seq<(nat, Move)>)
    requires Runs(Fresh(tasks, n), steps) && !Run(Fresh(tasks, n), steps).valid
    ensures var s := Run(Fresh(tasks, n), steps);
            && (forall c :: Held(s.full.st, c) == 0)
            && forall t | 0 <= t < |s.pcs| && !s.pcs[t].Idle? ::
                 && Told(s.full.st.woken, s.pcs[t].e) == 1
                 && (s.pcs[t].Asleep? ==> Act(s, t, Look).pcs[t] == Idle)
  {
    hide Runs, Run, Held, Told, Inv, AllFinal;
    var s := Run(Fresh(tasks, n), steps);
    forall t | 0 <= t < |s.pcs| && !s.pcs[t].Idle?
      ensures Told(s.full.st.woken, s.pcs[t].e) == 1 && (s.pcs[t].Asleep? ==> Act(s, t, Look).pcs[t] == Idle)
    {
      GoneOff(s, t);
    }
  }

  /** Whoever is inside and was not woken has a reason to sleep. */
  lemma SleepersJustified(tasks: nat, n: nat, steps: seq<(nat, Move)>, t: nat)
    requires Runs(Fresh(tasks, n), steps)
    requires var s := Run(Fresh(tasks, n), steps);
             t < |s.pcs| && !s.pcs[t].Idle? && Reads(s, s.pcs[t].e) == -EINTR
    ensures var s := Run(Fresh(tasks, n), steps);
            && s.valid && CanEval(s.full.st.store, s.pcs[t].e)
            && SemEval.Status(s.full.st.store, s.pcs[t].e) != 0
            && (!AllZeroOps(s.pcs[t].e.sops) ==> SemEval.Status(s.full.st.store, s.pcs[t].e) == 1)
  {
    hide Runs, Run, Held, Told, AllFinal, Quiet;
    var s := Run(Fresh(tasks, n), steps);
    var e := s.pcs[t].e;
    if !s.valid {
      GoneOff(s, t);
    }
    assert Inside(s.pcs, t, e);
    StatusTold(s.full.st.woken, e);
    var loc, alters, k := HeldAt(s.full.st, e);
    QueuedSleeps(s.full.st, e, loc, alters, k);
  }

  lemma QueuedSleeps(st: State, e: Entry, loc: Loc, alters: bool, k: nat)
    requires Good(st) && Quiet(st) && QueuedAt(st, e, loc, alters, k)
    ensures CanEval(st.store, e) && SemEval.Status(st.store, e) != 0
    ensures !AllZeroOps(e.sops) ==> SemEval.Status(st.store, e) == 1
  {
    QuietNobodyLost(st);
    ConstCanEval(st, loc);
    AlterCanEval(st, loc);
  }
}
