/**
 The lock machine of sem_lock() and the sections it guards, run together: any number of
 threads take and drop the locks step by step; under a semaphore's lock a thread reads the
 set at one moment and writes its semaphore's part back at a later one, with other threads
 in between; under the global lock it changes everything. Every such run comes to the same
 as some serial run of the sections.
 */
module SemThreads {
  import opened Options
  import opened SemOps
  import opened SemEval
  import opened SemSet
  import opened SemWakeup
  import opened SemCalls
  import opened SemRuns
  import opened SemSlices
  import L = SemLocks

  // ---------- What a section under a semaphore's lock wakes ----------

  ghost predicate AllOn(ws: seq<Wake>, i: nat) {
    forall k | 0 <= k < |ws| :: One(ws[k].entry, i)
  }

  /** From st to r only calls on semaphore i were woken. */
  ghost predicate GrownOn(st: State, r: State, i: nat) {
    |st.woken| <= |r.woken| && r.woken[..|st.woken|] == st.woken && AllOn(r.woken[|st.woken|..], i)
  }

  lemma GrownSame(st: State, r: State, i: nat)
    requires r.woken == st.woken
    ensures GrownOn(st, r, i)
  {
  }

  lemma GrownBy(st: State, r: State, x: seq<Wake>, i: nat)
    requires r.woken == st.woken + x && AllOn(x, i)
    ensures GrownOn(st, r, i)
  {
    assert r.woken[|st.woken|..] == x;
  }

  lemma GrownTrans(a: State, b: State, c: State, i: nat)
    requires GrownOn(a, b, i) && GrownOn(b, c, i)
    ensures GrownOn(a, c, i)
  {
    var x, y := b.woken[|a.woken|..], c.woken[|b.woken|..];
    assert b.woken == a.woken + x && c.woken == b.woken + y;
    assert a.woken + x + y == a.woken + (x + y);
    GrownBy(a, c, x + y, i);
  }

  lemma ZeroedGrown(st: State, i: nat)
    requires Good(st) && i < |st.store.vals|
    ensures GrownOn(st, ZeroedAt(st, i), i)
  {
    assert SemConstOk(|st.store.vals|, st.store.undos.Keys, i, st.semConst[i]);
    if st.store.vals[i] == 0 {
      GrownBy(st, ZeroedAt(st, i), Succeeded(st.semConst[i]), i);
    } else {
      GrownSame(st, st, i);
    }
  }

  lemma CompleteGrown(st: State, i: nat, k: nat)
    requires SimpleMode(st) && i < |st.store.vals| && k < |st.semAlter[i]|
    ensures GrownOn(st, Complete(st, Sem(i), k), i)
  {
    CompleteSimple(st, i, k);
    QueuedAt(st, i, k);
    var e := st.semAlter[i][k];
    var u := Unlinked(st, i, k).(store := Next(st.store, e));
    ZeroedGrown(u, i);
    hide Good, SimpleMode, Complete, Status, CanEval, ZeroedAt, RemoveAt, GrownOn;
    var z := if Status(st.store, e) == 0 then ZeroedAt(u, i) else u;
    GrownSame(st, u, i);
    GrownSame(u, u, i);
    GrownBy(z, WakePrepared(z, e, Status(st.store, e)), [Wake(e, Status(st.store, e))], i);
    GrownTrans(u, z, WakePrepared(z, e, Status(st.store, e)), i);
    GrownTrans(st, u, WakePrepared(z, e, Status(st.store, e)), i);
  }

  lemma {:induction false} DrainGrown(st: State, i: nat)
    requires SimpleMode(st) && i < |st.store.vals|
    ensures GrownOn(st, Drain(st, Sem(i)), i)
    decreases |st.semAlter[i]|
  {
    DrainUnfold(st, Sem(i));
    hide Drain, Complete, Good, GrownOn;
    GrownSame(st, st, i);
    var k := FirstReady(Verdict(st.store), st.semAlter[i]);
    if k < |st.semAlter[i]| {
      CompleteSimple(st, i, k);
      CompleteGrown(st, i, k);
      CompleteGood(st, Sem(i), k);
      DrainGrown(Complete(st, Sem(i), k), i);
      GrownTrans(st, Complete(st, Sem(i), k), Drain(Complete(st, Sem(i), k), Sem(i)), i);
    }
  }

  lemma LocalGrown(st: State, e: Entry, i: nat)
    requires Local(st, e, i)
    ensures GrownOn(st, SemopBody(st, e), i)
  {
    LocalBody(st, e, i);
    EnqueuedAt(st, e, i);
    var w := st.(store := Next(st.store, e));
    var z := ZeroedAt(w, i);
    ZeroedGrown(w, i);
    DrainGrown(z, i);
    hide Good, SimpleMode, CanEval, Status, Next, Drain, ZeroedAt, SemopBody, Enqueue, GrownOn;
    GrownSame(st, w, i);
    GrownSame(st, Enqueue(st, e), i);
    GrownSame(st, st, i);
    GrownTrans(st, w, z, i);
    GrownTrans(st, z, Drain(z, Sem(i)), i);
  }

  // ---------- Reading early and writing late ----------

  /** set with the part of semaphore i that a thread computed from an earlier view, and with
      the calls it woke */
  ghost function Patched(set0: State, view: State, body: State, i: nat): State
    requires SameShape(view, set0) && SameShape(body, set0) && i < |set0.store.vals| && GrownOn(view, body, i)
  {
    State(Store(set0.store.vals[i := body.store.vals[i]],
                map u | u in set0.store.undos :: set0.store.undos[u][i := body.store.undos[u][i]]),
          set0.semAlter[i := body.semAlter[i]], set0.semConst[i := body.semConst[i]],
          set0.alter, set0.consts, set0.complex, set0.woken + body.woken[|view.woken|..])
  }

  /** What a section may do under semaphore i's lock: a call with one operation on it, or such a
      call giving up. */
  ghost predicate LocalAct(st: State, a: Action, i: nat) {
    && Inv(Full(st, 0)) && Enabled(Full(st, 0), a)
    && (a.Semop? || a.Interrupt?)
    && (a.Semop? ==> One(a.e, i))
    && (a.Interrupt? ==> a.loc == Sem(i))
  }

  lemma LocalIs(st: State, a: Action, i: nat)
    requires LocalAct(st, a, i) && a.Semop?
    ensures Local(st, a.e, i) && Body(Full(st, 0), a) == SemopBody(st, a.e)
  {
  }

  ghost predicate Elsewhere(a: State, b: State, i: nat) {
    forall j | 0 <= j < |a.store.vals| && j != i :: SameAt(a, b, j)
  }

  /** All there is to a section under a semaphore's lock: it keeps simple mode, sees and
      changes only its semaphore, and wakes only calls on it. */
  lemma LocalFacts(st: State, a: Action, i: nat)
    requires LocalAct(st, a, i)
    ensures var r := Body(Full(st, 0), a);
            && SimpleMode(st) && i < |st.store.vals| && SimpleMode(r) && Inv(Full(r, 0))
            && st.complex == 0 && r.complex == 0
            && SameShape(st, r) && Elsewhere(st, r, i) && GrownOn(st, r, i)
  {
    if a.Semop? {
      LocalIs(st, a, i);
      LocalSimple(st, a.e, i);
      LocalSimpleAfter(st, a.e, i);
      BodyRows(st, a.e);
      LocalGrown(st, a.e, i);
      hide Local, SemopBody, SameAt, GrownOn, Good, Quiet;
      forall j | 0 <= j < |st.store.vals| && j != i
        ensures SameAt(st, Body(Full(st, 0), a), j)
      {
        LocalOther(st, a.e, i, j);
      }
    } else {
      InterruptFacts(st, a.alters, i, a.k);
    }
  }

  lemma LocalSimpleAfter(st: State, e: Entry, i: nat)
    requires Local(st, e, i)
    ensures SimpleMode(SemopBody(st, e))
  {
    LocalSimple(st, e, i);
    NoConsts(SemopBody(st, e));
  }

  lemma InterruptFacts(st: State, alters: bool, i: nat, k: nat)
    requires LocalAct(st, Interrupt(Sem(i), alters, k), i)
    ensures var r := InterruptBody(st, Sem(i), alters, k);
            && SimpleMode(st) && i < |st.store.vals| && SimpleMode(r) && Inv(Full(r, 0))
            && SameShape(st, r) && Elsewhere(st, r, i) && GrownOn(st, r, i)
  {
    InterruptBodyInv(st, Sem(i), alters, k);
    NoConsts(st);
    var r := InterruptBody(st, Sem(i), alters, k);
    InterruptIs(st, alters, i, k);
    NoConsts(r);
    GrownSame(st, r, i);
  }

  lemma InterruptIs(st: State, alters: bool, i: nat, k: nat)
    requires Good(st) && st.alter == [] && st.consts == [] && i < |st.store.vals|
    requires k < |if alters then st.semAlter[i] else st.semConst[i]|
    ensures InterruptBody(st, Sem(i), alters, k) ==
            if alters then st.(semAlter := st.semAlter[i := RemoveAt(st.semAlter[i], k)])
            else st.(semConst := st.semConst[i := RemoveAt(st.semConst[i], k)])
  {
    if alters {
      QueuedAt(st, i, k);
    }
  }

  /** The part of semaphore i after a section depends on that part before it alone. */
  lemma LocalActDepends(a: State, b: State, act: Action, i: nat)
    requires LocalAct(a, act, i) && LocalAct(b, act, i) && SameAt(a, b, i)
    ensures SameAt(Body(Full(a, 0), act), Body(Full(b, 0), act), i)
  {
    if act.Semop? {
      LocalIs(a, act, i);
      LocalIs(b, act, i);
      LocalDepends(a, b, act.e, i);
    } else {
      NoConsts(a);
      NoConsts(b);
      InterruptIs(a, act.alters, i, act.k);
      InterruptIs(b, act.alters, i, act.k);
    }
  }

  /** What may be done to the view may be done to the set. */
  lemma LocalActMoves(a: State, b: State, act: Action, i: nat)
    requires LocalAct(a, act, i) && Inv(Full(b, 0)) && SameAt(a, b, i)
    ensures LocalAct(b, act, i)
  {
    hide Good, Quiet;
  }

  /** Writing the result late is running the section late. */
  lemma PatchedIs(view: State, set0: State, a: Action, i: nat)
    requires LocalAct(view, a, i) && LocalAct(set0, a, i) && SameAt(view, set0, i)
    ensures SameShape(Body(Full(view, 0), a), set0) && GrownOn(view, Body(Full(view, 0), a), i)
    ensures Patched(set0, view, Body(Full(view, 0), a), i) == Body(Full(set0, 0), a)
  {
    hide Good, Quiet, Inv, Body, SemopBody, Enabled, SameAt, SameShape, GrownOn, Elsewhere;
    SameAtSays(view, set0, i);
    LocalFacts(view, a, i);
    LocalFacts(set0, a, i);
    LocalActDepends(view, set0, a, i);
    SameAtSays(Body(Full(view, 0), a), Body(Full(set0, 0), a), i);
    ShapesJoin(Body(Full(view, 0), a), view, set0);
    var v, r := Body(Full(view, 0), a), Body(Full(set0, 0), a);
    SameWakes(view, v, set0, r, i);
    PatchedFields(view, v, set0, r, i);
  }

  lemma SameAtSays(a: State, b: State, i: nat)
    requires SameAt(a, b, i)
    ensures SameShape(a, b) && i < |a.store.vals| == |b.store.vals| && LogAt(a.woken, i) == LogAt(b.woken, i)
  {
  }

  lemma ShapesJoin(a: State, b: State, c: State)
    ensures SameShape(b, a) && SameShape(b, c) ==> SameShape(a, c)
  {
  }

  lemma SameWakes(view: State, v: State, set0: State, r: State, i: nat)
    requires GrownOn(view, v, i) && GrownOn(set0, r, i)
    requires LogAt(view.woken, i) == LogAt(set0.woken, i) && LogAt(v.woken, i) == LogAt(r.woken, i)
    ensures r.woken == set0.woken + v.woken[|view.woken|..]
  {
    var x, y := v.woken[|view.woken|..], r.woken[|set0.woken|..];
    assert v.woken == view.woken + x && r.woken == set0.woken + y;
    LogAtConcat(view.woken, x, i);
    LogAtConcat(set0.woken, y, i);
    AllAt(x, i, i);
    AllAt(y, i, i);
    assert LogAt(view.woken, i) + x == LogAt(set0.woken, i) + y;
    Cancel(LogAt(view.woken, i), x, y);
  }

  lemma Cancel(a: seq<Wake>, x: seq<Wake>, y: seq<Wake>)
    requires a + x == a + y
    ensures x == y
  {
    assert (a + x)[|a|..] == x && (a + y)[|a|..] == y;
  }

  lemma PatchedFields(view: State, v: State, set0: State, r: State, i: nat)
    requires SameAt(view, set0, i) && SameAt(v, r, i) && GrownOn(view, v, i)
    requires SameShape(set0, r) && SameShape(v, set0) && Elsewhere(set0, r, i)
    requires r.alter == set0.alter && r.consts == set0.consts && r.complex == set0.complex
    requires r.woken == set0.woken + v.woken[|view.woken|..]
    ensures Patched(set0, view, v, i) == r
  {
    hide LogAt;
    var p := Patched(set0, view, v, i);
    forall j | 0 <= j < |r.store.vals|
      ensures p.store.vals[j] == r.store.vals[j] && p.semAlter[j] == r.semAlter[j] && p.semConst[j] == r.semConst[j]
    {
      if j != i {
        assert SameAt(set0, r, j);
      }
    }
    forall u | u in r.store.undos
      ensures p.store.undos[u] == r.store.undos[u]
    {
      forall j | 0 <= j < |r.store.vals|
        ensures p.store.undos[u][j] == r.store.undos[u][j]
      {
        if j != i {
          assert SameAt(set0, r, j);
        }
      }
      assert |set0.store.undos[u]| == |r.store.undos[u]| == |r.store.vals|;
    }
  }

  // ---------- Threads ----------

  /** hist lists the sections whose effect is in the set, in that order; mid is the change the
      owner of the global lock has made and not yet unlocked. */
  datatype Sys = Sys(locks: L.Locks, shared: State, views: seq<Option<State>>, mid: Option<Action>, hist: seq<Action>)

  datatype Move =
    | Locking(c: L.Choice)  // a step of sem_lock() or sem_unlock()
    | Read                  // under a semaphore's lock: look at the set
    | Write(a: Action)      //   ... and store what the section makes of that look
    | Perform(a: Action)    // under the global lock

  ghost predicate CanDo(st: State, a: Action) {
    var f := Full(st, USE_GLOBAL_LOCK_HYSTERESIS);
    Inv(f) && Enabled(f, a)
  }

  ghost predicate Can(s: Sys, t: nat, m: Move)
    requires |s.views| == |s.locks.pc|
  {
    t < |s.locks.pc| &&
    match m
    case Locking(c) => L.Can(s.locks, t, c) && !c.Queue? && (s.locks.pc[t].GlobalSection? ==> Placeable(|s.shared.semAlter|, s.shared.alter))
    case Read => s.locks.pc[t].LocalSection?
    case Write(a) =>
      && s.locks.pc[t].LocalSection? && s.views[t].Some?
      && var i, view := s.locks.pc[t].i, s.views[t].value;
         LocalAct(view, a, i) && SameShape(view, s.shared) && SameShape(Body(Full(view, 0), a), s.shared)
         && i < |s.shared.store.vals| && GrownOn(view, Body(Full(view, 0), a), i)
    case Perform(a) => s.locks.pc[t].GlobalSection? && s.mid.None? && CanDo(s.shared, a)
  }

  ghost function Act(s: Sys, t: nat, m: Move): (r: Sys)
    requires |s.views| == |s.locks.pc| && Can(s, t, m)
    ensures |r.views| == |r.locks.pc| == |s.locks.pc|
  {
    match m
    case Locking(c) =>
      var locks := L.Act(s.locks, t, c);
      if s.locks.pc[t].GlobalSection? then
        Sys(locks, Unmerge(s.shared), s.views, None, s.hist + (if s.mid.Some? then [s.mid.value] else []))
      else
        s.(locks := locks, views := if s.locks.pc[t].LocalSection? then s.views[t := None] else s.views)
    case Read => s.(views := s.views[t := Some(s.shared)])
    case Write(a) =>
      var view := s.views[t].value;
      s.(shared := Patched(s.shared, view, Body(Full(view, 0), a), s.locks.pc[t].i),
         views := s.views[t := None], hist := s.hist + [a])
    case Perform(a) =>
      var r := Body(Full(s.shared, USE_GLOBAL_LOCK_HYSTERESIS), a);
      s.(shared := r, mid := Some(a), locks := s.locks.(complex := if r.complex >= 0 then r.complex else 0))
  }

  // ---------- Every run is a serial run ----------

  ghost predicate ViewOk(s: Sys, t: nat)
    requires t < |s.locks.pc| == |s.views|
  {
    s.views[t].Some? ==>
      && s.locks.pc[t].LocalSection?
      && Inv(Full(s.views[t].value, 0)) && SameAt(s.views[t].value, s.shared, s.locks.pc[t].i)
  }

  ghost predicate Serial(s: Sys, n: nat) {
    && Runs(Created(n), s.hist)
    && var f := Run(Created(n), s.hist);
       match s.mid
       case None => s.shared == f.st
       case Some(a) => Enabled(f, a) && s.shared == Body(f, a)
  }

  ghost predicate ThreadsInv(s: Sys, n: nat) {
    && L.LocksInv(s.locks) && |s.locks.owner| == |s.shared.store.vals| == n
    && |s.views| == |s.locks.pc| && s.locks.complex == s.shared.complex
    && (s.mid.Some? ==> s.locks.perm.Some? && s.locks.perm.value < |s.locks.pc| && s.locks.pc[s.locks.perm.value].GlobalSection?)
    && (forall t | 0 <= t < |s.views| :: ViewOk(s, t))
    && Serial(s, n)
  }

  lemma {:induction false} RunAppend(f: Full, acts: seq<Action>, a: Action)
    requires Inv(f) && Runs(f, acts) && Enabled(Run(f, acts), a)
    ensures Runs(f, acts + [a]) && Run(f, acts + [a]) == Step(Run(f, acts), a)
    decreases |acts|
  {
    hide Inv, Enabled, Step;
    if acts == [] {
      assert [] + [a] == [a] && [a][1..] == [];
    } else {
      RunAppend(Step(f, acts[0]), acts[1..], a);
      assert (acts + [a])[1..] == acts[1..] + [a] && (acts + [a])[0] == acts[0];
    }
  }

  /** What a section leaves does not depend on use_global_lock: under the global lock the queues
      are unmerged, and otherwise there is nothing to unmerge. */
  lemma StepIs(f: Full, a: Action)
    requires Inv(f) && Enabled(f, a)
    ensures var r := Body(f, a);
            && Good(r) && Placeable(|r.semAlter|, r.alter) && Step(f, a).st == Unmerge(r)
            && (r.alter == [] ==> Unmerge(r) == r)
  {
    hide Good, Quiet, Body, Enabled;
    BodyInv(f, a);
    GoodPlaceable(Body(f, a));
  }

  lemma SameBody(f: Full, g: Full, a: Action)
    requires f.st == g.st && Inv(f) && Inv(g)
    ensures Enabled(f, a) <==> Enabled(g, a)
    ensures Enabled(f, a) ==> Body(f, a) == Body(g, a)
  {
    hide Good, Quiet;
  }

  lemma InvAnyLock(st: State, l: nat, k: nat)
    requires Inv(Full(st, l)) && k <= USE_GLOBAL_LOCK_HYSTERESIS && (st.complex > 0 ==> k > 0)
    ensures Inv(Full(st, k)) && Good(st) && st.complex >= 0
    ensures st.complex == 0 ==> st.alter == []
    ensures Placeable(|st.semAlter|, st.alter) && Unmerge(st) == st
  {
    hide Quiet;
    GoodPlaceable(st);
    hide Good;
  }

  /** Between the sections the set is that of the serial run; while one thread is in a section
      under a semaphore's lock, this is so and no complex call is around. */
  lemma AtRest(s: Sys, n: nat, t: nat)
    requires ThreadsInv(s, n) && t < |s.locks.pc|
    ensures s.mid.None? ==> Inv(Run(Created(n), s.hist)) && s.shared == Run(Created(n), s.hist).st
    ensures s.locks.pc[t].LocalSection? ==>
              && s.mid.None? && Inv(Full(s.shared, 0)) && SimpleMode(s.shared)
              && s.locks.pc[t].i < |s.shared.store.vals|
  {
    hide Runs, Run, Inv, Good, Body, Enabled;
    L.LocksInvExclusive(s.locks);
    assert L.ThreadOk(s.locks, t);
    if s.locks.pc[t].LocalSection? {
      var f := Run(Created(n), s.hist);
      InvAnyLock(f.st, f.lock, 0);
      SimpleIs(s.shared);
    }
  }

  lemma SimpleIs(st: State)
    requires Inv(Full(st, 0)) && st.complex == 0
    ensures SimpleMode(st)
  {
    NoConsts(st);
  }

  lemma NoViews(s: Sys, n: nat, t: nat, u: nat)
    requires ThreadsInv(s, n) && t < |s.locks.pc| && s.locks.pc[t].GlobalSection? && u < |s.views|
    ensures s.views[u].None?
  {
    hide Serial;
    L.LocksInvExclusive(s.locks);
    assert ViewOk(s, u);
  }

  lemma LockShape(l: L.Locks, t: nat, c: L.Choice)
    requires L.Can(l, t, c)
    ensures var r := L.Act(l, t, c);
            && |r.owner| == |l.owner| && |r.pc| == |l.pc| && (!c.Queue? ==> r.complex == l.complex)
            && forall u | 0 <= u < |l.pc| && u != t :: r.pc[u] == l.pc[u]
  {
  }

  lemma HolderStays(l: L.Locks, t: nat, c: L.Choice)
    requires L.LocksInv(l) && L.Can(l, t, c) && l.perm.Some? && l.perm.value != t
    ensures L.Act(l, t, c).perm == l.perm
  {
    assert L.ThreadOk(l, t);
  }

  lemma LockStep(s: Sys, n: nat, t: nat, c: L.Choice)
    requires ThreadsInv(s, n) && Can(s, t, Locking(c)) && !s.locks.pc[t].GlobalSection?
    ensures ThreadsInv(Act(s, t, Locking(c)), n)
  {
    hide Runs, Run, Inv, SameAt, Body, Enabled, L.LocksInv;
    var r := Act(s, t, Locking(c));
    L.ActInv(s.locks, t, c);
    LockShape(s.locks, t, c);
    assert Serial(r, n);
    if s.mid.Some? {
      HolderStays(s.locks, t, c);
    }
    forall u | 0 <= u < |r.views|
      ensures ViewOk(r, u)
    {
      assert ViewOk(s, u);
    }
  }

  lemma UnlockStep(s: Sys, n: nat, t: nat, c: L.Choice)
    requires ThreadsInv(s, n) && Can(s, t, Locking(c)) && s.locks.pc[t].GlobalSection?
    ensures ThreadsInv(Act(s, t, Locking(c)), n)
  {
    hide Runs, Run, Inv, SameAt, Body, Enabled, L.LocksInv, Good;
    var r := Act(s, t, Locking(c));
    L.ActInv(s.locks, t, c);
    LockShape(s.locks, t, c);
    var f := Run(Created(n), s.hist);
    if s.mid.Some? {
      StepIs(f, s.mid.value);
      RunAppend(Created(n), s.hist, s.mid.value);
    } else {
      InvAnyLock(f.st, f.lock, USE_GLOBAL_LOCK_HYSTERESIS);
      assert s.hist + [] == s.hist;
    }
    assert Serial(r, n);
    forall u | 0 <= u < |r.views|
      ensures ViewOk(r, u)
    {
      NoViews(s, n, t, u);
    }
  }

  lemma ReadStep(s: Sys, n: nat, t: nat)
    requires ThreadsInv(s, n) && Can(s, t, Read)
    ensures ThreadsInv(Act(s, t, Read), n)
  {
    hide Runs, Run, Inv, SameAt, Body, Enabled, L.LocksInv, Good, SimpleMode;
    var r := Act(s, t, Read);
    AtRest(s, n, t);
    SameSelf(s.shared, s.locks.pc[t].i);
    assert Serial(r, n);
    forall u | 0 <= u < |r.views|
      ensures ViewOk(r, u)
    {
      assert ViewOk(s, u);
    }
  }

  lemma SameSelf(st: State, i: nat)
    requires SimpleMode(st) && i < |st.store.vals|
    ensures SameAt(st, st, i)
  {
  }

  lemma WriteStep(s: Sys, n: nat, t: nat, a: Action)
    requires ThreadsInv(s, n) && Can(s, t, Write(a))
    ensures ThreadsInv(Act(s, t, Write(a)), n)
  {
    hide Runs, Run, Inv, SameAt, SameShape, Body, Enabled, L.LocksInv, Good, SimpleMode, GrownOn, Elsewhere, Patched, LocalAct, Unmerge, Step;
    var r, i, view := Act(s, t, Write(a)), s.locks.pc[t].i, s.views[t].value;
    AtRest(s, n, t);
    assert ViewOk(s, t);
    LocalActMoves(view, s.shared, a, i);
    PatchedIs(view, s.shared, a, i);
    LocalFacts(s.shared, a, i);
    LocalActSays(s.shared, a, i);
    var f := Run(Created(n), s.hist);
    SameBody(f, Full(s.shared, 0), a);
    StepIs(f, a);
    SimpleSays(r.shared);
    RunAppend(Created(n), s.hist, a);
    assert Serial(r, n);
    forall u | 0 <= u < |r.views|
      ensures ViewOk(r, u)
    {
      assert ViewOk(s, u);
      if u != t && s.views[u].Some? {
        OtherView(s, n, t, u, r.shared);
      }
    }
    ShapeSays(s.shared, r.shared);
  }

  lemma LocalActSays(st: State, a: Action, i: nat)
    requires LocalAct(st, a, i)
    ensures Inv(Full(st, 0)) && Enabled(Full(st, 0), a)
  {
  }

  lemma SimpleSays(st: State)
    requires SimpleMode(st)
    ensures st.alter == []
  {
  }

  lemma ShapeSays(a: State, b: State)
    requires SameShape(a, b)
    ensures |a.store.vals| == |b.store.vals|
  {
  }

  /** Another thread's view stays good: its semaphore is another one. */
  lemma OtherView(s: Sys, n: nat, t: nat, u: nat, r: State)
    requires ThreadsInv(s, n) && t < |s.locks.pc| && u < |s.locks.pc| && t != u
    requires s.locks.pc[t].LocalSection? && s.views[u].Some?
    requires Elsewhere(s.shared, r, s.locks.pc[t].i)
    ensures s.locks.pc[u].LocalSection? && SameAt(s.views[u].value, r, s.locks.pc[u].i)
  {
    hide Runs, Run, Inv, SameAt, Body, Enabled, Serial;
    L.LocksInvExclusive(s.locks);
    assert ViewOk(s, u);
    AtRest(s, n, u);
    SameAtTrans(s.views[u].value, s.shared, r, s.locks.pc[u].i);
  }

  lemma PerformStep(s: Sys, n: nat, t: nat, a: Action)
    requires ThreadsInv(s, n) && Can(s, t, Perform(a))
    ensures ThreadsInv(Act(s, t, Perform(a)), n)
  {
    hide Runs, Run, Inv, SameAt, Body, Enabled, Good, SimpleMode, Unmerge, Step;
    var r := Act(s, t, Perform(a));
    var f := Run(Created(n), s.hist);
    AtRest(s, n, t);
    SameBody(f, Full(s.shared, USE_GLOBAL_LOCK_HYSTERESIS), a);
    BodyInv(f, a);
    Counted(r.shared);
    assert Serial(r, n);
    assert L.Can(s.locks, t, L.Queue(r.locks.complex)) && r.locks == L.Act(s.locks, t, L.Queue(r.locks.complex));
    L.ActInv(s.locks, t, L.Queue(r.locks.complex));
    assert L.ThreadOk(s.locks, t);
    hide L.LocksInv;
    forall u | 0 <= u < |r.views|
      ensures ViewOk(r, u)
    {
      NoViews(s, n, t, u);
    }
  }

  lemma Counted(st: State)
    requires Good(st)
    ensures st.complex >= 0
  {
  }

  lemma StepInv(s: Sys, n: nat, t: nat, m: Move)
    requires ThreadsInv(s, n) && Can(s, t, m)
    ensures ThreadsInv(Act(s, t, m), n)
  {
    hide ThreadsInv, Act, LocalAct, CanDo, Body, Enabled, Inv;
    match m
    case Locking(c) =>
      if s.locks.pc[t].GlobalSection? {
        UnlockStep(s, n, t, c);
      } else {
        LockStep(s, n, t, c);
      }
    case Read => ReadStep(s, n, t);
    case Write(a) => WriteStep(s, n, t, a);
    case Perform(a) => PerformStep(s, n, t, a);
  }

  /** The sections themselves are never what holds a thread up: a thread in its section may do
      what the set it sees allows, and one that owns the global lock may always unlock. */
  lemma NothingHeldUp(s: Sys, n: nat, t: nat)
    requires ThreadsInv(s, n) && t < |s.locks.pc|
    ensures s.locks.pc[t].LocalSection? ==> Can(s, t, Read) && Can(s, t, Locking(L.Go))
    ensures s.locks.pc[t].GlobalSection? ==> Can(s, t, Locking(L.Go))
    ensures forall a | s.locks.pc[t].LocalSection? && s.views[t].Some? && LocalAct(s.views[t].value, a, s.locks.pc[t].i) ::
              Can(s, t, Write(a))
  {
    hide Runs, Run, Inv, SameAt, SameShape, Body, Enabled, Good, SimpleMode, GrownOn, Elsewhere, LocalAct, Unmerge, Step;
    assert L.ThreadOk(s.locks, t);
    AtRest(s, n, t);
    if s.locks.pc[t].GlobalSection? {
      var f := Run(Created(n), s.hist);
      if s.mid.Some? {
        StepIs(f, s.mid.value);
      } else {
        InvAnyLock(f.st, f.lock, USE_GLOBAL_LOCK_HYSTERESIS);
      }
    }
    assert ViewOk(s, t);
    forall a | s.locks.pc[t].LocalSection? && s.views[t].Some? && LocalAct(s.views[t].value, a, s.locks.pc[t].i)
      ensures Can(s, t, Write(a))
    {
      var i, view := s.locks.pc[t].i, s.views[t].value;
      LocalActSays(view, a, i);
      LocalActMoves(view, s.shared, a, i);
      PatchedIs(view, s.shared, a, i);
      SameAtSays(view, s.shared, i);
    }
  }

  /** The answer a call gets from the view is the one it gets at its place in the serial run. */
  lemma AnswerIsSerial(s: Sys, n: nat, t: nat, e: Entry)
    requires ThreadsInv(s, n) && Can(s, t, Write(Semop(e)))
    ensures var view := s.views[t].value;
            && CanEval(view.store, e) && CanEval(s.shared.store, e)
            && Status(view.store, e) == Status(s.shared.store, e)
  {
    hide Runs, Run, SameAt, SameShape, Body, Good, Quiet, SimpleMode, GrownOn, Status;
    var i, view := s.locks.pc[t].i, s.views[t].value;
    AtRest(s, n, t);
    assert ViewOk(s, t);
    LocalActMoves(view, s.shared, Semop(e), i);
    LocalIs(view, Semop(e), i);
    LocalIs(s.shared, Semop(e), i);
    LocalDepends(view, s.shared, e, i);
  }

  /** newary, with any number of threads about to use the set */
  ghost function Fresh(threads: nat, n: nat): (s: Sys)
    ensures |s.views| == |s.locks.pc| == threads
    ensures ThreadsInv(s, n)
  {
    var s := Sys(L.Fresh(threads, n), Created(n).st, seq(threads, _ => None), None, []);
    assert L.LocksInv(s.locks);
    assert Serial(s, n);
    s
  }

  ghost predicate ThreadRuns(s: Sys, n: nat, steps: seq<(nat, Move)>)
    requires ThreadsInv(s, n)
    decreases |steps|
  {
    steps == [] ||
    (Can(s, steps[0].0, steps[0].1) &&
     (StepInv(s, n, steps[0].0, steps[0].1); ThreadRuns(Act(s, steps[0].0, steps[0].1), n, steps[1..])))
  }

  ghost function ThreadRun(s: Sys, n: nat, steps: seq<(nat, Move)>): (r: Sys)
    requires ThreadsInv(s, n) && ThreadRuns(s, n, steps)
    ensures ThreadsInv(r, n)
    decreases |steps|
  {
    if steps == [] then s
    else StepInv(s, n, steps[0].0, steps[0].1); ThreadRun(Act(s, steps[0].0, steps[0].1), n, steps[1..])
  }

  /**
   Every interleaving is a serial run. Whatever the threads do, in every order the locks
   admit, the sections whose effect is in the set, one after the other, are a run, and
   the set is what that run leaves; while a thread is in a section under the global lock,
   up to its last change. Every statement about runs is one about interleavings.
   */
  lemma Serializable(threads: nat, n: nat, steps: seq<(nat, Move)>)
    requires ThreadRuns(Fresh(threads, n), n, steps)
    ensures var s := ThreadRun(Fresh(threads, n), n, steps);
            && Runs(Created(n), s.hist)
            && var f := Run(Created(n), s.hist);
               match s.mid
               case None => s.shared == f.st
               case Some(a) => Enabled(f, a) && s.shared == Body(f, a)
  {
    hide Runs, Run, Body, Enabled, ThreadRuns, ThreadRun, Inv;
    assert ThreadsInv(ThreadRun(Fresh(threads, n), n, steps), n);
  }

  /** So nobody is left asleep who could proceed, under every interleaving. */
  lemma NoLostWakeupInterleaved(threads: nat, n: nat, steps: seq<(nat, Move)>)
    requires ThreadRuns(Fresh(threads, n), n, steps)
    ensures var s := ThreadRun(Fresh(threads, n), n, steps); s.mid.None? ==> Good(s.shared) && NobodyLost(s.shared)
  {
    hide Body, Enabled, ThreadRuns, ThreadRun, NobodyLost, Good, Quiet;
    Serializable(threads, n, steps);
    var s := ThreadRun(Fresh(threads, n), n, steps);
    if s.mid.None? {
      NoLostWakeup(n, s.hist);
    }
  }
}
