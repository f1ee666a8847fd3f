/**
 Who is queued and in which order: a call only sleeps on an operation without IPC_NOWAIT,
 and the queues of one semaphore set are first-in first-out over its whole life.
 */
module SemOrder {
  import opened Options
  import opened SemOps
  import opened SemEval
  import opened SemSet
  import opened SemWakeup
  import opened SemCalls
  import opened SemRuns
  import opened SemPlaces
  import opened SemSleepers

  // ---------- IPC_NOWAIT ----------

  /** Whatever a queued call was told when it was evaluated, it is what Answered says. */
  lemma StatusAnswered(s: Store, e: Entry)
    requires CanEval(s, e)
    ensures var m := MemFor(s, e);
            && Fits(m, e.sops)
            && Answered(m, MemFor(Next(s, e), e), e.sops, Status(s, e), if Eval(s, e).Blocked? then Eval(s, e).at else 0)
  {
    hide Answered;
    var m, o := MemFor(s, e), Eval(s, e);
    PerformedAnswered(m, MemFor(Next(s, e), e), e.sops, Status(s, e), if o.Blocked? then o.at else 0);
  }

  /** A call that must sleep has an operation without IPC_NOWAIT that must wait now. */
  lemma SleeperWaits(s: Store, e: Entry) returns (k: nat)
    requires CanEval(s, e) && Status(s, e) > 0
    ensures k < |e.sops| && !e.sops[k].nowait && Fits(MemFor(s, e), e.sops)
    ensures Stops(MemFor(s, e), e.sops, k) && Sleeps(MemFor(s, e), e.sops, k)
  {
    hide Sleeps, Stops, Leaves, Earlier, Eval, Status, Next;
    StatusAnswered(s, e);
    k :| 0 <= k < |e.sops| && Stops(MemFor(s, e), e.sops, k) && Sleeps(MemFor(s, e), e.sops, k) && !e.sops[k].nowait;
  }

  predicate AllNowait(e: Entry) {
    forall k | 0 <= k < |e.sops| :: e.sops[k].nowait
  }

  lemma NowaitStep(f: Full, a: Action, c: Entry)
    requires Inv(f) && Enabled(f, a) && AllNowait(c) && Held(f.st, c) == 0
    ensures Held(Step(f, a).st, c) == 0
  {
    hide Inv, Held, Step, Enabled, Grown, GivenUp, Told, AllFinal;
    StepPlaces(f, a, c);
    ToldGrows(f.st.woken, Step(f, a).st.woken, c);
    if Queued(f, a) == Some(c) {
      QueuedMustWait(f, a);
    }
  }

  lemma QueuedMustWait(f: Full, a: Action)
    requires Inv(f) && Enabled(f, a) && Queued(f, a).Some?
    ensures !AllNowait(Queued(f, a).value)
  {
    hide Quiet, Good, Status;
    var e := Queued(f, a).value;
    GoodBounded(f);
    var k := SleeperWaits(f.st.store, e);
  }

  lemma GoodBounded(f: Full)
    requires Inv(f)
    ensures Bounded(f.st.store)
  {
  }

  /** Over every run, a call all of whose operations carry IPC_NOWAIT is on no queue. */
  lemma {:induction false} NowaitNeverQueued(f: Full, acts: seq<Action>, c: Entry)
    requires Inv(f) && SemRuns.Runs(f, acts) && AllNowait(c) && Held(f.st, c) == 0
    ensures Held(SemRuns.Run(f, acts).st, c) == 0
    decreases |acts|
  {
    hide Inv, Held, Enabled, AllNowait;
    if acts != [] {
      NowaitStep(f, acts[0], c);
      NowaitNeverQueued(Step(f, acts[0]), acts[1..], c);
    }
  }

  /** Whoever is found on a queue of a set, over every run from its creation, has an operation
      without IPC_NOWAIT. */
  lemma QueuedWaits(n: nat, acts: seq<Action>, loc: Loc, alters: bool, k: nat, c: Entry)
    requires SemRuns.Runs(Created(n), acts)
    requires QueuedAt(SemRuns.Run(Created(n), acts).st, c, loc, alters, k)
    ensures exists j | 0 <= j < |c.sops| :: !c.sops[j].nowait
  {
    hide Held, QueuedAt;
    NothingThere(n);
    QueuedHeld(SemRuns.Run(Created(n), acts).st, c, loc, alters, k);
    if AllNowait(c) {
      NowaitNeverQueued(Created(n), acts, c);
    }
  }

  // ---------- First-in first-out ----------

  /** Single operations on different semaphores: their order does not matter to anyone. */
  predicate Apart(a: Entry, b: Entry) {
    |a.sops| == 1 && |b.sops| == 1 && a.sops[0].num != b.sops[0].num
  }

  ghost predicate InOrder(es: seq<Entry>) {
    forall j, k | 0 <= j < k < |es| :: es[j].id < es[k].id || Apart(es[j], es[k])
  }

  ghost predicate AllInOrder(qs: seq<seq<Entry>>) {
    forall i | 0 <= i < |qs| :: InOrder(qs[i])
  }

  ghost predicate Ordered(st: State) {
    InOrder(st.alter) && InOrder(st.consts) && AllInOrder(st.semAlter) && AllInOrder(st.semConst)
  }

  lemma AppendInOrder(es: seq<Entry>, e: Entry)
    requires InOrder(es) && forall k | 0 <= k < |es| :: es[k].id < e.id || Apart(es[k], e)
    ensures InOrder(es + [e])
  {
  }

  lemma RemoveInOrder(es: seq<Entry>, i: nat)
    requires InOrder(es) && i < |es|
    ensures InOrder(RemoveAt(es, i))
  {
    var r := RemoveAt(es, i);
    forall j, k | 0 <= j < k < |r|
      ensures r[j].id < r[k].id || Apart(r[j], r[k])
    {
      assert r[j] == es[if j < i then j else j + 1] && r[k] == es[if k < i then k else k + 1];
    }
  }

  lemma InitInOrder(es: seq<Entry>)
    requires InOrder(es) && es != []
    ensures InOrder(es[..|es| - 1])
    ensures forall x | x in es[..|es| - 1] :: x.id < es[|es| - 1].id || Apart(x, es[|es| - 1])
  {
  }

  lemma {:induction false} SleepingInOrder(f: Entry -> int, es: seq<Entry>)
    requires InOrder(es)
    ensures InOrder(Sleeping(f, es))
  {
    hide Sleeping, Finished, InOrder, Apart;
    LastScanned(f, es);
    if es == [] {
      NoneInOrder();
    } else {
      var init := es[..|es| - 1];
      InitInOrder(es);
      SleepingInOrder(f, init);
      forall k | 0 <= k < |Sleeping(f, init)|
        ensures Sleeping(f, init)[k] in init
      {
        assert Sleeping(f, init)[k] in Sleeping(f, init);
      }
      AppendInOrder(Sleeping(f, init), es[|es| - 1]);
    }
  }

  lemma NoneInOrder()
    ensures InOrder([])
  {
  }

  lemma {:induction false} WaitingInOrder(es: seq<Entry>, i: nat)
    requires InOrder(es)
    ensures InOrder(WaitingOn(es, i))
  {
    hide InOrder, Apart;
    if es == [] {
      NoneInOrder();
    } else {
      var init := es[..|es| - 1];
      InitInOrder(es);
      WaitingInOrder(init, i);
      WaitingOnIn(init, i);
      if Names(es[|es| - 1], i) {
        AppendInOrder(WaitingOn(init, i), es[|es| - 1]);
      } else {
        assert WaitingOn(init, i) + [] == WaitingOn(init, i);
      }
    }
  }

  // ---------- Every part of a section keeps it ----------

  lemma WakeConstOrdered(st: State, loc: Loc)
    requires Good(st) && HasLoc(st, loc) && Ordered(st)
    ensures Ordered(WakeConst(st, loc))
  {
    hide Good, Verdict, InOrder, Finished, Sleeping;
    ConstCanEval(st, loc);
    SleepingInOrder(Verdict(st.store), ConstList(st, loc));
  }

  lemma {:induction false} WakeZeroSemsOrdered(st: State, nums: seq<nat>)
    requires Good(st) && Within(nums, |st.store.vals|) && Ordered(st)
    ensures Ordered(WakeZeroSems(st, nums))
  {
    hide Good, Ordered, WakeConst;
    if nums != [] {
      var n, s := nums[|nums| - 1], WakeZeroSems(st, nums[..|nums| - 1]);
      WakeZeroSemsOrdered(st, nums[..|nums| - 1]);
      if st.store.vals[n] == 0 {
        SemHere(s, n);
        WakeConstOrdered(s, Sem(n));
      }
    }
  }

  lemma WakeZeroOrdered(st: State, nums: seq<nat>)
    requires Good(st) && Within(nums, |st.store.vals|) && Ordered(st)
    ensures Ordered(WakeZero(st, nums))
  {
    hide Good, Ordered, WakeConst, WakeZeroSems;
    WakeZeroSemsOrdered(st, nums);
    WakeConstOrdered(WakeZeroSems(st, nums), Global);
  }

  lemma SameOrdered(st: State, r: State)
    requires Ordered(st)
    requires r.alter == st.alter && r.consts == st.consts && r.semAlter == st.semAlter && r.semConst == st.semConst
    ensures Ordered(r)
  {
  }

  lemma UnlinkOrdered(st: State, loc: Loc, k: nat)
    requires HasLoc(st, loc) && k < |AlterList(st, loc)| && Ordered(st)
    ensures Ordered(Unlink(st, loc, k))
  {
    hide InOrder, RemoveAt;
    RemoveInOrder(AlterList(st, loc), k);
  }

  lemma EffectOrdered(st: State, e: Entry)
    requires Good(st) && CanEval(st.store, e) && Ordered(st)
    ensures Ordered(Effect(st, e))
  {
    hide Good, Ordered, CanEval, Eval, WakeZero;
    NextGood(st, e);
    SopsHere(st.store, e);
    SameOrdered(st, st.(store := Next(st.store, e)));
    WakeZeroOrdered(st.(store := Next(st.store, e)), Nums(e.sops));
  }

  lemma CompleteOrdered(st: State, loc: Loc, k: nat)
    requires Good(st) && HasLoc(st, loc) && k < |AlterList(st, loc)| && Ordered(st)
    ensures Ordered(Complete(st, loc, k))
  {
    hide Good, Effect, CanEval, Status, Next, Ordered, Unlink;
    var e := AlterList(st, loc)[k];
    UnlinkGood(st, loc, k);
    AlterCanEval(st, loc);
    assert e in AlterList(st, loc);
    UnlinkOrdered(st, loc, k);
    EffectOrdered(Unlink(st, loc, k), e);
    SameOrdered(Effect(Unlink(st, loc, k), e), Complete(st, loc, k));
  }

  lemma {:induction false} DrainOrdered(st: State, loc: Loc)
    requires Good(st) && HasLoc(st, loc) && Ordered(st)
    ensures Ordered(Drain(st, loc))
    decreases |AlterList(st, loc)|
  {
    hide Good, Ordered, Complete;
    var k := FirstReady(Verdict(st.store), AlterList(st, loc));
    if k < |AlterList(st, loc)| {
      CompleteOrdered(st, loc, k);
      DrainOrdered(Complete(st, loc, k), loc);
    }
  }

  lemma {:induction false} DrainSemsOrdered(st: State, nums: seq<nat>)
    requires Good(st) && Within(nums, |st.store.vals|) && Ordered(st)
    ensures Ordered(DrainSems(st, nums))
  {
    hide Good, Ordered, Drain;
    if nums != [] {
      var n, s := nums[|nums| - 1], DrainSems(st, nums[..|nums| - 1]);
      DrainSemsOrdered(st, nums[..|nums| - 1]);
      SemHere(s, n);
      DrainOrdered(s, Sem(n));
    }
  }

  lemma SmartUpdateOrdered(st: State, sops: Option<seq<Sembuf>>)
    requires Good(st) && SopsFit(|st.store.vals|, sops) && Ordered(st)
    ensures Ordered(SmartUpdate(st, sops))
  {
    hide Good, Ordered, Drain, DrainSems, WakeZero;
    var s := WakeZero(st, ChangedNums(|st.store.vals|, sops));
    WakeZeroOrdered(st, ChangedNums(|st.store.vals|, sops));
    if s.alter != [] {
      DrainOrdered(s, Global);
    } else {
      DrainSemsOrdered(s, RaisedNums(|st.store.vals|, sops));
    }
  }

  ghost predicate Singles(es: seq<Entry>, i: nat) {
    forall e | e in es :: |e.sops| == 1 && e.sops[0].num == i
  }

  lemma GoodSingles(st: State)
    requires Good(st)
    ensures forall i | 0 <= i < |st.semAlter| :: Singles(st.semAlter[i], i)
  {
    forall i | 0 <= i < |st.semAlter|
      ensures Singles(st.semAlter[i], i)
    {
      assert SemAlterOk(|st.store.vals|, st.store.undos.Keys, i, st.semAlter[i]);
    }
  }

  lemma {:induction false} SplicedInOrder(qs: seq<seq<Entry>>, k: nat)
    requires k <= |qs| && AllInOrder(qs) && forall i | 0 <= i < |qs| :: Singles(qs[i], i)
    ensures InOrder(Spliced(qs, k))
    ensures forall e | e in Spliced(qs, k) :: |e.sops| == 1 && e.sops[0].num < k
  {
    if k > 0 {
      SplicedInOrder(qs, k - 1);
      var a, b := qs[k - 1], Spliced(qs, k - 1);
      assert Singles(a, k - 1);
      forall i, j | 0 <= i < |a| && 0 <= j < |b|
        ensures Apart(a[i], b[j])
      {
        assert a[i] in a && b[j] in b;
      }
      ConcatInOrder(a, b);
    }
  }

  lemma ConcatInOrder(a: seq<Entry>, b: seq<Entry>)
    requires InOrder(a) && InOrder(b)
    requires forall i, j | 0 <= i < |a| && 0 <= j < |b| :: Apart(a[i], b[j])
    ensures InOrder(a + b)
  {
  }

  lemma MergeOrdered(st: State)
    requires Good(st) && Ordered(st) && st.alter == []
    ensures Ordered(Merge(st))
  {
    hide Good, InOrder;
    GoodSingles(st);
    SplicedInOrder(st.semAlter, |st.semAlter|);
    NoneInOrder();
    assert Spliced(st.semAlter, |st.semAlter|) + [] == Spliced(st.semAlter, |st.semAlter|);
  }

  lemma UnmergeOrdered(st: State)
    requires Good(st) && Ordered(st) && Placeable(|st.semAlter|, st.alter)
    ensures Ordered(Unmerge(st))
  {
    hide InOrder, Bounded, Typed, Multi;
    NoneInOrder();
    if st.complex == 0 {
      var d := Distribute(st.semAlter, st.alter);
      forall i | 0 <= i < |d|
        ensures InOrder(d[i])
      {
        DistributeAt(st.semAlter, st.alter, i);
        WaitingInOrder(st.alter, i);
        if st.alter != [] {
          assert [] + WaitingOn(st.alter, i) == WaitingOn(st.alter, i);
        } else {
          assert st.semAlter[i] + [] == st.semAlter[i];
        }
      }
    }
  }

  /** Everybody queued was called before e. */
  ghost predicate Older(st: State, e: Entry) {
    forall c | Held(st, c) > 0 :: c.id < e.id
  }

  lemma OlderThan(es: seq<Entry>, e: Entry)
    requires InOrder(es) && forall c | In(es, c) > 0 :: c.id < e.id
    ensures InOrder(es + [e])
  {
    forall k | 0 <= k < |es|
      ensures es[k].id < e.id
    {
      assert In(es, es[k]) > 0;
    }
  }

  lemma EnqueueOrdered(st: State, e: Entry)
    requires Good(st) && CanEval(st.store, e) && Ordered(st) && Older(st, e) && (st.complex == 0 ==> st.alter == [])
    ensures Ordered(Enqueue(st, e))
  {
    hide InOrder, Merge, AllZeroOps, Bounded, Multi, NoSemAlter, InQueues;
    assert e.sops[0] in e.sops;
    if |e.sops| > 1 {
      var m := if st.complex == 0 then Merge(st) else st;
      if st.complex == 0 {
        MergeOrdered(st);
      }
      forall c
        ensures Held(m, c) == Held(st, c)
      {
        MergeHeld(st, c);
      }
      OlderThan(m.alter, e);
      OlderThan(m.consts, e);
    } else {
      var i := e.sops[0].num;
      OlderThan(st.alter, e);
      forall c | In(st.semAlter[i], c) > 0 || In(st.semConst[i], c) > 0
        ensures c.id < e.id
      {
        assert c in st.semAlter[i] || c in st.semConst[i];
        if c in st.semAlter[i] {
          InQueuesHas(st.semAlter, i, |st.semAlter|, c);
        } else {
          InQueuesHas(st.semConst, i, |st.semConst|, c);
        }
      }
      OlderThan(st.semAlter[i], e);
      OlderThan(st.semConst[i], e);
    }
  }

  // ---------- Steps and runs ----------

  lemma BodyOrdered(f: Full, a: Action)
    requires Inv(f) && Enabled(f, a) && Ordered(f.st)
    requires a.Semop? ==> Older(f.st, a.e)
    ensures Ordered(Body(f, a))
  {
    hide Quiet, SmartUpdate, Status, Next, Enqueue, Ordered, WithVal, WithAll, WithoutRow, Older,
         Bounded, Typed, Multi, Unlink, RemoveAt;
    var st := f.st;
    match a
    case Semop(e) =>
      SemopOrdered(f, e);
    case Interrupt(loc, alters, k) =>
      if alters {
        UnlinkOrdered(st, loc, k);
      } else {
        ConstRemovedOrdered(st, loc, k);
      }
    case SetVal(i, val) =>
      SameRowsGood(st, WithVal(st.store, i, val));
      SameOrdered(st, st.(store := WithVal(st.store, i, val)));
      SmartUpdateOrdered(st.(store := WithVal(st.store, i, val)), None);
    case SetAll(vals) =>
      SameRowsGood(st, WithAll(st.store, vals));
      SameOrdered(st, st.(store := WithAll(st.store, vals)));
      SmartUpdateOrdered(st.(store := WithAll(st.store, vals)), None);
    case NewUndo(u) =>
      SameOrdered(st, Body(f, a));
    case ExitUndo(u) =>
      FewerRowsGood(st, u);
      SameOrdered(st, st.(store := WithoutRow(st.store, u)));
      SmartUpdateOrdered(st.(store := WithoutRow(st.store, u)), None);
  }

  lemma ConstRemovedOrdered(st: State, loc: Loc, k: nat)
    requires HasLoc(st, loc) && k < |ConstList(st, loc)| && Ordered(st)
    ensures Ordered(WithConst(st, loc, RemoveAt(ConstList(st, loc), k), st.woken))
  {
    hide InOrder, RemoveAt;
    RemoveInOrder(ConstList(st, loc), k);
  }

  lemma SemopOrdered(f: Full, e: Entry)
    requires Inv(f) && Enabled(f, Semop(e)) && Ordered(f.st) && Older(f.st, e)
    ensures Ordered(SemopBody(f.st, e))
  {
    hide Quiet, SmartUpdate, Status, Next, Enqueue, Ordered, Older;
    var st := f.st;
    if Status(st.store, e) == 0 {
      NextGood(st, e);
      SameOrdered(st, st.(store := Next(st.store, e)));
      if !AllZeroOps(e.sops) {
        SmartUpdateOrdered(st.(store := Next(st.store, e)), Some(e.sops));
      }
    } else if Status(st.store, e) > 0 {
      EnqueueOrdered(st, e);
    }
  }

  lemma StepOrdered(f: Full, a: Action)
    requires Inv(f) && Enabled(f, a) && Ordered(f.st)
    requires a.Semop? ==> Older(f.st, a.e)
    ensures Ordered(Step(f, a).st)
  {
    hide Inv, Enabled, Good, Quiet, Body, Ordered, Older, Unmerge;
    BodyInv(f, a);
    BodyOrdered(f, a);
    LeaveInv(f, Nsops(f, a), Body(f, a));
    if TakesGlobal(f, Nsops(f, a)) {
      UnmergeOrdered(Body(f, a));
    }
  }

  lemma CallOlder(s: Sys, t: nat, e: Entry)
    requires SleepInv(s) && Can(s, t, Call(e))
    ensures Older(s.full.st, e)
  {
    hide Inv, Held, Enabled, Told, AllFinal, TasksOk, EndedOk;
    forall c | Held(s.full.st, c) > 0
      ensures c.id < e.id
    {
      assert Places(s.full.st, c) > 0;
    }
  }

  lemma ActOrdered(s: Sys, t: nat, m: Move)
    requires SleepInv(s) && Can(s, t, m) && Ordered(s.full.st)
    ensures Ordered(Act(s, t, m).full.st)
  {
    hide Held, Inv, Enabled, TasksOk, CallsOk, EndedOk, Ordered, Step, Older, Reads;
    match m
    case Call(e) =>
      CallOlder(s, t, e);
      StepOrdered(s.full, Semop(e));
    case Look =>
    case Relock(timedOut, signal, loc, alters, k) =>
      if s.valid && Reads(s, s.pcs[t].e) == -EINTR && !Stays(timedOut, signal) {
        assert Enabled(s.full, Interrupt(loc, alters, k)) by { InterruptEnabled(s.full, s.pcs[t].e, loc, alters, k); }
        StepOrdered(s.full, Interrupt(loc, alters, k));
      }
    case Other(a) =>
      StepOrdered(s.full, a);
    case Rmid =>
      SameSems(s.full);
      RemovedOrdered(s.full.st);
  }

  lemma SameSems(f: Full)
    requires Inv(f)
    ensures |f.st.semAlter| == |f.st.semConst|
  {
  }

  lemma InterruptEnabled(f: Full, e: Entry, loc: Loc, alters: bool, k: nat)
    requires Inv(f) && QueuedAt(f.st, e, loc, alters, k)
    ensures Enabled(f, Interrupt(loc, alters, k))
  {
  }

  lemma RemovedOrdered(st: State)
    requires |st.semAlter| == |st.semConst|
    ensures Ordered(Removed(st))
  {
  }

  lemma {:induction false} RunOrdered(s: Sys, steps: seq<(nat, Move)>)
    requires SleepInv(s) && SemSleepers.Runs(s, steps) && Ordered(s.full.st)
    ensures Ordered(SemSleepers.Run(s, steps).full.st)
    decreases |steps|
  {
    hide SleepInv, Can, Act, Ordered;
    if steps != [] {
      InvOf(s);
      ActOrdered(s, steps[0].0, steps[0].1);
      StepInv(s, steps[0].0, steps[0].1);
      RunOrdered(Act(s, steps[0].0, steps[0].1), steps[1..]);
    }
  }

  /** Over every run, with calls numbered as they come, an earlier place in a queue means an
      earlier call, for any two calls that are not single operations on different semaphores. */
  lemma FirstInFirstOut(tasks: nat, n: nat, steps: seq<(nat, Move)>, loc: Loc, alters: bool,
                        j: nat, k: nat, a: Entry, b: Entry)
    requires SemSleepers.Runs(Fresh(tasks, n), steps)
    requires var st := SemSleepers.Run(Fresh(tasks, n), steps).full.st;
             QueuedAt(st, a, loc, alters, j) && QueuedAt(st, b, loc, alters, k)
    requires !(|a.sops| == 1 && |b.sops| == 1 && a.sops[0].num != b.sops[0].num)
    ensures j < k <==> a.id < b.id
  {
    hide SleepInv, SemSleepers.Run, SemSleepers.Runs;
    var s := Fresh(tasks, n);
    assert Ordered(s.full.st);
    RunOrdered(s, steps);
  }
}
