/**
 struct sem_array of ipc/sem.c with its fields updated in place: the scans over
 the queues of sleeping calls, proved equal to the naive rules of SemSet.dfy.
 */
module SemArrays {
  import opened Options
  import opened SemOps
  import opened SemEval
  import opened SemSet
  import opened SemWakeup
  import opened SemCalls
  import opened SemRuns
  import opened SemPlaces
  import S = SemSleepers

  const EINVAL: int := 22

  lemma FirstReadyIs(f: Entry -> int, es: seq<Entry>, i: nat)
    requires i <= |es| && (i < |es| ==> f(es[i]) <= 0)
    requires forall j | 0 <= j < i :: f(es[j]) > 0
    ensures FirstReady(f, es) == i
  {
  }

  // ---------- A wait-for-zero scan that has looked at the first p calls ----------

  ghost function ScanState(st: State, loc: Loc, p: nat): State
    requires HasLoc(st, loc) && p <= |ConstList(st, loc)|
  {
    var es := ConstList(st, loc);
    WithConst(st, loc, Scanned(Verdict(st.store), es, p), st.woken + Finished(Verdict(st.store), es[..p]))
  }

  ghost function Kept(st: State, loc: Loc, p: nat): nat
    requires HasLoc(st, loc) && p <= |ConstList(st, loc)|
  {
    |Sleeping(Verdict(st.store), ConstList(st, loc)[..p])|
  }

  lemma ScanStarts(st: State, loc: Loc)
    requires HasLoc(st, loc) && st.complex == Multi(st.alter) + Multi(st.consts)
    ensures ScanState(st, loc, 0) == st && Kept(st, loc, 0) == 0
  {
    hide Verdict, Multi;
    ScanEnds(Verdict(st.store), ConstList(st, loc));
    assert WithConst(st, loc, ConstList(st, loc), st.woken) == st;
  }

  lemma ScanFinishes(st: State, loc: Loc)
    requires Good(st) && HasLoc(st, loc)
    ensures ScanState(st, loc, |ConstList(st, loc)|) == WakeConst(st, loc)
    ensures |ConstList(WakeConst(st, loc), loc)| == Kept(st, loc, |ConstList(st, loc)|)
  {
    ScanEnds(Verdict(st.store), ConstList(st, loc));
  }

  lemma ScanCall(st: State, loc: Loc, p: nat)
    requires Good(st) && HasLoc(st, loc) && p < |ConstList(st, loc)|
    ensures var q := ConstList(st, loc)[p];
            && CanEval(st.store, q) && Next(st.store, q) == st.store
            && Verdict(st.store)(q) == Status(st.store, q)
            && (loc.Sem? ==> |q.sops| == 1)
  {
    var es := ConstList(st, loc);
    ConstCanEval(st, loc);
    assert es[p] in es;
    ConstReady(st.store, es[p]);
    if loc.Sem? {
      assert SemConstOk(|st.store.vals|, st.store.undos.Keys, loc.i, es);
    }
  }

  lemma GoodCounts(st: State)
    requires Good(st)
    ensures st.complex == Multi(st.alter) + Multi(st.consts)
  {
  }

  lemma WithConstAgain(st: State, loc: Loc, left: seq<Entry>, log: seq<Wake>, left': seq<Entry>, log': seq<Wake>)
    requires HasLoc(st, loc)
    ensures WithConst(WithConst(st, loc, left, log), loc, left', log') == WithConst(st, loc, left', log')
  {
  }

  lemma ScanMoves(st: State, loc: Loc, p: nat)
    requires HasLoc(st, loc) && p < |ConstList(st, loc)|
    requires st.complex == Multi(st.alter) + Multi(st.consts)
    ensures var now, i, v := ScanState(st, loc, p), Kept(st, loc, p), Verdict(st.store)(ConstList(st, loc)[p]);
            && HasLoc(now, loc) && now.store == st.store
            && now.complex == Multi(now.alter) + Multi(now.consts)
            && i < |ConstList(now, loc)| && ConstList(now, loc)[i] == ConstList(st, loc)[p]
            && (v > 0 ==> ScanState(st, loc, p + 1) == now && Kept(st, loc, p + 1) == i + 1)
            && (v <= 0 ==> Kept(st, loc, p + 1) == i && ScanState(st, loc, p + 1) == ConstRemoved(now, loc, i, v))
  {
    hide Verdict, Multi, Sleeping, Finished, Scanned, RemoveAt;
    var f, es := Verdict(st.store), ConstList(st, loc);
    ScanStep(f, es, p);
    var v := f(es[p]);
    if v <= 0 {
      var log := st.woken + Finished(f, es[..p]);
      WithConstAgain(st, loc, Scanned(f, es, p), log, Scanned(f, es, p + 1), log + [Wake(es[p], v)]);
      assert log + [Wake(es[p], v)] == st.woken + Finished(f, es[..p + 1]);
    }
  }

  /** One wait-for-zero call leaves its queue with status v. */
  ghost function ConstRemoved(st: State, loc: Loc, i: nat, v: int): State
    requires HasLoc(st, loc) && i < |ConstList(st, loc)|
  {
    WithConst(st, loc, RemoveAt(ConstList(st, loc), i), st.woken + [Wake(ConstList(st, loc)[i], v)])
  }

  // ---------- Steps of the scans ----------

  lemma WakeZeroStep(st: State, nums: seq<nat>, i: nat)
    requires Good(st) && Within(nums, |st.store.vals|) && i < |nums|
    ensures WakeZeroSems(st, nums[..i + 1]) ==
            if st.store.vals[nums[i]] == 0 then WakeConst(WakeZeroSems(st, nums[..i]), Sem(nums[i]))
            else WakeZeroSems(st, nums[..i])
    ensures AnyZero(st.store, nums[..i + 1]) <==> AnyZero(st.store, nums[..i]) || st.store.vals[nums[i]] == 0
  {
    var init := nums[..i + 1];
    assert init[..i] == nums[..i] && init == nums[..i] + [nums[i]];
  }

  lemma ZeroNone(st: State, nums: seq<nat>)
    requires Good(st)
    ensures WakeZeroSems(st, nums[..0]) == st && !AnyZero(st.store, nums[..0])
  {
  }

  lemma UnlinkStore(st: State, loc: Loc, i: nat, s: Store)
    requires HasLoc(st, loc) && i < |AlterList(st, loc)| && |s.vals| == |st.store.vals|
    ensures Unlink(st.(store := s), loc, i) == Unlink(st, loc, i).(store := s)
  {
  }

  /** The calls before position i were just found blocked. */
  ghost predicate BlockedUpTo(st: State, loc: Loc, i: nat)
    requires HasLoc(st, loc) && i <= |AlterList(st, loc)|
  {
    forall j | 0 <= j < i :: Verdict(st.store)(AlterList(st, loc)[j]) > 0
  }

  lemma DrainStep(st: State, loc: Loc, i: nat)
    requires Good(st) && HasLoc(st, loc) && i < |AlterList(st, loc)|
    requires BlockedUpTo(st, loc, i) && Verdict(st.store)(AlterList(st, loc)[i]) <= 0
    ensures Drain(st, loc) == Drain(Complete(st, loc, i), loc)
  {
    FirstReadyIs(Verdict(st.store), AlterList(st, loc), i);
  }

  lemma EvalFits(s: Store, e: Entry)
    requires CanEval(s, e)
    ensures SopsFit(|s.vals|, Some(e.sops))
    ensures Verdict(s)(e) == Status(s, e)
    ensures Status(s, e) > 0 ==> Next(s, e) == s
  {
  }

  lemma DrainDone(st: State, loc: Loc)
    requires Good(st) && HasLoc(st, loc) && BlockedUpTo(st, loc, |AlterList(st, loc)|)
    ensures Drain(st, loc) == st
  {
    FirstReadyIs(Verdict(st.store), AlterList(st, loc), |AlterList(st, loc)|);
  }

  /** Decrements of a semaphore that is zero all sleep, so the scan may stop. */
  lemma ZeroBlocksAll(st: State, i: nat)
    requires Good(st) && i < |st.store.vals| && st.store.vals[i] == 0
    ensures BlockedUpTo(st, Sem(i), |st.semAlter[i]|)
  {
    AlterCanEval(st, Sem(i));
    assert SemAlterOk(|st.store.vals|, st.store.undos.Keys, i, st.semAlter[i]);
    forall j | 0 <= j < |st.semAlter[i]|
      ensures Verdict(st.store)(st.semAlter[i][j]) > 0
    {
      SimpleAlterReady(st.store, i, st.semAlter[i][j]);
    }
  }

  /** A decrement that completes leaves every older decrement of the semaphore blocked. */
  lemma DecrementKeepsBlocked(st: State, i: nat, k: nat)
    requires Good(st) && i < |st.store.vals| && k < |st.semAlter[i]|
    requires BlockedUpTo(st, Sem(i), k)
    requires Verdict(st.store)(st.semAlter[i][k]) == 0
    ensures BlockedUpTo(Complete(st, Sem(i), k), Sem(i), k)
  {
    AlterCanEval(st, Sem(i));
    var es := st.semAlter[i];
    assert SemAlterOk(|st.store.vals|, st.store.undos.Keys, i, es);
    var r := Complete(st, Sem(i), k);
    assert es[k] in es;
    SimpleAlterReady(st.store, i, es[k]);
    AlterCanEval(r, Sem(i));
    forall j | 0 <= j < k
      ensures Verdict(r.store)(r.semAlter[i][j]) > 0
    {
      assert r.semAlter[i][j] == es[j] && es[j] in es;
      SimpleAlterReady(st.store, i, es[j]);
      SimpleAlterReady(r.store, i, es[j]);
    }
  }

  /** check_restart is right: when it says no, or the call failed, every call
      already passed over is still blocked. */
  lemma NoRestart(st: State, loc: Loc, i: nat)
    requires Good(st) && HasLoc(st, loc) && i < |AlterList(st, loc)|
    requires BlockedUpTo(st, loc, i)
    requires var r, v := Complete(st, loc, i), Verdict(st.store)(AlterList(st, loc)[i]);
             v < 0 || (v == 0 && r.alter == [])
    ensures HasLoc(Complete(st, loc, i), loc) && i <= |AlterList(Complete(st, loc, i), loc)|
    ensures BlockedUpTo(Complete(st, loc, i), loc, i)
  {
    AlterCanEval(st, loc);
    var es := AlterList(st, loc);
    assert es[i] in es;
    if Verdict(st.store)(es[i]) < 0 {
      assert Complete(st, loc, i).store == st.store;
    } else if loc.Sem? {
      DecrementKeepsBlocked(st, loc.i, i);
    }
  }

  // ---------- Steps of the queue moves ----------

  lemma SplicedNone(qs: seq<seq<Entry>>)
    ensures Spliced(qs, 0) == [] && Emptied(qs, 0) == qs
  {
  }

  lemma SemopBodyIs(st: State, e: Entry)
    requires Good(st) && CanEval(st.store, e)
    ensures var error, done := Status(st.store, e), st.(store := Next(st.store, e));
            && Good(done) && SopsFit(|st.store.vals|, Some(e.sops))
            && (error == 0 && AllZeroOps(e.sops) ==> SemopBody(st, e) == done)
            && (error == 0 && !AllZeroOps(e.sops) ==> SemopBody(st, e) == SmartUpdate(done, Some(e.sops)))
            && (error < 0 ==> SemopBody(st, e) == done)
            && (error > 0 ==> SemopBody(st, e) == Enqueue(st, e) && done == st)
  {
    NextGood(st, e);
  }

  lemma SemConstSingle(st: State)
    requires Good(st)
    ensures forall i, k | 0 <= i < |st.semConst| && 0 <= k < |st.semConst[i]| :: |st.semConst[i][k].sops| == 1
  {
    forall i, k | 0 <= i < |st.semConst| && 0 <= k < |st.semConst[i]|
      ensures |st.semConst[i][k].sops| == 1
    {
      assert SemConstOk(|st.store.vals|, st.store.undos.Keys, i, st.semConst[i]);
      assert st.semConst[i][k] in st.semConst[i];
    }
  }

  ghost predicate Counted(st: State) {
    st.complex == Multi(st.alter) + Multi(st.consts)
  }

  lemma InterruptBodyIs(f: Full, loc: Loc, alters: bool, k: nat)
    requires Inv(f) && Enabled(f, Interrupt(loc, alters, k))
    ensures HasLoc(f.st, loc) && k < |if alters then AlterList(f.st, loc) else ConstList(f.st, loc)|
    ensures Nsops(f, Interrupt(loc, alters, k)) == |(if alters then AlterList(f.st, loc) else ConstList(f.st, loc))[k].sops|
    ensures Body(f, Interrupt(loc, alters, k)) == InterruptBody(f.st, loc, alters, k)
    ensures Counted(f.st) && (!alters && loc.Sem? ==> |f.st.semConst[loc.i][k].sops| == 1)
  {
    SemConstSingle(f.st);
  }

  lemma SetValBodyIs(f: Full, i: nat, val: int)
    requires Inv(f) && Enabled(f, SetVal(i, val))
    ensures Bounded(f.st.store) && Good(f.st.(store := WithVal(f.st.store, i, val)))
    ensures Body(f, SetVal(i, val)) == SmartUpdate(f.st.(store := WithVal(f.st.store, i, val)), None)
  {
    SameRowsGood(f.st, WithVal(f.st.store, i, val));
  }

  lemma SetAllBodyIs(f: Full, vals: seq<int>)
    requires Inv(f) && Enabled(f, SetAll(vals))
    ensures Bounded(f.st.store) && Good(f.st.(store := WithAll(f.st.store, vals)))
    ensures Body(f, SetAll(vals)) == SmartUpdate(f.st.(store := WithAll(f.st.store, vals)), None)
  {
    SameRowsGood(f.st, WithAll(f.st.store, vals));
  }

  lemma ExitBodyIs(f: Full, u: nat)
    requires Inv(f) && Enabled(f, ExitUndo(u))
    ensures Bounded(f.st.store) && Good(f.st.(store := WithoutRow(f.st.store, u)))
    ensures Body(f, ExitUndo(u)) == SmartUpdate(f.st.(store := WithoutRow(f.st.store, u)), None)
  {
    FewerRowsGood(f.st, u);
  }

  lemma NewUndoBodyIs(f: Full, u: nat)
    requires Inv(f) && Enabled(f, NewUndo(u))
    ensures Body(f, NewUndo(u)) == f.st.(store := f.st.store.(undos := f.st.store.undos[u := Zeros(|f.st.store.vals|)]))
  {
  }

  lemma StepIs(f: Full, a: Action)
    requires Inv(f) && Enabled(f, a)
    ensures var lock, global := Enter(f, Nsops(f, a)).lock, TakesGlobal(f, Nsops(f, a));
            && (global ==> Placeable(|Body(f, a).semAlter|, Body(f, a).alter) && lock > 0)
            && Step(f, a) == Leave(Full(Body(f, a), lock), global)
  {
    BodyInv(f, a);
    LeaveInv(f, Nsops(f, a), Body(f, a));
  }

  lemma SplicedStep(qs: seq<seq<Entry>>, i: nat)
    requires i < |qs|
    ensures Spliced(qs, i + 1) == qs[i] + Spliced(qs, i)
    ensures Emptied(qs, i + 1) == Emptied(qs, i)[i := []]
  {
  }

  lemma DistributeNone(qs: seq<seq<Entry>>)
    ensures Distribute(qs, []) == qs
  {
  }

  lemma DistributeStep(qs: seq<seq<Entry>>, es: seq<Entry>, k: nat)
    requires Placeable(|qs|, es) && k < |es|
    ensures Distribute(qs, es[..k + 1]) ==
            (var d, n := Distribute(qs, es[..k]), es[k].sops[0].num; d[n := d[n] + [es[k]]])
  {
    assert es[..k + 1][..k] == es[..k];
  }

  predicate Alters(sops: seq<Sembuf>)
    ensures Alters(sops) <==> !AllZeroOps(sops)
  {
    exists k | 0 <= k < |sops| :: sops[k].op != 0
  }

  lemma QueuedEnabled(f: Full, e: Entry, loc: Loc, alters: bool, k: nat)
    requires Inv(f) && QueuedAt(f.st, e, loc, alters, k)
    ensures Enabled(f, Interrupt(loc, alters, k))
  {
  }

  // ---------- IPC_RMID ----------

  lemma NoMulti()
    ensures Multi([]) == 0
  {
  }

  lemma SemQueuesSingle(st: State)
    requires Good(st)
    ensures forall i, e | 0 <= i < |st.semConst| && e in st.semConst[i] :: |e.sops| == 1
    ensures forall i, e | 0 <= i < |st.semAlter| && e in st.semAlter[i] :: |e.sops| == 1
  {
    forall i, e | 0 <= i < |st.semConst| && (e in st.semConst[i] || e in st.semAlter[i])
      ensures |e.sops| == 1
    {
      assert SemConstOk(|st.store.vals|, st.store.undos.Keys, i, st.semConst[i]);
      assert SemAlterOk(|st.store.vals|, st.store.undos.Keys, i, st.semAlter[i]);
    }
  }

  /** The first k calls of a wait-for-zero list were failed. */
  ghost function FailedConsts(st: State, loc: Loc, k: nat): State
    requires HasLoc(st, loc) && k <= |ConstList(st, loc)|
  {
    var es := ConstList(st, loc);
    WithConst(st, loc, es[k..], st.woken + Failed(es[..k]))
  }

  lemma ConstsStart(st: State, loc: Loc)
    requires HasLoc(st, loc) && Counted(st)
    ensures FailedConsts(st, loc, 0) == st && ConstList(st, loc)[0..] == ConstList(st, loc)
  {
    var es := ConstList(st, loc);
    assert es[0..] == es && Failed(es[..0]) == [];
  }

  lemma ConstsStep(st: State, loc: Loc, k: nat)
    requires HasLoc(st, loc) && k < |ConstList(st, loc)| && Counted(st)
    ensures var now, next := FailedConsts(st, loc, k), FailedConsts(st, loc, k + 1);
            && HasLoc(now, loc) && HasLoc(next, loc) && Counted(next)
            && ConstList(now, loc) == ConstList(st, loc)[k..] && ConstList(next, loc) == ConstList(st, loc)[k + 1..]
            && next == ConstRemoved(now, loc, 0, -EIDRM)
  {
    hide Multi;
    var es := ConstList(st, loc);
    FailedStep(es, k);
    assert st.woken + Failed(es[..k + 1]) == st.woken + Failed(es[..k]) + [Wake(es[k], -EIDRM)];
  }

  /** The first k calls of a list of changes were failed. */
  ghost function FailedAlters(st: State, loc: Loc, k: nat): State
    requires HasLoc(st, loc) && k <= |AlterList(st, loc)|
  {
    var es := AlterList(st, loc);
    var s := st.(woken := st.woken + Failed(es[..k]));
    if loc.Global? then s.(alter := es[k..], complex := Multi(es[k..]) + Multi(st.consts))
    else s.(semAlter := st.semAlter[loc.i := es[k..]])
  }

  lemma AltersStart(st: State, loc: Loc)
    requires HasLoc(st, loc) && Counted(st)
    ensures FailedAlters(st, loc, 0) == st && AlterList(st, loc)[0..] == AlterList(st, loc)
  {
    var es := AlterList(st, loc);
    assert es[0..] == es && Failed(es[..0]) == [];
  }

  lemma AltersStep(st: State, loc: Loc, k: nat)
    requires HasLoc(st, loc) && k < |AlterList(st, loc)| && Counted(st)
    requires loc.Sem? ==> |st.semAlter[loc.i][k].sops| == 1
    ensures var now, next, es := FailedAlters(st, loc, k), FailedAlters(st, loc, k + 1), AlterList(st, loc);
            && HasLoc(now, loc) && HasLoc(next, loc) && Counted(next)
            && AlterList(now, loc) == es[k..] && AlterList(next, loc) == es[k + 1..]
            && next == WakePrepared(Unlink(now, loc, 0), es[k], -EIDRM)
  {
    hide Multi, Failed;
    var es := AlterList(st, loc);
    FailedStep(es, k);
    RestStep(es, k);
    LogStep(st.woken, Failed(es[..k]), Wake(es[k], -EIDRM));
    if loc.Sem? {
      assert st.semAlter[loc.i := es[k..]][loc.i := es[k + 1..]] == st.semAlter[loc.i := es[k + 1..]];
    }
  }

  lemma RestStep(es: seq<Entry>, k: nat)
    requires k < |es|
    ensures es[k..][0] == es[k] && RemoveAt(es[k..], 0) == es[k + 1..]
    ensures Multi(es[k + 1..]) == Multi(es[k..]) - (if |es[k].sops| > 1 then 1 else 0)
  {
    MultiRemoveAt(es[k..], 0);
  }

  lemma LogStep(a: seq<Wake>, b: seq<Wake>, w: Wake)
    ensures a + (b + [w]) == a + b + [w]
  {
  }

  lemma FailedConstsAll(st: State, loc: Loc)
    requires HasLoc(st, loc) && Counted(st)
    ensures var es, r := ConstList(st, loc), FailedConsts(st, loc, |ConstList(st, loc)|);
            && r.woken == st.woken + Failed(es) && r.alter == st.alter && r.semAlter == st.semAlter
            && (loc.Sem? ==> r == st.(semConst := st.semConst[loc.i := []], woken := r.woken))
            && (loc.Global? ==> r.consts == [] && r.semConst == st.semConst)
  {
    var es := ConstList(st, loc);
    assert es[..|es|] == es;
  }

  lemma FailedAltersAll(st: State, loc: Loc)
    requires HasLoc(st, loc) && Counted(st)
    ensures var es, r := AlterList(st, loc), FailedAlters(st, loc, |AlterList(st, loc)|);
            && r.woken == st.woken + Failed(es) && r.consts == st.consts && r.semConst == st.semConst
            && (loc.Sem? ==> r == st.(semAlter := st.semAlter[loc.i := []], woken := r.woken))
            && (loc.Global? ==> r.alter == [] && r.semAlter == st.semAlter)
  {
    var es := AlterList(st, loc);
    assert es[..|es|] == es && es[|es|..] == [];
  }

  lemma InvCounted(f: Full)
    requires Inv(f)
    ensures Counted(f.st)
    ensures forall i, e | 0 <= i < |f.st.semConst| && e in f.st.semConst[i] :: |e.sops| == 1
    ensures forall i, e | 0 <= i < |f.st.semAlter| && e in f.st.semAlter[i] :: |e.sops| == 1
  {
    SemQueuesSingle(f.st);
  }

  ghost function FailedSem(st: State, i: nat): State
    requires i < |st.semAlter| && i < |st.semConst|
  {
    st.(semAlter := st.semAlter[i := []], semConst := st.semConst[i := []],
        woken := st.woken + Failed(st.semConst[i]) + Failed(st.semAlter[i]))
  }

  lemma UnmergeNothing(st: State)
    requires st.alter == [] && st.complex == 0
    ensures Placeable(|st.semAlter|, st.alter) && Unmerge(st) == st
  {
  }

  lemma FailedStep(es: seq<Entry>, k: nat)
    requires k < |es|
    ensures Failed(es[..k + 1]) == Failed(es[..k]) + [Wake(es[k], -EIDRM)]
    ensures RemoveAt(es[k..], 0) == es[k + 1..]
  {
  }

  class SemArray {
    const semval: array<int>
    const semAlter: array<seq<Entry>>  // sems[i].pending_alter
    const semConst: array<seq<Entry>>  // sems[i].pending_const
    var alter: seq<Entry>              // pending_alter
    var consts: seq<Entry>             // pending_const
    var undos: map<nat, array<int>>    // list_id: the semadj rows of this set
    var complexCount: int
    var useGlobalLock: nat
    var woken: seq<Wake>               // the wake queue, with the statuses stored

    ghost predicate Valid()
      reads this
    {
      && semval.Length == semAlter.Length == semConst.Length
      && semAlter != semConst
      && (forall u | u in undos :: undos[u] != semval && undos[u].Length == semval.Length)
      && (forall u, v | u in undos && v in undos && u != v :: undos[u] != undos[v])
    }

    ghost function Values(): Store
      reads this, undos.Values, semval
    {
      Store(semval[..], map u | u in undos :: undos[u][..])
    }

    ghost function St(): State
      reads this, undos.Values, semval, semAlter, semConst
    {
      State(Values(), semAlter[..], semConst[..], alter, consts, complexCount, woken)
    }

    ghost function Whole(): Full
      reads this, undos.Values, semval, semAlter, semConst
    {
      Full(St(), useGlobalLock)
    }

    /** perform_atomic_semop on this set. */
    method Evaluate(e: Entry) returns (error: int)
      requires Valid() && CanEval(Values(), e)
      modifies semval, undos.Values
      ensures error == Status(old(Values()), e)
      ensures Values() == Next(old(Values()), e)
    {
      ghost var before := Values();
      var row: array?<int> := null;
      if e.undo.Some? {
        row := undos[e.undo.value];
      }
      assert Mem(semval[..], Row(row)) == MemFor(before, e);
      var blocking;
      error, blocking := Perform(semval, row, e.sops, e.dupsop);
      ghost var m := Mem(semval[..], Row(row));
      if e.undo.Some? {
        assert Values().undos == before.undos[e.undo.value := m.adj];
        assert before.undos[e.undo.value := before.undos[e.undo.value]] == before.undos;
      } else {
        assert Values().undos == before.undos;
      }
    }

    /** unlink_queue, for a wait-for-zero call */
    method UnlinkConst(loc: Loc, i: nat)
      requires Valid() && HasLoc(St(), loc) && i < |ConstList(St(), loc)|
      requires complexCount == Multi(alter) + Multi(consts)
      requires loc.Sem? ==> |semConst[loc.i][i].sops| == 1
      modifies this`consts, this`complexCount, semConst
      ensures Valid() && St() == WithConst(old(St()), loc, RemoveAt(ConstList(old(St()), loc), i), woken)
    {
      var q;
      if loc.Global? {
        q := consts[i];
        MultiRemoveAt(consts, i);
        consts := RemoveAt(consts, i);
      } else {
        q := semConst[loc.i][i];
        semConst[loc.i] := RemoveAt(semConst[loc.i], i);
      }
      if |q.sops| > 1 {
        complexCount := complexCount - 1;
      }
    }

    /** unlink_queue and wake_up_sem_queue_prepare, for a wait-for-zero call */
    method FinishConst(loc: Loc, i: nat, error: int)
      requires Valid() && HasLoc(St(), loc) && i < |ConstList(St(), loc)|
      requires complexCount == Multi(alter) + Multi(consts)
      requires loc.Sem? ==> |semConst[loc.i][i].sops| == 1
      modifies this`consts, this`complexCount, this`woken, semConst
      ensures Valid() && Values() == old(Values())
      ensures St() == ConstRemoved(old(St()), loc, i, error)
    {
      var q := if loc.Global? then consts[i] else semConst[loc.i][i];
      UnlinkConst(loc, i);
      woken := woken + [Wake(q, error)];
    }

    /** wake_const_ops */
    method WakeConstOps(loc: Loc)
      requires Valid() && Good(St()) && HasLoc(St(), loc)
      modifies this`consts, this`complexCount, this`woken, semConst, semval, undos.Values
      ensures Valid() && St() == WakeConst(old(St()), loc)
    {
      hide Good, WakeConst, WithConst, CanEval, Status, Next, Verdict, Multi, ScanState, ConstRemoved, Kept;
      ghost var st0, n := St(), |ConstList(St(), loc)|;
      ghost var p := 0;
      GoodCounts(st0);
      ScanStarts(st0, loc);
      ScanFinishes(st0, loc);
      var i := 0;
      while i < |if loc.Global? then consts else semConst[loc.i]|
        invariant 0 <= p <= n && Valid() && undos == old(undos)
        invariant St() == ScanState(st0, loc, p) && i == Kept(st0, loc, p)
        invariant HasLoc(St(), loc)
        decreases n - p
      {
        ScanCall(st0, loc, p);
        ScanMoves(st0, loc, p);
        var q := if loc.Global? then consts[i] else semConst[loc.i][i];
        var error := Evaluate(q);
        if error > 0 {
          i := i + 1;
        } else {
          FinishConst(loc, i, error);
        }
        p := p + 1;
      }
      if p < n {
        ScanMoves(st0, loc, p);
      }
    }

    /** do_smart_wakeup_zero */
    method DoSmartWakeupZero(sops: Option<seq<Sembuf>>)
      requires Valid() && Good(St()) && SopsFit(semval.Length, sops)
      modifies this`consts, this`complexCount, this`woken, semConst, semval, undos.Values
      ensures Valid() && St() == WakeZero(old(St()), ChangedNums(semval.Length, sops))
    {
      hide Good, WakeConst, WakeZeroSems, AnyZero;
      ghost var st0, nums := St(), ChangedNums(semval.Length, sops);
      var gotZero := false;
      ZeroNone(st0, nums);
      for i := 0 to if sops.Some? then |sops.value| else semval.Length
        invariant Valid() && undos == old(undos)
        invariant i <= |nums| && St() == WakeZeroSems(st0, nums[..i])
        invariant gotZero <==> AnyZero(st0.store, nums[..i])
      {
        var num := if sops.Some? then sops.value[i].num else i;
        WakeZeroStep(st0, nums, i);
        assert nums[i] == num && semval[num] == st0.store.vals[num];
        if semval[num] == 0 {
          gotZero := true;
          WakeConstOps(Sem(num));
        }
      }
      assert nums[..|nums|] == nums;
      if gotZero {
        WakeConstOps(Global);
      }
    }

    /** check_restart */
    predicate CheckRestart(q: Entry)
      reads this`alter
    {
      alter != [] || |q.sops| > 1
    }

    /** unlink_queue, for a call that changes the set */
    method UnlinkAlter(loc: Loc, i: nat)
      requires Valid() && HasLoc(St(), loc) && i < |AlterList(St(), loc)|
      modifies this`alter, this`complexCount, semAlter
      ensures Valid() && St() == Unlink(old(St()), loc, i)
    {
      var q;
      if loc.Global? {
        q := alter[i];
        alter := RemoveAt(alter, i);
      } else {
        q := semAlter[loc.i][i];
        semAlter[loc.i] := RemoveAt(semAlter[loc.i], i);
      }
      if |q.sops| > 1 {
        complexCount := complexCount - 1;
      }
    }

    /** wake_up_sem_queue_prepare */
    method WakePrepare(q: Entry, error: int)
      modifies this`woken
      ensures St() == WakePrepared(old(St()), q, error)
    {
      woken := woken + [Wake(q, error)];
    }

    /** The part of update_queue after a queued call was evaluated and need not sleep. */
    method CompleteAt(loc: Loc, i: nat, error: int, ghost st0: State)
      requires Valid() && Good(st0) && HasLoc(st0, loc) && i < |AlterList(st0, loc)|
      requires CanEval(st0.store, AlterList(st0, loc)[i])
      requires SopsFit(semval.Length, Some(AlterList(st0, loc)[i].sops))
      requires St() == st0.(store := Next(st0.store, AlterList(st0, loc)[i]))
      requires error == Status(st0.store, AlterList(st0, loc)[i])
      modifies this`alter, this`consts, this`complexCount, this`woken, semAlter, semConst, semval, undos.Values
      ensures Valid() && St() == Complete(st0, loc, i)
    {
      hide Good, Complete, CanEval, Status, Next, WakeZero, Unlink, WakePrepared;
      var q := if loc.Global? then alter[i] else semAlter[loc.i][i];
      CompleteIs(st0, loc, i);
      UnlinkStore(st0, loc, i, Next(st0.store, q));
      UnlinkAlter(loc, i);
      if error == 0 {
        assert SopsFit(semval.Length, Some(q.sops));
        DoSmartWakeupZero(Some(q.sops));
      }
      WakePrepare(q, error);
    }

    /** update_queue: one pass with restarts and early exits does what the naive
        rule does. The per-semaphore form is only used while the global queue is empty. */
    method UpdateQueue(loc: Loc)
      requires Valid() && Good(St()) && HasLoc(St(), loc)
      requires loc.Sem? ==> alter == []
      modifies this`alter, this`consts, this`complexCount, this`woken, semAlter, semConst, semval, undos.Values
      ensures Valid() && St() == Drain(old(St()), loc)
    {
      hide Good, Drain, Complete, Verdict, CanEval, Status, Next, EntryFits;
      ghost var goal := Drain(St(), loc);
      var i := 0;
      while i < |if loc.Global? then alter else semAlter[loc.i]|
        invariant Valid() && undos == old(undos) && Good(St()) && HasLoc(St(), loc)
        invariant loc.Sem? ==> alter == []
        invariant i <= |AlterList(St(), loc)| && BlockedUpTo(St(), loc, i)
        invariant Drain(St(), loc) == goal
        decreases |AlterList(St(), loc)|, |AlterList(St(), loc)| - i
      {
        ghost var st := St();
        AlterCanEval(st, loc);
        if loc.Sem? && semval[loc.i] == 0 {
          ZeroBlocksAll(st, loc.i);
          break;
        }
        var q := if loc.Global? then alter[i] else semAlter[loc.i][i];
        assert q in AlterList(st, loc);
        EvalFits(st.store, q);
        var error := Evaluate(q);
        if error > 0 {
          assert St() == st;
          i := i + 1;
          continue;
        }
        DrainStep(st, loc, i);
        CompleteAt(loc, i, error, st);
        if error == 0 && CheckRestart(q) {
          i := 0;
        } else {
          NoRestart(st, loc, i);
        }
      }
      DrainDone(St(), loc);
    }

    /** do_smart_update */
    method DoSmartUpdate(sops: Option<seq<Sembuf>>)
      requires Valid() && Good(St()) && SopsFit(semval.Length, sops)
      modifies this`alter, this`consts, this`complexCount, this`woken, semAlter, semConst, semval, undos.Values
      ensures Valid() && St() == SmartUpdate(old(St()), sops)
    {
      hide Good, Drain, DrainSems, WakeZero, Raised, SmartUpdate, EntryFits;
      SmartUpdateIs(St(), sops);
      DoSmartWakeupZero(sops);
      if alter != [] {
        UpdateQueue(Global);
        return;
      }
      if sops.None? {
        UpdateSems();
      } else {
        UpdateRaised(sops.value);
      }
    }

    /** do_smart_update, when it is not known which semaphores were changed */
    method UpdateSems()
      requires Valid() && Good(St()) && alter == []
      modifies this`alter, this`consts, this`complexCount, this`woken, semAlter, semConst, semval, undos.Values
      ensures Valid() && St() == DrainSems(old(St()), AllNums(semval.Length))
    {
      hide Good, Drain, DrainSems;
      ghost var s, nums := St(), AllNums(semval.Length);
      DrainSemsNone(s);
      assert nums[..0] == [];
      for i := 0 to semval.Length
        invariant Valid() && undos == old(undos) && alter == []
        invariant St() == DrainSems(s, nums[..i])
      {
        DrainSemsStep(s, nums, i);
        UpdateQueue(Sem(i));
      }
      assert nums[..|nums|] == nums;
    }

    /** do_smart_update, when the operations of the call are known: only raised
        semaphores are looked at */
    method UpdateRaised(sops: seq<Sembuf>)
      requires Valid() && Good(St()) && alter == [] && SopsFit(semval.Length, Some(sops))
      modifies this`alter, this`consts, this`complexCount, this`woken, semAlter, semConst, semval, undos.Values
      ensures Valid() && St() == DrainSems(old(St()), Raised(sops))
    {
      hide Good, Drain, DrainSems, Raised;
      ghost var s := St();
      DrainSemsNone(s);
      assert sops[..0] == [];
      RaisedNone();
      for i := 0 to |sops|
        invariant Valid() && undos == old(undos) && alter == []
        invariant St() == DrainSems(s, Raised(sops[..i]))
      {
        RaisedStep(sops, i);
        if sops[i].op > 0 {
          DrainSemsAppend(s, Raised(sops[..i]), sops[i].num);
          UpdateQueue(Sem(sops[i].num));
        }
      }
      assert sops[..|sops|] == sops;
    }

    // ---------- Locking and queue modes, as one section sees them ----------

    /** merge_queues */
    method MergeQueues()
      requires Valid() && |St().semAlter| == semval.Length
      modifies this`alter, semAlter
      ensures Valid() && St() == Merge(old(St()))
    {
      hide Spliced, Emptied;
      ghost var qs, rest := semAlter[..], alter;
      SplicedNone(qs);
      for i := 0 to semAlter.Length
        invariant semAlter[..] == Emptied(qs, i) && alter == Spliced(qs, i) + rest
      {
        SplicedStep(qs, i);
        alter := semAlter[i] + alter;
        semAlter[i] := [];
      }
    }

    /** unmerge_queues */
    method UnmergeQueues()
      requires Valid() && Placeable(semAlter.Length, alter)
      modifies this`alter, semAlter
      ensures Valid() && St() == Unmerge(old(St()))
    {
      hide Distribute;
      if complexCount != 0 {
        return;
      }
      ghost var qs := semAlter[..];
      var es := alter;
      DistributeNone(qs);
      assert es[..0] == [];
      for k := 0 to |es|
        invariant alter == es && Valid() && Placeable(|qs|, es)
        invariant semAlter[..] == Distribute(qs, es[..k])
      {
        DistributeStep(qs, es, k);
        var num := es[k].sops[0].num;
        semAlter[num] := semAlter[num] + [es[k]];
      }
      assert es[..|es|] == es;
      alter := [];
    }

    /** sem_lock: true means the global lock was taken. */
    method SemLock(nsops: int) returns (global: bool)
      requires Valid()
      modifies this`useGlobalLock
      ensures Whole() == Enter(old(Whole()), nsops) && global == TakesGlobal(old(Whole()), nsops)
      ensures global <==> nsops != 1 || old(useGlobalLock) > 0
      ensures useGlobalLock == if nsops != 1 then 10 else old(useGlobalLock)
    {
      if nsops != 1 {
        useGlobalLock := USE_GLOBAL_LOCK_HYSTERESIS;
        return true;
      }
      global := useGlobalLock > 0;
    }

    /** sem_unlock */
    method SemUnlock(global: bool)
      requires Valid() && (global ==> Placeable(semAlter.Length, alter))
      requires global && complexCount == 0 ==> useGlobalLock > 0
      modifies this`alter, this`useGlobalLock, semAlter
      ensures Valid() && Whole() == Leave(old(Whole()), global)
      ensures useGlobalLock == old(useGlobalLock) - if global && complexCount == 0 then 1 else 0
    {
      if global {
        UnmergeQueues();
        if complexCount == 0 {
          useGlobalLock := useGlobalLock - 1;
        }
      }
    }

    // ---------- Entry points ----------

    /** The queueing part of do_semtimedop. */
    method EnqueueCall(e: Entry)
      requires Valid() && Good(St()) && CanEval(Values(), e)
      modifies this`alter, this`consts, this`complexCount, semAlter, semConst
      ensures Valid() && St() == Enqueue(old(St()), e)
    {
      assert e.sops != [] && e.sops[0] in e.sops;
      var num := e.sops[0].num;
      var alters := Alters(e.sops);
      hide Good, CanEval, EntryFits, Bounded, AllZeroOps, Alters, Merge;
      if |e.sops| == 1 {
        if !alters {
          semConst[num] := semConst[num] + [e];
        } else if complexCount != 0 {
          alter := alter + [e];
        } else {
          semAlter[num] := semAlter[num] + [e];
        }
      } else {
        if complexCount == 0 {
          MergeQueues();
        }
        AppendGlobal(e, alters);
      }
    }

    method AppendGlobal(e: Entry, alters: bool)
      modifies this`alter, this`consts, this`complexCount
      ensures Values() == old(Values()) && Valid() == old(Valid())
      ensures St() == if alters then old(St()).(alter := old(alter) + [e], complex := old(complexCount) + 1)
                      else old(St()).(consts := old(consts) + [e], complex := old(complexCount) + 1)
    {
      if alters {
        alter := alter + [e];
      } else {
        consts := consts + [e];
      }
      complexCount := complexCount + 1;
    }

    /** What do_semtimedop does while it holds the lock. A result of 1 means the
        call was queued. */
    method TryOrQueue(e: Entry) returns (error: int)
      requires Valid() && Good(St()) && CanEval(Values(), e)
      modifies this`alter, this`consts, this`complexCount, this`woken, semAlter, semConst, semval, undos.Values
      ensures Valid()
      ensures error == Status(old(Values()), e)
      ensures St() == SemopBody(old(St()), e)
    {
      SemopBodyIs(St(), e);
      var alters := Alters(e.sops);
      hide Good, CanEval, Status, Next, Enqueue, SmartUpdate, EntryFits, SemopBody, Bounded, AllZeroOps, SopsFit, Alters;
      error := Evaluate(e);
      assert St() == old(St()).(store := Next(old(Values()), e));
      if error == 0 {
        if alters {
          DoSmartUpdate(Some(e.sops));
        }
      } else if error > 0 {
        EnqueueCall(e);
      }
    }

    /** do_semtimedop, up to the point where it returns or goes to sleep. */
    method SemTimedOp(e: Entry) returns (error: int)
      requires Valid() && Inv(Whole()) && CanEval(Values(), e)
      modifies this, semAlter, semConst, semval, undos.Values
      ensures Valid() && undos == old(undos)
      ensures error == Status(old(Values()), e)
      ensures Whole() == Step(old(Whole()), Semop(e))
    {
      StepIs(Whole(), Semop(e));
      hide Good, Quiet, CanEval, Status, Step, SemopBody, Unmerge, EntryFits;
      var global := SemLock(|e.sops|);
      error := TryOrQueue(e);
      SemUnlock(global);
    }

    /** A queued call is taken off its queue after a signal or a timeout. */
    method GiveUp(q: Entry, loc: Loc, alters: bool, k: nat)
      requires Valid() && Inv(Whole()) && QueuedAt(St(), q, loc, alters, k) && Enabled(Whole(), Interrupt(loc, alters, k))
      modifies this, semAlter, semConst
      ensures Valid() && undos == old(undos)
      ensures Whole() == Step(old(Whole()), Interrupt(loc, alters, k))
    {
      hide Good, Quiet, Step, Unmerge, Body, Inv, Enabled, Multi, InterruptBody, Placeable, Counted;
      StepIs(Whole(), Interrupt(loc, alters, k));
      InterruptBodyIs(Whole(), loc, alters, k);
      var global := SemLock(|q.sops|);
      Remove(loc, alters, k);
      SemUnlock(global);
    }

    /** A section that finds nothing to do */
    method Pass(n: nat)
      requires Valid() && Inv(Whole())
      modifies this`useGlobalLock, this`alter, semAlter
      ensures Valid() && Whole() == S.Passed(old(Whole()), n)
    {
      hide Unmerge, Placeable, Inv, S.Passed;
      S.PassIs(Whole(), n);
      var global := SemLock(n);
      SemUnlock(global);
    }

    /** The sleeping end of do_semtimedop under the lock, on the way of task t in the run s: valid
        says whether the set is still there, status is what queue.status holds, and
        the call's node is at (loc, alters, k) if it is queued. */
    method Relock(e: Entry, valid: bool, status: int, timedOut: bool, signal: bool, loc: Loc, alters: bool, k: nat,
                  ghost s: S.Sys, ghost t: nat)
      returns (asleep: bool, error: int)
      requires Valid() && S.SleepInv(s) && s.full == Whole() && s.valid == valid
      requires t < |s.pcs| && s.pcs[t] == S.Unsure(e) && status == S.Reads(s, e)
      requires S.Can(s, t, S.Relock(timedOut, signal, loc, alters, k))
      modifies this, semAlter, semConst
      ensures Valid() && undos == old(undos)
      ensures asleep <==> valid && status == -EINTR && !timedOut && !signal
      ensures !asleep ==>
                error == if !valid then -EINTR else if status != -EINTR then status else if timedOut then -EAGAIN else -EINTR
      ensures var r := S.Act(s, t, S.Relock(timedOut, signal, loc, alters, k));
              && Whole() == r.full
              && r == if asleep then s.(full := r.full, pcs := s.pcs[t := S.Asleep(e)]) else S.Back(s.(full := r.full), t, e, error)
    {
      hide Inv, Step, S.SleepInv, S.Passed, S.Reads, QueuedAt, Enabled;
      S.InvOf(s);
      if !valid {
        Pass(|e.sops|);
        return false, -EINTR;
      }
      if status != -EINTR {
        Pass(|e.sops|);
        return false, status;
      }
      error := if timedOut then -EAGAIN else -EINTR;
      if error == -EINTR && !signal {
        Pass(|e.sops|);
        return true, error;
      }
      QueuedEnabled(Whole(), e, loc, alters, k);
      GiveUp(e, loc, alters, k);
      asleep := false;
    }

    /** unlink_queue */
    method Remove(loc: Loc, alters: bool, k: nat)
      requires Valid() && HasLoc(St(), loc)
      requires k < |if alters then AlterList(St(), loc) else ConstList(St(), loc)|
      requires Counted(St())
      requires !alters && loc.Sem? ==> |semConst[loc.i][k].sops| == 1
      modifies this`alter, this`consts, this`complexCount, semAlter, semConst
      ensures Valid() && St() == InterruptBody(old(St()), loc, alters, k)
    {
      if alters {
        UnlinkAlter(loc, k);
      } else {
        UnlinkConst(loc, k);
      }
    }

    /** do_smart_update with nothing known about what changed, and sem_unlock, under
        the global lock. */
    method UpdateAndUnlock()
      requires Valid() && Good(St()) && useGlobalLock > 0
      requires Placeable(|SmartUpdate(St(), None).semAlter|, SmartUpdate(St(), None).alter)
      modifies this`alter, this`consts, this`complexCount, this`woken, this`useGlobalLock
      modifies semAlter, semConst, semval, undos.Values
      ensures Valid() && Whole() == Leave(Full(SmartUpdate(old(St()), None), old(useGlobalLock)), true)
    {
      hide Good, SmartUpdate, Unmerge;
      DoSmartUpdate(None);
      SemUnlock(true);
    }

    /** semctl_setval */
    method SemctlSetval(i: int, val: int) returns (error: int)
      requires Valid() && Inv(Whole())
      modifies this, semAlter, semConst, semval, undos.Values
      ensures Valid() && undos == old(undos)
      ensures error == if !(0 <= val <= SEMVMX) then -ERANGE else if !(0 <= i < semval.Length) then -EINVAL else 0
      ensures Whole() == if error == 0 then Step(old(Whole()), SetVal(i, val)) else old(Whole())
    {
      hide Good, Quiet, Step, SmartUpdate, Body, Inv, WithVal, Bounded, Leave, Placeable;
      if val > SEMVMX || val < 0 {
        return -ERANGE;
      }
      if i < 0 || i >= semval.Length {
        return -EINVAL;
      }
      StepIs(Whole(), SetVal(i, val));
      SetValBodyIs(Whole(), i, val);
      var global := SemLock(-1);
      StoreVal(i, val);
      UpdateAndUnlock();
      error := 0;
    }

    method StoreVal(i: nat, val: int)
      requires Valid() && Bounded(Values()) && i < semval.Length && 0 <= val <= SEMVMX
      modifies semval, undos.Values
      ensures Values() == WithVal(old(Values()), i, val)
    {
      ghost var before := Values();
      forall u | u in undos {
        undos[u][i] := 0;
      }
      semval[i] := val;
      assert forall u | u in undos :: undos[u][..] == before.undos[u][i := 0];
      assert semval[..] == before.vals[i := val];
    }

    /** SETALL, once the user's values were copied and checked */
    method SemctlSetall(vals: seq<int>) returns (error: int)
      requires Valid() && Inv(Whole()) && |vals| == semval.Length
      requires forall i | 0 <= i < |vals| :: vals[i] >= 0
      modifies this, semAlter, semConst, semval, undos.Values
      ensures Valid() && undos == old(undos)
      ensures error == if ValsInRange(vals) then 0 else -ERANGE
      ensures Whole() == if error == 0 then Step(old(Whole()), SetAll(vals)) else old(Whole())
    {
      hide Good, Quiet, Step, SmartUpdate, Body, Inv, WithAll, Bounded, Leave, Placeable;
      for i := 0 to |vals|
        invariant forall j | 0 <= j < i :: vals[j] <= SEMVMX
      {
        if vals[i] > SEMVMX {
          return -ERANGE;
        }
      }
      StepIs(Whole(), SetAll(vals));
      SetAllBodyIs(Whole(), vals);
      var global := SemLock(-1);
      StoreAll(vals);
      UpdateAndUnlock();
      error := 0;
    }

    method StoreAll(vals: seq<int>)
      requires Valid() && Bounded(Values()) && |vals| == semval.Length && ValsInRange(vals)
      modifies semval, undos.Values
      ensures Values() == WithAll(old(Values()), vals)
    {
      for i := 0 to |vals|
        invariant semval[..i] == vals[..i]
        invariant Values().undos == old(Values()).undos
      {
        semval[i] := vals[i];
      }
      assert semval[..] == vals;
      ZeroRows();
    }

    method ZeroRows()
      requires Valid()
      modifies undos.Values
      ensures Values() == old(Values()).(undos := map u | u in undos :: Zeros(semval.Length))
    {
      var todo := undos.Keys;
      while todo != {}
        invariant todo <= undos.Keys && semval[..] == old(semval[..])
        invariant forall u | u in undos && u !in todo :: undos[u][..] == Zeros(semval.Length)
      {
        var u :| u in todo;
        ZeroRow(u);
        todo := todo - {u};
      }
      assert Values().undos == map u | u in undos :: Zeros(semval.Length);
    }

    method ZeroRow(u: nat)
      requires Valid() && u in undos
      modifies undos[u]
      ensures undos[u][..] == Zeros(semval.Length)
    {
      for i := 0 to semval.Length
        invariant forall j | 0 <= j < i :: undos[u][j] == 0
      {
        undos[u][i] := 0;
      }
    }

    /** The end of find_alloc_undo: a fresh row of zeros joins the set's list, unless somebody
        else has added one meanwhile. */
    method LinkUndo(u: nat) returns (linked: bool)
      requires Valid() && Inv(Whole())
      modifies this, semAlter
      ensures Valid() && Inv(Whole()) && linked == (u !in old(undos))
      ensures linked ==> undos.Keys == old(undos.Keys) + {u} && fresh(undos[u]) && Whole() == Step(old(Whole()), NewUndo(u))
      ensures !linked ==> undos == old(undos) && St() == old(St())
    {
      hide Good, Quiet, Step, Inv, Bounded, Placeable, Body, Leave, Zeros;
      var row := new int[semval.Length](_ => 0);
      ghost var before := Whole();
      if u in undos {
        LeaveSame(before);
        var entered := SemLock(-1);
        SemUnlock(entered);
        return false;
      }
      StepIs(before, NewUndo(u));
      NewUndoBodyIs(before, u);
      var global := SemLock(-1);
      AddRow(u, row);
      assert St() == Body(old(Whole()), NewUndo(u));
      SemUnlock(global);
      linked := true;
    }

    method AddRow(u: nat, row: array<int>)
      requires Valid() && u !in undos && row !in undos.Values && row != semval
      requires row.Length == semval.Length && forall i | 0 <= i < row.Length :: row[i] == 0
      modifies this`undos
      ensures Valid() && undos == old(undos)[u := row]
      ensures Values() == old(Values()).(undos := old(Values()).undos[u := Zeros(semval.Length)])
    {
      ghost var before := Values();
      undos := undos[u := row];
      assert row[..] == Zeros(semval.Length);
      assert Values().undos == before.undos[u := Zeros(semval.Length)];
    }

    /** One round of exit_sem: the row is unlinked and its adjustments are applied. */
    method ExitSem(u: nat)
      requires Valid() && Inv(Whole()) && u in undos && Unreferenced(St(), u)
      modifies this, semAlter, semConst, semval, undos.Values
      ensures Valid() && undos == old(undos) - {u}
      ensures Whole() == Step(old(Whole()), ExitUndo(u))
    {
      hide Good, Quiet, Step, SmartUpdate, Body, Inv, WithoutRow, Bounded, Leave, Placeable, Unreferenced;
      StepIs(Whole(), ExitUndo(u));
      ExitBodyIs(Whole(), u);
      var global := SemLock(-1);
      ApplyRow(u);
      UpdateAndUnlock();
    }

    method ApplyRow(u: nat)
      requires Valid() && Bounded(Values()) && u in undos
      modifies this`undos, semval
      ensures Valid() && undos == old(undos) - {u} && Values() == WithoutRow(old(Values()), u)
      ensures forall i | 0 <= i < semval.Length ::
                var sum := old(semval[i]) + old(undos[u][i]);
                semval[i] == if sum <= 0 then 0 else if sum >= SEMVMX then SEMVMX else sum
    {
      var row := undos[u];
      undos := undos - {u};
      for i := 0 to semval.Length
        modifies semval
        invariant forall j | 0 <= j < i :: semval[j] == Clamp(old(semval[j]) + row[j])
        invariant forall j | i <= j < semval.Length :: semval[j] == old(semval[j])
      {
        if row[i] != 0 {
          semval[i] := semval[i] + row[i];
          if semval[i] < 0 {
            semval[i] := 0;
          }
          if semval[i] > SEMVMX {
            semval[i] := SEMVMX;
          }
        }
      }
      assert semval[..] == WithoutRow(old(Values()), u).vals;
    }

    /** One wait-for-zero list of freeary */
    method FailConsts(loc: Loc)
      requires Valid() && HasLoc(St(), loc) && Counted(St())
      requires loc.Sem? ==> forall e | e in semConst[loc.i] :: |e.sops| == 1
      modifies this`consts, this`complexCount, this`woken, semConst
      ensures Valid() && Counted(St())
      ensures St() == FailedConsts(old(St()), loc, |ConstList(old(St()), loc)|)
    {
      ghost var st, es := St(), ConstList(St(), loc);
      ghost var k := 0;
      ConstsStart(st, loc);
      while |if loc.Global? then consts else semConst[loc.i]| > 0
        invariant k <= |es| && Valid() && HasLoc(St(), loc) && Counted(St())
        invariant ConstList(St(), loc) == es[k..]
        invariant St() == FailedConsts(st, loc, k)
        decreases |es| - k
      {
        hide Multi, RemoveAt, FailedConsts, ConstRemoved, WithConst;
        ConstsStep(st, loc, k);
        assert es[k..][0] == es[k] && es[k] in es;
        FinishConst(loc, 0, -EIDRM);
        k := k + 1;
      }
    }

    /** One list of changes of freeary */
    method FailAlters(loc: Loc)
      requires Valid() && HasLoc(St(), loc) && Counted(St())
      requires loc.Sem? ==> forall e | e in semAlter[loc.i] :: |e.sops| == 1
      modifies this`alter, this`complexCount, this`woken, semAlter
      ensures Valid() && Counted(St())
      ensures St() == FailedAlters(old(St()), loc, |AlterList(old(St()), loc)|)
    {
      hide Multi, RemoveAt, FailedAlters, Unlink, WakePrepared, Failed;
      ghost var st, es := St(), AlterList(St(), loc);
      ghost var k := 0;
      AltersStart(st, loc);
      while |if loc.Global? then alter else semAlter[loc.i]| > 0
        invariant k <= |es| && Valid() && HasLoc(St(), loc) && Counted(St())
        invariant AlterList(St(), loc) == es[k..]
        invariant St() == FailedAlters(st, loc, k)
        decreases |es| - k
      {
        AltersStep(st, loc, k);
        assert es[k..][0] == es[k];
        FailFirst(loc);
        k := k + 1;
      }
    }

    method FailFirst(loc: Loc)
      requires Valid() && HasLoc(St(), loc) && |AlterList(St(), loc)| > 0
      modifies this`alter, this`complexCount, this`woken, semAlter
      ensures Valid() && St() == WakePrepared(Unlink(old(St()), loc, 0), old(AlterList(St(), loc)[0]), -EIDRM)
    {
      hide Unlink, WakePrepared;
      var q := if loc.Global? then alter[0] else semAlter[loc.i][0];
      UnlinkAlter(loc, 0);
      WakePrepare(q, -EIDRM);
    }

    /** The two lists of one semaphore in freeary */
    method FailSem(i: nat)
      requires Valid() && Counted(St()) && i < semval.Length
      requires forall e | e in semConst[i] || e in semAlter[i] :: |e.sops| == 1
      modifies this`alter, this`consts, this`complexCount, this`woken, semAlter, semConst
      ensures Valid() && Counted(St())
      ensures St() == FailedSem(old(St()), i)
    {
      hide Multi, RemoveAt, Counted;
      ghost var st := St();
      FailConsts(Sem(i));
      FailedConstsAll(st, Sem(i));
      ghost var t := St();
      FailAlters(Sem(i));
      FailedAltersAll(t, Sem(i));
    }

    /** The per-semaphore lists of freeary */
    method FailSems()
      requires Valid() && Counted(St())
      requires forall i, e | 0 <= i < semval.Length && (e in semConst[i] || e in semAlter[i]) :: |e.sops| == 1
      modifies this`alter, this`consts, this`complexCount, this`woken, semAlter, semConst
      ensures Valid() && Counted(St())
      ensures alter == old(alter) && consts == old(consts)
      ensures forall i | 0 <= i < semAlter.Length :: semAlter[i] == [] && semConst[i] == []
      ensures woken == old(woken) + FailedSems(old(semConst[..]), old(semAlter[..]), semAlter.Length)
    {
      hide Multi, Counted, Failed;
      ghost var cs, qs := semConst[..], semAlter[..];
      for i := 0 to semAlter.Length
        invariant Valid() && Counted(St())
        invariant alter == old(alter) && consts == old(consts)
        invariant forall j | 0 <= j < i :: semAlter[j] == [] && semConst[j] == []
        invariant forall j | i <= j < semAlter.Length :: semAlter[j] == qs[j] && semConst[j] == cs[j]
        invariant woken == old(woken) + FailedSems(cs, qs, i)
      {
        ghost var t := St();
        FailSem(i);
        assert semAlter[..] == t.semAlter[i := []] && semConst[..] == t.semConst[i := []];
        assert woken == old(woken) + (FailedSems(cs, qs, i) + Failed(cs[i]) + Failed(qs[i]));
      }
    }

    /** The two global lists of freeary */
    method FailGlobals()
      requires Valid() && Counted(St())
      modifies this`alter, this`consts, this`complexCount, this`woken, semAlter, semConst
      ensures Valid() && Counted(St()) && alter == [] && consts == []
      ensures semAlter[..] == old(semAlter[..]) && semConst[..] == old(semConst[..])
      ensures woken == old(woken) + (Failed(old(consts)) + Failed(old(alter)))
    {
      hide Multi, RemoveAt, Counted, FailedConsts, FailedAlters;
      ghost var st := St();
      FailConsts(Global);
      FailedConstsAll(st, Global);
      ghost var t := St();
      FailAlters(Global);
      FailedAltersAll(t, Global);
    }

    /** freeary: the undo rows are dropped and everybody asleep is woken with EIDRM,
        once, before the set is unlocked for good. */
    method FreeAry()
      requires Valid() && Inv(Whole())
      modifies this, semAlter, semConst
      ensures Valid() && undos == map[] && semval[..] == old(semval[..])
      ensures alter == [] && consts == [] && complexCount == 0
      ensures forall i | 0 <= i < semAlter.Length :: semAlter[i] == [] && semConst[i] == []
      ensures woken == old(woken) + FailedAll(old(St()))
      ensures Whole() == Full(Removed(old(St())), USE_GLOBAL_LOCK_HYSTERESIS - 1)
    {
      hide Good, Quiet, Unmerge, Multi, Failed, Placeable;
      InvCounted(Whole());
      var global := SemLock(-1);
      undos := map[];
      FailLists();
      UnmergeNothing(St());
      SemUnlock(global);
    }

    method FailLists()
      requires Valid() && Counted(St())
      requires forall i, e | 0 <= i < semval.Length && (e in semConst[i] || e in semAlter[i]) :: |e.sops| == 1
      modifies this`alter, this`consts, this`complexCount, this`woken, semAlter, semConst
      ensures Valid() && alter == [] && consts == [] && complexCount == 0
      ensures forall i | 0 <= i < semAlter.Length :: semAlter[i] == [] && semConst[i] == []
      ensures woken == old(woken) + FailedAll(old(St()))
    {
      NoMulti();
      hide Multi, Failed, FailedSems;
      FailGlobals();
      FailSems();
    }
  }
}
