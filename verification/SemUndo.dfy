/**
 Undo accounting: a semaphore's value together with all the adjustments owed to
 it changes only by operations without SEM_UNDO, except where SETVAL, SETALL or
 a capped exit adjustment says otherwise.
 */
module SemUndo {
  import opened Options
  import opened SemOps
  import opened SemEval
  import opened SemSet
  import opened SemWakeup
  import opened SemCalls
  import opened SemRuns

  ghost predicate RowsBelow(s: Store, b: nat) {
    Bounded(s) && forall u | u in s.undos :: u < b
  }

  /** Sum of semadj[i] over the undo rows with ids below b. */
  ghost function SumAdj(s: Store, b: nat, i: nat): int
    requires Bounded(s) && i < |s.vals|
  {
    if b == 0 then 0 else SumAdj(s, b - 1, i) + (if b - 1 in s.undos then s.undos[b - 1][i] else 0)
  }

  /** semval[i] plus everything owed to it. */
  ghost function Total(s: Store, b: nat, i: nat): int
    requires Bounded(s) && i < |s.vals|
  {
    s.vals[i] + SumAdj(s, b, i)
  }

  lemma {:induction false} SumAdjDiffer(s: Store, s': Store, u: nat, b: nat, i: nat)
    requires Bounded(s) && Bounded(s') && i < |s.vals| && |s'.vals| == |s.vals|
    requires forall v | v != u :: (v in s.undos <==> v in s'.undos)
    requires forall v | v in s.undos && v != u :: s'.undos[v][i] == s.undos[v][i]
    ensures SumAdj(s', b, i) - SumAdj(s, b, i) ==
            if u < b then (if u in s'.undos then s'.undos[u][i] else 0) - (if u in s.undos then s.undos[u][i] else 0) else 0
  {
    if b > 0 {
      SumAdjDiffer(s, s', u, b - 1, i);
    }
  }

  lemma {:induction false} SumAdjSame(s: Store, s': Store, b: nat, i: nat)
    requires Bounded(s) && Bounded(s') && i < |s.vals| && |s'.vals| == |s.vals| && s'.undos == s.undos
    ensures SumAdj(s', b, i) == SumAdj(s, b, i)
  {
    if b > 0 {
      SumAdjSame(s, s', b - 1, i);
    }
  }

  lemma {:induction false} SumAdjZero(s: Store, b: nat, i: nat)
    requires Bounded(s) && i < |s.vals|
    requires forall u | u in s.undos :: s.undos[u][i] == 0
    ensures SumAdj(s, b, i) == 0
  {
    if b > 0 {
      SumAdjZero(s, b - 1, i);
    }
  }

  /** One evaluated call moves the total by its operations without SEM_UNDO. */
  lemma NextTotal(s: Store, e: Entry, b: nat, i: nat)
    requires CanEval(s, e) && RowsBelow(s, b) && i < |s.vals|
    ensures Total(Next(s, e), b, i) == Total(s, b, i) + (if Status(s, e) == 0 then Net(e.sops, 0, i, true) else 0)
  {
    if Eval(s, e).Done? {
      ExecNet(MemFor(s, e), e.sops, 0, i);
      if e.undo.Some? {
        SumAdjDiffer(s, Next(s, e), e.undo.value, b, i);
      } else {
        SumAdjSame(s, Next(s, e), b, i);
      }
    }
  }

  // ---------- The log of woken calls ----------

  /** What the successful calls of the log contributed without SEM_UNDO. */
  ghost function LogNet(ws: seq<Wake>, i: nat): int {
    if ws == [] then 0
    else
      var w := ws[|ws| - 1];
      LogNet(ws[..|ws| - 1], i) + (if w.status == 0 then Net(w.entry.sops, 0, i, true) else 0)
  }

  lemma {:induction false} LogNetConcat(a: seq<Wake>, b: seq<Wake>, i: nat)
    ensures LogNet(a + b, i) == LogNet(a, i) + LogNet(b, i)
  {
    if b == [] {
      assert a + b == a;
    } else {
      assert (a + b)[..|a + b| - 1] == a + b[..|b| - 1];
      LogNetConcat(a, b[..|b| - 1], i);
    }
  }

  lemma LogNetAppend(ws: seq<Wake>, w: Wake, i: nat)
    ensures LogNet(ws + [w], i) == LogNet(ws, i) + (if w.status == 0 then Net(w.entry.sops, 0, i, true) else 0)
  {
    assert (ws + [w])[..|ws|] == ws;
  }

  lemma {:induction false} NetZeroOps(sops: seq<Sembuf>, k: nat, i: nat)
    requires k <= |sops| && AllZeroOps(sops)
    ensures Net(sops, k, i, true) == 0
    decreases |sops| - k
  {
    if k < |sops| {
      NetZeroOps(sops, k + 1, i);
    }
  }

  lemma {:induction false} FinishedNet(f: Entry -> int, es: seq<Entry>, i: nat)
    requires forall e | e in es :: AllZeroOps(e.sops)
    ensures LogNet(Finished(f, es), i) == 0
  {
    if es != [] {
      var e, init := es[|es| - 1], es[..|es| - 1];
      FinishedNet(f, init, i);
      assert e in es;
      if f(e) <= 0 {
        NetZeroOps(e.sops, 0, i);
        LogNetAppend(Finished(f, init), Wake(e, f(e)), i);
      } else {
        assert Finished(f, es) == Finished(f, init);
      }
    }
  }

  /** The conserved quantity of a locked section. */
  ghost function Ledger(st: State, b: nat, i: nat): int
    requires Bounded(st.store) && i < |st.store.vals|
  {
    Total(st.store, b, i) - LogNet(st.woken, i)
  }

  lemma WakeConstLedger(st: State, loc: Loc, b: nat, i: nat)
    requires Good(st) && HasLoc(st, loc) && i < |st.store.vals|
    ensures Ledger(WakeConst(st, loc), b, i) == Ledger(st, b, i)
  {
    ConstCanEval(st, loc);
    FinishedNet(Verdict(st.store), ConstList(st, loc), i);
    LogNetConcat(st.woken, Finished(Verdict(st.store), ConstList(st, loc)), i);
  }

  lemma {:induction false} WakeZeroSemsLedger(st: State, nums: seq<nat>, b: nat, i: nat)
    requires Good(st) && Within(nums, |st.store.vals|) && i < |st.store.vals|
    ensures Ledger(WakeZeroSems(st, nums), b, i) == Ledger(st, b, i)
  {
    if nums != [] {
      var s := WakeZeroSems(st, nums[..|nums| - 1]);
      WakeZeroSemsLedger(st, nums[..|nums| - 1], b, i);
      if st.store.vals[nums[|nums| - 1]] == 0 {
        WakeConstLedger(s, Sem(nums[|nums| - 1]), b, i);
      }
    }
  }

  lemma WakeZeroLedger(st: State, nums: seq<nat>, b: nat, i: nat)
    requires Good(st) && Within(nums, |st.store.vals|) && i < |st.store.vals|
    ensures Ledger(WakeZero(st, nums), b, i) == Ledger(st, b, i)
  {
    WakeZeroSemsLedger(st, nums, b, i);
    WakeConstLedger(WakeZeroSems(st, nums), Global, b, i);
  }

  lemma EffectLedger(st: State, e: Entry, b: nat, i: nat)
    requires Good(st) && CanEval(st.store, e) && RowsBelow(st.store, b) && i < |st.store.vals|
    ensures Ledger(Effect(st, e), b, i) == Ledger(st, b, i) + (if Status(st.store, e) == 0 then Net(e.sops, 0, i, true) else 0)
  {
    NextTotal(st.store, e, b, i);
    if Eval(st.store, e).Done? {
      NextGood(st, e);
      WakeZeroLedger(st.(store := Next(st.store, e)), Nums(e.sops), b, i);
    }
  }

  lemma CompleteLedger(st: State, loc: Loc, k: nat, b: nat, i: nat)
    requires Good(st) && HasLoc(st, loc) && k < |AlterList(st, loc)|
    requires RowsBelow(st.store, b) && i < |st.store.vals|
    ensures Ledger(Complete(st, loc, k), b, i) == Ledger(st, b, i)
  {
    hide Good, Effect, CanEval, Status, Next, Net;
    var e := AlterList(st, loc)[k];
    UnlinkGood(st, loc, k);
    AlterCanEval(st, loc);
    assert e in AlterList(st, loc);
    var u := Unlink(st, loc, k);
    EffectLedger(u, e, b, i);
    LogNetAppend(Effect(u, e).woken, Wake(e, Status(st.store, e)), i);
  }

  lemma {:induction false} DrainLedger(st: State, loc: Loc, b: nat, i: nat)
    requires Good(st) && HasLoc(st, loc) && RowsBelow(st.store, b) && i < |st.store.vals|
    ensures Ledger(Drain(st, loc), b, i) == Ledger(st, b, i)
    decreases |AlterList(st, loc)|
  {
    var k := FirstReady(Verdict(st.store), AlterList(st, loc));
    if k < |AlterList(st, loc)| {
      CompleteLedger(st, loc, k, b, i);
      DrainLedger(Complete(st, loc, k), loc, b, i);
    }
  }

  lemma {:induction false} DrainSemsLedger(st: State, nums: seq<nat>, b: nat, i: nat)
    requires Good(st) && Within(nums, |st.store.vals|) && RowsBelow(st.store, b) && i < |st.store.vals|
    ensures Ledger(DrainSems(st, nums), b, i) == Ledger(st, b, i)
  {
    if nums != [] {
      DrainSemsLedger(st, nums[..|nums| - 1], b, i);
      DrainLedger(DrainSems(st, nums[..|nums| - 1]), Sem(nums[|nums| - 1]), b, i);
    }
  }

  lemma SmartUpdateLedger(st: State, sops: Option<seq<Sembuf>>, b: nat, i: nat)
    requires Good(st) && SopsFit(|st.store.vals|, sops) && RowsBelow(st.store, b) && i < |st.store.vals|
    ensures Ledger(SmartUpdate(st, sops), b, i) == Ledger(st, b, i)
  {
    var s := WakeZero(st, ChangedNums(|st.store.vals|, sops));
    WakeZeroLedger(st, ChangedNums(|st.store.vals|, sops), b, i);
    if s.alter != [] {
      DrainLedger(s, Global, b, i);
    } else {
      DrainSemsLedger(s, RaisedNums(|st.store.vals|, sops), b, i);
    }
  }

  // ---------- Sections ----------

  /** exit_sem stores the value of the range that is nearest to the adjusted one. */
  lemma ExitValue(s: Store, u: nat, i: nat, w: int)
    requires Bounded(s) && u in s.undos && i < |s.vals| && 0 <= w <= SEMVMX
    ensures var v, sum := WithoutRow(s, u).vals[i], s.vals[i] + s.undos[u][i];
            && (v == sum <==> 0 <= sum <= SEMVMX)
            && (v == 0 <==> sum <= 0)
            && (v == SEMVMX <==> sum >= SEMVMX)
            && (if v < sum then sum - v else v - sum) <= (if w < sum then sum - w else w - sum)
    ensures WithoutRow(s, u).undos == map r | r in s.undos && r != u :: s.undos[r]
  {
  }

  /** exit_sem keeps the total exactly when the adjusted value needs no capping; otherwise the
      part beyond the range is lost. */
  lemma ExitTotal(s: Store, u: nat, b: nat, i: nat)
    requires RowsBelow(s, b) && u in s.undos && i < |s.vals|
    ensures var sum := s.vals[i] + s.undos[u][i];
            Total(WithoutRow(s, u), b, i)
            == Total(s, b, i) - if sum < 0 then sum else if sum > SEMVMX then sum - SEMVMX else 0
    ensures Total(WithoutRow(s, u), b, i) == Total(s, b, i) <==> 0 <= s.vals[i] + s.undos[u][i] <= SEMVMX
  {
    SumAdjDiffer(s, WithoutRow(s, u), u, b, i);
  }

  /** SETVAL and SETALL forget every adjustment owed to the semaphore. */
  lemma SetTotal(s: Store, i: nat, val: int, vals: seq<int>, b: nat)
    requires Bounded(s) && i < |s.vals| && 0 <= val <= SEMVMX
    requires |vals| == |s.vals| && ValsInRange(vals)
    ensures Total(WithVal(s, i, val), b, i) == val
    ensures Total(WithAll(s, vals), b, i) == vals[i]
  {
    SumAdjZero(WithVal(s, i, val), b, i);
    SumAdjZero(WithAll(s, vals), b, i);
  }

  lemma {:induction false} SetValOther(s: Store, j: nat, val: int, b: nat, i: nat)
    requires Bounded(s) && i < |s.vals| && j < |s.vals| && i != j && 0 <= val <= SEMVMX
    ensures SumAdj(WithVal(s, j, val), b, i) == SumAdj(s, b, i)
  {
    if b > 0 {
      SetValOther(s, j, val, b - 1, i);
    }
  }

  ghost function Plain(f: Full, a: Action, i: nat): int
    requires Inv(f) && Enabled(f, a) && a.Semop?
  {
    if Status(f.st.store, a.e) == 0 then Net(a.e.sops, 0, i, true) else 0
  }

  /** The ledger of semaphore i expected after a section. */
  ghost function LedgerAfter(f: Full, a: Action, b: nat, i: nat): int
    requires Inv(f) && Enabled(f, a) && i < |f.st.store.vals|
  {
    var before, s := Ledger(f.st, b, i), f.st.store;
    match a
    case Semop(_) => before + Plain(f, a, i)
    case Interrupt(_, _, _) => before
    case NewUndo(_) => before
    case SetVal(j, val) => if i == j then val - LogNet(f.st.woken, i) else before
    case SetAll(vals) => vals[i] - LogNet(f.st.woken, i)
    case ExitUndo(u) =>
      var sum := s.vals[i] + s.undos[u][i];
      before - if sum < 0 then sum else if sum > SEMVMX then sum - SEMVMX else 0
  }

  lemma SemopLedger(f: Full, e: Entry, b: nat, i: nat)
    requires Inv(f) && Enabled(f, Semop(e)) && i < |f.st.store.vals| && RowsBelow(f.st.store, b)
    requires Good(Body(f, Semop(e)))
    ensures Ledger(Body(f, Semop(e)), b, i) == LedgerAfter(f, Semop(e), b, i)
  {
    var st, s := f.st, f.st.store;
    NextTotal(s, e, b, i);
    if Status(s, e) == 0 {
      NextGood(st, e);
      if !AllZeroOps(e.sops) {
        SmartUpdateLedger(st.(store := Next(s, e)), Some(e.sops), b, i);
      }
    }
  }

  lemma InterruptLedger(f: Full, a: Action, b: nat, i: nat)
    requires Inv(f) && a.Interrupt? && Enabled(f, a) && i < |f.st.store.vals|
    requires Good(Body(f, a))
    ensures Ledger(Body(f, a), b, i) == LedgerAfter(f, a, b, i)
  {
  }

  lemma NewUndoLedger(f: Full, u: nat, b: nat, i: nat)
    requires Inv(f) && Enabled(f, NewUndo(u)) && i < |f.st.store.vals| && RowsBelow(f.st.store, b)
    requires Good(Body(f, NewUndo(u)))
    ensures Ledger(Body(f, NewUndo(u)), b, i) == LedgerAfter(f, NewUndo(u), b, i)
  {
    SumAdjDiffer(f.st.store, Body(f, NewUndo(u)).store, u, b, i);
  }

  lemma SetValLedger(f: Full, j: nat, val: int, b: nat, i: nat)
    requires Inv(f) && Enabled(f, SetVal(j, val)) && i < |f.st.store.vals| && RowsBelow(f.st.store, b)
    requires Good(Body(f, SetVal(j, val)))
    ensures Ledger(Body(f, SetVal(j, val)), b, i) == LedgerAfter(f, SetVal(j, val), b, i)
  {
    hide Good, Quiet, SmartUpdate, SumAdj, LogNet;
    var st, s := f.st, f.st.store;
    SameRowsGood(st, WithVal(s, j, val));
    SmartUpdateLedger(st.(store := WithVal(s, j, val)), None, b, i);
    if i == j {
      SumAdjZero(WithVal(s, i, val), b, i);
    } else {
      SetValOther(s, j, val, b, i);
    }
  }

  lemma SetAllLedger(f: Full, vals: seq<int>, b: nat, i: nat)
    requires Inv(f) && Enabled(f, SetAll(vals)) && i < |f.st.store.vals| && RowsBelow(f.st.store, b)
    requires Good(Body(f, SetAll(vals)))
    ensures Ledger(Body(f, SetAll(vals)), b, i) == LedgerAfter(f, SetAll(vals), b, i)
  {
    var st, s := f.st, f.st.store;
    SameRowsGood(st, WithAll(s, vals));
    SmartUpdateLedger(st.(store := WithAll(s, vals)), None, b, i);
    SumAdjZero(WithAll(s, vals), b, i);
  }

  lemma ExitLedger(f: Full, u: nat, b: nat, i: nat)
    requires Inv(f) && Enabled(f, ExitUndo(u)) && i < |f.st.store.vals| && RowsBelow(f.st.store, b)
    requires Good(Body(f, ExitUndo(u)))
    ensures Ledger(Body(f, ExitUndo(u)), b, i) == LedgerAfter(f, ExitUndo(u), b, i)
  {
    var st, s := f.st, f.st.store;
    FewerRowsGood(st, u);
    ExitTotal(s, u, b, i);
    SmartUpdateLedger(st.(store := WithoutRow(s, u)), None, b, i);
  }

  lemma SameStoreAndLog(st: State, r: State, b: nat, i: nat)
    requires Bounded(st.store) && i < |st.store.vals| && r.store == st.store && r.woken == st.woken
    ensures Ledger(r, b, i) == Ledger(st, b, i)
  {
  }

  /** What each section does to semaphore i: a semop moves the total only by the
      operations without SEM_UNDO of the calls that completed in it; giving up a
      wait and creating an undo row leave it alone; SETVAL and SETALL reset it; an
      exiting task keeps it up to the capping. */
  lemma StepLedger(f: Full, a: Action, b: nat, i: nat)
    requires Inv(f) && Enabled(f, a) && i < |f.st.store.vals|
    requires RowsBelow(f.st.store, b) && (a.NewUndo? ==> a.u < b)
    ensures Ledger(Step(f, a).st, b, i) == LedgerAfter(f, a, b, i)
  {
    hide Good, Quiet, Inv, Enabled, Section, SmartUpdate, Status, CanEval, Body, LedgerAfter, Ledger;
    BodyInv(f, a);
    SectionLog(f, Nsops(f, a), Body(f, a));
    SameStoreAndLog(Body(f, a), Step(f, a).st, b, i);
    match a
    case Semop(e) =>
      SemopLedger(f, e, b, i);
    case Interrupt(loc, alters, k) =>
      InterruptLedger(f, a, b, i);
    case NewUndo(u) =>
      NewUndoLedger(f, u, b, i);
    case SetVal(j, val) =>
      SetValLedger(f, j, val, b, i);
    case SetAll(vals) =>
      SetAllLedger(f, vals, b, i);
    case ExitUndo(u) =>
      ExitLedger(f, u, b, i);
  }

  lemma SectionLog(f: Full, nsops: int, body: State)
    requires Inv(f) && Good(body) && Quiet(body)
    requires TakesGlobal(f, nsops) || (body.complex == 0 && body.alter == [])
    ensures Section(f, nsops, body).st.woken == body.woken
  {
    LeaveInv(f, nsops, body);
  }
}
