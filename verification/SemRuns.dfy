/**
 Whole runs over one semaphore set: any sequence of semop calls, signals and
 timeouts, SETVAL, SETALL and undo rows coming and going.
 */
module SemRuns {
  import opened Options
  import opened SemOps
  import opened SemEval
  import opened SemSet
  import opened SemWakeup
  import opened SemCalls

  datatype Action =
    | Semop(e: Entry)
    | Interrupt(loc: Loc, alters: bool, k: nat)  // a queued call gives up: signal or timeout
    | SetVal(i: nat, val: int)
    | SetAll(vals: seq<int>)
    | NewUndo(u: nat)
    | ExitUndo(u: nat)

  // ---------- Changes of the values ----------

  ghost function ClearedAt(s: Store, i: nat): map<nat, seq<int>>
    requires Bounded(s) && i < |s.vals|
  {
    map u | u in s.undos :: s.undos[u][i := 0]
  }

  /** semctl_setval */
  ghost function WithVal(s: Store, i: nat, val: int): (r: Store)
    requires Bounded(s) && i < |s.vals| && 0 <= val <= SEMVMX
    ensures Bounded(r) && |r.vals| == |s.vals| && r.undos.Keys == s.undos.Keys
  {
    Store(s.vals[i := val], ClearedAt(s, i))
  }

  function Zeros(n: nat): (r: seq<int>)
    ensures |r| == n && forall k | 0 <= k < n :: r[k] == 0
  {
    seq(n, _ => 0)
  }

  /** SETALL */
  ghost function WithAll(s: Store, vals: seq<int>): (r: Store)
    requires Bounded(s) && |vals| == |s.vals| && ValsInRange(vals)
    ensures Bounded(r) && |r.vals| == |s.vals| && r.undos.Keys == s.undos.Keys
  {
    Store(vals, map u | u in s.undos :: Zeros(|vals|))
  }

  function Clamp(v: int): (r: int)
    ensures 0 <= r <= SEMVMX
  {
    if v < 0 then 0 else if v > SEMVMX then SEMVMX else v
  }

  /** exit_sem: the row is applied, each value capped at 0 and SEMVMX, and dropped. */
  ghost function WithoutRow(s: Store, u: nat): (r: Store)
    requires Bounded(s) && u in s.undos
    ensures Bounded(r) && |r.vals| == |s.vals| && r.undos.Keys == s.undos.Keys - {u}
  {
    Store(seq(|s.vals|, i requires 0 <= i < |s.vals| => Clamp(s.vals[i] + s.undos[u][i])), s.undos - {u})
  }

  ghost predicate Refers(e: Entry, u: nat) {
    e.undo == Some(u)
  }

  ghost predicate Unreferenced(st: State, u: nat) {
    && (forall e | e in st.alter :: !Refers(e, u))
    && (forall e | e in st.consts :: !Refers(e, u))
    && (forall i, e | 0 <= i < |st.semAlter| && e in st.semAlter[i] :: !Refers(e, u))
    && (forall i, e | 0 <= i < |st.semConst| && e in st.semConst[i] :: !Refers(e, u))
  }

  // ---------- Section bodies ----------

  ghost function SemopBody(st: State, e: Entry): State
    requires Good(st) && CanEval(st.store, e)
  {
    var error := Status(st.store, e);
    if error == 0 then
      NextGood(st, e);
      if AllZeroOps(e.sops) then st.(store := Next(st.store, e))
      else SmartUpdate(st.(store := Next(st.store, e)), Some(e.sops))
    else if error < 0 then st
    else Enqueue(st, e)
  }

  ghost function InterruptBody(st: State, loc: Loc, alters: bool, k: nat): State
    requires HasLoc(st, loc) && k < |if alters then AlterList(st, loc) else ConstList(st, loc)|
  {
    if alters then Unlink(st, loc, k) else WithConst(st, loc, RemoveAt(ConstList(st, loc), k), st.woken)
  }

  lemma SameRowsGood(st: State, s: Store)
    requires Good(st) && Bounded(s) && |s.vals| == |st.store.vals| && s.undos.Keys == st.store.undos.Keys
    ensures Good(st.(store := s))
  {
  }

  lemma NewRowGood(st: State, u: nat)
    requires Good(st) && u !in st.store.undos
    ensures Good(st.(store := st.store.(undos := st.store.undos[u := Zeros(|st.store.vals|)])))
  {
    hide AllZeroOps;
    var r := st.(store := st.store.(undos := st.store.undos[u := Zeros(|st.store.vals|)]));
    var n, rows, rows' := |st.store.vals|, st.store.undos.Keys, r.store.undos.Keys;
    forall i | 0 <= i < n
      ensures SemAlterOk(n, rows', i, st.semAlter[i]) && SemConstOk(n, rows', i, st.semConst[i])
    {
      assert SemAlterOk(n, rows, i, st.semAlter[i]) && SemConstOk(n, rows, i, st.semConst[i]);
    }
  }

  lemma NewRowInv(st: State, u: nat)
    requires Good(st) && Quiet(st) && u !in st.store.undos
    ensures var r := st.(store := st.store.(undos := st.store.undos[u := Zeros(|st.store.vals|)]));
            Good(r) && Quiet(r)
  {
    hide Multi, AllZeroOps, NoSemAlter;
    var r := st.(store := st.store.(undos := st.store.undos[u := Zeros(|st.store.vals|)]));
    NewRowGood(st, u);
    assert forall i | 0 <= i < |st.store.vals| :: SemQuiet(st, i) ==> SemQuiet(r, i);
    forall e | e in r.alter
      ensures !Ready(r.store, e)
    {
      assert MemFor(r.store, e) == MemFor(st.store, e);
    }
  }

  lemma FewerRowsGood(st: State, u: nat)
    requires Good(st) && u in st.store.undos && Unreferenced(st, u)
    ensures Good(st.(store := WithoutRow(st.store, u)))
  {
    var s := WithoutRow(st.store, u);
    var n, rows, rows' := |st.store.vals|, st.store.undos.Keys, s.undos.Keys;
    forall i | 0 <= i < n
      ensures SemAlterOk(n, rows', i, st.semAlter[i]) && SemConstOk(n, rows', i, st.semConst[i])
    {
      assert SemAlterOk(n, rows, i, st.semAlter[i]) && SemConstOk(n, rows, i, st.semConst[i]);
      forall e | e in st.semAlter[i] || e in st.semConst[i]
        ensures !Refers(e, u)
      {
      }
    }
  }

  // ---------- Simple mode stays simple ----------

  lemma WakeConstNone(st: State, loc: Loc)
    requires Good(st) && HasLoc(st, loc) && st.consts == []
    ensures WakeConst(st, loc).consts == []
  {
  }

  lemma WakeZeroNone(st: State, nums: seq<nat>)
    requires Good(st) && Within(nums, |st.store.vals|) && st.consts == []
    ensures WakeZero(st, nums).consts == []
  {
    WakeConstNone(WakeZeroSems(st, nums), Global);
  }

  lemma {:induction false} DrainNone(st: State, i: nat)
    requires Good(st) && i < |st.store.vals| && st.consts == []
    ensures Drain(st, Sem(i)).consts == []
    decreases |st.semAlter[i]|
  {
    AlterCanEval(st, Sem(i));
    var k := FirstReady(Verdict(st.store), st.semAlter[i]);
    if k < |st.semAlter[i]| {
      var e := st.semAlter[i][k];
      UnlinkGood(st, Sem(i), k);
      var u := Unlink(st, Sem(i), k);
      if Eval(u.store, e).Done? {
        NextGood(u, e);
        WakeZeroNone(u.(store := Next(u.store, e)), Nums(e.sops));
      }
      DrainNone(Complete(st, Sem(i), k), i);
    }
  }

  lemma {:induction false} DrainSemsNoConsts(st: State, nums: seq<nat>)
    requires Good(st) && Within(nums, |st.store.vals|) && st.consts == []
    ensures DrainSems(st, nums).consts == []
  {
    if nums != [] {
      DrainSemsNoConsts(st, nums[..|nums| - 1]);
      DrainNone(DrainSems(st, nums[..|nums| - 1]), nums[|nums| - 1]);
    }
  }

  lemma SmartUpdateSimple(st: State, sops: Option<seq<Sembuf>>)
    requires Good(st) && SopsFit(|st.store.vals|, sops)
    requires st.alter == [] && st.consts == []
    ensures var r := SmartUpdate(st, sops); r.alter == [] && r.consts == [] && r.complex == 0
  {
    var nums := ChangedNums(|st.store.vals|, sops);
    WakeZeroNone(st, nums);
    DrainSemsNoConsts(WakeZero(st, nums), RaisedNums(|st.store.vals|, sops));
  }

  // ---------- Every section body keeps the set good and quiet ----------

  lemma SemopBodyInv(f: Full, e: Entry)
    requires Inv(f) && CanEval(f.st.store, e)
    ensures Good(SemopBody(f.st, e)) && Quiet(SemopBody(f.st, e))
    ensures !TakesGlobal(f, |e.sops|) ==> SemopBody(f.st, e).complex == 0 && SemopBody(f.st, e).alter == []
  {
    var st := f.st;
    var error := Status(st.store, e);
    if error == 0 {
      NextGood(st, e);
      if AllZeroOps(e.sops) {
        ConstReady(st.store, e);
        assert st.(store := st.store) == st;
      } else {
        UpdateAfterCallQuiet(st, e);
        if !TakesGlobal(f, |e.sops|) {
          NoConsts(st);
          SmartUpdateSimple(st.(store := Next(st.store, e)), Some(e.sops));
        }
      }
    } else if error > 0 {
      EnqueueInv(st, e);
    }
  }

  lemma InterruptBodyInv(st: State, loc: Loc, alters: bool, k: nat)
    requires Good(st) && Quiet(st)
    requires HasLoc(st, loc) && k < |if alters then AlterList(st, loc) else ConstList(st, loc)|
    ensures Good(InterruptBody(st, loc, alters, k)) && Quiet(InterruptBody(st, loc, alters, k))
  {
    var r := InterruptBody(st, loc, alters, k);
    if alters {
      UnlinkGood(st, loc, k);
    } else {
      WithConstGood(st, loc, RemoveAt(ConstList(st, loc), k), st.woken);
    }
    forall i | 0 <= i < |r.store.vals|
      ensures SemQuiet(r, i)
    {
      assert SemQuiet(st, i);
    }
  }

  // ---------- Steps ----------

  ghost predicate Enabled(f: Full, a: Action)
    requires Inv(f)
  {
    var st := f.st;
    match a
    case Semop(e) => EntryFits(|st.store.vals|, st.store.undos.Keys, e)
    case Interrupt(loc, alters, k) =>
      HasLoc(st, loc) && k < |if alters then AlterList(st, loc) else ConstList(st, loc)|
    case SetVal(i, val) => i < |st.store.vals| && 0 <= val <= SEMVMX
    case SetAll(vals) => |vals| == |st.store.vals| && ValsInRange(vals)
    case NewUndo(u) => u !in st.store.undos
    case ExitUndo(u) => u in st.store.undos && Unreferenced(st, u)
  }

  ghost function Nsops(f: Full, a: Action): int
    requires Inv(f) && Enabled(f, a)
  {
    match a
    case Semop(e) => |e.sops|
    case Interrupt(loc, alters, k) => |(if alters then AlterList(f.st, loc) else ConstList(f.st, loc))[k].sops|
    case _ => -1
  }

  ghost function Body(f: Full, a: Action): (r: State)
    requires Inv(f) && Enabled(f, a)
    ensures |r.store.vals| == |f.st.store.vals|
  {
    var st := f.st;
    match a
    case Semop(e) => SemopBody(st, e)
    case Interrupt(loc, alters, k) => InterruptBody(st, loc, alters, k)
    case SetVal(i, val) =>
      SameRowsGood(st, WithVal(st.store, i, val));
      SmartUpdate(st.(store := WithVal(st.store, i, val)), None)
    case SetAll(vals) =>
      SameRowsGood(st, WithAll(st.store, vals));
      SmartUpdate(st.(store := WithAll(st.store, vals)), None)
    case NewUndo(u) => st.(store := st.store.(undos := st.store.undos[u := Zeros(|st.store.vals|)]))
    case ExitUndo(u) =>
      FewerRowsGood(st, u);
      SmartUpdate(st.(store := WithoutRow(st.store, u)), None)
  }

  lemma BodyInv(f: Full, a: Action)
    requires Inv(f) && Enabled(f, a)
    ensures Good(Body(f, a)) && Quiet(Body(f, a))
    ensures TakesGlobal(f, Nsops(f, a)) || (Body(f, a).complex == 0 && Body(f, a).alter == [])
  {
    match a
    case Semop(e) =>
      SemopBodyInv(f, e);
    case Interrupt(loc, alters, k) =>
      InterruptBodyInv(f.st, loc, alters, k);
    case SetVal(i, val) =>
      SameRowsGood(f.st, WithVal(f.st.store, i, val));
      UpdateAllQuiet(f.st.(store := WithVal(f.st.store, i, val)));
    case SetAll(vals) =>
      SameRowsGood(f.st, WithAll(f.st.store, vals));
      UpdateAllQuiet(f.st.(store := WithAll(f.st.store, vals)));
    case NewUndo(u) =>
      NewRowInv(f.st, u);
    case ExitUndo(u) =>
      FewerRowsGood(f.st, u);
      UpdateAllQuiet(f.st.(store := WithoutRow(f.st.store, u)));
  }

  ghost function Step(f: Full, a: Action): (r: Full)
    requires Inv(f) && Enabled(f, a)
    ensures Inv(r) && r.st.store == Body(f, a).store
  {
    BodyInv(f, a);
    Section(f, Nsops(f, a), Body(f, a))
  }

  /** newary */
  ghost function Created(n: nat): (f: Full)
    ensures Inv(f)
  {
    Full(State(Store(Zeros(n), map[]), seq(n, _ => []), seq(n, _ => []), [], [], 0, []),
         USE_GLOBAL_LOCK_HYSTERESIS - 1)
  }

  ghost predicate Runs(f: Full, acts: seq<Action>)
    requires Inv(f)
    decreases |acts|
  {
    acts == [] || (Enabled(f, acts[0]) && Runs(Step(f, acts[0]), acts[1..]))
  }

  ghost function Run(f: Full, acts: seq<Action>): (r: Full)
    requires Inv(f) && Runs(f, acts)
    ensures Inv(r)
    decreases |acts|
  {
    if acts == [] then f else Run(Step(f, acts[0]), acts[1..])
  }

  /** No lost wakeup, over every run: whenever the lock is free, a queued call that
      changes the set must still sleep and a queued wait-for-zero call would not
      succeed. */
  lemma NoLostWakeup(n: nat, acts: seq<Action>)
    requires Runs(Created(n), acts)
    ensures NobodyLost(Run(Created(n), acts).st)
  {
    QuietNobodyLost(Run(Created(n), acts).st);
  }

  /** Which queues are in use, over every run: complex_count counts the queued
      calls with more than one operation; while there are some, the per-semaphore
      queues of changes are empty and the global lock is required; otherwise the
      global queues are empty. */
  lemma QueueModes(n: nat, acts: seq<Action>)
    requires Runs(Created(n), acts)
    ensures var f := Run(Created(n), acts);
            && f.st.complex == Multi(f.st.alter) + Multi(f.st.consts)
            && (f.st.complex > 0 ==> NoSemAlter(f.st) && f.lock > 0)
            && (f.st.complex == 0 ==> f.st.alter == [] && f.st.consts == [])
            && 0 <= f.lock <= USE_GLOBAL_LOCK_HYSTERESIS
  {
    var f := Run(Created(n), acts);
    if f.st.complex > 0 {
      ComplexNoSemAlter(f.st);
    } else {
      NoConsts(f.st);
    }
  }

  // ---------- How long the global lock is required ----------

  /** use_global_lock after a section: a section over more than one operation, or over the whole
      set, sets it to ten; each section under the global lock that leaves no complex call queued
      takes one off; a section under a per-semaphore lock finds and leaves 0. */
  lemma LockAfter(f: Full, a: Action)
    requires Inv(f) && Enabled(f, a)
    ensures var r := Step(f, a);
            && (Nsops(f, a) != 1 ==> r.lock == if r.st.complex == 0 then 9 else 10)
            && (Nsops(f, a) == 1 ==> r.lock == if f.lock == 0 then 0 else if r.st.complex == 0 then f.lock - 1 else f.lock)
  {
    hide Good, Quiet, Body, Enabled, Nsops, Unmerge;
    BodyInv(f, a);
    LeaveInv(f, Nsops(f, a), Body(f, a));
  }

  ghost predicate SingleCalls(acts: seq<Action>) {
    forall k | 0 <= k < |acts| :: acts[k].Semop? && |acts[k].e.sops| == 1
  }

  lemma SingleKeepsSimple(f: Full, e: Entry)
    requires Inv(f) && Enabled(f, Semop(e)) && |e.sops| == 1 && f.st.complex == 0
    ensures Step(f, Semop(e)).st.complex == 0
  {
    hide Quiet, Status, Unmerge, SmartUpdate;
    BodyInv(f, Semop(e));
    SingleBodySimple(f.st, e);
    UnmergeComplex(Body(f, Semop(e)));
  }

  lemma SingleBodySimple(st: State, e: Entry)
    requires Good(st) && CanEval(st.store, e) && |e.sops| == 1 && st.complex == 0 && st.alter == []
    ensures SemopBody(st, e).complex == 0
  {
    hide Status, SmartUpdate;
    if Status(st.store, e) == 0 && !AllZeroOps(e.sops) {
      NextGood(st, e);
      NoConsts(st);
      SmartUpdateSimple(st.(store := Next(st.store, e)), Some(e.sops));
    }
  }

  lemma UnmergeComplex(st: State)
    ensures Placeable(|st.semAlter|, st.alter) ==> Unmerge(st).complex == st.complex
  {
  }

  /** Without complex calls queued, calls with one operation find per-semaphore locking again
      after as many of them as the counter says, ten at most. */
  lemma {:induction false} SimpleAgain(f: Full, acts: seq<Action>)
    requires Inv(f) && Runs(f, acts) && SingleCalls(acts) && f.st.complex == 0
    ensures var r := Run(f, acts);
            r.st.complex == 0 && r.lock == if |acts| >= f.lock then 0 else f.lock - |acts|
    ensures |acts| >= 10 ==> !TakesGlobal(Run(f, acts), 1)
    decreases |acts|
  {
    hide Good, Quiet, Enabled, Step;
    if acts != [] {
      LockAfter(f, acts[0]);
      SingleKeepsSimple(f, acts[0].e);
      SimpleAgain(Step(f, acts[0]), acts[1..]);
    }
  }

  /** Values and adjustments stay in their ranges over every run. */
  lemma RunBounds(n: nat, acts: seq<Action>)
    requires Runs(Created(n), acts)
    ensures var s := Run(Created(n), acts).st.store;
            && ValsInRange(s.vals)
            && forall u | u in s.undos :: AdjInRange(s.undos[u])
  {
  }
}
