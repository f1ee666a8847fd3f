/**
 Runs in which the two forms of do_smart_update part: a complex wait-for-zero call
 that only the exhaustive form looks at, and a call that completes afterwards.
 */
module SemForms {
  import opened Options
  import opened SemOps
  import opened SemEval
  import opened SemSet
  import opened SemWakeup
  import opened SemCalls
  import opened SemRuns
  import opened SemSlices
  import opened SemSmart

  /** Waits for semaphore 0 with IPC_NOWAIT and for semaphore 1 without. */
  function Waiter(): Entry {
    Entry(1, [Sembuf(0, 0, false, true), Sembuf(1, 0, false, false)], None, false)
  }

  /** Takes semaphores 2 and 1 and, unless it keeps off, semaphore 0. */
  function Taker(keep: bool): Entry {
    Entry(2, if keep then [Sembuf(2, -1, false, false), Sembuf(1, -1, false, false)]
             else [Sembuf(2, -1, false, false), Sembuf(1, -1, false, false), Sembuf(0, -1, false, false)], None, false)
  }

  function Giver(i: nat): Entry {
    Entry(3, [Sembuf(i, 1, false, false)], None, false)
  }

  /** A set of four with nobody waiting on a single semaphore. */
  function Set(vals: seq<int>, alter: seq<Entry>, consts: seq<Entry>, woken: seq<Wake>): State {
    State(Store(vals, map[]), [[], [], [], []], [[], [], [], []], alter, consts, |alter| + |consts|, woken)
  }

  predicate Plain(vals: seq<int>, alter: seq<Entry>, consts: seq<Entry>, keep: bool) {
    && |vals| == 4 && (forall i | 0 <= i < 4 :: 0 <= vals[i] <= 1)
    && (alter == [] || alter == [Taker(keep)]) && (consts == [] || consts == [Waiter()])
  }

  function Waiting(v2: int, keep: bool, consts: seq<Entry>, woken: seq<Wake>): State {
    Set([1, 1, v2, 0], [Taker(keep)], consts, woken)
  }

  function Taken(keep: bool, consts: seq<Entry>, woken: seq<Wake>): State {
    Set([if keep then 1 else 0, 0, 0, 0], [], consts, woken)
  }

  lemma MultiOne(e: Entry)
    requires |e.sops| > 1
    ensures Multi([e]) == 1 && Multi([]) == 0
  {
    assert [e][..0] == [];
  }

  lemma CallsFit(keep: bool, i: nat)
    requires i < 4
    ensures EntryFits(4, {}, Taker(keep)) && EntryFits(4, {}, Giver(i)) && EntryFits(4, {}, Waiter())
    ensures !AllZeroOps(Taker(keep).sops) && !AllZeroOps(Giver(i).sops) && AllZeroOps(Waiter().sops)
  {
    assert Taker(keep).sops[0].op == -1 && Giver(i).sops[0].op == 1;
  }

  lemma SetGood(vals: seq<int>, alter: seq<Entry>, consts: seq<Entry>, woken: seq<Wake>, keep: bool)
    requires Plain(vals, alter, consts, keep)
    ensures Good(Set(vals, alter, consts, woken))
    ensures CanEval(Set(vals, alter, consts, woken).store, Taker(keep))
    ensures CanEval(Set(vals, alter, consts, woken).store, Waiter())
    ensures forall i | 0 <= i < 4 :: CanEval(Set(vals, alter, consts, woken).store, Giver(i))
  {
    hide EntryFits, AllZeroOps, Multi;
    forall i | 0 <= i < 4
      ensures EntryFits(4, {}, Giver(i))
    {
      CallsFit(keep, i);
    }
    CallsFit(keep, 0);
    MultiOne(Taker(keep));
    MultiOne(Waiter());
    var w := Set(vals, alter, consts, woken);
    assert w.store.undos.Keys == {};
    assert Bounded(w.store);
    assert Typed(w);
  }

  lemma TakerStatus(vals: seq<int>, keep: bool)
    requires Plain(vals, [], [], keep)
    ensures CanEval(Store(vals, map[]), Taker(keep))
    ensures vals[2] == 0 ==> Status(Store(vals, map[]), Taker(keep)) == 1
    ensures vals == [1, 1, 1, 0] ==>
              Status(Store(vals, map[]), Taker(keep)) == 0 && Next(Store(vals, map[]), Taker(keep)) == Taken(keep, [], []).store
  {
    hide Good;
    SetGood(vals, [], [], [], keep);
    var sops, m := Taker(keep).sops, Mem(vals, []);
    assert MemFor(Store(vals, map[]), Taker(keep)) == m;
    if vals[2] == 0 {
      assert MustWait(m.vals[2], sops[0]);
    }
    if vals == [1, 1, 1, 0] {
      var m1, m2 := Mem([1, 1, 0, 0], []), Mem([1, 0, 0, 0], []);
      assert Bump(m, sops[0]) == m1 && Bump(m1, sops[1]) == m2;
      assert Exec(m, sops, 0) == Exec(m1, sops, 1);
      assert Exec(m1, sops, 1) == Exec(m2, sops, 2);
      if !keep {
        assert Bump(m2, sops[2]) == Mem([0, 0, 0, 0], []);
        assert Exec(m2, sops, 2) == Exec(Mem([0, 0, 0, 0], []), sops, 3);
      }
    }
  }

  lemma WaiterStatus(s: Store)
    requires s.undos == map[] && CanEval(s, Waiter()) && |s.vals| == 4
    ensures s.vals[0] != 0 ==> Verdict(s)(Waiter()) == -EAGAIN
    ensures s.vals[0] == 0 && s.vals[1] == 0 ==> Verdict(s)(Waiter()) == 0
    ensures s.vals[0] == 0 && s.vals[1] != 0 ==> Verdict(s)(Waiter()) == Status(s, Waiter()) == 1
  {
    var sops, m := Waiter().sops, MemFor(s, Waiter());
    if s.vals[0] == 0 {
      assert Bump(m, sops[0]) == m && Bump(m, sops[1]) == m;
      assert Exec(m, sops, 0) == Exec(m, sops, 1);
      if s.vals[1] == 0 {
        assert Exec(m, sops, 1) == Exec(m, sops, 2);
      }
    }
  }

  lemma {:induction false} NoSingles(st: State, nums: seq<nat>)
    requires Good(st) && Within(nums, |st.store.vals|)
    requires forall i | 0 <= i < |st.semConst| :: st.semConst[i] == []
    ensures WakeZeroSems(st, nums) == st
    ensures WakeZero(st, nums) == if AnyZero(st.store, nums) then WakeConst(st, Global) else st
  {
    if nums != [] {
      NoSingles(st, nums[..|nums| - 1]);
      var n := nums[|nums| - 1];
      if st.store.vals[n] == 0 {
        WakeSemIs(st, n);
        ZeroedNone(st, n);
      }
    }
  }

  /** Looking at the global wait-for-zero queue when only the waiter is on it. */
  lemma WaiterLeaves(st: State, v: int)
    requires Good(st) && st.consts == [Waiter()] && Verdict(st.store)(Waiter()) == v && v <= 0
    ensures WakeConst(st, Global) == st.(consts := [], complex := Multi(st.alter), woken := st.woken + [Wake(Waiter(), v)])
  {
    var es, f := st.consts, Verdict(st.store);
    assert es[..0] == [] && Sleeping(f, []) == [] && Finished(f, []) == [];
    assert Sleeping(f, es) == [] && Finished(f, es) == [Wake(Waiter(), v)];
  }

  lemma TakerOff(keep: bool, consts: seq<Entry>, woken: seq<Wake>)
    ensures Unlink(Waiting(1, keep, consts, woken), Global, 0) ==
            Waiting(1, keep, consts, woken).(alter := [], complex := |consts|)
    ensures forall f: Entry -> int | f(Taker(keep)) <= 0 :: FirstReady(f, [Taker(keep)]) == 0
  {
    assert [Taker(keep)][..0] == [];
  }

  lemma TakerGoes(keep: bool, consts: seq<Entry>, woken: seq<Wake>)
    requires consts == [] || consts == [Waiter()]
    ensures Good(Waiting(1, keep, consts, woken)) && Good(Taken(keep, consts, woken))
    ensures var z := WakeZero(Taken(keep, consts, woken), Nums(Taker(keep).sops));
            Drain(Waiting(1, keep, consts, woken), Global) == z.(woken := z.woken + [Wake(Taker(keep), 0)])
  {
    hide Good, Multi, WakeZero, EntryFits, Next, Eval, Unlink, AllZeroOps, FirstReady;
    SetGood([1, 1, 1, 0], [Taker(keep)], consts, woken, keep);
    SetGood([if keep then 1 else 0, 0, 0, 0], [], consts, woken, keep);
    TakerStatus([1, 1, 1, 0], keep);
    TakerOff(keep, consts, woken);
    var w := Waiting(1, keep, consts, woken);
    DrainUnfold(w, Global);
    CompleteIs(w, Global, 0);
    assert Unlink(w, Global, 0).(store := Next(w.store, Taker(keep))) == Taken(keep, consts, woken);
    DrainIdle(Complete(w, Global, 0), Global);
  }

  /** With the operations of the call that raised semaphore 2 known, nothing is zero at first.
      The taker then looks at the waiter: it succeeds if semaphore 0 was taken too. */
  lemma WaiterLater(keep: bool)
    ensures Good(Waiting(1, keep, [Waiter()], []))
    ensures SmartUpdate(Waiting(1, keep, [Waiter()], []), Some(Giver(2).sops)) ==
            Taken(keep, [], [Wake(Waiter(), if keep then -EAGAIN else 0), Wake(Taker(keep), 0)])
  {
    hide Good, EntryFits, CanEval, Status, Drain, WakeZero, WakeZeroSems, SmartUpdate, Multi, WakeConst, Verdict, Raised;
    var w, t := Waiting(1, keep, [Waiter()], []), Taken(keep, [Waiter()], []);
    SetGood(w.store.vals, w.alter, w.consts, [], keep);
    SetGood(t.store.vals, t.alter, t.consts, [], keep);
    SmartUpdateIs(w, Some(Giver(2).sops));
    NoSingles(w, Nums(Giver(2).sops));
    TakerGoes(keep, [Waiter()], []);
    NoSingles(t, Nums(Taker(keep).sops));
    assert t.store.vals[Nums(Taker(keep).sops)[0]] == 0;
    WaiterStatus(t.store);
    WaiterLeaves(t, if keep then -EAGAIN else 0);
    MultiOne(Waiter());
  }

  /** The exhaustive form finds semaphore 3 at zero, looks at the waiter at once, and fails it. */
  lemma WaiterFirst(keep: bool)
    ensures Good(Waiting(1, keep, [Waiter()], []))
    ensures SmartUpdate(Waiting(1, keep, [Waiter()], []), None) ==
            Taken(keep, [], [Wake(Waiter(), -EAGAIN), Wake(Taker(keep), 0)])
  {
    hide Good, EntryFits, CanEval, Status, Drain, WakeZero, WakeZeroSems, SmartUpdate, Multi, WakeConst, Verdict, Raised;
    var w, all := Waiting(1, keep, [Waiter()], []), AllNums(4);
    var log := [Wake(Waiter(), -EAGAIN)];
    SetGood(w.store.vals, w.alter, w.consts, [], keep);
    SmartUpdateIs(w, None);
    NoSingles(w, all);
    assert w.store.vals[all[3]] == 0;
    WaiterStatus(w.store);
    WaiterLeaves(w, -EAGAIN);
    MultiOne(Taker(keep));
    assert WakeConst(w, Global) == Waiting(1, keep, [], log);
    TakerGoes(keep, [], log);
    NoSingles(Taken(keep, [], log), Nums(Taker(keep).sops));
    WakeGlobalNone(Taken(keep, [], log));
  }

  // ---------- How one gets there ----------

  lemma {:induction false} SplicedEmpty(qs: seq<seq<Entry>>, k: nat)
    requires k <= |qs| && forall i | 0 <= i < |qs| :: qs[i] == []
    ensures Spliced(qs, k) == []
  {
    if k > 0 {
      SplicedEmpty(qs, k - 1);
    }
  }

  /** A successful semop() that leaves everybody asleep */
  lemma Gives(vals: seq<int>, i: nat, alter: seq<Entry>, consts: seq<Entry>, keep: bool)
    requires Plain(vals, alter, consts, keep) && i < 4 && vals[i] == 0 && i != 2 && vals[2] == 0
    ensures Good(Set(vals, alter, consts, [])) && CanEval(Set(vals, alter, consts, []).store, Giver(i))
    ensures SemopBody(Set(vals, alter, consts, []), Giver(i)) == Set(vals[i := 1], alter, consts, [])
  {
    hide Good, EntryFits, Drain, WakeZero, WakeZeroSems, SmartUpdate, Multi, WakeConst, Raised;
    var st, r := Set(vals, alter, consts, []), Set(vals[i := 1], alter, consts, []);
    SetGood(vals, alter, consts, [], keep);
    SetGood(vals[i := 1], alter, consts, [], keep);
    CallsFit(keep, i);
    ExecOne(MemFor(st.store, Giver(i)), Giver(i).sops);
    assert Next(st.store, Giver(i)) == r.store;
    SmartUpdateIs(r, Some(Giver(i).sops));
    NoSingles(r, Nums(Giver(i).sops));
    assert !AnyZero(r.store, Nums(Giver(i).sops));
    TakerStatus(vals[i := 1], keep);
    if alter != [] {
      DrainIdle(r, Global);
    } else {
      NoSemAlterIs(r);
      DrainSemsIdle(r, RaisedNums(4, Some(Giver(i).sops)));
    }
  }

  lemma NoSemAlterIs(st: State)
    requires st.semAlter == [[], [], [], []]
    ensures NoSemAlter(st)
  {
  }

  lemma WaiterQueued(keep: bool)
    ensures var st := Set([0, 1, 0, 0], [], [], []);
            && Good(st) && CanEval(st.store, Waiter())
            && SemopBody(st, Waiter()) == Set([0, 1, 0, 0], [], [Waiter()], [])
  {
    hide Good, EntryFits;
    var st := Set([0, 1, 0, 0], [], [], []);
    SetGood(st.store.vals, [], [], [], keep);
    WaiterStatus(st.store);
    CallsFit(keep, 0);
    SplicedEmpty(st.semAlter, 4);
    assert Emptied(st.semAlter, 4) == st.semAlter;
  }

  lemma TakerQueued(keep: bool)
    ensures var st := Set([0, 1, 0, 0], [], [Waiter()], []);
            && Good(st) && CanEval(st.store, Taker(keep))
            && SemopBody(st, Taker(keep)) == Set([0, 1, 0, 0], [Taker(keep)], [Waiter()], [])
  {
    hide Good, EntryFits;
    var st := Set([0, 1, 0, 0], [], [Waiter()], []);
    SetGood(st.store.vals, [], [Waiter()], [], keep);
    TakerStatus(st.store.vals, keep);
    CallsFit(keep, 0);
  }

  /** A semop() after which sem_unlock moves nothing between the queues */
  lemma Calls(f: Full, e: Entry, r: State) returns (f': Full)
    requires Inv(f) && |f.st.store.vals| == 4 && f.st.store.undos == map[] && EntryFits(4, {}, e)
    requires Good(f.st) && CanEval(f.st.store, e) && SemopBody(f.st, e) == r && (r.complex != 0 || r.alter == [])
    ensures Enabled(f, Semop(e)) && f' == Step(f, Semop(e)) && Inv(f') && f'.st == r
  {
    hide Good, Quiet, SemopBody, Inv, Bounded;
    assert f.st.store.undos.Keys == {};
    BodyInv(f, Semop(e));
    f' := Step(f, Semop(e));
  }

  function Way(keep: bool): seq<Action> {
    [Semop(Giver(1)), Semop(Waiter()), Semop(Taker(keep)), Semop(Giver(0))]
  }

  /** Four semop() calls on a new set of four lead there. */
  lemma WayLeads(keep: bool)
    ensures Runs(Created(4), Way(keep)) && Run(Created(4), Way(keep)).st == Waiting(0, keep, [Waiter()], [])
  {
    hide Inv, Enabled, Step, SemopBody, EntryFits, Good, Runs, Run, Created;
    var acts := Way(keep);
    CallsFit(keep, 0);
    CallsFit(keep, 1);
    var f0 := Created(4);
    NewSet();
    Gives([0, 0, 0, 0], 1, [], [], keep);
    var f1 := Calls(f0, Giver(1), Set([0, 1, 0, 0], [], [], []));
    WaiterQueued(keep);
    var f2 := Calls(f1, Waiter(), Set([0, 1, 0, 0], [], [Waiter()], []));
    TakerQueued(keep);
    var f3 := Calls(f2, Taker(keep), Set([0, 1, 0, 0], [Taker(keep)], [Waiter()], []));
    Gives([0, 1, 0, 0], 0, [Taker(keep)], [Waiter()], keep);
    var f4 := Calls(f3, Giver(0), Waiting(0, keep, [Waiter()], []));
    RunOne(f3, acts[3..], []);
    RunOne(f2, acts[2..], acts[3..]);
    RunOne(f1, acts[1..], acts[2..]);
    RunOne(f0, acts, acts[1..]);
  }

  lemma NewSet()
    ensures Created(4).st == Set([0, 0, 0, 0], [], [], [])
  {
  }

  lemma RunOne(f: Full, acts: seq<Action>, rest: seq<Action>)
    requires Inv(f) && acts != [] && Enabled(f, acts[0]) && rest == acts[1..]
    requires rest != [] ==> Runs(Step(f, acts[0]), rest)
    ensures Runs(f, acts)
    ensures Run(f, acts) == if rest == [] then Step(f, acts[0]) else Run(Step(f, acts[0]), rest)
  {
  }

  // ---------- What happens there ----------

  /** The call that raises semaphore 2 finds the waiter outside the guard of SmartUpdateForms. */
  lemma GuardFails(keep: bool)
    ensures var st, w := Waiting(0, keep, [Waiter()], []), Waiting(1, keep, [Waiter()], []);
            && Good(st) && CanEval(st.store, Giver(2)) && Eval(st.store, Giver(2)).Done?
            && st.(store := Next(st.store, Giver(2))) == w
            && Good(w) && SopsFit(4, Some(Giver(2).sops)) && !ZeroPassAgrees(w, Giver(2).sops)
  {
    var st, w := Waiting(0, keep, [Waiter()], []), Waiting(1, keep, [Waiter()], []);
    hide Good, EntryFits;
    SetGood(st.store.vals, st.alter, st.consts, [], keep);
    SetGood(w.store.vals, w.alter, w.consts, [], keep);
    ExecOne(MemFor(st.store, Giver(2)), Giver(2).sops);
    WaiterStatus(w.store);
    assert Waiter() in w.consts && w.store.vals[AllNums(4)[3]] == 0;
  }

  /** Same successes, then, is false in general: after some run, one successful call makes
      the two forms of do_smart_update give one queued wait-for-zero call different
      results. */
  lemma FormsDiffer()
    ensures Runs(Created(4), Way(false)) && Run(Created(4), Way(false)).st == Waiting(0, false, [Waiter()], [])
    ensures var st := Waiting(0, false, [Waiter()], []);
            && Good(st) && CanEval(st.store, Giver(2)) && Eval(st.store, Giver(2)).Done?
            && st.(store := Next(st.store, Giver(2))) == Waiting(1, false, [Waiter()], [])
    ensures Good(Waiting(1, false, [Waiter()], []))
    ensures var a := SmartUpdate(Waiting(1, false, [Waiter()], []), Some(Giver(2).sops)).woken;
            var b := SmartUpdate(Waiting(1, false, [Waiter()], []), None).woken;
            Wake(Waiter(), 0) in a && Wake(Waiter(), 0) !in b
  {
    hide SmartUpdate, Good, CanEval, Eval, Next, Runs, Run;
    WayLeads(false);
    GuardFails(false);
    WaiterLater(false);
    WaiterFirst(false);
  }

  /** Nor is the guard exact once a call that changes the set completes: here it fails, and
      the two forms agree in everything. */
  lemma FormsMayAgree()
    ensures Runs(Created(4), Way(true)) && Run(Created(4), Way(true)).st == Waiting(0, true, [Waiter()], [])
    ensures var w := Waiting(1, true, [Waiter()], []);
            && w == Waiting(0, true, [Waiter()], []).(store := w.store)
            && Good(w) && SopsFit(4, Some(Giver(2).sops)) && !ZeroPassAgrees(w, Giver(2).sops)
            && SmartUpdate(w, Some(Giver(2).sops)) == SmartUpdate(w, None)
            && Wake(Taker(true), 0) in SmartUpdate(w, None).woken
  {
    hide SmartUpdate, Good, CanEval, Eval, Next, Runs, Run, ZeroPassAgrees;
    WayLeads(true);
    GuardFails(true);
    WaiterLater(true);
    WaiterFirst(true);
  }
}
