/**
 A race at the end of semop(): a call completes while its task, woken by a signal, is on its
 way to the lock, and the set is removed before it gets there.
 */
module SemRaces {
  import opened Options
  import opened SemOps
  import opened SemEval
  import opened SemSet
  import opened SemWakeup
  import opened SemCalls
  import opened SemRuns
  import opened SemSlices
  import opened SemSmart
  import F = SemForms
  import opened SemPlaces
  import S = SemSleepers

  /** Waits for the only semaphore. */
  function Down(): Entry {
    Entry(0, [Sembuf(0, -1, false, false)], None, false)
  }

  function Up(): Entry {
    Entry(1, [Sembuf(0, 1, false, false)], None, false)
  }

  /** A set of one semaphore */
  function One(v: int, alter: seq<Entry>, woken: seq<Wake>): State {
    State(Store([v], map[]), [alter], [[]], [], [], 0, woken)
  }

  lemma OneGood(v: int, alter: seq<Entry>, woken: seq<Wake>)
    requires 0 <= v <= 1 && (alter == [] || alter == [Down()])
    ensures Good(One(v, alter, woken)) && CanEval(One(v, alter, woken).store, Down()) && CanEval(One(v, alter, woken).store, Up())
  {
    var st := One(v, alter, woken);
    assert st.store.undos.Keys == {};
    assert !AllZeroOps(Down().sops) && !AllZeroOps(Up().sops) by {
      assert Down().sops[0].op == -1 && Up().sops[0].op == 1;
    }
    assert EntryFits(1, {}, Down()) && EntryFits(1, {}, Up());
    assert SemAlterOk(1, {}, 0, alter) && SemConstOk(1, {}, 0, []);
    assert Typed(st);
  }

  lemma DownStatus(v: int)
    requires 0 <= v <= 1
    ensures CanEval(Store([v], map[]), Down())
    ensures Status(Store([v], map[]), Down()) == if v == 0 then 1 else 0
    ensures v == 1 ==> Next(Store([v], map[]), Down()) == Store([0], map[])
  {
    hide Good, CanEval, Bounded, EntryFits, Exec;
    OneGood(v, [], []);
    var m := Mem([v], []);
    assert MemFor(Store([v], map[]), Down()) == m;
    ExecOne(m, Down().sops);
    assert [v][0 := v - 1] == [v - 1];
  }

  lemma UpStatus()
    ensures CanEval(Store([0], map[]), Up()) && Status(Store([0], map[]), Up()) == 0
    ensures Next(Store([0], map[]), Up()) == Store([1], map[])
  {
    hide Good, CanEval, Bounded, EntryFits, Exec;
    OneGood(0, [], []);
    var m := Mem([0], []);
    assert MemFor(Store([0], map[]), Up()) == m;
    ExecOne(m, Up().sops);
    assert [0][0 := 1] == [1];
  }

  lemma DownQueued()
    ensures Good(One(0, [], [])) && CanEval(One(0, [], []).store, Down())
    ensures SemopBody(One(0, [], []), Down()) == One(0, [Down()], [])
  {
    hide Good, CanEval, Status;
    OneGood(0, [], []);
    DownStatus(0);
    assert Down().sops[0] in Down().sops;
    assert !AllZeroOps(Down().sops) by {
      assert Down().sops[0].op == -1;
    }
    var none: seq<seq<Entry>> := [[]];
    assert none[0] + [Down()] == [Down()];
    assert none[0 := [Down()]] == [[Down()]];
  }

  lemma NobodyElse(v: int, woken: seq<Wake>)
    requires 0 <= v <= 1
    ensures Good(One(v, [], woken)) && WakeZero(One(v, [], woken), [0]) == One(v, [], woken)
  {
    var st := One(v, [], woken);
    OneGood(v, [], woken);
    F.NoSingles(st, [0]);
    LastScanned(Verdict(st.store), []);
    assert woken + [] == woken;
  }

  lemma DownGoes()
    ensures Good(One(1, [Down()], [])) && Drain(One(1, [Down()], []), Sem(0)) == One(0, [], [Wake(Down(), 0)])
  {
    hide Good, Multi, WakeZero, EntryFits, Next, Eval, AllZeroOps, Drain, Complete;
    var w := One(1, [Down()], []);
    OneGood(1, [Down()], []);
    DownStatus(1);
    OneGood(0, [], []);
    NobodyElse(0, []);
    DrainUnfold(w, Sem(0));
    CompleteIs(w, Sem(0), 0);
    assert Nums(Down().sops) == [0];
    assert Unlink(w, Sem(0), 0).(store := Next(w.store, Down())) == One(0, [], []);
    assert Complete(w, Sem(0), 0) == One(0, [], [Wake(Down(), 0)]);
    OneGood(0, [], [Wake(Down(), 0)]);
    DrainIdle(Complete(w, Sem(0), 0), Sem(0));
  }

  lemma UpNums()
    ensures !AllZeroOps(Up().sops) && Nums(Up().sops) == [0] && Raised(Up().sops) == [0]
  {
    assert Up().sops[0].op == 1;
  }

  lemma UpLooks()
    ensures var w := One(1, [Down()], []);
            Good(w) && WakeZero(w, [0]) == w && DrainSems(w, [0]) == Drain(w, Sem(0))
  {
    hide Good, CanEval, Drain, WakeZero, WakeZeroSems, DrainSems;
    var w := One(1, [Down()], []);
    OneGood(1, [Down()], []);
    F.NoSingles(w, [0]);
    DrainSemsNone(w);
    DrainSemsAppend(w, [], 0);
    assert [] + [0] == [0];
  }

  lemma UpWakes()
    ensures Good(One(1, [Down()], [])) && SopsFit(1, Some(Up().sops))
    ensures SmartUpdate(One(1, [Down()], []), Some(Up().sops)) == One(0, [], [Wake(Down(), 0)])
  {
    hide Good, Drain, WakeZero, DrainSems, SmartUpdate, Raised, Nums, AllZeroOps, AllCanEval, Ready, Bounded, CanEval;
    UpNums();
    UpLooks();
    UpdateIs(One(1, [Down()], []), Up().sops, [0]);
    DownGoes();
  }

  lemma UpdateIs(w: State, sops: seq<Sembuf>, nums: seq<nat>)
    requires Good(w) && SopsFit(|w.store.vals|, Some(sops)) && Within(nums, |w.store.vals|)
    requires Nums(sops) == nums && Raised(sops) == nums && w.alter == []
    ensures SmartUpdate(w, Some(sops)) ==
            var z := WakeZero(w, nums); DrainSems(z, nums)
  {
    hide Good, Drain, WakeZero, DrainSems, SmartUpdate, Raised, Nums, AllCanEval, Ready, Bounded, CanEval;
    SmartUpdateIs(w, Some(sops));
  }

  lemma UpCompletes()
    ensures Good(One(0, [Down()], [])) && CanEval(One(0, [Down()], []).store, Up())
    ensures SemopBody(One(0, [Down()], []), Up()) == One(0, [], [Wake(Down(), 0)])
  {
    hide Good, CanEval, Status, Drain, Next, SmartUpdate, AllZeroOps;
    OneGood(0, [Down()], []);
    UpStatus();
    UpNums();
    UpWakes();
    assert One(0, [Down()], []).(store := Store([1], map[])) == One(1, [Down()], []);
  }

  // ---------- The run ----------

  /** A task waits and gets a signal; another one lets it through; the set is removed; the first
      task gets to the lock. */
  function Way(): seq<(nat, S.Move)> {
    [(0, S.Call(Down())), (0, S.Look), (1, S.Call(Up())), (1, S.Rmid), (0, S.Relock(false, true, Global, true, 0))]
  }

  lemma StepTo(f: Full, e: Entry, r: State)
    requires Inv(f) && |f.st.store.vals| == 1 && f.st.store.undos == map[] && EntryFits(1, {}, e)
    requires Good(f.st) && CanEval(f.st.store, e) && SemopBody(f.st, e) == r && r.alter == []
    ensures Enabled(f, Semop(e)) && Step(f, Semop(e)).st == r
  {
    hide Good, Quiet, SemopBody, Inv, Bounded;
    assert f.st.store.undos.Keys == {};
    BodyInv(f, Semop(e));
    NothingToPlace(f, |e.sops|, r);
  }

  lemma NothingToPlace(f: Full, n: int, body: State)
    requires Inv(f) && Good(body) && Quiet(body) && body.alter == []
    requires TakesGlobal(f, n) || (body.complex == 0 && body.alter == [])
    ensures Section(f, n, body).st == body
  {
    LeaveInv(f, n, body);
    UnmergeIdle(body);
  }

  lemma Later(s: S.Sys, steps: seq<(nat, S.Move)>, rest: seq<(nat, S.Move)>)
    requires S.SleepInv(s) && steps != [] && rest == steps[1..] && S.Can(s, steps[0].0, steps[0].1)
    ensures S.SleepInv(S.Act(s, steps[0].0, steps[0].1))
    ensures S.Runs(S.Act(s, steps[0].0, steps[0].1), rest) ==>
              S.Runs(s, steps) && S.Run(s, steps) == S.Run(S.Act(s, steps[0].0, steps[0].1), rest)
  {
    hide S.SleepInv, S.Can, S.Act;
    S.StepInv(s, steps[0].0, steps[0].1);
  }

  ghost predicate Looks(s: S.Sys, st: State, valid: bool, pc: S.Pc, issued: nat, ended: seq<Wake>) {
    S.SleepInv(s) && s.full.st == st && s.valid == valid && s.pcs == [pc, S.Idle] && s.issued == issued && s.ended == ended
  }

  lemma DownSleeps(s: S.Sys)
    requires Looks(s, One(0, [], []), true, S.Idle, 0, [])
    ensures S.Can(s, 0, S.Call(Down())) && Looks(S.Act(s, 0, S.Call(Down())), One(0, [Down()], []), true, S.Asleep(Down()), 1, [])
  {
    hide Good, CanEval, Status, SemopBody, Step, Inv, Enabled, S.SleepInv, EntryFits;
    S.InvOf(s);
    DownQueued();
    CallsFit();
    DownStatus(0);
    NoRows(s.full.st);
    StepTo(s.full, Down(), One(0, [Down()], []));
    QueuedIs(s.full, Down());
    S.StepInv(s, 0, S.Call(Down()));
  }

  lemma DownLooks(s: S.Sys)
    requires Looks(s, One(0, [Down()], []), true, S.Asleep(Down()), 1, [])
    ensures S.Can(s, 0, S.Look) && Looks(S.Act(s, 0, S.Look), One(0, [Down()], []), true, S.Unsure(Down()), 1, [])
  {
    hide S.SleepInv, Inv;
    S.InvOf(s);
    S.StepInv(s, 0, S.Look);
  }

  lemma UpLetsThrough(s: S.Sys)
    requires Looks(s, One(0, [Down()], []), true, S.Unsure(Down()), 1, [])
    ensures S.Can(s, 1, S.Call(Up()))
    ensures Looks(S.Act(s, 1, S.Call(Up())), One(0, [], [Wake(Down(), 0)]), true, S.Unsure(Down()), 2, [])
  {
    hide Good, CanEval, Status, SemopBody, Step, Inv, Enabled, S.SleepInv, EntryFits;
    S.InvOf(s);
    UpCompletes();
    CallsFit();
    UpStatus();
    NoRows(s.full.st);
    StepTo(s.full, Up(), One(0, [], [Wake(Down(), 0)]));
    QueuedIs(s.full, Up());
    S.StepInv(s, 1, S.Call(Up()));
  }

  lemma SetGoes(s: S.Sys)
    requires Looks(s, One(0, [], [Wake(Down(), 0)]), true, S.Unsure(Down()), 2, [])
    ensures S.Can(s, 1, S.Rmid)
    ensures Looks(S.Act(s, 1, S.Rmid), One(0, [], [Wake(Down(), 0)]), false, S.Unsure(Down()), 2, [])
  {
    hide S.SleepInv, Inv;
    S.InvOf(s);
    RemovedOne([Wake(Down(), 0)]);
    S.StepInv(s, 1, S.Rmid);
  }

  lemma RemovedOne(woken: seq<Wake>)
    ensures Removed(One(0, [], woken)) == One(0, [], woken)
  {
    var st := One(0, [], woken);
    assert Failed([]) == [];
    assert FailedSems(st.semConst, st.semAlter, 0) == [];
    assert FailedAll(st) == [];
    assert woken + [] == woken;
    assert seq<seq<Entry>>(1, _ => []) == [[]];
  }

  lemma DownReturns(s: S.Sys)
    requires Looks(s, One(0, [], [Wake(Down(), 0)]), false, S.Unsure(Down()), 2, [])
    ensures S.Can(s, 0, S.Relock(false, true, Global, true, 0))
    ensures Looks(S.Act(s, 0, S.Relock(false, true, Global, true, 0)),
                  One(0, [], [Wake(Down(), 0)]), false, S.Idle, 2, [Wake(Down(), -EINTR)])
  {
    hide S.SleepInv, Inv;
    S.InvOf(s);
    S.StepInv(s, 0, S.Relock(false, true, Global, true, 0));
  }

  /** Its operation was carried out, and semop() returns EINTR. */
  lemma DoneAndTold()
    ensures S.Runs(S.Fresh(2, 1), Way())
    ensures var s := S.Run(S.Fresh(2, 1), Way());
            && s.full.st.woken == [Wake(Down(), 0)] && s.full.st.store.vals == [0]
            && s.ended == [Wake(Down(), -EINTR)]
  {
    hide S.SleepInv, S.Can, S.Act, S.Runs, S.Run, Inv;
    var w, s0 := Way(), S.Fresh(2, 1);
    CreatedIs();
    FreshIs();
    DownSleeps(s0);
    var s1 := S.Act(s0, 0, S.Call(Down()));
    DownLooks(s1);
    var s2 := S.Act(s1, 0, S.Look);
    UpLetsThrough(s2);
    var s3 := S.Act(s2, 1, S.Call(Up()));
    SetGoes(s3);
    var s4 := S.Act(s3, 1, S.Rmid);
    DownReturns(s4);
    Ends(S.Act(s4, 0, S.Relock(false, true, Global, true, 0)));
    Later(s4, w[4..], []);
    Later(s3, w[3..], w[4..]);
    Later(s2, w[2..], w[3..]);
    Later(s1, w[1..], w[2..]);
    Later(s0, w, w[1..]);
  }

  lemma Ends(s: S.Sys)
    requires S.SleepInv(s)
    ensures S.Runs(s, []) && S.Run(s, []) == s
  {
  }

  lemma NoRows(st: State)
    requires st.store.undos == map[]
    ensures st.store.undos.Keys == {}
  {
  }

  lemma CreatedIs()
    ensures Created(1).st == One(0, [], [])
  {
    assert Zeros(1) == [0];
    assert seq<seq<Entry>>(1, _ => []) == [[]];
  }

  lemma FreshIs()
    ensures S.Fresh(2, 1) == S.Sys(Created(1), true, [S.Idle, S.Idle], 0, [])
  {
    assert seq(2, _ => S.Idle) == [S.Idle, S.Idle];
  }

  lemma CallsFit()
    ensures EntryFits(1, {}, Down()) && EntryFits(1, {}, Up())
  {
    assert Down().sops[0].op == -1 && Up().sops[0].op == 1;
  }

  lemma QueuedIs(f: Full, e: Entry)
    requires Inv(f) && Enabled(f, Semop(e))
    ensures Queued(f, Semop(e)) == if Status(f.st.store, e) > 0 then Some(e) else None
  {
  }
}
