/**
 Why the wakeup scans of ipc/sem.c may look only at zeroed and raised
 semaphores: after do_smart_update no sleeping call could have proceeded.
 */
module SemWakeup {
  import opened Options
  import opened SemOps
  import opened SemEval
  import opened SemSet

  // ---------- Quiet sets: nobody sleeps who could proceed ----------

  ghost predicate ZeroQuiet(st: State)
    requires Good(st)
  {
    && (forall i | 0 <= i < |st.semConst| :: st.semConst[i] != [] ==> st.store.vals[i] != 0)
    && (forall e | e in st.consts :: !AllZeroVals(st.store.vals, e.sops))
  }

  ghost predicate SemQuiet(st: State, i: nat)
    requires Good(st) && i < |st.store.vals|
  {
    assert SemAlterOk(|st.store.vals|, st.store.undos.Keys, i, st.semAlter[i]);
    forall e | e in st.semAlter[i] :: st.store.vals[i] + e.sops[0].op < 0
  }

  ghost predicate Quiet(st: State)
    requires Good(st)
  {
    && ZeroQuiet(st)
    && (forall i | 0 <= i < |st.store.vals| :: SemQuiet(st, i))
    && (forall e | e in st.alter :: !Ready(st.store, e))
  }

  /** What Quiet means for the callers: a queued call that changes the set must
      still sleep, and a queued wait-for-zero call would not succeed. */
  ghost predicate NobodyLost(st: State) {
    && (forall e | e in st.alter :: CanEval(st.store, e) && Status(st.store, e) == 1)
    && (forall e | e in st.consts :: CanEval(st.store, e) && Status(st.store, e) != 0)
    && (forall i, e | 0 <= i < |st.semAlter| && e in st.semAlter[i] :: CanEval(st.store, e) && Status(st.store, e) == 1)
    && (forall i, e | 0 <= i < |st.semConst| && e in st.semConst[i] :: CanEval(st.store, e) && Status(st.store, e) == 1)
  }

  lemma QuietNobodyLost(st: State)
    requires Good(st) && Quiet(st)
    ensures NobodyLost(st)
  {
    forall e | e in st.consts
      ensures CanEval(st.store, e) && Status(st.store, e) != 0
    {
      ConstReady(st.store, e);
    }
    forall i, e | 0 <= i < |st.store.vals| && e in st.semAlter[i]
      ensures CanEval(st.store, e) && Status(st.store, e) == 1
    {
      assert SemQuiet(st, i) && SemAlterOk(|st.store.vals|, st.store.undos.Keys, i, st.semAlter[i]);
      SimpleAlterReady(st.store, i, e);
    }
    forall i, e | 0 <= i < |st.store.vals| && e in st.semConst[i]
      ensures CanEval(st.store, e) && Status(st.store, e) == 1
    {
      assert SemConstOk(|st.store.vals|, st.store.undos.Keys, i, st.semConst[i]);
      SimpleConstReady(st.store, i, e);
    }
  }

  // ---------- The wait-for-zero scan ----------

  lemma {:induction false} ZeroWakesAll(s: Store, rows: set<nat>, n: nat, es: seq<Entry>)
    requires Bounded(s) && rows == s.undos.Keys
    requires n < |s.vals| && s.vals[n] == 0
    requires SemConstOk(|s.vals|, rows, n, es) && AllCanEval(s, es)
    ensures Sleeping(Verdict(s), es) == []
  {
    if es != [] {
      ZeroWakesAll(s, rows, n, es[..|es| - 1]);
      SimpleConstReady(s, n, es[|es| - 1]);
    }
  }

  lemma WakeSemEmpties(st: State, n: nat)
    requires Good(st) && n < |st.store.vals| && st.store.vals[n] == 0
    ensures WakeConst(st, Sem(n)).semConst == st.semConst[n := []]
  {
    ConstCanEval(st, Sem(n));
    assert SemConstOk(|st.store.vals|, st.store.undos.Keys, n, st.semConst[n]);
    ZeroWakesAll(st.store, st.store.undos.Keys, n, st.semConst[n]);
  }

  ghost predicate Zeroed(s: Store, nums: seq<nat>, j: nat)
    requires j < |s.vals|
  {
    s.vals[j] == 0 && j in nums
  }

  lemma {:induction false} WakeZeroSemsQueues(st: State, nums: seq<nat>)
    requires Good(st) && Within(nums, |st.store.vals|)
    ensures forall j | 0 <= j < |st.store.vals| ::
              WakeZeroSems(st, nums).semConst[j] == if Zeroed(st.store, nums, j) then [] else st.semConst[j]
  {
    if nums != [] {
      var init, n := nums[..|nums| - 1], nums[|nums| - 1];
      var s := WakeZeroSems(st, init);
      WakeZeroSemsQueues(st, init);
      assert nums == init + [n];
      if st.store.vals[n] == 0 {
        WakeSemEmpties(s, n);
      }
      forall j | 0 <= j < |st.store.vals|
        ensures Zeroed(st.store, nums, j) <==> Zeroed(st.store, init, j) || (j == n && st.store.vals[n] == 0)
      {
      }
    }
  }

  lemma WakeGlobalQuiet(s: State)
    requires Good(s)
    ensures forall e | e in WakeConst(s, Global).consts ::
              e in s.consts && CanEval(s.store, e) && !Ready(s.store, e) && !AllZeroVals(s.store.vals, e.sops)
  {
    ConstCanEval(s, Global);
    var left := Sleeping(Verdict(s.store), s.consts);
    assert WakeConst(s, Global).consts == left;
    forall e | e in left
      ensures !AllZeroVals(s.store.vals, e.sops)
    {
      ConstReady(s.store, e);
    }
  }

  /** Every wait-for-zero call that could proceed names a semaphore of nums that is zero. */
  ghost predicate Covers(st: State, nums: seq<nat>)
    requires Good(st) && Within(nums, |st.store.vals|)
  {
    && (forall i | 0 <= i < |st.store.vals| :: st.semConst[i] != [] && st.store.vals[i] == 0 ==> i in nums)
    && (forall e | e in st.consts :: AllZeroVals(st.store.vals, e.sops) ==> AnyZero(st.store, nums))
  }

  lemma WakeZeroQuiet(st: State, nums: seq<nat>)
    requires Good(st) && Within(nums, |st.store.vals|)
    requires Covers(st, nums)
    ensures ZeroQuiet(WakeZero(st, nums))
  {
    var s := WakeZeroSems(st, nums);
    WakeZeroSemsQueues(st, nums);
    var r := WakeZero(st, nums);
    if AnyZero(st.store, nums) {
      WakeGlobalQuiet(s);
      assert r == WakeConst(s, Global);
    } else {
      assert r == s;
    }
    forall i | 0 <= i < |r.semConst| && r.semConst[i] != []
      ensures r.store.vals[i] != 0
    {
      assert r.semConst[i] == s.semConst[i];
      assert !Zeroed(st.store, nums, i);
    }
  }

  lemma CallCovers(st: State, e: Entry)
    requires Good(st) && CanEval(st.store, e) && ZeroQuiet(st)
    requires Good(st.(store := Next(st.store, e)))
    ensures Covers(st.(store := Next(st.store, e)), Nums(e.sops))
  {
    var w := st.(store := Next(st.store, e));
    var nums := Nums(e.sops);
    forall i | 0 <= i < |st.store.vals| && w.semConst[i] != [] && w.store.vals[i] == 0
      ensures i in nums
    {
      if i !in nums {
        UnnamedUnchanged(st.store, e, i);
      }
    }
    forall c | c in w.consts && AllZeroVals(w.store.vals, c.sops)
      ensures AnyZero(w.store, nums)
    {
      assert !AllZeroVals(st.store.vals, c.sops);
      var j :| 0 <= j < |c.sops| && st.store.vals[c.sops[j].num] != 0;
      var m := c.sops[j].num;
      assert w.store.vals[m] == 0;
      if m !in nums {
        UnnamedUnchanged(st.store, e, m);
      }
    }
  }

  /** A call that zeroes semaphores finds every wait-for-zero call it satisfies. */
  lemma EffectZeroQuiet(st: State, e: Entry)
    requires Good(st) && CanEval(st.store, e) && ZeroQuiet(st)
    ensures ZeroQuiet(Effect(st, e))
  {
    if Eval(st.store, e).Done? {
      NextGood(st, e);
      CallCovers(st, e);
      WakeZeroQuiet(st.(store := Next(st.store, e)), Nums(e.sops));
    }
  }

  lemma CompleteZeroQuiet(st: State, loc: Loc, i: nat)
    requires Good(st) && HasLoc(st, loc) && i < |AlterList(st, loc)| && ZeroQuiet(st)
    ensures ZeroQuiet(Complete(st, loc, i))
  {
    UnlinkGood(st, loc, i);
    AlterCanEval(st, loc);
    EffectZeroQuiet(Unlink(st, loc, i), AlterList(st, loc)[i]);
  }

  lemma {:induction false} DrainZeroQuiet(st: State, loc: Loc)
    requires Good(st) && HasLoc(st, loc) && ZeroQuiet(st)
    ensures ZeroQuiet(Drain(st, loc))
    decreases |AlterList(st, loc)|
  {
    AlterCanEval(st, loc);
    var es := AlterList(st, loc);
    var i := FirstReady(Verdict(st.store), es);
    if i < |es| {
      CompleteZeroQuiet(st, loc, i);
      DrainZeroQuiet(Complete(st, loc, i), loc);
    }
  }

  // ---------- The per-semaphore scans ----------

  /** The values and queued changes of every other semaphore, and the global queue
      of changes, are the same. */
  ghost predicate OnlySem(st: State, r: State, i: nat) {
    && |r.store.vals| == |st.store.vals| == |st.semAlter| == |r.semAlter|
    && r.alter == st.alter
    && forall j | 0 <= j < |st.store.vals| && j != i :: r.store.vals[j] == st.store.vals[j] && r.semAlter[j] == st.semAlter[j]
  }

  lemma CompleteOnlySem(st: State, i: nat, k: nat)
    requires Good(st) && i < |st.store.vals| && k < |st.semAlter[i]|
    ensures OnlySem(st, Complete(st, Sem(i), k), i)
  {
    var e := st.semAlter[i][k];
    var r := Complete(st, Sem(i), k);
    assert SemAlterOk(|st.store.vals|, st.store.undos.Keys, i, st.semAlter[i]) && Simple(e, i);
    forall j | 0 <= j < |st.store.vals| && j != i
      ensures r.store.vals[j] == st.store.vals[j]
    {
      UnnamedUnchanged(st.store, e, j);
    }
    assert r.semAlter == st.semAlter[i := RemoveAt(st.semAlter[i], k)] by {
      UnlinkGood(st, Sem(i), k);
    }
  }

  lemma {:induction false} DrainOnlySem(st: State, i: nat)
    requires Good(st) && i < |st.store.vals|
    ensures OnlySem(st, Drain(st, Sem(i)), i)
    ensures SemQuiet(Drain(st, Sem(i)), i)
    decreases |st.semAlter[i]|
  {
    AlterCanEval(st, Sem(i));
    var es := st.semAlter[i];
    var k := FirstReady(Verdict(st.store), es);
    if k < |es| {
      CompleteOnlySem(st, i, k);
      DrainOnlySem(Complete(st, Sem(i), k), i);
    } else {
      assert SemAlterOk(|st.store.vals|, st.store.undos.Keys, i, es);
      forall e | e in es
        ensures st.store.vals[i] + e.sops[0].op < 0
      {
        SimpleAlterReady(st.store, i, e);
      }
    }
  }

  lemma OnlySemKeepsQuiet(st: State, r: State, i: nat, j: nat)
    requires Good(st) && Good(r) && OnlySem(st, r, i)
    requires j < |st.store.vals| && j != i && SemQuiet(st, j)
    ensures SemQuiet(r, j)
  {
  }

  lemma {:induction false} DrainSemsQuiet(st: State, nums: seq<nat>)
    requires Good(st) && Within(nums, |st.store.vals|) && ZeroQuiet(st)
    ensures var r := DrainSems(st, nums);
            && ZeroQuiet(r)
            && forall j | 0 <= j < |r.store.vals| :: (j in nums || SemQuiet(st, j)) ==> SemQuiet(r, j)
  {
    if nums != [] {
      var init, n := nums[..|nums| - 1], nums[|nums| - 1];
      assert nums == init + [n];
      var s := DrainSems(st, init);
      DrainSemsQuiet(st, init);
      DrainZeroQuiet(s, Sem(n));
      DrainOnlySem(s, n);
      var r := DrainSems(st, nums);
      forall j | 0 <= j < |r.store.vals| && (j in nums || SemQuiet(st, j))
        ensures SemQuiet(r, j)
      {
        if j != n {
          OnlySemKeepsQuiet(s, r, n, j);
        }
      }
    }
  }

  // ---------- do_smart_update ----------

  lemma DrainGlobalQuiet(s: State)
    requires Good(s) && ZeroQuiet(s) && s.alter != []
    ensures Quiet(Drain(s, Global))
  {
    DrainZeroQuiet(s, Global);
    assert NoSemAlter(s);
  }

  lemma DrainAllSemsQuiet(s: State, nums: seq<nat>)
    requires Good(s) && ZeroQuiet(s) && s.alter == [] && Within(nums, |s.store.vals|)
    requires forall i | 0 <= i < |s.store.vals| && i !in nums :: SemQuiet(s, i)
    ensures Quiet(DrainSems(s, nums))
  {
    DrainSemsQuiet(s, nums);
  }

  lemma SmartUpdateQuiet(st: State, sops: Option<seq<Sembuf>>)
    requires Good(st) && SopsFit(|st.store.vals|, sops)
    requires Covers(st, ChangedNums(|st.store.vals|, sops))
    requires forall i | 0 <= i < |st.store.vals| && i !in RaisedNums(|st.store.vals|, sops) :: SemQuiet(st, i)
    ensures Quiet(SmartUpdate(st, sops))
  {
    var nums := ChangedNums(|st.store.vals|, sops);
    var s := WakeZero(st, nums);
    WakeZeroQuiet(st, nums);
    if s.alter != [] {
      DrainGlobalQuiet(s);
    } else {
      forall i | 0 <= i < |st.store.vals| && i !in RaisedNums(|st.store.vals|, sops)
        ensures SemQuiet(s, i)
      {
        assert SemQuiet(st, i);
      }
      DrainAllSemsQuiet(s, RaisedNums(|st.store.vals|, sops));
    }
  }

  /** After any change at all (SETVAL, SETALL, exit_sem) the exhaustive form leaves
      nobody behind. */
  lemma UpdateAllQuiet(st: State)
    requires Good(st)
    ensures Quiet(SmartUpdate(st, None))
  {
    var nums := AllNums(|st.store.vals|);
    forall i | 0 <= i < |st.store.vals|
      ensures i in nums
    {
      assert nums[i] == i;
    }
    forall e | e in st.consts && AllZeroVals(st.store.vals, e.sops)
      ensures AnyZero(st.store, nums)
    {
      assert e.sops[0] in e.sops;
      assert st.store.vals[nums[e.sops[0].num]] == 0;
    }
    SmartUpdateQuiet(st, None);
  }

  lemma {:induction false} NetNotRaised(sops: seq<Sembuf>, k: nat, i: nat)
    requires k <= |sops|
    requires forall s | s in sops :: s.num == i ==> s.op <= 0
    ensures Net(sops, k, i, false) <= 0
    decreases |sops| - k
  {
    if k < |sops| {
      assert sops[k] in sops;
      NetNotRaised(sops, k + 1, i);
    }
  }

  /** After a successful call from a quiet set, looking only at the semaphores it
      zeroed or raised leaves nobody behind. */
  lemma UpdateAfterCallQuiet(st: State, e: Entry)
    requires Good(st) && Quiet(st) && CanEval(st.store, e) && Eval(st.store, e).Done?
    requires Good(st.(store := Next(st.store, e)))
    ensures Quiet(SmartUpdate(st.(store := Next(st.store, e)), Some(e.sops)))
  {
    var w := st.(store := Next(st.store, e));
    CallCovers(st, e);
    forall i | 0 <= i < |st.store.vals| && i !in Raised(e.sops)
      ensures SemQuiet(w, i)
    {
      assert SemQuiet(st, i);
      ExecNet(MemFor(st.store, e), e.sops, 0, i);
      NetNotRaised(e.sops, 0, i);
    }
    SmartUpdateQuiet(w, Some(e.sops));
  }
}
