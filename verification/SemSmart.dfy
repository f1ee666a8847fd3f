/**
 do_smart_update with the operations of a call, which looks only at the
 semaphores that call zeroed or raised, against the exhaustive form that looks at
 all of them.
 */
module SemSmart {
  import opened Options
  import opened SemOps
  import opened SemEval
  import opened SemSet
  import opened SemWakeup
  import opened SemCalls
  import opened SemRuns
  import opened SemSlices

  /** What do_smart_update may rely on after a successful call from a quiet set. */
  ghost predicate JustChanged(w: State, sops: seq<Sembuf>) {
    && Good(w) && SopsFit(|w.store.vals|, Some(sops))
    && Covers(w, Nums(sops))
    && (forall i | 0 <= i < |w.store.vals| && i !in Raised(sops) :: SemQuiet(w, i))
  }

  lemma CallChanged(st: State, e: Entry)
    requires Good(st) && Quiet(st) && CanEval(st.store, e) && Eval(st.store, e).Done?
    ensures JustChanged(st.(store := Next(st.store, e)), e.sops)
  {
    NextGood(st, e);
    var w := st.(store := Next(st.store, e));
    CallCovers(st, e);
    forall i | 0 <= i < |st.store.vals| && i !in Raised(e.sops)
      ensures SemQuiet(w, i)
    {
      assert SemQuiet(st, i);
      ExecNet(MemFor(st.store, e), e.sops, 0, i);
      NetNotRaised(e.sops, 0, i);
    }
  }

  // ---------- The wait-for-zero pass ----------

  lemma {:induction false} WakeZeroSemsAt(st: State, nums: seq<nat>, i: nat)
    requires Good(st) && Within(nums, |st.store.vals|) && i < |st.store.vals|
    ensures SameAt(WakeZeroSems(st, nums), if i in nums then ZeroedAt(st, i) else st, i)
  {
    if nums != [] {
      var init, n := nums[..|nums| - 1], nums[|nums| - 1];
      assert nums == init + [n];
      WakeZeroSemsAt(st, init, i);
      WakeOneMore(st, WakeZeroSems(st, init), i in init, n, i);
    }
  }

  lemma WakeOneMore(st: State, s: State, seen: bool, n: nat, i: nat)
    requires Good(st) && Good(s) && s.store == st.store && i < |st.store.vals| && n < |st.store.vals|
    requires SameAt(s, if seen then ZeroedAt(st, i) else st, i)
    ensures var r := if st.store.vals[n] == 0 then WakeConst(s, Sem(n)) else s;
            SameAt(r, if seen || n == i then ZeroedAt(st, i) else st, i)
  {
    if st.store.vals[n] == 0 {
      WakeSemIs(s, n);
      if n == i {
        if seen {
          ZeroedTwice(st, i);
        }
        ZeroedAtDepends(s, if seen then ZeroedAt(st, i) else st, i);
      } else {
        ZeroedAtOther(s, n, i);
      }
    }
  }

  lemma ZeroedTwice(st: State, i: nat)
    requires Good(st) && i < |st.store.vals|
    ensures ZeroedAt(ZeroedAt(st, i), i) == ZeroedAt(st, i)
  {
    assert Succeeded([]) == [];
  }

  /** The woken calls with more than one operation. */
  ghost function MultiLog(ws: seq<Wake>): seq<Wake> {
    if ws == [] then []
    else MultiLog(ws[..|ws| - 1]) + (if |ws[|ws| - 1].entry.sops| != 1 then [ws[|ws| - 1]] else [])
  }

  lemma {:induction false} MultiLogConcat(a: seq<Wake>, b: seq<Wake>)
    ensures MultiLog(a + b) == MultiLog(a) + MultiLog(b)
  {
    if b == [] {
      assert a + b == a;
    } else {
      assert (a + b)[..|a + b| - 1] == a + b[..|b| - 1];
      MultiLogConcat(a, b[..|b| - 1]);
    }
  }

  lemma {:induction false} MultiLogNone(ws: seq<Wake>)
    requires forall k | 0 <= k < |ws| :: |ws[k].entry.sops| == 1
    ensures MultiLog(ws) == []
  {
    if ws != [] {
      MultiLogNone(ws[..|ws| - 1]);
    }
  }

  lemma ZeroedMulti(st: State, n: nat)
    requires Good(st) && n < |st.store.vals|
    ensures MultiLog(ZeroedAt(st, n).woken) == MultiLog(st.woken)
  {
    assert SemConstOk(|st.store.vals|, st.store.undos.Keys, n, st.semConst[n]);
    MultiLogNone(Succeeded(st.semConst[n]));
    MultiLogConcat(st.woken, Succeeded(st.semConst[n]));
  }

  lemma {:induction false} WakeZeroSemsMulti(st: State, nums: seq<nat>)
    requires Good(st) && Within(nums, |st.store.vals|)
    ensures MultiLog(WakeZeroSems(st, nums).woken) == MultiLog(st.woken)
  {
    if nums != [] {
      var init, n := nums[..|nums| - 1], nums[|nums| - 1];
      WakeZeroSemsMulti(st, init);
      if st.store.vals[n] == 0 {
        WakeSemIs(WakeZeroSems(st, init), n);
        ZeroedMulti(WakeZeroSems(st, init), n);
      }
    }
  }

  /** The same set in every respect, except that calls on different semaphores may
      have been woken in a different order. */
  ghost predicate SameOutcome(a: State, b: State) {
    && a == b.(woken := a.woken)
    && (forall i | 0 <= i < |a.store.vals| :: LogAt(a.woken, i) == LogAt(b.woken, i))
    && MultiLog(a.woken) == MultiLog(b.woken)
  }

  lemma SameOutcomeAppend(a: State, b: State, r: State, x: seq<Wake>)
    requires SameOutcome(a, b) && |r.store.vals| == |a.store.vals|
    ensures SameOutcome(r.(woken := a.woken + x), r.(woken := b.woken + x))
  {
    MultiLogConcat(a.woken, x);
    MultiLogConcat(b.woken, x);
    forall i | 0 <= i < |a.store.vals|
      ensures LogAt(a.woken + x, i) == LogAt(b.woken + x, i)
    {
      LogAtConcat(a.woken, x, i);
      LogAtConcat(b.woken, x, i);
    }
  }

  lemma SameAtOutcome(a: State, b: State)
    requires SameShape(a, b) && a.alter == b.alter && a.consts == b.consts && a.complex == b.complex
    requires forall i | 0 <= i < |a.store.vals| :: SameAt(a, b, i)
    requires MultiLog(a.woken) == MultiLog(b.woken)
    ensures SameOutcome(a, b)
  {
    forall i | 0 <= i < |a.store.vals|
      ensures a.store.vals[i] == b.store.vals[i] && a.semAlter[i] == b.semAlter[i] && a.semConst[i] == b.semConst[i]
      ensures LogAt(a.woken, i) == LogAt(b.woken, i)
      ensures forall u | u in a.store.undos :: a.store.undos[u][i] == b.store.undos[u][i]
    {
      assert SameAt(a, b, i);
    }
    assert a.store.vals == b.store.vals && a.semAlter == b.semAlter && a.semConst == b.semConst;
    forall u | u in a.store.undos
      ensures a.store.undos[u] == b.store.undos[u]
    {
      forall i | 0 <= i < |a.store.vals|
        ensures a.store.undos[u][i] == b.store.undos[u][i]
      {
        assert SameAt(a, b, i);
      }
    }
    assert a.store.undos == b.store.undos;
  }

  /** Looking at all semaphores for zeros, or only at the changed ones, wakes the
      same single waiters. */
  lemma ZeroSemsAgree(w: State, sops: seq<Sembuf>)
    requires JustChanged(w, sops)
    ensures SameOutcome(WakeZeroSems(w, Nums(sops)), WakeZeroSems(w, AllNums(|w.store.vals|)))
  {
    var nums, all := Nums(sops), AllNums(|w.store.vals|);
    var a, b := WakeZeroSems(w, nums), WakeZeroSems(w, all);
    WakeZeroSemsMulti(w, nums);
    WakeZeroSemsMulti(w, all);
    WakeZeroSemsShape(w, nums);
    WakeZeroSemsShape(w, all);
    forall i | 0 <= i < |w.store.vals|
      ensures SameAt(a, b, i)
    {
      ZeroSemsAgreeAt(w, sops, i);
    }
    SameAtOutcome(a, b);
  }

  lemma WakeZeroSemsShape(w: State, nums: seq<nat>)
    requires Good(w) && Within(nums, |w.store.vals|)
    ensures SameShape(w, WakeZeroSems(w, nums))
  {
    GoodBounded(w);
    GoodBounded(WakeZeroSems(w, nums));
  }

  lemma ZeroSemsAgreeAt(w: State, sops: seq<Sembuf>, i: nat)
    requires JustChanged(w, sops) && i < |w.store.vals|
    ensures SameAt(WakeZeroSems(w, Nums(sops)), WakeZeroSems(w, AllNums(|w.store.vals|)), i)
  {
    hide Good, WakeZeroSems, ZeroedAt, LogAt, JustChanged, SameAt;
    ChangedCovers(w, sops, i);
    var nums, all := Nums(sops), AllNums(|w.store.vals|);
    WakeZeroSemsAt(w, nums, i);
    WakeZeroSemsAt(w, all, i);
    assert all[i] == i;
    ZeroedNone(w, i);
    var z := ZeroedAt(w, i);
    SameAtSym(WakeZeroSems(w, all), z, i);
    SameAtTrans(WakeZeroSems(w, nums), z, WakeZeroSems(w, all), i);
  }

  lemma ChangedCovers(w: State, sops: seq<Sembuf>, i: nat)
    requires JustChanged(w, sops) && i < |w.store.vals|
    ensures Good(w) && Within(Nums(sops), |w.store.vals|) && |w.semConst| == |w.store.vals|
    ensures i !in Nums(sops) && w.store.vals[i] == 0 ==> w.semConst[i] == []
  {
  }

  lemma ZeroedNone(w: State, i: nat)
    requires i < |w.store.vals| && i < |w.semConst|
    ensures (w.store.vals[i] == 0 ==> w.semConst[i] == []) ==> ZeroedAt(w, i) == w
  {
    assert w.semConst[i] == [] ==> w.woken + Succeeded(w.semConst[i]) == w.woken;
  }

  // ---------- The complex wait-for-zero calls ----------

  /** Outside the guard in which the two forms differ. Inside, no changed semaphore is zero,
      some other one is, and a queued complex wait-for-zero call would not sleep. */
  ghost predicate ZeroPassAgrees(w: State, sops: seq<Sembuf>)
    requires Good(w) && SopsFit(|w.store.vals|, Some(sops))
  {
    || AnyZero(w.store, Nums(sops))
    || !AnyZero(w.store, AllNums(|w.store.vals|))
    || forall c | c in w.consts :: Verdict(w.store)(c) > 0
  }

  lemma SleepingAll(f: Entry -> int, es: seq<Entry>)
    ensures Sleeping(f, es) == es <==> forall e | e in es :: f(e) > 0
    ensures Sleeping(f, es) == es ==> Finished(f, es) == []
  {
    hide Sleeping, Finished;
    if forall e | e in es :: f(e) > 0 {
      AllSleep(f, es);
    }
  }

  lemma {:induction false} AllSleep(f: Entry -> int, es: seq<Entry>)
    requires forall e | e in es :: f(e) > 0
    ensures Sleeping(f, es) == es && Finished(f, es) == []
  {
    hide Sleeping, Finished;
    LastScanned(f, es);
    if es != [] {
      var init, e := es[..|es| - 1], es[|es| - 1];
      assert es == init + [e];
      AllSleep(f, init);
    }
  }

  lemma AnyZeroAll(s: Store, nums: seq<nat>)
    requires Within(nums, |s.vals|) && AnyZero(s, nums)
    ensures AnyZero(s, AllNums(|s.vals|))
  {
    var k :| 0 <= k < |nums| && s.vals[nums[k]] == 0;
    assert AllNums(|s.vals|)[nums[k]] == nums[k];
  }

  lemma WakeGlobalIs(s: State, st: State)
    requires Good(s) && s.store == st.store && s.consts == st.consts
    ensures WakeConst(s, Global) ==
            WithConst(s, Global, Sleeping(Verdict(st.store), st.consts), s.woken + Finished(Verdict(st.store), st.consts))
    ensures WithConst(s, Global, s.consts, s.woken) == s
  {
  }

  /** The zero passes of the two forms leave the same complex wait-for-zero calls
      queued exactly when that guard is false. */
  lemma ZeroPassIff(w: State, sops: seq<Sembuf>)
    requires JustChanged(w, sops)
    ensures WakeZero(w, Nums(sops)).consts == WakeZero(w, AllNums(|w.store.vals|)).consts <==> ZeroPassAgrees(w, sops)
    ensures ZeroPassAgrees(w, sops) ==> SameOutcome(WakeZero(w, Nums(sops)), WakeZero(w, AllNums(|w.store.vals|)))
  {
    var nums, all := Nums(sops), AllNums(|w.store.vals|);
    ZeroSemsAgree(w, sops);
    if AnyZero(w.store, nums) {
      AnyZeroAll(w.store, nums);
      GlobalPassSame(WakeZeroSems(w, nums), WakeZeroSems(w, all));
    } else if AnyZero(w.store, all) {
      GlobalPassIdle(WakeZeroSems(w, all));
    }
  }

  lemma GlobalPassSame(a: State, b: State)
    requires Good(a) && Good(b) && SameOutcome(a, b)
    ensures SameOutcome(WakeConst(a, Global), WakeConst(b, Global))
  {
    hide Good, WakeConst, LogAt, MultiLog;
    WakeGlobalIs(a, b);
    WakeGlobalIs(b, b);
    var f, es := Verdict(b.store), b.consts;
    SameOutcomeAppend(a, b, WithConst(b, Global, Sleeping(f, es), b.woken), Finished(f, es));
  }

  /** Looking at the global wait-for-zero queue changes nothing exactly when all must sleep. */
  lemma GlobalPassIdle(b: State)
    requires Good(b)
    ensures WakeConst(b, Global).consts == b.consts <==> forall c | c in b.consts :: Verdict(b.store)(c) > 0
    ensures WakeConst(b, Global).consts == b.consts ==> WakeConst(b, Global) == b
  {
    SleepingAll(Verdict(b.store), b.consts);
    WakeGlobalIs(b, b);
    assert b.woken + [] == b.woken;
  }

  // ---------- The scans do not look at who was woken before ----------

  /** From a and b, which differ in the log alone, the same happened: x was woken. */
  ghost predicate Alike(a: State, a': State, b: State, b': State, x: seq<Wake>) {
    && a == b.(woken := a.woken)
    && a'.woken == a.woken + x
    && b' == a'.(woken := b.woken + x)
  }

  lemma AlikeStart(a: State, b: State)
    requires a == b.(woken := a.woken)
    ensures Alike(a, a, b, b, [])
  {
    assert a.woken + [] == a.woken && b.woken + [] == b.woken;
  }

  lemma AlikeTrans(a: State, a': State, a'': State, b: State, b': State, b'': State, x: seq<Wake>, y: seq<Wake>)
    requires Alike(a, a', b, b', x) && Alike(a', a'', b', b'', y)
    ensures Alike(a, a'', b, b'', x + y)
  {
    assert a.woken + x + y == a.woken + (x + y) && b.woken + x + y == b.woken + (x + y);
  }

  lemma WakeConstLog(a: State, b: State, loc: Loc) returns (x: seq<Wake>)
    requires Good(a) && Good(b) && a == b.(woken := a.woken) && HasLoc(a, loc)
    ensures Alike(a, WakeConst(a, loc), b, WakeConst(b, loc), x)
  {
    x := Finished(Verdict(a.store), ConstList(a, loc));
  }

  lemma {:induction false} WakeZeroSemsLog(a: State, b: State, nums: seq<nat>) returns (x: seq<Wake>)
    requires Good(a) && Good(b) && a == b.(woken := a.woken) && Within(nums, |a.store.vals|)
    ensures Alike(a, WakeZeroSems(a, nums), b, WakeZeroSems(b, nums), x)
  {
    hide Good, WakeConst;
    GoodBounded(a);
    if nums == [] {
      x := [];
      AlikeStart(a, b);
    } else {
      var init, n := nums[..|nums| - 1], nums[|nums| - 1];
      x := WakeZeroSemsLog(a, b, init);
      if a.store.vals[n] == 0 {
        GoodBounded(WakeZeroSems(a, init));
        var y := WakeConstLog(WakeZeroSems(a, init), WakeZeroSems(b, init), Sem(n));
        AlikeTrans(a, WakeZeroSems(a, init), WakeZeroSems(a, nums), b, WakeZeroSems(b, init), WakeZeroSems(b, nums), x, y);
        x := x + y;
      }
    }
  }

  lemma WakeZeroLog(a: State, b: State, nums: seq<nat>) returns (x: seq<Wake>)
    requires Good(a) && Good(b) && a == b.(woken := a.woken) && Within(nums, |a.store.vals|)
    ensures Alike(a, WakeZero(a, nums), b, WakeZero(b, nums), x)
  {
    hide Good, WakeConst, WakeZeroSems;
    x := WakeZeroSemsLog(a, b, nums);
    if AnyZero(a.store, nums) {
      var y := WakeConstLog(WakeZeroSems(a, nums), WakeZeroSems(b, nums), Global);
      AlikeTrans(a, WakeZeroSems(a, nums), WakeZero(a, nums), b, WakeZeroSems(b, nums), WakeZero(b, nums), x, y);
      x := x + y;
    }
  }

  lemma UnlinkAlike(a: State, b: State, loc: Loc, k: nat, s: Store)
    requires a == b.(woken := a.woken) && HasLoc(a, loc) && k < |AlterList(a, loc)|
    ensures var u, v := Unlink(a, loc, k).(store := s), Unlink(b, loc, k).(store := s);
            u == v.(woken := u.woken) && u.woken == a.woken && v.woken == b.woken
  {
  }

  lemma QueuedFits(st: State, loc: Loc, k: nat)
    requires Good(st) && HasLoc(st, loc) && k < |AlterList(st, loc)|
    ensures CanEval(st.store, AlterList(st, loc)[k])
    ensures SopsFit(|st.store.vals|, Some(AlterList(st, loc)[k].sops))
  {
    AlterCanEval(st, loc);
    assert AlterList(st, loc)[k] in AlterList(st, loc);
  }

  lemma CompleteLog(a: State, b: State, loc: Loc, k: nat) returns (x: seq<Wake>)
    requires Good(a) && Good(b) && a == b.(woken := a.woken) && HasLoc(a, loc) && k < |AlterList(a, loc)|
    ensures Alike(a, Complete(a, loc, k), b, Complete(b, loc, k), x)
  {
    hide Good, Complete, WakeZero, Status, Next, CanEval, Unlink, EntryFits, Bounded;
    var e := AlterList(a, loc)[k];
    QueuedFits(a, loc, k);
    CompleteIs(a, loc, k);
    CompleteIs(b, loc, k);
    UnlinkAlike(a, b, loc, k, Next(a.store, e));
    var u, v := Unlink(a, loc, k).(store := Next(a.store, e)), Unlink(b, loc, k).(store := Next(b.store, e));
    var status := Status(a.store, e);
    var w := [Wake(e, status)];
    if status == 0 {
      var y := WakeZeroLog(u, v, Nums(e.sops));
      x := y + w;
      assert a.woken + y + w == a.woken + x && b.woken + y + w == b.woken + x;
    } else {
      x := w;
    }
  }

  lemma {:induction false} DrainLog(a: State, b: State, loc: Loc) returns (x: seq<Wake>)
    requires Good(a) && Good(b) && a == b.(woken := a.woken) && HasLoc(a, loc)
    ensures Alike(a, Drain(a, loc), b, Drain(b, loc), x)
    decreases |AlterList(a, loc)|
  {
    hide Drain, Complete, Good;
    DrainUnfold(a, loc);
    DrainUnfold(b, loc);
    var k := FirstReady(Verdict(a.store), AlterList(a, loc));
    if k < |AlterList(a, loc)| {
      var c, d := Complete(a, loc, k), Complete(b, loc, k);
      x := CompleteLog(a, b, loc, k);
      CompleteGood(a, loc, k);
      CompleteGood(b, loc, k);
      var y := DrainLog(c, d, loc);
      AlikeTrans(a, c, Drain(c, loc), b, d, Drain(d, loc), x, y);
      x := x + y;
    } else {
      x := [];
      AlikeStart(a, b);
    }
  }

  lemma DrainSameOutcome(a: State, b: State)
    requires Good(a) && Good(b) && SameOutcome(a, b)
    ensures SameOutcome(Drain(a, Global), Drain(b, Global))
  {
    var x := DrainLog(a, b, Global);
    SameOutcomeAppend(a, b, Drain(a, Global), x);
  }

  // ---------- Scanning more semaphores than necessary ----------

  lemma DrainIdle(s: State, loc: Loc)
    requires Good(s) && HasLoc(s, loc) && forall e | e in AlterList(s, loc) :: Verdict(s.store)(e) > 0
    ensures Drain(s, loc) == s
  {
    assert FirstReady(Verdict(s.store), AlterList(s, loc)) == |AlterList(s, loc)|;
  }

  lemma DrainTwice(s: State, loc: Loc)
    requires Good(s) && HasLoc(s, loc)
    ensures Drain(Drain(s, loc), loc) == Drain(s, loc)
  {
    DrainIdle(Drain(s, loc), loc);
  }

  lemma QuietIdle(s: State, i: nat)
    requires Good(s) && i < |s.store.vals| && SemQuiet(s, i)
    ensures Drain(s, Sem(i)) == s
  {
    AlterCanEval(s, Sem(i));
    assert SemAlterOk(|s.store.vals|, s.store.undos.Keys, i, s.semAlter[i]);
    forall e | e in s.semAlter[i]
      ensures Verdict(s.store)(e) > 0
    {
      SimpleAlterReady(s.store, i, e);
    }
    DrainIdle(s, Sem(i));
  }

  lemma {:induction false} DrainSemsAt(s: State, nums: seq<nat>, i: nat)
    requires SimpleMode(s) && Within(nums, |s.store.vals|) && i < |s.store.vals|
    ensures SimpleMode(DrainSems(s, nums))
    ensures SameAt(DrainSems(s, nums), if i in nums then Drain(s, Sem(i)) else s, i)
  {
    hide Good, SimpleMode, Drain, SameAt;
    SameAtRefl(s, i);
    if nums != [] {
      var init, n := nums[..|nums| - 1], nums[|nums| - 1];
      assert nums == init + [n];
      DrainSemsAt(s, init, i);
      DrainOneMore(s, DrainSems(s, init), i in init, n, i);
    }
  }

  lemma SameAtRefl(s: State, i: nat)
    requires SimpleMode(s) && i < |s.store.vals|
    ensures SameAt(s, s, i) && Good(s) && HasLoc(s, Sem(i))
  {
  }

  lemma DrainOneMore(s: State, d: State, seen: bool, n: nat, i: nat)
    requires SimpleMode(s) && SimpleMode(d) && i < |s.store.vals| && n < |s.store.vals| == |d.store.vals|
    requires SameAt(d, if seen then Drain(s, Sem(i)) else s, i)
    ensures SimpleMode(Drain(d, Sem(n)))
    ensures SameAt(Drain(d, Sem(n)), if seen || n == i then Drain(s, Sem(i)) else s, i)
  {
    hide Good, SimpleMode, Drain, LogAt;
    SameAtRefl(d, n);
    SameAtRefl(s, i);
    DrainDepends(d, d, n);
    DrainDepends(s, s, i);
    if n == i {
      DrainDepends(d, if seen then Drain(s, Sem(i)) else s, i);
      DrainTwice(s, Sem(i));
    } else {
      DrainOther(d, n, i);
      SameAtSym(d, Drain(d, Sem(n)), i);
      SameAtTrans(Drain(d, Sem(n)), d, if seen then Drain(s, Sem(i)) else s, i);
    }
  }

  lemma {:induction false} DrainMulti(s: State, i: nat)
    requires SimpleMode(s) && i < |s.store.vals|
    ensures MultiLog(Drain(s, Sem(i)).woken) == MultiLog(s.woken)
    decreases |s.semAlter[i]|
  {
    hide Drain, Complete, Good, Status, Next;
    SameAtRefl(s, i);
    DrainUnfold(s, Sem(i));
    var k := FirstReady(Verdict(s.store), s.semAlter[i]);
    if k < |s.semAlter[i]| {
      CompleteSimple(s, i, k);
      CompleteGood(s, Sem(i), k);
      CompleteMulti(s, i, k);
      DrainMulti(Complete(s, Sem(i), k), i);
    }
  }

  lemma CompleteMulti(s: State, i: nat, k: nat)
    requires SimpleMode(s) && i < |s.store.vals| && k < |s.semAlter[i]|
    ensures MultiLog(Complete(s, Sem(i), k).woken) == MultiLog(s.woken)
  {
    CompleteSimple(s, i, k);
    QueuedAt(s, i, k);
    var e := s.semAlter[i][k];
    var u := Unlinked(s, i, k).(store := Next(s.store, e));
    ZeroedMulti(u, i);
    hide Good, SimpleMode, Complete, Status, CanEval, ZeroedAt;
    var z := if Status(s.store, e) == 0 then ZeroedAt(u, i) else u;
    MultiLogConcat(z.woken, [Wake(e, Status(s.store, e))]);
  }

  lemma {:induction false} DrainSemsMulti(s: State, nums: seq<nat>)
    requires SimpleMode(s) && Within(nums, |s.store.vals|)
    ensures SimpleMode(DrainSems(s, nums)) && MultiLog(DrainSems(s, nums).woken) == MultiLog(s.woken)
  {
    hide Good, Drain;
    if nums == [] {
      DrainSemsNone(s);
    } else {
      var init, n := nums[..|nums| - 1], nums[|nums| - 1];
      DrainSemsMulti(s, init);
      var d := DrainSems(s, init);
      DrainMulti(d, n);
      SameAtRefl(d, n);
      DrainDepends(d, d, n);
    }
  }

  /** Draining the raised semaphores only, or all of them, comes to the same. */
  lemma DrainSemsAgree(a: State, b: State, sops: seq<Sembuf>)
    requires SimpleMode(a) && SimpleMode(b) && SameOutcome(a, b) && SopsFit(|b.store.vals|, Some(sops))
    requires forall i | 0 <= i < |b.store.vals| && i !in Raised(sops) :: SemQuiet(b, i)
    ensures SameOutcome(DrainSems(a, Raised(sops)), DrainSems(b, AllNums(|b.store.vals|)))
  {
    var nums, all := Raised(sops), AllNums(|b.store.vals|);
    assert RaisedNums(|b.store.vals|, Some(sops)) == nums;
    var x, y := DrainSems(a, nums), DrainSems(b, all);
    DrainSemsMulti(a, nums);
    DrainSemsMulti(b, all);
    SimpleShape(x, y);
    forall i | 0 <= i < |b.store.vals|
      ensures SameAt(x, y, i)
    {
      DrainSemsAgreeAt(a, b, sops, i);
    }
    SameAtOutcome(x, y);
  }

  lemma SimpleShape(a: State, b: State)
    requires SimpleMode(a) && SimpleMode(b) && |a.store.vals| == |b.store.vals| && a.store.undos.Keys == b.store.undos.Keys
    ensures SameShape(a, b) && a.alter == b.alter && a.consts == b.consts && a.complex == b.complex
  {
  }

  lemma DrainSemsAgreeAt(a: State, b: State, sops: seq<Sembuf>, i: nat)
    requires SimpleMode(a) && SimpleMode(b) && SameOutcome(a, b) && SopsFit(|b.store.vals|, Some(sops))
    requires i < |b.store.vals| && (i !in Raised(sops) ==> SemQuiet(b, i))
    ensures SameAt(DrainSems(a, Raised(sops)), DrainSems(b, AllNums(|b.store.vals|)), i)
  {
    var nums, all := Raised(sops), AllNums(|b.store.vals|);
    assert RaisedNums(|b.store.vals|, Some(sops)) == nums;
    assert SameAt(a, b, i) by {
      SimpleShape(a, b);
    }
    if i !in nums {
      QuietIdle(b, i);
    }
    hide Good, SimpleMode, Drain, DrainSems, SameAt, SameOutcome, SemQuiet;
    DrainSemsAt(a, nums, i);
    DrainSemsAt(b, all, i);
    assert all[i] == i;
    DrainDepends(a, b, i);
    var x, y, d := DrainSems(a, nums), DrainSems(b, all), Drain(b, Sem(i));
    SameAtTrans(x, if i in nums then Drain(a, Sem(i)) else a, d, i);
    SameAtSym(y, d, i);
    SameAtTrans(x, d, y, i);
  }

  lemma {:induction false} DrainSemsIdle(s: State, nums: seq<nat>)
    requires Good(s) && NoSemAlter(s) && Within(nums, |s.store.vals|)
    ensures DrainSems(s, nums) == s
  {
    if nums != [] {
      DrainSemsIdle(s, nums[..|nums| - 1]);
      DrainIdle(s, Sem(nums[|nums| - 1]));
    }
  }

  // ---------- The two forms of do_smart_update ----------

  lemma SameConsts(w: State, sops: seq<Sembuf>)
    requires JustChanged(w, sops)
    ensures var a, b := WakeZero(w, Nums(sops)), WakeZero(w, AllNums(|w.store.vals|));
            && Good(a) && Good(b) && a.store == b.store == w.store
            && a.alter == b.alter == w.alter && a.semAlter == b.semAlter == w.semAlter
            && (w.consts == [] ==> a.consts == [] && b.consts == [])
            && (w.consts != [] ==> NoSemAlter(a) && NoSemAlter(b))
            && forall i | 0 <= i < |w.store.vals| && i !in Raised(sops) :: SemQuiet(b, i)
  {
    if w.consts == [] {
      WakeZeroNone(w, Nums(sops));
      WakeZeroNone(w, AllNums(|w.store.vals|));
    }
    forall i | 0 <= i < |w.store.vals| && i !in Raised(sops)
      ensures SemQuiet(WakeZero(w, AllNums(|w.store.vals|)), i)
    {
      assert SemQuiet(w, i);
    }
  }

  /** Outside that guard, do_smart_update(sops) and its exhaustive form leave the
      same values, adjustments and queues, and wake the same calls with the same
      statuses; only calls on different semaphores may swap places in the wake queue. */
  lemma SmartUpdateForms(w: State, sops: seq<Sembuf>)
    requires JustChanged(w, sops) && ZeroPassAgrees(w, sops)
    ensures SameOutcome(SmartUpdate(w, Some(sops)), SmartUpdate(w, None))
  {
    ZeroPassIff(w, sops);
    SameConsts(w, sops);
    SmartUpdateIs(w, Some(sops));
    SmartUpdateIs(w, None);
    var a, b := WakeZero(w, Nums(sops)), WakeZero(w, AllNums(|w.store.vals|));
    hide JustChanged, Good, Drain, WakeZero, DrainSems, ZeroPassAgrees, Raised, SmartUpdate, SameOutcome;
    if w.alter != [] {
      DrainSameOutcome(a, b);
    } else if w.consts == [] {
      DrainSemsAgree(a, b, sops);
    } else {
      DrainSemsIdle(a, Raised(sops));
      DrainSemsIdle(b, AllNums(|w.store.vals|));
    }
  }

  /** While no queued call that changes the set can complete, the guard is exact for the
      whole of do_smart_update. */
  lemma SmartUpdateIff(w: State, sops: seq<Sembuf>)
    requires JustChanged(w, sops) && forall e | e in w.alter :: Verdict(w.store)(e) > 0
    ensures SameOutcome(SmartUpdate(w, Some(sops)), SmartUpdate(w, None)) <==> ZeroPassAgrees(w, sops)
  {
    if ZeroPassAgrees(w, sops) {
      SmartUpdateForms(w, sops);
    } else {
      ZeroPassIff(w, sops);
      SameConsts(w, sops);
      IdleConsts(w, Some(sops));
      IdleConsts(w, None);
    }
  }

  /** The scans for calls that change the set do not touch the complex wait-for-zero calls
      then, as far as there are any. */
  lemma IdleConsts(w: State, sops: Option<seq<Sembuf>>)
    requires Good(w) && SopsFit(|w.store.vals|, sops) && forall e | e in w.alter :: Verdict(w.store)(e) > 0
    requires w.consts != []
    ensures SmartUpdate(w, sops).consts == WakeZero(w, ChangedNums(|w.store.vals|, sops)).consts
  {
    hide Drain, WakeZero, DrainSems, SmartUpdate, Verdict;
    SmartUpdateIs(w, sops);
    var s := WakeZero(w, ChangedNums(|w.store.vals|, sops));
    if s.alter != [] {
      DrainIdle(s, Global);
    } else {
      DrainSemsIdle(s, RaisedNums(|w.store.vals|, sops));
    }
  }

  // ---------- The calls that change the set, with or without the guard ----------

  /** The woken calls that change the set. */
  ghost function ChangeLog(ws: seq<Wake>): seq<Wake> {
    if ws == [] then []
    else ChangeLog(ws[..|ws| - 1]) + (if AllZeroOps(ws[|ws| - 1].entry.sops) then [] else [ws[|ws| - 1]])
  }

  lemma {:induction false} ChangeLogConcat(a: seq<Wake>, b: seq<Wake>)
    ensures ChangeLog(a + b) == ChangeLog(a) + ChangeLog(b)
  {
    if b == [] {
      assert a + b == a;
    } else {
      assert (a + b)[..|a + b| - 1] == a + b[..|b| - 1];
      ChangeLogConcat(a, b[..|b| - 1]);
    }
  }

  lemma {:induction false} FinishedUnchanging(f: Entry -> int, es: seq<Entry>)
    requires forall e | e in es :: AllZeroOps(e.sops)
    ensures ChangeLog(Finished(f, es)) == []
  {
    if es != [] {
      var init, e := es[..|es| - 1], es[|es| - 1];
      assert e in es;
      FinishedUnchanging(f, init);
      ChangeLogConcat(Finished(f, init), if f(e) > 0 then [] else [Wake(e, f(e))]);
    }
  }

  /** The part of a set that concerns calls that change it. */
  ghost predicate SameChanges(a: State, b: State) {
    && a.store == b.store && a.alter == b.alter && a.semAlter == b.semAlter
    && ChangeLog(a.woken) == ChangeLog(b.woken)
  }

  lemma WakeConstChanges(st: State, loc: Loc)
    requires Good(st) && HasLoc(st, loc)
    ensures SameChanges(WakeConst(st, loc), st)
  {
    ConstCanEval(st, loc);
    FinishedUnchanging(Verdict(st.store), ConstList(st, loc));
    ChangeLogConcat(st.woken, Finished(Verdict(st.store), ConstList(st, loc)));
  }

  lemma {:induction false} WakeZeroSemsChanges(st: State, nums: seq<nat>)
    requires Good(st) && Within(nums, |st.store.vals|)
    ensures SameChanges(WakeZeroSems(st, nums), st)
  {
    if nums != [] {
      WakeZeroSemsChanges(st, nums[..|nums| - 1]);
      if st.store.vals[nums[|nums| - 1]] == 0 {
        WakeConstChanges(WakeZeroSems(st, nums[..|nums| - 1]), Sem(nums[|nums| - 1]));
      }
    }
  }

  lemma WakeZeroChanges(st: State, nums: seq<nat>)
    requires Good(st) && Within(nums, |st.store.vals|)
    ensures SameChanges(WakeZero(st, nums), st)
  {
    WakeZeroSemsChanges(st, nums);
    if AnyZero(st.store, nums) {
      WakeConstChanges(WakeZeroSems(st, nums), Global);
    }
  }

  lemma CompleteChanges(a: State, b: State, k: nat)
    requires Good(a) && Good(b) && SameChanges(a, b) && k < |a.alter|
    ensures SameChanges(Complete(a, Global, k), Complete(b, Global, k))
  {
    hide Good, WakeZero, Next, Status, CanEval, ChangeLog, Complete;
    CompleteChangesOne(a, k);
    CompleteChangesOne(b, k);
  }

  lemma CompleteChangesOne(a: State, k: nat)
    requires Good(a) && k < |a.alter|
    ensures CanEval(a.store, a.alter[k])
    ensures var r, e := Complete(a, Global, k), a.alter[k];
            && r.store == Next(a.store, e) && r.alter == RemoveAt(a.alter, k) && r.semAlter == a.semAlter
            && ChangeLog(r.woken) == ChangeLog(a.woken) + ChangeLog([Wake(e, Status(a.store, e))])
  {
    hide Next, Status, WakeZero, Complete;
    var e := a.alter[k];
    QueuedFits(a, Global, k);
    CompleteIs(a, Global, k);
    CompleteAlter(a, k);
    var u := Unlink(a, Global, k).(store := Next(a.store, e));
    if Status(a.store, e) == 0 {
      WakeZeroChanges(u, Nums(e.sops));
      ChangeLogConcat(WakeZero(u, Nums(e.sops)).woken, [Wake(e, 0)]);
    } else {
      ChangeLogConcat(u.woken, [Wake(e, Status(a.store, e))]);
    }
  }

  lemma CompleteAlter(a: State, k: nat)
    requires Good(a) && k < |a.alter|
    ensures var r := Complete(a, Global, k);
            CanEval(a.store, a.alter[k]) && r.store == Next(a.store, a.alter[k])
            && r.alter == RemoveAt(a.alter, k) && r.semAlter == a.semAlter
  {
  }

  lemma {:induction false} DrainChanges(a: State, b: State)
    requires Good(a) && Good(b) && SameChanges(a, b)
    ensures SameChanges(Drain(a, Global), Drain(b, Global))
    decreases |a.alter|
  {
    hide Drain, Complete, Good, ChangeLog;
    DrainUnfold(a, Global);
    DrainUnfold(b, Global);
    var k := FirstReady(Verdict(a.store), a.alter);
    if k < |a.alter| {
      CompleteChanges(a, b, k);
      CompleteGood(a, Global, k);
      CompleteGood(b, Global, k);
      DrainChanges(Complete(a, Global, k), Complete(b, Global, k));
    }
  }

  /** Even inside the guard the two forms agree on everything that changes the set:
      the values and adjustments, the calls still queued to change it, and, while
      complex calls are around, the order and statuses of those that completed. */
  lemma SmartUpdateChanges(w: State, sops: seq<Sembuf>)
    requires JustChanged(w, sops)
    ensures var a, b := SmartUpdate(w, Some(sops)), SmartUpdate(w, None);
            && a.store == b.store && a.alter == b.alter && a.semAlter == b.semAlter
            && (w.alter != [] || w.consts != [] ==> ChangeLog(a.woken) == ChangeLog(b.woken))
  {
    SameConsts(w, sops);
    SmartUpdateIs(w, Some(sops));
    SmartUpdateIs(w, None);
    WakeZeroChanges(w, Nums(sops));
    WakeZeroChanges(w, AllNums(|w.store.vals|));
    if w.consts == [] {
      SmartUpdateForms(w, sops);
    }
    var a, b := WakeZero(w, Nums(sops)), WakeZero(w, AllNums(|w.store.vals|));
    hide JustChanged, Good, Drain, WakeZero, DrainSems, Raised, SmartUpdate, LogAt, MultiLog, ChangeLog;
    if w.alter != [] {
      DrainChanges(a, b);
    } else if w.consts != [] {
      DrainSemsIdle(a, Raised(sops));
      DrainSemsIdle(b, AllNums(|w.store.vals|));
    }
  }
}
