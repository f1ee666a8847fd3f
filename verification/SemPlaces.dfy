/**
 Every queued call is in one place: in one queue, or woken with one status. No
 section loses, duplicates or wakes a call twice.
 */
module SemPlaces {
  import opened Options
  import opened SemOps
  import opened SemEval
  import opened SemSet
  import opened SemWakeup
  import opened SemCalls
  import opened SemRuns

  const EINTR: int := 4

  function In(es: seq<Entry>, c: Entry): nat {
    multiset(es)[c]
  }

  /** How often a call is in the queues of the first k semaphores */
  function InQueues(qs: seq<seq<Entry>>, k: nat, c: Entry): nat
    requires k <= |qs|
  {
    if k == 0 then 0 else InQueues(qs, k - 1, c) + In(qs[k - 1], c)
  }

  /** How often it was woken */
  function Told(ws: seq<Wake>, c: Entry): nat {
    if ws == [] then 0 else Told(ws[..|ws| - 1], c) + if ws[|ws| - 1].entry == c then 1 else 0
  }

  ghost function Held(st: State, c: Entry): nat {
    In(st.alter, c) + In(st.consts, c) + InQueues(st.semAlter, |st.semAlter|, c) + InQueues(st.semConst, |st.semConst|, c)
  }

  ghost function Places(st: State, c: Entry): nat {
    Held(st, c) + Told(st.woken, c)
  }

  /** A status that a sleeper does not take for its own */
  predicate Final(status: int) {
    status <= 0 && status != -EINTR
  }

  predicate AllFinal(ws: seq<Wake>) {
    forall k | 0 <= k < |ws| :: Final(ws[k].status)
  }

  ghost predicate Grown(ws: seq<Wake>, ws': seq<Wake>) {
    |ws| <= |ws'| && ws'[..|ws|] == ws && AllFinal(ws'[|ws|..])
  }

  /** From st to r calls only moved from queues to the log of the woken, with a status. */
  ghost predicate Moved(st: State, r: State) {
    (forall c :: Places(r, c) == Places(st, c)) && Grown(st.woken, r.woken)
  }

  // ---------- Counting ----------

  lemma InConcat(a: seq<Entry>, b: seq<Entry>, c: Entry)
    ensures In(a + b, c) == In(a, c) + In(b, c)
  {
  }

  lemma InWithout(es: seq<Entry>, k: nat, c: Entry)
    requires k < |es|
    ensures In(es, c) == In(RemoveAt(es, k), c) + if es[k] == c then 1 else 0
  {
    assert es == es[..k] + [es[k]] + es[k + 1..];
  }

  lemma {:induction false} InQueuesSame(qs: seq<seq<Entry>>, qs': seq<seq<Entry>>, k: nat, c: Entry)
    requires k <= |qs| == |qs'| && forall j | 0 <= j < k :: qs'[j] == qs[j]
    ensures InQueues(qs', k, c) == InQueues(qs, k, c)
  {
    if k > 0 {
      InQueuesSame(qs, qs', k - 1, c);
    }
  }

  lemma {:induction false} InQueuesUpdate(qs: seq<seq<Entry>>, i: nat, es: seq<Entry>, k: nat, c: Entry)
    requires i < k <= |qs|
    ensures InQueues(qs[i := es], k, c) == InQueues(qs, k, c) - In(qs[i], c) + In(es, c)
  {
    hide In;
    if i == k - 1 {
      InQueuesSame(qs, qs[i := es], k - 1, c);
    } else {
      InQueuesUpdate(qs, i, es, k - 1, c);
    }
  }

  lemma {:induction false} InQueuesNone(qs: seq<seq<Entry>>, k: nat, c: Entry)
    requires k <= |qs| && forall j | 0 <= j < k :: qs[j] == []
    ensures InQueues(qs, k, c) == 0
  {
    if k > 0 {
      InQueuesNone(qs, k - 1, c);
    }
  }

  lemma {:induction false} InQueuesAt(qs: seq<seq<Entry>>, k: nat, c: Entry) returns (i: nat)
    requires k <= |qs| && InQueues(qs, k, c) > 0
    ensures i < k && c in qs[i]
  {
    if In(qs[k - 1], c) > 0 {
      i := k - 1;
    } else {
      i := InQueuesAt(qs, k - 1, c);
    }
  }

  lemma ToldAppend(ws: seq<Wake>, w: Wake, c: Entry)
    ensures Told(ws + [w], c) == Told(ws, c) + if w.entry == c then 1 else 0
  {
    assert (ws + [w])[..|ws|] == ws;
  }

  lemma {:induction false} ToldConcat(a: seq<Wake>, b: seq<Wake>, c: Entry)
    ensures Told(a + b, c) == Told(a, c) + Told(b, c)
  {
    if b == [] {
      assert a + b == a;
    } else {
      assert (a + b)[..|a + b| - 1] == a + b[..|b| - 1];
      ToldConcat(a, b[..|b| - 1], c);
    }
  }

  lemma {:induction false} ScanSplits(f: Entry -> int, es: seq<Entry>, c: Entry)
    ensures In(Sleeping(f, es), c) + Told(Finished(f, es), c) == In(es, c)
  {
    hide Sleeping, Finished, In;
    LastScanned(f, es);
    if es == [] {
      NoneIn(c);
    } else {
      var init, e := es[..|es| - 1], es[|es| - 1];
      ScanSplits(f, init, c);
      assert es == init + [e];
      InConcat(init, [e], c);
      InOne(e, c);
      InConcat(Sleeping(f, init), [e], c);
      ToldAppend(Finished(f, init), Wake(e, f(e)), c);
    }
  }

  lemma NoneIn(c: Entry)
    ensures In([], c) == 0
  {
  }

  lemma InOne(e: Entry, c: Entry)
    ensures In([e], c) == if e == c then 1 else 0
  {
  }

  lemma GrownBy(ws: seq<Wake>, x: seq<Wake>)
    requires AllFinal(x)
    ensures Grown(ws, ws + x)
  {
    assert (ws + x)[|ws|..] == x;
  }

  lemma GrownTrans(a: seq<Wake>, b: seq<Wake>, c: seq<Wake>)
    requires Grown(a, b) && Grown(b, c)
    ensures Grown(a, c)
  {
    var x, y := b[|a|..], c[|b|..];
    assert c == a + (x + y);
    GrownBy(a, x + y);
  }

  lemma MovedTrans(a: State, b: State, c: State)
    requires Moved(a, b) && Moved(b, c)
    ensures Moved(a, c)
  {
    hide Places, Grown;
    GrownTrans(a.woken, b.woken, c.woken);
  }

  lemma MovedSelf(st: State, r: State)
    requires r.alter == st.alter && r.consts == st.consts && r.semAlter == st.semAlter && r.semConst == st.semConst
    requires r.woken == st.woken
    ensures Moved(st, r)
  {
    assert st.woken == st.woken + [];
    GrownBy(st.woken, []);
  }

  // ---------- The scans ----------

  lemma {:induction false} FinishedFinal(f: Entry -> int, es: seq<Entry>)
    requires forall e | e in es :: f(e) <= 0 ==> Final(f(e))
    ensures AllFinal(Finished(f, es))
  {
    if es != [] {
      FinishedFinal(f, es[..|es| - 1]);
    }
  }

  lemma StatusFinal(s: Store, e: Entry)
    requires CanEval(s, e) && Status(s, e) <= 0
    ensures Final(Status(s, e))
  {
  }

  lemma VerdictsFinal(st: State, loc: Loc)
    requires Good(st) && HasLoc(st, loc)
    ensures AllFinal(Finished(Verdict(st.store), ConstList(st, loc)))
  {
    var es := ConstList(st, loc);
    ConstCanEval(st, loc);
    forall e | e in es
      ensures Verdict(st.store)(e) <= 0 ==> Final(Verdict(st.store)(e))
    {
      if Status(st.store, e) <= 0 {
        StatusFinal(st.store, e);
      }
    }
    FinishedFinal(Verdict(st.store), es);
  }

  lemma WithConstHeld(st: State, loc: Loc, left: seq<Entry>, log: seq<Wake>, c: Entry)
    requires Good(st) && HasLoc(st, loc)
    ensures Held(WithConst(st, loc, left, log), c) == Held(st, c) - In(ConstList(st, loc), c) + In(left, c)
  {
    if loc.Sem? {
      InQueuesUpdate(st.semConst, loc.i, left, |st.semConst|, c);
    }
  }

  lemma WakeConstMoved(st: State, loc: Loc)
    requires Good(st) && HasLoc(st, loc)
    ensures Moved(st, WakeConst(st, loc))
  {
    hide Good, Held, Told, In, AllFinal, Finished, Sleeping, WithConst;
    var f, es := Verdict(st.store), ConstList(st, loc);
    VerdictsFinal(st, loc);
    GrownBy(st.woken, Finished(f, es));
    forall c
      ensures Places(WakeConst(st, loc), c) == Places(st, c)
    {
      ScanSplits(f, es, c);
      WithConstHeld(st, loc, Sleeping(f, es), st.woken + Finished(f, es), c);
      ToldConcat(st.woken, Finished(f, es), c);
    }
  }

  lemma {:induction false} WakeZeroSemsMoved(st: State, nums: seq<nat>)
    requires Good(st) && Within(nums, |st.store.vals|)
    ensures Moved(st, WakeZeroSems(st, nums))
  {
    hide Good, Moved, WakeConst;
    if nums == [] {
      MovedSelf(st, st);
    } else {
      var n, s := nums[|nums| - 1], WakeZeroSems(st, nums[..|nums| - 1]);
      WakeZeroSemsMoved(st, nums[..|nums| - 1]);
      if st.store.vals[n] == 0 {
        SemHere(s, n);
        WakeConstMoved(s, Sem(n));
        MovedTrans(st, s, WakeConst(s, Sem(n)));
      }
    }
  }

  lemma SemHere(st: State, i: nat)
    requires Good(st) && i < |st.store.vals|
    ensures HasLoc(st, Sem(i))
  {
  }

  lemma WakeZeroMoved(st: State, nums: seq<nat>)
    requires Good(st) && Within(nums, |st.store.vals|)
    ensures Moved(st, WakeZero(st, nums))
  {
    hide Good, Moved, WakeConst, WakeZeroSems;
    WakeZeroSemsMoved(st, nums);
    WakeConstMoved(WakeZeroSems(st, nums), Global);
    MovedTrans(st, WakeZeroSems(st, nums), WakeConst(WakeZeroSems(st, nums), Global));
  }

  lemma EffectMoved(st: State, e: Entry)
    requires Good(st) && CanEval(st.store, e)
    ensures Moved(st, Effect(st, e))
  {
    hide Good, Moved, CanEval, Eval, WakeZero;
    MovedSelf(st, st);
    NextGood(st, e);
    var w := st.(store := Next(st.store, e));
    SopsHere(st.store, e);
    MovedSelf(st, w);
    WakeZeroMoved(w, Nums(e.sops));
    MovedTrans(st, w, WakeZero(w, Nums(e.sops)));
  }

  lemma SopsHere(s: Store, e: Entry)
    requires CanEval(s, e)
    ensures Within(Nums(e.sops), |Next(s, e).vals|)
  {
  }

  lemma UnlinkHeld(st: State, loc: Loc, k: nat, c: Entry)
    requires Good(st) && HasLoc(st, loc) && k < |AlterList(st, loc)|
    ensures Held(st, c) == Held(Unlink(st, loc, k), c) + if AlterList(st, loc)[k] == c then 1 else 0
  {
    hide In, RemoveAt;
    InWithout(AlterList(st, loc), k, c);
    if loc.Sem? {
      InQueuesUpdate(st.semAlter, loc.i, RemoveAt(AlterList(st, loc), k), |st.semAlter|, c);
    }
  }

  lemma CompleteMoved(st: State, loc: Loc, k: nat)
    requires Good(st) && HasLoc(st, loc) && k < |AlterList(st, loc)| && Verdict(st.store)(AlterList(st, loc)[k]) <= 0
    ensures Moved(st, Complete(st, loc, k))
  {
    hide Good, Effect, CanEval, Status, Next, Told, Held, Unlink;
    var e := AlterList(st, loc)[k];
    UnlinkGood(st, loc, k);
    AlterCanEval(st, loc);
    assert e in AlterList(st, loc);
    var u := Unlink(st, loc, k);
    var v := Effect(u, e);
    EffectMoved(u, e);
    StatusFinal(st.store, e);
    GrownBy(v.woken, [Wake(e, Status(st.store, e))]);
    GrownTrans(u.woken, v.woken, Complete(st, loc, k).woken);
    forall c
      ensures Places(Complete(st, loc, k), c) == Places(st, c)
    {
      UnlinkHeld(st, loc, k, c);
      ToldAppend(v.woken, Wake(e, Status(st.store, e)), c);
      assert Places(v, c) == Places(u, c);
      SameHeld(v, Complete(st, loc, k), c);
    }
  }

  lemma SameHeld(st: State, r: State, c: Entry)
    requires r.alter == st.alter && r.consts == st.consts && r.semAlter == st.semAlter && r.semConst == st.semConst
    ensures Held(r, c) == Held(st, c)
  {
  }

  lemma {:induction false} DrainMoved(st: State, loc: Loc)
    requires Good(st) && HasLoc(st, loc)
    ensures Moved(st, Drain(st, loc))
    decreases |AlterList(st, loc)|
  {
    hide Good, Moved, Complete;
    var es := AlterList(st, loc);
    var k := FirstReady(Verdict(st.store), es);
    if k < |es| {
      CompleteMoved(st, loc, k);
      DrainMoved(Complete(st, loc, k), loc);
      MovedTrans(st, Complete(st, loc, k), Drain(st, loc));
    } else {
      MovedSelf(st, st);
    }
  }

  lemma {:induction false} DrainSemsMoved(st: State, nums: seq<nat>)
    requires Good(st) && Within(nums, |st.store.vals|)
    ensures Moved(st, DrainSems(st, nums))
  {
    hide Good, Moved, Drain;
    if nums == [] {
      MovedSelf(st, st);
    } else {
      var n, s := nums[|nums| - 1], DrainSems(st, nums[..|nums| - 1]);
      DrainSemsMoved(st, nums[..|nums| - 1]);
      SemHere(s, n);
      DrainMoved(s, Sem(n));
      MovedTrans(st, s, Drain(s, Sem(n)));
    }
  }

  lemma SmartUpdateMoved(st: State, sops: Option<seq<Sembuf>>)
    requires Good(st) && SopsFit(|st.store.vals|, sops)
    ensures Moved(st, SmartUpdate(st, sops))
  {
    hide Good, Moved, Drain, DrainSems, WakeZero;
    var s := WakeZero(st, ChangedNums(|st.store.vals|, sops));
    WakeZeroMoved(st, ChangedNums(|st.store.vals|, sops));
    if s.alter != [] {
      DrainMoved(s, Global);
    } else {
      DrainSemsMoved(s, RaisedNums(|st.store.vals|, sops));
    }
    MovedTrans(st, s, SmartUpdate(st, sops));
  }

  // ---------- Merging, unmerging, queueing ----------

  lemma {:induction false} SplicedHolds(qs: seq<seq<Entry>>, k: nat, c: Entry)
    requires k <= |qs|
    ensures In(Spliced(qs, k), c) == InQueues(qs, k, c)
  {
    if k > 0 {
      SplicedHolds(qs, k - 1, c);
      InConcat(qs[k - 1], Spliced(qs, k - 1), c);
    }
  }

  lemma MergeHeld(st: State, c: Entry)
    ensures Held(Merge(st), c) == Held(st, c)
  {
    var n := |st.semAlter|;
    SplicedHolds(st.semAlter, n, c);
    InConcat(Spliced(st.semAlter, n), st.alter, c);
    InQueuesNone(Emptied(st.semAlter, n), n, c);
  }

  lemma {:induction false} DistributeHolds(qs: seq<seq<Entry>>, es: seq<Entry>, c: Entry)
    requires Placeable(|qs|, es)
    ensures InQueues(Distribute(qs, es), |qs|, c) == InQueues(qs, |qs|, c) + In(es, c)
  {
    if es != [] {
      var init, e := es[..|es| - 1], es[|es| - 1];
      var d := Distribute(qs, init);
      DistributeHolds(qs, init, c);
      assert es == init + [e];
      InConcat(init, [e], c);
      InConcat(d[e.sops[0].num], [e], c);
      InQueuesUpdate(d, e.sops[0].num, d[e.sops[0].num] + [e], |qs|, c);
    }
  }

  lemma UnmergeHeld(st: State, c: Entry)
    requires Placeable(|st.semAlter|, st.alter)
    ensures Held(Unmerge(st), c) == Held(st, c)
  {
    DistributeHolds(st.semAlter, st.alter, c);
  }

  lemma AppendedGlobally(st: State, r: State, e: Entry, c: Entry)
    requires r.semAlter == st.semAlter && r.semConst == st.semConst
    requires (r.alter == st.alter + [e] && r.consts == st.consts) || (r.alter == st.alter && r.consts == st.consts + [e])
    ensures Held(r, c) == Held(st, c) + if e == c then 1 else 0
  {
    hide In;
    InOne(e, c);
    InConcat(st.alter, [e], c);
    InConcat(st.consts, [e], c);
  }

  lemma AppendedAt(st: State, r: State, i: nat, e: Entry, c: Entry)
    requires r.alter == st.alter && r.consts == st.consts && i < |st.semAlter| == |st.semConst|
    requires (r.semAlter == st.semAlter[i := st.semAlter[i] + [e]] && r.semConst == st.semConst)
             || (r.semAlter == st.semAlter && r.semConst == st.semConst[i := st.semConst[i] + [e]])
    ensures Held(r, c) == Held(st, c) + if e == c then 1 else 0
  {
    hide In;
    InOne(e, c);
    InConcat(st.semAlter[i], [e], c);
    InConcat(st.semConst[i], [e], c);
    InQueuesUpdate(st.semAlter, i, st.semAlter[i] + [e], |st.semAlter|, c);
    InQueuesUpdate(st.semConst, i, st.semConst[i] + [e], |st.semConst|, c);
  }

  lemma EnqueueHeld(st: State, e: Entry, c: Entry)
    requires Good(st) && CanEval(st.store, e)
    ensures Enqueue(st, e).woken == st.woken
    ensures Held(Enqueue(st, e), c) == Held(st, c) + if e == c then 1 else 0
  {
    hide In, Merge, AllZeroOps, Held, Bounded, Multi, NoSemAlter;
    assert e.sops[0] in e.sops;
    var r := Enqueue(st, e);
    if |e.sops| > 1 {
      MergeKeeps(st);
      MergeHeld(st, c);
      AppendedGlobally(if st.complex == 0 then Merge(st) else st, r, e, c);
    } else if !AllZeroOps(e.sops) && st.complex != 0 {
      AppendedGlobally(st, r, e, c);
    } else {
      AppendedAt(st, r, e.sops[0].num, e, c);
    }
  }

  lemma MergeKeeps(st: State)
    ensures Merge(st).woken == st.woken && Merge(st).consts == st.consts && Merge(st).semConst == st.semConst
    ensures |Merge(st).semAlter| == |st.semAlter|
  {
  }

  // ---------- Sections ----------

  /** The call a section takes off its queue, or nobody */
  ghost function GivenUp(f: Full, a: Action): Option<Entry>
    requires Inv(f) && Enabled(f, a)
  {
    match a
    case Interrupt(loc, alters, k) => Some((if alters then AlterList(f.st, loc) else ConstList(f.st, loc))[k])
    case _ => None
  }

  /** The call it queues, or nobody */
  ghost function Queued(f: Full, a: Action): Option<Entry>
    requires Inv(f) && Enabled(f, a)
  {
    match a
    case Semop(e) => if Status(f.st.store, e) > 0 then Some(e) else None
    case _ => None
  }

  ghost function Change(f: Full, a: Action, c: Entry): int
    requires Inv(f) && Enabled(f, a)
  {
    (if Queued(f, a) == Some(c) then 1 else 0) - (if GivenUp(f, a) == Some(c) then 1 else 0)
  }

  lemma UpdatedMoved(st: State, s: Store, sops: Option<seq<Sembuf>>)
    requires Good(st.(store := s)) && SopsFit(|s.vals|, sops)
    ensures Moved(st, SmartUpdate(st.(store := s), sops))
  {
    hide Good, Moved, SmartUpdate;
    var w := st.(store := s);
    MovedSelf(st, w);
    SmartUpdateMoved(w, sops);
    MovedTrans(st, w, SmartUpdate(w, sops));
  }

  lemma SemopPlaces(f: Full, e: Entry, c: Entry)
    requires Inv(f) && Enabled(f, Semop(e))
    ensures Grown(f.st.woken, Body(f, Semop(e)).woken)
    ensures Places(Body(f, Semop(e)), c) == Places(f.st, c) + Change(f, Semop(e), c)
  {
    hide Quiet, SmartUpdate, Status, Next, Enqueue, Grown, Held, Told;
    var st := f.st;
    MovedSelf(st, st);
    if Status(st.store, e) == 0 {
      NextGood(st, e);
      MovedSelf(st, st.(store := Next(st.store, e)));
      if !AllZeroOps(e.sops) {
        UpdatedMoved(st, Next(st.store, e), Some(e.sops));
      }
    } else if Status(st.store, e) > 0 {
      EnqueueHeld(st, e, c);
    }
  }

  lemma InterruptPlaces(f: Full, a: Action, c: Entry)
    requires Inv(f) && Enabled(f, a) && a.Interrupt?
    ensures Body(f, a).woken == f.st.woken
    ensures Places(Body(f, a), c) == Places(f.st, c) + Change(f, a, c)
  {
    hide Quiet, Held, Told, RemoveAt, In;
    if a.alters {
      UnlinkHeld(f.st, a.loc, a.k, c);
    } else {
      var es := ConstList(f.st, a.loc);
      InWithout(es, a.k, c);
      WithConstHeld(f.st, a.loc, RemoveAt(es, a.k), f.st.woken, c);
    }
  }

  lemma OtherPlaces(f: Full, a: Action, c: Entry)
    requires Inv(f) && Enabled(f, a) && !a.Semop? && !a.Interrupt?
    ensures Grown(f.st.woken, Body(f, a).woken)
    ensures Places(Body(f, a), c) == Places(f.st, c)
  {
    hide Quiet, SmartUpdate, WithVal, WithAll, WithoutRow, Grown, Places;
    var st := f.st;
    match a
    case SetVal(i, val) =>
      SameRowsGood(st, WithVal(st.store, i, val));
      UpdatedMoved(st, WithVal(st.store, i, val), None);
    case SetAll(vals) =>
      SameRowsGood(st, WithAll(st.store, vals));
      UpdatedMoved(st, WithAll(st.store, vals), None);
    case NewUndo(u) =>
      MovedSelf(st, Body(f, a));
    case ExitUndo(u) =>
      FewerRowsGood(st, u);
      UpdatedMoved(st, WithoutRow(st.store, u), None);
  }

  lemma SectionPlaces(f: Full, nsops: int, body: State, c: Entry)
    requires Inv(f) && Good(body) && Quiet(body)
    requires TakesGlobal(f, nsops) || (body.complex == 0 && body.alter == [])
    ensures Section(f, nsops, body).st.woken == body.woken
    ensures Places(Section(f, nsops, body).st, c) == Places(body, c)
  {
    hide Good, Quiet, Held, Told;
    LeaveInv(f, nsops, body);
    if TakesGlobal(f, nsops) {
      UnmergeHeld(body, c);
    }
  }

  /** Over one section: a call that must sleep gets one place, one that gives up loses it, and
      all others only move from a queue to the woken, with a final status. */
  lemma StepPlaces(f: Full, a: Action, c: Entry)
    requires Inv(f) && Enabled(f, a)
    ensures Grown(f.st.woken, Step(f, a).st.woken)
    ensures Places(Step(f, a).st, c) == Places(f.st, c) + Change(f, a, c)
  {
    hide Inv, Enabled, Good, Quiet, Body, Section, Places, Grown;
    BodyInv(f, a);
    SectionPlaces(f, Nsops(f, a), Body(f, a), c);
    match a
    case Semop(e) => SemopPlaces(f, e, c);
    case Interrupt(_, _, _) => InterruptPlaces(f, a, c); LogKept(f.st.woken);
    case _ => OtherPlaces(f, a, c);
  }

  lemma LogKept(ws: seq<Wake>)
    ensures Grown(ws, ws)
  {
    assert ws == ws + [];
    GrownBy(ws, []);
  }

  // ---------- The status a sleeper reads ----------

  /** queue.status: EINTR until the call is woken */
  function StatusNow(ws: seq<Wake>, c: Entry): int {
    if ws == [] then -EINTR
    else if ws[|ws| - 1].entry == c then ws[|ws| - 1].status
    else StatusNow(ws[..|ws| - 1], c)
  }

  lemma {:induction false} StatusTold(ws: seq<Wake>, c: Entry)
    requires AllFinal(ws)
    ensures StatusNow(ws, c) == -EINTR <==> Told(ws, c) == 0
    ensures StatusNow(ws, c) != -EINTR ==> Wake(c, StatusNow(ws, c)) in ws
  {
    if ws != [] {
      StatusTold(ws[..|ws| - 1], c);
      assert Final(ws[|ws| - 1].status);
    }
  }

  /** A call woken once reads what it was woken with. */
  lemma {:induction false} StatusIs(ws: seq<Wake>, w: Wake)
    requires w in ws && Told(ws, w.entry) <= 1
    ensures StatusNow(ws, w.entry) == w.status && Told(ws, w.entry) == 1
  {
    var init := ws[..|ws| - 1];
    if w in init {
      StatusIs(init, w);
    } else {
      assert ws == init + [ws[|ws| - 1]];
    }
  }

  lemma ToldGrows(ws: seq<Wake>, ws': seq<Wake>, c: Entry)
    requires Grown(ws, ws')
    ensures Told(ws', c) >= Told(ws, c)
    ensures AllFinal(ws) ==> AllFinal(ws')
    ensures forall w | w in ws :: w in ws'
  {
    assert ws' == ws + ws'[|ws|..];
    ToldConcat(ws, ws'[|ws|..], c);
  }

  // ---------- IPC_RMID ----------

  lemma {:induction false} ToldFailed(es: seq<Entry>, c: Entry)
    ensures Told(Failed(es), c) == In(es, c)
  {
    if es == [] {
      NoneIn(c);
    } else {
      var init, e := es[..|es| - 1], es[|es| - 1];
      ToldFailed(init, c);
      assert Failed(es) == Failed(init) + [Wake(e, -EIDRM)];
      ToldAppend(Failed(init), Wake(e, -EIDRM), c);
      assert es == init + [e];
      InConcat(init, [e], c);
      InOne(e, c);
    }
  }

  lemma {:induction false} ToldFailedSems(consts: seq<seq<Entry>>, alters: seq<seq<Entry>>, k: nat, c: Entry)
    requires k <= |consts| && k <= |alters|
    ensures Told(FailedSems(consts, alters, k), c) == InQueues(consts, k, c) + InQueues(alters, k, c)
    ensures AllFinal(FailedSems(consts, alters, k))
  {
    hide Told, In;
    if k == 0 {
      NoneTold(c);
    } else {
      var ws := FailedSems(consts, alters, k - 1);
      ToldFailedSems(consts, alters, k - 1, c);
      ToldFailed(consts[k - 1], c);
      ToldFailed(alters[k - 1], c);
      ToldConcat(ws, Failed(consts[k - 1]), c);
      ToldConcat(ws + Failed(consts[k - 1]), Failed(alters[k - 1]), c);
    }
  }

  lemma NoneTold(c: Entry)
    ensures Told([], c) == 0
  {
  }

  /** freeary wakes everybody who is queued, once. */
  lemma RemovedPlaces(st: State, c: Entry)
    requires |st.semAlter| == |st.semConst|
    ensures Held(Removed(st), c) == 0 && Places(Removed(st), c) == Places(st, c)
    ensures Grown(st.woken, Removed(st).woken)
  {
    hide Told, In;
    var n, r := |st.semAlter|, Removed(st);
    NoneIn(c);
    InQueuesNone(r.semAlter, n, c);
    InQueuesNone(r.semConst, n, c);
    ToldFailed(st.consts, c);
    ToldFailed(st.alter, c);
    ToldFailedSems(st.semConst, st.semAlter, n, c);
    ToldConcat(Failed(st.consts), Failed(st.alter), c);
    ToldConcat(Failed(st.consts) + Failed(st.alter), FailedSems(st.semConst, st.semAlter, n), c);
    ToldConcat(st.woken, FailedAll(st), c);
    GrownBy(st.woken, FailedAll(st));
  }

  lemma RemovedInv(st: State, lock: nat)
    requires Good(st) && lock <= USE_GLOBAL_LOCK_HYSTERESIS
    ensures Inv(Full(Removed(st), lock))
  {
  }

  // ---------- Where a queued call is ----------

  ghost predicate QueuedAt(st: State, c: Entry, loc: Loc, alters: bool, k: nat) {
    HasLoc(st, loc) && var es := if alters then AlterList(st, loc) else ConstList(st, loc); k < |es| && es[k] == c
  }

  lemma HeldAt(st: State, c: Entry) returns (loc: Loc, alters: bool, k: nat)
    requires Good(st) && Held(st, c) > 0
    ensures QueuedAt(st, c, loc, alters, k)
  {
    if c in st.alter {
      loc, alters := Global, true;
      k :| k < |st.alter| && st.alter[k] == c;
    } else if c in st.consts {
      loc, alters := Global, false;
      k :| k < |st.consts| && st.consts[k] == c;
    } else if InQueues(st.semAlter, |st.semAlter|, c) > 0 {
      var i := InQueuesAt(st.semAlter, |st.semAlter|, c);
      loc, alters := Sem(i), true;
      k :| k < |st.semAlter[i]| && st.semAlter[i][k] == c;
    } else {
      var i := InQueuesAt(st.semConst, |st.semConst|, c);
      loc, alters := Sem(i), false;
      k :| k < |st.semConst[i]| && st.semConst[i][k] == c;
    }
  }

  lemma {:induction false} InQueuesHas(qs: seq<seq<Entry>>, i: nat, k: nat, c: Entry)
    requires i < k <= |qs| && c in qs[i]
    ensures InQueues(qs, k, c) > 0
  {
    if i < k - 1 {
      InQueuesHas(qs, i, k - 1, c);
    }
  }

  lemma QueuedHeld(st: State, c: Entry, loc: Loc, alters: bool, k: nat)
    requires Good(st) && QueuedAt(st, c, loc, alters, k)
    ensures Held(st, c) > 0
  {
    if loc.Sem? {
      if alters {
        InQueuesHas(st.semAlter, loc.i, |st.semAlter|, c);
      } else {
        InQueuesHas(st.semConst, loc.i, |st.semConst|, c);
      }
    }
  }
}
