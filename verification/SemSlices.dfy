/**
 One semaphore at a time: while no complex call is around, a section on semaphore
 i neither reads nor writes what belongs to any other semaphore. This is what
 makes it right to run such sections in parallel under per-semaphore locks, and
 to look only at raised semaphores after a call.
 */
module SemSlices {
  import opened Options
  import opened SemOps
  import opened SemEval
  import opened SemSet
  import opened SemWakeup
  import opened SemCalls
  import opened SemRuns

  ghost predicate One(e: Entry, i: nat) {
    |e.sops| == 1 && e.sops[0].num == i
  }

  /** The woken calls that named semaphore i alone. */
  ghost function LogAt(ws: seq<Wake>, i: nat): seq<Wake> {
    if ws == [] then []
    else LogAt(ws[..|ws| - 1], i) + (if One(ws[|ws| - 1].entry, i) then [ws[|ws| - 1]] else [])
  }

  lemma {:induction false} LogAtConcat(a: seq<Wake>, b: seq<Wake>, i: nat)
    ensures LogAt(a + b, i) == LogAt(a, i) + LogAt(b, i)
  {
    if b == [] {
      assert a + b == a;
    } else {
      assert (a + b)[..|a + b| - 1] == a + b[..|b| - 1];
      LogAtConcat(a, b[..|b| - 1], i);
    }
  }

  /** No complex call is around. */
  ghost predicate SimpleMode(st: State) {
    Good(st) && st.alter == [] && st.consts == []
  }

  ghost predicate SameShape(a: State, b: State) {
    && |a.store.vals| == |b.store.vals| == |a.semAlter| == |b.semAlter| == |a.semConst| == |b.semConst|
    && a.store.undos.Keys == b.store.undos.Keys
    && Bounded(a.store) && Bounded(b.store)
  }

  /** Everything that belongs to semaphore i is the same: its value, the
      adjustments owed to it, its queues, and the calls on it that were woken. */
  ghost predicate SameAt(a: State, b: State, i: nat) {
    && SameShape(a, b) && i < |a.store.vals|
    && a.store.vals[i] == b.store.vals[i]
    && (forall u | u in a.store.undos :: a.store.undos[u][i] == b.store.undos[u][i])
    && a.semAlter[i] == b.semAlter[i]
    && a.semConst[i] == b.semConst[i]
    && LogAt(a.woken, i) == LogAt(b.woken, i)
  }

  // ---------- One call on one semaphore ----------

  ghost function StatusAt(v: int, adj: int, b: Sembuf): int {
    if MustWait(v, b) then if b.nowait then -EAGAIN else 1
    else if v + b.op > SEMVMX || (b.undo && (adj - b.op < -SEMAEM - 1 || adj - b.op > SEMAEM)) then -ERANGE
    else 0
  }

  ghost function AdjAt(s: Store, e: Entry, i: nat): int
    requires CanEval(s, e) && One(e, i)
  {
    assert e.sops[0] in e.sops;
    if e.undo.Some? then s.undos[e.undo.value][i] else 0
  }

  ghost predicate NextAt(s: Store, r: Store, e: Entry, i: nat, status: int)
    requires CanEval(s, e) && One(e, i) && Bounded(r)
  {
    assert e.sops[0] in e.sops;
    var op := if status == 0 then e.sops[0].op else 0;
    && |r.vals| == |s.vals| && r.undos.Keys == s.undos.Keys
    && r.vals[i] == s.vals[i] + op
    && (forall j | 0 <= j < |s.vals| && j != i :: r.vals[j] == s.vals[j])
    && (forall u | u in s.undos :: r.undos[u][i] == s.undos[u][i] - (if e.sops[0].undo && e.undo == Some(u) then op else 0))
    && (forall u, j | u in s.undos && 0 <= j < |s.vals| && j != i :: r.undos[u][j] == s.undos[u][j])
  }

  lemma NextSlices(s: Store, e: Entry, i: nat)
    requires CanEval(s, e) && One(e, i)
    ensures i < |s.vals|
    ensures Status(s, e) == StatusAt(s.vals[i], AdjAt(s, e, i), e.sops[0])
    ensures NextAt(s, Next(s, e), e, i, Status(s, e))
  {
    assert e.sops[0] in e.sops;
    ExecOne(MemFor(s, e), e.sops);
  }

  function Succeeded(es: seq<Entry>): (r: seq<Wake>)
    ensures |r| == |es| && forall k | 0 <= k < |es| :: r[k] == Wake(es[k], 0)
  {
    seq(|es|, k requires 0 <= k < |es| => Wake(es[k], 0))
  }

  lemma ZeroSucceeds(s: Store, i: nat, e: Entry)
    requires CanEval(s, e) && Simple(e, i) && e.sops[0].op == 0
    requires i < |s.vals| && s.vals[i] == 0
    ensures Verdict(s)(e) == 0
  {
    NextSlices(s, e, i);
  }

  lemma SucceededStep(es: seq<Entry>)
    requires es != []
    ensures Succeeded(es) == Succeeded(es[..|es| - 1]) + [Wake(es[|es| - 1], 0)]
  {
  }

  lemma {:induction false} ZeroFinishesAll(s: Store, i: nat, es: seq<Entry>)
    requires Bounded(s) && i < |s.vals| && s.vals[i] == 0
    requires SemConstOk(|s.vals|, s.undos.Keys, i, es)
    ensures Finished(Verdict(s), es) == Succeeded(es) && Sleeping(Verdict(s), es) == []
  {
    if es != [] {
      var init, e := es[..|es| - 1], es[|es| - 1];
      ZeroFinishesAll(s, i, init);
      assert e in es;
      ZeroSucceeds(s, i, e);
      SucceededStep(es);
      hide Verdict, Succeeded, EntryFits, Bounded;
    }
  }

  /** What looking at the zero semaphores among [i] does in simple mode. */
  ghost function ZeroedAt(st: State, i: nat): State
    requires i < |st.store.vals| && i < |st.semConst|
  {
    if st.store.vals[i] == 0 then
      st.(semConst := st.semConst[i := []], woken := st.woken + Succeeded(st.semConst[i]))
    else st
  }

  lemma WakeSemIs(st: State, i: nat)
    requires Good(st) && i < |st.store.vals| && st.store.vals[i] == 0
    ensures WakeConst(st, Sem(i)) == ZeroedAt(st, i)
  {
    assert SemConstOk(|st.store.vals|, st.store.undos.Keys, i, st.semConst[i]);
    ZeroFinishesAll(st.store, i, st.semConst[i]);
  }

  lemma WakeGlobalNone(st: State)
    requires Good(st) && st.consts == []
    ensures WakeConst(st, Global) == st
  {
    assert st.woken + [] == st.woken;
  }

  lemma WakeZeroOne(st: State, i: nat)
    requires SimpleMode(st) && i < |st.store.vals|
    ensures WakeZero(st, [i]) == ZeroedAt(st, i) && SimpleMode(ZeroedAt(st, i))
  {
    var nums := [i];
    assert nums[..0] == [] && nums[0] == i;
    assert AnyZero(st.store, nums) <==> st.store.vals[i] == 0;
    assert WakeZeroSems(st, []) == st;
    assert WakeZeroSems(st, nums) == if st.store.vals[i] == 0 then WakeConst(st, Sem(i)) else st;
    if st.store.vals[i] == 0 {
      WakeSemIs(st, i);
      WakeGlobalNone(WakeConst(st, Sem(i)));
    }
  }

  lemma SucceededAt(st: State, i: nat, j: nat)
    requires Good(st) && i < |st.store.vals|
    ensures LogAt(Succeeded(st.semConst[i]), j) == if i == j then Succeeded(st.semConst[i]) else []
  {
    var es := st.semConst[i];
    assert SemConstOk(|st.store.vals|, st.store.undos.Keys, i, es);
    AllAt(Succeeded(es), i, j);
  }

  lemma {:induction false} AllAt(ws: seq<Wake>, i: nat, j: nat)
    requires forall k | 0 <= k < |ws| :: One(ws[k].entry, i)
    ensures LogAt(ws, j) == if i == j then ws else []
  {
    if ws != [] {
      AllAt(ws[..|ws| - 1], i, j);
    }
  }

  lemma GoodBounded(st: State)
    requires Good(st)
    ensures Bounded(st.store) && |st.semAlter| == |st.semConst| == |st.store.vals|
  {
  }

  lemma ZeroedAtOther(st: State, i: nat, j: nat)
    requires Good(st) && i < |st.store.vals| && j < |st.store.vals| && i != j
    ensures SameAt(st, ZeroedAt(st, i), j)
  {
    hide LogAt, Succeeded, Good, Bounded;
    GoodBounded(st);
    SucceededAt(st, i, j);
    LogAtConcat(st.woken, Succeeded(st.semConst[i]), j);
  }

  lemma ZeroedAtDepends(a: State, b: State, i: nat)
    requires SameAt(a, b, i)
    ensures SameAt(ZeroedAt(a, i), ZeroedAt(b, i), i)
  {
    hide LogAt, Succeeded, Good;
    LogAtConcat(a.woken, Succeeded(a.semConst[i]), i);
    LogAtConcat(b.woken, Succeeded(b.semConst[i]), i);
  }

  // ---------- One semaphore's scan ----------

  lemma NextOther(st: State, e: Entry, i: nat, j: nat)
    requires Good(st) && CanEval(st.store, e) && One(e, i) && j < |st.store.vals| && i != j
    ensures SameAt(st, st.(store := Next(st.store, e)), j)
  {
    NextSlices(st.store, e, i);
  }

  lemma NextDepends(a: State, b: State, e: Entry, i: nat)
    requires Good(a) && Good(b) && SameAt(a, b, i)
    requires CanEval(a.store, e) && CanEval(b.store, e) && One(e, i)
    ensures Status(a.store, e) == Status(b.store, e)
    ensures SameAt(a.(store := Next(a.store, e)), b.(store := Next(b.store, e)), i)
  {
    NextSlices(a.store, e, i);
    NextSlices(b.store, e, i);
  }

  ghost function Unlinked(st: State, i: nat, k: nat): State
    requires i < |st.semAlter| && k < |st.semAlter[i]|
  {
    st.(semAlter := st.semAlter[i := RemoveAt(st.semAlter[i], k)])
  }

  lemma QueuedAt(st: State, i: nat, k: nat)
    requires Good(st) && i < |st.store.vals| && k < |st.semAlter[i]|
    ensures CanEval(st.store, st.semAlter[i][k]) && One(st.semAlter[i][k], i) && Nums(st.semAlter[i][k].sops) == [i]
    ensures Good(Unlinked(st, i, k)) && Unlinked(st, i, k) == Unlink(st, Sem(i), k)
    ensures Good(Unlinked(st, i, k).(store := Next(st.store, st.semAlter[i][k])))
  {
    assert SemAlterOk(|st.store.vals|, st.store.undos.Keys, i, st.semAlter[i]);
    assert st.semAlter[i][k] in st.semAlter[i];
    UnlinkGood(st, Sem(i), k);
    NextGood(Unlinked(st, i, k), st.semAlter[i][k]);
  }

  lemma CompleteSimple(st: State, i: nat, k: nat)
    requires SimpleMode(st) && i < |st.store.vals| && k < |st.semAlter[i]|
    ensures CanEval(st.store, st.semAlter[i][k])
    ensures var e := st.semAlter[i][k];
            var status := Status(st.store, e);
            var u := Unlinked(st, i, k).(store := Next(st.store, e));
            && Complete(st, Sem(i), k) == WakePrepared(if status == 0 then ZeroedAt(u, i) else u, e, status)
            && SimpleMode(Complete(st, Sem(i), k))
  {
    var e := st.semAlter[i][k];
    QueuedAt(st, i, k);
    CompleteIs(st, Sem(i), k);
    WakeZeroOne(Unlinked(st, i, k).(store := Next(st.store, e)), i);
  }

  lemma LogAtAppend(ws: seq<Wake>, w: Wake, i: nat)
    ensures LogAt(ws + [w], i) == LogAt(ws, i) + if One(w.entry, i) then [w] else []
  {
    assert (ws + [w])[..|ws|] == ws;
  }

  lemma PreparedAt(a: State, b: State, e: Entry, status: int, i: nat, j: nat)
    requires One(e, i)
    ensures i != j && SameAt(a, b, j) ==> SameAt(a, WakePrepared(b, e, status), j)
    ensures SameAt(a, b, i) ==> SameAt(WakePrepared(a, e, status), WakePrepared(b, e, status), i)
  {
    LogAtAppend(b.woken, Wake(e, status), j);
    LogAtAppend(b.woken, Wake(e, status), i);
    LogAtAppend(a.woken, Wake(e, status), i);
  }

  lemma CompleteOther(st: State, i: nat, k: nat, j: nat)
    requires SimpleMode(st) && i < |st.store.vals| && k < |st.semAlter[i]| && j < |st.store.vals| && i != j
    ensures SameAt(st, Complete(st, Sem(i), k), j)
  {
    CompleteSimple(st, i, k);
    QueuedAt(st, i, k);
    var e := st.semAlter[i][k];
    NextOther(st, e, i, j);
    var u := Unlinked(st, i, k).(store := Next(st.store, e));
    hide Good, SimpleMode, Complete, Status, CanEval, ZeroedAt, WakePrepared, RemoveAt;
    assert SameAt(st, u, j);
    ZeroedAtOther(u, i, j);
    var z := if Status(st.store, e) == 0 then ZeroedAt(u, i) else u;
    assert SameAt(st, z, j);
    PreparedAt(st, z, e, Status(st.store, e), i, j);
  }

  lemma CompleteDepends(a: State, b: State, i: nat, k: nat)
    requires SimpleMode(a) && SimpleMode(b) && SameAt(a, b, i) && k < |a.semAlter[i]|
    ensures SameAt(Complete(a, Sem(i), k), Complete(b, Sem(i), k), i)
  {
    CompleteSimple(a, i, k);
    CompleteSimple(b, i, k);
    QueuedAt(a, i, k);
    QueuedAt(b, i, k);
    var e := a.semAlter[i][k];
    NextDepends(a, b, e, i);
    hide Good, SimpleMode, Complete, Status, CanEval, ZeroedAt, WakePrepared, RemoveAt;
    var u, v := Unlinked(a, i, k).(store := Next(a.store, e)), Unlinked(b, i, k).(store := Next(b.store, e));
    assert SameAt(u, v, i);
    ZeroedAtDepends(u, v, i);
    var y := if Status(a.store, e) == 0 then ZeroedAt(u, i) else u;
    var z := if Status(b.store, e) == 0 then ZeroedAt(v, i) else v;
    PreparedAt(y, z, e, Status(a.store, e), i, i);
  }

  /** The first call of semaphore i's queue that need not sleep is the same one. */
  lemma FirstReadySame(a: State, b: State, i: nat)
    requires Good(a) && Good(b) && SameAt(a, b, i)
    ensures FirstReady(Verdict(a.store), a.semAlter[i]) == FirstReady(Verdict(b.store), b.semAlter[i])
  {
    var es := a.semAlter[i];
    forall k | 0 <= k < |es|
      ensures Verdict(a.store)(es[k]) == Verdict(b.store)(es[k])
    {
      QueuedAt(a, i, k);
      QueuedAt(b, i, k);
      NextDepends(a, b, es[k], i);
    }
    FirstReadyAgrees(Verdict(a.store), Verdict(b.store), es);
  }

  lemma {:induction false} FirstReadyAgrees(f: Entry -> int, g: Entry -> int, es: seq<Entry>)
    requires forall k | 0 <= k < |es| :: f(es[k]) == g(es[k])
    ensures FirstReady(f, es) == FirstReady(g, es)
  {
    if es != [] {
      FirstReadyAgrees(f, g, es[1..]);
    }
  }

  /** update_queue on semaphore i leaves every other semaphore alone ... */
  lemma {:induction false} DrainOther(st: State, i: nat, j: nat)
    requires SimpleMode(st) && i < |st.store.vals| && j < |st.store.vals| && i != j
    ensures SimpleMode(Drain(st, Sem(i))) && SameAt(st, Drain(st, Sem(i)), j)
    decreases |st.semAlter[i]|
  {
    DrainUnfold(st, Sem(i));
    hide Drain, Complete, Good;
    var k := FirstReady(Verdict(st.store), st.semAlter[i]);
    if k < |st.semAlter[i]| {
      CompleteSimple(st, i, k);
      CompleteOther(st, i, k, j);
      CompleteGood(st, Sem(i), k);
      DrainOther(Complete(st, Sem(i), k), i, j);
    }
  }

  lemma CompleteGood(st: State, loc: Loc, k: nat)
    requires Good(st) && HasLoc(st, loc) && k < |AlterList(st, loc)|
    ensures var r := Complete(st, loc, k);
            && Good(r) && |r.store.vals| == |st.store.vals| && HasLoc(r, loc)
            && |AlterList(r, loc)| == |AlterList(st, loc)| - 1
  {
  }

  lemma DrainUnfold(st: State, loc: Loc)
    requires Good(st) && HasLoc(st, loc)
    ensures var k := FirstReady(Verdict(st.store), AlterList(st, loc));
            Drain(st, loc) == if k < |AlterList(st, loc)| then Drain(Complete(st, loc, k), loc) else st
  {
  }

  /** ... and what it does to semaphore i depends on nothing else. */
  lemma {:induction false} DrainDepends(a: State, b: State, i: nat)
    requires SimpleMode(a) && SimpleMode(b) && SameAt(a, b, i)
    ensures SimpleMode(Drain(a, Sem(i))) && SimpleMode(Drain(b, Sem(i)))
    ensures SameAt(Drain(a, Sem(i)), Drain(b, Sem(i)), i)
    decreases |a.semAlter[i]|
  {
    DrainUnfold(a, Sem(i));
    DrainUnfold(b, Sem(i));
    FirstReadySame(a, b, i);
    hide Drain, Complete, Good;
    var k := FirstReady(Verdict(a.store), a.semAlter[i]);
    if k < |a.semAlter[i]| {
      CompleteSimple(a, i, k);
      CompleteSimple(b, i, k);
      CompleteDepends(a, b, i, k);
      CompleteGood(a, Sem(i), k);
      DrainDepends(Complete(a, Sem(i), k), Complete(b, Sem(i), k), i);
    }
  }

  // ---------- Sections under a per-semaphore lock ----------

  lemma RaisedOne(sops: seq<Sembuf>)
    requires |sops| == 1
    ensures Raised(sops) == if sops[0].op > 0 then [sops[0].num] else []
  {
    assert sops[..0] == [] && sops[..1] == sops;
    RaisedStep(sops, 0);
  }

  lemma SmartOne(st: State, e: Entry, i: nat)
    requires SimpleMode(st) && i < |st.store.vals| && One(e, i) && SopsFit(|st.store.vals|, Some(e.sops))
    ensures var z := ZeroedAt(st, i);
            SimpleMode(z) && SmartUpdate(st, Some(e.sops)) == if e.sops[0].op > 0 then Drain(z, Sem(i)) else z
  {
    hide Drain, Good, SmartUpdate, DrainSems, WakeZero, ZeroedAt, Raised, Succeeded, LogAt;
    GoodBounded(st);
    assert Nums(e.sops) == [i];
    WakeZeroOne(st, i);
    RaisedOne(e.sops);
    SmartUpdateIs(st, Some(e.sops));
    var z := ZeroedAt(st, i);
    assert [] + [i] == [i];
    DrainSemsNone(z);
    DrainSemsAppend(z, [], i);
  }

  /** A simple section from a set between sections: simple mode lasts. */
  ghost predicate Local(st: State, e: Entry, i: nat) {
    Inv(Full(st, 0)) && CanEval(st.store, e) && One(e, i)
  }

  lemma LocalSimple(st: State, e: Entry, i: nat)
    requires Local(st, e, i)
    ensures SimpleMode(st) && i < |st.store.vals|
    ensures Inv(Full(SemopBody(st, e), 0)) && Step(Full(st, 0), Semop(e)) == Full(SemopBody(st, e), 0)
  {
    assert e.sops[0] in e.sops;
    NoConsts(st);
    BodyInv(Full(st, 0), Semop(e));
  }

  lemma EnqueuedAt(st: State, e: Entry, i: nat)
    requires SimpleMode(st) && CanEval(st.store, e) && One(e, i) && i < |st.store.vals|
    ensures Enqueue(st, e) == if AllZeroOps(e.sops) then st.(semConst := st.semConst[i := st.semConst[i] + [e]])
                              else st.(semAlter := st.semAlter[i := st.semAlter[i] + [e]])
  {
    assert st.complex == 0;
  }

  /** What such a section does, spelled out. */
  lemma LocalBody(st: State, e: Entry, i: nat)
    requires Local(st, e, i)
    ensures SimpleMode(st) && i < |st.store.vals|
    ensures var error := Status(st.store, e);
            var w := st.(store := Next(st.store, e));
            && SimpleMode(w) && SimpleMode(ZeroedAt(w, i))
            && (error == 0 && AllZeroOps(e.sops) ==> SemopBody(st, e) == w)
            && (error == 0 && !AllZeroOps(e.sops) ==>
                  SemopBody(st, e) == if e.sops[0].op > 0 then Drain(ZeroedAt(w, i), Sem(i)) else ZeroedAt(w, i))
            && (error < 0 ==> SemopBody(st, e) == st)
            && (error > 0 ==> SemopBody(st, e) == Enqueue(st, e))
  {
    LocalSimple(st, e, i);
    NextGood(st, e);
    EvalSopsFit(st.store, e);
    hide Good, CanEval, Status, Next, SmartUpdate, Drain, EntryFits, Enqueue;
    SmartOne(st.(store := Next(st.store, e)), e, i);
  }

  lemma EvalSopsFit(s: Store, e: Entry)
    requires CanEval(s, e)
    ensures SopsFit(|s.vals|, Some(e.sops))
  {
  }

  lemma EnqueueOther(st: State, e: Entry, i: nat, j: nat)
    requires SimpleMode(st) && CanEval(st.store, e) && One(e, i) && i < |st.store.vals|
    requires j < |st.store.vals| && i != j
    ensures SameAt(st, Enqueue(st, e), j) && SameAt(st, st, j)
  {
    EnqueuedAt(st, e, i);
  }

  lemma LocalOther(st: State, e: Entry, i: nat, j: nat)
    requires Local(st, e, i) && j < |st.store.vals| && i != j
    ensures SameAt(st, SemopBody(st, e), j)
  {
    LocalBody(st, e, i);
    NextOther(st, e, i, j);
    EnqueueOther(st, e, i, j);
    var w := st.(store := Next(st.store, e));
    var z := ZeroedAt(w, i);
    ZeroedAtOther(w, i, j);
    DrainOther(z, i, j);
    hide Good, SimpleMode, CanEval, Status, Next, Drain, ZeroedAt, SemopBody, Enqueue, LogAt, SameAt, SameShape;
    SameAtTrans(st, w, z, j);
    SameAtTrans(st, z, Drain(z, Sem(i)), j);
  }

  lemma LocalDepends(a: State, b: State, e: Entry, i: nat)
    requires Local(a, e, i) && Local(b, e, i) && SameAt(a, b, i)
    ensures Status(a.store, e) == Status(b.store, e)
    ensures SameAt(SemopBody(a, e), SemopBody(b, e), i)
  {
    hide Status, Next, Drain, ZeroedAt, SemopBody, Enqueue;
    LocalBody(a, e, i);
    LocalBody(b, e, i);
    NextDepends(a, b, e, i);
    EnqueuedAt(a, e, i);
    EnqueuedAt(b, e, i);
    var v, w := a.(store := Next(a.store, e)), b.(store := Next(b.store, e));
    ZeroedAtDepends(v, w, i);
    DrainDepends(ZeroedAt(v, i), ZeroedAt(w, i), i);
    hide Good, SimpleMode, CanEval, Status, Next, Drain, ZeroedAt, SemopBody, Enqueue, LogAt;
  }

  lemma SameAtTrans(a: State, b: State, c: State, i: nat)
    requires SameAt(a, b, i) && SameAt(b, c, i)
    ensures SameAt(a, c, i)
  {
  }

  lemma SameAtSym(a: State, b: State, i: nat)
    requires SameAt(a, b, i)
    ensures SameAt(b, a, i)
  {
  }

  lemma BodyRows(st: State, e: Entry)
    requires Good(st) && CanEval(st.store, e)
    ensures SemopBody(st, e).store.undos.Keys == st.store.undos.Keys
    ensures |SemopBody(st, e).store.vals| == |st.store.vals|
  {
    NextGood(st, e);
  }

  lemma OrderAt(st: State, d: Entry, i: nat, e: Entry, j: nat)
    requires Local(st, d, i) && Local(st, e, j) && i != j
    requires Local(SemopBody(st, d), e, j) && Local(SemopBody(st, e), d, i)
    ensures Status(SemopBody(st, e).store, d) == Status(st.store, d)
    ensures SameAt(SemopBody(SemopBody(st, d), e), SemopBody(SemopBody(st, e), d), i)
  {
    LocalSimple(st, d, i);
    LocalSimple(st, e, j);
    var x, y := SemopBody(st, d), SemopBody(st, e);
    BodyRows(st, d);
    LocalOther(x, e, j, i);
    LocalOther(st, e, j, i);
    LocalDepends(st, y, d, i);
  }

  lemma OrderElsewhere(st: State, d: Entry, i: nat, e: Entry, j: nat, k: nat)
    requires Local(st, d, i) && Local(st, e, j) && Local(SemopBody(st, d), e, j)
    requires k < |st.store.vals| && k != i && k != j
    ensures SameAt(st, SemopBody(SemopBody(st, d), e), k)
  {
    LocalOther(st, d, i, k);
    LocalOther(SemopBody(st, d), e, j, k);
    SameAtTrans(st, SemopBody(st, d), SemopBody(SemopBody(st, d), e), k);
  }

  lemma LocalFits(st: State, d: Entry, i: nat, e: Entry, j: nat)
    requires Local(st, d, i) && Local(st, e, j)
    ensures Local(SemopBody(st, d), e, j)
  {
    LocalSimple(st, d, i);
    BodyRows(st, d);
  }

  /** Two simple sections on different semaphores do not see each other: in either
      order each call gets the same status, and every semaphore ends up with the
      same value, adjustments, queues and woken calls. */
  lemma LocalSectionsCommute(st: State, d: Entry, i: nat, e: Entry, j: nat)
    requires Local(st, d, i) && Local(st, e, j) && i != j
    ensures Local(SemopBody(st, d), e, j) && Local(SemopBody(st, e), d, i)
    ensures Status(SemopBody(st, d).store, e) == Status(st.store, e)
    ensures Status(SemopBody(st, e).store, d) == Status(st.store, d)
    ensures forall k | 0 <= k < |st.store.vals| ::
              SameAt(SemopBody(SemopBody(st, d), e), SemopBody(SemopBody(st, e), d), k)
  {
    LocalFits(st, d, i, e, j);
    LocalFits(st, e, j, d, i);
    hide SemopBody, Local, SameAt, Status, CanEval;
    OrderAt(st, d, i, e, j);
    OrderAt(st, e, j, d, i);
    forall k | 0 <= k < |st.store.vals|
      ensures SameAt(SemopBody(SemopBody(st, d), e), SemopBody(SemopBody(st, e), d), k)
    {
      var de, ed := SemopBody(SemopBody(st, d), e), SemopBody(SemopBody(st, e), d);
      if k == j {
        SameAtSym(ed, de, k);
      } else if k != i {
        OrderElsewhere(st, d, i, e, j, k);
        OrderElsewhere(st, e, j, d, i, k);
        SameAtSym(st, de, k);
        SameAtTrans(de, st, ed, k);
      }
    }
  }
}
