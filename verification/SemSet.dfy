/**
 A semaphore set as a value: its values, the per-semaphore and global queues of
 sleeping calls, and the naive meaning of the wakeup scans. The in-place scans
 of SemArray.dfy are proved equal to the functions here.
 */
module SemSet {
  import opened Options
  import opened SemOps
  import opened SemEval

  const EIDRM: int := 43

  /** The queues of the whole set, or of one semaphore. */
  datatype Loc = Global | Sem(i: nat)

  datatype State = State(
    store: Store,
    semAlter: seq<seq<Entry>>,
    semConst: seq<seq<Entry>>,
    alter: seq<Entry>,
    consts: seq<Entry>,
    complex: int,
    woken: seq<Wake>)

  // ---------- Well-formed sets ----------

  ghost predicate SemAlterOk(n: nat, rows: set<nat>, i: nat, es: seq<Entry>) {
    forall e | e in es :: EntryFits(n, rows, e) && Simple(e, i) && e.sops[0].op < 0
  }

  ghost predicate SemConstOk(n: nat, rows: set<nat>, i: nat, es: seq<Entry>) {
    forall e | e in es :: EntryFits(n, rows, e) && Simple(e, i) && e.sops[0].op == 0
  }

  ghost predicate AlterOk(n: nat, rows: set<nat>, es: seq<Entry>) {
    forall e | e in es :: EntryFits(n, rows, e) && !AllZeroOps(e.sops)
  }

  ghost predicate ConstsOk(n: nat, rows: set<nat>, es: seq<Entry>) {
    forall e | e in es :: EntryFits(n, rows, e) && AllZeroOps(e.sops) && |e.sops| > 1
  }

  ghost predicate Typed(st: State) {
    var n, rows := |st.store.vals|, st.store.undos.Keys;
    && |st.semAlter| == |st.semConst| == n
    && (forall i | 0 <= i < n :: SemAlterOk(n, rows, i, st.semAlter[i]))
    && (forall i | 0 <= i < n :: SemConstOk(n, rows, i, st.semConst[i]))
    && AlterOk(n, rows, st.alter)
    && ConstsOk(n, rows, st.consts)
  }

  function Multi(es: seq<Entry>): nat {
    if es == [] then 0 else Multi(es[..|es| - 1]) + (if |es[|es| - 1].sops| > 1 then 1 else 0)
  }

  ghost predicate NoSemAlter(st: State) {
    forall i | 0 <= i < |st.semAlter| :: st.semAlter[i] == []
  }

  /** Holds at every point of a locked section. */
  ghost predicate Good(st: State) {
    && Bounded(st.store)
    && Typed(st)
    && st.complex == Multi(st.alter) + Multi(st.consts)
    && (st.alter != [] || st.consts != [] ==> NoSemAlter(st))
  }

  ghost predicate HasLoc(st: State, loc: Loc) {
    loc.Sem? ==> loc.i < |st.store.vals| == |st.semAlter| == |st.semConst|
  }

  // ---------- Wait-for-zero queues ----------

  ghost function ConstList(st: State, loc: Loc): seq<Entry>
    requires HasLoc(st, loc)
  {
    if loc.Global? then st.consts else st.semConst[loc.i]
  }

  lemma ConstCanEval(st: State, loc: Loc)
    requires Good(st) && HasLoc(st, loc)
    ensures AllCanEval(st.store, ConstList(st, loc))
    ensures forall e | e in ConstList(st, loc) :: AllZeroOps(e.sops)
  {
    if loc.Sem? {
      assert SemConstOk(|st.store.vals|, st.store.undos.Keys, loc.i, st.semConst[loc.i]);
    }
  }

  ghost function WithConst(st: State, loc: Loc, left: seq<Entry>, log: seq<Wake>): (r: State)
    requires HasLoc(st, loc)
    ensures r.store == st.store && r.alter == st.alter && r.semAlter == st.semAlter && r.woken == log
    ensures HasLoc(r, loc) && ConstList(r, loc) == left
  {
    if loc.Global? then
      st.(consts := left, complex := Multi(st.alter) + Multi(left), woken := log)
    else
      st.(semConst := st.semConst[loc.i := left], woken := log)
  }

  lemma WithConstGood(st: State, loc: Loc, left: seq<Entry>, log: seq<Wake>)
    requires Good(st) && HasLoc(st, loc)
    requires forall e | e in left :: e in ConstList(st, loc)
    ensures Good(WithConst(st, loc, left, log))
  {
    var n, rows := |st.store.vals|, st.store.undos.Keys;
    if loc.Global? {
      if left != [] {
        assert left[0] in left && left[0] in st.consts;
      }
    } else {
      assert SemConstOk(n, rows, loc.i, st.semConst[loc.i]);
      assert SemConstOk(n, rows, loc.i, left);
    }
  }

  /** wake_const_ops: every call of one wait-for-zero queue that need not sleep
      leaves the queue, in order, with its status. Completing it changes nothing. */
  ghost function WakeConst(st: State, loc: Loc): (r: State)
    requires Good(st) && HasLoc(st, loc)
    ensures Good(r)
    ensures r.store == st.store && r.alter == st.alter && r.semAlter == st.semAlter
  {
    ConstCanEval(st, loc);
    var es := ConstList(st, loc);
    WithConstGood(st, loc, Sleeping(Verdict(st.store), es), st.woken + Finished(Verdict(st.store), es));
    WithConst(st, loc, Sleeping(Verdict(st.store), es), st.woken + Finished(Verdict(st.store), es))
  }

  predicate Within(nums: seq<nat>, n: nat) {
    forall k | 0 <= k < |nums| :: nums[k] < n
  }

  ghost function WakeZeroSems(st: State, nums: seq<nat>): (r: State)
    requires Good(st) && Within(nums, |st.store.vals|)
    ensures Good(r)
    ensures r.store == st.store && r.alter == st.alter && r.semAlter == st.semAlter
    ensures r.consts == st.consts && r.complex == st.complex
  {
    if nums == [] then st
    else
      var n := nums[|nums| - 1];
      var s := WakeZeroSems(st, nums[..|nums| - 1]);
      if st.store.vals[n] == 0 then WakeConst(s, Sem(n)) else s
  }

  ghost predicate AnyZero(s: Store, nums: seq<nat>)
    requires Within(nums, |s.vals|)
  {
    exists k | 0 <= k < |nums| :: s.vals[nums[k]] == 0
  }

  /** do_smart_wakeup_zero: the queues of the named semaphores that are zero, then
      the global queue if there was one. */
  ghost function WakeZero(st: State, nums: seq<nat>): (r: State)
    requires Good(st) && Within(nums, |st.store.vals|)
    ensures Good(r)
    ensures r.store == st.store && r.alter == st.alter && r.semAlter == st.semAlter
  {
    var s := WakeZeroSems(st, nums);
    if AnyZero(st.store, nums) then WakeConst(s, Global) else s
  }

  function AllNums(n: nat): (r: seq<nat>)
    ensures |r| == n && forall k | 0 <= k < n :: r[k] == k
  {
    seq(n, k => k)
  }

  // ---------- Queues of calls that change the set ----------

  ghost function AlterList(st: State, loc: Loc): seq<Entry>
    requires HasLoc(st, loc)
  {
    if loc.Global? then st.alter else st.semAlter[loc.i]
  }

  lemma AlterCanEval(st: State, loc: Loc)
    requires Good(st) && HasLoc(st, loc)
    ensures AllCanEval(st.store, AlterList(st, loc))
  {
    if loc.Sem? {
      assert SemAlterOk(|st.store.vals|, st.store.undos.Keys, loc.i, st.semAlter[loc.i]);
    }
  }

  lemma {:induction false} MultiConcat(a: seq<Entry>, b: seq<Entry>)
    ensures Multi(a + b) == Multi(a) + Multi(b)
  {
    if b == [] {
      assert a + b == a;
    } else {
      assert (a + b)[..|a + b| - 1] == a + b[..|b| - 1];
      MultiConcat(a, b[..|b| - 1]);
    }
  }

  lemma MultiRemoveAt(es: seq<Entry>, i: nat)
    requires i < |es|
    ensures Multi(RemoveAt(es, i)) == Multi(es) - (if |es[i].sops| > 1 then 1 else 0)
  {
    assert es == es[..i] + [es[i]] + es[i + 1..];
    MultiConcat(es[..i] + [es[i]], es[i + 1..]);
    MultiConcat(es[..i], [es[i]]);
    MultiConcat(es[..i], es[i + 1..]);
  }

  /** unlink_queue */
  ghost function Unlink(st: State, loc: Loc, i: nat): (r: State)
    requires HasLoc(st, loc) && i < |AlterList(st, loc)|
    ensures r.store == st.store && r.consts == st.consts && r.semConst == st.semConst && r.woken == st.woken
  {
    var es := AlterList(st, loc);
    var s := st.(complex := st.complex - if |es[i].sops| > 1 then 1 else 0);
    if loc.Global? then s.(alter := RemoveAt(es, i)) else s.(semAlter := st.semAlter[loc.i := RemoveAt(es, i)])
  }

  lemma UnlinkGood(st: State, loc: Loc, i: nat)
    requires Good(st) && HasLoc(st, loc) && i < |AlterList(st, loc)|
    ensures Good(Unlink(st, loc, i))
  {
    if loc.Global? {
      MultiRemoveAt(st.alter, i);
    } else {
      var n, rows := |st.store.vals|, st.store.undos.Keys;
      var es := st.semAlter[loc.i];
      assert SemAlterOk(n, rows, loc.i, es) && Simple(es[i], loc.i);
      assert SemAlterOk(n, rows, loc.i, RemoveAt(es, i));
    }
  }

  lemma NextGood(st: State, e: Entry)
    requires Good(st) && CanEval(st.store, e)
    ensures Good(st.(store := Next(st.store, e)))
  {
  }

  /** What a call does when it is evaluated: on success it is written, and the
      wait-for-zero calls on the semaphores it names are looked at. */
  ghost function Effect(st: State, e: Entry): (r: State)
    requires Good(st) && CanEval(st.store, e)
    ensures Good(r) && r.store == Next(st.store, e)
    ensures r.alter == st.alter && r.semAlter == st.semAlter
  {
    if Eval(st.store, e).Done? then
      NextGood(st, e);
      WakeZero(st.(store := Next(st.store, e)), Nums(e.sops))
    else st
  }

  /** wake_up_sem_queue_prepare */
  ghost function Logged(st: State, w: Wake): (r: State)
    requires Good(st)
    ensures Good(r)
  {
    st.(woken := st.woken + [w])
  }

  /** One queued call leaves its queue and is woken with its status. */
  ghost function Complete(st: State, loc: Loc, i: nat): (r: State)
    requires Good(st) && HasLoc(st, loc) && i < |AlterList(st, loc)|
    ensures Good(r) && CanEval(st.store, AlterList(st, loc)[i])
    ensures r.store == Next(st.store, AlterList(st, loc)[i])
    ensures HasLoc(r, loc) && AlterList(r, loc) == RemoveAt(AlterList(st, loc), i)
    ensures loc.Sem? ==> r.alter == st.alter
    ensures loc.Global? ==> r.semAlter == st.semAlter
  {
    var e := AlterList(st, loc)[i];
    UnlinkGood(st, loc, i);
    AlterCanEval(st, loc);
    assert CanEval(st.store, e);
    Logged(Effect(Unlink(st, loc, i), e), Wake(e, Status(st.store, e)))
  }

  ghost function WakePrepared(st: State, q: Entry, error: int): State {
    st.(woken := st.woken + [Wake(q, error)])
  }

  lemma CompleteIs(st: State, loc: Loc, i: nat)
    requires Good(st) && HasLoc(st, loc) && i < |AlterList(st, loc)|
    requires CanEval(st.store, AlterList(st, loc)[i])
    ensures var q := AlterList(st, loc)[i];
            var u := Unlink(st, loc, i).(store := Next(st.store, q));
            && Good(u)
            && (Status(st.store, q) == 0 ==> Complete(st, loc, i) == WakePrepared(WakeZero(u, Nums(q.sops)), q, 0))
            && (Status(st.store, q) != 0 ==> Complete(st, loc, i) == WakePrepared(u, q, Status(st.store, q)))
  {
    UnlinkGood(st, loc, i);
    NextGood(Unlink(st, loc, i), AlterList(st, loc)[i]);
  }

  /** The naive rule: as long as some queued call need not sleep, complete the
      first such call and look again from the head. */
  ghost function Drain(st: State, loc: Loc): (r: State)
    requires Good(st) && HasLoc(st, loc)
    ensures Good(r) && |r.store.vals| == |st.store.vals| && r.store.undos.Keys == st.store.undos.Keys
    ensures HasLoc(r, loc) && AllCanEval(r.store, AlterList(r, loc))
    ensures forall e | e in AlterList(r, loc) :: !Ready(r.store, e)
    ensures loc.Sem? ==> r.alter == st.alter
    ensures loc.Global? ==> r.semAlter == st.semAlter
    decreases |AlterList(st, loc)|
  {
    AlterCanEval(st, loc);
    var es := AlterList(st, loc);
    var i := FirstReady(Verdict(st.store), es);
    if i < |es| then Drain(Complete(st, loc, i), loc) else st
  }

  ghost function DrainSems(st: State, nums: seq<nat>): (r: State)
    requires Good(st) && Within(nums, |st.store.vals|)
    ensures Good(r) && |r.store.vals| == |st.store.vals| && r.store.undos.Keys == st.store.undos.Keys
    ensures r.alter == st.alter
  {
    if nums == [] then st
    else Drain(DrainSems(st, nums[..|nums| - 1]), Sem(nums[|nums| - 1]))
  }

  function Raised(sops: seq<Sembuf>): (r: seq<nat>)
    ensures forall k | 0 <= k < |r| :: exists s | s in sops :: s.num == r[k] && s.op > 0
    ensures forall s | s in sops && s.op > 0 :: s.num in r
  {
    if sops == [] then []
    else
      var s := sops[|sops| - 1];
      Raised(sops[..|sops| - 1]) + (if s.op > 0 then [s.num] else [])
  }

  ghost predicate SopsFit(n: nat, sops: Option<seq<Sembuf>>) {
    sops.Some? ==> forall s | s in sops.value :: s.num < n
  }

  function ChangedNums(n: nat, sops: Option<seq<Sembuf>>): (r: seq<nat>)
    requires SopsFit(n, sops)
    ensures Within(r, n)
  {
    if sops.None? then AllNums(n) else Nums(sops.value)
  }

  function RaisedNums(n: nat, sops: Option<seq<Sembuf>>): (r: seq<nat>)
    requires SopsFit(n, sops)
    ensures Within(r, n)
  {
    if sops.None? then AllNums(n) else Raised(sops.value)
  }

  /** do_smart_update: sops is None when the changed semaphores are not known. */
  ghost function SmartUpdate(st: State, sops: Option<seq<Sembuf>>): (r: State)
    requires Good(st) && SopsFit(|st.store.vals|, sops)
    ensures Good(r) && |r.store.vals| == |st.store.vals| && r.store.undos.Keys == st.store.undos.Keys
  {
    var s := WakeZero(st, ChangedNums(|st.store.vals|, sops));
    if s.alter != [] then Drain(s, Global) else DrainSems(s, RaisedNums(|st.store.vals|, sops))
  }

  lemma DrainSemsStep(st: State, nums: seq<nat>, i: nat)
    requires Good(st) && Within(nums, |st.store.vals|) && i < |nums|
    ensures DrainSems(st, nums[..i + 1]) == Drain(DrainSems(st, nums[..i]), Sem(nums[i]))
  {
    assert nums[..i + 1][..i] == nums[..i];
  }

  lemma DrainSemsNone(st: State)
    requires Good(st)
    ensures DrainSems(st, []) == st
  {
  }

  lemma RaisedNone()
    ensures Raised([]) == []
  {
  }

  lemma RaisedStep(sops: seq<Sembuf>, i: nat)
    requires i < |sops|
    ensures sops[i].op > 0 ==> Raised(sops[..i + 1]) == Raised(sops[..i]) + [sops[i].num]
    ensures sops[i].op <= 0 ==> Raised(sops[..i + 1]) == Raised(sops[..i])
  {
    assert sops[..i + 1][..i] == sops[..i];
  }

  lemma DrainSemsAppend(st: State, nums: seq<nat>, n: nat)
    requires Good(st) && Within(nums, |st.store.vals|) && n < |st.store.vals|
    ensures DrainSems(st, nums + [n]) == Drain(DrainSems(st, nums), Sem(n))
  {
    assert (nums + [n])[..|nums|] == nums;
  }

  lemma SmartUpdateIs(st: State, sops: Option<seq<Sembuf>>)
    requires Good(st) && SopsFit(|st.store.vals|, sops)
    ensures var s := WakeZero(st, ChangedNums(|st.store.vals|, sops));
            SmartUpdate(st, sops) ==
            if s.alter != [] then Drain(s, Global) else DrainSems(s, RaisedNums(|st.store.vals|, sops))
  {
  }

  // ---------- IPC_RMID ----------

  function Failed(es: seq<Entry>): (r: seq<Wake>)
    ensures |r| == |es| && forall k | 0 <= k < |es| :: r[k] == Wake(es[k], -EIDRM)
  {
    seq(|es|, k requires 0 <= k < |es| => Wake(es[k], -EIDRM))
  }

  function FailedSems(consts: seq<seq<Entry>>, alters: seq<seq<Entry>>, n: nat): seq<Wake>
    requires n <= |consts| && n <= |alters|
  {
    if n == 0 then []
    else FailedSems(consts, alters, n - 1) + Failed(consts[n - 1]) + Failed(alters[n - 1])
  }

  /** Everybody asleep on the set, in the order freeary wakes them. */
  ghost function FailedAll(st: State): seq<Wake>
    requires |st.semAlter| == |st.semConst|
  {
    Failed(st.consts) + Failed(st.alter) + FailedSems(st.semConst, st.semAlter, |st.semAlter|)
  }

  /** The set freeary leaves behind */
  ghost function Removed(st: State): (r: State)
    requires |st.semAlter| == |st.semConst|
    ensures |r.semAlter| == |r.semConst| == |st.semAlter|
  {
    State(Store(st.store.vals, map[]), seq(|st.semAlter|, _ => []), seq(|st.semAlter|, _ => []), [], [], 0,
          st.woken + FailedAll(st))
  }
}
