/**
 What a section run under sem_lock() does around its body: merging and unmerging the
 queues, queueing a call that must sleep, the choice of the lock and its countdown. Each
 keeps the set well-formed with nobody asleep who could proceed.
 */
module SemCalls {
  import opened Options
  import opened SemOps
  import opened SemEval
  import opened SemSet
  import opened SemWakeup

  const USE_GLOBAL_LOCK_HYSTERESIS: nat := 10

  /** A set with its use_global_lock counter, between two sections. */
  datatype Full = Full(st: State, lock: nat)

  ghost predicate Inv(f: Full) {
    && Good(f.st) && Quiet(f.st)
    && (f.st.complex == 0 ==> f.st.alter == [])
    && (f.st.complex > 0 ==> f.lock > 0)
    && f.lock <= USE_GLOBAL_LOCK_HYSTERESIS
  }

  // ---------- Merging and unmerging the queues ----------

  /** merge_queues splices semaphore 0, 1, ... one after the other to the head of the global queue. */
  function Spliced(qs: seq<seq<Entry>>, k: nat): seq<Entry>
    requires k <= |qs|
  {
    if k == 0 then [] else qs[k - 1] + Spliced(qs, k - 1)
  }

  function Emptied(qs: seq<seq<Entry>>, k: nat): (r: seq<seq<Entry>>)
    requires k <= |qs|
    ensures |r| == |qs|
    ensures forall i | 0 <= i < |qs| :: r[i] == if i < k then [] else qs[i]
  {
    seq(|qs|, i requires 0 <= i < |qs| => if i < k then [] else qs[i])
  }

  ghost function Merge(st: State): State {
    st.(alter := Spliced(st.semAlter, |st.semAlter|) + st.alter, semAlter := Emptied(st.semAlter, |st.semAlter|))
  }

  predicate Placeable(n: nat, es: seq<Entry>) {
    forall k | 0 <= k < |es| :: es[k].sops != [] && es[k].sops[0].num < n
  }

  /** unmerge_queues appends each call, in order, to the queue of its first semaphore. */
  function Distribute(qs: seq<seq<Entry>>, es: seq<Entry>): (r: seq<seq<Entry>>)
    requires Placeable(|qs|, es)
    ensures |r| == |qs|
  {
    if es == [] then qs
    else
      var e := es[|es| - 1];
      var d := Distribute(qs, es[..|es| - 1]);
      d[e.sops[0].num := d[e.sops[0].num] + [e]]
  }

  ghost function Unmerge(st: State): State
    requires Placeable(|st.semAlter|, st.alter)
  {
    if st.complex != 0 then st else st.(semAlter := Distribute(st.semAlter, st.alter), alter := [])
  }

  /** The calls of a queue that wait on semaphore i, in order. */
  function WaitingOn(es: seq<Entry>, i: nat): seq<Entry> {
    if es == [] then []
    else WaitingOn(es[..|es| - 1], i) + (if Names(es[|es| - 1], i) then [es[|es| - 1]] else [])
  }

  lemma {:induction false} WaitingOnIn(es: seq<Entry>, i: nat)
    ensures forall e | e in WaitingOn(es, i) :: e in es && Names(e, i)
  {
    if es != [] {
      WaitingOnIn(es[..|es| - 1], i);
    }
  }

  predicate Names(e: Entry, i: nat) {
    e.sops != [] && e.sops[0].num == i
  }

  lemma {:induction false} DistributeAt(qs: seq<seq<Entry>>, es: seq<Entry>, i: nat)
    requires Placeable(|qs|, es) && i < |qs|
    ensures Distribute(qs, es)[i] == qs[i] + WaitingOn(es, i)
  {
    if es != [] {
      DistributeAt(qs, es[..|es| - 1], i);
    }
  }

  lemma {:induction false} WaitingOnConcat(a: seq<Entry>, b: seq<Entry>, i: nat)
    ensures WaitingOn(a + b, i) == WaitingOn(a, i) + WaitingOn(b, i)
  {
    if b == [] {
      assert a + b == a;
    } else {
      var init := b[..|b| - 1];
      assert (a + b)[..|a + b| - 1] == a + init;
      WaitingOnConcat(a, init, i);
    }
  }

  ghost predicate Owned(es: seq<Entry>, j: nat) {
    forall k | 0 <= k < |es| :: Names(es[k], j)
  }

  ghost predicate OwnQueues(qs: seq<seq<Entry>>) {
    forall j | 0 <= j < |qs| :: Owned(qs[j], j)
  }

  lemma {:induction false} WaitingOnOwn(es: seq<Entry>, j: nat, i: nat)
    requires Owned(es, j)
    ensures WaitingOn(es, i) == if i == j then es else []
  {
    if es != [] {
      assert Names(es[|es| - 1], j);
      WaitingOnOwn(es[..|es| - 1], j, i);
    }
  }

  lemma WaitingOnNone(i: nat)
    ensures WaitingOn([], i) == []
  {
  }

  lemma {:induction false} WaitingOnSpliced(qs: seq<seq<Entry>>, k: nat, i: nat)
    requires OwnQueues(qs) && k <= |qs|
    ensures WaitingOn(Spliced(qs, k), i) == if i < k then qs[i] else []
  {
    hide WaitingOn, Owned;
    if k == 0 {
      WaitingOnNone(i);
    } else {
      WaitingOnSpliced(qs, k - 1, i);
      WaitingOnOwn(qs[k - 1], k - 1, i);
      WaitingOnConcat(qs[k - 1], Spliced(qs, k - 1), i);
    }
  }

  lemma {:induction false} SplicedPlaceable(qs: seq<seq<Entry>>, k: nat)
    requires OwnQueues(qs) && k <= |qs|
    ensures Placeable(k, Spliced(qs, k))
  {
    if k > 0 {
      SplicedPlaceable(qs, k - 1);
      assert Owned(qs[k - 1], k - 1);
    }
  }

  /** In the merged queue the waiters of a later semaphore come before those of an earlier one. */
  lemma {:induction false} SplicedDescends(qs: seq<seq<Entry>>, n: nat, j: nat, k: nat)
    requires OwnQueues(qs) && n <= |qs| && j < k < |Spliced(qs, n)|
    ensures var m := Spliced(qs, n);
            && m[j].sops != [] && m[k].sops != []
            && n > m[j].sops[0].num >= m[k].sops[0].num
  {
    var a, rest := qs[n - 1], Spliced(qs, n - 1);
    assert Owned(a, n - 1);
    if k >= |a| {
      SplicedPlaceable(qs, n - 1);
      if j >= |a| {
        SplicedDescends(qs, n - 1, j - |a|, k - |a|);
      } else {
        assert Names(a[j], n - 1);
        assert Spliced(qs, n)[k] == rest[k - |a|];
      }
    } else {
      assert Names(a[j], n - 1) && Names(a[k], n - 1);
    }
  }

  /** Merging and then unmerging gives every semaphore back its own waiters, in
      their original order. */
  lemma UnmergeMerge(st: State)
    requires Good(st) && st.complex == 0 && st.alter == []
    ensures Placeable(|st.semAlter|, Merge(st).alter)
    ensures Unmerge(Merge(st)) == st
  {
    var qs := st.semAlter;
    var n := |qs|;
    SemAlterOwn(st);
    SplicedPlaceable(qs, n);
    var m := Merge(st);
    assert m.alter == Spliced(qs, n);
    forall i | 0 <= i < n
      ensures Unmerge(m).semAlter[i] == qs[i]
    {
      DistributeAt(m.semAlter, m.alter, i);
      WaitingOnSpliced(qs, n, i);
    }
    assert Unmerge(m).semAlter == qs;
  }

  /** Calls that were queued on a semaphore keep their order even when other calls
      were added or removed in between: unmerging hands out the global queue stably. */
  lemma UnmergeStable(st: State, i: nat)
    requires Placeable(|st.semAlter|, st.alter) && i < |st.semAlter| && st.complex == 0
    ensures Unmerge(st).semAlter[i] == st.semAlter[i] + WaitingOn(st.alter, i)
  {
    DistributeAt(st.semAlter, st.alter, i);
  }

  lemma SemAlterOwn(st: State)
    requires Good(st)
    ensures OwnQueues(st.semAlter)
  {
    forall j, k | 0 <= j < |st.semAlter| && 0 <= k < |st.semAlter[j]|
      ensures Names(st.semAlter[j][k], j)
    {
      assert SemAlterOk(|st.store.vals|, st.store.undos.Keys, j, st.semAlter[j]);
      assert st.semAlter[j][k] in st.semAlter[j];
    }
  }

  lemma {:induction false} MultiZero(es: seq<Entry>)
    ensures Multi(es) == 0 <==> forall e | e in es :: |e.sops| <= 1
  {
    if es != [] {
      MultiZero(es[..|es| - 1]);
      assert es == es[..|es| - 1] + [es[|es| - 1]];
    }
  }

  lemma GoodPlaceable(st: State)
    requires Good(st)
    ensures Placeable(|st.semAlter|, st.alter)
  {
    forall k | 0 <= k < |st.alter|
      ensures st.alter[k].sops != [] && st.alter[k].sops[0].num < |st.semAlter|
    {
      assert st.alter[k] in st.alter;
      assert st.alter[k].sops[0] in st.alter[k].sops;
    }
  }

  // ---------- Unmerging keeps the set good and quiet ----------

  /** A call that must sleep and names one semaphore is a plain decrement that is too large. */
  lemma SleeperIsDecrement(s: Store, e: Entry)
    requires CanEval(s, e) && |e.sops| == 1 && !AllZeroOps(e.sops) && Status(s, e) == 1
    ensures Simple(e, e.sops[0].num) && e.sops[0].num < |s.vals|
    ensures e.sops[0].op < 0 && s.vals[e.sops[0].num] + e.sops[0].op < 0
  {
    var b := e.sops[0];
    assert b in e.sops;
    ExecOne(MemFor(s, e), e.sops);
  }

  lemma MultiConsts(st: State)
    requires Good(st)
    ensures st.consts != [] ==> Multi(st.consts) > 0
  {
    if st.consts != [] {
      assert st.consts[|st.consts| - 1] in st.consts;
    }
  }

  lemma NoConsts(st: State)
    requires Good(st) && st.complex == 0
    ensures st.consts == []
  {
    MultiConsts(st);
  }

  lemma UnmergeInv(st: State)
    requires Good(st) && Quiet(st)
    ensures Placeable(|st.semAlter|, st.alter)
    ensures Good(Unmerge(st)) && Quiet(Unmerge(st))
    ensures Unmerge(st).complex == st.complex && Unmerge(st).store == st.store
    ensures Unmerge(st).complex == 0 ==> Unmerge(st).alter == []
  {
    GoodPlaceable(st);
    if st.complex == 0 {
      MultiZero(st.alter);
      NoConsts(st);
      QuietNobodyLost(st);
      var u := Unmerge(st);
      forall i | 0 <= i < |st.store.vals|
        ensures SemAlterOk(|st.store.vals|, st.store.undos.Keys, i, u.semAlter[i])
        ensures forall e | e in u.semAlter[i] :: st.store.vals[i] + e.sops[0].op < 0
      {
        UnmergeStable(st, i);
        assert SemAlterOk(|st.store.vals|, st.store.undos.Keys, i, st.semAlter[i]);
        assert SemQuiet(st, i);
        WaitingOnIn(st.alter, i);
        forall e | e in WaitingOn(st.alter, i)
          ensures EntryFits(|st.store.vals|, st.store.undos.Keys, e) && Simple(e, i)
          ensures e.sops[0].op < 0 && st.store.vals[i] + e.sops[0].op < 0
        {
          assert e in st.alter;
          SleeperIsDecrement(st.store, e);
        }
      }
      assert Good(u);
      assert forall i | 0 <= i < |u.store.vals| :: SemQuiet(u, i);
    }
  }

  // ---------- Sections ----------

  /** sem_lock: a call with one operation keeps per-semaphore locking if no
      complex call is around; anything else (and nsops == -1) enters complex mode. */
  ghost predicate TakesGlobal(f: Full, nsops: int) {
    nsops != 1 || f.lock > 0
  }

  ghost function Enter(f: Full, nsops: int): Full {
    if nsops != 1 then f.(lock := USE_GLOBAL_LOCK_HYSTERESIS) else f
  }

  /** sem_unlock: unmerge_queues and complexmode_tryleave under the global lock,
      nothing under a per-semaphore lock. */
  ghost function Leave(f: Full, global: bool): Full
    requires global ==> Placeable(|f.st.semAlter|, f.st.alter)
    requires global && f.st.complex == 0 ==> f.lock > 0
  {
    if !global then f
    else
      var u := Unmerge(f.st);
      Full(u, if u.complex != 0 then f.lock else f.lock - 1)
  }

  /** What any section body must establish before it unlocks. */
  lemma LeaveInv(f: Full, nsops: int, body: State)
    requires Inv(f) && Good(body) && Quiet(body)
    requires TakesGlobal(f, nsops) || (body.complex == 0 && body.alter == [])
    ensures var e := Enter(f, nsops);
            && (TakesGlobal(f, nsops) ==> Placeable(|body.semAlter|, body.alter) && e.lock > 0)
            && Inv(Leave(Full(body, e.lock), TakesGlobal(f, nsops)))
            && Leave(Full(body, e.lock), TakesGlobal(f, nsops)).st.store == body.store
  {
    if TakesGlobal(f, nsops) {
      UnmergeInv(body);
    }
  }

  /** A global section that changes nothing */
  lemma LeaveSame(f: Full)
    requires Inv(f)
    ensures var e := Enter(f, -1);
            && TakesGlobal(f, -1) && Placeable(|f.st.semAlter|, f.st.alter) && e.st == f.st && e.lock > 0
            && Inv(Leave(e, true)) && Leave(e, true).st == f.st
  {
    LeaveInv(f, -1, f.st);
    UnmergeIdle(f.st);
  }

  lemma UnmergeIdle(st: State)
    requires Good(st) && Quiet(st) && (st.complex == 0 ==> st.alter == [])
    ensures Placeable(|st.semAlter|, st.alter) && Unmerge(st) == st
  {
    UnmergeInv(st);
    if st.complex == 0 {
      assert Unmerge(st).semAlter == st.semAlter;
    }
  }

  ghost function Section(f: Full, nsops: int, body: State): (r: Full)
    requires Inv(f) && Good(body) && Quiet(body)
    requires TakesGlobal(f, nsops) || (body.complex == 0 && body.alter == [])
    ensures Inv(r) && r.st.store == body.store
  {
    LeaveInv(f, nsops, body);
    Leave(Full(body, Enter(f, nsops).lock), TakesGlobal(f, nsops))
  }

  // ---------- Queueing a call that must sleep ----------

  ghost function Enqueue(st: State, e: Entry): State
    requires Good(st) && CanEval(st.store, e)
  {
    var i := assert e.sops[0] in e.sops; e.sops[0].num;
    if |e.sops| == 1 then
      if AllZeroOps(e.sops) then st.(semConst := st.semConst[i := st.semConst[i] + [e]])
      else if st.complex != 0 then st.(alter := st.alter + [e])
      else st.(semAlter := st.semAlter[i := st.semAlter[i] + [e]])
    else
      var m := if st.complex == 0 then Merge(st) else st;
      if AllZeroOps(e.sops) then m.(consts := m.consts + [e], complex := m.complex + 1)
      else m.(alter := m.alter + [e], complex := m.complex + 1)
  }

  lemma {:induction false} SplicedFrom(qs: seq<seq<Entry>>, k: nat)
    requires k <= |qs|
    ensures forall e | e in Spliced(qs, k) :: exists i | 0 <= i < k :: e in qs[i]
  {
    if k > 0 {
      SplicedFrom(qs, k - 1);
    }
  }

  lemma MergeInv(st: State)
    requires Good(st) && Quiet(st) && st.complex == 0 && st.alter == []
    ensures Good(Merge(st)) && Quiet(Merge(st)) && NoSemAlter(Merge(st))
  {
    var m := Merge(st);
    SplicedFrom(st.semAlter, |st.semAlter|);
    QuietNobodyLost(st);
    forall e | e in m.alter
      ensures EntryFits(|st.store.vals|, st.store.undos.Keys, e) && !AllZeroOps(e.sops) && |e.sops| <= 1
      ensures CanEval(st.store, e) && !Ready(st.store, e)
    {
      var i :| 0 <= i < |st.semAlter| && e in st.semAlter[i];
      assert SemAlterOk(|st.store.vals|, st.store.undos.Keys, i, st.semAlter[i]);
    }
    MultiZero(m.alter);
    MultiZero(st.consts);
    assert Good(m);
  }

  lemma EnqueueConstInv(st: State, e: Entry)
    requires Good(st) && Quiet(st)
    requires CanEval(st.store, e) && Status(st.store, e) == 1 && |e.sops| == 1 && AllZeroOps(e.sops)
    ensures Good(Enqueue(st, e)) && Quiet(Enqueue(st, e))
  {
    var b := e.sops[0];
    assert b in e.sops;
    var r := Enqueue(st, e);
    ExecOne(MemFor(st.store, e), e.sops);
    assert SemConstOk(|st.store.vals|, st.store.undos.Keys, b.num, st.semConst[b.num]);
    assert SemConstOk(|st.store.vals|, st.store.undos.Keys, b.num, r.semConst[b.num]);
    assert Good(r);
    assert forall i | 0 <= i < |st.store.vals| :: SemQuiet(st, i) ==> SemQuiet(r, i);
  }

  lemma EnqueueDecrementInv(st: State, e: Entry)
    requires Good(st) && Quiet(st) && st.complex == 0 && st.alter == []
    requires CanEval(st.store, e) && Status(st.store, e) == 1 && |e.sops| == 1 && !AllZeroOps(e.sops)
    ensures Good(Enqueue(st, e)) && Quiet(Enqueue(st, e))
  {
    var i := e.sops[0].num;
    SleeperIsDecrement(st.store, e);
    NoConsts(st);
    var r := Enqueue(st, e);
    assert SemAlterOk(|st.store.vals|, st.store.undos.Keys, i, st.semAlter[i]);
    assert SemAlterOk(|st.store.vals|, st.store.undos.Keys, i, r.semAlter[i]);
    assert Good(r);
    assert SemQuiet(st, i);
    assert forall j | 0 <= j < |st.store.vals| :: SemQuiet(st, j) ==> SemQuiet(r, j);
  }

  lemma MultiAppend(es: seq<Entry>, e: Entry)
    ensures Multi(es + [e]) == Multi(es) + if |e.sops| > 1 then 1 else 0
  {
    assert (es + [e])[..|es|] == es;
  }

  lemma AppendConstsInv(m: State, e: Entry)
    requires Good(m) && Quiet(m) && NoSemAlter(m)
    requires CanEval(m.store, e) && Status(m.store, e) == 1
    requires AllZeroOps(e.sops) && |e.sops| > 1
    ensures var r := m.(consts := m.consts + [e], complex := m.complex + 1); Good(r) && Quiet(r)
  {
    hide Status, CanEval, Eval, EntryFits, SemAlterOk, SemConstOk, AllZeroOps;
    MultiAppend(m.consts, e);
    ConstReady(m.store, e);
    CanEvalFits(m.store, e);
    var r := m.(consts := m.consts + [e], complex := m.complex + 1);
    assert ConstsOk(|m.store.vals|, m.store.undos.Keys, r.consts);
    assert Good(r);
    assert forall j | 0 <= j < |m.store.vals| :: SemQuiet(m, j) ==> SemQuiet(r, j);
  }

  lemma CanEvalFits(s: Store, e: Entry)
    requires CanEval(s, e)
    ensures EntryFits(|s.vals|, s.undos.Keys, e)
  {
  }

  lemma AppendAlterInv(m: State, e: Entry)
    requires Good(m) && Quiet(m) && NoSemAlter(m)
    requires CanEval(m.store, e) && Status(m.store, e) == 1
    requires !AllZeroOps(e.sops)
    ensures var r := m.(alter := m.alter + [e], complex := m.complex + if |e.sops| > 1 then 1 else 0);
            Good(r) && Quiet(r)
  {
    hide Status, CanEval, SemAlterOk, SemConstOk, AllZeroOps, Multi;
    MultiAppend(m.alter, e);
    CanEvalFits(m.store, e);
    var r := m.(alter := m.alter + [e], complex := m.complex + if |e.sops| > 1 then 1 else 0);
    assert AlterOk(|m.store.vals|, m.store.undos.Keys, r.alter);
    assert Good(r);
    assert forall j | 0 <= j < |m.store.vals| :: SemQuiet(m, j) ==> SemQuiet(r, j);
  }

  /** A call appended to a global queue of a set whose per-semaphore queues of
      changes are empty. */
  lemma AppendGlobalInv(m: State, e: Entry)
    requires Good(m) && Quiet(m) && NoSemAlter(m)
    requires CanEval(m.store, e) && Status(m.store, e) == 1
    requires AllZeroOps(e.sops) ==> |e.sops| > 1
    ensures var c := m.complex + if |e.sops| > 1 then 1 else 0;
            var r := if AllZeroOps(e.sops) then m.(consts := m.consts + [e], complex := c)
                     else m.(alter := m.alter + [e], complex := c);
            Good(r) && Quiet(r)
  {
    if AllZeroOps(e.sops) {
      AppendConstsInv(m, e);
    } else {
      AppendAlterInv(m, e);
    }
  }

  lemma ComplexNoSemAlter(st: State)
    requires Good(st) && st.complex != 0
    ensures NoSemAlter(st)
  {
    MultiZero(st.alter);
    MultiZero(st.consts);
  }

  /** A call that must sleep is queued without waking anyone and without anyone
      being left behind. */
  lemma EnqueueInv(st: State, e: Entry)
    requires Good(st) && Quiet(st) && (st.complex == 0 ==> st.alter == [])
    requires CanEval(st.store, e) && Status(st.store, e) == 1
    ensures Good(Enqueue(st, e)) && Quiet(Enqueue(st, e))
  {
    hide Good, Quiet, Status, CanEval, AllZeroOps, Enqueue;
    if |e.sops| == 1 && AllZeroOps(e.sops) {
      EnqueueConstInv(st, e);
    } else if |e.sops| == 1 && st.complex == 0 {
      EnqueueDecrementInv(st, e);
    } else {
      EnqueueComplexInv(st, e);
    }
  }

  lemma EnqueueComplexInv(st: State, e: Entry)
    requires Good(st) && Quiet(st) && (st.complex == 0 ==> st.alter == [])
    requires CanEval(st.store, e) && Status(st.store, e) == 1
    requires |e.sops| == 1 ==> !AllZeroOps(e.sops) && st.complex != 0
    ensures Good(Enqueue(st, e)) && Quiet(Enqueue(st, e))
  {
    hide Good, Quiet, Status, CanEval, AllZeroOps, Merge, NoSemAlter;
    HasSops(st.store, e);
    if st.complex == 0 {
      MergeInv(st);
      MergeCounts(st);
      AppendGlobalInv(Merge(st), e);
    } else {
      ComplexNoSemAlter(st);
      AppendGlobalInv(st, e);
    }
  }

  lemma HasSops(s: Store, e: Entry)
    requires CanEval(s, e)
    ensures e.sops != []
  {
  }

  lemma MergeCounts(st: State)
    ensures Merge(st).complex == st.complex && Merge(st).store == st.store
  {
  }
}
