/**
 One semop() call evaluated against the values of a semaphore set: the
 sequential meaning of a vector of operations, and the two in-place
 evaluators of ipc/sem.c, perform_atomic_semop_slow (one pass, with a reverse
 undo loop) and perform_atomic_semop (two passes, no writes before success).
 */
module SemOps {

  const SEMVMX: int := 32767
  const SEMAEM: int := SEMVMX
  const EAGAIN: int := 11
  const ERANGE: int := 34

  /** struct sembuf, with SEM_UNDO and IPC_NOWAIT decoded from sem_flg. */
  datatype Sembuf = Sembuf(num: nat, op: int, undo: bool, nowait: bool)

  /** The semvals of a set and one task's semadj row ([] when undo is NULL). */
  datatype Mem = Mem(vals: seq<int>, adj: seq<int>)

  datatype Outcome = Done(mem: Mem) | Blocked(at: nat) | OutOfRange

  ghost predicate Fits(m: Mem, sops: seq<Sembuf>) {
    forall s | s in sops :: s.num < |m.vals| && (s.undo ==> s.num < |m.adj|)
  }

  ghost predicate ValsInRange(vals: seq<int>) {
    forall i | 0 <= i < |vals| :: 0 <= vals[i] <= SEMVMX
  }

  ghost predicate AdjInRange(adj: seq<int>) {
    forall i | 0 <= i < |adj| :: -SEMAEM - 1 <= adj[i] <= SEMAEM
  }

  // ---------- Sequential meaning ----------

  predicate MustWait(v: int, s: Sembuf) {
    (s.op == 0 && v != 0) || v + s.op < 0
  }

  predicate Exceeds(v: int, adj: seq<int>, s: Sembuf)
    requires s.undo ==> s.num < |adj|
  {
    || v + s.op > SEMVMX
    || (s.undo && (adj[s.num] - s.op < -SEMAEM - 1 || adj[s.num] - s.op > SEMAEM))
  }

  function Bump(m: Mem, s: Sembuf): Mem
    requires s.num < |m.vals| && (s.undo ==> s.num < |m.adj|)
  {
    Mem(m.vals[s.num := m.vals[s.num] + s.op],
        if s.undo then m.adj[s.num := m.adj[s.num] - s.op] else m.adj)
  }

  /** The operations from index k on, performed one after the other. */
  ghost function Exec(m: Mem, sops: seq<Sembuf>, k: nat): Outcome
    requires Fits(m, sops) && k <= |sops|
    decreases |sops| - k
  {
    if k == |sops| then Done(m)
    else
      var s := sops[k];
      if MustWait(m.vals[s.num], s) then Blocked(k)
      else if Exceeds(m.vals[s.num], m.adj, s) then OutOfRange
      else Exec(Bump(m, s), sops, k + 1)
  }

  /** What semop() reports: 0, 1 (the caller must sleep) or a negative errno. */
  ghost function Code(o: Outcome, sops: seq<Sembuf>): int
    requires o.Blocked? ==> o.at < |sops|
  {
    match o
    case Done(_) => 0
    case Blocked(k) => if sops[k].nowait then -EAGAIN else 1
    case OutOfRange => -ERANGE
  }

  lemma {:induction false} ExecShape(m: Mem, sops: seq<Sembuf>, k: nat)
    requires Fits(m, sops) && k <= |sops|
    ensures var o := Exec(m, sops, k);
            && (o.Blocked? ==> k <= o.at < |sops|)
            && (o.Done? ==> |o.mem.vals| == |m.vals| && |o.mem.adj| == |m.adj|)
    decreases |sops| - k
  {
    if k < |sops| {
      var s := sops[k];
      if !MustWait(m.vals[s.num], s) && !Exceeds(m.vals[s.num], m.adj, s) {
        ExecShape(Bump(m, s), sops, k + 1);
      }
    }
  }

  /** A completed call keeps every semval and every semadj inside its bounds. */
  lemma {:induction false} ExecBounds(m: Mem, sops: seq<Sembuf>, k: nat)
    requires Fits(m, sops) && k <= |sops|
    requires ValsInRange(m.vals) && AdjInRange(m.adj)
    ensures var o := Exec(m, sops, k);
            o.Done? ==> ValsInRange(o.mem.vals) && AdjInRange(o.mem.adj)
    decreases |sops| - k
  {
    if k < |sops| {
      var s := sops[k];
      if !MustWait(m.vals[s.num], s) && !Exceeds(m.vals[s.num], m.adj, s) {
        ExecBounds(Bump(m, s), sops, k + 1);
      }
    }
  }

  // ---------- What one call does to one semaphore ----------

  /** Net change of semaphore i by the operations k.. of one call, counting all
      of them or only those without SEM_UNDO. */
  function Net(sops: seq<Sembuf>, k: nat, i: nat, onlyPlain: bool): int
    requires k <= |sops|
    decreases |sops| - k
  {
    if k == |sops| then 0
    else
      (if sops[k].num == i && !(onlyPlain && sops[k].undo) then sops[k].op else 0) + Net(sops, k + 1, i, onlyPlain)
  }

  /** A completed call moves each semval by the sum of its operations, and
      semval + semadj by the sum of the operations without SEM_UNDO. */
  lemma {:induction false} ExecNet(m: Mem, sops: seq<Sembuf>, k: nat, i: nat)
    requires Fits(m, sops) && k <= |sops| && i < |m.vals|
    requires Exec(m, sops, k).Done?
    ensures var m' := Exec(m, sops, k).mem;
            && |m'.vals| == |m.vals| && |m'.adj| == |m.adj|
            && m'.vals[i] == m.vals[i] + Net(sops, k, i, false)
            && (i < |m.adj| ==> m'.vals[i] + m'.adj[i] == m.vals[i] + m.adj[i] + Net(sops, k, i, true))
            && (i >= |m.adj| ==> Net(sops, k, i, false) == Net(sops, k, i, true))
    decreases |sops| - k
  {
    if k < |sops| {
      assert sops[k] in sops;
      ExecNet(Bump(m, sops[k]), sops, k + 1, i);
    }
  }

  ghost predicate AllZeroOps(sops: seq<Sembuf>) {
    forall k | 0 <= k < |sops| :: sops[k].op == 0
  }

  ghost predicate AllZeroVals(vals: seq<int>, sops: seq<Sembuf>)
    requires forall s | s in sops :: s.num < |vals|
  {
    forall k | 0 <= k < |sops| :: vals[sops[k].num] == 0
  }

  /** A wait-for-zero call completes exactly when every semaphore it names is
      zero, and completing it changes nothing. */
  lemma {:induction false} ExecZeroOps(m: Mem, sops: seq<Sembuf>, k: nat)
    requires Fits(m, sops) && k <= |sops| && AllZeroOps(sops)
    requires ValsInRange(m.vals) && AdjInRange(m.adj)
    ensures var o := Exec(m, sops, k);
            && (o.Done? <==> forall j | k <= j < |sops| :: m.vals[sops[j].num] == 0)
            && (o.Done? ==> o.mem == m)
            && !o.OutOfRange?
    decreases |sops| - k
  {
    if k < |sops| {
      var s := sops[k];
      assert Bump(m, s) == m;
      if !MustWait(m.vals[s.num], s) {
        ExecZeroOps(m, sops, k + 1);
      }
    }
  }

  // ---------- dupsop ----------

  /** No operation names a semaphore that an earlier operation of the call changes. */
  ghost predicate NoDup(sops: seq<Sembuf>) {
    forall j, k | 0 <= j < k < |sops| :: sops[j].op != 0 ==> sops[j].num != sops[k].num
  }

  /** sem_num % BITS_PER_LONG, the bit of the dup mask a semaphore number maps to. */
  function Residue(num: nat): (r: bv7)
    ensures r < 64
  {
    (num % 64) as bv7
  }

  function Bit(r: bv7): bv64
    requires r < 64
  {
    1 << r
  }

  lemma ShiftsDisjoint(x: bv7, y: bv7)
    requires x < 64 && y < 64
    ensures (1 as bv64) << x != 0
    ensures x != y ==> ((1 as bv64) << x) & ((1 as bv64) << y) == 0
  {
  }

  lemma OrKeepsOthers(d: bv64, a: bv64, b: bv64)
    ensures a & b == 0 ==> (d | a) & b == d & b
  {
  }

  lemma OrSets(d: bv64, a: bv64, b: bv64)
    ensures a == b ==> (d | a) & b == a
  {
  }

  lemma BitSet(d: bv64, r: bv7, s: bv7)
    requires r < 64 && s < 64
    ensures (d | Bit(r)) & Bit(s) != 0 <==> (d & Bit(s) != 0 || r == s)
  {
    ShiftsDisjoint(r, s);
    OrKeepsOthers(d, Bit(r), Bit(s));
    OrSets(d, Bit(r), Bit(s));
  }

  /** Some operation before k changes a semaphore whose residue is r. */
  ghost predicate Altered(sops: seq<Sembuf>, k: nat, r: bv7)
    requires k <= |sops|
  {
    exists j | 0 <= j < k :: sops[j].op != 0 && Residue(sops[j].num) == r
  }

  predicate Marked(dup: bv64, r: bv7)
    requires r < 64
  {
    dup & Bit(r) != 0
  }

  ghost predicate IsMask(sops: seq<Sembuf>, k: nat, dup: bv64)
    requires k <= |sops|
  {
    forall r: bv7 | r < 64 :: Marked(dup, r) <==> Altered(sops, k, r)
  }

  lemma AlteredStep(sops: seq<Sembuf>, k: nat, s: bv7)
    requires k < |sops|
    ensures Altered(sops, k + 1, s) <==> Altered(sops, k, s) || (sops[k].op != 0 && s == Residue(sops[k].num))
  {
  }

  lemma MarkStep(d: bv64, r: bv7, s: bv7, write: bool)
    requires r < 64 && s < 64
    ensures Marked(if write then d | Bit(r) else d, s) <==> Marked(d, s) || (write && s == r)
  {
    BitSet(d, r, s);
  }

  lemma MaskStep(sops: seq<Sembuf>, k: nat, dup: bv64, r: bv7, dup': bv64)
    requires k < |sops| && r == Residue(sops[k].num)
    requires IsMask(sops, k, dup)
    requires forall s: bv7 | s < 64 :: Marked(dup', s) <==> Marked(dup, s) || (sops[k].op != 0 && s == r)
    ensures IsMask(sops, k + 1, dup')
  {
    forall s: bv7 | s < 64
      ensures Marked(dup', s) <==> Altered(sops, k + 1, s)
    {
      AlteredStep(sops, k, s);
    }
  }

  lemma MaskAfter(sops: seq<Sembuf>, k: nat, dup: bv64, r: bv7)
    requires k < |sops| && r == Residue(sops[k].num)
    requires IsMask(sops, k, dup)
    ensures IsMask(sops, k + 1, if sops[k].op != 0 then dup | Bit(r) else dup)
  {
    var dup' := if sops[k].op != 0 then dup | Bit(r) else dup;
    forall s: bv7 | s < 64
      ensures Marked(dup', s) <==> Marked(dup, s) || (sops[k].op != 0 && s == r)
    {
      MarkStep(dup, r, s, sops[k].op != 0);
    }
    MaskStep(sops, k, dup, r, dup');
  }

  /** Some operation appears to touch a semaphore an earlier one changes. */
  ghost predicate Clash(sops: seq<Sembuf>, n: nat)
    requires n <= |sops|
  {
    exists k | 0 <= k < n :: Altered(sops, k, Residue(sops[k].num))
  }

  lemma NoClashNoDup(sops: seq<Sembuf>)
    requires !Clash(sops, |sops|)
    ensures NoDup(sops)
  {
    forall j, k | 0 <= j < k < |sops| && sops[j].op != 0
      ensures sops[j].num != sops[k].num
    {
      assert !Altered(sops, k, Residue(sops[k].num));
    }
  }

  /** The scan of the user's operations in do_semtimedop: the largest semaphore
      number, whether undo or an update is asked for, and the dup bitmask, which
      only sees semaphore numbers modulo BITS_PER_LONG. A false dupsop therefore
      means NoDup, while a true one may be a false alarm. */
  method ScanSops(sops: seq<Sembuf>) returns (max: nat, undos: bool, alter: bool, dupsop: bool)
    ensures forall s | s in sops :: s.num <= max
    ensures max == 0 || exists s | s in sops :: s.num == max
    ensures undos <==> exists s | s in sops :: s.undo
    ensures alter <==> !AllZeroOps(sops)
    ensures dupsop <==> Clash(sops, |sops|)
    ensures !dupsop ==> NoDup(sops)
  {
    max, undos, alter, dupsop := 0, false, false, false;
    var dup: bv64 := 0;
    for k := 0 to |sops|
      invariant forall j | 0 <= j < k :: sops[j].num <= max
      invariant max == 0 || exists j | 0 <= j < k :: sops[j].num == max
      invariant undos <==> exists j | 0 <= j < k :: sops[j].undo
      invariant alter <==> exists j | 0 <= j < k :: sops[j].op != 0
      invariant IsMask(sops, k, dup)
      invariant dupsop <==> Clash(sops, k)
    {
      var sop := sops[k];
      var r := Residue(sop.num);
      ghost var before := dup;
      if sop.num >= max {
        max := sop.num;
      }
      if sop.undo {
        undos := true;
      }
      if Marked(dup, r) {
        dupsop := true;
      }
      if sop.op != 0 {
        alter := true;
        dup := dup | Bit(r);
      }
      MaskAfter(sops, k, before, r);
    }
    if !dupsop {
      NoClashNoDup(sops);
    }
  }

  // ---------- The two evaluators ----------

  function Row(a: array?<int>): seq<int>
    reads a
  {
    if a == null then [] else a[..]
  }

  /** The memory after the first k operations took effect. */
  ghost function After(m: Mem, sops: seq<Sembuf>, k: nat): (r: Mem)
    requires Fits(m, sops) && k <= |sops|
    ensures |r.vals| == |m.vals| && |r.adj| == |m.adj| && Fits(r, sops)
  {
    if k == 0 then m
    else
      assert sops[k - 1] in sops;
      Bump(After(m, sops, k - 1), sops[k - 1])
  }

  /** One operation more, seen from the memory the earlier ones leave. */
  lemma SlowStep(m0: Mem, sops: seq<Sembuf>, k: nat)
    requires Fits(m0, sops) && k <= |sops|
    ensures var m := After(m0, sops, k);
            if k == |sops| then Exec(m, sops, k) == Done(m)
            else
              var s := sops[k];
              && s in sops
              && (MustWait(m.vals[s.num], s) ==> Exec(m, sops, k) == Blocked(k))
              && (!MustWait(m.vals[s.num], s) && Exceeds(m.vals[s.num], m.adj, s) ==> Exec(m, sops, k) == OutOfRange)
              && (!MustWait(m.vals[s.num], s) && !Exceeds(m.vals[s.num], m.adj, s) ==>
                    After(m0, sops, k + 1) == Bump(m, s) && Exec(Bump(m, s), sops, k + 1) == Exec(m, sops, k))
  {
  }

  lemma AfterNone(m0: Mem, sops: seq<Sembuf>)
    requires Fits(m0, sops)
    ensures After(m0, sops, 0) == m0
  {
  }

  /** What the code checks */
  lemma Named(m: Mem, sops: seq<Sembuf>, k: nat)
    requires Fits(m, sops) && k < |sops|
    ensures var s := sops[k];
            && s.num < |m.vals| && (s.undo ==> s.num < |m.adj|)
            && (MustWait(m.vals[s.num], s) <==> (s.op == 0 && m.vals[s.num] != 0) || m.vals[s.num] + s.op < 0)
            && (Exceeds(m.vals[s.num], m.adj, s) <==>
                  || m.vals[s.num] + s.op > SEMVMX
                  || (s.undo && (m.adj[s.num] - s.op < -SEMAEM - 1 || m.adj[s.num] - s.op > SEMAEM)))
  {
    assert sops[k] in sops;
  }

  /** The undo loop: take back the first k operations, last one first. */
  method TakeBack(semval: array<int>, semadj: array?<int>, sops: seq<Sembuf>, count: nat, ghost m0: Mem)
    requires semval != semadj && count <= |sops| && Fits(m0, sops)
    requires Mem(semval[..], Row(semadj)) == After(m0, sops, count)
    modifies semval, semadj
    ensures Mem(semval[..], Row(semadj)) == m0
  {
    var k := count;
    while k > 0
      invariant 0 <= k <= |sops|
      invariant Mem(semval[..], Row(semadj)) == After(m0, sops, k)
    {
      k := k - 1;
      var sop := sops[k];
      assert sop in sops;
      ghost var before := After(m0, sops, k);
      semval[sop.num] := semval[sop.num] - sop.op;
      if sop.undo {
        semadj[sop.num] := semadj[sop.num] + sop.op;
      }
      assert semval[..] == before.vals;
      assert Row(semadj) == before.adj;
    }
  }

  /** perform_atomic_semop_slow: apply in order, and on the first operation that
      cannot proceed walk back over the ones already applied. */
  method PerformSlow(semval: array<int>, semadj: array?<int>, sops: seq<Sembuf>)
    returns (result: int, blocking: nat)
    requires semval != semadj
    requires Fits(Mem(semval[..], Row(semadj)), sops)
    modifies semval, semadj
    ensures Performed(old(Mem(semval[..], Row(semadj))), Mem(semval[..], Row(semadj)), sops, result, blocking)
    ensures Answered(old(Mem(semval[..], Row(semadj))), Mem(semval[..], Row(semadj)), sops, result, blocking)
  {
    hide Exec, After, MustWait, Exceeds, Fits, Answered;
    ghost var m0 := Mem(semval[..], Row(semadj));
    ExecShape(m0, sops, 0);
    AfterNone(m0, sops);
    blocking := 0;
    var k := 0;
    result := 0;
    while k < |sops|
      invariant 0 <= k <= |sops|
      invariant Mem(semval[..], Row(semadj)) == After(m0, sops, k)
      invariant Exec(After(m0, sops, k), sops, k) == Exec(m0, sops, 0)
      invariant result == 0
    {
      SlowStep(m0, sops, k);
      var sop := sops[k];
      ghost var before := After(m0, sops, k);
      Named(before, sops, k);
      var value := semval[sop.num];
      if (sop.op == 0 && value != 0) || value + sop.op < 0 {
        blocking := k;
        result := if sop.nowait then -EAGAIN else 1;
        break;
      }
      value := value + sop.op;
      if value > SEMVMX {
        result := -ERANGE;
        break;
      }
      if sop.undo {
        var undo := semadj[sop.num] - sop.op;
        if undo < -SEMAEM - 1 || undo > SEMAEM {
          result := -ERANGE;
          break;
        }
        semadj[sop.num] := undo;
      }
      semval[sop.num] := value;
      assert Mem(semval[..], Row(semadj)) == Bump(before, sop);
      k := k + 1;
    }
    if result != 0 {
      TakeBack(semval, semadj, sops, k, m0);
    } else {
      SlowStep(m0, sops, k);
    }
    PerformedAnswered(m0, Mem(semval[..], Row(semadj)), sops, result, blocking);
  }

  /** All-or-nothing: the result is the sequential one, and anything but 0
      leaves every semval and semadj as it was. */
  ghost predicate Performed(m: Mem, m': Mem, sops: seq<Sembuf>, result: int, blocking: nat)
    requires Fits(m, sops)
  {
    ExecShape(m, sops, 0);
    var o := Exec(m, sops, 0);
    && result == Code(o, sops)
    && (o.Done? ==> m' == o.mem)
    && (!o.Done? ==> m' == m)
    && (o.Blocked? ==> blocking == o.at)
  }

  // ---------- The answer, seen from the values at the start ----------

  /** Sum of the first k operations on semaphore i, all of them or only those with SEM_UNDO. */
  function Earlier(sops: seq<Sembuf>, k: nat, i: nat, onlyUndo: bool): int
    requires k <= |sops|
  {
    if k == 0 then 0
    else
      Earlier(sops, k - 1, i, onlyUndo)
      + if sops[k - 1].num == i && (onlyUndo ==> sops[k - 1].undo) then sops[k - 1].op else 0
  }

  /** Operation k must wait: it waits for zero and the value is not zero, or it takes more
      than there is, counted from the start and the earlier operations. */
  ghost predicate Sleeps(m: Mem, sops: seq<Sembuf>, k: nat)
    requires Fits(m, sops) && k < |sops|
  {
    var b := sops[k];
    assert b in sops;
    var v := m.vals[b.num] + Earlier(sops, k, b.num, false);
    if b.op == 0 then v != 0 else v + b.op < 0
  }

  /** Operation k brings the value, or the adjustment it asks for, out of its range. */
  ghost predicate Leaves(m: Mem, sops: seq<Sembuf>, k: nat)
    requires Fits(m, sops) && k < |sops|
  {
    var b := sops[k];
    assert b in sops;
    || m.vals[b.num] + Earlier(sops, k, b.num, false) + b.op > SEMVMX
    || (b.undo && !(-SEMAEM - 1 <= m.adj[b.num] - Earlier(sops, k, b.num, true) - b.op <= SEMAEM))
  }

  /** Operation k is the first that cannot proceed. */
  ghost predicate Stops(m: Mem, sops: seq<Sembuf>, k: nat)
    requires Fits(m, sops) && k < |sops|
  {
    && (Sleeps(m, sops, k) || Leaves(m, sops, k))
    && forall j | 0 <= j < k :: !Sleeps(m, sops, j) && !Leaves(m, sops, j)
  }

  lemma {:induction false} AfterIs(m: Mem, sops: seq<Sembuf>, k: nat, i: nat)
    requires Fits(m, sops) && k <= |sops| && i < |m.vals|
    ensures After(m, sops, k).vals[i] == m.vals[i] + Earlier(sops, k, i, false)
    ensures i < |m.adj| ==> After(m, sops, k).adj[i] == m.adj[i] - Earlier(sops, k, i, true)
  {
    if k > 0 {
      assert sops[k - 1] in sops;
      AfterIs(m, sops, k - 1, i);
    }
  }

  lemma CheckedAfter(m: Mem, sops: seq<Sembuf>, k: nat)
    requires Fits(m, sops) && k < |sops|
    ensures var a, b := After(m, sops, k), sops[k];
            && b in sops
            && (MustWait(a.vals[b.num], b) <==> Sleeps(m, sops, k))
            && (Exceeds(a.vals[b.num], a.adj, b) <==> Leaves(m, sops, k))
  {
    assert sops[k] in sops;
    AfterIs(m, sops, k, sops[k].num);
  }

  /** The first operation from k on that cannot proceed decides; without one the call completes. */
  lemma {:induction false} ExecStops(m: Mem, sops: seq<Sembuf>, k: nat) returns (j: nat)
    requires Fits(m, sops) && k <= |sops|
    requires forall i | 0 <= i < k :: !Sleeps(m, sops, i) && !Leaves(m, sops, i)
    ensures j <= |sops| && forall i | 0 <= i < j :: !Sleeps(m, sops, i) && !Leaves(m, sops, i)
    ensures j == |sops| ==> Exec(After(m, sops, k), sops, k) == Done(After(m, sops, |sops|))
    ensures j < |sops| ==>
              && (Sleeps(m, sops, j) || Leaves(m, sops, j))
              && Exec(After(m, sops, k), sops, k) == if Sleeps(m, sops, j) then Blocked(j) else OutOfRange
    decreases |sops| - k
  {
    hide Sleeps, Leaves, MustWait, Exceeds, Fits;
    SlowStep(m, sops, k);
    if k == |sops| {
      j := k;
    } else {
      CheckedAfter(m, sops, k);
      if Sleeps(m, sops, k) || Leaves(m, sops, k) {
        j := k;
      } else {
        j := ExecStops(m, sops, k + 1);
      }
    }
  }

  /** What semop() answers: 0 if and only if every operation can proceed after the earlier
      ones; otherwise the first that cannot decides, -EAGAIN if it must wait and has
      IPC_NOWAIT, 1 if it must wait without it, -ERANGE if it only leaves a range. A call
      that answers 0 moves each value and each adjustment by the sum of its operations,
      any other changes nothing. */
  ghost predicate Answered(m: Mem, m': Mem, sops: seq<Sembuf>, result: int, blocking: nat)
    requires Fits(m, sops)
  {
    && result in {0, 1, -EAGAIN, -ERANGE}
    && (result == 0 <==> forall k | 0 <= k < |sops| :: !Sleeps(m, sops, k) && !Leaves(m, sops, k))
    && (result == -EAGAIN <==> exists k | 0 <= k < |sops| :: Stops(m, sops, k) && Sleeps(m, sops, k) && sops[k].nowait)
    && (result == 1 <==> exists k | 0 <= k < |sops| :: Stops(m, sops, k) && Sleeps(m, sops, k) && !sops[k].nowait)
    && (result == -ERANGE <==> exists k | 0 <= k < |sops| :: Stops(m, sops, k) && !Sleeps(m, sops, k))
    && (forall k | 0 <= k < |sops| :: Stops(m, sops, k) && Sleeps(m, sops, k) ==> blocking == k)
    && |m'.vals| == |m.vals| && |m'.adj| == |m.adj|
    && (forall i | 0 <= i < |m.vals| ::
          m'.vals[i] == m.vals[i] + if result == 0 then Earlier(sops, |sops|, i, false) else 0)
    && (forall i | 0 <= i < |m.adj| && i < |m.vals| ::
          m'.adj[i] == m.adj[i] - if result == 0 then Earlier(sops, |sops|, i, true) else 0)
  }

  /** The sequential meaning gives these answers. */
  lemma PerformedAnswered(m: Mem, m': Mem, sops: seq<Sembuf>, result: int, blocking: nat)
    requires Fits(m, sops)
    requires Performed(m, m', sops, result, blocking)
    ensures Answered(m, m', sops, result, blocking)
  {
    hide Sleeps, Leaves, Exec, After, Earlier, Fits;
    AfterNone(m, sops);
    var j := ExecStops(m, sops, 0);
    ExecShape(m, sops, 0);
    if j == |sops| {
      forall i | 0 <= i < |m.vals|
        ensures m'.vals[i] == m.vals[i] + Earlier(sops, |sops|, i, false)
        ensures i < |m.adj| ==> m'.adj[i] == m.adj[i] - Earlier(sops, |sops|, i, true)
      {
        AfterIs(m, sops, |sops|, i);
      }
    } else {
      assert Stops(m, sops, j);
      forall k | 0 <= k < |sops| && Stops(m, sops, k)
        ensures k == j
      {
      }
    }
  }

  /** Without dup, an earlier operation never moves the value, or the semadj, that a
      later one is checked against. */
  lemma {:induction false} UntouchedByEarlier(m: Mem, sops: seq<Sembuf>, k: nat, i: nat)
    requires Fits(m, sops) && k <= |sops| && i < |m.vals|
    requires forall j | 0 <= j < k :: sops[j].op != 0 ==> sops[j].num != i
    ensures After(m, sops, k).vals[i] == m.vals[i]
    ensures i < |m.adj| ==> After(m, sops, k).adj[i] == m.adj[i]
  {
    if k > 0 {
      assert sops[k - 1] in sops;
      UntouchedByEarlier(m, sops, k - 1, i);
    }
  }

  /** The second pass, reached only when every check held. */
  method WriteAll(semval: array<int>, semadj: array?<int>, sops: seq<Sembuf>, ghost m0: Mem)
    requires semval != semadj && Fits(m0, sops)
    requires Mem(semval[..], Row(semadj)) == m0
    modifies semval, semadj
    ensures Mem(semval[..], Row(semadj)) == After(m0, sops, |sops|)
  {
    for k := 0 to |sops|
      invariant Mem(semval[..], Row(semadj)) == After(m0, sops, k)
    {
      var sop := sops[k];
      assert sop in sops;
      ghost var before := After(m0, sops, k);
      if sop.undo {
        semadj[sop.num] := semadj[sop.num] - sop.op;
      }
      semval[sop.num] := semval[sop.num] + sop.op;
      assert Mem(semval[..], Row(semadj)) == Bump(before, sop);
    }
  }

  /** perform_atomic_semop: check every operation against the values found at the
      start, then write. Agrees with the sequential meaning whenever dupsop is not
      wrongly false. */
  method Perform(semval: array<int>, semadj: array?<int>, sops: seq<Sembuf>, dupsop: bool)
    returns (result: int, blocking: nat)
    requires semval != semadj
    requires Fits(Mem(semval[..], Row(semadj)), sops)
    requires !dupsop ==> NoDup(sops)
    modifies semval, semadj
    ensures Performed(old(Mem(semval[..], Row(semadj))), Mem(semval[..], Row(semadj)), sops, result, blocking)
    ensures Answered(old(Mem(semval[..], Row(semadj))), Mem(semval[..], Row(semadj)), sops, result, blocking)
  {
    hide Exec, After, MustWait, Exceeds, Fits, Answered, Earlier;
    if dupsop {
      result, blocking := PerformSlow(semval, semadj, sops);
      return;
    }
    ghost var m0 := Mem(semval[..], Row(semadj));
    ExecShape(m0, sops, 0);
    AfterNone(m0, sops);
    blocking := 0;
    for k := 0 to |sops|
      invariant Mem(semval[..], Row(semadj)) == m0
      invariant Exec(After(m0, sops, k), sops, k) == Exec(m0, sops, 0)
    {
      SlowStep(m0, sops, k);
      var sop := sops[k];
      Named(m0, sops, k);
      Named(After(m0, sops, k), sops, k);
      UntouchedByEarlier(m0, sops, k, sop.num);
      var value := semval[sop.num];
      if (sop.op == 0 && value != 0) || value + sop.op < 0 {
        blocking := k;
        result := if sop.nowait then -EAGAIN else 1;
        PerformedAnswered(m0, m0, sops, result, blocking);
        return;
      }
      value := value + sop.op;
      if value > SEMVMX {
        PerformedAnswered(m0, m0, sops, -ERANGE, 0);
        return -ERANGE, 0;
      }
      if sop.undo {
        var undo := semadj[sop.num] - sop.op;
        if undo < -SEMAEM - 1 || undo > SEMAEM {
          PerformedAnswered(m0, m0, sops, -ERANGE, 0);
          return -ERANGE, 0;
        }
      }
    }
    SlowStep(m0, sops, |sops|);
    WriteAll(semval, semadj, sops, m0);
    result := 0;
    PerformedAnswered(m0, Mem(semval[..], Row(semadj)), sops, result, blocking);
  }
}
