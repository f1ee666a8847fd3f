/**
 Evaluating one semop() call, queued or not, against the values of its set, and
 scanning a queue of such calls.
 */
module SemEval {
  import opened Options
  import opened SemOps

  /** struct sem_queue: one semop() call. */
  datatype Entry = Entry(id: nat, sops: seq<Sembuf>, undo: Option<nat>, dupsop: bool)

  /** A call handed to the wake queue with its final status. */
  datatype Wake = Wake(entry: Entry, status: int)

  /** The semvals of a set and its undo rows (list_id). */
  datatype Store = Store(vals: seq<int>, undos: map<nat, seq<int>>)

  ghost predicate EntryFits(n: nat, rows: set<nat>, e: Entry) {
    && e.sops != []
    && (!e.dupsop ==> NoDup(e.sops))
    && (e.undo.Some? ==> e.undo.value in rows)
    && forall s | s in e.sops :: s.num < n && (s.undo ==> e.undo.Some?)
  }

  ghost predicate Bounded(s: Store) {
    && ValsInRange(s.vals)
    && forall u | u in s.undos :: |s.undos[u]| == |s.vals| && AdjInRange(s.undos[u])
  }

  ghost predicate CanEval(s: Store, e: Entry) {
    Bounded(s) && EntryFits(|s.vals|, s.undos.Keys, e)
  }

  ghost function MemFor(s: Store, e: Entry): Mem {
    Mem(s.vals, if e.undo.Some? && e.undo.value in s.undos then s.undos[e.undo.value] else [])
  }

  ghost function Eval(s: Store, e: Entry): (o: Outcome)
    requires CanEval(s, e)
    ensures o.Blocked? ==> o.at < |e.sops|
    ensures o.Done? ==> |o.mem.vals| == |s.vals| && |o.mem.adj| == |MemFor(s, e).adj|
    ensures o.Done? ==> ValsInRange(o.mem.vals) && AdjInRange(o.mem.adj)
  {
    ExecShape(MemFor(s, e), e.sops, 0);
    ExecBounds(MemFor(s, e), e.sops, 0);
    Exec(MemFor(s, e), e.sops, 0)
  }

  ghost function Status(s: Store, e: Entry): int
    requires CanEval(s, e)
  {
    Code(Eval(s, e), e.sops)
  }

  /** The call would complete or fail now instead of sleeping. */
  ghost predicate Ready(s: Store, e: Entry)
    requires CanEval(s, e)
  {
    Status(s, e) <= 0
  }

  /** The values after the call has been evaluated. */
  ghost function Next(s: Store, e: Entry): (r: Store)
    requires CanEval(s, e)
    ensures Bounded(r) && |r.vals| == |s.vals| && r.undos.Keys == s.undos.Keys
    ensures !Eval(s, e).Done? ==> r == s
  {
    var o := Eval(s, e);
    if o.Done? then
      Store(o.mem.vals, if e.undo.Some? then s.undos[e.undo.value := o.mem.adj] else s.undos)
    else s
  }

  // ---------- Special calls ----------

  ghost predicate Simple(e: Entry, i: nat) {
    |e.sops| == 1 && e.sops[0].num == i && !e.sops[0].nowait
  }

  lemma ExecOne(m: Mem, sops: seq<Sembuf>)
    requires Fits(m, sops) && |sops| == 1
    ensures Exec(m, sops, 0) ==
            (var b := sops[0];
             assert b in sops;
             if MustWait(m.vals[b.num], b) then Blocked(0)
             else if Exceeds(m.vals[b.num], m.adj, b) then OutOfRange
             else Done(Bump(m, b)))
  {
    assert sops[0] in sops;
  }

  /** A queued single operation that changes semaphore i sleeps exactly while the
      value is too small. */
  lemma SimpleAlterReady(s: Store, i: nat, e: Entry)
    requires CanEval(s, e) && Simple(e, i) && e.sops[0].op != 0
    ensures i < |s.vals|
    ensures Ready(s, e) <==> s.vals[i] + e.sops[0].op >= 0
    ensures !Ready(s, e) <==> Status(s, e) == 1
    ensures Status(s, e) == 0 ==> Next(s, e).vals == s.vals[i := s.vals[i] + e.sops[0].op]
  {
    assert e.sops[0] in e.sops;
    ExecOne(MemFor(s, e), e.sops);
  }

  /** A wait-for-zero call succeeds exactly when all its semaphores are zero, and
      it changes nothing either way. */
  lemma ConstReady(s: Store, e: Entry)
    requires CanEval(s, e) && AllZeroOps(e.sops)
    ensures Status(s, e) == 0 <==> AllZeroVals(s.vals, e.sops)
    ensures Next(s, e) == s
    ensures Status(s, e) != -ERANGE
  {
    ExecZeroOps(MemFor(s, e), e.sops, 0);
    if e.undo.Some? {
      assert s.undos[e.undo.value := s.undos[e.undo.value]] == s.undos;
    }
  }

  lemma SimpleConstReady(s: Store, i: nat, e: Entry)
    requires CanEval(s, e) && Simple(e, i) && e.sops[0].op == 0
    ensures i < |s.vals|
    ensures Ready(s, e) <==> s.vals[i] == 0
    ensures !Ready(s, e) <==> Status(s, e) == 1
  {
    assert e.sops[0] in e.sops;
    assert AllZeroOps(e.sops);
    ConstReady(s, e);
  }

  function Nums(sops: seq<Sembuf>): (r: seq<nat>)
    ensures |r| == |sops| && forall k | 0 <= k < |sops| :: r[k] == sops[k].num
  {
    seq(|sops|, k requires 0 <= k < |sops| => sops[k].num)
  }

  lemma {:induction false} NetUnnamed(sops: seq<Sembuf>, k: nat, i: nat, plain: bool)
    requires k <= |sops|
    requires forall s | s in sops :: s.num != i
    ensures Net(sops, k, i, plain) == 0
    decreases |sops| - k
  {
    if k < |sops| {
      assert sops[k] in sops;
      NetUnnamed(sops, k + 1, i, plain);
    }
  }

  /** Only the semaphores a call names can change. */
  lemma UnnamedUnchanged(s: Store, e: Entry, i: nat)
    requires CanEval(s, e) && i < |s.vals|
    requires i !in Nums(e.sops)
    ensures Next(s, e).vals[i] == s.vals[i]
  {
    if Eval(s, e).Done? {
      ExecNet(MemFor(s, e), e.sops, 0, i);
      forall b | b in e.sops
        ensures b.num != i
      {
        var k :| 0 <= k < |e.sops| && e.sops[k] == b;
        assert Nums(e.sops)[k] == b.num;
      }
      NetUnnamed(e.sops, 0, i, false);
    }
  }

  // ---------- Scanning a queue ----------

  ghost predicate AllCanEval(s: Store, es: seq<Entry>) {
    forall e | e in es :: CanEval(s, e)
  }

  /** The status each call would get now, as a function a scan can be stated over. */
  ghost function Verdict(s: Store): (f: Entry -> int)
    ensures forall e | CanEval(s, e) :: f(e) == Status(s, e)
  {
    e => if CanEval(s, e) then Status(s, e) else 1
  }

  ghost function Sleeping(f: Entry -> int, es: seq<Entry>): (r: seq<Entry>)
    ensures forall e | e in r :: e in es && f(e) > 0
  {
    if es == [] then []
    else
      var e := es[|es| - 1];
      Sleeping(f, es[..|es| - 1]) + (if f(e) > 0 then [e] else [])
  }

  ghost function Finished(f: Entry -> int, es: seq<Entry>): (r: seq<Wake>)
  {
    if es == [] then []
    else
      var e := es[|es| - 1];
      Finished(f, es[..|es| - 1]) + (if f(e) > 0 then [] else [Wake(e, f(e))])
  }

  lemma LastScanned(f: Entry -> int, es: seq<Entry>)
    ensures es == [] ==> Sleeping(f, es) == [] && Finished(f, es) == []
    ensures es != [] ==>
              var init, e := es[..|es| - 1], es[|es| - 1];
              && Sleeping(f, es) == (if f(e) > 0 then Sleeping(f, init) + [e] else Sleeping(f, init))
              && Finished(f, es) == (if f(e) > 0 then Finished(f, init) else Finished(f, init) + [Wake(e, f(e))])
  {
  }

  function RemoveAt(es: seq<Entry>, i: nat): (r: seq<Entry>)
    requires i < |es|
    ensures |r| == |es| - 1 && forall e | e in r :: e in es
  {
    es[..i] + es[i + 1..]
  }

  lemma MoveOver(kept: seq<Entry>, rest: seq<Entry>)
    requires rest != []
    ensures (kept + [rest[0]]) + rest[1..] == kept + rest
    ensures RemoveAt(kept + rest, |kept|) == kept + rest[1..]
  {
  }

  /** The queue after its first p calls have been looked at. */
  ghost function Scanned(f: Entry -> int, es: seq<Entry>, p: nat): seq<Entry>
    requires p <= |es|
  {
    Sleeping(f, es[..p]) + es[p..]
  }

  lemma ScanStep(f: Entry -> int, es: seq<Entry>, p: nat)
    requires p < |es|
    ensures var kept, now := |Sleeping(f, es[..p])|, Scanned(f, es, p);
            && kept < |now| && now[kept] == es[p]
            && (if f(es[p]) > 0
                then |Sleeping(f, es[..p + 1])| == kept + 1 && Scanned(f, es, p + 1) == now
                else |Sleeping(f, es[..p + 1])| == kept && Scanned(f, es, p + 1) == RemoveAt(now, kept))
            && Finished(f, es[..p + 1]) == Finished(f, es[..p]) + (if f(es[p]) > 0 then [] else [Wake(es[p], f(es[p]))])
  {
    assert es[..p + 1][..p] == es[..p];
    MoveOver(Sleeping(f, es[..p]), es[p..]);
  }

  lemma ScanEnds(f: Entry -> int, es: seq<Entry>)
    ensures Scanned(f, es, 0) == es && Sleeping(f, es[..0]) == [] && Finished(f, es[..0]) == []
    ensures Scanned(f, es, |es|) == Sleeping(f, es) && Finished(f, es[..|es|]) == Finished(f, es)
  {
    assert es[..|es|] == es;
  }

  /** The first call that need not sleep, or |es|. */
  ghost function FirstReady(f: Entry -> int, es: seq<Entry>): (i: nat)
    ensures i <= |es|
    ensures i < |es| ==> f(es[i]) <= 0
    ensures forall j | 0 <= j < i :: f(es[j]) > 0
  {
    if es == [] || f(es[0]) <= 0 then 0
    else
      var k := FirstReady(f, es[1..]);
      assert forall j | 0 < j < k + 1 :: es[j] == es[1..][j - 1];
      k + 1
  }
}
