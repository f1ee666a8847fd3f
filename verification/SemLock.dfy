/**
 sem_lock() and sem_unlock() of ipc/sem.c as steps of any number of threads over
 any number of semaphores, under every interleaving: who excludes whom.
 */
module SemLocks {
  import opened Options
  import opened SemEval
  import opened SemCalls

  /** Where a thread stands in sem_lock(), in its section or in sem_unlock(). */
  datatype Pc =
    | Idle
    | LockPerm               // nsops != 1: about to take sem_perm.lock
    | EnterComplex           // owns it: complexmode_enter
    | Sweep(i: nat)          // complexmode_enter, about to lock semaphore i
    | SweepHeld(i: nat)      //   ... and to unlock it again
    | GlobalSection          // sem_lock returned SEM_GLOBAL_LOCK
    | LeaveGlobal            // after complexmode_tryleave, about to drop sem_perm.lock
    | ReadFlag(i: nat)       // nsops == 1: the unlocked look at use_global_lock
    | LockSem(i: nat)        // about to take the semaphore's lock
    | Recheck(i: nat)        // owns it: looks at use_global_lock again
    | BackOff(i: nat)        // about to release it
    | LockPermSimple(i: nat) // slow path: about to take sem_perm.lock
    | TestFlag(i: nat)       // owns sem_perm.lock: looks at use_global_lock
    | LockSemToo(i: nat)     // about to take the semaphore's lock as well
    | DropPerm(i: nat)       // owns both, about to drop sem_perm.lock
    | LocalSection(i: nat)   // sem_lock returned the semaphore number

  /** flag is use_global_lock. It is an int so that an underflow would show. */
  datatype Locks = Locks(pc: seq<Pc>, perm: Option<nat>, owner: seq<Option<nat>>, flag: int, complex: nat)

  /** What a thread decides by itself. */
  datatype Choice = Call(many: bool, i: nat) | Queue(complex: nat) | Go

  // ---------- Steps ----------

  /** Only a caller of sem_lock() chooses its operations and only a global section
      changes complex_count; taking a lock needs the lock to be free. */
  predicate Can(s: Locks, t: nat, c: Choice) {
    t < |s.pc| &&
    match s.pc[t]
    case Idle => c.Call? && c.i < |s.owner|
    case GlobalSection => c.Queue? || c.Go?
    case LockPerm => c.Go? && s.perm.None?
    case LockPermSimple(_) => c.Go? && s.perm.None?
    case Sweep(i) => c.Go? && (i < |s.owner| ==> s.owner[i].None?)
    case LockSem(i) => c.Go? && i < |s.owner| && s.owner[i].None?
    case LockSemToo(i) => c.Go? && i < |s.owner| && s.owner[i].None?
    case SweepHeld(i) => c.Go? && i < |s.owner|
    case BackOff(i) => c.Go? && i < |s.owner|
    case LocalSection(i) => c.Go? && i < |s.owner|
    case _ => c.Go?
  }

  function Moved(s: Locks, t: nat, pc: Pc): Locks
    requires t < |s.pc|
  {
    s.(pc := s.pc[t := pc])
  }

  function Owning(s: Locks, i: nat, o: Option<nat>): Locks
    requires i < |s.owner|
  {
    s.(owner := s.owner[i := o])
  }

  function Act(s: Locks, t: nat, c: Choice): Locks
    requires Can(s, t, c)
  {
    match s.pc[t]
    case Idle => Moved(s, t, if c.many then LockPerm else ReadFlag(c.i))
    case LockPerm => Moved(s.(perm := Some(t)), t, EnterComplex)
    case EnterComplex =>
      Moved(s.(flag := USE_GLOBAL_LOCK_HYSTERESIS), t, if s.flag > 0 then GlobalSection else Sweep(0))
    case Sweep(i) =>
      if i < |s.owner| then Moved(Owning(s, i, Some(t)), t, SweepHeld(i)) else Moved(s, t, GlobalSection)
    case SweepHeld(i) => Moved(Owning(s, i, None), t, Sweep(i + 1))
    case GlobalSection =>
      if c.Queue? then s.(complex := c.complex)
      else Moved(if s.complex != 0 then s else if s.flag == 1 then s.(flag := 0) else s.(flag := s.flag - 1), t, LeaveGlobal)
    case LeaveGlobal => Moved(s.(perm := None), t, Idle)
    case ReadFlag(i) => Moved(s, t, if s.flag == 0 then LockSem(i) else LockPermSimple(i))
    case LockSem(i) => Moved(Owning(s, i, Some(t)), t, Recheck(i))
    case Recheck(i) => Moved(s, t, if s.flag == 0 then LocalSection(i) else BackOff(i))
    case BackOff(i) => Moved(Owning(s, i, None), t, LockPermSimple(i))
    case LockPermSimple(i) => Moved(s.(perm := Some(t)), t, TestFlag(i))
    case TestFlag(i) => Moved(s, t, if s.flag == 0 then LockSemToo(i) else GlobalSection)
    case LockSemToo(i) => Moved(Owning(s, i, Some(t)), t, DropPerm(i))
    case DropPerm(i) => Moved(s.(perm := None), t, LocalSection(i))
    case LocalSection(i) => Moved(Owning(s, i, None), t, Idle)
  }

  // ---------- What every interleaving keeps ----------

  predicate HasPerm(pc: Pc) {
    pc.EnterComplex? || pc.Sweep? || pc.SweepHeld? || pc.GlobalSection? || pc.LeaveGlobal? ||
    pc.TestFlag? || pc.LockSemToo? || pc.DropPerm?
  }

  predicate HasSem(pc: Pc, i: nat) {
    match pc
    case SweepHeld(j) => j == i
    case Recheck(j) => j == i
    case BackOff(j) => j == i
    case DropPerm(j) => j == i
    case LocalSection(j) => j == i
    case _ => false
  }

  predicate InBounds(pc: Pc, n: nat) {
    match pc
    case Sweep(i) => i <= n
    case SweepHeld(i) => i < n
    case ReadFlag(i) => i < n
    case LockSem(i) => i < n
    case Recheck(i) => i < n
    case BackOff(i) => i < n
    case LockPermSimple(i) => i < n
    case TestFlag(i) => i < n
    case LockSemToo(i) => i < n
    case DropPerm(i) => i < n
    case LocalSection(i) => i < n
    case _ => true
  }

  /** The flag a thread that owns sem_perm.lock may rely on. */
  predicate FlagKnown(pc: Pc, flag: int) {
    && (pc.Sweep? || pc.SweepHeld? || pc.GlobalSection? ==> flag > 0)
    && (pc.LockSemToo? || pc.DropPerm? ==> flag == 0)
  }

  /** The owner of sem_perm.lock still has semaphore j ahead of it in complexmode_enter. */
  predicate SweepPending(s: Locks, j: nat) {
    s.perm.Some? && s.perm.value < |s.pc| &&
    match s.pc[s.perm.value]
    case Sweep(i) => i <= j
    case SweepHeld(i) => i <= j
    case _ => false
  }

  predicate OwnsExactly(s: Locks, t: nat)
    requires t < |s.pc|
  {
    forall i | 0 <= i < |s.owner| :: HasSem(s.pc[t], i) <==> s.owner[i] == Some(t)
  }

  predicate ThreadOk(s: Locks, t: nat)
    requires t < |s.pc|
  {
    var pc := s.pc[t];
    && InBounds(pc, |s.owner|)
    && FlagKnown(pc, s.flag)
    && (HasPerm(pc) <==> s.perm == Some(t))
    && OwnsExactly(s, t)
    && (pc.LocalSection? ==> s.complex == 0 && (s.flag > 0 ==> SweepPending(s, pc.i)))
  }

  ghost predicate LocksInv(s: Locks) {
    && 0 <= s.flag <= USE_GLOBAL_LOCK_HYSTERESIS
    && (s.complex > 0 ==> s.flag > 0)
    && (s.perm.Some? ==> s.perm.value < |s.pc|)
    && (forall i | 0 <= i < |s.owner| :: s.owner[i].Some? ==> s.owner[i].value < |s.pc|)
    && (forall t | 0 <= t < |s.pc| :: ThreadOk(s, t))
  }

  lemma ActSelfOwns(s: Locks, t: nat, c: Choice)
    requires LocksInv(s) && Can(s, t, c)
    ensures |Act(s, t, c).pc| == |s.pc| && OwnsExactly(Act(s, t, c), t)
  {
    assert ThreadOk(s, t);
  }

  /** The stepping thread keeps what is said about it. */
  lemma ActSelf(s: Locks, t: nat, c: Choice)
    requires LocksInv(s) && Can(s, t, c)
    ensures var r := Act(s, t, c); |r.pc| == |s.pc| && ThreadOk(r, t)
  {
    assert ThreadOk(s, t);
    ActSelfOwns(s, t, c);
    hide OwnsExactly, HasSem;
  }

  lemma ActOtherOwns(s: Locks, t: nat, c: Choice, u: nat)
    requires LocksInv(s) && Can(s, t, c) && u < |s.pc| && u != t
    ensures OwnsExactly(Act(s, t, c), u)
  {
    assert ThreadOk(s, t) && ThreadOk(s, u);
  }

  /** It does not upset what is said about another one. */
  lemma ActOther(s: Locks, t: nat, c: Choice, u: nat)
    requires LocksInv(s) && Can(s, t, c) && u < |s.pc| && u != t
    ensures ThreadOk(Act(s, t, c), u)
  {
    assert ThreadOk(s, t) && ThreadOk(s, u);
    assert s.pc[u].LocalSection? ==> s.owner[s.pc[u].i] == Some(u);
    assert s.pc[t].SweepHeld? ==> s.owner[s.pc[t].i] == Some(t);
    ActOtherOwns(s, t, c, u);
    hide OwnsExactly, HasSem;
  }

  lemma ActInv(s: Locks, t: nat, c: Choice)
    requires LocksInv(s) && Can(s, t, c)
    ensures LocksInv(Act(s, t, c))
  {
    var r := Act(s, t, c);
    assert ThreadOk(s, t);
    ActSelf(s, t, c);
    forall u | 0 <= u < |r.pc|
      ensures ThreadOk(r, u)
    {
      if u != t {
        ActOther(s, t, c, u);
      }
    }
  }

  // ---------- Runs ----------

  /** newary, with as many threads and semaphores as one likes */
  function Fresh(threads: nat, sems: nat): Locks {
    Locks(seq(threads, _ => Idle), None, seq(sems, _ => None), USE_GLOBAL_LOCK_HYSTERESIS - 1, 0)
  }

  predicate LockRuns(s: Locks, steps: seq<(nat, Choice)>)
    decreases |steps|
  {
    steps == [] || (Can(s, steps[0].0, steps[0].1) && LockRuns(Act(s, steps[0].0, steps[0].1), steps[1..]))
  }

  function LockRun(s: Locks, steps: seq<(nat, Choice)>): Locks
    requires LockRuns(s, steps)
    decreases |steps|
  {
    if steps == [] then s else LockRun(Act(s, steps[0].0, steps[0].1), steps[1..])
  }

  lemma {:induction false} LockRunInv(s: Locks, steps: seq<(nat, Choice)>)
    requires LocksInv(s) && LockRuns(s, steps)
    ensures LocksInv(LockRun(s, steps))
    decreases |steps|
  {
    if steps != [] {
      ActInv(s, steps[0].0, steps[0].1);
      LockRunInv(Act(s, steps[0].0, steps[0].1), steps[1..]);
    }
  }

  predicate WaitsForPerm(pc: Pc) {
    pc.LockPerm? || pc.LockPermSimple?
  }

  /** What the comments of sem_lock() promise. */
  ghost predicate Exclusive(s: Locks) {
    && (forall t, u | 0 <= t < |s.pc| && 0 <= u < |s.pc| && t != u ::
          s.pc[t].GlobalSection? ==> !s.pc[u].GlobalSection? && !s.pc[u].LocalSection?)
    && (forall t, u | 0 <= t < |s.pc| && 0 <= u < |s.pc| && t != u ::
          s.pc[t].LocalSection? && s.pc[u].LocalSection? ==> s.pc[t].i != s.pc[u].i)
    && (forall t, i | 0 <= t < |s.pc| && 0 <= i < |s.owner| :: WaitsForPerm(s.pc[t]) ==> s.owner[i] != Some(t))
    && (forall t | 0 <= t < |s.pc| :: s.pc[t].GlobalSection? ==> s.flag > 0)
    && (forall t | 0 <= t < |s.pc| :: s.pc[t].LocalSection? ==> s.complex == 0)
    && 0 <= s.flag <= USE_GLOBAL_LOCK_HYSTERESIS
    && (s.complex > 0 ==> s.flag > 0)
  }

  lemma LocksInvExclusive(s: Locks)
    requires LocksInv(s)
    ensures Exclusive(s)
  {
    forall t, u | 0 <= t < |s.pc| && 0 <= u < |s.pc| && t != u
      ensures s.pc[t].GlobalSection? ==> !s.pc[u].GlobalSection? && !s.pc[u].LocalSection?
      ensures s.pc[t].LocalSection? && s.pc[u].LocalSection? ==> s.pc[t].i != s.pc[u].i
    {
      assert ThreadOk(s, t) && ThreadOk(s, u);
      assert s.pc[t].LocalSection? ==> HasSem(s.pc[t], s.pc[t].i);
      assert s.pc[u].LocalSection? ==> HasSem(s.pc[u], s.pc[u].i);
    }
    forall t | 0 <= t < |s.pc|
      ensures WaitsForPerm(s.pc[t]) ==> forall i | 0 <= i < |s.owner| :: s.owner[i] != Some(t)
      ensures s.pc[t].GlobalSection? ==> s.flag > 0
      ensures s.pc[t].LocalSection? ==> s.complex == 0
    {
      assert ThreadOk(s, t);
    }
  }

  /** Whatever the threads do, in every order: a global section excludes every other
      section, two local sections are on different semaphores, nobody waits for
      sem_perm.lock while owning a semaphore, and use_global_lock neither
      underflows nor says 0 while complex calls are queued. */
  lemma LockSafety(threads: nat, sems: nat, steps: seq<(nat, Choice)>)
    requires LockRuns(Fresh(threads, sems), steps)
    ensures Exclusive(LockRun(Fresh(threads, sems), steps))
  {
    LockRunInv(Fresh(threads, sems), steps);
    LocksInvExclusive(LockRun(Fresh(threads, sems), steps));
  }

  /** use_global_lock counts: entering complex mode sets it to ten, a global section that ends
      without complex calls queued takes one off, nothing else touches it. */
  lemma FlagSteps(s: Locks, t: nat, c: Choice)
    requires LocksInv(s) && Can(s, t, c)
    ensures var r := Act(s, t, c).flag;
            r == if s.pc[t].EnterComplex? then 10
                 else if s.pc[t].GlobalSection? && c.Go? && s.complex == 0 then s.flag - 1
                 else s.flag
  {
    assert ThreadOk(s, t);
  }

  /** Nobody enters complex mode in the run, and no complex call is queued. */
  ghost predicate OnlySimple(s: Locks, steps: seq<(nat, Choice)>)
    requires LockRuns(s, steps)
    decreases |steps|
  {
    steps == [] ||
    (!s.pc[steps[0].0].EnterComplex? && (steps[0].1.Queue? ==> steps[0].1.complex == 0)
     && OnlySimple(Act(s, steps[0].0, steps[0].1), steps[1..]))
  }

  /** How many sections under the global lock end in the run */
  ghost function Ends(s: Locks, steps: seq<(nat, Choice)>): nat
    requires LockRuns(s, steps)
    decreases |steps|
  {
    if steps == [] then 0
    else (if s.pc[steps[0].0].GlobalSection? && steps[0].1.Go? then 1 else 0) + Ends(Act(s, steps[0].0, steps[0].1), steps[1..])
  }

  /** Hysteresis, under every interleaving: as long as nobody comes with a complex call and none is
      queued, each section under the global lock takes one off the counter; so at most ten of them
      end before calls with one operation find per-semaphore locking again. */
  lemma {:induction false} FlagCounts(s: Locks, steps: seq<(nat, Choice)>)
    requires LocksInv(s) && LockRuns(s, steps) && OnlySimple(s, steps) && s.complex == 0
    ensures var r := LockRun(s, steps);
            r.complex == 0 && r.flag == s.flag - Ends(s, steps) && Ends(s, steps) <= s.flag <= 10
    decreases |steps|
  {
    if steps == [] {
      LocksInvExclusive(s);
    } else {
      var r := Act(s, steps[0].0, steps[0].1);
      FlagSteps(s, steps[0].0, steps[0].1);
      ActInv(s, steps[0].0, steps[0].1);
      LocksInvExclusive(s);
      hide LocksInv;
      FlagCounts(r, steps[1..]);
    }
  }

  /** The owner of a semaphore lock never has to wait. */
  lemma SemOwnerGoes(s: Locks, i: nat)
    requires LocksInv(s) && i < |s.owner| && s.owner[i].Some?
    ensures Can(s, s.owner[i].value, Go)
  {
    assert ThreadOk(s, s.owner[i].value);
  }

  /** No deadlock: as long as some thread is inside sem_lock(), a section or
      sem_unlock(), some such thread can go on. */
  lemma NoDeadlock(s: Locks, t: nat)
    requires LocksInv(s) && t < |s.pc| && !s.pc[t].Idle?
    ensures exists u | 0 <= u < |s.pc| :: !s.pc[u].Idle? && Can(s, u, Go)
  {
    var u := if WaitsForPerm(s.pc[t]) && s.perm.Some? then s.perm.value else t;
    assert ThreadOk(s, u) && ThreadOk(s, t);
    if !Can(s, u, Go) {
      SemOwnerGoes(s, s.pc[u].i);
      assert ThreadOk(s, s.owner[s.pc[u].i].value);
    }
  }
}
