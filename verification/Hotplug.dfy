/**
 The hotplug state machine of kernel/cpu.c: one processor walks up or down a
 table of states, calling one callback, or one per instance, at each. If a
 callback fails the same walker is turned round to undo what was done.
 */
module Hotplug {
  import opened Options

  const EAGAIN: int := 11
  const CPUHP_INVALID: int := -1

  /** struct cpuhp_step: which callbacks exist, and the instances of a multi-instance state. */
  datatype Step = Step(multi: bool, startup: bool, teardown: bool, instances: seq<nat>)

  /** One callback that was called, with what it returned. */
  datatype Event = Event(state: nat, bringup: bool, node: Option<nat>, ret: int)

  predicate HasCallback(step: Step, bringup: bool) {
    if bringup then step.startup else step.teardown
  }

  /** How many calls a state needs in one direction, and which instance the k-th is for. */
  function Units(step: Step, bringup: bool): nat {
    if !HasCallback(step, bringup) then 0 else if step.multi then |step.instances| else 1
  }

  function Unit(step: Step, k: nat): Option<nat>
    requires step.multi ==> k < |step.instances|
  {
    if step.multi then Some(step.instances[k]) else None
  }

  /** Multi-instance states have both callbacks, and no instance is listed twice. */
  ghost predicate SoundStep(step: Step) {
    step.multi ==>
      && step.startup && step.teardown
      && forall j, k | 0 <= j < k < |step.instances| :: step.instances[j] != step.instances[k]
  }

  ghost predicate Sound(steps: seq<Step>) {
    forall s | 0 <= s < |steps| :: SoundStep(steps[s])
  }

  /** The first n calls of a state, all successful. */
  function Done(steps: seq<Step>, s: nat, bringup: bool, n: nat): (r: seq<Event>)
    requires s < |steps| && n <= Units(steps[s], bringup)
    ensures |r| == n && forall k | 0 <= k < n :: r[k] == Event(s, bringup, Unit(steps[s], k), 0)
  {
    seq(n, k requires 0 <= k < n => Event(s, bringup, Unit(steps[s], k), 0))
  }

  function Full(steps: seq<Step>, s: nat, bringup: bool): seq<Event>
    requires s < |steps|
  {
    Done(steps, s, bringup, Units(steps[s], bringup))
  }

  /** Every call of an undisturbed walk from one state to another. Going up enters
      from + 1 .. to; going down leaves from .. to + 1. */
  function Walk(steps: seq<Step>, from: nat, to: nat): seq<Event>
    requires from < |steps| && to < |steps|
    decreases if from < to then to - from else from - to
  {
    if from == to then []
    else if from < to then Walk(steps, from, to - 1) + Full(steps, to, true)
    else Walk(steps, from, to + 1) + Full(steps, to + 1, false)
  }

  /** The state whose callbacks run when the walker leaves `at` in some direction. */
  function Entered(at: nat, bringup: bool): nat {
    if bringup then at + 1 else at
  }

  /** g lies on the way from `from` to `to`, not counting the end. */
  predicate OnTheWay(from: nat, to: nat, g: nat) {
    if from < to then from <= g < to else to < g <= from
  }

  /** The call that failed, if it was one: an injected failure calls nobody. */
  function Failing(steps: seq<Step>, s: nat, bringup: bool, n: nat, ret: int, injected: bool): seq<Event>
    requires s < |steps| && (!injected ==> n < Units(steps[s], bringup))
  {
    if injected then [] else [Event(s, bringup, Unit(steps[s], n), ret)]
  }

  lemma DoneStep(steps: seq<Step>, s: nat, b: bool, n: nat)
    requires s < |steps| && n < Units(steps[s], b)
    ensures Done(steps, s, b, n + 1) == Done(steps, s, b, n) + [Event(s, b, Unit(steps[s], n), 0)]
  {
  }

  /** The instance a call is for: one of a multi-instance state, nobody of any other. */
  predicate IsUnit(step: Step, node: Option<nat>) {
    if step.multi then node.Some? && node.value in step.instances else node.None?
  }

  /** A successful call that an undisturbed walk makes: going up, the startup callback of a state
      behind `from` and up to `to`; going down, the teardown callback of a state from `from` down to
      the one above `to`; for an instance of the state, if it has any. */
  predicate OnWalk(steps: seq<Step>, from: nat, to: nat, e: Event) {
    && e.ret == 0 && e.state < |steps| && IsUnit(steps[e.state], e.node)
    && (if from < to then e.bringup && from < e.state <= to && steps[e.state].startup
        else !e.bringup && to < e.state <= from && steps[e.state].teardown)
  }

  lemma FullHolds(steps: seq<Step>, s: nat, b: bool, e: Event)
    requires s < |steps|
    ensures e in Full(steps, s, b) <==>
            && e.ret == 0 && e.state == s && e.bringup == b && IsUnit(steps[s], e.node)
            && (if b then steps[s].startup else steps[s].teardown)
  {
    var f := Full(steps, s, b);
    if e.ret == 0 && e.state == s && e.bringup == b && IsUnit(steps[s], e.node) && HasCallback(steps[s], b) {
      var k := if steps[s].multi then IndexOf(steps[s].instances, e.node.value) else 0;
      assert f[k] == e;
    }
  }

  function IndexOf(xs: seq<nat>, x: nat): (k: nat)
    requires x in xs
    ensures k < |xs| && xs[k] == x
  {
    if xs[0] == x then 0 else 1 + IndexOf(xs[1..], x)
  }

  /** The calls of a walk are these and no others. */
  lemma {:induction false} WalkHolds(steps: seq<Step>, from: nat, to: nat, e: Event)
    requires from < |steps| && to < |steps|
    ensures e in Walk(steps, from, to) <==> from != to && OnWalk(steps, from, to, e)
    decreases if from < to then to - from else from - to
  {
    hide Full, IsUnit;
    if from < to {
      WalkHolds(steps, from, to - 1, e);
      FullHolds(steps, to, true, e);
    } else if from > to {
      WalkHolds(steps, from, to + 1, e);
      FullHolds(steps, to + 1, false, e);
    }
  }

  lemma FullOrder(steps: seq<Step>, s: nat, b: bool, j: nat, k: nat)
    requires s < |steps| && j < k < |Full(steps, s, b)|
    ensures var f := Full(steps, s, b);
            && steps[s].multi && k < |steps[s].instances| && f[j].state == s && f[k].state == s
            && f[j].node == Some(steps[s].instances[j]) && f[k].node == Some(steps[s].instances[k])
  {
  }

  /** Going up, lower states come first, going down, higher ones, and the instances of one state in
      the order of its list. */
  lemma {:induction false} WalkOrder(steps: seq<Step>, from: nat, to: nat, j: nat, k: nat)
    requires from < |steps| && to < |steps| && j < k < |Walk(steps, from, to)|
    ensures var d, e := Walk(steps, from, to)[j], Walk(steps, from, to)[k];
            && (if from < to then d.state <= e.state else d.state >= e.state)
            && (d.state == e.state ==>
                  d.state < |steps| && exists m, n | 0 <= m < n < |steps[d.state].instances| ::
                    d.node == Some(steps[d.state].instances[m]) && e.node == Some(steps[d.state].instances[n]))
    decreases if from < to then to - from else from - to
  {
    hide Full, OnWalk;
    var s, b := if from < to then to else to + 1, from < to;
    var before := if from < to then Walk(steps, from, to - 1) else Walk(steps, from, to + 1);
    var w := Walk(steps, from, to);
    assert w == before + Full(steps, s, b);
    if k < |before| {
      WalkOrder(steps, from, if from < to then to - 1 else to + 1, j, k);
    } else if j < |before| {
      WalkBefore(steps, from, to, before[j]);
      FullHolds(steps, s, b, w[k]);
      assert w[k] in Full(steps, s, b);
    } else {
      FullOrder(steps, s, b, j - |before|, k - |before|);
    }
  }

  lemma WalkBefore(steps: seq<Step>, from: nat, to: nat, d: Event)
    requires from < |steps| && to < |steps| && from != to
    requires d in Walk(steps, from, if from < to then to - 1 else to + 1)
    ensures if from < to then d.state < to else d.state > to + 1
  {
    hide IsUnit;
    WalkHolds(steps, from, if from < to then to - 1 else to + 1, d);
  }

  lemma WalkFront(steps: seq<Step>, from: nat, to: nat)
    requires from < |steps| && to < |steps| && from != to
    ensures var b := from < to;
            var next: nat := if b then from + 1 else from - 1;
            Walk(steps, from, to) == Full(steps, Entered(from, b), b) + Walk(steps, next, to)
    decreases if from < to then to - from else from - to
  {
    hide Full;
    if from < to {
      if from + 1 < to {
        WalkFront(steps, from, to - 1);
      }
    } else if to + 1 < from {
      WalkFront(steps, from, to + 1);
    }
  }

  /** The calls of a walk whose first state only needs its first lim calls. */
  function WalkFrom(steps: seq<Step>, from: nat, to: nat, lim: nat): seq<Event>
    requires from < |steps| && to < |steps|
    requires from != to ==> lim <= Units(steps[Entered(from, from < to)], from < to)
  {
    if from == to then []
    else
      var b := from < to;
      Done(steps, Entered(from, b), b, lim) + Walk(steps, if b then from + 1 else from - 1, to)
  }

  lemma WalkFromStep(steps: seq<Step>, from: nat, at: nat, to: nat, lim: nat)
    requires from < |steps| && to < |steps| && OnTheWay(from, to, at)
    requires from != to && lim <= Units(steps[Entered(from, from < to)], from < to)
    ensures var b := from < to;
            var next: nat := if b then at + 1 else at - 1;
            && next < |steps|
            && (at == from ==> WalkFrom(steps, from, next, lim) == Done(steps, Entered(from, b), b, lim))
            && (at != from ==> WalkFrom(steps, from, next, lim) ==
                                 WalkFrom(steps, from, at, lim) + Full(steps, Entered(at, b), b))
  {
    hide Done, Full;
  }

  lemma WalkFromStart(steps: seq<Step>, from: nat, lim: nat)
    requires from < |steps|
    ensures WalkFrom(steps, from, from, lim) == []
  {
  }

  lemma WalkFromAll(steps: seq<Step>, from: nat, to: nat, lim: nat)
    requires from < |steps| && to < |steps|
    requires from != to ==> lim == Units(steps[Entered(from, from < to)], from < to)
    ensures WalkFrom(steps, from, to, lim) == Walk(steps, from, to)
  {
    if from != to {
      WalkFront(steps, from, to);
    }
  }

  /** The trace of a walk that has reached g, and after the next state. */
  lemma StepTrace(steps: seq<Step>, p: nat, g: nat, target: nat, lim: nat, t0: seq<Event>, tr: seq<Event>)
    requires p < |steps| && target < |steps| && OnTheWay(p, target, g)
    requires lim <= Units(steps[Entered(p, p < target)], p < target)
    requires tr == t0 + WalkFrom(steps, p, g, lim)
    ensures var b := p < target;
            var s := Entered(g, b);
            var l := if g == p then lim else Units(steps[s], b);
            var next: nat := if b then g + 1 else g - 1;
            && tr + Done(steps, s, b, l) == t0 + WalkFrom(steps, p, next, lim)
            && (l == 0 ==> tr == t0 + WalkFrom(steps, p, next, lim))
  {
    hide Walk, WalkFrom, Done;
    WalkFromStep(steps, p, g, target, lim);
    WalkFromStart(steps, p, lim);
    var b := p < target;
    var d := Done(steps, Entered(g, b), b, if g == p then lim else Units(steps[Entered(g, b)], b));
    var w := WalkFrom(steps, p, g, lim);
    assert t0 + w + d == t0 + (w + d);
    assert w + [] == w && [] + d == d;
    assert |d| == 0 ==> tr + d == tr;
  }

  /** The trace of a walk that failed to leave g. */
  lemma StopTrace(steps: seq<Step>, p: nat, g: nat, target: nat, lim: nat, n: nat, ret: int, t0: seq<Event>, tr: seq<Event>)
    requires p < |steps| && target < |steps| && OnTheWay(p, target, g)
    requires lim == Units(steps[Entered(p, p < target)], p < target)
    requires tr == t0 + WalkFrom(steps, p, g, lim)
    requires n <= Units(steps[Entered(g, p < target)], p < target)
    ensures var b := p < target;
            var s := Entered(g, b);
            && tr == t0 + Walk(steps, p, g) + Done(steps, s, b, 0) + Failing(steps, s, b, 0, ret, true)
            && (n < Units(steps[s], b) ==>
                  (tr + Done(steps, s, b, n) + [Event(s, b, Unit(steps[s], n), ret)]
                   == t0 + Walk(steps, p, g) + Done(steps, s, b, n) + Failing(steps, s, b, n, ret, false)))
  {
    WalkFromAll(steps, p, g, lim);
    hide Walk, WalkFrom;
  }

  /** State s is entered or left on the way from `from` to where state f is at stake. */
  predicate AtStake(from: int, f: int, b: bool, s: int) {
    if b then from < s <= f else f <= s <= from
  }

  /** A failed attempt stopped before its last call. */
  predicate Stuck(steps: seq<Step>, b: bool, g: nat, n: nat, injected: bool) {
    && Entered(g, b) < |steps|
    && (if injected then n == 0 else n < Units(steps[Entered(g, b)], b))
  }

  /** st->last after a failure: the instance that failed. */
  function Remembered(step: Step, n: nat, injected: bool): Option<nat> {
    if !injected && step.multi && n < |step.instances| then Some(step.instances[n]) else None
  }

  /** An injected failure waits where the walker leaves p. */
  predicate Trips(steps: seq<Step>, p: nat, b: bool, f: int) {
    f == Entered(p, b) && f < |steps| && HasCallback(steps[f], b)
  }

  /** One run of the thread away from its target, from state p. */
  ghost predicate Astray(steps: seq<Step>, p: nat, b: bool, lim: nat, f0: int, t0: seq<Event>,
                         state: int, result: int, trace: seq<Event>, reliable: bool) {
    var s := Entered(p, b);
    && state == (if b then p + 1 else p - 1)
    && s < |steps| && lim <= Units(steps[s], b)
    && (f0 == s ==> trace == t0 && result == if HasCallback(steps[s], b) then -EAGAIN else 0)
    && (f0 != s && reliable ==> result == 0)
    && (f0 != s && result == 0 ==> trace == t0 + Done(steps, s, b, lim))
  }

  /** How far the calls of a state go: up to st->last in a rollback. */
  ghost predicate LimitIn(step: Step, last: Option<nat>, b: bool, lim: nat) {
    && lim <= Units(step, b)
    && (if step.multi && last.Some? then lim < |step.instances| && step.instances[lim] == last.value
        else lim == Units(step, b))
  }

  // ---------- The hotplug thread ----------

  /** What struct cpuhp_cpu_state holds at some moment */
  datatype Snap = Snap(state: int, target: int, fail: int, shouldRun: bool, single: bool, bringup: bool,
                       node: Option<nat>, last: Option<nat>, result: int, trace: seq<Event>)

  /** The thread may run: the direction leads to a state of the table, whose calls go up to lim. */
  ghost predicate AimedIn(steps: seq<Step>, z: Snap, lim: nat) {
    && 0 <= z.state < |steps|
    && (if z.bringup then z.state + 1 < |steps| else z.state > 0)
    && LimitIn(steps[Entered(z.state, z.bringup)], z.last, z.bringup, lim)
    && (z.last.Some? ==> steps[Entered(z.state, z.bringup)].multi && z.fail != Entered(z.state, z.bringup))
  }

  /** What the trace and st->last look like after a failure. */
  ghost predicate StoppedIn(steps: seq<Step>, z: Snap, t0: seq<Event>, p: nat, g: nat, n: nat, injected: bool)
    requires p < |steps| && g < |steps|
  {
    && Stuck(steps, z.bringup, g, n, injected)
    && z.trace == t0 + Walk(steps, p, g) + Done(steps, Entered(g, z.bringup), z.bringup, n)
                  + Failing(steps, Entered(g, z.bringup), z.bringup, n, z.result, injected)
    && z.last == Remembered(steps[Entered(g, z.bringup)], n, injected)
  }

  /** Between two runs of the thread: it came from p, and the last one succeeded. */
  ghost predicate RunningIn(steps: seq<Step>, z: Snap, p: nat, lim: nat, t0: seq<Event>, l0: Option<nat>, f0: int, reliable: bool) {
    && Sound(steps) && 0 <= z.state < |steps| && p < |steps| && 0 <= z.target < |steps| && p != z.target
    && !z.single && z.node == None && z.result == 0
    && (z.fail == f0 || z.fail == CPUHP_INVALID) && !AtStake(p, Entered(z.state, !z.bringup), z.bringup, z.fail)
    && (if z.bringup then p + 1 < |steps| else p > 0) && lim <= Units(steps[Entered(p, z.bringup)], z.bringup)
    && (l0.None? ==> lim == Units(steps[Entered(p, z.bringup)], z.bringup))
    && (if z.state == p then z.last == l0 && z.fail == f0 && z.shouldRun && AimedIn(steps, z, lim) else z.last == None)
    && (if z.bringup == (p < z.target) then
          && (OnTheWay(p, z.target, z.state) || z.state == z.target)
          && z.shouldRun == (z.state != z.target)
          && z.trace == t0 + WalkFrom(steps, p, z.state, lim)
          && (z.state != p ==> !Trips(steps, p, z.bringup, f0))
        else
          && (!z.shouldRun && l0.None? ==>
                Astray(steps, p, z.bringup, lim, f0, t0, z.state, z.result, z.trace, reliable))
          && (z.shouldRun ==> z.state == p && z.trace == t0))
  }

  /** It came from p and stopped with an error behind g. */
  ghost predicate HaltedIn(steps: seq<Step>, z: Snap, p: nat, lim: nat, t0: seq<Event>, l0: Option<nat>, f0: int,
                           g: int, n: nat, injected: bool, reliable: bool) {
    && Sound(steps) && 0 <= z.state < |steps| && (z.fail == f0 || z.fail == CPUHP_INVALID) && p < |steps| && g >= 0 && z.target >= 0
    && z.state == (if z.bringup then g + 1 else g - 1)
    && (z.bringup != (p < z.target) && l0.None? ==>
          Astray(steps, p, z.bringup, lim, f0, t0, z.state, z.result, z.trace, reliable))
    && (z.bringup == (p < z.target) ==>
          && OnTheWay(p, z.target, g)
          && !AtStake(p, Entered(g, z.bringup), z.bringup, z.fail)
          && (Trips(steps, p, z.bringup, f0) ==> z.result == -EAGAIN && g == p && injected)
          && (l0 == None ==> g < |steps| && StoppedIn(steps, z, t0, p, g, n, injected)))
    && (z.bringup == (p < z.target) && reliable ==> AtStake(p, Entered(z.target, !z.bringup), z.bringup, f0))
  }

  /** One run of the thread, from a to z */
  ghost predicate Ran(steps: seq<Step>, a: Snap, z: Snap, lim: nat, n: nat, reliable: bool) {
    && (if a.bringup then 0 <= a.state < |steps| - 1 else 0 < a.state < |steps|)
    && z.bringup == a.bringup && z.target == a.target && z.single == a.single && z.node == a.node
    && z.state == (if a.bringup then a.state + 1 else a.state - 1)
    && z.shouldRun == (z.result == 0 && if z.bringup then z.state < z.target else z.state > z.target)
    && var s := Entered(a.state, a.bringup);
       && LimitIn(steps[s], a.last, a.bringup, lim)
       && z.fail == (if a.fail == s then CPUHP_INVALID else a.fail)
       && (a.fail == s ==>
             n == 0 && z.trace == a.trace && z.last == a.last
             && z.result == if HasCallback(steps[s], a.bringup) then -EAGAIN else 0)
       && (a.fail != s && z.result == 0 ==>
             n == lim && z.trace == a.trace + Done(steps, s, a.bringup, lim) && z.last == None)
       && (a.fail != s && z.result != 0 ==>
             && n < lim && z.trace == a.trace + Done(steps, s, a.bringup, n) + [Event(s, a.bringup, Unit(steps[s], n), z.result)]
             && z.last == (if steps[s].multi then Some(steps[s].instances[n]) else None)
             && !reliable)
  }

  function Distance(a: int, b: int): nat {
    if a < b then b - a else a - b
  }

  lemma RanTowards(steps: seq<Step>, a: Snap, z: Snap, p: nat, lim: nat, t0: seq<Event>, l0: Option<nat>, f0: int,
                   l: nat, n: nat, reliable: bool)
    requires RunningIn(steps, a, p, lim, t0, l0, f0, reliable) && a.shouldRun && a.bringup == (p < a.target)
    requires l == if a.state == p then lim else Units(steps[Entered(a.state, a.bringup)], a.bringup)
    requires Ran(steps, a, z, l, n, reliable)
    ensures z.result == 0 ==> RunningIn(steps, z, p, lim, t0, l0, f0, reliable) && Distance(z.state, z.target) < Distance(a.state, z.target)
    ensures z.result != 0 ==>
              HaltedIn(steps, z, p, lim, t0, l0, f0, a.state, n, a.fail == Entered(a.state, a.bringup), reliable)
  {
    hide Walk, WalkFrom, Sound, Done, Failing, Full, Astray;
    StepTrace(steps, p, a.state, a.target, lim, t0, a.trace);
    if z.result != 0 && l0.None? {
      StopTrace(steps, p, a.state, a.target, lim, n, z.result, t0, a.trace);
    }
  }

  lemma RanAway(steps: seq<Step>, a: Snap, z: Snap, p: nat, lim: nat, t0: seq<Event>, l0: Option<nat>, f0: int,
                l: nat, n: nat, reliable: bool)
    requires RunningIn(steps, a, p, lim, t0, l0, f0, reliable) && a.shouldRun && a.bringup != (p < a.target)
    requires l == lim
    requires Ran(steps, a, z, l, n, reliable)
    ensures z.result == 0 ==> RunningIn(steps, z, p, lim, t0, l0, f0, reliable) && !z.shouldRun
    ensures z.result != 0 ==>
              HaltedIn(steps, z, p, lim, t0, l0, f0, a.state, n, a.fail == Entered(a.state, a.bringup), reliable)
  {
    hide Walk, WalkFrom, Sound, Done, Failing, Full, StoppedIn;
  }

  // ---------- States visited by the control processor ----------

  /** What became of one state: n calls succeeded, ret is the failure behind them, or 0 if there
      was none, and cleanup is what the calls that took the n back returned. */
  datatype Visit = Injected | Visit(n: nat, ret: int, cleanup: seq<int>)

  /** What cpuhp_invoke_callback makes of it: the last call counts, not the failure. */
  function Result(v: Visit): int {
    match v
    case Injected => -EAGAIN
    case Visit(n, ret, cleanup) => if cleanup == [] then ret else cleanup[|cleanup| - 1]
  }

  predicate CleansUp(step: Step, b: bool) {
    step.multi && HasCallback(step, !b)
  }

  predicate VisitOk(steps: seq<Step>, s: nat, b: bool, v: Visit) {
    s < |steps| &&
    match v
    case Injected => HasCallback(steps[s], b)
    case Visit(n, ret, cleanup) =>
      if ret == 0 then n == Units(steps[s], b) && cleanup == []
      else n < Units(steps[s], b) && |cleanup| == if CleansUp(steps[s], b) then n else 0
  }

  /** Calls on the first instances of a state, with what they returned */
  function Calls(steps: seq<Step>, s: nat, b: bool, rets: seq<int>): (r: seq<Event>)
    requires s < |steps| && (steps[s].multi ==> |rets| <= |steps[s].instances|)
    ensures |r| == |rets|
  {
    seq(|rets|, k requires 0 <= k < |rets| => Event(s, b, Unit(steps[s], k), rets[k]))
  }

  function Visited(steps: seq<Step>, s: nat, b: bool, v: Visit): seq<Event>
    requires VisitOk(steps, s, b, v)
  {
    match v
    case Injected => []
    case Visit(n, ret, cleanup) =>
      if ret == 0 then Full(steps, s, b)
      else Done(steps, s, b, n) + [Event(s, b, Unit(steps[s], n), ret)] + Calls(steps, s, !b, cleanup)
  }

  /** The visit is what the callbacks make it, given what happened before. */
  ghost predicate Told(callback: (seq<Event>, nat, bool, Option<nat>) -> int, h: seq<Event>,
                       steps: seq<Step>, s: nat, b: bool, v: Visit)
    requires VisitOk(steps, s, b, v)
  {
    v.Visit? ==>
      && (forall k | 0 <= k < v.n :: callback(h + Done(steps, s, b, k), s, b, Unit(steps[s], k)) == 0)
      && (v.ret != 0 ==>
            var h' := h + Done(steps, s, b, v.n) + [Event(s, b, Unit(steps[s], v.n), v.ret)];
            && callback(h + Done(steps, s, b, v.n), s, b, Unit(steps[s], v.n)) == v.ret
            && forall k | 0 <= k < |v.cleanup| ::
                 callback(h' + Calls(steps, s, !b, v.cleanup[..k]), s, !b, Unit(steps[s], k)) == v.cleanup[k])
  }

  lemma CallsStep(steps: seq<Step>, s: nat, b: bool, rets: seq<int>, ret: int)
    requires s < |steps| && (steps[s].multi ==> |rets| < |steps[s].instances|)
    ensures Calls(steps, s, b, rets + [ret]) == Calls(steps, s, b, rets) + [Event(s, b, Unit(steps[s], |rets|), ret)]
  {
  }

  /** vs are the visits of p + 1, p + 2, ... going up. */
  ghost predicate Upward(steps: seq<Step>, p: nat, vs: seq<Visit>) {
    p + |vs| < |steps| && forall i | 0 <= i < |vs| :: VisitOk(steps, p + 1 + i, true, vs[i])
  }

  ghost function Ascent(steps: seq<Step>, p: nat, vs: seq<Visit>): seq<Event>
    requires Upward(steps, p, vs)
  {
    if vs == [] then []
    else Ascent(steps, p, vs[..|vs| - 1]) + Visited(steps, p + |vs|, true, vs[|vs| - 1])
  }

  /** vs are the visits of top, top - 1, ... going down. */
  ghost predicate Downward(steps: seq<Step>, top: nat, vs: seq<Visit>) {
    |vs| <= top < |steps| && forall i | 0 <= i < |vs| :: VisitOk(steps, top - i, false, vs[i])
  }

  ghost function Descent(steps: seq<Step>, top: nat, vs: seq<Visit>): seq<Event>
    requires Downward(steps, top, vs)
  {
    if vs == [] then []
    else Descent(steps, top, vs[..|vs| - 1]) + Visited(steps, top - (|vs| - 1), false, vs[|vs| - 1])
  }

  lemma AscentStep(steps: seq<Step>, p: nat, vs: seq<Visit>, v: Visit)
    requires Upward(steps, p, vs) && p + |vs| + 1 < |steps| && VisitOk(steps, p + |vs| + 1, true, v)
    ensures Upward(steps, p, vs + [v])
    ensures Ascent(steps, p, vs + [v]) == Ascent(steps, p, vs) + Visited(steps, p + |vs| + 1, true, v)
  {
    assert (vs + [v])[..|vs|] == vs;
  }

  lemma DescentStep(steps: seq<Step>, top: nat, vs: seq<Visit>, v: Visit)
    requires Downward(steps, top, vs) && |vs| < top && VisitOk(steps, top - |vs|, false, v)
    ensures Downward(steps, top, vs + [v])
    ensures Descent(steps, top, vs + [v]) == Descent(steps, top, vs) + Visited(steps, top - |vs|, false, v)
  {
    assert (vs + [v])[..|vs|] == vs;
  }

  /** Every visit is what the callbacks make it; an injected failure is met where it was set. */
  ghost predicate AscentTold(callback: (seq<Event>, nat, bool, Option<nat>) -> int, h: seq<Event>, fail: int,
                             steps: seq<Step>, p: nat, vs: seq<Visit>)
    requires Upward(steps, p, vs)
  {
    forall i | 0 <= i < |vs| ::
      && Upward(steps, p, vs[..i])
      && Told(callback, h + Ascent(steps, p, vs[..i]), steps, p + 1 + i, true, vs[i])
      && (vs[i].Injected? <==> fail == p + 1 + i && HasCallback(steps[p + 1 + i], true))
  }

  ghost predicate DescentTold(callback: (seq<Event>, nat, bool, Option<nat>) -> int, h: seq<Event>,
                              steps: seq<Step>, top: nat, vs: seq<Visit>)
    requires Downward(steps, top, vs)
  {
    forall i | 0 <= i < |vs| ::
      && Downward(steps, top, vs[..i])
      && Told(callback, h + Descent(steps, top, vs[..i]), steps, top - i, false, vs[i])
      && vs[i].Visit?
  }

  lemma AscentToldStep(callback: (seq<Event>, nat, bool, Option<nat>) -> int, h: seq<Event>, fail: int,
                       steps: seq<Step>, p: nat, vs: seq<Visit>, v: Visit)
    requires Upward(steps, p, vs) && AscentTold(callback, h, fail, steps, p, vs)
    requires p + |vs| + 1 < |steps| && VisitOk(steps, p + |vs| + 1, true, v)
    requires Told(callback, h + Ascent(steps, p, vs), steps, p + |vs| + 1, true, v)
    requires v.Injected? <==> fail == p + |vs| + 1 && HasCallback(steps[p + |vs| + 1], true)
    ensures Upward(steps, p, vs + [v]) && AscentTold(callback, h, fail, steps, p, vs + [v])
  {
    hide Told, Ascent, VisitOk;
    var ws := vs + [v];
    forall i | 0 <= i < |ws|
      ensures VisitOk(steps, p + 1 + i, true, ws[i]) && Upward(steps, p, ws[..i])
      ensures Told(callback, h + Ascent(steps, p, ws[..i]), steps, p + 1 + i, true, ws[i])
      ensures ws[i].Injected? <==> fail == p + 1 + i && HasCallback(steps[p + 1 + i], true)
    {
      if i < |vs| {
        assert ws[..i] == vs[..i] && ws[i] == vs[i];
      } else {
        assert ws[..i] == vs;
      }
    }
  }

  lemma DescentToldStep(callback: (seq<Event>, nat, bool, Option<nat>) -> int, h: seq<Event>,
                        steps: seq<Step>, top: nat, vs: seq<Visit>, v: Visit)
    requires Downward(steps, top, vs) && DescentTold(callback, h, steps, top, vs)
    requires |vs| < top && VisitOk(steps, top - |vs|, false, v) && v.Visit?
    requires Told(callback, h + Descent(steps, top, vs), steps, top - |vs|, false, v)
    ensures Downward(steps, top, vs + [v]) && DescentTold(callback, h, steps, top, vs + [v])
  {
    hide Told, Descent, VisitOk;
    var ws := vs + [v];
    forall i | 0 <= i < |ws|
      ensures VisitOk(steps, top - i, false, ws[i]) && Downward(steps, top, ws[..i])
      ensures Told(callback, h + Descent(steps, top, ws[..i]), steps, top - i, false, ws[i]) && ws[i].Visit?
    {
      if i < |vs| {
        assert ws[..i] == vs[..i] && ws[i] == vs[i];
      } else {
        assert ws[..i] == vs;
      }
    }
  }

  /** A transition of the control processor from p towards t > p: up until a visit's result is not
      0, and then, if rollback is possible, down again whatever the results. */
  ghost predicate Climbed(steps: seq<Step>, p: nat, t: nat, rollback: bool, ups: seq<Visit>, downs: seq<Visit>,
                          ret: int, state: int, events: seq<Event>) {
    && Upward(steps, p, ups) && p + |ups| <= t && ups != []
    && (forall i | 0 <= i < |ups| - 1 :: Result(ups[i]) == 0)
    && ret == Result(ups[|ups| - 1])
    && Downward(steps, p + |ups| - 1, downs)
    && (if ret == 0 then p + |ups| == t && downs == [] && state == t
        else if rollback then |downs| == |ups| - 1 && state == p
        else downs == [] && state == p + |ups|)
    && events == Ascent(steps, p, ups) + Descent(steps, p + |ups| - 1, downs)
  }

  class CpuState {
    const steps: seq<Step>
    const callback: (seq<Event>, nat, bool, Option<nat>) -> int  // what a callback returns, given all that happened
    var state: int
    var target: int
    var fail: int
    var shouldRun: bool
    var rollback: bool
    var single: bool
    var bringup: bool
    var node: Option<nat>
    var last: Option<nat>
    var result: int
    var trace: seq<Event>

    /** A processor in some state of the table, with no failure injected */
    constructor (steps: seq<Step>, callback: (seq<Event>, nat, bool, Option<nat>) -> int, at: int)
      ensures this.steps == steps && this.callback == callback && state == at && fail == CPUHP_INVALID && trace == []
    {
      this.steps, this.callback := steps, callback;
      state, target, fail := at, at, CPUHP_INVALID;
      shouldRun, rollback, single, bringup := false, false, false, false;
      node, last, result, trace := None, None, 0, [];
    }

    ghost predicate Valid()
      reads this
    {
      Sound(steps) && 0 <= state < |steps|
    }

    /** Callbacks in this direction cannot fail. */
    ghost predicate Reliable(b: bool) {
      forall h, s, n :: callback(h, s, b, n) == 0
    }

    method Call(s: nat, b: bool, n: Option<nat>) returns (ret: int)
      modifies this`trace
      ensures ret == callback(old(trace), s, b, n) && trace == old(trace) + [Event(s, b, n, ret)]
    {
      ret := callback(trace, s, b, n);
      trace := trace + [Event(s, b, n, ret)];
    }

    ghost predicate Limit(s: nat, b: bool, lim: nat)
      requires s < |steps|
      reads this`last
    {
      LimitIn(steps[s], last, b, lim)
    }

    /** cpuhp_invoke_callback for a state transition run by the hotplug thread. It
        stops at the first failure, remembering the instance it failed on, or at the
        instance an earlier attempt had failed on. */
    method InvokeRemembering(s: nat, b: bool, ghost lim: nat) returns (ret: int, ghost n: nat)
      requires Sound(steps) && s < |steps| && Limit(s, b, lim) && (last.Some? ==> steps[s].multi)
      modifies this`trace, this`fail, this`last
      ensures fail == if old(fail) == s then CPUHP_INVALID else old(fail)
      ensures old(fail) == s ==>
                n == 0 && trace == old(trace) && last == old(last) && ret == if HasCallback(steps[s], b) then -EAGAIN else 0
      ensures old(fail) != s && ret == 0 ==> n == lim && trace == old(trace) + Done(steps, s, b, lim) && last == None
      ensures old(fail) != s && ret != 0 ==>
                && n < lim && trace == old(trace) + Done(steps, s, b, n) + [Event(s, b, Unit(steps[s], n), ret)]
                && last == (if steps[s].multi then Some(steps[s].instances[n]) else None)
                && !Reliable(b)
    {
      n := 0;
      var step := steps[s];
      if fail == s {
        fail := CPUHP_INVALID;
        return if HasCallback(step, b) then -EAGAIN else 0, 0;
      }
      if !HasCallback(step, b) {
        return 0, 0;
      }
      if !step.multi {
        ret := Call(s, b, None);
        n := if ret == 0 then 1 else 0;
        return;
      }
      ghost var t0 := trace;
      for k := 0 to |step.instances|
        invariant k <= lim && n == k && fail == old(fail) && last == old(last)
        invariant trace == t0 + Done(steps, s, b, k)
      {
        if last == Some(step.instances[k]) {
          break;
        }
        ret := Call(s, b, Some(step.instances[k]));
        if ret != 0 {
          last := Some(step.instances[k]);
          return;
        }
        DoneStep(steps, s, b, k);
        n := n + 1;
      }
      last := None;
      ret := 0;
    }

    /** cpuhp_set_state */
    method SetState(t: int) returns (prev: int)
      modifies this`rollback, this`last, this`target, this`single, this`bringup
      ensures prev == state && !rollback && last == None && target == t && !single && bringup == (state < t)
    {
      prev := state;
      rollback := false;
      last := None;
      target := t;
      single := false;
      bringup := state < t;
    }

    /** cpuhp_reset_state */
    method ResetState(prev: int)
      modifies this`rollback, this`state, this`target, this`bringup
      ensures rollback && target == prev && bringup == !old(bringup)
      ensures state == if last.Some? then old(state) else if old(bringup) then old(state) - 1 else old(state) + 1
    {
      rollback := true;
      if last.None? {
        if bringup {
          state := state - 1;
        } else {
          state := state + 1;
        }
      }
      target := prev;
      bringup := !bringup;
    }

    /** cpuhp_thread_fun, for a state transition: one state per run of the thread. */
    method ThreadFun(ghost lim: nat) returns (ghost n: nat)
      requires Valid() && shouldRun && !single && node == None
      requires bringup ==> state + 1 < |steps|
      requires !bringup ==> state > 0
      requires var s := Entered(state, bringup); Limit(s, bringup, lim) && (last.Some? ==> steps[s].multi)
      modifies this`trace, this`fail, this`last, this`state, this`shouldRun, this`result
      ensures Ran(steps, old(Now()), Now(), lim, n, Reliable(bringup))
    {
      var s;
      if bringup {
        state := state + 1;
        s := state;
        shouldRun := state < target;
      } else {
        s := state;
        state := state - 1;
        shouldRun := state > target;
      }
      result, n := InvokeRemembering(s, bringup, lim);
      if result != 0 {
        shouldRun := false;
      }
    }

    /** _cpuhp_kick_ap. Aimed at its target, the thread runs until it arrives or
        fails; the ghost results say where it failed: leaving state g, after n calls.
        Aimed away from its target it runs once. */
    method KickThread(ghost lim: nat) returns (ghost g: nat, ghost n: nat, ghost injected: bool)
      requires Valid() && !single && node == None && 0 <= target < |steps|
      requires state != target ==> Aimed(lim)
      modifies this`trace, this`fail, this`last, this`state, this`shouldRun, this`result
      ensures Valid() && (fail == old(fail) || fail == CPUHP_INVALID)
      ensures old(state) == target ==> state == target && trace == old(trace) && result == old(result) && last == old(last)
                                       && fail == old(fail)
      ensures old(state) != target && bringup != (old(state) < target) && old(last).None? ==>
                Astray(steps, old(state), bringup, lim, old(fail), old(trace), state, result, trace, Reliable(bringup))
      ensures old(state) != target && bringup == (old(state) < target) && result == 0 ==>
                state == target && last == None && trace == old(trace) + WalkFrom(steps, old(state), target, lim)
      ensures old(state) != target && bringup == (old(state) < target) && result != 0 ==>
                && OnTheWay(old(state), target, g) && state == (if bringup then g + 1 else g - 1)
                && !AtStake(old(state), Entered(g, bringup), bringup, fail)
                && (old(last) == None ==> StoppedAt(old(trace), old(state), g, n, injected))
      ensures old(state) != target && bringup == (old(state) < target) && Reliable(bringup)
              && !AtStake(old(state), Entered(target, !bringup), bringup, old(fail)) ==>
                result == 0
      ensures old(state) != target && bringup == (old(state) < target) && Trips(steps, old(state), bringup, old(fail)) ==>
                result == -EAGAIN && g == old(state) && injected
    {
      g, n, injected := 0, 0, false;
      if !single && state == target {
        return;
      }
      result := 0;
      shouldRun := true;
      g, n, injected := RunThread(lim);
    }

    ghost function Now(): Snap
      reads this
    {
      Snap(state, target, fail, shouldRun, single, bringup, node, last, result, trace)
    }

    ghost predicate Aimed(lim: nat)
      reads this
    {
      AimedIn(steps, Now(), lim)
    }

    ghost predicate StoppedAt(t0: seq<Event>, p: nat, g: nat, n: nat, injected: bool)
      requires p < |steps| && g < |steps|
      reads this
    {
      StoppedIn(steps, Now(), t0, p, g, n, injected)
    }

    /** The runs of the hotplug thread until should_run is cleared. */
    method RunThread(ghost lim: nat) returns (ghost g: nat, ghost n: nat, ghost injected: bool)
      requires Valid() && !single && node == None && 0 <= target < |steps|
      requires shouldRun && result == 0 && state != target && Aimed(lim)
      modifies this`trace, this`fail, this`last, this`state, this`shouldRun, this`result
      ensures Valid() && (fail == old(fail) || fail == CPUHP_INVALID)
      ensures bringup != (old(state) < target) && old(last).None? ==>
                Astray(steps, old(state), bringup, lim, old(fail), old(trace), state, result, trace, Reliable(bringup))
      ensures bringup == (old(state) < target) && result == 0 ==>
                state == target && last == None && trace == old(trace) + WalkFrom(steps, old(state), target, lim)
      ensures bringup == (old(state) < target) && result != 0 ==>
                && OnTheWay(old(state), target, g) && state == (if bringup then g + 1 else g - 1)
                && !AtStake(old(state), Entered(g, bringup), bringup, fail)
                && (old(last) == None ==> StoppedAt(old(trace), old(state), g, n, injected))
      ensures bringup == (old(state) < target) && Reliable(bringup)
              && !AtStake(old(state), Entered(target, !bringup), bringup, old(fail)) ==>
                result == 0
      ensures bringup == (old(state) < target) && Trips(steps, old(state), bringup, old(fail)) ==>
                result == -EAGAIN && g == old(state) && injected
    {
      hide RunningIn, StoppedIn, Walk, WalkFrom, Reliable, Astray, Trips;
      g, n, injected := 0, 0, false;
      ghost var p: nat := state;
      RunStarts(lim);
      while shouldRun
        invariant Running(p, lim, old(trace), old(last), old(fail))
        decreases shouldRun, Distance(state, target)
      {
        g, n, injected := RunOnce(p, lim, old(trace), old(last), old(fail));
        if result != 0 {
          return;
        }
      }
      RunEnds(p, lim, old(trace), old(last), old(fail));
    }

    ghost predicate Running(p: nat, lim: nat, t0: seq<Event>, l0: Option<nat>, f0: int)
      reads this
    {
      RunningIn(steps, Now(), p, lim, t0, l0, f0, Reliable(bringup))
    }

    lemma RunStarts(lim: nat)
      requires Valid() && !single && node == None && 0 <= target < |steps|
      requires shouldRun && result == 0 && state != target && Aimed(lim)
      ensures Running(state, lim, trace, last, fail)
    {
      WalkFromStart(steps, state, lim);
    }

    lemma RunEnds(p: nat, lim: nat, t0: seq<Event>, l0: Option<nat>, f0: int)
      requires Running(p, lim, t0, l0, f0) && !shouldRun
      ensures Valid() && (fail == f0 || fail == CPUHP_INVALID) && result == 0
      ensures bringup != (p < target) && l0.None? ==>
                Astray(steps, p, bringup, lim, f0, t0, state, result, trace, Reliable(bringup))
      ensures p < |steps| && 0 <= target < |steps|
      ensures bringup == (p < target) ==>
                && (p != target ==> lim <= Units(steps[Entered(p, p < target)], p < target))
                && state == target && last == None && trace == t0 + WalkFrom(steps, p, target, lim)
                && (p != target ==> !Trips(steps, p, bringup, f0))
    {
    }

    /** One run of the thread, seen from where it started. */
    method RunOnce(ghost p: nat, ghost lim: nat, ghost t0: seq<Event>, ghost l0: Option<nat>, ghost f0: int)
      returns (ghost g: nat, ghost n: nat, ghost injected: bool)
      requires Running(p, lim, t0, l0, f0) && shouldRun
      modifies this`trace, this`fail, this`last, this`state, this`shouldRun, this`result
      ensures result == 0 ==> Running(p, lim, t0, l0, f0) && (shouldRun ==> Distance(state, target) < Distance(old(state), target))
      ensures result != 0 ==>
                g == old(state) && HaltedIn(steps, Now(), p, lim, t0, l0, f0, g, n, injected, Reliable(bringup))
    {
      hide Walk, WalkFrom, Sound, Done, Failing, Reliable, Full, Ran, Astray, StoppedIn, Trips, HaltedIn, Distance;
      g := state;
      ghost var s := Entered(g, bringup);
      ghost var l := if g == p then lim else Units(steps[s], bringup);
      ghost var before := Now();
      injected := fail == s;
      n := ThreadFun(l);
      if bringup == (p < target) {
        RanTowards(steps, before, Now(), p, lim, t0, l0, f0, l, n, Reliable(bringup));
      } else {
        RanAway(steps, before, Now(), p, lim, t0, l0, f0, l, n, Reliable(bringup));
      }
    }

    /** The end of a failed transition from state p: the failing state's calls and all others
        are taken back. Only if a run of the thread was needed for that is the error gone from
        st->result. */
    ghost predicate RolledBack(t0: seq<Event>, p: nat, g: nat, b: bool, n: nat, ret: int, injected: bool)
      reads this`state, this`trace, this`result
    {
      && p < |steps| && g < |steps| && Stuck(steps, b, g, n, injected) && Sound(steps)
      && state == p
      && trace == t0 + Attempt(steps, p, g, b, n, ret, injected)
      && result == if g == p && (injected || !steps[Entered(g, b)].multi) then ret else 0
    }

    /** The call for state t the processor is already in, with an error left in st->result: the
        state behind the next one is brought up, and the processor is in it. */
    ghost predicate Overshot(t0: seq<Event>, t: nat, f0: int)
      reads this`state, this`trace, this`result
    {
      t + 2 < |steps| && Astray(steps, t + 1, true, Units(steps[t + 2], true), f0, t0, state, result, trace, true)
    }

    /** A state transition never ends short of its start or its target. If it fails,
        every call it made is taken back: the calls of the states behind it in reverse
        state order, those of a partly run state in list order. The one exception is a
        call for the state the processor is already in while an error is left in st->result. */
    method KickAp(t: int) returns (ret: int, ghost g: nat, ghost n: nat, ghost injected: bool)
      requires Valid() && node == None && 0 <= t < |steps|
      requires Reliable(!(state < t))
      requires state == t && result != 0 ==> state + 2 < |steps|
      modifies this`trace, this`fail, this`last, this`state, this`shouldRun, this`result
      modifies this`rollback, this`target, this`single, this`bringup
      ensures Valid() && (fail == old(fail) || fail == CPUHP_INVALID)
      ensures ret == 0 ==> state == t && result == 0 && trace == old(trace) + Walk(steps, old(state), t)
      ensures ret != 0 && old(state) != t ==>
                OnTheWay(old(state), t, g) && RolledBack(old(trace), old(state), g, old(state) < t, n, ret, injected)
      ensures old(state) != t && Trips(steps, old(state), old(state) < t, old(fail)) ==>
                ret == -EAGAIN && g == old(state) && injected
      ensures old(state) == t ==> ret == old(result)
      ensures old(state) == t && ret != 0 ==> Overshot(old(trace), t, old(fail))
    {
      hide Walk, WalkFrom, Done, Failing, Full, Attempt, Reliable, Astray;
      var prev := SetState(t);
      ghost var lim := if state == t then 0 else Units(steps[Entered(state, bringup)], bringup);
      WalkFromAll(steps, state, t, lim);
      WalkFromStart(steps, state, lim);
      g, n, injected := KickThread(lim);
      ret := result;
      if ret != 0 {
        if prev != t {
          KickBack(prev, g, n, injected, old(trace));
        } else {
          KickOver(prev);
        }
      }
    }

    /** cpuhp_reset_state and the second kick, after a transition from prev that failed */
    method KickBack(prev: int, ghost g: nat, ghost n: nat, ghost injected: bool, ghost t0: seq<Event>)
      requires Valid() && node == None && !single && result != 0 && 0 <= prev < |steps| && 0 <= target < |steps|
      requires prev != target && bringup == (prev < target) && OnTheWay(prev, target, g)
      requires state == (if bringup then g + 1 else g - 1) && Reliable(!bringup)
      requires !AtStake(prev, Entered(g, bringup), bringup, fail)
      requires StoppedAt(t0, prev, g, n, injected)
      modifies this`trace, this`fail, this`last, this`state, this`shouldRun, this`result
      modifies this`rollback, this`target, this`bringup
      ensures Valid() && (fail == old(fail) || fail == CPUHP_INVALID)
      ensures RolledBack(t0, prev, g, old(bringup), n, old(result), injected)
    {
      hide Walk, WalkFrom, Done, Failing, Full, Attempt, Reliable, Astray;
      TurnBack(steps, t0, prev, g, bringup, n, result, injected);
      ResetState(prev);
      ghost var back := if last.Some? then n
                        else if state == target then 0
                        else Units(steps[Entered(state, bringup)], bringup);
      ghost var g', n', i' := KickThread(back);
    }

    /** The same, when there was no transition */
    method KickOver(prev: int)
      requires Valid() && node == None && !single && result != 0 && prev == state == target && state + 2 < |steps|
      requires !bringup && last == None && Reliable(true)
      modifies this`trace, this`fail, this`last, this`state, this`shouldRun, this`result
      modifies this`rollback, this`target, this`bringup
      ensures Valid() && (fail == old(fail) || fail == CPUHP_INVALID)
      ensures Overshot(old(trace), old(state), old(fail))
    {
      hide Walk, WalkFrom, Done, Failing, Full, Astray, Reliable;
      ResetState(prev);
      ghost var g, n, i := KickThread(Units(steps[state + 1], true));
    }

    /** That an error is left in st->result is no exotic case: a transition whose first callback
        fails, here by injection, leaves it there. The processor is told to stay where it is, and
        ends two states up. */
    method FailAndStay(t: int) returns (ret: int)
      requires Valid() && node == None && state < t < |steps| && state + 2 < |steps|
      requires Reliable(true) && Reliable(false) && Trips(steps, state, true, fail)
      modifies this`trace, this`fail, this`last, this`state, this`shouldRun, this`result
      modifies this`rollback, this`target, this`single, this`bringup
      ensures ret == -EAGAIN && state == old(state) + 2 && result == 0
      ensures trace == old(trace) + Full(steps, old(state) + 2, true)
    {
      hide Walk, WalkFrom, Done, Failing, Attempt, Reliable;
      ghost var g, n, injected;
      ret, g, n, injected := KickAp(t);
      NothingTried(steps, state, n, -EAGAIN);
      ret, g, n, injected := KickAp(state);
    }

    /** cpuhp_invoke_callback for a state transition run by the control processor:
        nothing is remembered, a multi-instance state is cleaned up on the spot, and what is
        returned is the result of the last call. */
    method InvokeForgetting(s: nat, b: bool) returns (ret: int, ghost v: Visit)
      requires s < |steps|
      modifies this`trace, this`fail
      ensures fail == if old(fail) == s then CPUHP_INVALID else old(fail)
      ensures VisitOk(steps, s, b, v) && ret == Result(v)
      ensures trace == old(trace) + Visited(steps, s, b, v) && Told(callback, old(trace), steps, s, b, v)
      ensures v.Injected? <==> old(fail) == s && HasCallback(steps[s], b)
    {
      hide Told;
      var step := steps[s];
      if fail == s && HasCallback(step, b) {
        fail := CPUHP_INVALID;
        v := Injected;
        QuietTold(callback, trace, steps, s, b, v);
        return -EAGAIN, v;
      }
      if fail == s {
        fail := CPUHP_INVALID;
      }
      if !HasCallback(step, b) {
        v := Visit(0, 0, []);
        QuietTold(callback, trace, steps, s, b, v);
        return 0, v;
      }
      if !step.multi {
        ret := Call(s, b, None);
        v := Visit(if ret == 0 then 1 else 0, ret, []);
        SingleTold(callback, old(trace), steps, s, b, ret);
        return;
      }
      ret, v := InvokeAll(s, b);
    }

    /** The loop over the instances */
    method InvokeAll(s: nat, b: bool) returns (ret: int, ghost v: Visit)
      requires s < |steps| && steps[s].multi && HasCallback(steps[s], b)
      modifies this`trace
      ensures VisitOk(steps, s, b, v) && ret == Result(v) && v.Visit?
      ensures trace == old(trace) + Visited(steps, s, b, v) && Told(callback, old(trace), steps, s, b, v)
    {
      hide Told, Done;
      var step := steps[s];
      var cnt := 0;
      DoneNone(steps, s, b);
      for k := 0 to |step.instances|
        invariant cnt == k && trace == old(trace) + Done(steps, s, b, k)
        invariant forall j | 0 <= j < k :: callback(old(trace) + Done(steps, s, b, j), s, b, Unit(steps[s], j)) == 0
      {
        ret := Call(s, b, Some(step.instances[k]));
        if ret != 0 {
          ghost var first, h := ret, trace;
          ghost var rets;
          ret, rets := TakeBack(s, b, cnt, ret);
          v := Visit(k, first, rets);
          FailedTold(callback, old(trace), steps, s, b, v);
          return;
        }
        DoneStep(steps, s, b, k);
        cnt := cnt + 1;
      }
      v := Visit(cnt, 0, []);
      FullTold(callback, old(trace), steps, s, b, v);
      ret := 0;
    }

    /** The err: path of cpuhp_invoke_callback: ret is overwritten. */
    method TakeBack(s: nat, b: bool, cnt: nat, failure: int) returns (ret: int, ghost rets: seq<int>)
      requires s < |steps| && steps[s].multi && cnt <= |steps[s].instances|
      modifies this`trace
      ensures |rets| == if CleansUp(steps[s], b) then cnt else 0
      ensures trace == old(trace) + Calls(steps, s, !b, rets)
      ensures ret == if rets == [] then failure else rets[|rets| - 1]
      ensures forall k | 0 <= k < |rets| ::
                callback(old(trace) + Calls(steps, s, !b, rets[..k]), s, !b, Unit(steps[s], k)) == rets[k]
    {
      ret, rets := failure, [];
      if !HasCallback(steps[s], !b) {
        return;
      }
      for k := 0 to cnt
        invariant |rets| == k && trace == old(trace) + Calls(steps, s, !b, rets)
        invariant ret == if rets == [] then failure else rets[|rets| - 1]
        invariant forall j | 0 <= j < k ::
                    callback(old(trace) + Calls(steps, s, !b, rets[..j]), s, !b, Unit(steps[s], j)) == rets[j]
      {
        ret := Call(s, !b, Some(steps[s].instances[k]));
        CallsStep(steps, s, !b, rets, ret);
        ghost var more := rets + [ret];
        assert forall j | 0 <= j <= k :: more[..j] == rets[..j];
        rets := more;
      }
    }

    /** undo_cpu_up: it goes on whatever the results. */
    method UndoUp() returns (ghost downs: seq<Visit>)
      requires 0 <= target < state <= |steps|
      requires !AtStake(target, state - 1, true, fail)
      modifies this`trace, this`fail, this`state
      ensures state == target && fail == old(fail) && |downs| == old(state) - 1 - target
      ensures Downward(steps, old(state) - 1, downs) && trace == old(trace) + Descent(steps, old(state) - 1, downs)
      ensures DescentTold(callback, old(trace), steps, old(state) - 1, downs)
    {
      hide VisitOk, Visited, Told, DescentTold;
      ghost var top: nat := state - 1;
      state := state - 1;
      downs := [];
      NobodyTold(callback, trace, fail, steps, top);
      while state > target
        invariant target <= state <= top && fail == old(fail) && |downs| == top - state
        invariant Downward(steps, top, downs) && trace == old(trace) + Descent(steps, top, downs)
        invariant DescentTold(callback, old(trace), steps, top, downs)
      {
        ghost var v;
        var ignored;
        ignored, v := InvokeForgetting(state, false);
        DescentStep(steps, top, downs, v);
        DescentToldStep(callback, old(trace), steps, top, downs, v);
        downs := downs + [v];
        state := state - 1;
      }
    }

    /** can_rollback_cpu; bringupCpu is CPUHP_BRINGUP_CPU */
    predicate CanRollback(hotplug: bool, bringupCpu: int)
      reads this`state
    {
      hotplug || state <= bringupCpu
    }

    /** cpuhp_up_callbacks, for all callbacks and tables: the visits say all there is to say, and
        HotplugRollback says when they are exact. */
    method UpCallbacks(t: int, hotplug: bool, bringupCpu: int) returns (ret: int, ghost ups: seq<Visit>, ghost downs: seq<Visit>)
      requires 0 <= state < |steps| && 0 <= t < |steps|
      modifies this`trace, this`fail, this`state, this`target
      ensures old(state) >= t ==> ret == 0 && state == old(state) && trace == old(trace) && ups == [] == downs
      ensures old(state) < t ==>
                && |trace| >= |old(trace)| && trace[..|old(trace)|] == old(trace)
                && Climbed(steps, old(state), t, hotplug || old(state) + |ups| <= bringupCpu, ups, downs, ret, state, trace[|old(trace)|..])
                && AscentTold(callback, old(trace), old(fail), steps, old(state), ups)
                && DescentTold(callback, old(trace) + Ascent(steps, old(state), ups), steps, old(state) + |ups| - 1, downs)
    {
      hide VisitOk, Visited, Told, AscentTold, DescentTold, Ascent, Descent, Result;
      var p: nat := state;
      ups, downs := [], [];
      ret := 0;
      ghost var h := trace;
      NothingYet(steps, p, old(trace));
      NobodyTold(callback, trace, fail, steps, p);
      while state < t
        invariant p <= state < |steps| && (p < t ==> state <= t) && (p >= t ==> state == p) && ret == 0
        invariant fail == old(fail) || fail == CPUHP_INVALID
        invariant !AtStake(p, state, true, fail)
        invariant |ups| == state - p && Upward(steps, p, ups) && downs == []
        invariant forall i | 0 <= i < |ups| :: Result(ups[i]) == 0
        invariant trace == old(trace) + Ascent(steps, p, ups) && AscentTold(callback, old(trace), old(fail), steps, p, ups)
        invariant fail == old(fail) || AtStake(p, state, true, old(fail))
        invariant h == trace
      {
        ghost var v;
        state := state + 1;
        ret, v := InvokeForgetting(state, true);
        AscentStep(steps, p, ups, v);
        AscentToldStep(callback, old(trace), old(fail), steps, p, ups, v);
        ups := ups + [v];
        h := trace;
        assert h == old(trace) + Ascent(steps, p, ups);
        if ret != 0 {
          if CanRollback(hotplug, bringupCpu) {
            target := p;
            downs := UndoUp();
          }
          break;
        }
      }
      if p < t {
        NobodyTold(callback, h, fail, steps, p + |ups| - 1);
        assert DescentTold(callback, h, steps, p + |ups| - 1, downs);
        TraceIs(old(trace), Ascent(steps, p, ups), Descent(steps, p + |ups| - 1, downs), trace);
      }
    }
  }

  lemma TraceIs(t0: seq<Event>, a: seq<Event>, b: seq<Event>, tr: seq<Event>)
    requires tr == t0 + a + b
    ensures |tr| >= |t0| && tr[..|t0|] == t0 && tr[|t0|..] == a + b
  {
  }

  lemma NothingYet(steps: seq<Step>, p: nat, t0: seq<Event>)
    requires p < |steps|
    ensures Upward(steps, p, []) && Ascent(steps, p, []) == [] && t0 + [] == t0
  {
  }

  lemma NobodyTold(callback: (seq<Event>, nat, bool, Option<nat>) -> int, h: seq<Event>, fail: int, steps: seq<Step>, p: nat)
    requires p < |steps|
    ensures Upward(steps, p, []) && AscentTold(callback, h, fail, steps, p, [])
    ensures Downward(steps, p, []) && DescentTold(callback, h, steps, p, []) && Descent(steps, p, []) == [] && h + [] == h
  {
  }

  lemma DoneNone(steps: seq<Step>, s: nat, b: bool)
    requires s < |steps|
    ensures Done(steps, s, b, 0) == []
  {
  }

  lemma QuietTold(callback: (seq<Event>, nat, bool, Option<nat>) -> int, h: seq<Event>,
                  steps: seq<Step>, s: nat, b: bool, v: Visit)
    requires VisitOk(steps, s, b, v) && (v.Injected? || (v.ret == 0 && v.n == 0))
    ensures Told(callback, h, steps, s, b, v) && Visited(steps, s, b, v) == [] && h + [] == h
  {
  }

  lemma SingleTold(callback: (seq<Event>, nat, bool, Option<nat>) -> int, h: seq<Event>,
                   steps: seq<Step>, s: nat, b: bool, ret: int)
    requires s < |steps| && !steps[s].multi && HasCallback(steps[s], b) && callback(h, s, b, None) == ret
    ensures var v := Visit(if ret == 0 then 1 else 0, ret, []);
            VisitOk(steps, s, b, v) && Told(callback, h, steps, s, b, v) && Visited(steps, s, b, v) == [Event(s, b, None, ret)]
  {
    DoneNone(steps, s, b);
    assert h + [] == h;
  }

  lemma FullTold(callback: (seq<Event>, nat, bool, Option<nat>) -> int, h: seq<Event>,
                 steps: seq<Step>, s: nat, b: bool, v: Visit)
    requires s < |steps| && v.Visit? && v.ret == 0 && v.n == Units(steps[s], b) && v.cleanup == []
    requires forall j | 0 <= j < v.n :: callback(h + Done(steps, s, b, j), s, b, Unit(steps[s], j)) == 0
    ensures Told(callback, h, steps, s, b, v)
  {
  }

  lemma FailedTold(callback: (seq<Event>, nat, bool, Option<nat>) -> int, h: seq<Event>,
                   steps: seq<Step>, s: nat, b: bool, v: Visit)
    requires VisitOk(steps, s, b, v) && v.Visit? && v.ret != 0
    requires forall j | 0 <= j < v.n :: callback(h + Done(steps, s, b, j), s, b, Unit(steps[s], j)) == 0
    requires callback(h + Done(steps, s, b, v.n), s, b, Unit(steps[s], v.n)) == v.ret
    requires var h' := h + Done(steps, s, b, v.n) + [Event(s, b, Unit(steps[s], v.n), v.ret)];
             forall k | 0 <= k < |v.cleanup| ::
               callback(h' + Calls(steps, s, !b, v.cleanup[..k]), s, !b, Unit(steps[s], k)) == v.cleanup[k]
    ensures Told(callback, h, steps, s, b, v)
    ensures h + Visited(steps, s, b, v) ==
            h + Done(steps, s, b, v.n) + [Event(s, b, Unit(steps[s], v.n), v.ret)] + Calls(steps, s, !b, v.cleanup)
  {
  }

  /** Calls that were made and taken back again. */
  ghost function Attempt(steps: seq<Step>, p: nat, g: nat, b: bool, n: nat, ret: int, injected: bool): seq<Event>
    requires p < |steps| && g < |steps| && Stuck(steps, b, g, n, injected)
  {
    var f := Entered(g, b);
    Walk(steps, p, g) + Done(steps, f, b, n) + Failing(steps, f, b, n, ret, injected)
    + (if CleansUp(steps[f], b) then Done(steps, f, !b, n) else []) + Walk(steps, g, p)
  }

  lemma NothingTried(steps: seq<Step>, p: nat, n: nat, ret: int)
    requires Sound(steps) && p < |steps| && Stuck(steps, true, p, n, true)
    ensures Attempt(steps, p, p, true, n, ret, true) == []
  {
  }

  /** The walk of a rollback, from where the failure left the walker: after a partly
      run state it starts there, otherwise one state earlier. */
  lemma TurnBack(steps: seq<Step>, t0: seq<Event>, p: nat, g: nat, b: bool, n: nat, ret: int, injected: bool)
    requires Sound(steps) && p < |steps| && g < |steps| && Stuck(steps, b, g, n, injected)
    requires (b ==> p <= g) && (!b ==> 0 < g <= p)
    ensures !steps[Entered(g, b)].multi || n <= Units(steps[Entered(g, b)], !b)
    ensures var f := Entered(g, b);
            var tr := t0 + Walk(steps, p, g) + Done(steps, f, b, n) + Failing(steps, f, b, n, ret, injected);
            && (Remembered(steps[f], n, injected).Some? ==>
                  (var at: nat := if b then g + 1 else g - 1;
                   tr + WalkFrom(steps, at, p, n) == t0 + Attempt(steps, p, g, b, n, ret, injected)))
            && (Remembered(steps[f], n, injected).None? && g != p ==>
                  tr + WalkFrom(steps, g, p, Units(steps[Entered(g, !b)], !b)) == t0 + Attempt(steps, p, g, b, n, ret, injected))
            && (Remembered(steps[f], n, injected).None? && g == p ==> tr == t0 + Attempt(steps, p, g, b, n, ret, injected))
  {
    hide Walk, WalkFrom, Done, Failing;
    var f := Entered(g, b);
    RollbackWalk(steps, p, g, b, n);
    var undone := if steps[f].multi then Done(steps, f, !b, n) else [];
    var tr := Walk(steps, p, g) + Done(steps, f, b, n) + Failing(steps, f, b, n, ret, injected);
    Chain(t0, Walk(steps, p, g), Done(steps, f, b, n), Failing(steps, f, b, n, ret, injected), undone, Walk(steps, g, p));
    assert Remembered(steps[f], n, injected).None? ==> undone == [];
  }

  lemma RollbackWalk(steps: seq<Step>, p: nat, g: nat, b: bool, n: nat)
    requires p < |steps| && g < |steps| && Entered(g, b) < |steps| && (b ==> p <= g) && (!b ==> 0 < g <= p)
    ensures n <= Units(steps[Entered(g, b)], !b) ==>
              WalkFrom(steps, if b then g + 1 else g - 1, p, n) == Done(steps, Entered(g, b), !b, n) + Walk(steps, g, p)
    ensures g != p ==> WalkFrom(steps, g, p, Units(steps[Entered(g, !b)], !b)) == Walk(steps, g, p)
    ensures g == p ==> Walk(steps, g, p) == []
  {
    hide Walk, Done, Full;
    if g == p {
      WalkNowhere(steps, p);
    } else {
      hide WalkFrom;
      WalkFromAll(steps, g, p, Units(steps[Entered(g, !b)], !b));
    }
  }

  lemma WalkNowhere(steps: seq<Step>, p: nat)
    requires p < |steps|
    ensures Walk(steps, p, p) == []
  {
  }

  lemma Chain(t: seq<Event>, a: seq<Event>, b: seq<Event>, c: seq<Event>, d: seq<Event>, e: seq<Event>)
    ensures (t + a + b + c) + (d + e) == t + (a + b + c + d + e)
    ensures d == [] ==> t + a + b + c + e == t + (a + b + c + d + e)
    ensures d == [] && e == [] ==> t + a + b + c == t + (a + b + c + d + e)
  {
  }

  // ---------- What the callbacks add up to ----------

  /** Is this unit of state s set up after these events, if it was (or not) before? */
  ghost function Live(events: seq<Event>, s: nat, node: Option<nat>, before: bool): bool {
    if events == [] then before
    else
      var e := events[|events| - 1];
      if e.state == s && e.node == node && e.ret == 0 then e.bringup else Live(events[..|events| - 1], s, node, before)
  }

  lemma {:induction false} LiveConcat(a: seq<Event>, b: seq<Event>, s: nat, node: Option<nat>, before: bool)
    ensures Live(a + b, s, node, before) == Live(b, s, node, Live(a, s, node, before))
  {
    if b == [] {
      assert a + b == a;
    } else {
      assert (a + b)[..|a + b| - 1] == a + b[..|b| - 1];
      LiveConcat(a, b[..|b| - 1], s, node, before);
    }
  }

  ghost predicate HasUnit(step: Step, node: Option<nat>, n: nat)
    requires step.multi ==> n <= |step.instances|
  {
    exists k :: 0 <= k < n && Unit(step, k) == node
  }

  lemma {:induction false} LiveDone(steps: seq<Step>, at: nat, b: bool, n: nat, s: nat, node: Option<nat>, before: bool)
    requires at < |steps| && n <= Units(steps[at], b)
    ensures Live(Done(steps, at, b, n), s, node, before) == if at == s && HasUnit(steps[at], node, n) then b else before
  {
    if n > 0 {
      LiveDone(steps, at, b, n - 1, s, node, before);
      DoneStep(steps, at, b, n - 1);
      assert Done(steps, at, b, n)[..n - 1] == Done(steps, at, b, n - 1);
    }
  }

  /** A unit of a state with both callbacks. */
  ghost predicate TwoSided(steps: seq<Step>, s: nat, node: Option<nat>) {
    && s < |steps| && steps[s].startup && steps[s].teardown
    && HasUnit(steps[s], node, Units(steps[s], true))
  }

  lemma {:induction false} LiveWalk(steps: seq<Step>, p: nat, to: nat, s: nat, node: Option<nat>, before: bool)
    requires p < |steps| && to < |steps| && TwoSided(steps, s, node)
    ensures Live(Walk(steps, p, to), s, node, before) ==
            if AtStake(p, Entered(to, !(p < to)), p < to, s) then p < to else before
    decreases if p < to then to - p else p - to
  {
    hide Done, HasUnit, Live;
    if p < to {
      LiveWalk(steps, p, to - 1, s, node, before);
      LiveConcat(Walk(steps, p, to - 1), Full(steps, to, true), s, node, before);
      LiveDone(steps, to, true, Units(steps[to], true), s, node, Live(Walk(steps, p, to - 1), s, node, before));
    } else if to < p {
      LiveWalk(steps, p, to + 1, s, node, before);
      LiveConcat(Walk(steps, p, to + 1), Full(steps, to + 1, false), s, node, before);
      LiveDone(steps, to + 1, false, Units(steps[to + 1], false), s, node, Live(Walk(steps, p, to + 1), s, node, before));
    } else {
      LiveNone(s, node, before);
    }
  }

  lemma LiveNone(s: nat, node: Option<nat>, before: bool)
    ensures Live([], s, node, before) == before
  {
  }

  /** After a walk exactly the states up to the one reached are set up. */
  lemma WalkKeepsLive(steps: seq<Step>, p: nat, t: nat, s: nat, node: Option<nat>)
    requires p < |steps| && t < |steps| && TwoSided(steps, s, node)
    ensures Live(Walk(steps, p, t), s, node, s <= p) == (s <= t)
  {
    LiveWalk(steps, p, t, s, node, s <= p);
  }

  lemma LiveFailing(steps: seq<Step>, f: nat, b: bool, n: nat, ret: int, injected: bool, s: nat, node: Option<nat>, before: bool)
    requires f < |steps| && (!injected ==> n < Units(steps[f], b)) && ret != 0
    ensures Live(Failing(steps, f, b, n, ret, injected), s, node, before) == before
  {
    var events := Failing(steps, f, b, n, ret, injected);
    assert !injected ==> events[..|events| - 1] == [];
  }

  /** Exact rollback: after a failed transition exactly the states up to the old one
      are set up again, instance by instance. */
  lemma AttemptKeepsLive(steps: seq<Step>, p: nat, g: nat, b: bool, n: nat, ret: int, injected: bool, s: nat, node: Option<nat>)
    requires Sound(steps) && p < |steps| && g < |steps| && Stuck(steps, b, g, n, injected) && ret != 0
    requires (b ==> p <= g) && (!b ==> 0 < g <= p)
    requires TwoSided(steps, s, node)
    ensures !steps[Entered(g, b)].multi || n <= Units(steps[Entered(g, b)], !b)
    ensures Live(Attempt(steps, p, g, b, n, ret, injected), s, node, s <= p) == (s <= p)
  {
    hide Done, Walk, Live, Failing, HasUnit, TwoSided;
    var f := Entered(g, b);
    var w1, d1, x, w2 := Walk(steps, p, g), Done(steps, f, b, n), Failing(steps, f, b, n, ret, injected), Walk(steps, g, p);
    var d2 := if steps[f].multi then Done(steps, f, !b, n) else [];
    var l0 := s <= p;
    var l1 := Live(w1, s, node, l0);
    var l2 := Live(d1, s, node, l1);
    WalkKeepsLive(steps, p, g, s, node);
    LiveDone(steps, f, b, n, s, node, l1);
    LiveFailing(steps, f, b, n, ret, injected, s, node, l2);
    LiveNone(s, node, l2);
    UndoneLive(steps, f, b, n, s, node, l1);
    WalkKeepsLive(steps, g, p, s, node);
    LiveConcat(w1, d1, s, node, l0);
    LiveConcat(w1 + d1, x, s, node, l0);
    LiveConcat(w1 + d1 + x, d2, s, node, l0);
    LiveConcat(w1 + d1 + x + d2, w2, s, node, l0);
  }

  /** The partly run state is back where it was: its first n units were set up and
      torn down again, or the other way round. */
  lemma UndoneLive(steps: seq<Step>, f: nat, b: bool, n: nat, s: nat, node: Option<nat>, l1: bool)
    requires Sound(steps) && f < |steps| && n <= Units(steps[f], b)
    requires n < Units(steps[f], b) || n == 0
    requires s == f ==> l1 == !b
    ensures steps[f].multi ==> n <= Units(steps[f], !b)
    ensures Live(if steps[f].multi then Done(steps, f, !b, n) else [], s, node, Live(Done(steps, f, b, n), s, node, l1)) == l1
  {
    assert SoundStep(steps[f]);
    LiveDone(steps, f, b, n, s, node, l1);
    LiveNone(s, node, Live(Done(steps, f, b, n), s, node, l1));
    if steps[f].multi {
      LiveDone(steps, f, !b, n, s, node, Live(Done(steps, f, b, n), s, node, l1));
    } else {
      assert n == 0;
    }
  }
}
