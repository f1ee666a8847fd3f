/**
 When cpuhp_up_callbacks keeps its promise. The err: path of cpuhp_invoke_callback
 overwrites the failure by what the calls return that take the instances back, so a failure
 behind the first instance is lost: the walk goes on over a state that is not set up.
 */
module HotplugRollback {
  import opened Options
  import opened Hotplug

  /** A call failed, and the caller is told 0. */
  predicate Lost(v: Visit) {
    v.Visit? && v.ret != 0 && Result(v) == 0
  }

  ghost predicate NoneLost(vs: seq<Visit>) {
    forall i | 0 <= i < |vs| :: !Lost(vs[i])
  }

  /** The calls that took instances back succeeded. */
  predicate Smooth(v: Visit) {
    v.Visit? ==> forall k | 0 <= k < |v.cleanup| :: v.cleanup[k] == 0
  }

  ghost predicate AllSmooth(vs: seq<Visit>) {
    forall i | 0 <= i < |vs| :: Smooth(vs[i])
  }

  /** No call failed. */
  ghost predicate Clean(vs: seq<Visit>) {
    forall i | 0 <= i < |vs| :: vs[i].Visit? && vs[i].ret == 0
  }

  /** A failure is lost only behind the first instance of a state that can be torn down, and, if
      the tearing down succeeds, always there. */
  lemma LostIff(steps: seq<Step>, s: nat, b: bool, v: Visit)
    requires VisitOk(steps, s, b, v)
    ensures Lost(v) ==> CleansUp(steps[s], b) && HasCallback(steps[s], b) && 0 < v.n < |steps[s].instances|
    ensures Smooth(v) ==> (Lost(v) <==> v.Visit? && v.ret != 0 && v.n > 0 && CleansUp(steps[s], b))
  {
  }

  // ---------- Counting failures ----------

  function Failures(events: seq<Event>): nat {
    if events == [] then 0
    else Failures(events[..|events| - 1]) + if events[|events| - 1].ret != 0 then 1 else 0
  }

  lemma {:induction false} FailuresConcat(a: seq<Event>, b: seq<Event>)
    ensures Failures(a + b) == Failures(a) + Failures(b)
  {
    if b == [] {
      assert a + b == a;
    } else {
      assert (a + b)[..|a + b| - 1] == a + b[..|b| - 1];
      FailuresConcat(a, b[..|b| - 1]);
    }
  }

  lemma FailuresOne(e: Event)
    ensures Failures([e]) == if e.ret != 0 then 1 else 0
  {
    assert [e][..0] == [];
    assert Failures([]) == 0;
  }

  lemma {:induction false} FailuresDone(steps: seq<Step>, s: nat, b: bool, n: nat)
    requires s < |steps| && n <= Units(steps[s], b)
    ensures Failures(Done(steps, s, b, n)) == 0
  {
    if n > 0 {
      FailuresDone(steps, s, b, n - 1);
      assert Done(steps, s, b, n)[..n - 1] == Done(steps, s, b, n - 1);
    }
  }

  lemma {:induction false} FailuresWalk(steps: seq<Step>, p: nat, t: nat)
    requires p < |steps| && t < |steps|
    ensures Failures(Walk(steps, p, t)) == 0
    decreases if p < t then t - p else p - t
  {
    hide Done;
    if p < t {
      FailuresWalk(steps, p, t - 1);
      FailuresDone(steps, t, true, Units(steps[t], true));
      FailuresConcat(Walk(steps, p, t - 1), Full(steps, t, true));
    } else if t < p {
      FailuresWalk(steps, p, t + 1);
      FailuresDone(steps, t + 1, false, Units(steps[t + 1], false));
      FailuresConcat(Walk(steps, p, t + 1), Full(steps, t + 1, false));
    }
  }

  lemma FailuresVisited(steps: seq<Step>, s: nat, b: bool, v: Visit)
    requires VisitOk(steps, s, b, v) && v.Visit? && v.ret != 0
    ensures Failures(Visited(steps, s, b, v)) >= 1
  {
    hide Done, Calls, Failures;
    var d, e, c := Done(steps, s, b, v.n), Event(s, b, Unit(steps[s], v.n), v.ret), Calls(steps, s, !b, v.cleanup);
    FailuresOne(e);
    FailuresConcat(d, [e]);
    FailuresConcat(d + [e], c);
  }

  // ---------- Going up ----------

  lemma AscentLast(steps: seq<Step>, p: nat, vs: seq<Visit>)
    requires Upward(steps, p, vs) && vs != []
    ensures var init := vs[..|vs| - 1];
            && Upward(steps, p, init) && VisitOk(steps, p + |vs|, true, vs[|vs| - 1])
            && Ascent(steps, p, vs) == Ascent(steps, p, init) + Visited(steps, p + |vs|, true, vs[|vs| - 1])
  {
    assert VisitOk(steps, p + 1 + (|vs| - 1), true, vs[|vs| - 1]);
  }

  lemma {:induction false} AscentWalks(steps: seq<Step>, p: nat, vs: seq<Visit>)
    requires Upward(steps, p, vs) && Clean(vs)
    ensures Ascent(steps, p, vs) == Walk(steps, p, p + |vs|)
  {
    hide Full, VisitOk;
    if vs != [] {
      AscentLast(steps, p, vs);
      AscentWalks(steps, p, vs[..|vs| - 1]);
    }
  }

  lemma {:induction false} AscentFails(steps: seq<Step>, p: nat, vs: seq<Visit>, i: nat)
    requires Upward(steps, p, vs) && i < |vs| && vs[i].Visit? && vs[i].ret != 0
    ensures Failures(Ascent(steps, p, vs)) >= 1
  {
    hide Visited, VisitOk, Failures;
    var init := vs[..|vs| - 1];
    AscentLast(steps, p, vs);
    FailuresConcat(Ascent(steps, p, init), Visited(steps, p + |vs|, true, vs[|vs| - 1]));
    if i < |init| {
      AscentFails(steps, p, init, i);
    } else {
      FailuresVisited(steps, p + |vs|, true, vs[i]);
    }
  }

  lemma PassedClean(vs: seq<Visit>)
    requires forall i | 0 <= i < |vs| :: Result(vs[i]) == 0
    ensures NoneLost(vs) <==> Clean(vs)
    ensures forall i | 0 <= i < |vs| :: vs[i].Visit?
  {
    forall i | 0 <= i < |vs|
      ensures vs[i].Visit? && (!Lost(vs[i]) <==> vs[i].ret == 0)
    {
      assert Result(vs[i]) == 0;
      CleanResult(vs[i]);
    }
  }

  lemma CleanResult(v: Visit)
    requires Result(v) == 0
    ensures v.Visit? && (!Lost(v) <==> v.ret == 0)
  {
  }

  lemma AscentExact(steps: seq<Step>, p: nat, vs: seq<Visit>)
    requires Upward(steps, p, vs) && forall i | 0 <= i < |vs| :: Result(vs[i]) == 0
    ensures Ascent(steps, p, vs) == Walk(steps, p, p + |vs|) <==> NoneLost(vs)
    ensures !NoneLost(vs) ==> Failures(Ascent(steps, p, vs)) >= 1
  {
    hide Ascent, Walk, Failures, Result, Lost, VisitOk;
    PassedClean(vs);
    FailuresWalk(steps, p, p + |vs|);
    if NoneLost(vs) {
      AscentWalks(steps, p, vs);
    } else {
      var i :| 0 <= i < |vs| && vs[i].ret != 0;
      AscentFails(steps, p, vs, i);
    }
  }

  /** A transition that reports success is in its target; its calls are those of the walk if and
      only if no failure was lost. */
  lemma ReachesExactly(steps: seq<Step>, p: nat, t: nat, rollback: bool, ups: seq<Visit>, downs: seq<Visit>,
                       ret: int, state: int, events: seq<Event>)
    requires Climbed(steps, p, t, rollback, ups, downs, ret, state, events) && ret == 0
    ensures state == t && (events == Walk(steps, p, t) <==> NoneLost(ups))
  {
    hide Ascent, Walk, Result, VisitOk, NoneLost;
    NothingDown(steps, t - 1, Ascent(steps, p, ups));
    AscentExact(steps, p, ups);
  }

  lemma NothingDown(steps: seq<Step>, top: nat, a: seq<Event>)
    requires top < |steps|
    ensures Downward(steps, top, []) && a + Descent(steps, top, []) == a
  {
  }

  // ---------- Coming back ----------

  lemma DescentLast(steps: seq<Step>, top: nat, vs: seq<Visit>)
    requires Downward(steps, top, vs) && vs != []
    ensures var init := vs[..|vs| - 1];
            && Downward(steps, top, init) && VisitOk(steps, top - (|vs| - 1), false, vs[|vs| - 1])
            && Descent(steps, top, vs) == Descent(steps, top, init) + Visited(steps, top - (|vs| - 1), false, vs[|vs| - 1])
  {
  }

  lemma {:induction false} DescentWalks(steps: seq<Step>, top: nat, vs: seq<Visit>)
    requires Downward(steps, top, vs) && Clean(vs)
    ensures Descent(steps, top, vs) == Walk(steps, top, top - |vs|)
  {
    hide Full, VisitOk;
    if vs != [] {
      DescentLast(steps, top, vs);
      DescentWalks(steps, top, vs[..|vs| - 1]);
    }
  }

  /** What the last visit of a failed transition leaves in the trace: it had nothing to clean up. */
  lemma FailedVisit(steps: seq<Step>, g: nat, v: Visit)
    requires VisitOk(steps, g + 1, true, v) && Result(v) != 0 && Smooth(v)
    ensures var n := if v.Injected? then 0 else v.n;
            && Stuck(steps, true, g, n, v.Injected?)
            && (v.Visit? ==> v.ret == Result(v) && (v.n == 0 || !CleansUp(steps[g + 1], true)))
            && Visited(steps, g + 1, true, v) ==
               Done(steps, g + 1, true, n) + Failing(steps, g + 1, true, n, Result(v), v.Injected?)
               + (if CleansUp(steps[g + 1], true) then Done(steps, g + 1, false, n) else [])
  {
  }

  lemma FailuresFailing(steps: seq<Step>, g: nat, v: Visit, n: nat)
    requires VisitOk(steps, g + 1, true, v) && Result(v) != 0 && Smooth(v) && n == if v.Injected? then 0 else v.n
    ensures Failures(Visited(steps, g + 1, true, v)) == if v.Injected? then 0 else 1
  {
    hide Done;
    FailedVisit(steps, g, v);
    if v.Visit? {
      var d, e := Done(steps, g + 1, true, n), Event(g + 1, true, Unit(steps[g + 1], n), v.ret);
      assert Calls(steps, g + 1, false, v.cleanup) == [];
      assert Visited(steps, g + 1, true, v) == d + [e] + [];
      assert d + [e] + [] == d + [e];
      FailuresDone(steps, g + 1, true, n);
      FailuresOne(e);
      FailuresConcat(d, [e]);
    }
  }

  lemma FiveParts(a: seq<Event>, x: seq<Event>, y: seq<Event>, z: seq<Event>, w: seq<Event>)
    ensures a + (x + y + z) + w == a + x + y + z + w
  {
  }

  /** A transition that reports a failure, with calls that succeed in taking back, reports the
      failure itself and is back in its old state; every call was taken back, and no other was
      made, if and only if no failure was lost on the way. */
  lemma ReturnsExactly(steps: seq<Step>, p: nat, t: nat, ups: seq<Visit>, downs: seq<Visit>,
                       ret: int, state: int, events: seq<Event>)
    requires Climbed(steps, p, t, true, ups, downs, ret, state, events) && ret != 0
    requires AllSmooth(ups) && Clean(downs)
    ensures var g, v := p + |ups| - 1, ups[|ups| - 1];
            var n := if v.Injected? then 0 else v.n;
            && state == p && Stuck(steps, true, g, n, v.Injected?) && (v.Visit? ==> ret == v.ret)
            && (events == Attempt(steps, p, g, true, n, ret, v.Injected?) <==> NoneLost(ups))
  {
    hide Ascent, Descent, Walk, Result, VisitOk, Visited, Failures, Done, Failing, CleansUp;
    var k := |ups| - 1;
    var init, v, g := ups[..k], ups[k], p + k;
    var n := if v.Injected? then 0 else v.n;
    AscentLast(steps, p, ups);
    AscentExact(steps, p, init);
    DescentWalks(steps, g, downs);
    FailedVisit(steps, g, v);
    FiveParts(Ascent(steps, p, init), Done(steps, g + 1, true, n), Failing(steps, g + 1, true, n, ret, v.Injected?),
              if CleansUp(steps[g + 1], true) then Done(steps, g + 1, false, n) else [], Walk(steps, g, p));
    LostLast(ups);
    if !NoneLost(init) {
      TooMany(steps, p, g, v, n, Ascent(steps, p, init));
    }
  }

  lemma LostLast(ups: seq<Visit>)
    requires ups != [] && Result(ups[|ups| - 1]) != 0
    ensures NoneLost(ups) <==> NoneLost(ups[..|ups| - 1])
  {
    var init := ups[..|ups| - 1];
    assert ups == init + [ups[|ups| - 1]];
    forall i | 0 <= i < |ups| && NoneLost(init)
      ensures !Lost(ups[i])
    {
      if i < |init| {
        assert !Lost(init[i]);
      }
    }
    forall i | 0 <= i < |init| && NoneLost(ups)
      ensures !Lost(init[i])
    {
      assert init[i] == ups[i];
    }
  }

  /** With a failure more than an attempt has, the calls are not those of an attempt. */
  lemma TooMany(steps: seq<Step>, p: nat, g: nat, v: Visit, n: nat, a: seq<Event>)
    requires p <= g && VisitOk(steps, g + 1, true, v) && Result(v) != 0 && Smooth(v) && n == if v.Injected? then 0 else v.n
    requires Stuck(steps, true, g, n, v.Injected?) && Failures(a) >= 1
    ensures a + Visited(steps, g + 1, true, v) + Walk(steps, g, p) != Attempt(steps, p, g, true, n, Result(v), v.Injected?)
  {
    hide Walk, Result, VisitOk, Visited, Failures, Done, Failing, CleansUp;
    var x, back, w := Visited(steps, g + 1, true, v), Walk(steps, g, p), Walk(steps, p, g);
    FailedVisit(steps, g, v);
    FailuresFailing(steps, g, v, n);
    FailuresWalk(steps, g, p);
    FailuresWalk(steps, p, g);
    FailuresConcat(a, x);
    FailuresConcat(a + x, back);
    FailuresConcat(w, x);
    FailuresConcat(w + x, back);
    FiveParts(w, Done(steps, g + 1, true, n), Failing(steps, g + 1, true, n, Result(v), v.Injected?),
              if CleansUp(steps[g + 1], true) then Done(steps, g + 1, false, n) else [], back);
    assert Attempt(steps, p, g, true, n, Result(v), v.Injected?) == w + x + back;
  }

  /** Without hotplug support, past the bringup state, it stays where it failed. */
  lemma StaysExactly(steps: seq<Step>, p: nat, t: nat, ups: seq<Visit>, downs: seq<Visit>,
                     ret: int, state: int, events: seq<Event>)
    requires Climbed(steps, p, t, false, ups, downs, ret, state, events) && ret != 0
    requires AllSmooth(ups)
    ensures var g, v := p + |ups| - 1, ups[|ups| - 1];
            var n := if v.Injected? then 0 else v.n;
            && state == g + 1 && Stuck(steps, true, g, n, v.Injected?) && (v.Visit? ==> ret == v.ret)
            && (NoneLost(ups) ==> events == Walk(steps, p, g) + Visited(steps, g + 1, true, v))
  {
    hide Ascent, Walk, Result, VisitOk, Visited, Done, Failing, CleansUp;
    var k := |ups| - 1;
    AscentLast(steps, p, ups);
    AscentExact(steps, p, ups[..k]);
    FailedVisit(steps, p + k, ups[k]);
    NothingDown(steps, p + k, Ascent(steps, p, ups));
    LostLast(ups);
  }

  // ---------- What callbacks promise ----------

  /** Taking back always succeeds. */
  ghost predicate Succeeds(callback: (seq<Event>, nat, bool, Option<nat>) -> int, b: bool) {
    forall h, s, n :: callback(h, s, b, n) == 0
  }

  lemma ToldSmooth(callback: (seq<Event>, nat, bool, Option<nat>) -> int, h: seq<Event>,
                   steps: seq<Step>, s: nat, b: bool, v: Visit)
    requires VisitOk(steps, s, b, v) && Told(callback, h, steps, s, b, v)
    ensures Succeeds(callback, !b) ==> Smooth(v)
    ensures Succeeds(callback, b) && v.Visit? ==> v.ret == 0
  {
    if v.Visit? && v.ret != 0 {
      var h' := h + Done(steps, s, b, v.n) + [Event(s, b, Unit(steps[s], v.n), v.ret)];
      forall k | 0 <= k < |v.cleanup| && Succeeds(callback, !b)
        ensures v.cleanup[k] == 0
      {
        assert callback(h' + Calls(steps, s, !b, v.cleanup[..k]), s, !b, Unit(steps[s], k)) == v.cleanup[k];
      }
    }
  }

  /** If teardown callbacks succeed, so does all that takes back: in the err: path ... */
  lemma CleanupsSucceed(callback: (seq<Event>, nat, bool, Option<nat>) -> int, h: seq<Event>, fail: int,
                        steps: seq<Step>, p: nat, ups: seq<Visit>)
    requires Succeeds(callback, false) && Upward(steps, p, ups) && AscentTold(callback, h, fail, steps, p, ups)
    ensures AllSmooth(ups)
  {
    hide Told, VisitOk, Smooth, Ascent, Succeeds;
    forall i | 0 <= i < |ups|
      ensures Smooth(ups[i])
    {
      ToldSmooth(callback, h + Ascent(steps, p, ups[..i]), steps, p + 1 + i, true, ups[i]);
    }
  }

  /** ... and in undo_cpu_up. */
  lemma TeardownsSucceed(callback: (seq<Event>, nat, bool, Option<nat>) -> int, h: seq<Event>,
                         steps: seq<Step>, top: nat, downs: seq<Visit>)
    requires Succeeds(callback, false) && Downward(steps, top, downs) && DescentTold(callback, h, steps, top, downs)
    ensures Clean(downs)
  {
    hide Told, VisitOk, Smooth, Descent, Succeeds;
    forall i | 0 <= i < |downs|
      ensures downs[i].Visit? && downs[i].ret == 0
    {
      ToldSmooth(callback, h + Descent(steps, top, downs[..i]), steps, top - i, false, downs[i]);
    }
  }

  // ---------- Tables that keep the promise ----------

  ghost predicate OneEach(steps: seq<Step>, p: nat, t: nat) {
    forall s | p < s <= t && s < |steps| && steps[s].multi :: |steps[s].instances| <= 1
  }

  /** No state on the way has both callbacks and more than one instance. */
  ghost predicate Unbreakable(steps: seq<Step>, p: nat, t: nat) {
    forall s | p < s <= t && s < |steps| && steps[s].multi && steps[s].startup && steps[s].teardown ::
      |steps[s].instances| <= 1
  }

  /** On such a way no failure is lost, whatever the callbacks return. */
  lemma NothingLost(steps: seq<Step>, p: nat, t: nat, ups: seq<Visit>)
    requires Unbreakable(steps, p, t) && Upward(steps, p, ups) && p + |ups| <= t
    ensures NoneLost(ups)
  {
    forall i | 0 <= i < |ups|
      ensures !Lost(ups[i])
    {
      LostIff(steps, p + 1 + i, true, ups[i]);
    }
  }

  /** So the promise is kept, if what takes back succeeds. Breaks shows that no other table keeps
      it for all callbacks. */
  lemma KeepsUnbroken(steps: seq<Step>, p: nat, t: nat, ups: seq<Visit>, downs: seq<Visit>,
                      ret: int, state: int, events: seq<Event>)
    requires Climbed(steps, p, t, true, ups, downs, ret, state, events) && Unbreakable(steps, p, t)
    requires AllSmooth(ups) && Clean(downs)
    ensures ret == 0 ==> state == t && events == Walk(steps, p, t)
    ensures ret != 0 ==>
              var g, v := p + |ups| - 1, ups[|ups| - 1];
              var n := if v.Injected? then 0 else v.n;
              && state == p && Stuck(steps, true, g, n, v.Injected?) && (v.Visit? ==> ret == v.ret)
              && events == Attempt(steps, p, g, true, n, ret, v.Injected?)
  {
    hide Ascent, Descent, Walk, Result, VisitOk, Attempt;
    NothingLost(steps, p, t, ups);
    if ret == 0 {
      ReachesExactly(steps, p, t, true, ups, downs, ret, state, events);
    } else {
      ReturnsExactly(steps, p, t, ups, downs, ret, state, events);
    }
  }

  /** The same calls, whatever they returned */
  ghost predicate SameCalls(a: seq<Event>, b: seq<Event>) {
    |a| == |b| && forall k | 0 <= k < |a| :: a[k].state == b[k].state && a[k].bringup == b[k].bringup && a[k].node == b[k].node
  }

  lemma SameConcat(a: seq<Event>, b: seq<Event>, c: seq<Event>, d: seq<Event>)
    requires SameCalls(a, b) && SameCalls(c, d)
    ensures SameCalls(a + c, b + d)
  {
  }

  lemma VisitedOnce(steps: seq<Step>, s: nat, v: Visit)
    requires VisitOk(steps, s, false, v) && v.Visit? && (steps[s].multi ==> |steps[s].instances| <= 1)
    ensures SameCalls(Visited(steps, s, false, v), Full(steps, s, false))
  {
    if v.ret != 0 {
      assert v.n == 0 && v.cleanup == [];
    }
  }

  lemma {:induction false} DescentCalls(steps: seq<Step>, top: nat, vs: seq<Visit>)
    requires Downward(steps, top, vs) && OneEach(steps, top - |vs|, top)
    requires forall i | 0 <= i < |vs| :: vs[i].Visit?
    ensures SameCalls(Descent(steps, top, vs), Walk(steps, top, top - |vs|))
  {
    hide Full, VisitOk, Visited, SameCalls;
    if vs == [] {
      NothingSame(steps, top);
    } else {
      var k := |vs| - 1;
      DescentLast(steps, top, vs);
      DescentCalls(steps, top, vs[..k]);
      VisitedOnce(steps, top - k, vs[k]);
      SameConcat(Descent(steps, top, vs[..k]), Walk(steps, top, top - k), Visited(steps, top - k, false, vs[k]), Full(steps, top - k, false));
    }
  }

  lemma NothingSame(steps: seq<Step>, top: nat)
    requires top < |steps|
    ensures SameCalls(Descent(steps, top, []), Walk(steps, top, top))
  {
  }

  /** With at most one instance in each multi-instance state on the way, the promise is kept for
      every result of every callback, teardown included: the target is reached with the calls
      of the walk, or the failure is reported and all calls are taken back, one by one. */
  lemma KeepsPromise(steps: seq<Step>, p: nat, t: nat, rollback: bool, ups: seq<Visit>, downs: seq<Visit>,
                     ret: int, state: int, events: seq<Event>)
    requires Climbed(steps, p, t, rollback, ups, downs, ret, state, events) && OneEach(steps, p, t)
    requires forall i | 0 <= i < |downs| :: downs[i].Visit?
    ensures ret == 0 ==> state == t && events == Walk(steps, p, t)
    ensures ret != 0 ==>
              var g, v := p + |ups| - 1, ups[|ups| - 1];
              && Stuck(steps, true, g, 0, v.Injected?) && (v.Visit? ==> v.n == 0 && ret == v.ret)
              && (rollback ==> state == p)
              && |events| >= |Walk(steps, p, g) + Failing(steps, g + 1, true, 0, ret, v.Injected?)|
              && var done := Walk(steps, p, g) + Failing(steps, g + 1, true, 0, ret, v.Injected?);
                 events[..|done|] == done && SameCalls(events[|done|..], if rollback then Walk(steps, g, p) else [])
  {
    hide Ascent, Descent, Walk, Result, VisitOk, Visited, Failing, SameCalls;
    var k := |ups| - 1;
    NothingLost(steps, p, t, ups);
    if ret == 0 {
      ReachesExactly(steps, p, t, rollback, ups, downs, ret, state, events);
    } else {
      var g, v := p + k, ups[k];
      AscentLast(steps, p, ups);
      AscentExact(steps, p, ups[..k]);
      FirstFails(steps, g, v);
      LostLast(ups);
      DescentCalls(steps, g, downs);
      NothingSame(steps, g);
      assert Walk(steps, p, g) == Ascent(steps, p, ups[..k]);
      assert events == Walk(steps, p, g) + Failing(steps, g + 1, true, 0, ret, v.Injected?) + Descent(steps, g, downs);
      WalkNone(steps, g);
    }
  }

  lemma WalkNone(steps: seq<Step>, g: nat)
    requires g < |steps|
    ensures Walk(steps, g, g) == []
  {
  }

  lemma FirstFails(steps: seq<Step>, g: nat, v: Visit)
    requires VisitOk(steps, g + 1, true, v) && Result(v) != 0 && (steps[g + 1].multi ==> |steps[g + 1].instances| <= 1)
    ensures Stuck(steps, true, g, 0, v.Injected?) && (v.Visit? ==> v.n == 0 && Result(v) == v.ret)
    ensures Visited(steps, g + 1, true, v) == Failing(steps, g + 1, true, 0, Result(v), v.Injected?)
  {
  }

  // ---------- What is set up ----------

  lemma {:induction false} LiveCalls(steps: seq<Step>, at: nat, rets: seq<int>, s: nat, node: Option<nat>, before: bool)
    requires at < |steps| && (steps[at].multi ==> |rets| <= |steps[at].instances|)
    requires forall k | 0 <= k < |rets| :: rets[k] == 0
    ensures Live(Calls(steps, at, false, rets), s, node, before) ==
            if at == s && HasUnit(steps[at], node, |rets|) then false else before
  {
    if rets != [] {
      var init := rets[..|rets| - 1];
      assert rets == init + [0];
      LiveCalls(steps, at, init, s, node, before);
      CallsStep(steps, at, false, init, 0);
      var c := Calls(steps, at, false, init);
      assert (c + [Event(at, false, Unit(steps[at], |init|), 0)])[..|c|] == c;
      HasMore(steps[at], node, |init|);
    }
  }

  lemma HasMore(step: Step, node: Option<nat>, n: nat)
    requires step.multi ==> n < |step.instances|
    ensures HasUnit(step, node, n + 1) <==> HasUnit(step, node, n) || Unit(step, n) == node
  {
    if HasUnit(step, node, n) {
      var k :| 0 <= k < n && Unit(step, k) == node;
      assert 0 <= k < n + 1;
    }
    if Unit(step, n) == node {
      assert 0 <= n < n + 1;
    }
  }

  /** A visit going up that reports 0 sets up its state, or, if the failure is lost, leaves it as
      it was. */
  lemma LiveVisited(steps: seq<Step>, at: nat, v: Visit, s: nat, node: Option<nat>, before: bool)
    requires VisitOk(steps, at, true, v) && Result(v) == 0 && Smooth(v) && TwoSided(steps, s, node) && (at == s ==> !before)
    ensures Live(Visited(steps, at, true, v), s, node, before) == if at == s then !Lost(v) else before
  {
    hide Done, Calls, HasUnit, Live;
    var d := Done(steps, at, true, v.n);
    if v.ret == 0 {
      LiveDone(steps, at, true, v.n, s, node, before);
    } else {
      var e, c := Event(at, true, Unit(steps[at], v.n), v.ret), Calls(steps, at, false, v.cleanup);
      LiveDone(steps, at, true, v.n, s, node, before);
      LiveOne(e, s, node, Live(d, s, node, before));
      LiveCalls(steps, at, v.cleanup, s, node, Live(d, s, node, before));
      LiveConcat(d, [e], s, node, before);
      LiveConcat(d + [e], c, s, node, before);
    }
  }

  lemma LiveOne(e: Event, s: nat, node: Option<nat>, before: bool)
    requires e.ret != 0
    ensures Live([e], s, node, before) == before
  {
    assert [e][..0] == [];
    LiveNone(s, node, before);
  }

  /** After states were passed, those that lost a failure are not set up. */
  lemma {:induction false} LiveAscent(steps: seq<Step>, p: nat, vs: seq<Visit>, s: nat, node: Option<nat>)
    requires Upward(steps, p, vs) && AllSmooth(vs) && TwoSided(steps, s, node)
    requires forall i | 0 <= i < |vs| :: Result(vs[i]) == 0
    ensures Live(Ascent(steps, p, vs), s, node, s <= p) == (s <= p || (s <= p + |vs| && !Lost(vs[s - p - 1])))
  {
    hide TwoSided, Live, VisitOk, Visited, Result, Lost, Smooth;
    if vs == [] {
      LiveNone(s, node, s <= p);
    } else {
      var init, v := vs[..|vs| - 1], vs[|vs| - 1];
      AscentLast(steps, p, vs);
      LiveAscent(steps, p, init, s, node);
      LiveConcat(Ascent(steps, p, init), Visited(steps, p + |vs|, true, v), s, node, s <= p);
      LiveVisited(steps, p + |vs|, v, s, node, Live(Ascent(steps, p, init), s, node, s <= p));
    }
  }

  /** Success with a lost failure: the target is reached, and exactly the states that lost one are
      not set up. */
  lemma MissingStates(steps: seq<Step>, p: nat, t: nat, rollback: bool, ups: seq<Visit>, downs: seq<Visit>,
                      ret: int, state: int, events: seq<Event>, s: nat, node: Option<nat>)
    requires Climbed(steps, p, t, rollback, ups, downs, ret, state, events) && ret == 0 && AllSmooth(ups)
    requires TwoSided(steps, s, node)
    ensures state == t && Live(events, s, node, s <= p) == (s <= p || (s <= t && !Lost(ups[s - p - 1])))
  {
    hide TwoSided, Live, VisitOk, Result, Lost, Smooth, Ascent;
    NothingDown(steps, t - 1, Ascent(steps, p, ups));
    LiveAscent(steps, p, ups, s, node);
  }

  /** Failure behind a lost one: the rollback tears down what is not set up. */
  lemma TornDownTwice(steps: seq<Step>, p: nat, t: nat, ups: seq<Visit>, downs: seq<Visit>, ret: int, state: int,
                      events: seq<Event>, i: nat, node: Option<nat>)
    returns (k: nat)
    requires Climbed(steps, p, t, true, ups, downs, ret, state, events) && ret != 0
    requires AllSmooth(ups) && Clean(downs)
    requires i < |ups| - 1 && Lost(ups[i]) && TwoSided(steps, p + 1 + i, node)
    ensures k < |events| && events[k] == Event(p + 1 + i, false, node, 0) && !Live(events[..k], p + 1 + i, node, false)
  {
    hide Live, VisitOk, Visited, Result, Lost, Smooth, Ascent, Descent, Done, Walk;
    var g, s := p + |ups| - 1, p + 1 + i;
    var init, v := ups[..|ups| - 1], ups[|ups| - 1];
    var a, w := Ascent(steps, p, ups), Walk(steps, g, p);
    LiveBefore(steps, p, ups, i, node);
    DescentWalks(steps, g, downs);
    var m: nat := UnitIndex(steps, s, node);
    var j := WalkSplit(steps, g, p, s, m);
    k := |a| + j;
    assert (a + w)[k] == w[j] && (a + w)[..k] == a + w[..j];
    LiveConcat(a, w[..j], s, node, false);
  }

  lemma UnitIndex(steps: seq<Step>, s: nat, node: Option<nat>) returns (m: nat)
    requires TwoSided(steps, s, node)
    ensures s < |steps| && m < Units(steps[s], false) && Unit(steps[s], m) == node
  {
    m :| m < Units(steps[s], true) && Unit(steps[s], m) == node;
  }

  lemma LiveBefore(steps: seq<Step>, p: nat, ups: seq<Visit>, i: nat, node: Option<nat>)
    requires Upward(steps, p, ups) && AllSmooth(ups) && i < |ups| - 1 && Lost(ups[i]) && TwoSided(steps, p + 1 + i, node)
    requires forall j | 0 <= j < |ups| - 1 :: Result(ups[j]) == 0
    requires Result(ups[|ups| - 1]) != 0
    ensures !Live(Ascent(steps, p, ups), p + 1 + i, node, false)
  {
    hide Live, VisitOk, Visited, Result, Lost, Smooth, Ascent, TwoSided, Done, Failing;
    var k, s := |ups| - 1, p + 1 + i;
    var init, v := ups[..k], ups[k];
    AscentLast(steps, p, ups);
    assert init[i] == ups[i];
    LiveAscent(steps, p, init, s, node);
    FailedVisit(steps, p + k, v);
    LiveConcat(Ascent(steps, p, init), Visited(steps, p + |ups|, true, v), s, node, false);
    LiveElsewhere(steps, p + k, v, s, node);
  }

  /** A failed visit of another state leaves this one alone. */
  lemma LiveElsewhere(steps: seq<Step>, g: nat, v: Visit, s: nat, node: Option<nat>)
    requires VisitOk(steps, g + 1, true, v) && Result(v) != 0 && Smooth(v) && s != g + 1
    ensures !Live(Visited(steps, g + 1, true, v), s, node, false)
  {
    hide Live, Done, Calls;
    LiveNone(s, node, false);
    if v.Visit? {
      var d, e := Done(steps, g + 1, true, v.n), Event(g + 1, true, Unit(steps[g + 1], v.n), v.ret);
      assert v.cleanup == [];
      NoCalls(steps, g + 1);
      assert Visited(steps, g + 1, true, v) == d + [e];
      LiveDone(steps, g + 1, true, v.n, s, node, false);
      LiveConcat(d, [e], s, node, false);
      LiveOne(e, s, node, false);
    }
  }

  lemma NoCalls(steps: seq<Step>, s: nat)
    requires s < |steps|
    ensures Calls(steps, s, false, []) == []
  {
  }

  /** Where a walk down tears down unit m of state s */
  lemma {:induction false} WalkSplit(steps: seq<Step>, g: nat, p: nat, s: nat, m: nat) returns (j: nat)
    requires p < s <= g < |steps| && m < Units(steps[s], false)
    ensures j < |Walk(steps, g, p)| && Walk(steps, g, p)[j] == Event(s, false, Unit(steps[s], m), 0)
    ensures forall node :: !Live(Walk(steps, g, p)[..j], s, node, false)
    decreases g - p
  {
    hide Live, Done;
    var w := Walk(steps, g, p + 1);
    if s == p + 1 {
      j := |w| + m;
      var d := Done(steps, s, false, m);
      assert Walk(steps, g, p) == w + Full(steps, s, false);
      assert Full(steps, s, false)[..m] == d;
      assert Walk(steps, g, p)[..j] == w + d;
      forall node
        ensures !Live(w + d, s, node, false)
      {
        LiveConcat(w, d, s, node, false);
        LiveDown(steps, g, p + 1, s, node);
        LiveDone(steps, s, false, m, s, node, false);
      }
    } else {
      j := WalkSplit(steps, g, p + 1, s, m);
      assert Walk(steps, g, p)[..j] == w[..j];
    }
  }

  lemma {:induction false} LiveDown(steps: seq<Step>, g: nat, p: nat, s: nat, node: Option<nat>)
    requires p <= g < |steps|
    ensures !Live(Walk(steps, g, p), s, node, false)
    decreases g - p
  {
    hide Live, Done;
    if p == g {
      LiveNone(s, node, false);
    } else {
      LiveDown(steps, g, p + 1, s, node);
      LiveConcat(Walk(steps, g, p + 1), Full(steps, p + 1, false), s, node, false);
      LiveDone(steps, p + 1, false, Units(steps[p + 1], false), s, node, false);
    }
  }

  // ---------- Tables that break it ----------

  const EIO: int := 5

  /** One instance fails when it is set up, and everything else succeeds. */
  function FailsAt(s: nat, node: nat): (seq<Event>, nat, bool, Option<nat>) -> int {
    (h: seq<Event>, r: nat, b: bool, n: Option<nat>) => if r == s && b && n == Some(node) then -EIO else 0
  }

  /** A table with two instances of a state that can be torn down, anywhere on the way, breaks the
      promise for some callbacks: success is reported, and that state is not set up. */
  method Breaks(steps: seq<Step>, p: nat, t: nat, s: nat) returns (c: CpuState, ret: int)
    requires p < s <= t < |steps| && steps[s].multi && steps[s].startup && steps[s].teardown
    requires |steps[s].instances| >= 2 && steps[s].instances[0] != steps[s].instances[1]
    ensures fresh(c) && c.steps == steps && Succeeds(c.callback, false)
    ensures ret == 0 && c.state == t && c.trace != Walk(steps, p, t)
    ensures forall k | 0 <= k < |steps[s].instances| :: !Live(c.trace, s, Some(steps[s].instances[k]), false)
  {
    hide AscentTold, DescentTold, Walk, Live, TwoSided, AllSmooth, Clean, VisitOk, Ascent, Descent, Result;
    var second := steps[s].instances[1];
    c := new CpuState(steps, FailsAt(s, second), p);
    ghost var ups, downs;
    ret, ups, downs := c.UpCallbacks(t, true, 0);
    assert c.trace[0..] == c.trace;
    LosesAt(steps, p, t, s, second, ups, downs, ret, c.state, c.trace);
    forall k | 0 <= k < |steps[s].instances|
      ensures !Live(c.trace, s, Some(steps[s].instances[k]), false)
    {
      HasInstance(steps, s, k);
      MissingStates(steps, p, t, true, ups, downs, ret, c.state, c.trace, s, Some(steps[s].instances[k]));
    }
  }

  lemma HasInstance(steps: seq<Step>, s: nat, k: nat)
    requires s < |steps| && steps[s].multi && steps[s].startup && steps[s].teardown && k < |steps[s].instances|
    ensures TwoSided(steps, s, Some(steps[s].instances[k]))
  {
    assert Unit(steps[s], k) == Some(steps[s].instances[k]);
  }

  lemma LosesAt(steps: seq<Step>, p: nat, t: nat, s: nat, second: nat, ups: seq<Visit>, downs: seq<Visit>,
                ret: int, state: int, events: seq<Event>)
    requires p < s <= t < |steps| && steps[s].multi && steps[s].startup && steps[s].teardown
    requires |steps[s].instances| >= 2 && steps[s].instances[0] != steps[s].instances[1] == second
    requires Upward(steps, p, ups) && AscentTold(FailsAt(s, second), [], CPUHP_INVALID, steps, p, ups)
    requires Climbed(steps, p, t, true, ups, downs, ret, state, events)
    ensures ret == 0 && state == t && events != Walk(steps, p, t)
    ensures |ups| == t - p && Lost(ups[s - p - 1]) && AllSmooth(ups) && Succeeds(FailsAt(s, second), false)
  {
    hide Told, VisitOk, Ascent, Descent, Walk, Lost, Result;
    CleanupsSucceed(FailsAt(s, second), [], CPUHP_INVALID, steps, p, ups);
    forall i | 0 <= i < |ups|
      ensures Result(ups[i]) == 0 && (p + 1 + i == s ==> Lost(ups[i]))
    {
      VisitFails(steps, s, second, [] + Ascent(steps, p, ups[..i]), p + 1 + i, ups[i]);
    }
    assert Lost(ups[s - p - 1]);
    ReachesExactly(steps, p, t, true, ups, downs, ret, state, events);
  }

  lemma VisitFails(steps: seq<Step>, s: nat, second: nat, h: seq<Event>, at: nat, v: Visit)
    requires VisitOk(steps, at, true, v) && Told(FailsAt(s, second), h, steps, at, true, v) && v.Visit? && Smooth(v)
    requires s < |steps| && steps[s].multi && steps[s].startup && steps[s].teardown
    requires |steps[s].instances| >= 2 && steps[s].instances[0] != steps[s].instances[1] == second
    ensures Result(v) == 0 && (at == s ==> Lost(v))
  {
    VisitSays(s, second, h, steps, at, v);
    if at == s {
      assert Unit(steps[at], 1) == Some(second);
      assert v.n <= 1;
      LostIff(steps, at, true, v);
    }
  }

  lemma VisitSays(s: nat, second: nat, h: seq<Event>, steps: seq<Step>, at: nat, v: Visit)
    requires VisitOk(steps, at, true, v) && Told(FailsAt(s, second), h, steps, at, true, v) && v.Visit?
    ensures v.ret != 0 ==> at == s && Unit(steps[at], v.n) == Some(second)
    ensures forall k | 0 <= k < v.n :: !(at == s && Unit(steps[at], k) == Some(second))
  {
    var f := FailsAt(s, second);
    forall k | 0 <= k < v.n
      ensures !(at == s && Unit(steps[at], k) == Some(second))
    {
      assert f(h + Done(steps, at, true, k), at, true, Unit(steps[at], k)) == 0;
    }
  }

  /** The smallest one: two instances, the second of which fails. The call returns 0, the state is
      the target, and nothing is set up. */
  method TwoInstances() returns (c: CpuState, ret: int)
    ensures fresh(c) && ret == 0 && c.state == 1
    ensures c.trace == [Event(1, true, Some(7), 0), Event(1, true, Some(8), -EIO), Event(1, false, Some(7), 0)]
  {
    hide AscentTold, DescentTold, AllSmooth, Clean, VisitOk, Ascent, Descent, Result;
    var steps := [Step(false, false, false, []), Step(true, true, true, [7, 8])];
    c := new CpuState(steps, FailsAt(1, 8), 0);
    ghost var ups, downs;
    ret, ups, downs := c.UpCallbacks(1, true, 0);
    assert c.trace[0..] == c.trace;
    LosesAt(steps, 0, 1, 1, 8, ups, downs, ret, c.state, c.trace);
    OneLost(steps, ups, downs, ret, c.state, c.trace);
  }

  lemma OneLost(steps: seq<Step>, ups: seq<Visit>, downs: seq<Visit>, ret: int, state: int, events: seq<Event>)
    requires steps == [Step(false, false, false, []), Step(true, true, true, [7, 8])]
    requires Climbed(steps, 0, 1, true, ups, downs, ret, state, events) && ret == 0
    requires AscentTold(FailsAt(1, 8), [], CPUHP_INVALID, steps, 0, ups)
    requires |ups| == 1 && Lost(ups[0]) && AllSmooth(ups)
    ensures events == [Event(1, true, Some(7), 0), Event(1, true, Some(8), -EIO), Event(1, false, Some(7), 0)]
  {
    var v := ups[0];
    AscentLast(steps, 0, ups);
    NothingDown(steps, 0, Ascent(steps, 0, ups));
    LostIff(steps, 1, true, v);
    assert v.n == 1 && |v.cleanup| == 1;
    assert Told(FailsAt(1, 8), [] + Ascent(steps, 0, ups[..0]), steps, 1, true, v);
    assert v.ret == -EIO && v.cleanup == [0];
    assert Ascent(steps, 0, ups[..0]) == [];
    assert Visited(steps, 1, true, v) ==
           [Event(1, true, Some(7), 0)] + [Event(1, true, Some(8), -EIO)] + [Event(1, false, Some(7), 0)];
  }
}
