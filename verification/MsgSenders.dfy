/**
 The list of senders that wait for room, and what ss_wakeup of ipc/msg.c (a method
 of MsgQueues.MsgQueue) does to it: the loop moves each sender that does not fit to the tail of the very list
 it walks, and stops when it meets the first one it moved.
 */
module MsgSenders {
  import opened Options

  /** struct msg_sender */
  datatype Sender = Sender(task: nat, size: nat)

  function Filter<T(!new)>(p: T -> bool, s: seq<T>): (r: seq<T>)
    ensures |r| <= |s|
    ensures forall x :: x in r <==> x in s && p(x)
  {
    if s == [] then []
    else
      assert s == s[..|s| - 1] + [s[|s| - 1]];
      Filter(p, s[..|s| - 1]) + (if p(s[|s| - 1]) then [s[|s| - 1]] else [])
  }

  ghost predicate DistinctTasks(ss: seq<Sender>) {
    forall j, k | 0 <= j < k < |ss| :: ss[j].task != ss[k].task
  }

  /** The position of a list node. */
  function At(ss: seq<Sender>, s: Sender): (k: nat)
    requires s in ss
    ensures k < |ss| && ss[k] == s
  {
    if ss[0] == s then 0 else 1 + At(ss[1..], s)
  }

  /** list.next; None is the list head */
  function Next(ss: seq<Sender>, s: Sender): Option<Sender>
    requires s in ss
  {
    var k := At(ss, s);
    if k + 1 < |ss| then Some(ss[k + 1]) else None
  }

  /** list_move_tail */
  function MoveTail(ss: seq<Sender>, s: Sender): seq<Sender>
    requires s in ss
  {
    var k := At(ss, s);
    ss[..k] + ss[k + 1..] + [s]
  }

  function Tasks(ss: seq<Sender>): (r: set<nat>)
    ensures forall t :: t in r <==> exists k | 0 <= k < |ss| :: ss[k].task == t
  {
    set k | 0 <= k < |ss| :: ss[k].task
  }

  function Not(p: Sender -> bool): Sender -> bool {
    s => !p(s)
  }

  /** The list after the first k senders were examined: those that fit, those not
      yet examined, those that were moved. */
  ghost function Rotated(fits: Sender -> bool, ss: seq<Sender>, k: nat): seq<Sender>
    requires k <= |ss|
  {
    Filter(fits, ss[..k]) + ss[k..] + Filter(Not(fits), ss[..k])
  }

  /** What the loop leaves behind: a stable partition with the fitting senders first. */
  ghost function Sorted(fits: Sender -> bool, ss: seq<Sender>): seq<Sender> {
    Filter(fits, ss) + Filter(Not(fits), ss)
  }

  lemma FilterStep<T(!new)>(p: T -> bool, s: seq<T>, k: nat)
    requires k < |s|
    ensures Filter(p, s[..k + 1]) == Filter(p, s[..k]) + if p(s[k]) then [s[k]] else []
  {
    assert s[..k + 1][..k] == s[..k];
  }

  lemma {:induction false} FilterDistinct(p: Sender -> bool, ss: seq<Sender>)
    requires DistinctTasks(ss)
    ensures DistinctTasks(Filter(p, ss))
  {
    if ss != [] {
      var init, last := ss[..|ss| - 1], ss[|ss| - 1];
      FilterDistinct(p, init);
      forall x | x in Filter(p, init)
        ensures x.task != last.task
      {
        assert x in init;
      }
    }
  }

  lemma RotatedDistinct(fits: Sender -> bool, ss: seq<Sender>, k: nat)
    requires DistinctTasks(ss) && k <= |ss|
    ensures DistinctTasks(Rotated(fits, ss, k)) && |Rotated(fits, ss, k)| == |ss|
  {
    var a, b, c := Filter(fits, ss[..k]), ss[k..], Filter(Not(fits), ss[..k]);
    FilterDistinct(fits, ss[..k]);
    FilterDistinct(Not(fits), ss[..k]);
    FilterSizes(fits, ss[..k]);
    forall x, y | x in a && (y in b || y in c)
      ensures x.task != y.task
    {
    }
    forall x, y | x in b && y in c
      ensures x.task != y.task
    {
    }
    assert Rotated(fits, ss, k) == a + b + c;
    ConcatDistinct(a, b);
    ConcatDistinct(a + b, c);
  }

  lemma ConcatDistinct(a: seq<Sender>, b: seq<Sender>)
    requires DistinctTasks(a) && DistinctTasks(b)
    requires forall x, y | x in a && y in b :: x.task != y.task
    ensures DistinctTasks(a + b)
  {
  }

  lemma {:induction false} FilterSizes(p: Sender -> bool, ss: seq<Sender>)
    ensures |Filter(p, ss)| + |Filter(Not(p), ss)| == |ss|
  {
    if ss != [] {
      FilterSizes(p, ss[..|ss| - 1]);
    }
  }

  lemma AtIs(ss: seq<Sender>, k: nat)
    requires DistinctTasks(ss) && k < |ss|
    ensures At(ss, ss[k]) == k
  {
  }

  lemma NextIs(ss: seq<Sender>, k: nat)
    requires DistinctTasks(ss) && k < |ss|
    ensures Next(ss, ss[k]) == if k + 1 < |ss| then Some(ss[k + 1]) else None
  {
    AtIs(ss, k);
  }

  lemma MoveTailIs(a: seq<Sender>, x: Sender, b: seq<Sender>)
    requires DistinctTasks(a + [x] + b)
    ensures MoveTail(a + [x] + b, x) == a + b + [x]
  {
    var ss := a + [x] + b;
    AtIs(ss, |a|);
    assert ss[..|a|] == a && ss[|a| + 1..] == b;
  }

  function FirstTask(ss: seq<Sender>): Option<nat> {
    if ss == [] then None else Some(ss[0].task)
  }

  lemma StopElsewhere(fits: Sender -> bool, ss: seq<Sender>, k: nat)
    requires DistinctTasks(ss) && k < |ss|
    ensures FirstTask(Filter(Not(fits), ss[..k])) != Some(ss[k].task)
  {
    var moved := Filter(Not(fits), ss[..k]);
    if moved != [] {
      assert moved[0] in ss[..k];
    }
  }

  lemma WalkOver(fits: Sender -> bool, ss: seq<Sender>)
    ensures var now, p, moved := Rotated(fits, ss, |ss|), |Filter(fits, ss[..|ss|])|, Filter(Not(fits), ss[..|ss|]);
            p < |now| ==> FirstTask(moved) == Some(now[p].task)
  {
  }

  /** One examined sender: the list, and where the walk goes on although it took the
      next node before it moved the current one. */
  lemma RotatedStep(fits: Sender -> bool, ss: seq<Sender>, k: nat)
    requires DistinctTasks(ss) && k < |ss|
    ensures var now, next := Rotated(fits, ss, k), Rotated(fits, ss, k + 1);
            var p, q := |Filter(fits, ss[..k])|, |Filter(fits, ss[..k + 1])|;
            && p < |now| == |next| == |ss| && now[p] == ss[k] && q <= |next|
            && (if fits(ss[k]) then next == now && q == p + 1 else next == MoveTail(now, ss[k]) && q == p)
            && (if p + 1 < |now| then q < |next| && next[q] == now[p + 1] else k + 1 == |ss|)
            && now[p] in now
  {
    hide DistinctTasks, At, MoveTail, Next, Filter;
    var a, b, c := Filter(fits, ss[..k]), ss[k + 1..], Filter(Not(fits), ss[..k]);
    RotatedDistinct(fits, ss, k);
    RotatedDistinct(fits, ss, k + 1);
    FilterStep(fits, ss, k);
    FilterStep(Not(fits), ss, k);
    Regroup(a, ss[k], b, c);
    assert ss[k..] == [ss[k]] + b;
    assert Rotated(fits, ss, k) == a + [ss[k]] + (b + c);
    MoveTailIs(a, ss[k], b + c);
  }

  lemma Regroup(a: seq<Sender>, x: Sender, b: seq<Sender>, c: seq<Sender>)
    ensures a + ([x] + b) + c == a + [x] + (b + c) == (a + [x]) + b + (c + [])
    ensures a + (b + c) + [x] == (a + []) + b + (c + [x])
    ensures b + c != [] ==> (a + [x] + (b + c))[|a| + 1] == (a + (b + c) + [x])[|a|]
  {
  }

  lemma TasksAppend(ss: seq<Sender>, s: Sender)
    ensures Tasks(ss + [s]) == Tasks(ss) + {s.task} && Tasks(ss + []) == Tasks(ss)
  {
    forall t
      ensures t in Tasks(ss + [s]) <==> t in Tasks(ss) + {s.task}
    {
      assert forall k | 0 <= k < |ss| :: (ss + [s])[k] == ss[k];
      assert (ss + [s])[|ss|] == s;
    }
    assert ss + [] == ss;
  }

  /** One round of the loop, for a sender not examined before. */
  lemma StepOver(fits: Sender -> bool, ss: seq<Sender>, k: nat)
    requires DistinctTasks(ss) && k < |ss|
    ensures var now, next, p, s := Rotated(fits, ss, k), Rotated(fits, ss, k + 1), |Filter(fits, ss[..k])|, ss[k];
            var stop, q := FirstTask(Filter(Not(fits), ss[..k])), |Filter(fits, ss[..k + 1])|;
            && p < |now| && now[p] == s && stop != Some(s.task) && q <= |next|
            && next == (if fits(s) then now else MoveTail(now, s))
            && q == (if fits(s) then p + 1 else p)
            && Tasks(Filter(fits, ss[..k + 1])) == Tasks(Filter(fits, ss[..k])) + (if fits(s) then {s.task} else {})
            && FirstTask(Filter(Not(fits), ss[..k + 1])) == (if !fits(s) && stop.None? then Some(s.task) else stop)
            && (match Next(now, s)
                case None => k + 1 == |ss|
                case Some(t) => q < |next| && next[q] == t)
  {
    hide DistinctTasks, Filter, Rotated, MoveTail;
    RotatedStep(fits, ss, k);
    StopElsewhere(fits, ss, k);
    RotatedDistinct(fits, ss, k);
    FilterStep(fits, ss, k);
    FilterStep(Not(fits), ss, k);
    TasksAppend(Filter(fits, ss[..k]), ss[k]);
    NextIs(Rotated(fits, ss, k), |Filter(fits, ss[..k])|);
  }

  lemma RotatedNone(fits: Sender -> bool, ss: seq<Sender>)
    ensures Tasks([]) == {} && FirstTask([]) == None
    ensures Filter(fits, ss[..0]) == [] && Filter(Not(fits), ss[..0]) == [] && Rotated(fits, ss, 0) == ss
    ensures ss[0..] == ss && Rotated(fits, ss, |ss|) == Sorted(fits, ss) && ss[..|ss|] == ss
  {
    assert ss[..|ss|] == ss;
  }
}
