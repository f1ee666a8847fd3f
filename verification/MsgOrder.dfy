/**
 The order of one message queue over its whole life: messages stand in the order in which
 they were accepted, a receiver gets the earliest message it may have, and a message that is
 handed over directly is one its receiver asked for.
 */
module MsgOrder {
  import opened Options
  import opened MsgFind
  import opened MsgSenders
  import opened MsgQueues
  import opened MsgRuns

  /** Each of xs is one of ys, and stands in xs before another exactly if it does in ys. */
  ghost predicate KeepsOrder<T(!new)>(xs: seq<T>, ys: seq<T>) {
    && (forall j | 0 <= j < |xs| :: xs[j] in ys)
    && (forall j, k, a, b | 0 <= j < k < |xs| && 0 <= a < |ys| && 0 <= b < |ys| && ys[a] == xs[j] && ys[b] == xs[k] :: a < b)
  }

  ghost predicate Absent<T>(ys: seq<T>, y: T) {
    forall k | 0 <= k < |ys| :: ys[k] != y
  }

  /** What one step does to the messages: nothing, one leaves, all leave, or one more is
      accepted and handed over or put at the end. */
  ghost predicate Flows(s: Sys, r: Sys) {
    || (r.accepted == s.accepted && (r.q.messages == s.q.messages || r.q.messages == []))
    || (r.accepted == s.accepted
        && exists k :: 0 <= k < |s.q.messages| && r.q.messages == s.q.messages[..k] + s.q.messages[k + 1..])
    || (exists m :: Absent(s.accepted, m) && r.accepted == s.accepted + [m]
          && (r.q.messages == s.q.messages || r.q.messages == s.q.messages + [m]))
  }

  lemma RemoveKeepsOrder<T(!new)>(xs: seq<T>, k: nat, ys: seq<T>)
    requires KeepsOrder(xs, ys) && k < |xs|
    ensures KeepsOrder(xs[..k] + xs[k + 1..], ys)
  {
    var r := xs[..k] + xs[k + 1..];
    assert forall j | 0 <= j < |r| :: r[j] == xs[if j < k then j else j + 1];
  }

  /** Where something of the longer list stands in the shorter one */
  lemma PlaceBefore<T>(ys: seq<T>, y: T, x: T, a: nat)
    requires Absent(ys, y) && a < |ys + [y]| && (ys + [y])[a] == x
    ensures x == y <==> a == |ys|
    ensures x != y ==> a < |ys| && ys[a] == x
  {
  }

  lemma AbsentStays<T>(ys: seq<T>, y: T, x: T)
    requires Absent(ys, y)
    ensures y in ys + [y] && (x in ys ==> x in ys + [y] && x != y)
  {
  }

  lemma PairBefore<T(!new)>(xs: seq<T>, ys: seq<T>, y: T, j: nat, k: nat, a: nat, b: nat)
    requires KeepsOrder(xs, ys) && Absent(ys, y)
    requires j < k <= |xs| && a <= |ys| && b <= |ys|
    requires (ys + [y])[a] == (xs + [y])[j] && (ys + [y])[b] == (xs + [y])[k]
    ensures a < b
  {
    hide Absent;
    PlaceBefore(ys, y, (xs + [y])[j], a);
    PlaceBefore(ys, y, (xs + [y])[k], b);
    assert xs[j] in ys;
    AbsentStays(ys, y, xs[j]);
  }

  lemma AppendedOrder<T(!new)>(xs: seq<T>, ys: seq<T>, y: T)
    requires KeepsOrder(xs, ys) && Absent(ys, y)
    ensures KeepsOrder(xs + [y], ys + [y])
  {
    hide Absent;
    forall j | 0 <= j < |xs + [y]|
      ensures (xs + [y])[j] in ys + [y]
    {
      AbsentStays(ys, y, (xs + [y])[j]);
    }
    forall j, k, a, b | 0 <= j < k < |xs + [y]| && 0 <= a < |ys + [y]| && 0 <= b < |ys + [y]|
                        && (ys + [y])[a] == (xs + [y])[j] && (ys + [y])[b] == (xs + [y])[k]
      ensures a < b
    {
      PairBefore(xs, ys, y, j, k, a, b);
    }
  }

  /** One more at the end of the longer list, which may or may not be at the end of the shorter. */
  lemma AppendKeepsOrder<T(!new)>(xs: seq<T>, ys: seq<T>, y: T)
    requires KeepsOrder(xs, ys) && Absent(ys, y)
    ensures KeepsOrder(xs, ys + [y]) && KeepsOrder(xs + [y], ys + [y])
  {
    hide KeepsOrder, Absent;
    AppendedOrder(xs, ys, y);
    RemoveKeepsOrder(xs + [y], |xs|, ys + [y]);
    assert (xs + [y])[..|xs|] + (xs + [y])[|xs| + 1..] == xs;
  }

  lemma NoneKeepsOrder<T(!new)>(ys: seq<T>)
    ensures KeepsOrder([], ys)
  {
  }

  lemma PlacesOf<T(!new)>(xs: seq<T>, ys: seq<T>, j: nat, k: nat) returns (a: nat, b: nat)
    requires KeepsOrder(xs, ys) && j < k < |xs|
    ensures a < b < |ys| && ys[a] == xs[j] && ys[b] == xs[k]
  {
    assert xs[j] in ys && xs[k] in ys;
    a :| 0 <= a < |ys| && ys[a] == xs[j];
    b :| 0 <= b < |ys| && ys[b] == xs[k];
  }

  lemma FlowsKeepOrder(s: Sys, r: Sys)
    requires KeepsOrder(s.q.messages, s.accepted) && Flows(s, r)
    ensures KeepsOrder(r.q.messages, r.accepted)
  {
    hide KeepsOrder, Absent;
    if r.accepted == s.accepted {
      if r.q.messages == [] {
        NoneKeepsOrder(s.accepted);
      } else if r.q.messages != s.q.messages {
        var k :| 0 <= k < |s.q.messages| && r.q.messages == s.q.messages[..k] + s.q.messages[k + 1..];
        RemoveKeepsOrder(s.q.messages, k, s.accepted);
      }
    } else {
      var m :| Absent(s.accepted, m) && r.accepted == s.accepted + [m]
               && (r.q.messages == s.q.messages || r.q.messages == s.q.messages + [m]);
      AppendKeepsOrder(s.q.messages, s.accepted, m);
    }
  }

  // ---------- Every step ----------

  lemma SendingFlows(s: Sys, t: nat, m: Msg, nowait: bool)
    requires t < |s.pcs| && QueueOk(s.q) && Absent(s.accepted, m)
    ensures Flows(s, Sending(s, t, m, nowait))
  {
    hide QueueOk, Pipelined, Taker, Absent, Room;
    PipelinedKeeps(s.q, m);
  }

  lemma ReceivedFlows(s: Sys, t: nat)
    requires t < |s.pcs| && s.pcs[t].WantReceive?
    ensures Flows(s, MsgRuns.Received(s, t))
  {
    hide SendersWoken, Selected, Chosen;
    var req := s.pcs[t].req;
    if ReceiveResult(s.q, req).Got? {
      var k := Chosen(s.q, req).value;
      ChosenWithin(s.q, req);
      GotQueue(s.q, k);
    }
  }

  lemma ChosenWithin(q: Queue, req: Request)
    ensures Chosen(q, req).Some? ==>
              var k := Chosen(q, req).value; k < |q.messages| && Selected(q.messages, req.typ, req.mode, k)
  {
  }

  lemma MineUnsent(s: Sys, t: nat)
    requires SysInv(s) && t < |s.pcs| && (s.pcs[t].WantSend? || s.pcs[t].AsleepSending?)
    ensures Absent(s.accepted, s.pcs[t].msg)
  {
    hide ListsOk, CountersOk, Conserved;
  }

  lemma ActFlows(s: Sys, t: nat, a: Action)
    requires SysInv(s) && Can(s, t, a)
    ensures Flows(s, Act(s, t, a))
  {
    hide ListsOk, CountersOk, Conserved, IdsOk, Sending, MsgRuns.Received, Flows,
         SendersWoken, Expunged, WithoutSender, WithoutReceiver, Absent, QueueOk;
    SysQueueOk(s);
    var r := Act(s, t, a);
    match a
    case SetLimit(qbytes) => SetMessages(s.q, qbytes); SameFlows(s, r);
    case Rmid => NoneFlows(s, r);
    case Round =>
      if s.pcs[t].WantReceive? {
        ReceivedFlows(s, t);
      } else {
        MineUnsent(s, t);
        SendingFlows(s, t, s.pcs[t].msg, s.pcs[t].nowait);
      }
    case Relock(signal) =>
      if s.pcs[t].AsleepSending? && s.q.valid && !signal {
        WithoutSenderOk(s.q, t);
        var w := s.(q := WithoutSender(s.q, t));
        MineUnsent(s, t);
        SendingFlows(w, t, s.pcs[t].msg, false);
        SameStart(s, w, r);
      } else {
        SameFlows(s, r);
      }
    case _ => SameFlows(s, r);
  }

  lemma SetMessages(q: Queue, qbytes: nat)
    ensures AfterSet(q, qbytes).messages == q.messages
  {
  }

  lemma SameFlows(s: Sys, r: Sys)
    requires r.accepted == s.accepted && r.q.messages == s.q.messages
    ensures Flows(s, r)
  {
  }

  lemma NoneFlows(s: Sys, r: Sys)
    requires r.accepted == s.accepted && r.q.messages == []
    ensures Flows(s, r)
  {
  }

  lemma SameStart(s: Sys, w: Sys, r: Sys)
    requires Flows(w, r) && w.accepted == s.accepted && w.q.messages == s.q.messages
    ensures Flows(s, r)
  {
  }

  // ---------- Every run ----------

  lemma {:induction false} RunKeepsOrder(s: Sys, steps: seq<(nat, Action)>)
    requires SysInv(s) && Runs(s, steps) && KeepsOrder(s.q.messages, s.accepted)
    ensures var r := Run(s, steps); KeepsOrder(r.q.messages, r.accepted)
    decreases |steps|
  {
    hide SysInv, Can, Act, KeepsOrder;
    if steps != [] {
      var r := Act(s, steps[0].0, steps[0].1);
      ActFlows(s, steps[0].0, steps[0].1);
      FlowsKeepOrder(s, r);
      ActInv(s, steps[0].0, steps[0].1);
      RunKeepsOrder(r, steps[1..]);
    }
  }

  /** First-in first-out, over every run: a message queued before another was accepted before it. */
  lemma QueuedInOrder(tasks: nat, qbytes: nat, bytes: int, hdrs: int, steps: seq<(nat, Action)>, j: nat, k: nat)
    requires Runs(Fresh(tasks, qbytes, bytes, hdrs), steps)
    requires j < k < |Run(Fresh(tasks, qbytes, bytes, hdrs), steps).q.messages|
    ensures var s := Run(Fresh(tasks, qbytes, bytes, hdrs), steps);
            exists a, b | 0 <= a < b < |s.accepted| :: s.accepted[a] == s.q.messages[j] && s.accepted[b] == s.q.messages[k]
  {
    hide SysInv;
    NoneKeepsOrder<Msg>([]);
    RunKeepsOrder(Fresh(tasks, qbytes, bytes, hdrs), steps);
    var s := Run(Fresh(tasks, qbytes, bytes, hdrs), steps);
    var a, b := PlacesOf(s.q.messages, s.accepted, j, k);
  }

  /** The message that msgtyp, and MSG_EXCEPT, ask for, in a queue that may hold others: one of the
      type, one of another type, one of the least type up to -msgtyp, or any. */
  predicate AskedFor(msgtyp: int, except: bool, m: Msg) {
    if msgtyp == 0 then true
    else if msgtyp > 0 then (if except then m.mtype != msgtyp else m.mtype == msgtyp)
    else m.mtype <= -msgtyp
  }

  /** A receiver that takes a message from the queue takes the selected one. */
  lemma TakesSelected(s: Sys, t: nat) returns (k: nat)
    requires SysInv(s) && t < |s.pcs| && s.pcs[t].WantReceive? && Act(s, t, Round).consumed != s.consumed
    ensures k < |s.q.messages| && Selected(s.q.messages, s.pcs[t].req.typ, s.pcs[t].req.mode, k)
    ensures var r := Act(s, t, Round);
            && r.consumed == s.consumed + [s.q.messages[k]]
            && r.q.messages == s.q.messages[..k] + s.q.messages[k + 1..]
  {
    hide ListsOk, CountersOk, Conserved, IdsOk, SendersWoken, Selected, Chosen;
    k := Chosen(s.q, s.pcs[t].req).value;
    ChosenWithin(s.q, s.pcs[t].req);
    GotQueue(s.q, k);
  }

  lemma SelectedAsked(ms: seq<Msg>, msgtyp: int, except: bool, k: nat, i: nat)
    requires LONG_MIN <= msgtyp <= LONG_MAX && i < |ms| && AskedFor(msgtyp, except, ms[i])
    requires var (typ, mode) := ConvertMode(msgtyp, false, except); Selected(ms, typ, mode, k)
    ensures k < |ms| && AskedFor(msgtyp, except, ms[k])
    ensures msgtyp < 0 ==> ms[k].mtype <= ms[i].mtype
    ensures msgtyp >= 0 || ms[k].mtype == ms[i].mtype ==> k <= i
  {
  }

  lemma OrderDistinct(ms: seq<Msg>, accepted: seq<Msg>, k: nat)
    requires KeepsOrder(ms, accepted) && k < |ms|
    ensures ms[k] !in ms[..k] + ms[k + 1..]
  {
    var r := ms[..k] + ms[k + 1..];
    forall j | 0 <= j < |r|
      ensures r[j] != ms[k]
    {
      var i := if j < k then j else j + 1;
      assert r[j] == ms[i];
      var a :| 0 <= a < |accepted| && accepted[a] == ms[k];
    }
  }

  /** A msgrcv() that takes a message from the queue, over every run: it takes the message that was
      accepted earliest of all queued ones (type 0), of those of its type, of those of other types
      (MSG_EXCEPT), or, for a negative type, of those of the least type, which is not above it. */
  lemma EarliestFirst(tasks: nat, qbytes: nat, bytes: int, hdrs: int, steps: seq<(nat, Action)>, t: nat,
                      msgtyp: int, except: bool, x: Msg)
    requires LONG_MIN <= msgtyp <= LONG_MAX
    requires Runs(Fresh(tasks, qbytes, bytes, hdrs), steps)
    requires var s := Run(Fresh(tasks, qbytes, bytes, hdrs), steps);
             && t < |s.pcs| && s.pcs[t].WantReceive?
             && (s.pcs[t].req.typ, s.pcs[t].req.mode) == ConvertMode(msgtyp, false, except)
             && Act(s, t, Round).consumed != s.consumed
             && x in s.q.messages && AskedFor(msgtyp, except, x)
    ensures var s := Run(Fresh(tasks, qbytes, bytes, hdrs), steps);
            var r := Act(s, t, Round);
            exists m ::
              && r.consumed == s.consumed + [m] && m in s.q.messages && m !in r.q.messages && AskedFor(msgtyp, except, m)
              && (msgtyp < 0 ==> m.mtype <= x.mtype)
              && (m != x && (msgtyp < 0 ==> x.mtype == m.mtype) ==>
                    exists a, b | 0 <= a < b < |s.accepted| :: s.accepted[a] == m && s.accepted[b] == x)
  {
    hide SysInv, Act, KeepsOrder, AskedFor, Selected;
    var s := Run(Fresh(tasks, qbytes, bytes, hdrs), steps);
    var k := TakesSelected(s, t);
    var i :| 0 <= i < |s.q.messages| && s.q.messages[i] == x;
    SelectedAsked(s.q.messages, msgtyp, except, k, i);
    NoneKeepsOrder<Msg>([]);
    RunKeepsOrder(Fresh(tasks, qbytes, bytes, hdrs), steps);
    OrderDistinct(s.q.messages, s.accepted, k);
    if k < i {
      QueuedInOrder(tasks, qbytes, bytes, hdrs, steps, k, i);
    }
    assert Act(s, t, Round).consumed == s.consumed + [s.q.messages[k]];
  }

  // ---------- Messages handed over ----------

  /** The message is one that the request asks for, and it fits, if it may not be cut. */
  predicate Suits(m: Msg, req: Request) {
    && (req.mode == Equal ==> m.mtype == req.typ)
    && (req.mode == NotEqual ==> m.mtype != req.typ)
    && (req.mode == LessEqual ==> m.mtype <= req.typ)
    && (req.noerror || m.size <= req.bufsz)
  }

  /** What a task that went to sleep in msgrcv() has in its hand suits it. */
  ghost predicate HandOk(s: Sys, u: nat)
    requires u < |s.pcs|
  {
    Receiving(s.pcs[u]) && u in s.q.slots && s.q.slots[u].Handed? ==> Suits(s.q.slots[u].msg, s.pcs[u].req)
  }

  ghost predicate HandsOk(s: Sys) {
    forall u | 0 <= u < |s.pcs| :: HandOk(s, u)
  }

  lemma TakerSuits(s: Sys, m: Msg)
    requires ListsOk(s) && s.q.valid && Taker(s.q.receivers, m) < |s.q.receivers|
    ensures var u := s.q.receivers[Taker(s.q.receivers, m)].task;
            u < |s.pcs| && Receiving(s.pcs[u]) && Suits(m, s.pcs[u].req)
  {
    hide SendersOk, ReceiversJustified, SendersJustified, PcOk, QueueOk, Taker;
    assert CanTake(m, s.q.receivers[Taker(s.q.receivers, m)]);
  }

  lemma SendingHand(s: Sys, t: nat, m: Msg, nowait: bool, u: nat)
    requires ListsOk(s) && t < |s.pcs| && u < |s.pcs| && HandOk(s, u) && u != t
    requires QueueOk(s.q)
    ensures HandOk(Sending(s, t, m, nowait), u)
  {
    hide ListsOk, QueueOk, Pipelined, Taker, Room, Suits;
    PipelinedKeeps(s.q, m);
    var k := Taker(s.q.receivers, m);
    if SendResult(s.q, m, nowait) == Accepted && Receiving(s.pcs[u]) {
      if u in s.q.slots {
        HandoffSlot(s.q, m, u);
      } else {
        SlotsKept(s.q, m);
      }
      if k < |s.q.receivers| {
        TakerSuits(s, m);
      }
    }
  }

  lemma SlotsKept(q: Queue, m: Msg)
    requires QueueOk(q)
    ensures Pipelined(q, m).slots.Keys == q.slots.Keys
  {
    hide Unmatched, Taker, Matches, DistinctReceivers, MatchedTasks;
    PipelinedSlots(q, m);
  }

  lemma ReceivedHand(s: Sys, t: nat, u: nat)
    requires t < |s.pcs| && u < |s.pcs| && s.pcs[t].WantReceive? && HandOk(s, u)
    ensures HandOk(MsgRuns.Received(s, t), u)
  {
    hide Selected, Chosen, Suits, Room, Sorted, Tasks, Filter;
    ChosenWithin(s.q, s.pcs[t].req);
  }

  lemma ActHand(s: Sys, t: nat, a: Action, u: nat)
    requires SysInv(s) && Can(s, t, a) && u < |s.pcs| && HandOk(s, u)
    ensures HandOk(Act(s, t, a), u)
  {
    hide ListsOk, CountersOk, Conserved, IdsOk, Sending, MsgRuns.Received, WithoutSender, WithoutReceiver, QueueOk,
         Room, Sorted, Tasks, Filter, Suits;
    SysQueueOk(s);
    match a
    case Round =>
      if s.pcs[t].WantReceive? {
        ReceivedHand(s, t, u);
      } else if u != t {
        SendingHand(s, t, s.pcs[t].msg, s.pcs[t].nowait, u);
      } else {
        SenderNotReceiving(s, t, s.pcs[t].msg, s.pcs[t].nowait);
      }
    case Relock(signal) =>
      if s.pcs[t].AsleepSending? && s.q.valid && !signal {
        WithoutSenderOk(s.q, t);
        var m, w := s.pcs[t].msg, s.(q := WithoutSender(s.q, t));
        if u != t {
          RelockedLists(s, t);
          SendingHand(Moved(w, t, WantSend(m, false)), t, m, false, u);
          SendingForgets(w, t, m);
        } else {
          SenderNotReceiving(w, t, m, false);
        }
      }
    case _ =>
  }

  lemma SendingForgets(w: Sys, t: nat, m: Msg)
    requires t < |w.pcs| && QueueOk(w.q)
    ensures Sending(Moved(w, t, WantSend(m, false)), t, m, false) == Sending(w, t, m, false)
  {
    hide QueueOk, AfterSend, SendResult;
  }

  lemma RelockedLists(s: Sys, t: nat)
    requires SysInv(s) && s.q.valid && t < |s.pcs| && s.pcs[t].AsleepSending?
    ensures ListsOk(Moved(s.(q := WithoutSender(s.q, t)), t, WantSend(s.pcs[t].msg, false)))
  {
    hide ListsOk, CountersOk, Conserved, IdsOk, WithoutSender;
    SysQueueOk(s);
    LeaveSenders(s, t, WantSend(s.pcs[t].msg, false));
  }

  lemma SenderNotReceiving(s: Sys, t: nat, m: Msg, nowait: bool)
    requires t < |s.pcs| && QueueOk(s.q)
    ensures !Receiving(Sending(s, t, m, nowait).pcs[t])
  {
    hide QueueOk, AfterSend, SendResult;
  }

  lemma {:induction false} RunHands(s: Sys, steps: seq<(nat, Action)>)
    requires SysInv(s) && Runs(s, steps) && HandsOk(s)
    ensures HandsOk(Run(s, steps))
    decreases |steps|
  {
    hide SysInv, Can, Act, HandOk;
    if steps != [] {
      var r := Act(s, steps[0].0, steps[0].1);
      SameTasks(s, steps[0].0, steps[0].1);
      forall u | 0 <= u < |r.pcs|
        ensures HandOk(r, u)
      {
        ActHand(s, steps[0].0, steps[0].1, u);
      }
      ActInv(s, steps[0].0, steps[0].1);
      RunHands(r, steps[1..]);
    }
  }

  lemma SameTasks(s: Sys, t: nat, a: Action)
    requires SysInv(s) && Can(s, t, a)
    ensures |Act(s, t, a).pcs| == |s.pcs|
  {
    hide ListsOk, CountersOk, Conserved, IdsOk, AfterSend, SendResult, AfterReceive, ReceiveResult,
         WithoutSender, WithoutReceiver, QueueOk;
    SysQueueOk(s);
  }

  /** Over every run, a message that pipelined_send() handed to a sleeping receiver is of the type,
      and of the size, that this receiver asked for. */
  lemma HandedSuits(tasks: nat, qbytes: nat, bytes: int, hdrs: int, steps: seq<(nat, Action)>, u: nat)
    requires Runs(Fresh(tasks, qbytes, bytes, hdrs), steps)
    requires var s := Run(Fresh(tasks, qbytes, bytes, hdrs), steps);
             u < |s.pcs| && Receiving(s.pcs[u]) && u in s.q.slots && s.q.slots[u].Handed?
    ensures var s := Run(Fresh(tasks, qbytes, bytes, hdrs), steps);
            Suits(s.q.slots[u].msg, s.pcs[u].req)
  {
    hide SysInv, Suits;
    RunHands(Fresh(tasks, qbytes, bytes, hdrs), steps);
    assert HandOk(Run(Fresh(tasks, qbytes, bytes, hdrs), steps), u);
  }

  // ---------- The order of the receivers ----------

  lemma {:induction false} UnmatchedKeepsOrder(rs: seq<Receiver>, m: Msg)
    requires DistinctReceivers(rs)
    ensures KeepsOrder(Unmatched(rs, m), rs)
  {
    hide KeepsOrder;
    if rs == [] {
      NoneKeepsOrder(rs);
    } else {
      var init, last := rs[..|rs| - 1], rs[|rs| - 1];
      UnmatchedKeepsOrder(init, m);
      assert Absent(init, last);
      AppendKeepsOrder(Unmatched(init, m), init, last);
      assert rs == init + [last];
      assert Unmatched(init, m) + [] == Unmatched(init, m);
    }
  }

  lemma NextAbsent(rs: seq<Receiver>, k: nat)
    requires DistinctReceivers(rs) && k < |rs|
    ensures Absent(rs[..k], rs[k]) && rs[..k + 1] == rs[..k] + [rs[k]]
  {
  }

  lemma {:induction false} TailKeepsOrder(xs: seq<Receiver>, rs: seq<Receiver>, k: nat, n: nat)
    requires DistinctReceivers(rs) && k <= n <= |rs| && KeepsOrder(xs, rs[..k])
    ensures KeepsOrder(xs + rs[k..n], rs[..n])
    decreases n
  {
    hide KeepsOrder, DistinctReceivers, Absent;
    if n == k {
      assert xs + rs[k..n] == xs;
    } else {
      TailKeepsOrder(xs, rs, k, n - 1);
      NextAbsent(rs, n - 1);
      AppendKeepsOrder(xs + rs[k..n - 1], rs[..n - 1], rs[n - 1]);
      assert xs + rs[k..n] == xs + rs[k..n - 1] + [rs[n - 1]];
    }
  }

  lemma PipelinedKeepsOrder(q: Queue, m: Msg)
    requires QueueOk(q)
    ensures KeepsOrder(Pipelined(q, m).receivers, q.receivers)
  {
    hide KeepsOrder, Unmatched, Taker, Pipelined, Absent, Typed, DistinctTasks;
    var rs, k := q.receivers, Taker(q.receivers, m);
    PipelinedList(q, m);
    UnmatchedKeepsOrder(rs[..k], m);
    if k == |rs| {
      assert rs[..k] == rs && Unmatched(rs[..k], m) + [] == Unmatched(rs[..k], m);
    } else {
      NextAbsent(rs, k);
      AppendKeepsOrder(Unmatched(rs[..k], m), rs[..k], rs[k]);
      TailKeepsOrder(Unmatched(rs[..k], m), rs, k + 1, |rs|);
      assert rs[..|rs|] == rs && rs[k + 1..|rs|] == rs[k + 1..];
    }
  }

  lemma SelfKeepsOrder(rs: seq<Receiver>)
    requires DistinctReceivers(rs)
    ensures KeepsOrder(rs, rs)
  {
  }

  lemma SendingReceivers(s: Sys, t: nat, m: Msg, nowait: bool)
    requires t < |s.pcs| && QueueOk(s.q)
    ensures KeepsOrder(Sending(s, t, m, nowait).q.receivers, s.q.receivers)
  {
    hide KeepsOrder, Pipelined, Taker, Room, Typed, DistinctTasks;
    SelfKeepsOrder(s.q.receivers);
    PipelinedKeepsOrder(s.q, m);
  }

  lemma ReceivedReceivers(s: Sys, t: nat)
    requires t < |s.pcs| && s.pcs[t].WantReceive? && QueueOk(s.q)
    ensures var r := MsgRuns.Received(s, t).q.receivers;
            KeepsOrder(r, s.q.receivers) || r == s.q.receivers + [Record(t, s.pcs[t].req)]
  {
    hide KeepsOrder, Selected, Chosen, Room, Sorted, Tasks, Filter;
    SelfKeepsOrder(s.q.receivers);
    ChosenWithin(s.q, s.pcs[t].req);
  }

  /** The receivers wait in the order in which they went to sleep: a step of any task takes some
      off the list, keeping the others in order, or puts that task at its end. */
  lemma ReceiversInOrder(s: Sys, t: nat, a: Action)
    requires SysInv(s) && Can(s, t, a)
    ensures var r := Act(s, t, a).q.receivers;
            || KeepsOrder(r, s.q.receivers)
            || (a.Round? && s.pcs[t].WantReceive? && r == s.q.receivers + [Record(t, s.pcs[t].req)])
  {
    hide KeepsOrder, ListsOk, CountersOk, Conserved, IdsOk, Sending, MsgRuns.Received,
         WithoutSender, WithoutReceiver, QueueOk, Room, Sorted, Tasks, Filter;
    SysQueueOk(s);
    SelfKeeps(s.q);
    match a
    case Round =>
      if s.pcs[t].WantReceive? {
        ReceivedReceivers(s, t);
      } else {
        SendingReceivers(s, t, s.pcs[t].msg, s.pcs[t].nowait);
      }
    case Relock(signal) =>
      if s.pcs[t].Unsure? {
        WithoutReceiverOrder(s.q, t);
      } else if s.q.valid && !signal {
        WithoutSenderOk(s.q, t);
        SendingReceivers(s.(q := WithoutSender(s.q, t)), t, s.pcs[t].msg, false);
      }
    case _ =>
  }

  lemma SelfKeeps(q: Queue)
    requires QueueOk(q)
    ensures KeepsOrder(q.receivers, q.receivers)
  {
    SelfKeepsOrder(q.receivers);
  }

  lemma WithoutReceiverOrder(q: Queue, t: nat)
    requires QueueOk(q)
    ensures KeepsOrder(WithoutReceiver(q, t).receivers, q.receivers)
  {
    hide KeepsOrder, Typed, DistinctTasks;
    SelfKeepsOrder(q.receivers);
    if k :| 0 <= k < |q.receivers| && q.receivers[k].task == t && WithoutReceiver(q, t) == Unlisted(q, k) {
      RemoveKeepsOrder(q.receivers, k, q.receivers);
    }
  }
}
