/**
 struct msg_queue of ipc/msg.c: one message queue, with the counters of its
 namespace, the slots (r_msg) of the tasks that wait for a message and the set of
 tasks that were woken.
 */
module MsgQueues {
  import opened Options
  import opened MsgFind
  import opened MsgSenders

  const INT_MAX: int := 0x7fff_ffff
  const E2BIG: int := 7
  const EAGAIN: int := 11
  const EACCES: int := 13
  const EPERM: int := 1
  const EINVAL: int := 22
  const ENOMSG: int := 42
  const EIDRM: int := 43

  /** r_msg: ERR_PTR(-EAGAIN), another error, or a message handed over. */
  datatype Slot = Waiting | Refused(err: int) | Handed(msg: Msg)

  /** struct msg_receiver, without its slot */
  datatype Receiver = Receiver(task: nat, typ: int, mode: Mode, maxsize: int)

  datatype Queue = Queue(
    messages: seq<Msg>,
    receivers: seq<Receiver>,
    senders: seq<Sender>,
    cbytes: int,
    qnum: int,
    qbytes: int,
    valid: bool,
    msgBytes: int,
    msgHdrs: int,
    slots: map<nat, Slot>,
    awake: set<nat>)

  /** What a msgrcv() call asks for, after convert_mode. */
  datatype Request = Request(typ: int, mode: Mode, bufsz: int, nowait: bool, noerror: bool)

  datatype Received = Got(msg: Msg) | Copied(msg: Msg) | Failed(err: int) | Sleeps
  datatype Sent = Accepted | Rejected(err: int) | Blocks

  // ---------- The pieces of one locked section ----------

  /** msg_fits_inqueue */
  predicate Room(cbytes: int, qnum: int, qbytes: int, size: int) {
    size + cbytes <= qbytes && 1 + qnum <= qbytes
  }

  function Fitting(cbytes: int, qnum: int, qbytes: int): Sender -> bool {
    (s: Sender) => Room(cbytes, qnum, qbytes, s.size)
  }

  function Bytes(msgs: seq<Msg>): nat {
    if msgs == [] then 0 else Bytes(msgs[..|msgs| - 1]) + msgs[|msgs| - 1].size
  }

  ghost predicate DistinctReceivers(rs: seq<Receiver>) {
    forall j, k | 0 <= j < k < |rs| :: rs[j].task != rs[k].task
  }

  ghost predicate QueueOk(q: Queue) {
    && Typed(q.messages)
    && DistinctReceivers(q.receivers)
    && DistinctTasks(q.senders)
    && (forall k | 0 <= k < |q.receivers| :: q.receivers[k].task in q.slots)
    && (q.valid ==> q.cbytes == Bytes(q.messages) && q.qnum == |q.messages|)
    && (!q.valid ==> q.messages == [])
  }

  /** ss_wakeup */
  ghost function SendersWoken(q: Queue): Queue {
    var fits := Fitting(q.cbytes, q.qnum, q.qbytes);
    q.(senders := Sorted(fits, q.senders), awake := q.awake + Tasks(Filter(fits, q.senders)))
  }

  function ReceiverTasks(rs: seq<Receiver>): set<nat> {
    set k | 0 <= k < |rs| :: rs[k].task
  }

  /** The slots of some tasks are set to one value. */
  ghost function Stored(slots: map<nat, Slot>, tasks: set<nat>, v: Slot): (r: map<nat, Slot>)
    ensures r.Keys == slots.Keys
  {
    map t | t in slots :: if t in tasks then v else slots[t]
  }

  /** expunge_all: every listed receiver is told, and stays listed. */
  ghost function Expunged(q: Queue, v: Slot): Queue {
    var tasks := ReceiverTasks(q.receivers);
    q.(slots := Stored(q.slots, tasks, v), awake := q.awake + tasks)
  }

  // ---------- pipelined_send ----------

  predicate Matches(m: Msg, r: Receiver) {
    TestMsg(m, r.typ, r.mode)
  }

  predicate CanTake(m: Msg, r: Receiver) {
    Matches(m, r) && r.maxsize >= m.size
  }

  /** The first waiting receiver that can take the message, or |rs|. */
  function Taker(rs: seq<Receiver>, m: Msg): (k: nat)
    ensures k <= |rs| && (k < |rs| ==> CanTake(m, rs[k]))
    ensures forall j | 0 <= j < k :: !CanTake(m, rs[j])
  {
    if rs == [] || CanTake(m, rs[0]) then 0
    else
      var k := Taker(rs[1..], m);
      assert forall j | 0 < j < k + 1 :: rs[j] == rs[1..][j - 1];
      k + 1
  }

  function Unmatched(rs: seq<Receiver>, m: Msg): seq<Receiver> {
    if rs == [] then []
    else Unmatched(rs[..|rs| - 1], m) + (if Matches(m, rs[|rs| - 1]) then [] else [rs[|rs| - 1]])
  }

  function MatchedTasks(rs: seq<Receiver>, m: Msg): set<nat> {
    set k | 0 <= k < |rs| && Matches(m, rs[k]) :: rs[k].task
  }

  /** The first k receivers were looked at and none of them could take the message:
      those it matches were told E2BIG and are off the list. */
  ghost function Offered(q: Queue, m: Msg, k: nat): Queue
    requires k <= |q.receivers|
  {
    var told := MatchedTasks(q.receivers[..k], m);
    q.(receivers := Unmatched(q.receivers[..k], m) + q.receivers[k..],
       slots := Stored(q.slots, told, Refused(E2BIG)),
       awake := q.awake + told)
  }

  /** pipelined_send: the taker, if any, leaves the list with the message. */
  ghost function Pipelined(q: Queue, m: Msg): Queue
    requires QueueOk(q)
  {
    var k := Taker(q.receivers, m);
    var o := Offered(q, m, k);
    if k == |q.receivers| then o
    else
      o.(receivers := Unmatched(q.receivers[..k], m) + q.receivers[k + 1..],
         slots := o.slots[q.receivers[k].task := Handed(m)],
         awake := o.awake + {q.receivers[k].task})
  }

  // ---------- Locked sections ----------

  ghost function Appended(q: Queue, m: Msg): Queue {
    q.(messages := q.messages + [m], cbytes := q.cbytes + m.size, qnum := q.qnum + 1,
       msgBytes := q.msgBytes + m.size, msgHdrs := q.msgHdrs + 1)
  }

  ghost function Removed(q: Queue, k: nat): Queue
    requires k < |q.messages|
  {
    var m := q.messages[k];
    q.(messages := q.messages[..k] + q.messages[k + 1..], cbytes := q.cbytes - m.size, qnum := q.qnum - 1,
       msgBytes := q.msgBytes - m.size, msgHdrs := q.msgHdrs - 1)
  }

  /** One round of do_msgsnd by task t. */
  ghost function SendResult(q: Queue, m: Msg, nowait: bool): Sent {
    if !q.valid then Rejected(EIDRM)
    else if Room(q.cbytes, q.qnum, q.qbytes, m.size) then Accepted
    else if nowait then Rejected(EAGAIN)
    else Blocks
  }

  ghost function AfterSend(q: Queue, t: nat, m: Msg, nowait: bool): Queue
    requires QueueOk(q)
  {
    match SendResult(q, m, nowait)
    case Accepted => if Taker(q.receivers, m) == |q.receivers| then Appended(Pipelined(q, m), m) else Pipelined(q, m)
    case Rejected(_) => q
    case Blocks => q.(senders := q.senders + [Sender(t, m.size)], awake := q.awake - {t})
  }

  ghost function Chosen(q: Queue, req: Request): (k: Option<nat>)
    ensures k.Some? ==> Selected(q.messages, req.typ, req.mode, k.value)
    ensures k.None? ==> forall j: nat :: !Selected(q.messages, req.typ, req.mode, j)
  {
    if j: nat :| Selected(q.messages, req.typ, req.mode, j) then Some(j) else None
  }

  /** One round of do_msgrcv. */
  ghost function ReceiveResult(q: Queue, req: Request): (r: Received)
    ensures r.Got? ==> r.msg in q.messages
  {
    if !q.valid then Failed(EIDRM)
    else
      match Chosen(q, req)
      case None => if req.nowait then Failed(ENOMSG) else Sleeps
      case Some(k) =>
        if req.bufsz < q.messages[k].size && !req.noerror then Failed(E2BIG)
        else if req.mode == Number then Copied(q.messages[k])
        else Got(q.messages[k])
  }

  ghost function AfterReceive(q: Queue, t: nat, req: Request): Queue {
    match ReceiveResult(q, req)
    case Got(_) => SendersWoken(Removed(q, Chosen(q, req).value))
    case Sleeps =>
      q.(receivers := q.receivers + [Receiver(t, req.typ, req.mode, if req.noerror then INT_MAX else req.bufsz)],
         slots := q.slots[t := Waiting], awake := q.awake - {t})
    case _ => q
  }

  /** IPC_SET */
  ghost function AfterSet(q: Queue, qbytes: nat): Queue {
    SendersWoken(Expunged(q.(qbytes := qbytes), Waiting))
  }

  /** freeque */
  ghost function AfterFree(q: Queue): Queue {
    var e := Expunged(q, Refused(EIDRM));
    e.(senders := [], awake := e.awake + Tasks(q.senders), valid := false, messages := [],
       msgBytes := q.msgBytes - q.cbytes, msgHdrs := q.msgHdrs - |q.messages|)
  }

  /** list_del of a receiver that found its slot still waiting */
  ghost function Unlisted(q: Queue, k: nat): Queue
    requires k < |q.receivers|
  {
    q.(receivers := q.receivers[..k] + q.receivers[k + 1..])
  }

  /** ss_del */
  ghost function SenderGone(q: Queue, k: nat): Queue
    requires k < |q.senders|
  {
    q.(senders := q.senders[..k] + q.senders[k + 1..])
  }

  // ---------- Steps of the loops ----------

  lemma StoredMore(slots: map<nat, Slot>, tasks: set<nat>, t: nat, v: Slot)
    requires t in slots
    ensures Stored(slots, tasks, v)[t := v] == Stored(slots, tasks + {t}, v)
  {
  }

  lemma StoredNone(slots: map<nat, Slot>, v: Slot)
    ensures Stored(slots, {}, v) == slots
  {
  }

  lemma MatchedStep(rs: seq<Receiver>, m: Msg, k: nat)
    requires k < |rs|
    ensures MatchedTasks(rs[..k + 1], m) == MatchedTasks(rs[..k], m) + if Matches(m, rs[k]) then {rs[k].task} else {}
    ensures Unmatched(rs[..k + 1], m) == Unmatched(rs[..k], m) + if Matches(m, rs[k]) then [] else [rs[k]]
  {
    assert rs[..k + 1][..k] == rs[..k];
    assert forall j | 0 <= j < k :: rs[..k + 1][j] == rs[..k][j] == rs[j];
    assert rs[..k + 1][k] == rs[k];
    var before, after := MatchedTasks(rs[..k], m), MatchedTasks(rs[..k + 1], m);
    assert forall t | t in before :: t in after;
    assert Matches(m, rs[k]) ==> rs[k].task in after;
    assert forall t | t in after :: t in before || (Matches(m, rs[k]) && t == rs[k].task);
  }

  lemma OfferedNone(q: Queue, m: Msg)
    ensures Offered(q, m, 0) == q && Unmatched(q.receivers[..0], m) == []
  {
    assert MatchedTasks(q.receivers[..0], m) == {};
    StoredNone(q.slots, Refused(E2BIG));
  }

  lemma OfferedStep(q: Queue, m: Msg, k: nat)
    requires QueueOk(q) && k < |q.receivers| && !CanTake(m, q.receivers[k])
    ensures var now, next, p, r := Offered(q, m, k), Offered(q, m, k + 1), |Unmatched(q.receivers[..k], m)|, q.receivers[k];
            && p < |now.receivers| && now.receivers[p] == r
            && (if Matches(m, r)
                then next == now.(receivers := now.receivers[..p] + now.receivers[p + 1..],
                                  slots := now.slots[r.task := Refused(E2BIG)], awake := now.awake + {r.task})
                     && |Unmatched(q.receivers[..k + 1], m)| == p
                else next == now && |Unmatched(q.receivers[..k + 1], m)| == p + 1)
  {
    hide Unmatched, MatchedTasks, Stored, DistinctTasks, DistinctReceivers, Typed, Matches;
    MatchedStep(q.receivers, m, k);
    StoredMore(q.slots, MatchedTasks(q.receivers[..k], m), q.receivers[k].task, Refused(E2BIG));
    DropMiddle(Unmatched(q.receivers[..k], m), q.receivers[k], q.receivers[k + 1..]);
    assert q.receivers[k..] == [q.receivers[k]] + q.receivers[k + 1..];
    var told, told' := MatchedTasks(q.receivers[..k], m), MatchedTasks(q.receivers[..k + 1], m);
    if Matches(m, q.receivers[k]) {
      assert q.awake + told + {q.receivers[k].task} == q.awake + told';
      assert Unmatched(q.receivers[..k + 1], m) == Unmatched(q.receivers[..k], m);
    } else {
      assert told' == told;
    }
  }

  lemma DropMiddle(a: seq<Receiver>, r: Receiver, b: seq<Receiver>)
    ensures var s := a + ([r] + b);
            s[|a|] == r && s[..|a|] + s[|a| + 1..] == a + b && a + [r] + b == s && a + [] == a
  {
  }

  lemma StoredTwice(slots: map<nat, Slot>, rs: seq<Receiver>, k: nat, v: Slot)
    requires k < |rs| && rs[k].task in slots
    ensures Stored(slots, ReceiverTasks(rs[..k]), v)[rs[k].task := v] == Stored(slots, ReceiverTasks(rs[..k + 1]), v)
    ensures ReceiverTasks(rs[..k + 1]) == ReceiverTasks(rs[..k]) + {rs[k].task}
  {
    forall t
      ensures t in ReceiverTasks(rs[..k + 1]) <==> t in ReceiverTasks(rs[..k]) + {rs[k].task}
    {
      assert forall j | 0 <= j < k :: rs[..k + 1][j] == rs[..k][j];
      assert rs[..k + 1][k] == rs[k];
    }
  }

  // ---------- What one round does, seen from outside ----------

  /** A round of msgsnd(): EIDRM if and only if the queue is gone; else accepted if and only if the
      message fits, and EAGAIN or sleep if not. An accepted message goes to the first waiting
      receiver that can take it, or else to the end of the queue, with its counters; who sleeps
      is the last of the senders; a rejection changes nothing. */
  ghost predicate SendSays(q: Queue, r: Queue, t: nat, m: Msg, nowait: bool, result: Sent) {
    && (result == Rejected(EIDRM) <==> !q.valid)
    && (q.valid ==>
          if m.size + q.cbytes <= q.qbytes && 1 + q.qnum <= q.qbytes then result == Accepted
          else result == if nowait then Rejected(EAGAIN) else Blocks)
    && (result.Rejected? ==> r == q)
    && (result.Blocks? ==> r == q.(senders := q.senders + [Sender(t, m.size)], awake := q.awake - {t}))
    && (result.Accepted? && (forall k | 0 <= k < |q.receivers| :: !CanTake(m, q.receivers[k])) ==>
          && r.messages == q.messages + [m]
          && r.cbytes == q.cbytes + m.size && r.qnum == q.qnum + 1
          && r.msgBytes == q.msgBytes + m.size && r.msgHdrs == q.msgHdrs + 1)
    && (forall k | 0 <= k < |q.receivers| && result.Accepted? && CanTake(m, q.receivers[k])
          && (forall j | 0 <= j < k :: !CanTake(m, q.receivers[j])) ::
          && r.messages == q.messages && r.cbytes == q.cbytes && r.qnum == q.qnum
          && r.msgBytes == q.msgBytes && r.msgHdrs == q.msgHdrs
          && q.receivers[k].task in r.slots && r.slots[q.receivers[k].task] == Handed(m)
          && q.receivers[k].task in r.awake)
    && (result.Accepted? ==> r.senders == q.senders && r.qbytes == q.qbytes && r.valid)
  }

  lemma AfterSendSays(q: Queue, t: nat, m: Msg, nowait: bool)
    requires QueueOk(q)
    ensures SendSays(q, AfterSend(q, t, m, nowait), t, m, nowait, SendResult(q, m, nowait))
  {
    hide QueueOk, Pipelined, CanTake, Taker;
    PipelinedKeeps(q, m);
    PipelinedTaken(q, m);
    forall k | 0 <= k < |q.receivers| && CanTake(m, q.receivers[k]) && (forall j | 0 <= j < k :: !CanTake(m, q.receivers[j]))
      ensures Taker(q.receivers, m) == k
    {
      TakerIs(q.receivers, m, k);
    }
  }

  /** A round of msgrcv(): EIDRM if and only if the queue is gone. If a message is selected and is
      too long, and may not be cut, E2BIG; with MSG_COPY, a copy; else that message leaves the queue
      with its counters and the senders are looked at. If none is, ENOMSG, or the task goes to sleep
      as the last of the receivers, with its slot waiting. */
  ghost predicate ReceiveSays(q: Queue, r: Queue, t: nat, req: Request, result: Received) {
    && (result == Failed(EIDRM) <==> !q.valid)
    && (q.valid && (forall k: nat :: !Selected(q.messages, req.typ, req.mode, k)) ==>
          result == if req.nowait then Failed(ENOMSG) else Sleeps)
    && (forall k: nat | q.valid && Selected(q.messages, req.typ, req.mode, k) ::
          if req.bufsz < q.messages[k].size && !req.noerror then result == Failed(E2BIG)
          else if req.mode == Number then result == Copied(q.messages[k])
          else
            && result == Got(q.messages[k])
            && r.messages == q.messages[..k] + q.messages[k + 1..]
            && r.cbytes == q.cbytes - q.messages[k].size && r.qnum == q.qnum - 1
            && r.msgBytes == q.msgBytes - q.messages[k].size && r.msgHdrs == q.msgHdrs - 1)
    && (result == Sleeps ==>
          r == q.(receivers := q.receivers + [Receiver(t, req.typ, req.mode, if req.noerror then INT_MAX else req.bufsz)],
                  slots := q.slots[t := Waiting], awake := q.awake - {t}))
    && (result.Failed? || result.Copied? ==> r == q)
    && (result.Got? ==> r.receivers == q.receivers && r.slots == q.slots && r.valid && r.qbytes == q.qbytes)
  }

  lemma AfterReceiveSays(q: Queue, t: nat, req: Request)
    ensures ReceiveSays(q, AfterReceive(q, t, req), t, req, ReceiveResult(q, req))
  {
    hide Selected, Chosen, Room, Sorted, Tasks, Filter;
    forall k: nat | Selected(q.messages, req.typ, req.mode, k)
      ensures k < |q.messages| && Chosen(q, req) == Some(k)
    {
      SelectedWithin(q.messages, req, k);
      SelectedOnce(q.messages, req.typ, req.mode, k, Chosen(q, req).value);
    }
    if Chosen(q, req).Some? {
      SelectedWithin(q.messages, req, Chosen(q, req).value);
    }
  }

  /** IPC_SET: the new limit holds, every listed receiver is woken to look again, with nothing in its
      hand, and of the senders those that fit now are woken. */
  ghost predicate SetSays(q: Queue, r: Queue, qbytes: nat) {
    && r == q.(qbytes := qbytes, slots := r.slots, awake := r.awake, senders := r.senders)
    && r.slots.Keys == q.slots.Keys && multiset(r.senders) == multiset(q.senders)
    && (forall k | 0 <= k < |q.receivers| && q.receivers[k].task in q.slots ::
          r.slots[q.receivers[k].task] == Waiting && q.receivers[k].task in r.awake)
    && (forall t | t in q.slots && (forall k | 0 <= k < |q.receivers| :: q.receivers[k].task != t) :: r.slots[t] == q.slots[t])
    && (forall t | t in r.awake && t !in q.awake ::
          || (exists k | 0 <= k < |q.receivers| :: q.receivers[k].task == t)
          || (exists k | 0 <= k < |q.senders| ::
                q.senders[k].task == t && q.senders[k].size + q.cbytes <= qbytes && 1 + q.qnum <= qbytes))
    && (forall k | 0 <= k < |q.senders| && q.senders[k].size + q.cbytes <= qbytes && 1 + q.qnum <= qbytes ::
          q.senders[k].task in r.awake)
  }

  lemma AfterSetSays(q: Queue, qbytes: nat)
    ensures SetSays(q, AfterSet(q, qbytes), qbytes)
  {
    hide Filter, Tasks;
    var fits, r := Fitting(q.cbytes, q.qnum, qbytes), AfterSet(q, qbytes);
    FilterParts(fits, q.senders);
    forall k | 0 <= k < |q.receivers|
      ensures q.receivers[k].task in ReceiverTasks(q.receivers)
    {
    }
    forall k | 0 <= k < |q.senders| && fits(q.senders[k])
      ensures q.senders[k].task in Tasks(Filter(fits, q.senders))
    {
      assert q.senders[k] in Filter(fits, q.senders);
    }
    forall t | t in Tasks(Filter(fits, q.senders))
      ensures exists k | 0 <= k < |q.senders| :: q.senders[k].task == t && fits(q.senders[k])
    {
      var j :| 0 <= j < |Filter(fits, q.senders)| && Filter(fits, q.senders)[j].task == t;
      assert Filter(fits, q.senders)[j] in q.senders;
    }
  }

  lemma FilterLast(p: Sender -> bool, ss: seq<Sender>)
    requires ss != []
    ensures Filter(p, ss) == Filter(p, ss[..|ss| - 1]) + if p(ss[|ss| - 1]) then [ss[|ss| - 1]] else []
  {
  }

  lemma {:induction false} FilterParts(p: Sender -> bool, ss: seq<Sender>)
    ensures multiset(Filter(p, ss)) + multiset(Filter(Not(p), ss)) == multiset(ss)
  {
    hide Filter;
    if ss == [] {
      FilterNone(p);
      FilterNone(Not(p));
    } else {
      var init, last := ss[..|ss| - 1], ss[|ss| - 1];
      FilterParts(p, init);
      FilterLast(p, ss);
      FilterLast(Not(p), ss);
      assert ss == init + [last];
    }
  }

  lemma FilterNone(p: Sender -> bool)
    ensures Filter(p, []) == []
  {
  }

  /** IPC_RMID: every listed receiver is told EIDRM, everybody asleep is woken, and the messages are
      gone, here and from the counters of the namespace. */
  ghost predicate FreeSays(q: Queue, r: Queue) {
    && !r.valid && r.messages == [] && r.senders == []
    && r.msgBytes == q.msgBytes - q.cbytes && r.msgHdrs == q.msgHdrs - |q.messages|
    && r.slots.Keys == q.slots.Keys
    && (forall k | 0 <= k < |q.receivers| && q.receivers[k].task in q.slots ::
          r.slots[q.receivers[k].task] == Refused(43) && q.receivers[k].task in r.awake)
    && (forall t | t in q.slots && (forall k | 0 <= k < |q.receivers| :: q.receivers[k].task != t) :: r.slots[t] == q.slots[t])
    && (forall k | 0 <= k < |q.senders| :: q.senders[k].task in r.awake)
  }

  lemma AfterFreeSays(q: Queue)
    ensures FreeSays(q, AfterFree(q))
  {
    assert forall k | 0 <= k < |q.receivers| :: q.receivers[k].task in ReceiverTasks(q.receivers);
  }

  lemma SelectedWithin(msgs: seq<Msg>, req: Request, k: nat)
    requires Selected(msgs, req.typ, req.mode, k)
    ensures k < |msgs|
  {
  }

  /** The first receiver that can take the message has it and is awake. */
  lemma PipelinedTaken(q: Queue, m: Msg)
    requires QueueOk(q)
    ensures var k, r := Taker(q.receivers, m), Pipelined(q, m);
            k < |q.receivers| ==>
              var u := q.receivers[k].task; u in r.slots && r.slots[u] == Handed(m) && u in r.awake
  {
    hide Unmatched, Taker, Matches, MatchedTasks, DistinctReceivers;
    PipelinedIs(q, m);
  }

  class MsgQueue {
    var messages: seq<Msg>        // q_messages
    var receivers: seq<Receiver>  // q_receivers
    var senders: seq<Sender>      // q_senders
    var cbytes: int               // q_cbytes
    var qnum: int                 // q_qnum
    var qbytes: int               // q_qbytes
    var valid: bool               // ipc_valid_object()
    var msgBytes: int             // ns->msg_bytes
    var msgHdrs: int              // ns->msg_hdrs
    var slots: map<nat, Slot>     // r_msg of each task
    var awake: set<nat>           // the tasks put on a wake_q since they last slept

    ghost function St(): Queue
      reads this
    {
      Queue(messages, receivers, senders, cbytes, qnum, qbytes, valid, msgBytes, msgHdrs, slots, awake)
    }

    /** ss_wakeup without kill: terminates, examines each sender once, wakes exactly
        those whose message fits, and leaves them in front of the others, both in
        their old order. */
    method SsWakeup()
      requires DistinctTasks(senders)
      modifies this`senders, this`awake
      ensures St() == SendersWoken(old(St()))
    {
      hide Room;
      ghost var fits := Fitting(cbytes, qnum, qbytes);
      hide Filter, Sorted, Rotated, Next, MoveTail, DistinctTasks, Tasks, Not, FirstTask;
      ghost var ss, k, p := senders, 0, 0;
      RotatedNone(fits, ss);
      var stop: Option<nat> := None;
      var mss: Option<Sender> := if senders == [] then None else Some(senders[0]);
      var t: Option<Sender> := if mss.None? then None else Next(senders, mss.value);
      while mss.Some?
        invariant k <= |ss| && senders == Rotated(fits, ss, k) && p == |Filter(fits, ss[..k])|
        invariant awake == old(awake) + Tasks(Filter(fits, ss[..k]))
        invariant mss.None? ==> k == |ss|
        invariant mss.Some? ==> p < |senders| && mss.value == senders[p] && t == Next(senders, mss.value)
        invariant stop == FirstTask(Filter(Not(fits), ss[..k]))
        decreases |ss| - k, mss
      {
        var s := mss.value;
        if k == |ss| {
          WalkOver(fits, ss);
        } else {
          StepOver(fits, ss, k);
        }
        if stop == Some(s.task) {
          break;
        }
        if !Room(cbytes, qnum, qbytes, s.size) {
          if stop.None? {
            stop := Some(s.task);
          }
          senders := MoveTail(senders, s);
        } else {
          awake := awake + {s.task};
          p := p + 1;
        }
        mss := t;
        t := if mss.None? then None else Next(senders, mss.value);
        k := k + 1;
      }
      RotatedDistinct(fits, ss, k);
    }

    /** ss_wakeup with kill */
    method SsKill()
      modifies this`senders, this`awake
      ensures St() == old(St()).(senders := [], awake := old(awake) + Tasks(old(senders)))
    {
      for k := 0 to |senders|
        invariant senders == old(senders) && awake == old(awake) + Tasks(senders[..k])
      {
        awake := awake + {senders[k].task};
        TasksAppend(senders[..k], senders[k]);
        assert senders[..k + 1] == senders[..k] + [senders[k]];
      }
      assert senders[..|senders|] == senders;
      senders := [];
    }

    /** expunge_all */
    method ExpungeAll(v: Slot)
      requires QueueOk(St())
      modifies this`slots, this`awake
      ensures St() == Expunged(old(St()), v)
    {
      assert ReceiverTasks(receivers[..0]) == {};
      StoredNone(slots, v);
      for k := 0 to |receivers|
        invariant slots == Stored(old(slots), ReceiverTasks(receivers[..k]), v)
        invariant awake == old(awake) + ReceiverTasks(receivers[..k])
      {
        StoredTwice(old(slots), receivers, k, v);
        var msr := receivers[k];
        slots := slots[msr.task := v];
        awake := awake + {msr.task};
      }
      assert receivers[..|receivers|] == receivers;
    }

    /** pipelined_send */
    method PipelinedSend(m: Msg) returns (handed: bool)
      requires QueueOk(St())
      modifies this`receivers, this`slots, this`awake
      ensures St() == Pipelined(old(St()), m) && handed == (Taker(old(receivers), m) < |old(receivers)|)
    {
      hide Offered, QueueOk, Stored, MatchedTasks, Unmatched, Pipelined, Taker;
      ghost var q, rs := St(), receivers;
      ghost var k := 0;
      OfferedNone(q, m);
      var i := 0;
      while i < |receivers|
        invariant k <= |rs| && St() == Offered(q, m, k) && i == |Unmatched(rs[..k], m)|
        invariant |receivers| == i + |rs| - k
        invariant forall j | 0 <= j < k :: !CanTake(m, rs[j])
        decreases |rs| - k
      {
        OfferedAt(q, m, k);
        var msr := receivers[i];
        if Matches(m, msr) {
          receivers := receivers[..i] + receivers[i + 1..];
          if msr.maxsize < m.size {
            OfferedStep(q, m, k);
            awake := awake + {msr.task};
            slots := slots[msr.task := Refused(E2BIG)];
          } else {
            TakerIs(rs, m, k);
            PipelinedIs(q, m);
            awake := awake + {msr.task};
            slots := slots[msr.task := Handed(m)];
            return true;
          }
        } else {
          OfferedStep(q, m, k);
          i := i + 1;
        }
        k := k + 1;
      }
      TakerIs(rs, m, k);
      PipelinedIs(q, m);
      handed := false;
    }

    /** One round of do_msgsnd, from the checks to the point where the task returns
        or goes to sleep. */
    method SendRound(t: nat, m: Msg, nowait: bool, denied: bool) returns (result: Sent)
      requires QueueOk(St())
      modifies this
      ensures denied ==> result == Rejected(EACCES) && St() == old(St())
      ensures !denied ==> result == SendResult(old(St()), m, nowait) && St() == AfterSend(old(St()), t, m, nowait)
      ensures !denied ==> SendSays(old(St()), St(), t, m, nowait, result)
    {
      hide Pipelined, QueueOk, SendSays;
      AfterSendSays(St(), t, m, nowait);
      if denied {
        return Rejected(EACCES);
      }
      if !valid {
        return Rejected(EIDRM);
      }
      if !Room(cbytes, qnum, qbytes, m.size) {
        if nowait {
          return Rejected(EAGAIN);
        }
        senders := senders + [Sender(t, m.size)];
        awake := awake - {t};
        return Blocks;
      }
      var handed := PipelinedSend(m);
      PipelinedKeeps(old(St()), m);
      if !handed {
        messages := messages + [m];
        cbytes := cbytes + m.size;
        qnum := qnum + 1;
        msgBytes := msgBytes + m.size;
        msgHdrs := msgHdrs + 1;
      }
      result := Accepted;
    }

    method Unlink(k: nat)
      requires k < |messages|
      modifies this`messages, this`qnum, this`cbytes, this`msgBytes, this`msgHdrs
      ensures St() == Removed(old(St()), k)
    {
      var msg := messages[k];
      messages := messages[..k] + messages[k + 1..];
      qnum := qnum - 1;
      cbytes := cbytes - msg.size;
      msgBytes := msgBytes - msg.size;
      msgHdrs := msgHdrs - 1;
    }

    /** One round of do_msgrcv, up to the point where the task returns or goes to sleep. */
    method ReceiveRound(t: nat, req: Request, denied: bool) returns (result: Received)
      requires QueueOk(St())
      modifies this
      ensures denied ==> result == Failed(EACCES) && St() == old(St())
      ensures !denied ==> result == ReceiveResult(old(St()), req) && St() == AfterReceive(old(St()), t, req)
      ensures !denied ==> ReceiveSays(old(St()), St(), t, req, result)
    {
      hide SendersWoken, DistinctTasks, DistinctReceivers, Selected, Chosen, Removed, ReceiveSays;
      AfterReceiveSays(St(), t, req);
      if denied {
        return Failed(EACCES);
      }
      if !valid {
        return Failed(EIDRM);
      }
      var found, narrowed := FindMsg(messages, req.typ, req.mode);
      ChosenIs(St(), req, found);
      if found.Some? {
        var msg := messages[found.value];
        if req.bufsz < msg.size && !req.noerror {
          return Failed(E2BIG);
        }
        if req.mode == Number {
          return Copied(msg);
        }
        Unlink(found.value);
        SsWakeup();
        return Got(msg);
      }
      if req.nowait {
        return Failed(ENOMSG);
      }
      receivers := receivers + [Receiver(t, narrowed, req.mode, if req.noerror then INT_MAX else req.bufsz)];
      slots := slots[t := Waiting];
      awake := awake - {t};
      result := Sleeps;
    }

    /**
     * msgctl_down(IPC_SET) on the queue it looked up. `owner` says whether ipcctl_obtain_check lets the caller change
     * it, `limit` is msg_ctlmnb, `capable` the capability to go beyond it, and `idsOk` whether the new owner exists.
     */
    method SetQbytes(bytes: nat, limit: nat, owner: bool, capable: bool, idsOk: bool) returns (err: int)
      requires QueueOk(St())
      modifies this
      ensures err == if !owner || (bytes > limit && !capable) then -EPERM else if !idsOk then -EINVAL else 0
      ensures St() == if err == 0 then AfterSet(old(St()), bytes) else old(St())
      ensures err == 0 ==> SetSays(old(St()), St(), bytes)
    {
      hide SendersWoken, DistinctTasks, SetSays;
      AfterSetSays(St(), bytes);
      if !owner {
        return -EPERM;
      }
      if bytes > limit && !capable {
        return -EPERM;
      }
      if !idsOk {
        return -EINVAL;
      }
      err := 0;
      qbytes := bytes;
      ExpungeAll(Waiting);
      SsWakeup();
    }

    /** freeque */
    method FreeQueue()
      requires QueueOk(St())
      modifies this
      ensures St() == AfterFree(old(St()))
      ensures FreeSays(old(St()), St())
    {
      hide FreeSays;
      AfterFreeSays(St());
      ExpungeAll(Refused(EIDRM));
      SsKill();
      valid := false;
      for k := 0 to |messages|
        invariant messages == old(messages) && msgHdrs == old(msgHdrs) - k
        invariant St() == old(St()).(slots := slots, awake := awake, senders := [], valid := false, msgHdrs := msgHdrs)
        invariant slots == Expunged(old(St()), Refused(EIDRM)).slots
        invariant awake == Expunged(old(St()), Refused(EIDRM)).awake + Tasks(old(senders))
      {
        msgHdrs := msgHdrs - 1;
      }
      messages := [];
      msgBytes := msgBytes - cbytes;
    }
  }

  lemma ChosenIs(q: Queue, req: Request, found: Option<nat>)
    requires found.Some? ==> Selected(q.messages, req.typ, req.mode, found.value)
    requires found.None? ==> forall k: nat :: !Selected(q.messages, req.typ, req.mode, k)
    ensures Chosen(q, req) == found
  {
    if found.Some? {
      SelectedOnce(q.messages, req.typ, req.mode, found.value, Chosen(q, req).value);
    }
  }

  lemma OfferedAt(q: Queue, m: Msg, k: nat)
    requires k <= |q.receivers| && |Unmatched(q.receivers[..k], m)| < |Offered(q, m, k).receivers|
    ensures k < |q.receivers| && Offered(q, m, k).receivers[|Unmatched(q.receivers[..k], m)|] == q.receivers[k]
    ensures var p := |Unmatched(q.receivers[..k], m)|;
            var rs := Offered(q, m, k).receivers;
            rs[..p] + rs[p + 1..] == Unmatched(q.receivers[..k], m) + q.receivers[k + 1..]
  {
  }

  lemma TakerIs(rs: seq<Receiver>, m: Msg, k: nat)
    requires k <= |rs| && (k < |rs| ==> CanTake(m, rs[k]))
    requires forall j | 0 <= j < k :: !CanTake(m, rs[j])
    ensures Taker(rs, m) == k
  {
  }

  lemma PipelinedIs(q: Queue, m: Msg)
    requires QueueOk(q)
    ensures var k := Taker(q.receivers, m);
            var o := Offered(q, m, k);
            && (k == |q.receivers| ==> Pipelined(q, m) == o)
            && (k < |q.receivers| ==>
                  (Pipelined(q, m) ==
                   o.(receivers := Unmatched(q.receivers[..k], m) + q.receivers[k + 1..],
                      slots := o.slots[q.receivers[k].task := Handed(m)],
                      awake := o.awake + {q.receivers[k].task})))
  {
  }

  lemma PipelinedKeeps(q: Queue, m: Msg)
    requires QueueOk(q)
    ensures Pipelined(q, m) == q.(receivers := Pipelined(q, m).receivers, slots := Pipelined(q, m).slots, awake := Pipelined(q, m).awake)
  {
  }
}
