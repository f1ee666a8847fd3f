/**
 Any number of tasks sending to and receiving from one message queue, with the
 lockless end of msgrcv(), signals, spurious wakeups, IPC_SET and IPC_RMID
 interleaved in every order.
 */
module MsgRuns {
  import opened Options
  import opened MsgFind
  import opened MsgSenders
  import opened MsgQueues

  /** Where a task stands in do_msgrcv or do_msgsnd. */
  datatype Pc =
    | Idle
    | WantReceive(req: Request)           // about to take the lock and look
    | Asleep(req: Request)                // listed, lock dropped, in schedule()
    | Unsure(req: Request)                // woke up and read -EAGAIN without the lock
    | WantSend(msg: Msg, nowait: bool)
    | AsleepSending(msg: Msg)

  /** others*: what the other queues of the namespace contribute to its counters. */
  datatype Sys = Sys(
    q: Queue,
    pcs: seq<Pc>,
    nextId: nat,
    accepted: seq<Msg>,   // msgsnd() returned 0
    consumed: seq<Msg>,   // returned by msgrcv()
    freed: seq<Msg>,      // destroyed with the queue
    othersBytes: int,
    othersHdrs: int)

  datatype Action =
    | CallReceive(msgtyp: int, except: bool, bufsz: nat, nowait: bool, noerror: bool)
    | CallCopy(n: int, bufsz: nat, noerror: bool)  // MSG_COPY demands IPC_NOWAIT
    | CallSend(mtype: int, size: nat, nowait: bool)
    | Round               // take the lock and try
    | Look                // schedule() returned: read the slot without the lock
    | Deny                // the permission check fails: EACCES
    | Relock(signal: bool)  // the task gives up if a signal is pending, or if the check fails
    | SetLimit(qbytes: nat)
    | Rmid

  predicate Receiving(pc: Pc) {
    pc.Asleep? || pc.Unsure?
  }

  ghost predicate Can(s: Sys, t: nat, a: Action) {
    match a
    case SetLimit(_) => s.q.valid
    case Rmid => s.q.valid
    case _ =>
      t < |s.pcs| &&
      match s.pcs[t]
      case Idle => a.CallReceive? || a.CallCopy? || (a.CallSend? && 1 <= a.mtype <= LONG_MAX)
      case WantReceive(_) => a.Round? || a.Deny?
      case Asleep(_) => a.Look?
      case Unsure(_) => a.Relock?
      case WantSend(_, _) => a.Round? || a.Deny?
      case AsleepSending(_) => a.Relock?
  }

  // ---------- Steps ----------

  function Moved(s: Sys, t: nat, pc: Pc): Sys
    requires t < |s.pcs|
  {
    s.(pcs := s.pcs[t := pc])
  }

  ghost predicate Listed(rs: seq<Receiver>, t: nat) {
    exists k :: 0 <= k < |rs| && rs[k].task == t
  }

  ghost predicate ListedSender(ss: seq<Sender>, t: nat) {
    exists k :: 0 <= k < |ss| && ss[k].task == t
  }

  /** msgrcv() returns what its slot holds. */
  ghost function Returned(s: Sys, t: nat): Sys
    requires t < |s.pcs| && t in s.q.slots
  {
    var r := Moved(s, t, Idle);
    if s.q.slots[t].Handed? then r.(consumed := s.consumed + [s.q.slots[t].msg]) else r
  }

  ghost function Received(s: Sys, t: nat): Sys
    requires t < |s.pcs| && s.pcs[t].WantReceive?
  {
    var req := s.pcs[t].req;
    var r := s.(q := AfterReceive(s.q, t, req));
    match ReceiveResult(s.q, req)
    case Got(m) => Moved(r, t, Idle).(consumed := s.consumed + [m])
    case Sleeps => Moved(r, t, Asleep(req))
    case _ => Moved(r, t, Idle)
  }

  ghost function Sending(s: Sys, t: nat, m: Msg, nowait: bool): Sys
    requires t < |s.pcs| && QueueOk(s.q)
  {
    var r := s.(q := AfterSend(s.q, t, m, nowait));
    match SendResult(s.q, m, nowait)
    case Accepted => Moved(r, t, Idle).(accepted := s.accepted + [m])
    case Rejected(_) => Moved(r, t, Idle)
    case Blocks => Moved(r, t, AsleepSending(m))
  }

  ghost function WithoutReceiver(q: Queue, t: nat): (r: Queue)
    ensures r == q.(receivers := r.receivers)
  {
    if k :| 0 <= k < |q.receivers| && q.receivers[k].task == t then Unlisted(q, k) else q
  }

  ghost function WithoutSender(q: Queue, t: nat): (r: Queue)
    ensures r == q.(senders := r.senders)
  {
    if k :| 0 <= k < |q.senders| && q.senders[k].task == t then SenderGone(q, k) else q
  }

  ghost function Act(s: Sys, t: nat, a: Action): (r: Sys)
    requires Can(s, t, a) && SysInv(s)
    ensures r.othersBytes == s.othersBytes && r.othersHdrs == s.othersHdrs
  {
    match a
    case SetLimit(qbytes) => s.(q := AfterSet(s.q, qbytes))
    case Rmid => s.(q := AfterFree(s.q), freed := s.freed + s.q.messages)
    case CallReceive(msgtyp, except, bufsz, nowait, noerror) =>
      var (typ, mode) := ConvertMode(msgtyp, false, except);
      Moved(s, t, WantReceive(Request(typ, mode, bufsz, nowait, noerror)))
    case CallCopy(n, bufsz, noerror) =>
      Moved(s, t, WantReceive(Request(n, Number, bufsz, true, noerror)))
    case CallSend(mtype, size, nowait) =>
      Moved(s, t, WantSend(Msg(s.nextId, mtype, size), nowait)).(nextId := s.nextId + 1)
    case Round => if s.pcs[t].WantReceive? then Received(s, t) else Sending(s, t, s.pcs[t].msg, s.pcs[t].nowait)
    case Deny => Moved(s, t, Idle)
    case Look =>
      assert PcOk(s, t);
      if s.q.slots[t].Waiting? then Moved(s, t, Unsure(s.pcs[t].req)) else Returned(s, t)
    case Relock(signal) =>
      assert PcOk(s, t);
      if s.pcs[t].Unsure? then
        if !s.q.slots[t].Waiting? then Returned(s, t)
        else Moved(s.(q := WithoutReceiver(s.q, t)), t, if signal then Idle else WantReceive(s.pcs[t].req))
      else if !s.q.valid then Moved(s, t, Idle)
      else
        var r := s.(q := WithoutSender(s.q, t));
        WithoutSenderOk(s.q, t);
        if signal then Moved(r, t, Idle) else Sending(r, t, s.pcs[t].msg, false)
  }

  lemma WithoutSenderOk(q: Queue, t: nat)
    requires QueueOk(q)
    ensures QueueOk(WithoutSender(q, t))
  {
  }

  // ---------- What every interleaving keeps ----------

  function Record(t: nat, req: Request): Receiver {
    Receiver(t, req.typ, req.mode, if req.noerror then INT_MAX else req.bufsz)
  }

  /** A listed receiver is a task that sleeps with its slot still waiting. */
  ghost predicate ReceiversOk(s: Sys) {
    s.q.valid ==> forall k | 0 <= k < |s.q.receivers| ::
      var t := s.q.receivers[k].task;
      t < |s.pcs| && Receiving(s.pcs[t]) && s.q.slots.Keys >= {t} && s.q.slots[t].Waiting?
      && s.q.receivers[k] == Record(t, s.pcs[t].req)
  }

  ghost predicate SendersOk(s: Sys) {
    s.q.valid ==> forall k | 0 <= k < |s.q.senders| ::
      var t := s.q.senders[k].task;
      t < |s.pcs| && s.pcs[t].AsleepSending? && s.q.senders[k] == Sender(t, s.pcs[t].msg.size)
  }

  /** Nobody is forgotten: a waiting slot is listed on a live queue, a filled slot
      belongs to a task that was woken. */
  ghost predicate PcOk(s: Sys, t: nat)
    requires t < |s.pcs|
  {
    var pc, q := s.pcs[t], s.q;
    && (Receiving(pc) ==> t in q.slots && pc.req.mode != Number && (q.slots[t].Waiting? ==> q.valid && Listed(q.receivers, t)))
    && (pc.Asleep? && !q.slots[t].Waiting? ==> t in q.awake)
    && (pc.AsleepSending? ==> if q.valid then ListedSender(q.senders, t) else t in q.awake)
    && (pc.WantReceive? && pc.req.mode == Number ==> pc.req.nowait)
  }

  ghost predicate ReceiversJustified(q: Queue) {
    q.valid ==> forall j, k | 0 <= j < |q.messages| && 0 <= k < |q.receivers| :: !Matches(q.messages[j], q.receivers[k])
  }

  ghost predicate SendersJustified(q: Queue) {
    q.valid ==> forall k | 0 <= k < |q.senders| ::
      q.senders[k].task !in q.awake ==> !Room(q.cbytes, q.qnum, q.qbytes, q.senders[k].size)
  }

  /** Every sleeper is justified: no listed receiver matches a queued message, and
      no sender that was not woken would fit. */
  ghost predicate Justified(q: Queue) {
    ReceiversJustified(q) && SendersJustified(q)
  }

  /** The namespace's counters are the sums over what is queued. */
  ghost predicate CountersOk(s: Sys) {
    s.q.msgBytes == s.othersBytes + Bytes(s.q.messages) && s.q.msgHdrs == s.othersHdrs + |s.q.messages|
  }

  /** The message a sleeping receiver was handed and has not returned yet. */
  function Hand(s: Sys, t: nat): multiset<Msg>
    requires t < |s.pcs|
  {
    if Receiving(s.pcs[t]) && t in s.q.slots && s.q.slots[t].Handed? then multiset{s.q.slots[t].msg} else multiset{}
  }

  function Hands(s: Sys, n: nat): multiset<Msg>
    requires n <= |s.pcs|
  {
    if n == 0 then multiset{} else Hands(s, n - 1) + Hand(s, n - 1)
  }

  function Count(ms: seq<Msg>, m: Msg): nat {
    multiset(ms)[m]
  }

  /** How often a message is somewhere: queued, in a receiver's hand, consumed, freed. */
  ghost function Places(s: Sys, m: Msg): nat {
    Count(s.q.messages, m) + Hands(s, |s.pcs|)[m] + Count(s.consumed, m) + Count(s.freed, m)
  }

  /** Every accepted message is in one place, and nothing else is in any. */
  ghost predicate Conserved(s: Sys) {
    forall m :: Places(s, m) == Count(s.accepted, m)
  }

  /** No message is sent twice. */
  ghost predicate IdsOk(s: Sys) {
    && (forall j, k | 0 <= j < k < |s.accepted| :: s.accepted[j].id != s.accepted[k].id)
    && (forall k | 0 <= k < |s.accepted| :: s.accepted[k].id < s.nextId)
    && (forall t | 0 <= t < |s.pcs| && (s.pcs[t].WantSend? || s.pcs[t].AsleepSending?) ::
          s.pcs[t].msg.id < s.nextId && 1 <= s.pcs[t].msg.mtype <= LONG_MAX
          && forall k | 0 <= k < |s.accepted| :: s.accepted[k].id != s.pcs[t].msg.id)
    && (forall t, u | 0 <= t < u < |s.pcs| && (s.pcs[t].WantSend? || s.pcs[t].AsleepSending?)
          && (s.pcs[u].WantSend? || s.pcs[u].AsleepSending?) :: s.pcs[t].msg.id != s.pcs[u].msg.id)
  }

  ghost predicate ListsCore(s: Sys) {
    && QueueOk(s.q)
    && ReceiversOk(s)
    && SendersOk(s)
    && (forall t | 0 <= t < |s.pcs| :: PcOk(s, t))
    && ReceiversJustified(s.q)
  }

  ghost predicate ListsOk(s: Sys) {
    ListsCore(s) && SendersJustified(s.q)
  }

  ghost predicate SysInv(s: Sys) {
    ListsOk(s) && CountersOk(s) && IdsOk(s) && Conserved(s)
  }

  // ---------- Sums and hands ----------

  lemma {:induction false} BytesConcat(a: seq<Msg>, b: seq<Msg>)
    ensures Bytes(a + b) == Bytes(a) + Bytes(b)
  {
    if b == [] {
      assert a + b == a;
    } else {
      assert (a + b)[..|a + b| - 1] == a + b[..|b| - 1];
      BytesConcat(a, b[..|b| - 1]);
    }
  }

  lemma Without(msgs: seq<Msg>, k: nat)
    requires k < |msgs|
    ensures Bytes(msgs[..k] + msgs[k + 1..]) == Bytes(msgs) - msgs[k].size
  {
    hide Bytes;
    assert msgs == msgs[..k + 1] + msgs[k + 1..];
    BytesNext(msgs, k);
    BytesConcat(msgs[..k + 1], msgs[k + 1..]);
    BytesConcat(msgs[..k], msgs[k + 1..]);
  }

  lemma BytesNext(msgs: seq<Msg>, k: nat)
    requires k < |msgs|
    ensures Bytes(msgs[..k + 1]) == Bytes(msgs[..k]) + msgs[k].size
  {
    assert msgs[..k + 1][..k] == msgs[..k];
  }

  lemma Exchange(a: multiset<Msg>, b: multiset<Msg>, c: multiset<Msg>)
    ensures a + b + c == a + c + b
  {
  }

  lemma CountWithout(msgs: seq<Msg>, k: nat, m: Msg)
    requires k < |msgs|
    ensures Count(msgs[..k] + msgs[k + 1..], m) + multiset{msgs[k]}[m] == Count(msgs, m)
  {
    assert msgs == msgs[..k] + [msgs[k]] + msgs[k + 1..];
    assert multiset(msgs) == multiset(msgs[..k]) + multiset{msgs[k]} + multiset(msgs[k + 1..]);
  }

  lemma {:induction false} HandsOne(s: Sys, r: Sys, t: nat, n: nat)
    requires |r.pcs| == |s.pcs| && n <= |s.pcs| && t < |s.pcs|
    requires forall u | 0 <= u < |s.pcs| && u != t :: Hand(r, u) == Hand(s, u)
    ensures t < n ==> Hands(r, n) + Hand(s, t) == Hands(s, n) + Hand(r, t)
    ensures t >= n ==> Hands(r, n) == Hands(s, n)
  {
    hide Hand;
    if n > 0 {
      HandsOne(s, r, t, n - 1);
      Exchange(Hands(r, n - 1), Hand(r, n - 1), Hand(s, t));
      Exchange(Hands(s, n - 1), Hand(s, n - 1), Hand(r, t));
    }
  }

  lemma Cancel(a: multiset<Msg>, b: multiset<Msg>, c: multiset<Msg>)
    requires a + c == b + c
    ensures a == b
  {
    forall m
      ensures a[m] == b[m]
    {
      assert (a + c)[m] == a[m] + c[m] && (b + c)[m] == b[m] + c[m];
    }
  }

  lemma HandsSame(s: Sys, r: Sys)
    requires |r.pcs| == |s.pcs|
    requires forall u | 0 <= u < |s.pcs| :: Hand(r, u) == Hand(s, u)
    ensures Hands(r, |r.pcs|) == Hands(s, |s.pcs|)
  {
    if |s.pcs| == 0 {
      assert Hands(s, 0) == Hands(r, 0);
    } else {
      HandsOne(s, r, 0, |s.pcs|);
      Cancel(Hands(r, |s.pcs|), Hands(s, |s.pcs|), Hand(s, 0));
    }
  }

  // ---------- What the locked sections do to the lists ----------

  lemma {:induction false} UnmatchedIn(rs: seq<Receiver>, m: Msg)
    requires DistinctReceivers(rs)
    ensures DistinctReceivers(Unmatched(rs, m))
    ensures forall k | 0 <= k < |Unmatched(rs, m)| :: Unmatched(rs, m)[k] in rs && !Matches(m, Unmatched(rs, m)[k])
    ensures forall k | 0 <= k < |rs| && !Matches(m, rs[k]) :: rs[k] in Unmatched(rs, m)
  {
    if rs != [] {
      var init, last := rs[..|rs| - 1], rs[|rs| - 1];
      UnmatchedIn(init, m);
      assert rs == init + [last];
      forall k | 0 <= k < |Unmatched(init, m)|
        ensures Unmatched(init, m)[k].task != last.task
      {
        assert Unmatched(init, m)[k] in init;
      }
    }
  }

  /** Of the receivers before the taker, those the message matches were refused. */
  ghost predicate RefusedBy(q: Queue, m: Msg, k: nat)
    requires k < |q.receivers|
  {
    k < Taker(q.receivers, m) && Matches(m, q.receivers[k])
  }

  ghost predicate TakenBy(q: Queue, m: Msg, k: nat) {
    k < |q.receivers| && k == Taker(q.receivers, m)
  }

  ghost predicate SlotAfter(q: Queue, m: Msg, k: nat, v: Slot)
    requires k < |q.receivers| && q.receivers[k].task in q.slots
  {
    v == if TakenBy(q, m, k) then Handed(m) else if RefusedBy(q, m, k) then Refused(E2BIG) else q.slots[q.receivers[k].task]
  }

  /** A hand-off touches the slots of the listed receivers it takes off the list,
      and of nobody else. */
  lemma PipelinedFacts(q: Queue, m: Msg)
    requires QueueOk(q)
    ensures var r := Pipelined(q, m);
            && r == q.(receivers := r.receivers, slots := r.slots, awake := r.awake)
            && r.slots.Keys == q.slots.Keys && q.awake <= r.awake
            && DistinctReceivers(r.receivers)
            && (forall j | 0 <= j < |r.receivers| :: r.receivers[j] in q.receivers)
            && (Taker(q.receivers, m) == |q.receivers| ==> forall j | 0 <= j < |r.receivers| :: !Matches(m, r.receivers[j]))
            && (forall t | t in q.slots && !Listed(q.receivers, t) :: r.slots[t] == q.slots[t])
            && (forall k | 0 <= k < |q.receivers| :: SlotAfter(q, m, k, r.slots[q.receivers[k].task]))
            && (forall k | 0 <= k < |q.receivers| && (TakenBy(q, m, k) || RefusedBy(q, m, k)) ::
                  q.receivers[k].task in r.awake && !Listed(r.receivers, q.receivers[k].task))
            && (forall k | 0 <= k < |q.receivers| && !TakenBy(q, m, k) && !RefusedBy(q, m, k) ::
                  q.receivers[k] in r.receivers)
  {
    hide Unmatched, Taker, Matches, QueueOk, Pipelined, DistinctReceivers, Stored, MatchedTasks;
    PipelinedKeeps(q, m);
    PipelinedDistinct(q, m);
    PipelinedLists(q, m);
    PipelinedSlots(q, m);
    forall k | 0 <= k < |q.receivers| && (TakenBy(q, m, k) || RefusedBy(q, m, k))
      ensures !Listed(Pipelined(q, m).receivers, q.receivers[k].task)
    {
      PipelinedGone(q, m, k);
    }
  }

  /** The receivers before the taker that stay, and the receivers behind it. */
  function Before(rs: seq<Receiver>, m: Msg): seq<Receiver> {
    Unmatched(rs[..Taker(rs, m)], m)
  }

  function Behind(rs: seq<Receiver>, m: Msg): seq<Receiver> {
    if Taker(rs, m) == |rs| then [] else rs[Taker(rs, m) + 1..]
  }

  lemma PipelinedList(q: Queue, m: Msg)
    requires QueueOk(q)
    ensures Pipelined(q, m).receivers == Before(q.receivers, m) + Behind(q.receivers, m)
  {
    hide Unmatched, Taker, Matches, QueueOk, Stored, MatchedTasks, Pipelined;
    PipelinedIs(q, m);
    assert q.receivers[|q.receivers|..] == [];
  }

  lemma BeforeIn(rs: seq<Receiver>, m: Msg)
    requires DistinctReceivers(rs)
    ensures DistinctReceivers(Before(rs, m))
    ensures forall x | x in Before(rs, m) :: !Matches(m, x) && exists i :: 0 <= i < Taker(rs, m) && rs[i] == x
    ensures forall i | 0 <= i < Taker(rs, m) && !Matches(m, rs[i]) :: rs[i] in Before(rs, m)
  {
    var k := Taker(rs, m);
    UnmatchedIn(rs[..k], m);
    hide Unmatched, Taker, Matches;
    forall x | x in Before(rs, m)
      ensures !Matches(m, x) && exists i :: 0 <= i < k && rs[i] == x
    {
      var j :| 0 <= j < |Before(rs, m)| && Before(rs, m)[j] == x;
      assert x in rs[..k];
    }
    assert forall i | 0 <= i < k :: rs[..k][i] == rs[i];
  }

  lemma BehindIn(rs: seq<Receiver>, m: Msg)
    requires DistinctReceivers(rs)
    ensures DistinctReceivers(Behind(rs, m))
    ensures forall x | x in Behind(rs, m) :: exists i :: Taker(rs, m) < i < |rs| && rs[i] == x
    ensures forall i | Taker(rs, m) < i < |rs| :: rs[i] in Behind(rs, m)
  {
    hide Taker;
    var k := Taker(rs, m);
    forall i | k < i < |rs|
      ensures rs[i] in Behind(rs, m)
    {
      assert Behind(rs, m)[i - k - 1] == rs[i];
    }
  }

  lemma JoinReceivers(a: seq<Receiver>, b: seq<Receiver>)
    requires DistinctReceivers(a) && DistinctReceivers(b)
    requires forall x, y | x in a && y in b :: x.task != y.task
    ensures DistinctReceivers(a + b)
  {
  }

  lemma PipelinedDistinct(q: Queue, m: Msg)
    requires QueueOk(q)
    ensures DistinctReceivers(Pipelined(q, m).receivers)
    ensures forall x | x in Pipelined(q, m).receivers :: x in q.receivers
  {
    var rs := q.receivers;
    hide Unmatched, Taker, Matches, Typed, DistinctTasks, Before, Behind, Pipelined;
    PipelinedList(q, m);
    BeforeIn(rs, m);
    BehindIn(rs, m);
    JoinReceivers(Before(rs, m), Behind(rs, m));
  }

  lemma PipelinedGone(q: Queue, m: Msg, k: nat)
    requires QueueOk(q) && k < |q.receivers| && (TakenBy(q, m, k) || RefusedBy(q, m, k))
    ensures !Listed(Pipelined(q, m).receivers, q.receivers[k].task)
  {
    var rs := q.receivers;
    hide Unmatched, Taker, Matches, Typed, DistinctTasks, Before, Behind, Pipelined;
    PipelinedList(q, m);
    BeforeIn(rs, m);
    BehindIn(rs, m);
    forall x | x in Before(rs, m) || x in Behind(rs, m)
      ensures x.task != rs[k].task
    {
    }
  }

  lemma PipelinedLists(q: Queue, m: Msg)
    requires QueueOk(q)
    ensures var r := Pipelined(q, m);
            && (Taker(q.receivers, m) == |q.receivers| ==> forall x | x in r.receivers :: !Matches(m, x))
            && (forall k | 0 <= k < |q.receivers| && !TakenBy(q, m, k) && !RefusedBy(q, m, k) ::
                  q.receivers[k] in r.receivers)
  {
    var rs := q.receivers;
    hide Unmatched, Taker, Matches, Typed, DistinctTasks, Before, Pipelined, DistinctReceivers;
    PipelinedList(q, m);
    BeforeIn(rs, m);
    BehindIn(rs, m);
  }

  lemma PipelinedSlots(q: Queue, m: Msg)
    requires QueueOk(q)
    ensures var r := Pipelined(q, m);
            && r.slots.Keys == q.slots.Keys && q.awake <= r.awake
            && (forall t | t in q.slots && !Listed(q.receivers, t) :: r.slots[t] == q.slots[t])
            && (forall k | 0 <= k < |q.receivers| :: SlotAfter(q, m, k, r.slots[q.receivers[k].task]))
            && (forall k | 0 <= k < |q.receivers| && (TakenBy(q, m, k) || RefusedBy(q, m, k)) :: q.receivers[k].task in r.awake)
  {
    var k, rs := Taker(q.receivers, m), q.receivers;
    hide Unmatched, Taker, Matches, Typed, DistinctTasks;
    PipelinedIs(q, m);
    var told := MatchedTasks(rs[..k], m);
    forall t
      ensures t in told <==> exists i | 0 <= i < k :: Matches(m, rs[i]) && rs[i].task == t
    {
      assert forall i | 0 <= i < k :: rs[..k][i] == rs[i];
    }
    forall i | 0 <= i < |rs|
      ensures rs[i].task in told <==> RefusedBy(q, m, i)
    {
    }
  }

  // ---------- Steps that leave the queue alone ----------

  ghost predicate Quiescent(pc: Pc) {
    !Receiving(pc) && !pc.AsleepSending?
  }

  /** A task that is not on any list moves on, still off every list. */
  lemma MovedLists(s: Sys, t: nat, pc: Pc)
    requires ListsOk(s) && t < |s.pcs| && Quiescent(pc)
    requires Quiescent(s.pcs[t]) || !s.q.valid || (Receiving(s.pcs[t]) && t in s.q.slots && !s.q.slots[t].Waiting?)
    requires pc.WantReceive? && pc.req.mode == Number ==> pc.req.nowait
    ensures ListsOk(Moved(s, t, pc))
  {
    var r := Moved(s, t, pc);
    assert forall u | 0 <= u < |s.pcs| && u != t :: PcOk(s, u) ==> PcOk(r, u);
    assert PcOk(s, t);
  }

  lemma UnsureLists(s: Sys, t: nat)
    requires ListsOk(s) && t < |s.pcs| && s.pcs[t].Asleep?
    ensures ListsOk(Moved(s, t, Unsure(s.pcs[t].req)))
  {
    var r := Moved(s, t, Unsure(s.pcs[t].req));
    assert forall u | 0 <= u < |s.pcs| && u != t :: PcOk(s, u) ==> PcOk(r, u);
    assert PcOk(s, t);
  }

  /** Handing nothing over leaves all books as they are. */
  lemma MovedLedger(s: Sys, t: nat, pc: Pc)
    requires CountersOk(s) && IdsOk(s) && Conserved(s) && t < |s.pcs|
    requires Hand(Moved(s, t, pc), t) == Hand(s, t)
    requires pc.WantSend? || pc.AsleepSending? ==> (s.pcs[t].WantSend? || s.pcs[t].AsleepSending?) && pc.msg == s.pcs[t].msg
    ensures var r := Moved(s, t, pc); CountersOk(r) && IdsOk(r) && Conserved(r)
  {
    var r := Moved(s, t, pc);
    HandsSame(s, r);
  }

  lemma CallSendLedger(s: Sys, t: nat, mtype: int, size: nat, nowait: bool)
    requires CountersOk(s) && IdsOk(s) && Conserved(s) && t < |s.pcs| && s.pcs[t].Idle? && 1 <= mtype <= LONG_MAX
    ensures var r := Moved(s, t, WantSend(Msg(s.nextId, mtype, size), nowait)).(nextId := s.nextId + 1);
            CountersOk(r) && IdsOk(r) && Conserved(r)
  {
    var r := Moved(s, t, WantSend(Msg(s.nextId, mtype, size), nowait)).(nextId := s.nextId + 1);
    HandsSame(s, r);
  }

  /** The books when at most task t's hand changed. */
  lemma PlacesChange(s: Sys, r: Sys, t: nat, m: Msg)
    requires |r.pcs| == |s.pcs| && t < |s.pcs|
    requires forall u | 0 <= u < |s.pcs| && u != t :: Hand(r, u) == Hand(s, u)
    ensures Places(r, m) == Places(s, m) - Hand(s, t)[m] + Hand(r, t)[m]
                            - Count(s.q.messages, m) + Count(r.q.messages, m)
                            - Count(s.consumed, m) + Count(r.consumed, m)
                            - Count(s.freed, m) + Count(r.freed, m)
  {
    HandsOne(s, r, t, |s.pcs|);
    assert (Hands(r, |s.pcs|) + Hand(s, t))[m] == (Hands(s, |s.pcs|) + Hand(r, t))[m];
  }

  /** The books as far as one step of task t can change them. */
  ghost function Nearby(s: Sys, t: nat, m: Msg): nat
    requires t < |s.pcs|
  {
    Hand(s, t)[m] + Count(s.q.messages, m) + Count(s.consumed, m) + Count(s.freed, m)
  }

  ghost predicate Balances(s: Sys, r: Sys, t: nat, m: Msg)
    requires |r.pcs| == |s.pcs| && t < |s.pcs|
  {
    Nearby(r, t, m) + Count(s.accepted, m) == Nearby(s, t, m) + Count(r.accepted, m)
  }

  lemma Balanced(s: Sys, r: Sys, t: nat)
    requires Conserved(s) && |r.pcs| == |s.pcs| && t < |s.pcs|
    requires forall u | 0 <= u < |s.pcs| && u != t :: Hand(r, u) == Hand(s, u)
    requires forall m :: Balances(s, r, t, m)
    ensures Conserved(r)
  {
    hide Hand, Hands, Places;
    forall m
      ensures Places(r, m) == Count(r.accepted, m)
    {
      PlacesChange(s, r, t, m);
      assert Balances(s, r, t, m);
      assert Places(s, m) == Count(s.accepted, m);
    }
  }

  lemma Append(ms: seq<Msg>, x: Msg, m: Msg)
    ensures Count(ms + [x], m) == Count(ms, m) + multiset{x}[m]
  {
  }

  /** A receiver returns with its slot: a message in its hand is consumed. */
  lemma ReturnedLedger(s: Sys, t: nat)
    requires SysInv(s) && t < |s.pcs| && Receiving(s.pcs[t]) && t in s.q.slots && !s.q.slots[t].Waiting?
    ensures Conserved(Returned(s, t))
  {
    var r := Returned(s, t);
    assert Hand(r, t) == multiset{};
    assert forall u | 0 <= u < |s.pcs| && u != t :: Hand(r, u) == Hand(s, u);
    forall m
      ensures Balances(s, r, t, m)
    {
      if s.q.slots[t].Handed? {
        Append(s.consumed, s.q.slots[t].msg, m);
      }
    }
    Balanced(s, r, t);
  }

  lemma ReturnedInv(s: Sys, t: nat)
    requires SysInv(s) && t < |s.pcs| && Receiving(s.pcs[t]) && t in s.q.slots && !s.q.slots[t].Waiting?
    ensures SysInv(Returned(s, t))
  {
    var r := Returned(s, t);
    MovedLists(s, t, Idle);
    ReturnedLedger(s, t);
    hide Conserved;
    assert r.q == s.q && IdsOk(r) && CountersOk(r);
    hide ListsOk, IdsOk;
    ListsSame(Moved(s, t, Idle), r);
  }

  lemma ListsSame(s: Sys, r: Sys)
    requires ListsOk(s) && r.q == s.q && r.pcs == s.pcs
    ensures ListsOk(r)
  {
    assert forall u | 0 <= u < |s.pcs| :: PcOk(s, u) ==> PcOk(r, u);
  }

  // ---------- Waking the senders ----------

  lemma WokenFacts(q: Queue)
    requires DistinctTasks(q.senders)
    ensures var r := SendersWoken(q);
            && DistinctTasks(r.senders) && q.awake <= r.awake
            && (forall x :: x in r.senders <==> x in q.senders)
            && (forall k | 0 <= k < |r.senders| ::
                  r.senders[k].task !in r.awake ==> !Room(q.cbytes, q.qnum, q.qbytes, r.senders[k].size))
  {
    var fits, ss := Fitting(q.cbytes, q.qnum, q.qbytes), q.senders;
    hide Sorted, Filter, Tasks, DistinctTasks;
    SortedIn(fits, ss);
    FittingTasks(fits, ss);
    var r := SendersWoken(q);
    forall k | 0 <= k < |r.senders| && fits(r.senders[k])
      ensures r.senders[k].task in Tasks(Filter(fits, ss))
    {
      assert r.senders[k] in ss;
    }
  }

  lemma SortedIn(fits: Sender -> bool, ss: seq<Sender>)
    requires DistinctTasks(ss)
    ensures DistinctTasks(Sorted(fits, ss))
    ensures forall x :: x in Sorted(fits, ss) <==> x in ss
  {
    hide DistinctTasks, Rotated;
    RotatedNone(fits, ss);
    RotatedDistinct(fits, ss, |ss|);
  }

  lemma FittingTasks(fits: Sender -> bool, ss: seq<Sender>)
    ensures forall x | x in ss && fits(x) :: x.task in Tasks(Filter(fits, ss))
  {
    var f := Filter(fits, ss);
    forall x | x in ss && fits(x)
      ensures x.task in Tasks(f)
    {
      assert x in f;
      var j :| 0 <= j < |f| && f[j] == x;
    }
  }

  /** ss_wakeup restores what a change of the queue's fill or limit upset. */
  lemma WokenLists(s: Sys)
    requires ListsCore(s)
    ensures ListsOk(s.(q := SendersWoken(s.q)))
  {
    var r := s.(q := SendersWoken(s.q));
    WokenFacts(s.q);
    hide Sorted, Tasks, Filter, Room;
    assert forall x | x in r.q.senders :: x in s.q.senders;
    forall t | 0 <= t < |s.pcs|
      ensures PcOk(r, t)
    {
      assert PcOk(s, t);
      if s.pcs[t].AsleepSending? && s.q.valid {
        var k :| 0 <= k < |s.q.senders| && s.q.senders[k].task == t;
        assert s.q.senders[k] in r.q.senders;
      }
    }
    assert SendersOk(r) by {
      forall k | s.q.valid && 0 <= k < |r.q.senders|
        ensures exists j :: 0 <= j < |s.q.senders| && s.q.senders[j] == r.q.senders[k]
      {
        assert r.q.senders[k] in s.q.senders;
      }
    }
  }

  // ---------- Receiving ----------

  ghost predicate FirstLeast(msgs: seq<Msg>, b: nat) {
    && b < |msgs|
    && (forall j | 0 <= j < |msgs| :: msgs[b].mtype <= msgs[j].mtype)
    && (forall j | 0 <= j < b :: msgs[j].mtype != msgs[b].mtype)
  }

  lemma {:induction false} LeastExists(msgs: seq<Msg>)
    requires msgs != []
    ensures exists b: nat :: FirstLeast(msgs, b)
  {
    var init, last := msgs[..|msgs| - 1], |msgs| - 1;
    if init == [] {
      assert FirstLeast(msgs, 0);
    } else {
      LeastExists(init);
      var b: nat :| FirstLeast(init, b);
      assert forall j | 0 <= j < last :: msgs[j] == init[j];
      assert FirstLeast(msgs, if msgs[last].mtype < msgs[b].mtype then last else b);
    }
  }

  lemma {:induction false} FirstExists(msgs: seq<Msg>, typ: int, mode: Mode, k: nat)
    requires k < |msgs| && TestMsg(msgs[k], typ, mode) && mode != LessEqual && mode != Number
    ensures exists b: nat :: Selected(msgs, typ, mode, b)
    decreases k
  {
    if j :| 0 <= j < k && TestMsg(msgs[j], typ, mode) {
      FirstExists(msgs, typ, mode, j);
    } else {
      assert Selected(msgs, typ, mode, k);
    }
  }

  /** A receiver goes to sleep only if no queued message matches it. */
  lemma SleepJustified(q: Queue, req: Request)
    requires Chosen(q, req).None? && req.mode != Number
    ensures forall k | 0 <= k < |q.messages| :: !TestMsg(q.messages[k], req.typ, req.mode)
  {
    forall k | 0 <= k < |q.messages| && TestMsg(q.messages[k], req.typ, req.mode)
      ensures false
    {
      if req.mode == LessEqual {
        LeastExists(q.messages);
        var b: nat :| FirstLeast(q.messages, b);
        assert Selected(q.messages, req.typ, req.mode, b);
      } else {
        FirstExists(q.messages, req.typ, req.mode, k);
      }
    }
  }

  lemma RemovedLists(s: Sys, k: nat)
    requires ListsOk(s) && s.q.valid && k < |s.q.messages|
    ensures ListsCore(s.(q := Removed(s.q, k)))
  {
    var r := s.(q := Removed(s.q, k));
    Without(s.q.messages, k);
    assert forall j | 0 <= j < |r.q.messages| :: r.q.messages[j] == s.q.messages[if j < k then j else j + 1];
    assert forall u | 0 <= u < |s.pcs| :: PcOk(s, u) ==> PcOk(r, u);
  }

  lemma GotQueue(q: Queue, k: nat)
    requires k < |q.messages|
    ensures var r := SendersWoken(Removed(q, k));
            && r.messages == q.messages[..k] + q.messages[k + 1..] && r.slots == q.slots
            && r.msgBytes == q.msgBytes - q.messages[k].size && r.msgHdrs == q.msgHdrs - 1
  {
  }

  lemma GotBooks(s: Sys, t: nat, k: nat, r: Sys)
    requires SysInv(s) && t < |s.pcs| && s.pcs[t].WantReceive? && k < |s.q.messages|
    requires r == Moved(s.(q := SendersWoken(Removed(s.q, k))), t, Idle).(consumed := s.consumed + [s.q.messages[k]])
    ensures CountersOk(r) && IdsOk(r)
  {
    hide SendersWoken, Removed, ListsOk, Bytes, Conserved;
    GotQueue(s.q, k);
    Without(s.q.messages, k);
  }

  lemma GotConserved(s: Sys, t: nat, k: nat, r: Sys)
    requires SysInv(s) && t < |s.pcs| && s.pcs[t].WantReceive? && k < |s.q.messages|
    requires r == Moved(s.(q := SendersWoken(Removed(s.q, k))), t, Idle).(consumed := s.consumed + [s.q.messages[k]])
    ensures Conserved(r)
  {
    hide SendersWoken, Removed, ListsOk, Bytes, Conserved, IdsOk, CountersOk, Count;
    GotQueue(s.q, k);
    assert forall u | 0 <= u < |s.pcs| && u != t :: Hand(r, u) == Hand(s, u);
    assert Hand(r, t) == Hand(s, t);
    hide Hand;
    forall m
      ensures Balances(s, r, t, m)
    {
      Append(s.consumed, s.q.messages[k], m);
      CountWithout(s.q.messages, k, m);
    }
    Balanced(s, r, t);
  }

  lemma GotInv(s: Sys, t: nat)
    requires SysInv(s) && t < |s.pcs| && s.pcs[t].WantReceive? && ReceiveResult(s.q, s.pcs[t].req).Got?
    ensures SysInv(Received(s, t))
  {
    var k, r := Chosen(s.q, s.pcs[t].req).value, Received(s, t);
    GotBooks(s, t, k, r);
    GotConserved(s, t, k, r);
    RemovedLists(s, k);
    hide ListsCore, SendersWoken, CountersOk, IdsOk, Conserved, Removed, Selected;
    var s1 := s.(q := Removed(s.q, k));
    WokenLists(s1);
    var s2 := s1.(q := SendersWoken(s1.q));
    MovedLists(s2, t, Idle);
    ListsSame(Moved(s2, t, Idle), r);
  }

  lemma SleepLists(s: Sys, t: nat)
    requires ListsOk(s) && t < |s.pcs| && s.pcs[t].WantReceive? && ReceiveResult(s.q, s.pcs[t].req).Sleeps?
    ensures ListsOk(Received(s, t))
  {
    var req, r := s.pcs[t].req, Received(s, t);
    assert PcOk(s, t);
    SleepJustified(s.q, req);
    hide Chosen, Selected, TestMsg, Room;
    forall u | 0 <= u < |s.pcs|
      ensures PcOk(r, u)
    {
      assert PcOk(s, u);
      if u == t {
        assert r.q.receivers[|s.q.receivers|].task == t;
      } else if Receiving(s.pcs[u]) && s.q.slots[u].Waiting? {
        var k :| 0 <= k < |s.q.receivers| && s.q.receivers[k].task == u;
        assert r.q.receivers[k].task == u;
      }
    }
    assert ReceiversOk(r) && SendersOk(r);
  }

  lemma SleepInv(s: Sys, t: nat)
    requires SysInv(s) && t < |s.pcs| && s.pcs[t].WantReceive? && ReceiveResult(s.q, s.pcs[t].req).Sleeps?
    ensures SysInv(Received(s, t))
  {
    hide ListsOk, ListsCore, Places, Hands, Conserved;
    SleepLists(s, t);
    var r := Received(s, t);
    assert forall u | 0 <= u < |s.pcs| :: Hand(r, u) == Hand(s, u);
    Balanced(s, r, t);
  }

  // ---------- Sending ----------

  /** A task whose slot a hand-off did not fill is listed as before. */
  lemma HandoffPc(s: Sys, m: Msg, u: nat)
    requires ListsOk(s) && s.q.valid && u < |s.pcs|
    ensures PcOk(s.(q := Pipelined(s.q, m)), u)
  {
    PipelinedFacts(s.q, m);
    hide Pipelined, Taker, Matches, Room, DistinctTasks;
    var r := s.(q := Pipelined(s.q, m));
    assert PcOk(s, u);
    if Receiving(s.pcs[u]) && Listed(s.q.receivers, u) {
      var k :| 0 <= k < |s.q.receivers| && s.q.receivers[k].task == u;
      assert SlotAfter(s.q, m, k, r.q.slots[u]);
      if !TakenBy(s.q, m, k) && !RefusedBy(s.q, m, k) {
        assert s.q.receivers[k] in r.q.receivers;
      }
    }
  }

  lemma HandoffReceivers(s: Sys, m: Msg)
    requires ListsOk(s) && s.q.valid
    ensures ReceiversOk(s.(q := Pipelined(s.q, m)))
  {
    hide Pipelined, SendersOk, PcOk, ReceiversJustified, SendersJustified, DistinctTasks, DistinctReceivers;
    var r := s.(q := Pipelined(s.q, m));
    PipelinedKeeps(s.q, m);
    PipelinedDistinct(s.q, m);
    forall j | 0 <= j < |r.q.receivers|
      ensures exists k :: 0 <= k < |s.q.receivers| && s.q.receivers[k] == r.q.receivers[j]
                && r.q.receivers[j].task in r.q.slots
                && r.q.slots[r.q.receivers[j].task] == s.q.slots[s.q.receivers[k].task]
    {
      assert r.q.receivers[j] in s.q.receivers;
      var k :| 0 <= k < |s.q.receivers| && s.q.receivers[k] == r.q.receivers[j];
      StaysWaiting(s.q, m, k);
    }
  }

  lemma StaysWaiting(q: Queue, m: Msg, k: nat)
    requires QueueOk(q) && k < |q.receivers| && q.receivers[k] in Pipelined(q, m).receivers
    ensures q.receivers[k].task in Pipelined(q, m).slots
    ensures Pipelined(q, m).slots[q.receivers[k].task] == q.slots[q.receivers[k].task]
  {
    hide Pipelined, DistinctTasks, DistinctReceivers, Typed;
    PipelinedSlots(q, m);
    assert Listed(Pipelined(q, m).receivers, q.receivers[k].task);
    if TakenBy(q, m, k) || RefusedBy(q, m, k) {
      PipelinedGone(q, m, k);
    }
    assert SlotAfter(q, m, k, Pipelined(q, m).slots[q.receivers[k].task]);
  }

  lemma HandoffLists(s: Sys, m: Msg)
    requires ListsOk(s) && s.q.valid
    ensures ListsOk(s.(q := Pipelined(s.q, m)))
    ensures Taker(s.q.receivers, m) == |s.q.receivers| && 1 <= m.mtype <= LONG_MAX ==>
              ListsOk(s.(q := Appended(Pipelined(s.q, m), m)))
  {
    var r := s.(q := Pipelined(s.q, m));
    HandoffReceivers(s, m);
    forall u | 0 <= u < |s.pcs|
      ensures PcOk(r, u)
    {
      HandoffPc(s, m, u);
    }
    PipelinedFacts(s.q, m);
    hide Pipelined, Taker, Matches;
    HandoffQueue(s.q, m);
    assert SendersOk(r);
    assert ListsOk(r);
    if Taker(s.q.receivers, m) == |s.q.receivers| && 1 <= m.mtype <= LONG_MAX {
      AppendLists(r, m);
    }
  }

  lemma HandoffQueue(q: Queue, m: Msg)
    requires QueueOk(q) && Justified(q)
    ensures QueueOk(Pipelined(q, m)) && Justified(Pipelined(q, m))
  {
    PipelinedFacts(q, m);
    hide Pipelined, Taker, Matches, Room, DistinctTasks, Bytes;
    var r := Pipelined(q, m);
    forall j | 0 <= j < |r.receivers|
      ensures exists k :: 0 <= k < |q.receivers| && q.receivers[k] == r.receivers[j]
    {
      assert r.receivers[j] in q.receivers;
    }
  }

  lemma AppendLists(r: Sys, m: Msg)
    requires ListsOk(r) && r.q.valid && 1 <= m.mtype <= LONG_MAX
    requires forall j | 0 <= j < |r.q.receivers| :: !Matches(m, r.q.receivers[j])
    ensures ListsOk(r.(q := Appended(r.q, m)))
  {
    hide Matches, DistinctTasks, DistinctReceivers;
    var a := r.(q := Appended(r.q, m));
    assert a.q.messages[..|r.q.messages|] == r.q.messages;
    forall u | 0 <= u < |r.pcs|
      ensures PcOk(a, u)
    {
      assert PcOk(r, u);
    }
  }

  lemma HandoffSlot(q: Queue, m: Msg, u: nat)
    requires QueueOk(q) && u in q.slots
    ensures var k, v := Taker(q.receivers, m), Pipelined(q, m).slots;
            && u in v
            && (!Listed(q.receivers, u) ==> v[u] == q.slots[u])
            && (k < |q.receivers| && q.receivers[k].task == u ==> v[u] == Handed(m))
            && (Listed(q.receivers, u) && (k == |q.receivers| || q.receivers[k].task != u) ==>
                  v[u] == q.slots[u] || v[u] == Refused(E2BIG))
  {
    hide Pipelined, Taker, Matches, DistinctTasks, Typed;
    PipelinedSlots(q, m);
    if Listed(q.receivers, u) {
      var k :| 0 <= k < |q.receivers| && q.receivers[k].task == u;
      assert SlotAfter(q, m, k, Pipelined(q, m).slots[u]);
    }
  }

  lemma HandoffHands(s: Sys, m: Msg, u: nat)
    requires ListsOk(s) && s.q.valid && u < |s.pcs|
    ensures var k, r := Taker(s.q.receivers, m), s.(q := Pipelined(s.q, m));
            && (k < |s.q.receivers| && u == s.q.receivers[k].task ==>
                  Hand(r, u) == multiset{m} && Hand(s, u) == multiset{})
            && (k == |s.q.receivers| || u != s.q.receivers[k].task ==> Hand(r, u) == Hand(s, u))
  {
    hide Pipelined, Taker, SendersJustified, ReceiversJustified, SendersOk, QueueOk;
    assert PcOk(s, u);
    if Receiving(s.pcs[u]) {
      HandoffSlot(s.q, m, u);
    }
    TakerListed(s, m);
  }

  lemma TakerListed(s: Sys, m: Msg)
    requires ListsOk(s) && s.q.valid
    ensures var k := Taker(s.q.receivers, m);
            k < |s.q.receivers| ==>
              (var u := s.q.receivers[k].task; u < |s.pcs| && Receiving(s.pcs[u]) && u in s.q.slots && s.q.slots[u].Waiting?)
    ensures forall u | 0 <= u < |s.pcs| && Listed(s.q.receivers, u) :: u in s.q.slots && s.q.slots[u].Waiting?
    ensures QueueOk(s.q)
  {
  }

  lemma SysQueueOk(s: Sys)
    requires SysInv(s)
    ensures ListsOk(s) && QueueOk(s.q)
  {
  }

  /** The books of an accepted message. */
  lemma AcceptedBooks(s: Sys, t: nat, m: Msg, r: Sys)
    requires SysInv(s) && s.q.valid && t < |s.pcs| && s.pcs[t].WantSend? && s.pcs[t].msg == m
    requires r == Moved(s.(q := r.q), t, Idle).(accepted := s.accepted + [m])
    requires r.q == AfterSend(s.q, t, m, s.pcs[t].nowait) && SendResult(s.q, m, s.pcs[t].nowait) == Accepted
    ensures CountersOk(r) && IdsOk(r)
  {
    hide Pipelined, Taker, ListsOk, QueueOk, Conserved, Room;
    SysQueueOk(s);
    PipelinedKeeps(s.q, m);
    BytesConcat(s.q.messages, [m]);
    assert Bytes([m]) == Bytes([]) + m.size;
  }

  /** The task whose hand an accepted message may fill: the taker, or nobody. */
  ghost function Filled(s: Sys, t: nat, m: Msg): nat {
    var k := Taker(s.q.receivers, m);
    if k < |s.q.receivers| then s.q.receivers[k].task else t
  }

  lemma AcceptedHands(s: Sys, t: nat, m: Msg, r: Sys)
    requires ListsOk(s) && s.q.valid && t < |s.pcs| && s.pcs[t].WantSend?
    requires r.pcs == s.pcs[t := Idle] && r.q.slots == Pipelined(s.q, m).slots
    ensures var k, x := Taker(s.q.receivers, m), Filled(s, t, m);
            && x < |s.pcs| && Hand(s, x) == multiset{}
            && Hand(r, x) == (if k < |s.q.receivers| then multiset{m} else multiset{})
            && forall u | 0 <= u < |s.pcs| && u != x :: Hand(r, u) == Hand(s, u)
  {
    hide Pipelined, Taker, ListsOk, QueueOk, Hand;
    TakerListed(s, m);
    var h, x := s.(q := Pipelined(s.q, m)), Filled(s, t, m);
    SenderHand(s, t);
    forall u | 0 <= u < |s.pcs|
      ensures Hand(r, u) == (if u == t then multiset{} else Hand(h, u))
      ensures u != x ==> Hand(h, u) == Hand(s, u)
    {
      SameHand(h, r, t, u);
      HandoffHands(s, m, u);
    }
    HandoffHands(s, m, x);
    assert x == t || s.pcs[x] != s.pcs[t];
  }

  lemma SenderHand(s: Sys, t: nat)
    requires t < |s.pcs| && s.pcs[t].WantSend?
    ensures Hand(s, t) == multiset{} && !Receiving(s.pcs[t])
  {
  }

  lemma SameHand(h: Sys, r: Sys, t: nat, u: nat)
    requires t < |h.pcs| && u < |h.pcs| && r.pcs == h.pcs[t := Idle] && r.q.slots == h.q.slots
    ensures Hand(r, u) == if u == t then multiset{} else Hand(h, u)
  {
  }

  lemma AcceptedConserved(s: Sys, t: nat, m: Msg, r: Sys)
    requires SysInv(s) && s.q.valid && t < |s.pcs| && s.pcs[t].WantSend? && s.pcs[t].msg == m
    requires r == Moved(s.(q := r.q), t, Idle).(accepted := s.accepted + [m])
    requires r.q == AfterSend(s.q, t, m, s.pcs[t].nowait) && SendResult(s.q, m, s.pcs[t].nowait) == Accepted
    ensures Conserved(r)
  {
    hide Pipelined, Taker, IdsOk, Conserved, CountersOk, ListsOk, QueueOk, Room, Count, Hands, Hand, Filled;
    SysQueueOk(s);
    PipelinedKeeps(s.q, m);
    AcceptedHands(s, t, m, r);
    var x := Filled(s, t, m);
    forall y
      ensures Balances(s, r, x, y)
    {
      Append(s.accepted, m, y);
      Append(s.q.messages, m, y);
    }
    Balanced(s, r, x);
  }

  lemma AcceptedInv(s: Sys, t: nat)
    requires SysInv(s) && t < |s.pcs| && s.pcs[t].WantSend?
    requires SendResult(s.q, s.pcs[t].msg, s.pcs[t].nowait) == Accepted
    ensures QueueOk(s.q) && SysInv(Sending(s, t, s.pcs[t].msg, s.pcs[t].nowait))
  {
    hide Pipelined, Taker, Conserved, CountersOk, ListsOk, QueueOk, Room;
    SysQueueOk(s);
    var m := s.pcs[t].msg;
    var r := Sending(s, t, m, s.pcs[t].nowait);
    AcceptedBooks(s, t, m, r);
    AcceptedConserved(s, t, m, r);
    HandoffLists(s, m);
    var h := s.(q := r.q);
    MovedLists(h, t, Idle);
    ListsSame(Moved(h, t, Idle), r);
  }

  lemma BlockedLists(s: Sys, t: nat)
    requires ListsOk(s) && t < |s.pcs| && s.pcs[t].WantSend?
    requires SendResult(s.q, s.pcs[t].msg, s.pcs[t].nowait) == Blocks
    ensures ListsOk(Sending(s, t, s.pcs[t].msg, s.pcs[t].nowait))
  {
    var m := s.pcs[t].msg;
    var r := Sending(s, t, m, s.pcs[t].nowait);
    forall u | 0 <= u < |s.pcs|
      ensures PcOk(r, u)
    {
      assert PcOk(s, u);
      if u == t {
        assert r.q.senders[|s.q.senders|].task == t;
      } else if s.pcs[u].AsleepSending? {
        var k :| 0 <= k < |s.q.senders| && s.q.senders[k].task == u;
        assert r.q.senders[k].task == u;
      }
    }
  }

  lemma SendingInv(s: Sys, t: nat)
    requires SysInv(s) && t < |s.pcs| && s.pcs[t].WantSend?
    ensures QueueOk(s.q) && SysInv(Sending(s, t, s.pcs[t].msg, s.pcs[t].nowait))
  {
    hide ListsOk, Conserved, CountersOk, Room, QueueOk;
    SysQueueOk(s);
    var m, nowait := s.pcs[t].msg, s.pcs[t].nowait;
    match SendResult(s.q, m, nowait)
    case Accepted =>
      AcceptedInv(s, t);
    case Rejected(_) =>
      MovedLists(s, t, Idle);
      MovedLedger(s, t, Idle);
    case Blocks =>
      BlockedLists(s, t);
      var r := Sending(s, t, m, nowait);
      MovedLedger(s, t, AsleepSending(m));
      SameBooks(Moved(s, t, AsleepSending(m)), r);
  }

  /** The books do not look at the lists. */
  lemma SameBooks(s: Sys, r: Sys)
    requires CountersOk(s) && IdsOk(s) && Conserved(s)
    requires r == s.(q := r.q) && r.q.messages == s.q.messages
    requires r.q.msgBytes == s.q.msgBytes && r.q.msgHdrs == s.q.msgHdrs
    requires forall u | 0 <= u < |s.pcs| :: Hand(r, u) == Hand(s, u)
    ensures CountersOk(r) && IdsOk(r) && Conserved(r)
  {
    HandsSame(s, r);
    forall m
      ensures Places(r, m) == Count(r.accepted, m)
    {
      assert Places(s, m) == Count(s.accepted, m);
    }
  }

  // ---------- Leaving a list after a signal or a spurious wakeup ----------

  lemma LeaveReceivers(s: Sys, t: nat, pc: Pc)
    requires ListsOk(s) && t < |s.pcs| && s.pcs[t].Unsure? && t in s.q.slots && s.q.slots[t].Waiting?
    requires pc.Idle? || pc == WantReceive(s.pcs[t].req)
    ensures ListsOk(Moved(s.(q := WithoutReceiver(s.q, t)), t, pc))
  {
    hide Unlisted, ReceiversJustified, SendersJustified, DistinctTasks, DistinctReceivers;
    assert PcOk(s, t);
    var k :| 0 <= k < |s.q.receivers| && s.q.receivers[k].task == t && WithoutReceiver(s.q, t) == Unlisted(s.q, k);
    UnlistedQueue(s.q, k);
    var r := Moved(s.(q := WithoutReceiver(s.q, t)), t, pc);
    forall u | 0 <= u < |s.pcs|
      ensures PcOk(r, u)
    {
      assert PcOk(s, u);
      if u != t && Receiving(s.pcs[u]) && s.q.slots[u].Waiting? {
        StillListed(s.q.receivers, k, u);
      }
    }
  }

  lemma UnlistedQueue(q: Queue, k: nat)
    requires QueueOk(q) && Justified(q) && k < |q.receivers|
    ensures var r := Unlisted(q, k);
            && r == q.(receivers := q.receivers[..k] + q.receivers[k + 1..]) && QueueOk(r) && Justified(r)
            && (forall j | 0 <= j < |r.receivers| :: r.receivers[j].task != q.receivers[k].task)
            && (forall j | 0 <= j < |r.receivers| :: r.receivers[j] == q.receivers[if j < k then j else j + 1])
  {
    hide Matches, Room, DistinctTasks;
    var r := Unlisted(q, k);
    assert forall j | 0 <= j < |r.receivers| :: r.receivers[j] == q.receivers[if j < k then j else j + 1];
  }

  lemma StillListed(rs: seq<Receiver>, k: nat, u: nat)
    requires k < |rs| && rs[k].task != u && Listed(rs, u)
    ensures Listed(rs[..k] + rs[k + 1..], u)
  {
    var j :| 0 <= j < |rs| && rs[j].task == u;
    assert (rs[..k] + rs[k + 1..])[if j < k then j else j - 1] == rs[j];
  }

  lemma LeaveReceiversInv(s: Sys, t: nat, pc: Pc)
    requires SysInv(s) && t < |s.pcs| && s.pcs[t].Unsure? && t in s.q.slots && s.q.slots[t].Waiting?
    requires pc.Idle? || pc == WantReceive(s.pcs[t].req)
    ensures SysInv(Moved(s.(q := WithoutReceiver(s.q, t)), t, pc))
  {
    hide ListsOk, Conserved, CountersOk, Unlisted, Places;
    LeaveReceivers(s, t, pc);
    MovedLedger(s, t, pc);
    SameBooks(Moved(s, t, pc), Moved(s.(q := WithoutReceiver(s.q, t)), t, pc));
  }

  lemma LeaveSenders(s: Sys, t: nat, pc: Pc)
    requires ListsOk(s) && s.q.valid && t < |s.pcs| && s.pcs[t].AsleepSending?
    requires pc.Idle? || pc.WantSend?
    ensures ListsOk(Moved(s.(q := WithoutSender(s.q, t)), t, pc))
  {
    hide SenderGone, ReceiversJustified, SendersJustified, DistinctTasks, DistinctReceivers;
    assert PcOk(s, t);
    var k :| 0 <= k < |s.q.senders| && s.q.senders[k].task == t && WithoutSender(s.q, t) == SenderGone(s.q, k);
    GoneQueue(s.q, k);
    var r := Moved(s.(q := WithoutSender(s.q, t)), t, pc);
    forall u | 0 <= u < |s.pcs|
      ensures PcOk(r, u)
    {
      assert PcOk(s, u);
      if u != t && s.pcs[u].AsleepSending? {
        StillListedSender(s.q.senders, k, u);
      }
    }
  }

  lemma GoneQueue(q: Queue, k: nat)
    requires QueueOk(q) && Justified(q) && k < |q.senders|
    ensures var r := SenderGone(q, k);
            && r == q.(senders := q.senders[..k] + q.senders[k + 1..]) && QueueOk(r) && Justified(r)
            && (forall j | 0 <= j < |r.senders| :: r.senders[j].task != q.senders[k].task)
            && (forall j | 0 <= j < |r.senders| :: r.senders[j] == q.senders[if j < k then j else j + 1])
  {
    hide Matches, Room, DistinctReceivers;
    var r := SenderGone(q, k);
    assert forall j | 0 <= j < |r.senders| :: r.senders[j] == q.senders[if j < k then j else j + 1];
  }

  lemma StillListedSender(ss: seq<Sender>, k: nat, u: nat)
    requires k < |ss| && ss[k].task != u && ListedSender(ss, u)
    ensures ListedSender(ss[..k] + ss[k + 1..], u)
  {
    var j :| 0 <= j < |ss| && ss[j].task == u;
    assert (ss[..k] + ss[k + 1..])[if j < k then j else j - 1] == ss[j];
  }

  lemma LeaveSendersInv(s: Sys, t: nat, pc: Pc)
    requires SysInv(s) && s.q.valid && t < |s.pcs| && s.pcs[t].AsleepSending?
    requires pc.Idle? || (pc.WantSend? && pc.msg == s.pcs[t].msg)
    ensures SysInv(Moved(s.(q := WithoutSender(s.q, t)), t, pc))
  {
    hide ListsOk, Conserved, CountersOk, SenderGone, Places;
    LeaveSenders(s, t, pc);
    MovedLedger(s, t, pc);
    SameBooks(Moved(s, t, pc), Moved(s.(q := WithoutSender(s.q, t)), t, pc));
  }

  // ---------- IPC_SET and IPC_RMID ----------

  lemma SetInv(s: Sys, qbytes: nat)
    requires SysInv(s) && s.q.valid
    ensures SysInv(s.(q := AfterSet(s.q, qbytes)))
  {
    var e := Expunged(s.q.(qbytes := qbytes), Waiting);
    var r := s.(q := AfterSet(s.q, qbytes));
    assert e.slots == s.q.slots by {
      assert forall t | t in ReceiverTasks(s.q.receivers) :: t in s.q.slots && s.q.slots[t].Waiting?;
    }
    hide Room, Matches, Sorted, Tasks, Filter, Stored, Bytes;
    forall u | 0 <= u < |s.pcs|
      ensures PcOk(s.(q := e), u)
    {
      assert PcOk(s, u);
    }
    assert ListsCore(s.(q := e));
    hide ListsCore, Conserved, CountersOk, Expunged;
    WokenLists(s.(q := e));
    SetBooks(s, qbytes);
  }

  lemma SetBooks(s: Sys, qbytes: nat)
    requires SysInv(s) && s.q.valid && Expunged(s.q.(qbytes := qbytes), Waiting).slots == s.q.slots
    ensures var r := s.(q := AfterSet(s.q, qbytes)); CountersOk(r) && IdsOk(r) && Conserved(r)
  {
    hide ListsOk, Conserved, CountersOk, IdsOk, Sorted, Tasks, Filter, Stored, Bytes, Room;
    SameBooks(s, s.(q := AfterSet(s.q, qbytes)));
  }

  lemma FreeLists(s: Sys)
    requires ListsOk(s) && s.q.valid
    ensures ListsOk(s.(q := AfterFree(s.q)))
  {
    var r := s.(q := AfterFree(s.q));
    hide Room, Matches, Bytes;
    forall u | 0 <= u < |s.pcs|
      ensures PcOk(r, u)
    {
      assert PcOk(s, u);
      if Receiving(s.pcs[u]) && s.q.slots[u].Waiting? {
        assert u in ReceiverTasks(s.q.receivers);
      }
      if s.pcs[u].AsleepSending? {
        assert u in Tasks(s.q.senders);
      }
    }
  }

  lemma FreeBooks(s: Sys)
    requires SysInv(s) && s.q.valid
    ensures var r := s.(q := AfterFree(s.q), freed := s.freed + s.q.messages); CountersOk(r) && IdsOk(r) && Conserved(r)
  {
    var r := s.(q := AfterFree(s.q), freed := s.freed + s.q.messages);
    forall u | 0 <= u < |s.pcs|
      ensures Hand(r, u) == Hand(s, u)
    {
      assert PcOk(s, u);
    }
    HandsSame(s, r);
    forall m
      ensures Places(r, m) == Count(r.accepted, m)
    {
      assert Places(s, m) == Count(s.accepted, m);
      assert multiset(s.freed + s.q.messages) == multiset(s.freed) + multiset(s.q.messages);
    }
  }

  lemma FreeInv(s: Sys)
    requires SysInv(s) && s.q.valid
    ensures SysInv(s.(q := AfterFree(s.q), freed := s.freed + s.q.messages))
  {
    FreeLists(s);
    FreeBooks(s);
    hide ListsCore, SendersJustified, IdsOk, Conserved, CountersOk;
    ListsSame(s.(q := AfterFree(s.q)), s.(q := AfterFree(s.q), freed := s.freed + s.q.messages));
  }

  // ---------- Every step, every run ----------

  lemma ReceivedInv(s: Sys, t: nat)
    requires SysInv(s) && t < |s.pcs| && s.pcs[t].WantReceive?
    ensures SysInv(Received(s, t))
  {
    hide ListsOk, Conserved, CountersOk, IdsOk, Chosen;
    SysQueueOk(s);
    match ReceiveResult(s.q, s.pcs[t].req)
    case Got(_) => GotInv(s, t);
    case Sleeps => SleepInv(s, t);
    case _ =>
      MovedLists(s, t, Idle);
      MovedLedger(s, t, Idle);
  }

  lemma RelockSenderInv(s: Sys, t: nat, signal: bool)
    requires SysInv(s) && t < |s.pcs| && s.pcs[t].AsleepSending?
    ensures SysInv(Act(s, t, Relock(signal)))
  {
    hide ListsOk, Conserved, CountersOk, IdsOk, WithoutSender, AfterSend, SendResult;
    SysQueueOk(s);
    var m := s.pcs[t].msg;
    if !s.q.valid {
      MovedLists(s, t, Idle);
      MovedLedger(s, t, Idle);
    } else if signal {
      LeaveSendersInv(s, t, Idle);
    } else {
      LeaveSendersInv(s, t, WantSend(m, false));
      var w := Moved(s.(q := WithoutSender(s.q, t)), t, WantSend(m, false));
      SendingInv(w, t);
      WithoutSenderOk(s.q, t);
      assert Sending(w, t, m, false) == Sending(s.(q := WithoutSender(s.q, t)), t, m, false);
    }
  }

  lemma RelockReceiverInv(s: Sys, t: nat, signal: bool)
    requires SysInv(s) && t < |s.pcs| && s.pcs[t].Unsure?
    ensures SysInv(Act(s, t, Relock(signal)))
  {
    assert PcOk(s, t);
    hide ListsOk, Conserved, CountersOk, IdsOk, WithoutReceiver;
    if !s.q.slots[t].Waiting? {
      ReturnedInv(s, t);
    } else {
      LeaveReceiversInv(s, t, if signal then Idle else WantReceive(s.pcs[t].req));
    }
  }

  lemma LookInv(s: Sys, t: nat)
    requires SysInv(s) && t < |s.pcs| && s.pcs[t].Asleep?
    ensures SysInv(Act(s, t, Look))
  {
    assert PcOk(s, t);
    UnsureLists(s, t);
    hide ListsOk, Conserved, CountersOk, IdsOk;
    if s.q.slots[t].Waiting? {
      MovedLedger(s, t, Unsure(s.pcs[t].req));
    } else {
      ReturnedInv(s, t);
    }
  }

  lemma CallInv(s: Sys, t: nat, a: Action)
    requires SysInv(s) && Can(s, t, a) && (a.CallReceive? || a.CallCopy? || a.CallSend? || a.Deny?)
    ensures SysInv(Act(s, t, a))
  {
    hide ListsOk, Conserved, CountersOk, IdsOk;
    var r := Act(s, t, a);
    MovedLists(s, t, r.pcs[t]);
    ListsSame(Moved(s, t, r.pcs[t]), r);
    if a.CallSend? {
      CallSendLedger(s, t, a.mtype, a.size, a.nowait);
    } else {
      MovedLedger(s, t, r.pcs[t]);
    }
  }

  lemma ActInv(s: Sys, t: nat, a: Action)
    requires SysInv(s) && Can(s, t, a)
    ensures SysInv(Act(s, t, a))
  {
    hide SysInv;
    match a
    case SetLimit(qbytes) => SetInv(s, qbytes);
    case Rmid => FreeInv(s);
    case Round => if s.pcs[t].WantReceive? { ReceivedInv(s, t); } else { SendingInv(s, t); }
    case Look => LookInv(s, t);
    case Relock(signal) => if s.pcs[t].Unsure? { RelockReceiverInv(s, t, signal); } else { RelockSenderInv(s, t, signal); }
    case _ => CallInv(s, t, a);
  }

  /** newque, with any number of tasks about to use it */
  ghost function Fresh(tasks: nat, qbytes: nat, bytes: int, hdrs: int): (s: Sys)
    ensures SysInv(s) && |s.pcs| == tasks && s.othersBytes == bytes && s.othersHdrs == hdrs
  {
    var s := Sys(Queue([], [], [], 0, 0, qbytes, true, bytes, hdrs, map[], {}), seq(tasks, _ => Idle), 0, [], [], [], bytes, hdrs);
    FreshInv(s);
    s
  }

  lemma FreshInv(s: Sys)
    requires s.q == Queue([], [], [], 0, 0, s.q.qbytes, true, s.othersBytes, s.othersHdrs, map[], {}) && s.q.qbytes >= 0
    requires s.nextId == 0 && s.accepted == [] && s.consumed == [] && s.freed == []
    requires forall t | 0 <= t < |s.pcs| :: s.pcs[t].Idle?
    ensures SysInv(s)
  {
    NoHands(s, |s.pcs|);
    assert forall t | 0 <= t < |s.pcs| :: PcOk(s, t);
  }

  lemma {:induction false} NoHands(s: Sys, n: nat)
    requires n <= |s.pcs| && forall t | 0 <= t < |s.pcs| :: s.pcs[t].Idle?
    ensures Hands(s, n) == multiset{}
  {
    if n > 0 {
      NoHands(s, n - 1);
    }
  }

  ghost predicate Runs(s: Sys, steps: seq<(nat, Action)>)
    requires SysInv(s)
    decreases |steps|
  {
    steps == [] ||
    (Can(s, steps[0].0, steps[0].1) &&
     (ActInv(s, steps[0].0, steps[0].1);
      Runs(Act(s, steps[0].0, steps[0].1), steps[1..])))
  }

  ghost function Run(s: Sys, steps: seq<(nat, Action)>): (r: Sys)
    requires SysInv(s) && Runs(s, steps)
    ensures SysInv(r) && r.othersBytes == s.othersBytes && r.othersHdrs == s.othersHdrs
    decreases |steps|
  {
    if steps == [] then s
    else
      ActInv(s, steps[0].0, steps[0].1);
      Run(Act(s, steps[0].0, steps[0].1), steps[1..])
  }

  lemma {:induction false} CountOnce(ms: seq<Msg>, m: Msg)
    requires forall j, k | 0 <= j < k < |ms| :: ms[j].id != ms[k].id
    ensures Count(ms, m) == if m in ms then 1 else 0
  {
    if ms != [] {
      CountOnce(ms[..|ms| - 1], m);
      assert ms == ms[..|ms| - 1] + [ms[|ms| - 1]];
    }
  }

  /** Exactly once, over every run: a message whose msgsnd() succeeded is in one
      place, queued, in one receiver's hand, returned by one msgrcv() or destroyed
      with the queue; no other message is anywhere. */
  lemma ExactlyOnce(tasks: nat, qbytes: nat, bytes: int, hdrs: int, steps: seq<(nat, Action)>, m: Msg)
    requires Runs(Fresh(tasks, qbytes, bytes, hdrs), steps)
    ensures var s := Run(Fresh(tasks, qbytes, bytes, hdrs), steps); Places(s, m) == if m in s.accepted then 1 else 0
  {
    var s := Run(Fresh(tasks, qbytes, bytes, hdrs), steps);
    assert Places(s, m) == Count(s.accepted, m);
    CountOnce(s.accepted, m);
  }

  /** The counters, over every run: q_cbytes and q_qnum while the queue lives, and
      its part of the namespace's msg_bytes and msg_hdrs always, are the sums over
      the queued messages. */
  lemma Counters(tasks: nat, qbytes: nat, bytes: int, hdrs: int, steps: seq<(nat, Action)>)
    requires Runs(Fresh(tasks, qbytes, bytes, hdrs), steps)
    ensures var q := Run(Fresh(tasks, qbytes, bytes, hdrs), steps).q;
            && (q.valid ==> q.cbytes == Bytes(q.messages) && q.qnum == |q.messages|)
            && q.msgBytes == bytes + Bytes(q.messages) && q.msgHdrs == hdrs + |q.messages|
            && (!q.valid ==> q.messages == [])
  {
    hide ListsOk, IdsOk, Conserved;
    QueueSums(Run(Fresh(tasks, qbytes, bytes, hdrs), steps));
  }

  lemma QueueSums(s: Sys)
    requires ListsOk(s)
    ensures s.q.valid ==> s.q.cbytes == Bytes(s.q.messages) && s.q.qnum == |s.q.messages|
    ensures !s.q.valid ==> s.q.messages == []
  {
  }

  /** Nobody sleeps in vain, over every run: a receiver whose slot is still waiting is listed on
      a live queue and matches no queued message, whether or not it is being woken; one that is
      not being woken has such a slot; a sleeping sender either was woken or does not fit; after
      IPC_RMID everybody asleep was woken. */
  lemma NobodySleepsInVain(tasks: nat, qbytes: nat, bytes: int, hdrs: int, steps: seq<(nat, Action)>, t: nat)
    requires Runs(Fresh(tasks, qbytes, bytes, hdrs), steps)
    requires t < |Run(Fresh(tasks, qbytes, bytes, hdrs), steps).pcs|
    ensures var s := Run(Fresh(tasks, qbytes, bytes, hdrs), steps);
            && (Receiving(s.pcs[t]) ==> t in s.q.slots)
            && (Receiving(s.pcs[t]) && s.q.slots[t].Waiting? ==>
                  && s.q.valid && Listed(s.q.receivers, t)
                  && forall k | 0 <= k < |s.q.messages| ::
                       !TestMsg(s.q.messages[k], s.pcs[t].req.typ, s.pcs[t].req.mode))
            && (s.pcs[t].Asleep? && t !in s.q.awake ==> s.q.slots[t].Waiting?)
            && (s.pcs[t].AsleepSending? && t !in s.q.awake ==>
                  s.q.valid && !Room(s.q.cbytes, s.q.qnum, s.q.qbytes, s.pcs[t].msg.size))
  {
    var s := Run(Fresh(tasks, qbytes, bytes, hdrs), steps);
    assert PcOk(s, t);
    hide TestMsg, Room;
    if Receiving(s.pcs[t]) && s.q.slots[t].Waiting? {
      var j :| 0 <= j < |s.q.receivers| && s.q.receivers[j].task == t;
      assert forall k | 0 <= k < |s.q.messages| :: !Matches(s.q.messages[k], s.q.receivers[j]);
    }
  }
}
