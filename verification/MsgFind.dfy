/**
 Which message a msgrcv() call selects: convert_mode, testmsg and find_msg of
 ipc/msg.c, against the rules of msgrcv() in IEEE Std 1003.1-2017.
 */
module MsgFind {
  import opened Options

  const LONG_MAX: int := 0x7fff_ffff_ffff_ffff
  const LONG_MIN: int := -LONG_MAX - 1

  /** struct msg_msg. The id tells messages apart; the code never looks at it. */
  datatype Msg = Msg(id: nat, mtype: int, size: nat)

  datatype Mode = Any | Equal | NotEqual | LessEqual | Number

  ghost predicate Typed(msgs: seq<Msg>) {
    forall k | 0 <= k < |msgs| :: 1 <= msgs[k].mtype <= LONG_MAX
  }

  /** convert_mode, with MSG_COPY and MSG_EXCEPT decoded: the type and mode to search for. */
  function ConvertMode(msgtyp: int, copy: bool, except: bool): (int, Mode) {
    if copy then (msgtyp, Number)
    else if msgtyp == 0 then (msgtyp, Any)
    else if msgtyp < 0 then (if msgtyp == LONG_MIN then LONG_MAX else -msgtyp, LessEqual)
    else if except then (msgtyp, NotEqual)
    else (msgtyp, Equal)
  }

  /** testmsg */
  predicate TestMsg(m: Msg, typ: int, mode: Mode) {
    match mode
    case Any => true
    case Number => true
    case LessEqual => m.mtype <= typ
    case Equal => m.mtype == typ
    case NotEqual => m.mtype != typ
  }

  /** Message k is the one to receive. */
  ghost predicate Selected(msgs: seq<Msg>, typ: int, mode: Mode, k: nat) {
    && k < |msgs|
    && match mode
       case Number => k == typ
       case LessEqual =>
         && msgs[k].mtype <= typ
         && (forall j | 0 <= j < |msgs| :: msgs[k].mtype <= msgs[j].mtype)
         && (forall j | 0 <= j < k :: msgs[j].mtype != msgs[k].mtype)
       case _ => TestMsg(msgs[k], typ, mode) && forall j | 0 <= j < k :: !TestMsg(msgs[j], typ, mode)
  }

  /** What msgrcv() promises for the type argument of its caller. */
  ghost predicate Promised(msgs: seq<Msg>, msgtyp: int, k: nat) {
    && k < |msgs|
    && if msgtyp == 0 then k == 0
       else if msgtyp > 0 then msgs[k].mtype == msgtyp && forall j | 0 <= j < k :: msgs[j].mtype != msgtyp
       else
         && msgs[k].mtype <= -msgtyp
         && (forall j | 0 <= j < |msgs| :: msgs[k].mtype <= msgs[j].mtype)
         && (forall j | 0 <= j < k :: msgs[j].mtype > msgs[k].mtype)
  }

  /** Even for LONG_MIN, whose negation does not exist, the search convert_mode sets
      up selects what msgrcv() promises. */
  lemma ConvertModeKeepsPromise(msgs: seq<Msg>, msgtyp: int, k: nat)
    requires Typed(msgs) && LONG_MIN <= msgtyp <= LONG_MAX
    ensures var (typ, mode) := ConvertMode(msgtyp, false, false);
            LONG_MIN <= typ <= LONG_MAX && (Selected(msgs, typ, mode, k) <==> Promised(msgs, msgtyp, k))
  {
    var (typ, mode) := ConvertMode(msgtyp, false, false);
    if msgtyp == 0 {
      if k > 0 && k < |msgs| {
        assert TestMsg(msgs[0], typ, mode);
      }
    } else if msgtyp < 0 && k < |msgs| {
      assert (forall j | 0 <= j < |msgs| :: msgs[k].mtype <= msgs[j].mtype) ==>
          forall j | 0 <= j < k :: msgs[j].mtype != msgs[k].mtype <==> msgs[j].mtype > msgs[k].mtype;
    }
  }

  lemma SelectedOnce(msgs: seq<Msg>, typ: int, mode: Mode, j: nat, k: nat)
    requires Selected(msgs, typ, mode, j) && Selected(msgs, typ, mode, k)
    ensures j == k
  {
  }

  /** The least type so far is found at best, and nothing before it is as small. */
  ghost predicate LeastSoFar(msgs: seq<Msg>, typ: int, n: nat, found: Option<nat>)
    requires n <= |msgs|
  {
    match found
    case None => forall j | 0 <= j < n :: msgs[j].mtype > typ
    case Some(best) =>
      && best < n && msgs[best].mtype <= typ
      && (forall j | 0 <= j < n :: msgs[best].mtype <= msgs[j].mtype)
      && (forall j | 0 <= j < best :: msgs[best].mtype < msgs[j].mtype)
  }

  /** The number asked for does not come before k. */
  predicate Later(typ: int, k: int) {
    typ < 0 || typ >= k
  }

  /** find_msg: the search narrows its own type argument while it runs. */
  method FindMsg(msgs: seq<Msg>, msgtyp: int, mode: Mode) returns (found: Option<nat>, narrowed: int)
    requires Typed(msgs)
    ensures found.Some? ==> Selected(msgs, msgtyp, mode, found.value)
    ensures found.None? ==> forall k: nat :: !Selected(msgs, msgtyp, mode, k)
    ensures found.None? && mode != Number ==> forall k | 0 <= k < |msgs| :: !TestMsg(msgs[k], msgtyp, mode)
    ensures found.None? ==> narrowed == msgtyp
  {
    found, narrowed := None, msgtyp;
    var count := 0;
    for k := 0 to |msgs|
      invariant mode != LessEqual ==> found == None && narrowed == msgtyp
      invariant mode == LessEqual ==> LeastSoFar(msgs, msgtyp, k, found)
      invariant mode == LessEqual ==> narrowed == if found.Some? then msgs[found.value].mtype - 1 else msgtyp
      invariant mode == Number ==> count == k && Later(msgtyp, k)
      invariant mode != LessEqual && mode != Number ==> forall j | 0 <= j < k :: !TestMsg(msgs[j], msgtyp, mode)
    {
      var msg := msgs[k];
      if TestMsg(msg, narrowed, mode) {
        if mode == LessEqual && msg.mtype != 1 {
          narrowed := msg.mtype - 1;
          found := Some(k);
        } else if mode == Number {
          if narrowed == count {
            return Some(k), narrowed;
          }
        } else {
          return Some(k), narrowed;
        }
        count := count + 1;
      }
    }
  }
}
