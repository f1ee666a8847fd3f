/**
 The resumable unpacker of init/initramfs.c: eight actions over global state, fed
 one chunk of decompressed data after the other.
 */
module CpioUnpacker {
  import opened Options
  import opened Cpio

  datatype State = Start | Collect | GotHeader | SkipIt | GotName | CopyFile | GotSymlink | Reset

  class Unpacker {
    const env: Env
    const headerBuf: array<byte>
    const nameBuf: array<byte>
    const symlinkBuf: array<byte>
    var state: State
    var nextState: State
    var input: array<byte>      // the chunk; victim is an index into it
    var victim: nat
    var byteCount: nat
    var thisHeader: nat
    var nextHeader: nat
    var collected: array<byte>  // a pointer is an array and an index
    var collectedAt: nat
    var collect: nat
    var remains: nat
    var h: Header
    var bodyLen: nat
    var links: map<Key, bytes>
    var trace: seq<Effect>
    var message: bool           // an error was reported

    /** The buffers and the state unpack_to_rootfs starts with */
    constructor (env: Env)
      ensures Valid() && this.env == env && state == Start && !message
      ensures thisHeader == 0 && links == map[] && trace == []
      ensures fresh(headerBuf) && fresh(nameBuf) && fresh(symlinkBuf)
    {
      this.env := env;
      var header, name, symlink := new byte[HEADER_SIZE], new byte[NAlign(PATH_MAX)], new byte[PATH_MAX + NAlign(PATH_MAX) + 1];
      headerBuf, nameBuf, symlinkBuf := header, name, symlink;
      collected, input := header, new byte[0];
      state, nextState := Start, Start;
      victim, byteCount, thisHeader, nextHeader, collectedAt, collect, remains, bodyLen := 0, 0, 0, 0, 0, 0, 0, 0;
      h := Header(0, 0, 0, 0, 0, 0, 0, 0, 0, 0, 0, 0);
      links, trace, message := map[], [], false;
    }

    ghost predicate Buffers()
      reads this`input, this`victim, this`byteCount
    {
      && headerBuf.Length == HEADER_SIZE
      && nameBuf.Length == NAlign(PATH_MAX)
      && symlinkBuf.Length == PATH_MAX + NAlign(PATH_MAX) + 1
      && headerBuf != nameBuf && headerBuf != symlinkBuf && nameBuf != symlinkBuf
      && input != headerBuf && input != nameBuf && input != symlinkBuf
      && victim + byteCount == input.Length
    }

    /** What each state may rely on: in particular every collection fits its buffer. */
    ghost predicate Valid()
      reads this
    {
      && Readable()
      && Buffers()
      && (state == Collect ==> remains > 0 && collectedAt == 0 && InBuffer(nextState, collect + remains))
      && (state == GotName ==> NameAhead())
      && (state == GotSymlink ==> InBuffer(GotSymlink, NAlign(h.nameLen) + bodyLen) && collectedAt == 0)
      && (state == CopyFile ==> thisHeader + bodyLen <= nextHeader && nextState == Reset)
      && (state == SkipIt ==> thisHeader <= nextHeader && (thisHeader == nextHeader ==> nextState == Reset))
    }

    ghost predicate NameAhead()
      reads this`h, this`bodyLen, this`thisHeader, this`nextHeader
    {
      h.nameLen <= PATH_MAX && bodyLen == h.bodyLen && thisHeader <= nextHeader
      && (Fmt(h.mode) == REG ==> thisHeader + bodyLen <= nextHeader)
    }

    /** The bytes collected for state s go into its buffer, size of them in all. */
    ghost predicate InBuffer(s: State, size: nat)
      reads this
    {
      match s
      case GotHeader => collected == headerBuf && size == HEADER_SIZE
      case GotName =>
        && collected == nameBuf && size == NAlign(h.nameLen) && h.nameLen <= PATH_MAX && bodyLen == h.bodyLen
        && state == Collect && thisHeader + remains + (if Fmt(h.mode) == REG then bodyLen else 0) <= nextHeader
      case GotSymlink =>
        && collected == symlinkBuf && size == NAlign(h.nameLen) + bodyLen && bodyLen == h.bodyLen
        && h.nameLen <= PATH_MAX && bodyLen <= PATH_MAX
        && thisHeader + (if state == Collect then remains else 0) <= nextHeader
      case _ => false
    }

    ghost function At(pos: Pos): Machine
      reads this`thisHeader, this`links, this`trace
    {
      Machine(pos, thisHeader, links, trace)
    }

    /** The reference machine's state. States that act without more input are seen
        as having acted. */
    ghost function Abs(): Machine
      requires Readable()
      reads this, collected
    {
      if message then At(Bad)
      else
        match state
        case Start => At(Head([]))
        case Reset => At(Between)
        case SkipIt => if nextState == Reset then Skipping(At(Between), nextHeader) else Lost
        case CopyFile => Copying(At(Between), bodyLen, h.mtime, nextHeader)
        case Collect =>
          At(if nextState == GotHeader then Head(collected[..collect])
             else if nextState == GotName then Name(h, nextHeader, collected[..collect])
             else Link(h, nextHeader, collected[..collect]))
        case _ => Due(state)
    }

    /** What is collected, and the rest of the chunk, are there to be read. */
    ghost predicate Readable()
      reads this
    {
      Complete(state) && (state == Collect ==> collect <= collected.Length) && victim <= input.Length
    }

    /** The bytes that are needed to act in state s are where collected points. */
    ghost predicate Complete(s: State)
      reads this`collected, this`collectedAt, this`h
    {
      && (s == GotHeader ==> collectedAt + HEADER_SIZE <= collected.Length)
      && (s == GotName ==> collectedAt + NAlign(h.nameLen) <= collected.Length)
      && (s == GotSymlink ==> collectedAt == 0 && NAlign(h.nameLen) + h.bodyLen <= collected.Length)
    }

    ghost function Due(s: State): Machine
      requires Complete(s)
      reads this`thisHeader, this`links, this`trace, this`collected, this`collectedAt, this`h, this`nextHeader, collected
    {
      match s
      case GotHeader => Cpio.GotHeader(At(Between), collected[collectedAt..collectedAt + HEADER_SIZE])
      case GotName => Cpio.GotName(env, At(Between), h, nextHeader, collected[collectedAt..collectedAt + NAlign(h.nameLen)])
      case GotSymlink => Cpio.GotSymlink(At(Between), h, nextHeader, collected[..NAlign(h.nameLen) + h.bodyLen])
      case _ => Lost
    }

    lemma AbsDue()
      requires Readable() && !message && (state == GotHeader || state == GotName || state == GotSymlink)
      ensures Complete(state) && Abs() == Due(state)
    {
    }

    lemma AbsCopy()
      requires Readable() && !message && state == CopyFile
      ensures Abs() == Copying(At(Between), bodyLen, h.mtime, nextHeader)
    {
    }

    lemma AbsBad()
      requires Readable() && message
      ensures Abs() == At(Bad)
    {
    }

    lemma AbsSkip()
      requires Readable() && !message && state == SkipIt && nextState == Reset
      ensures Abs() == Skipping(At(Between), nextHeader)
    {
    }

    /** Where the reference machine will be after the rest of the chunk. */
    ghost function Ahead(): Machine
      requires Readable()
      reads this, collected, input
    {
      Fold(env, Abs(), input[victim..])
    }

    // ---------- The actions ----------

    /** eat: n is an unsigned int */
    method Eat(n: nat)
      requires n <= byteCount < 0x1_0000_0000
      modifies this`victim, this`thisHeader, this`byteCount
      ensures victim == old(victim) + n && thisHeader == old(thisHeader) + n && byteCount == old(byteCount) - n
    {
      var m := n % 0x1_0000_0000;
      victim := victim + m;
      thisHeader := thisHeader + m;
      byteCount := byteCount - m;
    }

    /** read_into */
    method ReadInto(buf: array<byte>, size: nat, next: State)
      requires byteCount < 0x1_0000_0000 && victim + byteCount == input.Length
      modifies this`victim, this`thisHeader, this`byteCount, this`collected, this`collectedAt, this`collect, this`remains
      modifies this`state, this`nextState
      ensures if old(byteCount) >= size then
                && collected == input && collectedAt == old(victim) && state == next && nextState == old(nextState)
                && victim == old(victim) + size && byteCount == old(byteCount) - size && thisHeader == old(thisHeader) + size
              else
                && collected == buf && collectedAt == 0 && collect == 0 && remains == size
                && state == Collect && nextState == next
                && victim == old(victim) && byteCount == old(byteCount) && thisHeader == old(thisHeader)
    {
      if byteCount >= size {
        collected := input;
        collectedAt := victim;
        Eat(size);
        state := next;
      } else {
        collect := 0;
        collected := buf;
        collectedAt := 0;
        remains := size;
        nextState := next;
        state := Collect;
      }
    }

    /** do_start */
    method DoStart() returns (done: bool)
      requires Valid() && state == Start && !message && byteCount < 0x1_0000_0000
      modifies this
      ensures Valid() && !done && Kept() && Ahead() == old(Ahead()) && thisHeader + byteCount == old(thisHeader + byteCount)
      ensures old(byteCount) >= HEADER_SIZE ==> state == GotHeader && nextState == old(nextState) && byteCount == old(byteCount) - HEADER_SIZE
      ensures old(byteCount) >= HEADER_SIZE ==> collected == input && collectedAt == old(victim)
      ensures old(byteCount) < HEADER_SIZE ==> state == Collect && nextState == GotHeader && byteCount == old(byteCount)
      ensures old(byteCount) < HEADER_SIZE ==>
                collected == headerBuf && collectedAt == 0 && collect == 0 && remains == HEADER_SIZE && victim == old(victim)
    {
      hide Cpio.GotHeader, Cpio.GotName, Cpio.GotSymlink, Step, Skipping, Copying, Fold;
      ghost var m, rest := Abs(), input[victim..];
      ReadInto(headerBuf, HEADER_SIZE, GotHeader);
      if state == GotHeader {
        TakeHeader(env, m, rest);
        assert input[victim..] == rest[HEADER_SIZE..];
        assert collected[collectedAt..collectedAt + HEADER_SIZE] == rest[..HEADER_SIZE];
      } else {
        assert collected[..collect] == [];
      }
      done := false;
    }

    /** The memcpy of do_collect, with the bookkeeping */
    method Gather(n: nat)
      requires Buffers() && n <= byteCount < 0x1_0000_0000 && n <= remains
      requires collect + remains <= collected.Length && collected != input
      modifies collected, this`victim, this`thisHeader, this`byteCount, this`collect, this`remains
      ensures collect == old(collect) + n && remains == old(remains) - n
      ensures Buffers() && collected[..collect] == old(collected[..collect]) + old(input[victim..])[..n]
      ensures collected[collect..] == old(collected[..])[collect..]
      ensures input[victim..] == old(input[victim..])[n..]
      ensures thisHeader == old(thisHeader) + n && byteCount == old(byteCount) - n
    {
      for k := 0 to n
        invariant unchanged(this)
        invariant forall j | 0 <= j < collected.Length ::
                    collected[j] == if collect <= j < collect + k then input[victim + j - collect] else old(collected[j])
      {
        collected[collect + k] := input[victim + k];
      }
      assert collected[..collect + n] == old(collected[..collect]) + old(input[victim..])[..n];
      Eat(n);
      collect := collect + n;
      remains := remains - n;
    }

    method GatherKeeps(n: nat)
      requires Valid() && state == Collect && !message && n <= byteCount < 0x1_0000_0000 && n <= remains
      modifies collected, this`victim, this`thisHeader, this`byteCount, this`collect, this`remains
      ensures collect == old(collect) + n && remains == old(remains) - n && byteCount == old(byteCount) - n
      ensures thisHeader == old(thisHeader) + n && Buffers()
      ensures input[victim..] == old(input[victim..])[n..]
      ensures collect <= collected.Length && collected[..collect] == old(collected[..collect]) + old(input[victim..])[..n]
      ensures collected[collect..] == old(collected[..])[collect..]
      ensures if remains > 0 then Valid() else Complete(nextState) && collectedAt == 0 && InBuffer(nextState, collect)
    {
      hide NAlign, NameAhead, Fmt;
      Gather(n);
    }

    /** In the reference machine the bytes gathered are n steps of collecting. */
    method GatherActed(n: nat)
      requires Valid() && state == Collect && !message && n <= byteCount < 0x1_0000_0000 && n <= remains
      modifies collected, this`victim, this`thisHeader, this`byteCount, this`collect, this`remains
      ensures collect == old(collect) + n && remains == old(remains) - n && byteCount == old(byteCount) - n
      ensures thisHeader == old(thisHeader) + n && Buffers()
      ensures input[victim..] == old(input[victim..])[n..]
      ensures collect <= collected.Length && collected[..collect] == old(collected[..collect]) + old(input[victim..])[..n]
      ensures collected[collect..] == old(collected[..])[collect..]
      ensures Collecting(old(Abs())) && n <= old(input.Length - victim) && |old(Abs()).pos.got| + n <= Wanted(old(Abs()).pos)
      ensures remains > 0 ==> Valid() && Abs() == ActedOn(env, old(Abs()), old(input[victim..])[..n])
      ensures remains == 0 ==> Complete(nextState) && Due(nextState) == ActedOn(env, old(Abs()), old(input[victim..])[..n])
    {
      hide Cpio.GotHeader, Cpio.GotName, Cpio.GotSymlink, Skipping, Copying, NAlign, ActedOn, Wanted, NameAhead, Fmt;
      CollectingNow();
      ActedCases(env, Abs(), input[victim..][..n]);
      GatherKeeps(n);
      assert collected[collectedAt..collectedAt + collect] == collected[..collect];
    }

    /** The part of do_collect before it looks whether all was collected. */
    method GatherSome(n: nat)
      requires Valid() && state == Collect && !message && n <= byteCount < 0x1_0000_0000 && n <= remains
      modifies collected, this`victim, this`thisHeader, this`byteCount, this`collect, this`remains
      ensures collect == old(collect) + n && remains == old(remains) - n && byteCount == old(byteCount) - n
      ensures thisHeader == old(thisHeader) + n && Buffers()
      ensures input[victim..] == old(input[victim..])[n..]
      ensures collect <= collected.Length && collected[..collect] == old(collected[..collect]) + old(input[victim..])[..n]
      ensures collected[collect..] == old(collected[..])[collect..]
      ensures remains > 0 ==> Valid() && Fold(env, Abs(), input[victim..]) == old(Ahead())
      ensures remains == 0 ==> Complete(nextState) && Fold(env, Due(nextState), input[victim..]) == old(Ahead())
    {
      hide Fold, ActedOn, Wanted, Collecting, InBuffer, Abs, Due, Complete;
      ghost var m, rest := Abs(), input[victim..];
      GatherActed(n);
      TakeSome(env, m, rest, n);
    }

    /** do_collect */
    method DoCollect() returns (done: bool)
      requires Valid() && state == Collect && !message && byteCount < 0x1_0000_0000
      modifies this, headerBuf, nameBuf, symlinkBuf
      ensures Valid() && Kept() && Ahead() == old(Ahead())
      ensures done == old(byteCount < remains) && (!done ==> byteCount == old(byteCount) - old(remains))
      ensures done ==> byteCount == 0 && state == Collect && remains == old(remains) - old(byteCount)
      ensures nextState == old(nextState) && collected == old(collected) && collectedAt == old(collectedAt)
      ensures collect == old(collect) + old(if byteCount < remains then byteCount else remains) <= collected.Length
      ensures collected[..collect] == old(collected[..collect]) + old(input[victim..])[..collect - old(collect)]
      ensures collected[collect..] == old(collected[..])[collect..] && h == old(h) && nextHeader == old(nextHeader)
      ensures thisHeader + byteCount == old(thisHeader + byteCount)
      ensures !done ==> state == old(nextState)
      ensures !done ==> byteCount < old(byteCount)
    {
      hide Step, Skipping, Copying, Fold, NAlign, Due;
      var n := if byteCount < remains then byteCount else remains;
      GatherSome(n);
      if remains != 0 {
        return true;
      }
      state := nextState;
      done := false;
    }

    lemma CollectingNow()
      requires Valid() && state == Collect && !message
      ensures Collecting(Abs()) && Wanted(Abs().pos) == collect + remains && |Abs().pos.got| == collect
    {
    }

    /** do_header */
    method DoHeader() returns (done: bool)
      requires Valid() && state == GotHeader && !message && byteCount < 0x1_0000_0000
      modifies this
      ensures Valid() && input == old(input) && links == old(links) && trace == old(trace)
      ensures done == message && (done ==> Abs() == At(Bad)) && byteCount <= old(byteCount)
      ensures thisHeader + byteCount == old(thisHeader + byteCount)
      ensures !message ==> nextHeader == Align4(old(thisHeader) + NAlign(h.nameLen) + h.bodyLen)
      ensures var raw := old(collected[collectedAt..collectedAt + HEADER_SIZE]);
              && message == (raw[..6] != MAGIC)
              && (raw[..6] == MAGIC ==> h == Parse(raw) && Led(old(nextState), old(byteCount)))
              && (raw[..6] != MAGIC || GoodHeader(Parse(raw)) ==> Ahead() == old(Ahead()))
    {
      hide Cpio.GotHeader, Step, Fold, Parse, Fmt, GoodHeader, NAlign, Align4, InBuffer, NameAhead, Wanted, Skipping, Copying, Abs, Led;
      AbsDue();
      HeaderCases(At(Between), collected[collectedAt..collectedAt + HEADER_SIZE]);
      var raw := collected[collectedAt..collectedAt + HEADER_SIZE];
      if raw[..6] == [48, 55, 48, 55, 48, 55] || raw[..6] != MAGIC {
        message := true;
        AbsBad();
        return true;
      }
      TakeHeaderFields(raw);
      done := false;
    }

    /** do_header from parse_header on */
    method TakeHeaderFields(raw: bytes)
      requires Buffers() && !message && byteCount < 0x1_0000_0000 && |raw| == HEADER_SIZE && raw[..6] == MAGIC
      modifies this`h, this`bodyLen, this`nextHeader
      modifies this`victim, this`thisHeader, this`byteCount, this`collected, this`collectedAt, this`collect, this`remains
      modifies this`state, this`nextState
      ensures Valid() && byteCount <= old(byteCount) && h == Parse(raw) && Led(old(nextState), old(byteCount))
      ensures thisHeader + byteCount == old(thisHeader + byteCount)
      ensures nextHeader == Align4(old(thisHeader) + NAlign(h.nameLen) + h.bodyLen)
      ensures GoodHeader(h) ==> Ahead() == Fold(env, Cpio.GotHeader(old(At(Between)), raw), old(input[victim..]))
    {
      hide Cpio.GotHeader, Step, Fold, Parse, Fmt, GoodHeader, NAlign, Align4, InBuffer, NameAhead, Wanted, Abs, Led;
      HeaderCases(At(Between), raw);
      h := Parse(raw);
      bodyLen := h.bodyLen;
      nextHeader := Align4(thisHeader + NAlign(h.nameLen) + bodyLen);
      Direct();
    }

    /** Where a header leads. One the format does not allow leaves next_state as it was. */
    ghost predicate Led(next0: State, count0: nat)
      reads this
    {
      if !GoodHeader(h) then state == SkipIt && nextState == next0 && byteCount == count0
      else if Fmt(h.mode) == LNK then state == Collect && nextState == GotSymlink && byteCount == count0
      else if count0 < NAlign(h.nameLen) then state == Collect && nextState == GotName && byteCount == count0 && collect == 0
      else
        && state == GotName && nextState == next0 && byteCount + NAlign(h.nameLen) == count0
        && collected == input && collectedAt + count0 == input.Length
    }

    /** The end of do_header */
    method Direct()
      requires Buffers() && !message && byteCount < 0x1_0000_0000
      requires bodyLen == h.bodyLen && nextHeader == Align4(thisHeader + NAlign(h.nameLen) + bodyLen)
      modifies this`victim, this`thisHeader, this`byteCount, this`collected, this`collectedAt, this`collect, this`remains
      modifies this`state, this`nextState
      ensures Valid() && byteCount <= old(byteCount) && Led(old(nextState), old(byteCount))
      ensures thisHeader + byteCount == old(thisHeader + byteCount)
      ensures GoodHeader(h) && Fmt(h.mode) == LNK ==>
                Ahead() == Fold(env, old(At(Link(h, nextHeader, []))), old(input[victim..]))
      ensures GoodHeader(h) && Fmt(h.mode) != LNK ==>
                Ahead() == Fold(env, old(At(Name(h, nextHeader, []))), old(input[victim..]))
    {
      hide Cpio.GotName, Cpio.GotSymlink, Step, Skipping, Copying, Fold, Fmt, Abs;
      state := SkipIt;
      if h.nameLen <= 0 || h.nameLen > PATH_MAX {
        return;
      }
      if Fmt(h.mode) == LNK {
        if bodyLen > PATH_MAX {
          return;
        }
        AwaitSymlink();
        return;
      }
      if Fmt(h.mode) == REG || bodyLen == 0 {
        AwaitName();
      }
    }

    method AwaitSymlink()
      requires Buffers() && !message && h.nameLen <= PATH_MAX && bodyLen <= PATH_MAX
      requires bodyLen == h.bodyLen && nextHeader == Align4(thisHeader + NAlign(h.nameLen) + bodyLen)
      modifies this`collected, this`collectedAt, this`collect, this`remains, this`state, this`nextState
      ensures Valid() && state == Collect && nextState == GotSymlink && Abs() == At(Link(h, nextHeader, []))
    {
      collect := 0;
      collected := symlinkBuf;
      collectedAt := 0;
      remains := NAlign(h.nameLen) + bodyLen;
      nextState := GotSymlink;
      state := Collect;
      assert collected[..collect] == [];
    }

    method AwaitName()
      requires Buffers() && !message && byteCount < 0x1_0000_0000 && h.nameLen <= PATH_MAX
      requires bodyLen == h.bodyLen && nextHeader == Align4(thisHeader + NAlign(h.nameLen) + bodyLen)
      modifies this`victim, this`thisHeader, this`byteCount, this`collected, this`collectedAt, this`collect, this`remains
      modifies this`state, this`nextState
      ensures Valid()
      ensures if old(byteCount) < NAlign(h.nameLen) then
                state == Collect && nextState == GotName && byteCount == old(byteCount) && collect == 0
              else
                && state == GotName && nextState == old(nextState) && byteCount + NAlign(h.nameLen) == old(byteCount)
                && collected == input && collectedAt == old(victim)
      ensures thisHeader + byteCount == old(thisHeader + byteCount)
      ensures Ahead() == Fold(env, old(At(Name(h, nextHeader, []))), old(input[victim..]))
    {
      hide Cpio.GotName, Cpio.GotSymlink, Step, Skipping, Copying, Fold, Fmt;
      ghost var m, rest, n := At(Name(h, nextHeader, [])), input[victim..], NAlign(h.nameLen);
      ReadInto(nameBuf, NAlign(h.nameLen), GotName);
      if state == GotName {
        TakeName(env, m, rest);
        assert input[victim..] == rest[n..];
        assert collected[collectedAt..collectedAt + n] == rest[..n];
      } else {
        assert collected[..collect] == [];
      }
    }

    /** do_skip */
    method DoSkip() returns (done: bool)
      requires Valid() && state == SkipIt && nextState == Reset && !message && byteCount < 0x1_0000_0000
      modifies this
      ensures Valid() && Kept() && Ahead() == old(Ahead())
      ensures if done then byteCount == 0 && state == SkipIt && nextState == Reset && thisHeader < nextHeader else byteCount <= old(byteCount) && state == Reset
    {
      hide Step, Fold;
      ghost var m, rest := Abs(), input[victim..];
      ghost var n := if thisHeader + byteCount < nextHeader then byteCount else nextHeader - thisHeader;
      SkipSome(env, m, rest, n, nextHeader);
      if thisHeader + byteCount < nextHeader {
        Eat(byteCount);
        done := true;
      } else {
        Eat(nextHeader - thisHeader);
        state := nextState;
        done := false;
      }
      assert input[victim..] == rest[n..];
    }

    /** do_reset */
    method DoReset()
      requires Valid() && state == Reset && byteCount < 0x1_0000_0000
      modifies this`victim, this`thisHeader, this`byteCount, this`message
      ensures Valid() && byteCount <= old(byteCount) && (old(message) ==> message)
      ensures byteCount > 0 ==> input[victim] != 0 && (message || thisHeader % 4 == 0)
      ensures !old(message) ==> Ahead() == old(Ahead())
    {
      hide Fold;
      ghost var goal := Ahead();
      while byteCount > 0 && input[victim] == 0
        invariant Valid() && byteCount <= old(byteCount) && message == old(message) && state == Reset
        invariant !message ==> Ahead() == goal
        decreases byteCount
      {
        FoldFront(env, Abs(), input[victim..]);
        assert input[victim..][1..] == input[victim + 1..];
        Eat(1);
      }
      if byteCount > 0 && thisHeader % 4 != 0 {
        if !message {
          BetweenBad(env, Abs(), input[victim..]);
        }
        message := true;
      }
    }

    /** do_copy; the write of all that is there is taken to succeed */
    method DoCopy() returns (done: bool)
      requires Valid() && state == CopyFile && !message && byteCount < 0x1_0000_0000
      modifies this
      ensures Valid() && input == old(input) && message == old(message) && Ahead() == old(Ahead())
      ensures if done then byteCount == 0 && state == CopyFile && bodyLen > 0 else byteCount <= old(byteCount) && state == SkipIt && nextState == Reset
    {
      hide Fold, InBuffer, NameAhead, Due, Abs;
      if byteCount >= bodyLen {
        WriteRest();
        done := false;
      } else {
        WritePart();
        done := true;
      }
    }

    /** The branch of do_copy that has only part of it. */
    method WritePart()
      requires Valid() && state == CopyFile && !message && byteCount < bodyLen && byteCount < 0x1_0000_0000
      modifies this`trace, this`victim, this`thisHeader, this`byteCount, this`bodyLen
      ensures Valid() && byteCount == 0 && bodyLen > 0 && Ahead() == old(Ahead())
    {
      hide Step, Fold, Logged, InBuffer, NameAhead, Wanted, Due, Abs;
      ghost var rest := input[victim..];
      AbsCopy();
      CopySome(env, At(Between), Abs(), rest, bodyLen, byteCount, h.mtime, nextHeader);
      assert input[victim..victim + byteCount] == rest[..byteCount];
      trace := Logged(trace, input[victim..victim + byteCount]);
      bodyLen := bodyLen - byteCount;
      Eat(byteCount);
      assert input[victim..] == rest[|rest|..];
      AbsCopy();
    }

    /** The branch of do_copy that has the whole body, or what is left of it. */
    method WriteRest()
      requires Valid() && state == CopyFile && !message && bodyLen <= byteCount < 0x1_0000_0000
      modifies this`trace, this`victim, this`thisHeader, this`byteCount, this`state
      ensures Valid() && state == SkipIt && byteCount <= old(byteCount) && Ahead() == old(Ahead())
    {
      hide Step, Fold, Logged, InBuffer, NameAhead, Wanted, Abs, Due, Copying, Skipping, Finished, NAlign, Fmt;
      ghost var rest := input[victim..];
      AbsCopy();
      CopyAll(env, At(Between), rest, bodyLen, h.mtime, nextHeader);
      CutChunk(input, victim, bodyLen);
      trace := Logged(trace, input[victim..victim + bodyLen]);
      trace := trace + [FileTime(h.mtime), Close];
      Eat(bodyLen);
      state := SkipIt;
      AbsSkip();
    }

    /** do_symlink */
    method DoSymlink()
      requires Valid() && state == GotSymlink && !message
      modifies this`trace, this`state, this`nextState, symlinkBuf
      ensures Valid() && state == SkipIt && nextState == Reset && Ahead() == old(Ahead())
    {
      hide Step, Fold, Abs, CString, Skipping, NAlign, Fmt, NameAhead, Cpio.GotHeader, Cpio.GotName;
      AbsDue();
      ghost var raw := collected[..NAlign(h.nameLen) + bodyLen];
      collected[NAlign(h.nameLen) + bodyLen] := 0;
      assert collected[..NAlign(h.nameLen) + bodyLen] == raw;
      var name := CString(collected[..NAlign(h.nameLen) + bodyLen]);
      var target := CString(collected[NAlign(h.nameLen)..NAlign(h.nameLen) + bodyLen]);
      assert collected[NAlign(h.nameLen)..NAlign(h.nameLen) + bodyLen] == raw[NAlign(h.nameLen)..];
      trace := trace + [Clean(name, 0), MakeLink(target, name), Owner(name, h.uid, h.gid), Time(name, h.mtime)];
      state := SkipIt;
      nextState := Reset;
      AbsSkip();
    }

    /** maybe_link, with find_link's table as a map */
    method MaybeLink(name: bytes) returns (ml: Linked)
      modifies this`links, this`trace
      ensures forall pos :: Cpio.MaybeLink(env, old(At(pos)), h, name) == (ml, At(pos))
    {
      var key := Key(h.major, h.minor, h.ino, Fmt(h.mode));
      if h.nlink >= 2 {
        if key in links {
          trace := trace + [Clean(name, 0), HardLink(links[key], name)];
          return if env.linkOk(trace) then Joined else Refused;
        }
        links := links[key := name];
      }
      ml := NotLinked;
    }

    /** do_name: it reads a C string, beyond the name's own bytes if they have no NUL. */
    method DoName()
      requires Valid() && state == GotName && !message
      modifies this`state, this`nextState, this`links, this`trace
      ensures Valid() && (state == SkipIt || state == CopyFile) && nextState == Reset
      ensures 0 in old(collected[collectedAt..collectedAt + NAlign(h.nameLen)]) ==> Abs() == old(Abs())
      ensures Abs() == Named(env, old(At(Between)), h, nextHeader, CString(old(collected[collectedAt..])))
    {
      hide Named, NAlign, CString, Abs, Buffers, InBuffer, NameAhead;
      AbsDue();
      SameName();
      ActOnName(CString(collected[collectedAt..]));
    }

    method ActOnName(name: bytes)
      requires Buffers() && NameAhead() && !message
      modifies this`state, this`nextState, this`links, this`trace
      ensures Valid() && (state == SkipIt || state == CopyFile) && nextState == Reset
      ensures Abs() == Named(env, old(At(Between)), h, nextHeader, name)
    {
      hide Cpio.GotFile, GotDir, GotNode, NAlign, IsNode, Abs, Skipping, InBuffer;
      state := SkipIt;
      nextState := Reset;
      if name == TRAILER {
        links := map[];
        AbsSkip();
        return;
      }
      trace := trace + [Clean(name, h.mode)];
      AbsSkip();
      if Fmt(h.mode) == REG {
        MakeFile(name);
      } else if Fmt(h.mode) == DIR {
        MakeDirectory(name);
      } else if IsNode(h.mode) {
        MakeSpecial(name);
      }
    }

    lemma SameName()
      requires collectedAt + NAlign(h.nameLen) <= collected.Length
      ensures 0 in collected[collectedAt..collectedAt + NAlign(h.nameLen)] ==>
                CString(collected[collectedAt..]) == CString(collected[collectedAt..collectedAt + NAlign(h.nameLen)])
    {
      var n := collectedAt + NAlign(h.nameLen);
      assert collected[collectedAt..] == collected[collectedAt..n] + collected[n..];
      CStringStops(collected[collectedAt..n], collected[n..]);
    }

    /** The directory branch of do_name */
    method MakeDirectory(name: bytes)
      requires Buffers() && state == SkipIt && nextState == Reset && !message && thisHeader <= nextHeader
      modifies this`trace
      ensures Valid() && Abs() == GotDir(old(At(Between)), h, nextHeader, name)
    {
      trace := trace + [MakeDir(name, h.mode), Owner(name, h.uid, h.gid), Mode(name, h.mode), DirTimeLater(name, h.mtime)];
    }

    /** The device, fifo and socket branch of do_name */
    method MakeSpecial(name: bytes)
      requires Buffers() && state == SkipIt && nextState == Reset && !message && thisHeader <= nextHeader
      modifies this`links, this`trace
      ensures Valid() && Abs() == GotNode(env, old(At(Between)), h, nextHeader, name)
    {
      var ml := MaybeLink(name);
      if ml == NotLinked {
        trace := trace + [MakeNode(name, h.mode, h.rmajor, h.rminor), Owner(name, h.uid, h.gid),
                          Mode(name, h.mode), Time(name, h.mtime)];
      }
    }

    /** The regular-file branch of do_name */
    method MakeFile(name: bytes)
      requires Buffers() && state == SkipIt && nextState == Reset && !message
      requires bodyLen == h.bodyLen && thisHeader + bodyLen <= nextHeader
      modifies this`state, this`links, this`trace
      ensures Valid() && (state == SkipIt || state == CopyFile)
      ensures Abs() == Cpio.GotFile(env, old(At(Between)), h, nextHeader, name)
    {
      var ml := MaybeLink(name);
      if ml != Refused {
        trace := trace + [Open(name, ml != Joined, h.mode)];
        if !env.openOk(trace) {
          return;
        }
        trace := trace + [FileOwner(h.uid, h.gid), FileMode(h.mode)] + (if bodyLen > 0 then [FileSize(bodyLen)] else []);
        state := CopyFile;
      }
    }

    /** One action; true means the chunk has nothing more for it. */
    method Act() returns (done: bool)
      requires Valid() && !message && byteCount < 0x1_0000_0000 && !Ahead().Lost?
      modifies this, headerBuf, nameBuf, symlinkBuf
      ensures Valid() && Readable() && input == old(input) && byteCount <= old(byteCount) && Ahead() == old(Ahead())
      ensures !done ==> !message && (byteCount < old(byteCount) || Rank(state) < Rank(old(state)))
      ensures done ==> message || Waiting()
      ensures old(state) == Start ==> !done && (byteCount < old(byteCount) || state == Collect)
      ensures old(state) == Collect && old(byteCount) > 0 ==> byteCount < old(byteCount)
    {
      hide Fold, Abs, InBuffer, NameAhead, Parse, GoodHeader, Fmt, Due;
      NotLost();
      match state
      case Start => done := DoStart();
      case Collect => done := DoCollect();
      case GotHeader => done := DoHeader();
      case SkipIt => done := DoSkip();
      case GotName => DoName(); done := false;
      case CopyFile => done := DoCopy();
      case GotSymlink => DoSymlink(); done := false;
      case Reset => DoReset(); done := true;
    }

    /** The action that ran needs another chunk, or flush_buffer's attention. */
    ghost predicate Waiting()
      reads this, input
    {
      && (byteCount == 0 || AtNext())
      && match state
         case Collect => true
         case Reset => true
         case SkipIt => nextState == Reset && thisHeader < nextHeader
         case CopyFile => bodyLen > 0
         case _ => false
    }

    /** In these states nothing is left to be done that shows in the effects. */
    lemma WaitingAbs()
      requires Readable() && Waiting() && !message
      ensures var m := Abs(); m.Machine? && m.trace == trace && m.links == links && !m.pos.Bad?
    {
    }

    /** Between entries, with an aligned byte that is not padding ahead. */
    ghost predicate AtNext()
      reads this, input
    {
      state == Reset && byteCount > 0 && victim + byteCount == input.Length && input[victim] != 0 && thisHeader % 4 == 0
    }

    function Rank(s: State): nat {
      match s
      case Start => 6
      case GotHeader => 5
      case GotName => 4
      case GotSymlink => 4
      case CopyFile => 3
      case SkipIt => 2
      case Collect => 1
      case Reset => 0
    }

    /** A stream that never meets a bad header or name is not met in one now. */
    lemma NotLost()
      requires Valid() && !message && !Ahead().Lost?
      ensures state == SkipIt ==> nextState == Reset
      ensures state == GotName ==> 0 in collected[collectedAt..collectedAt + NAlign(h.nameLen)]
      ensures state == GotHeader ==>
                var raw := collected[collectedAt..collectedAt + HEADER_SIZE];
                raw[..6] == MAGIC ==> GoodHeader(Parse(raw))
    {
      hide Fold, Parse, GoodHeader, GotFile, GotDir, GotNode, CString, Align4, InBuffer, NameAhead;
      if Abs().Lost? {
        FoldStuck(env, Abs(), input[victim..]);
      }
    }

    /** victim and byte_count are set to a chunk, from position at on. */
    method Attach(buf: array<byte>, at: nat)
      requires Valid() && buf != headerBuf && buf != nameBuf && buf != symlinkBuf && at <= buf.Length
      modifies this`input, this`victim, this`byteCount
      ensures Valid() && input == buf && victim == at && byteCount == buf.Length - at && Abs() == old(Abs())
    {
      hide Cpio.GotHeader, Cpio.GotName, Cpio.GotSymlink, Skipping, Copying, NAlign, Fmt;
      input := buf;
      victim := at;
      byteCount := buf.Length - at;
    }

    /** The loop of write_buffer */
    method RunActions()
      requires Valid() && Readable() && !message && byteCount < 0x1_0000_0000 && !Ahead().Lost?
      modifies this, headerBuf, nameBuf, symlinkBuf
      ensures Valid() && Readable() && input == old(input) && byteCount <= old(byteCount) && Ahead() == old(Ahead())
      ensures message || Waiting()
      ensures old(state) == Start && old(byteCount) > 0 ==> byteCount < old(byteCount)
    {
      hide Valid, Abs, Ahead, AtNext, Waiting, Readable;
      var done := false;
      while !done
        invariant Valid() && Readable() && input == old(input) && byteCount <= old(byteCount) && Ahead() == old(Ahead())
        invariant done ==> message || Waiting()
        invariant !done ==> !message
        invariant old(state) == Start && old(byteCount) > 0 ==>
                    byteCount < old(byteCount) || (!done && (state == Start || state == Collect))
        decreases !done, byteCount, Rank(state)
      {
        done := Act();
      }
    }

    /** write_buffer, for the chunk from position at on */
    method WriteBuffer(buf: array<byte>, at: nat) returns (written: nat)
      requires Valid() && buf != headerBuf && buf != nameBuf && buf != symlinkBuf
      requires buf.Length < 0x1_0000_0000 && at <= buf.Length
      requires if message then state == Reset else !Fold(env, Abs(), buf[at..]).Lost?
      modifies this, headerBuf, nameBuf, symlinkBuf
      ensures Valid() && input == buf && victim == at + written && byteCount == buf.Length - victim
      ensures old(message) ==> message && trace == old(trace) && links == old(links) && state == Reset
      ensures !old(message) ==> Ahead() == Fold(env, old(Abs()), old(buf[at..]))
      ensures message || Waiting()
      ensures old(state) == Start && !old(message) && at < buf.Length ==> written > 0
    {
      hide Abs, Fold, InBuffer, NameAhead;
      Attach(buf, at);
      if message {
        DoReset();
      } else {
        RunActions();
      }
      written := victim - at;
    }

    /** flush_buffer. Feeding a chunk comes to the same as feeding its bytes to the
        reference machine one by one. */
    method FlushBuffer(buf: array<byte>) returns (result: int)
      requires Valid() && buf != headerBuf && buf != nameBuf && buf != symlinkBuf && buf.Length < 0x1_0000_0000
      requires !message ==> !Fold(env, Abs(), buf[..]).Lost?
      modifies this, headerBuf, nameBuf, symlinkBuf
      ensures Valid()
      ensures old(message) ==> result == -1 && trace == old(trace) && message
      ensures !old(message) ==>
                var goal := Fold(env, old(Abs()), buf[..]);
                && result == buf.Length && goal.Machine?
                && trace == goal.trace && links == goal.links && message == goal.pos.Bad?
                && (!message ==> Valid() && Abs() == goal)
    {
      hide Abs, Fold, InBuffer, NameAhead, Step;
      if message {
        return -1;
      }
      ghost var goal := Fold(env, Abs(), buf[..]);
      assert buf[0..] == buf[..];
      var at: nat := 0;
      var written := WriteBuffer(buf, at);
      WhenBad(goal);
      while at + written < buf.Length && !message
        invariant Valid() && input == buf && at <= buf.Length && victim == at + written && byteCount == buf.Length - victim
        invariant message || Waiting()
        invariant goal.Machine? && buf[..] == old(buf[..])
        invariant if message then goal.pos.Bad? && trace == goal.trace && links == goal.links else Ahead() == goal
        decreases !message, byteCount
      {
        var c := buf[at + written];
        if c == 48 {
          at := at + written;
          Restart();
        } else if c == 0 {
          // write_buffer leaves no padding behind
          assert false;
        } else {
          Junk();
          message := true;
        }
        written := WriteBuffer(buf, at);
        WhenBad(goal);
      }
      WhenBad(goal);
      if !message {
        WaitingAbs();
      }
      result := buf.Length;
    }

    /** flush_buffer sends an aligned '0' back to Start. */
    method Restart()
      requires Valid() && !message && AtNext() && input[victim] == 48
      modifies this`state
      ensures Valid() && state == Start && Ahead() == old(Ahead())
    {
      hide InBuffer, NameAhead, Buffers, Due, Fold;
      ghost var m, rest := Abs(), input[victim..];
      FoldFront(env, m, rest);
      state := Start;
      FoldFront(env, Abs(), rest);
      assert [] + [rest[0]] == [rest[0]];
    }

    lemma Junk()
      requires Valid() && !message && AtNext() && input[victim] != 48
      ensures Ahead() == At(Bad)
    {
      BetweenBad(env, Abs(), input[victim..]);
    }

    lemma WhenBad(goal: Machine)
      requires Readable()
      ensures message && Ahead() == goal ==> goal == At(Bad)
      ensures !message && Ahead() == goal && victim == input.Length ==> goal == Abs()
    {
      if message {
        FoldStuck(env, Abs(), input[victim..]);
      }
    }

    /** The decompressor hands over one chunk after the other. However the stream is
        cut, the effects are those of the reference machine on the whole of it. */
    method Unpack(chunks: seq<array<byte>>)
      requires Valid() && !message && Abs().Machine? && Abs().trace == trace && !Abs().pos.Bad?
      requires !Fold(env, Abs(), Stream(chunks)).Lost?
      requires forall k | 0 <= k < |chunks| ::
                 chunks[k] != headerBuf && chunks[k] != nameBuf && chunks[k] != symlinkBuf && chunks[k].Length < 0x1_0000_0000
      modifies this, headerBuf, nameBuf, symlinkBuf
      ensures var goal := Fold(env, old(Abs()), old(Stream(chunks)));
              && goal.Machine? && trace == goal.trace && message == goal.pos.Bad?
              && (!message ==> Valid() && Abs() == goal)
    {
      hide Abs, Fold, Buffers, InBuffer, NameAhead;
      ghost var m0 := Abs();
      assert chunks[..0] == [];
      StreamNone(env, m0);
      for k := 0 to |chunks|
        invariant Valid()
        invariant forall j | 0 <= j < |chunks| :: chunks[j][..] == old(chunks[j][..])
        invariant Stream(chunks) == old(Stream(chunks))
        invariant var m := Fold(env, m0, Stream(chunks[..k]));
                  && m.Machine? && trace == m.trace && message == m.pos.Bad?
                  && (!message ==> Abs() == m)
      {
        ghost var before := Fold(env, m0, Stream(chunks[..k]));
        StreamStep(chunks, k);
        FoldConcat(env, m0, Stream(chunks[..k]), chunks[k][..]);
        NeverLost(env, m0, chunks, k + 1);
        if message {
          FoldStuck(env, before, chunks[k][..]);
        }
        var result := FlushBuffer(chunks[k]);
      }
      assert chunks[..|chunks|] == chunks;
    }

    /** A header that arrives in one chunk. */
    method FeedWhole(raw: array<byte>)
      requires Valid() && state == Start && !message && raw != headerBuf && raw != nameBuf && raw != symlinkBuf
      requires raw.Length == HEADER_SIZE && raw[..6] == MAGIC
      modifies this
      ensures Valid() && (state, nextState) == LeadsTo(Parse(raw[..]), old(nextState))
      ensures var h := Parse(raw[..]);
              var skipped :=
                || h.nameLen == 0 || h.nameLen > 4096
                || (h.mode / 0x1000 == 0xA && h.bodyLen > 4096)
                || (h.mode / 0x1000 != 0xA && h.mode / 0x1000 != 8 && h.bodyLen > 0);
              && state == (if skipped then SkipIt else Collect)
              && nextState == if skipped then old(nextState) else if h.mode / 0x1000 == 0xA then GotSymlink else GotName
      ensures !message && links == old(links) && trace == old(trace) && thisHeader + byteCount == old(thisHeader) + HEADER_SIZE
    {
      hide Abs, Fold, InBuffer, NameAhead, Due, Parse, GoodHeader, Fmt;
      SkippedIff(Parse(raw[..]), nextState);
      Attach(raw, 0);
      var again := DoStart();
      assert collected[collectedAt..collectedAt + HEADER_SIZE] == raw[..];
      assert raw[..][..6] == raw[..6];
      again := DoHeader();
    }

    /** The same header in two chunks */
    method FeedCut(front: array<byte>, back: array<byte>)
      requires Valid() && state == Start && !message
      requires front != headerBuf && front != nameBuf && front != symlinkBuf
      requires back != headerBuf && back != nameBuf && back != symlinkBuf
      requires 0 < front.Length && 0 < back.Length && front.Length + back.Length == HEADER_SIZE
      requires (front[..] + back[..])[..6] == MAGIC
      modifies this, headerBuf, nameBuf, symlinkBuf
      ensures Valid() && (state, nextState) == LeadsTo(Parse(old(front[..] + back[..])), GotHeader)
      ensures !message && links == old(links) && trace == old(trace) && thisHeader + byteCount == old(thisHeader) + HEADER_SIZE
    {
      hide Abs, Fold, NameAhead, Due, Parse, GoodHeader, Fmt;
      ghost var raw := front[..] + back[..];
      Attach(front, 0);
      var again := DoStart();
      assert front[0..] == front[..] && collected[..0] == [];
      again := DoCollect();
      assert collected[..collect] == front[..];
      FeedRest(front, back);
    }

    method FeedRest(front: array<byte>, back: array<byte>)
      requires Valid() && state == Collect && nextState == GotHeader && !message && remains == back.Length
      requires back != headerBuf && back != nameBuf && back != symlinkBuf
      requires front != headerBuf && front != nameBuf && front != symlinkBuf
      requires front.Length + back.Length == HEADER_SIZE && collected[..collect] == front[..]
      requires (front[..] + back[..])[..6] == MAGIC
      modifies this, headerBuf, nameBuf, symlinkBuf
      ensures Valid() && (state, nextState) == LeadsTo(Parse(old(front[..] + back[..])), GotHeader)
      ensures !message && links == old(links) && trace == old(trace) && thisHeader + byteCount == old(thisHeader) + back.Length
    {
      hide Abs, Fold, NameAhead, Due, Parse, GoodHeader, Fmt;
      ghost var raw := front[..] + back[..];
      Attach(back, 0);
      assert back[0..] == back[..];
      var again := DoCollect();
      assert collected[collectedAt..collectedAt + HEADER_SIZE] == raw;
      again := DoHeader();
    }

    /** A chunk that begins with a header */
    method FeedHeader(chunk: array<byte>)
      requires Valid() && state == Start && !message && chunk != headerBuf && chunk != nameBuf && chunk != symlinkBuf
      requires HEADER_SIZE <= chunk.Length < 0x1_0000_0000 && chunk[..6] == MAGIC
      modifies this
      ensures Valid() && !message && input == chunk && links == old(links) && trace == old(trace)
      ensures h == Parse(chunk[..HEADER_SIZE]) && Led(old(nextState), chunk.Length - HEADER_SIZE)
      ensures thisHeader + byteCount == old(thisHeader) + chunk.Length
      ensures nextHeader == Align4(old(thisHeader) + HEADER_SIZE + NAlign(h.nameLen) + h.bodyLen)
    {
      hide Abs, Fold, InBuffer, NameAhead, Due, Parse, GoodHeader, Fmt, NAlign, Align4, Led;
      ghost var raw := chunk[..HEADER_SIZE];
      Attach(chunk, 0);
      var again := DoStart();
      assert collected[collectedAt..collectedAt + HEADER_SIZE] == raw;
      assert raw[..6] == chunk[..6];
      again := DoHeader();
    }

    /** A header and its name in one chunk: the name is read where it is. */
    method FeedName(chunk: array<byte>)
      requires Valid() && state == Start && !message && chunk != headerBuf && chunk != nameBuf && chunk != symlinkBuf
      requires HEADER_SIZE <= chunk.Length < 0x1_0000_0000 && chunk[..6] == MAGIC && NameFollows(Parse(chunk[..HEADER_SIZE]))
      requires HEADER_SIZE + NAlign(Parse(chunk[..HEADER_SIZE]).nameLen) <= chunk.Length
      modifies this
      ensures Valid() && !message && collected == chunk
      ensures Abs() == AfterName(env, old(At(Between)), Parse(chunk[..HEADER_SIZE]), CString(chunk[HEADER_SIZE..]))
    {
      hide Abs, Fold, InBuffer, NameAhead, Due, Parse, GoodHeader, Fmt, NAlign, CString, Named, Align4, Valid;
      FeedHeader(chunk);
      DoName();
    }

    /** A header with the first part of its name: the part is collected in name_buf. */
    method FeedFront(front: array<byte>)
      requires Valid() && state == Start && !message
      requires front != headerBuf && front != nameBuf && front != symlinkBuf
      requires HEADER_SIZE <= front.Length < 0x1_0000_0000
      requires front[..6] == MAGIC && NameFollows(Parse(front[..HEADER_SIZE]))
      requires front.Length < HEADER_SIZE + NAlign(Parse(front[..HEADER_SIZE]).nameLen)
      modifies this, headerBuf, nameBuf, symlinkBuf
      ensures Valid() && !message && state == Collect && nextState == GotName && byteCount == 0
      ensures h == Parse(old(front[..HEADER_SIZE])) && collect + remains == NAlign(h.nameLen)
      ensures collected == nameBuf && collectedAt == 0 && collect + HEADER_SIZE == front.Length
      ensures nameBuf[..] == old(front[HEADER_SIZE..]) + old(nameBuf[..])[collect..]
      ensures nextHeader == Align4(old(thisHeader) + HEADER_SIZE + NAlign(h.nameLen) + h.bodyLen)
      ensures thisHeader == old(thisHeader) + front.Length && links == old(links) && trace == old(trace)
      ensures collect + remains <= nameBuf.Length
    {
      hide Abs, Fold, NameAhead, Due, Parse, GoodHeader, Fmt, NAlign, CString, Named, Align4;
      ghost var part := front[HEADER_SIZE..];
      FeedHeader(front);
      assert collected[..0] == [] && input[victim..] == part;
      var again := DoCollect();
      assert collected[..] == collected[..collect] + collected[collect..];
    }

    /** The rest of a name */
    method FeedBack(back: array<byte>)
      requires Valid() && state == Collect && nextState == GotName && !message
      requires back != headerBuf && back != nameBuf && back != symlinkBuf && remains == back.Length < 0x1_0000_0000
      requires collected == nameBuf && collectedAt == 0 && collect + remains == NAlign(h.nameLen) <= nameBuf.Length
      modifies this, headerBuf, nameBuf, symlinkBuf
      ensures Valid() && !message
      ensures Abs() == Named(env, Machine(Between, old(thisHeader) + back.Length, old(links), old(trace)), old(h), old(nextHeader),
                             CString(old(nameBuf[..collect]) + old(back[..]) + old(nameBuf[..])[old(collect + remains)..]))
    {
      hide Abs, Fold, NameAhead, Due, GoodHeader, Fmt, NAlign, CString, Named, Align4, Valid;
      ghost var name := nameBuf[..collect] + back[..];
      CollectBack(back);
      assert collected[0..] == name + collected[|name|..];
      DoName();
    }

    method CollectBack(back: array<byte>)
      requires Valid() && state == Collect && nextState == GotName && !message
      requires back != headerBuf && back != nameBuf && back != symlinkBuf && remains == back.Length < 0x1_0000_0000
      requires collected == nameBuf && collectedAt == 0 && collect + remains == NAlign(h.nameLen)
      modifies this, headerBuf, nameBuf, symlinkBuf
      ensures Valid() && !message && state == GotName && h == old(h) && nextHeader == old(nextHeader)
      ensures collected == nameBuf && collectedAt == 0 && old(collect + remains) <= nameBuf.Length
      ensures nameBuf[..] == old(nameBuf[..collect]) + old(back[..]) + old(nameBuf[..])[old(collect + remains)..]
      ensures At(Between) == Machine(Between, old(thisHeader) + back.Length, old(links), old(trace))
    {
      hide Abs, Fold, NameAhead, Due, GoodHeader, Fmt, NAlign;
      ghost var got, tail := nameBuf[..collect], back[..];
      Attach(back, 0);
      assert back[0..] == tail;
      var again := DoCollect();
      assert collected[..collect] == got + tail;
      assert collected[..] == collected[..collect] + collected[collect..];
    }

    /** The same with the name cut: it is read in name_buf. */
    method FeedNameCut(front: array<byte>, back: array<byte>)
      requires Valid() && state == Start && !message
      requires front != headerBuf && front != nameBuf && front != symlinkBuf
      requires back != headerBuf && back != nameBuf && back != symlinkBuf
      requires HEADER_SIZE <= front.Length < 0x1_0000_0000 && 0 < back.Length < 0x1_0000_0000
      requires front[..6] == MAGIC && NameFollows(Parse(front[..HEADER_SIZE]))
      requires front.Length + back.Length == HEADER_SIZE + NAlign(Parse(front[..HEADER_SIZE]).nameLen)
      modifies this, headerBuf, nameBuf, symlinkBuf
      ensures Valid() && !message
      ensures var hd := Parse(old(front[..HEADER_SIZE]));
              NAlign(hd.nameLen) <= nameBuf.Length
              && Abs() == AfterName(env, old(At(Between)), hd,
                                    CString(old(front[HEADER_SIZE..]) + old(back[..]) + old(nameBuf[..])[NAlign(hd.nameLen)..]))
    {
      hide Abs, Valid, NameFollows, Parse, NAlign, CString, Named, Align4;
      ghost var part, buf := front[HEADER_SIZE..], nameBuf[..];
      FeedFront(front);
      assert nameBuf[..collect] == part;
      assert nameBuf[..][collect + remains..] == buf[collect + remains..];
      FeedBack(back);
    }

    /** What the actions leave alone. */
    twostate predicate Kept()
      reads this
    {
      input == old(input) && links == old(links) && trace == old(trace) && message == old(message)
    }
  }

  lemma TakeHeader(env: Env, m: Machine, rest: bytes)
    requires m.Machine? && m.pos == Head([]) && HEADER_SIZE <= |rest|
    ensures Fold(env, m, rest) ==
            Fold(env, Cpio.GotHeader(m.(pos := Between, offset := m.offset + HEADER_SIZE), rest[..HEADER_SIZE]), rest[HEADER_SIZE..])
  {
    hide Cpio.GotHeader, Cpio.GotName, Cpio.GotSymlink, Step, Skipping, Copying, Fold;
    TakeAll(env, m, rest, HEADER_SIZE);
    assert [] + rest[..HEADER_SIZE] == rest[..HEADER_SIZE];
  }

  lemma TakeName(env: Env, m: Machine, rest: bytes)
    requires m.Machine? && m.pos.Name? && m.pos.got == [] && NAlign(m.pos.h.nameLen) <= |rest|
    ensures var n := NAlign(m.pos.h.nameLen);
            Fold(env, m, rest) ==
            Fold(env, Cpio.GotName(env, m.(pos := Between, offset := m.offset + n), m.pos.h, m.pos.next, rest[..n]), rest[n..])
  {
    hide Cpio.GotHeader, Cpio.GotName, Cpio.GotSymlink, Step, Skipping, Copying, Fold, NAlign, Acted;
    var n := NAlign(m.pos.h.nameLen);
    TakeAll(env, m, rest, n);
    ActedCases(env, m, rest[..n]);
    assert [] + rest[..n] == rest[..n];
  }

  /** A position that has nothing yet gets all it wants at once. */
  lemma TakeAll(env: Env, m: Machine, rest: bytes, n: nat)
    requires Collecting(m) && m.pos.got == [] && n == Wanted(m.pos) && 0 < n <= |rest|
    ensures |Grown(m, rest[..n]).pos.got| == Wanted(Grown(m, rest[..n]).pos)
    ensures Fold(env, m, rest) == Fold(env, Acted(env, Grown(m, rest[..n])), rest[n..])
  {
    hide Acted, Step, Fold;
    FoldCollect(env, m, rest[..n]);
    FoldConcat(env, m, rest[..n], rest[n..]);
    assert rest[..n] + rest[n..] == rest;
  }

  ghost function ActedOn(env: Env, m: Machine, s: bytes): Machine
    requires Collecting(m) && |m.pos.got| + |s| <= Wanted(m.pos)
  {
    Acted(env, Grown(m, s))
  }

  /** A position that waits for more gets some. */
  lemma TakeSome(env: Env, m: Machine, rest: bytes, n: nat)
    requires Collecting(m) && n <= |rest| && |m.pos.got| + n <= Wanted(m.pos)
    ensures Fold(env, m, rest) == Fold(env, ActedOn(env, m, rest[..n]), rest[n..])
  {
    hide Acted, Step, Fold;
    FoldCollect(env, m, rest[..n]);
    FoldConcat(env, m, rest[..n], rest[n..]);
    assert rest[..n] + rest[n..] == rest;
    if n == 0 {
      assert rest[..n] == [];
      GrownNone(m);
      NotYet(env, m);
    }
  }

  /** What a position does with the bytes it got. */
  lemma ActedCases(env: Env, m: Machine, s: bytes)
    requires Collecting(m) && |m.pos.got| + |s| <= Wanted(m.pos)
    ensures var all, r, off := m.pos.got + s, ActedOn(env, m, s), m.offset + |s|;
            && (|all| < Wanted(m.pos) ==> r == m.(pos := WithGot(m.pos, all), offset := off))
            && (|all| == Wanted(m.pos) && m.pos.Head? ==> r == Cpio.GotHeader(m.(pos := Between, offset := off), all))
            && (|all| == Wanted(m.pos) && m.pos.Name? ==>
                  r == Cpio.GotName(env, m.(pos := Between, offset := off), m.pos.h, m.pos.next, all))
            && (|all| == Wanted(m.pos) && m.pos.Link? ==>
                  r == Cpio.GotSymlink(m.(pos := Between, offset := off), m.pos.h, m.pos.next, all))
  {
    hide Cpio.GotHeader, Cpio.GotName, Cpio.GotSymlink, NAlign;
  }

  lemma NotYet(env: Env, m: Machine)
    requires Collecting(m)
    ensures Acted(env, m) == m
  {
  }

  lemma SkipSome(env: Env, m: Machine, rest: bytes, n: nat, next: nat)
    requires m.Machine? && m.offset <= next && n <= |rest| && m.offset + n <= next
    requires m == Skipping(m, next)
    ensures Fold(env, m, rest) == Fold(env, Skipping(m.(offset := m.offset + n), next), rest[n..])
  {
    assert rest[..n] + rest[n..] == rest;
    FoldConcat(env, m, rest[..n], rest[n..]);
    if m.offset < next {
      FoldSkip(env, m, rest[..n]);
    } else {
      assert rest[..n] == [];
    }
  }

  lemma FoldFront(env: Env, m: Machine, s: bytes)
    requires s != []
    ensures Fold(env, m, s) == Fold(env, Step(env, m, s[0]), s[1..])
  {
    assert s == [s[0]] + s[1..];
    FoldConcat(env, m, [s[0]], s[1..]);
    FoldOne(env, m, s[0]);
  }

  /** Between entries only padding and an aligned '0' are expected. */
  lemma BetweenBad(env: Env, m: Machine, s: bytes)
    requires m.Machine? && m.pos == Between && s != [] && s[0] != 0 && (m.offset % 4 != 0 || s[0] != 48)
    ensures Fold(env, m, s) == m.(pos := Bad) == Fold(env, m.(pos := Bad), s)
  {
    FoldFront(env, m, s);
    FoldStuck(env, m.(pos := Bad), s[1..]);
    FoldStuck(env, m.(pos := Bad), s);
  }

  lemma CutChunk(chunk: array<byte>, at: nat, n: nat)
    requires at + n <= chunk.Length
    ensures chunk[at..at + n] == chunk[at..][..n] && chunk[at + n..] == chunk[at..][n..]
  {
  }

  lemma CopyAll(env: Env, base: Machine, rest: bytes, left: nat, mtime: nat, next: nat)
    requires base.Machine? && left <= |rest|
    ensures Fold(env, Copying(base, left, mtime, next), rest) ==
            Fold(env, Skipping(base.(trace := Logged(base.trace, rest[..left]) + [FileTime(mtime), Close], offset := base.offset + left),
                               next), rest[left..])
  {
    hide Fold, Logged;
    CopySome(env, base, Copying(base, left, mtime, next), rest, left, left, mtime, next);
  }

  lemma CopySome(env: Env, base: Machine, m: Machine, rest: bytes, left: nat, n: nat, mtime: nat, next: nat)
    requires base.Machine? && n <= left && n <= |rest| && m == Copying(base, left, mtime, next)
    ensures Fold(env, m, rest) ==
            Fold(env, Copying(base.(trace := Logged(base.trace, rest[..n]), offset := base.offset + n), left - n, mtime, next), rest[n..])
  {
    hide Fold, Logged, Step;
    assert rest[..n] + rest[n..] == rest;
    FoldConcat(env, m, rest[..n], rest[n..]);
    if left > 0 {
      FoldCopy(env, m, rest[..n]);
      assert m.(trace := Logged(base.trace, rest[..n]), offset := base.offset + n).(pos := Between)
          == base.(trace := Logged(base.trace, rest[..n]), offset := base.offset + n).(pos := Between);
    } else {
      assert rest[..n] == [];
      FoldNone(env, m);
      LoggedNone(base.trace);
    }
  }

  /** The stream that was cut into chunks */
  ghost function Stream(chunks: seq<array<byte>>): bytes
    reads chunks
  {
    if chunks == [] then [] else Stream(chunks[..|chunks| - 1]) + chunks[|chunks| - 1][..]
  }

  lemma StreamNone(env: Env, m: Machine)
    ensures Stream([]) == [] && Fold(env, m, []) == m
  {
  }

  lemma StreamStep(chunks: seq<array<byte>>, k: nat)
    requires k < |chunks|
    ensures Stream(chunks[..k + 1]) == Stream(chunks[..k]) + chunks[k][..]
  {
    assert chunks[..k + 1][..k] == chunks[..k];
  }

  /** A stream that is never lost was not lost earlier. */
  lemma {:induction false} NeverLost(env: Env, m: Machine, chunks: seq<array<byte>>, k: nat)
    requires k <= |chunks| && !Fold(env, m, Stream(chunks)).Lost?
    ensures !Fold(env, m, Stream(chunks[..k])).Lost?
    decreases |chunks| - k
  {
    hide Fold, Stream;
    if k == |chunks| {
      assert chunks[..k] == chunks;
    } else {
      NeverLost(env, m, chunks, k + 1);
      StreamStep(chunks, k);
      FoldConcat(env, m, Stream(chunks[..k]), chunks[k][..]);
      if Fold(env, m, Stream(chunks[..k])).Lost? {
        FoldStuck(env, Fold(env, m, Stream(chunks[..k])), chunks[k][..]);
      }
    }
  }

  /** A header the format allows, with a name behind it to be read by do_name */
  predicate NameFollows(h: Header) {
    GoodHeader(h) && Fmt(h.mode) != LNK
  }

  /** Where do_name leaves the machine, if it took that name */
  function AfterName(env: Env, m: Machine, h: Header, name: bytes): Machine
    requires m.Machine?
  {
    Named(env, m.(offset := m.offset + HEADER_SIZE + NAlign(h.nameLen)), h,
          Align4(m.offset + HEADER_SIZE + NAlign(h.nameLen) + h.bodyLen), name)
  }

  /** state and next_state after a header, if no byte follows it yet. */
  function LeadsTo(h: Header, next0: State): (State, State) {
    if !GoodHeader(h) then (SkipIt, next0)
    else (Collect, if Fmt(h.mode) == LNK then GotSymlink else GotName)
  }

  /** The headers that are skipped: without a name or with one too long, symlinks with a target too
      long, and a body behind anything but a file or a symlink. */
  lemma SkippedIff(h: Header, next0: State)
    ensures var skipped :=
              || h.nameLen == 0 || h.nameLen > 4096
              || (h.mode / 0x1000 == 0xA && h.bodyLen > 4096)
              || (h.mode / 0x1000 != 0xA && h.mode / 0x1000 != 8 && h.bodyLen > 0);
            LeadsTo(h, next0) == if skipped then (SkipIt, next0) else (Collect, if h.mode / 0x1000 == 0xA then GotSymlink else GotName)
    ensures GoodHeader(h) <==> LeadsTo(h, next0) != (SkipIt, next0)
  {
  }

  /** The same header fed to two unpackers, to one in one chunk and to the other in two: they
      end in the same place exactly if the header is one the format allows, or if the first
      found what reading a cut header leaves. */
  method CutsAgree(u: Unpacker, v: Unpacker, raw: array<byte>, front: array<byte>, back: array<byte>) returns (same: bool)
    requires u.Valid() && u.state == Start && !u.message && v.Valid() && v.state == Start && !v.message
    requires {u, u.headerBuf, u.nameBuf, u.symlinkBuf, raw} !! {v, v.headerBuf, v.nameBuf, v.symlinkBuf, front, back}
    requires raw != u.headerBuf && raw != u.nameBuf && raw != u.symlinkBuf
    requires front != v.headerBuf && front != v.nameBuf && front != v.symlinkBuf
    requires back != v.headerBuf && back != v.nameBuf && back != v.symlinkBuf
    requires raw.Length == HEADER_SIZE && raw[..6] == MAGIC
    requires 0 < front.Length && 0 < back.Length && front[..] + back[..] == raw[..]
    modifies u, v, v.headerBuf, v.nameBuf, v.symlinkBuf
    ensures same == (u.state == v.state && u.nextState == v.nextState)
    ensures same <==> GoodHeader(Parse(old(raw[..]))) || old(u.nextState) == GotHeader
    ensures !u.message && u.trace == old(u.trace) && u.links == old(u.links)
    ensures !v.message && v.trace == old(v.trace) && v.links == old(v.links)
    ensures u.thisHeader + u.byteCount - v.thisHeader - v.byteCount == old(u.thisHeader - v.thisHeader)
  {
    hide GoodHeader, Parse, Fmt;
    assert raw[..][..6] == raw[..6];
    u.FeedWhole(raw);
    v.FeedCut(front, back);
    same := u.state == v.state && u.nextState == v.nextState;
  }

  /** do_name's effects tell names apart. */
  lemma AfterNameShows(env: Env, m: Machine, h: Header, a: bytes, b: bytes)
    requires m.Machine?
    ensures AfterName(env, m, h, a) == AfterName(env, m, h, b) <==> a == b
  {
    hide Named, NAlign, Align4;
    var c := m.(offset := m.offset + HEADER_SIZE + NAlign(h.nameLen));
    var next := Align4(m.offset + HEADER_SIZE + NAlign(h.nameLen) + h.bodyLen);
    NamedShows(env, c, h, next, a);
    NamedShows(env, c, h, next, b);
  }

  /** A name without a NUL goes on in what lies behind it. */
  lemma NamesEqual(raw: bytes, after: bytes, after': bytes)
    ensures CString(raw + after) == CString(raw + after') <==> 0 in raw || CString(after) == CString(after')
  {
    hide CString;
    CStringStops(raw, after);
    CStringStops(raw, after');
    if 0 !in raw {
      var a, b := CString(after), CString(after');
      assert (raw + a)[|raw|..] == a && (raw + b)[|raw|..] == b;
    }
  }

  lemma SamePrefix(a: bytes, b: bytes, c: bytes, k: nat, n: nat)
    requires k <= |a| && k + n <= |c| && a + b == c[..k + n]
    ensures a[..k] == c[..k] && a[k..] + b == c[k..k + n]
  {
    assert (a + b)[..k] == a[..k] && (a + b)[k..] == a[k..] + b;
    assert c[..k + n][..k] == c[..k] && c[..k + n][k..] == c[k..k + n];
  }

  /** The same header and name fed to two unpackers that did the same before, to one in one chunk
      and to the other with the name cut: they do the same and end in the same place exactly if
      the name has a NUL, or else if what follows it in the chunk reads like what
      was left in name_buf. */
  method NamesAgree(u: Unpacker, v: Unpacker, chunk: array<byte>, front: array<byte>, back: array<byte>)
    requires u.Valid() && u.state == Start && !u.message && v.Valid() && v.state == Start && !v.message
    requires u.env == v.env && u.At(Between) == v.At(Between)
    requires {u, u.headerBuf, u.nameBuf, u.symlinkBuf, chunk} !! {v, v.headerBuf, v.nameBuf, v.symlinkBuf, front, back}
    requires chunk != u.headerBuf && chunk != u.nameBuf && chunk != u.symlinkBuf
    requires front != v.headerBuf && front != v.nameBuf && front != v.symlinkBuf
    requires back != v.headerBuf && back != v.nameBuf && back != v.symlinkBuf
    requires HEADER_SIZE <= chunk.Length < 0x1_0000_0000 && chunk[..6] == MAGIC && NameFollows(Parse(chunk[..HEADER_SIZE]))
    requires HEADER_SIZE <= front.Length && 0 < back.Length
    requires HEADER_SIZE + NAlign(Parse(chunk[..HEADER_SIZE]).nameLen) <= chunk.Length
    requires front[..] + back[..] == chunk[..HEADER_SIZE + NAlign(Parse(chunk[..HEADER_SIZE]).nameLen)]
    modifies u, v, v.headerBuf, v.nameBuf, v.symlinkBuf
    ensures u.Valid() && !u.message && v.Valid() && !v.message
    ensures var n := NAlign(Parse(chunk[..HEADER_SIZE]).nameLen);
            n <= v.nameBuf.Length
            && (u.Abs() == v.Abs() <==>
                  0 in chunk[HEADER_SIZE..HEADER_SIZE + n]
                  || CString(chunk[HEADER_SIZE + n..]) == CString(old(v.nameBuf[..])[n..]))
  {
    hide Unpacker.Abs, Unpacker.Valid, NameFollows, Parse, NAlign, CString, AfterName;
    ghost var env, m, hd, buf := u.env, u.At(Between), Parse(chunk[..HEADER_SIZE]), v.nameBuf[..];
    ghost var n := NAlign(hd.nameLen);
    ghost var raw, after := chunk[HEADER_SIZE..HEADER_SIZE + n], chunk[HEADER_SIZE + n..];
    SamePrefix(front[..], back[..], chunk[..], HEADER_SIZE, n);
    SamePrefix(front[..], back[..], chunk[..], 6, HEADER_SIZE + n - 6);
    assert front[..][..HEADER_SIZE] == front[..HEADER_SIZE] && chunk[..][..HEADER_SIZE] == chunk[..HEADER_SIZE];
    assert front[..][..6] == front[..6] && chunk[..][..6] == chunk[..6];
    assert front[..][HEADER_SIZE..] == front[HEADER_SIZE..] && chunk[..][HEADER_SIZE..HEADER_SIZE + n] == raw;
    u.FeedName(chunk);
    v.FeedNameCut(front, back);
    assert chunk[HEADER_SIZE..] == raw + after;
    AfterNameShows(env, m, hd, CString(raw + after), CString(raw + buf[n..]));
    NamesEqual(raw, after, buf[n..]);
  }
}
