/**
 Writing a newc archive, and what init/initramfs.c makes of it: unpacking the
 archive of a list of entries replays exactly these entries.
 */
module CpioArchive {
  import opened Options
  import opened Cpio
  import CpioUnpacker

  datatype Entry = Entry(
    name: bytes, mode: nat, uid: nat, gid: nat, nlink: nat, mtime: nat, ino: nat,
    major: nat, minor: nat, rmajor: nat, rminor: nat, body: bytes)

  const WORD: nat := 0x1_0000_0000

  predicate Fits(e: Entry) {
    && e.mode < 65536 && e.uid < WORD && e.gid < WORD && e.nlink < WORD && e.mtime < WORD && e.ino < WORD
    && e.major < WORD && e.minor < WORD && e.rmajor < WORD && e.rminor < WORD
    && 0 !in e.name && |e.name| < PATH_MAX && |e.body| < WORD
  }

  /** What a cpio archive can hold: symlink targets are short strings, and only files
      and symlinks have a body. */
  predicate WellFormed(e: Entry) {
    && Fits(e) && e.name != TRAILER
    && (if Fmt(e.mode) == LNK then 0 !in e.body && |e.body| <= PATH_MAX else Fmt(e.mode) == REG || e.body == [])
  }

  // ---------- Hexadecimal numbers ----------

  /** Whoever writes an archive may print each digit above 9 in either case; the choice is made
      by the digit's place in the archive. */
  type Caps = nat -> bool

  function HexDigit(d: nat, upper: bool): byte
    requires d < 16
  {
    if d < 10 then 48 + d else if upper then 55 + d else 87 + d
  }

  function Ascii(t: string): (r: bytes)
    requires forall k | 0 <= k < |t| :: t[k] as int < 128
    ensures |r| == |t| && forall k | 0 <= k < |t| :: r[k] == t[k] as int
  {
    seq(|t|, k requires 0 <= k < |t| => t[k] as int)
  }

  /** The digits are the sixteen of either case, and nothing else is one. */
  lemma DigitsAre(c: char)
    requires c as int < 256
    ensures Digit(c as int) ==
            if '0' <= c <= '9' then Some(c as int - '0' as int)
            else if 'a' <= c <= 'f' then Some(10 + c as int - 'a' as int)
            else if 'A' <= c <= 'F' then Some(10 + c as int - 'A' as int)
            else None
  {
  }

  /** "070701" and "TRAILER!!!" */
  lemma Words()
    ensures MAGIC == Ascii("070701") && TRAILER == Ascii("TRAILER!!!")
  {
  }

  /** The kinds of files of <linux/stat.h>, whatever the permissions */
  lemma FileTypes(perm: nat)
    requires perm < 0x1000
    ensures Fmt(0x1000 + perm) == FIFO && Fmt(0x2000 + perm) == CHR && Fmt(0x4000 + perm) == DIR && Fmt(0x6000 + perm) == BLK
    ensures Fmt(0x8000 + perm) == REG && Fmt(0xA000 + perm) == LNK && Fmt(0xC000 + perm) == SOCK
  {
  }

  function Pow16(n: nat): nat {
    if n == 0 then 1 else 16 * Pow16(n - 1)
  }

  /** n digits of v, from place at on */
  function Hex(up: Caps, at: nat, v: nat, n: nat): (r: bytes)
    ensures |r| == n && forall k | 0 <= k < n :: Digit(r[k]).Some?
  {
    if n == 0 then [] else Hex(up, at, v / 16, n - 1) + [HexDigit(v % 16, up(at + n - 1))]
  }

  lemma {:induction false} DigitsAppend(s: bytes, d: byte, acc: nat)
    requires Digit(d).Some? && forall k | 0 <= k < |s| :: Digit(s[k]).Some?
    ensures Digits(s + [d], acc) == Digits(s, acc) * 16 + Digit(d).value
  {
    if s == [] {
      assert [d][1..] == [];
      assert [] + [d] == [d];
    } else {
      assert (s + [d])[1..] == s[1..] + [d];
      DigitsAppend(s[1..], d, acc * 16 + Digit(s[0]).value);
    }
  }

  lemma {:induction false} DigitsHex(up: Caps, at: nat, v: nat, n: nat)
    requires v < Pow16(n)
    ensures Digits(Hex(up, at, v, n), 0) == v
  {
    if n > 0 {
      DigitsHex(up, at, v / 16, n - 1);
      DigitsAppend(Hex(up, at, v / 16, n - 1), HexDigit(v % 16, up(at + n - 1)), 0);
    }
  }

  lemma Pow16Eight()
    ensures Pow16(8) == WORD
  {
    assert Pow16(4) == 65536;
    assert Pow16(8) == 16 * (16 * (16 * (16 * Pow16(4))));
  }

  /** Eight digits, of either case in any mix, are read back as the number that was printed. */
  lemma StrToUlHex(up: Caps, at: nat, v: nat)
    requires v < WORD
    ensures StrToUl(Hex(up, at, v, 8)) == v
  {
    Pow16Eight();
    DigitsHex(up, at, v, 8);
    assert Digit(Hex(up, at, v, 8)[1]).Some?;
  }

  lemma {:induction false} DigitsStop(s: bytes, d: byte, rest: bytes, acc: nat)
    requires Digit(d).None? && forall k | 0 <= k < |s| :: Digit(s[k]).Some?
    ensures Digits(s + [d] + rest, acc) == Digits(s, acc)
  {
    if s != [] {
      assert (s + [d] + rest)[1..] == s[1..] + [d] + rest;
      DigitsStop(s[1..], d, rest, acc * 16 + Digit(s[0]).value);
    }
  }

  predicate IsHexDigit(b: byte) {
    48 <= b <= 57 || 65 <= b <= 70 || 97 <= b <= 102
  }

  /** A field that is not eight digits: the number ends before the first byte that is not a digit,
      and is 0 if there is none; behind a leading 0x it is the number that follows. */
  lemma StrToUlShort(up: Caps, at: nat, v: nat, n: nat, d: byte, rest: bytes, x: byte)
    requires v < Pow16(n) && !IsHexDigit(d) && (x == 120 || x == 88)
    ensures n != 1 || v != 0 || (d != 120 && d != 88) ==> StrToUl(Hex(up, at, v, n) + [d] + rest) == v
    ensures StrToUl([48, x] + Hex(up, at, v, n)) == v
    ensures StrToUl([48, x] + (Hex(up, at, v, n) + [d] + rest)) == v
  {
    var h := Hex(up, at, v, n);
    DigitsHex(up, at, v, n);
    DigitsStop(h, d, rest, 0);
    assert ([48, x] + h)[2..] == h;
    assert ([48, x] + (h + [d] + rest))[2..] == h + [d] + rest;
    if n >= 2 {
      assert (h + [d] + rest)[1] == h[1] && Digit(h[1]).Some?;
    } else if n == 1 {
      FirstDigit(up, at, v);
      assert (h + [d] + rest)[0] == h[0] && (h + [d] + rest)[1] == d;
    } else {
      assert (h + [d] + rest)[0] == d;
    }
  }

  lemma FirstDigit(up: Caps, at: nat, v: nat)
    requires v < 16
    ensures Hex(up, at, v, 1)[0] == 48 <==> v == 0
  {
    assert Hex(up, at, v / 16, 0) == [];
  }

  // ---------- The header ----------

  function Printed(up: Caps, at: nat, fields: seq<nat>): (r: bytes)
    ensures |r| == 8 * |fields|
  {
    if fields == [] then []
    else Printed(up, at, fields[..|fields| - 1]) + Hex(up, at + 8 * (|fields| - 1), fields[|fields| - 1], 8)
  }

  lemma {:induction false} PrintedAt(up: Caps, at: nat, fields: seq<nat>, i: nat)
    requires i < |fields|
    ensures Printed(up, at, fields)[8 * i..8 * i + 8] == Hex(up, at + 8 * i, fields[i], 8)
  {
    var init := fields[..|fields| - 1];
    if i < |init| {
      PrintedAt(up, at, init, i);
      assert Printed(up, at, fields)[8 * i..8 * i + 8] == Printed(up, at, init)[8 * i..8 * i + 8];
    }
  }

  function Fields(e: Entry): seq<nat> {
    [e.ino, e.mode, e.uid, e.gid, e.nlink, e.mtime, |e.body|, e.major, e.minor, e.rmajor, e.rminor, |e.name| + 1, 0]
  }

  function HeaderBytes(up: Caps, at: nat, e: Entry): (r: bytes)
    ensures |r| == HEADER_SIZE
  {
    MAGIC + Printed(up, at + 6, Fields(e))
  }

  function HeaderOf(e: Entry): Header {
    Header(e.ino, e.mode, e.uid, e.gid, e.nlink, e.mtime, |e.body|, e.major, e.minor, e.rmajor, e.rminor, |e.name| + 1)
  }

  lemma FieldIs(up: Caps, at: nat, e: Entry, i: nat)
    requires i < 12 && Fields(e)[i] < WORD
    ensures Field(HeaderBytes(up, at, e), i) == Fields(e)[i]
  {
    var fields := Fields(e);
    assert HeaderBytes(up, at, e)[6 + 8 * i..14 + 8 * i] == Printed(up, at + 6, fields)[8 * i..8 * i + 8];
    PrintedAt(up, at + 6, fields, i);
    StrToUlHex(up, at + 6 + 8 * i, fields[i]);
  }

  /** parse_header reads back every field that is printed, in whatever mix of cases. */
  lemma ParseHeader(up: Caps, at: nat, e: Entry)
    requires Fits(e)
    ensures HeaderBytes(up, at, e)[..6] == MAGIC && Parse(HeaderBytes(up, at, e)) == HeaderOf(e)
  {
    hide Field, HeaderBytes, Fields;
    FieldsAre(e);
    forall i: nat | i < 12
      ensures Field(HeaderBytes(up, at, e), i) == Fields(e)[i]
    {
      FieldIs(up, at, e, i);
    }
    HeaderMagic(up, at, e);
  }

  lemma FieldsAre(e: Entry)
    requires Fits(e)
    ensures Fields(e) == [e.ino, e.mode, e.uid, e.gid, e.nlink, e.mtime, |e.body|, e.major, e.minor, e.rmajor, e.rminor, |e.name| + 1, 0]
    ensures forall i | 0 <= i < 12 :: Fields(e)[i] < WORD
  {
  }

  lemma HeaderMagic(up: Caps, at: nat, e: Entry)
    ensures HeaderBytes(up, at, e)[..6] == MAGIC && HeaderBytes(up, at, e)[0] == 48
  {
  }

  // ---------- The archive ----------

  function NULs(n: nat): (r: bytes)
    ensures |r| == n && forall k | 0 <= k < n :: r[k] == 0
  {
    seq(n, _ => 0)
  }

  function NamePart(e: Entry): (r: bytes)
    ensures |r| == NAlign(|e.name| + 1)
  {
    e.name + NULs(NAlign(|e.name| + 1) - |e.name|)
  }

  function Pad(e: Entry): (r: nat)
    ensures |e.body| + r == Align4(|e.body|)
  {
    Align4(|e.body|) - |e.body|
  }

  function EntryBytes(up: Caps, at: nat, e: Entry): (r: bytes)
    ensures |r| == HEADER_SIZE + NAlign(|e.name| + 1) + Align4(|e.body|)
  {
    HeaderBytes(up, at, e) + NamePart(e) + (e.body + NULs(Pad(e)))
  }

  function ListBytes(up: Caps, es: seq<Entry>): bytes {
    if es == [] then []
    else
      var init := ListBytes(up, es[..|es| - 1]);
      init + EntryBytes(up, |init|, es[|es| - 1])
  }

  /** Every entry starts at a multiple of four. */
  lemma EntryAligned(up: Caps, at: nat, e: Entry)
    ensures |EntryBytes(up, at, e)| % 4 == 0
  {
    hide EntryBytes, NAlign, Align4;
  }

  lemma {:induction false} ListAligned(up: Caps, es: seq<Entry>)
    ensures |ListBytes(up, es)| % 4 == 0
  {
    hide EntryBytes;
    if es != [] {
      var a := |ListBytes(up, es[..|es| - 1])|;
      var b := |EntryBytes(up, a, es[|es| - 1])|;
      ListAligned(up, es[..|es| - 1]);
      EntryAligned(up, a, es[|es| - 1]);
      SumAligned(a, b);
    }
  }

  lemma SumAligned(a: nat, b: nat)
    requires a % 4 == 0 && b % 4 == 0
    ensures (a + b) % 4 == 0
  {
  }

  function Trailer(): Entry {
    Entry(TRAILER, 0, 0, 0, 1, 0, 0, 0, 0, 0, 0, [])
  }

  function Archive(up: Caps, es: seq<Entry>, padding: nat): bytes {
    ListBytes(up, es) + EntryBytes(up, |ListBytes(up, es)|, Trailer()) + NULs(padding)
  }

  // ---------- What the entries ask for ----------

  /** The file system's side of unpacking: the hard link table and all effects so far. */
  datatype Tree = Tree(links: map<Key, bytes>, trace: seq<Effect>)

  function KeyOf(e: Entry): Key {
    Key(e.major, e.minor, e.ino, Fmt(e.mode))
  }

  predicate IsShared(t: Tree, e: Entry) {
    e.nlink >= 2 && KeyOf(e) in t.links
  }

  /** An entry with other names is joined to the first of them or remembered as such. */
  function Joining(t: Tree, e: Entry): Tree {
    if e.nlink < 2 then t
    else if IsShared(t, e) then t.(trace := t.trace + [Clean(e.name, 0), HardLink(t.links[KeyOf(e)], e.name)])
    else t.(links := t.links[KeyOf(e) := e.name])
  }

  function FileEffects(env: Env, t: Tree, e: Entry): Tree {
    var j := Joining(t, e);
    if IsShared(t, e) && !env.linkOk(j.trace) then j
    else
      var o := j.(trace := j.trace + [Open(e.name, !IsShared(t, e), e.mode)]);
      if !env.openOk(o.trace) then o
      else
        o.(trace := o.trace + [FileOwner(e.uid, e.gid), FileMode(e.mode)]
                    + (if e.body == [] then [] else [FileSize(|e.body|), Write(e.body)])
                    + [FileTime(e.mtime), Close])
  }

  function NodeEffects(env: Env, t: Tree, e: Entry): Tree {
    var j := Joining(t, e);
    if IsShared(t, e) then j
    else
      j.(trace := j.trace + [MakeNode(e.name, e.mode, e.rmajor, e.rminor), Owner(e.name, e.uid, e.gid),
                             Mode(e.name, e.mode), Time(e.name, e.mtime)])
  }

  function DirEffects(t: Tree, e: Entry): Tree {
    t.(trace := t.trace + [MakeDir(e.name, e.mode), Owner(e.name, e.uid, e.gid), Mode(e.name, e.mode),
                           DirTimeLater(e.name, e.mtime)])
  }

  function SymlinkEffects(t: Tree, e: Entry): Tree {
    t.(trace := t.trace + [Clean(e.name, 0), MakeLink(e.body, e.name), Owner(e.name, e.uid, e.gid), Time(e.name, e.mtime)])
  }

  /** One entry put into the file system. */
  function Replay(env: Env, t: Tree, e: Entry): Tree {
    var c := t.(trace := t.trace + [Clean(e.name, e.mode)]);
    if Fmt(e.mode) == LNK then SymlinkEffects(t, e)
    else if Fmt(e.mode) == REG then FileEffects(env, c, e)
    else if Fmt(e.mode) == DIR then DirEffects(c, e)
    else if IsNode(e.mode) then NodeEffects(env, c, e)
    else c
  }

  function ReplayAll(env: Env, t: Tree, es: seq<Entry>): Tree {
    if es == [] then t else Replay(env, ReplayAll(env, t, es[..|es| - 1]), es[|es| - 1])
  }

  // ---------- Unpacking what was written ----------

  ghost predicate Ready(m: Machine) {
    m.Machine? && m.offset % 4 == 0 && (m.pos == Between || m.pos == Head([]))
  }

  ghost function Done(m: Machine, offset: nat, t: Tree): Machine
    requires m.Machine?
  {
    Machine(Between, offset, t.links, t.trace)
  }

  lemma FoldSplit(env: Env, m: Machine, a: bytes, b: bytes, c: bytes)
    ensures Fold(env, m, a + b + c) == Fold(env, Fold(env, Fold(env, m, a), b), c)
  {
    FoldConcat(env, m, a + b, c);
    FoldConcat(env, m, a, b);
  }

  /** Between entries the first byte of a header starts one. */
  lemma FoldFromBetween(env: Env, m: Machine, s: bytes)
    requires m.Machine? && m.pos == Between && m.offset % 4 == 0 && s != [] && s[0] == 48
    ensures Fold(env, m, s) == Fold(env, m.(pos := Head([])), s)
  {
    hide Fold;
    assert s == [48] + s[1..];
    FoldConcat(env, m, [48], s[1..]);
    FoldConcat(env, m.(pos := Head([])), [48], s[1..]);
    FoldOne(env, m, 48);
    FoldOne(env, m.(pos := Head([])), 48);
    assert [] + [48 as byte] == [48];
  }

  /** do_header computes the offset at which the entry ends. */
  lemma EntryEnds(up: Caps, at: nat, offset: nat, e: Entry)
    requires offset % 4 == 0
    ensures Align4(offset + HEADER_SIZE + NAlign(|e.name| + 1) + |e.body|) == offset + |EntryBytes(up, at, e)|
  {
    hide EntryBytes, NAlign, Align4;
    AlignBehind(offset + (HEADER_SIZE + NAlign(|e.name| + 1)), |e.body|);
  }

  lemma AlignBehind(a: nat, b: nat)
    requires a % 4 == 0
    ensures Align4(a + b) == a + Align4(b)
  {
  }

  /** After its header an entry waits for its name, or for its name and target. */
  lemma FoldHeader(env: Env, m: Machine, up: Caps, at: nat, e: Entry)
    requires Ready(m) && Fits(e) && GoodHeader(HeaderOf(e))
    ensures var next := m.offset + |EntryBytes(up, at, e)|;
            Fold(env, m, HeaderBytes(up, at, e)) ==
            m.(pos := if Fmt(e.mode) == LNK then Link(HeaderOf(e), next, []) else Name(HeaderOf(e), next, []),
               offset := m.offset + HEADER_SIZE)
  {
    hide Parse, HeaderBytes, Step, Fold, GotHeader, GotName, GotSymlink, Align4, NAlign, GoodHeader, Fmt;
    ParseHeader(up, at, e);
    HeaderMagic(up, at, e);
    EntryEnds(up, at, m.offset, e);
    HeaderCases(m.(pos := Between, offset := m.offset + HEADER_SIZE), HeaderBytes(up, at, e));
    var h := m.(pos := Head([]));
    if m.pos == Between {
      FoldFromBetween(env, m, HeaderBytes(up, at, e));
    }
    FoldCollect(env, h, HeaderBytes(up, at, e));
    assert [] + HeaderBytes(up, at, e) == HeaderBytes(up, at, e);
  }

  lemma CStringPadded(s: bytes, n: nat)
    requires 0 !in s
    ensures n > 0 ==> CString(s + NULs(n)) == s && 0 in s + NULs(n)
    ensures CString(s) == s
  {
    assert CString([]) == [];
    assert n > 0 ==> NULs(n)[0] == 0 && CString(NULs(n)) == [];
    hide CString;
    CStringStops(s, NULs(n));
    CStringStops(s, []);
    assert s + [] == s;
    assert n > 0 ==> (s + NULs(n))[|s|] == 0;
  }

  lemma NameIs(e: Entry)
    requires 0 !in e.name
    ensures 0 in NamePart(e) && CString(NamePart(e)) == e.name
  {
    CStringPadded(e.name, NAlign(|e.name| + 1) - |e.name|);
  }

  /** A position that skips to its entry's end swallows the rest of the entry. */
  lemma FoldToEnd(env: Env, m: Machine, next: nat, s: bytes)
    requires m.Machine? && m.offset + |s| == next
    ensures Fold(env, Skipping(m, next), s) == m.(pos := Between, offset := next)
  {
    if s == [] {
    } else {
      FoldSkip(env, Skipping(m, next), s);
    }
  }

  /** A body, and its padding, are copied and skipped. */
  lemma FoldBody(env: Env, m: Machine, e: Entry, next: nat)
    requires m.Machine? && m.offset % 4 == 0 && next == m.offset + Align4(|e.body|)
    ensures Fold(env, Copying(m, |e.body|, e.mtime, next), e.body + NULs(Pad(e))) ==
            m.(pos := Between, offset := next, trace := Logged(m.trace, e.body) + [FileTime(e.mtime), Close])
  {
    hide Logged, Align4, Step, Fold;
    var c := Copying(m, |e.body|, e.mtime, next);
    FoldConcat(env, c, e.body, NULs(Pad(e)));
    var f := m.(offset := m.offset + |e.body|, trace := Logged(m.trace, e.body) + [FileTime(e.mtime), Close]);
    if e.body == [] {
      LoggedNone(m.trace);
      FoldNone(env, c);
    } else {
      FoldCopy(env, c, e.body);
    }
    FoldToEnd(env, f, next, NULs(Pad(e)));
  }

  ghost function TreeOf(m: Machine): Tree
    requires m.Machine?
  {
    Tree(m.links, m.trace)
  }

  lemma LinkIs(env: Env, m: Machine, e: Entry)
    requires m.Machine?
    ensures var (ml, l) := MaybeLink(env, m, HeaderOf(e), e.name);
            var j := Joining(TreeOf(m), e);
            && l == m.(links := j.links, trace := j.trace)
            && ml == (if !IsShared(TreeOf(m), e) then NotLinked else if env.linkOk(j.trace) then Joined else Refused)
  {
  }

  lemma LoggedAfter(trace: seq<Effect>, last: Effect, data: bytes)
    requires !last.Write?
    ensures Logged(trace + [last], data) == trace + [last] + if data == [] then [] else [Write(data)]
  {
  }

  /** The trace of a file that was tried. */
  lemma FileTrace(trace: seq<Effect>, e: Entry)
    ensures var made := trace + [FileOwner(e.uid, e.gid), FileMode(e.mode)] + (if |e.body| > 0 then [FileSize(|e.body|)] else []);
            Logged(made, e.body) + [FileTime(e.mtime), Close] ==
            trace + [FileOwner(e.uid, e.gid), FileMode(e.mode)]
            + (if e.body == [] then [] else [FileSize(|e.body|), Write(e.body)]) + [FileTime(e.mtime), Close]
  {
    hide Logged;
    var own := trace + [FileOwner(e.uid, e.gid)];
    if e.body == [] {
      LoggedAfter(own, FileMode(e.mode), e.body);
      assert own + [FileMode(e.mode)] == trace + [FileOwner(e.uid, e.gid), FileMode(e.mode)] + [];
    } else {
      LoggedAfter(own + [FileMode(e.mode)], FileSize(|e.body|), e.body);
      assert own + [FileMode(e.mode)] + [FileSize(|e.body|)] == trace + [FileOwner(e.uid, e.gid), FileMode(e.mode)] + [FileSize(|e.body|)];
    }
  }

  lemma FileFolds(env: Env, m: Machine, e: Entry, next: nat)
    requires m.Machine? && m.offset % 4 == 0 && next == m.offset + Align4(|e.body|)
    ensures Fold(env, GotFile(env, m, HeaderOf(e), next, e.name), e.body + NULs(Pad(e))) ==
            Done(m, next, FileEffects(env, TreeOf(m), e))
  {
    hide Fold, Step, Align4, Skipping, Copying, MaybeLink, Joining, Logged, IsShared;
    LinkIs(env, m, e);
    var rest := e.body + NULs(Pad(e));
    var (ml, l) := MaybeLink(env, m, HeaderOf(e), e.name);
    var trace := l.trace + [Open(e.name, ml != Joined, e.mode)];
    if ml == Refused {
      FoldToEnd(env, l, next, rest);
    } else if !env.openOk(trace) {
      FoldToEnd(env, l.(trace := trace), next, rest);
    } else {
      var made := trace + [FileOwner(e.uid, e.gid), FileMode(e.mode)] + (if |e.body| > 0 then [FileSize(|e.body|)] else []);
      FoldBody(env, l.(trace := made), e, next);
      FileTrace(trace, e);
    }
  }

  /** The name of an entry, and whatever follows it, replay the entry. */
  lemma NameFolds(env: Env, m: Machine, e: Entry, next: nat)
    requires m.Machine? && m.offset % 4 == 0 && next == m.offset + Align4(|e.body|)
    requires WellFormed(e) && Fmt(e.mode) != LNK
    ensures Fold(env, GotName(env, m, HeaderOf(e), next, NamePart(e)), e.body + NULs(Pad(e))) ==
            Done(m, next, Replay(env, TreeOf(m), e))
  {
    hide Fold, Step, GotFile, FileEffects, Align4, CString, NamePart, MaybeLink, Joining, Skipping, IsShared;
    NameIs(e);
    var rest := e.body + NULs(Pad(e));
    var c := m.(trace := m.trace + [Clean(e.name, e.mode)]);
    if Fmt(e.mode) == REG {
      FileFolds(env, c, e, next);
    } else {
      OtherFolds(env, c, e, next, rest);
    }
  }

  /** The other kinds have no body: nothing but the end of the entry is left. */
  lemma OtherFolds(env: Env, c: Machine, e: Entry, next: nat, rest: bytes)
    requires c.Machine? && c.offset + |rest| == next
    ensures Fold(env, GotDir(c, HeaderOf(e), next, e.name), rest) == Done(c, next, DirEffects(TreeOf(c), e))
    ensures Fold(env, GotNode(env, c, HeaderOf(e), next, e.name), rest) == Done(c, next, NodeEffects(env, TreeOf(c), e))
    ensures Fold(env, Skipping(c, next), rest) == Done(c, next, TreeOf(c))
  {
    hide Fold, Step, Align4, MaybeLink, Joining, Skipping, IsShared;
    LinkIs(env, c, e);
    var (ml, l) := MaybeLink(env, c, HeaderOf(e), e.name);
    FoldToEnd(env, c, next, rest);
    FoldToEnd(env, l, next, rest);
    FoldToEnd(env, c.(trace := c.trace + [MakeDir(e.name, e.mode), Owner(e.name, e.uid, e.gid), Mode(e.name, e.mode),
                                          DirTimeLater(e.name, e.mtime)]), next, rest);
    FoldToEnd(env, l.(trace := l.trace + [MakeNode(e.name, e.mode, e.rmajor, e.rminor), Owner(e.name, e.uid, e.gid),
                                          Mode(e.name, e.mode), Time(e.name, e.mtime)]), next, rest);
  }

  lemma FoldName(env: Env, m: Machine, e: Entry, next: nat)
    requires m.Machine? && m.pos == Name(HeaderOf(e), next, [])
    ensures Fold(env, m, NamePart(e)) ==
            GotName(env, m.(pos := Between, offset := m.offset + |NamePart(e)|), HeaderOf(e), next, NamePart(e))
  {
    hide Fold, Step, GotName, NamePart;
    FoldCollect(env, m, NamePart(e));
    assert [] + NamePart(e) == NamePart(e);
  }

  lemma FoldLink(env: Env, m: Machine, e: Entry, next: nat)
    requires m.Machine? && m.pos == Link(HeaderOf(e), next, [])
    ensures Fold(env, m, NamePart(e) + e.body) ==
            GotSymlink(m.(pos := Between, offset := m.offset + |NamePart(e)| + |e.body|), HeaderOf(e), next, NamePart(e) + e.body)
  {
    hide Fold, Step, GotSymlink, NamePart;
    FoldCollect(env, m, NamePart(e) + e.body);
    assert [] + (NamePart(e) + e.body) == NamePart(e) + e.body;
  }

  lemma {:induction false} CStringPrefix(s: bytes, t: bytes)
    requires 0 in s
    ensures CString(s + t) == CString(s)
  {
    if s[0] != 0 {
      assert (s + t)[1..] == s[1..] + t;
      CStringPrefix(s[1..], t);
    } else {
      assert (s + t)[0] == 0;
    }
  }

  lemma SymlinkFolds(env: Env, m: Machine, e: Entry, next: nat)
    requires m.Machine? && next == m.offset + Pad(e) && WellFormed(e) && Fmt(e.mode) == LNK
    ensures Fold(env, GotSymlink(m, HeaderOf(e), next, NamePart(e) + e.body), NULs(Pad(e))) ==
            Done(m, next, SymlinkEffects(TreeOf(m), e))
  {
    hide Fold, Step, CString, NamePart, Skipping, NAlign;
    NameIs(e);
    CStringPrefix(NamePart(e), e.body);
    CStringPadded(e.body, 0);
    assert (NamePart(e) + e.body)[NAlign(|e.name| + 1)..] == e.body;
    FoldToEnd(env, m.(trace := m.trace + [Clean(e.name, 0), MakeLink(e.body, e.name), Owner(e.name, e.uid, e.gid), Time(e.name, e.mtime)]),
              next, NULs(Pad(e)));
  }

  lemma GoodHeaders(e: Entry)
    requires WellFormed(e)
    ensures GoodHeader(HeaderOf(e))
  {
  }

  /** One entry's bytes replay the entry and leave the machine between entries. */
  lemma EntryFolds(env: Env, m: Machine, up: Caps, at: nat, e: Entry)
    requires Ready(m) && WellFormed(e)
    ensures Fold(env, m, EntryBytes(up, at, e)) == Done(m, m.offset + |EntryBytes(up, at, e)|, Replay(env, TreeOf(m), e))
  {
    hide Fold, Step, GotName, GotSymlink, HeaderBytes, NamePart, WellFormed, Fmt, Replay, GoodHeader;
    GoodHeaders(e);
    WellFits(e);
    FoldHeader(env, m, up, at, e);
    var next := m.offset + |EntryBytes(up, at, e)|;
    var off := m.offset + HEADER_SIZE + NAlign(|e.name| + 1);
    if Fmt(e.mode) == LNK {
      var l := m.(pos := Link(HeaderOf(e), next, []), offset := m.offset + HEADER_SIZE);
      assert EntryBytes(up, at, e) == HeaderBytes(up, at, e) + (NamePart(e) + e.body) + NULs(Pad(e));
      FoldSplit(env, m, HeaderBytes(up, at, e), NamePart(e) + e.body, NULs(Pad(e)));
      FoldLink(env, l, e, next);
      SymlinkFolds(env, l.(pos := Between, offset := off + |e.body|), e, next);
      ReplayLink(env, TreeOf(m), e);
    } else {
      var n := m.(pos := Name(HeaderOf(e), next, []), offset := m.offset + HEADER_SIZE);
      FoldSplit(env, m, HeaderBytes(up, at, e), NamePart(e), e.body + NULs(Pad(e)));
      FoldName(env, n, e, next);
      NameFolds(env, n.(pos := Between, offset := off), e, next);
    }
  }

  lemma WellFits(e: Entry)
    requires WellFormed(e)
    ensures Fits(e)
  {
  }

  lemma ReplayLink(env: Env, t: Tree, e: Entry)
    requires Fmt(e.mode) == LNK
    ensures Replay(env, t, e) == SymlinkEffects(t, e)
  {
  }

  /** The trailer forgets the hard links. */
  lemma TrailerFolds(env: Env, m: Machine, up: Caps, at: nat)
    requires Ready(m)
    ensures Fold(env, m, EntryBytes(up, at, Trailer())) == Done(m, m.offset + |EntryBytes(up, at, Trailer())|, Tree(map[], m.trace))
  {
    hide Fold, Step, GotFile, GotDir, GotNode, CString, HeaderBytes, NamePart;
    var e := Trailer();
    assert Fits(e) && GoodHeader(HeaderOf(e));
    FoldHeader(env, m, up, at, e);
    var next := m.offset + |EntryBytes(up, at, e)|;
    var off := m.offset + HEADER_SIZE + NAlign(|e.name| + 1);
    var n := m.(pos := Name(HeaderOf(e), next, []), offset := m.offset + HEADER_SIZE);
    FoldSplit(env, m, HeaderBytes(up, at, e), NamePart(e), e.body + NULs(Pad(e)));
    FoldName(env, n, e, next);
    NameIs(e);
    FoldToEnd(env, n.(pos := Between, offset := off, links := map[]), next, e.body + NULs(Pad(e)));
  }

  lemma {:induction false} ListFolds(env: Env, up: Caps, m: Machine, es: seq<Entry>)
    requires Ready(m) && forall k | 0 <= k < |es| :: WellFormed(es[k])
    ensures Fold(env, m, ListBytes(up, es)) ==
            if es == [] then m else Done(m, m.offset + |ListBytes(up, es)|, ReplayAll(env, TreeOf(m), es))
  {
    hide Fold, Step, EntryBytes, Replay, WellFormed;
    if es == [] {
      FoldNone(env, m);
    } else {
      var init, e := es[..|es| - 1], es[|es| - 1];
      var at := |ListBytes(up, init)|;
      ListFolds(env, up, m, init);
      ListAligned(up, init);
      FoldConcat(env, m, ListBytes(up, init), EntryBytes(up, at, e));
      EntryFolds(env, Fold(env, m, ListBytes(up, init)), up, at, e);
    }
  }

  lemma {:induction false} FoldNULs(env: Env, m: Machine, n: nat)
    requires m.Machine? && m.pos == Between
    ensures Fold(env, m, NULs(n)) == m.(offset := m.offset + n)
  {
    if n > 0 {
      FoldNULs(env, m, n - 1);
      assert NULs(n)[..n - 1] == NULs(n - 1);
    }
  }

  /** A whole archive, wherever it starts, replays its entries and forgets the hard links. */
  lemma ArchiveFolds(env: Env, up: Caps, m: Machine, es: seq<Entry>, padding: nat)
    requires Ready(m) && forall k | 0 <= k < |es| :: WellFormed(es[k])
    ensures Fold(env, m, Archive(up, es, padding)) ==
            Done(m, m.offset + |Archive(up, es, padding)|, Tree(map[], ReplayAll(env, TreeOf(m), es).trace))
  {
    hide Fold, Step, EntryBytes, ListBytes, WellFormed;
    var l := Fold(env, m, ListBytes(up, es));
    ListFolds(env, up, m, es);
    ListAligned(up, es);
    FoldSplit(env, m, ListBytes(up, es), EntryBytes(up, |ListBytes(up, es)|, Trailer()), NULs(padding));
    ReplayNone(env, TreeOf(m));
    ListNone(up);
    TrailerFolds(env, l, up, |ListBytes(up, es)|);
    FoldNULs(env, Fold(env, l, EntryBytes(up, |ListBytes(up, es)|, Trailer())), padding);
  }

  lemma ReplayNone(env: Env, t: Tree)
    ensures ReplayAll(env, t, []) == t
  {
  }

  lemma ListNone(up: Caps)
    ensures ListBytes(up, []) == []
  {
  }

  /** The round trip: unpacking the archive of any well-formed entries, however its digits are
      spelled and however it is padded at the end, replays exactly these entries in order,
      reports no error and ends between entries. */
  lemma RoundTrip(env: Env, up: Caps, es: seq<Entry>, padding: nat)
    requires forall k | 0 <= k < |es| :: WellFormed(es[k])
    ensures Fold(env, Machine(Head([]), 0, map[], []), Archive(up, es, padding)) ==
            Machine(Between, |Archive(up, es, padding)|, map[], ReplayAll(env, Tree(map[], []), es).trace)
  {
    hide Fold, Archive, ReplayAll, WellFormed;
    ArchiveFolds(env, up, Machine(Head([]), 0, map[], []), es, padding);
  }

  /** What the archive of one entry does, whatever its kind, spelled out. */
  lemma OneEntry(env: Env, up: Caps, e: Entry, padding: nat)
    requires WellFormed(e)
    ensures var r := Fold(env, Machine(Head([]), 0, map[], []), Archive(up, [e], padding));
            && r.Machine? && r.pos == Between
            && (e.mode / 0x1000 == 0xA ==>
                  r.trace == [Clean(e.name, 0), MakeLink(e.body, e.name), Owner(e.name, e.uid, e.gid), Time(e.name, e.mtime)])
            && (e.mode / 0x1000 == 4 ==>
                  r.trace == [Clean(e.name, e.mode), MakeDir(e.name, e.mode), Owner(e.name, e.uid, e.gid),
                              Mode(e.name, e.mode), DirTimeLater(e.name, e.mtime)])
            && (e.mode / 0x1000 in {1, 2, 6, 12} ==>
                  r.trace == [Clean(e.name, e.mode), MakeNode(e.name, e.mode, e.rmajor, e.rminor),
                              Owner(e.name, e.uid, e.gid), Mode(e.name, e.mode), Time(e.name, e.mtime)])
            && (e.mode / 0x1000 == 8 ==>
                  var tried := [Clean(e.name, e.mode), Open(e.name, true, e.mode)];
                  r.trace == if !env.openOk(tried) then tried
                             else tried + [FileOwner(e.uid, e.gid), FileMode(e.mode)]
                                  + (if e.body == [] then [] else [FileSize(|e.body|), Write(e.body)])
                                  + [FileTime(e.mtime), Close])
            && (e.mode / 0x1000 !in {1, 2, 4, 6, 8, 10, 12} ==> r.trace == [Clean(e.name, e.mode)])
  {
    hide Fold, Archive, ReplayAll, WellFormed, Replay;
    RoundTrip(env, up, [e], padding);
    ReplayOne(env, Tree(map[], []), e);
    if e.mode / 0x1000 == 8 {
      ReplayFile(env, e);
    } else {
      ReplayOther(env, e);
    }
  }

  lemma ReplayFile(env: Env, e: Entry)
    requires e.mode / 0x1000 == 8
    ensures var tried := [Clean(e.name, e.mode), Open(e.name, true, e.mode)];
            Replay(env, Tree(map[], []), e).trace ==
            if !env.openOk(tried) then tried
            else tried + [FileOwner(e.uid, e.gid), FileMode(e.mode)]
                 + (if e.body == [] then [] else [FileSize(|e.body|), Write(e.body)])
                 + [FileTime(e.mtime), Close]
  {
    assert [] + [Clean(e.name, e.mode)] == [Clean(e.name, e.mode)];
    assert [Clean(e.name, e.mode)] + [Open(e.name, true, e.mode)] == [Clean(e.name, e.mode), Open(e.name, true, e.mode)];
  }

  lemma ReplayOther(env: Env, e: Entry)
    requires e.mode / 0x1000 != 8
    ensures var trace := Replay(env, Tree(map[], []), e).trace;
            trace ==
            if e.mode / 0x1000 == 0xA then
              [Clean(e.name, 0), MakeLink(e.body, e.name), Owner(e.name, e.uid, e.gid), Time(e.name, e.mtime)]
            else if e.mode / 0x1000 == 4 then
              [Clean(e.name, e.mode), MakeDir(e.name, e.mode), Owner(e.name, e.uid, e.gid), Mode(e.name, e.mode),
               DirTimeLater(e.name, e.mtime)]
            else if e.mode / 0x1000 in {1, 2, 6, 12} then
              [Clean(e.name, e.mode), MakeNode(e.name, e.mode, e.rmajor, e.rminor), Owner(e.name, e.uid, e.gid),
               Mode(e.name, e.mode), Time(e.name, e.mtime)]
            else [Clean(e.name, e.mode)]
  {
    assert [] + [Clean(e.name, e.mode)] == [Clean(e.name, e.mode)];
  }

  lemma ReplayOne(env: Env, t: Tree, e: Entry)
    ensures ReplayAll(env, t, [e]) == Replay(env, t, e)
  {
    ReplayNone(env, t);
    assert [e][..0] == [];
  }

  /** Two files that share device and inode, and say so: the second is a hard link to the first, which
      is tried again without being cut. */
  lemma HardLinked(env: Env, up: Caps, a: Entry, b: Entry, padding: nat)
    requires WellFormed(a) && WellFormed(b) && a.mode / 0x1000 == 8 && b.mode / 0x1000 == 8
    requires a.nlink >= 2 && b.nlink >= 2 && a.major == b.major && a.minor == b.minor && a.ino == b.ino
    ensures var first := Fold(env, Machine(Head([]), 0, map[], []), Archive(up, [a], padding));
            var both := Fold(env, Machine(Head([]), 0, map[], []), Archive(up, [a, b], padding));
            && first.Machine? && both.Machine?
            && var linked := first.trace + [Clean(b.name, b.mode), Clean(b.name, 0), HardLink(a.name, b.name)];
               var tried := linked + [Open(b.name, false, b.mode)];
               both.trace == if !env.linkOk(linked) then linked
                             else if !env.openOk(tried) then tried
                             else tried + [FileOwner(b.uid, b.gid), FileMode(b.mode)]
                                  + (if b.body == [] then [] else [FileSize(|b.body|), Write(b.body)])
                                  + [FileTime(b.mtime), Close]
  {
    hide Fold, Archive, ReplayAll, WellFormed, Replay;
    var start := Tree(map[], []);
    RoundTrip(env, up, [a], padding);
    RoundTrip(env, up, [a, b], padding);
    ReplayOne(env, start, a);
    ReplayTwo(env, start, a, b);
    ReplayLinks(env, start, a);
    ReplayJoined(env, Replay(env, start, a), a.name, b);
  }

  lemma ReplayTwo(env: Env, t: Tree, a: Entry, b: Entry)
    ensures ReplayAll(env, t, [a, b]) == Replay(env, Replay(env, t, a), b)
  {
    ReplayOne(env, t, a);
    assert [a, b][..1] == [a];
  }

  lemma ReplayLinks(env: Env, t: Tree, a: Entry)
    requires Fmt(a.mode) == REG && a.nlink >= 2 && KeyOf(a) !in t.links
    ensures Replay(env, t, a).links == t.links[KeyOf(a) := a.name]
  {
  }

  lemma ReplayJoined(env: Env, t: Tree, first: bytes, b: Entry)
    requires Fmt(b.mode) == REG && b.nlink >= 2 && KeyOf(b) in t.links && t.links[KeyOf(b)] == first
    ensures var linked := t.trace + [Clean(b.name, b.mode), Clean(b.name, 0), HardLink(first, b.name)];
            var tried := linked + [Open(b.name, false, b.mode)];
            Replay(env, t, b).trace == if !env.linkOk(linked) then linked
                                       else if !env.openOk(tried) then tried
                                       else tried + [FileOwner(b.uid, b.gid), FileMode(b.mode)]
                                            + (if b.body == [] then [] else [FileSize(|b.body|), Write(b.body)])
                                            + [FileTime(b.mtime), Close]
  {
    var c := t.trace + [Clean(b.name, b.mode)];
    assert c + [Clean(b.name, 0), HardLink(first, b.name)]
        == t.trace + [Clean(b.name, b.mode), Clean(b.name, 0), HardLink(first, b.name)];
  }

  /** Archives one behind the other are unpacked one after the other, if the first is padded to a
      multiple of four. */
  lemma TwoArchives(env: Env, up: Caps, es: seq<Entry>, padding: nat, up': Caps, es': seq<Entry>, padding': nat)
    requires forall k | 0 <= k < |es| :: WellFormed(es[k])
    requires forall k | 0 <= k < |es'| :: WellFormed(es'[k])
    requires |Archive(up, es, padding)| % 4 == 0
    ensures var a, b := Archive(up, es, padding), Archive(up', es', padding');
            var t := ReplayAll(env, Tree(map[], []), es);
            Fold(env, Machine(Head([]), 0, map[], []), a + b) ==
            Machine(Between, |a| + |b|, map[], ReplayAll(env, Tree(map[], t.trace), es').trace)
  {
    hide Fold, Archive, ReplayAll, WellFormed;
    var start, a := Machine(Head([]), 0, map[], []), Archive(up, es, padding);
    RoundTrip(env, up, es, padding);
    FoldConcat(env, start, a, Archive(up', es', padding'));
    ArchiveFolds(env, up', Fold(env, start, a), es', padding');
  }

  /** What follows an archive is an error, and is not unpacked, if and only if its first byte is not
      NUL and either is not the first digit of a header or does not stand at a multiple of four. */
  lemma BehindArchive(env: Env, up: Caps, es: seq<Entry>, padding: nat, b: byte, rest: bytes)
    requires b != 0 && forall k | 0 <= k < |es| :: WellFormed(es[k])
    ensures var a, trace := Archive(up, es, padding), ReplayAll(env, Tree(map[], []), es).trace;
            Fold(env, Machine(Head([]), 0, map[], []), a + [b] + rest) ==
            if b != '0' as int || |a| % 4 != 0 then Machine(Bad, |a|, map[], trace)
            else Fold(env, Machine(Head([]), |a|, map[], trace), [b] + rest)
  {
    hide Fold, Archive, ReplayAll, WellFormed;
    var start, a := Machine(Head([]), 0, map[], []), Archive(up, es, padding);
    RoundTrip(env, up, es, padding);
    var done := Fold(env, start, a);
    FoldSplit(env, start, a, [b], rest);
    FoldOne(env, done, b);
    if b != 48 || |a| % 4 != 0 {
      FoldStuck(env, done.(pos := Bad), rest);
    } else {
      FoldConcat(env, done.(pos := Head([])), [b], rest);
      FoldOne(env, done.(pos := Head([])), b);
      assert [] + [b] == [b];
    }
  }

  /** The unpacker itself, fed the archive in chunks of any sizes */
  method UnpackArchive(env: Env, chunks: seq<array<byte>>, ghost up: Caps, ghost es: seq<Entry>, ghost padding: nat)
    returns (u: CpioUnpacker.Unpacker)
    requires forall k | 0 <= k < |es| :: WellFormed(es[k])
    requires CpioUnpacker.Stream(chunks) == Archive(up, es, padding)
    requires forall k | 0 <= k < |chunks| :: chunks[k].Length < WORD
    ensures !u.message && u.trace == ReplayAll(env, Tree(map[], []), es).trace
    ensures u.Readable() && u.Abs() == Machine(Between, |Archive(up, es, padding)|, map[], u.trace)
  {
    RoundTrip(env, up, es, padding);
    u := new CpioUnpacker.Unpacker(env);
    u.Unpack(chunks);
  }
}
