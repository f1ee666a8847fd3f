/**
 The newc cpio format as init/initramfs.c reads it, one byte at a time: the
 reference the resumable state machine of CpioUnpacker.dfy is held against.
 */
module Cpio {
  import opened Options

  type byte = b: int | 0 <= b < 256

  const PATH_MAX: nat := 4096
  const HEADER_SIZE: nat := 110

  // S_IFMT >> 12 of the file types
  const FIFO: int := 1
  const CHR: int := 2
  const DIR: int := 4
  const BLK: int := 6
  const REG: int := 8
  const LNK: int := 10
  const SOCK: int := 12

  function Fmt(mode: int): int {
    mode / 4096
  }

  /** N_ALIGN: the name and its padding */
  function NAlign(len: nat): (r: nat)
    ensures r >= len && r >= 2 && (HEADER_SIZE + r) % 4 == 0 && r <= len + 3
  {
    (len + 1) / 4 * 4 + 2
  }

  function Align4(n: nat): (r: nat)
    ensures n <= r < n + 4 && r % 4 == 0
  {
    (n + 3) / 4 * 4
  }

  // ---------- The header ----------

  /** The fields of a header that are used; nameLen counts the NUL. */
  datatype Header = Header(
    ino: nat, mode: nat, uid: nat, gid: nat, nlink: nat, mtime: nat, bodyLen: nat,
    major: nat, minor: nat, rmajor: nat, rminor: nat, nameLen: nat)

  function Digit(b: byte): Option<nat> {
    if 48 <= b <= 57 then Some(b - 48)
    else if 97 <= b <= 102 then Some(b - 87)
    else if 65 <= b <= 70 then Some(b - 55)
    else None
  }

  /** The leading hexadecimal digits of s, after what was read so far. */
  function Digits(s: seq<byte>, acc: nat): nat {
    if s == [] || Digit(s[0]).None? then acc else Digits(s[1..], acc * 16 + Digit(s[0]).value)
  }

  /** simple_strtoul(s, NULL, 16), which also skips a 0x prefix */
  function StrToUl(s: seq<byte>): nat {
    if |s| >= 2 && s[0] == 48 && (s[1] == 120 || s[1] == 88) then Digits(s[2..], 0) else Digits(s, 0)
  }

  function Field(h: seq<byte>, i: nat): nat
    requires |h| == HEADER_SIZE && i < 12
  {
    StrToUl(h[6 + 8 * i..14 + 8 * i])
  }

  /** parse_header; mode is a 16-bit umode_t */
  function Parse(h: seq<byte>): Header
    requires |h| == HEADER_SIZE
  {
    Header(Field(h, 0), Field(h, 1) % 65536, Field(h, 2), Field(h, 3), Field(h, 4), Field(h, 5), Field(h, 6),
           Field(h, 7), Field(h, 8), Field(h, 9), Field(h, 10), Field(h, 11))
  }

  /** "070701" */
  const MAGIC: seq<byte> := [48, 55, 48, 55, 48, 49]

  /** The headers do_header sends on to the name or the symlink. The others are
      skipped with whatever next_state an earlier read left behind. */
  predicate GoodHeader(h: Header) {
    && 0 < h.nameLen <= PATH_MAX
    && (if Fmt(h.mode) == LNK then h.bodyLen <= PATH_MAX else Fmt(h.mode) == REG || h.bodyLen == 0)
  }

  // ---------- Effects on the file system ----------

  type bytes = seq<byte>

  datatype Effect =
    | Clean(path: bytes, mode: nat)
    | HardLink(first: bytes, path: bytes)
    | Open(path: bytes, truncate: bool, mode: nat)
    | FileOwner(uid: nat, gid: nat)
    | FileMode(mode: nat)
    | FileSize(size: nat)
    | Write(data: bytes)
    | FileTime(mtime: nat)
    | Close
    | MakeDir(path: bytes, mode: nat)
    | MakeNode(path: bytes, mode: nat, rmajor: nat, rminor: nat)
    | MakeLink(target: bytes, path: bytes)
    | Owner(path: bytes, uid: nat, gid: nat)
    | Mode(path: bytes, mode: nat)
    | Time(path: bytes, mtime: nat)
    | DirTimeLater(path: bytes, mtime: nat)

  /** Whether the file system grants an open or a link, given all effects so far. */
  datatype Env = Env(openOk: seq<Effect> -> bool, linkOk: seq<Effect> -> bool)

  /** Consecutive writes to the open file count as one. */
  function Logged(trace: seq<Effect>, data: bytes): seq<Effect> {
    if data == [] then trace
    else if trace != [] && trace[|trace| - 1].Write? then trace[..|trace| - 1] + [Write(trace[|trace| - 1].data + data)]
    else trace + [Write(data)]
  }

  lemma LoggedConcat(trace: seq<Effect>, a: bytes, b: bytes)
    ensures Logged(Logged(trace, a), b) == Logged(trace, a + b)
  {
    if a == [] {
      assert a + b == b;
    } else if b == [] {
      assert a + b == a;
    } else if trace != [] && trace[|trace| - 1].Write? {
      assert trace[|trace| - 1].data + a + b == trace[|trace| - 1].data + (a + b);
    }
  }

  // ---------- The reference machine ----------

  /** The key of the hard link table */
  datatype Key = Key(major: nat, minor: nat, ino: nat, fmt: int)

  datatype Pos =
    | Head(got: bytes)                             // reading a header
    | Name(h: Header, next: nat, got: bytes)       // reading a name and its padding
    | Link(h: Header, next: nat, got: bytes)       // reading a symlink's name and target
    | Copy(left: nat, mtime: nat, next: nat)       // copying a body
    | Skip(next: nat)                              // skipping to offset next
    | Between                                      // between entries
    | Bad                                          // an error was reported

  /** Lost: a header or name outside what the format allows was met. */
  datatype Machine = Lost | Machine(pos: Pos, offset: nat, links: map<Key, bytes>, trace: seq<Effect>)

  function Skipping(m: Machine, next: nat): Machine
    requires m.Machine?
  {
    m.(pos := if m.offset < next then Skip(next) else Between)
  }

  function Finished(m: Machine, mtime: nat, next: nat): Machine
    requires m.Machine?
  {
    Skipping(m.(trace := m.trace + [FileTime(mtime), Close]), next)
  }

  function Copying(m: Machine, left: nat, mtime: nat, next: nat): Machine
    requires m.Machine?
  {
    if left == 0 then Finished(m, mtime, next) else m.(pos := Copy(left, mtime, next))
  }

  function CString(s: bytes): (r: bytes)
    ensures |r| <= |s| && 0 !in r && s[..|r|] == r && (0 in s ==> |r| < |s| && s[|r|] == 0)
  {
    if s == [] || s[0] == 0 then [] else [s[0]] + CString(s[1..])
  }

  lemma {:induction false} CStringStops(raw: bytes, after: bytes)
    ensures 0 in raw ==> CString(raw + after) == CString(raw)
    ensures 0 !in raw ==> CString(raw + after) == raw + CString(after)
  {
    if raw == [] {
      assert [] + after == after;
    } else {
      assert (raw + after)[1..] == raw[1..] + after;
      CStringStops(raw[1..], after);
      assert raw == [raw[0]] + raw[1..];
    }
  }

  const TRAILER: bytes := [84, 82, 65, 73, 76, 69, 82, 33, 33, 33]

  datatype Linked = NotLinked | Joined | Refused

  /** maybe_link */
  function MaybeLink(env: Env, m: Machine, h: Header, name: bytes): (Linked, Machine)
    requires m.Machine?
  {
    var key := Key(h.major, h.minor, h.ino, Fmt(h.mode));
    if h.nlink < 2 then (NotLinked, m)
    else if key in m.links then
      var trace := m.trace + [Clean(name, 0), HardLink(m.links[key], name)];
      (if env.linkOk(trace) then Joined else Refused, m.(trace := trace))
    else (NotLinked, m.(links := m.links[key := name]))
  }

  /** A regular file is created, or joined to an earlier one and opened again. */
  function GotFile(env: Env, m: Machine, h: Header, next: nat, name: bytes): Machine
    requires m.Machine?
  {
    var (ml, l) := MaybeLink(env, m, h, name);
    if ml == Refused then Skipping(l, next)
    else
      var trace := l.trace + [Open(name, ml != Joined, h.mode)];
      if !env.openOk(trace) then Skipping(l.(trace := trace), next)
      else
        var made := trace + [FileOwner(h.uid, h.gid), FileMode(h.mode)] + (if h.bodyLen > 0 then [FileSize(h.bodyLen)] else []);
        Copying(l.(trace := made), h.bodyLen, h.mtime, next)
  }

  predicate IsNode(mode: nat) {
    Fmt(mode) == BLK || Fmt(mode) == CHR || Fmt(mode) == FIFO || Fmt(mode) == SOCK
  }

  function GotDir(m: Machine, h: Header, next: nat, name: bytes): Machine
    requires m.Machine?
  {
    Skipping(m.(trace := m.trace + [MakeDir(name, h.mode), Owner(name, h.uid, h.gid), Mode(name, h.mode),
                                    DirTimeLater(name, h.mtime)]), next)
  }

  function GotNode(env: Env, m: Machine, h: Header, next: nat, name: bytes): Machine
    requires m.Machine?
  {
    var (ml, l) := MaybeLink(env, m, h, name);
    if ml != NotLinked then Skipping(l, next)
    else
      Skipping(l.(trace := l.trace + [MakeNode(name, h.mode, h.rmajor, h.rminor), Owner(name, h.uid, h.gid),
                                      Mode(name, h.mode), Time(name, h.mtime)]), next)
  }

  /** do_name */
  function Named(env: Env, m: Machine, h: Header, next: nat, name: bytes): Machine
    requires m.Machine?
  {
    if name == TRAILER then Skipping(m.(links := map[]), next)
    else
      var c := m.(trace := m.trace + [Clean(name, h.mode)]);
      if Fmt(h.mode) == REG then GotFile(env, c, h, next, name)
      else if Fmt(h.mode) == DIR then GotDir(c, h, next, name)
      else if IsNode(h.mode) then GotNode(env, c, h, next, name)
      else Skipping(c, next)
  }

  /** The format wants a NUL among the bytes of a name. */
  function GotName(env: Env, m: Machine, h: Header, next: nat, raw: bytes): Machine
    requires m.Machine?
  {
    if 0 !in raw then Lost else Named(env, m, h, next, CString(raw))
  }

  /** The name shows in the effects: a path is cleaned first of all. */
  lemma NamedShows(env: Env, m: Machine, h: Header, next: nat, name: bytes)
    requires m.Machine?
    ensures var r := Named(env, m, h, next, name);
            && r.Machine?
            && (name == TRAILER ==> r.trace == m.trace)
            && (name != TRAILER ==> |r.trace| > |m.trace| && r.trace[|m.trace|] == Clean(name, h.mode))
  {
    hide Fmt, IsNode;
  }

  /** do_symlink */
  function GotSymlink(m: Machine, h: Header, next: nat, raw: bytes): Machine
    requires m.Machine? && |raw| == NAlign(h.nameLen) + h.bodyLen
  {
    var name, target := CString(raw), CString(raw[NAlign(h.nameLen)..]);
    Skipping(m.(trace := m.trace + [Clean(name, 0), MakeLink(target, name), Owner(name, h.uid, h.gid), Time(name, h.mtime)]),
             next)
  }

  /** do_header, with the whole header read */
  function GotHeader(m: Machine, raw: bytes): Machine
    requires m.Machine? && |raw| == HEADER_SIZE
  {
    if raw[..6] != MAGIC then m.(pos := Bad)
    else
      var h := Parse(raw);
      if !GoodHeader(h) then Lost
      else
        var next := Align4(m.offset + NAlign(h.nameLen) + h.bodyLen);
        m.(pos := if Fmt(h.mode) == LNK then Link(h, next, []) else Name(h, next, []))
  }

  lemma HeaderCases(m: Machine, raw: bytes)
    requires m.Machine? && |raw| == HEADER_SIZE
    ensures raw[..6] != MAGIC ==> GotHeader(m, raw) == m.(pos := Bad)
    ensures raw[..6] == MAGIC && GoodHeader(Parse(raw)) ==>
              (var h := Parse(raw);
               var next := Align4(m.offset + NAlign(h.nameLen) + h.bodyLen);
               GotHeader(m, raw) == m.(pos := if Fmt(h.mode) == LNK then Link(h, next, []) else Name(h, next, [])))
  {
  }

  /** How many bytes a position collects before it acts. */
  function Wanted(p: Pos): nat
    requires p.Head? || p.Name? || p.Link?
  {
    match p
    case Head(_) => HEADER_SIZE
    case Name(h, _, _) => NAlign(h.nameLen)
    case Link(h, _, _) => NAlign(h.nameLen) + h.bodyLen
  }

  /** A position with all it wanted acts at once. */
  function Acted(env: Env, m: Machine): (r: Machine)
    requires m.Machine? && (m.pos.Head? || m.pos.Name? || m.pos.Link?)
  {
    if |m.pos.got| != Wanted(m.pos) then m
    else
      var acting := m.(pos := Between);
      match m.pos
      case Head(got) => GotHeader(acting, got)
      case Name(h, next, got) => GotName(env, acting, h, next, got)
      case Link(h, next, got) => GotSymlink(acting, h, next, got)
  }

  /** One byte of the stream. */
  function Step(env: Env, m: Machine, b: byte): Machine {
    if m.Lost? then Lost
    else
      var n := m.(offset := m.offset + 1);
      match m.pos
      case Head(got) => Acted(env, n.(pos := Head(got + [b])))
      case Name(h, next, got) => Acted(env, n.(pos := Name(h, next, got + [b])))
      case Link(h, next, got) => Acted(env, n.(pos := Link(h, next, got + [b])))
      case Copy(left, mtime, next) => if left == 0 then m else Copying(n.(trace := Logged(m.trace, [b])), left - 1, mtime, next)
      case Skip(next) => Skipping(n, next)
      case Between =>
        if b == 0 then n
        else if m.offset % 4 != 0 || b != 48 then m.(pos := Bad)
        else n.(pos := Head([b]))
      case Bad => m
  }

  function Fold(env: Env, m: Machine, s: bytes): Machine {
    if s == [] then m else Step(env, Fold(env, m, s[..|s| - 1]), s[|s| - 1])
  }

  lemma {:induction false} FoldConcat(env: Env, m: Machine, a: bytes, b: bytes)
    ensures Fold(env, m, a + b) == Fold(env, Fold(env, m, a), b)
  {
    if b == [] {
      assert a + b == a;
    } else {
      assert (a + b)[..|a + b| - 1] == a + b[..|b| - 1];
      FoldConcat(env, m, a, b[..|b| - 1]);
    }
  }

  lemma FoldNone(env: Env, m: Machine)
    ensures Fold(env, m, []) == m
  {
  }

  lemma FoldOne(env: Env, m: Machine, b: byte)
    ensures Fold(env, m, [b]) == Step(env, m, b)
  {
    assert [b][..0] == [];
  }

  lemma {:induction false} FoldStuck(env: Env, m: Machine, s: bytes)
    requires m.Lost? || m.pos.Bad?
    ensures Fold(env, m, s) == m
  {
    if s != [] {
      FoldStuck(env, m, s[..|s| - 1]);
    }
  }

  function WithGot(p: Pos, got: bytes): Pos
    requires p.Head? || p.Name? || p.Link?
  {
    match p
    case Head(_) => Head(got)
    case Name(h, next, _) => Name(h, next, got)
    case Link(h, next, _) => Link(h, next, got)
  }

  ghost predicate Collecting(m: Machine) {
    m.Machine? && (m.pos.Head? || m.pos.Name? || m.pos.Link?) && |m.pos.got| < Wanted(m.pos)
  }

  function Grown(m: Machine, s: bytes): Machine
    requires m.Machine? && (m.pos.Head? || m.pos.Name? || m.pos.Link?)
  {
    m.(pos := WithGot(m.pos, m.pos.got + s), offset := m.offset + |s|)
  }

  lemma StepCollect(env: Env, m: Machine, b: byte)
    requires Collecting(m)
    ensures Wanted(Grown(m, [b]).pos) == Wanted(m.pos) && |Grown(m, [b]).pos.got| == |m.pos.got| + 1 <= Wanted(m.pos)
    ensures Step(env, m, b) == Acted(env, Grown(m, [b]))
  {
    hide GotHeader, GotName, GotSymlink, Copying, Skipping, Acted;
  }

  lemma GrownMore(env: Env, m: Machine, s: bytes, b: byte)
    requires Collecting(m) && |m.pos.got| + |s| < Wanted(m.pos)
    ensures Collecting(Grown(m, s)) && Acted(env, Grown(m, s)) == Grown(m, s)
    ensures Grown(Grown(m, s), [b]) == Grown(m, s + [b])
    ensures Wanted(Grown(m, s).pos) == Wanted(m.pos)
  {
    hide GotHeader, GotName, GotSymlink;
    assert m.pos.got + s + [b] == m.pos.got + (s + [b]);
  }

  /** Several bytes at once, while a position collects. */
  lemma {:induction false} FoldCollect(env: Env, m: Machine, s: bytes)
    requires Collecting(m) && |m.pos.got| + |s| <= Wanted(m.pos)
    ensures s == [] ==> Fold(env, m, s) == m
    ensures s != [] ==> |Grown(m, s).pos.got| <= Wanted(Grown(m, s).pos) && Fold(env, m, s) == Acted(env, Grown(m, s))
  {
    hide Step, Acted;
    if s != [] {
      var init, b := s[..|s| - 1], s[|s| - 1];
      FoldCollect(env, m, init);
      GrownMore(env, m, init, b);
      assert init + [b] == s;
      if init == [] {
        GrownNone(m);
      }
      StepCollect(env, Grown(m, init), b);
    }
  }

  lemma GrownNone(m: Machine)
    requires m.Machine? && (m.pos.Head? || m.pos.Name? || m.pos.Link?)
    ensures Grown(m, []) == m
  {
    assert m.pos.got + [] == m.pos.got;
  }

  lemma {:induction false} FoldCopy(env: Env, m: Machine, s: bytes)
    requires m.Machine? && m.pos.Copy? && m.pos.left > 0 && |s| <= m.pos.left
    ensures Fold(env, m, s) ==
            Copying(m.(trace := Logged(m.trace, s), offset := m.offset + |s|), m.pos.left - |s|, m.pos.mtime, m.pos.next)
  {
    hide Logged, Acted;
    if s == [] {
      LoggedNone(m.trace);
    } else {
      var init, b := s[..|s| - 1], s[|s| - 1];
      FoldCopy(env, m, init);
      LoggedConcat(m.trace, init, [b]);
      assert init + [b] == s;
    }
  }

  lemma LoggedNone(trace: seq<Effect>)
    ensures Logged(trace, []) == trace
  {
  }

  lemma {:induction false} FoldSkip(env: Env, m: Machine, s: bytes)
    requires m.Machine? && m.pos.Skip? && m.offset < m.pos.next && m.offset + |s| <= m.pos.next
    ensures Fold(env, m, s) == Skipping(m.(offset := m.offset + |s|), m.pos.next)
  {
    if s != [] {
      FoldSkip(env, m, s[..|s| - 1]);
    }
  }
}
