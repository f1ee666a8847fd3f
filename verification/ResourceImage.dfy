/**
 The resource image of scripts/resource_tool.c: a header block, one block for each index
 entry, then the contents, each from the start of a block. Reading and writing the
 image file succeeds wherever the file is long enough.
 */
module ResourceImage {
  import opened ResourceOrder
  import opened Options
  import ShaStream

  const BLOCK: nat := 512
  const M32: nat := 0x1_0000_0000
  const MAGIC: seq<byte> := [82, 83, 67, 69]  // "RSCE"
  const TAG: seq<byte> := [69, 78, 84, 82]    // "ENTR"
  // "rk-kernel.dtb"
  const FDT_PATH: seq<byte> := [114, 107, 45, 107, 101, 114, 110, 101, 108, 46, 100, 116, 98]

  function Zeros(n: nat): (s: seq<byte>)
    ensures |s| == n && forall k | 0 <= k < n :: s[k] == 0
  {
    seq(n, _ => 0)
  }

  // The image file

  /** fseek and fwrite: the file grows as needed, and a gap reads as zeros. */
  function WriteAt(img: seq<byte>, at: nat, data: seq<byte>): seq<byte> {
    var base := if |img| < at then img + Zeros(at - |img|) else img;
    base[..at] + data + if at + |data| < |base| then base[at + |data|..] else []
  }

  predicate At(img: seq<byte>, at: nat, data: seq<byte>) {
    at + |data| <= |img| && img[at..at + |data|] == data
  }

  lemma WriteAtPuts(img: seq<byte>, at: nat, data: seq<byte>)
    ensures At(WriteAt(img, at, data), at, data)
  {
  }

  lemma WriteAtKeeps(img: seq<byte>, at: nat, data: seq<byte>, other: nat, kept: seq<byte>)
    requires At(img, other, kept)
    requires other + |kept| <= at || at + |data| <= other
    ensures At(WriteAt(img, at, data), other, kept)
  {
    var out := WriteAt(img, at, data);
    assert forall k | other <= k < other + |kept| :: out[k] == img[k];
    assert out[other..other + |kept|] == img[other..other + |kept|];
  }

  lemma WriteAtTwice(img: seq<byte>, at: nat, a: seq<byte>, b: seq<byte>)
    ensures WriteAt(WriteAt(img, at, a), at + |a|, b) == WriteAt(img, at, a + b)
  {
  }

  lemma AtPart(img: seq<byte>, at: nat, data: seq<byte>, i: nat, j: nat)
    requires At(img, at, data) && i <= j <= |data|
    ensures at + j <= |img| && img[at + i..at + j] == data[i..j]
  {
    var part := img[at + i..at + j];
    forall k | 0 <= k < |part|
      ensures part[k] == data[i..j][k]
    {
      assert part[k] == img[at + (i + k)] == img[at..at + |data|][i + k];
    }
    assert part == data[i..j];
  }

  /** fix_blocks */
  function Blocks(size: nat): nat {
    (size + BLOCK - 1) / BLOCK
  }

  /** The data up to the end of its last block */
  function Padded(data: seq<byte>): (s: seq<byte>)
    ensures |s| == BLOCK * Blocks(|data|) && |data| <= |s|
  {
    data + Zeros(BLOCK * Blocks(|data|) - |data|)
  }

  // What is stored

  /** uint16_t and uint32_t, least significant byte first. fix_header and fix_entry see to that on
      any host for the numbers they name; hash_size is stored as the host has it, so the
      host is little-endian here. */
  function Le16(n: nat): (s: seq<byte>)
    ensures |s| == 2
  {
    [n % 256, n / 256 % 256]
  }

  function Le32(n: nat): (s: seq<byte>)
    ensures |s| == 4
  {
    Le16(n) + Le16(n / 0x1_0000)
  }

  function FromLe16(s: seq<byte>): (n: nat)
    requires |s| == 2
    ensures n < 0x1_0000
  {
    var low: int, high: int := s[0], s[1];
    low + 256 * high
  }

  function FromLe32(s: seq<byte>): (n: nat)
    requires |s| == 4
    ensures n < M32
  {
    FromLe16(s[..2]) + 0x1_0000 * FromLe16(s[2..])
  }

  lemma Le16Back(n: nat)
    requires n < 0x1_0000
    ensures FromLe16(Le16(n)) == n
  {
  }

  lemma Le32Back(n: nat)
    requires n < M32
    ensures FromLe32(Le32(n)) == n
  {
    hide FromLe16, Le16;
    Le16Back(n % 0x1_0000);
    Le16Back(n / 0x1_0000);
    Le16Cuts(n);
    assert Le32(n)[..2] == Le16(n) && Le32(n)[2..] == Le16(n / 0x1_0000);
  }

  lemma Le16Cuts(n: nat)
    ensures Le16(n) == Le16(n % 0x1_0000)
  {
    assert n % 0x1_0000 % 256 == n % 256;
    assert n % 0x1_0000 / 256 % 256 == n / 256 % 256;
  }

  /** resource_ptn_header as write_header fills it; the static variable's padding is zero. */
  function HeaderBytes(num: nat): (s: seq<byte>)
    ensures |s| == 16
  {
    MAGIC + Le16(0) + Le16(0) + [1, 1, 1, 0] + Le32(num)
  }

  /** The path field: snprintf cuts at 219 characters. */
  function Short(path: seq<byte>): (s: seq<byte>)
    ensures |s| <= 219
  {
    if |path| <= 219 then path else path[..219]
  }

  function PathField(path: seq<byte>): (s: seq<byte>)
    ensures |s| == 220
  {
    Short(path) + Zeros(220 - |Short(path)|)
  }

  /** A C string in a field */
  function CString(field: seq<byte>): (s: seq<byte>) {
    if field == [] || field[0] == 0 then [] else [field[0]] + CString(field[1..])
  }

  predicate NoNul(s: seq<byte>) {
    forall k | 0 <= k < |s| :: s[k] != 0
  }

  lemma {:induction false} CStringOf(s: seq<byte>, n: nat)
    requires NoNul(s) && n > 0
    ensures CString(s + Zeros(n)) == s
  {
    var field := s + Zeros(n);
    if s != [] {
      assert field[1..] == s[1..] + Zeros(n);
      CStringOf(s[1..], n);
    }
  }

  lemma PathBack(path: seq<byte>)
    requires NoNul(path)
    ensures CString(PathField(path)) == Short(path)
  {
    CStringOf(Short(path), 220 - |Short(path)|);
  }

  /** index_tbl_entry; junk is what the unused end of its hash field happens to hold. */
  function EntryBytes(path: seq<byte>, hash: seq<byte>, junk: seq<byte>, offset: nat, size: nat): (s: seq<byte>)
    requires |hash| == 20 && |junk| == 12
    ensures |s| == 268
  {
    TAG + PathField(path) + hash + junk + Le32(20) + Le32(offset) + Le32(size)
  }

  /** The bytes of the words of the header and of the entries, and their tags */
  lemma LittleEndian(n: nat)
    ensures Le32(n) == [n % 0x100, n / 0x100 % 0x100, n / 0x1_0000 % 0x100, n / 0x100_0000 % 0x100]
    ensures |MAGIC| == |TAG| == 4 && forall k | 0 <= k < 4 :: MAGIC[k] == "RSCE"[k] as int && TAG[k] == "ENTR"[k] as int
  {
  }

  lemma HeaderParts(num: nat)
    ensures var s := Padded(HeaderBytes(num));
            && |s| == 512 && s[..4] == MAGIC && s[4..6] == Le16(0) && s[6..8] == Le16(0)
            && s[8] == 1 && s[9] == 1 && s[10] == 1 && s[11] == 0 && s[12..16] == Le32(num)
            && (forall k | 16 <= k < 512 :: s[k] == 0)
  {
    hide Le16, Le32;
  }

  lemma EntryParts(path: seq<byte>, hash: seq<byte>, junk: seq<byte>, offset: nat, size: nat)
    requires |hash| == 20 && |junk| == 12
    ensures var s := Padded(EntryBytes(path, hash, junk, offset, size));
            && |s| == 512 && s[..4] == TAG && s[4..224] == PathField(path) && s[224..244] == hash
            && s[244..256] == junk && s[256..260] == Le32(20) && s[260..264] == Le32(offset) && s[264..268] == Le32(size)
  {
    hide Le32, PathField;
  }

  // The image of a list of files

  /** The first block of the content of file i: behind the header, the index and the contents
      before it */
  function OffsetOf(files: seq<File>, i: nat): (n: nat)
    requires i <= |files|
    ensures n >= 1 + |files|
  {
    if i == 0 then 1 + |files| else OffsetOf(files, i - 1) + Blocks(|files[i - 1].data|)
  }

  /** The blocks of the header, of the index entries and of the contents do not meet. */
  lemma {:induction false} Apart(files: seq<File>, i: nat, j: nat)
    requires i < j <= |files|
    ensures 0 < 1 + i < 1 + j <= 1 + |files| <= OffsetOf(files, i)
    ensures OffsetOf(files, i) + Blocks(|files[i].data|) <= OffsetOf(files, j)
  {
    if i + 1 < j {
      Apart(files, i, j - 1);
    }
  }

  /** The image root, if the path starts with it, and a slash after it are left out. */
  function StripRoot(path: seq<byte>, root: seq<byte>): seq<byte> {
    if root != [] && root <= path then
      var rest := path[|root|..];
      if rest != [] && rest[0] == 47 then rest[1..] else rest
    else path
  }

  predicate FoundFdt(files: seq<File>, i: nat)
    requires i <= |files|
  {
    i > 0 && (FoundFdt(files, i - 1) || IsDtb(files[i - 1].path))
  }

  /** The path an entry is stored under: the first device tree gets the kernel's. */
  function StoredPath(files: seq<File>, root: seq<byte>, i: nat): seq<byte>
    requires i < |files|
  {
    if IsDtb(files[i].path) && !FoundFdt(files, i) then FDT_PATH else FixPath(StripRoot(files[i].path, root))
  }

  predicate EndsInDtb(path: seq<byte>) {
    |path| >= 4 && path[|path| - 4] == '.' as int && path[|path| - 3] == 'd' as int
    && path[|path| - 2] == 't' as int && path[|path| - 1] == 'b' as int
  }

  predicate DotSlash(path: seq<byte>) {
    |path| >= 2 && path[0] == '.' as int && path[1] == '/' as int
  }

  lemma {:induction false} FirstTree(files: seq<File>, i: nat)
    requires i <= |files|
    ensures FoundFdt(files, i) <==> exists j | 0 <= j < i :: EndsInDtb(files[j].path)
  {
    hide IsDtb, EndsInDtb;
    if i > 0 {
      FirstTree(files, i - 1);
      DtbForms(files[i - 1].path);
      if EndsInDtb(files[i - 1].path) {
        assert FoundFdt(files, i);
      } else if FoundFdt(files, i - 1) {
        var j :| 0 <= j < i - 1 && EndsInDtb(files[j].path);
      }
    }
  }

  /** What is stored for file i: "rk-kernel.dtb" for the first device tree; for all others, what
      follows the image root, or the whole path if it does not start with the root, less one slash
      behind the root and less a leading "./". */
  lemma StoredPaths(files: seq<File>, root: seq<byte>, i: nat, rest: seq<byte>)
    requires i < |files|
    ensures var path, stored := files[i].path, StoredPath(files, root, i);
            var renamed := EndsInDtb(path) && forall j | 0 <= j < i :: !EndsInDtb(files[j].path);
            && (renamed ==> |stored| == 13 && forall k | 0 <= k < 13 :: stored[k] == "rk-kernel.dtb"[k] as int)
            && (!renamed && !DotSlash(rest) ==>
                  && (root != [] && path == root + ['/' as int] + rest ==> stored == rest)
                  && (root != [] && path == root + ['/' as int] + ['.' as int, '/' as int] + rest ==> stored == rest)
                  && (root != [] && path == root + rest && (rest == [] || rest[0] != '/' as int) ==> stored == rest)
                  && (!(root != [] && root <= path) && path == rest ==> stored == rest)
                  && (!(root != [] && root <= path) && path == ['.' as int, '/' as int] + rest ==> stored == rest))
  {
    hide IsDtb, FoundFdt, EndsInDtb, FixPath, StripRoot;
    FirstTree(files, i);
    DtbForms(files[i].path);
    Fixed(rest);
    Stripped(root, rest);
    Stripped(root, ['.' as int, '/' as int] + rest);
    assert root + ['/' as int] + ['.' as int, '/' as int] + rest == root + ['/' as int] + (['.' as int, '/' as int] + rest);
    OutsideRoot(files[i].path, root);
  }

  lemma DtbForms(path: seq<byte>)
    ensures IsDtb(path) <==> EndsInDtb(path)
  {
    if |path| >= 4 {
      assert path[|path| - 4..] == [path[|path| - 4], path[|path| - 3], path[|path| - 2], path[|path| - 1]];
    }
  }

  lemma Fixed(rest: seq<byte>)
    ensures !DotSlash(rest) ==> FixPath(rest) == rest
    ensures FixPath(['.' as int, '/' as int] + rest) == rest
  {
    if |rest| >= 2 {
      assert rest[..2] == [rest[0], rest[1]];
    }
    assert (['.' as int, '/' as int] + rest)[..2] == DOT_SLASH;
  }

  lemma Stripped(root: seq<byte>, rest: seq<byte>)
    ensures root != [] ==> StripRoot(root + ['/' as int] + rest, root) == rest
    ensures root != [] && (rest == [] || rest[0] != '/' as int) ==> StripRoot(root + rest, root) == rest
  {
    assert (root + ['/' as int] + rest)[|root|..] == ['/' as int] + rest;
    assert (root + rest)[|root|..] == rest;
    assert root <= root + ['/' as int] + rest;
  }

  lemma OutsideRoot(path: seq<byte>, root: seq<byte>)
    ensures !(root != [] && root <= path) ==> StripRoot(path, root) == path
  {
  }

  function Bits(s: seq<byte>): seq<bv8> {
    seq(|s|, i requires 0 <= i < |s| => s[i] as bv8)
  }

  function Chars(s: seq<bv8>): (r: seq<byte>)
    ensures |r| == |s|
  {
    seq(|s|, i requires 0 <= i < |s| => s[i] as int)
  }

  lemma {:induction false} Sha1Kind(data: seq<bv8>)
    requires |data| % 64 == 0
    ensures ShaStream.HashBlocks(ShaStream.SHA1, data).H1?
    decreases |data|
  {
    if |data| > 0 {
      Sha1Kind(data[..|data| - 64]);
    }
  }

  function Sha1Of(data: seq<byte>): (h: seq<byte>)
    ensures |h| == 20
  {
    Sha1Kind(ShaStream.Pad(Bits(data)));
    Chars(ShaStream.Sha(ShaStream.SHA1, Bits(data)))
  }

  function Entry(files: seq<File>, root: seq<byte>, junk: seq<byte>, i: nat): (s: seq<byte>)
    requires i < |files| && |junk| == 12
    ensures |s| == 268
  {
    EntryBytes(StoredPath(files, root, i), Sha1Of(files[i].data), junk, OffsetOf(files, i), |files[i].data|)
  }

  predicate Stored(img: seq<byte>, files: seq<File>, root: seq<byte>, junk: seq<byte>, i: nat)
    requires i < |files| && |junk| == 12
  {
    && At(img, BLOCK * (1 + i), Padded(Entry(files, root, junk, i)))
    && At(img, BLOCK * OffsetOf(files, i), Padded(files[i].data))
  }

  /** The header and the first n files are in the image. */
  ghost predicate Written(img: seq<byte>, files: seq<File>, root: seq<byte>, junk: seq<byte>, n: nat)
    requires n <= |files| && |junk| == 12
  {
    && At(img, 0, Padded(HeaderBytes(|files|)))
    && forall i | 0 <= i < n :: Stored(img, files, root, junk, i)
  }

  lemma Sizes(files: seq<File>, root: seq<byte>, junk: seq<byte>, i: nat)
    requires i < |files| && |junk| == 12
    ensures |Padded(Entry(files, root, junk, i))| == BLOCK
    ensures |Padded(files[i].data)| == BLOCK * Blocks(|files[i].data|)
    ensures |Padded(HeaderBytes(|files|))| == BLOCK
  {
    hide Entry, HeaderBytes, Padded;
  }

  /** Writing the content and the entry of file n leaves everything before in place. */
  lemma WrittenNext(img: seq<byte>, files: seq<File>, root: seq<byte>, junk: seq<byte>, n: nat)
    requires n < |files| && |junk| == 12 && Written(img, files, root, junk, n)
    ensures var mid := WriteAt(img, BLOCK * OffsetOf(files, n), Padded(files[n].data));
            Written(WriteAt(mid, BLOCK * (1 + n), Padded(Entry(files, root, junk, n))), files, root, junk, n + 1)
  {
    hide WriteAt, At, Padded, Entry, OffsetOf;
    var at, data := BLOCK * OffsetOf(files, n), Padded(files[n].data);
    var slot, entry := BLOCK * (1 + n), Padded(Entry(files, root, junk, n));
    var mid := WriteAt(img, at, data);
    var out := WriteAt(mid, slot, entry);
    Sizes(files, root, junk, n);
    WriteAtKeeps(img, at, data, 0, Padded(HeaderBytes(|files|)));
    WriteAtKeeps(mid, slot, entry, 0, Padded(HeaderBytes(|files|)));
    WriteAtPuts(img, at, data);
    WriteAtKeeps(mid, slot, entry, at, data);
    WriteAtPuts(mid, slot, entry);
    forall i | 0 <= i < n
      ensures Stored(out, files, root, junk, i)
    {
      Apart(files, i, n);
      Sizes(files, root, junk, i);
      assert Stored(img, files, root, junk, i);
      WriteAtKeeps(img, at, data, BLOCK * (1 + i), Padded(Entry(files, root, junk, i)));
      WriteAtKeeps(mid, slot, entry, BLOCK * (1 + i), Padded(Entry(files, root, junk, i)));
      WriteAtKeeps(img, at, data, BLOCK * OffsetOf(files, i), Padded(files[i].data));
      WriteAtKeeps(mid, slot, entry, BLOCK * OffsetOf(files, i), Padded(files[i].data));
    }
  }

  lemma Cut(data: seq<byte>)
    ensures var blocks, left := |data| / BLOCK, |data| % BLOCK;
            var whole := data[..BLOCK * blocks];
            && |whole| == BLOCK * blocks
            && (left == 0 ==> Padded(data) == whole)
            && (left != 0 ==> Padded(data) == whole + (data[BLOCK * blocks..] + Zeros(BLOCK - left)))
  {
  }

  lemma OffsetStart(files: seq<File>)
    ensures OffsetOf(files, 0) == 1 + |files|
  {
  }

  lemma {:induction false} OffsetNext(files: seq<File>, i: nat)
    requires i < |files| && BLOCK * OffsetOf(files, |files|) < 0x8000_0000
    ensures OffsetOf(files, i + 1) == OffsetOf(files, i) + Blocks(|files[i].data|)
    ensures |files[i].data| < 0x8000_0000 && BLOCK * OffsetOf(files, i) < 0x8000_0000
  {
    Apart(files, i, |files|);
  }

  lemma EntryIs(files: seq<File>, root: seq<byte>, junk: seq<byte>, i: nat)
    requires i < |files| && |junk| == 12
    ensures Entry(files, root, junk, i)
            == EntryBytes(StoredPath(files, root, i), Sha1Of(files[i].data), junk, OffsetOf(files, i), |files[i].data|)
  {
  }

  predicate NoneEmpty(files: seq<File>) {
    forall k | 0 <= k < |files| :: files[k].data != []
  }

  /** What unpacking recovers: the stored paths, cut to their field, with the contents */
  function Recovered(files: seq<File>, root: seq<byte>): (r: seq<File>)
    ensures |r| == |files|
  {
    seq(|files|, i requires 0 <= i < |files| => File(Short(StoredPath(files, root, i)), files[i].data))
  }

  function TotalBlocks(s: seq<File>): nat {
    if s == [] then 0 else Blocks(|s[0].data|) + TotalBlocks(s[1..])
  }

  /** offset and size are those of the first file stored under the path. */
  predicate IsFirst(files: seq<File>, root: seq<byte>, path: seq<byte>, offset: nat, size: nat) {
    exists i | 0 <= i < |files| ::
      && Short(StoredPath(files, root, i)) == path
      && offset == OffsetOf(files, i) && size == |files[i].data|
      && forall k | 0 <= k < i :: Short(StoredPath(files, root, k)) != path
  }

  /** Paths are C strings. */
  predicate CStrings(files: seq<File>) {
    forall k | 0 <= k < |files| :: NoNul(files[k].path)
  }

  lemma {:induction false} TotalSplit(s: seq<File>, n: nat)
    requires n <= |s|
    ensures TotalBlocks(s) == TotalBlocks(s[..n]) + TotalBlocks(s[n..])
  {
    if n > 0 {
      TotalSplit(s[1..], n - 1);
      assert s[..n][1..] == s[1..][..n - 1];
    } else {
      assert s[0..] == s;
    }
  }

  /** The total does not depend on the order. */
  lemma {:induction false} SameTotal(a: seq<File>, b: seq<File>)
    requires multiset(a) == multiset(b)
    ensures TotalBlocks(a) == TotalBlocks(b)
  {
    if a == [] {
      assert |multiset(b)| == 0;
    } else {
      var k := Twin(a, b);
      SameTotal(a[1..], b[..k] + b[k + 1..]);
      TotalWithout(b, k);
    }
  }

  lemma Twin(a: seq<File>, b: seq<File>) returns (k: nat)
    requires a != [] && multiset(a) == multiset(b)
    ensures k < |b| && b[k] == a[0] && multiset(a[1..]) == multiset(b[..k] + b[k + 1..])
  {
    assert a[0] in multiset(b);
    k :| 0 <= k < |b| && b[k] == a[0];
    var rest := b[..k] + b[k + 1..];
    assert a == [a[0]] + a[1..] && b == b[..k] + ([b[k]] + b[k + 1..]);
    assert multiset(rest) == multiset(b[..k]) + multiset(b[k + 1..]);
    assert multiset(a[1..]) == multiset(a) - multiset{a[0]};
    assert multiset(rest) == multiset(b) - multiset{b[k]};
  }

  lemma TotalWithout(b: seq<File>, k: nat)
    requires k < |b|
    ensures TotalBlocks(b) == Blocks(|b[k].data|) + TotalBlocks(b[..k] + b[k + 1..])
  {
    var rest := b[..k] + b[k + 1..];
    TotalSplit(b, k);
    TotalSplit(rest, k);
    assert rest[..k] == b[..k] && rest[k..] == b[k + 1..];
    assert b[k..][1..] == b[k + 1..];
  }

  lemma {:induction false} OffsetTotal(files: seq<File>, i: nat)
    requires i <= |files|
    ensures OffsetOf(files, i) == 1 + |files| + TotalBlocks(files[..i])
  {
    if i > 0 {
      OffsetTotal(files, i - 1);
      TotalSplit(files[..i], i - 1);
      assert files[..i][..i - 1] == files[..i - 1] && files[..i][i - 1..] == [files[i - 1]];
    }
  }

  lemma Fits(s: seq<File>, n: nat)
    requires n <= |s|
    ensures OffsetOf(s[..n], n) <= 1 + |s| + TotalBlocks(s)
  {
    OffsetTotal(s[..n], n);
    TotalSplit(s, n);
    assert s[..n][..n] == s[..n];
  }

  lemma ArrangedSays(s: seq<File>, n: nat, was: seq<File>, image: seq<byte>)
    requires Arranged(s, n, was, image)
    ensures n <= |s| && multiset(s) == multiset(was)
  {
  }

  lemma HeaderWritten(img: seq<byte>, files: seq<File>, root: seq<byte>, junk: seq<byte>)
    requires |junk| == 12 && img == WriteAt([], BLOCK * 0, Padded(HeaderBytes(|files|)))
    ensures Written(img, files, root, junk, 0)
  {
    WriteAtPuts([], 0, Padded(HeaderBytes(|files|)));
  }

  lemma HeaderReads(img: seq<byte>, files: seq<File>, root: seq<byte>, junk: seq<byte>)
    requires |junk| == 12 && |files| < M32 && Written(img, files, root, junk, |files|)
    ensures |img| >= 512
    ensures var h := img[..512];
            && h[..4] == MAGIC && FromLe16(h[4..6]) == 0 && FromLe16(h[6..8]) == 0
            && h[8] == 1 && h[10] == 1 && FromLe32(h[12..16]) == |files|
  {
    hide Padded, HeaderBytes, FromLe16, FromLe32, Le16, Le32, Stored;
    HeaderParts(|files|);
    Le32Back(|files|);
    Le16Back(0);
  }

  lemma EntryReads(img: seq<byte>, files: seq<File>, root: seq<byte>, junk: seq<byte>, i: nat)
    requires |junk| == 12 && i < |files| && Written(img, files, root, junk, |files|)
    requires BLOCK * OffsetOf(files, i) < M32 && |files[i].data| < M32 && NoNul(StoredPath(files, root, i))
    ensures BLOCK * (1 + i) + 512 <= |img|
    ensures var e := img[BLOCK * (1 + i)..BLOCK * (1 + i) + 512];
            && e[..4] == TAG && CString(e[4..224]) == Short(StoredPath(files, root, i))
            && FromLe32(e[260..264]) == OffsetOf(files, i) && FromLe32(e[264..268]) == |files[i].data|
    ensures At(img, BLOCK * OffsetOf(files, i), files[i].data)
  {
    hide Padded, EntryBytes, FromLe32, Le32, CString, PathField, StoredPath, OffsetOf, Sha1Of;
    assert Stored(img, files, root, junk, i);
    EntryParts(StoredPath(files, root, i), Sha1Of(files[i].data), junk, OffsetOf(files, i), |files[i].data|);
    Le32Back(OffsetOf(files, i));
    Le32Back(|files[i].data|);
    PathBack(StoredPath(files, root, i));
    PaddedStarts(files[i].data);
    AtPart(img, BLOCK * OffsetOf(files, i), Padded(files[i].data), 0, |files[i].data|);
  }

  lemma PaddedStarts(data: seq<byte>)
    ensures Padded(data)[0..|data|] == data
  {
  }

  lemma StoredNoNul(files: seq<File>, root: seq<byte>, i: nat)
    requires i < |files| && CStrings(files)
    ensures NoNul(StoredPath(files, root, i))
  {
    hide FoundFdt, IsDtb, FixPath, StripRoot;
    StripNoNul(files[i].path, root);
    FixNoNul(StripRoot(files[i].path, root));
  }

  lemma StripNoNul(path: seq<byte>, root: seq<byte>)
    requires NoNul(path)
    ensures NoNul(StripRoot(path, root))
  {
  }

  lemma FixNoNul(path: seq<byte>)
    requires NoNul(path)
    ensures NoNul(FixPath(path))
  {
  }

  lemma RecoveredNext(files: seq<File>, root: seq<byte>, i: nat)
    requires i < |files|
    ensures Recovered(files, root)[..i + 1]
            == Recovered(files, root)[..i] + [File(Short(StoredPath(files, root, i)), files[i].data)]
    ensures Recovered(files, root)[..|files|] == Recovered(files, root)
  {
    hide StoredPath, Short;
  }

  /** The image file */
  class ImageFile {
    var bytes: seq<byte>

    constructor ()
      ensures bytes == []
    {
      bytes := [];
    }

    /** StorageWriteLba */
    method WriteLba(offsetBlock: nat, data: seq<byte>)
      modifies this
      ensures bytes == WriteAt(old(bytes), BLOCK * offsetBlock, data)
    {
      bytes := WriteAt(bytes, BLOCK * offsetBlock, data);
    }

    /** write_data: whole blocks first, then the rest in a block of its own */
    method WriteData(offsetBlock: nat, data: seq<byte>)
      requires data != []
      modifies this
      ensures bytes == WriteAt(old(bytes), BLOCK * offsetBlock, Padded(data))
    {
      hide WriteAt;
      var blocks := |data| / BLOCK;
      var whole := data[..BLOCK * blocks];
      if blocks != 0 {
        WriteLba(offsetBlock, whole);
      }
      var left := |data| % BLOCK;
      Cut(data);
      if left != 0 {
        var buf := data[BLOCK * blocks..] + Zeros(BLOCK - left);
        WriteLba(offsetBlock + blocks, buf);
        WriteAtTwice(old(bytes), BLOCK * offsetBlock, whole, buf);
      }
    }

    /** write_file: an empty file is an error, as fread reads nothing. */
    method WriteFile(offsetBlock: nat, f: File) returns (ok: bool, hash: seq<byte>)
      requires |f.data| < M32
      modifies this
      ensures ok <==> f.data != []
      ensures ok ==> bytes == WriteAt(old(bytes), BLOCK * offsetBlock, Padded(f.data)) && hash == Sha1Of(f.data)
    {
      hide WriteAt, ShaStream.Sha;
      if |f.data| == 0 {
        return false, [];
      }
      WriteData(offsetBlock, f.data);
      var digest := ShaStream.Csum(ShaStream.SHA1, Bits(f.data));
      return true, Chars(digest);
    }

    /** write_index_tbl: the contents behind the table, and each one's entry in it */
    method WriteIndexTbl(files: seq<File>, root: seq<byte>, junk: seq<byte>) returns (ok: bool)
      requires |junk| == 12 && BLOCK * OffsetOf(files, |files|) < 0x8000_0000
      requires Written(bytes, files, root, junk, 0)
      modifies this
      ensures ok <==> NoneEmpty(files)
      ensures ok ==> Written(bytes, files, root, junk, |files|)
    {
      hide WriteAt, OffsetOf, Written, Entry, EntryBytes, Padded, Sha1Of;
      OffsetStart(files);
      var offset := 1 + 1 * |files|;
      var found := false;
      for i := 0 to |files|
        invariant offset == OffsetOf(files, i) && found == FoundFdt(files, i)
        invariant forall k | 0 <= k < i :: files[k].data != []
        invariant Written(bytes, files, root, junk, i)
      {
        label Before:
        OffsetNext(files, i);
        var written, hash := WriteFile(offset, files[i]);
        if !written {
          return false;
        }
        var path := FixPath(StripRoot(files[i].path, root));
        if IsDtb(files[i].path) && !found {
          path := FDT_PATH;
          found := true;
        }
        EntryIs(files, root, junk, i);
        WrittenNext(old@Before(bytes), files, root, junk, i);
        WriteData(1 + i, EntryBytes(path, hash, junk, offset, |files[i].data|));
        offset := offset + Blocks(|files[i].data|);
      }
      return true;
    }

    /**
     pack_image. The image must not be packed into itself: what it would then hold depends on
     how far it has been written.
     */
    method PackImage(files: array<File>, image: seq<byte>, root: seq<byte>, junk: seq<byte>)
      returns (ok: bool, fileNum: nat)
      requires |junk| == 12 && BLOCK * (1 + files.Length + TotalBlocks(files[..])) < 0x8000_0000
      modifies this, files
      ensures Arranged(files[..], fileNum, old(files[..]), image)
      ensures fileNum <= files.Length
      ensures NotListed(files[..fileNum], image) ==>
                && (ok <==> NoneEmpty(files[..fileNum]))
                && (ok ==> Written(bytes, files[..fileNum], root, junk, fileNum))
    {
      hide Arranged, Written, HeaderBytes, Padded, WriteAt, OffsetOf, NoneEmpty, TotalBlocks;
      bytes := [];
      fileNum := PrepareFiles(files, image);
      ArrangedSays(files[..], fileNum, old(files[..]), image);
      SameTotal(files[..], old(files[..]));
      Fits(files[..], fileNum);
      WriteData(0, HeaderBytes(fileNum));
      HeaderWritten(bytes, files[..fileNum], root, junk);
      ok := WriteIndexTbl(files[..fileNum], root, junk);
    }

    /** The entry's content, read block by block (dump_file) */
    method DumpFile(contentOffset: nat, contentSize: nat) returns (ok: bool, data: seq<byte>)
      requires contentOffset < M32 && contentSize < M32
      ensures var at := BLOCK * contentOffset % M32;
              if contentSize >= 0x8000_0000 then ok && data == []
              else
                && (ok <==> contentSize == 0 || at + contentSize <= |bytes|)
                && (ok ==> data == if contentSize == 0 then [] else bytes[at..at + contentSize])
    {
      var at := BLOCK * contentOffset % M32;
      var len: int := if contentSize < 0x8000_0000 then contentSize else contentSize - M32;
      data := [];
      while len > 0
        invariant contentSize < 0x8000_0000 ==> 0 <= len && |data| == contentSize - len
        invariant contentSize >= 0x8000_0000 ==> len <= 0 && data == []
        invariant data != [] ==> at + |data| <= |bytes| && data == bytes[at..at + |data|]
      {
        var n := if len > BLOCK then BLOCK else len;
        var pos := at + |data|;
        if pos + n > |bytes| {
          return false, data;
        }
        assert bytes[at..pos] + bytes[pos..pos + n] == bytes[at..pos + n];
        data := data + bytes[pos..pos + n];
        len := len - n;
      }
      return true, data;
    }

    /** A block read by unpack_image, or None past the end of the file */
    function ReadBlock(k: nat): (buf: Option<seq<byte>>)
      reads this
      ensures buf.Some? ==> |buf.value| == BLOCK
    {
      if BLOCK * k + BLOCK <= |bytes| then Some(bytes[BLOCK * k..BLOCK * k + BLOCK]) else None
    }

    /** get_entry: where the first entry of this path has its content, and how much */
    method GetEntry(path: seq<byte>, ghost files: seq<File>, ghost root: seq<byte>, ghost junk: seq<byte>)
      returns (found: bool, offset: nat, size: nat)
      requires |junk| == 12 && BLOCK * OffsetOf(files, |files|) < 0x8000_0000 && CStrings(files)
      ensures Written(bytes, files, root, junk, |files|) ==>
                if found then IsFirst(files, root, path, offset, size)
                else forall i | 0 <= i < |files| :: Short(StoredPath(files, root, i)) != path
    {
      hide Written, OffsetOf, Recovered, StoredPath, CStrings, FromLe16, FromLe32, CString, Short;
      if Written(bytes, files, root, junk, |files|) {
        HeaderRead(files, root, junk);
      }
      var buf := ReadBlock(0);
      if buf.None? || buf.value[..4] != MAGIC {
        return false, 0, 0;
      }
      var h := buf.value;
      if FromLe16(h[4..6]) != 0 || h[8] != 1 || FromLe16(h[6..8]) != 0 || h[10] != 1 {
        return false, 0, 0;
      }
      var num := FromLe32(h[12..16]);
      for i := 0 to num
        invariant Written(bytes, files, root, junk, |files|) ==>
                    num == |files| && forall k | 0 <= k < i :: Short(StoredPath(files, root, k)) != path
      {
        if Written(bytes, files, root, junk, |files|) {
          EntryRead(files, root, junk, i);
        }
        buf := ReadBlock(1 + i);
        if buf.None? || buf.value[..4] != TAG {
          return false, 0, 0;
        }
        var e := buf.value;
        if CString(e[4..224]) == path {
          return true, FromLe32(e[260..264]), FromLe32(e[264..268]);
        }
      }
      return false, 0, 0;
    }

    lemma HeaderRead(files: seq<File>, root: seq<byte>, junk: seq<byte>)
      requires |junk| == 12 && BLOCK * OffsetOf(files, |files|) < 0x8000_0000
      requires Written(bytes, files, root, junk, |files|)
      ensures ReadBlock(0).Some?
      ensures var h := ReadBlock(0).value;
              && h[..4] == MAGIC && FromLe16(h[4..6]) == 0 && FromLe16(h[6..8]) == 0
              && h[8] == 1 && h[10] == 1 && FromLe32(h[12..16]) == |files|
      ensures Recovered(files, root)[..0] == []
      ensures Recovered(files, root)[..|files|] == Recovered(files, root)
    {
      hide Written, OffsetOf, Recovered, FromLe16, FromLe32;
      HeaderReads(bytes, files, root, junk);
    }

    /** What the turn for entry i reads */
    lemma EntryRead(files: seq<File>, root: seq<byte>, junk: seq<byte>, i: nat)
      requires |junk| == 12 && BLOCK * OffsetOf(files, |files|) < 0x8000_0000 && CStrings(files)
      requires Written(bytes, files, root, junk, |files|) && i < |files|
      ensures ReadBlock(1 + i).Some?
      ensures var e, at := ReadBlock(1 + i).value, BLOCK * OffsetOf(files, i);
              && e[..4] == TAG && CString(e[4..224]) == Short(StoredPath(files, root, i))
              && FromLe32(e[260..264]) == OffsetOf(files, i) && FromLe32(e[264..268]) == |files[i].data| < 0x8000_0000
              && at % M32 == at && at + |files[i].data| <= |bytes|
              && bytes[at..at + |files[i].data|] == files[i].data
      ensures Recovered(files, root)[..i + 1]
              == Recovered(files, root)[..i] + [File(Short(StoredPath(files, root, i)), files[i].data)]
    {
      hide Written, OffsetOf, Recovered, StoredPath, CStrings, FromLe16, FromLe32, CString;
      OffsetNext(files, i);
      StoredNoNul(files, root, i);
      EntryReads(bytes, files, root, junk, i);
      RecoveredNext(files, root, i);
    }

    /** unpack_image: the files it writes under the target directory, in order. An image packed
        from files gives them back. */
    method UnpackImage(ghost files: seq<File>, ghost root: seq<byte>, ghost junk: seq<byte>)
      returns (ok: bool, out: seq<File>)
      requires |junk| == 12 && BLOCK * OffsetOf(files, |files|) < 0x8000_0000 && CStrings(files)
      ensures Written(bytes, files, root, junk, |files|) ==> ok && out == Recovered(files, root)
    {
      hide Written, OffsetOf, Recovered, StoredPath, CStrings, FromLe16, FromLe32, CString;
      out := [];
      var buf := ReadBlock(0);
      if Written(bytes, files, root, junk, |files|) {
        HeaderRead(files, root, junk);
      }
      if buf.None? || buf.value[..4] != MAGIC {
        return false, out;
      }
      var h := buf.value;
      if FromLe16(h[4..6]) != 0 || h[8] != 1 || FromLe16(h[6..8]) != 0 || h[10] != 1 {
        return false, out;
      }
      var num := FromLe32(h[12..16]);
      for i := 0 to num
        invariant Written(bytes, files, root, junk, |files|) ==> num == |files| && out == Recovered(files, root)[..i]
      {
        if Written(bytes, files, root, junk, |files|) {
          EntryRead(files, root, junk, i);
        }
        buf := ReadBlock(1 + i);
        if buf.None? || buf.value[..4] != TAG {
          return false, out;
        }
        var e := buf.value;
        var dumped, data := DumpFile(FromLe32(e[260..264]), FromLe32(e[264..268]));
        if !dumped {
          return false, out;
        }
        out := out + [File(CString(e[4..224]), data)];
      }
      return true, out;
    }
  }

  /** Packing and unpacking: the stored paths and the contents come back in packing order. */
  method PackAndUnpack(files: array<File>, image: seq<byte>, root: seq<byte>, junk: seq<byte>)
    returns (ok: bool, out: seq<File>, fileNum: nat)
    requires |junk| == 12 && BLOCK * (1 + files.Length + TotalBlocks(files[..])) < 0x8000_0000
    requires CStrings(files[..]) && NotListed(files[..], image)
    modifies files
    ensures Arranged(files[..], fileNum, old(files[..]), image) && fileNum == files.Length
    ensures ok <==> NoneEmpty(files[..])
    ensures ok ==> out == Recovered(files[..], root)
  {
    hide Arranged, Written, OffsetOf, TotalBlocks, NoneEmpty, Recovered, CStrings, NotListed;
    var img := new ImageFile();
    out := [];
    ok, fileNum := img.PackImage(files, image, root, junk);
    AllArranged(files[..], fileNum, old(files[..]), image);
    assert files[..fileNum] == files[..];
    if ok {
      SameTotal(files[..], old(files[..]));
      Fits(files[..], fileNum);
      ok, out := img.UnpackImage(files[..], root, junk);
    }
  }

  /** Without the image among the files, all of them are packed. */
  lemma AllArranged(s: seq<File>, n: nat, was: seq<File>, image: seq<byte>)
    requires Arranged(s, n, was, image) && NotListed(was, image) && CStrings(was)
    ensures n == |s| && multiset(s) == multiset(was) && NotListed(s, image) && CStrings(s)
  {
    forall k | 0 <= k < |s|
      ensures s[k] in was
    {
      assert s[k] in multiset(s);
    }
  }
}
