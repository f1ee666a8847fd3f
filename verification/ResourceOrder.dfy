/**
 The order in which scripts/resource_tool.c packs its input files: device trees first,
 the image itself not at all. Paths are C strings without their NUL.
 */
module ResourceOrder {
  type byte = b: int | 0 <= b < 256

  datatype File = File(path: seq<byte>, data: seq<byte>)

  const DTB: seq<byte> := [46, 100, 116, 98]  // ".dtb"
  const DOT_SLASH: seq<byte> := [46, 47]

  predicate IsDtb(path: seq<byte>) {
    |path| >= 4 && path[|path| - 4..] == DTB
  }

  /** fix_path */
  function FixPath(path: seq<byte>): seq<byte> {
    if |path| >= 2 && path[..2] == DOT_SLASH then path[2..] else path
  }

  /** The file is the image. */
  predicate IsCopy(f: File, image: seq<byte>) {
    FixPath(image) == FixPath(f.path)
  }

  /** It is, and is recognized as such: a device tree is not compared with the image. */
  predicate IsSelf(f: File, image: seq<byte>) {
    !IsDtb(f.path) && IsCopy(f, image)
  }

  /** Leaving out "./" does not touch the suffix. */
  lemma SameSuffix(path: seq<byte>)
    ensures IsDtb(FixPath(path)) == IsDtb(path)
  {
    if |path| >= 6 {
      assert path[2..][|path| - 6..] == path[|path| - 4..];
    } else if |path| >= 4 && path[..2] == DOT_SLASH {
      assert path[1] == path[..2][1] == 47;
      assert path[|path| - 4..][5 - |path|] == 47;
    }
  }

  /** Whether copies are recognized depends on the image's name alone. */
  lemma Recognized(f: File, image: seq<byte>)
    ensures IsSelf(f, image) <==> IsCopy(f, image) && !IsDtb(image)
  {
    SameSuffix(image);
    SameSuffix(f.path);
  }

  predicate NotListed(files: seq<File>, image: seq<byte>) {
    forall k | 0 <= k < |files| :: !IsCopy(files[k], image)
  }

  /** How often the image is listed */
  function Copies(files: seq<File>, image: seq<byte>): (r: nat)
    ensures r <= |files|
  {
    if files == [] then 0 else Copies(files[..|files| - 1], image) + if IsCopy(files[|files| - 1], image) then 1 else 0
  }

  /** The image is packed into itself unless it is not listed, or is not named like a device
      tree and, of its r copies, none is among the last r - 1 files. */
  predicate PacksNoCopy(files: seq<File>, image: seq<byte>) {
    if IsDtb(image) then NotListed(files, image)
    else Copies(files, image) == 0 || NotListed(files[|files| - Copies(files, image) + 1..], image)
  }

  function Dtbs(s: seq<File>): (r: seq<File>)
    ensures forall f | f in r :: IsDtb(f.path)
  {
    if s == [] then []
    else Dtbs(s[..|s| - 1]) + if IsDtb(s[|s| - 1].path) then [s[|s| - 1]] else []
  }

  /** How often the image is listed from i up to n */
  function Selfs(s: seq<File>, image: seq<byte>, i: nat, n: nat): (r: nat)
    requires i <= n <= |s|
    ensures r <= n - i
    decreases n - i
  {
    if i == n then 0 else (if IsSelf(s[i], image) then 1 else 0) + Selfs(s, image, i + 1, n)
  }

  ghost predicate NoSelf(s: seq<File>, image: seq<byte>, i: int, n: int)
    requires 0 <= i && n <= |s|
  {
    forall k | i <= k < n :: !IsSelf(s[k], image)
  }

  /** The loop from i on with n files left packs no copy of the image: a copy that is thrown
      out is replaced by the last file, which is not examined any more. */
  predicate Excludes(s: seq<File>, image: seq<byte>, i: nat, n: nat)
    requires n <= |s|
    decreases n - i
  {
    i >= n ||
    if IsSelf(s[i], image) then (i == n - 1 || !IsSelf(s[n - 1], image)) && Excludes(s, image, i + 1, n - 1)
    else Excludes(s, image, i + 1, n)
  }

  lemma {:induction false} SelfsLast(s: seq<File>, image: seq<byte>, i: nat, n: nat)
    requires i < n <= |s|
    ensures Selfs(s, image, i, n) == Selfs(s, image, i, n - 1) + if IsSelf(s[n - 1], image) then 1 else 0
    decreases n - i
  {
    hide IsSelf;
    if i < n - 1 {
      SelfsLast(s, image, i + 1, n);
    }
  }

  lemma {:induction false} SelfsNone(s: seq<File>, image: seq<byte>, i: nat, n: nat)
    requires i <= n <= |s|
    ensures Selfs(s, image, i, n) == 0 <==> NoSelf(s, image, i, n)
    decreases n - i
  {
    hide IsSelf;
    if i < n {
      SelfsNone(s, image, i + 1, n);
    }
  }

  /** With the image listed r times, no copy is packed exactly if none is among the last
      r - 1 files. */
  lemma {:induction false} ExcludesIff(s: seq<File>, image: seq<byte>, i: nat, n: nat)
    requires i <= n <= |s|
    ensures Excludes(s, image, i, n) <==> NoSelf(s, image, n - Selfs(s, image, i, n) + 1, n)
    decreases n - i
  {
    hide IsSelf;
    var r := Selfs(s, image, i, n);
    if i < n {
      if !IsSelf(s[i], image) {
        ExcludesIff(s, image, i + 1, n);
      } else if i < n - 1 {
        SelfsLast(s, image, i, n);
        ExcludesIff(s, image, i + 1, n - 1);
        if IsSelf(s[n - 1], image) {
          assert r >= 2;
          assert !NoSelf(s, image, n - r + 1, n);
        } else {
          assert r == 1 + Selfs(s, image, i + 1, n - 1);
        }
      }
    }
  }

  lemma {:induction false} SelfsAre(s: seq<File>, image: seq<byte>, n: nat)
    requires n <= |s| && !IsDtb(image)
    ensures Selfs(s, image, 0, n) == Copies(s[..n], image)
    decreases n
  {
    hide IsSelf;
    if n > 0 {
      SelfsAre(s, image, n - 1);
      SelfsLast(s, image, 0, n);
      Recognized(s[n - 1], image);
      assert s[..n][..n - 1] == s[..n - 1];
    }
  }

  lemma NoSelfIs(s: seq<File>, image: seq<byte>, i: nat, n: nat)
    requires i <= n <= |s|
    ensures NoSelf(s, image, i, n) <==> IsDtb(image) || NotListed(s[i..n], image)
  {
    hide IsSelf, IsCopy;
    forall k | i <= k < n
      ensures IsSelf(s[k], image) <==> IsCopy(s[i..n][k - i], image) && !IsDtb(image)
    {
      Recognized(s[k], image);
    }
    if NoSelf(s, image, i, n) && !IsDtb(image) {
      forall k | 0 <= k < n - i
        ensures !IsCopy(s[i..n][k], image)
      {
        assert !IsSelf(s[i + k], image);
      }
    }
  }

  /** The order pack_image leaves, given the n files it will pack */
  ghost predicate Arranged(s: seq<File>, n: nat, was: seq<File>, image: seq<byte>) {
    && n <= |s| == |was|
    && multiset(s) == multiset(was)
    && (forall k | n <= k < |s| :: IsSelf(s[k], image))
    && (NotListed(s[..n], image) <==> PacksNoCopy(was, image))
    && (NotListed(was, image) || IsDtb(image) ==>
          && n == |s|
          && var m := |Dtbs(was)|; m <= |s| && s[..m] == Dtbs(was) && forall k | m <= k < |s| :: !IsDtb(s[k].path))
  }

  /** tmp = files[x]; files[x] = files[y]; files[y] = tmp */
  method Swap(files: array<File>, x: nat, y: nat)
    requires x < files.Length && y < files.Length
    modifies files
    ensures files[..] == old(files[..])[x := old(files[y])][y := old(files[x])]
    ensures multiset(files[..]) == multiset(old(files[..]))
  {
    var tmp := files[x];
    files[x] := files[y];
    files[y] := tmp;
  }

  // What the loop of pack_image knows at i, with pos device trees moved to the front

  ghost predicate Bounds(s: seq<File>, was: seq<File>, image: seq<byte>, i: nat, pos: nat, n: nat) {
    && |s| == |was| && n <= |s| && i <= n + 1 && pos <= i && pos <= n
    && multiset(s) == multiset(was)
    && (forall k | i <= k < n :: s[k] == was[k])
    && (forall k | n <= k < |s| :: IsSelf(s[k], image))
  }

  function Min(x: nat, y: nat): nat {
    if x < y then x else y
  }

  ghost predicate Examined(s: seq<File>, was: seq<File>, image: seq<byte>, i: nat, n: nat) {
    && n <= |s| == |was|
    && (Excludes(was, image, 0, |was|) <==> NoSelf(s, image, 0, Min(i, n)) && Excludes(was, image, i, n))
  }

  ghost predicate Ordered(s: seq<File>, was: seq<File>, image: seq<byte>, i: nat, pos: nat, n: nat) {
    NoSelf(was, image, 0, |was|) ==>
      && n == |s| == |was| && pos <= i <= n && s[..pos] == Dtbs(was[..i])
      && (forall k | pos <= k < i :: !IsDtb(s[k].path))
  }

  ghost predicate Sorting(s: seq<File>, was: seq<File>, image: seq<byte>, i: nat, pos: nat, n: nat) {
    Bounds(s, was, image, i, pos, n) && Examined(s, was, image, i, n) && Ordered(s, was, image, i, pos, n)
  }

  lemma NoSelfMoved(s: seq<File>, s': seq<File>, image: seq<byte>, pos: nat, i: nat)
    requires pos <= i < |s| && s' == s[pos := s[i]][i := s[pos]] && !IsSelf(s[i], image)
    ensures NoSelf(s', image, 0, i + 1) <==> NoSelf(s, image, 0, i)
  {
    hide IsSelf;
    if NoSelf(s', image, 0, i + 1) {
      forall k | 0 <= k < i
        ensures !IsSelf(s[k], image)
      {
        assert s[k] == s'[if k == pos then i else k];
      }
    }
  }

  lemma NoSelfReplaced(s: seq<File>, s': seq<File>, image: seq<byte>, i: nat, n: nat)
    requires i < n <= |s| && s' == s[n - 1 := s[i]][i := s[n - 1]]
    ensures i < n - 1 ==> (NoSelf(s', image, 0, i + 1) <==> NoSelf(s, image, 0, i) && !IsSelf(s[n - 1], image))
    ensures i == n - 1 ==> (NoSelf(s', image, 0, i) <==> NoSelf(s, image, 0, i))
  {
    hide IsSelf;
    if i == n - 1 {
      assert s' == s;
    }
    if i < n - 1 && NoSelf(s', image, 0, i + 1) {
      assert s'[i] == s[n - 1];
      forall k | 0 <= k < i
        ensures !IsSelf(s[k], image)
      {
        assert s[k] == s'[k];
      }
    }
  }

  lemma OneMore(was: seq<File>, i: nat)
    requires i < |was|
    ensures Dtbs(was[..i + 1]) == Dtbs(was[..i]) + if IsDtb(was[i].path) then [was[i]] else []
  {
    assert was[..i + 1][..i] == was[..i];
  }

  lemma SortingDtb(s: seq<File>, s': seq<File>, was: seq<File>, image: seq<byte>, i: nat, pos: nat, n: nat)
    requires Sorting(s, was, image, i, pos, n) && i < n && IsDtb(s[i].path)
    requires s' == s[pos := s[i]][i := s[pos]] && multiset(s') == multiset(s)
    ensures Sorting(s', was, image, i + 1, pos + 1, n)
  {
    hide Dtbs, NoSelf, IsDtb;
    NotSelf(s[i], image);
    NoSelfMoved(s, s', image, pos, i);
    OneMore(was, i);
    assert s'[..pos + 1] == s[..pos] + [s[i]];
  }

  lemma NotSelf(f: File, image: seq<byte>)
    requires IsDtb(f.path)
    ensures !IsSelf(f, image)
  {
  }

  lemma SortingSelf(s: seq<File>, s': seq<File>, was: seq<File>, image: seq<byte>, i: nat, pos: nat, n: nat)
    requires Sorting(s, was, image, i, pos, n) && i < n && IsSelf(s[i], image)
    requires s' == s[n - 1 := s[i]][i := s[n - 1]] && multiset(s') == multiset(s)
    ensures Sorting(s', was, image, i + 1, pos, n - 1)
  {
    hide Dtbs, NoSelf, IsDtb, IsSelf;
    NoSelfReplaced(s, s', image, i, n);
    SelfIn(was, image, i);
  }

  lemma SelfIn(s: seq<File>, image: seq<byte>, i: nat)
    requires i < |s| && IsSelf(s[i], image)
    ensures !NoSelf(s, image, 0, |s|)
  {
  }

  lemma SortingOther(s: seq<File>, was: seq<File>, image: seq<byte>, i: nat, pos: nat, n: nat)
    requires Sorting(s, was, image, i, pos, n) && i < n && !IsDtb(s[i].path) && !IsSelf(s[i], image)
    ensures Sorting(s, was, image, i + 1, pos, n)
  {
    hide Dtbs, NoSelf, IsDtb, IsSelf;
    assert s == s[i := s[i]];
    NoSelfMoved(s, s, image, i, i);
    OneMore(was, i);
  }

  lemma SortingEnds(s: seq<File>, was: seq<File>, image: seq<byte>, i: nat, pos: nat, n: nat)
    requires Sorting(s, was, image, i, pos, n) && i >= n
    ensures Arranged(s, n, was, image)
  {
    hide Dtbs, NoSelf, IsDtb, IsSelf, Selfs, NotListed, Copies;
    ExcludesIff(was, image, 0, |was|);
    NoSelfIs(s, image, 0, n);
    NoSelfIs(was, image, 0, |was|);
    assert was[..|was|] == was == was[0..|was|] && s[0..n] == s[..n] && s[..|s|] == s;
    if IsDtb(image) {
      SameListed(s, was, image);
    } else {
      SelfsAre(was, image, |was|);
      var r := Copies(was, image);
      if r == 0 {
        NoSelfIs(was, image, |was|, |was|);
        assert was[|was|..] == [];
        Nothing(image);
        EmptyTail(was, image);
      } else {
        NoSelfIs(was, image, |was| - r + 1, |was|);
        assert was[|was| - r + 1..|was|] == was[|was| - r + 1..];
      }
    }
  }

  lemma Nothing(image: seq<byte>)
    ensures NotListed([], image)
  {
  }

  lemma EmptyTail(s: seq<File>, image: seq<byte>)
    ensures NoSelf(s, image, |s| + 1, |s|)
  {
  }

  /** Reordering does not list or unlist the image. */
  lemma SameListed(s: seq<File>, was: seq<File>, image: seq<byte>)
    requires multiset(s) == multiset(was)
    ensures NotListed(s, image) <==> NotListed(was, image)
  {
    forall k | 0 <= k < |s|
      ensures s[k] in multiset(was)
    {
      assert s[k] in multiset(s);
    }
    forall k | 0 <= k < |was|
      ensures was[k] in multiset(s)
    {
      assert was[k] in multiset(was);
    }
  }

  const A_DTB: seq<byte> := [97] + DTB  // "a.dtb"
  const AN_IMAGE: seq<byte> := [105, 109, 103]  // "img"

  /** Listed twice, the image is packed once. */
  lemma PacksItself(s: seq<File>, n: nat, data: seq<byte>)
    requires Arranged(s, n, [File(AN_IMAGE, data), File(AN_IMAGE, data)], AN_IMAGE)
    ensures n > 0 && s[0].path == AN_IMAGE
  {
    var f := File(AN_IMAGE, data);
    assert Copies([f, f], AN_IMAGE) == 2 by {
      assert [f, f][..1] == [f] && [f][..0] == [];
      assert Copies([f], AN_IMAGE) == 1;
    }
    assert [f, f][1..][0] == f;
    assert s[0] in multiset(s);
  }

  /** An image named like a device tree is packed even if it is listed once. */
  lemma PacksDtbImage(s: seq<File>, n: nat, data: seq<byte>)
    requires Arranged(s, n, [File(A_DTB, data)], A_DTB)
    ensures n == 1 && s[0].path == A_DTB
  {
    assert A_DTB[1..] == DTB;
    assert s[0] in multiset(s);
  }

  /** The loop of pack_image that prepares the files, in place */
  method PrepareFiles(files: array<File>, image: seq<byte>) returns (fileNum: nat)
    modifies files
    ensures Arranged(files[..], fileNum, old(files[..]), image)
  {
    hide Sorting, Arranged;
    fileNum := files.Length;
    var pos, i := 0, 0;
    SortingStarts(files[..], image);
    while i < fileNum
      invariant Sorting(files[..], old(files[..]), image, i, pos, fileNum)
      decreases fileNum - i
    {
      ghost var s := files[..];
      SortingSays(s, old(files[..]), image, i, pos, fileNum);
      if IsDtb(files[i].path) {
        Swap(files, pos, i);
        SortingDtb(s, files[..], old(files[..]), image, i, pos, fileNum);
        pos := pos + 1;
      } else if FixPath(image) == FixPath(files[i].path) {
        Swap(files, fileNum - 1, i);
        SortingSelf(s, files[..], old(files[..]), image, i, pos, fileNum);
        fileNum := fileNum - 1;
      } else {
        SortingOther(s, old(files[..]), image, i, pos, fileNum);
      }
      i := i + 1;
    }
    SortingEnds(files[..], old(files[..]), image, i, pos, fileNum);
  }

  lemma SortingStarts(s: seq<File>, image: seq<byte>)
    ensures Sorting(s, s, image, 0, 0, |s|)
  {
  }

  lemma SortingSays(s: seq<File>, was: seq<File>, image: seq<byte>, i: nat, pos: nat, n: nat)
    requires Sorting(s, was, image, i, pos, n)
    ensures n <= |s| && pos <= i <= n + 1
  {
  }
}
