/**
 The hash functions of FIPS 180-4 over whole messages, and the streaming contexts of
 scripts/resource_tool.c. sha1_update and sha256_update, and the two finish functions,
 are the same text over different contexts; they are modelled once.
 */
module ShaStream {
  import opened ShaWords
  import Sha1
  import Sha256
  import One = Sha1Spec
  import Two = Sha256Spec

  datatype Alg = SHA1 | SHA256

  /** An intermediate hash value, and the words a context holds it in */
  datatype Hash = H1(five: One.Five) | H2(eight: Two.Eight)

  datatype State = Longs(wide: Sha1.Wide) | Words(words: Two.Eight)

  function Value(s: State): Hash {
    match s
    case Longs(w) => H1(Sha1.Value(w))
    case Words(w) => H2(w)
  }

  function Initial(alg: Alg): Hash {
    if alg.SHA1? then H1(One.INITIAL) else H2(Two.INITIAL)
  }

  function Compress(h: Hash, block: seq<bv8>): Hash
    requires |block| == 64
  {
    match h
    case H1(v) => H1(One.Compress(v, block))
    case H2(v) => H2(Two.Compress(v, block))
  }

  /** The hash value after all blocks of data */
  function HashBlocks(alg: Alg, data: seq<bv8>): Hash
    requires |data| % 64 == 0
  {
    if |data| == 0 then Initial(alg)
    else Compress(HashBlocks(alg, data[..|data| - 64]), data[|data| - 64..])
  }

  function Zeros(k: nat): (s: seq<bv8>)
    ensures |s| == k
  {
    seq(k, _ => 0)
  }

  function Octet(r: nat): bv8
    requires r < 256
  {
    r as bv8
  }

  function Byte(n: nat): bv8 {
    Octet(n % 256)
  }

  /** The bit length of a message of n bytes as a 64-bit number */
  function LengthBytes(n: nat): (s: seq<bv8>)
    ensures |s| == 8
  {
    var bits := 8 * n;
    [Byte(bits / 0x100_0000_0000_0000), Byte(bits / 0x1_0000_0000_0000), Byte(bits / 0x100_0000_0000),
     Byte(bits / 0x1_0000_0000), Byte(bits / 0x100_0000), Byte(bits / 0x1_0000), Byte(bits / 0x100), Byte(bits)]
  }

  lemma PadFits(n: nat)
    ensures (n + 1 + (55 - n) % 64 + 8) % 64 == 0
  {
  }

  /** Padding, section 5.1.1: a one bit, the fewest zero bits that leave room for the length,
      and the length. Messages of 2^61 bytes and more are beyond the standard. */
  function Pad(m: seq<bv8>): (p: seq<bv8>)
    ensures |p| % 64 == 0
  {
    PadFits(|m|);
    m + [0x80] + Zeros((55 - |m|) % 64) + LengthBytes(|m|)
  }

  function Pow256(n: nat): (r: nat)
    ensures r > 0
  {
    if n == 0 then 1 else 256 * Pow256(n - 1)
  }

  lemma Powers()
    ensures Pow256(0) == 1 && Pow256(1) == 0x100 && Pow256(2) == 0x1_0000 && Pow256(3) == 0x100_0000
    ensures Pow256(4) == 0x1_0000_0000 && Pow256(5) == 0x100_0000_0000
    ensures Pow256(6) == 0x1_0000_0000_0000 && Pow256(7) == 0x100_0000_0000_0000
  {
    assert Pow256(4) == 256 * (256 * (256 * (256 * 1)));
    assert Pow256(7) == 256 * (256 * (256 * Pow256(4)));
  }

  /** The digits of the length in base 256, the most significant first */
  lemma LengthDigits(n: nat, k: nat)
    requires k < 8
    ensures LengthBytes(n)[k] == Octet(8 * n / Pow256(7 - k) % 256)
  {
    hide Octet, Pow256;
    Powers();
  }

  /** A padded message is the message, a one bit, zero bits and the bit length, in as few blocks as
      can hold them. */
  lemma PadIs(m: seq<bv8>, k: nat)
    ensures var p := Pad(m);
            && |p| % 64 == 0 && |m| + 9 <= |p| < |m| + 9 + 64
            && p[..|m|] == m && p[|m|] == 0x80
            && (|m| < k < |p| - 8 ==> p[k] == 0)
            && (k < 8 ==> p[|p| - 8 + k] == Octet(8 * |m| / Pow256(7 - k) % 256))
  {
    hide LengthBytes, Octet, Pow256;
    var p := Pad(m);
    assert p[|p| - 8..] == LengthBytes(|m|);
    if k < 8 {
      LengthDigits(|m|, k);
      assert p[|p| - 8..][k] == p[|p| - 8 + k];
    }
  }

  function Output(h: Hash): seq<bv8> {
    match h
    case H1(v) => WordBytes(v.a) + WordBytes(v.b) + WordBytes(v.c) + WordBytes(v.d) + WordBytes(v.e)
    case H2(v) => WordBytes(v.a) + WordBytes(v.b) + WordBytes(v.c) + WordBytes(v.d)
                  + WordBytes(v.e) + WordBytes(v.f) + WordBytes(v.g) + WordBytes(v.h)
  }

  /** The message digest of sections 6.1.2 and 6.2.2 */
  function Sha(alg: Alg, m: seq<bv8>): seq<bv8> {
    Output(HashBlocks(alg, Pad(m)))
  }

  lemma HashMore(alg: Alg, data: seq<bv8>, block: seq<bv8>)
    requires |data| % 64 == 0 && |block| == 64
    ensures HashBlocks(alg, data + block) == Compress(HashBlocks(alg, data), block)
  {
    var d := data + block;
    assert d[..|d| - 64] == data && d[|d| - 64..] == block;
  }

  const M32: nat := 0x1_0000_0000

  /** How many bytes of an n-byte message went through process */
  function Whole(n: nat): (d: nat)
    ensures d <= n < d + 64 && d % 64 == 0
  {
    n - n % 64
  }

  lemma Left(n: nat)
    ensures n % M32 % 64 == n % 64
  {
  }

  lemma Carry(n: nat, k: nat, t1: nat)
    requires k < M32 && t1 % M32 == n / M32 % M32
    ensures (n % M32 + k) % M32 == (n + k) % M32
    ensures (n % M32 + k) % M32 < k <==> (n + k) / M32 == n / M32 + 1
    ensures (n % M32 + k) % M32 >= k <==> (n + k) / M32 == n / M32
  {
    assert n == n / M32 * M32 + n % M32;
  }

  lemma NextLow(t1: nat, q: nat)
    requires t1 % M32 == q % M32
    ensures (t1 + 1) % M32 == (q + 1) % M32
  {
    assert t1 - q == M32 * (t1 / M32 - q / M32);
  }

  lemma WrapTwice(x: nat)
    ensures x % M32 % M32 == x % M32
    ensures x % (M32 * M32) % M32 == x % M32
  {
    var y, k := x % (M32 * M32), x / (M32 * M32);
    assert x == y + M32 * (M32 * k);
    ModPlus(y, M32 * k);
  }

  lemma ModPlus(y: nat, k: nat)
    ensures (y + M32 * k) % M32 == y % M32
  {
  }

  lemma NextHigh(t1: nat, q: nat)
    requires t1 % M32 == q % M32
    ensures (t1 + 1) % M32 % M32 == (q + 1) % M32
    ensures (t1 + 1) % (M32 * M32) % M32 == (q + 1) % M32
  {
    NextLow(t1, q);
    WrapTwice(t1 + 1);
  }

  /** PUT_UINT32_BE of a number */
  function PutNat(n: nat): (s: seq<bv8>)
    ensures |s| == 4
  {
    [Byte(n / 0x100_0000), Byte(n / 0x1_0000), Byte(n / 0x100), Byte(n)]
  }

  lemma LengthField(n: nat, t0: nat, t1: nat)
    requires t0 == n % M32 && t1 % M32 == n / M32 % M32
    ensures PutNat(t0 / 0x2000_0000 + 8 * t1) + PutNat(8 * t0) == LengthBytes(n)
  {
    hide Byte;
    LowBytes(n, t0, n / M32);
    HighBytes(n, t0, t1, n / M32);
  }

  lemma SameByte(a: nat, b: nat, c: nat)
    requires a == b + 256 * c || b == a + 256 * c
    ensures Byte(a) == Byte(b)
  {
    hide Octet;
    SameRest(a, b, c);
  }

  lemma SameRest(a: nat, b: nat, c: nat)
    requires a == b + 256 * c || b == a + 256 * c
    ensures a % 256 == b % 256
  {
  }

  lemma LowBytes(n: nat, t0: nat, q: nat)
    requires n == M32 * q + t0
    ensures Byte(8 * t0) == Byte(8 * n) && Byte(8 * t0 / 0x100) == Byte(8 * n / 0x100)
    ensures Byte(8 * t0 / 0x1_0000) == Byte(8 * n / 0x1_0000)
    ensures Byte(8 * t0 / 0x100_0000) == Byte(8 * n / 0x100_0000)
  {
    hide Byte;
    SameByte(8 * n, 8 * t0, 0x800_0000 * q);
    SameByte(8 * n / 0x100, 8 * t0 / 0x100, 0x8_0000 * q);
    SameByte(8 * n / 0x1_0000, 8 * t0 / 0x1_0000, 0x800 * q);
    SameByte(8 * n / 0x100_0000, 8 * t0 / 0x100_0000, 8 * q);
  }

  lemma HighBytes(n: nat, t0: nat, t1: nat, q: nat)
    requires n == M32 * q + t0 && t0 < M32 && t1 % M32 == q % M32
    ensures var h := t0 / 0x2000_0000 + 8 * t1;
            && Byte(h) == Byte(8 * n / 0x1_0000_0000)
            && Byte(h / 0x100) == Byte(8 * n / 0x100_0000_0000)
            && Byte(h / 0x1_0000) == Byte(8 * n / 0x1_0000_0000_0000)
            && Byte(h / 0x100_0000) == Byte(8 * n / 0x100_0000_0000_0000)
  {
    hide Byte;
    var h, g := t0 / 0x2000_0000 + 8 * t1, t0 / 0x2000_0000 + 8 * q;
    assert 8 * n / 0x1_0000_0000 == g;
    assert 8 * n / 0x100_0000_0000 == g / 0x100;
    assert 8 * n / 0x1_0000_0000_0000 == g / 0x1_0000;
    assert 8 * n / 0x100_0000_0000_0000 == g / 0x100_0000;
    var a, b := t1 / M32, q / M32;
    assert t1 - q == M32 * (a - b);
    if a >= b {
      HighSame(h, g, a - b);
    } else {
      HighSame(g, h, b - a);
    }
  }

  lemma HighSame(h: nat, g: nat, k: nat)
    requires h == g + 8 * M32 * k
    ensures Byte(h) == Byte(g) && Byte(h / 0x100) == Byte(g / 0x100)
    ensures Byte(h / 0x1_0000) == Byte(g / 0x1_0000) && Byte(h / 0x100_0000) == Byte(g / 0x100_0000)
  {
    hide Byte;
    SameByte(h, g, 0x800_0000 * k);
    SameByte(h / 0x100, g / 0x100, 0x8_0000 * k);
    SameByte(h / 0x1_0000, g / 0x1_0000, 0x800 * k);
    SameByte(h / 0x100_0000, g / 0x100_0000, 8 * k);
  }

  /** A context: whatever was fed to it, in pieces of any size, is msg. */
  class Context {
    const alg: Alg
    var total0: nat  // total[0], below 2^32
    var total1: nat  // total[1], as wide as the context's words
    var state: State
    const buffer: array<bv8>
    ghost var msg: seq<bv8>

    /** The state has taken in the whole blocks of all, and the buffer starts with what is
        left of it up to n bytes. */
    ghost predicate Holds(all: seq<bv8>, done: nat, n: nat)
      reads this`state, buffer
    {
      && done % 64 == 0 && done <= n <= |all| && n - done <= 64 == buffer.Length
      && Value(state) == HashBlocks(alg, all[..done])
      && buffer[..n - done] == all[done..n]
    }

    ghost predicate Counted()
      reads this`total0, this`total1, this`msg
    {
      total0 == |msg| % M32 && total1 % M32 == |msg| / M32 % M32
    }

    ghost predicate Valid()
      reads this, buffer
    {
      Counted() && Holds(msg, Whole(|msg|), |msg|)
    }

    /** sha1_starts, sha256_starts */
    constructor (alg: Alg)
      ensures Valid() && this.alg == alg && msg == [] && fresh(buffer)
    {
      this.alg := alg;
      total0, total1, msg := 0, 0, [];
      state := if alg.SHA1? then Longs(Sha1.Wide(0x67452301, 0xEFCDAB89, 0x98BADCFE, 0x10325476, 0xC3D2E1F0))
      else Words(Two.INITIAL);
      buffer := new bv8[64];
    }

    /** The call of sha1_process or sha256_process on the context */
    method Process(data: seq<bv8>)
      requires |data| == 64
      modifies this`state
      ensures Value(state) == Compress(old(Value(state)), data)
    {
      match state {
        case Longs(w) =>
          var r := Sha1.Process(w, data);
          state := Longs(r);
        case Words(w) =>
          var r := Sha256.Process(w, data);
          state := Words(r);
      }
    }

    /** memcpy to the buffer */
    method CopyIn(at: nat, src: seq<bv8>)
      requires at + |src| <= 64 == buffer.Length
      modifies buffer
      ensures buffer[..at + |src|] == old(buffer[..at]) + src
    {
      for k := 0 to |src|
        invariant buffer[..at + k] == old(buffer[..at]) + src[..k]
      {
        buffer[at + k] := src[k];
        assert buffer[..at + k + 1] == buffer[..at + k] + [src[k]];
      }
      assert src[..|src|] == src;
    }

    method AddTotal(ilen: nat, ghost input: seq<bv8>)
      requires Counted() && ilen == |input| < M32
      modifies this`total0, this`total1, this`msg
      ensures Counted() && msg == old(msg) + input
    {
      Carry(|msg|, ilen, total1);
      NextHigh(total1, |msg| / M32);
      total0 := (total0 + ilen) % M32;
      if total0 < ilen {
        total1 := (total1 + 1) % (if alg.SHA1? then M32 * M32 else M32);
      }
      msg := msg + input;
    }

    /** The buffer, filled up, is a block. */
    method TopUp(left: nat, some: seq<bv8>, ghost all: seq<bv8>, ghost n: nat)
      requires left <= n && left + |some| == 64 && n + |some| <= |all| && all[n..n + |some|] == some
      requires Holds(all, n - left, n)
      modifies this`state, buffer
      ensures Holds(all, n + |some|, n + |some|)
    {
      hide HashBlocks, Compress;
      CopyIn(left, some);
      assert buffer[..] == buffer[..64];
      assert all[n - left..n + |some|] == all[n - left..n] + some;
      Process(buffer[..]);
      NextBlock(all, n - left);
    }

    /** A block straight from the input */
    method Take(block: seq<bv8>, ghost all: seq<bv8>, ghost n: nat)
      requires |block| == 64 && n + 64 <= |all| && all[n..n + 64] == block
      requires Holds(all, n, n)
      modifies this`state
      ensures Holds(all, n + 64, n + 64)
    {
      hide HashBlocks, Compress;
      Process(block);
      NextBlock(all, n);
    }

    /** Less than a block remains. */
    method Keep(left: nat, rest: seq<bv8>, ghost all: seq<bv8>, ghost n: nat)
      requires left <= n && left + |rest| < 64 && n + |rest| == |all| && all[n..] == rest
      requires Holds(all, n - left, n)
      modifies buffer
      ensures Holds(all, n - left, |all|)
    {
      hide HashBlocks;
      CopyIn(left, rest);
      assert all[n - left..] == all[n - left..n] + rest;
    }

    /** sha1_update, sha256_update */
    method Update(input: seq<bv8>)
      requires Valid() && |input| < M32
      modifies this`total0, this`total1, this`state, this`msg, buffer
      ensures Valid() && msg == old(msg) + input
    {
      hide Holds, Counted, Whole;
      if |input| == 0 {
        assert msg + input == msg;
        return;
      }
      ghost var was, all, n := msg, msg + input, |msg|;
      LeftIs();
      var left := total0 % 64;
      var fill := 64 - left;
      assert all[..n] == msg;
      Extended(all, n - left, n);
      AddTotal(|input|, input);
      var pos := 0;
      if left != 0 && |input| >= fill {
        Piece(was, input, 0, fill);
        TopUp(left, input[..fill], all, n);
        pos := fill;
        left := 0;
      }
      while |input| - pos >= 64
        modifies this`state
        invariant 0 <= pos <= |input| && left < 64 && left <= n + pos
        invariant left == 0 || |input| - pos + left < 64
        invariant Holds(all, n + pos - left, n + pos)
      {
        Piece(was, input, pos, pos + 64);
        Take(input[pos..pos + 64], all, n + pos);
        pos := pos + 64;
      }
      if pos < |input| {
        Piece(was, input, pos, |input|);
        Keep(left, input[pos..], all, n + pos);
      }
      HoldsWhole(all, n + pos - left);
    }

    /** sha1_finish, sha256_finish: the digest of all that was fed */
    method Finish() returns (output: seq<bv8>)
      requires Valid()
      modifies this`total0, this`total1, this`state, this`msg, buffer
      ensures output == Sha(alg, old(msg))
    {
      hide Holds, Whole, PutNat, LengthBytes;
      ghost var m := msg;
      LeftIs();
      LengthField(|msg|, total0, total1);
      var msglen := PutNat(total0 / 0x2000_0000 + 8 * total1) + PutNat(8 * total0);
      var last := total0 % 64;
      var padn := if last < 0x38 then 0x38 - last else 0x78 - last;
      Padding(|msg|, padn);
      Update(PaddingBytes()[..padn]);
      Update(msglen);
      assert msg == Pad(m);
      AllHashed();
      output := PutState();
    }

    /** The PUT_UINT32_BE lines of the digest */
    method PutState() returns (output: seq<bv8>)
      ensures output == Output(Value(state))
    {
      match state {
        case Longs(w) =>
          PutWide(w);
          output := Sha1.Put(w.a) + Sha1.Put(w.b) + Sha1.Put(w.c) + Sha1.Put(w.d) + Sha1.Put(w.e);
        case Words(w) =>
          output := WordBytes(w.a) + WordBytes(w.b) + WordBytes(w.c) + WordBytes(w.d)
                    + WordBytes(w.e) + WordBytes(w.f) + WordBytes(w.g) + WordBytes(w.h);
      }
    }

    lemma AllHashed()
      requires Valid() && |msg| % 64 == 0
      ensures Value(state) == HashBlocks(alg, msg)
    {
      hide HashBlocks;
      assert msg[..|msg|] == msg;
    }

    lemma HoldsWhole(all: seq<bv8>, done: nat)
      requires Holds(all, done, |all|) && |all| - done < 64
      ensures Holds(all, Whole(|all|), |all|)
    {
      hide HashBlocks;
    }

    lemma LeftIs()
      requires Counted()
      ensures total0 % 64 == |msg| % 64 && Whole(|msg|) == |msg| - |msg| % 64
    {
      Left(|msg|);
    }

    /** Holds looks at the beginning of all only. */
    lemma Extended(all: seq<bv8>, done: nat, n: nat)
      requires n <= |all| && Holds(all[..n], done, n)
      ensures Holds(all, done, n)
    {
      assert all[..n][..done] == all[..done] && all[..n][done..n] == all[done..n];
    }
  }

  lemma NextBlock(all: seq<bv8>, done: nat)
    requires done % 64 == 0 && done + 64 <= |all|
    ensures forall alg :: HashBlocks(alg, all[..done + 64]) == Compress(HashBlocks(alg, all[..done]), all[done..done + 64])
  {
    forall alg
      ensures HashBlocks(alg, all[..done + 64]) == Compress(HashBlocks(alg, all[..done]), all[done..done + 64])
    {
      HashMore(alg, all[..done], all[done..done + 64]);
      assert all[..done] + all[done..done + 64] == all[..done + 64];
    }
  }

  lemma Piece(was: seq<bv8>, input: seq<bv8>, i: nat, j: nat)
    requires i <= j <= |input|
    ensures (was + input)[|was| + i..|was| + j] == input[i..j]
    ensures j == |input| ==> (was + input)[|was| + i..] == input[i..]
    ensures i == 0 ==> input[i..j] == input[..j]
  {
  }

  /** sha1_padding, sha256_padding */
  function PaddingBytes(): (s: seq<bv8>)
    ensures |s| == 64
  {
    [0x80] + Zeros(63)
  }

  lemma Padding(n: nat, padn: nat)
    requires padn == if n % 64 < 0x38 then 0x38 - n % 64 else 0x78 - n % 64
    ensures padn <= 64 && PaddingBytes()[..padn] == [0x80] + Zeros((55 - n) % 64)
  {
    assert padn == 1 + (55 - n) % 64;
  }

  lemma PutWide(w: Sha1.Wide)
    ensures Sha1.Put(w.a) == WordBytes(Sha1.Low(w.a)) && Sha1.Put(w.b) == WordBytes(Sha1.Low(w.b))
    ensures Sha1.Put(w.c) == WordBytes(Sha1.Low(w.c)) && Sha1.Put(w.d) == WordBytes(Sha1.Low(w.d))
    ensures Sha1.Put(w.e) == WordBytes(Sha1.Low(w.e))
  {
    hide Sha1.Put, Sha1.Low, WordBytes;
    Sha1.PutIs(w.a);
    Sha1.PutIs(w.b);
    Sha1.PutIs(w.c);
    Sha1.PutIs(w.d);
    Sha1.PutIs(w.e);
  }

  function Concat(chunks: seq<seq<bv8>>): seq<bv8> {
    if chunks == [] then [] else Concat(chunks[..|chunks| - 1]) + chunks[|chunks| - 1]
  }

  /** However a message is cut up, feeding the pieces gives the digest of the message. */
  method HashPieces(alg: Alg, chunks: seq<seq<bv8>>) returns (digest: seq<bv8>)
    requires forall c | c in chunks :: |c| < M32
    ensures digest == Sha(alg, Concat(chunks))
  {
    hide Sha;
    var ctx := new Context(alg);
    for k := 0 to |chunks|
      invariant fresh(ctx) && fresh(ctx.buffer) && ctx.alg == alg
      invariant ctx.Valid() && ctx.msg == Concat(chunks[..k])
    {
      assert chunks[k] in chunks;
      ctx.Update(chunks[k]);
      assert chunks[..k + 1][..k] == chunks[..k];
    }
    assert chunks[..|chunks|] == chunks;
    digest := ctx.Finish();
  }

  /** sha1_csum, sha256_csum */
  method Csum(alg: Alg, input: seq<bv8>) returns (digest: seq<bv8>)
    requires |input| < M32
    ensures digest == Sha(alg, input)
  {
    hide Sha;
    var ctx := new Context(alg);
    ctx.Update(input);
    assert [] + input == input;
    digest := ctx.Finish();
  }
}
