/**
 The words of FIPS 180-4: 32 bits, added modulo 2^32, stored with the most
 significant byte first.
 */
module ShaWords {
  function Add(x: bv32, y: bv32): bv32 {
    x + y
  }

  /** Ch, Parity and Maj of sections 4.1.1 and 4.1.2 */
  function Ch(x: bv32, y: bv32, z: bv32): bv32 {
    (x & y) ^ (!x & z)
  }

  function Parity(x: bv32, y: bv32, z: bv32): bv32 {
    x ^ y ^ z
  }

  function Maj(x: bv32, y: bv32, z: bv32): bv32 {
    (x & y) ^ (x & z) ^ (y & z)
  }

  function ToWord(b0: bv8, b1: bv8, b2: bv8, b3: bv8): bv32 {
    ((b0 as bv32) << 24) | ((b1 as bv32) << 16) | ((b2 as bv32) << 8) | (b3 as bv32)
  }

  /** Word i of a block */
  function BlockWord(block: seq<bv8>, i: nat): bv32
    requires 4 * i + 4 <= |block|
  {
    ToWord(block[4 * i], block[4 * i + 1], block[4 * i + 2], block[4 * i + 3])
  }

  function WordBytes(w: bv32): (s: seq<bv8>)
    ensures |s| == 4
  {
    [(w >> 24) as bv8, ((w >> 16) & 0xFF) as bv8, ((w >> 8) & 0xFF) as bv8, (w & 0xFF) as bv8]
  }
}

/** SHA-1 as sections 4.2.1, 5.3.1 and 6.1.2 of FIPS 180-4 define it */
module Sha1Spec {
  import opened ShaWords

  datatype Five = Five(a: bv32, b: bv32, c: bv32, d: bv32, e: bv32)

  const INITIAL := Five(0x67452301, 0xEFCDAB89, 0x98BADCFE, 0x10325476, 0xC3D2E1F0)

  function Rotl1(x: bv32): bv32 {
    (x << 1) | (x >> 31)
  }

  function Rotl5(x: bv32): bv32 {
    (x << 5) | (x >> 27)
  }

  function Rotl30(x: bv32): bv32 {
    (x << 30) | (x >> 2)
  }

  function F(t: nat, x: bv32, y: bv32, z: bv32): bv32 {
    if t < 20 then Ch(x, y, z)
    else if 40 <= t < 60 then Maj(x, y, z)
    else Parity(x, y, z)
  }

  function K(t: nat): bv32 {
    if t < 20 then 0x5A827999
    else if t < 40 then 0x6ED9EBA1
    else if t < 60 then 0x8F1BBCDC
    else 0xCA62C1D6
  }

  function Mix(p: bv32, q: bv32, r: bv32, s: bv32): bv32 {
    Rotl1(p ^ q ^ r ^ s)
  }

  /** The message schedule */
  function W(block: seq<bv8>, t: nat): bv32
    requires |block| == 64
  {
    if t < 16 then BlockWord(block, t)
    else Mix(W(block, t - 3), W(block, t - 8), W(block, t - 14), W(block, t - 16))
  }

  function Round(s: Five, t: nat, w: bv32): Five {
    Five(Add(Add(Add(Add(Rotl5(s.a), F(t, s.b, s.c, s.d)), s.e), K(t)), w), s.a, Rotl30(s.b), s.c, s.d)
  }

  /** The working variables after t rounds */
  function Rounds(h: Five, block: seq<bv8>, t: nat): Five
    requires |block| == 64
  {
    if t == 0 then h else Round(Rounds(h, block, t - 1), t - 1, W(block, t - 1))
  }

  /** The next intermediate hash value */
  function Compress(h: Five, block: seq<bv8>): Five
    requires |block| == 64
  {
    var r := Rounds(h, block, 80);
    Five(Add(r.a, h.a), Add(r.b, h.b), Add(r.c, h.c), Add(r.d, h.d), Add(r.e, h.e))
  }
}

/**
 sha1_process of scripts/resource_tool.c. Its words are unsigned long, 64 bits wide here:
 whatever collects in the upper half never reaches the lower one.
 */
module Sha1 {
  import opened ShaWords
  import opened Sha1Spec

  datatype Wide = Wide(a: bv64, b: bv64, c: bv64, d: bv64, e: bv64)

  /** The 32 bits that count */
  function Low(x: bv64): bv32 {
    (x & 0xFFFF_FFFF) as bv32
  }

  function Value(s: Wide): Five {
    Five(Low(s.a), Low(s.b), Low(s.c), Low(s.d), Low(s.e))
  }

  function Plus(x: bv64, y: bv64): bv64 {
    x + y
  }

  /** The macro S for the three distances it is used with */
  function S1(x: bv64): bv64 {
    (x << 1) | ((x & 0xFFFF_FFFF) >> 31)
  }

  function S5(x: bv64): bv64 {
    (x << 5) | ((x & 0xFFFF_FFFF) >> 27)
  }

  function S30(x: bv64): bv64 {
    (x << 30) | ((x & 0xFFFF_FFFF) >> 2)
  }

  /** The macro F as it is redefined for each twenty rounds */
  function WideF(t: nat, x: bv64, y: bv64, z: bv64): bv64 {
    if t < 20 then z ^ (x & (y ^ z))
    else if 40 <= t < 60 then (x & y) | (z & (x | y))
    else x ^ y ^ z
  }

  function WideK(t: nat): bv64 {
    if t < 20 then 0x5A827999
    else if t < 40 then 0x6ED9EBA1
    else if t < 60 then 0x8F1BBCDC
    else 0xCA62C1D6
  }

  /** GET_UINT32_BE */
  function Get(b0: bv8, b1: bv8, b2: bv8, b3: bv8): bv64 {
    ((b0 as bv64) << 24) | ((b1 as bv64) << 16) | ((b2 as bv64) << 8) | (b3 as bv64)
  }

  /** PUT_UINT32_BE */
  function Put(n: bv64): (s: seq<bv8>)
    ensures |s| == 4
  {
    [((n >> 24) & 0xFF) as bv8, ((n >> 16) & 0xFF) as bv8, ((n >> 8) & 0xFF) as bv8, (n & 0xFF) as bv8]
  }

  /** The expression of the macro R */
  function MixWide(p: bv64, q: bv64, r: bv64, s: bv64): bv64 {
    S1(p ^ q ^ r ^ s)
  }

  // Taking the lower half commutes with everything sha1_process does.

  lemma LowIs(x: bv64)
    ensures Low(x) == (x & 0xFFFF_FFFF) as bv32
  {
  }

  lemma LowOfPlus(x: bv64, y: bv64)
    ensures (Plus(x, y) & 0xFFFF_FFFF) as bv32 == ((x & 0xFFFF_FFFF) as bv32) + ((y & 0xFFFF_FFFF) as bv32)
  {
  }

  lemma AddOfLow(x: bv64, y: bv64)
    ensures Add((x & 0xFFFF_FFFF) as bv32, (y & 0xFFFF_FFFF) as bv32)
            == ((x & 0xFFFF_FFFF) as bv32) + ((y & 0xFFFF_FFFF) as bv32)
  {
  }

  lemma PlusIsAdd(x: bv64, y: bv64)
    ensures (Plus(x, y) & 0xFFFF_FFFF) as bv32 == Add((x & 0xFFFF_FFFF) as bv32, (y & 0xFFFF_FFFF) as bv32)
  {
    hide Plus, Add;
    LowOfPlus(x, y);
    AddOfLow(x, y);
  }

  lemma LowPlus(x: bv64, y: bv64)
    ensures Low(Plus(x, y)) == Add(Low(x), Low(y))
  {
    hide Low, Plus, Add;
    LowIs(x);
    LowIs(y);
    LowIs(Plus(x, y));
    PlusIsAdd(x, y);
  }

  lemma LowTurn1(x: bv64)
    ensures Low((x << 1) | ((x & 0xFFFF_FFFF) >> 31)) == (Low(x) << 1) | (Low(x) >> 31)
  {
  }

  lemma LowTurn5(x: bv64)
    ensures Low((x << 5) | ((x & 0xFFFF_FFFF) >> 27)) == (Low(x) << 5) | (Low(x) >> 27)
  {
  }

  lemma LowTurn30(x: bv64)
    ensures Low((x << 30) | ((x & 0xFFFF_FFFF) >> 2)) == (Low(x) << 30) | (Low(x) >> 2)
  {
  }

  lemma LowS1(x: bv64)
    ensures Low(S1(x)) == Rotl1(Low(x))
  {
    hide Low;
    LowTurn1(x);
  }

  lemma LowS5(x: bv64)
    ensures Low(S5(x)) == Rotl5(Low(x))
  {
    hide Low;
    LowTurn5(x);
  }

  lemma LowS30(x: bv64)
    ensures Low(S30(x)) == Rotl30(Low(x))
  {
    hide Low;
    LowTurn30(x);
  }

  lemma LowXor(p: bv64, q: bv64, r: bv64, s: bv64)
    ensures Low(p ^ q ^ r ^ s) == Low(p) ^ Low(q) ^ Low(r) ^ Low(s)
  {
  }

  lemma LowMix(p: bv64, q: bv64, r: bv64, s: bv64)
    ensures Low(MixWide(p, q, r, s)) == Mix(Low(p), Low(q), Low(r), Low(s))
  {
    hide Low, S1, Rotl1;
    LowXor(p, q, r, s);
    LowS1(p ^ q ^ r ^ s);
  }

  lemma LowCh(x: bv64, y: bv64, z: bv64)
    ensures Low(z ^ (x & (y ^ z))) == Ch(Low(x), Low(y), Low(z))
  {
  }

  lemma LowMaj(x: bv64, y: bv64, z: bv64)
    ensures Low((x & y) | (z & (x | y))) == Maj(Low(x), Low(y), Low(z))
  {
  }

  lemma LowParity(x: bv64, y: bv64, z: bv64)
    ensures Low(x ^ y ^ z) == Parity(Low(x), Low(y), Low(z))
  {
  }

  lemma LowF(t: nat, x: bv64, y: bv64, z: bv64)
    ensures Low(WideF(t, x, y, z)) == F(t, Low(x), Low(y), Low(z))
  {
    hide Low, Ch, Maj, Parity;
    if t < 20 {
      LowCh(x, y, z);
    } else if 40 <= t < 60 {
      LowMaj(x, y, z);
    } else {
      LowParity(x, y, z);
    }
  }

  lemma LowK(t: nat)
    ensures Low(WideK(t)) == K(t)
  {
  }

  lemma LowGet(b0: bv8, b1: bv8, b2: bv8, b3: bv8)
    ensures Low(Get(b0, b1, b2, b3)) == ToWord(b0, b1, b2, b3)
  {
  }

  lemma PutIs(n: bv64)
    ensures Put(n) == WordBytes(Low(n))
  {
  }

  lemma AddMoves(x: bv32, y: bv32, z: bv32)
    ensures Add(Add(x, y), z) == Add(x, Add(y, z))
    ensures Add(x, y) == Add(y, x)
  {
  }

  // The rounds

  /** The sum of a round in the order of the macro P is the standard's. */
  lemma RoundSum(e: bv32, s: bv32, f: bv32, k: bv32, x: bv32)
    ensures Add(e, Add(Add(Add(s, f), k), x)) == Add(Add(Add(Add(s, f), e), k), x)
  {
    hide Add;
    var sf := Add(s, f);
    AddMoves(sf, k, x);
    AddMoves(sf, e, Add(k, x));
    AddMoves(e, sf, Add(k, x));
    AddMoves(Add(sf, e), k, x);
  }

  /** The macro P for round t. Its arguments e and b are the two it changes. */
  method P(a: bv64, b: bv64, c: bv64, d: bv64, e: bv64, x: bv64, t: nat) returns (e': bv64, b': bv64)
    ensures Five(Low(e'), Low(a), Low(b'), Low(c), Low(d))
            == Round(Five(Low(a), Low(b), Low(c), Low(d), Low(e)), t, Low(x))
  {
    hide Low, Plus, Add, S5, S30, Rotl5, Rotl30, WideF, F, WideK, K;
    var f := WideF(t, b, c, d);
    var k := WideK(t);
    e' := Plus(e, Plus(Plus(Plus(S5(a), f), k), x));
    b' := S30(b);
    LowS5(a);
    LowS30(b);
    LowF(t, b, c, d);
    LowK(t);
    LowPlus(S5(a), f);
    LowPlus(Plus(S5(a), f), k);
    LowPlus(Plus(Plus(S5(a), f), k), x);
    LowPlus(e, Plus(Plus(Plus(S5(a), f), k), x));
    RoundSum(Low(e), Rotl5(Low(a)), Low(f), Low(k), Low(x));
  }

  /** The sixteen words hold the last sixteen of the schedule (section 6.1.3). */
  ghost predicate Ring(w: seq<bv64>, block: seq<bv8>, t: nat)
    requires |w| == 16 && |block| == 64
  {
    forall j: nat | j < t <= j + 16 :: Low(w[j % 16]) == W(block, j)
  }

  lemma RingAt(w: seq<bv64>, block: seq<bv8>, t: nat, back: nat)
    requires |w| == 16 && |block| == 64 && Ring(w, block, t) && 1 <= back <= 16 <= t
    ensures Low(w[(t - back) % 16]) == W(block, t - back)
  {
  }

  lemma OtherSlot(j: nat, t: nat)
    requires j < t < j + 16
    ensures j % 16 != t % 16
  {
    assert j == j / 16 * 16 + j % 16 && t == t / 16 * 16 + t % 16;
  }

  lemma RingNext(w: seq<bv64>, block: seq<bv8>, t: nat, x: bv64)
    requires |w| == 16 && |block| == 64 && Ring(w, block, t) && t >= 16
    requires Low(x) == W(block, t)
    ensures Ring(w[t % 16 := x], block, t + 1)
  {
    hide Low, W;
    forall j: nat | j < t + 1 <= j + 16
      ensures Low(w[t % 16 := x][j % 16]) == W(block, j)
    {
      if j != t {
        OtherSlot(j, t);
      }
    }
  }

  /** The argument of round t: one of the first sixteen words, or the macro R */
  method R(w: array<bv64>, t: nat, ghost block: seq<bv8>) returns (x: bv64)
    requires w.Length == 16 && |block| == 64
    requires Ring(w[..], block, if t < 16 then 16 else t)
    modifies w
    ensures Low(x) == W(block, t)
    ensures Ring(w[..], block, if t < 16 then 16 else t + 1)
  {
    hide Low, Mix, MixWide, Ring, W;
    if t < 16 {
      RingFirst(w[..], block, t);
      return w[t];
    }
    RingAt(w[..], block, t, 3);
    RingAt(w[..], block, t, 8);
    RingAt(w[..], block, t, 14);
    RingAt(w[..], block, t, 16);
    assert (t - 16) % 16 == t % 16;
    x := MixWide(w[(t - 3) % 16], w[(t - 8) % 16], w[(t - 14) % 16], w[t % 16]);
    LowMix(w[(t - 3) % 16], w[(t - 8) % 16], w[(t - 14) % 16], w[t % 16]);
    NextW(block, t);
    RingNext(w[..], block, t, x);
    w[t % 16] := x;
  }

  lemma RingFirst(w: seq<bv64>, block: seq<bv8>, t: nat)
    requires |w| == 16 && |block| == 64 && Ring(w, block, 16) && t < 16
    ensures Low(w[t]) == W(block, t)
  {
    assert t % 16 == t;
  }

  lemma NextW(block: seq<bv8>, t: nat)
    requires |block| == 64 && t >= 16
    ensures W(block, t) == Mix(W(block, t - 3), W(block, t - 8), W(block, t - 14), W(block, t - 16))
  {
  }

  lemma NextRound(h: Five, block: seq<bv8>, t: nat)
    requires |block| == 64
    ensures Rounds(h, block, t + 1) == Round(Rounds(h, block, t), t, W(block, t))
  {
  }

  lemma RingStart(w: seq<bv64>, block: seq<bv8>)
    requires |w| == 16 && |block| == 64 && forall j | 0 <= j < 16 :: Low(w[j]) == W(block, j)
    ensures Ring(w, block, 16)
  {
    hide Low, W;
  }

  lemma FirstW(block: seq<bv8>, t: nat)
    requires |block| == 64 && t < 16
    ensures W(block, t) == ToWord(block[4 * t], block[4 * t + 1], block[4 * t + 2], block[4 * t + 3])
  {
  }

  /** The GET_UINT32_BE lines */
  method GetWords(data: seq<bv8>) returns (w: array<bv64>)
    requires |data| == 64
    ensures fresh(w) && w.Length == 16 && Ring(w[..], data, 16)
  {
    hide Low, Get, ToWord, W, Ring;
    w := new bv64[16];
    for i := 0 to 16
      invariant forall j | 0 <= j < i :: Low(w[j]) == W(data, j)
    {
      FirstW(data, i);
      w[i] := Get(data[4 * i], data[4 * i + 1], data[4 * i + 2], data[4 * i + 3]);
      LowGet(data[4 * i], data[4 * i + 1], data[4 * i + 2], data[4 * i + 3]);
    }
    RingStart(w[..], data);
  }

  /**
   sha1_process. The eighty rounds come five at a time: after five the registers are back
   in their places.
   */
  method Process(state: Wide, data: seq<bv8>) returns (r: Wide)
    requires |data| == 64
    ensures Value(r) == Compress(Value(state), data)
  {
    hide Low, Plus, Add, Ring, Round, Rounds, W;
    var w := GetWords(data);
    var A, B, C, D, E := state.a, state.b, state.c, state.d, state.e;
    RoundZero(Value(state), data);
    for g := 0 to 16
      invariant Five(Low(A), Low(B), Low(C), Low(D), Low(E)) == Rounds(Value(state), data, 5 * g)
      invariant Ring(w[..], data, if 5 * g < 16 then 16 else 5 * g)
    {
      var x := R(w, 5 * g, data);
      NextRound(Value(state), data, 5 * g);
      E, B := P(A, B, C, D, E, x, 5 * g);
      x := R(w, 5 * g + 1, data);
      NextRound(Value(state), data, 5 * g + 1);
      D, A := P(E, A, B, C, D, x, 5 * g + 1);
      x := R(w, 5 * g + 2, data);
      NextRound(Value(state), data, 5 * g + 2);
      C, E := P(D, E, A, B, C, x, 5 * g + 2);
      x := R(w, 5 * g + 3, data);
      NextRound(Value(state), data, 5 * g + 3);
      B, D := P(C, D, E, A, B, x, 5 * g + 3);
      x := R(w, 5 * g + 4, data);
      NextRound(Value(state), data, 5 * g + 4);
      A, C := P(B, C, D, E, A, x, 5 * g + 4);
    }
    r := Sum(state, Wide(A, B, C, D, E));
  }

  lemma RoundZero(h: Five, block: seq<bv8>)
    requires |block| == 64
    ensures Rounds(h, block, 0) == h
  {
  }

  /** The final additions */
  method Sum(s: Wide, t: Wide) returns (r: Wide)
    ensures var v, u := Value(s), Value(t);
            Value(r) == Five(Add(u.a, v.a), Add(u.b, v.b), Add(u.c, v.c), Add(u.d, v.d), Add(u.e, v.e))
  {
    hide Low, Plus, Add;
    r := Wide(Plus(s.a, t.a), Plus(s.b, t.b), Plus(s.c, t.c), Plus(s.d, t.d), Plus(s.e, t.e));
    LowPlus(s.a, t.a);
    LowPlus(s.b, t.b);
    LowPlus(s.c, t.c);
    LowPlus(s.d, t.d);
    LowPlus(s.e, t.e);
    AddMoves(Low(s.a), Low(t.a), 0);
    AddMoves(Low(s.b), Low(t.b), 0);
    AddMoves(Low(s.c), Low(t.c), 0);
    AddMoves(Low(s.d), Low(t.d), 0);
    AddMoves(Low(s.e), Low(t.e), 0);
  }
}
