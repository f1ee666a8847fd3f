/** SHA-256 as sections 4.2.2, 5.3.3 and 6.2.2 of FIPS 180-4 define it */
module Sha256Spec {
  import opened ShaWords

  datatype Eight = Eight(a: bv32, b: bv32, c: bv32, d: bv32, e: bv32, f: bv32, g: bv32, h: bv32)

  const INITIAL := Eight(0x6A09E667, 0xBB67AE85, 0x3C6EF372, 0xA54FF53A, 0x510E527F, 0x9B05688C, 0x1F83D9AB, 0x5BE0CD19)

  const CONSTANTS: seq<bv32> :=
    [0x428A2F98, 0x71374491, 0xB5C0FBCF, 0xE9B5DBA5, 0x3956C25B, 0x59F111F1, 0x923F82A4, 0xAB1C5ED5]
    + [0xD807AA98, 0x12835B01, 0x243185BE, 0x550C7DC3, 0x72BE5D74, 0x80DEB1FE, 0x9BDC06A7, 0xC19BF174]
    + [0xE49B69C1, 0xEFBE4786, 0x0FC19DC6, 0x240CA1CC, 0x2DE92C6F, 0x4A7484AA, 0x5CB0A9DC, 0x76F988DA]
    + [0x983E5152, 0xA831C66D, 0xB00327C8, 0xBF597FC7, 0xC6E00BF3, 0xD5A79147, 0x06CA6351, 0x14292967]
    + [0x27B70A85, 0x2E1B2138, 0x4D2C6DFC, 0x53380D13, 0x650A7354, 0x766A0ABB, 0x81C2C92E, 0x92722C85]
    + [0xA2BFE8A1, 0xA81A664B, 0xC24B8B70, 0xC76C51A3, 0xD192E819, 0xD6990624, 0xF40E3585, 0x106AA070]
    + [0x19A4C116, 0x1E376C08, 0x2748774C, 0x34B0BCB5, 0x391C0CB3, 0x4ED8AA4A, 0x5B9CCA4F, 0x682E6FF3]
    + [0x748F82EE, 0x78A5636F, 0x84C87814, 0x8CC70208, 0x90BEFFFA, 0xA4506CEB, 0xBEF9A3F7, 0xC67178F2]

  function K(t: nat): bv32 {
    if t < |CONSTANTS| then CONSTANTS[t] else 0
  }

  function BigSigma0(x: bv32): bv32 {
    ((x >> 2) | (x << 30)) ^ ((x >> 13) | (x << 19)) ^ ((x >> 22) | (x << 10))
  }

  function BigSigma1(x: bv32): bv32 {
    ((x >> 6) | (x << 26)) ^ ((x >> 11) | (x << 21)) ^ ((x >> 25) | (x << 7))
  }

  function SmallSigma0(x: bv32): bv32 {
    ((x >> 7) | (x << 25)) ^ ((x >> 18) | (x << 14)) ^ (x >> 3)
  }

  function SmallSigma1(x: bv32): bv32 {
    ((x >> 17) | (x << 15)) ^ ((x >> 19) | (x << 13)) ^ (x >> 10)
  }

  function Mix(p: bv32, q: bv32, r: bv32, s: bv32): bv32 {
    Add(Add(Add(SmallSigma1(p), q), SmallSigma0(r)), s)
  }

  /** The message schedule */
  function W(block: seq<bv8>, t: nat): bv32
    requires |block| == 64
  {
    if t < 16 then BlockWord(block, t)
    else Mix(W(block, t - 2), W(block, t - 7), W(block, t - 15), W(block, t - 16))
  }

  function Round(s: Eight, k: bv32, w: bv32): Eight {
    var t1 := Add(Add(Add(Add(s.h, BigSigma1(s.e)), Ch(s.e, s.f, s.g)), k), w);
    var t2 := Add(BigSigma0(s.a), Maj(s.a, s.b, s.c));
    Eight(Add(t1, t2), s.a, s.b, s.c, Add(s.d, t1), s.e, s.f, s.g)
  }

  /** The working variables after t rounds */
  function Rounds(h: Eight, block: seq<bv8>, t: nat): Eight
    requires |block| == 64
  {
    if t == 0 then h else Round(Rounds(h, block, t - 1), K(t - 1), W(block, t - 1))
  }

  /** The next intermediate hash value */
  function Compress(h: Eight, block: seq<bv8>): Eight
    requires |block| == 64
  {
    var r := Rounds(h, block, 64);
    Eight(Add(r.a, h.a), Add(r.b, h.b), Add(r.c, h.c), Add(r.d, h.d),
          Add(r.e, h.e), Add(r.f, h.f), Add(r.g, h.g), Add(r.h, h.h))
  }
}

/** sha256_process of scripts/resource_tool.c, on uint32_t words */
module Sha256 {
  import opened ShaWords
  import opened Sha256Spec
  import Sha1

  /** The macros S0 to S3, with SHR and ROTR written out */
  function S0(x: bv32): bv32 {
    (((x & 0xFFFF_FFFF) >> 7) | (x << 25)) ^ (((x & 0xFFFF_FFFF) >> 18) | (x << 14)) ^ ((x & 0xFFFF_FFFF) >> 3)
  }

  function S1(x: bv32): bv32 {
    (((x & 0xFFFF_FFFF) >> 17) | (x << 15)) ^ (((x & 0xFFFF_FFFF) >> 19) | (x << 13)) ^ ((x & 0xFFFF_FFFF) >> 10)
  }

  function S2(x: bv32): bv32 {
    (((x & 0xFFFF_FFFF) >> 2) | (x << 30)) ^ (((x & 0xFFFF_FFFF) >> 13) | (x << 19))
    ^ (((x & 0xFFFF_FFFF) >> 22) | (x << 10))
  }

  function S3(x: bv32): bv32 {
    (((x & 0xFFFF_FFFF) >> 6) | (x << 26)) ^ (((x & 0xFFFF_FFFF) >> 11) | (x << 21))
    ^ (((x & 0xFFFF_FFFF) >> 25) | (x << 7))
  }

  function F0(x: bv32, y: bv32, z: bv32): bv32 {
    (x & y) | (z & (x | y))
  }

  function F1(x: bv32, y: bv32, z: bv32): bv32 {
    z ^ (x & (y ^ z))
  }

  lemma SigmasAre(x: bv32)
    ensures S0(x) == SmallSigma0(x) && S1(x) == SmallSigma1(x)
    ensures S2(x) == BigSigma0(x) && S3(x) == BigSigma1(x)
  {
  }

  lemma MajForms(x: bv32, y: bv32, z: bv32)
    ensures (x & y) | (z & (x | y)) == (x & y) ^ (x & z) ^ (y & z)
  {
  }

  lemma ChForms(x: bv32, y: bv32, z: bv32)
    ensures z ^ (x & (y ^ z)) == (x & y) ^ (!x & z)
  {
  }

  lemma F0Is(x: bv32, y: bv32, z: bv32)
    ensures F0(x, y, z) == Maj(x, y, z)
  {
    MajForms(x, y, z);
  }

  lemma F1Is(x: bv32, y: bv32, z: bv32)
    ensures F1(x, y, z) == Ch(x, y, z)
  {
    ChForms(x, y, z);
  }

  /** The macro P. Its arguments d and h are the two it changes. */
  method P(a: bv32, b: bv32, c: bv32, d: bv32, e: bv32, f: bv32, g: bv32, h: bv32, x: bv32, k: bv32)
    returns (d': bv32, h': bv32)
    ensures Eight(h', a, b, c, d', e, f, g) == Round(Eight(a, b, c, d, e, f, g, h), k, x)
  {
    hide Add, S2, S3, F0, F1, BigSigma0, BigSigma1, Ch, Maj;
    SigmasAre(a);
    SigmasAre(e);
    F0Is(a, b, c);
    F1Is(e, f, g);
    var temp1 := Add(Add(Add(Add(h, S3(e)), F1(e, f, g)), k), x);
    var temp2 := Add(S2(a), F0(a, b, c));
    d' := Add(d, temp1);
    h' := Add(temp1, temp2);
  }

  /** The words filled in so far are the schedule. */
  ghost predicate Filled(w: seq<bv32>, block: seq<bv8>, t: nat)
    requires |w| == 64 && |block| == 64
  {
    forall j: nat | j < t && j < 64 :: w[j] == W(block, j)
  }

  lemma FilledAt(w: seq<bv32>, block: seq<bv8>, t: nat, j: nat)
    requires |w| == 64 && |block| == 64 && Filled(w, block, t) && j < t <= 64
    ensures w[j] == W(block, j)
  {
  }

  lemma FilledNext(w: seq<bv32>, block: seq<bv8>, t: nat, x: bv32)
    requires |w| == 64 && |block| == 64 && Filled(w, block, t) && t < 64 && x == W(block, t)
    ensures Filled(w[t := x], block, t + 1)
  {
  }

  lemma NextW(block: seq<bv8>, t: nat)
    requires |block| == 64 && t >= 16
    ensures W(block, t) == Mix(W(block, t - 2), W(block, t - 7), W(block, t - 15), W(block, t - 16))
  {
  }

  lemma NextRound(h: Eight, block: seq<bv8>, t: nat)
    requires |block| == 64
    ensures Rounds(h, block, 0) == h
    ensures Rounds(h, block, t + 1) == Round(Rounds(h, block, t), K(t), W(block, t))
  {
  }

  /** The argument of round t: one of the first sixteen words, or the macro R */
  method R(w: array<bv32>, t: nat, ghost block: seq<bv8>) returns (x: bv32)
    requires w.Length == 64 && |block| == 64 && t < 64
    requires Filled(w[..], block, if t < 16 then 16 else t)
    modifies w
    ensures x == W(block, t)
    ensures Filled(w[..], block, if t < 16 then 16 else t + 1)
  {
    hide Add, S0, S1, SmallSigma0, SmallSigma1, Filled, W;
    if t < 16 {
      FilledAt(w[..], block, 16, t);
      return w[t];
    }
    FilledAt(w[..], block, t, t - 2);
    FilledAt(w[..], block, t, t - 7);
    FilledAt(w[..], block, t, t - 15);
    FilledAt(w[..], block, t, t - 16);
    SigmasAre(w[t - 2]);
    SigmasAre(w[t - 15]);
    x := Add(Add(Add(S1(w[t - 2]), w[t - 7]), S0(w[t - 15])), w[t - 16]);
    NextW(block, t);
    FilledNext(w[..], block, t, x);
    w[t] := x;
  }

  /** The GET_UINT32_BE lines, from unsigned long to uint32_t */
  method GetWords(data: seq<bv8>) returns (w: array<bv32>)
    requires |data| == 64
    ensures fresh(w) && w.Length == 64 && Filled(w[..], data, 16)
  {
    hide Sha1.Low, Sha1.Get, ToWord;
    w := new bv32[64];
    for i := 0 to 16
      invariant forall j | 0 <= j < i :: w[j] == W(data, j)
    {
      w[i] := Sha1.Low(Sha1.Get(data[4 * i], data[4 * i + 1], data[4 * i + 2], data[4 * i + 3]));
      Sha1.LowGet(data[4 * i], data[4 * i + 1], data[4 * i + 2], data[4 * i + 3]);
    }
  }

  /**
   sha256_process. The sixty-four rounds come eight at a time: after eight the registers are
   back in their places.
   */
  method Process(state: Eight, data: seq<bv8>) returns (r: Eight)
    requires |data| == 64
    ensures r == Compress(state, data)
  {
    hide Add, Filled, Round, Rounds, W, K;
    var w := GetWords(data);
    var A, B, C, D, E, F, G, H := state.a, state.b, state.c, state.d, state.e, state.f, state.g, state.h;
    NextRound(state, data, 0);
    for n := 0 to 8
      invariant Eight(A, B, C, D, E, F, G, H) == Rounds(state, data, 8 * n)
      invariant Filled(w[..], data, if 8 * n < 16 then 16 else 8 * n)
    {
      var x := R(w, 8 * n, data);
      NextRound(state, data, 8 * n);
      D, H := P(A, B, C, D, E, F, G, H, x, K(8 * n));
      x := R(w, 8 * n + 1, data);
      NextRound(state, data, 8 * n + 1);
      C, G := P(H, A, B, C, D, E, F, G, x, K(8 * n + 1));
      x := R(w, 8 * n + 2, data);
      NextRound(state, data, 8 * n + 2);
      B, F := P(G, H, A, B, C, D, E, F, x, K(8 * n + 2));
      x := R(w, 8 * n + 3, data);
      NextRound(state, data, 8 * n + 3);
      A, E := P(F, G, H, A, B, C, D, E, x, K(8 * n + 3));
      x := R(w, 8 * n + 4, data);
      NextRound(state, data, 8 * n + 4);
      H, D := P(E, F, G, H, A, B, C, D, x, K(8 * n + 4));
      x := R(w, 8 * n + 5, data);
      NextRound(state, data, 8 * n + 5);
      G, C := P(D, E, F, G, H, A, B, C, x, K(8 * n + 5));
      x := R(w, 8 * n + 6, data);
      NextRound(state, data, 8 * n + 6);
      F, B := P(C, D, E, F, G, H, A, B, x, K(8 * n + 6));
      x := R(w, 8 * n + 7, data);
      NextRound(state, data, 8 * n + 7);
      E, A := P(B, C, D, E, F, G, H, A, x, K(8 * n + 7));
    }
    SumMoves(state, Eight(A, B, C, D, E, F, G, H));
    r := Eight(Add(state.a, A), Add(state.b, B), Add(state.c, C), Add(state.d, D),
               Add(state.e, E), Add(state.f, F), Add(state.g, G), Add(state.h, H));
  }

  lemma SumMoves(s: Eight, t: Eight)
    ensures Add(s.a, t.a) == Add(t.a, s.a) && Add(s.b, t.b) == Add(t.b, s.b)
    ensures Add(s.c, t.c) == Add(t.c, s.c) && Add(s.d, t.d) == Add(t.d, s.d)
    ensures Add(s.e, t.e) == Add(t.e, s.e) && Add(s.f, t.f) == Add(t.f, s.f)
    ensures Add(s.g, t.g) == Add(t.g, s.g) && Add(s.h, t.h) == Add(t.h, s.h)
  {
    hide Add;
    Sha1.AddMoves(s.a, t.a, 0);
    Sha1.AddMoves(s.b, t.b, 0);
    Sha1.AddMoves(s.c, t.c, 0);
    Sha1.AddMoves(s.d, t.d, 0);
    Sha1.AddMoves(s.e, t.e, 0);
    Sha1.AddMoves(s.f, t.f, 0);
    Sha1.AddMoves(s.g, t.g, 0);
    Sha1.AddMoves(s.h, t.h, 0);
  }
}
