/**
 What the constants of the hash functions are: the fractions of roots of the first primes
 (sections 4.2.1, 4.2.2 and 5.3.3 of FIPS 180-4), in integers.
 */
module ShaConstants {
  import opened ShaWords
  import One = Sha1Spec
  import Two = Sha256Spec

  // ---------- Primes ----------

  predicate IsPrime(n: nat) {
    n >= 2 && forall d | 2 <= d < n :: n % d != 0
  }

  function PrimesBelow(n: nat): set<nat> {
    set q | 0 <= q < n && IsPrime(q)
  }

  /** p is the prime with t primes below it. */
  predicate NthPrime(t: nat, p: nat) {
    IsPrime(p) && |PrimesBelow(p)| == t
  }

  lemma NthUnique(t: nat, p: nat, q: nat)
    requires NthPrime(t, p) && NthPrime(t, q)
    ensures p == q
  {
    if p < q {
      Fewer(p, q);
    } else if q < p {
      Fewer(q, p);
    }
  }

  lemma Fewer(p: nat, q: nat)
    requires IsPrime(p) && p < q
    ensures |PrimesBelow(p)| < |PrimesBelow(q)|
  {
    hide IsPrime;
    assert PrimesBelow(p) < PrimesBelow(q) by {
      assert p in PrimesBelow(q) && p !in PrimesBelow(p);
    }
    SmallerSet(PrimesBelow(p), PrimesBelow(q));
  }

  lemma SmallerSet(a: set<nat>, b: set<nat>)
    requires a < b
    ensures |a| < |b|
  {
    assert b == a + (b - a);
    assert b - a != {};
  }

  /** None of the primes up to 17 divides n. */
  predicate Free(n: nat) {
    n % 2 != 0 && n % 3 != 0 && n % 5 != 0 && n % 7 != 0 && n % 11 != 0 && n % 13 != 0 && n % 17 != 0
  }

  lemma NotFree(n: nat)
    ensures n % 2 == 0 || n % 3 == 0 || n % 5 == 0 || n % 7 == 0 || n % 11 == 0 || n % 13 == 0 || n % 17 == 0 <==> !Free(n)
  {
  }

  lemma Multiples(k: nat)
    ensures 2 * k % 2 == 0 && 3 * k % 3 == 0 && 5 * k % 5 == 0 && 7 * k % 7 == 0
    ensures 11 * k % 11 == 0 && 13 * k % 13 == 0 && 17 * k % 17 == 0
  {
  }

  lemma Regroup(a: nat, b: nat, c: nat)
    ensures a * b * c == a * (b * c)
  {
  }

  lemma Multiple(d: nat, k: nat)
    requires 2 <= d <= 18
    ensures !Free(d * k)
  {
    hide Free;
    NotFree(d * k);
    Multiples(k);
    if d % 2 == 0 {
      var h := d / 2;
      Multiples(h * k);
      Regroup(2, h, k);
    } else if d % 3 == 0 {
      var h := d / 3;
      Multiples(h * k);
      Regroup(3, h, k);
    }
  }

  lemma Divided(n: nat)
    requires !Free(n)
    ensures exists d | d in {2, 3, 5, 7, 11, 13, 17} :: n % d == 0
  {
  }

  lemma Larger(d: nat, k: nat)
    ensures d >= 19 && k >= 19 ==> d * k >= 361
    ensures k <= 1 ==> d * k <= d
  {
  }

  /** The sieve: below 19 * 19 a number that none of these primes divides is a prime. */
  lemma Sieve(n: nat)
    requires 17 < n < 361
    ensures IsPrime(n) <==> Free(n)
  {
    hide Free;
    if Free(n) {
      forall d | 2 <= d < n
        ensures n % d != 0
      {
        if n % d == 0 {
          var k := n / d;
          assert n == d * k;
          if d <= 18 {
            Multiple(d, k);
          } else {
            Larger(d, k);
            assert d * k == k * d;
            Multiple(k, d);
          }
        }
      }
    } else {
      Divided(n);
    }
  }

  lemma SmallPrimes()
    ensures forall n: nat | n < 19 :: IsPrime(n) <==> n in {2, 3, 5, 7, 11, 13, 17}
  {
    assert 4 % 2 == 0 && 6 % 2 == 0 && 8 % 2 == 0 && 9 % 3 == 0 && 10 % 2 == 0 && 12 % 2 == 0;
    assert 14 % 2 == 0 && 15 % 3 == 0 && 16 % 2 == 0 && 18 % 2 == 0;
  }

  lemma FirstPrime()
    ensures NthPrime(0, 2)
  {
    SmallPrimes();
    assert PrimesBelow(2) == {};
  }

  lemma NextPrime(t: nat, p: nat, q: nat)
    requires NthPrime(t, p) && p < q && IsPrime(q) && forall n | p < n < q :: !IsPrime(n)
    ensures NthPrime(t + 1, q)
  {
    hide IsPrime;
    assert PrimesBelow(q) == PrimesBelow(p) + {p};
  }

  lemma NextSmall(t: nat, p: nat, q: nat)
    requires NthPrime(t, p) && (p, q) in {(2, 3), (3, 5), (5, 7), (7, 11), (11, 13), (13, 17)}
    ensures NthPrime(t + 1, q)
  {
    hide IsPrime, PrimesBelow;
    SmallPrimes();
    forall n | p < n <= q
      ensures IsPrime(n) <==> n == q
    {
      assert n < 19;
    }
    NextPrime(t, p, q);
  }

  /** The even numbers between p and q need no look. */
  lemma NextFree(t: nat, p: nat, q: nat)
    requires NthPrime(t, p) && 17 <= p < q < 361 && q <= p + 14 && Free(q) && p % 2 == 1
    requires (q > p + 2 ==> !Free(p + 2)) && (q > p + 4 ==> !Free(p + 4)) && (q > p + 6 ==> !Free(p + 6))
    requires (q > p + 8 ==> !Free(p + 8)) && (q > p + 10 ==> !Free(p + 10)) && (q > p + 12 ==> !Free(p + 12))
    ensures NthPrime(t + 1, q)
  {
    hide IsPrime, PrimesBelow, Free;
    forall n | p < n <= q
      ensures IsPrime(n) <==> n == q
    {
      Sieve(n);
      NotFree(n);
      if n % 2 == 1 && n < q {
        assert n == p + 2 || n == p + 4 || n == p + 6 || n == p + 8 || n == p + 10 || n == p + 12;
      }
    }
    NextPrime(t, p, q);
  }

  lemma Primes0()
    ensures NthPrime(0, 2) && NthPrime(1, 3) && NthPrime(2, 5) && NthPrime(3, 7)
    ensures NthPrime(4, 11) && NthPrime(5, 13) && NthPrime(6, 17) && NthPrime(7, 19)
  {
    hide NthPrime;
    FirstPrime();
    NextSmall(0, 2, 3);
    NextSmall(1, 3, 5);
    NextSmall(2, 5, 7);
    NextSmall(3, 7, 11);
    NextSmall(4, 11, 13);
    NextSmall(5, 13, 17);
    NextFree(6, 17, 19);
  }

  lemma Primes8()
    ensures NthPrime(8, 23) && NthPrime(9, 29) && NthPrime(10, 31) && NthPrime(11, 37)
    ensures NthPrime(12, 41) && NthPrime(13, 43) && NthPrime(14, 47) && NthPrime(15, 53)
  {
    hide NthPrime;
    Primes0();
    NextFree(7, 19, 23);
    NextFree(8, 23, 29);
    NextFree(9, 29, 31);
    NextFree(10, 31, 37);
    NextFree(11, 37, 41);
    NextFree(12, 41, 43);
    NextFree(13, 43, 47);
    NextFree(14, 47, 53);
  }

  lemma Primes16()
    ensures NthPrime(16, 59) && NthPrime(17, 61) && NthPrime(18, 67) && NthPrime(19, 71)
    ensures NthPrime(20, 73) && NthPrime(21, 79) && NthPrime(22, 83) && NthPrime(23, 89)
  {
    hide NthPrime;
    Primes8();
    NextFree(15, 53, 59);
    NextFree(16, 59, 61);
    NextFree(17, 61, 67);
    NextFree(18, 67, 71);
    NextFree(19, 71, 73);
    NextFree(20, 73, 79);
    NextFree(21, 79, 83);
    NextFree(22, 83, 89);
  }

  lemma Primes24()
    ensures NthPrime(24, 97) && NthPrime(25, 101) && NthPrime(26, 103) && NthPrime(27, 107)
    ensures NthPrime(28, 109) && NthPrime(29, 113) && NthPrime(30, 127) && NthPrime(31, 131)
  {
    hide NthPrime;
    Primes16();
    NextFree(23, 89, 97);
    NextFree(24, 97, 101);
    NextFree(25, 101, 103);
    NextFree(26, 103, 107);
    NextFree(27, 107, 109);
    NextFree(28, 109, 113);
    NextFree(29, 113, 127);
    NextFree(30, 127, 131);
  }

  lemma Primes32()
    ensures NthPrime(32, 137) && NthPrime(33, 139) && NthPrime(34, 149) && NthPrime(35, 151)
    ensures NthPrime(36, 157) && NthPrime(37, 163) && NthPrime(38, 167) && NthPrime(39, 173)
  {
    hide NthPrime;
    Primes24();
    NextFree(31, 131, 137);
    NextFree(32, 137, 139);
    NextFree(33, 139, 149);
    NextFree(34, 149, 151);
    NextFree(35, 151, 157);
    NextFree(36, 157, 163);
    NextFree(37, 163, 167);
    NextFree(38, 167, 173);
  }

  lemma Primes40()
    ensures NthPrime(40, 179) && NthPrime(41, 181) && NthPrime(42, 191) && NthPrime(43, 193)
    ensures NthPrime(44, 197) && NthPrime(45, 199) && NthPrime(46, 211) && NthPrime(47, 223)
  {
    hide NthPrime;
    Primes32();
    NextFree(39, 173, 179);
    NextFree(40, 179, 181);
    NextFree(41, 181, 191);
    NextFree(42, 191, 193);
    NextFree(43, 193, 197);
    NextFree(44, 197, 199);
    NextFree(45, 199, 211);
    NextFree(46, 211, 223);
  }

  lemma Primes48()
    ensures NthPrime(48, 227) && NthPrime(49, 229) && NthPrime(50, 233) && NthPrime(51, 239)
    ensures NthPrime(52, 241) && NthPrime(53, 251) && NthPrime(54, 257) && NthPrime(55, 263)
  {
    hide NthPrime;
    Primes40();
    NextFree(47, 223, 227);
    NextFree(48, 227, 229);
    NextFree(49, 229, 233);
    NextFree(50, 233, 239);
    NextFree(51, 239, 241);
    NextFree(52, 241, 251);
    NextFree(53, 251, 257);
    NextFree(54, 257, 263);
  }

  lemma Primes56()
    ensures NthPrime(56, 269) && NthPrime(57, 271) && NthPrime(58, 277) && NthPrime(59, 281)
    ensures NthPrime(60, 283) && NthPrime(61, 293) && NthPrime(62, 307) && NthPrime(63, 311)
  {
    hide NthPrime;
    Primes48();
    NextFree(55, 263, 269);
    NextFree(56, 269, 271);
    NextFree(57, 271, 277);
    NextFree(58, 277, 281);
    NextFree(59, 281, 283);
    NextFree(60, 283, 293);
    NextFree(61, 293, 307);
    NextFree(62, 307, 311);
  }

  // ---------- Roots ----------

  function Square(n: nat): nat {
    n * n
  }

  function Cube(n: nat): nat {
    n * n * n
  }

  /** c is the integer part of the cube root of p, and k its first 32 fractional bits. */
  predicate CubeRoot(p: nat, c: nat, k: nat) {
    && Cube(c) <= p < Cube(c + 1)
    && Cube(c * 0x1_0000_0000 + k) <= p * 0x1_0000_0000_0000_0000_0000_0000 < Cube(c * 0x1_0000_0000 + k + 1)
  }

  lemma Table0()
    ensures Two.K(0) == 0x428A2F98 && Two.K(1) == 0x71374491 && Two.K(2) == 0xB5C0FBCF && Two.K(3) == 0xE9B5DBA5
    ensures Two.K(4) == 0x3956C25B && Two.K(5) == 0x59F111F1 && Two.K(6) == 0x923F82A4 && Two.K(7) == 0xAB1C5ED5
  {
  }

  lemma Table8()
    ensures Two.K(8) == 0xD807AA98 && Two.K(9) == 0x12835B01 && Two.K(10) == 0x243185BE && Two.K(11) == 0x550C7DC3
    ensures Two.K(12) == 0x72BE5D74 && Two.K(13) == 0x80DEB1FE && Two.K(14) == 0x9BDC06A7 && Two.K(15) == 0xC19BF174
  {
  }

  lemma Table16()
    ensures Two.K(16) == 0xE49B69C1 && Two.K(17) == 0xEFBE4786 && Two.K(18) == 0x0FC19DC6 && Two.K(19) == 0x240CA1CC
    ensures Two.K(20) == 0x2DE92C6F && Two.K(21) == 0x4A7484AA && Two.K(22) == 0x5CB0A9DC && Two.K(23) == 0x76F988DA
  {
  }

  lemma Table24()
    ensures Two.K(24) == 0x983E5152 && Two.K(25) == 0xA831C66D && Two.K(26) == 0xB00327C8 && Two.K(27) == 0xBF597FC7
    ensures Two.K(28) == 0xC6E00BF3 && Two.K(29) == 0xD5A79147 && Two.K(30) == 0x06CA6351 && Two.K(31) == 0x14292967
  {
  }

  lemma Table32()
    ensures Two.K(32) == 0x27B70A85 && Two.K(33) == 0x2E1B2138 && Two.K(34) == 0x4D2C6DFC && Two.K(35) == 0x53380D13
    ensures Two.K(36) == 0x650A7354 && Two.K(37) == 0x766A0ABB && Two.K(38) == 0x81C2C92E && Two.K(39) == 0x92722C85
  {
  }

  lemma Table40()
    ensures Two.K(40) == 0xA2BFE8A1 && Two.K(41) == 0xA81A664B && Two.K(42) == 0xC24B8B70 && Two.K(43) == 0xC76C51A3
    ensures Two.K(44) == 0xD192E819 && Two.K(45) == 0xD6990624 && Two.K(46) == 0xF40E3585 && Two.K(47) == 0x106AA070
  {
  }

  lemma Table48()
    ensures Two.K(48) == 0x19A4C116 && Two.K(49) == 0x1E376C08 && Two.K(50) == 0x2748774C && Two.K(51) == 0x34B0BCB5
    ensures Two.K(52) == 0x391C0CB3 && Two.K(53) == 0x4ED8AA4A && Two.K(54) == 0x5B9CCA4F && Two.K(55) == 0x682E6FF3
  {
  }

  lemma Table56()
    ensures Two.K(56) == 0x748F82EE && Two.K(57) == 0x78A5636F && Two.K(58) == 0x84C87814 && Two.K(59) == 0x8CC70208
    ensures Two.K(60) == 0x90BEFFFA && Two.K(61) == 0xA4506CEB && Two.K(62) == 0xBEF9A3F7 && Two.K(63) == 0xC67178F2
  {
  }

  lemma Roots0(t: nat, p: nat) returns (c: nat)
    requires 0 <= t < 8 && NthPrime(t, p)
    ensures CubeRoot(p, c, Two.K(t) as nat)
  {
    hide NthPrime, Two.K;
    Primes0();
    Table0();
    if t == 0 { NthUnique(t, p, 2); c := 1; }
    if t == 1 { NthUnique(t, p, 3); c := 1; }
    if t == 2 { NthUnique(t, p, 5); c := 1; }
    if t == 3 { NthUnique(t, p, 7); c := 1; }
    if t == 4 { NthUnique(t, p, 11); c := 2; }
    if t == 5 { NthUnique(t, p, 13); c := 2; }
    if t == 6 { NthUnique(t, p, 17); c := 2; }
    if t == 7 { NthUnique(t, p, 19); c := 2; }
  }

  lemma Roots8(t: nat, p: nat) returns (c: nat)
    requires 8 <= t < 16 && NthPrime(t, p)
    ensures CubeRoot(p, c, Two.K(t) as nat)
  {
    hide NthPrime, Two.K;
    Primes8();
    Table8();
    if t == 8 { NthUnique(t, p, 23); c := 2; }
    if t == 9 { NthUnique(t, p, 29); c := 3; }
    if t == 10 { NthUnique(t, p, 31); c := 3; }
    if t == 11 { NthUnique(t, p, 37); c := 3; }
    if t == 12 { NthUnique(t, p, 41); c := 3; }
    if t == 13 { NthUnique(t, p, 43); c := 3; }
    if t == 14 { NthUnique(t, p, 47); c := 3; }
    if t == 15 { NthUnique(t, p, 53); c := 3; }
  }

  lemma Roots16(t: nat, p: nat) returns (c: nat)
    requires 16 <= t < 24 && NthPrime(t, p)
    ensures CubeRoot(p, c, Two.K(t) as nat)
  {
    hide NthPrime, Two.K;
    Primes16();
    Table16();
    if t == 16 { NthUnique(t, p, 59); c := 3; }
    if t == 17 { NthUnique(t, p, 61); c := 3; }
    if t == 18 { NthUnique(t, p, 67); c := 4; }
    if t == 19 { NthUnique(t, p, 71); c := 4; }
    if t == 20 { NthUnique(t, p, 73); c := 4; }
    if t == 21 { NthUnique(t, p, 79); c := 4; }
    if t == 22 { NthUnique(t, p, 83); c := 4; }
    if t == 23 { NthUnique(t, p, 89); c := 4; }
  }

  lemma Roots24(t: nat, p: nat) returns (c: nat)
    requires 24 <= t < 32 && NthPrime(t, p)
    ensures CubeRoot(p, c, Two.K(t) as nat)
  {
    hide NthPrime, Two.K;
    Primes24();
    Table24();
    if t == 24 { NthUnique(t, p, 97); c := 4; }
    if t == 25 { NthUnique(t, p, 101); c := 4; }
    if t == 26 { NthUnique(t, p, 103); c := 4; }
    if t == 27 { NthUnique(t, p, 107); c := 4; }
    if t == 28 { NthUnique(t, p, 109); c := 4; }
    if t == 29 { NthUnique(t, p, 113); c := 4; }
    if t == 30 { NthUnique(t, p, 127); c := 5; }
    if t == 31 { NthUnique(t, p, 131); c := 5; }
  }

  lemma Roots32(t: nat, p: nat) returns (c: nat)
    requires 32 <= t < 40 && NthPrime(t, p)
    ensures CubeRoot(p, c, Two.K(t) as nat)
  {
    hide NthPrime, Two.K;
    Primes32();
    Table32();
    if t == 32 { NthUnique(t, p, 137); c := 5; }
    if t == 33 { NthUnique(t, p, 139); c := 5; }
    if t == 34 { NthUnique(t, p, 149); c := 5; }
    if t == 35 { NthUnique(t, p, 151); c := 5; }
    if t == 36 { NthUnique(t, p, 157); c := 5; }
    if t == 37 { NthUnique(t, p, 163); c := 5; }
    if t == 38 { NthUnique(t, p, 167); c := 5; }
    if t == 39 { NthUnique(t, p, 173); c := 5; }
  }

  lemma Roots40(t: nat, p: nat) returns (c: nat)
    requires 40 <= t < 48 && NthPrime(t, p)
    ensures CubeRoot(p, c, Two.K(t) as nat)
  {
    hide NthPrime, Two.K;
    Primes40();
    Table40();
    if t == 40 { NthUnique(t, p, 179); c := 5; }
    if t == 41 { NthUnique(t, p, 181); c := 5; }
    if t == 42 { NthUnique(t, p, 191); c := 5; }
    if t == 43 { NthUnique(t, p, 193); c := 5; }
    if t == 44 { NthUnique(t, p, 197); c := 5; }
    if t == 45 { NthUnique(t, p, 199); c := 5; }
    if t == 46 { NthUnique(t, p, 211); c := 5; }
    if t == 47 { NthUnique(t, p, 223); c := 6; }
  }

  lemma Roots48(t: nat, p: nat) returns (c: nat)
    requires 48 <= t < 56 && NthPrime(t, p)
    ensures CubeRoot(p, c, Two.K(t) as nat)
  {
    hide NthPrime, Two.K;
    Primes48();
    Table48();
    if t == 48 { NthUnique(t, p, 227); c := 6; }
    if t == 49 { NthUnique(t, p, 229); c := 6; }
    if t == 50 { NthUnique(t, p, 233); c := 6; }
    if t == 51 { NthUnique(t, p, 239); c := 6; }
    if t == 52 { NthUnique(t, p, 241); c := 6; }
    if t == 53 { NthUnique(t, p, 251); c := 6; }
    if t == 54 { NthUnique(t, p, 257); c := 6; }
    if t == 55 { NthUnique(t, p, 263); c := 6; }
  }

  lemma Roots56(t: nat, p: nat) returns (c: nat)
    requires 56 <= t < 64 && NthPrime(t, p)
    ensures CubeRoot(p, c, Two.K(t) as nat)
  {
    hide NthPrime, Two.K;
    Primes56();
    Table56();
    if t == 56 { NthUnique(t, p, 269); c := 6; }
    if t == 57 { NthUnique(t, p, 271); c := 6; }
    if t == 58 { NthUnique(t, p, 277); c := 6; }
    if t == 59 { NthUnique(t, p, 281); c := 6; }
    if t == 60 { NthUnique(t, p, 283); c := 6; }
    if t == 61 { NthUnique(t, p, 293); c := 6; }
    if t == 62 { NthUnique(t, p, 307); c := 6; }
    if t == 63 { NthUnique(t, p, 311); c := 6; }
  }

  lemma Roots(t: nat, p: nat) returns (c: nat)
    requires t < 64 && NthPrime(t, p)
    ensures CubeRoot(p, c, Two.K(t) as nat)
  {
    hide NthPrime, Two.K, CubeRoot;
    if t < 8 {
      c := Roots0(t, p);
    } else if t < 16 {
      c := Roots8(t, p);
    } else if t < 24 {
      c := Roots16(t, p);
    } else if t < 32 {
      c := Roots24(t, p);
    } else if t < 40 {
      c := Roots32(t, p);
    } else if t < 48 {
      c := Roots40(t, p);
    } else if t < 56 {
      c := Roots48(t, p);
    } else {
      c := Roots56(t, p);
    }
  }

  /** Each constant of SHA-256 holds the first 32 bits of the fraction of the cube root of a prime,
      the first 64 primes in order (section 4.2.2). */
  lemma RoundConstants(t: nat, p: nat) returns (c: nat)
    requires t < 64 && NthPrime(t, p)
    ensures c * c * c <= p < (c + 1) * (c + 1) * (c + 1)
    ensures var n := c * 0x1_0000_0000 + Two.K(t) as nat;
            n * n * n <= p * 0x1_0000_0000_0000_0000_0000_0000 < (n + 1) * (n + 1) * (n + 1)
  {
    hide NthPrime, Two.K;
    c := Roots(t, p);
  }

  /** The words the hash value of SHA-256 starts with, in order */
  function Start(t: nat): bv32
    requires t < 8
  {
    [Two.INITIAL.a, Two.INITIAL.b, Two.INITIAL.c, Two.INITIAL.d, Two.INITIAL.e, Two.INITIAL.f, Two.INITIAL.g, Two.INITIAL.h][t]
  }

  lemma Starts()
    ensures Start(0) == 0x6A09E667 && Start(1) == 0xBB67AE85 && Start(2) == 0x3C6EF372 && Start(3) == 0xA54FF53A
    ensures Start(4) == 0x510E527F && Start(5) == 0x9B05688C && Start(6) == 0x1F83D9AB && Start(7) == 0x5BE0CD19
  {
  }

  /** They hold the first 32 bits of the fractions of the square roots of the first eight primes
      (section 5.3.3). */
  lemma StartValues(t: nat, p: nat) returns (c: nat)
    requires t < 8 && NthPrime(t, p)
    ensures c * c <= p < (c + 1) * (c + 1)
    ensures var n := c * 0x1_0000_0000 + Start(t) as nat;
            n * n <= p * 0x1_0000_0000_0000_0000 < (n + 1) * (n + 1)
  {
    hide NthPrime, Start;
    Primes0();
    Starts();
    if t == 0 { NthUnique(t, p, 2); c := 1; }
    if t == 1 { NthUnique(t, p, 3); c := 1; }
    if t == 2 { NthUnique(t, p, 5); c := 2; }
    if t == 3 { NthUnique(t, p, 7); c := 2; }
    if t == 4 { NthUnique(t, p, 11); c := 3; }
    if t == 5 { NthUnique(t, p, 13); c := 3; }
    if t == 6 { NthUnique(t, p, 17); c := 4; }
    if t == 7 { NthUnique(t, p, 19); c := 4; }
  }

  /** The four constants of SHA-1 are the integer parts of the square roots of 2, 3, 5 and 10 times
      2^30, for twenty rounds each. */
  lemma FourConstants(t: nat)
    requires t < 80
    ensures var n, k := if t < 20 then 2 else if t < 40 then 3 else if t < 60 then 5 else 10, One.K(t) as nat;
            Square(k) <= n * 0x1000_0000_0000_0000 < Square(k + 1)
  {
    if t < 20 {
      assert One.K(t) == 0x5A827999;
    } else if t < 40 {
      assert One.K(t) == 0x6ED9EBA1;
    } else if t < 60 {
      assert One.K(t) == 0x8F1BBCDC;
    } else {
      assert One.K(t) == 0xCA62C1D6;
    }
    FourSquares();
  }

  lemma FourSquares()
    ensures Square(0x5A827999) <= 2 * 0x1000_0000_0000_0000 < Square(0x5A82799A)
    ensures Square(0x6ED9EBA1) <= 3 * 0x1000_0000_0000_0000 < Square(0x6ED9EBA2)
    ensures Square(0x8F1BBCDC) <= 5 * 0x1000_0000_0000_0000 < Square(0x8F1BBCDD)
    ensures Square(0xCA62C1D6) <= 10 * 0x1000_0000_0000_0000 < Square(0xCA62C1D7)
  {
  }
}
