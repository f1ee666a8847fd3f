/**
 SHA-1 and SHA-256 of "abc", round by round, as in appendices A.1 and B.1 of FIPS 180-2: the
 digests fix the rotations, the functions, the constants, the schedules, the padding and the
 order of the bytes.
 */
module ShaAbc {
  import opened ShaWords

  /** "abc", padded to one block */
  const BLOCK: seq<bv8> :=
    [0x61, 0x62, 0x63, 0x80, 0, 0, 0, 0, 0, 0, 0, 0, 0, 0, 0, 0]
    + [0, 0, 0, 0, 0, 0, 0, 0, 0, 0, 0, 0, 0, 0, 0, 0]
    + [0, 0, 0, 0, 0, 0, 0, 0, 0, 0, 0, 0, 0, 0, 0, 0]
    + [0, 0, 0, 0, 0, 0, 0, 0, 0, 0, 0, 0, 0, 0, 0, 0x18]

  lemma BlockIs()
    ensures |BLOCK| == 64 && BLOCK == [0x61, 0x62, 0x63, 0x80] + Zeroes(59) + [0x18]
  {
  }

  function Zeroes(n: nat): (s: seq<bv8>)
    ensures |s| == n
  {
    seq(n, _ => 0)
  }

  lemma BlockWords()
    ensures BlockWord(BLOCK, 0) == 0x61626380 && BlockWord(BLOCK, 15) == 0x18
    ensures forall t | 1 <= t <= 14 :: BlockWord(BLOCK, t) == 0
  {
    assert BLOCK[0] == 0x61 && BLOCK[1] == 0x62 && BLOCK[2] == 0x63 && BLOCK[3] == 0x80 && BLOCK[63] == 0x18;
    assert forall k | 4 <= k < 63 :: BLOCK[k] == 0;
  }
}

module Sha256Abc {
  import opened ShaWords
  import opened Sha256Spec
  import opened ShaConstants
  import opened ShaAbc

  lemma FirstWords()
    ensures W(BLOCK, 0) == 0x61626380 && W(BLOCK, 1) == 0 && W(BLOCK, 2) == 0 && W(BLOCK, 3) == 0
    ensures W(BLOCK, 4) == 0 && W(BLOCK, 5) == 0 && W(BLOCK, 6) == 0 && W(BLOCK, 7) == 0
    ensures W(BLOCK, 8) == 0 && W(BLOCK, 9) == 0 && W(BLOCK, 10) == 0 && W(BLOCK, 11) == 0
    ensures W(BLOCK, 12) == 0 && W(BLOCK, 13) == 0 && W(BLOCK, 14) == 0 && W(BLOCK, 15) == 0x18
  {
    BlockWords();
  }

  lemma NextW(t: nat)
    requires t >= 16
    ensures W(BLOCK, t) == Mix(W(BLOCK, t - 2), W(BLOCK, t - 7), W(BLOCK, t - 15), W(BLOCK, t - 16))
  {
  }

  /** One round: only a and e are new. */
  lemma Next(t: nat, s: Eight, w: bv32, a: bv32, e: bv32) returns (r: Eight)
    requires Rounds(INITIAL, BLOCK, t) == s && W(BLOCK, t) == w
    requires Round(s, K(t), w) == Eight(a, s.a, s.b, s.c, e, s.e, s.f, s.g)
    ensures r == Eight(a, s.a, s.b, s.c, e, s.e, s.f, s.g) && Rounds(INITIAL, BLOCK, t + 1) == r
  {
    r := Round(s, K(t), w);
  }

  lemma NoRound() returns (s: Eight)
    ensures s == INITIAL && Rounds(INITIAL, BLOCK, 0) == s
  {
    s := INITIAL;
  }

  lemma Words16()
    ensures W(BLOCK, 16) == 0x61626380 && W(BLOCK, 17) == 0x000F0000 && W(BLOCK, 18) == 0x7DA86405 && W(BLOCK, 19) == 0x600003C6
    ensures W(BLOCK, 20) == 0x3E9D7B78 && W(BLOCK, 21) == 0x0183FC00 && W(BLOCK, 22) == 0x12DCBFDB && W(BLOCK, 23) == 0xE2E2C38E
    ensures W(BLOCK, 24) == 0xC8215C1A && W(BLOCK, 25) == 0xB73679A2 && W(BLOCK, 26) == 0xE5BC3909 && W(BLOCK, 27) == 0x32663C5B
    ensures W(BLOCK, 28) == 0x9D209D67 && W(BLOCK, 29) == 0xEC8726CB && W(BLOCK, 30) == 0x702138A4 && W(BLOCK, 31) == 0xD3B7973B
  {
    hide W;
    FirstWords();
    NextW(16);
    NextW(17);
    NextW(18);
    NextW(19);
    NextW(20);
    NextW(21);
    NextW(22);
    NextW(23);
    NextW(24);
    NextW(25);
    NextW(26);
    NextW(27);
    NextW(28);
    NextW(29);
    NextW(30);
    NextW(31);
  }

  lemma Words32()
    ensures W(BLOCK, 32) == 0x93F5997F && W(BLOCK, 33) == 0x3B68BA73 && W(BLOCK, 34) == 0xAFF4FFC1 && W(BLOCK, 35) == 0xF10A5C62
    ensures W(BLOCK, 36) == 0x0A8B3996 && W(BLOCK, 37) == 0x72AF830A && W(BLOCK, 38) == 0x9409E33E && W(BLOCK, 39) == 0x24641522
    ensures W(BLOCK, 40) == 0x9F47BF94 && W(BLOCK, 41) == 0xF0A64F5A && W(BLOCK, 42) == 0x3E246A79 && W(BLOCK, 43) == 0x27333BA3
    ensures W(BLOCK, 44) == 0x0C4763F2 && W(BLOCK, 45) == 0x840ABF27 && W(BLOCK, 46) == 0x7A290D5D && W(BLOCK, 47) == 0x065C43DA
  {
    hide W;
    FirstWords();
    Words16();
    NextW(32);
    NextW(33);
    NextW(34);
    NextW(35);
    NextW(36);
    NextW(37);
    NextW(38);
    NextW(39);
    NextW(40);
    NextW(41);
    NextW(42);
    NextW(43);
    NextW(44);
    NextW(45);
    NextW(46);
    NextW(47);
  }

  lemma Words48()
    ensures W(BLOCK, 48) == 0xFB3E89CB && W(BLOCK, 49) == 0xCC7617DB && W(BLOCK, 50) == 0xB9E66C34 && W(BLOCK, 51) == 0xA9993667
    ensures W(BLOCK, 52) == 0x84BADEDD && W(BLOCK, 53) == 0xC21462BC && W(BLOCK, 54) == 0x1487472C && W(BLOCK, 55) == 0xB20F7A99
    ensures W(BLOCK, 56) == 0xEF57B9CD && W(BLOCK, 57) == 0xEBE6B238 && W(BLOCK, 58) == 0x9FE3095E && W(BLOCK, 59) == 0x78BC8D4B
    ensures W(BLOCK, 60) == 0xA43FCF15 && W(BLOCK, 61) == 0x668B2FF8 && W(BLOCK, 62) == 0xEEABA2CC && W(BLOCK, 63) == 0x12B1EDEB
  {
    hide W;
    FirstWords();
    Words32();
    NextW(48);
    NextW(49);
    NextW(50);
    NextW(51);
    NextW(52);
    NextW(53);
    NextW(54);
    NextW(55);
    NextW(56);
    NextW(57);
    NextW(58);
    NextW(59);
    NextW(60);
    NextW(61);
    NextW(62);
    NextW(63);
  }

  lemma Rounds16()
    ensures Rounds(INITIAL, BLOCK, 16) == Eight(0xB0FA238E, 0xC0645FDE, 0xD932EB16, 0x87912990, 0x07590DCD, 0x0B92F20C, 0x745A48DE, 0x1E578218)
  {
    hide Rounds, W, K;
    Table0();
    Table8();
    var s := NoRound();
    FirstWords();
    s := Next(0, s, 0x61626380, 0x5D6AEBCD, 0xFA2A4622);
    s := Next(1, s, 0x00000000, 0x5A6AD9AD, 0x78CE7989);
    s := Next(2, s, 0x00000000, 0xC8C347A7, 0xF92939EB);
    s := Next(3, s, 0x00000000, 0xD550F666, 0x24E00850);
    s := Next(4, s, 0x00000000, 0x04409A6A, 0x43ADA245);
    s := Next(5, s, 0x00000000, 0x2B4209F5, 0x714260AD);
    s := Next(6, s, 0x00000000, 0xE5030380, 0x9B27A401);
    s := Next(7, s, 0x00000000, 0x85A07B5F, 0x0C657A79);
    s := Next(8, s, 0x00000000, 0x8E04ECB9, 0x32CA2D8C);
    s := Next(9, s, 0x00000000, 0x8C87346B, 0x1CC92596);
    s := Next(10, s, 0x00000000, 0x4798A3F4, 0x436B23E8);
    s := Next(11, s, 0x00000000, 0xF71FC5A9, 0x816FD6E9);
    s := Next(12, s, 0x00000000, 0x87912990, 0x1E578218);
    s := Next(13, s, 0x00000000, 0xD932EB16, 0x745A48DE);
    s := Next(14, s, 0x00000000, 0xC0645FDE, 0x0B92F20C);
    s := Next(15, s, 0x00000018, 0xB0FA238E, 0x07590DCD);
  }

  lemma Rounds32()
    ensures Rounds(INITIAL, BLOCK, 32) == Eight(0x73B33BF5, 0xEA992A22, 0xA0060B30, 0x363482C9, 0xBA591112, 0x0109AB3A, 0xADE79437, 0x6112A3B7)
  {
    hide Rounds, W, K;
    Table16();
    Table24();
    Rounds16();
    var s := Eight(0xB0FA238E, 0xC0645FDE, 0xD932EB16, 0x87912990, 0x07590DCD, 0x0B92F20C, 0x745A48DE, 0x1E578218);
    Words16();
    s := Next(16, s, 0x61626380, 0x21DA9A9B, 0x8034229C);
    s := Next(17, s, 0x000F0000, 0xC2FBD9D1, 0x846EE454);
    s := Next(18, s, 0x7DA86405, 0xFE777BBF, 0xCC899961);
    s := Next(19, s, 0x600003C6, 0xE1F20C33, 0xB0638179);
    s := Next(20, s, 0x3E9D7B78, 0x9DC68B63, 0x8ADA8930);
    s := Next(21, s, 0x0183FC00, 0xC2606D6D, 0xE1257970);
    s := Next(22, s, 0x12DCBFDB, 0xA7A3623F, 0x49F5114A);
    s := Next(23, s, 0xE2E2C38E, 0xC5D53D8D, 0xAA47C347);
    s := Next(24, s, 0xC8215C1A, 0x1C2C2838, 0x2823EF91);
    s := Next(25, s, 0xB73679A2, 0xCDE8037D, 0x14383D8E);
    s := Next(26, s, 0xE5BC3909, 0xB62EC4BC, 0xC74C6516);
    s := Next(27, s, 0x32663C5B, 0x77D37528, 0xEDFFBFF8);
    s := Next(28, s, 0x9D209D67, 0x363482C9, 0x6112A3B7);
    s := Next(29, s, 0xEC8726CB, 0xA0060B30, 0xADE79437);
    s := Next(30, s, 0x702138A4, 0xEA992A22, 0x0109AB3A);
    s := Next(31, s, 0xD3B7973B, 0x73B33BF5, 0xBA591112);
  }

  lemma Rounds48()
    ensures Rounds(INITIAL, BLOCK, 48) == Eight(0x4172328D, 0xA14C14B0, 0x72AB4B91, 0x26628815, 0xFECF0BC6, 0xD57B94A9, 0xB7755DA1, 0xA80F11F0)
  {
    hide Rounds, W, K;
    Table32();
    Table40();
    Rounds32();
    var s := Eight(0x73B33BF5, 0xEA992A22, 0xA0060B30, 0x363482C9, 0xBA591112, 0x0109AB3A, 0xADE79437, 0x6112A3B7);
    Words32();
    s := Next(32, s, 0x93F5997F, 0x98E12507, 0x9CD9F5F6);
    s := Next(33, s, 0x3B68BA73, 0xFE604DF5, 0x59249DD3);
    s := Next(34, s, 0xAFF4FFC1, 0xA9A7738C, 0x085F3833);
    s := Next(35, s, 0xF10A5C62, 0x65A0CFE4, 0xF4B002D6);
    s := Next(36, s, 0x0A8B3996, 0x41A65CB1, 0x0772A26B);
    s := Next(37, s, 0x72AF830A, 0x34DF1604, 0xA507A53D);
    s := Next(38, s, 0x9409E33E, 0x6DC57A8A, 0xF0781BC8);
    s := Next(39, s, 0x24641522, 0x79EA687A, 0x1EFBC0A0);
    s := Next(40, s, 0x9F47BF94, 0xD6670766, 0x26352D63);
    s := Next(41, s, 0xF0A64F5A, 0xDF46652F, 0x838B2711);
    s := Next(42, s, 0x3E246A79, 0x17AA0DFE, 0xDECD4715);
    s := Next(43, s, 0x27333BA3, 0x9D4BAF93, 0xFDA24C2E);
    s := Next(44, s, 0x0C4763F2, 0x26628815, 0xA80F11F0);
    s := Next(45, s, 0x840ABF27, 0x72AB4B91, 0xB7755DA1);
    s := Next(46, s, 0x7A290D5D, 0xA14C14B0, 0xD57B94A9);
    s := Next(47, s, 0x065C43DA, 0x4172328D, 0xFECF0BC6);
  }

  lemma Rounds64()
    ensures Rounds(INITIAL, BLOCK, 64) == Eight(0x506E3058, 0xD39A2165, 0x04D24D6C, 0xB85E2CE9, 0x5EF50F24, 0xFB121210, 0x948D25B6, 0x961F4894)
  {
    hide Rounds, W, K;
    Table48();
    Table56();
    Rounds48();
    var s := Eight(0x4172328D, 0xA14C14B0, 0x72AB4B91, 0x26628815, 0xFECF0BC6, 0xD57B94A9, 0xB7755DA1, 0xA80F11F0);
    Words48();
    s := Next(48, s, 0xFB3E89CB, 0x05757CEB, 0xBD714038);
    s := Next(49, s, 0xCC7617DB, 0xF11BFAA8, 0x6E5C390C);
    s := Next(50, s, 0xB9E66C34, 0x7A0508A1, 0x52F1CCF7);
    s := Next(51, s, 0xA9993667, 0x886E7A22, 0x49231C1E);
    s := Next(52, s, 0x84BADEDD, 0x101FD28F, 0x529E7D00);
    s := Next(53, s, 0xC21462BC, 0xF5702FDB, 0x9F4787C3);
    s := Next(54, s, 0x1487472C, 0x3EC45CDB, 0xE50E1B4F);
    s := Next(55, s, 0xB20F7A99, 0x38CC9913, 0x54CB266B);
    s := Next(56, s, 0xEF57B9CD, 0xFCD1887B, 0x9B5E906C);
    s := Next(57, s, 0xEBE6B238, 0xC062D46F, 0x7E44008E);
    s := Next(58, s, 0x9FE3095E, 0xFFB70472, 0x6D83BFC6);
    s := Next(59, s, 0x78BC8D4B, 0xB6AE8FFF, 0xB21BAD3D);
    s := Next(60, s, 0xA43FCF15, 0xB85E2CE9, 0x961F4894);
    s := Next(61, s, 0x668B2FF8, 0x04D24D6C, 0x948D25B6);
    s := Next(62, s, 0xEEABA2CC, 0xD39A2165, 0xFB121210);
    s := Next(63, s, 0x12B1EDEB, 0x506E3058, 0x5EF50F24);
  }

  lemma Compressed()
    ensures Compress(INITIAL, BLOCK) == Eight(0xBA7816BF, 0x8F01CFEA, 0x414140DE, 0x5DAE2223, 0xB00361A3, 0x96177A9C, 0xB410FF61, 0xF20015AD)
  {
    hide Rounds;
    Rounds64();
  }
}

module Sha1Abc {
  import opened ShaWords
  import opened Sha1Spec
  import opened ShaAbc

  lemma FirstWords()
    ensures W(BLOCK, 0) == 0x61626380 && W(BLOCK, 1) == 0 && W(BLOCK, 2) == 0 && W(BLOCK, 3) == 0
    ensures W(BLOCK, 4) == 0 && W(BLOCK, 5) == 0 && W(BLOCK, 6) == 0 && W(BLOCK, 7) == 0
    ensures W(BLOCK, 8) == 0 && W(BLOCK, 9) == 0 && W(BLOCK, 10) == 0 && W(BLOCK, 11) == 0
    ensures W(BLOCK, 12) == 0 && W(BLOCK, 13) == 0 && W(BLOCK, 14) == 0 && W(BLOCK, 15) == 0x18
  {
    BlockWords();
  }

  lemma NextW(t: nat)
    requires t >= 16
    ensures W(BLOCK, t) == Mix(W(BLOCK, t - 3), W(BLOCK, t - 8), W(BLOCK, t - 14), W(BLOCK, t - 16))
  {
  }

  /** One round: only a and the turned c are new. */
  lemma Next(t: nat, s: Five, w: bv32, a: bv32, c: bv32) returns (r: Five)
    requires Rounds(INITIAL, BLOCK, t) == s && W(BLOCK, t) == w
    requires Round(s, t, w) == Five(a, s.a, c, s.c, s.d)
    ensures r == Five(a, s.a, c, s.c, s.d) && Rounds(INITIAL, BLOCK, t + 1) == r
  {
    r := Round(s, t, w);
  }

  lemma NoRound() returns (s: Five)
    ensures s == INITIAL && Rounds(INITIAL, BLOCK, 0) == s
  {
    s := INITIAL;
  }

  lemma Words16()
    ensures W(BLOCK, 16) == 0xC2C4C700 && W(BLOCK, 17) == 0x00000000 && W(BLOCK, 18) == 0x00000030 && W(BLOCK, 19) == 0x85898E01
    ensures W(BLOCK, 20) == 0x00000000 && W(BLOCK, 21) == 0x00000060 && W(BLOCK, 22) == 0x0B131C03 && W(BLOCK, 23) == 0x00000030
    ensures W(BLOCK, 24) == 0x85898EC1 && W(BLOCK, 25) == 0x16263806 && W(BLOCK, 26) == 0x00000000 && W(BLOCK, 27) == 0x00000180
    ensures W(BLOCK, 28) == 0x2C4C700C && W(BLOCK, 29) == 0x000000F0 && W(BLOCK, 30) == 0x93AFB507 && W(BLOCK, 31) == 0x5898E048
  {
    hide W;
    FirstWords();
    NextW(16);
    NextW(17);
    NextW(18);
    NextW(19);
    NextW(20);
    NextW(21);
    NextW(22);
    NextW(23);
    NextW(24);
    NextW(25);
    NextW(26);
    NextW(27);
    NextW(28);
    NextW(29);
    NextW(30);
    NextW(31);
  }

  lemma Words32()
    ensures W(BLOCK, 32) == 0x8E9A9202 && W(BLOCK, 33) == 0x00000600 && W(BLOCK, 34) == 0xB131C0F0 && W(BLOCK, 35) == 0x16263BC6
    ensures W(BLOCK, 36) == 0x4EBED41E && W(BLOCK, 37) == 0x626380A1 && W(BLOCK, 38) == 0x16263806 && W(BLOCK, 39) == 0x000018C0
    ensures W(BLOCK, 40) == 0xD2E138C4 && W(BLOCK, 41) == 0x00000F00 && W(BLOCK, 42) == 0x3AFB5079 && W(BLOCK, 43) == 0x898E04E5
    ensures W(BLOCK, 44) == 0xE2BA3C2B && W(BLOCK, 45) == 0x000060C0 && W(BLOCK, 46) == 0x053A37CD && W(BLOCK, 47) == 0x74458547
  {
    hide W;
    FirstWords();
    Words16();
    NextW(32);
    NextW(33);
    NextW(34);
    NextW(35);
    NextW(36);
    NextW(37);
    NextW(38);
    NextW(39);
    NextW(40);
    NextW(41);
    NextW(42);
    NextW(43);
    NextW(44);
    NextW(45);
    NextW(46);
    NextW(47);
  }

  lemma Words48()
    ensures W(BLOCK, 48) == 0xDA9415ED && W(BLOCK, 49) == 0x26380A16 && W(BLOCK, 50) == 0x626383A1 && W(BLOCK, 51) == 0x4EBF54DE
    ensures W(BLOCK, 52) == 0x3835B44B && W(BLOCK, 53) == 0x0000F600 && W(BLOCK, 54) == 0x1E84C7A3 && W(BLOCK, 55) == 0x98E04D98
    ensures W(BLOCK, 56) == 0x651D16A0 && W(BLOCK, 57) == 0x62658CA1 && W(BLOCK, 58) == 0x458544D6 && W(BLOCK, 59) == 0x44584CB7
    ensures W(BLOCK, 60) == 0x7BA06619 && W(BLOCK, 61) == 0x6380AEA2 && W(BLOCK, 62) == 0x0AE55269 && W(BLOCK, 63) == 0x627B49A1
  {
    hide W;
    FirstWords();
    Words32();
    NextW(48);
    NextW(49);
    NextW(50);
    NextW(51);
    NextW(52);
    NextW(53);
    NextW(54);
    NextW(55);
    NextW(56);
    NextW(57);
    NextW(58);
    NextW(59);
    NextW(60);
    NextW(61);
    NextW(62);
    NextW(63);
  }

  lemma Words64()
    ensures W(BLOCK, 64) == 0x7CD45C9D && W(BLOCK, 65) == 0x000F0000 && W(BLOCK, 66) == 0xFB50753A && W(BLOCK, 67) == 0xEC6765E8
    ensures W(BLOCK, 68) == 0xBA3C2BE2 && W(BLOCK, 69) == 0x0060C000 && W(BLOCK, 70) == 0x3A37CD05 && W(BLOCK, 71) == 0x458546F4
    ensures W(BLOCK, 72) == 0xB8599DD6 && W(BLOCK, 73) == 0x380A1A26 && W(BLOCK, 74) == 0x01E02203 && W(BLOCK, 75) == 0xE7CC3456
    ensures W(BLOCK, 76) == 0xE6E60B69 && W(BLOCK, 77) == 0x00F60A00 && W(BLOCK, 78) == 0x5795EF4F && W(BLOCK, 79) == 0x822E0879
  {
    hide W;
    FirstWords();
    Words48();
    NextW(64);
    NextW(65);
    NextW(66);
    NextW(67);
    NextW(68);
    NextW(69);
    NextW(70);
    NextW(71);
    NextW(72);
    NextW(73);
    NextW(74);
    NextW(75);
    NextW(76);
    NextW(77);
    NextW(78);
    NextW(79);
  }

  lemma Rounds8()
    ensures Rounds(INITIAL, BLOCK, 8) == Five(0x9E8C07D4, 0x993E30C1, 0x0FF1F290, 0xB3F52677, 0xF3763846)
  {
    hide Rounds, W;
    var s := NoRound();
    FirstWords();
    s := Next(0, s, 0x61626380, 0x0116FC33, 0x7BF36AE2);
    s := Next(1, s, 0x00000000, 0x8990536D, 0x59D148C0);
    s := Next(2, s, 0x00000000, 0xA1390F08, 0xC045BF0C);
    s := Next(3, s, 0x00000000, 0xCDD8E11B, 0x626414DB);
    s := Next(4, s, 0x00000000, 0xCFD499DE, 0x284E43C2);
    s := Next(5, s, 0x00000000, 0x3FC7CA40, 0xF3763846);
    s := Next(6, s, 0x00000000, 0x993E30C1, 0xB3F52677);
    s := Next(7, s, 0x00000000, 0x9E8C07D4, 0x0FF1F290);
  }

  lemma Rounds16()
    ensures Rounds(INITIAL, BLOCK, 16) == Five(0x20BDD62F, 0x196BEE77, 0x644A3DA5, 0x1181ED99, 0x18C623F9)
  {
    hide Rounds, W;
    Rounds8();
    var s := Five(0x9E8C07D4, 0x993E30C1, 0x0FF1F290, 0xB3F52677, 0xF3763846);
    FirstWords();
    s := Next(8, s, 0x00000000, 0x4B6AE328, 0x664F8C30);
    s := Next(9, s, 0x00000000, 0x8351F929, 0x27A301F5);
    s := Next(10, s, 0x00000000, 0xFBDA9E89, 0x12DAB8CA);
    s := Next(11, s, 0x00000000, 0x63188FE4, 0x60D47E4A);
    s := Next(12, s, 0x00000000, 0x4607B664, 0x7EF6A7A2);
    s := Next(13, s, 0x00000000, 0x9128F695, 0x18C623F9);
    s := Next(14, s, 0x00000000, 0x196BEE77, 0x1181ED99);
    s := Next(15, s, 0x00000018, 0x20BDD62F, 0x644A3DA5);
  }

  lemma Rounds24()
    ensures Rounds(INITIAL, BLOCK, 24) == Five(0xD541F12D, 0x21283486, 0x0CE88EFF, 0x868DEC32, 0x7F67875F)
  {
    hide Rounds, W;
    Rounds16();
    var s := Five(0x20BDD62F, 0x196BEE77, 0x644A3DA5, 0x1181ED99, 0x18C623F9);
    Words16();
    s := Next(16, s, 0xC2C4C700, 0x4E925823, 0xC65AFB9D);
    s := Next(17, s, 0x00000000, 0x82AA6728, 0xC82F758B);
    s := Next(18, s, 0x00000030, 0xDC64901D, 0xD3A49608);
    s := Next(19, s, 0x85898E01, 0xFD9E1D7D, 0x20AA99CA);
    s := Next(20, s, 0x00000000, 0x1A37B0CA, 0x77192407);
    s := Next(21, s, 0x00000060, 0x33A23BFC, 0x7F67875F);
    s := Next(22, s, 0x0B131C03, 0x21283486, 0x868DEC32);
    s := Next(23, s, 0x00000030, 0xD541F12D, 0x0CE88EFF);
  }

  lemma Rounds32()
    ensures Rounds(INITIAL, BLOCK, 32) == Five(0x3B845D33, 0x1267B407, 0x717EEBD7, 0xA0DC2D4B, 0xD2AA1365)
  {
    hide Rounds, W;
    Rounds24();
    var s := Five(0xD541F12D, 0x21283486, 0x0CE88EFF, 0x868DEC32, 0x7F67875F);
    Words16();
    s := Next(24, s, 0x85898EC1, 0xC7567DC6, 0x884A0D21);
    s := Next(25, s, 0x16263806, 0x48413BA4, 0x75507C4B);
    s := Next(26, s, 0x00000000, 0xBE35FBD5, 0xB1D59F71);
    s := Next(27, s, 0x00000180, 0x4AA84D97, 0x12104EE9);
    s := Next(28, s, 0x2C4C700C, 0x8370B52E, 0x6F8D7EF5);
    s := Next(29, s, 0x000000F0, 0xC5FBAF5D, 0xD2AA1365);
    s := Next(30, s, 0x93AFB507, 0x1267B407, 0xA0DC2D4B);
    s := Next(31, s, 0x5898E048, 0x3B845D33, 0x717EEBD7);
  }

  lemma Rounds40()
    ensures Rounds(INITIAL, BLOCK, 40) == Five(0x32DE1CBA, 0x4C986405, 0xF718E5CF, 0x03D447F6, 0xF72EEC32)
  {
    hide Rounds, W;
    Rounds32();
    var s := Five(0x3B845D33, 0x1267B407, 0x717EEBD7, 0xA0DC2D4B, 0xD2AA1365);
    Words32();
    s := Next(32, s, 0x8E9A9202, 0x046FAA0A, 0xC499ED01);
    s := Next(33, s, 0x00000600, 0x2C0EBC11, 0xCEE1174C);
    s := Next(34, s, 0xB131C0F0, 0x21796AD4, 0x811BEA82);
    s := Next(35, s, 0x16263BC6, 0xDCBBB0CB, 0x4B03AF04);
    s := Next(36, s, 0x4EBED41E, 0x0F511FD8, 0x085E5AB5);
    s := Next(37, s, 0x626380A1, 0xDC63973F, 0xF72EEC32);
    s := Next(38, s, 0x16263806, 0x4C986405, 0x03D447F6);
    s := Next(39, s, 0x000018C0, 0x32DE1CBA, 0xF718E5CF);
  }

  lemma Rounds48()
    ensures Rounds(INITIAL, BLOCK, 48) == Five(0xBEAD02CA, 0xA01B846C, 0x8714787C, 0x503CA382, 0xFB86C6AB)
  {
    hide Rounds, W;
    Rounds40();
    var s := Five(0x32DE1CBA, 0x4C986405, 0xF718E5CF, 0x03D447F6, 0xF72EEC32);
    Words32();
    s := Next(40, s, 0xD2E138C4, 0xFC87DEDF, 0x53261901);
    s := Next(41, s, 0x00000F00, 0x970A0D5C, 0x8CB7872E);
    s := Next(42, s, 0x3AFB5079, 0x7F193DC5, 0xFF21F7B7);
    s := Next(43, s, 0x898E04E5, 0xEE1B1AAF, 0x25C28357);
    s := Next(44, s, 0xE2BA3C2B, 0x40F28E09, 0x5FC64F71);
    s := Next(45, s, 0x000060C0, 0x1C51E1F2, 0xFB86C6AB);
    s := Next(46, s, 0x053A37CD, 0xA01B846C, 0x503CA382);
    s := Next(47, s, 0x74458547, 0xBEAD02CA, 0x8714787C);
  }

  lemma Rounds56()
    ensures Rounds(INITIAL, BLOCK, 56) == Five(0x5E6456AF, 0x7B71F76D, 0x09FA7C76, 0x792410DB, 0x8E11EB59)
  {
    hide Rounds, W;
    Rounds48();
    var s := Five(0xBEAD02CA, 0xA01B846C, 0x8714787C, 0x503CA382, 0xFB86C6AB);
    Words48();
    s := Next(48, s, 0xDA9415ED, 0xBAF39337, 0x2806E11B);
    s := Next(49, s, 0x26380A16, 0x120731C5, 0xAFAB40B2);
    s := Next(50, s, 0x626383A1, 0x641DB2CE, 0xEEBCE4CD);
    s := Next(51, s, 0x4EBF54DE, 0x3847AD66, 0x4481CC71);
    s := Next(52, s, 0x3835B44B, 0xE490436D, 0x99076CB3);
    s := Next(53, s, 0x0000F600, 0x27E9F1D8, 0x8E11EB59);
    s := Next(54, s, 0x1E84C7A3, 0x7B71F76D, 0x792410DB);
    s := Next(55, s, 0x98E04D98, 0x5E6456AF, 0x09FA7C76);
  }

  lemma Rounds64()
    ensures Rounds(INITIAL, BLOCK, 64) == Five(0x6B61C9E1, 0xB66C020B, 0x9523272C, 0xF5D5B051, 0x8FD4B796)
  {
    hide Rounds, W;
    Rounds56();
    var s := Five(0x5E6456AF, 0x7B71F76D, 0x09FA7C76, 0x792410DB, 0x8E11EB59);
    Words48();
    s := Next(56, s, 0x651D16A0, 0xC846093F, 0x5EDC7DDB);
    s := Next(57, s, 0x62658CA1, 0xD262FF50, 0xD79915AB);
    s := Next(58, s, 0x458544D6, 0x09D785FD, 0xF211824F);
    s := Next(59, s, 0x44584CB7, 0x3F52DE5A, 0x3498BFD4);
    s := Next(60, s, 0x7BA06619, 0xD756C147, 0x4275E17F);
    s := Next(61, s, 0x6380AEA2, 0x548C9CB2, 0x8FD4B796);
    s := Next(62, s, 0x0AE55269, 0xB66C020B, 0xF5D5B051);
    s := Next(63, s, 0x627B49A1, 0x6B61C9E1, 0x9523272C);
  }

  lemma Rounds72()
    ensures Rounds(INITIAL, BLOCK, 72) == Five(0x39859DE7, 0xC199F8C7, 0x8FC96230, 0x125C24F0, 0xDE37534A)
  {
    hide Rounds, W;
    Rounds64();
    var s := Five(0x6B61C9E1, 0xB66C020B, 0x9523272C, 0xF5D5B051, 0x8FD4B796);
    Words64();
    s := Next(64, s, 0x7CD45C9D, 0x19DFA7AC, 0xED9B0082);
    s := Next(65, s, 0x000F0000, 0x101655F9, 0x5AD87278);
    s := Next(66, s, 0xFB50753A, 0x0C3DF2B4, 0x0677E9EB);
    s := Next(67, s, 0xEC6765E8, 0x78DD4D2B, 0x4405957E);
    s := Next(68, s, 0xBA3C2BE2, 0x497093C0, 0x030F7CAD);
    s := Next(69, s, 0x0060C000, 0x3F2588C2, 0xDE37534A);
    s := Next(70, s, 0x3A37CD05, 0xC199F8C7, 0x125C24F0);
    s := Next(71, s, 0x458546F4, 0x39859DE7, 0x8FC96230);
  }

  lemma Rounds80()
    ensures Rounds(INITIAL, BLOCK, 80) == Five(0x42541B35, 0x5738D5E1, 0x21834873, 0x681E6DF6, 0xD8FDF6AD)
  {
    hide Rounds, W;
    Rounds72();
    var s := Five(0x39859DE7, 0xC199F8C7, 0x8FC96230, 0x125C24F0, 0xDE37534A);
    Words64();
    s := Next(72, s, 0xB8599DD6, 0xEDB42DE4, 0xF0667E31);
    s := Next(73, s, 0x380A1A26, 0x11793F6F, 0xCE616779);
    s := Next(74, s, 0x01E02203, 0x5EE76897, 0x3B6D0B79);
    s := Next(75, s, 0xE7CC3456, 0x63F7DAB7, 0xC45E4FDB);
    s := Next(76, s, 0xE6E60B69, 0xA079B7D9, 0xD7B9DA25);
    s := Next(77, s, 0x00F60A00, 0x860D21CC, 0xD8FDF6AD);
    s := Next(78, s, 0x5795EF4F, 0x5738D5E1, 0x681E6DF6);
    s := Next(79, s, 0x822E0879, 0x42541B35, 0x21834873);
  }

  lemma Compressed()
    ensures Compress(INITIAL, BLOCK) == Five(0xA9993E36, 0x4706816A, 0xBA3E2571, 0x7850C26C, 0x9CD0D89D)
  {
    hide Rounds;
    Rounds80();
  }
}

module ShaDigests {
  import opened ShaWords
  import opened ShaAbc
  import opened ShaStream
  import One = Sha1Spec
  import Two = Sha256Spec
  import Sha1Abc
  import Sha256Abc

  const ABC: seq<bv8> := [0x61, 0x62, 0x63]

  lemma TwoBytes()
    ensures Octet(0) == 0 && Octet(24) == 0x18
  {
  }

  lemma LastByte()
    ensures LengthBytes(3) == [0, 0, 0, 0, 0, 0, 0, 0x18]
  {
    hide Octet;
    TwoBytes();
  }

  lemma AbcPadded()
    ensures Pad(ABC) == BLOCK
  {
    hide LengthBytes;
    LastByte();
    BlockIs();
    assert (55 - |ABC|) % 64 == 52;
  }

  lemma OneBlock(alg: Alg)
    ensures HashBlocks(alg, BLOCK) == Compress(Initial(alg), BLOCK)
  {
    hide Compress;
    BlockIs();
    assert BLOCK[..|BLOCK| - 64] == [] && BLOCK[|BLOCK| - 64..] == BLOCK;
  }

  /** The digest of "abc" by SHA-1 */
  lemma AbcSha1()
    ensures Sha(SHA1, ABC) == [
              0xA9, 0x99, 0x3E, 0x36, 0x47, 0x06, 0x81, 0x6A, 0xBA, 0x3E, 0x25, 0x71, 0x78, 0x50, 0xC2, 0x6C, 0x9C, 0xD0, 0xD8, 0x9D]
  {
    hide One.Compress, HashBlocks, Pad, WordBytes;
    AbcPadded();
    OneBlock(SHA1);
    Sha1Abc.Compressed();
    Bytes1();
  }

  lemma Bytes1()
    ensures WordBytes(0xA9993E36) == [0xA9, 0x99, 0x3E, 0x36] && WordBytes(0x4706816A) == [0x47, 0x06, 0x81, 0x6A]
    ensures WordBytes(0xBA3E2571) == [0xBA, 0x3E, 0x25, 0x71] && WordBytes(0x7850C26C) == [0x78, 0x50, 0xC2, 0x6C]
    ensures WordBytes(0x9CD0D89D) == [0x9C, 0xD0, 0xD8, 0x9D]
  {
  }

  /** The digest of "abc" by SHA-256 */
  lemma AbcSha256()
    ensures Sha(SHA256, ABC) == [
              0xBA, 0x78, 0x16, 0xBF, 0x8F, 0x01, 0xCF, 0xEA, 0x41, 0x41, 0x40, 0xDE, 0x5D, 0xAE, 0x22, 0x23,
              0xB0, 0x03, 0x61, 0xA3, 0x96, 0x17, 0x7A, 0x9C, 0xB4, 0x10, 0xFF, 0x61, 0xF2, 0x00, 0x15, 0xAD]
  {
    hide Two.Compress, HashBlocks, Pad, WordBytes;
    AbcPadded();
    OneBlock(SHA256);
    Sha256Abc.Compressed();
    Bytes2();
  }

  lemma Bytes2()
    ensures WordBytes(0xBA7816BF) == [0xBA, 0x78, 0x16, 0xBF] && WordBytes(0x8F01CFEA) == [0x8F, 0x01, 0xCF, 0xEA]
    ensures WordBytes(0x414140DE) == [0x41, 0x41, 0x40, 0xDE] && WordBytes(0x5DAE2223) == [0x5D, 0xAE, 0x22, 0x23]
    ensures WordBytes(0xB00361A3) == [0xB0, 0x03, 0x61, 0xA3] && WordBytes(0x96177A9C) == [0x96, 0x17, 0x7A, 0x9C]
    ensures WordBytes(0xB410FF61) == [0xB4, 0x10, 0xFF, 0x61] && WordBytes(0xF20015AD) == [0xF2, 0x00, 0x15, 0xAD]
  {
  }
}
