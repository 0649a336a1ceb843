/**
 The pieces of SM4 against GB/T 32907-2016: the rotations, the two linear maps, the constants, and
 the standard's example, round by round, with the substitution box of public/lib.js.
 */
module Sm4Standard {
  import opened Wrappers
  import opened Codec
  import opened Feistel
  import opened Cbc
  import opened Sm4

  /// The pieces

  /** At the six amounts in use the two shifts are the rotation of the word. */
  lemma RotlRotates(x: Word)
    ensures Rotl(x, 2) == x.RotateLeft(2) && Rotl(x, 10) == x.RotateLeft(10) && Rotl(x, 18) == x.RotateLeft(18)
    ensures Rotl(x, 24) == x.RotateLeft(24) && Rotl(x, 13) == x.RotateLeft(13) && Rotl(x, 23) == x.RotateLeft(23)
  {
  }

  /** Which bits of the result a single bit reaches. */
  lemma LinearMaps()
    ensures L(1) == 0x01040405 && L(0xd6d6d6d6) == 0x5b5b5b5b && Lp(1) == 0x00802001
  {
  }

  /** Every byte goes through the box at its own place. */
  lemma TauByteByByte(s: SBox, b0: Byte, b1: Byte, b2: Byte, b3: Byte)
    ensures Tau(s, PackWord(b0, b1, b2, b3)) == PackWord(s(b0), s(b1), s(b2), s(b3))
  {
    PackedBytes(b0, b1, b2, b3);
  }

  /** Byte j of the word is (4 i + j) * 7 modulo 256. */
  function CkWord(i: Word): Word {
    PackWord(28 * i & 0xff, (28 * i + 7) & 0xff, (28 * i + 14) & 0xff, (28 * i + 21) & 0xff)
  }

  lemma CkWords()
    ensures CK == [
      CkWord(0), CkWord(1), CkWord(2), CkWord(3), CkWord(4), CkWord(5), CkWord(6), CkWord(7),
      CkWord(8), CkWord(9), CkWord(10), CkWord(11), CkWord(12), CkWord(13), CkWord(14), CkWord(15),
      CkWord(16), CkWord(17), CkWord(18), CkWord(19), CkWord(20), CkWord(21), CkWord(22), CkWord(23),
      CkWord(24), CkWord(25), CkWord(26), CkWord(27), CkWord(28), CkWord(29), CkWord(30), CkWord(31)
    ]
  {
  }

  /// The box

  /** The table, a row of sixteen entries at a time. */
  function Row(hi: Word): bv128 {
    match hi
    case 0 => 0xd690e9fe_cce13db7_16b614c2_28fb2c05
    case 1 => 0x2b679a76_2abe04c3_aa441326_49860699
    case 2 => 0x9c4250f4_91ef987a_33540b43_edcfac62
    case 3 => 0xe4b31ca9_c908e895_80df94fa_758f3fa6
    case 4 => 0x4707a7fc_f37317ba_83593c19_e6854fa8
    case 5 => 0x686b81b2_7164da8b_f8eb0f4b_70569d35
    case 6 => 0x1e240e5e_6358d1a2_25227c3b_01217887
    case 7 => 0xd4004657_9fd32752_4c3602e7_a0c4c89e
    case 8 => 0xeabf8ad2_40c738b5_a3f7f2ce_f96115a1
    case 9 => 0xe0ae5da4_9b341a55_ad933230_f58cb1e3
    case 10 => 0x1df6e22e_8266ca60_c02923ab_0d534e6f
    case 11 => 0xd5db3745_defd8e2f_03ff6a72_6d6c5b51
    case 12 => 0x8d1baf92_bbddbc7f_11d95c41_1f105ad8
    case 13 => 0x0ac13188_a5cd7bbd_2d74d012_b8e5b4b0
    case 14 => 0x8969974a_0c96777e_65b9f109_c56ec684
    case 15 => 0x18f07dec_3adc4d20_79ee5f3e_d7cb3948
    case _ => 0
  }

  function Box(x: Word): Byte {
    ((Row(x >> 4) >> (120 - ((x & 15) << 3))) & 0xff) as Word
  }

  /// The example of appendix A.1: the master key and the plaintext are the same four words

  const EXAMPLE: Quad<Word> := Quad(0x01234567, 0x89abcdef, 0xfedcba98, 0x76543210)

  lemma Keys0()
    ensures Tp(Box, 0x8283cb69) == 0x53b37958
    ensures Tp(Box, 0xb087970b) == 0x9e67d5de
  {
  }

  lemma Keys1()
    ensures Tp(Box, 0x4c5cfb19) == 0xc3cb9a95
    ensures Tp(Box, 0xbe767e6b) == 0xbf8d30bb
  {
  }

  lemma Keys2()
    ensures Tp(Box, 0x10d2c409) == 0xc752e60d
    ensures Tp(Box, 0x9b236bb8) == 0x360c2700
  {
  }

  lemma Keys3()
    ensures Tp(Box, 0x921ffa5f) == 0xecd13829
    ensures Tp(Box, 0x336937ff) == 0x5fdf1126
  {
  }

  lemma Keys4()
    ensures Tp(Box, 0x05405a76) == 0x93535088
    ensures Tp(Box, 0xcbee828f) == 0xc03241dc
  {
  }

  lemma Keys5()
    ensures Tp(Box, 0x2e116abd) == 0x75bcda5e
    ensures Tp(Box, 0xe5446c65) == 0x5a936a06
  {
  }

  lemma Keys6()
    ensures Tp(Box, 0x5aed1b62) == 0xcca850f0
    ensures Tp(Box, 0xb81912b7) == 0x8780d80a
  {
  }

  lemma Keys7()
    ensures Tp(Box, 0xaf3a38f1) == 0x87bd4742
    ensures Tp(Box, 0xb941532d) == 0x6ea1cef6
  {
  }

  lemma Keys8()
    ensures Tp(Box, 0xa4e1da6c) == 0xb8a8d4a4
    ensures Tp(Box, 0x593ddfd7) == 0x436dca14
  {
  }

  lemma Keys9()
    ensures Tp(Box, 0x4a2e7827) == 0x883d5dc9
    ensures Tp(Box, 0x7a0980c4) == 0x8260d198
  {
  }

  lemma Keys10()
    ensures Tp(Box, 0x1d216cb9) == 0x39bed037
  {
  }

  lemma Keys10'()
    ensures Tp(Box, 0xfa6e3321) == 0xeb7f5ef9
  {
  }

  lemma Keys11()
    ensures Tp(Box, 0x8a1f5701) == 0x0b92d906
    ensures Tp(Box, 0x33ca67bc) == 0x0bc5b917
  {
  }

  lemma Keys12()
    ensures Tp(Box, 0x6699c2a1) == 0x5f05bc13
    ensures Tp(Box, 0x55ac7f93) == 0x85eb14ea
  {
  }

  lemma Keys13()
    ensures Tp(Box, 0xeb84d67f) == 0xc9371a8b
    ensures Tp(Box, 0x5063455e) == 0x6899f1af
  {
  }

  lemma Keys14()
    ensures Tp(Box, 0xf26c8dff) == 0xf516ee58
    ensures Tp(Box, 0x91e48a7f) == 0x7f082126
  {
  }

  lemma Keys15()
    ensures Tp(Box, 0x9993581e) == 0x0fedf80e
    ensures Tp(Box, 0x4500025e) == 0x605cac93
  {
  }

  lemma Words0()
    ensures T(Box, 0xf002c39e) == 0x26d99622
    ensures T(Box, 0xee1470ac) == 0x2820815d
  {
  }

  lemma Words1()
    ensures T(Box, 0xaa4f1c7d) == 0xef1d58b2
    ensures T(Box, 0xec195daa) == 0xba47d0fe
  {
  }

  lemma Words2()
    ensures T(Box, 0x4a2a2c82) == 0xdf868890
    ensures T(Box, 0x52c45770) == 0x92a94be5
  {
  }

  lemma Words3()
    ensures T(Box, 0xb1f637df) == 0x663520bd
    ensures T(Box, 0x98dcaf44) == 0xb6851005
  {
  }

  lemma Words4()
    ensures T(Box, 0x9b600757) == 0xdfa69baa
    ensures T(Box, 0x9de0bdbe) == 0x71ff084e
  {
  }

  lemma Words5()
    ensures T(Box, 0xdc966e60) == 0xcf511895
    ensures T(Box, 0xa3474e33) == 0xeae7d511
  {
  }

  lemma Words6()
    ensures T(Box, 0x0381926d) == 0xac4febfc
    ensures T(Box, 0x939943cc) == 0x96f67340
  {
  }

  lemma Words7()
    ensures T(Box, 0x8b75648f) == 0x97598233
    ensures T(Box, 0x60069a4a) == 0x66ef4f72
  {
  }

  lemma Words8()
    ensures T(Box, 0xdc69f8c8) == 0x24b11947
    ensures T(Box, 0x05f35dde) == 0x3935b407
  {
  }

  lemma Words9()
    ensures T(Box, 0x7823db74) == 0x7a5fe213
    ensures T(Box, 0x85bd0481) == 0xe4d57022
  {
  }

  lemma Words10()
    ensures T(Box, 0x42680ec9) == 0xc5c3409b
    ensures T(Box, 0xb5c5d18d) == 0x19d569a7
  {
  }

  lemma Words11()
    ensures T(Box, 0x4b725b6c) == 0x486e4032
    ensures T(Box, 0x1a00d498) == 0x3dbd1ea9
  {
  }

  lemma Words12()
    ensures T(Box, 0x716b85e6) == 0x85153d83
    ensures T(Box, 0xc0e8a67f) == 0x9b2fca8c
  {
  }

  lemma Words13()
    ensures T(Box, 0xa1c2a841) == 0x94f9aabd
    ensures T(Box, 0xf85a7885) == 0x5465894f
  {
  }

  lemma Words14()
    ensures T(Box, 0xdfce82c0) == 0xbc9c0d9a
    ensures T(Box, 0xc3e0a931) == 0xe957823a
  {
  }

  lemma Words15()
    ensures T(Box, 0xaf8156a0) == 0x5b32c6f3
    ensures T(Box, 0x96ff9d45) == 0x138d5078
  {
  }

  lemma XorRound(f: Word -> Word, a: Word, b: Word, c: Word, d: Word, k: Word)
    ensures Round(XorOps(f), Quad(a, b, c, d), k) == Quad(b, c, d, a ^ f(Mixed(b, c, d, k)))
  {
    var o, t := XorOps(f), f(Mixed(b, c, d, k));
    assert o.mix(b, c, d, k) == t && o.add(a, t) == a ^ t;
  }

  lemma FourRounds(f: Word -> Word, start: Quad<Word>, ks: seq<Word>, i: nat, a: Word, b: Word, c: Word, d: Word,
                   k0: Word, k1: Word, k2: Word, k3: Word, a': Word, b': Word, c': Word, d': Word)
    requires i + 4 <= |ks| && KeyWindow(XorOps(f), start, ks, i) == Quad(a, b, c, d)
    requires ks[i] == k0 && ks[i + 1] == k1 && ks[i + 2] == k2 && ks[i + 3] == k3
    requires a' == a ^ f(Mixed(b, c, d, k0)) && b' == b ^ f(Mixed(c, d, a', k1))
    requires c' == c ^ f(Mixed(d, a', b', k2)) && d' == d ^ f(Mixed(a', b', c', k3))
    ensures KeyWindow(XorOps(f), start, ks, i + 4) == Quad(a', b', c', d')
  {
    RoundsNext(XorOps(f), start, ks, i);
    XorRound(f, a, b, c, d, k0);
    RoundsNext(XorOps(f), start, ks, i + 1);
    XorRound(f, b, c, d, a', k1);
    RoundsNext(XorOps(f), start, ks, i + 2);
    XorRound(f, c, d, a', b', k2);
    RoundsNext(XorOps(f), start, ks, i + 3);
    XorRound(f, d, a', b', c', k3);
  }

  lemma Schedule0(start: Quad<Word>, ks: seq<Word>)
    requires |ks| == 32
    requires ks[0] == 0x00070e15 && ks[1] == 0x1c232a31 && ks[2] == 0x383f464d && ks[3] == 0x545b6269
    requires ks[4] == 0x70777e85 && ks[5] == 0x8c939aa1 && ks[6] == 0xa8afb6bd && ks[7] == 0xc4cbd2d9
    requires ks[8] == 0xe0e7eef5 && ks[9] == 0xfc030a11 && ks[10] == 0x181f262d && ks[11] == 0x343b4249
    requires ks[12] == 0x50575e65 && ks[13] == 0x6c737a81 && ks[14] == 0x888f969d && ks[15] == 0xa4abb2b9
    requires KeyWindow(KeyOps(Box), start, ks, 0) == Quad(0xa292ffa1, 0xdf01febf, 0x99a12b0f, 0xc42410cc)
    ensures KeyWindow(KeyOps(Box), start, ks, 4) == Quad(0xf12186f9, 0x41662b61, 0x5a6ab19a, 0x7ba92077)
    ensures KeyWindow(KeyOps(Box), start, ks, 8) == Quad(0x367360f4, 0x776a0c61, 0xb6bb89b3, 0x24763151)
    ensures KeyWindow(KeyOps(Box), start, ks, 12) == Quad(0xa520307c, 0xb7584dbd, 0xc30753ed, 0x7ee55b57)
    ensures KeyWindow(KeyOps(Box), start, ks, 16) == Quad(0x6988608c, 0x30d895b7, 0x44ba14af, 0x104495a1)
  {
    hide Tp, XorOps, KeyWindow;
    var f := x => Tp(Box, x);
    Keys0();
    Keys1();
    FourRounds(f, start, ks, 0, 0xa292ffa1, 0xdf01febf, 0x99a12b0f, 0xc42410cc,
               0x00070e15, 0x1c232a31, 0x383f464d, 0x545b6269, 0xf12186f9, 0x41662b61, 0x5a6ab19a, 0x7ba92077);
    Keys2();
    Keys3();
    FourRounds(f, start, ks, 4, 0xf12186f9, 0x41662b61, 0x5a6ab19a, 0x7ba92077,
               0x70777e85, 0x8c939aa1, 0xa8afb6bd, 0xc4cbd2d9, 0x367360f4, 0x776a0c61, 0xb6bb89b3, 0x24763151);
    Keys4();
    Keys5();
    FourRounds(f, start, ks, 8, 0x367360f4, 0x776a0c61, 0xb6bb89b3, 0x24763151,
               0xe0e7eef5, 0xfc030a11, 0x181f262d, 0x343b4249, 0xa520307c, 0xb7584dbd, 0xc30753ed, 0x7ee55b57);
    Keys6();
    Keys7();
    FourRounds(f, start, ks, 12, 0xa520307c, 0xb7584dbd, 0xc30753ed, 0x7ee55b57,
               0x50575e65, 0x6c737a81, 0x888f969d, 0xa4abb2b9, 0x6988608c, 0x30d895b7, 0x44ba14af, 0x104495a1);
  }

  lemma Schedule1(start: Quad<Word>, ks: seq<Word>)
    requires |ks| == 32
    requires ks[16] == 0xc0c7ced5 && ks[17] == 0xdce3eaf1 && ks[18] == 0xf8ff060d && ks[19] == 0x141b2229
    requires ks[20] == 0x30373e45 && ks[21] == 0x4c535a61 && ks[22] == 0x686f767d && ks[23] == 0x848b9299
    requires ks[24] == 0xa0a7aeb5 && ks[25] == 0xbcc3cad1 && ks[26] == 0xd8dfe6ed && ks[27] == 0xf4fb0209
    requires ks[28] == 0x10171e25 && ks[29] == 0x2c333a41 && ks[30] == 0x484f565d && ks[31] == 0x646b7279
    requires KeyWindow(KeyOps(Box), start, ks, 16) == Quad(0x6988608c, 0x30d895b7, 0x44ba14af, 0x104495a1)
    ensures KeyWindow(KeyOps(Box), start, ks, 20) == Quad(0xd120b428, 0x73b55fa3, 0xcc874966, 0x92244439)
    ensures KeyWindow(KeyOps(Box), start, ks, 24) == Quad(0xe89e641f, 0x98ca015a, 0xc7159060, 0x99e1fd2e)
    ensures KeyWindow(KeyOps(Box), start, ks, 28) == Quad(0xb79bd80c, 0x1d2115b0, 0x0e228aeb, 0xf1780c81)
    ensures KeyWindow(KeyOps(Box), start, ks, 32) == Quad(0x428d3654, 0x62293496, 0x01cf72e5, 0x9124a012)
  {
    hide Tp, XorOps, KeyWindow;
    var f := x => Tp(Box, x);
    Keys8();
    Keys9();
    FourRounds(f, start, ks, 16, 0x6988608c, 0x30d895b7, 0x44ba14af, 0x104495a1,
               0xc0c7ced5, 0xdce3eaf1, 0xf8ff060d, 0x141b2229, 0xd120b428, 0x73b55fa3, 0xcc874966, 0x92244439);
    Keys10();
    Keys10'();
    Keys11();
    FourRounds(f, start, ks, 20, 0xd120b428, 0x73b55fa3, 0xcc874966, 0x92244439,
               0x30373e45, 0x4c535a61, 0x686f767d, 0x848b9299, 0xe89e641f, 0x98ca015a, 0xc7159060, 0x99e1fd2e);
    Keys12();
    Keys13();
    FourRounds(f, start, ks, 24, 0xe89e641f, 0x98ca015a, 0xc7159060, 0x99e1fd2e,
               0xa0a7aeb5, 0xbcc3cad1, 0xd8dfe6ed, 0xf4fb0209, 0xb79bd80c, 0x1d2115b0, 0x0e228aeb, 0xf1780c81);
    Keys14();
    Keys15();
    FourRounds(f, start, ks, 28, 0xb79bd80c, 0x1d2115b0, 0x0e228aeb, 0xf1780c81,
               0x10171e25, 0x2c333a41, 0x484f565d, 0x646b7279, 0x428d3654, 0x62293496, 0x01cf72e5, 0x9124a012);
  }

  lemma Ciphered0(start: Quad<Word>, ks: seq<Word>)
    requires |ks| == 32
    requires ks[0] == 0xf12186f9 && ks[1] == 0x41662b61 && ks[2] == 0x5a6ab19a && ks[3] == 0x7ba92077
    requires ks[4] == 0x367360f4 && ks[5] == 0x776a0c61 && ks[6] == 0xb6bb89b3 && ks[7] == 0x24763151
    requires ks[8] == 0xa520307c && ks[9] == 0xb7584dbd && ks[10] == 0xc30753ed && ks[11] == 0x7ee55b57
    requires ks[12] == 0x6988608c && ks[13] == 0x30d895b7 && ks[14] == 0x44ba14af && ks[15] == 0x104495a1
    requires KeyWindow(CipherOps(Box), start, ks, 0) == Quad(0x01234567, 0x89abcdef, 0xfedcba98, 0x76543210)
    ensures KeyWindow(CipherOps(Box), start, ks, 16) == Quad(0x8b952b83, 0xd42b7c59, 0x2ffc5831, 0xf69e6888)
  {
    hide T, XorOps, KeyWindow;
    var f := x => T(Box, x);
    Words0();
    Words1();
    FourRounds(f, start, ks, 0, 0x01234567, 0x89abcdef, 0xfedcba98, 0x76543210,
               0xf12186f9, 0x41662b61, 0x5a6ab19a, 0x7ba92077, 0x27fad345, 0xa18b4cb2, 0x11c1e22a, 0xcc13e2ee);
    Words2();
    Words3();
    FourRounds(f, start, ks, 4, 0x27fad345, 0xa18b4cb2, 0x11c1e22a, 0xcc13e2ee,
               0x367360f4, 0x776a0c61, 0xb6bb89b3, 0x24763151, 0xf87c5bd5, 0x33220757, 0x77f4c297, 0x7a96f2eb);
    Words4();
    Words5();
    FourRounds(f, start, ks, 8, 0xf87c5bd5, 0x33220757, 0x77f4c297, 0x7a96f2eb,
               0xa520307c, 0xb7584dbd, 0xc30753ed, 0x7ee55b57, 0x27dac07f, 0x42dd0f19, 0xb8a5da02, 0x907127fa);
    Words6();
    Words7();
    FourRounds(f, start, ks, 12, 0x27dac07f, 0x42dd0f19, 0xb8a5da02, 0x907127fa,
               0x6988608c, 0x30d895b7, 0x44ba14af, 0x104495a1, 0x8b952b83, 0xd42b7c59, 0x2ffc5831, 0xf69e6888);
  }

  lemma Ciphered1(start: Quad<Word>, ks: seq<Word>)
    requires |ks| == 32
    requires ks[16] == 0xd120b428 && ks[17] == 0x73b55fa3 && ks[18] == 0xcc874966 && ks[19] == 0x92244439
    requires ks[20] == 0xe89e641f && ks[21] == 0x98ca015a && ks[22] == 0xc7159060 && ks[23] == 0x99e1fd2e
    requires ks[24] == 0xb79bd80c && ks[25] == 0x1d2115b0 && ks[26] == 0x0e228aeb && ks[27] == 0xf1780c81
    requires ks[28] == 0x428d3654 && ks[29] == 0x62293496 && ks[30] == 0x01cf72e5 && ks[31] == 0x9124a012
    requires KeyWindow(CipherOps(Box), start, ks, 16) == Quad(0x8b952b83, 0xd42b7c59, 0x2ffc5831, 0xf69e6888)
    ensures KeyWindow(CipherOps(Box), start, ks, 32) == Quad(0x536e4246, 0x86b3e94f, 0xd206965e, 0x681edf34)
  {
    hide T, XorOps, KeyWindow;
    var f := x => T(Box, x);
    Words8();
    Words9();
    FourRounds(f, start, ks, 16, 0x8b952b83, 0xd42b7c59, 0x2ffc5831, 0xf69e6888,
               0xd120b428, 0x73b55fa3, 0xcc874966, 0x92244439, 0xaf2432c4, 0xed1ec85e, 0x55a3ba22, 0x124b18aa);
    Words10();
    Words11();
    FourRounds(f, start, ks, 20, 0xaf2432c4, 0xed1ec85e, 0x55a3ba22, 0x124b18aa,
               0xe89e641f, 0x98ca015a, 0xc7159060, 0x99e1fd2e, 0x6ae7725f, 0xf4cba1f9, 0x1dcdfa10, 0x2ff60603);
    Words12();
    Words13();
    FourRounds(f, start, ks, 24, 0x6ae7725f, 0xf4cba1f9, 0x1dcdfa10, 0x2ff60603,
               0xb79bd80c, 0x1d2115b0, 0x0e228aeb, 0xf1780c81, 0xeff24fdc, 0x6fe46b75, 0x893450ad, 0x7b938f4c);
    Words14();
    Words15();
    FourRounds(f, start, ks, 28, 0xeff24fdc, 0x6fe46b75, 0x893450ad, 0x7b938f4c,
               0x428d3654, 0x62293496, 0x01cf72e5, 0x9124a012, 0x536e4246, 0x86b3e94f, 0xd206965e, 0x681edf34);
  }

  lemma CkLow()
    ensures CK[0] == 0x00070e15 && CK[1] == 0x1c232a31 && CK[2] == 0x383f464d && CK[3] == 0x545b6269
    ensures CK[4] == 0x70777e85 && CK[5] == 0x8c939aa1 && CK[6] == 0xa8afb6bd && CK[7] == 0xc4cbd2d9
  {
  }

  lemma CkMiddle()
    ensures CK[8] == 0xe0e7eef5 && CK[9] == 0xfc030a11 && CK[10] == 0x181f262d && CK[11] == 0x343b4249
    ensures CK[12] == 0x50575e65 && CK[13] == 0x6c737a81 && CK[14] == 0x888f969d && CK[15] == 0xa4abb2b9
  {
  }

  lemma CkHigh()
    ensures CK[16] == 0xc0c7ced5 && CK[17] == 0xdce3eaf1 && CK[18] == 0xf8ff060d && CK[19] == 0x141b2229
    ensures CK[20] == 0x30373e45 && CK[21] == 0x4c535a61 && CK[22] == 0x686f767d && CK[23] == 0x848b9299
    ensures CK[24] == 0xa0a7aeb5 && CK[25] == 0xbcc3cad1 && CK[26] == 0xd8dfe6ed && CK[27] == 0xf4fb0209
    ensures CK[28] == 0x10171e25 && CK[29] == 0x2c333a41 && CK[30] == 0x484f565d && CK[31] == 0x646b7279
  {
  }

  lemma ExampleStart()
    ensures AddQuad(KeyOps(Box), EXAMPLE, FK) == Quad(0xa292ffa1, 0xdf01febf, 0x99a12b0f, 0xc42410cc)
  {
  }

  lemma ExampleKeys(rk: seq<Word>)
    requires rk == RoundKeys(Box, EXAMPLE)
    ensures rk[0..4] == [0xf12186f9, 0x41662b61, 0x5a6ab19a, 0x7ba92077]
    ensures rk[4..8] == [0x367360f4, 0x776a0c61, 0xb6bb89b3, 0x24763151]
    ensures rk[8..12] == [0xa520307c, 0xb7584dbd, 0xc30753ed, 0x7ee55b57]
    ensures rk[12..16] == [0x6988608c, 0x30d895b7, 0x44ba14af, 0x104495a1]
    ensures rk[16..20] == [0xd120b428, 0x73b55fa3, 0xcc874966, 0x92244439]
    ensures rk[20..24] == [0xe89e641f, 0x98ca015a, 0xc7159060, 0x99e1fd2e]
    ensures rk[24..28] == [0xb79bd80c, 0x1d2115b0, 0x0e228aeb, 0xf1780c81]
    ensures rk[28..32] == [0x428d3654, 0x62293496, 0x01cf72e5, 0x9124a012]
  {
    hide Tp, Round, XorOps, AddQuad, CK;
    CkLow();
    CkMiddle();
    CkHigh();
    ExampleStart();
    var o := KeyOps(Box);
    var start := AddQuad(o, EXAMPLE, FK);
    assert CK[..0] == [];
    assert start == Quad(0xa292ffa1, 0xdf01febf, 0x99a12b0f, 0xc42410cc);
    Schedule0(start, CK);
    Schedule1(start, CK);
    WindowIsSchedule(o, start, CK, 0);
    WindowIsSchedule(o, start, CK, 4);
    WindowIsSchedule(o, start, CK, 8);
    WindowIsSchedule(o, start, CK, 12);
    WindowIsSchedule(o, start, CK, 16);
    WindowIsSchedule(o, start, CK, 20);
    WindowIsSchedule(o, start, CK, 24);
    WindowIsSchedule(o, start, CK, 28);
  }

  lemma ExampleBlock(rk: seq<Word>)
    requires |rk| == 32
    requires rk[0..4] == [0xf12186f9, 0x41662b61, 0x5a6ab19a, 0x7ba92077]
    requires rk[4..8] == [0x367360f4, 0x776a0c61, 0xb6bb89b3, 0x24763151]
    requires rk[8..12] == [0xa520307c, 0xb7584dbd, 0xc30753ed, 0x7ee55b57]
    requires rk[12..16] == [0x6988608c, 0x30d895b7, 0x44ba14af, 0x104495a1]
    requires rk[16..20] == [0xd120b428, 0x73b55fa3, 0xcc874966, 0x92244439]
    requires rk[20..24] == [0xe89e641f, 0x98ca015a, 0xc7159060, 0x99e1fd2e]
    requires rk[24..28] == [0xb79bd80c, 0x1d2115b0, 0x0e228aeb, 0xf1780c81]
    requires rk[28..32] == [0x428d3654, 0x62293496, 0x01cf72e5, 0x9124a012]
    ensures Encrypt(CipherOps(Box), EXAMPLE, rk) == Quad(0x681edf34, 0xd206965e, 0x86b3e94f, 0x536e4246)
  {
    hide T;
    assert rk[..0] == [] && rk[..32] == rk;
    assert rk[0] == rk[0..4][0] && rk[1] == rk[0..4][1] && rk[2] == rk[0..4][2] && rk[3] == rk[0..4][3];
    assert rk[4] == rk[4..8][0] && rk[5] == rk[4..8][1] && rk[6] == rk[4..8][2] && rk[7] == rk[4..8][3];
    assert rk[8] == rk[8..12][0] && rk[9] == rk[8..12][1] && rk[10] == rk[8..12][2] && rk[11] == rk[8..12][3];
    assert rk[12] == rk[12..16][0] && rk[13] == rk[12..16][1] && rk[14] == rk[12..16][2] && rk[15] == rk[12..16][3];
    assert rk[16] == rk[16..20][0] && rk[17] == rk[16..20][1] && rk[18] == rk[16..20][2] && rk[19] == rk[16..20][3];
    assert rk[20] == rk[20..24][0] && rk[21] == rk[20..24][1] && rk[22] == rk[20..24][2] && rk[23] == rk[20..24][3];
    assert rk[24] == rk[24..28][0] && rk[25] == rk[24..28][1] && rk[26] == rk[24..28][2] && rk[27] == rk[24..28][3];
    assert rk[28] == rk[28..32][0] && rk[29] == rk[28..32][1] && rk[30] == rk[28..32][2] && rk[31] == rk[28..32][3];
    Ciphered0(EXAMPLE, rk);
    Ciphered1(EXAMPLE, rk);
  }

  /// What `parseInt` makes of the key string

  predicate AllHex(s: string) {
    forall i :: 0 <= i < |s| ==> HexValue(s[i]).Some?
  }

  lemma {:induction false} DigitsStop(s: string, rest: string, acc: nat)
    requires AllHex(s) && (rest != "" ==> HexValue(rest[0]).None?)
    ensures ParseDigits(s + rest, acc) == ParseDigits(s, acc)
    decreases |s|
  {
    if s == "" {
      assert s + rest == rest;
    } else {
      assert (s + rest)[1..] == s[1..] + rest;
      DigitsStop(s[1..], rest, 16 * acc + HexValue(s[0]).value);
    }
  }

  /** A sign, a prefix `0x` and what follows the digits are all let pass. */
  lemma Parsed(s: string, rest: string)
    requires s != "" && AllHex(s) && (rest != "" ==> HexValue(rest[0]).None? && rest[0] != 'x' && rest[0] != 'X')
    ensures ParseInt16(s + rest) == ParseInt16("+" + (s + rest)) == ParseInt16("0x" + (s + rest)) == Some(ParseDigits(s, 0))
    ensures var n: int := ParseDigits(s, 0); ParseInt16("-" + (s + rest)) == Some(-n)
  {
    DigitsStop(s, rest, 0);
    assert (s + rest)[0] == s[0];
    assert ("+" + (s + rest))[1..] == s + rest;
    assert ("-" + (s + rest))[1..] == s + rest;
    assert ("0x" + (s + rest))[2..] == s + rest;
    assert |s| > 1 ==> (s + rest)[1] == s[1];
    assert |s| == 1 && rest != "" ==> (s + rest)[1] == rest[0];
    assert !IsJsSpace(s[0]);
  }

  /** Blanks before it too; any other character there is no number. */
  lemma Skipped(c: char, s: string)
    ensures IsJsSpace(c) ==> ParseInt16([c] + s) == ParseInt16(s)
    ensures HexValue(c).None? && !IsJsSpace(c) && c != '+' && c != '-' ==> ParseInt16([c] + s) == None
  {
    assert ([c] + s)[1..] == s;
  }

  /** Capital digits count what small ones do. */
  lemma DigitCases(v: nat)
    requires 10 <= v < 16
    ensures HexValue(HEX_DIGITS[v]) == HexValue((HEX_DIGITS[v] as int - 32) as char) == Some(v)
  {
  }

  /** What is no number counts as zero, and a number, also a negative one, as what it is congruent to. */
  lemma WordOfNumber(n: int)
    ensures ToWord(None) == 0
    ensures 0 <= Mod32(n) < 0x1_0000_0000 && (n - Mod32(n)) % 0x1_0000_0000 == 0 && ToWord(Some(n)) == Mod32(n) as Word
  {
  }

  function Digit(c: char): nat {
    Or(HexValue(c), 0)
  }

  lemma NextDigit(s: string, k: nat, acc: nat)
    requires k < |s| && HexValue(s[k]).Some?
    ensures ParseDigits(s[k..], acc) == ParseDigits(s[k + 1..], 16 * acc + Digit(s[k]))
  {
    assert s[k..][1..] == s[k + 1..];
  }

  lemma FourDigits(s: string, k: nat, acc: nat)
    requires k + 4 <= |s| && forall i :: k <= i < k + 4 ==> HexValue(s[i]).Some?
    ensures ParseDigits(s[k..], acc)
         == ParseDigits(s[k + 4..],
                        16 * (16 * (16 * (16 * acc + Digit(s[k])) + Digit(s[k + 1])) + Digit(s[k + 2])) + Digit(s[k + 3]))
  {
    hide ParseDigits, HexValue;
    NextDigit(s, k, acc);
    NextDigit(s, k + 1, 16 * acc + Digit(s[k]));
    NextDigit(s, k + 2, 16 * (16 * acc + Digit(s[k])) + Digit(s[k + 1]));
    NextDigit(s, k + 3, 16 * (16 * (16 * acc + Digit(s[k])) + Digit(s[k + 1])) + Digit(s[k + 2]));
  }

  /** Eight digits are their number to the base 16, the first the high-order one. */
  lemma EightDigits(s: string, hi: nat, lo: nat)
    requires |s| == 8 && forall k :: 0 <= k < 8 ==> HexValue(s[k]).Some?
    requires hi == 16 * (16 * (16 * Digit(s[0]) + Digit(s[1])) + Digit(s[2])) + Digit(s[3])
    requires lo == 16 * (16 * (16 * Digit(s[4]) + Digit(s[5])) + Digit(s[6])) + Digit(s[7])
    ensures ParseInt16(s) == Some(0x1_0000 * hi + lo)
  {
    hide ParseDigits;
    assert ParseInt16(s) == Some(ParseDigits(s, 0));
    assert s[0..] == s;
    FourDigits(s, 0, 0);
    FourDigits(s, 4, hi);
    assert s[8..] == "" && ParseDigits("", 0x1_0000 * hi + lo) == 0x1_0000 * hi + lo by {
      NoDigits(0x1_0000 * hi + lo);
    }
  }

  lemma WordOfDigits(s: string, hi: nat, lo: nat, w: Word)
    requires |s| == 8 && forall k :: 0 <= k < 8 ==> HexValue(s[k]).Some?
    requires hi == 16 * (16 * (16 * Digit(s[0]) + Digit(s[1])) + Digit(s[2])) + Digit(s[3])
    requires lo == 16 * (16 * (16 * Digit(s[4]) + Digit(s[5])) + Digit(s[6])) + Digit(s[7])
    requires w as int == 0x1_0000 * hi + lo
    ensures ToWord(ParseInt16(s)) == w
  {
    hide *;
    EightDigits(s, hi, lo);
    WordOfInt(w);
  }

  lemma NoDigits(n: nat)
    ensures ParseDigits("", n) == n
  {
  }

  /** The key string is taken eight digits at a time. */
  lemma KeyOfGroups(a: string, b: string, c: string, d: string)
    requires |a| == 8 && |b| == 8 && |c| == 8 && |d| == 8
    ensures MasterKey(a + b + c + d)
         == Quad(ToWord(ParseInt16(a)), ToWord(ParseInt16(b)), ToWord(ParseInt16(c)), ToWord(ParseInt16(d)))
  {
    hide ParseInt16;
    var h := a + b + c + d;
    assert Substr(h, 0, 8) == a && Substr(h, 8, 8) == b && Substr(h, 16, 8) == c && Substr(h, 24, 8) == d;
  }

  lemma ExampleKeyString()
    ensures MasterKey("01234567" + "89abcdef" + "fedcba98" + "76543210")
         == Quad(0x01234567, 0x89abcdef, 0xfedcba98, 0x76543210)
  {
    hide ParseInt16, ToWord, MasterKey;
    KeyOfGroups("01234567", "89abcdef", "fedcba98", "76543210");
    WordOfDigits("01234567", 0x0123, 0x4567, 0x01234567);
    WordOfDigits("89abcdef", 0x89ab, 0xcdef, 0x89abcdef);
    WordOfDigits("fedcba98", 0xfedc, 0xba98, 0xfedcba98);
    WordOfDigits("76543210", 0x7654, 0x3210, 0x76543210);
  }

  /// The example, from the key string on

  /** The ciphertext that the standard gives. */
  lemma Example()
    ensures Encrypt(CipherOps(Box), EXAMPLE, RoundKeys(Box, MasterKey("01234567" + "89abcdef" + "fedcba98" + "76543210")))
         == Quad(0x681edf34, 0xd206965e, 0x86b3e94f, 0x536e4246)
  {
    hide RoundKeys, Encrypt, MasterKey, CipherOps;
    ExampleKeyString();
    var rk := RoundKeys(Box, EXAMPLE);
    ExampleKeys(rk);
    ExampleBlock(rk);
  }

  /// The whole encryption

  /**
   For every box, key string and vector string: the ciphertext's hexadecimal is that of words of which
   every four are the padded plaintext's block, added to the four before or the vector, through the
   32 rounds under the key's round keys.
   */
  lemma EncryptsInCbc(s: SBox, plain: seq<Byte>, keyHex: string, ivHex: string, i: nat)
    requires i <= |plain| / 16
    ensures var c, p, o := BytesToWords(HexToBytes(EncryptHex(s, plain, keyHex, ivHex))), Pad(plain), CipherOps(s);
            && |c| == 4 * (|plain| / 16 + 1)
            && var block := QuadAt(BytesToWords(p[16 * i..16 * i + 16]), 0);
               var before := QuadAt(ChainedTo(BytesToWords(HexToBytes(ivHex)), c, i), 0);
               c[4 * i..4 * i + 4] == Encrypt(o, AddQuad(o, block, before), RoundKeys(s, MasterKey(keyHex))).Words()
  {
    var iv, rk, p := BytesToWords(HexToBytes(ivHex)), RoundKeys(s, MasterKey(keyHex)), Pad(plain);
    EncryptedAt(CipherScheme(s), rk, iv, p, i);
    var w := Encrypted(CipherScheme(s), rk, iv, p);
    HexRoundTrip(WordsToBytes(w));
    WordRoundTrip(w);
  }

  /** The last byte says how many bytes go; in a shorter array it counts them from the end, as `slice` does. */
  lemma UnpadTakes(d: seq<Word>)
    requires d != [] && 1 <= d[|d| - 1] as int <= 16
    ensures var n := d[|d| - 1] as int;
            Unpad(d) == Ok(d[..if n <= |d| then |d| - n else if n <= 2 * |d| then 2 * |d| - n else 0])
  {
  }

  lemma {:induction false} DecodedLength(h: string)
    ensures |HexToBytes(h)| == (|h| + 1) / 2
    decreases |h|
  {
    if h != "" {
      DecodedLength(Substr(h, 2, |h|));
    }
  }

  /**
   Decryption refuses a string that is no whole number of blocks before it looks at it, and after that only
   a last byte outside 1 to 16.
   */
  lemma RefusedExactly(s: SBox, cipherHex: string, keyHex: string, ivHex: string)
    ensures var d, r := Recovered(s, HexToBytes(cipherHex), keyHex, ivHex), DecryptHex(s, cipherHex, keyHex, ivHex);
            && (r == Err(NotWholeBlocks) <==> (|cipherHex| + 1) / 2 % 16 != 0)
            && (r == Err(BadPadding) <==> (|cipherHex| + 1) / 2 % 16 == 0 && d != [] && !(1 <= d[|d| - 1] as int <= 16))
  {
    DecodedLength(cipherHex);
  }
}
