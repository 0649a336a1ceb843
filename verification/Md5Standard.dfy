/**
 The pieces of the MD5 of public/lib.js against RFC 1321: rotations, byte orders, the initial state,
 and the digest of the empty message from section A.5, step by step.
 */
module Md5Standard {
  import opened Codec
  import opened Md5
  import opened Wrappers

  /// The pieces

  /** At the sixteen amounts in use the two shifts are the rotation of the word to the left. */
  lemma RotatesLeft(w: Word)
    ensures RotateLeft(w, 7) == w.RotateLeft(7) && RotateLeft(w, 12) == w.RotateLeft(12)
    ensures RotateLeft(w, 17) == w.RotateLeft(17) && RotateLeft(w, 22) == w.RotateLeft(22)
    ensures RotateLeft(w, 5) == w.RotateLeft(5) && RotateLeft(w, 9) == w.RotateLeft(9)
    ensures RotateLeft(w, 14) == w.RotateLeft(14) && RotateLeft(w, 20) == w.RotateLeft(20)
    ensures RotateLeft(w, 4) == w.RotateLeft(4) && RotateLeft(w, 11) == w.RotateLeft(11)
    ensures RotateLeft(w, 16) == w.RotateLeft(16) && RotateLeft(w, 23) == w.RotateLeft(23)
    ensures RotateLeft(w, 6) == w.RotateLeft(6) && RotateLeft(w, 10) == w.RotateLeft(10)
    ensures RotateLeft(w, 15) == w.RotateLeft(15) && RotateLeft(w, 21) == w.RotateLeft(21)
  {
  }

  lemma ByteAfter(w: Word)
    requires w < 255
    ensures (w + 1) as int == w as int + 1
  {
  }

  lemma ByteBelow(w: Word)
    requires w as int < 255
    ensures w < 255
  {
  }

  /** An octet is the word of its value. */
  lemma {:induction false} OctetWord(b: nat)
    requires b < 256
    ensures (b as Word) as int == b && b as Word <= 255
  {
    if b > 0 {
      OctetWord(b - 1);
      var w := (b - 1) as Word;
      ByteBelow(w);
      ByteAfter(w);
      assert ((w + 1) as int) as Word == w + 1;
    }
  }

  /** The bytes of a word are its digits to the base 256, low-order first. */
  lemma LowFirstValue(b0: Octet, b1: Octet, b2: Octet, b3: Octet)
    ensures LowFirst(b0, b1, b2, b3) == (b0 as Word) + 0x100 * (b1 as Word) + 0x1_0000 * (b2 as Word) + 0x100_0000 * (b3 as Word)
  {
    OctetWord(b0);
    OctetWord(b1);
    OctetWord(b2);
    OctetWord(b3);
    LowFirstSum(b0 as Word, b1 as Word, b2 as Word, b3 as Word);
  }

  lemma LowFirstSum(b0: Byte, b1: Byte, b2: Byte, b3: Byte)
    ensures b0 | (b1 << 8) | (b2 << 16) | (b3 << 24) == b0 + 0x100 * b1 + 0x1_0000 * b2 + 0x100_0000 * b3
  {
  }

  /** Taking a word apart gives back the bytes that it was put together from. */
  lemma OctetsOfWord(b0: Octet, b1: Octet, b2: Octet, b3: Octet)
    ensures var w := LowFirst(b0, b1, b2, b3);
            OctetOf(w, 0) == b0 && OctetOf(w, 1) == b1 && OctetOf(w, 2) == b2 && OctetOf(w, 3) == b3
  {
    OctetWord(b0);
    OctetWord(b1);
    OctetWord(b2);
    OctetWord(b3);
    PackedBytes(b3 as Word, b2 as Word, b1 as Word, b0 as Word);
    PackedLowFirst(b0, b1, b2, b3);
  }

  lemma PackedLowFirst(b0: Octet, b1: Octet, b2: Octet, b3: Octet)
    ensures LowFirst(b0, b1, b2, b3) == PackWord(b3 as Word, b2 as Word, b1 as Word, b0 as Word)
  {
  }

  /** Section 3.3: the initial state, low-order bytes first. */
  lemma InitialState()
    ensures INIT.a == LowFirst(0x01, 0x23, 0x45, 0x67)
    ensures INIT.b == LowFirst(0x89, 0xab, 0xcd, 0xef)
    ensures INIT.c == LowFirst(0xfe, 0xdc, 0xba, 0x98)
    ensures INIT.d == LowFirst(0x76, 0x54, 0x32, 0x10)
  {
  }

  /** Section 3 of RFC 3629: a code unit below 0x10000 in one, two or three bytes, which give it back. */
  lemma UnitIsUtf8(c: Unit)
    ensures var b := UnitBytes(c);
            if c < 0x80 then b == [c]
            else if c < 0x800 then
              && |b| == 2 && 0xC0 <= b[0] < 0xE0 && 0x80 <= b[1] < 0xC0
              && c as int == (b[0] as int - 0xC0) * 64 + (b[1] as int - 0x80)
            else
              && |b| == 3 && 0xE0 <= b[0] < 0xF0 && 0x80 <= b[1] < 0xC0 && 0x80 <= b[2] < 0xC0
              && c as int == (b[0] as int - 0xE0) * 4096 + (b[1] as int - 0x80) * 64 + (b[2] as int - 0x80)
  {
  }

  /** The length is written low-order byte first. */
  lemma LengthIsLowFirst(bits: nat)
    requires bits < 0x1_0000_0000
    ensures var b := LengthBytes(bits);
            && |b| == 8 && bits as int == b[0] as int + 0x100 * (b[1] as int) + 0x1_0000 * (b[2] as int) + 0x100_0000 * (b[3] as int)
            && b[4] == 0 && b[5] == 0 && b[6] == 0 && b[7] == 0
  {
    var q1, q2, q3 := bits / 0x100, bits / 0x1_0000, bits / 0x100_0000;
    assert bits == 0x100 * q1 + bits % 0x100 && q1 == 0x100 * q2 + q1 % 0x100 && q2 == 0x100 * q3 + q2 % 0x100;
    assert q3 % 0x100 == q3;
  }

  /** Every block goes on from the state that the blocks before it left. */
  lemma {:induction false} BlocksGoOn(o: Ops<Word>, h: Regs<Word>, a: seq<Octet>, b: seq<Octet>)
    requires |a| % 64 == 0
    ensures Blocks(o, h, a + b) == Blocks(o, Blocks(o, h, a), b)
    decreases |a|
  {
    if a == [] {
      assert a + b == b;
    } else {
      assert (a + b)[..64] == a[..64] && (a + b)[64..] == a[64..] + b;
      BlocksGoOn(o, Cycled(o, h, BlockWords(o, a[..64], 16)), a[64..], b);
    }
  }

  /// The digest of the empty message

  /** The table T of section 3.4: the integer part of 2^32 times the absolute sine of i + 1 radians. */
  ghost predicate IsTable(sine: nat -> Word) {
    && sine(0) == 0xd76aa478 && sine(1) == 0xe8c7b756 && sine(2) == 0x242070db && sine(3) == 0xc1bdceee
    && sine(4) == 0xf57c0faf && sine(5) == 0x4787c62a && sine(6) == 0xa8304613 && sine(7) == 0xfd469501
    && sine(8) == 0x698098d8 && sine(9) == 0x8b44f7af && sine(10) == 0xffff5bb1 && sine(11) == 0x895cd7be
    && sine(12) == 0x6b901122 && sine(13) == 0xfd987193 && sine(14) == 0xa679438e && sine(15) == 0x49b40821
    && sine(16) == 0xf61e2562 && sine(17) == 0xc040b340 && sine(18) == 0x265e5a51 && sine(19) == 0xe9b6c7aa
    && sine(20) == 0xd62f105d && sine(21) == 0x02441453 && sine(22) == 0xd8a1e681 && sine(23) == 0xe7d3fbc8
    && sine(24) == 0x21e1cde6 && sine(25) == 0xc33707d6 && sine(26) == 0xf4d50d87 && sine(27) == 0x455a14ed
    && sine(28) == 0xa9e3e905 && sine(29) == 0xfcefa3f8 && sine(30) == 0x676f02d9 && sine(31) == 0x8d2a4c8a
    && sine(32) == 0xfffa3942 && sine(33) == 0x8771f681 && sine(34) == 0x6d9d6122 && sine(35) == 0xfde5380c
    && sine(36) == 0xa4beea44 && sine(37) == 0x4bdecfa9 && sine(38) == 0xf6bb4b60 && sine(39) == 0xbebfbc70
    && sine(40) == 0x289b7ec6 && sine(41) == 0xeaa127fa && sine(42) == 0xd4ef3085 && sine(43) == 0x04881d05
    && sine(44) == 0xd9d4d039 && sine(45) == 0xe6db99e5 && sine(46) == 0x1fa27cf8 && sine(47) == 0xc4ac5665
    && sine(48) == 0xf4292244 && sine(49) == 0x432aff97 && sine(50) == 0xab9423a7 && sine(51) == 0xfc93a039
    && sine(52) == 0x655b59c3 && sine(53) == 0x8f0ccc92 && sine(54) == 0xffeff47d && sine(55) == 0x85845dd1
    && sine(56) == 0x6fa87e4f && sine(57) == 0xfe2ce6e0 && sine(58) == 0xa3014314 && sine(59) == 0x4e0811a1
    && sine(60) == 0xf7537e82 && sine(61) == 0xbd3af235 && sine(62) == 0x2ad7d2bb && sine(63) == 0xeb86d391
  }

  /** What a step puts into the second register. */
  function Turned(i: nat, a: Word, b: Word, c: Word, d: Word, t: Word, w: Word, s: Word): Word {
    Plus(b, RotateLeft(Sum(Mix(i, b, c, d), a, t, w), s))
  }

  lemma StepTo(sine: nat -> Word, x: seq<Word>, r: Regs<Word>, i: nat, a: Word, b: Word, c: Word, d: Word,
               g: nat, s: Word, t: Word, y: Word)
    requires |x| == 16 && i < 64 && Steps(WordOps(sine), x, r, i) == Regs(a, b, c, d)
    requires WordIndex(i) == g && Shift(i) == s && sine(i) == t && Turned(i, a, b, c, d, t, x[g], s) == y
    ensures Steps(WordOps(sine), x, r, i + 1) == Regs(d, y, b, c)
  {
    hide Mix, RotateLeft, WordIndex, Shift, Plus, Sum;
    var o := WordOps(sine);
    assert Steps(o, x, r, i + 1) == Step(o, x, Steps(o, x, r, i), i);
  }

  /** The first block of the empty message: a one bit and nothing else. */
  ghost predicate IsEmptyBlock(x: seq<Word>) {
    |x| == 16 && x[0] == 0x80 && forall i :: 1 <= i < 16 ==> x[i] == 0
  }

  lemma Turns1()
    ensures Turned(0, 0x67452301, 0xefcdab89, 0x98badcfe, 0x10325476, 0xd76aa478, 0x80, 7) == 0xa5202774
    ensures Turned(1, 0x10325476, 0xa5202774, 0xefcdab89, 0x98badcfe, 0xe8c7b756, 0, 12) == 0xf59592dd
    ensures Turned(2, 0x98badcfe, 0xf59592dd, 0xa5202774, 0xefcdab89, 0x242070db, 0, 17) == 0xe7f06b23
    ensures Turned(3, 0xefcdab89, 0xe7f06b23, 0xf59592dd, 0xa5202774, 0xc1bdceee, 0, 22) == 0x1b163203
    ensures Turned(4, 0xa5202774, 0x1b163203, 0xe7f06b23, 0xf59592dd, 0xf57c0faf, 0, 7) == 0x32033344
    ensures Turned(5, 0xf59592dd, 0x32033344, 0x1b163203, 0xe7f06b23, 0x4787c62a, 0, 12) == 0x2f35d494
    ensures Turned(6, 0xe7f06b23, 0x2f35d494, 0x32033344, 0x1b163203, 0xa8304613, 0, 17) == 0xf5b158db
    ensures Turned(7, 0x1b163203, 0xf5b158db, 0x2f35d494, 0x32033344, 0xfd469501, 0, 22) == 0x9bc13ce9
    ensures Turned(8, 0x32033344, 0x9bc13ce9, 0xf5b158db, 0x2f35d494, 0x698098d8, 0, 7) == 0x3893b991
    ensures Turned(9, 0x2f35d494, 0x3893b991, 0x9bc13ce9, 0xf5b158db, 0x8b44f7af, 0, 12) == 0xfce4a312
    ensures Turned(10, 0xf5b158db, 0xfce4a312, 0x3893b991, 0x9bc13ce9, 0xffff5bb1, 0, 17) == 0xe1ef0576
    ensures Turned(11, 0x9bc13ce9, 0xe1ef0576, 0xfce4a312, 0x3893b991, 0x895cd7be, 0, 22) == 0x70768a29
    ensures Turned(12, 0x3893b991, 0x70768a29, 0xe1ef0576, 0xfce4a312, 0x6b901122, 0, 7) == 0xf56c7cf1
    ensures Turned(13, 0xfce4a312, 0xf56c7cf1, 0x70768a29, 0xe1ef0576, 0xfd987193, 0, 12) == 0x374943a7
    ensures Turned(14, 0xe1ef0576, 0x374943a7, 0xf56c7cf1, 0x70768a29, 0xa679438e, 0, 17) == 0x5aa53f75
    ensures Turned(15, 0x70768a29, 0x5aa53f75, 0x374943a7, 0xf56c7cf1, 0x49b40821, 0, 22) == 0xd6819c6a
  {
  }

  lemma Tables1()
    ensures WordIndex(0) == 0 && WordIndex(1) == 1 && WordIndex(2) == 2 && WordIndex(3) == 3
    ensures WordIndex(4) == 4 && WordIndex(5) == 5 && WordIndex(6) == 6 && WordIndex(7) == 7
    ensures WordIndex(8) == 8 && WordIndex(9) == 9 && WordIndex(10) == 10 && WordIndex(11) == 11
    ensures WordIndex(12) == 12 && WordIndex(13) == 13 && WordIndex(14) == 14 && WordIndex(15) == 15
    ensures Shift(0) == 7 && Shift(1) == 12 && Shift(2) == 17 && Shift(3) == 22
    ensures Shift(4) == 7 && Shift(5) == 12 && Shift(6) == 17 && Shift(7) == 22
    ensures Shift(8) == 7 && Shift(9) == 12 && Shift(10) == 17 && Shift(11) == 22
    ensures Shift(12) == 7 && Shift(13) == 12 && Shift(14) == 17 && Shift(15) == 22
  {
  }

  lemma Turns2()
    ensures Turned(16, 0xf56c7cf1, 0xd6819c6a, 0x5aa53f75, 0x374943a7, 0xf61e2562, 0, 5) == 0x1c7d7513
    ensures Turned(17, 0x374943a7, 0x1c7d7513, 0xd6819c6a, 0x5aa53f75, 0xc040b340, 0, 9) == 0x7bd57a3a
    ensures Turned(18, 0x5aa53f75, 0x7bd57a3a, 0x1c7d7513, 0xd6819c6a, 0x265e5a51, 0, 14) == 0xc095f13a
    ensures Turned(19, 0xd6819c6a, 0xc095f13a, 0x7bd57a3a, 0x1c7d7513, 0xe9b6c7aa, 0x80, 20) == 0xbd782e17
    ensures Turned(20, 0x1c7d7513, 0xbd782e17, 0xc095f13a, 0x7bd57a3a, 0xd62f105d, 0, 5) == 0x3d1e3e6c
    ensures Turned(21, 0x7bd57a3a, 0x3d1e3e6c, 0xbd782e17, 0xc095f13a, 0x02441453, 0, 9) == 0x68b7b3e3
    ensures Turned(22, 0xc095f13a, 0x68b7b3e3, 0x3d1e3e6c, 0xbd782e17, 0xd8a1e681, 0, 14) == 0xeb41643e
    ensures Turned(23, 0xbd782e17, 0xeb41643e, 0x68b7b3e3, 0x3d1e3e6c, 0xe7d3fbc8, 0, 20) == 0xe422531a
    ensures Turned(24, 0x3d1e3e6c, 0xe422531a, 0xeb41643e, 0x68b7b3e3, 0x21e1cde6, 0, 5) == 0x306ec122
    ensures Turned(25, 0x68b7b3e3, 0x306ec122, 0xe422531a, 0xeb41643e, 0xc33707d6, 0, 9) == 0xd28c77c2
    ensures Turned(26, 0xeb41643e, 0xd28c77c2, 0x306ec122, 0xe422531a, 0xf4d50d87, 0, 14) == 0xa3c663da
    ensures Turned(27, 0xe422531a, 0xa3c663da, 0xd28c77c2, 0x306ec122, 0x455a14ed, 0, 20) == 0xa0572807
    ensures Turned(28, 0x306ec122, 0xa0572807, 0xa3c663da, 0xd28c77c2, 0xa9e3e905, 0, 5) == 0x13707036
    ensures Turned(29, 0xd28c77c2, 0x13707036, 0xa0572807, 0xa3c663da, 0xfcefa3f8, 0, 9) == 0xae7813db
    ensures Turned(30, 0xa3c663da, 0xae7813db, 0x13707036, 0xa0572807, 0x676f02d9, 0, 14) == 0x1c31c384
    ensures Turned(31, 0xa0572807, 0x1c31c384, 0xae7813db, 0x13707036, 0x8d2a4c8a, 0, 20) == 0xa2205f1f
  {
  }

  lemma Tables2()
    ensures WordIndex(16) == 1 && WordIndex(17) == 6 && WordIndex(18) == 11 && WordIndex(19) == 0
    ensures WordIndex(20) == 5 && WordIndex(21) == 10 && WordIndex(22) == 15 && WordIndex(23) == 4
    ensures WordIndex(24) == 9 && WordIndex(25) == 14 && WordIndex(26) == 3 && WordIndex(27) == 8
    ensures WordIndex(28) == 13 && WordIndex(29) == 2 && WordIndex(30) == 7 && WordIndex(31) == 12
    ensures Shift(16) == 5 && Shift(17) == 9 && Shift(18) == 14 && Shift(19) == 20
    ensures Shift(20) == 5 && Shift(21) == 9 && Shift(22) == 14 && Shift(23) == 20
    ensures Shift(24) == 5 && Shift(25) == 9 && Shift(26) == 14 && Shift(27) == 20
    ensures Shift(28) == 5 && Shift(29) == 9 && Shift(30) == 14 && Shift(31) == 20
  {
  }

  lemma Turns3()
    ensures Turned(32, 0x13707036, 0xa2205f1f, 0x1c31c384, 0xae7813db, 0xfffa3942, 0, 4) == 0xdf63eaa1
    ensures Turned(33, 0xae7813db, 0xdf63eaa1, 0xa2205f1f, 0x1c31c384, 0x8771f681, 0, 11) == 0xc3689f5b
    ensures Turned(34, 0x1c31c384, 0xc3689f5b, 0xdf63eaa1, 0xa2205f1f, 0x6d9d6122, 0, 16) == 0x12f3e755
    ensures Turned(35, 0xa2205f1f, 0x12f3e755, 0xc3689f5b, 0xdf63eaa1, 0xfde5380c, 0, 23) == 0x004b6669
    ensures Turned(36, 0xdf63eaa1, 0x004b6669, 0x12f3e755, 0xc3689f5b, 0xa4beea44, 0, 4) == 0x5f7a9b2e
    ensures Turned(37, 0xc3689f5b, 0x5f7a9b2e, 0x004b6669, 0x12f3e755, 0x4bdecfa9, 0, 11) == 0xabc34e16
    ensures Turned(38, 0x12f3e755, 0xabc34e16, 0x5f7a9b2e, 0x004b6669, 0xf6bb4b60, 0, 16) == 0x91ca4cb7
    ensures Turned(39, 0x004b6669, 0x91ca4cb7, 0xabc34e16, 0x5f7a9b2e, 0xbebfbc70, 0, 23) == 0xc5dc8c15
    ensures Turned(40, 0x5f7a9b2e, 0xc5dc8c15, 0x91ca4cb7, 0xabc34e16, 0x289b7ec6, 0, 4) == 0x4497169d
    ensures Turned(41, 0xabc34e16, 0x4497169d, 0xc5dc8c15, 0x91ca4cb7, 0xeaa127fa, 0x80, 11) == 0x76fd93d4
    ensures Turned(42, 0x91ca4cb7, 0x76fd93d4, 0x4497169d, 0xc5dc8c15, 0xd4ef3085, 0, 16) == 0xfd95f243
    ensures Turned(43, 0xc5dc8c15, 0xfd95f243, 0x76fd93d4, 0x4497169d, 0x04881d05, 0, 23) == 0x0fe32453
    ensures Turned(44, 0x4497169d, 0x0fe32453, 0xfd95f243, 0x76fd93d4, 0xd9d4d039, 0, 4) == 0x3f55edfd
    ensures Turned(45, 0x76fd93d4, 0x3f55edfd, 0x0fe32453, 0xfd95f243, 0xe6db99e5, 0, 11) == 0x22a31f54
    ensures Turned(46, 0xfd95f243, 0x22a31f54, 0x3f55edfd, 0x0fe32453, 0x1fa27cf8, 0, 16) == 0x68d84ea2
    ensures Turned(47, 0x0fe32453, 0x68d84ea2, 0x22a31f54, 0x3f55edfd, 0xc4ac5665, 0, 23) == 0xca7d2dbd
  {
  }

  lemma Tables3()
    ensures WordIndex(32) == 5 && WordIndex(33) == 8 && WordIndex(34) == 11 && WordIndex(35) == 14
    ensures WordIndex(36) == 1 && WordIndex(37) == 4 && WordIndex(38) == 7 && WordIndex(39) == 10
    ensures WordIndex(40) == 13 && WordIndex(41) == 0 && WordIndex(42) == 3 && WordIndex(43) == 6
    ensures WordIndex(44) == 9 && WordIndex(45) == 12 && WordIndex(46) == 15 && WordIndex(47) == 2
    ensures Shift(32) == 4 && Shift(33) == 11 && Shift(34) == 16 && Shift(35) == 23
    ensures Shift(36) == 4 && Shift(37) == 11 && Shift(38) == 16 && Shift(39) == 23
    ensures Shift(40) == 4 && Shift(41) == 11 && Shift(42) == 16 && Shift(43) == 23
    ensures Shift(44) == 4 && Shift(45) == 11 && Shift(46) == 16 && Shift(47) == 23
  {
  }

  lemma Turns4()
    ensures Turned(48, 0x3f55edfd, 0xca7d2dbd, 0x68d84ea2, 0x22a31f54, 0xf4292244, 0x80, 6) == 0x93aa2577
    ensures Turned(49, 0x22a31f54, 0x93aa2577, 0xca7d2dbd, 0x68d84ea2, 0x432aff97, 0, 10) == 0x1688dc85
    ensures Turned(50, 0x68d84ea2, 0x1688dc85, 0x93aa2577, 0xca7d2dbd, 0xab9423a7, 0, 15) == 0xcd85b8cb
    ensures Turned(51, 0xca7d2dbd, 0xcd85b8cb, 0x1688dc85, 0x93aa2577, 0xfc93a039, 0, 21) == 0x561e0689
    ensures Turned(52, 0x93aa2577, 0x561e0689, 0xcd85b8cb, 0x1688dc85, 0x655b59c3, 0, 6) == 0x5625a114
    ensures Turned(53, 0x1688dc85, 0x5625a114, 0x561e0689, 0xcd85b8cb, 0x8f0ccc92, 0, 10) == 0x3450f42b
    ensures Turned(54, 0xcd85b8cb, 0x3450f42b, 0x5625a114, 0x561e0689, 0xffeff47d, 0, 15) == 0x392ad0d0
    ensures Turned(55, 0x561e0689, 0x392ad0d0, 0x3450f42b, 0x5625a114, 0x85845dd1, 0, 21) == 0x1e77fa61
    ensures Turned(56, 0x5625a114, 0x1e77fa61, 0x392ad0d0, 0x3450f42b, 0x6fa87e4f, 0, 6) == 0x474a9c8c
    ensures Turned(57, 0x3450f42b, 0x474a9c8c, 0x1e77fa61, 0x392ad0d0, 0xfe2ce6e0, 0, 10) == 0xdfce00bc
    ensures Turned(58, 0x392ad0d0, 0xdfce00bc, 0x474a9c8c, 0x1e77fa61, 0xa3014314, 0, 15) == 0x36594b14
    ensures Turned(59, 0x1e77fa61, 0x36594b14, 0xdfce00bc, 0x474a9c8c, 0x4e0811a1, 0, 21) == 0x30130182
    ensures Turned(60, 0x474a9c8c, 0x30130182, 0x36594b14, 0xdfce00bc, 0xf7537e82, 0, 6) == 0x7246fad3
    ensures Turned(61, 0xdfce00bc, 0x7246fad3, 0x30130182, 0x36594b14, 0xbd3af235, 0, 10) == 0x6e10a476
    ensures Turned(62, 0x36594b14, 0x6e10a476, 0x7246fad3, 0x30130182, 0x2ad7d2bb, 0, 15) == 0xff4ea3eb
    ensures Turned(63, 0x30130182, 0xff4ea3eb, 0x6e10a476, 0x7246fad3, 0xeb86d391, 0, 21) == 0x14e45506
  {
  }

  lemma Tables4()
    ensures WordIndex(48) == 0 && WordIndex(49) == 7 && WordIndex(50) == 14 && WordIndex(51) == 5
    ensures WordIndex(52) == 12 && WordIndex(53) == 3 && WordIndex(54) == 10 && WordIndex(55) == 1
    ensures WordIndex(56) == 8 && WordIndex(57) == 15 && WordIndex(58) == 6 && WordIndex(59) == 13
    ensures WordIndex(60) == 4 && WordIndex(61) == 11 && WordIndex(62) == 2 && WordIndex(63) == 9
    ensures Shift(48) == 6 && Shift(49) == 10 && Shift(50) == 15 && Shift(51) == 21
    ensures Shift(52) == 6 && Shift(53) == 10 && Shift(54) == 15 && Shift(55) == 21
    ensures Shift(56) == 6 && Shift(57) == 10 && Shift(58) == 15 && Shift(59) == 21
    ensures Shift(60) == 6 && Shift(61) == 10 && Shift(62) == 15 && Shift(63) == 21
  {
  }

  lemma Round1(sine: nat -> Word, x: seq<Word>, r: Regs<Word>)
    requires IsTable(sine) && IsEmptyBlock(x)
    requires Steps(WordOps(sine), x, r, 0) == Regs(0x67452301, 0xefcdab89, 0x98badcfe, 0x10325476)
    ensures Steps(WordOps(sine), x, r, 16) == Regs(0xf56c7cf1, 0xd6819c6a, 0x5aa53f75, 0x374943a7)
  {
    hide Steps, Step, WordOps, Turned, WordIndex, Shift;
    Turns1();
    Tables1();
    StepTo(sine, x, r, 0, 0x67452301, 0xefcdab89, 0x98badcfe, 0x10325476, 0, 7, 0xd76aa478, 0xa5202774);
    StepTo(sine, x, r, 1, 0x10325476, 0xa5202774, 0xefcdab89, 0x98badcfe, 1, 12, 0xe8c7b756, 0xf59592dd);
    StepTo(sine, x, r, 2, 0x98badcfe, 0xf59592dd, 0xa5202774, 0xefcdab89, 2, 17, 0x242070db, 0xe7f06b23);
    StepTo(sine, x, r, 3, 0xefcdab89, 0xe7f06b23, 0xf59592dd, 0xa5202774, 3, 22, 0xc1bdceee, 0x1b163203);
    StepTo(sine, x, r, 4, 0xa5202774, 0x1b163203, 0xe7f06b23, 0xf59592dd, 4, 7, 0xf57c0faf, 0x32033344);
    StepTo(sine, x, r, 5, 0xf59592dd, 0x32033344, 0x1b163203, 0xe7f06b23, 5, 12, 0x4787c62a, 0x2f35d494);
    StepTo(sine, x, r, 6, 0xe7f06b23, 0x2f35d494, 0x32033344, 0x1b163203, 6, 17, 0xa8304613, 0xf5b158db);
    StepTo(sine, x, r, 7, 0x1b163203, 0xf5b158db, 0x2f35d494, 0x32033344, 7, 22, 0xfd469501, 0x9bc13ce9);
    StepTo(sine, x, r, 8, 0x32033344, 0x9bc13ce9, 0xf5b158db, 0x2f35d494, 8, 7, 0x698098d8, 0x3893b991);
    StepTo(sine, x, r, 9, 0x2f35d494, 0x3893b991, 0x9bc13ce9, 0xf5b158db, 9, 12, 0x8b44f7af, 0xfce4a312);
    StepTo(sine, x, r, 10, 0xf5b158db, 0xfce4a312, 0x3893b991, 0x9bc13ce9, 10, 17, 0xffff5bb1, 0xe1ef0576);
    StepTo(sine, x, r, 11, 0x9bc13ce9, 0xe1ef0576, 0xfce4a312, 0x3893b991, 11, 22, 0x895cd7be, 0x70768a29);
    StepTo(sine, x, r, 12, 0x3893b991, 0x70768a29, 0xe1ef0576, 0xfce4a312, 12, 7, 0x6b901122, 0xf56c7cf1);
    StepTo(sine, x, r, 13, 0xfce4a312, 0xf56c7cf1, 0x70768a29, 0xe1ef0576, 13, 12, 0xfd987193, 0x374943a7);
    StepTo(sine, x, r, 14, 0xe1ef0576, 0x374943a7, 0xf56c7cf1, 0x70768a29, 14, 17, 0xa679438e, 0x5aa53f75);
    StepTo(sine, x, r, 15, 0x70768a29, 0x5aa53f75, 0x374943a7, 0xf56c7cf1, 15, 22, 0x49b40821, 0xd6819c6a);
  }

  lemma Round2(sine: nat -> Word, x: seq<Word>, r: Regs<Word>)
    requires IsTable(sine) && IsEmptyBlock(x)
    requires Steps(WordOps(sine), x, r, 16) == Regs(0xf56c7cf1, 0xd6819c6a, 0x5aa53f75, 0x374943a7)
    ensures Steps(WordOps(sine), x, r, 32) == Regs(0x13707036, 0xa2205f1f, 0x1c31c384, 0xae7813db)
  {
    hide Steps, Step, WordOps, Turned, WordIndex, Shift;
    Turns2();
    Tables2();
    StepTo(sine, x, r, 16, 0xf56c7cf1, 0xd6819c6a, 0x5aa53f75, 0x374943a7, 1, 5, 0xf61e2562, 0x1c7d7513);
    StepTo(sine, x, r, 17, 0x374943a7, 0x1c7d7513, 0xd6819c6a, 0x5aa53f75, 6, 9, 0xc040b340, 0x7bd57a3a);
    StepTo(sine, x, r, 18, 0x5aa53f75, 0x7bd57a3a, 0x1c7d7513, 0xd6819c6a, 11, 14, 0x265e5a51, 0xc095f13a);
    StepTo(sine, x, r, 19, 0xd6819c6a, 0xc095f13a, 0x7bd57a3a, 0x1c7d7513, 0, 20, 0xe9b6c7aa, 0xbd782e17);
    StepTo(sine, x, r, 20, 0x1c7d7513, 0xbd782e17, 0xc095f13a, 0x7bd57a3a, 5, 5, 0xd62f105d, 0x3d1e3e6c);
    StepTo(sine, x, r, 21, 0x7bd57a3a, 0x3d1e3e6c, 0xbd782e17, 0xc095f13a, 10, 9, 0x02441453, 0x68b7b3e3);
    StepTo(sine, x, r, 22, 0xc095f13a, 0x68b7b3e3, 0x3d1e3e6c, 0xbd782e17, 15, 14, 0xd8a1e681, 0xeb41643e);
    StepTo(sine, x, r, 23, 0xbd782e17, 0xeb41643e, 0x68b7b3e3, 0x3d1e3e6c, 4, 20, 0xe7d3fbc8, 0xe422531a);
    StepTo(sine, x, r, 24, 0x3d1e3e6c, 0xe422531a, 0xeb41643e, 0x68b7b3e3, 9, 5, 0x21e1cde6, 0x306ec122);
    StepTo(sine, x, r, 25, 0x68b7b3e3, 0x306ec122, 0xe422531a, 0xeb41643e, 14, 9, 0xc33707d6, 0xd28c77c2);
    StepTo(sine, x, r, 26, 0xeb41643e, 0xd28c77c2, 0x306ec122, 0xe422531a, 3, 14, 0xf4d50d87, 0xa3c663da);
    StepTo(sine, x, r, 27, 0xe422531a, 0xa3c663da, 0xd28c77c2, 0x306ec122, 8, 20, 0x455a14ed, 0xa0572807);
    StepTo(sine, x, r, 28, 0x306ec122, 0xa0572807, 0xa3c663da, 0xd28c77c2, 13, 5, 0xa9e3e905, 0x13707036);
    StepTo(sine, x, r, 29, 0xd28c77c2, 0x13707036, 0xa0572807, 0xa3c663da, 2, 9, 0xfcefa3f8, 0xae7813db);
    StepTo(sine, x, r, 30, 0xa3c663da, 0xae7813db, 0x13707036, 0xa0572807, 7, 14, 0x676f02d9, 0x1c31c384);
    StepTo(sine, x, r, 31, 0xa0572807, 0x1c31c384, 0xae7813db, 0x13707036, 12, 20, 0x8d2a4c8a, 0xa2205f1f);
  }

  lemma Round3(sine: nat -> Word, x: seq<Word>, r: Regs<Word>)
    requires IsTable(sine) && IsEmptyBlock(x)
    requires Steps(WordOps(sine), x, r, 32) == Regs(0x13707036, 0xa2205f1f, 0x1c31c384, 0xae7813db)
    ensures Steps(WordOps(sine), x, r, 48) == Regs(0x3f55edfd, 0xca7d2dbd, 0x68d84ea2, 0x22a31f54)
  {
    hide Steps, Step, WordOps, Turned, WordIndex, Shift;
    Turns3();
    Tables3();
    StepTo(sine, x, r, 32, 0x13707036, 0xa2205f1f, 0x1c31c384, 0xae7813db, 5, 4, 0xfffa3942, 0xdf63eaa1);
    StepTo(sine, x, r, 33, 0xae7813db, 0xdf63eaa1, 0xa2205f1f, 0x1c31c384, 8, 11, 0x8771f681, 0xc3689f5b);
    StepTo(sine, x, r, 34, 0x1c31c384, 0xc3689f5b, 0xdf63eaa1, 0xa2205f1f, 11, 16, 0x6d9d6122, 0x12f3e755);
    StepTo(sine, x, r, 35, 0xa2205f1f, 0x12f3e755, 0xc3689f5b, 0xdf63eaa1, 14, 23, 0xfde5380c, 0x004b6669);
    StepTo(sine, x, r, 36, 0xdf63eaa1, 0x004b6669, 0x12f3e755, 0xc3689f5b, 1, 4, 0xa4beea44, 0x5f7a9b2e);
    StepTo(sine, x, r, 37, 0xc3689f5b, 0x5f7a9b2e, 0x004b6669, 0x12f3e755, 4, 11, 0x4bdecfa9, 0xabc34e16);
    StepTo(sine, x, r, 38, 0x12f3e755, 0xabc34e16, 0x5f7a9b2e, 0x004b6669, 7, 16, 0xf6bb4b60, 0x91ca4cb7);
    StepTo(sine, x, r, 39, 0x004b6669, 0x91ca4cb7, 0xabc34e16, 0x5f7a9b2e, 10, 23, 0xbebfbc70, 0xc5dc8c15);
    StepTo(sine, x, r, 40, 0x5f7a9b2e, 0xc5dc8c15, 0x91ca4cb7, 0xabc34e16, 13, 4, 0x289b7ec6, 0x4497169d);
    StepTo(sine, x, r, 41, 0xabc34e16, 0x4497169d, 0xc5dc8c15, 0x91ca4cb7, 0, 11, 0xeaa127fa, 0x76fd93d4);
    StepTo(sine, x, r, 42, 0x91ca4cb7, 0x76fd93d4, 0x4497169d, 0xc5dc8c15, 3, 16, 0xd4ef3085, 0xfd95f243);
    StepTo(sine, x, r, 43, 0xc5dc8c15, 0xfd95f243, 0x76fd93d4, 0x4497169d, 6, 23, 0x04881d05, 0x0fe32453);
    StepTo(sine, x, r, 44, 0x4497169d, 0x0fe32453, 0xfd95f243, 0x76fd93d4, 9, 4, 0xd9d4d039, 0x3f55edfd);
    StepTo(sine, x, r, 45, 0x76fd93d4, 0x3f55edfd, 0x0fe32453, 0xfd95f243, 12, 11, 0xe6db99e5, 0x22a31f54);
    StepTo(sine, x, r, 46, 0xfd95f243, 0x22a31f54, 0x3f55edfd, 0x0fe32453, 15, 16, 0x1fa27cf8, 0x68d84ea2);
    StepTo(sine, x, r, 47, 0x0fe32453, 0x68d84ea2, 0x22a31f54, 0x3f55edfd, 2, 23, 0xc4ac5665, 0xca7d2dbd);
  }

  lemma Round4(sine: nat -> Word, x: seq<Word>, r: Regs<Word>)
    requires IsTable(sine) && IsEmptyBlock(x)
    requires Steps(WordOps(sine), x, r, 48) == Regs(0x3f55edfd, 0xca7d2dbd, 0x68d84ea2, 0x22a31f54)
    ensures Steps(WordOps(sine), x, r, 64) == Regs(0x7246fad3, 0x14e45506, 0xff4ea3eb, 0x6e10a476)
  {
    hide Steps, Step, WordOps, Turned, WordIndex, Shift;
    Turns4();
    Tables4();
    StepTo(sine, x, r, 48, 0x3f55edfd, 0xca7d2dbd, 0x68d84ea2, 0x22a31f54, 0, 6, 0xf4292244, 0x93aa2577);
    StepTo(sine, x, r, 49, 0x22a31f54, 0x93aa2577, 0xca7d2dbd, 0x68d84ea2, 7, 10, 0x432aff97, 0x1688dc85);
    StepTo(sine, x, r, 50, 0x68d84ea2, 0x1688dc85, 0x93aa2577, 0xca7d2dbd, 14, 15, 0xab9423a7, 0xcd85b8cb);
    StepTo(sine, x, r, 51, 0xca7d2dbd, 0xcd85b8cb, 0x1688dc85, 0x93aa2577, 5, 21, 0xfc93a039, 0x561e0689);
    StepTo(sine, x, r, 52, 0x93aa2577, 0x561e0689, 0xcd85b8cb, 0x1688dc85, 12, 6, 0x655b59c3, 0x5625a114);
    StepTo(sine, x, r, 53, 0x1688dc85, 0x5625a114, 0x561e0689, 0xcd85b8cb, 3, 10, 0x8f0ccc92, 0x3450f42b);
    StepTo(sine, x, r, 54, 0xcd85b8cb, 0x3450f42b, 0x5625a114, 0x561e0689, 10, 15, 0xffeff47d, 0x392ad0d0);
    StepTo(sine, x, r, 55, 0x561e0689, 0x392ad0d0, 0x3450f42b, 0x5625a114, 1, 21, 0x85845dd1, 0x1e77fa61);
    StepTo(sine, x, r, 56, 0x5625a114, 0x1e77fa61, 0x392ad0d0, 0x3450f42b, 8, 6, 0x6fa87e4f, 0x474a9c8c);
    StepTo(sine, x, r, 57, 0x3450f42b, 0x474a9c8c, 0x1e77fa61, 0x392ad0d0, 15, 10, 0xfe2ce6e0, 0xdfce00bc);
    StepTo(sine, x, r, 58, 0x392ad0d0, 0xdfce00bc, 0x474a9c8c, 0x1e77fa61, 6, 15, 0xa3014314, 0x36594b14);
    StepTo(sine, x, r, 59, 0x1e77fa61, 0x36594b14, 0xdfce00bc, 0x474a9c8c, 13, 21, 0x4e0811a1, 0x30130182);
    StepTo(sine, x, r, 60, 0x474a9c8c, 0x30130182, 0x36594b14, 0xdfce00bc, 4, 6, 0xf7537e82, 0x7246fad3);
    StepTo(sine, x, r, 61, 0xdfce00bc, 0x7246fad3, 0x30130182, 0x36594b14, 11, 10, 0xbd3af235, 0x6e10a476);
    StepTo(sine, x, r, 62, 0x36594b14, 0x6e10a476, 0x7246fad3, 0x30130182, 2, 15, 0x2ad7d2bb, 0xff4ea3eb);
    StepTo(sine, x, r, 63, 0x30130182, 0xff4ea3eb, 0x6e10a476, 0x7246fad3, 9, 21, 0xeb86d391, 0x14e45506);
  }

  lemma {:induction false} BlockWordsAt<W>(o: Ops<W>, block: seq<Octet>, n: nat, i: nat)
    requires |block| == 64 && i < n <= 16
    ensures BlockWords(o, block, n)[i] == o.word(block[4 * i], block[4 * i + 1], block[4 * i + 2], block[4 * i + 3])
  {
    if i + 1 < n {
      BlockWordsAt(o, block, n - 1, i);
    }
  }

  lemma EmptyBlock(o: Ops<Word>, block: seq<Octet>)
    requires |block| == 64 && block[0] == 0x80 && (forall j :: 1 <= j < 64 ==> block[j] == 0) && o.word == LowFirst
    ensures IsEmptyBlock(BlockWords(o, block, 16))
  {
    var n := 16;
    forall i | 0 <= i < n
      ensures BlockWords(o, block, n)[i] == if i == 0 then 0x80 else 0
    {
      BlockWordsAt(o, block, n, i);
    }
  }

  lemma EmptyCycle(sine: nat -> Word, x: seq<Word>)
    requires IsTable(sine) && IsEmptyBlock(x)
    ensures Cycled(WordOps(sine), INIT, x) == Regs(0xd98c1dd4, 0x04b2008f, 0x980980e9, 0x7e42f8ec)
  {
    hide Step;
    Round1(sine, x, INIT);
    Round2(sine, x, INIT);
    Round3(sine, x, INIT);
    Round4(sine, x, INIT);
  }

  /** The digits are 0 to 9 and a to f. */
  lemma DigitChars(d: nat)
    requires d < 16
    ensures HEX_DIGITS[d] == if d < 10 then '0' + d as char else 'a' + (d - 10) as char
  {
  }

  /** A word is printed low-order byte first, two digits a byte. */
  lemma WordDigits(sine: nat -> Word, b0: Octet, b1: Octet, b2: Octet, b3: Octet)
    ensures WordHex(WordOps(sine), LowFirst(b0, b1, b2, b3))
         == [HEX_DIGITS[b0 / 16], HEX_DIGITS[b0 % 16], HEX_DIGITS[b1 / 16], HEX_DIGITS[b1 % 16],
             HEX_DIGITS[b2 / 16], HEX_DIGITS[b2 % 16], HEX_DIGITS[b3 / 16], HEX_DIGITS[b3 % 16]]
  {
    OctetsOfWord(b0, b1, b2, b3);
    HexPair(b0);
    HexPair(b1);
    HexPair(b2);
    HexPair(b3);
  }

  /** The state that the only block of the empty message leaves, word by word. */
  lemma EmptyWords()
    ensures 0xd98c1dd4 == LowFirst(0xd4, 0x1d, 0x8c, 0xd9)
    ensures 0x04b2008f == LowFirst(0x8f, 0x00, 0xb2, 0x04)
    ensures 0x980980e9 == LowFirst(0xe9, 0x80, 0x09, 0x98)
    ensures 0x7e42f8ec == LowFirst(0xec, 0xf8, 0x42, 0x7e)
  {
  }

  lemma EmptyHex(sine: nat -> Word)
    ensures Hex(WordOps(sine), Regs(0xd98c1dd4, 0x04b2008f, 0x980980e9, 0x7e42f8ec))
         == "d41d8cd9" + "8f00b204" + "e9800998" + "ecf8427e"
  {
    hide WordHex, LowFirst;
    EmptyWords();
    WordDigits(sine, 0xd4, 0x1d, 0x8c, 0xd9);
    WordDigits(sine, 0x8f, 0x00, 0xb2, 0x04);
    WordDigits(sine, 0xe9, 0x80, 0x09, 0x98);
    WordDigits(sine, 0xec, 0xf8, 0x42, 0x7e);
  }

  /** Section A.5: the digest of the empty message, for the standard's table. */
  lemma EmptyDigest(sine: nat -> Word)
    requires IsTable(sine)
    ensures Md5Of(WordOps(sine), INIT, []) == "d41d8cd9" + "8f00b204" + "e9800998" + "ecf8427e"
  {
    hide IsTable, Cycled, Hex;
    var bytes := Padded([]);
    assert |bytes| == 64 && bytes[..64] == bytes;
    var x := BlockWords(WordOps(sine), bytes, 16);
    EmptyBlock(WordOps(sine), bytes);
    EmptyCycle(sine, x);
    EmptyHex(sine);
  }
}
