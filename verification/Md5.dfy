/**
 The MD5 of public/lib.js against RFC 1321. Words are any type with the operations of section 2; the
 sine table and the auxiliary functions are part of those operations.
 */
module Md5 {
  import opened Codec
  import opened Wrappers

  type Octet = b: nat | b < 256

  /**
   `mix(i, x, y, z)` is F, G, H or I by the round of step `i`, `sum` adds four words, `sine(i)` is
   T[i + 1], `word` takes its low-order byte first, and `octet(w, j)` is byte `j` of a word, low-order first.
   */
  datatype Ops<!W> = Ops(
    mix: (nat, W, W, W) -> W, sum: (W, W, W, W) -> W, add: (W, W) -> W, rotl: (W, Word) -> W,
    sine: nat -> W, word: (Octet, Octet, Octet, Octet) -> W, octet: (W, nat) -> Octet)

  datatype Regs<W> = Regs(a: W, b: W, c: W, d: W)

  /// md5_cycle

  const MD5_S: seq<Word> := [7, 12, 17, 22, 5, 9, 14, 20, 4, 11, 16, 23, 6, 10, 15, 21]

  /** Which word of the block step `i` reads. */
  function WordIndex(i: nat): (g: nat)
    requires i < 64
    ensures g < 16
  {
    if i < 16 then i else if i < 32 then (5 * i + 1) % 16 else if i < 48 then (3 * i + 5) % 16 else 7 * i % 16
  }

  function Shift(i: nat): Word
    requires i < 64
  {
    MD5_S[i % 4 + i / 16 * 4]
  }

  /** One pass of the loop: every register moves on by one. */
  function Step<W>(o: Ops<W>, x: seq<W>, r: Regs<W>, i: nat): Regs<W>
    requires |x| == 16 && i < 64
  {
    var f := o.sum(o.mix(i, r.b, r.c, r.d), r.a, o.sine(i), x[WordIndex(i)]);
    Regs(r.d, o.add(r.b, o.rotl(f, Shift(i))), r.b, r.c)
  }

  function Steps<W>(o: Ops<W>, x: seq<W>, r: Regs<W>, n: nat): Regs<W>
    requires |x| == 16 && n <= 64
  {
    if n == 0 then r else Step(o, x, Steps(o, x, r, n - 1), n - 1)
  }

  function Added<W>(o: Ops<W>, h: Regs<W>, r: Regs<W>): Regs<W> {
    Regs(o.add(h.a, r.a), o.add(h.b, r.b), o.add(h.c, r.c), o.add(h.d, r.d))
  }

  function RegsOf<W>(h: seq<W>): Regs<W>
    requires |h| == 4
  {
    Regs(h[0], h[1], h[2], h[3])
  }

  function Cycled<W>(o: Ops<W>, h: Regs<W>, x: seq<W>): Regs<W>
    requires |x| == 16
  {
    Added(o, h, Steps(o, x, h, 64))
  }

  /** The 64 steps, on registers of their own. */
  method Rounds<W>(o: Ops<W>, start: Regs<W>, k: seq<W>) returns (a: W, b: W, c: W, d: W)
    requires |k| == 16
    ensures Regs(a, b, c, d) == Steps(o, k, start, 64)
  {
    a, b, c, d := start.a, start.b, start.c, start.d;
    for i := 0 to 64
      invariant Regs(a, b, c, d) == Steps(o, k, start, i)
    {
      var f := o.sum(o.mix(i, b, c, d), a, o.sine(i), k[WordIndex(i)]);
      var s := Shift(i);
      a := d;
      d := c;
      c := b;
      b := o.add(b, o.rotl(f, s));
    }
  }

  method Md5Cycle<W>(o: Ops<W>, x: array<W>, k: seq<W>)
    requires x.Length == 4 && |k| == 16
    modifies x
    ensures RegsOf(x[..]) == Cycled(o, RegsOf(old(x[..])), k)
  {
    var a, b, c, d := Rounds(o, Regs(x[0], x[1], x[2], x[3]), k);
    x[0] := o.add(x[0], a);
    x[1] := o.add(x[1], b);
    x[2] := o.add(x[2], c);
    x[3] := o.add(x[3], d);
  }

  /// RFC 1321, section 3.4

  /** The k of the n-th line of four operations. */
  function KRow(n: nat): (r: seq<nat>)
    requires n < 16
    ensures |r| == 4 && forall j :: 0 <= j < 4 ==> r[j] < 16
  {
    match n
    case 0 => [0, 1, 2, 3]
    case 1 => [4, 5, 6, 7]
    case 2 => [8, 9, 10, 11]
    case 3 => [12, 13, 14, 15]
    case 4 => [1, 6, 11, 0]
    case 5 => [5, 10, 15, 4]
    case 6 => [9, 14, 3, 8]
    case 7 => [13, 2, 7, 12]
    case 8 => [5, 8, 11, 14]
    case 9 => [1, 4, 7, 10]
    case 10 => [13, 0, 3, 6]
    case 11 => [9, 12, 15, 2]
    case 12 => [0, 7, 14, 5]
    case 13 => [12, 3, 10, 1]
    case 14 => [8, 15, 6, 13]
    case 15 => [4, 11, 2, 9]
  }

  /** The s of a line, the same for the four lines of a round. */
  function SRow(n: nat): seq<Word>
    requires n < 16
  {
    if n < 4 then [7, 12, 17, 22] else if n < 8 then [5, 9, 14, 20] else if n < 12 then [4, 11, 16, 23] else [6, 10, 15, 21]
  }

  /** The operation [abcd k s i]: a = b + ((a + f(b, c, d) + X[k] + T[i]) <<< s). */
  function Operation<W>(o: Ops<W>, x: seq<W>, a: W, b: W, c: W, d: W, k: nat, s: Word, i: nat): W
    requires |x| == 16 && k < 16
  {
    o.add(b, o.rotl(o.sum(o.mix(i, b, c, d), a, o.sine(i), x[k]), s))
  }

  /** A line: [ABCD], [DABC], [CDAB] and [BCDA], each on the registers the one before left. */
  function FourOperations<W>(o: Ops<W>, x: seq<W>, r: Regs<W>, n: nat): Regs<W>
    requires |x| == 16 && n < 16
  {
    var k, s := KRow(n), SRow(n);
    var a := Operation(o, x, r.a, r.b, r.c, r.d, k[0], s[0], 4 * n);
    var d := Operation(o, x, r.d, a, r.b, r.c, k[1], s[1], 4 * n + 1);
    var c := Operation(o, x, r.c, d, a, r.b, k[2], s[2], 4 * n + 2);
    var b := Operation(o, x, r.b, c, d, a, k[3], s[3], 4 * n + 3);
    Regs(a, b, c, d)
  }

  function Lines<W>(o: Ops<W>, x: seq<W>, r: Regs<W>, n: nat): Regs<W>
    requires |x| == 16 && n <= 16
  {
    if n == 0 then r else FourOperations(o, x, Lines(o, x, r, n - 1), n - 1)
  }

  function RfcBlock<W>(o: Ops<W>, h: Regs<W>, x: seq<W>): Regs<W>
    requires |x| == 16
  {
    Added(o, h, Lines(o, x, h, 16))
  }

  lemma KRound1(n: nat, j: nat)
    requires n < 4 && (j == 0 || j == 1 || j == 2 || j == 3)
    ensures WordIndex(4 * n + j) == KRow(n)[j]
  {
  }

  lemma KRound2(n: nat, j: nat)
    requires 4 <= n < 8 && (j == 0 || j == 1 || j == 2 || j == 3)
    ensures WordIndex(4 * n + j) == KRow(n)[j]
  {
  }

  lemma KRound3(n: nat, j: nat)
    requires 8 <= n < 12 && (j == 0 || j == 1 || j == 2 || j == 3)
    ensures WordIndex(4 * n + j) == KRow(n)[j]
  {
  }

  lemma KRound4(n: nat, j: nat)
    requires 12 <= n < 16 && (j == 0 || j == 1 || j == 2 || j == 3)
    ensures WordIndex(4 * n + j) == KRow(n)[j]
  {
  }

  lemma StepIsOperation<W>(o: Ops<W>, x: seq<W>, r: Regs<W>, n: nat, j: nat)
    requires |x| == 16 && n < 16 && j < 4
    ensures Step(o, x, r, 4 * n + j)
         == Regs(r.d, Operation(o, x, r.a, r.b, r.c, r.d, KRow(n)[j], SRow(n)[j], 4 * n + j), r.b, r.c)
  {
    assert WordIndex(4 * n + j) == KRow(n)[j] by {
      if n < 4 {
        KRound1(n, j);
      } else if n < 8 {
        KRound2(n, j);
      } else if n < 12 {
        KRound3(n, j);
      } else {
        KRound4(n, j);
      }
    }
    assert Shift(4 * n + j) == SRow(n)[j] by {
      var i := 4 * n + j;
      assert i % 4 == j && i / 16 == n / 4;
      assert j == 0 || j == 1 || j == 2 || j == 3;
      assert n / 4 == 0 || n / 4 == 1 || n / 4 == 2 || n / 4 == 3;
    }
  }

  lemma FourSteps<W>(o: Ops<W>, x: seq<W>, r: Regs<W>, n: nat)
    requires |x| == 16 && n < 16
    ensures Step(o, x, Step(o, x, Step(o, x, Step(o, x, r, 4 * n), 4 * n + 1), 4 * n + 2), 4 * n + 3) == FourOperations(o, x, r, n)
  {
    hide Step, Operation, KRow, SRow;
    var r1 := Step(o, x, r, 4 * n);
    var r2 := Step(o, x, r1, 4 * n + 1);
    var r3 := Step(o, x, r2, 4 * n + 2);
    StepIsOperation(o, x, r, n, 0);
    StepIsOperation(o, x, r1, n, 1);
    StepIsOperation(o, x, r2, n, 2);
    StepIsOperation(o, x, r3, n, 3);
  }

  lemma StepsFour<W>(o: Ops<W>, x: seq<W>, r: Regs<W>, i: nat)
    requires |x| == 16 && i + 4 <= 64
    ensures Steps(o, x, r, i + 4) == Step(o, x, Step(o, x, Step(o, x, Step(o, x, Steps(o, x, r, i), i), i + 1), i + 2), i + 3)
  {
    assert Steps(o, x, r, i + 1) == Step(o, x, Steps(o, x, r, i), i);
    assert Steps(o, x, r, i + 2) == Step(o, x, Steps(o, x, r, i + 1), i + 1);
    assert Steps(o, x, r, i + 3) == Step(o, x, Steps(o, x, r, i + 2), i + 2);
  }

  lemma LineOfSteps<W>(o: Ops<W>, x: seq<W>, r: Regs<W>, r0: Regs<W>, n: nat, i: nat)
    requires |x| == 16 && n < 16 && i == 4 * n && Steps(o, x, r, i) == r0
    ensures Steps(o, x, r, i + 4) == FourOperations(o, x, r0, n)
  {
    StepsFour(o, x, r, i);
    FourSteps(o, x, r0, n);
  }

  lemma LinesMore<W>(o: Ops<W>, x: seq<W>, r: Regs<W>, n: nat, n': nat)
    requires |x| == 16 && n < 16 && n' == n + 1
    ensures Lines(o, x, r, n') == FourOperations(o, x, Lines(o, x, r, n), n)
  {
  }

  /** After every fourth step the moving registers stand where the standard's fixed ones do. */
  lemma {:induction false} StepsAreLines<W>(o: Ops<W>, x: seq<W>, r: Regs<W>, n: nat, i: nat)
    requires |x| == 16 && n <= 16 && i == 4 * n
    ensures Steps(o, x, r, i) == Lines(o, x, r, n)
  {
    if n > 0 {
      StepsAreLines(o, x, r, n - 1, i - 4);
      assert Steps(o, x, r, i) == Lines(o, x, r, n) by {
        var r0 := Lines(o, x, r, n - 1);
        LineOfSteps(o, x, r, r0, n - 1, i - 4);
        LinesMore(o, x, r, n - 1, n);
      }
    }
  }

  /** The loop computes the standard's transformation of a block. */
  lemma CycleIsRfc<W>(o: Ops<W>, h: Regs<W>, x: seq<W>)
    requires |x| == 16
    ensures Cycled(o, h, x) == RfcBlock(o, h, x)
  {
    StepsAreLines(o, x, h, 16, 64);
  }

  /// The auxiliary functions on real words

  function F(x: Word, y: Word, z: Word): Word {
    (x & y) | (!x & z)
  }

  function G(x: Word, y: Word, z: Word): Word {
    (x & z) | (y & !z)
  }

  function H(x: Word, y: Word, z: Word): Word {
    x ^ y ^ z
  }

  function I(x: Word, y: Word, z: Word): Word {
    y ^ (x | !z)
  }

  /** What the loop computes from b, c and d at step `i`. */
  function Mix(i: nat, b: Word, c: Word, d: Word): Word {
    if i < 16 then (b & c) | (!b & d)
    else if i < 32 then (d & b) | (!d & c)
    else if i < 48 then b ^ c ^ d
    else c ^ (b | !d)
  }

  /** The expressions of the loop are the functions of section 3.4, round by round. */
  lemma MixIsAuxiliary(i: nat, b: Word, c: Word, d: Word)
    ensures Mix(i, b, c, d) == if i < 16 then F(b, c, d) else if i < 32 then G(b, c, d) else if i < 48 then H(b, c, d) else I(b, c, d)
  {
  }

  function RotateLeft(w: Word, s: Word): Word {
    if s <= 32 then (w << s) | (w >> (32 - s)) else w
  }

  function LowFirst(b0: Octet, b1: Octet, b2: Octet, b3: Octet): Word {
    (b0 as Word) | ((b1 as Word) << 8) | ((b2 as Word) << 16) | ((b3 as Word) << 24)
  }

  function OctetOf(w: Word, j: nat): Octet {
    var b := if j == 0 then w & 0xff else if j == 1 then (w >> 8) & 0xff else if j == 2 then (w >> 16) & 0xff else (w >> 24) & 0xff;
    LowByte(b);
    b as nat
  }

  lemma LowByte(b: Word)
    ensures b & 0xff == b ==> b as nat < 256
  {
    if b & 0xff == b {
      ByteMask(b);
      ByteBound(b & 0xff);
    }
  }

  function Plus(a: Word, b: Word): Word {
    a + b
  }

  function Sum(a: Word, b: Word, c: Word, d: Word): Word {
    a + b + c + d
  }

  /** The operations on 32-bit words, with a sine table. */
  function WordOps(sine: nat -> Word): Ops<Word> {
    Ops(Mix, Sum, Plus, RotateLeft, sine, LowFirst, OctetOf)
  }

  const INIT: Regs<Word> := Regs(0x67452301, 0xefcdab89, 0x98badcfe, 0x10325476)

  /// The message: bytes of the characters

  /** A UTF-16 code unit. */
  type Unit = c: nat | c < 0x1_0000

  /** The bytes of one `charCodeAt`. */
  function UnitBytes(c: Unit): seq<Octet> {
    if c < 128 then [c]
    else if c < 2048 then [192 + c / 64, 128 + c % 64]
    else [224 + c / 4096, 128 + c / 64 % 64, 128 + c % 64]
  }

  function TextBytes(s: seq<Unit>): seq<Octet> {
    if s == [] then [] else TextBytes(s[..|s| - 1]) + UnitBytes(s[|s| - 1])
  }

  predicate IsSurrogate(c: Unit) {
    0xD800 <= c < 0xE000
  }

  predicate IsPair(s: seq<Unit>) {
    |s| > 1 && 0xD800 <= s[0] < 0xDC00 && 0xDC00 <= s[1] < 0xE000
  }

  /** The four bytes of a character beyond the basic plane, by section 3 of RFC 3629. */
  function PairBytes(hi: Unit, lo: Unit): seq<Octet>
    requires 0xD800 <= hi < 0xDC00 && 0xDC00 <= lo < 0xE000
  {
    var c := 0x1_0000 + (hi - 0xD800) * 0x400 + (lo - 0xDC00);
    [240 + c / 0x4_0000, 128 + c / 4096 % 64, 128 + c / 64 % 64, 128 + c % 64]
  }

  /** UTF-8 of a UTF-16 text; a lone surrogate becomes the replacement character. */
  function Utf8(s: seq<Unit>): seq<Octet> {
    if s == [] then []
    else if IsPair(s) then PairBytes(s[0], s[1]) + Utf8(s[2..])
    else (if IsSurrogate(s[0]) then [0xEF, 0xBF, 0xBD] else UnitBytes(s[0])) + Utf8(s[1..])
  }

  lemma {:induction false} TextFirst(s: seq<Unit>)
    requires s != []
    ensures TextBytes(s) == UnitBytes(s[0]) + TextBytes(s[1..])
  {
    if |s| == 1 {
      assert s[..0] == [] && s[1..] == [];
      assert [] + UnitBytes(s[0]) == UnitBytes(s[0]) + [];
    } else {
      var front, rest := s[..|s| - 1], s[1..];
      TextFirst(front);
      assert front[1..] == rest[..|rest| - 1];
      Regroup(UnitBytes(s[0]), TextBytes(front[1..]), UnitBytes(s[|s| - 1]));
      assert TextBytes(rest) == TextBytes(front[1..]) + UnitBytes(s[|s| - 1]);
    }
  }

  /** The text is hashed as its UTF-8 exactly when it has no surrogates, that is, no character beyond the basic plane. */
  lemma {:induction false} TextIsUtf8(s: seq<Unit>)
    ensures TextBytes(s) == Utf8(s) <==> forall i :: 0 <= i < |s| ==> !IsSurrogate(s[i])
  {
    if s != [] {
      TextFirst(s);
      if IsSurrogate(s[0]) {
        assert TextBytes(s)[0] == 237;
        SurrogateHead(s);
      } else {
        TextIsUtf8(s[1..]);
        SameHead(UnitBytes(s[0]), TextBytes(s[1..]), Utf8(s[1..]));
        assert forall i :: 0 < i < |s| ==> s[i] == s[1..][i - 1];
      }
    }
  }

  lemma SurrogateHead(s: seq<Unit>)
    requires s != [] && IsSurrogate(s[0])
    ensures Utf8(s) != [] && Utf8(s)[0] != 237
  {
  }

  /// Padding

  /** As many zeros as bring the length to 56 modulo 64. */
  function Filler(n: nat): nat {
    (56 - n) % 64
  }

  lemma FillerFills(n: nat)
    ensures (n + Filler(n)) % 64 == 56 && Filler(n) < 64
  {
  }

  /** The length word as the code writes it: four bytes and four zeros. */
  function LengthBytes(bits: nat): seq<Octet> {
    [bits % 256, bits / 0x100 % 256, bits / 0x1_0000 % 256, bits / 0x100_0000 % 256, 0, 0, 0, 0]
  }

  /** And as the standard has it: eight bytes, low-order first. */
  function RfcLength(bits: nat): seq<Octet> {
    [bits % 256, bits / 0x100 % 256, bits / 0x1_0000 % 256, bits / 0x100_0000 % 256,
     bits / 0x1_0000_0000 % 256, bits / 0x100_0000_0000 % 256, bits / 0x1_0000_0000_0000 % 256, bits / 0x100_0000_0000_0000 % 256]
  }

  function Padded(m: seq<Octet>): seq<Octet> {
    m + [0x80] + Repeat<Octet>(0, Filler(|m| + 1)) + LengthBytes(|m| * 8)
  }

  function RfcPadded(m: seq<Octet>): seq<Octet> {
    m + [0x80] + Repeat<Octet>(0, Filler(|m| + 1)) + RfcLength(|m| * 8)
  }

  /** The message of any array is padded as the standard says exactly while it is shorter than 2^29 bytes. */
  lemma PaddingIsRfc(m: seq<Octet>)
    requires |m| < 0x1_0000_0000
    ensures Padded(m) == RfcPadded(m) <==> |m| < 0x2000_0000
  {
    var bits := |m| * 8;
    SameHead(m + [0x80] + Repeat<Octet>(0, Filler(|m| + 1)), LengthBytes(bits), RfcLength(bits));
    assert bits < 0x8_0000_0000;
    HighBytes(bits);
  }

  lemma HighBytes(bits: nat)
    requires bits < 0x100_0000_0000
    ensures LengthBytes(bits) == RfcLength(bits) <==> bits < 0x1_0000_0000
  {
    var l, r := LengthBytes(bits), RfcLength(bits);
    assert l[4] == 0 && r[4] == bits / 0x1_0000_0000;
    assert r[5] == 0 && r[6] == 0 && r[7] == 0;
  }

  lemma PaddedLength(m: seq<Octet>)
    ensures |Padded(m)| % 64 == 0
  {
  }

  method AppendBytes(s: seq<Unit>) returns (bytes: seq<Octet>)
    ensures bytes == TextBytes(s)
  {
    bytes := [];
    for i := 0 to |s|
      invariant bytes == TextBytes(s[..i])
    {
      assert s[..i + 1][..i] == s[..i];
      var c := s[i];
      if c < 128 {
        bytes := bytes + [c];
      } else if c < 2048 {
        bytes := bytes + [192 + c / 64, 128 + c % 64];
      } else {
        bytes := bytes + [224 + c / 4096, 128 + c / 64 % 64, 128 + c % 64];
      }
    }
    assert s[..|s|] == s;
  }

  method PadMessage(m: seq<Octet>) returns (bytes: seq<Octet>)
    ensures bytes == Padded(m)
  {
    var start := m + [0x80];
    bytes := start;
    ghost var pushed := 0;
    FillerFills(|start|);
    assert start + Repeat<Octet>(0, 0) == start;
    while |bytes| % 64 != 56
      invariant pushed <= Filler(|start|) && bytes == start + Repeat<Octet>(0, pushed)
      decreases Filler(|start|) - pushed
    {
      NotFilled(|start|, pushed);
      assert start + Repeat<Octet>(0, pushed) + [0] == start + Repeat<Octet>(0, pushed + 1);
      bytes, pushed := bytes + [0], pushed + 1;
    }
    Filled(|start|, pushed);
    bytes := bytes + LengthBytes(|m| * 8);
  }

  lemma NotFilled(n: nat, pushed: nat)
    requires pushed <= Filler(n) && (n + pushed) % 64 != 56
    ensures pushed < Filler(n)
  {
    FillerFills(n);
  }

  lemma Filled(n: nat, pushed: nat)
    requires pushed <= Filler(n) && (n + pushed) % 64 == 56
    ensures pushed == Filler(n)
  {
    FillerFills(n);
    var q, q' := (n + pushed) / 64, (n + Filler(n)) / 64;
    assert Filler(n) - pushed == 64 * (q' - q);
  }

  /// The digest

  /** The sixteen words of a block of bytes. */
  function BlockWords<W>(o: Ops<W>, block: seq<Octet>, n: nat): (r: seq<W>)
    requires |block| == 64 && n <= 16
    ensures |r| == n
  {
    if n == 0 then []
    else
      var j := 4 * (n - 1);
      BlockWords(o, block, n - 1) + [o.word(block[j], block[j + 1], block[j + 2], block[j + 3])]
  }

  function Blocks<W>(o: Ops<W>, h: Regs<W>, bytes: seq<Octet>): Regs<W>
    decreases |bytes|
  {
    if |bytes| < 64 then h else Blocks(o, Cycled(o, h, BlockWords(o, bytes[..64], 16)), bytes[64..])
  }

  function RfcBlocks<W>(o: Ops<W>, h: Regs<W>, bytes: seq<Octet>): Regs<W>
    decreases |bytes|
  {
    if |bytes| < 64 then h else RfcBlocks(o, RfcBlock(o, h, BlockWords(o, bytes[..64], 16)), bytes[64..])
  }

  function WordHex<W>(o: Ops<W>, w: W): string {
    PaddedHex(o.octet(w, 0)) + PaddedHex(o.octet(w, 1)) + PaddedHex(o.octet(w, 2)) + PaddedHex(o.octet(w, 3))
  }

  /** The digest in hexadecimal, from A's low-order byte to D's high-order one. */
  function Hex<W>(o: Ops<W>, h: Regs<W>): string {
    WordHex(o, h.a) + WordHex(o, h.b) + WordHex(o, h.c) + WordHex(o, h.d)
  }

  function Md5Of<W>(o: Ops<W>, init: Regs<W>, s: seq<Unit>): string {
    Hex(o, Blocks(o, init, Padded(TextBytes(s))))
  }

  /** MD5 of a message of whole bytes, by sections 3.1 to 3.5 of the standard. */
  function RfcMd5<W>(o: Ops<W>, init: Regs<W>, m: seq<Octet>): string {
    Hex(o, RfcBlocks(o, init, RfcPadded(m)))
  }

  lemma {:induction false} BlocksAreRfc<W>(o: Ops<W>, h: Regs<W>, bytes: seq<Octet>)
    ensures Blocks(o, h, bytes) == RfcBlocks(o, h, bytes)
    decreases |bytes|
  {
    if |bytes| >= 64 {
      var x := BlockWords(o, bytes[..64], 16);
      CycleIsRfc(o, h, x);
      BlocksAreRfc(o, Cycled(o, h, x), bytes[64..]);
    }
  }

  /** The digest of a text without surrogates and shorter than 2^29 bytes is the standard's, of its UTF-8. */
  lemma Md5IsRfc<W>(o: Ops<W>, init: Regs<W>, s: seq<Unit>)
    requires (forall i :: 0 <= i < |s| ==> !IsSurrogate(s[i])) && |Utf8(s)| < 0x2000_0000
    ensures Md5Of(o, init, s) == RfcMd5(o, init, Utf8(s))
  {
    TextIsUtf8(s);
    PaddingIsRfc(Utf8(s));
    BlocksAreRfc(o, init, Padded(Utf8(s)));
  }

  /** And so it is on 32-bit words, from the standard's initial state. */
  lemma WordMd5IsRfc(sine: nat -> Word, s: seq<Unit>)
    requires (forall i :: 0 <= i < |s| ==> !IsSurrogate(s[i])) && |Utf8(s)| < 0x2000_0000
    ensures Md5Of(WordOps(sine), INIT, s) == RfcMd5(WordOps(sine), INIT, Utf8(s))
  {
    Md5IsRfc(WordOps(sine), INIT, s);
  }

  method BlockInts<W>(o: Ops<W>, bytes: seq<Octet>, i: nat) returns (w: seq<W>)
    requires i + 64 <= |bytes|
    ensures w == BlockWords(o, bytes[i..i + 64], 16)
  {
    w := [];
    for j := 0 to 16
      invariant w == BlockWords(o, bytes[i..i + 64], j)
    {
      w := w + [o.word(bytes[i + 4 * j], bytes[i + 4 * j + 1], bytes[i + 4 * j + 2], bytes[i + 4 * j + 3])];
    }
  }

  method DigestBlocks<W>(o: Ops<W>, h: array<W>, bytes: seq<Octet>)
    requires h.Length == 4 && |bytes| % 64 == 0
    modifies h
    ensures RegsOf(h[..]) == Blocks(o, RegsOf(old(h[..])), bytes)
  {
    ghost var init := RegsOf(h[..]);
    ghost var left := |bytes| / 64;
    var i := 0;
    assert bytes[0..] == bytes;
    while i < |bytes|
      invariant 0 <= left && i + 64 * left == |bytes|
      invariant Blocks(o, init, bytes) == Blocks(o, RegsOf(h[..]), bytes[i..])
    {
      var w := BlockInts(o, bytes, i);
      assert bytes[i..][..64] == bytes[i..i + 64] && bytes[i..][64..] == bytes[i + 64..];
      Md5Cycle(o, h, w);
      i, left := i + 64, left - 1;
    }
  }

  /** `md5`: `h` is the state array. */
  method Digest<W>(o: Ops<W>, h: array<W>, s: seq<Unit>) returns (hex: string)
    requires h.Length == 4
    modifies h
    ensures hex == Md5Of(o, RegsOf(old(h[..])), s)
  {
    var bytes := AppendBytes(s);
    bytes := PadMessage(bytes);
    PaddedLength(TextBytes(s));
    DigestBlocks(o, h, bytes);
    hex := WordHex(o, h[0]) + WordHex(o, h[1]) + WordHex(o, h[2]) + WordHex(o, h[3]);
  }
}
