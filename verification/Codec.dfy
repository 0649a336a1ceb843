/**
 The number and byte codecs of the browser cipher (public/lib.js).

 A JavaScript number that is only ever an operand of a bitwise operator is modelled by its
 ToInt32 image, a 32-bit word: NaN and `undefined` count as zero, and negative or large values
 wrap. Byte arrays are sequences of such words; `Byte` marks those in 0..255.
 */
module Codec {
  import opened Wrappers

  type Word = bv32

  type Byte = b: Word | b <= 255

  /// Numbers

  /** Reduction modulo 2^32, the numeric part of ToInt32 and ToUint32. */
  function Mod32(v: int): (r: int)
    ensures 0 <= r < 0x1_0000_0000
    ensures 0 <= v < 0x1_0000_0000 ==> r == v
  {
    v % 0x1_0000_0000
  }

  function ToWord(v: Option<int>): Word {
    match v
    case None => 0
    case Some(n) => Mod32(n) as Word
  }

  /** The white space that `parseInt` skips. */
  predicate IsJsSpace(c: char) {
    || '\U{0009}' <= c <= '\U{000d}'
    || c == '\U{0020}' || c == '\U{00a0}' || c == '\U{1680}'
    || '\U{2000}' <= c <= '\U{200a}'
    || c == '\U{2028}' || c == '\U{2029}' || c == '\U{202f}' || c == '\U{205f}' || c == '\U{3000}' || c == '\U{feff}'
  }

  function HexValue(c: char): Option<nat> {
    if '0' <= c <= '9' then Some(c as int - '0' as int)
    else if 'a' <= c <= 'f' then Some(c as int - 'a' as int + 10)
    else if 'A' <= c <= 'F' then Some(c as int - 'A' as int + 10)
    else None
  }

  function SkipSpace(s: string): string {
    if s != "" && IsJsSpace(s[0]) then SkipSpace(s[1..]) else s
  }

  /** The value of the longest run of hexadecimal digits at the head of `s`, after `acc`. */
  function ParseDigits(s: string, acc: nat): nat
    decreases |s|
  {
    if s == "" || HexValue(s[0]).None? then acc
    else ParseDigits(s[1..], acc * 16 + HexValue(s[0]).value)
  }

  function ParseUnsigned(s: string): Option<int> {
    var body := if |s| >= 2 && s[0] == '0' && (s[1] == 'x' || s[1] == 'X') then s[2..] else s;
    if body == "" || HexValue(body[0]).None? then None else Some(ParseDigits(body, 0))
  }

  /** `parseInt(s, 16)`; `None` is NaN. */
  function ParseInt16(s: string): Option<int> {
    var t := SkipSpace(s);
    if t != "" && t[0] == '-' then
      match ParseUnsigned(t[1..])
      case None => None
      case Some(n) => Some(-n)
    else if t != "" && t[0] == '+' then ParseUnsigned(t[1..])
    else ParseUnsigned(t)
  }

  /** `s.substr(i, n)` for a start that is not negative. */
  function Substr(s: string, i: nat, n: nat): string {
    if i >= |s| then "" else if i + n >= |s| then s[i..] else s[i..i + n]
  }

  const HEX_DIGITS := "0123456789abcdef"

  /** `n.toString(16)`. */
  function ToString16(n: nat): string {
    if n < 16 then [HEX_DIGITS[n]] else ToString16(n / 16) + [HEX_DIGITS[n % 16]]
  }

  /** `n.toString(16).padStart(2, '0')`. */
  function PaddedHex(n: nat): string {
    var digits := ToString16(n);
    if |digits| < 2 then "0" + digits else digits
  }

  /** `((b & 0xff) >>> 0).toString(16).padStart(2, '0')`. */
  function ByteToHex(b: Word): string {
    PaddedHex((b & 0xff) as int)
  }

  lemma HexPair(n: nat)
    requires n < 256
    ensures PaddedHex(n) == [HEX_DIGITS[n / 16], HEX_DIGITS[n % 16]]
    ensures ParseInt16(PaddedHex(n)) == Some(n)
  {
    var hi, lo := HEX_DIGITS[n / 16], HEX_DIGITS[n % 16];
    var h := PaddedHex(n);
    assert h == [hi, lo] by {
      if n >= 16 {
        assert ToString16(n / 16) == [hi];
      }
    }
    HexDigitValue(n / 16);
    HexDigitValue(n % 16);
    assert h[1..] == [lo] && [lo][1..] == "";
    assert ParseDigits("", n) == n;
    assert ParseDigits([lo], n / 16) == n;
    assert ParseDigits(h, 0) == ParseDigits(h[1..], n / 16);
  }

  lemma ByteHexRoundTrip(b: Word)
    ensures |ByteToHex(b)| == 2
    ensures ToWord(ParseInt16(ByteToHex(b))) == b & 0xff
  {
    ByteMask(b);
    ByteBound(b & 0xff);
    HexPair((b & 0xff) as int);
    WordOfInt(b & 0xff);
  }

  lemma ByteBound(b: Word)
    requires b <= 255
    ensures b as int < 256
  {
  }

  lemma WordOfInt(w: Word)
    ensures ToWord(Some(w as int)) == w
  {
    assert Mod32(w as int) == w as int;
  }

  lemma HexDigitValue(v: nat)
    requires v < 16
    ensures HexValue(HEX_DIGITS[v]) == Some(v)
    ensures !IsJsSpace(HEX_DIGITS[v]) && HEX_DIGITS[v] !in "+-xX"
  {
  }

  /// Hexadecimal strings and byte arrays

  function BytesToHex(b: seq<Word>): string {
    if b == [] then "" else ByteToHex(b[0]) + BytesToHex(b[1..])
  }

  function HexToBytes(h: string): seq<Word>
    decreases |h|
  {
    if h == "" then []
    else [ToWord(ParseInt16(Substr(h, 0, 2)))] + HexToBytes(Substr(h, 2, |h|))
  }

  lemma BytesToHexLength(b: seq<Word>)
    ensures |BytesToHex(b)| == 2 * |b|
  {
    if b != [] {
      ByteHexRoundTrip(b[0]);
    }
  }

  /** `hex2bytes` undoes `bytes2hex` on every byte array. */
  lemma {:induction false} HexRoundTrip(b: seq<Byte>)
    ensures HexToBytes(BytesToHex(b)) == b
  {
    if b != [] {
      HexRoundTrip(b[1..]);
      ByteHexRoundTrip(b[0]);
      var h := BytesToHex(b);
      assert Substr(h, 0, 2) == ByteToHex(b[0]);
      assert Substr(h, 2, |h|) == BytesToHex(b[1..]);
      ByteMask(b[0]);
    }
  }

  lemma ByteMask(b: Word)
    ensures b & 0xff <= 255
    ensures b <= 255 ==> b & 0xff == b
  {
  }

  method Hex2Bytes(h: string) returns (b: seq<Word>)
    ensures b == HexToBytes(h)
  {
    b := [];
    var i := 0;
    while i < |h|
      invariant 0 <= i
      invariant b + HexToBytes(Substr(h, i, |h|)) == HexToBytes(h)
      decreases |h| - i
    {
      var rest := Substr(h, i, |h|);
      assert rest == h[i..];
      assert Substr(rest, 0, 2) == Substr(h, i, 2);
      assert Substr(rest, 2, |rest|) == Substr(h, i + 2, |h|);
      b := b + [ToWord(ParseInt16(Substr(h, i, 2)))];
      i := i + 2;
    }
  }

  method Bytes2Hex(b: seq<Word>) returns (h: string)
    ensures h == BytesToHex(b)
  {
    h := "";
    for i := 0 to |b|
      invariant h + BytesToHex(b[i..]) == BytesToHex(b)
    {
      h := h + ByteToHex(b[i]);
      assert b[i..][1..] == b[i + 1..];
    }
  }

  /// Words and byte arrays

  /** `b[i]` as a bitwise operand: out of range is `undefined`, which counts as zero. */
  function At(b: seq<Word>, i: nat): Word {
    if i < |b| then b[i] else 0
  }

  function PackWord(b0: Word, b1: Word, b2: Word, b3: Word): Word {
    (b0 << 24) | (b1 << 16) | (b2 << 8) | b3
  }

  function UnpackWord(w: Word): (b: seq<Byte>)
    ensures |b| == 4
  {
    [(w >> 24) & 0xff, (w >> 16) & 0xff, (w >> 8) & 0xff, w & 0xff]
  }

  lemma UnpackPack(b0: Byte, b1: Byte, b2: Byte, b3: Byte)
    ensures UnpackWord(PackWord(b0, b1, b2, b3)) == [b0, b1, b2, b3]
  {
    PackedBytes(b0, b1, b2, b3);
  }

  lemma PackedBytes(b0: Word, b1: Word, b2: Word, b3: Word)
    requires b0 <= 255 && b1 <= 255 && b2 <= 255 && b3 <= 255
    ensures var w := PackWord(b0, b1, b2, b3);
            && (w >> 24) & 0xff == b0
            && (w >> 16) & 0xff == b1
            && (w >> 8) & 0xff == b2
            && w & 0xff == b3
  {
  }

  lemma PackUnpack(w: Word)
    ensures var b := UnpackWord(w); PackWord(b[0], b[1], b[2], b[3]) == w
  {
  }

  function GroupAt(b: seq<Word>, i: nat): Word {
    PackWord(At(b, i), At(b, i + 1), At(b, i + 2), At(b, i + 3))
  }

  function Drop(b: seq<Word>, i: nat): seq<Word> {
    if i < |b| then b[i..] else []
  }

  function BytesToWords(b: seq<Word>): seq<Word>
    decreases |b|
  {
    if b == [] then [] else [GroupAt(b, 0)] + BytesToWords(Drop(b, 4))
  }

  lemma BytesToWordsFrom(b: seq<Word>, i: nat)
    requires i < |b|
    ensures BytesToWords(Drop(b, i)) == [GroupAt(b, i)] + BytesToWords(Drop(b, i + 4))
  {
    var rest := Drop(b, i);
    assert At(rest, 0) == At(b, i) && At(rest, 1) == At(b, i + 1);
    assert At(rest, 2) == At(b, i + 2) && At(rest, 3) == At(b, i + 3);
    assert Drop(rest, 4) == Drop(b, i + 4);
  }

  function WordsToBytes(w: seq<Word>): (b: seq<Byte>)
    ensures |b| == 4 * |w|
  {
    if w == [] then [] else UnpackWord(w[0]) + WordsToBytes(w[1..])
  }

  /** Unpacking words into bytes and packing them again is the identity. */
  lemma {:induction false} WordRoundTrip(w: seq<Word>)
    ensures BytesToWords(WordsToBytes(w)) == w
  {
    if w != [] {
      var b := WordsToBytes(w);
      PackUnpack(w[0]);
      assert b[..4] == UnpackWord(w[0]);
      assert Drop(b, 4) == WordsToBytes(w[1..]);
      WordRoundTrip(w[1..]);
    }
  }

  /** Packing whole groups of four bytes and unpacking them again is the identity. */
  lemma {:induction false} ByteRoundTrip(b: seq<Byte>)
    requires |b| % 4 == 0
    ensures WordsToBytes(BytesToWords(b)) == b
  {
    if b != [] {
      assert Drop(b, 4) == b[4..];
      ByteRoundTrip(b[4..]);
      UnpackPack(b[0], b[1], b[2], b[3]);
      assert b == [b[0], b[1], b[2], b[3]] + b[4..];
    }
  }

  lemma {:induction false} WordsToBytesAppend(u: seq<Word>, v: seq<Word>)
    ensures WordsToBytes(u + v) == WordsToBytes(u) + WordsToBytes(v)
  {
    if u == [] {
      assert u + v == v;
    } else {
      assert (u + v)[1..] == u[1..] + v;
      WordsToBytesAppend(u[1..], v);
    }
  }

  lemma BytesToWordsLength(b: seq<Word>)
    requires |b| % 4 == 0
    ensures 4 * |BytesToWords(b)| == |b|
  {
  }

  method Bytes2Words(b: seq<Word>) returns (w: seq<Word>)
    ensures w == BytesToWords(b)
  {
    hide GroupAt;
    w := [];
    var i := 0;
    while i < |b|
      invariant 0 <= i
      invariant w + BytesToWords(Drop(b, i)) == BytesToWords(b)
    {
      BytesToWordsFrom(b, i);
      w := w + [GroupAt(b, i)];
      i := i + 4;
    }
  }

  method Words2Bytes(w: seq<Word>) returns (b: seq<Byte>)
    ensures b == WordsToBytes(w)
  {
    b := [];
    for i := 0 to |w|
      invariant b == WordsToBytes(w[..i])
    {
      WordsToBytesAppend(w[..i], [w[i]]);
      assert w[..i + 1] == w[..i] + [w[i]];
      assert WordsToBytes([w[i]]) == UnpackWord(w[i]);
      b := b + UnpackWord(w[i]);
    }
    assert w[..|w|] == w;
  }
}
