/**
 SM4 in CBC mode (section 6.2 of NIST SP 800-38A) with PKCS#7 padding (section 6.3 of
 RFC 5652), as public/lib.js composes them. The substitution box is a parameter: every theorem
 holds for any table. Text encoding is outside the model: plaintexts are byte strings.
 */
module Sm4 {
  import opened Wrappers
  import opened Codec
  import opened Feistel
  import opened Cbc

  type SBox = Word -> Byte

  /// Round functions

  function Rotl(x: Word, n: Word): Word
    requires 0 < n < 32
  {
    (x << n) | (x >> (32 - n))
  }

  function Tau(s: SBox, x: Word): Word {
    PackWord(s((x >> 24) & 0xff), s((x >> 16) & 0xff), s((x >> 8) & 0xff), s(x & 0xff))
  }

  function L(b: Word): Word {
    b ^ Rotl(b, 2) ^ Rotl(b, 10) ^ Rotl(b, 18) ^ Rotl(b, 24)
  }

  function Lp(b: Word): Word {
    b ^ Rotl(b, 13) ^ Rotl(b, 23)
  }

  function T(s: SBox, a: Word): Word {
    L(Tau(s, a))
  }

  function Tp(s: SBox, a: Word): Word {
    Lp(Tau(s, a))
  }

  function Mixed(a: Word, b: Word, c: Word, k: Word): Word {
    a ^ b ^ c ^ k
  }

  /** The network of a round function: `f` of the four mixed words, and exclusive or. */
  function XorOps(f: Word -> Word): Ops<Word> {
    Ops((a, b, c, k) => f(Mixed(a, b, c, k)), (a, t) => a ^ t)
  }

  function CipherOps(s: SBox): Ops<Word> {
    XorOps(x => T(s, x))
  }

  function KeyOps(s: SBox): Ops<Word> {
    XorOps(x => Tp(s, x))
  }

  lemma XorCancel(a: Word, t: Word)
    ensures (a ^ t) ^ t == a
  {
  }

  lemma MixReversed(a: Word, b: Word, c: Word, k: Word)
    ensures Mixed(a, b, c, k) == Mixed(c, b, a, k)
  {
  }

  lemma XorOpsLawful(f: Word -> Word)
    ensures Lawful(XorOps(f))
  {
    var o := XorOps(f);
    forall a, b, c, k
      ensures o.mix(a, b, c, k) == o.mix(c, b, a, k)
    {
      MixReversed(a, b, c, k);
    }
    forall a, t
      ensures o.add(o.add(a, t), t) == a
    {
      XorCancel(a, t);
    }
  }

  /// Key schedule

  const FK: Quad<Word> := Quad(0xa3b1bac6, 0x56aa3350, 0x677d9197, 0xb27022dc)

  const CK: seq<Word> := [
    0x00070e15, 0x1c232a31, 0x383f464d, 0x545b6269, 0x70777e85, 0x8c939aa1, 0xa8afb6bd, 0xc4cbd2d9,
    0xe0e7eef5, 0xfc030a11, 0x181f262d, 0x343b4249, 0x50575e65, 0x6c737a81, 0x888f969d, 0xa4abb2b9,
    0xc0c7ced5, 0xdce3eaf1, 0xf8ff060d, 0x141b2229, 0x30373e45, 0x4c535a61, 0x686f767d, 0x848b9299,
    0xa0a7aeb5, 0xbcc3cad1, 0xd8dfe6ed, 0xf4fb0209, 0x10171e25, 0x2c333a41, 0x484f565d, 0x646b7279
  ]

  function KeyWord(keyHex: string, i: nat): Word {
    ToWord(ParseInt16(Substr(keyHex, i * 8, 8)))
  }

  function MasterKey(keyHex: string): Quad<Word> {
    Quad(KeyWord(keyHex, 0), KeyWord(keyHex, 1), KeyWord(keyHex, 2), KeyWord(keyHex, 3))
  }

  lemma AddQuadCancel(o: Ops<Word>, a: Quad<Word>, b: Quad<Word>)
    requires Lawful(o)
    ensures AddQuad(o, AddQuad(o, a, b), b) == a
  {
  }

  function RoundKeys(s: SBox, mk: Quad<Word>): (rk: seq<Word>)
    ensures |rk| == 32
  {
    var o := KeyOps(s);
    KeySchedule(o, AddQuad(o, mk, FK), CK)
  }

  method ExpandKey(o: Ops<Word>, fk: Quad<Word>, ck: seq<Word>, keyHex: string) returns (rk: array<Word>)
    requires |ck| == 32
    ensures fresh(rk) && rk[..] == KeySchedule(o, AddQuad(o, MasterKey(keyHex), fk), ck)
  {
    var mk := new Word[4](_ => 0);
    for i := 0 to 4
      invariant forall j :: 0 <= j < i ==> mk[j] == KeyWord(keyHex, j)
    {
      mk[i] := ToWord(ParseInt16(Substr(keyHex, i * 8, 8)));
    }
    var k := new Word[36](_ => 0);
    rk := new Word[32](_ => 0);
    var start := AddQuad(o, Quad(mk[0], mk[1], mk[2], mk[3]), fk);
    k[0], k[1], k[2], k[3] := start.w0, start.w1, start.w2, start.w3;
    FillSchedule(o, k, rk, ck);
  }

  /** Different master keys have different round keys, already in the last four. */
  lemma RoundKeysInjective(s: SBox, mk: Quad<Word>, mk': Quad<Word>)
    requires RoundKeys(s, mk)[28..] == RoundKeys(s, mk')[28..]
    ensures mk == mk'
  {
    XorOpsLawful(x => Tp(s, x));
    var o := KeyOps(s);
    ScheduleInjective(o, AddQuad(o, mk, FK), AddQuad(o, mk', FK), CK);
    AddQuadCancel(o, mk, FK);
    AddQuadCancel(o, mk', FK);
  }

  /// Padding

  datatype CipherError = NotWholeBlocks | BadPadding

  function PadLength(n: nat): (k: nat)
    ensures 1 <= k <= 16 && (n + k) % 16 == 0
  {
    16 - n % 16
  }

  function PadByte(n: nat): (b: Byte)
    requires 1 <= n <= 16
    ensures b as int == n
  {
    n as bv32
  }

  function Pad(d: seq<Byte>): (r: seq<Byte>)
    ensures |r| % 16 == 0 && |r| > |d|
  {
    var n := PadLength(|d|);
    d + Repeat(PadByte(n), n)
  }

  /** `d.slice(0, end)`: an end that is negative counts from the back. */
  function SliceTo(d: seq<Word>, end: int): seq<Word> {
    if end >= |d| then d
    else if end >= 0 then d[..end]
    else if |d| + end >= 0 then d[..|d| + end]
    else []
  }

  /** Only the last byte is looked at; the unpadding of the empty array is the empty array. */
  function Unpad(d: seq<Word>): Result<seq<Word>, CipherError> {
    if d == [] then Ok([])
    else
      var n := d[|d| - 1] as int;
      if n < 1 || n > 16 then Err(BadPadding) else Ok(SliceTo(d, |d| - n))
  }

  method Pkcs7Pad(d: seq<Byte>) returns (r: seq<Byte>)
    ensures r == Pad(d)
  {
    var n := 16 - |d| % 16;
    r := d;
    for i := 0 to n
      invariant r == d + Repeat(PadByte(n), i)
    {
      r := r + [PadByte(n)];
    }
  }

  lemma UnpadPad(d: seq<Byte>)
    ensures Unpad(Pad(d)) == Ok(d)
  {
    var r, n := Pad(d), PadLength(|d|);
    assert r[|r| - 1] == PadByte(n);
    assert r[..|d|] == d;
  }

  /** The bytes that padding writes are all there: the check that the code does not make. */
  predicate CanonicallyPadded(d: seq<Word>) {
    && d != []
    && var n := d[|d| - 1] as int;
       1 <= n <= 16 && n <= |d| && forall i :: |d| - n <= i < |d| ==> d[i] == d[|d| - 1]
  }

  /** Unpadding a whole number of blocks is undone by padding exactly on canonical padding. */
  lemma PadUnpad(d: seq<Byte>)
    requires |d| % 16 == 0
    ensures (exists p :: Unpad(d) == Ok(p) && Pad(p) == d) <==> CanonicallyPadded(d)
    ensures Unpad(d) == Err(BadPadding) <==> d != [] && !(1 <= d[|d| - 1] <= 16)
  {
    if CanonicallyPadded(d) {
      var last := d[|d| - 1];
      PadOfCanonical(d, last, last as int);
    }
    forall p: seq<Byte> | Pad(p) == d
      ensures CanonicallyPadded(d)
    {
      PaddedIsCanonical(p, PadLength(|p|));
    }
  }

  /** Fifteen zeros and a 2 are accepted for fourteen zeros, which are padded otherwise. */
  lemma AcceptedNotCanonical()
    ensures var d, p := Repeat<Byte>(0, 15) + [2], Repeat<Byte>(0, 14);
            Unpad(d) == Ok(p) && Pad(p) != d && !CanonicallyPadded(d)
  {
    var d, p := Repeat<Byte>(0, 15) + [2], Repeat<Byte>(0, 14);
    assert (2 as Byte) as int == 2;
    assert d[..14] == p;
    assert PadLength(14) == 2 && Pad(p)[14] == PadByte(2);
    assert d[14] == 0;
  }

  lemma PaddedIsCanonical(p: seq<Byte>, n: nat)
    requires n == PadLength(|p|)
    ensures CanonicallyPadded(Pad(p))
  {
    var d := Pad(p);
    assert d[|d| - 1] == PadByte(n);
  }

  lemma PadOfCanonical(d: seq<Byte>, last: Byte, n: nat)
    requires |d| % 16 == 0 && 1 <= n <= 16 && n <= |d| && last as int == n
    requires forall i :: |d| - n <= i < |d| ==> d[i] == last
    ensures Unpad(d) == Ok(d[..|d| - n]) && Pad(d[..|d| - n]) == d
  {
    var p := d[..|d| - n];
    assert PadLength(|p|) == n;
    PadByteOf(last, n);
    assert Repeat(last, n) == d[|d| - n..];
    assert d == p + d[|d| - n..];
  }

  lemma PadByteOf(b: Byte, n: nat)
    requires 1 <= n <= 16 && b as int == n
    ensures PadByte(n) == b
  {
    assert (b as int) as bv32 == b;
  }

  /// The scheme: the network, chaining and the byte codec together

  function CipherScheme(s: SBox): Scheme<Word, Word> {
    Scheme(CipherOps(s), b => BytesToWords(b), w => WordsToBytes(w), 0)
  }

  lemma CipherSchemeLawful(s: SBox)
    ensures LawfulScheme(CipherScheme(s))
  {
    XorOpsLawful(x => T(s, x));
    forall b: seq<Word> | |b| == 16
      ensures |BytesToWords(b)| == 4
    {
      BytesToWordsLength(b);
    }
    forall w: seq<Word> | |w| == 4
      ensures BytesToWords(WordsToBytes(w)) == w
    {
      WordRoundTrip(w);
    }
    forall u, v
      ensures WordsToBytes(u + v) == WordsToBytes(u) + WordsToBytes(v)
    {
      WordsToBytesAppend(u, v);
    }
  }

  lemma {:induction false} BytesPackable(s: SBox, p: seq<Byte>)
    ensures Packable(CipherScheme(s), p)
    decreases |p|
  {
    if |p| >= 16 {
      ByteRoundTrip(p[..16]);
      BytesPackable(s, p[16..]);
    }
  }

  lemma DecryptedBytes(s: SBox, rk: seq<Word>, prev: seq<Word>, c: seq<Word>)
    ensures forall i :: 0 <= i < |Decrypted(CipherScheme(s), rk, prev, c)| ==> Decrypted(CipherScheme(s), rk, prev, c)[i] <= 255
    decreases |c|
  {
  }

  /// The two entry points

  function EncryptHex(s: SBox, plain: seq<Byte>, keyHex: string, ivHex: string): string {
    var c := Encrypted(CipherScheme(s), RoundKeys(s, MasterKey(keyHex)), BytesToWords(HexToBytes(ivHex)), Pad(plain));
    BytesToHex(WordsToBytes(c))
  }

  function DecryptHex(s: SBox, cipherHex: string, keyHex: string, ivHex: string): Result<seq<Word>, CipherError> {
    var cb := HexToBytes(cipherHex);
    if |cb| % 16 != 0 then Err(NotWholeBlocks)
    else
      Unpad(Decrypted(CipherScheme(s), RoundKeys(s, MasterKey(keyHex)), BytesToWords(HexToBytes(ivHex)), cb))
  }

  method Sm4CbcEncryptHex(s: SBox, plain: seq<Byte>, keyHex: string, ivHex: string) returns (hex: string)
    ensures hex == EncryptHex(s, plain, keyHex, ivHex)
  {
    var ivB := Hex2Bytes(ivHex);
    var padded := Pkcs7Pad(plain);
    var rk := ExpandKey(KeyOps(s), FK, CK, keyHex);
    var prev := Bytes2Words(ivB);
    var out := EncryptBlocks(CipherScheme(s), rk[..], prev, padded);
    var bytes := Words2Bytes(out);
    hex := Bytes2Hex(bytes);
  }

  method Sm4CbcDecryptHex(s: SBox, cipherHex: string, keyHex: string, ivHex: string)
    returns (r: Result<seq<Word>, CipherError>)
    ensures r == DecryptHex(s, cipherHex, keyHex, ivHex)
  {
    var cb := Hex2Bytes(cipherHex);
    if |cb| % 16 != 0 {
      return Err(NotWholeBlocks);
    }
    var rk := ExpandKey(KeyOps(s), FK, CK, keyHex);
    var ivB := Hex2Bytes(ivHex);
    var prev := Bytes2Words(ivB);
    var out := DecryptBlocks(CipherScheme(s), rk[..], prev, cb);
    r := Unpad(out);
  }

  /**
   Decryption of an encryption returns the plaintext bytes: for every byte string, every
   substitution box, and every key and initialization-vector string, malformed ones included.
   */
  lemma CipherRoundTrip(s: SBox, plain: seq<Byte>, keyHex: string, ivHex: string)
    ensures DecryptHex(s, EncryptHex(s, plain, keyHex, ivHex), keyHex, ivHex) == Ok(plain)
  {
    CipherSchemeLawful(s);
    BytesPackable(s, Pad(plain));
    UnpadPad(plain);
    SchemeRoundTrip(CipherScheme(s), RoundKeys(s, MasterKey(keyHex)), BytesToWords(HexToBytes(ivHex)), Pad(plain));
  }

  lemma SchemeRoundTrip(c: Scheme<Word, Word>, rk: seq<Word>, iv: seq<Word>, padded: seq<Byte>)
    requires LawfulScheme(c) && |padded| % 16 == 0 && Packable(c, padded)
    requires forall w :: c.unpack(w) == WordsToBytes(w)
    ensures var cb := HexToBytes(BytesToHex(WordsToBytes(Encrypted(c, rk, iv, padded))));
            |cb| == |padded| && Decrypted(c, rk, iv, cb) == padded
  {
    var words := Encrypted(c, rk, iv, padded);
    CbcRoundTrip(c, rk, iv, padded);
    HexRoundTrip(WordsToBytes(words));
    assert c.unpack(words) == WordsToBytes(words);
  }

  /** The ciphertext is two digits for each byte of the next whole block after the plaintext. */
  lemma CiphertextLength(s: SBox, plain: seq<Byte>, keyHex: string, ivHex: string)
    ensures |EncryptHex(s, plain, keyHex, ivHex)| == 32 * (|plain| / 16 + 1)
  {
    var rk, iv := RoundKeys(s, MasterKey(keyHex)), BytesToWords(HexToBytes(ivHex));
    EncryptedLength(CipherScheme(s), rk, iv, Pad(plain));
    BytesToHexLength(WordsToBytes(Encrypted(CipherScheme(s), rk, iv, Pad(plain))));
  }

  function Recovered(s: SBox, c: seq<Word>, keyHex: string, ivHex: string): seq<Word> {
    Decrypted(CipherScheme(s), RoundKeys(s, MasterKey(keyHex)), BytesToWords(HexToBytes(ivHex)), c)
  }

  /**
   Re-encrypting an accepted ciphertext gives it back exactly when the padding it decrypts to
   is canonical, because only the last padding byte is checked.
   */
  lemma ReencryptionRoundTrip(s: SBox, c: seq<Byte>, keyHex: string, ivHex: string)
    requires |c| % 16 == 0
    ensures (exists p: seq<Byte> :: DecryptHex(s, BytesToHex(c), keyHex, ivHex) == Ok(p)
                                    && EncryptHex(s, p, keyHex, ivHex) == BytesToHex(c))
            <==> CanonicallyPadded(Recovered(s, c, keyHex, ivHex))
  {
    var d := Recovered(s, c, keyHex, ivHex);
    HexRoundTrip(c);
    DecryptedBytes(s, RoundKeys(s, MasterKey(keyHex)), BytesToWords(HexToBytes(ivHex)), c);
    CipherSchemeLawful(s);
    DecryptedLength(CipherScheme(s), RoundKeys(s, MasterKey(keyHex)), BytesToWords(HexToBytes(ivHex)), c);
    PadUnpad(d);
    forall p: seq<Byte>
      ensures EncryptHex(s, p, keyHex, ivHex) == BytesToHex(c) <==> Pad(p) == d
    {
      assert EncryptHex(s, p, keyHex, ivHex) == BytesToHex(c) <==> Pad(p) == Recovered(s, c, keyHex, ivHex) by {
        var sc, rk, iv := CipherScheme(s), RoundKeys(s, MasterKey(keyHex)), BytesToWords(HexToBytes(ivHex));
        CipherSchemeLawful(s);
        BytesPackable(s, c);
        BytesPackable(s, Pad(p));
        HexRoundTrip(c);
        CbcRoundTripBack(sc, rk, iv, c);
        SchemeRoundTrip(sc, rk, iv, Pad(p));
      }
    }
  }
}
