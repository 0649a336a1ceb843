/**
 Cipher block chaining (section 6.2 of NIST SP 800-38A) with the SM4 network, over any byte type
 `B` and word type `W`: the packing of sixteen bytes into four words enters by its laws only.
 */
module Cbc {
  import opened Feistel

  datatype Scheme<!B, !W> = Scheme(o: Ops<W>, pack: seq<B> -> seq<W>, unpack: seq<W> -> seq<B>, zero: W)

  ghost predicate LawfulScheme<B(!new), W(!new)>(s: Scheme<B, W>) {
    && Lawful(s.o)
    && (forall b :: |b| == 16 ==> |s.pack(b)| == 4)
    && (forall w :: |s.unpack(w)| == 4 * |w|)
    && (forall w :: |w| == 4 ==> s.pack(s.unpack(w)) == w)
    && (forall u, v :: s.unpack(u + v) == s.unpack(u) + s.unpack(v))
  }

  /** Every block of `p` survives packing: what bytes do, and wider numbers do not. */
  ghost predicate Packable<B, W>(s: Scheme<B, W>, p: seq<B>)
    decreases |p|
  {
    |p| >= 16 ==> s.unpack(s.pack(p[..16])) == p[..16] && Packable(s, p[16..])
  }

  /** Exclusive or, word by word. */
  function AddQuad<W>(o: Ops<W>, a: Quad<W>, b: Quad<W>): Quad<W> {
    Quad(o.add(a.w0, b.w0), o.add(a.w1, b.w1), o.add(a.w2, b.w2), o.add(a.w3, b.w3))
  }

  /** The first four words; a missing one is `undefined`, a zero operand. */
  function QuadAt<W>(w: seq<W>, zero: W): Quad<W> {
    Quad(if |w| > 0 then w[0] else zero, if |w| > 1 then w[1] else zero,
         if |w| > 2 then w[2] else zero, if |w| > 3 then w[3] else zero)
  }

  function Chain<B, W>(s: Scheme<B, W>, x: Quad<W>, prev: seq<W>): Quad<W> {
    AddQuad(s.o, x, QuadAt(prev, s.zero))
  }

  function EncryptStep<B, W>(s: Scheme<B, W>, rk: seq<W>, prev: seq<W>, b: seq<B>): seq<W> {
    Encrypt(s.o, Chain(s, QuadAt(s.pack(b), s.zero), prev), rk).Words()
  }

  function DecryptStep<B, W>(s: Scheme<B, W>, rk: seq<W>, prev: seq<W>, b: seq<B>): seq<B> {
    s.unpack(Chain(s, Decrypt(s.o, QuadAt(s.pack(b), s.zero), rk), prev).Words())
  }

  /** Whole blocks only; both callers see to it that there is no partial one. */
  function Encrypted<B, W>(s: Scheme<B, W>, rk: seq<W>, prev: seq<W>, p: seq<B>): seq<W>
    decreases |p|
  {
    if |p| < 16 then []
    else
      var e := EncryptStep(s, rk, prev, p[..16]);
      e + Encrypted(s, rk, e, p[16..])
  }

  function Decrypted<B, W>(s: Scheme<B, W>, rk: seq<W>, prev: seq<W>, c: seq<B>): seq<B>
    decreases |c|
  {
    if |c| < 16 then []
    else DecryptStep(s, rk, prev, c[..16]) + Decrypted(s, rk, s.pack(c[..16]), c[16..])
  }

  lemma EncryptedLength<B, W>(s: Scheme<B, W>, rk: seq<W>, prev: seq<W>, p: seq<B>)
    requires |p| % 16 == 0
    ensures 4 * |Encrypted(s, rk, prev, p)| == |p|
    decreases |p|
  {
  }

  lemma DecryptedLength<B(!new), W(!new)>(s: Scheme<B, W>, rk: seq<W>, prev: seq<W>, c: seq<B>)
    requires LawfulScheme(s) && |c| % 16 == 0
    ensures |Decrypted(s, rk, prev, c)| == |c|
    decreases |c|
  {
  }

  lemma ChainTwice<B(!new), W(!new)>(s: Scheme<B, W>, x: Quad<W>, prev: seq<W>)
    requires LawfulScheme(s)
    ensures Chain(s, Chain(s, x, prev), prev) == x
  {
  }

  lemma QuadAtWords<W>(x: Quad<W>, w: seq<W>, zero: W)
    ensures QuadAt(x.Words(), zero) == x
    ensures |w| == 4 ==> QuadAt(w, zero).Words() == w
  {
  }

  /** CBC decryption inverts CBC encryption, for every chaining value and every whole number of blocks. */
  lemma {:induction false} CbcRoundTrip<B(!new), W(!new)>(s: Scheme<B, W>, rk: seq<W>, prev: seq<W>, p: seq<B>)
    requires LawfulScheme(s) && |p| % 16 == 0 && Packable(s, p)
    ensures var c := s.unpack(Encrypted(s, rk, prev, p));
            |c| == |p| && Decrypted(s, rk, prev, c) == p
    decreases |p|
  {
    if p == [] {
      assert |s.unpack([])| == 0;
    } else {
      var w := s.pack(p[..16]);
      var x := QuadAt(w, s.zero);
      var q := Encrypt(s.o, Chain(s, x, prev), rk);
      var e, rest := q.Words(), Encrypted(s, rk, q.Words(), p[16..]);
      var c := s.unpack(e + rest);
      EncryptedLength(s, rk, e, p[16..]);
      assert c[..16] == s.unpack(e) && c[16..] == s.unpack(rest);
      QuadAtWords(q, w, s.zero);
      BlockRoundTrip(s.o, Chain(s, x, prev), rk);
      ChainTwice(s, x, prev);
      assert DecryptStep(s, rk, prev, c[..16]) == p[..16];
      CbcRoundTrip(s, rk, e, p[16..]);
      assert p == p[..16] + p[16..];
    }
  }

  /** CBC encryption inverts CBC decryption: on whole blocks of bytes both are permutations. */
  lemma {:induction false} CbcRoundTripBack<B(!new), W(!new)>(s: Scheme<B, W>, rk: seq<W>, prev: seq<W>, c: seq<B>)
    requires LawfulScheme(s) && |c| % 16 == 0 && Packable(s, c)
    ensures var p := Decrypted(s, rk, prev, c);
            |p| == |c| && s.unpack(Encrypted(s, rk, prev, p)) == c
    decreases |c|
  {
    DecryptedLength(s, rk, prev, c);
    if c == [] {
      assert |s.unpack([])| == 0;
    } else {
      var w := s.pack(c[..16]);
      var q := QuadAt(w, s.zero);
      var d := Decrypt(s.o, q, rk);
      var x, rest := Chain(s, d, prev), Decrypted(s, rk, w, c[16..]);
      var p := Decrypted(s, rk, prev, c);
      assert p[..16] == s.unpack(x.Words()) && p[16..] == rest;
      assert EncryptStep(s, rk, prev, p[..16]) == w by {
        QuadAtWords(x, w, s.zero);
        ChainTwice(s, d, prev);
        BlockRoundTrip(s.o, q, rk);
      }
      CbcRoundTripBack(s, rk, w, c[16..]);
      assert c == c[..16] + c[16..];
    }
  }

  /** One turn of the loop of `sm4_cbc_encrypt_hex`. */
  method EncryptTurn<B, W>(s: Scheme<B, W>, rk: seq<W>, prev: seq<W>, b: seq<B>) returns (e: seq<W>)
    requires |rk| == 32
    ensures e == EncryptStep(s, rk, prev, b)
  {
    var w := Chain(s, QuadAt(s.pack(b), s.zero), prev);
    e := EncryptBlock(s.o, w.w0, w.w1, w.w2, w.w3, rk);
  }

  /** One turn of the loop of `sm4_cbc_decrypt_hex`. */
  method DecryptTurn<B, W>(s: Scheme<B, W>, rk: seq<W>, prev: seq<W>, b: seq<B>) returns (bytes: seq<B>, w: seq<W>)
    requires |rk| == 32
    ensures bytes == DecryptStep(s, rk, prev, b) && w == s.pack(b)
  {
    w := s.pack(b);
    var x := QuadAt(w, s.zero);
    var d := DecryptBlock(s.o, x.w0, x.w1, x.w2, x.w3, rk);
    QuadAtWords(Decrypt(s.o, x, rk), d, s.zero);
    bytes := s.unpack(Chain(s, QuadAt(d, s.zero), prev).Words());
  }

  method EncryptBlocks<B, W>(s: Scheme<B, W>, rk: seq<W>, iv: seq<W>, padded: seq<B>) returns (out: seq<W>)
    requires |rk| == 32 && |padded| % 16 == 0
    ensures out == Encrypted(s, rk, iv, padded)
  {
    var prev := iv;
    out := [];
    var i := 0;
    ghost var left := |padded| / 16;
    while i < |padded|
      invariant 0 <= i && 0 <= left && i + 16 * left == |padded|
      invariant out + Encrypted(s, rk, prev, padded[i..]) == Encrypted(s, rk, iv, padded)
      decreases left
    {
      assert padded[i..][..16] == padded[i..i + 16] && padded[i..][16..] == padded[i + 16..];
      var e := EncryptTurn(s, rk, prev, padded[i..i + 16]);
      out, prev := out + e, e;
      i, left := i + 16, left - 1;
    }
  }

  method DecryptBlocks<B, W>(s: Scheme<B, W>, rk: seq<W>, iv: seq<W>, cb: seq<B>) returns (out: seq<B>)
    requires |rk| == 32 && |cb| % 16 == 0
    ensures out == Decrypted(s, rk, iv, cb)
  {
    hide DecryptStep;
    var prev := iv;
    out := [];
    var i := 0;
    ghost var left := |cb| / 16;
    while i < |cb|
      invariant 0 <= i && 0 <= left && i + 16 * left == |cb|
      invariant out + Decrypted(s, rk, prev, cb[i..]) == Decrypted(s, rk, iv, cb)
      decreases left
    {
      assert cb[i..][..16] == cb[i..i + 16] && cb[i..][16..] == cb[i + 16..];
      var bytes, w := DecryptTurn(s, rk, prev, cb[i..i + 16]);
      out, prev := out + bytes, w;
      i, left := i + 16, left - 1;
    }
  }

  /// The chaining, block by block

  /** The block that a block is chained to: the vector, or the cipher block before it. */
  function ChainedTo<W>(iv: seq<W>, c: seq<W>, i: nat): seq<W>
    requires 4 * i <= |c|
  {
    if i == 0 then iv else c[4 * i - 4..4 * i]
  }

  /** Section 6.2: every cipher block is the encryption of its plaintext block added to the cipher block before it. */
  lemma {:induction false} EncryptedAt<B, W>(s: Scheme<B, W>, rk: seq<W>, iv: seq<W>, p: seq<B>, i: nat)
    requires |p| % 16 == 0 && 16 * i + 16 <= |p|
    ensures var c, x := Encrypted(s, rk, iv, p), QuadAt(s.pack(p[16 * i..16 * i + 16]), s.zero);
            && 4 * |c| == |p|
            && c[4 * i..4 * i + 4] == Encrypt(s.o, AddQuad(s.o, x, QuadAt(ChainedTo(iv, c, i), s.zero)), rk).Words()
    decreases i
  {
    var e, q := EncryptStep(s, rk, iv, p[..16]), p[16..];
    var c, rest := Encrypted(s, rk, iv, p), Encrypted(s, rk, e, q);
    EncryptedLength(s, rk, e, q);
    assert c == e + rest;
    if i == 0 {
      assert c[..4] == e && p[0..16] == p[..16];
    } else {
      EncryptedAt(s, rk, e, q, i - 1);
      LaterBlock(e, rest, p, q, iv, i - 1);
    }
  }

  lemma LaterBlock<B, W>(e: seq<W>, rest: seq<W>, p: seq<B>, q: seq<B>, iv: seq<W>, i: nat)
    requires |e| == 4 && |p| >= 16 && q == p[16..] && 4 * i + 4 <= |rest| && 16 * i + 16 <= |q|
    ensures (e + rest)[4 * i + 4..4 * i + 8] == rest[4 * i..4 * i + 4]
    ensures p[16 * i + 16..16 * i + 32] == q[16 * i..16 * i + 16]
    ensures ChainedTo(iv, e + rest, i + 1) == ChainedTo(e, rest, i)
  {
  }
}
