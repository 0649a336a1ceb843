/**
 Sealed secrets and the rotation of their master key: src/secrets/envelope.rs over an ideal
 authenticated cipher, and the transactions of src/secrets/store.rs.
 */
module Secrets {
  import opened Wrappers

  type Byte = b: nat | b < 256

  type Bytes = seq<Byte>

  const NONCE_LEN: nat := 12
  const KEY_LEN: nat := 32

  type Nonce = b: Bytes | |b| == NONCE_LEN witness seq(NONCE_LEN, _ => 0)

  type Key = b: Bytes | |b| == KEY_LEN witness seq(KEY_LEN, _ => 0)

  /// The ideal cipher

  /** A box opens under the key, nonce and associated data it was sealed with; any other bytes never do. */
  datatype Box = Box(key: Bytes, nonce: Bytes, aad: string, msg: Bytes) | Other(bytes: Bytes)

  function Open(key: Bytes, nonce: Bytes, aad: string, b: Box): Option<Bytes> {
    if b.Box? && b.key == key && b.nonce == nonce && b.aad == aad then Some(b.msg) else None
  }

  /// envelope.rs

  datatype MasterKey = MasterKey(bytes: Key, id: string)

  datatype Sealed = Sealed(ciphertext: Box, nonce: Bytes, wrappedDek: Box, wrapNonce: Bytes, keyId: string)

  /** The random bytes one encryption draws. */
  datatype Draw = Draw(dek: Key, nonce: Nonce, wrapNonce: Nonce)

  datatype SecretError =
    | Required
    | StoreFailed
    | Missing
    | BadNonceLength
    | UnwrapFailed
    | BadDek
    | DecryptFailed

  function Aad(purpose: string, name: string): string {
    "rp-secret|" + purpose + "|" + name
  }

  function Encrypt(kek: MasterKey, purpose: string, name: string, plaintext: Bytes, d: Draw): Sealed {
    Sealed(Box(d.dek, d.nonce, Aad(purpose, name), plaintext), d.nonce,
           Box(kek.bytes, d.wrapNonce, "", d.dek), d.wrapNonce, kek.id)
  }

  function Decrypt(kek: MasterKey, purpose: string, name: string, s: Sealed): Result<Bytes, SecretError> {
    if |s.nonce| != NONCE_LEN || |s.wrapNonce| != NONCE_LEN then Err(BadNonceLength)
    else
      match Open(kek.bytes, s.wrapNonce, "", s.wrappedDek)
      case None => Err(UnwrapFailed)
      case Some(dek) =>
        if |dek| != KEY_LEN then Err(BadDek)
        else
          match Open(dek, s.nonce, Aad(purpose, name), s.ciphertext)
          case None => Err(DecryptFailed)
          case Some(plaintext) => Ok(plaintext)
  }

  function Rewrap(retiring: MasterKey, incoming: MasterKey, s: Sealed, wrapNonce: Nonce): Result<Sealed, SecretError> {
    if |s.wrapNonce| != NONCE_LEN then Err(BadNonceLength)
    else
      match Open(retiring.bytes, s.wrapNonce, "", s.wrappedDek)
      case None => Err(UnwrapFailed)
      case Some(dek) => Ok(s.(wrappedDek := Box(incoming.bytes, wrapNonce, "", dek), wrapNonce := wrapNonce, keyId := incoming.id))
  }

  /** What is sealed under a key opens under that key, and only for the associated data it was sealed for. */
  lemma SealedOpens(kek: MasterKey, purpose: string, name: string, plaintext: Bytes, d: Draw,
                    kek': MasterKey, purpose': string, name': string)
    ensures Decrypt(kek', purpose', name', Encrypt(kek, purpose, name, plaintext, d))
         == if kek'.bytes != kek.bytes then Err(UnwrapFailed)
            else if Aad(purpose', name') != Aad(purpose, name) then Err(DecryptFailed)
            else Ok(plaintext)
    ensures var s := Encrypt(kek, purpose, name, plaintext, d);
            && s.nonce == d.nonce && s.wrapNonce == d.wrapNonce && s.keyId == kek.id
            && Open(kek.bytes, d.wrapNonce, "", s.wrappedDek) == Some(d.dek)
            && Open(d.dek, d.nonce, Aad(purpose, name), s.ciphertext) == Some(plaintext)
  {
  }

  /**
   What opens is exactly what was boxed under a data key of 32 bytes, itself boxed under the master key, both with
   nonces of 12; and a nonce of another length is told apart from a key that does not fit, and that from other data.
   */
  lemma OpensExactly(kek: MasterKey, purpose: string, name: string, s: Sealed, p: Bytes)
    ensures var r := Decrypt(kek, purpose, name, s);
            && (r == Ok(p) <==> exists dek: Key :: && |s.nonce| == 12 && |s.wrapNonce| == 12
                                                  && s.wrappedDek == Box(kek.bytes, s.wrapNonce, "", dek)
                                                  && s.ciphertext == Box(dek, s.nonce, Aad(purpose, name), p))
            && (r == Err(BadNonceLength) <==> |s.nonce| != 12 || |s.wrapNonce| != 12)
            && (r == Err(BadDek) ==> s.wrappedDek.Box? && |s.wrappedDek.msg| != 32)
            && (r == Err(DecryptFailed) ==> exists dek: Key :: s.wrappedDek == Box(kek.bytes, s.wrapNonce, "", dek))
            && (r == Err(UnwrapFailed) ==> forall msg :: s.wrappedDek != Box(kek.bytes, s.wrapNonce, "", msg))
  {
    if s.wrappedDek.Box? && |s.wrappedDek.msg| == 32 {
      var dek: Key := s.wrappedDek.msg;
      assert s.wrappedDek == Box(s.wrappedDek.key, s.wrappedDek.nonce, s.wrappedDek.aad, dek);
    }
  }

  /** Re-wrapping moves a secret from one key to the other, whatever it was sealed for. */
  lemma RewrapMoves(retiring: MasterKey, incoming: MasterKey, s: Sealed, wrapNonce: Nonce, purpose: string, name: string)
    requires Rewrap(retiring, incoming, s, wrapNonce).Ok?
    ensures Decrypt(incoming, purpose, name, Rewrap(retiring, incoming, s, wrapNonce).value) == Decrypt(retiring, purpose, name, s)
    ensures Rewrap(retiring, incoming, s, wrapNonce).value.keyId == incoming.id
    ensures var r := Rewrap(retiring, incoming, s, wrapNonce).value;
            r.ciphertext == s.ciphertext && r.nonce == s.nonce && r.wrapNonce == wrapNonce
    ensures incoming.bytes != retiring.bytes ==> Decrypt(retiring, purpose, name, Rewrap(retiring, incoming, s, wrapNonce).value).Err?
  {
  }

  predicate HasBar(s: string) {
    exists i :: 0 <= i < |s| && s[i] == '|'
  }

  /**
   The associated data joins purpose and name with a bar, so it names one pair only as long as the
   purpose has no bar of its own: another pair with the same associated data has a purpose that goes
   on, past a bar, with the start of this name, or the other way round.
   */
  lemma AadDetermines(purpose: string, name: string, purpose': string, name': string)
    ensures Aad(purpose, name) == Aad(purpose', name') <==>
            || (purpose == purpose' && name == name')
            || (|purpose| < |purpose'| && purpose' == purpose + "|" + purpose'[|purpose| + 1..]
                && name == purpose'[|purpose| + 1..] + "|" + name')
            || (|purpose'| < |purpose| && purpose == purpose' + "|" + purpose[|purpose'| + 1..]
                && name' == purpose[|purpose'| + 1..] + "|" + name)
  {
    var a, b := Aad(purpose, name), Aad(purpose', name');
    SameHead("rp-secret|", purpose + "|" + name, purpose' + "|" + name');
    assert a == "rp-secret|" + (purpose + "|" + name);
    assert b == "rp-secret|" + (purpose' + "|" + name');
    if |purpose| < |purpose'| {
      JoinedShorter(purpose, name, purpose', name');
    } else if |purpose'| < |purpose| {
      JoinedShorter(purpose', name', purpose, name);
    } else if purpose + "|" + name == purpose' + "|" + name' {
      assert (purpose + "|" + name)[..|purpose|] == purpose;
      assert (purpose + "|" + name)[|purpose| + 1..] == name;
      assert (purpose' + "|" + name')[|purpose| + 1..] == name';
    }
  }

  lemma JoinedShorter(p: string, n: string, p': string, n': string)
    requires |p| < |p'|
    ensures p + "|" + n == p' + "|" + n' <==>
            p' == p + "|" + p'[|p| + 1..] && n == p'[|p| + 1..] + "|" + n'
  {
    var q := p'[|p| + 1..];
    if p + "|" + n == p' + "|" + n' {
      assert (p + "|" + n)[..|p|] == p;
      assert (p' + "|" + n')[..|p|] == p'[..|p|];
      assert (p + "|" + n)[|p|] == '|';
      assert p' == p'[..|p|] + [p'[|p|]] + q;
      assert (p + "|" + n)[|p| + 1..] == n;
      assert (p' + "|" + n')[|p| + 1..] == q + "|" + n';
    }
    if p' == p + "|" + q && n == q + "|" + n' {
      assert p + "|" + n == p + "|" + q + "|" + n';
    }
  }

  lemma ShorterHasBar(p: string, n: string, p': string, n': string)
    requires |p| < |p'| && Aad(p, n) == Aad(p', n')
    ensures HasBar(p')
  {
    AadDetermines(p, n, p', n');
    assert (p + "|" + p'[|p| + 1..])[|p|] == '|';
  }

  /** Purposes without a bar keep every pair apart. */
  lemma AadInjective(purpose: string, name: string, purpose': string, name': string)
    requires !HasBar(purpose) && !HasBar(purpose') && Aad(purpose, name) == Aad(purpose', name')
    ensures purpose == purpose' && name == name'
  {
    AadDetermines(purpose, name, purpose', name');
    if |purpose| < |purpose'| {
      ShorterHasBar(purpose, name, purpose', name');
    } else if |purpose'| < |purpose| {
      ShorterHasBar(purpose', name', purpose, name);
    }
  }

  /** A bar in the purpose does let two pairs share their associated data. */
  lemma AadCollides()
    ensures Aad("a|b", "c") == Aad("a", "b|c") == "rp-secret|a|b|c"
  {
    AadDetermines("a|b", "c", "a", "b|c");
  }
}
