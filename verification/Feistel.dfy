/**
 The unbalanced Feistel network of SM4 (GB/T 32907-2016), over any word type: only the laws of
 its two operations matter, never the substitution box. `mix(a, b, c, k)` stands for
 `T(a ^ b ^ c ^ k)` and `add(a, t)` for `a ^ t`.
 */
module Feistel {
  datatype Ops<!W> = Ops(mix: (W, W, W, W) -> W, add: (W, W) -> W)

  ghost predicate Lawful<W(!new)>(o: Ops<W>) {
    && (forall a, b, c, k :: o.mix(a, b, c, k) == o.mix(c, b, a, k))
    && (forall a, t :: o.add(o.add(a, t), t) == a)
  }

  datatype Quad<W> = Quad(w0: W, w1: W, w2: W, w3: W) {
    function Reverse(): Quad<W> {
      Quad(w3, w2, w1, w0)
    }

    function Words(): seq<W> {
      [w0, w1, w2, w3]
    }
  }

  function Round<W>(o: Ops<W>, x: Quad<W>, k: W): Quad<W> {
    Quad(x.w1, x.w2, x.w3, o.add(x.w0, o.mix(x.w1, x.w2, x.w3, k)))
  }

  /** One round per key, first key first. */
  function Rounds<W>(o: Ops<W>, x: Quad<W>, rk: seq<W>): Quad<W> {
    if rk == [] then x else Round(o, Rounds(o, x, rk[..|rk| - 1]), rk[|rk| - 1])
  }

  function Reversed<A>(s: seq<A>): (r: seq<A>)
    ensures |r| == |s|
    ensures forall i :: 0 <= i < |s| ==> r[i] == s[|s| - 1 - i]
  {
    if s == [] then [] else [s[|s| - 1]] + Reversed(s[..|s| - 1])
  }

  function Encrypt<W>(o: Ops<W>, x: Quad<W>, rk: seq<W>): Quad<W> {
    Rounds(o, x, rk).Reverse()
  }

  function Decrypt<W>(o: Ops<W>, x: Quad<W>, rk: seq<W>): Quad<W> {
    Rounds(o, x, Reversed(rk)).Reverse()
  }

  lemma RoundInverse<W(!new)>(o: Ops<W>, x: Quad<W>, k: W)
    requires Lawful(o)
    ensures Round(o, Round(o, x, k).Reverse(), k) == x.Reverse()
  {
    assert o.mix(x.w1, x.w2, x.w3, k) == o.mix(x.w3, x.w2, x.w1, k);
  }

  lemma {:induction false} RoundsFirst<W>(o: Ops<W>, x: Quad<W>, k: W, rk: seq<W>)
    ensures Rounds(o, x, [k] + rk) == Rounds(o, Round(o, x, k), rk)
  {
    var all := [k] + rk;
    if rk == [] {
      assert all[..0] == [];
    } else {
      assert all[..|all| - 1] == [k] + rk[..|rk| - 1];
      RoundsFirst(o, x, k, rk[..|rk| - 1]);
    }
  }

  lemma RoundsNext<W>(o: Ops<W>, x: Quad<W>, rk: seq<W>, i: nat)
    requires i < |rk|
    ensures Rounds(o, x, rk[..i + 1]) == Round(o, Rounds(o, x, rk[..i]), rk[i])
  {
    assert rk[..i + 1][..i] == rk[..i];
  }

  /** The rounds run backwards undo the rounds, for any lawful operations and any number of keys. */
  lemma {:induction false} RoundsInverse<W(!new)>(o: Ops<W>, x: Quad<W>, rk: seq<W>)
    requires Lawful(o)
    ensures Rounds(o, Rounds(o, x, rk).Reverse(), Reversed(rk)) == x.Reverse()
  {
    if rk != [] {
      var init, k := rk[..|rk| - 1], rk[|rk| - 1];
      RoundsFirst(o, Rounds(o, x, rk).Reverse(), k, Reversed(init));
      RoundInverse(o, Rounds(o, x, init), k);
      RoundsInverse(o, x, init);
    }
  }

  lemma ReverseTwice<A>(s: seq<A>)
    ensures Reversed(Reversed(s)) == s
  {
  }

  /** Decryption inverts encryption, and encryption inverts decryption. */
  lemma BlockRoundTrip<W(!new)>(o: Ops<W>, x: Quad<W>, rk: seq<W>)
    requires Lawful(o)
    ensures Decrypt(o, Encrypt(o, x, rk), rk) == x
    ensures Encrypt(o, Decrypt(o, x, rk), rk) == x
  {
    RoundsInverse(o, x, rk);
    RoundsInverse(o, x, Reversed(rk));
    ReverseTwice(rk);
  }

  method EncryptBlock<W>(o: Ops<W>, x0: W, x1: W, x2: W, x3: W, rk: seq<W>) returns (r: seq<W>)
    requires |rk| == 32
    ensures r == Encrypt(o, Quad(x0, x1, x2, x3), rk).Words()
  {
    var x := [x0, x1, x2, x3];
    for i := 0 to 32
      invariant x == Rounds(o, Quad(x0, x1, x2, x3), rk[..i]).Words()
    {
      RoundsNext(o, Quad(x0, x1, x2, x3), rk, i);
      x := x + [o.add(x[0], o.mix(x[1], x[2], x[3], rk[i]))];
      x := x[1..];
    }
    assert rk[..32] == rk;
    r := [x[3], x[2], x[1], x[0]];
  }

  method DecryptBlock<W>(o: Ops<W>, x0: W, x1: W, x2: W, x3: W, rk: seq<W>) returns (r: seq<W>)
    requires |rk| == 32
    ensures r == Decrypt(o, Quad(x0, x1, x2, x3), rk).Words()
  {
    var x := [x0, x1, x2, x3];
    ghost var back := Reversed(rk);
    for i := 0 to 32
      invariant x == Rounds(o, Quad(x0, x1, x2, x3), back[..i]).Words()
    {
      RoundsNext(o, Quad(x0, x1, x2, x3), back, i);
      x := x + [o.add(x[0], o.mix(x[1], x[2], x[3], rk[31 - i]))];
      x := x[1..];
    }
    assert back[..32] == back;
    r := [x[3], x[2], x[1], x[0]];
  }

  /// Key schedule: the same network, fed with the fixed constants `ck`

  /** The window of the schedule after `i` rounds: words K_i to K_{i+3}. */
  function KeyWindow<W>(o: Ops<W>, start: Quad<W>, ck: seq<W>, i: nat): Quad<W>
    requires i <= |ck|
  {
    Rounds(o, start, ck[..i])
  }

  /** The round keys: the word that each round of the schedule adds. */
  function KeySchedule<W>(o: Ops<W>, start: Quad<W>, ck: seq<W>): (rk: seq<W>)
    ensures |rk| == |ck|
  {
    seq(|ck|, i requires 0 <= i < |ck| => KeyWindow(o, start, ck, i + 1).w3)
  }

  /** The two arrays of the key expansion, filled in place from the four start words. */
  method FillSchedule<W>(o: Ops<W>, k: array<W>, rk: array<W>, ck: seq<W>)
    requires |ck| == 32 && k.Length == 36 && rk.Length == 32 && k != rk
    modifies k, rk
    ensures rk[..] == KeySchedule(o, Quad(old(k[0]), old(k[1]), old(k[2]), old(k[3])), ck)
  {
    ghost var start := Quad(k[0], k[1], k[2], k[3]);
    assert ck[..0] == [];
    for i := 0 to 32
      invariant Quad(k[i], k[i + 1], k[i + 2], k[i + 3]) == KeyWindow(o, start, ck, i)
      invariant forall j :: 0 <= j < i ==> rk[j] == KeyWindow(o, start, ck, j + 1).w3
    {
      RoundsNext(o, start, ck, i);
      k[i + 4] := o.add(k[i], o.mix(k[i + 1], k[i + 2], k[i + 3], ck[i]));
      rk[i] := k[i + 4];
    }
    assert rk[..] == KeySchedule(o, start, ck);
  }

  /** Four consecutive round keys are the window of the schedule that they complete. */
  lemma WindowIsSchedule<W>(o: Ops<W>, start: Quad<W>, ck: seq<W>, i: nat)
    requires i + 4 <= |ck|
    ensures KeyWindow(o, start, ck, i + 4).Words() == KeySchedule(o, start, ck)[i..i + 4]
  {
    RoundsNext(o, start, ck, i + 1);
    RoundsNext(o, start, ck, i + 2);
    RoundsNext(o, start, ck, i + 3);
  }

  /** The last four round keys determine the start words, hence the whole schedule. */
  lemma ScheduleInjective<W(!new)>(o: Ops<W>, start: Quad<W>, start': Quad<W>, ck: seq<W>)
    requires Lawful(o) && |ck| >= 4
    requires KeySchedule(o, start, ck)[|ck| - 4..] == KeySchedule(o, start', ck)[|ck| - 4..]
    ensures start == start'
  {
    var n := |ck|;
    assert ck[..n] == ck;
    WindowIsSchedule(o, start, ck, n - 4);
    WindowIsSchedule(o, start', ck, n - 4);
    var a, b := Rounds(o, start, ck), Rounds(o, start', ck);
    assert a.Words() == b.Words();
    assert a.Words()[0] == b.Words()[0] && a.Words()[1] == b.Words()[1];
    assert a.Words()[2] == b.Words()[2] && a.Words()[3] == b.Words()[3];
    RoundsInverse(o, start, ck);
    RoundsInverse(o, start', ck);
  }
}
