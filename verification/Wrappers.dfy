/** Failure-compatible datatypes and facts about sequences and sets, shared by the models. */
module Wrappers {
  datatype Option<+T> = None | Some(value: T)

  datatype Result<+R, +E> = Ok(value: R) | Err(error: E)

  function Or<T>(o: Option<T>, t: T): T {
    if o.Some? then o.value else t
  }

  function Repeat<T>(t: T, n: nat): (r: seq<T>)
    ensures |r| == n && forall i :: 0 <= i < n ==> r[i] == t
  {
    seq(n, _ => t)
  }

  lemma RepeatMore<T>(t: T, n: nat)
    requires n > 0
    ensures Repeat(t, n) == [t] + Repeat(t, n - 1) == Repeat(t, n - 1) + [t] && Repeat(t, n)[..n - 1] == Repeat(t, n - 1)
  {
  }

  lemma SameHead<T>(h: seq<T>, a: seq<T>, b: seq<T>)
    ensures h + a == h + b <==> a == b
  {
    assert (h + a)[|h|..] == a && (h + b)[|h|..] == b;
  }

  lemma Regroup<T>(a: seq<T>, b: seq<T>, c: seq<T>)
    ensures (a + b) + c == a + (b + c)
  {
  }

  lemma Subset<T>(a: set<T>, b: set<T>)
    requires a <= b
    ensures |a| <= |b| && |b - a| == |b| - |a|
  {
    assert b == a + (b - a);
  }
}
