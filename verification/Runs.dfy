/** Runs of a state machine given by its start and a partial step function. */
module Runs {
  import opened Wrappers

  /** Where a run ends, if each of its events could happen. */
  ghost function After<S, E>(start: S, next: (S, E) -> Option<S>, es: seq<E>): Option<S> {
    if es == [] then Some(start)
    else
      match After(start, next, es[..|es| - 1])
      case Some(s) => next(s, es[|es| - 1])
      case None => None
  }

  /** Every state of the run satisfies `p`. */
  ghost predicate Always<S, E>(start: S, next: (S, E) -> Option<S>, p: S -> bool, es: seq<E>) {
    && After(start, next, es).Some?
    && p(After(start, next, es).value)
    && (es != [] ==> Always(start, next, p, es[..|es| - 1]))
  }

  lemma Before<S, E>(start: S, next: (S, E) -> Option<S>, es: seq<E>, s: S) returns (s0: S, e: E)
    requires After(start, next, es) == Some(s) && es != []
    ensures e == es[|es| - 1] && After(start, next, es[..|es| - 1]) == Some(s0) && next(s0, e) == Some(s)
  {
    s0, e := After(start, next, es[..|es| - 1]).value, es[|es| - 1];
  }

  lemma AfterOne<S, E>(start: S, next: (S, E) -> Option<S>, es: seq<E>, s: S, e: E, s': S)
    requires After(start, next, es) == Some(s) && next(s, e) == Some(s')
    ensures After(start, next, es + [e]) == Some(s')
  {
    assert (es + [e])[..|es|] == es;
  }

  lemma AfterFirst<S, E>(start: S, next: (S, E) -> Option<S>, e: E, s: S)
    requires next(start, e) == Some(s)
    ensures After(start, next, [e]) == Some(s)
  {
    assert [e][..0] == [];
  }

  lemma AfterMore<S, E>(start: S, next: (S, E) -> Option<S>, es: seq<E>, s: S, e: E, s': S, all: seq<E>)
    requires After(start, next, es) == Some(s) && next(s, e) == Some(s') && all == es + [e]
    ensures After(start, next, all) == Some(s')
  {
    AfterOne(start, next, es, s, e, s');
  }

  lemma AlwaysOne<S, E>(start: S, next: (S, E) -> Option<S>, p: S -> bool, es: seq<E>, s: S, e: E, s': S)
    requires After(start, next, es) == Some(s) && Always(start, next, p, es)
    requires next(s, e) == Some(s') && p(s')
    ensures After(start, next, es + [e]) == Some(s') && Always(start, next, p, es + [e])
  {
    assert (es + [e])[..|es|] == es;
  }

  lemma AlwaysWeaken<S(!new), E>(start: S, next: (S, E) -> Option<S>, p: S -> bool, q: S -> bool, es: seq<E>)
    requires Always(start, next, p, es) && forall s :: p(s) ==> q(s)
    ensures Always(start, next, q, es)
  {
  }

  /** The first `n` states step to one another, and satisfy `p`. */
  ghost predicate Linked<S, E>(next: (S, E) -> Option<S>, p: S -> bool, states: nat -> S, events: nat -> E, n: nat) {
    forall i: nat, j: nat :: j == i + 1 <= n ==> next(states(i), events(i)) == Some(states(j)) && p(states(j))
  }

  lemma LinkedLess<S, E>(next: (S, E) -> Option<S>, p: S -> bool, states: nat -> S, events: nat -> E, n: nat)
    requires n > 0 && Linked(next, p, states, events, n)
    ensures Linked(next, p, states, events, n - 1)
    ensures next(states(n - 1), events(n - 1)) == Some(states(n)) && p(states(n))
  {
    forall i: nat, j: nat | j == i + 1 <= n - 1
      ensures next(states(i), events(i)) == Some(states(j)) && p(states(j))
    {
    }
    var i: nat := n - 1;
    assert next(states(i), events(i)) == Some(states(n));
  }

  /** A run goes on through `n` states that step to one another. */
  lemma {:induction false} Chain<S, E>(start: S, next: (S, E) -> Option<S>, p: S -> bool, es: seq<E>,
                                       states: nat -> S, events: nat -> E, n: nat) returns (r: seq<E>)
    requires After(start, next, es) == Some(states(0)) && Always(start, next, p, es) && Linked(next, p, states, events, n)
    ensures After(start, next, r) == Some(states(n)) && Always(start, next, p, r)
  {
    r := es;
    if n > 0 {
      LinkedLess(next, p, states, events, n);
      r := Chain(start, next, p, es, states, events, n - 1);
      AlwaysOne(start, next, p, r, states(n - 1), events(n - 1), states(n));
      r := r + [events(n - 1)];
    }
  }
}
