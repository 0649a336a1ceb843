/**
 The in-process login rate limiter of src/service/rate_limit.rs: sliding windows of failures by
 account and by client address, with bounded maps and idle eviction. Every call takes the clock
 reading it would make.
 */
module RateLimit {
  import opened Wrappers

  /** A monotonic clock reading in nanoseconds. */
  type Instant = int

  const WINDOW: int := 15 * 60 * 1_000_000_000
  const MAX_FAILURES: nat := 5
  const MAX_BUCKETS: nat := 10_000

  datatype Failure = Failure(account: string, at: Instant)

  type Bucket = seq<Instant>

  type IpBucket = seq<Failure>

  datatype Limiter = Limiter(byAccount: map<string, Bucket>, byIp: map<string, IpBucket>)

  /// Buckets

  /** `duration_since`, which saturates at zero. */
  function Elapsed(now: Instant, at: Instant): int {
    if at <= now then now - at else 0
  }

  predicate IsRecent(now: Instant, at: Instant) {
    Elapsed(now, at) < WINDOW
  }

  /** The failures inside the window, in order. */
  function Recent<E>(b: seq<E>, at: E -> Instant, now: Instant): (r: seq<E>)
    ensures |r| <= |b|
  {
    if b == [] then []
    else
      var kept := Recent(b[..|b| - 1], at, now);
      if IsRecent(now, at(b[|b| - 1])) then kept + [b[|b| - 1]] else kept
  }

  function Itself(i: Instant): Instant {
    i
  }

  function At(f: Failure): Instant {
    f.at
  }

  function Lookup<E>(m: map<string, seq<E>>, key: string): seq<E> {
    if key in m then m[key] else []
  }

  /** `retain`: a loop that keeps the failures inside the window. */
  method Prune<E>(b: seq<E>, at: E -> Instant, now: Instant) returns (r: seq<E>)
    ensures r == Recent(b, at, now)
  {
    r := [];
    for i := 0 to |b|
      invariant r == Recent(b[..i], at, now)
    {
      assert b[..i + 1][..i] == b[..i];
      if Elapsed(now, at(b[i])) < WINDOW {
        r := r + [b[i]];
      }
    }
    assert b[..|b|] == b;
  }

  /** The failures that other accounts caused. */
  function WithoutAccount(b: IpBucket, account: string): IpBucket {
    if b == [] then []
    else
      var kept := WithoutAccount(b[..|b| - 1], account);
      if b[|b| - 1].account != account then kept + [b[|b| - 1]] else kept
  }

  /** `to_ascii_lowercase`. */
  function Lower(s: string): string {
    if s == "" then ""
    else [if 'A' <= s[0] <= 'Z' then (s[0] as int + 32) as char else s[0]] + Lower(s[1..])
  }

  /// Eviction

  function Pruned<E>(m: map<string, seq<E>>, at: E -> Instant, now: Instant): map<string, seq<E>> {
    map k | k in m && Recent(m[k], at, now) != [] :: Recent(m[k], at, now)
  }

  function LastFailure<E>(b: seq<E>, at: E -> Instant): Instant
    requires b != []
  {
    at(b[|b| - 1])
  }

  /**
   What eviction may leave: everything while the map is within its cap; else the buckets with
   recent failures; and when those are still too many, three quarters of the cap, none of them
   idle for longer than one that went. Ties may fall either way, as a hash map is unordered.
   */
  ghost predicate Evicts<E>(m: map<string, seq<E>>, m': map<string, seq<E>>, at: E -> Instant, now: Instant) {
    if |m| <= MAX_BUCKETS then m' == m
    else
      var p := Pruned(m, at, now);
      if |p| <= MAX_BUCKETS then m' == p
      else
        && m'.Keys <= p.Keys
        && (forall k :: k in m' ==> m'[k] == p[k])
        && |m'| == MAX_BUCKETS * 3 / 4
        && (forall gone, kept :: gone in p.Keys - m'.Keys && kept in m' ==>
              LastFailure(p[gone], at) <= LastFailure(p[kept], at))
  }

  datatype Idle = Idle(at: Instant, key: string)

  ghost predicate SortedIdle(s: seq<Idle>) {
    forall i, j :: 0 <= i < j < |s| ==> s[i].at <= s[j].at
  }

  ghost predicate Distinct(s: seq<Idle>) {
    forall i, j :: 0 <= i < j < |s| ==> s[i].key != s[j].key
  }

  ghost predicate Covers(s: seq<Idle>, keys: set<string>) {
    && (forall i :: 0 <= i < |s| ==> s[i].key in keys)
    && (forall k :: k in keys ==> exists i :: 0 <= i < |s| && s[i].key == k)
  }

  ghost predicate Timed(s: seq<Idle>, last: map<string, Instant>) {
    forall i :: 0 <= i < |s| ==> s[i].key in last && s[i].at == last[s[i].key]
  }

  /** `s` lists each of `keys` once, with its last failure. */
  ghost predicate Lists(s: seq<Idle>, last: map<string, Instant>, keys: set<string>) {
    Timed(s, last) && Distinct(s) && Covers(s, keys)
  }

  /** Insert into a list sorted by time, after its equals. */
  method InsertIdle(s: seq<Idle>, x: Idle) returns (r: seq<Idle>, n: nat)
    requires SortedIdle(s)
    ensures n <= |s| && r == s[..n] + [x] + s[n..]
    ensures SortedIdle(r)
  {
    n := |s|;
    while n > 0 && x.at < s[n - 1].at
      invariant 0 <= n <= |s|
      invariant forall i :: n <= i < |s| ==> x.at < s[i].at
    {
      n := n - 1;
    }
    r := s[..n] + [x] + s[n..];
  }

  lemma CoversInsert(s: seq<Idle>, x: Idle, n: nat, keys: set<string>)
    requires Covers(s, keys) && n <= |s|
    ensures Covers(s[..n] + [x] + s[n..], keys + {x.key})
  {
    var r := s[..n] + [x] + s[n..];
    forall k | k in keys + {x.key}
      ensures exists i :: 0 <= i < |r| && r[i].key == k
    {
      if k == x.key {
        assert r[n].key == k;
      } else {
        var i :| 0 <= i < |s| && s[i].key == k;
        assert r[if i < n then i else i + 1].key == k;
      }
    }
  }

  lemma DistinctInsert(s: seq<Idle>, x: Idle, n: nat)
    requires Distinct(s) && n <= |s| && forall i :: 0 <= i < |s| ==> s[i].key != x.key
    ensures Distinct(s[..n] + [x] + s[n..])
  {
    var r := s[..n] + [x] + s[n..];
    forall i, j | 0 <= i < j < |r|
      ensures r[i].key != r[j].key
    {
      assert i != n ==> r[i] == s[if i < n then i else i - 1];
      assert j != n ==> r[j] == s[if j < n then j else j - 1];
    }
  }

  /** `idle_order`: every bucket by its last failure, longest idle first. */
  method IdleOrder(last: map<string, Instant>) returns (s: seq<Idle>)
    ensures SortedIdle(s) && Lists(s, last, last.Keys)
  {
    s := [];
    var rest := last.Keys;
    while rest != {}
      invariant rest <= last.Keys
      invariant SortedIdle(s) && Lists(s, last, last.Keys - rest)
      decreases rest
    {
      var k :| k in rest;
      ghost var s0 := s;
      var n;
      s, n := InsertIdle(s, Idle(last[k], k));
      CoversInsert(s0, Idle(last[k], k), n, last.Keys - rest);
      DistinctInsert(s0, Idle(last[k], k), n);
      assert last.Keys - (rest - {k}) == last.Keys - rest + {k};
      rest := rest - {k};
    }
    assert last.Keys - {} == last.Keys;
  }

  function FirstKeys(s: seq<Idle>, n: nat): set<string>
    requires n <= |s|
  {
    set i | 0 <= i < n :: s[i].key
  }

  lemma {:induction false} FirstKeysCount(s: seq<Idle>, n: nat)
    requires n <= |s|
    requires Distinct(s)
    ensures |FirstKeys(s, n)| == n
  {
    if n > 0 {
      FirstKeysCount(s, n - 1);
      assert FirstKeys(s, n) == FirstKeys(s, n - 1) + {s[n - 1].key};
    }
  }

  /** No key of `gone` was touched after a key outside it. */
  ghost predicate Idlest(last: map<string, Instant>, gone: set<string>) {
    gone <= last.Keys && forall g, k :: g in gone && k in last.Keys - gone ==> last[g] <= last[k]
  }

  lemma FirstAreIdlest(order: seq<Idle>, last: map<string, Instant>, n: nat)
    requires n <= |order| && SortedIdle(order) && Lists(order, last, last.Keys)
    ensures Idlest(last, FirstKeys(order, n))
  {
    var gone := FirstKeys(order, n);
    forall g, k | g in gone && k in last.Keys - gone
      ensures last[g] <= last[k]
    {
      var i :| 0 <= i < n && order[i].key == g;
      var j :| 0 <= j < |order| && order[j].key == k;
      assert j >= n;
    }
  }

  function LastFailures<E>(p: map<string, seq<E>>, at: E -> Instant): map<string, Instant> {
    map k | k in p && p[k] != [] :: LastFailure(p[k], at)
  }

  lemma LastFailuresCount<E>(p: map<string, seq<E>>, at: E -> Instant)
    requires forall k :: k in p ==> p[k] != []
    ensures LastFailures(p, at).Keys == p.Keys && |LastFailures(p, at)| == |p|
  {
    assert LastFailures(p, at).Keys == p.Keys;
  }

  lemma FirstKeysStep(s: seq<Idle>, n: nat)
    requires n < |s|
    ensures FirstKeys(s, n + 1) == FirstKeys(s, n) + {s[n].key}
  {
  }

  /** The keys of the `excess` longest-idle buckets. */
  method IdlestKeys(last: map<string, Instant>, excess: nat) returns (gone: set<string>)
    requires excess <= |last|
    ensures Idlest(last, gone) && |gone| == excess
  {
    var order := IdleOrder(last);
    FirstKeysCount(order, |order|);
    assert FirstKeys(order, |order|) == last.Keys;
    gone := {};
    for i := 0 to excess
      invariant gone == FirstKeys(order, i)
    {
      FirstKeysStep(order, i);
      gone := gone + {order[i].key};
    }
    FirstKeysCount(order, excess);
    FirstAreIdlest(order, last, excess);
  }

  /** Remove the longest-idle buckets until `keep` are left. */
  method DropIdlest<E>(p: map<string, seq<E>>, at: E -> Instant, keep: nat)
    returns (r: map<string, seq<E>>, gone: set<string>)
    requires keep <= |p| && forall k :: k in p ==> p[k] != []
    ensures Idlest(LastFailures(p, at), gone) && |gone| == |p| - keep
    ensures r == p - gone
  {
    LastFailuresCount(p, at);
    gone := IdlestKeys(LastFailures(p, at), |p| - keep);
    r := p - gone;
  }

  lemma RemovalCount<V>(p: map<string, V>, gone: set<string>)
    requires gone <= p.Keys
    ensures |p - gone| == |p| - |gone|
  {
    assert (p - gone).Keys == p.Keys - gone;
  }

  method EvictIfNeeded<E>(m: map<string, seq<E>>, at: E -> Instant, now: Instant) returns (r: map<string, seq<E>>)
    ensures Evicts(m, r, at, now)
  {
    if |m| <= MAX_BUCKETS {
      return m;
    }
    var p := Pruned(m, at, now);
    if |p| <= MAX_BUCKETS {
      return p;
    }
    var gone;
    r, gone := DropIdlest(p, at, MAX_BUCKETS * 3 / 4);
    LastFailuresCount(p, at);
    RemovalCount(p, gone);
  }

  /// The limiter

  /** One bucket pruned in place, as `get_mut(key).map(is_blocked)` leaves it; no bucket is created. */
  function Probed<E>(m: map<string, seq<E>>, key: string, at: E -> Instant, now: Instant): map<string, seq<E>> {
    if key in m then m[key := Recent(m[key], at, now)] else m
  }

  function Checked(s: Limiter, username: string, ip: string, now: Instant): Limiter {
    Limiter(Probed(s.byAccount, Lower(username), Itself, now), Probed(s.byIp, ip, At, now))
  }

  predicate Blocked(s: Limiter, username: string, ip: string, now: Instant) {
    || |Recent(Lookup(s.byAccount, Lower(username)), Itself, now)| >= MAX_FAILURES
    || |Recent(Lookup(s.byIp, ip), At, now)| >= MAX_FAILURES
  }

  function Added<E>(m: map<string, seq<E>>, key: string, e: E, at: E -> Instant, now: Instant): map<string, seq<E>> {
    m[key := Recent(Lookup(m, key), at, now) + [e]]
  }

  /** The effect of a recorded failure, given what eviction left of the two maps. */
  function Recorded(a: map<string, Bucket>, p: map<string, IpBucket>, username: string, ip: string, now: Instant): Limiter {
    Limiter(Added(a, Lower(username), now, Itself, now), Added(p, ip, Failure(Lower(username), now), At, now))
  }

  ghost predicate Records(s: Limiter, s': Limiter, a: map<string, Bucket>, p: map<string, IpBucket>,
                          username: string, ip: string, now: Instant)
  {
    Evicts(s.byAccount, a, Itself, now) && Evicts(s.byIp, p, At, now) && s' == Recorded(a, p, username, ip, now)
  }

  function Cleared(s: Limiter, username: string, ip: string): Limiter {
    var account := Lower(username);
    Limiter(if account in s.byAccount then s.byAccount[account := []] else s.byAccount,
            if ip in s.byIp then s.byIp[ip := WithoutAccount(s.byIp[ip], account)] else s.byIp)
  }

  class LoginRateLimiter {
    var byAccount: map<string, Bucket>
    var byIp: map<string, IpBucket>

    constructor ()
      ensures State() == Limiter(map[], map[])
    {
      byAccount, byIp := map[], map[];
    }

    function State(): Limiter
      reads this
    {
      Limiter(byAccount, byIp)
    }

    method Check(username: string, ip: string, now: Instant) returns (r: Result<(), string>)
      modifies this
      ensures State() == Checked(old(State()), username, ip, now)
      ensures r.Err? <==> Blocked(old(State()), username, ip, now)
    {
      var account := Lower(username);
      var accountBlocked, ipBlocked := false, false;
      if account in byAccount {
        var b := Prune(byAccount[account], Itself, now);
        byAccount := byAccount[account := b];
        accountBlocked := |b| >= MAX_FAILURES;
      }
      if ip in byIp {
        var b := Prune(byIp[ip], At, now);
        byIp := byIp[ip := b];
        ipBlocked := |b| >= MAX_FAILURES;
      }
      if accountBlocked || ipBlocked {
        return Err("Too many login attempts; try again later");
      }
      r := Ok(());
    }

    method RecordFailure(username: string, ip: string, now: Instant)
      returns (ghost a: map<string, Bucket>, ghost p: map<string, IpBucket>)
      modifies this
      ensures Records(old(State()), State(), a, p, username, ip, now)
    {
      byAccount := EvictIfNeeded(byAccount, Itself, now);
      byIp := EvictIfNeeded(byIp, At, now);
      a, p := byAccount, byIp;
      var account := Lower(username);
      var bucket := Prune(Lookup(byAccount, account), Itself, now);
      byAccount := byAccount[account := bucket + [now]];
      var ipBucket := Prune(Lookup(byIp, ip), At, now);
      byIp := byIp[ip := ipBucket + [Failure(account, now)]];
    }

    method ClearSuccess(username: string, ip: string)
      modifies this
      ensures State() == Cleared(old(State()), username, ip)
    {
      var account := Lower(username);
      if account in byAccount {
        byAccount := byAccount[account := []];
      }
      if ip in byIp {
        byIp := byIp[ip := WithoutAccount(byIp[ip], account)];
      }
    }
  }
}
