/**
 Runs of the login rate limiter under concurrent logins: `sign` in src/api/v1/login.rs checks the
 limiter, lets go of its lock while the password is verified, and takes it again to record a failure
 or clear a success. Any number of logins may be between the two.
 */
module RateLimitRuns {
  import opened RateLimit
  import opened Runs
  import opened Wrappers

  /** A failure as the full log remembers it, and whether it still stands for its account and its address. */
  datatype Entry = Entry(account: string, ip: string, at: Instant, forAccount: bool, forIp: bool)

  datatype Login = Login(username: string, ip: string)

  datatype World = World(limiter: Limiter, clock: Instant, log: seq<Entry>, inFlight: map<nat, Login>)

  const START := World(Limiter(map[], map[]), 0, [], map[])

  /**
   `Probe` is the check at the start of `sign`; the login goes in flight unless it is blocked. `Fail`
   and `Succeed` end a login; `accounts` and `ips` are what eviction left of the two maps. `Abort` is a
   login whose verification never answers, which touches the limiter no more.
   */
  datatype Event =
    | Probe(id: nat, login: Login, now: Instant)
    | Fail(id: nat, now: Instant, accounts: map<string, Bucket>, ips: map<string, IpBucket>)
    | Succeed(id: nat)
    | Abort(id: nat)

  ghost predicate Enabled(w: World, e: Event) {
    match e
    case Probe(id, _, now) => id !in w.inFlight && w.clock <= now
    case Fail(id, now, a, p) =>
      id in w.inFlight && w.clock <= now && Evicts(w.limiter.byAccount, a, Itself, now) && Evicts(w.limiter.byIp, p, At, now)
    case Succeed(id) => id in w.inFlight
    case Abort(id) => id in w.inFlight
  }

  /// The full log

  function AccountCleared(e: Entry, gone: set<string>): Entry {
    if e.account in gone then e.(forAccount := false) else e
  }

  function IpCleared(e: Entry, gone: set<string>): Entry {
    if e.ip in gone then e.(forIp := false) else e
  }

  /** The log after buckets were thrown away. */
  function Forget(log: seq<Entry>, accounts: set<string>, ips: set<string>): seq<Entry> {
    if log == [] then []
    else
      Forget(log[..|log| - 1], accounts, ips) + [IpCleared(AccountCleared(log[|log| - 1], accounts), ips)]
  }

  /** The log after `account` signed in from `ip`. */
  function Forgive(log: seq<Entry>, account: string, ip: string): seq<Entry> {
    if log == [] then []
    else
      var e := log[|log| - 1];
      Forgive(log[..|log| - 1], account, ip)
      + [if e.account != account then e else e.(forAccount := false, forIp := e.forIp && e.ip != ip)]
  }

  /** The standing failures of an account. */
  function OfAccount(log: seq<Entry>, account: string): Bucket {
    if log == [] then []
    else
      var e := log[|log| - 1];
      var kept := OfAccount(log[..|log| - 1], account);
      if e.account == account && e.forAccount then kept + [e.at] else kept
  }

  /** The standing failures of an address. */
  function OfIp(log: seq<Entry>, ip: string): IpBucket {
    if log == [] then []
    else
      var e := log[|log| - 1];
      var kept := OfIp(log[..|log| - 1], ip);
      if e.ip == ip && e.forIp then kept + [Failure(e.account, e.at)] else kept
  }

  /** The live buckets that idle eviction removed. */
  function Evicted<E>(m: map<string, seq<E>>, m': map<string, seq<E>>, at: E -> Instant, now: Instant): set<string> {
    Pruned(m, at, now).Keys - m'.Keys
  }

  /// Steps and runs

  ghost function Apply(w: World, e: Event): World
    requires Enabled(w, e)
  {
    match e
    case Probe(id, l, now) =>
      World(Checked(w.limiter, l.username, l.ip, now), now, w.log,
            if Blocked(w.limiter, l.username, l.ip, now) then w.inFlight else w.inFlight[id := l])
    case Fail(id, now, a, p) =>
      var l := w.inFlight[id];
      World(Recorded(a, p, l.username, l.ip, now), now,
            Forget(w.log, Evicted(w.limiter.byAccount, a, Itself, now), Evicted(w.limiter.byIp, p, At, now))
            + [Entry(Lower(l.username), l.ip, now, true, true)],
            w.inFlight - {id})
    case Succeed(id) =>
      var l := w.inFlight[id];
      World(Cleared(w.limiter, l.username, l.ip), w.clock, Forgive(w.log, Lower(l.username), l.ip), w.inFlight - {id})
    case Abort(id) =>
      w.(inFlight := w.inFlight - {id})
  }

  ghost function Next(w: World, e: Event): Option<World> {
    if Enabled(w, e) then Some(Apply(w, e)) else None
  }

  /** The run ends in `w`. */
  ghost predicate Ends(es: seq<Event>, w: World) {
    After(START, Next, es) == Some(w)
  }

  /// At most k logins in flight

  datatype Key = ByAccount(account: string) | ByIp(ip: string)

  predicate Concerns(l: Login, k: Key) {
    match k
    case ByAccount(a) => Lower(l.username) == a
    case ByIp(i) => l.ip == i
  }

  function Flights(inFlight: map<nat, Login>, k: Key): set<nat> {
    set id | id in inFlight && Concerns(inFlight[id], k)
  }

  function InFlight(w: World, k: Key): nat {
    |Flights(w.inFlight, k)|
  }

  function Load(s: Limiter, k: Key): nat {
    match k
    case ByAccount(a) => |Lookup(s.byAccount, a)|
    case ByIp(i) => |Lookup(s.byIp, i)|
  }

  /** Every state of the run has at most `most` logins in flight for this account or address. */
  ghost predicate Crowd(es: seq<Event>, k: Key, most: nat) {
    Always(START, Next, (w: World) => InFlight(w, k) <= most, es)
  }

  lemma EvictShrinks<E>(m: map<string, seq<E>>, m': map<string, seq<E>>, at: E -> Instant, now: Instant, key: string)
    requires Evicts(m, m', at, now)
    ensures |Lookup(m', key)| <= |Lookup(m, key)|
  {
    if key in m' && |m| > MAX_BUCKETS {
      assert m'[key] == Pruned(m, at, now)[key];
    }
  }

  lemma WithoutShorter(b: IpBucket, account: string)
    ensures |WithoutAccount(b, account)| <= |b|
  {
    if b != [] {
      WithoutShorter(b[..|b| - 1], account);
    }
  }

  lemma Leaves(f: map<nat, Login>, id: nat, k: Key)
    requires id in f
    ensures |Flights(f, k)| == |Flights(f - {id}, k)| + (if Concerns(f[id], k) then 1 else 0)
  {
    if Concerns(f[id], k) {
      assert Flights(f, k) == Flights(f - {id}, k) + {id};
    } else {
      assert Flights(f, k) == Flights(f - {id}, k);
    }
  }

  lemma ProbeLoad(w: World, e: Event, k: Key, most: nat)
    requires e.Probe? && Enabled(w, e) && InFlight(Apply(w, e), k) <= most
    requires Load(w.limiter, k) + InFlight(w, k) <= MAX_FAILURES - 1 + most
    ensures var w' := Apply(w, e);
            Load(w'.limiter, k) + InFlight(w', k) <= MAX_FAILURES - 1 + most
  {
    var w' := Apply(w, e);
    assert Load(w'.limiter, k) <= Load(w.limiter, k);
    if Blocked(w.limiter, e.login.username, e.login.ip, e.now) {
      assert InFlight(w', k) == InFlight(w, k);
    } else if Concerns(e.login, k) {
      assert Load(w'.limiter, k) <= MAX_FAILURES - 1;
    } else {
      assert Flights(w'.inFlight, k) == Flights(w.inFlight, k);
    }
  }

  lemma SucceedLoad(w: World, e: Event, k: Key)
    requires e.Succeed? && Enabled(w, e)
    ensures var w' := Apply(w, e);
            Load(w'.limiter, k) + InFlight(w', k) <= Load(w.limiter, k) + InFlight(w, k)
  {
    Leaves(w.inFlight, e.id, k);
    if k.ByIp? && k.ip in w.limiter.byIp {
      WithoutShorter(w.limiter.byIp[k.ip], Lower(w.inFlight[e.id].username));
    }
  }

  lemma {:induction false} LoadInvariant(es: seq<Event>, w: World, k: Key, most: nat)
    requires Ends(es, w) && 1 <= most && Crowd(es, k, most)
    ensures Load(w.limiter, k) + InFlight(w, k) <= MAX_FAILURES - 1 + most
  {
    if es == [] {
      assert Flights(START.inFlight, k) == {};
    } else {
      var w0, e := Before(START, Next, es, w);
      LoadInvariant(es[..|es| - 1], w0, k, most);
      match e
      case Probe(_, _, _) => ProbeLoad(w0, e, k, most);
      case Fail(_, _, _, _) =>
        assert var w' := Apply(w0, e);
            Load(w'.limiter, k) + InFlight(w', k) <= Load(w0.limiter, k) + InFlight(w0, k) by {
          Leaves(w0.inFlight, e.id, k);
          match k
          case ByAccount(a) => EvictShrinks(w0.limiter.byAccount, e.accounts, Itself, e.now, a);
          case ByIp(i) => EvictShrinks(w0.limiter.byIp, e.ips, At, e.now, i);
        }
      case Succeed(_) => SucceedLoad(w0, e, k);
      case Abort(id) => Leaves(w0.inFlight, id, k);
    }
  }

  /**
   However logins interleave, if at most `most` of them for one account (or one address) are ever in
   flight together, its bucket never holds more than `MAX_FAILURES + most - 1` failures. One at a
   time, that is `MAX_FAILURES`.
   */
  lemma InterleavedLoginsBounded(es: seq<Event>, w: World, k: Key, most: nat)
    requires Ends(es, w) && 1 <= most && Crowd(es, k, most)
    ensures Load(w.limiter, k) <= MAX_FAILURES + most - 1
  {
    LoadInvariant(es, w, k, most);
  }

  /** Every state of the run has at most `most` logins in flight in all. */
  ghost predicate AtMost(es: seq<Event>, most: nat) {
    Always(START, Next, (w: World) => |w.inFlight| <= most, es)
  }

  /** With at most `most` logins in flight in all, no bucket ever holds more. */
  lemma AllLoginsBounded(es: seq<Event>, w: World, k: Key, most: nat)
    requires Ends(es, w) && 1 <= most && AtMost(es, most)
    ensures Load(w.limiter, k) <= MAX_FAILURES + most - 1
  {
    forall x: World
      ensures InFlight(x, k) <= |x.inFlight|
    {
      Subset(Flights(x.inFlight, k), x.inFlight.Keys);
    }
    AlwaysWeaken(START, Next, (x: World) => |x.inFlight| <= most, (x: World) => InFlight(x, k) <= most, es);
    InterleavedLoginsBounded(es, w, k, most);
  }

  /// The bound is reached

  lemma AllRecent<E>(b: seq<E>, at: E -> Instant)
    requires forall i :: 0 <= i < |b| ==> at(b[i]) == 0
    ensures Recent(b, at, 0) == b
  {
    if b != [] {
      var front, e := b[..|b| - 1], b[|b| - 1];
      AllRecent(front, at);
      assert IsRecent(0, at(e)) && front + [e] == b;
    }
  }

  /** `n` failures of one login at the same instant. */
  function Pile(l: Login, n: nat): Limiter {
    if n == 0 then Limiter(map[], map[])
    else Limiter(map[Lower(l.username) := Repeat<Instant>(0, n)], map[l.ip := Repeat(Failure(Lower(l.username), 0), n)])
  }

  function Copies(l: Login, flying: nat): (r: map<nat, Login>)
    ensures |r| == flying && forall id :: id in r <==> 0 <= id < flying
  {
    if flying == 0 then map[] else Copies(l, flying - 1)[flying - 1 := l]
  }

  function PileLog(l: Login, n: nat): seq<Entry> {
    if n == 0 then [] else PileLog(l, n - 1) + [Entry(Lower(l.username), l.ip, 0, true, true)]
  }

  /** The pile with `flying` more attempts of the same login in flight. */
  function PileWorld(l: Login, n: nat, flying: nat): World {
    World(Pile(l, n), 0, PileLog(l, n), Copies(l, flying))
  }

  lemma PileGrows(l: Login, n: nat)
    ensures var s := Pile(l, n);
            Checked(s, l.username, l.ip, 0) == s && Recorded(s.byAccount, s.byIp, l.username, l.ip, 0) == Pile(l, n + 1)
  {
    hide Recent, Lower;
    AllRecent(Repeat<Instant>(0, n), Itself);
    AllRecent(Repeat(Failure(Lower(l.username), 0), n), At);
    RepeatMore<Instant>(0, n + 1);
    RepeatMore(Failure(Lower(l.username), 0), n + 1);
  }

  lemma PileBlocked(l: Login, n: nat)
    ensures Blocked(Pile(l, n), l.username, l.ip, 0) <==> n >= MAX_FAILURES
  {
    AllRecent(Repeat<Instant>(0, n), Itself);
    AllRecent(Repeat(Failure(Lower(l.username), 0), n), At);
  }

  lemma PileProbe(l: Login, n: nat, flying: nat)
    requires n < MAX_FAILURES
    ensures Next(PileWorld(l, n, flying), Probe(flying, l, 0)) == Some(PileWorld(l, n, flying + 1))
  {
    PileGrows(l, n);
    PileBlocked(l, n);
  }

  lemma ForgetNothing(log: seq<Entry>)
    ensures Forget(log, {}, {}) == log
  {
  }

  lemma NothingEvicted<E>(m: map<string, seq<E>>, at: E -> Instant, now: Instant)
    requires |m| <= 1
    ensures Evicts(m, m, at, now) && Evicted(m, m, at, now) == {}
  {
  }

  /** The last of `flying` attempts fails; there is nothing to evict. */
  function PileFailure(l: Login, n: nat, flying: nat): Event {
    Fail(if flying > 0 then flying - 1 else 0, 0, Pile(l, n).byAccount, Pile(l, n).byIp)
  }

  lemma PileMayFail(l: Login, n: nat, f: nat)
    requires f > 0
    ensures Next(PileWorld(l, n, f), PileFailure(l, n, f)) != None
  {
    NothingEvicted(Pile(l, n).byAccount, Itself, 0);
    NothingEvicted(Pile(l, n).byIp, At, 0);
  }

  lemma FailNext(w: World, e: Event, w': World)
    requires e.Fail? && Next(w, e) != None
    requires var l := w.inFlight[e.id];
             && w'.limiter == Recorded(e.accounts, e.ips, l.username, l.ip, e.now)
             && w'.clock == e.now
             && w'.log == Forget(w.log, Evicted(w.limiter.byAccount, e.accounts, Itself, e.now),
                                 Evicted(w.limiter.byIp, e.ips, At, e.now))
                          + [Entry(Lower(l.username), l.ip, e.now, true, true)]
             && w'.inFlight == w.inFlight - {e.id}
    ensures Next(w, e) == Some(w')
  {
  }

  lemma PileFail(l: Login, n: nat, f: nat, m: nat, g: nat)
    requires m == n + 1 && f == g + 1
    ensures Next(PileWorld(l, n, f), PileFailure(l, n, f)) == Some(PileWorld(l, m, g))
  {
    var w, e, w' := PileWorld(l, n, f), PileFailure(l, n, f), PileWorld(l, m, g);
    PileMayFail(l, n, f);
    assert e.id == g && w.inFlight == Copies(l, f);
    assert w.inFlight[g] == l && w'.inFlight == w.inFlight - {g} by {
      LastCopy(l, f);
    }
    assert w'.limiter == Recorded(e.accounts, e.ips, l.username, l.ip, 0) by {
      PileGrows(l, n);
    }
    assert w'.log == Forget(w.log, Evicted(w.limiter.byAccount, e.accounts, Itself, 0), Evicted(w.limiter.byIp, e.ips, At, 0))
                     + [Entry(Lower(l.username), l.ip, 0, true, true)] by {
      NothingEvicted(Pile(l, n).byAccount, Itself, 0);
      NothingEvicted(Pile(l, n).byIp, At, 0);
      ForgetNothing(PileLog(l, n));
    }
    FailNext(w, e, w');
  }

  lemma LastCopy(l: Login, flying: nat)
    requires 0 < flying
    ensures flying - 1 in Copies(l, flying) && Copies(l, flying)[flying - 1] == l
    ensures Copies(l, flying) - {flying - 1} == Copies(l, flying - 1)
  {
  }

  /** With `n` failures down and `f` attempts up, one more goes up while `n < limit`. */
  ghost predicate GoesUp<S, E>(next: (S, E) -> Option<S>, at: (nat, nat) -> S, up: (nat, nat) -> E, limit: nat, most: nat) {
    forall n: nat, f: nat, g: nat :: n < limit && g == f + 1 <= most ==> next(at(n, f), up(n, f)) == Some(at(n, g))
  }

  ghost predicate ComesDown<S, E>(next: (S, E) -> Option<S>, at: (nat, nat) -> S, down: (nat, nat) -> E, most: nat) {
    forall n: nat, f: nat, m: nat, g: nat :: m == n + 1 && f == g + 1 <= most ==> next(at(n, f), down(n, f)) == Some(at(m, g))
  }

  ghost predicate Within<S>(p: S -> bool, at: (nat, nat) -> S, most: nat) {
    forall n: nat, f: nat :: f <= most ==> p(at(n, f))
  }

  /** The race in the abstract: `limit - 1` attempts go one by one, then `most` go up before any comes down. */
  lemma Race<S, E>(start: S, next: (S, E) -> Option<S>, p: S -> bool, at: (nat, nat) -> S,
                   up: (nat, nat) -> E, down: (nat, nat) -> E, limit: nat, most: nat) returns (r: seq<E>)
    requires at(0, 0) == start && 1 <= limit && 1 <= most
    requires Within(p, at, most) && GoesUp(next, at, up, limit, most) && ComesDown(next, at, down, most)
    ensures After(start, next, r) == Some(at(limit - 1 + most, 0)) && Always(start, next, p, r)
  {
    r := OneByOne(start, next, p, at, up, down, limit, most, limit - 1);
    r := Chain(start, next, p, r, (f: nat) => at(limit - 1, f), (f: nat) => up(limit - 1, f), most);
    r := AllDown(start, next, p, at, down, limit - 1, most, most, r);
  }

  lemma {:induction false} OneByOne<S, E>(start: S, next: (S, E) -> Option<S>, p: S -> bool, at: (nat, nat) -> S,
                       up: (nat, nat) -> E, down: (nat, nat) -> E, limit: nat, most: nat, n: nat) returns (r: seq<E>)
    requires at(0, 0) == start && 1 <= most && n < limit
    requires Within(p, at, most) && GoesUp(next, at, up, limit, most) && ComesDown(next, at, down, most)
    ensures After(start, next, r) == Some(at(n, 0)) && Always(start, next, p, r)
  {
    r := [];
    if n > 0 {
      r := OneByOne(start, next, p, at, up, down, limit, most, n - 1);
      AlwaysOne(start, next, p, r, at(n - 1, 0), up(n - 1, 0), at(n - 1, 1));
      r := r + [up(n - 1, 0)];
      AlwaysOne(start, next, p, r, at(n - 1, 1), down(n - 1, 1), at(n, 0));
      r := r + [down(n - 1, 1)];
    }
  }

  lemma {:induction false} AllDown<S, E>(start: S, next: (S, E) -> Option<S>, p: S -> bool, at: (nat, nat) -> S,
                      down: (nat, nat) -> E, n: nat, f: nat, most: nat, es: seq<E>) returns (r: seq<E>)
    requires After(start, next, es) == Some(at(n, f)) && Always(start, next, p, es)
    requires f <= most && Within(p, at, most) && ComesDown(next, at, down, most)
    ensures After(start, next, r) == Some(at(n + f, 0)) && Always(start, next, p, r)
    decreases f
  {
    r := es;
    if f > 0 {
      AlwaysOne(start, next, p, es, at(n, f), down(n, f), at(n + 1, f - 1));
      r := AllDown(start, next, p, at, down, n + 1, f - 1, most, es + [down(n, f)]);
    }
  }

  ghost function PileAt(l: Login): (nat, nat) -> World {
    (n: nat, f: nat) => PileWorld(l, n, f)
  }

  ghost function UpAt(l: Login): (nat, nat) -> Event {
    (n: nat, f: nat) => Probe(f, l, 0)
  }

  ghost function DownAt(l: Login): (nat, nat) -> Event {
    (n: nat, f: nat) => PileFailure(l, n, f)
  }

  lemma PileGoesUp(l: Login, most: nat)
    ensures GoesUp(Next, PileAt(l), UpAt(l), MAX_FAILURES, most)
  {
    forall n: nat, f: nat, g: nat | n < MAX_FAILURES && g == f + 1 <= most
      ensures Next(PileAt(l)(n, f), UpAt(l)(n, f)) == Some(PileAt(l)(n, g))
    {
      PileProbe(l, n, f);
    }
  }

  lemma PileComesDown(l: Login, most: nat)
    ensures ComesDown(Next, PileAt(l), DownAt(l), most)
  {
    forall n: nat, f: nat, m: nat, g: nat | m == n + 1 && f == g + 1 <= most
      ensures Next(PileAt(l)(n, f), DownAt(l)(n, f)) == Some(PileAt(l)(m, g))
    {
      PileFail(l, n, f, m, g);
    }
  }

  /** That bound is exact: for every `most` some run with no more in flight attains it, on both maps. */
  lemma BoundIsAttained(l: Login, most: nat) returns (es: seq<Event>, w: World)
    requires 1 <= most
    ensures Ends(es, w) && AtMost(es, most)
    ensures Load(w.limiter, ByAccount(Lower(l.username))) == MAX_FAILURES + most - 1
    ensures Load(w.limiter, ByIp(l.ip)) == MAX_FAILURES + most - 1
  {
    PileGoesUp(l, most);
    PileComesDown(l, most);
    es := Race(START, Next, (w: World) => |w.inFlight| <= most, PileAt(l), UpAt(l), DownAt(l), MAX_FAILURES, most);
    w := PileWorld(l, MAX_FAILURES - 1 + most, 0);
  }

  /// The verdict is that of the full log

  lemma RecentAppend<E>(b: seq<E>, e: E, at: E -> Instant, now: Instant)
    ensures Recent(b + [e], at, now) == if IsRecent(now, at(e)) then Recent(b, at, now) + [e] else Recent(b, at, now)
  {
    assert (b + [e])[..|b|] == b;
  }

  lemma RecentTwice<E>(b: seq<E>, at: E -> Instant, before: Instant, now: Instant)
    requires before <= now
    ensures Recent(Recent(b, at, before), at, now) == Recent(b, at, now)
  {
  }

  lemma WithoutAppend(b: IpBucket, f: Failure, account: string)
    ensures WithoutAccount(b + [f], account) == if f.account != account then WithoutAccount(b, account) + [f] else WithoutAccount(b, account)
  {
    assert (b + [f])[..|b|] == b;
  }

  lemma WithoutRecent(b: IpBucket, account: string, now: Instant)
    ensures Recent(WithoutAccount(b, account), At, now) == WithoutAccount(Recent(b, At, now), account)
  {
  }

  lemma {:induction false} ForgetOf(log: seq<Entry>, accounts: set<string>, ips: set<string>, account: string, ip: string)
    ensures var log' := Forget(log, accounts, ips);
            && OfAccount(log', account) == (if account in accounts then [] else OfAccount(log, account))
            && OfIp(log', ip) == (if ip in ips then [] else OfIp(log, ip))
  {
    if log != [] {
      ForgetOf(log[..|log| - 1], accounts, ips, account, ip);
      var log' := Forget(log, accounts, ips);
      assert log'[..|log'| - 1] == Forget(log[..|log| - 1], accounts, ips);
    }
  }

  lemma ForgiveOf(log: seq<Entry>, cleared: string, from: string, account: string, ip: string)
    ensures var log' := Forgive(log, cleared, from);
            && OfAccount(log', account) == (if account == cleared then [] else OfAccount(log, account))
            && OfIp(log', ip) == (if ip == from then WithoutAccount(OfIp(log, ip), cleared) else OfIp(log, ip))
  {
  }

  lemma OfAppend(log: seq<Entry>, e: Entry, account: string, ip: string)
    ensures OfAccount(log + [e], account)
         == if e.account == account && e.forAccount then OfAccount(log, account) + [e.at] else OfAccount(log, account)
    ensures OfIp(log + [e], ip) == if e.ip == ip && e.forIp then OfIp(log, ip) + [Failure(e.account, e.at)] else OfIp(log, ip)
  {
    assert (log + [e])[..|log|] == log;
  }

  /** The account's failures that count at this time are the same in its bucket and in the log. */
  ghost predicate AccountAgrees(w: World, account: string, now: Instant) {
    Recent(Lookup(w.limiter.byAccount, account), Itself, now) == Recent(OfAccount(w.log, account), Itself, now)
  }

  ghost predicate IpAgrees(w: World, ip: string, now: Instant) {
    Recent(Lookup(w.limiter.byIp, ip), At, now) == Recent(OfIp(w.log, ip), At, now)
  }

  /** One bucket when a failure is recorded: `standing` is what the log holds for it. */
  lemma RecordedRecent<E>(m: map<string, seq<E>>, m': map<string, seq<E>>, standing: seq<E>, added: string, e: E,
                          at: E -> Instant, before: Instant, now: Instant, key: string)
    requires Evicts(m, m', at, before) && before <= now && Recent(Lookup(m, key), at, now) == Recent(standing, at, now)
    ensures var left := if key in Evicted(m, m', at, before) then [] else standing;
            Recent(Lookup(Added(m', added, e, at, before), key), at, now)
            == Recent(if key == added then left + [e] else left, at, now)
  {
    var left := if key in Evicted(m, m', at, before) then [] else standing;
    assert Recent(Lookup(m', key), at, now)
         == (if key in Evicted(m, m', at, before) then [] else Recent(Lookup(m, key), at, now)) by {
      RecentTwice(Lookup(m, key), at, before, now);
      if key in m' && |m| > MAX_BUCKETS {
        assert m'[key] == Pruned(m, at, before)[key];
      }
    }
    assert Recent(Lookup(Added(m', added, e, at, before), key), at, now)
         == Recent(if key == added then Lookup(m', key) + [e] else Lookup(m', key), at, now) by {
      if key == added {
        RecentTwice(Lookup(m', key), at, before, now);
        RecentAppend(Recent(Lookup(m', key), at, before), e, at, now);
        RecentAppend(Lookup(m', key), e, at, now);
      }
    }
    RecentAppend(Lookup(m', key), e, at, now);
    RecentAppend(left, e, at, now);
  }

  lemma FailAgrees(w: World, e: Event, account: string, ip: string, now: Instant)
    requires e.Fail? && Enabled(w, e) && AccountAgrees(w, account, now) && IpAgrees(w, ip, now) && e.now <= now
    ensures AccountAgrees(Apply(w, e), account, now) && IpAgrees(Apply(w, e), ip, now)
  {
    var l := w.inFlight[e.id];
    var gone, goneIps := Evicted(w.limiter.byAccount, e.accounts, Itself, e.now), Evicted(w.limiter.byIp, e.ips, At, e.now);
    ForgetOf(w.log, gone, goneIps, account, ip);
    OfAppend(Forget(w.log, gone, goneIps), Entry(Lower(l.username), l.ip, e.now, true, true), account, ip);
    RecordedRecent(w.limiter.byAccount, e.accounts, OfAccount(w.log, account), Lower(l.username), e.now, Itself, e.now, now, account);
    RecordedRecent(w.limiter.byIp, e.ips, OfIp(w.log, ip), l.ip, Failure(Lower(l.username), e.now), At, e.now, now, ip);
  }

  lemma SucceedAgrees(w: World, e: Event, account: string, ip: string, now: Instant)
    requires e.Succeed? && Enabled(w, e) && AccountAgrees(w, account, now) && IpAgrees(w, ip, now)
    ensures AccountAgrees(Apply(w, e), account, now) && IpAgrees(Apply(w, e), ip, now)
  {
    var l := w.inFlight[e.id];
    var w' := Apply(w, e);
    ForgiveOf(w.log, Lower(l.username), l.ip, account, ip);
    if ip == l.ip {
      WithoutRecent(Lookup(w.limiter.byIp, ip), Lower(l.username), now);
      WithoutRecent(OfIp(w.log, ip), Lower(l.username), now);
      assert Lookup(w'.limiter.byIp, ip) == WithoutAccount(Lookup(w.limiter.byIp, ip), Lower(l.username));
    } else {
      assert Lookup(w'.limiter.byIp, ip) == Lookup(w.limiter.byIp, ip);
    }
  }

  lemma {:induction false} LogAgrees(es: seq<Event>, w: World, account: string, ip: string, now: Instant)
    requires Ends(es, w) && w.clock <= now
    ensures AccountAgrees(w, account, now) && IpAgrees(w, ip, now)
  {
    if es != [] {
      var w0, e := Before(START, Next, es, w);
      LogAgrees(es[..|es| - 1], w0, account, ip, now);
      match e
      case Probe(_, _, _) =>
        assert AccountAgrees(Apply(w0, e), account, now) && IpAgrees(Apply(w0, e), ip, now) by {
          RecentTwice(Lookup(w0.limiter.byAccount, account), Itself, e.now, now);
          RecentTwice(Lookup(w0.limiter.byIp, ip), At, e.now, now);
        }
      case Fail(_, _, _, _) => FailAgrees(w0, e, account, ip, now);
      case Succeed(_) => SucceedAgrees(w0, e, account, ip, now);
      case Abort(_) =>
    }
  }

  /** Two spellings of one name: equal but for the case of ASCII letters. */
  predicate Alike(a: string, b: string) {
    |a| == |b| && forall i :: 0 <= i < |a| ==> SameLetter(a[i], b[i])
  }

  predicate SameLetter(c: char, d: char) {
    c == d || ('A' <= c <= 'Z' && d as int == c as int + 32) || ('A' <= d <= 'Z' && c as int == d as int + 32)
  }

  /** Names share their bucket exactly when they are spellings of one name. */
  lemma {:induction false} LowerExactly(a: string, b: string)
    ensures Lower(a) == Lower(b) <==> Alike(a, b)
  {
    if a != "" && b != "" {
      LowerExactly(a[1..], b[1..]);
      assert Lower(a)[1..] == Lower(a[1..]) && Lower(b)[1..] == Lower(b[1..]);
      assert Alike(a, b) <==> SameLetter(a[0], b[0]) && Alike(a[1..], b[1..]) by {
        assert forall i :: 0 < i < |a| ==> a[i] == a[1..][i - 1];
        assert forall i :: 0 < i < |b| ==> b[i] == b[1..][i - 1];
      }
    }
  }

  lemma LowerTwice(s: string)
    ensures Lower(Lower(s)) == Lower(s)
  {
  }

  ghost predicate Lowered(log: seq<Entry>) {
    forall i :: 0 <= i < |log| ==> Lower(log[i].account) == log[i].account
  }

  lemma ForgetAccounts(log: seq<Entry>, accounts: set<string>, ips: set<string>)
    ensures |Forget(log, accounts, ips)| == |log|
    ensures forall i :: 0 <= i < |log| ==> Forget(log, accounts, ips)[i].account == log[i].account
  {
  }

  lemma ForgiveAccounts(log: seq<Entry>, account: string, ip: string)
    ensures |Forgive(log, account, ip)| == |log|
    ensures forall i :: 0 <= i < |log| ==> Forgive(log, account, ip)[i].account == log[i].account
  {
  }

  lemma {:induction false} LogLowered(es: seq<Event>, w: World)
    requires Ends(es, w)
    ensures Lowered(w.log)
  {
    if es != [] {
      var w0, e := Before(START, Next, es, w);
      LogLowered(es[..|es| - 1], w0);
      assert Lowered(Apply(w0, e).log) by {
        match e
        case Fail(id, now, a, p) =>
          ForgetAccounts(w0.log, Evicted(w0.limiter.byAccount, a, Itself, now), Evicted(w0.limiter.byIp, p, At, now));
          LowerTwice(w0.inFlight[id].username);
        case Succeed(id) => ForgiveAccounts(w0.log, Lower(w0.inFlight[id].username), w0.inFlight[id].ip);
        case _ =>
      }
    }
  }

  /** How many entries of the log satisfy `p`. */
  function Count(log: seq<Entry>, p: Entry -> bool): nat {
    |set i: nat | i < |log| && p(log[i])|
  }

  lemma CountNext(log: seq<Entry>, e: Entry, p: Entry -> bool)
    ensures Count(log + [e], p) == Count(log, p) + if p(e) then 1 else 0
  {
    var all := log + [e];
    assert (set i: nat | i < |all| && p(all[i])) == (set i: nat | i < |log| && p(log[i])) + if p(e) then {|log|} else {};
  }

  /** A failure of the last fifteen minutes, in nanoseconds, that stands for an account under any spelling of it. */
  function ForAccount(username: string, now: Instant): Entry -> bool {
    (e: Entry) => e.forAccount && Alike(e.account, username) && now - e.at < 900_000_000_000
  }

  /** And one that stands for an address. */
  function ForIp(ip: string, now: Instant): Entry -> bool {
    (e: Entry) => e.forIp && e.ip == ip && now - e.at < 900_000_000_000
  }

  lemma {:induction false} Counted(log: seq<Entry>, username: string, ip: string, now: Instant)
    requires Lowered(log)
    ensures |Recent(OfAccount(log, Lower(username)), Itself, now)| == Count(log, ForAccount(username, now))
    ensures |Recent(OfIp(log, ip), At, now)| == Count(log, ForIp(ip, now))
  {
    if log != [] {
      var rest, e := log[..|log| - 1], log[|log| - 1];
      assert rest + [e] == log;
      Counted(rest, username, ip, now);
      LowerExactly(e.account, username);
      OfAppend(rest, e, Lower(username), ip);
      CountNext(rest, e, ForAccount(username, now));
      CountNext(rest, e, ForIp(ip, now));
      RecentAppend(OfAccount(rest, Lower(username)), e.at, Itself, now);
      RecentAppend(OfIp(rest, ip), Failure(e.account, e.at), At, now);
    }
  }

  /**
   After any run, `check` blocks exactly when the full log, which nothing is ever pruned from, holds
   at least five failures of the last fifteen minutes for the account, under any spelling of its name,
   or for the address that no successful login cleared and no idle eviction discarded.
   */
  lemma VerdictOfTheFullLog(es: seq<Event>, w: World, username: string, ip: string, now: Instant)
    requires Ends(es, w) && w.clock <= now
    ensures Blocked(w.limiter, username, ip, now) <==> Count(w.log, ForAccount(username, now)) >= 5 || Count(w.log, ForIp(ip, now)) >= 5
  {
    LogAgrees(es, w, Lower(username), ip, now);
    LogLowered(es, w);
    Counted(w.log, username, ip, now);
  }

  /** The limiter cannot tell one spelling of a name from another, whether it checks, records or clears. */
  lemma SpellingsAlike(s: Limiter, a: string, b: string, ip: string, now: Instant, accounts: map<string, Bucket>, ips: map<string, IpBucket>)
    requires Alike(a, b)
    ensures Blocked(s, a, ip, now) <==> Blocked(s, b, ip, now)
    ensures Checked(s, a, ip, now) == Checked(s, b, ip, now) && Cleared(s, a, ip) == Cleared(s, b, ip)
    ensures Recorded(accounts, ips, a, ip, now) == Recorded(accounts, ips, b, ip, now)
  {
    LowerExactly(a, b);
  }

  function FailuresOf(b: IpBucket, account: string): IpBucket {
    if b == [] then []
    else
      var kept := FailuresOf(b[..|b| - 1], account);
      if b[|b| - 1].account == account then kept + [b[|b| - 1]] else kept
  }

  lemma WithoutOthers(b: IpBucket, account: string, other: string)
    ensures FailuresOf(WithoutAccount(b, account), other) == if other == account then [] else FailuresOf(b, other)
  {
  }

  /** A successful login clears its own failures at its address and keeps every other account's, in order. */
  lemma ClearKeepsOthers(s: Limiter, username: string, ip: string, other: string, address: string)
    ensures var s' := Cleared(s, username, ip);
            && FailuresOf(Lookup(s'.byIp, address), other)
               == (if other == Lower(username) && address == ip then [] else FailuresOf(Lookup(s.byIp, address), other))
            && Lookup(s'.byAccount, other) == (if other == Lower(username) then [] else Lookup(s.byAccount, other))
  {
    WithoutOthers(Lookup(s.byIp, address), Lower(username), other);
  }

  /// Sizes and fairness of eviction

  /** The bucket is in time order and no later than `until`. */
  predicate Ordered<E>(b: seq<E>, at: E -> Instant, until: Instant) {
    b == [] || (at(b[|b| - 1]) <= until && Ordered(b[..|b| - 1], at, at(b[|b| - 1])))
  }

  lemma OrderedLater<E>(b: seq<E>, at: E -> Instant, until: Instant, later: Instant)
    requires Ordered(b, at, until) && until <= later
    ensures Ordered(b, at, later)
  {
  }

  lemma OrderedAppend<E>(b: seq<E>, at: E -> Instant, e: E)
    requires Ordered(b, at, at(e))
    ensures Ordered(b + [e], at, at(e))
  {
    assert (b + [e])[..|b|] == b;
  }

  lemma RecentOrdered<E>(b: seq<E>, at: E -> Instant, until: Instant, now: Instant)
    requires Ordered(b, at, until)
    ensures Ordered(Recent(b, at, now), at, until)
  {
  }

  lemma WithoutOrdered(b: IpBucket, account: string, until: Instant)
    requires Ordered(b, At, until)
    ensures Ordered(WithoutAccount(b, account), At, until)
  {
  }

  lemma OrderedLast<E>(b: seq<E>, at: E -> Instant, until: Instant, i: nat)
    requires Ordered(b, at, until) && i < |b|
    ensures at(b[i]) <= LastFailure(b, at) <= until
  {
  }

  lemma AddedOrdered<E>(m: map<string, seq<E>>, m': map<string, seq<E>>, added: string, e: E, at: E -> Instant, until: Instant, now: Instant, key: string)
    requires Ordered(Lookup(m, key), at, until) && until <= now && at(e) == now && Evicts(m, m', at, now)
    ensures Ordered(Lookup(Added(m', added, e, at, now), key), at, now)
  {
    OrderedLater(Lookup(m, key), at, until, now);
    RecentOrdered(Lookup(m, key), at, now, now);
    if key in m' && |m| > MAX_BUCKETS {
      assert m'[key] == Pruned(m, at, now)[key];
    }
    RecentOrdered(Lookup(m', key), at, now, now);
    OrderedAppend(Recent(Lookup(m', key), at, now), at, e);
  }

  /** Every bucket stays in time order, as the clock never goes back. */
  lemma {:induction false} BucketsOrdered(es: seq<Event>, w: World, account: string, ip: string)
    requires Ends(es, w)
    ensures Ordered(Lookup(w.limiter.byAccount, account), Itself, w.clock)
    ensures Ordered(Lookup(w.limiter.byIp, ip), At, w.clock)
  {
    if es != [] {
      var w0, e := Before(START, Next, es, w);
      BucketsOrdered(es[..|es| - 1], w0, account, ip);
      StepOrdered(w0, e, account, ip);
    }
  }

  lemma StepOrdered(w: World, e: Event, account: string, ip: string)
    requires Enabled(w, e)
    requires Ordered(Lookup(w.limiter.byAccount, account), Itself, w.clock) && Ordered(Lookup(w.limiter.byIp, ip), At, w.clock)
    ensures var w' := Apply(w, e);
            Ordered(Lookup(w'.limiter.byAccount, account), Itself, w'.clock) && Ordered(Lookup(w'.limiter.byIp, ip), At, w'.clock)
  {
    var b, p := Lookup(w.limiter.byAccount, account), Lookup(w.limiter.byIp, ip);
    match e
    case Probe(_, _, now) =>
      OrderedLater(b, Itself, w.clock, now);
      OrderedLater(p, At, w.clock, now);
      RecentOrdered(b, Itself, now, now);
      RecentOrdered(p, At, now, now);
    case Fail(id, now, accounts, ips) =>
      var l := w.inFlight[id];
      AddedOrdered(w.limiter.byAccount, accounts, Lower(l.username), now, Itself, w.clock, now, account);
      AddedOrdered(w.limiter.byIp, ips, l.ip, Failure(Lower(l.username), now), At, w.clock, now, ip);
    case Succeed(id) => WithoutOrdered(p, Lower(w.inFlight[id].username), w.clock);
    case Abort(_) =>
  }

  /** What eviction leaves and what it takes, once the buckets of the map are in time order. */
  lemma FairEviction<E>(m: map<string, seq<E>>, m': map<string, seq<E>>, at: E -> Instant, clock: Instant, now: Instant,
                        gone: string, kept: string, i: nat)
    requires Evicts(m, m', at, now) && clock <= now && gone in Evicted(m, m', at, now) && kept in m' && i < |m[gone]|
    requires Ordered(m[gone], at, clock)
    ensures m'[kept] != [] && at(m[gone][i]) <= LastFailure(m'[kept], at)
  {
    OrderedLast(m[gone], at, clock, i);
    LastStaysRecent(m[gone], at, clock, now);
    assert kept in Pruned(m, at, now);
  }

  /**
   Whatever a run has done, recording a failure evicts live buckets of a map only when there are more
   than 10000; three quarters of those remain, and no failure in an evicted bucket is later than the
   last one of any survivor.
   */
  lemma EvictionIsFair(es: seq<Event>, w: World, e: Event, gone: string, kept: string, i: nat)
    requires Ends(es, w) && e.Fail? && Enabled(w, e)
    ensures gone in Evicted(w.limiter.byAccount, e.accounts, Itself, e.now) ==>
              |Pruned(w.limiter.byAccount, Itself, e.now)| > 10_000 && |e.accounts| == 7_500
    ensures gone in Evicted(w.limiter.byIp, e.ips, At, e.now) ==>
              |Pruned(w.limiter.byIp, At, e.now)| > 10_000 && |e.ips| == 7_500
    ensures gone in Evicted(w.limiter.byAccount, e.accounts, Itself, e.now) && kept in e.accounts
            && i < |w.limiter.byAccount[gone]| ==>
            && e.accounts[kept] != []
            && w.limiter.byAccount[gone][i] <= LastFailure(e.accounts[kept], Itself)
    ensures gone in Evicted(w.limiter.byIp, e.ips, At, e.now) && kept in e.ips && i < |w.limiter.byIp[gone]| ==>
            && e.ips[kept] != []
            && w.limiter.byIp[gone][i].at <= LastFailure(e.ips[kept], At)
  {
    BucketsOrdered(es, w, gone, gone);
    if gone in Evicted(w.limiter.byAccount, e.accounts, Itself, e.now) && kept in e.accounts && i < |w.limiter.byAccount[gone]| {
      FairEviction(w.limiter.byAccount, e.accounts, Itself, w.clock, e.now, gone, kept, i);
    }
    if gone in Evicted(w.limiter.byIp, e.ips, At, e.now) && kept in e.ips && i < |w.limiter.byIp[gone]| {
      FairEviction(w.limiter.byIp, e.ips, At, w.clock, e.now, gone, kept, i);
    }
  }

  lemma {:induction false} LastStaysRecent<E>(b: seq<E>, at: E -> Instant, until: Instant, now: Instant)
    requires Ordered(b, at, until) && until <= now && Recent(b, at, now) != []
    ensures LastFailure(Recent(b, at, now), at) == LastFailure(b, at)
  {
    var e := b[|b| - 1];
    if !IsRecent(now, at(e)) {
      LastStaysRecent(b[..|b| - 1], at, at(e), now);
      var r := Recent(b, at, now);
      RecentLast(b[..|b| - 1], at, now);
    }
  }

  lemma RecentLast<E>(b: seq<E>, at: E -> Instant, now: Instant)
    requires Recent(b, at, now) != []
    ensures IsRecent(now, LastFailure(Recent(b, at, now), at))
  {
    if !IsRecent(now, at(b[|b| - 1])) {
      RecentLast(b[..|b| - 1], at, now);
    }
  }

  lemma EvictedSize<E>(m: map<string, seq<E>>, m': map<string, seq<E>>, at: E -> Instant, now: Instant, added: string, e: E)
    requires Evicts(m, m', at, now)
    ensures |Added(m', added, e, at, now)| <= MAX_BUCKETS + 1
  {
    var r := Added(m', added, e, at, now);
    assert r.Keys == m'.Keys + {added};
  }

  lemma ProbedSize<E>(m: map<string, seq<E>>, key: string, at: E -> Instant, now: Instant)
    ensures |Probed(m, key, at, now)| == |m|
  {
    assert Probed(m, key, at, now).Keys == m.Keys;
  }

  /** Neither map ever holds more than `MAX_BUCKETS + 1` buckets. */
  lemma {:induction false} MapsBounded(es: seq<Event>, w: World)
    requires Ends(es, w)
    ensures |w.limiter.byAccount| <= MAX_BUCKETS + 1 && |w.limiter.byIp| <= MAX_BUCKETS + 1
  {
    if es != [] {
      var w0, e := Before(START, Next, es, w);
      MapsBounded(es[..|es| - 1], w0);
      var s := w0.limiter;
      match e
      case Probe(_, l, now) =>
        ProbedSize(s.byAccount, Lower(l.username), Itself, now);
        ProbedSize(s.byIp, l.ip, At, now);
      case Fail(id, now, accounts, ips) =>
        var l := w0.inFlight[id];
        EvictedSize(s.byAccount, accounts, Itself, now, Lower(l.username), now);
        EvictedSize(s.byIp, ips, At, now, l.ip, Failure(Lower(l.username), now));
      case Succeed(_) =>
        assert w.limiter.byAccount.Keys == s.byAccount.Keys && w.limiter.byIp.Keys == s.byIp.Keys;
      case Abort(_) =>
    }
  }

  lemma LowerLength(s: string)
    ensures |Lower(s)| == |s|
  {
    if s != "" {
      LowerLength(s[1..]);
    }
  }

  /** `n` accounts with one failure each, from `n` addresses, all with keys shorter than `n`. */
  ghost predicate Spread(w: World, n: nat) {
    && w.clock == 0 && w.inFlight == map[]
    && |w.limiter.byAccount| == n == |w.limiter.byIp|
    && (forall k :: k in w.limiter.byAccount ==> |k| < n)
    && (forall k :: k in w.limiter.byIp ==> |k| < n)
  }

  function Name(n: nat): (r: string)
    ensures |r| == n
  {
    if n == 0 then "" else Name(n - 1) + "a"
  }

  lemma SpreadOne(w: World, n: nat) returns (probe: Event, w1: World, fail: Event, w2: World)
    requires Spread(w, n) && n <= MAX_BUCKETS
    ensures Next(w, probe) == Some(w1) && Next(w1, fail) == Some(w2) && Spread(w2, n + 1)
  {
    LowerLength(Name(n));
    probe := Probe(0, Login(Name(n), Name(n)), 0);
    assert !Blocked(w.limiter, Name(n), Name(n), 0);
    w1 := Apply(w, probe);
    assert w1.limiter == w.limiter;
    fail := Fail(0, 0, w.limiter.byAccount, w.limiter.byIp);
    w2 := Apply(w1, fail);
    assert w2.limiter.byAccount.Keys == w.limiter.byAccount.Keys + {Lower(Name(n))};
    assert w2.limiter.byIp.Keys == w.limiter.byIp.Keys + {Name(n)};
  }

  lemma {:induction false} SpreadOut(n: nat) returns (es: seq<Event>, w: World)
    requires n <= MAX_BUCKETS + 1
    ensures Ends(es, w) && Spread(w, n)
  {
    if n == 0 {
      es, w := [], START;
    } else {
      var w0, probe, w1, fail;
      es, w0 := SpreadOut(n - 1);
      probe, w1, fail, w := SpreadOne(w0, n - 1);
      AfterOne(START, Next, es, w0, probe, w1);
      AfterOne(START, Next, es + [probe], w1, fail, w);
      es := es + [probe] + [fail];
    }
  }

  /** The one over is real: eviction runs before the insertion, so a run fills both maps past their cap. */
  lemma CapIsPassedByOne() returns (es: seq<Event>, w: World)
    ensures Ends(es, w) && |w.limiter.byAccount| == |w.limiter.byIp| == MAX_BUCKETS + 1
  {
    es, w := SpreadOut(MAX_BUCKETS + 1);
  }
}
