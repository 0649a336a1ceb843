/** Every run of issuing, consuming and purging tickets while users, sessions and the clock go their own way. */
module SseRuns {
  import AccountRuns
  import opened Accounts
  import opened Runs
  import opened SseTickets
  import opened Wrappers

  /** What a ticket was issued as. */
  datatype Grant = Grant(identity: StreamIdentity, stream: string, expiresAt: int, issuedAt: Instant)

  datatype Redemption = Redemption(ticket: string, stream: string, identity: StreamIdentity, at: Instant)

  datatype World = World(db: Db, tickets: Tickets, clock: Instant, grants: map<string, Grant>, redeemed: seq<Redemption>)

  /**
   `Elsewhere` is any change of the account tables; a deleted user's tickets go with the row.
   An identifier is drawn afresh for every issue.
   */
  datatype Event =
    | Issue(identity: StreamIdentity, stream: string, ttl: int, jti: string, t: Readings)
    | Consume(ticket: string, stream: string, now: Instant, validated: Instant)
    | PurgeStale(now: Instant)
    | Elsewhere(db: Db)

  function Cascaded(tickets: Tickets, db: Db): Tickets {
    map j | j in tickets && tickets[j].identity.userId in db.users :: tickets[j]
  }

  function Step(w: World, e: Event): Option<World> {
    match e
    case Issue(i, stream, ttl, jti, t) =>
      if !(Ordered(t) && w.clock <= t.validated) || jti in w.grants then None
      else
        var tickets := Issued(w.db, w.tickets, i, stream, ttl, jti, t);
        var grants := if IssueVerdict(w.db, w.tickets, i, stream, jti, t).Ok?
                      then w.grants[jti := Grant(i, stream, Seconds(t.issued) + Clamp(ttl), t.issued)] else w.grants;
        Some(w.(tickets := tickets, clock := t.counted, grants := grants))
    case Consume(ticket, stream, now, validated) =>
      if !(w.clock <= now <= validated) then None
      else
        var verdict := ConsumeVerdict(w.db, w.tickets, ticket, stream, now, validated);
        var redeemed := if verdict.Ok? then w.redeemed + [Redemption(ticket, stream, verdict.value, now)] else w.redeemed;
        Some(w.(tickets := Consumed(w.db, w.tickets, ticket, stream, now, validated), clock := validated, redeemed := redeemed))
    case PurgeStale(now) =>
      if now < w.clock then None else Some(w.(tickets := Fresh(w.tickets, now), clock := now))
    case Elsewhere(db) => Some(w.(db := db, tickets := Cascaded(w.tickets, db)))
  }

  const START := World(Db(map[], map[]), map[], 0, map[], [])

  /// Redeemed once, on its own stream, in time, as the same identity

  /** Each ticket in the table is as it was granted; a redeemed one is spent or gone. */
  ghost predicate Accounted(w: World) {
    && (forall j :: j in w.tickets ==>
          var t := w.tickets[j];
          j in w.grants && w.grants[j] == Grant(t.identity, t.stream, t.expiresAt, w.grants[j].issuedAt))
    && (forall k :: 0 <= k < |w.redeemed| ==>
          var r := w.redeemed[k];
          r.ticket in w.grants && (r.ticket in w.tickets ==> w.tickets[r.ticket].consumedAt.Some?))
  }

  /** What every redemption was. */
  ghost predicate Proper(w: World) {
    && (forall k :: 0 <= k < |w.redeemed| ==> ProperOne(w.grants, w.redeemed[k]))
    && (forall i, k :: 0 <= i < k < |w.redeemed| ==> w.redeemed[i].ticket != w.redeemed[k].ticket)
  }

  predicate ProperOne(grants: map<string, Grant>, r: Redemption) {
    && r.ticket in grants
    && grants[r.ticket].stream == r.stream == MONITOR_STREAM
    && grants[r.ticket].identity == r.identity
    && Seconds(r.at) < grants[r.ticket].expiresAt
  }

  ghost predicate OnMonitor(w: World) {
    forall j :: j in w.grants ==>
      w.grants[j].stream == MONITOR_STREAM && 5 <= w.grants[j].expiresAt - Seconds(w.grants[j].issuedAt) <= 60
  }

  ghost predicate Good(w: World) {
    Accounted(w) && Proper(w) && OnMonitor(w)
  }

  lemma GoodIssue(w: World, e: Event, w': World)
    requires e.Issue? && Step(w, e) == Some(w') && Good(w)
    ensures Good(w')
  {
  }

  lemma GoodConsume(w: World, e: Event, w': World)
    requires e.Consume? && Step(w, e) == Some(w') && Good(w)
    ensures Good(w')
  {
  }

  lemma GoodOther(w: World, e: Event, w': World)
    requires (e.PurgeStale? || e.Elsewhere?) && Step(w, e) == Some(w') && Good(w)
    ensures Good(w')
  {
  }

  lemma {:induction false} GoodRun(es: seq<Event>, w: World)
    requires After(START, Step, es) == Some(w)
    ensures Good(w)
  {
    if es != [] {
      var w0, e := Before(START, Step, es, w);
      GoodRun(es[..|es| - 1], w0);
      match e
      case Issue(_, _, _, _, _) => GoodIssue(w0, e, w);
      case Consume(_, _, _, _) => GoodConsume(w0, e, w);
      case PurgeStale(_) => GoodOther(w0, e, w);
      case Elsewhere(_) => GoodOther(w0, e, w);
    }
  }

  /**
   In every run a ticket is redeemed at most once, for the stream it was issued for, strictly before
   it expires and within a minute of its issue, and the answer is the identity it was issued to.
   */
  lemma RedeemedOnceInTime(es: seq<Event>, w: World, i: nat, k: nat)
    requires After(START, Step, es) == Some(w) && i <= k < |w.redeemed|
    ensures ProperOne(w.grants, w.redeemed[k]) && w.redeemed[k].stream == "monitor"
    ensures w.redeemed[k].at < w.grants[w.redeemed[k].ticket].issuedAt + 60_000_000_000
    ensures w.redeemed[i].ticket == w.redeemed[k].ticket ==> i == k
  {
    GoodRun(es, w);
    var r, g := w.redeemed[k], w.grants[w.redeemed[k].ticket];
    assert Seconds(r.at) < Seconds(g.issuedAt) + 60;
  }

  /** A redemption also means that the identity was still good; otherwise nothing at all changed. */
  lemma RedeemedWhileGood(w: World, e: Event, w': World)
    requires e.Consume? && Step(w, e) == Some(w')
    ensures if w'.redeemed == w.redeemed then w' == w.(clock := e.validated)
            else && |w'.redeemed| == |w.redeemed| + 1
                 && StillGood(w.db, w'.redeemed[|w.redeemed|].identity, e.validated)
                 && w.db.users[w'.redeemed[|w.redeemed|].identity.userId].mayMonitor
  {
  }

  /// Never after a revocation

  /** The session of the identity is revoked, or not there, or not its user's. */
  predicate SessionGone(db: Db, i: StreamIdentity) {
    i.sessionHash in db.sessions ==>
      db.sessions[i.sessionHash].userId != i.userId || db.sessions[i.sessionHash].revokedAt.Some?
  }

  /** No ticket of the identity can be redeemed. */
  predicate Spoiled(db: Db, i: StreamIdentity) {
    SessionGone(db, i) || (i.userId in db.users && db.users[i.userId].tokenVersion > i.tokenVersion)
  }

  /** What changes of the account tables keep: a session that is gone stays so, and versions only grow. */
  predicate Onward(db: Db, db': Db, i: StreamIdentity) {
    && (SessionGone(db, i) || i.userId !in db'.users ==> SessionGone(db', i))
    && (i.userId in db.users && i.userId in db'.users ==>
          SessionGone(db', i) || db.users[i.userId].tokenVersion <= db'.users[i.userId].tokenVersion)
  }

  /** Every change of the account tables in the run is such a one. */
  ghost predicate Orderly(w: World, es: seq<Event>, i: StreamIdentity) {
    es != [] ==>
      var front, e := es[..|es| - 1], es[|es| - 1];
      && Orderly(w, front, i)
      && (e.Elsewhere? && After(w, Step, front).Some? ==> Onward(After(w, Step, front).value.db, e.db, i))
  }

  lemma SpoiledStep(w: World, e: Event, w': World, i: StreamIdentity)
    requires Step(w, e) == Some(w') && Spoiled(w.db, i) && (e.Elsewhere? ==> Onward(w.db, e.db, i))
    ensures Spoiled(w'.db, i)
    ensures w'.redeemed == w.redeemed
            || (|w'.redeemed| == |w.redeemed| + 1 && w'.redeemed[..|w.redeemed|] == w.redeemed && w'.redeemed[|w.redeemed|].identity != i)
  {
  }

  /** A ticket of a spoiled identity is never redeemed, whenever it was issued. */
  lemma {:induction false} SpoiledNeverRedeemed(w: World, es: seq<Event>, w': World, i: StreamIdentity)
    requires After(w, Step, es) == Some(w') && Orderly(w, es, i) && Spoiled(w.db, i)
    ensures Spoiled(w'.db, i) && |w.redeemed| <= |w'.redeemed|
    ensures forall k :: |w.redeemed| <= k < |w'.redeemed| ==> w'.redeemed[k].identity != i
  {
    if es != [] {
      var w0, e := Before(w, Step, es, w');
      SpoiledNeverRedeemed(w, es[..|es| - 1], w0, i);
      SpoiledStep(w0, e, w', i);
    }
  }

  lemma LoginOnward(a: AccountRuns.World, e: AccountRuns.Event, a': AccountRuns.World, i: StreamIdentity)
    requires AccountRuns.OfLogin(e) && AccountRuns.StepLogin(a, e) == Some(a')
    requires AccountRuns.Minted(a) && AccountRuns.Minted(a') && i.sessionHash in a.issued
    ensures Onward(a.db, a'.db, i) && i.sessionHash in a'.issued
  {
  }

  lemma AdminOnward(a: AccountRuns.World, e: AccountRuns.Event, a': AccountRuns.World, i: StreamIdentity)
    requires AccountRuns.OfAdmin(e) && AccountRuns.StepAdmin(a, e) == Some(a')
    requires AccountRuns.Minted(a) && AccountRuns.Minted(a') && i.sessionHash in a.issued
    ensures Onward(a.db, a'.db, i) && i.sessionHash in a'.issued
  {
  }

  lemma SessionOnward(a: AccountRuns.World, e: AccountRuns.Event, a': AccountRuns.World, i: StreamIdentity)
    requires !AccountRuns.OfLogin(e) && !AccountRuns.OfAdmin(e) && AccountRuns.StepSession(a, e) == Some(a')
    requires AccountRuns.Minted(a) && AccountRuns.Minted(a') && i.sessionHash in a.issued
    ensures Onward(a.db, a'.db, i) && i.sessionHash in a'.issued
  {
  }

  lemma OnwardOnward(d0: Db, d1: Db, d2: Db, i: StreamIdentity)
    requires Onward(d0, d1, i) && Onward(d1, d2, i)
    ensures Onward(d0, d2, i)
  {
  }

  /** Whatever users and administrators do changes the account tables in such a way, once the session's identifier was drawn. */
  lemma {:induction false} AccountsOnward(before: seq<AccountRuns.Event>, a: AccountRuns.World, es: seq<AccountRuns.Event>,
                                          a': AccountRuns.World, i: StreamIdentity)
    requires After(AccountRuns.START, AccountRuns.Step, before) == Some(a) && After(a, AccountRuns.Step, es) == Some(a')
    requires i.sessionHash in a.issued
    ensures Onward(a.db, a'.db, i) && i.sessionHash in a'.issued && AccountRuns.Minted(a')
  {
    AccountRuns.MintedRun(before, a);
    if es != [] {
      var a0, e := Before(a, AccountRuns.Step, es, a');
      AccountsOnward(before, a, es[..|es| - 1], a0, i);
      AccountRuns.MintedStep(a0, e, a');
      if AccountRuns.OfLogin(e) {
        LoginOnward(a0, e, a', i);
      } else if AccountRuns.OfAdmin(e) {
        AdminOnward(a0, e, a', i);
      } else {
        SessionOnward(a0, e, a', i);
      }
      OnwardOnward(a.db, a0.db, a'.db, i);
    }
  }

  /**
   A ticket dies with its token: after a logout, a password change or reset, a deletion or a disabling
   update, no ticket issued to an identity with such a token is ever redeemed, whenever it was issued.
   */
  lemma TicketDiesWithItsToken(before: seq<AccountRuns.Event>, a: AccountRuns.World, e: AccountRuns.Event, a': AccountRuns.World,
                               token: nat, expires: int, w: World, es: seq<Event>, w': World)
    requires After(AccountRuns.START, AccountRuns.Step, before) == Some(a) && AccountRuns.Step(a, e) == Some(a') && token in a.tokens
    requires var userId := a.tokens[token].userId;
             userId in a.db.users && (AccountRuns.EndsSessions(a, e, userId) || e == AccountRuns.Logout(token))
    requires w.db == a'.db && After(w, Step, es) == Some(w') && Orderly(w, es, IdentityOf(a.tokens[token], expires))
    ensures |w.redeemed| <= |w'.redeemed|
    ensures forall k :: |w.redeemed| <= k < |w'.redeemed| ==> w'.redeemed[k].identity != IdentityOf(a.tokens[token], expires)
  {
    AccountRuns.MintedRun(before, a);
    AccountRuns.EndsAll(a, e, a', a.tokens[token].userId, token);
    SpoiledNeverRedeemed(w, es, w', IdentityOf(a.tokens[token], expires));
  }

  /** The stream identity of an access token. */
  function IdentityOf(c: Claims, expires: int): StreamIdentity {
    StreamIdentity(c.userId, c.jti, c.ver, expires)
  }

  /// At most ten live tickets

  lemma SecondsMonotone(now: Instant, later: Instant)
    requires now <= later
    ensures Seconds(now) <= Seconds(later)
  {
  }

  lemma {:induction false} LiveBounded(es: seq<Event>, w: World, userId: int)
    requires After(START, Step, es) == Some(w)
    ensures |LiveOf(w.tickets, userId, w.clock)| <= 10
  {
    if es == [] {
      assert LiveOf(START.tickets, userId, START.clock) == {};
    } else {
      var w0, e := Before(START, Step, es, w);
      LiveBounded(es[..|es| - 1], w0, userId);
      if e.Issue? {
        assert |LiveOf(w.tickets, userId, w.clock)| <= MAX_LIVE_TICKETS_PER_USER by {
          SecondsMonotone(w0.clock, e.t.purged);
          SecondsMonotone(e.t.purged, e.t.counted);
          var kept := Fresh(w0.tickets, e.t.purged);
          if IssueVerdict(w0.db, w0.tickets, e.identity, e.stream, e.jti, e.t).Ok? && userId == e.identity.userId {
            var live := LiveOf(kept, userId, e.t.counted);
            Subset(LiveOf(w.tickets, userId, w.clock), live + {e.jti});
          } else {
            Subset(LiveOf(w.tickets, userId, w.clock), LiveOf(w0.tickets, userId, w0.clock));
          }
        }
      } else {
        SecondsMonotone(w0.clock, w.clock);
        Subset(LiveOf(w.tickets, userId, w.clock), LiveOf(w0.tickets, userId, w0.clock));
      }
    }
  }

  /** No user ever holds more than ten tickets that are neither consumed nor expired. */
  lemma AtMostTenLive(es: seq<Event>, w: World, userId: int, held: set<string>)
    requires After(START, Step, es) == Some(w)
    requires forall j :: j in held ==> && j in w.tickets && w.tickets[j].identity.userId == userId && w.tickets[j].consumedAt == None
                                       && w.tickets[j].expiresAt > w.clock / 1_000_000_000
    ensures |held| <= 10
  {
    LiveBounded(es, w, userId);
    Subset(held, LiveOf(w.tickets, userId, w.clock));
  }

  /// Purging is unobservable

  /** The same world, but for spent and expired tickets, which the second may lack. */
  ghost predicate Alike(w: World, p: World) {
    && p == w.(tickets := p.tickets)
    && (forall j :: j in p.tickets ==> j in w.tickets && p.tickets[j] == w.tickets[j])
    && (forall j :: j in w.tickets && j !in p.tickets ==> !IsLive(w.tickets[j], w.clock))
  }

  lemma AlikeIssue(w: World, p: World, e: Event, w': World)
    requires Alike(w, p) && e.Issue? && Step(w, e) == Some(w')
    ensures Step(p, e).Some? && Alike(w', Step(p, e).value)
    ensures IssueVerdict(p.db, p.tickets, e.identity, e.stream, e.jti, e.t) == IssueVerdict(w.db, w.tickets, e.identity, e.stream, e.jti, e.t)
  {
    SecondsMonotone(w.clock, e.t.purged);
    SecondsMonotone(w.clock, e.t.counted);
    assert Fresh(p.tickets, e.t.purged) == Fresh(w.tickets, e.t.purged);
  }

  lemma AlikeConsume(w: World, p: World, e: Event, w': World)
    requires Alike(w, p) && e.Consume? && Step(w, e) == Some(w')
    ensures Step(p, e).Some? && Alike(w', Step(p, e).value)
    ensures ConsumeVerdict(p.db, p.tickets, e.ticket, e.stream, e.now, e.validated)
         == ConsumeVerdict(w.db, w.tickets, e.ticket, e.stream, e.now, e.validated)
  {
    SecondsMonotone(w.clock, e.now);
    SecondsMonotone(w.clock, e.validated);
  }

  lemma AlikeOther(w: World, p: World, e: Event, w': World)
    requires Alike(w, p) && (e.PurgeStale? || e.Elsewhere?) && Step(w, e) == Some(w')
    ensures Step(p, e).Some? && Alike(w', Step(p, e).value)
  {
    if e.PurgeStale? {
      SecondsMonotone(w.clock, e.now);
      assert Fresh(p.tickets, e.now) == Fresh(w.tickets, e.now);
    }
  }

  lemma {:induction false} AlikeRun(w: World, p: World, es: seq<Event>, w': World) returns (p': World)
    requires Alike(w, p) && After(w, Step, es) == Some(w')
    ensures After(p, Step, es) == Some(p') && Alike(w', p')
  {
    if es == [] {
      p' := p;
    } else {
      var w0, e := Before(w, Step, es, w');
      var p0 := AlikeRun(w, p, es[..|es| - 1], w0);
      if e.Issue? {
        AlikeIssue(w0, p0, e, w');
      } else if e.Consume? {
        AlikeConsume(w0, p0, e, w');
      } else {
        AlikeOther(w0, p0, e, w');
      }
      p' := Step(p0, e).value;
    }
  }

  /**
   A purge may be put anywhere in a run, at any instant: the rest of the run goes the same way, with
   the same tickets granted and the same redemptions, and what is left in the tables differs only in
   tickets that no one can use.
   */
  lemma PurgeAnywhere(w: World, now: Instant, es: seq<Event>, w': World) returns (p': World)
    requires w.clock <= now && After(w.(clock := now), Step, es) == Some(w')
    ensures After(w.(tickets := Fresh(w.tickets, now), clock := now), Step, es) == Some(p')
    ensures Alike(w', p')
  {
    p' := AlikeRun(w.(clock := now), w.(tickets := Fresh(w.tickets, now), clock := now), es, w');
  }

  /** Nor does purging expired sessions change what `validate_identity` answers, even at the same instant. */
  lemma SessionPurgeUnobservable(db: Db, i: StreamIdentity, now: Instant, dayNow: Instant, later: Instant)
    requires now <= later
    ensures IdentityVerdict(Purged(db, now, dayNow), i, later) == IdentityVerdict(db, i, later)
  {
    SecondsMonotone(now, later);
  }
}
