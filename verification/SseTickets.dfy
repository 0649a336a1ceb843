/**
 The one-time tickets of the event stream, src/service/sse_tickets.rs: issued to a validated session,
 consumed once for their own stream, and re-validated when they are.
 */
module SseTickets {
  import opened Accounts
  import opened Sqlite
  import opened Wrappers

  const MONITOR_STREAM: string := "monitor"
  const MAX_LIVE_TICKETS_PER_USER: nat := 10

  datatype StreamIdentity = StreamIdentity(userId: int, sessionHash: string, tokenVersion: int, accessExpires: int)

  datatype Ticket = Ticket(identity: StreamIdentity, stream: string, expiresAt: int, consumedAt: Option<nat>)

  type Tickets = map<string, Ticket>

  /// validate_identity

  /** The join of `validate_identity`: user and session rows as they were when the token was issued. */
  predicate StillGood(db: Db, i: StreamIdentity, now: Instant) {
    && i.userId in db.users
    && var u := db.users[i.userId];
    && u.status == 0 && !u.mustChange && u.tokenVersion == i.tokenVersion
    && i.sessionHash in db.sessions
    && var s := db.sessions[i.sessionHash];
    && s.userId == i.userId && s.revokedAt.None? && s.expiresAt > Seconds(now) && i.accessExpires > Seconds(now)
  }

  function IdentityVerdict(db: Db, i: StreamIdentity, now: Instant): Result<(), CommonError> {
    if !StillGood(db, i, now) then Err(Unauthorized)
    else if !db.users[i.userId].mayMonitor then Err(Forbidden)
    else Ok(())
  }

  function ErrorOf<R>(r: Result<R, CommonError>): Option<CommonError> {
    if r.Err? then Some(r.error) else None
  }

  /// The table

  predicate IsLive(t: Ticket, now: Instant) {
    t.consumedAt.None? && t.expiresAt > Seconds(now)
  }

  function Fresh(tickets: Tickets, now: Instant): Tickets {
    map j | j in tickets && IsLive(tickets[j], now) :: tickets[j]
  }

  function LiveOf(tickets: Tickets, userId: int, now: Instant): set<string> {
    set j | j in tickets && tickets[j].identity.userId == userId && IsLive(tickets[j], now)
  }

  /** The tickets that an issue counts: unconsumed, and expired neither when it purges nor when it counts. */
  function LiveAt(tickets: Tickets, userId: int, t: Readings): (live: set<string>)
    ensures live == LiveOf(Fresh(tickets, t.purged), userId, t.counted)
  {
    set j | j in tickets && tickets[j].identity.userId == userId && tickets[j].consumedAt == None
            && tickets[j].expiresAt > t.purged / 1_000_000_000 && tickets[j].expiresAt > t.counted / 1_000_000_000
  }

  function Clamp(ttl: int): int {
    if ttl < 5 then 5 else if ttl > 60 then 60 else ttl
  }

  /** The readings of the clock that one issue makes, in order. */
  datatype Readings = Readings(validated: Instant, issued: Instant, purged: Instant, counted: Instant)

  predicate Ordered(t: Readings) {
    t.validated <= t.issued <= t.purged <= t.counted
  }

  /** What `issue_ticket` answers. */
  function IssueVerdict(db: Db, tickets: Tickets, i: StreamIdentity, stream: string, jti: string, t: Readings): Result<(), CommonError> {
    if IdentityVerdict(db, i, t.validated).Err? then IdentityVerdict(db, i, t.validated)
    else if stream != MONITOR_STREAM then Err(BadRequest)
    else
      var kept := Fresh(tickets, t.purged);
      if |LiveOf(kept, i.userId, t.counted)| >= MAX_LIVE_TICKETS_PER_USER then Err(TooManyRequests)
      else if jti in kept then Err(ServiceUnavailable)
      else Ok(())
  }

  /** And what it leaves: on success the live tickets and the new one, else nothing has changed. */
  function Issued(db: Db, tickets: Tickets, i: StreamIdentity, stream: string, ttl: int, jti: string, t: Readings): Tickets {
    if IssueVerdict(db, tickets, i, stream, jti, t).Err? then tickets
    else Fresh(tickets, t.purged)[jti := Ticket(i, stream, Seconds(t.issued) + Clamp(ttl), None)]
  }

  /** What `consume_ticket` answers: only a ticket live on its own stream is looked at further. */
  function ConsumeVerdict(db: Db, tickets: Tickets, ticket: string, stream: string, now: Instant, validated: Instant)
    : Result<StreamIdentity, CommonError>
  {
    if ticket !in tickets || !IsLive(tickets[ticket], now) then Err(Unauthorized)
    else if tickets[ticket].stream != stream then Err(Forbidden)
    else
      match IdentityVerdict(db, tickets[ticket].identity, validated)
      case Err(e) => Err(e)
      case Ok(_) => Ok(tickets[ticket].identity)
  }

  function Consumed(db: Db, tickets: Tickets, ticket: string, stream: string, now: Instant, validated: Instant): Tickets {
    if ConsumeVerdict(db, tickets, ticket, stream, now, validated).Err? then tickets
    else tickets[ticket := tickets[ticket].(consumedAt := Some(Seconds(now)))]
  }

  /// The same over a connection, statement by statement

  /** The tables the tickets depend on. */
  datatype Store = Store(db: Db, tickets: Tickets)

  method ValidateIdentity(conn: Connection<Store>, i: StreamIdentity, now: Instant) returns (r: Result<(), CommonError>)
    modifies conn`statements
    ensures r.Ok? ==> IdentityVerdict(conn.Current().db, i, now).Ok?
    ensures conn.Sound() ==> r == IdentityVerdict(conn.Current().db, i, now)
    ensures var db, seconds := conn.Current().db, now / 1_000_000_000;
            var good := && i.userId in db.users && i.sessionHash in db.sessions
                        && db.users[i.userId].status == 0 && !db.users[i.userId].mustChange
                        && db.users[i.userId].tokenVersion == i.tokenVersion
                        && db.sessions[i.sessionHash].userId == i.userId && db.sessions[i.sessionHash].revokedAt == None
                        && db.sessions[i.sessionHash].expiresAt > seconds && i.accessExpires > seconds;
            && (r.Ok? ==> good && db.users[i.userId].mayMonitor)
            && (conn.Sound() ==> r == if !good then Err(Unauthorized) else if !db.users[i.userId].mayMonitor then Err(Forbidden) else Ok(()))
  {
    var ok := conn.Attempt();
    if !ok {
      return Err(ServiceUnavailable);
    }
    if !StillGood(conn.Current().db, i, now) {
      return Err(Unauthorized);
    }
    ok := conn.Attempt();
    if !ok {
      return Err(ServiceUnavailable);
    }
    if !conn.Current().db.users[i.userId].mayMonitor {
      return Err(Forbidden);
    }
    r := Ok(());
  }

  method PurgeStale(conn: Connection<Store>, now: Instant) returns (r: Result<nat, CommonError>)
    modifies conn
    ensures conn.Since(old(conn.durable), old(conn.working), old(conn.trail))
    ensures conn.Current() == if r.Ok? then old(conn.Current()).(tickets := Fresh(old(conn.Current()).tickets, now)) else old(conn.Current())
    ensures r.Ok? ==> r.value == |old(conn.Current()).tickets| - |conn.Current().tickets|
    ensures r.Ok? ==>
              var was, left := old(conn.Current()).tickets, conn.Current().tickets;
              && (forall j :: j in left ==> j in was && left[j] == was[j])
              && (forall j :: j in was ==> (j in left <==> was[j].consumedAt == None && was[j].expiresAt > now / 1_000_000_000))
    ensures conn.Sound() ==> r.Ok?
  {
    var ok := conn.Attempt();
    if !ok {
      return Err(ServiceUnavailable);
    }
    var tickets := conn.Current().tickets;
    var kept := Fresh(tickets, now);
    Subset(kept.Keys, tickets.Keys);
    r := Ok(|tickets| - |kept|);
    conn.Write(conn.Current().(tickets := kept));
  }

  method IssueBody(conn: Connection<Store>, i: StreamIdentity, stream: string, ttl: int, jti: string, t: Readings)
    returns (r: Result<(string, int), CommonError>)
    modifies conn
    ensures conn.Since(old(conn.durable), old(conn.working), old(conn.trail))
    ensures var was := old(conn.Current());
            && (r.Ok? ==> && r.value == (jti, Clamp(ttl)) && IssueVerdict(was.db, was.tickets, i, stream, jti, t).Ok?
                          && conn.Current() == was.(tickets := Issued(was.db, was.tickets, i, stream, ttl, jti, t)))
            && (conn.Sound() && r.Err? ==> IssueVerdict(was.db, was.tickets, i, stream, jti, t) == Err(r.error))
  {
    var valid := ValidateIdentity(conn, i, t.validated);
    if valid.Err? {
      return Err(valid.error);
    }
    if stream != MONITOR_STREAM {
      return Err(BadRequest);
    }
    var expiresAt := Seconds(t.issued) + Clamp(ttl);
    var purged := PurgeStale(conn, t.purged);
    if purged.Err? {
      return Err(purged.error);
    }
    var ok := conn.Attempt();
    if !ok {
      return Err(ServiceUnavailable);
    }
    var tickets := conn.Current().tickets;
    if |LiveOf(tickets, i.userId, t.counted)| >= MAX_LIVE_TICKETS_PER_USER {
      return Err(TooManyRequests);
    }
    ok := conn.Attempt();
    if !ok || jti in tickets {
      return Err(ServiceUnavailable);
    }
    conn.Write(conn.Current().(tickets := tickets[jti := Ticket(i, stream, expiresAt, None)]));
    r := Ok((jti, Clamp(ttl)));
  }

  /** `issue_ticket` in its immediate transaction; an error also undoes the purge inside it. */
  method IssueTicket(conn: Connection<Store>, i: StreamIdentity, stream: string, ttl: int, jti: string, t: Readings)
    returns (r: Result<(string, int), CommonError>)
    requires conn.working == None
    modifies conn
    ensures var was := old(conn.durable);
            && (r.Ok? ==> && r.value == (jti, Clamp(ttl)) && IssueVerdict(was.db, was.tickets, i, stream, jti, t).Ok?
                          && conn.durable == was.(tickets := Issued(was.db, was.tickets, i, stream, ttl, jti, t))
                          && conn.trail == old(conn.trail) + [conn.durable])
            && (r.Err? ==> conn.durable == was && conn.trail == old(conn.trail))
            && (conn.Sound() && r.Err? ==> IssueVerdict(was.db, was.tickets, i, stream, jti, t) == Err(r.error))
    ensures r.Ok? ==>
              var was, left := old(conn.durable), conn.durable;
              && stream == "monitor" && IdentityVerdict(was.db, i, t.validated).Ok? && left.db == was.db
              && r.value == (jti, if ttl < 5 then 5 else if ttl <= 60 then ttl else 60)
              && jti in left.tickets && left.tickets[jti] == Ticket(i, stream, t.issued / 1_000_000_000 + r.value.1, None)
              && (forall j :: j in left.tickets - {jti} ==> j in was.tickets && left.tickets[j] == was.tickets[j])
              && (forall j :: j in was.tickets - {jti} ==>
                    (j in left.tickets <==> was.tickets[j].consumedAt == None && was.tickets[j].expiresAt > t.purged / 1_000_000_000))
              && |LiveAt(was.tickets, i.userId, t)| < 10
    ensures conn.Sound() && r.Err? ==>
              var was := old(conn.durable);
              r.error == match IdentityVerdict(was.db, i, t.validated)
                         case Err(e) => e
                         case Ok(_) =>
                           if stream != "monitor" then BadRequest
                           else if |LiveAt(was.tickets, i.userId, t)| >= 10 then TooManyRequests
                           else ServiceUnavailable
  {
    var ok := conn.Begin();
    if !ok {
      return Err(ServiceUnavailable);
    }
    r := IssueBody(conn, i, stream, ttl, jti, t);
    ok := Finish(conn, r.Ok?);
    if r.Ok? && !ok {
      r := Err(ServiceUnavailable);
    }
  }

  method ConsumeBody(conn: Connection<Store>, ticket: string, stream: string, now: Instant, validated: Instant)
    returns (r: Result<StreamIdentity, CommonError>)
    modifies conn
    ensures conn.Since(old(conn.durable), old(conn.working), old(conn.trail))
    ensures var was := old(conn.Current());
            && (r.Ok? ==> && ConsumeVerdict(was.db, was.tickets, ticket, stream, now, validated) == r
                          && conn.Current() == was.(tickets := Consumed(was.db, was.tickets, ticket, stream, now, validated)))
            && (conn.Sound() ==> r == ConsumeVerdict(was.db, was.tickets, ticket, stream, now, validated))
  {
    var ok := conn.Attempt();
    if !ok {
      return Err(ServiceUnavailable);
    }
    var tickets := conn.Current().tickets;
    var updated := 0;
    if ticket in tickets && tickets[ticket].stream == stream && IsLive(tickets[ticket], now) {
      tickets := tickets[ticket := tickets[ticket].(consumedAt := Some(Seconds(now)))];
      updated := 1;
      conn.Write(conn.Current().(tickets := tickets));
    }
    if updated == 0 {
      ok := conn.Attempt();
      if !ok {
        return Err(ServiceUnavailable);
      }
      if ticket in tickets && tickets[ticket].stream != stream && IsLive(tickets[ticket], now) {
        return Err(Forbidden);
      }
      return Err(Unauthorized);
    }
    ok := conn.Attempt();
    if !ok {
      return Err(ServiceUnavailable);
    }
    var identity := tickets[ticket].identity;
    var valid := ValidateIdentity(conn, identity, validated);
    if valid.Err? {
      return Err(valid.error);
    }
    r := Ok(identity);
  }

  /** `consume_ticket` in its immediate transaction: unless it succeeds, the ticket is as it was. */
  method ConsumeTicket(conn: Connection<Store>, ticket: string, stream: string, now: Instant, validated: Instant)
    returns (r: Result<StreamIdentity, CommonError>)
    requires conn.working == None
    modifies conn
    ensures var was := old(conn.durable);
            && (r.Ok? ==> && ConsumeVerdict(was.db, was.tickets, ticket, stream, now, validated) == r
                          && conn.durable == was.(tickets := Consumed(was.db, was.tickets, ticket, stream, now, validated))
                          && conn.trail == old(conn.trail) + [conn.durable])
            && (r.Err? ==> conn.durable == was && conn.trail == old(conn.trail))
            && (conn.Sound() ==> r == ConsumeVerdict(was.db, was.tickets, ticket, stream, now, validated))
    ensures var was, left, seconds := old(conn.durable), conn.durable, now / 1_000_000_000;
            var live := ticket in was.tickets && was.tickets[ticket].consumedAt == None && was.tickets[ticket].expiresAt > seconds;
            && (r.Ok? ==> && live && was.tickets[ticket].stream == stream && r.value == was.tickets[ticket].identity
                          && IdentityVerdict(was.db, r.value, validated).Ok? && left.db == was.db
                          && left.tickets == was.tickets[ticket := was.tickets[ticket].(consumedAt := Some(seconds))])
            && (conn.Sound() && r.Err? ==>
                  r.error == if !live then Unauthorized else if was.tickets[ticket].stream != stream then Forbidden
                             else Or(ErrorOf(IdentityVerdict(was.db, was.tickets[ticket].identity, validated)), ServiceUnavailable))
  {
    var ok := conn.Begin();
    if !ok {
      return Err(ServiceUnavailable);
    }
    r := ConsumeBody(conn, ticket, stream, now, validated);
    ok := Finish(conn, r.Ok?);
    if r.Ok? && !ok {
      r := Err(ServiceUnavailable);
    }
  }
}
