/**
 Users, login sessions and the transactions over both: src/service/sessions.rs, src/api/auth.rs,
 and the transactions of src/api/v1/admin.rs and src/api/v1/user.rs. The two tables are maps; a
 session is keyed by its token identifier. A string stands for its bytes.
 */
module Accounts {
  import opened Sqlite
  import opened Wrappers

  /** A clock reading in nanoseconds since the epoch. */
  type Instant = nat

  const SECOND: nat := 1_000_000_000
  const DAY: nat := 24 * 60 * 60

  function Seconds(t: Instant): nat {
    t / SECOND
  }

  /** `mayMonitor` is what the roles assigned for the user's authority grant. */
  datatype User = User(
    username: string, password: string, status: int, errorCount: int,
    tokenVersion: int, mustChange: bool, mayMonitor: bool)

  /** Times are in whole seconds, as the table stores them. */
  datatype Session = Session(userId: int, expiresAt: int, revokedAt: Option<nat>)

  datatype Db = Db(users: map<int, User>, sessions: map<string, Session>)

  datatype SessionRecord = SessionRecord(userId: int, jti: string, expiresAt: int)

  datatype Claims = Claims(userId: int, jti: string, exp: int, ver: int)

  datatype CommonError = Unauthorized | Forbidden | BadRequest | NotFound | TooManyRequests | ServiceUnavailable

  /// sessions.rs

  function Created(db: Db, jti: string, s: Session): Option<Db> {
    if s.userId in db.users && jti !in db.sessions then Some(db.(sessions := db.sessions[jti := s])) else None
  }

  /** Present, the user's own, unrevoked and not expired, to the nanosecond. */
  predicate SessionValid(sessions: map<string, Session>, jti: string, userId: int, now: Instant) {
    && jti in sessions
    && sessions[jti].userId == userId
    && sessions[jti].revokedAt.None?
    && now <= sessions[jti].expiresAt * SECOND
  }

  function RevokedAt(s: Session, now: Instant): Session {
    if s.revokedAt.None? then s.(revokedAt := Some(Seconds(now))) else s
  }

  function Revoked(db: Db, jti: string, now: Instant): Db {
    db.(sessions := map j | j in db.sessions :: if j == jti then RevokedAt(db.sessions[j], now) else db.sessions[j])
  }

  function AllRevoked(db: Db, userId: int, now: Instant): Db {
    db.(sessions := map j | j in db.sessions ::
      if db.sessions[j].userId == userId then RevokedAt(db.sessions[j], now) else db.sessions[j])
  }

  /** `None` when there is no such user to read the version back from. */
  function Bumped(db: Db, userId: int): Option<Db> {
    if userId in db.users
    then Some(db.(users := db.users[userId := db.users[userId].(tokenVersion := db.users[userId].tokenVersion + 1)]))
    else None
  }

  /** The rows `purge_expired` deletes, given its two clock readings. */
  predicate Purgeable(s: Session, now: Instant, dayNow: Instant) {
    s.expiresAt <= Seconds(now) || (s.revokedAt.Some? && s.revokedAt.value + DAY <= Seconds(dayNow))
  }

  function Purged(db: Db, now: Instant, dayNow: Instant): Db {
    db.(sessions := map j | j in db.sessions && !Purgeable(db.sessions[j], now, dayNow) :: db.sessions[j])
  }

  /// auth.rs

  /** The second read of `authenticate_token`: the user row against the claims. */
  predicate UserAccepts(users: map<int, User>, c: Claims) {
    c.userId in users && users[c.userId].status == 0 && users[c.userId].tokenVersion == c.ver
  }

  /// The transactions

  /** What an administrator may change of a user. */
  datatype UserChange = UserChange(
    username: Option<string>, password: Option<string>, status: Option<int>, mayMonitor: Option<bool>)

  /** The row `update_user` read, with the change merged in. */
  function Merged(u: User, c: UserChange): User {
    u.(username := Or(c.username, u.username), password := Or(c.password, u.password), status := Or(c.status, u.status),
       mustChange := u.mustChange && c.password.None?, mayMonitor := Or(c.mayMonitor, u.mayMonitor))
  }

  /** What the request leaves out stays; a new password also lifts the duty to change it, and nothing imposes it. */
  lemma MergedByField(u: User, c: UserChange)
    ensures var m := Merged(u, c);
            && (if c.username.Some? then m.username == c.username.value else m.username == u.username)
            && (if c.password.Some? then m.password == c.password.value && !m.mustChange
                else m.password == u.password && m.mustChange == u.mustChange)
            && (if c.status.Some? then m.status == c.status.value else m.status == u.status)
            && (if c.mayMonitor.Some? then m.mayMonitor == c.mayMonitor.value else m.mayMonitor == u.mayMonitor)
  {
  }

  /** Every column `update_user` writes back: all but the error count and the token version. */
  function WrittenBack(u: User, merged: User): User {
    merged.(errorCount := u.errorCount, tokenVersion := u.tokenVersion)
  }

  function SetUser(db: Db, id: int, u: User): Db {
    db.(users := db.users[id := u])
  }

  /** `update_user` from its stale row: a missing user fails the role assignment. */
  function Updated(db: Db, id: int, merged: User, newPassword: bool, now: Instant): Option<Db> {
    if id !in db.users then None
    else
      var written := SetUser(db, id, WrittenBack(db.users[id], merged));
      var bumped := if newPassword then Bumped(written, id).value else written;
      Some(if newPassword || merged.status != 0 then AllRevoked(bumped, id, now) else bumped)
  }

  function Deleted(db: Db, id: int): Option<Db> {
    if id !in db.users then None
    else Some(Db(db.users - {id}, map j | j in db.sessions && db.sessions[j].userId != id :: db.sessions[j]))
  }

  /** A new password, a new token version, and no session left standing. */
  function Rekeyed(db: Db, id: int, password: string, mustChange: bool, now: Instant): Option<Db> {
    if id !in db.users then None
    else
      var written := SetUser(db, id, db.users[id].(password := password, mustChange := mustChange));
      Some(AllRevoked(Bumped(written, id).value, id, now))
  }

  /** Why `change_password` refuses, if it does. */
  function ChangeRefused(db: Db, c: Claims, current: string, now: Instant): Option<CommonError> {
    if c.userId !in db.users then Some(Unauthorized)
    else if db.users[c.userId].status != 0 || db.users[c.userId].tokenVersion != c.ver then Some(Unauthorized)
    else if !SessionValid(db.sessions, c.jti, c.userId, now) then Some(Unauthorized)
    else if db.users[c.userId].password != current then Some(BadRequest)
    else None
  }

  /// What the transactions leave, row by row

  predicate NoneStands(sessions: map<string, Session>, userId: int) {
    forall j :: j in sessions && sessions[j].userId == userId ==> sessions[j].revokedAt.Some?
  }

  /** No session came or went, none changed but for being revoked, and none of another user changed at all. */
  predicate OthersStand(was: map<string, Session>, left: map<string, Session>, userId: int) {
    && left.Keys == was.Keys
    && forall j :: j in was ==>
         left[j] == was[j] || (was[j].userId == userId && was[j].revokedAt == None && left[j] == was[j].(revokedAt := left[j].revokedAt))
  }

  /** The new password is in the row, with the next token version, and no session of the user stands; all else is as it was. */
  predicate NewPassword(was: Db, left: Db, id: int, password: string, mustChange: bool) {
    && id in was.users && id in left.users
    && left.users[id].password == password && left.users[id].mustChange == mustChange
    && left.users[id].tokenVersion == was.users[id].tokenVersion + 1
    && left.users[id].username == was.users[id].username && left.users[id].status == was.users[id].status
    && left.users[id].errorCount == was.users[id].errorCount && left.users[id].mayMonitor == was.users[id].mayMonitor
    && left.users - {id} == was.users - {id}
    && NoneStands(left.sessions, id) && OthersStand(was.sessions, left.sessions, id)
  }

  /// The same over a connection, statement by statement

  method CreateSession(conn: Connection<Db>, userId: int, ttl: int, jti: string, now: Instant)
    returns (r: Result<SessionRecord, CommonError>)
    modifies conn
    ensures conn.Since(old(conn.durable), old(conn.working), old(conn.trail))
    ensures r.Ok? ==> && Created(old(conn.Current()), jti, Session(userId, Seconds(now) + ttl, None)) == Some(conn.Current())
                      && r.value == SessionRecord(userId, jti, Seconds(now) + ttl)
    ensures r.Ok? ==> && conn.Current().users == old(conn.Current().users)
                      && conn.Current().sessions == old(conn.Current().sessions)[jti := Session(userId, now / 1_000_000_000 + ttl, None)]
    ensures r.Err? ==> conn.Current() == old(conn.Current())
    ensures conn.Sound() ==> (r.Ok? <==> userId in old(conn.Current()).users && jti !in old(conn.Current()).sessions)
  {
    var ok := conn.Attempt();
    var created := Created(conn.Current(), jti, Session(userId, Seconds(now) + ttl, None));
    if !ok || created.None? {
      return Err(ServiceUnavailable);
    }
    conn.Write(created.value);
    r := Ok(SessionRecord(userId, jti, Seconds(now) + ttl));
  }

  method ValidateSession(conn: Connection<Db>, jti: string, userId: int, now: Instant) returns (r: Result<(), CommonError>)
    modifies conn`statements
    ensures r.Ok? ==> SessionValid(conn.Current().sessions, jti, userId, now)
    ensures conn.Sound() ==> r == if SessionValid(conn.Current().sessions, jti, userId, now) then Ok(()) else Err(Unauthorized)
    ensures var sessions := conn.Current().sessions;
            var stands := jti in sessions && sessions[jti].userId == userId && sessions[jti].revokedAt == None
                          && now <= sessions[jti].expiresAt * 1_000_000_000;
            (r.Ok? ==> stands) && (conn.Sound() && stands ==> r.Ok?)
  {
    var ok := conn.Attempt();
    if !ok {
      return Err(ServiceUnavailable);
    }
    var sessions := conn.Current().sessions;
    if jti !in sessions {
      return Err(Unauthorized);
    }
    var row := sessions[jti];
    if row.userId != userId {
      return Err(Unauthorized);
    }
    if row.revokedAt.Some? {
      return Err(Unauthorized);
    }
    if row.expiresAt * SECOND < now {
      return Err(Unauthorized);
    }
    r := Ok(());
  }

  method RevokeSession(conn: Connection<Db>, jti: string, now: Instant) returns (ok: bool)
    modifies conn
    ensures conn.Since(old(conn.durable), old(conn.working), old(conn.trail))
    ensures conn.Current() == if ok then Revoked(old(conn.Current()), jti, now) else old(conn.Current())
    ensures conn.Current().users == old(conn.Current().users)
    ensures ok ==>
              var was, left := old(conn.Current().sessions), conn.Current().sessions;
              && left.Keys == was.Keys
              && forall j :: j in was ==>
                   left[j] == if j == jti && was[j].revokedAt == None then was[j].(revokedAt := Some(now / 1_000_000_000)) else was[j]
    ensures conn.Sound() ==> ok
  {
    ok := conn.Attempt();
    if ok {
      conn.Write(Revoked(conn.Current(), jti, now));
    }
  }

  method RevokeAllForUser(conn: Connection<Db>, userId: int, now: Instant) returns (ok: bool)
    modifies conn
    ensures conn.Since(old(conn.durable), old(conn.working), old(conn.trail))
    ensures conn.Current() == if ok then AllRevoked(old(conn.Current()), userId, now) else old(conn.Current())
    ensures conn.Current().users == old(conn.Current().users)
    ensures ok ==>
              var was, left := old(conn.Current().sessions), conn.Current().sessions;
              && left.Keys == was.Keys
              && forall j :: j in was ==>
                   left[j] == if was[j].userId == userId && was[j].revokedAt == None then was[j].(revokedAt := Some(now / 1_000_000_000)) else was[j]
    ensures conn.Sound() ==> ok
  {
    ok := conn.Attempt();
    if ok {
      conn.Write(AllRevoked(conn.Current(), userId, now));
    }
  }

  /** An update of no row succeeds; the version is then missing. An error may come after the update. */
  method BumpTokenVersion(conn: Connection<Db>, userId: int) returns (r: Result<int, CommonError>)
    modifies conn
    ensures conn.Since(old(conn.durable), old(conn.working), old(conn.trail))
    ensures r.Ok? ==> Bumped(old(conn.Current()), userId) == Some(conn.Current()) && r.value == conn.Current().users[userId].tokenVersion
    ensures r.Err? ==> conn.Current() == old(conn.Current())
                       || (r.error == ServiceUnavailable && Bumped(old(conn.Current()), userId) == Some(conn.Current()))
    ensures r.Ok? ==> && userId in old(conn.Current().users) && r.value == old(conn.Current().users)[userId].tokenVersion + 1
                      && conn.Current() == old(conn.Current()).(users :=
                           old(conn.Current().users)[userId := old(conn.Current().users)[userId].(tokenVersion := r.value)])
    ensures conn.Sound() ==> (r.Ok? <==> userId in old(conn.Current()).users)
  {
    var ok := conn.Attempt();
    if !ok {
      return Err(ServiceUnavailable);
    }
    var db := conn.Current();
    if userId in db.users {
      db := SetUser(db, userId, db.users[userId].(tokenVersion := db.users[userId].tokenVersion + 1));
      conn.Write(db);
    }
    ok := conn.Attempt();
    if !ok {
      return Err(ServiceUnavailable);
    }
    if userId !in db.users {
      return Err(NotFound);
    }
    r := Ok(db.users[userId].tokenVersion);
  }

  method PurgeExpired(conn: Connection<Db>, now: Instant, dayNow: Instant) returns (r: Result<nat, CommonError>)
    modifies conn
    ensures conn.Since(old(conn.durable), old(conn.working), old(conn.trail))
    ensures conn.Current() == if r.Ok? then Purged(old(conn.Current()), now, dayNow) else old(conn.Current())
    ensures r.Ok? ==> r.value == |old(conn.Current()).sessions| - |conn.Current().sessions|
    ensures conn.Current().users == old(conn.Current().users)
    ensures r.Ok? ==>
              var was, left := old(conn.Current().sessions), conn.Current().sessions;
              && (forall j :: j in left ==> j in was && left[j] == was[j])
              && (forall j :: j in was ==>
                    (j !in left <==> (|| was[j].expiresAt <= now / 1_000_000_000
                                      || (was[j].revokedAt.Some? && was[j].revokedAt.value + 86_400 <= dayNow / 1_000_000_000))))
    ensures conn.Sound() ==> r.Ok?
  {
    var ok := conn.Attempt();
    if !ok {
      return Err(ServiceUnavailable);
    }
    var db := conn.Current();
    var kept := Purged(db, now, dayNow);
    Subset(kept.sessions.Keys, db.sessions.Keys);
    r := Ok(|db.sessions| - |kept.sessions|);
    conn.Write(kept);
  }

  /** The row of `update_user`, and then the role that follows its authority. */
  method WriteUser(conn: Connection<Db>, id: int, merged: User) returns (ok: bool)
    modifies conn
    ensures conn.Since(old(conn.durable), old(conn.working), old(conn.trail))
    ensures ok ==> id in old(conn.Current()).users
                   && conn.Current() == SetUser(old(conn.Current()), id, WrittenBack(old(conn.Current()).users[id], merged))
    ensures conn.Sound() ==> (ok <==> id in old(conn.Current()).users)
  {
    ok := conn.Attempt();
    if !ok {
      return;
    }
    var db := conn.Current();
    if id in db.users {
      db := SetUser(db, id, WrittenBack(db.users[id], merged.(mayMonitor := db.users[id].mayMonitor)));
      conn.Write(db);
    }
    ok := conn.Attempt();
    if !ok {
      return;
    }
    if id !in db.users {
      return false;
    }
    conn.Write(SetUser(db, id, db.users[id].(mayMonitor := merged.mayMonitor)));
  }

  method UpdateUserBody(conn: Connection<Db>, id: int, merged: User, newPassword: bool, now: Instant) returns (ok: bool)
    modifies conn
    ensures conn.Since(old(conn.durable), old(conn.working), old(conn.trail))
    ensures ok ==> Updated(old(conn.Current()), id, merged, newPassword, now) == Some(conn.Current())
    ensures conn.Sound() ==> (ok <==> id in old(conn.Current()).users)
  {
    ok := WriteUser(conn, id, merged);
    if !ok {
      return;
    }
    if newPassword || merged.status != 0 {
      if newPassword {
        var bumped := BumpTokenVersion(conn, id);
        if bumped.Err? {
          return false;
        }
      }
      ok := RevokeAllForUser(conn, id, now);
    }
  }

  /** `with_immediate_tx` around the update. */
  method UpdateUser(conn: Connection<Db>, id: int, merged: User, newPassword: bool, now: Instant) returns (ok: bool)
    requires conn.working == None
    modifies conn
    ensures ok ==> Updated(old(conn.durable), id, merged, newPassword, now) == Some(conn.durable) && conn.trail == old(conn.trail) + [conn.durable]
    ensures ok ==>
              var was, left := old(conn.durable), conn.durable;
              && id in was.users
              && left.users == was.users[id := User(merged.username, merged.password, merged.status, was.users[id].errorCount,
                                                  was.users[id].tokenVersion + (if newPassword then 1 else 0),
                                                  merged.mustChange, merged.mayMonitor)]
              && (newPassword || merged.status != 0 ==> NoneStands(left.sessions, id))
              && OthersStand(was.sessions, left.sessions, id) && (!newPassword && merged.status == 0 ==> left.sessions == was.sessions)
    ensures !ok ==> conn.durable == old(conn.durable) && conn.trail == old(conn.trail)
    ensures conn.Sound() ==> (ok <==> id in old(conn.durable).users)
  {
    ok := conn.Begin();
    if ok {
      ok := UpdateUserBody(conn, id, merged, newPassword, now);
      ok := Finish(conn, ok);
    }
  }

  method DeleteUserBody(conn: Connection<Db>, id: int) returns (r: Result<(), CommonError>)
    modifies conn
    ensures conn.Since(old(conn.durable), old(conn.working), old(conn.trail))
    ensures r.Ok? ==> Deleted(old(conn.Current()), id) == Some(conn.Current())
    ensures conn.Sound() ==> r == if id in old(conn.Current()).users then Ok(()) else Err(NotFound)
  {
    var ok := conn.Attempt();
    if !ok {
      return Err(ServiceUnavailable);
    }
    var db := conn.Current();
    db := db.(sessions := map j | j in db.sessions && db.sessions[j].userId != id :: db.sessions[j]);
    conn.Write(db);
    ok := conn.Attempt();
    if !ok {
      return Err(ServiceUnavailable);
    }
    ok := conn.Attempt();
    if !ok {
      return Err(ServiceUnavailable);
    }
    if id !in db.users {
      return Err(NotFound);
    }
    conn.Write(db.(users := db.users - {id}));
    r := Ok(());
  }

  /** A user who is not there undoes the removal of the sessions too. */
  method DeleteUser(conn: Connection<Db>, id: int) returns (r: Result<(), CommonError>)
    requires conn.working == None
    modifies conn
    ensures r.Ok? ==> Deleted(old(conn.durable), id) == Some(conn.durable) && conn.trail == old(conn.trail) + [conn.durable]
    ensures r.Ok? ==>
              var was, left := old(conn.durable), conn.durable;
              && id in was.users && left.users == was.users - {id}
              && (forall j :: j in left.sessions ==> j in was.sessions && left.sessions[j] == was.sessions[j])
              && (forall j :: j in was.sessions ==> (j in left.sessions <==> was.sessions[j].userId != id))
    ensures r.Err? ==> conn.durable == old(conn.durable) && conn.trail == old(conn.trail)
    ensures conn.Sound() ==> r == if id in old(conn.durable).users then Ok(()) else Err(NotFound)
  {
    var ok := conn.Begin();
    if !ok {
      return Err(ServiceUnavailable);
    }
    r := DeleteUserBody(conn, id);
    ok := Finish(conn, r.Ok?);
    if r.Ok? && !ok {
      r := Err(ServiceUnavailable);
    }
  }

  /** The three statements that `reset_password` and `change_password` share. */
  method RekeyBody(conn: Connection<Db>, id: int, password: string, mustChange: bool, now: Instant) returns (ok: bool)
    modifies conn
    ensures conn.Since(old(conn.durable), old(conn.working), old(conn.trail))
    ensures ok ==> Rekeyed(old(conn.Current()), id, password, mustChange, now) == Some(conn.Current())
    ensures conn.Sound() ==> (ok <==> id in old(conn.Current()).users)
  {
    ok := conn.Attempt();
    if !ok {
      return;
    }
    var db := conn.Current();
    if id in db.users {
      conn.Write(SetUser(db, id, db.users[id].(password := password, mustChange := mustChange)));
    }
    var bumped := BumpTokenVersion(conn, id);
    if bumped.Err? {
      return false;
    }
    ok := RevokeAllForUser(conn, id, now);
  }

  /** `reset_password`: the user must still be there when the transaction runs. */
  method ResetPassword(conn: Connection<Db>, id: int, password: string, now: Instant) returns (ok: bool)
    requires conn.working == None
    modifies conn
    ensures ok ==> Rekeyed(old(conn.durable), id, password, true, now) == Some(conn.durable) && conn.trail == old(conn.trail) + [conn.durable]
    ensures ok ==> NewPassword(old(conn.durable), conn.durable, id, password, true)
    ensures !ok ==> conn.durable == old(conn.durable) && conn.trail == old(conn.trail)
    ensures conn.Sound() ==> (ok <==> id in old(conn.durable).users)
  {
    ok := conn.Begin();
    if ok {
      ok := RekeyBody(conn, id, password, true, now);
      ok := Finish(conn, ok);
    }
  }

  method ChangePasswordBody(conn: Connection<Db>, c: Claims, current: string, password: string, now: Instant)
    returns (r: Result<(), CommonError>)
    modifies conn
    ensures conn.Since(old(conn.durable), old(conn.working), old(conn.trail))
    ensures r.Ok? ==> && ChangeRefused(old(conn.Current()), c, current, now) == None
                      && Rekeyed(old(conn.Current()), c.userId, password, false, now) == Some(conn.Current())
    ensures conn.Sound() ==> r == match ChangeRefused(old(conn.Current()), c, current, now) { case Some(e) => Err(e) case None => Ok(()) }
  {
    var ok := conn.Attempt();
    var users := conn.Current().users;
    if !ok || c.userId !in users {
      return Err(Unauthorized);
    }
    var row := users[c.userId];
    if row.status != 0 || row.tokenVersion != c.ver {
      return Err(Unauthorized);
    }
    r := ValidateSession(conn, c.jti, c.userId, now);
    if r.Err? {
      return;
    }
    if row.password != current {
      return Err(BadRequest);
    }
    ok := RekeyBody(conn, c.userId, password, false, now);
    r := if ok then Ok(()) else Err(ServiceUnavailable);
  }

  method ChangePassword(conn: Connection<Db>, c: Claims, current: string, password: string, now: Instant)
    returns (r: Result<(), CommonError>)
    requires conn.working == None
    modifies conn
    ensures r.Ok? ==> && |password| >= 8 && ChangeRefused(old(conn.durable), c, current, now) == None
                      && Rekeyed(old(conn.durable), c.userId, password, false, now) == Some(conn.durable)
                      && conn.trail == old(conn.trail) + [conn.durable]
    ensures r.Ok? ==> NewPassword(old(conn.durable), conn.durable, c.userId, password, false)
    ensures var was := old(conn.durable);
            var allowed := && c.userId in was.users && was.users[c.userId].status == 0 && was.users[c.userId].tokenVersion == c.ver
                           && was.users[c.userId].password == current && c.jti in was.sessions
                           && was.sessions[c.jti].userId == c.userId && was.sessions[c.jti].revokedAt == None
                           && now <= was.sessions[c.jti].expiresAt * 1_000_000_000;
            (r.Ok? ==> allowed && |password| >= 8) && (conn.Sound() && allowed && |password| >= 8 ==> r.Ok?)
    ensures r.Err? ==> conn.durable == old(conn.durable) && conn.trail == old(conn.trail)
    ensures conn.Sound() ==> (r.Ok? <==> |password| >= 8 && ChangeRefused(old(conn.durable), c, current, now) == None)
  {
    if |password| < 8 {
      return Err(BadRequest);
    }
    var ok := conn.Begin();
    if !ok {
      return Err(ServiceUnavailable);
    }
    r := ChangePasswordBody(conn, c, current, password, now);
    ok := Finish(conn, r.Ok?);
    if r.Ok? && !ok {
      r := Err(ServiceUnavailable);
    }
  }

  /** What a login makes of the row it read; `None` lets it through. A stored hash need not be `readable`. */
  function LoginRefused(u: User, given: string, readable: bool): Option<CommonError> {
    if u.status != 0 then Some(Unauthorized)
    else if u.errorCount >= 5 || !readable || u.password != given then Some(BadRequest)
    else None
  }

  /** And the row it leaves, if nothing else writes it meanwhile. */
  function LoginRow(u: User, given: string, readable: bool): User {
    if u.status != 0 then u
    else if u.errorCount >= 5 then u.(status := -1)
    else if !readable then u
    else if u.password != given then u.(errorCount := u.errorCount + 1)
    else u.(errorCount := 0)
  }

  /** The file after a login on row `i`. */
  function AfterLogin(db: Db, i: int, given: string, readable: bool): Db
    requires i in db.users
  {
    SetUser(db, i, LoginRow(db.users[i], given, readable))
  }

  /** And after the session of an accepted one. */
  function LoggedIn(db: Db, i: int, given: string, jti: string, expiresAt: int): Option<Db>
    requires i in db.users
  {
    Created(AfterLogin(db, i, given, true), jti, Session(i, expiresAt, None))
  }

  /**
   `query` of login.rs: `id` is the row the name was found in. A failing statement leaves the row as it
   was, unless it is the rehash, which comes after the error count was reset.
   */
  method Query(conn: Connection<Db>, username: string, given: string, readable: bool, rehash: bool)
    returns (r: Result<(int, User), CommonError>, ghost id: Option<int>)
    requires conn.working == None
    modifies conn
    ensures conn.working == None
    ensures var was := old(conn.durable);
            && (id.Some? ==> id.value in was.users && was.users[id.value].username == username)
            && (id.None? ==> r.Err? && conn.durable == was
                             && (r.error != ServiceUnavailable ==>
                                   r.error == BadRequest && forall i :: i in was.users ==> was.users[i].username != username))
            && (r.Ok? ==> id.Some? && r.value == (id.value, was.users[id.value]))
            && (id.Some? ==>
                  var refused := LoginRefused(was.users[id.value], given, readable);
                  && (r.Ok? ==> refused.None?)
                  && (r.Err? && r.error != ServiceUnavailable ==> refused == Some(r.error))
                  && conn.durable in {was, AfterLogin(was, id.value, given, readable)}
                  && (r.Ok? || r.error != ServiceUnavailable ==> conn.durable == AfterLogin(was, id.value, given, readable))
                  && (refused.Some? && r.Err? && r.error == ServiceUnavailable ==> conn.durable == was))
    ensures id.Some? && r.Ok? ==>
              var u := old(conn.durable).users[id.value];
              && u.status == 0 && u.errorCount < 5 && readable && u.password == given
              && conn.durable == SetUser(old(conn.durable), id.value, u.(errorCount := 0))
    ensures id.Some? && r.Err? && r.error != ServiceUnavailable ==>
              var u := old(conn.durable).users[id.value];
              var row := if u.status != 0 then u else if u.errorCount >= 5 then u.(status := -1)
                         else if readable then u.(errorCount := u.errorCount + 1) else u;
              && r.error == (if u.status != 0 then Unauthorized else BadRequest)
              && (u.status == 0 && u.errorCount < 5 ==> !readable || u.password != given)
              && conn.durable == SetUser(old(conn.durable), id.value, row)
    ensures conn.Sound() ==> r.Ok? || r.error != ServiceUnavailable
  {
    id := None;
    var ok := conn.Attempt();
    if !ok {
      return Err(ServiceUnavailable), id;
    }
    var db := conn.Current();
    if !(exists i | i in db.users :: db.users[i].username == username) {
      return Err(BadRequest), id;
    }
    var i :| i in db.users && db.users[i].username == username;
    var user := db.users[i];
    id := Some(i);
    assert SetUser(db, i, user) == db;
    if user.status != 0 {
      return Err(Unauthorized), id;
    }
    if user.errorCount >= 5 {
      ok := conn.Attempt();
      if !ok {
        return Err(ServiceUnavailable), id;
      }
      conn.Write(SetUser(db, i, user.(status := -1)));
      return Err(BadRequest), id;
    }
    if !readable {
      return Err(BadRequest), id;
    }
    ok := conn.Attempt();
    if !ok {
      return Err(ServiceUnavailable), id;
    }
    if user.password != given {
      conn.Write(SetUser(db, i, user.(errorCount := user.errorCount + 1)));
      return Err(BadRequest), id;
    }
    conn.Write(SetUser(db, i, user.(errorCount := 0)));
    if rehash {
      ok := conn.Attempt();
      if !ok {
        return Err(ServiceUnavailable), id;
      }
      conn.Write(SetUser(db, i, user.(errorCount := 0, password := given)));
    }
    r := Ok((i, user));
  }

  /**
   `issue_session_token`, when no other connection comes between its statements. An error leaves the
   file as it was, or with the row of a login on that name; when the token cannot be signed, the
   session stays as well.
   */
  method IssueSessionToken(conn: Connection<Db>, username: string, given: string, readable: bool, rehash: bool,
                           ttl: int, jti: string, now: Instant, signs: bool)
    returns (r: Result<Claims, CommonError>, ghost id: Option<int>)
    requires conn.working == None
    modifies conn
    ensures var was := old(conn.durable);
            && (id.Some? ==> id.value in was.users && was.users[id.value].username == username)
            && (r.Ok? ==> && id.Some? && LoginRefused(was.users[id.value], given, readable).None? && signs
                          && r.value == Claims(id.value, jti, Seconds(now) + ttl, was.users[id.value].tokenVersion)
                          && LoggedIn(was, id.value, given, jti, Seconds(now) + ttl) == Some(conn.durable)
                          && conn.durable == Db(was.users[id.value := was.users[id.value].(errorCount := 0)],
                                                was.sessions[jti := Session(id.value, now / 1_000_000_000 + ttl, None)]))
            && (r.Err? ==> || conn.durable == was
                           || (id.Some? && conn.durable == AfterLogin(was, id.value, given, readable))
                           || (id.Some? && !signs && LoggedIn(was, id.value, given, jti, Seconds(now) + ttl) == Some(conn.durable)))
  {
    var user;
    user, id := Query(conn, username, given, readable, rehash);
    if user.Err? {
      return Err(user.error), id;
    }
    var session := CreateSession(conn, user.value.0, ttl, jti, now);
    if session.Err? {
      return Err(session.error), id;
    }
    if !signs {
      return Err(ServiceUnavailable), id;
    }
    r := Ok(Claims(user.value.0, session.value.jti, session.value.expiresAt, user.value.1.tokenVersion));
  }

  /// Purging

  /**
   At any instant from the purge on, validation answers as if nothing had been purged, with one
   exception: a session that expires on the very nanosecond of both, which is gone a moment early.
   */
  lemma PurgeUnobservable(db: Db, now: Instant, dayNow: Instant, jti: string, userId: int, later: Instant)
    requires now <= later
    ensures SessionValid(Purged(db, now, dayNow).sessions, jti, userId, later) == SessionValid(db.sessions, jti, userId, later)
            <==> !(SessionValid(db.sessions, jti, userId, later) && later == now == db.sessions[jti].expiresAt * SECOND)
  {
    if jti in db.sessions {
      ExpiredBySecond(db.sessions[jti].expiresAt, now);
    }
  }

  /** A session, of a user who is there, that is valid through its last nanosecond, and is purged on it. */
  lemma PurgedOnItsLastInstant(jti: string, userId: int, user: User, expiresAt: nat)
    ensures var db := Db(map[userId := user], map[jti := Session(userId, expiresAt, None)]);
            var now := expiresAt * SECOND;
            SessionValid(db.sessions, jti, userId, now) && !SessionValid(Purged(db, now, now).sessions, jti, userId, now)
  {
    ExpiredBySecond(expiresAt, expiresAt * SECOND);
  }

  lemma ExpiredBySecond(expiresAt: int, now: Instant)
    ensures expiresAt <= Seconds(now) <==> expiresAt * SECOND <= now
  {
    var q := now / SECOND;
    assert q * SECOND <= now < (q + 1) * SECOND;
    if expiresAt <= q {
      assert expiresAt * SECOND <= q * SECOND;
    } else {
      assert (q + 1) * SECOND <= expiresAt * SECOND;
    }
  }

}
