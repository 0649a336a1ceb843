/**
 Every interleaving of logins, authentications, password changes and user administration. A login
 (`issue_session_token` in src/api/v1/login.rs) is a user-row read, up to two writes and a session
 insert, with anything in between; `update_user` writes back a row it read earlier; an authentication
 is two separate reads. Each transaction is one step.
 */
module AccountRuns {
  import opened Accounts
  import opened Runs
  import opened Wrappers

  /** What a login still has to write. */
  datatype Todo = Ban | Wrong(errorCount: int) | Welcome(rehash: bool) | Rehash | Insert

  datatype Login = Login(userId: int, ver: int, given: string, todo: Todo)

  datatype Update = Update(userId: int, merged: User, newPassword: bool)

  /**
   `tokens` holds the claims of the token each login was answered with, `issued` every token
   identifier ever drawn, and `accepted` the logins whose tokens were accepted, in order.
   */
  datatype World = World(
    db: Db, clock: Instant,
    logins: map<nat, Login>, used: set<nat>, tokens: map<nat, Claims>, issued: set<string>,
    updates: map<nat, Update>, auths: map<nat, nat>, accepted: seq<nat>)

  datatype Event =
    | Tick(now: Instant)
    | LoginRead(id: nat, userId: int, given: string, rehash: bool)
    | LoginWrite(id: nat)
    | LoginInsert(id: nat, jti: string, ttl: nat)
    | LoginFails(id: nat)
    | UpdateRead(id: nat, userId: int, change: UserChange)
    | UpdateCommit(id: nat)
    | UpdateFails(id: nat)
    | ResetPassword(userId: int, password: string)
    | ChangePassword(token: nat, current: string, password: string)
    | CreateUser(userId: int, user: User)
    | DeleteUser(userId: int)
    | Logout(token: nat)
    | Purge
    | AuthSession(auth: nat, token: nat)
    | AuthUser(auth: nat)
    | AuthFails(auth: nat)

  /// Logins

  /** `query`, up to its first write: what the row just read makes of the login. */
  function Verified(u: User, given: string, rehash: bool): Todo {
    if u.errorCount >= 5 then Ban
    else if u.password == given then Welcome(rehash)
    else Wrong(u.errorCount + 1)
  }

  /** The row after the login's next write, which is by primary key. */
  function RowWritten(u: User, l: Login): User {
    match l.todo
    case Ban => u.(status := -1)
    case Wrong(n) => u.(errorCount := n)
    case Welcome(_) => u.(errorCount := 0)
    case Rehash => u.(password := l.given)
    case Insert => u
  }

  function UsersWritten(users: map<int, User>, l: Login): map<int, User> {
    if l.userId in users then users[l.userId := RowWritten(users[l.userId], l)] else users
  }

  /** What comes after a write; a login that was refused is over. */
  function NextTodo(t: Todo): Option<Todo> {
    match t
    case Ban => None
    case Wrong(_) => None
    case Welcome(rehash) => Some(if rehash then Rehash else Insert)
    case Rehash => Some(Insert)
    case Insert => Some(Insert)
  }

  function LoginWritten(w: World, id: nat): World
    requires id in w.logins
  {
    var l := w.logins[id];
    w.(db := w.db.(users := UsersWritten(w.db.users, l)),
       logins := if NextTodo(l.todo).None? then w.logins - {id} else w.logins[id := l.(todo := NextTodo(l.todo).value)])
  }

  function LoginInserted(w: World, id: nat, jti: string, ttl: nat): World
    requires id in w.logins
  {
    var l := w.logins[id];
    var expires := Seconds(w.clock) + ttl;
    var gone := w.(logins := w.logins - {id}, issued := w.issued + {jti});
    match Created(w.db, jti, Session(l.userId, expires, None))
    case None => gone
    case Some(db) => gone.(db := db, tokens := w.tokens[id := Claims(l.userId, jti, expires, l.ver)])
  }

  predicate OfLogin(e: Event) {
    e.LoginRead? || e.LoginWrite? || e.LoginInsert? || e.LoginFails?
  }

  function StepLogin(w: World, e: Event): Option<World>
    requires OfLogin(e)
  {
    match e
    case LoginRead(id, userId, given, rehash) =>
      if id in w.used || userId !in w.db.users then None
      else
        var u := w.db.users[userId];
        Some(w.(used := w.used + {id},
                logins := if u.status != 0 then w.logins
                          else w.logins[id := Login(userId, u.tokenVersion, given, Verified(u, given, rehash))]))
    case LoginWrite(id) => if id in w.logins && w.logins[id].todo != Insert then Some(LoginWritten(w, id)) else None
    case LoginInsert(id, jti, ttl) =>
      if id in w.logins && w.logins[id].todo == Insert && jti !in w.issued then Some(LoginInserted(w, id, jti, ttl)) else None
    case LoginFails(id) => if id in w.logins then Some(w.(logins := w.logins - {id})) else None
  }

  /// Administration

  predicate OfAdmin(e: Event) {
    || e.UpdateRead? || e.UpdateCommit? || e.UpdateFails? || e.ResetPassword? || e.ChangePassword?
    || e.CreateUser? || e.DeleteUser?
  }

  function StepAdmin(w: World, e: Event): Option<World>
    requires OfAdmin(e)
  {
    match e
    case UpdateRead(id, userId, change) =>
      if id in w.updates || userId !in w.db.users then None
      else Some(w.(updates := w.updates[id := Update(userId, Merged(w.db.users[userId], change), change.password.Some?)]))
    case UpdateCommit(id) =>
      if id !in w.updates then None
      else
        var u := w.updates[id];
        Some(w.(db := Or(Updated(w.db, u.userId, u.merged, u.newPassword, w.clock), w.db), updates := w.updates - {id}))
    case UpdateFails(id) => if id in w.updates then Some(w.(updates := w.updates - {id})) else None
    case ResetPassword(userId, password) => Some(w.(db := Or(Rekeyed(w.db, userId, password, true, w.clock), w.db)))
    case ChangePassword(token, current, password) =>
      if token !in w.tokens then None
      else if ChangeRefused(w.db, w.tokens[token], current, w.clock).Some? then Some(w)
      else Some(w.(db := Or(Rekeyed(w.db, w.tokens[token].userId, password, false, w.clock), w.db)))
    case CreateUser(userId, user) =>
      if userId in w.db.users then None else Some(w.(db := SetUser(w.db, userId, user)))
    case DeleteUser(userId) => Some(w.(db := Or(Deleted(w.db, userId), w.db)))
  }

  /// Sessions and authentication

  function StepSession(w: World, e: Event): Option<World>
    requires !OfLogin(e) && !OfAdmin(e)
  {
    match e
    case Tick(now) => if now < w.clock then None else Some(w.(clock := now))
    case Logout(token) =>
      if token in w.tokens then Some(w.(db := Revoked(w.db, w.tokens[token].jti, w.clock))) else None
    case Purge => Some(w.(db := Purged(w.db, w.clock, w.clock)))
    case AuthSession(auth, token) =>
      if auth in w.auths || token !in w.tokens then None
      else if SessionValid(w.db.sessions, w.tokens[token].jti, w.tokens[token].userId, w.clock)
      then Some(w.(auths := w.auths[auth := token]))
      else Some(w)
    case AuthUser(auth) =>
      if auth !in w.auths || w.auths[auth] !in w.tokens then None
      else
        var token := w.auths[auth];
        Some(w.(auths := w.auths - {auth},
                accepted := if UserAccepts(w.db.users, w.tokens[token]) then w.accepted + [token] else w.accepted))
    case AuthFails(auth) => if auth in w.auths then Some(w.(auths := w.auths - {auth})) else None
  }

  function Step(w: World, e: Event): Option<World> {
    if OfLogin(e) then StepLogin(w, e) else if OfAdmin(e) then StepAdmin(w, e) else StepSession(w, e)
  }

  const START := World(Db(map[], map[]), 0, map[], {}, map[], {}, map[], map[], [])

  /** The second read of an authentication accepts exactly an active user at the token's version. */
  lemma AcceptedExactly(w: World, auth: nat, w': World)
    requires Step(w, AuthUser(auth)) == Some(w')
    ensures var token := w.auths[auth];
            var c := w.tokens[token];
            w'.accepted == if c.userId in w.db.users && w.db.users[c.userId].status == 0 && w.db.users[c.userId].tokenVersion == c.ver
                           then w.accepted + [token] else w.accepted
  {
  }

  /// A login that read the user before a credential change

  /**
   What is known of login `id` and user `userId`: any version the login holds, or put in its token, is
   at most `read`, and the user's is by now at least `current`.
   */
  ghost predicate Traced(w: World, id: nat, userId: int, read: int, current: int) {
    && id in w.used
    && userId in w.db.users && w.db.users[userId].tokenVersion >= current
    && (id in w.logins ==> w.logins[id].userId == userId && w.logins[id].ver <= read)
    && (id in w.tokens ==> w.tokens[id].userId == userId && w.tokens[id].ver <= read)
  }

  /** Nothing accepted in going from `w` to `w'` was the token of login `id`. */
  ghost predicate NotAccepted(w: World, w': World, id: nat) {
    && |w.accepted| <= |w'.accepted|
    && w'.accepted[..|w.accepted|] == w.accepted
    && forall i :: |w.accepted| <= i < |w'.accepted| ==> w'.accepted[i] != id
  }

  lemma TracedWrite(w: World, l: nat, id: nat, userId: int, read: int, current: int)
    requires l in w.logins && Traced(w, id, userId, read, current)
    ensures Traced(LoginWritten(w, l), id, userId, read, current)
  {
  }

  lemma TracedInsert(w: World, l: nat, jti: string, ttl: nat, id: nat, userId: int, read: int, current: int)
    requires l in w.logins && Traced(w, id, userId, read, current)
    ensures Traced(LoginInserted(w, l, jti, ttl), id, userId, read, current)
  {
  }

  lemma TracedLogin(w: World, e: Event, w': World, id: nat, userId: int, read: int, current: int)
    requires OfLogin(e) && StepLogin(w, e) == Some(w') && Traced(w, id, userId, read, current) && userId in w'.db.users
    ensures Traced(w', id, userId, read, current) && w'.accepted == w.accepted
  {
    match e
    case LoginInsert(l, jti, ttl) => TracedInsert(w, l, jti, ttl, id, userId, read, current);
    case LoginWrite(l) => TracedWrite(w, l, id, userId, read, current);
    case _ =>
  }

  lemma TracedAdmin(w: World, e: Event, w': World, id: nat, userId: int, read: int, current: int)
    requires OfAdmin(e) && StepAdmin(w, e) == Some(w') && Traced(w, id, userId, read, current) && userId in w'.db.users
    ensures Traced(w', id, userId, read, current) && w'.accepted == w.accepted
  {
  }

  lemma TracedSession(w: World, e: Event, w': World, id: nat, userId: int, read: int, current: int)
    requires !OfLogin(e) && !OfAdmin(e) && StepSession(w, e) == Some(w') && Traced(w, id, userId, read, current)
    ensures Traced(w', id, userId, read, current)
    ensures read < current ==> NotAccepted(w, w', id)
  {
  }

  lemma TracedStep(w: World, e: Event, w': World, id: nat, userId: int, read: int, current: int)
    requires Step(w, e) == Some(w') && Traced(w, id, userId, read, current) && userId in w'.db.users
    ensures Traced(w', id, userId, read, current)
    ensures read < current ==> NotAccepted(w, w', id)
  {
    if OfLogin(e) {
      TracedLogin(w, e, w', id, userId, read, current);
    } else if OfAdmin(e) {
      TracedAdmin(w, e, w', id, userId, read, current);
    } else {
      TracedSession(w, e, w', id, userId, read, current);
    }
  }

  ghost predicate Exists(w: World, userId: int) {
    userId in w.db.users
  }

  lemma {:induction false} TracedRun(w: World, es: seq<Event>, w': World, id: nat, userId: int, read: int, current: int)
    requires After(w, Step, es) == Some(w') && Always(w, Step, (x: World) => Exists(x, userId), es)
    requires Traced(w, id, userId, read, current)
    ensures Traced(w', id, userId, read, current)
    ensures read < current ==> NotAccepted(w, w', id)
  {
    if es != [] {
      var w0, e := Before(w, Step, es, w');
      TracedRun(w, es[..|es| - 1], w0, id, userId, read, current);
      TracedStep(w0, e, w', id, userId, read, current);
    }
  }

  /** The step commits a new password for the user: a change, a reset, or an update that carries one. */
  predicate ChangesPassword(w: World, e: Event, userId: int) {
    match e
    case ResetPassword(id, _) => id == userId
    case ChangePassword(token, current, _) =>
      token in w.tokens && w.tokens[token].userId == userId && ChangeRefused(w.db, w.tokens[token], current, w.clock).None?
    case UpdateCommit(id) => id in w.updates && w.updates[id].userId == userId && w.updates[id].newPassword
    case _ => false
  }

  lemma ChangeBumps(w: World, e: Event, w': World, id: nat, userId: int, read: int, current: int)
    requires Step(w, e) == Some(w') && Traced(w, id, userId, read, current) && ChangesPassword(w, e, userId)
    ensures Traced(w', id, userId, read, current + 1) && w'.accepted == w.accepted
  {
  }

  /**
   A login that read the user row before a committed password change or reset, of a user who stays,
   is of no use after it: whatever happens before and after, and even if its session is inserted
   after all sessions were revoked, its token is never accepted again.
   */
  lemma StaleLoginNeverAccepted(w0: World, id: nat, userId: int, given: string, rehash: bool, w1: World,
                                before: seq<Event>, w2: World, change: Event, w3: World, after: seq<Event>, w4: World)
    requires Step(w0, LoginRead(id, userId, given, rehash)) == Some(w1) && id !in w0.tokens && id !in w0.logins
    requires After(w1, Step, before) == Some(w2) && Always(w1, Step, (x: World) => Exists(x, userId), before)
    requires Step(w2, change) == Some(w3) && ChangesPassword(w2, change, userId)
    requires After(w3, Step, after) == Some(w4) && Always(w3, Step, (x: World) => Exists(x, userId), after)
    ensures NotAccepted(w3, w4, id)
    ensures id in w4.tokens ==> w4.tokens[id].userId == userId && !UserAccepts(w4.db.users, w4.tokens[id])
  {
    var ver := w0.db.users[userId].tokenVersion;
    assert Traced(w1, id, userId, ver, ver);
    TracedRun(w1, before, w2, id, userId, ver, ver);
    ChangeBumps(w2, change, w3, id, userId, ver, ver);
    TracedRun(w3, after, w4, id, userId, ver, ver + 1);
  }

  /// Revocation is final

  /** No session this token could be validated against is left, nor can one come back. */
  ghost predicate Dead(w: World, token: nat) {
    && token in w.used && token !in w.logins && token in w.tokens
    && w.tokens[token].jti in w.issued
    && (w.tokens[token].jti in w.db.sessions ==>
          var s := w.db.sessions[w.tokens[token].jti];
          s.userId != w.tokens[token].userId || s.revokedAt.Some?)
  }

  /** The authentications of a token whose session was read, and whose user was not yet. */
  function InFlight(auths: map<nat, nat>, token: nat): set<nat> {
    set a | a in auths && auths[a] == token
  }

  function Acceptances(accepted: seq<nat>, token: nat): nat {
    multiset(accepted)[token]
  }

  /** Going from `w` to `w'`, every acceptance of the token has used up an authentication in flight. */
  ghost predicate Spends(w: World, w': World, token: nat) {
    && w.accepted <= w'.accepted
    && Acceptances(w'.accepted[|w.accepted|..], token) + |InFlight(w'.auths, token)| <= |InFlight(w.auths, token)|
  }

  lemma SpendsOnward(w: World, w0: World, w': World, token: nat)
    requires Spends(w, w0, token) && Spends(w0, w', token)
    ensures Spends(w, w', token)
  {
    var n, n0 := |w.accepted|, |w0.accepted|;
    assert w'.accepted[n..] == w0.accepted[n..] + w'.accepted[n0..];
  }

  lemma SpendsNone(w: World, w': World, token: nat)
    requires Spends(w, w', token) && InFlight(w.auths, token) == {}
    ensures NotAccepted(w, w', token)
  {
    var more := w'.accepted[|w.accepted|..];
    forall i | |w.accepted| <= i < |w'.accepted|
      ensures w'.accepted[i] != token
    {
      assert w'.accepted[i] == more[i - |w.accepted|];
      assert w'.accepted[i] in multiset(more);
    }
  }

  lemma SpendsNothing(w: World, w': World, token: nat)
    requires w'.accepted == w.accepted && InFlight(w'.auths, token) <= InFlight(w.auths, token)
    ensures Spends(w, w', token)
  {
    Subset(InFlight(w'.auths, token), InFlight(w.auths, token));
    assert w'.accepted[|w.accepted|..] == [];
  }

  lemma SpendsOne(w: World, auth: nat, w': World, token: nat)
    requires auth in w.auths && w'.auths == w.auths - {auth}
    requires w'.accepted == w.accepted || w'.accepted == w.accepted + [w.auths[auth]]
    ensures Spends(w, w', token)
  {
    var flying, flying' := InFlight(w.auths, token), InFlight(w'.auths, token);
    assert flying == if w.auths[auth] == token then flying' + {auth} else flying';
    var more := w'.accepted[|w.accepted|..];
    assert more == [] || more == [w.auths[auth]];
  }

  lemma DeadLogin(w: World, e: Event, w': World, token: nat)
    requires OfLogin(e) && StepLogin(w, e) == Some(w') && Dead(w, token)
    ensures Dead(w', token) && w'.accepted == w.accepted && w'.auths == w.auths
  {
  }

  lemma DeadAdmin(w: World, e: Event, w': World, token: nat)
    requires OfAdmin(e) && StepAdmin(w, e) == Some(w') && Dead(w, token)
    ensures Dead(w', token) && w'.accepted == w.accepted && w'.auths == w.auths
  {
  }

  lemma DeadSession(w: World, e: Event, w': World, token: nat)
    requires !OfLogin(e) && !OfAdmin(e) && StepSession(w, e) == Some(w') && Dead(w, token)
    ensures Dead(w', token) && Spends(w, w', token)
  {
    if e.AuthUser? {
      SpendsOne(w, e.auth, w', token);
    } else {
      SpendsNothing(w, w', token);
    }
  }

  lemma {:induction false} DeadRun(w: World, es: seq<Event>, w': World, token: nat)
    requires After(w, Step, es) == Some(w') && Dead(w, token)
    ensures Dead(w', token) && Spends(w, w', token)
  {
    if es == [] {
      SpendsNothing(w, w', token);
    } else {
      var w0, e := Before(w, Step, es, w');
      DeadRun(w, es[..|es| - 1], w0, token);
      if OfLogin(e) {
        DeadLogin(w0, e, w', token);
        SpendsNothing(w0, w', token);
      } else if OfAdmin(e) {
        DeadAdmin(w0, e, w', token);
        SpendsNothing(w0, w', token);
      } else {
        DeadSession(w0, e, w', token);
      }
      SpendsOnward(w, w0, w', token);
    }
  }

  /**
   What holds in every reachable world: a minted token's login is over and its identifier was drawn, and
   a session's user is there.
   */
  ghost predicate Minted(w: World) {
    && (forall t :: t in w.tokens ==> t in w.used && t !in w.logins && w.tokens[t].jti in w.issued)
    && (forall t :: t in w.logins ==> t in w.used)
    && (forall j :: j in w.db.sessions ==> j in w.issued && w.db.sessions[j].userId in w.db.users)
  }

  lemma MintedLogin(w: World, e: Event, w': World)
    requires OfLogin(e) && StepLogin(w, e) == Some(w') && Minted(w)
    ensures Minted(w')
  {
  }

  lemma MintedAdmin(w: World, e: Event, w': World)
    requires OfAdmin(e) && StepAdmin(w, e) == Some(w') && Minted(w)
    ensures Minted(w')
  {
  }

  lemma MintedSession(w: World, e: Event, w': World)
    requires !OfLogin(e) && !OfAdmin(e) && StepSession(w, e) == Some(w') && Minted(w)
    ensures Minted(w')
  {
  }

  lemma MintedStep(w: World, e: Event, w': World)
    requires Step(w, e) == Some(w') && Minted(w)
    ensures Minted(w')
  {
    if OfLogin(e) {
      MintedLogin(w, e, w');
    } else if OfAdmin(e) {
      MintedAdmin(w, e, w');
    } else {
      MintedSession(w, e, w');
    }
  }

  lemma {:induction false} MintedRun(es: seq<Event>, w: World)
    requires After(START, Step, es) == Some(w)
    ensures Minted(w)
  {
    if es != [] {
      var w0, e := Before(START, Step, es, w);
      MintedRun(es[..|es| - 1], w0);
      MintedStep(w0, e, w);
    }
  }

  /** The step is meant to end every session of the user. */
  predicate EndsSessions(w: World, e: Event, userId: int) {
    || ChangesPassword(w, e, userId)
    || e == DeleteUser(userId)
    || (e.UpdateCommit? && e.id in w.updates && w.updates[e.id].userId == userId && w.updates[e.id].merged.status != 0)
  }

  lemma EndsAll(w: World, e: Event, w': World, userId: int, token: nat)
    requires Step(w, e) == Some(w') && userId in w.db.users && Minted(w)
    requires token in w.tokens && w.tokens[token].userId == userId
    requires EndsSessions(w, e, userId) || e == Logout(token)
    ensures Dead(w', token) && w'.accepted == w.accepted && w'.auths == w.auths && w'.tokens == w.tokens
  {
  }

  /**
   After a logout, a password change or reset, a deletion or a disabling update, a token the user held
   is accepted at most once for each authentication that had read its session when the step committed:
   never, if there was none.
   */
  lemma RevocationIsFinal(before: seq<Event>, w1: World, e: Event, w2: World, after: seq<Event>, w3: World, userId: int, token: nat)
    requires After(START, Step, before) == Some(w1) && Step(w1, e) == Some(w2) && After(w2, Step, after) == Some(w3)
    requires userId in w1.db.users && token in w1.tokens && w1.tokens[token].userId == userId
    requires EndsSessions(w1, e, userId) || e == Logout(token)
    ensures Spends(w1, w3, token)
    ensures InFlight(w1.auths, token) == {} ==> NotAccepted(w1, w3, token)
  {
    MintedRun(before, w1);
    EndsAll(w1, e, w2, userId, token);
    DeadRun(w2, after, w3, token);
    SpendsNothing(w1, w2, token);
    SpendsOnward(w1, w2, w3, token);
    if InFlight(w1.auths, token) == {} {
      SpendsNone(w1, w3, token);
    }
  }

  /**
   An authentication that had read the session of a token when the step committed, and reads its user
   next, accepts the token exactly when the step was a logout and the user would have been accepted
   before it. The user has been there since the login read the row.
   */
  lemma InFlightAtRevocation(w0: World, token: nat, userId: int, given: string, rehash: bool, w1: World, es: seq<Event>, w2: World,
                             e: Event, w3: World, auth: nat, w4: World)
    requires Step(w0, LoginRead(token, userId, given, rehash)) == Some(w1) && token !in w0.tokens && token !in w0.logins
    requires After(w1, Step, es) == Some(w2) && Always(w1, Step, (x: World) => Exists(x, userId), es)
    requires token in w2.tokens && auth in w2.auths && w2.auths[auth] == token
    requires Step(w2, e) == Some(w3) && (EndsSessions(w2, e, userId) || e == Logout(token))
    requires Step(w3, AuthUser(auth)) == Some(w4)
    ensures w4.accepted == if e == Logout(token) && UserAccepts(w2.db.users, w2.tokens[token]) then w2.accepted + [token] else w2.accepted
  {
    var ver := w0.db.users[userId].tokenVersion;
    assert Traced(w1, token, userId, ver, ver);
    TracedRun(w1, es, w2, token, userId, ver, ver);
    RefusedAfter(w2, e, w3, userId, token);
    UserRead(w3, auth, token, w4);
  }

  lemma UserRead(w: World, auth: nat, token: nat, w': World)
    requires auth in w.auths && w.auths[auth] == token && token in w.tokens && Step(w, AuthUser(auth)) == Some(w')
    ensures w'.accepted == if UserAccepts(w.db.users, w.tokens[token]) then w.accepted + [token] else w.accepted
  {
  }

  lemma RefusedAfter(w: World, e: Event, w': World, userId: int, token: nat)
    requires Step(w, e) == Some(w') && userId in w.db.users && token in w.tokens && w.tokens[token].userId == userId
    requires w.tokens[token].ver <= w.db.users[userId].tokenVersion
    requires EndsSessions(w, e, userId) || e == Logout(token)
    ensures w'.accepted == w.accepted && w'.auths == w.auths && w'.tokens == w.tokens
    ensures UserAccepts(w'.db.users, w.tokens[token]) <==> e == Logout(token) && UserAccepts(w.db.users, w.tokens[token])
  {
  }

  /** No continuation of `w'` ever accepts the token, counting from `w`. */
  ghost predicate NeverAgain(w: World, w': World, token: nat) {
    forall es: seq<Event> :: After(w', Step, es).Some? ==> NotAccepted(w, After(w', Step, es).value, token)
  }

  /**
   After a logout, the token of an acceptable user is never accepted again, whatever comes, exactly when
   no authentication had read its session.
   */
  lemma LogoutExactly(before: seq<Event>, w1: World, w2: World, token: nat)
    requires After(START, Step, before) == Some(w1) && Step(w1, Logout(token)) == Some(w2)
    requires UserAccepts(w1.db.users, w1.tokens[token])
    ensures NeverAgain(w1, w2, token) <==> InFlight(w1.auths, token) == {}
  {
    var userId := w1.tokens[token].userId;
    MintedRun(before, w1);
    EndsAll(w1, Logout(token), w2, userId, token);
    if InFlight(w1.auths, token) == {} {
      forall es: seq<Event> | After(w2, Step, es).Some?
        ensures NotAccepted(w1, After(w2, Step, es).value, token)
      {
        RevocationIsFinal(before, w1, Logout(token), w2, es, After(w2, Step, es).value, userId, token);
      }
    } else {
      var auth :| auth in InFlight(w1.auths, token);
      var w3 := Step(w2, AuthUser(auth)).value;
      UserRead(w2, auth, token, w3);
      AfterFirst(w2, Step, AuthUser(auth), w3);
      assert w3.accepted[|w1.accepted|] == token;
      assert !NotAccepted(w1, w3, token);
    }
  }

  function LateUser(): User {
    User("u", "p", 0, 0, 0, false, false)
  }

  /** The user, the login, the session and the first read of an authentication. */
  function LateStart(): seq<Event> {
    [CreateUser(1, LateUser()), LoginRead(0, 1, "p", false), LoginWrite(0), LoginInsert(0, "j", 60), AuthSession(0, 0)]
  }

  /** The world that such a run ends in. */
  function LateWorld(): World {
    World(Db(map[1 := LateUser()], map["j" := Session(1, 60, None)]), 0,
          map[], {0}, map[0 := Claims(1, "j", 60, 0)], {"j"}, map[], map[0 := 0], [])
  }

  /** The world in which its login has this left to write. */
  function LateLogin(todo: Todo): World {
    START.(db := Db(map[1 := LateUser()], map[]), used := {0}, logins := map[0 := Login(1, 0, "p", todo)])
  }

  lemma LateSteps()
    ensures Step(LateLogin(Welcome(false)), LoginWrite(0)) == Some(LateLogin(Insert))
    ensures Step(LateLogin(Insert), LoginInsert(0, "j", 60)) == Some(LateWorld().(auths := map[]))
    ensures Step(LateWorld().(auths := map[]), AuthSession(0, 0)) == Some(LateWorld())
  {
    var r, w := LoginWritten(LateLogin(Welcome(false)), 0), LateLogin(Insert);
    assert r.db.users == w.db.users && r.logins == w.logins;
    var r', w' := LoginInserted(LateLogin(Insert), 0, "j", 60), LateWorld();
    assert r'.logins == w'.logins && r'.tokens == w'.tokens && r'.issued == w'.issued && r'.db.sessions == w'.db.sessions;
  }

  lemma LateRun()
    ensures After(START, Step, LateStart()) == Some(LateWorld())
  {
    var inserted := LateWorld().(auths := map[]);
    assert After(START, Step, LateStart()[..2]) == Some(LateLogin(Welcome(false))) by {
      var created := START.(db := Db(map[1 := LateUser()], map[]));
      var read := LateLogin(Welcome(false));
      AfterFirst(START, Step, LateStart()[0], created);
      assert created.used + {0} == {0} && created.logins[0 := read.logins[0]] == read.logins;
      AfterMore(START, Step, [LateStart()[0]], created, LateStart()[1], read, LateStart()[..2]);
    }
    LateSteps();
    AfterMore(START, Step, LateStart()[..2], LateLogin(Welcome(false)), LoginWrite(0), LateLogin(Insert), LateStart()[..3]);
    AfterMore(START, Step, LateStart()[..3], LateLogin(Insert), LoginInsert(0, "j", 60), inserted, LateStart()[..4]);
    AfterMore(START, Step, LateStart()[..4], inserted, AuthSession(0, 0), LateWorld(), LateStart());
  }

  /** From the start, a run in which a token is accepted after its logout. */
  lemma AcceptedAfterLogout() returns (w1: World, w2: World)
    ensures After(START, Step, LateStart()) == Some(w1) && Step(w1, Logout(0)) == Some(w2)
    ensures UserAccepts(w1.db.users, w1.tokens[0]) && !NeverAgain(w1, w2, 0)
  {
    LateRun();
    w1 := LateWorld();
    w2 := Step(w1, Logout(0)).value;
    assert 0 in InFlight(w1.auths, 0);
    LogoutExactly(LateStart(), w1, w2, 0);
  }

  /// One login alone

  /** The steps of a login that nothing comes between, from its read on. */
  function LoginSteps(id: nat, userId: int, u: User, given: string, rehash: bool, jti: string, ttl: nat): seq<Event> {
    [LoginRead(id, userId, given, rehash)]
    + (if u.status != 0 then []
       else if LoginRefused(u, given, true).Some? then [LoginWrite(id)]
       else if rehash then [LoginWrite(id), LoginWrite(id), LoginInsert(id, jti, ttl)]
       else [LoginWrite(id), LoginInsert(id, jti, ttl)])
  }

  /** The login has read and written its row, and is about to insert its session. */
  function AboutToInsert(w: World, id: nat, userId: int, given: string): World
    requires userId in w.db.users
  {
    var login := Login(userId, w.db.users[userId].tokenVersion, given, Insert);
    w.(db := AfterLogin(w.db, userId, given, true), used := w.used + {id}, logins := w.logins[id := login])
  }

  /** The login has reset the error count. */
  function Welcomed(w: World, id: nat, userId: int, given: string): World
    requires userId in w.db.users
  {
    var w' := AboutToInsert(w, id, userId, given);
    w'.(logins := w'.logins[id := w'.logins[id].(todo := Rehash)])
  }

  lemma WelcomeStep(w: World, id: nat, userId: int, given: string, rehash: bool)
    requires id !in w.used && userId in w.db.users && LoginRefused(w.db.users[userId], given, true).None?
    ensures Step(w, LoginRead(id, userId, given, rehash)).Some?
    ensures Step(Step(w, LoginRead(id, userId, given, rehash)).value, LoginWrite(id))
         == Some(if rehash then Welcomed(w, id, userId, given) else AboutToInsert(w, id, userId, given))
  {
    var w' := if rehash then Welcomed(w, id, userId, given) else AboutToInsert(w, id, userId, given);
    var r := LoginWritten(Step(w, LoginRead(id, userId, given, rehash)).value, id);
    assert r.logins == w'.logins && r.db.users == w'.db.users;
  }

  lemma UpToInsert(w: World, id: nat, userId: int, given: string, rehash: bool) returns (es: seq<Event>)
    requires id !in w.used && userId in w.db.users && LoginRefused(w.db.users[userId], given, true).None?
    ensures es == [LoginRead(id, userId, given, rehash)] + (if rehash then [LoginWrite(id), LoginWrite(id)] else [LoginWrite(id)])
    ensures After(w, Step, es) == Some(AboutToInsert(w, id, userId, given))
  {
    var read := LoginRead(id, userId, given, rehash);
    WelcomeStep(w, id, userId, given, rehash);
    var w1 := Step(w, read).value;
    AfterFirst(w, Step, read, w1);
    var w2 := Step(w1, LoginWrite(id)).value;
    es := [read, LoginWrite(id)];
    AfterMore(w, Step, [read], w1, LoginWrite(id), w2, es);
    if rehash {
      var w3 := AboutToInsert(w, id, userId, given);
      assert Step(w2, LoginWrite(id)) == Some(w3) by {
        var r := LoginWritten(w2, id);
        assert r.logins == w3.logins && r.db.users == w3.db.users;
      }
      AfterMore(w, Step, es, w2, LoginWrite(id), AboutToInsert(w, id, userId, given), es + [LoginWrite(id)]);
      es := es + [LoginWrite(id)];
    }
  }

  lemma LoginRefusedAlone(w: World, id: nat, userId: int, given: string, rehash: bool, jti: string, ttl: nat) returns (w': World)
    requires id !in w.used && userId in w.db.users && LoginRefused(w.db.users[userId], given, true).Some?
    ensures After(w, Step, LoginSteps(id, userId, w.db.users[userId], given, rehash, jti, ttl)) == Some(w')
    ensures w'.db == AfterLogin(w.db, userId, given, true) && w'.tokens == w.tokens
  {
    var u := w.db.users[userId];
    var read := LoginRead(id, userId, given, rehash);
    w' := Step(w, read).value;
    AfterFirst(w, Step, read, w');
    if u.status != 0 {
      assert SetUser(w.db, userId, u) == w.db;
      assert LoginSteps(id, userId, u, given, rehash, jti, ttl) == [read];
    } else {
      var w1 := w';
      w' := LoginWritten(w1, id);
      AfterMore(w, Step, [read], w1, LoginWrite(id), w', LoginSteps(id, userId, u, given, rehash, jti, ttl));
    }
  }

  /**
   The steps are those of the method: with nothing in between, a login leaves the row, the session and
   the token that `IssueSessionToken` does.
   */
  lemma LoginAsTheMethod(w: World, id: nat, userId: int, given: string, rehash: bool, jti: string, ttl: nat) returns (w': World)
    requires id !in w.used && userId in w.db.users && jti !in w.issued && jti !in w.db.sessions
    ensures After(w, Step, LoginSteps(id, userId, w.db.users[userId], given, rehash, jti, ttl)) == Some(w')
    ensures var u, expires := w.db.users[userId], Seconds(w.clock) + ttl;
            if LoginRefused(u, given, true).Some? then w'.db == AfterLogin(w.db, userId, given, true) && w'.tokens == w.tokens
            else && LoggedIn(w.db, userId, given, jti, expires) == Some(w'.db)
                 && w'.tokens == w.tokens[id := Claims(userId, jti, expires, u.tokenVersion)]
  {
    if LoginRefused(w.db.users[userId], given, true).Some? {
      w' := LoginRefusedAlone(w, id, userId, given, rehash, jti, ttl);
    } else {
      var es := UpToInsert(w, id, userId, given, rehash);
      var w0 := AboutToInsert(w, id, userId, given);
      w' := LoginInserted(w0, id, jti, ttl);
      AfterMore(w, Step, es, w0, LoginInsert(id, jti, ttl), w', LoginSteps(id, userId, w.db.users[userId], given, rehash, jti, ttl));
    }
  }

  /// The new password is the one that counts

  /** The password that a committed change, reset or update puts into the row of the user, and whether it must be changed. */
  function PasswordSet(w: World, e: Event, userId: int): Option<(string, bool)> {
    match e
    case ResetPassword(id, password) => if id == userId && id in w.db.users then Some((password, true)) else None
    case ChangePassword(_, _, password) => if ChangesPassword(w, e, userId) then Some((password, false)) else None
    case UpdateCommit(id) =>
      if ChangesPassword(w, e, userId) && userId in w.db.users
      then Some((w.updates[id].merged.password, w.updates[id].merged.mustChange)) else None
    case _ => None
  }

  /** A step that commits a password leaves it in the row, as `NewPassword` says it of the methods. */
  lemma PasswordStep(w: World, e: Event, w': World, userId: int)
    requires Step(w, e) == Some(w') && PasswordSet(w, e, userId).Some? && !e.UpdateCommit?
    ensures var (password, mustChange) := PasswordSet(w, e, userId).value;
            NewPassword(w.db, w'.db, userId, password, mustChange)
  {
  }

  /**
   After a committed change, reset or update of the password, a login of the user, if he is active and
   not locked out, is answered with a token exactly when the password given is the new one.
   */
  lemma OnlyTheNewPassword(w: World, e: Event, w': World, userId: int, id: nat, given: string, rehash: bool, jti: string, ttl: nat)
    returns (w'': World)
    requires Step(w, e) == Some(w') && PasswordSet(w, e, userId).Some?
    requires w'.db.users[userId].status == 0 && w'.db.users[userId].errorCount < 5
    requires id !in w'.used && id !in w'.tokens && jti !in w'.issued && jti !in w'.db.sessions
    ensures After(w', Step, LoginSteps(id, userId, w'.db.users[userId], given, rehash, jti, ttl)) == Some(w'')
    ensures id in w''.tokens <==> given == PasswordSet(w, e, userId).value.0
  {
    w'' := LoginAsTheMethod(w', id, userId, given, rehash, jti, ttl);
  }

  /// Purging is unobservable

  /** The same world but for sessions that can no longer be validated, which the second may lack. */
  ghost predicate Alike(w: World, p: World) {
    p == w.(db := p.db) && AlikeDb(w.db, p.db, w.clock, w.issued)
  }

  predicate Past(s: Session, now: Instant) {
    s.revokedAt.Some? || s.expiresAt * SECOND < now
  }

  lemma AlikeInsert(w: World, p: World, id: nat, jti: string, ttl: nat)
    requires Alike(w, p) && id in w.logins && jti !in w.issued
    ensures Alike(LoginInserted(w, id, jti, ttl), LoginInserted(p, id, jti, ttl))
  {
  }

  lemma AlikeWrite(w: World, p: World, id: nat)
    requires Alike(w, p) && id in w.logins
    ensures Alike(LoginWritten(w, id), LoginWritten(p, id))
  {
  }

  lemma AlikeLogin(w: World, p: World, e: Event, w': World)
    requires Alike(w, p) && OfLogin(e) && StepLogin(w, e) == Some(w')
    ensures StepLogin(p, e).Some? && Alike(w', StepLogin(p, e).value)
  {
    match e
    case LoginInsert(id, jti, ttl) => AlikeInsert(w, p, id, jti, ttl);
    case LoginWrite(id) => AlikeWrite(w, p, id);
    case _ =>
  }

  /** The same for the two tables. */
  ghost predicate AlikeDb(d: Db, d': Db, now: Instant, issued: set<string>) {
    && d'.users == d.users
    && (forall j :: j in d.sessions ==> j in issued)
    && (forall j :: j in d'.sessions ==> j in d.sessions && d'.sessions[j] == d.sessions[j])
    && (forall j :: j in d.sessions && j !in d'.sessions ==> Past(d.sessions[j], now))
  }

  lemma AlikeRevoked(d: Db, d': Db, userId: int, now: Instant, issued: set<string>)
    requires AlikeDb(d, d', now, issued)
    ensures AlikeDb(AllRevoked(d, userId, now), AllRevoked(d', userId, now), now, issued)
  {
  }

  lemma AlikeUpdated(d: Db, d': Db, id: int, merged: User, newPassword: bool, now: Instant, issued: set<string>)
    requires AlikeDb(d, d', now, issued)
    ensures AlikeDb(Or(Updated(d, id, merged, newPassword, now), d), Or(Updated(d', id, merged, newPassword, now), d'), now, issued)
  {
    if id in d.users {
      var written := SetUser(d, id, WrittenBack(d.users[id], merged));
      var written' := SetUser(d', id, WrittenBack(d'.users[id], merged));
      var bumped := if newPassword then Bumped(written, id).value else written;
      var bumped' := if newPassword then Bumped(written', id).value else written';
      AlikeRevoked(bumped, bumped', id, now, issued);
    }
  }

  lemma AlikeRekeyed(d: Db, d': Db, id: int, password: string, mustChange: bool, now: Instant, issued: set<string>)
    requires AlikeDb(d, d', now, issued)
    ensures AlikeDb(Or(Rekeyed(d, id, password, mustChange, now), d), Or(Rekeyed(d', id, password, mustChange, now), d'), now, issued)
  {
    if id in d.users {
      var written := SetUser(d, id, d.users[id].(password := password, mustChange := mustChange));
      var written' := SetUser(d', id, d'.users[id].(password := password, mustChange := mustChange));
      AlikeRevoked(Bumped(written, id).value, Bumped(written', id).value, id, now, issued);
    }
  }

  lemma AlikeRefused(d: Db, d': Db, c: Claims, current: string, now: Instant, issued: set<string>)
    requires AlikeDb(d, d', now, issued)
    ensures ChangeRefused(d, c, current, now) == ChangeRefused(d', c, current, now)
  {
  }

  lemma AlikeAdmin(w: World, p: World, e: Event, w': World)
    requires Alike(w, p) && OfAdmin(e) && StepAdmin(w, e) == Some(w')
    ensures StepAdmin(p, e).Some? && Alike(w', StepAdmin(p, e).value)
  {
    match e
    case UpdateCommit(id) =>
      var u := w.updates[id];
      AlikeUpdated(w.db, p.db, u.userId, u.merged, u.newPassword, w.clock, w.issued);
    case ResetPassword(userId, password) => AlikeRekeyed(w.db, p.db, userId, password, true, w.clock, w.issued);
    case ChangePassword(token, current, password) =>
      AlikeRefused(w.db, p.db, w.tokens[token], current, w.clock, w.issued);
      AlikeRekeyed(w.db, p.db, w.tokens[token].userId, password, false, w.clock, w.issued);
    case _ =>
  }

  lemma AlikeSession(w: World, p: World, e: Event, w': World)
    requires Alike(w, p) && !OfLogin(e) && !OfAdmin(e) && StepSession(w, e) == Some(w')
    ensures StepSession(p, e).Some? && Alike(w', StepSession(p, e).value)
  {
  }

  lemma {:induction false} AlikeRun(w: World, p: World, es: seq<Event>, w': World) returns (p': World)
    requires Alike(w, p) && After(w, Step, es) == Some(w')
    ensures After(p, Step, es) == Some(p') && Alike(w', p')
  {
    if es == [] {
      p' := p;
    } else {
      var w0, e := Before(w, Step, es, w');
      var p0 := AlikeRun(w, p, es[..|es| - 1], w0);
      if OfLogin(e) {
        AlikeLogin(w0, p0, e, w');
      } else if OfAdmin(e) {
        AlikeAdmin(w0, p0, e, w');
      } else {
        AlikeSession(w0, p0, e, w');
      }
      p' := Step(p0, e).value;
    }
  }

  /**
   A purge may be put anywhere in a run: once the clock has moved on, the rest of the run goes the
   same way, step by step, with the same tokens issued and the same authentications accepted.
   */
  lemma PurgeAnywhere(before: seq<Event>, w: World, later: Instant, es: seq<Event>, w': World) returns (p': World)
    requires After(START, Step, before) == Some(w) && w.clock < later
    requires After(w.(clock := later), Step, es) == Some(w')
    ensures After(w.(db := Purged(w.db, w.clock, w.clock), clock := later), Step, es) == Some(p')
    ensures p' == w'.(db := Db(w'.db.users, p'.db.sessions)) && AlikeDb(w'.db, p'.db, w'.clock, w'.issued)
  {
    MintedRun(before, w);
    var p := w.(db := Purged(w.db, w.clock, w.clock), clock := later);
    forall j | j in w.db.sessions && j !in p.db.sessions
      ensures Past(w.db.sessions[j], later)
    {
      ExpiredBySecond(w.db.sessions[j].expiresAt, w.clock);
    }
    p' := AlikeRun(w.(clock := later), p, es, w');
  }
}
