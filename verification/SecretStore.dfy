/** Sealed secrets in their table, and the rotation of the master key, as src/secrets/store.rs keeps them. */
module SecretStore {
  import opened Runs
  import opened Secrets
  import opened Sqlite
  import opened Text
  import opened Wrappers

  /** `secrets`, whose rows are keyed by their unique name. */
  datatype Row = Row(id: nat, purpose: string, sealed: Sealed)

  /** `keys` has when each key was retired, if it was. */
  datatype Db = Db(keys: map<string, Option<int>>, secrets: map<string, Row>, nextId: nat)

  function Registered(db: Db, keyId: string): Db {
    if keyId in db.keys then db else db.(keys := db.keys[keyId := None])
  }

  /** The upsert keeps the id of a name that is there. */
  function Stored(db: Db, name: string, purpose: string, sealed: Sealed): Db {
    if name in db.secrets
    then db.(secrets := db.secrets[name := Row(db.secrets[name].id, purpose, sealed)])
    else db.(secrets := db.secrets[name := Row(db.nextId, purpose, sealed)], nextId := db.nextId + 1)
  }

  function Put(db: Db, kek: MasterKey, purpose: string, name: string, plaintext: Bytes, d: Draw): Db {
    Stored(Registered(db, kek.id), name, purpose, Encrypt(kek, purpose, name, plaintext, d))
  }

  function Get(db: Db, kek: MasterKey, name: string): Result<Bytes, SecretError> {
    if name !in db.secrets then Err(Missing)
    else Decrypt(kek, db.secrets[name].purpose, name, db.secrets[name].sealed)
  }

  /// Rotation

  function Under(secrets: map<string, Row>, keyId: string): set<string> {
    set n | n in secrets && secrets[n].sealed.keyId == keyId
  }

  /** Every row on the old key id can be unwrapped with the old key. */
  predicate CanRotate(secrets: map<string, Row>, retiring: MasterKey, incoming: MasterKey, draws: string -> Nonce) {
    forall n | n in secrets :: secrets[n].sealed.keyId == retiring.id ==> Rewrap(retiring, incoming, secrets[n].sealed, draws(n)).Ok?
  }

  function RewrapRow(r: Row, retiring: MasterKey, incoming: MasterKey, draw: Nonce): Row {
    var rotated := Rewrap(retiring, incoming, r.sealed, draw);
    if rotated.Ok? then r.(sealed := rotated.value) else r
  }

  /** The table with the rows of `names` re-wrapped; every row draws its own nonce. */
  function Rewrapped(secrets: map<string, Row>, names: set<string>, retiring: MasterKey, incoming: MasterKey, draws: string -> Nonce): map<string, Row> {
    map n | n in secrets :: if n in names then RewrapRow(secrets[n], retiring, incoming, draws(n)) else secrets[n]
  }

  function Retired(keys: map<string, Option<int>>, keyId: string, incoming: string, ts: int): map<string, Option<int>> {
    if keyId in keys && keyId != incoming then keys[keyId := Some(ts)] else keys
  }

  function Rotated(db: Db, retiring: MasterKey, incoming: MasterKey, draws: string -> Nonce, ts: int): Db {
    Db(Retired(Registered(db, incoming.id).keys, retiring.id, incoming.id, ts),
       Rewrapped(db.secrets, Under(db.secrets, retiring.id), retiring, incoming, draws), db.nextId)
  }

  /// The same over a connection, statement by statement

  method RegisterKey(conn: Connection<Db>, keyId: string) returns (ok: bool)
    modifies conn
    ensures conn.Since(old(conn.durable), old(conn.working), old(conn.trail))
    ensures conn.Current() == if ok then Registered(old(conn.Current()), keyId) else old(conn.Current())
    ensures conn.Sound() ==> ok
  {
    ok := conn.Attempt();
    if ok {
      conn.Write(Registered(conn.Current(), keyId));
    }
  }

  /** An error may come after the key was registered, or even after the secret was stored. */
  method PutSecret(conn: Connection<Db>, kek: MasterKey, purpose: string, name: string, plaintext: Bytes, d: Draw)
    returns (r: Result<nat, SecretError>)
    modifies conn
    ensures conn.Since(old(conn.durable), old(conn.working), old(conn.trail))
    ensures r.Ok? ==> && conn.Current() == Put(old(conn.Current()), kek, purpose, name, plaintext, d)
                      && r.value == conn.Current().secrets[name].id
    ensures r.Err? ==> conn.Current() in {old(conn.Current()), Registered(old(conn.Current()), kek.id),
                                          Put(old(conn.Current()), kek, purpose, name, plaintext, d)}
    ensures r.Ok? ==>
              var was, left := old(conn.Current()), conn.Current();
              && left.keys == (if kek.id in was.keys then was.keys else was.keys[kek.id := None])
              && left.secrets == was.secrets[name := Row(r.value, purpose, Encrypt(kek, purpose, name, plaintext, d))]
              && (if name in was.secrets then r.value == was.secrets[name].id && left.nextId == was.nextId
                  else r.value == was.nextId && left.nextId == was.nextId + 1)
    ensures IsBlank(purpose) || IsBlank(name) ==> r == Err(Required) && conn.Current() == old(conn.Current())
    ensures conn.Sound() ==> (r.Err? <==> IsBlank(purpose) || IsBlank(name))
  {
    if IsBlank(purpose) || IsBlank(name) {
      return Err(Required);
    }
    var ok := RegisterKey(conn, kek.id);
    if !ok {
      return Err(StoreFailed);
    }
    var sealed := Encrypt(kek, purpose, name, plaintext, d);
    ok := conn.Attempt();
    if !ok {
      return Err(StoreFailed);
    }
    conn.Write(Stored(conn.Current(), name, purpose, sealed));
    ok := conn.Attempt();
    if !ok {
      return Err(StoreFailed);
    }
    r := Ok(conn.Current().secrets[name].id);
  }

  method GetSecret(conn: Connection<Db>, kek: MasterKey, name: string) returns (r: Result<Bytes, SecretError>)
    modifies conn`statements
    ensures r.Ok? ==> r == Get(conn.Current(), kek, name)
    ensures conn.Sound() ==> r == Get(conn.Current(), kek, name)
  {
    var ok := conn.Attempt();
    if !ok {
      return Err(StoreFailed);
    }
    var secrets := conn.Current().secrets;
    if name !in secrets {
      return Err(Missing);
    }
    r := Decrypt(kek, secrets[name].purpose, name, secrets[name].sealed);
  }

  method DeleteSecret(conn: Connection<Db>, name: string) returns (r: Result<bool, SecretError>)
    modifies conn
    ensures conn.Since(old(conn.durable), old(conn.working), old(conn.trail))
    ensures r.Ok? ==> && conn.Current() == old(conn.Current()).(secrets := old(conn.Current()).secrets - {name})
                      && r.value == (name in old(conn.Current()).secrets)
    ensures r.Err? ==> conn.Current() == old(conn.Current())
    ensures conn.Sound() ==> r.Ok?
  {
    var ok := conn.Attempt();
    if !ok {
      return Err(StoreFailed);
    }
    var db := conn.Current();
    r := Ok(name in db.secrets);
    conn.Write(db.(secrets := db.secrets - {name}));
  }

  lemma RewrappedMore(secrets: map<string, Row>, names: set<string>, n: string, retiring: MasterKey, incoming: MasterKey, draws: string -> Nonce)
    requires n in secrets && n !in names
    ensures Rewrapped(secrets, names, retiring, incoming, draws)[n := RewrapRow(secrets[n], retiring, incoming, draws(n))]
         == Rewrapped(secrets, names + {n}, retiring, incoming, draws)
  {
  }

  lemma OneMore(all: set<string>, rest: set<string>, n: string)
    requires rest <= all && n in rest
    ensures all - (rest - {n}) == (all - rest) + {n} && |all - (rest - {n})| == |all - rest| + 1
  {
    assert all - (rest - {n}) == (all - rest) + {n};
  }

  /** The rotation's loop over the rows on the old key id, in the order the query happened to list them. */
  method RewrapRows(conn: Connection<Db>, retiring: MasterKey, incoming: MasterKey, draws: string -> Nonce) returns (r: Result<nat, SecretError>)
    requires conn.working.Some?
    modifies conn
    ensures conn.working.Some? && conn.durable == old(conn.durable) && conn.trail == old(conn.trail)
    ensures var was := old(conn.working).value;
            && (r.Ok? ==> && CanRotate(was.secrets, retiring, incoming, draws) && r.value == |Under(was.secrets, retiring.id)|
                          && conn.working == Some(was.(secrets := Rewrapped(was.secrets, Under(was.secrets, retiring.id), retiring, incoming, draws))))
            && (conn.Sound() ==> (r.Ok? <==> CanRotate(was.secrets, retiring, incoming, draws)))
  {
    var was := conn.working.value;
    var ok := conn.Attempt();
    if !ok {
      return Err(StoreFailed);
    }
    var all := Under(was.secrets, retiring.id);
    var rest := all;
    var count := 0;
    assert Rewrapped(was.secrets, all - rest, retiring, incoming, draws) == was.secrets;
    while rest != {}
      invariant rest <= all && count == |all - rest|
      invariant conn.working == Some(was.(secrets := Rewrapped(was.secrets, all - rest, retiring, incoming, draws)))
      invariant conn.durable == old(conn.durable) && conn.trail == old(conn.trail)
      invariant forall n :: n in all - rest ==> Rewrap(retiring, incoming, was.secrets[n].sealed, draws(n)).Ok?
      decreases rest
    {
      var n :| n in rest;
      var rotated := Rewrap(retiring, incoming, was.secrets[n].sealed, draws(n));
      if rotated.Err? {
        return Err(rotated.error);
      }
      ok := conn.Attempt();
      if !ok {
        return Err(StoreFailed);
      }
      RewrappedMore(was.secrets, all - rest, n, retiring, incoming, draws);
      OneMore(all, rest, n);
      conn.Write(conn.working.value.(secrets := conn.working.value.secrets[n := was.secrets[n].(sealed := rotated.value)]));
      count := count + 1;
      rest := rest - {n};
    }
    assert all - {} == all;
    r := Ok(count);
  }

  method RotateBody(conn: Connection<Db>, retiring: MasterKey, incoming: MasterKey, draws: string -> Nonce, ts: int) returns (r: Result<nat, SecretError>)
    requires conn.working.Some?
    modifies conn
    ensures conn.working.Some? && conn.durable == old(conn.durable) && conn.trail == old(conn.trail)
    ensures var was := old(conn.working).value;
            && (r.Ok? ==> && CanRotate(was.secrets, retiring, incoming, draws) && r.value == |Under(was.secrets, retiring.id)|
                          && conn.working == Some(Rotated(was, retiring, incoming, draws, ts)))
            && (conn.Sound() ==> (r.Ok? <==> CanRotate(was.secrets, retiring, incoming, draws)))
  {
    var ok := RegisterKey(conn, incoming.id);
    if !ok {
      return Err(StoreFailed);
    }
    r := RewrapRows(conn, retiring, incoming, draws);
    if r.Err? {
      return;
    }
    ok := conn.Attempt();
    if !ok {
      return Err(StoreFailed);
    }
    var db := conn.working.value;
    conn.Write(db.(keys := Retired(db.keys, retiring.id, incoming.id, ts)));
  }

  /** `rewrap_all`: all of it or nothing, in the file and after a crash at any point. */
  method RewrapAll(conn: Connection<Db>, retiring: MasterKey, incoming: MasterKey, draws: string -> Nonce, ts: int) returns (r: Result<nat, SecretError>)
    modifies conn
    ensures var was := old(conn.durable);
            && (r.Ok? ==> && CanRotate(was.secrets, retiring, incoming, draws) && r.value == |Under(was.secrets, retiring.id)|
                          && conn.durable == Rotated(was, retiring, incoming, draws, ts) && conn.working == None
                          && conn.trail == old(conn.trail) + [conn.durable])
            && (r.Err? ==> conn.durable == was && conn.trail == old(conn.trail))
            && (conn.Sound() && old(conn.working).None? ==> (r.Ok? <==> CanRotate(was.secrets, retiring, incoming, draws)))
    ensures r.Ok? ==>
              var was, left := old(conn.durable), conn.durable;
              && left.nextId == was.nextId
              && left.keys.Keys == was.keys.Keys + {incoming.id}
              && (incoming.id !in was.keys ==> left.keys[incoming.id] == None)
              && (forall k :: k in was.keys ==> left.keys[k] == if k == retiring.id && k != incoming.id then Some(ts) else was.keys[k])
  {
    var ok := conn.Begin();
    if !ok {
      return Err(StoreFailed);
    }
    r := RotateBody(conn, retiring, incoming, draws, ts);
    if r.Ok? {
      ok := conn.Commit();
      if !ok {
        return Err(StoreFailed);
      }
    } else {
      conn.Rollback();
    }
  }

  /// What rotation means

  /**
   Each secret on the old key id now opens under the new key, to what it opened to under the old one,
   and no other secret is touched.
   */
  lemma RotationPreserves(db: Db, retiring: MasterKey, incoming: MasterKey, draws: string -> Nonce, ts: int, name: string)
    requires CanRotate(db.secrets, retiring, incoming, draws)
    ensures var db' := Rotated(db, retiring, incoming, draws, ts);
            && db'.secrets.Keys == db.secrets.Keys
            && (name in db.secrets && db.secrets[name].sealed.keyId == retiring.id ==>
                  && db'.secrets[name].sealed.keyId == incoming.id && db'.secrets[name].purpose == db.secrets[name].purpose
                  && db'.secrets[name].sealed.nonce == db.secrets[name].sealed.nonce
                  && db'.secrets[name].sealed.wrapNonce == draws(name)
                  && Get(db', incoming, name) == Get(db, retiring, name)
                  && db'.secrets[name].id == db.secrets[name].id
                  && db'.secrets[name].sealed.ciphertext == db.secrets[name].sealed.ciphertext
                  && (retiring.bytes != incoming.bytes ==> Get(db', retiring, name).Err?))
            && (name in db.secrets && db.secrets[name].sealed.keyId != retiring.id ==> db'.secrets[name] == db.secrets[name])
  {
    if name in Under(db.secrets, retiring.id) {
      var row := db.secrets[name];
      RewrapMoves(retiring, incoming, row.sealed, draws(name), row.purpose, name);
    }
  }

  /** No row is left on the old key id exactly when the ids differ, or there was none. */
  lemma NothingLeftBehind(db: Db, retiring: MasterKey, incoming: MasterKey, draws: string -> Nonce, ts: int)
    requires CanRotate(db.secrets, retiring, incoming, draws)
    ensures Under(Rotated(db, retiring, incoming, draws, ts).secrets, retiring.id) == {}
            <==> retiring.id != incoming.id || Under(db.secrets, retiring.id) == {}
  {
    var db' := Rotated(db, retiring, incoming, draws, ts);
    if retiring.id == incoming.id {
      assert Under(db'.secrets, retiring.id) == Under(db.secrets, retiring.id);
    }
  }

  /// A plain map, seen through the sealed table

  datatype Event =
    | PutEvent(purpose: string, name: string, plaintext: Bytes, draw: Draw)
    | GetEvent(name: string)
    | DeleteEvent(name: string)
    | RotateEvent(incoming: MasterKey, draws: string -> Nonce, ts: int)

  datatype Answer = Refused | Kept | Got(r: Result<Bytes, SecretError>) | Gone(was: bool) | Counted(count: nat)

  /** The store under its current key. */
  datatype World = World(db: Db, kek: MasterKey, answers: seq<Answer>)

  function Step(w: World, e: Event): Option<World> {
    match e
    case PutEvent(purpose, name, plaintext, d) =>
      if IsBlank(purpose) || IsBlank(name) then Some(w.(answers := w.answers + [Refused]))
      else Some(w.(db := Put(w.db, w.kek, purpose, name, plaintext, d), answers := w.answers + [Kept]))
    case GetEvent(name) => Some(w.(answers := w.answers + [Got(Get(w.db, w.kek, name))]))
    case DeleteEvent(name) =>
      Some(w.(db := w.db.(secrets := w.db.secrets - {name}), answers := w.answers + [Gone(name in w.db.secrets)]))
    case RotateEvent(incoming, draws, ts) =>
      if CanRotate(w.db.secrets, w.kek, incoming, draws)
      then Some(World(Rotated(w.db, w.kek, incoming, draws, ts), incoming,
                      w.answers + [Counted(|Under(w.db.secrets, w.kek.id)|)]))
      else Some(w.(answers := w.answers + [Refused]))
  }

  /** What the store stands for. */
  datatype Vault = Vault(plain: map<string, Bytes>, answers: seq<Answer>)

  function PlainStep(v: Vault, e: Event): Option<Vault> {
    match e
    case PutEvent(purpose, name, plaintext, _) =>
      if IsBlank(purpose) || IsBlank(name) then Some(v.(answers := v.answers + [Refused]))
      else Some(Vault(v.plain[name := plaintext], v.answers + [Kept]))
    case GetEvent(name) =>
      Some(v.(answers := v.answers + [Got(if name in v.plain then Ok(v.plain[name]) else Err(Missing))]))
    case DeleteEvent(name) => Some(Vault(v.plain - {name}, v.answers + [Gone(name in v.plain)]))
    case RotateEvent(_, _, _) => Some(v.(answers := v.answers + [Counted(|v.plain|)]))
  }

  /** Every row is on the current key, and opens to what the plain map has under its name. */
  ghost predicate Seals(db: Db, kek: MasterKey, plain: map<string, Bytes>) {
    && db.secrets.Keys == plain.Keys
    && forall n :: n in db.secrets ==>
         var r := db.secrets[n];
         r.sealed.keyId == kek.id && Decrypt(kek, r.purpose, n, r.sealed) == Ok(plain[n])
  }

  lemma PutSeals(db: Db, kek: MasterKey, plain: map<string, Bytes>, purpose: string, name: string, plaintext: Bytes, d: Draw)
    requires Seals(db, kek, plain)
    ensures Seals(Put(db, kek, purpose, name, plaintext, d), kek, plain[name := plaintext])
  {
    SealedOpens(kek, purpose, name, plaintext, d, kek, purpose, name);
  }

  lemma AllOnCurrent(db: Db, kek: MasterKey, plain: map<string, Bytes>, incoming: MasterKey, draws: string -> Nonce)
    requires Seals(db, kek, plain)
    ensures Under(db.secrets, kek.id) == db.secrets.Keys && |db.secrets| == |plain|
    ensures CanRotate(db.secrets, kek, incoming, draws)
  {
    assert |db.secrets.Keys| == |plain.Keys|;
    forall n | n in db.secrets
      ensures Rewrap(kek, incoming, db.secrets[n].sealed, draws(n)).Ok?
    {
      assert Decrypt(kek, db.secrets[n].purpose, n, db.secrets[n].sealed) == Ok(plain[n]);
    }
  }

  lemma RotateSeals(db: Db, kek: MasterKey, plain: map<string, Bytes>, incoming: MasterKey, draws: string -> Nonce, ts: int)
    requires Seals(db, kek, plain)
    ensures Seals(Rotated(db, kek, incoming, draws, ts), incoming, plain)
  {
    AllOnCurrent(db, kek, plain, incoming, draws);
    var secrets := Rotated(db, kek, incoming, draws, ts).secrets;
    forall n | n in secrets
      ensures secrets[n].sealed.keyId == incoming.id && Decrypt(incoming, secrets[n].purpose, n, secrets[n].sealed) == Ok(plain[n])
    {
      var r := db.secrets[n];
      assert secrets[n] == RewrapRow(r, kek, incoming, draws(n));
      RewrapMoves(kek, incoming, r.sealed, draws(n), r.purpose, n);
    }
  }

  ghost predicate StandsFor(w: World, v: Vault) {
    w.answers == v.answers && Seals(w.db, w.kek, v.plain)
  }

  /**
   Any sequence of puts, gets, deletions and rotations, each under the key that is current, answers
   as a plain map from names to plaintexts would; a rotation always succeeds, and counts every secret.
   */
  lemma {:induction false} RefinesPlainMap(kek: MasterKey, es: seq<Event>) returns (w: World, v: Vault)
    ensures After(World(Db(map[], map[], 1), kek, []), Step, es) == Some(w)
    ensures After(Vault(map[], []), PlainStep, es) == Some(v)
    ensures StandsFor(w, v)
  {
    if es == [] {
      w, v := World(Db(map[], map[], 1), kek, []), Vault(map[], []);
    } else {
      var w0, v0 := RefinesPlainMap(kek, es[..|es| - 1]);
      var e := es[|es| - 1];
      w, v := Step(w0, e).value, PlainStep(v0, e).value;
      assert StandsFor(Step(w0, e).value, PlainStep(v0, e).value) by {
        match e
        case PutEvent(purpose, name, plaintext, d) => PutSeals(w0.db, w0.kek, v0.plain, purpose, name, plaintext, d);
        case RotateEvent(incoming, draws, ts) =>
          AllOnCurrent(w0.db, w0.kek, v0.plain, incoming, draws);
          RotateSeals(w0.db, w0.kek, v0.plain, incoming, draws, ts);
        case GetEvent(_) =>
        case DeleteEvent(_) =>
      }
    }
  }
}
