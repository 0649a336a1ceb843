/**
 The schema migrations of src/repository/migrations.rs on a SQLite file. The SQL of a migration is an
 abstract transformer of the schema, which may fail; every statement may also fail for reasons of its
 own, and the process may stop between any two of them.
 */
module Migrations {
  import opened Sqlite
  import opened Wrappers

  const EXPECTED_SCHEMA_VERSION: int := 8

  const NAMES: seq<string> := [
    "001_initial", "002_argon2_password", "003_sessions", "004_rbac",
    "005_audit", "006_sse_tickets", "007_secrets", "008_sse_sessions"]

  const COUNT: nat := |NAMES|

  /** The columns `rp_users` must have for a legacy database to be adopted. */
  const LEGACY_COLUMNS: seq<string> := [
    "id", "username", "password", "salt", "initial_password",
    "authority", "error_count", "status", "created_at", "updated_at"]

  /** The names are numbered like the versions. */
  lemma NamesAreNumbered(i: nat)
    requires i < COUNT
    ensures COUNT == 8 && NAMES[i][..4] == ['0', '0', '1' + i as char, '_']
  {
  }

  datatype Row = Row(version: int, name: string, checksum: string)

  /** A database file; `history` is `schema_migrations` in version order, absent while there is no such table. */
  datatype Database<S> = Database(schema: S, history: Option<seq<Row>>)

  /**
   What is not fixed here: the digest of each migration's text, what its SQL does to a schema (or
   leaves behind half-done when it fails), and what the catalogue says of `rp_users`.
   */
  datatype Env<!S> = Env(
    digest: nat -> string,
    run: (nat, S) -> Option<S>,
    partial: (nat, S) -> S,
    hasUsers: S -> bool,
    columns: S -> set<string>)

  datatype MigrationError =
    | StatementFailed
    | NewerThanBinary
    | UnknownOrGap(version: int)
    | ChecksumMismatch(version: int)
    | MissingExpectedVersion
    | MissingColumn(column: string)
    | MissingHistory
    | IntegrityFailed
    | RecordedChecksumDiffers(version: int)
    | PendingGap(version: int)
    | SqlFailed(version: int)
    | VersionMismatch(version: int)

  function Expected<S>(env: Env<S>, k: nat): (rows: seq<Row>)
    requires k <= COUNT
    ensures |rows| == k
    ensures forall i :: 0 <= i < k ==> rows[i] == Row(i + 1, NAMES[i], env.digest(i))
  {
    seq(k, i requires 0 <= i < COUNT => Row(i + 1, NAMES[i], env.digest(i)))
  }

  function Rows<S>(d: Database<S>): seq<Row> {
    if d.history.Some? then d.history.value else []
  }

  function WithTable<S>(d: Database<S>): Database<S> {
    d.(history := Some(Rows(d)))
  }

  /// validate_history

  /** The first row from `i` on that is not the one this binary would have recorded there. */
  function HistoryFault<S>(env: Env<S>, applied: seq<Row>, i: nat): Option<MigrationError>
    requires i <= |applied| <= COUNT
    decreases |applied| - i
  {
    if i == |applied| then None
    else if applied[i].version != i + 1 then Some(UnknownOrGap(applied[i].version))
    else if applied[i].checksum != env.digest(i) then Some(ChecksumMismatch(applied[i].version))
    else HistoryFault(env, applied, i + 1)
  }

  function HistoryVerdict<S>(env: Env<S>, applied: seq<Row>, complete: bool): Result<int, MigrationError> {
    if |applied| > COUNT then Err(NewerThanBinary)
    else if HistoryFault(env, applied, 0).Some? then Err(HistoryFault(env, applied, 0).value)
    else
      var current := if applied == [] then 0 else applied[|applied| - 1].version;
      if complete && current != EXPECTED_SCHEMA_VERSION then Err(MissingExpectedVersion) else Ok(current)
  }

  method ValidateHistory<S>(env: Env<S>, applied: seq<Row>, complete: bool) returns (r: Result<int, MigrationError>)
    ensures r == HistoryVerdict(env, applied, complete)
  {
    if |applied| > COUNT {
      return Err(NewerThanBinary);
    }
    for i := 0 to |applied|
      invariant HistoryFault(env, applied, 0) == HistoryFault(env, applied, i)
    {
      if applied[i].version != i + 1 {
        return Err(UnknownOrGap(applied[i].version));
      }
      if applied[i].checksum != env.digest(i) {
        return Err(ChecksumMismatch(applied[i].version));
      }
    }
    var current := if applied == [] then 0 else applied[|applied| - 1].version;
    if complete && current != EXPECTED_SCHEMA_VERSION {
      return Err(MissingExpectedVersion);
    }
    r := Ok(current);
  }

  /** The first `i` rows are as this binary would have recorded them. */
  predicate Recorded<S>(env: Env<S>, applied: seq<Row>, i: nat)
    requires i <= |applied| <= COUNT
  {
    forall j :: 0 <= j < i ==> applied[j].version == j + 1 && applied[j].checksum == env.digest(j)
  }

  /** A fault is reported of the first row that has one, and a wrong version before a wrong checksum. */
  lemma {:induction false} FirstFault<S>(env: Env<S>, applied: seq<Row>, i: nat)
    requires i <= |applied| <= COUNT && Recorded(env, applied, i)
    ensures HistoryFault(env, applied, i) == None ==> Recorded(env, applied, |applied|)
    ensures HistoryFault(env, applied, i).Some? ==>
              exists j: nat :: && j < |applied| && Recorded(env, applied, j)
                               && HistoryFault(env, applied, i).value
                                  == (if applied[j].version != j + 1 then UnknownOrGap(applied[j].version) else ChecksumMismatch(j + 1))
                               && (applied[j].version != j + 1 || applied[j].checksum != env.digest(j))
    decreases |applied| - i
  {
    if i < |applied| {
      if applied[i].version == i + 1 && applied[i].checksum == env.digest(i) {
        FirstFault(env, applied, i + 1);
      } else {
        assert Recorded(env, applied, i);
      }
    }
  }

  /** The rows are those this binary records for its first migrations; their names are never read back. */
  ghost predicate IsPrefix<S>(env: Env<S>, rows: seq<Row>) {
    |rows| <= COUNT && forall i :: 0 <= i < |rows| ==> rows[i].version == i + 1 && rows[i].checksum == env.digest(i)
  }

  lemma FaultlessFrom<S>(env: Env<S>, applied: seq<Row>, i: nat)
    requires i <= |applied| <= COUNT
    ensures HistoryFault(env, applied, i).Some? ==>
              HistoryFault(env, applied, i).value.UnknownOrGap? || HistoryFault(env, applied, i).value.ChecksumMismatch?
    ensures HistoryFault(env, applied, i) == None <==>
            forall j :: i <= j < |applied| ==> applied[j].version == j + 1 && applied[j].checksum == env.digest(j)
    decreases |applied| - i
  {
  }

  /** `validate_history` accepts the prefixes of `MIGRATIONS` and nothing else; only the whole list when `complete`. */
  lemma HistoryIsPrefix<S>(env: Env<S>, applied: seq<Row>, complete: bool)
    ensures HistoryVerdict(env, applied, complete).Ok? <==> IsPrefix(env, applied) && (complete ==> |applied| == COUNT)
    ensures HistoryVerdict(env, applied, complete).Ok? ==> HistoryVerdict(env, applied, complete).value == |applied|
    ensures HistoryVerdict(env, applied, complete).Err? ==> !FromLoopChecks(HistoryVerdict(env, applied, complete).error)
  {
    if |applied| <= COUNT {
      FaultlessFrom(env, applied, 0);
    }
  }

  /// What a run means

  /** The effect of migrations `a` to `b - 1` in order. */
  function RunFrom<S>(env: Env<S>, s: S, a: nat, b: nat): Option<S> {
    if b <= a then Some(s)
    else
      match RunFrom(env, s, a, b - 1)
      case None => None
      case Some(s') => env.run(b - 1, s')
  }

  /**
   The first migration a run has to apply: the one after the recorded history, which must be a
   prefix of this binary's. With nothing recorded, a database that has `rp_users` is taken to be at
   the first version, if it has the legacy columns.
   */
  ghost function Plan<S>(env: Env<S>, d: Database<S>): (k: Option<nat>)
    ensures k.Some? ==> k.value <= COUNT
  {
    if Rows(d) != [] then
      if IsPrefix(env, Rows(d)) then Some(|Rows(d)|) else None
    else if !env.hasUsers(d.schema) then Some(0)
    else if forall c :: c in LEGACY_COLUMNS ==> c in env.columns(d.schema) then Some(1)
    else None
  }

  /** A recorded prefix goes on after itself, an empty database from the start, a legacy one after the first migration. */
  lemma PlanExactly<S>(env: Env<S>, d: Database<S>, k: nat)
    ensures Plan(env, d) == Some(k) <==>
            if Rows(d) != [] then IsPrefix(env, Rows(d)) && k == |Rows(d)|
            else if !env.hasUsers(d.schema) then k == 0
            else && k == 1
                 && {"id", "username", "password", "salt", "initial_password",
                     "authority", "error_count", "status", "created_at", "updated_at"} <= env.columns(d.schema)
  {
  }

  /** The recorded rows once the run has reached version `j`: what was there, and the new ones. */
  function RowsAt<S>(env: Env<S>, rows: seq<Row>, j: nat): seq<Row>
    requires |rows| <= j <= COUNT
  {
    rows + Expected(env, j)[|rows|..]
  }

  /** The database at version `j`: migrations from the planned one up to `j - 1` applied to the original schema. */
  ghost function Stair<S>(env: Env<S>, d: Database<S>, j: nat): Option<Database<S>>
    requires j <= COUNT
  {
    match Plan(env, d)
    case None => None
    case Some(k) =>
      if j < k then None
      else
        match RunFrom(env, d.schema, k, j)
        case None => None
        case Some(s) => Some(Database(s, Some(RowsAt(env, Rows(d), j))))
  }

  function Range(a: nat, b: nat): seq<nat> {
    if b <= a then [] else seq(b - a, i => a + i)
  }

  /**
   A run over `d0` may leave `d` behind, having committed the SQL of the migrations in `ledger`:
   the file untouched but for an empty history table, or at some version on the way up.
   */
  ghost predicate OnStairs<S>(env: Env<S>, d0: Database<S>, d: Database<S>, ledger: seq<nat>) {
    || (ledger == [] && (d == d0 || d == WithTable(d0)))
    || (exists j: nat :: j <= COUNT && AtStair(env, d0, d, ledger, j))
  }

  ghost predicate AtStair<S>(env: Env<S>, d0: Database<S>, d: Database<S>, ledger: seq<nat>, j: nat)
    requires j <= COUNT
  {
    Stair(env, d0, j) == Some(d) && ledger == Range(Plan(env, d0).value, j)
  }

  /// The stairs

  lemma RunSplit<S>(env: Env<S>, s: S, a: nat, b: nat, c: nat)
    requires a <= b <= c && RunFrom(env, s, a, b).Some?
    ensures RunFrom(env, RunFrom(env, s, a, b).value, b, c) == RunFrom(env, s, a, c)
    decreases c
  {
  }

  lemma RunStops<S>(env: Env<S>, s: S, a: nat, b: nat, c: nat)
    requires a <= b <= c && RunFrom(env, s, a, c).Some?
    ensures RunFrom(env, s, a, b).Some?
    decreases c
  {
  }

  lemma RowsAtPrefix<S>(env: Env<S>, rows: seq<Row>, j: nat)
    requires |rows| <= j <= COUNT && IsPrefix(env, rows)
    ensures |RowsAt(env, rows, j)| == j && IsPrefix(env, RowsAt(env, rows, j))
    ensures forall i :: j <= i <= COUNT ==> RowsAt(env, RowsAt(env, rows, j), i) == RowsAt(env, rows, i)
  {
    var r := RowsAt(env, rows, j);
    forall i | j <= i <= COUNT
      ensures RowsAt(env, r, i) == RowsAt(env, rows, i)
    {
      assert forall n :: 0 <= n < i ==> RowsAt(env, r, i)[n] == RowsAt(env, rows, i)[n];
    }
  }

  /** A database on the stairs of another has the same stairs above it. */
  lemma StairOfStair<S>(env: Env<S>, d0: Database<S>, d: Database<S>, ledger: seq<nat>, j: nat, i: nat)
    requires j <= COUNT && AtStair(env, d0, d, ledger, j) && j <= i <= COUNT
    ensures Plan(env, d) == Some(j)
    ensures Stair(env, d, i) == Stair(env, d0, i)
  {
    var k := Plan(env, d0).value;
    RowsAtPrefix(env, Rows(d0), j);
    if j == 0 {
      assert d.schema == d0.schema;
    }
    RunSplit(env, d0.schema, k, j, i);
    if RunFrom(env, d0.schema, k, i).Some? {
      RunStops(env, d0.schema, k, j, i);
    }
  }

  lemma RangeJoin(a: nat, b: nat, c: nat)
    requires a <= b <= c
    ensures Range(a, b) + Range(b, c) == Range(a, c)
    decreases c
  {
  }

  /// The connection

  /** The file, with an account of the migrations whose SQL it has taken in. */
  datatype File<S> = File(db: Database<S>, ledger: seq<nat>)

  /** `INSERT` into the history: a duplicate version is a primary key conflict. */
  function Inserted(rows: seq<Row>, row: Row): Option<seq<Row>> {
    if rows == [] then Some([row])
    else if rows[0].version == row.version then None
    else if row.version < rows[0].version then Some([row] + rows)
    else
      match Inserted(rows[1..], row)
      case None => None
      case Some(rest) => Some([rows[0]] + rest)
  }

  lemma InsertedLast(rows: seq<Row>, row: Row)
    requires forall i :: 0 <= i < |rows| ==> rows[i].version < row.version
    ensures Inserted(rows, row) == Some(rows + [row])
  {
    if rows == [] {
      assert rows + [row] == [row];
    } else {
      InsertedLast(rows[1..], row);
      assert [rows[0]] + (rows[1..] + [row]) == rows + [row];
    }
  }

  /** A version that is there is refused; any other is inserted between the smaller and the greater ones. */
  lemma {:induction false} InsertedExactly(rows: seq<Row>, row: Row) returns (n: nat)
    ensures n <= |rows| && forall i :: 0 <= i < n ==> rows[i].version < row.version
    ensures n < |rows| ==> row.version <= rows[n].version
    ensures Inserted(rows, row) == if n < |rows| && rows[n].version == row.version then None else Some(rows[..n] + [row] + rows[n..])
  {
    if rows == [] || row.version <= rows[0].version {
      n := 0;
      assert rows[..0] + [row] + rows[0..] == [row] + rows;
      assert rows == [] ==> [row] + rows == [row];
    } else {
      var m := InsertedExactly(rows[1..], row);
      n := m + 1;
      assert [rows[0]] + (rows[1..][..m] + [row] + rows[1..][m..]) == rows[..n] + [row] + rows[n..];
    }
  }

  method EnsureTable<S>(conn: Connection<File<S>>) returns (ok: bool)
    requires conn.working == None
    modifies conn
    ensures conn.Sound() ==> ok
    ensures conn.working == None
    ensures !ok ==> conn.durable == old(conn.durable) && conn.trail == old(conn.trail)
    ensures ok ==> conn.durable == old(conn.durable).(db := WithTable(old(conn.durable).db)) && conn.trail == old(conn.trail) + [conn.durable]
    ensures ok ==> && conn.durable.db.schema == old(conn.durable).db.schema && conn.durable.ledger == old(conn.durable).ledger
                   && conn.durable.db.history == Some(if old(conn.durable).db.history.Some? then old(conn.durable).db.history.value else [])
  {
    ok := conn.Attempt();
    if ok {
      conn.Write(conn.durable.(db := WithTable(conn.durable.db)));
    }
  }

  /** `applied_versions`: there must be a history table to read. */
  method AppliedVersions<S>(conn: Connection<File<S>>) returns (r: Result<seq<Row>, MigrationError>)
    modifies conn`statements
    ensures conn.Sound() && conn.Current().db.history.Some? ==> r.Ok?
    ensures r.Ok? ==> r.value == Rows(conn.Current().db)
    ensures r.Err? ==> r.error == StatementFailed
  {
    var ok := conn.Attempt();
    if ok && conn.Current().db.history.Some? {
      return Ok(Rows(conn.Current().db));
    }
    r := Err(StatementFailed);
  }

  /** The SQL of a migration; when it fails, some of its statements may already have taken effect. */
  method Execute<S>(env: Env<S>, conn: Connection<File<S>>, migration: nat) returns (ok: bool)
    requires conn.working.Some?
    modifies conn
    ensures conn.working.Some? && conn.durable == old(conn.durable) && conn.trail == old(conn.trail)
    ensures var was := old(conn.working).value;
            && (ok ==> && env.run(migration, was.db.schema).Some?
                       && conn.working == Some(File(was.db.(schema := env.run(migration, was.db.schema).value), was.ledger + [migration])))
            && (conn.Sound() ==> (ok <==> env.run(migration, was.db.schema).Some?))
  {
    ok := conn.Attempt();
    var was := conn.working.value;
    if ok && env.run(migration, was.db.schema).Some? {
      conn.Write(File(was.db.(schema := env.run(migration, was.db.schema).value), was.ledger + [migration]));
    } else {
      ok := false;
      conn.Write(was.(db := was.db.(schema := env.partial(migration, was.db.schema))));
    }
  }

  /// The runner

  method RecordMigration<S>(env: Env<S>, conn: Connection<File<S>>, migration: nat) returns (r: Result<(), MigrationError>)
    requires migration < COUNT
    modifies conn
    ensures conn.Since(old(conn.durable), old(conn.working), old(conn.trail))
    ensures r.Err? ==> conn.Current() == old(conn.Current()) && conn.trail == old(conn.trail) && r.error == StatementFailed
    ensures var d := old(conn.Current());
            var row := Row(migration + 1, NAMES[migration], env.digest(migration));
            && (r.Ok? ==> && d.db.history.Some? && Inserted(Rows(d.db), row).Some?
                          && conn.Current() == d.(db := d.db.(history := Inserted(Rows(d.db), row)))
                          && (old(conn.working).None? ==> conn.trail == old(conn.trail) + [conn.durable]))
            && (conn.Sound() ==> (r.Ok? <==> d.db.history.Some? && Inserted(Rows(d.db), row).Some?))
  {
    var ok := conn.Attempt();
    var d := conn.Current();
    var row := Row(migration + 1, NAMES[migration], env.digest(migration));
    if ok && d.db.history.Some? && Inserted(Rows(d.db), row).Some? {
      conn.Write(d.(db := d.db.(history := Inserted(Rows(d.db), row))));
      return Ok(());
    }
    r := Err(StatementFailed);
  }

  ghost predicate HasLegacyColumns<S>(env: Env<S>, d: Database<S>) {
    forall c :: c in LEGACY_COLUMNS ==> c in env.columns(d.schema)
  }

  /** `rp_users` without a history: the database of a panel from before migrations. */
  predicate IsLegacy<S>(env: Env<S>, d: Database<S>) {
    Rows(d) == [] && env.hasUsers(d.schema)
  }

  /** What adoption makes of a database that has a history table. */
  function Adopted<S>(env: Env<S>, d: Database<S>): Database<S> {
    if IsLegacy(env, d) then d.(history := Some(Expected(env, 1))) else d
  }

  method AdoptLegacyBaseline<S>(env: Env<S>, conn: Connection<File<S>>) returns (r: Result<(), MigrationError>)
    requires conn.working == None && conn.durable.db.history.Some?
    modifies conn
    ensures conn.working == None
    ensures r.Err? ==> conn.durable == old(conn.durable) && conn.trail == old(conn.trail)
    ensures r.Err? ==> r.error == StatementFailed || r.error.MissingColumn?
    ensures var d := old(conn.durable);
            && (r.Ok? ==> && conn.durable == d.(db := Adopted(env, d.db))
                          && conn.trail == (if IsLegacy(env, d.db) then old(conn.trail) + [conn.durable] else old(conn.trail))
                          && (IsLegacy(env, d.db) ==> HasLegacyColumns(env, d.db)))
            && (conn.Sound() && (IsLegacy(env, d.db) ==> HasLegacyColumns(env, d.db)) ==> r.Ok?)
    ensures r.Ok? ==>
              var was, left := old(conn.durable), conn.durable;
              if was.db.history == Some([]) && env.hasUsers(was.db.schema)
              then left == was.(db := was.db.(history := Some([Row(1, "001_initial", env.digest(0))]))) else left == was
    ensures r.Err? && r.error.MissingColumn? ==>
              r.error.column in LEGACY_COLUMNS && r.error.column !in env.columns(old(conn.durable).db.schema)
  {
    var applied := AppliedVersions(conn);
    if applied.Err? {
      return Err(applied.error);
    }
    if applied.value != [] {
      return Ok(());
    }
    var ok := conn.Attempt();
    if !ok {
      return Err(StatementFailed);
    }
    var schema := conn.Current().db.schema;
    if !env.hasUsers(schema) {
      return Ok(());
    }
    ok := conn.Attempt();
    if !ok {
      return Err(StatementFailed);
    }
    var columns := env.columns(schema);
    for i := 0 to |LEGACY_COLUMNS|
      invariant forall j :: 0 <= j < i ==> LEGACY_COLUMNS[j] in columns
    {
      if LEGACY_COLUMNS[i] !in columns {
        return Err(MissingColumn(LEGACY_COLUMNS[i]));
      }
    }
    assert Expected(env, 1) == [Row(1, NAMES[0], env.digest(0))];
    r := RecordMigration(env, conn, 0);
  }

  function Find(applied: seq<Row>, version: int): Option<string> {
    if applied == [] then None
    else if applied[0].version == version then Some(applied[0].checksum)
    else Find(applied[1..], version)
  }

  lemma {:induction false} FindInPrefix<S>(env: Env<S>, applied: seq<Row>, i: nat, from: nat)
    requires i < COUNT && from <= |applied| && from <= i && IsPrefix(env, applied)
    ensures Find(applied[from..], i + 1) == if i < |applied| then Some(env.digest(i)) else None
    decreases |applied| - from
  {
    if from < |applied| {
      assert applied[from..][1..] == applied[from + 1..];
      if from < i {
        FindInPrefix(env, applied, i, from + 1);
      } else if from == i {
        assert applied[from..][0] == applied[i];
      }
    }
  }

  ghost predicate Safe<S>(env: Env<S>, d0: Database<S>, trail: seq<File<S>>) {
    forall i :: 0 <= i < |trail| ==> OnStairs(env, d0, trail[i].db, trail[i].ledger)
  }

  /** One pending migration, in one immediate transaction with its history row. */
  method ApplyOne<S>(env: Env<S>, conn: Connection<File<S>>, migration: nat) returns (r: Result<(), MigrationError>)
    requires migration < COUNT && conn.working == None
    requires var d := conn.durable.db;
             d.history.Some? && |Rows(d)| == migration && IsPrefix(env, Rows(d))
    modifies conn
    ensures r.Err? ==> conn.durable == old(conn.durable) && conn.trail == old(conn.trail)
    ensures r.Err? ==> r.error == StatementFailed || r.error == SqlFailed(migration + 1)
    ensures var was := old(conn.durable);
            && (r.Ok? ==> && conn.working == None && env.run(migration, was.db.schema).Some?
                          && conn.durable == File(Database(env.run(migration, was.db.schema).value,
                                                           Some(RowsAt(env, Rows(was.db), migration + 1))),
                                                  was.ledger + [migration])
                          && conn.trail == old(conn.trail) + [conn.durable]
                          && Rows(conn.durable.db) == Rows(was.db) + [Row(migration + 1, NAMES[migration], env.digest(migration))])
            && (conn.Sound() ==> (r.Ok? <==> env.run(migration, was.db.schema).Some?))
  {
    var ok := conn.Begin();
    if !ok {
      return Err(StatementFailed);
    }
    ok := Execute(env, conn, migration);
    if !ok {
      conn.Rollback();
      return Err(SqlFailed(migration + 1));
    }
    ghost var row := Row(migration + 1, NAMES[migration], env.digest(migration));
    ghost var rows := Rows(conn.durable.db);
    InsertedLast(rows, row);
    assert RowsAt(env, rows, migration + 1) == rows + [row];
    r := RecordMigration(env, conn, migration);
    if r.Err? {
      conn.Rollback();
      return;
    }
    ok := conn.Commit();
    if !ok {
      return Err(StatementFailed);
    }
    r := Ok(());
  }

  lemma SafeOne<S>(env: Env<S>, d0: Database<S>, trail: seq<File<S>>, f: File<S>)
    requires Safe(env, d0, trail) && OnStairs(env, d0, f.db, f.ledger)
    ensures Safe(env, d0, trail + [f])
  {
  }

  /** The errors the loop raises about the history itself. */
  predicate FromLoopChecks(e: MigrationError) {
    e.RecordedChecksumDiffers? || e.PendingGap? || e.VersionMismatch?
  }

  /** Up to the loop: the history table, the adoption, and the check of the history. */
  method PrepareHistory<S>(env: Env<S>, conn: Connection<File<S>>) returns (r: Result<int, MigrationError>, history: seq<Row>)
    requires conn.working == None && conn.durable.ledger == [] && conn.trail == [conn.durable]
    modifies conn
    ensures conn.working == None && conn.durable.ledger == []
    ensures var d0 := old(conn.durable).db;
            && OnStairs(env, d0, conn.durable.db, []) && Safe(env, d0, conn.trail)
            && (r.Ok? ==> && conn.durable.db == Adopted(env, WithTable(d0))
                          && history == Rows(conn.durable.db) && IsPrefix(env, history) && r.value == |history|
                          && AtStair(env, d0, conn.durable.db, [], r.value))
            && (conn.Sound() && r.Err? ==> Plan(env, d0) == None)
    ensures r.Err? ==> !FromLoopChecks(r.error)
  {
    ghost var f0 := conn.durable;
    ghost var d0 := f0.db;
    history := [];
    var ok := EnsureTable(conn);
    if !ok {
      return Err(StatementFailed), history;
    }
    SafeOne(env, d0, [f0], conn.durable);
    ghost var trail := conn.trail;
    var adoption := AdoptLegacyBaseline(env, conn);
    if adoption.Err? {
      return Err(adoption.error), history;
    }
    assert var d := Adopted(env, WithTable(d0));
            if IsPrefix(env, Rows(d)) then AtStair(env, d0, d, [], |Rows(d)|)
            else Plan(env, d0) == None && !IsLegacy(env, d0) by {
      var d := Adopted(env, WithTable(d0));
      if IsLegacy(env, d0) {
        assert RowsAt(env, [], 1) == Expected(env, 1);
      } else if IsPrefix(env, Rows(d)) {
        assert RowsAt(env, Rows(d0), |Rows(d0)|) == Rows(d0);
      }
    }
    assert OnStairs(env, d0, conn.durable.db, []);
    SafeOne(env, d0, trail, conn.durable);
    var applied := AppliedVersions(conn);
    if applied.Err? {
      return Err(applied.error), history;
    }
    history := applied.value;
    r := ValidateHistory(env, history, false);
    HistoryIsPrefix(env, history, false);
  }

  method ApplyPending<S>(env: Env<S>, conn: Connection<File<S>>) returns (r: Result<int, MigrationError>)
    requires conn.working == None && conn.durable.ledger == [] && conn.trail == [conn.durable]
    modifies conn
    ensures var d0 := old(conn.durable).db;
            && Safe(env, d0, conn.trail)
            && OnStairs(env, d0, conn.durable.db, conn.durable.ledger)
            && (r.Ok? ==> r.value == 8 && AtStair(env, d0, conn.durable.db, conn.durable.ledger, COUNT))
            && (conn.Sound() ==> (r.Ok? <==> Stair(env, d0, COUNT).Some?))
    ensures r.Err? ==> !FromLoopChecks(r.error)
  {
    ghost var d0 := conn.durable.db;
    var history;
    r, history := PrepareHistory(env, conn);
    if r.Ok? {
      r := ApplyLoop(env, conn, d0, history, r.value);
    }
  }

  /** One stair up: the next migration leads to the next stair, and where it fails there is no last one. */
  lemma NextStair<S>(env: Env<S>, d0: Database<S>, f: File<S>, k: nat)
    requires k < COUNT && AtStair(env, d0, f.db, f.ledger, k)
    ensures f.db.history.Some? && |Rows(f.db)| == k && IsPrefix(env, Rows(f.db))
    ensures env.run(k, f.db.schema).Some? ==>
              AtStair(env, d0, Database(env.run(k, f.db.schema).value, Some(RowsAt(env, Rows(f.db), k + 1))), f.ledger + [k], k + 1)
    ensures env.run(k, f.db.schema).None? ==> Stair(env, d0, COUNT) == None
  {
    RowsAtPrefix(env, Rows(d0), k);
    var a := Plan(env, d0).value;
    if Stair(env, d0, COUNT).Some? {
      RunStops(env, d0.schema, a, k + 1, COUNT);
    }
  }

  /** A pending migration on the stairs. */
  method ApplyNext<S>(env: Env<S>, conn: Connection<File<S>>, ghost d0: Database<S>, migration: nat) returns (r: Result<(), MigrationError>)
    requires migration < COUNT && conn.working == None && Safe(env, d0, conn.trail)
    requires AtStair(env, d0, conn.durable.db, conn.durable.ledger, migration)
    modifies conn
    ensures Safe(env, d0, conn.trail)
    ensures OnStairs(env, d0, conn.durable.db, conn.durable.ledger)
    ensures r.Ok? ==> conn.working == None && AtStair(env, d0, conn.durable.db, conn.durable.ledger, migration + 1)
    ensures r.Err? ==> !FromLoopChecks(r.error) && (conn.Sound() ==> Stair(env, d0, COUNT) == None)
  {
    hide AtStair, Stair, RowsAt, IsPrefix;
    ghost var trail := conn.trail;
    NextStair(env, d0, conn.durable, migration);
    r := ApplyOne(env, conn, migration);
    if r.Ok? {
      SafeOne(env, d0, trail, conn.durable);
    }
  }

  /** The loop over `MIGRATIONS` and the check after it. */
  method ApplyLoop<S>(env: Env<S>, conn: Connection<File<S>>, ghost d0: Database<S>, applied: seq<Row>, start: int)
    returns (r: Result<int, MigrationError>)
    requires conn.working == None && IsPrefix(env, applied) && start == |applied| && applied == Rows(conn.durable.db)
    requires AtStair(env, d0, conn.durable.db, conn.durable.ledger, |applied|)
    requires Safe(env, d0, conn.trail)
    modifies conn
    ensures Safe(env, d0, conn.trail)
    ensures OnStairs(env, d0, conn.durable.db, conn.durable.ledger)
    ensures r.Ok? ==> r.value == EXPECTED_SCHEMA_VERSION && AtStair(env, d0, conn.durable.db, conn.durable.ledger, COUNT)
    ensures conn.Sound() ==> (r.Ok? <==> Stair(env, d0, COUNT).Some?)
    ensures r.Err? ==> !FromLoopChecks(r.error)
  {
    var current := start;
    ghost var level := |applied|;
    for i := 0 to COUNT
      invariant conn.working == None
      invariant current == if i == 0 then |applied| else i
      invariant level == if i < |applied| then |applied| else i
      invariant AtStair(env, d0, conn.durable.db, conn.durable.ledger, level)
      invariant Safe(env, d0, conn.trail)
    {
      var digest := env.digest(i);
      FindInPrefix(env, applied, i, 0);
      assert applied[0..] == applied;
      var recorded := Find(applied, i + 1);
      if recorded.Some? {
        if recorded.value != digest {
          return Err(RecordedChecksumDiffers(i + 1));
        }
        current := i + 1;
        continue;
      }
      if i + 1 != current + 1 {
        return Err(PendingGap(i + 1));
      }
      var one := ApplyNext(env, conn, d0, i);
      if one.Err? {
        return Err(one.error);
      }
      current, level := i + 1, i + 1;
    }
    if current != EXPECTED_SCHEMA_VERSION {
      return Err(VersionMismatch(current));
    }
    r := Ok(current);
  }

  /// Crashes and reruns

  /** The version a database stands at: the planned one, until more is recorded. */
  ghost function Level<S>(env: Env<S>, d0: Database<S>, d: Database<S>): nat
    requires Plan(env, d0).Some?
  {
    if |Rows(d)| < Plan(env, d0).value then Plan(env, d0).value else |Rows(d)|
  }

  /**
   Wherever a run over a blank, adoptable or older database stops, the recorded history is a prefix of
   this binary's, the schema is the original with exactly the migrations of that prefix applied, and
   the SQL that was committed is that of the migrations past the first planned one, each once.
   */
  lemma CrashedOnStairs<S>(env: Env<S>, d0: Database<S>, d: Database<S>, ledger: seq<nat>)
    requires OnStairs(env, d0, d, ledger) && Plan(env, d0).Some?
    ensures IsPrefix(env, Rows(d))
    ensures Some(d.schema) == RunFrom(env, d0.schema, Plan(env, d0).value, Level(env, d0, d))
    ensures ledger == Range(Plan(env, d0).value, Level(env, d0, d))
  {
    if ledger == [] && (d == d0 || d == WithTable(d0)) {
    } else {
      var j: nat :| j <= COUNT && AtStair(env, d0, d, ledger, j);
      RowsAtPrefix(env, Rows(d0), j);
    }
  }

  /** A refused database is not changed, but for an empty history table. */
  lemma RefusedIsUntouched<S>(env: Env<S>, d0: Database<S>, d: Database<S>, ledger: seq<nat>)
    requires OnStairs(env, d0, d, ledger) && Plan(env, d0).None?
    ensures ledger == [] && (d == d0 || d == WithTable(d0))
  {
  }

  /** A rerun from wherever a run stopped is headed where the first run was. */
  lemma ResumeReachesTheSame<S>(env: Env<S>, d0: Database<S>, d: Database<S>, ledger: seq<nat>)
    requires OnStairs(env, d0, d, ledger)
    ensures Plan(env, d) == (if Plan(env, d0).None? then None else Some(Level(env, d0, d)))
    ensures Stair(env, d, COUNT) == Stair(env, d0, COUNT)
  {
    if ledger == [] && (d == d0 || d == WithTable(d0)) {
    } else {
      var j: nat :| j <= COUNT && AtStair(env, d0, d, ledger, j);
      StairOfStair(env, d0, d, ledger, j, COUNT);
      RowsAtPrefix(env, Rows(d0), j);
    }
  }

  lemma StairsCompose<S>(env: Env<S>, d0: Database<S>, d1: Database<S>, first: seq<nat>, d2: Database<S>, second: seq<nat>)
    requires OnStairs(env, d0, d1, first) && OnStairs(env, d1, d2, second)
    ensures OnStairs(env, d0, d2, first + second)
  {
    if first == [] && (d1 == d0 || d1 == WithTable(d0)) {
      assert first + second == second;
      assert OnStairs(env, d0, d2, second) by {
        if !(second == [] && (d2 == d1 || d2 == WithTable(d1))) {
          var i: nat :| i <= COUNT && AtStair(env, d1, d2, second, i);
          assert AtStair(env, d0, d2, second, i);
        }
      }
    } else {
      var j: nat :| j <= COUNT && AtStair(env, d0, d1, first, j);
      LaterStairsCompose(env, d0, d1, first, j, d2, second);
    }
  }

  lemma LaterStairsCompose<S>(env: Env<S>, d0: Database<S>, d1: Database<S>, first: seq<nat>, j: nat, d2: Database<S>, second: seq<nat>)
    requires j <= COUNT && AtStair(env, d0, d1, first, j) && OnStairs(env, d1, d2, second)
    ensures OnStairs(env, d0, d2, first + second)
  {
    if second == [] && (d2 == d1 || d2 == WithTable(d1)) {
      assert first + second == first && d2 == d1;
      assert AtStair(env, d0, d2, first + second, j);
    } else {
      var i: nat :| i <= COUNT && AtStair(env, d1, d2, second, i);
      StairOfStair(env, d0, d1, first, j, j);
      assert j <= i;
      StairOfStair(env, d0, d1, first, j, i);
      RangeJoin(Plan(env, d0).value, j, i);
      assert AtStair(env, d0, d2, first + second, i);
    }
  }

  /** A database through a series of runs, each stopping wherever it did, and what each committed. */
  ghost predicate Life<S>(env: Env<S>, ds: seq<Database<S>>, ledgers: seq<seq<nat>>) {
    |ds| == |ledgers| + 1 && forall i :: 0 <= i < |ledgers| ==> OnStairs(env, ds[i], ds[i + 1], ledgers[i])
  }

  function Concat(ledgers: seq<seq<nat>>): seq<nat> {
    if ledgers == [] then [] else Concat(ledgers[..|ledgers| - 1]) + ledgers[|ledgers| - 1]
  }

  lemma {:induction false} LifeIsOneClimb<S>(env: Env<S>, ds: seq<Database<S>>, ledgers: seq<seq<nat>>)
    requires Life(env, ds, ledgers)
    ensures OnStairs(env, ds[0], ds[|ds| - 1], Concat(ledgers))
  {
    if ledgers != [] {
      var n := |ledgers| - 1;
      LifeIsOneClimb(env, ds[..n + 1], ledgers[..n]);
      StairsCompose(env, ds[0], ds[n], Concat(ledgers[..n]), ds[n + 1], ledgers[n]);
    }
  }

  /**
   However often a database is crashed and migrated again, all the SQL ever committed is that of
   consecutive migrations from the first planned one: none is applied twice, the first is never
   applied to an adopted database, and one uninterrupted run still ends where it would have at first.
   */
  lemma EachMigrationAtMostOnce<S>(env: Env<S>, ds: seq<Database<S>>, ledgers: seq<seq<nat>>)
    requires Life(env, ds, ledgers)
    ensures var d0, d, all := ds[0], ds[|ds| - 1], Concat(ledgers);
            && Stair(env, d, COUNT) == Stair(env, d0, COUNT)
            && all == (if Plan(env, d0).Some? then Range(Plan(env, d0).value, Level(env, d0, d)) else [])
            && (forall i, j :: 0 <= i < j < |all| ==> all[i] < all[j])
            && (forall m :: m in all ==> m < COUNT && (IsLegacy(env, d0) ==> m != 0))
  {
    var d0, d, all := ds[0], ds[|ds| - 1], Concat(ledgers);
    LifeIsOneClimb(env, ds, ledgers);
    ResumeReachesTheSame(env, d0, d, all);
    if Plan(env, d0).None? {
      RefusedIsUntouched(env, d0, d, all);
    } else {
      CrashedOnStairs(env, d0, d, all);
    }
  }

  /// verify_database_file

  function VerifyDatabaseFile<S>(env: Env<S>, integrityOk: bool, d: Database<S>): Result<int, MigrationError> {
    if !integrityOk then Err(IntegrityFailed)
    else if d.history.None? then Err(MissingHistory)
    else HistoryVerdict(env, d.history.value, true)
  }

  /** Verification accepts exactly a sound file with the whole history. */
  lemma VerifiedExactly<S>(env: Env<S>, integrityOk: bool, d: Database<S>)
    ensures VerifyDatabaseFile(env, integrityOk, d).Ok? <==>
            integrityOk && d.history.Some? && IsPrefix(env, d.history.value) && |d.history.value| == 8
  {
    HistoryIsPrefix(env, Rows(d), true);
  }

  /** What verification accepts, a migration leaves alone: it is already where any run would bring it, with no SQL to run. */
  lemma VerifiedIsFixpoint<S>(env: Env<S>, d: Database<S>)
    requires VerifyDatabaseFile(env, true, d).Ok?
    ensures VerifyDatabaseFile(env, true, d) == Ok(EXPECTED_SCHEMA_VERSION)
    ensures AtStair(env, d, d, [], COUNT)
  {
    HistoryIsPrefix(env, Rows(d), true);
    assert RowsAt(env, Rows(d), COUNT) == Rows(d);
  }

  lemma FixpointStays<S>(env: Env<S>, d: Database<S>, d': Database<S>, ledger: seq<nat>)
    requires VerifyDatabaseFile(env, true, d).Ok? && OnStairs(env, d, d', ledger)
    ensures d' == d && ledger == []
  {
    VerifiedIsFixpoint(env, d);
    CrashedOnStairs(env, d, d', ledger);
  }

  /** And a migration that ran to the end leaves a file that verification accepts. */
  lemma MigratedIsVerified<S>(env: Env<S>, d0: Database<S>, d: Database<S>)
    requires Stair(env, d0, COUNT) == Some(d)
    ensures VerifyDatabaseFile(env, true, d) == Ok(EXPECTED_SCHEMA_VERSION)
  {
    RowsAtPrefix(env, Rows(d0), COUNT);
    HistoryIsPrefix(env, Rows(d), true);
  }
}
