/**
 The audit protocol: intents stored before a privileged command runs, events for their outcomes, and
 the outbox that delivers them (src/audit/store.rs, src/privileged/audited.rs). Times are milliseconds.
 */
module Audit {
  import opened Sqlite
  import opened Wrappers

  datatype Status = Pending | Executed | Failed | Rejected | Unknown

  datatype Outcome = Success | Failure | Refusal | Timeout

  function StatusOf(o: Outcome): Status {
    match o
    case Success => Executed
    case Failure => Failed
    case Timeout => Failed
    case Refusal => Rejected
  }

  datatype Intent = Intent(operationId: string, status: Status, createdAt: int)

  datatype AuditEvent = AuditEvent(intentId: nat, operationId: string, outcome: Outcome, createdAt: int)

  datatype OutboxRow = OutboxRow(
    eventId: nat, attempts: nat, nextRetryAt: Option<int>, deliveredAt: Option<int>, lastError: Option<string>)

  /** The three tables; `AUTOINCREMENT` never hands out an id twice. */
  datatype Db = Db(
    intents: map<nat, Intent>, events: map<nat, AuditEvent>, outbox: map<nat, OutboxRow>,
    nextIntent: nat, nextEvent: nat, nextOutbox: nat)

  const EMPTY := Db(map[], map[], map[], 1, 1, 1)

  datatype IntentHandle = IntentHandle(id: nat, operationId: string)

  datatype AuditError = StoreUnavailable

  /// Effects

  predicate HasOperation(intents: map<nat, Intent>, operationId: string) {
    exists i | i in intents :: intents[i].operationId == operationId
  }

  /** A duplicate operation id is refused. */
  function Begun(db: Db, operationId: string, now: int): Option<Db> {
    if HasOperation(db.intents, operationId) then None
    else Some(db.(intents := db.intents[db.nextIntent := Intent(operationId, Pending, now)], nextIntent := db.nextIntent + 1))
  }

  /** The status update alone, which is no error when the row is gone. */
  function WithStatus(db: Db, id: nat, s: Status): Db {
    if id in db.intents then db.(intents := db.intents[id := db.intents[id].(status := s)]) else db
  }

  /** An intent that is gone fails the event's foreign key. */
  function WithEvent(db: Db, h: IntentHandle, o: Outcome, now: int): Option<Db> {
    if h.id in db.intents
    then Some(db.(events := db.events[db.nextEvent := AuditEvent(h.id, h.operationId, o, now)], nextEvent := db.nextEvent + 1))
    else None
  }

  function Queued(db: Db, eventId: nat): Db {
    db.(outbox := db.outbox[db.nextOutbox := OutboxRow(eventId, 0, None, None, None)], nextOutbox := db.nextOutbox + 1)
  }

  /** Status, event and outbox row together. */
  function Completed(db: Db, h: IntentHandle, o: Outcome, now: int): Option<Db> {
    match WithEvent(WithStatus(db, h.id, StatusOf(o)), h, o, now)
    case None => None
    case Some(d) => Some(Queued(d, db.nextEvent))
  }

  function Reconciled(db: Db, cutoff: int): Db {
    db.(intents := map i | i in db.intents ::
      if db.intents[i].status == Pending && db.intents[i].createdAt < cutoff then db.intents[i].(status := Unknown) else db.intents[i])
  }

  predicate HasEvent(events: map<nat, AuditEvent>, id: nat) {
    exists e | e in events :: events[e].intentId == id
  }

  function OutboxPurged(db: Db, cutoff: int): map<nat, OutboxRow> {
    map o | o in db.outbox && !(db.outbox[o].eventId in db.events && db.events[db.outbox[o].eventId].createdAt < cutoff) :: db.outbox[o]
  }

  function EventsPurged(db: Db, cutoff: int): map<nat, AuditEvent> {
    map e | e in db.events && !(db.events[e].createdAt < cutoff) :: db.events[e]
  }

  function IntentsPurged(intents: map<nat, Intent>, events: map<nat, AuditEvent>, cutoff: int): map<nat, Intent> {
    map i | i in intents && !(intents[i].createdAt < cutoff && !HasEvent(events, i)) :: intents[i]
  }

  /** Children first: old events' outbox rows, old events, and old intents left without any. */
  function Purged(db: Db, cutoff: int): Db {
    var events := EventsPurged(db, cutoff);
    db.(outbox := OutboxPurged(db, cutoff), events := events, intents := IntentsPurged(db.intents, events, cutoff))
  }

  function Delivered(db: Db, id: nat, now: int): Db {
    if id in db.outbox then db.(outbox := db.outbox[id := db.outbox[id].(deliveredAt := Some(now), lastError := None)]) else db
  }

  function Retried(db: Db, id: nat, error: string, at: int): Db {
    if id in db.outbox
    then db.(outbox := db.outbox[id := db.outbox[id].(attempts := db.outbox[id].attempts + 1,
                                                      lastError := Some(error), nextRetryAt := Some(at))])
    else db
  }

  /// The outbox

  predicate IsUndelivered(db: Db, id: nat) {
    id in db.outbox && db.outbox[id].eventId in db.events && db.outbox[id].deliveredAt.None?
  }

  predicate IsDue(db: Db, id: nat, now: int) {
    && IsUndelivered(db, id)
    && (db.outbox[id].nextRetryAt.None? || db.outbox[id].nextRetryAt.value <= now)
  }

  /** Due is what has an event, was not delivered, and need not wait. */
  lemma DueExactly(db: Db, id: nat, now: int)
    ensures IsDue(db, id, now) <==> && id in db.outbox && db.outbox[id].eventId in db.events && db.outbox[id].deliveredAt == None
                                    && (db.outbox[id].nextRetryAt.Some? ==> db.outbox[id].nextRetryAt.value <= now)
  {
  }

  /** The due rows from `id` on in id order, at most `limit` of them; a negative limit is none. */
  function Listed(db: Db, now: int, id: nat, limit: int): seq<nat>
    decreases db.nextOutbox - id
  {
    if limit == 0 || db.nextOutbox <= id then []
    else if IsDue(db, id, now) then [id] + Listed(db, now, id + 1, limit - 1)
    else Listed(db, now, id + 1, limit)
  }

  /** Rows marked delivered one after the other. */
  function AllDelivered(db: Db, ids: seq<nat>, now: int): Db {
    if ids == [] then db else Delivered(AllDelivered(db, ids[..|ids| - 1], now), ids[|ids| - 1], now)
  }

  /// The same over a connection, statement by statement

  /** A failure may come after the intent was stored; its caller then runs nothing all the same. */
  method BeginIntent(conn: Connection<Db>, operationId: string, now: int) returns (r: Result<IntentHandle, AuditError>)
    requires conn.working == None
    modifies conn
    ensures conn.working == None
    ensures r.Ok? ==> Begun(old(conn.durable), operationId, now) == Some(conn.durable)
                      && r.value == IntentHandle(old(conn.durable).nextIntent, operationId)
    ensures r.Ok? ==>
              var was := old(conn.durable);
              && (forall i :: i in was.intents ==> was.intents[i].operationId != operationId)
              && conn.durable == was.(intents := was.intents[was.nextIntent := Intent(operationId, Pending, now)],
                                      nextIntent := was.nextIntent + 1)
    ensures r.Err? ==> conn.durable == old(conn.durable) || Begun(old(conn.durable), operationId, now) == Some(conn.durable)
    ensures conn.Sound() ==> (r.Ok? <==> !HasOperation(old(conn.durable).intents, operationId))
  {
    var ok := conn.Attempt();
    var id := conn.durable.nextIntent;
    var begun := Begun(conn.durable, operationId, now);
    if !ok || begun.None? {
      return Err(StoreUnavailable);
    }
    conn.Write(begun.value);
    ok := conn.Attempt();
    if !ok {
      return Err(StoreUnavailable);
    }
    r := Ok(IntentHandle(id, operationId));
  }

  method CompleteBody(conn: Connection<Db>, h: IntentHandle, o: Outcome, now: int) returns (ok: bool)
    requires conn.working.Some?
    modifies conn
    ensures conn.working.Some? && conn.durable == old(conn.durable) && conn.trail == old(conn.trail)
    ensures ok ==> Completed(old(conn.working).value, h, o, now) == Some(conn.working.value)
    ensures conn.Sound() ==> (ok <==> h.id in old(conn.working).value.intents)
  {
    ok := conn.Attempt();
    if !ok {
      return;
    }
    conn.Write(WithStatus(conn.working.value, h.id, StatusOf(o)));
    ok := conn.Attempt();
    if !ok {
      return;
    }
    var eventId := conn.working.value.nextEvent;
    var stored := WithEvent(conn.working.value, h, o, now);
    if stored.None? {
      return false;
    }
    conn.Write(stored.value);
    ok := conn.Attempt();
    if !ok {
      return;
    }
    ok := conn.Attempt();
    if !ok {
      return;
    }
    conn.Write(Queued(conn.working.value, eventId));
  }

  /** `complete_intent`: status, event and outbox row land together or not at all, even over a crash. */
  method CompleteIntent(conn: Connection<Db>, h: IntentHandle, o: Outcome, now: int) returns (ok: bool)
    requires conn.working == None
    modifies conn
    ensures ok ==> && Completed(old(conn.durable), h, o, now) == Some(conn.durable)
                   && conn.working == None && conn.trail == old(conn.trail) + [conn.durable]
    ensures ok ==>
              var was := old(conn.durable);
              var status := if o == Success then Executed else if o == Refusal then Rejected else Failed;
              && h.id in was.intents
              && conn.durable == Db(was.intents[h.id := Intent(was.intents[h.id].operationId, status, was.intents[h.id].createdAt)],
                                    was.events[was.nextEvent := AuditEvent(h.id, h.operationId, o, now)],
                                    was.outbox[was.nextOutbox := OutboxRow(was.nextEvent, 0, None, None, None)],
                                    was.nextIntent, was.nextEvent + 1, was.nextOutbox + 1)
    ensures !ok ==> conn.durable == old(conn.durable) && conn.trail == old(conn.trail)
    ensures conn.Sound() ==> (ok <==> h.id in old(conn.durable).intents)
  {
    ok := conn.Begin();
    if ok {
      ok := CompleteBody(conn, h, o, now);
      ok := Finish(conn, ok);
    }
  }

  const SECOND: int := 1000

  function CountStale(intents: map<nat, Intent>, cutoff: int): nat {
    |set i | i in intents && intents[i].status == Pending && intents[i].createdAt < cutoff|
  }

  method ReconcileStaleIntents(conn: Connection<Db>, now: int, staleAfterSecs: int) returns (r: Result<nat, AuditError>)
    modifies conn
    ensures conn.Since(old(conn.durable), old(conn.working), old(conn.trail))
    ensures conn.Current() == if r.Ok? then Reconciled(old(conn.Current()), now - staleAfterSecs * SECOND) else old(conn.Current())
    ensures r.Ok? ==> r.value == CountStale(old(conn.Current()).intents, now - staleAfterSecs * SECOND)
    ensures r.Ok? ==>
              var was, left, cutoff := old(conn.Current()), conn.Current(), now - staleAfterSecs * 1000;
              && left == was.(intents := left.intents) && left.intents.Keys == was.intents.Keys
              && (forall i :: i in was.intents ==>
                    left.intents[i] == if was.intents[i].status == Pending && was.intents[i].createdAt < cutoff
                                       then was.intents[i].(status := Unknown) else was.intents[i])
              && r.value == |set i | i in was.intents && was.intents[i].status == Pending && was.intents[i].createdAt < cutoff|
    ensures conn.Sound() ==> r.Ok?
  {
    var ok := conn.Attempt();
    if !ok {
      return Err(StoreUnavailable);
    }
    r := Ok(CountStale(conn.Current().intents, now - staleAfterSecs * SECOND));
    conn.Write(Reconciled(conn.Current(), now - staleAfterSecs * SECOND));
  }

  /** The rows of all three tables. */
  function RowCount(db: Db): nat {
    |db.outbox| + |db.events| + |db.intents|
  }

  method PurgeBody(conn: Connection<Db>, cutoff: int) returns (r: Result<nat, AuditError>)
    requires conn.working.Some?
    modifies conn
    ensures conn.working.Some? && conn.durable == old(conn.durable) && conn.trail == old(conn.trail)
    ensures r.Ok? ==> && conn.working == Some(Purged(old(conn.working).value, cutoff))
                      && r.value == RowCount(old(conn.working).value) - RowCount(conn.working.value)
    ensures conn.Sound() ==> r.Ok?
  {
    var ok := conn.Attempt();
    if !ok {
      return Err(StoreUnavailable);
    }
    var db := conn.working.value;
    var outbox := OutboxPurged(db, cutoff);
    Subset(outbox.Keys, db.outbox.Keys);
    var count: nat := |db.outbox| - |outbox|;
    conn.Write(db.(outbox := outbox));
    ok := conn.Attempt();
    if !ok {
      return Err(StoreUnavailable);
    }
    db := conn.working.value;
    var events := EventsPurged(db, cutoff);
    Subset(events.Keys, db.events.Keys);
    count := count + |db.events| - |events|;
    conn.Write(db.(events := events));
    ok := conn.Attempt();
    if !ok {
      return Err(StoreUnavailable);
    }
    db := conn.working.value;
    var intents := IntentsPurged(db.intents, db.events, cutoff);
    Subset(intents.Keys, db.intents.Keys);
    count := count + |db.intents| - |intents|;
    conn.Write(db.(intents := intents));
    r := Ok(count);
  }

  const DAY: int := 24 * 60 * 60 * 1000

  /** `purge_audit`, in one transaction. */
  method PurgeAudit(conn: Connection<Db>, now: int, keepDays: int) returns (r: Result<nat, AuditError>)
    requires conn.working == None
    modifies conn
    ensures conn.durable == if r.Ok? then Purged(old(conn.durable), now - keepDays * DAY) else old(conn.durable)
    ensures conn.trail == if r.Ok? then old(conn.trail) + [conn.durable] else old(conn.trail)
    ensures r.Ok? ==> r.value == RowCount(old(conn.durable)) - RowCount(conn.durable)
    ensures r.Ok? ==>
              var was, left, cutoff := old(conn.durable), conn.durable, now - keepDays * 86_400_000;
              && left == Db(left.intents, left.events, left.outbox, was.nextIntent, was.nextEvent, was.nextOutbox)
              && r.value == |was.outbox| + |was.events| + |was.intents| - |left.outbox| - |left.events| - |left.intents|
              && (forall e :: e in left.events ==> e in was.events && left.events[e] == was.events[e])
              && (forall e :: e in was.events ==> (e in left.events <==> cutoff <= was.events[e].createdAt))
              && (forall o :: o in left.outbox ==> o in was.outbox && left.outbox[o] == was.outbox[o])
              && (forall o :: o in was.outbox ==>
                    (o in left.outbox <==> was.outbox[o].eventId in left.events || was.outbox[o].eventId !in was.events))
              && (forall i :: i in left.intents ==> i in was.intents && left.intents[i] == was.intents[i])
              && (forall i :: i in was.intents ==>
                    (i in left.intents <==> cutoff <= was.intents[i].createdAt || exists e :: e in left.events && left.events[e].intentId == i))
    ensures conn.Sound() ==> r.Ok?
  {
    var ok := conn.Begin();
    if !ok {
      return Err(StoreUnavailable);
    }
    r := PurgeBody(conn, now - keepDays * DAY);
    ok := Finish(conn, r.Ok?);
    if r.Ok? && !ok {
      r := Err(StoreUnavailable);
    }
  }

  method ListPendingOutbox(conn: Connection<Db>, now: int, limit: int) returns (r: Result<seq<nat>, AuditError>)
    modifies conn`statements
    ensures r.Ok? ==> r.value == Listed(conn.Current(), now, 0, limit)
    ensures conn.Sound() ==> r.Ok?
  {
    var ok := conn.Attempt();
    if !ok {
      return Err(StoreUnavailable);
    }
    var db := conn.Current();
    var ids, left := [], limit;
    var id := 0;
    assert Listed(db, now, 0, limit) == [] + Listed(db, now, 0, limit);
    while id < db.nextOutbox && left != 0
      invariant Listed(db, now, 0, limit) == ids + Listed(db, now, id, left)
    {
      if IsDue(db, id, now) {
        assert ids + ([id] + Listed(db, now, id + 1, left - 1)) == (ids + [id]) + Listed(db, now, id + 1, left - 1);
        ids, left := ids + [id], left - 1;
      }
      id := id + 1;
    }
    assert ids + [] == ids;
    r := Ok(ids);
  }

  /** These rows are marked delivered and lose their error; nothing else differs. */
  predicate Remarked(was: Db, left: Db, ids: seq<nat>, now: int) {
    && left == was.(outbox := left.outbox) && left.outbox.Keys == was.outbox.Keys
    && forall o :: o in was.outbox ==>
         left.outbox[o] == if o in ids then OutboxRow(was.outbox[o].eventId, was.outbox[o].attempts, was.outbox[o].nextRetryAt, Some(now), None)
                           else was.outbox[o]
  }

  method MarkOutboxDelivered(conn: Connection<Db>, id: nat, now: int) returns (ok: bool)
    modifies conn
    ensures conn.Since(old(conn.durable), old(conn.working), old(conn.trail))
    ensures conn.Current() == if ok then Delivered(old(conn.Current()), id, now) else old(conn.Current())
    ensures ok ==> Remarked(old(conn.Current()), conn.Current(), [id], now)
    ensures conn.Sound() ==> ok
  {
    ok := conn.Attempt();
    if ok {
      conn.Write(Delivered(conn.Current(), id, now));
    }
  }

  /** A row whose delivery failed is due again from then on, and not before. */
  method MarkOutboxRetry(conn: Connection<Db>, id: nat, error: string, at: int) returns (ok: bool)
    modifies conn
    ensures conn.Since(old(conn.durable), old(conn.working), old(conn.trail))
    ensures conn.Current() == if ok then Retried(old(conn.Current()), id, error, at) else old(conn.Current())
    ensures ok ==>
              var was, left := old(conn.Current()), conn.Current();
              if id in was.outbox
              then left == was.(outbox := was.outbox[id := OutboxRow(was.outbox[id].eventId, was.outbox[id].attempts + 1, Some(at),
                                                                     was.outbox[id].deliveredAt, Some(error))])
              else left == was
    ensures ok ==> forall now :: IsDue(conn.Current(), id, now) <==> at <= now && IsUndelivered(old(conn.Current()), id)
    ensures conn.Sound() ==> ok
  {
    ok := conn.Attempt();
    if ok {
      conn.Write(Retried(conn.Current(), id, error, at));
    }
  }

  /** Delivery marks the listed rows in order; when a mark fails, those before it stay delivered. */
  method DeliverPendingOutbox(conn: Connection<Db>, now: int, limit: int) returns (r: Result<nat, AuditError>, ghost done: nat)
    modifies conn
    ensures conn.Since(old(conn.durable), old(conn.working), old(conn.trail))
    ensures var ids := Listed(old(conn.Current()), now, 0, limit);
            && done <= |ids| && conn.Current() == AllDelivered(old(conn.Current()), ids[..done], now)
            && (r.Ok? ==> done == |ids| && r.value == |ids|)
            && Remarked(old(conn.Current()), conn.Current(), ids[..done], now)
    ensures conn.Sound() ==> r.Ok?
  {
    done := 0;
    var pending := ListPendingOutbox(conn, now, limit);
    if pending.Err? {
      return Err(pending.error), done;
    }
    var ids := pending.value;
    for i := 0 to |ids|
      invariant done == i
      invariant conn.Since(old(conn.durable), old(conn.working), old(conn.trail))
      invariant conn.Current() == AllDelivered(old(conn.Current()), ids[..i], now)
      invariant Remarked(old(conn.Current()), conn.Current(), ids[..i], now)
    {
      var ok := MarkOutboxDelivered(conn, ids[i], now);
      if !ok {
        return Err(StoreUnavailable), done;
      }
      assert ids[..i + 1][..i] == ids[..i];
      done := i + 1;
    }
    r := Ok(|ids|);
  }

  /// audited.rs

  /** How the runner answered. */
  datatype RunResult =
    | Finished(exitCode: Option<int>)
    | TimedOut
    | Denied
    | Broken

  function OutcomeOf(r: RunResult): Outcome {
    match r
    case Finished(exitCode) => if exitCode == Some(0) then Success else Failure
    case TimedOut => Timeout
    case Denied => Refusal
    case Broken => Failure
  }

  datatype AuditedError = AuditFailed | RunnerFailed(r: RunResult)

  /**
   `execute_audited`. The command runs only once its intent is in the file; `ran` is the file at that
   moment. Its outcome is then stored once, and whether that succeeds does not change the answer.
   */
  method ExecuteAudited(conn: Connection<Db>, operationId: string, command: RunResult, now: int, later: int)
    returns (r: Result<Option<int>, AuditedError>, ghost ran: Option<Db>)
    requires conn.working == None
    modifies conn
    ensures r == Err(AuditFailed) <==> ran.None?
    ensures ran.None? ==> conn.durable == old(conn.durable) || Begun(old(conn.durable), operationId, now) == Some(conn.durable)
    ensures ran.Some? ==> var id := old(conn.durable).nextIntent;
                          && Begun(old(conn.durable), operationId, now) == ran
                          && id in ran.value.intents && ran.value.intents[id] == Intent(operationId, Pending, now)
                          && (conn.durable == ran.value
                              || Completed(ran.value, IntentHandle(id, operationId), OutcomeOf(command), later) == Some(conn.durable))
                          && r == if command.Finished? then Ok(command.exitCode) else Err(RunnerFailed(command))
    ensures conn.Sound() && ran.Some? ==>
              var was := old(conn.durable);
              var outcome := match command
                             case Finished(exitCode) => if exitCode == Some(0) then Success else Failure
                             case TimedOut => Timeout
                             case Denied => Refusal
                             case Broken => Failure;
              && conn.durable.events == was.events[was.nextEvent := AuditEvent(was.nextIntent, operationId, outcome, later)]
              && conn.durable.outbox == was.outbox[was.nextOutbox := OutboxRow(was.nextEvent, 0, None, None, None)]
    ensures conn.Sound() && ran.Some? ==>
              Completed(ran.value, IntentHandle(old(conn.durable).nextIntent, operationId), OutcomeOf(command), later) == Some(conn.durable)
  {
    ran := None;
    var intent := BeginIntent(conn, operationId, now);
    if intent.Err? {
      return Err(AuditFailed), ran;
    }
    ran := Some(conn.durable);
    var ok;
    match command {
      case Finished(exitCode) =>
        ok := CompleteIntent(conn, intent.value, if exitCode == Some(0) then Success else Failure, later);
        r := Ok(exitCode);
      case TimedOut =>
        ok := CompleteIntent(conn, intent.value, Timeout, later);
        r := Err(RunnerFailed(TimedOut));
      case Denied =>
        ok := CompleteIntent(conn, intent.value, Refusal, later);
        r := Err(RunnerFailed(Denied));
      case Broken =>
        ok := CompleteIntent(conn, intent.value, Failure, later);
        r := Err(RunnerFailed(Broken));
    }
  }
}
