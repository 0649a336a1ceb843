/**
 Every interleaving of audited operations, reconciliation, retention purges, deliveries and crashes.
 Each statement or transaction of src/audit/store.rs is one step.
 */
module AuditRuns {
  import opened Audit
  import opened Runs
  import opened Wrappers

  /** An operation in flight: its intent is stored, and then its command has run. */
  datatype Stage = Stored | Ran(outcome: Outcome)

  /**
   `flying` holds the operations in flight by intent id, `begun` every intent ever stored, as it was
   then, and `horizon` is the latest cutoff a purge has had.
   */
  datatype World = World(db: Db, clock: int, flying: map<nat, Stage>, begun: map<nat, Intent>, horizon: int)

  /**
   A `lost` begin stored its intent but reported an error. `Complete` happens once per operation:
   when it fails it is not tried again. A crash ends every operation in flight.
   */
  datatype Event =
    | Tick(now: int)
    | Begin(operationId: string, lost: bool)
    | Run(id: nat, outcome: Outcome)
    | Complete(id: nat)
    | CompleteFails(id: nat)
    | Reconcile(staleAfter: int)
    | Purge(cutoff: int)
    | MarkDelivered(row: nat)
    | MarkRetry(row: nat, error: string, at: int)
    | Crash

  function StepOperation(w: World, e: Event): Option<World>
    requires e.Begin? || e.Run? || e.Complete? || e.CompleteFails?
  {
    match e
    case Begin(operationId, lost) =>
      (match Begun(w.db, operationId, w.clock)
       case None => None
       case Some(db) =>
         Some(w.(db := db, begun := w.begun[w.db.nextIntent := db.intents[w.db.nextIntent]],
                 flying := if lost then w.flying else w.flying[w.db.nextIntent := Stored])))
    case Run(id, outcome) =>
      if id in w.flying && w.flying[id].Stored?
      then Some(w.(flying := w.flying[id := Ran(outcome)]))
      else None
    case Complete(id) =>
      if id in w.flying && w.flying[id].Ran? && id in w.begun then
        match Completed(w.db, IntentHandle(id, w.begun[id].operationId), w.flying[id].outcome, w.clock)
        case None => None
        case Some(db) => Some(w.(db := db, flying := w.flying - {id}))
      else None
    case CompleteFails(id) =>
      if id in w.flying && w.flying[id].Ran? then Some(w.(flying := w.flying - {id})) else None
  }

  function Step(w: World, e: Event): Option<World> {
    match e
    case Begin(_, _) => StepOperation(w, e)
    case Run(_, _) => StepOperation(w, e)
    case Complete(_) => StepOperation(w, e)
    case CompleteFails(_) => StepOperation(w, e)
    case Tick(now) => if now < w.clock then None else Some(w.(clock := now))
    case Reconcile(staleAfter) => Some(w.(db := Reconciled(w.db, w.clock - staleAfter)))
    case Purge(cutoff) => Some(w.(db := Purged(w.db, cutoff), horizon := if w.horizon < cutoff then cutoff else w.horizon))
    case MarkDelivered(row) => Some(w.(db := Delivered(w.db, row, w.clock)))
    case MarkRetry(row, error, at) => Some(w.(db := Retried(w.db, row, error, at)))
    case Crash => Some(w.(flying := map[]))
  }

  const START := World(EMPTY, 0, map[], map[], 0)

  /// What every step keeps

  predicate IsFinal(s: Status) {
    s.Executed? || s.Failed? || s.Rejected?
  }

  /** Events belong to an intent with their operation and the status of their outcome, one event to an intent. */
  ghost predicate EventsFit(db: Db) {
    && (forall e :: e in db.events ==>
          && e < db.nextEvent && db.events[e].intentId in db.intents
          && db.intents[db.events[e].intentId].operationId == db.events[e].operationId
          && db.intents[db.events[e].intentId].status == StatusOf(db.events[e].outcome)
          && db.intents[db.events[e].intentId].createdAt <= db.events[e].createdAt)
    && (forall e, f :: e in db.events && f in db.events && db.events[e].intentId == db.events[f].intentId ==> e == f)
  }

  /** An intent with a final status has an event. */
  ghost predicate FinalsHaveEvents(db: Db) {
    forall i :: i in db.intents ==> i < db.nextIntent && (IsFinal(db.intents[i].status) ==> HasEvent(db.events, i))
  }

  /** Outbox rows and events match one to one. */
  ghost predicate OutboxFits(db: Db) {
    && (forall o :: o in db.outbox ==> o < db.nextOutbox && db.outbox[o].eventId in db.events)
    && (forall o, p :: o in db.outbox && p in db.outbox && db.outbox[o].eventId == db.outbox[p].eventId ==> o == p)
    && (forall e :: e in db.events ==> InOutbox(db.outbox, e))
  }

  predicate InOutbox(outbox: map<nat, OutboxRow>, e: nat) {
    exists o | o in outbox :: outbox[o].eventId == e
  }

  /** An operation in flight has no event yet, and its intent, if it is still there, no final status. */
  ghost predicate FlyingFit(w: World) {
    forall i :: i in w.flying ==>
      i < w.db.nextIntent && !HasEvent(w.db.events, i) && (i in w.db.intents ==> w.db.intents[i].createdAt <= w.clock)
  }

  ghost predicate Consistent(db: Db) {
    EventsFit(db) && FinalsHaveEvents(db) && OutboxFits(db)
  }

  ghost predicate Good(w: World) {
    Consistent(w.db) && FlyingFit(w)
  }

  /** An intent once stored is there, or a purge may have taken it; an operation in flight was stored. */
  ghost predicate Kept(w: World) {
    && (forall i :: i in w.flying ==> i in w.begun)
    && (forall i :: i in w.begun ==> i < w.db.nextIntent && (i in w.db.intents || w.begun[i].createdAt < w.horizon))
    && (forall i :: i in w.begun && i in w.db.intents ==>
          w.db.intents[i].operationId == w.begun[i].operationId && w.db.intents[i].createdAt == w.begun[i].createdAt)
  }

  lemma KeptOperation(w: World, e: Event, w': World)
    requires Kept(w) && (e.Begin? || e.Run? || e.Complete? || e.CompleteFails?) && StepOperation(w, e) == Some(w')
    ensures Kept(w')
  {
  }

  lemma KeptOther(w: World, e: Event, w': World)
    requires Kept(w) && !(e.Begin? || e.Run? || e.Complete? || e.CompleteFails?) && Step(w, e) == Some(w')
    ensures Kept(w')
  {
  }

  lemma {:induction false} KeptAlways(es: seq<Event>, w: World)
    requires After(START, Step, es) == Some(w)
    ensures Kept(w)
  {
    if es != [] {
      var w0, e := Before(START, Step, es, w);
      KeptAlways(es[..|es| - 1], w0);
      if e.Begin? || e.Run? || e.Complete? || e.CompleteFails? {
        KeptOperation(w0, e, w);
      } else {
        KeptOther(w0, e, w);
      }
    }
  }

  lemma GoodBegun(db: Db, operationId: string, now: int)
    requires Consistent(db) && Begun(db, operationId, now).Some?
    ensures Consistent(Begun(db, operationId, now).value) && !HasEvent(db.events, db.nextIntent)
  {
  }

  lemma GoodBegin(w: World, e: Event, w': World)
    requires Good(w) && e.Begin? && Step(w, e) == Some(w')
    ensures Good(w')
  {
    GoodBegun(w.db, e.operationId, w.clock);
  }

  lemma GoodRun(w: World, e: Event, w': World)
    requires Good(w) && (e.Run? || e.CompleteFails? || e.Tick? || e.Crash?) && Step(w, e) == Some(w')
    ensures Good(w')
  {
    assert w'.db == w.db && w.clock <= w'.clock;
    GoodWith(w, w.db, w');
  }

  lemma CompletedEvents(db: Db, h: IntentHandle, o: Outcome, now: int)
    requires Consistent(db) && Completed(db, h, o, now).Some? && !HasEvent(db.events, h.id)
    requires db.intents[h.id].createdAt <= now && db.intents[h.id].operationId == h.operationId
    ensures var d := Completed(db, h, o, now).value;
            && EventsFit(d) && FinalsHaveEvents(d)
            && (forall i :: i != h.id ==> (HasEvent(d.events, i) <==> HasEvent(db.events, i)))
  {
    var d := Completed(db, h, o, now).value;
    assert d.events[db.nextEvent].intentId == h.id;
    forall i | HasEvent(db.events, i)
      ensures HasEvent(d.events, i)
    {
      var e :| e in db.events && db.events[e].intentId == i;
      assert d.events[e] == db.events[e];
    }
  }

  lemma CompletedOutbox(db: Db, h: IntentHandle, o: Outcome, now: int)
    requires Consistent(db) && Completed(db, h, o, now).Some?
    ensures OutboxFits(Completed(db, h, o, now).value)
  {
    var d := Completed(db, h, o, now).value;
    assert d.outbox[db.nextOutbox].eventId == db.nextEvent;
    forall e | e in d.events
      ensures InOutbox(d.outbox, e)
    {
      if e in db.events {
        var p :| p in db.outbox && db.outbox[p].eventId == e;
        assert d.outbox[p] == db.outbox[p];
      }
    }
  }

  lemma GoodComplete(w: World, e: Event, w': World)
    requires Good(w) && Kept(w) && e.Complete? && Step(w, e) == Some(w')
    ensures Good(w')
  {
    var h := IntentHandle(e.id, w.begun[e.id].operationId);
    CompletedEvents(w.db, h, w.flying[e.id].outcome, w.clock);
    CompletedOutbox(w.db, h, w.flying[e.id].outcome, w.clock);
  }

  lemma GoodReconcile(w: World, e: Event, w': World)
    requires Good(w) && e.Reconcile? && Step(w, e) == Some(w')
    ensures Good(w')
  {
  }

  lemma PurgedEvents(db: Db, cutoff: int, i: nat)
    ensures HasEvent(EventsPurged(db, cutoff), i) ==> HasEvent(db.events, i)
  {
  }

  lemma PurgeEvents(db: Db, cutoff: int)
    requires Consistent(db)
    ensures EventsFit(Purged(db, cutoff))
  {
    var d := Purged(db, cutoff);
    forall e | e in d.events
      ensures d.events[e].intentId in d.intents
    {
      assert d.events[e] == db.events[e];
      assert HasEvent(d.events, d.events[e].intentId);
    }
  }

  lemma PurgeFlying(w: World, e: Event, w': World)
    requires FlyingFit(w) && e.Purge? && Step(w, e) == Some(w')
    ensures FlyingFit(w')
  {
    forall i | i in w.flying
      ensures !HasEvent(w'.db.events, i)
    {
      PurgedEvents(w.db, e.cutoff, i);
    }
  }

  lemma PurgeConsistent(db: Db, cutoff: int)
    requires Consistent(db)
    ensures Consistent(Purged(db, cutoff))
  {
    PurgeEvents(db, cutoff);
    assert FinalsHaveEvents(Purged(db, cutoff)) by {
      var d := Purged(db, cutoff);
      forall i | i in d.intents && IsFinal(d.intents[i].status)
        ensures HasEvent(d.events, i)
      {
        var e :| e in db.events && db.events[e].intentId == i;
        if !(db.events[e].createdAt < cutoff) {
          assert d.events[e].intentId == i;
        }
      }
    }
    assert OutboxFits(Purged(db, cutoff)) by {
      var d := Purged(db, cutoff);
      forall e | e in d.events
        ensures InOutbox(d.outbox, e)
      {
        var o :| o in db.outbox && db.outbox[o].eventId == e;
        assert d.outbox[o] == db.outbox[o];
      }
    }
  }

  lemma GoodWith(w: World, db: Db, w': World)
    requires Consistent(db) && FlyingFit(w') && w'.db == db
    ensures Good(w')
  {
  }

  lemma PurgeStep(w: World, e: Event, w': World)
    requires e.Purge? && Step(w, e) == Some(w')
    ensures w'.db == Purged(w.db, e.cutoff)
  {
  }

  /** A row may change as it likes as long as it keeps its event. */
  lemma MarkedOutbox(db: Db, row: nat, r: OutboxRow)
    requires OutboxFits(db) && row in db.outbox && r.eventId == db.outbox[row].eventId
    ensures OutboxFits(db.(outbox := db.outbox[row := r]))
  {
    var d := db.(outbox := db.outbox[row := r]);
    forall x | x in db.events
      ensures InOutbox(d.outbox, x)
    {
      var o :| o in db.outbox && db.outbox[o].eventId == x;
      assert d.outbox[o].eventId == x;
    }
  }

  lemma GoodMark(w: World, e: Event, w': World)
    requires Good(w) && (e.MarkDelivered? || e.MarkRetry?) && Step(w, e) == Some(w')
    ensures Good(w')
  {
    if e.row in w.db.outbox {
      MarkedOutbox(w.db, e.row, w'.db.outbox[e.row]);
    }
  }

  lemma {:induction false} GoodAlways(es: seq<Event>, w: World)
    requires After(START, Step, es) == Some(w)
    ensures Good(w)
  {
    if es != [] {
      var w0, e := Before(START, Step, es, w);
      GoodAlways(es[..|es| - 1], w0);
      KeptAlways(es[..|es| - 1], w0);
      match e
      case Begin(_, _) => GoodBegin(w0, e, w);
      case Complete(_) => GoodComplete(w0, e, w);
      case Reconcile(_) => GoodReconcile(w0, e, w);
      case Purge(_) =>
        assert Good(w) by {
          PurgeStep(w0, e, w);
          PurgeConsistent(w0.db, e.cutoff);
          PurgeFlying(w0, e, w);
          GoodWith(w0, Purged(w0.db, e.cutoff), w);
        }
      case MarkDelivered(_) => GoodMark(w0, e, w);
      case MarkRetry(_, _, _) => GoodMark(w0, e, w);
      case Run(_, _) => GoodRun(w0, e, w);
      case CompleteFails(_) => GoodRun(w0, e, w);
      case Tick(_) => GoodRun(w0, e, w);
      case Crash => GoodRun(w0, e, w);
    }
  }

  /// What that means to a reader of the tables

  function EventsOf(db: Db, intent: nat): set<nat> {
    set e | e in db.events && db.events[e].intentId == intent
  }

  function RowsOf(db: Db, event: nat): set<nat> {
    set o | o in db.outbox && db.outbox[o].eventId == event
  }

  /**
   After any interleaving, an intent is `executed`, `failed` or `rejected` exactly when it has an
   event; it then has one, with its operation and the outcome of that status. A pending or unknown
   intent has none.
   */
  lemma StatusTellsEvent(es: seq<Event>, w: World, i: nat)
    requires After(START, Step, es) == Some(w) && i in w.db.intents
    ensures |EventsOf(w.db, i)| == if IsFinal(w.db.intents[i].status) then 1 else 0
    ensures forall e :: e in EventsOf(w.db, i) ==>
              && StatusOf(w.db.events[e].outcome) == w.db.intents[i].status
              && w.db.events[e].operationId == w.db.intents[i].operationId
  {
    GoodAlways(es, w);
    if IsFinal(w.db.intents[i].status) {
      var e :| e in w.db.events && w.db.events[e].intentId == i;
      assert EventsOf(w.db, i) == {e};
    } else {
      assert EventsOf(w.db, i) == {};
    }
  }

  /** After any interleaving no reference dangles, and every event has exactly one outbox row. */
  lemma EventsAndRowsPair(es: seq<Event>, w: World)
    requires After(START, Step, es) == Some(w)
    ensures forall e :: e in w.db.events ==> w.db.events[e].intentId in w.db.intents && |RowsOf(w.db, e)| == 1
    ensures forall o :: o in w.db.outbox ==> w.db.outbox[o].eventId in w.db.events
  {
    GoodAlways(es, w);
    forall e | e in w.db.events
      ensures |RowsOf(w.db, e)| == 1
    {
      var o :| o in w.db.outbox && w.db.outbox[o].eventId == e;
      assert RowsOf(w.db, e) == {o};
    }
  }

  /**
   Whenever a command runs, its intent has been stored: it is in the table, with no outcome yet, unless
   it was already older than a purge's cutoff.
   */
  lemma CommandRunsAfterItsIntent(es: seq<Event>, w: World, id: nat, outcome: Outcome)
    requires After(START, Step, es) == Some(w) && Step(w, Run(id, outcome)).Some?
    ensures id in w.begun
    ensures if id in w.db.intents
            then !IsFinal(w.db.intents[id].status) && w.db.intents[id].operationId == w.begun[id].operationId
            else w.begun[id].createdAt < w.horizon
  {
    GoodAlways(es, w);
    KeptAlways(es, w);
  }

  /** A purge removes exactly the events before the cutoff; one it keeps has its intent and outbox row as before. */
  lemma PurgeKeepsRecent(es: seq<Event>, w: World, cutoff: int, e: nat)
    requires After(START, Step, es) == Some(w) && e in w.db.events
    ensures var d := Purged(w.db, cutoff);
            && (e in d.events <==> w.db.events[e].createdAt >= cutoff)
            && (e in d.events ==>
                  && d.events[e] == w.db.events[e]
                  && d.events[e].intentId in d.intents
                  && d.intents[d.events[e].intentId] == w.db.intents[d.events[e].intentId]
                  && RowsOf(d, e) == RowsOf(w.db, e)
                  && forall o :: o in RowsOf(d, e) ==> d.outbox[o] == w.db.outbox[o])
  {
    GoodAlways(es, w);
    PurgeConsistent(w.db, cutoff);
  }

  /// Delivery

  function DueFrom(db: Db, now: int, id: nat): set<nat> {
    set o | o in db.outbox && IsDue(db, o, now) && o >= id
  }

  function Due(db: Db, now: int): set<nat> {
    DueFrom(db, now, 0)
  }

  ghost predicate RowsBelow(db: Db) {
    forall o :: o in db.outbox ==> o < db.nextOutbox
  }

  function Least(limit: int, n: nat): nat {
    if limit < 0 || n <= limit then n else limit
  }

  lemma DueStep(db: Db, now: int, id: nat)
    ensures |DueFrom(db, now, id)| == |DueFrom(db, now, id + 1)| + (if IsDue(db, id, now) then 1 else 0)
  {
    var later := DueFrom(db, now, id + 1);
    assert DueFrom(db, now, id) == if IsDue(db, id, now) then later + {id} else later;
  }

  lemma {:induction false} DueCount(db: Db, now: int, id: nat, limit: int)
    requires RowsBelow(db)
    ensures |Listed(db, now, id, limit)| == Least(limit, |DueFrom(db, now, id)|)
    decreases db.nextOutbox - id
  {
    if limit != 0 {
      if db.nextOutbox <= id {
        assert DueFrom(db, now, id) == {};
      } else if IsDue(db, id, now) {
        DueCount(db, now, id + 1, limit - 1);
        DueStep(db, now, id);
      } else {
        DueCount(db, now, id + 1, limit);
        DueStep(db, now, id);
      }
    }
  }

  /** The listed rows are due, in order, and every due row that is left out comes after them. */
  lemma {:induction false} ListedInOrder(db: Db, now: int, id: nat, limit: int, i: nat, d: nat)
    requires RowsBelow(db) && i < |Listed(db, now, id, limit)|
    ensures var l := Listed(db, now, id, limit);
            && l[i] in DueFrom(db, now, id)
            && (forall j :: i < j < |l| ==> l[i] < l[j])
            && (d in DueFrom(db, now, id) && d !in l ==> l[i] < d)
    decreases db.nextOutbox - id
  {
    var l := Listed(db, now, id, limit);
    if IsDue(db, id, now) {
      var rest := Listed(db, now, id + 1, limit - 1);
      assert l == [id] + rest;
      if i == 0 {
        forall j | 0 < j < |l|
          ensures l[0] < l[j]
        {
          ListedInOrder(db, now, id + 1, limit - 1, j - 1, d);
          assert l[j] == rest[j - 1];
        }
      } else {
        ListedInOrder(db, now, id + 1, limit - 1, i - 1, d);
      }
      assert d !in l ==> d != id && d !in rest;
    } else {
      ListedInOrder(db, now, id + 1, limit, i, d);
    }
  }

  function Members(ids: seq<nat>): set<nat> {
    set i | 0 <= i < |ids| :: ids[i]
  }

  lemma {:induction false} DeliveredNotDue(db: Db, ids: seq<nat>, now: int, t: int)
    ensures Due(AllDelivered(db, ids, now), t) == Due(db, t) - Members(ids)
    ensures RowsBelow(db) ==> RowsBelow(AllDelivered(db, ids, now))
    ensures AllDelivered(db, ids, now).events == db.events
  {
    if ids == [] {
      assert Due(db, t) - Members(ids) == Due(db, t);
    } else {
      var front, last := ids[..|ids| - 1], ids[|ids| - 1];
      DeliveredNotDue(db, front, now, t);
      MembersSnoc(front, last);
      assert front + [last] == ids;
      var d := AllDelivered(db, front, now);
      OneDelivered(d, last, now, t);
      assert Due(db, t) - Members(front) - {last} == Due(db, t) - Members(ids);
    }
  }

  lemma OneDelivered(db: Db, id: nat, now: int, t: int)
    ensures Due(Delivered(db, id, now), t) == Due(db, t) - {id}
    ensures RowsBelow(db) ==> RowsBelow(Delivered(db, id, now))
  {
  }

  lemma MembersSnoc(ids: seq<nat>, x: nat)
    ensures Members(ids + [x]) == Members(ids) + {x}
  {
    assert (ids + [x])[|ids|] == x;
    forall y | y in Members(ids)
      ensures y in Members(ids + [x])
    {
      var i :| 0 <= i < |ids| && ids[i] == y;
      assert (ids + [x])[i] == y;
    }
  }

  lemma NoMember(ids: seq<nat>, x: nat)
    requires forall i :: 0 <= i < |ids| ==> ids[i] < x
    ensures |Members(ids) + {x}| == |Members(ids)| + 1
  {
  }

  lemma {:induction false} MembersCount(ids: seq<nat>)
    requires forall i, j :: 0 <= i < j < |ids| ==> ids[i] < ids[j]
    ensures |Members(ids)| == |ids|
  {
    if ids != [] {
      var front, last := ids[..|ids| - 1], ids[|ids| - 1];
      MembersCount(front);
      MembersSnoc(front, last);
      NoMember(front, last);
      assert front + [last] == ids;
    }
  }

  /** One call of `deliver_pending_outbox` that meets no error. */
  function DeliveredOnce(db: Db, now: int, limit: int): Db {
    AllDelivered(db, Listed(db, now, 0, limit), now)
  }

  lemma DueMonotone(db: Db, now: int, later: int)
    requires now <= later
    ensures Due(db, now) <= Due(db, later)
  {
  }

  /** What one call at `now` takes away from the rows due at that time, and at any other. */
  lemma OneCallDelivers(db: Db, now: int, limit: int) returns (ids: set<nat>)
    requires RowsBelow(db)
    ensures ids <= Due(db, now) && |ids| == Least(limit, |Due(db, now)|)
    ensures forall t :: Due(DeliveredOnce(db, now, limit), t) == Due(db, t) - ids
    ensures RowsBelow(DeliveredOnce(db, now, limit))
  {
    var l := Listed(db, now, 0, limit);
    ids := Members(l);
    DueCount(db, now, 0, limit);
    forall i | 0 <= i < |l|
      ensures l[i] in Due(db, now) && forall j :: i < j < |l| ==> l[i] < l[j]
    {
      ListedInOrder(db, now, 0, limit, i, 0);
    }
    MembersCount(l);
    forall t
      ensures Due(DeliveredOnce(db, now, limit), t) == Due(db, t) - ids
    {
      DeliveredNotDue(db, l, now, t);
    }
    DeliveredNotDue(db, l, now, now);
  }

  /** Calls that meet no error, each at its own reading of the clock. */
  function DeliveredAt(db: Db, readings: seq<int>, limit: int): Db {
    if readings == [] then db
    else DeliveredOnce(DeliveredAt(db, readings[..|readings| - 1], limit), readings[|readings| - 1], limit)
  }

  /** One call between `lo` and `hi`, in numbers of due rows. */
  lemma OneCallBetween(db: Db, lo: int, now: int, hi: int, limit: nat)
    requires RowsBelow(db) && lo <= now <= hi
    ensures var d := DeliveredOnce(db, now, limit);
            && RowsBelow(d) && |Due(d, lo)| <= |Due(d, hi)| && |Due(db, lo)| <= |Due(db, hi)|
            && |Due(d, hi)| >= |Due(db, hi)| - limit
            && |Due(db, lo)| - |Due(d, lo)| <= |Due(db, hi)| - |Due(d, hi)|
            && (|Due(d, hi)| == |Due(db, hi)| - limit || |Due(d, lo)| == 0)
            && |Due(d, hi)| <= |Due(db, hi)| && |Due(d, lo)| <= |Due(db, lo)|
  {
    var d := DeliveredOnce(db, now, limit);
    var ids := OneCallDelivers(db, now, limit);
    var due := Due(db, now);
    DueMonotone(db, lo, now);
    DueMonotone(db, now, hi);
    DueMonotone(d, lo, hi);
    DueMonotone(db, lo, hi);
    Subset(Due(d, lo), Due(d, hi));
    Subset(Due(db, lo), Due(db, hi));
    Subset(ids, Due(db, hi));
    TakenAway(Due(db, lo), ids);
    Subset(Due(d, lo), Due(db, lo));
    if |due| <= limit {
      Subset(ids, due);
      assert due - ids == {};
      assert Due(d, lo) == {};
    }
  }

  lemma TakenAway(a: set<nat>, ids: set<nat>)
    ensures |a| - |a - ids| <= |ids|
  {
    assert a == (a - ids) + (a * ids);
    Subset(a * ids, ids);
  }

  /**
   Numbers of due rows after calls that could take `k` rows: of `n0` due at the earliest reading `lo` are
   left, and of `n1` at the latest `hi`.
   */
  predicate Shrunk(n0: nat, n1: nat, k: nat, lo: nat, hi: nat) {
    && lo <= hi && n0 - lo <= n1 - hi
    && n1 - Least(k, n1) <= hi <= n1 - Least(k, n0)
    && (hi == n1 - k || lo == 0)
  }

  lemma ShrunkMore(n0: nat, n1: nat, k: nat, lo: nat, hi: nat, limit: nat, lo': nat, hi': nat)
    requires Shrunk(n0, n1, k, lo, hi)
    requires lo' <= hi' && lo' <= lo && hi - limit <= hi' <= hi && lo - lo' <= hi - hi' && (hi' == hi - limit || lo' == 0)
    ensures Shrunk(n0, n1, k + limit, lo', hi')
  {
  }

  /**
   A backlog drains by the limit with every call. Of `n0` rows due at the earliest reading and `n1` at
   the latest, k calls leave at least n1 - k * limit, and no more than if they only took from the n0;
   and those due at the earliest reading are gone after ceil(n1 / limit) calls.
   */
  lemma {:induction false} BacklogShrinks(db: Db, readings: seq<int>, limit: nat, lo: int, hi: int, k: nat)
    requires RowsBelow(db) && lo <= hi && (forall i :: 0 <= i < |readings| ==> lo <= readings[i] <= hi) && k == |readings| * limit
    ensures var d := DeliveredAt(db, readings, limit);
            RowsBelow(d) && Shrunk(|Due(db, lo)|, |Due(db, hi)|, k, |Due(d, lo)|, |Due(d, hi)|)
  {
    if readings == [] {
      DueMonotone(db, lo, hi);
      Subset(Due(db, lo), Due(db, hi));
    } else {
      var front, now := readings[..|readings| - 1], readings[|readings| - 1];
      var before := DeliveredAt(db, front, limit);
      var d := DeliveredOnce(before, now, limit);
      assert k - limit == |front| * limit;
      BacklogShrinks(db, front, limit, lo, hi, k - limit);
      OneCallBetween(before, lo, now, hi, limit);
      ShrunkMore(|Due(db, lo)|, |Due(db, hi)|, k - limit, |Due(before, lo)|, |Due(before, hi)|, limit, |Due(d, lo)|, |Due(d, hi)|);
    }
  }

  lemma ShrunkMeans(n0: nat, n1: nat, k: nat, lo: nat, hi: nat)
    requires Shrunk(n0, n1, k, lo, hi)
    ensures n1 - Least(k, n1) <= hi <= n1 - Least(k, n0)
    ensures k >= n1 ==> lo == 0
    ensures n0 == n1 ==> (hi == 0 <==> k >= n1)
  {
  }

  /**
   So it is after any interleaving. Where no row becomes due between the readings, a backlog of n is
   empty exactly when k * limit >= n, so after ceil(n / limit) calls and not before.
   */
  lemma BacklogDrains(es: seq<Event>, w: World, readings: seq<int>, limit: nat, lo: int, hi: int)
    requires After(START, Step, es) == Some(w)
    requires lo <= hi && forall i :: 0 <= i < |readings| ==> lo <= readings[i] <= hi
    ensures var d, n0, n1, k := DeliveredAt(w.db, readings, limit), |Due(w.db, lo)|, |Due(w.db, hi)|, |readings| * limit;
            && n1 - Least(k, n1) <= |Due(d, hi)| <= n1 - Least(k, n0)
            && (k >= n1 ==> |Due(d, lo)| == 0)
            && (n0 == n1 ==> (|Due(d, hi)| == 0 <==> k >= n1))
  {
    assert RowsBelow(w.db) by {
      GoodAlways(es, w);
    }
    var d, k := DeliveredAt(w.db, readings, limit), |readings| * limit;
    BacklogShrinks(w.db, readings, limit, lo, hi, k);
    ShrunkMeans(|Due(w.db, lo)|, |Due(w.db, hi)|, k, |Due(d, lo)|, |Due(d, hi)|);
  }

  /// One operation alone

  /**
   The steps are those of the method: an operation with nothing in between stores its intent, runs its
   command, and then leaves the file as `ExecuteAudited` does, whether its completion fails or not.
   */
  lemma OperationAsTheMethod(w: World, operationId: string, outcome: Outcome, later: int, completes: bool) returns (w': World)
    requires !HasOperation(w.db.intents, operationId) && w.clock <= later
    ensures var id := w.db.nextIntent;
            && After(w, Step, [Begin(operationId, false), Run(id, outcome), Tick(later),
                               if completes then Complete(id) else CompleteFails(id)]) == Some(w')
            && Begun(w.db, operationId, w.clock).Some?
            && var ran := Begun(w.db, operationId, w.clock).value;
               Some(w'.db) == if completes then Completed(ran, IntentHandle(id, operationId), outcome, later) else Some(ran)
  {
    var id := w.db.nextIntent;
    var begin, run, tick := Begin(operationId, false), Run(id, outcome), Tick(later);
    var end := if completes then Complete(id) else CompleteFails(id);
    var w1 := Step(w, begin).value;
    AfterFirst(w, Step, begin, w1);
    var w2 := Step(w1, run).value;
    AfterMore(w, Step, [begin], w1, run, w2, [begin, run]);
    var w3 := Step(w2, tick).value;
    AfterMore(w, Step, [begin, run], w2, tick, w3, [begin, run, tick]);
    w' := Step(w3, end).value;
    AfterMore(w, Step, [begin, run, tick], w3, end, w', [begin, run, tick, end]);
  }
}
