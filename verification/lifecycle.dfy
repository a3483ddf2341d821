/** The service as a sequence of requests applied one at a time (each
    handler is one atomic transaction), the invariant every database reached
    from the empty one satisfies, and what follows from it across requests. */
module Lifecycle {
  import opened Wrappers
  import opened Store
  import opened PaymentIntents
  import opened HandlerProperties
  import EventsOutbox

  /** One request to the service, with the identifiers it would draw. */
  datatype Request =
    | CreateCall(req: CreateRequest, key: Option<string>, newId: Uuid, eventId: Uuid)
    | ConfirmCall(id: Uuid, eventId: Uuid)
    | GetCall(id: Uuid)

  function Handle(db: Db, call: Request): Step {
    match call
    case CreateCall(req, key, newId, eventId) => CreatePaymentIntent(db, req, key, newId, eventId)
    case ConfirmCall(id, eventId) => ConfirmPaymentIntent(db, id, eventId)
    case GetCall(id) => Step(GetPaymentIntent(db, id), db)
  }

  /** The database after the requests, handled in order. */
  function Run(db: Db, calls: seq<Request>): Db
    decreases |calls|
  {
    if calls == [] then db else Run(Handle(db, calls[0]).db, calls[1..])
  }

  /** The event records the given transition of the given intent. */
  predicate Describes(e: OutboxEvent, eventType: EventType, id: Uuid) {
    e.eventType == eventType && e.payload.paymentIntent.id == id
  }

  /** How many outbox rows record the given transition of the given intent. */
  function CountEvents(events: seq<OutboxEvent>, eventType: EventType, id: Uuid): (n: nat)
    decreases |events|
  {
    if events == [] then 0
    else
      (if Describes(events[0], eventType, id) then 1 else 0) + CountEvents(events[1..], eventType, id)
  }

  lemma {:induction false} CountEventsAppend(events: seq<OutboxEvent>, e: OutboxEvent, eventType: EventType, id: Uuid)
    ensures CountEvents(events + [e], eventType, id) ==
      CountEvents(events, eventType, id) + (if Describes(e, eventType, id) then 1 else 0)
    decreases |events|
  {
    if events == [] {
      assert [e][1..] == [];
    } else {
      assert (events + [e])[1..] == events[1..] + [e];
      CountEventsAppend(events[1..], e, eventType, id);
    }
  }

  /** The response is the create-time snapshot of an intent that exists. */
  predicate CreationSnapshot(db: Db, response: Response) {
    && response.id in db.intents
    && response.amount == db.intents[response.id].amount
    && response.currency == db.intents[response.id].currency
    && response.status == RequiresConfirmation
  }

  /** A record that a completed create left behind: a full response naming
      the intent the back-reference points to, under the fingerprint of the
      request that created it. */
  predicate RecordComplete(db: Db, slot: IdemKey)
    requires slot in db.idempotencyKeys
  {
    var record := db.idempotencyKeys[slot];
    && slot.endpoint == IdempotencyEndpoint
    && record.responseBody.Stored?
    && CreationSnapshot(db, record.responseBody.response)
    && record.paymentIntentId == Some(record.responseBody.response.id)
    && record.requestHash == Fingerprint(CreateRequest(record.responseBody.response.amount, record.responseBody.response.currency))
  }

  ghost predicate RecordsComplete(db: Db) {
    forall slot :: slot in db.idempotencyKeys ==> RecordComplete(db, slot)
  }

  /** No two keys point at one intent. */
  ghost predicate OneKeyPerIntent(db: Db) {
    forall s1, s2 ::
      (&& s1 in db.idempotencyKeys && s2 in db.idempotencyKeys
       && db.idempotencyKeys[s1].paymentIntentId == db.idempotencyKeys[s2].paymentIntentId) ==> s1 == s2
  }

  ghost predicate EventsDescribeIntents(db: Db) {
    forall i :: 0 <= i < |db.eventsOutbox| ==> db.eventsOutbox[i].payload.paymentIntent.id in db.intents
  }

  /** The intent was created through an idempotency key. */
  ghost predicate KeyedIntent(db: Db, id: Uuid) {
    exists slot :: slot in db.idempotencyKeys && db.idempotencyKeys[slot].paymentIntentId == Some(id)
  }

  /** Each transition an intent went through is recorded by exactly one event:
      a created event for a keyed create, a succeeded event for a confirm. */
  ghost predicate OneEventPerTransition(db: Db) {
    forall id :: id in db.intents ==>
      && CountEvents(db.eventsOutbox, PaymentIntentCreated, id) == (if KeyedIntent(db, id) then 1 else 0)
      && CountEvents(db.eventsOutbox, PaymentIntentSucceeded, id) == (if db.intents[id].status == Succeeded then 1 else 0)
  }

  ghost predicate Valid(db: Db) {
    && RecordsComplete(db)
    && OneKeyPerIntent(db)
    && EventsOutbox.DistinctEventIds(db.eventsOutbox)
    && EventsDescribeIntents(db)
    && OneEventPerTransition(db)
  }

  lemma EmptyDbValid()
    ensures Valid(EmptyDb)
  {
  }

  /** From a valid database a create never takes the crash-recovery branch
      nor the unrecoverable one. */
  lemma ValidCreateNeverRecovers(db: Db, req: CreateRequest, key: Option<string>)
    requires RecordsComplete(db)
    ensures !ClassifyCreate(db, req, key).Recover? && !ClassifyCreate(db, req, key).Unrecoverable?
  {
    if key.Some? && Slot(key.value) in db.idempotencyKeys {
      assert RecordComplete(db, Slot(key.value));
    }
  }

  /** An intent that does not exist has no events. */
  lemma NoEventsForAbsentIntent(db: Db, id: Uuid, eventType: EventType)
    requires EventsDescribeIntents(db) && id !in db.intents
    ensures CountEvents(db.eventsOutbox, eventType, id) == 0
  {
    NoEventsOutside(db.eventsOutbox, eventType, id, db.intents.Keys);
  }

  /** Events that all name intents of ids count nothing for an id outside it. */
  lemma {:induction false} NoEventsOutside(events: seq<OutboxEvent>, eventType: EventType, id: Uuid, ids: set<Uuid>)
    requires forall i :: 0 <= i < |events| ==> events[i].payload.paymentIntent.id in ids
    requires id !in ids
    ensures CountEvents(events, eventType, id) == 0
    decreases |events|
  {
    if events != [] {
      assert events[0].payload.paymentIntent.id in ids;
      assert forall i :: 0 <= i < |events[1..]| ==> events[1..][i] == events[i + 1];
      NoEventsOutside(events[1..], eventType, id, ids);
    }
  }

  /** An intent that does not exist is pointed at by no record. */
  lemma NoKeyForAbsentIntent(db: Db, id: Uuid)
    requires RecordsComplete(db) && id !in db.intents
    ensures !KeyedIntent(db, id)
  {
  }

  /** The database after a plain insert of a new intent. */
  lemma InsertStepValid(db: Db, newId: Uuid, row: IntentRow)
    requires Valid(db) && newId !in db.intents && row.status == RequiresConfirmation
    ensures Valid(db.(intents := db.intents[newId := row]))
  {
    InsertKeepsRecordsComplete(db, newId, row);
    InsertKeepsEventsCounted(db, newId, row);
  }

  lemma InsertKeepsRecordsComplete(db: Db, newId: Uuid, row: IntentRow)
    requires RecordsComplete(db) && newId !in db.intents
    ensures RecordsComplete(db.(intents := db.intents[newId := row]))
  {
    var db' := db.(intents := db.intents[newId := row]);
    forall slot | slot in db'.idempotencyKeys
      ensures RecordComplete(db', slot)
    {
      assert RecordComplete(db, slot);
    }
  }

  lemma InsertKeepsEventsCounted(db: Db, newId: Uuid, row: IntentRow)
    requires RecordsComplete(db) && EventsDescribeIntents(db) && OneEventPerTransition(db)
    requires newId !in db.intents && row.status == RequiresConfirmation
    ensures OneEventPerTransition(db.(intents := db.intents[newId := row]))
  {
    var db' := db.(intents := db.intents[newId := row]);
    NoKeyForAbsentIntent(db, newId);
    NoEventsForAbsentIntent(db, newId, PaymentIntentCreated);
    NoEventsForAbsentIntent(db, newId, PaymentIntentSucceeded);
    forall id | id in db'.intents
      ensures CountEvents(db'.eventsOutbox, PaymentIntentCreated, id) == (if KeyedIntent(db', id) then 1 else 0)
      ensures CountEvents(db'.eventsOutbox, PaymentIntentSucceeded, id) == (if db'.intents[id].status == Succeeded then 1 else 0)
    {
      assert KeyedIntent(db', id) == KeyedIntent(db, id);
    }
  }

  /** The database after a won reservation: the new intent, its complete
      record and its created event. */
  function ReservedDb(db: Db, slot: IdemKey, req: CreateRequest, newId: Uuid, eventId: Uuid): Db {
    var response := Response(newId, req.amount, req.currency, RequiresConfirmation);
    Db(db.intents[newId := NewRow(req)],
       db.idempotencyKeys[slot := IdemRecord(Fingerprint(req), Stored(response), Some(newId))],
       db.eventsOutbox + [OutboxEvent(eventId, PaymentIntentCreated, Payload(response))])
  }

  lemma ReservedRecordsComplete(db: Db, slot: IdemKey, req: CreateRequest, newId: Uuid, eventId: Uuid)
    requires RecordsComplete(db) && slot.endpoint == IdempotencyEndpoint && newId !in db.intents
    ensures RecordsComplete(ReservedDb(db, slot, req, newId, eventId))
  {
    var db' := ReservedDb(db, slot, req, newId, eventId);
    assert req == CreateRequest(req.amount, req.currency);
    forall s | s in db'.idempotencyKeys
      ensures RecordComplete(db', s)
    {
      if s != slot {
        assert RecordComplete(db, s);
      }
    }
  }

  lemma ReservedOneKeyPerIntent(db: Db, slot: IdemKey, req: CreateRequest, newId: Uuid, eventId: Uuid)
    requires RecordsComplete(db) && OneKeyPerIntent(db) && slot !in db.idempotencyKeys && newId !in db.intents
    ensures OneKeyPerIntent(ReservedDb(db, slot, req, newId, eventId))
  {
    var keys := ReservedDb(db, slot, req, newId, eventId).idempotencyKeys;
    forall s1, s2 | s1 in keys && s2 in keys && keys[s1].paymentIntentId == keys[s2].paymentIntentId
      ensures s1 == s2
    {
      if s1 != slot { assert RecordComplete(db, s1); }
      if s2 != slot { assert RecordComplete(db, s2); }
    }
  }

  lemma ReservedKeyedIntents(db: Db, slot: IdemKey, req: CreateRequest, newId: Uuid, eventId: Uuid, id: Uuid)
    requires slot !in db.idempotencyKeys
    ensures KeyedIntent(ReservedDb(db, slot, req, newId, eventId), id) <==> KeyedIntent(db, id) || id == newId
  {
    var db' := ReservedDb(db, slot, req, newId, eventId);
    if id == newId {
      assert db'.idempotencyKeys[slot].paymentIntentId == Some(id);
    }
    if KeyedIntent(db, id) {
      var s :| s in db.idempotencyKeys && db.idempotencyKeys[s].paymentIntentId == Some(id);
      assert db'.idempotencyKeys[s] == db.idempotencyKeys[s];
    }
    if KeyedIntent(db', id) && id != newId {
      var s :| s in db'.idempotencyKeys && db'.idempotencyKeys[s].paymentIntentId == Some(id);
      assert db.idempotencyKeys[s].paymentIntentId == Some(id);
    }
  }

  lemma ReservedEventsDescribeIntents(db: Db, slot: IdemKey, req: CreateRequest, newId: Uuid, eventId: Uuid)
    requires EventsDescribeIntents(db)
    ensures EventsDescribeIntents(ReservedDb(db, slot, req, newId, eventId))
  {
  }

  /** The counts of one intent after a won reservation. */
  lemma ReservedCounts(db: Db, slot: IdemKey, req: CreateRequest, newId: Uuid, eventId: Uuid, id: Uuid)
    requires OneEventPerTransition(db) && slot !in db.idempotencyKeys && newId !in db.intents
    requires id in db.intents || (id == newId && !KeyedIntent(db, id)
      && CountEvents(db.eventsOutbox, PaymentIntentCreated, id) == 0
      && CountEvents(db.eventsOutbox, PaymentIntentSucceeded, id) == 0)
    ensures var db' := ReservedDb(db, slot, req, newId, eventId);
      && CountEvents(db'.eventsOutbox, PaymentIntentCreated, id) == (if KeyedIntent(db', id) then 1 else 0)
      && CountEvents(db'.eventsOutbox, PaymentIntentSucceeded, id) == (if db'.intents[id].status == Succeeded then 1 else 0)
  {
    var db' := ReservedDb(db, slot, req, newId, eventId);
    var event := db'.eventsOutbox[|db.eventsOutbox|];
    assert db'.eventsOutbox == db.eventsOutbox + [event];
    CountEventsAppend(db.eventsOutbox, event, PaymentIntentCreated, id);
    CountEventsAppend(db.eventsOutbox, event, PaymentIntentSucceeded, id);
    ReservedKeyedIntents(db, slot, req, newId, eventId, id);
  }

  lemma ReservedEventsCounted(db: Db, slot: IdemKey, req: CreateRequest, newId: Uuid, eventId: Uuid)
    requires RecordsComplete(db) && EventsDescribeIntents(db) && OneEventPerTransition(db)
    requires slot !in db.idempotencyKeys && newId !in db.intents
    ensures OneEventPerTransition(ReservedDb(db, slot, req, newId, eventId))
  {
    var db' := ReservedDb(db, slot, req, newId, eventId);
    NoKeyForAbsentIntent(db, newId);
    NoEventsForAbsentIntent(db, newId, PaymentIntentCreated);
    NoEventsForAbsentIntent(db, newId, PaymentIntentSucceeded);
    forall id | id in db'.intents
      ensures CountEvents(db'.eventsOutbox, PaymentIntentCreated, id) == (if KeyedIntent(db', id) then 1 else 0)
      ensures CountEvents(db'.eventsOutbox, PaymentIntentSucceeded, id) == (if db'.intents[id].status == Succeeded then 1 else 0)
    {
      ReservedCounts(db, slot, req, newId, eventId, id);
    }
  }

  lemma ReservedIdsDistinct(db: Db, slot: IdemKey, req: CreateRequest, newId: Uuid, eventId: Uuid)
    requires EventsOutbox.DistinctEventIds(db.eventsOutbox) && FreshEventId(db.eventsOutbox, eventId)
    ensures EventsOutbox.DistinctEventIds(ReservedDb(db, slot, req, newId, eventId).eventsOutbox)
  {
  }

  lemma ReservedStepValid(db: Db, slot: IdemKey, req: CreateRequest, newId: Uuid, eventId: Uuid)
    requires Valid(db) && slot !in db.idempotencyKeys && slot.endpoint == IdempotencyEndpoint
    requires newId !in db.intents && FreshEventId(db.eventsOutbox, eventId)
    ensures Valid(ReservedDb(db, slot, req, newId, eventId))
  {
    ReservedRecordsComplete(db, slot, req, newId, eventId);
    ReservedOneKeyPerIntent(db, slot, req, newId, eventId);
    ReservedIdsDistinct(db, slot, req, newId, eventId);
    ReservedEventsDescribeIntents(db, slot, req, newId, eventId);
    ReservedEventsCounted(db, slot, req, newId, eventId);
  }

  /** The database after a confirmation of intent id. */
  function ConfirmedDb(db: Db, id: Uuid, eventId: Uuid): Db
    requires id in db.intents
  {
    var row := db.intents[id];
    Db(db.intents[id := row.(status := Succeeded)],
       db.idempotencyKeys,
       db.eventsOutbox + [OutboxEvent(eventId, PaymentIntentSucceeded, Payload(Response(id, row.amount, row.currency, Succeeded)))])
  }

  lemma ConfirmedStepValid(db: Db, id: Uuid, eventId: Uuid)
    requires Valid(db) && id in db.intents && db.intents[id].status == RequiresConfirmation
    requires FreshEventId(db.eventsOutbox, eventId)
    ensures Valid(ConfirmedDb(db, id, eventId))
  {
    ConfirmKeepsRecordsComplete(db, id, eventId);
    ConfirmKeepsEventsCounted(db, id, eventId);
  }

  lemma ConfirmKeepsRecordsComplete(db: Db, id: Uuid, eventId: Uuid)
    requires RecordsComplete(db) && id in db.intents
    ensures RecordsComplete(ConfirmedDb(db, id, eventId))
  {
    var db' := ConfirmedDb(db, id, eventId);
    forall s | s in db'.idempotencyKeys
      ensures RecordComplete(db', s)
    {
      assert RecordComplete(db, s);
    }
  }

  lemma ConfirmKeepsEventsCounted(db: Db, id: Uuid, eventId: Uuid)
    requires OneEventPerTransition(db) && id in db.intents && db.intents[id].status == RequiresConfirmation
    ensures OneEventPerTransition(ConfirmedDb(db, id, eventId))
  {
    var db' := ConfirmedDb(db, id, eventId);
    var event := db'.eventsOutbox[|db.eventsOutbox|];
    assert db'.eventsOutbox == db.eventsOutbox + [event];
    forall x | x in db'.intents
      ensures CountEvents(db'.eventsOutbox, PaymentIntentCreated, x) == (if KeyedIntent(db', x) then 1 else 0)
      ensures CountEvents(db'.eventsOutbox, PaymentIntentSucceeded, x) == (if db'.intents[x].status == Succeeded then 1 else 0)
    {
      CountEventsAppend(db.eventsOutbox, event, PaymentIntentCreated, x);
      CountEventsAppend(db.eventsOutbox, event, PaymentIntentSucceeded, x);
    }
  }

  lemma ConfirmPreservesValid(db: Db, id: Uuid, eventId: Uuid)
    requires Valid(db)
    ensures Valid(ConfirmPaymentIntent(db, id, eventId).db)
  {
    var r := ConfirmPaymentIntent(db, id, eventId);
    if r.reply.Done? {
      ConfirmSucceeds(db, id, eventId);
      assert r.db == ConfirmedDb(db, id, eventId);
      ConfirmedStepValid(db, id, eventId);
    }
  }

  lemma CreatePreservesValid(db: Db, req: CreateRequest, key: Option<string>, newId: Uuid, eventId: Uuid)
    requires Valid(db)
    ensures Valid(CreatePaymentIntent(db, req, key, newId, eventId).db)
  {
    var r := CreatePaymentIntent(db, req, key, newId, eventId);
    if r.db != db {
      ValidCreateNeverRecovers(db, req, key);
      if key.None? {
        CreateWithoutKey(db, req, newId, eventId);
        assert r.db == db.(intents := db.intents[newId := NewRow(req)]);
        InsertStepValid(db, newId, NewRow(req));
      } else {
        CreateWithFreshKey(db, req, key.value, newId, eventId);
        assert r.db == ReservedDb(db, Slot(key.value), req, newId, eventId);
        ReservedStepValid(db, Slot(key.value), req, newId, eventId);
      }
    }
  }

  lemma HandlePreservesValid(db: Db, call: Request)
    requires Valid(db)
    ensures Valid(Handle(db, call).db)
  {
    match call
    case CreateCall(req, key, newId, eventId) => CreatePreservesValid(db, req, key, newId, eventId);
    case ConfirmCall(id, eventId) => ConfirmPreservesValid(db, id, eventId);
    case GetCall(_) =>
  }

  lemma {:induction false} RunPreservesValid(db: Db, calls: seq<Request>)
    requires Valid(db)
    ensures Valid(Run(db, calls))
    decreases |calls|
  {
    if calls != [] {
      HandlePreservesValid(db, calls[0]);
      RunPreservesValid(Handle(db, calls[0]).db, calls[1..]);
    }
  }

  /** Every database the service can reach satisfies the invariant. */
  lemma ReachableIsValid(calls: seq<Request>)
    ensures Valid(Run(EmptyDb, calls))
  {
    EmptyDbValid();
    RunPreservesValid(EmptyDb, calls);
  }

  /** In every reachable database each stored record is complete, so a create
      never rebuilds a response nor answers with the unrecoverable 500. */
  lemma RecoveryUnreachable(calls: seq<Request>, req: CreateRequest, key: Option<string>, newId: Uuid, eventId: Uuid)
    ensures var db := Run(EmptyDb, calls);
      && !ClassifyCreate(db, req, key).Recover?
      && !ClassifyCreate(db, req, key).Unrecoverable?
      && CreatePaymentIntent(db, req, key, newId, eventId).reply != Failed(RecordUnrecoverable)
  {
    ReachableIsValid(calls);
    ValidCreateNeverRecovers(Run(EmptyDb, calls), req, key);
  }

  /** In every reachable database an intent has at most one created event and
      at most one succeeded event, the latter exactly when it has succeeded. */
  lemma OneEventPerTransitionWhenReachable(calls: seq<Request>, id: Uuid)
    ensures var db := Run(EmptyDb, calls);
      && CountEvents(db.eventsOutbox, PaymentIntentCreated, id) <= 1
      && CountEvents(db.eventsOutbox, PaymentIntentSucceeded, id) <= 1
      && (id in db.intents ==>
            (CountEvents(db.eventsOutbox, PaymentIntentSucceeded, id) == 1 <==> db.intents[id].status == Succeeded))
  {
    var db := Run(EmptyDb, calls);
    ReachableIsValid(calls);
    if id !in db.intents {
      NoEventsForAbsentIntent(db, id, PaymentIntentCreated);
      NoEventsForAbsentIntent(db, id, PaymentIntentSucceeded);
    }
  }

  /** Every record of before is still in after, unchanged. */
  predicate RecordsUntouched(before: map<IdemKey, IdemRecord>, after: map<IdemKey, IdemRecord>) {
    forall k :: k in before ==> k in after && after[k] == before[k]
  }

  /** Outside the recovery branch a create leaves every held record
      unchanged: at most it writes the record of a key that was free. */
  lemma CreateKeepsHeldRecords(db: Db, req: CreateRequest, key: Option<string>, newId: Uuid, eventId: Uuid)
    requires !ClassifyCreate(db, req, key).Recover?
    ensures RecordsUntouched(db.idempotencyKeys, CreatePaymentIntent(db, req, key, newId, eventId).db.idempotencyKeys)
  {
    var p := ClassifyCreate(db, req, key);
    if p.Reserve? {
      assert CreatePaymentIntent(db, req, key, newId, eventId) == CreateReserved(db, req, p.slot, p.hash, newId, eventId);
    } else if p.Unkeyed? {
      assert CreatePaymentIntent(db, req, key, newId, eventId).db.idempotencyKeys == db.idempotencyKeys;
    } else {
      assert CreatePaymentIntent(db, req, key, newId, eventId).db == db;
    }
  }

  /** After a successful create with a key, the key's record holds the
      request's fingerprint and the very reply that was sent. */
  lemma CreateLeavesRecord(db: Db, req: CreateRequest, key: string, newId: Uuid, eventId: Uuid)
    requires CreatePaymentIntent(db, req, Some(key), newId, eventId).reply.Done?
    ensures var r := CreatePaymentIntent(db, req, Some(key), newId, eventId);
      && Validate(req).Pass?
      && Slot(key) in r.db.idempotencyKeys
      && r.db.idempotencyKeys[Slot(key)].requestHash == Fingerprint(req)
      && r.db.idempotencyKeys[Slot(key)].responseBody == Stored(r.reply.intent)
  {
  }

  /** In a valid database no request touches a record that is already held. */
  lemma HandleKeepsHeldRecords(db: Db, call: Request)
    requires RecordsComplete(db)
    ensures RecordsUntouched(db.idempotencyKeys, Handle(db, call).db.idempotencyKeys)
  {
    match call
    case CreateCall(req, key, newId, eventId) =>
      ValidCreateNeverRecovers(db, req, key);
      CreateKeepsHeldRecords(db, req, key, newId, eventId);
    case ConfirmCall(id, eventId) =>
      assert Handle(db, call).db.idempotencyKeys == db.idempotencyKeys;
    case GetCall(_) =>
  }

  lemma {:induction false} RunKeepsHeldRecords(db: Db, calls: seq<Request>)
    requires Valid(db)
    ensures RecordsUntouched(db.idempotencyKeys, Run(db, calls).idempotencyKeys)
    decreases |calls|
  {
    if calls != [] {
      HandleKeepsHeldRecords(db, calls[0]);
      HandlePreservesValid(db, calls[0]);
      RunKeepsHeldRecords(Handle(db, calls[0]).db, calls[1..]);
    }
  }

  /** A record whose response body is stored is final: no create rewrites
      or removes it. Only the recovery branch rewrites a held record, and it
      only ever starts from a placeholder body. */
  lemma CreateKeepsStored(db: Db, req: CreateRequest, key: Option<string>, newId: Uuid, eventId: Uuid, slot: IdemKey)
    requires slot in db.idempotencyKeys && db.idempotencyKeys[slot].responseBody.Stored?
    ensures slot in CreatePaymentIntent(db, req, key, newId, eventId).db.idempotencyKeys
    ensures CreatePaymentIntent(db, req, key, newId, eventId).db.idempotencyKeys[slot] == db.idempotencyKeys[slot]
  {
    var p := ClassifyCreate(db, req, key);
    if p.Recover? {
      assert p.slot != slot;
      assert CreatePaymentIntent(db, req, key, newId, eventId) == CreateRecovered(db, p.slot, p.intentId);
    } else {
      CreateKeepsHeldRecords(db, req, key, newId, eventId);
    }
  }

  /** No request of any kind rewrites or removes a record whose body is stored. */
  lemma HandleKeepsStored(db: Db, call: Request, slot: IdemKey)
    requires slot in db.idempotencyKeys && db.idempotencyKeys[slot].responseBody.Stored?
    ensures slot in Handle(db, call).db.idempotencyKeys
    ensures Handle(db, call).db.idempotencyKeys[slot] == db.idempotencyKeys[slot]
  {
    match call
    case CreateCall(req, key, newId, eventId) =>
      CreateKeepsStored(db, req, key, newId, eventId, slot);
    case ConfirmCall(id, eventId) =>
      assert Handle(db, call).db.idempotencyKeys == db.idempotencyKeys;
    case GetCall(_) =>
  }

  lemma {:induction false} RunKeepsStored(db: Db, calls: seq<Request>, slot: IdemKey)
    requires slot in db.idempotencyKeys && db.idempotencyKeys[slot].responseBody.Stored?
    ensures slot in Run(db, calls).idempotencyKeys
    ensures Run(db, calls).idempotencyKeys[slot] == db.idempotencyKeys[slot]
    decreases |calls|
  {
    if calls != [] {
      HandleKeepsStored(db, calls[0], slot);
      RunKeepsStored(Handle(db, calls[0]).db, calls[1..], slot);
    }
  }

  /** Exactly-once effect: once a create with a key has succeeded, any later
      create with that key and a request of the same fingerprint, after any
      other requests in between, gets the very same reply (same intent id)
      and changes nothing. */
  lemma RetryReturnsFirstReply(db: Db, req: CreateRequest, key: string, newId: Uuid, eventId: Uuid,
                               between: seq<Request>, retry: CreateRequest, retryId: Uuid, retryEventId: Uuid)
    requires CreatePaymentIntent(db, req, Some(key), newId, eventId).reply.Done?
    requires Fingerprint(retry) == Fingerprint(req)
    ensures var first := CreatePaymentIntent(db, req, Some(key), newId, eventId);
      var later := Run(first.db, between);
      CreatePaymentIntent(later, retry, Some(key), retryId, retryEventId) == Step(first.reply, later)
  {
    var first := CreatePaymentIntent(db, req, Some(key), newId, eventId);
    CreateLeavesRecord(db, req, key, newId, eventId);
    RunKeepsStored(first.db, between, Slot(key));
    var later := Run(first.db, between);
    ValidateAgreesOnFingerprint(retry, req);
    CreateReplaysStoredResponse(later, retry, key, retryId, retryEventId, first.reply.intent);
  }

  /** The retry is answered with the request's own amount and a currency equal
      to it up to case and surrounding white space. */
  lemma ReplayMatchesRequest(db: Db, req: CreateRequest, key: string, newId: Uuid, eventId: Uuid)
    requires Valid(db)
    requires CreatePaymentIntent(db, req, Some(key), newId, eventId).reply.Done?
    ensures var reply := CreatePaymentIntent(db, req, Some(key), newId, eventId).reply;
      && reply.intent.amount == req.amount
      && NormalizedCurrency(reply.intent.currency) == NormalizedCurrency(req.currency)
  {
    var slot := Slot(key);
    ValidCreateNeverRecovers(db, req, Some(key));
    match ClassifyCreate(db, req, Some(key))
    case Reserve(_, _) =>
      CreateWithFreshKey(db, req, key, newId, eventId);
    case Replay(stored) =>
      assert RecordComplete(db, slot);
      FingerprintDeterminesRequest(req, CreateRequest(stored.amount, stored.currency));
  }

  /** A create with a free key either changes nothing or takes the key,
      adds the one new intent and appends one event. */
  lemma FreshKeyCreateStep(db: Db, req: CreateRequest, key: string, newId: Uuid, eventId: Uuid)
    requires Slot(key) !in db.idempotencyKeys
    ensures var r := CreatePaymentIntent(db, req, Some(key), newId, eventId);
      || r.db == db
      || (&& Slot(key) in r.db.idempotencyKeys
          && r.db.intents.Keys == db.intents.Keys + {newId}
          && |r.db.eventsOutbox| == |db.eventsOutbox| + 1)
  {
    if Validate(req).Pass? {
      assert ClassifyCreate(db, req, Some(key)) == Reserve(Slot(key), Fingerprint(req));
    }
  }

  /** All the requests are creates that carry the given key. */
  predicate AllCreatesWithKey(calls: seq<Request>, key: string) {
    forall i :: 0 <= i < |calls| ==> calls[i].CreateCall? && calls[i].key == Some(key)
  }

  /** The first create to take the key: what it adds is all that the whole
      run adds. */
  lemma TakingCreateBoundsRun(db: Db, calls: seq<Request>, key: string)
    requires calls != [] && AllCreatesWithKey(calls, key) && Slot(key) !in db.idempotencyKeys
    requires Handle(db, calls[0]).db != db
    ensures Run(db, calls).intents.Keys - db.intents.Keys <= {calls[0].newId}
    ensures db.intents.Keys <= Run(db, calls).intents.Keys
    ensures |Run(db, calls).eventsOutbox| == |db.eventsOutbox| + 1
  {
    var call := calls[0];
    var next := Handle(db, call).db;
    FreshKeyCreateStep(db, call.req, key, call.newId, call.eventId);
    assert AllCreatesWithKey(calls[1..], key) by {
      assert forall i :: 0 <= i < |calls[1..]| ==> calls[1..][i] == calls[i + 1];
    }
    HeldKeyCreatesNothing(next, calls[1..], key);
  }

  /** However many creates carry one key, from any database at most one intent
      and at most one outbox event result. */
  lemma {:induction false} CreatesWithOneKey(db: Db, calls: seq<Request>, key: string)
    requires AllCreatesWithKey(calls, key)
    ensures db.intents.Keys <= Run(db, calls).intents.Keys
    ensures |Run(db, calls).intents.Keys - db.intents.Keys| <= 1
    ensures |Run(db, calls).eventsOutbox| <= |db.eventsOutbox| + 1
    decreases |calls|
  {
    if calls != [] {
      if Slot(key) in db.idempotencyKeys {
        HeldKeyCreatesNothing(db, calls, key);
      } else if Handle(db, calls[0]).db == db {
        assert AllCreatesWithKey(calls[1..], key) by {
          assert forall i :: 0 <= i < |calls[1..]| ==> calls[1..][i] == calls[i + 1];
        }
        CreatesWithOneKey(db, calls[1..], key);
      } else {
        TakingCreateBoundsRun(db, calls, key);
        SubsetOfSingleton(Run(db, calls).intents.Keys - db.intents.Keys, calls[0].newId);
      }
    }
  }

  lemma SubsetOfSingleton(s: set<Uuid>, x: Uuid)
    requires s <= {x}
    ensures |s| <= 1
  {
    if s != {} {
      assert s == {x};
    }
  }

  /** Once a key is held, creates with it add no intent and no event. */
  lemma {:induction false} HeldKeyCreatesNothing(db: Db, calls: seq<Request>, key: string)
    requires Slot(key) in db.idempotencyKeys
    requires AllCreatesWithKey(calls, key)
    ensures Run(db, calls).intents == db.intents
    ensures Run(db, calls).eventsOutbox == db.eventsOutbox
    decreases |calls|
  {
    if calls != [] {
      var call := calls[0];
      CreateKeepsRecords(db, call.req, call.key, call.newId, call.eventId);
      assert AllCreatesWithKey(calls[1..], key) by {
        assert forall i :: 0 <= i < |calls[1..]| ==> calls[1..][i] == calls[i + 1];
      }
      HeldKeyCreatesNothing(Handle(db, call).db, calls[1..], key);
    }
  }

  /** The replay path answers with the stored create-time snapshot, which
      lags the intent once it has been confirmed: get reports succeeded while
      the retried create still reports requires_confirmation. */
  lemma ReplayIsCreateTimeSnapshot(db: Db, req: CreateRequest, key: string, newId: Uuid, eventId: Uuid,
                                   confirmEventId: Uuid, retryId: Uuid, retryEventId: Uuid)
    requires Validate(req).Pass? && Slot(key) !in db.idempotencyKeys
    requires newId !in db.intents && FreshEventId(db.eventsOutbox, eventId)
    requires eventId != confirmEventId && FreshEventId(db.eventsOutbox, confirmEventId)
    ensures var created := CreatePaymentIntent(db, req, Some(key), newId, eventId).db;
      var confirmed := ConfirmPaymentIntent(created, newId, confirmEventId).db;
      && GetPaymentIntent(confirmed, newId).intent.status == Succeeded
      && CreatePaymentIntent(confirmed, req, Some(key), retryId, retryEventId).reply.intent.status == RequiresConfirmation
  {
    var created := CreatePaymentIntent(db, req, Some(key), newId, eventId).db;
    CreateWithFreshKey(db, req, key, newId, eventId);
    ConfirmSucceeds(created, newId, confirmEventId);
    var confirmed := ConfirmPaymentIntent(created, newId, confirmEventId).db;
    assert confirmed.idempotencyKeys == created.idempotencyKeys;
    CreateReplaysStoredResponse(confirmed, req, key, retryId, retryEventId, created.idempotencyKeys[Slot(key)].responseBody.response);
  }
}
