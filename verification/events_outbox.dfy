/** insert_event: the outbox writer. It runs on the caller's transaction, so
    its effect survives only if the caller commits. */
module EventsOutbox {
  import opened Wrappers
  import opened Store

  /** No two outbox rows share an id. */
  predicate DistinctEventIds(events: seq<OutboxEvent>) {
    forall i, j :: 0 <= i < j < |events| ==> events[i].id != events[j].id
  }

  /** Appends one row with the given type and payload under a newly generated
      id. The id is a parameter; reusing an id already in the outbox is the
      primary-key violation the insert would raise, reported as Err. */
  function InsertEvent(db: Db, eventId: Uuid, eventType: EventType, payload: Payload): (r: Result<Db, DbError>)
    ensures r.Ok? <==> FreshEventId(db.eventsOutbox, eventId)
    ensures r.Err? ==> r.error == UniqueViolation
    ensures r.Ok? ==> r.value.intents == db.intents && r.value.idempotencyKeys == db.idempotencyKeys
    ensures r.Ok? ==> |r.value.eventsOutbox| == |db.eventsOutbox| + 1
    ensures r.Ok? ==> r.value.eventsOutbox[..|db.eventsOutbox|] == db.eventsOutbox
    ensures r.Ok? ==> r.value.eventsOutbox[|db.eventsOutbox|] == OutboxEvent(eventId, eventType, payload)
  {
    if FreshEventId(db.eventsOutbox, eventId) then
      Ok(db.(eventsOutbox := db.eventsOutbox + [OutboxEvent(eventId, eventType, payload)]))
    else
      Err(UniqueViolation)
  }

  /** A successful insert keeps every outbox id unique. */
  lemma InsertEventKeepsIdsDistinct(db: Db, eventId: Uuid, eventType: EventType, payload: Payload)
    requires DistinctEventIds(db.eventsOutbox)
    requires InsertEvent(db, eventId, eventType, payload).Ok?
    ensures DistinctEventIds(InsertEvent(db, eventId, eventType, payload).value.eventsOutbox)
  {
  }
}
