/** What one call of each handler does, path by path. */
module HandlerProperties {
  import opened Wrappers
  import opened AsciiText
  import opened Store
  import opened PaymentIntents

  /** Validation rejects a non-positive amount first, then a blank currency,
      with the source's messages, and accepts everything else. */
  lemma ValidationMessages(req: CreateRequest)
    ensures req.amount <= 0 ==>
      Validate(req).Fail? && RefusalMessage(Invalid(Validate(req).error)) == "amount must be > 0"
    ensures req.amount > 0 && AllSpace(req.currency) ==>
      Validate(req).Fail? && RefusalMessage(Invalid(Validate(req).error)) == "currency is required"
    ensures req.amount > 0 && !AllSpace(req.currency) ==> Validate(req).Pass?
  {
  }

  /** A rejected create answers 400 before touching storage, whatever the key
      and whatever the key already holds: in particular no idempotency key is
      reserved, so a corrected retry with a key that was free takes the
      reservation. */
  lemma RejectedCreateReservesNothing(db: Db, req: CreateRequest, key: Option<string>, newId: Uuid, eventId: Uuid,
                                      fixedReq: CreateRequest)
    requires Validate(req).Fail?
    ensures CreatePaymentIntent(db, req, key, newId, eventId) == Step(Failed(Invalid(Validate(req).error)), db)
    ensures key.Some? && Slot(key.value) !in db.idempotencyKeys && Validate(fixedReq).Pass? ==>
      ClassifyCreate(CreatePaymentIntent(db, req, key, newId, eventId).db, fixedReq, key).Reserve?
  {
  }

  /** A create without a key inserts exactly one intent under the fresh id,
      with the currency as sent, and writes no record and no event; a later
      get returns the same fields. */
  lemma CreateWithoutKey(db: Db, req: CreateRequest, newId: Uuid, eventId: Uuid)
    requires Validate(req).Pass?
    requires newId !in db.intents
    ensures var r := CreatePaymentIntent(db, req, None, newId, eventId);
      && r.reply == Done(HttpCreated, Response(newId, req.amount, req.currency, RequiresConfirmation))
      && r.db.intents.Keys == db.intents.Keys + {newId}
      && r.db.intents[newId] == NewRow(req)
      && (forall x :: x in db.intents ==> r.db.intents[x] == db.intents[x])
      && r.db.idempotencyKeys == db.idempotencyKeys
      && r.db.eventsOutbox == db.eventsOutbox
      && GetPaymentIntent(r.db, newId) == Done(HttpOk, r.reply.intent)
  {
  }

  /** A create with an unused key reserves (key, endpoint) with the request's
      fingerprint, inserts one intent, stores the response and the
      back-reference together, and appends one payment_intent.created event
      carrying a snapshot of the new intent. */
  lemma CreateWithFreshKey(db: Db, req: CreateRequest, key: string, newId: Uuid, eventId: Uuid)
    requires Validate(req).Pass?
    requires Slot(key) !in db.idempotencyKeys
    requires newId !in db.intents && FreshEventId(db.eventsOutbox, eventId)
    ensures var r := CreatePaymentIntent(db, req, Some(key), newId, eventId);
      var response := Response(newId, req.amount, req.currency, RequiresConfirmation);
      && r.reply == Done(HttpCreated, response)
      && r.db.intents == db.intents[newId := NewRow(req)]
      && r.db.idempotencyKeys.Keys == db.idempotencyKeys.Keys + {Slot(key)}
      && r.db.idempotencyKeys[Slot(key)] == IdemRecord(Fingerprint(req), Stored(response), Some(newId))
      && (forall k :: k in db.idempotencyKeys ==> r.db.idempotencyKeys[k] == db.idempotencyKeys[k])
      && |r.db.eventsOutbox| == |db.eventsOutbox| + 1
      && r.db.eventsOutbox == db.eventsOutbox + [OutboxEvent(eventId, PaymentIntentCreated, Payload(response))]
  {
    assert ClassifyCreate(db, req, Some(key)) == Reserve(Slot(key), Fingerprint(req));
  }

  /** When the outbox insert of the reservation-won branch fails, the whole
      transaction is abandoned: no intent, no record and no event survive. */
  lemma CreateOutboxFailureRollsBack(db: Db, req: CreateRequest, key: string, newId: Uuid, eventId: Uuid)
    requires Validate(req).Pass?
    requires Slot(key) !in db.idempotencyKeys
    requires !FreshEventId(db.eventsOutbox, eventId)
    ensures CreatePaymentIntent(db, req, Some(key), newId, eventId) == Step(Failed(Storage(UniqueViolation)), db)
  {
  }

  /** A key already holding another fingerprint is refused with 409 and the
      database is left as it was. */
  lemma CreateKeyMismatch(db: Db, req: CreateRequest, key: string, newId: Uuid, eventId: Uuid)
    requires Validate(req).Pass?
    requires Slot(key) in db.idempotencyKeys
    requires db.idempotencyKeys[Slot(key)].requestHash != Fingerprint(req)
    ensures CreatePaymentIntent(db, req, Some(key), newId, eventId) == Step(Failed(KeyReused), db)
    ensures RefusalMessage(KeyReused) == "idempotency key reused with different request"
    ensures Failed(KeyReused).Code() == HttpConflict
  {
  }

  /** A key holding the same fingerprint and a complete response gets that
      response back verbatim, and nothing is written. */
  lemma CreateReplaysStoredResponse(db: Db, req: CreateRequest, key: string, newId: Uuid, eventId: Uuid, stored: Response)
    requires Validate(req).Pass?
    requires Slot(key) in db.idempotencyKeys
    requires db.idempotencyKeys[Slot(key)].requestHash == Fingerprint(req)
    requires db.idempotencyKeys[Slot(key)].responseBody == Stored(stored)
    ensures CreatePaymentIntent(db, req, Some(key), newId, eventId) == Step(Done(HttpCreated, stored), db)
  {
  }

  /** The crash-recovery branch, entered from any database: the response is
      rebuilt from the referenced intent's current row and written into
      response_body; no intent and no event is added. */
  lemma CreateRecoversFromCurrentRow(db: Db, req: CreateRequest, key: string, newId: Uuid, eventId: Uuid, intentId: Uuid)
    requires Validate(req).Pass?
    requires Slot(key) in db.idempotencyKeys
    requires db.idempotencyKeys[Slot(key)] == IdemRecord(Fingerprint(req), Placeholder, Some(intentId))
    requires intentId in db.intents
    ensures var r := CreatePaymentIntent(db, req, Some(key), newId, eventId);
      && r.reply == Done(HttpCreated, Snapshot(intentId, db.intents[intentId]))
      && r.db.intents == db.intents
      && r.db.eventsOutbox == db.eventsOutbox
      && r.db.idempotencyKeys == db.idempotencyKeys[Slot(key) := IdemRecord(Fingerprint(req), Stored(r.reply.intent), Some(intentId))]
  {
  }

  /** A record with neither a complete response nor a back-reference is
      reported as an unrecoverable inconsistency. */
  lemma CreateOnBrokenRecord(db: Db, req: CreateRequest, key: string, newId: Uuid, eventId: Uuid)
    requires Validate(req).Pass?
    requires Slot(key) in db.idempotencyKeys
    requires db.idempotencyKeys[Slot(key)] == IdemRecord(Fingerprint(req), Placeholder, None)
    ensures CreatePaymentIntent(db, req, Some(key), newId, eventId) == Step(Failed(RecordUnrecoverable), db)
    ensures Failed(RecordUnrecoverable).Code() == HttpInternalError
    ensures RefusalMessage(RecordUnrecoverable) == "idempotency record exists but has no stored response or payment_intent_id"
  {
    UnrecoverableMessage();
  }

  lemma UnrecoverableMessage()
    ensures RefusalMessage(RecordUnrecoverable) == "idempotency record exists but has no stored response or payment_intent_id"
  {
  }

  /** Every record of before is still in after, with the same fingerprint
      and back-reference. */
  predicate RecordsKept(before: map<IdemKey, IdemRecord>, after: map<IdemKey, IdemRecord>) {
    forall k :: k in before ==>
      && k in after
      && after[k].requestHash == before[k].requestHash
      && after[k].paymentIntentId == before[k].paymentIntentId
  }

  lemma RecordsKeptByUpdate(m: map<IdemKey, IdemRecord>, slot: IdemKey, record: IdemRecord)
    requires slot in m ==> record.requestHash == m[slot].requestHash && record.paymentIntentId == m[slot].paymentIntentId
    ensures RecordsKept(m, m[slot := record])
  {
  }

  /** Idempotency records are never deleted, and their fingerprint and
      back-reference never change once written. */
  lemma CreateKeepsRecords(db: Db, req: CreateRequest, key: Option<string>, newId: Uuid, eventId: Uuid)
    ensures RecordsKept(db.idempotencyKeys, CreatePaymentIntent(db, req, key, newId, eventId).db.idempotencyKeys)
  {
    var r := CreatePaymentIntent(db, req, key, newId, eventId);
    match ClassifyCreate(db, req, key)
    case Reserve(slot, hash) =>
      if r.reply.Done? {
        RecordsKeptByUpdate(db.idempotencyKeys, slot, IdemRecord(hash, Stored(r.reply.intent), Some(newId)));
      }
    case Recover(slot, intentId) =>
      if r.reply.Done? {
        RecordsKeptByUpdate(db.idempotencyKeys, slot, db.idempotencyKeys[slot].(responseBody := Stored(r.reply.intent)));
      }
    case _ =>
  }

  /** With a key, the new intent and its created event are committed
      together or not at all. */
  lemma CreateChangeAndEventTogether(db: Db, req: CreateRequest, key: string, newId: Uuid, eventId: Uuid)
    ensures var r := CreatePaymentIntent(db, req, Some(key), newId, eventId);
      r.db.intents != db.intents <==> r.db.eventsOutbox != db.eventsOutbox
  {
    var r := CreatePaymentIntent(db, req, Some(key), newId, eventId);
    match ClassifyCreate(db, req, Some(key))
    case Reserve(slot, hash) =>
      if r.reply.Done? {
        assert newId in r.db.intents && newId !in db.intents;
        assert |r.db.eventsOutbox| == |db.eventsOutbox| + 1;
      }
    case _ =>
  }

  /** Confirming an intent awaiting confirmation changes only its status,
      leaves every other intent and the records alone, and appends one
      payment_intent.succeeded event with the updated snapshot. */
  lemma ConfirmSucceeds(db: Db, id: Uuid, eventId: Uuid)
    requires id in db.intents && db.intents[id].status == RequiresConfirmation
    requires FreshEventId(db.eventsOutbox, eventId)
    ensures var r := ConfirmPaymentIntent(db, id, eventId);
      var row := db.intents[id];
      && r.reply == Done(HttpOk, Response(id, row.amount, row.currency, Succeeded))
      && r.db.intents.Keys == db.intents.Keys
      && r.db.intents[id] == IntentRow(row.amount, row.currency, Succeeded)
      && (forall x :: x in db.intents && x != id ==> r.db.intents[x] == db.intents[x])
      && r.db.idempotencyKeys == db.idempotencyKeys
      && r.db.eventsOutbox == db.eventsOutbox + [OutboxEvent(eventId, PaymentIntentSucceeded, Payload(r.reply.intent))]
  {
  }

  /** A failed outbox insert abandons the confirmation: the intent still
      awaits confirmation. */
  lemma ConfirmOutboxFailureRollsBack(db: Db, id: Uuid, eventId: Uuid)
    requires id in db.intents && db.intents[id].status == RequiresConfirmation
    requires !FreshEventId(db.eventsOutbox, eventId)
    ensures ConfirmPaymentIntent(db, id, eventId) == Step(Failed(Storage(UniqueViolation)), db)
  {
  }

  /** A second confirm is refused with 409 naming the status "succeeded", and
      adds no second event. */
  lemma ConfirmTwice(db: Db, id: Uuid, firstEvent: Uuid, secondEvent: Uuid)
    requires ConfirmPaymentIntent(db, id, firstEvent).reply.Done?
    ensures var once := ConfirmPaymentIntent(db, id, firstEvent).db;
      && ConfirmPaymentIntent(once, id, secondEvent) == Step(Failed(CannotConfirm(Succeeded)), once)
      && RefusalMessage(CannotConfirm(Succeeded)) == "cannot confirm payment_intent in status 'succeeded'"
      && Failed(CannotConfirm(Succeeded)).Code() == HttpConflict
  {
  }

  /** Confirming an unknown id is refused with 404 and changes nothing. */
  lemma ConfirmUnknown(db: Db, id: Uuid, eventId: Uuid)
    requires id !in db.intents
    ensures ConfirmPaymentIntent(db, id, eventId) == Step(Failed(NotFound), db)
    ensures GetPaymentIntent(db, id) == Failed(NotFound)
    ensures Failed(NotFound).Code() == HttpNotFound
    ensures RefusalMessage(NotFound) == "payment_intent not found"
  {
  }
}
