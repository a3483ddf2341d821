/** The payment-intent handlers: create (with and without an idempotency
    key), get and confirm. Each handler is one transaction, modelled as a
    function from the database before the request to the reply and the
    database after it; a rolled-back transaction returns the database it
    was given. */
module PaymentIntents {
  import opened Wrappers
  import opened AsciiText
  import opened Store
  import EventsOutbox

  const IdempotencyEndpoint: string := "POST /v1/payment_intents"

  const HttpOk: int := 200
  const HttpCreated: int := 201
  const HttpBadRequest: int := 400
  const HttpNotFound: int := 404
  const HttpConflict: int := 409
  const HttpInternalError: int := 500

  /** The JSON body of POST /v1/payment_intents. */
  datatype CreateRequest = CreateRequest(amount: i64, currency: string)

  /** The two ways validate_create_payment_intent rejects a request. */
  datatype ValidationError = AmountNotPositive | CurrencyMissing

  /** Why a handler answered with an error. */
  datatype Refusal =
    | Invalid(reason: ValidationError)
    | KeyReused
    | NotFound
    | CannotConfirm(current: Status)
    | Storage(error: DbError)
    | RecordUnrecoverable

  /** The HTTP status each refusal is sent with. */
  function RefusalCode(r: Refusal): (code: int)
    ensures code == HttpBadRequest <==> r.Invalid?
    ensures code == HttpNotFound <==> r.NotFound?
    ensures code == HttpConflict <==> r.KeyReused? || r.CannotConfirm?
    ensures code == HttpInternalError <==> r.Storage? || r.RecordUnrecoverable?
  {
    match r
    case Invalid(_) => HttpBadRequest
    case KeyReused => HttpConflict
    case NotFound => HttpNotFound
    case CannotConfirm(_) => HttpConflict
    case Storage(_) => HttpInternalError
    case RecordUnrecoverable => HttpInternalError
  }

  /** The message text each refusal is sent with. */
  function RefusalMessage(r: Refusal): string {
    match r
    case Invalid(AmountNotPositive) => "amount must be > 0"
    case Invalid(CurrencyMissing) => "currency is required"
    case KeyReused => "idempotency key reused with different request"
    case NotFound => "payment_intent not found"
    case CannotConfirm(status) => "cannot confirm payment_intent in status '" + StatusName(status) + "'"
    case Storage(UniqueViolation) => "db error: duplicate key value violates unique constraint"
    case Storage(RowNotFound) => "db error: no rows returned by a query that expected to return at least one row"
    case RecordUnrecoverable => "idempotency record exists but has no stored response or payment_intent_id"
  }

  /** What a handler sends back: a status code with the intent, or an error. */
  datatype Reply = Done(code: int, intent: Response) | Failed(refusal: Refusal)
  {
    function Code(): int {
      match this
      case Done(code, _) => code
      case Failed(refusal) => RefusalCode(refusal)
    }
  }

  /** The reply together with the database the transaction leaves behind. */
  datatype Step = Step(reply: Reply, db: Db)

  /** The currency as the fingerprint sees it. */
  function NormalizedCurrency(currency: string): (n: string)
    ensures |n| <= |currency|
    ensures n == [] <==> AllSpace(currency)
  {
    ToLower(Trim(currency))
  }

  /** request_fingerprint: "amount=<amount>&currency=<trimmed, lower-cased currency>". */
  function Fingerprint(req: CreateRequest): (h: string)
    ensures |h| >= 18 && h[..7] == "amount="
  {
    "amount=" + (IntToDecimal(req.amount as int) + ("&currency=" + NormalizedCurrency(req.currency)))
  }

  /** validate_create_payment_intent: the amount is checked before the currency. */
  function Validate(req: CreateRequest): (r: Outcome<ValidationError>)
    ensures r == Fail(AmountNotPositive) <==> req.amount <= 0
    ensures r == Fail(CurrencyMissing) <==> req.amount > 0 && AllSpace(req.currency)
    ensures r == Pass <==> req.amount > 0 && exists i :: 0 <= i < |req.currency| && !IsSpace(req.currency[i])
  {
    if req.amount <= 0 then Fail(AmountNotPositive)
    else if Trim(req.currency) == [] then Fail(CurrencyMissing)
    else Pass
  }

  /** A '&' marks where the amount ends, since the decimal rendering of an
      integer never contains one. */
  lemma SplitAtSeparator(d1: string, x1: string, d2: string, x2: string)
    requires forall i :: 0 <= i < |d1| ==> d1[i] != '&'
    requires forall i :: 0 <= i < |d2| ==> d2[i] != '&'
    requires d1 + ("&currency=" + x1) == d2 + ("&currency=" + x2)
    ensures d1 == d2 && x1 == x2
  {
    var s := d1 + ("&currency=" + x1);
    assert FirstAmpersand(s, |d1|);
    assert FirstAmpersand(s, |d2|);
    assert d1 == s[..|d1|];
    assert x1 == s[|d1| + 10..];
  }

  /** Position p holds the first '&' of s. */
  predicate FirstAmpersand(s: string, p: nat) {
    p < |s| && s[p] == '&' && forall i :: 0 <= i < p ==> s[i] != '&'
  }

  /** Two create requests share a fingerprint exactly when they carry the
      same amount and the same currency once trimmed and lower-cased. */
  lemma FingerprintDeterminesRequest(a: CreateRequest, b: CreateRequest)
    ensures Fingerprint(a) == Fingerprint(b) <==>
      a.amount == b.amount && NormalizedCurrency(a.currency) == NormalizedCurrency(b.currency)
  {
    if Fingerprint(a) == Fingerprint(b) {
      var da, db := IntToDecimal(a.amount as int), IntToDecimal(b.amount as int);
      var na, nb := NormalizedCurrency(a.currency), NormalizedCurrency(b.currency);
      assert Fingerprint(a)[7..] == da + ("&currency=" + na);
      assert Fingerprint(b)[7..] == db + ("&currency=" + nb);
      SplitAtSeparator(da, na, db, nb);
      IntToDecimalInjective(a.amount as int, b.amount as int);
    }
  }

  /** Requests with different amounts never share a fingerprint. */
  lemma FingerprintSeparatesAmounts(a: CreateRequest, b: CreateRequest)
    requires a.amount != b.amount
    ensures Fingerprint(a) != Fingerprint(b)
  {
    FingerprintDeterminesRequest(a, b);
  }

  /** A currency padded with white space and written in another case gives
      the fingerprint of the original. */
  lemma FingerprintIgnoresCaseAndPadding(amount: i64, currency: string, pre: string, variant: string, post: string)
    requires AllSpace(pre) && AllSpace(post)
    requires SameUpToCase(variant, currency)
    ensures Fingerprint(CreateRequest(amount, pre + variant + post)) == Fingerprint(CreateRequest(amount, currency))
  {
    TrimIgnoresPadding(pre, variant, post);
    TrimLowerCommute(variant);
    TrimLowerCommute(currency);
    SameUpToCaseLower(variant, currency);
  }

  /** Requests with one fingerprint are accepted or rejected alike. */
  lemma ValidateAgreesOnFingerprint(a: CreateRequest, b: CreateRequest)
    requires Fingerprint(a) == Fingerprint(b)
    ensures Validate(a) == Validate(b)
  {
    FingerprintDeterminesRequest(a, b);
  }

  /** The idempotency_keys row a key reserves for this endpoint. */
  function Slot(key: string): (slot: IdemKey)
    ensures slot.key == key && slot.endpoint == IdempotencyEndpoint
  {
    IdemKey(key, IdempotencyEndpoint)
  }

  /** The branch create_payment_intent takes for a request, decided before
      anything is written. */
  datatype CreatePath =
    | Rejected(reason: ValidationError)   // validation failed: 400
    | Unkeyed                             // no Idempotency-Key: plain insert
    | Reserve(slot: IdemKey, hash: string) // the insert-if-absent won
    | Mismatch                            // the key holds another fingerprint: 409
    | Replay(stored: Response)            // the stored response, verbatim
    | Recover(slot: IdemKey, intentId: Uuid) // placeholder body, back-reference set
    | Unrecoverable                       // placeholder body, no back-reference: 500

  function ClassifyCreate(db: Db, req: CreateRequest, key: Option<string>): (p: CreatePath)
    ensures p.Rejected? <==> Validate(req).Fail?
    ensures p.Rejected? ==> p.reason == Validate(req).error
    ensures p.Unkeyed? <==> Validate(req).Pass? && key.None?
    ensures p.Reserve? <==> Validate(req).Pass? && key.Some? && Slot(key.value) !in db.idempotencyKeys
    ensures p.Reserve? ==> p.slot == Slot(key.value) && p.hash == Fingerprint(req)
    ensures p.Mismatch? <==>
      Validate(req).Pass? && key.Some? && Slot(key.value) in db.idempotencyKeys
      && db.idempotencyKeys[Slot(key.value)].requestHash != Fingerprint(req)
    ensures p.Replay? || p.Recover? || p.Unrecoverable? ==>
      Validate(req).Pass? && key.Some? && Slot(key.value) in db.idempotencyKeys
      && db.idempotencyKeys[Slot(key.value)].requestHash == Fingerprint(req)
    ensures p.Replay? ==> db.idempotencyKeys[Slot(key.value)].responseBody == Stored(p.stored)
    ensures p.Recover? ==>
      && p.slot == Slot(key.value)
      && db.idempotencyKeys[p.slot].responseBody == Placeholder
      && db.idempotencyKeys[p.slot].paymentIntentId == Some(p.intentId)
    ensures p.Unrecoverable? ==>
      db.idempotencyKeys[Slot(key.value)] == IdemRecord(Fingerprint(req), Placeholder, None)
  {
    match Validate(req)
    case Fail(reason) => Rejected(reason)
    case Pass =>
      match key
      case None => Unkeyed
      case Some(k) =>
        var slot := Slot(k);
        var hash := Fingerprint(req);
        if slot !in db.idempotencyKeys then Reserve(slot, hash)
        else
          var record := db.idempotencyKeys[slot];
          if record.requestHash != hash then Mismatch
          else
            match record.responseBody
            case Stored(response) => Replay(response)
            case Placeholder =>
              match record.paymentIntentId
              case Some(id) => Recover(slot, id)
              case None => Unrecoverable
  }

  /** The insert-if-absent that reserves a key, on a slot that is free:
      the record starts with the placeholder body. */
  function ReserveSlot(db: Db, slot: IdemKey, hash: string): (r: Db)
    requires slot !in db.idempotencyKeys
    ensures r.idempotencyKeys == db.idempotencyKeys[slot := IdemRecord(hash, Placeholder, None)]
    ensures r.intents == db.intents && r.eventsOutbox == db.eventsOutbox
  {
    db.(idempotencyKeys := db.idempotencyKeys[slot := IdemRecord(hash, Placeholder, None)])
  }

  /** Writes the response body and the back-reference of one record at once. */
  function StoreResponse(db: Db, slot: IdemKey, response: Response): (r: Db)
    requires slot in db.idempotencyKeys
    ensures r.idempotencyKeys == db.idempotencyKeys[slot := IdemRecord(db.idempotencyKeys[slot].requestHash, Stored(response), Some(response.id))]
    ensures r.intents == db.intents && r.eventsOutbox == db.eventsOutbox
  {
    var record := db.idempotencyKeys[slot].(responseBody := Stored(response), paymentIntentId := Some(response.id));
    db.(idempotencyKeys := db.idempotencyKeys[slot := record])
  }

  /** The row a create inserts: the request's amount and currency as sent,
      awaiting confirmation. */
  function NewRow(req: CreateRequest): IntentRow {
    IntentRow(req.amount, req.currency, RequiresConfirmation)
  }

  /** The transaction of the reservation-won branch: reserve the slot with a
      placeholder, insert the intent, store the response together with the
      back-reference, append payment_intent.created, commit. Any failing
      statement rolls all of it back. */
  function CreateReserved(db: Db, req: CreateRequest, slot: IdemKey, hash: string, newId: Uuid, eventId: Uuid): (r: Step)
    requires slot !in db.idempotencyKeys
    ensures r.reply.Done? <==> newId !in db.intents && FreshEventId(db.eventsOutbox, eventId)
    ensures r.reply.Failed? ==> r.db == db && r.reply == Failed(Storage(UniqueViolation))
    ensures r.reply.Done? ==>
      && r.reply == Done(HttpCreated, Response(newId, req.amount, req.currency, RequiresConfirmation))
      && r.db.intents == db.intents[newId := NewRow(req)]
      && r.db.idempotencyKeys == db.idempotencyKeys[slot := IdemRecord(hash, Stored(r.reply.intent), Some(newId))]
      && r.db.eventsOutbox == db.eventsOutbox + [OutboxEvent(eventId, PaymentIntentCreated, Payload(r.reply.intent))]
  {
    var row := NewRow(req);
    match InsertIntent(ReserveSlot(db, slot, hash), newId, row)
    case Err(e) => Step(Failed(Storage(e)), db)
    case Ok(inserted) =>
      var response := Snapshot(newId, row);
      var finalized := StoreResponse(inserted, slot, response);
      assert finalized.idempotencyKeys == db.idempotencyKeys[slot := IdemRecord(hash, Stored(response), Some(newId))];
      match EventsOutbox.InsertEvent(finalized, eventId, PaymentIntentCreated, Payload(response))
      case Err(e) => Step(Failed(Storage(e)), db)
      case Ok(committed) =>
        assert committed.eventsOutbox == db.eventsOutbox + [OutboxEvent(eventId, PaymentIntentCreated, Payload(response))];
        Step(Done(HttpCreated, response), committed)
  }

  /** The crash-recovery branch: rebuild the response from the intent's
      current row and backfill response_body with it. */
  function CreateRecovered(db: Db, slot: IdemKey, intentId: Uuid): (r: Step)
    requires slot in db.idempotencyKeys
    ensures r.reply.Done? <==> intentId in db.intents
    ensures r.reply.Failed? ==> r.db == db && r.reply == Failed(Storage(RowNotFound))
    ensures r.reply.Done? ==>
      && r.reply == Done(HttpCreated, Snapshot(intentId, db.intents[intentId]))
      && r.db.intents == db.intents && r.db.eventsOutbox == db.eventsOutbox
      && r.db.idempotencyKeys == db.idempotencyKeys[slot := db.idempotencyKeys[slot].(responseBody := Stored(r.reply.intent))]
  {
    match FetchIntent(db, intentId)
    case Err(e) => Step(Failed(Storage(e)), db)
    case Ok(row) =>
      var response := Snapshot(intentId, row);
      var record := db.idempotencyKeys[slot].(responseBody := Stored(response));
      Step(Done(HttpCreated, response), db.(idempotencyKeys := db.idempotencyKeys[slot := record]))
  }

  /** create_payment_intent. The fresh identifiers Uuid::new_v4 would draw
      are parameters: newId for the intent, eventId for its outbox row. */
  function CreatePaymentIntent(db: Db, req: CreateRequest, key: Option<string>, newId: Uuid, eventId: Uuid): (r: Step)
    // every failure leaves the database exactly as it was
    ensures r.reply.Failed? ==> r.db == db
    ensures r.reply.Done? ==> r.reply.code == HttpCreated
    ensures r.reply.Failed? ==> r.reply.Code() in {HttpBadRequest, HttpConflict, HttpInternalError}
    // existing intents are never altered; at most the new id is added
    ensures forall x :: x in db.intents ==> x in r.db.intents && r.db.intents[x] == db.intents[x]
    ensures r.db.intents.Keys <= db.intents.Keys + {newId}
    // the outbox gains at most the created event of the intent this call inserted
    ensures r.db.eventsOutbox == db.eventsOutbox
      || (&& key.Some?
          && r.reply.Done? && r.reply.intent.id == newId && newId in r.db.intents.Keys - db.intents.Keys
          && r.db.eventsOutbox == db.eventsOutbox + [OutboxEvent(eventId, PaymentIntentCreated, Payload(r.reply.intent))])
  {
    match ClassifyCreate(db, req, key)
    case Rejected(reason) => Step(Failed(Invalid(reason)), db)
    case Unkeyed =>
      var row := NewRow(req);
      (match InsertIntent(db, newId, row)
       case Err(e) => Step(Failed(Storage(e)), db)
       case Ok(inserted) => Step(Done(HttpCreated, Snapshot(newId, row)), inserted))
    case Reserve(slot, hash) => CreateReserved(db, req, slot, hash, newId, eventId)
    case Mismatch => Step(Failed(KeyReused), db)
    case Replay(stored) => Step(Done(HttpCreated, stored), db)
    case Recover(slot, intentId) => CreateRecovered(db, slot, intentId)
    case Unrecoverable => Step(Failed(RecordUnrecoverable), db)
  }

  /** get_payment_intent: a read; the database is not an output. */
  function GetPaymentIntent(db: Db, id: Uuid): (r: Reply)
    ensures r.Done? <==> id in db.intents
    ensures r.Done? ==>
      && r.code == HttpOk && r.intent.id == id
      && IntentRow(r.intent.amount, r.intent.currency, r.intent.status) == db.intents[id]
    ensures r.Failed? ==> r == Failed(NotFound)
  {
    match FetchIntent(db, id)
    case Ok(row) => Done(HttpOk, Snapshot(id, row))
    case Err(_) => Failed(NotFound)
  }

  /** confirm_payment_intent: a compare-and-set from requires_confirmation to
      succeeded that appends payment_intent.succeeded in the same
      transaction; otherwise a read that explains the refusal. */
  function ConfirmPaymentIntent(db: Db, id: Uuid, eventId: Uuid): (r: Step)
    ensures r.reply.Failed? ==> r.db == db
    ensures r.reply.Done? <==>
      id in db.intents && db.intents[id].status == RequiresConfirmation && FreshEventId(db.eventsOutbox, eventId)
    ensures id !in db.intents ==> r.reply == Failed(NotFound)
    ensures id in db.intents && db.intents[id].status != RequiresConfirmation ==>
      r.reply == Failed(CannotConfirm(db.intents[id].status))
    ensures r.reply.Done? ==>
      && r.reply.code == HttpOk
      && r.reply.intent == Response(id, db.intents[id].amount, db.intents[id].currency, Succeeded)
      && r.db.intents == db.intents[id := db.intents[id].(status := Succeeded)]
      && r.db.idempotencyKeys == db.idempotencyKeys
      && r.db.eventsOutbox == db.eventsOutbox + [OutboxEvent(eventId, PaymentIntentSucceeded, Payload(r.reply.intent))]
  {
    if id in db.intents && db.intents[id].status == RequiresConfirmation then
      var row := db.intents[id].(status := Succeeded);
      var updated := db.(intents := db.intents[id := row]);
      var response := Snapshot(id, row);
      match EventsOutbox.InsertEvent(updated, eventId, PaymentIntentSucceeded, Payload(response))
      case Err(e) => Step(Failed(Storage(e)), db)
      case Ok(committed) => Step(Done(HttpOk, response), committed)
    else
      match FetchIntent(db, id)
      case Err(_) => Step(Failed(NotFound), db)
      case Ok(row) => Step(Failed(CannotConfirm(row.status)), db)
  }
}
