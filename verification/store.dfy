/** The three tables the payment-intent handlers share (payment_intents,
    idempotency_keys, events_outbox) and the single-row statements on them.
    A database is an immutable value; a handler maps one value to the next. */
module Store {
  import opened Wrappers

  /** Rust's i64, the type the request amount is deserialised into. */
  newtype i64 = x: int | -0x8000_0000_0000_0000 <= x < 0x8000_0000_0000_0000

  /** A UUID. Only equality between identifiers matters to the handlers. */
  type Uuid = nat

  /** The two values the status column takes. */
  datatype Status = RequiresConfirmation | Succeeded

  /** The text stored in the status column. */
  function StatusName(s: Status): (name: string)
    ensures name == "requires_confirmation" || name == "succeeded"
    ensures s == RequiresConfirmation <==> name == "requires_confirmation"
  {
    match s
    case RequiresConfirmation => "requires_confirmation"
    case Succeeded => "succeeded"
  }

  /** A payment_intents row, keyed by its id in the table. */
  datatype IntentRow = IntentRow(amount: i64, currency: string, status: Status)

  /** PaymentIntentResponse, the JSON body the handlers return and store. */
  datatype Response = Response(id: Uuid, amount: i64, currency: string, status: Status)

  /** The response a handler builds from the row it just read or wrote. */
  function Snapshot(id: Uuid, row: IntentRow): (r: Response)
    ensures r.id == id && IntentRow(r.amount, r.currency, r.status) == row
  {
    Response(id, row.amount, row.currency, row.status)
  }

  /** The primary key of idempotency_keys. */
  datatype IdemKey = IdemKey(key: string, endpoint: string)

  /** The response_body column: the placeholder '{}' written at reservation,
      or a complete response (one whose "id" is a string). */
  datatype ResponseBody = Placeholder | Stored(response: Response)

  /** An idempotency_keys row, without its key. */
  datatype IdemRecord = IdemRecord(requestHash: string, responseBody: ResponseBody, paymentIntentId: Option<Uuid>)

  /** The outbox payload {"payment_intent": {id, amount, currency, status}}. */
  datatype Payload = Payload(paymentIntent: Response)

  /** The event types the handlers write. */
  datatype EventType = PaymentIntentCreated | PaymentIntentSucceeded

  /** The text stored in the event_type column. */
  function EventTypeName(t: EventType): (name: string)
    ensures name == "payment_intent.created" <==> t == PaymentIntentCreated
    ensures name == "payment_intent.succeeded" <==> t == PaymentIntentSucceeded
  {
    match t
    case PaymentIntentCreated => "payment_intent.created"
    case PaymentIntentSucceeded => "payment_intent.succeeded"
  }

  /** An events_outbox row. */
  datatype OutboxEvent = OutboxEvent(id: Uuid, eventType: EventType, payload: Payload)

  datatype Db = Db(
    intents: map<Uuid, IntentRow>,
    idempotencyKeys: map<IdemKey, IdemRecord>,
    eventsOutbox: seq<OutboxEvent>)

  /** The database before any request. */
  const EmptyDb := Db(map[], map[], [])

  /** The storage errors a statement of this model can raise: a primary-key
      collision on insert, and fetch_one finding no row. */
  datatype DbError = UniqueViolation | RowNotFound

  /** No outbox row carries this id yet. */
  predicate FreshEventId(events: seq<OutboxEvent>, id: Uuid) {
    forall i :: 0 <= i < |events| ==> events[i].id != id
  }

  /** Inserting a payment_intents row: fails on a primary-key collision and
      otherwise adds exactly the given row. */
  function InsertIntent(db: Db, id: Uuid, row: IntentRow): (r: Result<Db, DbError>)
    ensures r.Ok? <==> id !in db.intents
    ensures r.Err? ==> r.error == UniqueViolation
    ensures r.Ok? ==> r.value.intents == db.intents[id := row]
    ensures r.Ok? ==> r.value.idempotencyKeys == db.idempotencyKeys && r.value.eventsOutbox == db.eventsOutbox
  {
    if id in db.intents then Err(UniqueViolation)
    else Ok(db.(intents := db.intents[id := row]))
  }

  /** Reading one payment_intents row by id, where a missing row is an error. */
  function FetchIntent(db: Db, id: Uuid): (r: Result<IntentRow, DbError>)
    ensures r.Ok? <==> id in db.intents
    ensures r.Ok? ==> r.value == db.intents[id]
    ensures r.Err? ==> r.error == RowNotFound
  {
    if id in db.intents then Ok(db.intents[id]) else Err(RowNotFound)
  }
}
