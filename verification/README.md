# Payment-intent lifecycle of mini-stripe-rs, in Dafny

This project models the payment-intent handlers of the `mini-stripe-rs` API
server and proves what they promise. The handlers are create (with and
without an `Idempotency-Key` header), get and confirm, together with the
transactional outbox append `insert_event`.

The Postgres database is an immutable value `Store.Db` with three tables:
- `intents`: a map from id to amount, currency and status;
- `idempotencyKeys`: a map keyed by `(key, endpoint)` to the request
  fingerprint, the response body (`Placeholder` for the `'{}'` written at
  reservation, or `Stored(response)`) and the back-reference
  `payment_intent_id`;
- `eventsOutbox`: an append-only sequence of `{id, event_type, payload}`.

Each handler call is one transaction. It is a pure function from the
database before the request to a `Step`: the reply (`Done(code, intent)` or
`Failed(refusal)`) and the database after it. A rolled-back transaction
hands back the database it was given. The ids that `Uuid::new_v4` would draw
are parameters. When one of them is already in use, the model fails the
statement with the unique-key violation the database would raise, and the
transaction rolls back.

Modules, one per file:
- `Wrappers`: `Option`, `Result`, `Outcome`.
- `AsciiText`: trimming, lower-casing and decimal rendering of integers, with
  their laws.
- `Store`: the tables, the two row kinds, and the primitive statements
  `InsertIntent` and `FetchIntent`.
- `EventsOutbox`: `insert_event`.
- `PaymentIntents`: fingerprint, validation, the create dispatcher and
  branches, get and confirm.
- `HandlerProperties`: what one call does, path by path.
- `Lifecycle`: sequences of requests, the invariant of every reachable
  database, and the properties that follow across requests.

The code validates the request before it reads the idempotency header
(`api/src/payment_intents.rs:53-55`). So a rejected request never reserves a
key, and the question of releasing a reservation after a failed validation
never arises. `HandlerProperties.RejectedCreateReservesNothing` states this.

## Model

| member | source | states |
|---|---|---|
| AsciiText.TrimStart | api/src/payment_intents.rs:34 | dropping leading white space leaves a suffix of the input; everything dropped is white space and the result does not start with white space |
| AsciiText.TrimEnd | api/src/payment_intents.rs:34 | dropping trailing white space leaves a prefix of the input; everything dropped is white space and the result does not end with white space |
| AsciiText.Trim | api/src/payment_intents.rs:34 | the trimmed string is the slice of the input that starts after its leading white space and has only white space after it; the trimmed string is empty exactly when the input is all white space, and otherwise neither starts nor ends with white space |
| AsciiText.LowerChar | api/src/payment_intents.rs:34 | an ASCII upper-case letter becomes its lower-case letter and every other character is kept, so no upper-case letter remains and white space stays white space |
| AsciiText.ToLower | api/src/payment_intents.rs:34 | lower-casing keeps the length and lower-cases each character in place |
| AsciiText.TrimIgnoresPadding | api/src/payment_intents.rs:34 | white space added before or after a string does not change its trimmed form |
| AsciiText.TrimLowerCommute | api/src/payment_intents.rs:34 | trimming then lower-casing equals lower-casing then trimming |
| AsciiText.SameUpToCaseLower | api/src/payment_intents.rs:34 | two strings are equal up to letter case if and only if their lower-cased forms are equal |
| AsciiText.NatToDecimal | api/src/payment_intents.rs:31-33 | the rendering of a natural number is a non-empty run of digits without a leading zero |
| AsciiText.NatToDecimalRoundTrip | api/src/payment_intents.rs:31-33 | reading back the decimal rendering of a natural number gives the number |
| AsciiText.IntToDecimal | api/src/payment_intents.rs:31-33 | the rendering of an integer starts with '-' exactly when it is negative, and all its other characters are digits |
| AsciiText.IntToDecimalRoundTrip | api/src/payment_intents.rs:31-33 | parsing the rendering of an integer gives the integer back |
| AsciiText.IntToDecimalInjective | api/src/payment_intents.rs:31-33 | two integers have the same rendering if and only if they are equal |
| Store.StatusName | api/src/payment_intents.rs:335-336 | the status column holds "requires_confirmation" exactly for an intent awaiting confirmation and "succeeded" otherwise, the two literals the handlers write (also at lines 66 and 123) |
| Store.EventTypeName | api/src/payment_intents.rs:182 | the event_type column holds "payment_intent.created" exactly for the created event and "payment_intent.succeeded" exactly for the succeeded event (line 363) |
| Store.InsertIntent | api/src/payment_intents.rs:68-80 | an insert succeeds exactly when the id is unused; it adds that one row and touches no other table; otherwise it fails with a unique-key violation |
| Store.FetchIntent | api/src/payment_intents.rs:238-248 | a fetch by id returns the stored row exactly when the id exists, and fails with row-not-found otherwise |
| EventsOutbox.InsertEvent | api/src/events_outbox.rs:4-24 | the append succeeds exactly when the event id is new; it appends one row carrying the given type and payload verbatim, keeps every earlier row and changes no other table; otherwise it returns a unique-key error |
| EventsOutbox.InsertEventKeepsIdsDistinct | api/src/events_outbox.rs:9-19 | appending an event under a fresh id keeps the outbox ids pairwise distinct |
| PaymentIntents.RefusalCode | api/src/payment_intents.rs:53-54 | 400 is sent exactly for validation errors, 404 exactly for an unknown intent, 409 exactly for key reuse or a wrong status, and 500 exactly for storage errors and the unrecoverable record |
| PaymentIntents.RefusalMessage | api/src/payment_intents.rs:40-43 | the error text of each refusal, as at lines 40, 43, 80, 212, 287, 316, 393 and 397; it is a plain table with no contract of its own, and its texts are stated by HandlerProperties.ValidationMessages, CreateKeyMismatch, CreateOnBrokenRecord, ConfirmTwice and ConfirmUnknown |
| PaymentIntents.Fingerprint | api/src/payment_intents.rs:30-36 | its own contract gives only the shape (starts with "amount="); what the fingerprint means is carried by FingerprintDeterminesRequest below |
| PaymentIntents.NormalizedCurrency | api/src/payment_intents.rs:34 | the normalized currency is no longer than the original and is empty exactly when the original is blank |
| PaymentIntents.Validate | api/src/payment_intents.rs:38-46 | a non-positive amount is rejected first; otherwise a blank currency is rejected; a request passes exactly when its amount is positive and its currency has a non-space character |
| PaymentIntents.FingerprintDeterminesRequest | api/src/payment_intents.rs:30-36 | two requests have the same fingerprint if and only if they have the same amount and the same trimmed, lower-cased currency |
| PaymentIntents.FingerprintSeparatesAmounts | api/src/payment_intents.rs:30-36 | requests with different amounts always have different fingerprints |
| PaymentIntents.FingerprintIgnoresCaseAndPadding | api/src/payment_intents.rs:30-36 | currencies that differ only in letter case and surrounding white space give the same fingerprint |
| PaymentIntents.ValidateAgreesOnFingerprint | api/src/payment_intents.rs:30-46 | requests with the same fingerprint are validated alike |
| PaymentIntents.ClassifyCreate | api/src/payment_intents.rs:53-288 | the path a create takes: rejected exactly on a validation error, carrying that error, a plain insert exactly without a key, a reservation exactly when the key is free, 409 exactly on a fingerprint mismatch, and replay, recovery or the 500 according to the stored body and back-reference |
| PaymentIntents.ReserveSlot | api/src/payment_intents.rs:105-118 | on a free (key, endpoint) the reservation adds exactly one record, with the request hash, the placeholder body and no back-reference; no other record and no other table changes |
| PaymentIntents.StoreResponse | api/src/payment_intents.rs:157-170 | the update sets the body to the response and the back-reference to the response's id in one statement, keeps the request hash, and changes no other record and no other table |
| PaymentIntents.CreateReserved | api/src/payment_intents.rs:120-191 | the reservation-won transaction commits exactly when both new ids are unused; it then adds the intent, the complete record and one created event with that snapshot; any failure rolls everything back |
| PaymentIntents.CreateRecovered | api/src/payment_intents.rs:236-281 | recovery succeeds exactly when the referenced intent exists; it answers with that intent's current row and writes it into the record's body |
| PaymentIntents.CreatePaymentIntent | api/src/payment_intents.rs:48-289 | any failure leaves the database unchanged with code 400, 409 or 500; success is 201; existing intents are never altered and only the new id can be added; the outbox gains at most one created event, only on a keyed create that inserted the intent |
| PaymentIntents.GetPaymentIntent | api/src/payment_intents.rs:291-319 | get answers 200 with the stored fields exactly when the id exists, and 404 otherwise |
| PaymentIntents.ConfirmPaymentIntent | api/src/payment_intents.rs:321-400 | confirm succeeds exactly on an intent awaiting confirmation; it then sets only that status to succeeded, answers 200 with the updated row and appends one succeeded event; an unknown id gets 404, another status gets 409 naming it, and every failure changes nothing |
| HandlerProperties.ValidationMessages | api/src/payment_intents.rs:402-436 | a non-positive amount gets "amount must be > 0", a blank currency "currency is required", and anything else passes |
| HandlerProperties.RejectedCreateReservesNothing | api/src/payment_intents.rs:53-55 | for every key and every database, even one where the key is held under another fingerprint, an invalid create answers 400 with its validation error and the database unchanged; so a corrected retry with a key that was free still wins the reservation |
| HandlerProperties.CreateWithoutKey | api/src/payment_intents.rs:63-91 | without a key exactly one intent is added under the new id, with the currency as sent and status requires_confirmation; no record and no event are written; a later get returns the same fields |
| HandlerProperties.CreateWithFreshKey | api/src/payment_intents.rs:103-191 | with an unused key, the slot is reserved under the request's fingerprint, one intent is added, body and back-reference point at it, one created event with its snapshot is appended, and 201 is returned |
| HandlerProperties.CreateOutboxFailureRollsBack | api/src/payment_intents.rs:182-184 | if the outbox append fails, the reservation-won transaction leaves no intent, no record and no event |
| HandlerProperties.CreateKeyMismatch | api/src/payment_intents.rs:207-214 | a held key under another fingerprint gets 409 "idempotency key reused with different request" and nothing changes |
| HandlerProperties.CreateReplaysStoredResponse | api/src/payment_intents.rs:216-234 | a held key under the same fingerprint with a complete body gets that body verbatim with 201 and nothing changes |
| HandlerProperties.CreateRecoversFromCurrentRow | api/src/payment_intents.rs:236-281 | from any database, a record with a placeholder body and a back-reference is answered from the intent's current row, which is written into the body; no intent or event is added |
| HandlerProperties.CreateOnBrokenRecord | api/src/payment_intents.rs:283-288 | a record with neither a body nor a back-reference gets the 500 saying it has no stored response or payment_intent_id, and nothing changes |
| HandlerProperties.CreateKeepsRecords | api/src/payment_intents.rs:105-110 | no create deletes a record or changes its fingerprint or back-reference |
| HandlerProperties.CreateChangeAndEventTogether | api/src/payment_intents.rs:120-191 | a keyed create changes the intents exactly when it appends to the outbox |
| HandlerProperties.ConfirmSucceeds | api/src/payment_intents.rs:331-372 | confirming an intent awaiting confirmation changes only its status, leaves the records alone and appends one succeeded event with the updated snapshot |
| HandlerProperties.ConfirmOutboxFailureRollsBack | api/src/payment_intents.rs:363-365 | if the outbox append fails, the confirmation is abandoned and the intent still awaits confirmation |
| HandlerProperties.ConfirmTwice | api/src/payment_intents.rs:395-398 | a second confirm gets 409 "cannot confirm payment_intent in status 'succeeded'" and adds no second event |
| HandlerProperties.ConfirmUnknown | api/src/payment_intents.rs:390-394 | an unknown id gets 404 "payment_intent not found" from confirm and from get, and nothing changes |
| Lifecycle.CountEventsAppend | api/src/events_outbox.rs:11-19 | appending an event raises the count of one transition of one intent by one exactly when the event records that transition |
| Lifecycle.NoEventsForAbsentIntent | api/src/payment_intents.rs:173-182 | when every event names an existing intent, an intent that does not exist has no events |
| Lifecycle.ValidCreateNeverRecovers | api/src/payment_intents.rs:236-288 | when every record is complete, a create takes neither the recovery branch nor the unrecoverable one |
| Lifecycle.CreatePreservesValid | api/src/payment_intents.rs:48-289 | a create keeps the invariant: records complete, one key per intent, distinct event ids, events naming existing intents, one event per transition |
| Lifecycle.ConfirmPreservesValid | api/src/payment_intents.rs:321-400 | a confirm keeps the same invariant |
| Lifecycle.ReachableIsValid | api/src/payment_intents.rs:48-400 | every database reached from the empty one by any sequence of requests satisfies the invariant |
| Lifecycle.RecoveryUnreachable | api/src/payment_intents.rs:236-288 | in every reachable database, no create rebuilds a response or answers the unrecoverable 500 |
| Lifecycle.OneEventPerTransitionWhenReachable | api/src/payment_intents.rs:182-184 | in every reachable database an intent has at most one created and at most one succeeded event, the latter exactly when it has succeeded |
| Lifecycle.CreateKeepsHeldRecords | api/src/payment_intents.rs:105-110 | outside the recovery branch, a create leaves every record that already existed exactly as it was |
| Lifecycle.CreateLeavesRecord | api/src/payment_intents.rs:157-170 | after a successful keyed create, the key's record holds the request's fingerprint and the very reply that was sent |
| Lifecycle.RunKeepsHeldRecords | api/src/payment_intents.rs:103-118 | from a valid database, no sequence of requests alters a record that already exists |
| Lifecycle.CreateKeepsStored | api/src/payment_intents.rs:236-281 | from any database, a create leaves a record whose body is stored exactly as it was: the recovery update only ever starts from a placeholder body |
| Lifecycle.HandleKeepsStored | api/src/payment_intents.rs:48-400 | no request of any kind, confirm included, alters or removes a record whose body is stored |
| Lifecycle.RunKeepsStored | api/src/payment_intents.rs:103-281 | no sequence of requests, from any database, alters or removes a record whose body is stored |
| Lifecycle.RetryReturnsFirstReply | api/src/payment_intents.rs:216-234 | from any database, including ones holding crash-recovery records, once a keyed create has succeeded, a retry with the same key and fingerprint, after any other requests, gets the same reply and changes nothing |
| Lifecycle.ReplayMatchesRequest | api/src/payment_intents.rs:207-234 | from a valid database (every stored body agrees with its fingerprint), a successful keyed create answers with the request's amount and a currency equal to it up to case and surrounding white space |
| Lifecycle.FreshKeyCreateStep | api/src/payment_intents.rs:120-191 | a create with a free key either changes nothing or takes the key, adds exactly the new id and appends exactly one event |
| Lifecycle.CreatesWithOneKey | api/src/payment_intents.rs:103-234 | any sequence of creates with one key adds at most one intent and at most one event |
| Lifecycle.HeldKeyCreatesNothing | api/src/payment_intents.rs:193-234 | once a key is held, creates with it add no intent and no event |
| Lifecycle.ReplayIsCreateTimeSnapshot | api/src/payment_intents.rs:223-233 | from any database where the key is free, after a keyed create and a confirm, get reports succeeded while a retried create still replays requires_confirmation |

## Left out

- `api/src/main.rs` holds process start-up and an older copy of create and get without idempotency. It is not part of this model.
- `api/src/app.rs` is router wiring only. It registers no confirm route; confirm is modelled anyway.
- `api/src/webhook_endpoints.rs` is outside the payment-intent lifecycle.
- Concurrency and isolation: each handler is one atomic step. Interleavings and the blocking behaviour of `ON CONFLICT` are not modelled.
- The key reservation is modelled as one insert-if-absent on a map. Confirm is modelled as one compare-and-set on the status.
- `Uuid::new_v4` draws are parameters. A drawn id that is already in use gives the unique-key failure the database would raise.
- The header is modelled as an `Option<string>`. A header value that is not visible ASCII counts as absent in the source; the model starts from the resulting option.
- Connection, JSON and commit failures are not modelled. The only storage failures are the unique-key violation and the missing row. The ignored commit results at `api/src/payment_intents.rs:232` and `:279` are treated as successful commits.
- The JSON response body is modelled as `Placeholder | Stored(response)`. "Looks complete" means `Stored`. `serde_json::to_value` and `from_value` are assumed to round-trip.
- The exact driver text after "db error: " is not known; `RefusalMessage` writes a typical text for the two modelled errors.
- The outbox `created_at` column and any event relay are not modelled.
- AsciiText.Trim: trims only the ASCII white space (tab through carriage return, and space), not every Unicode `White_Space` character that `str::trim` removes.
- AsciiText.ToLower: lower-cases only ASCII letters, not the full Unicode mapping of `str::to_lowercase`.
- Store.IntentRow: the status column is free text in the database. The model only has the two values the code ever writes, so a 409 can only name "succeeded".
