# TixVibe replicas, guards and handlers in Dafny

TixVibe is a ticket-resale system split into services. Each service keeps its own copy of the records it needs and keeps those copies in step through events on a NATS Streaming bus:

- the **tickets** (catalog) service owns tickets;
- the **orders** service owns orders and keeps a replica of tickets;
- the **payments** service keeps a replica of orders;
- the **auth** service stores passwords.

This project models the part of that system that decides what happens to the data:

- the records each service stores and the schema rules on them;
- each collection, as a store keyed by id that remembers insertion order;
- the event listeners, which read, check a version, write, publish and acknowledge;
- the ordered guard chains of the HTTP routes;
- the bus wrappers (publisher, listener, message parsing);
- the stored password format.

## Structure

- `wrappers.dfy` (`Wrappers`): `Option` and `Result`.
- `collections.dfy` (`Collections`): a document collection.
  - It holds ids in natural (insertion) order plus a map from id to document.
  - It supports insert with duplicate-key refusal, overwrite, `findById` and a filtered `find`, which returns documents in natural order.
- `common.dfy` (`Common`): what the services share.
  - Order statuses and event subjects and payloads.
  - Route errors and `requireAuth`.
  - The `toJSON` transform that renames `_id` to `id`, as a function and as the in-place method on the `ret` object.
- `utf8.dfy` (`Utf8`): UTF-8 encoding and decoding, per RFC 3629.
  - Ill-formed input decodes to U+FFFD, one replacement per maximal ill-formed subpart.
  - Decoding inverts encoding.
- `bus.dfy` (`Bus`):
  - a client whose publishes go to an outbox and whose subscriptions are recorded;
  - a publisher bound to one subject;
  - a listener with its subscription options and its message callback;
  - a message that counts its acknowledgements;
  - `parseMessage` over string or byte data.
- `catalog.dfy` (`Catalog`): the tickets service.
  - The ticket record, and its save, which checks the version and then increments it.
  - The routes: create, show, index and update.
  - The OrderCancelled listener, which clears the reservation and republishes.
- `orders.dfy` (`Orders`): the orders service.
  - The ticket replica and its version-guarded TicketUpdated listener.
  - The order record, with its default status and schema rules.
  - The PaymentCreated and ExpirationComplete listeners.
  - The routes: new-order guard, cancel, show with ticket, and index.
- `payments.dfy` (`Payments`): the payments service.
  - The order replica and its build.
  - The OrderCreated listener, which replicates the order.
  - The version-guarded OrderCancelled listener.
  - The payment record and the guard chain of the charge route.
- `password.dfy` (`Password`):
  - `toHash` and `compare`;
  - hex encoding and `split`;
  - scrypt, taken as a deterministic function parameter.

Each handler that changes state is a module-level method. It takes the service's store object (`TicketsDb`, `OrdersDb` or `PaymentsDb`), the `Client` whose outbox records publishes, and the `Message` that counts acknowledgements, as parameters. Its `ensures` ties the new store, outbox and acknowledgement count to a pure function of the old state. That function's contract states the outcome: which branch throws, and what is written. The lemmas beside it state the cross-call properties:

- a redelivered TicketUpdated is rejected;
- of two saves read at the same version, only the first wins;
- a created ticket or order reads back, and is listed last.

A handler that throws does so before any write. So a thrown handler leaves the store, the outbox and the acknowledgement count as they were, and every such method says so.

### Where the code departs from its own tests and comments (the model follows the code)

- **Orders' TicketUpdated lookup.** `orders/src/events/listeners/ticket-updated-listener.ts:24` calls `Ticket.findByEvent`. The orders ticket model (`orders/src/models/ticket.ts`) defines no such static, and no `version` field either. `Orders.FindByEvent` gives it the meaning of the commented query at lines 17-21: same id, and stored version one below the event's.
- **Orders' reserved check.** `orders/src/routes/new-order.ts:78` calls `ticket.isReserved()`, which `orders/src/models/ticket.ts` does not define either. `Orders.IsReserved` gives it the meaning of the commented query at `orders/src/routes/new-order.ts:54-64`: some stored order refers to the ticket with status Created, AwaitingPayment or Complete. The `version` key of `Orders.TicketJson` rests on the same assumption, since the orders ticket schema in that file has no `version` path.
- **The payments `Order.build`.** `payments/src/models/order.ts:86` stores `attrs.userId` into `status`. `Payments.BuildOrder` does the same. `Payments.ReplicatedOrderChargeable` shows the consequence: a freshly replicated order is refused as cancelled only if its owner's id is the text `cancelled`.
- **The expiration listener.** `orders/src/events/listeners/expiration-complete-listener.ts:15-33` changes the status of its local copy and stops there. It does not save, publish or ack. So `Orders.OnExpirationComplete` changes nothing, and `Orders.ExpiredOrderKeepsTicketReserved` shows that the ticket stays reserved. Its test expects the order to be cancelled, an event to be published and the message to be acked.
- **New order.** `orders/src/routes/new-order.ts:84-89` answers `{}` after its checks and creates no order.
- **The payments order's version.** The payments order schema (`payments/src/models/order.ts:45-59`) declares only `userId`, `price` and `status`. Its comment at lines 39-44 leaves the version to a plugin, and the shown code never installs that plugin. Under the schema's default strict mode, the `version` given to `build` (line 83) would not be stored. The version-guarded `findOne` at `payments/src/events/listeners/order-cancelled-listener.ts:24-44` would then never compare against a stored version. The model assumes instead that the version given to `build` is stored, and that no save moves it on. Under that assumption, the same OrderCancelled delivered again matches again. `Payments.RedeliveredCancelIsIdempotent` shows that this is harmless to the stored state.
- **The tickets model file.** `tickets/src/models/ticket.ts` declares only the record interfaces. The save with version check and increment is taken from its test, `tickets/src/models/__test__/ticket.test.ts`.
- **No prior-status guards.** Payment completes an order, and the owner or an expiration cancels it, whatever its current status.

## Model

| member | source | states |
|---|---|---|
| `Common.RequireAuth` | tickets/src/routes/update-ticket.ts:18 | no signed-in user gives NotAuthorized; otherwise the route continues with the caller's id |
| `Common.RenameId` | orders/src/models/order.ts:57-63 | the rendered object has no `_id`, its `id` is the old `_id`, and every other key keeps its value |
| `Common.JsonRet.RenameIdInPlace` | orders/src/models/ticket.ts:55-61 | the transform edits the `ret` object in place, leaving it as `RenameId` of what it was |
| `Collections.FindPrevious` | payments/src/events/listeners/order-cancelled-listener.ts:24-44 | a document is found only under the event's id and only when its stored version is the event's version minus one; it is then the stored document. Both services' event lookups (`Orders.FindByEvent`, `Payments.FindByEvent`) are this guard |
| `Collections.Insert` | tickets/src/routes/new-ticket.ts:42 | saving a new document fails with a duplicate-key error iff its id is taken; otherwise the document is added at the end of the natural order |
| `Collections.Replace` | orders/src/routes/delete-order.ts:32 | saving a fetched document changes only that document and keeps the natural order |
| `Collections.FindById` | tickets/src/routes/show-ticket.ts:10 | the stored document if the id is present, nothing otherwise |
| `Collections.FindMembership` | tickets/src/routes/index-ticket.ts:15-18 | a pair is in a `find` result iff it is a stored document satisfying the filter |
| `Collections.FindAfterInsert` | orders/src/routes/__test__/index-order.test.ts:77-80 | after an insert, a `find` returns the earlier results followed by the new document if it matches |
| `Bus.Publisher.constructor` | nats-streaming-server/src/events/base-publisher.ts:10-15 | a publisher keeps its subject and client for life |
| `Bus.Publisher.Publish` | nats-streaming-server/src/events/base-publisher.ts:22-26 | one publish appends exactly one envelope: the bound subject and the serialised data |
| `Bus.ListenerOptions` | nats-streaming-server/src/events/base-listener.ts:44-51 | deliver all available, manual ack, the listener's ack wait, and durable name equal to the queue group |
| `Bus.Listener.constructor` | nats-streaming-server/src/events/base-listener.ts:27-37 | the client is set once, and the ack wait defaults to 5 × 1000 ms |
| `Bus.Listener.Listen` | nats-streaming-server/src/events/base-listener.ts:58-63 | one subscription on exactly this listener's subject and queue group, with its options; nothing is published |
| `Bus.Listener.Receive` | nats-streaming-server/src/events/base-listener.ts:65-70 | each message is parsed once into what the handler receives; the base class does not acknowledge |
| `Bus.Message.Ack` | orders/src/events/listeners/ticket-updated-listener.ts:57 | an ack adds exactly one to the message's ack count |
| `Bus.ParseMessage` | nats-streaming-server/src/events/base-listener.ts:78-83 | the data is the JSON parse of the message text: a string as is, bytes decoded as UTF-8 |
| `Bus.TextAndBytesParseAlike` | nats-streaming-server/src/events/base-listener.ts:80-82 | a string payload and the UTF-8 bytes of the same text parse to the same value |
| `Utf8.DecodeEncode` | nats-streaming-server/src/events/base-listener.ts:82 | decoding the UTF-8 encoding of any text gives the text back |
| `Catalog.Build` | tickets/src/models/ticket.ts:4-8 | a built ticket has exactly the given title, price and owner, no order id (so it is unreserved), and version 0 |
| `Catalog.SaveDoc` | tickets/src/models/__test__/ticket.test.ts:12-38 | a save succeeds iff the stored version equals the version read; then it writes that document with the version plus one, and otherwise writes nothing |
| `Catalog.ConcurrentSavesOneWins` | tickets/src/models/__test__/ticket.test.ts:3-100 | of two copies read at the same version, the first save succeeds and increments the version, and the second fails |
| `Catalog.TicketsDb.Create` | tickets/src/routes/new-ticket.ts:22-42 | a new ticket is inserted under a free id, and a taken id is refused with nothing written |
| `Catalog.TicketsDb.Save` | tickets/src/models/__test__/ticket.test.ts:38-48 | the store changes exactly as the versioned save says, or not at all |
| `Catalog.FormErrors` | tickets/src/routes/update-ticket.ts:19-24 | title is flagged iff missing or empty, price iff missing or not above 0, and no errors iff the form is valid |
| `Catalog.CheckNewTicket` | tickets/src/routes/new-ticket.ts:10-41 | unauthenticated gives NotAuthorized, then an invalid body gives a validation error; otherwise the attributes are the form's title and price with the caller as owner |
| `Catalog.NewTicket` | tickets/src/routes/new-ticket.ts:18-44 | on passing checks the built ticket is stored and returned (201); on any failure the store is unchanged; nothing is published |
| `Catalog.CreatedTicketShown` | tickets/src/routes/__test__/show-ticket.test.ts:23-41 | a created ticket reads back with the form's title and price and the caller as owner |
| `Catalog.CreatedTicketListedLast` | tickets/src/routes/__test__/index-ticket.test.ts:26-32 | a created ticket is appended to the listing of unreserved tickets |
| `Catalog.ShowTicket` | tickets/src/routes/show-ticket.ts:7-20 | no sign-in needed; an unknown id gives NotFound, a known id gives the stored ticket as is |
| `Catalog.IndexTickets` | tickets/src/routes/index-ticket.ts:15-18 | exactly the stored tickets without an order id, no sign-in needed |
| `Catalog.ListedTicketsAreUnreserved` | tickets/src/routes/update-ticket.ts:51-53 | no listed ticket counts as reserved for the edit route |
| `Catalog.CheckUpdate` | tickets/src/routes/update-ticket.ts:18-70 | checks run in order: auth, then body, then NotFound, then reserved (BadRequest "Cannot edit a reserved ticket"), then owner; on success only title and price are replaced |
| `Catalog.UpdateTicket` | tickets/src/routes/update-ticket.ts:67-94 | a passing edit is saved with the version plus one, and exactly one TicketUpdated with the saved version is published; a failing one changes and publishes nothing |
| `Catalog.UpdateThenShow` | tickets/src/routes/__test__/update-ticket.test.ts:108-146 | after an edit, reading the ticket returns the new title and price, the same owner, and the next version |
| `Catalog.ReleaseTicket` | tickets/src/events/listeners/order-cancelled-listener.ts:14-24 | looked up by ticket id only; missing gives "Ticket not found"; otherwise only the order id is cleared and the version is bumped |
| `Catalog.OnOrderCancelled` | tickets/src/events/listeners/order-cancelled-listener.ts:14-36 | save, then one TicketUpdated carrying the saved ticket's fields, then one ack; a throw leaves store, outbox and acks unchanged |
| `Orders.BuildTicket` | orders/src/models/ticket.ts:64-66 | a replica ticket is built from title and price, and satisfies the schema iff the title is non-empty and the price is at least 0 |
| `Orders.TicketJson` | orders/src/models/ticket.ts:55-61 | the rendered ticket has `id` equal to its id, no `_id`, and its title, price and version |
| `Orders.BuildOrder` | orders/src/models/order.ts:69-71 | attributes pass through unchanged, a missing status becomes Created, and the order is valid iff it has a user id |
| `Orders.OrderJson` | orders/src/models/order.ts:57-63 | the rendered order has `id`, no `_id`, its user id, status text, and ticket reference and expiry when present |
| `Orders.OrdersDb.SaveTicket` | orders/src/events/listeners/ticket-updated-listener.ts:53 | a replica ticket is written iff it satisfies the schema; otherwise a validation error, with nothing written |
| `Orders.OrdersDb.SaveOrder` | orders/src/routes/delete-order.ts:32 | the order is overwritten in place; the tickets are untouched |
| `Orders.ApplyTicketUpdated` | orders/src/events/listeners/ticket-updated-listener.ts:24-53 | no match gives "Ticket not found"; otherwise title, price and version are copied from the event onto that ticket alone, and the user id is ignored |
| `Orders.RedeliveredUpdateRejected` | orders/src/events/listeners/ticket-updated-listener.ts:24-51 | once an event is applied, the same event again finds no ticket and throws |
| `Orders.OutOfOrderUpdateRejected` | orders/src/events/listeners/__test__/ticket-updated-listener.test.ts:88-104 | an event whose version skips ahead or lags behind is refused |
| `Orders.OnTicketUpdated` | orders/src/events/listeners/ticket-updated-listener.ts:10-57 | on success the replica is updated and the message is acked exactly once; a throw leaves the store and the ack count unchanged |
| `Orders.CompleteOrder` | orders/src/events/listeners/payment-created-listener.ts:21-32 | looked up by order id only; missing gives "Order not found"; otherwise only the status becomes Complete |
| `Orders.PaymentCompletesCancelledOrder` | orders/src/events/listeners/payment-created-listener.ts:30-32 | even a cancelled order becomes Complete |
| `Orders.OnPaymentCreated` | orders/src/events/listeners/payment-created-listener.ts:15-56 | save, then one ack, and nothing published; a throw leaves store and acks unchanged |
| `Orders.ExpireOrder` | orders/src/events/listeners/expiration-complete-listener.ts:17-32 | missing gives "Order not found"; otherwise the local copy becomes Cancelled whatever its status, with the ticket reference kept |
| `Orders.OnExpirationComplete` | orders/src/events/listeners/expiration-complete-listener.ts:15-33 | throws iff the order is missing; the store and the message are never modified |
| `Orders.ExpiredOrderKeepsTicketReserved` | orders/src/events/listeners/__test__/expiration-complete-listener.test.ts:62-142 | after an expiration, a ticket held by a Created order is still reserved |
| `Orders.Holding` | orders/src/routes/new-order.ts:54-64 | the reservation query's statuses (Created, AwaitingPayment, Complete) are exactly the statuses other than Cancelled |
| `Orders.CancellingReleasesTicket` | orders/src/routes/delete-order.ts:31 | cancelling the only order holding a ticket leaves the ticket unreserved |
| `Orders.TicketIdErrors` | orders/src/routes/new-order.ts:20-26 | no error iff the ticket id is present, non-empty and a valid object id |
| `Orders.NewOrder` | orders/src/routes/new-order.ts:18-89 | checks run in order: auth, ticket id, NotFound, then reserved (BadRequest "Ticket is already reserved"); on passing it answers with nothing created |
| `Orders.CheckCancel` | orders/src/routes/delete-order.ts:15-31 | auth, then NotFound, then owner; on success the order with status Cancelled, whatever it was, and everything else kept |
| `Orders.CancelOrder` | orders/src/routes/delete-order.ts:19-36 | the owner's order is saved as cancelled and returned (204); on any failure the store is unchanged; nothing is published |
| `Orders.Populate` | orders/src/routes/show-order.ts:21 | the order comes with its referenced ticket, or none if the reference is missing or dangling |
| `Orders.ShowOrder` | orders/src/routes/show-order.ts:13-43 | auth, then NotFound, then owner; the owner gets the order with its ticket |
| `Orders.PopulateAll` | orders/src/routes/index-order.ts:12 | each found order gets its ticket, in the same order |
| `Orders.IndexOrders` | orders/src/routes/index-order.ts:7-14 | unauthenticated gives NotAuthorized; otherwise every listed order is the caller's, stored and populated, and every order of the caller is listed, once and in natural order (the populated `find` that `Orders.CreatedOrderListedLast` is about) |
| `Orders.CreatedOrderListedLast` | orders/src/routes/__test__/index-order.test.ts:77-83 | the caller's orders come back in creation order, each with its ticket |
| `Payments.BuildOrder` | payments/src/models/order.ts:77-88 | version, price and user id are copied, and the status receives the user id |
| `Payments.OrderJson` | payments/src/models/order.ts:67-73 | the rendered order has `id`, no `_id`, and its version, user id, price and status |
| `Payments.BuildPayment` | payments/src/models/payment.ts:69-71 | attributes pass through unchanged, and the payment is valid iff both order id and charge id are non-empty |
| `Payments.PaymentJson` | payments/src/models/payment.ts:60-65 | the rendered payment has `id`, no `_id`, its order id and its charge id, and no version |
| `Payments.PaymentsDb.CreateOrder` | payments/src/events/listeners/order-created-listener.ts:22 | the schema is checked first, then the id must be free; on a refusal nothing is written |
| `Payments.PaymentsDb.SaveOrder` | payments/src/events/listeners/order-cancelled-listener.ts:56 | the order is overwritten in place; the payments are untouched |
| `Payments.ReplicateOrder` | payments/src/events/listeners/order-created-listener.ts:13-22 | with no check of its own, the replica is stored under the event's id with the event's version, the ticket's price, and the user id (also as status); it fails only on a missing user id or a taken id |
| `Payments.OnOrderCreated` | payments/src/events/listeners/order-created-listener.ts:10-24 | save, then one ack, and nothing published; a refusal throws with store and acks unchanged |
| `Payments.CancelReplica` | payments/src/events/listeners/order-cancelled-listener.ts:24-56 | no match gives "Order not found"; otherwise only the status becomes "cancelled", whatever it was |
| `Payments.RedeliveredCancelIsIdempotent` | payments/src/events/listeners/order-cancelled-listener.ts:42-56 | applying the same cancel twice leaves the store as applying it once |
| `Payments.OnOrderCancelled` | payments/src/events/listeners/order-cancelled-listener.ts:15-59 | save, then one ack; a throw leaves store and acks unchanged |
| `Payments.ChargeErrors` | payments/src/routes/new-charge.ts:18 | token and order id are each flagged iff missing or empty |
| `Payments.NewCharge` | payments/src/routes/new-charge.ts:17-56 | checks run in order: auth, body, NotFound, owner, then not cancelled (BadRequest "Cannot pay for an cancelled order"); the first failure wins, and on passing nothing is stored |
| `Payments.ChargeRefusedAfterCancel` | payments/src/routes/new-charge.ts:36-40 | after an applied cancel, the owner's charge is refused as cancelled |
| `Payments.ReplicatedOrderChargeable` | payments/src/models/order.ts:86 | a freshly replicated order passes the owner's charge iff the user id is not "cancelled" |
| `Password.Hex` | auth/src/services/password.ts:19 | hex text is two lowercase hex digits per byte, so it never contains "." |
| `Password.HexInjective` | auth/src/services/password.ts:30 | equal hex text means equal bytes |
| `Password.Split` | auth/src/services/password.ts:26 | split always gives at least one part, and no part contains the separator |
| `Password.JoinSplit` | auth/src/services/password.ts:26 | rejoining the parts with the separator gives the text back |
| `Password.ToHash` | auth/src/services/password.ts:10-19 | 128 hex characters of the 64-byte key, then ".", then the 16-hex-character salt that the key was derived with |
| `Password.Compare` | auth/src/services/password.ts:22-30 | text without "." throws (the salt is undefined); otherwise true iff the hex of the key derived under the second part equals the first part |
| `Password.SplitToHash` | auth/src/services/password.ts:19-26 | splitting stored text recovers exactly the hash and the salt that were joined |
| `Password.CompareToHash` | auth/src/services/password.ts:17-30 | a stored password matches the password it was made from |
| `Password.CompareIff` | auth/src/services/password.ts:28-30 | a supplied password matches iff scrypt gives it the same key as the original under the stored salt |

## Left out

- The broker itself is not modelled: connections, redelivery after the ack wait, queue-group load balancing and durable replay. A message records only how often it was acked.
- The database is an in-memory map. Queries, indexes, casting of ids (a malformed id makes `findById` throw a cast error) and the `__v` version key are not modelled. Ids are plain strings.
- `JSON.stringify` is kept abstract: a published payload is the event data it serialises. `JSON.parse` is a function parameter.
- scrypt, `randomBytes` and `ObjectId.isValid` are parameters. The random salt bytes are an argument of `Password.ToHash`.
- The HTTP layer is not modelled: response status codes appear only in comments, and a route's answer is its result value. Log lines (`console.log` in the listener callback and in the publish callback) are left out.
- The string values of `OrderStatus` and the event subjects come from the shared library package, which is not part of this model. `Common.StatusText` uses the usual lower-case values of that library (`created`, `awaiting:payment`, `complete`, `cancelled`).
- The concrete listener and publisher subclasses are not modelled separately. They only fix a subject and a queue group name; `Catalog` creates its TicketUpdated publisher directly.
- Tickets replicated into the orders service by TicketCreated are not modelled, because that handler is empty. Only `Orders.BuildTicket` and the update path are modelled.
- `Orders.OrdersDb.SaveOrder` and `Payments.PaymentsDb.SaveOrder` require a document that already satisfies its schema, instead of returning a validation error. Their callers change only the status of a stored, valid order, so the schema check cannot fail there.
- Catalog.UpdateTicket and Catalog.OnOrderCancelled: interleaving at `await` points is not modelled. The read (`tickets/src/routes/update-ticket.ts:28`, `tickets/src/events/listeners/order-cancelled-listener.ts:14`) and the save (`update-ticket.ts:75`, `order-cancelled-listener.ts:24`) are one step, so these handlers never meet the version conflict that another writer saving in between would cause; in the code that save throws, and nothing is published or acked. `Catalog.ConcurrentSavesOneWins` states that conflict for the save alone.
- Payments.BuildOrder, Payments.OrderJson, Payments.FindByEvent and Payments.RedeliveredCancelIsIdempotent rest on a stored order version that the payments schema has no path for. As written, the version would be dropped on build and absent from the JSON, and the cancel lookup would not compare versions.
- Utf8.DecodeEncode and Bus.TextAndBytesParseAlike are stated over Unicode scalar values. A JavaScript string can also hold an unpaired UTF-16 surrogate, which `Buffer` encodes as U+FFFD, so such a string would not round-trip. The payloads here come from `JSON.stringify`, whose output is always well-formed.
- `Orders.OnExpirationComplete` returns only the outcome. The in-memory cancelled copy is computed and then dropped, exactly as the handler drops it.
- Payments' price and tickets' price are real numbers; the floating point of JavaScript numbers is not modelled.
