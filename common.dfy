/**
 * The vocabulary the services share through their common library: order statuses, event
 * subjects and payloads, the errors a route can answer with, and the JSON shape a stored
 * document is rendered in.
 */
module Common {
  import opened Wrappers
  import opened Collections

  datatype OrderStatus = Created | AwaitingPayment | Complete | Cancelled

  /** The string each status is stored and sent as. */
  function StatusText(s: OrderStatus): string
  {
    match s
    case Created => "created"
    case AwaitingPayment => "awaiting:payment"
    case Complete => "complete"
    case Cancelled => "cancelled"
  }

  datatype Subject =
    | TicketCreated | TicketUpdated | OrderCreated | OrderCancelled | ExpirationComplete | PaymentCreated

  // Event payloads, with the fields the handlers read or the publishers send.
  datatype TicketUpdatedData =
    TicketUpdatedData(id: Id, version: int, title: string, price: real, userId: Id, orderId: Option<Id>)
  datatype TicketSummary = TicketSummary(id: Id, price: real)
  datatype OrderCreatedData =
    OrderCreatedData(id: Id, version: int, status: OrderStatus, userId: Id, expiresAt: string, ticket: TicketSummary)
  datatype OrderCancelledData = OrderCancelledData(id: Id, version: int, ticketId: Id)
  datatype PaymentCreatedData = PaymentCreatedData(id: Id, orderId: Id, stripeId: string)
  datatype ExpirationCompleteData = ExpirationCompleteData(orderId: Id)

  /** Any event payload, tagged with its kind. */
  datatype EventData =
    | TicketUpdatedEvent(ticketUpdated: TicketUpdatedData)
    | OrderCreatedEvent(orderCreated: OrderCreatedData)
    | OrderCancelledEvent(orderCancelled: OrderCancelledData)
    | PaymentCreatedEvent(paymentCreated: PaymentCreatedData)
    | ExpirationCompleteEvent(expirationComplete: ExpirationCompleteData)

  /** What a route answers with when a check fails. */
  datatype HttpError =
    | NotAuthorized
    | NotFound
    | BadRequest(reason: string)
    | RequestValidation(fields: seq<string>)
    | StoreFailure(cause: DbError)

  /** The caller as `requireAuth` sees it: the signed-in user's id, or nobody. */
  type CurrentUser = Option<Id>

  /** `requireAuth`: a request without a signed-in user is refused before anything else runs. */
  function RequireAuth(user: CurrentUser): (r: Result<Id, HttpError>)
    ensures r.Success? <==> user.Some?
    ensures r.Success? ==> r.value == user.value
    ensures r.Failure? ==> r.error == NotAuthorized
  {
    if user.None? then Failure(NotAuthorized) else Success(user.value)
  }

  /** `body(f).not().isEmpty()`: a missing field counts as empty. */
  predicate Present(field: Option<string>) {
    field.Some? && field.value != ""
  }

  datatype JsonValue = JString(str: string) | JNumber(num: real) | JInt(integer: int) | JDate(millis: int)

  type JsonObject = map<string, JsonValue>

  /**
   * The `toJSON` transform every model installs: the stored `_id` is exposed as `id` and
   * `_id` itself is dropped. When there is no `_id`, `id` is set to undefined, which
   * serialisation omits.
   */
  function RenameId(ret: JsonObject): (out: JsonObject)
    ensures "_id" !in out
    ensures "_id" in ret ==> "id" in out && out["id"] == ret["_id"]
    ensures "_id" !in ret ==> "id" !in out
    ensures forall k :: k != "id" && k != "_id" ==> (k in out <==> k in ret)
    ensures forall k :: k in out && k != "id" ==> k in ret && out[k] == ret[k]
  {
    if "_id" in ret then (ret - {"_id"})["id" := ret["_id"]] else ret - {"id"}
  }

  /** The object a `toJSON` transform receives and edits in place. */
  class JsonRet {
    var fields: JsonObject

    constructor (fields: JsonObject)
      ensures this.fields == fields
    {
      this.fields := fields;
    }

    /** The transform: copy `_id` into `id`, then delete `_id`. */
    method RenameIdInPlace()
      modifies this
      ensures fields == RenameId(old(fields))
    {
      if "_id" in fields {
        fields := fields["id" := fields["_id"]];
      } else {
        fields := fields - {"id"};
      }
      fields := fields - {"_id"};
    }
  }
}
