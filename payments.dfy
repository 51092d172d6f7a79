/**
 * The payments service: its replica of orders (created from OrderCreated, cancelled by a
 * version-guarded OrderCancelled), the payment record, and the charge route's checks.
 */
module Payments {
  import opened Wrappers
  import opened Collections
  import opened Common
  import opened Bus

  /** The payments service's copy of an order. The status is stored as plain text. */
  datatype Order = Order(version: int, userId: Id, price: real, status: string)

  /** What building an order replica takes; `id` becomes the document's _id. */
  datatype OrderAttrs = OrderAttrs(id: Id, version: int, userId: Id, price: real, status: OrderStatus)

  /** The order schema: user id and status are required strings (the price is always there). */
  predicate ValidOrder(o: Order) {
    o.userId != "" && o.status != ""
  }

  /**
   * `Order.build` as written: version, price and user id are copied, but the status field
   * receives the user id; the status passed in is dropped.
   */
  function BuildOrder(attrs: OrderAttrs): (o: Order)
    ensures o.version == attrs.version && o.price == attrs.price && o.userId == attrs.userId
    ensures o.status == attrs.userId
    ensures ValidOrder(o) <==> attrs.userId != ""
  {
    Order(attrs.version, attrs.userId, attrs.price, attrs.userId)
  }

  /** The JSON a stored order replica is sent as. */
  function OrderJson(id: Id, o: Order): (out: JsonObject)
    ensures "_id" !in out && "id" in out && out["id"] == JString(id)
    ensures out.Keys == {"id", "version", "userId", "price", "status"}
    ensures out["version"] == JInt(o.version) && out["userId"] == JString(o.userId)
    ensures out["price"] == JNumber(o.price) && out["status"] == JString(o.status)
  {
    RenameId(map["_id" := JString(id), "version" := JInt(o.version), "userId" := JString(o.userId),
                 "price" := JNumber(o.price), "status" := JString(o.status)])
  }

  /** A payment: which order it settles and the payment gateway's charge id. It has no version. */
  datatype Payment = Payment(orderId: Id, stripeId: string)

  datatype PaymentAttrs = PaymentAttrs(orderId: Id, stripeId: string)

  /** The payment schema: both fields are required. */
  predicate ValidPayment(p: Payment) {
    p.orderId != "" && p.stripeId != ""
  }

  /** `Payment.build`: the attributes passed through unchanged. */
  function BuildPayment(attrs: PaymentAttrs): (p: Payment)
    ensures p.orderId == attrs.orderId && p.stripeId == attrs.stripeId
    ensures ValidPayment(p) <==> attrs.orderId != "" && attrs.stripeId != ""
  {
    Payment(attrs.orderId, attrs.stripeId)
  }

  /** The JSON a stored payment is sent as. */
  function PaymentJson(id: Id, p: Payment): (out: JsonObject)
    ensures "_id" !in out && "id" in out && out["id"] == JString(id)
    ensures out.Keys == {"id", "orderId", "stripeId"}
    ensures out["orderId"] == JString(p.orderId) && out["stripeId"] == JString(p.stripeId)
  {
    RenameId(map["_id" := JString(id), "orderId" := JString(p.orderId), "stripeId" := JString(p.stripeId)])
  }

  /** The payments service's collections. Every stored document satisfies its schema. */
  class PaymentsDb {
    var orders: Collection<Order>
    var payments: Collection<Payment>

    ghost predicate Valid()
      reads this
    {
      && orders.Valid() && payments.Valid()
      && (forall id :: id in orders.docs ==> ValidOrder(orders.docs[id]))
      && (forall id :: id in payments.docs ==> ValidPayment(payments.docs[id]))
    }

    constructor ()
      ensures Valid() && orders == Empty() && payments == Empty()
    {
      orders := Empty();
      payments := Empty();
    }

    /** Saving a new order: the schema is checked first, then the _id must be free. */
    method CreateOrder(id: Id, o: Order) returns (r: Result<Order, DbError>)
      requires Valid()
      modifies this
      ensures Valid() && payments == old(payments)
      ensures !ValidOrder(o) ==> r == Failure(ValidationError) && orders == old(orders)
      ensures ValidOrder(o) && id in old(orders.docs) ==> r == Failure(DuplicateKey(id)) && orders == old(orders)
      ensures ValidOrder(o) && id !in old(orders.docs) ==>
        r == Success(o) && orders == Collections.Insert(old(orders), id, o).value
    {
      if !ValidOrder(o) {
        return Failure(ValidationError);
      }
      var inserted := Collections.Insert(orders, id, o);
      if inserted.Failure? {
        return Failure(inserted.error);
      }
      orders := inserted.value;
      return Success(o);
    }

    /** Saving an order read earlier whose schema fields are still satisfied. */
    method SaveOrder(id: Id, o: Order)
      requires Valid() && id in orders.docs && ValidOrder(o)
      modifies this
      ensures Valid() && payments == old(payments)
      ensures orders == Replace(old(orders), id, o)
    {
      orders := Replace(orders, id, o);
    }
  }

  // ---------------------------------------------------------------------------------------
  // OrderCreated: unconditional replication.

  function ReplicaAttrs(data: OrderCreatedData): OrderAttrs {
    OrderAttrs(data.id, data.version, data.userId, data.ticket.price, data.status)
  }

  /**
   * The OrderCreated listener's effect: the built replica inserted under the event's id,
   * with no existence or version check of its own; the store refuses an invalid document or
   * a taken id, and the handler then throws.
   */
  function ReplicateOrder(c: Collection<Order>, data: OrderCreatedData): (r: Result<Collection<Order>, string>)
    requires c.Valid()
    ensures r.Success? <==> data.userId != "" && data.id !in c.docs
    ensures r.Success? ==>
      && r.value.Valid() && r.value.ids == c.ids + [data.id]
      && r.value.docs == c.docs[data.id := Order(data.version, data.userId, data.ticket.price, data.userId)]
  {
    var order := BuildOrder(ReplicaAttrs(data));
    if !ValidOrder(order) then Failure("Order validation failed")
    else match Collections.Insert(c, data.id, order)
      case Failure(_) => Failure("Duplicate key")
      case Success(c') => Success(c')
  }

  /** OrderCreated in payments: build, save, ack once. Nothing is published. */
  method OnOrderCreated(db: PaymentsDb, data: OrderCreatedData, msg: Message) returns (outcome: Outcome)
    requires db.Valid()
    modifies db, msg
    ensures db.Valid() && db.payments == old(db.payments)
    ensures ReplicateOrder(old(db.orders), data).Failure? ==>
      && outcome == Threw(ReplicateOrder(old(db.orders), data).error)
      && db.orders == old(db.orders) && msg.acks == old(msg.acks)
    ensures ReplicateOrder(old(db.orders), data).Success? ==>
      outcome == Done && db.orders == ReplicateOrder(old(db.orders), data).value && msg.acks == old(msg.acks) + 1
  {
    var order := BuildOrder(ReplicaAttrs(data));
    var saved := db.CreateOrder(data.id, order);
    if saved.Failure? {
      return Threw(if saved.error == ValidationError then "Order validation failed" else "Duplicate key");
    }
    msg.Ack();
    return Done;
  }

  // ---------------------------------------------------------------------------------------
  // OrderCancelled: version-guarded.

  function OrderVersion(o: Order): int { o.version }

  /** The order with the event's id whose stored version is one below the event's. */
  function FindByEvent(c: Collection<Order>, data: OrderCancelledData): Option<Order> {
    FindPrevious(c, OrderVersion, data.id, data.version)
  }

  /**
   * The OrderCancelled listener's effect: the matching order's status becomes "cancelled",
   * whatever it was; price, user id and version stay. No match throws "Order not found".
   */
  function CancelReplica(c: Collection<Order>, data: OrderCancelledData): (r: Result<Collection<Order>, string>)
    requires c.Valid()
    ensures r.Failure? <==> FindByEvent(c, data).None?
    ensures r.Failure? ==> r.error == "Order not found"
    ensures r.Success? ==>
      && r.value.Valid() && r.value.ids == c.ids
      && r.value.docs == c.docs[data.id := c.docs[data.id].(status := StatusText(Cancelled))]
  {
    match FindByEvent(c, data)
    case None => Failure("Order not found")
    case Some(order) => Success(Replace(c, data.id, order.(status := StatusText(Cancelled))))
  }

  /**
   * The save does not move the version on, so the same OrderCancelled delivered again
   * matches again; applying it twice leaves the store as applying it once.
   */
  lemma RedeliveredCancelIsIdempotent(c: Collection<Order>, data: OrderCancelledData)
    requires c.Valid() && CancelReplica(c, data).Success?
    ensures CancelReplica(CancelReplica(c, data).value, data) == CancelReplica(c, data)
  {
    var once := CancelReplica(c, data).value;
    assert once.docs[data.id].version == c.docs[data.id].version;
    assert once.docs[data.id := once.docs[data.id].(status := StatusText(Cancelled))] == once.docs;
  }

  /** OrderCancelled in payments: guarded find, status set to cancelled, save, then ack once. */
  method OnOrderCancelled(db: PaymentsDb, data: OrderCancelledData, msg: Message) returns (outcome: Outcome)
    requires db.Valid()
    modifies db, msg
    ensures db.Valid() && db.payments == old(db.payments)
    ensures CancelReplica(old(db.orders), data).Failure? ==>
      && outcome == Threw(CancelReplica(old(db.orders), data).error)
      && db.orders == old(db.orders) && msg.acks == old(msg.acks)
    ensures CancelReplica(old(db.orders), data).Success? ==>
      outcome == Done && db.orders == CancelReplica(old(db.orders), data).value && msg.acks == old(msg.acks) + 1
  {
    var order := FindByEvent(db.orders, data);
    if order.None? {
      return Threw("Order not found");
    }
    db.SaveOrder(data.id, order.value.(status := StatusText(Cancelled)));
    msg.Ack();
    return Done;
  }

  // ---------------------------------------------------------------------------------------
  // POST /api/payments

  /** `body('token').not().isEmpty()` and `body('orderId').not().isEmpty()`, in that order. */
  function ChargeErrors(token: Option<string>, orderId: Option<string>): (fields: seq<string>)
    ensures "token" in fields <==> !Present(token)
    ensures "orderId" in fields <==> !Present(orderId)
    ensures fields == [] <==> Present(token) && Present(orderId)
  {
    (if Present(token) then [] else ["token"]) + (if Present(orderId) then [] else ["orderId"])
  }

  /**
   * POST /api/payments as written: signed in, a token and an order id, then the order must
   * exist, belong to the caller and not be cancelled, the first failing check deciding the
   * answer. On passing it answers {success: true}; nothing is charged or stored.
   */
  function NewCharge(c: Collection<Order>, user: CurrentUser, token: Option<string>, orderId: Option<string>): (r: Result<(), HttpError>)
    ensures user.None? ==> r == Failure(NotAuthorized)
    ensures user.Some? && ChargeErrors(token, orderId) != [] ==> r == Failure(RequestValidation(ChargeErrors(token, orderId)))
    ensures user.Some? && ChargeErrors(token, orderId) == [] && orderId.value !in c.docs ==> r == Failure(NotFound)
    ensures (user.Some? && ChargeErrors(token, orderId) == [] && orderId.value in c.docs
      && c.docs[orderId.value].userId != user.value) ==> r == Failure(NotAuthorized)
    ensures (user.Some? && ChargeErrors(token, orderId) == [] && orderId.value in c.docs
      && c.docs[orderId.value].userId == user.value && c.docs[orderId.value].status == StatusText(Cancelled))
      ==> r == Failure(BadRequest("Cannot pay for an cancelled order"))
    ensures r.Success? <==>
      && user.Some? && ChargeErrors(token, orderId) == [] && orderId.value in c.docs
      && c.docs[orderId.value].userId == user.value && c.docs[orderId.value].status != StatusText(Cancelled)
  {
    if user.None? then Failure(NotAuthorized)
    else if ChargeErrors(token, orderId) != [] then Failure(RequestValidation(ChargeErrors(token, orderId)))
    else match FindById(c, orderId.value)
      case None => Failure(NotFound)
      case Some(order) =>
        if order.userId != user.value then Failure(NotAuthorized)
        else if order.status == StatusText(Cancelled) then Failure(BadRequest("Cannot pay for an cancelled order"))
        else Success(())
  }

  /** Once an OrderCancelled has been applied, its owner's charge is refused as cancelled. */
  lemma ChargeRefusedAfterCancel(c: Collection<Order>, data: OrderCancelledData, token: string)
    requires c.Valid() && CancelReplica(c, data).Success? && token != "" && data.id != ""
    ensures var owner := c.docs[data.id].userId;
      NewCharge(CancelReplica(c, data).value, Some(owner), Some(token), Some(data.id))
        == Failure(BadRequest("Cannot pay for an cancelled order"))
  {
    assert ChargeErrors(Some(token), Some(data.id)) == [];
  }

  /**
   * Because the built replica carries the user id as its status, a freshly replicated order
   * is refused as cancelled exactly when its owner's id is the text "cancelled".
   */
  lemma ReplicatedOrderChargeable(c: Collection<Order>, data: OrderCreatedData, token: string)
    requires c.Valid() && ReplicateOrder(c, data).Success? && token != "" && data.id != ""
    ensures NewCharge(ReplicateOrder(c, data).value, Some(data.userId), Some(token), Some(data.id)).Success?
        <==> data.userId != StatusText(Cancelled)
  {
  }
}
