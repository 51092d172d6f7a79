/**
 * The orders service: its replica of the catalog's tickets (kept in step by TicketUpdated
 * events, applied only in version order), its orders and their statuses, the listeners that
 * complete or expire an order, and the routes that check, cancel, show and list orders.
 */
module Orders {
  import opened Wrappers
  import opened Collections
  import opened Common
  import opened Bus

  /** The orders service's copy of a ticket: only what ordering needs. */
  datatype Ticket = Ticket(title: string, price: real, version: int)

  /** What building a replica ticket takes. */
  datatype TicketAttrs = TicketAttrs(title: string, price: real)

  /** The ticket schema: a title is required and the price may not be negative. */
  predicate ValidTicket(t: Ticket) {
    t.title != "" && t.price >= 0.0
  }

  /** `Ticket.build`: the attributes as given (the version starts at 0). */
  function BuildTicket(attrs: TicketAttrs): (t: Ticket)
    ensures t.title == attrs.title && t.price == attrs.price && t.version == 0
    ensures ValidTicket(t) <==> attrs.title != "" && attrs.price >= 0.0
  {
    Ticket(attrs.title, attrs.price, 0)
  }

  /** An order. `ticket` is a reference: the id of a replica ticket. */
  datatype Order = Order(userId: Id, status: OrderStatus, expiresAt: Option<int>, ticket: Option<Id>)

  /** What building an order takes; a status that is not supplied falls back to the schema default. */
  datatype OrderAttrs = OrderAttrs(userId: Id, status: Option<OrderStatus>, expiresAt: Option<int>, ticket: Option<Id>)

  /** The order schema: a user id is required (the status is always one of the enum values). */
  predicate ValidOrder(o: Order) {
    o.userId != ""
  }

  /** `Order.build`: the attributes passed through, with status defaulting to Created. */
  function BuildOrder(attrs: OrderAttrs): (o: Order)
    ensures o.userId == attrs.userId && o.expiresAt == attrs.expiresAt && o.ticket == attrs.ticket
    ensures attrs.status.Some? ==> o.status == attrs.status.value
    ensures attrs.status.None? ==> o.status == Created
    ensures ValidOrder(o) <==> attrs.userId != ""
  {
    Order(attrs.userId, attrs.status.GetOr(Created), attrs.expiresAt, attrs.ticket)
  }

  /** The JSON a stored replica ticket is sent as. */
  function TicketJson(id: Id, t: Ticket): (out: JsonObject)
    ensures "_id" !in out && "id" in out && out["id"] == JString(id)
    ensures out.Keys == {"id", "title", "price", "version"}
    ensures out["title"] == JString(t.title) && out["price"] == JNumber(t.price) && out["version"] == JInt(t.version)
  {
    RenameId(map["_id" := JString(id), "title" := JString(t.title), "price" := JNumber(t.price), "version" := JInt(t.version)])
  }

  /** The JSON a stored order is sent as; absent optional fields are omitted. */
  function OrderJson(id: Id, o: Order): (out: JsonObject)
    ensures "_id" !in out && "id" in out && out["id"] == JString(id)
    ensures "userId" in out && out["userId"] == JString(o.userId)
    ensures "status" in out && out["status"] == JString(StatusText(o.status))
    ensures "ticket" in out <==> o.ticket.Some?
    ensures o.ticket.Some? ==> out["ticket"] == JString(o.ticket.value)
    ensures "expiresAt" in out <==> o.expiresAt.Some?
    ensures o.expiresAt.Some? ==> out["expiresAt"] == JDate(o.expiresAt.value)
  {
    var ret := map["_id" := JString(id), "userId" := JString(o.userId), "status" := JString(StatusText(o.status))];
    var ret := if o.ticket.Some? then ret["ticket" := JString(o.ticket.value)] else ret;
    var ret := if o.expiresAt.Some? then ret["expiresAt" := JDate(o.expiresAt.value)] else ret;
    RenameId(ret)
  }

  /** The orders service's two collections. Every stored document satisfies its schema. */
  class OrdersDb {
    var tickets: Collection<Ticket>
    var orders: Collection<Order>

    ghost predicate Valid()
      reads this
    {
      && tickets.Valid() && orders.Valid()
      && (forall id :: id in tickets.docs ==> ValidTicket(tickets.docs[id]))
      && (forall id :: id in orders.docs ==> ValidOrder(orders.docs[id]))
    }

    constructor ()
      ensures Valid() && tickets == Empty() && orders == Empty()
    {
      tickets := Empty();
      orders := Empty();
    }

    /** Saving a ticket read earlier: validated, then written over the stored copy. */
    method SaveTicket(id: Id, t: Ticket) returns (r: Result<Ticket, DbError>)
      requires Valid() && id in tickets.docs
      modifies this
      ensures Valid() && orders == old(orders)
      ensures r.Success? <==> ValidTicket(t)
      ensures r.Success? ==> r.value == t && tickets == Replace(old(tickets), id, t)
      ensures r.Failure? ==> r.error == ValidationError && tickets == old(tickets)
    {
      if !ValidTicket(t) {
        return Failure(ValidationError);
      }
      tickets := Replace(tickets, id, t);
      return Success(t);
    }

    /** Saving an order read earlier whose schema fields are still satisfied. */
    method SaveOrder(id: Id, o: Order)
      requires Valid() && id in orders.docs && ValidOrder(o)
      modifies this
      ensures Valid() && tickets == old(tickets)
      ensures orders == Replace(old(orders), id, o)
    {
      orders := Replace(orders, id, o);
    }
  }

  // ---------------------------------------------------------------------------------------
  // TicketUpdated: applied only on top of the version just before it.

  function TicketVersion(t: Ticket): int { t.version }

  /** `Ticket.findByEvent`: the ticket with the event's id whose stored version is one below the event's. */
  function FindByEvent(c: Collection<Ticket>, data: TicketUpdatedData): Option<Ticket> {
    FindPrevious(c, TicketVersion, data.id, data.version)
  }

  /**
   * The TicketUpdated listener's effect on the replica: title, price and version copied from
   * the event onto the matching ticket. No match throws "Ticket not found"; a copy the
   * schema refuses throws when saved.
   */
  function ApplyTicketUpdated(c: Collection<Ticket>, data: TicketUpdatedData): (r: Result<(Collection<Ticket>, Ticket), string>)
    requires c.Valid()
    ensures FindByEvent(c, data).None? ==> r == Failure("Ticket not found")
    ensures r.Success? <==> FindByEvent(c, data).Some? && ValidTicket(Ticket(data.title, data.price, data.version))
    ensures r.Success? ==>
      && r.value.1 == Ticket(data.title, data.price, data.version)
      && r.value.0.Valid() && r.value.0.ids == c.ids && r.value.0.docs == c.docs[data.id := r.value.1]
  {
    match FindByEvent(c, data)
    case None => Failure("Ticket not found")
    case Some(ticket) =>
      var updated := ticket.(title := data.title, price := data.price, version := data.version);
      if ValidTicket(updated) then Success((Replace(c, data.id, updated), updated))
      else Failure("Ticket validation failed")
  }

  /** Once an event is applied, delivering the same event again finds no ticket and throws. */
  lemma RedeliveredUpdateRejected(c: Collection<Ticket>, data: TicketUpdatedData)
    requires c.Valid() && ApplyTicketUpdated(c, data).Success?
    ensures ApplyTicketUpdated(ApplyTicketUpdated(c, data).value.0, data) == Failure("Ticket not found")
  {
  }

  /** An event that skips a version (or repeats an old one) is refused. */
  lemma OutOfOrderUpdateRejected(c: Collection<Ticket>, data: TicketUpdatedData)
    requires c.Valid() && data.id in c.docs && c.docs[data.id].version != data.version - 1
    ensures ApplyTicketUpdated(c, data) == Failure("Ticket not found")
  {
  }

  /**
   * TicketUpdated in the orders service: find by event, copy title, price and version, save,
   * then ack once. Any throw leaves the store and the message as they were.
   */
  method OnTicketUpdated(db: OrdersDb, data: TicketUpdatedData, msg: Message) returns (outcome: Outcome)
    requires db.Valid()
    modifies db, msg
    ensures db.Valid() && db.orders == old(db.orders)
    ensures ApplyTicketUpdated(old(db.tickets), data).Failure? ==>
      && outcome == Threw(ApplyTicketUpdated(old(db.tickets), data).error)
      && db.tickets == old(db.tickets) && msg.acks == old(msg.acks)
    ensures ApplyTicketUpdated(old(db.tickets), data).Success? ==>
      outcome == Done && db.tickets == ApplyTicketUpdated(old(db.tickets), data).value.0 && msg.acks == old(msg.acks) + 1
  {
    var ticket := FindByEvent(db.tickets, data);
    if ticket.None? {
      return Threw("Ticket not found");
    }
    var updated := ticket.value.(title := data.title, price := data.price, version := data.version);
    var saved := db.SaveTicket(data.id, updated);
    if saved.Failure? {
      return Threw("Ticket validation failed");
    }
    msg.Ack();
    return Done;
  }

  // ---------------------------------------------------------------------------------------
  // Status changes driven by events. None of them looks at the status the order had.

  /** The PaymentCreated listener's effect: the order, whatever its status, becomes Complete. */
  function CompleteOrder(c: Collection<Order>, data: PaymentCreatedData): (r: Result<(Collection<Order>, Order), string>)
    requires c.Valid()
    ensures r.Failure? <==> data.orderId !in c.docs
    ensures r.Failure? ==> r.error == "Order not found"
    ensures r.Success? ==>
      && r.value.1 == c.docs[data.orderId].(status := Complete)
      && r.value.0.Valid() && r.value.0.ids == c.ids && r.value.0.docs == c.docs[data.orderId := r.value.1]
  {
    match FindById(c, data.orderId)
    case None => Failure("Order not found")
    case Some(order) =>
      var completed := order.(status := Complete);
      Success((Replace(c, data.orderId, completed), completed))
  }

  /** Even a cancelled order is completed by a payment. */
  lemma PaymentCompletesCancelledOrder(c: Collection<Order>, data: PaymentCreatedData)
    requires c.Valid() && data.orderId in c.docs && c.docs[data.orderId].status == Cancelled
    ensures CompleteOrder(c, data).Success?
    ensures CompleteOrder(c, data).value.0.docs[data.orderId].status == Complete
  {
  }

  /** PaymentCreated: find the order by id, mark it Complete, save, ack once. Nothing is published. */
  method OnPaymentCreated(db: OrdersDb, data: PaymentCreatedData, msg: Message) returns (outcome: Outcome)
    requires db.Valid()
    modifies db, msg
    ensures db.Valid() && db.tickets == old(db.tickets)
    ensures CompleteOrder(old(db.orders), data).Failure? ==>
      && outcome == Threw(CompleteOrder(old(db.orders), data).error)
      && db.orders == old(db.orders) && msg.acks == old(msg.acks)
    ensures CompleteOrder(old(db.orders), data).Success? ==>
      outcome == Done && db.orders == CompleteOrder(old(db.orders), data).value.0 && msg.acks == old(msg.acks) + 1
  {
    var order := FindById(db.orders, data.orderId);
    if order.None? {
      return Threw("Order not found");
    }
    var completed := order.value.(status := Complete);
    db.SaveOrder(data.orderId, completed);
    msg.Ack();
    return Done;
  }

  /**
   * The ExpirationComplete listener as written: the fetched order is marked Cancelled in
   * memory (its ticket reference kept), and that is all.
   */
  function ExpireOrder(c: Collection<Order>, data: ExpirationCompleteData): (r: Result<Order, string>)
    ensures r.Failure? <==> data.orderId !in c.docs
    ensures r.Failure? ==> r.error == "Order not found"
    ensures r.Success? ==> r.value == c.docs[data.orderId].(status := Cancelled)
  {
    match FindById(c, data.orderId)
    case None => Failure("Order not found")
    case Some(order) => Success(order.(status := Cancelled))
  }

  /**
   * ExpirationComplete: the handler changes only its local copy of the order. It saves
   * nothing, publishes nothing and never acks, so neither the store nor the message changes.
   */
  method OnExpirationComplete(db: OrdersDb, data: ExpirationCompleteData, msg: Message) returns (outcome: Outcome)
    ensures ExpireOrder(db.orders, data).Failure? <==> outcome.Threw?
    ensures outcome.Threw? ==> outcome.reason == "Order not found"
  {
    var order := FindById(db.orders, data.orderId);
    if order.None? {
      return Threw("Order not found");
    }
    var cancelled := order.value.(status := Cancelled);
    return Done;
  }

  /**
   * Because the expiration handler persists nothing, a ticket held by an expired, still
   * Created order stays reserved afterwards.
   */
  lemma ExpiredOrderKeepsTicketReserved(orders: Collection<Order>, data: ExpirationCompleteData, ticketId: Id)
    requires data.orderId in orders.docs
    requires orders.docs[data.orderId].status == Created && orders.docs[data.orderId].ticket == Some(ticketId)
    ensures ExpireOrder(orders, data).Success? && ExpireOrder(orders, data).value.status == Cancelled
    ensures IsReserved(orders, ticketId)
  {
    assert OrderHolds(orders, data.orderId, ticketId);
  }

  // ---------------------------------------------------------------------------------------
  // Routes.

  /** The statuses of the reservation query: every status but Cancelled. */
  function Holding(s: OrderStatus): (b: bool)
    ensures b <==> s != Cancelled
  {
    s == Created || s == AwaitingPayment || s == Complete
  }

  predicate OrderHolds(orders: Collection<Order>, orderId: Id, ticketId: Id) {
    orderId in orders.docs && orders.docs[orderId].ticket == Some(ticketId) && Holding(orders.docs[orderId].status)
  }

  /** `ticket.isReserved()`: some order refers to the ticket and is not cancelled. */
  predicate IsReserved(orders: Collection<Order>, ticketId: Id) {
    exists orderId :: orderId in orders.docs && OrderHolds(orders, orderId, ticketId)
  }

  /** Cancelling the only order that holds a ticket frees it. */
  lemma CancellingReleasesTicket(orders: Collection<Order>, orderId: Id, ticketId: Id)
    requires orders.Valid() && orderId in orders.docs
    requires forall other :: other != orderId ==> !OrderHolds(orders, other, ticketId)
    ensures !IsReserved(Replace(orders, orderId, orders.docs[orderId].(status := Cancelled)), ticketId)
  {
    var after := Replace(orders, orderId, orders.docs[orderId].(status := Cancelled));
    forall other ensures !OrderHolds(after, other, ticketId) {
      if other != orderId {
        assert !OrderHolds(orders, other, ticketId);
      }
    }
  }

  /** `body('ticketId').not().isEmpty().custom(ObjectId.isValid)`: one error per failing validator. */
  function TicketIdErrors(ticketId: Option<string>, isObjectId: string -> bool): (fields: seq<string>)
    ensures fields == [] <==> Present(ticketId) && isObjectId(ticketId.value)
    ensures forall i :: 0 <= i < |fields| ==> fields[i] == "ticketId"
  {
    var text := ticketId.GetOr("");
    (if Present(ticketId) then [] else ["ticketId"]) + (if isObjectId(text) then [] else ["ticketId"])
  }

  /**
   * POST /api/orders as written: signed in, a valid ticket id, a known ticket, not reserved;
   * then it answers with an empty object. No order is created and nothing is published.
   */
  function NewOrder(db: OrdersDb, user: CurrentUser, ticketId: Option<string>, isObjectId: string -> bool): (r: Result<(), HttpError>)
    reads db
    ensures user.None? ==> r == Failure(NotAuthorized)
    ensures user.Some? && TicketIdErrors(ticketId, isObjectId) != [] ==>
      r == Failure(RequestValidation(TicketIdErrors(ticketId, isObjectId)))
    ensures user.Some? && TicketIdErrors(ticketId, isObjectId) == [] && ticketId.value !in db.tickets.docs ==>
      r == Failure(NotFound)
    ensures (user.Some? && TicketIdErrors(ticketId, isObjectId) == [] && ticketId.value in db.tickets.docs
      && IsReserved(db.orders, ticketId.value)) ==> r == Failure(BadRequest("Ticket is already reserved"))
    ensures r.Success? <==>
      user.Some? && TicketIdErrors(ticketId, isObjectId) == [] && ticketId.value in db.tickets.docs
      && !IsReserved(db.orders, ticketId.value)
  {
    if user.None? then Failure(NotAuthorized)
    else if TicketIdErrors(ticketId, isObjectId) != [] then Failure(RequestValidation(TicketIdErrors(ticketId, isObjectId)))
    else if ticketId.value !in db.tickets.docs then Failure(NotFound)
    else if IsReserved(db.orders, ticketId.value) then Failure(BadRequest("Ticket is already reserved"))
    else Success(())
  }

  /** DELETE /api/orders/:orderId, up to the write: signed in, known order, owned by the caller. */
  function CheckCancel(c: Collection<Order>, user: CurrentUser, orderId: Id): (r: Result<Order, HttpError>)
    ensures user.None? ==> r == Failure(NotAuthorized)
    ensures user.Some? && orderId !in c.docs ==> r == Failure(NotFound)
    ensures user.Some? && orderId in c.docs && c.docs[orderId].userId != user.value ==> r == Failure(NotAuthorized)
    ensures r.Success? <==> user.Some? && orderId in c.docs && c.docs[orderId].userId == user.value
    ensures r.Success? ==> r.value == c.docs[orderId].(status := Cancelled)
  {
    if user.None? then Failure(NotAuthorized)
    else match FindById(c, orderId)
      case None => Failure(NotFound)
      case Some(order) =>
        if order.userId != user.value then Failure(NotAuthorized)
        else Success(order.(status := Cancelled))
  }

  /**
   * DELETE /api/orders/:orderId: the owner's order becomes Cancelled, whatever its status was,
   * and is saved and sent back with status 204. Nothing is published.
   */
  method CancelOrder(db: OrdersDb, user: CurrentUser, orderId: Id) returns (r: Result<Order, HttpError>)
    requires db.Valid()
    modifies db
    ensures db.Valid() && db.tickets == old(db.tickets)
    ensures CheckCancel(old(db.orders), user, orderId).Failure? ==>
      r == Failure(CheckCancel(old(db.orders), user, orderId).error) && db.orders == old(db.orders)
    ensures CheckCancel(old(db.orders), user, orderId).Success? ==>
      && r == Success(CheckCancel(old(db.orders), user, orderId).value)
      && db.orders == Replace(old(db.orders), orderId, r.value)
  {
    var checked := CheckCancel(db.orders, user, orderId);
    if checked.Failure? {
      return Failure(checked.error);
    }
    db.SaveOrder(orderId, checked.value);
    return Success(checked.value);
  }

  /** An order with its `ticket` reference populated: the ticket, or nothing when it is gone. */
  datatype OrderView = OrderView(id: Id, order: Order, ticket: Option<Ticket>)

  function Populate(tickets: Collection<Ticket>, id: Id, o: Order): (v: OrderView)
    ensures v.id == id && v.order == o
    ensures v.ticket.Some? <==> o.ticket.Some? && o.ticket.value in tickets.docs
    ensures v.ticket.Some? ==> v.ticket.value == tickets.docs[o.ticket.value]
  {
    OrderView(id, o, if o.ticket.Some? then FindById(tickets, o.ticket.value) else None)
  }

  /** GET /api/orders/:orderId: signed in, known order, owned by the caller; sent with its ticket. */
  function ShowOrder(db: OrdersDb, user: CurrentUser, orderId: Id): (r: Result<OrderView, HttpError>)
    reads db
    ensures user.None? ==> r == Failure(NotAuthorized)
    ensures user.Some? && orderId !in db.orders.docs ==> r == Failure(NotFound)
    ensures user.Some? && orderId in db.orders.docs && db.orders.docs[orderId].userId != user.value ==> r == Failure(NotAuthorized)
    ensures r.Success? <==> user.Some? && orderId in db.orders.docs && db.orders.docs[orderId].userId == user.value
    ensures r.Success? ==> r.value == Populate(db.tickets, orderId, db.orders.docs[orderId])
  {
    if user.None? then Failure(NotAuthorized)
    else match FindById(db.orders, orderId)
      case None => Failure(NotFound)
      case Some(order) =>
        if order.userId != user.value then Failure(NotAuthorized)
        else Success(Populate(db.tickets, orderId, order))
  }

  function PopulateAll(tickets: Collection<Ticket>, found: seq<(Id, Order)>): (views: seq<OrderView>)
    ensures |views| == |found|
    ensures forall i :: 0 <= i < |found| ==> views[i] == Populate(tickets, found[i].0, found[i].1)
  {
    seq(|found|, i requires 0 <= i < |found| => Populate(tickets, found[i].0, found[i].1))
  }

  function OwnedBy(userId: Id): Order -> bool {
    (o: Order) => o.userId == userId
  }

  /**
   * GET /api/orders: signed in; every order of the caller and no other, each with its
   * ticket, in the order the orders were created.
   */
  function IndexOrders(db: OrdersDb, user: CurrentUser): (r: Result<seq<OrderView>, HttpError>)
    reads db
    requires db.orders.Valid()
    ensures r.Failure? <==> user.None?
    ensures r.Failure? ==> r.error == NotAuthorized
    ensures r.Success? ==> forall i :: 0 <= i < |r.value| ==>
      && r.value[i].id in db.orders.docs && r.value[i].order == db.orders.docs[r.value[i].id]
      && r.value[i].order.userId == user.value
      && r.value[i] == Populate(db.tickets, r.value[i].id, r.value[i].order)
    ensures r.Success? ==> forall id :: id in db.orders.docs && db.orders.docs[id].userId == user.value ==>
      exists i :: 0 <= i < |r.value| && r.value[i].id == id
    ensures r.Success? ==> r.value == PopulateAll(db.tickets, Find(db.orders, OwnedBy(user.value)))
  {
    if user.None? then Failure(NotAuthorized)
    else
      var found := Find(db.orders, OwnedBy(user.value));
      forall x ensures x in found <==> x.0 in db.orders.docs && x.1 == db.orders.docs[x.0] && OwnedBy(user.value)(x.1) {
        FindMembership(db.orders, OwnedBy(user.value), x);
      }
      var views := PopulateAll(db.tickets, found);
      forall id | id in db.orders.docs && db.orders.docs[id].userId == user.value
        ensures exists i :: 0 <= i < |views| && views[i].id == id
      {
        var i :| 0 <= i < |found| && found[i] == (id, db.orders.docs[id]);
        assert views[i].id == id;
      }
      Success(views)
  }

  /** A newly created order of the caller comes last in the caller's list. */
  lemma {:induction false} CreatedOrderListedLast(tickets: Collection<Ticket>, orders: Collection<Order>, userId: Id, id: Id, o: Order)
    requires orders.Valid() && id !in orders.docs && o.userId == userId
    ensures var after := Collections.Insert(orders, id, o).value;
      PopulateAll(tickets, Find(after, OwnedBy(userId)))
        == PopulateAll(tickets, Find(orders, OwnedBy(userId))) + [Populate(tickets, id, o)]
  {
    FindAfterInsert(orders, id, o, OwnedBy(userId));
    var before := Find(orders, OwnedBy(userId));
    assert Find(Collections.Insert(orders, id, o).value, OwnedBy(userId)) == before + [(id, o)];
    var left := PopulateAll(tickets, before + [(id, o)]);
    var right := PopulateAll(tickets, before) + [Populate(tickets, id, o)];
    assert |left| == |right|;
    forall i | 0 <= i < |left| ensures left[i] == right[i] {
      if i < |before| {
        assert (before + [(id, o)])[i] == before[i];
      }
    }
  }
}
