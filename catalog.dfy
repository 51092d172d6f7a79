/**
 * The catalog (tickets) service: the authoritative ticket records, saved with an
 * optimistic-concurrency version check, the routes that create, show, list and edit them,
 * and the listener that releases a ticket when its order is cancelled.
 */
module Catalog {
  import opened Wrappers
  import opened Collections
  import opened Common
  import opened Bus

  /** A stored ticket. The presence of an order id marks it as reserved. */
  datatype Ticket = Ticket(title: string, price: real, userId: Id, orderId: Option<Id>, version: nat)

  /** What building a ticket takes: a title, a price and the owner, and no order id. */
  datatype TicketAttrs = TicketAttrs(title: string, price: real, userId: Id)

  /** `Ticket.build` followed by the first save: unreserved, at version 0. */
  function Build(attrs: TicketAttrs): (t: Ticket)
    ensures t.title == attrs.title && t.price == attrs.price && t.userId == attrs.userId
    ensures t.orderId.None? && !IsReserved(t) && t.version == 0
  {
    Ticket(attrs.title, attrs.price, attrs.userId, None, 0)
  }

  /** `if (ticket.orderId)`: reserved when an order id is present (and, being JavaScript, non-empty). */
  predicate IsReserved(t: Ticket) {
    t.orderId.Some? && t.orderId.value != ""
  }

  /**
   * Saving a document that was read earlier: it is written only if the stored version is
   * still the one it was read at, and the write increments the version. Otherwise the save
   * fails and nothing is written.
   */
  function SaveDoc(c: Collection<Ticket>, id: Id, doc: Ticket): (r: Result<(Collection<Ticket>, Ticket), DbError>)
    requires c.Valid()
    ensures r.Success? <==> id in c.docs && c.docs[id].version == doc.version
    ensures r.Failure? ==> r.error == VersionError(id)
    ensures r.Success? ==>
      && r.value.1 == doc.(version := doc.version + 1)
      && r.value.0.Valid() && r.value.0.ids == c.ids && r.value.0.docs == c.docs[id := r.value.1]
  {
    if id in c.docs && c.docs[id].version == doc.version then
      var saved := doc.(version := doc.version + 1);
      Success((Replace(c, id, saved), saved))
    else
      Failure(VersionError(id))
  }

  /** Two copies read at the same version: the first save wins and the second is refused. */
  lemma ConcurrentSavesOneWins(c: Collection<Ticket>, id: Id, first: Ticket, second: Ticket)
    requires c.Valid() && id in c.docs
    requires first.version == c.docs[id].version && second.version == c.docs[id].version
    ensures SaveDoc(c, id, first).Success?
    ensures SaveDoc(c, id, first).value.0.docs[id].version == c.docs[id].version + 1
    ensures SaveDoc(SaveDoc(c, id, first).value.0, id, second).Failure?
  {
  }

  /** The tickets collection of the catalog service. */
  class TicketsDb {
    var tickets: Collection<Ticket>

    ghost predicate Valid()
      reads this
    {
      tickets.Valid()
    }

    constructor ()
      ensures Valid() && tickets == Empty()
    {
      tickets := Empty();
    }

    /** Saving a newly built ticket under a fresh id. */
    method Create(id: Id, t: Ticket) returns (r: Result<Ticket, DbError>)
      requires Valid()
      modifies this
      ensures Valid()
      ensures r.Success? <==> id !in old(tickets.docs)
      ensures r.Success? ==> r.value == t && tickets == Collections.Insert(old(tickets), id, t).value
      ensures r.Failure? ==> r.error == DuplicateKey(id) && tickets == old(tickets)
    {
      var inserted := Collections.Insert(tickets, id, t);
      if inserted.Failure? {
        return Failure(inserted.error);
      }
      tickets := inserted.value;
      return Success(t);
    }

    /** Saving a ticket read earlier, with the version check of `SaveDoc`. */
    method Save(id: Id, doc: Ticket) returns (r: Result<Ticket, DbError>)
      requires Valid()
      modifies this
      ensures Valid()
      ensures SaveDoc(old(tickets), id, doc).Success? ==>
        tickets == SaveDoc(old(tickets), id, doc).value.0 && r == Success(SaveDoc(old(tickets), id, doc).value.1)
      ensures SaveDoc(old(tickets), id, doc).Failure? ==>
        tickets == old(tickets) && r == Failure(SaveDoc(old(tickets), id, doc).error)
    {
      var saved := SaveDoc(tickets, id, doc);
      if saved.Failure? {
        return Failure(saved.error);
      }
      tickets := saved.value.0;
      return Success(saved.value.1);
    }
  }

  /** The body of a create or edit request; a price that is missing or not a number is None. */
  datatype TicketForm = TicketForm(title: Option<string>, price: Option<real>)

  predicate PositivePrice(price: Option<real>) {
    price.Some? && price.value > 0.0
  }

  predicate ValidForm(form: TicketForm) {
    Present(form.title) && PositivePrice(form.price)
  }

  /** The body checks of both ticket routes: the names of the failing fields, title first. */
  function FormErrors(form: TicketForm): (fields: seq<string>)
    ensures "title" in fields <==> !Present(form.title)
    ensures "price" in fields <==> !PositivePrice(form.price)
    ensures fields == [] <==> ValidForm(form)
  {
    (if Present(form.title) then [] else ["title"])
    + (if PositivePrice(form.price) then [] else ["price"])
  }

  /** POST /api/tickets, up to the build: signed in, then a title and a positive price. */
  function CheckNewTicket(user: CurrentUser, form: TicketForm): (r: Result<TicketAttrs, HttpError>)
    ensures user.None? ==> r == Failure(NotAuthorized)
    ensures user.Some? && !ValidForm(form) ==> r == Failure(RequestValidation(FormErrors(form)))
    ensures r.Success? <==> user.Some? && ValidForm(form)
    ensures r.Success? ==> r.value == TicketAttrs(form.title.value, form.price.value, user.value)
  {
    if user.None? then Failure(NotAuthorized)
    else if FormErrors(form) != [] then Failure(RequestValidation(FormErrors(form)))
    else Success(TicketAttrs(form.title.value, form.price.value, user.value))
  }

  /**
   * POST /api/tickets: the checks, then the new ticket, owned by the caller, is saved under
   * the fresh id the store assigns and returned (status 201). Nothing is published.
   */
  method NewTicket(db: TicketsDb, user: CurrentUser, form: TicketForm, id: Id) returns (r: Result<(Id, Ticket), HttpError>)
    requires db.Valid()
    modifies db
    ensures db.Valid()
    ensures CheckNewTicket(user, form).Failure? ==>
      r == Failure(CheckNewTicket(user, form).error) && db.tickets == old(db.tickets)
    ensures CheckNewTicket(user, form).Success? && id in old(db.tickets.docs) ==>
      r == Failure(StoreFailure(DuplicateKey(id))) && db.tickets == old(db.tickets)
    ensures CheckNewTicket(user, form).Success? && id !in old(db.tickets.docs) ==>
      var t := Build(CheckNewTicket(user, form).value);
      r == Success((id, t)) && db.tickets == Collections.Insert(old(db.tickets), id, t).value
  {
    var checked := CheckNewTicket(user, form);
    if checked.Failure? {
      return Failure(checked.error);
    }
    var ticket := Build(checked.value);
    var saved := db.Create(id, ticket);
    if saved.Failure? {
      return Failure(StoreFailure(saved.error));
    }
    return Success((id, saved.value));
  }

  /** GET /api/tickets/:id: the stored ticket as it is, or NotFound. No sign-in needed. */
  function ShowTicket(c: Collection<Ticket>, id: Id): (r: Result<Ticket, HttpError>)
    ensures r.Failure? <==> id !in c.docs
    ensures r.Failure? ==> r.error == NotFound
    ensures r.Success? ==> r.value == c.docs[id]
  {
    if id in c.docs then Success(c.docs[id]) else Failure(NotFound)
  }

  /** GET /api/tickets: every ticket without an order id, in natural order. No sign-in needed. */
  function IndexTickets(c: Collection<Ticket>): (r: seq<(Id, Ticket)>)
    requires c.Valid()
    ensures forall x :: x in r <==> x.0 in c.docs && x.1 == c.docs[x.0] && x.1.orderId.None?
  {
    var p := (t: Ticket) => t.orderId.None?;
    forall x ensures x in Find(c, p) <==> x.0 in c.docs && x.1 == c.docs[x.0] && p(x.1) {
      FindMembership(c, p, x);
    }
    Find(c, p)
  }

  /** A created ticket reads back as built: the form's title and price, owned by the caller. */
  lemma CreatedTicketShown(c: Collection<Ticket>, user: CurrentUser, form: TicketForm, id: Id)
    requires c.Valid() && CheckNewTicket(user, form).Success? && id !in c.docs
    ensures var t := Build(CheckNewTicket(user, form).value);
      && ShowTicket(Collections.Insert(c, id, t).value, id) == Success(t)
      && t.title == form.title.value && t.price == form.price.value && t.userId == user.value
  {
  }

  /** A created ticket is unreserved, so it joins the end of the listing. */
  lemma CreatedTicketListedLast(c: Collection<Ticket>, id: Id, attrs: TicketAttrs)
    requires c.Valid() && id !in c.docs
    ensures IndexTickets(Collections.Insert(c, id, Build(attrs)).value) == IndexTickets(c) + [(id, Build(attrs))]
  {
    FindAfterInsert(c, id, Build(attrs), (t: Ticket) => t.orderId.None?);
  }

  /** A listed ticket is never one the edit route would call reserved. */
  lemma ListedTicketsAreUnreserved(c: Collection<Ticket>, x: (Id, Ticket))
    requires c.Valid() && x in IndexTickets(c)
    ensures !IsReserved(x.1)
  {
  }

  /**
   * PUT /api/tickets/:id, up to the write: signed in, a valid body, a known ticket, not
   * reserved, and only then owned by the caller. On success, the ticket with the new title
   * and price and everything else as stored.
   */
  function CheckUpdate(c: Collection<Ticket>, user: CurrentUser, id: Id, form: TicketForm): (r: Result<Ticket, HttpError>)
    ensures user.None? ==> r == Failure(NotAuthorized)
    ensures user.Some? && !ValidForm(form) ==> r == Failure(RequestValidation(FormErrors(form)))
    ensures user.Some? && ValidForm(form) && id !in c.docs ==> r == Failure(NotFound)
    ensures user.Some? && ValidForm(form) && id in c.docs && IsReserved(c.docs[id]) ==>
      r == Failure(BadRequest("Cannot edit a reserved ticket"))
    ensures user.Some? && ValidForm(form) && id in c.docs && !IsReserved(c.docs[id]) && c.docs[id].userId != user.value ==>
      r == Failure(NotAuthorized)
    ensures r.Success? <==>
      user.Some? && ValidForm(form) && id in c.docs && !IsReserved(c.docs[id]) && c.docs[id].userId == user.value
    ensures r.Success? ==> r.value == c.docs[id].(title := form.title.value, price := form.price.value)
  {
    if user.None? then Failure(NotAuthorized)
    else if FormErrors(form) != [] then Failure(RequestValidation(FormErrors(form)))
    else if id !in c.docs then Failure(NotFound)
    else
      var ticket := c.docs[id];
      if IsReserved(ticket) then Failure(BadRequest("Cannot edit a reserved ticket"))
      else if ticket.userId != user.value then Failure(NotAuthorized)
      else Success(ticket.(title := form.title.value, price := form.price.value))
  }

  /** The TicketUpdated payload describing a saved ticket. */
  function TicketUpdatedOf(id: Id, t: Ticket, orderId: Option<Id>): EventData
  {
    TicketUpdatedEvent(TicketUpdatedData(id, t.version, t.title, t.price, t.userId, orderId))
  }

  /**
   * PUT /api/tickets/:id: on a passing check the new title and price are saved (the version
   * moves on by one), one TicketUpdated carrying the saved version is published, and the
   * saved ticket is returned. A failing check writes and publishes nothing.
   */
  method UpdateTicket(db: TicketsDb, client: Client, user: CurrentUser, id: Id, form: TicketForm)
    returns (r: Result<Ticket, HttpError>)
    requires db.Valid()
    modifies db, client
    ensures db.Valid() && client.subscriptions == old(client.subscriptions)
    ensures CheckUpdate(old(db.tickets), user, id, form).Failure? ==>
      && r == Failure(CheckUpdate(old(db.tickets), user, id, form).error)
      && db.tickets == old(db.tickets) && client.outbox == old(client.outbox)
    ensures CheckUpdate(old(db.tickets), user, id, form).Success? ==>
      var doc := CheckUpdate(old(db.tickets), user, id, form).value;
      var saved := doc.(version := doc.version + 1);
      && r == Success(saved)
      && db.tickets == Replace(old(db.tickets), id, saved)
      && client.outbox == old(client.outbox) + [Envelope(TicketUpdated, Stringified(TicketUpdatedOf(id, saved, None)))]
  {
    var checked := CheckUpdate(db.tickets, user, id, form);
    if checked.Failure? {
      return Failure(checked.error);
    }
    // The read and the save are one step here, so the version check passes.
    var saved := db.Save(id, checked.value);
    var publisher := new Publisher(TicketUpdated, client);
    publisher.Publish(TicketUpdatedOf(id, saved.value, None));
    return Success(saved.value);
  }

  /** After a successful edit, reading the ticket back gives the new title and price. */
  lemma UpdateThenShow(c: Collection<Ticket>, user: CurrentUser, id: Id, form: TicketForm)
    requires c.Valid() && CheckUpdate(c, user, id, form).Success?
    ensures var doc := CheckUpdate(c, user, id, form).value;
      var after := Replace(c, id, doc.(version := doc.version + 1));
      && ShowTicket(after, id).Success?
      && ShowTicket(after, id).value.title == form.title.value
      && ShowTicket(after, id).value.price == form.price.value
      && ShowTicket(after, id).value.userId == c.docs[id].userId
      && ShowTicket(after, id).value.version == c.docs[id].version + 1
  {
  }

  /**
   * The OrderCancelled listener's effect: the referenced ticket, with its order id cleared
   * and its version moved on by the save. A missing ticket throws "Ticket not found".
   */
  function ReleaseTicket(c: Collection<Ticket>, data: OrderCancelledData): (r: Result<(Collection<Ticket>, Ticket), string>)
    requires c.Valid()
    ensures r.Failure? <==> data.ticketId !in c.docs
    ensures r.Failure? ==> r.error == "Ticket not found"
    ensures r.Success? ==>
      var before := c.docs[data.ticketId];
      && r.value.1 == before.(orderId := None, version := before.version + 1)
      && r.value.0.Valid() && r.value.0.ids == c.ids && r.value.0.docs == c.docs[data.ticketId := r.value.1]
  {
    match FindById(c, data.ticketId)
    case None => Failure("Ticket not found")
    case Some(ticket) =>
      var saved := SaveDoc(c, data.ticketId, ticket.(orderId := None));
      Success(saved.value)
  }

  /**
   * OrderCancelled in the catalog: look the ticket up by id alone, clear its order id, save,
   * publish one TicketUpdated describing the saved ticket, and only then ack. A missing
   * ticket throws before anything is written, published or acked.
   */
  method OnOrderCancelled(db: TicketsDb, client: Client, data: OrderCancelledData, msg: Message) returns (outcome: Outcome)
    requires db.Valid()
    modifies db, client, msg
    ensures db.Valid() && client.subscriptions == old(client.subscriptions)
    ensures ReleaseTicket(old(db.tickets), data).Failure? ==>
      && outcome == Threw(ReleaseTicket(old(db.tickets), data).error)
      && db.tickets == old(db.tickets) && client.outbox == old(client.outbox) && msg.acks == old(msg.acks)
    ensures ReleaseTicket(old(db.tickets), data).Success? ==>
      var (after, saved) := ReleaseTicket(old(db.tickets), data).value;
      && outcome == Done
      && db.tickets == after
      && client.outbox == old(client.outbox) + [Envelope(TicketUpdated, Stringified(TicketUpdatedOf(data.ticketId, saved, saved.orderId)))]
      && msg.acks == old(msg.acks) + 1
  {
    var found := FindById(db.tickets, data.ticketId);
    if found.None? {
      return Threw("Ticket not found");
    }
    var ticket := found.value.(orderId := None);
    // The read and the save are one step here, so the version check passes.
    var saved := db.Save(data.ticketId, ticket);
    var publisher := new Publisher(TicketUpdated, client);
    publisher.Publish(TicketUpdatedOf(data.ticketId, saved.value, saved.value.orderId));
    msg.Ack();
    return Done;
  }
}
