/**
 * The event-bus wrappers: a client that records what is published and subscribed, a
 * publisher bound to one subject, a listener bound to one subject and queue group, and a
 * delivered message whose acknowledgements are counted.
 */
module Bus {
  import opened Wrappers
  import opened Common
  import Utf8

  /** `JSON.stringify(data)`, kept abstract: the text is determined by the data and determines it. */
  datatype Payload = Stringified(data: EventData)

  /** One broker publish: a subject and the serialised payload. */
  datatype Envelope = Envelope(subject: Subject, payload: Payload)

  datatype SubscriptionOptions =
    SubscriptionOptions(deliverAllAvailable: bool, manualAckMode: bool, ackWait: nat, durableName: string)

  datatype Subscription = Subscription(subject: Subject, queueGroup: string, options: SubscriptionOptions)

  /** The broker client: publishes go to the outbox, subscriptions are recorded in order. */
  class Client {
    var outbox: seq<Envelope>
    var subscriptions: seq<Subscription>

    constructor ()
      ensures outbox == [] && subscriptions == []
    {
      outbox := [];
      subscriptions := [];
    }

    method Publish(subject: Subject, payload: Payload)
      modifies this
      ensures outbox == old(outbox) + [Envelope(subject, payload)]
      ensures subscriptions == old(subscriptions)
    {
      outbox := outbox + [Envelope(subject, payload)];
    }

    method Subscribe(subject: Subject, queueGroup: string, options: SubscriptionOptions)
      modifies this
      ensures subscriptions == old(subscriptions) + [Subscription(subject, queueGroup, options)]
      ensures outbox == old(outbox)
    {
      subscriptions := subscriptions + [Subscription(subject, queueGroup, options)];
    }
  }

  /** A publisher is bound to one subject for its whole life. */
  class Publisher {
    const subject: Subject
    const client: Client

    constructor (subject: Subject, client: Client)
      ensures this.subject == subject && this.client == client
    {
      this.subject := subject;
      this.client := client;
    }

    /** Exactly one client publish, on the bound subject, carrying the serialised data. */
    method Publish(data: EventData)
      modifies client
      ensures client.outbox == old(client.outbox) + [Envelope(subject, Stringified(data))]
      ensures client.subscriptions == old(client.subscriptions)
    {
      client.Publish(subject, Stringified(data));
    }
  }

  /** Milliseconds a listener has to acknowledge a message before it is redelivered. */
  const DefaultAckWait: nat := 5 * 1000

  /** The options every listener subscribes with. */
  function ListenerOptions(queueGroupName: string, ackWait: nat): (o: SubscriptionOptions)
    ensures o.deliverAllAvailable && o.manualAckMode
    ensures o.ackWait == ackWait && o.durableName == queueGroupName
  {
    SubscriptionOptions(true, true, ackWait, queueGroupName)
  }

  class Listener {
    const subject: Subject
    const queueGroupName: string
    const ackWait: nat
    const client: Client

    constructor (subject: Subject, queueGroupName: string, client: Client)
      ensures this.subject == subject && this.queueGroupName == queueGroupName
      ensures this.client == client && ackWait == DefaultAckWait
    {
      this.subject := subject;
      this.queueGroupName := queueGroupName;
      this.client := client;
      ackWait := DefaultAckWait;
    }

    /** Subscribes on exactly this listener's subject and queue group. */
    method Listen()
      modifies client
      ensures client.subscriptions
           == old(client.subscriptions) + [Subscription(subject, queueGroupName, ListenerOptions(queueGroupName, ackWait))]
      ensures client.outbox == old(client.outbox)
    {
      client.Subscribe(subject, queueGroupName, ListenerOptions(queueGroupName, ackWait));
    }

    /**
     * The subscription's message callback: the message is parsed once and the result is what
     * the concrete handler receives, together with the message itself. The base class never
     * acknowledges; that is left to the handler.
     */
    method Receive<T>(msg: Message, parse: string -> T) returns (data: T)
      ensures data == parse(WireText(msg.raw))
    {
      data := ParseMessage(msg.raw, parse);
    }
  }

  /** How a handler ends: it returned normally, or it threw before writing anything. */
  datatype Outcome = Done | Threw(reason: string)

  /** What a delivered message carries on the wire. */
  datatype RawData = Text(text: string) | Bytes(bytes: seq<Utf8.byte>)

  /** A delivered message. Only handlers acknowledge; `acks` counts how often they did. */
  class Message {
    const raw: RawData
    var acks: nat

    constructor (raw: RawData)
      ensures this.raw == raw && acks == 0
    {
      this.raw := raw;
      acks := 0;
    }

    method Ack()
      modifies this
      ensures acks == old(acks) + 1
    {
      acks := acks + 1;
    }
  }

  /** The text of a message: a string as it is, bytes decoded as UTF-8. */
  function WireText(raw: RawData): string
  {
    match raw
    case Text(s) => s
    case Bytes(b) => Utf8.Decode(b)
  }

  /** `parseMessage`: one JSON parse of the message text; `parse` stands for `JSON.parse`. */
  function ParseMessage<T>(raw: RawData, parse: string -> T): (data: T)
    ensures data == parse(WireText(raw))
  {
    match raw
    case Text(s) => parse(s)
    case Bytes(b) => parse(Utf8.Decode(b))
  }

  /** A payload sent as a string and the same text sent as UTF-8 bytes parse to the same value. */
  lemma TextAndBytesParseAlike<T>(s: string, parse: string -> T)
    ensures ParseMessage(Text(s), parse) == ParseMessage(Bytes(Utf8.Encode(s)), parse)
  {
    Utf8.DecodeEncode(s);
  }
}
