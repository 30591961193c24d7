/** The publish helper mixed into application classes: the exchange-type table
    and publishMessage, which builds an exchange declaration and a message
    config from its arguments, attaches the exchange to a JSON message and
    hands that message to the publisher once. */
module RabbitMQTrait {
  import opened PhpAmqpLib
  import opened Php
  import opened Collaborators

  /** `$exchange_types`: exchange-type names to library constants, in the
      order the table lists them. Every kind is listed once, under its own
      name. The source's 'fanout' entry names the constant
      AMQPExchangeType::FANOUTT, spelled unlike its siblings DIRECT, TOPIC and
      HEADERS; it is modelled here as the fanout kind. PHP resolves the
      constants of a property default when the using class is first
      instantiated, so if the library declares no FANOUTT, that first `new`
      already fails and publishMessage never runs. */
  function ExchangeTypes(): (table: PhpArray<string, ExchangeType>)
    ensures |table| == 4
    ensures forall i :: 0 <= i < |table| ==> table[i].0 == NameOf(table[i].1)
    ensures forall t :: (NameOf(t), t) in table
  {
    var table := [("direct", Direct), ("fanout", Fanout), ("topic", Topic), ("headers", Headers)];
    assert table[0] == (NameOf(Direct), Direct) && table[1] == (NameOf(Fanout), Fanout);
    assert table[2] == (NameOf(Topic), Topic) && table[3] == (NameOf(Headers), Headers);
    table
  }

  /** The table key under which each kind is listed. */
  function NameOf(t: ExchangeType): string {
    match t
    case Direct => "direct"
    case Fanout => "fanout"
    case Topic => "topic"
    case Headers => "headers"
  }

  /** The table has exactly the four keys direct, fanout, topic and headers. */
  lemma ExchangeTypesDomain(s: string)
    ensures Lookup(ExchangeTypes(), s).Some? <==> s in {"direct", "fanout", "topic", "headers"}
  {
    assert Keys(ExchangeTypes()) == ["direct", "fanout", "topic", "headers"];
  }

  /** Looking a name up yields a kind exactly when the name is that kind's key:
      the table and NameOf are inverse to each other. */
  lemma ExchangeTypesRoundTrip(s: string, t: ExchangeType)
    ensures Lookup(ExchangeTypes(), s) == Some(t) <==> s == NameOf(t)
  {
    LookupStored(ExchangeTypes(), s, t);
  }

  /** `$this->exchange_types[$exchange_type]` as bare PHP evaluates it: the
      table's constant for a listed name, or null (with a warning) for a name
      the table does not list. */
  function ExchangeTypeValue(exchangeType: string): (v: Value)
    ensures v == Null || (v.ExchangeTypeConst? && exchangeType == NameOf(v.t))
  {
    match Lookup(ExchangeTypes(), exchangeType)
    case Some(t) => ExchangeTypeConst(t)
    case None => Null
  }

  /** The `type` entry names the kind whose key was given, and is null exactly
      for a name outside the table. */
  lemma ExchangeTypeValueResolves(exchangeType: string)
    ensures forall t :: ExchangeTypeValue(exchangeType) == ExchangeTypeConst(t) <==> exchangeType == NameOf(t)
    ensures ExchangeTypeValue(exchangeType) == Null <==> exchangeType !in {"direct", "fanout", "topic", "headers"}
  {
    ExchangeTypesDomain(exchangeType);
    forall t ensures ExchangeTypeValue(exchangeType) == ExchangeTypeConst(t) <==> exchangeType == NameOf(t) {
      ExchangeTypesRoundTrip(exchangeType, t);
    }
  }

  /** `$exchangeConfig`: the declaration array built from publishMessage's
      exchange arguments. Whatever the arguments, the exchange is to be
      declared, and its type is the table's entry for the given name (null
      for an unlisted name). */
  function ExchangeConfig(
    exchangeType: string, passive: bool, durable: bool, autoDelete: bool,
    internal: bool, nowait: bool, properties: PhpArray<Key, Value>): (c: PhpArray<Key, Value>)
    ensures Lookup(c, StrKey("declare")) == Some(Bool(true))
    ensures Lookup(c, StrKey("type")) == Some(ExchangeTypeValue(exchangeType))
  {
    var c: PhpArray<Key, Value> := [ (StrKey("declare"), Bool(true)),
      (StrKey("type"), ExchangeTypeValue(exchangeType)),
      (StrKey("passive"), Bool(passive)),
      (StrKey("durable"), Bool(durable)),
      (StrKey("auto_delete"), Bool(autoDelete)),
      (StrKey("internal"), Bool(internal)),
      (StrKey("nowait"), Bool(nowait)),
      (StrKey("properties"), Array(properties)) ];
    assert Lookup(c, StrKey("declare")) == Some(Bool(true)) by { LookupAt(c, 0); }
    assert Lookup(c, StrKey("type")) == Some(ExchangeTypeValue(exchangeType)) by { LookupAt(c, 1); }
    c
  }

  /** The declaration array has exactly these eight keys, in this order. */
  lemma ExchangeConfigKeys(
    exchangeType: string, passive: bool, durable: bool, autoDelete: bool,
    internal: bool, nowait: bool, properties: PhpArray<Key, Value>)
    ensures Keys(ExchangeConfig(exchangeType, passive, durable, autoDelete, internal, nowait, properties))
      == [StrKey("declare"), StrKey("type"), StrKey("passive"), StrKey("durable"),
          StrKey("auto_delete"), StrKey("internal"), StrKey("nowait"), StrKey("properties")]
  {
    var c := ExchangeConfig(exchangeType, passive, durable, autoDelete, internal, nowait, properties);
    assert Keys(c) == [c[0].0, c[1].0, c[2].0, c[3].0, c[4].0, c[5].0, c[6].0, c[7].0];
  }

  /** The remaining exchange arguments reach the declaration array unchanged. */
  lemma ExchangeConfigPassesArguments(
    exchangeType: string, passive: bool, durable: bool, autoDelete: bool,
    internal: bool, nowait: bool, properties: PhpArray<Key, Value>)
    ensures var c := ExchangeConfig(exchangeType, passive, durable, autoDelete, internal, nowait, properties);
      && Lookup(c, StrKey("passive")) == Some(Bool(passive))
      && Lookup(c, StrKey("durable")) == Some(Bool(durable))
      && Lookup(c, StrKey("auto_delete")) == Some(Bool(autoDelete))
      && Lookup(c, StrKey("internal")) == Some(Bool(internal))
      && Lookup(c, StrKey("nowait")) == Some(Bool(nowait))
      && Lookup(c, StrKey("properties")) == Some(Array(properties))
  {
    var c := ExchangeConfig(exchangeType, passive, durable, autoDelete, internal, nowait, properties);
    LookupAt(c, 2);
    LookupAt(c, 3);
    LookupAt(c, 4);
    LookupAt(c, 5);
    LookupAt(c, 6);
    LookupAt(c, 7);
  }

  /** `$config`: the message config. Encoding and content type are fixed; the
      delivery mode is persistent exactly when the flag is set. */
  function MessageConfig(persistent: bool): (c: PhpArray<Key, Value>)
    ensures Keys(c) == [StrKey("content_encoding"), StrKey("content_type"), StrKey("delivery_mode")]
    ensures Lookup(c, StrKey("content_encoding")) == Some(Str("UTF-8"))
    ensures Lookup(c, StrKey("content_type")) == Some(Str("application/json"))
    ensures Lookup(c, StrKey("delivery_mode")) == Some(DeliveryModeConst(Persistent)) <==> persistent
    ensures Lookup(c, StrKey("delivery_mode")) == Some(DeliveryModeConst(NonPersistent)) <==> !persistent
  {
    var c: PhpArray<Key, Value> :=
      [ (StrKey("content_encoding"), Str("UTF-8")),
        (StrKey("content_type"), Str("application/json")),
        (StrKey("delivery_mode"), DeliveryModeConst(if persistent then Persistent else NonPersistent)) ];
    LookupAt(c, 2);
    c
  }

  /** The values publishMessage's signature gives the optional arguments:
      a declared durable topic exchange that is neither passive, auto-deleted
      nor internal, declared without waiting and with no properties, and a
      persistent message. */
  lemma PublishDefaults()
    ensures var c := ExchangeConfig("topic", false, true, false, false, true, []);
      && Lookup(c, StrKey("declare")) == Some(Bool(true))
      && Lookup(c, StrKey("type")) == Some(ExchangeTypeConst(Topic))
      && Lookup(c, StrKey("passive")) == Some(Bool(false))
      && Lookup(c, StrKey("durable")) == Some(Bool(true))
      && Lookup(c, StrKey("auto_delete")) == Some(Bool(false))
      && Lookup(c, StrKey("internal")) == Some(Bool(false))
      && Lookup(c, StrKey("nowait")) == Some(Bool(true))
      && Lookup(c, StrKey("properties")) == Some(Array([]))
    ensures Lookup(MessageConfig(true), StrKey("delivery_mode")) == Some(DeliveryModeConst(Persistent))
  {
    ExchangeConfigPassesArguments("topic", false, true, false, false, true, []);
    LookupAt(ExchangeTypes(), 2);
  }

  /** publishMessage. The container lookup `app('rabbitmq')->publisher()` is
      replaced by the `publisher` argument and `json_encode` by `jsonEncode`.
      Exactly one call reaches the publisher: the JSON body, the message config,
      the exchange built from the arguments attached to the message, the given
      routing key and no exchange argument of its own. */
  method PublishMessage(
    publisher: Publisher, jsonEncode: PhpArray<Key, Value> -> string,
    exchangeName: string, routingKey: string, contents: PhpArray<Key, Value>,
    exchangeType: string := "topic", passive: bool := false, durable: bool := true,
    autoDelete: bool := false, internal: bool := false, nowait: bool := true,
    properties: PhpArray<Key, Value> := [], messagePersistent: bool := true)
    modifies publisher
    ensures publisher.sent == old(publisher.sent) + [PublishCall(
      jsonEncode(contents),
      MessageConfig(messagePersistent),
      Some(Exchange(exchangeName, ExchangeConfig(exchangeType, passive, durable, autoDelete, internal, nowait, properties))),
      routingKey,
      None)]
  {
    var exchangeConfig := ExchangeConfig(exchangeType, passive, durable, autoDelete, internal, nowait, properties);
    var exchange := Exchange(exchangeName, exchangeConfig);
    var config := MessageConfig(messagePersistent);
    var message := new Message(jsonEncode(contents), config);
    var _ := message.SetExchange(exchange);
    publisher.Publish(message, routingKey);
  }

  /** publishMessage called with only its three required arguments: the
      published exchange and message carry exactly the values of
      PublishDefaults. */
  method PublishMessageWithDefaults(
    publisher: Publisher, jsonEncode: PhpArray<Key, Value> -> string,
    exchangeName: string, routingKey: string, contents: PhpArray<Key, Value>)
    modifies publisher
    ensures publisher.sent == old(publisher.sent) + [PublishCall(
      jsonEncode(contents),
      MessageConfig(true),
      Some(Exchange(exchangeName, ExchangeConfig("topic", false, true, false, false, true, []))),
      routingKey,
      None)]
  {
    PublishMessage(publisher, jsonEncode, exchangeName, routingKey, contents);
  }
}
