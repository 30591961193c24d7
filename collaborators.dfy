/** The package classes that publishMessage hands its results to:
    RabbitMQExchange, RabbitMQMessage and the publisher. Their own source is not
    part of this model; each is described only by what the trait relies on. */
module Collaborators {
  import opened Php

  /** RabbitMQExchange: a name and the declaration array it was built from. */
  datatype Exchange = Exchange(name: string, config: PhpArray<Key, Value>)

  /** RabbitMQMessage: a body, its message config and an optionally attached exchange. */
  class Message {
    var body: string
    var config: PhpArray<Key, Value>
    var exchange: Option<Exchange>

    constructor (body: string, config: PhpArray<Key, Value> := [])
      ensures this.body == body && this.config == config && exchange == None
    {
      this.body := body;
      this.config := config;
      exchange := None;
    }

    /** `$message->setExchange($exchange)`: attaches the exchange and returns the
        same instance; body and config are untouched. */
    method SetExchange(exchange: Exchange) returns (self: Message)
      modifies this
      ensures self == this
      ensures this.exchange == Some(exchange)
      ensures body == old(body) && config == old(config)
    {
      this.exchange := Some(exchange);
      self := this;
    }
  }

  /** What one publish call hands to the broker: the message as it stood at the
      call, the routing key and the exchange argument of the call. */
  datatype PublishCall = PublishCall(
    body: string,
    config: PhpArray<Key, Value>,
    attached: Option<Exchange>,
    routingKey: string,
    exchangeArg: Option<Exchange>)

  /** The publisher as an abstract sink: broker I/O is replaced by a record of
      every call made on it. */
  class Publisher {
    ghost var sent: seq<PublishCall>

    constructor ()
      ensures sent == []
    {
      sent := [];
    }

    /** `publish($message, $routingKey = '', $exchange = null)` for a single
        message, the form publishMessage uses (it passes a message and a routing
        key). The package's `publish` also accepts an array of messages and a
        fourth publish-configuration argument; those forms are not modelled.
        Records exactly one call. */
    method Publish(message: Message, routingKey: string := "", exchange: Option<Exchange> := None)
      modifies this
      ensures sent == old(sent) + [PublishCall(message.body, message.config, message.exchange, routingKey, exchange)]
    {
      sent := sent + [PublishCall(message.body, message.config, message.exchange, routingKey, exchange)];
    }
  }
}
