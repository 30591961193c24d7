/** The library constants the core refers to (PhpAmqpLib's AMQPExchangeType and
    AMQPMessage::DELIVERY_MODE_*). Their concrete values belong to the library, so
    they are kept abstract: only their identity matters to the model. */
module PhpAmqpLib {

  /** AMQPExchangeType::DIRECT, FANOUT, TOPIC and HEADERS. */
  datatype ExchangeType = Direct | Fanout | Topic | Headers

  /** AMQPMessage::DELIVERY_MODE_PERSISTENT and DELIVERY_MODE_NON_PERSISTENT. */
  datatype DeliveryMode = Persistent | NonPersistent
}
