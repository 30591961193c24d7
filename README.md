# laravel-rabitmq publish helper and queue handle, modelled in Dafny

This project models two pieces of the Laravel RabbitMQ client package:

- the publish helper trait (`src/Traits/RabbitMQTrait.php`): its table of
  exchange-type names, and `publishMessage`, which builds an exchange
  declaration array and a message config array from its arguments, attaches
  the exchange to a message whose body is the JSON encoding of the contents,
  and hands that message with the routing key to the publisher exactly once;
- the queue handle `RabbitMQQueue` (`src/RabbitMQQueue.php`): a mutable
  object with a name and a config collection, set through fluent setters
  that return the same instance.

Files:

- `phpamqplib.dfy` (module `PhpAmqpLib`): the library's exchange-type and
  delivery-mode constants, kept abstract.
- `php.dfy` (module `Php`): PHP arrays as ordered association lists with
  unique keys (`PhpArray`), array indexing (`Lookup`; a missing key gives
  `None`, which PHP turns into null with a warning), and the Illuminate
  `Collection` reduced to the array it wraps. `Collection.Get` stands for the
  library's `Collection::get` (the stored value, or the default when the key
  is absent); it is the means by which the lemmas read a queue's config, not
  code of this package.
- `collaborators.dfy` (module `Collaborators`): `RabbitMQExchange`,
  `RabbitMQMessage` and the publisher, described only as far as the trait
  uses them. The publisher is an abstract sink: a ghost trace `sent`
  records every publish call.
- `trait.dfy` (module `RabbitMQTrait`): the exchange-type table, the two
  configuration arrays and `PublishMessage`.
- `queue.dfy` (module `RabbitMQQueue`): the queue class, its abstract state
  and the lemmas about its setters.

Three places where the code does something its names or doc comment do not
suggest:

- The exchange-type name is used to index the table without a check. For a
  name outside direct, fanout, topic and headers, bare PHP evaluates the
  index to null with a warning; the model gives the `type` entry the value
  `Null` (`ExchangeTypeValue`) and goes on to build and publish the message.
  Under an error handler that turns warnings into exceptions, as a booted
  Laravel application installs, the publish would not happen (see "Left out").
- The table's `fanout` entry names the constant `AMQPExchangeType::FANOUTT`,
  spelled unlike its siblings. The model maps `fanout` to the fanout kind.
  PHP resolves a property default's constants when the using class is first
  instantiated, so if the library declares no `FANOUTT`, that instantiation
  fails and publishMessage never runs.
- The doc comment of `publishMessage` gives `'fanout'` as the default
  exchange type. The signature's default is `'topic'`, and the model uses that.

## Model

| member | source | states |
|---|---|---|
| `Php.Lookup` | src/Traits/RabbitMQTrait.php:46 | Indexing an array finds nothing exactly when no entry has the key, and otherwise yields a value stored under that key. |
| `Php.LookupStored` | src/Traits/RabbitMQTrait.php:15-20 | In a PHP array (unique keys), indexing by `k` yields `v` if and only if the entry `(k, v)` is in the array. |
| `RabbitMQTrait.ExchangeTypes` | src/Traits/RabbitMQTrait.php:15-20 | The table has four entries; every entry is listed under its kind's name (`NameOf`), and every kind is listed. |
| `RabbitMQTrait.ExchangeTypesDomain` | src/Traits/RabbitMQTrait.php:15-20 | The exchange-type table has an entry for exactly the four names direct, fanout, topic and headers. |
| `RabbitMQTrait.ExchangeTypesRoundTrip` | src/Traits/RabbitMQTrait.php:15-20 | Looking a name up in the table yields a kind if and only if the name is that kind's key (`NameOf`). |
| `RabbitMQTrait.ExchangeTypeValue` | src/Traits/RabbitMQTrait.php:46 | Indexing the table by the given name yields either null or the constant of the kind whose name was given. |
| `RabbitMQTrait.ExchangeTypeValueResolves` | src/Traits/RabbitMQTrait.php:46 | The `type` value is a kind's constant exactly when the given name is that kind's key, and is null exactly for a name outside the table. |
| `RabbitMQTrait.ExchangeConfigKeys` | src/Traits/RabbitMQTrait.php:44-53 | The exchange config array has exactly the keys declare, type, passive, durable, auto_delete, internal, nowait and properties, in that order. |
| `RabbitMQTrait.ExchangeConfig` | src/Traits/RabbitMQTrait.php:44-53 | Whatever the arguments, `declare` is true and `type` is the table's entry for the given name. |
| `RabbitMQTrait.ExchangeConfigPassesArguments` | src/Traits/RabbitMQTrait.php:47-52 | `passive`, `durable`, `auto_delete`, `internal`, `nowait` and `properties` equal the corresponding arguments unchanged. |
| `RabbitMQTrait.MessageConfig` | src/Traits/RabbitMQTrait.php:59-63 | The message config has the keys content_encoding, content_type and delivery_mode; encoding is always "UTF-8", content type always "application/json", and the delivery mode is persistent if and only if the flag is set and non-persistent if and only if it is not. |
| `RabbitMQTrait.PublishDefaults` | src/Traits/RabbitMQTrait.php:38 | For the signature's default values ('topic', false, true, false, false, true, [], true), the exchange is a declared topic exchange, not passive, durable, not auto-deleted, not internal, nowait, with no properties, and the message is persistent. |
| `RabbitMQTrait.PublishMessageWithDefaults` | src/Traits/RabbitMQTrait.php:38 | Calling publishMessage with only its three required arguments publishes exactly the exchange and message config built from those default values. |
| `RabbitMQTrait.PublishMessage` | src/Traits/RabbitMQTrait.php:38-74 | Exactly one publish call is added to the publisher's trace: the JSON encoding of the contents as body, the message config, the exchange built from the name and the exchange config attached, the given routing key, and no exchange argument. |
| `Collaborators.Message.constructor` | src/Traits/RabbitMQTrait.php:66 | A new message holds the given body and config and has no exchange attached. |
| `Collaborators.Message.SetExchange` | src/Traits/RabbitMQTrait.php:67 | Attaching an exchange returns the same message, sets its exchange and leaves body and config unchanged. |
| `Collaborators.Publisher.Publish` | src/Traits/RabbitMQTrait.php:70-73 | One publish call appends one record (message as it stands, routing key, exchange argument) to the trace. |
| `RabbitMQQueue.Queue.constructor` | src/RabbitMQQueue.php:13-17 | After construction `getName()` is the given name and `getConfig()` is a collection of exactly the given entries (empty when none are given). |
| `RabbitMQQueue.Queue.SetName` | src/RabbitMQQueue.php:22-36 | Returns the same instance; the name becomes the new one and the config is unchanged, so `getName()` then returns the new name and `getConfig()` what it returned before. (`GetName` has no contract of its own; what it returns is fixed by the constructor's and the setters' contracts.) |
| `RabbitMQQueue.Queue.SetConfig` | src/RabbitMQQueue.php:41-55 | Returns the same instance; the config becomes a collection of exactly the given entries and the name is unchanged, so `getConfig()` then returns that collection and `getName()` what it returned before. (`GetConfig` has no contract of its own; what it returns is fixed by the constructor's and the setters' contracts.) |
| `RabbitMQQueue.SetNameFrame` | src/RabbitMQQueue.php:31-36 | After `setName(n)` the name is `n` and the config is the old one. |
| `RabbitMQQueue.SetConfigFrame` | src/RabbitMQQueue.php:50-55 | After `setConfig(c)` the name is the old one and reading any key of the config yields exactly what `c` stores under it (the default otherwise): nothing of the old config survives. |
| `RabbitMQQueue.SettersIdempotent` | src/RabbitMQQueue.php:31-55 | Applying either setter twice with the same value equals applying it once, and of two calls the later wins. |
| `RabbitMQQueue.SettersCommute` | src/RabbitMQQueue.php:31-55 | Setting the name and setting the config commute. |
| `RabbitMQQueue.DefaultConfigEmpty` | src/RabbitMQQueue.php:13 | A queue built without a config has an empty collection: every read yields the default. |

## Left out

- RabbitMQTrait.PublishMessage: follows bare PHP for an exchange-type name outside the table (a warning and a null `type`, then the publish). It does not model an error handler that turns the warning into an exception, as a booted Laravel application installs; there the index at line 46 throws and no publish call is made.
- The container lookup `app('rabbitmq')` and `publisher()`: the publisher is passed to `PublishMessage` as an argument.
- Broker I/O of the publisher (declaring the exchange, batching, channels): the publisher is a sink that records each call; the publisher's own source is not part of this model.
- `json_encode`: an arbitrary function passed as an argument; its failure result (false) is not modelled.
- The concrete values of the library constants (`AMQPExchangeType::*`, `AMQPMessage::DELIVERY_MODE_*`): kept as abstract enum values. Whether the library defines `FANOUTT` at all is not part of this model.
- PHP's conversion of numeric-string keys to integer keys: keys are taken as given.
- The eagerly built AMQP wire message inside `RabbitMQMessage` and any other behaviour of `RabbitMQMessage` and `RabbitMQExchange` beyond construction and `setExchange`.
- `src/RabbitMQ.php`: a framework facade that only names the service key.
- The rest of Illuminate `Collection`: only `get` is modelled, and a collection is a value, not an object. `getConfig()` hands out the queue's own `Collection` object, so a caller's `put()` on it changes the queue's config; the model cannot show that sharing.
- Redeclaring `$exchange_types`: it is a protected property a using class may override; the model fixes it to the table the trait declares.
