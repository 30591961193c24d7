/** RabbitMQQueue: a mutable queue handle with a name and a config collection,
    configured through fluent setters that return the same instance. */
module RabbitMQQueue {
  import opened Php

  /** The observable state of a queue handle. */
  datatype QueueState = QueueState(name: string, config: Collection)

  /** The state after `setName(n)`: the name is replaced, the config kept. */
  function AfterSetName(s: QueueState, n: string): QueueState {
    s.(name := n)
  }

  /** The state after `setConfig(c)`: the config becomes a fresh collection of
      exactly the given entries, whatever it held before; the name is kept. */
  function AfterSetConfig(s: QueueState, c: PhpArray<Key, Value>): QueueState {
    s.(config := Collection(c))
  }

  class Queue {
    var name: string
    var config: Collection

    function State(): QueueState
      reads this
    {
      QueueState(name, config)
    }

    /** `new RabbitMQQueue($name, $config = [])`: goes through both setters. */
    constructor (name: string, config: PhpArray<Key, Value> := [])
      ensures GetName() == name
      ensures GetConfig() == Collection(config)
    {
      new;
      var _ := SetName(name);
      var _ := SetConfig(config);
    }

    /** `getName()`: the name last set by the constructor or setName. */
    function GetName(): string
      reads this
    {
      name
    }

    /** `getConfig()`: the collection last set by the constructor or setConfig. */
    function GetConfig(): Collection
      reads this
    {
      config
    }

    /** `setName($name)`: replaces the name, returns this. */
    method SetName(name: string) returns (self: Queue)
      modifies this
      ensures self == this
      ensures State() == AfterSetName(old(State()), name)
      ensures GetName() == name && GetConfig() == old(GetConfig())
    {
      this.name := name;
      self := this;
    }

    /** `setConfig($config)`: replaces the config, returns this. */
    method SetConfig(config: PhpArray<Key, Value>) returns (self: Queue)
      modifies this
      ensures self == this
      ensures State() == AfterSetConfig(old(State()), config)
      ensures GetConfig() == Collection(config) && GetName() == old(GetName())
    {
      this.config := Collection(config);
      self := this;
    }
  }

  /** Setting a name changes the name only, and the new name is what getName reads. */
  lemma SetNameFrame(s: QueueState, n: string)
    ensures AfterSetName(s, n).name == n
    ensures AfterSetName(s, n).config == s.config
  {
  }

  /** Setting a config changes the config only; the new collection holds
      exactly the given entries, with nothing kept from the old one. */
  lemma SetConfigFrame(s: QueueState, c: PhpArray<Key, Value>, k: Key, v: Value)
    ensures AfterSetConfig(s, c).name == s.name
    ensures AfterSetConfig(s, c).config.items == c
    ensures AfterSetConfig(s, c).config.Get(k) == v <==> (k, v) in c || (k !in Keys(c) && v == Null)
  {
    var w := AfterSetConfig(s, c).config.Get(k);
    if (k, w) in c {
      var i :| 0 <= i < |c| && c[i] == (k, w);
      assert Keys(c)[i] == k;
    }
  }

  /** Both setters are idempotent, and the later of two calls to the same setter wins. */
  lemma SettersIdempotent(s: QueueState, n: string, n': string, c: PhpArray<Key, Value>, c': PhpArray<Key, Value>)
    ensures AfterSetName(AfterSetName(s, n), n) == AfterSetName(s, n)
    ensures AfterSetConfig(AfterSetConfig(s, c), c) == AfterSetConfig(s, c)
    ensures AfterSetName(AfterSetName(s, n), n') == AfterSetName(s, n')
    ensures AfterSetConfig(AfterSetConfig(s, c), c') == AfterSetConfig(s, c')
  {
  }

  /** The two setters touch disjoint fields, so their order does not matter. */
  lemma SettersCommute(s: QueueState, n: string, c: PhpArray<Key, Value>)
    ensures AfterSetConfig(AfterSetName(s, n), c) == AfterSetName(AfterSetConfig(s, c), n)
  {
  }

  /** A handle built without a config has an empty one: every lookup yields the default. */
  lemma DefaultConfigEmpty(k: Key, default: Value)
    ensures Collection([]).Get(k, default) == default
  {
  }
}
