/** DataBus: type-erased maps from topics to signals, serializers, stringifiers and last
    values, kept consistent by one type index. The functions are the regions under the
    bus's lock; the class changes its maps in place and is proved against them. */
module DataBuses {
  import opened Common
  type Topic = nat
  type TypeIndex = nat

  // What a type-erased pointer really points to.
  datatype Erased = Erased(typ: TypeIndex, id: nat)
  datatype LvcEntry = LvcEntry(typ: TypeIndex, value: int, timestamp: int)

  datatype Bus = Bus(
    typeIndices: map<Topic, TypeIndex>, signals: map<Topic, Erased>, serializers: map<Topic, Erased>,
    stringifiers: map<Topic, Erased>, lastValues: map<Topic, LvcEntry>, caching: set<Topic>, made: nat)

  const EMPTY := Bus(map[], map[], map[], map[], map[], {}, 0)

  // A topic's type is the one it is first used with.
  predicate Fits(b: Bus, topic: Topic, typ: TypeIndex) {
    topic in b.typeIndices ==> b.typeIndices[topic] == typ
  }

  function Claim(b: Bus, topic: Topic, typ: TypeIndex): Bus {
    if topic in b.typeIndices then b else b.(typeIndices := b.typeIndices[topic := typ])
  }

  function GetOrCreateSignal(b: Bus, topic: Topic, typ: TypeIndex): (Bus, Option<Erased>) {
    if !Fits(b, topic, typ) then (b, None)
    else
      var claimed := Claim(b, topic, typ);
      if topic in b.signals then (claimed, Some(b.signals[topic]))
      else
        var signal := Erased(typ, b.made);
        (claimed.(signals := b.signals[topic := signal], made := b.made + 1), Some(signal))
  }

  // Subscribe's first region. Caching is switched on before the type is looked at.
  function SubscribeRegion(b: Bus, topic: Topic, typ: TypeIndex, cache: bool): (Bus, Option<Erased>) {
    GetOrCreateSignal(if cache then b.(caching := b.caching + {topic}) else b, topic, typ)
  }

  // Switching caching on or off leaves what is cached.
  function CacheRegion(b: Bus, topic: Topic, enabled: bool): Bus {
    b.(caching := if enabled then b.caching + {topic} else b.caching - {topic})
  }

  predicate TooOld(entry: LvcEntry, lifespan: Option<int>, now: int) {
    lifespan.Some? && now - entry.timestamp > lifespan.value
  }

  // Subscribe's second region: the cached value that the new subscriber is to be given. It
  // is cast to the subscriber's type without a check.
  function CachedRegion(b: Bus, topic: Topic, cache: bool, lifespan: Option<int>, now: int): Option<LvcEntry> {
    if cache && topic in b.lastValues && !TooOld(b.lastValues[topic], lifespan, now)
    then Some(b.lastValues[topic]) else None
  }

  // What a publish takes out of the maps, to be cast and used outside the lock.
  datatype Handout = Handout(signal: Option<Erased>, serializer: Option<Erased>, stringifier: Option<Erased>)

  function Lookup<T>(m: map<Topic, T>, topic: Topic): Option<T> {
    if topic in m then Some(m[topic]) else None
  }

  // Publish's region. None: the type does not match, and nothing is written; the caller
  // goes on to the fault handler.
  function PublishRegion(b: Bus, topic: Topic, typ: TypeIndex, value: int, now: int): (Bus, Option<Handout>) {
    if !Fits(b, topic, typ) then (b, None)
    else
      var claimed := Claim(b, topic, typ);
      var cached := if topic in b.caching then claimed.(lastValues := b.lastValues[topic := LvcEntry(typ,
          value, now)]) else claimed;
      (cached, Some(Handout(Lookup(b.signals, topic), Lookup(b.serializers, topic), Lookup(b.stringifiers, topic))))
  }

  function SerializerRegion(b: Bus, topic: Topic, typ: TypeIndex, serializer: nat): Bus {
    if !Fits(b, topic, typ) then b
    else Claim(b, topic, typ).(serializers := b.serializers[topic := Erased(typ, serializer)])
  }

  function StringifierRegion(b: Bus, topic: Topic, typ: TypeIndex, stringifier: nat): Bus {
    if !Fits(b, topic, typ) then b
    else Claim(b, topic, typ).(stringifiers := b.stringifiers[topic := Erased(typ, stringifier)])
  }

  function ResetRegion(b: Bus): Bus {
    EMPTY.(made := b.made)
  }

  class DataBus {
    var typeIndices: map<Topic, TypeIndex>
    var signals: map<Topic, Erased>
    var serializers: map<Topic, Erased>
    var stringifiers: map<Topic, Erased>
    var lastValues: map<Topic, LvcEntry>
    var topicQos: map<Topic, bool>
    // How many signals have been made.
    var made: nat

    ghost function View(): Bus
      reads this
    {
      Bus(typeIndices, signals, serializers, stringifiers, lastValues, (set t | t in topicQos && topicQos[t]), made)
    }

    constructor ()
      ensures View() == EMPTY
    {
      typeIndices, signals, serializers, stringifiers := map[], map[], map[], map[];
      lastValues, topicQos, made := map[], map[], 0;
    }

    // The check that every operation on a topic starts with.
    method CheckType(topic: Topic, typ: TypeIndex) returns (ok: bool)
      modifies this`typeIndices
      ensures ok == Fits(old(View()), topic, typ)
      ensures View() == if ok then Claim(old(View()), topic, typ) else old(View())
    {
      if topic in typeIndices {
        if typeIndices[topic] != typ {
          return false;
        }
      } else {
        typeIndices := typeIndices[topic := typ];
      }
      return true;
    }

    method InternalGetOrCreateSignal(topic: Topic, typ: TypeIndex) returns (signal: Option<Erased>)
      modifies this`typeIndices, this`signals, this`made
      ensures (View(), signal) == GetOrCreateSignal(old(View()), topic, typ)
    {
      var ok := CheckType(topic, typ);
      if !ok {
        return None;
      }
      if topic in signals {
        return Some(signals[topic]);
      }
      signal := Some(Erased(typ, made));
      signals := signals[topic := signal.value];
      made := made + 1;
    }

    method SubscribeFirst(topic: Topic, typ: TypeIndex, cache: bool) returns (signal: Option<Erased>)
      modifies this
      ensures (View(), signal) == SubscribeRegion(old(View()), topic, typ, cache)
    {
      if cache {
        topicQos := topicQos[topic := true];
        assert View() == old(View()).(caching := old(View()).caching + {topic});
      }
      signal := InternalGetOrCreateSignal(topic, typ);
    }

    method SubscribeSecond(topic: Topic, cache: bool, lifespan: Option<int>, now: int) returns (cached: Option<LvcEntry>)
      ensures cached == CachedRegion(View(), topic, cache, lifespan, now)
    {
      cached := None;
      if cache && topic in lastValues {
        var expired := false;
        if lifespan.Some? {
          expired := now - lastValues[topic].timestamp > lifespan.value;
        }
        if !expired {
          cached := Some(lastValues[topic]);
        }
      }
    }

    method InternalPublish(topic: Topic, typ: TypeIndex, data: int, now: int) returns (handout: Option<Handout>)
      modifies this
      ensures (View(), handout) == PublishRegion(old(View()), topic, typ, data, now)
    {
      var ok := CheckType(topic, typ);
      if !ok {
        return None;
      }
      if topic in topicQos && topicQos[topic] {
        if topic in lastValues {
          // The slot is reused: its object is destroyed and constructed again, as type `typ`.
          lastValues := lastValues[topic := lastValues[topic].(typ := typ, value := data)];
          lastValues := lastValues[topic := lastValues[topic].(timestamp := now)];
          assert lastValues == old(lastValues)[topic := LvcEntry(typ, data, now)];
        } else {
          lastValues := lastValues[topic := LvcEntry(typ, data, now)];
        }
      }
      var signal, serializer, stringifier := None, None, None;
      if topic in stringifiers {
        stringifier := Some(stringifiers[topic]);
      }
      if topic in signals {
        signal := Some(signals[topic]);
      }
      if topic in serializers {
        serializer := Some(serializers[topic]);
      }
      handout := Some(Handout(signal, serializer, stringifier));
    }

    method InternalRegisterSerializer(topic: Topic, typ: TypeIndex, serializer: nat) returns (ok: bool)
      modifies this
      ensures View() == SerializerRegion(old(View()), topic, typ, serializer) && ok == Fits(old(View()), topic, typ)
    {
      ok := CheckType(topic, typ);
      if ok {
        serializers := serializers[topic := Erased(typ, serializer)];
      }
    }

    method InternalRegisterStringifier(topic: Topic, typ: TypeIndex, stringifier: nat) returns (ok: bool)
      modifies this
      ensures View() == StringifierRegion(old(View()), topic, typ, stringifier) && ok == Fits(old(View()), topic, typ)
    {
      ok := CheckType(topic, typ);
      if ok {
        stringifiers := stringifiers[topic := Erased(typ, stringifier)];
      }
    }

    method InternalLastValueCache(topic: Topic, enabled: bool)
      modifies this`topicQos
      ensures View() == CacheRegion(old(View()), topic, enabled)
    {
      topicQos := topicQos[topic := enabled];
    }

    method InternalReset()
      modifies this
      ensures View() == ResetRegion(old(View()))
    {
      signals, serializers, lastValues := map[], map[], map[];
      topicQos, stringifiers, typeIndices := map[], map[], map[];
    }
  }
}
