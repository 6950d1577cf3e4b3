/** Every run of the bus: any threads subscribing, publishing, registering and resetting,
    in any interleaving of the regions under the lock. What the maps hold is compared with
    what the history of calls alone says they should. */
module BusRuns {
  import opened Common
  import opened DataBuses

  // A subscription between its two regions.
  datatype Sub = Sub(topic: Topic, typ: TypeIndex, cache: bool, lifespan: Option<int>)

  datatype State = State(bus: Bus, joining: map<nat, Sub>)

  datatype Step =
    | SubscribeBegin(call: nat, sub: Sub)
    | SubscribeEnd(call: nat, now: int)
    | Publish(topic: Topic, typ: TypeIndex, value: int, now: int)
    | RegisterSerializer(topic: Topic, typ: TypeIndex, serializer: nat)
    | RegisterStringifier(topic: Topic, typ: TypeIndex, stringifier: nat)
    | LastValueCache(topic: Topic, enabled: bool)
    | Reset

  const INIT := State(EMPTY, map[])

  function Next(s: State, step: Step): State {
    match step
    case SubscribeBegin(c, sub) =>
      if c in s.joining then s
      else
        var (bus, signal) := SubscribeRegion(s.bus, sub.topic, sub.typ, sub.cache);
        State(bus, if signal.Some? then s.joining[c := sub] else s.joining)
    case SubscribeEnd(c, _) => s.(joining := s.joining - {c})
    case Publish(topic, typ, value, now) => s.(bus := PublishRegion(s.bus, topic, typ, value, now).0)
    case RegisterSerializer(topic, typ, serializer) => s.(bus := SerializerRegion(s.bus, topic, typ, serializer))
    case RegisterStringifier(topic, typ, stringifier) => s.(bus := StringifierRegion(s.bus, topic, typ, stringifier))
    case LastValueCache(topic, enabled) => s.(bus := CacheRegion(s.bus, topic, enabled))
    case Reset => s.(bus := ResetRegion(s.bus))
  }

  function Exec(steps: seq<Step>): State {
    if steps == [] then INIT else Next(Exec(steps[..|steps| - 1]), steps[|steps| - 1])
  }

  // ---------------------------------------------------------------- what the history says

  // A call number is used for one subscription at a time.
  predicate Names(s: State, step: Step, topic: Topic) {
    match step
    case SubscribeBegin(c, sub) => c !in s.joining && sub.topic == topic
    case SubscribeEnd(_, _) => false
    case Publish(t, _, _, _) => t == topic
    case RegisterSerializer(t, _, _) => t == topic
    case RegisterStringifier(t, _, _) => t == topic
    case LastValueCache(_, _) => false
    case Reset => false
  }

  function TypeIn(step: Step): TypeIndex {
    match step
    case SubscribeBegin(_, sub) => sub.typ
    case Publish(_, typ, _, _) => typ
    case RegisterSerializer(_, typ, _) => typ
    case RegisterStringifier(_, typ, _) => typ
    case SubscribeEnd(_, _) => 0
    case LastValueCache(_, _) => 0
    case Reset => 0
  }

  // The type a topic was first used with since the last reset.
  function TypeOf(steps: seq<Step>, topic: Topic): Option<TypeIndex> {
    if steps == [] then None
    else TypeAfter(Exec(steps[..|steps| - 1]), steps[|steps| - 1], topic, TypeOf(steps[..|steps| - 1], topic))
  }

  function TypeAfter(s: State, step: Step, topic: Topic, was: Option<TypeIndex>): Option<TypeIndex> {
    if step.Reset? then None else if was == None && Names(s, step, topic) then Some(TypeIn(step)) else was
  }

  // Since the last reset some subscriber, or a call of LastValueCache, has asked for
  // caching, and no call has switched it off again.
  function CachingOn(steps: seq<Step>, topic: Topic): bool {
    if steps == [] then false
    else CachingAfter(Exec(steps[..|steps| - 1]), steps[|steps| - 1], topic, CachingOn(steps[..|steps| - 1], topic))
  }

  function CachingAfter(s: State, step: Step, topic: Topic, was: bool): bool {
    if step.Reset? then false
    else if step.LastValueCache? && step.topic == topic then step.enabled
    else was || (step.SubscribeBegin? && Names(s, step, topic) && step.sub.cache)
  }

  // The latest publish of the topic, with its type, made while caching was on.
  function LatestCached(steps: seq<Step>, topic: Topic): Option<LvcEntry> {
    if steps == [] then None
    else
      var before := steps[..|steps| - 1];
      LatestAfter(steps[|steps| - 1], topic, TypeOf(before, topic), CachingOn(before, topic), LatestCached(before, topic))
  }

  function LatestAfter(step: Step, topic: Topic, typ: Option<TypeIndex>, caching: bool,
      was: Option<LvcEntry>): Option<LvcEntry> {
    if step.Reset? then None
    else if step.Publish? && step.topic == topic && caching && (typ == None || typ == Some(step.typ))
    then Some(LvcEntry(step.typ, step.value, step.now))
    else was
  }

  // ---------------------------------------------------------------- the history, by position

  // Step i publishes the topic, with its type, while caching is on.
  ghost predicate CachedAt(steps: seq<Step>, topic: Topic, i: nat)
    requires i < |steps|
  {
    && steps[i].Publish? && steps[i].topic == topic && CachingOn(steps[..i], topic)
    && TypeOf(steps[..i], topic) in {None, Some(steps[i].typ)}
  }

  // Step i is the last such publish, and no reset follows it.
  ghost predicate LatestAt(steps: seq<Step>, topic: Topic, entry: LvcEntry, i: nat) {
    && i < |steps| && CachedAt(steps, topic, i) && entry == LvcEntry(steps[i].typ, steps[i].value, steps[i].now)
    && forall j | i < j < |steps| :: !CachedAt(steps, topic, j) && !steps[j].Reset?
  }

  /** The latest cached publish is the last matching one made while caching was on, if no
      reset came after it. */
  lemma {:induction false} LatestCachedIff(steps: seq<Step>, topic: Topic, entry: LvcEntry)
    ensures LatestCached(steps, topic) == Some(entry) <==> exists i :: LatestAt(steps, topic, entry, i)
  {
    if steps != [] {
      var n := |steps| - 1;
      LatestCachedIff(steps[..n], topic, entry);
      forall i: nat | i < n ensures CachedAt(steps[..n], topic, i) == CachedAt(steps, topic, i) {
        assert steps[..n][..i] == steps[..i];
      }
      if steps[n].Reset? || CachedAt(steps, topic, n) {
        forall i: nat ensures LatestAt(steps, topic, entry, i) ==> i == n {
        }
        if CachedAt(steps, topic, n) && entry == LvcEntry(steps[n].typ, steps[n].value, steps[n].now) {
          assert LatestAt(steps, topic, entry, n);
        }
      } else {
        forall i: nat ensures LatestAt(steps[..n], topic, entry, i) == LatestAt(steps, topic, entry, i) {
          LatestExtends(steps, topic, entry, i);
        }
      }
    }
  }

  lemma LatestExtends(steps: seq<Step>, topic: Topic, entry: LvcEntry, i: nat)
    requires steps != [] && !steps[|steps| - 1].Reset? && !CachedAt(steps, topic, |steps| - 1)
    requires forall j: nat | j < |steps| - 1 :: CachedAt(steps[..|steps| - 1], topic, j) == CachedAt(steps, topic, j)
    ensures LatestAt(steps[..|steps| - 1], topic, entry, i) == LatestAt(steps, topic, entry, i)
  {
  }

  // Step i asks for the topic's caching, or ends it.
  predicate Enables(steps: seq<Step>, topic: Topic, i: nat)
    requires i < |steps|
  {
    steps[i] == LastValueCache(topic, true)
    || (steps[i].SubscribeBegin? && steps[i].call !in Exec(steps[..i]).joining
        && steps[i].sub.topic == topic && steps[i].sub.cache)
  }

  predicate Disables(steps: seq<Step>, topic: Topic, i: nat)
    requires i < |steps|
  {
    steps[i].Reset? || steps[i] == LastValueCache(topic, false)
  }

  ghost predicate EnabledAt(steps: seq<Step>, topic: Topic, i: nat) {
    i < |steps| && Enables(steps, topic, i) && forall j | i < j < |steps| :: !Disables(steps, topic, j)
  }

  /** A topic caches if and only if somebody asked for it and nobody has ended it since. */
  lemma {:induction false} CachingOnIff(steps: seq<Step>, topic: Topic)
    ensures CachingOn(steps, topic) <==> exists i :: EnabledAt(steps, topic, i)
  {
    if steps != [] {
      var n := |steps| - 1;
      CachingOnIff(steps[..n], topic);
      forall i: nat | i < n
        ensures Enables(steps[..n], topic, i) == Enables(steps, topic, i)
        ensures Disables(steps[..n], topic, i) == Disables(steps, topic, i)
      {
        assert steps[..n][..i] == steps[..i];
      }
      if Enables(steps, topic, n) {
        assert EnabledAt(steps, topic, n);
      } else if !Disables(steps, topic, n) {
        forall i: nat ensures EnabledAt(steps[..n], topic, i) == EnabledAt(steps, topic, i) {
        }
      }
    }
  }

  ghost predicate NamedAt(steps: seq<Step>, topic: Topic, i: nat)
    requires i < |steps|
  {
    Names(Exec(steps[..i]), steps[i], topic)
  }

  // Step i names the topic while it has no type, and no reset follows.
  ghost predicate FirstNamedAt(steps: seq<Step>, topic: Topic, typ: TypeIndex, i: nat) {
    && i < |steps| && NamedAt(steps, topic, i) && TypeOf(steps[..i], topic) == None && TypeIn(steps[i]) == typ
    && forall r | i < r < |steps| :: !steps[r].Reset?
  }

  ghost predicate NamedSinceReset(steps: seq<Step>, topic: Topic, i: nat) {
    i < |steps| && NamedAt(steps, topic, i) && forall r | i < r < |steps| :: !steps[r].Reset?
  }

  lemma NamedPrefix(steps: seq<Step>, topic: Topic)
    requires steps != []
    ensures forall i: nat | i < |steps| - 1 :: NamedAt(steps[..|steps| - 1], topic, i) == NamedAt(steps, topic, i)
  {
    forall i: nat | i < |steps| - 1
      ensures NamedAt(steps[..|steps| - 1], topic, i) == NamedAt(steps, topic, i)
    {
      assert steps[..|steps| - 1][..i] == steps[..i];
    }
  }

  /** A topic has no type if and only if no call has named it since the last reset. */
  lemma {:induction false} NoTypeIff(steps: seq<Step>, topic: Topic)
    ensures TypeOf(steps, topic) == None <==> !exists i :: NamedSinceReset(steps, topic, i)
  {
    if steps != [] {
      var n := |steps| - 1;
      NoTypeIff(steps[..n], topic);
      NamedPrefix(steps, topic);
      if !steps[n].Reset? {
        if NamedAt(steps, topic, n) {
          assert NamedSinceReset(steps, topic, n);
        } else {
          forall i: nat ensures NamedSinceReset(steps[..n], topic, i) == NamedSinceReset(steps, topic, i) {
          }
        }
      }
    }
  }

  /** And its type is that of the call that named it first. */
  lemma {:induction false} TypeOfIff(steps: seq<Step>, topic: Topic, typ: TypeIndex)
    ensures TypeOf(steps, topic) == Some(typ) <==> exists i :: FirstNamedAt(steps, topic, typ, i)
  {
    if steps != [] {
      var n := |steps| - 1;
      TypeOfIff(steps[..n], topic, typ);
      NamedPrefix(steps, topic);
      if !steps[n].Reset? {
        forall i: nat | i < n
          ensures FirstNamedAt(steps[..n], topic, typ, i) == FirstNamedAt(steps, topic, typ, i)
        {
          assert steps[..n][..i] == steps[..i];
        }
        if TypeOf(steps[..n], topic) == None {
          assert FirstNamedAt(steps, topic, typ, n) <==> TypeOf(steps, topic) == Some(typ);
        }
      }
    }
  }

  // ---------------------------------------------------------------- the maps agree with it

  ghost predicate Agrees(b: Bus, steps: seq<Step>, topic: Topic) {
    && Lookup(b.typeIndices, topic) == TypeOf(steps, topic)
    && (topic in b.caching <==> CachingOn(steps, topic))
    && Lookup(b.lastValues, topic) == LatestCached(steps, topic)
  }

  // Everything kept for a topic has the topic's type.
  ghost predicate Typed(b: Bus, topic: Topic) {
    && (topic in b.signals ==> Lookup(b.typeIndices, topic) == Some(b.signals[topic].typ))
    && (topic in b.serializers ==> Lookup(b.typeIndices, topic) == Some(b.serializers[topic].typ))
    && (topic in b.stringifiers ==> Lookup(b.typeIndices, topic) == Some(b.stringifiers[topic].typ))
    && (topic in b.lastValues ==> Lookup(b.typeIndices, topic) == Some(b.lastValues[topic].typ))
  }

  lemma NextTyped(s: State, step: Step, topic: Topic)
    requires Typed(s.bus, topic)
    ensures Typed(Next(s, step).bus, topic)
  {
    match step
    case SubscribeBegin(_, sub) => SubscribeTyped(s.bus, sub, topic);
    case Publish(t, typ, value, now) => PublishTyped(s.bus, t, typ, value, now, topic);
    case RegisterSerializer(_, _, _) =>
    case RegisterStringifier(_, _, _) =>
    case SubscribeEnd(_, _) =>
    case LastValueCache(_, _) =>
    case Reset =>
  }

  lemma SubscribeTyped(b: Bus, sub: Sub, topic: Topic)
    requires Typed(b, topic)
    ensures Typed(SubscribeRegion(b, sub.topic, sub.typ, sub.cache).0, topic)
  {
    var on := if sub.cache then b.(caching := b.caching + {sub.topic}) else b;
    assert Typed(on, topic);
    SignalTyped(on, sub.topic, sub.typ, topic);
  }

  lemma SignalTyped(b: Bus, t: Topic, typ: TypeIndex, topic: Topic)
    requires Typed(b, topic)
    ensures Typed(GetOrCreateSignal(b, t, typ).0, topic)
  {
  }

  lemma PublishTyped(b: Bus, t: Topic, typ: TypeIndex, value: int, now: int, topic: Topic)
    requires Typed(b, topic)
    ensures Typed(PublishRegion(b, t, typ, value, now).0, topic)
  {
  }

  /** In every reachable state each topic's signal, serializer, stringifier and cached value
      have the type registered for the topic. */
  lemma {:induction false} AllTyped(steps: seq<Step>, topic: Topic)
    ensures Typed(Exec(steps).bus, topic)
  {
    if steps != [] {
      AllTyped(steps[..|steps| - 1], topic);
      NextTyped(Exec(steps[..|steps| - 1]), steps[|steps| - 1], topic);
    }
  }

  lemma SubscribeStep(b: Bus, t: Topic, typ: TypeIndex, cache: bool, topic: Topic)
    ensures var after := SubscribeRegion(b, t, typ, cache).0;
            && Lookup(after.typeIndices, topic)
               == (if topic == t && topic !in b.typeIndices then Some(typ) else Lookup(b.typeIndices, topic))
            && (topic in after.caching <==> topic in b.caching || (topic == t && cache))
            && after.lastValues == b.lastValues
  {
  }

  lemma TypeStep(s: State, step: Step, topic: Topic)
    ensures Lookup(Next(s, step).bus.typeIndices, topic)
            == TypeAfter(s, step, topic, Lookup(s.bus.typeIndices, topic))
  {
    match step
    case SubscribeBegin(_, sub) => SubscribeStep(s.bus, sub.topic, sub.typ, sub.cache, topic);
    case Publish(_, _, _, _) =>
    case RegisterSerializer(_, _, _) =>
    case RegisterStringifier(_, _, _) =>
    case SubscribeEnd(_, _) =>
    case LastValueCache(_, _) =>
    case Reset =>
  }

  lemma CachingStep(s: State, step: Step, topic: Topic)
    ensures topic in Next(s, step).bus.caching <==> CachingAfter(s, step, topic, topic in s.bus.caching)
  {
    match step
    case SubscribeBegin(_, sub) => SubscribeStep(s.bus, sub.topic, sub.typ, sub.cache, topic);
    case Publish(_, _, _, _) =>
    case RegisterSerializer(_, _, _) =>
    case RegisterStringifier(_, _, _) =>
    case SubscribeEnd(_, _) =>
    case LastValueCache(_, _) =>
    case Reset =>
  }

  lemma LatestStep(s: State, step: Step, topic: Topic)
    ensures Lookup(Next(s, step).bus.lastValues, topic)
            == LatestAfter(step, topic, Lookup(s.bus.typeIndices, topic), topic in s.bus.caching,
                Lookup(s.bus.lastValues, topic))
  {
    match step
    case SubscribeBegin(_, sub) => SubscribeStep(s.bus, sub.topic, sub.typ, sub.cache, topic);
    case Publish(_, _, _, _) =>
    case RegisterSerializer(_, _, _) =>
    case RegisterStringifier(_, _, _) =>
    case SubscribeEnd(_, _) =>
    case LastValueCache(_, _) =>
    case Reset =>
  }

  /** A topic's type, whether it caches and its cached value with its timestamp are those
      of the history: the type it was first used with, and the latest publish of that type
      made while caching was on. */
  lemma {:induction false} MapsAgree(steps: seq<Step>, topic: Topic)
    ensures Agrees(Exec(steps).bus, steps, topic)
  {
    if steps != [] {
      var s, last := Exec(steps[..|steps| - 1]), steps[|steps| - 1];
      MapsAgree(steps[..|steps| - 1], topic);
      TypeStep(s, last, topic);
      CachingStep(s, last, topic);
      LatestStep(s, last, topic);
    }
  }

  /** Whatever a publish takes out of the maps, to cast it to its own type outside the
      lock, has that type; and a publish of another type changes nothing. */
  lemma PublishIsTypeSafe(steps: seq<Step>, topic: Topic, typ: TypeIndex, value: int, now: int)
    ensures var b := Exec(steps).bus;
            var (after, handout) := PublishRegion(b, topic, typ, value, now);
            && (handout == None <==> TypeOf(steps, topic).Some? && TypeOf(steps, topic).value != typ)
            && (handout == None ==> after == b)
            && (handout.Some? ==>
                  && (handout.value.signal.Some? ==> handout.value.signal.value.typ == typ)
                  && (handout.value.serializer.Some? ==> handout.value.serializer.value.typ == typ)
                  && (handout.value.stringifier.Some? ==> handout.value.stringifier.value.typ == typ)
                  && (topic in b.lastValues ==> b.lastValues[topic].typ == typ))
  {
    AllTyped(steps, topic);
    MapsAgree(steps, topic);
  }

  // ---------------------------------------------------------------- what a publish hands out

  // The type fits what the history says of the topic.
  predicate FitsHistory(steps: seq<Step>, topic: Topic, typ: TypeIndex) {
    TypeOf(steps, topic) in {None, Some(typ)}
  }

  lemma FitsIff(steps: seq<Step>, topic: Topic, typ: TypeIndex)
    ensures Fits(Exec(steps).bus, topic, typ) <==> FitsHistory(steps, topic, typ)
  {
    MapsAgree(steps, topic);
  }

  // Step i is a subscription of the topic that is not refused.
  ghost predicate AcceptedAt(steps: seq<Step>, topic: Topic, i: nat)
    requires i < |steps|
  {
    && steps[i].SubscribeBegin? && steps[i].sub.topic == topic && steps[i].call !in Exec(steps[..i]).joining
    && FitsHistory(steps[..i], topic, steps[i].sub.typ)
  }

  // The signal to which that subscription goes on to connect.
  function GivenSignal(steps: seq<Step>, i: nat): Option<Erased>
    requires i < |steps| && steps[i].SubscribeBegin?
  {
    SubscribeRegion(Exec(steps[..i]).bus, steps[i].sub.topic, steps[i].sub.typ, steps[i].sub.cache).1
  }

  ghost predicate SubscribedAt(steps: seq<Step>, topic: Topic, signal: Erased, i: nat) {
    && i < |steps| && AcceptedAt(steps, topic, i) && GivenSignal(steps, i) == Some(signal)
    && forall r | i < r < |steps| :: !steps[r].Reset?
  }

  predicate Subscribes(s: State, step: Step, topic: Topic) {
    step.SubscribeBegin? && step.call !in s.joining && step.sub.topic == topic && Fits(s.bus, topic, step.sub.typ)
  }

  lemma SignalStep(s: State, step: Step, topic: Topic)
    ensures var was, now := Lookup(s.bus.signals, topic), Lookup(Next(s, step).bus.signals, topic);
            && (step.Reset? ==> now == None)
            && (!step.Reset? && was.Some? ==> now == was)
            && (Subscribes(s, step, topic) ==>
                  now.Some? && now == SubscribeRegion(s.bus, topic, step.sub.typ, step.sub.cache).1)
            && (!step.Reset? && !Subscribes(s, step, topic) ==> now == was)
  {
    if step.SubscribeBegin? && step.call !in s.joining {
      SubscribeSignals(if step.sub.cache then CacheRegion(s.bus, step.sub.topic, true) else s.bus,
                       step.sub.topic, step.sub.typ, topic);
    }
  }

  lemma SubscribeSignals(b: Bus, t: Topic, typ: TypeIndex, topic: Topic)
    ensures var (after, given) := GetOrCreateSignal(b, t, typ);
            && (given.Some? <==> Fits(b, t, typ))
            && (given.Some? ==> Lookup(after.signals, t) == given)
            && (given == None ==> after == b)
            && (t != topic ==> Lookup(after.signals, topic) == Lookup(b.signals, topic))
            && (topic in b.signals ==> Lookup(after.signals, topic) == Lookup(b.signals, topic))
  {
  }

  lemma AcceptedIff(steps: seq<Step>, topic: Topic, i: nat)
    requires i < |steps|
    ensures AcceptedAt(steps, topic, i) <==> Subscribes(Exec(steps[..i]), steps[i], topic)
  {
    if steps[i].SubscribeBegin? {
      FitsIff(steps[..i], topic, steps[i].sub.typ);
    }
  }

  ghost predicate SomeSubscribed(steps: seq<Step>, topic: Topic, signal: Erased) {
    exists i :: SubscribedAt(steps, topic, signal, i)
  }

  lemma SubscribedKept(steps: seq<Step>, topic: Topic, signal: Erased, i: nat)
    requires i < |steps| - 1 && !steps[|steps| - 1].Reset?
    ensures SubscribedAt(steps[..|steps| - 1], topic, signal, i) == SubscribedAt(steps, topic, signal, i)
  {
    var before := steps[..|steps| - 1];
    assert before[..i] == steps[..i] && before[i] == steps[i];
    if SubscribedAt(before, topic, signal, i) {
      forall r | i < r < |steps| ensures !steps[r].Reset? {
        if r < |before| { assert !before[r].Reset?; }
      }
    }
  }

  // One step more, that does not reset the bus.
  lemma {:induction false} SubscribedMore(steps: seq<Step>, topic: Topic, signal: Erased)
    requires steps != [] && !steps[|steps| - 1].Reset?
    ensures SomeSubscribed(steps, topic, signal)
            <==> SomeSubscribed(steps[..|steps| - 1], topic, signal) || SubscribedAt(steps, topic, signal, |steps| - 1)
  {
    var n := |steps| - 1;
    if i: nat :| SubscribedAt(steps[..n], topic, signal, i) {
      SubscribedKept(steps, topic, signal, i);
      assert SubscribedAt(steps, topic, signal, i);
    }
    if i: nat :| SubscribedAt(steps, topic, signal, i) {
      if i < n {
        SubscribedKept(steps, topic, signal, i);
        assert SubscribedAt(steps[..n], topic, signal, i);
      }
    }
  }

  lemma {:induction false} SignalIff(steps: seq<Step>, topic: Topic, signal: Erased)
    ensures Lookup(Exec(steps).bus.signals, topic) == Some(signal) <==> SomeSubscribed(steps, topic, signal)
  {
    if steps != [] {
      var n := |steps| - 1;
      SignalIff(steps[..n], topic, signal);
      SignalStep(Exec(steps[..n]), steps[n], topic);
      AcceptedIff(steps, topic, n);
      if steps[n].Reset? {
        assert forall i: nat :: SubscribedAt(steps, topic, signal, i) ==> i == n;
      } else {
        SubscribedMore(steps, topic, signal);
        assert SubscribedAt(steps, topic, signal, n)
               <==> AcceptedAt(steps, topic, n) && GivenSignal(steps, n) == Some(signal);
      }
    }
  }

  // Step i registers a serializer for the topic, with its type.
  ghost predicate SerializerAt(steps: seq<Step>, topic: Topic, i: nat)
    requires i < |steps|
  {
    steps[i].RegisterSerializer? && steps[i].topic == topic && FitsHistory(steps[..i], topic, steps[i].typ)
  }

  // And it is the last to do so, with no reset behind it.
  ghost predicate LastSerializerAt(steps: seq<Step>, topic: Topic, e: Erased, i: nat) {
    && i < |steps| && SerializerAt(steps, topic, i) && e == Erased(steps[i].typ, steps[i].serializer)
    && forall j | i < j < |steps| :: !SerializerAt(steps, topic, j) && !steps[j].Reset?
  }

  ghost predicate StringifierAt(steps: seq<Step>, topic: Topic, i: nat)
    requires i < |steps|
  {
    steps[i].RegisterStringifier? && steps[i].topic == topic && FitsHistory(steps[..i], topic, steps[i].typ)
  }

  ghost predicate LastStringifierAt(steps: seq<Step>, topic: Topic, e: Erased, i: nat) {
    && i < |steps| && StringifierAt(steps, topic, i) && e == Erased(steps[i].typ, steps[i].stringifier)
    && forall j | i < j < |steps| :: !StringifierAt(steps, topic, j) && !steps[j].Reset?
  }

  lemma RegistryStep(s: State, step: Step, topic: Topic)
    ensures var b, n := s.bus, Next(s, step).bus;
            && Lookup(n.serializers, topic)
               == (if step.Reset? then None
                   else if step.RegisterSerializer? && step.topic == topic && Fits(b, topic, step.typ)
                     then Some(Erased(step.typ, step.serializer)) else Lookup(b.serializers, topic))
            && Lookup(n.stringifiers, topic)
               == (if step.Reset? then None
                   else if step.RegisterStringifier? && step.topic == topic && Fits(b, topic, step.typ)
                     then Some(Erased(step.typ, step.stringifier)) else Lookup(b.stringifiers, topic))
  {
  }

  lemma RegistryPrefix(steps: seq<Step>, topic: Topic)
    requires steps != []
    ensures var before := steps[..|steps| - 1];
            forall i: nat | i < |before| ::
              && SerializerAt(before, topic, i) == SerializerAt(steps, topic, i)
              && StringifierAt(before, topic, i) == StringifierAt(steps, topic, i)
  {
    var before := steps[..|steps| - 1];
    forall i: nat | i < |before|
      ensures SerializerAt(before, topic, i) == SerializerAt(steps, topic, i)
      ensures StringifierAt(before, topic, i) == StringifierAt(steps, topic, i)
    {
      assert before[..i] == steps[..i];
    }
  }

  lemma {:induction false} SerializerIff(steps: seq<Step>, topic: Topic, e: Erased)
    ensures Lookup(Exec(steps).bus.serializers, topic) == Some(e) <==> exists i :: LastSerializerAt(steps, topic, e, i)
  {
    if steps != [] {
      var n := |steps| - 1;
      SerializerIff(steps[..n], topic, e);
      RegistryPrefix(steps, topic);
      RegistryStep(Exec(steps[..n]), steps[n], topic);
      if steps[n].RegisterSerializer? {
        FitsIff(steps[..n], topic, steps[n].typ);
      }
      if steps[n].Reset? || SerializerAt(steps, topic, n) {
        assert forall i: nat :: LastSerializerAt(steps, topic, e, i) ==> i == n;
        if SerializerAt(steps, topic, n) && e == Erased(steps[n].typ, steps[n].serializer) {
          assert LastSerializerAt(steps, topic, e, n);
        }
      } else {
        forall i: nat ensures LastSerializerAt(steps[..n], topic, e, i) == LastSerializerAt(steps, topic, e, i) {
        }
      }
    }
  }

  lemma {:induction false} StringifierIff(steps: seq<Step>, topic: Topic, e: Erased)
    ensures Lookup(Exec(steps).bus.stringifiers, topic) == Some(e) <==> exists i :: LastStringifierAt(steps, topic, e, i)
  {
    if steps != [] {
      var n := |steps| - 1;
      StringifierIff(steps[..n], topic, e);
      RegistryPrefix(steps, topic);
      RegistryStep(Exec(steps[..n]), steps[n], topic);
      if steps[n].RegisterStringifier? {
        FitsIff(steps[..n], topic, steps[n].typ);
      }
      if steps[n].Reset? || StringifierAt(steps, topic, n) {
        assert forall i: nat :: LastStringifierAt(steps, topic, e, i) ==> i == n;
        if StringifierAt(steps, topic, n) && e == Erased(steps[n].typ, steps[n].stringifier) {
          assert LastStringifierAt(steps, topic, e, n);
        }
      } else {
        forall i: nat ensures LastStringifierAt(steps[..n], topic, e, i) == LastStringifierAt(steps, topic, e, i) {
        }
      }
    }
  }

  /** What a publish hands out, by the history alone: a publish whose type fits hands out the
      signal that some subscriber of the topic was given since the last reset, or none if
      there was none, and the serializer and the stringifier registered last with the
      topic's type since then. */
  lemma {:induction false} PublishHandsOut(steps: seq<Step>, topic: Topic, typ: TypeIndex, value: int, now: int, e: Erased)
    ensures var handout := PublishRegion(Exec(steps).bus, topic, typ, value, now).1;
            && (handout.Some? <==> FitsHistory(steps, topic, typ))
            && (handout.Some? ==>
                  && (handout.value.signal == Some(e) <==> SomeSubscribed(steps, topic, e))
                  && (handout.value.serializer == Some(e) <==> exists i :: LastSerializerAt(steps, topic, e, i))
                  && (handout.value.stringifier == Some(e) <==> exists i :: LastStringifierAt(steps, topic, e, i)))
  {
    FitsIff(steps, topic, typ);
    SignalIff(steps, topic, e);
    SerializerIff(steps, topic, e);
    StringifierIff(steps, topic, e);
  }

  /** Every subscriber of a topic is given a signal, and it is the same for all of them
      until a reset. */
  lemma {:induction false} OneSignal(steps: seq<Step>, topic: Topic, i: nat, j: nat)
    requires i <= j < |steps| && AcceptedAt(steps, topic, i) && AcceptedAt(steps, topic, j)
    requires forall r | i < r < j :: !steps[r].Reset?
    ensures GivenSignal(steps, i).Some? && GivenSignal(steps, j) == GivenSignal(steps, i)
  {
    AcceptedIff(steps, topic, i);
    SignalStep(Exec(steps[..i]), steps[i], topic);
    if i < j {
      var sig := GivenSignal(steps, i).value;
      SubscribedBefore(steps, topic, sig, i, j);
      SignalIff(steps[..j], topic, sig);
      AcceptedIff(steps, topic, j);
      SignalStep(Exec(steps[..j]), steps[j], topic);
    }
  }

  lemma {:induction false} SubscribedBefore(steps: seq<Step>, topic: Topic, signal: Erased, i: nat, j: nat)
    requires i < j < |steps| && AcceptedAt(steps, topic, i) && GivenSignal(steps, i) == Some(signal)
    requires forall r | i < r < j :: !steps[r].Reset?
    ensures SomeSubscribed(steps[..j], topic, signal)
  {
    var before := steps[..j];
    assert before[..i] == steps[..i];
    assert SubscribedAt(before, topic, signal, i);
  }

  // Signals are numbered, and no two topics share one.
  ghost predicate OwnSignals(b: Bus) {
    && (forall t | t in b.signals :: b.signals[t].id < b.made)
    && (forall t, u | t in b.signals && u in b.signals && t != u :: b.signals[t].id != b.signals[u].id)
  }

  /** In every reachable state different topics have different signals. */
  lemma {:induction false} SignalsApart(steps: seq<Step>)
    ensures OwnSignals(Exec(steps).bus)
  {
    if steps != [] {
      SignalsApart(steps[..|steps| - 1]);
      ApartStep(Exec(steps[..|steps| - 1]), steps[|steps| - 1]);
    }
  }

  lemma ApartStep(s: State, step: Step)
    requires OwnSignals(s.bus)
    ensures OwnSignals(Next(s, step).bus)
  {
    if step.SubscribeBegin? && step.call !in s.joining {
      var sub := step.sub;
      SubscribeApart(if sub.cache then CacheRegion(s.bus, sub.topic, true) else s.bus, sub.topic, sub.typ);
    } else {
      SameSignals(s, step);
    }
  }

  lemma SameSignals(s: State, step: Step)
    requires !(step.SubscribeBegin? && step.call !in s.joining)
    ensures Next(s, step).bus.signals == (if step.Reset? then map[] else s.bus.signals)
    ensures Next(s, step).bus.made == s.bus.made
  {
  }

  lemma SubscribeApart(b: Bus, topic: Topic, typ: TypeIndex)
    requires OwnSignals(b)
    ensures OwnSignals(GetOrCreateSignal(b, topic, typ).0)
  {
  }

  /** A subscriber that asks for the cached value is given one on joining exactly when a
      publish was cached and is not older than the subscriber's lifespan; and it is the
      latest. */
  lemma JoinerGetsLatest(steps: seq<Step>, c: nat, now: int)
    requires c in Exec(steps).joining
    ensures var s := Exec(steps);
            var sub := s.joining[c];
            var given, latest := CachedRegion(s.bus, sub.topic, sub.cache, sub.lifespan, now),
                LatestCached(steps, sub.topic);
            && (given.Some? <==>
                  sub.cache && latest.Some? && (sub.lifespan.Some? ==> now - latest.value.timestamp <= sub.lifespan.value))
            && (given.Some? ==> given == latest)
  {
    MapsAgree(steps, Exec(steps).joining[c].topic);
  }

  // ---------------------------------------------------------------- the unchecked cast

  // No reset since the subscription's first region.
  ghost predicate Undisturbed(steps: seq<Step>, c: nat)
  {
    steps != [] &&
    var before, last := steps[..|steps| - 1], steps[|steps| - 1];
    !last.Reset? && ((last.SubscribeBegin? && last.call == c && c !in Exec(before).joining) || Undisturbed(before, c))
  }

  ghost predicate OwnsType(s: State, c: nat) {
    c in s.joining && Lookup(s.bus.typeIndices, s.joining[c].topic) == Some(s.joining[c].typ)
  }

  lemma BeginOwnsType(s: State, c: nat, sub: Sub)
    requires c !in s.joining
    ensures c in Next(s, SubscribeBegin(c, sub)).joining ==> OwnsType(Next(s, SubscribeBegin(c, sub)), c)
  {
  }

  lemma StepKeepsType(s: State, step: Step, c: nat)
    requires OwnsType(s, c) && !step.Reset?
    ensures c in Next(s, step).joining ==> OwnsType(Next(s, step), c)
  {
    TypeStep(s, step, s.joining[c].topic);
  }

  lemma {:induction false} StillOwnType(steps: seq<Step>, c: nat)
    requires c in Exec(steps).joining && Undisturbed(steps, c)
    ensures OwnsType(Exec(steps), c)
  {
    var before, last := steps[..|steps| - 1], steps[|steps| - 1];
    if last.SubscribeBegin? && last.call == c && c !in Exec(before).joining {
      BeginOwnsType(Exec(before), c, last.sub);
    } else {
      StillOwnType(before, c);
      StepKeepsType(Exec(before), last, c);
    }
  }

  /** Between a subscription's two regions, if the bus is not reset, the cached value it is
      given has the subscriber's type. */
  lemma JoinerCastIsSafe(steps: seq<Step>, c: nat, now: int)
    requires c in Exec(steps).joining && Undisturbed(steps, c)
    ensures var s := Exec(steps);
            var sub := s.joining[c];
            var given := CachedRegion(s.bus, sub.topic, sub.cache, sub.lifespan, now);
            given.Some? ==> given.value.typ == sub.typ
  {
    StillOwnType(steps, c);
    AllTyped(steps, Exec(steps).joining[c].topic);
  }

  /** In general the cast is safe exactly when there is nothing to give, because caching was
      not asked for or no publish was cached that is recent enough, or the type now
      registered for the topic is still the subscriber's: the second region does not check
      it. */
  lemma JoinerCastSafeIff(steps: seq<Step>, c: nat, now: int)
    requires c in Exec(steps).joining
    ensures var s := Exec(steps);
            var sub, latest := s.joining[c], LatestCached(steps, s.joining[c].topic);
            var given := CachedRegion(s.bus, sub.topic, sub.cache, sub.lifespan, now);
            (given.Some? ==> given.value.typ == sub.typ) <==>
              || !sub.cache || latest == None
              || (sub.lifespan.Some? && now - latest.value.timestamp > sub.lifespan.value)
              || TypeOf(steps, sub.topic) == Some(sub.typ)
  {
    AllTyped(steps, Exec(steps).joining[c].topic);
    MapsAgree(steps, Exec(steps).joining[c].topic);
  }

  /** And a reset between the two regions can make it fail: another subscriber takes the
      topic with another type, and a value of that type is cached. */
  lemma ResetBreaksCast(topic: Topic, now: int)
    ensures exists steps: seq<Step> ::
              && 0 in Exec(steps).joining
              && var s := Exec(steps);
                 var sub := s.joining[0];
                 var given := CachedRegion(s.bus, sub.topic, sub.cache, sub.lifespan, now);
                 given.Some? && given.value.typ != sub.typ
  {
    var a, b := Sub(topic, 1, true, None), Sub(topic, 2, true, None);
    var s1 := [SubscribeBegin(0, a)];
    var s2 := s1 + [Reset];
    var s3 := s2 + [SubscribeBegin(1, b)];
    var s4 := s3 + [Publish(topic, 2, 7, now)];
    assert s1[..0] == [] && s2[..1] == s1 && s3[..2] == s2 && s4[..3] == s3;
    assert Exec(s1) == Next(INIT, s1[0]) && Exec(s2) == Next(Exec(s1), Reset);
    assert Exec(s3) == Next(Exec(s2), s3[2]) && Exec(s4) == Next(Exec(s3), s4[3]);
    assert Exec(s4).joining[0] == a;
  }

  // ---------------------------------------------------------------- a refused subscription

  /** A subscription of the wrong type is refused; it leaves the bus as it was if and only if
      it asked for no caching, or the topic was caching already. Whatever it asked, it caches
      nothing and registers nothing. */
  lemma RefusedStillCaches(b: Bus, topic: Topic, typ: TypeIndex, cache: bool)
    requires !Fits(b, topic, typ)
    ensures var (after, signal) := SubscribeRegion(b, topic, typ, cache);
            && signal == None
            && (after == b <==> !cache || topic in b.caching)
            && after == b.(caching := after.caching)
            && (forall t :: t in after.caching <==> t in b.caching || (t == topic && cache))
  {
    if topic in b.caching {
      assert b.caching + {topic} == b.caching;
    }
  }

  // The call finds another type registered: it reports the error, and then enters the fault
  // handler, which does not return.
  predicate Faults(s: State, step: Step) {
    match step
    case SubscribeBegin(c, sub) => c !in s.joining && !Fits(s.bus, sub.topic, sub.typ)
    case Publish(topic, typ, _, _) => !Fits(s.bus, topic, typ)
    case RegisterSerializer(topic, typ, _) => !Fits(s.bus, topic, typ)
    case RegisterStringifier(topic, typ, _) => !Fits(s.bus, topic, typ)
    case _ => false
  }

  // threads[i] is the thread of step i: none goes on after a call that faults. Other
  // threads may, until the fault handler has ended the program, and with it the run.
  ghost predicate Lawful(steps: seq<Step>, threads: seq<nat>) {
    |threads| == |steps| &&
    forall i, j | 0 <= i < j < |steps| && Faults(Exec(steps[..i]), steps[i]) :: threads[j] != threads[i]
  }

  // What the subscriber joining as call c is given.
  function Given(steps: seq<Step>, c: nat, now: int): Option<LvcEntry> {
    var s := Exec(steps);
    if c !in s.joining then None
    else CachedRegion(s.bus, s.joining[c].topic, s.joining[c].cache, s.joining[c].lifespan, now)
  }

  /** And that shows to other threads, as long as the fault handler has not ended the
      program: in this run a later subscriber of the right type is given a value only
      because of the refused subscription before it. The refused thread takes no further
      step, so the later publish and subscription are those of others. */
  lemma RefusedChangesJoiner(topic: Topic, now: int)
    ensures var first, second := Publish(topic, 1, 5, now), Publish(topic, 1, 7, now);
            var refused, joiner := SubscribeBegin(0, Sub(topic, 2, true, None)), SubscribeBegin(1, Sub(topic, 1, true, None));
            var steps := [first, refused, second, joiner];
            && Faults(Exec(steps[..1]), refused) && 0 !in Exec(steps).joining
            && Given(steps, 1, now) == Some(LvcEntry(1, 7, now))
            && 1 in Exec([first, second, joiner]).joining && Given([first, second, joiner], 1, now) == None
            && Lawful(steps, [0, 1, 2, 2])
            && forall threads :: Lawful(steps, threads) ==> threads[2] != threads[1] && threads[3] != threads[1]
  {
    var first, second := Publish(topic, 1, 5, now), Publish(topic, 1, 7, now);
    var refused, joiner := SubscribeBegin(0, Sub(topic, 2, true, None)), SubscribeBegin(1, Sub(topic, 1, true, None));
    var steps := [first, refused, second, joiner];
    ExecFour(first, refused, second, joiner);
    ExecThree(first, second, joiner);
    Prefixes(first, refused, second, joiner);
    assert Faults(Exec(steps[..1]), steps[1]);
    assert forall i: nat | i < 4 && i != 1 :: !Faults(Exec(steps[..i]), steps[i]);
  }

  lemma Prefixes(a: Step, b: Step, c: Step, d: Step)
    ensures var steps := [a, b, c, d];
            && Exec(steps[..0]) == INIT && Exec(steps[..1]) == Next(INIT, a)
            && Exec(steps[..2]) == Next(Next(INIT, a), b) && Exec(steps[..3]) == Next(Next(Next(INIT, a), b), c)
  {
    var steps := [a, b, c, d];
    assert steps[..0] == [] && steps[..1] == [a] && steps[..2] == [a, b] && steps[..3] == [a, b, c];
    assert [a][..0] == [] && [a, b][..1] == [a];
    ExecThree(a, b, c);
  }

  lemma ExecThree(a: Step, b: Step, c: Step)
    ensures Exec([a, b, c]) == Next(Next(Next(INIT, a), b), c)
  {
    assert [a, b, c][..2] == [a, b] && [a, b][..1] == [a] && [a][..0] == [];
    assert Exec([a]) == Next(INIT, a) && Exec([a, b]) == Next(Exec([a]), b);
  }

  lemma ExecFour(a: Step, b: Step, c: Step, d: Step)
    ensures Exec([a, b, c, d]) == Next(Next(Next(Next(INIT, a), b), c), d)
  {
    ExecThree(a, b, c);
    assert [a, b, c, d][..3] == [a, b, c];
  }
}
