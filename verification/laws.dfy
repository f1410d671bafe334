/** Properties of the serializer layer that relate several calls: the round
    trip through a codec, the error class each variant raises in both
    directions, and what a resolved codec can and cannot fail with. */
module SerializerLaws {
  import opened Wrappers
  import opened PyObjects
  import opened Serializers

  /** The codec's engine decodes what it encodes from `v` back to `v`. For a
      custom engine this needs `dumps` and `loads` to be present and callable. */
  ghost predicate EngineRoundTrips<O, E>(codec: Codec<O, E>, v: O)
  {
    match codec
    case Default(pickle) =>
      pickle.dumps(v).Success? && pickle.loads(pickle.dumps(v).value) == Success(v)
    case Custom(engine) =>
      && HasAttr(engine, "dumps") && engine.attrs["dumps"].Callable?
      && HasAttr(engine, "loads") && engine.attrs["loads"].Callable?
      && var encoded := engine.attrs["dumps"].call(v);
         encoded.Success? && engine.attrs["loads"].call(encoded.value) == Success(v)
  }

  /** The error class a codec raises, whichever direction failed. */
  function KindOf<O, E>(codec: Codec<O, E>): ErrorKind
  {
    if codec.Default? then UnpickleError else DeserializationError
  }

  /** Round trip: a codec whose engine round-trips `v` round-trips `v`, and the
      codec adds nothing of its own to the value. */
  lemma RoundTrip<O, E>(codec: Codec<O, E>, v: O)
    requires EngineRoundTrips(codec, v)
    ensures Serialize(codec, v).Success?
    ensures Deserialize(codec, Serialize(codec, v).value) == Success(v)
  {
  }

  /** Conversely, a codec round trip succeeds only when the engine's own
      encoding and decoding of `v` succeed. */
  lemma RoundTripNeedsEngine<O, E>(codec: Codec<O, E>, v: O)
    requires Serialize(codec, v).Success?
    requires Deserialize(codec, Serialize(codec, v).value) == Success(v)
    ensures EngineRoundTrips(codec, v)
  {
  }

  /** The error class follows the variant, not the direction: serialize and
      deserialize of one codec raise the same class. In particular a custom
      codec raises DeserializationError even when encoding fails. */
  lemma ErrorKindIgnoresDirection<O, E>(codec: Codec<O, E>, data: O, serialized: O)
    ensures Serialize(codec, data).Failure? ==> Serialize(codec, data).error.kind == KindOf(codec)
    ensures Deserialize(codec, serialized).Failure? ==>
              Deserialize(codec, serialized).error.kind == KindOf(codec)
  {
  }

  /** Every failure carries the caller's own input as its payload, whatever
      the codec and whatever the cause. */
  lemma FailureKeepsInput<O, E>(codec: Codec<O, E>, data: O, serialized: O)
    ensures Serialize(codec, data).Failure? ==> Serialize(codec, data).error.payload == data
    ensures Deserialize(codec, serialized).Failure? ==>
              Deserialize(codec, serialized).error.payload == serialized
  {
  }

  /** A codec produced by the resolver never fails with AttributeError: the
      resolver only wraps objects that have both `dumps` and `loads`. The
      default codec's failures are always exceptions raised by pickle. */
  lemma ResolvedCodecHasItsMembers<O, E>(candidate: Option<PyObject<O, E>>, pickle: Pickle<O, E>,
                                         data: O, serialized: O)
    ensures Serialize(Resolve(candidate, pickle), data).Failure? ==>
              !Serialize(Resolve(candidate, pickle), data).error.cause.AttributeMissing?
    ensures Deserialize(Resolve(candidate, pickle), serialized).Failure? ==>
              !Deserialize(Resolve(candidate, pickle), serialized).error.cause.AttributeMissing?
    ensures Resolve(candidate, pickle).Default? && Serialize(Resolve(candidate, pickle), data).Failure? ==>
              Serialize(Resolve(candidate, pickle), data).error.cause.Raised?
    ensures Resolve(candidate, pickle).Default? && Deserialize(Resolve(candidate, pickle), serialized).Failure? ==>
              Deserialize(Resolve(candidate, pickle), serialized).error.cause.Raised?
  {
  }

  /** The resolver checks presence, not callability: a truthy object whose
      `dumps` is not callable is still wrapped, and serializing through it
      raises DeserializationError whose cause is the failed call. */
  lemma PresenceNotCallability<O, E>(obj: PyObject<O, E>, pickle: Pickle<O, E>, data: O)
    requires obj.truthy && HasAttr(obj, "dumps") && obj.attrs["dumps"].Plain? && HasAttr(obj, "loads")
    ensures Resolve(Some(obj), pickle) == Custom(obj)
    ensures Serialize(Resolve(Some(obj), pickle), data)
            == Failure(SerializerError(DeserializationError, UnserializableMessage, data,
                                       NotCallable("dumps")))
  {
  }

  /** A truthy object whose `dumps` and `loads` return their argument. */
  function IdentityEngine<O, E>(): PyObject<O, E>
  {
    PyObject(true, map["dumps" := Callable((x: O) => Success(x)),
                       "loads" := Callable((x: O) => Success(x))])
  }

  /** Resolving the pass-through object gives the custom codec wrapping it,
      and both operations return their input unchanged. */
  lemma IdentityEngineScenario<O, E>(pickle: Pickle<O, E>, x: O)
    ensures Resolve(Some(IdentityEngine<O, E>()), pickle) == Custom(IdentityEngine())
    ensures Serialize(Resolve(Some(IdentityEngine<O, E>()), pickle), x) == Success(x)
    ensures Deserialize(Resolve(Some(IdentityEngine<O, E>()), pickle), x) == Success(x)
  {
  }

  /** An object that has `dumps` but no `loads` falls back to the default
      codec and is not wrapped. */
  lemma OnlyDumpsScenario<O, E>(dumps: O -> Result<O, E>, pickle: Pickle<O, E>)
    ensures Resolve(Some(PyObject(true, map["dumps" := Callable(dumps)])), pickle) == Default(pickle)
  {
  }

  /** `resolve_serializer(None)` gives the default codec, which round-trips
      every value pickle round-trips. */
  lemma NoneScenario<O, E>(pickle: Pickle<O, E>, v: O)
    requires pickle.dumps(v).Success? && pickle.loads(pickle.dumps(v).value) == Success(v)
    ensures Resolve(None, pickle) == Default(pickle)
    ensures Deserialize(Resolve(None, pickle), Serialize(Resolve(None, pickle), v).value) == Success(v)
  {
  }
}
