/** The serializer layer of rq: two codec variants that translate every engine
    failure into a serializer error, and the resolver that picks one of them
    for a user-supplied candidate. */
module Serializers {
  import opened Wrappers
  import opened PyObjects

  /** The two exception classes the layer raises. The class depends on the
      codec variant only, never on the direction (encode or decode). */
  datatype ErrorKind = UnpickleError | DeserializationError

  /** A raised serializer error: `kind(message, payload, cause)`. */
  datatype SerializerError<O, E> =
    SerializerError(kind: ErrorKind, message: string, payload: O, cause: Cause<E>)

  /** The process's pickle module, reduced to the two functions the default
      codec uses (at its highest protocol). */
  datatype Pickle<!O, E> = Pickle(dumps: O -> Result<O, E>, loads: O -> Result<O, E>)

  /** A serializer object. `Default` holds the pickle module as its engine;
      `Custom` holds the user's object, unchanged. */
  datatype Codec<!O, E> = Default(pickle: Pickle<O, E>) | Custom(engine: PyObject<O, E>)

  const UnpickleableMessage: string := "Unpickleable return value"
  const CouldNotUnpickleMessage: string := "Could not unpickle"
  const UnserializableMessage: string := "Unserializable return value"
  const CouldNotDeserializeMessage: string := "Could not deserialize"

  /** The `try: ... except Exception as e: raise kind(message, payload, e)`
      pattern every codec operation wraps around its single engine call. */
  function Guard<O, E>(call: Result<O, Cause<E>>, kind: ErrorKind, message: string, payload: O)
    : (r: Result<O, SerializerError<O, E>>)
    ensures r.Success? <==> call.Success?
    ensures r.Success? ==> r.value == call.value
    ensures r.Failure? ==> r.error == SerializerError(kind, message, payload, call.error)
  {
    match call
    case Success(v) => Success(v)
    case Failure(c) => Failure(SerializerError(kind, message, payload, c))
  }

  /** A pickle-module call; module functions are always present and callable,
      so the only way it fails is by raising. */
  function PickleCall<O, E>(f: O -> Result<O, E>, arg: O): (r: Result<O, Cause<E>>)
    ensures r.Success? <==> f(arg).Success?
    ensures r.Success? ==> r.value == f(arg).value
    ensures r.Failure? ==> r.error == Raised(f(arg).error)
  {
    match f(arg)
    case Success(v) => Success(v)
    case Failure(e) => Failure(Raised(e))
  }

  /** `serializer.serialize(data)`. */
  function Serialize<O, E>(codec: Codec<O, E>, data: O): (r: Result<O, SerializerError<O, E>>)
    // Default: pickle.dumps, failures become UnpickleError
    ensures codec.Default? ==> (r.Success? <==> codec.pickle.dumps(data).Success?)
    ensures codec.Default? && r.Success? ==> r.value == codec.pickle.dumps(data).value
    ensures codec.Default? && r.Failure? ==>
              r.error == SerializerError(UnpickleError, UnpickleableMessage, data,
                                         Raised(codec.pickle.dumps(data).error))
    // Custom: engine.dumps, failures (including a missing or non-callable
    // `dumps`) become DeserializationError
    ensures codec.Custom? ==> (r.Success? <==> CallAttr(codec.engine, "dumps", data).Success?)
    ensures codec.Custom? && r.Success? ==> r.value == CallAttr(codec.engine, "dumps", data).value
    ensures codec.Custom? && r.Failure? ==>
              r.error == SerializerError(DeserializationError, UnserializableMessage, data,
                                         CallAttr(codec.engine, "dumps", data).error)
  {
    match codec
    case Default(pickle) =>
      Guard(PickleCall(pickle.dumps, data), UnpickleError, UnpickleableMessage, data)
    case Custom(engine) =>
      Guard(CallAttr(engine, "dumps", data), DeserializationError, UnserializableMessage, data)
  }

  /** `serializer.deserialize(serialized)`. */
  function Deserialize<O, E>(codec: Codec<O, E>, serialized: O): (r: Result<O, SerializerError<O, E>>)
    // Default: pickle.loads, failures become UnpickleError
    ensures codec.Default? ==> (r.Success? <==> codec.pickle.loads(serialized).Success?)
    ensures codec.Default? && r.Success? ==> r.value == codec.pickle.loads(serialized).value
    ensures codec.Default? && r.Failure? ==>
              r.error == SerializerError(UnpickleError, CouldNotUnpickleMessage, serialized,
                                         Raised(codec.pickle.loads(serialized).error))
    // Custom: engine.loads, failures become DeserializationError
    ensures codec.Custom? ==> (r.Success? <==> CallAttr(codec.engine, "loads", serialized).Success?)
    ensures codec.Custom? && r.Success? ==> r.value == CallAttr(codec.engine, "loads", serialized).value
    ensures codec.Custom? && r.Failure? ==>
              r.error == SerializerError(DeserializationError, CouldNotDeserializeMessage, serialized,
                                         CallAttr(codec.engine, "loads", serialized).error)
  {
    match codec
    case Default(pickle) =>
      Guard(PickleCall(pickle.loads, serialized), UnpickleError, CouldNotUnpickleMessage, serialized)
    case Custom(engine) =>
      Guard(CallAttr(engine, "loads", serialized), DeserializationError, CouldNotDeserializeMessage, serialized)
  }

  /** The attribute names the resolver looks for, in the order it checks them. */
  const RequiredMembers: seq<string> := ["dumps", "loads"]

  /** Python's `not serializer`: an absent candidate, or one whose truth value is false. */
  predicate IsFalsy<O, E>(candidate: Option<PyObject<O, E>>)
  {
    candidate.None? || !candidate.value.truthy
  }

  /** The resolver's `for` loop: the first of `names` that `obj` lacks, if any. */
  function FirstMissing<O, E>(obj: PyObject<O, E>, names: seq<string>): (r: Option<string>)
    ensures r.None? <==> forall n :: n in names ==> HasAttr(obj, n)
    ensures r.Some? ==> r.value in names && !HasAttr(obj, r.value)
    ensures r.Some? ==>
              exists k :: 0 <= k < |names| && names[k] == r.value
                          && forall j :: 0 <= j < k ==> HasAttr(obj, names[j])
  {
    if names == [] then None
    else if !HasAttr(obj, names[0]) then Some(names[0])
    else FirstMissing(obj, names[1..])
  }

  /** `resolve_serializer(candidate)`, with the pickle module the default codec
      will hold. Total: every candidate yields one of the two variants. */
  function Resolve<O, E>(candidate: Option<PyObject<O, E>>, pickle: Pickle<O, E>): (r: Codec<O, E>)
    ensures r.Default? <==>
              IsFalsy(candidate)
              || !HasAttr(candidate.value, "dumps")
              || !HasAttr(candidate.value, "loads")
    ensures r.Default? ==> r.pickle == pickle
    ensures r.Custom? ==> candidate.Some? && r.engine == candidate.value
  {
    if IsFalsy(candidate) then Default(pickle)
    else
      match FirstMissing(candidate.value, RequiredMembers)
      case Some(_) => Default(pickle)
      case None => Custom(candidate.value)
  }
}
