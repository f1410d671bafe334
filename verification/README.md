# rq serializers, modelled in Dafny

This project models the serializer layer of rq (`rq/serializers.py`). The
layer does three things:

- `resolve_serializer` looks at a user-supplied candidate object. It returns a
  `DefaultSerializer` (backed by pickle) when the candidate is falsy or lacks
  `dumps` or `loads`. Otherwise it returns a `CustomSerializer` wrapping the
  candidate itself.
- `DefaultSerializer.serialize` / `deserialize` make one call to
  `pickle.dumps` / `pickle.loads`. Any `Exception` is re-raised as
  `UnpickleError(message, input, cause)`.
- `CustomSerializer.serialize` / `deserialize` make one call to
  `engine.dumps` / `engine.loads`. Any `Exception` is re-raised as
  `DeserializationError(message, input, cause)`.

Modules:

- `Wrappers` (`wrappers.dfy`): `Option` and `Result`.
- `PyObjects` (`pyobjects.dfy`): a Python object as the layer sees it. It has
  a truth value and a map from attribute names to attributes. An attribute is
  either a one-argument callable that returns or raises, or a non-callable
  object. `CallAttr` is `obj.name(arg)`. It fails with `AttributeMissing` when
  the attribute is absent (AttributeError), with `NotCallable` when the
  attribute cannot be called (TypeError), and with `Raised(e)` when the call
  raises `e`.
- `Serializers` (`serializers.dfy`): the error classes, the error record
  `(kind, message, payload, cause)`, the pickle module as a pair of
  uninterpreted functions, the two-case `Codec`, `Serialize`, `Deserialize`
  and `Resolve`.
- `SerializerLaws` (`laws.dfy`): the round trip and its converse, the error
  class per variant, payload preservation, what a resolved codec can fail
  with, and example scenarios: `None` (as in the tests), a pass-through
  engine, and an engine with `dumps` but no `loads`.

Python values and pickled bytes share one value universe `O`, because the
source is dynamically typed and a custom `dumps` may return anything. Engine
exceptions have type `E`. The pickle module and the user's engine are
parameters. Their behaviour is arbitrary, and properties that depend on it
(the round trip) take it as a precondition.

The error class depends on the codec variant, not on the direction. The
default codec raises `UnpickleError` in both directions (rq/serializers.py:30
and :38). The custom codec raises `DeserializationError` in both directions,
including when `dumps` fails (:52 and :60).
`SerializerLaws.ErrorKindIgnoresDirection` states this.

## Model

| member | source | states |
|---|---|---|
| PyObjects.CallAttr | rq/serializers.py:48-52 | `obj.name(arg)` returns exactly what the callable returns. It fails with AttributeError when the attribute is absent, TypeError when it is not callable, and otherwise with the exception the call raised. |
| Serializers.Guard | rq/serializers.py:27-32 | The try/except wrapper passes a successful result through unchanged. Any failure becomes an error of the given class, with the given message, the original input and the untouched cause. |
| Serializers.PickleCall | rq/serializers.py:28-30 | A pickle module function succeeds exactly when it returns. Its only failure cause is the exception it raised. |
| Serializers.Serialize | rq/serializers.py:26-54 | Succeeds exactly when the engine's `dumps` succeeds, and returns its output unchanged. The default codec fails with `UnpickleError('Unpickleable return value', data, cause)`. The custom codec fails with `DeserializationError('Unserializable return value', data, cause)`. |
| Serializers.Deserialize | rq/serializers.py:34-62 | Succeeds exactly when the engine's `loads` succeeds, and returns its output unchanged. The default codec fails with `UnpickleError('Could not unpickle', input, cause)`. The custom codec fails with `DeserializationError('Could not deserialize', input, cause)`. |
| PyObjects.HasAttr | rq/serializers.py:77 | `hasattr`: the name is present on the object, whether or not it is callable. |
| Serializers.IsFalsy | rq/serializers.py:71 | `not serializer`: the candidate is absent, or its truth value is false. |
| Serializers.FirstMissing | rq/serializers.py:74-78 | The loop over the required names finds no missing name exactly when the object has every one of them. Any name it reports is a required name the object lacks, and every name checked before it is present. |
| Serializers.Resolve | rq/serializers.py:65-80 | Total. The result is the default codec (holding pickle) exactly when the candidate is absent, falsy, or lacks `dumps` or `loads`. Otherwise it is the custom codec wrapping that same candidate. |
| SerializerLaws.RoundTrip | rq/serializers.py:26-62 | If the codec's engine decodes its own encoding of `v` back to `v`, then `deserialize(serialize(v)) == v` for that codec. |
| SerializerLaws.RoundTripNeedsEngine | rq/serializers.py:26-62 | Conversely, a codec round trip of `v` succeeds only when the engine's own round trip of `v` succeeds. |
| SerializerLaws.ErrorKindIgnoresDirection | rq/serializers.py:30-60 | A codec's serialize and deserialize failures carry the same class: `UnpickleError` for the default codec, `DeserializationError` for the custom one. |
| SerializerLaws.FailureKeepsInput | rq/serializers.py:30-60 | Every failure's payload is the caller's own input, for both codecs and both directions. |
| SerializerLaws.ResolvedCodecHasItsMembers | rq/serializers.py:74-80 | A codec returned by the resolver never fails because `dumps` or `loads` is missing. The default codec's failures are always exceptions raised by pickle. |
| SerializerLaws.PresenceNotCallability | rq/serializers.py:76-80 | Every truthy object that has `loads` and whose `dumps` is present but not callable is still wrapped. Serializing through it raises `DeserializationError` caused by the failed call. |
| SerializerLaws.IdentityEngineScenario | rq/serializers.py:45-62 | An object with pass-through `dumps`/`loads` resolves to the custom codec wrapping it. Both operations then return their input. |
| SerializerLaws.OnlyDumpsScenario | rq/serializers.py:76-78 | An object with `dumps` but no `loads` resolves to the default codec. |
| SerializerLaws.NoneScenario | tests/test_serializers.py:17-22 | `resolve_serializer(None)` is the default codec, and it round-trips every value pickle round-trips. |

## Left out

- The pickle byte format, `HIGHEST_PROTOCOL` (rq/serializers.py:28) and the cPickle/pickle import fallback (lines 5-8): these are foreign library behaviour. Pickle is a pair of uninterpreted functions.
- `BaseSerializer` with its `ABCMeta` metaclass and `NotImplementedError` stubs (lines 11-18): Python class machinery, replaced by the two-case `Codec` datatype.
- The `rq.exceptions` module is not part of this model. `UnpickleError` and `DeserializationError` are the `ErrorKind` tags of one error record.
- Python truthiness is not computed. Each object carries its truth value as a flag, and an absent candidate is `None`. A `__bool__` that raises is not modelled.
- Only `Exception` failures are modelled. `BaseException`s that are not `Exception`s (such as `KeyboardInterrupt`) escape the `except` clauses in the source, and they are not represented. `hasattr` raising something other than AttributeError is not represented either.
- The use of serializers by jobs and queues is not part of this model.
- Objects are immutable values from resolution onward, and engine calls are pure functions. The source checks `hasattr` once (rq/serializers.py:77) and looks up `self.serializer.dumps` / `.loads` again on every call (:50, :58). An attribute deleted or reassigned after resolution, a `__getattr__` or property whose answer changes over time, or a stateful engine is not represented. SerializerLaws.ResolvedCodecHasItsMembers holds only under this assumption: in Python, deleting `dumps`/`loads` after resolution makes the call raise AttributeError, wrapped in `DeserializationError`.
- Python object identity (`is`) is modelled as value equality: Serializers.Resolve states `r.engine == candidate.value` where the source keeps the very same object (rq/serializers.py:46, :80).
