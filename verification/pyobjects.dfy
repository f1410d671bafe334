/** The part of a Python object that the serializer layer observes: its truth
    value and its attributes, some of which can be called with one argument. */
module PyObjects {
  import opened Wrappers

  /** Why `obj.name(arg)` did not return normally. Every case is a subclass of
      `Exception` in Python, so every `except Exception` clause catches it. */
  datatype Cause<E> =
    | Raised(exception: E)            // the callable ran and raised `exception`
    | AttributeMissing(name: string)  // looking up `obj.name` raised AttributeError
    | NotCallable(name: string)       // `obj.name` exists but calling it raised TypeError

  /** An attribute value: a one-argument callable over the value universe `O`
      that may raise an `E`, or any other (non-callable) object. */
  datatype Attr<!O, E> = Callable(call: O -> Result<O, E>) | Plain

  /** A Python object; `truthy` is the value of `bool(obj)`. */
  datatype PyObject<!O, E> = PyObject(truthy: bool, attrs: map<string, Attr<O, E>>)

  /** Python's `hasattr(obj, name)`: presence only, callability is not looked at. */
  predicate HasAttr<O, E>(obj: PyObject<O, E>, name: string)
  {
    name in obj.attrs
  }

  /** Python's `obj.name(arg)`: attribute lookup followed by a call. */
  function CallAttr<O, E>(obj: PyObject<O, E>, name: string, arg: O): (r: Result<O, Cause<E>>)
    ensures r.Success? <==>
              HasAttr(obj, name) && obj.attrs[name].Callable? && obj.attrs[name].call(arg).Success?
    ensures r.Success? ==> r.value == obj.attrs[name].call(arg).value
    ensures r.Failure? && !HasAttr(obj, name) ==> r.error == AttributeMissing(name)
    ensures r.Failure? && HasAttr(obj, name) && obj.attrs[name].Plain? ==> r.error == NotCallable(name)
    ensures r.Failure? && HasAttr(obj, name) && obj.attrs[name].Callable? ==>
              r.error == Raised(obj.attrs[name].call(arg).error)
  {
    if name !in obj.attrs then Failure(AttributeMissing(name))
    else
      match obj.attrs[name]
      case Plain => Failure(NotCallable(name))
      case Callable(f) =>
        match f(arg)
        case Success(v) => Success(v)
        case Failure(e) => Failure(Raised(e))
  }
}
