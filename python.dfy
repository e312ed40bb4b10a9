/** Python runtime notions the modelled code relies on: the exceptions it can
    raise, a result type standing for "returned a value or raised", and the
    scalar values (a `str` or `None`) that flow through store documents and
    retrieved items. */
module Python {

  datatype Option<+T> = None | Some(value: T)

  /** The exceptions the modelled code can raise, by kind. */
  datatype Exception =
    | KeyError(key: string)
    | IndexError
    | TypeError(message: string)
    | AttributeError(name: string)
    | UnboundLocalError(name: string)

  /** `Ok(v)`: the Python code returned `v`; `Err(e)`: it raised `e`. */
  datatype Result<+T> = Ok(value: T) | Err(error: Exception) {
    predicate IsFailure() { Err? }

    function PropagateFailure<U>(): Result<U>
      requires Err?
    {
      Err(error)
    }

    function Extract(): T
      requires Ok?
    {
      value
    }
  }

  /** A scalar stored in a document or carried in a result: `None` or a `str`. */
  datatype Value = Null | Str(s: string)

  /** Python truthiness of a `Value`: `None` and `""` are false. */
  predicate Truthy(v: Value) {
    v.Str? && v.s != ""
  }

  /** `d[key]` on a dict: the value, or `KeyError(key)` when the key is absent. */
  function Subscript<V>(d: map<string, V>, key: string): (r: Result<V>)
    ensures r.Ok? <==> key in d
    ensures r.Ok? ==> r.value == d[key]
    ensures r.Err? ==> r.error == KeyError(key)
  {
    if key in d then Ok(d[key]) else Err(KeyError(key))
  }
}
