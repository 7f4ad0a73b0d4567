/** Decoded JSON values, and the three Python operations the runner applies
    to them while looking for the disposition fields: `key in value`,
    `value[key]` and `value.get(key)`. Each either yields a value or raises
    one of the exceptions that `fetch_data` does not catch. */
module Json {

  /** A value as Python's `json` module decodes it. Objects are dicts, so a
      finite map from string keys to values; `Null` is Python's `None`.
      A float is kept as its literal text: nothing here computes with it. */
  datatype Json =
    | Null
    | Bool(b: bool)
    | Int(i: int)
    | Float(literal: string)
    | Str(s: string)
    | Array(items: seq<Json>)
    | Object(fields: map<string, Json>)

  /** The exceptions the disposition lookup can raise. */
  datatype PyError =
    | TypeError       // `in` on None, a bool or a number; a str or list subscripted by a str
    | AttributeError  // `.get` on something that is not a dict

  /** The result of evaluating a Python expression: a value, or an exception. */
  datatype Eval<T> = Value(value: T) | Raised(error: PyError)

  /** Python's `needle in hay` for two strings: a substring test. It holds
      exactly when `needle` starts at some position of `hay`. */
  function IsSubstring(needle: string, hay: string): (r: bool)
    ensures r <==> exists i :: 0 <= i <= |hay| && needle <= hay[i..]
    decreases |hay|
  {
    if needle <= hay then
      assert hay[0..] == hay;
      true
    else if hay == [] then
      false
    else
      assert forall i :: 1 <= i <= |hay| ==> hay[i..] == hay[1..][i - 1..];
      IsSubstring(needle, hay[1..])
  }

  /** Python's `key in container` for a string key: key membership on a dict,
      element equality on a list, substring on a str, TypeError otherwise. */
  function Contains(container: Json, key: string): (r: Eval<bool>)
    ensures r.Raised? <==> !(container.Object? || container.Array? || container.Str?)
    ensures r.Raised? ==> r.error == TypeError
    ensures container.Object? ==> r == Value(key in container.fields)
    ensures container.Array? ==> r == Value(Str(key) in container.items)
    ensures container.Str? ==> r == Value(key == [] || exists i :: 0 <= i < |container.s| && key <= container.s[i..])
  {
    match container
    case Object(fields) => Value(key in fields)
    case Array(items) => Value(Str(key) in items)
    case Str(s) => Value(IsSubstring(key, s))
    case _ => Raised(TypeError)
  }

  /** Python's `container[key]` for a string key, where `key in container`
      has just held: a dict yields the entry; a list or str raises TypeError
      because their indices must be integers. */
  function Subscript(container: Json, key: string): (r: Eval<Json>)
    requires Contains(container, key) == Value(true)
    ensures r.Value? <==> container.Object?
    ensures r.Value? ==> key in container.fields && r.value == container.fields[key]
    ensures r.Raised? ==> r.error == TypeError
  {
    match container
    case Object(fields) => Value(fields[key])
    case _ => Raised(TypeError)
  }

  /** Python's `container.get(key)`: the entry of a dict, `None` when the key
      is missing, AttributeError on anything that is not a dict. */
  function Get(container: Json, key: string): (r: Eval<Json>)
    ensures r.Value? <==> container.Object?
    ensures r.Raised? ==> r.error == AttributeError
    ensures r.Value? && key in container.fields ==> r.value == container.fields[key]
    ensures r.Value? && key !in container.fields ==> r.value == Null
  {
    if container.Object? then
      Value(if key in container.fields then container.fields[key] else Null)
    else
      Raised(AttributeError)
  }
}
