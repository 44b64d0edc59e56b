/**
 The decoded output of `argocd app list --output json`, as Python's `json`
 module hands it to the monitor, and the `dict.get` chains the monitor uses
 to read an application record.
 */
module Json {
  import opened Wrappers

  /** A decoded JSON value. Numbers are integers only (see README, Left out). */
  datatype Json =
    | Null
    | Bool(b: bool)
    | Num(n: int)
    | Str(s: string)
    | Arr(items: seq<Json>)
    | Obj(fields: map<string, Json>)

  /** The Python exceptions the monitor can raise on an unexpected document. None is caught. */
  datatype Fault =
    | NoGetMethod    // AttributeError: `.get` called on something that is not a dict
    | NotIterable    // TypeError: `for` over a number, a boolean or None
    | BadFormatSpec  // TypeError: a `:<w` format applied to None, a list or a dict
    | BadJson        // json.JSONDecodeError raised by `json.loads` on the command's stdout

  /** The `{}` the monitor passes as the default of every intermediate `.get`. */
  const EmptyObj: Json := Obj(map[])

  /** The value found by following `keys` through nested objects, if every key is there. */
  function At(v: Json, keys: seq<string>): Option<Json>
    decreases |keys|
  {
    if |keys| == 0 then Some(v)
    else if v.Obj? && keys[0] in v.fields then At(v.fields[keys[0]], keys[1..])
    else None
  }

  /**
   Every value a `.get` of the chain is applied to is an object: `v` itself,
   and each value found under a key of the path before the last one.
   */
  predicate Walkable(v: Json, keys: seq<string>)
    decreases |keys|
  {
    |keys| == 0 || (v.Obj? && (keys[0] in v.fields ==> Walkable(v.fields[keys[0]], keys[1..])))
  }

  /**
   Python's `v.get(key, default)`: AttributeError unless `v` is a dict;
   otherwise the value under `key`, or `default` when the key is absent.
   */
  function Get(v: Json, key: string, default: Json): (r: Result<Json, Fault>)
    ensures r.Ok? <==> v.Obj?
    ensures r.Err? ==> r.error == NoGetMethod
    ensures r.Ok? ==> r.value == At(v, [key]).GetOr(default)
  {
    if !v.Obj? then Err(NoGetMethod)
    else if key in v.fields then Ok(v.fields[key])
    else Ok(default)
  }

  /**
   The chain `v.get(k0, {}).get(k1, {}) ... .get(kn, default)` over the
   non-empty key path `keys`: every step but the last falls back to `{}`.
   It raises exactly when some value it is applied to is not an object;
   otherwise it yields the nested value when the whole path is present and
   the default when any key along it is missing.
   */
  function GetPath(v: Json, keys: seq<string>, default: Json): (r: Result<Json, Fault>)
    requires |keys| > 0
    ensures r.Ok? <==> Walkable(v, keys)
    ensures r.Err? ==> r.error == NoGetMethod
    ensures r.Ok? ==> r.value == At(v, keys).GetOr(default)
    decreases |keys|
  {
    if |keys| == 1 then Get(v, keys[0], default)
    else
      var child :- Get(v, keys[0], EmptyObj);
      GetPath(child, keys[1..], default)
  }
}
