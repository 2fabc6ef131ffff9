/**
 * Decoded JSON as Python holds it (dicts, lists, strings, ints, floats, bools,
 * None), with the exceptions that subscripting and attribute access raise.
 */
module PyJson {
  import opened Wrappers
  import opened PyStrings

  /** The built-in exceptions the modelled code can raise. */
  datatype PyError = KeyError | IndexError | TypeError | ValueError | AttributeError

  /**
   * A decoded JSON value. A float carries the text `str()` gives for it, which is
   * all the model needs of it; JSON object keys are always strings.
   */
  datatype Value =
    | Null
    | Bool(b: bool)
    | Int(i: int)
    | Float(repr: string)
    | Str(s: string)
    | List(items: seq<Value>)
    | Dict(fields: map<string, Value>)

  /** A subscript: `v[name]` or `v[index]`. */
  datatype Key = Name(name: string) | Index(index: int)

  /**
   * `v[k]`. Dicts raise KeyError for a missing key (an integer is never a key of
   * a decoded JSON object); lists and strings accept indices in
   * `-len .. len - 1` and raise IndexError outside it; every other combination
   * raises TypeError.
   */
  function Subscript(v: Value, k: Key): (r: Result<Value, PyError>)
    ensures r.Ok? && k.Name? ==> v.Dict? && k.name in v.fields && r.value == v.fields[k.name]
    ensures r.Err? && r.error == KeyError <==> v.Dict? && (k.Index? || k.name !in v.fields)
  {
    match v
    case Dict(m) =>
      if k.Name? && k.name in m then Ok(m[k.name]) else Err(KeyError)
    case List(xs) =>
      if k.Name? then Err(TypeError)
      else if -|xs| <= k.index < |xs| then Ok(xs[if k.index < 0 then k.index + |xs| else k.index])
      else Err(IndexError)
    case Str(s) =>
      if k.Name? then Err(TypeError)
      else if -|s| <= k.index < |s| then Ok(Str([s[if k.index < 0 then k.index + |s| else k.index]]))
      else Err(IndexError)
    case _ => Err(TypeError)
  }

  /** `d.get(name, default)` on a dict. */
  function Get(m: map<string, Value>, name: string, default: Value): (r: Value)
    ensures name in m ==> r == m[name]
    ensures name !in m ==> r == default
  {
    if name in m then m[name] else default
  }

  /**
   * `str(v)`. For a list or a dict only the opening bracket of Python's text is
   * kept: nothing in the model reads further than that.
   */
  function PyStr(v: Value): string {
    match v
    case Null => "None"
    case Bool(b) => if b then "True" else "False"
    case Int(i) => IntToString(i)
    case Float(repr) => repr
    case Str(s) => s
    case List(_) => "["
    case Dict(_) => "{"
  }
}
