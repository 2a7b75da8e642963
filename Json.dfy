/**
 * JavaScript values as the session core sees them: what an API response
 * carries, what `JSON.parse` returns and what the store's `user` field holds.
 * JSON text itself is not modelled: a `Codec` stands for the pair
 * `JSON.stringify`/`JSON.parse`, and `Lawful` states the properties of that
 * pair the core relies on.
 */
module Json {
  import opened Std

  /** A JavaScript value; `Num` is a finite double, seen as a real (NaN and -0 are not modelled). */
  datatype Value =
    | Undefined
    | Null
    | Bool(b: bool)
    | Num(n: real)
    | Str(s: string)
    | Arr(items: seq<Value>)
    | Obj(fields: map<string, Value>)

  /** JavaScript's ToBoolean: what `!!v`, `if (v)` and `v || w` test. */
  predicate Truthy(v: Value)
  {
    match v
    case Undefined => false
    case Null => false
    case Bool(b) => b
    case Num(n) => n != 0.0
    case Str(s) => s != ""
    case Arr(_) => true
    case Obj(_) => true
  }

  /**
   * Optional property access `v?.key`: the property of an object, and
   * `undefined` for a missing property, for `null`/`undefined` (short
   * circuit) and for the primitives and arrays (none of the keys the core
   * reads is a property of those).
   */
  function Get(v: Value, key: string): (r: Value)
    ensures r != Undefined ==> v.Obj? && key in v.fields && r == v.fields[key]
    ensures v.Obj? && key in v.fields ==> r == v.fields[key]
  {
    if v.Obj? && key in v.fields then v.fields[key] else Undefined
  }

  /** A value `JSON.stringify` can write and `JSON.parse` can give back: no `undefined` anywhere. */
  predicate IsJson(v: Value)
  {
    match v
    case Undefined => false
    case Arr(items) => forall i :: 0 <= i < |items| ==> IsJson(items[i])
    case Obj(fields) => forall k :: k in fields ==> IsJson(fields[k])
    case _ => true
  }

  /**
   * The browser's JSON functions, taken as parameters: `stringify` is
   * `JSON.stringify` on a JSON value, `parse` is `JSON.parse`, which throws
   * (`Err`) on text that is not JSON.
   */
  datatype Codec = Codec(stringify: Value -> string, parse: string -> Result<Value>)

  /**
   * What `localStorage.setItem(key, JSON.stringify(v))` stores: for
   * `undefined`, `JSON.stringify` returns `undefined`, which `setItem`
   * turns into the text "undefined".
   */
  function StoredText(c: Codec, v: Value): (r: string)
    ensures v == Undefined ==> r == "undefined"
    ensures v != Undefined ==> r == c.stringify(v)
  {
    if v == Undefined then "undefined" else c.stringify(v)
  }

  /**
   * The properties of the real JSON functions that every lemma about
   * reloading uses: parsing yields only JSON values, `JSON.parse(null)`
   * (which reads the text "null") is `null`, and the text "undefined" is
   * not JSON. That parsing gives a stringified value back is required per
   * value where a lemma needs it.
   */
  ghost predicate Lawful(c: Codec)
  {
    && (forall s :: c.parse(s).Ok? ==> IsJson(c.parse(s).value))
    && c.parse("null") == Ok(Null)
    && c.parse("undefined").Err?
  }

  /** Some codec meets `Lawful`: one that writes everything as "null" and reads back only "null". */
  lemma LawfulIsSatisfiable()
    ensures Lawful(Codec(v => "null", s => if s == "null" then Ok(Null) else Err("SyntaxError")))
  {
  }
}
