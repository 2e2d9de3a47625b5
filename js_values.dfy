/**
 * Values as the TypeScript sources see them at run time: parsed JSON
 * documents, JavaScript numbers (which may be NaN), optional chaining
 * (`a?.b`), nullish coalescing (`a ?? b`), truthiness and `Number(x)`.
 *
 * `undefined` is not a value of `Json`: a lookup that finds nothing yields
 * `None`, and `null` is `JNull`.
 */
module JsValues {

  datatype Option<+T> = None | Some(value: T)

  /** A value produced by JSON.parse. JSON numbers are always finite. */
  datatype Json =
    | JNull
    | JBool(b: bool)
    | JNum(n: real)
    | JStr(s: string)
    | JArr(items: seq<Json>)
    | JObj(fields: map<string, Json>)

  /** A JavaScript number: a finite value or NaN (infinities are not modelled). */
  datatype JsNumber = NaN | Num(v: real)

  /**
   * The JavaScript primitives the sources call but this model does not
   * define: JSON.parse (None when it throws), the String-to-Number
   * conversion of `Number(s)`, and the Number-to-String conversion used by
   * template literals.
   */
  datatype Runtime = Runtime(
    parseJson: string -> Option<Json>,
    stringToNumber: string -> JsNumber,
    numberToString: JsNumber -> string)

  /** `o?.key`: only an object that has the key yields something. */
  function Field(o: Option<Json>, key: string): (r: Option<Json>)
    ensures r.Some? <==> (o.Some? && o.value.JObj? && key in o.value.fields)
  {
    if o.Some? && o.value.JObj? && key in o.value.fields then Some(o.value.fields[key]) else None
  }

  /**
   * `o?.[0]`: the first element of an array, or the property named "0" of
   * an object. Indexing a string yields a one-character string, on which
   * no later field lookup finds anything, so it is taken as `undefined`.
   */
  function First(o: Option<Json>): (r: Option<Json>)
    ensures r.Some? ==> o.Some? && (o.value.JArr? || o.value.JObj?)
    ensures o.Some? && o.value.JArr? ==> (r.Some? <==> o.value.items != [])
    ensures o.Some? && o.value.JArr? && o.value.items != [] ==> r == Some(o.value.items[0])
  {
    if o.Some? && o.value.JArr? && |o.value.items| > 0 then Some(o.value.items[0])
    else Field(o, "0")
  }

  /** `v ?? d`: the value unless it is null or undefined. */
  function Coalesce(v: Option<Json>, d: Json): (r: Json)
    ensures r == d || (v.Some? && r == v.value && !r.JNull?)
    ensures (v.Some? && !v.value.JNull?) ==> r == v.value
  {
    if v.Some? && !v.value.JNull? then v.value else d
  }

  /** `v ?? w` where `w` may itself be undefined. */
  function CoalesceOpt(v: Option<Json>, w: Option<Json>): (r: Option<Json>)
    ensures r == v || r == w
    ensures v.Some? && !v.value.JNull? ==> r == v
    ensures r.None? <==> (v.None? || v.value.JNull?) && w.None?
  {
    if v.Some? && !v.value.JNull? then v else w
  }

  /** JavaScript truthiness of a possibly undefined JSON value. */
  predicate Truthy(v: Option<Json>)
    ensures Truthy(v) ==> v.Some? && !v.value.JNull?
    ensures v.Some? && (v.value.JArr? || v.value.JObj?) ==> Truthy(v)
  {
    match v
    case None => false
    case Some(JNull) => false
    case Some(JBool(b)) => b
    case Some(JNum(n)) => n != 0.0
    case Some(JStr(s)) => s != ""
    case Some(JArr(_)) => true
    case Some(JObj(_)) => true
  }

  /**
   * `Number(v)`. A non-empty array is converted through its string form in
   * JavaScript; the model takes it as NaN.
   */
  function ToNumber(v: Json, rt: Runtime): (r: JsNumber)
    ensures r.NaN? ==> v.JStr? || v.JObj? || (v.JArr? && v.items != [])
    ensures v.JNum? ==> r == Num(v.n)
    ensures v.JNull? || v.JBool? || (v.JArr? && v.items == []) ==> r.Num?
  {
    match v
    case JNull => Num(0.0)
    case JBool(b) => Num(if b then 1.0 else 0.0)
    case JNum(n) => Num(n)
    case JStr(s) => rt.stringToNumber(s)
    case JArr(items) => if items == [] then Num(0.0) else NaN
    case JObj(_) => NaN
  }

  /**
   * `n` is what `Number(a ?? b ?? 0)` gives: the preferred value when it is
   * present and not null, else the alternative on the same terms, else 0.
   */
  predicate ReadsAs(n: JsNumber, preferred: Option<Json>, alternative: Option<Json>, rt: Runtime)
  {
    if preferred.Some? && !preferred.value.JNull? then n == ToNumber(preferred.value, rt)
    else if alternative.Some? && !alternative.value.JNull? then n == ToNumber(alternative.value, rt)
    else n == Num(0.0)
  }

  /** `x < c`, `x >= c` and `x > c`: every comparison with NaN is false. */
  predicate Lt(x: JsNumber, c: real) { x.Num? && x.v < c }
  predicate Ge(x: JsNumber, c: real) { x.Num? && x.v >= c }
  predicate Gt(x: JsNumber, c: real) { x.Num? && x.v > c }
}
