/** JSON values as the application's JavaScript sees them after `JSON.parse`, with
    the three pieces of JavaScript semantics the code leans on: truthiness, the
    string a template literal interpolates, and property access on a parsed
    request body. `undefined` is `None` in an `Option<Json>`. */
module Js {
  import opened Wrappers
  import opened Text

  /** A JSON value. Objects are maps because `JSON.parse` keeps the last of
      duplicated keys and nothing in the model depends on key order. */
  datatype Json =
    | JNull
    | JBool(b: bool)
    | JNum(n: real)
    | JStr(s: string)
    | JArr(items: seq<Json>)
    | JObj(fields: map<string, Json>)

  /** JavaScript truthiness: `undefined`, `null`, `false`, `0` and `""` are falsy. */
  predicate Truthy(v: Option<Json>) {
    match v
    case None => false
    case Some(JNull) => false
    case Some(JBool(b)) => b
    case Some(JNum(n)) => n != 0.0
    case Some(JStr(s)) => s != ""
    case Some(JArr(_)) => true
    case Some(JObj(_)) => true
  }

  /** `a || b` where `b` is a string literal and the result is interpolated. */
  function OrText(v: Option<Json>, default: string, num: real -> string): (r: string)
    ensures !Truthy(v) ==> r == default
    ensures v.Some? && v.value.JStr? && v.value.s != "" ==> r == v.value.s
  {
    if Truthy(v) then Interp(v, num) else default
  }

  /** `obj[key]` on a JSON object. */
  function Get(fields: map<string, Json>, key: string): Option<Json> {
    if key in fields then Some(fields[key]) else None
  }

  /** The named properties of a value being destructured or dotted into:
      `None` when the access throws (`null`), no properties for the primitives
      and arrays (none of the names the application reads is an index). */
  function Props(v: Json): (r: Option<map<string, Json>>)
    ensures r.None? <==> v == JNull
    ensures v.JObj? ==> r == Some(v.fields)
  {
    match v
    case JNull => None
    case JObj(m) => Some(m)
    case _ => Some(map[])
  }

  /** The kinds of `TypeError` the routes can throw on a parsed request body. The
      engine's message for each is a parameter of the route. */
  datatype TypeError =
    | DestructureNull   // destructuring a `null` body
    | NotAFunction      // calling `.map` on a value that has none
    | ReadOfNull        // reading a property of a `null` element
    | NoPrimitive       // converting to a string an object whose `toString` is not callable

  /** `${v}` does not throw. A parsed object normally inherits `toString`, which
      prints "[object Object]"; an own "toString" key shadows it with a value that
      cannot be called, and the inherited `valueOf` returns the object itself, so
      the conversion throws. An array prints by joining its elements, so the same
      holds for such an object at any depth inside it. */
  predicate Printable(v: Option<Json>) {
    v.None? || PrintableValue(v.value)
  }

  predicate PrintableValue(j: Json)
    decreases j
  {
    match j
    case JObj(m) => "toString" !in m
    case JArr(items) => forall i :: 0 <= i < |items| ==> PrintableValue(items[i])
    case _ => true
  }

  /** Only objects and arrays can fail to print, and both are truthy: a value
      `v || default` replaces is always printable. */
  lemma UnprintableIsTruthy(v: Option<Json>)
    requires !Printable(v)
    ensures Truthy(v) && (v.value.JObj? || v.value.JArr?)
  {
  }

  /** `String(v)` as `${v}` computes it, for a printable `v`; `num` is
      `Number.prototype.toString`. */
  function Interp(v: Option<Json>, num: real -> string): (r: string)
    ensures v == None ==> r == "undefined"
    ensures v.Some? && v.value.JStr? ==> r == v.value.s
  {
    match v
    case None => "undefined"
    case Some(j) => ValueText(j, num)
  }

  function ValueText(j: Json, num: real -> string): string
    decreases j, 1
  {
    match j
    case JNull => "null"
    case JBool(b) => if b then "true" else "false"
    case JNum(n) => num(n)
    case JStr(s) => s
    case JArr(_) => ItemsText(j, 0, num)
    case JObj(_) => "[object Object]"
  }

  /** `Array.prototype.join(",")` from index `i` on: `null` elements print as
      the empty string. */
  function ItemsText(j: Json, i: nat, num: real -> string): string
    requires j.JArr?
    decreases j, 0, |j.items| - i
  {
    if i >= |j.items| then ""
    else
      var head := if j.items[i] == JNull then "" else ValueText(j.items[i], num);
      if i + 1 == |j.items| then head else head + "," + ItemsText(j, i + 1, num)
  }

  /** The text React renders for a value placed as a JSX child: nothing for
      `undefined`, `null` and booleans, numbers through `num`, strings as they
      are, arrays as their children side by side with no separator; `None` when
      the value (or an element of it) is an object, which React refuses to render. */
  function JsxChild(v: Option<Json>, num: real -> string): (r: Option<string>)
    ensures v.None? || v == Some(JNull) || (v.Some? && v.value.JBool?) ==> r == Some("")
    ensures v.Some? && v.value.JNum? ==> r == Some(num(v.value.n))
    ensures v.Some? && v.value.JStr? ==> r == Some(v.value.s)
    ensures v.Some? && v.value.JObj? ==> r.None?
  {
    match v
    case None => Some("")
    case Some(j) => NodeText(j, num)
  }

  function NodeText(j: Json, num: real -> string): Option<string>
    decreases j, 1
  {
    match j
    case JNull => Some("")
    case JBool(_) => Some("")
    case JNum(n) => Some(num(n))
    case JStr(s) => Some(s)
    case JArr(_) => NodesText(j, 0, num)
    case JObj(_) => None
  }

  /** The children of an array from index `i` on, concatenated. */
  function NodesText(j: Json, i: nat, num: real -> string): Option<string>
    requires j.JArr?
    decreases j, 0, |j.items| - i
  {
    if i >= |j.items| then Some("")
    else
      match NodeText(j.items[i], num)
      case None => None
      case Some(h) =>
        match NodesText(j, i + 1, num)
        case None => None
        case Some(t) => Some(h + t)
  }

  /** An array holding an object anywhere from index `i` on cannot be rendered. */
  lemma {:induction false} ObjectItemRefused(j: Json, i: nat, k: nat, num: real -> string)
    requires j.JArr? && i <= k < |j.items| && j.items[k].JObj?
    ensures NodesText(j, i, num).None?
    decreases k - i
  {
    if i < k {
      ObjectItemRefused(j, i + 1, k, num);
    }
  }

  /** A JSX child and a template literal agree on strings and numbers, and
      differ on `undefined`, which a template literal prints as "undefined" and
      React does not print at all. */
  lemma JsxAgreesWithInterp(v: Option<Json>, num: real -> string)
    ensures v.Some? && (v.value.JStr? || v.value.JNum?) ==> JsxChild(v, num) == Some(Interp(v, num))
    ensures v.None? ==> JsxChild(v, num) == Some("") && Interp(v, num) == "undefined"
  {
  }
}
