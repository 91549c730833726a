/**
 * JavaScript values as the handlers see them: request-body fields, the upstream JSON
 * envelope, and the truthiness tests (`if (!x)`, `a && b`, `x || null`) applied to them.
 */
module Js {

  datatype Option<+T> = None | Some(value: T)

  /** A JSON value after parsing. Numbers are integers here (no fractions, no NaN). */
  datatype JsValue =
    | Undefined
    | Null
    | Bool(b: bool)
    | Number(n: int)
    | Str(s: string)
    | Arr(items: seq<JsValue>)
    | Obj(fields: map<string, JsValue>)

  /** JavaScript truthiness: `undefined`, `null`, `false`, `0` and `""` are falsy. */
  predicate Truthy(v: JsValue) {
    match v
    case Undefined => false
    case Null => false
    case Bool(b) => b
    case Number(n) => n != 0
    case Str(s) => s != ""
    case Arr(_) => true
    case Obj(_) => true
  }

  /** The property read `v.name`: a missing property reads as `undefined`, a primitive has
      neither `success` nor `data`, and reading any property of `null` or `undefined` throws
      a TypeError (None). */
  function Get(v: JsValue, name: string): (r: Option<JsValue>)
    ensures r.None? <==> v.Undefined? || v.Null?
    ensures v.Obj? && name in v.fields ==> r == Some(v.fields[name])
  {
    match v
    case Undefined => None
    case Null => None
    case Obj(fields) => if name in fields then Some(fields[name]) else Some(Undefined)
    case _ => Some(Undefined)
  }

  /** A string-valued field of a request body: absent, `null`, or a string. */
  datatype Field = Absent | NullField | Text(s: string)

  /** `!!field`: a field is given when it is a non-empty string. */
  predicate Given(f: Field) {
    f.Text? && f.s != ""
  }

  /** `String(field)`, which `URLSearchParams.append` applies to the values it receives. */
  function Stringify(f: Field): (r: string)
    ensures f.Text? ==> r == f.s
  {
    match f
    case Absent => "undefined"
    case NullField => "null"
    case Text(s) => s
  }

  /** `x || null` on an attribute that cheerio may report as missing (`undefined`): an empty
      string is falsy too. */
  function OrNull(x: Option<string>): (r: Option<string>)
    ensures r.Some? <==> x.Some? && x.value != ""
    ensures r.Some? ==> r == x
  {
    if x.Some? && x.value != "" then x else None
  }
}
