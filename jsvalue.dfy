/**
 * The JSON values the club code reads, and the JavaScript coercions it applies
 * to them: `Number(x)`, truthiness, `Number(x) || 0`, `String(x)`,
 * `String(x || "")` and `Boolean(x)`. Numbers are integers (all amounts,
 * years and counts in the club are whole numbers); NaN is its own case.
 */
module Js {
  import opened Wrappers
  import opened Text

  datatype Value =
    | Undefined
    | Null
    | Bool(b: bool)
    | Num(n: int)
    | NaN
    | Str(s: string)
    | Other          // an object or array

  /** `Number(v)`: Some(n) for a finite number, None for NaN (and for objects, arrays, undefined). */
  function ToNumber(v: Value): (r: Option<int>)
    ensures v.Num? ==> r == Some(v.n)
    ensures v.Undefined? || v.NaN? || v.Other? ==> r == None
    ensures v.Null? ==> r == Some(0)
  {
    match v
    case Undefined => None
    case Null => Some(0)
    case Bool(b) => Some(if b then 1 else 0)
    case Num(n) => Some(n)
    case NaN => None
    case Str(s) => ParseInt(s)
    case Other => None
  }

  /** `Number.isFinite(Number(v))`. */
  predicate IsFinite(v: Value)
  {
    ToNumber(v).Some?
  }

  /** JavaScript truthiness. */
  predicate Truthy(v: Value)
  {
    match v
    case Undefined => false
    case Null => false
    case Bool(b) => b
    case Num(n) => n != 0
    case NaN => false
    case Str(s) => s != []
    case Other => true
  }

  /** `Number(v) || 0`: the number, with NaN read as 0. */
  function OrZero(v: Value): (r: int)
    ensures IsFinite(v) ==> r == ToNumber(v).value
    ensures !IsFinite(v) ==> r == 0
  {
    match ToNumber(v)
    case Some(n) => n
    case None => 0
  }

  /** `Number(v) || fallback`: the number unless it is 0 or NaN. */
  function NumberOr(v: Value, fallback: int): (r: int)
    ensures IsFinite(v) && ToNumber(v).value != 0 ==> r == ToNumber(v).value
    ensures !(IsFinite(v) && ToNumber(v).value != 0) ==> r == fallback
  {
    match ToNumber(v)
    case Some(n) => if n != 0 then n else fallback
    case None => fallback
  }

  /** `v ?? fallback`. */
  function Coalesce(v: Value, fallback: Value): (r: Value)
    ensures !v.Undefined? && !v.Null? ==> r == v
    ensures v.Undefined? || v.Null? ==> r == fallback
  {
    if v.Undefined? || v.Null? then fallback else v
  }

  /** `a || b`. */
  function Or(a: Value, b: Value): (r: Value)
    ensures Truthy(a) ==> r == a
    ensures !Truthy(a) ==> r == b
  {
    if Truthy(a) then a else b
  }

  /** `String(v)`. */
  function StringOf(v: Value): string
  {
    match v
    case Undefined => "undefined"
    case Null => "null"
    case Bool(b) => if b then "true" else "false"
    case Num(n) => IntToString(n)
    case NaN => "NaN"
    case Str(s) => s
    case Other => "[object Object]"
  }

  /** `String(v || "")`: the text of a field, with every falsy value (including 0) read as "". */
  function TextOr(v: Value): (r: string)
    ensures v.Str? ==> r == v.s
    ensures !Truthy(v) ==> r == ""
  {
    if Truthy(v) then StringOf(v) else ""
  }

  /** `String(v || "").trim()`: a text field of a request body. */
  function TextField(v: Value): string
  {
    Trim(TextOr(v))
  }

  /** A number converted to text and back is the same number. */
  lemma NumberStringRoundTrip(n: int)
    ensures ToNumber(Str(StringOf(Num(n)))) == Some(n)
  {
    IntToStringRoundTrip(n);
  }
}
