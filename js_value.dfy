/**
 * The slice of JavaScript's value semantics that the three components rely
 * on: truthiness (used by `if (condition)` and by every `if (!registry[key])`),
 * string conversion (used by every template literal `${x}` and by `+` on
 * strings) and the outcome of calling a function (a return or a throw).
 */
module JsValue {

  const MaxSafeInteger: int := 0x1F_FFFF_FFFF_FFFF

  /** JavaScript numbers are modelled by the safe integers and NaN. */
  type SafeInt = n: int | -MaxSafeInteger <= n <= MaxSafeInteger

  /**
   * A JavaScript value. `Error` is an object built by `new Error(message)`
   * (or a subclass, whose `name` differs); `Obj` is any other object,
   * including functions, carried together with the string its `toString`
   * yields.
   */
  datatype Value =
    | Undefined
    | Null
    | Bool(b: bool)
    | Num(n: SafeInt)
    | NaN
    | Str(s: string)
    | Arr(items: seq<Value>)
    | Error(name: string, message: string)
    | Obj(text: string)

  /** What calling a function does: it returns a value or throws one. */
  datatype Completion<T> = Normal(value: T) | Abrupt(thrown: Value)

  /** JavaScript's ToBoolean: the falsy values are undefined, null, false, 0, NaN and "". */
  predicate Truthy(v: Value) {
    match v
    case Undefined => false
    case Null => false
    case Bool(b) => b
    case Num(n) => n != 0
    case NaN => false
    case Str(s) => s != ""
    case _ => true
  }

  /** Array.isArray */
  predicate IsArray(v: Value) {
    v.Arr?
  }

  /** The value of `v[0]` for an array `v`, and `undefined` for an empty one. */
  function FirstItem(v: Value): Value
    requires v.Arr?
  {
    if |v.items| == 0 then Undefined else v.items[0]
  }

  function DigitChar(d: nat): char
    requires d < 10
  {
    "0123456789"[d]
  }

  /** The decimal digits of `n`, most significant first. */
  function DecimalDigits(n: nat): (r: string)
    ensures |r| >= 1
    ensures forall k :: 0 <= k < |r| ==> '0' <= r[k] <= '9'
    ensures r[0] == '0' ==> n == 0
  {
    if n < 10 then [DigitChar(n)] else DecimalDigits(n / 10) + [DigitChar(n % 10)]
  }

  /** Number::toString for a safe integer: no exponent form is needed below 10^21. */
  function NumberToString(n: int): string {
    if n < 0 then "-" + DecimalDigits(-n) else DecimalDigits(n)
  }

  /** Error.prototype.toString */
  function ErrorToString(name: string, message: string): string {
    if name == "" then message
    else if message == "" then name
    else name + ": " + message
  }

  /** Array.prototype.join with separator ",". */
  function Join(parts: seq<string>): string {
    if |parts| == 0 then ""
    else if |parts| == 1 then parts[0]
    else Join(parts[..|parts| - 1]) + "," + parts[|parts| - 1]
  }

  /** JavaScript's ToString, as applied by template literals and string concatenation. */
  function ToString(v: Value): string
    decreases v
  {
    match v
    case Undefined => "undefined"
    case Null => "null"
    case Bool(b) => if b then "true" else "false"
    case Num(n) => NumberToString(n)
    case NaN => "NaN"
    case Str(s) => s
    // Array.prototype.toString joins the items; undefined and null items become empty
    case Arr(items) =>
      Join(seq(|items|, k requires 0 <= k < |items| =>
        if items[k].Undefined? || items[k].Null? then "" else ToString(items[k])))
    case Error(name, message) => ErrorToString(name, message)
    case Obj(text) => text
  }

  /** The value `new Error(message)` throws. */
  function NewError(message: string): Value {
    Error("Error", message)
  }
}
