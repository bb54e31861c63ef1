/**
 * The JavaScript values that flow through the admin screen's form and
 * payloads, with the truthiness test behind `||` and `!x`, strict equality
 * and the `Number(...)` coercion applied to activity ids.
 */
module JsValues {
  import opened Text

  /** A JavaScript value as far as this plugin distinguishes them; FileObj is a browser `File`. */
  datatype JsVal = Undefined | Null | Bool(b: bool) | Num(n: int) | NaN | Str(s: string) | FileObj(handle: nat)

  /** The values JavaScript treats as false in `||`, `&&`, `!` and `if`. */
  predicate Falsy(v: JsVal) {
    v == Undefined || v == Null || v == Bool(false) || v == Num(0) || v == NaN || v == Str("")
  }

  /** `a || b`: a when a is truthy, otherwise b. */
  function Or(a: JsVal, b: JsVal): (r: JsVal)
    ensures !Falsy(a) ==> r == a
    ensures Falsy(a) ==> r == b
  {
    if Falsy(a) then b else a
  }

  /** `a === b`: NaN differs from everything, itself included; a File equals only itself. */
  predicate StrictEq(a: JsVal, b: JsVal) {
    a == b && a != NaN
  }

  /** A number-typed value (`typeof v === 'number'`). */
  predicate IsNumber(v: JsVal) {
    v.Num? || v == NaN
  }

  /** Value of a non-empty string of decimal digits. */
  function DecimalValue(t: string): (r: nat)
    requires forall i :: 0 <= i < |t| ==> IsDigit(t[i])
  {
    if t == [] then 0
    else
      assert IsDigit(t[|t| - 1]);
      DecimalValue(t[..|t| - 1]) * 10 + (t[|t| - 1] as int - '0' as int)
  }

  /** `Number(s)` for a string: blank is 0, trimmed decimal digits are their value, anything else NaN. */
  function StringToNumber(s: string): (r: JsVal)
    ensures IsNumber(r)
    ensures Trim(s) == [] ==> r == Num(0)
  {
    var t := Trim(s);
    if t == [] then Num(0)
    else if forall i :: 0 <= i < |t| ==> IsDigit(t[i]) then Num(DecimalValue(t))
    else NaN
  }

  /** `Number(v)`. */
  function ToNumber(v: JsVal): (r: JsVal)
    ensures IsNumber(r)
    ensures IsNumber(v) ==> r == v
    ensures v == Null ==> r == Num(0)
    ensures v == Undefined || v.FileObj? ==> r == NaN
  {
    match v
    case Undefined => NaN
    case Null => Num(0)
    case Bool(b) => if b then Num(1) else Num(0)
    case Num(_) => v
    case NaN => NaN
    case Str(s) => StringToNumber(s)
    case FileObj(_) => NaN
  }
}
