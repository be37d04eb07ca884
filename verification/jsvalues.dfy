/** The slice of JavaScript value semantics the provider relies on: the values
    that come out of a parsed JSON body, truthiness (`!!x`), string conversion
    (`String(x)`, template literals), `parseInt(x)`, `BigInt(x).toString()`,
    `n.toString(16)` and property reads. */
module JsValues {
  import opened Wrappers
  import opened Numerals

  /** A JavaScript number as `parseInt` can produce it here: a non-negative
      integer, or NaN. */
  datatype JsNumber = Finite(value: nat) | NaN

  datatype JsValue =
    | Undefined
    | Null
    | Bool(b: bool)
    | Number(num: JsNumber)
    | Str(s: string)
    | Arr(items: seq<JsValue>)
    | Obj(fields: map<string, JsValue>)

  /** Exceptions a call can raise. `PlainError` is `new Error(message)`;
      `Transport` is a failed HTTP round trip (timeout, non-2xx). */
  datatype Error =
    | TypeError(reason: string)
    | SyntaxError(input: string)
    | RangeError(reason: string)
    | PlainError(message: string)
    | Transport(reason: string)

  /** `!!v`: false exactly for undefined, null, false, 0, NaN and "". */
  predicate Truthy(v: JsValue) {
    match v
    case Undefined => false
    case Null => false
    case Bool(b) => b
    case Number(x) => x.Finite? && x.value != 0
    case Str(s) => s != ""
    case Arr(_) => true
    case Obj(_) => true
  }

  /** `a || b`: the first operand when it is truthy, otherwise the second. */
  function LogicalOr(a: JsValue, b: JsValue): (r: JsValue)
    ensures Truthy(a) ==> r == a
    ensures !Truthy(a) ==> r == b
    ensures Truthy(r) <==> Truthy(a) || Truthy(b)
  {
    if Truthy(a) then a else b
  }

  function Join(parts: seq<string>, sep: string): string
    decreases |parts|
  {
    if |parts| == 0 then ""
    else if |parts| == 1 then parts[0]
    else parts[0] + sep + Join(parts[1..], sep)
  }

  function NumberToString(x: JsNumber): string {
    match x
    case Finite(n) => Digits(n, Decimal)
    case NaN => "NaN"
  }

  /** `String(v)`. An array joins its elements with "," and writes undefined
      and null elements as empty strings; every plain object is
      "[object Object]". */
  function ToJsString(v: JsValue): string
    decreases v, 0
  {
    match v
    case Undefined => "undefined"
    case Null => "null"
    case Bool(b) => if b then "true" else "false"
    case Number(x) => NumberToString(x)
    case Str(s) => s
    case Arr(items) =>
      Join(seq(|items|, i requires 0 <= i < |items| => ElementString(items[i])), ",")
    case Obj(_) => "[object Object]"
  }

  /** How `Array.prototype.join` writes one element. */
  function ElementString(v: JsValue): string
    decreases v, 1
  {
    if v.Undefined? || v.Null? then "" else ToJsString(v)
  }

  function ElementStrings(items: seq<JsValue>): (parts: seq<string>)
    ensures |parts| == |items|
    ensures forall i :: 0 <= i < |items| ==> parts[i] == ElementString(items[i])
  {
    seq(|items|, i requires 0 <= i < |items| => ElementString(items[i]))
  }

  lemma ArrayString(items: seq<JsValue>)
    ensures ToJsString(Arr(items)) == Join(ElementStrings(items), ",")
  {
  }

  /** `parseInt(s)` with no radix argument. */
  function ParseInt(s: string): (x: JsNumber)
    ensures x.Finite? <==> ParseNumeral(s).Some?
    ensures x.Finite? ==> if HasHexPrefix(s) then Denotes(s[2..], Hex, x.value) else Denotes(s, Decimal, x.value)
  {
    match ParseNumeral(s)
    case Some(n) => Finite(n)
    case None => NaN
  }

  /** What `n.toString()` and `"0x" + n.toString(16)` print, `parseInt`
      reads back as `n`. */
  lemma ParseIntOfDigits(n: nat)
    ensures ParseInt(Digits(n, Decimal)) == Finite(n)
    ensures ParseInt("0x" + Digits(n, Hex)) == Finite(n)
  {
    ParseDecimalDigits(n);
    ParseHexDigits(n);
  }

  /** `parseInt(v)` on an arbitrary value: the argument is first converted
      with `String(v)`, so `parseInt(undefined)` is NaN. */
  function ParseIntValue(v: JsValue): JsNumber {
    ParseInt(ToJsString(v))
  }

  /** `x.toString(16)`. */
  function NumberToHex(x: JsNumber): (h: string)
    ensures x.Finite? ==> Canonical(h, Hex) && Denotes(h, Hex, x.value)
    ensures x.NaN? ==> h == "NaN"
  {
    match x
    case Finite(n) => ValueOfDigits(n, Hex); Digits(n, Hex)
    case NaN => "NaN"
  }

  /** `BigInt(s).toString()` for a string `s`: the empty string is 0, a
      decimal or `0x` numeral is re-spelled in canonical decimal, anything
      else throws a SyntaxError. */
  function StringToBigIntString(s: string): (r: Result<string, Error>)
    ensures r.Success? ==> Canonical(r.value, Decimal)
    ensures r.Success? <==> (s == "" || ParseNumeral(s).Some?)
    ensures s == "" ==> r == Success("0")
    ensures ParseNumeral(s).Some? ==> r.Success? && Denotes(r.value, Decimal, ParseNumeral(s).value)
    ensures r.Failure? ==> r.error == SyntaxError(s)
  {
    if s == "" then Success("0")
    else match ParseNumeral(s)
      case Some(n) => ValueOfDigits(n, Decimal); Success(Digits(n, Decimal))
      case None => Failure(SyntaxError(s))
  }

  /** `BigInt(v).toString()` for an arbitrary value. */
  function BigIntString(v: JsValue): (r: Result<string, Error>)
    ensures r.Success? ==> Canonical(r.value, Decimal)
    ensures (v.Undefined? || v.Null?) ==> r.Failure? && r.error.TypeError?
    ensures v == Number(NaN) ==> r.Failure? && r.error.RangeError?
    ensures v.Number? && v.num.Finite? ==> r.Success? && Denotes(r.value, Decimal, v.num.value)
    ensures v.Str? ==> r == StringToBigIntString(v.s)
    ensures v.Bool? ==> r == Success(if v.b then "1" else "0")
    ensures v.Obj? ==> r.Failure? && r.error.SyntaxError?
    ensures v.Arr? ==> r == StringToBigIntString(ToJsString(v))
  {
    match v
    case Undefined => Failure(TypeError("Cannot convert undefined to a BigInt"))
    case Null => Failure(TypeError("Cannot convert null to a BigInt"))
    case Bool(b) => Success(if b then "1" else "0")
    case Number(Finite(n)) => ValueOfDigits(n, Decimal); Success(Digits(n, Decimal))
    case Number(NaN) => Failure(RangeError("NaN cannot be converted to a BigInt"))
    case Str(s) => StringToBigIntString(s)
    case Arr(_) => StringToBigIntString(ToJsString(v))
    case Obj(_) => StringToBigIntString(ToJsString(v))
  }

  /** Hex (or decimal) to canonical decimal keeps the value: parsing the
      output yields exactly what parsing the input yields. */
  lemma HexToDecimalRoundTrip(s: string)
    requires s != ""
    ensures StringToBigIntString(s).Success? ==>
      ParseNumeral(StringToBigIntString(s).value) == ParseNumeral(s)
  {
    if ParseNumeral(s).Some? {
      ParseDecimalDigits(ParseNumeral(s).value);
    }
  }

  /** The canonical decimal spelling is the only one with no leading zero:
      any canonical numeral that denotes the input's value is the output. */
  lemma HexToDecimalUnique(s: string, t: string)
    requires ParseNumeral(s).Some?
    requires Canonical(t, Decimal)
    ensures AllDigits(t, Decimal)
    ensures Value(t, Decimal) == ParseNumeral(s).value <==> StringToBigIntString(s) == Success(t)
  {
    CanonicalUnique(t, Decimal);
    ValueOfDigits(ParseNumeral(s).value, Decimal);
  }

  /** `v[key]` for a property read: undefined and null throw a TypeError,
      an object yields its field or undefined, other values have none of the
      keys read here. */
  function Property(v: JsValue, key: string): (r: Result<JsValue, Error>)
    ensures r.Failure? <==> (v.Undefined? || v.Null?)
    ensures v.Obj? && key in v.fields ==> r == Success(v.fields[key])
    ensures r.Success? && !(v.Obj? && key in v.fields) ==> r.value == Undefined
  {
    match v
    case Undefined => Failure(TypeError("Cannot read property '" + key + "' of undefined"))
    case Null => Failure(TypeError("Cannot read property '" + key + "' of null"))
    case Obj(m) => Success(if key in m then m[key] else Undefined)
    case _ => Success(Undefined)
  }
}
