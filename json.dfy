/**
 * JSON documents as the browser script and the configuration server see them
 * after `JSON.parse`, together with the few JavaScript operators the sources
 * apply to them: truthiness, property reads (`undefined` is a missing key),
 * `||` defaults, object spread, `String(v)` and `Number(v)`.
 */
module Json {
  import opened Wrappers
  import opened Strings

  datatype Value =
    | Null
    | Bool(b: bool)
    | Num(n: real)
    | Str(s: string)
    | Arr(items: seq<Value>)
    | Obj(fields: map<string, Value>)

  /** A plain JavaScript object: its own enumerable properties. */
  type Object = map<string, Value>

  /** A string held in `localStorage` or on disk: either it parses as JSON or `JSON.parse` throws. */
  datatype Stored = Json(value: Value) | Unparseable

  /** ECMAScript ToBoolean restricted to JSON values (no NaN, no -0 in the domain). */
  predicate Truthy(v: Value) {
    match v
    case Null => false
    case Bool(b) => b
    case Num(n) => n != 0.0
    case Str(s) => s != ""
    case Arr(_) => true
    case Obj(_) => true
  }

  /** A property read that is neither undefined nor falsy: `if (v)` takes its branch. */
  predicate Present(v: Option<Value>) {
    v.Some? && Truthy(v.value)
  }

  /** `v.key` on a value that is not null or undefined: an own property, else undefined. */
  function Get(v: Value, key: string): Option<Value> {
    if v.Obj? && key in v.fields then Some(v.fields[key]) else None
  }

  /** `v?.key`: undefined when `v` itself is null or undefined. */
  function GetOpt(v: Option<Value>, key: string): Option<Value> {
    if v.Some? && !v.value.Null? then Get(v.value, key) else None
  }

  /** `a || d` where `a` may be undefined. */
  function Or(a: Option<Value>, d: Value): Value {
    if a.Some? && Truthy(a.value) then a.value else d
  }

  /** `typeof v`, with `undefined` for a missing property. */
  function TypeOf(v: Option<Value>): string {
    if v.None? then "undefined"
    else match v.value
      case Null => "object"
      case Bool(_) => "boolean"
      case Num(_) => "number"
      case Str(_) => "string"
      case Arr(_) => "object"
      case Obj(_) => "object"
  }

  lemma NatToStringInjective(m: nat, n: nat)
    requires NatToString(m) == NatToString(n)
    ensures m == n
  {
    NatToStringValue(m);
    NatToStringValue(n);
  }

  /** The object `{0: xs[0], 1: xs[1], ...}` that spreading an array or a string yields. */
  function IndexKeyed(xs: seq<Value>): (r: Object)
    ensures forall i :: 0 <= i < |xs| ==> NatToString(i) in r && r[NatToString(i)] == xs[i]
  {
    forall i: nat, j: nat | NatToString(i) == NatToString(j) ensures i == j {
      NatToStringInjective(i, j);
    }
    map i | 0 <= i < |xs| :: NatToString(i) := xs[i]
  }

  /**
   * `{...v}`: the own enumerable properties of `v`.  An object gives its
   * fields, an array its elements and a string its characters under their
   * index; null, undefined, booleans and numbers give nothing.
   */
  function Spread(v: Option<Value>): (r: Object)
    ensures v.Some? && v.value.Obj? ==> r == v.value.fields
    ensures v.None? || v.value.Null? || v.value.Bool? || v.value.Num? ==> r == map[]
  {
    if v.None? then map[]
    else match v.value
      case Obj(fields) => fields
      case Arr(items) => IndexKeyed(items)
      case Str(s) => IndexKeyed(Chars(s))
      case _ => map[]
  }

  /** A string iterated code point by code point, each as a one-character string. */
  function Chars(s: string): (r: seq<Value>)
    ensures |r| == |s|
    ensures forall i :: 0 <= i < |s| ==> r[i] == Str([s[i]])
  {
    seq(|s|, i requires 0 <= i < |s| => Str([s[i]]))
  }

  /**
   * `[...v]`: the elements an array literal spread takes from `v`.  Arrays
   * give their elements and strings their characters; every other value is
   * not iterable and the spread throws a TypeError (`None`).
   */
  function Iterate(v: Value): (r: Option<seq<Value>>)
    ensures v.Arr? ==> r == Some(v.items)
    ensures r.None? <==> !(v.Arr? || v.Str?)
  {
    match v
    case Arr(items) => Some(items)
    case Str(s) => Some(Chars(s))
    case _ => None
  }

  /** The result of ECMAScript ToNumber. */
  datatype Number = NaN | Finite(r: real) | PosInfinity | NegInfinity

  function Trunc(r: real): int {
    if r >= 0.0 then r.Floor else -((-r).Floor)
  }

  function JoinComma(parts: seq<string>): string {
    if parts == [] then ""
    else if |parts| == 1 then parts[0]
    else parts[0] + "," + JoinComma(parts[1..])
  }

  /**
   * `String(v)` as a template literal or `+` applies it.  Integral numbers are
   * rendered exactly; the digits after the point of a fractional number are not
   * modelled.
   */
  function JsString(v: Value): string {
    match v
    case Null => "null"
    case Bool(b) => if b then "true" else "false"
    case Num(n) => if n == n.Floor as real then IntToString(n.Floor) else IntToString(Trunc(n)) + ".?"
    case Str(s) => s
    case Arr(items) =>
      JoinComma(seq(|items|, i requires 0 <= i < |items| => if items[i].Null? then "" else JsString(items[i])))
    case Obj(_) => "[object Object]"
  }

  /** `v` times ten to the power `e`. */
  function Scale(v: real, e: int): real
    decreases if e < 0 then -e else e
  {
    if e == 0 then v
    else if e > 0 then Scale(v, e - 1) * 10.0
    else Scale(v, e + 1) / 10.0
  }

  /** The base a "0b", "0o" or "0x" prefix selects (either letter case); 0 for no such prefix. */
  function RadixOf(t: string): nat {
    if |t| < 2 || t[0] != '0' then 0
    else if t[1] == 'b' || t[1] == 'B' then 2
    else if t[1] == 'o' || t[1] == 'O' then 8
    else if t[1] == 'x' || t[1] == 'X' then 16
    else 0
  }

  /** The exponent part `e`/`E`, an optional sign and decimal digits; None when `rest` is not one. */
  function ExponentOf(rest: string): Option<int> {
    if rest == [] || (rest[0] != 'e' && rest[0] != 'E') then None
    else
      var signed := |rest| > 1 && (rest[1] == '-' || rest[1] == '+');
      var digits := if signed then rest[2..] else rest[1..];
      if digits == [] || DigitRun(digits) != |digits| then None
      else if signed && rest[1] == '-' then Some(-(DigitsValue(digits) as int))
      else Some(DigitsValue(digits))
  }

  /**
   * An unsigned decimal literal: "Infinity", or digits with an optional
   * point and fraction, then an optional exponent.  Anything else, or
   * anything left over, is NaN.
   */
  function UnsignedDecimalNumber(body: string): Number {
    if body == "Infinity" then PosInfinity
    else
      var p := UnsignedDecimalPrefix(body);
      var rest := body[p.len..];
      if p.len == 0 then NaN
      else if rest == [] then Finite(p.value)
      else match ExponentOf(rest)
        case None => NaN
        case Some(e) => Finite(Scale(p.value, e))
  }

  /**
   * ECMAScript StringToNumber: surrounding white space is ignored and the
   * empty string is 0; the rest must be a numeric literal, else NaN.
   */
  function StringToNumber(s: string): Number {
    NumericLiteral(TrimJsEnd(TrimJsStart(s)))
  }

  /**
   * A trimmed StringNumericLiteral: a "0b", "0o" or "0x" literal (no sign)
   * read in its base, otherwise an optional sign and an unsigned decimal
   * literal; the whole text must match.
   */
  function NumericLiteral(t: string): Number {
    if t == [] then Finite(0.0)
    else if RadixOf(t) != 0 then
      var digits := t[2..];
      if digits == [] || RadixRun(digits, RadixOf(t)) != |digits| then NaN
      else Finite(RadixValue(digits, RadixOf(t)) as real)
    else
      var body := if t[0] == '-' || t[0] == '+' then t[1..] else t;
      match UnsignedDecimalNumber(body)
      case NaN => NaN
      case Finite(v) => Finite(if t[0] == '-' then -v else v)
      case PosInfinity => if t[0] == '-' then NegInfinity else PosInfinity
      case NegInfinity => NaN
  }

  /** Text that neither starts nor ends with white space is not trimmed. */
  lemma Untrimmed(s: string)
    requires s != [] && !JsWhitespace(s[0]) && !JsWhitespace(s[|s| - 1])
    ensures StringToNumber(s) == NumericLiteral(s)
  {
  }

  lemma HexDigitNotSpace(c: char)
    requires IsHexDigit(c)
    ensures !JsWhitespace(c)
  {
  }

  /** "0b", "0o" or "0x" (either case) followed by digits of that base reads as that integer, so "0x3" gives 3. */
  lemma RadixTextNumber(s: string)
    requires RadixOf(s) != 0 && |s| > 2
    requires forall i :: 0 <= i < |s[2..]| ==> IsRadixDigit(s[2..][i], RadixOf(s))
    ensures StringToNumber(s) == Finite(RadixValue(s[2..], RadixOf(s)) as real)
  {
    RadixLiteral(s);
    assert s[|s| - 1] == s[2..][|s| - 3];
    HexDigitNotSpace(s[|s| - 1]);
    Untrimmed(s);
  }

  /** A prefixed literal whose every following character is a digit of its base reads as that integer. */
  lemma RadixLiteral(t: string)
    requires RadixOf(t) != 0 && |t| > 2
    requires forall i :: 0 <= i < |t[2..]| ==> IsRadixDigit(t[2..][i], RadixOf(t))
    ensures NumericLiteral(t) == Finite(RadixValue(t[2..], RadixOf(t)) as real)
  {
    RadixRunAll(t[2..], RadixOf(t));
  }

  /** "Infinity" with or without a sign reads as an infinity of that sign. */
  lemma SignedInfinity()
    ensures StringToNumber("Infinity") == PosInfinity
    ensures StringToNumber("+Infinity") == PosInfinity
    ensures StringToNumber("-Infinity") == NegInfinity
  {
    Untrimmed("Infinity");
    Untrimmed("+Infinity");
    Untrimmed("-Infinity");
    assert "+Infinity"[1..] == "Infinity" && "-Infinity"[1..] == "Infinity";
  }

  /** ECMAScript ToNumber (arrays go through their string form, objects give NaN). */
  function ToNumber(v: Value): Number {
    match v
    case Null => Finite(0.0)
    case Bool(b) => Finite(if b then 1.0 else 0.0)
    case Num(n) => Finite(n)
    case Str(s) => StringToNumber(s)
    case Arr(_) => StringToNumber(JsString(v))
    case Obj(_) => NaN
  }

  /** `x >= y` on two ToNumber results: false as soon as either is NaN. */
  predicate AtLeast(x: Number, y: Number) {
    !x.NaN? && !y.NaN?
    && (x.PosInfinity? || y.NegInfinity? || (x.Finite? && y.Finite? && x.r >= y.r))
  }

  /**
   * `(x || 0) + 1`: numeric addition once the falsy values are replaced by 0,
   * string concatenation when the operand is a string or converts to one.
   */
  function PlusOne(x: Value): (r: Value)
    ensures !Truthy(x) ==> r == Num(1.0)
    ensures x.Num? ==> r == Num(x.n + 1.0)
    ensures x.Str? && x.s != "" ==> r == Str(x.s + "1")
  {
    if !Truthy(x) then Num(1.0)
    else match x
      case Num(n) => Num(n + 1.0)
      case Bool(_) => Num(2.0)
      case Str(s) => Str(s + "1")
      case _ => Str(JsString(x) + "1")
  }
}
