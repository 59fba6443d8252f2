/** The JavaScript values a node can produce (the result of JSON.parse or an
    object literal built by the executor), JavaScript truthiness, and the
    conversion `String(value)` that the variable resolver applies. Numbers are
    integers in this model. */
module JsonValue {
  import opened Wrappers

  datatype Value =
    | Null
    | Bool(b: bool)
    | Int(i: int)
    | Str(s: string)
    | Arr(items: seq<Value>)
    | Obj(fields: map<string, Value>)

  /** JavaScript truthiness: null, false, 0 and "" are falsy; arrays and
      objects are always truthy. */
  predicate Truthy(v: Value) {
    match v
    case Null => false
    case Bool(b) => b
    case Int(i) => i != 0
    case Str(s) => s != ""
    case Arr(_) => true
    case Obj(_) => true
  }

  /** `typeof v === 'object'` for a value that is not null. */
  predicate IsObjectLike(v: Value) {
    v.Arr? || v.Obj?
  }

  function DigitChar(d: nat): (c: char)
    requires d < 10
    ensures '0' <= c <= '9'
  {
    ('0' as int + d) as char
  }

  function DigitValue(c: char): (d: nat)
    requires '0' <= c <= '9'
    ensures d < 10 && DigitChar(d) == c
  {
    (c as int - '0' as int) as nat
  }

  /** A string made of decimal digits only. */
  predicate IsDigits(s: string)
    decreases |s|
  {
    s == [] || ('0' <= s[|s| - 1] <= '9' && IsDigits(s[..|s| - 1]))
  }

  /** Decimal numeral of a natural number, without leading zeros. */
  function NatToString(n: nat): (s: string)
    ensures |s| >= 1
    ensures forall k :: 0 <= k < |s| ==> '0' <= s[k] <= '9'
    ensures IsDigits(s)
    ensures |s| > 1 ==> s[0] != '0'
    decreases n
  {
    if n < 10 then
      var s := [DigitChar(n)];
      assert s[..0] == [];
      s
    else
      var t := NatToString(n / 10);
      var s := t + [DigitChar(n % 10)];
      assert s[..|s| - 1] == t;
      s
  }

  /** `String(i)` for an integer number. */
  function IntToString(i: int): string {
    if i < 0 then "-" + NatToString(-i) else NatToString(i)
  }

  /** Value of a string of decimal digits. */
  function DigitsValue(s: string): nat
    requires IsDigits(s)
    decreases |s|
  {
    if s == [] then 0 else DigitsValue(s[..|s| - 1]) * 10 + DigitValue(s[|s| - 1])
  }

  /** A canonical array index key, as the `in` operator recognises it on an
      array: "0" or a numeral without a leading zero. */
  function ArrayIndex(key: string): Option<nat> {
    if key != [] && IsDigits(key) && (key == "0" || key[0] != '0')
    then Some(DigitsValue(key)) else None
  }

  /** `String(v)`: the canonical string form JavaScript gives a value.
      Arrays join their elements with commas, with null elements as "". */
  function JsString(v: Value): string {
    match v
    case Null => "null"
    case Bool(b) => if b then "true" else "false"
    case Int(i) => IntToString(i)
    case Str(s) => s
    case Arr(items) =>
      JoinWithCommas(seq(|items|, k requires 0 <= k < |items| => if items[k].Null? then "" else JsString(items[k])))
    case Obj(_) => "[object Object]"
  }

  /** Joins strings with a comma separator (Array.prototype.join). */
  function JoinWithCommas(parts: seq<string>): string {
    if parts == [] then ""
    else if |parts| == 1 then parts[0]
    else parts[0] + "," + JoinWithCommas(parts[1..])
  }

  /** The canonical numeral is read back as the number it denotes. */
  lemma {:induction false} ArrayIndexOfNumeral(n: nat)
    ensures ArrayIndex(NatToString(n)) == Some(n)
  {
    var s := NatToString(n);
    assert DigitsValue(s) == n by { NumeralValue(n); }
    if n >= 10 { assert s[0] != '0'; }
  }

  lemma {:induction false} NumeralValue(n: nat)
    ensures DigitsValue(NatToString(n)) == n
    decreases n
  {
    var s := NatToString(n);
    if n < 10 {
      assert s[..0] == [];
      assert DigitValue(s[0]) == n;
    } else {
      var t := NatToString(n / 10);
      assert s[..|s| - 1] == t;
      assert DigitValue(s[|s| - 1]) == n % 10;
      NumeralValue(n / 10);
      assert DigitsValue(s) == DigitsValue(t) * 10 + n % 10;
    }
  }
}
