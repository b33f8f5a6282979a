/**
 * JavaScript values as the application's documents hold them, with the
 * three coercions the code relies on: truthiness, `String(v)` and
 * `Number(v)`, and property access `v[key]`. Numbers are integers.
 */
module Json {
  import opened Base

  datatype Value =
    | Undef
    | Null
    | Bool(b: bool)
    | Num(n: int)
    | Str(s: string)
    | Arr(items: seq<Value>)
    | Obj(fields: map<string, Value>)

  /** `null` or `undefined`: what `== null` and `?.` test for. */
  predicate Nullish(v: Value)
  {
    v.Undef? || v.Null?
  }

  /** The values `if (v)` rejects (NaN is not modelled). */
  predicate Falsy(v: Value)
  {
    v.Undef? || v.Null? || v == Bool(false) || v == Num(0) || v == Str("")
  }

  /** `String(v)`; arrays join their elements with commas, rendering `null`/`undefined` as nothing. */
  function ToStr(v: Value): (r: string)
    ensures v.Str? ==> r == v.s
    ensures v.Num? && v.n >= 0 ==> AllDigits(r)
  {
    match v
    case Undef => "undefined"
    case Null => "null"
    case Bool(b) => if b then "true" else "false"
    case Num(n) => IntToString(n)
    case Str(s) => s
    case Arr(items) =>
      Join(seq(|items|, i requires 0 <= i < |items| => if Nullish(items[i]) then "" else ToStr(items[i])), ",")
    case Obj(_) => "[object Object]"
  }

  // ---------------------------------------------------------------- Number()

  function DigitValue(c: char): (d: nat)
    requires IsDigit(c)
    ensures d < 10
  {
    c as int - '0' as int
  }

  /** The value of a string of decimal digits (`""` is 0). */
  function DigitsValue(s: string): nat
    requires AllDigits(s)
  {
    if s == [] then 0 else DigitsValue(s[..|s| - 1]) * 10 + DigitValue(s[|s| - 1])
  }

  /** `Number(s)` for decimal integer literals: surrounding whitespace ignored, blank is 0, anything else is NaN (`None`). */
  function StrToNumber(s: string): Option<int>
  {
    LiteralValue(Trim(s))
  }

  function LiteralValue(t: string): Option<int>
  {
    if t == [] then Some(0)
    else if |t| > 1 && t[0] == '-' && AllDigits(t[1..]) then (var k: int := DigitsValue(t[1..]); Some(-k))
    else if |t| > 1 && t[0] == '+' && AllDigits(t[1..]) then Some(DigitsValue(t[1..]))
    else if AllDigits(t) then Some(DigitsValue(t))
    else None
  }

  lemma DigitRoundTrip(d: nat)
    requires d < 10
    ensures DigitValue(DigitChar(d)) == d
  {
    var digits := ['0', '1', '2', '3', '4', '5', '6', '7', '8', '9'];
    assert DigitChar(d) == digits[d];
  }

  /** Reading back the decimal rendering of a natural number gives the number. */
  lemma {:induction false} NatStringValue(n: nat)
    ensures DigitsValue(NatToString(n)) == n
  {
    DigitRoundTrip(n % 10);
    if n >= 10 {
      NatStringValue(n / 10);
      var s := NatToString(n);
      assert s[..|s| - 1] == NatToString(n / 10);
    }
  }

  /** A literal of digits alone reads as its value. */
  lemma LiteralOfDigits(t: string)
    requires t != [] && AllDigits(t)
    ensures LiteralValue(t) == Some(DigitsValue(t))
  {
    assert IsDigit(t[0]);
  }

  /** A minus sign followed by digits reads as the negated value. */
  lemma LiteralOfMinus(d: string)
    requires d != [] && AllDigits(d)
    ensures LiteralValue("-" + d) == Some(-(DigitsValue(d) as int))
  {
    var t := "-" + d;
    assert t[0] == '-' && t[1..] == d;
  }

  /** `Number(String(n)) === n` for every integer. */
  lemma NumberOfString(n: int)
    ensures StrToNumber(IntToString(n)) == Some(n)
  {
    var s := IntToString(n);
    IntStringNoSpace(n);
    TrimNoSpace(s);
    if n < 0 {
      var d := NatToString(-n);
      assert s == "-" + d;
      LiteralOfMinus(d);
      NatStringValue(-n);
    } else {
      LiteralOfDigits(s);
      NatStringValue(n);
    }
  }

  lemma IntStringNoSpace(n: int)
    ensures NoSpace(IntToString(n))
  {
    var s := IntToString(n);
    if n < 0 {
      var d := NatToString(-n);
      assert s == "-" + d;
      forall i | 0 <= i < |s|
        ensures !IsSpace(s[i])
      {
        if i > 0 {
          assert s[i] == d[i - 1];
          assert IsDigit(s[i]);
        }
      }
    } else {
      forall i | 0 <= i < |s|
        ensures !IsSpace(s[i])
      {
        assert IsDigit(s[i]);
      }
    }
  }

  /** `Number(v)`; `None` stands for NaN. Objects and arrays go through `String(v)`. */
  function ToNumber(v: Value): (r: Option<int>)
    ensures v.Num? ==> r == Some(v.n)
    ensures v.Str? ==> r == StrToNumber(v.s)
  {
    match v
    case Undef => None
    case Null => Some(0)
    case Bool(b) => Some(if b then 1 else 0)
    case Num(n) => Some(n)
    case _ => StrToNumber(ToStr(v))
  }

  // ---------------------------------------------------------------- property access

  /** The array index a property name denotes: its canonical decimal rendering, below `len`. */
  function IndexKey(key: string, n: nat, len: nat): (r: Option<nat>)
    ensures r.Some? ==> n <= r.value < len && NatToString(r.value) == key
    ensures r.None? ==> forall m :: n <= m < len ==> NatToString(m) != key
    decreases len - n
  {
    if n >= len then None
    else if NatToString(n) == key then Some(n)
    else IndexKey(key, n + 1, len)
  }

  /** `v[key]` on a value that is not `null`/`undefined` (on those it throws). */
  function Member(v: Value, key: string): (r: Value)
    requires !Nullish(v)
    ensures v.Obj? ==> r == (if key in v.fields then v.fields[key] else Undef)
    ensures v.Arr? && key == "length" ==> r == Num(|v.items|)
    ensures v.Bool? || v.Num? ==> r == Undef
  {
    match v
    case Obj(fields) => if key in fields then fields[key] else Undef
    case Arr(items) =>
      if key == "length" then Num(|items|)
      else (match IndexKey(key, 0, |items|)
            case Some(i) => items[i]
            case None => Undef)
    case Str(s) =>
      if key == "length" then Num(|s|)
      else (match IndexKey(key, 0, |s|)
            case Some(i) => Str([s[i]])
            case None => Undef)
    case _ => Undef
  }

  /** Property `key` of an object value, `undefined` when the value is not an object or lacks it. */
  function Field(v: Value, key: string): (r: Value)
    ensures v.Obj? && key in v.fields ==> r == v.fields[key]
    ensures !v.Obj? ==> r == Undef
  {
    if v.Obj? && key in v.fields then v.fields[key] else Undef
  }
}
