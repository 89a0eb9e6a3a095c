/** Loosely typed field values, as an upstream record parser hands them to
    the normalizers, together with the Python conventions the normalizers
    rely on: truthiness, decimal digits and the value a digit string spells. */
module Values {

  datatype Option<T> = None | Some(value: T)

  /** A raw field value. `Absent` stands for Python's `None` and for a key
      that is missing from a record. */
  datatype Value =
    | Absent
    | Bool(b: bool)
    | Int(i: int)
    | Text(s: string)
    | List(items: seq<Value>)
    | Dict(entries: map<string, Value>)

  /** Python truthiness (`if not v`), restricted to the shapes above: the
      falsy values are exactly `None`, `False`, zero and the empty text, list
      and dict. */
  predicate Truthy(v: Value): (t: bool)
    ensures !t <==> v in {Absent, Bool(false), Int(0), Text(""), List([]), Dict(map[])}
  {
    match v
    case Absent => false
    case Bool(b) => b
    case Int(i) => i != 0
    case Text(s) => s != []
    case List(xs) => xs != []
    case Dict(m) => |m| != 0
  }

  /** The record lookup `data.get(key)`. */
  function Get(data: map<string, Value>, key: string): (v: Value)
    ensures key in data ==> v == data[key]
    ensures key !in data ==> v == Absent
  {
    if key in data then data[key] else Absent
  }

  /** The record lookup `data.get(key, default)`. */
  function GetOr(data: map<string, Value>, key: string, default: Value): (v: Value)
    ensures key in data ==> v == Get(data, key)
    ensures key !in data ==> v == default
  {
    if key in data then data[key] else default
  }

  predicate IsDigit(c: char) {
    '0' <= c <= '9'
  }

  predicate AllDigits(s: string) {
    forall i :: 0 <= i < |s| ==> IsDigit(s[i])
  }

  predicate NoDigits(s: string) {
    forall i :: 0 <= i < |s| ==> !IsDigit(s[i])
  }

  function DigitValue(c: char): (d: nat)
    requires IsDigit(c)
    ensures d < 10
  {
    c as int - '0' as int
  }

  function DigitChar(d: nat): (c: char)
    requires d < 10
    ensures IsDigit(c) && DigitValue(c) == d
  {
    ('0' as int + d) as char
  }

  function Pow10(k: nat): (p: nat)
    ensures p >= 1
  {
    if k == 0 then 1 else 10 * Pow10(k - 1)
  }

  /** The natural number a string of decimal digits spells, most significant
      digit first; the empty string spells 0. */
  function DecimalValue(s: string): (n: nat)
    requires AllDigits(s)
    ensures n < Pow10(|s|)
  {
    if s == [] then 0 else DecimalValue(s[..|s| - 1]) * 10 + DigitValue(s[|s| - 1])
  }

  /** The shortest decimal spelling of `n` ("0" for zero). */
  function Decimal(n: nat): (s: string)
    ensures s != [] && AllDigits(s)
    ensures |s| > 1 ==> s[0] != '0'
  {
    if n < 10 then [DigitChar(n)] else Decimal(n / 10) + [DigitChar(n % 10)]
  }

  /** The decimal digits of `s`, in order, with everything else removed. */
  function Digits(s: string): (d: string)
    ensures AllDigits(d) && |d| <= |s|
    ensures d == [] <==> NoDigits(s)
  {
    if s == [] then []
    else if IsDigit(s[0]) then [s[0]] + Digits(s[1..])
    else Digits(s[1..])
  }

  /** Reading a concatenation shifts the left part by the length of the right. */
  lemma {:induction false} DecimalValueAppend(s: string, t: string)
    requires AllDigits(s) && AllDigits(t)
    ensures AllDigits(s + t)
    ensures DecimalValue(s + t) == DecimalValue(s) * Pow10(|t|) + DecimalValue(t)
  {
    if t == [] {
      assert s + t == s;
    } else {
      var t', d := t[..|t| - 1], DigitValue(t[|t| - 1]);
      DecimalValueAppend(s, t');
      var a, p, b := DecimalValue(s), Pow10(|t'|), DecimalValue(t');
      assert DecimalValue(s + t) == (a * p + b) * 10 + d by {
        assert (s + t)[..|s + t| - 1] == s + t';
        assert (s + t)[|s + t| - 1] == t[|t| - 1];
      }
      assert DecimalValue(t) == b * 10 + d;
      assert Pow10(|t|) == 10 * p;
      ShiftOneDigit(a, p, b, d);
    }
  }

  lemma ShiftOneDigit(a: int, p: int, b: int, d: int)
    ensures (a * p + b) * 10 + d == a * (10 * p) + (b * 10 + d)
  {
  }

  /** Leading zeros do not change the value. */
  lemma {:induction false} DecimalValueLeadingZero(s: string)
    requires AllDigits(s)
    ensures AllDigits(['0'] + s) && DecimalValue(['0'] + s) == DecimalValue(s)
  {
    DecimalValueAppend(['0'], s);
    assert ['0'][..0] == [];
  }

  /** Reading back the decimal spelling of `n` gives `n`. */
  lemma {:induction false} DecimalRoundTrip(n: nat)
    ensures DecimalValue(Decimal(n)) == n
  {
    if n >= 10 {
      DecimalRoundTrip(n / 10);
      var s := Decimal(n / 10) + [DigitChar(n % 10)];
      assert s[..|s| - 1] == Decimal(n / 10);
    }
  }

  /** Dropping non-digits distributes over concatenation. */
  lemma {:induction false} DigitsAppend(s: string, t: string)
    ensures Digits(s + t) == Digits(s) + Digits(t)
  {
    if s == [] {
      assert s + t == t;
    } else {
      assert (s + t)[0] == s[0];
      assert (s + t)[1..] == s[1..] + t;
      DigitsAppend(s[1..], t);
    }
  }

  /** A string made of digits only is its own digit string. */
  lemma {:induction false} DigitsOfDigitString(s: string)
    requires AllDigits(s)
    ensures Digits(s) == s
  {
    if s != [] {
      DigitsOfDigitString(s[1..]);
    }
  }
}
