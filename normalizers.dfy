/** The cost normalizer and the horsepower validator: fail-soft conversions
    of one raw field value, branching on its shape. */
module Normalizers {
  import opened Values

  /** Python's `int(v)` on the modelled shapes: numbers pass through (`bool`
      is an `int` subclass), text must consist of decimal digits only, and
      everything else raises, which is `None` here. */
  function PyInt(v: Value): (r: Option<int>)
    ensures v.Int? ==> r == Some(v.i)
    ensures v.Text? ==> (r.Some? <==> v.s != [] && AllDigits(v.s))
    ensures v.Bool? ==> r == Some(if v.b then 1 else 0)
    ensures v.Text? && r.Some? ==> AllDigits(v.s) && r.value == DecimalValue(v.s)
    ensures v.Text? && r.Some? ==> 0 <= r.value < Pow10(|v.s|)
    ensures v.Absent? || v.List? || v.Dict? ==> r == None
  {
    match v
    case Int(i) => Some(i)
    case Bool(b) => Some(if b then 1 else 0)
    case Text(s) =>
      if s != [] && AllDigits(s) then Some(DecimalValue(s)) else None
    case _ => None
  }

  /** The decimal spelling of any number converts back to that number. */
  lemma PyIntOfDecimal(n: nat)
    ensures PyInt(Text(Decimal(n))) == Some(n)
  {
    DecimalRoundTrip(n);
  }

  /** `clean_cost`: a number passes through, text is read as the number its
      decimal digits spell in order (0 when it has none), and any other
      shape gives 0. */
  function CleanCost(raw: Value): (r: int)
    ensures raw.Int? ==> r == raw.i
    ensures raw.Bool? ==> r == (if raw.b then 1 else 0)
    ensures raw.Text? ==> 0 <= r < Pow10(|Digits(raw.s)|)
    ensures raw.Text? && NoDigits(raw.s) ==> r == 0
    ensures raw.Absent? || raw.List? || raw.Dict? ==> r == 0
    ensures r < 0 ==> raw.Int?
  {
    match raw
    case Int(i) => i
    case Bool(b) => if b then 1 else 0
    case Text(s) =>
      var clean := Digits(s);
      if clean != [] then DecimalValue(clean) else 0
    case _ => 0
  }

  /** A number spelled anywhere in text, surrounded by symbols and separators
      that are not digits, is what `clean_cost` reads. */
  lemma CleanCostReadsSpelledNumber(prefix: string, n: nat, suffix: string)
    requires NoDigits(prefix) && NoDigits(suffix)
    ensures CleanCost(Text(prefix + Decimal(n) + suffix)) == n
  {
    var d := Decimal(n);
    assert Digits(prefix + d + suffix) == d by {
      DigitsAppend(prefix + d, suffix);
      DigitsAppend(prefix, d);
      DigitsOfDigitString(d);
      assert Digits(prefix) == [] && Digits(suffix) == [];
    }
    DecimalRoundTrip(n);
    CleanCostOfDigits(prefix + d + suffix, d);
  }

  lemma CleanCostOfDigits(s: string, d: string)
    requires Digits(s) == d && d != []
    ensures AllDigits(d) && CleanCost(Text(s)) == DecimalValue(d)
  {
  }

  /** The digits of a concatenation are read as the digits of the left part
      followed by those of the right part. */
  lemma CleanCostAppend(s: string, t: string)
    ensures CleanCost(Text(s + t)) == CleanCost(Text(s)) * Pow10(|Digits(t)|) + CleanCost(Text(t))
  {
    DigitsAppend(s, t);
    DecimalValueAppend(Digits(s), Digits(t));
    assert Digits(s) == [] ==> Digits(s) + Digits(t) == Digits(t);
    assert Digits(t) == [] ==> Digits(s) + Digits(t) == Digits(s);
  }

  /** Examples of the cost normalizer, among them a currency amount with a
      thousands separator. */
  lemma CleanCostExamples()
    ensures CleanCost(Text("$12,345")) == 12345
    ensures CleanCost(Text("")) == 0
    ensures CleanCost(Absent) == 0
    ensures CleanCost(Bool(true)) == 1
    ensures CleanCost(Int(-7)) == -7
  {
    var a, b := "$12,", "345";
    CurrencyExample(a, b);
    assert a + b == "$12,345";
  }

  lemma CurrencyExample(a: string, b: string)
    requires a == "$12," && b == "345"
    ensures CleanCost(Text(a + b)) == 12345
  {
    assert CleanCost(Text(a)) == 12 by {
      assert Decimal(12) == "12";
      CleanCostReadsSpelledNumber("$", 12, ",");
      assert "$" + Decimal(12) + "," == a;
    }
    assert CleanCost(Text(b)) == 345 && |Digits(b)| == 3 by {
      assert Decimal(345) == b;
      CleanCostReadsSpelledNumber([], 345, []);
      assert [] + Decimal(345) + [] == b;
      DigitsOfDigitString(b);
    }
    assert Pow10(3) == 1000 by {
      assert Pow10(1) == 10 && Pow10(2) == 100;
    }
    CleanCostAppend(a, b);
  }

  /** `sanity_check_hp`: a falsy candidate is rejected at once; otherwise the
      candidate is converted to an integer and kept only when it lies in
      15..100.  A failed conversion is a rejection, never an error. */
  function SanityCheckHp(val: Value): (r: Option<int>)
    ensures r.Some? ==> 15 <= r.value <= 100
    ensures !Truthy(val) ==> r == None
    ensures r.Some? <==> Truthy(val) && PyInt(val).Some? && 15 <= PyInt(val).value <= 100
    ensures r.Some? ==> r == PyInt(val)
  {
    if !Truthy(val) then None
    else
      match PyInt(val)
      case None => None
      case Some(ival) => if 15 <= ival <= 100 then Some(ival) else None
  }

  /** On integers the validator is exactly the range test. */
  lemma SanityCheckHpInt(i: int)
    ensures SanityCheckHp(Int(i)) == if 15 <= i <= 100 then Some(i) else None
  {
  }

  /** On the decimal spelling of a number the validator accepts exactly the
      numbers in 15..100. */
  lemma SanityCheckHpDecimal(n: nat)
    ensures SanityCheckHp(Text(Decimal(n))) == if 15 <= n <= 100 then Some(n) else None
  {
    DecimalRoundTrip(n);
  }

  /** A leading zero in front of a digit string does not change the verdict. */
  lemma SanityCheckHpLeadingZero(s: string)
    requires s != [] && AllDigits(s)
    ensures SanityCheckHp(Text(['0'] + s)) == SanityCheckHp(Text(s))
  {
    DecimalValueLeadingZero(s);
  }

  /** Text that is not purely digits (a unit, a sign, a blank) is rejected. */
  lemma SanityCheckHpRejectsNonDigitText(s: string, i: nat)
    requires i < |s| && !IsDigit(s[i])
    ensures SanityCheckHp(Text(s)) == None
  {
  }

  /** Examples of the validator on the boundaries and on non-numbers. */
  lemma SanityCheckHpExamples()
    ensures SanityCheckHp(Int(50)) == Some(50)
    ensures SanityCheckHp(Int(14)) == None
    ensures SanityCheckHp(Int(15)) == Some(15)
    ensures SanityCheckHp(Int(100)) == Some(100)
    ensures SanityCheckHp(Int(101)) == None
    ensures SanityCheckHp(Int(0)) == None
    ensures SanityCheckHp(Text("abc")) == None
    ensures SanityCheckHp(Text("75")) == Some(75)
    ensures SanityCheckHp(Absent) == None
    ensures SanityCheckHp(Bool(true)) == None
  {
    assert !IsDigit("abc"[0]);
    assert Decimal(75) == "75";
    SanityCheckHpDecimal(75);
  }
}
