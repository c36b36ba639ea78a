/**
 * Java's `int` range, `Integer.parseInt` (base 10) and, as its inverse,
 * `Integer.toString`. The probe reads every numeric setting through
 * `Integer.parseInt`; a value it rejects throws `NumberFormatException`,
 * which is `None` here.
 */
module JavaInt {
  import opened Wrappers

  const MinInt: int := -0x8000_0000
  const MaxInt: int := 0x7fff_ffff

  /** Java's 32-bit `int`. */
  type Int32 = x: int | MinInt <= x <= MaxInt

  predicate IsDigit(c: char) {
    '0' <= c <= '9'
  }

  predicate AllDigits(s: string) {
    forall i | 0 <= i < |s| :: IsDigit(s[i])
  }

  function DigitValue(c: char): (d: nat)
    requires IsDigit(c)
    ensures d < 10
  {
    (c as int) - ('0' as int)
  }

  function DigitChar(d: nat): (c: char)
    requires d < 10
    ensures IsDigit(c) && DigitValue(c) == d
  {
    (('0' as int) + d) as char
  }

  /** The value of a run of decimal digits, most significant digit first. */
  function DigitsValue(s: string): nat
    requires AllDigits(s)
  {
    if s == [] then 0 else 10 * DigitsValue(s[..|s| - 1]) + DigitValue(s[|s| - 1])
  }

  /**
   * `Integer.parseInt(s)`: an optional '-' or '+', then at least one ASCII digit,
   * and a value inside the `int` range. A null argument (`None`), an empty string,
   * a lone sign, any other character or an out-of-range value is rejected.
   */
  function ParseInt(s: Option<string>): (r: Option<Int32>)
    ensures r.Some? ==> s.Some? && s.value != [] && IsDigit(s.value[|s.value| - 1])
    ensures r.Some? && AllDigits(s.value) ==> r.value == DigitsValue(s.value)
    ensures r.Some? && s.value[0] == '-' ==> AllDigits(s.value[1..]) && r.value == 0 - DigitsValue(s.value[1..]) as int
    ensures r.Some? && s.value[0] == '+' ==> AllDigits(s.value[1..]) && r.value == DigitsValue(s.value[1..])
    ensures r.Some? ==>
      || AllDigits(s.value)
      || ((s.value[0] == '-' || s.value[0] == '+') && |s.value| > 1 && AllDigits(s.value[1..]))
    ensures s.Some? && s.value != [] && AllDigits(s.value) ==>
      r == if DigitsValue(s.value) <= MaxInt then Some(DigitsValue(s.value)) else None
    ensures s.Some? && |s.value| > 1 && s.value[0] == '+' && AllDigits(s.value[1..]) ==>
      r == if DigitsValue(s.value[1..]) <= MaxInt then Some(DigitsValue(s.value[1..])) else None
    ensures s.Some? && |s.value| > 1 && s.value[0] == '-' && AllDigits(s.value[1..]) ==>
      r == if DigitsValue(s.value[1..]) <= -MinInt then Some(0 - DigitsValue(s.value[1..]) as int) else None
  {
    match s
    case None => None
    case Some(t) =>
      if t == [] then None
      else
        var digits := if t[0] == '-' || t[0] == '+' then t[1..] else t;
        if digits == [] || !AllDigits(digits) then None
        else
          var v: int := if t[0] == '-' then 0 - DigitsValue(digits) as int else DigitsValue(digits);
          if MinInt <= v <= MaxInt then Some(v) else None
  }

  /** Decimal digits of `n` without leading zeros (`Integer.toString` of a non-negative value). */
  function ShowNat(n: nat): (s: string)
    ensures s != [] && AllDigits(s)
    ensures |s| > 1 ==> s[0] != '0'
  {
    if n < 10 then [DigitChar(n)] else ShowNat(n / 10) + [DigitChar(n % 10)]
  }

  /** `Integer.toString(n)`. */
  function ShowInt(n: int): (s: string)
    ensures s != []
  {
    if n < 0 then "-" + ShowNat(-n) else ShowNat(n)
  }

  lemma {:induction false} DigitsValueOfShowNat(n: nat)
    ensures DigitsValue(ShowNat(n)) == n
  {
    if n >= 10 {
      var s := ShowNat(n);
      assert s[..|s| - 1] == ShowNat(n / 10);
      DigitsValueOfShowNat(n / 10);
    }
  }

  /** Every `int` written by `Integer.toString` is read back by `Integer.parseInt`. */
  lemma ParseShowRoundTrip(n: Int32)
    ensures ParseInt(Some(ShowInt(n))) == Some(n)
  {
    var m: int := n;
    var t := ShowInt(m);
    if m < 0 {
      assert t[1..] == ShowNat(-m);
      DigitsValueOfShowNat(-m);
    } else {
      DigitsValueOfShowNat(m);
    }
  }

  /** `Integer.parseInt` rejects the empty string, a sign with no digits and a stray character. */
  lemma ParseIntRejectsEmpty()
    ensures ParseInt(None) == None
    ensures ParseInt(Some("")) == None
    ensures ParseInt(Some("-")) == None && ParseInt(Some("+")) == None
    ensures ParseInt(Some("1x2")) == None && ParseInt(Some(" 5")) == None && ParseInt(Some("--5")) == None
  {
    assert !IsDigit("1x2"[1]) && !IsDigit(" 5"[0]);
    assert "--5"[1..] == "-5" && !IsDigit("-5"[0]);
  }
}
