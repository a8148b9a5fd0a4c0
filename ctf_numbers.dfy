/** The three library conversions the parser applies to the text of a token:
    std::stoll and std::stod for the value, std::stoull for a sparse index and
    for a sequence id.  Each reads the longest numeric prefix of its argument
    and throws when that prefix is empty or out of range; a throw is `None`.
    The texts handed to them only ever hold digits, signs and decimal points. */
module CtfNumbers {
  import opened CtfChars
  import opened CtfTypes

  datatype Option<T> = None | Some(value: T)

  const LLONG_MIN: int := -0x8000_0000_0000_0000
  const LLONG_MAX: int := 0x7FFF_FFFF_FFFF_FFFF

  predicate AllDigits(s: string) { forall i :: 0 <= i < |s| ==> IsDigit(s[i]) }

  /** Number of consecutive digits of `s` starting at `i`. */
  function DigitRun(s: string, i: nat): (k: nat)
    requires i <= |s|
    ensures i + k <= |s|
    ensures forall m :: i <= m < i + k ==> IsDigit(s[m])
    ensures i + k == |s| || !IsDigit(s[i + k])
    decreases |s| - i
  {
    if i < |s| && IsDigit(s[i]) then 1 + DigitRun(s, i + 1) else 0
  }

  /** A stretch of digits, cut out, is a digit string. */
  lemma DigitsSlice(s: string, a: nat, b: nat)
    requires a <= b <= |s|
    requires forall m :: a <= m < b ==> IsDigit(s[m])
    ensures AllDigits(s[a..b])
  {
    forall m | 0 <= m < b - a ensures IsDigit(s[a..b][m]) { assert s[a..b][m] == s[a + m]; }
  }

  function DigitValue(c: char): (d: nat)
    requires IsDigit(c)
    ensures d < 10
  {
    (c as int - '0' as int) as nat
  }

  /** The value of a string of decimal digits, most significant first. */
  function NatOf(s: string): nat
    requires AllDigits(s)
  {
    if s == [] then 0 else 10 * NatOf(s[..|s| - 1]) + DigitValue(s[|s| - 1])
  }

  /** The value of the digits after a decimal point, most significant first. */
  function Fraction(s: string): (f: real)
    requires AllDigits(s)
    ensures 0.0 <= f < 1.0
  {
    if s == [] then 0.0 else (DigitValue(s[0]) as real + Fraction(s[1..])) / 10.0
  }

  /** Decimal rendering of a natural number, without leading zeros ("0" for zero). */
  function DecimalDigits(n: nat): (s: string)
    ensures |s| >= 1 && AllDigits(s)
    ensures |s| > 1 ==> s[0] != '0'
  {
    if n < 10 then [('0' as int + n) as char]
    else DecimalDigits(n / 10) + [('0' as int + n % 10) as char]
  }

  /** Reading back a rendered number gives the number. */
  lemma {:induction false} NatOfDecimalDigits(n: nat)
    ensures NatOf(DecimalDigits(n)) == n
  {
    var s := DecimalDigits(n);
    if n >= 10 {
      NatOfDecimalDigits(n / 10);
      assert s[..|s| - 1] == DecimalDigits(n / 10);
    }
  }

  /** Length of an optional leading sign. */
  function SignLength(s: string): (k: nat)
    ensures k <= 1 && k <= |s|
  {
    if |s| > 0 && IsSign(s[0]) then 1 else 0
  }

  predicate Negative(s: string) { |s| > 0 && s[0] == '-' }

  /** The magnitude an integer conversion reads: after an optional sign, the value of the
      longest run of digits; None when that run is empty. */
  function Magnitude(s: string): Option<nat>
  {
    var start := SignLength(s);
    var k := DigitRun(s, start);
    if k == 0 then None
    else
      DigitsSlice(s, start, start + k);
      Some(NatOf(s[start..start + k]))
  }

  /** std::stoll: optional sign, then at least one digit; out of the 64-bit signed range throws. */
  function Stoll(s: string): (r: Option<int>)
    ensures r.Some? ==> LLONG_MIN <= r.value <= LLONG_MAX
    ensures r.Some? && r.value < 0 ==> Negative(s)
  {
    match Magnitude(s)
    case None => None
    case Some(m) =>
      var v: int := if Negative(s) then -(m as int) else m;
      if v < LLONG_MIN || v > LLONG_MAX then None else Some(v)
  }

  /** std::stod on texts without exponent: optional sign, digits, optional point and digits,
      with at least one digit; the result is kept as the exact decimal it denotes. */
  function Stod(s: string): (r: Option<real>)
    ensures r.Some? && r.value < 0.0 ==> Negative(s)
    ensures r.None? ==> Magnitude(s).None?
  {
    var start := SignLength(s);
    var d1 := DigitRun(s, start);
    var after := start + d1;
    var d2 := if after < |s| && IsDecimalPoint(s[after]) then DigitRun(s, after + 1) else 0;
    if d1 + d2 == 0 then None
    else
      DigitsSlice(s, start, after);
      var whole := NatOf(s[start..after]) as real;
      var m := whole + (if d2 == 0 then 0.0 else DigitsSlice(s, after + 1, after + 1 + d2); Fraction(s[after + 1..after + 1 + d2]));
      Some(if Negative(s) then -m else m)
  }

  /** std::stoull: optional sign, then at least one digit; a magnitude above SIZE_MAX
      throws, and a negative one wraps modulo 2^64. */
  function Stoull(s: string): (r: Option<nat>)
    ensures r.Some? ==> r.value <= SIZE_MAX
  {
    match Magnitude(s)
    case None => None
    case Some(m) =>
      if m > SIZE_MAX then None
      else if Negative(s) then Some((SIZE_MAX + 1 - m) % (SIZE_MAX + 1))
      else Some(m)
  }

  /** A plain digit string within range converts to its own value, under all three conversions. */
  lemma DigitStringsConvert(s: string)
    requires |s| > 0 && AllDigits(s)
    ensures NatOf(s) <= SIZE_MAX ==> Stoull(s) == Some(NatOf(s))
    ensures NatOf(s) <= LLONG_MAX ==> Stoll(s) == Some(NatOf(s))
    ensures Stod(s) == Some(NatOf(s) as real)
  {
    DigitRunOfDigits(s, 0);
    assert SignLength(s) == 0 && !Negative(s);
    assert s[0..|s|] == s;
    assert Magnitude(s) == Some(NatOf(s));
    StodOfDigits(s);
  }

  lemma StodOfDigits(s: string)
    requires |s| > 0 && AllDigits(s) && DigitRun(s, 0) == |s|
    requires SignLength(s) == 0 && !Negative(s) && s[0..|s|] == s
    ensures Stod(s) == Some(NatOf(s) as real)
  {
    assert !(|s| < |s|);
  }

  lemma {:induction false} DigitRunOfDigits(s: string, i: nat)
    requires i <= |s| && AllDigits(s)
    ensures DigitRun(s, i) == |s| - i
    decreases |s| - i
  {
    if i < |s| { DigitRunOfDigits(s, i + 1); }
  }

  /** Rendering an index and reading it back with std::stoull gives the index. */
  lemma IndexRoundTrip(n: nat)
    requires n <= SIZE_MAX
    ensures Stoull(DecimalDigits(n)) == Some(n)
  {
    NatOfDecimalDigits(n);
    DigitStringsConvert(DecimalDigits(n));
  }

  /** Texts without any digit where one is needed make the conversions throw:
      an empty value (as in `5:`), a lone sign, a lone decimal point. */
  lemma EmptyOrBareTextsThrow()
    ensures Stoll("") == None && Stod("") == None && Stoull("") == None
    ensures Stoll("+") == None && Stoll("-") == None && Stod("-") == None
    ensures Stod(".") == None && Stod("+.") == None && Stoull(".5") == None
  {
    assert DigitRun("+", 1) == 0;
    assert DigitRun("-", 1) == 0;
    assert DigitRun(".", 0) == 0 && DigitRun(".", 1) == 0;
    assert DigitRun("+.", 1) == 0 && DigitRun("+.", 2) == 0;
    assert DigitRun(".5", 0) == 0;
  }

  /** A negative index wraps around: "-1" reads as SIZE_MAX, the dense marker. */
  lemma NegativeIndexWraps()
    ensures Stoull("-1") == Some(SIZE_MAX)
  {
    assert SignLength("-1") == 1 && Negative("-1");
    assert DigitRun("-1", 2) == 0;
    assert DigitRun("-1", 1) == 1;
    assert "-1"[1..2] == "1";
    assert NatOf("1") == 1 by { assert "1"[..0] == ""; }
    assert Magnitude("-1") == Some(1);
  }
}
