/**
 Python's `int(text)` on a string, in base 10, and `str(n)` for a natural
 number: the two conversions the relay applies to Content-Length headers.
 */
module PyInt {
  import opened Wrappers

  /** The ASCII characters Python's `int()` skips around its argument. */
  predicate IsSpace(c: char)
  {
    c == ' ' || c == '\t' || c == '\n' || c == '\r' || c == '\U{0B}' || c == '\U{0C}'
  }

  predicate IsDigit(c: char)
  {
    '0' <= c <= '9'
  }

  function DigitValue(c: char): (d: nat)
    requires IsDigit(c)
    ensures d < 10
  {
    (c as int) - ('0' as int)
  }

  function DigitChar(d: nat): (c: char)
    requires d < 10
    ensures IsDigit(c) && DigitValue(c) == d
  {
    (('0' as int) + d) as char
  }

  /** Drops leading white space. */
  function TrimStart(s: string): (r: string)
    ensures |r| <= |s| && r == s[|s| - |r|..]
    ensures |r| > 0 ==> !IsSpace(r[0])
    ensures forall i :: 0 <= i < |s| - |r| ==> IsSpace(s[i])
  {
    if |s| > 0 && IsSpace(s[0]) then TrimStart(s[1..]) else s
  }

  /** Drops trailing white space. */
  function TrimEnd(s: string): (r: string)
    ensures |r| <= |s| && r == s[..|r|]
    ensures |r| > 0 ==> !IsSpace(r[|r| - 1])
    ensures forall i :: |r| <= i < |s| ==> IsSpace(s[i])
  {
    if |s| > 0 && IsSpace(s[|s| - 1]) then TrimEnd(s[..|s| - 1]) else s
  }

  /** Python's `s.strip()` restricted to ASCII white space. */
  function Strip(s: string): (r: string)
  {
    TrimEnd(TrimStart(s))
  }

  /** Only digits and underscores. */
  predicate DigitsOrUnderscores(t: string)
  {
    forall i :: 0 <= i < |t| ==> IsDigit(t[i]) || t[i] == '_'
  }

  /**
   A Python decimal integer literal without sign: digits, where single
   underscores may separate two digits.
   */
  predicate IsDecimal(t: string)
  {
    && |t| > 0
    && IsDigit(t[0])
    && IsDigit(t[|t| - 1])
    && DigitsOrUnderscores(t)
    && forall i :: 0 < i < |t| && t[i] == '_' ==> t[i - 1] != '_'
  }

  /** The number the digits of `t` spell, underscores ignored. */
  function DecimalValue(t: string): nat
    requires DigitsOrUnderscores(t)
  {
    if |t| == 0 then 0
    else
      var init := DecimalValue(t[..|t| - 1]);
      if t[|t| - 1] == '_' then init else init * 10 + DigitValue(t[|t| - 1])
  }

  /** CPython's default bound on the digits `int()` converts from a string (3.11 on, and 3.7.14, 3.8.14, 3.9.14, 3.10.7). */
  const MaxStrDigits := 4300

  /** How many digits `t` holds, underscores not counted. */
  function DigitCount(t: string): (n: nat)
    ensures n <= |t|
  {
    if |t| == 0 then 0 else (if IsDigit(t[0]) then 1 else 0) + DigitCount(t[1..])
  }

  /** A decimal literal `int()` converts: well formed and within the digit bound. */
  function ParseDecimal(t: string): Result<nat>
  {
    if !IsDecimal(t) then Failure("invalid literal for int() with base 10")
    else if DigitCount(t) > MaxStrDigits then Failure("exceeds the limit (4300 digits) for integer string conversion")
    else Success(DecimalValue(t))
  }

  /**
   Python's `int(s)`: optional surrounding white space, an optional sign,
   then a decimal literal of at most 4300 digits; anything else raises
   ValueError.
   */
  function ParseInt(s: string): (r: Result<int>)
    ensures r.Success? ==> exists i :: 0 <= i < |s| && IsDigit(s[i])
    ensures r.Success? && r.value < 0 ==> exists i :: 0 <= i < |s| && s[i] == '-'
  {
    var t := Strip(s);
    var start := |s| - |TrimStart(s)|;
    assert forall j :: 0 <= j < |t| ==> t[j] == s[start + j];
    if |t| > 0 && (t[0] == '+' || t[0] == '-') then
      match ParseDecimal(t[1..])
      case Failure(e) => Failure(e)
      case Success(v) =>
        assert IsDigit(s[start + 1]);
        Success(if t[0] == '-' then -(v as int) else v)
    else
      match ParseDecimal(t)
      case Failure(e) => Failure(e)
      case Success(v) =>
        assert IsDigit(s[start]);
        Success(v)
  }

  /** Python's `str(n)` for a natural number: decimal digits, no leading zero. */
  function NatToString(n: nat): (r: string)
    ensures |r| > 0
    ensures forall i :: 0 <= i < |r| ==> IsDigit(r[i])
    ensures r[0] == '0' ==> n == 0
  {
    if n < 10 then [DigitChar(n)] else NatToString(n / 10) + [DigitChar(n % 10)]
  }

  /** The digits `str(n)` writes spell `n`. */
  lemma {:induction false} DecimalValueOfNatToString(n: nat)
    ensures DecimalValue(NatToString(n)) == n
  {
    var t := NatToString(n);
    if n >= 10 {
      DecimalValueOfNatToString(n / 10);
      assert t[..|t| - 1] == NatToString(n / 10);
    } else {
      assert t[..0] == "";
    }
  }

  /** A string with no white space at either end is its own strip. */
  lemma StripUnpadded(s: string)
    requires |s| > 0 && !IsSpace(s[0]) && !IsSpace(s[|s| - 1])
    ensures Strip(s) == s
  {
  }

  /** A string of digits only counts each of its characters. */
  lemma {:induction false} DigitCountOfDigits(t: string)
    requires forall i :: 0 <= i < |t| ==> IsDigit(t[i])
    ensures DigitCount(t) == |t|
  {
    if |t| > 0 {
      DigitCountOfDigits(t[1..]);
    }
  }

  /**
   `int(str(n)) == n` whenever `str(n)` has at most 4300 digits; beyond
   that `int()` raises.
   */
  lemma {:induction false} ParseIntOfNatToString(n: nat)
    ensures |NatToString(n)| <= MaxStrDigits ==> ParseInt(NatToString(n)) == Success(n)
    ensures |NatToString(n)| > MaxStrDigits ==> ParseInt(NatToString(n)).Failure?
  {
    var t := NatToString(n);
    StripUnpadded(t);
    DecimalValueOfNatToString(n);
    DigitCountOfDigits(t);
    assert IsDecimal(t);
  }

  /**
   `int("-" + str(n)) == -n` whenever `str(n)` has at most 4300 digits;
   beyond that `int()` raises.
   */
  lemma {:induction false} ParseIntOfNegated(n: nat)
    ensures |NatToString(n)| <= MaxStrDigits ==> ParseInt("-" + NatToString(n)) == Success(-(n as int))
    ensures |NatToString(n)| > MaxStrDigits ==> ParseInt("-" + NatToString(n)).Failure?
  {
    var t := "-" + NatToString(n);
    StripUnpadded(t);
    DecimalValueOfNatToString(n);
    DigitCountOfDigits(NatToString(n));
    assert t[1..] == NatToString(n);
    assert IsDecimal(t[1..]);
  }

  /** A text with no digit at all is never an integer literal. */
  lemma NoDigitNoInt(s: string)
    requires forall i :: 0 <= i < |s| ==> !IsDigit(s[i])
    ensures ParseInt(s).Failure?
  {
  }
}
