/**
 * Decimal text for System.Int32: Int32.ToString() (invariant digits, '-' for negatives)
 * and Int32.Parse / Int32.TryParse under NumberStyles.Integer (optional leading and
 * trailing white space, one optional sign, decimal digits, trailing NUL characters tolerated).
 */
module Int32Text {
  import opened Wrappers
  import opened Numeric

  predicate IsDigit(c: char) { '0' <= c <= '9' }

  function DigitChar(d: nat): (c: char)
    requires d < 10
    ensures IsDigit(c) && c as int - '0' as int == d
  {
    ('0' as int + d) as char
  }

  predicate AllDigits(s: string)
  {
    forall i :: 0 <= i < |s| ==> IsDigit(s[i])
  }

  /** The shortest decimal spelling of n: no sign, no leading zero. */
  function NatDigits(n: nat): (r: string)
    ensures |r| >= 1 && AllDigits(r)
    ensures r[0] != '0' || n == 0
    decreases n
  {
    if n < 10 then [DigitChar(n)] else NatDigits(n / 10) + [DigitChar(n % 10)]
  }

  /** Int32.ToString(). */
  function FormatInt(n: int): (r: string)
    ensures |r| >= 1 && (IsDigit(r[0]) || r[0] == '-')
    ensures forall i :: 1 <= i < |r| ==> IsDigit(r[i])
  {
    if n < 0 then "-" + NatDigits(-n) else NatDigits(n)
  }

  /** The value of a string of decimal digits, most significant first. */
  function DigitsValue(ds: string): nat
    requires AllDigits(ds)
  {
    if ds == [] then 0 else DigitsValue(ds[..|ds| - 1]) * 10 + (ds[|ds| - 1] as int - '0' as int)
  }

  lemma {:induction false} DigitsValueOfNatDigits(n: nat)
    ensures DigitsValue(NatDigits(n)) == n
    decreases n
  {
    if n >= 10 {
      var ds := NatDigits(n);
      assert ds[..|ds| - 1] == NatDigits(n / 10);
      DigitsValueOfNatDigits(n / 10);
    }
  }

  /** A leading zero does not change the value of a digit string. */
  lemma {:induction false} DigitsValueLeadingZero(ds: string)
    requires AllDigits(ds)
    ensures AllDigits("0" + ds) && DigitsValue("0" + ds) == DigitsValue(ds)
    decreases |ds|
  {
    if ds != [] {
      var zs := "0" + ds;
      assert zs[..|zs| - 1] == "0" + ds[..|ds| - 1];
      DigitsValueLeadingZero(ds[..|ds| - 1]);
    }
  }

  /** The white space NumberStyles.AllowLeadingWhite / AllowTrailingWhite accept: U+0009-U+000D and U+0020. */
  predicate IsParseWhite(c: char)
  {
    c == ' ' || ('\t' <= c <= '\r')
  }

  function SkipParseWhite(s: string): (r: string)
    ensures |r| <= |s| && r == s[|s| - |r|..]
    ensures r == [] || !IsParseWhite(r[0])
  {
    if s != [] && IsParseWhite(s[0]) then SkipParseWhite(s[1..]) else s
  }

  /** The number of leading decimal digits. */
  function DigitPrefixLength(s: string): (k: nat)
    ensures k <= |s| && AllDigits(s[..k])
    ensures k == |s| || !IsDigit(s[k])
  {
    if s != [] && IsDigit(s[0]) then
      var k := 1 + DigitPrefixLength(s[1..]);
      assert s[..k] == [s[0]] + s[1..][..k - 1];
      k
    else 0
  }

  predicate AllNul(s: string)
  {
    forall i :: 0 <= i < |s| ==> s[i] == '\0'
  }

  /** The magnitude part: digits, then optional trailing white space and NUL characters. */
  function ParseMagnitude(u: string): Option<nat>
  {
    var k := DigitPrefixLength(u);
    if k == 0 || !AllNul(SkipParseWhite(u[k..])) then None
    else Some(DigitsValue(u[..k]))
  }

  /** A value with the sign applied, if it fits an Int32. */
  function Signed(negative: bool, v: nat): Option<int32>
  {
    var x: int := if negative then 0 - (v as int) else v as int;
    if Int32Min <= x <= Int32Max then Some(x) else None
  }

  /** Int32.TryParse(string) on a non-null string: the parsed value, or None where Parse would throw. */
  function ParseInt32(s: string): Option<int32>
  {
    var t := SkipParseWhite(s);
    if t == [] then None
    else if t[0] == '-' || t[0] == '+' then
      var m := ParseMagnitude(t[1..]);
      if m.None? then None else Signed(t[0] == '-', m.value)
    else
      var m := ParseMagnitude(t);
      if m.None? then None else Signed(false, m.value)
  }

  /** Int32.TryParse(string?): a null string never parses. */
  function TryParseInt32(s: Option<string>): (r: Option<int32>)
    ensures s.None? ==> r.None?
  {
    match s
    case None => None
    case Some(t) => ParseInt32(t)
  }

  /** Parsing what ToString printed gives back the number. */
  lemma FormatParseRoundTrip(n: int32)
    ensures ParseInt32(FormatInt(n)) == Some(n)
  {
    if n < 0 {
      NegativeRoundTrip(n);
    } else {
      var ds := NatDigits(n as int);
      DigitsValueOfNatDigits(n as int);
      assert FormatInt(n) == ds;
      ParseDigits(ds);
    }
  }

  /** Digits without a sign read as their value, if that fits. */
  lemma ParseDigits(ds: string)
    requires |ds| >= 1 && AllDigits(ds)
    ensures ParseInt32(ds) == Signed(false, DigitsValue(ds))
  {
    assert IsDigit(ds[0]);
    assert SkipParseWhite(ds) == ds;
    MagnitudeOfDigits(ds);
  }

  lemma NegativeRoundTrip(n: int32)
    requires n < 0
    ensures ParseInt32(FormatInt(n)) == Some(n)
  {
    var m: nat := -(n as int);
    var ds := NatDigits(m);
    assert FormatInt(n) == "-" + ds;
    ParseNegative(ds);
    DigitsValueOfNatDigits(m);
    assert Signed(true, m) == Some(n);
  }

  /** A minus sign followed by digits reads as the negated digits, if that fits. */
  lemma ParseNegative(ds: string)
    requires |ds| >= 1 && AllDigits(ds)
    ensures ParseInt32("-" + ds) == Signed(true, DigitsValue(ds))
  {
    var s := "-" + ds;
    assert SkipParseWhite(s) == s;
    assert s[1..] == ds;
    MagnitudeOfDigits(ds);
  }

  /** A whole digit string is read as its value. */
  lemma MagnitudeOfDigits(ds: string)
    requires |ds| >= 1 && AllDigits(ds)
    ensures ParseMagnitude(ds) == Some(DigitsValue(ds))
  {
    assert DigitPrefixLength(ds) == |ds|;
    assert ds[..|ds|] == ds;
    assert SkipParseWhite(ds[|ds|..]) == [];
  }

  /** ToString is injective on Int32. */
  lemma FormatIntInjective(a: int32, b: int32)
    requires FormatInt(a) == FormatInt(b)
    ensures a == b
  {
    FormatParseRoundTrip(a);
    FormatParseRoundTrip(b);
  }

  /** Parsing is not the inverse of printing: a leading zero is accepted, so "042" parses as 42,
      yet ToString never prints a leading zero. */
  lemma LeadingZeroParses(n: int32)
    requires n >= 0
    ensures ParseInt32("0" + FormatInt(n)) == Some(n)
    ensures "0" + FormatInt(n) != FormatInt(n)
  {
    var ds := NatDigits(n);
    assert FormatInt(n) == ds;
    DigitsValueOfNatDigits(n);
    DigitsValueLeadingZero(ds);
    var s := "0" + ds;
    ParseDigits(s);
    assert |s| != |ds|;
  }
}
