/** The default experiment label "exp_<n>", with n written in decimal
    as Python's string formatting writes a non-negative integer. */
module ExpLabels {

  predicate IsDigit(c: char)
  {
    '0' <= c <= '9'
  }

  function DigitChar(d: nat): (c: char)
    requires d < 10
    ensures IsDigit(c)
  {
    ('0' as int + d) as char
  }

  /** Decimal digits of n, most significant first, with no leading zero. */
  function NatToString(n: nat): (s: string)
    ensures |s| > 0
    ensures forall i :: 0 <= i < |s| ==> IsDigit(s[i])
    ensures s[0] == '0' ==> n == 0 && |s| == 1
    decreases n
  {
    if n < 10 then [DigitChar(n)] else NatToString(n / 10) + [DigitChar(n % 10)]
  }

  /** The number a string of decimal digits denotes. */
  function DigitsValue(s: string): (v: nat)
    requires forall i :: 0 <= i < |s| ==> IsDigit(s[i])
    decreases |s|
  {
    if s == [] then 0
    else
      assert IsDigit(s[|s| - 1]);
      DigitsValue(s[..|s| - 1]) * 10 + (s[|s| - 1] as int - '0' as int)
  }

  /** Reading the digits back gives the number. */
  lemma {:induction false} DigitsRoundTrip(n: nat)
    ensures DigitsValue(NatToString(n)) == n
    decreases n
  {
    if n >= 10 {
      var s := NatToString(n);
      assert s[..|s| - 1] == NatToString(n / 10);
      DigitsRoundTrip(n / 10);
    }
  }

  function ExpLabel(n: nat): (s: string)
    ensures |s| > 4 && s[..4] == "exp_"
  {
    "exp_" + NatToString(n)
  }

  /** Different record counts give different default labels. */
  lemma ExpLabelInjective(m: nat, n: nat)
    requires ExpLabel(m) == ExpLabel(n)
    ensures m == n
  {
    assert ExpLabel(m)[4..] == NatToString(m);
    assert ExpLabel(n)[4..] == NatToString(n);
    DigitsRoundTrip(m);
    DigitsRoundTrip(n);
  }
}
