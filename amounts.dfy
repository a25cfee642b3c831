/** Numbers read from statement text. Python turns amount and balance tokens
    into floats with float(token.replace(',', '')) and the day of a date token
    into an int with int(); here amounts are whole cents and days natural
    numbers. */
module Amounts {
  import opened Wrappers
  import opened Text

  function DigitValue(c: char): nat
    requires IsDigit(c)
  {
    c as int - '0' as int
  }

  function DigitChar(d: nat): (c: char)
    requires d < 10
    ensures IsDigit(c) && DigitValue(c) == d
  {
    ('0' as int + d) as char
  }

  /** The value of a string of decimal digits, most significant first. */
  function DigitsValue(ds: string): nat
    requires AllDigits(ds)
    decreases |ds|
  {
    if ds == [] then 0 else 10 * DigitsValue(ds[..|ds| - 1]) + DigitValue(ds[|ds| - 1])
  }

  /** The decimal numeral of n, without leading zeros. */
  function NatToDigits(n: nat): (ds: string)
    ensures ds != [] && AllDigits(ds)
  {
    if n < 10 then [DigitChar(n)] else NatToDigits(n / 10) + [DigitChar(n % 10)]
  }

  lemma {:induction false} NatToDigitsRoundTrip(n: nat)
    ensures DigitsValue(NatToDigits(n)) == n
  {
    if n >= 10 {
      var ds := NatToDigits(n);
      assert ds[..|ds| - 1] == NatToDigits(n / 10);
      NatToDigitsRoundTrip(n / 10);
    }
  }

  /** int(t) for the rest of a date token: the source accepts a string of
      digits and raises on anything else, the empty string included. */
  function ParseDay(t: string): (r: Option<nat>)
    ensures r.Some? <==> t != [] && AllDigits(t)
  {
    if t != [] && AllDigits(t) then Some(DigitsValue(t)) else None
  }

  /** int() reads back the day printed as a decimal numeral. */
  lemma ParseDayRoundTrip(n: nat)
    ensures ParseDay(NatToDigits(n)) == Some(n)
  {
    NatToDigitsRoundTrip(n);
  }

  /** int() ignores leading zeros: "09" is the day 9. */
  lemma {:induction false} ParseDayLeadingZero(t: string)
    requires ParseDay(t).Some?
    ensures ParseDay("0" + t) == ParseDay(t)
    decreases |t|
  {
    var z := "0" + t;
    assert AllDigits(z) by {
      assert forall k | 1 <= k < |z| :: z[k] == t[k - 1];
    }
    assert z[..|z| - 1] == "0" + t[..|t| - 1];
    assert z[|z| - 1] == t[|t| - 1];
    if |t| == 1 {
      assert z[..|z| - 1] == "0";
      assert DigitsValue("0") == 10 * DigitsValue([]) + DigitValue('0');
    } else {
      ParseDayLeadingZero(t[..|t| - 1]);
    }
  }

  /** The cents a fractional part of at most two digits stands for. */
  function FractionCents(frac: string): nat
    requires AllDigits(frac) && |frac| <= 2
  {
    if |frac| == 0 then 0
    else if |frac| == 1 then 10 * DigitValue(frac[0])
    else 10 * DigitValue(frac[0]) + DigitValue(frac[1])
  }

  /** The unsigned part of a numeral: digits, optionally a point and at most
      two more digits, with at least one digit somewhere. */
  function ParseUnsigned(body: string): Option<nat> {
    var i := SkipDigits(body, 0);
    var whole := body[..i];
    if i == |body| then
      if whole == [] then None else Some(100 * DigitsValue(whole))
    else if body[i] != '.' then None
    else
      var frac := body[i + 1..];
      if !AllDigits(frac) || |frac| > 2 || (whole == [] && frac == []) then None
      else Some(100 * DigitsValue(whole) + FractionCents(frac))
  }

  /** A numeral with an optional leading sign, in cents. */
  function ParseSigned(t: string): Option<int> {
    if |t| > 0 && (t[0] == '-' || t[0] == '+') then
      match ParseUnsigned(t[1..])
      case None => None
      case Some(v) => Some(if t[0] == '-' then 0 - v as int else v as int)
    else
      match ParseUnsigned(t)
      case None => None
      case Some(v) => Some(v)
  }

  /** float(token.replace(',', '')) in cents: commas anywhere are ignored,
      then an optional sign and an unsigned numeral. Every other token is a
      parse failure, where the source raises ValueError. */
  function ParseAmount(token: string): Option<int> {
    ParseSigned(Without(token, ','))
  }

  /** The canonical statement rendering of an amount in cents: an optional
      minus sign, the whole part, a point and exactly two decimals. */
  function FormatAmount(cents: int): string {
    var m: nat := if cents < 0 then -cents else cents;
    var r := m % 100;
    (if cents < 0 then "-" else "") + NatToDigits(m / 100) + "." + [DigitChar(r / 10), DigitChar(r % 10)]
  }

  lemma {:induction false} SkipDigitsUpTo(s: string, i: nat, n: nat)
    requires i <= n < |s|
    requires forall k | i <= k < n :: IsDigit(s[k])
    requires !IsDigit(s[n])
    ensures SkipDigits(s, i) == n
    decreases n - i
  {
    if i < n {
      SkipDigitsUpTo(s, i + 1, n);
    }
  }

  lemma ParseUnsignedFormatted(w: nat, d1: nat, d2: nat)
    requires d1 < 10 && d2 < 10
    ensures ParseUnsigned(NatToDigits(w) + "." + [DigitChar(d1), DigitChar(d2)]) == Some(100 * w + 10 * d1 + d2)
  {
    var ds := NatToDigits(w);
    var frac := [DigitChar(d1), DigitChar(d2)];
    var body := ds + "." + frac;
    assert body[|ds|] == '.';
    assert forall k | 0 <= k < |ds| :: body[k] == ds[k];
    SkipDigitsUpTo(body, 0, |ds|);
    assert body[..|ds|] == ds;
    assert body[|ds| + 1..] == frac;
    assert FractionCents(frac) == 10 * d1 + d2;
    NatToDigitsRoundTrip(w);
  }

  lemma CentsDecompose(m: nat)
    ensures 100 * (m / 100) + 10 * (m % 100 / 10) + m % 100 % 10 == m
  {
    var r := m % 100;
    assert m == 100 * (m / 100) + r;
    assert r == 10 * (r / 10) + r % 10;
  }

  lemma {:induction false} FormattedMagnitude(m: nat)
    ensures var u := FormatAmount(m);
      ',' !in u && u != [] && IsDigit(u[0]) && ParseUnsigned(u) == Some(m)
  {
    var r := m % 100;
    var ds := NatToDigits(m / 100);
    var u := ds + "." + [DigitChar(r / 10), DigitChar(r % 10)];
    assert FormatAmount(m) == u;
    assert u[0] == ds[0];
    assert forall k | 0 <= k < |u| :: u[k] != ',' by {
      assert forall k | 0 <= k < |ds| :: u[k] == ds[k] && IsDigit(ds[k]);
    }
    ParseUnsignedFormatted(m / 100, r / 10, r % 10);
    CentsDecompose(m);
  }

  lemma {:induction false} FormattedNegative(cents: int)
    requires cents < 0
    ensures FormatAmount(cents) == "-" + FormatAmount(-cents)
  {
  }

  lemma ParseSignedUnsigned(u: string, v: nat)
    requires u != [] && IsDigit(u[0]) && ParseUnsigned(u) == Some(v)
    ensures ParseSigned(u) == Some(v)
  {
  }

  lemma ParseSignedNegative(u: string, v: nat)
    requires ParseUnsigned(u) == Some(v)
    ensures ParseSigned("-" + u) == Some(-(v as int))
  {
    assert ("-" + u)[0] == '-' && ("-" + u)[1..] == u;
  }

  /** Reading back a formatted amount gives the amount. */
  lemma {:induction false} FormatAmountRoundTrip(cents: int)
    ensures ParseAmount(FormatAmount(cents)) == Some(cents)
  {
    var s := FormatAmount(cents);
    if cents < 0 {
      var u := FormatAmount(-cents);
      FormattedMagnitude(-cents);
      FormattedNegative(cents);
      ParseSignedNegative(u, -cents);
      assert s == "-" + u && ',' !in "-";
      WithoutAbsent(s, ',');
    } else {
      FormattedMagnitude(cents);
      ParseSignedUnsigned(s, cents);
      WithoutAbsent(s, ',');
    }
  }

  /** Thousands separators do not change the amount. */
  lemma {:induction false} ParseAmountIgnoresCommas(a: string, b: string)
    ensures ParseAmount(a + "," + b) == ParseAmount(a + b)
  {
    WithoutOneOccurrence(a, ',', b);
  }
}
