/** Shared vocabulary of the booking site: optional values, Python truthiness
    for the optional strings the site reads from its environment and request,
    and the clock. */
module Base {

  /** An optional value, standing for a Python value that may be None. */
  datatype Option<T> = None | Some(value: T)

  /** Python truthiness of an optional string: present and non-empty. */
  predicate Truthy(s: Option<string>) {
    s.Some? && s.value != ""
  }

  /** Timestamps are whole seconds of a naive clock; these are the
      `timedelta` amounts the site uses. */
  const MINUTE: int := 60
  const HOUR: int := 60 * MINUTE
  const DAY: int := 24 * HOUR
  const WEEK: int := 7 * DAY

  /** The `hour` attribute of a naive datetime at second `t`: the hour of
      the day in which `t` falls. */
  function HourOf(t: int): (h: int)
    ensures 0 <= h < 24
    ensures h * HOUR <= t % DAY < (h + 1) * HOUR
  {
    var q := t / HOUR;
    assert t % DAY == (q % 24) * HOUR + t % HOUR by {
      assert t == q * HOUR + t % HOUR;
      assert q == (q / 24) * 24 + q % 24;
      assert t == (q / 24) * DAY + ((q % 24) * HOUR + t % HOUR);
    }
    q % 24
  }

  /** The timestamp of hour `h`, minute `m` on day number `d`. */
  function At(d: int, h: int, m: int): int {
    d * DAY + h * HOUR + m * MINUTE
  }

  lemma {:induction false} HourOfAt(d: int, h: int, m: int)
    requires 0 <= h < 24 && 0 <= m < 60
    ensures HourOf(At(d, h, m)) == h
  {
    var t := At(d, h, m);
    var r := h * HOUR + m * MINUTE;
    assert 0 <= r < DAY;
    assert t == d * DAY + r;
    assert t % DAY == r;
    assert h * HOUR <= r < (h + 1) * HOUR;
    var k := HourOf(t);
    assert k * HOUR <= r < (k + 1) * HOUR;
  }
}

/** Decimal rendering of booking ids (Python's `str(int)` inside the
    callback URLs) and the integer coercion the database applies to the
    `booking_id` query argument when it comes back. */
module Decimal {
  import opened Base

  predicate IsDigit(c: char) {
    '0' <= c <= '9'
  }

  predicate AllDigits(s: string) {
    forall i :: 0 <= i < |s| ==> IsDigit(s[i])
  }

  function DigitChar(d: nat): (c: char)
    requires d < 10
    ensures IsDigit(c)
  {
    (48 + d) as char
  }

  function DigitValue(c: char): (d: nat)
    requires IsDigit(c)
    ensures d < 10
  {
    c as int - 48
  }

  /** `str(n)` for a non-negative integer: its digits, most significant
      first, without leading zeros. */
  function DecimalString(n: nat): (s: string)
    ensures |s| >= 1 && AllDigits(s)
    ensures |s| > 1 ==> s[0] != '0'
    ensures n < 10 <==> |s| == 1
    decreases n
  {
    if n < 10 then [DigitChar(n)] else DecimalString(n / 10) + [DigitChar(n % 10)]
  }

  /** The value of a string of digits read most significant first. */
  function DigitsValue(s: string): nat
    requires AllDigits(s)
    decreases |s|
  {
    if s == [] then 0 else DigitsValue(s[..|s| - 1]) * 10 + DigitValue(s[|s| - 1])
  }

  /** The integer a query argument denotes when used as a booking key:
      a non-empty run of digits, leading zeros allowed; anything else
      denotes no key at all. */
  function ParseDecimal(s: string): (r: Option<nat>)
    ensures r.Some? <==> s != "" && AllDigits(s)
  {
    if s != "" && AllDigits(s) then Some(DigitsValue(s)) else None
  }

  /** A leading zero does not change the key a query argument denotes. */
  lemma {:induction false} LeadingZeroIgnored(s: string)
    requires s != "" && AllDigits(s)
    ensures ParseDecimal("0" + s) == ParseDecimal(s)
  {
    LeadingZeroValue(s);
  }

  lemma {:induction false} LeadingZeroValue(s: string)
    requires AllDigits(s)
    ensures AllDigits("0" + s) && DigitsValue("0" + s) == DigitsValue(s)
    decreases |s|
  {
    var z := "0" + s;
    assert AllDigits(z) by {
      forall i | 0 <= i < |z|
        ensures IsDigit(z[i])
      {
        if i > 0 { assert z[i] == s[i - 1]; }
      }
    }
    if s == [] {
      assert z[..|z| - 1] == [];
    } else {
      var init := s[..|s| - 1];
      assert z[..|z| - 1] == "0" + init;
      assert z[|z| - 1] == s[|s| - 1];
      LeadingZeroValue(init);
    }
  }

  /** Rendering an id and reading it back gives the id again. */
  lemma {:induction false} ParseDecimalString(n: nat)
    ensures ParseDecimal(DecimalString(n)) == Some(n)
    decreases n
  {
    var s := DecimalString(n);
    if n < 10 {
      assert s == [DigitChar(n)];
      assert s[..|s| - 1] == [];
      assert DigitsValue(s) == n;
    } else {
      var p := DecimalString(n / 10);
      ParseDecimalString(n / 10);
      assert s == p + [DigitChar(n % 10)];
      assert s[..|s| - 1] == p;
      assert DigitsValue(s) == DigitsValue(p) * 10 + n % 10;
    }
  }

  /** Distinct ids are rendered as distinct strings, so a callback URL
      names exactly one booking. */
  lemma DecimalStringInjective(m: nat, n: nat)
    requires DecimalString(m) == DecimalString(n)
    ensures m == n
  {
    ParseDecimalString(m);
    ParseDecimalString(n);
  }
}
