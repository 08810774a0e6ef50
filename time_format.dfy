/** Display of a holding period as "<days>d HH:MM:SS": a whole number of
    seconds is split into days (floored, so negative periods get negative
    days), hours, minutes and seconds, and the last three are zero-padded to
    two digits. */
module TimeFormat {

  datatype Span = Span(days: int, hours: nat, minutes: nat, seconds: nat)

  function Decompose(total: int): (sp: Span)
    ensures sp.hours < 24 && sp.minutes < 60 && sp.seconds < 60
    ensures 86400 * sp.days + 3600 * sp.hours + 60 * sp.minutes + sp.seconds == total
  {
    var days := total / 86400;
    var rem := total % 86400;
    Span(days, rem / 3600, (rem % 3600) / 60, (rem % 3600) % 60)
  }

  /** The decomposition is the only one with in-range fields. */
  lemma DecomposeUnique(total: int, sp: Span)
    requires sp.hours < 24 && sp.minutes < 60 && sp.seconds < 60
    requires 86400 * sp.days + 3600 * sp.hours + 60 * sp.minutes + sp.seconds == total
    ensures sp == Decompose(total)
  {
    var d := Decompose(total);
    var r1 := 3600 * sp.hours + 60 * sp.minutes + sp.seconds;
    var r2 := 3600 * d.hours + 60 * d.minutes + d.seconds;
    assert 0 <= r1 < 86400 && 0 <= r2 < 86400;
    assert 86400 * (sp.days - d.days) == r2 - r1;
    assert sp.days == d.days;
    var m1 := 60 * sp.minutes + sp.seconds;
    var m2 := 60 * d.minutes + d.seconds;
    assert 3600 * (sp.hours - d.hours) == m2 - m1;
    assert sp.hours == d.hours;
    assert 60 * (sp.minutes - d.minutes) == d.seconds - sp.seconds;
    assert sp.minutes == d.minutes;
  }

  // -----------------------------------------------------------------------
  // Decimal text

  function Digit(d: nat): (c: char)
    requires d < 10
    ensures '0' <= c <= '9'
  {
    (48 + d) as char
  }

  function DigitValue(c: char): int
  {
    c as int - 48
  }

  function NatString(n: nat): (s: string)
    ensures |s| > 0
    decreases n
  {
    if n < 10 then [Digit(n)] else NatString(n / 10) + [Digit(n % 10)]
  }

  function ParseNat(s: string): int
    decreases |s|
  {
    if s == [] then 0 else 10 * ParseNat(s[..|s| - 1]) + DigitValue(s[|s| - 1])
  }

  lemma {:induction false} NatStringRoundTrip(n: nat)
    ensures ParseNat(NatString(n)) == n
    ensures NatString(n)[0] != '-'
    decreases n
  {
    if n >= 10 {
      var s := NatString(n / 10) + [Digit(n % 10)];
      assert s[..|s| - 1] == NatString(n / 10);
      NatStringRoundTrip(n / 10);
    }
  }

  /** Python's str() of an integer. */
  function IntString(n: int): string
  {
    if n < 0 then "-" + NatString(-n) else NatString(n)
  }

  function ParseInt(s: string): int
  {
    if |s| > 0 && s[0] == '-' then -ParseNat(s[1..]) else ParseNat(s)
  }

  lemma IntStringRoundTrip(n: int)
    ensures ParseInt(IntString(n)) == n
  {
    if n < 0 {
      NatStringRoundTrip(-n);
      assert ("-" + NatString(-n))[1..] == NatString(-n);
    } else {
      NatStringRoundTrip(n);
    }
  }

  /** {value:02} for a value below 100. */
  function Pad2(n: nat): (s: string)
    requires n < 100
    ensures |s| == 2
  {
    [Digit(n / 10), Digit(n % 10)]
  }

  lemma Pad2RoundTrip(n: nat)
    requires n < 100
    ensures ParseNat(Pad2(n)) == n
  {
    var s := Pad2(n);
    assert s[..1][..0] == [];
    assert s[..1] == [Digit(n / 10)];
    assert ParseNat(s[..1]) == n / 10;
    assert DigitValue(s[1]) == n % 10;
    assert ParseNat(s) == 10 * (n / 10) + n % 10;
  }

  // -----------------------------------------------------------------------
  // The display string

  function FormatTimedelta(total: int): string
  {
    var sp := Decompose(total);
    IntString(sp.days) + "d " + Pad2(sp.hours) + ":" + Pad2(sp.minutes) + ":" + Pad2(sp.seconds)
  }

  /** Reads a "<days>d HH:MM:SS" text back into seconds. */
  function ParseTimedelta(s: string): int
  {
    if |s| < 10 then 0
    else
      86400 * ParseInt(s[..|s| - 10]) + 3600 * ParseNat(s[|s| - 8..|s| - 6])
        + 60 * ParseNat(s[|s| - 5..|s| - 3]) + ParseNat(s[|s| - 2..])
  }

  /** The display string loses no information: it reads back to the same
      number of seconds, and its last ten characters are "d HH:MM:SS". */
  lemma FormatRoundTrip(total: int)
    ensures var s := FormatTimedelta(total);
      && ParseTimedelta(s) == total
      && |s| > 10 && s[|s| - 10..|s| - 8] == "d " && s[|s| - 6] == ':' && s[|s| - 3] == ':'
  {
    var sp := Decompose(total);
    var a, h, m, sec := IntString(sp.days), Pad2(sp.hours), Pad2(sp.minutes), Pad2(sp.seconds);
    var s := a + "d " + h + ":" + m + ":" + sec;
    assert |a| > 0 && |s| == |a| + 10;
    assert s[..|s| - 10] == a;
    assert s[|s| - 8..|s| - 6] == h;
    assert s[|s| - 5..|s| - 3] == m;
    assert s[|s| - 2..] == sec;
    IntStringRoundTrip(sp.days);
    Pad2RoundTrip(sp.hours);
    Pad2RoundTrip(sp.minutes);
    Pad2RoundTrip(sp.seconds);
  }
}
