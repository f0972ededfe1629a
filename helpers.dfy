/**
 * The `m:ss` duration formatter of src/utils/helpers.ts, with the pieces of
 * JavaScript it relies on (`String(number)`, `padStart`, `%`) written out,
 * and a reader for its output used to state the round trip.
 */
module Helpers {
  import opened Options

  predicate IsDigit(c: char) { '0' <= c <= '9' }

  predicate AllDigits(s: string) { forall i :: 0 <= i < |s| ==> IsDigit(s[i]) }

  function DigitValue(c: char): (d: nat)
    requires IsDigit(c)
    ensures d < 10
  {
    (c as int) - ('0' as int)
  }

  function DigitChar(d: nat): (c: char)
    requires d < 10
    ensures IsDigit(c) && DigitValue(c) == d
  {
    ('0' as int + d) as char
  }

  /** Decimal rendering of a natural number, without leading zeros. */
  function NatToString(n: nat): (r: string)
    ensures |r| >= 1 && AllDigits(r)
    ensures n < 10 <==> |r| == 1
    ensures n < 100 ==> |r| <= 2
    decreases n
  {
    if n < 10 then [DigitChar(n)] else NatToString(n / 10) + [DigitChar(n % 10)]
  }

  /** `String(i)` for an integral JavaScript number. */
  function IntToString(i: int): string
  {
    if i < 0 then "-" + NatToString(-i) else NatToString(i)
  }

  /** Value of a string of decimal digits. */
  function DigitsValue(s: string): nat
    requires AllDigits(s)
    decreases |s|
  {
    if |s| == 0 then 0 else DigitsValue(s[..|s| - 1]) * 10 + DigitValue(s[|s| - 1])
  }

  /** Reads a non-empty string of decimal digits. */
  function ParseNat(s: string): (r: Option<nat>)
    ensures r.Some? <==> |s| > 0 && AllDigits(s)
  {
    if |s| > 0 && AllDigits(s) then Some(DigitsValue(s)) else None
  }

  lemma {:induction false} DigitsValueAppend(s: string, c: char)
    requires AllDigits(s) && IsDigit(c)
    ensures AllDigits(s + [c]) && DigitsValue(s + [c]) == DigitsValue(s) * 10 + DigitValue(c)
  {
    assert (s + [c])[..|s + [c]| - 1] == s;
  }

  /** Reading back a rendered natural gives the natural. */
  lemma {:induction false} NatToStringRoundTrip(n: nat)
    ensures ParseNat(NatToString(n)) == Some(n)
    decreases n
  {
    if n < 10 {
      DigitsValueAppend("", DigitChar(n));
      assert "" + [DigitChar(n)] == NatToString(n);
    } else {
      var q, d := n / 10, n % 10;
      assert n == q * 10 + d;
      NatToStringRoundTrip(q);
      DigitsValueAppend(NatToString(q), DigitChar(d));
    }
  }

  /**
   * `s.padStart(width, fill)` for a one-character fill string: a string that
   * is already long enough is returned unchanged, never truncated.
   */
  function PadStart(s: string, width: nat, fill: char): (r: string)
    ensures |r| == if |s| >= width then |s| else width
    ensures |s| >= width ==> r == s
  {
    if |s| >= width then s else seq(width - |s|, _ => fill) + s
  }

  /**
   * `padStart` puts the fill on the left: the input is the tail of the result
   * and every character before it is the fill.
   */
  lemma PadStartContents(s: string, width: nat, fill: char)
    ensures var r := PadStart(s, width, fill);
      && r[|r| - |s|..] == s
      && forall i :: 0 <= i < |r| - |s| ==> r[i] == fill
  {
  }

  /** The quotient a / b rounded toward zero, as JavaScript's `%` uses it. */
  function TruncatedQuotient(a: int, b: int): int
    requires b > 0
  {
    if a >= 0 then a / b else -((-a) / b)
  }

  /**
   * JavaScript's `a % b`: what is left of a after taking away b times the
   * quotient rounded toward zero, so its sign is the dividend's.
   */
  function JsRemainder(a: int, b: int): (r: int)
    requires b > 0
    ensures a >= 0 ==> 0 <= r < b
    ensures a < 0 ==> -b < r <= 0
    ensures a >= 0 ==> r == a % b
    ensures a == b * TruncatedQuotient(a, b) + r
  {
    if a >= 0 then a % b else -((-a) % b)
  }

  /**
   * `fmt(seconds)`: minutes as `Math.floor(seconds / 60)` (Dafny's `/` by a
   * positive divisor is floor division), then a colon, then `seconds % 60`
   * left-padded with "0" to two characters.
   */
  function Fmt(seconds: int): string
  {
    IntToString(seconds / 60) + ":" + PadStart(IntToString(JsRemainder(seconds, 60)), 2, '0')
  }

  /** Position of the first occurrence of `c` in `s`. */
  function IndexOf(s: string, c: char): (r: Option<nat>)
    ensures r.Some? ==> r.value < |s| && s[r.value] == c && c !in s[..r.value]
    ensures r.None? ==> c !in s
  {
    if |s| == 0 then None
    else if s[0] == c then Some(0)
    else match IndexOf(s[1..], c)
      case None => None
      case Some(i) => assert s[1..][..i] == s[1..i + 1]; Some(i + 1)
  }

  /** Reads an `m:ss` string back into its minutes and seconds fields. */
  function ParseClock(s: string): Option<(nat, nat)>
  {
    match IndexOf(s, ':')
    case None => None
    case Some(i) =>
      match (ParseNat(s[..i]), ParseNat(s[i + 1..]))
      case (Some(m), Some(sec)) => Some((m, sec))
      case _ => None
  }

  /** The seconds field: a value below 60 padded to exactly two digits. */
  lemma {:induction false} SecondsField(v: nat)
    requires v < 60
    ensures |PadStart(NatToString(v), 2, '0')| == 2
    ensures AllDigits(PadStart(NatToString(v), 2, '0'))
    ensures DigitsValue(PadStart(NatToString(v), 2, '0')) == v
  {
    var digits := NatToString(v);
    NatToStringRoundTrip(v);
    if |digits| == 1 {
      var padded := PadStart(digits, 2, '0');
      assert padded == "0" + digits;
      DigitsValueAppend("0", digits[0]);
      assert "0" + [digits[0]] == padded;
      DigitsValueAppend("", '0');
      assert "" + ['0'] == "0";
    }
  }

  /** The `m:ss` text for a minutes value and a seconds value below 60. */
  function Clock(m: nat, sec: nat): string
    requires sec < 60
  {
    NatToString(m) + ":" + PadStart(NatToString(sec), 2, '0')
  }

  /** For n >= 0, `fmt` writes the quotient and remainder of n by 60. */
  lemma FmtOfNat(n: nat)
    ensures Fmt(n) == Clock(n / 60, n % 60)
  {
    var q, rem := n / 60, n % 60;
    assert q >= 0;
    assert JsRemainder(n, 60) == rem;
  }

  /** The clock text starts with the unpadded minutes. */
  lemma ClockMinutes(m: nat, sec: nat)
    requires sec < 60
    ensures |Clock(m, sec)| >= 4
    ensures Clock(m, sec)[..|Clock(m, sec)| - 3] == NatToString(m)
  {
    var mins, secs := NatToString(m), PadStart(NatToString(sec), 2, '0');
    SecondsField(sec);
    var r := mins + ":" + secs;
    assert r[..|mins|] == mins;
  }

  /** The third character from the end of the clock text is the colon. */
  lemma ClockColon(m: nat, sec: nat)
    requires sec < 60
    ensures Clock(m, sec)[|Clock(m, sec)| - 3] == ':'
  {
    var mins, secs := NatToString(m), PadStart(NatToString(sec), 2, '0');
    SecondsField(sec);
    var r := mins + ":" + secs;
    assert r[|mins|] == ':';
  }

  /** The clock text ends with exactly two digits whose value is the seconds. */
  lemma ClockSeconds(m: nat, sec: nat)
    requires sec < 60
    ensures AllDigits(Clock(m, sec)[|Clock(m, sec)| - 2..])
    ensures DigitsValue(Clock(m, sec)[|Clock(m, sec)| - 2..]) == sec
  {
    var mins, secs := NatToString(m), PadStart(NatToString(sec), 2, '0');
    SecondsField(sec);
    var r := mins + ":" + secs;
    assert r[|mins| + 1..] == secs;
  }

  /**
   * For n >= 0 the output of `fmt` is the unpadded minutes, a colon, and
   * exactly two digits whose value is below 60.
   */
  lemma FmtShape(n: nat)
    ensures |Fmt(n)| >= 4
    ensures Fmt(n)[..|Fmt(n)| - 3] == NatToString(n / 60)
    ensures Fmt(n)[|Fmt(n)| - 3] == ':'
    ensures AllDigits(Fmt(n)[|Fmt(n)| - 2..])
    ensures DigitsValue(Fmt(n)[|Fmt(n)| - 2..]) == n % 60 < 60
  {
    FmtOfNat(n);
    ClockMinutes(n / 60, n % 60);
    ClockColon(n / 60, n % 60);
    ClockSeconds(n / 60, n % 60);
  }

  /** Reading the minutes and seconds back out of the clock text. */
  lemma {:induction false} ClockRoundTrip(m: nat, sec: nat)
    requires sec < 60
    ensures ParseClock(Clock(m, sec)) == Some((m, sec))
  {
    ClockMinutes(m, sec);
    ClockColon(m, sec);
    ClockSeconds(m, sec);
    var r := Clock(m, sec);
    var k := |r| - 3;
    assert ':' !in r[..k];
    assert IndexOf(r, ':') == Some(k);
    NatToStringRoundTrip(m);
    assert r[k + 1..] == r[|r| - 2..];
  }

  /** Reading the minutes and seconds back out of `fmt(n)` gives n. */
  lemma FmtRoundTrip(n: nat)
    ensures ParseClock(Fmt(n)) == Some((n / 60, n % 60))
    ensures n / 60 * 60 + n % 60 == n
  {
    FmtOfNat(n);
    ClockRoundTrip(n / 60, n % 60);
  }

  /** Distinct naturals format to distinct strings. */
  lemma FmtInjective(a: nat, b: nat)
    ensures Fmt(a) == Fmt(b) ==> a == b
  {
    FmtRoundTrip(a);
    FmtRoundTrip(b);
  }

  /** The values the match log and clock displays rely on. */
  lemma FmtExamples()
    ensures Fmt(90) == "1:30"
    ensures Fmt(5) == "0:05"
    ensures Fmt(0) == "0:00"
    ensures Fmt(600) == "10:00"
    ensures Fmt(-5) == "-1:-5"
  {
    assert JsRemainder(90, 60) == 30 && JsRemainder(5, 60) == 5;
    assert JsRemainder(600, 60) == 0 && JsRemainder(-5, 60) == -5;
  }
}
