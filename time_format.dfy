/**
 * Duration and delta formatting (frontend/src/lib/time.ts): a number of
 * minutes is shown as "<m>m", "<h>h" or "<h>h <m>m" from its absolute value,
 * and a delta gets a '+' or '-' sign in front. Minutes are whole numbers
 * here, so `Math.round` of the remainder is the remainder itself.
 *
 * The partner of the formatter is a parser for exactly the strings it
 * produces; formatting and then parsing gives back the absolute value.
 */
module TimeFormat {
  import opened Wrappers
  import opened Decimal
  import Seqs

  function Abs(m: int): nat { if m < 0 then -m else m }

  /** `formatDuration`: hours and remaining minutes of `|m|`, leaving out a zero part. */
  function FormatDuration(m: int): (r: string)
    ensures Abs(m) < 60 ==> r == NatToString(Abs(m)) + "m"
    ensures Abs(m) >= 60 && Abs(m) % 60 == 0 ==> r == NatToString(Abs(m) / 60) + "h"
    ensures Abs(m) >= 60 && Abs(m) % 60 != 0 ==> r == NatToString(Abs(m) / 60) + "h " + NatToString(Abs(m) % 60) + "m"
  {
    var hours := Abs(m) / 60;
    var mins := Abs(m) % 60;
    if hours == 0 then NatToString(mins) + "m"
    else if mins == 0 then NatToString(hours) + "h"
    else NatToString(hours) + "h " + NatToString(mins) + "m"
  }

  /** The number of leading decimal digits. */
  function SpanDigits(s: string): (r: nat)
    ensures r <= |s|
  {
    if s == [] || !IsDigit(s[0]) then 0 else 1 + SpanDigits(s[1..])
  }

  lemma {:induction false} SpanDigitsOf(d: string, rest: string)
    requires forall i :: 0 <= i < |d| ==> IsDigit(d[i])
    requires rest == [] || !IsDigit(rest[0])
    ensures SpanDigits(d + rest) == |d|
  {
    if d != [] {
      assert (d + rest)[1..] == d[1..] + rest;
      SpanDigitsOf(d[1..], rest);
    }
  }

  /** Reads "<n>m", "<h>h" or "<h>h <n>m" back into minutes. */
  function ParseDuration(s: string): Option<nat>
  {
    var i := SpanDigits(s);
    if i == 0 then None
    else
      var n := ParseNat(s[..i]);
      var rest := s[i..];
      if rest == "m" then Some(n)
      else if rest == "h" then Some(n * 60)
      else if |rest| >= 2 && rest[..2] == "h " then
        match ParseMinutes(rest[2..])
        case None => None
        case Some(k) => Some(n * 60 + k)
      else None
  }

  /** Reads "<n>m" into `n`. */
  function ParseMinutes(t: string): Option<nat>
  {
    var j := SpanDigits(t);
    if j == 0 || t[j..] != "m" then None else Some(ParseNat(t[..j]))
  }

  /** Reading a number followed by a suffix that does not start with a digit. */
  lemma ReadNumber(n: nat, rest: string)
    requires rest == [] || !IsDigit(rest[0])
    ensures var s := NatToString(n) + rest;
      SpanDigits(s) == |NatToString(n)| && s[..|NatToString(n)|] == NatToString(n) && s[|NatToString(n)|..] == rest
  {
    SpanDigitsOf(NatToString(n), rest);
  }

  /** "<n>m" and "<n>h" read back as `n` minutes and `n` hours. */
  lemma SingleRoundTrip(n: nat)
    ensures ParseDuration(NatToString(n) + "m") == Some(n)
    ensures ParseDuration(NatToString(n) + "h") == Some(n * 60)
  {
    ReadNumber(n, "m");
    ReadNumber(n, "h");
    NatRoundTrip(n);
  }

  lemma MinutesRoundTrip(n: nat)
    ensures ParseMinutes(NatToString(n) + "m") == Some(n)
  {
    ReadNumber(n, "m");
    NatRoundTrip(n);
  }

  /** Digits, "h ", then a minutes part: hours times 60 plus the minutes. */
  lemma ParsePair(s: string, d: string, t: string, a: nat, k: nat)
    requires |d| > 0 && forall i :: 0 <= i < |d| ==> IsDigit(d[i])
    requires s == d + ("h " + t) && ParseNat(d) == a && ParseMinutes(t) == Some(k)
    ensures ParseDuration(s) == Some(a * 60 + k)
  {
    SpanDigitsOf(d, "h " + t);
    assert s[..|d|] == d;
    assert s[|d|..] == "h " + t;
    assert ("h " + t)[..2] == "h ";
    assert ("h " + t)[2..] == t;
  }

  /** "<h>h <n>m" reads back as `h` hours and `n` minutes. */
  lemma PairRoundTrip(h: nat, n: nat)
    requires h > 0
    ensures ParseDuration(NatToString(h) + "h " + NatToString(n) + "m") == Some(h * 60 + n)
  {
    var d, tail := NatToString(h), NatToString(n) + "m";
    var s := d + ("h " + tail);
    MinutesRoundTrip(n);
    NatRoundTrip(h);
    ParsePair(s, d, tail, h, n);
    Seqs.ConcatAssociative(d + "h ", NatToString(n), "m");
    Seqs.ConcatAssociative(d, "h ", tail);
  }

  /** The formatted duration reads back as `|m|`: no two absolute values share a string. */
  lemma DurationRoundTrip(m: int)
    ensures ParseDuration(FormatDuration(m)) == Some(Abs(m))
  {
    var a := Abs(m);
    var h, mins := a / 60, a % 60;
    var r := FormatDuration(m);
    if a < 60 {
      assert r == NatToString(a) + "m";
      SingleRoundTrip(a);
    } else if mins == 0 {
      assert r == NatToString(h) + "h";
      SingleRoundTrip(h);
      assert h * 60 == a;
    } else {
      assert r == NatToString(h) + "h " + NatToString(mins) + "m";
      PairRoundTrip(h, mins);
      assert h * 60 + mins == a;
    }
  }

  /** Only the absolute value is shown. */
  lemma DurationIgnoresSign(m: int)
    ensures FormatDuration(m) == FormatDuration(-m)
  {
  }

  /** Two durations print the same exactly when their absolute values agree. */
  lemma DurationDistinguishes(a: int, b: int)
    ensures FormatDuration(a) == FormatDuration(b) <==> Abs(a) == Abs(b)
  {
    DurationRoundTrip(a);
    DurationRoundTrip(b);
  }

  /** For whole hours and minutes, hours times 60 plus minutes is the absolute value. */
  lemma DurationParts(m: int)
    ensures (Abs(m) / 60) * 60 + Abs(m) % 60 == Abs(m)
    ensures Abs(m) % 60 < 60
  {
  }

  /** `formatDelta`: '+' for zero and positive deltas, '-' for negative ones, then the duration of `|m|`. */
  function FormatDelta(m: int): (r: string)
    ensures |r| >= 2
    ensures r[0] == (if m >= 0 then '+' else '-')
    ensures r[1..] == FormatDuration(Abs(m))
  {
    var sign := if m >= 0 then '+' else '-';
    [sign] + FormatDuration(Abs(m))
  }

  /** Reads a signed delta back. */
  function ParseDelta(s: string): Option<int>
  {
    if |s| < 1 then None
    else match ParseDuration(s[1..])
      case None => None
      case Some(n) =>
        if s[0] == '+' then Some(n)
        else if s[0] == '-' && n > 0 then Some(0 - n as int)
        else None
  }

  /** A delta reads back as itself, so different deltas never print the same. */
  lemma DeltaRoundTrip(m: int)
    ensures ParseDelta(FormatDelta(m)) == Some(m)
  {
    DurationRoundTrip(Abs(m));
  }

  /** A zero delta is shown as "+0m". */
  lemma ZeroDelta()
    ensures FormatDelta(0) == "+0m"
  {
    assert NatToString(0) == "0";
  }
}
