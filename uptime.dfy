/**
 * The uptime text of the system-information endpoint: a whole number of
 * seconds split into hours, minutes and seconds and rendered as
 * "<h>h <m>m <s>s".
 */
module Uptime {
  import opened Text
  import opened Arithmetic

  datatype UptimeParts = UptimeParts(hours: nat, minutes: nat, seconds: nat)

  /** The three fields, each the floor of its quotient; hours do not roll over into days. */
  function SplitUptime(seconds: nat): (p: UptimeParts)
    ensures p.minutes <= 59 && p.seconds <= 59
    ensures 3600 * p.hours + 60 * p.minutes + p.seconds == seconds
  {
    UptimeParts(seconds / 3600, (seconds % 3600) / 60, seconds % 60)
  }

  /** The rendering of the three fields. */
  function RenderUptime(p: UptimeParts): string
  {
    NatToString(p.hours) + ("h " + (NatToString(p.minutes) + ("m " + (NatToString(p.seconds) + "s"))))
  }

  function FormatUptime(seconds: nat): string
  {
    RenderUptime(SplitUptime(seconds))
  }

  /** Any split with in-range minutes and seconds is the one `SplitUptime` computes. */
  lemma SplitUptimeUnique(seconds: nat, p: UptimeParts)
    requires p.minutes <= 59 && p.seconds <= 59
    requires 3600 * p.hours + 60 * p.minutes + p.seconds == seconds
    ensures SplitUptime(seconds) == p
  {
    var r := 60 * p.minutes + p.seconds;
    DivModUnique(seconds, 3600, p.hours, r);
    DivModUnique(r, 60, p.minutes, p.seconds);
    DivModUnique(seconds, 60, 60 * p.hours + p.minutes, p.seconds);
  }

  /** In a run of digits followed by a non-digit, the first non-digit sits right after the run. */
  lemma DigitRunEnds(d: string, x: string)
    requires forall i :: 0 <= i < |d| ==> IsDigit(d[i])
    requires |x| > 0 && !IsDigit(x[0])
    ensures forall i :: 0 <= i < |d| ==> IsDigit((d + x)[i])
    ensures !IsDigit((d + x)[|d|])
  {
  }

  /** A run of digits ended by a non-digit is read back unambiguously. */
  lemma DigitPrefixUnique(d1: string, x: string, d2: string, y: string)
    requires forall i :: 0 <= i < |d1| ==> IsDigit(d1[i])
    requires forall i :: 0 <= i < |d2| ==> IsDigit(d2[i])
    requires |x| > 0 && |y| > 0 && !IsDigit(x[0]) && !IsDigit(y[0])
    requires d1 + x == d2 + y
    ensures d1 == d2 && x == y
  {
    assert |d1| == |d2| by {
      DigitRunEnds(d1, x);
      DigitRunEnds(d2, y);
    }
    assert d1 == (d1 + x)[..|d1|] && d2 == (d2 + y)[..|d2|];
    assert x == (d1 + x)[|d1|..] && y == (d2 + y)[|d2|..];
  }

  /** Reading one rendered field and its unit back: equal renderings have equal numbers and equal remainders. */
  lemma FieldUnique(a: nat, unit: string, x: string, b: nat, y: string)
    requires |unit| > 0 && !IsDigit(unit[0])
    requires NatToString(a) + (unit + x) == NatToString(b) + (unit + y)
    ensures a == b && x == y
  {
    DigitPrefixUnique(NatToString(a), unit + x, NatToString(b), unit + y);
    NatToStringRoundTrip(a);
    NatToStringRoundTrip(b);
    assert x == (unit + x)[|unit|..] && y == (unit + y)[|unit|..];
  }

  /** The rendering determines the fields. */
  lemma RenderUptimeInjective(p: UptimeParts, q: UptimeParts)
    requires RenderUptime(p) == RenderUptime(q)
    ensures p == q
  {
    var ps, qs := NatToString(p.seconds) + "s", NatToString(q.seconds) + "s";
    var pm, qm := NatToString(p.minutes) + ("m " + ps), NatToString(q.minutes) + ("m " + qs);
    FieldUnique(p.hours, "h ", pm, q.hours, qm);
    FieldUnique(p.minutes, "m ", ps, q.minutes, qs);
    assert ps == NatToString(p.seconds) + ("s" + "") && qs == NatToString(q.seconds) + ("s" + "");
    FieldUnique(p.seconds, "s", "", q.seconds, "");
  }

  /** Different uptimes are never rendered alike: the text loses no information. */
  lemma FormatUptimeInjective(a: nat, b: nat)
    requires FormatUptime(a) == FormatUptime(b)
    ensures a == b
  {
    RenderUptimeInjective(SplitUptime(a), SplitUptime(b));
  }

  /** Uptimes of a day or more keep counting hours: 90061 seconds is "25h 1m 1s". */
  lemma HoursDoNotRollOver()
    ensures FormatUptime(90061) == "25h 1m 1s"
  {
    SplitUptimeUnique(90061, UptimeParts(25, 1, 1));
    assert NatToString(25) == NatToString(2) + [DigitChar(5)] == "25";
  }
}
