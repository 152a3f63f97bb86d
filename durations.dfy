/**
 * `formatDuration`, which src/components/Analytics.tsx and src/components/Reports.tsx
 * each define with the same body: minutes as "Xh Ym", "Xh", "Ym" or "0m".
 */
module Durations {
  import opened Wrappers
  import opened JsText

  /** The text shown for a number of minutes, with `Math.floor(m / 60)` hours and `m % 60` minutes. */
  function FormatDuration(minutes: int): string
  {
    if minutes == 0 then "0m"
    else
      var hours := minutes / 60;
      var remaining := JsRem(minutes, 60);
      if hours == 0 then IntToString(remaining) + "m"
      else if remaining == 0 then IntToString(hours) + "h"
      else IntToString(hours) + "h " + IntToString(remaining) + "m"
  }

  /** For a non-negative number of minutes the text takes one of exactly four shapes. */
  lemma FormatDurationCases(n: nat)
    ensures n == 0 ==> FormatDuration(n) == "0m"
    ensures 0 < n < 60 ==> FormatDuration(n) == NatToString(n) + "m"
    ensures n >= 60 && n % 60 == 0 ==> FormatDuration(n) == NatToString(n / 60) + "h"
    ensures n >= 60 && n % 60 != 0 ==>
      FormatDuration(n) == NatToString(n / 60) + "h " + NatToString(n % 60) + "m"
  {
  }

  /** Reads "Ym", "Xh" or "Xh Ym" back into minutes; anything else is `None`. */
  function ReadDuration(s: string): Option<int>
  {
    if DigitRun(s) == 0 then None
    else
      var (x, rest) := ReadNat(s);
      if rest == "m" then Some(x)
      else if rest == "h" then Some(60 * x)
      else if |rest| >= 2 && rest[..2] == "h " then ReadTrailingMinutes(x, rest[2..])
      else None
  }

  /** The "Ym" part after "Xh ", with fewer than 60 minutes. */
  function ReadTrailingMinutes(hours: nat, t: string): Option<int>
  {
    if DigitRun(t) == 0 then None
    else
      var (y, tail) := ReadNat(t);
      if tail == "m" && y < 60 then Some(60 * hours + y) else None
  }

  lemma ReadMinutesOnly(m: nat)
    ensures ReadDuration(NatToString(m) + "m") == Some(m)
  {
    ReadNatToString(m, "m");
    DigitRunPrefix(NatToString(m), "m");
  }

  lemma ReadHoursOnly(h: nat)
    ensures ReadDuration(NatToString(h) + "h") == Some(60 * h)
  {
    ReadNatToString(h, "h");
    DigitRunPrefix(NatToString(h), "h");
  }

  /** After "Xh " the reading continues with the minutes part. */
  lemma ReadAfterHours(d: string, h: nat, tail: string)
    requires d != [] && forall k :: 0 <= k < |d| ==> IsDigit(d[k])
    requires DigitsValue(d) == h
    requires tail != []
    ensures ReadDuration(d + "h " + tail) == ReadTrailingMinutes(h, tail)
  {
    var rest := "h " + tail;
    assert d + "h " + tail == d + rest;
    ReadDigits(d, rest);
    assert rest[..2] == "h " && rest[2..] == tail;
    assert rest != "m" && rest != "h" by {
      assert |rest| != 1;
    }
  }

  /** The minutes part "Ym" of fewer than 60 minutes completes the reading. */
  lemma ReadMinutesPart(h: nat, d: string, m: nat)
    requires m < 60
    requires d != [] && forall k :: 0 <= k < |d| ==> IsDigit(d[k])
    requires DigitsValue(d) == m
    ensures ReadTrailingMinutes(h, d + "m") == Some(60 * h + m)
  {
    ReadDigits(d, "m");
  }

  lemma ReadHoursAndMinutes(h: nat, m: nat)
    requires m < 60
    ensures ReadDuration(NatToString(h) + "h " + NatToString(m) + "m") == Some(60 * h + m)
  {
    DigitsValueOfNatToString(h);
    DigitsValueOfNatToString(m);
    ReadHoursAndMinutesText(NatToString(h), h, NatToString(m), m);
  }

  lemma ReadHoursAndMinutesText(hd: string, h: nat, md: string, m: nat)
    requires m < 60
    requires hd != [] && forall k :: 0 <= k < |hd| ==> IsDigit(hd[k])
    requires md != [] && forall k :: 0 <= k < |md| ==> IsDigit(md[k])
    requires DigitsValue(hd) == h && DigitsValue(md) == m
    ensures ReadDuration(hd + "h " + md + "m") == Some(60 * h + m)
  {
    assert hd + "h " + md + "m" == hd + "h " + (md + "m");
    ReadAfterHours(hd, h, md + "m");
    ReadMinutesPart(h, md, m);
  }

  /** The displayed text of a non-negative duration reads back as that duration. */
  lemma FormatDurationRoundTrip(n: nat)
    ensures ReadDuration(FormatDuration(n)) == Some(n)
  {
    FormatDurationCases(n);
    if n == 0 {
      assert FormatDuration(n) == NatToString(0) + "m";
      ReadMinutesOnly(0);
    } else if n < 60 {
      ReadMinutesOnly(n);
    } else if n % 60 == 0 {
      ReadHoursOnly(n / 60);
    } else {
      ReadHoursAndMinutes(n / 60, n % 60);
    }
  }

  /** The texts are canonical: two different non-negative durations never print the same. */
  lemma FormatDurationInjective(a: nat, b: nat)
    requires FormatDuration(a) == FormatDuration(b)
    ensures a == b
  {
    FormatDurationRoundTrip(a);
    FormatDurationRoundTrip(b);
  }
}
