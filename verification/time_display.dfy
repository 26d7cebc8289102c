/**
 * The 12-hour clock display shared by the booking view and the coach calendar:
 * both define the same `formatTime`, turning a database time such as "13:05:00"
 * into "1:05 PM".
 */
module TimeDisplay {
  import opened Wrappers
  import opened Text

  /**
   * `formatTime`: split the time at ':', read the hours with `parseInt`, print
   * `hour % 12 || 12`, the minutes field as it is, and "PM" from hour 12 on.
   * A missing minutes field prints as "undefined"; hours that do not parse
   * (NaN) print as "12" with "AM", since NaN is neither >= 12 nor truthy.
   */
  function FormatTime(time: string): (r: string)
    ensures |r| >= 3 && (r[|r| - 3..] == " AM" || r[|r| - 3..] == " PM")
  {
    var parts := Split(time, ':');
    var minutes := if |parts| > 1 then parts[1] else "undefined";
    var hour := ParseIntPrefix(parts[0]);
    var ampm := if hour.Some? && hour.value >= 12 then "PM" else "AM";
    var shown := if hour.Some? && hour.value % 12 != 0 then hour.value % 12 else 12;
    NatToString(shown) + ":" + minutes + " " + ampm
  }

  /** The hour on a 12-hour clock face, hour by hour of the day. */
  function ClockHour(h: nat): (c: nat)
    requires h < 24
    ensures 1 <= c <= 12
  {
    if h == 0 then 12
    else if h < 12 then h
    else if h == 12 then 12
    else h - 12
  }

  function Meridiem(h: nat): string {
    if h < 12 then "AM" else "PM"
  }

  /** Back from the clock face and the meridiem to the hour of the day. */
  function To24(c: nat, pm: bool): nat {
    if c == 12 then (if pm then 12 else 0)
    else if pm then c + 12
    else c
  }

  /** The display loses nothing: clock hour and meridiem determine the hour. */
  lemma ClockHourRoundTrip(h: nat)
    requires h < 24
    ensures To24(ClockHour(h), Meridiem(h) == "PM") == h
  {
  }

  /**
   * For a time "HH:MM" or "HH:MM:SS" with hours 0 to 23, the display is the
   * clock hour, a colon, the minutes text unchanged, and AM before noon, PM
   * from noon on.
   */
  lemma FormatTimeOfDay(time: string, hh: string, mm: string, rest: string)
    requires hh != [] && AllDigits(hh) && DigitsValue(hh) < 24
    requires ':' !in mm
    requires rest == [] || rest[0] == ':'
    requires time == hh + ":" + mm + rest
    ensures FormatTime(time) == NatToString(ClockHour(DigitsValue(hh))) + ":" + mm + " " + Meridiem(DigitsValue(hh))
  {
    TimeFields(time, hh, mm, rest);
    DigitPrefixIsWhole(hh);
    var h := DigitsValue(hh);
    assert ParseIntPrefix(hh) == Some(h);
    ClockHourIsRemainder(h);
  }

  /** `hour % 12 || 12` is the clock hour. */
  lemma ClockHourIsRemainder(h: nat)
    requires h < 24
    ensures (if h % 12 != 0 then h % 12 else 12) == ClockHour(h)
  {
    if h >= 12 {
      assert h % 12 == h - 12;
    }
  }

  /** The hours and minutes fields of "HH:MM" or "HH:MM:SS". */
  lemma TimeFields(time: string, hh: string, mm: string, rest: string)
    requires hh != [] && AllDigits(hh)
    requires ':' !in mm
    requires rest == [] || rest[0] == ':'
    requires time == hh + ":" + mm + rest
    ensures var parts := Split(time, ':'); |parts| > 1 && parts[0] == hh && parts[1] == mm
  {
    assert ':' !in hh by {
      forall i | 0 <= i < |hh| ensures hh[i] != ':' { assert IsDigit(hh[i]); }
    }
    assert time == hh + [':'] + (mm + rest);
    SplitAtSeparator(hh, mm + rest, ':');
    if rest == [] {
      assert mm + rest == mm;
      SplitNoSeparator(mm, ':');
    } else {
      assert mm + rest == mm + [':'] + rest[1..];
      SplitAtSeparator(mm, rest[1..], ':');
    }
  }

  lemma {:induction false} DigitPrefixIsWhole(s: string)
    requires AllDigits(s)
    ensures LeadingDigits(s) == s
  {
    if s != [] {
      DigitPrefixIsWhole(s[1..]);
    }
  }

  /** Midnight shows as 12 AM, whatever the minutes. */
  lemma MidnightShowsTwelveAm(mm: string, rest: string)
    requires ':' !in mm
    requires rest == [] || rest[0] == ':'
    ensures FormatTime("00:" + mm + rest) == "12:" + mm + " AM"
  {
    var hh := "00";
    assert AllDigits(hh) && DigitsValue(hh) == 0;
    assert "00:" + mm + rest == hh + ":" + mm + rest;
    FormatTimeOfDay("00:" + mm + rest, hh, mm, rest);
    TwelveNumeral();
  }

  /** Noon shows as 12 PM, whatever the minutes, and a seconds field is dropped. */
  lemma NoonShowsTwelvePm(mm: string, rest: string)
    requires ':' !in mm
    requires rest == [] || rest[0] == ':'
    ensures FormatTime("12:" + mm + rest) == "12:" + mm + " PM"
  {
    var hh := "12";
    assert AllDigits(hh) && DigitsValue(hh) == 12 by {
      assert hh[..1] == "1";
    }
    assert "12:" + mm + rest == hh + ":" + mm + rest;
    FormatTimeOfDay("12:" + mm + rest, hh, mm, rest);
    TwelveNumeral();
  }

  lemma TwelveNumeral()
    ensures NatToString(12) == "12"
  {
    TwoDigitNumeral(12);
  }
}
