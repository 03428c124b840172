/**
 * The timestamp pipeline of the event formatter: every `Z` is rewritten to
 * `+00:00`, the text is parsed as an ISO 8601 / RFC 3339 date-time, and the
 * parsed wall-clock fields are rendered as `DD MonthName YYYY - HH:MM AM/PM UTC`.
 *
 * Accepted grammar (a subset of what `datetime.fromisoformat` takes):
 *   YYYY-MM-DDTHH:MM:SS[.digits][(+|-)HH:MM]
 * Anything else, and any calendar-invalid value, is the `ValueError` path,
 * modelled as `None`.
 */
module Timestamps {
  import opened Wrappers
  import opened Decimal
  import Strings

  /** A UTC offset as written: sign, hours and minutes. */
  datatype Offset = Offset(negative: bool, hours: nat, minutes: nat)

  /**
   * A parsed date-time. `fraction` keeps the digits after the decimal point
   * as written (empty when there is no fraction); `offset` is None for a
   * naive date-time.
   */
  datatype DateTime = DateTime(
    year: nat, month: nat, day: nat,
    hour: nat, minute: nat, second: nat,
    fraction: string,
    offset: Option<Offset>)

  /** The fields the display string shows. */
  datatype WallClock = WallClock(year: nat, month: nat, day: nat, hour: nat, minute: nat)

  function WallOf(dt: DateTime): WallClock {
    WallClock(dt.year, dt.month, dt.day, dt.hour, dt.minute)
  }

  // ---------------------------------------------------------------- calendar

  /** Gregorian leap years: divisible by 4, except centuries not divisible by 400. */
  predicate IsLeapYear(y: nat) {
    y % 4 == 0 && (y % 100 != 0 || y % 400 == 0)
  }

  function DaysInMonth(y: nat, m: nat): (d: nat)
    requires 1 <= m <= 12
    ensures 28 <= d <= 31
    ensures m == 2 ==> (d == 29 <==> IsLeapYear(y))
  {
    if m == 2 then (if IsLeapYear(y) then 29 else 28)
    else if m == 4 || m == 6 || m == 9 || m == 11 then 30
    else 31
  }

  /**
   * An offset is accepted when it lies strictly within one day. The minutes
   * field is two digits but is not checked against 60 on its own: the
   * offset is built as `timedelta(hours=HH, minutes=MM)`, and only the
   * total is bounded.
   */
  predicate ValidOffset(o: Offset)
    ensures ValidOffset(o) ==> o.hours < 24
    ensures o.hours < 23 && o.minutes < 100 ==> ValidOffset(o)
    ensures o.hours == 23 ==> (ValidOffset(o) <==> o.minutes < 60)
  {
    o.minutes < 100 && o.hours * 60 + o.minutes < 24 * 60
  }

  /** The range checks of the `datetime` constructor (years 1 to 9999, no leap second). */
  predicate Valid(dt: DateTime)
    ensures Valid(dt) ==> dt.day <= 31
    ensures Valid(dt) && dt.month == 2 ==> dt.day <= 28 || (dt.day == 29 && IsLeapYear(dt.year))
  {
    && 1 <= dt.year <= 9999
    && 1 <= dt.month <= 12
    && 1 <= dt.day <= DaysInMonth(dt.year, dt.month)
    && dt.hour < 24 && dt.minute < 60 && dt.second < 60
    && AllDigits(dt.fraction)
    && (dt.offset.Some? ==> ValidOffset(dt.offset.value))
  }

  // ------------------------------------------------------ ISO text and parse

  /** `YYYY-MM-DDTHH:MM:SS`. */
  function DateText(dt: DateTime): (s: string)
    requires Valid(dt)
    ensures |s| == 19
  {
    PadDecimal(dt.year, 4) + "-" + PadDecimal(dt.month, 2) + "-" + PadDecimal(dt.day, 2) + "T"
    + PadDecimal(dt.hour, 2) + ":" + PadDecimal(dt.minute, 2) + ":" + PadDecimal(dt.second, 2)
  }

  function FractionText(f: string): string {
    if f == "" then "" else "." + f
  }

  function OffsetText(o: Option<Offset>): (s: string)
    requires o.Some? ==> ValidOffset(o.value)
    ensures |s| == 0 || |s| == 6
  {
    match o
    case None => ""
    case Some(off) =>
      [if off.negative then '-' else '+'] + PadDecimal(off.hours, 2) + ":" + PadDecimal(off.minutes, 2)
  }

  /** The canonical ISO text of a date-time, in the accepted grammar. */
  function Show(dt: DateTime): string
    requires Valid(dt)
  {
    DateText(dt) + FractionText(dt.fraction) + OffsetText(dt.offset)
  }

  /** The first 19 characters have the shape `dddd-dd-ddTdd:dd:dd`. */
  predicate DateShaped(d: string)
    requires |d| == 19
  {
    && AllDigits(d[0..4]) && d[4] == '-' && AllDigits(d[5..7]) && d[7] == '-'
    && AllDigits(d[8..10]) && d[10] == 'T'
    && AllDigits(d[11..13]) && d[13] == ':' && AllDigits(d[14..16]) && d[16] == ':'
    && AllDigits(d[17..19])
  }

  /** `""` or `.` followed by at least one digit; yields the digits. */
  function ParseFraction(f: string): (r: Option<string>)
    ensures r.Some? ==> AllDigits(r.value) && FractionText(r.value) == f
  {
    if f == "" then Some("")
    else if |f| >= 2 && f[0] == '.' && AllDigits(f[1..]) then
      assert f == "." + f[1..];
      Some(f[1..])
    else None
  }

  /** `""` (no offset) or `(+|-)dd:dd`. */
  function ParseOffset(z: string): Option<Option<Offset>>
  {
    if z == "" then Some(None)
    else if |z| == 6 && (z[0] == '+' || z[0] == '-') && AllDigits(z[1..3]) && z[3] == ':' && AllDigits(z[4..6]) then
      Some(Some(Offset(z[0] == '-', ValueOf(z[1..3]), ValueOf(z[4..6]))))
    else None
  }

  /** Where the fraction ends and the offset begins in the text after the seconds. */
  function ZoneStart(tail: string): (k: nat)
    ensures k <= |tail|
  {
    if |tail| >= 6 && (tail[|tail| - 6] == '+' || tail[|tail| - 6] == '-') then |tail| - 6 else |tail|
  }

  /** `datetime.fromisoformat` restricted to the accepted grammar; None is the `ValueError` path. */
  function Parse(s: string): (r: Option<DateTime>)
    ensures r.Some? ==> Valid(r.value)
  {
    if |s| < 19 || !DateShaped(s[..19]) then None
    else
      var d := s[..19];
      var tail := s[19..];
      var k := ZoneStart(tail);
      match (ParseFraction(tail[..k]), ParseOffset(tail[k..]))
      case (Some(f), Some(o)) =>
        var dt := DateTime(ValueOf(d[0..4]), ValueOf(d[5..7]), ValueOf(d[8..10]),
                           ValueOf(d[11..13]), ValueOf(d[14..16]), ValueOf(d[17..19]), f, o);
        if Valid(dt) then Some(dt) else None
      case _ => None
  }

  /** Parsing the canonical text of a valid date-time gives that date-time back. */
  lemma ParseShow(dt: DateTime)
    requires Valid(dt)
    ensures Parse(Show(dt)) == Some(dt)
  {
    ShowStartsWithDate(dt);
    DateTextFields(dt);
    ReadDateFields(dt);
    TailParses(dt.fraction, dt.offset);
  }

  /** The text after the seconds splits back into the fraction and the offset it was made of. */
  lemma TailParses(fraction: string, o: Option<Offset>)
    requires AllDigits(fraction) && (o.Some? ==> ValidOffset(o.value))
    ensures var tail := FractionText(fraction) + OffsetText(o);
      && ParseFraction(tail[..ZoneStart(tail)]) == Some(fraction)
      && ParseOffset(tail[ZoneStart(tail)..]) == Some(o)
  {
    var f := FractionText(fraction);
    var z := OffsetText(o);
    var tail := f + z;
    ZoneStartOfShow(fraction, o);
    assert tail[..|f|] == f && tail[|f|..] == z;
    ParseFractionText(fraction);
    ParseOffsetText(o);
  }

  /** The fields read from the date text are the date-time's own. */
  lemma ReadDateFields(dt: DateTime)
    requires Valid(dt)
    ensures var d := DateText(dt);
      && ValueOf(d[0..4]) == dt.year && ValueOf(d[5..7]) == dt.month && ValueOf(d[8..10]) == dt.day
      && ValueOf(d[11..13]) == dt.hour && ValueOf(d[14..16]) == dt.minute && ValueOf(d[17..19]) == dt.second
  {
    DateTextFields(dt);
    ValueOfPad(dt.year, 4);
    ValueOfPad(dt.month, 2);
    ValueOfPad(dt.day, 2);
    ValueOfPad(dt.hour, 2);
    ValueOfPad(dt.minute, 2);
    ValueOfPad(dt.second, 2);
  }

  lemma DateTextFields(dt: DateTime)
    requires Valid(dt)
    ensures var d := DateText(dt);
      && DateShaped(d)
      && d[0..4] == PadDecimal(dt.year, 4)
      && d[5..7] == PadDecimal(dt.month, 2)
      && d[8..10] == PadDecimal(dt.day, 2)
      && d[11..13] == PadDecimal(dt.hour, 2)
      && d[14..16] == PadDecimal(dt.minute, 2)
      && d[17..19] == PadDecimal(dt.second, 2)
  {
    NineteenFields(PadDecimal(dt.year, 4), PadDecimal(dt.month, 2), PadDecimal(dt.day, 2),
                   PadDecimal(dt.hour, 2), PadDecimal(dt.minute, 2), PadDecimal(dt.second, 2));
  }

  /** Where each field sits in `y-mo-daTh:mi:se`, whatever the field texts are. */
  lemma NineteenFields(y: string, mo: string, da: string, h: string, mi: string, se: string)
    requires |y| == 4 && |mo| == 2 && |da| == 2 && |h| == 2 && |mi| == 2 && |se| == 2
    ensures var d := y + "-" + mo + "-" + da + "T" + h + ":" + mi + ":" + se;
      && |d| == 19 && d[0..4] == y && d[4] == '-' && d[5..7] == mo && d[7] == '-' && d[8..10] == da
      && d[10] == 'T' && d[11..13] == h && d[13] == ':' && d[14..16] == mi && d[16] == ':' && d[17..19] == se
  {
    var a := y + "-" + mo + "-" + da;
    var b := h + ":" + mi + ":" + se;
    var d := y + "-" + mo + "-" + da + "T" + h + ":" + mi + ":" + se;
    assert d == a + "T" + b;
    assert a[0..4] == y && a[5..7] == mo && a[8..10] == da;
    assert b[0..2] == h && b[3..5] == mi && b[6..8] == se;
  }

  lemma ZoneStartOfShow(fraction: string, o: Option<Offset>)
    requires AllDigits(fraction)
    requires o.Some? ==> ValidOffset(o.value)
    ensures ZoneStart(FractionText(fraction) + OffsetText(o)) == |FractionText(fraction)|
  {
    var f := FractionText(fraction);
    var tail := f + OffsetText(o);
    if o.None? {
      assert tail == f;
      if |f| > 6 {
        assert f[|f| - 6] == fraction[|f| - 7];
      }
    } else {
      assert tail[|tail| - 6] == OffsetText(o)[0];
    }
  }

  lemma ParseFractionText(fraction: string)
    requires AllDigits(fraction)
    ensures ParseFraction(FractionText(fraction)) == Some(fraction)
  {
    if fraction != "" {
      assert ("." + fraction)[1..] == fraction;
    }
  }

  lemma ParseOffsetText(o: Option<Offset>)
    requires o.Some? ==> ValidOffset(o.value)
    ensures ParseOffset(OffsetText(o)) == Some(o)
  {
    if o.Some? {
      var off := o.value;
      var hh, mm := PadDecimal(off.hours, 2), PadDecimal(off.minutes, 2);
      var z := OffsetText(o);
      assert z == [if off.negative then '-' else '+'] + hh + ":" + mm;
      assert z[1..3] == hh && z[4..6] == mm;
      ValueOfPad(off.hours, 2);
      ValueOfPad(off.minutes, 2);
    }
  }

  /** The canonical text starts with the 19-character date and time. */
  lemma ShowStartsWithDate(dt: DateTime)
    requires Valid(dt)
    ensures |Show(dt)| >= 19 && Show(dt)[..19] == DateText(dt)
    ensures Show(dt)[19..] == FractionText(dt.fraction) + OffsetText(dt.offset)
  {
    assert Show(dt) == DateText(dt) + (FractionText(dt.fraction) + OffsetText(dt.offset));
  }

  /** Whatever parses is exactly the canonical text of its result. */
  lemma ParseSound(s: string)
    requires Parse(s).Some?
    ensures Show(Parse(s).value) == s
  {
    var dt := Parse(s).value;
    var d := s[..19];
    var tail := s[19..];
    var k := ZoneStart(tail);
    DateTextOfShaped(d, dt);
    assert FractionText(dt.fraction) == tail[..k];
    ShowOfParsedOffset(tail[k..]);
    assert OffsetText(dt.offset) == tail[k..];
    assert s == d + (tail[..k] + tail[k..]);
  }

  /** A date-shaped text is the date text of the fields read from it. */
  lemma DateTextOfShaped(d: string, dt: DateTime)
    requires |d| == 19 && DateShaped(d) && Valid(dt)
    requires dt.year == ValueOf(d[0..4]) && dt.month == ValueOf(d[5..7]) && dt.day == ValueOf(d[8..10])
    requires dt.hour == ValueOf(d[11..13]) && dt.minute == ValueOf(d[14..16]) && dt.second == ValueOf(d[17..19])
    ensures DateText(dt) == d
  {
    PadValueOf(d[0..4]);
    PadValueOf(d[5..7]);
    PadValueOf(d[8..10]);
    PadValueOf(d[11..13]);
    PadValueOf(d[14..16]);
    PadValueOf(d[17..19]);
    SliceNineteen(d);
  }

  /** A 19-character text is the concatenation of its fields and separators. */
  lemma SliceNineteen(d: string)
    requires |d| == 19
    ensures d == d[0..4] + [d[4]] + d[5..7] + [d[7]] + d[8..10] + [d[10]]
                 + d[11..13] + [d[13]] + d[14..16] + [d[16]] + d[17..19]
  {
  }

  lemma ShowOfParsedOffset(z: string)
    requires ParseOffset(z).Some?
    requires var o := ParseOffset(z).value; o.Some? ==> ValidOffset(o.value)
    ensures OffsetText(ParseOffset(z).value) == z
  {
    if z != "" {
      PadValueOf(z[1..3]);
      PadValueOf(z[4..6]);
      var t := OffsetText(ParseOffset(z).value);
      assert t[1..3] == z[1..3] && t[4..6] == z[4..6];
      assert t == z by {
        forall i | 0 <= i < 6
          ensures t[i] == z[i]
        {
          if 1 <= i < 3 { assert t[i] == t[1..3][i - 1]; assert z[i] == z[1..3][i - 1]; }
          else if 4 <= i < 6 { assert t[i] == t[4..6][i - 4]; assert z[i] == z[4..6][i - 4]; }
        }
      }
    }
  }

  /** The accepted texts and the valid date-times correspond one to one. */
  lemma ParseIff(s: string, dt: DateTime)
    ensures Parse(s) == Some(dt) <==> Valid(dt) && s == Show(dt)
  {
    if Parse(s) == Some(dt) {
      ParseSound(s);
    }
    if Valid(dt) && s == Show(dt) {
      ParseShow(dt);
    }
  }

  // ------------------------------------------------------------ display text

  const MonthNames: seq<string> := [
    "January", "February", "March", "April", "May", "June",
    "July", "August", "September", "October", "November", "December"]

  /** `%B` in the C locale. */
  function MonthName(m: nat): string
    requires 1 <= m <= 12
  {
    MonthNames[m - 1]
  }

  /** The inverse of `MonthName`. */
  function MonthNumber(name: string): (r: Option<nat>)
    ensures r.Some? ==> 1 <= r.value <= 12 && MonthName(r.value) == name
  {
    if name == "January" then Some(1)
    else if name == "February" then Some(2)
    else if name == "March" then Some(3)
    else if name == "April" then Some(4)
    else if name == "May" then Some(5)
    else if name == "June" then Some(6)
    else if name == "July" then Some(7)
    else if name == "August" then Some(8)
    else if name == "September" then Some(9)
    else if name == "October" then Some(10)
    else if name == "November" then Some(11)
    else if name == "December" then Some(12)
    else None
  }

  lemma MonthNumberOfName(m: nat)
    requires 1 <= m <= 12
    ensures MonthNumber(MonthName(m)) == Some(m)
  {
  }

  /** Reading a 12-hour clock back: `12 AM` is hour 0, `12 PM` is hour 12. */
  function To24(h12: nat, pm: bool): nat {
    h12 % 12 + (if pm then 12 else 0)
  }

  /** `%I`: the hour on a 12-hour clock, 01 to 12. */
  function Hour12(h: nat): (r: nat)
    requires h < 24
    ensures 1 <= r <= 12
    ensures To24(r, h >= 12) == h
  {
    if h % 12 == 0 then 12 else h % 12
  }

  /** `%p` in the C locale. */
  function Meridiem(h: nat): (r: string)
    requires h < 24
    ensures r == "AM" <==> h < 12
    ensures r == "AM" || r == "PM"
  {
    if h < 12 then "AM" else "PM"
  }

  /**
   * `strftime("%d %B %Y - %I:%M %p UTC")`. Only the wall-clock fields are
   * shown: the offset is never applied and `UTC` is a fixed suffix.
   */
  function Render(dt: DateTime): (s: string)
    requires Valid(dt)
    ensures |s| == |MonthName(dt.month)| + 23
    ensures s[|s| - 4..] == " UTC"
    ensures AllDigits(s[..2]) && ValueOf(s[..2]) == dt.day
  {
    ValueOfPad(dt.day, 2);
    PadDecimal(dt.day, 2) + " " + MonthName(dt.month) + " " + RenderTail(dt)
  }

  /** The fixed-width part after the month name: `YYYY - HH:MM AM UTC`. */
  function RenderTail(dt: DateTime): (t: string)
    requires Valid(dt)
    ensures |t| == 19
  {
    PadDecimal(dt.year, 4) + " - " + PadDecimal(Hour12(dt.hour), 2) + ":"
    + PadDecimal(dt.minute, 2) + " " + Meridiem(dt.hour) + " UTC"
  }

  /**
   * Reads a display string back into the wall-clock fields it shows. The
   * hour field must be a 12-hour `%I` value, 01 to 12.
   */
  function ReadDisplay(s: string): (r: Option<WallClock>)
    ensures r.Some? ==> 1 <= r.value.month <= 12 && r.value.hour < 24
  {
    if |s| < 23 then None
    else
      var name := s[3..|s| - 20];
      var t := s[|s| - 19..];
      if && AllDigits(s[0..2]) && s[2] == ' ' && MonthNumber(name).Some? && s[|s| - 20] == ' '
         && AllDigits(t[0..4]) && t[4..7] == " - " && AllDigits(t[7..9]) && 1 <= ValueOf(t[7..9]) <= 12
         && t[9] == ':'
         && AllDigits(t[10..12]) && t[12] == ' ' && (t[13..15] == "AM" || t[13..15] == "PM")
         && t[15..] == " UTC"
      then
        Some(WallClock(ValueOf(t[0..4]), MonthNumber(name).value, ValueOf(s[0..2]),
                       To24(ValueOf(t[7..9]), t[13..15] == "PM"), ValueOf(t[10..12])))
      else None
  }

  /** Whatever the reader accepts shows its hour as `%I` would: `00` and `13` to `99` are refused. */
  lemma ReadDisplayHour12(s: string)
    requires ReadDisplay(s).Some?
    ensures AllDigits(s[|s| - 12..|s| - 10])
    ensures ValueOf(s[|s| - 12..|s| - 10]) == Hour12(ReadDisplay(s).value.hour)
    ensures (s[|s| - 6..|s| - 4] == "PM") == (ReadDisplay(s).value.hour >= 12)
  {
    var t := s[|s| - 19..];
    assert t[7..9] == s[|s| - 12..|s| - 10];
    assert t[13..15] == s[|s| - 6..|s| - 4];
  }

  /**
   * The display string records exactly the parsed year, month, day, hour
   * and minute, unshifted by any offset.
   */
  lemma ReadRender(dt: DateTime)
    requires Valid(dt)
    ensures ReadDisplay(Render(dt)) == Some(WallOf(dt))
  {
    var name := MonthName(dt.month);
    DisplayFields(PadDecimal(dt.day, 2), name, RenderTail(dt));
    TailFields(PadDecimal(dt.year, 4), PadDecimal(Hour12(dt.hour), 2), PadDecimal(dt.minute, 2), Meridiem(dt.hour));
    MonthNumberOfName(dt.month);
    ValueOfPad(dt.day, 2);
    ValueOfPad(dt.year, 4);
    ValueOfPad(Hour12(dt.hour), 2);
    ValueOfPad(dt.minute, 2);
  }

  /** Where the day, month name and tail sit in a display string. */
  lemma DisplayFields(dd: string, name: string, t: string)
    requires |dd| == 2 && |t| == 19
    ensures var s := dd + " " + name + " " + t;
      && |s| == |name| + 23 && s[0..2] == dd && s[2] == ' '
      && s[3..|s| - 20] == name && s[|s| - 20] == ' ' && s[|s| - 19..] == t
  {
  }

  /** Where each field sits in `y - h:mi ampm UTC`. */
  lemma TailFields(y: string, h: string, mi: string, ampm: string)
    requires |y| == 4 && |h| == 2 && |mi| == 2 && |ampm| == 2
    ensures var t := y + " - " + h + ":" + mi + " " + ampm + " UTC";
      && t[0..4] == y && t[4..7] == " - " && t[7..9] == h && t[9] == ':'
      && t[10..12] == mi && t[12] == ' ' && t[13..15] == ampm && t[15..] == " UTC"
  {
  }

  // ------------------------------------------------------ the whole pipeline

  /** `raw.replace('Z', '+00:00')`. */
  function NormalizeZ(raw: string): (r: string)
    ensures 'Z' !in r
    ensures 'Z' !in raw ==> r == raw
  {
    Strings.ReplaceAll(raw, 'Z', "+00:00")
  }

  /** Every `Z`, wherever it stands, becomes `+00:00`; the text around it is rewritten independently. */
  lemma NormalizeZAround(a: string, b: string)
    ensures NormalizeZ(a + "Z" + b) == NormalizeZ(a) + "+00:00" + NormalizeZ(b)
  {
    Strings.ReplaceAllAppend(a + "Z", b, 'Z', "+00:00");
    Strings.ReplaceAllAppend(a, "Z", 'Z', "+00:00");
  }

  /** Rewrites `Z` then parses; None is the `ValueError` path. */
  function ParseTimestamp(raw: string): (r: Option<DateTime>)
    ensures r.Some? ==> Valid(r.value) && Show(r.value) == NormalizeZ(raw)
  {
    var r := Parse(NormalizeZ(raw));
    if r.Some? then ParseSound(NormalizeZ(raw)); r else r
  }

  /** The display text of a raw stored timestamp, or None when it does not parse. */
  function DisplayTimestamp(raw: string): (r: Option<string>)
    ensures r.Some? <==> ParseTimestamp(raw).Some?
    ensures r.Some? ==> ReadDisplay(r.value) == Some(WallOf(ParseTimestamp(raw).value))
  {
    match ParseTimestamp(raw)
    case None => None
    case Some(dt) => ReadRender(dt); Some(Render(dt))
  }

  /** A trailing `Z` means the same as a trailing `+00:00`. */
  lemma ZuluIsUtc(x: string)
    requires 'Z' !in x
    ensures ParseTimestamp(x + "Z") == ParseTimestamp(x + "+00:00")
  {
    Strings.ReplaceAllAppend(x, "Z", 'Z', "+00:00");
    assert Strings.ReplaceAll("Z", 'Z', "+00:00") == "+00:00";
  }

  /** The offset never reaches the display: texts differing only in offset display the same. */
  lemma DisplayIgnoresOffset(dt: DateTime, o: Option<Offset>)
    requires Valid(dt) && (o.Some? ==> ValidOffset(o.value))
    ensures DisplayTimestamp(Show(dt)) == DisplayTimestamp(Show(dt.(offset := o)))
    ensures DisplayTimestamp(Show(dt)) == Some(Render(dt))
  {
    var dt' := dt.(offset := o);
    ShowHasNoZ(dt);
    ShowHasNoZ(dt');
    ParseShow(dt);
    ParseShow(dt');
  }

  lemma ShowHasNoZ(dt: DateTime)
    requires Valid(dt)
    ensures 'Z' !in Show(dt)
  {
    DateTextHasNoZ(dt);
    DigitsHaveNoZ(dt.fraction);
    if dt.offset.Some? {
      DigitsHaveNoZ(PadDecimal(dt.offset.value.hours, 2));
      DigitsHaveNoZ(PadDecimal(dt.offset.value.minutes, 2));
    }
  }

  lemma DateTextHasNoZ(dt: DateTime)
    requires Valid(dt)
    ensures 'Z' !in DateText(dt)
  {
    DigitsHaveNoZ(PadDecimal(dt.year, 4));
    DigitsHaveNoZ(PadDecimal(dt.month, 2));
    DigitsHaveNoZ(PadDecimal(dt.day, 2));
    DigitsHaveNoZ(PadDecimal(dt.hour, 2));
    DigitsHaveNoZ(PadDecimal(dt.minute, 2));
    DigitsHaveNoZ(PadDecimal(dt.second, 2));
  }

  lemma DigitsHaveNoZ(s: string)
    requires AllDigits(s)
    ensures 'Z' !in s
  {
  }

  /** February 29 exists exactly in leap years. */
  lemma LeapDay(y: nat)
    requires 1 <= y <= 9999
    ensures Valid(DateTime(y, 2, 29, 0, 0, 0, "", None)) <==> IsLeapYear(y)
  {
  }
}
