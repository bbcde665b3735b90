/** express_server/utils.js: the time-of-day helpers, zero padding and timestamp ids.
    The current date is not read here: every id generator takes its date fields as input. */
module Utils {
  import opened JsValues
  import opened JsNumbers

  // ---------------------------------------------------------------------------
  // isValidTime: /^([0]?[1-9]|1[0-2]):([0-5]\d)\s(AM|PM)$/i

  /** `AM` or `PM` in any letter case. */
  predicate IsMeridiem(m: string) {
    && |m| == 2
    && (m[0] == 'a' || m[0] == 'A' || m[0] == 'p' || m[0] == 'P')
    && (m[1] == 'm' || m[1] == 'M')
  }

  /** `[0]?[1-9]|1[0-2]` */
  predicate IsHourText(h: string) {
    || (|h| == 1 && '1' <= h[0] <= '9')
    || (|h| == 2 && h[0] == '0' && '1' <= h[1] <= '9')
    || (|h| == 2 && h[0] == '1' && '0' <= h[1] <= '2')
  }

  /** `[0-5]\d` */
  predicate IsMinuteText(m: string) {
    |m| == 2 && '0' <= m[0] <= '5' && IsDecimalDigit(m[1])
  }

  /** The whole pattern, with an hour field of `k` characters. */
  predicate TimeShape(s: string, k: nat) {
    && 1 <= k <= 2
    && |s| == k + 6
    && IsHourText(s[..k])
    && s[k] == ':'
    && IsMinuteText(s[k + 1..k + 3])
    && IsJsWhitespace(s[k + 3])
    && IsMeridiem(s[k + 4..])
  }

  /** utils.js `isValidTime`: the anchored, case-insensitive 12-hour clock pattern. */
  predicate IsValidTime(s: string) {
    TimeShape(s, 1) || TimeShape(s, 2)
  }

  /** A time of day as the pattern admits it: the hour 1..12, possibly written with a
      leading 0, two-digit minutes, one white-space character and the meridiem as typed. */
  datatype ClockTime = ClockTime(hour: nat, minute: nat, zeroPadded: bool, gap: char, meridiem: string)

  predicate ValidClock(t: ClockTime) {
    && 1 <= t.hour <= 12
    && t.minute <= 59
    && (t.zeroPadded ==> t.hour <= 9)
    && IsJsWhitespace(t.gap)
    && IsMeridiem(t.meridiem)
  }

  function HourText(t: ClockTime): string {
    if t.zeroPadded then "0" + DecimalText(t.hour) else DecimalText(t.hour)
  }

  /** How the time is written. */
  function FormatClock(t: ClockTime): string {
    HourText(t) + ":" + PadZeros(DecimalText(t.minute), 2) + [t.gap] + t.meridiem
  }

  /** The pattern in terms of its four fields. */
  lemma ShapeOfFields(h: string, m: string, gap: char, mer: string)
    requires IsHourText(h) && IsMinuteText(m) && IsJsWhitespace(gap) && IsMeridiem(mer)
    ensures IsValidTime(h + ":" + m + [gap] + mer)
  {
    var s := h + ":" + m + [gap] + mer;
    var k := |h|;
    assert s[..k] == h;
    assert s[k + 1..k + 3] == m;
    assert s[k + 4..] == mer;
    assert TimeShape(s, k);
  }

  lemma FieldsOfShape(s: string, k: nat)
    requires TimeShape(s, k)
    ensures s == s[..k] + ":" + s[k + 1..k + 3] + [s[k + 3]] + s[k + 4..]
  {
  }

  lemma HourTextShape(t: ClockTime)
    requires ValidClock(t)
    ensures IsHourText(HourText(t))
  {
    if t.hour < 10 {
      assert DecimalText(t.hour) == [DigitChar(t.hour)];
    } else {
      assert DecimalText(t.hour) == DecimalText(1) + [DigitChar(t.hour % 10)];
    }
  }

  /** Every well-formed clock time is accepted. */
  lemma FormatClockIsValid(t: ClockTime)
    requires ValidClock(t)
    ensures IsValidTime(FormatClock(t))
  {
    TwoDigitText(t.minute);
    HourTextShape(t);
    ShapeOfFields(HourText(t), PadZeros(DecimalText(t.minute), 2), t.gap, t.meridiem);
  }

  /** The clock time a valid string spells. */
  function ReadClock(s: string): (t: ClockTime)
    requires IsValidTime(s)
    ensures ValidClock(t) && FormatClock(t) == s
  {
    var k := if TimeShape(s, 1) then 1 else 2;
    ClockOfShapeSound(s, k);
    ClockOfShape(s, k)
  }

  /** The fields of a string laid out with an hour field of `k` characters. */
  function ClockOfShape(s: string, k: nat): ClockTime
    requires TimeShape(s, k)
  {
    var zeroPadded := k == 2 && s[0] == '0';
    var hourDigits := if zeroPadded then s[1..2] else s[..k];
    ClockTime(Value(hourDigits, 10), Value(s[k + 1..k + 3], 10), zeroPadded, s[k + 3], s[k + 4..])
  }

  lemma ClockOfShapeHour(s: string, k: nat)
    requires TimeShape(s, k)
    ensures var t := ClockOfShape(s, k);
      1 <= t.hour <= 12 && (t.zeroPadded ==> t.hour <= 9) && HourText(t) == s[..k]
  {
    var h := s[..k];
    if k == 2 && s[0] == '0' {
      assert h == "0" + s[1..2];
      ReadHour(s[1..2]);
    } else {
      ReadHour(h);
    }
  }

  lemma ClockOfShapeSound(s: string, k: nat)
    requires TimeShape(s, k)
    ensures ValidClock(ClockOfShape(s, k)) && FormatClock(ClockOfShape(s, k)) == s
  {
    var t := ClockOfShape(s, k);
    var h, m := s[..k], s[k + 1..k + 3];
    ClockOfShapeHour(s, k);
    ReadMinute(m);
    assert t.minute == Value(m, 10) && t.gap == s[k + 3] && t.meridiem == s[k + 4..];
    FieldsOfShape(s, k);
    assert FormatClock(t) == h + ":" + m + [s[k + 3]] + s[k + 4..];
  }

  lemma ReadMinute(m: string)
    requires IsMinuteText(m)
    ensures Value(m, 10) <= 59 && PadZeros(DecimalText(Value(m, 10)), 2) == m
  {
    assert m == [m[0], m[1]];
    TwoDigitValue(m[0], m[1]);
    TwoDigitsRoundTrip(m);
  }

  lemma ReadHour(h: string)
    requires IsHourText(h) && (|h| == 2 ==> h[0] == '1')
    ensures 1 <= Value(h, 10) <= 12
    ensures |h| == 1 ==> Value(h, 10) <= 9
    ensures DecimalText(Value(h, 10)) == h
  {
    if |h| == 1 {
      assert h == [h[0]];
      OneDigit(h[0]);
    } else {
      assert h == [h[0], h[1]];
      TwoDigits(h[0], h[1]);
    }
  }

  /** `isValidTime` accepts exactly the written forms of well-formed clock times. */
  lemma ValidTimeCharacterised(s: string)
    ensures IsValidTime(s) <==> exists t :: ValidClock(t) && FormatClock(t) == s
  {
    if IsValidTime(s) {
      var t := ReadClock(s);
      assert ValidClock(t) && FormatClock(t) == s;
    }
    if exists t :: ValidClock(t) && FormatClock(t) == s {
      var t :| ValidClock(t) && FormatClock(t) == s;
      FormatClockIsValid(t);
    }
  }

  /** Strings the pattern rejects: no white space before the meridiem, no meridiem,
      hour 0 or 13, minute 60. */
  lemma IsValidTimeExamples()
    ensures IsValidTime("9:00 AM") && IsValidTime("09:00 pm") && IsValidTime("12:30 AM")
    ensures !IsValidTime("9:00am") && !IsValidTime("9:00")
    ensures !IsValidTime("13:00 AM") && !IsValidTime("0:00 AM") && !IsValidTime("00:30 PM")
    ensures !IsValidTime("9:60 AM")
  {
    assert TimeShape("9:00 AM", 1);
    assert TimeShape("09:00 pm", 2);
    assert TimeShape("12:30 AM", 2);
    assert !TimeShape("13:00 AM", 2) by { assert "13:00 AM"[..2] == "13"; }
    assert !TimeShape("00:30 PM", 2) by { assert "00:30 PM"[..2] == "00"; }
    assert !TimeShape("9:60 AM", 1) by { assert "9:60 AM"[2..4] == "60"; }
  }

  // ---------------------------------------------------------------------------
  // to24HourFormat

  /** `s.split(':')[0]`: everything before the first colon. */
  function BeforeColon(s: string): (r: string)
    ensures ':' !in r
  {
    if s == [] || s[0] == ':' then [] else [s[0]] + BeforeColon(s[1..])
  }

  /** `s.slice(-2)` */
  function LastTwo(s: string): string {
    if |s| >= 2 then s[|s| - 2..] else s
  }

  /** `p.toLowerCase() === 'pm'`; only `P` and `M` lower-case to `p` and `m`. */
  predicate IsPmText(p: string) {
    |p| == 2 && (p[0] == 'p' || p[0] == 'P') && (p[1] == 'm' || p[1] == 'M')
  }

  /** utils.js `to24HourFormat`: the hour field read by `parseInt`; 12 stays 12 whatever the
      meridiem, otherwise 12 is added when the last two characters spell "pm". None is NaN. */
  function To24HourFormat(time: string): Option<int> {
    match ParseInt(BeforeColon(time))
    case None => None
    case Some(hour) =>
      Some(if hour == 12 then 12 else if IsPmText(LastTwo(time)) then hour + 12 else hour)
  }

  lemma {:induction false} BeforeColonOf(a: string, b: string)
    requires ':' !in a
    ensures BeforeColon(a + ":" + b) == a
  {
    if a != [] {
      assert (a + ":" + b)[1..] == a[1..] + ":" + b;
      BeforeColonOf(a[1..], b);
    }
  }

  /** On a string laid out as the pattern demands, the hour field is what precedes the
      colon and the meridiem is what `slice(-2)` takes. */
  lemma PartsOfFields(h: string, m: string, gap: char, mer: string)
    requires IsHourText(h) && |m| == 2 && IsMeridiem(mer)
    ensures BeforeColon(h + ":" + m + [gap] + mer) == h
    ensures LastTwo(h + ":" + m + [gap] + mer) == mer
  {
    var s := h + ":" + m + [gap] + mer;
    assert s == h + ":" + (m + [gap] + mer);
    BeforeColonOf(h, m + [gap] + mer);
    assert s[|s| - 2..] == mer;
  }

  lemma ClockParts(t: ClockTime)
    requires ValidClock(t)
    ensures BeforeColon(FormatClock(t)) == HourText(t)
    ensures LastTwo(FormatClock(t)) == t.meridiem
  {
    TwoDigitText(t.minute);
    HourTextShape(t);
    PartsOfFields(HourText(t), PadZeros(DecimalText(t.minute), 2), t.gap, t.meridiem);
  }

  lemma To24HourOfParts(s: string, hour: int)
    requires ParseInt(BeforeColon(s)) == Some(hour)
    ensures To24HourFormat(s)
         == Some(if hour == 12 then 12 else if IsPmText(LastTwo(s)) then hour + 12 else hour)
  {
  }

  /** `parseInt` reads the hour field of a clock time as its hour. */
  lemma ParseHourText(t: ClockTime)
    requires ValidClock(t)
    ensures ParseInt(HourText(t)) == Some(t.hour)
  {
    DecimalRoundTrip(t.hour);
    if t.zeroPadded {
      LeadingZeroValue(DecimalText(t.hour));
      assert AllDigits("0" + DecimalText(t.hour));
    }
    ParseIntOfDigits(HourText(t));
  }

  /** On a well-formed clock time: 12 maps to 12 for AM and PM alike, hours 1..11 gain 12
      exactly when the meridiem is PM, and the result lies in 1..23. */
  lemma To24HourOfClock(t: ClockTime)
    requires ValidClock(t)
    ensures To24HourFormat(FormatClock(t))
         == Some(if t.hour == 12 then 12 else if IsPmText(t.meridiem) then t.hour + 12 else t.hour)
  {
    ClockParts(t);
    ParseHourText(t);
    To24HourOfParts(FormatClock(t), t.hour);
  }

  /** For every string `isValidTime` accepts, `to24HourFormat` gives an hour in 1..23,
      and 12 exactly when the hour field is 12. */
  lemma To24HourOfValidTime(s: string)
    requires IsValidTime(s)
    ensures To24HourFormat(s).Some?
    ensures 1 <= To24HourFormat(s).value <= 23
    ensures To24HourFormat(s).value == 12 <==> ReadClock(s).hour == 12
  {
    To24HourOfClock(ReadClock(s));
  }

  /** A time written `h:mm meridiem` with one space converts by the same rule. */
  lemma To24HourOfText(h: string, m: string, mer: string, hour: int)
    requires IsHourText(h) && |m| == 2 && IsMeridiem(mer) && ParseInt(h) == Some(hour)
    ensures To24HourFormat(h + ":" + m + " " + mer)
         == Some(if hour == 12 then 12 else if IsPmText(mer) then hour + 12 else hour)
  {
    assert h + ":" + m + " " + mer == h + ":" + m + [' '] + mer;
    PartsOfFields(h, m, ' ', mer);
    To24HourOfParts(h + ":" + m + " " + mer, hour);
  }

  // ---------------------------------------------------------------------------
  // zeroPadding

  /** `s` with '0's prepended, one at a time, until it is `width` characters long. */
  function PadZeros(s: string, width: nat): (r: string)
    ensures |r| == if |s| >= width then |s| else width
    decreases width - |s|
  {
    if |s| >= width then s else PadZeros("0" + s, width)
  }

  /** Padding only prepends, and only '0's. */
  lemma {:induction false} PadZerosShape(s: string, width: nat)
    ensures var r := PadZeros(s, width);
      && r[|r| - |s|..] == s
      && forall i :: 0 <= i < |r| - |s| ==> r[i] == '0'
    decreases width - |s|
  {
    if |s| < width {
      PadZerosShape("0" + s, width);
      var r := PadZeros(s, width);
      assert r[|r| - |s|..] == r[|r| - |s| - 1..][1..];
    }
  }

  /** The width `zeroPadding` pads to: 3 for type "ms", 2 otherwise (including no type). */
  function PadWidth(kind: Option<string>): nat {
    if kind == Some("ms") then 3 else 2
  }

  /** utils.js `zeroPadding(value, type)` (and its copies in the patient, service and
      specialization schemas): the decimal text of `value`, left-padded with '0'. */
  method ZeroPadding(value: nat, kind: Option<string>) returns (strValue: string)
    ensures strValue == PadZeros(DecimalText(value), PadWidth(kind))
  {
    strValue := DecimalText(value);
    if kind == Some("ms") {
      while |strValue| < 3
        invariant PadZeros(strValue, 3) == PadZeros(DecimalText(value), 3)
        decreases 3 - |strValue|
      {
        strValue := "0" + strValue;
      }
    } else {
      while |strValue| < 2
        invariant PadZeros(strValue, 2) == PadZeros(DecimalText(value), 2)
        decreases 2 - |strValue|
      {
        strValue := "0" + strValue;
      }
    }
  }

  /** A string already at the target width is left alone, so padding is idempotent. */
  lemma PadZerosIdempotent(s: string, width: nat)
    ensures |s| >= width ==> PadZeros(s, width) == s
    ensures PadZeros(PadZeros(s, width), width) == PadZeros(s, width)
  {
  }

  /** Padding a digit string with zeros keeps its value. */
  lemma {:induction false} PadZerosValue(s: string, width: nat)
    requires AllDigits(s)
    ensures AllDigits(PadZeros(s, width))
    ensures Value(PadZeros(s, width), 10) == Value(s, 10)
    decreases width - |s|
  {
    if |s| < width {
      assert AllDigits("0" + s) by {
        assert forall i :: 1 <= i < |"0" + s| ==> ("0" + s)[i] == s[i - 1];
      }
      PadZerosValue("0" + s, width);
      LeadingZeroValue(s);
    }
  }

  /** A number below 100 padded to two places: its tens digit, then its units digit. */
  lemma TwoDigitText(m: nat)
    requires m < 100
    ensures PadZeros(DecimalText(m), 2) == [DigitChar(m / 10), DigitChar(m % 10)]
  {
    if m >= 10 {
      assert DecimalText(m) == DecimalText(m / 10) + [DigitChar(m % 10)];
    }
  }

  lemma TwoDigitsRoundTrip(w: string)
    requires |w| == 2 && AllDigits(w)
    ensures Value(w, 10) < 100
    ensures PadZeros(DecimalText(Value(w, 10)), 2) == w
  {
    assert w == [w[0], w[1]];
    if w[0] == '0' {
      assert w == ['0'] + [w[1]];
      LeadingZeroValue([w[1]]);
      OneDigit(w[1]);
    } else {
      TwoDigits(w[0], w[1]);
    }
  }

  // ---------------------------------------------------------------------------
  // generateId

  /** The fields `new Date()` is read through: getFullYear, getMonth (0..11), getDate,
      getHours, getMinutes, getSeconds and getMilliseconds. */
  datatype DateFields = DateFields(
    year: nat, monthIndex: nat, date: nat,
    hours: nat, minutes: nat, seconds: nat, milliseconds: nat)

  predicate ValidDate(d: DateFields) {
    && d.monthIndex <= 11 && 1 <= d.date <= 31
    && d.hours <= 23 && d.minutes <= 59 && d.seconds <= 59 && d.milliseconds <= 999
  }

  /** `zeroPadding(v)` called without a type, as every id generator does for every field. */
  function Padded(v: nat): string {
    PadZeros(DecimalText(v), PadWidth(None))
  }

  lemma DigitsConcat(a: string, b: string)
    requires AllDigits(a) && AllDigits(b)
    ensures AllDigits(a + b)
  {
    assert forall i :: |a| <= i < |a + b| ==> (a + b)[i] == b[i - |a|];
  }

  /** The digits after the underscore: year, month (getMonth() + 1), day, hour, minute,
      second, millisecond; all but the year padded to two places, the milliseconds too. */
  function IdSuffix(d: DateFields): string {
    DateDigits(d) + Padded(d.milliseconds)
  }

  /** The suffix up to and including the seconds. */
  function DateDigits(d: DateFields): string {
    DecimalText(d.year) + Padded(d.monthIndex + 1) + Padded(d.date) + Padded(d.hours)
      + Padded(d.minutes) + Padded(d.seconds)
  }

  /** The suffix is made of decimal digits only. */
  lemma IdSuffixDigits(d: DateFields)
    ensures AllDigits(IdSuffix(d))
  {
    var y := DecimalText(d.year);
    var p1, p2, p3 := Padded(d.monthIndex + 1), Padded(d.date), Padded(d.hours);
    var p4, p5, p6 := Padded(d.minutes), Padded(d.seconds), Padded(d.milliseconds);
    PaddedDigits(d.monthIndex + 1);
    PaddedDigits(d.date);
    PaddedDigits(d.hours);
    PaddedDigits(d.minutes);
    PaddedDigits(d.seconds);
    PaddedDigits(d.milliseconds);
    DigitsConcat(y, p1);
    DigitsConcat(y + p1, p2);
    DigitsConcat(y + p1 + p2, p3);
    DigitsConcat(y + p1 + p2 + p3, p4);
    DigitsConcat(y + p1 + p2 + p3 + p4, p5);
    DigitsConcat(y + p1 + p2 + p3 + p4 + p5, p6);
    assert IdSuffix(d) == y + p1 + p2 + p3 + p4 + p5 + p6;
  }

  lemma PaddedDigits(v: nat)
    ensures AllDigits(Padded(v))
  {
    PadZerosValue(DecimalText(v), 2);
  }

  /** utils.js `generateId(initial)` for the date fields read when it runs. */
  function GenerateId(initial: string, d: DateFields): string {
    initial + "_" + IdSuffix(d)
  }

  /** An id is the initial, an underscore, then nothing but digits. */
  lemma GenerateIdShape(initial: string, d: DateFields)
    ensures var id := GenerateId(initial, d);
      && |id| > |initial| + 1 && id[..|initial| + 1] == initial + "_"
      && AllDigits(id[|initial| + 1..])
  {
    IdSuffixDigits(d);
    assert GenerateId(initial, d)[|initial| + 1..] == IdSuffix(d);
  }

  lemma PaddedShape(v: nat)
    ensures AllDigits(Padded(v)) && Value(Padded(v), 10) == v
    ensures v < 100 ==> |Padded(v)| == 2
    ensures 100 <= v < 1000 ==> |Padded(v)| == 3
  {
    PadZerosValue(DecimalText(v), 2);
    DecimalRoundTrip(v);
    DecimalTextLength(v, 2);
    if v >= 100 {
      DecimalTextLength(v, 3);
    }
  }

  /** Every padded field has at least two characters. */
  lemma PaddedAtLeastTwo(v: nat)
    ensures |Padded(v)| >= 2
  {
  }

  lemma PaddedLength(v: nat)
    requires v < 1000
    ensures |Padded(v)| == if v < 100 then 2 else 3
  {
    DecimalTextLength(v, 2);
    DecimalTextLength(v, 3);
  }

  lemma YearLength(y: nat)
    requires 1000 <= y <= 9999
    ensures |DecimalText(y)| == 4
  {
    DecimalTextLength(y, 4);
    DecimalTextLength(y, 3);
  }

  /** With a four-digit year the suffix has 16 digits when the milliseconds are below 100
      and 17 otherwise: the millisecond field is padded to two places, not three. */
  lemma IdSuffixLength(d: DateFields)
    requires ValidDate(d) && 1000 <= d.year <= 9999
    ensures |IdSuffix(d)| == if d.milliseconds < 100 then 16 else 17
  {
    var y := DecimalText(d.year);
    var p1, p2, p3 := Padded(d.monthIndex + 1), Padded(d.date), Padded(d.hours);
    var p4, p5, p6 := Padded(d.minutes), Padded(d.seconds), Padded(d.milliseconds);
    YearLength(d.year);
    PaddedLength(d.monthIndex + 1);
    PaddedLength(d.date);
    PaddedLength(d.hours);
    PaddedLength(d.minutes);
    PaddedLength(d.seconds);
    PaddedLength(d.milliseconds);
    assert |IdSuffix(d)| == |y| + |p1| + |p2| + |p3| + |p4| + |p5| + |p6|;
  }

  /** Reads the date fields back from a suffix with a four-digit year: the fields before
      the milliseconds have fixed width, and the milliseconds take what remains. */
  function DecodeIdSuffix(s: string): Option<DateFields> {
    if (|s| == 16 || |s| == 17) && AllDigits(s) && Value(s[4..6], 10) >= 1 then
      Some(DateFields(Value(s[..4], 10), Value(s[4..6], 10) - 1, Value(s[6..8], 10),
                      Value(s[8..10], 10), Value(s[10..12], 10), Value(s[12..14], 10),
                      Value(s[14..], 10)))
    else None
  }

  /** Where each field lies in a suffix whose year has four digits. */
  lemma SuffixFields(y: string, p1: string, p2: string, p3: string, p4: string, p5: string,
                     p6: string)
    requires |y| == 4 && |p1| == 2 && |p2| == 2 && |p3| == 2 && |p4| == 2 && |p5| == 2
    ensures var s := y + p1 + p2 + p3 + p4 + p5 + p6;
      && s[..4] == y && s[4..6] == p1 && s[6..8] == p2 && s[8..10] == p3
      && s[10..12] == p4 && s[12..14] == p5 && s[14..] == p6
  {
  }

  lemma DecodeFields(s: string, d: DateFields)
    requires (|s| == 16 || |s| == 17) && AllDigits(s)
    requires Value(s[..4], 10) == d.year && Value(s[4..6], 10) == d.monthIndex + 1
    requires Value(s[6..8], 10) == d.date && Value(s[8..10], 10) == d.hours
    requires Value(s[10..12], 10) == d.minutes && Value(s[12..14], 10) == d.seconds
    requires Value(s[14..], 10) == d.milliseconds
    ensures DecodeIdSuffix(s) == Some(d)
  {
  }

  lemma PaddedValue(v: nat)
    ensures AllDigits(Padded(v)) && Value(Padded(v), 10) == v
  {
    PaddedShape(v);
  }

  /** Although the suffix has no fixed width, it still determines the date: decoding the
      suffix of a valid date with a four-digit year gives the date back. */
  lemma IdSuffixRoundTrip(d: DateFields)
    requires ValidDate(d) && 1000 <= d.year <= 9999
    ensures DecodeIdSuffix(IdSuffix(d)) == Some(d)
  {
    var y := DecimalText(d.year);
    var p1, p2, p3 := Padded(d.monthIndex + 1), Padded(d.date), Padded(d.hours);
    var p4, p5, p6 := Padded(d.minutes), Padded(d.seconds), Padded(d.milliseconds);
    var s := IdSuffix(d);
    assert s == y + p1 + p2 + p3 + p4 + p5 + p6;
    IdSuffixLength(d);
    IdSuffixDigits(d);
    YearLength(d.year);
    PaddedLength(d.monthIndex + 1);
    PaddedLength(d.date);
    PaddedLength(d.hours);
    PaddedLength(d.minutes);
    PaddedLength(d.seconds);
    SuffixFields(y, p1, p2, p3, p4, p5, p6);
    DecimalRoundTrip(d.year);
    PaddedValue(d.monthIndex + 1);
    PaddedValue(d.date);
    PaddedValue(d.hours);
    PaddedValue(d.minutes);
    PaddedValue(d.seconds);
    PaddedValue(d.milliseconds);
    DecodeFields(s, d);
  }

  /** JavaScript `a < b` on strings: lexicographic order of the characters. */
  predicate StringLess(a: string, b: string) {
    if a == [] then b != []
    else if b == [] then false
    else if a[0] != b[0] then a[0] < b[0]
    else StringLess(a[1..], b[1..])
  }

  lemma {:induction false} StringLessCommonPrefix(p: string, a: string, b: string)
    ensures StringLess(p + a, p + b) == StringLess(a, b)
  {
    if p != [] {
      assert (p + a)[0] == p[0] == (p + b)[0];
      assert (p + a)[1..] == p[1..] + a;
      assert (p + b)[1..] == p[1..] + b;
      StringLessCommonPrefix(p[1..], a, b);
    } else {
      assert p + a == a && p + b == b;
    }
  }

  lemma DecimalHundred()
    ensures DecimalText(100) == "100"
  {
    assert DecimalText(10) == "10";
  }

  lemma PaddedAroundHundred()
    ensures Padded(99) == "99" && Padded(100) == "100"
  {
    TwoDigitText(99);
    DecimalHundred();
  }

  lemma IdLayout(initial: string, d: DateFields)
    ensures GenerateId(initial, d) == (initial + "_" + DateDigits(d)) + Padded(d.milliseconds)
  {
  }

  /** Ids do not sort in time order: the id taken one millisecond after x.099 compares
      below the id taken at x.099, because "100" < "99" as strings. */
  lemma IdsNotChronological(initial: string, d: DateFields)
    requires ValidDate(d) && d.milliseconds == 99
    ensures StringLess(GenerateId(initial, d.(milliseconds := 100)),
                       GenerateId(initial, d))
  {
    var later := d.(milliseconds := 100);
    var p := initial + "_" + DateDigits(d);
    assert DateDigits(later) == DateDigits(d);
    IdLayout(initial, d);
    IdLayout(initial, later);
    PaddedAroundHundred();
    assert StringLess("100", "99");
    StringLessCommonPrefix(p, "100", "99");
  }
}
