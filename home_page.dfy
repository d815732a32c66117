/**
 * The course-entry form: its fixed Monday-to-Friday day list, the day
 * checkbox handler and the two conversions between `HH:MM` text and
 * minutes since midnight.
 */
module HomePage {
  import opened Wrappers
  import opened Seqs
  import opened Text
  import opened Weekdays

  /** The form offers the five working days, in week order. */
  const FormDays: seq<string> := ["Monday", "Tuesday", "Wednesday", "Thursday", "Friday"]

  /** Every form day is a schema day, and none is offered twice. */
  lemma FormDaysAreSchemaDays()
    ensures forall d :: d in FormDays ==> d in SchemaDayNames && Parse(d).Some?
    ensures NoDuplicates(FormDays)
  {
  }

  /**
   * `handleDayChange`: ticking a box appends its day at the end; clearing
   * it removes every occurrence of the day and keeps the others in order.
   */
  function ToggleDay(days: seq<string>, day: string, checked: bool): (r: seq<string>)
    ensures checked ==> r == days + [day]
    ensures !checked ==> day !in r && IsSubsequence(r, days)
    ensures !checked ==> forall d :: d != day ==> multiset(r)[d] == multiset(days)[d]
  {
    if checked then days + [day]
    else
      FilterFacts(days, (d: string) => d != day);
      Filter(days, (d: string) => d != day)
  }

  /** Ticking a day that was not selected and then clearing it gives back the original list. */
  lemma {:induction false} CheckThenUncheck(days: seq<string>, day: string)
    requires day !in days
    ensures ToggleDay(ToggleDay(days, day, true), day, false) == days
  {
    FilterSnoc(days, day, (d: string) => d != day);
    FilterKeepsAll(days, (d: string) => d != day);
  }

  /**
   * `timeToMinutes`: the empty string is 0; otherwise the text is split at
   * ':' and the first two pieces are read as hours and minutes. A missing
   * or unreadable piece makes the result `NaN` (None).
   */
  function TimeToMinutes(timeString: string): (r: Option<int>)
    ensures timeString == "" ==> r == Some(0)
    ensures r.Some? ==> 0 <= r.value
  {
    if timeString == "" then Some(0) else HoursAndMinutes(Split(timeString, ':'))
  }

  /** `const [hours, minutes] = parts.map(Number); return hours * 60 + minutes`. */
  function HoursAndMinutes(parts: seq<string>): (r: Option<int>)
    requires 1 <= |parts|
    ensures r.Some? ==> 0 <= r.value
  {
    var hours := NumberOf(parts[0]);
    var minutes := if |parts| >= 2 then NumberOf(parts[1]) else None;
    if hours.Some? && minutes.Some? then Some(hours.value * 60 + minutes.value) else None
  }

  /** `minutesToTime`: "00:00" for 0, otherwise zero-padded hours and minutes around a colon. */
  function MinutesToTime(minutes: int): string
  {
    if minutes == 0 then "00:00"
    else PadStart2(IntToString(minutes / 60)) + ":" + PadStart2(IntToString(JsRem(minutes, 60)))
  }

  /** Digit text on each side of one colon reads as hours times 60 plus minutes. */
  lemma {:induction false} TimeToMinutesDigits(hh: string, mm: string)
    requires IsDigits(hh) && IsDigits(mm)
    ensures TimeToMinutes(hh + ":" + mm) == Some(DigitsValue(hh) * 60 + DigitsValue(mm))
  {
    assert ':' !in hh && ':' !in mm by {
      assert !IsDigit(':');
    }
    var s := hh + ":" + mm;
    assert s == hh + [':'] + mm;
    assert s[|hh|] == ':';
    SplitPair(hh, ':', mm);
    var parts := Split(s, ':');
    assert parts == [hh, mm];
    assert s != "";
    HoursAndMinutesOfNumbers(hh, mm, DigitsValue(hh), DigitsValue(mm));
    TimeOfParts(s, hh, mm);
  }

  lemma TimeOfParts(s: string, hh: string, mm: string)
    requires s != "" && Split(s, ':') == [hh, mm]
    ensures TimeToMinutes(s) == HoursAndMinutes([hh, mm])
  {
  }

  lemma HoursAndMinutesOfNumbers(hh: string, mm: string, h: nat, m: nat)
    requires NumberOf(hh) == Some(h) && NumberOf(mm) == Some(m)
    ensures HoursAndMinutes([hh, mm]) == Some(h * 60 + m)
  {
  }

  /**
   * Below 100 hours the text is five characters, two digits for the hours,
   * a colon and two digits for the minutes.
   */
  lemma {:induction false} MinutesToTimeShape(m: int)
    requires 0 <= m < 6000
    ensures var r := MinutesToTime(m);
            |r| == 5 && r[2] == ':' && IsDigits(r[..2]) && IsDigits(r[3..])
            && DigitsValue(r[..2]) == m / 60 && DigitsValue(r[3..]) == m % 60
  {
    PadStart2Digits(m / 60);
    PadStart2Digits(m % 60);
    var r := MinutesToTime(m);
    var hh, mm := PadStart2(NatToString(m / 60)), PadStart2(NatToString(m % 60));
    if m == 0 {
      assert NatToString(0) == "0";
      assert hh == "00" && mm == "00";
    }
    assert r == hh + ":" + mm;
    assert r[..2] == hh && r[3..] == mm;
  }

  /** Minutes written out and read back are the same minutes. */
  lemma {:induction false} MinutesRoundTrip(m: int)
    requires 0 <= m < 6000
    ensures TimeToMinutes(MinutesToTime(m)) == Some(m)
  {
    MinutesToTimeShape(m);
    var r := MinutesToTime(m);
    assert r == r[..2] + ":" + r[3..];
    TimeToMinutesDigits(r[..2], r[3..]);
  }

  /**
   * `HH:MM` text with minutes below 60 reads as hours times 60 plus
   * minutes, and those minutes are written back as the same text.
   */
  lemma {:induction false} TextRoundTrip(hh: string, mm: string)
    requires |hh| == 2 && |mm| == 2 && IsDigits(hh) && IsDigits(mm) && DigitsValue(mm) < 60
    ensures TimeToMinutes(hh + ":" + mm) == Some(DigitsValue(hh) * 60 + DigitsValue(mm))
    ensures MinutesToTime(DigitsValue(hh) * 60 + DigitsValue(mm)) == hh + ":" + mm
  {
    TimeToMinutesDigits(hh, mm);
    PadStart2OfValue(hh);
    PadStart2OfValue(mm);
    ClockText(DigitsValue(hh), DigitsValue(mm));
  }

  /** Whole hours and minutes below 60 are written as the padded hours, a colon and the padded minutes. */
  lemma ClockText(h: nat, mi: nat)
    requires mi < 60
    ensures MinutesToTime(h * 60 + mi) == PadStart2(NatToString(h)) + ":" + PadStart2(NatToString(mi))
  {
    ClockOfMinutes(h, mi);
    if h == 0 && mi == 0 {
      assert NatToString(0) == "0";
    } else {
      assert IntToString(h) == NatToString(h);
      assert IntToString(mi) == NatToString(mi);
    }
  }

  lemma ClockOfMinutes(h: nat, mi: nat)
    requires mi < 60
    ensures (h * 60 + mi) / 60 == h && JsRem(h * 60 + mi, 60) == mi
    ensures h * 60 + mi == 0 <==> h == 0 && mi == 0
  {
  }
}
