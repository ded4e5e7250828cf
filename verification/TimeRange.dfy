/** Time-range input of the event form, and the UTC instants an event gets from it. */
module TimeRange {
  import opened Wrappers
  import opened Strings
  import opened ZonedTime

  datatype Time = Time(hour: nat, minute: nat) {
    function Minutes(): nat { hour * 60 + minute }
    predicate Valid() { hour <= 23 && minute <= 59 }
  }

  datatype Range = Range(start: Time, end: Time)

  const EN_DASH: char := '\U{2013}'

  /** One or two digits, a colon, two digits. */
  function ParseTime(s: string): (r: Option<Time>)
    ensures r.Some? ==> r.value.Valid()
  {
    var colon := |s| - 3;
    if 1 <= colon <= 2 && s[colon] == ':' && IsDigit(s[0]) && IsDigit(s[colon - 1])
       && IsDigit(s[colon + 1]) && IsDigit(s[colon + 2]) then
      var hour := if colon == 1 then DigitValue(s[0]) else 10 * DigitValue(s[0]) + DigitValue(s[1]);
      var minute := 10 * DigitValue(s[colon + 1]) + DigitValue(s[colon + 2]);
      if hour > 23 || minute > 59 then None else Some(Time(hour, minute))
    else None
  }

  /** Splits at the en dash when there is one and at the hyphen otherwise; pieces past the second
      are ignored. Only a range that ends after it starts is accepted. */
  function ParseTimeRangeInput(s: string): (r: Option<Range>)
    ensures r.Some? ==> r.value.start.Valid() && r.value.end.Valid()
    ensures r.Some? ==> r.value.start.Minutes() < r.value.end.Minutes()
  {
    var parts := MapTrim(Split(s, if EN_DASH in s then EN_DASH else '-'));
    if |parts| < 2 then None
    else
      match (ParseTime(parts[0]), ParseTime(parts[1]))
      case (Some(start), Some(end)) =>
        if end.Minutes() <= start.Minutes() then None else Some(Range(start, end))
      case _ => None
  }

  function ShowTime(t: Time): string
    requires t.Valid()
  {
    TwoDigits(t.hour) + ":" + TwoDigits(t.minute)
  }

  /** Every valid range written as HH:mm, dash, HH:mm reads back as itself, with either dash. */
  lemma TimeRangeRoundTrip(r: Range, dash: char)
    requires r.start.Valid() && r.end.Valid() && r.start.Minutes() < r.end.Minutes()
    requires dash in {EN_DASH, '-'}
    ensures ParseTimeRangeInput(ShowTime(r.start) + [dash] + ShowTime(r.end)) == Some(r)
  {
    hide ParseTime, Trim, Split, IndexOf;
    var a, b := ShowTime(r.start), ShowTime(r.end);
    var s := a + [dash] + b;
    assert s[5] == dash;
    assert dash !in a && dash !in b;
    assert EN_DASH in s <==> dash == EN_DASH;
    SplitAtFirst(a, dash, b);
    SplitWithout(b, dash);
    ShownTimeParses(r.start);
    ShownTimeParses(r.end);
  }

  lemma ShownTimeParses(t: Time)
    requires t.Valid()
    ensures ParseTime(ShowTime(t)) == Some(t)
    ensures Trimmed(ShowTime(t))
  {
    assert t.hour == 10 * (t.hour / 10) + t.hour % 10;
    assert t.minute == 10 * (t.minute / 10) + t.minute % 10;
  }

  /** The text, but for space around it, is the time with a one- or two-digit hour. */
  predicate Spells(s: string, t: Time) {
    t.Valid() && (Trim(s) == ShowTime(t) || (t.hour <= 9 && Trim(s) == [Digit(t.hour)] + ":" + TwoDigits(t.minute)))
  }

  lemma ParseTimeIff(s: string, t: Time)
    ensures ParseTime(Trim(s)) == Some(t) <==> Spells(s, t)
  {
    var w := Trim(s);
    hide Trim, Trimmed;
    if ParseTime(w) == Some(t) {
      assert t.hour / 10 == (if |w| == 5 then DigitValue(w[0]) else 0);
      if |w| == 5 {
        assert w == ShowTime(t);
      } else {
        assert w == [Digit(t.hour)] + ":" + TwoDigits(t.minute);
      }
    }
    if Spells(s, t) {
      assert t.hour == 10 * (t.hour / 10) + t.hour % 10 && t.minute == 10 * (t.minute / 10) + t.minute % 10;
    }
  }

  /** The dash that divides the text: the en dash where there is one, and else the hyphen. */
  predicate Divides(s: string, dash: char) {
    if EN_DASH in s then dash == EN_DASH else dash == '-'
  }

  /** A text reads as a range exactly when its dash divides it into spellings of the two times, in order, and
      anything after a second dash. */
  lemma RangeReadsIff(a: string, b: string, tail: string, dash: char, r: Range)
    requires dash !in a && dash !in b && (tail == "" || tail[0] == dash)
    requires Divides(a + [dash] + b + tail, dash)
    ensures ParseTimeRangeInput(a + [dash] + b + tail) == Some(r) <==>
            Spells(a, r.start) && Spells(b, r.end)
            && 60 * r.start.hour + r.start.minute < 60 * r.end.hour + r.end.minute
  {
    hide ParseTime, Trim, Split, IndexOf, Spells;
    var s := a + [dash] + b + tail;
    assert a + [dash] + (b + tail) == s;
    SplitAtFirst(a, dash, b + tail);
    if tail == "" {
      assert b + tail == b;
      SplitWithout(b, dash);
    } else {
      assert b + tail == b + [dash] + tail[1..];
      SplitAtFirst(b, dash, tail[1..]);
    }
    ParseTimeIff(a, r.start);
    ParseTimeIff(b, r.end);
  }

  /** And no text without its dash does. */
  lemma UndividedIsNoRange(s: string)
    requires EN_DASH !in s && '-' !in s
    ensures ParseTimeRangeInput(s).None?
  {
    SplitWithout(s, '-');
  }

  datatype TimeError = DateRequired | BadTimeRange | BadDateOrZone

  /** The form's range as wall-clock seconds of the day that starts at `midnight`. */
  function WallStart(s: string, midnight: int): int
    requires ParseTimeRangeInput(s).Some?
  {
    midnight + 60 * ParseTimeRangeInput(s).value.start.Minutes()
  }

  function WallEnd(s: string, midnight: int): int
    requires ParseTimeRangeInput(s).Some?
  {
    midnight + 60 * ParseTimeRangeInput(s).value.end.Minutes()
  }

  /** The instants given to an event whose form carries a new date or time: `midnight` is the date
      read as UTC when it parses. */
  function Instants(dateGiven: bool, midnight: Option<int>, timeInput: Option<string>, zone: Option<Zone>)
    : Result<(int, int), TimeError>
  {
    if !dateGiven then Err(DateRequired)
    else if timeInput.None? || ParseTimeRangeInput(timeInput.value).None? then Err(BadTimeRange)
    else if midnight.None? || zone.None? then Err(BadDateOrZone)
    else
      var range := ParseTimeRangeInput(timeInput.value).value;
      Ok((LocalToUtc(zone.value, midnight.value + 60 * range.start.Minutes()),
          LocalToUtc(zone.value, midnight.value + 60 * range.end.Minutes())))
  }

  /** Each instant shows the hour and minute asked for, on the day of that midnight, whenever the zone shows
      them at all, and the two are in order when both are shown. */
  ghost predicate Meets(z: Zone, s: string, midnight: int, at: (int, int))
    requires ParseTimeRangeInput(s).Some?
  {
    var range := ParseTimeRangeInput(s).value;
    var first := midnight + 3600 * range.start.hour + 60 * range.start.minute;
    var last := midnight + 3600 * range.end.hour + 60 * range.end.minute;
    && (Exists(z, first) <==> z.WallAt(at.0) == first)
    && (Exists(z, last) <==> z.WallAt(at.1) == last)
    && (Exists(z, first) && Exists(z, last) ==> at.0 < at.1)
  }

  /** The form's wall times are the day's midnight and the hours and minutes of the range. */
  lemma WallIs(s: string, midnight: int)
    requires ParseTimeRangeInput(s).Some?
    ensures var r := ParseTimeRangeInput(s).value;
            && WallStart(s, midnight) == midnight + 3600 * r.start.hour + 60 * r.start.minute
            && WallEnd(s, midnight) == midnight + 3600 * r.end.hour + 60 * r.end.minute
  {
    hide ParseTimeRangeInput;
  }

  lemma InstantsMeet(z: Zone, m: int, gap: int, s: string, midnight: int)
    requires WellSpaced(z, m, gap) && 2 * m <= gap && ParseTimeRangeInput(s).Some?
    ensures Meets(z, s, midnight, (LocalToUtc(z, WallStart(s, midnight)), LocalToUtc(z, WallEnd(s, midnight))))
  {
    hide LocalToUtc, WellSpaced, Zone.OffsetAt, Zone.WallAt, Exists, ParseTimeRangeInput, WallStart, WallEnd;
    WallIs(s, midnight);
    SolvedIffExists(z, m, gap, WallStart(s, midnight));
    SolvedIffExists(z, m, gap, WallEnd(s, midnight));
    if Exists(z, WallStart(s, midnight)) && Exists(z, WallEnd(s, midnight)) {
      OrderPreserved(z, m, gap, WallStart(s, midnight), WallEnd(s, midnight));
    }
  }

  method EventTimes(dateGiven: bool, midnight: Option<int>, timeInput: Option<string>, zone: Option<Zone>)
    returns (r: Result<(int, int), TimeError>)
    ensures r == Instants(dateGiven, midnight, timeInput, zone)
    ensures r.Ok? <==>
            dateGiven && timeInput.Some? && ParseTimeRangeInput(timeInput.value).Some? && midnight.Some? && zone.Some?
    ensures forall m, gap :: r.Ok? && WellSpaced(zone.value, m, gap) && 2 * m <= gap ==>
              Meets(zone.value, timeInput.value, midnight.value, r.value)
  {
    hide ParseTimeRangeInput, LocalToUtc, WellSpaced, Meets, Exists, Zone.WallAt, Zone.OffsetAt, Time.Minutes;
    if !dateGiven {
      return Err(DateRequired);
    }
    var range := if timeInput.Some? then ParseTimeRangeInput(timeInput.value) else None;
    if range.None? {
      return Err(BadTimeRange);
    }
    var startAt := ZonedTimeToUtc(midnight, 60 * range.value.start.Minutes(), zone);
    var endAt := ZonedTimeToUtc(midnight, 60 * range.value.end.Minutes(), zone);
    if startAt.None? || endAt.None? {
      return Err(BadDateOrZone);
    }
    forall m, gap | WellSpaced(zone.value, m, gap) && 2 * m <= gap
      ensures Meets(zone.value, timeInput.value, midnight.value, (startAt.value, endAt.value))
    {
      InstantsMeet(zone.value, m, gap, timeInput.value, midnight.value);
    }
    return Ok((startAt.value, endAt.value));
  }

  /** Every accepted range, skipped ends included, starts before it ends in UTC exactly when the
      wall-clock times foreseen for its two ends are in order. */
  lemma AcceptedRangeOrderedIff(s: string, midnight: int, z: Zone, m: int, gap: int)
    requires WellSpaced(z, m, gap) && 3 * m <= gap && ParseTimeRangeInput(s).Some?
    ensures LocalToUtc(z, WallStart(s, midnight)) < LocalToUtc(z, WallEnd(s, midnight)) <==>
            Landed(z, WallStart(s, midnight)) < Landed(z, WallEnd(s, midnight))
  {
    hide *;
    OrderedIffLandingsOrdered(z, m, gap, WallStart(s, midnight), WallEnd(s, midnight));
  }

  /** An accepted range whose two wall-clock times exist starts before it ends in UTC, and lasts as
      long as it reads when one offset covers both ends. */
  lemma AcceptedRangeIsOrdered(s: string, midnight: int, z: Zone, m: int, gap: int)
    requires WellSpaced(z, m, gap) && 2 * m <= gap
    requires ParseTimeRangeInput(s).Some?
    requires Exists(z, midnight + 60 * ParseTimeRangeInput(s).value.start.Minutes())
    requires Exists(z, midnight + 60 * ParseTimeRangeInput(s).value.end.Minutes())
    ensures var range := ParseTimeRangeInput(s).value;
            var start := LocalToUtc(z, midnight + 60 * range.start.Minutes());
            var end := LocalToUtc(z, midnight + 60 * range.end.Minutes());
            && start < end
            && (z.OffsetAt(start) == z.OffsetAt(end) ==>
                  end - start == 60 * (range.end.Minutes() - range.start.Minutes()))
  {
    hide *;
    var range := ParseTimeRangeInput(s).value;
    OrderPreserved(z, m, gap, midnight + 60 * range.start.Minutes(), midnight + 60 * range.end.Minutes());
  }
}
