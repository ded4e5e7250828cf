/** Normalisation of a volunteer's weekly availability and dated exceptions. */
module Availability {
  import opened Wrappers
  import opened Strings
  import opened Json

  const DEFAULT_TIMEZONE := "America/Vancouver"
  const MAX_EXCEPTIONS: nat := 10
  const MAX_PER_DATE: nat := 3

  /** What the code asks of its surroundings: which trimmed names are IANA zones, and JSON.parse. */
  datatype Env = Env(zoneKnown: string -> bool, parse: string -> Option<Json>) {
    predicate Sane() {
      zoneKnown(DEFAULT_TIMEZONE) && !zoneKnown("")
    }
  }

  // ---------- Scalars ----------

  function ZoneOf(v: Json, env: Env): Option<string> {
    if v.Str? && env.zoneKnown(Trim(v.s)) then Some(Trim(v.s)) else None
  }

  function NormalizeTimezone(v: Json, fallback: Json, env: Env): (tz: string)
    ensures env.Sane() ==> env.zoneKnown(tz)
    ensures v.Str? && Trimmed(v.s) && env.zoneKnown(v.s) ==> tz == v.s
    ensures v.Str? && env.zoneKnown(Trim(v.s)) ==> tz == Trim(v.s)
    ensures ZoneOf(v, env).None? && ZoneOf(fallback, env).Some? ==> tz == Trim(fallback.s)
    ensures ZoneOf(v, env).None? && ZoneOf(fallback, env).None? ==> tz == DEFAULT_TIMEZONE
  {
    match ZoneOf(v, env)
    case Some(tz) => tz
    case None => ZoneOf(fallback, env).GetOr(DEFAULT_TIMEZONE)
  }

  /** HH:mm on a 24-hour clock, exactly. */
  predicate IsClock(t: string) {
    && |t| == 5
    && (forall i :: i in {0, 1, 3, 4} ==> IsDigit(t[i]))
    && t[2] == ':'
    && (t[0] < '2' || (t[0] == '2' && t[1] < '4'))
    && t[3] < '6'
  }

  function ClockMinutes(t: string): nat
    requires IsClock(t)
  {
    600 * DigitValue(t[0]) + 60 * DigitValue(t[1]) + 10 * DigitValue(t[3]) + DigitValue(t[4])
  }

  function NormalizeTime(v: Json): (t: Option<string>)
    ensures t.Some? ==> IsClock(t.value) && Trimmed(t.value)
  {
    if v.Str? && IsClock(Trim(v.s)) then Some(Trim(v.s)) else None
  }

  /** JavaScript's `<` on strings. */
  predicate Less(a: string, b: string) {
    if |b| == 0 then false
    else if |a| == 0 then true
    else a[0] < b[0] || (a[0] == b[0] && Less(a[1..], b[1..]))
  }

  predicate IsDigits(s: string) {
    forall i :: 0 <= i < |s| ==> IsDigit(s[i])
  }

  function Number(s: string): nat
    requires IsDigits(s)
  {
    if s == "" then 0 else 10 * Number(s[..|s| - 1]) + DigitValue(s[|s| - 1])
  }

  function DaysInMonth(year: nat, month: nat): nat {
    if month == 2 then (if year % 4 == 0 && (year % 100 != 0 || year % 400 == 0) then 29 else 28)
    else if month in {4, 6, 9, 11} then 30
    else 31
  }

  /** YYYY-MM-DD naming a day of the calendar. */
  predicate IsDate(s: string) {
    && |s| == 10 && s[4] == '-' && s[7] == '-'
    && IsDigits(s[..4]) && IsDigits(s[5..7]) && IsDigits(s[8..])
    && 1 <= Number(s[5..7]) <= 12
    && 1 <= Number(s[8..]) <= DaysInMonth(Number(s[..4]), Number(s[5..7]))
  }

  // ---------- Weekly settings ----------

  datatype Weekly = Weekly(
    days: seq<string>,
    timeOfDay: seq<string>,
    earliest: Option<string>,
    latest: Option<string>,
    frequency: string,
    notice: string,
    timezone: string)

  datatype Problem =
    | BadJson(field: string)
    | WeeklyTimesOutOfOrder
    | TooMany | NotAnObject | BadDate | MissingTimes | TimesOutOfOrder | TooManyOnDate

  function DayTokens(): set<string> { {"mon", "tue", "wed", "thu", "fri", "sat", "sun"} }
  function DayParts(): set<string> { {"morning", "afternoon", "evening"} }
  function Frequencies(): set<string> { {"1w", "2w", "flex"} }
  function Notices(): set<string> { {"same_day", "24h", "48h"} }

  function DayToken(v: Json): (t: Option<string>)
    ensures t.Some? ==> t.value in DayTokens()
  {
    if v.Null? then None
    else
      var lower := ToLower(Trim(ToText(v)));
      var token := if |lower| <= 3 then lower else lower[..3];
      if token in DayTokens() then Some(token) else None
  }

  function DayPart(v: Json): (t: Option<string>)
    ensures t.Some? ==> t.value in DayParts()
  {
    var token := ToLower(Trim(ToText(v)));
    if token in DayParts() then Some(token) else None
  }

  function Choice(v: Json, allowed: set<string>, default: string): (r: string)
    ensures default in allowed ==> r in allowed
  {
    if !v.Null? && ToText(v) in allowed then ToText(v) else default
  }

  function NormalizeWeekly(raw: Json, fallback: Json, strict: bool, env: Env): Result<Weekly, Problem> {
    var earliest := NormalizeTime(Field(raw, "earliest_time"));
    var latest := NormalizeTime(Field(raw, "latest_time"));
    var outOfOrder := earliest.Some? && latest.Some? && !Less(earliest.value, latest.value);
    if outOfOrder && strict then Err(WeeklyTimesOutOfOrder)
    else
      Ok(Weekly(
           Distinct(Items(Field(raw, "days")), DayToken),
           Distinct(Items(Field(raw, "time_of_day")), DayPart),
           if outOfOrder then None else earliest,
           if outOfOrder then None else latest,
           Choice(Field(raw, "frequency"), Frequencies(), "flex"),
           Choice(Field(raw, "notice"), Notices(), "24h"),
           NormalizeTimezone(Field(raw, "timezone"), fallback, env)))
  }

  function WeeklyToJson(w: Weekly): Json {
    Obj(map[
      "days" := Texts(w.days),
      "time_of_day" := Texts(w.timeOfDay),
      "earliest_time" := TextOrNull(w.earliest),
      "latest_time" := TextOrNull(w.latest),
      "frequency" := Str(w.frequency),
      "notice" := Str(w.notice),
      "timezone" := Str(w.timezone)])
  }

  // ---------- Exceptions ----------

  datatype Slot = Slot(date: string, start: string, end: string, timezone: string)

  function ParseSlot(e: Json, fallback: Json, env: Env): Result<Slot, Problem> {
    if !e.Obj? then Err(NotAnObject)
    else
      var date := if Field(e, "date").Str? then Trim(Field(e, "date").s) else "";
      var start := NormalizeTime(Field(e, "start"));
      var end := NormalizeTime(Field(e, "end"));
      if !IsDate(date) then Err(BadDate)
      else if start.None? || end.None? then Err(MissingTimes)
      else if !Less(start.value, end.value) then Err(TimesOutOfOrder)
      else Ok(Slot(date, start.value, end.value, NormalizeTimezone(Field(e, "timezone"), fallback, env)))
  }

  function SlotToJson(x: Slot): Json {
    Obj(map["date" := Str(x.date), "start" := Str(x.start), "end" := Str(x.end), "timezone" := Str(x.timezone)])
  }

  function OnDate(s: seq<Slot>, date: string): nat {
    if |s| == 0 then 0 else OnDate(s[..|s| - 1], date) + if s[|s| - 1].date == date then 1 else 0
  }

  /** The entries a lenient pass keeps, before sorting: bad ones and a date's fourth are skipped. */
  function Kept(entries: seq<Json>, fallback: Json, env: Env): (r: seq<Slot>)
    ensures |r| <= |entries|
  {
    if |entries| == 0 then []
    else
      var init := Kept(entries[..|entries| - 1], fallback, env);
      match ParseSlot(entries[|entries| - 1], fallback, env)
      case Ok(x) => if OnDate(init, x.date) < MAX_PER_DATE then init + [x] else init
      case Err(_) => init
  }

  /** What a strict pass does, before sorting: the first problem in entry order stops it. */
  function Demanded(entries: seq<Json>, fallback: Json, env: Env): (r: Result<seq<Slot>, Problem>)
    ensures r.Ok? ==> |r.value| == |entries|
  {
    if |entries| == 0 then Ok([])
    else
      match Demanded(entries[..|entries| - 1], fallback, env)
      case Err(p) => Err(p)
      case Ok(init) =>
        match ParseSlot(entries[|entries| - 1], fallback, env)
        case Err(p) => Err(p)
        case Ok(x) => if OnDate(init, x.date) < MAX_PER_DATE then Ok(init + [x]) else Err(TooManyOnDate)
  }

  /** Ordered by date, then start, then end; `localeCompare` on strings of one shape. */
  predicate NotAfter(a: Slot, b: Slot) {
    if a.date != b.date then Less(a.date, b.date)
    else if a.start != b.start then Less(a.start, b.start)
    else !Less(b.end, a.end)
  }

  /** The stable sort of Array.prototype.sort. */
  function Sort(s: seq<Slot>): (r: seq<Slot>)
    ensures |r| == |s|
  {
    if |s| == 0 then [] else Place(Sort(s[..|s| - 1]), s[|s| - 1])
  }

  /** x after everything in s that is not after it. */
  function Place(s: seq<Slot>, x: Slot): (r: seq<Slot>)
    ensures |r| == |s| + 1
  {
    if |s| == 0 || NotAfter(s[|s| - 1], x) then s + [x]
    else Place(s[..|s| - 1], x) + [s[|s| - 1]]
  }

  function Lenient(raw: Json, fallback: Json, env: Env): seq<Slot> {
    var source := Items(raw);
    Sort(Kept(if |source| <= MAX_EXCEPTIONS then source else source[..MAX_EXCEPTIONS], fallback, env))
  }

  function Strict(raw: Json, fallback: Json, env: Env): Result<seq<Slot>, Problem> {
    var source := Items(raw);
    if |source| > MAX_EXCEPTIONS then Err(TooMany)
    else
      match Demanded(source, fallback, env)
      case Ok(s) => Ok(Sort(s))
      case Err(p) => Err(p)
  }

  /** What one more entry does to the outcome so far, in either mode. */
  function Outcome(strict: bool, entries: seq<Json>, fallback: Json, env: Env): Result<seq<Slot>, Problem> {
    if strict then Demanded(entries, fallback, env) else Ok(Kept(entries, fallback, env))
  }

  lemma OutcomeOfNext(strict: bool, list: seq<Json>, i: nat, fallback: Json, env: Env)
    requires i < |list| && Outcome(strict, list[..i], fallback, env).Ok?
    ensures var before := Outcome(strict, list[..i], fallback, env).value;
            Outcome(strict, list[..i + 1], fallback, env) ==
            match ParseSlot(list[i], fallback, env)
            case Ok(x) =>
              if OnDate(before, x.date) < MAX_PER_DATE then Ok(before + [x])
              else if strict then Err(TooManyOnDate) else Ok(before)
            case Err(p) => if strict then Err(p) else Ok(before)
  {
    hide ParseSlot, OnDate;
    assert list[..i + 1][..i] == list[..i];
  }

  /** The counter map holds each date's number of entries so far. */
  ghost predicate Counted(counts: map<string, nat>, s: seq<Slot>) {
    forall d :: OnDate(s, d) == if d in counts then counts[d] else 0
  }

  lemma CountedNext(counts: map<string, nat>, s: seq<Slot>, x: Slot)
    requires Counted(counts, s)
    ensures Counted(counts[x.date := OnDate(s, x.date) + 1], s + [x])
  {
    assert (s + [x])[..|s|] == s;
  }

  /** The normalising loop, one pass with a per-date counter, in either mode. */
  method NormalizeExceptions(raw: Json, fallback: Json, strict: bool, env: Env) returns (r: Result<seq<Slot>, Problem>)
    ensures r == if strict then Strict(raw, fallback, env) else Ok(Lenient(raw, fallback, env))
  {
    hide ParseSlot, Sort, Kept, Demanded, OnDate, Counted, Outcome, Strict, Lenient, Items;
    var source := Items(raw);
    if strict && |source| > MAX_EXCEPTIONS {
      TooManyIsRefused(raw, fallback, env);
      return Err(TooMany);
    }
    var list := if strict || |source| <= MAX_EXCEPTIONS then source else source[..MAX_EXCEPTIONS];
    var perDateCounts: map<string, nat> := map[];
    var normalized: seq<Slot> := [];
    var i := 0;
    NothingYet(strict, list, fallback, env);
    while i < |list|
      invariant 0 <= i <= |list|
      invariant |normalized| <= i
      invariant Counted(perDateCounts, normalized)
      invariant Outcome(strict, list[..i], fallback, env) == Ok(normalized)
    {
      OutcomeOfNext(strict, list, i, fallback, env);
      var entry := ParseSlot(list[i], fallback, env);
      if entry.Err? {
        if strict {
          StopsWith(raw, i + 1, fallback, env);
          return Err(entry.error);
        }
      } else {
        var date := entry.value.date;
        var nextForDate := (if date in perDateCounts then perDateCounts[date] else 0) + 1;
        CountIs(perDateCounts, normalized, date);
        if nextForDate > MAX_PER_DATE {
          if strict {
            StopsWith(raw, i + 1, fallback, env);
            return Err(TooManyOnDate);
          }
        } else {
          CountedNext(perDateCounts, normalized, entry.value);
          perDateCounts := perDateCounts[date := nextForDate];
          normalized := normalized + [entry.value];
          if !strict && |normalized| >= MAX_EXCEPTIONS {
            i := i + 1;
            break;
          }
        }
      }
      i := i + 1;
    }
    assert list[..i] == list;
    EndsWith(raw, strict, list, normalized, fallback, env);
    return Ok(Sort(normalized));
  }

  lemma TooManyIsRefused(raw: Json, fallback: Json, env: Env)
    requires |Items(raw)| > MAX_EXCEPTIONS
    ensures Strict(raw, fallback, env) == Err(TooMany)
  {
  }

  lemma StopsWith(raw: Json, n: nat, fallback: Json, env: Env)
    requires n <= |Items(raw)| <= MAX_EXCEPTIONS && Outcome(true, Items(raw)[..n], fallback, env).Err?
    ensures Strict(raw, fallback, env) == Err(Outcome(true, Items(raw)[..n], fallback, env).error)
  {
    hide ParseSlot, Demanded;
    FirstProblemStops(Items(raw), n, fallback, env);
  }

  lemma EndsWith(raw: Json, strict: bool, list: seq<Json>, normalized: seq<Slot>, fallback: Json, env: Env)
    requires strict ==> |Items(raw)| <= MAX_EXCEPTIONS
    requires list == if strict || |Items(raw)| <= MAX_EXCEPTIONS then Items(raw) else Items(raw)[..MAX_EXCEPTIONS]
    requires Outcome(strict, list, fallback, env) == Ok(normalized)
    ensures if strict then Strict(raw, fallback, env) == Ok(Sort(normalized))
            else Lenient(raw, fallback, env) == Sort(normalized)
  {
    hide ParseSlot, Demanded, Kept, Sort;
  }

  lemma NothingYet(strict: bool, list: seq<Json>, fallback: Json, env: Env)
    ensures Counted(map[], [])
    ensures Outcome(strict, list[..0], fallback, env) == Ok([])
  {
  }

  lemma CountIs(counts: map<string, nat>, s: seq<Slot>, date: string)
    requires Counted(counts, s)
    ensures OnDate(s, date) == if date in counts then counts[date] else 0
  {
  }

  lemma {:induction false} FirstProblemStops(list: seq<Json>, n: nat, fallback: Json, env: Env)
    requires n <= |list| && Demanded(list[..n], fallback, env).Err?
    ensures Demanded(list, fallback, env) == Demanded(list[..n], fallback, env)
    decreases |list| - n
  {
    hide ParseSlot, OnDate;
    if n == |list| {
      assert list[..n] == list;
    } else {
      assert list[..n + 1][..n] == list[..n];
      FirstProblemStops(list, n + 1, fallback, env);
    }
  }
}
