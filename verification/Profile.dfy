/** Loading, parsing and saving the availability part of a volunteer's profile. */
module Profile {
  import opened Wrappers
  import opened Strings
  import opened Json
  import opened Availability
  import opened AvailabilityModes

  /** The three stored columns; jsonb columns arrive parsed, SQL NULL as Null. */
  datatype Row = Row(weekly: Json, exceptions: Json, timezone: Json)

  datatype State = State(weekly: Weekly, exceptions: seq<Slot>, timezone: string)

  /** The form fields the availability code reads. */
  datatype Body = Body(timezone: Json, availabilityTimezone: Json, weeklyJson: Json, exceptionsJson: Json)

  datatype Response = NotFound | BadLocation | BadAvailability(problem: Problem) | NotPersisted | Saved

  function SafeParse(v: Json, fallback: Json, env: Env): Json {
    match v
    case Str(s) => if s == "" then fallback else env.parse(s).GetOr(fallback)
    case Arr(_) => v
    case Obj(_) => v
    case _ => fallback
  }

  function Load(row: Row, env: Env): State {
    var parsedWeekly := SafeParse(row.weekly, Obj(map[]), env);
    var inner := if parsedWeekly.Obj? then Field(parsedWeekly, "timezone") else Str(DEFAULT_TIMEZONE);
    var timezone := NormalizeTimezone(row.timezone, inner, env);
    var weekly := NormalizeWeekly(parsedWeekly, Str(timezone), false, env).value;
    var exceptions := Lenient(SafeParse(row.exceptions, Arr([]), env), Str(weekly.timezone), env);
    State(weekly, exceptions, weekly.timezone)
  }

  /** JavaScript's `a || b`. */
  function Or(a: Json, b: Json): Json {
    match a
    case Null => b
    case Bool(v) => if v then a else b
    case Num(text) => if text == "0" then b else a
    case Str(s) => if s == "" then b else a
    case _ => a
  }

  /** The zone parseLocationFromRequestBody settles on. */
  function LocationTimezone(body: Body, row: Row, env: Env): string {
    NormalizeTimezone(Or(body.timezone, body.availabilityTimezone),
                      Str(NormalizeTimezone(row.timezone, Str(DEFAULT_TIMEZONE), env)), env)
  }

  /** The zone a submit asks for, or else the one that was loaded. */
  function Requested(body: Body, existing: State, env: Env): string {
    NormalizeTimezone(Or(body.timezone, body.availabilityTimezone), Str(existing.timezone), env)
  }

  /** A submitted JSON field: absent when blank, refused when it does not parse. */
  function Submitted(field: Json, name: string, existing: Json, env: Env): Result<Json, Problem> {
    if field.Str? && Trim(field.s) != "" then
      match env.parse(field.s)
      case Some(j) => Ok(j)
      case None => Err(BadJson(name))
    else Ok(existing)
  }

  function ParseBody(body: Body, row: Row, env: Env): Result<State, Problem> {
    var existing := Load(row, env);
    var requested := Requested(body, existing, env);
    match Submitted(body.weeklyJson, "availability_weekly_json", WeeklyToJson(existing.weekly), env)
    case Err(p) => Err(p)
    case Ok(weeklyRaw) =>
      match NormalizeWeekly(weeklyRaw, Str(requested), true, env)
      case Err(p) => Err(p)
      case Ok(weekly) =>
        match Submitted(body.exceptionsJson, "availability_exceptions_json", ToJson(existing.exceptions), env)
        case Err(p) => Err(p)
        case Ok(exceptionsRaw) =>
          match Strict(exceptionsRaw, Str(weekly.timezone), env)
          case Err(p) => Err(p)
          case Ok(exceptions) => Ok(State(weekly, exceptions, weekly.timezone))
  }

  /** The columns a save writes: the timezone column takes the location's zone. */
  function Stored(state: State, timezone: string): Row {
    Row(WeeklyToJson(state.weekly), ToJson(state.exceptions), Str(timezone))
  }

  /** The controller overrides the body's zone with the one the location settled on. */
  function Located(body: Body, timezone: string): Body {
    body.(timezone := Str(timezone))
  }

  /** What JavaScript takes as no value. */
  predicate Falsy(j: Json) {
    j in {Null, Bool(false), Num("0"), Str("")}
  }

  class Profiles {
    var rows: map<nat, Row>

    constructor ()
      ensures rows == map[]
    {
      rows := map[];
    }

    /**
     * locationOk stands for the coordinate, radius and travel mode checks. The row is read in one query
     * and written in another: `meanwhile` is the table as other requests leave it before the write, and
     * the table itself for an uninterrupted save.
     */
    method PostPreferences(id: nat, body: Body, locationOk: bool, env: Env, meanwhile: map<nat, Row>)
      returns (r: Response)
      modifies this
      ensures r.NotFound? <==> id !in old(rows)
      ensures r.BadLocation? <==> id in old(rows) && !locationOk
      ensures r.NotPersisted? ==> id !in meanwhile && rows == meanwhile
      ensures r.Saved? ==>
                var tz := LocationTimezone(body, old(rows)[id], env);
                var parsed := ParseBody(Located(body, tz), old(rows)[id], env);
                id in meanwhile && parsed.Ok? && rows == meanwhile[id := Stored(parsed.value, tz)]
      ensures r.BadAvailability? ==>
                var tz := LocationTimezone(body, old(rows)[id], env);
                ParseBody(Located(body, tz), old(rows)[id], env) == Err(r.problem)
      ensures !r.Saved? && !r.NotPersisted? ==> rows == old(rows)
      ensures env.Sane() && r.Saved? ==>
                var tz := LocationTimezone(body, old(rows)[id], env);
                Load(rows[id], env) == ParseBody(Located(body, tz), old(rows)[id], env).value
      ensures env.Sane() && id in old(rows) && locationOk && Blank(body.weeklyJson) && Blank(body.exceptionsJson)
              && id in meanwhile ==>
                r.Saved? && Load(rows[id], env) == Load(old(rows)[id], env)
      ensures env.Sane() && id in old(rows) && locationOk && id in meanwhile ==>
                forall st :: NormalState(st, env) && Posts(body, st, env) ==> r.Saved? && Load(rows[id], env) == st
      ensures env.Sane() && id in old(rows) && locationOk && id in meanwhile ==>
                forall st :: NormalState(st, env) && Texted(body.weeklyJson, WeeklyToJson(st.weekly), env)
                             && Blank(body.exceptionsJson) ==>
                  r.Saved? && Load(rows[id], env)
                              == State(st.weekly, Load(old(rows)[id], env).exceptions, st.weekly.timezone)
      ensures env.Sane() && id in old(rows) && locationOk && id in meanwhile ==>
                forall st :: NormalState(st, env) && Texted(body.exceptionsJson, ToJson(st.exceptions), env)
                             && Blank(body.weeklyJson) ==>
                  var was := Load(old(rows)[id], env);
                  r.Saved? && Load(rows[id], env) == State(was.weekly, st.exceptions, was.timezone)
      ensures env.Sane() && r.Saved? && body.timezone.Str? && env.zoneKnown(Trim(body.timezone.s)) ==>
                rows[id].timezone == Str(Trim(body.timezone.s))
      ensures env.Sane() && r.Saved? && Falsy(body.timezone) && body.availabilityTimezone.Str?
              && env.zoneKnown(Trim(body.availabilityTimezone.s)) ==>
                rows[id].timezone == Str(Trim(body.availabilityTimezone.s))
      ensures env.Sane() && r.Saved? && Falsy(body.timezone) && Falsy(body.availabilityTimezone)
              && old(rows)[id].timezone.Str? && env.zoneKnown(Trim(old(rows)[id].timezone.s)) ==>
                rows[id].timezone == Str(Trim(old(rows)[id].timezone.s))
    {
      hide ParseBody, LocationTimezone, Stored, Load, Blank, NormalState, Texted;
      if id !in rows {
        return NotFound;
      }
      if !locationOk {
        return BadLocation;
      }
      var timezone := LocationTimezone(body, rows[id], env);
      var availability := ParseBody(Located(body, timezone), rows[id], env);
      if env.Sane() && Blank(body.weeklyJson) && Blank(body.exceptionsJson) {
        BlankSubmitKeeps(Located(body, timezone), rows[id], env);
      }
      if env.Sane() {
        PostsAreParsed(Located(body, timezone), rows[id], env);
        ZoneIsPosted(body, rows[id], env);
        if availability.Ok? {
          SavedLoadsBack(Located(body, timezone), rows[id], timezone, env);
          StoredZone(availability.value, timezone);
        }
      }
      if availability.Err? {
        return BadAvailability(availability.error);
      }
      rows := meanwhile;
      if id !in rows {
        return NotPersisted;
      }
      rows := rows[id := Stored(availability.value, timezone)];
      return Saved;
    }
  }

  /**
   * A save without availability JSON puts back the settings it read. So it leaves what loads alone exactly
   * when no other save changed it between this one's read and write.
   */
  lemma BlankSaveKeepsIff(body: Body, read: Row, meanwhile: Row, timezone: string, env: Env)
    requires env.Sane() && Blank(body.weeklyJson) && Blank(body.exceptionsJson)
    ensures ParseBody(body, read, env).Ok?
    ensures var after := Stored(ParseBody(body, read, env).value, timezone);
            && Load(after, env) == Load(read, env)
            && (Load(after, env) == Load(meanwhile, env) <==> Load(meanwhile, env) == Load(read, env))
  {
    hide ParseBody, Load, Stored, Blank;
    BlankSubmitKeeps(body, read, env);
    SavedLoadsBack(body, read, timezone, env);
  }

  /** Settings with this one day and nothing else. */
  function OnDay(day: string): State {
    State(Weekly([day], [], None, None, "flex", "24h", DEFAULT_TIMEZONE), [], DEFAULT_TIMEZONE)
  }

  lemma OnDayLoads(day: string, env: Env)
    requires env.Sane() && day in DayTokens()
    ensures Load(Stored(OnDay(day), DEFAULT_TIMEZONE), env) == OnDay(day)
  {
    hide Load, Stored;
    assert Trimmed(DEFAULT_TIMEZONE);
    NormalLoadsBack(OnDay(day), DEFAULT_TIMEZONE, env);
  }

  /** Someone's day moves from one to another while a blank save is between read and write: it moves back. */
  lemma BlankSaveUndoes(body: Body, timezone: string, day: string, moved: string, env: Env)
    returns (read: Row, meanwhile: Row)
    requires env.Sane() && Blank(body.weeklyJson) && Blank(body.exceptionsJson)
    requires day in DayTokens() && moved in DayTokens()
    ensures Load(read, env).weekly.days == [day] && Load(meanwhile, env).weekly.days == [moved]
    ensures ParseBody(body, read, env).Ok?
    ensures Load(Stored(ParseBody(body, read, env).value, timezone), env).weekly.days == [day]
  {
    hide ParseBody, Load, Stored, Blank;
    read, meanwhile := Stored(OnDay(day), DEFAULT_TIMEZONE), Stored(OnDay(moved), DEFAULT_TIMEZONE);
    OnDayLoads(day, env);
    OnDayLoads(moved, env);
    BlankSaveKeepsIff(body, read, meanwhile, timezone, env);
  }

  // ---------- What is posted is what is saved ----------

  /** The form field is text that parses to j. */
  predicate Texted(field: Json, j: Json, env: Env) {
    field.Str? && Trim(field.s) != "" && env.parse(field.s) == Some(j)
  }

  /** The two form fields hold these settings. */
  predicate Posts(body: Body, st: State, env: Env) {
    Texted(body.weeklyJson, WeeklyToJson(st.weekly), env) && Texted(body.exceptionsJson, ToJson(st.exceptions), env)
  }

  /** Whatever row is stored, posting normal settings gives exactly them; posting one half replaces that half. */
  lemma PostsAreParsed(body: Body, row: Row, env: Env)
    requires env.Sane()
    ensures forall st :: NormalState(st, env) && Posts(body, st, env) ==> ParseBody(body, row, env) == Ok(st)
    ensures forall st :: NormalState(st, env) && Texted(body.weeklyJson, WeeklyToJson(st.weekly), env)
                         && Blank(body.exceptionsJson) ==>
              ParseBody(body, row, env) == Ok(State(st.weekly, Load(row, env).exceptions, st.weekly.timezone))
    ensures forall st :: NormalState(st, env) && Texted(body.exceptionsJson, ToJson(st.exceptions), env)
                         && Blank(body.weeklyJson) ==>
              ParseBody(body, row, env) == Ok(State(Load(row, env).weekly, st.exceptions, Load(row, env).timezone))
  {
    hide NormalState, Load, ParseBody, Blank, Texted;
    LoadedIsNormal(row, env);
    var was := Load(row, env);
    forall st | NormalState(st, env) && Posts(body, st, env) ensures ParseBody(body, row, env) == Ok(st) {
      ParsesTo(body, row, st, env);
    }
    forall st | NormalState(st, env) && Texted(body.weeklyJson, WeeklyToJson(st.weekly), env)
                && Blank(body.exceptionsJson)
      ensures ParseBody(body, row, env) == Ok(State(st.weekly, was.exceptions, st.weekly.timezone))
    {
      Recombined(st, was, env);
      ParsesTo(body, row, State(st.weekly, was.exceptions, st.weekly.timezone), env);
    }
    forall st | NormalState(st, env) && Texted(body.exceptionsJson, ToJson(st.exceptions), env)
                && Blank(body.weeklyJson)
      ensures ParseBody(body, row, env) == Ok(State(was.weekly, st.exceptions, was.timezone))
    {
      Recombined(was, st, env);
      ParsesTo(body, row, State(was.weekly, st.exceptions, was.timezone), env);
    }
  }

  /** One state's weekly settings and another's exceptions are normal together. */
  lemma Recombined(a: State, b: State, env: Env)
    requires NormalState(a, env) && NormalState(b, env)
    ensures a.timezone == a.weekly.timezone && NormalState(State(a.weekly, b.exceptions, a.weekly.timezone), env)
  {
    hide NormalWeekly, Normal;
  }

  /** Each half is posted, or blank and as it was loaded. */
  lemma ParsesTo(body: Body, row: Row, st: State, env: Env)
    requires NormalState(st, env)
    requires Texted(body.weeklyJson, WeeklyToJson(st.weekly), env)
             || (Blank(body.weeklyJson) && st.weekly == Load(row, env).weekly)
    requires Texted(body.exceptionsJson, ToJson(st.exceptions), env)
             || (Blank(body.exceptionsJson) && st.exceptions == Load(row, env).exceptions)
    ensures ParseBody(body, row, env) == Ok(st)
  {
    hide NormalizeWeekly, Strict, Lenient, NormalWeekly, Normal, NormalizeTimezone, Load, WeeklyToJson, ToJson;
    hide Or, Trim;
    var requested := Requested(body, Load(row, env), env);
    NormalWeeklyIsFixed(st.weekly, Str(requested), true, env);
    NormalIsFixed(st.exceptions, Str(st.weekly.timezone), env);
  }

  lemma StoredZone(state: State, timezone: string)
    ensures Stored(state, timezone).timezone == Str(timezone)
  {
  }

  /** The stored zone is the form's, where it is known: its own field first, then the availability's, then the row's. */
  lemma ZoneIsPosted(body: Body, row: Row, env: Env)
    requires env.Sane()
    ensures body.timezone.Str? && env.zoneKnown(Trim(body.timezone.s)) ==>
              LocationTimezone(body, row, env) == Trim(body.timezone.s)
    ensures Falsy(body.timezone) && body.availabilityTimezone.Str?
            && env.zoneKnown(Trim(body.availabilityTimezone.s)) ==>
              LocationTimezone(body, row, env) == Trim(body.availabilityTimezone.s)
    ensures !Falsy(body.timezone) && !body.timezone.Str? && row.timezone.Str? && env.zoneKnown(Trim(row.timezone.s)) ==>
              LocationTimezone(body, row, env) == Trim(row.timezone.s)
    ensures Falsy(body.timezone) && Falsy(body.availabilityTimezone) && row.timezone.Str?
            && env.zoneKnown(Trim(row.timezone.s)) ==>
              LocationTimezone(body, row, env) == Trim(row.timezone.s)
  {
    hide Trim, NormalizeTimezone;
    assert Trim("") == "";
    var kept := NormalizeTimezone(row.timezone, Str(DEFAULT_TIMEZONE), env);
    assert Trimmed(kept) && env.zoneKnown(kept) by { ZoneIsTrimmed(row.timezone, Str(DEFAULT_TIMEZONE), env); }
  }

  // ---------- What loads ----------

  /** A column that holds JSON as text loads as the JSON it holds. */
  lemma TextColumnsLoad(row: Row, weekly: string, exceptions: string, env: Env)
    requires weekly != "" && env.parse(weekly) == Some(row.weekly) && (row.weekly.Obj? || row.weekly.Arr?)
    requires exceptions != "" && env.parse(exceptions) == Some(row.exceptions)
    requires row.exceptions.Obj? || row.exceptions.Arr?
    ensures Load(row.(weekly := Str(weekly)), env) == Load(row, env)
    ensures Load(row.(exceptions := Str(exceptions)), env) == Load(row, env)
  {
    hide NormalizeWeekly, Lenient, NormalizeTimezone;
  }

  /** Text that is no JSON loads as a column that was never set. */
  lemma DamagedTextLoads(row: Row, text: string, env: Env)
    requires text == "" || env.parse(text).None?
    ensures Load(row.(weekly := Str(text)), env) == Load(row.(weekly := Null), env)
    ensures Load(row.(exceptions := Str(text)), env) == Load(row.(exceptions := Null), env)
    ensures Load(row.(exceptions := Null), env).exceptions == []
  {
    hide NormalizeWeekly, NormalizeTimezone;
  }

  /** A row loads with the zone of its weekly settings, where that is known, else its own, else the default. */
  lemma LoadedZone(row: Row, env: Env)
    requires !row.weekly.Str?
    ensures Load(row, env).timezone == (var inner := Field(row.weekly, "timezone");
                                        if inner.Str? && env.zoneKnown(Trim(inner.s)) then Trim(inner.s)
                                        else if row.timezone.Str? && env.zoneKnown(Trim(row.timezone.s))
                                             then Trim(row.timezone.s)
                                        else "America/Vancouver")
  {
    hide Trim, Distinct, NormalizeTime, Choice, Lenient, Less;
    var parsed := SafeParse(row.weekly, Obj(map[]), env);
    assert Field(parsed, "timezone") == Field(row.weekly, "timezone");
  }

  ghost predicate NormalState(s: State, env: Env) {
    NormalWeekly(s.weekly, env) && Normal(s.exceptions, env) && s.timezone == s.weekly.timezone
  }

  /** Any row at all, however damaged, loads as a normal state. */
  lemma LoadedIsNormal(row: Row, env: Env)
    requires env.Sane()
    ensures NormalState(Load(row, env), env)
  {
    hide NormalizeWeekly, Lenient, NormalWeekly, Normal, NormalizeTimezone, SafeParse;
    var parsedWeekly := SafeParse(row.weekly, Obj(map[]), env);
    var inner := if parsedWeekly.Obj? then Field(parsedWeekly, "timezone") else Str(DEFAULT_TIMEZONE);
    var timezone := NormalizeTimezone(row.timezone, inner, env);
    LenientWeeklyIsOk(parsedWeekly, Str(timezone), env);
    WeeklyIsNormal(parsedWeekly, Str(timezone), false, env);
    var weekly := NormalizeWeekly(parsedWeekly, Str(timezone), false, env).value;
    LenientIsNormal(SafeParse(row.exceptions, Arr([]), env), Str(weekly.timezone), env);
  }

  lemma LenientWeeklyIsOk(raw: Json, fallback: Json, env: Env)
    ensures NormalizeWeekly(raw, fallback, false, env).Ok?
  {
    hide Distinct, DayToken, DayPart, NormalizeTime, NormalizeTimezone, Less, Choice;
  }

  lemma ParsedIsNormal(body: Body, row: Row, env: Env)
    requires env.Sane() && ParseBody(body, row, env).Ok?
    ensures NormalState(ParseBody(body, row, env).value, env)
  {
    hide NormalizeWeekly, Strict, Lenient, NormalWeekly, Normal, NormalizeTimezone, Load, Submitted;
    hide WeeklyToJson, ToJson, Or;
    var existing := Load(row, env);
    var requested := Requested(body, existing, env);
    var weeklyRaw := Submitted(body.weeklyJson, "availability_weekly_json", WeeklyToJson(existing.weekly), env).value;
    WeeklyIsNormal(weeklyRaw, Str(requested), true, env);
    var weekly := NormalizeWeekly(weeklyRaw, Str(requested), true, env).value;
    var raw := Submitted(body.exceptionsJson, "availability_exceptions_json", ToJson(existing.exceptions), env).value;
    StrictImpliesLenient(raw, Str(weekly.timezone), env);
    LenientIsNormal(raw, Str(weekly.timezone), env);
  }

  // ---------- Round trips ----------

  /** A normal state loads back exactly, whatever zone the timezone column holds. */
  lemma NormalLoadsBack(state: State, timezone: string, env: Env)
    requires NormalState(state, env)
    ensures Load(Stored(state, timezone), env) == state
  {
    hide NormalizeWeekly, Lenient, NormalWeekly, Normal, NormalizeTimezone;
    var row := Stored(state, timezone);
    assert SafeParse(row.weekly, Obj(map[]), env) == row.weekly;
    assert SafeParse(row.exceptions, Arr([]), env) == row.exceptions;
    var tz := NormalizeTimezone(row.timezone, Field(row.weekly, "timezone"), env);
    NormalWeeklyIsFixed(state.weekly, Str(tz), false, env);
    NormalIsFixed(state.exceptions, Str(state.weekly.timezone), env);
  }

  /** What postPreferences stores loads back as exactly what it parsed. */
  lemma SavedLoadsBack(body: Body, row: Row, timezone: string, env: Env)
    requires env.Sane() && ParseBody(body, row, env).Ok?
    ensures Load(Stored(ParseBody(body, row, env).value, timezone), env) == ParseBody(body, row, env).value
  {
    hide ParseBody, Load, NormalState;
    ParsedIsNormal(body, row, env);
    NormalLoadsBack(ParseBody(body, row, env).value, timezone, env);
  }

  predicate Blank(field: Json) {
    !(field.Str? && Trim(field.s) != "")
  }

  /** A submit without availability JSON is never refused and changes none of the availability. */
  lemma BlankSubmitKeeps(body: Body, row: Row, env: Env)
    requires env.Sane() && Blank(body.weeklyJson) && Blank(body.exceptionsJson)
    ensures ParseBody(body, row, env) == Ok(Load(row, env))
  {
    hide NormalizeWeekly, Strict, Lenient, NormalWeekly, Normal, NormalizeTimezone, Load, WeeklyToJson, ToJson;
    hide Or, Trim;
    var existing := Load(row, env);
    LoadedIsNormal(row, env);
    var requested := Requested(body, existing, env);
    NormalWeeklyIsFixed(existing.weekly, Str(requested), true, env);
    NormalIsFixed(existing.exceptions, Str(existing.weekly.timezone), env);
  }

  /** Posting back the loaded settings as JSON text stores them unchanged too. */
  lemma EchoedSubmitKeeps(body: Body, row: Row, env: Env)
    requires env.Sane() && body.weeklyJson.Str? && body.exceptionsJson.Str?
    requires env.parse(body.weeklyJson.s) == Some(WeeklyToJson(Load(row, env).weekly))
    requires env.parse(body.exceptionsJson.s) == Some(ToJson(Load(row, env).exceptions))
    ensures ParseBody(body, row, env) == Ok(Load(row, env))
  {
    hide NormalizeWeekly, Strict, Lenient, NormalWeekly, Normal, NormalizeTimezone, Load, WeeklyToJson, ToJson;
    hide Or, Trim;
    var existing := Load(row, env);
    LoadedIsNormal(row, env);
    var requested := Requested(body, existing, env);
    NormalWeeklyIsFixed(existing.weekly, Str(requested), true, env);
    NormalIsFixed(existing.exceptions, Str(existing.weekly.timezone), env);
  }

  /** A save is refused exactly for text that does not parse, or settings strict mode refuses. */
  lemma RefusedIff(body: Body, row: Row, env: Env)
    ensures var existing := Load(row, env);
            var requested := Requested(body, existing, env);
            var w := Submitted(body.weeklyJson, "availability_weekly_json", WeeklyToJson(existing.weekly), env);
            var x := Submitted(body.exceptionsJson, "availability_exceptions_json", ToJson(existing.exceptions), env);
            ParseBody(body, row, env).Ok? <==>
            (w.Ok? && x.Ok? && InOrder(w.value)
            && var tz := Str(NormalizeTimezone(Field(w.value, "timezone"), Str(requested), env));
               |Items(x.value)| <= MAX_EXCEPTIONS
               && AllParse(Items(x.value), tz, env) && FewOffered(Items(x.value), tz, env))
  {
    hide Strict, Load, NormalizeTimezone, Submitted, WeeklyToJson, ToJson, Or, AllParse, FewOffered;
    hide NormalizeTime, ClockMinutes;
    hide NormalizeWeekly, Items;
    var existing := Load(row, env);
    var requested := Requested(body, existing, env);
    var w := Submitted(body.weeklyJson, "availability_weekly_json", WeeklyToJson(existing.weekly), env);
    var x := Submitted(body.exceptionsJson, "availability_exceptions_json", ToJson(existing.exceptions), env);
    if w.Ok? {
      WeeklyStrictVersusLenient(w.value, Str(requested), env);
      WeeklyZone(w.value, Str(requested), env);
      if x.Ok? {
        StrictAcceptsIff(x.value, Str(NormalizeTimezone(Field(w.value, "timezone"), Str(requested), env)), env);
      }
    }
  }

  /** The weekly times, where both are valid, are in clock order. */
  predicate InOrder(weekly: Json) {
    var e, l := NormalizeTime(Field(weekly, "earliest_time")), NormalizeTime(Field(weekly, "latest_time"));
    e.Some? && l.Some? ==> ClockMinutes(e.value) < ClockMinutes(l.value)
  }

  lemma WeeklyZone(raw: Json, fallback: Json, env: Env)
    ensures var w := NormalizeWeekly(raw, fallback, true, env);
            w.Ok? ==> w.value.timezone == NormalizeTimezone(Field(raw, "timezone"), fallback, env)
  {
    hide Distinct, DayToken, DayPart, NormalizeTime, NormalizeTimezone, Less, Choice;
  }
}
