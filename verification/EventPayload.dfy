/** What the event form's fields become: the normalised payload of a create or an update. */
module EventPayload {
  import opened Wrappers
  import opened Strings
  import opened Json
  import opened ZonedTime
  import opened TimeRange

  const DEFAULT_SLUG := "general"
  const DEFAULT_TZ := "America/Vancouver"
  const LOCATION_PARTS: nat := 3

  /** Number(value) where finite, JSON.parse, Object.values, the date parser and the zone data. */
  datatype Env = Env(
    number: Json -> Option<real>,
    parse: string -> Option<Json>,
    values: map<string, Json> -> seq<Json>,
    midnight: string -> Option<int>,
    zone: string -> Option<Zone>)

  /** The stored columns; an absent one is None. */
  datatype Row = Row(
    title: Option<string>, category: Option<string>, startAt: Option<int>, endAt: Option<int>, tz: Option<string>,
    location: Option<string>, org: Option<string>, community: Option<string>, causeTags: Option<seq<string>>,
    requirements: Option<string>, verification: Option<string>, credits: Option<real>, reliability: Option<real>,
    visibility: Option<string>, capacity: Option<real>, waitlist: Option<bool>, cover: Option<string>,
    description: Option<string>, rewardPool: Option<real>, slug: Option<string>, attendance: Json,
    safety: Option<string>, project: Option<string>)

  const BLANK := Row(None, None, None, None, None, None, None, None, None, None, None, None,
                     None, None, None, None, None, None, None, None, Null, None, None)

  datatype Payload = Payload(
    title: string, category: string, startAt: Option<int>, endAt: Option<int>, tz: string,
    location: string, org: string, community: Option<string>, causeTags: seq<string>,
    requirements: Option<string>, verification: string, credits: real, reliability: real,
    visibility: string, capacity: Option<real>, waitlist: bool, cover: Option<string>,
    description: Option<string>, rewardPool: real, slug: string, attendance: seq<string>,
    safety: Option<string>, project: Option<string>)

  datatype Invalid =
    | TitleRequired | LocationRequired | BadCapacity | OrgRequired | TagRequired | BadSlug
    | MethodRequired | BadTime(error: TimeError) | TimesRequired

  // ---------- Field normalisers ----------

  /** `body.name ?? base` for a text column. */
  function Pick(body: Json, name: string, base: Option<string>): Json {
    if Field(body, name).Null? then TextOrNull(base) else Field(body, name)
  }

  function Sanitize(v: Json): (s: string)
    ensures Trimmed(s)
  {
    if v.Str? then Trim(v.s) else ""
  }

  function Optional(s: string): Option<string> {
    if s == "" then None else Some(s)
  }

  function Take(parts: seq<string>, n: nat): seq<string> {
    if |parts| <= n then parts else parts[..n]
  }

  /** At most three comma-separated parts, trimmed, blank ones dropped. */
  function TruncateLocation(v: Json): string {
    Join(Take(NonEmpty(MapTrim(Split(Sanitize(v), ','))), LOCATION_PARTS), ", ")
  }

  function StringItems(items: seq<Json>): seq<string> {
    seq(|items|, i requires 0 <= i < |items| => Sanitize(items[i]))
  }

  function CauseTags(v: Json): seq<string> {
    match v
    case Arr(items) => NonEmpty(StringItems(items))
    case Str(s) => NonEmpty(MapTrim(Split(s, ',')))
    case _ => []
  }

  /** `body.cause_tags ?? base.cause_tags`. */
  function TagInput(body: Json, base: Row): Json {
    if !Field(body, "cause_tags").Null? then Field(body, "cause_tags")
    else if base.causeTags.Some? then Texts(base.causeTags.value)
    else Null
  }

  /** `body.project_id ?? body.projectId ?? base.project_id`. */
  function ProjectInput(body: Json, base: Row): Json {
    if !Field(body, "project_id").Null? then Field(body, "project_id") else Pick(body, "projectId", base.project)
  }

  predicate SlugChar(c: char) { 'a' <= c <= 'z' || IsDigit(c) }

  /** One letter or digit, then up to 63 of those, `_` and `-`. */
  predicate IsSlug(s: string) {
    1 <= |s| <= 64 && SlugChar(s[0]) && forall i :: 1 <= i < |s| ==> SlugChar(s[i]) || s[i] in {'_', '-'}
  }

  function Slug(v: Json): Option<string> {
    var slug := ToLower(Sanitize(v));
    if slug == "" then Some(DEFAULT_SLUG)
    else if IsSlug(slug) then Some(slug)
    else None
  }

  function AttendanceMethods(): set<string> { {"host_code", "social_proof", "geo"} }
  function VerificationMethods(): set<string> { {"host_attest", "qr_stub", "social_proof"} }
  function Visibilities(): set<string> { {"public", "fof", "private"} }

  function MethodToken(v: Json): Option<string> {
    if v.Str? && v.s in AttendanceMethods() then Some(v.s) else None
  }

  predicate IsText(v: Json) { v.Str? }

  function Filter(items: seq<Json>, p: Json -> bool): seq<Json> {
    if |items| == 0 then [] else (if p(items[0]) then [items[0]] else []) + Filter(items[1..], p)
  }

  function StoredAttendance(v: Json, env: Env): seq<Json> {
    match v
    case Arr(items) => items
    case Str(s) => var j := env.parse(s); if j.Some? then Items(j.value) else []
    case Obj(fields) => Filter(env.values(fields), IsText)
    case _ => []
  }

  function Attendance(body: Json, base: Json, env: Env): seq<string> {
    Distinct(if Field(body, "attendance_methods").Arr? then Items(Field(body, "attendance_methods"))
             else StoredAttendance(base, env), MethodToken)
  }

  /** `Number(body.name ?? base ?? default)` where finite. */
  function NumberOf(body: Json, name: string, base: Option<real>, default: real, env: Env): Option<real> {
    if Field(body, name).Null? then Some(base.GetOr(default)) else env.number(Field(body, name))
  }

  function AtLeastZero(v: real): real { if v < 0.0 then 0.0 else v }

  /** Math.max(0, Math.trunc(v)). */
  function Whole(v: real): real { if v < 0.0 then 0.0 else v.Floor as real }

  function WholeOr(n: Option<real>, default: real): real {
    match n case Some(v) => Whole(v) case None => default
  }

  function Capacity(body: Json, base: Option<real>, env: Env): Result<Option<real>, Invalid> {
    var given := Field(body, "capacity");
    if given == Str("") || (given.Null? && base.None?) then Ok(None)
    else
      var n := NumberOf(body, "capacity", base, 0.0, env);
      if n.None? || n.value <= 0.0 then Err(BadCapacity) else Ok(n)
  }

  predicate Truthy(v: Json) {
    match v
    case Null => false
    case Bool(b) => b
    case Num(text) => text != "0"
    case Str(s) => s != ""
    case _ => true
  }

  function Waitlist(body: Json, base: Option<bool>): bool {
    if body.Obj? && "waitlist_enabled" in body.fields then Truthy(body.fields["waitlist_enabled"]) else base.GetOr(true)
  }

  function Visibility(body: Json, base: Option<string>): string {
    var v := Field(body, "visibility");
    if v.Str? && v.s in Visibilities() then v.s
    else if base.Some? && base.value != "" then base.value
    else "public"
  }

  /** A new date or time replaces both instants; otherwise the stored ones stay. */
  function Times(body: Json, base: Row, tz: string, strict: bool, env: Env)
    : Result<(Option<int>, Option<int>), Invalid>
  {
    var date := Sanitize(Field(body, "date"));
    var time := if Field(body, "time_range").Str? then Field(body, "time_range") else Field(body, "time");
    if date != "" || Truthy(time) then
      var midnight := if date == "" then None else env.midnight(date);
      match Instants(date != "", midnight, if time.Str? then Some(time.s) else None, env.zone(tz))
      case Ok((start, end)) => Ok((Some(start), Some(end)))
      case Err(e) => Err(BadTime(e))
    else if strict && (base.startAt.None? || base.endAt.None?) then Err(TimesRequired)
    else Ok((base.startAt, base.endAt))
  }

  // ---------- The payload ----------

  function Build(body: Json, base: Row, strict: bool, env: Env): Result<Payload, Invalid> {
    var title := Sanitize(Pick(body, "title", base.title));
    var tz := Optional(Sanitize(Pick(body, "tz", base.tz))).GetOr(DEFAULT_TZ);
    var location := TruncateLocation(Pick(body, "location_text", base.location));
    var capacity := Capacity(body, base.capacity, env);
    var org := Sanitize(Pick(body, "org_name", base.org));
    var tags := CauseTags(TagInput(body, base));
    var slug := Slug(Pick(body, "funding_pool_slug", base.slug));
    var attendance := Attendance(body, base.attendance, env);
    var times := Times(body, base, tz, strict, env);
    if title == "" then Err(TitleRequired)
    else if strict && location == "" then Err(LocationRequired)
    else if capacity.Err? then Err(capacity.error)
    else if org == "" then Err(OrgRequired)
    else if |tags| == 0 then Err(TagRequired)
    else if slug.None? then Err(BadSlug)
    else if |attendance| == 0 then Err(MethodRequired)
    else if times.Err? then Err(times.error)
    else
      var verification := Sanitize(Pick(body, "verification_method", base.verification));
      Ok(Payload(
           title,
           Optional(Sanitize(Pick(body, "category", base.category))).GetOr(tags[0]),
           times.value.0, times.value.1, tz, location, org,
           Optional(Sanitize(Pick(body, "community_tag", base.community))),
           tags,
           Optional(Sanitize(Pick(body, "requirements", base.requirements))),
           if verification in VerificationMethods() then verification else "host_attest",
           WholeOr(NumberOf(body, "impact_credits_base", base.credits, 10.0, env), 10.0),
           WholeOr(NumberOf(body, "reliability_weight", base.reliability, 1.0, env), 1.0),
           Visibility(body, base.visibility),
           capacity.value,
           Waitlist(body, base.waitlist),
           Optional(Sanitize(Pick(body, "cover_url", base.cover))),
           Optional(Sanitize(Pick(body, "description", base.description))),
           AtLeastZero(NumberOf(body, "reward_pool_kind", base.rewardPool, 0.0, env).GetOr(0.0)),
           slug.value,
           attendance,
           Optional(Sanitize(Pick(body, "safety_notes", base.safety))),
           Optional(Sanitize(ProjectInput(body, base)))))
  }

  /** The columns a payload is stored in, as they read back. */
  function Stored(p: Payload): Row {
    Row(Some(p.title), Some(p.category), p.startAt, p.endAt, Some(p.tz), Some(p.location), Some(p.org), p.community,
        Some(p.causeTags), p.requirements, Some(p.verification), Some(p.credits), Some(p.reliability),
        Some(p.visibility), p.capacity, Some(p.waitlist), p.cover, p.description, Some(p.rewardPool),
        Some(p.slug), Texts(p.attendance), p.safety, p.project)
  }
}
