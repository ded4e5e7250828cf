/** What a posted form does to an event's columns, field by field, and that a form can say anything. */
module EventPayloadPosted {
  import opened Wrappers
  import opened Strings
  import opened Json
  import opened ZonedTime
  import opened TimeRange
  import opened EventPayload
  import opened EventPayloadNormal

  // ---------- One field at a time ----------

  /** The column keeps what it held when the field is absent, and else takes the posted text, trimmed. */
  predicate TextPosted(posted: Json, was: string, now: string) {
    match posted
    case Null => now == was
    case Str(s) => now == Trim(s)
    case _ => now == ""
  }

  /** The same for a column that is left out when blank. */
  predicate OptionPosted(posted: Json, was: Option<string>, now: Option<string>) {
    match posted
    case Null => now == was
    case Str(s) => if Trim(s) == "" then now == None else now == Some(Trim(s))
    case _ => now == None
  }

  /** The same for a column with a default in place of a blank. */
  predicate DefaultPosted(posted: Json, was: string, default: string, now: string) {
    match posted
    case Null => now == was
    case Str(s) => if Trim(s) == "" then now == default else now == Trim(s)
    case _ => now == default
  }

  /** The whole part of v, from zero up. */
  function WholePart(v: real): real { if v <= 0.0 then 0.0 else v.Floor as real }

  /** A whole number, with a default where the posted value is no number. */
  predicate WholePosted(posted: Json, number: Option<real>, was: real, default: real, now: real) {
    if posted.Null? then now == was
    else match number case Some(v) => now == WholePart(v) case None => now == default
  }

  predicate TextsPosted(body: Json, was: Payload, now: Payload) {
    && TextPosted(Field(body, "title"), was.title, now.title)
    && TextPosted(Field(body, "org_name"), was.org, now.org)
    && |now.causeTags| >= 1
    && DefaultPosted(Field(body, "category"), was.category, now.causeTags[0], now.category)
    && DefaultPosted(Field(body, "tz"), was.tz, "America/Vancouver", now.tz)
    && OptionPosted(Field(body, "community_tag"), was.community, now.community)
    && OptionPosted(Field(body, "requirements"), was.requirements, now.requirements)
    && OptionPosted(Field(body, "cover_url"), was.cover, now.cover)
    && OptionPosted(Field(body, "description"), was.description, now.description)
    && OptionPosted(Field(body, "safety_notes"), was.safety, now.safety)
  }

  predicate ChoicesPosted(body: Json, was: Payload, now: Payload) {
    && (match Field(body, "verification_method")
        case Null => now.verification == was.verification
        case Str(s) => now.verification == if Trim(s) in {"host_attest", "qr_stub", "social_proof"} then Trim(s)
                                          else "host_attest"
        case _ => now.verification == "host_attest")
    && (match Field(body, "funding_pool_slug")
        case Null => now.slug == was.slug
        case Str(s) => now.slug == if Trim(s) == "" then "general" else ToLower(Trim(s))
        case _ => now.slug == "general")
    && (match Field(body, "visibility")
        case Str(s) => now.visibility == if s in {"public", "fof", "private"} then s else was.visibility
        case _ => now.visibility == was.visibility)
    && (if body.Obj? && "waitlist_enabled" in body.fields
        then now.waitlist == Truthy(body.fields["waitlist_enabled"]) else now.waitlist == was.waitlist)
  }

  predicate ListsPosted(body: Json, was: Payload, now: Payload) {
    && (match Field(body, "location_text")
        case Null => now.location == was.location
        case v => now.location == TruncateLocation(v))
    && (match Field(body, "cause_tags")
        case Null => now.causeTags == was.causeTags
        case v => now.causeTags == CauseTags(v))
    && (match Field(body, "attendance_methods")
        case Arr(items) => now.attendance == Distinct(items, MethodToken)
        case _ => now.attendance == was.attendance)
  }

  predicate NumbersPosted(body: Json, was: Payload, now: Payload, env: Env) {
    && WholePosted(Field(body, "impact_credits_base"), env.number(Field(body, "impact_credits_base")),
                   was.credits, 10.0, now.credits)
    && WholePosted(Field(body, "reliability_weight"), env.number(Field(body, "reliability_weight")),
                   was.reliability, 1.0, now.reliability)
    && (match Field(body, "reward_pool_kind")
        case Null => now.rewardPool == was.rewardPool
        case v => now.rewardPool == match env.number(v) case Some(n) => if n <= 0.0 then 0.0 else n case None => 0.0)
    && (match Field(body, "capacity")
        case Null => now.capacity == was.capacity
        case v => if v == Str("") then now.capacity == None
                  else now.capacity == env.number(v) && now.capacity.Some? && now.capacity.value > 0.0)
  }

  /** A posted date or time replaces both instants; without either they stay. */
  predicate TimesPosted(body: Json, was: Payload, now: Payload, env: Env) {
    var date := match Field(body, "date") case Str(s) => Trim(s) case _ => "";
    var time := if Field(body, "time_range").Str? then Field(body, "time_range") else Field(body, "time");
    if date == "" && !Truthy(time) then now.startAt == was.startAt && now.endAt == was.endAt
    else
      && date != "" && time.Str? && ParseTimeRangeInput(time.s).Some?
      && env.midnight(date).Some? && env.zone(now.tz).Some?
      && var range, z := ParseTimeRangeInput(time.s).value, env.zone(now.tz).value;
         && now.startAt == Some(LocalToUtc(z, env.midnight(date).value + 60 * range.start.Minutes()))
         && now.endAt == Some(LocalToUtc(z, env.midnight(date).value + 60 * range.end.Minutes()))
  }

  /** Each column is what was posted for it, and the columns nothing was posted for are as they were. */
  predicate Posted(body: Json, was: Payload, now: Payload, env: Env) {
    && TextsPosted(body, was, now) && ChoicesPosted(body, was, now) && ListsPosted(body, was, now)
    && NumbersPosted(body, was, now, env) && TimesPosted(body, was, now, env)
  }

  // ---------- A build over a stored event ----------

  lemma TextIsPosted(body: Json, name: string, was: string)
    requires Clean(was)
    ensures TextPosted(Field(body, name), was, Sanitize(Pick(body, name, Some(was))))
  {
    hide Trim;
    CleanIsFixed(was);
  }

  lemma OptionIsPosted(body: Json, name: string, was: Option<string>)
    requires CleanOption(was)
    ensures OptionPosted(Field(body, name), was, Optional(Sanitize(Pick(body, name, was))))
  {
    hide Trim;
    OptionIsFixed(was);
  }

  lemma DefaultIsPosted(body: Json, name: string, was: string, default: string)
    requires Clean(was)
    ensures DefaultPosted(Field(body, name), was, default,
                          Optional(Sanitize(Pick(body, name, Some(was)))).GetOr(default))
  {
    hide Trim;
    OptionIsFixed(Some(was));
  }

  lemma TextsArePosted(body: Json, was: Payload, strict: bool, env: Env)
    requires Normal(was) && Build(body, Stored(was), strict, env).Ok?
    ensures TextsPosted(body, was, Build(body, Stored(was), strict, env).value)
  {
    hide Sanitize, Optional, TruncateLocation, CauseTags, Slug, Attendance, NumberOf, Times, Waitlist, Pick, Field;
    hide Capacity, Visibility, Whole, Texts, TextPosted, OptionPosted, DefaultPosted, IsLocation, AllClean, IsWhole;
    hide IsSlug, Trimmed, ToLower, NoRepeats, AttendanceMethods, VerificationMethods;
    var now := Build(body, Stored(was), strict, env).value;
    TextIsPosted(body, "title", was.title);
    TextIsPosted(body, "org_name", was.org);
    DefaultIsPosted(body, "category", was.category, now.causeTags[0]);
    DefaultIsPosted(body, "tz", was.tz, "America/Vancouver");
    OptionIsPosted(body, "community_tag", was.community);
    OptionIsPosted(body, "requirements", was.requirements);
    OptionIsPosted(body, "cover_url", was.cover);
    OptionIsPosted(body, "description", was.description);
    OptionIsPosted(body, "safety_notes", was.safety);
  }

  lemma SlugIsPosted(body: Json, was: string)
    requires IsSlug(was) && Trimmed(was) && ToLower(was) == was
    ensures var slug := Slug(Pick(body, "funding_pool_slug", Some(was)));
            slug.Some? ==> match Field(body, "funding_pool_slug")
                           case Null => slug.value == was
                           case Str(s) => slug.value == if Trim(s) == "" then "general" else ToLower(Trim(s))
                           case _ => slug.value == "general"
  {
    hide Trim;
    SlugIsFixed(was);
    assert ToLower("") == "";
    LowerOfBlank(Sanitize(Pick(body, "funding_pool_slug", Some(was))));
  }

  lemma LowerOfBlank(s: string)
    ensures ToLower(s) == "" <==> s == ""
  {
  }

  lemma ChoicesArePosted(body: Json, was: Payload, strict: bool, env: Env)
    requires Normal(was) && Build(body, Stored(was), strict, env).Ok?
    ensures ChoicesPosted(body, was, Build(body, Stored(was), strict, env).value)
  {
    hide Trim, TruncateLocation, CauseTags, Slug, Attendance, NumberOf, Times, Capacity, Whole, Texts, IsLocation;
    hide AllClean, IsWhole, IsSlug, Trimmed, ToLower, NoRepeats, AttendanceMethods, Optional, Clean, CleanOption;
    VerificationIsFixed(was.verification);
    SlugIsPosted(body, was.slug);
  }

  lemma ListsArePosted(body: Json, was: Payload, strict: bool, env: Env)
    requires Normal(was) && Build(body, Stored(was), strict, env).Ok?
    ensures ListsPosted(body, was, Build(body, Stored(was), strict, env).value)
  {
    hide Sanitize, Optional, TruncateLocation, CauseTags, Slug, NumberOf, Times, Waitlist, Clean, CleanOption;
    hide Capacity, Visibility, Whole, Texts, IsLocation, AllClean, IsWhole, IsSlug, Trimmed, ToLower, NoRepeats;
    hide AttendanceMethods, VerificationMethods, Distinct;
    LocationIsFixed(was.location);
    TagsAreFixed(was.causeTags);
    AttendanceIsFixed(was.attendance);
    StoredListReadsBack(was.attendance, env);
  }

  lemma StoredListReadsBack(a: seq<string>, env: Env)
    ensures StoredAttendance(Texts(a), env) == Texts(a).items
  {
  }

  lemma NumbersArePosted(body: Json, was: Payload, strict: bool, env: Env)
    requires Normal(was) && Build(body, Stored(was), strict, env).Ok?
    ensures NumbersPosted(body, was, Build(body, Stored(was), strict, env).value, env)
  {
    hide Sanitize, Optional, TruncateLocation, CauseTags, Slug, Attendance, Times, Waitlist, Clean, CleanOption;
    hide Visibility, Texts, IsLocation, AllClean, IsSlug, Trimmed, ToLower, NoRepeats;
    hide AttendanceMethods, VerificationMethods, Pick;
  }

  lemma BuildsTimes(body: Json, base: Row, strict: bool, env: Env)
    requires Build(body, base, strict, env).Ok?
    ensures var now := Build(body, base, strict, env).value;
            Times(body, base, now.tz, strict, env) == Ok((now.startAt, now.endAt))
  {
    hide Sanitize, Optional, TruncateLocation, CauseTags, Slug, Attendance, NumberOf, Times, Waitlist;
    hide Capacity, Visibility, Whole, Pick, Field;
  }

  lemma TimesAre(body: Json, base: Row, strict: bool, env: Env, was: Payload, now: Payload)
    requires Times(body, base, now.tz, strict, env) == Ok((now.startAt, now.endAt))
    requires was.startAt == base.startAt && was.endAt == base.endAt
    ensures TimesPosted(body, was, now, env)
  {
    hide Trim, LocalToUtc, ParseTimeRangeInput, Field;
    assert Trimmed("");
  }

  lemma TimesArePosted(body: Json, was: Payload, strict: bool, env: Env)
    requires Build(body, Stored(was), strict, env).Ok?
    ensures TimesPosted(body, was, Build(body, Stored(was), strict, env).value, env)
  {
    hide Build, Times, TimesPosted;
    BuildsTimes(body, Stored(was), strict, env);
    TimesAre(body, Stored(was), strict, env, was, Build(body, Stored(was), strict, env).value);
  }

  /** Rebuilding a normal event's row with a posted form does to each column what the form says of it. */
  lemma BuiltIsPosted(body: Json, was: Payload, strict: bool, env: Env)
    requires Normal(was) && Build(body, Stored(was), strict, env).Ok?
    ensures Posted(body, was, Build(body, Stored(was), strict, env).value, env)
  {
    hide *;
    TextsArePosted(body, was, strict, env);
    ChoicesArePosted(body, was, strict, env);
    ListsArePosted(body, was, strict, env);
    NumbersArePosted(body, was, strict, env);
    TimesArePosted(body, was, strict, env);
    PostedInParts(body, was, Build(body, Stored(was), strict, env).value, env);
  }

  lemma PostedInParts(body: Json, was: Payload, now: Payload, env: Env)
    requires TextsPosted(body, was, now) && ChoicesPosted(body, was, now) && ListsPosted(body, was, now)
    requires NumbersPosted(body, was, now, env) && TimesPosted(body, was, now, env)
    ensures Posted(body, was, now, env)
  {
  }

  // ---------- A build over nothing ----------

  /** What a new event's columns are where the form is silent; the category is then the first tag. */
  function Unsaid(org: Option<string>, capacity: Option<real>, tag: string): Payload {
    Payload("", tag, None, None, "America/Vancouver", "", match org case Some(s) => Trim(s) case None => "", None, [],
            None, "host_attest", 10.0, 1.0, "public", capacity, true, None, None, 0.0, "general", [], None, None)
  }

  lemma NewText(body: Json, name: string, base: Option<string>)
    ensures TextPosted(Field(body, name), match base case Some(s) => Trim(s) case None => "",
                       Sanitize(Pick(body, name, base)))
  {
    hide Trim;
  }

  lemma NewOption(body: Json, name: string)
    ensures OptionPosted(Field(body, name), None, Optional(Sanitize(Pick(body, name, None))))
  {
    hide Trim;
  }

  lemma NewDefault(body: Json, name: string, default: string)
    ensures DefaultPosted(Field(body, name), default, default,
                          Optional(Sanitize(Pick(body, name, None))).GetOr(default))
  {
    hide Trim;
  }

  lemma NewTextsArePosted(body: Json, org: Option<string>, capacity: Option<real>, strict: bool, env: Env)
    requires Build(body, BLANK.(capacity := capacity, org := org), strict, env).Ok?
    ensures var now := Build(body, BLANK.(capacity := capacity, org := org), strict, env).value;
            |now.causeTags| >= 1 && TextsPosted(body, Unsaid(org, capacity, now.causeTags[0]), now)
  {
    hide Sanitize, Optional, TruncateLocation, CauseTags, Slug, Attendance, NumberOf, Times, Waitlist, Pick, Field;
    hide Capacity, Visibility, Whole, Texts, TextPosted, OptionPosted, DefaultPosted, VerificationMethods, Trim;
    var now := Build(body, BLANK.(capacity := capacity, org := org), strict, env).value;
    NewText(body, "title", None);
    NewText(body, "org_name", org);
    NewDefault(body, "category", now.causeTags[0]);
    NewDefault(body, "tz", "America/Vancouver");
    NewOption(body, "community_tag");
    NewOption(body, "requirements");
    NewOption(body, "cover_url");
    NewOption(body, "description");
    NewOption(body, "safety_notes");
  }

  lemma NewVerification(body: Json)
    ensures var v := Sanitize(Pick(body, "verification_method", None));
            var now := if v in VerificationMethods() then v else "host_attest";
            match Field(body, "verification_method")
            case Null => now == "host_attest"
            case Str(s) =>
              now == if Trim(s) in {"host_attest", "qr_stub", "social_proof"} then Trim(s) else "host_attest"
            case _ => now == "host_attest"
  {
    hide Trim;
  }

  lemma NewSlug(body: Json)
    ensures var slug := Slug(Pick(body, "funding_pool_slug", None));
            slug.Some? ==> match Field(body, "funding_pool_slug")
                           case Null => slug.value == "general"
                           case Str(s) => slug.value == if Trim(s) == "" then "general" else ToLower(Trim(s))
                           case _ => slug.value == "general"
  {
    hide Trim, IsSlug;
    assert ToLower("") == "";
    LowerOfBlank(Sanitize(Pick(body, "funding_pool_slug", None)));
  }

  lemma NewChoicesArePosted(body: Json, org: Option<string>, capacity: Option<real>, strict: bool, env: Env)
    requires Build(body, BLANK.(capacity := capacity, org := org), strict, env).Ok?
    ensures var now := Build(body, BLANK.(capacity := capacity, org := org), strict, env).value;
            |now.causeTags| >= 1 && ChoicesPosted(body, Unsaid(org, capacity, now.causeTags[0]), now)
  {
    hide Sanitize, Trim, TruncateLocation, CauseTags, Attendance, NumberOf, Times, Optional, Slug, Pick;
    hide Capacity, Whole, Texts, ToLower, VerificationMethods, Truthy;
    NewVerification(body);
    NewSlug(body);
  }

  lemma NewListsArePosted(body: Json, org: Option<string>, capacity: Option<real>, strict: bool, env: Env)
    requires Build(body, BLANK.(capacity := capacity, org := org), strict, env).Ok?
    ensures var now := Build(body, BLANK.(capacity := capacity, org := org), strict, env).value;
            |now.causeTags| >= 1 && ListsPosted(body, Unsaid(org, capacity, now.causeTags[0]), now)
  {
    hide Sanitize, Trim, Slug, NumberOf, Times, Optional, Waitlist, Visibility, Capacity, Whole, Texts, Distinct;
    hide TruncateLocation, CauseTags, VerificationMethods;
    NothingListed();
  }

  lemma NothingListed()
    ensures TruncateLocation(Null) == "" && CauseTags(Null) == [] && Distinct([], MethodToken) == []
  {
    hide Split, NonEmpty, MapTrim, Trim;
    BlankLocation("");
    assert Sanitize(Null) == Sanitize(Str(""));
  }

  lemma NewNumbersArePosted(body: Json, org: Option<string>, capacity: Option<real>, strict: bool, env: Env)
    requires capacity.Some? ==> capacity.value > 0.0
    requires Build(body, BLANK.(capacity := capacity, org := org), strict, env).Ok?
    ensures var now := Build(body, BLANK.(capacity := capacity, org := org), strict, env).value;
            |now.causeTags| >= 1 && NumbersPosted(body, Unsaid(org, capacity, now.causeTags[0]), now, env)
  {
    hide Trim, TruncateLocation, CauseTags, Attendance, Times, Optional, Waitlist, Visibility, Texts, Slug, Sanitize;
    hide Pick;
  }

  lemma NewTimesArePosted(body: Json, org: Option<string>, capacity: Option<real>, strict: bool, env: Env)
    requires Build(body, BLANK.(capacity := capacity, org := org), strict, env).Ok?
    ensures var now := Build(body, BLANK.(capacity := capacity, org := org), strict, env).value;
            |now.causeTags| >= 1 && TimesPosted(body, Unsaid(org, capacity, now.causeTags[0]), now, env)
  {
    hide Build, Times, TimesPosted;
    var base := BLANK.(capacity := capacity, org := org);
    var now := Build(body, base, strict, env).value;
    HasTag(body, base, strict, env);
    BuildsTimes(body, base, strict, env);
    TimesAre(body, base, strict, env, Unsaid(org, capacity, now.causeTags[0]), now);
  }

  /** A new event's columns are what the form says of them, and the defaults where it is silent. */
  lemma NewIsPosted(body: Json, org: Option<string>, capacity: Option<real>, strict: bool, env: Env)
    requires capacity.Some? ==> capacity.value > 0.0
    requires Build(body, BLANK.(capacity := capacity, org := org), strict, env).Ok?
    ensures var now := Build(body, BLANK.(capacity := capacity, org := org), strict, env).value;
            |now.causeTags| >= 1 && Posted(body, Unsaid(org, capacity, now.causeTags[0]), now, env)
  {
    var now := Build(body, BLANK.(capacity := capacity, org := org), strict, env).value;
    assert |now.causeTags| >= 1 by { HasTag(body, BLANK.(capacity := capacity, org := org), strict, env); }
    hide *;
    NewTextsArePosted(body, org, capacity, strict, env);
    NewChoicesArePosted(body, org, capacity, strict, env);
    NewListsArePosted(body, org, capacity, strict, env);
    NewNumbersArePosted(body, org, capacity, strict, env);
    NewTimesArePosted(body, org, capacity, strict, env);
    PostedInParts(body, Unsaid(org, capacity, now.causeTags[0]), now, env);
  }

  lemma HasTag(body: Json, base: Row, strict: bool, env: Env)
    requires Build(body, base, strict, env).Ok?
    ensures |Build(body, base, strict, env).value.causeTags| >= 1
  {
    hide Sanitize, Optional, TruncateLocation, CauseTags, Slug, Attendance, NumberOf, Times, Waitlist;
    hide Capacity, Visibility, Whole, Pick, Field;
  }

  // ---------- A form that says everything ----------

  function Blankable(s: Option<string>): Json { Str(s.GetOr("")) }

  /** The form's text fields hold p's texts, a blank where p has none. */
  predicate StatesTexts(body: Json, p: Payload) {
    && Field(body, "title") == Str(p.title) && Field(body, "org_name") == Str(p.org)
    && Field(body, "category") == Str(p.category) && Field(body, "tz") == Str(p.tz)
    && Field(body, "location_text") == Str(p.location)
    && Field(body, "community_tag") == Blankable(p.community)
    && Field(body, "requirements") == Blankable(p.requirements)
    && Field(body, "verification_method") == Str(p.verification)
    && Field(body, "cover_url") == Blankable(p.cover) && Field(body, "description") == Blankable(p.description)
    && Field(body, "funding_pool_slug") == Str(p.slug)
    && Field(body, "safety_notes") == Blankable(p.safety) && Field(body, "project_id") == Blankable(p.project)
  }

  predicate StatesNumber(posted: Json, n: real, env: Env) {
    !posted.Null? && env.number(posted) == Some(n)
  }

  predicate StatesRest(body: Json, p: Payload, env: Env) {
    && Field(body, "cause_tags") == Texts(p.causeTags) && Field(body, "attendance_methods") == Texts(p.attendance)
    && StatesNumber(Field(body, "impact_credits_base"), p.credits, env)
    && StatesNumber(Field(body, "reliability_weight"), p.reliability, env)
    && StatesNumber(Field(body, "reward_pool_kind"), p.rewardPool, env)
    && (if p.capacity.None? then Field(body, "capacity") == Str("")
        else Field(body, "capacity") != Str("") && StatesNumber(Field(body, "capacity"), p.capacity.value, env))
    && Field(body, "visibility") == Str(p.visibility) && p.visibility in {"public", "fof", "private"}
    && body.Obj? && "waitlist_enabled" in body.fields && body.fields["waitlist_enabled"] == Bool(p.waitlist)
  }

  /** The form says nothing of times and p has the base's, or it says when, and p has those instants. */
  predicate StatesTimes(body: Json, base: Row, p: Payload, env: Env) {
    var date, time := Field(body, "date"), Field(body, "time_range");
    if date.Null? && time.Null? && Field(body, "time").Null? then p.startAt == base.startAt && p.endAt == base.endAt
    else
      && date.Str? && Trim(date.s) != "" && env.midnight(Trim(date.s)).Some?
      && time.Str? && ParseTimeRangeInput(time.s).Some? && env.zone(p.tz).Some?
      && var range, z := ParseTimeRangeInput(time.s).value, env.zone(p.tz).value;
         && p.startAt == Some(LocalToUtc(z, env.midnight(Trim(date.s)).value + 60 * range.start.Minutes()))
         && p.endAt == Some(LocalToUtc(z, env.midnight(Trim(date.s)).value + 60 * range.end.Minutes()))
  }

  lemma OptionIsStated(s: Option<string>)
    requires CleanOption(s)
    ensures Optional(Sanitize(Blankable(s))) == s
  {
    hide Trim;
    if s.Some? {
      CleanIsFixed(s.value);
    } else {
      assert Trim("") == "";
    }
  }

  lemma TextsAreStated(body: Json, base: Row, p: Payload)
    requires Normal(p) && StatesTexts(body, p)
    ensures && Sanitize(Pick(body, "title", base.title)) == p.title
            && Optional(Sanitize(Pick(body, "tz", base.tz))) == Some(p.tz)
            && TruncateLocation(Pick(body, "location_text", base.location)) == p.location
            && Sanitize(Pick(body, "org_name", base.org)) == p.org
            && Optional(Sanitize(Pick(body, "category", base.category))) == Some(p.category)
            && Optional(Sanitize(Pick(body, "community_tag", base.community))) == p.community
            && Optional(Sanitize(Pick(body, "requirements", base.requirements))) == p.requirements
            && Sanitize(Pick(body, "verification_method", base.verification)) == p.verification
            && Optional(Sanitize(Pick(body, "cover_url", base.cover))) == p.cover
            && Optional(Sanitize(Pick(body, "description", base.description))) == p.description
            && Optional(Sanitize(Pick(body, "safety_notes", base.safety))) == p.safety
            && Optional(Sanitize(ProjectInput(body, base))) == p.project
            && Slug(Pick(body, "funding_pool_slug", base.slug)) == Some(p.slug)
  {
    hide Sanitize, TruncateLocation, Slug, Clean, Texts, IsLocation, AllClean, IsWhole, IsSlug, Trimmed, ToLower;
    hide NoRepeats, AttendanceMethods, Field, Blankable, Optional;
    CleanIsFixed(p.title);
    CleanIsFixed(p.tz);
    CleanIsFixed(p.org);
    CleanIsFixed(p.category);
    OptionIsStated(Some(p.tz));
    OptionIsStated(Some(p.category));
    IsStr(p.tz);
    IsStr(p.category);
    IsText(p.community);
    IsText(p.requirements);
    IsText(p.cover);
    IsText(p.description);
    IsText(p.safety);
    IsText(p.project);
    LocationIsFixed(p.location);
    OptionIsStated(p.community);
    OptionIsStated(p.requirements);
    VerificationIsFixed(p.verification);
    OptionIsStated(p.cover);
    OptionIsStated(p.description);
    OptionIsStated(p.safety);
    OptionIsStated(p.project);
    SlugIsFixed(p.slug);
  }

  lemma IsStr(s: string)
    ensures Blankable(Some(s)) == Str(s)
  {
  }

  lemma IsText(s: Option<string>)
    ensures Blankable(s).Str?
  {
  }

  lemma RestIsStated(body: Json, base: Row, p: Payload, env: Env)
    requires Normal(p) && StatesRest(body, p, env)
    ensures CauseTags(TagInput(body, base)) == p.causeTags
    ensures Attendance(body, base.attendance, env) == p.attendance
    ensures Capacity(body, base.capacity, env) == Ok(p.capacity)
    ensures NumberOf(body, "impact_credits_base", base.credits, 10.0, env) == Some(p.credits)
    ensures NumberOf(body, "reliability_weight", base.reliability, 1.0, env) == Some(p.reliability)
    ensures NumberOf(body, "reward_pool_kind", base.rewardPool, 0.0, env) == Some(p.rewardPool)
    ensures Whole(p.credits) == p.credits && Whole(p.reliability) == p.reliability
    ensures AtLeastZero(p.rewardPool) == p.rewardPool
    ensures Waitlist(body, base.waitlist) == p.waitlist && Visibility(body, base.visibility) == p.visibility
  {
    hide CauseTags, Clean, CleanOption, IsLocation, AllClean, IsSlug, Trimmed, ToLower, NoRepeats, AttendanceMethods;
    hide VerificationMethods, Distinct;
    TagsAreFixed(p.causeTags);
    AttendanceIsFixed(p.attendance);
    WholeIsWhole(p.credits);
    WholeIsWhole(p.reliability);
  }

  lemma TimesAreStated(body: Json, base: Row, p: Payload, strict: bool, env: Env)
    requires StatesTimes(body, base, p, env) && (strict ==> p.startAt.Some? && p.endAt.Some?)
    ensures Times(body, base, p.tz, strict, env) == Ok((p.startAt, p.endAt))
  {
    hide Trim, ParseTimeRangeInput, LocalToUtc;
    if Field(body, "time_range").Str? {
      RangeIsNotBlank(Field(body, "time_range").s);
    }
  }

  lemma RangeIsNotBlank(s: string)
    ensures ParseTimeRangeInput(s).Some? ==> s != ""
  {
    assert EN_DASH !in "" && '-' !in "";
    SplitWithout("", '-');
  }

  /**
   * There is a form for every event: whatever row it is posted over, a form that states all of a normal
   * payload's fields builds that payload.
   */
  lemma StatedIsBuilt(body: Json, base: Row, p: Payload, strict: bool, env: Env)
    requires Normal(p) && StatesTexts(body, p) && StatesRest(body, p, env) && StatesTimes(body, base, p, env)
    requires strict ==> Publishable(p)
    ensures Build(body, base, strict, env) == Ok(p)
  {
    hide Sanitize, Optional, TruncateLocation, CauseTags, Slug, Attendance, Clean, CleanOption, Texts, TextOrNull;
    hide IsLocation, AllClean, IsWhole, Whole, IsSlug, Trimmed, ToLower, NoRepeats, AttendanceMethods;
    hide VerificationMethods, StatesTexts, StatesRest, StatesTimes;
    hide Field, Pick, Times, NumberOf, Capacity, Waitlist, Visibility;
    CleanIsTrimmed(p.title);
    CleanIsTrimmed(p.org);
    TextsAreStated(body, base, p);
    RestIsStated(body, base, p, env);
    TimesAreStated(body, base, p, strict, env);
  }
}
