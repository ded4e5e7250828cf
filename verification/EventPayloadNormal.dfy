/** Every payload is in normal form, and building from a normal form's row changes nothing. */
module EventPayloadNormal {
  import opened Wrappers
  import opened Strings
  import opened Json
  import opened TimeRange
  import opened EventPayload

  // ---------- Normal forms, field by field ----------

  predicate Clean(s: string) { s != "" && Trimmed(s) }

  predicate CleanOption(s: Option<string>) { s.Some? ==> Clean(s.value) }

  ghost predicate AllClean(parts: seq<string>) {
    forall p :: p in parts ==> Clean(p)
  }

  ghost predicate CommaFree(parts: seq<string>) {
    forall p :: p in parts ==> ',' !in p
  }

  ghost predicate LocationParts(parts: seq<string>) {
    |parts| <= LOCATION_PARTS && AllClean(parts) && CommaFree(parts)
  }

  /** At most three clean parts, joined by a comma and a space. */
  ghost predicate IsLocation(s: string) {
    exists parts: seq<string> :: LocationParts(parts) && s == Join(parts, ", ")
  }

  predicate IsWhole(v: real) { v >= 0.0 && v.Floor as real == v }

  ghost predicate Normal(p: Payload) {
    && Clean(p.title) && Clean(p.category) && Clean(p.tz) && IsLocation(p.location) && Clean(p.org)
    && CleanOption(p.community) && |p.causeTags| >= 1 && AllClean(p.causeTags) && CleanOption(p.requirements)
    && p.verification in VerificationMethods()
    && IsWhole(p.credits) && IsWhole(p.reliability)
    && p.visibility != ""
    && (p.capacity.Some? ==> p.capacity.value > 0.0)
    && CleanOption(p.cover) && CleanOption(p.description)
    && p.rewardPool >= 0.0
    && IsSlug(p.slug) && Trimmed(p.slug) && ToLower(p.slug) == p.slug
    && NoRepeats(p.attendance) && |p.attendance| >= 1 && (forall m :: m in p.attendance ==> m in AttendanceMethods())
    && CleanOption(p.safety) && CleanOption(p.project)
  }

  // ---------- Locations ----------

  function Spaced(parts: seq<string>): seq<string> {
    seq(|parts|, i requires 0 <= i < |parts| => " " + parts[i])
  }

  /** Splitting a joined list gives the parts back, all but the first behind a space. */
  lemma {:induction false} SplitJoined(before: string, parts: seq<string>)
    requires |parts| >= 1 && CommaFree(parts) && ',' !in before
    ensures Split(before + Join(parts, ", "), ',') == [before + parts[0]] + Spaced(parts[1..])
    decreases |parts|
  {
    hide IndexOf;
    assert parts[0] in parts;
    if |parts| == 1 {
      assert Spaced(parts[1..]) == [];
    } else {
      var rest := parts[1..];
      JoinedAt(before, parts);
      CommaFreeRest(parts);
      hide Split, Join, CommaFree;
      SplitAtFirst(before + parts[0], ',', " " + Join(rest, ", "));
      SplitJoined(" ", rest);
      assert Spaced(rest) == [" " + rest[0]] + Spaced(rest[1..]);
    }
  }

  lemma JoinedAt(before: string, parts: seq<string>)
    requires |parts| >= 2
    ensures before + Join(parts, ", ") == before + parts[0] + [','] + (" " + Join(parts[1..], ", "))
  {
  }

  lemma CommaFreeRest(parts: seq<string>)
    requires |parts| >= 2 && CommaFree(parts)
    ensures CommaFree(parts[1..])
  {
  }

  lemma TrimSpaced(p: string)
    requires Clean(p)
    ensures Trim(" " + p) == p
  {
    var spaced := " " + p;
    assert spaced[1..] == p;
    assert TrimStart(p) == p && TrimEnd(p) == p;
    assert TrimStart(spaced) == TrimStart(p);
  }

  lemma TrimParts(parts: seq<string>)
    requires |parts| >= 1 && AllClean(parts)
    ensures MapTrim([parts[0]] + Spaced(parts[1..])) == parts
  {
    hide Trim, Clean;
    var spread := [parts[0]] + Spaced(parts[1..]);
    forall i | 0 <= i < |parts| ensures Trim(spread[i]) == parts[i] {
      assert parts[i] in parts;
      if i > 0 {
        assert spread[i] == " " + parts[1..][i - 1];
        TrimSpaced(parts[i]);
      } else {
        CleanIsTrimmed(parts[0]);
      }
    }
  }

  lemma CleanIsTrimmed(s: string)
    requires Clean(s)
    ensures Trim(s) == s && s != ""
  {
  }

  lemma AllCleanNonEmpty(parts: seq<string>)
    requires AllClean(parts)
    ensures NonEmpty(parts) == parts
  {
  }

  lemma {:induction false} JoinedIsTrimmed(parts: seq<string>)
    requires AllClean(parts)
    ensures Trimmed(Join(parts, ", "))
    ensures |parts| >= 1 ==> Clean(Join(parts, ", "))
    decreases |parts|
  {
    if |parts| >= 1 {
      assert parts[0] in parts;
      if |parts| > 1 {
        JoinedIsTrimmed(parts[1..]);
      }
    }
  }

  lemma LocationIsFixed(s: string)
    requires IsLocation(s)
    ensures TruncateLocation(Str(s)) == s
  {
    hide Split, Join, Trim, NonEmpty, MapTrim, AllClean, CommaFree, Trimmed, Spaced;
    var parts: seq<string> :| LocationParts(parts) && s == Join(parts, ", ");
    JoinedIsTrimmed(parts);
    if |parts| == 0 {
      BlankLocation(s);
    } else {
      SplitJoined("", parts);
      assert "" + Join(parts, ", ") == s && "" + parts[0] == parts[0];
      TrimParts(parts);
      AllCleanNonEmpty(parts);
    }
  }

  /** Of any number of parts the first three are kept. */
  lemma FirstPartsAreKept(parts: seq<string>)
    requires |parts| >= 1 && AllClean(parts) && CommaFree(parts)
    ensures TruncateLocation(Str(Join(parts, ", "))) == Join(if |parts| <= 3 then parts else parts[..3], ", ")
  {
    hide Split, Join, Trim, NonEmpty, MapTrim, AllClean, CommaFree, Trimmed, Spaced;
    JoinedIsTrimmed(parts);
    SplitJoined("", parts);
    assert "" + Join(parts, ", ") == Join(parts, ", ") && "" + parts[0] == parts[0];
    TrimParts(parts);
    AllCleanNonEmpty(parts);
  }

  /** Blank parts and space around parts do not count: the parts are the trimmed pieces that are not empty. */
  lemma PartsAre(s: string, p: string)
    ensures p in NonEmpty(MapTrim(Split(Trim(s), ','))) <==>
            p != "" && exists i :: 0 <= i < |Split(Trim(s), ',')| && p == Trim(Split(Trim(s), ',')[i])
  {
    hide Split, Trim;
    NonEmptyIs(MapTrim(Split(Trim(s), ',')), p);
  }

  lemma {:induction false} NonEmptyIs(parts: seq<string>, p: string)
    ensures p in NonEmpty(parts) <==> p in parts && p != ""
  {
    if |parts| > 0 {
      NonEmptyIs(parts[1..], p);
      assert parts == [parts[0]] + parts[1..];
    }
  }

  lemma BlankLocation(s: string)
    requires s == Join([], ", ")
    ensures TruncateLocation(Str(s)) == s
  {
    hide Trim;
    assert s == "" && Sanitize(Str(s)) == "";
    assert Split("", ',') == [""];
    assert MapTrim([""]) == [""] by { assert Trim("") == ""; }
    assert NonEmpty([""]) == [];
  }

  lemma TruncatedIsLocation(v: Json)
    ensures IsLocation(TruncateLocation(v))
  {
    hide Split, Join, Trim, NonEmpty, MapTrim, Trimmed, Sanitize;
    var pieces := Split(Sanitize(v), ',');
    var clean := NonEmpty(MapTrim(pieces));
    forall p | p in clean ensures Clean(p) && ',' !in p {
      assert p in MapTrim(pieces);
      var i :| 0 <= i < |pieces| && p == Trim(pieces[i]);
      assert pieces[i] in pieces;
      TrimIsPart(pieces[i], ',');
    }
    var parts := Take(clean, LOCATION_PARTS);
    assert forall p :: p in parts ==> p in clean;
    assert LocationParts(parts);
  }

  lemma TrimIsPart(s: string, c: char)
    requires c !in s
    ensures c !in Trim(s) && Trimmed(Trim(s))
  {
    hide TrimStart, TrimEnd;
    var a := TrimStart(s);
    assert a == s[|s| - |a|..];
    assert TrimEnd(a) == a[..|TrimEnd(a)|];
  }

  // ---------- The other fields ----------

  lemma SanitizedIsClean(v: Json)
    ensures CleanOption(Optional(Sanitize(v)))
    ensures Sanitize(v) != "" ==> Clean(Sanitize(v))
  {
    hide Trim;
  }

  lemma CleanIsFixed(s: string)
    requires Clean(s)
    ensures Sanitize(Str(s)) == s
  {
  }

  lemma OptionIsFixed(s: Option<string>)
    requires CleanOption(s)
    ensures Optional(Sanitize(TextOrNull(s))) == s
  {
    hide Trim;
    if s.Some? {
      CleanIsFixed(s.value);
    }
  }

  lemma TagsAreClean(v: Json)
    ensures AllClean(CauseTags(v))
  {
    hide Split, Trim, NonEmpty, MapTrim, Sanitize;
    forall p | p in CauseTags(v) ensures Clean(p) {
      match v
      case Arr(items) =>
        var i :| 0 <= i < |items| && p == Sanitize(items[i]);
      case Str(s) =>
        var pieces := MapTrim(Split(s, ','));
        var i :| 0 <= i < |pieces| && p == pieces[i];
      case _ =>
    }
  }

  lemma TagsAreFixed(tags: seq<string>)
    requires AllClean(tags)
    ensures CauseTags(Texts(tags)) == tags
  {
    hide Trim, NonEmpty, Sanitize;
    var items := Texts(tags).items;
    forall i | 0 <= i < |tags| ensures Sanitize(items[i]) == tags[i] {
      assert tags[i] in tags;
      CleanIsFixed(tags[i]);
    }
    assert StringItems(items) == tags;
    AllCleanNonEmpty(tags);
  }

  /** A text of tags is divided at its commas, and the tags are the pieces, trimmed, that are not blank. */
  lemma TagsOfText(s: string, t: string)
    ensures t in CauseTags(Str(s)) <==>
            t != "" && exists i :: 0 <= i < |Split(s, ',')| && t == Trim(Split(s, ',')[i])
  {
    hide Split, Trim, NonEmpty;
    var pieces := MapTrim(Split(s, ','));
    NonEmptyIs(pieces, t);
    if t in pieces {
      var i :| 0 <= i < |pieces| && t == pieces[i];
      assert t == Trim(Split(s, ',')[i]);
    }
    forall i | 0 <= i < |pieces| ensures Trim(Split(s, ',')[i]) in pieces {
      assert pieces[i] == Trim(Split(s, ',')[i]);
    }
  }

  /** Of a list the tags are the texts, trimmed, that are not blank. */
  lemma TagsOfList(items: seq<Json>, t: string)
    ensures t in CauseTags(Arr(items)) <==>
            t != "" && exists i :: 0 <= i < |items| && items[i].Str? && t == Trim(items[i].s)
  {
    hide Trim, NonEmpty;
    var texts := StringItems(items);
    NonEmptyIs(texts, t);
    if t in texts && t != "" {
      var i :| 0 <= i < |texts| && t == texts[i];
      assert items[i].Str? && t == Trim(items[i].s);
    }
    forall i | 0 <= i < |items| && items[i].Str? ensures Trim(items[i].s) in texts {
      assert texts[i] == Trim(items[i].s);
    }
  }

  lemma SlugIsNormal(v: Json)
    requires Slug(v).Some?
    ensures IsSlug(Slug(v).value) && Trimmed(Slug(v).value) && ToLower(Slug(v).value) == Slug(v).value
  {
    hide ToLower, Sanitize;
    LowerIsStable(Sanitize(v));
    LowerWordIsStable(DEFAULT_SLUG);
  }

  /** A slug is taken exactly when it is blank, then the default, or, trimmed and in lower case, one letter or
      digit and up to 63 more letters, digits, underscores and hyphens. */
  lemma SlugIff(s: string)
    ensures var t := ToLower(Trim(s));
            && (Slug(Str(s)).Some? <==>
                  t == ""
                  || (|t| <= 64 && t[0] != '_' && t[0] != '-'
                      && forall i :: 0 <= i < |t| ==>
                           'a' <= t[i] <= 'z' || '0' <= t[i] <= '9' || t[i] == '_' || t[i] == '-'))
            && (Slug(Str(s)).Some? ==> Slug(Str(s)).value == if t == "" then "general" else t)
  {
    hide Trim, ToLower;
  }

  lemma SlugIsFixed(s: string)
    requires IsSlug(s) && Trimmed(s) && ToLower(s) == s
    ensures Slug(Str(s)) == Some(s)
  {
    hide ToLower, Trim;
  }

  lemma AttendanceIsNormal(body: Json, base: Json, env: Env)
    ensures var a := Attendance(body, base, env);
            NoRepeats(a) && forall m :: m in a ==> m in AttendanceMethods()
  {
    hide Distinct, AttendanceMethods, StoredAttendance, Field;
    var a := Attendance(body, base, env);
    var items := if Field(body, "attendance_methods").Arr? then Items(Field(body, "attendance_methods"))
                 else StoredAttendance(base, env);
    forall m | m in a ensures m in AttendanceMethods() {
      var k :| 0 <= k < |items| && MethodToken(items[k]) == Some(m);
    }
  }

  lemma AttendanceIsFixed(a: seq<string>)
    requires NoRepeats(a) && forall m :: m in a ==> m in AttendanceMethods()
    ensures Distinct(Texts(a).items, MethodToken) == a
  {
    hide Distinct, NoRepeats, AttendanceMethods;
    forall i | 0 <= i < |a| ensures MethodToken(Str(a[i])) == Some(a[i]) {
      assert a[i] in a;
    }
    DistinctReadsBack(a, Texts(a).items, MethodToken);
  }

  /** Stored methods are read from a list, from the text of one, or from the texts among an object's values. */
  lemma StoredMethods(v: Json, m: string, env: Env)
    requires m in {"host_code", "social_proof", "geo"}
    ensures m in Distinct(StoredAttendance(v, env), MethodToken) <==>
            match v
            case Arr(items) => Str(m) in items
            case Str(s) => env.parse(s).Some? && env.parse(s).value.Arr? && Str(m) in env.parse(s).value.items
            case Obj(fields) => Str(m) in env.values(fields)
            case _ => false
  {
    var items := StoredAttendance(v, env);
    assert Str(m) in items <==> exists k :: 0 <= k < |items| && MethodToken(items[k]) == Some(m);
    match v
    case Obj(fields) => FilterIs(env.values(fields), IsText, Str(m));
    case _ =>
  }

  lemma {:induction false} FilterIs(items: seq<Json>, p: Json -> bool, x: Json)
    ensures x in Filter(items, p) <==> x in items && p(x)
  {
    if |items| > 0 {
      FilterIs(items[1..], p, x);
      assert items == [items[0]] + items[1..];
    }
  }

  /** A waitlist value counts as on unless it is null, false, zero or the empty text. */
  lemma TruthyIff(v: Json)
    ensures Truthy(v) <==> v != Null && v != Bool(false) && v != Num("0") && v != Str("")
  {
  }

  lemma WholeIsWhole(v: real)
    ensures IsWhole(Whole(v))
    ensures IsWhole(v) ==> Whole(v) == v
  {
  }

  // ---------- The payload as a whole ----------

  lemma BuiltIsNormal(body: Json, base: Row, strict: bool, env: Env)
    requires Build(body, base, strict, env).Ok?
    ensures Normal(Build(body, base, strict, env).value)
  {
    hide Sanitize, Optional, TruncateLocation, CauseTags, Slug, Attendance, NumberOf, Times, Waitlist, Clean;
    hide CleanOption;
    hide IsLocation, AllClean, IsWhole, Whole, IsSlug, Trimmed, ToLower, NoRepeats, AttendanceMethods, Field, Pick;
    var p := Build(body, base, strict, env).value;
    CleanTexts(body, base, strict, env);
    TruncatedIsLocation(Pick(body, "location_text", base.location));
    TagsAreClean(TagInput(body, base));
    SlugIsNormal(Pick(body, "funding_pool_slug", base.slug));
    AttendanceIsNormal(body, base.attendance, env);
    var c := NumberOf(body, "impact_credits_base", base.credits, 10.0, env);
    var r := NumberOf(body, "reliability_weight", base.reliability, 1.0, env);
    WholeIsWhole(if c.Some? then c.value else 10.0);
    WholeIsWhole(if r.Some? then r.value else 1.0);
    Defaults();
  }

  lemma Defaults()
    ensures IsWhole(10.0) && IsWhole(1.0)
  {
  }

  lemma CleanTexts(body: Json, base: Row, strict: bool, env: Env)
    requires Build(body, base, strict, env).Ok?
    ensures var p := Build(body, base, strict, env).value;
            && Clean(p.title) && Clean(p.category) && Clean(p.tz) && Clean(p.org)
            && CleanOption(p.community) && CleanOption(p.requirements) && CleanOption(p.cover)
            && CleanOption(p.description) && CleanOption(p.safety) && CleanOption(p.project)
  {
    hide Sanitize, TruncateLocation, CauseTags, Slug, Attendance, NumberOf, Times, Waitlist, Clean, Capacity;
    hide Visibility, Whole;
    hide IsLocation, AllClean, Trimmed, Field, Pick, Texts;
    FirstTagIsClean(CauseTags(TagInput(body, base)), TagInput(body, base));
    SanitizedIsClean(Pick(body, "title", base.title));
    SanitizedIsClean(Pick(body, "tz", base.tz));
    SanitizedIsClean(Pick(body, "org_name", base.org));
    SanitizedIsClean(Pick(body, "category", base.category));
    SanitizedIsClean(Pick(body, "community_tag", base.community));
    SanitizedIsClean(Pick(body, "requirements", base.requirements));
    SanitizedIsClean(Pick(body, "cover_url", base.cover));
    SanitizedIsClean(Pick(body, "description", base.description));
    SanitizedIsClean(Pick(body, "safety_notes", base.safety));
    SanitizedIsClean(ProjectInput(body, base));
    DefaultZoneIsClean();
  }

  lemma DefaultZoneIsClean()
    ensures Clean(DEFAULT_TZ)
  {
  }

  lemma FirstTagIsClean(tags: seq<string>, v: Json)
    requires tags == CauseTags(v)
    ensures |tags| >= 1 ==> Clean(tags[0])
  {
    TagsAreClean(v);
  }

  /** A body that sets nothing but, perhaps, the status. */
  predicate Silent(body: Json) {
    body.Obj? ==> body.fields.Keys <= {"status"}
  }

  predicate Publishable(p: Payload) {
    p.location != "" && p.startAt.Some? && p.endAt.Some?
  }

  lemma SilentFields(body: Json, name: string)
    requires Silent(body) && name != "status"
    ensures Field(body, name).Null?
  {
  }

  /** Rebuilding a normal payload from its own row, with nothing in the body, returns it field by field. */
  lemma NormalIsFixed(body: Json, p: Payload, strict: bool, env: Env)
    requires Silent(body) && Normal(p) && (strict ==> Publishable(p))
    ensures Build(body, Stored(p), strict, env) == Ok(p)
  {
    hide Sanitize, Optional, TruncateLocation, CauseTags, Slug, Attendance, Clean, CleanOption, Texts, TextOrNull;
    hide IsLocation, AllClean, IsWhole, Whole, IsSlug, Trimmed, ToLower, NoRepeats, AttendanceMethods;
    hide VerificationMethods;
    hide Field, Silent, Pick, Times, NumberOf, Capacity, Waitlist, Visibility;
    var base := Stored(p);
    CleanIsTrimmed(p.title);
    CleanIsTrimmed(p.org);
    TextsAreFixed(body, p);
    ListsAreFixed(body, p, env);
    NumbersAreFixed(body, p, env);
    TimesAreFixed(body, p, strict, env);
  }

  lemma TextsAreFixed(body: Json, p: Payload)
    requires Silent(body) && Normal(p)
    ensures var base := Stored(p);
            && Sanitize(Pick(body, "title", base.title)) == p.title
            && Optional(Sanitize(Pick(body, "tz", base.tz))) == Some(p.tz)
            && TruncateLocation(Pick(body, "location_text", base.location)) == p.location
            && Sanitize(Pick(body, "org_name", base.org)) == p.org
            && Optional(Sanitize(Pick(body, "category", base.category))) == Some(p.category)
            && Optional(Sanitize(Pick(body, "community_tag", base.community))) == p.community
            && Optional(Sanitize(Pick(body, "requirements", base.requirements))) == p.requirements
            && Sanitize(Pick(body, "verification_method", base.verification)) == p.verification
            && Optional(Sanitize(Pick(body, "cover_url", base.cover))) == p.cover
            && Optional(Sanitize(Pick(body, "description", base.description))) == p.description
            && Optional(Sanitize(Pick(body, "safety_notes", base.safety))) == p.safety
            && Optional(Sanitize(ProjectInput(body, base))) == p.project
            && Slug(Pick(body, "funding_pool_slug", base.slug)) == Some(p.slug)
  {
    hide Sanitize, TruncateLocation, Slug, Clean, Texts, IsLocation, AllClean, IsWhole, IsSlug, Trimmed, ToLower;
    hide NoRepeats, AttendanceMethods, Field, Silent;
    AbsentTexts(body);
    CleanIsFixed(p.title);
    CleanIsFixed(p.tz);
    CleanIsFixed(p.org);
    CleanIsFixed(p.category);
    OptionIsFixed(Some(p.tz));
    OptionIsFixed(Some(p.category));
    LocationIsFixed(p.location);
    OptionIsFixed(p.community);
    OptionIsFixed(p.requirements);
    VerificationIsFixed(p.verification);
    OptionIsFixed(p.cover);
    OptionIsFixed(p.description);
    OptionIsFixed(p.safety);
    OptionIsFixed(p.project);
    SlugIsFixed(p.slug);
  }

  lemma VerificationIsFixed(m: string)
    requires m in VerificationMethods()
    ensures Sanitize(Str(m)) == m
  {
    hide Trim;
    assert m[0] in {'h', 'q', 's'} && m[|m| - 1] in {'t', 'b', 'f'};
  }

  lemma AbsentTexts(body: Json)
    requires Silent(body)
    ensures Field(body, "title").Null? && Field(body, "tz").Null? && Field(body, "location_text").Null?
    ensures Field(body, "org_name").Null? && Field(body, "category").Null? && Field(body, "community_tag").Null?
    ensures Field(body, "requirements").Null? && Field(body, "verification_method").Null?
    ensures Field(body, "cover_url").Null?
    ensures Field(body, "description").Null? && Field(body, "safety_notes").Null? && Field(body, "project_id").Null?
    ensures Field(body, "projectId").Null? && Field(body, "funding_pool_slug").Null?
  {
    SilentFields(body, "title");
  }

  lemma ListsAreFixed(body: Json, p: Payload, env: Env)
    requires Silent(body) && Normal(p)
    ensures CauseTags(TagInput(body, Stored(p))) == p.causeTags
    ensures Attendance(body, Stored(p).attendance, env) == p.attendance
  {
    hide CauseTags, Clean, CleanOption, IsLocation, AllClean, IsWhole, IsSlug, Trimmed, ToLower;
    hide NoRepeats, AttendanceMethods, Distinct;
    SilentFields(body, "cause_tags");
    SilentFields(body, "attendance_methods");
    TagsAreFixed(p.causeTags);
    AttendanceIsFixed(p.attendance);
  }

  lemma NumbersAreFixed(body: Json, p: Payload, env: Env)
    requires Silent(body) && Normal(p)
    ensures Capacity(body, p.capacity, env) == Ok(p.capacity)
    ensures NumberOf(body, "impact_credits_base", Some(p.credits), 10.0, env) == Some(p.credits)
    ensures Whole(p.credits) == p.credits
    ensures NumberOf(body, "reliability_weight", Some(p.reliability), 1.0, env) == Some(p.reliability)
    ensures Whole(p.reliability) == p.reliability
    ensures NumberOf(body, "reward_pool_kind", Some(p.rewardPool), 0.0, env) == Some(p.rewardPool)
    ensures AtLeastZero(p.rewardPool) == p.rewardPool
    ensures Waitlist(body, Some(p.waitlist)) == p.waitlist
    ensures Visibility(body, Some(p.visibility)) == p.visibility
  {
    hide Clean, CleanOption, IsLocation, AllClean, IsSlug, Trimmed, ToLower, NoRepeats, AttendanceMethods;
    hide VerificationMethods;
    SilentFields(body, "capacity");
    SilentFields(body, "impact_credits_base");
    SilentFields(body, "reliability_weight");
    SilentFields(body, "reward_pool_kind");
    SilentFields(body, "visibility");
    WholeIsWhole(p.credits);
    WholeIsWhole(p.reliability);
  }

  lemma TimesAreFixed(body: Json, p: Payload, strict: bool, env: Env)
    requires Silent(body) && (strict ==> Publishable(p))
    ensures Times(body, Stored(p), p.tz, strict, env) == Ok((p.startAt, p.endAt))
  {
    SilentFields(body, "date");
    SilentFields(body, "time_range");
    SilentFields(body, "time");
  }

  /** A strict build has a location and both instants; every build has a title, an organisation, a tag and a method. */
  lemma StrictIsPublishable(body: Json, base: Row, env: Env)
    requires Build(body, base, true, env).Ok?
    ensures Publishable(Build(body, base, true, env).value)
  {
    hide Sanitize, Optional, TruncateLocation, CauseTags, Slug, Attendance, NumberOf, Instants, Waitlist;
    hide Capacity, Visibility, Whole, Pick, Field;
  }

  /** A stored payload publishes without further changes exactly when it is publishable. */
  lemma PublishIff(body: Json, p: Payload, env: Env)
    requires Silent(body) && Normal(p)
    ensures Build(body, Stored(p), true, env).Ok? <==> Publishable(p)
  {
    hide Normal, Silent;
    if Publishable(p) {
      NormalIsFixed(body, p, true, env);
    } else if p.location == "" {
      StrictNeedsLocation(body, p, env);
    } else {
      StrictNeedsTimes(body, p, env);
    }
  }

  lemma StrictNeedsLocation(body: Json, p: Payload, env: Env)
    requires Silent(body) && Normal(p) && p.location == ""
    ensures Build(body, Stored(p), true, env).Err?
  {
    hide Sanitize, Optional, TruncateLocation, CauseTags, Slug, Attendance, Clean, CleanOption, Texts, TextOrNull;
    hide IsLocation, AllClean, IsWhole, Whole, IsSlug, Trimmed, ToLower, NoRepeats, AttendanceMethods;
    hide VerificationMethods;
    hide Field, Silent, Pick, Times, NumberOf, Capacity, Waitlist, Visibility;
    TextsAreFixed(body, p);
  }

  lemma StrictNeedsTimes(body: Json, p: Payload, env: Env)
    requires Silent(body) && Normal(p) && (p.startAt.None? || p.endAt.None?)
    ensures Build(body, Stored(p), true, env).Err?
  {
    hide Sanitize, Optional, TruncateLocation, CauseTags, Slug, Attendance, Clean, CleanOption, Texts, TextOrNull;
    hide IsLocation, AllClean, IsWhole, Whole, IsSlug, Trimmed, ToLower, NoRepeats, AttendanceMethods;
    hide VerificationMethods;
    hide Field, Silent, Pick, Times, NumberOf, Capacity, Waitlist, Visibility;
    TextsAreFixed(body, p);
    NoTimes(body, p, env);
  }

  lemma NoTimes(body: Json, p: Payload, env: Env)
    requires Silent(body) && (p.startAt.None? || p.endAt.None?)
    ensures Times(body, Stored(p), p.tz, true, env) == Err(TimesRequired)
  {
    SilentFields(body, "date");
    SilentFields(body, "time_range");
    SilentFields(body, "time");
  }

  /** Building twice is building once: with an empty body a stored payload is reproduced exactly. */
  lemma BuildIsIdempotent(body: Json, base: Row, strict: bool, again: Json, env: Env)
    requires Build(body, base, strict, env).Ok? && Silent(again)
    ensures var p := Build(body, base, strict, env).value;
            Build(again, Stored(p), strict, env) == Ok(p) && Build(again, Stored(p), false, env) == Ok(p)
  {
    hide Build, Normal, Silent, Publishable, Stored;
    var p := Build(body, base, strict, env).value;
    BuiltIsNormal(body, base, strict, env);
    if strict {
      StrictIsPublishable(body, base, env);
    }
    NormalIsFixed(again, p, strict, env);
    NormalIsFixed(again, p, false, env);
  }
}
