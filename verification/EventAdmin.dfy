/** What an administrator writes to event rows: field edits, project assignment and deletion, all by id. */
module EventAdmin {
  import opened Wrappers
  import opened Strings
  import opened Json
  import opened EventPayload
  import opened EventPayloadNormal
  import opened EventLifecycle

  /** The fields of an accepted edit; an absent one is left alone. */
  datatype Edit = Edit(
    title: Option<string>, description: Option<string>, startAt: Option<int>, endAt: Option<int>, tz: Option<string>,
    location: Option<string>, capacity: Option<nat>, status: Option<Status>, visibility: Option<string>)
  {
    /** What is not refused: a positive capacity and a known visibility. */
    predicate Valid() {
      (capacity.Some? ==> capacity.value >= 1) && (visibility.Some? ==> visibility.value in Visibilities())
    }
  }

  const NO_EDIT := Edit(None, None, None, None, None, None, None, None, None)

  function Texted(given: Option<string>, stored: string): string {
    match given case Some(s) => Trim(s) case None => stored
  }

  /** One UPDATE by id, whatever the row's status, and whatever it then lacks. */
  function Edited(e: Event, x: Edit): Event {
    var p := e.payload;
    Event(e.host, x.status.GetOr(e.status),
          p.(title := Texted(x.title, p.title),
             description := if x.description.Some? then Some(Trim(x.description.value)) else p.description,
             startAt := if x.startAt.Some? then x.startAt else p.startAt,
             endAt := if x.endAt.Some? then x.endAt else p.endAt,
             tz := Texted(x.tz, p.tz),
             location := Texted(x.location, p.location),
             capacity := if x.capacity.Some? then Some(x.capacity.value as real) else p.capacity,
             visibility := x.visibility.GetOr(p.visibility)))
  }

  /** The edit gives some field a value it does not have. */
  predicate Alters(e: Event, x: Edit) {
    var p := e.payload;
    || (x.status.Some? && x.status.value != e.status)
    || (x.title.Some? && Trim(x.title.value) != p.title)
    || (x.description.Some? && Some(Trim(x.description.value)) != p.description)
    || (x.startAt.Some? && x.startAt != p.startAt)
    || (x.endAt.Some? && x.endAt != p.endAt)
    || (x.tz.Some? && Trim(x.tz.value) != p.tz)
    || (x.location.Some? && Trim(x.location.value) != p.location)
    || (x.capacity.Some? && Some(x.capacity.value as real) != p.capacity)
    || (x.visibility.Some? && x.visibility.value != p.visibility)
  }

  lemma EditedDiffersIff(e: Event, x: Edit)
    ensures Edited(e, x) != e <==> Alters(e, x)
  {
    hide Trim;
  }

  function Assigned(e: Event, project: string): Event {
    e.(payload := e.payload.(project := Some(project)))
  }

  // ---------- Which edits leave an event as the form would ----------

  /** A blank title, zone or description, or a place that is more than three parts or untidy. */
  predicate Malformed(x: Edit) {
    || (x.title.Some? && Trim(x.title.value) == "")
    || (x.tz.Some? && Trim(x.tz.value) == "")
    || (x.description.Some? && Trim(x.description.value) == "")
    || (x.location.Some? && TruncateLocation(Str(x.location.value)) != Trim(x.location.value))
  }

  /** After the edit there is a place and both instants. */
  predicate Placed(e: Event, x: Edit) {
    && (if x.location.Some? then Trim(x.location.value) != "" else e.payload.location != "")
    && (x.startAt.Some? || e.payload.startAt.Some?)
    && (x.endAt.Some? || e.payload.endAt.Some?)
  }

  /** The status after the edit asks for what the event then lacks. */
  predicate Lacks(e: Event, x: Edit) {
    match x.status.GetOr(e.status)
    case Draft => false
    case Completed => x.endAt.None? && e.payload.endAt.None?
    case _ => !Placed(e, x)
  }

  lemma LocationIff(s: string)
    ensures IsLocation(Trim(s)) <==> TruncateLocation(Str(s)) == Trim(s)
  {
    hide IsLocation, Split, Join, NonEmpty, MapTrim, Trimmed, Trim;
    assert Sanitize(Str(s)) == Sanitize(Str(Trim(s))) by { TrimTwice(s); }
    if IsLocation(Trim(s)) {
      LocationIsFixed(Trim(s));
    }
    TruncatedIsLocation(Str(s));
  }

  lemma TrimTwice(s: string)
    ensures Trim(Trim(s)) == Trim(s)
  {
    hide TrimStart, TrimEnd;
  }

  lemma EditedNormalIff(e: Event, x: Edit)
    requires Normal(e.payload) && x.Valid()
    ensures Normal(Edited(e, x).payload) <==> !Malformed(x)
  {
    hide IsLocation, TruncateLocation, Trim, AllClean, NoRepeats, IsSlug, ToLower, IsWhole, Trimmed, AttendanceMethods;
    if x.location.Some? {
      LocationIff(x.location.value);
    }
    TrimmedTexts(x);
  }

  lemma TrimmedTexts(x: Edit)
    ensures x.title.Some? ==> (Clean(Trim(x.title.value)) <==> Trim(x.title.value) != "")
    ensures x.tz.Some? ==> (Clean(Trim(x.tz.value)) <==> Trim(x.tz.value) != "")
    ensures x.description.Some? ==> (Clean(Trim(x.description.value)) <==> Trim(x.description.value) != "")
  {
    hide TrimStart, TrimEnd;
  }

  /** An edit leaves a sound event sound exactly when it is well formed and lacks nothing. */
  lemma EditedSoundIff(e: Event, x: Edit)
    requires Sound(e) && x.Valid()
    ensures Sound(Edited(e, x)) <==> !Malformed(x) && !Lacks(e, x)
  {
    hide Normal, Malformed, Trim;
    EditedNormalIff(e, x);
  }

  lemma AssignedIsSound(e: Event, project: string)
    requires Clean(project)
    ensures Normal(e.payload) ==> Normal(Assigned(e, project).payload)
    ensures Sound(e) ==> Sound(Assigned(e, project))
  {
    hide Normal, Clean;
    if Normal(e.payload) {
      KeepsProject(e.payload, Some(project));
    }
  }
}
