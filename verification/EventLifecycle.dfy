/** The requests on an event row: create, update, cancel, force-cancel, complete and delete. */
module EventLifecycle {
  import opened Wrappers
  import opened Strings
  import opened Sums
  import opened Json
  import opened EventPayload
  import opened EventPayloadNormal
  import opened EventPayloadPosted

  datatype Status = Draft | Published | Cancelled | Completed

  datatype Event = Event(host: nat, status: Status, payload: Payload)

  datatype Refusal =
    | NotFound | Forbidden | NotEditable | OnlyPublished | AlreadyStarted | AlreadyCancelled
    | NotFinished | OnlyDrafts | RolesInvalid | Unusable(reason: Invalid) | IdTaken

  function RequestedStatus(body: Json): Option<Status> {
    if Field(body, "status") == Str("draft") then Some(Draft)
    else if Field(body, "status") == Str("published") then Some(Published)
    else None
  }

  // ---------- Roles ----------

  /** The seats of one role: a title and a whole number of at least one. */
  function Seats(role: Json, env: Env): (r: Option<int>)
    ensures r.Some? ==> r.value >= 1
  {
    var count := if Field(role, "spotsNeeded").Null? then Field(role, "spots_needed") else Field(role, "spotsNeeded");
    if Sanitize(Field(role, "title")) == "" || count.Null? then None
    else
      match env.number(count)
      case Some(n) => if n.Floor as real == n && n >= 1.0 then Some(n.Floor) else None
      case None => None
  }

  function TotalSeats(roles: seq<Json>, env: Env): (r: Option<int>)
    ensures r.Some? ==> r.value >= |roles|
  {
    if |roles| == 0 then Some(0)
    else
      match (TotalSeats(roles[..|roles| - 1], env), Seats(roles[|roles| - 1], env))
      case (Some(total), Some(n)) => Some(total + n)
      case _ => None
  }

  function RoleCapacity(body: Json, env: Env): (r: Option<int>)
    ensures r.Some? ==> r.value >= 1
  {
    var roles := Items(Field(body, "roles"));
    if |roles| == 0 then None else TotalSeats(roles, env)
  }

  // ---------- Outcomes ----------

  /** A role has n seats exactly when it has a title and the number given for it, under either key, is n and
      a whole number from one up; the camel-case key comes first. */
  lemma SeatsIff(role: Json, env: Env, n: int)
    ensures Seats(role, env) == Some(n) <==>
            && n >= 1
            && Field(role, "title").Str? && Trim(Field(role, "title").s) != ""
            && (if Field(role, "spotsNeeded") != Null then env.number(Field(role, "spotsNeeded")) == Some(n as real)
                else Field(role, "spots_needed") != Null && env.number(Field(role, "spots_needed")) == Some(n as real))
  {
    hide Trim;
  }

  function SeatsOf(env: Env): Json -> int {
    role => Seats(role, env).GetOr(0)
  }

  /** Roles are accepted exactly when there are some and each has a title and seats, and then all seats count. */
  lemma RoleCapacityIsSum(body: Json, env: Env)
    ensures var roles := Items(Field(body, "roles"));
            && (RoleCapacity(body, env).Some? <==>
                  (|roles| > 0 && forall i :: 0 <= i < |roles| ==> Seats(roles[i], env).Some?))
            && (RoleCapacity(body, env).Some? ==> RoleCapacity(body, env).value == SumOver(roles, SeatsOf(env)))
  {
    hide Seats;
    TotalIsSum(Items(Field(body, "roles")), env);
  }

  lemma {:induction false} TotalIsSum(roles: seq<Json>, env: Env)
    ensures TotalSeats(roles, env).Some? <==> forall i :: 0 <= i < |roles| ==> Seats(roles[i], env).Some?
    ensures TotalSeats(roles, env).Some? ==> TotalSeats(roles, env).value == SumOver(roles, SeatsOf(env))
  {
    hide Seats;
    if |roles| > 0 {
      TotalIsSum(roles[..|roles| - 1], env);
    }
  }

  function WithoutCapacity(body: Json): Json {
    if body.Obj? then Obj(body.fields - {"capacity"}) else body
  }

  /** The capacity is the number of seats the roles need; the creator's organisation fills a missing name. */
  function CreateOutcome(host: nat, creatorOrg: Option<string>, body: Json, env: Env): Result<Event, Refusal> {
    var status := RequestedStatus(body).GetOr(Draft);
    match RoleCapacity(body, env)
    case None => Err(RolesInvalid)
    case Some(seats) =>
      var base := BLANK.(capacity := Some(seats as real), org := creatorOrg);
      match Build(WithoutCapacity(body), base, status.Published?, env)
      case Ok(p) => Ok(Event(host, status, p))
      case Err(e) => Err(Unusable(e))
  }

  /** An update leaves the project alone. */
  function UpdateOutcome(e: Event, body: Json, env: Env): Result<Event, Refusal> {
    if !(e.status.Draft? || e.status.Published?) then Err(NotEditable)
    else
      var status := RequestedStatus(body).GetOr(e.status);
      match Build(body, Stored(e.payload), status.Published?, env)
      case Ok(p) => Ok(e.(status := status, payload := p.(project := e.payload.project)))
      case Err(x) => Err(Unusable(x))
  }

  function CancelOutcome(e: Event, now: int): Result<Event, Refusal> {
    if !e.status.Published? then Err(OnlyPublished)
    else if e.payload.startAt.Some? && e.payload.startAt.value <= now then Err(AlreadyStarted)
    else Ok(e.(status := Cancelled))
  }

  function ForceCancelOutcome(e: Event): Result<Event, Refusal> {
    if !e.status.Published? then Err(OnlyPublished) else Ok(e.(status := Cancelled))
  }

  function CompleteOutcome(e: Event, now: int): Result<Event, Refusal> {
    if e.status.Cancelled? then Err(AlreadyCancelled)
    else if e.payload.endAt.None? || e.payload.endAt.value > now then Err(NotFinished)
    else Ok(e.(status := Completed))
  }

  datatype Action =
    | Create(id: nat, host: nat, creatorOrg: Option<string>, body: Json)
    | Update(id: nat, scope: set<nat>, body: Json)
    | Cancel(id: nat, scope: set<nat>, now: int)
    | ForceCancel(id: nat, scope: set<nat>)
    | Complete(id: nat, scope: set<nat>, now: int)
    | DeleteDraft(id: nat, scope: set<nat>)

  /** What a request answers on these rows: the row it leaves, or none for a deletion. */
  function Answer(rows: map<nat, Event>, a: Action, env: Env): Result<Option<Event>, Refusal> {
    if a.Create? then
      if a.id in rows then Err(IdTaken) else Lift(CreateOutcome(a.host, a.creatorOrg, a.body, env))
    else if a.id !in rows then Err(NotFound)
    else if rows[a.id].host !in a.scope then Err(Forbidden)
    else
      var e := rows[a.id];
      match a
      case Update(_, _, body) => Lift(UpdateOutcome(e, body, env))
      case Cancel(_, _, now) => Lift(CancelOutcome(e, now))
      case ForceCancel(_, _) => Lift(ForceCancelOutcome(e))
      case Complete(_, _, now) => Lift(CompleteOutcome(e, now))
      case DeleteDraft(_, _) => if e.status.Draft? then Ok(None) else Err(OnlyDrafts)
  }

  function Lift(r: Result<Event, Refusal>): Result<Option<Event>, Refusal> {
    match r case Ok(e) => Ok(Some(e)) case Err(x) => Err(x)
  }

  function Apply(rows: map<nat, Event>, a: Action, env: Env): map<nat, Event> {
    match Answer(rows, a, env)
    case Err(_) => rows
    case Ok(None) => rows - {a.id}
    case Ok(Some(e)) => rows[a.id := e]
  }

  /** UPDATE events SET status WHERE id, which does not look at the status it replaces. */
  function StatusWritten(rows: map<nat, Event>, id: nat, status: Status): map<nat, Event> {
    if id in rows then rows[id := rows[id].(status := status)] else rows
  }

  /** Event id, where there is one, has the given status; nothing else differs. */
  ghost predicate OnlyStatus(before: map<nat, Event>, after: map<nat, Event>, id: nat, status: Status) {
    && after.Keys == before.Keys
    && (forall i :: i in before && i != id ==> after[i] == before[i])
    && (id in before ==> after[id] == before[id].(status := status))
  }

  lemma CreatedIsPosted(host: nat, creatorOrg: Option<string>, body: Json, env: Env)
    requires CreateOutcome(host, creatorOrg, body, env).Ok?
    ensures var e := CreateOutcome(host, creatorOrg, body, env).value;
            && e.status == (if Field(body, "status") == Str("published") then Published else Draft)
            && |e.payload.causeTags| >= 1
            && Posted(WithoutCapacity(body), Unsaid(creatorOrg, e.payload.capacity, e.payload.causeTags[0]),
                      e.payload, env)
  {
    hide Build, RoleCapacity, Posted, Unsaid, WithoutCapacity;
    var e := CreateOutcome(host, creatorOrg, body, env).value;
    var seats := RoleCapacity(body, env).value;
    NewIsPosted(WithoutCapacity(body), creatorOrg, Some(seats as real), e.status.Published?, env);
    SeatsBecomeCapacity(body, BLANK.(capacity := Some(seats as real), org := creatorOrg), seats,
                        e.status.Published?, env);
  }

  lemma SeatsBecomeCapacity(body: Json, base: Row, seats: int, strict: bool, env: Env)
    requires seats >= 1 && base.capacity == Some(seats as real)
    requires Build(WithoutCapacity(body), base, strict, env).Ok?
    ensures Build(WithoutCapacity(body), base, strict, env).value.capacity == Some(seats as real)
  {
    hide Sanitize, Optional, TruncateLocation, CauseTags, Slug, Attendance, Times, Waitlist, Visibility, Whole, Pick;
  }

  /** An update does to each column what the form says of it, and a form can ask for any normal payload. */
  lemma UpdatedIsPosted(e: Event, body: Json, env: Env)
    ensures Normal(e.payload) && UpdateOutcome(e, body, env).Ok? ==>
              && UpdateOutcome(e, body, env).value.host == e.host
              && UpdateOutcome(e, body, env).value.status
                 == (match Field(body, "status")
                     case Str(s) => if s == "draft" then Draft else if s == "published" then Published else e.status
                     case _ => e.status)
              && Posted(body, e.payload, UpdateOutcome(e, body, env).value.payload, env)
    ensures forall p | Normal(p) && (e.status.Draft? || (e.status.Published? && Publishable(p)))
              && StatesTexts(body, p) && StatesRest(body, p, env) && StatesTimes(body, Stored(e.payload), p, env)
              && Field(body, "status").Null? ::
              UpdateOutcome(e, body, env) == Ok(e.(payload := p.(project := e.payload.project)))
  {
    hide Build, Normal, Posted, StatesTexts, StatesRest, StatesTimes, Stored, Publishable;
    var status := RequestedStatus(body).GetOr(e.status);
    if Normal(e.payload) && UpdateOutcome(e, body, env).Ok? {
      BuiltIsPosted(body, e.payload, status.Published?, env);
      ProjectIsApart(body, e.payload, Build(body, Stored(e.payload), status.Published?, env).value, env);
    }
    forall p | Normal(p) && (e.status.Draft? || (e.status.Published? && Publishable(p)))
      && StatesTexts(body, p) && StatesRest(body, p, env) && StatesTimes(body, Stored(e.payload), p, env)
      && Field(body, "status").Null?
      ensures UpdateOutcome(e, body, env) == Ok(e.(payload := p.(project := e.payload.project)))
    {
      StatedIsBuilt(body, Stored(e.payload), p, e.status.Published?, env);
    }
  }

  lemma ProjectIsApart(body: Json, was: Payload, now: Payload, env: Env)
    requires Posted(body, was, now, env)
    ensures Posted(body, was, now.(project := was.project), env)
  {
    hide TextPosted, OptionPosted, DefaultPosted, WholePosted, Field, NumbersPosted, TimesPosted, ListsPosted;
    hide ChoicesPosted;
    OthersAreApart(body, was, now, env);
  }

  lemma OthersAreApart(body: Json, was: Payload, now: Payload, env: Env)
    ensures var later := now.(project := was.project);
            && (NumbersPosted(body, was, later, env) <==> NumbersPosted(body, was, now, env))
            && (TimesPosted(body, was, later, env) <==> TimesPosted(body, was, now, env))
            && (ListsPosted(body, was, later) <==> ListsPosted(body, was, now))
            && (ChoicesPosted(body, was, later) <==> ChoicesPosted(body, was, now))
  {
    hide Field, WholePosted, Trim, Truthy, ToLower, TruncateLocation, CauseTags, Distinct;
  }

  /**
   * The events table. Creating and updating hold the row; the other requests read it, check, and write
   * by id without a lock: `meanwhile` is the table as others leave it before that write, and the table
   * itself for an uninterrupted request.
   */
  class Events {
    var rows: map<nat, Event>

    constructor ()
      ensures rows == map[]
    {
      rows := map[];
    }

    method CreateEvent(id: nat, host: nat, creatorOrg: Option<string>, body: Json, env: Env)
      returns (r: Result<(), Refusal>)
      requires id !in rows
      modifies this
      ensures rows == Apply(old(rows), Create(id, host, creatorOrg, body), env)
      ensures r.Err? <==> Answer(old(rows), Create(id, host, creatorOrg, body), env).Err?
      ensures r.Ok? ==> rows[id].host == host && rows[id].payload.capacity.Some? && Normal(rows[id].payload)
      ensures r.Ok? ==>
                && rows.Keys == old(rows).Keys + {id} && (forall i :: i in old(rows) ==> rows[i] == old(rows)[i])
                && rows[id].status == (if Field(body, "status") == Str("published") then Published else Draft)
                && |rows[id].payload.causeTags| >= 1
                && Posted(WithoutCapacity(body),
                          Unsaid(creatorOrg, rows[id].payload.capacity, rows[id].payload.causeTags[0]),
                          rows[id].payload, env)
    {
      hide Build, Normal, RoleCapacity, Posted, Unsaid, Field, WithoutCapacity;
      var outcome := CreateOutcome(host, creatorOrg, body, env);
      if outcome.Err? {
        return Err(outcome.error);
      }
      CreatedIsSound(host, creatorOrg, body, env);
      CreatedIsPosted(host, creatorOrg, body, env);
      rows := rows[id := outcome.value];
      return Ok(());
    }

    method UpdateEvent(id: nat, scope: set<nat>, body: Json, env: Env) returns (r: Result<(), Refusal>)
      modifies this
      ensures rows == Apply(old(rows), Update(id, scope, body), env)
      ensures r.Ok? ==> id in old(rows) && old(rows)[id].host in scope
                        && (old(rows)[id].status.Draft? || old(rows)[id].status.Published?)
      ensures r.Ok? ==> rows[id].payload.project == old(rows)[id].payload.project
      ensures r.Ok? && Normal(old(rows)[id].payload) ==>
                && rows.Keys == old(rows).Keys && rows[id].host == old(rows)[id].host
                && (forall i :: i in rows && i != id ==> rows[i] == old(rows)[i])
                && rows[id].status == (match Field(body, "status")
                                       case Str(s) => if s == "draft" then Draft
                                                      else if s == "published" then Published else old(rows)[id].status
                                       case _ => old(rows)[id].status)
                && Posted(body, old(rows)[id].payload, rows[id].payload, env)
      ensures forall p | Normal(p) && id in old(rows) && old(rows)[id].host in scope
                && (old(rows)[id].status.Draft? || (old(rows)[id].status.Published? && Publishable(p)))
                && StatesTexts(body, p) && StatesRest(body, p, env)
                && StatesTimes(body, Stored(old(rows)[id].payload), p, env) && Field(body, "status").Null? ::
                r.Ok? && rows[id] == old(rows)[id].(payload := p.(project := old(rows)[id].payload.project))
    {
      hide Build, Normal, Posted, StatesTexts, StatesRest, StatesTimes, Stored, Publishable;
      if id in rows {
        UpdatedIsPosted(rows[id], body, env);
      }
      if id !in rows {
        return Err(NotFound);
      }
      if rows[id].host !in scope {
        return Err(Forbidden);
      }
      var outcome := UpdateOutcome(rows[id], body, env);
      if outcome.Err? {
        return Err(outcome.error);
      }
      rows := rows[id := outcome.value];
      return Ok(());
    }

    method CancelEvent(id: nat, scope: set<nat>, now: int, meanwhile: map<nat, Event>)
      returns (r: Result<(), Refusal>)
      modifies this
      ensures r.Ok? <==> (id in old(rows) && old(rows)[id].host in scope && old(rows)[id].status.Published?
                          && (old(rows)[id].payload.startAt.Some? ==> now < old(rows)[id].payload.startAt.value))
      ensures r.Err? ==> rows == old(rows)
      ensures r.Ok? ==> OnlyStatus(meanwhile, rows, id, Cancelled)
    {
      if id !in rows {
        return Err(NotFound);
      }
      if rows[id].host !in scope {
        return Err(Forbidden);
      }
      var outcome := CancelOutcome(rows[id], now);
      if outcome.Err? {
        return Err(outcome.error);
      }
      rows := meanwhile;
      rows := StatusWritten(rows, id, Cancelled);
      return Ok(());
    }

    method ForceCancelEvent(id: nat, scope: set<nat>, meanwhile: map<nat, Event>) returns (r: Result<(), Refusal>)
      modifies this
      ensures r.Ok? <==> (id in old(rows) && old(rows)[id].host in scope && old(rows)[id].status.Published?)
      ensures r.Err? ==> rows == old(rows)
      ensures r.Ok? ==> OnlyStatus(meanwhile, rows, id, Cancelled)
    {
      if id !in rows {
        return Err(NotFound);
      }
      if rows[id].host !in scope {
        return Err(Forbidden);
      }
      var outcome := ForceCancelOutcome(rows[id]);
      if outcome.Err? {
        return Err(outcome.error);
      }
      rows := meanwhile;
      rows := StatusWritten(rows, id, Cancelled);
      return Ok(());
    }

    method CompleteEvent(id: nat, scope: set<nat>, now: int, meanwhile: map<nat, Event>)
      returns (r: Result<(), Refusal>)
      modifies this
      ensures r.Ok? <==> (id in old(rows) && old(rows)[id].host in scope && !old(rows)[id].status.Cancelled?
                          && old(rows)[id].payload.endAt.Some? && old(rows)[id].payload.endAt.value <= now)
      ensures r.Err? ==> rows == old(rows)
      ensures r.Ok? ==> OnlyStatus(meanwhile, rows, id, Completed)
    {
      if id !in rows {
        return Err(NotFound);
      }
      if rows[id].host !in scope {
        return Err(Forbidden);
      }
      var outcome := CompleteOutcome(rows[id], now);
      if outcome.Err? {
        return Err(outcome.error);
      }
      rows := meanwhile;
      rows := StatusWritten(rows, id, Completed);
      return Ok(());
    }

    method DeleteDraftEvent(id: nat, scope: set<nat>, meanwhile: map<nat, Event>) returns (r: Result<(), Refusal>)
      modifies this
      ensures r.Ok? <==> (id in old(rows) && old(rows)[id].host in scope && old(rows)[id].status.Draft?)
      ensures r.Err? ==> rows == old(rows)
      ensures r.Ok? ==> rows.Keys == meanwhile.Keys - {id} && forall i :: i in rows ==> rows[i] == meanwhile[i]
    {
      if id !in rows {
        return Err(NotFound);
      }
      if rows[id].host !in scope {
        return Err(Forbidden);
      }
      if !rows[id].status.Draft? {
        return Err(OnlyDrafts);
      }
      rows := meanwhile;
      rows := rows - {id};
      return Ok(());
    }
  }

  // ---------- What every event looks like ----------

  /** Every row is in normal form; a published or cancelled one has a place and both instants. */
  ghost predicate Sound(e: Event) {
    && Normal(e.payload)
    && (e.status.Published? || e.status.Cancelled? ==> Publishable(e.payload))
    && (e.status.Completed? ==> e.payload.endAt.Some?)
  }

  ghost predicate AllSound(rows: map<nat, Event>) {
    forall k :: k in rows ==> Sound(rows[k])
  }

  lemma CreatedIsSound(host: nat, creatorOrg: Option<string>, body: Json, env: Env)
    requires CreateOutcome(host, creatorOrg, body, env).Ok?
    ensures Sound(CreateOutcome(host, creatorOrg, body, env).value)
    ensures CreateOutcome(host, creatorOrg, body, env).value.payload.capacity
         == Some(RoleCapacity(body, env).value as real)
  {
    hide Build, Normal, RoleCapacity;
    var seats := RoleCapacity(body, env).value;
    var base := BLANK.(capacity := Some(seats as real), org := creatorOrg);
    var published := RequestedStatus(body).GetOr(Draft).Published?;
    BuiltIsNormal(WithoutCapacity(body), base, published, env);
    if published {
      StrictIsPublishable(WithoutCapacity(body), base, env);
    }
    SeatsBecomeCapacity(body, base, seats, published, env);
  }

  lemma UpdatedIsSound(e: Event, body: Json, env: Env)
    requires Sound(e) && UpdateOutcome(e, body, env).Ok?
    ensures Sound(UpdateOutcome(e, body, env).value)
  {
    hide Build, Stored;
    var status := RequestedStatus(body).GetOr(e.status);
    BuiltIsNormal(body, Stored(e.payload), status.Published?, env);
    var p := Build(body, Stored(e.payload), status.Published?, env).value;
    if status.Published? {
      StrictIsPublishable(body, Stored(e.payload), env);
    }
    KeepsProject(p, e.payload.project);
  }

  /** An update leaves a normal row normal, and complete if it is published. */
  lemma UpdatedIsPublishable(e: Event, body: Json, env: Env)
    requires Normal(e.payload) && UpdateOutcome(e, body, env).Ok?
    ensures var u := UpdateOutcome(e, body, env).value;
            Normal(u.payload) && (u.status.Published? ==> Publishable(u.payload)) && !Final(u)
  {
    hide Build, Stored, Normal;
    var status := RequestedStatus(body).GetOr(e.status);
    BuiltIsNormal(body, Stored(e.payload), status.Published?, env);
    var p := Build(body, Stored(e.payload), status.Published?, env).value;
    if status.Published? {
      StrictIsPublishable(body, Stored(e.payload), env);
    }
    ProjectIsClean(e.payload);
    KeepsProject(p, e.payload.project);
  }

  lemma ProjectIsClean(p: Payload)
    requires Normal(p)
    ensures CleanOption(p.project)
  {
    hide CleanOption, IsLocation, AllClean, Clean;
  }

  lemma KeepsProject(p: Payload, project: Option<string>)
    requires Normal(p) && CleanOption(project)
    ensures Normal(p.(project := project))
  {
    hide IsLocation, AllClean, IsWhole, IsSlug, Clean, Trimmed, ToLower, NoRepeats, AttendanceMethods;
  }

  lemma StepKeepsSound(rows: map<nat, Event>, a: Action, env: Env)
    requires AllSound(rows)
    ensures AllSound(Apply(rows, a, env))
  {
    hide CreateOutcome, UpdateOutcome, Normal;
    if a.Create? {
      if CreateOutcome(a.host, a.creatorOrg, a.body, env).Ok? {
        CreatedIsSound(a.host, a.creatorOrg, a.body, env);
      }
    } else if a.id in rows && a.Update? {
      if UpdateOutcome(rows[a.id], a.body, env).Ok? {
        UpdatedIsSound(rows[a.id], a.body, env);
      }
    }
  }

  // ---------- Final states ----------

  predicate Final(e: Event) {
    e.status.Cancelled? || e.status.Completed?
  }

  /** Publishing a draft without other changes succeeds exactly when it has a place and both instants, and
      changes nothing else. */
  lemma PublishingADraft(e: Event, env: Env)
    requires Sound(e) && e.status.Draft?
    ensures var body := Obj(map["status" := Str("published")]);
            var o := UpdateOutcome(e, body, env);
            (o.Ok? <==> Publishable(e.payload)) && (o.Ok? ==> o.value == e.(status := Published))
  {
    hide Build, Stored, Normal, Publishable;
    var body := Obj(map["status" := Str("published")]);
    assert RequestedStatus(body) == Some(Published);
    PublishIff(body, e.payload, env);
    if Publishable(e.payload) {
      NormalIsFixed(body, e.payload, true, env);
    }
  }
}
