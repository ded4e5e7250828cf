/** The attendance part of an RSVP row: sign-up, check-in, no-show and verification. */
module Attendance {
  import opened Wrappers
  import opened Strings

  const MIN_MINUTES := 15
  const MAX_MINUTES := 480

  datatype Status = Pending | Waitlisted | Accepted | CheckedIn | Declined
  datatype Verification = Unverified | Verified | Rejected

  datatype Rsvp = Rsvp(
    status: Status,
    noShow: bool,
    verification: Verification,
    minutes: Option<int>,
    checkedInAt: Option<int>,
    checkInMethod: Option<string>,
    verifiedAt: Option<int>)

  /** Times are seconds; methods is the event's attendance_methods list. */
  datatype Event = Event(host: nat, cancelled: bool, startAt: Option<int>, endAt: Option<int>, methods: seq<string>)

  datatype Refusal =
    | Cancelled | HostNeedsNoCheckIn | InvalidMethod | MethodNotUsed | NotAccepted
    | Forbidden | TooEarly | NoRsvp | HostExempt | AlreadySignedUp | AlreadyVerified | MarkedNoShow

  function Methods(): set<string> { {"host_code", "social_proof", "geo"} }

  predicate Attending(r: Rsvp) {
    r.status.Accepted? || r.status.CheckedIn?
  }

  // ---------- The two halves of a check-in ----------

  /** The requested method, or the host code if offered, or the first one offered. */
  function ResolveMethod(requested: string, allowed: seq<string>): string {
    if requested in Methods() then requested
    else if "host_code" in allowed then "host_code"
    else if |allowed| > 0 && ToLower(allowed[0]) in Methods() then ToLower(allowed[0])
    else ""
  }

  /** Everything a check-in reads before it writes. */
  function CheckInAllowed(e: Event, attendee: nat, row: Option<Rsvp>, requested: string): Result<string, Refusal> {
    var via := ResolveMethod(requested, e.methods);
    if e.cancelled then Err(Cancelled)
    else if attendee == e.host then Err(HostNeedsNoCheckIn)
    else if via !in Methods() then Err(InvalidMethod)
    else if via !in e.methods then Err(MethodNotUsed)
    else if row.None? || !Attending(row.value) then Err(NotAccepted)
    else Ok(via)
  }

  /** The method that applies: the one asked for where it is known, else the host code where offered, else the
      first one offered where that is known. */
  predicate Applies(requested: string, offered: seq<string>, m: string) {
    if requested in {"host_code", "social_proof", "geo"} then m == requested
    else if "host_code" in offered then m == "host_code"
    else |offered| > 0 && m == ToLower(offered[0]) && m in {"host_code", "social_proof", "geo"}
  }

  /** A check-in is allowed exactly for an attending row, not the host's, of an event that is not cancelled and
      offers the method that applies, and takes that method. */
  lemma AllowedIff(e: Event, attendee: nat, row: Option<Rsvp>, requested: string)
    ensures var c := CheckInAllowed(e, attendee, row, requested);
            && (c.Ok? <==> (!e.cancelled && attendee != e.host && row.Some?
                            && (row.value.status.Accepted? || row.value.status.CheckedIn?)
                            && exists m :: Applies(requested, e.methods, m) && m in e.methods))
            && (c.Ok? ==> Applies(requested, e.methods, c.value) && c.value in e.methods)
  {
    var m := ResolveMethod(requested, e.methods);
    assert m in Methods() ==> Applies(requested, e.methods, m);
  }

  /** What a check-in writes, whatever the row has become meanwhile. */
  function CheckInWritten(r: Rsvp, via: string, now: int): Rsvp {
    r.(status := CheckedIn, checkInMethod := Some(via), checkedInAt := Some(now), noShow := false)
  }

  // ---------- No-show and verification, each under a row lock ----------

  function NoShowOutcome(e: Event, owns: bool, attendee: nat, row: Option<Rsvp>, now: int): Result<Rsvp, Refusal> {
    if !owns then Err(Forbidden)
    else if e.endAt.Some? && e.endAt.value > now then Err(TooEarly)
    else if row.None? then Err(NoRsvp)
    else if attendee == e.host then Err(HostExempt)
    else if !Attending(row.value) then Err(NotAccepted)
    else if row.value.verification.Verified? then Err(AlreadyVerified)
    else Ok(Rsvp(Accepted, true, Unverified, None, None, None, None))
  }

  /** The minutes credited: as given, else the event's length rounded, else an hour; then clamped. */
  function CreditedMinutes(e: Event, given: Option<int>): (m: int)
    ensures MIN_MINUTES <= m <= MAX_MINUTES
    ensures given.Some? && MIN_MINUTES <= given.value <= MAX_MINUTES ==> m == given.value
    ensures given.Some? && given.value < 15 ==> m == 15
    ensures given.Some? && given.value > 480 ==> m == 480
    ensures given.None? && e.startAt.Some? && e.endAt.Some? ==>
              var seconds := e.endAt.value - e.startAt.value;
              && (m == 15 || 60 * m - 30 <= seconds) && (m == 480 || seconds < 60 * m + 30)
    ensures given.None? && (e.startAt.None? || e.endAt.None?) ==> m == 60
  {
    var m :=
      if given.Some? then given.value
      else if e.startAt.Some? && e.endAt.Some? then (e.endAt.value - e.startAt.value + 30) / 60
      else 60;
    if m < MIN_MINUTES then MIN_MINUTES else if m > MAX_MINUTES then MAX_MINUTES else m
  }

  /** A verified row is answered as it stands; any other attending row takes the decision. */
  function VerifyOutcome(e: Event, owns: bool, attendee: nat, row: Option<Rsvp>, reject: bool,
                         given: Option<int>, now: int): Result<Rsvp, Refusal> {
    if !owns then Err(Forbidden)
    else if attendee == e.host then Err(HostExempt)
    else if row.None? then Err(NoRsvp)
    else if !Attending(row.value) then Err(NotAccepted)
    else if row.value.noShow then Err(MarkedNoShow)
    else if row.value.verification.Verified? then Ok(row.value)
    else Ok(row.value.(verification := if reject then Rejected else Verified,
                       minutes := Some(CreditedMinutes(e, given)),
                       verifiedAt := Some(now)))
  }

  function SignedUp(): Rsvp {
    Rsvp(Accepted, false, Unverified, None, None, None, None)
  }

  function Get<K, V>(m: map<K, V>, k: K): Option<V> {
    if k in m then Some(m[k]) else None
  }

  /** The event_rsvps rows of one event. */
  class Roster {
    var rows: map<nat, Rsvp>

    constructor ()
      ensures rows == map[]
    {
      rows := map[];
    }

    /** The insert of createAdminSignup, inside its transaction. */
    method SignUp(attendee: nat) returns (r: Result<(), Refusal>)
      modifies this
      ensures r == if attendee in old(rows) then Err(AlreadySignedUp) else Ok(())
      ensures rows == if r.Ok? then old(rows)[attendee := SignedUp()] else old(rows)
      ensures r.Ok? ==> Attending(rows[attendee]) && !rows[attendee].noShow && rows[attendee].verification.Unverified?
    {
      if attendee in rows {
        return Err(AlreadySignedUp);
      }
      rows := rows[attendee := SignedUp()];
      return Ok(());
    }

    /** A check-in whose read and write are not interleaved with anything. */
    method CheckIn(e: Event, attendee: nat, requested: string, now: int) returns (r: Result<(), Refusal>)
      modifies this
      ensures r.Ok? <==> (!e.cancelled && attendee != e.host && attendee in old(rows)
                          && (old(rows)[attendee].status.Accepted? || old(rows)[attendee].status.CheckedIn?)
                          && exists m :: Applies(requested, e.methods, m) && m in e.methods)
      ensures r.Err? ==> rows == old(rows)
      ensures r.Ok? ==> exists m ::
                && Applies(requested, e.methods, m) && m in e.methods
                && rows == old(rows)[attendee := old(rows)[attendee].(
                             status := CheckedIn, checkInMethod := Some(m), checkedInAt := Some(now), noShow := false)]
    {
      hide Applies;
      AllowedIff(e, attendee, Get(rows, attendee), requested);
      var allowed := CheckInAllowed(e, attendee, Get(rows, attendee), requested);
      if allowed.Err? {
        return Err(allowed.error);
      }
      rows := rows[attendee := CheckInWritten(rows[attendee], allowed.value, now)];
      return Ok(());
    }

    method MarkNoShow(e: Event, owns: bool, attendee: nat, now: int) returns (r: Result<(), Refusal>)
      modifies this
      ensures r.Ok? <==> (owns && attendee != e.host && attendee in old(rows) && Attending(old(rows)[attendee])
                         && !old(rows)[attendee].verification.Verified? && (e.endAt.Some? ==> e.endAt.value <= now))
      ensures r.Err? ==> rows == old(rows)
      ensures r.Ok? ==> rows == old(rows)[attendee := Rsvp(Accepted, true, Unverified, None, None, None, None)]
    {
      var outcome := NoShowOutcome(e, owns, attendee, Get(rows, attendee), now);
      if outcome.Err? {
        return Err(outcome.error);
      }
      rows := rows[attendee := outcome.value];
      return Ok(());
    }

    method Verify(e: Event, owns: bool, attendee: nat, reject: bool, given: Option<int>, now: int)
      returns (r: Result<(), Refusal>)
      modifies this
      ensures r.Ok? <==> (owns && attendee != e.host && attendee in old(rows) && Attending(old(rows)[attendee])
                         && !old(rows)[attendee].noShow)
      ensures r.Err? ==> rows == old(rows)
      ensures r.Ok? && old(rows)[attendee].verification.Verified? ==> rows == old(rows)
      ensures r.Ok? && !old(rows)[attendee].verification.Verified? ==>
                rows == old(rows)[attendee := old(rows)[attendee].(
                          verification := if reject then Rejected else Verified,
                          minutes := Some(CreditedMinutes(e, given)),
                          verifiedAt := Some(now))]
    {
      var outcome := VerifyOutcome(e, owns, attendee, Get(rows, attendee), reject, given, now);
      if outcome.Err? {
        return Err(outcome.error);
      }
      rows := rows[attendee := outcome.value];
      return Ok(());
    }
  }
}
