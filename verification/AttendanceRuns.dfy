/** Runs of the attendance requests, with each check-in's read and write as separate steps. */
module AttendanceRuns {
  import opened Wrappers
  import opened Attendance

  /** rows of one event, the check-ins that have read but not yet written, and whether the event was deleted. */
  datatype State = State(rows: map<nat, Rsvp>, reading: map<nat, CheckIn>, gone: bool)

  datatype CheckIn = CheckIn(attendee: nat, via: string)

  datatype Action =
    | SignUp(attendee: nat)
    | OpenCheckIn(request: nat, e: Event, attendee: nat, requested: string)
    | FinishCheckIn(request: nat, now: int)
    | NoShow(e: Event, owns: bool, attendee: nat, now: int)
    | Verify(e: Event, owns: bool, attendee: nat, reject: bool, given: Option<int>, now: int)
      // The other writers of the row: an RSVP answer, promotion off the waitlist, and the
      // organisation portal's accept, decline and credit award.
    | Respond(attendee: nat, answer: Status)
    | Promote(attendee: nat)
    | PortalAccept(attendee: nat)
    | PortalDecline(attendee: nat)
    | PortalAward(attendee: nat)
      // The event is deleted, as a draft by its host or by an administrator, and its rows go with it.
    | DeleteEvent

  predicate Replies(answer: Status) {
    answer in {Pending, Waitlisted, Declined}
  }

  /** What the writer does to the row it addresses; refused requests leave it alone. */
  function Rewrite(r: Rsvp, a: Action): Rsvp {
    match a
    case NoShow(e, owns, attendee, now) =>
      var o := NoShowOutcome(e, owns, attendee, Some(r), now); if o.Ok? then o.value else r
    case Verify(e, owns, attendee, reject, given, now) =>
      var o := VerifyOutcome(e, owns, attendee, Some(r), reject, given, now); if o.Ok? then o.value else r
    case Respond(_, answer) =>
      if !Replies(answer) || (!answer.Declined? && Attending(r)) then r
      else r.(status := answer, checkInMethod := None, checkedInAt := None)
    case Promote(_) =>
      if r.status.Waitlisted? then r.(status := Pending, checkInMethod := None, checkedInAt := None) else r
    case PortalAccept(_) => if Attending(r) then r else r.(status := Accepted)
    case PortalDecline(_) => r.(status := Declined)
    case PortalAward(_) => r.(verification := Verified)
    case _ => r
  }

  function Target(s: State, a: Action): Option<nat> {
    match a
    case OpenCheckIn(_, _, _, _) => None
    case DeleteEvent => None
    case FinishCheckIn(request, _) => if request in s.reading then Some(s.reading[request].attendee) else None
    case _ => Some(a.attendee)
  }

  function RowAfter(s: State, a: Action, r: Rsvp): Rsvp {
    match a
    case FinishCheckIn(request, now) =>
      if request in s.reading then CheckInWritten(r, s.reading[request].via, now) else r
    case _ => Rewrite(r, a)
  }

  function Created(a: Action): Option<Rsvp> {
    match a
    case SignUp(_) => Some(SignedUp())
    case Respond(_, answer) => if Replies(answer) then Some(SignedUp().(status := answer)) else None
    case _ => None
  }

  function Reading(s: State, a: Action): map<nat, CheckIn> {
    match a
    case OpenCheckIn(request, e, attendee, requested) =>
      var allowed := CheckInAllowed(e, attendee, Get(s.rows, attendee), requested);
      if allowed.Ok? && request !in s.reading then s.reading[request := CheckIn(attendee, allowed.value)] else s.reading
    case FinishCheckIn(request, _) => s.reading - {request}
    case _ => s.reading
  }

  function Apply(s: State, a: Action): State {
    var rows :=
      match Target(s, a)
      case None => s.rows
      case Some(k) =>
        if k in s.rows then s.rows[k := RowAfter(s, a, s.rows[k])]
        else match Created(a) case Some(r) => if s.gone then s.rows else s.rows[k := r] case None => s.rows;
    State(if a.DeleteEvent? then map[] else rows, Reading(s, a), s.gone || a.DeleteEvent?)
  }

  function Run(s: State, actions: seq<Action>): State {
    if |actions| == 0 then s else Apply(Run(s, actions[..|actions| - 1]), actions[|actions| - 1])
  }

  // ---------- Invariants ----------

  /** Kept by every writer but an award to a row that has no minutes. */
  predicate Consistent(r: Rsvp) {
    && (r.noShow ==> r.verification.Unverified? && r.minutes.None? && r.checkedInAt.None?)
    && (r.status.CheckedIn? ==> r.checkedInAt.Some?)
    && (r.minutes.Some? ==> MIN_MINUTES <= r.minutes.value <= MAX_MINUTES)
    && (r.verification.Verified? ==> !r.noShow && r.minutes.Some?)
  }

  /** Kept by the events controller's own requests. */
  predicate Tight(r: Rsvp) {
    && Consistent(r)
    && (r.noShow ==> r.status.Accepted?)
    && (r.checkedInAt.Some? ==> r.status.CheckedIn?)
  }

  ghost predicate AllConsistent(s: State) {
    forall k :: k in s.rows ==> Consistent(s.rows[k])
  }

  ghost predicate AllTight(s: State) {
    forall k :: k in s.rows ==> Tight(s.rows[k])
  }

  predicate Hits(s: State, a: Action) {
    Target(s, a).Some? && Target(s, a).value in s.rows
  }

  function HitRow(s: State, a: Action): Rsvp
    requires Hits(s, a)
  {
    s.rows[Target(s, a).value]
  }

  /** An award to a row that was never given minutes. */
  predicate AwardsWithoutMinutes(s: State, a: Action) {
    a.PortalAward? && Hits(s, a) && HitRow(s, a).minutes.None?
  }

  /** A refusal of a no-show, or the portal declining someone who is checked in. */
  predicate LosesAttendance(s: State, a: Action) {
    && Hits(s, a)
    && ((a.Respond? && a.answer.Declined? && HitRow(s, a).noShow)
        || (a.PortalDecline? && (HitRow(s, a).noShow || HitRow(s, a).checkedInAt.Some?)))
  }

  lemma StepConsistentIff(s: State, a: Action)
    requires AllConsistent(s)
    ensures AllConsistent(Apply(s, a)) <==> !AwardsWithoutMinutes(s, a)
  {
    hide CheckInAllowed, CreditedMinutes;
    var t := Apply(s, a);
    if Hits(s, a) {
      var k := Target(s, a).value;
      RowConsistentIff(s, a, s.rows[k]);
      assert t.rows[k] == RowAfter(s, a, s.rows[k]);
      assert forall j :: j in t.rows && j != k ==> t.rows[j] == s.rows[j];
    }
  }

  lemma RowConsistentIff(s: State, a: Action, r: Rsvp)
    requires Consistent(r)
    ensures Consistent(RowAfter(s, a, r)) <==> !(a.PortalAward? && r.minutes.None?)
  {
    hide CheckInAllowed;
  }

  lemma StepTightIff(s: State, a: Action)
    requires AllTight(s)
    ensures AllTight(Apply(s, a)) <==> !AwardsWithoutMinutes(s, a) && !LosesAttendance(s, a)
  {
    hide CheckInAllowed, CreditedMinutes;
    var t := Apply(s, a);
    if Hits(s, a) {
      var k := Target(s, a).value;
      RowTightIff(s, a, s.rows[k]);
      assert t.rows[k] == RowAfter(s, a, s.rows[k]);
      assert forall j :: j in t.rows && j != k ==> t.rows[j] == s.rows[j];
    }
  }

  lemma RowTightIff(s: State, a: Action, r: Rsvp)
    requires Tight(r)
    ensures Tight(RowAfter(s, a, r)) <==>
            !(a.PortalAward? && r.minutes.None?)
            && !(a.Respond? && a.answer.Declined? && r.noShow)
            && !(a.PortalDecline? && (r.noShow || r.checkedInAt.Some?))
  {
    hide CheckInAllowed;
  }

  // ---------- Whole runs ----------

  /** The requests of the events controller. */
  predicate OwnRequest(a: Action) {
    a.SignUp? || a.OpenCheckIn? || a.FinishCheckIn? || a.NoShow? || a.Verify?
  }

  lemma {:induction false} RunStaysTight(s: State, actions: seq<Action>)
    requires AllTight(s) && forall i :: 0 <= i < |actions| ==> OwnRequest(actions[i])
    ensures AllTight(Run(s, actions))
  {
    hide AllTight, Apply;
    if |actions| > 0 {
      RunStaysTight(s, actions[..|actions| - 1]);
      StepTightIff(Run(s, actions[..|actions| - 1]), actions[|actions| - 1]);
    }
  }

  lemma {:induction false} RunStaysConsistent(s: State, actions: seq<Action>)
    requires AllConsistent(s) && forall i :: 0 <= i < |actions| ==> !actions[i].PortalAward?
    ensures AllConsistent(Run(s, actions))
  {
    hide AllConsistent, Apply;
    if |actions| > 0 {
      RunStaysConsistent(s, actions[..|actions| - 1]);
      StepConsistentIff(Run(s, actions[..|actions| - 1]), actions[|actions| - 1]);
    }
  }

  /** The row is verified, with these minutes at this time. */
  predicate VerifiedAs(s: State, k: nat, minutes: Option<int>, at: Option<int>) {
    k in s.rows && s.rows[k].verification.Verified? && s.rows[k].minutes == minutes && s.rows[k].verifiedAt == at
  }

  /** A step keeps a verification, its minutes and its time exactly when it does not delete the event. */
  lemma VerifiedKeptIff(s: State, a: Action, k: nat)
    requires k in s.rows && s.rows[k].verification.Verified?
    ensures VerifiedAs(Apply(s, a), k, s.rows[k].minutes, s.rows[k].verifiedAt) <==> !a.DeleteEvent?
  {
    hide CheckInAllowed, CreditedMinutes;
  }

  ghost predicate NoneDeletes(actions: seq<Action>) {
    forall i :: 0 <= i < |actions| ==> !actions[i].DeleteEvent?
  }

  /** The row is there, or the event is gone with all its rows. */
  predicate Kept(s: State, k: nat) {
    k in s.rows || (s.gone && s.rows == map[])
  }

  lemma StepKeeps(s: State, a: Action, k: nat)
    requires Kept(s, k)
    ensures Kept(Apply(s, a), k)
    ensures k in Apply(s, a).rows <==> k in s.rows && !a.DeleteEvent?
  {
    hide CheckInAllowed, RowAfter, Created;
  }

  /** A row is there after a run exactly when the event was not deleted. */
  lemma {:induction false} RowsStay(s: State, actions: seq<Action>, k: nat)
    requires k in s.rows
    ensures Kept(Run(s, actions), k)
    ensures k in Run(s, actions).rows <==> NoneDeletes(actions)
  {
    hide Apply;
    if |actions| > 0 {
      RowsStay(s, actions[..|actions| - 1], k);
      StepKeeps(Run(s, actions[..|actions| - 1]), actions[|actions| - 1], k);
    }
  }

  /** Over any run a verification, once reached, stands with its minutes and its time exactly when the event
      is not deleted. */
  lemma {:induction false} VerifiedIsFinal(s: State, actions: seq<Action>, k: nat)
    requires k in s.rows && s.rows[k].verification.Verified?
    ensures VerifiedAs(Run(s, actions), k, s.rows[k].minutes, s.rows[k].verifiedAt) <==> NoneDeletes(actions)
  {
    hide Apply;
    RowsStay(s, actions, k);
    if |actions| > 0 && NoneDeletes(actions) {
      VerifiedIsFinal(s, actions[..|actions| - 1], k);
      VerifiedKeptIff(Run(s, actions[..|actions| - 1]), actions[|actions| - 1], k);
    }
  }

  /** A no-show mark goes away only when a check-in of that attendee is written. */
  lemma {:induction false} OnlyCheckInClearsNoShow(s: State, actions: seq<Action>, k: nat)
    requires k in s.rows && s.rows[k].noShow
    requires k in Run(s, actions).rows && !Run(s, actions).rows[k].noShow
    ensures exists i :: 0 <= i < |actions| && actions[i].FinishCheckIn?
                        && Target(Run(s, actions[..i]), actions[i]) == Some(k)
  {
    hide CheckInAllowed, CreditedMinutes;
    RowsStay(s, actions, k);
    if |actions| > 0 {
      var init := actions[..|actions| - 1];
      assert actions[..|actions| - 1] == init;
      RowsStay(s, init, k);
      if !Run(s, init).rows[k].noShow {
        OnlyCheckInClearsNoShow(s, init, k);
        var i :| 0 <= i < |init| && init[i].FinishCheckIn? && Target(Run(s, init[..i]), init[i]) == Some(k);
        assert init[..i] == actions[..i] && init[i] == actions[i];
      }
    }
  }

  /** Signed up and awarded without minutes, or declined by the portal after a check-in: the columns disagree. */
  lemma ColumnsCanDisagree(e: Event, request: nat, k: nat, requested: string, t: int)
    requires CheckInAllowed(e, k, Some(SignedUp()), requested).Ok?
    ensures var none := State(map[], map[], false);
            && !AllConsistent(Run(none, [SignUp(k), PortalAward(k)]))
            && !AllTight(Run(none, [SignUp(k), OpenCheckIn(request, e, k, requested), FinishCheckIn(request, t),
                                    PortalDecline(k)]))
  {
    hide CheckInAllowed;
    var none := State(map[], map[], false);
    var a, b, c, d := SignUp(k), OpenCheckIn(request, e, k, requested), FinishCheckIn(request, t), PortalDecline(k);
    assert [a, b, c, d][..3] == [a, b, c] && [a, b, c][..2] == [a, b] && [a, b][..1] == [a] && [a][..0] == [];
    assert [a, PortalAward(k)][..1] == [a];
    assert Run(none, [a]) == Apply(none, a);
    assert Run(none, [a, b]) == Apply(Apply(none, a), b);
    assert Run(none, [a, b, c]) == Apply(Apply(Apply(none, a), b), c);
    assert !Consistent(Run(none, [a, PortalAward(k)]).rows[k]);
    assert !Tight(Run(none, [a, b, c, d]).rows[k]);
  }

  /** A check-in comes to be waiting only by a request of an attendee, accepted or checked in, of an event
      that is not cancelled and not theirs, and with a method the event offers. */
  lemma OpenedMeans(s: State, a: Action, q: nat)
    requires q !in s.reading && q in Apply(s, a).reading
    ensures a.OpenCheckIn? && a.request == q && Apply(s, a).reading[q].attendee == a.attendee
    ensures !a.e.cancelled && a.attendee != a.e.host && Apply(s, a).reading[q].via in a.e.methods
    ensures Applies(a.requested, a.e.methods, Apply(s, a).reading[q].via)
    ensures a.attendee in s.rows
            && (s.rows[a.attendee].status.Accepted? || s.rows[a.attendee].status.CheckedIn?)
  {
    hide CheckInAllowed, Applies;
    AllowedIff(a.e, a.attendee, Get(s.rows, a.attendee), a.requested);
  }

  /** The action writes a check-in to the row of attendee k. */
  predicate FinishesCheckIn(s: State, a: Action, k: nat) {
    a.FinishCheckIn? && a.request in s.reading && s.reading[a.request].attendee == k && k in s.rows
  }

  /** A waiting check-in stays as it was opened until it is written. */
  lemma WaitingStays(s: State, a: Action, q: nat)
    requires q in s.reading && !(a.FinishCheckIn? && a.request == q)
    ensures q in Apply(s, a).reading && Apply(s, a).reading[q] == s.reading[q]
  {
    hide CheckInAllowed;
  }

  /** Who is accepted or checked in stays one or the other exactly unless they decline, the portal declines
      them, or the event is deleted. */
  lemma AttendingKeptIff(s: State, a: Action, k: nat)
    requires k in s.rows && Attending(s.rows[k])
    ensures (k in Apply(s, a).rows && Attending(Apply(s, a).rows[k])) <==>
            a != Respond(k, Declined) && a != PortalDecline(k) && !a.DeleteEvent?
  {
    hide CheckInAllowed, CreditedMinutes;
  }

  /** Who is waiting, or has declined, comes to attend only by being accepted, or by a check-in read before. */
  lemma AcceptedIff(s: State, a: Action, k: nat)
    requires k in s.rows && !Attending(s.rows[k])
    ensures (k in Apply(s, a).rows && Attending(Apply(s, a).rows[k])) <==>
            a == PortalAccept(k) || FinishesCheckIn(s, a, k)
  {
    hide CheckInAllowed, CreditedMinutes;
  }

  /** What the row's other writers leave of it: an answer is taken, unless someone attending accepts again, and
      undoes a check-in; the portal's accept and decline set the status alone, its award the verification alone. */
  lemma AnswersAreTaken(s: State, a: Action, k: nat)
    requires k in s.rows
    ensures var r := s.rows[k];
            match a
            case Respond(j, answer) =>
              j == k && answer in {Pending, Waitlisted, Declined} && (answer.Declined? || !Attending(r)) ==>
                Apply(s, a).rows == s.rows[k := r.(status := answer, checkInMethod := None, checkedInAt := None)]
            case Promote(j) =>
              j == k && r.status.Waitlisted? ==>
                Apply(s, a).rows == s.rows[k := r.(status := Pending, checkInMethod := None, checkedInAt := None)]
            case PortalAccept(j) =>
              j == k && !Attending(r) ==> Apply(s, a).rows == s.rows[k := r.(status := Accepted)]
            case PortalDecline(j) => j == k ==> Apply(s, a).rows == s.rows[k := r.(status := Declined)]
            case PortalAward(j) => j == k ==> Apply(s, a).rows == s.rows[k := r.(verification := Verified)]
            case _ => true
  {
    hide CheckInAllowed, CreditedMinutes;
  }

  /** Someone without a row gets one only by signing up, then accepted, or by answering, then as answered. */
  lemma NewRowIff(s: State, a: Action, k: nat)
    requires k !in s.rows
    ensures k in Apply(s, a).rows <==>
            !s.gone
            && (a == SignUp(k) || (a.Respond? && a.attendee == k && a.answer in {Pending, Waitlisted, Declined}))
    ensures k in Apply(s, a).rows ==>
              var r := Apply(s, a).rows[k];
              && r.status == (if a.SignUp? then Accepted else a.answer)
              && !r.noShow && r.verification.Unverified? && r.minutes.None? && r.checkedInAt.None?
  {
    hide CheckInAllowed, CreditedMinutes;
  }

  /** Over any run in which the event is cancelled, no check-in is opened, and nobody is checked in. */
  lemma {:induction false} CancelledTakesNobody(s: State, actions: seq<Action>)
    requires s.reading == map[]
    requires forall i :: 0 <= i < |actions| && actions[i].OpenCheckIn? ==> actions[i].e.cancelled
    ensures Run(s, actions).reading == map[]
    ensures forall k :: IsCheckedIn(Run(s, actions), k) ==> IsCheckedIn(s, k)
  {
    hide Apply, IsCheckedIn;
    if |actions| > 0 {
      var init, a := actions[..|actions| - 1], actions[|actions| - 1];
      CancelledTakesNobody(s, init);
      CancelledStep(Run(s, init), a);
    }
  }

  lemma CancelledStep(s: State, a: Action)
    requires s.reading == map[] && (a.OpenCheckIn? ==> a.e.cancelled)
    ensures Apply(s, a).reading == map[]
    ensures forall k :: IsCheckedIn(Apply(s, a), k) ==> IsCheckedIn(s, k)
  {
    hide CreditedMinutes;
  }

  predicate IsCheckedIn(s: State, k: nat) {
    k in s.rows && s.rows[k].status.CheckedIn?
  }

  // ---------- What the separate read and write allow ----------

  /** A step checks in an attendee who is not, a declined one for instance, exactly when it writes a
      check-in read before. */
  lemma CheckedInIff(s: State, a: Action, k: nat)
    requires k in s.rows && !s.rows[k].status.CheckedIn?
    ensures IsCheckedIn(Apply(s, a), k) <==> FinishesCheckIn(s, a, k)
  {
    hide CheckInAllowed, CreditedMinutes;
  }

  /** No action of the run writes a check-in of k. */
  ghost predicate NoneFinishes(s: State, actions: seq<Action>, k: nat) {
    forall i :: 0 <= i < |actions| ==> !FinishesCheckIn(Run(s, actions[..i]), actions[i], k)
  }

  ghost predicate NeverCheckedIn(s: State, actions: seq<Action>, k: nat) {
    forall i :: 0 <= i <= |actions| ==> !IsCheckedIn(Run(s, actions[..i]), k)
  }

  /** Over any run a declined attendee is never checked in exactly when no check-in is written to their row. */
  lemma DeclineKeptIff(s: State, actions: seq<Action>, k: nat)
    requires k in s.rows && s.rows[k].status.Declined?
    ensures NeverCheckedIn(s, actions, k) <==> NoneFinishes(s, actions, k)
  {
    hide Run, Apply, FinishesCheckIn, IsCheckedIn;
    NotYetCheckedIn(s, k);
    if NoneFinishes(s, actions, k) {
      forall i | 0 <= i <= |actions| ensures !IsCheckedIn(Run(s, actions[..i]), k) {
        StaysUnchecked(s, actions, k, i);
      }
    } else {
      var i :| 0 <= i < |actions| && FinishesCheckIn(Run(s, actions[..i]), actions[i], k);
      StepOfRun(s, actions, i);
      if !IsCheckedIn(Run(s, actions[..i]), k) {
        FinishesMeansChecked(Run(s, actions[..i]), actions[i], k);
      }
    }
  }

  lemma NotYetCheckedIn(s: State, k: nat)
    requires k in s.rows && s.rows[k].status.Declined?
    ensures !IsCheckedIn(s, k)
  {
  }

  lemma FinishesMeansChecked(s: State, a: Action, k: nat)
    requires !IsCheckedIn(s, k) && FinishesCheckIn(s, a, k)
    ensures IsCheckedIn(Apply(s, a), k)
  {
    CheckedInIff(s, a, k);
  }

  lemma StepOfRun(s: State, actions: seq<Action>, i: nat)
    requires i < |actions|
    ensures Run(s, actions[..i + 1]) == Apply(Run(s, actions[..i]), actions[i])
  {
    hide Apply;
    assert actions[..i + 1][..i] == actions[..i];
  }

  lemma StepStaysUnchecked(s: State, a: Action, k: nat)
    requires Kept(s, k) && !IsCheckedIn(s, k) && !FinishesCheckIn(s, a, k)
    ensures !IsCheckedIn(Apply(s, a), k)
  {
    hide Apply, FinishesCheckIn;
    StepKeeps(s, a, k);
    if k in s.rows {
      CheckedInIff(s, a, k);
    }
  }

  lemma {:induction false} StaysUnchecked(s: State, actions: seq<Action>, k: nat, i: nat)
    requires k in s.rows && !IsCheckedIn(s, k) && i <= |actions| && NoneFinishes(s, actions, k)
    ensures !IsCheckedIn(Run(s, actions[..i]), k)
    decreases i
  {
    hide Run, Apply, FinishesCheckIn;
    if i == 0 {
      NothingRun(s, actions);
    } else {
      StaysUnchecked(s, actions, k, i - 1);
      RowsStay(s, actions[..i - 1], k);
      StepOfRun(s, actions, i - 1);
      StepStaysUnchecked(Run(s, actions[..i - 1]), actions[i - 1], k);
    }
  }

  lemma NothingRun(s: State, actions: seq<Action>)
    ensures Run(s, actions[..0]) == s
  {
  }

  /** No check-in of k is between read and write. */
  ghost predicate NoneReading(s: State, k: nat) {
    forall q :: q in s.reading ==> s.reading[q].attendee != k
  }

  /** k has a row and is not attending, or has none any more, and nobody is about to write otherwise. */
  ghost predicate Away(s: State, k: nat) {
    Kept(s, k) && (k in s.rows ==> !Attending(s.rows[k])) && NoneReading(s, k)
  }

  lemma StepKeepsAway(s: State, a: Action, k: nat)
    requires Away(s, k) && a != PortalAccept(k)
    ensures Away(Apply(s, a), k)
  {
    hide CreditedMinutes;
  }

  /**
   * Someone who declines while no check-in of theirs is between read and write stays away through every
   * later request, until the portal accepts them again.
   */
  lemma {:induction false} DeclineIsFinal(s: State, actions: seq<Action>, k: nat)
    requires Away(s, k) && forall i :: 0 <= i < |actions| ==> actions[i] != PortalAccept(k)
    ensures Away(Run(s, actions), k)
  {
    hide Away, Apply;
    if |actions| > 0 {
      DeclineIsFinal(s, actions[..|actions| - 1], k);
      StepKeepsAway(Run(s, actions[..|actions| - 1]), actions[|actions| - 1], k);
    }
  }

  /**
   * A decline between a check-in's read and its write is overwritten, from every state in which
   * the check-in is allowed: the attendee who declined ends up checked in.
   */
  lemma DeclineIsOverwritten(s: State, e: Event, request: nat, k: nat, requested: string, t: int)
    requires request !in s.reading && k in s.rows
    requires CheckInAllowed(e, k, Some(s.rows[k]), requested).Ok?
    ensures var end := Run(s, [OpenCheckIn(request, e, k, requested), Respond(k, Declined), FinishCheckIn(request, t)]);
            k in end.rows && end.rows[k].status.CheckedIn? && end.rows[k].checkedInAt == Some(t)
  {
    hide CheckInAllowed;
    var a, b, c := OpenCheckIn(request, e, k, requested), Respond(k, Declined), FinishCheckIn(request, t);
    assert [a, b, c][..2] == [a, b] && [a, b][..1] == [a] && [a][..0] == [];
    assert Run(s, [a]) == Apply(s, a);
    assert Run(s, [a, b]) == Apply(Apply(s, a), b);
  }
}
