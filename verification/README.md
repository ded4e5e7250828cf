# Verified model of the volunteering platform

A Dafny 4.11 model of the platform's stateful cores, with proofs. `dafny verify dfyconfig.toml`
checks all of it. The modules follow the program's components:

- **Local time to UTC** (`ZonedTime`, `TimeRange`): the four-step correction loop that turns an event
  form's date and time into an instant, over any table of offset changes; its convergence, what it does
  with repeated and skipped times, and when a range keeps its order.
- **Email outbox** (`Outbox`, `OutboxProgress`, `OutboxProtocol`): one run of the delivery worker, then
  runs of one worker (bounded waiting, draining) and any interleaving of many workers with row locks,
  commits and rollbacks (safety, delivery counts).
- **Invites** (`Invites`, `InviteRuns`, `InviteSafety`, `InviteRaces`, `InviteWitness`): rate limits, per-event cap,
  cooldown, duplicates, replies, withdrawal, blocking and deleted events, with every query a step of its own.
- **Attendance** (`Attendance`, `AttendanceRuns`): sign-up, check-in, no-show and verification of an RSVP
  row, with each check-in's read and write as separate steps, beside the row's other writers.
- **Event form and lifecycle** (`EventPayload`, `EventPayloadNormal`, `EventPayloadPosted`, `EventLifecycle`, `EventAdmin`,
  `EventRequests`): what a form becomes, field by field and whole, and runs of the event requests, the checks and writes of the unlocked ones as separate
  steps, beside an administrator's edits.
- **Availability and profile** (`Json`, `Availability`, `AvailabilityOrder`, `AvailabilityModes`, `Profile`):
  strict and lenient normalisation, and what a saved profile loads back as.
- **Password reset** (`PasswordReset`): which links an account honours over whole runs, and when one is spent twice.
- **Funding** (`FundingRollup`, `FundingAgreement`, `PoolSlugs`, `PoolSummary`, `Paging`, `DonorList`): the SQL
  rollups as functions over finite sets of rows, grouped two ways, and the donor's list against the summary.
- `Wrappers`, `Strings`, `Sums`: options and results, the JavaScript string operations, sums over sets.

How the model reads the program:

- Time is an integer number of whole seconds; `NOW()` never runs backwards. A zone is its table of offset
  changes with sizes at most `m` and changes at least `gap` apart (`WellSpaced`). The loop needs `2 * m <= gap`,
  28 hours for 14-hour offsets: for every `m` it fails in a zone one second short of that
  (`ZonedTime.NarrowGapsHideTimes`). That landings are stable and ordered needs `3 * m <= gap`, 42 hours, and
  fails one second short of that (`ZonedTime.NarrowGapsMoveLandings`).
- Tables are maps keyed by row id in the classes, and sets of rows in the rollups. SQL `NULL` is `None`.
- What the code asks of its surroundings is a parameter: the mail server's answer for each row, the batch
  the locking select returns (proved to exist and to be unique), `JSON.parse`, `Number`, `Object.values`, the
  zone database, date parsing, fresh row ids and fresh tokens.
- The unique indexes on invites, donor reviews, receipts and primary keys are those of `getkinder-schema-report.md`
  (invites: lines 1935-1936; reviews: line 1486; receipts: line 1560). An insert that conflicts does nothing, as
  `ON CONFLICT DO NOTHING` says. Deleting an event deletes its invites and RSVP rows, as `ON DELETE CASCADE` says
  (lines 1923 and 752).
- The organisation portal inserts messages into the outbox as already sent, with no attempts
  (`routes/orgPortalApi.js:932-975`); such rows are among the model's, and no worker touches them.
- Where a statement one would expect is false of the code, the model keeps the code, gives runs or inputs that
  show it, and states exactly when it does hold, step by step and lifted to whole runs:

  | expected | fails in | holds exactly when |
  |---|---|---|
  | an accepted range starts before it ends | `ZonedTime.SkippedEndCanReverseRange` | `TimeRange.AcceptedRangeOrderedIff` |
  | an answered invite is final | `InviteWitness.AnswerCanBeOverwritten`, `InviteWitness.AnswerCanBeDeleted`, `InviteWitness.AnswerGoesWithEvent` | `InviteSafety.AnswerKeptThroughoutIff` |
  | a block leaves no pending invite | `InviteWitness.BlockIsOvertaken` | `InviteRaces.RespectedIffNoRace` |
  | invites to one address are a day apart | `InviteWitness.TwoInFlightBreakSpacing` | `InviteRaces.SpacedIffNoRace` |
  | an event takes three invites of a sender | `InviteWitness.CapIsReached` | `InviteWitness.CapIsKeptIff` |
  | a declined attendee is not checked in | `AttendanceRuns.DeclineIsOverwritten` | `AttendanceRuns.DeclineKeptIff` |
  | attendance columns agree | `AttendanceRuns.ColumnsCanDisagree` | `AttendanceRuns.StepTightIff`, `AttendanceRuns.StepConsistentIff` |
  | a cancelled or completed event is final | `EventRequests.SplitCompletionOverwrites`, `EventRequests.AdminReopens` | `EventRequests.FinalKeptThroughoutIff` |
  | only drafts are deleted | `EventRequests.PublishedCanBeDeleted` | `EventRequests.DisappearsIff` |
  | a published event is complete | `EventRequests.AdminPublishesIncomplete` | `EventRequests.PublishedThroughoutIff` |
  | a reset link is spent once | `PasswordReset.TokenCanBeSpentTwice` | `PasswordReset.TokensAreSpentOnceIff` |
  | an email is delivered once | `OutboxProtocol.RollbackRedelivers` | `OutboxProtocol.OutboxSafety` |
  | a save without availability JSON keeps it | `Profile.BlankSaveUndoes` | `Profile.BlankSaveKeepsIff` |
  | a receipt counts at its amount | `DonorList.LinkedCountsInstead` | `DonorList.ReceiptCountedOnce` |
  | list and summary count the same allocated | `DonorList.AllocatedCountsDiffer` | `DonorList.AllocatedCountsEqualIff` |

- The class methods of requests that hold no lock between their queries take the table as other requests leave
  it before the last write (`meanwhile`); given the table itself they describe an uninterrupted request.
- A submit that changes only the form's zone leaves the availability zone alone, because the stored weekly
  settings carry their own (`Profile.BlankSubmitKeeps`), while the `timezone` column does change.
- The duplicate window of 30 days never comes into play for one event and one address: the unique index
  allows a single row for ever (`InviteSafety.InvitesStayUnique`), which is stronger.

## Model

| member | source | states |
|---|---|---|
| ZonedTime.ZonedTimeToUtc | controllers/eventsApiController.js:171-234 | the loop answers exactly for a parsable date in a known zone, with the instant at most four corrections reach |
| ZonedTime.SolvedIffExists | controllers/eventsApiController.js:201-233 | the result shows the requested wall time if and only if the zone shows that time at all, and then two corrections suffice |
| ZonedTime.SecondGuessIsFinal | controllers/eventsApiController.js:201-233 | every even number of corrections gives the same instant, for every request, so the bound of four never cuts the loop short |
| ZonedTime.RepeatedTimeChoice | controllers/eventsApiController.js:201-233 | of two instants showing a repeated time, which one is returned |
| ZonedTime.SkippedTimeMissesByTheJump | controllers/eventsApiController.js:201-233 | for a skipped time the result is off by exactly the jump, on which side, and where it lies |
| ZonedTime.OrderPreserved | controllers/eventsApiController.js:201-233 | existing wall times keep their order in UTC; the UTC length is the wall length less the offset change between the two |
| ZonedTime.LandingIsStable | controllers/eventsApiController.js:201-233 | asking for the time a request landed on gives the same instant, where changes are at least 3m apart |
| ZonedTime.LandsAsForeseen | controllers/eventsApiController.js:201-233 | the wall time a request lands on can be read off the zone beforehand: itself if it exists, else moved by the difference of two offsets |
| ZonedTime.OrderedIffLandingsOrdered | controllers/eventsApiController.js:201-233 | for any two requests, skipped or not, the instants are in order if and only if those foreseen wall times are, where changes are at least 3m apart |
| ZonedTime.NarrowGapsMoveLandings | controllers/eventsApiController.js:201-233 | for every m a zone with changes 3m - 1 apart in which a landing is not stable and two requests foreseen at one wall time get different instants |
| ZonedTime.NarrowGapsHideTimes | controllers/eventsApiController.js:201-233 | for every m a zone with changes 2m - 1 apart that shows a time the loop does not find |
| ZonedTime.SkippedEndCanReverseRange | controllers/eventsApiController.js:2651-2659 | a concrete range whose skipped end comes before its start in UTC |
| TimeRange.ParseTimeRangeInput | controllers/eventsApiController.js:147-160 | an accepted range has two valid times, the end later than the start |
| TimeRange.TimeRangeRoundTrip | controllers/eventsApiController.js:147-169 | every valid range written with either dash reads back as itself |
| TimeRange.RangeReadsIff | controllers/eventsApiController.js:147-169 | a text with a dash reads as a range if and only if both sides, in any accepted spelling with or without spaces and a leading zero, name its times and the end is later |
| TimeRange.UndividedIsNoRange | controllers/eventsApiController.js:147-160 | a text without a dash is no range |
| TimeRange.EventTimes | controllers/eventsApiController.js:2645-2659 | exactly when two instants are given; each shows the hour and minute asked for on the day of the date if and only if the zone shows them, and the two are in order when both are shown |
| TimeRange.AcceptedRangeIsOrdered | controllers/eventsApiController.js:147-234 | an accepted range with two existing ends starts before it ends in UTC and lasts as long as it reads under one offset |
| TimeRange.AcceptedRangeOrderedIff | controllers/eventsApiController.js:147-234 | every accepted range starts before it ends in UTC if and only if the foreseen wall times of its ends are in order |
| Outbox.NudgesOutbox.DeliverQueuedNudges | kindnessEmailer.js:213-311 | a run commits every row of its batch settled and reports picked = sent + failed with the failures named, or changes nothing; a row that is not queued, not an email or scheduled for later stays as it was, and a picked one gains an attempt and is sent, queued again or failed at the fifth |
| Outbox.ProcessRows | kindnessEmailer.js:238-301 | the row loop settles exactly the batch and counts it |
| Outbox.Settle | kindnessEmailer.js:278-299 | a settled row is one a committed table may hold, failed exactly at five attempts, and never looks like one the portal inserted as sent |
| Outbox.BatchExists | kindnessEmailer.js:219-236 | some batch answers the locking select |
| Outbox.BatchUnique | kindnessEmailer.js:219-236 | only one batch does, order included |
| Outbox.PickedIff | kindnessEmailer.js:219-236 | a row is picked if and only if it is an unlocked queued email whose time has come, with fewer than max such rows before it by time and then id |
| Outbox.PickedInOrder | kindnessEmailer.js:219-236 | the batch is in order of time and then id |
| OutboxProgress.PickedWithin | kindnessEmailer.js:219-299 | a due row with k due rows ahead of it is picked within 5k/max + 1 calls, however the mail server answers |
| OutboxProgress.WaitingIsPaidFor | kindnessEmailer.js:219-299 | while a row waits, each call has used up max attempts of rows ahead of it |
| OutboxProgress.CallUsesAttempts | kindnessEmailer.js:241-301 | each picked row uses at least one of the attempts left |
| OutboxProgress.DrainsWithin | kindnessEmailer.js:213-304 | n rows cause at most 5n send attempts, and once calls of at least max rows have room for 5n + 4(max - 1), as 5n / max + 5 of them do, every row due at the start is sent or failed |
| OutboxProtocol.StepKeepsInv | kindnessEmailer.js:216-310 | every database step of every worker keeps rows, locks and open transactions consistent |
| OutboxProtocol.StepKeepsBooks | kindnessEmailer.js:216-310 | every step keeps deliveries and attempts equal to what the rows show plus what rollbacks undid |
| OutboxProtocol.OutboxSafety | kindnessEmailer.js:216-304 | in every reachable state: no committed processing row, legal attempt counts, sent without attempts exactly if inserted so, disjoint open batches, accounted reports, and deliveries of a row equal to those rollbacks undid plus one if a worker's send stands |
| OutboxProtocol.NothingGoesOutEarly | kindnessEmailer.js:219-310 | in every reachable state whatever a worker holds, has delivered or has had undone is an email whose time has come |
| OutboxProtocol.AtMostOnceWithoutRollback | kindnessEmailer.js:216-310 | without rollbacks a row is delivered once if a worker has sent it and never otherwise |
| OutboxProtocol.RollbackRedelivers | kindnessEmailer.js:303-307 | a run in which a rollback after a send delivers a row twice |
| OutboxProtocol.CallIsATransaction | kindnessEmailer.js:213-311 | an uninterrupted call among other workers' locks does to the committed table what the sequential worker does |
| Invites.CheckedMeans | controllers/eventsApiController.js:529-679 | the checks pass if and only if none of the eleven rules is violated, and otherwise name the first that is |
| Invites.CheckedInColumns | controllers/eventsApiController.js:529-679 | the checks pass exactly when eleven conditions on the columns of the tables hold: whose invites are counted, over which windows, to which addresses and accounts |
| Invites.OthersDoNotRefuse | controllers/eventsApiController.js:605-657 | other senders' invites for other events, to the same address too, change nothing for a request |
| Invites.LookupPassesIff | controllers/eventsApiController.js:584-679 | each of the five lookups passes if and only if none of its own rules is violated, and they follow the order of the rules |
| Invites.InvitesApi.CreateInvite | controllers/eventsApiController.js:529-713 | an invite is inserted only if no rule was violated when checked and no index objects when written; each refusal names the first violated rule |
| Invites.InvitesApi.UpdateInvite | controllers/invitesApiController.js:168-224 | only the recipient of an invite read as pending answers, and the answer is written over whatever the row has become |
| Invites.InvitesApi.DeleteInvite | controllers/invitesApiController.js:226-271 | only the sender of an invite read as pending withdraws, and the row is deleted whatever it has become |
| Invites.InvitesApi.BlockInviteSender | controllers/invitesApiController.js:336-407 | only the recipient blocks; the block is recorded first, and exactly what is pending from that sender to them at the second write is declined |
| InviteRuns.LimitsHold | controllers/eventsApiController.js:1908-1925 | with at most k requests of a sender in flight: at most 12 + (k - 1) and 40 + (k - 1) existing invites in every hour and day ending at any instant |
| InviteRuns.StepStaysThrottled | controllers/eventsApiController.js:1908-1925 | every query of every user keeps those limits, with the requests past the rates lookup counted |
| InviteRuns.CapHolds | controllers/eventsApiController.js:622-637 | with at most k of a sender's requests for an event in flight, however many for others: at most 3 + (k - 1) of their invites for it |
| InviteRuns.StepKeepsCap | controllers/eventsApiController.js:1932-1947 | every query of every user keeps that bound, with the requests past the cap lookup counted |
| InviteSafety.InvitesStayUnique | controllers/eventsApiController.js:688-713 | no step but an insert can break the unique indexes, and inserts obey them |
| InviteSafety.ConflictsIff | controllers/eventsApiController.js:688-713 | an insert is refused by the indexes if and only if with it they would not hold |
| InviteSafety.IntendsIff | controllers/invitesApiController.js:168-407 | a request comes to an answer, a withdrawal or a block if and only if it read the pending invite of its recipient, of its sender, or the invite of its recipient |
| InviteSafety.PendingKeptIff | controllers/invitesApiController.js:204-377 | a step keeps a pending invite if and only if it does not answer it, withdraw it, delete its event or close the block of its own recipient against its own sender |
| InviteSafety.AnswerKeptIff | controllers/invitesApiController.js:178-217 | a step keeps an answered invite if and only if it is no deletion of it or of its event and no different answer decided on earlier |
| InviteSafety.AnswerKeptThroughoutIff | controllers/invitesApiController.js:178-265 | the same over whole runs, in every state |
| InviteSafety.AnswersAreFinal | controllers/invitesApiController.js:204-217 | an invite answered while no other write on it is waiting stays as it is for as long as its event is not deleted |
| InviteSafety.BlocksAreKept | controllers/invitesApiController.js:355-362 | no block is ever lifted |
| InviteSafety.GoneStaysEmpty | controllers/meEventsApiController.js:991-1001 | a deleted event has no invites in any later state, requests under way included |
| InviteSafety.RespectedKeptIff | controllers/eventsApiController.js:584-713 | from a state without pending invites across closed blocks, a step keeps it so if and only if it is no insert across one by a request checked before |
| InviteRaces.GoesLateIff | controllers/eventsApiController.js:584-603 | a create request comes to be across a closed block if and only if the block closes over it after its block lookup |
| InviteRaces.RespectedIffNoRace | controllers/invitesApiController.js:336-377 | over any run blocks are respected in every state if and only if no block closes over a request, past its lookup, that goes on to insert |
| InviteSafety.BlocksHold | controllers/eventsApiController.js:584-603 | once a block is closed with no create request across it past its block lookup, no pending invite across it exists in any later state |
| InviteSafety.SpacedKeptIff | controllers/eventsApiController.js:639-657 | a step keeps a sender's invites to one address more than 24 hours apart if and only if it is no insert within the cooldown |
| InviteRaces.ComesNear | controllers/eventsApiController.js:639-657 | a request past its cooldown lookup has a recent invite to its address if and only if one is inserted beside it |
| InviteRaces.SpacedIffNoRace | controllers/eventsApiController.js:639-713 | over any run a sender's invites to one address are a day apart in every state if and only if none is inserted beside another request of theirs to it, past its lookup, that goes on to insert while the first is there and recent |
| InviteSafety.OneAtATimeIsSpaced | controllers/eventsApiController.js:639-713 | a sender with one request in flight at a time keeps the cooldown, whatever everyone else does |
| InviteSafety.OneAtATimeRunsAreSafe | controllers/eventsApiController.js:584-713 | when no sender has two requests in flight: spacing, uniqueness and closed blocks together |
| InviteSafety.CreateIsItsSteps | controllers/eventsApiController.js:529-713 | the request's own queries, uninterrupted, do what its checks at one moment and its insert do |
| InviteWitness.AnswerCanBeOverwritten | controllers/invitesApiController.js:178-217 | from every state with a pending invite, a run in which an acceptance is turned into a refusal |
| InviteWitness.AnswerCanBeDeleted | controllers/invitesApiController.js:232-265 | from every such state, a run in which an accepted invite is withdrawn |
| InviteWitness.AnswerGoesWithEvent | controllers/meEventsApiController.js:997-1001 | from every such state, a run in which an accepted invite goes when its event is deleted |
| InviteWitness.BlockIsOvertaken | controllers/eventsApiController.js:584-713 | from every state with a create request ready to insert, to someone who holds an invite of the sender, a run that leaves a pending invite across a closed block |
| InviteWitness.BlockCanBeOvertaken | controllers/eventsApiController.js:584-713 | such a run from the empty tables |
| InviteWitness.TwoInFlightBreakSpacing | controllers/eventsApiController.js:639-713 | two requests in flight suffice to invite one address twice at once |
| InviteWitness.CapIsReached | controllers/eventsApiController.js:622-713 | for every k some run with k requests for the event in flight reaches 3 + (k - 1) |
| InviteWitness.CapIsKeptIff | controllers/eventsApiController.js:622-713 | runs with k requests for the event in flight keep its cap of three if and only if k is one |
| InviteWitness.HourIsReached | controllers/eventsApiController.js:1908-1925 | for every k some run with k requests in flight has 12 + (k - 1) invites in one hour |
| Attendance.CreditedMinutes | controllers/eventsApiController.js:1577-1595 | between 15 and 480 minutes: the given number where it lies there and else the nearer bound, or the length of the event to the nearest minute within the same bounds, or an hour |
| Attendance.Roster.SignUp | controllers/eventsApiController.js:1015-1040 | one accepted, unverified row per attendee |
| Attendance.Roster.CheckIn | controllers/eventsApiController.js:1274-1352 | succeeds if and only if the event is not cancelled, the attendee is not its host and has accepted, and the method that applies is offered; then sets status, time and exactly that method, clears no-show, leaves verification and every other row |
| Attendance.AllowedIff | controllers/eventsApiController.js:1284-1331 | the same condition and method for the check whose write comes later |
| Attendance.Roster.MarkNoShow | controllers/eventsApiController.js:1405-1502 | exactly when it is allowed, and the whole row it leaves |
| Attendance.Roster.Verify | controllers/eventsApiController.js:1504-1640 | exactly when it is allowed; a verified row stays as it is, any other takes decision, minutes and time |
| AttendanceRuns.StepTightIff | controllers/eventsApiController.js:1324-1342 | no-show implies accepted, unverified, no time or minutes; checked in if and only if a time is set; verified implies minutes and no no-show: a step keeps this if and only if it is none of three named requests of the row's other writers |
| AttendanceRuns.StepConsistentIff | routes/orgPortalApi.js:2130-2185 | the part kept by every writer but an award to a row without minutes, and exactly by those |
| AttendanceRuns.RunStaysTight | controllers/eventsApiController.js:1449-1477 | every run of the events controller's requests, check-ins interleaved, keeps all of it |
| AttendanceRuns.RunStaysConsistent | services/eventRsvpService.js:262-420 | every run of all writers without awards keeps the consistent part |
| AttendanceRuns.ColumnsCanDisagree | routes/orgPortalApi.js:2130-2185 | runs from no rows in which an award leaves a verified row without minutes, and a decline a checked-in time on a declined row |
| AttendanceRuns.VerifiedKeptIff | controllers/meEventsApiController.js:991-1001 | a step keeps a verification, its minutes and its time if and only if it does not delete the event, which its host may as well as an administrator |
| AttendanceRuns.VerifiedIsFinal | controllers/eventsApiController.js:1546-1603 | over every run they stand if and only if the event is not deleted |
| AttendanceRuns.OnlyCheckInClearsNoShow | controllers/eventsApiController.js:1333-1342 | a no-show mark that is gone from a row was cleared by a check-in of that attendee |
| AttendanceRuns.CheckedInIff | controllers/eventsApiController.js:1324-1342 | an attendee who is not checked in becomes so if and only if the step writes a check-in of theirs read before |
| AttendanceRuns.OpenedMeans | controllers/eventsApiController.js:1284-1322 | a check-in that is being read is for an event not cancelled, by someone who has accepted and is not its host, with an offered method that applies |
| AttendanceRuns.CancelledTakesNobody | controllers/eventsApiController.js:1295-1297 | through any run in which check-ins are asked for only while the event is cancelled, none is opened and nobody becomes checked in |
| AttendanceRuns.WaitingStays | controllers/eventsApiController.js:1324-1342 | a check-in between its read and its write stays as it was read until its own request writes it |
| AttendanceRuns.NewRowIff | services/eventRsvpService.js:284-388 | a row appears if and only if someone signs up, or has an answer recorded as pending, waitlisted or declined, while the event is there; and what it then holds |
| AttendanceRuns.AttendingKeptIff | services/eventRsvpService.js:300-420 | a step takes attendance away if and only if the attendee or the portal declines or the event is deleted |
| AttendanceRuns.AcceptedIff | routes/orgPortalApi.js:1999-2129 | a step makes someone attend who did not if and only if the portal accepts them or a check-in of theirs is written |
| AttendanceRuns.AnswersAreTaken | services/eventRsvpService.js:300-420 | each answer, promotion, portal decision and award writes that attendee's row and nothing else, column by column |
| AttendanceRuns.DeclineKeptIff | controllers/eventsApiController.js:1324-1342 | over whole runs, deletions of the event included, a declined attendee is never checked in if and only if no such write occurs |
| AttendanceRuns.DeclineIsFinal | services/eventRsvpService.js:390-420 | someone who declines while no check-in of theirs is being read stays away until the portal accepts them again |
| AttendanceRuns.DeclineIsOverwritten | controllers/eventsApiController.js:1324-1342 | from every state that admits a check-in, a decline between its read and its write is lost |
| EventPayloadNormal.BuiltIsNormal | controllers/eventsApiController.js:2581-2689 | every payload has clean texts, a location of at most three parts, trimmed tags, distinct known methods, a legal slug and whole non-negative numbers |
| EventPayloadNormal.LocationIsFixed | controllers/eventsApiController.js:107-116 | a location of at most three clean parts is left alone by truncation |
| EventPayloadNormal.TruncatedIsLocation | controllers/eventsApiController.js:107-116 | truncation yields such a location from any input |
| EventPayloadNormal.FirstPartsAreKept | controllers/eventsApiController.js:107-116 | of clean parts joined by commas truncation keeps the first three, or all if there are no more |
| EventPayloadNormal.SplitJoined | controllers/eventsApiController.js:110-115 | joining parts and splitting again gives the parts back |
| EventPayloadNormal.TagsAreFixed | controllers/eventsApiController.js:132-145 | clean tags are left alone |
| EventPayloadNormal.TagsOfText | controllers/eventsApiController.js:138-143 | the tags of a text are its trimmed parts between commas, without the empty ones |
| EventPayloadNormal.TagsOfList | controllers/eventsApiController.js:133-137 | the tags of a list are its trimmed texts, without the empty ones |
| EventPayloadNormal.SlugIsNormal | controllers/eventsApiController.js:118-130 | an accepted slug is lower-case, trimmed and matches the pattern |
| EventPayloadNormal.SlugIff | controllers/eventsApiController.js:118-130 | exactly which slugs are accepted, and as what |
| EventPayloadNormal.AttendanceIsFixed | controllers/eventsApiController.js:2639-2643 | distinct known methods read back from storage unchanged |
| EventPayloadNormal.StoredMethods | controllers/eventsApiController.js:2639-2643 | which known methods each stored form of the column gives: a list, a text holding one, or an object |
| EventPayloadNormal.NormalIsFixed | controllers/eventsApiController.js:2581-2689 | rebuilding a normal payload's row with an empty body returns it field by field |
| EventPayloadNormal.BuildIsIdempotent | controllers/eventsApiController.js:2581-2689 | building twice is building once |
| EventPayloadPosted.BuiltIsPosted | controllers/eventsApiController.js:2581-2689 | over any normal stored payload every field of the built one is what the body posts for it, and what was stored where the body is silent |
| EventPayloadPosted.NewIsPosted | controllers/eventsApiController.js:2581-2689 | for a new event every field is what the body posts for it, and its default where the body is silent |
| EventPayloadPosted.StatedIsBuilt | controllers/eventsApiController.js:2581-2689 | a body that states every field of a normal payload under the form's keys builds exactly that payload, whatever is stored |
| EventPayloadNormal.StrictIsPublishable | controllers/eventsApiController.js:2588-2662 | a strict build has a location and both instants |
| EventPayloadNormal.PublishIff | controllers/eventsApiController.js:2581-2662 | a stored payload passes a strict rebuild if and only if it has them |
| EventLifecycle.RoleCapacityIsSum | controllers/eventsApiController.js:2691-2737 | roles are accepted if and only if there are some and each has a title and seats, and the capacity is the sum of all seats |
| EventLifecycle.SeatsIff | controllers/eventsApiController.js:2691-2713 | a role has n seats if and only if it has a title and its number of spots, under either key, is the positive whole number n |
| EventLifecycle.Events.CreateEvent | controllers/eventsApiController.js:2722-2800 | a created event belongs to its creator, is normal and has a capacity; each field is what was posted or its default, it is published exactly if that was asked for, and no other event changes |
| EventLifecycle.CreatedIsSound | controllers/eventsApiController.js:2736-2747 | the capacity is the number of seats of all roles, and a published event is complete |
| EventLifecycle.CreatedIsPosted | controllers/eventsApiController.js:2722-2800 | the same for the row before it is inserted |
| EventLifecycle.Events.UpdateEvent | controllers/eventsApiController.js:1649-1757 | only the host's scope edits, only drafts and published events; each field becomes what was posted and stays as stored where nothing was, the status only as asked for, the project and every other event stay, and a body that states a whole payload stores it |
| EventLifecycle.UpdatedIsPosted | controllers/eventsApiController.js:1649-1757 | the same for the row before it is written |
| EventLifecycle.Events.CancelEvent | controllers/meEventsApiController.js:821-863 | goes ahead exactly if the event it read is published and has not started; then only the status of that row is written, whatever it has become |
| EventLifecycle.Events.ForceCancelEvent | controllers/meEventsApiController.js:865-921 | the same for a published event at any time |
| EventLifecycle.Events.CompleteEvent | controllers/meEventsApiController.js:923-966 | the same for an event that is not cancelled and has ended |
| EventLifecycle.Events.DeleteDraftEvent | controllers/meEventsApiController.js:968-1008 | goes ahead exactly if the event it read is a draft; then that row goes, whatever it has become |
| EventRequests.FinalKeptIff | controllers/meEventsApiController.js:821-1008 | a step keeps a cancelled or completed event if and only if it is no write of another status or deletion checked earlier, and no administrator's edit that alters it, assignment to another project or deletion |
| EventRequests.FinalKeptThroughoutIff | controllers/meEventsApiController.js:821-1008 | the same over whole runs |
| EventRequests.FinalIsKept | controllers/meEventsApiController.js:850-960 | an event that becomes final while no other request on it waits to write stays exactly as it is, short of an administrator's own hand on it |
| EventRequests.AdminReopens | routes/adminApi.js:1885-1948 | an administrator's edit publishes an event of any status, a cancelled one included |
| EventAdmin.EditedDiffersIff | routes/adminApi.js:1885-1948 | an edit changes an event if and only if some given field differs from the one stored |
| EventAdmin.EditedSoundIff | routes/adminApi.js:1885-1948 | an edit leaves an event as the form would if and only if it blanks no text, keeps the place to three tidy parts, and the status it leaves asks for nothing that is missing |
| EventRequests.SplitCompletionOverwrites | controllers/meEventsApiController.js:944-960 | from every state with an ended, published event, a run in which a completion overwrites a forced cancellation |
| EventRequests.DisappearsIff | controllers/meEventsApiController.js:968-1008 | a step makes an event disappear if and only if it writes a deletion checked before or is an administrator's, of one event or of all of a host's |
| EventRequests.OnlyDraftsDisappear | controllers/meEventsApiController.js:991-1001 | an event that is gone was a draft when a deletion by its host's scope checked it |
| EventRequests.PublishedCanBeDeleted | controllers/meEventsApiController.js:991-1001 | from every state with a complete draft, a run in which it is published and then deleted |
| EventRequests.SoundKeptIff | controllers/meEventsApiController.js:821-966 | a step keeps every published or cancelled event complete, and every completed one with an end, if and only if it writes no status to an event that has lost them since the check and is no administrator's edit that is malformed or leaves them out |
| EventRequests.SoundThroughoutIff | controllers/meEventsApiController.js:821-966 | the same over whole runs |
| EventRequests.PublishedKeptIff | controllers/eventsApiController.js:1670-1680 | a step keeps every published event with title, organisation, place, both instants, a tag and a method if and only if it is no administrator's edit that is malformed or publishes without them |
| EventRequests.PublishedThroughoutIff | controllers/eventsApiController.js:1670-1680 | the same over whole runs, in every state |
| EventRequests.AdminPublishesIncomplete | routes/adminApi.js:1885-1948 | from every state with an event that has no place, an edit publishes it |
| EventRequests.OutsidersChangeNothing | controllers/meEventsApiController.js:847-849 | through any run of requests without its host in their scope, checks and writes apart, an event stays exactly as it is |
| EventLifecycle.PublishingADraft | controllers/eventsApiController.js:1675-1680 | publishing a draft without other changes succeeds if and only if it is complete, and changes only the status |
| Availability.NormalizeExceptions | index.js:1833-1884 | the counting loop computes the strict or the lenient result |
| Availability.NormalizeTimezone | index.js:1711-1715 | a known zone is kept, else a known fallback is taken, else the default |
| AvailabilityOrder.ClockOrder | index.js:1776-1780 | clock strings compare as the minutes they name |
| AvailabilityOrder.ClockIff | index.js:1769-1773 | a clock string is two digits of hour up to 23, a colon and two of minute up to 59, and its minutes are those |
| AvailabilityOrder.DateIff | index.js:1775-1780 | a date string is a year, month and day in four, two and two digits, with a day the month has |
| AvailabilityOrder.MonthLengths | index.js:1775-1780 | the months but February are as long as the day count from March steps |
| AvailabilityOrder.MonthsMakeYears | index.js:1775-1780 | the twelve months of every year, leap years included, make up the days between new years |
| AvailabilityOrder.SortIsSorted | index.js:1878-1882 | the result is in order of date, start and end, with the same entries |
| AvailabilityOrder.SortKeeps | index.js:1878-1882 | sorting permutes, keeps every date's count and is stable |
| AvailabilityModes.LenientIsNormal | index.js:1833-1884 | every lenient result: at most ten entries, three a date, real dates, start before end in minutes, sorted |
| AvailabilityModes.SlotReadsIff | index.js:1843-1866 | an entry reads as a slot if and only if its date, start and end are well formed and in order, and the slot's zone is the entry's if known, else the fallback's if known, else the default |
| AvailabilityModes.DayTokenIff | index.js:1763-1767 | a text names a day if and only if, trimmed and in lower case, it starts with its three letters, as Monday does |
| AvailabilityModes.ListOfOneReads | index.js:1763-1767 | a list of one value is known as a day as the value itself is |
| AvailabilityModes.LenientPerDate | index.js:1840-1876 | of each date's well-formed entries among the first ten, the result keeps all up to three |
| AvailabilityModes.LenientKeepsFirst | index.js:1840-1876 | and those are the first three given |
| AvailabilityModes.StrictAcceptsIff | index.js:1833-1870 | strict mode accepts if and only if there are at most ten entries, all well formed, at most three a date |
| AvailabilityModes.StrictImpliesLenient | index.js:1833-1884 | what strict mode accepts, lenient mode returns the same |
| AvailabilityModes.NormalIsFixed | index.js:1833-1884 | a normal list is returned unchanged by both modes, whatever the fallback zone |
| AvailabilityModes.ModesAgree | index.js:1833-1884 | whatever either mode returns, both return unchanged |
| AvailabilityModes.WeeklyIsNormal | index.js:1789-1831 | weekly results hold only known tokens without repeats, ordered times and a known zone |
| AvailabilityModes.NormalWeeklyIsFixed | index.js:1789-1831 | normal weekly settings read back unchanged in both modes |
| AvailabilityModes.WeeklyStrictVersusLenient | index.js:1811-1819 | strict mode refuses exactly valid times that are out of order, and otherwise agrees |
| Profile.Profiles.PostPreferences | Backend/profileController.js:145-221 | which answer, and the row stored over whatever it has become; it loads back as exactly the settings posted, or as the posted half beside the half that was there, and its zone column is the known zone posted, else the one posted for availability, else the one stored |
| Profile.BlankSaveKeepsIff | Backend/profileController.js:145-218 | a save without availability JSON puts back the settings it read, and so leaves what loads alone if and only if no other save changed it meanwhile |
| Profile.BlankSaveUndoes | Backend/profileController.js:145-218 | two rows, for any two days, with which a save without availability JSON undoes another save |
| Profile.LoadedIsNormal | index.js:1886-1900 | any row, however damaged, loads as normal settings |
| Profile.LoadedZone | index.js:1886-1900 | a row loads with the zone of its weekly settings where that is known, else its own, else the default |
| Profile.TextColumnsLoad | index.js:1886-1900 | a column that holds its JSON as text loads as that JSON does |
| Profile.SavedLoadsBack | Backend/profileController.js:169-218 | what a save stores loads back exactly |
| Profile.PostsAreParsed | index.js:1902-1924 | whatever the row held, texts that parse to normal settings are taken as those settings, and with one text blank the posted half replaces its half alone |
| Profile.ZoneIsPosted | index.js:1943-1945 | which known zone is stored: the one posted, else the one posted for availability, else the one stored |
| Profile.BlankSubmitKeeps | index.js:1902-1924 | a submit without availability JSON is accepted and changes nothing that loads |
| Profile.EchoedSubmitKeeps | index.js:1902-1924 | posting the loaded settings back as text changes nothing |
| Profile.RefusedIff | index.js:1902-1924 | exactly when a submit is refused |
| PasswordReset.Accounts.ForgotPassword | index.js:1366-1430 | at most one account of the mailbox takes the new link: the newest with a password, or the newest of all without any, if it is verified and its last link is two minutes old; every other account and column stays |
| PasswordReset.CandidateIff | index.js:1380-1396 | the first row of the query's ordering is the newest account with a password, or the newest of all without any |
| PasswordReset.Accounts.CheckToken | index.js:1522-1573 | a request gets a claim if and only if the password is acceptable and the token unlocks an account, on the mailbox of the newest such account |
| PasswordReset.Accounts.SetPassword | index.js:1575-1584 | a claim sets the password of, and clears, every account of the mailbox, however old the check is |
| PasswordReset.UnlockingTokenIsLatest | index.js:1556-1563 | a token that unlocks an account is the latest link issued to it, under an hour old, unspent since and ever, and unlocks no other |
| PasswordReset.GoesStaleIff | index.js:1556-1584 | a claim stays as it is until its own request writes, and its token comes to be spent if and only if another claim on it is written |
| PasswordReset.NoneBornStale | index.js:1556-1563 | no claim is given on a spent token |
| PasswordReset.TokensAreSpentOnceIff | index.js:1556-1584 | over any run some token is spent twice if and only if one request sets its password while another, which has read the same token, holds its claim and writes later |
| PasswordReset.TokensAreSpentOnce | index.js:1556-1584 | if no two requests hold one token at once, no token is spent twice |
| PasswordReset.TokenCanBeSpentTwice | index.js:1556-1584 | from every reachable state with a live link, a run that spends it twice |
| PasswordReset.LinksAreSpaced | index.js:1414-1427 | links to one account with nothing spent between are two minutes apart |
| FundingAgreement.WalletGroupsAgree | controllers/meEventsApiController.js:384-399 | the awarded and funded sums of a (pool, event, volunteer) group equal those of the (event, volunteer) group |
| FundingAgreement.NoFanOut | controllers/meEventsApiController.js:223-236 | with one receipt a transaction, a group's awarded sum counts each wallet transaction once and its funded sum each receipt once |
| FundingAgreement.PoolIs | controllers/meEventsApiController.js:369 | an event is in the pool its slug names without the spaces around it and in lower case, and in the default pool without a slug or with a blank one |
| FundingAgreement.RequestSumIsLargest | controllers/meEventsApiController.js:237-250 | what a volunteer has requested for an event is the largest pending or approved request, or nothing |
| FundingAgreement.EventTotalIs | controllers/meEventsApiController.js:223-266 | an event's verified, funded and deficit totals are sums over its volunteers: of what they earned where positive and else asked for, of their receipts, and of what of the first the second leaves uncovered |
| FundingAgreement.CreditedIsReceipts | controllers/meEventsApiController.js:223-266 | the funded total is the sum of the receipts of the event's earned credits |
| FundingAgreement.DeficitIs | controllers/meEventsApiController.js:223-266 | the deficit is at least verified less funded, exactly that if and only if nobody is funded beyond what is verified, and zero if and only if everybody is covered |
| FundingAgreement.RequestGroupsAgree | controllers/meEventsApiController.js:400-411 | the largest open requests of the two groupings are the same |
| FundingAgreement.PoolTotalByPairs | controllers/meEventsApiController.js:412-434 | a pool's rollup is the sum over the event join's pairs of its hosted events |
| FundingAgreement.RollupsAgree | controllers/meEventsApiController.js:223-266 | for every slug, verified, funded and deficit totals equal the sum of the event list's totals over the host's events with that slug |
| FundingAgreement.TotalsAgree | controllers/meEventsApiController.js:384-476 | over any slugs covering the host's pools nothing is lost or doubled |
| PoolSlugs.ScopedRoundTrip | controllers/meEventsApiController.js:142-146 | stripping the matched prefix gives the slug back |
| PoolSlugs.ScopedIgnoresSpace | controllers/meEventsApiController.js:142-146 | white space around an id does not matter, and without an id the slug stays as it is |
| PoolSlugs.ScopedIsInjective | controllers/meEventsApiController.js:142-146 | for numeric ids different (id, slug) pairs are stored apart |
| PoolSlugs.OnePrefix | controllers/meEventsApiController.js:436-454 | a stored slug carries at most one member's prefix |
| PoolSlugs.LedgerCountsOnce | controllers/meEventsApiController.js:436-454 | the ledger totals add up to the members' own transactions, each counted once |
| PoolSlugs.LedgerTotalIs | controllers/meEventsApiController.js:436-454 | a slug's credits in or out are those of the transactions of the pools stored under it for some member |
| PoolSlugs.LinesAreTxs | controllers/meEventsApiController.js:579-603 | the joined lines and the members' own transactions correspond one to one |
| PoolSlugs.RepeatedMemberDoubles | controllers/meEventsApiController.js:436-454 | a member listed twice would be counted twice |
| PoolSummary.Reduce | controllers/meEventsApiController.js:507-531 | the accumulator ends as the sum of every column |
| PoolSummary.SummaryTotals | controllers/meEventsApiController.js:376-531 | the totals count every hosted event, every credit of the event list and every own pool transaction once, whatever extra slug is asked for |
| PoolSummary.TotalsInColumns | controllers/meEventsApiController.js:376-383 | events are counted by host and status and rewards added where there are any |
| PoolSummary.ListsIff | controllers/meEventsApiController.js:456-496 | the summary lists a slug if and only if a hosted event is in that pool, a pool is stored under it for a member, or it was asked for |
| PoolSummary.RemainingTotal | controllers/meEventsApiController.js:493-531 | the remaining total is at least what the totals leave, and equal if and only if no pool is overdrawn while another has credits left |
| PoolSummary.ShownSlugsRepeatIff | controllers/meEventsApiController.js:489-496 | the shown list repeats a slug if and only if a pool is stored under a bare prefix besides the default pool |
| Paging.DonorLimit | controllers/donorApiController.js:345-346 | a positive limit up to 100 is kept, a larger one becomes 100, anything else 25 |
| Paging.WalkListsAll | controllers/donorApiController.js:576-577 | following next_offset yields the whole list, each row once, and stops |
| Paging.FullPageRequests | controllers/donorApiController.js:576-577 | a full-page test costs n / limit + 1 requests |
| Paging.ProbePagesAreFull | controllers/meEventsApiController.js:615-689 | probing for one more row never asks for an empty page after a non-empty one |
| DonorList.NeverBoth | controllers/donorApiController.js:142-168 | a receipt's own line and a line of an allocation linked to it never both occur |
| DonorList.CarriedIs | controllers/donorApiController.js:142-168 | for any number of linked allocations, a receipt's credits are those of the donor's linked allocations, or its own amount without any |
| DonorList.ReceiptCountedOnce | controllers/donorApiController.js:142-176 | a receipt enters the lifetime figure at its own amount, once, if and only if its linked allocations of the donor add up to it |
| DonorList.LinkedCountsInstead | controllers/donorApiController.js:142-176 | a database in which a receipt with one linked allocation counts at the allocation's amount, whatever its own |
| DonorList.LifetimeByReceipts | controllers/donorApiController.js:142-176 | the lifetime figure is what the receipts carry, each line under one receipt, plus the allocations made without one |
| DonorList.LifetimeIs | controllers/donorApiController.js:142-176 | the lifetime figure is all the donor's spent allocations plus the receipts without a linked one, in credits and in minutes |
| DonorList.LifetimeAgrees | controllers/donorApiController.js:169-176 | per donation, per list row or in one go, credits and minutes add up the same |
| DonorList.SameStatus | controllers/donorApiController.js:30-63 | list and summary agree row by row on pending, underway and funded |
| DonorList.ListedIs | controllers/donorApiController.js:30-63 | the status a row is listed with, from its receipts, its earliest funding and its review |
| DonorList.ImpactIs | controllers/donorApiController.js:30-63 | a donation counts as having impact if and only if an allocation draws on its credits or a receipt that no allocation names was made out for it |
| DonorList.AllocatedAgreesIff | controllers/donorApiController.js:45-60 | on allocated they agree on a row if and only if it is neither of two kinds |
| DonorList.AllocatedCountsEqualIff | controllers/donorApiController.js:261-265 | and the two counts are equal if and only if those kinds are equally many |
| DonorList.AllocatedCountsDiffer | controllers/donorApiController.js:261-265 | a donation listed as allocated but not counted |
| DonorList.ListingIsUnique | controllers/donorApiController.js:517 | while nothing changes every request sees the same list |
| DonorList.ListingExists | controllers/donorApiController.js:517 | there is such a list, newest activity first and then the larger id |
| DonorList.ListAgreesWithSummary | controllers/donorApiController.js:371-577 | the pages show each captured donation once, their credits and minutes add up to the lifetime figures, and their statuses to the counts |

## Left out

- Express routing, sessions, OAuth, captcha, rate limiters, geocoding, Neo4j mirroring, SMTP, Square and all pages: input and output.
- Email texts, calendar files, notifications and audit logs that follow a request: no state the model reads.
- The waitlist, role seat counters (`spots_filled`) and credit awards that follow an RSVP request: only what they write to the row's attendance fields is modelled.
- Event coordinates, which an update resets when they are absent, and the roles' own rows; only their seats enter the model.
- The lookups of one forgotten-password request are read at one moment with its guarded update. Those of a create-invite request are separate steps in the runs; the class method `CreateInvite` reads them at one moment.
- An invite whose event is deleted before its insert makes the request fail with a server error: in the runs such a request can only be abandoned, and the class method does not model it.
- An administrator's edits of the funding policy (`routes/adminApi.js:1950-2032`), which write columns the model does not have, and the refusals of malformed edits and assignments, which change nothing.
- The PostgreSQL `RETURNING` order of a picked batch: rows are processed in the select's order.
- Sub-second instants, and dates outside the proleptic calendar of the date parser.
- Lower-casing is ASCII, and `localeCompare` on dates and clock strings is code-unit order, which on those strings is the same.
- JSON columns read back as the value written; key order and duplicate keys are not modelled.
- Credit amounts are integers; a request's `numeric` amount could carry a fraction.
- Columns that reject a stored value (an integer column given a fraction) make the request fail unchanged and are not modelled.
- The donor list's activity time is any function of the row; the order by it, then by id, is modelled.
- Donor deficits, interest ledgers, headlines and target labels: further columns of the same queries.
- The event list's own filters, tabs and paging, and the demo rows used when tables are missing.
- A profile whose address changes between issuing and spending a reset link: mailboxes are fixed in a run, while accounts register, verify and change passwords in it.
- `req.user`, the request's copy of the saved row: it receives the stored values.
