/** Event invites: the throttled, blockable create request and the recipient's and sender's replies. */
module Invites {
  import opened Wrappers
  import opened Strings

  datatype InviteStatus = Pending | Accepted | Declined
  datatype EventStatus = Draft | Published | Cancelled | Completed

  datatype Invite = Invite(event: nat, sender: nat, recipient: Option<nat>, email: string,
                           status: InviteStatus, createdAt: int)

  type Table = map<nat, Invite>
  /** Pairs (blocker, blocked). */
  type Blocks = set<(nat, nat)>

  const HOUR: int := 3600
  const DAY: int := 24 * HOUR
  const HOURLY_LIMIT: nat := 12
  const DAILY_LIMIT: nat := 40
  const COOLDOWN: int := 24 * HOUR
  const DUPLICATE_WINDOW: int := 24 * 30 * HOUR
  const PER_EVENT_CAP: nat := 3

  /** A create request with what its lookups return: the event's status, whether the sender is its
      host or approved for it, and the account, if any, registered under the invited address. */
  datatype Request = Request(sender: nat, event: nat, rawEmail: string, eventStatus: Option<EventStatus>,
                             eligible: bool, recipient: Option<nat>)

  datatype Refusal =
    | EmailRequired | EventNotFound | EventStatusInvalid | ApprovalRequired | SelfInvite
    | BlockedByRecipient | HourlyLimit | DailyLimit | EventCapReached | RecipientCooldown | Duplicate

  function NormalEmail(raw: string): string {
    ToLower(Trim(raw))
  }

  // ---------- The queries ----------

  function SentSince(t: Table, sender: nat, since: int): set<nat> {
    set i | i in t && t[i].sender == sender && t[i].createdAt >= since
  }

  function SentForEvent(t: Table, sender: nat, event: nat): set<nat> {
    set i | i in t && t[i].sender == sender && t[i].event == event
  }

  /** Same address, whatever its case. */
  predicate SameAddress(a: string, b: string) {
    ToLower(a) == ToLower(b)
  }

  predicate InCooldown(t: Table, sender: nat, email: string, now: int) {
    exists i :: i in t && t[i].sender == sender && SameAddress(t[i].email, email) && t[i].createdAt >= now - COOLDOWN
  }

  predicate HasDuplicate(t: Table, event: nat, recipient: Option<nat>, email: string, now: int) {
    exists i :: i in t && t[i].event == event
             && ((recipient.Some? && t[i].recipient == recipient) || SameAddress(t[i].email, email))
             && t[i].createdAt >= now - DUPLICATE_WINDOW
  }

  /** The unique indexes on (event_id, invitee_email) and (event_id, recipient_user_id). */
  predicate Conflicts(t: Table, v: Invite) {
    exists i :: i in t && t[i].event == v.event
             && (t[i].email == v.email || (v.recipient.Some? && t[i].recipient == v.recipient))
  }

  /** Everything a create request checks before it inserts, in order; Ok is the row to insert. */
  function Checked(t: Table, blocks: Blocks, now: int, r: Request): Result<Invite, Refusal> {
    var email := NormalEmail(r.rawEmail);
    if email == "" then Err(EmailRequired)
    else if r.eventStatus.None? then Err(EventNotFound)
    else if r.eventStatus.value !in {Published, Draft} then Err(EventStatusInvalid)
    else if !r.eligible then Err(ApprovalRequired)
    else if r.recipient == Some(r.sender) then Err(SelfInvite)
    else if r.recipient.Some? && (r.recipient.value, r.sender) in blocks then Err(BlockedByRecipient)
    else if |SentSince(t, r.sender, now - HOUR)| >= HOURLY_LIMIT then Err(HourlyLimit)
    else if |SentSince(t, r.sender, now - DAY)| >= DAILY_LIMIT then Err(DailyLimit)
    else if |SentForEvent(t, r.sender, r.event)| >= PER_EVENT_CAP then Err(EventCapReached)
    else if InCooldown(t, r.sender, email, now) then Err(RecipientCooldown)
    else if HasDuplicate(t, r.event, r.recipient, email, now) then Err(Duplicate)
    else Ok(Invite(r.event, r.sender, r.recipient, email, Pending, now))
  }

  // ---------- The same checks, query by query ----------

  /** What a create request checks before it looks at invites and blocks; Ok is the row it would insert. */
  function Begun(now: int, r: Request): Result<Invite, Refusal> {
    var email := NormalEmail(r.rawEmail);
    if email == "" then Err(EmailRequired)
    else if r.eventStatus.None? then Err(EventNotFound)
    else if r.eventStatus.value !in {Published, Draft} then Err(EventStatusInvalid)
    else if !r.eligible then Err(ApprovalRequired)
    else if r.recipient == Some(r.sender) then Err(SelfInvite)
    else Ok(Invite(r.event, r.sender, r.recipient, email, Pending, now))
  }

  const BLOCK: nat := 0
  const RATES: nat := 1
  const CAP: nat := 2
  const SPACING: nat := 3
  const DUPLICATE: nat := 4
  const LOOKUPS: nat := 5

  /** The row passes the n-th of its five lookups, each a query of its own. */
  predicate Passes(t: Table, blocks: Blocks, now: int, v: Invite, n: nat) {
    && (n == BLOCK ==> !(v.recipient.Some? && (v.recipient.value, v.sender) in blocks))
    && (n == RATES ==> |SentSince(t, v.sender, now - HOUR)| < HOURLY_LIMIT
                       && |SentSince(t, v.sender, now - DAY)| < DAILY_LIMIT)
    && (n == CAP ==> |SentForEvent(t, v.sender, v.event)| < PER_EVENT_CAP)
    && (n == SPACING ==> !InCooldown(t, v.sender, v.email, now))
    && (n == DUPLICATE ==> !HasDuplicate(t, v.event, v.recipient, v.email, now))
  }

  /** At one moment, the checks are those before the lookups and all of the lookups. */
  lemma CheckedIsBegunAndPassed(t: Table, blocks: Blocks, now: int, r: Request)
    ensures var b := Begun(now, r);
            && (Checked(t, blocks, now, r).Ok? <==>
                  b.Ok? && forall n: nat :: n < LOOKUPS ==> Passes(t, blocks, now, b.value, n))
            && (Checked(t, blocks, now, r).Ok? ==> Checked(t, blocks, now, r) == b)
  {
    hide NormalEmail, SentSince, SentForEvent, InCooldown, HasDuplicate;
    var b := Begun(now, r);
    if Checked(t, blocks, now, r).Err? && b.Ok? {
      assert !(Passes(t, blocks, now, b.value, BLOCK) && Passes(t, blocks, now, b.value, RATES)
               && Passes(t, blocks, now, b.value, CAP) && Passes(t, blocks, now, b.value, SPACING)
               && Passes(t, blocks, now, b.value, DUPLICATE));
    }
  }

  /** INSERT ... ON CONFLICT DO NOTHING. */
  function Inserted(t: Table, id: nat, v: Invite): Table {
    if id in t || Conflicts(t, v) then t else t[id := v]
  }

  function AnswerStatus(accept: bool): InviteStatus {
    if accept then Accepted else Declined
  }

  /** UPDATE ... SET status WHERE id, which does not look at the status it replaces. */
  function AnswerWritten(t: Table, id: nat, accept: bool): Table {
    if id in t then t[id := t[id].(status := AnswerStatus(accept))] else t
  }

  /** Every pending invite from `sender` to `user` declined. */
  function DeclinedFrom(t: Table, user: nat, sender: nat): Table {
    map i | i in t ::
      if t[i].recipient == Some(user) && t[i].sender == sender && t[i].status == Pending
      then t[i].(status := Declined) else t[i]
  }

  /** What the deletion of an event leaves: its invites go with it, ON DELETE CASCADE. */
  function WithoutEvent(t: Table, event: nat): Table {
    map i | i in t && t[i].event != event :: t[i]
  }

  predicate NonePending(t: Table, recipient: nat, sender: nat) {
    forall i :: i in t && t[i].recipient == Some(recipient) && t[i].sender == sender ==> t[i].status != Pending
  }

  // ---------- What each refusal means ----------

  /** The source's own order of the checks. */
  function Rank(x: Refusal): nat {
    match x
    case EmailRequired => 0
    case EventNotFound => 1
    case EventStatusInvalid => 2
    case ApprovalRequired => 3
    case SelfInvite => 4
    case BlockedByRecipient => 5
    case HourlyLimit => 6
    case DailyLimit => 7
    case EventCapReached => 8
    case RecipientCooldown => 9
    case Duplicate => 10
  }

  predicate Violates(t: Table, blocks: Blocks, now: int, r: Request, x: Refusal) {
    match x
    case EmailRequired => NormalEmail(r.rawEmail) == ""
    case EventNotFound => r.eventStatus.None?
    case EventStatusInvalid => r.eventStatus.Some? && r.eventStatus.value !in {Published, Draft}
    case ApprovalRequired => !r.eligible
    case SelfInvite => r.recipient == Some(r.sender)
    case BlockedByRecipient => r.recipient.Some? && (r.recipient.value, r.sender) in blocks
    case HourlyLimit => |SentSince(t, r.sender, now - HOUR)| >= HOURLY_LIMIT
    case DailyLimit => |SentSince(t, r.sender, now - DAY)| >= DAILY_LIMIT
    case EventCapReached => |SentForEvent(t, r.sender, r.event)| >= PER_EVENT_CAP
    case RecipientCooldown => InCooldown(t, r.sender, NormalEmail(r.rawEmail), now)
    case Duplicate => HasDuplicate(t, r.event, r.recipient, NormalEmail(r.rawEmail), now)
  }

  ghost predicate Admissible(t: Table, blocks: Blocks, now: int, r: Request) {
    forall x :: !Violates(t, blocks, now, r, x)
  }

  /** x is violated and nothing checked before it is. */
  ghost predicate FirstViolated(t: Table, blocks: Blocks, now: int, r: Request, x: Refusal) {
    Violates(t, blocks, now, r, x) && forall y :: Rank(y) < Rank(x) ==> !Violates(t, blocks, now, r, y)
  }

  /** The checks pass exactly when none of the eleven rules is violated, and otherwise name the first that is. */
  lemma CheckedMeans(t: Table, blocks: Blocks, now: int, r: Request)
    ensures var c := Checked(t, blocks, now, r);
            && (c.Ok? <==> Admissible(t, blocks, now, r))
            && (c.Ok? ==> c.value == Invite(r.event, r.sender, r.recipient, NormalEmail(r.rawEmail), Pending, now))
            && (c.Err? ==> FirstViolated(t, blocks, now, r, c.error))
  {
    hide NormalEmail, SentSince, SentForEvent, InCooldown, HasDuplicate;
    var c := Checked(t, blocks, now, r);
    if c.Ok? {
      forall x ensures !Violates(t, blocks, now, r, x) {
      }
    } else {
      assert Violates(t, blocks, now, r, c.error);
      forall y | Rank(y) < Rank(c.error) ensures !Violates(t, blocks, now, r, y) {
      }
    }
  }

  /** Which lookup of a create request finds a rule violated; the others are checked before any lookup. */
  function LookupFor(x: Refusal): Option<nat> {
    match x
    case BlockedByRecipient => Some(BLOCK)
    case HourlyLimit => Some(RATES)
    case DailyLimit => Some(RATES)
    case EventCapReached => Some(CAP)
    case RecipientCooldown => Some(SPACING)
    case Duplicate => Some(DUPLICATE)
    case _ => None
  }

  /** A lookup passes exactly when none of its own rules is violated; each has one, and they follow the rules' order. */
  lemma LookupPassesIff(t: Table, blocks: Blocks, now: int, r: Request, n: nat)
    requires n < LOOKUPS && Begun(now, r).Ok?
    ensures Passes(t, blocks, now, Begun(now, r).value, n) <==>
            forall x :: LookupFor(x) == Some(n) ==> !Violates(t, blocks, now, r, x)
    ensures exists x :: LookupFor(x) == Some(n)
    ensures forall x, y :: Rank(x) <= Rank(y) && LookupFor(x).Some? ==>
              LookupFor(y).Some? && LookupFor(x).value <= LookupFor(y).value
  {
    hide NormalEmail, SentSince, SentForEvent, InCooldown, HasDuplicate;
    var rules := [BlockedByRecipient, HourlyLimit, EventCapReached, RecipientCooldown, Duplicate];
    assert LookupFor(rules[n]) == Some(n);
    if Passes(t, blocks, now, Begun(now, r).value, n) {
      forall x | LookupFor(x) == Some(n) ensures !Violates(t, blocks, now, r, x) {
      }
    } else {
      var hourly := |SentSince(t, r.sender, now - HOUR)| >= HOURLY_LIMIT;
      var x := if n == BLOCK then BlockedByRecipient
               else if n == RATES then (if hourly then HourlyLimit else DailyLimit)
               else if n == CAP then EventCapReached
               else if n == SPACING then RecipientCooldown
               else Duplicate;
      assert LookupFor(x) == Some(n) && Violates(t, blocks, now, r, x);
    }
  }

  /** The same in the columns of the tables, hours in seconds: who is counted, and against which window. */
  lemma CheckedInColumns(t: Table, blocks: Blocks, now: int, r: Request)
    ensures Checked(t, blocks, now, r).Ok? <==>
            && ToLower(Trim(r.rawEmail)) != ""
            && r.eventStatus in {Some(Published), Some(Draft)}
            && r.eligible
            && r.recipient != Some(r.sender)
            && (r.recipient.Some? ==> (r.recipient.value, r.sender) !in blocks)
            && |set i | i in t && t[i].sender == r.sender && t[i].createdAt >= now - 3600| < 12
            && |set i | i in t && t[i].sender == r.sender && t[i].createdAt >= now - 86400| < 40
            && |set i | i in t && t[i].sender == r.sender && t[i].event == r.event| < 3
            && (forall i :: i in t && t[i].sender == r.sender && t[i].createdAt >= now - 86400 ==>
                  ToLower(t[i].email) != ToLower(ToLower(Trim(r.rawEmail))))
            && (forall i :: i in t && t[i].event == r.event && t[i].createdAt >= now - 2592000 ==>
                  && ToLower(t[i].email) != ToLower(ToLower(Trim(r.rawEmail)))
                  && (r.recipient.Some? ==> t[i].recipient != r.recipient))
  {
    hide ToLower, Trim;
    assert SentSince(t, r.sender, now - HOUR)
        == set i | i in t && t[i].sender == r.sender && t[i].createdAt >= now - 3600;
    assert SentSince(t, r.sender, now - DAY)
        == set i | i in t && t[i].sender == r.sender && t[i].createdAt >= now - 86400;
    assert SentForEvent(t, r.sender, r.event) == set i | i in t && t[i].sender == r.sender && t[i].event == r.event;
  }

  /** Other senders' invites for other events, whoever they are to, change nothing for a request. */
  lemma OthersDoNotRefuse(t: Table, t': Table, blocks: Blocks, now: int, r: Request)
    requires forall i :: i in t ==> i in t' && t'[i] == t[i]
    requires forall i :: i in t' && i !in t ==> t'[i].sender != r.sender && t'[i].event != r.event
    ensures Checked(t', blocks, now, r) == Checked(t, blocks, now, r)
  {
    hide ToLower, Trim;
    assert SentSince(t', r.sender, now - HOUR) == SentSince(t, r.sender, now - HOUR);
    assert SentSince(t', r.sender, now - DAY) == SentSince(t, r.sender, now - DAY);
    assert SentForEvent(t', r.sender, r.event) == SentForEvent(t, r.sender, r.event);
  }

  datatype Reply = NotFound | Forbidden | NotPending | Done

  /**
   * The invite and block tables. No request holds a lock between its queries: `meanwhile` and `later`
   * are the tables as other requests leave them before this one's last write. Passing the tables
   * themselves describes an uninterrupted request.
   */
  class InvitesApi {
    var invites: Table
    var blocks: Blocks

    /** `id` is the fresh identifier the database would give the row, `later` the time of the insert. */
    method CreateInvite(now: int, id: nat, r: Request, meanwhile: Table, later: int)
      returns (res: Result<Invite, Refusal>)
      requires id !in meanwhile
      modifies this`invites
      ensures res.Ok? ==>
                && Admissible(old(invites), blocks, now, r)
                && res.value == Invite(r.event, r.sender, r.recipient, NormalEmail(r.rawEmail), Pending, later)
                && !Conflicts(meanwhile, res.value)
                && invites == meanwhile[id := res.value]
      ensures res.Err? && Admissible(old(invites), blocks, now, r) ==>
                && res.error == Duplicate && invites == meanwhile
                && Conflicts(meanwhile, Invite(r.event, r.sender, r.recipient, NormalEmail(r.rawEmail), Pending, later))
      ensures res.Err? && !Admissible(old(invites), blocks, now, r) ==>
                FirstViolated(old(invites), blocks, now, r, res.error) && invites == old(invites)
    {
      hide Checked, Admissible, FirstViolated, Conflicts;
      CheckedMeans(invites, blocks, now, r);
      var checked := Checked(invites, blocks, now, r);
      if checked.Err? {
        return Err(checked.error);
      }
      invites := meanwhile;
      var v := checked.value.(createdAt := later);
      if Conflicts(invites, v) {
        return Err(Duplicate);
      }
      invites := invites[id := v];
      return Ok(v);
    }

    method UpdateInvite(user: nat, id: nat, accept: bool, meanwhile: Table) returns (reply: Reply)
      modifies this`invites
      ensures reply.NotFound? <==> id !in old(invites)
      ensures reply.Forbidden? <==> id in old(invites) && old(invites)[id].recipient != Some(user)
      ensures reply.Done? <==>
                id in old(invites) && old(invites)[id].recipient == Some(user) && old(invites)[id].status == Pending
      ensures !reply.Done? ==> invites == old(invites)
      ensures reply.Done? ==> invites.Keys == meanwhile.Keys
      ensures reply.Done? && id in meanwhile ==>
                invites[id] == meanwhile[id].(status := if accept then Accepted else Declined)
      ensures reply.Done? ==> forall i :: i in meanwhile && i != id ==> invites[i] == meanwhile[i]
    {
      if id !in invites {
        return NotFound;
      }
      if invites[id].recipient != Some(user) {
        return Forbidden;
      }
      if invites[id].status != Pending {
        return NotPending;
      }
      invites := meanwhile;
      invites := AnswerWritten(invites, id, accept);
      return Done;
    }

    method DeleteInvite(user: nat, id: nat, meanwhile: Table) returns (reply: Reply)
      modifies this`invites
      ensures reply.NotFound? <==> id !in old(invites)
      ensures reply.Forbidden? <==> id in old(invites) && old(invites)[id].sender != user
      ensures reply.Done? <==>
                id in old(invites) && old(invites)[id].sender == user && old(invites)[id].status == Pending
      ensures !reply.Done? ==> invites == old(invites)
      ensures reply.Done? ==> invites.Keys == meanwhile.Keys - {id}
      ensures reply.Done? ==> forall i :: i in invites ==> invites[i] == meanwhile[i]
    {
      if id !in invites {
        return NotFound;
      }
      if invites[id].sender != user {
        return Forbidden;
      }
      if invites[id].status != Pending {
        return NotPending;
      }
      invites := meanwhile;
      invites := invites - {id};
      return Done;
    }

    /**
     * Blocks the sender of invite `id` and declines all their pending invites to `user`. Others may act
     * between the two writes but never lift a block.
     */
    method BlockInviteSender(user: nat, id: nat, meanwhile: Table, laterBlocks: Blocks) returns (reply: Reply)
      requires blocks <= laterBlocks
      requires id in invites ==> (user, invites[id].sender) in laterBlocks
      modifies this
      ensures reply.NotFound? <==> id !in old(invites)
      ensures reply.Forbidden? <==> id in old(invites) && old(invites)[id].recipient != Some(user)
      ensures reply != NotPending
      ensures !reply.Done? ==> invites == old(invites) && blocks == old(blocks)
      ensures reply.Done? ==>
                && (user, old(invites)[id].sender) in blocks && blocks == laterBlocks
                && NonePending(invites, user, old(invites)[id].sender)
                && invites == DeclinedFrom(meanwhile, user, old(invites)[id].sender)
      ensures reply.Done? ==>
                var from := old(invites)[id].sender;
                && invites.Keys == meanwhile.Keys
                && forall i :: i in meanwhile ==>
                     invites[i] == if meanwhile[i].recipient == Some(user) && meanwhile[i].sender == from
                                      && meanwhile[i].status == Pending
                                   then meanwhile[i].(status := Declined) else meanwhile[i]
    {
      if id !in invites {
        return NotFound;
      }
      if invites[id].recipient != Some(user) {
        return Forbidden;
      }
      var sender := invites[id].sender;
      blocks := blocks + {(user, sender)};
      invites, blocks := meanwhile, laterBlocks;
      invites := DeclinedFrom(invites, user, sender);
      return Done;
    }
  }
}
