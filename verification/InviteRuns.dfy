/**
  Whole runs of the invite API. Every query is a step of its own, so that other requests can come
  between the lookups of a create request and its insert, and between what a reply, a withdrawal or a
  block reads and what it writes.
*/
module InviteRuns {
  import opened Wrappers
  import opened Sums
  import opened Invites

  /** A create request under way: the row it would insert, and how many of its lookups it has passed. */
  datatype Open = Open(row: Invite, passed: nat)

  /** A write some request has decided on but not made yet. */
  datatype Intent =
    | SetAnswer(id: nat, accept: bool)
    | Remove(id: nat)
    | AddBlock(user: nat, sender: nat)
    | Close(user: nat, sender: nat)

  /**
   * `open` holds the create requests under way, `intents` the other requests between read and write,
   * `closed` the blocks whose pending invites have been declined, and `gone` the deleted events.
   */
  datatype System = System(
    invites: Table, blocks: Blocks, now: int, open: map<nat, Open>, intents: map<nat, Intent>, closed: Blocks,
    gone: set<nat>)

  datatype Step =
    | Tick(elapsed: nat)
    | Begin(request: nat, body: Request)
    | Look(request: nat)
    | Insert(request: nat, id: nat)
    | Abandon(request: nat)
    | ReadAnswer(request: nat, user: nat, id: nat, accept: bool)
    | ReadWithdrawal(request: nat, user: nat, id: nat)
    | ReadBlock(request: nat, user: nat, id: nat)
    | Write(request: nat)
    | Fail(request: nat)
      // Its host deletes a draft, or an administrator deletes any event: its invites go with it.
    | DeleteEvent(event: nat)

  predicate Enabled(s: System, step: Step) {
    match step
    case Tick(_) => true
    case Begin(q, _) => q !in s.open
    case Look(q) => q in s.open && s.open[q].passed < LOOKUPS
    case Insert(q, id) =>
      q in s.open && s.open[q].passed == LOOKUPS && s.open[q].row.event !in s.gone && id !in s.invites
    case Abandon(q) => q in s.open
    case ReadAnswer(q, _, _, _) => q !in s.intents
    case ReadWithdrawal(q, _, _) => q !in s.intents
    case ReadBlock(q, _, _) => q !in s.intents
    case Write(q) => q in s.intents
    case Fail(q) => q in s.intents
    case DeleteEvent(_) => true
  }

  function Apply(s: System, step: Step): System
    requires Enabled(s, step)
  {
    match step
    case Tick(d) => s.(now := s.now + d)
    case Begin(q, r) =>
      (match Begun(s.now, r)
       case Ok(v) => s.(open := s.open[q := Open(v, BLOCK)])
       case Err(_) => s)
    case Look(q) =>
      if Passes(s.invites, s.blocks, s.now, s.open[q].row, s.open[q].passed)
      then s.(open := s.open[q := Open(s.open[q].row, s.open[q].passed + 1)]) else s.(open := s.open - {q})
    case Insert(q, id) =>
      s.(invites := Inserted(s.invites, id, s.open[q].row.(createdAt := s.now)), open := s.open - {q})
    case Abandon(q) => s.(open := s.open - {q})
    case ReadAnswer(q, user, id, accept) =>
      if id in s.invites && s.invites[id].recipient == Some(user) && s.invites[id].status == Pending
      then s.(intents := s.intents[q := SetAnswer(id, accept)]) else s
    case ReadWithdrawal(q, user, id) =>
      if id in s.invites && s.invites[id].sender == user && s.invites[id].status == Pending
      then s.(intents := s.intents[q := Remove(id)]) else s
    case ReadBlock(q, user, id) =>
      if id in s.invites && s.invites[id].recipient == Some(user)
      then s.(intents := s.intents[q := AddBlock(user, s.invites[id].sender)]) else s
    case Write(q) => Written(s, q, s.intents[q])
    case Fail(q) => s.(intents := s.intents - {q})
    case DeleteEvent(e) => s.(invites := WithoutEvent(s.invites, e), gone := s.gone + {e})
  }

  /** One UPDATE, DELETE or INSERT; a block goes on to close the pending invites. */
  function Written(s: System, q: nat, w: Intent): System {
    match w
    case SetAnswer(id, accept) => s.(invites := AnswerWritten(s.invites, id, accept), intents := s.intents - {q})
    case Remove(id) => s.(invites := s.invites - {id}, intents := s.intents - {q})
    case AddBlock(user, sender) =>
      s.(blocks := s.blocks + {(user, sender)}, intents := s.intents[q := Close(user, sender)])
    case Close(user, sender) =>
      s.(invites := DeclinedFrom(s.invites, user, sender), closed := s.closed + {(user, sender)},
         intents := s.intents - {q})
  }

  function Start(now: int): System {
    System(map[], {}, now, map[], map[], {}, {})
  }

  /** The sender's create requests under way that have passed n lookups at least. */
  function Past(open: map<nat, Open>, sender: nat, n: nat): set<nat> {
    set q | q in open && open[q].row.sender == sender && open[q].passed >= n
  }

  function PastFor(open: map<nat, Open>, sender: nat, event: nat, n: nat): set<nat> {
    set q | q in open && open[q].row.sender == sender && open[q].row.event == event && open[q].passed >= n
  }

  function SentBetween(t: Table, sender: nat, from: int, to: int): set<nat> {
    set i | i in t && t[i].sender == sender && from <= t[i].createdAt <= to
  }

  /** How many create requests may be in flight at once: any, or k of one sender, or k of one for an event. */
  datatype Bound =
    | Anything
    | PerSender(sender: nat, k: nat)
    | PerEvent(sender: nat, event: nat, k: nat)

  predicate Within(open: map<nat, Open>, b: Bound) {
    match b
    case Anything => true
    case PerSender(sender, k) => |Past(open, sender, 0)| <= k
    case PerEvent(sender, event, k) => |PastFor(open, sender, event, 0)| <= k
  }

  /** A run whose every state is within the bound. */
  ghost predicate Run(s: System, steps: seq<Step>, s': System, b: Bound)
    decreases |steps|
  {
    && Within(s.open, b)
    && if |steps| == 0 then s' == s
       else Enabled(s, steps[0]) && Run(Apply(s, steps[0]), steps[1..], s', b)
  }

  /** Nothing new sent, only answered, declined, withdrawn or deleted. */
  ghost predicate NoneAdded(t: Table, t': Table) {
    forall i :: i in t' ==>
      i in t && t'[i].sender == t[i].sender && t'[i].event == t[i].event && t'[i].createdAt == t[i].createdAt
  }

  lemma OthersAddNothing(s: System, step: Step)
    requires Enabled(s, step) && !step.Insert?
    ensures NoneAdded(s.invites, Apply(s, step).invites) && s.now <= Apply(s, step).now
  {
    hide Begun, Passes;
    if step.Write? {
      hide Apply;
      WriteAddsNothing(s, step.request);
    }
  }

  lemma WriteAddsNothing(s: System, q: nat)
    requires q in s.intents
    ensures NoneAdded(s.invites, Apply(s, Write(q)).invites) && s.now <= Apply(s, Write(q)).now
  {
  }

  /** No request gets further, and none starts. */
  ghost predicate NoneFurther(open: map<nat, Open>, open': map<nat, Open>) {
    forall q :: q in open' ==> q in open && open'[q] == open[q]
  }

  lemma OnlyOwnStepsAdvance(s: System, step: Step)
    requires Enabled(s, step) && !step.Begin? && !step.Look?
    ensures NoneFurther(s.open, Apply(s, step).open)
  {
    hide Conflicts;
  }

  // ---------- The event cap ----------

  /** What is sent and what has passed the cap's lookup together stay below the cap by all but k. */
  ghost predicate CapOk(s: System, sender: nat, event: nat, k: nat) {
    |SentForEvent(s.invites, sender, event)| + |PastFor(s.open, sender, event, CAP + 1)| <= PER_EVENT_CAP - 1 + k
  }

  lemma StepKeepsCap(s: System, step: Step, sender: nat, event: nat, k: nat)
    requires CapOk(s, sender, event, k) && Enabled(s, step)
    requires |PastFor(Apply(s, step).open, sender, event, 0)| <= k
    ensures CapOk(Apply(s, step), sender, event, k)
  {
    hide Apply, CapOk;
    match step
    case Begin(q, r) => BeginKeepsCap(s, q, r, sender, event, k);
    case Look(q) => LookKeepsCap(s, q, sender, event, k);
    case Insert(q, id) => InsertKeepsCap(s, q, id, sender, event, k);
    case _ =>
      OthersAddNothing(s, step);
      OnlyOwnStepsAdvance(s, step);
      FewerKeepCap(s, Apply(s, step), sender, event, k);
  }

  lemma FewerKeepCap(s: System, s': System, sender: nat, event: nat, k: nat)
    requires CapOk(s, sender, event, k) && NoneAdded(s.invites, s'.invites) && NoneFurther(s.open, s'.open)
    ensures CapOk(s', sender, event, k)
  {
    SubsetSize(SentForEvent(s'.invites, sender, event), SentForEvent(s.invites, sender, event));
    SubsetSize(PastFor(s'.open, sender, event, CAP + 1), PastFor(s.open, sender, event, CAP + 1));
  }

  lemma BeginKeepsCap(s: System, q: nat, r: Request, sender: nat, event: nat, k: nat)
    requires CapOk(s, sender, event, k) && q !in s.open
    ensures CapOk(Apply(s, Begin(q, r)), sender, event, k)
  {
    hide Begun;
    assert PastFor(Apply(s, Begin(q, r)).open, sender, event, CAP + 1) == PastFor(s.open, sender, event, CAP + 1);
  }

  lemma LookKeepsCap(s: System, q: nat, sender: nat, event: nat, k: nat)
    requires CapOk(s, sender, event, k) && Enabled(s, Look(q))
    requires |PastFor(Apply(s, Look(q)).open, sender, event, 0)| <= k
    ensures CapOk(Apply(s, Look(q)), sender, event, k)
  {
    var s' := Apply(s, Look(q));
    var v, n := s.open[q].row, s.open[q].passed;
    if v.sender == sender && v.event == event && n == CAP && Passes(s.invites, s.blocks, s.now, v, n) {
      SubsetSize(PastFor(s'.open, sender, event, CAP + 1), PastFor(s'.open, sender, event, 0));
    } else {
      hide Passes, SentForEvent;
      SubsetSize(PastFor(s'.open, sender, event, CAP + 1), PastFor(s.open, sender, event, CAP + 1));
    }
  }

  lemma InsertKeepsCap(s: System, q: nat, id: nat, sender: nat, event: nat, k: nat)
    requires CapOk(s, sender, event, k) && Enabled(s, Insert(q, id))
    ensures CapOk(Apply(s, Insert(q, id)), sender, event, k)
  {
    hide Conflicts, SentForEvent, PastFor;
    var s' := Apply(s, Insert(q, id));
    OneMoreSent(s.invites, id, s.open[q].row.(createdAt := s.now), sender, event);
    OneFewerOpen(s.open, q, sender, event);
  }

  lemma OneMoreSent(t: Table, id: nat, v: Invite, sender: nat, event: nat)
    requires id !in t
    ensures |SentForEvent(Inserted(t, id, v), sender, event)|
         <= |SentForEvent(t, sender, event)| + if v.sender == sender && v.event == event then 1 else 0
  {
    hide Conflicts;
    var t' := Inserted(t, id, v);
    if v.sender == sender && v.event == event {
      SubsetSize(SentForEvent(t', sender, event), SentForEvent(t, sender, event) + {id});
    } else {
      SubsetSize(SentForEvent(t', sender, event), SentForEvent(t, sender, event));
    }
  }

  lemma OneFewerOpen(open: map<nat, Open>, q: nat, sender: nat, event: nat)
    requires q in open && open[q].passed == LOOKUPS
    ensures |PastFor(open - {q}, sender, event, CAP + 1)|
         == |PastFor(open, sender, event, CAP + 1)|
            - if open[q].row.sender == sender && open[q].row.event == event then 1 else 0
  {
    var past, past' := PastFor(open, sender, event, CAP + 1), PastFor(open - {q}, sender, event, CAP + 1);
    forall p ensures p in past' <==> p in past && p != q {
    }
    hide PastFor;
    assert past' == past - {q};
  }

  lemma {:induction false} RunKeepsCap(s: System, steps: seq<Step>, s': System, sender: nat, event: nat, k: nat)
    requires CapOk(s, sender, event, k) && Run(s, steps, s', PerEvent(sender, event, k))
    ensures CapOk(s', sender, event, k)
    decreases |steps|
  {
    hide CapOk, Apply;
    if |steps| > 0 {
      StepKeepsCap(s, steps[0], sender, event, k);
      RunKeepsCap(Apply(s, steps[0]), steps[1..], s', sender, event, k);
    }
  }

  /** With at most k of a sender's create requests for an event in flight, however many for other events, and
      whatever comes between their lookups and inserts, the event holds at most 3 + (k - 1) of their invites. */
  lemma CapHolds(now: int, steps: seq<Step>, s: System, sender: nat, event: nat, k: nat)
    requires k >= 1 && Run(Start(now), steps, s, PerEvent(sender, event, k))
    ensures |SentForEvent(s.invites, sender, event)| <= PER_EVENT_CAP + (k - 1)
  {
    hide Run;
    assert SentForEvent(map[], sender, event) == {} && PastFor(map[], sender, event, CAP + 1) == {};
    RunKeepsCap(Start(now), steps, s, sender, event, k);
  }

  // ---------- The hourly and daily windows ----------

  /** What is already sent and what has passed the rates' lookup together stay below the limit by all but k. */
  ghost predicate WindowOk(s: System, sender: nat, span: int, limit: nat, k: nat) {
    && |SentSince(s.invites, sender, s.now - span)| + |Past(s.open, sender, RATES + 1)| <= limit - 1 + k
    && forall t :: WindowAt(s.invites, sender, span, limit, k, t)
  }

  /** At most limit + (k - 1) existing invites were created in the span ending at instant t. */
  ghost predicate WindowAt(t: Table, sender: nat, span: int, limit: nat, k: nat, end: int) {
    |SentBetween(t, sender, end - span, end)| <= limit - 1 + k
  }

  ghost predicate NoneLater(s: System) {
    forall i :: i in s.invites ==> s.invites[i].createdAt <= s.now
  }

  ghost predicate Throttled(s: System, sender: nat, k: nat) {
    && NoneLater(s)
    && WindowOk(s, sender, HOUR, HOURLY_LIMIT, k)
    && WindowOk(s, sender, DAY, DAILY_LIMIT, k)
  }

  lemma FewerInWindow(s: System, s': System, sender: nat, span: int, limit: nat, k: nat)
    requires WindowOk(s, sender, span, limit, k)
    requires NoneAdded(s.invites, s'.invites) && s.now <= s'.now
    requires |Past(s'.open, sender, RATES + 1)| <= |Past(s.open, sender, RATES + 1)|
    ensures WindowOk(s', sender, span, limit, k)
  {
    SubsetSize(SentSince(s'.invites, sender, s'.now - span), SentSince(s.invites, sender, s.now - span));
    forall t ensures WindowAt(s'.invites, sender, span, limit, k, t) {
      assert WindowAt(s.invites, sender, span, limit, k, t);
      SubsetSize(SentBetween(s'.invites, sender, t - span, t), SentBetween(s.invites, sender, t - span, t));
    }
  }

  lemma FewerStayThrottled(s: System, s': System, sender: nat, k: nat)
    requires Throttled(s, sender, k)
    requires NoneAdded(s.invites, s'.invites) && s.now <= s'.now
    requires Past(s'.open, sender, RATES + 1) <= Past(s.open, sender, RATES + 1)
    ensures Throttled(s', sender, k)
  {
    SubsetSize(Past(s'.open, sender, RATES + 1), Past(s.open, sender, RATES + 1));
    FewerInWindow(s, s', sender, HOUR, HOURLY_LIMIT, k);
    FewerInWindow(s, s', sender, DAY, DAILY_LIMIT, k);
  }

  lemma LookStaysThrottled(s: System, q: nat, sender: nat, k: nat)
    requires Throttled(s, sender, k) && Enabled(s, Look(q)) && |Past(Apply(s, Look(q)).open, sender, 0)| <= k
    ensures Throttled(Apply(s, Look(q)), sender, k)
  {
    var s' := Apply(s, Look(q));
    var v, n := s.open[q].row, s.open[q].passed;
    if v.sender == sender && n == RATES && Passes(s.invites, s.blocks, s.now, v, n) {
      SubsetSize(Past(s'.open, sender, RATES + 1), Past(s'.open, sender, 0));
    } else {
      hide Passes;
      FewerStayThrottled(s, s', sender, k);
    }
  }

  lemma InsertStaysThrottled(s: System, q: nat, id: nat, sender: nat, k: nat)
    requires Throttled(s, sender, k) && Enabled(s, Insert(q, id))
    ensures Throttled(Apply(s, Insert(q, id)), sender, k)
  {
    hide Conflicts, Past, WindowOk;
    var s' := Apply(s, Insert(q, id));
    InsertedIsPast(s.open, q, sender);
    if s.open[q].row.sender == sender && id in s'.invites {
      OneMoreInWindow(s, s', q, id, sender, HOUR, HOURLY_LIMIT, k);
      OneMoreInWindow(s, s', q, id, sender, DAY, DAILY_LIMIT, k);
    } else {
      SubsetSize(Past(s'.open, sender, RATES + 1), Past(s.open, sender, RATES + 1));
      SameWindow(s, s', sender, HOUR, HOURLY_LIMIT, k);
      SameWindow(s, s', sender, DAY, DAILY_LIMIT, k);
    }
  }

  lemma InsertedIsPast(open: map<nat, Open>, q: nat, sender: nat)
    requires q in open && open[q].passed == LOOKUPS
    ensures Past(open - {q}, sender, RATES + 1) == Past(open, sender, RATES + 1) - {q}
    ensures open[q].row.sender == sender ==> q in Past(open, sender, RATES + 1)
  {
  }

  lemma SameWindow(s: System, s': System, sender: nat, span: int, limit: nat, k: nat)
    requires WindowOk(s, sender, span, limit, k) && s'.now == s.now
    requires |Past(s'.open, sender, RATES + 1)| <= |Past(s.open, sender, RATES + 1)|
    requires forall i :: i in s'.invites && s'.invites[i].sender == sender ==>
               i in s.invites && s'.invites[i] == s.invites[i]
    ensures WindowOk(s', sender, span, limit, k)
  {
    SubsetSize(SentSince(s'.invites, sender, s.now - span), SentSince(s.invites, sender, s.now - span));
    forall t ensures WindowAt(s'.invites, sender, span, limit, k, t) {
      assert WindowAt(s.invites, sender, span, limit, k, t);
      SubsetSize(SentBetween(s'.invites, sender, t - span, t), SentBetween(s.invites, sender, t - span, t));
    }
  }

  lemma OneMoreInWindow(s: System, s': System, q: nat, id: nat, sender: nat, span: int, limit: nat, k: nat)
    requires WindowOk(s, sender, span, limit, k) && span >= 0 && NoneLater(s)
    requires id !in s.invites && id in s'.invites && s'.invites == s.invites[id := s'.invites[id]]
    requires s'.invites[id].sender == sender && s'.invites[id].createdAt == s.now == s'.now
    requires q in Past(s.open, sender, RATES + 1)
    requires Past(s'.open, sender, RATES + 1) == Past(s.open, sender, RATES + 1) - {q}
    ensures WindowOk(s', sender, span, limit, k)
  {
    hide Past;
    OneMoreSince(s.invites, s'.invites, id, sender, s.now, span);
    forall t ensures WindowAt(s'.invites, sender, span, limit, k, t) {
      assert WindowAt(s.invites, sender, span, limit, k, t);
      OneMoreAt(s.invites, s'.invites, id, sender, s.now, span, t);
    }
  }

  lemma OneMoreSince(t: Table, t': Table, id: nat, sender: nat, now: int, span: int)
    requires id !in t && id in t' && t' == t[id := t'[id]] && t'[id].sender == sender && t'[id].createdAt == now
    requires span >= 0
    ensures |SentSince(t', sender, now - span)| == |SentSince(t, sender, now - span)| + 1
  {
    assert SentSince(t', sender, now - span) == SentSince(t, sender, now - span) + {id};
  }

  /** A window ending before the insert is untouched; a later one lies within the last span. */
  lemma OneMoreAt(t: Table, t': Table, id: nat, sender: nat, now: int, span: int, end: int)
    requires id !in t && id in t' && t' == t[id := t'[id]] && t'[id].createdAt == now
    requires forall i :: i in t ==> t[i].createdAt <= now
    ensures |SentBetween(t', sender, end - span, end)| <= |SentBetween(t, sender, end - span, end)|
         || |SentBetween(t', sender, end - span, end)| <= |SentSince(t', sender, now - span)|
  {
    if end < now {
      SubsetSize(SentBetween(t', sender, end - span, end), SentBetween(t, sender, end - span, end));
    } else {
      SubsetSize(SentBetween(t', sender, end - span, end), SentSince(t', sender, now - span));
    }
  }

  lemma StepStaysThrottled(s: System, step: Step, sender: nat, k: nat)
    requires Throttled(s, sender, k) && Enabled(s, step) && |Past(Apply(s, step).open, sender, 0)| <= k
    ensures Throttled(Apply(s, step), sender, k)
  {
    hide Throttled, Apply;
    match step
    case Look(q) => LookStaysThrottled(s, q, sender, k);
    case Insert(q, id) => InsertStaysThrottled(s, q, id, sender, k);
    case Begin(q, r) =>
      OthersAddNothing(s, step);
      BeginPassesNothing(s, q, r, sender);
      FewerStayThrottled(s, Apply(s, step), sender, k);
    case _ =>
      OthersAddNothing(s, step);
      OnlyOwnStepsAdvance(s, step);
      FewerStayThrottled(s, Apply(s, step), sender, k);
  }

  lemma BeginPassesNothing(s: System, q: nat, r: Request, sender: nat)
    requires q !in s.open
    ensures Past(Apply(s, Begin(q, r)).open, sender, RATES + 1) <= Past(s.open, sender, RATES + 1)
  {
    hide Begun;
  }

  lemma {:induction false} RunStaysThrottled(s: System, steps: seq<Step>, s': System, sender: nat, k: nat)
    requires Throttled(s, sender, k) && Run(s, steps, s', PerSender(sender, k))
    ensures Throttled(s', sender, k)
    decreases |steps|
  {
    hide Throttled, Apply;
    if |steps| > 0 {
      StepStaysThrottled(s, steps[0], sender, k);
      RunStaysThrottled(Apply(s, steps[0]), steps[1..], s', sender, k);
    }
  }

  /** With at most k of a sender's create requests in flight, whatever comes between their lookups and inserts:
      every hour and every day, ending at any instant, saw at most 12 + (k - 1) and 40 + (k - 1) of the
      invites that still exist. One request at a time keeps the advertised limits exactly. */
  lemma LimitsHold(now: int, steps: seq<Step>, s: System, sender: nat, k: nat)
    requires k >= 1 && Run(Start(now), steps, s, PerSender(sender, k))
    ensures forall t :: WindowAt(s.invites, sender, HOUR, HOURLY_LIMIT, k, t)
    ensures forall t :: WindowAt(s.invites, sender, DAY, DAILY_LIMIT, k, t)
  {
    hide Run;
    StartIsThrottled(now, sender, k);
    RunStaysThrottled(Start(now), steps, s, sender, k);
  }

  lemma StartIsThrottled(now: int, sender: nat, k: nat)
    ensures Throttled(Start(now), sender, k)
  {
    assert Past(map[], sender, RATES + 1) == {};
    forall since ensures SentSince(map[], sender, since) == {} {
    }
    forall from, to ensures SentBetween(map[], sender, from, to) == {} {
    }
  }
}
