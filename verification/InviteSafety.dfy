/** What is kept of invites, answers, blocks and spacing when every query is a step of its own. */
module InviteSafety {
  import opened Wrappers
  import opened Strings
  import opened Sums
  import opened Invites
  import opened InviteRuns

  ghost predicate Reaches(s: System, steps: seq<Step>, s': System)
    decreases |steps|
  {
    if |steps| == 0 then s' == s
    else Enabled(s, steps[0]) && Reaches(Apply(s, steps[0]), steps[1..], s')
  }

  lemma {:induction false} RunReaches(s: System, steps: seq<Step>, s': System, b: Bound)
    requires Run(s, steps, s', b)
    ensures Reaches(s, steps, s')
    decreases |steps|
  {
    if |steps| > 0 {
      RunReaches(Apply(s, steps[0]), steps[1..], s', b);
    }
  }

  // ---------- The unique indexes ----------

  /** An event invites an address once, and an account once. */
  ghost predicate Unique(t: Table) {
    forall i, j :: i in t && j in t && i != j && t[i].event == t[j].event ==>
      t[i].email != t[j].email && (t[i].recipient.Some? ==> t[i].recipient != t[j].recipient)
  }

  /** Nothing but statuses differ from t, and rows may be missing. */
  ghost predicate SameButStatus(t: Table, t': Table) {
    forall i :: i in t' ==> i in t && t'[i] == t[i].(status := t'[i].status)
  }

  lemma OnlyInsertAdds(s: System, step: Step)
    requires Enabled(s, step) && !step.Insert?
    ensures SameButStatus(s.invites, Apply(s, step).invites)
  {
    hide Begun, Passes;
  }

  lemma StepKeepsUnique(s: System, step: Step)
    requires Unique(s.invites) && Enabled(s, step)
    ensures Unique(Apply(s, step).invites)
  {
    hide Begun, Passes, SameAddress;
    if !step.Insert? {
      OnlyInsertAdds(s, step);
    }
  }

  lemma {:induction false} InvitesStayUnique(s: System, steps: seq<Step>, s': System)
    requires Unique(s.invites) && Reaches(s, steps, s')
    ensures Unique(s'.invites)
    decreases |steps|
  {
    hide Unique, Apply;
    if |steps| > 0 {
      StepKeepsUnique(s, steps[0]);
      InvitesStayUnique(Apply(s, steps[0]), steps[1..], s');
    }
  }

  /** An index objects exactly to a row beside which the indexes would no longer hold. */
  lemma ConflictsIff(t: Table, id: nat, v: Invite)
    requires Unique(t) && id !in t
    ensures Conflicts(t, v) <==> !Unique(t[id := v])
  {
    var t' := t[id := v];
    if Conflicts(t, v) {
      var i :| i in t && t[i].event == v.event
               && (t[i].email == v.email || (v.recipient.Some? && t[i].recipient == v.recipient));
      assert t'[i] == t[i] && t'[id] == v && i != id;
    }
  }

  // ---------- Who decides ----------

  /** What the reads behind a write must have found: the pending invite of its recipient to answer, of its sender
      to withdraw, and of its recipient to block. */
  predicate Allows(s: System, step: Step, q: nat, w: Intent) {
    match w
    case SetAnswer(id, accept) =>
      && step.ReadAnswer? && step.request == q && step.id == id && step.accept == accept
      && id in s.invites && s.invites[id].recipient == Some(step.user) && s.invites[id].status == Pending
    case Remove(id) =>
      && step.ReadWithdrawal? && step.request == q && step.id == id
      && id in s.invites && s.invites[id].sender == step.user && s.invites[id].status == Pending
    case AddBlock(user, sender) =>
      && step.ReadBlock? && step.request == q && step.user == user
      && step.id in s.invites && s.invites[step.id].recipient == Some(user) && s.invites[step.id].sender == sender
    case Close(user, sender) => step == Write(q) && q in s.intents && s.intents[q] == AddBlock(user, sender)
  }

  /** A request comes to a write exactly by a read that allows it, or keeps the one it had. */
  lemma IntendsIff(s: System, step: Step, q: nat, w: Intent)
    requires Enabled(s, step)
    ensures q in Apply(s, step).intents && Apply(s, step).intents[q] == w <==>
            Allows(s, step, q, w)
            || (q in s.intents && s.intents[q] == w && step != Write(q) && step != Fail(q))
  {
    hide Begun, Passes, Conflicts;
  }

  // ---------- Answered invites ----------

  predicate IsAnswered(t: Table, id: nat) {
    id in t && t[id].status != Pending
  }

  /** The intent is to delete the invite, or to give it an answer. */
  predicate Names(w: Intent, id: nat) {
    match w
    case SetAnswer(i, _) => i == id
    case Remove(i) => i == id
    case _ => false
  }

  /** A write decided on before the invite was answered, its deletion or a different answer; or the deletion
      of its event. */
  predicate Spoils(s: System, step: Step, id: nat)
    requires id in s.invites
  {
    match step
    case Write(q) =>
      q in s.intents
      && (match s.intents[q]
          case SetAnswer(i, accept) => i == id && AnswerStatus(accept) != s.invites[id].status
          case Remove(i) => i == id
          case _ => false)
    case DeleteEvent(e) => e == s.invites[id].event
    case _ => false
  }

  predicate SameInvite(t: Table, t': Table, id: nat) {
    id in t && id in t' && t'[id] == t[id]
  }

  /** A step keeps an answered invite exactly when it is not one of those. */
  lemma AnswerKeptIff(s: System, step: Step, id: nat)
    requires Enabled(s, step) && IsAnswered(s.invites, id)
    ensures SameInvite(s.invites, Apply(s, step).invites, id) <==> !Spoils(s, step, id)
  {
    hide Begun, Passes, Conflicts;
  }

  /** The step answers, withdraws or declines the pending invite, or deletes its event. */
  predicate Ends(s: System, step: Step, id: nat)
    requires id in s.invites
  {
    var v := s.invites[id];
    || step == DeleteEvent(v.event)
    || (step.Write? && step.request in s.intents
        && match s.intents[step.request]
           case SetAnswer(i, _) => i == id
           case Remove(i) => i == id
           case AddBlock(_, _) => false
           case Close(user, sender) => v.recipient == Some(user) && v.sender == sender)
  }

  /** A step keeps a pending invite exactly when it is not one of those, whomever it concerns besides. */
  lemma PendingKeptIff(s: System, step: Step, id: nat)
    requires Enabled(s, step) && id in s.invites && s.invites[id].status == Pending
    ensures SameInvite(s.invites, Apply(s, step).invites, id) <==> !Ends(s, step, id)
  {
    hide Begun, Passes, Conflicts;
  }

  /** The invite is the same in every state of the run. */
  ghost predicate KeptThroughout(s: System, steps: seq<Step>, v: Invite, id: nat)
    decreases |steps|
  {
    && id in s.invites && s.invites[id] == v
    && (|steps| > 0 && Enabled(s, steps[0]) ==> KeptThroughout(Apply(s, steps[0]), steps[1..], v, id))
  }

  /** Some step of the run is one of those for the invite as it then is. */
  ghost predicate SpoiledWithin(s: System, steps: seq<Step>, id: nat)
    decreases |steps|
  {
    && |steps| > 0 && Enabled(s, steps[0])
    && ((id in s.invites && Spoils(s, steps[0], id)) || SpoiledWithin(Apply(s, steps[0]), steps[1..], id))
  }

  /** Over any run an answered invite stays as it is exactly when no such step occurs. */
  lemma {:induction false} AnswerKeptThroughoutIff(s: System, steps: seq<Step>, s': System, id: nat)
    requires IsAnswered(s.invites, id) && Reaches(s, steps, s')
    ensures KeptThroughout(s, steps, s.invites[id], id) <==> !SpoiledWithin(s, steps, id)
    decreases |steps|
  {
    hide Apply, Spoils;
    if |steps| > 0 {
      AnswerKeptIff(s, steps[0], id);
      if !Spoils(s, steps[0], id) {
        AnswerKeptThroughoutIff(Apply(s, steps[0]), steps[1..], s', id);
      } else {
        DifferentIsNotKept(Apply(s, steps[0]), steps[1..], s.invites[id], id);
      }
    }
  }

  lemma DifferentIsNotKept(s: System, steps: seq<Step>, v: Invite, id: nat)
    requires id !in s.invites || s.invites[id] != v
    ensures !KeptThroughout(s, steps, v, id)
  {
  }

  ghost predicate NoneNames(s: System, id: nat) {
    forall q :: q in s.intents ==> !Names(s.intents[q], id)
  }

  lemma StepNamesNothing(s: System, step: Step, id: nat)
    requires Enabled(s, step) && IsAnswered(s.invites, id) && NoneNames(s, id)
    requires step != DeleteEvent(s.invites[id].event)
    ensures NoneNames(Apply(s, step), id) && !Spoils(s, step, id)
  {
    hide Begun, Passes, Conflicts;
  }

  /**
   * An invite answered while no other answer to it and no withdrawal of it is between read and write is
   * answered for good, under every interleaving, for as long as its event is not deleted.
   */
  lemma {:induction false} AnswersAreFinal(s: System, steps: seq<Step>, s': System, id: nat)
    requires Reaches(s, steps, s') && IsAnswered(s.invites, id) && NoneNames(s, id)
    requires forall i :: 0 <= i < |steps| ==> steps[i] != DeleteEvent(s.invites[id].event)
    ensures SameInvite(s.invites, s'.invites, id)
    decreases |steps|
  {
    hide Apply, NoneNames, Spoils;
    if |steps| > 0 {
      StepNamesNothing(s, steps[0], id);
      AnswerKeptIff(s, steps[0], id);
      AnswersAreFinal(Apply(s, steps[0]), steps[1..], s', id);
    }
  }

  lemma BlocksGrow(s: System, step: Step)
    requires Enabled(s, step)
    ensures s.blocks <= Apply(s, step).blocks && s.closed <= Apply(s, step).closed && s.gone <= Apply(s, step).gone
  {
    hide Begun, Passes;
  }

  /** No block is ever lifted and no deleted event comes back. */
  lemma {:induction false} BlocksAreKept(s: System, steps: seq<Step>, s': System)
    requires Reaches(s, steps, s')
    ensures s.blocks <= s'.blocks && s.closed <= s'.closed && s.gone <= s'.gone
    decreases |steps|
  {
    hide Apply;
    if |steps| > 0 {
      BlocksGrow(s, steps[0]);
      BlocksAreKept(Apply(s, steps[0]), steps[1..], s');
    }
  }

  // ---------- Deleted events ----------

  ghost predicate NoneOfGone(s: System) {
    forall i :: i in s.invites ==> s.invites[i].event !in s.gone
  }

  lemma StepKeepsGoneEmpty(s: System, step: Step)
    requires Enabled(s, step) && NoneOfGone(s)
    ensures NoneOfGone(Apply(s, step))
  {
    hide Begun, Passes, Conflicts;
  }

  /** A deleted event has no invites, then or later. */
  lemma {:induction false} GoneStaysEmpty(s: System, steps: seq<Step>, s': System)
    requires NoneOfGone(s) && Reaches(s, steps, s')
    ensures NoneOfGone(s')
    decreases |steps|
  {
    hide Apply, NoneOfGone;
    if |steps| > 0 {
      StepKeepsGoneEmpty(s, steps[0]);
      GoneStaysEmpty(Apply(s, steps[0]), steps[1..], s');
    }
  }

  // ---------- Blocks ----------

  /** No pending invite across a block whose pending invites were declined. */
  ghost predicate Respected(s: System) {
    forall p :: p in s.closed ==> NonePending(s.invites, p.0, p.1)
  }

  ghost predicate OpenArePending(s: System) {
    forall q :: q in s.open ==> s.open[q].row.status == Pending
  }

  predicate Across(v: Invite, blocks: Blocks) {
    v.recipient.Some? && (v.recipient.value, v.sender) in blocks
  }

  /** The insert of an invite across such a block, by a request that looked for one before it. */
  predicate Overtakes(s: System, step: Step) {
    && step.Insert? && step.request in s.open && Across(s.open[step.request].row, s.closed)
    && !Conflicts(s.invites, s.open[step.request].row)
  }

  /** A step keeps blocks respected exactly when it is not such an insert. */
  lemma RespectedKeptIff(s: System, step: Step)
    requires Enabled(s, step) && Respected(s) && OpenArePending(s)
    ensures Respected(Apply(s, step)) <==> !Overtakes(s, step)
    ensures OpenArePending(Apply(s, step))
  {
    hide Begun, Passes, SameAddress, Respected;
    match step
    case Insert(q, id) => InsertRespectsIff(s, q, id);
    case Begin(q, r) => BeginKeepsOpen(s, q, r);
    case _ => OthersRespect(s, step);
  }

  lemma BeginKeepsOpen(s: System, q: nat, r: Request)
    requires Respected(s) && OpenArePending(s) && q !in s.open
    ensures Respected(Apply(s, Begin(q, r))) && OpenArePending(Apply(s, Begin(q, r)))
  {
    hide NormalEmail;
  }

  lemma InsertRespectsIff(s: System, q: nat, id: nat)
    requires Respected(s) && OpenArePending(s) && Enabled(s, Insert(q, id))
    ensures Respected(Apply(s, Insert(q, id))) <==> !Overtakes(s, Insert(q, id))
    ensures OpenArePending(Apply(s, Insert(q, id)))
  {
    hide Conflicts;
    var s' := Apply(s, Insert(q, id));
    var v := s.open[q].row;
    SameConflicts(s.invites, v, s.now);
    forall p | p in s.closed && p != (if v.recipient.Some? then (v.recipient.value, v.sender) else p)
      ensures NonePending(s'.invites, p.0, p.1)
    {
      assert NonePending(s.invites, p.0, p.1);
    }
    if Overtakes(s, Insert(q, id)) {
      assert s'.invites[id].status == Pending && !NonePending(s'.invites, v.recipient.value, v.sender);
    } else {
      forall p | p in s.closed ensures NonePending(s'.invites, p.0, p.1) {
        assert NonePending(s.invites, p.0, p.1);
      }
    }
  }

  lemma SameConflicts(t: Table, v: Invite, now: int)
    ensures Conflicts(t, v.(createdAt := now)) == Conflicts(t, v)
  {
  }

  lemma OthersRespect(s: System, step: Step)
    requires Enabled(s, step) && Respected(s) && OpenArePending(s) && !step.Insert? && !step.Begin?
    ensures Respected(Apply(s, step)) && OpenArePending(Apply(s, step))
  {
    hide Passes;
    var s' := Apply(s, step);
    forall p | p in s'.closed ensures NonePending(s'.invites, p.0, p.1) {
      if p in s.closed {
        assert NonePending(s.invites, p.0, p.1);
      }
    }
  }

  ghost predicate RespectedThroughout(s: System, steps: seq<Step>)
    decreases |steps|
  {
    Respected(s) && (|steps| > 0 && Enabled(s, steps[0]) ==> RespectedThroughout(Apply(s, steps[0]), steps[1..]))
  }

  ghost predicate OvertakenWithin(s: System, steps: seq<Step>)
    decreases |steps|
  {
    && |steps| > 0 && Enabled(s, steps[0])
    && (Overtakes(s, steps[0]) || OvertakenWithin(Apply(s, steps[0]), steps[1..]))
  }

  /** Over any run blocks are respected in every state exactly when no insert overtakes one. */
  lemma {:induction false} RespectedThroughoutIff(s: System, steps: seq<Step>, s': System)
    requires Respected(s) && OpenArePending(s) && Reaches(s, steps, s')
    ensures RespectedThroughout(s, steps) <==> !OvertakenWithin(s, steps)
    decreases |steps|
  {
    hide Apply, Respected, OpenArePending, Overtakes;
    if |steps| > 0 {
      RespectedKeptIff(s, steps[0]);
      if !Overtakes(s, steps[0]) {
        RespectedThroughoutIff(Apply(s, steps[0]), steps[1..], s');
      }
    }
  }

  /** The blocker p.0 and the blocked p.1; no create request from one to the other is past its block lookup. */
  ghost predicate NoneOpen(s: System, p: (nat, nat)) {
    forall q :: q in s.open && s.open[q].row.recipient == Some(p.0) && s.open[q].row.sender == p.1 ==>
      s.open[q].passed == BLOCK
  }

  lemma StepKeepsBlock(s: System, step: Step, p: (nat, nat))
    requires Enabled(s, step) && p in s.blocks && NonePending(s.invites, p.0, p.1) && NoneOpen(s, p)
    ensures NonePending(Apply(s, step).invites, p.0, p.1) && NoneOpen(Apply(s, step), p)
  {
    hide Begun, Conflicts, SentSince, SentForEvent, InCooldown, HasDuplicate;
  }

  /**
   * Once a block's pending invites are declined while no create request from the blocked sender to the
   * blocker is past its block lookup, no pending invite between them exists in any later state.
   */
  lemma {:induction false} BlocksHold(s: System, steps: seq<Step>, s': System, p: (nat, nat))
    requires Reaches(s, steps, s')
    requires p in s.blocks && NonePending(s.invites, p.0, p.1) && NoneOpen(s, p)
    ensures NonePending(s'.invites, p.0, p.1)
    decreases |steps|
  {
    hide Apply, NonePending, NoneOpen;
    if |steps| > 0 {
      StepKeepsBlock(s, steps[0], p);
      BlocksGrow(s, steps[0]);
      BlocksHold(Apply(s, steps[0]), steps[1..], s', p);
    }
  }

  /** In every reachable state a block whose invites were declined is still recorded. */
  ghost predicate ClosedAreBlocked(s: System) {
    && s.closed <= s.blocks
    && forall q :: q in s.intents && s.intents[q].Close? ==> (s.intents[q].user, s.intents[q].sender) in s.blocks
  }

  lemma {:induction false} ReachableBlocks(s: System, steps: seq<Step>, s': System)
    requires ClosedAreBlocked(s) && OpenArePending(s) && Reaches(s, steps, s')
    ensures ClosedAreBlocked(s') && OpenArePending(s')
    decreases |steps|
  {
    hide Apply, ClosedAreBlocked, OpenArePending;
    if |steps| > 0 {
      StepKeepsClosed(s, steps[0]);
      ReachableBlocks(Apply(s, steps[0]), steps[1..], s');
    }
  }

  lemma StepKeepsClosed(s: System, step: Step)
    requires ClosedAreBlocked(s) && OpenArePending(s) && Enabled(s, step)
    ensures ClosedAreBlocked(Apply(s, step)) && OpenArePending(Apply(s, step))
  {
    hide NormalEmail, Passes, Conflicts;
  }

  // ---------- Spacing ----------

  function Gap(a: int, b: int): int {
    if a < b then b - a else a - b
  }

  /** The sender's invites to one address are more than 24 hours apart. */
  ghost predicate Spaced(t: Table, sender: nat) {
    forall i, j :: i in t && j in t && i != j && t[i].sender == sender == t[j].sender && t[i].email == t[j].email ==>
      Gap(t[i].createdAt, t[j].createdAt) > COOLDOWN
  }

  /** The sender has an invite to the address within the cooldown. */
  predicate Recent(t: Table, sender: nat, email: string, now: int) {
    exists i :: i in t && t[i].sender == sender && t[i].email == email && t[i].createdAt >= now - COOLDOWN
  }

  /** The insert of an invite by this sender to an address the sender has invited within the cooldown. */
  predicate Crowds(s: System, step: Step, sender: nat) {
    && step.Insert? && step.request in s.open && s.open[step.request].row.sender == sender
    && !Conflicts(s.invites, s.open[step.request].row)
    && Recent(s.invites, sender, s.open[step.request].row.email, s.now)
  }

  /** A step keeps a sender's invites spaced exactly when it is not such an insert. */
  lemma SpacedKeptIff(s: System, step: Step, sender: nat)
    requires Enabled(s, step) && Spaced(s.invites, sender) && NoneLater(s)
    ensures Spaced(Apply(s, step).invites, sender) <==> !Crowds(s, step, sender)
    ensures NoneLater(Apply(s, step))
  {
    hide Begun, Passes, Conflicts;
    if step.Insert? {
      SameConflicts(s.invites, s.open[step.request].row, s.now);
      if !Conflicts(s.invites, s.open[step.request].row) {
        InsertSpacesIff(s, step.request, step.id, sender);
      }
    } else {
      OnlyInsertAdds(s, step);
    }
  }

  lemma InsertSpacesIff(s: System, q: nat, id: nat, sender: nat)
    requires Enabled(s, Insert(q, id)) && Spaced(s.invites, sender) && NoneLater(s)
    requires !Conflicts(s.invites, s.open[q].row) && !Conflicts(s.invites, s.open[q].row.(createdAt := s.now))
    ensures var t' := Apply(s, Insert(q, id)).invites;
            Spaced(t', sender) <==>
            !(s.open[q].row.sender == sender && Recent(s.invites, sender, s.open[q].row.email, s.now))
  {
    hide Conflicts;
    var v := s.open[q].row.(createdAt := s.now);
    var t' := Apply(s, Insert(q, id)).invites;
    assert t' == s.invites[id := v];
    if v.sender == sender && Recent(s.invites, sender, v.email, s.now) {
      var i :| i in s.invites && s.invites[i].sender == sender && s.invites[i].email == v.email
               && s.invites[i].createdAt >= s.now - COOLDOWN;
      assert Gap(t'[i].createdAt, t'[id].createdAt) <= COOLDOWN;
    }
  }

  ghost predicate SpacedThroughout(s: System, steps: seq<Step>, sender: nat)
    decreases |steps|
  {
    && Spaced(s.invites, sender)
    && (|steps| > 0 && Enabled(s, steps[0]) ==> SpacedThroughout(Apply(s, steps[0]), steps[1..], sender))
  }

  ghost predicate CrowdedWithin(s: System, steps: seq<Step>, sender: nat)
    decreases |steps|
  {
    && |steps| > 0 && Enabled(s, steps[0])
    && (Crowds(s, steps[0], sender) || CrowdedWithin(Apply(s, steps[0]), steps[1..], sender))
  }

  /** Over any run a sender's invites are spaced in every state exactly when no such insert occurs. */
  lemma {:induction false} SpacedThroughoutIff(s: System, steps: seq<Step>, s': System, sender: nat)
    requires Spaced(s.invites, sender) && NoneLater(s) && Reaches(s, steps, s')
    ensures SpacedThroughout(s, steps, sender) <==> !CrowdedWithin(s, steps, sender)
    decreases |steps|
  {
    hide Apply, Spaced, NoneLater, Crowds;
    if |steps| > 0 {
      SpacedKeptIff(s, steps[0], sender);
      if !Crowds(s, steps[0], sender) {
        SpacedThroughoutIff(Apply(s, steps[0]), steps[1..], s', sender);
      }
    }
  }

  /** A sender with one request at most in flight has nothing recent to an address once its lookup has passed. */
  ghost predicate OneAtATime(s: System, sender: nat) {
    && NoneLater(s) && Spaced(s.invites, sender)
    && (forall i :: i in s.invites ==> ToLower(s.invites[i].email) == s.invites[i].email)
    && (forall q :: q in s.open ==> ToLower(s.open[q].row.email) == s.open[q].row.email)
    && (forall q :: q in s.open && s.open[q].row.sender == sender && s.open[q].passed > SPACING ==>
          !Recent(s.invites, sender, s.open[q].row.email, s.now))
    && |Past(s.open, sender, 0)| <= 1
  }

  lemma NotRecent(t: Table, sender: nat, email: string, now: int)
    requires ToLower(email) == email && forall i :: i in t ==> ToLower(t[i].email) == t[i].email
    requires !InCooldown(t, sender, email, now)
    ensures !Recent(t, sender, email, now)
  {
    hide ToLower;
  }

  lemma StepKeepsOneAtATime(s: System, step: Step, sender: nat)
    requires OneAtATime(s, sender) && Enabled(s, step) && |Past(Apply(s, step).open, sender, 0)| <= 1
    ensures OneAtATime(Apply(s, step), sender)
  {
    hide Begun, Passes, Conflicts, ToLower, Spaced, Apply, Past;
    SpacedKeptIff(s, step, sender);
    match step
    case Begin(q, r) => BeginIsAlone(s, q, r, sender);
    case Look(q) => LookIsAlone(s, q, sender);
    case Insert(q, id) => InsertIsAlone(s, q, id, sender);
    case _ => OthersAreApart(s, step, sender);
  }

  lemma BeginIsAlone(s: System, q: nat, r: Request, sender: nat)
    requires OneAtATime(s, sender) && q !in s.open && |Past(Apply(s, Begin(q, r)).open, sender, 0)| <= 1
    ensures OneAtATime(Apply(s, Begin(q, r)), sender)
  {
    hide ToLower, Trim, Spaced, Past, Recent;
    LowerIsStable(Trim(r.rawEmail));
  }

  lemma LookIsAlone(s: System, q: nat, sender: nat)
    requires OneAtATime(s, sender) && Enabled(s, Look(q)) && |Past(Apply(s, Look(q)).open, sender, 0)| <= 1
    ensures OneAtATime(Apply(s, Look(q)), sender)
  {
    hide ToLower, Spaced, Past, Recent, SentSince, SentForEvent, InCooldown, HasDuplicate;
    var v, n := s.open[q].row, s.open[q].passed;
    if n == SPACING && Passes(s.invites, s.blocks, s.now, v, n) {
      NotRecent(s.invites, v.sender, v.email, s.now);
    }
  }

  lemma InsertIsAlone(s: System, q: nat, id: nat, sender: nat)
    requires OneAtATime(s, sender) && Enabled(s, Insert(q, id))
    requires Spaced(Apply(s, Insert(q, id)).invites, sender)
    ensures OneAtATime(Apply(s, Insert(q, id)), sender)
  {
    hide Conflicts, ToLower, Spaced;
    var s' := Apply(s, Insert(q, id));
    SubsetSize(Past(s'.open, sender, 0), Past(s.open, sender, 0));
    if s.open[q].row.sender == sender {
      OnlyOne(s.open, sender, q);
    }
  }

  /** Of at most one request in flight there is no second. */
  lemma OnlyOne(open: map<nat, Open>, sender: nat, q: nat)
    requires q in open && open[q].row.sender == sender && |Past(open, sender, 0)| <= 1
    ensures forall p :: p in open && open[p].row.sender == sender ==> p == q
  {
    forall p | p in open && open[p].row.sender == sender ensures p == q {
      if p != q {
        SubsetSize({p, q}, Past(open, sender, 0));
      }
    }
  }

  lemma OthersAreApart(s: System, step: Step, sender: nat)
    requires OneAtATime(s, sender) && Enabled(s, step) && !step.Begin? && !step.Look? && !step.Insert?
    requires Spaced(Apply(s, step).invites, sender)
    ensures OneAtATime(Apply(s, step), sender)
  {
    hide ToLower, Spaced, Apply;
    OthersAddNothing(s, step);
    OnlyInsertAdds(s, step);
    OnlyOwnStepsAdvance(s, step);
    SubsetSize(Past(Apply(s, step).open, sender, 0), Past(s.open, sender, 0));
  }

  lemma {:induction false} RunKeepsOneAtATime(s: System, steps: seq<Step>, s': System, sender: nat)
    requires OneAtATime(s, sender) && Run(s, steps, s', PerSender(sender, 1))
    ensures OneAtATime(s', sender)
    decreases |steps|
  {
    hide OneAtATime, Apply;
    if |steps| > 0 {
      StepKeepsOneAtATime(s, steps[0], sender);
      RunKeepsOneAtATime(Apply(s, steps[0]), steps[1..], s', sender);
    }
  }

  /**
   * A sender with at most one create request in flight at a time keeps the cooldown, whatever everyone
   * else does in between.
   */
  lemma OneAtATimeIsSpaced(now: int, steps: seq<Step>, s: System, sender: nat)
    requires Run(Start(now), steps, s, PerSender(sender, 1))
    ensures Spaced(s.invites, sender)
  {
    var s0 := Start(now);
    assert Past(s0.open, sender, 0) == {};
    RunKeepsOneAtATime(s0, steps, s, sender);
  }

  /**
   * When no sender has two create requests in flight: every sender's invites to one address are more
   * than a day apart, no event has two invites for an address or an account, and every block that was
   * closed at an earlier moment with no create request across it past its lookup has no pending invite across it.
   */
  lemma OneAtATimeRunsAreSafe(now: int, before: seq<Step>, mid: System, after: seq<Step>, s: System)
    requires Reaches(Start(now), before, mid) && Reaches(mid, after, s)
    requires forall sender :: Run(Start(now), before + after, s, PerSender(sender, 1))
    ensures forall sender :: Spaced(s.invites, sender)
    ensures Unique(s.invites)
    ensures forall p :: p in mid.closed && NonePending(mid.invites, p.0, p.1) && NoneOpen(mid, p) ==>
              NonePending(s.invites, p.0, p.1)
  {
    hide Run, Spaced, Unique, Reaches, NonePending, NoneOpen, OpenArePending;
    forall sender ensures Spaced(s.invites, sender) {
      OneAtATimeIsSpaced(now, before + after, s, sender);
    }
    StartIsPlain(now);
    InvitesStayUnique(Start(now), before, mid);
    InvitesStayUnique(mid, after, s);
    ReachableBlocks(Start(now), before, mid);
    forall p | p in mid.closed && NonePending(mid.invites, p.0, p.1) && NoneOpen(mid, p)
      ensures NonePending(s.invites, p.0, p.1)
    {
      BlocksHold(mid, after, s, p);
    }
  }

  lemma StartIsPlain(now: int)
    ensures Unique(Start(now).invites) && ClosedAreBlocked(Start(now)) && OpenArePending(Start(now))
  {
  }

  // ---------- An uninterrupted request ----------

  lemma Prepended(s: System, step: Step, rest: seq<Step>, t: System, b: Bound) returns (steps: seq<Step>)
    requires Within(s.open, b) && Enabled(s, step) && Run(Apply(s, step), rest, t, b)
    ensures Run(s, steps, t, b) && steps == [step] + rest
  {
    steps := [step] + rest;
    assert steps[1..] == rest;
  }

  /** Steps of one request after its first. */
  ghost predicate Own(steps: seq<Step>, q: nat, id: nat) {
    forall x :: x in steps ==> x in {Look(q), Insert(q, id)}
  }

  /** The lookups that are left, and the insert if they pass. */
  lemma {:induction false} LooksThenInsert(s: System, q: nat, id: nat) returns (steps: seq<Step>, s': System)
    requires q in s.open && s.open[q].passed <= LOOKUPS && id !in s.invites && s.open[q].row.event !in s.gone
    ensures Run(s, steps, s', Anything) && Own(steps, q, id)
    ensures var v := s.open[q].row;
            var pass := forall n: nat :: s.open[q].passed <= n < LOOKUPS ==> Passes(s.invites, s.blocks, s.now, v, n);
            s' == s.(open := s.open - {q},
                     invites := if pass then Inserted(s.invites, id, v.(createdAt := s.now)) else s.invites)
    decreases LOOKUPS - s.open[q].passed
  {
    hide Passes, Conflicts;
    var v, n := s.open[q].row, s.open[q].passed;
    if n == LOOKUPS {
      s' := Apply(s, Insert(q, id));
      steps := Prepended(s, Insert(q, id), [], s', Anything);
    } else if Passes(s.invites, s.blocks, s.now, v, n) {
      var s1 := Apply(s, Look(q));
      var rest;
      rest, s' := LooksThenInsert(s1, q, id);
      steps := Prepended(s, Look(q), rest, s', Anything);
      assert s1.open - {q} == s.open - {q};
    } else {
      s' := Apply(s, Look(q));
      steps := Prepended(s, Look(q), [], s', Anything);
    }
  }

  /** A create request that runs without interruption does what its checks at one moment and its insert do. */
  lemma CreateIsItsSteps(s: System, q: nat, id: nat, r: Request) returns (steps: seq<Step>, s': System)
    requires q !in s.open && id !in s.invites && r.event !in s.gone
    ensures Reaches(s, steps, s') && |steps| >= 1 && steps[0] == Begin(q, r) && Own(steps[1..], q, id)
    ensures var checked := Checked(s.invites, s.blocks, s.now, r);
            s' == if checked.Ok? then s.(invites := Inserted(s.invites, id, checked.value)) else s
  {
    hide Checked, Passes, Conflicts, NormalEmail, Own;
    CheckedIsBegunAndPassed(s.invites, s.blocks, s.now, r);
    var s1 := Apply(s, Begin(q, r));
    var rest: seq<Step>;
    if Begun(s.now, r).Ok? {
      rest, s' := LooksThenInsert(s1, q, id);
      assert s1.open - {q} == s.open;
    } else {
      rest, s' := [], s;
      assert Own([], q, id) by { NothingIsOwn(q, id); }
    }
    steps := Prepended(s, Begin(q, r), rest, s', Anything);
    assert steps[1..] == rest;
    RunReaches(s, steps, s', Anything);
  }

  lemma NothingIsOwn(q: nat, id: nat)
    ensures Own([], q, id)
  {
  }
}
