/** Which overlaps of requests bring about an invite across a block, or two within the cooldown. */
module InviteRaces {
  import opened Wrappers
  import opened Strings
  import opened Invites
  import opened InviteRuns
  import opened InviteSafety

  // ---------- Blocks ----------

  /** The request has passed its block lookup and is across a closed block. */
  ghost predicate Late(s: System, q: nat) {
    q in s.open && s.open[q].passed > BLOCK && Across(s.open[q].row, s.closed)
  }

  ghost predicate NoneLate(s: System) {
    forall q :: !Late(s, q)
  }

  /** The step closes a block while the request it is to stop is past its block lookup. */
  predicate ClosesOver(s: System, step: Step, q: nat) {
    && step.Write? && step.request in s.intents && s.intents[step.request].Close?
    && q in s.open && s.open[q].passed > BLOCK
    && s.open[q].row.recipient == Some(s.intents[step.request].user)
    && s.open[q].row.sender == s.intents[step.request].sender
  }

  /** A request becomes late exactly when a block closes over it; none is late from its lookup on. */
  lemma GoesLateIff(s: System, step: Step, q: nat)
    requires Enabled(s, step) && ClosedAreBlocked(s)
    ensures Late(Apply(s, step), q) <==>
            q in Apply(s, step).open && (Late(s, q) || ClosesOver(s, step, q))
  {
    hide Begun, Conflicts, SentSince, SentForEvent, InCooldown, HasDuplicate;
  }

  /** Request q goes on to insert its row, and no index objects. */
  ghost predicate GoesIn(s: System, steps: seq<Step>, q: nat)
    decreases |steps|
  {
    && |steps| > 0 && Enabled(s, steps[0]) && q in s.open
    && if steps[0].Insert? && steps[0].request == q then !Conflicts(s.invites, s.open[q].row)
       else GoesIn(Apply(s, steps[0]), steps[1..], q)
  }

  /** Somewhere in the run a block closes over a request that goes on to insert. */
  ghost predicate BlockRaced(s: System, steps: seq<Step>)
    decreases |steps|
  {
    && |steps| > 0 && Enabled(s, steps[0])
    && ((exists q :: ClosesOver(s, steps[0], q) && GoesIn(Apply(s, steps[0]), steps[1..], q))
        || BlockRaced(Apply(s, steps[0]), steps[1..]))
  }

  lemma OvertakesIff(s: System, step: Step)
    requires Enabled(s, step)
    ensures Overtakes(s, step) <==>
            step.Insert? && Late(s, step.request) && !Conflicts(s.invites, s.open[step.request].row)
  {
    hide Conflicts;
  }

  lemma {:induction false} OvertakenIff(s: System, steps: seq<Step>, s': System)
    requires ClosedAreBlocked(s) && OpenArePending(s) && Reaches(s, steps, s')
    ensures OvertakenWithin(s, steps) <==> (exists q :: Late(s, q) && GoesIn(s, steps, q)) || BlockRaced(s, steps)
    decreases |steps|
  {
    hide Apply, ClosedAreBlocked, OpenArePending, Late, ClosesOver, Conflicts;
    if |steps| > 0 {
      var step, s1, rest := steps[0], Apply(s, steps[0]), steps[1..];
      StepKeepsClosed(s, step);
      OvertakesIff(s, step);
      OvertakenIff(s1, rest, s');
      forall q ensures Late(s1, q) <==> q in s1.open && (Late(s, q) || ClosesOver(s, step, q)) {
        GoesLateIff(s, step, q);
      }
      forall q | GoesIn(s1, rest, q) ensures q in s1.open {
      }
      forall q | q in s1.open && Late(s, q) && GoesIn(s1, rest, q) ensures GoesIn(s, steps, q) {
        LateIsOpen(s, q);
        InsertedIsClosed(s, step, q);
      }
    }
  }

  lemma InsertedIsClosed(s: System, step: Step, q: nat)
    requires Enabled(s, step) && q in Apply(s, step).open
    ensures !(step.Insert? && step.request == q)
  {
    hide Begun, Passes;
  }

  lemma LateIsOpen(s: System, q: nat)
    requires Late(s, q)
    ensures q in s.open
  {
  }

  /**
   * Over any run that starts with no request late, blocks are respected in every state exactly when no block
   * closes over a request, past its lookup, that goes on to insert.
   */
  lemma RespectedIffNoRace(s: System, steps: seq<Step>, s': System)
    requires Respected(s) && ClosedAreBlocked(s) && OpenArePending(s) && NoneLate(s) && Reaches(s, steps, s')
    ensures RespectedThroughout(s, steps) <==> !BlockRaced(s, steps)
  {
    hide Respected, ClosedAreBlocked, OpenArePending, Late, Reaches;
    RespectedThroughoutIff(s, steps, s');
    OvertakenIff(s, steps, s');
  }

  // ---------- Spacing ----------

  /** The request has passed its cooldown lookup, and invite id of its sender to its address is in the cooldown. */
  ghost predicate Near(s: System, q: nat, id: nat, sender: nat) {
    && q in s.open && s.open[q].passed > SPACING && s.open[q].row.sender == sender
    && id in s.invites && s.invites[id].sender == sender && s.invites[id].email == s.open[q].row.email
    && s.invites[id].createdAt >= s.now - COOLDOWN
  }

  /** The step inserts invite id beside another request of the sender, to the same address, past its cooldown lookup. */
  predicate InsertsBeside(s: System, step: Step, q: nat, id: nat, sender: nat) {
    && step.Insert? && step.id == id && step.request != q && step.request in s.open && q in s.open
    && !Conflicts(s.invites, s.open[step.request].row)
    && s.open[q].passed > SPACING && s.open[q].row.sender == sender == s.open[step.request].row.sender
    && s.open[q].row.email == s.open[step.request].row.email
  }

  /** A request and a recent invite come together only so; a lookup that finds one ends its request. */
  lemma ComesNear(s: System, step: Step, q: nat, id: nat, sender: nat)
    requires Enabled(s, step)
    ensures Near(Apply(s, step), q, id, sender) ==> Near(s, q, id, sender) || InsertsBeside(s, step, q, id, sender)
    ensures InsertsBeside(s, step, q, id, sender) ==> Near(Apply(s, step), q, id, sender)
  {
    hide Begun, Conflicts, SentSince, SentForEvent, HasDuplicate, ToLower, Passes;
    match step
    case Look(p) =>
      if p == q && s.open[q].passed == SPACING {
        PassedIsNotNear(s, q, id, sender);
      }
    case Insert(p, i) => SameConflicts(s.invites, s.open[p].row, s.now);
    case _ =>
  }

  lemma PassedIsNotNear(s: System, q: nat, id: nat, sender: nat)
    requires Enabled(s, Look(q)) && s.open[q].passed == SPACING
    ensures !Near(Apply(s, Look(q)), q, id, sender)
  {
    hide ToLower;
  }

  /** The two stay together, invite id neither withdrawn nor deleted nor out of the cooldown, until q inserts. */
  ghost predicate GoesInNear(s: System, steps: seq<Step>, q: nat, id: nat, sender: nat)
    decreases |steps|
  {
    && |steps| > 0 && Enabled(s, steps[0]) && Near(s, q, id, sender)
    && if steps[0].Insert? && steps[0].request == q then !Conflicts(s.invites, s.open[q].row)
       else GoesInNear(Apply(s, steps[0]), steps[1..], q, id, sender)
  }

  /** The step inserts an invite beside a request that goes on to insert another near it. */
  ghost predicate AnyBeside(s: System, steps: seq<Step>, sender: nat)
    requires |steps| > 0 && Enabled(s, steps[0])
  {
    exists q, id :: InsertsBeside(s, steps[0], q, id, sender)
                    && GoesInNear(Apply(s, steps[0]), steps[1..], q, id, sender)
  }

  /** Some step of the run does. */
  ghost predicate SpacingRaced(s: System, steps: seq<Step>, sender: nat)
    decreases |steps|
  {
    && |steps| > 0 && Enabled(s, steps[0])
    && (AnyBeside(s, steps, sender) || SpacingRaced(Apply(s, steps[0]), steps[1..], sender))
  }

  lemma CrowdsIff(s: System, step: Step, sender: nat)
    requires Enabled(s, step)
    ensures Crowds(s, step, sender) <==>
            step.Insert? && !Conflicts(s.invites, s.open[step.request].row)
            && exists id :: Near(s, step.request, id, sender)
  {
    hide Conflicts;
    if Crowds(s, step, sender) {
      var id :| id in s.invites && s.invites[id].sender == sender
                && s.invites[id].email == s.open[step.request].row.email && s.invites[id].createdAt >= s.now - COOLDOWN;
      assert Near(s, step.request, id, sender);
    }
  }

  /** The step is not the second insert: what goes in near after it was near before it, or came near by it. */
  lemma StepIsBeforeRace(s: System, steps: seq<Step>, q: nat, id: nat, sender: nat)
    requires |steps| > 0 && Enabled(s, steps[0]) && !Crowds(s, steps[0], sender)
    ensures GoesInNear(Apply(s, steps[0]), steps[1..], q, id, sender) ==>
              GoesInNear(s, steps, q, id, sender) || InsertsBeside(s, steps[0], q, id, sender)
    ensures GoesInNear(s, steps, q, id, sender) ==> GoesInNear(Apply(s, steps[0]), steps[1..], q, id, sender)
  {
    hide Apply, Near, InsertsBeside, Conflicts, Crowds;
    CrowdsIff(s, steps[0], sender);
    if GoesInNear(Apply(s, steps[0]), steps[1..], q, id, sender) {
      ComesNear(s, steps[0], q, id, sender);
      NearIsOpen(Apply(s, steps[0]), q, id, sender);
      InsertedIsClosed(s, steps[0], q);
    }
  }

  ghost predicate AnyGoesInNear(s: System, steps: seq<Step>, sender: nat) {
    exists q, id :: GoesInNear(s, steps, q, id, sender)
  }

  lemma RaceSteps(s: System, steps: seq<Step>, sender: nat)
    requires |steps| > 0 && Enabled(s, steps[0]) && !Crowds(s, steps[0], sender)
    ensures AnyGoesInNear(Apply(s, steps[0]), steps[1..], sender) <==>
            AnyGoesInNear(s, steps, sender) || AnyBeside(s, steps, sender)
  {
    hide Apply, InsertsBeside, Crowds, GoesInNear;
    var s1, rest := Apply(s, steps[0]), steps[1..];
    if AnyGoesInNear(s1, rest, sender) {
      var q, id :| GoesInNear(s1, rest, q, id, sender);
      StepIsBeforeRace(s, steps, q, id, sender);
    }
    if AnyGoesInNear(s, steps, sender) {
      var q, id :| GoesInNear(s, steps, q, id, sender);
      StepIsBeforeRace(s, steps, q, id, sender);
    }
  }

  lemma CrowdingGoesIn(s: System, steps: seq<Step>, sender: nat)
    requires |steps| > 0 && Enabled(s, steps[0]) && Crowds(s, steps[0], sender)
    ensures AnyGoesInNear(s, steps, sender)
  {
    hide Near, Conflicts, Crowds;
    CrowdsIff(s, steps[0], sender);
    var id :| Near(s, steps[0].request, id, sender);
    assert GoesInNear(s, steps, steps[0].request, id, sender);
  }

  lemma {:induction false} CrowdedIff(s: System, steps: seq<Step>, s': System, sender: nat)
    requires Reaches(s, steps, s')
    ensures CrowdedWithin(s, steps, sender) <==> AnyGoesInNear(s, steps, sender) || SpacingRaced(s, steps, sender)
    decreases |steps|
  {
    hide Apply, InsertsBeside, Crowds, AnyGoesInNear, AnyBeside;
    if |steps| == 0 {
      NothingGoesIn(s, steps, sender);
    } else if Crowds(s, steps[0], sender) {
      CrowdingGoesIn(s, steps, sender);
    } else {
      CrowdedIff(Apply(s, steps[0]), steps[1..], s', sender);
      RaceSteps(s, steps, sender);
    }
  }

  lemma NothingGoesIn(s: System, steps: seq<Step>, sender: nat)
    requires |steps| == 0
    ensures !AnyGoesInNear(s, steps, sender)
  {
  }

  lemma NearIsOpen(s: System, q: nat, id: nat, sender: nat)
    requires Near(s, q, id, sender)
    ensures q in s.open
  {
  }

  ghost predicate NoneNear(s: System, sender: nat) {
    forall q, id :: !Near(s, q, id, sender)
  }

  /**
   * Over any run that starts with no request of the sender near a recent invite, their invites to one address
   * are a day apart in every state exactly when none is inserted beside another request of theirs to that
   * address, past its lookup, that goes on to insert while the first is still there and recent.
   */
  lemma SpacedIffNoRace(s: System, steps: seq<Step>, s': System, sender: nat)
    requires Spaced(s.invites, sender) && NoneLater(s) && NoneNear(s, sender) && Reaches(s, steps, s')
    ensures SpacedThroughout(s, steps, sender) <==> !SpacingRaced(s, steps, sender)
  {
    hide Spaced, NoneLater, Near, Reaches;
    SpacedThroughoutIff(s, steps, s', sender);
    CrowdedIff(s, steps, s', sender);
  }
}
