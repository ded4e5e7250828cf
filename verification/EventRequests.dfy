/**
  Runs of the event requests. Creating and updating are transactions holding the row; cancelling,
  completing and deleting check the row in one query and write it by id in another; an
  administrator edits, assigns and deletes rows by id without asking for their status.
*/
module EventRequests {
  import opened Wrappers
  import opened Json
  import opened EventPayload
  import opened EventPayloadNormal
  import opened EventLifecycle
  import opened EventAdmin

  /** A write some request has checked and not made yet. */
  datatype Intent = SetStatus(id: nat, status: Status) | Remove(id: nat)

  datatype State = State(rows: map<nat, Event>, intents: map<nat, Intent>)

  datatype Step =
    | Transaction(a: Action)
    | Check(request: nat, a: Action)
    | Write(request: nat)
    | Fail(request: nat)
      // An administrator edits one event, puts events into a project, or deletes one event or all of one host.
    | AdminEdit(id: nat, edit: Edit)
    | AdminAssign(ids: set<nat>, project: string)
    | AdminDelete(ids: set<nat>)

  predicate Locks(a: Action) {
    a.Create? || a.Update?
  }

  function IntentOf(a: Action): Intent
    requires !Locks(a)
  {
    match a
    case Complete(id, _, _) => SetStatus(id, Completed)
    case DeleteDraft(id, _) => Remove(id)
    case _ => SetStatus(a.id, Cancelled)
  }

  predicate Enabled(s: State, step: Step) {
    match step
    case Transaction(a) => Locks(a)
    case Check(q, a) => q !in s.intents && !Locks(a)
    case Write(q) => q in s.intents
    case Fail(q) => q in s.intents
    case AdminEdit(_, x) => x.Valid()
    case AdminAssign(_, project) => Clean(project)
    case AdminDelete(_) => true
  }

  function Next(s: State, step: Step, env: Env): State
    requires Enabled(s, step)
  {
    match step
    case Transaction(a) => s.(rows := Apply(s.rows, a, env))
    case Check(q, a) => if Answer(s.rows, a, env).Ok? then s.(intents := s.intents[q := IntentOf(a)]) else s
    case Write(q) => State(Performed(s.rows, s.intents[q]), s.intents - {q})
    case Fail(q) => s.(intents := s.intents - {q})
    case AdminEdit(id, x) => if id in s.rows then s.(rows := s.rows[id := Edited(s.rows[id], x)]) else s
    case AdminAssign(ids, project) => s.(rows := AllAssigned(s.rows, ids, project))
    case AdminDelete(ids) => s.(rows := s.rows - ids)
  }

  function AllAssigned(rows: map<nat, Event>, ids: set<nat>, project: string): map<nat, Event> {
    map i | i in rows :: if i in ids then Assigned(rows[i], project) else rows[i]
  }

  function Performed(rows: map<nat, Event>, w: Intent): map<nat, Event> {
    match w
    case SetStatus(id, status) => StatusWritten(rows, id, status)
    case Remove(id) => rows - {id}
  }

  ghost predicate Reaches(s: State, steps: seq<Step>, s': State, env: Env)
    decreases |steps|
  {
    if |steps| == 0 then s' == s
    else Enabled(s, steps[0]) && Reaches(Next(s, steps[0], env), steps[1..], s', env)
  }

  // ---------- Final events ----------

  /** The intent would change or remove the event as it is. */
  predicate Threatens(w: Intent, e: Event, k: nat) {
    match w
    case SetStatus(id, status) => id == k && status != e.status
    case Remove(id) => id == k
  }

  /** A write checked before the event became what it is, or an administrator's that changes or deletes it. */
  predicate Spoils(s: State, step: Step, k: nat)
    requires k in s.rows
  {
    match step
    case Write(q) => q in s.intents && Threatens(s.intents[q], s.rows[k], k)
    case AdminEdit(id, x) => id == k && Alters(s.rows[k], x)
    case AdminAssign(ids, project) => k in ids && s.rows[k].payload.project != Some(project)
    case AdminDelete(ids) => k in ids
    case _ => false
  }

  predicate Same(rows: map<nat, Event>, rows': map<nat, Event>, k: nat) {
    k in rows && k in rows' && rows'[k] == rows[k]
  }

  /** A step keeps a cancelled or completed event exactly when it is none of those. */
  lemma FinalKeptIff(s: State, step: Step, env: Env, k: nat)
    requires Enabled(s, step) && k in s.rows && Final(s.rows[k])
    ensures Same(s.rows, Next(s, step, env).rows, k) <==> !Spoils(s, step, k)
  {
    hide Build, CreateOutcome, Edited, Alters, Clean;
    if step.AdminEdit? {
      EditedDiffersIff(s.rows[k], step.edit);
    }
  }

  ghost predicate KeptThroughout(s: State, steps: seq<Step>, env: Env, k: nat, e: Event)
    decreases |steps|
  {
    && k in s.rows && s.rows[k] == e
    && (|steps| > 0 && Enabled(s, steps[0]) ==> KeptThroughout(Next(s, steps[0], env), steps[1..], env, k, e))
  }

  ghost predicate SpoiledWithin(s: State, steps: seq<Step>, env: Env, k: nat)
    decreases |steps|
  {
    && |steps| > 0 && Enabled(s, steps[0])
    && ((k in s.rows && Spoils(s, steps[0], k)) || SpoiledWithin(Next(s, steps[0], env), steps[1..], env, k))
  }

  /** Over any run a final event stays as it is in every state exactly when no such step occurs. */
  lemma {:induction false} FinalKeptThroughoutIff(s: State, steps: seq<Step>, s': State, env: Env, k: nat)
    requires k in s.rows && Final(s.rows[k]) && Reaches(s, steps, s', env)
    ensures KeptThroughout(s, steps, env, k, s.rows[k]) <==> !SpoiledWithin(s, steps, env, k)
    decreases |steps|
  {
    hide Next, Spoils, Final;
    if |steps| > 0 {
      FinalKeptIff(s, steps[0], env, k);
      if !Spoils(s, steps[0], k) {
        FinalKeptThroughoutIff(Next(s, steps[0], env), steps[1..], s', env, k);
      } else {
        ChangedIsNotKept(Next(s, steps[0], env), steps[1..], env, k, s.rows[k]);
      }
    }
  }

  lemma ChangedIsNotKept(s: State, steps: seq<Step>, env: Env, k: nat, e: Event)
    requires k !in s.rows || s.rows[k] != e
    ensures !KeptThroughout(s, steps, env, k, e)
  {
  }

  /** No request between check and write threatens the event. */
  ghost predicate NoneThreatens(s: State, k: nat) {
    k in s.rows && forall q :: q in s.intents ==> !Threatens(s.intents[q], s.rows[k], k)
  }

  /** The step is an administrator's, on event k. */
  predicate Administers(step: Step, k: nat) {
    match step
    case AdminEdit(id, _) => id == k
    case AdminAssign(ids, _) => k in ids
    case AdminDelete(ids) => k in ids
    case _ => false
  }

  lemma StepThreatensNothing(s: State, step: Step, env: Env, k: nat)
    requires Enabled(s, step) && NoneThreatens(s, k) && Final(s.rows[k]) && !Administers(step, k)
    ensures Same(s.rows, Next(s, step, env).rows, k) && NoneThreatens(Next(s, step, env), k)
  {
    hide Build, CreateOutcome, Edited, Alters, Clean;
    FinalKeptIff(s, step, env, k);
  }

  /**
   * An event cancelled or completed while no check of another request on it is waiting to be written
   * stays exactly as it is for ever, short of an administrator's own hand on it.
   */
  lemma {:induction false} FinalIsKept(s: State, steps: seq<Step>, s': State, env: Env, k: nat)
    requires NoneThreatens(s, k) && Final(s.rows[k]) && Reaches(s, steps, s', env)
    requires forall i :: 0 <= i < |steps| ==> !Administers(steps[i], k)
    ensures Same(s.rows, s'.rows, k)
    decreases |steps|
  {
    hide Next, Threatens, Final, Administers;
    if |steps| > 0 {
      StepThreatensNothing(s, steps[0], env, k);
      FinalIsKept(Next(s, steps[0], env), steps[1..], s', env, k);
    }
  }

  /** From every state, an administrator's edit makes an event of any status, a cancelled one too, published. */
  lemma AdminReopens(s: State, k: nat, env: Env) returns (end: State)
    requires k in s.rows
    ensures Reaches(s, [AdminEdit(k, NO_EDIT.(status := Some(Published)))], end, env)
    ensures k in end.rows && end.rows[k] == s.rows[k].(status := Published)
  {
    var step := AdminEdit(k, NO_EDIT.(status := Some(Published)));
    end := Next(s, step, env);
    assert Reaches(end, [step][1..], end, env);
  }

  // ---------- Who changes an event ----------

  /** Not a request with the host in its scope, nor an administrator's step, on event k. */
  predicate IsOutsiders(step: Step, k: nat, host: nat) {
    match step
    case Transaction(a) => a.Create? || a.id != k || host !in a.scope
    case Check(_, a) => a.Create? || a.id != k || host !in a.scope
    case _ => !Administers(step, k)
  }

  predicate Addresses(w: Intent, k: nat) {
    w.id == k
  }

  ghost predicate NoneAddresses(s: State, k: nat) {
    forall q :: q in s.intents ==> !Addresses(s.intents[q], k)
  }

  lemma OutsiderStep(s: State, step: Step, env: Env, k: nat)
    requires Enabled(s, step) && k in s.rows && NoneAddresses(s, k) && IsOutsiders(step, k, s.rows[k].host)
    ensures Same(s.rows, Next(s, step, env).rows, k) && NoneAddresses(Next(s, step, env), k)
  {
    hide Build, CreateOutcome, UpdateOutcome, CancelOutcome, ForceCancelOutcome, CompleteOutcome, Edited, Clean;
  }

  /**
   * Only the host's scope and administrators change an event: through any run of other requests, with checks
   * and writes apart and nobody waiting to write it at the start, it stays exactly as it is.
   */
  lemma {:induction false} OutsidersChangeNothing(s: State, steps: seq<Step>, s': State, env: Env, k: nat)
    requires k in s.rows && NoneAddresses(s, k) && Reaches(s, steps, s', env)
    requires forall i :: 0 <= i < |steps| ==> IsOutsiders(steps[i], k, s.rows[k].host)
    ensures Same(s.rows, s'.rows, k)
    decreases |steps|
  {
    hide Next, IsOutsiders, NoneAddresses;
    if |steps| > 0 {
      OutsiderStep(s, steps[0], env, k);
      OutsidersChangeNothing(Next(s, steps[0], env), steps[1..], s', env, k);
    }
  }

  lemma OneStep(s: State, step: Step, rest: seq<Step>, t: State, env: Env) returns (steps: seq<Step>)
    requires Enabled(s, step) && Reaches(Next(s, step, env), rest, t, env)
    ensures Reaches(s, steps, t, env)
  {
    steps := [step] + rest;
    assert steps[1..] == rest;
  }

  /**
   * From every state with an ended, published event: a completion checked before a forced cancellation is
   * written, and written after it, turns the cancelled event completed.
   */
  lemma SplitCompletionOverwrites(s: State, p: nat, q: nat, k: nat, scope: set<nat>, now: int, env: Env)
    returns (steps: seq<Step>, mid: State, end: State)
    requires p != q && p !in s.intents && q !in s.intents
    requires k in s.rows && s.rows[k].host in scope && s.rows[k].status.Published?
    requires s.rows[k].payload.endAt.Some? && s.rows[k].payload.endAt.value <= now
    ensures Reaches(s, steps, mid, env) && k in mid.rows && mid.rows[k].status.Cancelled?
    ensures Reaches(mid, [Write(q)], end, env) && k in end.rows && end.rows[k].status.Completed?
  {
    hide Build;
    var s1 := Next(s, Check(q, Complete(k, scope, now)), env);
    var s2 := Next(s1, Check(p, ForceCancel(k, scope)), env);
    mid := Next(s2, Write(p), env);
    end := Next(mid, Write(q), env);
    steps := OneStep(s2, Write(p), [], mid, env);
    steps := OneStep(s1, Check(p, ForceCancel(k, scope)), steps, mid, env);
    steps := OneStep(s, Check(q, Complete(k, scope, now)), steps, mid, env);
    assert Reaches(end, [Write(q)][1..], end, env);
  }

  // ---------- Which events disappear ----------

  predicate Removes(s: State, step: Step, k: nat) {
    || (step.Write? && step.request in s.intents && s.intents[step.request] == Remove(k))
    || (step.AdminDelete? && k in step.ids)
  }

  /** A step makes an event disappear exactly when it writes a deletion of it, or an administrator does. */
  lemma DisappearsIff(s: State, step: Step, env: Env, k: nat)
    requires Enabled(s, step) && k in s.rows
    ensures k !in Next(s, step, env).rows <==> Removes(s, step, k)
  {
    hide Build, CreateOutcome, UpdateOutcome;
  }

  /** The step checks a deletion of the event and finds a draft of a host within the scope. */
  predicate ChecksDraft(s: State, step: Step, k: nat) {
    && step.Check? && step.a.DeleteDraft? && step.a.id == k
    && k in s.rows && s.rows[k].status.Draft? && s.rows[k].host in step.a.scope
  }

  ghost predicate DraftCheckedWithin(s: State, steps: seq<Step>, env: Env, k: nat)
    decreases |steps|
  {
    && |steps| > 0 && Enabled(s, steps[0])
    && (ChecksDraft(s, steps[0], k) || DraftCheckedWithin(Next(s, steps[0], env), steps[1..], env, k))
  }

  ghost predicate NoneRemoves(s: State, k: nat) {
    forall q :: q in s.intents ==> s.intents[q] != Remove(k)
  }

  lemma OnlyDraftChecksRemove(s: State, step: Step, env: Env, k: nat)
    requires Enabled(s, step) && NoneRemoves(s, k) && !ChecksDraft(s, step, k)
    ensures NoneRemoves(Next(s, step, env), k)
  {
    hide Build, CreateOutcome, UpdateOutcome, CancelOutcome, ForceCancelOutcome, CompleteOutcome;
  }

  /**
   * An event that is gone after a run, with no deletion of it waiting at the start and none by an
   * administrator, was a draft when a deletion by its host's scope checked it; whether it still was one
   * when the deletion was written, the code does not ask.
   */
  lemma {:induction false} OnlyDraftsDisappear(s: State, steps: seq<Step>, s': State, env: Env, k: nat)
    requires k in s.rows && k !in s'.rows && NoneRemoves(s, k) && Reaches(s, steps, s', env)
    requires forall i :: 0 <= i < |steps| ==> !(steps[i].AdminDelete? && k in steps[i].ids)
    ensures DraftCheckedWithin(s, steps, env, k)
    decreases |steps|
  {
    hide Next, ChecksDraft;
    if |steps| > 0 && !ChecksDraft(s, steps[0], k) {
      DisappearsIff(s, steps[0], env, k);
      OnlyDraftChecksRemove(s, steps[0], env, k);
      OnlyDraftsDisappear(Next(s, steps[0], env), steps[1..], s', env, k);
    }
  }

  /** From every state with a draft, a deletion checked before an update publishes it deletes a published event. */
  lemma PublishedCanBeDeleted(s: State, q: nat, k: nat, scope: set<nat>, env: Env)
    returns (steps: seq<Step>, mid: State, end: State)
    requires q !in s.intents && k in s.rows && s.rows[k].host in scope && s.rows[k].status.Draft?
    requires Sound(s.rows[k]) && Publishable(s.rows[k].payload)
    ensures Reaches(s, steps, mid, env) && k in mid.rows && mid.rows[k].status.Published?
    ensures Reaches(mid, [Write(q)], end, env) && k !in end.rows
  {
    hide Build, Sound, Publishable, UpdateOutcome;
    var body := Obj(map["status" := Str("published")]);
    PublishingADraft(s.rows[k], env);
    var s1 := Next(s, Check(q, DeleteDraft(k, scope)), env);
    mid := Next(s1, Transaction(Update(k, scope, body)), env);
    end := Next(mid, Write(q), env);
    steps := OneStep(s1, Transaction(Update(k, scope, body)), [], mid, env);
    steps := OneStep(s, Check(q, DeleteDraft(k, scope)), steps, mid, env);
    assert Reaches(end, [Write(q)][1..], end, env);
  }

  // ---------- What every event looks like ----------

  /** A cancellation written to an event that has lost its place or times since the check, a completion to
      one without an end, or an administrator's edit that is malformed or leaves out what the status asks for. */
  predicate Misfits(s: State, step: Step) {
    match step
    case Write(q) =>
      q in s.intents
      && (match s.intents[q]
          case SetStatus(id, Cancelled) => id in s.rows && !Publishable(s.rows[id].payload)
          case SetStatus(id, Completed) => id in s.rows && s.rows[id].payload.endAt.None?
          case _ => false)
    case AdminEdit(id, x) => id in s.rows && (Malformed(x) || Lacks(s.rows[id], x))
    case _ => false
  }

  /** Only cancellations and completions are ever written. */
  ghost predicate IntentsAreFinal(s: State) {
    forall q :: q in s.intents && s.intents[q].SetStatus? ==> s.intents[q].status in {Cancelled, Completed}
  }

  lemma StepKeepsIntents(s: State, step: Step, env: Env)
    requires Enabled(s, step) && IntentsAreFinal(s)
    ensures IntentsAreFinal(Next(s, step, env))
  {
    hide Build, Answer, Apply, Edited, Clean;
  }

  /** A step keeps every event sound exactly when it is not such a write. */
  lemma SoundKeptIff(s: State, step: Step, env: Env)
    requires Enabled(s, step) && AllSound(s.rows) && IntentsAreFinal(s)
    ensures AllSound(Next(s, step, env).rows) <==> !Misfits(s, step)
  {
    hide Build, Apply, Answer, Normal, Publishable, Sound, Malformed, Lacks, Clean;
    match step
    case Transaction(a) => StepKeepsSound(s.rows, a, env);
    case Write(q) => WriteSoundIff(s, q, env);
    case AdminEdit(id, x) =>
      if id in s.rows {
        EditSoundIff(s, id, x, env);
      }
    case AdminAssign(ids, project) =>
      forall k | k in s.rows ensures Sound(Assigned(s.rows[k], project)) {
        AssignedIsSound(s.rows[k], project);
      }
    case _ =>
  }

  lemma EditSoundIff(s: State, id: nat, x: Edit, env: Env)
    requires id in s.rows && x.Valid() && AllSound(s.rows)
    ensures AllSound(Next(s, AdminEdit(id, x), env).rows) <==> !Malformed(x) && !Lacks(s.rows[id], x)
  {
    hide Sound, Malformed, Lacks, Edited;
    EditedSoundIff(s.rows[id], x);
    var rows := Next(s, AdminEdit(id, x), env).rows;
    assert rows[id] == Edited(s.rows[id], x) && forall k :: k in rows && k != id ==> rows[k] == s.rows[k];
  }

  lemma WriteSoundIff(s: State, q: nat, env: Env)
    requires q in s.intents && AllSound(s.rows) && IntentsAreFinal(s)
    ensures AllSound(Next(s, Write(q), env).rows) <==> !Misfits(s, Write(q))
  {
    hide Normal, Publishable;
    var w := s.intents[q];
    if w.SetStatus? && w.id in s.rows {
      var rows := StatusWritten(s.rows, w.id, w.status);
      assert Sound(s.rows[w.id]);
      assert forall k :: k in rows && k != w.id ==> rows[k] == s.rows[k];
      assert Sound(rows[w.id]) <==> !Misfits(s, Write(q));
    }
  }

  ghost predicate SoundThroughout(s: State, steps: seq<Step>, env: Env)
    decreases |steps|
  {
    && AllSound(s.rows)
    && (|steps| > 0 && Enabled(s, steps[0]) ==> SoundThroughout(Next(s, steps[0], env), steps[1..], env))
  }

  ghost predicate MisfitWithin(s: State, steps: seq<Step>, env: Env)
    decreases |steps|
  {
    && |steps| > 0 && Enabled(s, steps[0])
    && (Misfits(s, steps[0]) || MisfitWithin(Next(s, steps[0], env), steps[1..], env))
  }

  /** Over any run every event is sound in every state exactly when no such write occurs. */
  lemma {:induction false} SoundThroughoutIff(s: State, steps: seq<Step>, s': State, env: Env)
    requires AllSound(s.rows) && IntentsAreFinal(s) && Reaches(s, steps, s', env)
    ensures SoundThroughout(s, steps, env) <==> !MisfitWithin(s, steps, env)
    decreases |steps|
  {
    hide Next, AllSound, IntentsAreFinal, Misfits;
    if |steps| > 0 {
      SoundKeptIff(s, steps[0], env);
      StepKeepsIntents(s, steps[0], env);
      if !Misfits(s, steps[0]) {
        SoundThroughoutIff(Next(s, steps[0], env), steps[1..], s', env);
      }
    }
  }

  /** Every row in normal form, and every published one with a place and both instants. */
  ghost predicate PublishedSound(rows: map<nat, Event>) {
    forall k :: k in rows ==> Normal(rows[k].payload) && (rows[k].status.Published? ==> Publishable(rows[k].payload))
  }

  /** An administrator's edit that is malformed, or leaves a published event without a place or a time. */
  predicate Maims(s: State, step: Step) {
    && step.AdminEdit? && step.id in s.rows
    && (Malformed(step.edit)
        || (step.edit.status.GetOr(s.rows[step.id].status).Published? && !Placed(s.rows[step.id], step.edit)))
  }

  /** A step keeps every row in normal form and every published event complete exactly when it is no such edit. */
  lemma PublishedKeptIff(s: State, step: Step, env: Env)
    requires Enabled(s, step) && PublishedSound(s.rows) && IntentsAreFinal(s)
    ensures PublishedSound(Next(s, step, env).rows) <==> !Maims(s, step)
  {
    hide Build, Normal, Publishable, CreateOutcome, UpdateOutcome, Malformed, Placed, Edited, Clean, Final;
    match step
    case Transaction(a) => TransactionKeepsPublished(s, a, env);
    case AdminEdit(id, x) =>
      if id in s.rows {
        EditPublishedIff(s, id, x, env);
      }
    case AdminAssign(ids, project) =>
      forall k | k in s.rows ensures Normal(Assigned(s.rows[k], project).payload) {
        AssignedIsSound(s.rows[k], project);
      }
      AssignedIsPlaced(s.rows, ids, project);
    case _ =>
  }

  lemma TransactionKeepsPublished(s: State, a: Action, env: Env)
    requires Locks(a) && PublishedSound(s.rows)
    ensures PublishedSound(Apply(s.rows, a, env))
  {
    hide Build, Normal, Publishable, CreateOutcome, UpdateOutcome;
    if a.Create? {
      if CreateOutcome(a.host, a.creatorOrg, a.body, env).Ok? {
        CreatedIsSound(a.host, a.creatorOrg, a.body, env);
      }
    } else if a.id in s.rows && UpdateOutcome(s.rows[a.id], a.body, env).Ok? {
      UpdatedIsPublishable(s.rows[a.id], a.body, env);
    }
  }

  lemma EditPublishedIff(s: State, id: nat, x: Edit, env: Env)
    requires id in s.rows && x.Valid() && PublishedSound(s.rows)
    ensures PublishedSound(Next(s, AdminEdit(id, x), env).rows) <==> !Maims(s, AdminEdit(id, x))
  {
    hide Normal, Malformed;
    EditedNormalIff(s.rows[id], x);
    var rows := Next(s, AdminEdit(id, x), env).rows;
    assert rows[id] == Edited(s.rows[id], x) && forall k :: k in rows && k != id ==> rows[k] == s.rows[k];
  }

  lemma AssignedIsPlaced(rows: map<nat, Event>, ids: set<nat>, project: string)
    ensures forall k :: k in rows ==>
              var e := AllAssigned(rows, ids, project)[k];
              e.status == rows[k].status && (Publishable(rows[k].payload) <==> Publishable(e.payload))
  {
  }

  ghost predicate PublishedThroughout(s: State, steps: seq<Step>, env: Env)
    decreases |steps|
  {
    && PublishedSound(s.rows)
    && (|steps| > 0 && Enabled(s, steps[0]) ==> PublishedThroughout(Next(s, steps[0], env), steps[1..], env))
  }

  ghost predicate MaimedWithin(s: State, steps: seq<Step>, env: Env)
    decreases |steps|
  {
    && |steps| > 0 && Enabled(s, steps[0])
    && (Maims(s, steps[0]) || MaimedWithin(Next(s, steps[0], env), steps[1..], env))
  }

  /** Over any run, with checks and writes apart, every published event is complete in every state exactly
      when no such edit occurs. */
  lemma {:induction false} PublishedThroughoutIff(s: State, steps: seq<Step>, s': State, env: Env)
    requires PublishedSound(s.rows) && IntentsAreFinal(s) && Reaches(s, steps, s', env)
    ensures PublishedThroughout(s, steps, env) <==> !MaimedWithin(s, steps, env)
    decreases |steps|
  {
    hide Next, PublishedSound, IntentsAreFinal, Maims;
    if |steps| > 0 {
      PublishedKeptIff(s, steps[0], env);
      StepKeepsIntents(s, steps[0], env);
      if !Maims(s, steps[0]) {
        PublishedThroughoutIff(Next(s, steps[0], env), steps[1..], s', env);
      }
    }
  }

  /** From every state with a draft that has no place, an edit publishes it all the same. */
  lemma AdminPublishesIncomplete(s: State, k: nat, env: Env) returns (end: State)
    requires k in s.rows && s.rows[k].payload.location == ""
    ensures Reaches(s, [AdminEdit(k, NO_EDIT.(status := Some(Published)))], end, env)
    ensures k in end.rows && end.rows[k].status.Published? && !Publishable(end.rows[k].payload)
  {
    end := AdminReopens(s, k, env);
  }
}
