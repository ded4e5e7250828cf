/**
  Any number of delivery workers on one outbox, as a state machine over single database steps.

  `rows` is the committed table, all that other transactions see. `locks` holds the row versions of
  open transactions, each with the worker that holds the row lock. The remaining fields record the
  history: accepted deliveries, deliveries and attempts whose bookkeeping a rollback undid, the
  counters each committed call returned, and the rows the portal inserted as already sent.
*/
module OutboxProtocol {
  import opened Wrappers
  import opened Sums
  import opened Outbox

  datatype Lock = Lock(worker: nat, version: Row)

  datatype Txn = Txn(batch: seq<nat>, done: nat, sent: nat, failed: nat, errors: seq<nat>)

  datatype State = State(
    rows: Table,
    locks: map<nat, Lock>,
    txns: map<nat, Txn>,
    now: int,
    deliveries: multiset<nat>,
    undone: multiset<nat>,
    attempts: nat,
    lost: nat,
    reports: seq<Txn>,
    posted: set<nat>)

  datatype Step =
    | Tick(elapsed: nat)
    | Enqueue(id: nat, row: Row)
    | Pick(worker: nat, max: nat, batch: seq<nat>)
    | Process(worker: nat, outcome: Option<string>)
    | Commit(worker: nat)
    | Rollback(worker: nat)

  function Init(now: int): State {
    State(map[], map[], map[], now, multiset{}, multiset{}, 0, 0, [], {})
  }

  ghost predicate Enabled(s: State, step: Step) {
    match step
    case Tick(_) => true
    case Enqueue(id, row) => id !in s.rows && row.status in {Queued, Sent} && row.attempts == 0
    case Pick(w, max, batch) => w !in s.txns && IsBatch(s.rows, s.locks.Keys, s.now, max, batch)
    case Process(w, _) => w in s.txns && s.txns[w].done < |s.txns[w].batch|
    case Commit(w) => w in s.txns && s.txns[w].done == |s.txns[w].batch|
    case Rollback(w) => w in s.txns
  }

  ghost function Apply(s: State, step: Step): State
    requires Enabled(s, step)
  {
    match step
    case Tick(d) => s.(now := s.now + d)
    case Enqueue(id, row) =>
      s.(rows := s.rows[id := row], posted := if row.status == Sent then s.posted + {id} else s.posted)
    case Pick(w, _, batch) => AfterPick(s, w, batch)
    case Process(w, outcome) => AfterProcess(s, w, outcome)
    case Commit(w) =>
      s.(rows := map i | i in s.rows :: if HeldBy(s, i, w) then s.locks[i].version else s.rows[i],
         locks := Released(s, w),
         txns := s.txns - {w},
         reports := s.reports + [s.txns[w]])
    case Rollback(w) =>
      s.(locks := Released(s, w),
         txns := s.txns - {w},
         undone := s.undone + multiset(set i | i in s.locks && HeldBy(s, i, w) && s.locks[i].version.status == Sent),
         lost := s.lost + s.txns[w].done)
  }

  ghost function AfterPick(s: State, w: nat, batch: seq<nat>): State {
    s.(locks := map i | i in s.locks.Keys + (set i | i in batch && i in s.rows) ::
                  if i in s.locks then s.locks[i] else Lock(w, s.rows[i].(status := Processing)),
       txns := s.txns[w := Txn(batch, 0, 0, 0, [])])
  }

  /** Send the worker's next message and settle its row; a row without a lock is left alone. */
  ghost function AfterProcess(s: State, w: nat, outcome: Option<string>): State
    requires w in s.txns && s.txns[w].done < |s.txns[w].batch|
  {
    var t := s.txns[w];
    var id := t.batch[t.done];
    s.(locks := if id in s.locks then s.locks[id := Lock(w, Settle(s.locks[id].version, outcome))] else s.locks,
       txns := s.txns[w := if outcome.None? then t.(done := t.done + 1, sent := t.sent + 1)
                           else t.(done := t.done + 1, failed := t.failed + 1, errors := t.errors + [id])],
       deliveries := if outcome.None? then s.deliveries + multiset{id} else s.deliveries,
       attempts := s.attempts + 1)
  }

  predicate HeldBy(s: State, i: nat, w: nat) {
    i in s.locks && s.locks[i].worker == w
  }

  ghost function Released(s: State, w: nat): map<nat, Lock> {
    map i | i in s.locks && !HeldBy(s, i, w) :: s.locks[i]
  }

  /** The steps lead from s to s'. */
  ghost predicate Reaches(s: State, steps: seq<Step>, s': State)
    decreases |steps|
  {
    if |steps| == 0 then s' == s
    else Enabled(s, steps[0]) && Reaches(Apply(s, steps[0]), steps[1..], s')
  }

  // ---------- Structure of the reachable states ----------

  /** An uncommitted version is either freshly marked or settled once. */
  predicate VersionOf(r: Row, p: Row) {
    && r.status == Queued
    && (p == r.(status := Processing) || (Legal(p) && !Posted(p) && p.attempts == r.attempts + 1))
  }

  predicate Counted(t: Txn) {
    t.done <= |t.batch| && t.sent + t.failed == t.done && |t.errors| == t.failed
  }

  /** Worker w holds exactly the locks of its batch, and has settled the first `done` of them. */
  ghost predicate Owns(s: State, w: nat, t: Txn) {
    && Counted(t)
    && (forall a, b :: 0 <= a < b < |t.batch| ==> t.batch[a] != t.batch[b])
    && (forall k :: 0 <= k < |t.batch| ==> HeldBy(s, t.batch[k], w))
    && (forall k :: 0 <= k < |t.batch| ==> (s.locks[t.batch[k]].version.status == Processing <==> t.done <= k))
  }

  ghost predicate Inv(s: State) {
    && (forall i :: i in s.rows ==> Legal(s.rows[i]) && (Posted(s.rows[i]) <==> i in s.posted))
    && s.posted <= s.rows.Keys
    && (forall i :: i in s.locks ==>
          && i in s.rows && VersionOf(s.rows[i], s.locks[i].version)
          && s.locks[i].worker in s.txns && i in s.txns[s.locks[i].worker].batch)
    && (forall w :: w in s.txns ==> Owns(s, w, s.txns[w]))
    && (forall t :: t in s.reports ==> Counted(t) && t.done == |t.batch|)
  }

  lemma StepKeepsInv(s: State, step: Step)
    requires Inv(s) && Enabled(s, step)
    ensures Inv(Apply(s, step))
  {
    hide VersionOf, IsBatch, Legal, Settle, Owns, Counted, AfterPick, AfterProcess;
    match step
    case Tick(d) => TickKeepsInv(s, d);
    case Enqueue(id, row) => EnqueueKeepsInv(s, id, row);
    case Pick(w, max, batch) =>
      BatchFacts(s.rows, s.locks.Keys, s.now, max, batch);
      PickKeepsInv(s, w, batch);
    case Process(w, outcome) => ProcessKeepsInv(s, w, outcome);
    case Commit(w) => CommitKeepsInv(s, w);
    case Rollback(w) => ReleaseKeepsInv(s, Apply(s, step), w);
  }

  lemma TickKeepsInv(s: State, elapsed: nat)
    requires Inv(s)
    ensures Inv(s.(now := s.now + elapsed))
  {
    hide VersionOf, Legal;
    assert forall w :: w in s.txns ==> Owns(s.(now := s.now + elapsed), w, s.txns[w]);
  }

  lemma CommitKeepsInv(s: State, w: nat)
    requires Inv(s) && Enabled(s, Commit(w))
    ensures Inv(Apply(s, Commit(w)))
  {
    hide Owns, Settle;
    assert Owns(s, w, s.txns[w]);
    CommittedVersionsAreLegal(s, w);
    ReleaseKeepsInv(s, Apply(s, Commit(w)), w);
  }

  /** A worker that has settled its whole batch holds no freshly marked version. */
  lemma CommittedVersionsAreLegal(s: State, w: nat)
    requires Inv(s) && Enabled(s, Commit(w))
    ensures Counted(s.txns[w])
    ensures forall i :: i in s.rows && HeldBy(s, i, w) ==>
              Legal(s.locks[i].version) && !Posted(s.locks[i].version) && i !in s.posted
  {
    hide Settle;
    var t := s.txns[w];
    assert Owns(s, w, t);
    forall i | i in s.rows && HeldBy(s, i, w)
      ensures Legal(s.locks[i].version) && !Posted(s.locks[i].version) && i !in s.posted
    {
      var k :| 0 <= k < |t.batch| && t.batch[k] == i;
      assert HeldBy(s, t.batch[k], w);
    }
  }

  lemma EnqueueKeepsInv(s: State, id: nat, row: Row)
    requires Inv(s) && Enabled(s, Enqueue(id, row))
    ensures Inv(Apply(s, Enqueue(id, row)))
  {
    hide VersionOf, Settle;
    var s' := Apply(s, Enqueue(id, row));
    assert forall w :: w in s.txns ==> Owns(s', w, s.txns[w]);
  }

  predicate Pickable(rows: Table, locked: set<nat>, batch: seq<nat>) {
    && (forall a, b :: 0 <= a < b < |batch| ==> batch[a] != batch[b])
    && (forall i :: i in batch ==> i in rows && i !in locked && rows[i].status == Queued)
  }

  lemma BatchFacts(rows: Table, locked: set<nat>, now: int, max: nat, batch: seq<nat>)
    requires IsBatch(rows, locked, now, max, batch)
    ensures Pickable(rows, locked, batch)
  {
    assert forall a, b :: 0 <= a < b < |batch| ==> Precedes(rows, batch[a], batch[b]);
  }

  lemma PickKeepsInv(s: State, w: nat, batch: seq<nat>)
    requires Inv(s) && w !in s.txns && Pickable(s.rows, s.locks.Keys, batch)
    ensures Inv(AfterPick(s, w, batch))
  {
    hide Owns, Counted;
    var s' := AfterPick(s, w, batch);
    forall v | v in s'.txns && v != w ensures Owns(s', v, s'.txns[v]) {
      PickKeepsOther(s, w, batch, v);
    }
    PickedOwns(s, w, batch);
  }

  lemma PickKeepsOther(s: State, w: nat, batch: seq<nat>, v: nat)
    requires v in s.txns && v != w && Owns(s, v, s.txns[v])
    ensures Owns(AfterPick(s, w, batch), v, s.txns[v])
  {
  }

  lemma PickedOwns(s: State, w: nat, batch: seq<nat>)
    requires Pickable(s.rows, s.locks.Keys, batch)
    ensures Owns(AfterPick(s, w, batch), w, AfterPick(s, w, batch).txns[w])
  {
    assert forall k :: 0 <= k < |batch| ==> batch[k] in batch;
  }

  lemma ProcessKeepsInv(s: State, w: nat, outcome: Option<string>)
    requires Inv(s) && w in s.txns && s.txns[w].done < |s.txns[w].batch|
    ensures Inv(AfterProcess(s, w, outcome))
  {
    hide Owns;
    var s' := AfterProcess(s, w, outcome);
    var id := s.txns[w].batch[s.txns[w].done];
    ProcessKeepsOwn(s, w, outcome);
    assert s'.locks.Keys == s.locks.Keys;
    forall v | v in s'.txns && v != w ensures Owns(s', v, s'.txns[v]) {
      ProcessKeepsOther(s, w, outcome, v);
    }
    forall i | i in s'.locks
      ensures i in s'.rows && VersionOf(s'.rows[i], s'.locks[i].version)
      ensures s'.locks[i].worker in s'.txns && i in s'.txns[s'.locks[i].worker].batch
    {
      assert s'.locks[i].worker == s.locks[i].worker;
    }
  }

  lemma ProcessKeepsOwn(s: State, w: nat, outcome: Option<string>)
    requires w in s.txns && Owns(s, w, s.txns[w]) && s.txns[w].done < |s.txns[w].batch|
    ensures Owns(AfterProcess(s, w, outcome), w, AfterProcess(s, w, outcome).txns[w])
    ensures HeldBy(s, s.txns[w].batch[s.txns[w].done], w)
    ensures s.locks[s.txns[w].batch[s.txns[w].done]].version.status == Processing
  {
  }

  lemma ProcessKeepsOther(s: State, w: nat, outcome: Option<string>, v: nat)
    requires w in s.txns && Owns(s, w, s.txns[w]) && s.txns[w].done < |s.txns[w].batch|
    requires v in s.txns && Owns(s, v, s.txns[v]) && v != w
    ensures Owns(AfterProcess(s, w, outcome), v, s.txns[v])
  {
    var id := s.txns[w].batch[s.txns[w].done];
    assert HeldBy(s, id, w);
    assert forall k :: 0 <= k < |s.txns[v].batch| ==> HeldBy(s, s.txns[v].batch[k], v);
  }

  lemma ReleaseKeepsInv(s: State, s': State, w: nat)
    requires Inv(s) && w in s.txns
    requires s'.locks == Released(s, w) && s'.txns == s.txns - {w}
    requires s'.rows.Keys == s.rows.Keys
    requires forall i :: i in s.rows && !HeldBy(s, i, w) ==> s'.rows[i] == s.rows[i]
    requires s'.posted == s.posted
    requires forall i :: i in s.rows && HeldBy(s, i, w) ==>
               s'.rows[i] == s.rows[i] || (Legal(s'.rows[i]) && !Posted(s'.rows[i]) && i !in s.posted)
    requires forall t :: t in s'.reports ==> Counted(t) && t.done == |t.batch|
    ensures Inv(s')
  {
    hide Legal, Counted, Owns;
    forall v | v in s'.txns ensures Owns(s', v, s'.txns[v]) {
      OthersKeepOwning(s, s', w, v);
    }
  }

  lemma OthersKeepOwning(s: State, s': State, w: nat, v: nat)
    requires v in s.txns && v != w && Owns(s, v, s.txns[v]) && s'.locks == Released(s, w)
    ensures Owns(s', v, s.txns[v])
  {
  }

  // ---------- Books ----------

  /** The newest version of every row, committed or not. */
  ghost function View(s: State): Table {
    map i | i in s.rows :: if i in s.locks then s.locks[i].version else s.rows[i]
  }

  ghost function AttemptsAt(rows: Table): nat -> int {
    i => if i in rows then rows[i].attempts else 0
  }

  ghost predicate IsSent(s: State, i: nat) {
    i in s.rows && Worked(View(s)[i])
  }

  /** Deliveries and attempts on record are those the rows show plus those rollbacks undid. */
  ghost predicate Books(s: State) {
    && (forall i :: s.deliveries[i] == s.undone[i] + if IsSent(s, i) then 1 else 0)
    && s.attempts == s.lost + Sum(s.rows.Keys, AttemptsAt(View(s)))
  }

  lemma StepKeepsBooks(s: State, step: Step)
    requires Inv(s) && Books(s) && Enabled(s, step)
    ensures Books(Apply(s, step))
  {
    match step
    case Tick(_) => SameViewKeepsBooks(s, Apply(s, step));
    case Enqueue(id, row) =>
      assert s.locks.Keys <= s.rows.Keys;
      EnqueueKeepsBooks(s, id, row);
    case Pick(w, max, batch) =>
      BatchFacts(s.rows, s.locks.Keys, s.now, max, batch);
      PickKeepsBooks(s, w, batch);
    case Process(w, outcome) => ProcessKeepsBooks(s, w, outcome);
    case Commit(w) =>
      CommitKeepsView(s, w);
      SameViewKeepsBooks(s, Apply(s, step));
    case Rollback(w) => RollbackKeepsBooks(s, w);
  }

  lemma SameViewKeepsBooks(s: State, s': State)
    requires Books(s) && View(s') == View(s) && s'.rows.Keys == s.rows.Keys
    requires s'.deliveries == s.deliveries && s'.undone == s.undone && s'.attempts == s.attempts && s'.lost == s.lost
    ensures Books(s')
  {
    assert forall i :: IsSent(s', i) <==> IsSent(s, i);
  }

  lemma CommitKeepsView(s: State, w: nat)
    requires w in s.txns && s.txns[w].done == |s.txns[w].batch|
    ensures View(Apply(s, Commit(w))) == View(s) && Apply(s, Commit(w)).rows.Keys == s.rows.Keys
  {
  }

  lemma EnqueueKeepsBooks(s: State, id: nat, row: Row)
    requires Books(s) && s.locks.Keys <= s.rows.Keys && Enabled(s, Enqueue(id, row))
    ensures Books(Apply(s, Enqueue(id, row)))
  {
    hide Sum;
    var s' := Apply(s, Enqueue(id, row));
    assert forall i :: i in s.rows ==> View(s')[i] == View(s)[i];
    Remove(s'.rows.Keys, AttemptsAt(View(s')), id);
    assert s'.rows.Keys - {id} == s.rows.Keys;
    Congruent(s.rows.Keys, AttemptsAt(View(s')), AttemptsAt(View(s)));
  }

  lemma PickKeepsBooks(s: State, w: nat, batch: seq<nat>)
    requires Inv(s) && Books(s) && w !in s.txns && Pickable(s.rows, s.locks.Keys, batch)
    ensures Books(AfterPick(s, w, batch))
  {
    hide Owns, Legal, VersionOf, Counted, Books;
    var s' := AfterPick(s, w, batch);
    forall i | i in s.rows ensures Marks(View(s)[i], View(s')[i]) {
    }
    MarkKeepsBooks(s, s');
  }

  /** The row is left alone, or marked from queued to processing. */
  predicate Marks(r: Row, r': Row) {
    r' == r || (r.status == Queued && r' == r.(status := Processing))
  }

  lemma MarkKeepsBooks(s: State, s': State)
    requires Books(s) && s'.rows.Keys == s.rows.Keys && forall i :: i in s.rows ==> Marks(View(s)[i], View(s')[i])
    requires s'.deliveries == s.deliveries && s'.undone == s.undone && s'.attempts == s.attempts && s'.lost == s.lost
    ensures Books(s')
  {
    hide Sum;
    assert forall i :: IsSent(s', i) <==> IsSent(s, i);
    Congruent(s.rows.Keys, AttemptsAt(View(s')), AttemptsAt(View(s)));
  }

  lemma ProcessKeepsBooks(s: State, w: nat, outcome: Option<string>)
    requires Inv(s) && Books(s) && w in s.txns && s.txns[w].done < |s.txns[w].batch|
    ensures Books(AfterProcess(s, w, outcome))
  {
    var s' := AfterProcess(s, w, outcome);
    var id := s.txns[w].batch[s.txns[w].done];
    ProcessKeepsOwn(s, w, outcome);
    assert id in s.locks && id in s.rows;
    SettledOnce(s, s', id, outcome);
  }

  lemma SettledOnce(s: State, s': State, id: nat, outcome: Option<string>)
    requires Books(s) && id in s.rows && id in s.locks && s.locks[id].version.status == Processing
    requires s'.rows == s.rows && s'.locks.Keys == s.locks.Keys
    requires forall i :: i in s.locks && i != id ==> s'.locks[i].version == s.locks[i].version
    requires s'.locks[id].version == Settle(s.locks[id].version, outcome)
    requires s'.deliveries == if outcome.None? then s.deliveries + multiset{id} else s.deliveries
    requires s'.undone == s.undone && s'.attempts == s.attempts + 1 && s'.lost == s.lost
    ensures Books(s')
  {
    hide Sum;
    assert forall i :: i != id ==> (IsSent(s', i) <==> IsSent(s, i));
    Remove(s.rows.Keys, AttemptsAt(View(s)), id);
    Remove(s.rows.Keys, AttemptsAt(View(s')), id);
    Congruent(s.rows.Keys - {id}, AttemptsAt(View(s')), AttemptsAt(View(s)));
  }

  lemma RollbackKeepsBooks(s: State, w: nat)
    requires Inv(s) && Books(s) && w in s.txns
    ensures Books(Apply(s, Rollback(w)))
  {
    var s' := Apply(s, Rollback(w));
    var t := s.txns[w];
    assert Owns(s, w, t);
    DistinctCount(t.batch, t.done);
    forall i | i in s.rows
      ensures View(s')[i].attempts == View(s)[i].attempts - if i in FirstOf(t.batch, t.done) then 1 else 0
      ensures View(s')[i].status == Sent ==> View(s)[i].status == Sent
      ensures HeldBy(s, i, w) ==> View(s')[i].status != Sent
      ensures !HeldBy(s, i, w) ==> View(s')[i] == View(s)[i]
    {
      RollbackRestores(s, w, i);
    }
    NoLockIsPosted(s);
    UndoneTogether(s, s', FirstOf(t.batch, t.done), w);
  }

  lemma NoLockIsPosted(s: State)
    requires Inv(s)
    ensures forall i :: i in s.locks ==> i in s.rows && !Posted(s.locks[i].version)
  {
    hide Owns, Legal;
  }

  ghost function FirstOf(b: seq<nat>, n: nat): set<nat>
    requires n <= |b|
  {
    set k | 0 <= k < n :: b[k]
  }

  lemma RollbackRestores(s: State, w: nat, i: nat)
    requires Inv(s) && w in s.txns && i in s.rows
    ensures var s' := Apply(s, Rollback(w));
            && Counted(s.txns[w])
            && View(s')[i].attempts
               == View(s)[i].attempts - (if i in FirstOf(s.txns[w].batch, s.txns[w].done) then 1 else 0)
            && (HeldBy(s, i, w) ==> View(s')[i].status == Queued)
            && (!HeldBy(s, i, w) ==> View(s')[i] == View(s)[i])
  {
    var t := s.txns[w];
    assert Owns(s, w, t);
    if HeldBy(s, i, w) {
      var k :| 0 <= k < |t.batch| && t.batch[k] == i;
      assert s.locks[i].version.status == Processing <==> t.done <= k;
    } else {
      assert forall k :: 0 <= k < |t.batch| ==> t.batch[k] != i;
    }
  }

  lemma UndoneTogether(s: State, s': State, settled: set<nat>, w: nat)
    requires Books(s) && s'.rows == s.rows && settled <= s.rows.Keys
    requires forall i :: i in s.locks ==> i in s.rows && !Posted(s.locks[i].version)
    requires forall i :: i in s.rows ==>
               && View(s')[i].attempts == View(s)[i].attempts - (if i in settled then 1 else 0)
               && (HeldBy(s, i, w) ==> View(s')[i].status != Sent)
               && (!HeldBy(s, i, w) ==> View(s')[i] == View(s)[i])
    requires s'.deliveries == s.deliveries && s'.attempts == s.attempts && s'.lost == s.lost + |settled|
    requires s'.undone
          == s.undone + multiset(set i | i in s.locks && HeldBy(s, i, w) && s.locks[i].version.status == Sent)
    ensures Books(s')
  {
    hide Sum, Posted;
    OneLowerOn(s.rows.Keys, settled, AttemptsAt(View(s)), AttemptsAt(View(s')));
    var back := set i | i in s.locks && HeldBy(s, i, w) && s.locks[i].version.status == Sent;
    forall i ensures s'.deliveries[i] == s'.undone[i] + if IsSent(s', i) then 1 else 0 {
      assert i in back <==> IsSent(s, i) && !IsSent(s', i);
    }
  }

  lemma {:induction false} DistinctCount(b: seq<nat>, n: nat)
    requires n <= |b| && forall i, j :: 0 <= i < j < |b| ==> b[i] != b[j]
    ensures |FirstOf(b, n)| == n
  {
    if n > 0 {
      DistinctCount(b, n - 1);
      var earlier := FirstOf(b, n - 1);
      assert FirstOf(b, n) == earlier + {b[n - 1]} && b[n - 1] !in earlier;
    }
  }

  // ---------- Whole runs ----------

  lemma {:induction false} RunKeeps(s: State, steps: seq<Step>, s': State)
    requires Inv(s) && Books(s) && Reaches(s, steps, s')
    ensures Inv(s') && Books(s')
    decreases |steps|
  {
    if |steps| > 0 {
      StepKeepsInv(s, steps[0]);
      StepKeepsBooks(s, steps[0]);
      RunKeeps(Apply(s, steps[0]), steps[1..], s');
    }
  }

  /** In every state that any interleaving of any number of workers reaches: committed rows are
      never `processing` and obey the attempt counts, no two open batches share a row, every
      committed call accounted for all it picked, and each row was delivered at most once more than
      rollbacks forgot, with at most five attempts per row besides the forgotten ones. */
  lemma OutboxSafety(now: int, steps: seq<Step>, s: State)
    requires Reaches(Init(now), steps, s)
    ensures forall i :: i in s.rows ==> Legal(s.rows[i]) && (Posted(s.rows[i]) <==> i in s.posted)
    ensures forall v, w :: v in s.txns && w in s.txns && v != w ==> Members(s.txns[v].batch) !! Members(s.txns[w].batch)
    ensures forall t :: t in s.reports ==> |t.batch| == t.sent + t.failed && t.failed == |t.errors|
    ensures forall i :: s.deliveries[i] == s.undone[i] + if IsSent(s, i) then 1 else 0
    ensures s.attempts <= MAX_ATTEMPTS * |s.rows| + s.lost
  {
    RunKeeps(Init(now), steps, s);
    BatchesDisjoint(s);
    AttemptsBounded(s);
  }

  lemma BatchesDisjoint(s: State)
    requires Inv(s)
    ensures forall v, w :: v in s.txns && w in s.txns && v != w ==> Members(s.txns[v].batch) !! Members(s.txns[w].batch)
  {
    forall v, w, i | v in s.txns && w in s.txns && i in s.txns[v].batch && i in s.txns[w].batch ensures v == w {
      assert Owns(s, v, s.txns[v]) && Owns(s, w, s.txns[w]);
      assert HeldBy(s, i, v) && HeldBy(s, i, w);
    }
  }

  lemma AttemptsBounded(s: State)
    requires Inv(s) && Books(s)
    ensures s.attempts <= MAX_ATTEMPTS * |s.rows| + s.lost
  {
    Constant(s.rows.Keys, (i: nat) => MAX_ATTEMPTS, MAX_ATTEMPTS);
    AtMost(s.rows.Keys, AttemptsAt(View(s)), (i: nat) => MAX_ATTEMPTS);
  }

  // ---------- Nothing goes out early ----------

  /** The row is an email that was due by now. */
  predicate Due(s: State, i: nat) {
    i in s.rows && s.rows[i].channel == Email && s.rows[i].sendAfter <= s.now
  }

  ghost predicate OnTime(s: State) {
    && (forall i :: i in s.locks ==>
          && Due(s, i)
          && s.locks[i].version.channel == s.rows[i].channel && s.locks[i].version.sendAfter == s.rows[i].sendAfter)
    && (forall i :: s.deliveries[i] > 0 || s.undone[i] > 0 ==> Due(s, i))
  }

  /** No row disappears, changes channel or is put off. */
  ghost predicate SameAddressees(s: State, s': State) {
    && s.now <= s'.now
    && forall i :: i in s.rows ==>
         i in s'.rows && s'.rows[i].channel == s.rows[i].channel && s'.rows[i].sendAfter == s.rows[i].sendAfter
  }

  lemma StepKeepsOnTime(s: State, step: Step)
    requires Inv(s) && OnTime(s) && Enabled(s, step)
    ensures OnTime(Apply(s, step)) && SameAddressees(s, Apply(s, step))
  {
    hide Inv, OnTime, AfterPick, AfterProcess, IsBatch, SameAddressees, Released;
    match step
    case Tick(_) => QuietStepKeepsOnTime(s, step);
    case Enqueue(id, row) => QuietStepKeepsOnTime(s, step);
    case Pick(w, max, batch) =>
      BatchIsDue(s.rows, s.locks.Keys, s.now, max, batch);
      PickKeepsOnTime(s, w, batch);
    case Process(w, outcome) =>
      OwnsNext(s, w);
      ProcessKeepsOnTime(s, w, outcome);
    case Commit(w) => ReleaseKeepsOnTime(s, step, w);
    case Rollback(w) => ReleaseKeepsOnTime(s, step, w);
  }

  lemma QuietStepKeepsOnTime(s: State, step: Step)
    requires OnTime(s) && Enabled(s, step) && (step.Tick? || step.Enqueue?)
    ensures OnTime(Apply(s, step)) && SameAddressees(s, Apply(s, step))
  {
  }

  lemma BatchIsDue(rows: Table, locked: set<nat>, now: int, max: nat, batch: seq<nat>)
    requires IsBatch(rows, locked, now, max, batch)
    ensures forall i :: i in batch ==> i in rows && rows[i].channel == Email && rows[i].sendAfter <= now
  {
  }

  lemma PickKeepsOnTime(s: State, w: nat, batch: seq<nat>)
    requires OnTime(s) && forall i :: i in batch ==> Due(s, i)
    ensures OnTime(AfterPick(s, w, batch)) && SameAddressees(s, AfterPick(s, w, batch))
  {
  }

  lemma ProcessKeepsOnTime(s: State, w: nat, outcome: Option<string>)
    requires OnTime(s) && w in s.txns && s.txns[w].done < |s.txns[w].batch|
    requires s.txns[w].batch[s.txns[w].done] in s.locks
    ensures OnTime(AfterProcess(s, w, outcome)) && SameAddressees(s, AfterProcess(s, w, outcome))
  {
  }

  lemma ReleaseKeepsOnTime(s: State, step: Step, w: nat)
    requires OnTime(s) && Enabled(s, step) && (step == Commit(w) || step == Rollback(w))
    ensures OnTime(Apply(s, step)) && SameAddressees(s, Apply(s, step))
  {
  }

  lemma OwnsNext(s: State, w: nat)
    requires Inv(s) && w in s.txns && s.txns[w].done < |s.txns[w].batch|
    ensures s.txns[w].batch[s.txns[w].done] in s.locks
  {
    assert Owns(s, w, s.txns[w]) && HeldBy(s, s.txns[w].batch[s.txns[w].done], w);
  }

  lemma {:induction false} RunKeepsOnTime(s: State, steps: seq<Step>, s': State)
    requires Inv(s) && OnTime(s) && Reaches(s, steps, s')
    ensures OnTime(s')
    decreases |steps|
  {
    hide Inv, OnTime;
    if |steps| > 0 {
      StepKeepsInv(s, steps[0]);
      StepKeepsOnTime(s, steps[0]);
      RunKeepsOnTime(Apply(s, steps[0]), steps[1..], s');
    }
  }

  /** In every reachable state whatever a worker holds, has delivered or has had undone is an email whose time
      has come: nothing goes out early, and no text message ever does. */
  lemma NothingGoesOutEarly(now: int, steps: seq<Step>, s: State, i: nat)
    requires Reaches(Init(now), steps, s)
    requires i in s.locks || s.deliveries[i] > 0 || s.undone[i] > 0
    ensures i in s.rows && s.rows[i].channel == Email && s.rows[i].sendAfter <= s.now
  {
    hide Reaches, Inv;
    InitIsFine(now);
    RunKeepsOnTime(Init(now), steps, s);
  }

  lemma InitIsFine(now: int)
    ensures Inv(Init(now)) && OnTime(Init(now))
  {
  }

  lemma {:induction false} NothingForgotten(s: State, steps: seq<Step>, s': State)
    requires Reaches(s, steps, s')
    requires forall k :: 0 <= k < |steps| ==> !steps[k].Rollback?
    ensures s'.undone == s.undone && s'.lost == s.lost
    decreases |steps|
  {
    if |steps| > 0 {
      NothingForgotten(Apply(s, steps[0]), steps[1..], s');
    }
  }

  /** Without rollbacks a row is delivered once if its newest version is `sent` and never otherwise,
      and n rows cause at most 5n send attempts over all calls of all workers. */
  lemma AtMostOnceWithoutRollback(now: int, steps: seq<Step>, s: State)
    requires Reaches(Init(now), steps, s)
    requires forall k :: 0 <= k < |steps| ==> !steps[k].Rollback?
    ensures forall i :: s.deliveries[i] == if IsSent(s, i) then 1 else 0
    ensures s.attempts <= MAX_ATTEMPTS * |s.rows|
  {
    RunKeeps(Init(now), steps, s);
    NothingForgotten(Init(now), steps, s);
    OutboxSafety(now, steps, s);
  }

  lemma {:induction false} ReachesThen(s: State, xs: seq<Step>, m: State, ys: seq<Step>, t: State)
    requires Reaches(s, xs, m) && Reaches(m, ys, t)
    ensures Reaches(s, xs + ys, t)
    decreases |xs|
  {
    if |xs| == 0 {
      assert xs + ys == ys;
    } else {
      ReachesThen(Apply(s, xs[0]), xs[1..], m, ys, t);
      assert (xs + ys)[1..] == xs[1..] + ys;
    }
  }

  // ---------- Where rollbacks break at-most-once ----------

  function FreshRow(): Row {
    Row(Email, 0, Queued, 0, None)
  }

  /** An outbox whose one row, i, is due, unsent and not locked. */
  ghost predicate Idle(s: State, i: nat) {
    s.rows == map[i := FreshRow()] && s.locks == map[] && s.txns == map[] && s.now == 0
  }

  /** An idle outbox after worker w has picked and sent the row, without committing. */
  function AfterSending(s: State, i: nat, w: nat): State {
    s.(locks := map[i := Lock(w, Settle(FreshRow(), None))], txns := map[w := Txn([i], 1, 1, 0, [])],
       deliveries := s.deliveries + multiset{i}, attempts := s.attempts + 1)
  }

  lemma OneStep(s: State, step: Step, rest: seq<Step>, t: State) returns (steps: seq<Step>)
    requires Enabled(s, step) && Reaches(Apply(s, step), rest, t)
    ensures Reaches(s, steps, t)
  {
    steps := [step] + rest;
    assert steps[1..] == rest;
  }

  lemma PickOne(s: State, i: nat, w: nat)
    requires Idle(s, i)
    ensures Enabled(s, Pick(w, 10, [i]))
    ensures Apply(s, Pick(w, 10, [i]))
         == s.(locks := map[i := Lock(w, FreshRow().(status := Processing))], txns := map[w := Txn([i], 0, 0, 0, [])])
  {
    assert IsBatch(s.rows, {}, 0, 10, [i]);
  }

  lemma SendOne(s: State, i: nat, w: nat)
    requires s.locks == map[i := Lock(w, FreshRow().(status := Processing))]
    requires s.txns == map[w := Txn([i], 0, 0, 0, [])]
    ensures Enabled(s, Process(w, None)) && Apply(s, Process(w, None)) == AfterSending(s, i, w)
  {
  }

  lemma PickAndSend(s: State, i: nat, w: nat, rest: seq<Step>, t: State) returns (steps: seq<Step>)
    requires Idle(s, i) && Reaches(AfterSending(s, i, w), rest, t)
    ensures Reaches(s, steps, t)
  {
    hide Reaches;
    PickOne(s, i, w);
    var picked := Apply(s, Pick(w, 10, [i]));
    SendOne(picked, i, w);
    assert AfterSending(picked, i, w) == AfterSending(s, i, w);
    steps := OneStep(picked, Process(w, None), rest, t);
    steps := OneStep(s, Pick(w, 10, [i]), steps, t);
  }

  lemma ForgetOne(s: State, i: nat, w: nat)
    requires Idle(s, i)
    ensures var sent := AfterSending(s, i, w);
            Enabled(sent, Rollback(w)) && Idle(Apply(sent, Rollback(w)), i)
            && Apply(sent, Rollback(w)).deliveries == s.deliveries + multiset{i}
  {
    assert Released(AfterSending(s, i, w), w) == map[];
  }

  /** A rollback after a successful send lets another worker deliver the same row again. */
  lemma RollbackRedelivers(i: nat) returns (steps: seq<Step>, s: State)
    ensures Reaches(Init(0), steps, s) && s.deliveries[i] == 2
  {
    hide IsBatch, Released;
    var s0 := Apply(Init(0), Enqueue(i, FreshRow()));
    ForgetOne(s0, i, 1);
    var s1 := Apply(AfterSending(s0, i, 1), Rollback(1));
    s := AfterSending(s1, i, 2);
    steps := PickAndSend(s1, i, 2, [], s);
    steps := OneStep(AfterSending(s0, i, 1), Rollback(1), steps, s);
    steps := PickAndSend(s0, i, 1, steps, s);
    steps := OneStep(Init(0), Enqueue(i, FreshRow()), steps, s);
  }

  // ---------- One call is one transaction of the machine ----------

  /** Whatever other workers hold, an uninterrupted call of worker w leaves the committed table as
      the sequential specification says: its own rows settled, every other row as it was. */
  lemma CallIsATransaction(s: State, w: nat, max: nat, batch: seq<nat>, mail: Mailer) returns (s': State)
    requires Inv(s) && Enabled(s, Pick(w, max, batch))
    ensures Reaches(s, [Pick(w, max, batch)] + Sends(w, batch, mail) + [Commit(w)], s')
    ensures s'.rows == Delivered(s.rows, batch, mail) && s'.locks == s.locks && s'.txns == s.txns
  {
    hide IsBatch, Sends, AllSent, Owns, AfterPick, Delivered;
    var s1 := Apply(s, Pick(w, max, batch));
    BatchFacts(s.rows, s.locks.Keys, s.now, max, batch);
    var s2 := PickedSendsRun(s, w, batch, mail);
    s' := Apply(s2, Commit(w));
    CommitDelivers(s, w, batch, mail, s2);
    assert Reaches(s2, [Commit(w)], s');
    ReachesThen(s1, Sends(w, batch, mail), s2, [Commit(w)], s');
    assert ([Pick(w, max, batch)] + Sends(w, batch, mail) + [Commit(w)])[1..] == Sends(w, batch, mail) + [Commit(w)];
  }

  function Sends(w: nat, batch: seq<nat>, mail: Mailer): (r: seq<Step>)
    ensures |r| == |batch|
  {
    seq(|batch|, k requires 0 <= k < |batch| => Process(w, mail(batch[k])))
  }

  /** All of w's rows settled and nobody else's touched. */
  ghost predicate AllSent(s: State, w: nat, batch: seq<nat>, mail: Mailer, s2: State) {
    && s2.rows == s.rows && s2.locks.Keys == s.locks.Keys + Members(batch)
    && s2.txns.Keys == s.txns.Keys + {w} && s2.txns[w].batch == batch && s2.txns[w].done == |batch|
    && (forall v :: v in s.txns && v != w ==> s2.txns[v] == s.txns[v])
    && (forall i :: i in s.locks ==> s2.locks[i] == s.locks[i])
    && (forall i :: i in batch ==>
          i in s.rows && s2.locks[i] == Lock(w, Settle(s.rows[i].(status := Processing), mail(i))))
  }

  lemma PickedSendsRun(s: State, w: nat, batch: seq<nat>, mail: Mailer) returns (s2: State)
    requires w !in s.txns && Pickable(s.rows, s.locks.Keys, batch)
    ensures Reaches(AfterPick(s, w, batch), Sends(w, batch, mail), s2)
    ensures AllSent(s, w, batch, mail, s2)
    ensures Enabled(s2, Commit(w))
  {
    hide Settle, Reaches, AfterPick, Pickable, Sends;
    var s1 := AfterPick(s, w, batch);
    PickedLocks(s, w, batch);
    s2 := SendsRun(s1, w, batch, mail, 0);
    forall i | i in batch ensures s2.locks[i] == Lock(w, Settle(s.rows[i].(status := Processing), mail(i))) {
      var a :| 0 <= a < |batch| && batch[a] == i;
    }
    assert Sends(w, batch, mail)[0..] == Sends(w, batch, mail);
  }

  lemma PickedLocks(s: State, w: nat, batch: seq<nat>)
    requires w !in s.txns && Pickable(s.rows, s.locks.Keys, batch)
    ensures var s1 := AfterPick(s, w, batch);
            && s1.rows == s.rows && s1.txns == s.txns[w := Txn(batch, 0, 0, 0, [])]
            && s1.locks.Keys == s.locks.Keys + Members(batch)
            && (forall i :: i in s.locks ==> s1.locks[i] == s.locks[i] && i !in batch)
            && (forall i :: i in batch ==> i in s.rows && s1.locks[i] == Lock(w, s.rows[i].(status := Processing)))
            && (forall a :: 0 <= a < |batch| ==> HeldBy(s1, batch[a], w))
            && (forall a, b :: 0 <= a < b < |batch| ==> batch[a] != batch[b])
  {
    assert forall k :: 0 <= k < |batch| ==> batch[k] in batch;
  }

  lemma MarkDoesNotMatter(r: Row, outcome: Option<string>)
    ensures Settle(r.(status := Processing), outcome) == Settle(r, outcome)
  {
  }

  lemma CommitDelivers(s: State, w: nat, batch: seq<nat>, mail: Mailer, s2: State)
    requires w !in s.txns && Pickable(s.rows, s.locks.Keys, batch) && AllSent(s, w, batch, mail, s2)
    requires forall i :: i in s.locks ==> s.locks[i].worker in s.txns
    ensures var s' := Apply(s2, Commit(w));
            s'.rows == Delivered(s.rows, batch, mail) && s'.locks == s.locks && s'.txns == s.txns
  {
    hide Settle, Owns;
    forall i | i in s2.locks ensures HeldBy(s2, i, w) <==> i in batch {
      assert i in s.locks || i in Members(batch);
    }
    forall i | i in batch ensures Settle(s.rows[i].(status := Processing), mail(i)) == Settle(s.rows[i], mail(i)) {
      MarkDoesNotMatter(s.rows[i], mail(i));
    }
    assert s2.txns - {w} == s.txns;
    assert Released(s2, w) == s.locks;
  }

  /** From s to s', worker w settled exactly the rows of its batch from position k on. */
  ghost predicate SettledFrom(s: State, s': State, w: nat, batch: seq<nat>, mail: Mailer, k: nat) {
    && s'.rows == s.rows && s'.locks.Keys == s.locks.Keys
    && s'.txns.Keys == s.txns.Keys && w in s.txns && s'.txns[w].batch == batch && s'.txns[w].done == |batch|
    && (forall v :: v in s.txns && v != w ==> s'.txns[v] == s.txns[v])
    && (forall i :: i in s.locks && i !in batch ==> s'.locks[i] == s.locks[i])
    && (forall a :: 0 <= a < |batch| && batch[a] in s.locks ==>
          s'.locks[batch[a]] == if a < k then s.locks[batch[a]]
                                else Lock(w, Settle(s.locks[batch[a]].version, mail(batch[a]))))
  }

  lemma {:induction false} SendsRun(s: State, w: nat, batch: seq<nat>, mail: Mailer, k: nat) returns (s': State)
    requires w in s.txns && s.txns[w].batch == batch && s.txns[w].done == k <= |batch|
    requires forall a, b :: 0 <= a < b < |batch| ==> batch[a] != batch[b]
    requires forall a :: 0 <= a < |batch| ==> HeldBy(s, batch[a], w)
    ensures Reaches(s, Sends(w, batch, mail)[k..], s') && SettledFrom(s, s', w, batch, mail, k)
    decreases |batch| - k
  {
    if k == |batch| {
      s' := s;
    } else {
      var s1 := AfterProcess(s, w, mail(batch[k]));
      OneSend(s, w, batch, mail, k);
      s' := SendsRun(s1, w, batch, mail, k + 1);
      SettledBefore(s, s1, s', w, batch, mail, k);
      var rest := Sends(w, batch, mail)[k..];
      assert rest[0] == Process(w, mail(batch[k])) && rest[1..] == Sends(w, batch, mail)[k + 1..];
    }
  }

  lemma OneSend(s: State, w: nat, batch: seq<nat>, mail: Mailer, k: nat)
    requires w in s.txns && s.txns[w].batch == batch && s.txns[w].done == k < |batch|
    requires forall a :: 0 <= a < |batch| ==> HeldBy(s, batch[a], w)
    ensures var s1 := AfterProcess(s, w, mail(batch[k]));
            && s1.rows == s.rows && s1.txns.Keys == s.txns.Keys
            && s1.txns[w].batch == batch && s1.txns[w].done == k + 1
            && (forall v :: v in s.txns && v != w ==> s1.txns[v] == s.txns[v])
            && batch[k] in s.locks
            && s1.locks == s.locks[batch[k] := Lock(w, Settle(s.locks[batch[k]].version, mail(batch[k])))]
            && (forall a :: 0 <= a < |batch| ==> HeldBy(s1, batch[a], w))
  {
    assert HeldBy(s, batch[k], w);
  }

  lemma SettledBefore(s: State, s1: State, s': State, w: nat, batch: seq<nat>, mail: Mailer, k: nat)
    requires k < |batch| && forall a, b :: 0 <= a < b < |batch| ==> batch[a] != batch[b]
    requires s1.rows == s.rows && s1.txns.Keys == s.txns.Keys
    requires forall v :: v in s.txns && v != w ==> s1.txns[v] == s.txns[v]
    requires batch[k] in s.locks
    requires s1.locks == s.locks[batch[k] := Lock(w, Settle(s.locks[batch[k]].version, mail(batch[k])))]
    requires SettledFrom(s1, s', w, batch, mail, k + 1)
    ensures SettledFrom(s, s', w, batch, mail, k)
  {
    assert batch[k] in batch && s1.locks.Keys == s.locks.Keys;
  }
}
