/**
  The nudges outbox and its delivery worker, one call at a time.

  Rows are keyed by id; instants are integers. The mail server is an environment choice: for each
  row it either accepts the message or returns an error text.
*/
module Outbox {
  import opened Wrappers
  import opened Sums

  datatype Channel = Email | Sms
  datatype Status = Queued | Processing | Sent | Failed

  datatype Row = Row(channel: Channel, sendAfter: int, status: Status, attempts: nat, lastError: Option<string>)

  type Table = map<nat, Row>
  type Mailer = nat -> Option<string>

  const MAX_ATTEMPTS: nat := 5

  /** What a committed row may look like; the organisation portal records messages as sent without an attempt. */
  predicate Legal(r: Row) {
    match r.status
    case Queued => r.attempts < MAX_ATTEMPTS
    case Processing => false
    case Sent => r.attempts <= MAX_ATTEMPTS
    case Failed => r.attempts == MAX_ATTEMPTS
  }

  /** Recorded as sent by the portal, not by a worker. */
  predicate Posted(r: Row) {
    r.status == Sent && r.attempts == 0
  }

  /** Sent by a worker. */
  predicate Worked(r: Row) {
    r.status == Sent && !Posted(r)
  }

  predicate Eligible(r: Row, now: int) {
    r.status == Queued && r.channel == Email && r.sendAfter <= now
  }

  /** ORDER BY send_after, id. */
  predicate Precedes(rows: Table, i: nat, j: nat)
    requires i in rows && j in rows
  {
    rows[i].sendAfter < rows[j].sendAfter || (rows[i].sendAfter == rows[j].sendAfter && i < j)
  }

  /** The ids that `SELECT ... ORDER BY send_after, id FOR UPDATE SKIP LOCKED LIMIT max` returns
      when the rows in `locked` are held by other transactions. */
  ghost predicate IsBatch(rows: Table, locked: set<nat>, now: int, max: nat, batch: seq<nat>) {
    && |batch| <= max
    && (forall i :: i in batch ==> i in rows && i !in locked && Eligible(rows[i], now))
    && (forall a, b :: 0 <= a < b < |batch| ==> Precedes(rows, batch[a], batch[b]))
    && (forall i :: i in rows && i !in locked && Eligible(rows[i], now) && i !in batch ==>
          |batch| == max && forall b :: b in batch ==> Precedes(rows, b, i))
  }

  /** A row after one attempt: sent, or one attempt closer to failing for good. */
  function Settle(r: Row, outcome: Option<string>): (r': Row)
    ensures r.attempts < MAX_ATTEMPTS ==> Legal(r') && !Posted(r')
  {
    match outcome
    case None => r.(status := Sent, attempts := r.attempts + 1, lastError := None)
    case Some(_) =>
      r.(attempts := r.attempts + 1,
         status := if r.attempts + 1 >= MAX_ATTEMPTS then Failed else Queued,
         lastError := outcome)
  }

  function Delivered(rows: Table, batch: seq<nat>, mail: Mailer): Table {
    map i | i in rows :: if i in batch then Settle(rows[i], mail(i)) else rows[i]
  }

  datatype Report = Report(picked: nat, sent: nat, failed: nat, errors: seq<(nat, string)>)

  /** The failures of a batch with their error texts, in batch order. */
  function Failures(batch: seq<nat>, mail: Mailer): (r: seq<(nat, string)>)
    ensures |r| <= |batch|
  {
    if |batch| == 0 then []
    else
      var last := batch[|batch| - 1];
      Failures(batch[..|batch| - 1], mail)
      + match mail(last) case None => [] case Some(e) => [(last, e)]
  }

  class NudgesOutbox {
    var rows: Table

    /** One run of the worker: lock and mark a batch, try each row, commit. The batch is what the
        database's locking select returns; `dbFailsAt` is the row at which a bookkeeping query
        fails, |batch| standing for COMMIT, or None. */
    method DeliverQueuedNudges(now: int, max: nat, batch: seq<nat>, mail: Mailer, dbFailsAt: Option<nat>)
      returns (r: Result<Report, ()>)
      requires IsBatch(rows, {}, now, max, batch)
      modifies this
      ensures r.Err? <==> dbFailsAt.Some? && dbFailsAt.value <= |batch|
      ensures r.Err? ==> rows == old(rows)
      ensures r.Ok? ==> rows == Delivered(old(rows), batch, mail)
      ensures r.Ok? ==> Accounted(r.value, batch, mail)
      ensures forall i | i in old(rows)
                && (old(rows)[i].status != Queued || old(rows)[i].channel != Email || old(rows)[i].sendAfter > now) ::
                i in rows && rows[i] == old(rows)[i]
      ensures r.Ok? ==> forall i :: i in old(rows) && i in batch ==>
                i in rows && rows[i].attempts == old(rows)[i].attempts + 1
                && rows[i].status == match mail(i) case None => Sent
                                     case Some(_) => if old(rows)[i].attempts < 4 then Queued else Failed
    {
      var marked: Table := map i | i in rows :: if i in batch then rows[i].(status := Processing) else rows[i];
      var processed := ProcessRows(marked, batch, mail, dbFailsAt);
      if processed.Err? || dbFailsAt == Some(|batch|) {
        return Err(());
      }
      rows := processed.value.0;
      return Ok(processed.value.1);
    }
  }

  /** picked = sent + failed, and the error list names exactly the failures, in batch order. */
  predicate Accounted(r: Report, batch: seq<nat>, mail: Mailer) {
    r.picked == |batch| == r.sent + r.failed && r.failed == |r.errors| && r.errors == Failures(batch, mail)
  }

  /** The per-row loop, on the transaction's own version of the table. */
  method ProcessRows(marked: Table, batch: seq<nat>, mail: Mailer, dbFailsAt: Option<nat>)
    returns (r: Result<(Table, Report), ()>)
    requires forall i :: i in batch ==> i in marked
    requires forall a, b :: 0 <= a < b < |batch| ==> batch[a] != batch[b]
    ensures r.Err? <==> dbFailsAt.Some? && dbFailsAt.value < |batch|
    ensures r.Ok? ==> r.value.0 == Delivered(marked, batch, mail) && Accounted(r.value.1, batch, mail)
  {
    var txn := marked;
    var sent, failed := 0, 0;
    var errors := [];
    hide Settle;
    DeliveredNone(marked, batch, mail);
    for k := 0 to |batch|
      invariant dbFailsAt.Some? ==> k <= dbFailsAt.value
      invariant sent + failed == k && failed == |errors|
      invariant errors == Failures(batch[..k], mail)
      invariant txn == Delivered(marked, batch[..k], mail)
    {
      if dbFailsAt == Some(k) {
        return Err(());
      }
      var id := batch[k];
      hide Delivered, Failures;
      DeliveredNext(marked, batch, mail, k);
      match mail(id) {
        case None => sent := sent + 1;
        case Some(e) => failed, errors := failed + 1, errors + [(id, e)];
      }
      txn := txn[id := Settle(txn[id], mail(id))];
    }
    assert batch[..|batch|] == batch;
    return Ok((txn, Report(|batch|, sent, failed, errors)));
  }

  lemma DeliveredNone(rows: Table, batch: seq<nat>, mail: Mailer)
    ensures Delivered(rows, batch[..0], mail) == rows && Failures(batch[..0], mail) == []
  {
  }

  lemma DeliveredNext(rows: Table, batch: seq<nat>, mail: Mailer, k: nat)
    requires k < |batch| && batch[k] in rows
    requires forall a, b :: 0 <= a < b < |batch| ==> batch[a] != batch[b]
    ensures var id, before := batch[k], Delivered(rows, batch[..k], mail);
            && id in before && Delivered(rows, batch[..k + 1], mail) == before[id := Settle(before[id], mail(id))]
            && Failures(batch[..k + 1], mail) ==
               Failures(batch[..k], mail) + match mail(id) case None => [] case Some(e) => [(id, e)]
  {
    hide Settle;
    assert batch[..k + 1] == batch[..k] + [batch[k]];
    assert batch[..k + 1][..k] == batch[..k];
  }

  // ---------- Which rows are picked ----------

  /** The rows a worker may be due to send before row j, or at all: by the columns alone. */
  ghost function DueBefore(rows: Table, locked: set<nat>, now: int, j: nat): set<nat>
    requires j in rows
  {
    set i | i in rows && i !in locked
            && rows[i].status == Queued && rows[i].channel == Email && rows[i].sendAfter <= now
            && (rows[i].sendAfter < rows[j].sendAfter || (rows[i].sendAfter == rows[j].sendAfter && i < j))
  }

  /** A row is picked exactly when it is a queued, due, unlocked email and fewer than max such rows come
      before it, by time and then by id. */
  lemma PickedIff(rows: Table, locked: set<nat>, now: int, max: nat, batch: seq<nat>, j: nat)
    requires IsBatch(rows, locked, now, max, batch) && j in rows
    ensures j in batch <==>
            j !in locked && rows[j].status == Queued && rows[j].channel == Email && rows[j].sendAfter <= now
            && |DueBefore(rows, locked, now, j)| < max
  {
    DistinctSize(rows, batch);
    var before := DueBefore(rows, locked, now, j);
    if j in batch {
      assert before <= Members(batch) - {j};
      SubsetSize(before, Members(batch) - {j});
    } else if j !in locked && Eligible(rows[j], now) {
      SubsetSize(Members(batch), before);
    }
  }

  /** They are picked in that order. */
  lemma PickedInOrder(rows: Table, locked: set<nat>, now: int, max: nat, batch: seq<nat>, a: nat, b: nat)
    requires IsBatch(rows, locked, now, max, batch) && a < b < |batch|
    ensures var x, y := rows[batch[a]], rows[batch[b]];
            x.sendAfter < y.sendAfter || (x.sendAfter == y.sendAfter && batch[a] < batch[b])
  {
    assert Precedes(rows, batch[a], batch[b]);
  }

  // ---------- The batch is well defined ----------

  ghost function Members(b: seq<nat>): set<nat> {
    set i | i in b
  }

  ghost function Waiting(rows: Table, locked: set<nat>, now: int): set<nat> {
    set i | i in rows && i !in locked && Eligible(rows[i], now)
  }

  lemma {:induction false} Earliest(rows: Table, s: set<nat>) returns (e: nat)
    requires s != {} && s <= rows.Keys
    ensures e in s && forall i :: i in s && i != e ==> Precedes(rows, e, i)
    decreases s
  {
    e :| e in s;
    if s != {e} {
      var e' := Earliest(rows, s - {e});
      forall i | i in s && i != e && i != e' ensures Precedes(rows, e', i) {
        assert i in s - {e};
      }
      if Precedes(rows, e', e) {
        e := e';
      }
    }
  }

  /** Some batch always answers the select ... */
  lemma {:induction false} BatchExists(rows: Table, locked: set<nat>, now: int, max: nat) returns (batch: seq<nat>)
    ensures IsBatch(rows, locked, now, max, batch)
    decreases max
  {
    if max == 0 {
      batch := [];
    } else {
      batch := BatchExists(rows, locked, now, max - 1);
      var rest := Waiting(rows, locked, now) - Members(batch);
      assert forall i :: i in Waiting(rows, locked, now) && i !in batch ==> i in rest;
      if rest != {} {
        var e := Earliest(rows, rest);
        batch := batch + [e];
      }
    }
  }

  /** ... and only one does. */
  lemma BatchUnique(rows: Table, locked: set<nat>, now: int, max: nat, b1: seq<nat>, b2: seq<nat>)
    requires IsBatch(rows, locked, now, max, b1) && IsBatch(rows, locked, now, max, b2)
    ensures b1 == b2
  {
    SameElements(rows, locked, now, max, b1, b2);
    SameElements(rows, locked, now, max, b2, b1);
    DistinctSize(rows, b1);
    DistinctSize(rows, b2);
    assert Members(b1) == Members(b2);
    SortedUnique(rows, b1, b2);
  }

  lemma SameElements(rows: Table, locked: set<nat>, now: int, max: nat, b1: seq<nat>, b2: seq<nat>)
    requires IsBatch(rows, locked, now, max, b1) && IsBatch(rows, locked, now, max, b2)
    ensures forall i :: i in b1 ==> i in b2
  {
    if x :| x in b1 && x !in b2 {
      var s1, s2 := Members(b1), Members(b2);
      DistinctSize(rows, b1);
      DistinctSize(rows, b2);
      if s2 <= s1 {
        assert s2 <= s1 - {x};
        SubsetSize(s2, s1 - {x});
      }
      assert false;
    }
  }

  lemma {:induction false} DistinctSize(rows: Table, b: seq<nat>)
    requires forall i :: i in b ==> i in rows
    requires forall i, j :: 0 <= i < j < |b| ==> Precedes(rows, b[i], b[j])
    ensures |Members(b)| == |b|
  {
    if |b| > 0 {
      var init := b[..|b| - 1];
      DistinctSize(rows, init);
      assert b == init + [b[|b| - 1]];
      assert forall k :: 0 <= k < |init| ==> Precedes(rows, b[k], b[|b| - 1]) && init[k] == b[k];
      assert b[|b| - 1] !in init;
      var earlier := Members(init);
      assert Members(b) == earlier + {b[|b| - 1]};
      assert b[|b| - 1] !in earlier;
    }
  }

  lemma {:induction false} SortedUnique(rows: Table, b1: seq<nat>, b2: seq<nat>)
    requires |b1| == |b2| && forall i :: i in b1 <==> i in b2
    requires forall i :: i in b1 ==> i in rows
    requires forall i, j :: 0 <= i < j < |b1| ==> Precedes(rows, b1[i], b1[j])
    requires forall i, j :: 0 <= i < j < |b2| ==> Precedes(rows, b2[i], b2[j])
    ensures b1 == b2
  {
    if |b1| > 0 {
      assert b1[0] in b2 && b2[0] in b1;
      assert b1[0] == b2[0];
      assert forall i :: i in b1[1..] <==> i in b1 && i != b1[0];
      assert forall i :: i in b2[1..] <==> i in b2 && i != b2[0];
      SortedUnique(rows, b1[1..], b2[1..]);
    }
  }
}
