/** How soon a single delivery worker gets to a row, and that it drains what is due. */
module OutboxProgress {
  import opened Sums
  import opened Outbox

  datatype Call = Call(now: int, max: nat, batch: seq<nat>, mail: Mailer)

  ghost predicate AllLegal(rows: Table) {
    forall i :: i in rows ==> Legal(rows[i])
  }

  /** Send attempts a row can still cause. */
  function Remaining(r: Row): nat {
    if r.status == Queued && r.channel == Email && r.attempts < MAX_ATTEMPTS then MAX_ATTEMPTS - r.attempts else 0
  }

  ghost function Left(rows: Table, s: set<nat>): int {
    Sum(s, RemainingAt(rows))
  }

  ghost function RemainingAt(rows: Table): nat -> int {
    i => if i in rows then Remaining(rows[i]) else 0
  }

  lemma LeftNonNegative(rows: Table, s: set<nat>)
    ensures Left(rows, s) >= 0
  {
    Constant(s, (i: nat) => 0, 0);
    AtMost(s, (i: nat) => 0, RemainingAt(rows));
  }

  lemma FullBudget(rows: Table, s: set<nat>)
    ensures Left(rows, s) <= MAX_ATTEMPTS * |s|
  {
    Constant(s, (i: nat) => MAX_ATTEMPTS, MAX_ATTEMPTS);
    AtMost(s, RemainingAt(rows), (i: nat) => MAX_ATTEMPTS);
  }

  /** Every picked row uses up at least one of its attempts, whatever the mail server does. */
  lemma CallUsesAttempts(rows: Table, c: Call, s: set<nat>)
    requires AllLegal(rows) && IsBatch(rows, {}, c.now, c.max, c.batch)
    requires Members(c.batch) <= s <= rows.Keys
    ensures AllLegal(Delivered(rows, c.batch, c.mail))
    ensures Left(Delivered(rows, c.batch, c.mail), s) <= Left(rows, s) - |c.batch|
  {
    DistinctSize(rows, c.batch);
    DropsBy(s, Members(c.batch), RemainingAt(rows), RemainingAt(Delivered(rows, c.batch, c.mail)));
  }

  // ---------- Bounded progress ----------

  predicate UpTo(rows: Table, i: nat, t: nat)
    requires t in rows
  {
    i in rows && (i == t || Precedes(rows, i, t))
  }

  /** The two tables agree on t and on every row ordered before it; rows after t are unconstrained,
      so later rows may be inserted or changed between calls. */
  ghost predicate SameUpTo(a: Table, b: Table, t: nat) {
    && t in a && t in b
    && forall i :: UpTo(a, i, t) || UpTo(b, i, t) ==> i in a && i in b && a[i] == b[i]
  }

  /** states[n] is the table before calls[n]; no call rolls back and no earlier row is inserted. */
  ghost predicate WorkerRun(states: seq<Table>, calls: seq<Call>, t: nat) {
    && |states| == |calls| + 1
    && (forall n :: 0 <= n < |states| ==> AllLegal(states[n]) && t in states[n])
    && (forall n {:trigger calls[n]} :: 0 <= n < |calls| ==>
          && IsBatch(states[n], {}, calls[n].now, calls[n].max, calls[n].batch)
          && SameUpTo(Delivered(states[n], calls[n].batch, calls[n].mail), states[n + 1], t)
          && calls[0].now <= calls[n].now)
  }

  ghost function DueAhead(rows: Table, t: nat, now: int): set<nat>
    requires t in rows
  {
    set i | i in rows && Precedes(rows, i, t) && Eligible(rows[i], now)
  }

  ghost function Ahead(rows: Table, t: nat): set<nat>
    requires t in rows
  {
    set i | i in rows && Precedes(rows, i, t)
  }

  lemma InitiallyAtMost(rows: Table, t: nat, now: int)
    requires t in rows && Eligible(rows[t], now)
    ensures Left(rows, Ahead(rows, t)) <= MAX_ATTEMPTS * |DueAhead(rows, t, now)|
  {
    var ahead, due := Ahead(rows, t), DueAhead(rows, t, now);
    Split(ahead, due, RemainingAt(rows));
    Constant(ahead - due, RemainingAt(rows), 0);
    FullBudget(rows, due);
  }

  lemma SameAhead(a: Table, b: Table, t: nat)
    requires SameUpTo(a, b, t)
    ensures a[t] == b[t] && Ahead(a, t) == Ahead(b, t)
    ensures Left(a, Ahead(a, t)) == Left(b, Ahead(b, t))
  {
    assert UpTo(a, t, t);
    forall i ensures i in Ahead(a, t) <==> i in Ahead(b, t) {
      assert UpTo(a, i, t) || UpTo(b, i, t) ==> i in a && i in b && a[i] == b[i];
    }
    forall i | i in Ahead(a, t) ensures RemainingAt(a)(i) == RemainingAt(b)(i) {
      assert UpTo(a, i, t);
    }
    Congruent(Ahead(a, t), RemainingAt(a), RemainingAt(b));
  }

  /** A call that passes over an eligible t fills its whole batch with rows ahead of t. */
  lemma PassedOver(rows: Table, c: Call, t: nat)
    requires AllLegal(rows) && IsBatch(rows, {}, c.now, c.max, c.batch)
    requires t in rows && Eligible(rows[t], c.now) && t !in c.batch
    ensures var after := Delivered(rows, c.batch, c.mail);
            && after[t] == rows[t] && Ahead(after, t) == Ahead(rows, t)
            && Left(after, Ahead(rows, t)) <= Left(rows, Ahead(rows, t)) - c.max
  {
    assert Members(c.batch) <= Ahead(rows, t);
    CallUsesAttempts(rows, c, Ahead(rows, t));
  }

  lemma Distribute(n: int, m: int)
    ensures n * m == (n - 1) * m + m
  {
  }

  /** While t has not been picked, every call has spent `max` attempts on rows ahead of it. */
  lemma {:induction false} WaitingIsPaidFor(states: seq<Table>, calls: seq<Call>, t: nat, max: nat, n: nat)
    requires WorkerRun(states, calls, t) && n <= |calls|
    requires |calls| > 0 && Eligible(states[0][t], calls[0].now)
    requires forall m :: 0 <= m < |calls| ==> calls[m].max == max
    requires forall m :: 0 <= m < n ==> t !in calls[m].batch
    ensures states[n][t] == states[0][t]
    ensures Left(states[n], Ahead(states[n], t)) + n * max <= MAX_ATTEMPTS * |DueAhead(states[0], t, calls[0].now)|
    decreases n
  {
    if n == 0 {
      InitiallyAtMost(states[0], t, calls[0].now);
    } else {
      WaitingIsPaidFor(states, calls, t, max, n - 1);
      PassedOver(states[n - 1], calls[n - 1], t);
      SameAhead(Delivered(states[n - 1], calls[n - 1].batch, calls[n - 1].mail), states[n], t);
      assert n * max == (n - 1) * max + max by { Distribute(n, max); }
    }
  }

  lemma CallsCover(k: nat, max: nat)
    requires max >= 1
    ensures (k / max + 1) * max > k
  {
  }

  /** A due email row with k due rows ahead of it is picked within 5k/max + 1 calls, however the
      mail server behaves: failing rows stay at the head, but for five attempts at most. */
  lemma PickedWithin(states: seq<Table>, calls: seq<Call>, t: nat, max: nat)
    requires WorkerRun(states, calls, t)
    requires |calls| > 0 && Eligible(states[0][t], calls[0].now)
    requires max >= 1 && forall m :: 0 <= m < |calls| ==> calls[m].max == max
    requires |calls| == MAX_ATTEMPTS * |DueAhead(states[0], t, calls[0].now)| / max + 1
    ensures exists n :: 0 <= n < |calls| && t in calls[n].batch
  {
    hide Left, Ahead, DueAhead;
    var k := MAX_ATTEMPTS * |DueAhead(states[0], t, calls[0].now)|;
    CallsCover(k, max);
    if forall n :: 0 <= n < |calls| ==> t !in calls[n].batch {
      LeftNonNegative(states[|calls|], Ahead(states[|calls|], t));
      WaitingIsPaidFor(states, calls, t, max, |calls|);
      assert false;
    }
  }

  // ---------- Draining ----------

  /** A run from instant `start` on over a fixed set of rows. */
  ghost predicate ClosedRun(states: seq<Table>, calls: seq<Call>, start: int) {
    && |states| == |calls| + 1
    && AllLegal(states[0])
    && (forall n {:trigger calls[n]} :: 0 <= n < |calls| ==>
          && IsBatch(states[n], {}, calls[n].now, calls[n].max, calls[n].batch)
          && calls[n].max >= 1
          && start <= calls[n].now
          && states[n + 1] == Delivered(states[n], calls[n].batch, calls[n].mail))
  }

  /** Send attempts made by the first n calls. */
  function Attempts(calls: seq<Call>, n: nat): nat
    requires n <= |calls|
  {
    if n == 0 then 0 else Attempts(calls, n - 1) + |calls[n - 1].batch|
  }

  lemma CallUsesBudget(rows: Table, c: Call)
    requires AllLegal(rows) && IsBatch(rows, {}, c.now, c.max, c.batch)
    ensures var after := Delivered(rows, c.batch, c.mail);
            AllLegal(after) && after.Keys == rows.Keys && Left(after, after.Keys) + |c.batch| <= Left(rows, rows.Keys)
  {
    CallUsesAttempts(rows, c, rows.Keys);
  }

  lemma {:induction false} RunStaysLegal(states: seq<Table>, calls: seq<Call>, start: int, n: nat)
    requires ClosedRun(states, calls, start) && n <= |calls|
    ensures AllLegal(states[n])
    decreases n
  {
    if n > 0 {
      var c := calls[n - 1];
      RunStaysLegal(states, calls, start, n - 1);
      CallUsesBudget(states[n - 1], c);
    }
  }

  lemma {:induction false} RunSpendsAttempts(states: seq<Table>, calls: seq<Call>, start: int, n: nat)
    requires ClosedRun(states, calls, start) && n <= |calls|
    ensures Attempts(calls, n) + Left(states[n], states[n].Keys) <= MAX_ATTEMPTS * |states[0]|
    decreases n
  {
    if n == 0 {
      FullBudget(states[0], states[0].Keys);
    } else {
      RunStaysLegal(states, calls, start, n - 1);
      var c := calls[n - 1];
      CallUsesBudget(states[n - 1], c);
      RunSpendsAttempts(states, calls, start, n - 1);
    }
  }

  /** A row that is still due after a call was due before it, and a call that did not fill its batch picked it. */
  lemma CallIsPaidFor(rows: Table, c: Call, start: int, i: nat)
    requires IsBatch(rows, {}, c.now, c.max, c.batch) && start <= c.now
    requires i in rows && Eligible(Delivered(rows, c.batch, c.mail)[i], start)
    ensures Eligible(rows[i], start) && |c.batch| <= c.max
    ensures Delivered(rows, c.batch, c.mail)[i].attempts >= rows[i].attempts + if |c.batch| < c.max then 1 else 0
    ensures |c.batch| < c.max ==> |c.batch| >= 1
  {
  }

  lemma Monotone(x: int, y: int, m: nat)
    requires x <= y
    ensures x * m <= y * m
  {
  }

  /** One more call, of max attempts, or of one at least and one more on the row. */
  lemma OneMoreCall(n: int, max: nat, attempts: int, batch: nat, x: int, y: int)
    requires max >= 1 && (n - 1) * max <= attempts + x * (max - 1)
    requires (batch >= max && y >= x) || (batch >= 1 && y >= x + 1)
    ensures n * max <= attempts + batch + y * (max - 1)
  {
    Distribute(n, max);
    if batch >= max && y >= x {
      Monotone(x, y, max - 1);
    } else {
      Monotone(x + 1, y, max - 1);
      Distribute(x + 1, max - 1);
    }
  }

  /** While a row stays due, each call has made max attempts, or one at least and one more on that row. */
  lemma {:induction false} UndrainedRunIsPaidFor(
    states: seq<Table>, calls: seq<Call>, start: int, max: nat, n: nat, i: nat)
    requires ClosedRun(states, calls, start) && n <= |calls| && i in states[n] && Eligible(states[n][i], start)
    requires max >= 1 && forall m :: 0 <= m < n ==> calls[m].max >= max
    ensures i in states[0] && Eligible(states[0][i], start)
    ensures n * max <= Attempts(calls, n) + (states[n][i].attempts - states[0][i].attempts) * (max - 1)
    decreases n
  {
    if n > 0 {
      var c := calls[n - 1];
      assert states[n] == Delivered(states[n - 1], c.batch, c.mail);
      CallIsPaidFor(states[n - 1], c, start, i);
      hide IsBatch, Delivered;
      UndrainedRunIsPaidFor(states, calls, start, max, n - 1, i);
      OneMoreCall(n, max, Attempts(calls, n - 1), |c.batch|, states[n - 1][i].attempts - states[0][i].attempts,
                  states[n][i].attempts - states[0][i].attempts);
    }
  }

  /** A row that is still due has an attempt left. */
  lemma StillLeft(rows: Table, i: nat, now: int)
    requires AllLegal(rows) && i in rows && Eligible(rows[i], now)
    ensures Left(rows, rows.Keys) >= 1
  {
    Remove(rows.Keys, RemainingAt(rows), i);
    LeftNonNegative(rows, rows.Keys - {i});
  }

  /** 5n / max + 5 calls have room for 5n + 4(max - 1) rows. */
  lemma CallsSuffice(calls: nat, n: nat, max: nat)
    requires max >= 1 && calls >= MAX_ATTEMPTS * n / max + MAX_ATTEMPTS
    ensures calls * max >= MAX_ATTEMPTS * n + (MAX_ATTEMPTS - 1) * (max - 1)
  {
    var k := MAX_ATTEMPTS * n;
    CallsCover(k, max);
    Monotone(k / max + MAX_ATTEMPTS, calls, max);
    assert (k / max + MAX_ATTEMPTS) * max == (k / max + 1) * max + (MAX_ATTEMPTS - 1) * max;
  }

  /** Every email row due by `start` has been sent or has failed for good. */
  ghost predicate Drained(rows: Table, later: Table, start: int) {
    forall i :: i in rows && rows[i].channel == Email && rows[i].sendAfter <= start ==>
      i in later && later[i].status in {Sent, Failed}
  }

  /** Over a fixed set of n rows a worker makes at most 5n send attempts in all; and once calls of max rows at
      least have room for 5n + 4(max - 1), as 5n / max + 5 of them do, every row due at the start is sent or failed. */
  lemma DrainsWithin(states: seq<Table>, calls: seq<Call>, start: int, max: nat)
    requires ClosedRun(states, calls, start)
    requires max >= 1 && forall m :: 0 <= m < |calls| ==> calls[m].max >= max
    ensures Attempts(calls, |calls|) <= MAX_ATTEMPTS * |states[0]|
    ensures |calls| * max >= MAX_ATTEMPTS * |states[0]| + (MAX_ATTEMPTS - 1) * (max - 1) ==>
              Drained(states[0], states[|calls|], start)
    ensures |calls| >= MAX_ATTEMPTS * |states[0]| / max + MAX_ATTEMPTS ==> Drained(states[0], states[|calls|], start)
  {
    hide Left, Attempts;
    var n := |calls|;
    RunStaysLegal(states, calls, start, n);
    RowsKeepTheirKeys(states, calls, start, n);
    RunSpendsAttempts(states, calls, start, n);
    LeftNonNegative(states[n], states[n].Keys);
    if n >= MAX_ATTEMPTS * |states[0]| / max + MAX_ATTEMPTS {
      CallsSuffice(n, |states[0]|, max);
    }
    if n * max >= MAX_ATTEMPTS * |states[0]| + (MAX_ATTEMPTS - 1) * (max - 1) {
      forall i | i in states[n] ensures !Eligible(states[n][i], start) {
        if Eligible(states[n][i], start) {
          UndrainedRunIsPaidFor(states, calls, start, max, n, i);
          Monotone(states[n][i].attempts - states[0][i].attempts, MAX_ATTEMPTS - 1, max - 1);
          StillLeft(states[n], i, start);
        }
      }
    }
  }

  lemma {:induction false} RowsKeepTheirKeys(states: seq<Table>, calls: seq<Call>, start: int, n: nat)
    requires ClosedRun(states, calls, start) && n <= |calls|
    ensures states[n].Keys == states[0].Keys
    ensures forall i :: i in states[0] ==>
              states[n][i].channel == states[0][i].channel && states[n][i].sendAfter == states[0][i].sendAfter
    decreases n
  {
    if n > 0 {
      RowsKeepTheirKeys(states, calls, start, n - 1);
      var c := calls[n - 1];
      assert states[n] == Delivered(states[n - 1], c.batch, c.mail);
    }
  }
}
