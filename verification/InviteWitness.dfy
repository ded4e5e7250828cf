/** Runs that show where interleaving breaks what uninterrupted requests keep, and that the cap's bound is reached. */
module InviteWitness {
  import opened Wrappers
  import opened Strings
  import opened Sums
  import opened Invites
  import opened InviteRuns
  import opened InviteSafety

  lemma OneStep(s: System, step: Step, rest: seq<Step>, t: System) returns (steps: seq<Step>)
    requires Enabled(s, step) && Reaches(Apply(s, step), rest, t)
    ensures Reaches(s, steps, t)
  {
    steps := [step] + rest;
    assert steps[1..] == rest;
  }

  // ---------- Answers ----------

  /** Two requests p and q that are free, and a pending invite id from v to u. */
  predicate Answerable(s: System, p: nat, q: nat, id: nat, u: nat) {
    && p != q && p !in s.intents && q !in s.intents
    && id in s.invites && s.invites[id].status == Pending && s.invites[id].recipient == Some(u)
  }

  /** From every state with a pending invite, a decline read before an acceptance is written undoes it. */
  lemma AnswerCanBeOverwritten(s: System, p: nat, q: nat, id: nat, u: nat)
    returns (steps: seq<Step>, mid: System, end: System)
    requires Answerable(s, p, q, id, u)
    ensures Reaches(s, steps, mid) && id in mid.invites && mid.invites[id].status == Accepted
    ensures Reaches(mid, [Write(q)], end) && id in end.invites && end.invites[id].status == Declined
  {
    var s1 := Apply(s, ReadAnswer(p, u, id, true));
    var s2 := Apply(s1, ReadAnswer(q, u, id, false));
    mid := Apply(s2, Write(p));
    end := Apply(mid, Write(q));
    steps := OneStep(s2, Write(p), [], mid);
    steps := OneStep(s1, ReadAnswer(q, u, id, false), steps, mid);
    steps := OneStep(s, ReadAnswer(p, u, id, true), steps, mid);
    assert Reaches(end, [Write(q)][1..], end);
  }

  /** From every state with a pending invite, a withdrawal read before an acceptance is written deletes it. */
  lemma AnswerCanBeDeleted(s: System, p: nat, q: nat, id: nat, u: nat)
    returns (steps: seq<Step>, mid: System, end: System)
    requires Answerable(s, p, q, id, u)
    ensures Reaches(s, steps, mid) && id in mid.invites && mid.invites[id].status == Accepted
    ensures Reaches(mid, [Write(q)], end) && id !in end.invites
  {
    var sender := s.invites[id].sender;
    var s1 := Apply(s, ReadAnswer(p, u, id, true));
    var s2 := Apply(s1, ReadWithdrawal(q, sender, id));
    mid := Apply(s2, Write(p));
    end := Apply(mid, Write(q));
    steps := OneStep(s2, Write(p), [], mid);
    steps := OneStep(s1, ReadWithdrawal(q, sender, id), steps, mid);
    steps := OneStep(s, ReadAnswer(p, u, id, true), steps, mid);
    assert Reaches(end, [Write(q)][1..], end);
  }

  /** From every state with a pending invite, its acceptance goes when its event is deleted, a draft say. */
  lemma AnswerGoesWithEvent(s: System, p: nat, q: nat, id: nat, u: nat)
    returns (steps: seq<Step>, mid: System, end: System)
    requires Answerable(s, p, q, id, u)
    ensures Reaches(s, steps, mid) && id in mid.invites && mid.invites[id].status == Accepted
    ensures Reaches(mid, [DeleteEvent(s.invites[id].event)], end) && id !in end.invites
  {
    var gone := DeleteEvent(s.invites[id].event);
    var s1 := Apply(s, ReadAnswer(p, u, id, true));
    mid := Apply(s1, Write(p));
    end := Apply(mid, gone);
    steps := OneStep(s1, Write(p), [], mid);
    steps := OneStep(s, ReadAnswer(p, u, id, true), steps, mid);
    assert Reaches(end, [gone][1..], end);
  }

  // ---------- Blocks ----------

  /** Any sender, any other registered recipient, and the address they are known by. */
  datatype Pair = Pair(sender: nat, recipient: nat, email: string) {
    predicate Valid() {
      sender != recipient && NormalEmail(email) == email && email != ""
    }

    function Ask(event: nat): Request {
      Request(sender, event, email, Some(Published), true, Some(recipient))
    }

    function Row(event: nat, at: int): Invite {
      Invite(event, sender, Some(recipient), email, Pending, at)
    }
  }

  lemma ChecksPass(t: Table, blocks: Blocks, now: int, r: Request, email: string)
    requires email == NormalEmail(r.rawEmail) && email != ""
    requires r.eventStatus == Some(Published) && r.eligible && r.recipient != Some(r.sender)
    requires r.recipient.Some? ==> (r.recipient.value, r.sender) !in blocks
    requires |SentSince(t, r.sender, now - HOUR)| < HOURLY_LIMIT
    requires |SentSince(t, r.sender, now - DAY)| < DAILY_LIMIT
    requires |SentForEvent(t, r.sender, r.event)| < PER_EVENT_CAP
    requires !InCooldown(t, r.sender, email, now) && !HasDuplicate(t, r.event, r.recipient, email, now)
    ensures Checked(t, blocks, now, r) == Ok(Invite(r.event, r.sender, r.recipient, email, Pending, now))
  {
  }

  lemma NothingSent(t: Table, sender: nat, event: nat, now: int)
    requires forall i :: i in t ==> t[i].event != event && t[i].createdAt < now - DAY
    ensures SentSince(t, sender, now - HOUR) == {} && SentSince(t, sender, now - DAY) == {}
    ensures SentForEvent(t, sender, event) == {}
  {
  }

  lemma NotCooling(t: Table, sender: nat, event: nat, recipient: Option<nat>, email: string, now: int)
    requires (forall i :: i in t ==>
                !SameAddress(t[i].email, email) && (recipient.Some? ==> t[i].recipient != recipient))
          || (forall i :: i in t ==> t[i].event != event && t[i].createdAt < now - COOLDOWN)
    ensures !InCooldown(t, sender, email, now) && !HasDuplicate(t, event, recipient, email, now)
  {
  }

  lemma PairPasses(t: Table, p: Pair, event: nat, now: int)
    requires p.Valid() && forall i :: i in t ==> t[i].event != event && t[i].createdAt < now - DAY
    ensures Checked(t, {}, now, p.Ask(event)) == Ok(p.Row(event, now))
  {
    NothingSent(t, p.sender, event, now);
    NotCooling(t, p.sender, event, Some(p.recipient), p.email, now);
    ChecksPass(t, {}, now, p.Ask(event), p.email);
  }

  lemma {:induction false} ReachesRun(s: System, steps: seq<Step>, t: System)
    requires Reaches(s, steps, t)
    ensures Run(s, steps, t, Anything)
    decreases |steps|
  {
    hide Apply;
    if |steps| > 0 {
      ReachesRun(Apply(s, steps[0]), steps[1..], t);
    }
  }

  /** s with request q under way and n of its lookups passed. */
  function Looked(s: System, q: nat, v: Invite, n: nat): System {
    s.(open := s.open[q := Open(v, n)])
  }

  lemma LookedWithin(s: System, q: nat, v: Invite, n: nat, m: nat, b: Bound)
    requires Within(Looked(s, q, v, m).open, b)
    ensures Within(Looked(s, q, v, n).open, b)
  {
    match b
    case Anything =>
    case PerSender(sender, k) =>
      assert Past(Looked(s, q, v, n).open, sender, 0) == Past(Looked(s, q, v, m).open, sender, 0);
    case PerEvent(sender, event, k) =>
      assert PastFor(Looked(s, q, v, n).open, sender, event, 0) == PastFor(Looked(s, q, v, m).open, sender, event, 0);
  }

  lemma {:induction false} LooksRun(s: System, q: nat, v: Invite, n: nat, rest: seq<Step>, t: System, b: Bound)
    returns (steps: seq<Step>)
    requires n <= LOOKUPS && forall i: nat :: n <= i < LOOKUPS ==> Passes(s.invites, s.blocks, s.now, v, i)
    requires Run(Looked(s, q, v, LOOKUPS), rest, t, b)
    ensures Run(Looked(s, q, v, n), steps, t, b)
    decreases LOOKUPS - n
  {
    hide Passes, Within;
    if n == LOOKUPS {
      steps := rest;
    } else {
      var more := LooksRun(s, q, v, n + 1, rest, t, b);
      LookedWithin(s, q, v, n, LOOKUPS, b);
      assert Apply(Looked(s, q, v, n), Look(q)) == Looked(s, q, v, n + 1);
      steps := Prepended(Looked(s, q, v, n), Look(q), more, t, b);
    }
  }

  /** A request that passes all its checks at one moment gets ready to insert. */
  lemma Opens(s: System, q: nat, r: Request, v: Invite, rest: seq<Step>, t: System, b: Bound)
    returns (steps: seq<Step>)
    requires q !in s.open && Within(s.open, b) && Checked(s.invites, s.blocks, s.now, r) == Ok(v)
    requires Run(Looked(s, q, v, LOOKUPS), rest, t, b)
    ensures Run(s, steps, t, b)
  {
    hide Checked, Passes, NormalEmail, Within;
    CheckedIsBegunAndPassed(s.invites, s.blocks, s.now, r);
    var more := LooksRun(s, q, v, BLOCK, rest, t, b);
    assert Apply(s, Begin(q, r)) == Looked(s, q, v, BLOCK);
    steps := Prepended(s, Begin(q, r), more, t, b);
  }

  /**
   * From every state in which a request of the sender p.1 to p.0 has passed its checks, some other invite
   * id of p.1 is with p.0, and no index objects: a block by p.0 that lands before the insert is missed.
   */
  lemma BlockIsOvertaken(s: System, q: nat, w: nat, id: nat, next: nat, p: (nat, nat))
    returns (steps: seq<Step>, end: System)
    requires q in s.open && s.open[q].passed == LOOKUPS && s.open[q].row.event !in s.gone
    requires var v := s.open[q].row; v.recipient == Some(p.0) && v.sender == p.1 && v.status == Pending
    requires w !in s.intents && id in s.invites && next !in s.invites
    requires s.invites[id].recipient == Some(p.0) && s.invites[id].sender == p.1
    requires !Conflicts(s.invites, s.open[q].row)
    ensures Reaches(s, steps, end)
    ensures p in end.blocks && p in end.closed && !NonePending(end.invites, p.0, p.1)
  {
    hide Conflicts;
    var s1 := Apply(s, ReadBlock(w, p.0, id));
    var s2 := Apply(s1, Write(w));
    var s3 := Apply(s2, Write(w));
    end := Apply(s3, Insert(q, next));
    ClosingKeepsConflicts(s.invites, p.0, p.1, s.open[q].row, s.now);
    assert end.invites[next].status == Pending;
    steps := OneStep(s3, Insert(q, next), [], end);
    steps := OneStep(s2, Write(w), steps, end);
    steps := OneStep(s1, Write(w), steps, end);
    steps := OneStep(s, ReadBlock(w, p.0, id), steps, end);
  }

  lemma ClosingKeepsConflicts(t: Table, user: nat, sender: nat, v: Invite, now: int)
    ensures Conflicts(DeclinedFrom(t, user, sender), v.(createdAt := now)) == Conflicts(t, v)
  {
    var t' := DeclinedFrom(t, user, sender);
    assert t'.Keys == t.Keys;
    assert forall i :: i in t ==> t'[i] == t[i].(status := t'[i].status);
  }

  /** Whoever the two are, such a run starts from the empty tables. */
  lemma BlockCanBeOvertaken(p: Pair, e1: nat, e2: nat) returns (steps: seq<Step>, s: System)
    requires p.Valid() && e1 != e2
    ensures Reaches(Start(0), steps, s)
    ensures (p.recipient, p.sender) in s.blocks && !NonePending(s.invites, p.recipient, p.sender)
  {
    hide NormalEmail, NonePending, Checked, Reaches, Run;
    var s0 := Start(0);
    PairPasses(s0.invites, p, e1, s0.now);
    var s1 := Looked(s0, 1, p.Row(e1, 0), LOOKUPS);
    var s2 := Apply(s1, Insert(1, 1));
    var wait: nat := 2 * DAY;
    var s3 := Apply(s2, Tick(wait));
    assert s3.invites == map[1 := p.Row(e1, 0)];
    PairPasses(s3.invites, p, e2, s3.now);
    var s4 := Looked(s3, 2, p.Row(e2, s3.now), LOOKUPS);
    steps, s := BlockIsOvertaken(s4, 2, 1, 1, 2, (p.recipient, p.sender));
    ReachesRun(s4, steps, s);
    steps := Opens(s3, 2, p.Ask(e2), p.Row(e2, s3.now), steps, s, Anything);
    steps := Prepended(s2, Tick(wait), steps, s, Anything);
    steps := Prepended(s1, Insert(1, 1), steps, s, Anything);
    steps := Opens(s0, 1, p.Ask(e1), p.Row(e1, 0), steps, s, Anything);
    RunReaches(s0, steps, s, Anything);
  }

  // ---------- Spacing ----------

  lemma FewInFlight(open: map<nat, Open>, sender: nat)
    requires open.Keys <= {1, 2}
    ensures Within(open, PerSender(sender, 2))
  {
    SubsetSize(Past(open, sender, 0), {1, 2});
  }

  lemma EmptyRun(s: System, b: Bound)
    requires Within(s.open, b)
    ensures Run(s, [], s, b)
  {
  }

  /** Two requests in flight at once are enough to invite one address twice within the cooldown. */
  lemma TwoInFlightBreakSpacing(p: Pair, e1: nat, e2: nat) returns (steps: seq<Step>, s: System)
    requires p.Valid() && e1 != e2
    ensures Run(Start(0), steps, s, PerSender(p.sender, 2)) && !Spaced(s.invites, p.sender)
  {
    hide NormalEmail, Checked, Run, Within;
    var b := PerSender(p.sender, 2);
    var s0 := Start(0);
    PairPasses(s0.invites, p, e1, s0.now);
    PairPasses(s0.invites, p, e2, s0.now);
    var s1 := Looked(s0, 1, p.Row(e1, 0), LOOKUPS);
    var s2 := Looked(s1, 2, p.Row(e2, 0), LOOKUPS);
    var s3 := Apply(s2, Insert(1, 1));
    s := Apply(s3, Insert(2, 2));
    assert s.invites[1] == p.Row(e1, 0) && s.invites[2] == p.Row(e2, 0);
    FewInFlight(s.open, p.sender);
    FewInFlight(s3.open, p.sender);
    FewInFlight(s2.open, p.sender);
    FewInFlight(s1.open, p.sender);
    FewInFlight(s0.open, p.sender);
    EmptyRun(s, b);
    steps := Prepended(s3, Insert(2, 2), [], s, b);
    steps := Prepended(s2, Insert(1, 1), steps, s, b);
    steps := Opens(s1, 2, p.Ask(e2), p.Row(e2, 0), steps, s, b);
    steps := Opens(s0, 1, p.Ask(e1), p.Row(e1, 0), steps, s, b);
  }

  // ---------- The interleaved limits are reached ----------

  /** n letters: addresses that differ from one another. */
  function Address(n: nat): string {
    seq(n + 1, _ => 'a')
  }

  lemma AddressIsNormal(n: nat)
    ensures NormalEmail(Address(n)) == Address(n) && Address(n) != ""
  {
    assert Trimmed(Address(n));
    forall i | 0 <= i <= n ensures ToLower(Address(n))[i] == Address(n)[i] {
      LowerAt(Address(n), i);
    }
  }

  /** The n-th invite of sender 0, all to one event, or spread over events. */
  function Row(spread: bool, n: nat): Invite {
    Invite(if spread then n else 0, 0, None, Address(n), Pending, 0)
  }

  function Ask(spread: bool, n: nat): Request {
    Request(0, if spread then n else 0, Address(n), Some(Published), true, None)
  }

  /** How many may be sent one after the other and leave room for one. */
  function Alone(spread: bool): nat {
    (if spread then HOURLY_LIMIT else PER_EVENT_CAP) - 1
  }

  /** Requests 0..inserted have inserted, requests inserted..looked are ready to. */
  function Crowd(spread: bool, inserted: nat, looked: nat): System {
    System(map i | 0 <= i < inserted :: Row(spread, i), {}, 0,
           map q | inserted <= q < looked :: Open(Row(spread, q), LOOKUPS), map[], {}, {})
  }

  lemma CrowdSent(spread: bool, inserted: nat, looked: nat)
    ensures Crowd(spread, inserted, looked).invites.Keys == Below(inserted)
    ensures !spread ==> SentForEvent(Crowd(spread, inserted, looked).invites, 0, 0) == Below(inserted)
    ensures SentBetween(Crowd(spread, inserted, looked).invites, 0, 0 - HOUR, 0) == Below(inserted)
  {
  }

  lemma CrowdWithin(spread: bool, inserted: nat, looked: nat, k: nat)
    requires inserted <= looked <= inserted + k
    ensures Within(Crowd(spread, inserted, looked).open, PerSender(0, k))
  {
    hide Crowd, Past, Below;
    CrowdPast(spread, inserted, looked);
    GapSize(inserted, looked);
  }

  lemma CrowdPast(spread: bool, inserted: nat, looked: nat)
    ensures Past(Crowd(spread, inserted, looked).open, 0, 0) == Below(looked) - Below(inserted)
  {
    hide Below, Address;
    var open := Crowd(spread, inserted, looked).open;
    forall q ensures q in Past(open, 0, 0) <==> q in Below(looked) - Below(inserted) {
      assert q in open <==> inserted <= q < looked;
    }
  }

  lemma GapSize(a: nat, b: nat)
    requires a <= b
    ensures |Below(b) - Below(a)| == b - a
  {
    hide Below;
    assert Below(b) == Below(a) + (Below(b) - Below(a));
  }

  lemma AskIsChecked(spread: bool, t: Table, n: nat)
    requires forall i :: i in t ==> !SameAddress(t[i].email, Address(n))
    requires t.Keys == Below(|t|) && |t| <= Alone(spread)
    requires forall i :: i in t ==> t[i].event == if spread then i else 0
    requires |t| <= n
    ensures Checked(t, {}, 0, Ask(spread, n)) == Ok(Row(spread, n))
  {
    hide SameAddress, NormalEmail, Address, InCooldown, HasDuplicate, Checked;
    AddressIsNormal(n);
    SubsetSize(SentSince(t, 0, 0 - HOUR), Below(|t|));
    SubsetSize(SentSince(t, 0, 0 - DAY), Below(|t|));
    var event := if spread then n else 0;
    SubsetSize(SentForEvent(t, 0, event), Below(|t|));
    if spread {
      assert SentForEvent(t, 0, event) == {};
    }
    NotCooling(t, 0, event, None, Address(n), 0);
    ChecksPass(t, {}, 0, Ask(spread, n), Address(n));
  }

  lemma AskPasses(spread: bool, inserted: nat, looked: nat)
    requires inserted <= Alone(spread) && inserted <= looked
    ensures var s := Crowd(spread, inserted, looked);
            && Checked(s.invites, s.blocks, s.now, Ask(spread, looked)) == Ok(Row(spread, looked))
            && Looked(s, looked, Row(spread, looked), LOOKUPS) == Crowd(spread, inserted, looked + 1)
  {
    hide Checked, Crowd, Row, Ask, SameAddress, Address, Looked;
    CrowdSent(spread, inserted, looked);
    SizeIsInserted(spread, inserted, looked);
    CrowdAddressesDiffer(spread, inserted, looked);
    CrowdIsQuiet(spread, inserted, looked);
    AskIsChecked(spread, Crowd(spread, inserted, looked).invites, looked);
    OneMoreLooked(spread, inserted, looked);
  }

  lemma CrowdIsQuiet(spread: bool, inserted: nat, looked: nat)
    ensures var s := Crowd(spread, inserted, looked);
            s.blocks == {} && s.now == 0 && forall i :: i in s.invites ==> s.invites[i].event == if spread then i else 0
  {
  }

  lemma OneMoreLooked(spread: bool, inserted: nat, looked: nat)
    requires inserted <= looked
    ensures Looked(Crowd(spread, inserted, looked), looked, Row(spread, looked), LOOKUPS)
         == Crowd(spread, inserted, looked + 1)
  {
    hide Row;
    assert Looked(Crowd(spread, inserted, looked), looked, Row(spread, looked), LOOKUPS).open
        == Crowd(spread, inserted, looked + 1).open;
  }

  lemma SizeIsInserted(spread: bool, inserted: nat, looked: nat)
    ensures |Crowd(spread, inserted, looked).invites| == inserted
  {
    CrowdSent(spread, inserted, looked);
    assert |Crowd(spread, inserted, looked).invites.Keys| == inserted;
  }

  lemma CrowdAddressesDiffer(spread: bool, inserted: nat, looked: nat)
    requires inserted <= looked
    ensures forall i :: i in Crowd(spread, inserted, looked).invites ==>
              !SameAddress(Crowd(spread, inserted, looked).invites[i].email, Address(looked))
  {
    forall i | 0 <= i < inserted ensures !SameAddress(Address(i), Address(looked)) {
      assert |ToLower(Address(i))| == i + 1 && |ToLower(Address(looked))| == looked + 1;
    }
  }

  lemma CrowdInserts(spread: bool, inserted: nat, looked: nat)
    requires inserted < looked
    ensures Enabled(Crowd(spread, inserted, looked), Insert(inserted, inserted))
    ensures Apply(Crowd(spread, inserted, looked), Insert(inserted, inserted)) == Crowd(spread, inserted + 1, looked)
  {
    var t := Crowd(spread, inserted, looked).invites;
    assert forall i :: i in t ==> |t[i].email| == i + 1;
    assert |Row(spread, inserted).email| == inserted + 1;
    assert !Conflicts(t, Row(spread, inserted));
    assert t[inserted := Row(spread, inserted)] == Crowd(spread, inserted + 1, looked).invites;
    assert Crowd(spread, inserted, looked).open - {inserted} == Crowd(spread, inserted + 1, looked).open;
  }

  lemma {:induction false} CrowdDrains(spread: bool, inserted: nat, looked: nat, k: nat) returns (steps: seq<Step>)
    requires inserted <= looked <= inserted + k
    ensures Run(Crowd(spread, inserted, looked), steps, Crowd(spread, looked, looked), PerSender(0, k))
    decreases looked - inserted
  {
    hide Apply, Crowd, Within;
    CrowdWithin(spread, inserted, looked, k);
    if inserted == looked {
      steps := [];
    } else {
      CrowdInserts(spread, inserted, looked);
      steps := CrowdDrains(spread, inserted + 1, looked, k);
      steps := Prepended(Crowd(spread, inserted, looked), Insert(inserted, inserted), steps,
                         Crowd(spread, looked, looked), PerSender(0, k));
    }
  }

  /** The first ones go one at a time, and k more get ready together once there is room for just one. */
  lemma {:induction false} CrowdRuns(spread: bool, inserted: nat, looked: nat, k: nat) returns (steps: seq<Step>)
    requires k >= 1 && inserted <= Alone(spread) && inserted <= looked <= Alone(spread) + k
    requires inserted < Alone(spread) ==> looked <= inserted + 1
    ensures var n := Alone(spread) + k;
            Run(Crowd(spread, inserted, looked), steps, Crowd(spread, n, n), PerSender(0, k))
    decreases Alone(spread) - inserted, Alone(spread) + k - looked
  {
    hide Checked, Apply, Crowd, Within, Run;
    var n, b := Alone(spread) + k, PerSender(0, k);
    CrowdWithin(spread, inserted, looked, k);
    if inserted == Alone(spread) && looked == n {
      steps := CrowdDrains(spread, inserted, looked, k);
    } else if inserted < Alone(spread) && looked == inserted + 1 {
      CrowdInserts(spread, inserted, looked);
      steps := CrowdRuns(spread, inserted + 1, looked, k);
      steps := Prepended(Crowd(spread, inserted, looked), Insert(inserted, inserted), steps, Crowd(spread, n, n), b);
    } else {
      AskPasses(spread, inserted, looked);
      NotOpenYet(spread, inserted, looked);
      steps := CrowdRuns(spread, inserted, looked + 1, k);
      steps := Opens(Crowd(spread, inserted, looked), looked, Ask(spread, looked), Row(spread, looked), steps,
                     Crowd(spread, n, n), b);
    }
  }

  lemma NotOpenYet(spread: bool, inserted: nat, looked: nat)
    ensures looked !in Crowd(spread, inserted, looked).open
  {
  }

  lemma NobodyYet(spread: bool)
    ensures Crowd(spread, 0, 0) == Start(0)
  {
    assert Crowd(spread, 0, 0).invites == map[] && Crowd(spread, 0, 0).open == map[];
  }

  lemma {:induction false} SenderRunIsEventRun(
    s: System, steps: seq<Step>, t: System, sender: nat, event: nat, k: nat)
    requires Run(s, steps, t, PerSender(sender, k))
    ensures Run(s, steps, t, PerEvent(sender, event, k))
    decreases |steps|
  {
    hide Apply;
    SubsetSize(PastFor(s.open, sender, event, 0), Past(s.open, sender, 0));
    if |steps| > 0 {
      SenderRunIsEventRun(Apply(s, steps[0]), steps[1..], t, sender, event, k);
    }
  }

  /** For every k >= 1 some run with at most k requests in flight puts exactly 3 + (k - 1) invites of
      one sender on one event: the bound of `CapHolds` cannot be lowered. */
  lemma CapIsReached(k: nat) returns (steps: seq<Step>, s: System)
    requires k >= 1
    ensures Run(Start(0), steps, s, PerEvent(0, 0, k)) && |SentForEvent(s.invites, 0, 0)| == PER_EVENT_CAP + (k - 1)
  {
    hide Run, Crowd;
    var n := Alone(false) + k;
    s := Crowd(false, n, n);
    steps := CrowdRuns(false, 0, 0, k);
    CrowdSent(false, n, n);
    NobodyYet(false);
    SenderRunIsEventRun(Start(0), steps, s, 0, 0, k);
  }

  /** And some run has exactly 12 + (k - 1) of them in one hour. */
  lemma HourIsReached(k: nat) returns (steps: seq<Step>, s: System)
    requires k >= 1
    ensures Run(Start(0), steps, s, PerSender(0, k))
    ensures |SentBetween(s.invites, 0, 0 - HOUR, 0)| == HOURLY_LIMIT + (k - 1)
  {
    hide Run, Crowd;
    var n := Alone(true) + k;
    s := Crowd(true, n, n);
    steps := CrowdRuns(true, 0, 0, k);
    CrowdSent(true, n, n);
    NobodyYet(true);
  }

  /** Runs with k requests of a sender for an event in flight keep the cap of three exactly when k is one. */
  lemma CapIsKeptIff(k: nat)
    requires k >= 1
    ensures (forall now, steps, s, sender, event :: Run(Start(now), steps, s, PerEvent(sender, event, k)) ==>
               |SentForEvent(s.invites, sender, event)| <= PER_EVENT_CAP) <==> k == 1
  {
    hide Run, SentForEvent;
    if k == 1 {
      forall now, steps, s, sender, event | Run(Start(now), steps, s, PerEvent(sender, event, k))
        ensures |SentForEvent(s.invites, sender, event)| <= PER_EVENT_CAP
      {
        CapHolds(now, steps, s, sender, event, k);
      }
    } else {
      var steps, s := CapIsReached(k);
    }
  }
}
