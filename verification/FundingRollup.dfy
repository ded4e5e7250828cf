/**
  The two funding rollups over one database state: per event for the event list, and per funding
  pool for the pool summary. Tables are finite sets of rows; SQL NULL is None.
*/
module FundingRollup {
  import opened Wrappers
  import opened Strings
  import opened Sums

  const DEFAULT_POOL := "general"

  datatype EventRow = EventRow(id: nat, host: nat, slug: Option<string>, reward: Option<int>, status: string)
  datatype WalletTx = WalletTx(id: nat, user: nat, event: Option<nat>, amount: int, direction: string, reason: string)
  datatype Receipt = Receipt(id: nat, walletTx: nat, credits: int)
  datatype Request = Request(id: nat, event: Option<nat>, volunteer: Option<nat>, amount: int,
                             reason: Option<string>, status: string)

  datatype Db = Db(events: set<EventRow>, wallet: set<WalletTx>, receipts: set<Receipt>, requests: set<Request>) {
    /** The events table's primary key. */
    ghost predicate Keyed() {
      forall a, b :: a in events && b in events && a.id == b.id ==> a == b
    }

    /** The wallet table's primary key, and the unique index on the receipts' wallet transaction. */
    ghost predicate OneReceiptEach() {
      && (forall a, b :: a in wallet && b in wallet && a.id == b.id ==> a == b)
      && (forall a, b :: a in receipts && b in receipts && a.walletTx == b.walletTx ==> a == b)
    }
  }

  /** PostgreSQL's BTRIM: spaces only. */
  function BTrim(s: string): string {
    if s == "" then ""
    else if s[0] == ' ' then BTrim(s[1..])
    else if s[|s| - 1] == ' ' then BTrim(s[..|s| - 1])
    else s
  }

  function PoolOf(e: EventRow): string {
    var slug := match e.slug case Some(s) => ToLower(BTrim(s)) case None => "";
    if slug == "" then DEFAULT_POOL else slug
  }

  ghost function HostEvents(db: Db, scope: set<nat>): set<EventRow> {
    set e | e in db.events && e.host in scope
  }

  // ---------- Grouping by event and volunteer ----------

  datatype WalletKey = WalletKey(event: Option<nat>, user: nat)
  datatype RequestKey = RequestKey(event: Option<nat>, user: Option<nat>)

  /** One line of wallet_transactions LEFT JOIN donor_receipts. */
  datatype Funded = Funded(tx: WalletTx, receipt: Option<Receipt>)

  predicate Earned(tx: WalletTx) { tx.reason == "earn_shift" && tx.direction == "credit" }
  predicate Requested(p: Request) { p.reason == Some("earn_shift") }

  ghost predicate HasReceipt(db: Db, tx: WalletTx) {
    exists r :: r in db.receipts && r.walletTx == tx.id
  }

  ghost function EarnedLines(db: Db): set<Funded> {
    (set tx, r | tx in db.wallet && Earned(tx) && r in db.receipts && r.walletTx == tx.id :: Funded(tx, Some(r)))
    + (set tx | tx in db.wallet && Earned(tx) && !HasReceipt(db, tx) :: Funded(tx, None))
  }

  function LineKey(l: Funded): WalletKey { WalletKey(l.tx.event, l.tx.user) }
  function AmountOf(l: Funded): int { l.tx.amount }
  function CreditsOf(l: Funded): int { match l.receipt case Some(r) => r.credits case None => 0 }

  ghost function WalletKeys(db: Db): set<WalletKey> {
    set l | l in EarnedLines(db) :: LineKey(l)
  }

  ghost function Awarded(db: Db, k: WalletKey): int { Sum(Group(EarnedLines(db), LineKey, k), AmountOf) }
  ghost function FundedBy(db: Db, k: WalletKey): int { Sum(Group(EarnedLines(db), LineKey, k), CreditsOf) }

  function KeyOfRequest(p: Request): RequestKey { RequestKey(p.event, p.volunteer) }

  ghost function RequestKeys(db: Db): set<RequestKey> {
    set p | p in db.requests && Requested(p) :: KeyOfRequest(p)
  }

  predicate Open(p: Request) { p.status == "pending" || p.status == "approved" }

  ghost predicate IsLargestOpen(s: set<Request>, p: Request) {
    p in s && Open(p) && forall q :: q in s && Open(q) ==> q.amount <= p.amount
  }

  /** COALESCE(MAX(amount) FILTER (WHERE open), 0). */
  ghost function LargestOpen(s: set<Request>): int {
    if exists p :: p in s && Open(p) then
      LargestExists(s);
      var p :| IsLargestOpen(s, p);
      p.amount
    else 0
  }

  lemma {:induction false} LargestExists(s: set<Request>)
    requires exists p :: p in s && Open(p)
    ensures exists p :: IsLargestOpen(s, p)
    decreases s
  {
    var p :| p in s && Open(p);
    var rest := s - {p};
    if exists q :: q in rest && Open(q) {
      LargestExists(rest);
      var q :| IsLargestOpen(rest, q);
      assert IsLargestOpen(s, if q.amount >= p.amount then q else p);
    } else {
      assert IsLargestOpen(s, p);
    }
  }

  ghost function RequestedBy(db: Db, k: RequestKey): int {
    LargestOpen(set p | p in db.requests && Requested(p) && KeyOfRequest(p) == k)
  }

  // ---------- The full outer join and its three measures ----------

  datatype Pair<W, P> = Both(w: W, p: P) | WalletOnly(w: W) | RequestOnly(p: P)

  /** NULL matches nothing. */
  predicate Matches(w: WalletKey, p: RequestKey) {
    w.event.Some? && p.event == w.event && p.user == Some(w.user)
  }

  ghost function FullJoin(ws: set<WalletKey>, ps: set<RequestKey>): set<Pair<WalletKey, RequestKey>> {
    (set w, p | w in ws && p in ps && Matches(w, p) :: Both(w, p))
    + (set w | w in ws && forall p :: p in ps ==> !Matches(w, p) :: WalletOnly(w))
    + (set p | p in ps && forall w :: w in ws ==> !Matches(w, p) :: RequestOnly(p))
  }

  function EventOf(x: Pair<WalletKey, RequestKey>): Option<nat> {
    match x
    case Both(w, _) => w.event
    case WalletOnly(w) => w.event
    case RequestOnly(p) => p.event
  }

  datatype Measure = Verified | Credited | Deficit

  function Larger(a: int, b: int): int { if a >= b then a else b }

  function Measured(m: Measure, awarded: int, requested: int, funded: int): int {
    var verified := if awarded > 0 then awarded else requested;
    match m
    case Verified => verified
    case Credited => funded
    case Deficit => Larger(verified - funded, 0)
  }

  ghost function ValueOf(db: Db, m: Measure, x: Pair<WalletKey, RequestKey>): int {
    match x
    case Both(w, p) => Measured(m, Awarded(db, w), RequestedBy(db, p), FundedBy(db, w))
    case WalletOnly(w) => Measured(m, Awarded(db, w), 0, FundedBy(db, w))
    case RequestOnly(p) => Measured(m, 0, RequestedBy(db, p), 0)
  }

  ghost function Values(db: Db, m: Measure): Pair<WalletKey, RequestKey> -> int { x => ValueOf(db, m, x) }

  ghost function Pairs(db: Db): set<Pair<WalletKey, RequestKey>> { FullJoin(WalletKeys(db), RequestKeys(db)) }

  /** What the event list shows for event id. */
  ghost function EventTotal(db: Db, m: Measure, id: nat): int {
    Sum(Group(Pairs(db), EventOf, Some(id)), Values(db, m))
  }

  ghost function EventTotals(db: Db, m: Measure): EventRow -> int { (e: EventRow) => EventTotal(db, m, e.id) }

  // ---------- Grouping by pool, event and volunteer ----------

  ghost function PoolLines(db: Db, scope: set<nat>): set<(EventRow, Funded)> {
    set e, l | e in HostEvents(db, scope) && l in EarnedLines(db) && l.tx.event == Some(e.id) :: (e, l)
  }

  function PoolLineKey(x: (EventRow, Funded)): (string, WalletKey) {
    (PoolOf(x.0), WalletKey(Some(x.0.id), x.1.tx.user))
  }

  function PoolAmountOf(x: (EventRow, Funded)): int { AmountOf(x.1) }
  function PoolCreditsOf(x: (EventRow, Funded)): int { CreditsOf(x.1) }

  ghost function PoolWalletKeys(db: Db, scope: set<nat>): set<(string, WalletKey)> {
    set x | x in PoolLines(db, scope) :: PoolLineKey(x)
  }

  ghost function PoolAwarded(db: Db, scope: set<nat>, k: (string, WalletKey)): int {
    Sum(Group(PoolLines(db, scope), PoolLineKey, k), PoolAmountOf)
  }

  ghost function PoolFundedBy(db: Db, scope: set<nat>, k: (string, WalletKey)): int {
    Sum(Group(PoolLines(db, scope), PoolLineKey, k), PoolCreditsOf)
  }

  ghost function PoolRequests(db: Db, scope: set<nat>): set<(EventRow, Request)> {
    set e, p | e in HostEvents(db, scope) && p in db.requests && Requested(p) && p.event == Some(e.id) :: (e, p)
  }

  function PoolRequestKey(x: (EventRow, Request)): (string, RequestKey) {
    (PoolOf(x.0), RequestKey(Some(x.0.id), x.1.volunteer))
  }

  ghost function PoolRequestKeys(db: Db, scope: set<nat>): set<(string, RequestKey)> {
    set x | x in PoolRequests(db, scope) :: PoolRequestKey(x)
  }

  ghost function PoolRequestedBy(db: Db, scope: set<nat>, k: (string, RequestKey)): int {
    LargestOpen(set x | x in PoolRequests(db, scope) && PoolRequestKey(x) == k :: x.1)
  }

  ghost function PoolFullJoin(ws: set<(string, WalletKey)>, ps: set<(string, RequestKey)>)
    : set<PoolPair>
  {
    (set w, p | w in ws && p in ps && w.0 == p.0 && Matches(w.1, p.1) :: Both(w, p))
    + (set w | w in ws && forall p :: p in ps ==> !(w.0 == p.0 && Matches(w.1, p.1)) :: WalletOnly(w))
    + (set p | p in ps && forall w :: w in ws ==> !(w.0 == p.0 && Matches(w.1, p.1)) :: RequestOnly(p))
  }

  type PoolPair = Pair<(string, WalletKey), (string, RequestKey)>

  function PoolOfPair(x: PoolPair): string {
    match x
    case Both(w, _) => w.0
    case WalletOnly(w) => w.0
    case RequestOnly(p) => p.0
  }

  ghost function PoolValueOf(db: Db, scope: set<nat>, m: Measure, x: PoolPair): int {
    match x
    case Both(w, p) => Measured(m, PoolAwarded(db, scope, w), PoolRequestedBy(db, scope, p), PoolFundedBy(db, scope, w))
    case WalletOnly(w) => Measured(m, PoolAwarded(db, scope, w), 0, PoolFundedBy(db, scope, w))
    case RequestOnly(p) => Measured(m, 0, PoolRequestedBy(db, scope, p), 0)
  }

  ghost function PoolPairs(db: Db, scope: set<nat>): set<PoolPair> {
    PoolFullJoin(PoolWalletKeys(db, scope), PoolRequestKeys(db, scope))
  }

  ghost function PoolValues(db: Db, scope: set<nat>, m: Measure): PoolPair -> int {
    x => PoolValueOf(db, scope, m, x)
  }

  /** What the pool summary's wallet rollup holds for a slug. */
  ghost function PoolTotal(db: Db, scope: set<nat>, m: Measure, slug: string): int {
    Sum(Group(PoolPairs(db, scope), PoolOfPair, slug), PoolValues(db, scope, m))
  }
}
