/** The pool summary: one row per slug, and the totals reduced over the rows. */
module PoolSummary {
  import opened Wrappers
  import opened Sums
  import opened FundingRollup
  import opened FundingAgreement
  import PoolSlugs

  datatype Column =
    | EventsCount | PublishedCount | RewardTotal | VerifiedTotal | FundedTotal | DeficitTotal
    | CreditsIn | CreditsOut | Remaining

  datatype Amounts = Amounts(
    events: int, published: int, reward: int, verified: int, funded: int, deficit: int,
    creditsIn: int, creditsOut: int, remaining: int)

  datatype PoolRow = PoolRow(slug: string, amounts: Amounts)

  function Read(a: Amounts, c: Column): int {
    match c
    case EventsCount => a.events
    case PublishedCount => a.published
    case RewardTotal => a.reward
    case VerifiedTotal => a.verified
    case FundedTotal => a.funded
    case DeficitTotal => a.deficit
    case CreditsIn => a.creditsIn
    case CreditsOut => a.creditsOut
    case Remaining => a.remaining
  }

  function TotalOf(pools: seq<PoolRow>, c: Column): int {
    if |pools| == 0 then 0 else TotalOf(pools[..|pools| - 1], c) + Read(pools[|pools| - 1].amounts, c)
  }

  /** The accumulator loop behind `totals`. */
  method Reduce(pools: seq<PoolRow>) returns (acc: Amounts)
    ensures forall c :: Read(acc, c) == TotalOf(pools, c)
  {
    acc := Amounts(0, 0, 0, 0, 0, 0, 0, 0, 0);
    var i := 0;
    while i < |pools|
      invariant 0 <= i <= |pools|
      invariant forall c :: Read(acc, c) == TotalOf(pools[..i], c)
    {
      var item := pools[i].amounts;
      ghost var before := acc;
      acc := Amounts(
        acc.events + item.events, acc.published + item.published, acc.reward + item.reward,
        acc.verified + item.verified, acc.funded + item.funded, acc.deficit + item.deficit,
        acc.creditsIn + item.creditsIn, acc.creditsOut + item.creditsOut, acc.remaining + item.remaining);
      assert pools[..i + 1][..i] == pools[..i];
      assert forall c :: Read(acc, c) == Read(before, c) + Read(item, c);
      i := i + 1;
    }
    assert pools[..i] == pools;
  }

  // ---------- The rows ----------

  function OneEvent(e: EventRow): int { 1 }
  function OnePublished(e: EventRow): int { if e.status == "published" then 1 else 0 }
  function RewardOf(e: EventRow): int { e.reward.GetOr(0) }

  /** The database the summary reads: events and credits, pool ledger, host scope and its ids as text. */
  datatype View = View(db: Db, ledger: PoolSlugs.Ledger, scope: set<nat>, members: seq<string>) {
    ghost predicate Sane() {
      db.Keyed() && ledger.Keyed() && PoolSlugs.Distinct(members)
    }
  }

  ghost function RowFor(v: View, slug: string): PoolRow {
    var hosted := HostedIn(v.db, v.scope, slug);
    var creditsIn := PoolSlugs.LedgerTotal(v.ledger, v.members, "credit", slug);
    var creditsOut := PoolSlugs.LedgerTotal(v.ledger, v.members, "debit", slug);
    PoolRow(slug, Amounts(
              Sum(hosted, OneEvent), Sum(hosted, OnePublished), Sum(hosted, RewardOf),
              PoolTotal(v.db, v.scope, Verified, slug),
              PoolTotal(v.db, v.scope, Credited, slug),
              PoolTotal(v.db, v.scope, Deficit, slug),
              creditsIn, creditsOut, Larger(0, creditsIn - creditsOut)))
  }

  /** UNION of the slugs of the three rollups and the requested one. */
  ghost function AllSlugs(v: View, asked: Option<string>): set<string> {
    (set e | e in HostEvents(v.db, v.scope) :: PoolOf(e))
    + (set x | x in PoolPairs(v.db, v.scope) :: PoolOfPair(x))
    + (set x | x in PoolSlugs.Lines(v.ledger, v.members) :: PoolSlugs.SlugOn(v.members)(x))
    + (match asked case Some(s) => {s} case None => {})
  }

  ghost function SlugsOf(pools: seq<PoolRow>): set<string> {
    set r | r in pools :: r.slug
  }

  /** pools lists every slug once, with its row. */
  ghost predicate IsSummary(v: View, asked: Option<string>, pools: seq<PoolRow>) {
    AllRows(v, pools) && NoRepeats(pools) && SlugsOf(pools) == AllSlugs(v, asked)
  }

  ghost predicate AllRows(v: View, pools: seq<PoolRow>) {
    forall i :: 0 <= i < |pools| ==> pools[i] == RowFor(v, pools[i].slug)
  }

  ghost predicate NoRepeats(pools: seq<PoolRow>) {
    forall i, j :: 0 <= i < j < |pools| ==> pools[i].slug != pools[j].slug
  }

  ghost function ColumnOf(v: View, c: Column): string -> int {
    s => Read(RowFor(v, s).amounts, c)
  }

  lemma {:induction false} TotalIsSum(v: View, c: Column, pools: seq<PoolRow>)
    requires AllRows(v, pools) && NoRepeats(pools)
    ensures TotalOf(pools, c) == Sum(SlugsOf(pools), ColumnOf(v, c))
  {
    hide RowFor, Read, Sum, AllRows, NoRepeats, SlugsOf, ColumnOf;
    EmptySlugs();
    if |pools| == 0 {
      assert pools == [];
    } else {
      var init, last := pools[..|pools| - 1], pools[|pools| - 1];
      WithoutLast(v, pools);
      TotalIsSum(v, c, init);
      Remove(SlugsOf(pools), ColumnOf(v, c), last.slug);
      ColumnAt(v, c, last);
    }
  }

  lemma EmptySlugs()
    ensures SlugsOf([]) == {}
    ensures forall v, c :: Sum({}, ColumnOf(v, c)) == 0
  {
  }

  lemma ColumnAt(v: View, c: Column, r: PoolRow)
    requires r == RowFor(v, r.slug)
    ensures ColumnOf(v, c)(r.slug) == Read(r.amounts, c)
  {
    hide RowFor, Read;
  }

  lemma WithoutLast(v: View, pools: seq<PoolRow>)
    requires |pools| > 0 && AllRows(v, pools) && NoRepeats(pools)
    ensures var init, last := pools[..|pools| - 1], pools[|pools| - 1];
            && AllRows(v, init) && NoRepeats(init) && last == RowFor(v, last.slug)
            && last.slug in SlugsOf(pools) && SlugsOf(pools) - {last.slug} == SlugsOf(init)
  {
    hide RowFor;
    var init, last := pools[..|pools| - 1], pools[|pools| - 1];
    assert pools == init + [last];
  }

  // ---------- What the totals count ----------

  lemma EventColumnTotal(v: View, c: Column, f: EventRow -> int, slugs: set<string>)
    requires forall e :: e in HostEvents(v.db, v.scope) ==> PoolOf(e) in slugs
    requires forall s :: s in slugs ==> ColumnOf(v, c)(s) == Sum(HostedIn(v.db, v.scope, s), f)
    ensures Sum(slugs, ColumnOf(v, c)) == Sum(HostEvents(v.db, v.scope), f)
  {
    hide Sum, PoolOf, ColumnOf;
    Grouped(HostEvents(v.db, v.scope), f, PoolOf, slugs);
    var byPool := GroupSum(HostEvents(v.db, v.scope), f, PoolOf);
    forall s | s in slugs ensures ColumnOf(v, c)(s) == byPool(s) {
      assert Group(HostEvents(v.db, v.scope), PoolOf, s) == HostedIn(v.db, v.scope, s);
    }
    Congruent(slugs, ColumnOf(v, c), byPool);
  }

  lemma SlugsCover(v: View, asked: Option<string>)
    ensures forall e :: e in HostEvents(v.db, v.scope) ==> PoolOf(e) in AllSlugs(v, asked)
    ensures PoolSlugs.Covers(AllSlugs(v, asked), v.ledger, v.members)
  {
  }

  /**
   * The reduced totals count every hosted event once, every credit the event list shows for one of
   * them once, and every transaction of the members' pools once, whatever slug was asked for besides.
   */
  lemma SummaryTotals(v: View, asked: Option<string>, pools: seq<PoolRow>)
    requires v.Sane() && IsSummary(v, asked, pools)
    ensures var hosted := HostEvents(v.db, v.scope);
            && TotalOf(pools, EventsCount) == |hosted|
            && TotalOf(pools, PublishedCount) == Sum(hosted, OnePublished)
            && TotalOf(pools, RewardTotal) == Sum(hosted, RewardOf)
            && TotalOf(pools, VerifiedTotal) == Sum(hosted, EventTotals(v.db, Verified))
            && TotalOf(pools, FundedTotal) == Sum(hosted, EventTotals(v.db, Credited))
            && TotalOf(pools, DeficitTotal) == Sum(hosted, EventTotals(v.db, Deficit))
            && TotalOf(pools, CreditsIn) == Sum(PoolSlugs.OwnTxs(v.ledger, v.members), PoolSlugs.AmountIn("credit"))
            && TotalOf(pools, CreditsOut) == Sum(PoolSlugs.OwnTxs(v.ledger, v.members), PoolSlugs.AmountIn("debit"))
  {
    hide Sum, HostEvents, AllSlugs, PoolTotal, EventTotals, RowFor, TotalOf;
    EventTotalsHold(v, asked, pools);
    CreditTotalsHold(v, asked, pools);
    LedgerTotalsHold(v, asked, pools);
  }

  ghost function Hosted(v: View): set<EventRow> {
    set e | e in v.db.events && e.host in v.scope
  }

  /** The events are counted by their host and status, and their rewards added where there are any. */
  lemma TotalsInColumns(v: View, asked: Option<string>, pools: seq<PoolRow>)
    requires IsSummary(v, asked, pools)
    ensures TotalOf(pools, EventsCount) == |Hosted(v)|
    ensures TotalOf(pools, PublishedCount) == |set e | e in Hosted(v) && e.status == "published"|
    ensures TotalOf(pools, RewardTotal) == Sum((set e | e in Hosted(v) && e.reward.Some?), Reward)
  {
    hide Sum, AllSlugs, PoolTotal, HostedIn, TotalOf;
    EventTotalsHold(v, asked, pools);
    var published := set e | e in Hosted(v) && e.status == "published";
    var rewarded := set e | e in Hosted(v) && e.reward.Some?;
    Sums.Split(Hosted(v), published, OnePublished);
    Constant(published, OnePublished, 1);
    Constant(Hosted(v) - published, OnePublished, 0);
    Sums.Split(Hosted(v), rewarded, RewardOf);
    Congruent(rewarded, RewardOf, Reward);
    Constant(Hosted(v) - rewarded, RewardOf, 0);
  }

  /** A reward there is. */
  function Reward(e: EventRow): int {
    match e.reward case Some(n) => n case None => -1
  }

  /** The summary lists a slug exactly when some hosted event is in that pool, some pool is stored under it
      for a member, or it was asked for. */
  lemma ListsIff(v: View, asked: Option<string>, pools: seq<PoolRow>, slug: string)
    requires v.Sane() && IsSummary(v, asked, pools)
    ensures (exists r :: r in pools && r.slug == slug) <==>
            || (exists e :: e in Hosted(v) && PoolOf(e) == slug)
            || (exists p :: p in v.ledger.pools && PoolSlugs.IsUnder(p, v.members, slug))
            || asked == Some(slug)
  {
    hide PoolOf, PoolPairs, PoolSlugs.IsUnder, PoolSlugs.Lines, RowFor, PoolSlugs.SlugOn, PoolSlugs.Distinct;
    assert (exists r :: r in pools && r.slug == slug) <==> slug in AllSlugs(v, asked) by {
      assert slug in SlugsOf(pools) <==> slug in AllSlugs(v, asked);
    }
    forall x | x in PoolPairs(v.db, v.scope) && PoolOfPair(x) == slug
      ensures exists e :: e in Hosted(v) && PoolOf(e) == slug
    {
      PairIsHosted(v, x);
    }
    forall x | x in PoolSlugs.Lines(v.ledger, v.members) && PoolSlugs.SlugOn(v.members)(x) == slug
      ensures x.pool in v.ledger.pools && PoolSlugs.IsUnder(x.pool, v.members, slug)
    {
      LineIsUnder(v, x);
    }
    forall p | p in v.ledger.pools && PoolSlugs.IsUnder(p, v.members, slug)
      ensures exists x :: x in PoolSlugs.Lines(v.ledger, v.members) && PoolSlugs.SlugOn(v.members)(x) == slug
    {
      var x := PoolHasLine(v, p, slug);
    }
  }

  lemma PairIsHosted(v: View, x: PoolPair)
    requires x in PoolPairs(v.db, v.scope)
    ensures exists e :: e in Hosted(v) && PoolOf(e) == PoolOfPair(x)
  {
    hide PoolOf, EarnedLines;
    match x
    case Both(w, _) => var y :| y in PoolLines(v.db, v.scope) && PoolLineKey(y) == w;
    case WalletOnly(w) => var y :| y in PoolLines(v.db, v.scope) && PoolLineKey(y) == w;
    case RequestOnly(p) => var y :| y in PoolRequests(v.db, v.scope) && PoolRequestKey(y) == p;
  }

  lemma LineIsUnder(v: View, x: PoolSlugs.Line)
    requires v.Sane() && x in PoolSlugs.Lines(v.ledger, v.members)
    ensures x.pool in v.ledger.pools && PoolSlugs.IsUnder(x.pool, v.members, PoolSlugs.SlugOn(v.members)(x))
  {
    hide PoolSlugs.IsId, PoolSlugs.HasPrefix, PoolSlugs.Suffix, PoolSlugs.Scoped, PoolSlugs.Distinct;
    PoolSlugs.SlugOfLine(v.ledger, v.members, x);
    PoolSlugs.SuffixIff(x.pool.slug, v.members[x.at], PoolSlugs.SlugOn(v.members)(x));
  }

  lemma PoolHasLine(v: View, p: PoolSlugs.Pool, slug: string) returns (x: PoolSlugs.Line)
    requires v.Sane() && p in v.ledger.pools && PoolSlugs.IsUnder(p, v.members, slug)
    ensures x in PoolSlugs.Lines(v.ledger, v.members) && PoolSlugs.SlugOn(v.members)(x) == slug
  {
    hide PoolSlugs.IsId, PoolSlugs.HasPrefix, PoolSlugs.Suffix, PoolSlugs.Scoped, PoolSlugs.Distinct;
    var i :| 0 <= i < |v.members| && p.slug == PoolSlugs.Scoped(v.members[i], slug);
    PoolSlugs.MemberIsId(v.members, i);
    PoolSlugs.SuffixIff(p.slug, v.members[i], slug);
    assert PoolSlugs.JoinsAt(p, v.members, i);
    if t :| t in v.ledger.txs && t.pool == p.id {
      x := PoolSlugs.Line(p, i, Some(t));
    } else {
      x := PoolSlugs.Line(p, i, None);
    }
    PoolSlugs.SlugOfLine(v.ledger, v.members, x);
  }

  ghost function InOf(v: View): string -> int { PoolSlugs.LedgerTotals(v.ledger, v.members, "credit") }
  ghost function OutOf(v: View): string -> int { PoolSlugs.LedgerTotals(v.ledger, v.members, "debit") }

  /** What has come in less what has gone out. */
  ghost function Balance(v: View): string -> int { s => InOf(v)(s) - OutOf(v)(s) }

  /**
   * The total of the remaining credits is at least what the totals in and out leave, and is exactly that
   * when, and only when, no pool is overdrawn while another has credits left.
   */
  lemma RemainingTotal(v: View, asked: Option<string>, pools: seq<PoolRow>)
    requires IsSummary(v, asked, pools)
    ensures var left := Larger(0, TotalOf(pools, CreditsIn) - TotalOf(pools, CreditsOut));
            && TotalOf(pools, Remaining) >= left
            && (TotalOf(pools, Remaining) == left <==>
                  ((forall s :: s in AllSlugs(v, asked) ==> Balance(v)(s) >= 0)
                   || (forall s :: s in AllSlugs(v, asked) ==> Balance(v)(s) <= 0)))
  {
    hide Sum, HostEvents, AllSlugs, PoolTotal, HostedIn, TotalOf, PoolSlugs.LedgerTotal;
    var slugs := AllSlugs(v, asked);
    TotalIsSum(v, CreditsIn, pools);
    TotalIsSum(v, CreditsOut, pools);
    TotalIsSum(v, Remaining, pools);
    Congruent(slugs, ColumnOf(v, CreditsIn), InOf(v));
    Congruent(slugs, ColumnOf(v, CreditsOut), OutOf(v));
    Added(slugs, Balance(v), OutOf(v), InOf(v));
    PositiveParts(slugs, Balance(v), ColumnOf(v, Remaining), s => Positive(-Balance(v)(s)));
  }

  /** What a row is shown as: an empty slug becomes the default one. */
  function ShownAs(slug: string): string {
    if slug == "" then DEFAULT_POOL else slug
  }

  /** A shown list repeats a slug exactly when some pool is stored under a bare prefix besides the default pool. */
  lemma ShownSlugsRepeatIff(v: View, asked: Option<string>, pools: seq<PoolRow>)
    requires IsSummary(v, asked, pools)
    ensures (exists i, j :: 0 <= i < j < |pools| && ShownAs(pools[i].slug) == ShownAs(pools[j].slug)) <==>
            ("" in AllSlugs(v, asked) && DEFAULT_POOL in AllSlugs(v, asked))
  {
    hide AllSlugs, AllRows, RowFor;
    if "" in AllSlugs(v, asked) && DEFAULT_POOL in AllSlugs(v, asked) {
      assert "" in SlugsOf(pools) && DEFAULT_POOL in SlugsOf(pools);
      var a :| 0 <= a < |pools| && pools[a].slug == "";
      var b :| 0 <= b < |pools| && pools[b].slug == DEFAULT_POOL;
      assert ShownAs(pools[a].slug) == ShownAs(pools[b].slug);
      if b < a {
        assert ShownAs(pools[b].slug) == ShownAs(pools[a].slug);
      }
    }
    if i, j :| 0 <= i < j < |pools| && ShownAs(pools[i].slug) == ShownAs(pools[j].slug) {
      assert pools[i].slug in SlugsOf(pools) && pools[j].slug in SlugsOf(pools);
    }
  }

  lemma EventTotalsHold(v: View, asked: Option<string>, pools: seq<PoolRow>)
    requires IsSummary(v, asked, pools)
    ensures TotalOf(pools, EventsCount) == |HostEvents(v.db, v.scope)|
    ensures TotalOf(pools, PublishedCount) == Sum(HostEvents(v.db, v.scope), OnePublished)
    ensures TotalOf(pools, RewardTotal) == Sum(HostEvents(v.db, v.scope), RewardOf)
  {
    hide Sum, HostEvents, AllSlugs, PoolTotal, HostedIn, TotalOf;
    SlugsCover(v, asked);
    TotalIsSum(v, EventsCount, pools);
    TotalIsSum(v, PublishedCount, pools);
    TotalIsSum(v, RewardTotal, pools);
    EventColumnTotal(v, EventsCount, OneEvent, AllSlugs(v, asked));
    EventColumnTotal(v, PublishedCount, OnePublished, AllSlugs(v, asked));
    EventColumnTotal(v, RewardTotal, RewardOf, AllSlugs(v, asked));
    Constant(HostEvents(v.db, v.scope), OneEvent, 1);
  }

  lemma CreditTotalsHold(v: View, asked: Option<string>, pools: seq<PoolRow>)
    requires v.Sane() && IsSummary(v, asked, pools)
    ensures TotalOf(pools, VerifiedTotal) == Sum(HostEvents(v.db, v.scope), EventTotals(v.db, Verified))
    ensures TotalOf(pools, FundedTotal) == Sum(HostEvents(v.db, v.scope), EventTotals(v.db, Credited))
    ensures TotalOf(pools, DeficitTotal) == Sum(HostEvents(v.db, v.scope), EventTotals(v.db, Deficit))
  {
    hide Sum, HostEvents, AllSlugs, PoolTotal, HostedIn, TotalOf, EventTotals;
    SlugsCover(v, asked);
    var slugs := AllSlugs(v, asked);
    TotalIsSum(v, VerifiedTotal, pools);
    TotalIsSum(v, FundedTotal, pools);
    TotalIsSum(v, DeficitTotal, pools);
    TotalsAgree(v.db, v.scope, Verified, slugs);
    TotalsAgree(v.db, v.scope, Credited, slugs);
    TotalsAgree(v.db, v.scope, Deficit, slugs);
    Congruent(slugs, ColumnOf(v, VerifiedTotal), PoolTotals(v.db, v.scope, Verified));
    Congruent(slugs, ColumnOf(v, FundedTotal), PoolTotals(v.db, v.scope, Credited));
    Congruent(slugs, ColumnOf(v, DeficitTotal), PoolTotals(v.db, v.scope, Deficit));
  }

  lemma LedgerTotalsHold(v: View, asked: Option<string>, pools: seq<PoolRow>)
    requires v.Sane() && IsSummary(v, asked, pools)
    ensures TotalOf(pools, CreditsIn) == Sum(PoolSlugs.OwnTxs(v.ledger, v.members), PoolSlugs.AmountIn("credit"))
    ensures TotalOf(pools, CreditsOut) == Sum(PoolSlugs.OwnTxs(v.ledger, v.members), PoolSlugs.AmountIn("debit"))
  {
    hide Sum, HostEvents, AllSlugs, PoolTotal, HostedIn, TotalOf, PoolSlugs.LedgerTotal, PoolSlugs.Covers;
    hide PoolSlugs.OwnTxs;
    SlugsCover(v, asked);
    var slugs := AllSlugs(v, asked);
    TotalIsSum(v, CreditsIn, pools);
    TotalIsSum(v, CreditsOut, pools);
    PoolSlugs.LedgerCountsOnce(v.ledger, v.members, "credit", slugs);
    PoolSlugs.LedgerCountsOnce(v.ledger, v.members, "debit", slugs);
    Congruent(slugs, ColumnOf(v, CreditsIn), PoolSlugs.LedgerTotals(v.ledger, v.members, "credit"));
    Congruent(slugs, ColumnOf(v, CreditsOut), PoolSlugs.LedgerTotals(v.ledger, v.members, "debit"));
  }
}
