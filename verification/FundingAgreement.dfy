/** The pool summary and the event list account for the same credits. */
module FundingAgreement {
  import opened Wrappers
  import opened Strings
  import opened Sums
  import opened FundingRollup

  ghost function HostedIn(db: Db, scope: set<nat>, slug: string): set<EventRow> {
    set e | e in HostEvents(db, scope) && PoolOf(e) == slug
  }

  // ---------- Which pool an event is in ----------

  function Spaces(n: nat): string {
    if n == 0 then "" else " " + Spaces(n - 1)
  }

  /** Without a slug, or with nothing but spaces in it, an event is in the default pool, and otherwise in the pool
      that the slug names without the spaces around it, in lower case. */
  lemma PoolIs(e: EventRow, before: nat, name: string, after: nat)
    requires name == "" || (name[0] != ' ' && name[|name| - 1] != ' ')
    ensures e.slug.None? ==> PoolOf(e) == "general"
    ensures e.slug == Some(Spaces(before) + name + Spaces(after)) && name == "" ==> PoolOf(e) == "general"
    ensures e.slug == Some(Spaces(before) + name + Spaces(after)) && name != "" ==>
              |PoolOf(e)| == |name| && forall i :: 0 <= i < |name| ==> PoolOf(e)[i] == LowerChar(name[i])
  {
    SpacesAround(before, name, after);
    LowerAt(name);
  }

  lemma {:induction false} SpacesAround(before: nat, name: string, after: nat)
    requires name == "" || (name[0] != ' ' && name[|name| - 1] != ' ')
    ensures BTrim(Spaces(before) + name + Spaces(after)) == name
    decreases before + after
  {
    var s := Spaces(before) + name + Spaces(after);
    if before > 0 {
      SpacesAround(before - 1, name, after);
      assert s[0] == ' ' && s[1..] == Spaces(before - 1) + name + Spaces(after);
    } else if after > 0 {
      SpacesEnd(after);
      SpacesAround(0, name, after - 1);
      assert s[|s| - 1] == ' ' && s[..|s| - 1] == Spaces(0) + name + Spaces(after - 1);
      if name == "" {
        assert s[0] == ' ' && s[1..] == Spaces(0) + name + Spaces(after - 1);
      }
    } else {
      assert s == name;
    }
  }

  lemma {:induction false} SpacesEnd(n: nat)
    requires n > 0
    ensures Spaces(n) == Spaces(n - 1) + " "
  {
    if n > 1 {
      SpacesEnd(n - 1);
    }
  }

  lemma {:induction false} LowerAt(s: string)
    ensures forall i :: 0 <= i < |s| ==> ToLower(s)[i] == LowerChar(s[i])
  {
    if s != "" {
      LowerAt(s[1..]);
    }
  }

  /** Every slug is of that form. */
  lemma {:induction false} SpacesSplit(s: string) returns (before: nat, name: string, after: nat)
    ensures s == Spaces(before) + name + Spaces(after)
    ensures name == "" || (name[0] != ' ' && name[|name| - 1] != ' ')
    decreases |s|
  {
    if s != "" && s[0] == ' ' {
      before, name, after := SpacesSplit(s[1..]);
      before := before + 1;
    } else if s != "" && s[|s| - 1] == ' ' {
      before, name, after := SpacesSplit(s[..|s| - 1]);
      after := after + 1;
      SpacesEnd(after);
      assert s == s[..|s| - 1] + " ";
    } else {
      before, name, after := 0, s, 0;
    }
  }

  // ---------- Group by group ----------

  function LineOf(x: (EventRow, Funded)): Funded { x.1 }

  /** The lines grouped under (pool, event, volunteer) are those grouped under (event, volunteer). */
  lemma WalletGroupsAgree(db: Db, scope: set<nat>, e: EventRow, user: nat)
    requires db.Keyed() && e in HostEvents(db, scope)
    ensures var k := WalletKey(Some(e.id), user);
            && PoolAwarded(db, scope, (PoolOf(e), k)) == Awarded(db, k)
            && PoolFundedBy(db, scope, (PoolOf(e), k)) == FundedBy(db, k)
  {
    hide EarnedLines, PoolOf, Sum;
    var k := WalletKey(Some(e.id), user);
    var byPool := Group(PoolLines(db, scope), PoolLineKey, (PoolOf(e), k));
    var byEvent := Group(EarnedLines(db), LineKey, k);
    forall x | x in byPool ensures x.0 == e && LineOf(x) in byEvent {
    }
    forall l | l in byEvent ensures (e, l) in byPool && LineOf((e, l)) == l {
      assert (e, l) in PoolLines(db, scope);
    }
    Reindexed(byPool, byEvent, LineOf, PoolAmountOf, AmountOf);
    Reindexed(byPool, byEvent, LineOf, PoolCreditsOf, CreditsOf);
  }

  lemma RequestGroupsAgree(db: Db, scope: set<nat>, e: EventRow, user: Option<nat>)
    requires db.Keyed() && e in HostEvents(db, scope)
    ensures var k := RequestKey(Some(e.id), user);
            PoolRequestedBy(db, scope, (PoolOf(e), k)) == RequestedBy(db, k)
  {
    hide PoolOf, LargestOpen;
    var k := RequestKey(Some(e.id), user);
    var byPool := set x | x in PoolRequests(db, scope) && PoolRequestKey(x) == (PoolOf(e), k) :: x.1;
    var byEvent := set p | p in db.requests && Requested(p) && KeyOfRequest(p) == k;
    forall p | p in byEvent ensures p in byPool {
      assert (e, p) in PoolRequests(db, scope);
    }
    assert byPool == byEvent;
  }

  // ---------- Key by key ----------

  ghost predicate HostsIn(db: Db, scope: set<nat>, slug: string, event: Option<nat>) {
    exists e :: e in HostedIn(db, scope, slug) && event == Some(e.id)
  }

  lemma PoolWalletKeyIff(db: Db, scope: set<nat>, slug: string, w: WalletKey)
    ensures (slug, w) in PoolWalletKeys(db, scope) <==> w in WalletKeys(db) && HostsIn(db, scope, slug, w.event)
  {
    hide EarnedLines, PoolOf;
    if (slug, w) in PoolWalletKeys(db, scope) {
      var x :| x in PoolLines(db, scope) && PoolLineKey(x) == (slug, w);
      assert x.0 in HostedIn(db, scope, slug);
      assert LineKey(x.1) == w;
    }
    if w in WalletKeys(db) && HostsIn(db, scope, slug, w.event) {
      var l :| l in EarnedLines(db) && LineKey(l) == w;
      var e :| e in HostedIn(db, scope, slug) && w.event == Some(e.id);
      assert (e, l) in PoolLines(db, scope);
      assert PoolLineKey((e, l)) == (slug, w);
    }
  }

  lemma PoolRequestKeyIff(db: Db, scope: set<nat>, slug: string, p: RequestKey)
    ensures (slug, p) in PoolRequestKeys(db, scope) <==> p in RequestKeys(db) && HostsIn(db, scope, slug, p.event)
  {
    hide PoolOf;
    if (slug, p) in PoolRequestKeys(db, scope) {
      var x :| x in PoolRequests(db, scope) && PoolRequestKey(x) == (slug, p);
      assert x.0 in HostedIn(db, scope, slug);
      assert KeyOfRequest(x.1) == p;
    }
    if p in RequestKeys(db) && HostsIn(db, scope, slug, p.event) {
      var r :| r in db.requests && Requested(r) && KeyOfRequest(r) == p;
      var e :| e in HostedIn(db, scope, slug) && p.event == Some(e.id);
      assert (e, r) in PoolRequests(db, scope);
      assert PoolRequestKey((e, r)) == (slug, p);
    }
  }

  // ---------- Pair by pair ----------

  function Strip(x: Pair<(string, WalletKey), (string, RequestKey)>): Pair<WalletKey, RequestKey> {
    match x
    case Both(w, p) => Both(w.1, p.1)
    case WalletOnly(w) => WalletOnly(w.1)
    case RequestOnly(p) => RequestOnly(p.1)
  }

  function Tag(slug: string, y: Pair<WalletKey, RequestKey>): Pair<(string, WalletKey), (string, RequestKey)> {
    match y
    case Both(w, p) => Both((slug, w), (slug, p))
    case WalletOnly(w) => WalletOnly((slug, w))
    case RequestOnly(p) => RequestOnly((slug, p))
  }

  ghost function PairsIn(db: Db, scope: set<nat>, slug: string): set<Pair<WalletKey, RequestKey>> {
    set y | y in Pairs(db) && HostsIn(db, scope, slug, EventOf(y))
  }

  lemma KeysIff(db: Db, scope: set<nat>, slug: string)
    ensures forall w ::
              (slug, w) in PoolWalletKeys(db, scope) <==> w in WalletKeys(db) && HostsIn(db, scope, slug, w.event)
    ensures forall p ::
              (slug, p) in PoolRequestKeys(db, scope) <==> p in RequestKeys(db) && HostsIn(db, scope, slug, p.event)
  {
    hide *;
    forall w
      ensures (slug, w) in PoolWalletKeys(db, scope) <==> w in WalletKeys(db) && HostsIn(db, scope, slug, w.event)
    {
      PoolWalletKeyIff(db, scope, slug, w);
    }
    forall p
      ensures (slug, p) in PoolRequestKeys(db, scope) <==> p in RequestKeys(db) && HostsIn(db, scope, slug, p.event)
    {
      PoolRequestKeyIff(db, scope, slug, p);
    }
  }

  lemma StripIn(db: Db, scope: set<nat>, slug: string, x: Pair<(string, WalletKey), (string, RequestKey)>)
    requires x in PoolPairs(db, scope) && PoolOfPair(x) == slug
    ensures Strip(x) in PairsIn(db, scope, slug) && Tag(slug, Strip(x)) == x
  {
    hide HostsIn, WalletKeys, RequestKeys, PoolWalletKeys, PoolRequestKeys;
    KeysIff(db, scope, slug);
  }

  lemma TagIn(db: Db, scope: set<nat>, slug: string, y: Pair<WalletKey, RequestKey>)
    requires y in PairsIn(db, scope, slug)
    ensures Tag(slug, y) in PoolPairs(db, scope) && PoolOfPair(Tag(slug, y)) == slug && Strip(Tag(slug, y)) == y
  {
    hide HostsIn, WalletKeys, RequestKeys, PoolWalletKeys, PoolRequestKeys;
    KeysIff(db, scope, slug);
  }

  lemma SameValue(db: Db, scope: set<nat>, m: Measure, slug: string, y: Pair<WalletKey, RequestKey>)
    requires db.Keyed() && y in PairsIn(db, scope, slug)
    ensures PoolValueOf(db, scope, m, Tag(slug, y)) == ValueOf(db, m, y)
  {
    hide PoolAwarded, Awarded, PoolFundedBy, FundedBy, PoolRequestedBy, RequestedBy, WalletKeys, RequestKeys;
    hide PoolOf, Measured;
    var e :| e in HostedIn(db, scope, slug) && EventOf(y) == Some(e.id);
    match y
    case Both(w, p) =>
      WalletGroupsAgree(db, scope, e, w.user);
      RequestGroupsAgree(db, scope, e, p.user);
    case WalletOnly(w) =>
      WalletGroupsAgree(db, scope, e, w.user);
    case RequestOnly(p) =>
      RequestGroupsAgree(db, scope, e, p.user);
  }

  lemma PoolTotalByPairs(db: Db, scope: set<nat>, m: Measure, slug: string)
    requires db.Keyed()
    ensures PoolTotal(db, scope, m, slug) == Sum(PairsIn(db, scope, slug), Values(db, m))
  {
    hide PoolPairs, PairsIn, PoolValueOf, ValueOf, Strip, Tag, PoolOfPair, Sum;
    var group := Group(PoolPairs(db, scope), PoolOfPair, slug);
    forall x | x in group
      ensures Strip(x) in PairsIn(db, scope, slug) && Tag(slug, Strip(x)) == x
      ensures PoolValues(db, scope, m)(x) == Values(db, m)(Strip(x))
    {
      StripIn(db, scope, slug, x);
      SameValue(db, scope, m, slug, Strip(x));
    }
    forall y | y in PairsIn(db, scope, slug) ensures exists x :: x in group && Strip(x) == y {
      TagIn(db, scope, slug, y);
      assert Tag(slug, y) in group;
    }
    Reindexed(group, PairsIn(db, scope, slug), Strip, PoolValues(db, scope, m), Values(db, m));
  }

  // ---------- The join with the receipts ----------

  ghost function EarnedTxs(db: Db): set<WalletTx> {
    set tx | tx in db.wallet && Earned(tx)
  }

  function KeyOfTx(tx: WalletTx): WalletKey { WalletKey(tx.event, tx.user) }
  function TxOf(l: Funded): WalletTx { l.tx }
  function AmountOfTx(tx: WalletTx): int { tx.amount }
  function CreditsOfReceipt(r: Receipt): int { r.credits }

  /** The receipts of the earned transactions with the key. */
  ghost function ReceiptsOf(db: Db, k: WalletKey): set<Receipt> {
    set r, tx | r in db.receipts && tx in EarnedTxs(db) && KeyOfTx(tx) == k && r.walletTx == tx.id :: r
  }

  /** With one receipt a transaction at most, the left join repeats no transaction. */
  lemma LinesAreTransactions(db: Db, k: WalletKey)
    requires db.OneReceiptEach()
    ensures forall l :: l in Group(EarnedLines(db), LineKey, k) ==> TxOf(l) in Group(EarnedTxs(db), KeyOfTx, k)
    ensures forall l, l' | l in Group(EarnedLines(db), LineKey, k) && l' in Group(EarnedLines(db), LineKey, k) ::
              TxOf(l) == TxOf(l') ==> l == l'
    ensures forall tx :: tx in Group(EarnedTxs(db), KeyOfTx, k) ==>
              exists l :: l in Group(EarnedLines(db), LineKey, k) && TxOf(l) == tx
  {
    forall tx | tx in Group(EarnedTxs(db), KeyOfTx, k)
      ensures exists l :: l in Group(EarnedLines(db), LineKey, k) && TxOf(l) == tx
    {
      if HasReceipt(db, tx) {
        var r :| r in db.receipts && r.walletTx == tx.id;
        assert Funded(tx, Some(r)) in Group(EarnedLines(db), LineKey, k);
      } else {
        assert Funded(tx, None) in Group(EarnedLines(db), LineKey, k);
      }
    }
  }

  predicate Bare(l: Funded) { l.receipt.None? }

  function ReceiptIn(l: Funded): Receipt {
    match l.receipt case Some(r) => r case None => Receipt(0, 0, 0)
  }

  /**
   * So a group's awarded sum is that of its wallet transactions, each once, and its funded sum that of
   * their receipts, each once.
   */
  lemma NoFanOut(db: Db, k: WalletKey)
    requires db.OneReceiptEach()
    ensures Awarded(db, k) == Sum(Group(EarnedTxs(db), KeyOfTx, k), AmountOfTx)
    ensures FundedBy(db, k) == Sum(ReceiptsOf(db, k), CreditsOfReceipt)
  {
    hide Sum, EarnedLines;
    var lines := Group(EarnedLines(db), LineKey, k);
    LinesAreTransactions(db, k);
    Reindexed(lines, Group(EarnedTxs(db), KeyOfTx, k), TxOf, AmountOf, AmountOfTx);
    var bare := set l | l in lines && Bare(l);
    Sums.Split(lines, bare, CreditsOf);
    Constant(bare, CreditsOf, 0);
    FundedLines(db, k);
    Reindexed(lines - bare, ReceiptsOf(db, k), ReceiptIn, CreditsOf, CreditsOfReceipt);
  }

  lemma FundedLines(db: Db, k: WalletKey)
    requires db.OneReceiptEach()
    ensures var lines := Group(EarnedLines(db), LineKey, k);
            && (forall l | l in lines && !Bare(l) ::
                  ReceiptIn(l) in ReceiptsOf(db, k) && CreditsOf(l) == CreditsOfReceipt(ReceiptIn(l)))
            && (forall l, l' | l in lines && l' in lines && !Bare(l) && !Bare(l') ::
                  ReceiptIn(l) == ReceiptIn(l') ==> l == l')
            && (forall r :: r in ReceiptsOf(db, k) ==> exists l :: l in lines && !Bare(l) && ReceiptIn(l) == r)
  {
    forall r | r in ReceiptsOf(db, k)
      ensures exists l :: l in Group(EarnedLines(db), LineKey, k) && !Bare(l) && ReceiptIn(l) == r
    {
      var tx :| tx in EarnedTxs(db) && KeyOfTx(tx) == k && r.walletTx == tx.id;
      assert Funded(tx, Some(r)) in Group(EarnedLines(db), LineKey, k);
    }
  }

  // ---------- What an event's totals are, volunteer by volunteer ----------

  /** Who earned credits for the event or asked for some; a request may name nobody. */
  ghost function Volunteers(db: Db, id: nat): set<Option<nat>> {
    (set tx | tx in db.wallet && tx.reason == "earn_shift" && tx.direction == "credit" && tx.event == Some(id)
       :: Some(tx.user))
    + (set p | p in db.requests && p.reason == Some("earn_shift") && p.event == Some(id) :: p.volunteer)
  }

  /** The volunteer's credited transactions for work at the event. */
  ghost function EarnedAt(db: Db, id: nat, v: Option<nat>): set<WalletTx> {
    set tx | tx in db.wallet && tx.reason == "earn_shift" && tx.direction == "credit"
             && tx.event == Some(id) && Some(tx.user) == v
  }

  ghost function EarnedSum(db: Db, id: nat, v: Option<nat>): int { Sum(EarnedAt(db, id, v), AmountOfTx) }

  /** The receipts of those transactions. */
  ghost function ReceiptsAt(db: Db, id: nat, v: Option<nat>): set<Receipt> {
    set r, tx | r in db.receipts && tx in EarnedAt(db, id, v) && r.walletTx == tx.id :: r
  }

  ghost function FundedSum(db: Db, id: nat, v: Option<nat>): int { Sum(ReceiptsAt(db, id, v), CreditsOfReceipt) }

  /** n is the largest of the volunteer's pending or approved requests for the event, or 0 if there are none. */
  ghost predicate IsLargestRequest(db: Db, id: nat, v: Option<nat>, n: int) {
    var asked := set p | p in db.requests && p.reason == Some("earn_shift") && p.event == Some(id) && p.volunteer == v
                         && p.status in {"pending", "approved"};
    && (forall p :: p in asked ==> p.amount <= n)
    && (if asked == {} then n == 0 else exists p :: p in asked && p.amount == n)
  }

  ghost function RequestSum(db: Db, id: nat, v: Option<nat>): int { RequestedBy(db, RequestKey(Some(id), v)) }

  lemma RequestSumIsLargest(db: Db, id: nat, v: Option<nat>)
    ensures IsLargestRequest(db, id, v, RequestSum(db, id, v))
  {
    var s := set p | p in db.requests && Requested(p) && KeyOfRequest(p) == RequestKey(Some(id), v);
    var asked := set p | p in db.requests && p.reason == Some("earn_shift") && p.event == Some(id) && p.volunteer == v
                         && p.status in {"pending", "approved"};
    assert asked == set p | p in s && Open(p);
    if exists p :: p in s && Open(p) {
      var q :| q in s && Open(q);
      assert q in asked;
      LargestExists(s);
      var p :| IsLargestOpen(s, p) && LargestOpen(s) == p.amount;
      assert p in asked;
    }
  }

  /** What is verified: the credits earned where they are positive, and the largest open request otherwise. */
  ghost function VerifiedFor(db: Db, id: nat): Option<nat> -> int {
    v => if EarnedSum(db, id, v) > 0 then EarnedSum(db, id, v) else RequestSum(db, id, v)
  }

  ghost function FundedFor(db: Db, id: nat): Option<nat> -> int { v => FundedSum(db, id, v) }

  ghost function ShortFor(db: Db, id: nat): Option<nat> -> int {
    v => if VerifiedFor(db, id)(v) > FundedFor(db, id)(v) then VerifiedFor(db, id)(v) - FundedFor(db, id)(v) else 0
  }

  ghost function MeasureFor(db: Db, m: Measure, id: nat): Option<nat> -> int {
    match m case Verified => VerifiedFor(db, id) case Credited => FundedFor(db, id) case Deficit => ShortFor(db, id)
  }

  function VolunteerOf(x: Pair<WalletKey, RequestKey>): Option<nat> {
    match x
    case Both(w, _) => Some(w.user)
    case WalletOnly(w) => Some(w.user)
    case RequestOnly(p) => p.user
  }

  lemma NobodyEarned(db: Db, id: nat, v: Option<nat>)
    requires v.None? || WalletKey(Some(id), v.value) !in WalletKeys(db)
    ensures EarnedSum(db, id, v) == 0 && FundedSum(db, id, v) == 0
  {
    if tx :| tx in EarnedAt(db, id, v) {
      EarnedIsKeyed(db, tx);
      assert false;
    }
    assert EarnedAt(db, id, v) == {} && ReceiptsAt(db, id, v) == {};
  }

  lemma EarnedIsKeyed(db: Db, tx: WalletTx)
    requires tx in db.wallet && Earned(tx)
    ensures KeyOfTx(tx) in WalletKeys(db)
  {
    if HasReceipt(db, tx) {
      var r :| r in db.receipts && r.walletTx == tx.id;
      assert LineKey(Funded(tx, Some(r))) == KeyOfTx(tx) && Funded(tx, Some(r)) in EarnedLines(db);
    } else {
      assert LineKey(Funded(tx, None)) == KeyOfTx(tx) && Funded(tx, None) in EarnedLines(db);
    }
  }

  lemma KeyedIsEarned(db: Db, w: WalletKey)
    requires w in WalletKeys(db)
    ensures exists tx :: tx in db.wallet && Earned(tx) && KeyOfTx(tx) == w
  {
    var l :| l in EarnedLines(db) && LineKey(l) == w;
    assert KeyOfTx(l.tx) == w;
  }

  lemma NobodyAsked(db: Db, id: nat, v: Option<nat>)
    requires RequestKey(Some(id), v) !in RequestKeys(db)
    ensures RequestSum(db, id, v) == 0
  {
    hide LargestOpen;
    assert (set p | p in db.requests && Requested(p) && KeyOfRequest(p) == RequestKey(Some(id), v)) == {};
    NoneIsZero();
  }

  lemma NoneIsZero()
    ensures LargestOpen({}) == 0
  {
  }

  lemma SumsOfKey(db: Db, id: nat, user: nat)
    requires db.OneReceiptEach()
    ensures Awarded(db, WalletKey(Some(id), user)) == EarnedSum(db, id, Some(user))
    ensures FundedBy(db, WalletKey(Some(id), user)) == FundedSum(db, id, Some(user))
  {
    hide Awarded, FundedBy, Sum;
    var k := WalletKey(Some(id), user);
    NoFanOut(db, k);
    assert Group(EarnedTxs(db), KeyOfTx, k) == EarnedAt(db, id, Some(user));
    assert ReceiptsOf(db, k) == ReceiptsAt(db, id, Some(user));
  }

  lemma MeasureIs(db: Db, m: Measure, id: nat, v: Option<nat>)
    ensures MeasureFor(db, m, id)(v) == Measured(m, EarnedSum(db, id, v), RequestSum(db, id, v), FundedSum(db, id, v))
  {
    hide EarnedSum, RequestSum, FundedSum;
    match m
    case Verified => assert MeasureFor(db, m, id) == VerifiedFor(db, id);
    case Credited => assert MeasureFor(db, m, id) == FundedFor(db, id);
    case Deficit =>
      var verified, funded := VerifiedFor(db, id)(v), FundedFor(db, id)(v);
      assert MeasureFor(db, m, id)(v) == if verified > funded then verified - funded else 0;
      assert verified == Measured(Verified, EarnedSum(db, id, v), RequestSum(db, id, v), FundedSum(db, id, v));
  }

  /** What a joined line of the event shows is what its volunteer's rows amount to. */
  lemma LineShows(db: Db, m: Measure, id: nat, x: Pair<WalletKey, RequestKey>)
    requires db.OneReceiptEach() && x in Pairs(db) && EventOf(x) == Some(id)
    ensures ValueOf(db, m, x) == MeasureFor(db, m, id)(VolunteerOf(x))
  {
    hide Awarded, FundedBy, EarnedSum, FundedSum, RequestedBy, WalletKeys, RequestKeys, Db.OneReceiptEach;
    hide Measured, MeasureFor;
    MeasureIs(db, m, id, VolunteerOf(x));
    match x
    case Both(w, p) => SumsOfKey(db, id, w.user);
    case WalletOnly(w) =>
      SumsOfKey(db, id, w.user);
      assert Matches(w, RequestKey(Some(id), Some(w.user)));
      NobodyAsked(db, id, Some(w.user));
    case RequestOnly(p) =>
      if p.user.Some? {
        assert Matches(WalletKey(Some(id), p.user.value), p);
      }
      NobodyEarned(db, id, p.user);
  }

  /** An event's joined lines are its volunteers, one line each. */
  lemma LinesAreVolunteers(db: Db, id: nat)
    ensures var lines := Group(Pairs(db), EventOf, Some(id));
            && (forall x :: x in lines ==> VolunteerOf(x) in Volunteers(db, id))
            && (forall x, y :: x in lines && y in lines && VolunteerOf(x) == VolunteerOf(y) ==> x == y)
            && (forall v :: v in Volunteers(db, id) ==> exists x :: x in lines && VolunteerOf(x) == v)
  {
    hide WalletKeys, RequestKeys;
    var lines := Group(Pairs(db), EventOf, Some(id));
    forall x | x in lines ensures VolunteerOf(x) in Volunteers(db, id) {
      LineIsVolunteer(db, id, x);
    }
    forall v | v in Volunteers(db, id) ensures exists x :: x in lines && VolunteerOf(x) == v {
      var x := VolunteerHasLine(db, id, v);
    }
  }

  lemma LineIsVolunteer(db: Db, id: nat, x: Pair<WalletKey, RequestKey>)
    requires x in Pairs(db) && EventOf(x) == Some(id)
    ensures VolunteerOf(x) in Volunteers(db, id)
  {
    hide WalletKeys;
    if x.RequestOnly? {
      var p :| p in db.requests && Requested(p) && KeyOfRequest(p) == x.p;
    } else {
      KeyedIsEarned(db, x.w);
      var tx :| tx in db.wallet && Earned(tx) && KeyOfTx(tx) == x.w;
    }
  }

  lemma AskedUnlessEarned(db: Db, id: nat, v: Option<nat>) returns (q: Request)
    requires v in Volunteers(db, id) && EarnedAt(db, id, v) == {}
    ensures q in db.requests && Requested(q) && KeyOfRequest(q) == RequestKey(Some(id), v)
  {
    forall tx | tx in db.wallet ensures tx !in EarnedAt(db, id, v) {
    }
    q :| q in db.requests && q.reason == Some("earn_shift") && q.event == Some(id) && q.volunteer == v;
  }

  lemma VolunteerHasLine(db: Db, id: nat, v: Option<nat>) returns (x: Pair<WalletKey, RequestKey>)
    requires v in Volunteers(db, id)
    ensures x in Pairs(db) && EventOf(x) == Some(id) && VolunteerOf(x) == v
  {
    hide WalletKeys;
    var p := RequestKey(Some(id), v);
    if tx :| tx in EarnedAt(db, id, v) {
      var w := WalletKey(Some(id), tx.user);
      EarnedIsKeyed(db, tx);
      x := if p in RequestKeys(db) then Both(w, p) else WalletOnly(w);
    } else {
      var q := AskedUnlessEarned(db, id, v);
      x := RequestOnly(p);
      forall w | w in WalletKeys(db) ensures !Matches(w, p) {
        KeyedIsEarned(db, w);
        var tx :| tx in db.wallet && Earned(tx) && KeyOfTx(tx) == w;
        assert tx !in EarnedAt(db, id, v);
      }
    }
  }

  /**
   * What the event list shows for an event, from the tables' rows: the sum over its volunteers of the credits
   * they earned, or else of their largest open request; of the receipts of those credits; and of what the
   * second falls short of the first.
   */
  lemma EventTotalIs(db: Db, m: Measure, id: nat)
    requires db.OneReceiptEach()
    ensures EventTotal(db, m, id) == Sum(Volunteers(db, id), MeasureFor(db, m, id))
  {
    hide Sum, Pairs, ValueOf, EventOf, VolunteerOf, Volunteers, MeasureFor, Db.OneReceiptEach;
    LinesAreVolunteers(db, id);
    var lines := Group(Pairs(db), EventOf, Some(id));
    forall x | x in lines ensures Values(db, m)(x) == MeasureFor(db, m, id)(VolunteerOf(x)) {
      LineShows(db, m, id, x);
    }
    Reindexed(lines, Volunteers(db, id), VolunteerOf, Values(db, m), MeasureFor(db, m, id));
  }

  /** What is funded is all receipts of the event's earned transactions. */
  lemma CreditedIsReceipts(db: Db, id: nat)
    requires db.OneReceiptEach()
    ensures EventTotal(db, Credited, id)
         == Sum((set r, tx | r in db.receipts && tx in db.wallet && tx.reason == "earn_shift"
                             && tx.direction == "credit" && tx.event == Some(id) && r.walletTx == tx.id :: r),
                CreditsOfReceipt)
  {
    hide Sum, EventTotal;
    EventTotalIs(db, Credited, id);
    var all := set r, tx | r in db.receipts && tx in db.wallet && tx.reason == "earn_shift" && tx.direction == "credit"
                           && tx.event == Some(id) && r.walletTx == tx.id :: r;
    var owner := EarnerOf(db, id);
    forall r | r in all ensures owner(r) in Volunteers(db, id) {
      EarnerIs(db, id, r);
    }
    Grouped(all, CreditsOfReceipt, owner, Volunteers(db, id));
    forall v | v in Volunteers(db, id) ensures FundedFor(db, id)(v) == GroupSum(all, CreditsOfReceipt, owner)(v) {
      forall r ensures r in Group(all, owner, v) <==> r in ReceiptsAt(db, id, v) {
        if r in all || r in ReceiptsAt(db, id, v) {
          EarnerIs(db, id, r);
        }
      }
      assert Group(all, owner, v) == ReceiptsAt(db, id, v);
    }
    Congruent(Volunteers(db, id), FundedFor(db, id), GroupSum(all, CreditsOfReceipt, owner));
  }

  /** The volunteer who earned the credits a receipt of the event is for. */
  ghost function EarnerOf(db: Db, id: nat): Receipt -> Option<nat> {
    (r: Receipt) =>
         if exists tx :: tx in db.wallet && Earned(tx) && tx.event == Some(id) && tx.id == r.walletTx then
           var tx :| tx in db.wallet && Earned(tx) && tx.event == Some(id) && tx.id == r.walletTx;
           Some(tx.user)
         else None
  }

  lemma EarnerIs(db: Db, id: nat, r: Receipt)
    requires db.OneReceiptEach()
    requires exists tx :: tx in db.wallet && Earned(tx) && tx.event == Some(id) && tx.id == r.walletTx
    ensures EarnerOf(db, id)(r) in Volunteers(db, id)
    ensures forall tx :: tx in db.wallet && Earned(tx) && tx.event == Some(id) && tx.id == r.walletTx ==>
              EarnerOf(db, id)(r) == Some(tx.user)
  {
  }

  /**
   * The deficit is at least what is verified less what is funded, and as much exactly when no volunteer is
   * funded beyond what is verified; and there is none exactly when every volunteer is covered.
   */
  lemma DeficitIs(db: Db, id: nat)
    requires db.OneReceiptEach()
    ensures var verified, funded := VerifiedFor(db, id), FundedFor(db, id);
            var deficit := EventTotal(db, Deficit, id);
            && deficit >= EventTotal(db, Verified, id) - EventTotal(db, Credited, id)
            && (deficit == EventTotal(db, Verified, id) - EventTotal(db, Credited, id) <==>
                  forall v :: v in Volunteers(db, id) ==> funded(v) <= verified(v))
            && (deficit == 0 <==> forall v :: v in Volunteers(db, id) ==> funded(v) >= verified(v))
  {
    hide Sum, EventTotal, Volunteers, VerifiedFor, FundedFor;
    var vs := Volunteers(db, id);
    var verified, funded, short := VerifiedFor(db, id), FundedFor(db, id), ShortFor(db, id);
    EventTotalIs(db, Verified, id);
    EventTotalIs(db, Credited, id);
    EventTotalIs(db, Deficit, id);
    var over := (v: Option<nat>) => if funded(v) > verified(v) then funded(v) - verified(v) else 0;
    var total := (v: Option<nat>) => funded(v) + short(v);
    Added(vs, verified, over, total);
    Added(vs, funded, short, total);
    NonNegative(vs, over);
    NonNegative(vs, short);
  }

  // ---------- The two rollups ----------

  function EventKey(e: EventRow): Option<nat> { Some(e.id) }

  /**
   * For each measure and every pool slug, the pool summary's total is the sum, over the host's events
   * with that slug, of the totals the event list shows.
   */
  lemma RollupsAgree(db: Db, scope: set<nat>, m: Measure, slug: string)
    requires db.Keyed()
    ensures PoolTotal(db, scope, m, slug) == Sum(HostedIn(db, scope, slug), EventTotals(db, m))
  {
    hide Pairs, PoolTotal, PoolOf, Sum, ValueOf, EventOf;
    PoolTotalByPairs(db, scope, m, slug);
    var pairs := PairsIn(db, scope, slug);
    var hosted := HostedIn(db, scope, slug);
    var keys := set e | e in hosted :: EventKey(e);
    Grouped(pairs, Values(db, m), EventOf, keys);
    var bySum := GroupSum(pairs, Values(db, m), EventOf);
    forall e | e in hosted ensures EventTotals(db, m)(e) == bySum(EventKey(e)) {
      assert Group(pairs, EventOf, EventKey(e)) == Group(Pairs(db), EventOf, Some(e.id));
    }
    Reindexed(hosted, keys, EventKey, EventTotals(db, m), bySum);
  }

  /** Summed over any set of slugs that covers the host's pools, every credit of every hosted event is counted once. */
  lemma TotalsAgree(db: Db, scope: set<nat>, m: Measure, slugs: set<string>)
    requires db.Keyed() && forall e :: e in HostEvents(db, scope) ==> PoolOf(e) in slugs
    ensures Sum(slugs, PoolTotals(db, scope, m)) == Sum(HostEvents(db, scope), EventTotals(db, m))
  {
    hide PoolTotal, PoolOf, Sum, EventTotal;
    Grouped(HostEvents(db, scope), EventTotals(db, m), PoolOf, slugs);
    var byPool := GroupSum(HostEvents(db, scope), EventTotals(db, m), PoolOf);
    forall s | s in slugs ensures PoolTotals(db, scope, m)(s) == byPool(s) {
      RollupsAgree(db, scope, m, s);
      assert Group(HostEvents(db, scope), PoolOf, s) == HostedIn(db, scope, s);
    }
    Congruent(slugs, PoolTotals(db, scope, m), byPool);
  }

  ghost function PoolTotals(db: Db, scope: set<nat>, m: Measure): string -> int { s => PoolTotal(db, scope, m, s) }
}
