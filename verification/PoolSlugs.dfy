/** Host-scoped funding pool slugs, `u<id>__<slug>`, and the prefix join over them. */
module PoolSlugs {
  import opened Wrappers
  import opened Strings
  import opened Sums

  const SCOPE_SEP := "__"

  /** A numeric user id, as text. */
  predicate IsId(id: string) {
    id != "" && forall i :: 0 <= i < |id| ==> IsDigit(id[i])
  }

  function Prefix(id: string): string { "u" + id + SCOPE_SEP }

  /** The pool a host's slug is stored under; without an owner the slug stays as it is. */
  function Scoped(id: string, slug: string): string {
    var owner := Trim(id);
    if owner == "" then slug else Prefix(owner) + slug
  }

  /** SQL's LEFT(stored, LENGTH(prefix)) = prefix. */
  predicate HasPrefix(stored: string, id: string) {
    Prefix(id) <= stored
  }

  /** SQL's SUBSTRING(stored FROM LENGTH(prefix) + 1). */
  function Suffix(stored: string, id: string): string
    requires HasPrefix(stored, id)
  {
    stored[|Prefix(id)|..]
  }

  lemma PrefixAt(stored: string, id: string)
    requires HasPrefix(stored, id)
    ensures |stored| >= |id| + 3 && stored[1..][..|id|] == id && stored[|id| + 1] == '_'
    ensures forall i :: 0 <= i < |id| ==> stored[i + 1] == id[i]
  {
    var p := Prefix(id);
    assert forall i :: 0 <= i < |p| ==> stored[i] == p[i];
    assert p[|id| + 1] == '_';
    assert forall i :: 0 <= i < |id| ==> p[i + 1] == id[i];
  }

  /** A stored slug carries at most one member's prefix. */
  lemma OnePrefix(stored: string, a: string, b: string)
    requires IsId(a) && IsId(b) && HasPrefix(stored, a) && HasPrefix(stored, b)
    ensures a == b
  {
    hide HasPrefix, Prefix;
    PrefixAt(stored, a);
    PrefixAt(stored, b);
    assert |a| == |b|;
  }

  lemma IdIsTrimmed(id: string)
    requires IsId(id)
    ensures Trim(id) == id
  {
    hide Trim;
    assert IsDigit(id[0]) && IsDigit(id[|id| - 1]);
  }

  /** Scoping loses nothing, and stripping the matched prefix gives the slug back. */
  lemma ScopedRoundTrip(id: string, slug: string)
    requires IsId(id)
    ensures HasPrefix(Scoped(id, slug), id) && Suffix(Scoped(id, slug), id) == slug
  {
    IdIsTrimmed(id);
  }

  /** White space around an owner's id is no part of it, and an owner of nothing else is none. */
  lemma ScopedIgnoresSpace(id: string, slug: string)
    ensures Scoped(id, slug) == if Trim(id) == "" then slug else Scoped(Trim(id), slug)
    ensures (forall i :: 0 <= i < |id| ==> IsSpace(id[i])) ==> Scoped(id, slug) == slug
  {
    var rest := TrimStart(id);
    assert rest != "" ==> rest[0] == id[|id| - |rest|];
  }

  /** Different (id, slug) pairs are stored under different slugs. */
  lemma ScopedIsInjective(a: string, s: string, b: string, t: string)
    requires IsId(a) && IsId(b) && Scoped(a, s) == Scoped(b, t)
    ensures a == b && s == t
  {
    hide Scoped, HasPrefix, Suffix;
    ScopedRoundTrip(a, s);
    ScopedRoundTrip(b, t);
    OnePrefix(Scoped(a, s), a, b);
  }

  // ---------- The prefix join ----------

  datatype Pool = Pool(id: nat, slug: string)
  datatype PoolTx = PoolTx(id: nat, pool: nat, direction: string, amount: int)

  datatype Ledger = Ledger(pools: set<Pool>, txs: set<PoolTx>) {
    ghost predicate Keyed() {
      forall a, b :: a in pools && b in pools && a.id == b.id ==> a == b
    }
  }

  /** One line of pools JOIN UNNEST(prefixes) LEFT JOIN transactions; the prefix is known by its position. */
  datatype Line = Line(pool: Pool, at: nat, tx: Option<PoolTx>)

  ghost predicate JoinsAt(p: Pool, members: seq<string>, i: nat) {
    i < |members| && HasPrefix(p.slug, members[i])
  }

  ghost function Lines(l: Ledger, members: seq<string>): set<Line> {
    (set p, i, t | p in l.pools && i in Below(|members|) && JoinsAt(p, members, i) && t in l.txs && t.pool == p.id
       :: Line(p, i, Some(t)))
    + (set p, i | p in l.pools && i in Below(|members|) && JoinsAt(p, members, i)
                  && (forall t :: t in l.txs ==> t.pool != p.id)
         :: Line(p, i, None))
  }

  /** The direction's credits on a line; a pool without transactions contributes nothing. */
  ghost function CreditsOn(direction: string): Line -> int {
    (x: Line) => match x.tx case Some(t) => if t.direction == direction then t.amount else 0 case None => 0
  }

  ghost function SlugOn(members: seq<string>): Line -> string {
    (x: Line) =>
      if x.at < |members| && HasPrefix(x.pool.slug, members[x.at]) then Suffix(x.pool.slug, members[x.at]) else ""
  }

  /** The pool summary's ledger total for one unscoped slug and one direction. */
  ghost function LedgerTotal(l: Ledger, members: seq<string>, direction: string, slug: string): int {
    Sum(Group(Lines(l, members), SlugOn(members), slug), CreditsOn(direction))
  }

  ghost function LedgerTotals(l: Ledger, members: seq<string>, direction: string): string -> int {
    s => LedgerTotal(l, members, direction, s)
  }

  ghost predicate Distinct(members: seq<string>) {
    && (forall i :: 0 <= i < |members| ==> IsId(members[i]))
    && (forall i, j :: 0 <= i < j < |members| ==> members[i] != members[j])
  }

  /** The transactions of pools some member's prefix scopes. */
  ghost function OwnTxs(l: Ledger, members: seq<string>): set<PoolTx> {
    set t, p | t in l.txs && p in l.pools && t.pool == p.id && Owned(p, members) :: t
  }

  ghost predicate Owned(p: Pool, members: seq<string>) {
    exists i :: 0 <= i < |members| && HasPrefix(p.slug, members[i])
  }

  function AmountIn(direction: string): PoolTx -> int {
    (t: PoolTx) => if t.direction == direction then t.amount else 0
  }

  /** No pool joins with two prefixes of distinct members. */
  lemma JoinsOnce(l: Ledger, members: seq<string>, x: Line, y: Line)
    requires Distinct(members) && x in Lines(l, members) && y in Lines(l, members) && x.pool == y.pool
    ensures x.at == y.at
  {
    hide HasPrefix, IsId;
    OnePrefix(x.pool.slug, members[x.at], members[y.at]);
  }

  /** The slugs under which some line is grouped. */
  ghost predicate Covers(slugs: set<string>, l: Ledger, members: seq<string>) {
    forall x :: x in Lines(l, members) ==> SlugOn(members)(x) in slugs
  }

  predicate HasTx(x: Line) { x.tx.Some? }

  function TxOf(x: Line): PoolTx
  {
    match x.tx case Some(t) => t case None => PoolTx(0, 0, "", 0)
  }

  /**
   * Over any set of slugs that covers the ledger, the totals of a direction add up to the credits
   * of the members' own transactions, each counted once.
   */
  lemma LedgerCountsOnce(l: Ledger, members: seq<string>, direction: string, slugs: set<string>)
    requires l.Keyed() && Distinct(members) && Covers(slugs, l, members)
    ensures Sum(slugs, LedgerTotals(l, members, direction)) == Sum(OwnTxs(l, members), AmountIn(direction))
  {
    hide Sum, SlugOn, HasPrefix, IsId, Distinct;
    var lines := Lines(l, members);
    Grouped(lines, CreditsOn(direction), SlugOn(members), slugs);
    Congruent(slugs, LedgerTotals(l, members, direction), GroupSum(lines, CreditsOn(direction), SlugOn(members)));
    var bare := set x | x in lines && !HasTx(x);
    Sums.Split(lines, bare, CreditsOn(direction));
    Constant(bare, CreditsOn(direction), 0);
    LinesAreTxs(l, members, direction);
    assert lines - bare == TxLines(l, members);
  }

  /** The transactions of the pools stored under the slug for some member. */
  ghost function TxsUnder(l: Ledger, members: seq<string>, slug: string): set<PoolTx> {
    set t, p | t in l.txs && p in l.pools && t.pool == p.id && IsUnder(p, members, slug) :: t
  }

  ghost predicate IsUnder(p: Pool, members: seq<string>, slug: string) {
    exists i :: 0 <= i < |members| && p.slug == Scoped(members[i], slug)
  }

  /** A prefix and what follows it make up the slug again. */
  lemma SuffixIff(stored: string, id: string, slug: string)
    requires IsId(id)
    ensures stored == Scoped(id, slug) <==> HasPrefix(stored, id) && Suffix(stored, id) == slug
  {
    IdIsTrimmed(id);
  }

  /** A slug's ledger total is the credits of the transactions of the pools stored under it for a member. */
  lemma LedgerTotalIs(l: Ledger, members: seq<string>, direction: string, slug: string)
    requires l.Keyed() && Distinct(members)
    ensures LedgerTotal(l, members, direction, slug) == Sum(TxsUnder(l, members, slug), AmountIn(direction))
  {
    hide Sum, HasPrefix, IsId, Distinct, Below, Suffix, Scoped;
    var lines := Group(Lines(l, members), SlugOn(members), slug);
    var bare := set x | x in lines && !HasTx(x);
    var full := lines - bare;
    Sums.Split(lines, bare, CreditsOn(direction));
    Constant(bare, CreditsOn(direction), 0);
    forall x, y | x in full && y in full && TxOf(x) == TxOf(y) ensures x == y {
      JoinsOnce(l, members, x, y);
    }
    forall x | x in lines ensures x.pool.slug == Scoped(members[x.at], slug) {
      SlugOfLine(l, members, x);
      SuffixIff(x.pool.slug, members[x.at], slug);
    }
    forall t | t in TxsUnder(l, members, slug) ensures exists x :: x in full && TxOf(x) == t {
      var p :| p in l.pools && t.pool == p.id && IsUnder(p, members, slug);
      var i :| 0 <= i < |members| && p.slug == Scoped(members[i], slug);
      MemberIsId(members, i);
      SuffixIff(p.slug, members[i], slug);
      assert JoinsAt(p, members, i);
      assert Line(p, i, Some(t)) in Lines(l, members);
      SlugOfLine(l, members, Line(p, i, Some(t)));
      assert Line(p, i, Some(t)) in full;
    }
    forall x | x in full ensures TxOf(x) in TxsUnder(l, members, slug) {
      assert IsUnder(x.pool, members, slug);
    }
    Reindexed(full, TxsUnder(l, members, slug), TxOf, CreditsOn(direction), AmountIn(direction));
  }

  lemma MemberIsId(members: seq<string>, i: nat)
    requires Distinct(members) && i < |members|
    ensures IsId(members[i])
  {
  }

  lemma SlugOfLine(l: Ledger, members: seq<string>, x: Line)
    requires Distinct(members) && x in Lines(l, members)
    ensures x.at < |members| && IsId(members[x.at]) && HasPrefix(x.pool.slug, members[x.at])
    ensures SlugOn(members)(x) == Suffix(x.pool.slug, members[x.at])
  {
    hide IsId, HasPrefix, Suffix;
    MemberIsId(members, x.at);
  }

  ghost function TxLines(l: Ledger, members: seq<string>): set<Line> {
    set x | x in Lines(l, members) && HasTx(x)
  }

  lemma LinesAreTxs(l: Ledger, members: seq<string>, direction: string)
    requires l.Keyed() && Distinct(members)
    ensures forall x :: x in TxLines(l, members) ==> TxOf(x) in OwnTxs(l, members)
    ensures forall x, y :: x in TxLines(l, members) && y in TxLines(l, members) && TxOf(x) == TxOf(y) ==> x == y
    ensures forall t :: t in OwnTxs(l, members) ==> exists x :: x in TxLines(l, members) && TxOf(x) == t
    ensures Sum(TxLines(l, members), CreditsOn(direction)) == Sum(OwnTxs(l, members), AmountIn(direction))
  {
    hide Sum, HasPrefix, IsId, Distinct, Below;
    var lines := TxLines(l, members);
    forall x, y | x in lines && y in lines && TxOf(x) == TxOf(y) ensures x == y {
      JoinsOnce(l, members, x, y);
    }
    forall x | x in lines ensures TxOf(x) in OwnTxs(l, members) {
      assert Owned(x.pool, members);
    }
    forall t | t in OwnTxs(l, members) ensures exists x :: x in lines && TxOf(x) == t {
      var p :| p in l.pools && t.pool == p.id && Owned(p, members);
      var i :| 0 <= i < |members| && HasPrefix(p.slug, members[i]);
      assert JoinsAt(p, members, i);
      assert Line(p, i, Some(t)) in lines;
    }
    Reindexed(lines, OwnTxs(l, members), TxOf, CreditsOn(direction), AmountIn(direction));
  }

  /** A member listed twice would have every one of its transactions joined twice. */
  lemma RepeatedMemberDoubles(l: Ledger, members: seq<string>, i: nat, j: nat, p: Pool, t: PoolTx)
    requires i < j < |members| && members[i] == members[j]
    requires p in l.pools && HasPrefix(p.slug, members[i]) && t in l.txs && t.pool == p.id
    ensures Line(p, i, Some(t)) in Lines(l, members) && Line(p, j, Some(t)) in Lines(l, members)
    ensures Line(p, i, Some(t)) != Line(p, j, Some(t))
  {
    assert JoinsAt(p, members, i) && JoinsAt(p, members, j);
  }
}
