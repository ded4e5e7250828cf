/** The donor summary and the paged donor list, as two computations over one database state. */
module DonorList {
  import opened Wrappers
  import opened Sums
  import opened Paging

  datatype Donation = Donation(id: nat, donor: nat, status: string)
  datatype Credit = Credit(id: nat, donation: Option<nat>, remaining: int, status: string)
  datatype Allocation = Allocation(id: nat, credit: nat, receipt: Option<nat>, amount: int, minutes: Option<int>)
  datatype Receipt = Receipt(id: nat, donation: Option<nat>, amount: int, minutes: Option<int>)
  datatype Review = Review(id: nat, donation: nat, status: string)

  datatype Db = Db(donations: set<Donation>, credits: set<Credit>, allocations: set<Allocation>,
                   receipts: set<Receipt>, reviews: set<Review>) {
    /** Primary keys, and donation_allocation_reviews' unique donation_id. */
    ghost predicate Keyed() {
      && (forall a, b :: a in donations && b in donations && a.id == b.id ==> a == b)
      && (forall a, b :: a in credits && b in credits && a.id == b.id ==> a == b)
      && (forall a, b :: a in receipts && b in receipts && a.id == b.id ==> a == b)
      && (forall a, b :: a in reviews && b in reviews && a.donation == b.donation ==> a == b)
    }
  }

  ghost function Mine(db: Db, donor: nat): set<Donation> {
    set d | d in db.donations && d.donor == donor && d.status == "captured"
  }

  ghost predicate IsMine(db: Db, donor: nat, id: Option<nat>) {
    exists d :: d in Mine(db, donor) && id == Some(d.id)
  }

  // ---------- allocation_receipts: allocations, and receipts no allocation refers to ----------

  datatype Line = FromAllocation(a: Allocation, c: Credit) | FromReceipt(r: Receipt)

  ghost predicate Linked(db: Db, r: Receipt) {
    exists a :: a in db.allocations && a.receipt == Some(r.id)
  }

  ghost function Lines(db: Db, donor: nat): set<Line> {
    (set a, c | a in db.allocations && c in db.credits && c.id == a.credit && IsMine(db, donor, c.donation)
       :: FromAllocation(a, c))
    + (set r | r in db.receipts && IsMine(db, donor, r.donation) && !Linked(db, r) :: FromReceipt(r))
  }

  function DonationOf(x: Line): Option<nat> {
    match x case FromAllocation(_, c) => c.donation case FromReceipt(r) => r.donation
  }

  function CreditsOf(x: Line): int {
    match x case FromAllocation(a, _) => a.amount case FromReceipt(r) => r.amount
  }

  function MinutesOf(x: Line): int {
    match x case FromAllocation(a, _) => a.minutes.GetOr(0) case FromReceipt(r) => r.minutes.GetOr(0)
  }

  function One(x: Line): int { 1 }

  /** The lines of one donation: GROUP BY donation_id. */
  ghost function Of(db: Db, donor: nat, d: Donation): set<Line> {
    Group(Lines(db, donor), DonationOf, Some(d.id))
  }

  /** SUM over the receipts CTE: group sums, summed over the groups there are. */
  ghost function Lifetime(db: Db, donor: nat, f: Line -> int): int {
    Sum((set x | x in Lines(db, donor) :: DonationOf(x)), GroupSum(Lines(db, donor), f, DonationOf))
  }

  // ---------- Receipts and the allocations linked to them ----------

  /** The line carries credits of the receipt: the receipt itself, or an allocation linked to it. */
  predicate Carries(x: Line, r: Receipt) {
    match x case FromAllocation(a, _) => a.receipt == Some(r.id) case FromReceipt(q) => q == r
  }

  ghost function Carriers(db: Db, donor: nat, r: Receipt): set<Line> {
    set x | x in Lines(db, donor) && Carries(x, r)
  }

  ghost function Carried(db: Db, donor: nat, r: Receipt): int {
    Sum(Carriers(db, donor, r), CreditsOf)
  }

  /** The allocations linked to the receipt whose funding credit is the donor's. */
  ghost function LinkedMine(db: Db, donor: nat, r: Receipt): set<Allocation> {
    set a, c | a in db.allocations && a.receipt == Some(r.id) && c in db.credits && c.id == a.credit
               && IsMine(db, donor, c.donation) :: a
  }

  function AmountOf(a: Allocation): int { a.amount }

  /** The line a receipt makes itself and a line of an allocation linked to it never both occur. */
  lemma NeverBoth(db: Db, donor: nat, r: Receipt, x: Line)
    requires FromReceipt(r) in Lines(db, donor) && x in Lines(db, donor) && Carries(x, r)
    ensures x == FromReceipt(r)
  {
    hide Mine;
  }

  function AllocationOf(x: Line): Allocation {
    match x case FromAllocation(a, _) => a case FromReceipt(_) => Allocation(0, 0, None, 0, None)
  }

  /** A receipt's credits reach the donor through its linked allocations, however many, or else directly. */
  lemma CarriedIs(db: Db, donor: nat, r: Receipt)
    requires db.Keyed() && r in db.receipts && IsMine(db, donor, r.donation)
    ensures Carried(db, donor, r) == if Linked(db, r) then Sum(LinkedMine(db, donor, r), AmountOf) else r.amount
  {
    hide Mine, Sum, IsMine;
    var carriers := Carriers(db, donor, r);
    if Linked(db, r) {
      forall x | x in carriers
        ensures AllocationOf(x) in LinkedMine(db, donor, r) && CreditsOf(x) == AmountOf(AllocationOf(x))
      {
      }
      forall a | a in LinkedMine(db, donor, r) ensures exists x :: x in carriers && AllocationOf(x) == a {
        var c :| c in db.credits && c.id == a.credit && IsMine(db, donor, c.donation);
        assert FromAllocation(a, c) in carriers;
      }
      Reindexed(carriers, LinkedMine(db, donor, r), AllocationOf, CreditsOf, AmountOf);
    } else {
      assert carriers == {FromReceipt(r)};
      Remove(carriers, CreditsOf, FromReceipt(r));
      assert carriers - {FromReceipt(r)} == {};
      Constant({}, CreditsOf, 0);
    }
  }

  /**
   * A donor's receipt enters the lifetime figure at its own amount, once, exactly when the donor's
   * allocations linked to it, if there are linked ones, add up to that amount.
   */
  lemma ReceiptCountedOnce(db: Db, donor: nat, r: Receipt)
    requires db.Keyed() && r in db.receipts && IsMine(db, donor, r.donation)
    ensures Lifetime(db, donor, CreditsOf) == Sum(Lines(db, donor) - Carriers(db, donor, r), CreditsOf) + r.amount <==>
            (Linked(db, r) ==> Sum(LinkedMine(db, donor, r), AmountOf) == r.amount)
  {
    hide Sum, Lines, Lifetime, Linked, LinkedMine;
    CarriedIs(db, donor, r);
    LifetimeIsSum(db, donor, CreditsOf);
    Sums.Split(Lines(db, donor), Carriers(db, donor, r), CreditsOf);
  }

  /** A receipt of some amount with one linked allocation of another: the lifetime figure shows the allocation. */
  lemma LinkedCountsInstead(donor: nat, id: nat, amount: int, linked: int)
    ensures var a, r := Allocation(0, 0, Some(0), linked, None), Receipt(0, Some(id), amount, None);
            var db := Db({Donation(id, donor, "captured")}, {Credit(0, Some(id), 0, "available")}, {a}, {r}, {});
            db.Keyed() && IsMine(db, donor, r.donation) && Lifetime(db, donor, CreditsOf) == linked
  {
    hide Lifetime;
    var d, c := Donation(id, donor, "captured"), Credit(0, Some(id), 0, "available");
    var a, r := Allocation(0, 0, Some(0), linked, None), Receipt(0, Some(id), amount, None);
    var db := Db({d}, {c}, {a}, {r}, {});
    assert d in Mine(db, donor);
    assert Lines(db, donor) == {FromAllocation(a, c)};
    LifetimeIsSum(db, donor, CreditsOf);
    Remove({FromAllocation(a, c)}, CreditsOf, FromAllocation(a, c));
    assert {FromAllocation(a, c)} - {FromAllocation(a, c)} == {};
    Constant({}, CreditsOf, 0);
  }

  lemma LifetimeIsSum(db: Db, donor: nat, f: Line -> int)
    ensures Lifetime(db, donor, f) == Sum(Lines(db, donor), f)
  {
    hide Sum, Lines;
    var lines := Lines(db, donor);
    Grouped(lines, f, DonationOf, (set x | x in lines :: DonationOf(x)));
  }

  function ReceiptIdOf(x: Line): Option<nat> {
    match x case FromAllocation(a, _) => a.receipt case FromReceipt(r) => Some(r.id)
  }

  function IdOfReceipt(r: Receipt): Option<nat> { Some(r.id) }

  ghost function CarriedBy(db: Db, donor: nat): Receipt -> int { r => Carried(db, donor, r) }

  /** The lines that carry no receipt: allocations made without one. */
  ghost function Loose(db: Db, donor: nat): set<Line> {
    set x | x in Lines(db, donor) && forall r :: r in db.receipts ==> ReceiptIdOf(x) != Some(r.id)
  }

  /** The lifetime figure is what the receipts carry, each line under one receipt, and the loose lines. */
  lemma LifetimeByReceipts(db: Db, donor: nat)
    requires db.Keyed()
    ensures Lifetime(db, donor, CreditsOf) == Sum(db.receipts, CarriedBy(db, donor)) + Sum(Loose(db, donor), CreditsOf)
  {
    hide Sum, Lines, Lifetime;
    var lines, loose := Lines(db, donor), Loose(db, donor);
    LifetimeIsSum(db, donor, CreditsOf);
    Sums.Split(lines, loose, CreditsOf);
    var held := lines - loose;
    var ids := set r | r in db.receipts :: IdOfReceipt(r);
    Grouped(held, CreditsOf, ReceiptIdOf, ids);
    var byId := GroupSum(held, CreditsOf, ReceiptIdOf);
    forall r | r in db.receipts ensures CarriedBy(db, donor)(r) == byId(IdOfReceipt(r)) {
      CarriersAreGroup(db, donor, r);
      assert Group(held, ReceiptIdOf, Some(r.id)) == Carriers(db, donor, r);
    }
    Reindexed(db.receipts, ids, IdOfReceipt, CarriedBy(db, donor), byId);
  }

  lemma CarriersAreGroup(db: Db, donor: nat, r: Receipt)
    requires db.Keyed() && r in db.receipts
    ensures Carriers(db, donor, r) == Group(Lines(db, donor), ReceiptIdOf, Some(r.id))
    ensures Carriers(db, donor, r) !! Loose(db, donor)
  {
    hide Mine, IsMine;
  }

  // ---------- One row per donation and review: the LEFT JOIN of both queries ----------

  datatype Row = Row(donation: Donation, review: Option<Review>)

  ghost function Rows(db: Db, donor: nat): set<Row> {
    (set d, r | d in Mine(db, donor) && r in db.reviews && r.donation == d.id :: Row(d, Some(r)))
    + (set d | d in Mine(db, donor) && (forall r :: r in db.reviews ==> r.donation != d.id) :: Row(d, None))
  }

  /** ORDER BY id LIMIT 1, and DISTINCT ON ordered by id: the credit with the least id. */
  ghost predicate IsFirstCredit(db: Db, d: Donation, c: Credit) {
    && c in db.credits && c.donation == Some(d.id)
    && forall q :: q in db.credits && q.donation == Some(d.id) ==> c.id <= q.id
  }

  ghost function FirstCredit(db: Db, d: Donation): Option<Credit> {
    if exists c :: IsFirstCredit(db, d, c) then var c :| IsFirstCredit(db, d, c); Some(c) else None
  }

  lemma FirstCreditIsUnique(db: Db, d: Donation, a: Credit, b: Credit)
    requires db.Keyed() && IsFirstCredit(db, d, a) && IsFirstCredit(db, d, b)
    ensures a == b
  {
  }

  // ---------- Statuses ----------

  datatype Code = ImpactUnderway | ImpactFunded | PendingReview | Allocated | Received

  function PendingReviews(): set<string> { {"pending_manual_review"} }
  function AllocatedReviews(): set<string> { {"manually_allocated", "policy_allocated"} }
  function AllocatedFunding(): set<string> { {"available", "allocated", "partially_spent", "spent"} }
  const HELD := "held_pending_manual_review"

  predicate Among(s: Option<string>, statuses: set<string>) {
    s.Some? && s.value in statuses
  }

  /** What the list shows for a donation. */
  function Resolve(receiptCount: int, remaining: int, review: Option<string>, funding: Option<string>): Code {
    if receiptCount > 0 then (if remaining > 0 then ImpactUnderway else ImpactFunded)
    else if Among(review, PendingReviews()) || funding == Some(HELD) then PendingReview
    else if Among(review, AllocatedReviews()) then Allocated
    else if Among(funding, AllocatedFunding()) then Allocated
    else Received
  }

  ghost function ReceiptCount(db: Db, donor: nat, d: Donation): int { Sum(Of(db, donor, d), One) }

  function ReviewStatus(x: Row): Option<string> {
    match x.review case Some(r) => Some(r.status) case None => None
  }

  ghost function FundingStatus(db: Db, x: Row): Option<string> {
    match FirstCredit(db, x.donation) case Some(c) => Some(c.status) case None => None
  }

  ghost function Remaining(db: Db, x: Row): int {
    match FirstCredit(db, x.donation) case Some(c) => c.remaining case None => 0
  }

  ghost function Listed(db: Db, donor: nat, x: Row): Code {
    Resolve(ReceiptCount(db, donor, x.donation), Remaining(db, x), ReviewStatus(x), FundingStatus(db, x))
  }

  /** The summary's WHERE clauses over status_rollup. */
  ghost predicate Counted(db: Db, donor: nat, code: Code, x: Row) {
    var count := ReceiptCount(db, donor, x.donation);
    match code
    case PendingReview =>
      count == 0 && (ReviewStatus(x) == Some("pending_manual_review") || FundingStatus(db, x) == Some(HELD))
    case Allocated => count == 0 && Among(ReviewStatus(x), AllocatedReviews())
    case ImpactUnderway => count > 0 && Remaining(db, x) > 0
    case ImpactFunded => count > 0 && Remaining(db, x) <= 0
    case Received => false
  }

  ghost function ShowsAs(db: Db, donor: nat, code: Code): Row -> int {
    x => if Listed(db, donor, x) == code then 1 else 0
  }

  ghost function CountsAs(db: Db, donor: nat, code: Code): Row -> int {
    x => if Counted(db, donor, code, x) then 1 else 0
  }

  lemma CountIsNonNegative(s: set<Line>)
    ensures Sum(s, One) == |s|
  {
    Constant(s, One, 1);
  }

  /** On the statuses with a counterpart, the list and the summary agree row by row. */
  lemma SameStatus(db: Db, donor: nat, code: Code, x: Row)
    requires code in {PendingReview, ImpactUnderway, ImpactFunded}
    ensures Listed(db, donor, x) == code <==> Counted(db, donor, code, x)
  {
    hide Of, Remaining, FundingStatus;
    CountIsNonNegative(Of(db, donor, x.donation));
  }

  /** The rows the list calls allocated for their funding alone. */
  ghost predicate OnlyListed(db: Db, donor: nat, x: Row) {
    && ReceiptCount(db, donor, x.donation) == 0
    && !Among(ReviewStatus(x), PendingReviews()) && !Among(ReviewStatus(x), AllocatedReviews())
    && Among(FundingStatus(db, x), AllocatedFunding())
  }

  /** The rows the summary counts as allocated although their funding is held for review. */
  ghost predicate OnlyCounted(db: Db, donor: nat, x: Row) {
    && ReceiptCount(db, donor, x.donation) == 0
    && Among(ReviewStatus(x), AllocatedReviews()) && FundingStatus(db, x) == Some(HELD)
  }

  /** For the allocated status the two agree on a row exactly when it is neither of those. */
  lemma AllocatedAgreesIff(db: Db, donor: nat, x: Row)
    ensures (Listed(db, donor, x) == Allocated <==> Counted(db, donor, Allocated, x)) <==>
            (!OnlyListed(db, donor, x) && !OnlyCounted(db, donor, x))
  {
    hide Of, Remaining, FundingStatus;
    CountIsNonNegative(Of(db, donor, x.donation));
  }

  ghost function Indicator(p: Row -> bool): Row -> int {
    x => if p(x) then 1 else 0
  }

  ghost function OnlyListedRows(db: Db, donor: nat): Row -> bool { x => OnlyListed(db, donor, x) }
  ghost function OnlyCountedRows(db: Db, donor: nat): Row -> bool { x => OnlyCounted(db, donor, x) }

  /** So the two allocated counts are equal exactly when those two kinds of row are equally many. */
  lemma AllocatedCountsEqualIff(db: Db, donor: nat)
    ensures var rows := Rows(db, donor);
            Sum(rows, ShowsAs(db, donor, Allocated)) == Sum(rows, CountsAs(db, donor, Allocated)) <==>
            Sum(rows, Indicator(OnlyListedRows(db, donor))) == Sum(rows, Indicator(OnlyCountedRows(db, donor)))
  {
    hide Sum, Rows, Listed, Counted, OnlyListed, OnlyCounted;
    var rows := Rows(db, donor);
    var shows, counts := ShowsAs(db, donor, Allocated), CountsAs(db, donor, Allocated);
    var listed, counted := Indicator(OnlyListedRows(db, donor)), Indicator(OnlyCountedRows(db, donor));
    var total := x => shows(x) + counted(x);
    forall x | x in rows ensures counts(x) + listed(x) == total(x) {
      AllocatedGap(db, donor, x);
    }
    Added(rows, shows, counted, total);
    Added(rows, counts, listed, total);
  }

  lemma AllocatedGap(db: Db, donor: nat, x: Row)
    ensures Counted(db, donor, Allocated, x) ==> !OnlyListed(db, donor, x)
    ensures OnlyCounted(db, donor, x) ==> Listed(db, donor, x) != Allocated && Counted(db, donor, Allocated, x)
    ensures OnlyListed(db, donor, x) ==> Listed(db, donor, x) == Allocated
    ensures Listed(db, donor, x) == Allocated ==> Counted(db, donor, Allocated, x) || OnlyListed(db, donor, x)
    ensures Counted(db, donor, Allocated, x) ==> Listed(db, donor, x) == Allocated || OnlyCounted(db, donor, x)
  {
    hide Of, Remaining, FundingStatus;
    CountIsNonNegative(Of(db, donor, x.donation));
  }

  // ---------- The list ----------

  /** Newest activity first, then the larger donation id. */
  predicate Before(activity: Row -> int, x: Row, y: Row) {
    activity(x) > activity(y) || (activity(x) == activity(y) && x.donation.id > y.donation.id)
  }

  ghost predicate IsListing(db: Db, donor: nat, activity: Row -> int, s: seq<Row>) {
    && (forall i, j :: 0 <= i < j < |s| ==> Before(activity, s[i], s[j]))
    && SetOf(s) == Rows(db, donor)
  }

  lemma {:induction false} OrderIsTotal(activity: Row -> int, s: seq<Row>, t: seq<Row>)
    requires forall i, j :: 0 <= i < j < |s| ==> Before(activity, s[i], s[j])
    requires forall i, j :: 0 <= i < j < |t| ==> Before(activity, t[i], t[j])
    requires forall x :: x in s <==> x in t
    ensures s == t
    decreases |s|
  {
    if |s| == 0 {
      HasSome(t);
    } else {
      assert s[0] in t && |t| > 0;
      assert t[0] in s;
      var i :| 0 <= i < |t| && t[i] == s[0];
      var j :| 0 <= j < |s| && s[j] == t[0];
      assert s[0] == t[0];
      assert s == [s[0]] + s[1..] && t == [t[0]] + t[1..];
      HeadComesOnce(activity, s);
      HeadComesOnce(activity, t);
      forall x ensures x in s[1..] <==> x in t[1..] {
        assert x in s <==> x == s[0] || x in s[1..];
        assert x in t <==> x == t[0] || x in t[1..];
      }
      OrderIsTotal(activity, s[1..], t[1..]);
    }
  }

  lemma HasSome(s: seq<Row>)
    ensures |s| > 0 ==> exists x :: x in s
  {
    if |s| > 0 {
      assert s[0] in s;
    }
  }

  lemma HeadComesOnce(activity: Row -> int, s: seq<Row>)
    requires |s| > 0 && forall i, j :: 0 <= i < j < |s| ==> Before(activity, s[i], s[j])
    ensures s[0] !in s[1..]
  {
    assert forall j :: 1 <= j < |s| ==> s[j] != s[0];
  }

  /** While nothing changes, every request sees the same list. */
  lemma ListingIsUnique(db: Db, donor: nat, activity: Row -> int, s: seq<Row>, t: seq<Row>)
    requires IsListing(db, donor, activity, s) && IsListing(db, donor, activity, t)
    ensures s == t
  {
    hide Before, Rows;
    forall x ensures x in s <==> x in t {
      assert x in s <==> x in SetOf(s);
      assert x in t <==> x in SetOf(t);
    }
    OrderIsTotal(activity, s, t);
  }

  /** Different rows of a donor are of different donations, so the order tells them apart. */
  lemma RowsDiffer(db: Db, donor: nat, x: Row, y: Row)
    requires db.Keyed() && x in Rows(db, donor) && y in Rows(db, donor) && x != y
    ensures x.donation.id != y.donation.id
  {
  }

  lemma {:induction false} FirstOf(activity: Row -> int, s: set<Row>) returns (e: Row)
    requires s != {} && forall x, y :: x in s && y in s && x != y ==> x.donation.id != y.donation.id
    ensures e in s && forall x :: x in s && x != e ==> Before(activity, e, x)
    decreases s
  {
    e :| e in s;
    if s != {e} {
      var first := e;
      var rest := FirstOf(activity, s - {e});
      e := if Before(activity, rest, first) then rest else first;
      forall x | x in s && x != e ensures Before(activity, e, x) {
        if x != first && x != rest {
          assert x in s - {first};
        }
      }
    }
  }

  lemma {:induction false} Ordered(activity: Row -> int, s: set<Row>) returns (list: seq<Row>)
    requires forall x, y :: x in s && y in s && x != y ==> x.donation.id != y.donation.id
    ensures (forall i, j :: 0 <= i < j < |list| ==> Before(activity, list[i], list[j])) && SetOf(list) == s
    decreases s
  {
    hide Before;
    if s == {} {
      list := [];
    } else {
      var e := FirstOf(activity, s);
      var rest := Ordered(activity, s - {e});
      list := [e] + rest;
      forall j | 0 <= j < |rest| ensures Before(activity, e, rest[j]) {
        assert rest[j] in SetOf(rest);
      }
      forall x ensures x in list <==> x in s {
        assert x in rest <==> x in SetOf(rest);
      }
    }
  }

  /** There is a list in that order, newest activity first and then the larger id. */
  lemma ListingExists(db: Db, donor: nat, activity: Row -> int) returns (s: seq<Row>)
    requires db.Keyed()
    ensures IsListing(db, donor, activity, s)
    ensures forall i, j :: 0 <= i < j < |s| ==>
              activity(s[i]) > activity(s[j])
              || (activity(s[i]) == activity(s[j]) && s[i].donation.id > s[j].donation.id)
  {
    forall x, y | x in Rows(db, donor) && y in Rows(db, donor) && x != y ensures x.donation.id != y.donation.id {
      RowsDiffer(db, donor, x, y);
    }
    hide Rows;
    s := Ordered(activity, Rows(db, donor));
  }

  lemma NoRowTwice(activity: Row -> int, s: seq<Row>)
    requires forall i, j :: 0 <= i < j < |s| ==> Before(activity, s[i], s[j])
    ensures forall i, j :: 0 <= i < j < |s| ==> s[i] != s[j]
  {
  }

  function DonationIn(x: Row): Donation { x.donation }

  /** With one review a donation at most, rows and captured donations correspond one to one. */
  lemma RowsAreDonations(db: Db, donor: nat)
    requires db.Keyed()
    ensures forall x :: x in Rows(db, donor) ==> x.donation in Mine(db, donor)
    ensures forall x, y :: x in Rows(db, donor) && y in Rows(db, donor) && x.donation == y.donation ==> x == y
    ensures forall d :: d in Mine(db, donor) ==> exists x :: x in Rows(db, donor) && x.donation == d
  {
    hide Mine;
    forall d | d in Mine(db, donor) ensures exists x :: x in Rows(db, donor) && x.donation == d {
      if r :| r in db.reviews && r.donation == d.id {
        assert Row(d, Some(r)) in Rows(db, donor);
      } else {
        assert Row(d, None) in Rows(db, donor);
      }
    }
  }

  /** An item's credits or minutes: the sum of its donation's lines, 0 without any. */
  ghost function ItemTotal(db: Db, donor: nat, f: Line -> int): Row -> int {
    (x: Row) => Sum(Of(db, donor, x.donation), f)
  }

  ghost function DonationTotal(db: Db, donor: nat, f: Line -> int): Donation -> int {
    d => Sum(Of(db, donor, d), f)
  }

  function IdOf(d: Donation): Option<nat> { Some(d.id) }

  /** Per donation, per row or in one go, the lines add up to the same. */
  lemma LifetimeAgrees(db: Db, donor: nat, f: Line -> int)
    requires db.Keyed()
    ensures Sum(Rows(db, donor), ItemTotal(db, donor, f)) == Lifetime(db, donor, f) == Sum(Lines(db, donor), f)
  {
    hide Sum, Rows, Lines, Of, Mine;
    var lines := Lines(db, donor);
    Grouped(lines, f, DonationOf, (set x | x in lines :: DonationOf(x)));
    var keys := set d | d in Mine(db, donor) :: IdOf(d);
    forall x | x in lines ensures DonationOf(x) in keys {
      LineIsMine(db, donor, x);
    }
    Grouped(lines, f, DonationOf, keys);
    SameGroups(db, donor, f, keys);
    MineAreKeyed(db, donor);
    RowsAreDonations(db, donor);
    Reindexed(Rows(db, donor), Mine(db, donor), DonationIn, ItemTotal(db, donor, f), DonationTotal(db, donor, f));
  }

  lemma LineIsMine(db: Db, donor: nat, x: Line)
    requires x in Lines(db, donor)
    ensures exists d :: d in Mine(db, donor) && DonationOf(x) == IdOf(d)
  {
    hide Mine;
  }

  lemma MineAreKeyed(db: Db, donor: nat)
    requires db.Keyed()
    ensures forall a, b :: a in Mine(db, donor) && b in Mine(db, donor) && IdOf(a) == IdOf(b) ==> a == b
  {
  }

  lemma SameGroups(db: Db, donor: nat, f: Line -> int, keys: set<Option<nat>>)
    requires db.Keyed() && keys == set d | d in Mine(db, donor) :: IdOf(d)
    ensures Sum(Mine(db, donor), DonationTotal(db, donor, f)) == Sum(keys, GroupSum(Lines(db, donor), f, DonationOf))
  {
    hide Sum, Lines, Mine;
    MineAreKeyed(db, donor);
    Reindexed(Mine(db, donor), keys, IdOf, DonationTotal(db, donor, f), GroupSum(Lines(db, donor), f, DonationOf));
  }

  /**
   * Following next_offset until has_more is false, at any fixed limit, shows each captured donation
   * exactly once; the shown credits and minutes add up to the summary's lifetime figures; and the
   * shown pending, underway and funded items are as many as the summary counts.
   */
  lemma ListAgreesWithSummary(db: Db, donor: nat, activity: Row -> int, s: seq<Row>, limit: nat)
    requires db.Keyed() && IsListing(db, donor, activity, s) && limit >= 1
    ensures var shown := Flat(Walk(s, limit, 0, FullPage));
            && shown == s
            && |shown| == |Mine(db, donor)|
            && (forall d :: d in Mine(db, donor) ==> exists i :: 0 <= i < |shown| && shown[i].donation == d)
            && SumOver(shown, ItemTotal(db, donor, CreditsOf)) == Lifetime(db, donor, CreditsOf)
            && SumOver(shown, ItemTotal(db, donor, MinutesOf)) == Lifetime(db, donor, MinutesOf)
    ensures forall code | code in {PendingReview, ImpactUnderway, ImpactFunded} ::
              SumOver(Flat(Walk(s, limit, 0, FullPage)), ShowsAs(db, donor, code))
              == Sum(Rows(db, donor), CountsAs(db, donor, code))
  {
    hide Sum, SumOver, Rows, Mine, Before, Lines, Of, Walk, Flat, Lifetime, Listed, Counted;
    WalkListsAll(s, limit, FullPage);
    NoRowTwice(activity, s);
    ListIsSet(s, ItemTotal(db, donor, CreditsOf));
    ListIsSet(s, ItemTotal(db, donor, MinutesOf));
    LifetimeAgrees(db, donor, CreditsOf);
    LifetimeAgrees(db, donor, MinutesOf);
    EveryDonationListed(db, donor, activity, s);
    forall code | code in {PendingReview, ImpactUnderway, ImpactFunded}
      ensures SumOver(s, ShowsAs(db, donor, code)) == Sum(Rows(db, donor), CountsAs(db, donor, code))
    {
      ListIsSet(s, ShowsAs(db, donor, code));
      forall x | x in Rows(db, donor) ensures ShowsAs(db, donor, code)(x) == CountsAs(db, donor, code)(x) {
        SameStatus(db, donor, code, x);
      }
      Congruent(Rows(db, donor), ShowsAs(db, donor, code), CountsAs(db, donor, code));
    }
  }

  function RowOne(x: Row): int { 1 }
  function DonationOne(d: Donation): int { 1 }

  lemma EveryDonationListed(db: Db, donor: nat, activity: Row -> int, s: seq<Row>)
    requires db.Keyed() && IsListing(db, donor, activity, s)
    ensures |s| == |Mine(db, donor)|
    ensures forall d :: d in Mine(db, donor) ==> exists i :: 0 <= i < |s| && s[i].donation == d
  {
    hide Sum, Rows, Mine, Before;
    RowsAreDonations(db, donor);
    NoRowTwice(activity, s);
    ListIsSet(s, RowOne);
    LengthIsSum(s);
    Reindexed(Rows(db, donor), Mine(db, donor), DonationIn, RowOne, DonationOne);
    Constant(Mine(db, donor), DonationOne, 1);
    forall d | d in Mine(db, donor) ensures exists i :: 0 <= i < |s| && s[i].donation == d {
      var x :| x in Rows(db, donor) && x.donation == d;
      assert x in SetOf(s);
    }
  }

  lemma {:induction false} LengthIsSum(s: seq<Row>)
    ensures SumOver(s, RowOne) == |s|
  {
    if |s| > 0 {
      LengthIsSum(s[..|s| - 1]);
    }
  }

  // ---------- The same in the columns of the tables ----------

  /** A captured donation of the donor's. */
  predicate Captured(d: Donation, donor: nat) {
    d.donor == donor && d.status == "captured"
  }

  /** The allocation spends a credit that came of one of the donor's captured donations. */
  ghost predicate Spends(db: Db, donor: nat, a: Allocation, c: Credit, d: Donation) {
    && c in db.credits && c.id == a.credit && d in db.donations && c.donation == Some(d.id)
    && d.donor == donor && d.status == "captured"
  }

  ghost function SpentBy(db: Db, donor: nat): set<Allocation> {
    set a | a in db.allocations && exists c, d :: Spends(db, donor, a, c, d)
  }

  /** Receipts of the donor's captured donations that no allocation refers to. */
  ghost function Unlinked(db: Db, donor: nat): set<Receipt> {
    set r | r in db.receipts
            && (exists d :: d in db.donations && d.donor == donor && d.status == "captured" && r.donation == Some(d.id))
            && forall a :: a in db.allocations ==> a.receipt != Some(r.id)
  }

  function AmountOfReceipt(r: Receipt): int { r.amount }
  function MinutesOfAllocation(a: Allocation): int { match a.minutes case Some(m) => m case None => 0 }
  function MinutesOfReceipt(r: Receipt): int { match r.minutes case Some(m) => m case None => 0 }

  ghost function FromReceipts(db: Db, donor: nat): set<Line> {
    set x | x in Lines(db, donor) && x.FromReceipt?
  }

  function ReceiptIn(x: Line): Receipt {
    match x case FromReceipt(r) => r case FromAllocation(_, _) => Receipt(0, None, 0, None)
  }

  lemma AllocationsAreLines(db: Db, donor: nat)
    requires db.Keyed()
    ensures var lines := Lines(db, donor) - FromReceipts(db, donor);
            && (forall x :: x in lines ==> x.FromAllocation? && AllocationOf(x) in SpentBy(db, donor))
            && (forall x, y :: x in lines && y in lines && AllocationOf(x) == AllocationOf(y) ==> x == y)
            && (forall a :: a in SpentBy(db, donor) ==> exists x :: x in lines && AllocationOf(x) == a)
  {
    hide Linked, Mine;
    var lines := Lines(db, donor) - FromReceipts(db, donor);
    forall x | x in lines ensures x.FromAllocation? && AllocationOf(x) in SpentBy(db, donor) {
      MineIs(db, donor, x.c.donation);
      var d :| d in db.donations && d.donor == donor && d.status == "captured" && x.c.donation == Some(d.id);
      assert Spends(db, donor, x.a, x.c, d);
    }
    forall a | a in SpentBy(db, donor) ensures exists x :: x in lines && AllocationOf(x) == a {
      var c, d :| Spends(db, donor, a, c, d);
      MineIs(db, donor, c.donation);
      assert FromAllocation(a, c) in lines;
    }
  }

  lemma MineIs(db: Db, donor: nat, id: Option<nat>)
    ensures IsMine(db, donor, id) <==>
            exists d :: d in db.donations && d.donor == donor && d.status == "captured" && id == Some(d.id)
  {
    if d :| d in db.donations && d.donor == donor && d.status == "captured" && id == Some(d.id) {
      assert d in Mine(db, donor);
    }
  }

  lemma ReceiptsAreLines(db: Db, donor: nat)
    ensures var lines := FromReceipts(db, donor);
            && (forall x :: x in lines ==> ReceiptIn(x) in Unlinked(db, donor))
            && (forall x, y :: x in lines && y in lines && ReceiptIn(x) == ReceiptIn(y) ==> x == y)
            && (forall r :: r in Unlinked(db, donor) ==> exists x :: x in lines && ReceiptIn(x) == r)
  {
    hide Mine;
    var lines := FromReceipts(db, donor);
    forall x | x in lines ensures ReceiptIn(x) in Unlinked(db, donor) {
      MineIs(db, donor, x.r.donation);
    }
    forall r | r in Unlinked(db, donor) ensures exists x :: x in lines && ReceiptIn(x) == r {
      MineIs(db, donor, r.donation);
      assert FromReceipt(r) in lines;
    }
  }

  /** The lifetime figures are what the donor's allocations and unlinked receipts hold, each once. */
  lemma LifetimeIs(db: Db, donor: nat)
    requires db.Keyed()
    ensures Lifetime(db, donor, CreditsOf)
         == Sum(SpentBy(db, donor), AmountOf) + Sum(Unlinked(db, donor), AmountOfReceipt)
    ensures Lifetime(db, donor, MinutesOf)
         == Sum(SpentBy(db, donor), MinutesOfAllocation) + Sum(Unlinked(db, donor), MinutesOfReceipt)
  {
    hide Sum, Lines, Lifetime, SpentBy, Unlinked;
    var lines, receipts := Lines(db, donor), FromReceipts(db, donor);
    AllocationsAreLines(db, donor);
    ReceiptsAreLines(db, donor);
    LifetimeIsSum(db, donor, CreditsOf);
    LifetimeIsSum(db, donor, MinutesOf);
    Sums.Split(lines, receipts, CreditsOf);
    Sums.Split(lines, receipts, MinutesOf);
    Reindexed(lines - receipts, SpentBy(db, donor), AllocationOf, CreditsOf, AmountOf);
    Reindexed(lines - receipts, SpentBy(db, donor), AllocationOf, MinutesOf, MinutesOfAllocation);
    Reindexed(receipts, Unlinked(db, donor), ReceiptIn, CreditsOf, AmountOfReceipt);
    Reindexed(receipts, Unlinked(db, donor), ReceiptIn, MinutesOf, MinutesOfReceipt);
  }

  /** Some allocation spends a credit of the donation, or some receipt of it is not linked. */
  ghost predicate HasImpact(db: Db, d: Donation) {
    || (exists a, c :: a in db.allocations && c in db.credits && c.id == a.credit && c.donation == Some(d.id))
    || (exists r :: r in db.receipts && r.donation == Some(d.id)
                    && forall a :: a in db.allocations ==> a.receipt != Some(r.id))
  }

  lemma ImpactIs(db: Db, donor: nat, d: Donation)
    requires d in db.donations && Captured(d, donor)
    ensures ReceiptCount(db, donor, d) >= 0 && (ReceiptCount(db, donor, d) > 0 <==> HasImpact(db, d))
  {
    hide Mine, IsMine;
    CountIsNonNegative(Of(db, donor, d));
    MineIs(db, donor, Some(d.id));
    if HasImpact(db, d) {
      if a, c :| a in db.allocations && c in db.credits && c.id == a.credit && c.donation == Some(d.id) {
        assert FromAllocation(a, c) in Of(db, donor, d);
      } else {
        var r :| r in db.receipts && r.donation == Some(d.id)
                 && forall a :: a in db.allocations ==> a.receipt != Some(r.id);
        assert FromReceipt(r) in Of(db, donor, d);
      }
    }
    if Of(db, donor, d) != {} {
      var x :| x in Of(db, donor, d);
      assert HasImpact(db, d);
    }
  }

  /** The donation's first credit: the one with the least id. */
  ghost predicate HasFirst(db: Db, d: Donation, c: Credit) {
    && c in db.credits && c.donation == Some(d.id)
    && forall q :: q in db.credits && q.donation == Some(d.id) ==> c.id <= q.id
  }

  /**
   * What the list shows for a donation, from the rows: whether there is impact, what is left of its first
   * credit, and what its review and that credit say.
   */
  lemma ListedIs(db: Db, donor: nat, d: Donation, review: Option<Review>)
    requires db.Keyed() && Row(d, review) in Rows(db, donor)
    ensures d in db.donations && Captured(d, donor)
    ensures if review.Some? then review.value in db.reviews && review.value.donation == d.id
            else forall r :: r in db.reviews ==> r.donation != d.id
    ensures var left := exists c :: HasFirst(db, d, c) && c.remaining > 0;
            var held := exists c :: HasFirst(db, d, c) && c.status == "held_pending_manual_review";
            var placed := exists c :: HasFirst(db, d, c)
                                      && c.status in {"available", "allocated", "partially_spent", "spent"};
            var awaits := review.Some? && review.value.status == "pending_manual_review";
            var decided := review.Some? && review.value.status in {"manually_allocated", "policy_allocated"};
            Listed(db, donor, Row(d, review))
            == if HasImpact(db, d) then (if left then ImpactUnderway else ImpactFunded)
               else if awaits || held then PendingReview
               else if decided || placed then Allocated
               else Received
  {
    hide HasImpact, Of, Rows, Mine;
    RowIs(db, donor, d, review);
    ImpactIs(db, donor, d);
    FirstIs(db, d);
    hide ReceiptCount, HasFirst;
  }

  lemma RowIs(db: Db, donor: nat, d: Donation, review: Option<Review>)
    ensures Row(d, review) in Rows(db, donor) <==>
            && d in db.donations && d.donor == donor && d.status == "captured"
            && if review.Some? then review.value in db.reviews && review.value.donation == d.id
               else forall r :: r in db.reviews ==> r.donation != d.id
  {
  }

  lemma FirstIs(db: Db, d: Donation)
    requires db.Keyed()
    ensures forall c :: HasFirst(db, d, c) <==> FirstCredit(db, d) == Some(c)
  {
    forall c | HasFirst(db, d, c) ensures FirstCredit(db, d) == Some(c) {
      FirstCreditIsC(db, d, c);
    }
  }

  // ---------- Where the allocated counts part ----------

  /** A donation whose funding is available and whose review is absent is listed as allocated but not counted. */
  lemma AllocatedCountsDiffer(donor: nat, id: nat, remaining: int)
    ensures var d := Donation(id, donor, "captured");
            var db := Db({d}, {Credit(0, Some(id), remaining, "available")}, {}, {}, {});
            var x := Row(d, None);
            db.Keyed() && x in Rows(db, donor) && Listed(db, donor, x) == Allocated && !Counted(db, donor, Allocated, x)
  {
    var d := Donation(id, donor, "captured");
    var c := Credit(0, Some(id), remaining, "available");
    var db := Db({d}, {c}, {}, {}, {});
    assert Of(db, donor, d) == {};
    assert d in Mine(db, donor);
    assert IsFirstCredit(db, d, c);
    FirstCreditIsC(db, d, c);
  }

  lemma FirstCreditIsC(db: Db, d: Donation, c: Credit)
    requires db.Keyed() && IsFirstCredit(db, d, c)
    ensures FirstCredit(db, d) == Some(c)
  {
    var f := FirstCredit(db, d);
    assert f.Some? && IsFirstCredit(db, d, f.value);
    FirstCreditIsUnique(db, d, f.value, c);
  }
}
