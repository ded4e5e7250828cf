/** Offset paging over an unchanged list, with the two ways the controllers tell that more follows. */
module Paging {
  import opened Wrappers

  const MAX_DONOR_LIMIT: nat := 100
  const DEFAULT_DONOR_LIMIT: nat := 25

  /** The donor list's limit: a positive integer up to 100, else 25. */
  function DonorLimit(parsed: Option<int>): (r: nat)
    ensures 1 <= r <= 100
    ensures parsed.Some? && 1 <= parsed.value <= 100 ==> r == parsed.value
    ensures parsed.Some? && parsed.value > 100 ==> r == 100
    ensures parsed.None? || parsed.value <= 0 ==> r == 25
  {
    if parsed.Some? && parsed.value > 0 then
      if parsed.value < MAX_DONOR_LIMIT then parsed.value else MAX_DONOR_LIMIT
    else DEFAULT_DONOR_LIMIT
  }

  /** SQL's LIMIT and OFFSET. */
  function Window<T>(s: seq<T>, limit: nat, offset: nat): seq<T> {
    if offset >= |s| then [] else if offset + limit >= |s| then s[offset..] else s[offset..offset + limit]
  }

  datatype Mode = FullPage | Probe

  /** A full page may have a successor; or one row more than the limit was fetched and came back. */
  predicate HasMore<T>(s: seq<T>, limit: nat, offset: nat, mode: Mode) {
    match mode
    case FullPage => |Window(s, limit, offset)| == limit
    case Probe => |Window(s, limit + 1, offset)| > limit
  }

  /** The pages a client sees that follows next_offset while has_more holds. */
  function Walk<T>(s: seq<T>, limit: nat, offset: nat, mode: Mode): seq<seq<T>>
    requires limit >= 1
    decreases |s| - offset
  {
    if HasMore(s, limit, offset, mode) then [Window(s, limit, offset)] + Walk(s, limit, offset + limit, mode)
    else [Window(s, limit, offset)]
  }

  function Flat<T>(pages: seq<seq<T>>): seq<T> {
    if |pages| == 0 then [] else pages[0] + Flat(pages[1..])
  }

  /** The walk stops, and its pages joined are the rest of the list: no row is missed or seen twice. */
  lemma {:induction false} WalkFrom<T>(s: seq<T>, limit: nat, offset: nat, mode: Mode)
    requires limit >= 1 && offset <= |s|
    ensures Flat(Walk(s, limit, offset, mode)) == s[offset..]
    decreases |s| - offset
  {
    var page := Window(s, limit, offset);
    if HasMore(s, limit, offset, mode) {
      WalkFrom(s, limit, offset + limit, mode);
      assert page + s[offset + limit..] == s[offset..];
      assert ([page] + Walk(s, limit, offset + limit, mode))[1..] == Walk(s, limit, offset + limit, mode);
    } else {
      assert Flat([page]) == page;
    }
  }

  lemma WalkListsAll<T>(s: seq<T>, limit: nat, mode: Mode)
    requires limit >= 1
    ensures Flat(Walk(s, limit, 0, mode)) == s
  {
    hide *;
    WalkFrom(s, limit, 0, mode);
    assert s[0..] == s;
  }

  lemma MultipleAtLeast(k: int, d: int)
    requires k >= 1 && d >= 1
    ensures k * d >= d
  {
  }

  lemma QuotientIsUnique(x: int, d: int, q: int, r: int)
    requires d >= 1 && x == q * d + r && 0 <= r < d
    ensures x / d == q
  {
    var k := x / d - q;
    assert k * d == r - x % d;
    assert (-k) * d == -(k * d);
    if k >= 1 {
      MultipleAtLeast(k, d);
    } else if k <= -1 {
      MultipleAtLeast(-k, d);
    }
  }

  lemma DivideStep(x: int, d: int)
    requires d >= 1
    ensures (x + d) / d == x / d + 1
  {
    assert x + d == (x / d + 1) * d + x % d;
    QuotientIsUnique(x + d, d, x / d + 1, x % d);
  }

  /** Judging by a full page costs |s| / limit + 1 requests, so one empty page when the limit divides the length. */
  lemma {:induction false} FullPageRequests<T>(s: seq<T>, limit: nat, offset: nat)
    requires limit >= 1 && offset <= |s|
    ensures |Walk(s, limit, offset, FullPage)| == (|s| - offset) / limit + 1
    decreases |s| - offset
  {
    if HasMore(s, limit, offset, FullPage) {
      FullPageRequests(s, limit, offset + limit);
      DivideStep(|s| - offset - limit, limit);
    } else {
      assert |s| - offset < limit;
      SmallQuotient(|s| - offset, limit);
    }
  }

  lemma SmallQuotient(x: int, d: int)
    requires 0 <= x < d
    ensures x / d == 0
  {
    QuotientIsUnique(x, d, 0, x);
  }

  predicate NoneEmpty<T>(pages: seq<seq<T>>) {
    |pages| > 0 ==> pages[0] != [] && NoneEmpty(pages[1..])
  }

  /** Probing for one more row never asks for an empty page after a non-empty one. */
  lemma {:induction false} ProbePagesAreFull<T>(s: seq<T>, limit: nat, offset: nat)
    requires limit >= 1 && offset < |s|
    ensures NoneEmpty(Walk(s, limit, offset, Probe))
    decreases |s| - offset
  {
    var page := Window(s, limit, offset);
    if HasMore(s, limit, offset, Probe) {
      assert |Window(s, limit + 1, offset)| > limit;
      assert offset + limit < |s|;
      ProbePagesAreFull(s, limit, offset + limit);
      assert ([page] + Walk(s, limit, offset + limit, Probe))[1..] == Walk(s, limit, offset + limit, Probe);
    }
  }
}
