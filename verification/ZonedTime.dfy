/**
  The wall-clock-to-UTC solver of the events API.

  Instants and wall-clock readings are both whole seconds on one integer line: a wall-clock
  reading is written as the instant at which a UTC clock would show it, as `Date.UTC` does.
  A zone is its table of offset changes, the data behind `Intl.DateTimeFormat`.
*/
module ZonedTime {
  import opened Wrappers

  datatype Change = Change(at: int, offset: int)

  datatype Zone = Zone(base: int, changes: seq<Change>) {

    /** The offset in force at instant t: that of the last change at or before t. */
    function OffsetAt(t: int): int
      decreases |changes|
    {
      if |changes| == 0 then base
      else if changes[|changes| - 1].at <= t then changes[|changes| - 1].offset
      else Zone(base, changes[..|changes| - 1]).OffsetAt(t)
    }

    /** What a clock on the wall shows at instant t. */
    function WallAt(t: int): int {
      t + OffsetAt(t)
    }
  }

  const MAX_CORRECTIONS: nat := 4

  /** Offsets are at most m in size and changes are at least gap apart. */
  ghost predicate WellSpaced(z: Zone, m: int, gap: int) {
    && -m <= z.base <= m
    && (forall i :: 0 <= i < |z.changes| ==> -m <= z.changes[i].offset <= m)
    && (forall i, j :: 0 <= i < j < |z.changes| ==> z.changes[i].at + gap <= z.changes[j].at)
  }

  /** The requested wall-clock time is shown at some instant. */
  ghost predicate Exists(z: Zone, wall: int) {
    exists t :: z.WallAt(t) == wall
  }

  /** At most n corrections of a guess, stopping when the wall clock matches. */
  function Corrected(z: Zone, target: int, guess: int, n: nat): int
    decreases n
  {
    if n == 0 || z.WallAt(guess) == target then guess
    else Corrected(z, target, guess + (target - z.WallAt(guess)), n - 1)
  }

  function LocalToUtc(z: Zone, target: int): int {
    Corrected(z, target, target, MAX_CORRECTIONS)
  }

  /** The bounded correction loop. `midnight` is the requested date read as UTC (None when the
      date string does not parse) and `zone` is None when the zone name is missing or unknown. */
  method ZonedTimeToUtc(midnight: Option<int>, secondOfDay: int, zone: Option<Zone>) returns (r: Option<int>)
    ensures r.Some? <==> midnight.Some? && zone.Some?
    ensures r.Some? ==> r.value == LocalToUtc(zone.value, midnight.value + secondOfDay)
  {
    if midnight.None? || zone.None? {
      return None;
    }
    var target := midnight.value + secondOfDay;
    var guess := target;
    var i := 0;
    while i < MAX_CORRECTIONS
      invariant 0 <= i <= MAX_CORRECTIONS
      invariant Corrected(zone.value, target, guess, MAX_CORRECTIONS - i) == LocalToUtc(zone.value, target)
    {
      var delta := target - zone.value.WallAt(guess);
      if delta == 0 {
        break;
      }
      guess := guess + delta;
      i := i + 1;
    }
    return Some(guess);
  }

  // ---------- What the offset looks like around a request ----------

  lemma {:induction false} OffsetBounded(z: Zone, m: int, gap: int, t: int)
    requires WellSpaced(z, m, gap)
    ensures -m <= z.OffsetAt(t) <= m
    decreases |z.changes|
  {
    if |z.changes| > 0 {
      OffsetBounded(Zone(z.base, z.changes[..|z.changes| - 1]), m, gap, t);
    }
  }

  lemma {:induction false} ConstantAfterLastChange(z: Zone, lo: int, t: int)
    requires forall i :: 0 <= i < |z.changes| ==> z.changes[i].at <= lo
    requires lo <= t
    ensures z.OffsetAt(t) == z.OffsetAt(lo)
    decreases |z.changes|
  {
  }

  /** A stretch no longer than the gap between changes holds at most one of them. */
  lemma {:induction false} AtMostOneChange(z: Zone, m: int, gap: int, lo: int, hi: int) returns (c: int)
    requires WellSpaced(z, m, gap)
    requires lo <= hi <= lo + gap
    ensures lo < c <= hi + 1
    ensures forall t :: lo <= t <= hi ==> z.OffsetAt(t) == z.OffsetAt(if t < c then lo else hi)
    decreases |z.changes|
  {
    if |z.changes| == 0 {
      c := hi + 1;
    } else {
      var last := z.changes[|z.changes| - 1];
      var earlier := Zone(z.base, z.changes[..|z.changes| - 1]);
      if hi < last.at {
        c := AtMostOneChange(earlier, m, gap, lo, hi);
      } else if last.at <= lo {
        c := hi + 1;
      } else {
        c := last.at;
        forall t | lo <= t < c ensures z.OffsetAt(t) == z.OffsetAt(lo) {
          ConstantAfterLastChange(earlier, lo, t);
        }
      }
    }
  }

  /** Around a request only two offsets occur: a before c, b from c on. */
  ghost predicate Around(z: Zone, m: int, target: int, c: int, a: int, b: int) {
    && -m <= a <= m
    && -m <= b <= m
    && (forall t :: target - m <= t <= target + m ==> z.OffsetAt(t) == if t < c then a else b)
  }

  lemma Window(z: Zone, m: int, gap: int, target: int) returns (c: int, a: int, b: int)
    requires WellSpaced(z, m, gap) && 2 * m <= gap
    ensures Around(z, m, target, c, a, b)
    ensures target - m < c <= target + m + 1
    ensures c == target + m + 1 ==> a == b
  {
    c := AtMostOneChange(z, m, gap, target - m, target + m);
    a, b := z.OffsetAt(target - m), z.OffsetAt(target + m);
    OffsetBounded(z, m, gap, target - m);
    OffsetBounded(z, m, gap, target + m);
  }

  lemma ExistsInWindow(z: Zone, m: int, gap: int, target: int, c: int, a: int, b: int)
    requires WellSpaced(z, m, gap) && Around(z, m, target, c, a, b)
    ensures Exists(z, target) <==> target - a < c || target - b >= c
  {
    if Exists(z, target) {
      var t :| z.WallAt(t) == target;
      OffsetBounded(z, m, gap, t);
    }
    if target - a < c {
      assert z.WallAt(target - a) == target;
    }
    if target - b >= c {
      assert z.WallAt(target - b) == target;
    }
  }

  // ---------- Convergence ----------

  /** The loop settles on an instant showing the requested time exactly when there is one. */
  lemma SolvedIffExists(z: Zone, m: int, gap: int, target: int)
    requires WellSpaced(z, m, gap) && 2 * m <= gap
    ensures z.WallAt(LocalToUtc(z, target)) == target <==> Exists(z, target)
    ensures Exists(z, target) ==> LocalToUtc(z, target) == Corrected(z, target, target, 2)
  {
    var c, a, b := Window(z, m, gap, target);
    ExistsInWindow(z, m, gap, target, c, a, b);
    SecondGuessIsFinal(z, m, gap, target, 1);
    SecondGuessIsFinal(z, m, gap, target, 2);
  }

  /** The even-numbered guesses all agree, so the bound of four never cuts the loop short: two
      corrections give the same answer for every request, existing or skipped. */
  lemma {:induction false} SecondGuessIsFinal(z: Zone, m: int, gap: int, target: int, n: nat)
    requires WellSpaced(z, m, gap) && 2 * m <= gap
    requires n >= 1
    ensures Corrected(z, target, target, 2 * n) == target - z.OffsetAt(target - z.OffsetAt(target))
  {
    var c, a, b := Window(z, m, gap, target);
    var first := target - z.OffsetAt(target);
    var second := target - z.OffsetAt(first);
    assert Corrected(z, target, target, 2 * n) == Corrected(z, target, first, 2 * n - 1);
    assert Corrected(z, target, first, 2 * n - 1) == Corrected(z, target, second, 2 * n - 2);
    if z.WallAt(second) != target {
      OscillatesBetween(z, target, first, second, n - 1);
    }
  }

  lemma {:induction false} OscillatesBetween(z: Zone, target: int, x: int, y: int, n: nat)
    requires x == target - z.OffsetAt(y) && y == target - z.OffsetAt(x)
    ensures Corrected(z, target, y, 2 * n) == y
    decreases n
  {
    if n > 0 && z.WallAt(y) != target {
      assert Corrected(z, target, y, 2 * n) == Corrected(z, target, x, 2 * n - 1);
      assert z.WallAt(x) != target;
      OscillatesBetween(z, target, x, y, n - 1);
    }
  }

  // ---------- Repeated and skipped times ----------

  /** Of two instants showing a repeated time, the loop returns the earlier one exactly when the
      change lies after the request read as UTC, as it does in zones west of Greenwich. */
  lemma RepeatedTimeChoice(z: Zone, m: int, gap: int, target: int, u: int, v: int)
    requires WellSpaced(z, m, gap) && 2 * m <= gap
    requires u < v && z.WallAt(u) == target && z.WallAt(v) == target
    ensures LocalToUtc(z, target) == if z.OffsetAt(target) == z.OffsetAt(u) then u else v
    ensures z.OffsetAt(target) == z.OffsetAt(u) || z.OffsetAt(target) == z.OffsetAt(v)
  {
    var c, a, b := Window(z, m, gap, target);
    OffsetBounded(z, m, gap, u);
    OffsetBounded(z, m, gap, v);
    SecondGuessIsFinal(z, m, gap, target, 2);
  }

  /** A skipped time never settles: every odd correction gives one guess and every even one the
      other, and the returned instant misses the request by exactly the size of the jump, early
      when the first guess already lies past the change and late when it lies before it. */
  lemma SkippedTimeMissesByTheJump(z: Zone, m: int, gap: int, target: int) returns (c: int, jump: int)
    requires WellSpaced(z, m, gap) && 2 * m <= gap
    requires !Exists(z, target)
    ensures target - m < c <= target + m
    ensures jump == z.OffsetAt(c) - z.OffsetAt(c - 1) && jump > 0
    ensures z.WallAt(LocalToUtc(z, target)) == if target < c then target - jump else target + jump
    ensures z.WallAt(c - 1) < target < z.WallAt(c)
    ensures if target < c then c - jump <= LocalToUtc(z, target) < c else c <= LocalToUtc(z, target) < c + jump
  {
    var a, b;
    c, a, b := Window(z, m, gap, target);
    ExistsInWindow(z, m, gap, target, c, a, b);
    SecondGuessIsFinal(z, m, gap, target, 2);
    jump := b - a;
  }

  // ---------- Order ----------

  /** Two existing wall-clock times keep their order in UTC, across a repeated hour too. */
  lemma OrderPreserved(z: Zone, m: int, gap: int, w1: int, w2: int)
    requires WellSpaced(z, m, gap) && 2 * m <= gap
    requires w1 < w2 && Exists(z, w1) && Exists(z, w2)
    ensures LocalToUtc(z, w1) < LocalToUtc(z, w2)
    ensures LocalToUtc(z, w2) - LocalToUtc(z, w1)
         == w2 - w1 - (z.OffsetAt(LocalToUtc(z, w2)) - z.OffsetAt(LocalToUtc(z, w1)))
  {
    SolvedIffExists(z, m, gap, w1);
    SolvedIffExists(z, m, gap, w2);
    var r1, r2 := LocalToUtc(z, w1), LocalToUtc(z, w2);
    if r2 <= r1 {
      var c1, a1, b1 := Window(z, m, gap, w1);
      var c2, a2, b2 := Window(z, m, gap, w2);
      OffsetBounded(z, m, gap, r1);
      OffsetBounded(z, m, gap, r2);
      var c := AtMostOneChange(z, m, gap, r2, r1);
      SecondGuessIsFinal(z, m, gap, w1, 2);
      SecondGuessIsFinal(z, m, gap, w2, 2);
      assert false;
    }
  }

  /** Around a change at c nothing else changes for 3m. */
  lemma AroundJump(z: Zone, m: int, gap: int, c: int)
    requires WellSpaced(z, m, gap) && 3 * m <= gap && m >= 0 && z.OffsetAt(c) != z.OffsetAt(c - 1)
    ensures forall t :: c - 3 * m <= t < c ==> z.OffsetAt(t) == z.OffsetAt(c - 1)
    ensures forall t :: c <= t < c + 3 * m ==> z.OffsetAt(t) == z.OffsetAt(c)
  {
    hide Zone.OffsetAt;
    if m > 0 {
      var before := AtMostOneChange(z, m, gap, c - 3 * m, c);
      var after := AtMostOneChange(z, m, gap, c - 1, c - 1 + 3 * m);
      assert z.OffsetAt(c - 1) == z.OffsetAt(if c - 1 < before then c - 3 * m else c);
      assert z.OffsetAt(c) == z.OffsetAt(if c < after then c - 1 else c - 1 + 3 * m);
      assert before == c && after == c;
    }
  }

  /** Asking again for the time a request landed on gives the same instant. */
  lemma LandingIsStable(z: Zone, m: int, gap: int, target: int)
    requires WellSpaced(z, m, gap) && 3 * m <= gap
    ensures LocalToUtc(z, z.WallAt(LocalToUtc(z, target))) == LocalToUtc(z, target)
  {
    hide LocalToUtc, Corrected, Zone.OffsetAt;
    SolvedIffExists(z, m, gap, target);
    if !Exists(z, target) {
      var c, jump := SkippedTimeMissesByTheJump(z, m, gap, target);
      OffsetBounded(z, m, gap, c);
      OffsetBounded(z, m, gap, c - 1);
      AroundJump(z, m, gap, c);
      SecondGuess(z, m, gap, z.WallAt(LocalToUtc(z, target)));
    }
  }

  lemma SecondGuess(z: Zone, m: int, gap: int, target: int)
    requires WellSpaced(z, m, gap) && 2 * m <= gap
    ensures LocalToUtc(z, target) == target - z.OffsetAt(target - z.OffsetAt(target))
  {
    SecondGuessIsFinal(z, m, gap, target, 2);
  }

  lemma InstantsFollowLandings(z: Zone, m: int, gap: int, w1: int, w2: int)
    requires WellSpaced(z, m, gap) && 3 * m <= gap
    ensures LocalToUtc(z, w1) < LocalToUtc(z, w2)
       <==> z.WallAt(LocalToUtc(z, w1)) < z.WallAt(LocalToUtc(z, w2))
  {
    var l1, l2 := z.WallAt(LocalToUtc(z, w1)), z.WallAt(LocalToUtc(z, w2));
    LandingIsStable(z, m, gap, w1);
    LandingIsStable(z, m, gap, w2);
    if l1 < l2 {
      OrderPreserved(z, m, gap, l1, l2);
    } else if l2 < l1 {
      OrderPreserved(z, m, gap, l2, l1);
    }
  }

  /** The wall-clock time a request will be given, read off the zone: itself where the zone shows it, and
      otherwise moved by the difference of the offsets on the two sides of the jump. */
  ghost function Landed(z: Zone, wall: int): int {
    if Exists(z, wall) then wall else wall + z.OffsetAt(wall) - z.OffsetAt(wall - z.OffsetAt(wall))
  }

  lemma LandsAsForeseen(z: Zone, m: int, gap: int, wall: int)
    requires WellSpaced(z, m, gap) && 2 * m <= gap
    ensures z.WallAt(LocalToUtc(z, wall)) == Landed(z, wall)
  {
    hide LocalToUtc, Corrected, Zone.OffsetAt;
    SolvedIffExists(z, m, gap, wall);
    if !Exists(z, wall) {
      SkippedLanding(z, m, gap, wall);
    }
  }

  lemma SkippedLanding(z: Zone, m: int, gap: int, wall: int)
    requires WellSpaced(z, m, gap) && 2 * m <= gap && !Exists(z, wall)
    ensures z.WallAt(LocalToUtc(z, wall)) == wall + z.OffsetAt(wall) - z.OffsetAt(wall - z.OffsetAt(wall))
  {
    var c, a, b := Window(z, m, gap, wall);
    ExistsInWindow(z, m, gap, wall, c, a, b);
    SecondGuessIsFinal(z, m, gap, wall, 2);
  }

  /** For every pair of requests, skipped or not: the instants are in order exactly when the wall-clock
      times foreseen for the two requests are. */
  lemma OrderedIffLandingsOrdered(z: Zone, m: int, gap: int, w1: int, w2: int)
    requires WellSpaced(z, m, gap) && 3 * m <= gap
    ensures LocalToUtc(z, w1) < LocalToUtc(z, w2) <==> Landed(z, w1) < Landed(z, w2)
  {
    hide LocalToUtc, Landed, Zone.OffsetAt;
    LandsAsForeseen(z, m, gap, w1);
    LandsAsForeseen(z, m, gap, w2);
    InstantsFollowLandings(z, m, gap, w1, w2);
  }

  /** Changes 3m apart are what those two statements need: for every m >= 1 a zone with changes 3m - 1 apart
      in which a second change catches the landing. Asking again for the time request m - 1 landed on gives
      a later instant, and the two instants are out of order although the landings are not. */
  lemma NarrowGapsMoveLandings(m: int)
    requires m >= 1
    ensures var z := Zone(-m, [Change(0, m), Change(3 * m - 1, -m)]);
            && WellSpaced(z, m, 3 * m - 1) && !Exists(z, m - 1)
            && LocalToUtc(z, m - 1) == 2 * m - 1 && z.WallAt(2 * m - 1) == 3 * m - 1
            && LocalToUtc(z, 3 * m - 1) == 4 * m - 1
            && Landed(z, m - 1) == Landed(z, 3 * m - 1)
  {
    var z := Zone(-m, [Change(0, m), Change(3 * m - 1, -m)]);
    TwoChanges(z);
    assert z.WallAt(4 * m - 1) == 3 * m - 1;
    assert Corrected(z, m - 1, -1, 3) == Corrected(z, m - 1, 2 * m - 1, 2) == Corrected(z, m - 1, -1, 1);
    assert Corrected(z, 3 * m - 1, 4 * m - 1, 3) == 4 * m - 1;
  }

  /** And changes 2m apart are what the loop needs: for every m >= 1 a zone with changes 2m - 1 apart that
      shows the time m - 1, at instant 2m - 1, where the loop does not find it. */
  lemma NarrowGapsHideTimes(m: int)
    requires m >= 1
    ensures var z := Zone(1 - m, [Change(0, m), Change(2 * m - 1, -m)]);
            && WellSpaced(z, m, 2 * m - 1) && z.WallAt(2 * m - 1) == m - 1
            && z.WallAt(LocalToUtc(z, m - 1)) != m - 1
  {
    var z := Zone(1 - m, [Change(0, m), Change(2 * m - 1, -m)]);
    TwoChanges(z);
    assert Corrected(z, m - 1, -1, 3) == Corrected(z, m - 1, 2 * m - 2, 2) == Corrected(z, m - 1, -1, 1);
  }

  lemma TwoChanges(z: Zone)
    requires |z.changes| == 2
    ensures forall t :: z.OffsetAt(t) == if z.changes[1].at <= t then z.changes[1].offset
                                         else if z.changes[0].at <= t then z.changes[0].offset else z.base
  {
    var one := Zone(z.base, z.changes[..1]);
    var none := Zone(z.base, one.changes[..0]);
    forall t ensures z.OffsetAt(t) == if z.changes[1].at <= t then z.changes[1].offset
                                      else if z.changes[0].at <= t then z.changes[0].offset else z.base
    {
      assert none.OffsetAt(t) == z.base;
      assert one.OffsetAt(t) == if z.changes[0].at <= t then z.changes[0].offset else none.OffsetAt(t);
    }
  }

  /** A range whose end is skipped can come out reversed: clocks going from UTC-8 to UTC-7 at
      instant 36000 (02:00 on the wall), a range 01:30-02:15 ends before it starts. */
  lemma SkippedEndCanReverseRange()
    ensures var z := Zone(-28800, [Change(36000, -25200)]);
            WellSpaced(z, 50400, 201600) && Exists(z, 5400) && !Exists(z, 8100)
            && LocalToUtc(z, 8100) < LocalToUtc(z, 5400)
  {
    var z := Zone(-28800, [Change(36000, -25200)]);
    assert Zone(z.base, z.changes[..0]).changes == [];
    assert forall t :: z.OffsetAt(t) == if 36000 <= t then -25200 else -28800;
    assert z.WallAt(5400 + 28800) == 5400;
    SecondGuessIsFinal(z, 50400, 201600, 5400, 2);
    SecondGuessIsFinal(z, 50400, 201600, 8100, 2);
  }
}
