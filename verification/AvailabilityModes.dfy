/** Strict and lenient normalisation agree, and each result is a fixed point of both. */
module AvailabilityModes {
  import opened Wrappers
  import opened Strings
  import opened Json
  import opened Availability
  import opened AvailabilityOrder

  // ---------- What a normalised list looks like ----------

  /** A real day, a window that starts before it ends on the clock, a known zone. */
  ghost predicate Fit(x: Slot, env: Env) {
    && IsDate(x.date)
    && IsClock(x.start) && IsClock(x.end) && ClockMinutes(x.start) < ClockMinutes(x.end)
    && Trimmed(x.timezone) && env.zoneKnown(x.timezone)
  }

  ghost predicate AllFit(s: seq<Slot>, env: Env) {
    forall x :: x in s ==> Fit(x, env)
  }

  ghost predicate FewPerDate(s: seq<Slot>) {
    forall date :: OnDate(s, date) <= 3
  }

  ghost predicate Normal(s: seq<Slot>, env: Env) {
    |s| <= 10 && AllFit(s, env) && FewPerDate(s) && Sorted(s)
  }

  function ToJson(s: seq<Slot>): Json {
    Arr(seq(|s|, i requires 0 <= i < |s| => SlotToJson(s[i])))
  }

  lemma DateIsTrimmed(s: string)
    requires IsDate(s)
    ensures Trimmed(s)
  {
    assert IsDigit(s[..4][0]) && IsDigit(s[8..][1]);
  }

  lemma TimeReadsBack(t: Option<string>)
    requires t.Some? ==> IsClock(t.value)
    ensures NormalizeTime(TextOrNull(t)) == t
  {
    hide Trim;
    if t.Some? {
      assert IsDigit(t.value[0]) && IsDigit(t.value[4]);
    }
  }

  lemma ZoneIsTrimmed(v: Json, fallback: Json, env: Env)
    requires env.Sane()
    ensures Trimmed(NormalizeTimezone(v, fallback, env)) && env.zoneKnown(NormalizeTimezone(v, fallback, env))
  {
  }

  lemma ParsedIsFit(e: Json, fallback: Json, env: Env)
    requires env.Sane() && ParseSlot(e, fallback, env).Ok?
    ensures Fit(ParseSlot(e, fallback, env).value, env)
  {
    hide Less, IsDate, IsClock, NormalizeTimezone, NormalizeTime, Trim;
    ZoneIsTrimmed(Field(e, "timezone"), fallback, env);
    var x := ParseSlot(e, fallback, env).value;
    ClockOrder(x.start, x.end);
  }

  /** A fit entry reads back as itself, whatever the fallback zone. */
  lemma FitReadsBack(x: Slot, fallback: Json, env: Env)
    requires Fit(x, env)
    ensures ParseSlot(SlotToJson(x), fallback, env) == Ok(x)
  {
    hide Less, IsDate, IsClock, NormalizeTime, NormalizeTimezone, Trim, ClockMinutes;
    var j := SlotToJson(x);
    assert Field(j, "date") == Str(x.date) && Field(j, "start") == Str(x.start);
    assert Field(j, "end") == Str(x.end) && Field(j, "timezone") == Str(x.timezone);
    DateIsTrimmed(x.date);
    TimeReadsBack(Some(x.start));
    TimeReadsBack(Some(x.end));
    ClockOrder(x.start, x.end);
  }

  // ---------- What a pass keeps ----------

  /** How many well-formed entries name the date. */
  function Offered(entries: seq<Json>, date: string, fallback: Json, env: Env): nat {
    if |entries| == 0 then 0
    else
      var e := ParseSlot(entries[|entries| - 1], fallback, env);
      Offered(entries[..|entries| - 1], date, fallback, env) + if e.Ok? && e.value.date == date then 1 else 0
  }

  lemma {:induction false} KeptIsFit(entries: seq<Json>, fallback: Json, env: Env)
    requires env.Sane()
    ensures AllFit(Kept(entries, fallback, env), env)
  {
    hide ParseSlot, OnDate, Fit;
    if |entries| > 0 {
      KeptIsFit(entries[..|entries| - 1], fallback, env);
      if ParseSlot(entries[|entries| - 1], fallback, env).Ok? {
        ParsedIsFit(entries[|entries| - 1], fallback, env);
      }
    }
  }

  /** Of each date's well-formed entries a lenient pass keeps the first three. */
  lemma {:induction false} KeptPerDate(entries: seq<Json>, date: string, fallback: Json, env: Env)
    ensures var offered := Offered(entries, date, fallback, env);
            OnDate(Kept(entries, fallback, env), date) == if offered < MAX_PER_DATE then offered else MAX_PER_DATE
  {
    hide ParseSlot;
    if |entries| > 0 {
      var init := entries[..|entries| - 1];
      KeptPerDate(init, date, fallback, env);
      var before := Kept(init, fallback, env);
      var e := ParseSlot(entries[|entries| - 1], fallback, env);
      if e.Ok? {
        KeptPerDate(init, e.value.date, fallback, env);
        assert (before + [e.value])[..|before|] == before;
      }
    }
  }

  /** The well-formed entries that name the date, in order. */
  function OfferedSlots(entries: seq<Json>, date: string, fallback: Json, env: Env): seq<Slot> {
    if |entries| == 0 then []
    else
      var e := ParseSlot(entries[|entries| - 1], fallback, env);
      OfferedSlots(entries[..|entries| - 1], date, fallback, env)
      + if e.Ok? && e.value.date == date then [e.value] else []
  }

  function First<T>(s: seq<T>, n: nat): seq<T> {
    if |s| <= n then s else s[..n]
  }

  /** The kept entries of a date are the first three offered for it. */
  lemma {:induction false} KeptAreFirst(entries: seq<Json>, date: string, fallback: Json, env: Env)
    ensures OfDate(Kept(entries, fallback, env), date)
         == First(OfferedSlots(entries, date, fallback, env), MAX_PER_DATE)
  {
    hide ParseSlot, OnDate, OfDate, First;
    if |entries| == 0 {
      NothingOffered(date);
    } else {
      var init := entries[..|entries| - 1];
      var before, offered := Kept(init, fallback, env), OfferedSlots(init, date, fallback, env);
      var e := ParseSlot(entries[|entries| - 1], fallback, env);
      KeptAreFirst(init, date, fallback, env);
      assert offered + [] == offered;
      if e.Ok? {
        DateCount(before, e.value.date);
        OfDateNext(before, e.value, date);
        FirstNext(offered, e.value);
      }
    }
  }

  lemma NothingOffered(date: string)
    ensures OfDate([], date) == First([], MAX_PER_DATE)
  {
  }

  lemma OfDateNext(s: seq<Slot>, x: Slot, date: string)
    ensures OfDate(s + [x], date) == OfDate(s, date) + if x.date == date then [x] else []
  {
    assert (s + [x])[..|s|] == s;
  }

  lemma FirstNext(s: seq<Slot>, x: Slot)
    ensures First(s + [x], MAX_PER_DATE)
         == if |First(s, MAX_PER_DATE)| < MAX_PER_DATE then First(s, MAX_PER_DATE) + [x] else First(s, MAX_PER_DATE)
  {
  }

  lemma {:induction false} DateCount(s: seq<Slot>, date: string)
    ensures |OfDate(s, date)| == OnDate(s, date)
  {
    if |s| > 0 {
      DateCount(s[..|s| - 1], date);
    }
  }

  /** Of each date's well-formed entries among the first ten given, a lenient result holds exactly the first three. */
  lemma LenientKeepsFirst(raw: Json, date: string, fallback: Json, env: Env)
    ensures multiset(OfDate(Lenient(raw, fallback, env), date)) ==
            multiset(First(OfferedSlots(FirstTen(raw), date, fallback, env), MAX_PER_DATE))
  {
    hide ParseSlot, Place, Sort, OfDate, Kept, OfferedSlots;
    SortKeepsDate(Kept(FirstTen(raw), fallback, env), date);
    KeptAreFirst(FirstTen(raw), date, fallback, env);
  }

  function FirstTen(raw: Json): seq<Json> {
    if |Items(raw)| <= MAX_EXCEPTIONS then Items(raw) else Items(raw)[..MAX_EXCEPTIONS]
  }

  /** Every lenient result: at most ten fit entries, at most three a date, in order. */
  lemma LenientIsNormal(raw: Json, fallback: Json, env: Env)
    requires env.Sane()
    ensures Normal(Lenient(raw, fallback, env), env)
  {
    hide ParseSlot, Fit, NotAfter, Place, Sort, OnDate, Kept;
    var kept := Kept(FirstTen(raw), fallback, env);
    KeptIsFit(FirstTen(raw), fallback, env);
    SortIsSorted(kept);
    forall date ensures OnDate(Sort(kept), date) <= 3 {
      SortKeeps(kept, ("", "", ""), date);
      KeptPerDate(FirstTen(raw), date, fallback, env);
    }
  }

  /** Nothing is lost but a date's fourth entry onwards and what does not parse. */
  lemma LenientPerDate(raw: Json, date: string, fallback: Json, env: Env)
    ensures var offered := Offered(FirstTen(raw), date, fallback, env);
            OnDate(Lenient(raw, fallback, env), date) == if offered < MAX_PER_DATE then offered else MAX_PER_DATE
  {
    hide ParseSlot, Place, Sort, OnDate, Kept, Offered;
    SortKeeps(Kept(FirstTen(raw), fallback, env), ("", "", ""), date);
    KeptPerDate(FirstTen(raw), date, fallback, env);
  }

  // ---------- Agreement ----------

  ghost predicate AllParse(entries: seq<Json>, fallback: Json, env: Env) {
    forall i :: 0 <= i < |entries| ==> ParseSlot(entries[i], fallback, env).Ok?
  }

  ghost predicate FewOffered(entries: seq<Json>, fallback: Json, env: Env) {
    forall date :: Offered(entries, date, fallback, env) <= 3
  }

  lemma {:induction false} DemandedIsKept(entries: seq<Json>, fallback: Json, env: Env)
    ensures var d := Demanded(entries, fallback, env); d.Ok? ==> d.value == Kept(entries, fallback, env)
    ensures Demanded(entries, fallback, env).Ok? <==>
            AllParse(entries, fallback, env) && FewOffered(entries, fallback, env)
  {
    hide ParseSlot, OnDate, AllParse, FewOffered;
    if |entries| == 0 {
      NothingDemanded(fallback, env);
    } else {
      DemandedIsKept(entries[..|entries| - 1], fallback, env);
      ConditionsOfNext(entries, fallback, env);
    }
  }

  lemma NothingDemanded(fallback: Json, env: Env)
    ensures AllParse([], fallback, env) && FewOffered([], fallback, env)
  {
  }

  /** The last entry must parse and must not be a fourth for its date. */
  lemma ConditionsOfNext(entries: seq<Json>, fallback: Json, env: Env)
    requires |entries| > 0
    ensures var init, e := entries[..|entries| - 1], ParseSlot(entries[|entries| - 1], fallback, env);
            AllParse(entries, fallback, env) && FewOffered(entries, fallback, env) <==>
            (AllParse(init, fallback, env) && FewOffered(init, fallback, env)
            && e.Ok? && OnDate(Kept(init, fallback, env), e.value.date) < MAX_PER_DATE)
  {
    hide ParseSlot, OnDate, Kept;
    var init, e := entries[..|entries| - 1], ParseSlot(entries[|entries| - 1], fallback, env);
    forall date ensures Offered(init, date, fallback, env) <= Offered(entries, date, fallback, env) {
    }
    if e.Ok? {
      KeptPerDate(init, e.value.date, fallback, env);
      assert Offered(entries, e.value.date, fallback, env) == Offered(init, e.value.date, fallback, env) + 1;
    }
    if AllParse(entries, fallback, env) {
      assert ParseSlot(entries[|entries| - 1], fallback, env).Ok?;
      forall i | 0 <= i < |init| ensures ParseSlot(init[i], fallback, env).Ok? {
        assert entries[i] == init[i];
      }
    }
  }

  /** What strict mode accepts: at most ten entries, all well formed, at most three a date. */
  lemma StrictAcceptsIff(raw: Json, fallback: Json, env: Env)
    ensures Strict(raw, fallback, env).Ok? <==>
            (|Items(raw)| <= 10
            && AllParse(Items(raw), fallback, env) && FewOffered(Items(raw), fallback, env))
  {
    hide ParseSlot, OnDate, AllParse, FewOffered, Demanded, Kept, Sort;
    DemandedIsKept(Items(raw), fallback, env);
  }

  lemma StrictImpliesLenient(raw: Json, fallback: Json, env: Env)
    requires Strict(raw, fallback, env).Ok?
    ensures Strict(raw, fallback, env).value == Lenient(raw, fallback, env)
  {
    hide ParseSlot, OnDate, AllParse, FewOffered, Demanded, Kept, Sort;
    DemandedIsKept(Items(raw), fallback, env);
  }

  // ---------- Fixed points ----------

  lemma {:induction false} FitIsDemanded(s: seq<Slot>, entries: seq<Json>, fallback: Json, env: Env)
    requires AllFit(s, env) && FewPerDate(s)
    requires |entries| == |s| && forall i :: 0 <= i < |s| ==> entries[i] == SlotToJson(s[i])
    ensures Demanded(entries, fallback, env) == Ok(s)
  {
    hide ParseSlot, SlotToJson, Fit;
    if |s| > 0 {
      var init, last := s[..|s| - 1], s[|s| - 1];
      assert s == init + [last];
      forall date ensures OnDate(init, date) <= 3 {
        assert OnDate(init, date) <= OnDate(s, date);
      }
      FitIsDemanded(init, entries[..|s| - 1], fallback, env);
      assert last in s;
      FitReadsBack(last, fallback, env);
      assert OnDate(init, last.date) < OnDate(s, last.date);
    }
  }

  /** Every normal list is accepted unchanged, in either mode and under any fallback zone. */
  lemma NormalIsFixed(s: seq<Slot>, fallback: Json, env: Env)
    requires Normal(s, env)
    ensures Strict(ToJson(s), fallback, env) == Ok(s)
    ensures Lenient(ToJson(s), fallback, env) == s
  {
    hide ParseSlot, Fit, NotAfter, SlotToJson, OnDate, Place, Sort, Demanded, Kept;
    FitIsDemanded(s, Items(ToJson(s)), fallback, env);
    SortedIsLeftAlone(s);
    StrictImpliesLenient(ToJson(s), fallback, env);
  }

  /** Whatever either mode returns, both modes then accept unchanged. */
  lemma ModesAgree(raw: Json, fallback: Json, other: Json, env: Env)
    requires env.Sane()
    ensures Strict(ToJson(Lenient(raw, fallback, env)), other, env) == Ok(Lenient(raw, fallback, env))
    ensures Lenient(ToJson(Lenient(raw, fallback, env)), other, env) == Lenient(raw, fallback, env)
    ensures var s := Strict(raw, fallback, env);
            s.Ok? ==> s.value == Lenient(raw, fallback, env) && Strict(ToJson(s.value), other, env) == s
  {
    hide Normal, Strict, Lenient, ToJson;
    LenientIsNormal(raw, fallback, env);
    NormalIsFixed(Lenient(raw, fallback, env), other, env);
    if Strict(raw, fallback, env).Ok? {
      StrictImpliesLenient(raw, fallback, env);
    }
  }

  // ---------- Weekly settings ----------

  ghost predicate NormalWeekly(w: Weekly, env: Env) {
    && NoRepeats(w.days) && (forall d :: d in w.days ==> d in DayTokens())
    && NoRepeats(w.timeOfDay) && (forall d :: d in w.timeOfDay ==> d in DayParts())
    && (w.earliest.Some? ==> IsClock(w.earliest.value))
    && (w.latest.Some? ==> IsClock(w.latest.value))
    && (w.earliest.Some? && w.latest.Some? ==> ClockMinutes(w.earliest.value) < ClockMinutes(w.latest.value))
    && w.frequency in Frequencies() && w.notice in Notices()
    && Trimmed(w.timezone) && env.zoneKnown(w.timezone)
  }

  lemma WeeklyIsNormal(raw: Json, fallback: Json, strict: bool, env: Env)
    requires env.Sane() && NormalizeWeekly(raw, fallback, strict, env).Ok?
    ensures NormalWeekly(NormalizeWeekly(raw, fallback, strict, env).value, env)
  {
    hide Distinct, DayToken, DayPart, NormalizeTime, NormalizeTimezone, Less, IsClock, Choice;
    ZoneIsTrimmed(Field(raw, "timezone"), fallback, env);
    var e, l := NormalizeTime(Field(raw, "earliest_time")), NormalizeTime(Field(raw, "latest_time"));
    if e.Some? && l.Some? {
      ClockOrder(e.value, l.value);
    }
    TokensOnly(Items(Field(raw, "days")));
    PartsOnly(Items(Field(raw, "time_of_day")));
  }

  lemma TokensOnly(items: seq<Json>)
    ensures forall d :: d in Distinct(items, DayToken) ==> d in DayTokens()
  {
    hide Distinct, DayTokens;
    forall d | d in Distinct(items, DayToken) ensures d in DayTokens() {
      var k :| 0 <= k < |items| && DayToken(items[k]) == Some(d);
    }
  }

  lemma PartsOnly(items: seq<Json>)
    ensures forall d :: d in Distinct(items, DayPart) ==> d in DayParts()
  {
    hide Distinct, DayParts;
    forall d | d in Distinct(items, DayPart) ensures d in DayParts() {
      var k :| 0 <= k < |items| && DayPart(items[k]) == Some(d);
    }
  }

  lemma DayTokenReadsBack(d: string)
    requires d in DayTokens()
    ensures DayToken(Str(d)) == Some(d)
  {
    hide ToLower, Trim, Trimmed;
    LowerWordIsStable(d);
  }

  lemma DayPartReadsBack(d: string)
    requires d in DayParts()
    ensures DayPart(Str(d)) == Some(d)
  {
    hide ToLower, Trim, Trimmed;
    LowerWordIsStable(d);
  }

  lemma DaysReadBack(days: seq<string>)
    requires NoRepeats(days) && forall d :: d in days ==> d in DayTokens()
    ensures Distinct(Items(Texts(days)), DayToken) == days
  {
    hide Distinct, DayToken, DayTokens, NoRepeats;
    forall i | 0 <= i < |days| ensures DayToken(Str(days[i])) == Some(days[i]) {
      DayTokenReadsBack(days[i]);
    }
    DistinctReadsBack(days, Items(Texts(days)), DayToken);
  }

  lemma PartsReadBack(parts: seq<string>)
    requires NoRepeats(parts) && forall d :: d in parts ==> d in DayParts()
    ensures Distinct(Items(Texts(parts)), DayPart) == parts
  {
    hide Distinct, DayPart, DayParts, NoRepeats;
    forall i | 0 <= i < |parts| ensures DayPart(Str(parts[i])) == Some(parts[i]) {
      DayPartReadsBack(parts[i]);
    }
    DistinctReadsBack(parts, Items(Texts(parts)), DayPart);
  }

  lemma WeeklyFields(w: Weekly)
    ensures Field(WeeklyToJson(w), "days") == Texts(w.days)
    ensures Field(WeeklyToJson(w), "time_of_day") == Texts(w.timeOfDay)
    ensures Field(WeeklyToJson(w), "earliest_time") == TextOrNull(w.earliest)
    ensures Field(WeeklyToJson(w), "latest_time") == TextOrNull(w.latest)
    ensures Field(WeeklyToJson(w), "frequency") == Str(w.frequency)
    ensures Field(WeeklyToJson(w), "notice") == Str(w.notice)
    ensures Field(WeeklyToJson(w), "timezone") == Str(w.timezone)
  {
    hide Texts, TextOrNull;
  }

  /** Normal weekly settings survive being written out and read again, in either mode. */
  lemma NormalWeeklyIsFixed(w: Weekly, fallback: Json, strict: bool, env: Env)
    requires NormalWeekly(w, env)
    ensures NormalizeWeekly(WeeklyToJson(w), fallback, strict, env) == Ok(w)
  {
    hide Distinct, DayToken, DayPart, Less, DayTokens, DayParts, IsClock, NormalizeTime, NormalizeTimezone;
    hide NoRepeats, Items, Texts, Trimmed, ClockMinutes, TextOrNull, WeeklyToJson, Field;
    WeeklyFields(w);
    DaysReadBack(w.days);
    PartsReadBack(w.timeOfDay);
    TimeReadsBack(w.earliest);
    TimeReadsBack(w.latest);
    if w.earliest.Some? && w.latest.Some? {
      ClockOrder(w.earliest.value, w.latest.value);
    }
  }

  /** Strict mode refuses exactly the weekly settings whose two valid times are out of order. */
  lemma WeeklyStrictVersusLenient(raw: Json, fallback: Json, env: Env)
    ensures var e, l := NormalizeTime(Field(raw, "earliest_time")), NormalizeTime(Field(raw, "latest_time"));
            NormalizeWeekly(raw, fallback, true, env).Err? <==>
            (e.Some? && l.Some? && ClockMinutes(l.value) <= ClockMinutes(e.value))
    ensures var s := NormalizeWeekly(raw, fallback, true, env);
            s.Ok? ==> NormalizeWeekly(raw, fallback, false, env) == s
  {
    hide Distinct, DayToken, DayPart, Less, IsClock, NormalizeTime, NormalizeTimezone;
    var e, l := NormalizeTime(Field(raw, "earliest_time")), NormalizeTime(Field(raw, "latest_time"));
    if e.Some? && l.Some? {
      ClockOrder(e.value, l.value);
    }
  }

  // ---------- What single entries read as ----------

  /** A day is known by its first three letters, whatever their case and the space around them. */
  lemma DayTokenIff(s: string, t: string)
    requires t in {"mon", "tue", "wed", "thu", "fri", "sat", "sun"}
    ensures DayToken(Str(s)) == Some(t) <==> t <= ToLower(Trim(s))
  {
    hide Trim, ToLower;
    var lower := ToLower(Trim(s));
    assert |t| == 3;
    if t <= lower {
      assert (if |lower| <= 3 then lower else lower[..3]) == t;
    }
  }

  /** A list of one value is known as a day, or a part of one, as the value itself is. */
  lemma ListOfOneReads(v: Json)
    requires v != Null
    ensures DayToken(Arr([v])) == DayToken(v) && DayPart(Arr([v])) == DayPart(v)
  {
    hide Trim, ToLower;
    var one := Arr([v]);
    assert ToText(one) == Join([ToText(v)], ",") by {
      var texts := seq(|one.items|, i requires 0 <= i < |one.items| =>
                       if one.items[i].Null? then "" else ToText(one.items[i]));
      assert texts == [ToText(v)];
    }
  }

  lemma MondayIsKnown()
    ensures DayToken(Str("Monday")) == Some("mon")
  {
    hide ToLower, TrimStart, TrimEnd, DayToken;
    var s := "Monday";
    assert Trimmed(s);
    LowerAt(s, 0);
    LowerAt(s, 1);
    LowerAt(s, 2);
    assert ToLower(s)[..3] == "mon";
    DayTokenIff(s, "mon");
  }

  /** An entry reads as a slot exactly when it is an object with a date of the calendar and two clock times in
      order; its zone is its own where that is known, else the fallback where that is, else the default. */
  lemma SlotReadsIff(e: Json, fallback: Json, env: Env, x: Slot)
    ensures ParseSlot(e, fallback, env) == Ok(x) <==>
            && e.Obj?
            && Field(e, "date").Str? && Trim(Field(e, "date").s) == x.date && IsDate(x.date)
            && Field(e, "start").Str? && Trim(Field(e, "start").s) == x.start && IsClock(x.start)
            && Field(e, "end").Str? && Trim(Field(e, "end").s) == x.end && IsClock(x.end)
            && ClockMinutes(x.start) < ClockMinutes(x.end)
            && x.timezone == (if Field(e, "timezone").Str? && env.zoneKnown(Trim(Field(e, "timezone").s))
                              then Trim(Field(e, "timezone").s)
                              else if fallback.Str? && env.zoneKnown(Trim(fallback.s)) then Trim(fallback.s)
                              else "America/Vancouver")
  {
    hide Trim, Less, IsClock, ClockMinutes, IsDate;
    var start, end := NormalizeTime(Field(e, "start")), NormalizeTime(Field(e, "end"));
    if start.Some? && end.Some? {
      ClockOrder(start.value, end.value);
    }
    BlankIsNoDate();
  }

  lemma BlankIsNoDate()
    ensures !IsDate("")
  {
  }
}
