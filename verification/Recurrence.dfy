/**
Frequencies: the step from one contract visit to the next, and the next visit of a
recurring work order.
*/
module Recurrence {
  import opened Calendar
  import opened Schedule
  import opened Text
  import opened Wrappers

  /** A stored frequency; `Unrecognised` stands for any string outside the known seven. */
  datatype Frequency =
    | Daily | Weekly | Fortnightly
    | Monthly | Quarterly | HalfYearly | Yearly
    | Unrecognised

  predicate IsWeekdayFrequency(f: Frequency) {
    f.Weekly? || f.Fortnightly?
  }

  // ----- Stepping contract visits -----

  function DaySteps(f: Frequency): (n: nat)
    requires f.Daily? || IsWeekdayFrequency(f)
  {
    match f
    case Daily => 1
    case Weekly => 7
    case Fortnightly => 14
  }

  /** The known month steps; every other frequency takes the caller's default. */
  function MonthSteps(f: Frequency, default: nat): (n: nat)
    ensures 1 <= default ==> 1 <= n
  {
    match f
    case Monthly => 1
    case Quarterly => 3
    case HalfYearly => 6
    case Yearly => 12
    case _ => default
  }

  function MinStep(f: Frequency): (n: nat)
    ensures 1 <= n
  {
    if f.Daily? || IsWeekdayFrequency(f) then DaySteps(f) else 28 * MonthSteps(f, 3)
  }

  function MaxStep(f: Frequency): (n: nat) {
    if f.Daily? || IsWeekdayFrequency(f) then DaySteps(f) else 31 * MonthSteps(f, 3)
  }

  /** `_step`. */
  function Step(d: Day, f: Frequency): (r: Day)
    ensures d + MinStep(f) <= r <= d + MaxStep(f)
  {
    if f.Daily? || IsWeekdayFrequency(f) then d + DaySteps(f)
    else
      var day, months := FromOrdinal(d), MonthSteps(f, 3);
      AddMonthsGap(day, months);
      Ordinal(AddMonths(day, months))
  }

  function StepBy(f: Frequency): (step: Day -> Day)
    ensures forall d: Day :: d + MinStep(f) <= step(d) <= d + MaxStep(f)
  {
    (d: Day) => Step(d, f)
  }

  lemma MonthStep(d: Date, f: Frequency)
    requires !f.Daily? && !IsWeekdayFrequency(f)
    ensures StepBy(f)(Ordinal(d)) == Ordinal(AddMonths(d, MonthSteps(f, 3)))
  {
    OrdinalRoundTrip(d);
  }

  /** The month `n` steps of `k` months after month `i`. */
  function MonthAfter(i: nat, k: nat, n: nat): nat {
    if n == 0 then i else MonthAfter(i, k, n - 1) + k
  }

  lemma {:induction false} MonthAfterIsProduct(i: nat, k: nat, n: nat)
    ensures MonthAfter(i, k, n) == i + n * k
  {
    if n > 0 {
      MonthAfterIsProduct(i, k, n - 1);
      assert n * k == (n - 1) * k + k;
    }
  }

  /** The length of the shortest of the months visited by `n` steps of `k` months (31 for none). */
  function ShortestMonth(i: nat, k: nat, n: nat): (days: int)
    ensures 28 <= days <= 31
  {
    if n == 0 then 31
    else
      var last, others := MonthLength(MonthAfter(i, k, n)), ShortestMonth(i, k, n - 1);
      if last < others then last else others
  }

  function Min(a: int, b: int): int {
    if a < b then a else b
  }

  /**
  Closed form of a month schedule with step k: point n lies n*k months after the first,
  and its day is the least of the first day and the last days of the months visited.  A
  day lost to a short month never comes back, but no day falls below min(first, 28).
  */
  lemma {:induction false} MonthScheduleClosedForm(d: Date, f: Frequency, n: nat)
    requires !f.Daily? && !IsWeekdayFrequency(f)
    ensures var k, r := MonthSteps(f, 3), FromOrdinal(Point(StepBy(f), Ordinal(d), n));
            && MonthIndex(r) == MonthIndex(d) + n * k
            && r.day == Min(d.day, ShortestMonth(MonthIndex(d), k, n))
            && Min(d.day, 28) <= r.day
  {
    var k := MonthSteps(f, 3);
    forall x: Date
      ensures StepBy(f)(Ordinal(x)) == Ordinal(AddMonths(x, k))
    {
      MonthStep(x, f);
    }
    PointIsMonthsLater(StepBy(f), d, k, n);
    OrdinalRoundTrip(MonthsLater(d, k, n));
    MonthsLaterOnSchedule(d, k, n);
    MonthAfterIsProduct(MonthIndex(d), k, n);
  }

  /** What `n` month steps from `d` lead to. */
  predicate OnMonthSchedule(r: Date, d: Date, k: nat, n: nat) {
    && MonthIndex(r) == MonthAfter(MonthIndex(d), k, n)
    && r.day == Min(d.day, ShortestMonth(MonthIndex(d), k, n))
  }

  lemma MonthScheduleStarts(d: Date, k: nat)
    ensures OnMonthSchedule(d, d, k, 0)
  {
    MonthLengthOf(d.year, d.month);
  }

  lemma MonthScheduleContinues(q: Date, d: Date, k: nat, n: nat)
    requires OnMonthSchedule(q, d, k, n)
    ensures OnMonthSchedule(AddMonths(q, k), d, k, n + 1)
  {
  }

  function MonthsLater(d: Date, k: nat, n: nat): Date {
    if n == 0 then d else AddMonths(MonthsLater(d, k, n - 1), k)
  }

  lemma {:induction false} MonthsLaterOnSchedule(d: Date, k: nat, n: nat)
    ensures OnMonthSchedule(MonthsLater(d, k, n), d, k, n)
  {
    if n == 0 {
      MonthScheduleStarts(d, k);
    } else {
      MonthsLaterOnSchedule(d, k, n - 1);
      MonthScheduleContinues(MonthsLater(d, k, n - 1), d, k, n - 1);
    }
  }

  lemma {:induction false} PointIsMonthsLater(step: Day -> Day, d: Date, k: nat, n: nat)
    requires forall x: Date :: step(Ordinal(x)) == Ordinal(AddMonths(x, k))
    ensures Point(step, Ordinal(d), n) == Ordinal(MonthsLater(d, k, n))
    decreases n
  {
    if n > 0 {
      PointIsMonthsLater(step, d, k, n - 1);
      PointNext(step, Ordinal(d), n - 1);
    }
  }

  // ----- Recurring days -----

  /** One entry of the stored day list: something `int` accepts, or a word it rejects. */
  datatype RawDay = Number(n: int) | Word(text: string)

  /** `_WEEKDAY_NAMES`. */
  function WeekdayNumber(name: string): Option<int> {
    if name == "mon" || name == "monday" then Some(1)
    else if name == "tue" || name == "tuesday" then Some(2)
    else if name == "wed" || name == "wednesday" then Some(3)
    else if name == "thu" || name == "thursday" then Some(4)
    else if name == "fri" || name == "friday" then Some(5)
    else if name == "sat" || name == "saturday" then Some(6)
    else if name == "sun" || name == "sunday" then Some(7)
    else None
  }

  function Decode(raw: RawDay): Option<int> {
    match raw
    case Number(n) => Some(n)
    case Word(text) => WeekdayNumber(Lower(Strip(text)))
  }

  /** The largest day number a frequency accepts: a weekday, or a day every month has. */
  function HighDay(f: Frequency): (n: int)
    ensures n == 7 || n == 28
  {
    if IsWeekdayFrequency(f) then 7 else 28
  }

  predicate IsDecoded(raw: seq<RawDay>, v: int) {
    exists i | 0 <= i < |raw| :: Decode(raw[i]) == Some(v)
  }

  /** The decoded days from `low` to `high`, in increasing order and without repetition. */
  function DaysBetween(raw: seq<RawDay>, low: int, high: int): (days: seq<int>)
    ensures forall v :: v in days <==> low <= v <= high && IsDecoded(raw, v)
    ensures forall i, j | 0 <= i < j < |days| :: days[i] < days[j]
    decreases high - low
  {
    if high < low then []
    else
      var later := DaysBetween(raw, low + 1, high);
      assert forall i | 0 <= i < |later| :: later[i] in later;
      if IsDecoded(raw, low) then [low] + later else later
  }

  function NormalizedDays(raw: seq<RawDay>, f: Frequency): (days: seq<int>)
    ensures forall v :: v in days <==> 1 <= v <= HighDay(f) && IsDecoded(raw, v)
    ensures forall i, j | 0 <= i < j < |days| :: days[i] < days[j]
  {
    DaysBetween(raw, 1, HighDay(f))
  }

  /** `_normalize_days`: decode entry by entry, then keep the valid values in order. */
  method NormalizeDays(raw: seq<RawDay>, f: Frequency) returns (days: seq<int>)
    ensures days == NormalizedDays(raw, f)
  {
    if raw == [] {
      NoDays(raw, 1, HighDay(f));
      return [];
    }
    var out: seq<int> := [];
    for k := 0 to |raw|
      invariant forall v :: v in out <==> IsDecoded(raw[..k], v)
    {
      ghost var before := out;
      match Decode(raw[k]) {
        case Some(v) => out := out + [v];
        case None =>
      }
      DecodedOneMore(raw, k);
    }
    assert raw[..|raw|] == raw;
    var high := if IsWeekdayFrequency(f) then 7 else 28;
    days := [];
    var v := high;
    while v >= 1
      invariant 0 <= v <= high == HighDay(f)
      invariant days == DaysBetween(raw, v + 1, high)
    {
      if v in out {
        days := [v] + days;
      }
      v := v - 1;
    }
  }

  lemma {:induction false} NoDays(raw: seq<RawDay>, low: int, high: int)
    requires forall v :: !IsDecoded(raw, v)
    ensures DaysBetween(raw, low, high) == []
    decreases high - low
  {
    if low <= high {
      NoDays(raw, low + 1, high);
    }
  }

  lemma DecodedOneMore(raw: seq<RawDay>, k: nat)
    requires k < |raw|
    ensures forall v :: IsDecoded(raw[..k + 1], v) <==> IsDecoded(raw[..k], v) || Decode(raw[k]) == Some(v)
  {
    forall v
      ensures IsDecoded(raw[..k + 1], v) <==> IsDecoded(raw[..k], v) || Decode(raw[k]) == Some(v)
    {
      if IsDecoded(raw[..k], v) {
        var i :| 0 <= i < k && Decode(raw[..k][i]) == Some(v);
        assert Decode(raw[..k + 1][i]) == Some(v);
      }
      if Decode(raw[k]) == Some(v) {
        assert Decode(raw[..k + 1][k]) == Some(v);
      }
      if IsDecoded(raw[..k + 1], v) {
        var i :| 0 <= i < k + 1 && Decode(raw[..k + 1][i]) == Some(v);
        if i < k {
          assert Decode(raw[..k][i]) == Some(v);
        }
      }
    }
  }

  // ----- The next recurring date -----

  function FirstOn(after: Day, days: seq<int>, offset: nat, span: nat): (r: Day)
    decreases span + 1 - offset
  {
    if offset > span then after + span
    else if Weekday(after + offset) in days then after + offset
    else FirstOn(after, days, offset + 1, span)
  }

  function SmallestDay(raw: seq<RawDay>, f: Frequency): (v: int)
    requires NormalizedDays(raw, f) != []
    ensures 1 <= v <= HighDay(f) && IsDecoded(raw, v)
    ensures forall w | 1 <= w <= HighDay(f) && IsDecoded(raw, w) :: v <= w
  {
    var days := NormalizedDays(raw, f);
    assert days[0] in days;
    assert forall w | w in days :: days[0] <= w;
    days[0]
  }

  /** The month branch of `next_occurrence`, on calendar dates. */
  function NextInMonth(after: Date, f: Frequency, raw: seq<RawDay>): (r: Date)
    requires !IsWeekdayFrequency(f)
  {
    var next := AddMonths(after, MonthSteps(f, 1));
    if NormalizedDays(raw, f) == [] then next
    else
      var day := SmallestDay(raw, f);
      var candidate := ReplaceDay(next, day);
      if !Lt(after, candidate) then ReplaceDay(AddMonths(next, 1), day) else candidate
  }

  /** `next_occurrence`. */
  function NextOccurrence(after: Day, f: Frequency, raw: seq<RawDay>): (r: Day) {
    if IsWeekdayFrequency(f) then
      var days := NormalizedDays(raw, f);
      if days == [] then after + DaySteps(f) else FirstOn(after, days, 1, DaySteps(f))
    else
      Ordinal(NextInMonth(FromOrdinal(after), f, raw))
  }

  method FindWeekday(after: Day, days: seq<int>, span: nat) returns (r: Day)
    ensures r == FirstOn(after, days, 1, span)
  {
    for offset := 1 to span + 1
      invariant FirstOn(after, days, 1, span) == FirstOn(after, days, offset, span)
    {
      var candidate := after + offset;
      if Weekday(candidate) in days {
        return candidate;
      }
    }
    return after + span;
  }

  method ComputeNextOccurrence(after: Day, f: Frequency, raw: seq<RawDay>) returns (r: Day)
    ensures r == NextOccurrence(after, f, raw)
  {
    if IsWeekdayFrequency(f) {
      var days := NormalizeDays(raw, f);
      if days == [] {
        r := after + DaySteps(f);
      } else {
        r := FindWeekday(after, days, DaySteps(f));
      }
    } else {
      r := Ordinal(NextInMonth(FromOrdinal(after), f, raw));
    }
  }

  /** What a search from `offset` finds, given that the date `hit` days on qualifies. */
  lemma {:induction false} FirstOnIsLeast(after: Day, days: seq<int>, offset: nat, span: nat, hit: nat)
    requires 1 <= offset <= hit <= span && Weekday(after + hit) in days
    ensures var r := FirstOn(after, days, offset, span);
            && after + offset <= r <= after + hit
            && Weekday(r) in days
            && forall d: Day | after + offset <= d < r :: Weekday(d) !in days
    decreases span + 1 - offset
  {
    if Weekday(after + offset) !in days {
      FirstOnIsLeast(after, days, offset + 1, span, hit);
    }
  }

  /** Every weekday number comes up within seven days of any date. */
  lemma WeekdayWithinAWeek(after: Day, w: int) returns (k: nat)
    requires 1 <= w <= 7
    ensures 1 <= k <= 7 && Weekday(after + k) == w
  {
    var gap := w - Weekday(after);
    k := if gap <= 0 then gap + 7 else gap;
    var q := (after - Weekday(after)) / 7;
    assert after + k == 7 * q + w || after + k == 7 * (q + 1) + w;
  }

  predicate HasWeekdays(f: Frequency, raw: seq<RawDay>) {
    IsWeekdayFrequency(f) && NormalizedDays(raw, f) != []
  }

  /** With valid weekdays the next occurrence is the least later date on one of them, at most seven days away. */
  lemma NextWeekdayOccurrence(after: Day, f: Frequency, raw: seq<RawDay>)
    requires HasWeekdays(f, raw)
    ensures var r := NextOccurrence(after, f, raw);
            && after < r <= after + 7
            && IsDecoded(raw, Weekday(r))
            && forall d: Day | after < d < r :: !IsDecoded(raw, Weekday(d))
  {
    var hit := WeekdayWithinAWeek(after, SmallestDay(raw, f));
    FirstOnIsLeast(after, NormalizedDays(raw, f), 1, DaySteps(f), hit);
  }

  /** So a fortnightly template with weekdays runs on the weekly schedule. */
  lemma FortnightlyIsWeekly(after: Day, raw: seq<RawDay>)
    requires HasWeekdays(Weekly, raw)
    ensures NextOccurrence(after, Fortnightly, raw) == NextOccurrence(after, Weekly, raw)
  {
    var days := NormalizedDays(raw, Weekly);
    var hit := WeekdayWithinAWeek(after, SmallestDay(raw, Weekly));
    FirstOnIsLeast(after, days, 1, 7, hit);
    FirstOnIsLeast(after, days, 1, 14, hit);
  }

  predicate HasMonthDays(f: Frequency, raw: seq<RawDay>) {
    !IsWeekdayFrequency(f) && NormalizedDays(raw, f) != []
  }

  /**
  For every other frequency the next occurrence is exactly k months on (k = 1 for daily
  and for unknown frequencies): on the smallest valid day when there is one, else on the
  clamped day of the anchor.  The repair that adds a further month is never needed.
  */
  lemma NextMonthOccurrence(after: Day, f: Frequency, raw: seq<RawDay>)
    requires !IsWeekdayFrequency(f)
    ensures var r, k := FromOrdinal(NextOccurrence(after, f, raw)), MonthSteps(f, 1);
            && after < NextOccurrence(after, f, raw)
            && MonthIndex(r) == MonthIndex(FromOrdinal(after)) + k
            && (if HasMonthDays(f, raw) then r.day == SmallestDay(raw, f)
                else r == AddMonths(FromOrdinal(after), k))
  {
    var a := FromOrdinal(after);
    var r := NextInMonth(a, f, raw);
    var next := AddMonths(a, MonthSteps(f, 1));
    OrdinalRoundTrip(r);
    if HasMonthDays(f, raw) {
      EarlierMonth(a, ReplaceDay(next, SmallestDay(raw, f)));
    } else {
      EarlierMonth(a, next);
    }
  }

  /** Two whole months lie between a date and its next quarterly, half-yearly or yearly date. */
  lemma LongMonthOccurrence(after: Day, f: Frequency, raw: seq<RawDay>)
    requires f.Quarterly? || f.HalfYearly? || f.Yearly?
    ensures after + 28 < NextOccurrence(after, f, raw)
  {
    NextMonthOccurrence(after, f, raw);
    EarlierMonth(FromOrdinal(after), FromOrdinal(NextOccurrence(after, f, raw)));
  }

  /** Without valid days the next occurrence is a whole step away. */
  lemma NextOccurrenceWithoutDays(after: Day, f: Frequency, raw: seq<RawDay>)
    requires NormalizedDays(raw, f) == []
    ensures after + 7 <= NextOccurrence(after, f, raw)
  {
    if !IsWeekdayFrequency(f) {
      NextMonthOccurrence(after, f, raw);
      AddMonthsGap(FromOrdinal(after), MonthSteps(f, 1));
    }
  }

  /** A smallest valid day of `v` puts the next occurrence at least `v` days ahead. */
  lemma MonthOccurrenceIsFar(after: Day, f: Frequency, raw: seq<RawDay>)
    requires HasMonthDays(f, raw)
    ensures after + SmallestDay(raw, f) <= NextOccurrence(after, f, raw)
  {
    var a, r := FromOrdinal(after), FromOrdinal(NextOccurrence(after, f, raw));
    NextMonthOccurrence(after, f, raw);
    ReachesBack(a, r);
  }

  predicate HasDays(f: Frequency, raw: seq<RawDay>) {
    NormalizedDays(raw, f) != []
  }

  /** With valid days, a later date has no earlier next occurrence. */
  lemma NextOccurrenceGrows(a: Day, b: Day, f: Frequency, raw: seq<RawDay>)
    requires a <= b && HasDays(f, raw)
    ensures NextOccurrence(a, f, raw) <= NextOccurrence(b, f, raw)
  {
    if IsWeekdayFrequency(f) {
      NextWeekdayOccurrence(a, f, raw);
      NextWeekdayOccurrence(b, f, raw);
    } else {
      NextMonthOccurrence(a, f, raw);
      NextMonthOccurrence(b, f, raw);
      if MonthIndex(FromOrdinal(b)) < MonthIndex(FromOrdinal(a)) {
        EarlierMonth(FromOrdinal(b), FromOrdinal(a));
      }
      var r, q := FromOrdinal(NextOccurrence(a, f, raw)), FromOrdinal(NextOccurrence(b, f, raw));
      MonthStartBounds(MonthIndex(r), MonthIndex(q));
    }
  }

  /** With weekdays, the day before the next occurrence has the same one. */
  lemma LastWeekdayBefore(d: Day, f: Frequency, raw: seq<RawDay>) returns (last: Day)
    requires HasWeekdays(f, raw)
    ensures d <= last && NextOccurrence(last, f, raw) == NextOccurrence(d, f, raw) == last + 1
  {
    NextWeekdayOccurrence(d, f, raw);
    last := NextOccurrence(d, f, raw) - 1;
    NextWeekdayOccurrence(last, f, raw);
  }

  /** With days of the month, the last day of the month has the same one as any day of it. */
  lemma LastMonthdayBefore(d: Day, f: Frequency, raw: seq<RawDay>) returns (last: Day)
    requires HasMonthDays(f, raw) && MonthSteps(f, 1) == 1
    ensures d <= last && NextOccurrence(last, f, raw) == NextOccurrence(d, f, raw) == last + SmallestDay(raw, f)
  {
    var a := FromOrdinal(d);
    var end := LastOfMonth(a);
    last := Ordinal(end);
    OrdinalRoundTrip(end);
    NextMonthOccurrence(d, f, raw);
    NextMonthOccurrence(last, f, raw);
    IntoNextMonth(a, FromOrdinal(NextOccurrence(d, f, raw)));
    IntoNextMonth(end, FromOrdinal(NextOccurrence(last, f, raw)));
  }

  lemma NextOccurrenceIsLater(after: Day, f: Frequency, raw: seq<RawDay>)
    ensures after < NextOccurrence(after, f, raw)
  {
    if HasWeekdays(f, raw) {
      NextWeekdayOccurrence(after, f, raw);
    } else if !IsWeekdayFrequency(f) {
      NextMonthOccurrence(after, f, raw);
    }
  }

  // ----- Day lists in plain terms -----

  /** The fourteen names of the days of the week, with their ISO numbers. */
  predicate IsDayName(name: string, v: int) {
    || (v == 1 && (name == "mon" || name == "monday"))
    || (v == 2 && (name == "tue" || name == "tuesday"))
    || (v == 3 && (name == "wed" || name == "wednesday"))
    || (v == 4 && (name == "thu" || name == "thursday"))
    || (v == 5 && (name == "fri" || name == "friday"))
    || (v == 6 && (name == "sat" || name == "saturday"))
    || (v == 7 && (name == "sun" || name == "sunday"))
  }

  /** The text names day `v`, in any letter case, with any white space around it. */
  ghost predicate Names(text: string, v: int) {
    exists name | IsDayName(name, v) :: Spells(text, name)
  }

  lemma DayNamesAreLower(name: string, v: int)
    requires IsDayName(name, v)
    ensures IsLowerWord(name) && WeekdayNumber(name) == Some(v)
  {
  }

  lemma NumberedNamesAreDays(name: string)
    ensures WeekdayNumber(name).Some? ==> IsDayName(name, WeekdayNumber(name).value)
  {
  }

  lemma WordsDecodeToNamedDays(text: string, v: int)
    ensures Decode(Word(text)) == Some(v) <==> Names(text, v)
  {
    var word := Lower(Strip(text));
    if Decode(Word(text)) == Some(v) {
      NumberedNamesAreDays(word);
      DayNamesAreLower(word, v);
      CleanedUpExactly(text, word);
      assert IsDayName(word, v) && Spells(text, word);
    }
    if Names(text, v) {
      var name :| IsDayName(name, v) && Spells(text, name);
      DayNamesAreLower(name, v);
      CleanedUpExactly(text, name);
    }
  }

  /** An entry stands for a day: as its number, or by its name. */
  ghost predicate StandsFor(raw: RawDay, v: int) {
    match raw
    case Number(n) => n == v
    case Word(text) => Names(text, v)
  }

  lemma DecodedInPlainTerms(raw: seq<RawDay>, v: int)
    ensures IsDecoded(raw, v) <==> exists i | 0 <= i < |raw| :: StandsFor(raw[i], v)
  {
    forall i | 0 <= i < |raw|
      ensures Decode(raw[i]) == Some(v) <==> StandsFor(raw[i], v)
    {
      if raw[i].Word? {
        WordsDecodeToNamedDays(raw[i].text, v);
      }
    }
  }

  /** The days of a list: 1 to 7 for weekly and fortnightly frequencies, 1 to 28 otherwise, by number or by name. */
  lemma NormalizedInPlainTerms(raw: seq<RawDay>, f: Frequency, v: int)
    ensures v in NormalizedDays(raw, f) <==>
            1 <= v <= (if f == Weekly || f == Fortnightly then 7 else 28) && exists i | 0 <= i < |raw| :: StandsFor(raw[i], v)
  {
    DecodedInPlainTerms(raw, v);
  }

  lemma {:induction false} SameDecodedSameDays(raw: seq<RawDay>, other: seq<RawDay>, low: int, high: int)
    requires forall v :: IsDecoded(raw, v) <==> IsDecoded(other, v)
    ensures DaysBetween(raw, low, high) == DaysBetween(other, low, high)
    decreases high - low
  {
    if low <= high {
      SameDecodedSameDays(raw, other, low + 1, high);
    }
  }

  /** A word that names no day adds none. */
  lemma OtherWordsAddNoDay(raw: seq<RawDay>, text: string, f: Frequency)
    requires forall v :: !Names(text, v)
    ensures NormalizedDays(raw + [Word(text)], f) == NormalizedDays(raw, f)
  {
    var all := raw + [Word(text)];
    forall v
      ensures IsDecoded(all, v) <==> IsDecoded(raw, v)
    {
      WordsDecodeToNamedDays(text, v);
      if IsDecoded(raw, v) {
        var i :| 0 <= i < |raw| && Decode(raw[i]) == Some(v);
        assert all[i] == raw[i];
      }
    }
    SameDecodedSameDays(all, raw, 1, HighDay(f));
  }

  /** A weekly or fortnightly template whose one entry names a day next occurs on the first such day to come. */
  lemma NamedDayIsNext(after: Day, f: Frequency, text: string, v: int)
    requires (f == Weekly || f == Fortnightly) && Names(text, v)
    ensures var r := NextOccurrence(after, f, [Word(text)]);
            after < r <= after + 7 && Weekday(r) == v && forall d: Day | after < d < r :: Weekday(d) != v
  {
    var raw := [Word(text)];
    var name :| IsDayName(name, v) && Spells(text, name);
    NormalizedInPlainTerms(raw, f, v);
    assert StandsFor(raw[0], v);
    assert v in NormalizedDays(raw, f);
    NextWeekdayOccurrence(after, f, raw);
    var w := Weekday(NextOccurrence(after, f, raw));
    forall d: Day
      ensures IsDecoded(raw, Weekday(d)) <==> Weekday(d) == v
    {
      WordsDecodeToNamedDays(text, Weekday(d));
      if Decode(Word(text)) == Some(v) {
        assert Decode(raw[0]) == Some(v);
      }
      WordsDecodeToNamedDays(text, v);
    }
  }

  // ----- Frequencies in plain terms -----

  /** From `d` to `r` it is so many whole months, and the day of the month is kept if the month has it. */
  predicate MonthsOn(r: Day, d: Day, months: nat) {
    var a, b := FromOrdinal(d), FromOrdinal(r);
    && 12 * b.year + b.month == 12 * a.year + a.month + months
    && b.day == Min(a.day, DaysInMonth(b.year, b.month))
  }

  /** One step of a contract's schedule. */
  lemma StepInPlainTerms(d: Day, f: Frequency)
    ensures match f
            case Daily => Step(d, f) == d + 1
            case Weekly => Step(d, f) == d + 7
            case Fortnightly => Step(d, f) == d + 14
            case Monthly => MonthsOn(Step(d, f), d, 1)
            case HalfYearly => MonthsOn(Step(d, f), d, 6)
            case Yearly => MonthsOn(Step(d, f), d, 12)
            case _ => MonthsOn(Step(d, f), d, 3)
  {
    if !f.Daily? && !IsWeekdayFrequency(f) {
      var r := AddMonths(FromOrdinal(d), MonthSteps(f, 3));
      OrdinalRoundTrip(r);
      MonthLengthOf(r.year, r.month);
    }
  }

  /** After n steps of k months: n*k months on, and no day past the first one's or the end of a month on the way. */
  predicate OnSchedule(r: Day, d: Day, k: nat, n: nat) {
    var a, b := FromOrdinal(d), FromOrdinal(r);
    && 12 * b.year + b.month == 12 * a.year + a.month + n * k
    && b.day == Min(a.day, ShortestMonth(12 * a.year + a.month - 1, k, n))
  }

  lemma MonthPoints(first: Day, f: Frequency, n: nat, k: nat)
    requires !f.Daily? && !IsWeekdayFrequency(f) && k == MonthSteps(f, 3)
    ensures OnSchedule(Point(StepBy(f), first, n), first, k, n)
  {
    MonthScheduleClosedForm(FromOrdinal(first), f, n);
  }

  lemma DayPoints(first: Day, f: Frequency, n: nat, k: nat)
    requires (f.Daily? || IsWeekdayFrequency(f)) && k == DaySteps(f)
    ensures Point(StepBy(f), first, n) == first + k * n
  {
    PointSpacing(StepBy(f), first, k, k, 0, n);
  }

  /** Point n of a contract's schedule. */
  lemma PointInPlainTerms(first: Day, f: Frequency, n: nat)
    ensures var r := Point(StepBy(f), first, n);
            match f
            case Daily => r == first + n
            case Weekly => r == first + 7 * n
            case Fortnightly => r == first + 14 * n
            case Monthly => OnSchedule(r, first, 1, n)
            case HalfYearly => OnSchedule(r, first, 6, n)
            case Yearly => OnSchedule(r, first, 12, n)
            case _ => OnSchedule(r, first, 3, n)
  {
    match f
    case Daily => DayPoints(first, f, n, 1);
    case Weekly => DayPoints(first, f, n, 7);
    case Fortnightly => DayPoints(first, f, n, 14);
    case Monthly => MonthPoints(first, f, n, 1);
    case HalfYearly => MonthPoints(first, f, n, 6);
    case Yearly => MonthPoints(first, f, n, 12);
    case _ => MonthPoints(first, f, n, 3);
  }

  /** So many months on, on the first of the days if there are any, else on the same day as far as the month has it. */
  predicate IsMonthsLater(r: Day, d: Day, months: nat, days: seq<int>) {
    var a, b := FromOrdinal(d), FromOrdinal(r);
    && 12 * b.year + b.month == 12 * a.year + a.month + months
    && b.day == if days != [] then days[0] else Min(a.day, DaysInMonth(b.year, b.month))
  }

  lemma MonthOccurrenceIsLater(after: Day, f: Frequency, raw: seq<RawDay>)
    requires !IsWeekdayFrequency(f)
    ensures IsMonthsLater(NextOccurrence(after, f, raw), after, MonthSteps(f, 1), NormalizedDays(raw, f))
  {
    NextMonthOccurrence(after, f, raw);
    var r := FromOrdinal(NextOccurrence(after, f, raw));
    MonthLengthOf(r.year, r.month);
  }

  /** The next occurrence of a template: how many days or months on. */
  lemma NextOccurrenceInPlainTerms(after: Day, f: Frequency, raw: seq<RawDay>)
    ensures var r, days := NextOccurrence(after, f, raw), NormalizedDays(raw, f);
            match f
            case Weekly => days == [] ==> r == after + 7
            case Fortnightly => days == [] ==> r == after + 14
            case Quarterly => IsMonthsLater(r, after, 3, days)
            case HalfYearly => IsMonthsLater(r, after, 6, days)
            case Yearly => IsMonthsLater(r, after, 12, days)
            case _ => IsMonthsLater(r, after, 1, days)
  {
    if !IsWeekdayFrequency(f) {
      MonthOccurrenceIsLater(after, f, raw);
    }
  }
}
