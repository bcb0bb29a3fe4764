/**
Maintenance contracts and the visits their terms call for: `_iter_visit_dates` with its
bounds, and the part of it that is due on a day.
*/
module Contracts {
  import opened Calendar
  import opened Recurrence
  import opened Schedule
  import opened Wrappers

  const DEFAULT_LEAD_DAYS: nat := 5
  const MAX_VISITS: nat := 1000
  const HORIZON_DAYS: nat := 366 * 5

  datatype ContractStatus = Draft | Active | Expired | Terminated | Paused

  /** A stored contract; `active` is false once it is soft-deleted. */
  datatype Contract = Contract(
    tenant: string,
    status: ContractStatus,
    active: bool,
    start: Option<Day>,
    end: Option<Day>,
    frequency: Option<Frequency>,
    lastServiced: Option<Day>,
    leadDays: Option<int>,
    assets: seq<string>,
    nextVisit: Option<Day>)

  function FrequencyOf(c: Contract): Frequency {
    c.frequency.GetOr(Quarterly)
  }

  function StepOf(c: Contract): (step: Day -> Day)
    ensures forall d: Day :: d + MinStep(FrequencyOf(c)) <= step(d) <= d + MaxStep(FrequencyOf(c))
    ensures Advances(step)
  {
    StepBy(FrequencyOf(c))
  }

  /** `_lead_days`. */
  function LeadDays(c: Contract): nat {
    match c.leadDays
    case None => DEFAULT_LEAD_DAYS
    case Some(n) => if n < 0 then 0 else n
  }

  /** Where the schedule starts: the start date, or one step past the last service. */
  function FirstVisit(c: Contract): Option<Day> {
    match c.start
    case None => None
    case Some(start) =>
      match c.lastServiced
      case None => Some(start)
      case Some(last) => Some(StepOf(c)(if last > start then last else start))
  }

  /** `_iter_visit_dates`. */
  function VisitDates(c: Contract, today: Day): seq<Day> {
    match FirstVisit(c)
    case None => []
    case Some(first) => Enumerate(StepOf(c), first, c.end, today + HORIZON_DAYS, MAX_VISITS)
  }

  method IterVisitDates(c: Contract, today: Day) returns (visits: seq<Day>)
    ensures visits == VisitDates(c, today)
  {
    if c.start.None? {
      return [];
    }
    var frequency := c.frequency.GetOr(Quarterly);
    var visit := c.start.value;
    if c.lastServiced.Some? {
      var anchor := if c.lastServiced.value > visit then c.lastServiced.value else visit;
      visit := Step(anchor, frequency);
    }
    visits := EnumerateVisits(StepBy(frequency), visit, c.end, today + HORIZON_DAYS, MAX_VISITS);
  }

  /** The visits a pass on `today` looks at: those up to the end of the lead window. */
  function DueVisits(c: Contract, today: Day): seq<Day> {
    UpTo(VisitDates(c, today), today + LeadDays(c))
  }

  /** The n-th point of the contract's unbounded schedule. */
  function SchedulePoint(c: Contract, n: nat): Day
    requires FirstVisit(c).Some?
  {
    Point(StepOf(c), FirstVisit(c).value, n)
  }

  lemma VisitDatesIncrease(c: Contract, today: Day)
    ensures Increasing(VisitDates(c, today))
  {
    match FirstVisit(c)
    case None =>
    case Some(first) => EnumerateIncreasing(StepOf(c), first, c.end, today + HORIZON_DAYS, MAX_VISITS);
  }

  lemma DueVisitsIncrease(c: Contract, today: Day)
    ensures Increasing(DueVisits(c, today))
  {
    var visits, limit := VisitDates(c, today), today + LeadDays(c);
    VisitDatesIncrease(c, today);
    UpToMember(visits, limit, today);
  }

  /** Exactly which days are due: the first 1000 schedule points within every bound. */
  lemma DueExactly(c: Contract, today: Day, d: Day)
    requires FirstVisit(c).Some?
    ensures d in DueVisits(c, today) <==>
            IsPoint(StepOf(c), FirstVisit(c).value, MAX_VISITS, d) && Within(d, c.end, today + HORIZON_DAYS) && d <= today + LeadDays(c)
  {
    VisitDatesIncrease(c, today);
    UpToMember(VisitDates(c, today), today + LeadDays(c), d);
    EnumerateMember(StepOf(c), FirstVisit(c).value, c.end, today + HORIZON_DAYS, MAX_VISITS, d);
  }

  /** What was due stays due. */
  lemma DueGrows(c: Contract, today: Day, later: Day)
    requires today <= later
    ensures forall d | d in DueVisits(c, today) :: d in DueVisits(c, later)
  {
    if FirstVisit(c).Some? {
      forall d | d in DueVisits(c, today)
        ensures d in DueVisits(c, later)
      {
        DueExactly(c, today, d);
        DueExactly(c, later, d);
      }
    }
  }

  // ----- Coverage under the cap -----

  /** Every point of the unbounded schedule up to min(end, today + lead) is enumerated. */
  ghost predicate Covered(c: Contract, today: Day)
    requires FirstVisit(c).Some?
  {
    forall n: nat | Within(SchedulePoint(c, n), c.end, today + LeadDays(c)) ::
      SchedulePoint(c, n) in DueVisits(c, today)
  }

  /** With a lead inside the horizon, coverage fails exactly when point 1000 would be due. */
  lemma CoverageExactly(c: Contract, today: Day)
    requires FirstVisit(c).Some? && LeadDays(c) <= HORIZON_DAYS
    ensures Covered(c, today) <==> !Within(SchedulePoint(c, MAX_VISITS), c.end, today + LeadDays(c))
  {
    var step, first := StepOf(c), FirstVisit(c).value;
    var cut := SchedulePoint(c, MAX_VISITS);
    DueExactly(c, today, cut);
    if IsPoint(step, first, MAX_VISITS, cut) {
      var n: nat :| n < MAX_VISITS && cut == Point(step, first, n);
      PointsIncrease(step, first, n, MAX_VISITS);
    }
    if !Within(cut, c.end, today + LeadDays(c)) {
      forall n: nat | Within(SchedulePoint(c, n), c.end, today + LeadDays(c))
        ensures SchedulePoint(c, n) in DueVisits(c, today)
      {
        if n > MAX_VISITS {
          PointsIncrease(step, first, MAX_VISITS, n);
        }
        DueExactly(c, today, SchedulePoint(c, n));
      }
    }
  }

  lemma PointIsStepsAway(c: Contract, n: nat)
    requires FirstVisit(c).Some?
    ensures FirstVisit(c).value + n * MinStep(FrequencyOf(c)) <= SchedulePoint(c, n)
  {
    var f := FrequencyOf(c);
    PointSpacing(StepOf(c), FirstVisit(c).value, MinStep(f), MaxStep(f), 0, n);
    assert MinStep(f) * (n - 0) == n * MinStep(f);
  }

  /** A bound a caller can check: 1000 of the shortest steps reach past the lead window. */
  lemma CoverageByShortestStep(c: Contract, today: Day)
    requires FirstVisit(c).Some? && LeadDays(c) <= HORIZON_DAYS
    requires FirstVisit(c).value + MAX_VISITS * MinStep(FrequencyOf(c)) > today + LeadDays(c)
    ensures Covered(c, today)
  {
    PointIsStepsAway(c, MAX_VISITS);
    CoverageExactly(c, today);
  }

  /** Once the last enumerated point is due, no later day adds a visit: the contract has stalled. */
  lemma CapStalls(c: Contract, today: Day, later: Day)
    requires FirstVisit(c).Some? && today <= later
    requires SchedulePoint(c, MAX_VISITS - 1) in DueVisits(c, today)
    ensures forall d :: d in DueVisits(c, later) <==> d in DueVisits(c, today)
    ensures SchedulePoint(c, MAX_VISITS - 1) <= today ==> FirstAfter(VisitDates(c, later), later).None?
  {
    var step, first, last := StepOf(c), FirstVisit(c).value, SchedulePoint(c, MAX_VISITS - 1);
    DueExactly(c, today, last);
    forall d: Day | IsPoint(step, first, MAX_VISITS, d)
      ensures d <= last
    {
      var n: nat :| n < MAX_VISITS && d == Point(step, first, n);
      if n < MAX_VISITS - 1 {
        PointsIncrease(step, first, n, MAX_VISITS - 1);
      }
    }
    forall d: Day
      ensures d in DueVisits(c, later) <==> d in DueVisits(c, today)
    {
      DueExactly(c, today, d);
      DueExactly(c, later, d);
    }
    match FirstAfter(VisitDates(c, later), later) {
      case None =>
      case Some(v) => EnumerateMember(step, first, c.end, later + HORIZON_DAYS, MAX_VISITS, v);
    }
  }

  /** Concretely: a daily contract gets no visit past its first 1000 days, however long it runs. */
  lemma DailyContractStalls(c: Contract, later: Day)
    requires FrequencyOf(c) == Daily && FirstVisit(c).Some? && c.end.None?
    ensures forall d | d in DueVisits(c, later) :: d <= FirstVisit(c).value + 999
    ensures FirstVisit(c).value + 999 < later ==> !Covered(c, later)
  {
    var step, first := StepOf(c), FirstVisit(c).value;
    forall n: nat
      ensures Point(step, first, n) == first + n
    {
      PointSpacing(step, first, 1, 1, 0, n);
    }
    forall d | d in DueVisits(c, later)
      ensures d <= first + 999
    {
      DueExactly(c, later, d);
    }
    if first + 999 < later {
      assert SchedulePoint(c, MAX_VISITS) == first + 1000;
      assert Within(SchedulePoint(c, MAX_VISITS), c.end, later + LeadDays(c));
    }
  }

  /** The next visit date that a pass records: the least enumerated visit after today. */
  lemma NextVisitIsLeast(c: Contract, today: Day)
    ensures match FirstAfter(VisitDates(c, today), today)
            case None => forall d | d in VisitDates(c, today) :: d <= today
            case Some(v) => v in VisitDates(c, today) && today < v
                            && forall d | d in VisitDates(c, today) && today < d :: v <= d
  {
    VisitDatesIncrease(c, today);
    if FirstAfter(VisitDates(c, today), today).Some? {
      FirstAfterIsLeast(VisitDates(c, today), today);
    }
  }

  lemma {:induction false} AtMost(step: Day -> Day, visit: Day, end: Option<Day>, horizon: int, fuel: nat)
    ensures |Enumerate(step, visit, end, horizon, fuel)| <= fuel
    decreases fuel
  {
    if fuel > 0 {
      AtMost(step, step(visit), end, horizon, fuel - 1);
    }
  }

  /** Every visit lies on or after the start, after the last service, by the end and within 1830 days; there are at
      most 1000; and a contract that was never serviced has its first visit on the start date itself. */
  lemma VisitsRespectTerms(c: Contract, today: Day)
    ensures |VisitDates(c, today)| <= 1000
    ensures forall v | v in VisitDates(c, today) ::
              && c.start.Some? && c.start.value <= v <= today + 1830
              && (c.lastServiced.Some? ==> c.lastServiced.value < v)
              && (c.end.Some? ==> v <= c.end.value)
    ensures c.start.Some? && c.lastServiced.None? && Within(c.start.value, c.end, today + 1830) ==>
              VisitDates(c, today) != [] && VisitDates(c, today)[0] == c.start.value
  {
    if FirstVisit(c).Some? {
      var step, first := StepOf(c), FirstVisit(c).value;
      AtMost(step, first, c.end, today + HORIZON_DAYS, MAX_VISITS);
      EnumerateIncreasing(step, first, c.end, today + HORIZON_DAYS, MAX_VISITS);
      forall v | v in VisitDates(c, today)
        ensures Within(v, c.end, today + HORIZON_DAYS)
      {
        EnumerateMember(step, first, c.end, today + HORIZON_DAYS, MAX_VISITS, v);
      }
    }
  }

  /** No date is computed more than one step past the horizon. */
  lemma VisitsStayNearToday(c: Contract, today: Day)
    ensures forall v | v in VisitDates(c, today) :: StepOf(c)(v) <= today + HORIZON_DAYS + 372
  {
    if FirstVisit(c).Some? {
      forall v | v in VisitDates(c, today)
        ensures v <= today + HORIZON_DAYS
      {
        EnumerateMember(StepOf(c), FirstVisit(c).value, c.end, today + HORIZON_DAYS, MAX_VISITS, v);
      }
    }
  }

  // ----- In plain terms -----

  /** Visit n of a contract, counted from its first one, by the contract's frequency; a missing one counts as quarterly. */
  lemma VisitInPlainTerms(c: Contract, n: nat)
    requires FirstVisit(c).Some?
    ensures var first, visit := FirstVisit(c).value, SchedulePoint(c, n);
            match c.frequency
            case Some(Daily) => visit == first + n
            case Some(Weekly) => visit == first + 7 * n
            case Some(Fortnightly) => visit == first + 14 * n
            case Some(Monthly) => OnSchedule(visit, first, 1, n)
            case Some(HalfYearly) => OnSchedule(visit, first, 6, n)
            case Some(Yearly) => OnSchedule(visit, first, 12, n)
            case _ => OnSchedule(visit, first, 3, n)
  {
    PointInPlainTerms(FirstVisit(c).value, FrequencyOf(c), n);
  }

  /** The first visit: on the start date, or one step past the later of start and last service. */
  lemma FirstVisitInPlainTerms(c: Contract)
    ensures c.start.None? ==> FirstVisit(c).None?
    ensures c.start.Some? && c.lastServiced.None? ==> FirstVisit(c) == c.start
    ensures c.start.Some? && c.lastServiced.Some? ==>
              FirstVisit(c).Some? &&
              var base: Day := if c.lastServiced.value > c.start.value then c.lastServiced.value else c.start.value;
              var visit := FirstVisit(c).value;
              match c.frequency
              case Some(Daily) => visit == base + 1
              case Some(Weekly) => visit == base + 7
              case Some(Fortnightly) => visit == base + 14
              case Some(Monthly) => MonthsOn(visit, base, 1)
              case Some(HalfYearly) => MonthsOn(visit, base, 6)
              case Some(Yearly) => MonthsOn(visit, base, 12)
              case _ => MonthsOn(visit, base, 3)
  {
    if c.start.Some? && c.lastServiced.Some? {
      var base: Day := if c.lastServiced.value > c.start.value then c.lastServiced.value else c.start.value;
      StepInPlainTerms(base, FrequencyOf(c));
    }
  }

  ghost predicate IsVisit(c: Contract, d: Day)
    requires FirstVisit(c).Some?
  {
    exists n: nat | n < 1000 :: d == SchedulePoint(c, n)
  }

  lemma VisitsArePoints(c: Contract, d: Day)
    requires FirstVisit(c).Some?
    ensures IsVisit(c, d) <==> IsPoint(StepOf(c), FirstVisit(c).value, MAX_VISITS, d)
  {
    if IsVisit(c, d) {
      var n: nat :| n < 1000 && d == SchedulePoint(c, n);
      assert d == Point(StepOf(c), FirstVisit(c).value, n);
    }
    if IsPoint(StepOf(c), FirstVisit(c).value, MAX_VISITS, d) {
      var n: nat :| n < MAX_VISITS && d == Point(StepOf(c), FirstVisit(c).value, n);
      assert d == SchedulePoint(c, n);
    }
  }

  /** The visits that a pass looks at: the first 1000, up to the end date and 1830 days from today. */
  lemma VisitDatesInPlainTerms(c: Contract, today: Day, d: Day)
    ensures c.start.None? ==> VisitDates(c, today) == []
    ensures FirstVisit(c).Some? <==> c.start.Some?
    ensures c.start.Some? ==>
              (d in VisitDates(c, today) <==> IsVisit(c, d) && (c.end.Some? ==> d <= c.end.value) && d <= today + 1830)
  {
    if c.start.Some? {
      VisitsArePoints(c, d);
      EnumerateMember(StepOf(c), FirstVisit(c).value, c.end, today + HORIZON_DAYS, MAX_VISITS, d);
    }
  }

  /** Those of them that are due: within the lead, five days when none is set, none for a negative one. */
  lemma DueInPlainTerms(c: Contract, today: Day, d: Day)
    ensures d in DueVisits(c, today) <==>
              && d in VisitDates(c, today)
              && d <= today + match c.leadDays case None => 5 case Some(n) => if n < 0 then 0 else n
  {
    VisitDatesIncrease(c, today);
    UpToMember(VisitDates(c, today), today + LeadDays(c), d);
  }
}
