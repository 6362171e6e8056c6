/**
 When each element of a day is reached and what the day takes and costs (ScheduleDay
 in backend/internal/domain/plan.go). Times are minutes from the midnight the day
 starts on.
 */
module Schedule {
  import opened Common
  import opened Document
  import opened LegFold

  datatype ItemSchedule = ItemSchedule(arrival: int, departure: int, late: bool)

  datatype ModeTotal = ModeTotal(distanceM: int, durationS: int)

  datatype DaySummary = DaySummary(visitMinutes: int, travelMinutes: int, distanceM: int,
                                   byMode: map<TravelMode, ModeTotal>, unknownTravel: bool, endMinutes: int,
                                   plannedCost: Money, actualCost: Money)

  /** A day as the schedule is given it: its elements and the legs read for them. */
  datatype DayPlan = DayPlan(start: int, items: seq<Item>, opening: Option<Leg>, legs: seq<Option<Leg>>,
                             travelers: int, tracks: seq<Track>)
  {
    /** The leg travelled to reach the i-th element. */
    function LegTo(i: nat): Option<Leg> {
      if i == 0 then opening else if i - 1 < |legs| then legs[i - 1] else None
    }

    /** The whole minutes of travel to the i-th element. */
    function TravelTo(i: nat): int {
      if LegTo(i).Some? && LegTo(i).value.Duration().Some? then Minutes(LegTo(i).value.Duration().value) else 0
    }

    function VisitAt(i: nat): int
      requires i < |items|
    {
      if items[i].kind.IsVisit() then items[i].visitMinutes else 0
    }

    /** Not before this moment, when the element is wanted at one. */
    function Desired(i: nat): Option<int>
      requires i < |items|
    {
      if items[i].kind.IsVisit() then items[i].desiredTime else None
    }

    /** When the first n elements are done with. */
    function Cursor(n: nat): int
      requires n <= |items|
      decreases n, 0
    {
      if n == 0 then start else Arrival(n - 1) + VisitAt(n - 1)
    }

    function Arrival(i: nat): int
      requires i < |items|
      decreases i, 1
    {
      var reached := Cursor(i) + TravelTo(i);
      match Desired(i)
      case None => reached
      case Some(desired) => Max(reached, desired)
    }

    function Scheduled(i: nat): ItemSchedule
      requires i < |items|
    {
      ItemSchedule(Arrival(i), Cursor(i + 1), Desired(i).Some? && Cursor(i) + TravelTo(i) > Desired(i).value)
    }

    // The totals of the first n elements.

    function TravelMinutes(n: nat): int {
      if n == 0 then 0 else TravelMinutes(n - 1) + TravelTo(n - 1)
    }

    function VisitMinutes(n: nat): int
      requires n <= |items|
    {
      if n == 0 then 0 else VisitMinutes(n - 1) + VisitAt(n - 1)
    }

    predicate UnknownTravel(n: nat) {
      exists i :: 0 <= i < n && LegTo(i).Some? && LegTo(i).value.Duration() == None
    }

    /** The tracks of the first n elements that are visits. */
    function TrackDistance(n: nat): int
      requires n <= |items|
    {
      if n == 0 then 0 else TrackDistance(n - 1) + TrackOf(n - 1)
    }

    /** The length of an element's recording. */
    function TrackOf(i: nat): int
      requires i < |items|
    {
      if items[i].kind.IsVisit() && TrackOfItem(tracks, items[i].id).Some?
      then TrackOfItem(tracks, items[i].id).value.distanceM else 0
    }

    function LegDistance(n: nat): int {
      if n == 0 then 0
      else LegDistance(n - 1) + if LegTo(n - 1).Some? then LegTo(n - 1).value.Distance().GetOr(0) else 0
    }

    function ByMode(n: nat): map<TravelMode, ModeTotal> {
      if n == 0 then map[]
      else if LegTo(n - 1).Some? then AddParts(ByMode(n - 1), Travel(LegTo(n - 1).value)) else ByMode(n - 1)
    }

    function ItemCost(i: nat, actual: bool): Money
      requires i < |items|
    {
      if items[i].kind.IsVisit()
      then CostTotal(items[i].cost, actual, travelers) + StopsCost(StopsOf(tracks, items[i].id), actual, travelers)
      else 0
    }

    function LegCost(i: nat, actual: bool): Money {
      if LegTo(i) == None then 0
      else if actual then LegTo(i).value.actualCost.GetOr(0) else LegTo(i).value.plannedCost.GetOr(0)
    }

    /** What the first n elements and the legs to them cost. */
    function CostOf(n: nat, actual: bool): Money
      requires n <= |items|
    {
      if n == 0 then 0 else CostOf(n - 1, actual) + LegCost(n - 1, actual) + ItemCost(n - 1, actual)
    }

    function Summary(n: nat): DaySummary
      requires n <= |items|
    {
      DaySummary(VisitMinutes(n), TravelMinutes(n), LegDistance(n) + TrackDistance(n), ByMode(n), UnknownTravel(n),
                 Cursor(n), CostOf(n, false), CostOf(n, true))
    }
  }

  function CostTotal(cost: Cost, actual: bool, travelers: int): Money {
    if actual then cost.ActualTotal(travelers) else cost.PlannedTotal(travelers)
  }

  function StopsCost(stops: seq<Stop>, actual: bool, travelers: int): Money {
    if stops == [] then 0
    else StopsCost(stops[..|stops| - 1], actual, travelers) + CostTotal(stops[|stops| - 1].cost, actual, travelers)
  }

  /** Seconds rounded to the nearest minute. */
  function Minutes(seconds: int): int {
    Quotient(seconds + 30, 60)
  }

  function AddPart(byMode: map<TravelMode, ModeTotal>, part: PartTravel): map<TravelMode, ModeTotal> {
    var total := if part.mode in byMode then byMode[part.mode] else ModeTotal(0, 0);
    byMode[part.mode := ModeTotal(total.distanceM + part.distanceM.GetOr(0), total.durationS + part.durationS.GetOr(0))]
  }

  function AddParts(byMode: map<TravelMode, ModeTotal>, parts: seq<PartTravel>): map<TravelMode, ModeTotal> {
    if parts == [] then byMode
    else AddPart(AddParts(byMode, parts[..|parts| - 1]), parts[|parts| - 1])
  }

  /** Counts each part of a leg under its own mode. */
  method CountParts(byMode: map<TravelMode, ModeTotal>, parts: seq<PartTravel>)
    returns (counted: map<TravelMode, ModeTotal>)
    ensures counted == AddParts(byMode, parts)
  {
    counted := byMode;
    for index := 0 to |parts|
      invariant counted == AddParts(byMode, parts[..index])
    {
      assert parts[..index + 1][..index] == parts[..index];
      var part := parts[index];
      var total := if part.mode in counted then counted[part.mode] else ModeTotal(0, 0);
      if part.distanceM.Some? {
        total := total.(distanceM := total.distanceM + part.distanceM.value);
      }
      if part.durationS.Some? {
        total := total.(durationS := total.durationS + part.durationS.value);
      }
      counted := counted[part.mode := total];
    }
    assert parts[..|parts|] == parts;
  }

  method AddStops(stops: seq<Stop>, travelers: int) returns (planned: Money, actual: Money)
    ensures planned == StopsCost(stops, false, travelers) && actual == StopsCost(stops, true, travelers)
  {
    planned, actual := 0, 0;
    for index := 0 to |stops|
      invariant planned == StopsCost(stops[..index], false, travelers)
      invariant actual == StopsCost(stops[..index], true, travelers)
    {
      assert stops[..index + 1][..index] == stops[..index];
      planned := planned + stops[index].cost.PlannedTotal(travelers);
      actual := actual + stops[index].cost.ActualTotal(travelers);
    }
    assert stops[..|stops|] == stops;
  }

  /** Travels the leg to an element: moves the cursor and counts the leg. */
  method TravelLeg(plan: DayPlan, index: nat, cursor: int, summary: DaySummary)
    returns (cursor': int, summary': DaySummary)
    requires index < |plan.items|
    requires cursor == plan.Cursor(index)
    requires summary == plan.Summary(index).(endMinutes := summary.endMinutes)
    ensures cursor' == plan.Cursor(index) + plan.TravelTo(index)
    ensures summary' == plan.Summary(index).(
              travelMinutes := plan.TravelMinutes(index + 1),
              distanceM := plan.LegDistance(index + 1) + plan.TrackDistance(index),
              byMode := plan.ByMode(index + 1), unknownTravel := plan.UnknownTravel(index + 1),
              plannedCost := plan.CostOf(index, false) + plan.LegCost(index, false),
              actualCost := plan.CostOf(index, true) + plan.LegCost(index, true), endMinutes := summary.endMinutes)
  {
    hide AddParts;
    hide DayPlan.Cursor;
    hide DayPlan.CostOf;
    hide DayPlan.VisitMinutes;
    hide DayPlan.TrackDistance;
    cursor', summary' := cursor, summary;
    var leg: Option<Leg> := None;
    if index == 0 {
      leg := plan.opening;
    } else if index - 1 < |plan.legs| {
      leg := plan.legs[index - 1];
    }
    if leg.Some? {
      var distance := leg.value.Distance();
      if distance.Some? {
        summary' := summary'.(distanceM := summary'.distanceM + distance.value);
      }
      var duration := leg.value.Duration();
      if duration.Some? {
        var minutes := Quotient(duration.value + 30, 60);
        cursor' := cursor' + minutes;
        summary' := summary'.(travelMinutes := summary'.travelMinutes + minutes);
      } else {
        summary' := summary'.(unknownTravel := true);
      }
      var byMode := CountParts(summary'.byMode, Travel(leg.value));
      summary' := summary'.(byMode := byMode);
      if leg.value.plannedCost.Some? {
        summary' := summary'.(plannedCost := summary'.plannedCost + leg.value.plannedCost.value);
      }
      if leg.value.actualCost.Some? {
        summary' := summary'.(actualCost := summary'.actualCost + leg.value.actualCost.value);
      }
    }
  }

  /** Visits an element: waits for the time it is wanted at, and counts what it costs. */
  method VisitItem(plan: DayPlan, index: nat, cursor: int, summary: DaySummary)
    returns (schedule: ItemSchedule, cursor': int, summary': DaySummary)
    requires index < |plan.items|
    requires cursor == plan.Cursor(index) + plan.TravelTo(index)
    ensures schedule == plan.Scheduled(index) && cursor' == plan.Cursor(index + 1)
    ensures summary' == summary.(
              visitMinutes := summary.visitMinutes + plan.VisitAt(index),
              distanceM := summary.distanceM + plan.TrackOf(index),
              plannedCost := summary.plannedCost + plan.ItemCost(index, false),
              actualCost := summary.actualCost + plan.ItemCost(index, true))
  {
    cursor', summary' := cursor, summary;
    var item := plan.items[index];
    schedule := ItemSchedule(cursor', 0, false);
    if item.kind.IsVisit() {
      if item.desiredTime.Some? {
        var desired := item.desiredTime.value;
        schedule := schedule.(late := cursor' > desired, arrival := Max(cursor', desired));
      }
      cursor' := schedule.arrival + item.visitMinutes;
      summary' := summary'.(visitMinutes := summary'.visitMinutes + item.visitMinutes,
                            plannedCost := summary'.plannedCost + item.cost.PlannedTotal(plan.travelers),
                            actualCost := summary'.actualCost + item.cost.ActualTotal(plan.travelers));
      var track := TrackOfItem(plan.tracks, item.id);
      if track.Some? {
        var planned, actual := AddStops(track.value.stops, plan.travelers);
        summary' := summary'.(distanceM := summary'.distanceM + track.value.distanceM,
                              plannedCost := summary'.plannedCost + planned,
                              actualCost := summary'.actualCost + actual);
      }
    }
    schedule := schedule.(departure := cursor');
  }

  method ScheduleDay(plan: DayPlan) returns (schedules: seq<ItemSchedule>, summary: DaySummary)
    ensures |schedules| == |plan.items|
    ensures forall i :: 0 <= i < |plan.items| ==> schedules[i] == plan.Scheduled(i)
    ensures summary == plan.Summary(|plan.items|)
  {
    hide DayPlan.Scheduled;
    hide DayPlan.ItemCost;
    hide DayPlan.LegCost;
    schedules := [];
    summary := DaySummary(0, 0, 0, map[], false, 0, 0, 0);
    var cursor := plan.start;
    for index := 0 to |plan.items|
      invariant |schedules| == index
      invariant forall i :: 0 <= i < index ==> schedules[i] == plan.Scheduled(i)
      invariant cursor == plan.Cursor(index)
      invariant summary == plan.Summary(index).(endMinutes := summary.endMinutes)
    {
      cursor, summary := TravelLeg(plan, index, cursor, summary);
      var schedule: ItemSchedule;
      schedule, cursor, summary := VisitItem(plan, index, cursor, summary);
      schedules := schedules + [schedule];
    }
    summary := summary.(endMinutes := cursor);
  }

  // ------------------------------------------------------------- what a schedule promises

  /** A place or an activity takes its time, a stay mark takes none. */
  function TimeAt(item: Item): int {
    if item.kind == StayAnchor then 0 else item.visitMinutes
  }

  /** A place or an activity may be wanted at a time, a stay mark is not. */
  function WantedAt(item: Item): Option<int> {
    if item.kind == StayAnchor then None else item.desiredTime
  }

  /** A timetable somebody could keep: nothing before the day starts, every journey and
      visit given its time, and no place reached before it is wanted. */
  ghost predicate Feasible(plan: DayPlan, arrive: seq<int>, leave: seq<int>) {
    && |arrive| == |leave| == |plan.items|
    && (forall i :: 0 <= i < |arrive| ==>
          arrive[i] >= (if i == 0 then plan.start else leave[i - 1]) + plan.TravelTo(i))
    && (forall i :: 0 <= i < |arrive| ==> leave[i] >= arrive[i] + TimeAt(plan.items[i]))
    && (forall i :: 0 <= i < |arrive| && WantedAt(plan.items[i]).Some? ==> arrive[i] >= WantedAt(plan.items[i]).value)
  }

  ghost function Arrivals(plan: DayPlan): seq<int> {
    seq(|plan.items|, i requires 0 <= i < |plan.items| => plan.Scheduled(i).arrival)
  }

  ghost function Departures(plan: DayPlan): seq<int> {
    seq(|plan.items|, i requires 0 <= i < |plan.items| => plan.Scheduled(i).departure)
  }

  /** The schedule itself can be kept. */
  lemma ScheduleFeasible(plan: DayPlan)
    ensures Feasible(plan, Arrivals(plan), Departures(plan))
  {
    hide DayPlan.TravelTo;
    var arrive, leave := Arrivals(plan), Departures(plan);
    forall i | 0 <= i < |arrive|
      ensures arrive[i] >= (if i == 0 then plan.start else leave[i - 1]) + plan.TravelTo(i)
      ensures leave[i] >= arrive[i] + TimeAt(plan.items[i])
      ensures WantedAt(plan.items[i]).Some? ==> arrive[i] >= WantedAt(plan.items[i]).value
    {
      assert arrive[i] == plan.Arrival(i) && leave[i] == plan.Cursor(i + 1);
      assert i > 0 ==> leave[i - 1] == plan.Cursor(i);
    }
  }

  /** No timetable that can be kept reaches or leaves any element earlier. */
  lemma {:induction false} EarliestTimetable(plan: DayPlan, arrive: seq<int>, leave: seq<int>, i: nat)
    requires Feasible(plan, arrive, leave) && i < |plan.items|
    ensures plan.Scheduled(i).arrival <= arrive[i] && plan.Scheduled(i).departure <= leave[i]
  {
    hide DayPlan.TravelTo;
    if i > 0 {
      EarliestTimetable(plan, arrive, leave, i - 1);
    }
  }

  /** A place is late exactly when no timetable anybody could keep reaches it by the
      time it is wanted. */
  lemma LateIsUnavoidable(plan: DayPlan, i: nat)
    requires i < |plan.items| && WantedAt(plan.items[i]).Some?
    ensures plan.Scheduled(i).late <==>
            forall arrive, leave :: Feasible(plan, arrive, leave) ==> arrive[i] > WantedAt(plan.items[i]).value
  {
    hide DayPlan.Cursor;
    ScheduleFeasible(plan);
    assert Arrivals(plan)[i] == plan.Arrival(i);
    assert plan.Scheduled(i).late <==> plan.Arrival(i) > plan.Desired(i).value;
    forall arrive, leave | Feasible(plan, arrive, leave) ensures arrive[i] >= plan.Arrival(i) {
      EarliestTimetable(plan, arrive, leave, i);
    }
  }

  /** Starting later by some minutes delays no arrival by more, and none gets earlier. */
  lemma {:induction false} StartingLater(plan: DayPlan, delay: nat, i: nat)
    requires i < |plan.items|
    ensures var later := plan.(start := plan.start + delay);
            && plan.Scheduled(i).arrival <= later.Scheduled(i).arrival <= plan.Scheduled(i).arrival + delay
            && plan.Scheduled(i).departure <= later.Scheduled(i).departure <= plan.Scheduled(i).departure + delay
  {
    var later := plan.(start := plan.start + delay);
    assert later.TravelTo(i) == plan.TravelTo(i);
    if i > 0 {
      StartingLater(plan, delay, i - 1);
    }
  }

  /** When the journey to the i-th element sets out. */
  function SetsOut(plan: DayPlan, i: nat): int
    requires i < |plan.items|
  {
    if i == 0 then plan.start else plan.Scheduled(i - 1).departure
  }

  /** The minutes spent before the first n elements waiting for the time they are wanted at. */
  function WaitMinutes(plan: DayPlan, n: nat): int
    requires n <= |plan.items|
  {
    if n == 0 then 0
    else WaitMinutes(plan, n - 1) + plan.Scheduled(n - 1).arrival - (SetsOut(plan, n - 1) + plan.TravelTo(n - 1))
  }

  /** A day lasts its travel, its visits and its waiting, and nothing else. */
  lemma {:induction false} DayLength(plan: DayPlan, n: nat)
    requires n <= |plan.items|
    ensures plan.Summary(n).endMinutes == if n == 0 then plan.start else plan.Scheduled(n - 1).departure
    ensures plan.Summary(n).endMinutes - plan.start
         == plan.Summary(n).travelMinutes + plan.Summary(n).visitMinutes + WaitMinutes(plan, n)
    ensures WaitMinutes(plan, n) >= 0
  {
    if n > 0 {
      DayLength(plan, n - 1);
    }
  }

  /** Nobody knows how long the leg takes. */
  predicate Untimed(leg: Leg) {
    leg.manualDurationS == None && leg.durationS == None
  }

  /** What a leg takes: the time typed in, or else the time calculated. */
  function Seconds(leg: Leg): int {
    leg.manualDurationS.GetOr(leg.durationS.GetOr(0))
  }

  function TravelSeconds(plan: DayPlan, n: nat): int {
    if n == 0 then 0
    else TravelSeconds(plan, n - 1) + if plan.LegTo(n - 1).Some? then Seconds(plan.LegTo(n - 1).value) else 0
  }

  function TimedLegs(plan: DayPlan, n: nat): nat {
    if n == 0 then 0
    else TimedLegs(plan, n - 1) + if plan.LegTo(n - 1).Some? && !Untimed(plan.LegTo(n - 1).value) then 1 else 0
  }

  /** Rounding each leg to whole minutes drifts by at most half a minute a leg. */
  lemma {:induction false} RoundingDrift(plan: DayPlan, n: nat)
    requires n <= |plan.items|
    requires forall i :: 0 <= i < n && plan.LegTo(i).Some? ==> Seconds(plan.LegTo(i).value) >= 0
    ensures -30 * TimedLegs(plan, n) <= 60 * plan.Summary(n).travelMinutes - TravelSeconds(plan, n)
            <= 30 * TimedLegs(plan, n)
  {
    if n > 0 {
      RoundingDrift(plan, n - 1);
    }
  }

  /** The day's travel is marked as not fully known exactly when the leg into the day or one
      between its elements is there but has no time. */
  lemma UnknownTravelIs(plan: DayPlan)
    ensures plan.Summary(|plan.items|).unknownTravel <==>
              || (plan.items != [] && plan.opening.Some? && Untimed(plan.opening.value))
              || exists i :: 0 <= i < |plan.legs| && i + 1 < |plan.items| && plan.legs[i].Some?
                             && Untimed(plan.legs[i].value)
  {
    if i :| 0 <= i < |plan.items| && plan.LegTo(i).Some? && Untimed(plan.LegTo(i).value) {
      assert i > 0 ==> plan.LegTo(i) == plan.legs[i - 1];
    }
    if i :| 0 <= i < |plan.legs| && i + 1 < |plan.items| && plan.legs[i].Some? && Untimed(plan.legs[i].value) {
      assert plan.LegTo(i + 1) == plan.legs[i];
    }
    assert plan.LegTo(0) == plan.opening;
  }

  // ------------------------------------------------------------- distance by mode

  const MODES: seq<TravelMode> := [Walk, Car, Bike, Transit, Bus, Train, Tram, Ferry, Flight, CableCar, OtherMode]

  function ModeDistance(byMode: map<TravelMode, ModeTotal>, mode: TravelMode): int {
    if mode in byMode then byMode[mode].distanceM else 0
  }

  /** What the modes of a list cover together. */
  function ModesDistance(byMode: map<TravelMode, ModeTotal>, modes: seq<TravelMode>): int {
    if modes == [] then 0 else ModeDistance(byMode, modes[0]) + ModesDistance(byMode, modes[1..])
  }

  lemma {:induction false} AddPartDistance(byMode: map<TravelMode, ModeTotal>, part: PartTravel, modes: seq<TravelMode>)
    requires forall i, j :: 0 <= i < j < |modes| ==> modes[i] != modes[j]
    ensures ModesDistance(AddPart(byMode, part), modes)
         == ModesDistance(byMode, modes) + if part.mode in modes then part.distanceM.GetOr(0) else 0
  {
    if modes != [] {
      AddPartDistance(byMode, part, modes[1..]);
    }
  }

  lemma EveryMode(mode: TravelMode)
    ensures mode in MODES
  {
    assert MODES[0] == Walk && MODES[1] == Car && MODES[2] == Bike && MODES[3] == Transit && MODES[4] == Bus;
    assert MODES[5] == Train && MODES[6] == Tram && MODES[7] == Ferry && MODES[8] == Flight && MODES[9] == CableCar;
    assert MODES[10] == OtherMode;
  }

  lemma {:induction false} AddPartsDistance(byMode: map<TravelMode, ModeTotal>, parts: seq<PartTravel>)
    ensures ModesDistance(AddParts(byMode, parts), MODES) == ModesDistance(byMode, MODES) + Sum(TravelDistances(parts))
  {
    if parts != [] {
      var front, last := parts[..|parts| - 1], parts[|parts| - 1];
      AddPartsDistance(byMode, front);
      AddPartDistance(AddParts(byMode, front), last, MODES);
      EveryMode(last.mode);
      assert TravelDistances(parts) == TravelDistances(front) + [last.distanceM.GetOr(0)];
      SumAppend(TravelDistances(front), [last.distanceM.GetOr(0)]);
    }
  }

  lemma {:induction false} NoDistance(modes: seq<TravelMode>)
    ensures ModesDistance(map[], modes) == 0
  {
    if modes != [] {
      NoDistance(modes[1..]);
    }
  }

  ghost predicate ReadLegs(plan: DayPlan, n: nat) {
    forall i :: 0 <= i < n && plan.LegTo(i).Some? ==> AsRead(plan.LegTo(i).value)
  }

  /** A day's distance is what its modes cover and what its recordings add: for legs as
      they are read, no metre is counted twice or lost between the two totals. */
  lemma {:induction false} DistanceIsByMode(plan: DayPlan, n: nat)
    requires n <= |plan.items| && ReadLegs(plan, n)
    ensures plan.LegDistance(n) == ModesDistance(plan.ByMode(n), MODES)
    ensures plan.Summary(n).distanceM == ModesDistance(plan.Summary(n).byMode, MODES) + plan.TrackDistance(n)
  {
    hide ModesDistance;
    hide AddParts;
    hide AsRead;
    if n > 0 {
      assert ReadLegs(plan, n - 1);
      DistanceIsByMode(plan, n - 1);
      if plan.LegTo(n - 1).Some? {
        ReadDistanceByPart(plan.LegTo(n - 1).value);
        AddPartsDistance(plan.ByMode(n - 1), Travel(plan.LegTo(n - 1).value));
      }
    } else {
      NoDistance(MODES);
    }
  }
}
