/**
 The figures above a report (BuildReportTotals in backend/internal/domain/report.go):
 the same document as the budget's and the schedules', totalled a second way.
 */
module Report {
  import opened Common
  import opened Document
  import opened LegFold
  import opened LegSync
  import opened LegReaders
  import opened Budget
  import opened BudgetTotals
  import Schedule

  datatype ReportTotals = ReportTotals(distanceM: int, byMode: map<TravelMode, Schedule.ModeTotal>,
                                       plannedCost: Money, actualCost: Money, difference: Money)

  /** What a place on a day costs, with the stops along its line. */
  function PlaceCosts(tracks: seq<Track>, travelers: int, spent: bool): Item -> Money {
    (item: Item) =>
      if item.kind.IsVisit() && item.dayId.Some? then ElementCost(item, tracks, travelers, spent) else 0
  }

  /** Whether the element of an identifier is on a day. */
  function OnDay(items: seq<Item>, id: Id): bool {
    if items == [] then false
    else if items[|items| - 1].id == id then items[|items| - 1].dayId.Some?
    else OnDay(items[..|items| - 1], id)
  }

  function TrackLengths(items: seq<Item>): Track -> int {
    (track: Track) => if OnDay(items, track.itemId) then track.distanceM else 0
  }

  function LegLengths(leg: Leg): int {
    leg.Distance().GetOr(0)
  }

  function LegModes(legs: seq<Leg>): map<TravelMode, Schedule.ModeTotal> {
    if legs == [] then map[]
    else Schedule.AddParts(LegModes(legs[..|legs| - 1]), Travel(legs[|legs| - 1]))
  }

  /** Everything a report planned, or everything it spent. */
  function Cost(c: Content, travelers: int, spent: bool): Money {
    SumBy(c.items, PlaceCosts(c.tracks, travelers, spent)) + SumBy(c.legs, LegCosts(spent))
    + SumBy(c.stays, StayCosts(spent)) + SumBy(c.transfers, TransferCosts(travelers, spent))
    + SumBy(c.expenses, ExpenseCosts(spent))
  }

  method CountPlaces(c: Content, travelers: int) returns (planned: Money, actual: Money)
    ensures planned == SumBy(c.items, PlaceCosts(c.tracks, travelers, false))
    ensures actual == SumBy(c.items, PlaceCosts(c.tracks, travelers, true))
  {
    planned, actual := 0, 0;
    for index := 0 to |c.items|
      invariant planned == SumBy(c.items[..index], PlaceCosts(c.tracks, travelers, false))
      invariant actual == SumBy(c.items[..index], PlaceCosts(c.tracks, travelers, true))
    {
      assert c.items[..index + 1][..index] == c.items[..index];
      var item := c.items[index];
      if !item.kind.IsVisit() || item.dayId == None {
        continue;
      }
      planned := planned + item.cost.PlannedTotal(travelers);
      actual := actual + item.cost.ActualTotal(travelers);
      var ofStops, spentOnStops := Schedule.AddStops(StopsOf(c.tracks, item.id), travelers);
      planned, actual := planned + ofStops, actual + spentOnStops;
    }
    assert c.items[..|c.items|] == c.items;
  }

  method MeasureTracks(c: Content) returns (distanceM: int)
    ensures distanceM == SumBy(c.tracks, TrackLengths(c.items))
  {
    var scheduled: map<Id, bool> := map[];
    for index := 0 to |c.items|
      invariant forall id :: OnDay(c.items[..index], id) == (id in scheduled && scheduled[id])
    {
      assert c.items[..index + 1][..index] == c.items[..index];
      scheduled := scheduled[c.items[index].id := c.items[index].dayId.Some?];
    }
    assert c.items[..|c.items|] == c.items;
    distanceM := 0;
    for index := 0 to |c.tracks|
      invariant distanceM == SumBy(c.tracks[..index], TrackLengths(c.items))
    {
      assert c.tracks[..index + 1][..index] == c.tracks[..index];
      var track := c.tracks[index];
      if track.itemId in scheduled && scheduled[track.itemId] {
        distanceM := distanceM + track.distanceM;
      }
    }
    assert c.tracks[..|c.tracks|] == c.tracks;
  }

  method CountLegs(legs: seq<Leg>)
    returns (distanceM: int, byMode: map<TravelMode, Schedule.ModeTotal>, planned: Money, actual: Money)
    ensures distanceM == SumBy(legs, LegLengths) && byMode == LegModes(legs)
    ensures planned == SumBy(legs, LegCosts(false)) && actual == SumBy(legs, LegCosts(true))
  {
    distanceM, byMode, planned, actual := 0, map[], 0, 0;
    for index := 0 to |legs|
      invariant distanceM == SumBy(legs[..index], LegLengths) && byMode == LegModes(legs[..index])
      invariant planned == SumBy(legs[..index], LegCosts(false)) && actual == SumBy(legs[..index], LegCosts(true))
    {
      assert legs[..index + 1][..index] == legs[..index];
      var leg := legs[index];
      var distance := leg.Distance();
      if distance.Some? {
        distanceM := distanceM + distance.value;
      }
      byMode := Schedule.CountParts(byMode, Travel(leg));
      planned := planned + leg.plannedCost.GetOr(0);
      actual := actual + leg.actualCost.GetOr(0);
    }
    assert legs[..|legs|] == legs;
  }

  method CountStays(stays: seq<Stay>) returns (planned: Money, actual: Money)
    ensures planned == SumBy(stays, StayCosts(false)) && actual == SumBy(stays, StayCosts(true))
  {
    planned, actual := 0, 0;
    for index := 0 to |stays|
      invariant planned == SumBy(stays[..index], StayCosts(false)) && actual == SumBy(stays[..index], StayCosts(true))
    {
      assert stays[..index + 1][..index] == stays[..index];
      planned := planned + stays[index].plannedCost.GetOr(0);
      actual := actual + stays[index].actualCost.GetOr(0);
    }
    assert stays[..|stays|] == stays;
  }

  method CountTransfers(transfers: seq<Transfer>, travelers: int) returns (planned: Money, actual: Money)
    ensures planned == SumBy(transfers, TransferCosts(travelers, false))
    ensures actual == SumBy(transfers, TransferCosts(travelers, true))
  {
    planned, actual := 0, 0;
    for index := 0 to |transfers|
      invariant planned == SumBy(transfers[..index], TransferCosts(travelers, false))
      invariant actual == SumBy(transfers[..index], TransferCosts(travelers, true))
    {
      assert transfers[..index + 1][..index] == transfers[..index];
      var transfer := transfers[index];
      planned := planned + PerGroup(transfer.plannedCost, transfer.costPerPerson, travelers);
      actual := actual + PerGroup(transfer.actualCost, transfer.costPerPerson, travelers);
    }
    assert transfers[..|transfers|] == transfers;
  }

  method CountExpenses(expenses: seq<Expense>) returns (planned: Money, actual: Money)
    ensures planned == SumBy(expenses, ExpenseCosts(false)) && actual == SumBy(expenses, ExpenseCosts(true))
  {
    planned, actual := 0, 0;
    for index := 0 to |expenses|
      invariant planned == SumBy(expenses[..index], ExpenseCosts(false))
      invariant actual == SumBy(expenses[..index], ExpenseCosts(true))
    {
      assert expenses[..index + 1][..index] == expenses[..index];
      planned := planned + expenses[index].planned.GetOr(0);
      actual := actual + expenses[index].actual.GetOr(0);
    }
    assert expenses[..|expenses|] == expenses;
  }

  method BuildReportTotals(c: Content, travelers: int) returns (totals: ReportTotals)
    ensures totals.distanceM == SumBy(c.legs, LegLengths) + SumBy(c.tracks, TrackLengths(c.items))
    ensures totals.byMode == LegModes(c.legs)
    ensures totals.plannedCost == Cost(c, Max(travelers, 1), false)
    ensures totals.actualCost == Cost(c, Max(travelers, 1), true)
    ensures totals.difference == totals.actualCost - totals.plannedCost
  {
    var group := Max(travelers, 1);
    var planned, actual := CountPlaces(c, group);
    var recorded := MeasureTracks(c);
    var travelled, byMode, plannedLegs, spentLegs := CountLegs(c.legs);
    var plannedStays, spentStays := CountStays(c.stays);
    var plannedTransfers, spentTransfers := CountTransfers(c.transfers, group);
    var plannedExpenses, spentExpenses := CountExpenses(c.expenses);
    planned := planned + plannedLegs + plannedStays + plannedTransfers + plannedExpenses;
    actual := actual + spentLegs + spentStays + spentTransfers + spentExpenses;
    totals := ReportTotals(recorded + travelled, byMode, planned, actual, actual - planned);
  }

  /** Distances by means of travel add up to the distance of the legs, when the legs are
      folded as they are read. */
  lemma {:induction false} DistanceIsByMode(legs: seq<Leg>)
    requires forall leg :: leg in legs ==> AsRead(leg)
    ensures SumBy(legs, LegLengths) == Schedule.ModesDistance(LegModes(legs), Schedule.MODES)
  {
    hide Schedule.ModesDistance;
    hide Schedule.AddParts;
    hide AsRead;
    if legs == [] {
      Schedule.NoDistance(Schedule.MODES);
    } else {
      var front, last := legs[..|legs| - 1], legs[|legs| - 1];
      DistanceIsByMode(front);
      ReadDistanceByPart(last);
      Schedule.AddPartsDistance(LegModes(front), Travel(last));
    }
  }

  // ------------------------------------------------------------- agreement with the budget

  /** The elements of one day, or of none. */
  function On<T>(s: seq<T>, dayOf: T -> Option<Id>, day: Option<Id>): seq<T> {
    if s == [] then [] else (if dayOf(s[0]) == day then [s[0]] else []) + On(s[1..], dayOf, day)
  }

  /** What the first n days hold. */
  function DaysHold<T>(s: seq<T>, dayOf: T -> Option<Id>, days: seq<Day>, n: nat, f: T -> int): int
    requires n <= |days|
  {
    if n == 0 then 0 else DaysHold(s, dayOf, days, n - 1, f) + SumBy(On(s, dayOf, Some(days[n - 1].id)), f)
  }

  predicate OneOf(days: seq<Day>, n: nat, day: Option<Id>)
    requires n <= |days|
  {
    exists k :: 0 <= k < n && day == Some(days[k].id)
  }

  lemma {:induction false} SumFirst<T>(first: T, rest: seq<T>, f: T -> int)
    ensures SumBy([first] + rest, f) == f(first) + SumBy(rest, f)
  {
    SumByAppend([first], rest, f);
    assert [first][..0] == [];
  }

  /** An element that comes first adds itself to the one day it is on. */
  lemma {:induction false} OnFirst<T>(s: seq<T>, dayOf: T -> Option<Id>, day: Option<Id>, f: T -> int)
    requires s != []
    ensures SumBy(On(s, dayOf, day), f) == SumBy(On(s[1..], dayOf, day), f) + if dayOf(s[0]) == day then f(s[0]) else 0
  {
    hide SumBy;
    if dayOf(s[0]) == day {
      SumFirst(s[0], On(s[1..], dayOf, day), f);
    } else {
      assert On(s, dayOf, day) == On(s[1..], dayOf, day);
    }
  }

  lemma OneOfMore(days: seq<Day>, n: nat, day: Option<Id>)
    requires 0 < n <= |days| && DistinctDays(days)
    ensures OneOf(days, n, day) <==> OneOf(days, n - 1, day) || day == Some(days[n - 1].id)
    ensures day == Some(days[n - 1].id) ==> !OneOf(days, n - 1, day)
  {
  }

  lemma {:induction false} DaysHoldFirst<T>(s: seq<T>, dayOf: T -> Option<Id>, days: seq<Day>, n: nat, f: T -> int)
    requires s != [] && n <= |days| && DistinctDays(days)
    ensures DaysHold(s, dayOf, days, n, f)
         == DaysHold(s[1..], dayOf, days, n, f) + if OneOf(days, n, dayOf(s[0])) then f(s[0]) else 0
  {
    hide SumBy;
    hide On;
    if n > 0 {
      DaysHoldFirst(s, dayOf, days, n - 1, f);
      OneOfMore(days, n, dayOf(s[0]));
      OnFirst(s, dayOf, Some(days[n - 1].id), f);
    }
  }

  /** Each element is on exactly one day of the document, or on none. */
  lemma {:induction false} DaysHoldAll<T>(s: seq<T>, dayOf: T -> Option<Id>, days: seq<Day>, f: T -> int)
    requires DistinctDays(days)
    requires forall x :: x in s && dayOf(x).Some? ==> OneOf(days, |days|, dayOf(x))
    ensures DaysHold(s, dayOf, days, |days|, f) + SumBy(On(s, dayOf, None), f) == SumBy(s, f)
  {
    hide OneOf;
    if s == [] {
      NothingHeld(dayOf, days, |days|, f);
    } else {
      DaysHoldAll(s[1..], dayOf, days, f);
      DaysHoldFirst(s, dayOf, days, |days|, f);
      SumFirst(s[0], s[1..], f);
      assert [s[0]] + s[1..] == s;
      NotNone(days, dayOf(s[0]));
      OnFirst(s, dayOf, None, f);
    }
  }

  lemma NotNone(days: seq<Day>, day: Option<Id>)
    ensures OneOf(days, |days|, day) ==> day.Some?
  {
  }

  lemma {:induction false} NothingHeld<T>(dayOf: T -> Option<Id>, days: seq<Day>, n: nat, f: T -> int)
    requires n <= |days|
    ensures DaysHold([], dayOf, days, n, f) == 0
  {
    if n > 0 {
      NothingHeld(dayOf, days, n - 1, f);
    }
  }

  function ItemDay(item: Item): Option<Id> {
    item.dayId
  }

  function ExpenseDay(expense: Expense): Option<Id> {
    expense.dayId
  }

  /** Every day an element or an expense names is a day of the document. */
  ghost predicate DaysPresent(c: Content) {
    && (forall item :: item in c.items && item.dayId.Some? ==> OneOf(c.days, |c.days|, item.dayId))
    && (forall expense :: expense in c.expenses && expense.dayId.Some? ==> OneOf(c.days, |c.days|, expense.dayId))
  }

  /** Stay marks cost nothing, so a day's elements cost what its places do, in any order. */
  lemma {:induction false} DayItemsCost(items: seq<Item>, dayId: Option<Id>, f: Item -> int)
    requires forall item :: item in items && !item.kind.IsVisit() ==> f(item) == 0
    ensures SumBy(DayItems(items, dayId), f) == SumBy(On(items, ItemDay, dayId), f)
  {
    hide StableSort;
    hide Mark;
    hide SumBy;
    var morning, evening := Mark(items, dayId, true), Mark(items, dayId, false);
    var places, sorted := Places(items, dayId), SortedPlaces(items, dayId);
    MarkMember(items, dayId, true);
    MarkMember(items, dayId, false);
    StableSortSorts(places, PositionOf);
    SumByPermuted(sorted, places, f);
    SumByAppend(Optional(morning) + sorted, Optional(evening), f);
    SumByAppend(Optional(morning), sorted, f);
    MarkCost(morning, f);
    MarkCost(evening, f);
    PlacesCost(items, dayId, f);
  }

  lemma MarkCost(mark: Option<Item>, f: Item -> int)
    requires mark.Some? ==> f(mark.value) == 0
    ensures SumBy(Optional(mark), f) == 0
  {
    assert mark.Some? ==> Optional(mark)[..0] == [];
  }

  lemma {:induction false} PlacesCost(items: seq<Item>, dayId: Option<Id>, f: Item -> int)
    requires forall item :: item in items && !item.kind.IsVisit() ==> f(item) == 0
    ensures SumBy(Places(items, dayId), f) == SumBy(On(items, ItemDay, dayId), f)
  {
    hide SumBy;
    if items != [] {
      PlacesCost(items[1..], dayId, f);
      OnFirst(items, ItemDay, dayId, f);
      if items[0].dayId == dayId && items[0].kind.IsVisit() {
        SumFirst(items[0], Places(items[1..], dayId), f);
      } else {
        assert Places(items, dayId) == Places(items[1..], dayId);
      }
    }
  }

  lemma {:induction false} ExpensesOn(expenses: seq<Expense>, dayId: Option<Id>)
    ensures DayExpenses(expenses, dayId) == On(expenses, ExpenseDay, dayId)
  {
    if expenses != [] {
      ExpensesOn(expenses[1..], dayId);
    }
  }

  /** The days of the budget together: their elements, the legs read for them and their
      own expenses. */
  lemma {:induction false} DaysAre(c: Content, n: nat, trip: Trip, spent: bool)
    requires n <= |c.days| && Tells(trip, spent) && BareMarks(c)
    ensures DaysSum(c, n, trip, spent)
         == DaysHold(c.items, ItemDay, c.days, n, ElementCosts(c.tracks, trip.travelers, spent))
            + SumBy(Reads(c, c.legs, n), LegCosts(spent))
            + DaysHold(c.expenses, ExpenseDay, c.days, n, ExpenseCosts(spent))
  {
    hide DayItems;
    hide DayEntries;
    hide DayReads;
    hide Counted;
    hide On;
    if n > 0 {
      var day := Some(c.days[n - 1].id);
      DaysAre(c, n - 1, trip, spent);
      DayCounted(c, n - 1, trip, spent);
      MarksCostNothing(c, trip.travelers, spent);
      DayItemsCost(c.items, day, ElementCosts(c.tracks, trip.travelers, spent));
      ExpensesOn(c.expenses, day);
      SumByAppend(Reads(c, c.legs, n - 1), DayReads(c, c.legs, n - 1), LegCosts(spent));
    }
  }

  lemma MarksCostNothing(c: Content, travelers: int, spent: bool)
    requires BareMarks(c)
    ensures forall item :: item in c.items && !item.kind.IsVisit() ==>
              ElementCosts(c.tracks, travelers, spent)(item) == 0
  {
  }

  /** What the elements of a report cost, apart from those on no day. */
  lemma {:induction false} PlacesOnDays(items: seq<Item>, tracks: seq<Track>, travelers: int, spent: bool)
    requires forall item :: item in items && !item.kind.IsVisit() ==> StopsOf(tracks, item.id) == []
    ensures SumBy(items, PlaceCosts(tracks, travelers, spent))
              + SumBy(On(items, ItemDay, None), ElementCosts(tracks, travelers, spent))
         == SumBy(items, ElementCosts(tracks, travelers, spent))
  {
    hide SumBy;
    if items == [] {
      SumOfNone(PlaceCosts(tracks, travelers, spent));
      SumOfNone(ElementCosts(tracks, travelers, spent));
    } else {
      PlacesOnDays(items[1..], tracks, travelers, spent);
      OnFirst(items, ItemDay, None, ElementCosts(tracks, travelers, spent));
      assert [items[0]] + items[1..] == items;
      SumFirst(items[0], items[1..], PlaceCosts(tracks, travelers, spent));
      SumFirst(items[0], items[1..], ElementCosts(tracks, travelers, spent));
      assert items[0] in items;
    }
  }

  lemma SumOfNone<T>(f: T -> int)
    ensures SumBy([], f) == 0
  {
  }

  /** For a report in line with its days, the budget and the figures above the report
      agree: both on what was planned and on what was spent. */
  lemma {:induction false} BudgetAgreesWithReport(c: Content, travelers: int, spent: bool)
    requires DistinctItems(c.items) && DistinctDays(c.days) && DistinctLegs(c.legs) && Reconciled(c, c.legs)
    requires DaysPresent(c) && BareMarks(c)
    ensures Counted(AllEntries(c, Trip(true, Max(travelers, 1))), spent) == Cost(c, Max(travelers, 1), spent)
  {
    hide Counted;
    hide AllEntries;
    hide Reconciled;
    hide On;
    hide SumBy;
    hide DaysHold;
    hide DaysSum;
    var group := Max(travelers, 1);
    var trip := Trip(true, group);
    TotalIsItsParts(c, trip, spent);
    StaysCounted(c.stays, trip, spent);
    TransfersCounted(c.transfers, trip, spent);
    ExpensesCounted(DayExpenses(c.expenses, None), trip, spent);
    ExpensesOn(c.expenses, None);
    DaysAre(c, |c.days|, trip, spent);
    EachLegOnce(c, c.legs);
    SumByPermuted(Reads(c, c.legs, |c.days|), c.legs, LegCosts(spent));
    DaysHoldAll(c.items, ItemDay, c.days, ElementCosts(c.tracks, group, spent));
    DaysHoldAll(c.expenses, ExpenseDay, c.days, ExpenseCosts(spent));
    PlacesOnDays(c.items, c.tracks, group, spent);
  }
}
