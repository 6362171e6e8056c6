/**
 What the totals of a budget have to do with each other, with the schedule of each day
 and with the figures of a report (backend/internal/domain/budget.go, plan.go and
 report.go; the day total shown beside a schedule is put together in
 backend/internal/httpapi/documents.go).
 */
module BudgetTotals {
  import opened Common
  import opened Document
  import opened LegReaders
  import opened Budget
  import Schedule

  // ------------------------------------------------------------- partitions of one list

  function AmountOf(entry: Entry): Money {
    entry.amount
  }

  /** Nothing listed is lost: what is planned and what waits for a day make up the list. */
  lemma {:induction false} PlannedAndUnassigned(entries: seq<Entry>)
    ensures Counted(entries, false) + Waiting(entries) == SumBy(entries, AmountOf)
  {
    if entries != [] {
      PlannedAndUnassigned(entries[..|entries| - 1]);
    }
  }

  function CategoriesSum(entries: seq<Entry>, categories: seq<CostCategory>, spent: bool): Money {
    if categories == [] then 0
    else InCategory(entries, categories[0], spent) + CategoriesSum(entries, categories[1..], spent)
  }

  /** What counts towards a total but belongs to no category the budget lists. */
  function Uncategorized(entries: seq<Entry>, spent: bool): Money {
    if entries == [] then 0
    else
      var last := entries[|entries| - 1];
      Uncategorized(entries[..|entries| - 1], spent)
      + if !last.unassigned && last.category.UnknownCost? then last.Counts(spent) else 0
  }

  lemma {:induction false} CategoriesOneMore(entries: seq<Entry>, categories: seq<CostCategory>, spent: bool)
    requires entries != []
    requires forall i, j :: 0 <= i < j < |categories| ==> categories[i] != categories[j]
    ensures var last := entries[|entries| - 1];
            (CategoriesSum(entries, categories, spent)
             == CategoriesSum(entries[..|entries| - 1], categories, spent)
                + if !last.unassigned && last.category in categories then last.Counts(spent) else 0)
  {
    if categories != [] {
      CategoriesOneMore(entries, categories[1..], spent);
    }
  }

  lemma {:induction false} NoEntries(categories: seq<CostCategory>, spent: bool)
    ensures CategoriesSum([], categories, spent) == 0
  {
    if categories != [] {
      NoEntries(categories[1..], spent);
    }
  }

  /** The categories split a total up to the costs of no known category. */
  lemma {:induction false} CategoriesSplit(entries: seq<Entry>, spent: bool)
    ensures Counted(entries, spent) == CategoriesSum(entries, CATEGORIES, spent) + Uncategorized(entries, spent)
    ensures (forall entry :: entry in entries ==> !entry.category.UnknownCost?) ==> Uncategorized(entries, spent) == 0
  {
    hide CategoriesSum;
    hide InCategory;
    if entries == [] {
      NoEntries(CATEGORIES, spent);
    } else {
      CategoryList();
      CategoriesOneMore(entries, CATEGORIES, spent);
      CategoriesSplit(entries[..|entries| - 1], spent);
    }
  }

  /** The days split what the plan commits to, but for the stays, the transfers and the
      expenses of the whole trip; an unassigned place is in none of them. */
  function DaysSum(c: Content, n: nat, trip: Trip, spent: bool): Money
    requires n <= |c.days|
  {
    if n == 0 then 0
    else
      var total := DayTotalOf(c, n - 1, trip);
      DaysSum(c, n - 1, trip, spent) + if spent then total.actual else total.planned
  }

  lemma {:induction false} DaysCounted(c: Content, n: nat, trip: Trip, spent: bool)
    requires n <= |c.days|
    ensures Counted(DaysEntries(c, n, trip), spent) == DaysSum(c, n, trip, spent)
  {
    hide DayEntries;
    if n > 0 {
      DaysCounted(c, n - 1, trip, spent);
      CountedAppend(DaysEntries(c, n - 1, trip), DayEntries(c, n - 1, trip), spent);
    }
  }

  ghost predicate AllUnassigned(entries: seq<Entry>, unassigned: bool) {
    forall entry :: entry in entries ==> entry.unassigned == unassigned
  }

  lemma {:induction false} StopEntriesAssigned(stops: seq<Stop>, activity: Item, trip: Trip)
    ensures AllUnassigned(StopEntries(stops, activity, trip), activity.dayId == None)
  {
    if stops != [] {
      StopEntriesAssigned(stops[..|stops| - 1], activity, trip);
    }
  }

  lemma {:induction false} ItemEntriesAssigned(items: seq<Item>, tracks: seq<Track>, trip: Trip, unassigned: bool)
    requires forall item :: item in items ==> (item.dayId == None) == unassigned
    ensures AllUnassigned(ItemEntries(items, tracks, trip), unassigned)
  {
    hide StopEntries;
    if items != [] {
      var item := items[|items| - 1];
      ItemEntriesAssigned(items[..|items| - 1], tracks, trip, unassigned);
      StopEntriesAssigned(StopsOf(tracks, item.id), item, trip);
    }
  }

  lemma {:induction false} UnassignedCountsNothing(entries: seq<Entry>, spent: bool)
    requires AllUnassigned(entries, true)
    ensures Counted(entries, spent) == 0
  {
    if entries != [] {
      UnassignedCountsNothing(entries[..|entries| - 1], spent);
    }
  }

  /** Everything planned, and everything spent, belongs to exactly one day, to the stays,
      to the transfers or to the expenses of the whole trip. */
  lemma {:induction false} TotalIsItsParts(c: Content, trip: Trip, spent: bool)
    ensures Counted(AllEntries(c, trip), spent)
         == DaysSum(c, |c.days|, trip, spent) + Counted(StayEntries(c.stays, trip), spent)
            + Counted(TransferEntries(c.transfers, trip), spent) + Counted(UntiedEntries(c, trip), spent)
  {
    hide Counted;
    hide DayItems;
    var days, stays := DaysEntries(c, |c.days|, trip), StayEntries(c.stays, trip);
    var transfers, untied := TransferEntries(c.transfers, trip), UntiedEntries(c, trip);
    var unassigned := UnassignedEntries(c, trip);
    DaysCounted(c, |c.days|, trip, spent);
    DayItemsMembers(c.items, None);
    ItemEntriesAssigned(DayItems(c.items, None), c.tracks, trip, true);
    UnassignedCountsNothing(unassigned, spent);
    CountedAppend(days, stays, spent);
    CountedAppend(days + stays, transfers, spent);
    CountedAppend(days + stays + transfers, untied, spent);
    CountedAppend(days + stays + transfers + untied, unassigned, spent);
  }

  // ------------------------------------------------------------- what the entries come to

  /** What an element of a day costs with the stops along its line. */
  function ElementCost(item: Item, tracks: seq<Track>, travelers: int, spent: bool): Money {
    (if item.kind.IsVisit() then Schedule.CostTotal(item.cost, spent, travelers) else 0)
    + Schedule.StopsCost(StopsOf(tracks, item.id), spent, travelers)
  }

  function ElementCosts(tracks: seq<Track>, travelers: int, spent: bool): Item -> Money {
    (item: Item) => ElementCost(item, tracks, travelers, spent)
  }

  function LegCosts(spent: bool): Leg -> Money {
    (leg: Leg) => if spent then leg.actualCost.GetOr(0) else leg.plannedCost.GetOr(0)
  }

  function StayCosts(spent: bool): Stay -> Money {
    (stay: Stay) => if spent then stay.actualCost.GetOr(0) else stay.plannedCost.GetOr(0)
  }

  function TransferCosts(travelers: int, spent: bool): Transfer -> Money {
    (transfer: Transfer) =>
      PerGroup(if spent then transfer.actualCost else transfer.plannedCost, transfer.costPerPerson, travelers)
  }

  function ExpenseCosts(spent: bool): Expense -> Money {
    (expense: Expense) => if spent then expense.actual.GetOr(0) else expense.planned.GetOr(0)
  }

  /** Only a report counts what was spent. */
  predicate Tells(trip: Trip, spent: bool) {
    spent ==> trip.report
  }

  lemma {:induction false} CountedListed(entries: seq<Entry>, entry: Option<Entry>, spent: bool)
    ensures Counted(entries + Listed(entry), spent)
         == Counted(entries, spent) + if entry.Some? && !entry.value.unassigned then entry.value.Counts(spent) else 0
  {
    CountedAppend(entries, Listed(entry), spent);
    assert entry.Some? ==> Listed(entry)[..0] == [];
  }

  lemma {:induction false} StopsCounted(stops: seq<Stop>, activity: Item, trip: Trip, spent: bool)
    requires Tells(trip, spent) && activity.dayId.Some?
    ensures Counted(StopEntries(stops, activity, trip), spent) == Schedule.StopsCost(stops, spent, trip.travelers)
  {
    if stops != [] {
      var front := stops[..|stops| - 1];
      StopsCounted(front, activity, trip, spent);
      hide Counted;
      hide OfStop;
      hide Schedule.CostTotal;
      CountedListed(StopEntries(front, activity, trip), OfStop(stops[|stops| - 1], activity, trip), spent);
      StopCounts(stops[|stops| - 1], activity, trip, spent);
    }
  }

  lemma StopCounts(stop: Stop, activity: Item, trip: Trip, spent: bool)
    requires Tells(trip, spent) && activity.dayId.Some?
    ensures var entry := OfStop(stop, activity, trip);
            (if entry.Some? && !entry.value.unassigned then entry.value.Counts(spent) else 0)
            == Schedule.CostTotal(stop.cost, spent, trip.travelers)
  {
  }

  lemma ItemCounts(item: Item, trip: Trip, spent: bool)
    requires Tells(trip, spent) && item.dayId.Some?
    ensures var entry := OfPlace(item, trip);
            (if entry.Some? && !entry.value.unassigned then entry.value.Counts(spent) else 0)
            == if item.kind.IsVisit() then Schedule.CostTotal(item.cost, spent, trip.travelers) else 0
  {
  }

  lemma {:induction false} ItemsCounted(items: seq<Item>, tracks: seq<Track>, trip: Trip, spent: bool)
    requires Tells(trip, spent) && forall item :: item in items ==> item.dayId.Some?
    ensures Counted(ItemEntries(items, tracks, trip), spent)
              == SumBy(items, ElementCosts(tracks, trip.travelers, spent))
  {
    if items != [] {
      var front, item := items[..|items| - 1], items[|items| - 1];
      ItemsCounted(front, tracks, trip, spent);
      hide Counted;
      hide StopEntries;
      hide Schedule.StopsCost;
      hide OfPlace;
      hide Schedule.CostTotal;
      ItemCounts(item, trip, spent);
      var before, stops := ItemEntries(front, tracks, trip), StopsOf(tracks, item.id);
      CountedListed(before, OfPlace(item, trip), spent);
      StopsCounted(stops, item, trip, spent);
      CountedAppend(before + Listed(OfPlace(item, trip)), StopEntries(stops, item, trip), spent);
    }
  }

  lemma {:induction false} LegsCounted(legs: seq<Option<Leg>>, dayId: Option<Id>, trip: Trip, spent: bool)
    requires Tells(trip, spent)
    ensures Counted(LegEntries(legs, dayId, trip), spent) == SumBy(Known(legs), LegCosts(spent))
  {
    if legs != [] {
      var front, last := legs[..|legs| - 1], legs[|legs| - 1];
      LegsCounted(front, dayId, trip, spent);
      hide Counted;
      CountedListed(LegEntries(front, dayId, trip), OfLeg(last, dayId, trip), spent);
      KnownLast(legs);
      if last.Some? {
        assert (Known(front) + [last.value])[..|Known(front)|] == Known(front);
      } else {
        assert Known(front) + [] == Known(front);
      }
    }
  }

  lemma {:induction false} KnownLast(legs: seq<Option<Leg>>)
    requires legs != []
    ensures var last := legs[|legs| - 1];
            Known(legs) == Known(legs[..|legs| - 1]) + if last.Some? then [last.value] else []
  {
    if |legs| > 1 {
      KnownLast(legs[1..]);
      assert legs[1..][..|legs| - 2] == legs[..|legs| - 1][1..];
    }
  }

  lemma {:induction false} ExpensesCounted(expenses: seq<Expense>, trip: Trip, spent: bool)
    requires Tells(trip, spent)
    ensures Counted(ExpenseEntries(expenses, trip), spent) == SumBy(expenses, ExpenseCosts(spent))
  {
    if expenses != [] {
      var front, last := expenses[..|expenses| - 1], expenses[|expenses| - 1];
      ExpensesCounted(front, trip, spent);
      hide Counted;
      CountedListed(ExpenseEntries(front, trip), OfExpense(last, trip), spent);
    }
  }

  lemma {:induction false} StaysCounted(stays: seq<Stay>, trip: Trip, spent: bool)
    requires Tells(trip, spent)
    ensures Counted(StayEntries(stays, trip), spent) == SumBy(stays, StayCosts(spent))
  {
    if stays != [] {
      var front, last := stays[..|stays| - 1], stays[|stays| - 1];
      StaysCounted(front, trip, spent);
      hide Counted;
      CountedListed(StayEntries(front, trip), OfStay(last, trip), spent);
    }
  }

  lemma {:induction false} TransfersCounted(transfers: seq<Transfer>, trip: Trip, spent: bool)
    requires Tells(trip, spent)
    ensures Counted(TransferEntries(transfers, trip), spent) == SumBy(transfers, TransferCosts(trip.travelers, spent))
  {
    if transfers != [] {
      var front, last := transfers[..|transfers| - 1], transfers[|transfers| - 1];
      TransfersCounted(front, trip, spent);
      hide Counted;
      CountedListed(TransferEntries(front, trip), OfTransfer(last, trip), spent);
    }
  }

  /** What a day comes to: its elements, the legs read for it and its own expenses. */
  lemma {:induction false} DayCounted(c: Content, k: nat, trip: Trip, spent: bool)
    requires k < |c.days| && Tells(trip, spent)
    ensures Counted(DayEntries(c, k, trip), spent)
         == SumBy(ItemsOf(c, k), ElementCosts(c.tracks, trip.travelers, spent))
            + SumBy(DayReads(c, c.legs, k), LegCosts(spent))
            + SumBy(DayExpenses(c.expenses, Some(c.days[k].id)), ExpenseCosts(spent))
  {
    var day := Some(c.days[k].id);
    hide DayItems;
    hide Counted;
    DayItemsMembers(c.items, day);
    ItemsCounted(ItemsOf(c, k), c.tracks, trip, spent);
    LegsCounted(LegsRead(c, k), day, trip, spent);
    ExpensesCounted(DayExpenses(c.expenses, day), trip, spent);
    var items, legs := ItemEntries(ItemsOf(c, k), c.tracks, trip), LegEntries(LegsRead(c, k), day, trip);
    CountedAppend(items, legs, spent);
    CountedAppend(items + legs, ExpenseEntries(DayExpenses(c.expenses, day), trip), spent);
  }

  // ------------------------------------------------------------- the schedule

  /** The k-th day as the schedule is given it. */
  function PlanOf(c: Content, k: nat, travelers: int): Schedule.DayPlan
    requires k < |c.days|
  {
    var items := ItemsOf(c, k);
    Schedule.DayPlan(c.days[k].startTime, items, Opening(c.legs, items), Between(c.legs, items), travelers, c.tracks)
  }

  /** The stops along the lines of stay marks, which no schedule counts. */
  function MarkStops(tracks: seq<Track>, travelers: int, spent: bool): Item -> Money {
    (item: Item) =>
      if item.kind.IsVisit() then 0 else Schedule.StopsCost(StopsOf(tracks, item.id), spent, travelers)
  }

  lemma {:induction false} ScheduledCost(plan: Schedule.DayPlan, n: nat, spent: bool)
    requires n <= |plan.items| && |plan.legs| == (if |plan.items| < 2 then 0 else |plan.items| - 1)
    ensures plan.CostOf(n, spent) + SumBy(plan.items[..n], MarkStops(plan.tracks, plan.travelers, spent))
         == SumBy(plan.items[..n], ElementCosts(plan.tracks, plan.travelers, spent))
            + SumBy(Known(([plan.opening] + plan.legs)[..n]), LegCosts(spent))
  {
    hide Known;
    hide Schedule.CostTotal;
    hide Schedule.StopsCost;
    if n > 0 {
      ScheduledCost(plan, n - 1, spent);
      var items, legs := plan.items[..n], ([plan.opening] + plan.legs)[..n];
      assert items[..n - 1] == plan.items[..n - 1];
      assert legs[..n - 1] == ([plan.opening] + plan.legs)[..n - 1];
      KnownLast(legs);
      assert legs[n - 1] == plan.LegTo(n - 1);
      LastKnown(Known(legs[..n - 1]), legs[n - 1], spent);
    } else {
      assert Known([]) == [] by {
        KnownNone();
      }
      assert plan.items[..0] == [] && ([plan.opening] + plan.legs)[..0] == [];
    }
  }

  lemma KnownNone()
    ensures Known([]) == []
  {
  }

  lemma {:induction false} LastKnown(known: seq<Leg>, last: Option<Leg>, spent: bool)
    ensures SumBy(known + (if last.Some? then [last.value] else []), LegCosts(spent))
         == SumBy(known, LegCosts(spent)) + if last.Some? then LegCosts(spent)(last.value) else 0
  {
    if last.Some? {
      SumByAppend(known, [last.value], LegCosts(spent));
      assert [last.value][..0] == [];
    } else {
      assert known + [] == known;
    }
  }

  lemma {:induction false} CostForGroup(plan: Schedule.DayPlan, n: nat, spent: bool)
    requires n <= |plan.items|
    ensures plan.(travelers := Max(plan.travelers, 1)).CostOf(n, spent) == plan.CostOf(n, spent)
  {
    if n > 0 {
      var grouped := plan.(travelers := Max(plan.travelers, 1));
      CostForGroup(plan, n - 1, spent);
      StopsForGroup(StopsOf(plan.tracks, plan.items[n - 1].id), plan.travelers, spent);
      assert grouped.LegTo(n - 1) == plan.LegTo(n - 1);
    }
  }

  lemma {:induction false} StopsForGroup(stops: seq<Stop>, travelers: int, spent: bool)
    ensures Schedule.StopsCost(stops, spent, Max(travelers, 1)) == Schedule.StopsCost(stops, spent, travelers)
  {
    if stops != [] {
      StopsForGroup(stops[..|stops| - 1], travelers, spent);
    }
  }

  /** No recording with stops hangs on a stay mark. */
  ghost predicate BareMarks(c: Content) {
    forall item :: item in c.items && !item.kind.IsVisit() ==> StopsOf(c.tracks, item.id) == []
  }

  lemma {:induction false} NoMarkStops(items: seq<Item>, tracks: seq<Track>, travelers: int, spent: bool)
    requires forall item :: item in items && !item.kind.IsVisit() ==> StopsOf(tracks, item.id) == []
    ensures SumBy(items, MarkStops(tracks, travelers, spent)) == 0
  {
    if items != [] {
      NoMarkStops(items[..|items| - 1], tracks, travelers, spent);
    }
  }

  /** What the plan shows a day to cost: its schedule and its own expenses. */
  function ShownCost(c: Content, k: nat, travelers: int, spent: bool): Money
    requires k < |c.days|
  {
    var summary := PlanOf(c, k, travelers).Summary(|ItemsOf(c, k)|);
    (if spent then summary.actualCost else summary.plannedCost)
    + SumBy(DayExpenses(c.expenses, Some(c.days[k].id)), ExpenseCosts(spent))
  }

  /** What the stops on the lines of a day's stay marks cost. */
  function MarksCost(c: Content, k: nat, travelers: int, spent: bool): Money
    requires k < |c.days|
  {
    SumBy(ItemsOf(c, k), MarkStops(c.tracks, Max(travelers, 1), spent))
  }

  function Comes(total: DayTotal, spent: bool): Money {
    if spent then total.actual else total.planned
  }

  /** A day of the budget comes to what the plan shows it to cost, up to stops on the lines
      of stay marks. */
  lemma BudgetDayIsSchedule(c: Content, k: nat, report: bool, travelers: int, spent: bool)
    requires k < |c.days| && Tells(Trip(report, travelers), spent)
    ensures Comes(DayTotalOf(c, k, Trip(report, Max(travelers, 1))), spent)
         == ShownCost(c, k, travelers, spent) + MarksCost(c, k, travelers, spent)
  {
    hide DayItems;
    hide Counted;
    hide DayEntries;
    hide SumBy;
    var trip, plan := Trip(report, Max(travelers, 1)), PlanOf(c, k, travelers);
    var grouped := PlanOf(c, k, Max(travelers, 1));
    DayCounted(c, k, trip, spent);
    CostForGroup(plan, |plan.items|, spent);
    ScheduledCost(grouped, |grouped.items|, spent);
    assert grouped.items[..|grouped.items|] == grouped.items;
    DayLegsAll(grouped, c, k, spent);
  }

  /** Without such stops the budget and the plan agree on the day. */
  lemma BudgetDayAgrees(c: Content, k: nat, report: bool, travelers: int, spent: bool)
    requires k < |c.days| && Tells(Trip(report, travelers), spent) && BareMarks(c)
    ensures Comes(DayTotalOf(c, k, Trip(report, Max(travelers, 1))), spent) == ShownCost(c, k, travelers, spent)
  {
    hide DayItems;
    hide ShownCost;
    BudgetDayIsSchedule(c, k, report, travelers, spent);
    DayItemsMembers(c.items, Some(c.days[k].id));
    NoMarkStops(ItemsOf(c, k), c.tracks, Max(travelers, 1), spent);
  }

  lemma DayLegsAll(plan: Schedule.DayPlan, c: Content, k: nat, spent: bool)
    requires k < |c.days| && plan == PlanOf(c, k, plan.travelers)
    ensures Known(([plan.opening] + plan.legs)[..|plan.items|]) == DayReads(c, c.legs, k)
  {
    if plan.items == [] {
      NoReads(c.legs, plan.items);
      assert ([plan.opening] + plan.legs)[..0] == [];
    } else {
      assert ([plan.opening] + plan.legs)[..|plan.items|] == [plan.opening] + plan.legs;
    }
  }
}
