/**
 What each category of a budget comes to, read off the document instead of the list of
 expenses (BuildBudget and the entry builders in backend/internal/domain/budget.go).
 */
module BudgetCategories {
  import opened Common
  import opened Document
  import opened LegSync
  import opened LegReaders
  import opened Budget
  import opened BudgetTotals
  import opened Report
  import Schedule

  // ------------------------------------------------------------- what belongs to a category

  /** What a place costs, when it costs it in the category. */
  function CostIn(cost: Document.Cost, category: CostCategory, travelers: int, spent: bool): Money {
    if cost.category == category then Schedule.CostTotal(cost, spent, travelers) else 0
  }

  function StopsIn(category: CostCategory, travelers: int, spent: bool): Stop -> Money {
    (stop: Stop) => CostIn(stop.cost, category, travelers, spent)
  }

  /** What an element costs in the category, with the stops along its line. */
  function ElementsIn(tracks: seq<Track>, category: CostCategory, travelers: int, spent: bool): Item -> Money {
    (item: Item) =>
      (if item.kind.IsVisit() then CostIn(item.cost, category, travelers, spent) else 0)
      + SumBy(StopsOf(tracks, item.id), StopsIn(category, travelers, spent))
  }

  /** The same of the elements that are on a day of the document. */
  function PlacesIn(c: Content, category: CostCategory, travelers: int, spent: bool): Item -> Money {
    (item: Item) =>
      if OneOf(c.days, |c.days|, item.dayId) then ElementsIn(c.tracks, category, travelers, spent)(item) else 0
  }

  function ExpensesIn(category: CostCategory, spent: bool): Expense -> Money {
    (expense: Expense) => if expense.category == category then ExpenseCosts(spent)(expense) else 0
  }

  /** The same of the expenses of a day of the document. */
  function DailyIn(c: Content, category: CostCategory, spent: bool): Expense -> Money {
    (expense: Expense) =>
      if OneOf(c.days, |c.days|, expense.dayId) then ExpensesIn(category, spent)(expense) else 0
  }

  /** Nights are accommodation. */
  function NightsIn(c: Content, category: CostCategory, spent: bool): Money {
    if category == Accommodation then SumBy(c.stays, StayCosts(spent)) else 0
  }

  /** Transfers and the legs read for the days are transport. */
  function JourneysIn(c: Content, category: CostCategory, travelers: int, spent: bool): Money {
    if category == Transport
    then SumBy(c.transfers, TransferCosts(travelers, spent)) + SumBy(Reads(c, c.legs, |c.days|), LegCosts(spent))
    else 0
  }

  // ------------------------------------------------------------- what an entry adds

  function Weight(category: CostCategory, spent: bool): Entry -> Money {
    (entry: Entry) => if !entry.unassigned && entry.category == category then entry.Counts(spent) else 0
  }

  function Weighs(entry: Option<Entry>, category: CostCategory, spent: bool): Money {
    if entry.Some? then Weight(category, spent)(entry.value) else 0
  }

  lemma {:induction false} InCategoryIs(entries: seq<Entry>, category: CostCategory, spent: bool)
    ensures InCategory(entries, category, spent) == SumBy(entries, Weight(category, spent))
  {
    if entries != [] {
      InCategoryIs(entries[..|entries| - 1], category, spent);
    }
  }

  lemma {:induction false} ListedWeighs(entries: seq<Entry>, entry: Option<Entry>, category: CostCategory, spent: bool)
    ensures SumBy(entries + Listed(entry), Weight(category, spent))
         == SumBy(entries, Weight(category, spent)) + Weighs(entry, category, spent)
  {
    if entry.Some? {
      assert (entries + [entry.value])[..|entries|] == entries;
    } else {
      assert entries + [] == entries;
    }
  }

  lemma StopWeighs(stop: Stop, activity: Item, trip: Trip, category: CostCategory, spent: bool)
    requires Tells(trip, spent) && activity.dayId.Some?
    ensures Weighs(OfStop(stop, activity, trip), category, spent) == CostIn(stop.cost, category, trip.travelers, spent)
  {
  }

  lemma ItemWeighs(item: Item, trip: Trip, category: CostCategory, spent: bool)
    requires Tells(trip, spent) && item.dayId.Some?
    ensures Weighs(OfPlace(item, trip), category, spent)
         == if item.kind.IsVisit() then CostIn(item.cost, category, trip.travelers, spent) else 0
  {
  }

  lemma LegWeighs(leg: Option<Leg>, dayId: Option<Id>, trip: Trip, category: CostCategory, spent: bool)
    requires Tells(trip, spent)
    ensures Weighs(OfLeg(leg, dayId, trip), category, spent)
         == if leg.Some? && category == Transport then LegCosts(spent)(leg.value) else 0
  {
  }

  lemma TransferWeighs(transfer: Transfer, trip: Trip, category: CostCategory, spent: bool)
    requires Tells(trip, spent)
    ensures Weighs(OfTransfer(transfer, trip), category, spent)
         == if category == Transport then TransferCosts(trip.travelers, spent)(transfer) else 0
  {
  }

  lemma ExpenseWeighs(expense: Expense, trip: Trip, category: CostCategory, spent: bool)
    requires Tells(trip, spent)
    ensures Weighs(OfExpense(expense, trip), category, spent) == ExpensesIn(category, spent)(expense)
  {
    assert ExpenseCosts(spent)(expense) == if spent then expense.actual.GetOr(0) else expense.planned.GetOr(0);
  }

  lemma {:induction false} StopsWeigh(stops: seq<Stop>, activity: Item, trip: Trip, category: CostCategory, spent: bool)
    requires Tells(trip, spent) && activity.dayId.Some?
    ensures SumBy(StopEntries(stops, activity, trip), Weight(category, spent))
         == SumBy(stops, StopsIn(category, trip.travelers, spent))
  {
    if stops != [] {
      var front, last := stops[..|stops| - 1], stops[|stops| - 1];
      StopsWeigh(front, activity, trip, category, spent);
      hide OfStop;
      hide Weight;
      ListedWeighs(StopEntries(front, activity, trip), OfStop(last, activity, trip), category, spent);
      StopWeighs(last, activity, trip, category, spent);
    }
  }

  lemma {:induction false} ItemsWeigh(items: seq<Item>, tracks: seq<Track>, trip: Trip, category: CostCategory,
                                      spent: bool)
    requires Tells(trip, spent) && forall item :: item in items ==> item.dayId.Some?
    ensures SumBy(ItemEntries(items, tracks, trip), Weight(category, spent))
         == SumBy(items, ElementsIn(tracks, category, trip.travelers, spent))
  {
    if items != [] {
      var front, item := items[..|items| - 1], items[|items| - 1];
      ItemsWeigh(front, tracks, trip, category, spent);
      hide OfPlace;
      hide StopEntries;
      hide CostIn;
      hide Weight;
      var before, stops := ItemEntries(front, tracks, trip), StopsOf(tracks, item.id);
      ItemWeighs(item, trip, category, spent);
      ListedWeighs(before, OfPlace(item, trip), category, spent);
      StopsWeigh(stops, item, trip, category, spent);
      SumByAppend(before + Listed(OfPlace(item, trip)), StopEntries(stops, item, trip), Weight(category, spent));
    }
  }

  lemma {:induction false} LegsWeigh(legs: seq<Option<Leg>>, dayId: Option<Id>, trip: Trip, category: CostCategory,
                                     spent: bool)
    requires Tells(trip, spent)
    ensures SumBy(LegEntries(legs, dayId, trip), Weight(category, spent))
         == if category == Transport then SumBy(Known(legs), LegCosts(spent)) else 0
  {
    if legs != [] {
      var front, last := legs[..|legs| - 1], legs[|legs| - 1];
      LegsWeigh(front, dayId, trip, category, spent);
      LegWeighs(last, dayId, trip, category, spent);
      hide OfLeg;
      hide Weight;
      hide Weighs;
      hide LegCosts;
      ListedWeighs(LegEntries(front, dayId, trip), OfLeg(last, dayId, trip), category, spent);
      KnownLast(legs);
      LastKnown(Known(front), last, spent);
    }
  }

  lemma {:induction false} ExpensesWeigh(expenses: seq<Expense>, trip: Trip, category: CostCategory, spent: bool)
    requires Tells(trip, spent)
    ensures SumBy(ExpenseEntries(expenses, trip), Weight(category, spent))
         == SumBy(expenses, ExpensesIn(category, spent))
  {
    if expenses != [] {
      var front, last := expenses[..|expenses| - 1], expenses[|expenses| - 1];
      ExpensesWeigh(front, trip, category, spent);
      ExpenseWeighs(last, trip, category, spent);
      hide OfExpense;
      hide Weight;
      hide Weighs;
      hide ExpensesIn;
      ListedWeighs(ExpenseEntries(front, trip), OfExpense(last, trip), category, spent);
    }
  }

  lemma {:induction false} StaysWeigh(stays: seq<Stay>, trip: Trip, category: CostCategory, spent: bool)
    requires Tells(trip, spent)
    ensures SumBy(StayEntries(stays, trip), Weight(category, spent))
         == if category == Accommodation then SumBy(stays, StayCosts(spent)) else 0
  {
    if stays != [] {
      var front, last := stays[..|stays| - 1], stays[|stays| - 1];
      StaysWeigh(front, trip, category, spent);
      ListedWeighs(StayEntries(front, trip), OfStay(last, trip), category, spent);
    }
  }

  lemma {:induction false} TransfersWeigh(transfers: seq<Transfer>, trip: Trip, category: CostCategory, spent: bool)
    requires Tells(trip, spent)
    ensures SumBy(TransferEntries(transfers, trip), Weight(category, spent))
         == if category == Transport then SumBy(transfers, TransferCosts(trip.travelers, spent)) else 0
  {
    if transfers != [] {
      var front, last := transfers[..|transfers| - 1], transfers[|transfers| - 1];
      TransfersWeigh(front, trip, category, spent);
      TransferWeighs(last, trip, category, spent);
      hide OfTransfer;
      hide Weight;
      hide Weighs;
      hide TransferCosts;
      ListedWeighs(TransferEntries(front, trip), OfTransfer(last, trip), category, spent);
    }
  }

  lemma {:induction false} UnassignedWeighNothing(entries: seq<Entry>, category: CostCategory, spent: bool)
    requires AllUnassigned(entries, true)
    ensures SumBy(entries, Weight(category, spent)) == 0
  {
    if entries != [] {
      UnassignedWeighNothing(entries[..|entries| - 1], category, spent);
    }
  }

  // ------------------------------------------------------------- day by day

  lemma {:induction false} DayWeighs(c: Content, k: nat, trip: Trip, category: CostCategory, spent: bool)
    requires k < |c.days| && Tells(trip, spent)
    ensures SumBy(DayEntries(c, k, trip), Weight(category, spent))
         == SumBy(ItemsOf(c, k), ElementsIn(c.tracks, category, trip.travelers, spent))
            + (if category == Transport then SumBy(DayReads(c, c.legs, k), LegCosts(spent)) else 0)
            + SumBy(DayExpenses(c.expenses, Some(c.days[k].id)), ExpensesIn(category, spent))
  {
    var day := Some(c.days[k].id);
    hide DayItems;
    hide SumBy;
    DayItemsMembers(c.items, day);
    ItemsWeigh(ItemsOf(c, k), c.tracks, trip, category, spent);
    LegsWeigh(LegsRead(c, k), day, trip, category, spent);
    ExpensesWeigh(DayExpenses(c.expenses, day), trip, category, spent);
    var items, legs := ItemEntries(ItemsOf(c, k), c.tracks, trip), LegEntries(LegsRead(c, k), day, trip);
    SumByAppend(items, legs, Weight(category, spent));
    SumByAppend(items + legs, ExpenseEntries(DayExpenses(c.expenses, day), trip), Weight(category, spent));
  }

  lemma {:induction false} DaysWeigh(c: Content, n: nat, trip: Trip, category: CostCategory, spent: bool)
    requires n <= |c.days| && Tells(trip, spent) && BareMarks(c)
    ensures SumBy(DaysEntries(c, n, trip), Weight(category, spent))
         == DaysHold(c.items, ItemDay, c.days, n, ElementsIn(c.tracks, category, trip.travelers, spent))
            + (if category == Transport then SumBy(Reads(c, c.legs, n), LegCosts(spent)) else 0)
            + DaysHold(c.expenses, ExpenseDay, c.days, n, ExpensesIn(category, spent))
  {
    hide DayItems;
    hide DayEntries;
    hide DayReads;
    hide On;
    if n > 0 {
      var day := Some(c.days[n - 1].id);
      DaysWeigh(c, n - 1, trip, category, spent);
      DayWeighs(c, n - 1, trip, category, spent);
      SumByAppend(DaysEntries(c, n - 1, trip), DayEntries(c, n - 1, trip), Weight(category, spent));
      DayItemsCost(c.items, day, ElementsIn(c.tracks, category, trip.travelers, spent));
      ExpensesOn(c.expenses, day);
      SumByAppend(Reads(c, c.legs, n - 1), DayReads(c, c.legs, n - 1), LegCosts(spent));
    }
  }

  lemma {:induction false} DaysHoldPresent<T>(s: seq<T>, dayOf: T -> Option<Id>, days: seq<Day>, f: T -> int,
                                              g: T -> int)
    requires DistinctDays(days)
    requires forall x :: x in s ==> g(x) == if OneOf(days, |days|, dayOf(x)) then f(x) else 0
    ensures DaysHold(s, dayOf, days, |days|, f) == SumBy(s, g)
  {
    hide OneOf;
    hide SumBy;
    if s == [] {
      NothingHeld(dayOf, days, |days|, f);
      SumOfNone(g);
    } else {
      DaysHoldPresent(s[1..], dayOf, days, f, g);
      DaysHoldFirst(s, dayOf, days, |days|, f);
      SumFirst(s[0], s[1..], g);
      assert [s[0]] + s[1..] == s;
    }
  }

  /** A category of the budget comes to what the document holds of it: the places on its days
      and the stops along their lines that cost in it, its expenses, and for the nights and the
      journeys all stays, transfers and legs. */
  lemma {:induction false} CategoryIs(c: Content, trip: Trip, category: CostCategory, spent: bool)
    requires DistinctDays(c.days) && BareMarks(c) && Tells(trip, spent)
    ensures InCategory(AllEntries(c, trip), category, spent)
         == SumBy(c.items, PlacesIn(c, category, trip.travelers, spent))
            + NightsIn(c, category, spent) + JourneysIn(c, category, trip.travelers, spent)
            + SumBy(c.expenses, DailyIn(c, category, spent))
            + SumBy(DayExpenses(c.expenses, None), ExpensesIn(category, spent))
  {
    hide DayItems;
    hide SumBy;
    hide OneOf;
    hide ElementsIn;
    hide ExpensesIn;
    hide Weight;
    var w := Weight(category, spent);
    var days, stays := DaysEntries(c, |c.days|, trip), StayEntries(c.stays, trip);
    var transfers, untied := TransferEntries(c.transfers, trip), UntiedEntries(c, trip);
    InCategoryIs(AllEntries(c, trip), category, spent);
    DaysWeigh(c, |c.days|, trip, category, spent);
    StaysWeigh(c.stays, trip, category, spent);
    TransfersWeigh(c.transfers, trip, category, spent);
    ExpensesWeigh(DayExpenses(c.expenses, None), trip, category, spent);
    DayItemsMembers(c.items, None);
    ItemEntriesAssigned(DayItems(c.items, None), c.tracks, trip, true);
    UnassignedWeighNothing(UnassignedEntries(c, trip), category, spent);
    SumByAppend(days, stays, w);
    SumByAppend(days + stays, transfers, w);
    SumByAppend(days + stays + transfers, untied, w);
    SumByAppend(days + stays + transfers + untied, UnassignedEntries(c, trip), w);
    DaysHoldPresent(c.items, ItemDay, c.days, ElementsIn(c.tracks, category, trip.travelers, spent),
                    PlacesIn(c, category, trip.travelers, spent));
    DaysHoldPresent(c.expenses, ExpenseDay, c.days, ExpensesIn(category, spent), DailyIn(c, category, spent));
  }

  /** In a document in line with its days those legs are all its legs. */
  lemma {:induction false} JourneysAre(c: Content, category: CostCategory, travelers: int, spent: bool)
    requires DistinctItems(c.items) && DistinctDays(c.days) && DistinctLegs(c.legs) && Reconciled(c, c.legs)
    ensures JourneysIn(c, category, travelers, spent)
         == if category == Transport
            then SumBy(c.transfers, TransferCosts(travelers, spent)) + SumBy(c.legs, LegCosts(spent)) else 0
  {
    hide Reads;
    hide Reconciled;
    hide SumBy;
    EachLegOnce(c, c.legs);
    SumByPermuted(Reads(c, c.legs, |c.days|), c.legs, LegCosts(spent));
  }
}
