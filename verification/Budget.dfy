/**
 The budget of a trip, assembled from its document (BuildBudget and the entry builders
 in backend/internal/domain/budget.go).
 */
module Budget {
  import opened Common
  import opened Document
  import opened LegReaders

  /** What the budget asks of a trip: whether it reads a report, and how many travel. */
  datatype Trip = Trip(report: bool, travelers: int)

  datatype EntryKind = PlaceEntry | StopEntry | StayEntry | TransferEntry | LegEntry | ExpenseEntry

  /** One line of the budget's expense list. */
  datatype Entry = Entry(kind: EntryKind, id: Id, category: CostCategory, dayId: Option<Id>, amount: Money,
                         unit: Money, perPerson: bool, isOptional: bool, unassigned: bool, actual: Option<Money>)
  {
    /** What the entry plans, or what it spent. */
    function Counts(spent: bool): Money {
      if spent then actual.GetOr(0) else amount
    }
  }

  datatype CategoryTotal = CategoryTotal(category: CostCategory, planned: Money, actual: Money)

  datatype DayTotal = DayTotal(dayId: Id, planned: Money, actual: Money)

  // ------------------------------------------------------------- entries

  /** Whether the budget lists something. */
  predicate HasCost(planned: Option<Money>, actual: Option<Money>, report: bool) {
    planned.Some? || (report && actual.Some?)
  }

  /** A plan drops what was spent. */
  function ActualOf(actual: Option<Money>, report: bool): Option<Money> {
    if report then actual else None
  }

  function OfPlace(item: Item, trip: Trip): Option<Entry> {
    if !item.kind.IsVisit() || !HasCost(item.cost.planned, item.cost.actual, trip.report) then None
    else
      Some(Entry(PlaceEntry, item.id, item.cost.category, item.dayId, item.cost.PlannedTotal(trip.travelers),
                 item.cost.planned.GetOr(0), item.cost.perPerson, item.isOptional, item.dayId == None,
                 if trip.report && item.cost.actual.Some? then Some(item.cost.ActualTotal(trip.travelers)) else None))
  }

  function OfStop(stop: Stop, activity: Item, trip: Trip): Option<Entry> {
    match OfPlace(stop.CostItem(activity), trip)
    case None => None
    case Some(entry) => Some(entry.(kind := StopEntry))
  }

  function OfStay(stay: Stay, trip: Trip): Option<Entry> {
    if !HasCost(stay.plannedCost, stay.actualCost, trip.report) then None
    else
      Some(Entry(StayEntry, stay.id, Accommodation, None, stay.plannedCost.GetOr(0), stay.plannedCost.GetOr(0), false,
                 false, false, ActualOf(stay.actualCost, trip.report)))
  }

  function OfTransfer(transfer: Transfer, trip: Trip): Option<Entry> {
    if !HasCost(transfer.plannedCost, transfer.actualCost, trip.report) then None
    else
      Some(Entry(TransferEntry, transfer.id, Transport, None,
                 PerGroup(transfer.plannedCost, transfer.costPerPerson, trip.travelers),
                 transfer.plannedCost.GetOr(0), transfer.costPerPerson, false, false,
                 if trip.report && transfer.actualCost.Some?
                 then Some(PerGroup(transfer.actualCost, transfer.costPerPerson, trip.travelers)) else None))
  }

  function OfLeg(leg: Option<Leg>, dayId: Option<Id>, trip: Trip): Option<Entry> {
    if leg == None || !HasCost(leg.value.plannedCost, leg.value.actualCost, trip.report) then None
    else
      Some(Entry(LegEntry, leg.value.id, Transport, dayId, leg.value.plannedCost.GetOr(0),
                 leg.value.plannedCost.GetOr(0), false, false, false, ActualOf(leg.value.actualCost, trip.report)))
  }

  function OfExpense(expense: Expense, trip: Trip): Option<Entry> {
    if !HasCost(expense.planned, expense.actual, trip.report) then None
    else
      Some(Entry(ExpenseEntry, expense.id, expense.category, expense.dayId, expense.planned.GetOr(0),
                 expense.planned.GetOr(0), false, false, false, ActualOf(expense.actual, trip.report)))
  }

  // ------------------------------------------------------------- lists of entries

  function Listed(entry: Option<Entry>): seq<Entry> {
    if entry.Some? then [entry.value] else []
  }

  function StopEntries(stops: seq<Stop>, activity: Item, trip: Trip): seq<Entry> {
    if stops == [] then []
    else StopEntries(stops[..|stops| - 1], activity, trip) + Listed(OfStop(stops[|stops| - 1], activity, trip))
  }

  /** Each place, followed by the stops along its line. */
  function ItemEntries(items: seq<Item>, tracks: seq<Track>, trip: Trip): seq<Entry> {
    if items == [] then []
    else
      var item := items[|items| - 1];
      ItemEntries(items[..|items| - 1], tracks, trip)
      + Listed(OfPlace(item, trip)) + StopEntries(StopsOf(tracks, item.id), item, trip)
  }

  function LegEntries(legs: seq<Option<Leg>>, dayId: Option<Id>, trip: Trip): seq<Entry> {
    if legs == [] then []
    else LegEntries(legs[..|legs| - 1], dayId, trip) + Listed(OfLeg(legs[|legs| - 1], dayId, trip))
  }

  function ExpenseEntries(expenses: seq<Expense>, trip: Trip): seq<Entry> {
    if expenses == [] then []
    else ExpenseEntries(expenses[..|expenses| - 1], trip) + Listed(OfExpense(expenses[|expenses| - 1], trip))
  }

  function StayEntries(stays: seq<Stay>, trip: Trip): seq<Entry> {
    if stays == [] then []
    else StayEntries(stays[..|stays| - 1], trip) + Listed(OfStay(stays[|stays| - 1], trip))
  }

  function TransferEntries(transfers: seq<Transfer>, trip: Trip): seq<Entry> {
    if transfers == [] then []
    else TransferEntries(transfers[..|transfers| - 1], trip) + Listed(OfTransfer(transfers[|transfers| - 1], trip))
  }

  /** The legs of the k-th day: the one into it, then those between its elements. */
  function LegsRead(c: Content, k: nat): seq<Option<Leg>>
    requires k < |c.days|
  {
    [Opening(c.legs, ItemsOf(c, k))] + Between(c.legs, ItemsOf(c, k))
  }

  /** The k-th day: its places, its legs and its own expenses. */
  function DayEntries(c: Content, k: nat, trip: Trip): seq<Entry>
    requires k < |c.days|
  {
    var day := Some(c.days[k].id);
    ItemEntries(ItemsOf(c, k), c.tracks, trip) + LegEntries(LegsRead(c, k), day, trip)
    + ExpenseEntries(DayExpenses(c.expenses, day), trip)
  }

  function DaysEntries(c: Content, n: nat, trip: Trip): seq<Entry>
    requires n <= |c.days|
  {
    if n == 0 then [] else DaysEntries(c, n - 1, trip) + DayEntries(c, n - 1, trip)
  }

  function UntiedEntries(c: Content, trip: Trip): seq<Entry> {
    ExpenseEntries(DayExpenses(c.expenses, None), trip)
  }

  function UnassignedEntries(c: Content, trip: Trip): seq<Entry> {
    ItemEntries(DayItems(c.items, None), c.tracks, trip)
  }

  /** The whole list: day by day, then what belongs to no day, unassigned places last. */
  function AllEntries(c: Content, trip: Trip): seq<Entry> {
    DaysEntries(c, |c.days|, trip) + StayEntries(c.stays, trip) + TransferEntries(c.transfers, trip)
    + UntiedEntries(c, trip) + UnassignedEntries(c, trip)
  }

  // ------------------------------------------------------------- totals

  /** What the entries that count come to. */
  function Counted(entries: seq<Entry>, spent: bool): Money {
    if entries == [] then 0
    else
      var last := entries[|entries| - 1];
      Counted(entries[..|entries| - 1], spent) + if last.unassigned then 0 else last.Counts(spent)
  }

  /** What the places no day has taken on come to. */
  function Waiting(entries: seq<Entry>): Money {
    if entries == [] then 0
    else
      var last := entries[|entries| - 1];
      Waiting(entries[..|entries| - 1]) + if last.unassigned then last.amount else 0
  }

  function InCategory(entries: seq<Entry>, category: CostCategory, spent: bool): Money {
    if entries == [] then 0
    else
      var last := entries[|entries| - 1];
      InCategory(entries[..|entries| - 1], category, spent)
      + if !last.unassigned && last.category == category then last.Counts(spent) else 0
  }

  function WithEntries(day: Option<DayTotal>, entries: seq<Entry>): Option<DayTotal> {
    match day
    case None => None
    case Some(total) =>
      Some(DayTotal(total.dayId, total.planned + Counted(entries, false), total.actual + Counted(entries, true)))
  }

  lemma {:induction false} CountedAppend(a: seq<Entry>, b: seq<Entry>, spent: bool)
    ensures Counted(a + b, spent) == Counted(a, spent) + Counted(b, spent)
  {
    if b == [] {
      assert a + b == a;
    } else {
      assert (a + b)[..|a + b| - 1] == a + b[..|b| - 1];
      CountedAppend(a, b[..|b| - 1], spent);
    }
  }

  lemma {:induction false} CountedMore(entries: seq<Entry>, entry: Option<Entry>)
    ensures Counted(entries + Listed(entry), false)
         == Counted(entries, false) + if entry.Some? && !entry.value.unassigned then entry.value.amount else 0
  {
    CountedAppend(entries, Listed(entry), false);
    assert entry.Some? ==> Listed(entry)[..0] == [];
  }

  lemma StayCountsInFull(stay: Stay, trip: Trip)
    ensures OfStay(stay, trip).Some? ==> !OfStay(stay, trip).value.unassigned
  {
  }

  lemma TransferCountsInFull(transfer: Transfer, trip: Trip)
    ensures OfTransfer(transfer, trip).Some? ==> !OfTransfer(transfer, trip).value.unassigned
  {
  }

  lemma ExpenseCountsInFull(expense: Expense, trip: Trip)
    ensures OfExpense(expense, trip).Some? ==> !OfExpense(expense, trip).value.unassigned
  {
  }

  lemma WithMore(day: Option<DayTotal>, a: seq<Entry>, b: seq<Entry>)
    ensures WithEntries(WithEntries(day, a), b) == WithEntries(day, a + b)
  {
    CountedAppend(a, b, false);
    CountedAppend(a, b, true);
  }

  lemma NothingCounted()
    ensures Counted([], false) == 0
  {
  }

  lemma NoMore(day: Option<DayTotal>)
    ensures WithEntries(day, []) == day
  {
  }

  lemma {:induction false} OneMore(entries: seq<Entry>, entry: Entry)
    ensures Waiting(entries + [entry]) == Waiting(entries) + (if entry.unassigned then entry.amount else 0)
    ensures forall spent :: Counted(entries + [entry], spent)
                         == Counted(entries, spent) + (if entry.unassigned then 0 else entry.Counts(spent))
    ensures forall category, spent :: InCategory(entries + [entry], category, spent)
                                   == InCategory(entries, category, spent)
                                      + (if !entry.unassigned && entry.category == category
                                         then entry.Counts(spent) else 0)
  {
    assert (entries + [entry])[..|entries + [entry]| - 1] == entries;
  }

  lemma {:induction false} AddedIs(entries: seq<Entry>, entry: Entry)
    ensures Waiting(entries + [entry]) == Waiting(entries) + (if entry.unassigned then entry.amount else 0)
    ensures Counted(entries + [entry], false) == Counted(entries, false)
              + (if entry.unassigned then 0 else entry.amount)
    ensures Counted(entries + [entry], true)
         == Counted(entries, true) + (if entry.unassigned then 0 else entry.actual.GetOr(0))
  {
    OneMore(entries, entry);
  }

  lemma AddedAlone(day: Option<DayTotal>, entry: Entry)
    ensures WithEntries(day, [entry])
         == (match day
             case None => None
             case Some(total) =>
               if entry.unassigned then day
               else Some(DayTotal(total.dayId, total.planned + entry.amount, total.actual + entry.actual.GetOr(0))))
  {
    AddedIs([], entry);
    assert [] + [entry] == [entry];
  }

  lemma CategoryList()
    ensures |CATEGORIES| == 11
    ensures forall i, j :: 0 <= i < j < |CATEGORIES| ==> CATEGORIES[i] != CATEGORIES[j]
    ensures forall category: CostCategory :: category in CATEGORIES <==> !category.UnknownCost?
  {
    forall category: CostCategory ensures category in CATEGORIES <==> !category.UnknownCost? {
      var all := CATEGORIES;
      assert all[0] == Accommodation && all[1] == Transport && all[2] == CarRental && all[3] == Fuel;
      assert all[4] == Tolls && all[5] == Food && all[6] == Groceries && all[7] == Sightseeing;
      assert all[8] == Activities && all[9] == Shopping && all[10] == OtherCost;
    }
  }

  ghost predicate CategoriesAre(categories: seq<CategoryTotal>, entries: seq<Entry>) {
    && |categories| == |CATEGORIES|
    && forall i :: 0 <= i < |categories| ==>
         categories[i] == CategoryTotal(CATEGORIES[i], InCategory(entries, CATEGORIES[i], false),
                                        InCategory(entries, CATEGORIES[i], true))
  }

  ghost predicate PlacesAre(places: map<CostCategory, nat>) {
    && (forall category :: category in places <==> category in CATEGORIES)
    && (forall category :: category in places ==>
          places[category] < |CATEGORIES| && CATEGORIES[places[category]] == category)
  }

  function WithCategory(categories: seq<CategoryTotal>, at: nat, entry: Entry): seq<CategoryTotal>
    requires at < |categories|
  {
    var total := categories[at];
    categories[at := CategoryTotal(total.category, total.planned + entry.amount, total.actual + entry.actual.GetOr(0))]
  }

  lemma CategoryAdded(categories: seq<CategoryTotal>, entries: seq<Entry>, entry: Entry, at: nat)
    requires CategoriesAre(categories, entries) && !entry.unassigned
    requires at < |CATEGORIES| && CATEGORIES[at] == entry.category
    ensures CategoriesAre(WithCategory(categories, at, entry), entries + [entry])
  {
    hide InCategory;
    CategoryList();
    OneMore(entries, entry);
  }

  lemma CategoryPassed(categories: seq<CategoryTotal>, entries: seq<Entry>, entry: Entry)
    requires CategoriesAre(categories, entries) && (entry.unassigned || entry.category !in CATEGORIES)
    ensures CategoriesAre(categories, entries + [entry])
  {
    hide InCategory;
    OneMore(entries, entry);
  }

  // ------------------------------------------------------------- the budget

  class Budget {
    const trip: Trip
    var planned: Money
    var unassigned: Money
    var stays: Money
    var transfers: Money
    var untied: Money
    var actual: Money
    var categories: seq<CategoryTotal>
    var days: seq<DayTotal>
    var entries: seq<Entry>
    /** Where each known category stands in the list. */
    var places: map<CostCategory, nat>

    /** Every total is what the listed entries come to. */
    ghost predicate Valid()
      reads `planned, `actual, `unassigned, `categories, `entries, `places
    {
      && planned == Counted(entries, false) && actual == Counted(entries, true) && unassigned == Waiting(entries)
      && CategoriesAre(categories, entries) && PlacesAre(places)
    }

    constructor (report: bool, travelers: int)
      ensures Valid() && entries == [] && days == []
      ensures stays == transfers == untied == 0
      ensures trip == Trip(report, Max(travelers, 1))
    {
      trip := Trip(report, Max(travelers, 1));
      planned, unassigned, stays, transfers, untied, actual := 0, 0, 0, 0, 0, 0;
      categories, days, entries, places := [], [], [], map[];
      new;
      for index := 0 to |CATEGORIES|
        invariant |categories| == index
        invariant forall i :: 0 <= i < index ==> categories[i] == CategoryTotal(CATEGORIES[i], 0, 0)
        invariant entries == [] && days == [] && places == map[]
        invariant planned == unassigned == stays == transfers == untied == actual == 0
      {
        categories := categories + [CategoryTotal(CATEGORIES[index], 0, 0)];
      }
      for index := 0 to |categories|
        invariant |categories| == |CATEGORIES|
        invariant forall i :: 0 <= i < |categories| ==> categories[i] == CategoryTotal(CATEGORIES[i], 0, 0)
        invariant forall i :: 0 <= i < index ==> CATEGORIES[i] in places
        invariant forall category :: category in places ==>
                    places[category] < |CATEGORIES| && CATEGORIES[places[category]] == category
        invariant entries == [] && days == []
        invariant planned == unassigned == stays == transfers == untied == actual == 0
      {
        places := places[categories[index].category := index];
      }
    }

    /** Appends an entry. One that is assigned counts in the plan, in its category when that is
        known and in the day's running total; any other only among the unassigned ones. */
    method AddEntry(entry: Entry, day: Option<DayTotal>) returns (day': Option<DayTotal>)
      requires Valid()
      modifies this
      ensures Valid() && entries == old(entries) + [entry]
      ensures day' == WithEntries(day, [entry])
      ensures unchanged(`stays, `transfers, `untied, `days)
    {
      hide Counted;
      hide Waiting;
      assert |categories| == |CATEGORIES|;
      hide CategoriesAre;
      AddedIs(entries, entry);
      AddedAlone(day, entry);
      if entry.unassigned || entry.category !in CATEGORIES {
        CategoryPassed(categories, entries, entry);
      } else {
        CategoryAdded(categories, entries, entry, places[entry.category]);
      }
      hide WithEntries;
      entries := entries + [entry];
      day' := day;
      if entry.unassigned {
        unassigned := unassigned + entry.amount;
        return;
      }
      var spent := entry.actual.GetOr(0);
      planned := planned + entry.amount;
      actual := actual + spent;
      if entry.category in places {
        var at := places[entry.category];
        categories := WithCategory(categories, at, entry);
      }
      if day.Some? {
        day' := Some(DayTotal(day.value.dayId, day.value.planned + entry.amount, day.value.actual + spent));
      }
    }

    method AddStops(stops: seq<Stop>, activity: Item, day: Option<DayTotal>) returns (day': Option<DayTotal>)
      requires Valid()
      modifies this
      ensures Valid() && entries == old(entries) + StopEntries(stops, activity, trip)
      ensures day' == WithEntries(day, StopEntries(stops, activity, trip))
      ensures unchanged(`stays, `transfers, `untied, `days)
    {
      hide OfStop;
      hide Valid;
      NoMore(day);
      hide WithEntries;
      day' := day;
      for index := 0 to |stops|
        invariant Valid() && entries == old(entries) + StopEntries(stops[..index], activity, trip)
        invariant day' == WithEntries(day, StopEntries(stops[..index], activity, trip))
        invariant unchanged(`stays, `transfers, `untied, `days)
      {
        assert stops[..index + 1][..index] == stops[..index];
        var entry := OfStop(stops[index], activity, trip);
        WithMore(day, StopEntries(stops[..index], activity, trip), Listed(entry));
        if entry.Some? {
          day' := AddEntry(entry.value, day');
        } else {
          assert StopEntries(stops[..index], activity, trip) + Listed(entry)
              == StopEntries(stops[..index], activity, trip);
        }
      }
      assert stops[..|stops|] == stops;
    }

    method AddItems(items: seq<Item>, tracks: seq<Track>, day: Option<DayTotal>) returns (day': Option<DayTotal>)
      requires Valid()
      modifies this
      ensures Valid() && entries == old(entries) + ItemEntries(items, tracks, trip)
      ensures day' == WithEntries(day, ItemEntries(items, tracks, trip))
      ensures unchanged(`stays, `transfers, `untied, `days)
    {
      hide OfPlace;
      hide Valid;
      hide StopEntries;
      NoMore(day);
      hide WithEntries;
      day' := day;
      for index := 0 to |items|
        invariant Valid() && entries == old(entries) + ItemEntries(items[..index], tracks, trip)
        invariant day' == WithEntries(day, ItemEntries(items[..index], tracks, trip))
        invariant unchanged(`stays, `transfers, `untied, `days)
      {
        assert items[..index + 1][..index] == items[..index];
        ghost var before := ItemEntries(items[..index], tracks, trip);
        var entry := OfPlace(items[index], trip);
        ghost var stops := StopEntries(StopsOf(tracks, items[index].id), items[index], trip);
        WithMore(day, before, Listed(entry));
        WithMore(day, before + Listed(entry), stops);
        if entry.Some? {
          day' := AddEntry(entry.value, day');
        } else {
          assert before + Listed(entry) == before;
        }
        assert entries == old(entries) + (before + Listed(entry));
        day' := AddStops(StopsOf(tracks, items[index].id), items[index], day');
      }
      assert items[..|items|] == items;
    }

    method AddLegs(legs: seq<Option<Leg>>, dayId: Option<Id>, day: Option<DayTotal>) returns (day': Option<DayTotal>)
      requires Valid()
      modifies this
      ensures Valid() && entries == old(entries) + LegEntries(legs, dayId, trip)
      ensures day' == WithEntries(day, LegEntries(legs, dayId, trip))
      ensures unchanged(`stays, `transfers, `untied, `days)
    {
      hide OfLeg;
      hide Valid;
      NoMore(day);
      hide WithEntries;
      day' := day;
      for index := 0 to |legs|
        invariant Valid() && entries == old(entries) + LegEntries(legs[..index], dayId, trip)
        invariant day' == WithEntries(day, LegEntries(legs[..index], dayId, trip))
        invariant unchanged(`stays, `transfers, `untied, `days)
      {
        assert legs[..index + 1][..index] == legs[..index];
        var entry := OfLeg(legs[index], dayId, trip);
        WithMore(day, LegEntries(legs[..index], dayId, trip), Listed(entry));
        if entry.Some? {
          day' := AddEntry(entry.value, day');
        } else {
          assert LegEntries(legs[..index], dayId, trip) + Listed(entry) == LegEntries(legs[..index], dayId, trip);
        }
      }
      assert legs[..|legs|] == legs;
    }

    method AddExpenses(expenses: seq<Expense>, day: Option<DayTotal>) returns (day': Option<DayTotal>)
      requires Valid()
      modifies this
      ensures Valid() && entries == old(entries) + ExpenseEntries(expenses, trip)
      ensures day' == WithEntries(day, ExpenseEntries(expenses, trip))
      ensures unchanged(`stays, `transfers, `untied, `days)
    {
      hide OfExpense;
      hide Valid;
      NoMore(day);
      hide WithEntries;
      day' := day;
      for index := 0 to |expenses|
        invariant Valid() && entries == old(entries) + ExpenseEntries(expenses[..index], trip)
        invariant day' == WithEntries(day, ExpenseEntries(expenses[..index], trip))
        invariant unchanged(`stays, `transfers, `untied, `days)
      {
        assert expenses[..index + 1][..index] == expenses[..index];
        var entry := OfExpense(expenses[index], trip);
        WithMore(day, ExpenseEntries(expenses[..index], trip), Listed(entry));
        if entry.Some? {
          day' := AddEntry(entry.value, day');
        } else {
          assert ExpenseEntries(expenses[..index], trip) + Listed(entry) == ExpenseEntries(expenses[..index], trip);
        }
      }
      assert expenses[..|expenses|] == expenses;
    }

    method AddStays(list: seq<Stay>)
      requires Valid()
      modifies this
      ensures Valid() && entries == old(entries) + StayEntries(list, trip)
      ensures stays == old(stays) + Counted(StayEntries(list, trip), false)
      ensures unchanged(`transfers, `untied, `days)
    {
      hide Counted;
      NothingCounted();
      hide Valid;
      hide OfStay;
      hide OfTransfer;
      hide OfExpense;
      for index := 0 to |list|
        invariant Valid() && entries == old(entries) + StayEntries(list[..index], trip)
        invariant stays == old(stays) + Counted(StayEntries(list[..index], trip), false)
        invariant unchanged(`transfers, `untied, `days)
      {
        assert list[..index + 1][..index] == list[..index];
        var entry := OfStay(list[index], trip);
        CountedMore(StayEntries(list[..index], trip), entry);
        if entry.None? {
          continue;
        }
        StayCountsInFull(list[index], trip);
        var _ := AddEntry(entry.value, None);
        stays := stays + entry.value.amount;
      }
      assert list[..|list|] == list;
    }

    method AddTransfers(list: seq<Transfer>)
      requires Valid()
      modifies this
      ensures Valid() && entries == old(entries) + TransferEntries(list, trip)
      ensures transfers == old(transfers) + Counted(TransferEntries(list, trip), false)
      ensures unchanged(`stays, `untied, `days)
    {
      hide Counted;
      NothingCounted();
      hide Valid;
      hide OfStay;
      hide OfTransfer;
      hide OfExpense;
      for index := 0 to |list|
        invariant Valid() && entries == old(entries) + TransferEntries(list[..index], trip)
        invariant transfers == old(transfers) + Counted(TransferEntries(list[..index], trip), false)
        invariant unchanged(`stays, `untied, `days)
      {
        assert list[..index + 1][..index] == list[..index];
        var entry := OfTransfer(list[index], trip);
        CountedMore(TransferEntries(list[..index], trip), entry);
        if entry.None? {
          continue;
        }
        TransferCountsInFull(list[index], trip);
        var _ := AddEntry(entry.value, None);
        transfers := transfers + entry.value.amount;
      }
      assert list[..|list|] == list;
    }

    method AddUntied(list: seq<Expense>)
      requires Valid()
      modifies this
      ensures Valid() && entries == old(entries) + ExpenseEntries(list, trip)
      ensures untied == old(untied) + Counted(ExpenseEntries(list, trip), false)
      ensures unchanged(`stays, `transfers, `days)
    {
      hide Counted;
      NothingCounted();
      hide Valid;
      hide OfStay;
      hide OfTransfer;
      hide OfExpense;
      for index := 0 to |list|
        invariant Valid() && entries == old(entries) + ExpenseEntries(list[..index], trip)
        invariant untied == old(untied) + Counted(ExpenseEntries(list[..index], trip), false)
        invariant unchanged(`stays, `transfers, `days)
      {
        assert list[..index + 1][..index] == list[..index];
        var entry := OfExpense(list[index], trip);
        CountedMore(ExpenseEntries(list[..index], trip), entry);
        if entry.None? {
          continue;
        }
        ExpenseCountsInFull(list[index], trip);
        var _ := AddEntry(entry.value, None);
        untied := untied + entry.value.amount;
      }
      assert list[..|list|] == list;
    }

    /** A day with its places, legs and expenses. */
    method AddDay(c: Content, k: nat)
      requires Valid() && k < |c.days|
      modifies this
      ensures Valid() && entries == old(entries) + DayEntries(c, k, trip)
      ensures days == old(days) + [DayTotalOf(c, k, trip)]
      ensures unchanged(`stays, `transfers, `untied)
    {
      hide *;
      var dayId := Some(c.days[k].id);
      var items := ListDayItems(c.items, dayId);
      var total := Some(DayTotal(c.days[k].id, 0, 0));
      DayStepByStep(c, k, trip, items);
      total := AddItems(items, c.tracks, total);
      var opening := OpeningLeg(c.legs, items);
      var between := DayLegs(c.legs, items);
      total := AddLegs([opening] + between, dayId, total);
      total := AddExpenses(DayExpenses(c.expenses, dayId), total);
      days := days + [total.value];
    }
  }

  /** What the k-th day comes to. */
  function DayTotalOf(c: Content, k: nat, trip: Trip): DayTotal
    requires k < |c.days|
  {
    DayTotal(c.days[k].id, Counted(DayEntries(c, k, trip), false), Counted(DayEntries(c, k, trip), true))
  }

  lemma {:induction false} DayStepByStep(c: Content, k: nat, trip: Trip, items: seq<Item>)
    requires k < |c.days| && items == DayItems(c.items, Some(c.days[k].id))
    ensures var dayId := Some(c.days[k].id);
            var ofItems := ItemEntries(items, c.tracks, trip);
            var ofLegs := LegEntries([Opening(c.legs, items)] + Between(c.legs, items), dayId, trip);
            var ofExpenses := ExpenseEntries(DayExpenses(c.expenses, dayId), trip);
            && DayEntries(c, k, trip) == ofItems + ofLegs + ofExpenses
            && WithEntries(WithEntries(WithEntries(Some(DayTotal(c.days[k].id, 0, 0)), ofItems), ofLegs), ofExpenses)
               == Some(DayTotalOf(c, k, trip))
  {
    var dayId := Some(c.days[k].id);
    var ofItems := ItemEntries(items, c.tracks, trip);
    var ofLegs := LegEntries([Opening(c.legs, items)] + Between(c.legs, items), dayId, trip);
    var ofExpenses := ExpenseEntries(DayExpenses(c.expenses, dayId), trip);
    assert DayEntries(c, k, trip) == ofItems + ofLegs + ofExpenses;
    var zero := Some(DayTotal(c.days[k].id, 0, 0));
    hide DayEntries;
    hide Counted;
    hide ItemEntries;
    hide LegEntries;
    hide ExpenseEntries;
    WithMore(zero, ofItems, ofLegs);
    WithMore(zero, ofItems + ofLegs, ofExpenses);
  }

  method BuildBudget(report: bool, travelers: int, c: Content) returns (budget: Budget)
    ensures fresh(budget) && budget.trip == Trip(report, Max(travelers, 1))
    ensures budget.Valid() && budget.entries == AllEntries(c, budget.trip)
    ensures |budget.days| == |c.days|
    ensures forall k :: 0 <= k < |c.days| ==> budget.days[k] == DayTotalOf(c, k, budget.trip)
    ensures budget.stays == Counted(StayEntries(c.stays, budget.trip), false)
    ensures budget.transfers == Counted(TransferEntries(c.transfers, budget.trip), false)
    ensures budget.untied == Counted(UntiedEntries(c, budget.trip), false)
  {
    hide DayTotalOf;
    hide DayEntries;
    hide Counted;
    budget := new Budget(report, travelers);
    hide Budget.Valid;
    for k := 0 to |c.days|
      invariant budget.Valid() && budget.entries == DaysEntries(c, k, budget.trip)
      invariant |budget.days| == k && forall i :: 0 <= i < k ==> budget.days[i] == DayTotalOf(c, i, budget.trip)
      invariant budget.stays == budget.transfers == budget.untied == 0
    {
      budget.AddDay(c, k);
    }
    budget.AddStays(c.stays);
    budget.AddTransfers(c.transfers);
    budget.AddUntied(DayExpenses(c.expenses, None));
    var unassigned := ListDayItems(c.items, None);
    var _ := budget.AddItems(unassigned, c.tracks, None);
  }
}
