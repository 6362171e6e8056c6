/**
 The list of a budget and the document it lists: where every line of it comes from, that nothing
 with a cost is missing, and in which order the lines stand (BuildBudget and the entry builders in
 backend/internal/domain/budget.go).
 */
module BudgetSources {
  import opened Common
  import opened Document
  import opened LegReaders
  import opened Budget
  import opened BudgetTotals
  import opened Report
  import Schedule

  // ------------------------------------------------------------- where a line comes from

  /** The entry tells an amount for the group: what one pays, as many times as it is paid. */
  predicate TellsAmount(entry: Entry, unit: Option<Money>, actual: Option<Money>, perPerson: bool, trip: Trip) {
    var times := if perPerson && trip.travelers > 1 then trip.travelers else 1;
    && entry.unit == unit.GetOr(0) && entry.perPerson == perPerson && entry.amount == entry.unit * times
    && entry.actual == (if trip.report && actual.Some? then Some(actual.value * times) else None)
    && (unit.Some? || entry.actual.Some?)
  }

  predicate TellsCost(entry: Entry, cost: Document.Cost, activity: Item, trip: Trip) {
    && TellsAmount(entry, cost.planned, cost.actual, cost.perPerson, trip) && entry.category == cost.category
    && entry.dayId == activity.dayId && entry.unassigned == (activity.dayId == None)
    && entry.isOptional == activity.isOptional
  }

  predicate TellsWhole(entry: Entry, unit: Option<Money>, actual: Option<Money>, perPerson: bool, dayId: Option<Id>,
                       trip: Trip)
  {
    && TellsAmount(entry, unit, actual, perPerson, trip)
    && entry.dayId == dayId && !entry.unassigned && !entry.isOptional
  }

  /** The place, stop, stay, transfer, leg or expense an entry is the entry of. */
  ghost predicate Stands(c: Content, trip: Trip, entry: Entry) {
    match entry.kind
    case PlaceEntry =>
      exists item :: item in c.items && item.kind.IsVisit() && entry.id == item.id
                     && TellsCost(entry, item.cost, item, trip)
    case StopEntry =>
      exists item, stop :: item in c.items && stop in StopsOf(c.tracks, item.id) && entry.id == stop.id
                           && TellsCost(entry, stop.cost, item, trip)
    case StayEntry =>
      exists stay :: stay in c.stays && entry.id == stay.id && entry.category == Accommodation
                     && TellsWhole(entry, stay.plannedCost, stay.actualCost, false, None, trip)
    case TransferEntry =>
      exists transfer :: transfer in c.transfers && entry.id == transfer.id && entry.category == Transport
                         && TellsWhole(entry, transfer.plannedCost, transfer.actualCost, transfer.costPerPerson, None,
                                       trip)
    case LegEntry =>
      exists k, leg :: 0 <= k < |c.days| && leg in DayReads(c, c.legs, k) && entry.id == leg.id
                       && entry.category == Transport
                       && TellsWhole(entry, leg.plannedCost, leg.actualCost, false, Some(c.days[k].id), trip)
    case ExpenseEntry =>
      exists expense :: expense in c.expenses && entry.id == expense.id && entry.category == expense.category
                        && TellsWhole(entry, expense.planned, expense.actual, false, expense.dayId, trip)
  }

  ghost predicate AllStand(c: Content, trip: Trip, entries: seq<Entry>) {
    forall entry :: entry in entries ==> Stands(c, trip, entry)
  }

  lemma StopStands(c: Content, stop: Stop, item: Item, trip: Trip)
    requires item in c.items && stop in StopsOf(c.tracks, item.id)
    ensures AllStand(c, trip, Listed(OfStop(stop, item, trip)))
  {
    hide StopsOf;
  }

  lemma {:induction false} StopsStand(c: Content, stops: seq<Stop>, item: Item, trip: Trip)
    requires item in c.items && forall stop :: stop in stops ==> stop in StopsOf(c.tracks, item.id)
    ensures AllStand(c, trip, StopEntries(stops, item, trip))
  {
    hide Stands;
    hide OfStop;
    if stops != [] {
      StopsStand(c, stops[..|stops| - 1], item, trip);
      StopStands(c, stops[|stops| - 1], item, trip);
    }
  }

  lemma PlaceStands(c: Content, item: Item, trip: Trip)
    requires item in c.items
    ensures AllStand(c, trip, Listed(OfPlace(item, trip)))
  {
  }

  lemma {:induction false} ItemsStand(c: Content, items: seq<Item>, trip: Trip)
    requires forall item :: item in items ==> item in c.items
    ensures AllStand(c, trip, ItemEntries(items, c.tracks, trip))
  {
    hide Stands;
    hide OfPlace;
    hide StopEntries;
    if items != [] {
      ItemsStand(c, items[..|items| - 1], trip);
      PlaceStands(c, items[|items| - 1], trip);
      StopsStand(c, StopsOf(c.tracks, items[|items| - 1].id), items[|items| - 1], trip);
    }
  }

  lemma {:induction false} InKnown(legs: seq<Option<Leg>>, leg: Leg)
    ensures leg in Known(legs) <==> Some(leg) in legs
  {
    if legs != [] {
      InKnown(legs[1..], leg);
    }
  }

  lemma LegStands(c: Content, k: nat, leg: Option<Leg>, trip: Trip)
    requires k < |c.days| && leg in LegsRead(c, k)
    ensures AllStand(c, trip, Listed(OfLeg(leg, Some(c.days[k].id), trip)))
  {
    hide DayItems;
    hide Opening;
    hide Between;
    if leg.Some? {
      InKnown(LegsRead(c, k), leg.value);
      assert leg.value in DayReads(c, c.legs, k);
    }
  }

  lemma {:induction false} LegsStand(c: Content, k: nat, legs: seq<Option<Leg>>, trip: Trip)
    requires k < |c.days| && forall leg :: leg in legs ==> leg in LegsRead(c, k)
    ensures AllStand(c, trip, LegEntries(legs, Some(c.days[k].id), trip))
  {
    hide Stands;
    hide OfLeg;
    hide LegsRead;
    if legs != [] {
      LegsStand(c, k, legs[..|legs| - 1], trip);
      LegStands(c, k, legs[|legs| - 1], trip);
    }
  }

  lemma ExpenseStands(c: Content, expense: Expense, trip: Trip)
    requires expense in c.expenses
    ensures AllStand(c, trip, Listed(OfExpense(expense, trip)))
  {
  }

  lemma {:induction false} ExpensesStand(c: Content, expenses: seq<Expense>, trip: Trip)
    requires forall expense :: expense in expenses ==> expense in c.expenses
    ensures AllStand(c, trip, ExpenseEntries(expenses, trip))
  {
    hide Stands;
    hide OfExpense;
    if expenses != [] {
      ExpensesStand(c, expenses[..|expenses| - 1], trip);
      ExpenseStands(c, expenses[|expenses| - 1], trip);
    }
  }

  lemma {:induction false} InExpenses(expenses: seq<Expense>, dayId: Option<Id>)
    ensures forall expense :: expense in DayExpenses(expenses, dayId) <==> expense in expenses && expense.dayId == dayId
  {
    if expenses != [] {
      InExpenses(expenses[1..], dayId);
    }
  }

  lemma StayStands(c: Content, stay: Stay, trip: Trip)
    requires stay in c.stays
    ensures AllStand(c, trip, Listed(OfStay(stay, trip)))
  {
  }

  lemma {:induction false} StaysStand(c: Content, stays: seq<Stay>, trip: Trip)
    requires forall stay :: stay in stays ==> stay in c.stays
    ensures AllStand(c, trip, StayEntries(stays, trip))
  {
    hide Stands;
    hide OfStay;
    if stays != [] {
      StaysStand(c, stays[..|stays| - 1], trip);
      StayStands(c, stays[|stays| - 1], trip);
    }
  }

  lemma TransferStands(c: Content, transfer: Transfer, trip: Trip)
    requires transfer in c.transfers
    ensures AllStand(c, trip, Listed(OfTransfer(transfer, trip)))
  {
  }

  lemma {:induction false} TransfersStand(c: Content, transfers: seq<Transfer>, trip: Trip)
    requires forall transfer :: transfer in transfers ==> transfer in c.transfers
    ensures AllStand(c, trip, TransferEntries(transfers, trip))
  {
    hide Stands;
    hide OfTransfer;
    if transfers != [] {
      TransfersStand(c, transfers[..|transfers| - 1], trip);
      TransferStands(c, transfers[|transfers| - 1], trip);
    }
  }

  lemma {:induction false} DayStands(c: Content, k: nat, trip: Trip)
    requires k < |c.days|
    ensures AllStand(c, trip, DayEntries(c, k, trip))
  {
    hide Stands;
    hide DayItems;
    hide LegsRead;
    hide ItemEntries;
    hide LegEntries;
    hide ExpenseEntries;
    hide DayExpenses;
    var day := Some(c.days[k].id);
    DayItemsMembers(c.items, day);
    ItemsStand(c, ItemsOf(c, k), trip);
    LegsStand(c, k, LegsRead(c, k), trip);
    InExpenses(c.expenses, day);
    ExpensesStand(c, DayExpenses(c.expenses, day), trip);
  }

  lemma {:induction false} DaysStand(c: Content, n: nat, trip: Trip)
    requires n <= |c.days|
    ensures AllStand(c, trip, DaysEntries(c, n, trip))
  {
    hide Stands;
    hide DayEntries;
    if n > 0 {
      DaysStand(c, n - 1, trip);
      DayStands(c, n - 1, trip);
    }
  }

  /** Every line of the budget is the line of one thing in the document that has a cost to
      show: it names it, has its day and its category, and tells what it costs one and all. */
  lemma {:induction false} EntriesStand(c: Content, trip: Trip)
    ensures AllStand(c, trip, AllEntries(c, trip))
  {
    hide Stands;
    hide DayItems;
    hide DaysEntries;
    hide StayEntries;
    hide TransferEntries;
    hide ExpenseEntries;
    hide ItemEntries;
    DaysStand(c, |c.days|, trip);
    StaysStand(c, c.stays, trip);
    TransfersStand(c, c.transfers, trip);
    InExpenses(c.expenses, None);
    ExpensesStand(c, DayExpenses(c.expenses, None), trip);
    DayItemsMembers(c.items, None);
    ItemsStand(c, DayItems(c.items, None), trip);
  }

  // ------------------------------------------------------------- nothing is missing

  /** There is something to show: a plan, or in a report what was spent. */
  predicate Costs(planned: Option<Money>, actual: Option<Money>, trip: Trip) {
    planned.Some? || (trip.report && actual.Some?)
  }

  /** The list has a line of something. */
  predicate Shows(entries: seq<Entry>, kind: EntryKind, id: Id) {
    exists i :: 0 <= i < |entries| && entries[i].kind == kind && entries[i].id == id
  }

  lemma ShowsBeside(a: seq<Entry>, b: seq<Entry>, kind: EntryKind, id: Id)
    ensures Shows(a + b, kind, id) <==> Shows(a, kind, id) || Shows(b, kind, id)
  {
    assert forall i :: 0 <= i < |a| ==> (a + b)[i] == a[i];
    assert forall i :: 0 <= i < |b| ==> (a + b)[|a| + i] == b[i];
  }

  lemma {:induction false} StopShown(stops: seq<Stop>, activity: Item, trip: Trip, stop: Stop)
    requires stop in stops && Costs(stop.cost.planned, stop.cost.actual, trip)
    ensures Shows(StopEntries(stops, activity, trip), StopEntry, stop.id)
  {
    var front, last := stops[..|stops| - 1], stops[|stops| - 1];
    var before := StopEntries(front, activity, trip);
    if last == stop {
      assert Listed(OfStop(stop, activity, trip))[0].id == stop.id;
    } else {
      StopShown(front, activity, trip, stop);
    }
    ShowsBeside(before, Listed(OfStop(last, activity, trip)), StopEntry, stop.id);
  }

  lemma {:induction false} ItemShown(items: seq<Item>, tracks: seq<Track>, trip: Trip, item: Item)
    requires item in items
    ensures item.kind != StayAnchor && Costs(item.cost.planned, item.cost.actual, trip) ==>
              Shows(ItemEntries(items, tracks, trip), PlaceEntry, item.id)
    ensures forall stop :: stop in StopsOf(tracks, item.id) && Costs(stop.cost.planned, stop.cost.actual, trip) ==>
              Shows(ItemEntries(items, tracks, trip), StopEntry, stop.id)
  {
    hide StopsOf;
    hide Shows;
    hide Costs;
    var front, last := items[..|items| - 1], items[|items| - 1];
    var before, place := ItemEntries(front, tracks, trip), Listed(OfPlace(last, trip));
    var stops := StopEntries(StopsOf(tracks, last.id), last, trip);
    ShowsBeside(before + place, stops, PlaceEntry, item.id);
    ShowsBeside(before, place, PlaceEntry, item.id);
    if last == item {
      PlaceShown(item, trip);
    } else {
      ItemShown(front, tracks, trip, item);
    }
    forall stop | stop in StopsOf(tracks, item.id) && Costs(stop.cost.planned, stop.cost.actual, trip)
      ensures Shows(ItemEntries(items, tracks, trip), StopEntry, stop.id)
    {
      ShowsBeside(before + place, stops, StopEntry, stop.id);
      ShowsBeside(before, place, StopEntry, stop.id);
      if last == item {
        StopShown(StopsOf(tracks, item.id), item, trip, stop);
      }
    }
  }

  lemma PlaceShown(item: Item, trip: Trip)
    ensures item.kind != StayAnchor && Costs(item.cost.planned, item.cost.actual, trip) ==>
              Shows(Listed(OfPlace(item, trip)), PlaceEntry, item.id)
  {
    assert OfPlace(item, trip).Some? ==> Listed(OfPlace(item, trip))[0] == OfPlace(item, trip).value;
  }

  lemma {:induction false} LegShown(legs: seq<Option<Leg>>, dayId: Option<Id>, trip: Trip, leg: Leg)
    requires Some(leg) in legs && Costs(leg.plannedCost, leg.actualCost, trip)
    ensures Shows(LegEntries(legs, dayId, trip), LegEntry, leg.id)
  {
    var front, last := legs[..|legs| - 1], legs[|legs| - 1];
    if last == Some(leg) {
      assert Listed(OfLeg(last, dayId, trip))[0].id == leg.id;
    } else {
      LegShown(front, dayId, trip, leg);
    }
    ShowsBeside(LegEntries(front, dayId, trip), Listed(OfLeg(last, dayId, trip)), LegEntry, leg.id);
  }

  lemma {:induction false} ExpenseShown(expenses: seq<Expense>, trip: Trip, expense: Expense)
    requires expense in expenses && Costs(expense.planned, expense.actual, trip)
    ensures Shows(ExpenseEntries(expenses, trip), ExpenseEntry, expense.id)
  {
    var front, last := expenses[..|expenses| - 1], expenses[|expenses| - 1];
    if last == expense {
      assert Listed(OfExpense(last, trip))[0].id == expense.id;
    } else {
      ExpenseShown(front, trip, expense);
    }
    ShowsBeside(ExpenseEntries(front, trip), Listed(OfExpense(last, trip)), ExpenseEntry, expense.id);
  }

  lemma {:induction false} StayShown(stays: seq<Stay>, trip: Trip, stay: Stay)
    requires stay in stays && Costs(stay.plannedCost, stay.actualCost, trip)
    ensures Shows(StayEntries(stays, trip), StayEntry, stay.id)
  {
    var front, last := stays[..|stays| - 1], stays[|stays| - 1];
    if last == stay {
      assert Listed(OfStay(last, trip))[0].id == stay.id;
    } else {
      StayShown(front, trip, stay);
    }
    ShowsBeside(StayEntries(front, trip), Listed(OfStay(last, trip)), StayEntry, stay.id);
  }

  lemma {:induction false} TransferShown(transfers: seq<Transfer>, trip: Trip, transfer: Transfer)
    requires transfer in transfers && Costs(transfer.plannedCost, transfer.actualCost, trip)
    ensures Shows(TransferEntries(transfers, trip), TransferEntry, transfer.id)
  {
    var front, last := transfers[..|transfers| - 1], transfers[|transfers| - 1];
    if last == transfer {
      assert Listed(OfTransfer(last, trip))[0].id == transfer.id;
    } else {
      TransferShown(front, trip, transfer);
    }
    ShowsBeside(TransferEntries(front, trip), Listed(OfTransfer(last, trip)), TransferEntry, transfer.id);
  }

  lemma {:induction false} DayShown(c: Content, n: nat, k: nat, trip: Trip, kind: EntryKind, id: Id)
    requires k < n <= |c.days| && Shows(DayEntries(c, k, trip), kind, id)
    ensures Shows(DaysEntries(c, n, trip), kind, id)
  {
    hide DayEntries;
    hide Shows;
    ShowsBeside(DaysEntries(c, n - 1, trip), DayEntries(c, n - 1, trip), kind, id);
    if k < n - 1 {
      DayShown(c, n - 1, k, trip, kind, id);
    }
  }

  /** What a part of the list shows the whole list shows. */
  lemma PartShown(c: Content, trip: Trip, kind: EntryKind, id: Id)
    ensures Shows(AllEntries(c, trip), kind, id) <==>
              || Shows(DaysEntries(c, |c.days|, trip), kind, id) || Shows(StayEntries(c.stays, trip), kind, id)
              || Shows(TransferEntries(c.transfers, trip), kind, id) || Shows(UntiedEntries(c, trip), kind, id)
              || Shows(UnassignedEntries(c, trip), kind, id)
  {
    hide Shows;
    var days, stays := DaysEntries(c, |c.days|, trip), StayEntries(c.stays, trip);
    var transfers, untied := TransferEntries(c.transfers, trip), UntiedEntries(c, trip);
    ShowsBeside(days + stays + transfers + untied, UnassignedEntries(c, trip), kind, id);
    ShowsBeside(days + stays + transfers, untied, kind, id);
    ShowsBeside(days + stays, transfers, kind, id);
    ShowsBeside(days, stays, kind, id);
  }

  lemma DayPartShown(c: Content, k: nat, trip: Trip, kind: EntryKind, id: Id)
    requires k < |c.days|
    ensures Shows(DayEntries(c, k, trip), kind, id) <==>
              || Shows(ItemEntries(ItemsOf(c, k), c.tracks, trip), kind, id)
              || Shows(LegEntries(LegsRead(c, k), Some(c.days[k].id), trip), kind, id)
              || Shows(ExpenseEntries(DayExpenses(c.expenses, Some(c.days[k].id)), trip), kind, id)
  {
    hide Shows;
    hide DayItems;
    var items := ItemEntries(ItemsOf(c, k), c.tracks, trip);
    var legs := LegEntries(LegsRead(c, k), Some(c.days[k].id), trip);
    ShowsBeside(items + legs, ExpenseEntries(DayExpenses(c.expenses, Some(c.days[k].id)), trip), kind, id);
    ShowsBeside(items, legs, kind, id);
  }

  /** A place, an activity or a stop with a cost has a line, whether it is on a day or waits for one. */
  lemma PlacesShown(c: Content, trip: Trip, item: Item)
    requires item in c.items && item.kind != StayAnchor
    requires item.dayId.Some? ==> OneOf(c.days, |c.days|, item.dayId)
    ensures Costs(item.cost.planned, item.cost.actual, trip) ==> Shows(AllEntries(c, trip), PlaceEntry, item.id)
    ensures forall stop :: stop in StopsOf(c.tracks, item.id) && Costs(stop.cost.planned, stop.cost.actual, trip) ==>
              Shows(AllEntries(c, trip), StopEntry, stop.id)
  {
    hide Shows;
    hide Costs;
    hide DayItems;
    hide AllEntries;
    hide DayEntries;
    hide StopsOf;
    DayItemsMembers(c.items, item.dayId);
    ItemShown(DayItems(c.items, item.dayId), c.tracks, trip, item);
    forall kind, id | Shows(ItemEntries(DayItems(c.items, item.dayId), c.tracks, trip), kind, id)
      ensures Shows(AllEntries(c, trip), kind, id)
    {
      PartShown(c, trip, kind, id);
      if item.dayId.Some? {
        var k :| 0 <= k < |c.days| && item.dayId == Some(c.days[k].id);
        DayPartShown(c, k, trip, kind, id);
        DayShown(c, |c.days|, k, trip, kind, id);
      }
    }
  }

  /** So have legs that are read for a day, and every stay, transfer and expense. */
  lemma OthersShown(c: Content, trip: Trip)
    ensures forall leg :: leg in Reads(c, c.legs, |c.days|) && Costs(leg.plannedCost, leg.actualCost, trip) ==>
              Shows(AllEntries(c, trip), LegEntry, leg.id)
    ensures forall stay :: stay in c.stays && Costs(stay.plannedCost, stay.actualCost, trip) ==>
              Shows(AllEntries(c, trip), StayEntry, stay.id)
    ensures forall transfer :: transfer in c.transfers && Costs(transfer.plannedCost, transfer.actualCost, trip) ==>
              Shows(AllEntries(c, trip), TransferEntry, transfer.id)
    ensures forall expense ::
              expense in c.expenses && Costs(expense.planned, expense.actual, trip)
              && (expense.dayId == None || OneOf(c.days, |c.days|, expense.dayId)) ==>
                Shows(AllEntries(c, trip), ExpenseEntry, expense.id)
  {
    hide Shows;
    hide Costs;
    hide AllEntries;
    hide Reads;
    hide OneOf;
    forall leg | leg in Reads(c, c.legs, |c.days|) && Costs(leg.plannedCost, leg.actualCost, trip)
      ensures Shows(AllEntries(c, trip), LegEntry, leg.id)
    {
      var k := ReadOn(c, |c.days|, leg);
      LegOnDayShown(c, k, trip, leg);
    }
    forall stay | stay in c.stays && Costs(stay.plannedCost, stay.actualCost, trip)
      ensures Shows(AllEntries(c, trip), StayEntry, stay.id)
    {
      StayShown(c.stays, trip, stay);
      PartShown(c, trip, StayEntry, stay.id);
    }
    forall transfer | transfer in c.transfers && Costs(transfer.plannedCost, transfer.actualCost, trip)
      ensures Shows(AllEntries(c, trip), TransferEntry, transfer.id)
    {
      TransferShown(c.transfers, trip, transfer);
      PartShown(c, trip, TransferEntry, transfer.id);
    }
    forall expense | expense in c.expenses && Costs(expense.planned, expense.actual, trip)
                     && (expense.dayId == None || OneOf(c.days, |c.days|, expense.dayId))
      ensures Shows(AllEntries(c, trip), ExpenseEntry, expense.id)
    {
      AnExpenseShown(c, trip, expense);
    }
  }

  lemma {:induction false} ReadOn(c: Content, n: nat, leg: Leg) returns (k: nat)
    requires n <= |c.days| && leg in Reads(c, c.legs, n)
    ensures k < n && leg in DayReads(c, c.legs, k)
  {
    hide DayReads;
    if leg in DayReads(c, c.legs, n - 1) {
      k := n - 1;
    } else {
      k := ReadOn(c, n - 1, leg);
    }
  }

  lemma LegOnDayShown(c: Content, k: nat, trip: Trip, leg: Leg)
    requires k < |c.days| && leg in DayReads(c, c.legs, k) && Costs(leg.plannedCost, leg.actualCost, trip)
    ensures Shows(AllEntries(c, trip), LegEntry, leg.id)
  {
    hide Shows;
    hide DayItems;
    hide Opening;
    hide Between;
    hide AllEntries;
    InKnown(LegsRead(c, k), leg);
    LegShown(LegsRead(c, k), Some(c.days[k].id), trip, leg);
    DayPartShown(c, k, trip, LegEntry, leg.id);
    DayShown(c, |c.days|, k, trip, LegEntry, leg.id);
    PartShown(c, trip, LegEntry, leg.id);
  }

  lemma AnExpenseShown(c: Content, trip: Trip, expense: Expense)
    requires expense in c.expenses && Costs(expense.planned, expense.actual, trip)
    requires expense.dayId == None || OneOf(c.days, |c.days|, expense.dayId)
    ensures Shows(AllEntries(c, trip), ExpenseEntry, expense.id)
  {
    hide Shows;
    hide DayItems;
    hide AllEntries;
    hide DayEntries;
    InExpenses(c.expenses, expense.dayId);
    ExpenseShown(DayExpenses(c.expenses, expense.dayId), trip, expense);
    PartShown(c, trip, ExpenseEntry, expense.id);
    if expense.dayId.Some? {
      var k :| 0 <= k < |c.days| && expense.dayId == Some(c.days[k].id);
      DayPartShown(c, k, trip, ExpenseEntry, expense.id);
      DayShown(c, |c.days|, k, trip, ExpenseEntry, expense.id);
    }
  }

  // ------------------------------------------------------------- the order of the list

  /** The days come first, then stays, transfers, what belongs to the whole trip, and last what waits
      for a day. */
  function Part(entry: Entry): nat {
    if entry.unassigned then 4
    else if entry.dayId.Some? then 0
    else if entry.kind == StayEntry then 1
    else if entry.kind == TransferEntry then 2
    else 3
  }

  /** On a day its places come first, with their stops, then the legs, then its own expenses. */
  function Rank(entry: Entry): nat {
    match entry.kind
    case PlaceEntry => 0
    case StopEntry => 0
    case LegEntry => 1
    case _ => 2
  }

  ghost predicate AllIn(entries: seq<Entry>, part: nat) {
    forall i :: 0 <= i < |entries| ==> Part(entries[i]) == part
  }

  ghost predicate OfDay(entries: seq<Entry>, dayId: Id, lowest: nat, highest: nat) {
    forall i :: 0 <= i < |entries| ==>
      !entries[i].unassigned && entries[i].dayId == Some(dayId) && lowest <= Rank(entries[i]) <= highest
  }

  lemma {:induction false} StopsIn(stops: seq<Stop>, activity: Item, trip: Trip)
    ensures forall i :: 0 <= i < |StopEntries(stops, activity, trip)| ==>
              var entry := StopEntries(stops, activity, trip)[i];
              entry.kind == StopEntry && entry.dayId == activity.dayId && entry.unassigned == (activity.dayId == None)
  {
    if stops != [] {
      StopsIn(stops[..|stops| - 1], activity, trip);
    }
  }

  lemma PlaceIn(item: Item, trip: Trip)
    ensures forall i :: 0 <= i < |Listed(OfPlace(item, trip))| ==>
              var entry := Listed(OfPlace(item, trip))[i];
              entry.kind == PlaceEntry && entry.dayId == item.dayId && entry.unassigned == (item.dayId == None)
  {
  }

  /** Lines of places and stops that are all on one day, or on none. */
  ghost predicate Placed(entries: seq<Entry>, dayId: Option<Id>) {
    forall i :: 0 <= i < |entries| ==>
      (entries[i].kind == PlaceEntry || entries[i].kind == StopEntry) && entries[i].dayId == dayId
      && entries[i].unassigned == (dayId == None)
  }

  lemma {:induction false} ItemsPlaced(items: seq<Item>, tracks: seq<Track>, trip: Trip, dayId: Option<Id>)
    requires forall item :: item in items ==> item.dayId == dayId
    ensures Placed(ItemEntries(items, tracks, trip), dayId)
  {
    hide StopEntries;
    hide OfPlace;
    hide Listed;
    if items != [] {
      var item := items[|items| - 1];
      ItemsPlaced(items[..|items| - 1], tracks, trip, dayId);
      PlaceIn(item, trip);
      StopsIn(StopsOf(tracks, item.id), item, trip);
    }
  }

  lemma {:induction false} ItemsIn(items: seq<Item>, tracks: seq<Track>, trip: Trip, dayId: Option<Id>)
    requires forall item :: item in items ==> item.dayId == dayId
    ensures dayId == None ==> AllIn(ItemEntries(items, tracks, trip), 4)
    ensures dayId.Some? ==> OfDay(ItemEntries(items, tracks, trip), dayId.value, 0, 0)
  {
    hide ItemEntries;
    ItemsPlaced(items, tracks, trip, dayId);
  }

  lemma {:induction false} LegsIn(legs: seq<Option<Leg>>, dayId: Id, trip: Trip)
    ensures OfDay(LegEntries(legs, Some(dayId), trip), dayId, 1, 1)
  {
    if legs != [] {
      LegsIn(legs[..|legs| - 1], dayId, trip);
    }
  }

  lemma {:induction false} ExpensesIn(expenses: seq<Expense>, dayId: Option<Id>, trip: Trip)
    requires forall expense :: expense in expenses ==> expense.dayId == dayId
    ensures dayId == None ==> AllIn(ExpenseEntries(expenses, trip), 3)
    ensures dayId.Some? ==> OfDay(ExpenseEntries(expenses, trip), dayId.value, 2, 2)
  {
    if expenses != [] {
      ExpensesIn(expenses[..|expenses| - 1], dayId, trip);
    }
  }

  lemma {:induction false} StaysIn(stays: seq<Stay>, trip: Trip)
    ensures AllIn(StayEntries(stays, trip), 1)
  {
    if stays != [] {
      StaysIn(stays[..|stays| - 1], trip);
    }
  }

  lemma {:induction false} TransfersIn(transfers: seq<Transfer>, trip: Trip)
    ensures AllIn(TransferEntries(transfers, trip), 2)
  {
    if transfers != [] {
      TransfersIn(transfers[..|transfers| - 1], trip);
    }
  }

  /** The i-th line is on the k-th day. */
  predicate OnDayOf(c: Content, entry: Entry, k: int) {
    0 <= k < |c.days| && !entry.unassigned && entry.dayId == Some(c.days[k].id)
  }

  ghost predicate OnEarlier(c: Content, entry: Entry, n: int) {
    exists k :: k < n && OnDayOf(c, entry, k)
  }

  /** Two lines of days stand in the order of their days, and on one day of their ranks. */
  ghost predicate InDayOrder(c: Content, one: Entry, other: Entry) {
    exists a, b :: OnDayOf(c, one, a) && OnDayOf(c, other, b) && (a < b || (a == b && Rank(one) <= Rank(other)))
  }

  lemma {:induction false} DayInOrder(c: Content, k: nat, trip: Trip)
    requires k < |c.days|
    ensures var entries := DayEntries(c, k, trip);
            && (forall i :: 0 <= i < |entries| ==> OnDayOf(c, entries[i], k))
            && forall i, j :: 0 <= i < j < |entries| ==> Rank(entries[i]) <= Rank(entries[j])
  {
    hide DayItems;
    hide ItemEntries;
    hide LegEntries;
    hide ExpenseEntries;
    hide LegsRead;
    var day := c.days[k].id;
    DayItemsMembers(c.items, Some(day));
    ItemsIn(ItemsOf(c, k), c.tracks, trip, Some(day));
    LegsIn(LegsRead(c, k), day, trip);
    InExpenses(c.expenses, Some(day));
    ExpensesIn(DayExpenses(c.expenses, Some(day)), Some(day), trip);
  }

  lemma SameDayOrder(c: Content, one: Entry, other: Entry, k: nat)
    requires OnDayOf(c, one, k) && OnDayOf(c, other, k) && Rank(one) <= Rank(other)
    ensures InDayOrder(c, one, other)
  {
  }

  lemma EarlierDay(c: Content, one: Entry, other: Entry, k: nat)
    requires OnEarlier(c, one, k) && OnDayOf(c, other, k)
    ensures InDayOrder(c, one, other)
  {
  }

  /** Lines of the first n days, in their order. */
  ghost predicate InDaysOrder(c: Content, entries: seq<Entry>, n: int) {
    && (forall i :: 0 <= i < |entries| ==> OnEarlier(c, entries[i], n))
    && forall i, j :: 0 <= i < j < |entries| ==> InDayOrder(c, entries[i], entries[j])
  }

  lemma {:induction false} DaysInOrder(c: Content, n: nat, trip: Trip)
    requires n <= |c.days|
    ensures InDaysOrder(c, DaysEntries(c, n, trip), n)
  {
    hide DayEntries;
    hide OnDayOf;
    hide InDayOrder;
    hide Rank;
    if n > 0 {
      var before, day := DaysEntries(c, n - 1, trip), DayEntries(c, n - 1, trip);
      var entries := DaysEntries(c, n, trip);
      DaysInOrder(c, n - 1, trip);
      DayInOrder(c, n - 1, trip);
      assert forall i :: 0 <= i < |entries| ==> entries[i] == if i < |before| then before[i] else day[i - |before|];
      forall i, j | 0 <= i < j < |entries| ensures InDayOrder(c, entries[i], entries[j]) {
        if i >= |before| {
          SameDayOrder(c, entries[i], entries[j], n - 1);
        } else if j >= |before| {
          EarlierDay(c, entries[i], entries[j], n - 1);
        }
      }
    }
  }

  lemma DayPart(c: Content, entry: Entry, n: int)
    requires OnEarlier(c, entry, n)
    ensures Part(entry) == 0
  {
  }

  lemma PartsBeside(a: seq<Entry>, b: seq<Entry>, highest: nat, part: nat)
    requires forall i, j :: 0 <= i < j < |a| ==> Part(a[i]) <= Part(a[j])
    requires (forall i :: 0 <= i < |a| ==> Part(a[i]) <= highest) && AllIn(b, part) && highest <= part
    ensures forall i, j :: 0 <= i < j < |a + b| ==> Part((a + b)[i]) <= Part((a + b)[j])
    ensures forall i :: 0 <= i < |a + b| ==> Part((a + b)[i]) <= part
  {
    hide Part;
  }

  /** The lines stand in the order of the budget: day by day, each with its places, legs and own
      expenses; then stays, transfers, the expenses of the whole trip and what waits for a day. */
  lemma EntriesInOrder(c: Content, trip: Trip)
    ensures var entries, days := AllEntries(c, trip), |DaysEntries(c, |c.days|, trip)|;
            && days <= |entries| && (forall i :: 0 <= i < |entries| ==> (Part(entries[i]) == 0 <==> i < days))
            && (forall i, j :: 0 <= i < j < |entries| ==> Part(entries[i]) <= Part(entries[j]))
            && InDaysOrder(c, entries[..days], |c.days|)
  {
    hide DaysEntries;
    hide StayEntries;
    hide TransferEntries;
    hide ExpenseEntries;
    hide ItemEntries;
    hide DayItems;
    hide InDayOrder;
    hide Rank;
    var days, stays := DaysEntries(c, |c.days|, trip), StayEntries(c.stays, trip);
    var transfers, untied := TransferEntries(c.transfers, trip), UntiedEntries(c, trip);
    var unassigned := UnassignedEntries(c, trip);
    DaysInOrder(c, |c.days|, trip);
    forall i | 0 <= i < |days| ensures Part(days[i]) == 0 {
      DayPart(c, days[i], |c.days|);
    }
    StaysIn(c.stays, trip);
    TransfersIn(c.transfers, trip);
    InExpenses(c.expenses, None);
    ExpensesIn(DayExpenses(c.expenses, None), None, trip);
    DayItemsMembers(c.items, None);
    ItemsIn(DayItems(c.items, None), c.tracks, trip, None);
    PartsBeside(days, stays, 0, 1);
    PartsBeside(days + stays, transfers, 1, 2);
    PartsBeside(days + stays + transfers, untied, 2, 3);
    PartsBeside(days + stays + transfers + untied, unassigned, 3, 4);
    var entries := AllEntries(c, trip);
    assert entries == days + (stays + transfers + untied + unassigned);
    assert entries[..|days|] == days;
    LaterParts(stays, transfers, untied, unassigned);
  }

  lemma LaterParts(stays: seq<Entry>, transfers: seq<Entry>, untied: seq<Entry>, unassigned: seq<Entry>)
    requires AllIn(stays, 1) && AllIn(transfers, 2) && AllIn(untied, 3) && AllIn(unassigned, 4)
    ensures var rest := stays + transfers + untied + unassigned;
            forall i :: 0 <= i < |rest| ==> Part(rest[i]) > 0
  {
    hide Part;
  }
}
