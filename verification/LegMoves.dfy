/**
 Moving or renaming elements without reordering them: the days still need the same pairs,
 and every leg of a pair is kept (ReconcileLegs in backend/internal/domain/leg.go).
 */
module LegMoves {
  import opened Common
  import opened Polyline
  import opened Document
  import opened LegInput
  import opened LegFold
  import opened Reconcile
  import opened LegSync
  import opened LegFixpoint
  import opened LegReaders
  import opened LegJobs

  // ------------------------------------------------------------- the same needs

  /** An element under its own or another name, wherever it is. */
  predicate SamePlace(name: Id -> Id, a: Item, b: Item) {
    b.id == name(a.id) && a.position == b.position && a.kind == b.kind && a.anchor == b.anchor
  }

  predicate SamePlaces(name: Id -> Id, a: seq<Item>, b: seq<Item>) {
    |a| == |b| && forall i :: 0 <= i < |a| ==> SamePlace(name, a[i], b[i])
  }

  /** The same elements belong to two days. */
  predicate SameDay(a: seq<Item>, b: seq<Item>, x: Option<Id>, y: Option<Id>) {
    |a| == |b| && forall i :: 0 <= i < |a| ==> (a[i].dayId == x <==> b[i].dayId == y)
  }

  predicate SameOption(name: Id -> Id, a: Option<Item>, b: Option<Item>) {
    if a.Some? then b.Some? && SamePlace(name, a.value, b.value) else b.None?
  }

  /** The same days with the same elements, in the same order. */
  predicate SameOrder(day: Id -> Id, name: Id -> Id, c: Content, d: Content) {
    && SamePlaces(name, c.items, d.items) && |c.days| == |d.days|
    && forall k :: 0 <= k < |c.days| ==>
         && d.days[k].id == day(c.days[k].id)
         && SameDay(c.items, d.items, Some(c.days[k].id), Some(d.days[k].id))
  }

  lemma {:induction false} PlacesSame(name: Id -> Id, a: seq<Item>, b: seq<Item>, x: Option<Id>, y: Option<Id>)
    requires SamePlaces(name, a, b) && SameDay(a, b, x, y)
    ensures SamePlaces(name, Places(a, x), Places(b, y))
  {
    if a != [] {
      PlacesSame(name, a[1..], b[1..], x, y);
    }
  }

  lemma {:induction false} MarkSame(name: Id -> Id, a: seq<Item>, b: seq<Item>, x: Option<Id>, y: Option<Id>,
                                    morning: bool)
    requires SamePlaces(name, a, b) && SameDay(a, b, x, y)
    ensures SameOption(name, Mark(a, x, morning), Mark(b, y, morning))
  {
    if a != [] {
      MarkSame(name, a[..|a| - 1], b[..|b| - 1], x, y, morning);
    }
  }

  lemma {:induction false} InsertSame(name: Id -> Id, a: seq<Item>, b: seq<Item>, x: Item, y: Item)
    requires SamePlaces(name, a, b) && SamePlace(name, x, y)
    ensures SamePlaces(name, InsertBy(a, x, PositionOf), InsertBy(b, y, PositionOf))
  {
    if a != [] {
      InsertSame(name, a[..|a| - 1], b[..|b| - 1], x, y);
    }
  }

  lemma {:induction false} SortSame(name: Id -> Id, a: seq<Item>, b: seq<Item>)
    requires SamePlaces(name, a, b)
    ensures SamePlaces(name, StableSort(a, PositionOf), StableSort(b, PositionOf))
  {
    if a != [] {
      SortSame(name, a[..|a| - 1], b[..|b| - 1]);
      InsertSame(name, StableSort(a[..|a| - 1], PositionOf), StableSort(b[..|b| - 1], PositionOf), a[|a| - 1],
                 b[|b| - 1]);
    }
  }

  lemma DayItemsSame(name: Id -> Id, a: seq<Item>, b: seq<Item>, x: Option<Id>, y: Option<Id>)
    requires SamePlaces(name, a, b) && SameDay(a, b, x, y)
    ensures SamePlaces(name, DayItems(a, x), DayItems(b, y))
  {
    hide Mark;
    hide Places;
    hide StableSort;
    PlacesSame(name, a, b, x, y);
    SortSame(name, Places(a, x), Places(b, y));
    MarkSame(name, a, b, x, y, true);
    MarkSame(name, a, b, x, y, false);
  }

  predicate SameNeed(day: Id -> Id, name: Id -> Id, a: Need, b: Need) {
    b.day.id == day(a.day.id) && SamePlace(name, a.from, b.from) && SamePlace(name, a.to, b.to)
  }

  predicate SameNeeds(day: Id -> Id, name: Id -> Id, a: seq<Need>, b: seq<Need>) {
    |a| == |b| && forall i :: 0 <= i < |a| ==> SameNeed(day, name, a[i], b[i])
  }

  lemma {:induction false} DayNeedsSame(day: Id -> Id, name: Id -> Id, x: Day, y: Day, a: seq<Item>, b: seq<Item>,
                                        p: Option<Item>, q: Option<Item>)
    requires SamePlaces(name, a, b) && SameOption(name, p, q) && a != [] && y.id == day(x.id)
    ensures SameNeeds(day, name, DayNeeds(x, a, p), DayNeeds(y, b, q))
  {
    InnerNeedsAre(x, a, |a|);
    InnerNeedsAre(y, b, |b|);
    hide InnerNeeds;
    assert SameNeeds(day, name, OpeningNeed(x, a, p), OpeningNeed(y, b, q));
    forall i | 0 <= i < |a| - 1 ensures SameNeed(day, name, InnerNeeds(x, a, |a|)[i], InnerNeeds(y, b, |b|)[i]) {
      assert SamePlace(name, a[i], b[i]) && SamePlace(name, a[i + 1], b[i + 1]);
    }
  }

  lemma {:induction false} NeedsFromSame(day: Id -> Id, name: Id -> Id, c: Content, d: Content, k: nat, p: Option<Item>,
                                         q: Option<Item>)
    requires SameOrder(day, name, c, d) && SameOption(name, p, q) && k <= |c.days|
    ensures SameNeeds(day, name, NeedsFrom(c, k, p), NeedsFrom(d, k, q))
    decreases |c.days| - k
  {
    hide DayItems;
    hide DayNeeds;
    if k < |c.days| {
      var x, y := Some(c.days[k].id), Some(d.days[k].id);
      var a, b := DayItems(c.items, x), DayItems(d.items, y);
      DayItemsSame(name, c.items, d.items, x, y);
      if a == [] {
        NeedsFromSame(day, name, c, d, k + 1, p, q);
      } else {
        DayNeedsSame(day, name, c.days[k], d.days[k], a, b, p, q);
        NeedsFromSame(day, name, c, d, k + 1, Some(a[|a| - 1]), Some(b[|b| - 1]));
      }
    }
  }

  /** The days need the same pairs wherever their elements are and however they are named. */
  lemma NeedsSame(day: Id -> Id, name: Id -> Id, c: Content, d: Content)
    requires SameOrder(day, name, c, d)
    ensures SameNeeds(day, name, Needs(c), Needs(d))
  {
    NeedsFromSame(day, name, c, d, 0, None, None);
  }

  // ------------------------------------------------------------- two ends

  lemma {:induction false} PreviousDay(c: Content, k: nat)
    requires k <= |c.days| && Previous(c, k).Some?
    ensures Previous(c, k).value in c.items
    ensures exists d :: 0 <= d < k && Previous(c, k).value.dayId == Some(c.days[d].id)
  {
    hide DayItems;
    if ItemsOf(c, k - 1) == [] {
      PreviousDay(c, k - 1);
    } else {
      DayItemsMembers(c.items, Some(c.days[k - 1].id));
    }
  }

  lemma {:induction false} DayNeedEnds(day: Day, items: seq<Item>, previous: Option<Item>, need: Need)
    requires items != [] && need in DayNeeds(day, items, previous) && DistinctItems(items)
    ensures need.to in items && (previous == Some(need.from) || need.from.id != need.to.id)
  {
    InnerNeedsAre(day, items, |items|);
    var inner := InnerNeeds(day, items, |items|);
    if need in inner {
      var i :| 0 <= i < |inner| && inner[i] == need;
      assert inner[i] == Need(day, items[i], items[i + 1]);
    }
  }

  /** A leg never leads from an element to itself. */
  lemma TwoEnds(c: Content, need: Need)
    requires DistinctItems(c.items) && DistinctDays(c.days) && need in Needs(c)
    ensures need.from.id != need.to.id
  {
    hide DayItems;
    hide DayNeeds;
    hide Needs;
    NeedsSplit(c, |c.days|);
    assert NeedsFrom(c, |c.days|, Previous(c, |c.days|)) == [];
    var k := NeedOwner(c, |c.days|, need);
    DayItemsDistinct(c.items, Some(c.days[k].id));
    DayNeedEnds(c.days[k], ItemsOf(c, k), Previous(c, k), need);
    if Previous(c, k) == Some(need.from) {
      PreviousDay(c, k);
      UniqueId(c.items);
    }
  }

  // ------------------------------------------------------------- what is kept

  /** The row of a pair that is needed, and has no other row, stays. */
  lemma Survives(c: Content, rows: seq<Leg>, ids: nat -> Id, r: nat, need: Need) returns (i: nat)
    requires r < |rows| && need in Needs(c) && Serves(rows[r], need) && DistinctPairs(rows) && DistinctLegs(rows)
    ensures i < |Synced(rows, Plan(c, Read(rows), ids))|
    ensures Synced(rows, Plan(c, Read(rows), ids))[i] == SyncRow(rows[r], Plan(c, Read(rows), ids))
  {
    hide Needs;
    hide Folded;
    hide FindLeg;
    hide SyncRow;
    hide Deletes;
    hide Creates;
    hide Resets;
    hide PartResets;
    hide KeptIds;
    var legs, plan := Read(rows), Plan(c, Read(rows), ids);
    ReadPairs(rows);
    FindsOnly(legs, r, need);
    KeptIdsAre(legs, Needs(c));
    DeletesAre(legs, KeptIds(legs, Needs(c)));
    assert legs[r].id in KeptIds(legs, Needs(c));
    i := SyncedRowFor(rows, plan, r);
  }

  /** What a needed pair asks for is what a leg joining it asks for now. */
  lemma NeedInputIs(c: Content, need: Need, leg: Leg)
    requires DistinctItems(c.items) && need in Needs(c) && Serves(leg, need)
    ensures NeedInput(c, need, leg.mode, leg.Route())
         == Input(leg.mode, StartOf(c, leg), EndOf(c, leg), leg.Route())
  {
    hide Needs;
    hide Input;
    hide LegStart;
    hide LegEnd;
    NeedItems(c, need);
    FoundItem(c.items, need.from);
    FoundItem(c.items, need.to);
  }

  /** A leg travelled one way that has the input it asks for keeps what it holds. */
  lemma CurrentKept(c: Content, rows: seq<Leg>, ids: nat -> Id, r: nat, need: Need)
    requires DistinctItems(c.items) && DistinctDays(c.days)
    requires r < |rows| && need in Needs(c) && Serves(rows[r], need) && DistinctPairs(rows) && DistinctLegs(rows)
    requires !rows[r].Composite()
    requires rows[r].input == Input(rows[r].mode, StartOf(c, rows[r]), EndOf(c, rows[r]), rows[r].Route())
    ensures SyncRow(rows[r], Plan(c, Read(rows), ids))
         == rows[r].(segments := SyncParts(rows[r].segments, Plan(c, Read(rows), ids)))
  {
    hide Needs;
    hide Folded;
    hide FindLeg;
    hide Creates;
    hide Resets;
    hide PartResets;
    hide Deletes;
    hide KeptIds;
    hide Input;
    hide NeedInput;
    var legs, needs := Read(rows), Needs(c);
    ReadPairs(rows);
    ReadDistinct(rows);
    FoldKeepsIdentity(rows[r]);
    FindsOnly(legs, r, need);
    NeedsAre(c);
    NeedInputIs(c, need, rows[r]);
    var k :| 0 <= k < |needs| && needs[k] == need;
    assert needs[..|needs|] == needs;
    ResetFor(c, legs, needs, |needs|, k);
  }

  lemma ReadPairs(rows: seq<Leg>)
    ensures DistinctPairs(Read(rows)) <==> DistinctPairs(rows)
    ensures forall j, need :: 0 <= j < |rows| ==> (Serves(Read(rows)[j], need) <==> Serves(rows[j], need))
    ensures forall j :: 0 <= j < |rows| ==> Read(rows)[j].id == rows[j].id
  {
    hide Folded;
    forall j | 0 <= j < |rows|
      ensures Read(rows)[j].id == rows[j].id && Read(rows)[j].dayId == rows[j].dayId
      ensures Read(rows)[j].fromItemId == rows[j].fromItemId && Read(rows)[j].toItemId == rows[j].toItemId
    {
      FoldKeepsIdentity(rows[j]);
    }
  }
}
