/**
 Adding sections to a packing list (PackingList.Merge in
 backend/internal/domain/packing.go). Names are compared in any case; any equivalence of
 names stands for that.
 */
module Packing {
  import opened Common

  type Same = (string, string) -> bool

  ghost predicate Equivalence(same: Same) {
    && (forall a :: same(a, a))
    && (forall a, b :: same(a, b) ==> same(b, a))
    && (forall a, b, c :: same(a, b) && same(b, c) ==> same(a, c))
  }

  /** How many colours the palette has. */
  const PALETTE: nat := 19

  datatype Category = Category(id: Id, tripId: Id, name: string, color: Option<nat>, icon: Option<nat>, position: int)

  datatype Item = Item(id: Id, tripId: Id, categoryId: Option<Id>, name: string, quantity: int, position: int)

  datatype Section = Section(category: Category, items: seq<Item>)

  datatype List = List(categories: seq<Category>, items: seq<Item>)

  function DefaultColor(count: nat): nat {
    count % PALETTE
  }

  /** The first category of a name. */
  function Found(same: Same, categories: seq<Category>, name: string): Option<Category> {
    if categories == [] then None
    else if same(categories[0].name, name) then Some(categories[0])
    else Found(same, categories[1..], name)
  }

  /** The place behind everything a category holds. */
  function EndOf(items: seq<Item>, categoryId: Id): int {
    if items == [] then 0
    else
      var last := items[|items| - 1];
      if last.categoryId == Some(categoryId) then Max(EndOf(items[..|items| - 1], categoryId), last.position + 1)
      else EndOf(items[..|items| - 1], categoryId)
  }

  /** Whether a category holds a thing of that name. */
  predicate Taken(same: Same, items: seq<Item>, categoryId: Id, name: string) {
    exists i :: 0 <= i < |items| && items[i].categoryId == Some(categoryId) && same(items[i].name, name)
  }

  function WithItem(same: Same, items: seq<Item>, category: Category, item: Item): seq<Item> {
    if Taken(same, items, category.id, item.name) then items
    else
      items + [item.(tripId := category.tripId, categoryId := Some(category.id), position := EndOf(items, category.id))]
  }

  function WithItems(same: Same, items: seq<Item>, category: Category, more: seq<Item>): seq<Item> {
    if more == [] then items
    else WithItem(same, WithItems(same, items, category, more[..|more| - 1]), category, more[|more| - 1])
  }

  /** A category as it joins a list, at its end and with a colour. */
  function Placed(category: Category, count: nat): Category {
    category.(position := count, color := if category.color == None then Some(DefaultColor(count)) else category.color)
  }

  function WithSection(same: Same, list: List, section: Section): List {
    match Found(same, list.categories, section.category.name)
    case Some(category) => List(list.categories, WithItems(same, list.items, category, section.items))
    case None =>
      var category := Placed(section.category, |list.categories|);
      List(list.categories + [category], WithItems(same, list.items, category, section.items))
  }

  /** The list once the sections are added. */
  function With(same: Same, list: List, sections: seq<Section>): List {
    if sections == [] then list
    else WithSection(same, With(same, list, sections[..|sections| - 1]), sections[|sections| - 1])
  }

  method FindCategory(same: Same, categories: seq<Category>, name: string) returns (found: Option<Category>)
    ensures found == Found(same, categories, name)
  {
    for k := 0 to |categories|
      invariant Found(same, categories[k..], name) == Found(same, categories, name)
    {
      assert categories[k..][1..] == categories[k + 1..];
      if same(categories[k].name, name) {
        return Some(categories[k]);
      }
    }
    return None;
  }

  /** Looks through a category for its end and for a name. */
  method Survey(same: Same, items: seq<Item>, categoryId: Id, name: string) returns (position: int, taken: bool)
    ensures position == EndOf(items, categoryId) && taken == Taken(same, items, categoryId, name)
  {
    position, taken := 0, false;
    for k := 0 to |items|
      invariant position == EndOf(items[..k], categoryId)
      invariant taken == Taken(same, items[..k], categoryId, name)
    {
      assert items[..k + 1][..k] == items[..k];
      assert Taken(same, items[..k + 1], categoryId, name)
        <==> Taken(same, items[..k], categoryId, name)
             || (items[k].categoryId == Some(categoryId) && same(items[k].name, name)) by {
        if Taken(same, items[..k], categoryId, name) {
          var i :| 0 <= i < k && items[i].categoryId == Some(categoryId) && same(items[i].name, name);
          assert items[..k + 1][i] == items[i];
        }
        assert items[..k + 1][k] == items[k];
      }
      if items[k].categoryId != Some(categoryId) {
        continue;
      }
      position := Max(position, items[k].position + 1);
      taken := taken || same(items[k].name, name);
    }
    assert items[..|items|] == items;
  }

  /** Adds the things of a section to its category, those that are not there yet. */
  method MergeItems(same: Same, items: seq<Item>, category: Category, more: seq<Item>) returns (newItems: seq<Item>)
    ensures items + newItems == WithItems(same, items, category, more)
  {
    hide Taken;
    hide EndOf;
    newItems := [];
    assert items + [] == items;
    for k := 0 to |more|
      invariant items + newItems == WithItems(same, items, category, more[..k])
    {
      assert more[..k + 1][..k] == more[..k];
      var item := more[k];
      var position, taken := Survey(same, items + newItems, category.id, item.name);
      if taken {
        continue;
      }
      item := item.(tripId := category.tripId, categoryId := Some(category.id), position := position);
      assert items + newItems + [item] == items + (newItems + [item]);
      newItems := newItems + [item];
    }
    assert more[..|more|] == more;
  }

  /** What adding sections brings into the list: the categories and the things to create. */
  method Merge(same: Same, list: List, sections: seq<Section>)
    returns (newCategories: seq<Category>, newItems: seq<Item>)
    ensures List(list.categories + newCategories, list.items + newItems) == With(same, list, sections)
  {
    hide Found;
    hide WithItems;
    var categories, items := list.categories, list.items;
    newCategories, newItems := [], [];
    for k := 0 to |sections|
      invariant categories == list.categories + newCategories && items == list.items + newItems
      invariant List(categories, items) == With(same, list, sections[..k])
    {
      var section := sections[k];
      assert sections[..k + 1][..k] == sections[..k];
      var found := FindCategory(same, categories, section.category.name);
      var category := section.category;
      if found.Some? {
        category := found.value;
      } else {
        category := category.(position := |categories|);
        if category.color == None {
          category := category.(color := Some(DefaultColor(|categories|)));
        }
        categories := categories + [category];
        newCategories := newCategories + [category];
      }
      var more := MergeItems(same, items, category, section.items);
      items := items + more;
      newItems := newItems + more;
    }
    assert sections[..|sections|] == sections;
  }

  // ------------------------------------------------------------- what an addition promises

  /** Adding two lists of sections at once is adding them one after the other. */
  lemma {:induction false} OneAfterTheOther(same: Same, list: List, one: seq<Section>, two: seq<Section>)
    ensures With(same, list, one + two) == With(same, With(same, list, one), two)
  {
    if two == [] {
      assert one + two == one;
    } else {
      assert (one + two)[..|one + two| - 1] == one + two[..|two| - 1];
      OneAfterTheOther(same, list, one, two[..|two| - 1]);
    }
  }

  /** A later list holds everything an earlier one does, where it was. */
  predicate Extends(list: List, later: List) {
    list.categories <= later.categories && list.items <= later.items
  }

  lemma {:induction false} ItemsExtend(same: Same, items: seq<Item>, category: Category, more: seq<Item>)
    ensures items <= WithItems(same, items, category, more)
  {
    if more != [] {
      ItemsExtend(same, items, category, more[..|more| - 1]);
    }
  }

  /** Nothing in the list is changed or moved. */
  lemma {:induction false} ListExtends(same: Same, list: List, sections: seq<Section>)
    ensures Extends(list, With(same, list, sections))
  {
    if sections != [] {
      hide Found;
      var front, last := With(same, list, sections[..|sections| - 1]), sections[|sections| - 1];
      ListExtends(same, list, sections[..|sections| - 1]);
      var found := Found(same, front.categories, last.category.name);
      ItemsExtend(same, front.items, found.GetOr(Placed(last.category, |front.categories|)), last.items);
    }
  }

  /** The list has a category of the section's name with a thing of every name in it. */
  predicate Holds(same: Same, list: List, section: Section) {
    var found := Found(same, list.categories, section.category.name);
    found.Some? && forall item :: item in section.items ==> Taken(same, list.items, found.value.id, item.name)
  }

  lemma TakenLater(same: Same, items: seq<Item>, later: seq<Item>, categoryId: Id, name: string)
    requires items <= later && Taken(same, items, categoryId, name)
    ensures Taken(same, later, categoryId, name)
  {
    var i :| 0 <= i < |items| && items[i].categoryId == Some(categoryId) && same(items[i].name, name);
    assert later[i] == items[i];
  }

  lemma {:induction false} FoundLater(same: Same, categories: seq<Category>, later: seq<Category>, name: string)
    requires categories <= later && Found(same, categories, name).Some?
    ensures Found(same, later, name) == Found(same, categories, name)
  {
    if !same(categories[0].name, name) {
      FoundLater(same, categories[1..], later[1..], name);
    }
  }

  lemma {:induction false} FoundAtEnd(same: Same, categories: seq<Category>, category: Category, name: string)
    requires Found(same, categories, name) == None && same(category.name, name)
    ensures Found(same, categories + [category], name) == Some(category)
  {
    if categories != [] {
      assert (categories + [category])[1..] == categories[1..] + [category];
      FoundAtEnd(same, categories[1..], category, name);
    }
  }

  lemma HoldsLater(same: Same, list: List, later: List, section: Section)
    requires Extends(list, later) && Holds(same, list, section)
    ensures Holds(same, later, section)
  {
    hide Taken;
    var found := Found(same, list.categories, section.category.name);
    FoundLater(same, list.categories, later.categories, section.category.name);
    forall item | item in section.items ensures Taken(same, later.items, found.value.id, item.name) {
      TakenLater(same, list.items, later.items, found.value.id, item.name);
    }
  }

  lemma {:induction false} ItemsTaken(same: Same, items: seq<Item>, category: Category, more: seq<Item>)
    requires Equivalence(same)
    ensures forall item :: item in more ==> Taken(same, WithItems(same, items, category, more), category.id, item.name)
  {
    if more != [] {
      var front, last := more[..|more| - 1], more[|more| - 1];
      var before, after := WithItems(same, items, category, front), WithItems(same, items, category, more);
      ItemsTaken(same, items, category, front);
      forall item | item in more ensures Taken(same, after, category.id, item.name) {
        if item in front {
          TakenLater(same, before, after, category.id, item.name);
        } else {
          assert item == last;
          if !Taken(same, before, category.id, last.name) {
            assert after[|before|].name == last.name;
          }
        }
      }
    }
  }

  lemma SectionHeld(same: Same, list: List, section: Section)
    requires Equivalence(same)
    ensures Holds(same, WithSection(same, list, section), section)
  {
    hide Taken;
    hide WithItems;
    var found := Found(same, list.categories, section.category.name);
    if found.None? {
      FoundAtEnd(same, list.categories, Placed(section.category, |list.categories|), section.category.name);
    }
    ItemsTaken(same, list.items, found.GetOr(Placed(section.category, |list.categories|)), section.items);
  }

  /** Everything the sections name is in the list once they are added. */
  lemma {:induction false} AllHeld(same: Same, list: List, sections: seq<Section>)
    requires Equivalence(same)
    ensures forall section :: section in sections ==> Holds(same, With(same, list, sections), section)
  {
    if sections != [] {
      hide Holds;
      hide WithSection;
      var front, last := sections[..|sections| - 1], sections[|sections| - 1];
      AllHeld(same, list, front);
      SectionHeld(same, With(same, list, front), last);
      SectionExtends(same, With(same, list, front), last);
      forall section | section in sections ensures Holds(same, With(same, list, sections), section) {
        if section in front {
          HoldsLater(same, With(same, list, front), With(same, list, sections), section);
        }
      }
    }
  }

  lemma SectionExtends(same: Same, list: List, section: Section)
    ensures Extends(list, WithSection(same, list, section))
  {
    ListExtends(same, list, [section]);
    assert [section][..0] == [];
  }

  lemma {:induction false} NoItemsAdded(same: Same, items: seq<Item>, category: Category, more: seq<Item>)
    ensures WithItems(same, items, category, more) == items
       <==> forall item :: item in more ==> Taken(same, items, category.id, item.name)
  {
    if more != [] {
      hide Taken;
      var front, last := more[..|more| - 1], more[|more| - 1];
      NoItemsAdded(same, items, category, front);
      ItemsExtend(same, items, category, front);
      assert forall item :: item in more <==> item in front || item == last;
    }
  }

  /** A section adds nothing exactly when the list holds all of it already. */
  lemma NothingNew(same: Same, list: List, section: Section)
    ensures WithSection(same, list, section) == list <==> Holds(same, list, section)
  {
    hide Taken;
    hide Found;
    hide WithItems;
    var found := Found(same, list.categories, section.category.name);
    if found.Some? {
      NoItemsAdded(same, list.items, found.value, section.items);
    } else {
      assert |WithSection(same, list, section).categories| == |list.categories| + 1;
    }
  }

  /** The same sections up to the case of their names, whatever identifiers they carry. */
  ghost predicate Alike(same: Same, one: Section, other: Section) {
    && same(one.category.name, other.category.name) && |one.items| == |other.items|
    && forall i :: 0 <= i < |one.items| ==> same(one.items[i].name, other.items[i].name)
  }

  lemma {:induction false} FoundAlike(same: Same, categories: seq<Category>, one: string, other: string)
    requires Equivalence(same) && same(one, other)
    ensures Found(same, categories, one) == Found(same, categories, other)
  {
    if categories != [] {
      FoundAlike(same, categories[1..], one, other);
    }
  }

  lemma HoldsAlike(same: Same, list: List, one: Section, other: Section)
    requires Equivalence(same) && Holds(same, list, one) && Alike(same, one, other)
    ensures Holds(same, list, other)
  {
    FoundAlike(same, list.categories, one.category.name, other.category.name);
    var categoryId := Found(same, list.categories, one.category.name).value.id;
    forall item | item in other.items ensures Taken(same, list.items, categoryId, item.name) {
      var i :| 0 <= i < |other.items| && other.items[i] == item;
      assert one.items[i] in one.items;
      var j :| 0 <= j < |list.items| && list.items[j].categoryId == Some(categoryId)
               && same(list.items[j].name, one.items[i].name);
    }
  }

  lemma {:induction false} AddsNothing(same: Same, list: List, sections: seq<Section>)
    requires forall section :: section in sections ==> Holds(same, list, section)
    ensures With(same, list, sections) == list
  {
    if sections != [] {
      hide Holds;
      hide WithSection;
      AddsNothing(same, list, sections[..|sections| - 1]);
      NothingNew(same, list, sections[|sections| - 1]);
    }
  }

  /** Adding a template a second time adds nothing, even though its sections bring new
      identifiers and may be written in another case. */
  lemma {:induction false} TwiceAddsNothing(same: Same, list: List, sections: seq<Section>, again: seq<Section>)
    requires Equivalence(same) && |again| == |sections|
    requires forall i :: 0 <= i < |sections| ==> Alike(same, sections[i], again[i])
    ensures With(same, With(same, list, sections), again) == With(same, list, sections)
  {
    hide Holds;
    hide With;
    hide Equivalence;
    AllHeld(same, list, sections);
    var merged := With(same, list, sections);
    forall section | section in again ensures Holds(same, merged, section) {
      var i :| 0 <= i < |again| && again[i] == section;
      HoldsAlike(same, merged, sections[i], section);
    }
    AddsNothing(same, merged, again);
  }

  // ------------------------------------------------------------- what new rows look like

  /** A thing that is new repeats no name of its category and comes after all it held. */
  ghost predicate NewItemFits(same: Same, items: seq<Item>, k: nat)
    requires k < |items|
  {
    items[k].categoryId.Some?
    && forall i :: 0 <= i < k && items[i].categoryId == items[k].categoryId ==>
         !same(items[i].name, items[k].name) && items[i].position < items[k].position
  }

  lemma {:induction false} EndIsBehind(items: seq<Item>, categoryId: Id, i: nat)
    requires i < |items| && items[i].categoryId == Some(categoryId)
    ensures items[i].position < EndOf(items, categoryId)
  {
    if i < |items| - 1 {
      EndIsBehind(items[..|items| - 1], categoryId, i);
    }
  }

  lemma {:induction false} ItemsFit(same: Same, items: seq<Item>, category: Category, more: seq<Item>)
    ensures var after := WithItems(same, items, category, more);
            forall k :: |items| <= k < |after| ==> NewItemFits(same, after, k)
  {
    if more != [] {
      var before, after := WithItems(same, items, category, more[..|more| - 1]), WithItems(same, items, category, more);
      ItemsFit(same, items, category, more[..|more| - 1]);
      ItemsExtend(same, items, category, more[..|more| - 1]);
      forall k | |items| <= k < |after| ensures NewItemFits(same, after, k) {
        if k < |before| {
          assert NewItemFits(same, before, k);
        } else {
          forall i | 0 <= i < k && after[i].categoryId == after[k].categoryId
            ensures !same(after[i].name, after[k].name) && after[i].position < after[k].position
          {
            assert before[i] == after[i];
            EndIsBehind(before, category.id, i);
          }
        }
      }
    }
  }

  /** No addition repeats a thing within its category, nor a category: whatever the list
      held, everything new differs by name from all before it, comes after what its
      category held, and a new category takes the next place and a colour. */
  lemma {:induction false} NewRowsFit(same: Same, list: List, sections: seq<Section>)
    ensures var after := With(same, list, sections);
            && |list.items| <= |after.items| && |list.categories| <= |after.categories|
            && (forall k :: |list.items| <= k < |after.items| ==> NewItemFits(same, after.items, k))
            && forall k :: |list.categories| <= k < |after.categories| ==>
                 && after.categories[k].position == k && after.categories[k].color.Some?
                 && forall i :: 0 <= i < k ==> !same(after.categories[i].name, after.categories[k].name)
  {
    if sections != [] {
      hide NewItemFits;
      hide WithItems;
      var front, last := sections[..|sections| - 1], sections[|sections| - 1];
      var before, after := With(same, list, front), With(same, list, sections);
      NewRowsFit(same, list, front);
      var found := Found(same, before.categories, last.category.name);
      var category := found.GetOr(Placed(last.category, |before.categories|));
      ItemsFit(same, before.items, category, last.items);
      ItemsExtend(same, before.items, category, last.items);
      FoundNone(same, before.categories, last.category.name);
      forall k | |list.items| <= k < |after.items| ensures NewItemFits(same, after.items, k) {
        if k < |before.items| {
          FitsLater(same, before.items, after.items, k);
        }
      }
    }
  }

  lemma FitsLater(same: Same, items: seq<Item>, later: seq<Item>, k: nat)
    requires items <= later && k < |items| && NewItemFits(same, items, k)
    ensures NewItemFits(same, later, k)
  {
    assert forall i :: 0 <= i <= k ==> later[i] == items[i];
  }

  lemma {:induction false} FoundNone(same: Same, categories: seq<Category>, name: string)
    ensures Found(same, categories, name) == None ==>
              forall i :: 0 <= i < |categories| ==> !same(categories[i].name, name)
  {
    if categories != [] {
      FoundNone(same, categories[1..], name);
    }
  }

  /** A new thing is one of a section, in that section's category and its trip, right behind what
      the category held last. */
  ghost predicate ItemComes(same: Same, sections: seq<Section>, after: List, k: nat)
    requires k < |after.items|
  {
    var item := after.items[k];
    && (exists s, j, c :: 0 <= s < |sections| && 0 <= j < |sections[s].items| && 0 <= c < |after.categories|
          && same(after.categories[c].name, sections[s].category.name)
          && item == sections[s].items[j].(tripId := after.categories[c].tripId,
                                           categoryId := Some(after.categories[c].id), position := item.position))
    && (item.position <= 0 || exists i :: 0 <= i < k && after.items[i].categoryId == item.categoryId
                                          && item.position == after.items[i].position + 1)
  }

  /** A new category is a section's, with the colour of its place when it brings none. */
  ghost predicate CategoryComes(sections: seq<Section>, after: List, k: nat)
    requires k < |after.categories|
  {
    exists s :: 0 <= s < |sections| && after.categories[k]
        == sections[s].category.(position := k, color := if sections[s].category.color.Some?
                                                         then sections[s].category.color else Some(k % 19))
  }

  lemma {:induction false} EndIsNext(items: seq<Item>, categoryId: Id)
    ensures EndOf(items, categoryId) <= 0
            || exists i :: 0 <= i < |items| && items[i].categoryId == Some(categoryId)
                           && EndOf(items, categoryId) == items[i].position + 1
  {
    if items != [] {
      EndIsNext(items[..|items| - 1], categoryId);
    }
  }

  lemma {:induction false} ItemsCome(same: Same, items: seq<Item>, category: Category, more: seq<Item>, k: nat)
    requires |items| <= k < |WithItems(same, items, category, more)|
    ensures var after := WithItems(same, items, category, more);
            && (exists j :: 0 <= j < |more|
                  && after[k] == more[j].(tripId := category.tripId, categoryId := Some(category.id),
                                          position := after[k].position))
            && (after[k].position <= 0 || exists i :: 0 <= i < k && after[i].categoryId == after[k].categoryId
                                                      && after[k].position == after[i].position + 1)
  {
    var front, last := more[..|more| - 1], |more| - 1;
    var before, after := WithItems(same, items, category, front), WithItems(same, items, category, more);
    ItemsExtend(same, items, category, front);
    if k < |before| {
      ItemsCome(same, items, category, front, k);
      var j :| 0 <= j < |front| && before[k] == front[j].(tripId := category.tripId, categoryId := Some(category.id),
                                                          position := before[k].position);
      assert more[j] == front[j] && after[k] == before[k];
      assert forall i :: 0 <= i < k ==> after[i] == before[i];
    } else {
      EndIsNext(before, category.id);
      if i :| 0 <= i < |before| && before[i].categoryId == Some(category.id)
              && EndOf(before, category.id) == before[i].position + 1 {
        assert after[i] == before[i];
      }
      assert after[k] == more[last].(tripId := category.tripId, categoryId := Some(category.id),
                                     position := after[k].position);
    }
  }

  lemma {:induction false} FoundIs(same: Same, categories: seq<Category>, name: string)
    ensures var found := Found(same, categories, name);
            found.Some? ==> exists c :: 0 <= c < |categories| && categories[c] == found.value
                                        && same(categories[c].name, name)
  {
    if categories != [] {
      FoundIs(same, categories[1..], name);
      if c :| 0 <= c < |categories[1..]| && Found(same, categories, name) == Some(categories[1..][c])
              && same(categories[1..][c].name, name) {
        assert categories[c + 1] == categories[1..][c];
      }
    }
  }

  lemma StillComes(same: Same, sections: seq<Section>, before: List, after: List, n: nat, k: nat)
    requires n <= |sections| && Extends(before, after)
    ensures k < |before.items| && ItemComes(same, sections[..n], before, k) ==> ItemComes(same, sections, after, k)
    ensures k < |before.categories| && CategoryComes(sections[..n], before, k) ==> CategoryComes(sections, after, k)
  {
    if k < |before.items| && ItemComes(same, sections[..n], before, k) {
      var item := before.items[k];
      var s, j, c :| 0 <= s < n && 0 <= j < |sections[..n][s].items| && 0 <= c < |before.categories|
                     && same(before.categories[c].name, sections[..n][s].category.name)
                     && item == sections[..n][s].items[j].(tripId := before.categories[c].tripId,
                                                           categoryId := Some(before.categories[c].id),
                                                           position := item.position);
      assert sections[s] == sections[..n][s] && after.categories[c] == before.categories[c];
      assert forall i :: 0 <= i <= k ==> after.items[i] == before.items[i];
    }
    if k < |before.categories| && CategoryComes(sections[..n], before, k) {
      assert forall s :: 0 <= s < n ==> sections[..n][s] == sections[s];
    }
  }

  lemma NewPlace(same: Same, list: List, section: Section)
    ensures var after, n := WithSection(same, list, section), |list.categories|;
            |after.categories| <= n + 1 && (|after.categories| == n + 1 ==>
                                              after.categories[n] == Placed(section.category, n))
  {
    hide Found;
    hide WithItems;
  }

  lemma LastCategoryComes(sections: seq<Section>, before: List, after: List, k: nat)
    requires sections != [] && k == |before.categories| < |after.categories|
    requires after.categories[k] == Placed(sections[|sections| - 1].category, k)
    ensures CategoryComes(sections, after, k)
  {
    var last := sections[|sections| - 1].category;
    assert last.color == None ==> DefaultColor(k) == k % 19;
  }

  lemma LastItemComes(same: Same, before: List, sections: seq<Section>, k: nat)
    requires Equivalence(same) && sections != []
    requires |before.items| <= k < |WithSection(same, before, sections[|sections| - 1]).items|
    ensures ItemComes(same, sections, WithSection(same, before, sections[|sections| - 1]), k)
  {
    hide WithItems;
    hide Found;
    hide EndOf;
    var n := |sections| - 1;
    var after := WithSection(same, before, sections[n]);
    var found := Found(same, before.categories, sections[n].category.name);
    FoundIs(same, before.categories, sections[n].category.name);
    var category := found.GetOr(Placed(sections[n].category, |before.categories|));
    ItemsCome(same, before.items, category, sections[n].items, k);
    var c: int;
    if found.Some? {
      c :| 0 <= c < |before.categories| && before.categories[c] == found.value
           && same(before.categories[c].name, sections[n].category.name);
    } else {
      c := |before.categories|;
    }
    assert after.categories[c] == category;
    var j :| 0 <= j < |sections[n].items|
             && after.items[k] == sections[n].items[j].(tripId := category.tripId, categoryId := Some(category.id),
                                                        position := after.items[k].position);
  }

  /** The rows from some place on are the sections'. */
  ghost predicate RowsCome(same: Same, list: List, sections: seq<Section>, after: List) {
    && (forall k :: |list.items| <= k < |after.items| ==> ItemComes(same, sections, after, k))
    && forall k :: |list.categories| <= k < |after.categories| ==> CategoryComes(sections, after, k)
  }

  lemma RowsStillCome(same: Same, list: List, sections: seq<Section>, before: List)
    requires Equivalence(same) && sections != []
    requires RowsCome(same, list, sections[..|sections| - 1], before)
    ensures RowsCome(same, list, sections, WithSection(same, before, sections[|sections| - 1]))
  {
    hide ItemComes;
    hide CategoryComes;
    var n := |sections| - 1;
    var after := WithSection(same, before, sections[n]);
    SectionExtends(same, before, sections[n]);
    NewPlace(same, before, sections[n]);
    hide WithSection;
    forall k | |list.items| <= k < |after.items| ensures ItemComes(same, sections, after, k) {
      if k < |before.items| {
        StillComes(same, sections, before, after, n, k);
      } else {
        LastItemComes(same, before, sections, k);
      }
    }
    forall k | |list.categories| <= k < |after.categories| ensures CategoryComes(sections, after, k) {
      if k < |before.categories| {
        StillComes(same, sections, before, after, n, k);
      } else {
        LastCategoryComes(sections, before, after, k);
      }
    }
  }

  /** Nothing that is new comes out of nowhere or is changed but in where it belongs: every thing and
      every category an addition creates is one of its sections'. */
  lemma {:induction false} NewRowsCome(same: Same, list: List, sections: seq<Section>)
    requires Equivalence(same)
    ensures RowsCome(same, list, sections, With(same, list, sections))
  {
    if sections != [] {
      hide ItemComes;
      hide CategoryComes;
      hide WithSection;
      hide Equivalence;
      NewRowsCome(same, list, sections[..|sections| - 1]);
      RowsStillCome(same, list, sections, With(same, list, sections[..|sections| - 1]));
    }
  }
}
