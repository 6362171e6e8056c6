/**
 How the schedule, the budget and the report find the legs of a day (OpeningLeg and
 DayLegs in backend/internal/domain/leg.go): together they hand out every leg of a
 document in line with its days, once.
 */
module LegReaders {
  import opened Common
  import opened Document
  import opened Reconcile
  import opened LegSync

  /** The leg that brings a day in from the day before. */
  function Opening(legs: seq<Leg>, items: seq<Item>): Option<Leg> {
    if items == [] || legs == [] then None
    else if legs[0].toItemId == items[0].id then Some(legs[0])
    else Opening(legs[1..], items)
  }

  method OpeningLeg(legs: seq<Leg>, items: seq<Item>) returns (leg: Option<Leg>)
    ensures leg == Opening(legs, items)
  {
    if |items| == 0 {
      return None;
    }
    for index := 0 to |legs|
      invariant Opening(legs[index..], items) == Opening(legs, items)
    {
      assert legs[index..][1..] == legs[index + 1..];
      if legs[index].toItemId == items[0].id {
        return Some(legs[index]);
      }
    }
    return None;
  }

  /** The leg from each element of a day to the next, None where none exists yet. */
  function Between(legs: seq<Leg>, items: seq<Item>): (r: seq<Option<Leg>>)
    ensures |r| == if |items| < 2 then 0 else |items| - 1
    ensures forall i :: 0 <= i < |r| ==> r[i] == FindLeg(legs, items[i].id, items[i + 1].id)
  {
    if |items| < 2 then []
    else seq(|items| - 1, i requires 0 <= i < |items| - 1 => FindLeg(legs, items[i].id, items[i + 1].id))
  }

  method DayLegs(legs: seq<Leg>, items: seq<Item>) returns (aligned: seq<Option<Leg>>)
    ensures aligned == Between(legs, items)
  {
    if |items| < 2 {
      return [];
    }
    var byFrom, modes := IndexLegs(legs);
    var slots := new Option<Leg>[|items| - 1](_ => None);
    for index := 1 to |items|
      invariant forall i :: 0 <= i < index - 1 ==> slots[i] == FindLeg(legs, items[i].id, items[i + 1].id)
    {
      var pair := (items[index - 1].id, items[index].id);
      slots[index - 1] := if pair in byFrom then Some(byFrom[pair]) else None;
    }
    aligned := slots[..];
  }

  /** The i-th leg is the first that reaches an element. */
  predicate ReachesFirst(legs: seq<Leg>, to: Id, i: int) {
    0 <= i < |legs| && legs[i].toItemId == to && forall j :: 0 <= j < i ==> legs[j].toItemId != to
  }

  /** The i-th leg is the last that joins two elements. */
  predicate JoinsLast(legs: seq<Leg>, from: Id, to: Id, i: int) {
    && 0 <= i < |legs| && legs[i].fromItemId == from && legs[i].toItemId == to
    && forall j :: i < j < |legs| ==> legs[j].fromItemId != from || legs[j].toItemId != to
  }

  /** The leg into a day is the first that reaches its first element, if there is one. */
  lemma {:induction false} OpeningIsFirst(legs: seq<Leg>, items: seq<Item>)
    ensures items == [] ==> Opening(legs, items) == None
    ensures items != [] ==> forall i :: ReachesFirst(legs, items[0].id, i) ==> Opening(legs, items) == Some(legs[i])
    ensures items != [] && (forall i :: 0 <= i < |legs| ==> legs[i].toItemId != items[0].id) ==>
              Opening(legs, items) == None
  {
    if legs != [] {
      OpeningIsFirst(legs[1..], items);
      if items != [] {
        forall i | ReachesFirst(legs, items[0].id, i) ensures Opening(legs, items) == Some(legs[i]) {
          assert i > 0 ==> ReachesFirst(legs[1..], items[0].id, i - 1);
        }
      }
    }
  }

  lemma {:induction false} FindsLast(legs: seq<Leg>, from: Id, to: Id)
    ensures forall i :: JoinsLast(legs, from, to, i) ==> FindLeg(legs, from, to) == Some(legs[i])
    ensures (forall i :: 0 <= i < |legs| ==> legs[i].fromItemId != from || legs[i].toItemId != to) ==>
              FindLeg(legs, from, to) == None
  {
    if legs != [] {
      var front := legs[..|legs| - 1];
      FindsLast(front, from, to);
      forall i | JoinsLast(legs, from, to, i) ensures FindLeg(legs, from, to) == Some(legs[i]) {
        assert i < |front| ==> JoinsLast(front, from, to, i);
      }
    }
  }

  /** Each slot holds the last leg from its element to the next, if there is one. */
  lemma SlotsAre(legs: seq<Leg>, items: seq<Item>, k: nat)
    requires k + 1 < |items|
    ensures |Between(legs, items)| == |items| - 1
    ensures forall i :: JoinsLast(legs, items[k].id, items[k + 1].id, i) ==> Between(legs, items)[k] == Some(legs[i])
    ensures (forall i :: 0 <= i < |legs| ==>
               legs[i].fromItemId != items[k].id || legs[i].toItemId != items[k + 1].id) ==>
              Between(legs, items)[k] == None
  {
    hide FindLeg;
    FindsLast(legs, items[k].id, items[k + 1].id);
  }

  // ------------------------------------------------------------- days one by one

  function ItemsOf(c: Content, k: nat): seq<Item>
    requires k < |c.days|
  {
    DayItems(c.items, Some(c.days[k].id))
  }

  /** The last element of the nearest earlier day that has any. */
  function Previous(c: Content, k: nat): Option<Item>
    requires k <= |c.days|
  {
    if k == 0 then None
    else if ItemsOf(c, k - 1) == [] then Previous(c, k - 1)
    else Some(ItemsOf(c, k - 1)[|ItemsOf(c, k - 1)| - 1])
  }

  /** The pairs the k-th day needs. */
  function NeedsOf(c: Content, k: nat): seq<Need>
    requires k < |c.days|
  {
    if ItemsOf(c, k) == [] then [] else DayNeeds(c.days[k], ItemsOf(c, k), Previous(c, k))
  }

  function NeedsUpTo(c: Content, k: nat): seq<Need>
    requires k <= |c.days|
  {
    if k == 0 then [] else NeedsUpTo(c, k - 1) + NeedsOf(c, k - 1)
  }

  lemma {:induction false} NeedsSplit(c: Content, k: nat)
    requires k <= |c.days|
    ensures Needs(c) == NeedsUpTo(c, k) + NeedsFrom(c, k, Previous(c, k))
  {
    hide DayItems;
    hide DayNeeds;
    if k > 0 {
      NeedsSplit(c, k - 1);
      var rest := NeedsFrom(c, k, Previous(c, k));
      assert NeedsFrom(c, k - 1, Previous(c, k - 1)) == NeedsOf(c, k - 1) + rest;
    }
  }

  lemma {:induction false} NeedOf(c: Content, n: nat, k: nat, need: Need)
    requires k < n <= |c.days| && need in NeedsOf(c, k)
    ensures need in NeedsUpTo(c, n)
  {
    hide NeedsOf;
    if k < n - 1 {
      NeedOf(c, n - 1, k, need);
    }
  }

  lemma NeedInDay(c: Content, k: nat, need: Need)
    requires k < |c.days| && need in NeedsOf(c, k)
    ensures need in Needs(c)
  {
    hide NeedsOf;
    hide Needs;
    NeedOf(c, |c.days|, k, need);
    NeedsSplit(c, |c.days|);
  }

  /** What a day needs brings the trip to elements of that day. */
  lemma {:induction false} NeedOwner(c: Content, n: nat, need: Need) returns (k: nat)
    requires n <= |c.days| && DistinctItems(c.items) && need in NeedsUpTo(c, n)
    ensures k < n && need in NeedsOf(c, k) && need.to in c.items && need.to.dayId == Some(c.days[k].id)
  {
    hide DayItems;
    hide DayNeeds;
    if need in NeedsOf(c, n - 1) {
      k := n - 1;
      DayNeedsAre(c, k, Previous(c, k));
    } else {
      k := NeedOwner(c, n - 1, need);
    }
  }

  /** A need that ends at an element of a day is one of that day's. */
  lemma NeedByEnd(c: Content, k: nat, need: Need)
    requires k < |c.days| && DistinctItems(c.items) && DistinctDays(c.days)
    requires need in Needs(c)
    requires exists item :: item in ItemsOf(c, k) && item.id == need.to.id
    ensures need in NeedsOf(c, k)
  {
    hide DayItems;
    hide Needs;
    hide NeedsOf;
    NeedsSplit(c, |c.days|);
    assert NeedsFrom(c, |c.days|, Previous(c, |c.days|)) == [];
    var owner := NeedOwner(c, |c.days|, need);
    var item :| item in ItemsOf(c, k) && item.id == need.to.id;
    DayItemsMembers(c.items, Some(c.days[k].id));
    UniqueId(c.items);
    assert c.days[owner].id == c.days[k].id;
  }

  // ------------------------------------------------------------- what is handed out

  function Known(legs: seq<Option<Leg>>): seq<Leg> {
    if legs == [] then []
    else (if legs[0].Some? then [legs[0].value] else []) + Known(legs[1..])
  }

  /** The legs read for the k-th day: the one into it, then those between its elements. */
  function DayReads(c: Content, legs: seq<Leg>, k: nat): seq<Leg>
    requires k < |c.days|
  {
    Known([Opening(legs, ItemsOf(c, k))] + Between(legs, ItemsOf(c, k)))
  }

  /** The legs read for the first n days. */
  function Reads(c: Content, legs: seq<Leg>, n: nat): seq<Leg>
    requires n <= |c.days|
  {
    if n == 0 then [] else Reads(c, legs, n - 1) + DayReads(c, legs, n - 1)
  }

  lemma {:induction false} OpeningFound(legs: seq<Leg>, items: seq<Item>)
    ensures var leg := Opening(legs, items);
            if leg.Some? then items != [] && leg.value in legs && leg.value.toItemId == items[0].id
            else items == [] || forall i :: 0 <= i < |legs| ==> legs[i].toItemId != items[0].id
  {
    if legs != [] {
      OpeningFound(legs[1..], items);
    }
  }

  lemma NeedHasLeg(c: Content, legs: seq<Leg>, need: Need) returns (i: nat)
    requires Reconciled(c, legs) && need in Needs(c)
    ensures i < |legs| && Serves(legs[i], need) && Keeps(legs, need) && KeptLeg(legs, need) == legs[i]
  {
    hide Needs;
    hide FindLeg;
    var k :| 0 <= k < |Needs(c)| && Needs(c)[k] == need;
    assert HasLeg(c, legs, Needs(c)[k]);
    i :| 0 <= i < |legs| && Serves(legs[i], need);
    FindsOnly(legs, i, need);
  }

  /** The opening leg of a day is the one its opening pair needs, if it needs one. */
  lemma {:induction false} OpeningIs(c: Content, legs: seq<Leg>, k: nat)
    requires DistinctItems(c.items) && DistinctDays(c.days) && Reconciled(c, legs)
    requires k < |c.days| && ItemsOf(c, k) != []
    ensures var opening := OpeningNeed(c.days[k], ItemsOf(c, k), Previous(c, k));
            if opening == [] then Opening(legs, ItemsOf(c, k)) == None
            else Keeps(legs, opening[0]) && Opening(legs, ItemsOf(c, k)) == Some(KeptLeg(legs, opening[0]))
  {
    hide DayItems;
    hide Needs;
    hide FindLeg;
    var items, opening := ItemsOf(c, k), OpeningNeed(c.days[k], ItemsOf(c, k), Previous(c, k));
    OpeningFound(legs, items);
    var leg := Opening(legs, items);
    if leg.Some? {
      var i :| 0 <= i < |legs| && legs[i] == leg.value;
      assert Needed(legs[i], Needs(c));
      var m :| 0 <= m < |Needs(c)| && Serves(leg.value, Needs(c)[m]);
      var need := Needs(c)[m];
      assert items[0] in items;
      NeedByEnd(c, k, need);
      OnlyOpening(c, k, need);
      assert need == opening[0];
      var j := NeedHasLeg(c, legs, need);
    }
    if opening != [] {
      assert opening[0] in NeedsOf(c, k);
      NeedInDay(c, k, opening[0]);
      var j := NeedHasLeg(c, legs, opening[0]);
    }
  }

  /** Only the opening pair of a day ends at its first element. */
  lemma {:induction false} OnlyOpening(c: Content, k: nat, need: Need)
    requires k < |c.days| && DistinctItems(c.items) && need in NeedsOf(c, k)
    requires need.to.id == ItemsOf(c, k)[0].id
    ensures OpeningNeed(c.days[k], ItemsOf(c, k), Previous(c, k)) == [need]
  {
    hide DayItems;
    var items := ItemsOf(c, k);
    DayItemsDistinct(c.items, Some(c.days[k].id));
    InnerNeedsAre(c.days[k], items, |items|);
    var opening := OpeningNeed(c.days[k], items, Previous(c, k));
    var inner := InnerNeeds(c.days[k], items, |items|);
    forall i | 0 <= i < |inner| ensures inner[i].to.id != items[0].id {
      assert inner[i].to == items[i + 1];
    }
    assert need in opening || need in inner;
  }

  /** The legs of some needs, each of which has one. */
  function LegsOf(legs: seq<Leg>, needs: seq<Need>): (r: seq<Leg>)
    requires forall i :: 0 <= i < |needs| ==> Keeps(legs, needs[i])
    ensures |r| == |needs|
    ensures forall i :: 0 <= i < |r| ==> r[i] == KeptLeg(legs, needs[i])
  {
    seq(|needs|, i requires 0 <= i < |needs| => KeptLeg(legs, needs[i]))
  }

  lemma {:induction false} KnownAll(legs: seq<Option<Leg>>)
    requires forall i :: 0 <= i < |legs| ==> legs[i].Some?
    ensures |Known(legs)| == |legs|
    ensures forall i :: 0 <= i < |legs| ==> Known(legs)[i] == legs[i].value
  {
    if legs != [] {
      KnownAll(legs[1..]);
    }
  }

  /** Between the elements of a day no leg is missing. */
  lemma BetweenIs(c: Content, legs: seq<Leg>, k: nat)
    requires Reconciled(c, legs)
    requires k < |c.days| && ItemsOf(c, k) != []
    ensures var inner := InnerNeeds(c.days[k], ItemsOf(c, k), |ItemsOf(c, k)|);
            && |Between(legs, ItemsOf(c, k))| == |inner|
            && forall i :: 0 <= i < |inner| ==>
                 Keeps(legs, inner[i]) && Between(legs, ItemsOf(c, k))[i] == Some(KeptLeg(legs, inner[i]))
  {
    hide DayItems;
    hide Needs;
    hide FindLeg;
    hide Reconciled;
    var items := ItemsOf(c, k);
    var inner := InnerNeeds(c.days[k], items, |items|);
    InnerNeedsAre(c.days[k], items, |items|);
    forall i | 0 <= i < |inner|
      ensures Keeps(legs, inner[i]) && Between(legs, items)[i] == Some(KeptLeg(legs, inner[i]))
    {
      assert inner[i] in NeedsOf(c, k);
      NeedInDay(c, k, inner[i]);
      var j := NeedHasLeg(c, legs, inner[i]);
    }
  }

  lemma DayReadsAre(c: Content, legs: seq<Leg>, k: nat)
    requires DistinctItems(c.items) && DistinctDays(c.days) && Reconciled(c, legs)
    requires k < |c.days|
    ensures forall i :: 0 <= i < |NeedsOf(c, k)| ==> Keeps(legs, NeedsOf(c, k)[i])
    ensures DayReads(c, legs, k) == LegsOf(legs, NeedsOf(c, k))
  {
    hide DayItems;
    hide Keeps;
    hide Opening;
    hide Between;
    hide Reconciled;
    var items := ItemsOf(c, k);
    if items == [] {
      NoReads(legs, items);
    } else {
      OpeningIs(c, legs, k);
      BetweenIs(c, legs, k);
      KnownAll(Between(legs, items));
      var all := [Opening(legs, items)] + Between(legs, items);
      assert all[1..] == Between(legs, items);
    }
  }

  lemma {:induction false} NoReads(legs: seq<Leg>, items: seq<Item>)
    requires items == []
    ensures Known([Opening(legs, items)] + Between(legs, items)) == []
  {
  }

  lemma {:induction false} ReadsAre(c: Content, legs: seq<Leg>, n: nat)
    requires DistinctItems(c.items) && DistinctDays(c.days) && Reconciled(c, legs)
    requires n <= |c.days|
    ensures forall i :: 0 <= i < |NeedsUpTo(c, n)| ==> Keeps(legs, NeedsUpTo(c, n)[i])
    ensures Reads(c, legs, n) == LegsOf(legs, NeedsUpTo(c, n))
  {
    hide NeedsOf;
    hide DayReads;
    hide Keeps;
    hide Reconciled;
    if n > 0 {
      ReadsAre(c, legs, n - 1);
      DayReadsAre(c, legs, n - 1);
    }
  }

  lemma CountOnce(legs: seq<Leg>, x: Leg)
    requires forall i, j :: 0 <= i < j < |legs| ==> legs[i] != legs[j]
    ensures multiset(legs)[x] == if x in legs then 1 else 0
  {
    if x in legs {
      var i :| 0 <= i < |legs| && legs[i] == x;
      assert legs == legs[..i] + [x] + legs[i + 1..];
    }
  }

  lemma LegsOfDistinct(legs: seq<Leg>, needs: seq<Need>)
    requires DistinctEnds(needs)
    requires forall i :: 0 <= i < |needs| ==> Keeps(legs, needs[i])
    ensures forall i :: 0 <= i < |needs| ==> LegsOf(legs, needs)[i] in legs
    ensures forall i, j :: 0 <= i < j < |needs| ==> LegsOf(legs, needs)[i] != LegsOf(legs, needs)[j]
  {
    hide Keeps;
    hide FindLeg;
    var found := LegsOf(legs, needs);
    forall i | 0 <= i < |needs| ensures found[i] in legs && found[i].toItemId == needs[i].to.id {
      KeptServes(legs, needs[i]);
    }
  }

  lemma LegsOfAll(c: Content, legs: seq<Leg>)
    requires Reconciled(c, legs)
    requires forall i :: 0 <= i < |Needs(c)| ==> Keeps(legs, Needs(c)[i])
    ensures forall x :: x in legs ==> x in LegsOf(legs, Needs(c))
  {
    hide Keeps;
    hide FindLeg;
    hide Needs;
    forall x | x in legs ensures x in LegsOf(legs, Needs(c)) {
      var i :| 0 <= i < |legs| && legs[i] == x;
      assert Needed(legs[i], Needs(c));
      var k :| 0 <= k < |Needs(c)| && Serves(legs[i], Needs(c)[k]);
      FindsOnly(legs, i, Needs(c)[k]);
      assert LegsOf(legs, Needs(c))[k] == x;
    }
  }

  /** The readers of the days together hand out every leg exactly once: each leg is
      read for one day only, either as the leg into it or between its elements. */
  lemma {:induction false} EachLegOnce(c: Content, legs: seq<Leg>)
    requires DistinctItems(c.items) && DistinctDays(c.days)
    requires DistinctLegs(legs) && Reconciled(c, legs)
    ensures multiset(Reads(c, legs, |c.days|)) == multiset(legs)
  {
    hide Needs;
    hide Keeps;
    hide NeedsUpTo;
    hide Reads;
    hide Reconciled;
    NeedsSplit(c, |c.days|);
    assert NeedsFrom(c, |c.days|, Previous(c, |c.days|)) == [];
    assert NeedsUpTo(c, |c.days|) == Needs(c);
    NeedsAre(c);
    ReadsAre(c, legs, |c.days|);
    LegsOfDistinct(legs, Needs(c));
    LegsOfAll(c, legs);
    var handed := LegsOf(legs, Needs(c));
    forall x ensures multiset(handed)[x] == multiset(legs)[x] {
      CountOnce(handed, x);
      CountOnce(legs, x);
    }
  }

  lemma {:induction false} PreviousIs(c: Content, k: nat)
    requires k <= |c.days|
    ensures Previous(c, k) == None <==> forall d :: 0 <= d < k ==> ItemsOf(c, d) == []
  {
    hide DayItems;
    if k > 0 {
      PreviousIs(c, k - 1);
    }
  }

  lemma DayNeedFrom(day: Day, items: seq<Item>, previous: Option<Item>, need: Need)
    requires items != [] && need in DayNeeds(day, items, previous)
    ensures need.from in items || previous == Some(need.from)
  {
    InnerNeedsAre(day, items, |items|);
    var inner := InnerNeeds(day, items, |items|);
    if need in inner {
      var i :| 0 <= i < |inner| && inner[i] == need;
      assert inner[i] == Need(day, items[i], items[i + 1]);
    }
  }

  /** The elements a need joins are elements of the document. */
  lemma NeedItems(c: Content, need: Need)
    requires DistinctItems(c.items) && need in Needs(c)
    ensures need.from in c.items && need.to in c.items
  {
    hide DayItems;
    hide DayNeeds;
    hide Needs;
    NeedsSplit(c, |c.days|);
    assert NeedsFrom(c, |c.days|, Previous(c, |c.days|)) == [];
    var k := NeedOwner(c, |c.days|, need);
    PreviousItem(c, k);
    DayItemsMembers(c.items, Some(c.days[k].id));
    DayNeedFrom(c.days[k], ItemsOf(c, k), Previous(c, k), need);
  }

  lemma {:induction false} PreviousItem(c: Content, k: nat)
    requires k <= |c.days|
    ensures Previous(c, k).Some? ==> Previous(c, k).value in c.items
  {
    hide DayItems;
    if k > 0 {
      PreviousItem(c, k - 1);
      DayItemsMembers(c.items, Some(c.days[k - 1].id));
    }
  }

  /** No leg is missing between the elements of a day, and there is a leg into the day
      unless it has no elements, opens with a stay mark, or follows no elements. */
  lemma {:induction false} ReadersComplete(c: Content, legs: seq<Leg>, k: nat)
    requires DistinctItems(c.items) && DistinctDays(c.days) && Reconciled(c, legs)
    requires k < |c.days|
    ensures forall i :: 0 <= i < |Between(legs, ItemsOf(c, k))| ==> Between(legs, ItemsOf(c, k))[i].Some?
    ensures Opening(legs, ItemsOf(c, k)) == None <==>
              || ItemsOf(c, k) == []
              || ItemsOf(c, k)[0].anchor == Morning
              || forall d :: 0 <= d < k ==> ItemsOf(c, d) == []
  {
    hide DayItems;
    hide FindLeg;
    hide Reconciled;
    PreviousIs(c, k);
    if ItemsOf(c, k) != [] {
      OpeningIs(c, legs, k);
      BetweenIs(c, legs, k);
    }
  }
}
