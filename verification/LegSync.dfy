/**
 Bringing the stored legs in line with the days (syncLegs in
 backend/internal/storage/postgres/documents.go), and why doing it twice does
 nothing more.
 */
module LegSync {
  import opened Common
  import opened Polyline
  import opened Document
  import opened LegInput
  import opened LegFold
  import opened Reconcile

  /** The legs as they are read: every leg with changes folded. */
  function Read(rows: seq<Leg>): (legs: seq<Leg>)
    ensures |legs| == |rows|
    ensures forall i :: 0 <= i < |rows| ==> legs[i] == Folded(rows[i])
  {
    seq(|rows|, i requires 0 <= i < |rows| => Folded(rows[i]))
  }

  function ResetInput(resets: seq<Leg>, id: Id): Option<string> {
    if resets == [] then None
    else if resets[|resets| - 1].id == id then Some(resets[|resets| - 1].input)
    else ResetInput(resets[..|resets| - 1], id)
  }

  function PartResetInput(resets: seq<Segment>, id: Id): Option<string> {
    if resets == [] then None
    else if resets[|resets| - 1].id == id then Some(resets[|resets| - 1].input)
    else PartResetInput(resets[..|resets| - 1], id)
  }

  /** The leg waits for a new calculation, and forgets the old one and any choice. */
  function ResetRow(row: Leg, input: string): Leg {
    row.(input := input, source := Pending, distanceM := None, durationS := None, geometry := [], error := "",
         pinned := false)
  }

  function ResetPart(part: Segment, input: string): Segment {
    part.(input := input, source := Pending, distanceM := None, durationS := None, geometry := [], error := "")
  }

  function SyncPart(part: Segment, plan: LegPlan): Segment {
    match PartResetInput(plan.resetSegments, part.id)
    case None => part
    case Some(input) => ResetPart(part, input)
  }

  function SyncParts(parts: seq<Segment>, plan: LegPlan): (r: seq<Segment>)
    ensures |r| == |parts|
    ensures forall i :: 0 <= i < |parts| ==> r[i] == SyncPart(parts[i], plan)
  {
    seq(|parts|, i requires 0 <= i < |parts| => SyncPart(parts[i], plan))
  }

  function SyncRow(row: Leg, plan: LegPlan): Leg {
    var row' := row.(segments := SyncParts(row.segments, plan));
    match ResetInput(plan.reset, row.id)
    case None => row'
    case Some(input) => ResetRow(row', input)
  }

  /** The rows the plan does not delete, reset where it says so. */
  function SyncRows(rows: seq<Leg>, plan: LegPlan): seq<Leg> {
    if rows == [] then []
    else SyncRows(rows[..|rows| - 1], plan)
         + if rows[|rows| - 1].id in plan.delete then [] else [SyncRow(rows[|rows| - 1], plan)]
  }

  /** A new row takes the table's defaults: the fastest route, through no points. */
  function InsertedRows(created: seq<Leg>): (r: seq<Leg>)
    ensures |r| == |created|
    ensures forall i :: 0 <= i < |r| ==> r[i] == created[i].(preference := Fastest)
  {
    seq(|created|, i requires 0 <= i < |created| => created[i].(preference := Fastest))
  }

  /** The stored legs after the plan was carried out. */
  function Synced(rows: seq<Leg>, plan: LegPlan): seq<Leg> {
    SyncRows(rows, plan) + InsertedRows(plan.create)
  }

  // ------------------------------------------------------------- what in line means

  predicate Serves(leg: Leg, need: Need) {
    leg.dayId == need.day.id && leg.fromItemId == need.from.id && leg.toItemId == need.to.id
  }

  /** Every calculation of the leg is stored under the input the need gives it. */
  predicate Current(c: Content, leg: Leg, need: Need) {
    if leg.Composite()
    then forall i :: 0 <= i < |leg.segments| ==> leg.segments[i].input == NeedPartInput(c, need, leg.segments, i)
    else leg.input == NeedInput(c, need, leg.mode, leg.Route())
  }

  ghost predicate HasLeg(c: Content, legs: seq<Leg>, need: Need) {
    exists i :: 0 <= i < |legs| && Serves(legs[i], need) && Current(c, legs[i], need)
  }

  ghost predicate Needed(leg: Leg, needs: seq<Need>) {
    exists k :: 0 <= k < |needs| && Serves(leg, needs[k])
  }

  ghost predicate DistinctPairs(legs: seq<Leg>) {
    forall i, j :: 0 <= i < j < |legs| ==>
      legs[i].fromItemId != legs[j].fromItemId || legs[i].toItemId != legs[j].toItemId
  }

  /** Every pair the days need has exactly one leg, owned by its day and keyed by its
      present ends, and there is no other leg. */
  ghost predicate Reconciled(c: Content, legs: seq<Leg>) {
    && (forall k :: 0 <= k < |Needs(c)| ==> HasLeg(c, legs, Needs(c)[k]))
    && (forall i :: 0 <= i < |legs| ==> Needed(legs[i], Needs(c)))
    && DistinctPairs(legs)
  }

  ghost predicate DistinctLegs(legs: seq<Leg>) {
    forall i, j :: 0 <= i < j < |legs| ==> legs[i].id != legs[j].id
  }

  /** No part belongs to two legs, or twice to one. */
  ghost predicate DistinctParts(legs: seq<Leg>) {
    forall i, j, m, n ::
      (0 <= i < |legs| && 0 <= j < |legs| && 0 <= m < |legs[i].segments| && 0 <= n < |legs[j].segments|
       && legs[i].segments[m].id == legs[j].segments[n].id) ==> i == j && m == n
  }

  // ------------------------------------------------------------- the needs

  /** Each need brings the trip to an element of its own day. */
  ghost predicate OwnNeeds(c: Content, needs: seq<Need>, first: nat) {
    forall i :: 0 <= i < |needs| ==>
      && needs[i].to in c.items && needs[i].to.dayId == Some(needs[i].day.id)
      && exists d :: first <= d < |c.days| && c.days[d] == needs[i].day
  }

  ghost predicate DistinctEnds(needs: seq<Need>) {
    forall i, j :: 0 <= i < j < |needs| ==> needs[i].to.id != needs[j].to.id
  }

  lemma {:induction false} InnerNeedsAre(day: Day, items: seq<Item>, n: nat)
    requires 1 <= n <= |items|
    ensures |InnerNeeds(day, items, n)| == n - 1
    ensures forall i :: 0 <= i < n - 1 ==> InnerNeeds(day, items, n)[i] == Need(day, items[i], items[i + 1])
  {
    if n > 1 {
      InnerNeedsAre(day, items, n - 1);
    }
  }

  lemma DayNeedsAre(c: Content, k: nat, previous: Option<Item>)
    requires k < |c.days| && DistinctItems(c.items)
    requires DayItems(c.items, Some(c.days[k].id)) != []
    ensures var needs := DayNeeds(c.days[k], DayItems(c.items, Some(c.days[k].id)), previous);
            DistinctEnds(needs) && forall i :: 0 <= i < |needs| ==>
              needs[i].day == c.days[k] && needs[i].to in c.items && needs[i].to.dayId == Some(c.days[k].id)
  {
    hide DayItems;
    var items := DayItems(c.items, Some(c.days[k].id));
    DayItemsMembers(c.items, Some(c.days[k].id));
    DayItemsDistinct(c.items, Some(c.days[k].id));
    InnerNeedsAre(c.days[k], items, |items|);
    var needs, first := DayNeeds(c.days[k], items, previous), |OpeningNeed(c.days[k], items, previous)|;
    forall i | 0 <= i < |needs| ensures needs[i].to == items[i + 1 - first] && needs[i].day == c.days[k] {
    }
  }

  lemma {:induction false} NeedsFromAre(c: Content, k: nat, previous: Option<Item>)
    requires k <= |c.days| && DistinctItems(c.items) && DistinctDays(c.days)
    ensures OwnNeeds(c, NeedsFrom(c, k, previous), k)
    ensures DistinctEnds(NeedsFrom(c, k, previous))
    decreases |c.days| - k
  {
    hide DayItems;
    hide DayNeeds;
    if k < |c.days| {
      var items := DayItems(c.items, Some(c.days[k].id));
      if items == [] {
        NeedsFromAre(c, k + 1, previous);
      } else {
        var head, last := DayNeeds(c.days[k], items, previous), Some(items[|items| - 1]);
        DayNeedsAre(c, k, previous);
        NeedsFromAre(c, k + 1, last);
        var tail := NeedsFrom(c, k + 1, last);
        forall i, j | 0 <= i < |head| && 0 <= j < |tail| ensures head[i].to.id != tail[j].to.id {
          UniqueId(c.items);
        }
        forall i | 0 <= i < |head + tail|
          ensures exists d :: k <= d < |c.days| && c.days[d] == (head + tail)[i].day
        {
          if i < |head| {
            assert c.days[k] == (head + tail)[i].day;
          } else {
            assert (head + tail)[i] == tail[i - |head|];
          }
        }
      }
    }
  }

  /** No two needs bring the trip to the same element. */
  lemma NeedsAre(c: Content)
    requires DistinctItems(c.items) && DistinctDays(c.days)
    ensures OwnNeeds(c, Needs(c), 0)
    ensures DistinctEnds(Needs(c))
  {
    NeedsFromAre(c, 0, None);
  }

  // ------------------------------------------------------------- what a plan holds

  lemma {:induction false} FoundLeg(legs: seq<Leg>, from: Id, to: Id)
    ensures var found := FindLeg(legs, from, to);
            if found.Some? then found.value in legs && found.value.fromItemId == from && found.value.toItemId == to
            else forall i :: 0 <= i < |legs| ==> legs[i].fromItemId != from || legs[i].toItemId != to
  {
    if legs != [] {
      FoundLeg(legs[..|legs| - 1], from, to);
    }
  }

  lemma NewLegId(c: Content, legs: seq<Leg>, id: Id, need: Need)
    ensures NewLeg(c, legs, id, need).id == id
    ensures Serves(NewLeg(c, legs, id, need), need)
  {
  }

  lemma {:induction false} CreatedIds(c: Content, legs: seq<Leg>, ids: nat -> Id, needs: seq<Need>)
    ensures forall i :: 0 <= i < |Creates(c, legs, ids, needs)| ==> Creates(c, legs, ids, needs)[i].id == ids(i)
  {
    hide NewLeg;
    hide Keeps;
    if needs != [] {
      var before := Creates(c, legs, ids, needs[..|needs| - 1]);
      CreatedIds(c, legs, ids, needs[..|needs| - 1]);
      NewLegId(c, legs, ids(|before|), needs[|needs| - 1]);
    }
  }

  /** The created leg was made for the k-th need. */
  predicate MadeFor(c: Content, legs: seq<Leg>, ids: nat -> Id, leg: Leg, i: nat, need: Need) {
    !Keeps(legs, need) && leg == NewLeg(c, legs, ids(i), need)
  }

  lemma {:induction false} CreatedFrom(c: Content, legs: seq<Leg>, ids: nat -> Id, needs: seq<Need>, i: nat)
    returns (k: nat)
    requires i < |Creates(c, legs, ids, needs)|
    ensures k < |needs| && MadeFor(c, legs, ids, Creates(c, legs, ids, needs)[i], i, needs[k])
  {
    hide NewLeg;
    hide Keeps;
    var front, last := needs[..|needs| - 1], |needs| - 1;
    if i < |Creates(c, legs, ids, front)| {
      k := CreatedFrom(c, legs, ids, front, i);
    } else {
      k := last;
    }
  }

  lemma {:induction false} CreatedFor(c: Content, legs: seq<Leg>, ids: nat -> Id, needs: seq<Need>, k: nat)
    returns (i: nat)
    requires k < |needs| && !Keeps(legs, needs[k])
    ensures i < |Creates(c, legs, ids, needs)| && MadeFor(c, legs, ids, Creates(c, legs, ids, needs)[i], i, needs[k])
  {
    hide NewLeg;
    hide Keeps;
    var front, last := needs[..|needs| - 1], |needs| - 1;
    if k < last {
      i := CreatedFor(c, legs, ids, front, k);
    } else {
      i := |Creates(c, legs, ids, front)|;
    }
  }

  lemma {:induction false} KeptIdsAre(legs: seq<Leg>, needs: seq<Need>)
    ensures forall k :: 0 <= k < |needs| && Keeps(legs, needs[k]) ==> KeptLeg(legs, needs[k]).id in KeptIds(legs, needs)
    ensures forall id :: id in KeptIds(legs, needs) ==>
              exists k :: 0 <= k < |needs| && Keeps(legs, needs[k]) && KeptLeg(legs, needs[k]).id == id
  {
    hide FindLeg;
    if needs != [] {
      var front, last := needs[..|needs| - 1], needs[|needs| - 1];
      KeptIdsAre(legs, front);
      forall id | id in KeptIds(legs, needs)
        ensures exists k :: 0 <= k < |needs| && Keeps(legs, needs[k]) && KeptLeg(legs, needs[k]).id == id
      {
        if id in KeptIds(legs, front) {
          var k :| 0 <= k < |front| && Keeps(legs, front[k]) && KeptLeg(legs, front[k]).id == id;
          assert needs[k] == front[k];
        } else {
          assert needs[|needs| - 1] == last;
        }
      }
      forall k | 0 <= k < |needs| && Keeps(legs, needs[k]) ensures KeptLeg(legs, needs[k]).id in KeptIds(legs, needs) {
        if k < |front| {
          assert front[k] == needs[k];
        }
      }
    }
  }

  lemma {:induction false} DeletesAre(legs: seq<Leg>, kept: set<Id>)
    ensures forall id :: id in Deletes(legs, kept) <==>
              id !in kept && exists i :: 0 <= i < |legs| && legs[i].id == id
  {
    if legs != [] {
      var front, last := legs[..|legs| - 1], legs[|legs| - 1];
      DeletesAre(front, kept);
      forall id ensures id in Deletes(legs, kept) <==> id !in kept && exists i :: 0 <= i < |legs| && legs[i].id == id {
        if i :| 0 <= i < |legs| && legs[i].id == id {
          assert i < |front| ==> front[i].id == id;
        }
        if i :| 0 <= i < |front| && front[i].id == id {
          assert legs[i].id == id;
        }
      }
    }
  }

  // ------------------------------------------------------------- an empty plan

  const NOTHING: LegPlan := LegPlan([], [], [], [])

  lemma {:induction false} NoResets(c: Content, legs: seq<Leg>, needs: seq<Need>)
    ensures Resets(c, legs, needs) == [] <==>
              forall k :: 0 <= k < |needs| && Keeps(legs, needs[k]) && !KeptLeg(legs, needs[k]).Composite() ==>
                Current(c, KeptLeg(legs, needs[k]), needs[k])
  {
    hide NeedInput;
    hide NeedPartInput;
    hide FindLeg;
    if needs != [] {
      var front, last := needs[..|needs| - 1], needs[|needs| - 1];
      NoResets(c, legs, front);
      assert forall k :: 0 <= k < |front| ==> front[k] == needs[k];
      assert needs[|front|] == last;
    }
  }

  lemma {:induction false} NoMovedParts(c: Content, need: Need, segments: seq<Segment>, n: nat)
    requires n <= |segments|
    ensures MovedParts(c, need, segments, n) == [] <==>
              forall i :: 0 <= i < n ==> segments[i].input == NeedPartInput(c, need, segments, i)
  {
    hide NeedPartInput;
    if n > 0 {
      NoMovedParts(c, need, segments, n - 1);
    }
  }

  lemma {:induction false} NoPartResets(c: Content, legs: seq<Leg>, needs: seq<Need>)
    ensures PartResets(c, legs, needs) == [] <==>
              forall k :: 0 <= k < |needs| && Keeps(legs, needs[k]) && KeptLeg(legs, needs[k]).Composite() ==>
                Current(c, KeptLeg(legs, needs[k]), needs[k])
  {
    hide NeedInput;
    hide NeedPartInput;
    hide FindLeg;
    if needs != [] {
      var front, last := needs[..|needs| - 1], needs[|needs| - 1];
      NoPartResets(c, legs, front);
      if Keeps(legs, last) {
        NoMovedParts(c, last, KeptLeg(legs, last).segments, |KeptLeg(legs, last).segments|);
      }
      assert forall k :: 0 <= k < |front| ==> front[k] == needs[k];
      assert needs[|front|] == last;
    }
  }

  lemma {:induction false} NoCreates(c: Content, legs: seq<Leg>, ids: nat -> Id, needs: seq<Need>)
    ensures Creates(c, legs, ids, needs) == [] <==> forall k :: 0 <= k < |needs| ==> Keeps(legs, needs[k])
  {
    hide NewLeg;
    hide FindLeg;
    if needs != [] {
      NoCreates(c, legs, ids, needs[..|needs| - 1]);
      assert forall k :: 0 <= k < |needs| - 1 ==> needs[..|needs| - 1][k] == needs[k];
    }
  }

  lemma {:induction false} NoDeletes(legs: seq<Leg>, kept: set<Id>)
    ensures Deletes(legs, kept) == [] <==> forall i :: 0 <= i < |legs| ==> legs[i].id in kept
  {
    if legs != [] {
      NoDeletes(legs[..|legs| - 1], kept);
      assert forall i :: 0 <= i < |legs| - 1 ==> legs[..|legs| - 1][i] == legs[i];
    }
  }

  /** A leg found for a need whose leg is unique is that leg. */
  lemma FindsOnly(legs: seq<Leg>, i: nat, need: Need)
    requires i < |legs| && Serves(legs[i], need) && DistinctPairs(legs)
    ensures Keeps(legs, need) && KeptLeg(legs, need) == legs[i]
  {
    hide FindLeg;
    FoundLeg(legs, need.from.id, need.to.id);
    var leg := FindLeg(legs, need.from.id, need.to.id).value;
    var j :| 0 <= j < |legs| && legs[j] == leg;
  }

  /** There is nothing to do exactly when the legs are in line with the days. */
  lemma NothingToDo(c: Content, legs: seq<Leg>, ids: nat -> Id)
    requires DistinctLegs(legs)
    ensures Plan(c, legs, ids) == NOTHING <==> Reconciled(c, legs)
  {
    hide FindLeg;
    hide Needs;
    hide Current;
    hide Creates;
    hide Resets;
    hide PartResets;
    hide KeptIds;
    var needs := Needs(c);
    EmptyPlan(c, legs, ids);
    if Plan(c, legs, ids) == NOTHING {
      AllKept(c, legs, needs);
    }
    if Reconciled(c, legs) {
      InLine(c, legs);
    }
  }

  /** The plan is empty exactly when every need is met by a current leg and no other leg
      is there. */
  lemma {:induction false} EmptyPlan(c: Content, legs: seq<Leg>, ids: nat -> Id)
    ensures Plan(c, legs, ids) == NOTHING <==>
            && (forall k :: 0 <= k < |Needs(c)| ==>
                  Keeps(legs, Needs(c)[k]) && Current(c, KeptLeg(legs, Needs(c)[k]), Needs(c)[k]))
            && forall i :: 0 <= i < |legs| ==> legs[i].id in KeptIds(legs, Needs(c))
  {
    hide FindLeg;
    hide Needs;
    hide Current;
    hide Creates;
    hide Resets;
    hide PartResets;
    hide KeptIds;
    var needs := Needs(c);
    NoCreates(c, legs, ids, needs);
    NoResets(c, legs, needs);
    NoPartResets(c, legs, needs);
    NoDeletes(legs, KeptIds(legs, needs));
  }

  lemma {:induction false} InLine(c: Content, legs: seq<Leg>)
    requires DistinctLegs(legs) && Reconciled(c, legs)
    ensures forall k :: 0 <= k < |Needs(c)| ==>
              Keeps(legs, Needs(c)[k]) && Current(c, KeptLeg(legs, Needs(c)[k]), Needs(c)[k])
    ensures forall i :: 0 <= i < |legs| ==> legs[i].id in KeptIds(legs, Needs(c))
  {
    hide FindLeg;
    hide Needs;
    hide Current;
    hide KeptIds;
    var needs := Needs(c);
    KeptIdsAre(legs, needs);
    forall k | 0 <= k < |needs|
      ensures Keeps(legs, needs[k]) && Current(c, KeptLeg(legs, needs[k]), needs[k])
    {
      assert HasLeg(c, legs, needs[k]);
      var i :| 0 <= i < |legs| && Serves(legs[i], needs[k]) && Current(c, legs[i], needs[k]);
      FindsOnly(legs, i, needs[k]);
    }
    forall i | 0 <= i < |legs| ensures legs[i].id in KeptIds(legs, needs) {
      assert Needed(legs[i], needs);
      var k :| 0 <= k < |needs| && Serves(legs[i], needs[k]);
      FindsOnly(legs, i, needs[k]);
    }
  }

  lemma KeptServes(legs: seq<Leg>, need: Need)
    requires Keeps(legs, need)
    ensures KeptLeg(legs, need) in legs && Serves(KeptLeg(legs, need), need)
  {
    FoundLeg(legs, need.from.id, need.to.id);
  }

  /** The need a kept leg is kept for. */
  lemma KeptFor(legs: seq<Leg>, needs: seq<Need>, i: nat) returns (k: nat)
    requires DistinctLegs(legs)
    requires i < |legs| && legs[i].id in KeptIds(legs, needs)
    ensures k < |needs| && Keeps(legs, needs[k]) && KeptLeg(legs, needs[k]) == legs[i] && Serves(legs[i], needs[k])
  {
    hide FindLeg;
    hide KeptIds;
    KeptIdsAre(legs, needs);
    k :| 0 <= k < |needs| && Keeps(legs, needs[k]) && KeptLeg(legs, needs[k]).id == legs[i].id;
    KeptServes(legs, needs[k]);
    var j :| 0 <= j < |legs| && legs[j] == KeptLeg(legs, needs[k]);
  }

  /** Two kept legs do not join the same pair. */
  lemma {:induction false} KeptOnce(legs: seq<Leg>, needs: seq<Need>, i: nat, j: nat)
    requires DistinctLegs(legs)
    requires i < |legs| && legs[i].id in KeptIds(legs, needs)
    requires j < |legs| && legs[j].id in KeptIds(legs, needs)
    requires legs[i].fromItemId == legs[j].fromItemId && legs[i].toItemId == legs[j].toItemId
    ensures i == j
  {
    hide FindLeg;
    hide KeptIds;
    var k := KeptFor(legs, needs, i);
    var m := KeptFor(legs, needs, j);
    assert legs[i].id == legs[j].id;
  }

  lemma {:induction false} AllKept(c: Content, legs: seq<Leg>, needs: seq<Need>)
    requires DistinctLegs(legs)
    requires forall k :: 0 <= k < |needs| ==> Keeps(legs, needs[k]) && Current(c, KeptLeg(legs, needs[k]), needs[k])
    requires forall i :: 0 <= i < |legs| ==> legs[i].id in KeptIds(legs, needs)
    ensures forall k :: 0 <= k < |needs| ==> HasLeg(c, legs, needs[k])
    ensures forall i :: 0 <= i < |legs| ==> Needed(legs[i], needs)
    ensures DistinctPairs(legs)
  {
    hide FindLeg;
    hide Current;
    hide KeptIds;
    hide Serves;
    hide DistinctLegs;
    forall k | 0 <= k < |needs| ensures HasLeg(c, legs, needs[k]) {
      KeptServes(legs, needs[k]);
      var i :| 0 <= i < |legs| && legs[i] == KeptLeg(legs, needs[k]);
    }
    forall i | 0 <= i < |legs| ensures Needed(legs[i], needs) {
      var k := KeptFor(legs, needs, i);
    }
    forall i, j | 0 <= i < j < |legs|
      ensures legs[i].fromItemId != legs[j].fromItemId || legs[i].toItemId != legs[j].toItemId
    {
      if legs[i].fromItemId == legs[j].fromItemId && legs[i].toItemId == legs[j].toItemId {
        KeptOnce(legs, needs, i, j);
      }
    }
  }
}
