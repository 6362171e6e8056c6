/**
 What bringing the legs in line makes of each of them: how a new leg is travelled, and what
 an old one keeps (ReconcileLegs in backend/internal/domain/leg.go, syncLegs in
 backend/internal/storage/postgres/documents.go).
 */
module LegPlans {
  import opened Common
  import opened Polyline
  import opened Document
  import opened LegInput
  import opened LegFold
  import opened Reconcile
  import opened LegSync
  import opened LegFixpoint

  // ------------------------------------------------------------- new legs

  /** The i-th leg is the last of those that leave an element. */
  predicate LeavesLast(legs: seq<Leg>, from: Id, i: int) {
    0 <= i < |legs| && legs[i].fromItemId == from && forall j :: i < j < |legs| ==> legs[j].fromItemId != from
  }

  predicate NoneLeaves(legs: seq<Leg>, from: Id) {
    forall i :: 0 <= i < |legs| ==> legs[i].fromItemId != from
  }

  lemma {:induction false} LeftBy(legs: seq<Leg>, from: Id)
    ensures forall i :: LeavesLast(legs, from, i) ==> ModeFrom(legs, from) == Some(legs[i].mode)
    ensures NoneLeaves(legs, from) ==> ModeFrom(legs, from) == None
  {
    if legs != [] {
      var front := legs[..|legs| - 1];
      LeftBy(front, from);
      forall i | LeavesLast(legs, from, i) ensures ModeFrom(legs, from) == Some(legs[i].mode) {
        assert i < |front| ==> LeavesLast(front, from, i);
      }
    }
  }

  lemma DayNeedDay(day: Day, items: seq<Item>, previous: Option<Item>)
    requires items != []
    ensures forall need :: need in DayNeeds(day, items, previous) ==> need.day == day
  {
    InnerNeedsAre(day, items, |items|);
    var inner := InnerNeeds(day, items, |items|);
    forall need | need in inner ensures need.day == day {
      var i :| 0 <= i < |inner| && inner[i] == need;
      assert inner[i] == Need(day, items[i], items[i + 1]);
    }
  }

  lemma {:induction false} NeedDays(c: Content, k: nat, previous: Option<Item>)
    requires k <= |c.days|
    ensures forall need :: need in NeedsFrom(c, k, previous) ==> need.day in c.days
    decreases |c.days| - k
  {
    hide DayItems;
    if k < |c.days| {
      var items := DayItems(c.items, Some(c.days[k].id));
      if items == [] {
        NeedDays(c, k + 1, previous);
      } else {
        NeedDays(c, k + 1, Some(items[|items| - 1]));
        DayNeedDay(c.days[k], items, previous);
      }
    }
  }

  /** Nothing is known of the leg yet but how it is travelled. */
  predicate Untravelled(leg: Leg) {
    && leg.source == Pending && leg.distanceM == None && leg.durationS == None && leg.geometry == [] && leg.error == ""
    && leg.manualDistanceM == None && leg.manualDurationS == None && leg.plannedCost == None && leg.actualCost == None
    && leg.Route() == LegRoute(Fastest, []) && !leg.pinned && leg.segments == [] && leg.tickets == []
  }

  lemma NewLegIs(c: Content, legs: seq<Leg>, id: Id, need: Need)
    ensures var leg := NewLeg(c, legs, id, need);
            Untravelled(leg) && Serves(leg, need)
            && leg.mode == match ModeFrom(legs, need.from.id) case Some(mode) => mode
                           case None => need.day.defaultMode.GetOr(Car)
  {
    hide NeedInput;
    hide ModeFrom;
  }

  /** A new leg goes on the way the element was last left, wherever that leg led and whether
      or not it stays; an element nobody left yet is left the way of the day, or by car. */
  lemma NewLegsGoOn(c: Content, legs: seq<Leg>, ids: nat -> Id, n: nat)
    requires DistinctDays(c.days) && n < |Plan(c, legs, ids).create|
    ensures var leg := Plan(c, legs, ids).create[n];
            && Untravelled(leg)
            && (forall i :: LeavesLast(legs, leg.fromItemId, i) ==> leg.mode == legs[i].mode)
            && (exists k :: 0 <= k < |c.days| && c.days[k].id == leg.dayId)
            && (NoneLeaves(legs, leg.fromItemId) ==>
                  forall k :: 0 <= k < |c.days| && c.days[k].id == leg.dayId ==>
                    leg.mode == match c.days[k].defaultMode case Some(mode) => mode case None => Car)
  {
    hide Needs;
    hide Keeps;
    hide NewLeg;
    hide Creates;
    hide Resets;
    hide PartResets;
    hide KeptIds;
    hide Deletes;
    hide ModeFrom;
    hide LeavesLast;
    hide NoneLeaves;
    hide Untravelled;
    var k := CreatedFrom(c, legs, ids, Needs(c), n);
    var need := Needs(c)[k];
    NewLegIs(c, legs, ids(n), need);
    LeftBy(legs, need.from.id);
    NeededDay(c, k);
    var d :| 0 <= d < |c.days| && c.days[d] == need.day;
    assert c.days[d].id == need.day.id;
  }

  lemma NeededDay(c: Content, k: nat)
    requires k < |Needs(c)|
    ensures Needs(c)[k].day in c.days
  {
    hide NeedsFrom;
    NeedDays(c, 0, None);
  }

  // ------------------------------------------------------------- old legs

  /** The part is as it was, or waits for its distance and time and knows no line. */
  predicate PartGoesOn(before: Segment, part: Segment) {
    part == if part.input == before.input then before
            else before.(input := part.input, source := Pending, distanceM := None, durationS := None, geometry := [],
                      error := "")
  }

  /** The leg keeps the way it is travelled and routed, what was typed in, its money and its
      parts; what was calculated or chosen for an input it has no more, it forgets. */
  predicate GoesOn(before: Leg, leg: Leg) {
    && leg.(segments := before.segments)
       == (if leg.input == before.input then before
           else before.(input := leg.input, source := Pending, distanceM := None, durationS := None, geometry := [],
                     error := "", pinned := false))
    && |leg.segments| == |before.segments|
    && forall j :: 0 <= j < |before.segments| ==> PartGoesOn(before.segments[j], leg.segments[j])
  }

  /** A leg is keyed anew only when its input is another one now. */
  lemma {:induction false} ResetsDiffer(c: Content, legs: seq<Leg>, needs: seq<Need>, id: Id)
    ensures var input := ResetInput(Resets(c, legs, needs), id);
            input.Some? ==> exists i :: 0 <= i < |legs| && legs[i].id == id && legs[i].input != input.value
  {
    hide NeedInput;
    hide FindLeg;
    if needs != [] {
      var front, need := needs[..|needs| - 1], needs[|needs| - 1];
      ResetsDiffer(c, legs, front, id);
      ResetAppend(Resets(c, legs, front), ResetOf(c, legs, need), id);
      if Keeps(legs, need) {
        KeptServes(legs, need);
      }
    }
  }

  lemma {:induction false} MovedDiffer(c: Content, need: Need, segments: seq<Segment>, n: nat, id: Id)
    requires n <= |segments|
    ensures var input := PartResetInput(MovedParts(c, need, segments, n), id);
            input.Some? ==> exists j :: 0 <= j < n && segments[j].id == id && segments[j].input != input.value
  {
    hide NeedPartInput;
    if n > 0 {
      MovedDiffer(c, need, segments, n - 1, id);
      var input := NeedPartInput(c, need, segments, n - 1);
      PartResetAppend(MovedParts(c, need, segments, n - 1),
                      if input == segments[n - 1].input then [] else [segments[n - 1].(input := input)], id);
    }
  }

  ghost predicate HasOther(legs: seq<Leg>, id: Id, input: string) {
    exists i, j :: 0 <= i < |legs| && 0 <= j < |legs[i].segments| && legs[i].segments[j].id == id
                   && legs[i].segments[j].input != input
  }

  lemma {:induction false} PartResetsDiffer(c: Content, legs: seq<Leg>, needs: seq<Need>, id: Id)
    ensures var input := PartResetInput(PartResets(c, legs, needs), id);
            input.Some? ==> HasOther(legs, id, input.value)
  {
    hide FindLeg;
    hide MovedParts;
    if needs != [] {
      var front, need := needs[..|needs| - 1], needs[|needs| - 1];
      PartResetsDiffer(c, legs, front, id);
      PartResetAppend(PartResets(c, legs, front), PartResetsOf(c, legs, need), id);
      if Keeps(legs, need) {
        KeptServes(legs, need);
        var leg := KeptLeg(legs, need);
        MovedDiffer(c, need, leg.segments, |leg.segments|, id);
        var i :| 0 <= i < |legs| && legs[i] == leg;
      }
    }
  }

  lemma PartsGoOn(c: Content, rows: seq<Leg>, ids: nat -> Id, r: nat, j: nat)
    requires DistinctParts(rows) && r < |rows| && j < |rows[r].segments|
    ensures PartGoesOn(rows[r].segments[j], SyncPart(rows[r].segments[j], Plan(c, Read(rows), ids)))
  {
    hide Needs;
    hide Creates;
    hide Resets;
    hide PartResets;
    hide Deletes;
    hide KeptIds;
    hide Folded;
    var legs, part := Read(rows), rows[r].segments[j];
    PartResetsDiffer(c, legs, Needs(c), part.id);
    var input := PartResetInput(PartResets(c, legs, Needs(c)), part.id);
    if input.Some? {
      var i, k :| 0 <= i < |legs| && 0 <= k < |legs[i].segments| && legs[i].segments[k].id == part.id
                  && legs[i].segments[k].input != input.value;
      FoldKeepsIdentity(rows[i]);
      assert rows[i].segments[k].id == rows[r].segments[j].id;
    }
  }

  /** Bringing the legs in line deletes a leg or leaves it as its owner made it: whatever is
      left was there before, under the same identifier, or is new. */
  lemma LegsGoOn(c: Content, rows: seq<Leg>, ids: nat -> Id, at: nat) returns (r: nat)
    requires DistinctLegs(rows) && DistinctParts(rows)
    requires at < |Synced(rows, Plan(c, Read(rows), ids))|
    ensures var plan := Plan(c, Read(rows), ids);
            var leg := Synced(rows, plan)[at];
            if at < |Synced(rows, plan)| - |plan.create| then r < |rows| && GoesOn(rows[r], leg)
            else leg == plan.create[at - (|Synced(rows, plan)| - |plan.create|)].(preference := Fastest)
  {
    hide Plan;
    hide Folded;
    var plan := Plan(c, Read(rows), ids);
    if at < |SyncRows(rows, plan)| {
      r := SyncedRowFrom(rows, plan, at);
      RowGoesOn(c, rows, ids, r);
    } else {
      r := 0;
    }
  }

  lemma RowGoesOn(c: Content, rows: seq<Leg>, ids: nat -> Id, r: nat)
    requires DistinctLegs(rows) && DistinctParts(rows) && r < |rows|
    ensures GoesOn(rows[r], SyncRow(rows[r], Plan(c, Read(rows), ids)))
  {
    hide Needs;
    hide Creates;
    hide Resets;
    hide PartResets;
    hide Deletes;
    hide KeptIds;
    hide Folded;
    hide SyncPart;
    hide PartGoesOn;
    var legs, plan := Read(rows), Plan(c, Read(rows), ids);
    forall j | 0 <= j < |rows[r].segments|
      ensures PartGoesOn(rows[r].segments[j], SyncPart(rows[r].segments[j], plan))
    {
      PartsGoOn(c, rows, ids, r, j);
    }
    ResetsDiffer(c, legs, Needs(c), rows[r].id);
    var input := ResetInput(plan.reset, rows[r].id);
    if input.Some? {
      var i :| 0 <= i < |legs| && legs[i].id == rows[r].id && legs[i].input != input.value;
      FoldKeepsIdentity(rows[i]);
    }
  }
}
