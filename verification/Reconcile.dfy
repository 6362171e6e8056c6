/**
 The legs a document's days need, and the changes that bring the stored legs in
 line with them (ReconcileLegs in backend/internal/domain/leg.go).
 */
module Reconcile {
  import opened Common
  import opened Polyline
  import opened Document
  import opened LegInput
  import opened LegFold

  /** A pair of neighbours that must have a leg, owned by a day. */
  datatype Need = Need(day: Day, from: Item, to: Item)

  /** The journey into a day from the last element of the nearest earlier day that
      has any, unless the day opens with a stay mark. */
  function OpeningNeed(day: Day, items: seq<Item>, previous: Option<Item>): seq<Need> {
    if items != [] && previous.Some? && items[0].anchor != Morning then [Need(day, previous.value, items[0])] else []
  }

  function InnerNeeds(day: Day, items: seq<Item>, n: nat): seq<Need>
    requires 1 <= n <= |items|
  {
    if n == 1 then [] else InnerNeeds(day, items, n - 1) + [Need(day, items[n - 2], items[n - 1])]
  }

  /** The pairs one day needs. */
  function DayNeeds(day: Day, items: seq<Item>, previous: Option<Item>): seq<Need>
    requires items != []
  {
    OpeningNeed(day, items, previous) + InnerNeeds(day, items, |items|)
  }

  /** The pairs the days from the k-th on need. */
  function NeedsFrom(c: Content, k: nat, previous: Option<Item>): seq<Need>
    requires k <= |c.days|
    decreases |c.days| - k
  {
    if k == |c.days| then []
    else
      var day := c.days[k];
      var items := DayItems(c.items, Some(day.id));
      if items == [] then NeedsFrom(c, k + 1, previous)
      else DayNeeds(day, items, previous) + NeedsFrom(c, k + 1, Some(items[|items| - 1]))
  }

  function Needs(c: Content): seq<Need> {
    NeedsFrom(c, 0, None)
  }

  // ------------------------------------------------------------- the plan

  /** The leg a pair of elements has; the last one when there are several. */
  function FindLeg(legs: seq<Leg>, from: Id, to: Id): Option<Leg> {
    if legs == [] then None
    else
      var last := legs[|legs| - 1];
      if last.fromItemId == from && last.toItemId == to then Some(last) else FindLeg(legs[..|legs| - 1], from, to)
  }

  /** How the element was last left. */
  function ModeFrom(legs: seq<Leg>, from: Id): Option<TravelMode> {
    if legs == [] then None
    else
      var last := legs[|legs| - 1];
      if last.fromItemId == from then Some(last.mode) else ModeFrom(legs[..|legs| - 1], from)
  }

  /** The need is met by a leg the document has already. */
  predicate Keeps(legs: seq<Leg>, need: Need) {
    var found := FindLeg(legs, need.from.id, need.to.id);
    found.Some? && found.value.dayId == need.day.id
  }

  function KeptLeg(legs: seq<Leg>, need: Need): Leg
    requires Keeps(legs, need)
  {
    FindLeg(legs, need.from.id, need.to.id).value
  }

  function NeedStart(c: Content, need: Need): Option<Point> {
    LegStart(need.from, c.stays, c.tracks)
  }

  function NeedEnd(c: Content, need: Need): Option<Point> {
    LegEnd(need.to, c.stays, c.tracks)
  }

  /** The input a leg travelled one way must have. */
  function NeedInput(c: Content, need: Need, mode: TravelMode, route: LegRoute): string {
    Input(mode, NeedStart(c, need), NeedEnd(c, need), route)
  }

  /** The input a part of a leg with changes must have. */
  function NeedPartInput(c: Content, need: Need, segments: seq<Segment>, index: nat): string
    requires index < |segments|
  {
    PartInput(segments[index].mode, PartStart(segments, NeedStart(c, need), index),
              PartEnd(segments, NeedEnd(c, need), index))
  }

  function NewMode(legs: seq<Leg>, need: Need): TravelMode {
    match ModeFrom(legs, need.from.id)
    case Some(mode) => mode
    case None => need.day.defaultMode.GetOr(Car)
  }

  function NewLeg(c: Content, legs: seq<Leg>, id: Id, need: Need): Leg {
    var mode := NewMode(legs, need);
    Leg(id, need.day.id, need.from.id, need.to.id, mode, None, None, [], Pending, "",
        NeedInput(c, need, mode, DEFAULT_ROUTE), None, None, None, None, Unset, [], false, [], [])
  }

  function Creates(c: Content, legs: seq<Leg>, ids: nat -> Id, needs: seq<Need>): seq<Leg> {
    if needs == [] then []
    else
      var before := Creates(c, legs, ids, needs[..|needs| - 1]);
      var need := needs[|needs| - 1];
      if Keeps(legs, need) then before else before + [NewLeg(c, legs, ids(|before|), need)]
  }

  /** The leg of a need, when it is kept but its mode or points changed. */
  function ResetOf(c: Content, legs: seq<Leg>, need: Need): seq<Leg> {
    if !Keeps(legs, need) || KeptLeg(legs, need).Composite() then []
    else
      var leg := KeptLeg(legs, need);
      var input := NeedInput(c, need, leg.mode, leg.Route());
      if input == leg.input then [] else [leg.(input := input)]
  }

  function Resets(c: Content, legs: seq<Leg>, needs: seq<Need>): seq<Leg> {
    if needs == [] then []
    else Resets(c, legs, needs[..|needs| - 1]) + ResetOf(c, legs, needs[|needs| - 1])
  }

  /** The first n parts of a leg whose ends moved, with the input they need now. */
  function MovedParts(c: Content, need: Need, segments: seq<Segment>, n: nat): seq<Segment>
    requires n <= |segments|
  {
    if n == 0 then []
    else
      var input := NeedPartInput(c, need, segments, n - 1);
      MovedParts(c, need, segments, n - 1)
      + if input == segments[n - 1].input then [] else [segments[n - 1].(input := input)]
  }

  function PartResetsOf(c: Content, legs: seq<Leg>, need: Need): seq<Segment> {
    if !Keeps(legs, need) || !KeptLeg(legs, need).Composite() then []
    else MovedParts(c, need, KeptLeg(legs, need).segments, |KeptLeg(legs, need).segments|)
  }

  function PartResets(c: Content, legs: seq<Leg>, needs: seq<Need>): seq<Segment> {
    if needs == [] then []
    else PartResets(c, legs, needs[..|needs| - 1]) + PartResetsOf(c, legs, needs[|needs| - 1])
  }

  function KeptIds(legs: seq<Leg>, needs: seq<Need>): set<Id> {
    if needs == [] then {}
    else
      var need := needs[|needs| - 1];
      KeptIds(legs, needs[..|needs| - 1]) + if Keeps(legs, need) then {KeptLeg(legs, need).id} else {}
  }

  function Deletes(legs: seq<Leg>, kept: set<Id>): seq<Id> {
    if legs == [] then []
    else Deletes(legs[..|legs| - 1], kept)
         + if legs[|legs| - 1].id in kept then [] else [legs[|legs| - 1].id]
  }

  /** Legs to insert, legs to key anew, identifiers to remove and parts to key anew. */
  datatype LegPlan = LegPlan(create: seq<Leg>, reset: seq<Leg>, delete: seq<Id>, resetSegments: seq<Segment>)

  /** The plan as a function of the document, its legs and the identifiers given out. */
  function Plan(c: Content, legs: seq<Leg>, ids: nat -> Id): LegPlan {
    var needs := Needs(c);
    LegPlan(Creates(c, legs, ids, needs), Resets(c, legs, needs), Deletes(legs, KeptIds(legs, needs)),
            PartResets(c, legs, needs))
  }

  // ------------------------------------------------------------- the code

  ghost predicate Indexes(byPair: map<(Id, Id), Leg>, modeFrom: map<Id, TravelMode>, legs: seq<Leg>) {
    && (forall from, to :: FindLeg(legs, from, to) == if (from, to) in byPair then Some(byPair[(from, to)]) else None)
    && (forall from :: ModeFrom(legs, from) == if from in modeFrom then Some(modeFrom[from]) else None)
  }

  method IndexLegs(legs: seq<Leg>) returns (byPair: map<(Id, Id), Leg>, modeFrom: map<Id, TravelMode>)
    ensures Indexes(byPair, modeFrom, legs)
  {
    byPair, modeFrom := map[], map[];
    for index := 0 to |legs|
      invariant Indexes(byPair, modeFrom, legs[..index])
    {
      assert legs[..index + 1][..index] == legs[..index];
      byPair := byPair[(legs[index].fromItemId, legs[index].toItemId) := legs[index]];
      modeFrom := modeFrom[legs[index].fromItemId := legs[index].mode];
    }
    assert legs[..|legs|] == legs;
  }

  /** Keeps or creates the leg between two elements, owned by a day. */
  method MeetNeed(c: Content, ghost legs: seq<Leg>, byPair: map<(Id, Id), Leg>, modeFrom: map<Id, TravelMode>,
                  ids: nat -> Id, need: Need, plan: LegPlan, kept: set<Id>, ghost met: seq<Need>)
    returns (plan': LegPlan, kept': set<Id>)
    requires Indexes(byPair, modeFrom, legs)
    requires Met(c, legs, ids, met, plan, kept)
    ensures Met(c, legs, ids, met + [need], plan', kept')
  {
    hide Input;
    hide LegStart;
    hide LegEnd;
    hide PartStart;
    hide PartEnd;
    hide FindLeg;
    hide ModeFrom;
    hide NeedInput;
    hide PartInput;
    plan', kept' := plan, kept;
    assert (met + [need])[..|met|] == met;
    var pair := (need.from.id, need.to.id);
    if pair in byPair && byPair[pair].dayId == need.day.id {
      var leg := byPair[pair];
      kept' := kept' + {leg.id};
      if leg.Composite() {
        var starts, ends := SegmentEnds(leg.segments, NeedStart(c, need), NeedEnd(c, need));
        for index := 0 to |leg.segments|
          invariant plan' == plan.(resetSegments := plan.resetSegments + MovedParts(c, need, leg.segments, index))
        {
          var segment := leg.segments[index];
          var input := PartInput(segment.mode, starts[index], ends[index]);
          if input != segment.input {
            plan' := plan'.(resetSegments := plan'.resetSegments + [segment.(input := input)]);
          }
        }
        return;
      }
      var input := NeedInput(c, need, leg.mode, leg.Route());
      if input != leg.input {
        plan' := plan'.(reset := plan'.reset + [leg.(input := input)]);
      }
      return;
    }
    var mode := if need.from.id in modeFrom then modeFrom[need.from.id] else need.day.defaultMode.GetOr(Car);
    plan' := plan'.(create := plan'.create + [
      Leg(ids(|plan'.create|), need.day.id, need.from.id, need.to.id, mode, None, None, [], Pending, "",
          NeedInput(c, need, mode, DEFAULT_ROUTE), None, None, None, None, Unset, [], false, [], [])]);
  }

  /** The plan holds what the pairs met so far require. */
  ghost predicate Met(c: Content, legs: seq<Leg>, ids: nat -> Id, met: seq<Need>, plan: LegPlan, kept: set<Id>) {
    && plan == LegPlan(Creates(c, legs, ids, met), Resets(c, legs, met), [], PartResets(c, legs, met))
    && kept == KeptIds(legs, met)
  }

  /** Keeps or creates the legs of one day: into it, and between its elements. */
  method MeetDay(c: Content, ghost legs: seq<Leg>, byPair: map<(Id, Id), Leg>, modeFrom: map<Id, TravelMode>,
                 ids: nat -> Id, day: Day, items: seq<Item>, previous: Option<Item>, plan: LegPlan, kept: set<Id>,
                 ghost met: seq<Need>)
    returns (plan': LegPlan, kept': set<Id>)
    requires Indexes(byPair, modeFrom, legs)
    requires Met(c, legs, ids, met, plan, kept)
    requires items != []
    ensures Met(c, legs, ids, met + DayNeeds(day, items, previous), plan', kept')
  {
    hide Indexes;
    hide Met;
    plan', kept' := plan, kept;
    ghost var entered := met + OpeningNeed(day, items, previous);
    if previous.Some? && items[0].anchor != Morning {
      plan', kept' := MeetNeed(c, legs, byPair, modeFrom, ids, Need(day, previous.value, items[0]), plan', kept', met);
    } else {
      assert entered == met;
    }
    var index := 1;
    assert entered + InnerNeeds(day, items, index) == entered;
    while index < |items|
      invariant 1 <= index <= |items|
      invariant Met(c, legs, ids, entered + InnerNeeds(day, items, index), plan', kept')
    {
      plan', kept' := MeetNeed(c, legs, byPair, modeFrom, ids, Need(day, items[index - 1], items[index]), plan', kept',
                               entered + InnerNeeds(day, items, index));
      assert entered + InnerNeeds(day, items, index + 1)
          == entered + InnerNeeds(day, items, index) + [Need(day, items[index - 1], items[index])];
      index := index + 1;
    }
    assert entered + InnerNeeds(day, items, |items|) == met + DayNeeds(day, items, previous);
  }

  method DropLegs(legs: seq<Leg>, kept: set<Id>) returns (delete: seq<Id>)
    ensures delete == Deletes(legs, kept)
  {
    delete := [];
    for index := 0 to |legs|
      invariant delete == Deletes(legs[..index], kept)
    {
      assert legs[..index + 1][..index] == legs[..index];
      if legs[index].id !in kept {
        delete := delete + [legs[index].id];
      }
    }
    assert legs[..|legs|] == legs;
  }

  lemma {:induction false} NeedsEnd(c: Content)
    ensures Needs(c) == [] + NeedsFrom(c, 0, None)
  {
  }

  lemma {:induction false} NeedsDone(c: Content, previous: Option<Item>)
    ensures NeedsFrom(c, |c.days|, previous) == []
  {
  }

  lemma NothingMet(c: Content, legs: seq<Leg>, ids: nat -> Id)
    ensures Met(c, legs, ids, [], LegPlan([], [], [], []), {})
  {
  }

  lemma NeedsStep(c: Content, k: nat, previous: Option<Item>)
    requires k < |c.days|
    ensures var items := DayItems(c.items, Some(c.days[k].id));
            NeedsFrom(c, k, previous)
            == if items == [] then NeedsFrom(c, k + 1, previous)
               else DayNeeds(c.days[k], items, previous) + NeedsFrom(c, k + 1, Some(items[|items| - 1]))
  {
  }

  method ReconcileLegs(c: Content, legs: seq<Leg>, ids: nat -> Id) returns (plan: LegPlan)
    ensures plan == Plan(c, legs, ids)
  {
    hide Indexes;
    hide DayItems;
    hide DayNeeds;
    hide NeedsFrom;
    hide Creates;
    hide Resets;
    hide PartResets;
    hide KeptIds;
    NeedsEnd(c);
    NothingMet(c, legs, ids);
    var byPair, modeFrom := IndexLegs(legs);
    var kept: set<Id> := {};
    ghost var met: seq<Need> := [];
    plan := LegPlan([], [], [], []);
    var previous: Option<Item> := None;
    for k := 0 to |c.days|
      invariant Met(c, legs, ids, met, plan, kept)
      invariant met + NeedsFrom(c, k, previous) == Needs(c)
    {
      var day := c.days[k];
      var items := ListDayItems(c.items, Some(day.id));
      NeedsStep(c, k, previous);
      if |items| == 0 {
        continue;
      }
      plan, kept := MeetDay(c, legs, byPair, modeFrom, ids, day, items, previous, plan, kept, met);
      met := met + DayNeeds(day, items, previous);
      previous := Some(items[|items| - 1]);
    }
    NeedsDone(c, previous);
    assert met == Needs(c);
    var delete := DropLegs(legs, kept);
    plan := plan.(delete := delete);
  }
}
