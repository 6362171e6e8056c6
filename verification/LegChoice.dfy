/**
 A chosen route (handlePinLegRoute in backend/internal/httpapi/legs.go) is checked
 against ends read after the leg itself was, so it can be stored for ends it was
 never checked against: when the ends move between the two reads and move back
 before the store.
 */
module LegChoice {
  import opened Common
  import opened Polyline
  import opened Document
  import opened LegInput
  import opened LegFold
  import opened Reconcile
  import opened LegSync
  import opened LegFixpoint
  import opened LegReaders
  import opened LegJobs
  import opened LegMoves
  import opened LegRuns

  // ------------------------------------------------------------- runs put together

  lemma {:induction false} NoSteps(s: State)
    ensures Run(s, []) && After(s, []) == s && ChoicesInPlace(s, [])
  {
  }

  lemma {:induction false} StepThen(s: State, e: Event, s': State, rest: seq<Event>)
    requires Allowed(s, e) && Next(s, e) == s' && Run(s', rest)
    ensures Run(s, [e] + rest) && After(s, [e] + rest) == After(s', rest)
    ensures ChoicesInPlace(s', rest) && !e.CheckChoice? ==> ChoicesInPlace(s, [e] + rest)
  {
    hide Allowed;
    hide Next;
    hide InPlace;
    assert ([e] + rest)[1..] == rest;
  }

  lemma {:induction false} StepsThen(states: seq<State>, events: seq<Event>, rest: seq<Event>)
    requires |states| == |events| + 1
    requires forall i :: 0 <= i < |events| ==>
               Allowed(states[i], events[i]) && Next(states[i], events[i]) == states[i + 1]
    requires Run(states[|events|], rest)
    ensures Run(states[0], events + rest) && After(states[0], events + rest) == After(states[|events|], rest)
    ensures ChoicesInPlace(states[|events|], rest) && (forall i :: 0 <= i < |events| ==> !events[i].CheckChoice?) ==>
              ChoicesInPlace(states[0], events + rest)
    decreases |events|
  {
    hide Allowed;
    hide Next;
    hide Run;
    hide After;
    hide ChoicesInPlace;
    if events == [] {
      assert events + rest == rest;
    } else {
      StepsThen(states[1..], events[1..], rest);
      StepThen(states[0], events[0], states[1], events[1..] + rest);
      assert events + rest == [events[0]] + (events[1..] + rest);
    }
  }

  /** Identifiers that follow one another. */
  function From(n: int): nat -> Id {
    (k: nat) => n + k
  }

  lemma {:induction false} Above(ids: set<int>) returns (n: int)
    ensures forall id :: id in ids ==> id < n
    decreases ids
  {
    n := 0;
    if id :| id in ids {
      var m := Above(ids - {id});
      n := Max(m, id + 1);
      forall other | other in ids ensures other < n {
        assert other == id || other in ids - {id};
      }
    }
  }

  lemma NewIds(s: State, rows: seq<Leg>, n: int)
    requires IdsOf(rows) <= s.ids && forall id :: id in s.ids ==> id < n
    ensures Fresh(From(n), rows) && Unused(s, From(n))
  {
    forall i | 0 <= i < |rows| ensures rows[i].id < n {
      assert rows[i].id in IdsOf(rows);
    }
  }

  // ------------------------------------------------------------- moving the ends

  function StayAt(id: Id, point: Option<Point>): Stay {
    Stay(id, "", LatOf(point), LngOf(point), "", None, None, 0, 0)
  }

  function LatOf(point: Option<Point>): Option<int> {
    if point.Some? then Some(point.value.lat) else None
  }

  function LngOf(point: Option<Point>): Option<int> {
    if point.Some? then Some(point.value.lng) else None
  }

  function Same(id: Id): Id {
    id
  }

  /** An element moved to a point; a stay mark by naming a stay that is there. */
  function Moved(item: Item, point: Option<Point>, stay: Id): Item {
    if item.kind == StayAnchor then item.(stayId := Some(stay)) else item.(lat := LatOf(point), lng := LngOf(point))
  }

  function MovedItems(items: seq<Item>, from: Id, to: Id, p: Option<Point>, q: Option<Point>, n: Id): (r: seq<Item>)
    ensures SamePlaces(Same, items, r)
    ensures forall i :: 0 <= i < |r| ==> r[i].dayId == items[i].dayId
    ensures forall i :: 0 <= i < |r| ==>
              r[i] == if items[i].id == from then Moved(items[i], p, n)
                      else if items[i].id == to then Moved(items[i], q, n + 1)
                      else items[i]
  {
    seq(|items|, i requires 0 <= i < |items| =>
      if items[i].id == from then Moved(items[i], p, n)
      else if items[i].id == to then Moved(items[i], q, n + 1)
      else items[i])
  }

  /** The recordings but those of two elements. */
  function OtherTracks(tracks: seq<Track>, a: Id, b: Id): (r: seq<Track>)
    ensures TrackOfItem(r, a) == None && TrackOfItem(r, b) == None
  {
    if tracks == [] then []
    else
      var rest := OtherTracks(tracks[1..], a, b);
      if tracks[0].itemId == a || tracks[0].itemId == b then rest
      else
        assert ([tracks[0]] + rest)[1..] == rest;
        [tracks[0]] + rest
  }

  /** The document with two of its elements moved, their recordings removed. */
  function EndsMoved(c: Content, from: Id, to: Id, p: Option<Point>, q: Option<Point>, n: Id): Content {
    c.(items := MovedItems(c.items, from, to, p, q, n), stays := c.stays + [StayAt(n, p), StayAt(n + 1, q)],
       tracks := OtherTracks(c.tracks, from, to))
  }

  lemma NewStays(stays: seq<Stay>, n: Id, p: Option<Point>, q: Option<Point>)
    ensures StayById(stays + [StayAt(n, p), StayAt(n + 1, q)], n) == Some(StayAt(n, p))
    ensures StayById(stays + [StayAt(n, p), StayAt(n + 1, q)], n + 1) == Some(StayAt(n + 1, q))
  {
    var more := stays + [StayAt(n, p), StayAt(n + 1, q)];
    assert more[..|more| - 1] == stays + [StayAt(n, p)];
  }

  lemma MovedDistinct(items: seq<Item>, moved: seq<Item>)
    requires DistinctItems(items) && SamePlaces(Same, items, moved)
    ensures DistinctItems(moved)
  {
    forall i, j | 0 <= i < j < |moved| ensures moved[i].id != moved[j].id {
      assert SamePlace(Same, items[i], moved[i]) && SamePlace(Same, items[j], moved[j]);
    }
  }

  /** Where a moved element is. */
  lemma {:induction false} MovedPoint(item: Item, point: Option<Point>, stays: seq<Stay>, n: Id)
    requires StayById(stays, n) == Some(StayAt(n, point))
    ensures ItemPoint(Moved(item, point, n), stays) == point
  {
    hide StayById;
  }

  /** A leg between the moved elements runs between the points they were moved to. */
  lemma EndsAre(c: Content, leg: Leg, p: Option<Point>, q: Option<Point>, n: Id)
    requires DistinctItems(c.items) && leg.fromItemId != leg.toItemId
    requires exists item :: item in c.items && item.id == leg.fromItemId
    requires exists item :: item in c.items && item.id == leg.toItemId
    ensures var d := EndsMoved(c, leg.fromItemId, leg.toItemId, p, q, n);
            DistinctItems(d.items) && StartOf(d, leg) == p && EndOf(d, leg) == q
  {
    hide OtherTracks;
    hide StayById;
    hide ItemById;
    hide TrackOfItem;
    hide ItemPoint;
    hide Moved;
    hide SamePlaces;
    var d := EndsMoved(c, leg.fromItemId, leg.toItemId, p, q, n);
    NewStays(c.stays, n, p, q);
    var i :| 0 <= i < |c.items| && c.items[i].id == leg.fromItemId;
    var j :| 0 <= j < |c.items| && c.items[j].id == leg.toItemId;
    MovedDistinct(c.items, d.items);
    MovedPoint(c.items[i], p, d.stays, n);
    MovedPoint(c.items[j], q, d.stays, n + 1);
    MovedKeepsId(c.items[i], p, n);
    MovedKeepsId(c.items[j], q, n + 1);
    FoundItem(d.items, d.items[i]);
    FoundItem(d.items, d.items[j]);
  }

  lemma MovedKeepsId(item: Item, point: Option<Point>, stay: Id)
    ensures Moved(item, point, stay).id == item.id
  {
  }

  // ------------------------------------------------------------- the leg made plain

  lemma PlainInput(s: State, i: nat)
    requires Lined(s) && i < |s.rows| && !s.rows[i].Composite()
    ensures InputNow(s.content, s.rows[i]) == s.rows[i].input
  {
    hide LegRuns.InLine;
    hide Input;
    RowInput(s.content, s.rows, i);
  }

  /** The need a stored leg serves. */
  lemma NeedServed(s: State, i: nat) returns (need: Need)
    requires Lined(s) && i < |s.rows|
    ensures need in Needs(s.content) && Serves(s.rows[i], need) && DistinctPairs(s.rows) && DistinctLegs(s.rows)
  {
    hide Needs;
    hide Folded;
    hide Current;
    var legs := Read(s.rows);
    ReadPairs(s.rows);
    assert Needed(legs[i], Needs(s.content));
    var k :| 0 <= k < |Needs(s.content)| && Serves(legs[i], Needs(s.content)[k]);
    need := Needs(s.content)[k];
  }

  /** What the steps of the way back leave alone. */
  predicate SameSaves(s: State, t: State) {
    t.saves == s.saves && t.answers == s.answers
  }

  /** Whoever read a leg makes it one travelled one way; it stays, and what it holds itself
      stays as well if that is stored under what it asks for then. */
  lemma MadePlain(s: State, leg: nat, parts: seq<Segment>) returns (e: Event, t: State, r: nat, i: nat)
    requires Lined(s) && leg < |s.read| && !Gone(s, s.read[leg].id) && |parts| < 2 && NewParts(parts, s.rows)
    ensures e.SetParts? && Allowed(s, e) && Next(s, e) == t && Lined(t) && SameSaves(s, t)
    ensures r < |s.rows| && s.rows[r].id == s.read[leg].id
    ensures i < |t.rows| && t.rows[i].id == s.read[leg].id && t.rows[i].segments == []
    ensures var row := WithParts(s.rows[r], s.read[leg], parts, [], None, None);
            && t.rows[i].mode == row.mode
            && (row.input == Input(row.mode, StartOf(s.content, row), EndOf(s.content, row), row.Route()) ==>
                  t.rows[i] == row)
  {
    hide Plan;
    hide Needs;
    hide SyncRow;
    hide Collapsed;
    hide Lined;
    hide Input;
    hide StartOf;
    hide EndOf;
    var seen := s.read[leg];
    r :| 0 <= r < |s.rows| && s.rows[r].id == seen.id;
    var n := Above(s.ids);
    e := SetParts(leg, parts, [], None, None, From(n));
    RowIds(s);
    NewIds(s, s.rows, n);
    SetPartsLines(s, e);
    var need := NeedServed(s, r);
    var rows := Replaced(s.rows, seen, parts, [], None, None);
    forall j | 0 <= j < |rows|
      ensures rows[j].id == s.rows[j].id && rows[j].dayId == s.rows[j].dayId
      ensures rows[j].fromItemId == s.rows[j].fromItemId && rows[j].toItemId == s.rows[j].toItemId
    {
      WithPartsIds(s.rows[j], seen, parts, [], None, None);
    }
    WithPartsIds(s.rows[r], seen, parts, [], None, None);
    i := Survives(s.content, rows, From(n), r, need);
    SyncKeepsIdentity(rows[r], Plan(s.content, Read(rows), From(n)));
    t := Next(s, e);
    var row := WithParts(s.rows[r], seen, parts, [], None, None);
    if row.input == Input(row.mode, StartOf(s.content, row), EndOf(s.content, row), row.Route()) {
      CurrentKept(s.content, rows, From(n), r, need);
    }
  }

  lemma RowIds(s: State)
    requires Lined(s)
    ensures IdsOf(s.rows) <= s.ids && DistinctItems(s.content.items) && DistinctDays(s.content.days)
    ensures DistinctParts(s.rows)
  {
  }

  // ------------------------------------------------------------- the ends moved back

  lemma OneEdited(rows: seq<Leg>, i: nat, row: Leg)
    requires i < |rows| && DistinctLegs(rows) && Edits(rows[i], row)
    ensures EditOf(rows, rows[i := row])
    ensures IdsOf(rows[i := row]) == IdsOf(rows)
    ensures DistinctPairs(rows) ==> DistinctPairs(rows[i := row])
  {
    var edited := rows[i := row];
    forall j | 0 <= j < |rows| ensures Edits(rows[j], edited[j]) && edited[j].id == rows[j].id {
    }
  }

  lemma EndsEdited(s: State, i: nat, row: Leg, p: Option<Point>, q: Option<Point>)
    returns (e: Event, n: int, need: Need)
    requires Lined(s) && i < |s.rows| && Edits(s.rows[i], row)
    ensures e == Edit(EndsMoved(s.content, row.fromItemId, row.toItemId, p, q, n), s.rows[i := row], From(n))
    ensures Allowed(s, e) && Lined(Next(s, e)) && StartOf(e.content, row) == p && EndOf(e.content, row) == q
    ensures need in Needs(e.content) && Serves(row, need) && DistinctPairs(e.edited) && DistinctLegs(e.edited)
  {
    hide Needs;
    hide Lined;
    hide StartOf;
    hide EndOf;
    n := Above(s.ids);
    var c, edited := EndsMoved(s.content, row.fromItemId, row.toItemId, p, q, n), s.rows[i := row];
    var before := NeedServed(s, i);
    RowIds(s);
    OneEdited(s.rows, i, row);
    NewIds(s, edited, n);
    TwoEnds(s.content, before);
    NeedItems(s.content, before);
    EndsAre(s.content, row, p, q, n);
    EndsMovedOrder(s.content, row.fromItemId, row.toItemId, p, q, n);
    hide EndsMoved;
    hide EditOf;
    hide Edits;
    e := Edit(c, edited, From(n));
    EditLines(s, e);
    NeedsSame(Same, Same, s.content, c);
    var k :| 0 <= k < |Needs(s.content)| && Needs(s.content)[k] == before;
    need := Needs(c)[k];
    assert SameNeed(Same, Same, before, need);
  }

  /** A leg is edited and its ends are moved to two points; it stays, and a leg with changes
      keeps what it holds itself. */
  lemma MovedBack(s: State, i: nat, row: Leg, p: Option<Point>, q: Option<Point>)
    returns (e: Event, t: State, j: nat)
    requires Lined(s) && i < |s.rows| && Edits(s.rows[i], row)
    ensures e.Edit? && Allowed(s, e) && Next(s, e) == t && Lined(t) && SameSaves(s, t)
    ensures j < |t.rows| && t.rows[j].id == row.id && |t.rows[j].segments| == |row.segments|
    ensures t.rows[j].mode == row.mode && t.rows[j].Route() == row.Route()
    ensures StartOf(t.content, t.rows[j]) == p && EndOf(t.content, t.rows[j]) == q
    ensures row.Composite() ==> t.rows[j].input == row.input && CalculationOf(t.rows[j]) == CalculationOf(row)
  {
    hide Plan;
    hide Needs;
    hide SyncRow;
    hide Lined;
    hide StartOf;
    hide EndOf;
    hide EndsMoved;
    hide Allowed;
    hide Edits;
    var n, need;
    e, n, need := EndsEdited(s, i, row, p, q);
    j := Survives(e.content, e.edited, e.ids, i, need);
    SyncKeepsIdentity(row, Plan(e.content, Read(e.edited), e.ids));
    t := Next(s, e);
    SameEnds(e.content, row, t.rows[j]);
    if row.Composite() {
      CompositeKept(e.content, e.edited, e.ids, i);
    }
  }

  lemma EndsMovedOrder(c: Content, from: Id, to: Id, p: Option<Point>, q: Option<Point>, n: Id)
    ensures SameOrder(Same, Same, c, EndsMoved(c, from, to, p, q, n))
  {
    hide OtherTracks;
    hide Moved;
    hide SamePlaces;
  }

  lemma SameEnds(c: Content, a: Leg, b: Leg)
    requires a.fromItemId == b.fromItemId && a.toItemId == b.toItemId
    ensures StartOf(c, a) == StartOf(c, b) && EndOf(c, a) == EndOf(c, b)
  {
  }

  // ------------------------------------------------------------- when a choice goes stale

  /** The leg runs where it ran when it was read, and holds a calculation. */
  ghost predicate Holding(s: State, seen: Leg, calculation: Calculation) {
    exists i :: 0 <= i < |s.rows| && s.rows[i].id == seen.id && !s.rows[i].Composite()
                && InputNow(s.content, s.rows[i]) == seen.input && CalculationOf(s.rows[i]) == calculation
  }

  /** A chosen route stored under an input it was not given for. */
  lemma StoredStale(s: State, save: nat, i: nat, seen: Leg)
    requires Lined(s) && save < |s.saves| && i < |s.rows| && s.rows[i].segments == []
    requires var sent := s.saves[save];
             && !sent.part && sent.id == seen.id == s.rows[i].id && sent.input == seen.input == s.rows[i].input
             && sent.calculation.source != Pending && Answer(sent.input, sent.calculation) !in s.answers
    ensures Allowed(s, Deliver(save)) && !NothingStale(Next(s, Deliver(save)))
    ensures Holding(Next(s, Deliver(save)), seen, s.saves[save].calculation)
  {
    hide Lined;
    hide InputNow;
    var t := Next(s, Deliver(save));
    DeliverLines(s, save);
    PlainInput(t, i);
    assert CalculationOf(t.rows[i]) == s.saves[save].calculation && !t.rows[i].Composite();
    assert t.rows[i].source != Pending;
  }

  /** The leg is made plain, asked to be routed as it was when it was read, its ends are put
      where they were then, and the chosen route is stored. */
  lemma WayBack(s: State, leg: nat, calculation: Calculation) returns (events: seq<Event>)
    requires Inv(s) && Allowed(s, CheckChoice(leg, calculation))
    requires !InPlace(s, s.read[leg]) && Answer(s.read[leg].input, calculation) !in s.answers
    ensures var t := Next(s, CheckChoice(leg, calculation));
            && Run(t, events) && ChoicesInPlace(t, events)
            && !NothingStale(After(t, events)) && Holding(After(t, events), s.read[leg], calculation)
  {
    hide Inv;
    hide Holding;
    hide Allowed;
    hide Next;
    hide NothingStale;
    hide Run;
    hide After;
    hide ChoicesInPlace;
    var seen, t := ChoiceTaken(s, leg, calculation);
    InvLined(t);
    var e1, t1, r, i := MadePlain(t, leg, []);
    var mode, from, to, route := InputRead(t, leg);
    var row := t1.rows[i].(mode := mode, preference := route.preference, via := route.via);
    var e2, t2, j := MovedBack(t1, i, row, from, to);
    SeenAgain(t2, j, seen, from, to, route, row);
    var e3 := Deliver(|s.saves|);
    StoredStale(t2, |s.saves|, j, seen);
    NoSteps(Next(t2, e3));
    StepThen(t2, e3, Next(t2, e3), []);
    StepThen(t1, e2, t2, [e3] + []);
    StepThen(t, e1, t1, [e2] + ([e3] + []));
    events := [e1] + ([e2] + ([e3] + []));
  }

  lemma InvLined(s: State)
    requires Inv(s)
    ensures Lined(s)
  {
  }

  lemma SeenAgain(s: State, j: nat, seen: Leg, from: Option<Point>, to: Option<Point>, route: LegRoute, row: Leg)
    requires Lined(s) && j < |s.rows| && !s.rows[j].Composite()
    requires s.rows[j].mode == row.mode && s.rows[j].Route() == row.Route()
    requires row.preference == route.preference && row.via == route.via
    requires StartOf(s.content, s.rows[j]) == from && EndOf(s.content, s.rows[j]) == to
    requires seen.input == Input(row.mode, from, to, route)
    ensures s.rows[j].input == seen.input
  {
    hide Lined;
    hide Input;
    PlainInput(s, j);
    Unambiguous(row.mode, from, to, row.Route(), row.mode, from, to, route);
  }

  lemma ChoiceTaken(s: State, leg: nat, calculation: Calculation) returns (seen: Leg, t: State)
    requires Inv(s) && Allowed(s, CheckChoice(leg, calculation))
    requires !InPlace(s, s.read[leg]) && Answer(s.read[leg].input, calculation) !in s.answers
    ensures leg < |s.read| && seen == s.read[leg] && t == Next(s, CheckChoice(leg, calculation)) && Inv(t)
    ensures |t.saves| == |s.saves| + 1 && t.saves[|s.saves|] == Save(false, seen.id, seen.input, calculation, true)
    ensures calculation.source == Provider && Answer(seen.input, calculation) !in t.answers
    ensures t.read == s.read && !Gone(t, seen.id) && !seen.Composite()
  {
    hide Inv;
    hide InputNow;
    seen, t := s.read[leg], Next(s, CheckChoice(leg, calculation));
    StepKeeps(s, CheckChoice(leg, calculation));
  }

  lemma InputRead(s: State, leg: nat)
    returns (mode: TravelMode, from: Option<Point>, to: Option<Point>, route: LegRoute)
    requires Inv(s) && leg < |s.read|
    ensures s.read[leg].input == Input(mode, from, to, route)
  {
    hide Input;
    assert ReadSound(s, s.read[leg]);
    mode, from, to, route :| s.read[leg].input == Input(mode, from, to, route);
  }

  /** A chosen route that was checked can come to be stored as a stale one, in some run from
      there in which no other does, exactly when the leg is still there and does not have the
      input it was read with when its ends are read: when it does, or is gone, nothing is
      ever stale, and when not, putting it back as it was makes the route one for ends it
      was never checked against. */
  lemma ChoiceGoesStale(s: State, leg: nat, calculation: Calculation)
    requires Inv(s) && s.mismatched == {} && Allowed(s, CheckChoice(leg, calculation))
    requires Answer(s.read[leg].input, calculation) !in s.answers
    ensures var t := Next(s, CheckChoice(leg, calculation));
            (exists events :: Run(t, events) && ChoicesInPlace(t, events) && !NothingStale(After(t, events)))
            <==> !Gone(s, s.read[leg].id) && InputNow(s.content, s.read[leg]) != s.read[leg].input
  {
    hide Inv;
    hide InputNow;
    hide Run;
    hide After;
    hide ChoicesInPlace;
    hide NothingStale;
    var t := Next(s, CheckChoice(leg, calculation));
    if InPlace(s, s.read[leg]) {
      StepKeeps(s, CheckChoice(leg, calculation));
      assert t.mismatched == {};
      forall events | Run(t, events) && ChoicesInPlace(t, events) ensures NothingStale(After(t, events)) {
        NeverStale(t, events);
      }
    } else {
      var events := WayBack(s, leg, calculation);
    }
  }

  // ------------------------------------------------------------- there and back

  const FREE: Cost := Cost(None, None, false, OtherCost, None, SplitNone, [])

  function PlaceAt(id: Id, position: int, point: Point): Item {
    Item(id, Some(1), position, Place, NoAnchor, None, "", Some(point.lat), Some(point.lng), "", "", None, 0, false,
         FREE)
  }

  const ONE_DAY: Day := Day(1, 540, None, None, true, true, false)

  const END: Point := Point(0, 50_000)

  /** One day with two places, the first at the given latitude. */
  function Trip(lat: int): Content {
    Content([ONE_DAY], [PlaceAt(1, 0, Point(lat, 0)), PlaceAt(2, 1, END)], [], [], [], [], [])
  }

  function TheNeed(lat: int): Need {
    Need(ONE_DAY, PlaceAt(1, 0, Point(lat, 0)), PlaceAt(2, 1, END))
  }

  function TheInput(lat: int): string {
    Input(Car, Some(Point(lat, 0)), Some(END), DEFAULT_ROUTE)
  }

  lemma TripPlaces(lat: int)
    ensures DayItems(Trip(lat).items, Some(1)) == Trip(lat).items
  {
    var items := Trip(lat).items;
    assert items[1..] == [items[1]] && items[..1] == [items[0]];
    assert Places(items[1..], Some(1)) == [items[1]];
    assert Places(items, Some(1)) == items;
    assert StableSort(items[..1], PositionOf) == items[..1] by {
      assert items[..1][..0] == [];
    }
    assert InsertBy(items[..1], items[1], PositionOf) == items;
    assert items[..1][..0] == [];
    assert Mark(items[..1], Some(1), true) == None && Mark(items[..1], Some(1), false) == None;
    assert Mark(items, Some(1), true) == None && Mark(items, Some(1), false) == None;
  }

  lemma TripNeeds(lat: int)
    ensures Needs(Trip(lat)) == [TheNeed(lat)]
  {
    hide DayItems;
    TripPlaces(lat);
    var items := Trip(lat).items;
    assert InnerNeeds(ONE_DAY, items, 1) == [];
    assert InnerNeeds(ONE_DAY, items, 2) == [TheNeed(lat)];
    assert DayNeeds(ONE_DAY, items, None) == [TheNeed(lat)];
    assert NeedsFrom(Trip(lat), 1, Some(items[1])) == [];
  }

  /** A leg of the trip's places, by car the default way. */
  predicate TheLeg(row: Leg, id: Id, lat: int) {
    && row.id == id && Serves(row, TheNeed(lat)) && row.input == TheInput(lat)
    && row.mode == Car && row.preference == Fastest && row.via == [] && row.segments == []
    && row.tickets == []
  }

  lemma FirstSync(lat: int, ids: nat -> Id)
    ensures var rows := Synced([], Plan(Trip(lat), Read([]), ids));
            |rows| == 1 && TheLeg(rows[0], ids(0), lat)
  {
    hide Input;
    TripNeeds(lat);
    var c, needs := Trip(lat), [TheNeed(lat)];
    assert needs[..0] == [];
    assert Creates(c, [], ids, needs) == [NewLeg(c, [], ids(0), TheNeed(lat))];
    assert Read([]) == [];
  }

  lemma TripEnds(leg: Leg, from: int, lat: int)
    requires TheLeg(leg, leg.id, from)
    ensures StartOf(Trip(lat), leg) == Some(Point(lat, 0)) && EndOf(Trip(lat), leg) == Some(END)
    ensures InputNow(Trip(lat), leg) == TheInput(lat)
  {
    hide PointText;
    var items := Trip(lat).items;
    assert items[..1] == [items[0]];
    assert ItemById(items, 2) == Some(items[1]) && ItemById(items[..1], 1) == Some(items[0]);
    assert ItemById(items, 1) == Some(items[0]);
  }

  lemma TripDistinct(lat: int)
    ensures DistinctItems(Trip(lat).items) && DistinctDays(Trip(lat).days)
  {
  }

  /** Within about six kilometres. */
  predicate Close(a: Point, b: Point) {
    -5400 <= a.lat - b.lat <= 5400 && -5400 <= a.lng - b.lng <= 5400
  }

  const HOME: int := 0

  /** More than a hundred kilometres from there. */
  const AWAY: int := 100_000

  const CHOSEN: Calculation := Calculation(Some(125_000), Some(6000), Encoded([Point(AWAY, 0), END]), Provider, "")

  const NOWHERE: State := State(Content([], [], [], [], [], [], []), [], [], [], [], {}, {}, {}, Close)

  lemma NowhereInLine()
    ensures Inv(NOWHERE)
  {
    assert Needs(NOWHERE.content) == [];
    assert Read([]) == [];
  }

  lemma {:induction false} ChunksAreFew(n: nat)
    ensures |Chunks(n)| <= n + 1
  {
    if n >= 0x20 {
      ChunksAreFew(n / 0x20);
    }
  }

  lemma ShortNumber(value: int)
    requires -100_000 <= value <= 100_000
    ensures |Number(Wrap(value))| <= 200_001
  {
    ChunksAreFew(ZigZag(value));
  }

  lemma ChosenLine()
    ensures Decoded(CHOSEN.geometry) == [Point(AWAY, 0), END] && |CHOSEN.geometry| <= MAX_GEOMETRY
  {
    hide Number;
    hide Wrap;
    hide DecodeFrom;
    var line := [Point(AWAY, 0), END];
    assert line[1..] == [END] && [END][1..] == [];
    RoundTrip(line);
    ShortNumber(AWAY);
    ShortNumber(0);
    ShortNumber(-AWAY);
    ShortNumber(50_000);
    assert EncodeFrom(END, []) == [];
    assert EncodeFrom(Point(AWAY, 0), [END]) == Number(Wrap(-AWAY)) + Number(Wrap(50_000)) + [];
  }

  /** The start of the trip's leg decides its input. */
  lemma InputsDiffer()
    ensures TheInput(HOME) != TheInput(AWAY)
  {
    hide Input;
    Unambiguous(Car, Some(Point(HOME, 0)), Some(END), DEFAULT_ROUTE,
                Car, Some(Point(AWAY, 0)), Some(END), DEFAULT_ROUTE);
  }

  /** A leg is made between two places and read, its start moves far away, and a route chosen
      from there is checked. */
  function Away(rows: seq<Leg>): seq<Event> {
    [Edit(Trip(HOME), [], From(10)), ReadRow(0), ReadParts(0, []), Edit(Trip(AWAY), rows, From(20)),
     CheckChoice(0, CHOSEN)]
  }

  lemma Arrived() returns (s: State, leg: Leg)
    ensures var e := Edit(Trip(HOME), [], From(10)); Allowed(NOWHERE, e) && Next(NOWHERE, e) == s
    ensures Inv(s) && s.rows == [leg] && TheLeg(leg, 10, HOME)
    ensures s == NOWHERE.(content := Trip(HOME), rows := [leg], ids := {10})
  {
    hide Plan;
    hide Synced;
    hide Trip;
    hide TheLeg;
    hide DistinctItems;
    hide Inv;
    var e := Edit(Trip(HOME), [], From(10));
    NowhereInLine();
    TripDistinct(HOME);
    FirstSync(HOME, From(10));
    StepKeeps(NOWHERE, e);
    s := Next(NOWHERE, e);
    leg := s.rows[0];
    TheLegId(leg, HOME);
    assert s.rows == [leg];
    assert IdsOf([leg]) == {10};
  }

  lemma TheLegId(leg: Leg, lat: int)
    requires TheLeg(leg, 10, lat)
    ensures leg.id == 10
  {
  }

  lemma Departed(s: State, leg: Leg) returns (t: State)
    requires Inv(s)
    requires s == NOWHERE.(content := Trip(HOME), rows := [leg], glimpsed := [leg], read := [leg], ids := {10})
    requires TheLeg(leg, 10, HOME)
    ensures var e := Edit(Trip(AWAY), [leg], From(20)); Allowed(s, e) && Next(s, e) == t
    ensures Inv(t) && t.content == Trip(AWAY) && t.read == [leg] && !Gone(t, 10)
    ensures t.answers == {} && t.mismatched == {} && t.near == Close
  {
    hide Plan;
    hide Synced;
    hide SyncRow;
    hide DistinctItems;
    hide TheInput;
    hide Inv;
    var e := Edit(Trip(AWAY), [leg], From(20));
    TripDistinct(AWAY);
    assert Edits(s.rows[0], [leg][0]);
    StepKeeps(s, e);
    t := Next(s, e);
    TripNeeds(AWAY);
    var i := Survives(Trip(AWAY), [leg], From(20), 0, TheNeed(AWAY));
    SyncKeepsIdentity(leg, Plan(Trip(AWAY), Read([leg]), From(20)));
    assert t.rows[i].id == 10;
  }

  lemma Checked(s: State, leg: Leg)
    requires s.content == Trip(AWAY) && s.read == [leg] && !Gone(s, 10) && s.near == Close && TheLeg(leg, 10, HOME)
    ensures Allowed(s, CheckChoice(0, CHOSEN)) && !InPlace(s, leg) && leg.input == TheInput(HOME)
  {
    hide InputNow;
    hide Trip;
    hide TheInput;
    hide Encoded;
    hide Decoded;
    hide StartOf;
    hide EndOf;
    TripEnds(leg, HOME, AWAY);
    ChosenLine();
    InputsDiffer();
  }

  /** So "no stored route is stale" fails for chosen routes: this run is allowed, and ends
      with the leg running from home again and holding a route that begins far away. */
  lemma StaleChoice() returns (leg: Leg, rest: seq<Event>)
    ensures Decoded(CHOSEN.geometry) == [Point(AWAY, 0), END] && !Close(Point(AWAY, 0), Point(HOME, 0))
    ensures leg.input == TheInput(HOME)
    ensures Run(NOWHERE, Away([leg]) + rest)
    ensures !NothingStale(After(NOWHERE, Away([leg]) + rest))
    ensures Holding(After(NOWHERE, Away([leg]) + rest), leg, CHOSEN)
  {
    hide TheLeg;
    hide TheInput;
    hide Next;
    hide NothingStale;
    hide Holding;
    hide Trip;
    hide Run;
    hide After;
    hide Inv;
    hide Allowed;
    hide InPlace;
    hide InputNow;
    hide Encoded;
    hide Decoded;
    hide Gone;
    ChosenLine();
    var s1;
    s1, leg := Arrived();
    TheLegId(leg, HOME);
    TheLegAgain(leg);
    var s2 := RowRead(s1, leg);
    var seen := PartsRead(s2, leg);
    var s3 := Departed(seen, leg);
    Checked(s3, leg);
    rest := WayBack(s3, 0, CHOSEN);
    var s4 := Next(s3, CheckChoice(0, CHOSEN));
    StepsThen([NOWHERE, s1, s2, seen, s3, s4], Away([leg]), rest);
  }

  // The trip's leg is read in two statements.

  lemma RowRead(s: State, leg: Leg) returns (t: State)
    requires Inv(s) && s.rows == [leg] && s.glimpsed == [] && leg.(segments := [], tickets := []) == leg
    ensures Allowed(s, ReadRow(0)) && Next(s, ReadRow(0)) == t && Inv(t) && t == s.(glimpsed := [leg])
  {
    hide Inv;
    StepKeeps(s, ReadRow(0));
    t := Next(s, ReadRow(0));
  }

  lemma PartsRead(s: State, leg: Leg) returns (t: State)
    requires Inv(s) && s.rows == [leg] && s.glimpsed == [leg] && s.read == []
    requires leg.(segments := PartsNow([leg], leg.id), tickets := []) == leg && Folded(leg) == leg
    ensures Allowed(s, ReadParts(0, [])) && Next(s, ReadParts(0, [])) == t && Inv(t) && t == s.(read := [leg])
  {
    hide Inv;
    hide Folded;
    hide PartsNow;
    StepKeeps(s, ReadParts(0, []));
    t := Next(s, ReadParts(0, []));
  }

  lemma TheLegAgain(leg: Leg)
    requires TheLeg(leg, 10, HOME)
    ensures leg.(segments := [], tickets := []) == leg && Folded(leg) == leg
    ensures leg.(segments := PartsNow([leg], leg.id), tickets := []) == leg
  {
    hide TheInput;
  }
}
