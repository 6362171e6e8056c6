/**
 A trip's document: its days and everything inside them
 (backend/internal/domain/document.go, leg.go, legsegment.go, track.go, stop.go,
 transfer.go, expense.go), and how the elements of a day are read from it.

 Coordinates are integers in units of 1e-5 degree, amounts are cents.
 */
module Document {
  import opened Common
  import opened Polyline

  datatype TravelMode =
    Walk | Car | Bike | Transit | Bus | Train | Tram | Ferry | Flight | CableCar | OtherMode
  {
    /** Whether a leg of this mode follows roads. */
    predicate Routed() {
      Walk? || Bike? || Car? || Transit? || Bus?
    }
  }

  datatype Preference = Unset | Fastest | Shortest

  datatype LegSource = Pending | Provider | StraightLine | Estimate | MissingCoordinates

  datatype CostCategory =
    Accommodation | Transport | CarRental | Fuel | Tolls | Food | Groceries | Sightseeing | Activities | Shopping
    | OtherCost | UnknownCost(name: string)

  const CATEGORIES: seq<CostCategory> :=
    [Accommodation, Transport, CarRental, Fuel, Tolls, Food, Groceries, Sightseeing, Activities, Shopping, OtherCost]

  datatype CostSplit = SplitNone | SplitEveryone | SplitIndividuals

  datatype CostShare = CostShare(userId: Id, amount: Option<Money>)

  /** Turns an amount into what the whole group pays. */
  function PerGroup(amount: Option<Money>, perPerson: bool, travelers: int): Money {
    match amount
    case None => 0
    case Some(value) => if perPerson then value * Max(travelers, 1) else value
  }

  /** The cost of a place, an activity or a stop. */
  datatype Cost = Cost(planned: Option<Money>, actual: Option<Money>, perPerson: bool, category: CostCategory,
                       paidBy: Option<Id>, split: CostSplit, shares: seq<CostShare>)
  {
    function PlannedTotal(travelers: int): Money {
      PerGroup(planned, perPerson, travelers)
    }

    function ActualTotal(travelers: int): Money {
      PerGroup(actual, perPerson, travelers)
    }
  }

  datatype ItemKind = Place | Activity | StayAnchor {
    predicate IsVisit() {
      Place? || Activity?
    }
  }

  datatype Anchor = NoAnchor | Morning | Evening

  datatype Item = Item(id: Id, dayId: Option<Id>, position: int, kind: ItemKind, anchor: Anchor, stayId: Option<Id>,
                       name: string, lat: Option<int>, lng: Option<int>, address: string, osmRef: string,
                       desiredTime: Option<int>, visitMinutes: int, isOptional: bool, cost: Cost)

  /** Dates are counted in days. */
  datatype Day = Day(id: Id, startTime: int, defaultMode: Option<TravelMode>, date: Option<int>, morningAnchor: bool,
                     eveningAnchor: bool, noOvernight: bool)

  datatype Stay = Stay(id: Id, name: string, lat: Option<int>, lng: Option<int>, address: string,
                       plannedCost: Option<Money>, actualCost: Option<Money>, checkIn: int, checkOut: int)
  {
    /** Whether the stay is where the night starting on a date is spent. */
    predicate Covers(night: int) {
      checkIn <= night < checkOut
    }
  }

  datatype Transfer = Transfer(id: Id,
                               fromName: string, fromLat: Option<int>, fromLng: Option<int>, fromAddress: string,
                               toName: string, toLat: Option<int>, toLng: Option<int>, toAddress: string,
                               plannedCost: Option<Money>, actualCost: Option<Money>, costPerPerson: bool)

  datatype Segment = Segment(id: Id, mode: TravelMode, distanceM: Option<int>, durationS: Option<int>,
                             geometry: seq<Byte>, source: LegSource, error: string, input: string,
                             manualDistanceM: Option<int>, manualDurationS: Option<int>, ticketId: Option<Id>,
                             stopName: string, stopLat: Option<int>, stopLng: Option<int>, waitMinutes: int)
  {
    function Distance(): Option<int> {
      if manualDistanceM.Some? then manualDistanceM else distanceM
    }

    function Duration(): Option<int> {
      if manualDurationS.Some? then manualDurationS else durationS
    }

    /** Where the part ends, when that is a change with a position. */
    function Change(): Option<Point> {
      if stopLat.Some? && stopLng.Some? then Some(Point(stopLat.value, stopLng.value)) else None
    }
  }

  datatype Ticket = Ticket(id: Id, name: string, plannedCost: Option<Money>, actualCost: Option<Money>)

  /** How a leg asks to be routed. */
  datatype LegRoute = LegRoute(preference: Preference, via: seq<Point>)

  datatype Leg = Leg(id: Id, dayId: Id, fromItemId: Id, toItemId: Id, mode: TravelMode, distanceM: Option<int>,
                     durationS: Option<int>, geometry: seq<Byte>, source: LegSource, error: string, input: string,
                     manualDistanceM: Option<int>, manualDurationS: Option<int>, plannedCost: Option<Money>,
                     actualCost: Option<Money>, preference: Preference, via: seq<Point>, pinned: bool,
                     segments: seq<Segment>, tickets: seq<Ticket>)
  {
    function Distance(): Option<int> {
      if manualDistanceM.Some? then manualDistanceM else distanceM
    }

    function Duration(): Option<int> {
      if manualDurationS.Some? then manualDurationS else durationS
    }

    function Route(): LegRoute {
      LegRoute(if preference == Unset then Fastest else preference, via)
    }

    /** A leg with at least one change on the way. */
    predicate Composite() {
      |segments| > 1
    }
  }

  datatype Stop = Stop(id: Id, name: string, point: Point, distanceM: int, cost: Cost) {
    /** The cost of a stop as a place of its activity's day. */
    function CostItem(activity: Item): Item {
      Item(id, activity.dayId, 0, Place, NoAnchor, None, name, None, None, "", "", None, 0, activity.isOptional, cost)
    }
  }

  datatype Track = Track(itemId: Id, geometry: seq<Byte>, distanceM: int, stops: seq<Stop>)

  datatype Expense = Expense(id: Id, dayId: Option<Id>, category: CostCategory, planned: Option<Money>,
                             actual: Option<Money>)

  datatype Content = Content(days: seq<Day>, items: seq<Item>, stays: seq<Stay>, transfers: seq<Transfer>,
                             legs: seq<Leg>, expenses: seq<Expense>, tracks: seq<Track>)

  // ------------------------------------------------------------- days

  ghost predicate DistinctItems(items: seq<Item>) {
    forall i, j :: 0 <= i < j < |items| ==> items[i].id != items[j].id
  }

  ghost predicate DistinctDays(days: seq<Day>) {
    forall i, j :: 0 <= i < j < |days| ==> days[i].id != days[j].id
  }

  /** The places and activities of a day, in the order of the document. */
  function Places(items: seq<Item>, dayId: Option<Id>): seq<Item> {
    if items == [] then []
    else (if items[0].dayId == dayId && items[0].kind.IsVisit() then [items[0]] else []) + Places(items[1..], dayId)
  }

  /** A day's morning mark, or its evening mark; the last one when it has several. */
  function Mark(items: seq<Item>, dayId: Option<Id>, morning: bool): Option<Item> {
    if items == [] then None
    else
      var last := items[|items| - 1];
      if last.dayId == dayId && !last.kind.IsVisit() && (last.anchor == Morning) == morning then Some(last)
      else Mark(items[..|items| - 1], dayId, morning)
  }

  function PositionOf(item: Item): int {
    item.position
  }

  function Optional(item: Option<Item>): seq<Item> {
    if item.Some? then [item.value] else []
  }

  /** A day's elements in schedule order. */
  function DayItems(items: seq<Item>, dayId: Option<Id>): seq<Item> {
    Optional(Mark(items, dayId, true)) + SortedPlaces(items, dayId) + Optional(Mark(items, dayId, false))
  }

  lemma {:induction false} PlacesAppend(a: seq<Item>, b: seq<Item>, dayId: Option<Id>)
    ensures Places(a + b, dayId) == Places(a, dayId) + Places(b, dayId)
  {
    if a == [] {
      assert a + b == b;
    } else {
      assert (a + b)[1..] == a[1..] + b;
      PlacesAppend(a[1..], b, dayId);
    }
  }

  lemma NoItems(dayId: Option<Id>)
    ensures Places([], dayId) == [] && Mark([], dayId, true) == None && Mark([], dayId, false) == None
  {
  }

  lemma OneMorePlace(items: seq<Item>, index: nat, dayId: Option<Id>)
    requires index < |items|
    ensures Places(items[..index + 1], dayId)
         == Places(items[..index], dayId)
            + (if items[index].dayId == dayId && items[index].kind.IsVisit() then [items[index]] else [])
  {
    assert items[..index + 1] == items[..index] + [items[index]];
    PlacesAppend(items[..index], [items[index]], dayId);
    assert [items[index]][1..] == [];
  }

  lemma OneMoreMark(items: seq<Item>, index: nat, dayId: Option<Id>, morning: bool)
    requires index < |items|
    ensures var item := items[index];
            Mark(items[..index + 1], dayId, morning)
            == if item.dayId == dayId && !item.kind.IsVisit() && (item.anchor == Morning) == morning
               then Some(item) else Mark(items[..index], dayId, morning)
  {
    assert items[..index + 1][..index] == items[..index];
  }

  method ListDayItems(items: seq<Item>, dayId: Option<Id>) returns (ordered: seq<Item>)
    ensures ordered == DayItems(items, dayId)
  {
    hide Places;
    hide Mark;
    hide StableSort;
    NoItems(dayId);
    assert items[..0] == [];
    var morning: Option<Item>, evening: Option<Item> := None, None;
    var places := [];
    for index := 0 to |items|
      invariant morning == Mark(items[..index], dayId, true)
      invariant evening == Mark(items[..index], dayId, false)
      invariant places == Places(items[..index], dayId)
    {
      var item := items[index];
      OneMorePlace(items, index, dayId);
      OneMoreMark(items, index, dayId, true);
      OneMoreMark(items, index, dayId, false);
      if item.dayId != dayId {
        continue;
      }
      if item.kind.IsVisit() {
        places := places + [item];
      } else if item.anchor == Morning {
        morning := Some(item);
      } else {
        evening := Some(item);
      }
    }
    assert items[..|items|] == items;
    places := StableSort(places, PositionOf);
    ordered := [];
    if morning.Some? {
      ordered := ordered + [morning.value];
    }
    ordered := ordered + places;
    if evening.Some? {
      ordered := ordered + [evening.value];
    }
  }

  lemma {:induction false} PlacesMembers(items: seq<Item>, dayId: Option<Id>)
    ensures forall x :: x in Places(items, dayId) <==> x in items && x.dayId == dayId && x.kind.IsVisit()
    ensures DistinctItems(items) ==> DistinctItems(Places(items, dayId))
  {
    if items != [] {
      PlacesMembers(items[1..], dayId);
      var rest := Places(items[1..], dayId);
      if DistinctItems(items) {
        assert DistinctItems(items[1..]);
        forall x | x in rest ensures x.id != items[0].id {
          assert x in items[1..];
        }
      }
    }
  }

  lemma {:induction false} MarkMember(items: seq<Item>, dayId: Option<Id>, morning: bool)
    ensures var mark := Mark(items, dayId, morning);
            mark.Some? ==> mark.value in items && mark.value.dayId == dayId && !mark.value.kind.IsVisit()
                           && (mark.value.anchor == Morning) == morning
  {
    if items != [] {
      MarkMember(items[..|items| - 1], dayId, morning);
    }
  }

  lemma SameMultisetDistinct(a: seq<Item>, b: seq<Item>)
    requires multiset(a) == multiset(b) && DistinctItems(a)
    ensures DistinctItems(b)
  {
    forall i, j | 0 <= i < j < |b| ensures b[i].id != b[j].id {
      if b[i].id == b[j].id {
        assert b[i] in multiset(a) && b[j] in multiset(a);
        assert b[i] == b[j];
        assert b == b[..i] + [b[i]] + b[i + 1..j] + [b[j]] + b[j + 1..];
        assert multiset(b)[b[i]] >= 2;
        DistinctOnce(a, b[i]);
      }
    }
  }

  lemma {:induction false} DistinctOnce(a: seq<Item>, x: Item)
    requires DistinctItems(a)
    ensures multiset(a)[x] <= 1
  {
    if a != [] {
      assert a == [a[0]] + a[1..];
      DistinctOnce(a[1..], x);
      if a[0] == x {
        assert x !in a[1..];
      }
    }
  }

  /** The places of a day in schedule order. */
  function SortedPlaces(items: seq<Item>, dayId: Option<Id>): seq<Item> {
    StableSort(Places(items, dayId), PositionOf)
  }

  lemma SortedPlacesMembers(items: seq<Item>, dayId: Option<Id>)
    ensures forall x :: x in SortedPlaces(items, dayId) <==> x in items && x.dayId == dayId && x.kind.IsVisit()
    ensures DistinctItems(items) ==> DistinctItems(SortedPlaces(items, dayId))
  {
    hide StableSort;
    hide Places;
    var places := Places(items, dayId);
    StableSortSorts(places, PositionOf);
    PlacesMembers(items, dayId);
    var sorted := SortedPlaces(items, dayId);
    forall x ensures x in sorted <==> x in places {
      assert x in multiset(sorted) <==> x in multiset(places);
    }
    if DistinctItems(items) {
      SameMultisetDistinct(places, sorted);
    }
  }

  /** The elements of a day are elements of the document, and every place of the
      day is among them. */
  lemma DayItemsMembers(items: seq<Item>, dayId: Option<Id>)
    ensures forall x :: x in DayItems(items, dayId) ==> x in items && x.dayId == dayId
    ensures forall x :: x in items && x.dayId == dayId && x.kind.IsVisit() ==> x in DayItems(items, dayId)
  {
    hide SortedPlaces;
    hide Mark;
    SortedPlacesMembers(items, dayId);
    MarkMember(items, dayId, true);
    MarkMember(items, dayId, false);
  }

  /** No element is listed twice in a day. */
  lemma DayItemsDistinct(items: seq<Item>, dayId: Option<Id>)
    requires DistinctItems(items)
    ensures DistinctItems(DayItems(items, dayId))
  {
    hide SortedPlaces;
    hide Mark;
    SortedPlacesMembers(items, dayId);
    MarkMember(items, dayId, true);
    MarkMember(items, dayId, false);
    UniqueId(items);
  }

  lemma UniqueId(items: seq<Item>)
    requires DistinctItems(items)
    ensures forall x, y :: x in items && y in items && x.id == y.id ==> x == y
  {
  }

  /** The places and activities of a day that have a position. */
  function VisitsAt(dayId: Option<Id>, position: int): Item -> bool {
    (item: Item) => item.dayId == dayId && item.kind != StayAnchor && item.position == position
  }

  function AtPosition(position: int): Item -> bool {
    (item: Item) => item.position == position
  }

  /** The i-th element is the last mark of a day's morning, or of its evening. */
  predicate MarksLast(items: seq<Item>, dayId: Option<Id>, morning: bool, i: int) {
    && 0 <= i < |items| && Marks(items[i], dayId, morning)
    && forall j :: i < j < |items| ==> !Marks(items[j], dayId, morning)
  }

  predicate Marks(item: Item, dayId: Option<Id>, morning: bool) {
    item.dayId == dayId && item.kind == StayAnchor && (item.anchor == Morning) == morning
  }

  lemma {:induction false} MarkIs(items: seq<Item>, dayId: Option<Id>, morning: bool)
    ensures forall i :: MarksLast(items, dayId, morning, i) ==> Mark(items, dayId, morning) == Some(items[i])
    ensures (forall i :: 0 <= i < |items| ==> !Marks(items[i], dayId, morning)) ==> Mark(items, dayId, morning) == None
  {
    if items != [] {
      var front := items[..|items| - 1];
      MarkIs(front, dayId, morning);
      forall i | MarksLast(items, dayId, morning, i) ensures Mark(items, dayId, morning) == Some(items[i]) {
        assert i < |front| ==> MarksLast(front, dayId, morning, i);
      }
    }
  }

  lemma {:induction false} LevelOfPlaces(items: seq<Item>, dayId: Option<Id>, position: int)
    ensures Level(Places(items, dayId), PositionOf, position) == Filter(items, VisitsAt(dayId, position))
  {
    if items != [] {
      LevelOfPlaces(items[1..], dayId, position);
      var first := if items[0].dayId == dayId && items[0].kind.IsVisit() then [items[0]] else [];
      LevelAppend(first, Places(items[1..], dayId), PositionOf, position);
      assert items[0].kind.IsVisit() <==> items[0].kind != StayAnchor;
    }
  }

  lemma {:induction false} LevelIsFilter(items: seq<Item>, position: int)
    ensures Level(items, PositionOf, position) == Filter(items, AtPosition(position))
  {
    if items != [] {
      LevelIsFilter(items[1..], position);
    }
  }

  /** A day begins with its last morning mark and ends with its last evening mark, as far as it has
      them; in between its places and activities are in order of position, and those of one
      position in the order they were entered in. */
  lemma DayItemsInOrder(items: seq<Item>, dayId: Option<Id>)
    returns (morning: seq<Item>, places: seq<Item>, evening: seq<Item>)
    ensures DayItems(items, dayId) == morning + places + evening
    ensures forall i :: MarksLast(items, dayId, true, i) ==> morning == [items[i]]
    ensures (forall i :: 0 <= i < |items| ==> !Marks(items[i], dayId, true)) ==> morning == []
    ensures forall i :: MarksLast(items, dayId, false, i) ==> evening == [items[i]]
    ensures (forall i :: 0 <= i < |items| ==> !Marks(items[i], dayId, false)) ==> evening == []
    ensures forall i, j :: 0 <= i < j < |places| ==> places[i].position <= places[j].position
    ensures forall k :: Filter(places, AtPosition(k)) == Filter(items, VisitsAt(dayId, k))
  {
    hide StableSort;
    hide Mark;
    hide Places;
    MarkIs(items, dayId, true);
    MarkIs(items, dayId, false);
    morning, places := Optional(Mark(items, dayId, true)), SortedPlaces(items, dayId);
    evening := Optional(Mark(items, dayId, false));
    StableSortSorts(Places(items, dayId), PositionOf);
    forall i, j | 0 <= i < j < |places| ensures places[i].position <= places[j].position {
      assert PositionOf(places[i]) <= PositionOf(places[j]);
    }
    forall k ensures Filter(places, AtPosition(k)) == Filter(items, VisitsAt(dayId, k)) {
      StableSortIsStable(Places(items, dayId), PositionOf, k);
      LevelOfPlaces(items, dayId, k);
      LevelIsFilter(places, k);
    }
  }

  // ------------------------------------------------------------- positions

  /** A stay by its identifier. */
  function StayById(stays: seq<Stay>, id: Id): Option<Stay> {
    if stays == [] then None
    else if stays[|stays| - 1].id == id then Some(stays[|stays| - 1])
    else StayById(stays[..|stays| - 1], id)
  }

  function Position(lat: Option<int>, lng: Option<int>): Option<Point> {
    if lat.Some? && lng.Some? then Some(Point(lat.value, lng.value)) else None
  }

  /** Where an element of a day is: a stay mark is at its stay. */
  function ItemPoint(item: Item, stays: seq<Stay>): Option<Point> {
    if item.kind == StayAnchor && item.stayId.Some? then
      match StayById(stays, item.stayId.value)
      case None => None
      case Some(stay) => Position(stay.lat, stay.lng)
    else Position(item.lat, item.lng)
  }

  function TrackOfItem(tracks: seq<Track>, itemId: Id): Option<Track> {
    if tracks == [] then None
    else if tracks[0].itemId == itemId then Some(tracks[0])
    else TrackOfItem(tracks[1..], itemId)
  }

  function StopsOf(tracks: seq<Track>, itemId: Id): seq<Stop> {
    match TrackOfItem(tracks, itemId)
    case None => []
    case Some(track) => track.stops
  }

  function TrackLine(tracks: seq<Track>, itemId: Id): seq<Point> {
    match TrackOfItem(tracks, itemId)
    case None => []
    case Some(track) => Decoded(track.geometry)
  }

  /** Where a journey starts: the end of a recording, else the element itself. */
  function LegStart(from: Item, stays: seq<Stay>, tracks: seq<Track>): Option<Point> {
    var line := TrackLine(tracks, from.id);
    if |line| > 0 then Some(line[|line| - 1]) else ItemPoint(from, stays)
  }

  /** Where a journey ends: the beginning of a recording, else the element itself. */
  function LegEnd(to: Item, stays: seq<Stay>, tracks: seq<Track>): Option<Point> {
    var line := TrackLine(tracks, to.id);
    if |line| > 0 then Some(line[0]) else ItemPoint(to, stays)
  }

  /** The i-th recording is the one an element has: the first. */
  predicate Records(tracks: seq<Track>, itemId: Id, i: int) {
    0 <= i < |tracks| && tracks[i].itemId == itemId && forall j :: 0 <= j < i ==> tracks[j].itemId != itemId
  }

  /** The i-th stay is the one known under the identifier: the last. */
  predicate Lodges(stays: seq<Stay>, id: Id, i: int) {
    0 <= i < |stays| && stays[i].id == id && forall j :: i < j < |stays| ==> stays[j].id != id
  }

  /** An element has no recording a journey could start or end at. */
  ghost predicate Unrecorded(tracks: seq<Track>, itemId: Id) {
    forall i :: Records(tracks, itemId, i) ==> Decoded(tracks[i].geometry) == []
  }

  lemma {:induction false} TrackIs(tracks: seq<Track>, itemId: Id)
    ensures forall i :: Records(tracks, itemId, i) ==> TrackOfItem(tracks, itemId) == Some(tracks[i])
    ensures TrackOfItem(tracks, itemId).Some? ==> exists i :: Records(tracks, itemId, i)
  {
    if tracks != [] {
      TrackIs(tracks[1..], itemId);
      forall i | Records(tracks, itemId, i) ensures TrackOfItem(tracks, itemId) == Some(tracks[i]) {
        assert i > 0 ==> Records(tracks[1..], itemId, i - 1);
      }
      if tracks[0].itemId == itemId {
        assert Records(tracks, itemId, 0);
      } else if i :| Records(tracks[1..], itemId, i) {
        assert Records(tracks, itemId, i + 1);
      }
    }
  }

  lemma {:induction false} StayIs(stays: seq<Stay>, id: Id)
    ensures forall i :: Lodges(stays, id, i) ==> StayById(stays, id) == Some(stays[i])
    ensures (forall i :: 0 <= i < |stays| ==> stays[i].id != id) ==> StayById(stays, id) == None
  {
    if stays != [] {
      var front := stays[..|stays| - 1];
      StayIs(front, id);
      forall i | Lodges(stays, id, i) ensures StayById(stays, id) == Some(stays[i]) {
        assert i < |front| ==> Lodges(front, id, i);
      }
    }
  }

  /** A journey sets out where a recording ends and arrives where the next one begins. From and
      to an element without one it leads to where the element is, which for a stay mark is
      where its stay is. */
  lemma JourneyEnds(item: Item, stays: seq<Stay>, tracks: seq<Track>)
    ensures forall i :: Records(tracks, item.id, i) && Decoded(tracks[i].geometry) != [] ==>
              var line := Decoded(tracks[i].geometry);
              LegStart(item, stays, tracks) == Some(line[|line| - 1]) && LegEnd(item, stays, tracks) == Some(line[0])
    ensures Unrecorded(tracks, item.id) ==> LegStart(item, stays, tracks) == LegEnd(item, stays, tracks)
    ensures Unrecorded(tracks, item.id) && (item.kind.IsVisit() || item.stayId == None) ==>
              LegStart(item, stays, tracks)
              == if item.lat.Some? && item.lng.Some? then Some(Point(item.lat.value, item.lng.value)) else None
    ensures Unrecorded(tracks, item.id) && item.kind == StayAnchor && item.stayId.Some? ==>
              && (forall i :: Lodges(stays, item.stayId.value, i) ==>
                    LegStart(item, stays, tracks)
                    == if stays[i].lat.Some? && stays[i].lng.Some?
                       then Some(Point(stays[i].lat.value, stays[i].lng.value)) else None)
              && ((forall i :: 0 <= i < |stays| ==> stays[i].id != item.stayId.value) ==>
                    LegStart(item, stays, tracks) == None)
  {
    hide Decoded;
    TrackIs(tracks, item.id);
    if item.stayId.Some? {
      StayIs(stays, item.stayId.value);
    }
  }

  // ------------------------------------------------------------- parts of a leg

  function PartStart(segments: seq<Segment>, start: Option<Point>, index: nat): Option<Point>
    requires index < |segments|
  {
    if index == 0 then start else segments[index - 1].Change()
  }

  function PartEnd(segments: seq<Segment>, end: Option<Point>, index: nat): Option<Point>
    requires index < |segments|
  {
    if index == |segments| - 1 then end else segments[index].Change()
  }

  /** Where each part of a leg with changes starts and ends. */
  method SegmentEnds(segments: seq<Segment>, start: Option<Point>, end: Option<Point>)
    returns (starts: seq<Option<Point>>, ends: seq<Option<Point>>)
    ensures |starts| == |ends| == |segments|
    ensures forall i :: 0 <= i < |segments| ==>
              starts[i] == PartStart(segments, start, i) && ends[i] == PartEnd(segments, end, i)
    ensures segments != [] ==> starts[0] == start && ends[|segments| - 1] == end
    ensures forall i :: 0 < i < |segments| ==> starts[i] == ends[i - 1] == segments[i - 1].Change()
  {
    starts, ends := [], [];
    var previous := start;
    for index := 0 to |segments|
      invariant |starts| == |ends| == index
      invariant forall i :: 0 <= i < index ==>
                  starts[i] == PartStart(segments, start, i) && ends[i] == PartEnd(segments, end, i)
      invariant index < |segments| ==> previous == PartStart(segments, start, index)
    {
      starts := starts + [previous];
      if index == |segments| - 1 {
        ends := ends + [end];
      } else {
        ends := ends + [segments[index].Change()];
      }
      previous := ends[index];
    }
  }

  // ------------------------------------------------------------- expenses

  function DayExpenses(expenses: seq<Expense>, dayId: Option<Id>): seq<Expense> {
    if expenses == [] then []
    else (if expenses[0].dayId == dayId then [expenses[0]] else []) + DayExpenses(expenses[1..], dayId)
  }
}
