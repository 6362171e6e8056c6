/**
 Which stay every morning and evening is marked with, which nights have a stay
 (AnchorAssignments and Nights in backend/internal/domain/plan.go), and how the marks of a
 document are brought in line with that (syncAnchors in
 backend/internal/storage/postgres/documents.go).
 */
module StayMarks {
  import opened Common
  import opened Document

  /** The morning or the evening of a day. */
  datatype Key = Key(dayId: Id, slot: Anchor)

  datatype Night = Night(date: int, stayIds: seq<Id>, noOvernight: bool) {
    predicate Missing() {
      stayIds == [] && !noOvernight
    }
  }

  function CheckInOf(stay: Stay): int {
    stay.checkIn
  }

  function IdOf(stay: Stay): int {
    stay.id
  }

  /** By check-in date, then by identifier. */
  function SortedStays(stays: seq<Stay>): seq<Stay> {
    StableSort(StableSort(stays, IdOf), CheckInOf)
  }

  function StayForNight(stays: seq<Stay>, night: int): Option<Id> {
    if stays == [] then None
    else if stays[0].Covers(night) then Some(stays[0].id)
    else StayForNight(stays[1..], night)
  }

  /** Every stay covering a night, in order. */
  function Covering(stays: seq<Stay>, night: int): seq<Id> {
    if stays == [] then []
    else Covering(stays[..|stays| - 1], night)
         + if stays[|stays| - 1].Covers(night) then [stays[|stays| - 1].id] else []
  }

  // ------------------------------------------------------------- which marks there should be

  /** The stay a day's morning or evening should be marked with. */
  function MarkOf(day: Day, ordered: seq<Stay>, slot: Anchor): Option<Id> {
    if day.date == None then None
    else
      match slot
      case NoAnchor => None
      case Morning => if day.morningAnchor then StayForNight(ordered, day.date.value - 1) else None
      case Evening =>
        if day.eveningAnchor && !day.noOvernight then StayForNight(ordered, day.date.value) else None
  }

  function Placed(marks: map<Key, Id>, key: Key, stay: Option<Id>): map<Key, Id> {
    if stay.Some? then marks[key := stay.value] else marks
  }

  function Assigned(days: seq<Day>, ordered: seq<Stay>): map<Key, Id> {
    if days == [] then map[]
    else
      var day := days[|days| - 1];
      var before := Assigned(days[..|days| - 1], ordered);
      Placed(Placed(before, Key(day.id, Morning), MarkOf(day, ordered, Morning)),
             Key(day.id, Evening), MarkOf(day, ordered, Evening))
  }

  method FindStay(stays: seq<Stay>, night: int) returns (found: Option<Id>)
    ensures found == StayForNight(stays, night)
  {
    for k := 0 to |stays|
      invariant StayForNight(stays, night) == StayForNight(stays[k..], night)
    {
      assert stays[k..][1..] == stays[k + 1..];
      if stays[k].Covers(night) {
        return Some(stays[k].id);
      }
    }
    return None;
  }

  method AnchorAssignments(days: seq<Day>, stays: seq<Stay>) returns (assignments: map<Key, Id>)
    ensures assignments == Assigned(days, SortedStays(stays))
  {
    hide StayForNight;
    var ordered := SortedStays(stays);
    assignments := map[];
    for k := 0 to |days|
      invariant assignments == Assigned(days[..k], ordered)
    {
      assert days[..k + 1][..k] == days[..k];
      var day := days[k];
      if day.date == None {
        continue;
      }
      if day.morningAnchor {
        var stay := FindStay(ordered, day.date.value - 1);
        if stay.Some? {
          assignments := assignments[Key(day.id, Morning) := stay.value];
        }
      }
      if day.eveningAnchor && !day.noOvernight {
        var stay := FindStay(ordered, day.date.value);
        if stay.Some? {
          assignments := assignments[Key(day.id, Evening) := stay.value];
        }
      }
    }
    assert days[..|days|] == days;
  }

  /** A day carries exactly the marks it should, and nothing else is marked. */
  lemma {:induction false} AssignedIs(days: seq<Day>, ordered: seq<Stay>)
    requires DistinctDays(days)
    ensures forall key :: key in Assigned(days, ordered) ==> exists i :: 0 <= i < |days| && days[i].id == key.dayId
    ensures forall i, slot :: 0 <= i < |days| ==>
              var key := Key(days[i].id, slot);
              (if key in Assigned(days, ordered) then Some(Assigned(days, ordered)[key]) else None)
              == MarkOf(days[i], ordered, slot)
  {
    if days != [] {
      hide MarkOf;
      AssignedIs(days[..|days| - 1], ordered);
    }
  }

  // ------------------------------------------------------------- nights

  /** The night of a date, with every stay that covers it. */
  function NightOf(days: seq<Day>, ordered: seq<Stay>, date: int): Night {
    Night(date, Covering(ordered, date),
          exists i :: 0 <= i < |days| && days[i].date == Some(date) && days[i].noOvernight)
  }

  method Nights(start: Option<int>, end: Option<int>, days: seq<Day>, stays: seq<Stay>) returns (nights: seq<Night>)
    ensures start == None || end == None ==> nights == []
    ensures start.Some? && end.Some? ==>
              && |nights| == Max(end.value - start.value, 0)
              && forall k :: 0 <= k < |nights| ==> nights[k] == NightOf(days, SortedStays(stays), start.value + k)
  {
    if start == None || end == None {
      return [];
    }
    hide Covering;
    hide SortedStays;
    var without: set<int> := {};
    for k := 0 to |days|
      invariant forall date :: date in without <==>
                exists i :: 0 <= i < k && days[i].date == Some(date) && days[i].noOvernight
    {
      if days[k].date.Some? && days[k].noOvernight {
        without := without + {days[k].date.value};
      }
    }
    var ordered := SortedStays(stays);
    nights := [];
    var date := start.value;
    while date < end.value
      invariant start.value <= date <= Max(end.value, start.value) && |nights| == date - start.value
      invariant forall k :: 0 <= k < |nights| ==> nights[k] == NightOf(days, ordered, start.value + k)
      decreases end.value - date
    {
      var covering := ListCovering(ordered, date);
      nights := nights + [Night(date, covering, date in without)];
      date := date + 1;
    }
  }

  method ListCovering(ordered: seq<Stay>, night: int) returns (stayIds: seq<Id>)
    ensures stayIds == Covering(ordered, night)
  {
    stayIds := [];
    for k := 0 to |ordered|
      invariant stayIds == Covering(ordered[..k], night)
    {
      assert ordered[..k + 1][..k] == ordered[..k];
      if ordered[k].Covers(night) {
        stayIds := stayIds + [ordered[k].id];
      }
    }
    assert ordered[..|ordered|] == ordered;
  }

  function IdsOf(stays: seq<Stay>): seq<Id> {
    if stays == [] then [] else [stays[0].id] + IdsOf(stays[1..])
  }

  /** The nights between check-in and check-out, the last morning excluded. */
  function SleptIn(night: int): Stay -> bool {
    (stay: Stay) => stay.checkIn <= night && night < stay.checkOut
  }

  lemma {:induction false} CoveringFirst(first: Stay, rest: seq<Stay>, night: int)
    ensures Covering([first] + rest, night)
         == (if SleptIn(night)(first) then [first.id] else []) + Covering(rest, night)
  {
    var all := [first] + rest;
    if rest == [] {
      assert all[..0] == [];
    } else {
      CoveringFirst(first, rest[..|rest| - 1], night);
      assert all[..|all| - 1] == [first] + rest[..|rest| - 1];
    }
  }

  /** The stays of a night are those that begin on its date or before and end after it, in order;
      so a stay of three nights is in three of them, and not in that of the day it ends on. */
  lemma {:induction false} NightHolds(stays: seq<Stay>, night: int)
    ensures Covering(stays, night)
         == IdsOf(Filter(stays, SleptIn(night)))
  {
    if stays != [] {
      NightHolds(stays[1..], night);
      CoveringFirst(stays[0], stays[1..], night);
      assert [stays[0]] + stays[1..] == stays;
      if SleptIn(night)(stays[0]) {
        assert ([stays[0]] + Filter(stays[1..], SleptIn(night)))[1..] == Filter(stays[1..], SleptIn(night));
      } else {
        assert [] + Filter(stays[1..], SleptIn(night)) == Filter(stays[1..], SleptIn(night));
      }
    }
  }

  lemma {:induction false} FirstCovering(stays: seq<Stay>, more: seq<Stay>, night: int)
    ensures StayForNight(stays + more, night)
         == if Covering(stays, night) != [] then Some(Covering(stays, night)[0]) else StayForNight(more, night)
    decreases |stays|
  {
    if stays == [] {
      assert stays + more == more;
    } else {
      var front, last := stays[..|stays| - 1], stays[|stays| - 1];
      assert stays + more == front + ([last] + more);
      FirstCovering(front, [last] + more, night);
      assert ([last] + more)[1..] == more;
    }
  }

  lemma {:induction false} StayIsFirst(stays: seq<Stay>, night: int)
    ensures StayForNight(stays, night) == if Covering(stays, night) != [] then Some(Covering(stays, night)[0]) else None
  {
    FirstCovering(stays, [], night);
    assert stays + [] == stays;
  }

  /** The marks follow the nights: a day's evening is marked, when it may be, with the
      first stay of the night that begins on it, and its morning with the first stay of
      the night before; a night nothing covers marks neither, and unless a day of its date
      is spent without a stay it is a missing one. */
  lemma MarksFollowNights(day: Day, days: seq<Day>, stays: seq<Stay>)
    requires day.date.Some?
    ensures var ordered, date := SortedStays(stays), day.date.value;
            var tonight, lastNight := NightOf(days, ordered, date).stayIds, NightOf(days, ordered, date - 1).stayIds;
            && MarkOf(day, ordered, Evening)
               == (if day.eveningAnchor && !day.noOvernight && tonight != [] then Some(tonight[0]) else None)
            && MarkOf(day, ordered, Morning)
               == (if day.morningAnchor && lastNight != [] then Some(lastNight[0]) else None)
    ensures day in days && day.eveningAnchor
            && (forall i :: 0 <= i < |days| && days[i].date == day.date ==> !days[i].noOvernight) ==>
              (NightOf(days, SortedStays(stays), day.date.value).Missing()
               <==> MarkOf(day, SortedStays(stays), Evening) == None)
    ensures day in days && day.noOvernight ==> !NightOf(days, SortedStays(stays), day.date.value).Missing()
  {
    if day in days && day.noOvernight {
      var i :| 0 <= i < |days| && days[i] == day;
      assert days[i].date == day.date;
    }
    StayIsFirst(SortedStays(stays), day.date.value);
    StayIsFirst(SortedStays(stays), day.date.value - 1);
  }

  /** One wakes up where one went to bed: the evening mark of a day and the morning mark of
      the day after are never of different stays. */
  lemma MorningAfter(day: Day, after: Day, ordered: seq<Stay>)
    requires day.date.Some? && after.date == Some(day.date.value + 1)
    ensures var evening, morning := MarkOf(day, ordered, Evening), MarkOf(after, ordered, Morning);
            evening.Some? && morning.Some? ==> evening == morning
  {
    hide StayForNight;
  }

  /** Between overlapping stays the one checked into first decides, and the lower
      identifier between two of the same day. */
  lemma StaysInOrder(stays: seq<Stay>)
    ensures var ordered := SortedStays(stays);
            && multiset(ordered) == multiset(stays)
            && forall i, j :: 0 <= i < j < |ordered| ==>
                 ordered[i].checkIn < ordered[j].checkIn
                 || (ordered[i].checkIn == ordered[j].checkIn && ordered[i].id <= ordered[j].id)
  {
    var byId := StableSort(stays, IdOf);
    StableSortSorts(stays, IdOf);
    StableSortSorts(byId, CheckInOf);
    var ordered := SortedStays(stays);
    forall i, j | 0 <= i < j < |ordered| && ordered[i].checkIn == ordered[j].checkIn
      ensures ordered[i].id <= ordered[j].id
    {
      StableSortIsStable(byId, CheckInOf, ordered[i].checkIn);
      LevelSorted(byId, ordered[i].checkIn);
      InLevel(ordered, i, j);
    }
  }

  lemma {:induction false} LevelMembers(stays: seq<Stay>, checkIn: int)
    ensures forall stay :: stay in Level(stays, CheckInOf, checkIn) ==> stay in stays
  {
    if stays != [] {
      LevelMembers(stays[1..], checkIn);
    }
  }

  lemma {:induction false} LevelSorted(stays: seq<Stay>, checkIn: int)
    requires SortedBy(stays, IdOf)
    ensures SortedBy(Level(stays, CheckInOf, checkIn), IdOf)
  {
    if stays != [] {
      LevelSorted(stays[1..], checkIn);
      LevelMembers(stays[1..], checkIn);
      var rest := Level(stays[1..], CheckInOf, checkIn);
      forall k | 0 <= k < |rest| ensures stays[0].id <= rest[k].id {
        assert rest[k] in rest;
        var i :| 0 <= i < |stays[1..]| && stays[1..][i] == rest[k];
        assert IdOf(stays[0]) <= IdOf(stays[i + 1]);
      }
    }
  }

  /** Two stays of one check-in date stand in that date's level in the same order. */
  lemma {:induction false} InLevel(stays: seq<Stay>, i: nat, j: nat)
    requires i < j < |stays| && stays[i].checkIn == stays[j].checkIn
    requires SortedBy(Level(stays, CheckInOf, stays[i].checkIn), IdOf)
    ensures stays[i].id <= stays[j].id
  {
    var checkIn := stays[i].checkIn;
    var a, b, c := stays[..i], stays[i..j], stays[j..];
    assert stays == a + (b + c);
    LevelAppend(a, b + c, CheckInOf, checkIn);
    LevelAppend(b, c, CheckInOf, checkIn);
    assert b[0] == stays[i] && c[0] == stays[j];
    var level := Level(stays, CheckInOf, checkIn);
    var at, next := |Level(a, CheckInOf, checkIn)|, |Level(a, CheckInOf, checkIn)| + |Level(b, CheckInOf, checkIn)|;
    assert level[at] == Level(b, CheckInOf, checkIn)[0] == stays[i];
    assert level[next] == Level(c, CheckInOf, checkIn)[0] == stays[j];
    assert IdOf(level[at]) <= IdOf(level[next]);
  }

  // ------------------------------------------------------------- bringing the marks in line

  /** Stay marks are on a day and name a stay. */
  predicate Marked(items: seq<Item>) {
    forall i :: 0 <= i < |items| && items[i].kind == StayAnchor ==> items[i].dayId.Some? && items[i].stayId.Some?
  }

  function KeyOf(mark: Item): Key {
    Key(mark.dayId.GetOr(0), mark.anchor)
  }

  function MarksIn(items: seq<Item>): seq<Item> {
    if items == [] then []
    else
      var last := items[|items| - 1];
      MarksIn(items[..|items| - 1]) + if last.kind == StayAnchor then [last] else []
  }

  /** The elements that are no marks. */
  function OthersIn(items: seq<Item>): seq<Item> {
    if items == [] then []
    else
      var last := items[|items| - 1];
      OthersIn(items[..|items| - 1]) + if last.kind == StayAnchor then [] else [last]
  }

  /** The marks are exactly the wanted ones, each once. */
  ghost predicate InLine(marks: seq<Item>, wanted: map<Key, Id>) {
    Partly(marks, map[], wanted)
  }

  /** So far: every mark is a wanted one, each once, and what is missing is the rest. */
  ghost predicate Partly(marks: seq<Item>, missing: map<Key, Id>, wanted: map<Key, Id>) {
    && missing.Keys <= wanted.Keys && (forall key :: key in missing ==> missing[key] == wanted[key])
    && (forall i :: 0 <= i < |marks| ==>
          && KeyOf(marks[i]) in wanted && KeyOf(marks[i]) !in missing
          && marks[i].stayId == Some(wanted[KeyOf(marks[i])]))
    && (forall i, j :: 0 <= i < j < |marks| ==> KeyOf(marks[i]) != KeyOf(marks[j]))
    && (forall key :: key in wanted && key !in missing ==> exists i :: 0 <= i < |marks| && KeyOf(marks[i]) == key)
  }

  lemma OneMoreMark(marks: seq<Item>, missing: map<Key, Id>, wanted: map<Key, Id>, mark: Item)
    requires Partly(marks, missing, wanted) && KeyOf(mark) in missing && mark.stayId == Some(missing[KeyOf(mark)])
    ensures Partly(marks + [mark], missing - {KeyOf(mark)}, wanted)
  {
    var more := marks + [mark];
    assert more[|marks|] == mark;
    forall key | key in wanted && key !in missing - {KeyOf(mark)}
      ensures exists i :: 0 <= i < |more| && KeyOf(more[i]) == key
    {
      if key != KeyOf(mark) {
        var i :| 0 <= i < |marks| && KeyOf(marks[i]) == key;
        assert more[i] == marks[i];
      }
    }
  }

  lemma {:induction false} MarksBefore(items: seq<Item>, k: nat)
    requires k <= |items|
    ensures |MarksIn(items[..k])| <= |MarksIn(items)| && MarksIn(items[..k]) == MarksIn(items)[..|MarksIn(items[..k])|]
    decreases |items| - k
  {
    if k < |items| {
      MarksBefore(items, k + 1);
      assert items[..k + 1][..k] == items[..k];
    } else {
      assert items[..k] == items;
    }
  }

  lemma {:induction false} MarkAt(items: seq<Item>, k: nat)
    requires k < |items| && items[k].kind == StayAnchor
    ensures var n := |MarksIn(items[..k])|;
            n < |MarksIn(items)| && MarksIn(items)[n] == items[k] && MarksIn(items[..k]) == MarksIn(items)[..n]
  {
    MarksBefore(items, k);
    MarksBefore(items, k + 1);
    assert items[..k + 1][..k] == items[..k];
    assert MarksIn(items[..k + 1]) == MarksIn(items[..k]) + [items[k]];
  }

  /** A mark in line already is still missed when it is reached, and is its stay's. */
  lemma {:induction false} AlreadyKept(items: seq<Item>, k: nat, missing: map<Key, Id>, wanted: map<Key, Id>)
    requires InLine(MarksIn(items), wanted) && k < |items| && items[k].kind == StayAnchor
    requires Partly(MarksIn(items[..k]), missing, wanted)
    ensures KeyOf(items[k]) in missing && items[k].stayId == Some(missing[KeyOf(items[k])])
  {
    hide MarksIn;
    hide KeyOf;
    MarkAt(items, k);
    NextMark(MarksIn(items), |MarksIn(items[..k])|, missing, wanted);
  }

  lemma NextMark(marks: seq<Item>, n: nat, missing: map<Key, Id>, wanted: map<Key, Id>)
    requires InLine(marks, wanted) && n < |marks| && Partly(marks[..n], missing, wanted)
    ensures KeyOf(marks[n]) in missing && marks[n].stayId == Some(missing[KeyOf(marks[n])])
  {
    assert forall i :: 0 <= i < n ==> marks[..n][i] == marks[i] && KeyOf(marks[i]) != KeyOf(marks[n]);
  }

  lemma {:induction false} MarksAppend(items: seq<Item>, item: Item)
    ensures MarksIn(items + [item]) == MarksIn(items) + (if item.kind == StayAnchor then [item] else [])
    ensures OthersIn(items + [item]) == OthersIn(items) + (if item.kind == StayAnchor then [] else [item])
  {
    assert (items + [item])[..|items|] == items;
  }

  predicate Names(items: seq<Item>, id: Id) {
    exists i :: 0 <= i < |items| && items[i].id == id
  }

  /** One more element, under a name of its own. */
  lemma NamedApart(items: seq<Item>, item: Item)
    requires DistinctItems(items) && !Names(items, item.id)
    ensures DistinctItems(items + [item])
    ensures forall id :: Names(items + [item], id) <==> Names(items, id) || id == item.id
  {
    var more := items + [item];
    assert more[|items|] == item;
    forall id ensures Names(more, id) <==> Names(items, id) || id == item.id {
      if i :| 0 <= i < |items| && items[i].id == id {
        assert more[i].id == id;
      }
    }
  }

  lemma NamesBefore(items: seq<Item>, k: nat)
    requires DistinctItems(items) && k < |items|
    ensures !Names(items[..k], items[k].id)
    ensures forall id :: Names(items[..k + 1], id) <==> Names(items[..k], id) || id == items[k].id
  {
    forall id ensures Names(items[..k + 1], id) <==> Names(items[..k], id) || id == items[k].id {
      if i :| 0 <= i < k && items[i].id == id {
        assert items[..k + 1][i].id == id && items[..k][i].id == id;
      }
      assert items[..k + 1][k].id == items[k].id;
    }
  }

  /** The elements of a document that are kept, so far. */
  ghost predicate Kept(items: seq<Item>, k: nat, kept: seq<Item>, missing: map<Key, Id>, wanted: map<Key, Id>)
    requires k <= |items|
  {
    && Partly(MarksIn(kept), missing, wanted) && OthersIn(kept) == OthersIn(items[..k]) && Marked(kept)
    && DistinctItems(kept) && (forall id :: Names(kept, id) ==> Names(items[..k], id))
    && (InLine(MarksIn(items), wanted) ==> kept == items[..k])
  }

  lemma KeepOther(items: seq<Item>, k: nat, kept: seq<Item>, missing: map<Key, Id>, wanted: map<Key, Id>)
    requires DistinctItems(items) && k < |items| && items[k].kind != StayAnchor && Kept(items, k, kept, missing, wanted)
    ensures Kept(items, k + 1, kept + [items[k]], missing, wanted)
  {
    hide Names;
    hide Partly;
    assert items[..k + 1] == items[..k] + [items[k]];
    MarksAppend(items[..k], items[k]);
    MarksAppend(kept, items[k]);
    NamesBefore(items, k);
    NamedApart(kept, items[k]);
    assert MarksIn(kept) + [] == MarksIn(kept);
  }

  lemma DropMark(items: seq<Item>, k: nat, kept: seq<Item>, missing: map<Key, Id>, wanted: map<Key, Id>)
    requires DistinctItems(items) && k < |items| && items[k].kind == StayAnchor && Kept(items, k, kept, missing, wanted)
    requires KeyOf(items[k]) !in missing
    ensures Kept(items, k + 1, kept, missing, wanted)
  {
    hide Names;
    hide Partly;
    assert items[..k + 1] == items[..k] + [items[k]];
    MarksAppend(items[..k], items[k]);
    NamesBefore(items, k);
    assert OthersIn(items[..k]) + [] == OthersIn(items[..k]);
    if InLine(MarksIn(items), wanted) {
      AlreadyKept(items, k, missing, wanted);
    }
  }

  lemma KeepMark(items: seq<Item>, k: nat, kept: seq<Item>, missing: map<Key, Id>, wanted: map<Key, Id>)
    requires DistinctItems(items) && Marked(items) && k < |items| && items[k].kind == StayAnchor
    requires Kept(items, k, kept, missing, wanted) && KeyOf(items[k]) in missing
    ensures var key := KeyOf(items[k]);
            Kept(items, k + 1, kept + [items[k].(stayId := Some(missing[key]))], missing - {key}, wanted)
  {
    hide Names;
    hide Partly;
    hide InLine;
    var key := KeyOf(items[k]);
    var mark := items[k].(stayId := Some(missing[key]));
    OneMoreMark(MarksIn(kept), missing, wanted, mark);
    assert items[..k + 1] == items[..k] + [items[k]];
    MarksAppend(items[..k], items[k]);
    MarksAppend(kept, mark);
    NamesBefore(items, k);
    NamedApart(kept, mark);
    hide MarksIn;
    hide OthersIn;
    hide DistinctItems;
    assert OthersIn(kept) + [] == OthersIn(kept) && OthersIn(items[..k]) + [] == OthersIn(items[..k]);
    if InLine(MarksIn(items), wanted) {
      AlreadyKept(items, k, missing, wanted);
      assert mark == items[k];
    }
  }

  /** A mark that was there keeps all but its stay; a new one holds nothing but where it belongs. */
  ghost predicate MarkGoesOn(items: seq<Item>, mark: Item) {
    || (exists before :: before in items && mark == before.(stayId := mark.stayId))
    || mark == Item(mark.id, mark.dayId, 0, StayAnchor, mark.anchor, mark.stayId, "", None, None, "", "", None, 0,
                    false, Cost(None, None, false, Accommodation, None, SplitNone, []))
  }

  ghost predicate MarksGoOn(items: seq<Item>, synced: seq<Item>) {
    forall item :: item in synced && item.kind == StayAnchor ==> MarkGoesOn(items, item)
  }

  /** Removes marks that are not wanted, and second ones of the same morning or evening,
      and moves those of another stay. */
  method KeepMarks(items: seq<Item>, wanted: map<Key, Id>) returns (kept: seq<Item>, missing: map<Key, Id>)
    requires DistinctItems(items) && Marked(items)
    ensures Kept(items, |items|, kept, missing, wanted)
    ensures InLine(MarksIn(items), wanted) ==> missing == map[]
    ensures MarksGoOn(items, kept)
  {
    hide Kept;
    kept, missing := [], wanted;
    NothingKept(items, wanted);
    for k := 0 to |items|
      invariant Kept(items, k, kept, missing, wanted) && MarksGoOn(items, kept)
    {
      var item := items[k];
      if item.kind != StayAnchor {
        KeepOther(items, k, kept, missing, wanted);
        kept := kept + [item];
        continue;
      }
      var key := KeyOf(item);
      if key !in missing {
        DropMark(items, k, kept, missing, wanted);
        continue;
      }
      KeepMark(items, k, kept, missing, wanted);
      kept := kept + [item.(stayId := Some(missing[key]))];
      missing := missing - {key};
    }
    NothingMissing(items, kept, missing, wanted);
  }

  lemma NothingKept(items: seq<Item>, wanted: map<Key, Id>)
    ensures Kept(items, 0, [], wanted, wanted)
  {
  }

  lemma {:induction false} NothingMissing(items: seq<Item>, kept: seq<Item>, missing: map<Key, Id>,
                                          wanted: map<Key, Id>)
    requires Kept(items, |items|, kept, missing, wanted)
    ensures InLine(MarksIn(items), wanted) ==> missing == map[] && kept == items
  {
    assert items[..|items|] == items;
  }

  const MARK_COST: Cost := Cost(None, None, false, Accommodation, None, SplitNone, [])

  function NewMark(id: Id, key: Key, stayId: Id): Item {
    Item(id, Some(key.dayId), 0, StayAnchor, key.slot, Some(stayId), "", None, None, "", "", None, 0, false, MARK_COST)
  }

  /** Names for new marks that no element has. */
  ghost predicate Unnamed(items: seq<Item>, ids: nat -> Id) {
    (forall m: nat, n: nat :: ids(m) == ids(n) ==> m == n) && forall n: nat :: !Names(items, ids(n))
  }

  /** Every element bears a name it had, or one of the first n new ones. */
  ghost predicate NamedSoFar(items: seq<Item>, synced: seq<Item>, ids: nat -> Id, n: nat) {
    && DistinctItems(synced)
    && forall id :: Names(synced, id) ==> Names(items, id) || exists m: nat :: m < n && id == ids(m)
  }

  /** Everything but the marks as it was, and so far n marks added. */
  ghost predicate Synced(items: seq<Item>, synced: seq<Item>, missing: map<Key, Id>, wanted: map<Key, Id>,
                         ids: nat -> Id, n: nat)
  {
    && Partly(MarksIn(synced), missing, wanted) && OthersIn(synced) == OthersIn(items) && Marked(synced)
    && NamedSoFar(items, synced, ids, n)
  }

  lemma NewName(items: seq<Item>, synced: seq<Item>, ids: nat -> Id, n: nat, mark: Item)
    requires NamedSoFar(items, synced, ids, n) && Unnamed(items, ids) && mark.id == ids(n)
    ensures NamedSoFar(items, synced + [mark], ids, n + 1)
  {
    assert !Names(synced, mark.id) by {
      hide Names;
    }
    NamedApart(synced, mark);
    hide Names;
  }

  lemma AddMark(items: seq<Item>, synced: seq<Item>, missing: map<Key, Id>, wanted: map<Key, Id>, ids: nat -> Id,
                n: nat, key: Key)
    requires Synced(items, synced, missing, wanted, ids, n) && Unnamed(items, ids) && key in missing
    ensures Synced(items, synced + [NewMark(ids(n), key, missing[key])], missing - {key}, wanted, ids, n + 1)
  {
    hide NamedSoFar;
    hide Unnamed;
    hide Partly;
    var mark := NewMark(ids(n), key, missing[key]);
    assert KeyOf(mark) == key && mark.kind == StayAnchor && mark.stayId == Some(missing[key]) && mark.dayId.Some?;
    assert mark.id == ids(n);
    hide KeyOf;
    hide NewMark;
    OneMoreMark(MarksIn(synced), missing, wanted, mark);
    MarksAppend(synced, mark);
    assert OthersIn(synced) + [] == OthersIn(synced);
    NewName(items, synced, ids, n, mark);
  }

  lemma KeptIsSynced(items: seq<Item>, kept: seq<Item>, missing: map<Key, Id>, wanted: map<Key, Id>, ids: nat -> Id)
    requires Kept(items, |items|, kept, missing, wanted)
    ensures Synced(items, kept, missing, wanted, ids, 0)
  {
    assert items[..|items|] == items;
  }

  /** Brings the marks in line with the wanted ones: afterwards every morning and evening
      that should be marked is, once and with its stay, and no other. Everything else stays,
      and marks that are in line already are left alone. */
  method SyncAnchors(items: seq<Item>, wanted: map<Key, Id>, ids: nat -> Id) returns (synced: seq<Item>)
    requires DistinctItems(items) && Marked(items) && Unnamed(items, ids)
    ensures InLine(MarksIn(synced), wanted) && OthersIn(synced) == OthersIn(items)
    ensures DistinctItems(synced) && Marked(synced)
    ensures InLine(MarksIn(items), wanted) ==> synced == items
    ensures MarksGoOn(items, synced)
  {
    hide Kept;
    hide Synced;
    var missing;
    synced, missing := KeepMarks(items, wanted);
    NothingMissing(items, synced, missing, wanted);
    KeptIsSynced(items, synced, missing, wanted, ids);
    var n: nat := 0;
    while missing.Keys != {}
      invariant Synced(items, synced, missing, wanted, ids, n) && MarksGoOn(items, synced)
      invariant InLine(MarksIn(items), wanted) ==> synced == items && missing == map[]
      decreases |missing.Keys|
    {
      var key :| key in missing.Keys;
      AddMark(items, synced, missing, wanted, ids, n, key);
      assert (missing - {key}).Keys == missing.Keys - {key};
      synced := synced + [NewMark(ids(n), key, missing[key])];
      missing := missing - {key};
      n := n + 1;
    }
    NoneMissing(items, synced, missing, wanted, ids, n);
  }

  lemma {:induction false} NoneMissing(items: seq<Item>, synced: seq<Item>, missing: map<Key, Id>,
                                       wanted: map<Key, Id>, ids: nat -> Id, n: nat)
    requires Synced(items, synced, missing, wanted, ids, n) && missing.Keys == {}
    ensures InLine(MarksIn(synced), wanted) && OthersIn(synced) == OthersIn(items)
    ensures DistinctItems(synced) && Marked(synced)
  {
    assert missing == map[];
  }
}
