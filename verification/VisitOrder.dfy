/**
 Putting the places of a report's day in the order they were reached (OrderByActualTime in
 backend/internal/domain/document.go).
 */
module VisitOrder {
  import opened Common

  /** A place with the time it was reached at, in a report that knows it. */
  datatype Visit = Visit(id: Id, reached: Option<int>)

  function ReachedAt(visit: Visit): int {
    visit.reached.GetOr(0)
  }

  function Timed(places: seq<Visit>): seq<Visit> {
    if places == [] then []
    else Timed(places[..|places| - 1]) + if places[|places| - 1].reached.Some? then [places[|places| - 1]] else []
  }

  /** Fills the slots of the timed places with other visits, one after the other. */
  function Filled(places: seq<Visit>, visits: seq<Visit>): seq<Visit>
    requires |visits| == |Timed(places)|
  {
    if places == [] then []
    else if places[|places| - 1].reached.Some?
    then Filled(places[..|places| - 1], visits[..|visits| - 1]) + [visits[|visits| - 1]]
    else Filled(places[..|places| - 1], visits) + [places[|places| - 1]]
  }

  /** The places in the order they were reached. */
  function Reordered(places: seq<Visit>): seq<Visit> {
    SortKeepsLength(places);
    Filled(places, StableSort(Timed(places), ReachedAt))
  }

  lemma {:induction false} SortKeepsLength(places: seq<Visit>)
    ensures |StableSort(Timed(places), ReachedAt)| == |Timed(places)|
  {
    var timed := Timed(places);
    StableSortSorts(timed, ReachedAt);
    assert |multiset(StableSort(timed, ReachedAt))| == |multiset(timed)|;
  }

  function Ids(visits: seq<Visit>): seq<Id> {
    seq(|visits|, i requires 0 <= i < |visits| => visits[i].id)
  }

  method OrderByActualTime(places: seq<Visit>) returns (order: seq<Id>)
    ensures order == Ids(Reordered(places))
  {
    var timed := [];
    for k := 0 to |places|
      invariant timed == Timed(places[..k])
    {
      assert places[..k + 1][..k] == places[..k];
      if places[k].reached.Some? {
        timed := timed + [places[k]];
      }
    }
    assert places[..|places|] == places;
    SortKeepsLength(places);
    timed := StableSort(timed, ReachedAt);
    order := FillSlots(places, timed);
  }

  method FillSlots(places: seq<Visit>, visits: seq<Visit>) returns (order: seq<Id>)
    requires |visits| == |Timed(places)|
    ensures order == Ids(Filled(places, visits))
  {
    hide Timed;
    hide Filled;
    order := [];
    var next := 0;
    NothingTimed();
    for k := 0 to |places|
      invariant next == |Timed(places[..k])| <= |visits|
      invariant order == Ids(Filled(places[..k], visits[..next]))
    {
      TimedGrows(places, k);
      FilledMore(places, visits, k, next);
      if places[k].reached.None? {
        order := order + [places[k].id];
        continue;
      }
      order := order + [visits[next].id];
      next := next + 1;
    }
    assert places[..|places|] == places && visits[..next] == visits;
  }

  lemma FilledMore(places: seq<Visit>, visits: seq<Visit>, k: nat, next: nat)
    requires k < |places| && next == |Timed(places[..k])|
    requires next + (if places[k].reached.Some? then 1 else 0) <= |visits|
    ensures var after := next + if places[k].reached.Some? then 1 else 0;
            && |Timed(places[..k + 1])| == after
            && Filled(places[..k + 1], visits[..after])
               == Filled(places[..k], visits[..next]) + [if places[k].reached.Some? then visits[next] else places[k]]
  {
    assert places[..k + 1][..k] == places[..k];
    if places[k].reached.Some? {
      assert visits[..next + 1][..next] == visits[..next];
    }
  }

  lemma NothingTimed()
    ensures Timed([]) == [] && Filled([], []) == []
  {
  }

  lemma {:induction false} TimedGrows(places: seq<Visit>, k: nat)
    requires k < |places|
    ensures |Timed(places[..k])| + (if places[k].reached.Some? then 1 else 0) <= |Timed(places)|
    decreases |places|
  {
    if k < |places| - 1 {
      var front := places[..|places| - 1];
      TimedGrows(front, k);
      assert front[..k] == places[..k];
    } else {
      assert places[..k] == places[..|places| - 1];
    }
  }

  lemma {:induction false} FilledKeeps(places: seq<Visit>, visits: seq<Visit>)
    requires |visits| == |Timed(places)| && forall visit :: visit in visits ==> visit.reached.Some?
    ensures var filled := Filled(places, visits);
            && |filled| == |places| && Timed(filled) == visits
            && forall i :: 0 <= i < |places| && places[i].reached.None? ==> filled[i] == places[i]
  {
    if places != [] {
      var rest, slot := FilledStep(places, visits);
      hide Timed;
      hide Filled;
      FilledKeeps(places[..|places| - 1], rest);
      TimedMore(Filled(places[..|places| - 1], rest), slot);
    }
  }

  /** The last slot, and what fills those before it. */
  lemma FilledStep(places: seq<Visit>, visits: seq<Visit>) returns (rest: seq<Visit>, slot: Visit)
    requires places != [] && |visits| == |Timed(places)|
    ensures var front, last := places[..|places| - 1], places[|places| - 1];
            && |rest| == |Timed(front)| && Filled(places, visits) == Filled(front, rest) + [slot]
            && (if last.reached.Some? then visits == rest + [slot] && Timed(places) == Timed(front) + [last]
                else visits == rest && slot == last && Timed(places) == Timed(front))
  {
    var last := places[|places| - 1];
    if last.reached.Some? {
      rest, slot := visits[..|visits| - 1], visits[|visits| - 1];
    } else {
      rest, slot := visits, last;
    }
  }

  lemma {:induction false} TimedMore(places: seq<Visit>, last: Visit)
    ensures Timed(places + [last]) == Timed(places) + if last.reached.Some? then [last] else []
  {
    assert (places + [last])[..|places|] == places;
  }

  lemma {:induction false} FilledHolds(places: seq<Visit>, visits: seq<Visit>)
    requires |visits| == |Timed(places)|
    ensures multiset(Filled(places, visits)) + multiset(Timed(places)) == multiset(places) + multiset(visits)
  {
    if places != [] {
      var front, last := places[..|places| - 1], places[|places| - 1];
      var rest, slot := FilledStep(places, visits);
      hide Timed;
      hide Filled;
      assert places == front + [last];
      FilledHolds(front, rest);
      Rearrange(multiset(Filled(front, rest)), multiset(Timed(front)), multiset(front), multiset(rest), slot, last);
    }
  }

  lemma Rearrange<T>(a: multiset<T>, b: multiset<T>, c: multiset<T>, d: multiset<T>, x: T, y: T)
    requires a + b == c + d
    ensures a + multiset{x} + (b + multiset{y}) == c + multiset{y} + (d + multiset{x})
    ensures x == y ==> a + multiset{x} + b == c + multiset{x} + d
  {
    assert a + multiset{x} + (b + multiset{y}) == a + b + multiset{x, y};
    assert c + multiset{y} + (d + multiset{x}) == c + d + multiset{x, y};
    assert a + multiset{x} + b == a + b + multiset{x};
    assert c + multiset{x} + d == c + d + multiset{x};
  }

  lemma Cancel<T>(a: multiset<T>, b: multiset<T>, c: multiset<T>)
    requires a + c == b + c
    ensures a == b
  {
    assert a == (a + c) - c && b == (b + c) - c;
  }

  lemma {:induction false} TimedAre(places: seq<Visit>)
    ensures forall visit :: visit in Timed(places) ==> visit.reached.Some?
  {
    if places != [] {
      TimedAre(places[..|places| - 1]);
    }
  }

  /** The order holds the same places; a place without a time keeps its position; those
      with one come sorted by it, and equal times keep their order. */
  lemma {:induction false} OrderIsByTime(places: seq<Visit>)
    ensures var ordered := Reordered(places);
            && multiset(ordered) == multiset(places)
            && |ordered| == |places|
            && (forall i :: 0 <= i < |places| && places[i].reached.None? ==> ordered[i] == places[i])
            && SortedBy(Timed(ordered), ReachedAt)
            && forall at :: Level(Timed(ordered), ReachedAt, at) == Level(Timed(places), ReachedAt, at)
  {
    hide StableSort;
    hide Filled;
    hide Timed;
    hide Level;
    var timed := Timed(places);
    var sorted := StableSort(timed, ReachedAt);
    SortKeepsLength(places);
    StableSortSorts(timed, ReachedAt);
    TimedAre(places);
    assert forall visit :: visit in sorted <==> visit in multiset(sorted);
    assert forall visit :: visit in timed <==> visit in multiset(timed);
    FilledKeeps(places, sorted);
    FilledHolds(places, sorted);
    Cancel(multiset(Reordered(places)), multiset(places), multiset(timed));
    forall at ensures Level(sorted, ReachedAt, at) == Level(timed, ReachedAt, at) {
      StableSortIsStable(timed, ReachedAt, at);
    }
  }
}
