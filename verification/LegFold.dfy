/**
 Legs with changes on the way read as plain ones (backend/internal/domain/legsegment.go).
 */
module LegFold {
  import opened Common
  import opened Polyline
  import opened Document

  /** How much a state says about the whole, the least first. */
  function Rank(source: LegSource): nat {
    match source
    case Pending => 5
    case MissingCoordinates => 4
    case Estimate => 3
    case StraightLine => 2
    case Provider => 1
  }

  /** What a part counts as among the others: a typed duration makes up for missing ends. */
  function StateOf(segment: Segment): LegSource {
    if segment.Duration().Some? && segment.source == MissingCoordinates then StraightLine else segment.source
  }

  function AddMoney(total: Option<Money>, amount: Option<Money>): Option<Money> {
    if amount == None then total else Some(amount.value + total.GetOr(0))
  }

  // The totals of the first n parts of a leg.

  function DistanceOf(segments: seq<Segment>, n: nat): int
    requires n <= |segments|
  {
    if n == 0 then 0 else DistanceOf(segments, n - 1) + segments[n - 1].Distance().GetOr(0)
  }

  function DurationOf(segments: seq<Segment>, n: nat): int
    requires n <= |segments|
  {
    if n == 0 then 0
    else DurationOf(segments, n - 1) + segments[n - 1].Duration().GetOr(0)
         + (if n < |segments| then segments[n - 1].waitMinutes * 60 else 0)
  }

  function LineOf(segments: seq<Segment>, n: nat): seq<Point>
    requires n <= |segments|
  {
    if n == 0 then [] else LineOf(segments, n - 1) + Decoded(segments[n - 1].geometry)
  }

  function SourceOf(segments: seq<Segment>, n: nat): LegSource
    requires n <= |segments|
  {
    if n == 0 then Provider
    else
      var before := SourceOf(segments, n - 1);
      if Rank(StateOf(segments[n - 1])) > Rank(before) then StateOf(segments[n - 1]) else before
  }

  function ReasonOf(segments: seq<Segment>, n: nat): string
    requires n <= |segments|
  {
    if n == 0 then ""
    else
      var before := ReasonOf(segments, n - 1);
      if before == "" && segments[n - 1].source == Estimate then segments[n - 1].error else before
  }

  function PlannedOf(tickets: seq<Ticket>, n: nat): Option<Money>
    requires n <= |tickets|
  {
    if n == 0 then None else AddMoney(PlannedOf(tickets, n - 1), tickets[n - 1].plannedCost)
  }

  function ActualOf(tickets: seq<Ticket>, n: nat): Option<Money>
    requires n <= |tickets|
  {
    if n == 0 then None else AddMoney(ActualOf(tickets, n - 1), tickets[n - 1].actualCost)
  }

  predicate AnyKnownDistance(segments: seq<Segment>) {
    exists i :: 0 <= i < |segments| && segments[i].Distance().Some?
  }

  predicate AllKnownDurations(segments: seq<Segment>) {
    forall i :: 0 <= i < |segments| ==> segments[i].Duration().Some?
  }

  /** The leg as everything that reads it sees it. */
  function Folded(leg: Leg): Leg {
    if !leg.Composite() then leg
    else
      var parts, n := leg.segments, |leg.segments|;
      leg.(mode := parts[0].mode,
           distanceM := if AnyKnownDistance(parts) then Some(DistanceOf(parts, n)) else None,
           durationS := if AllKnownDurations(parts) then Some(DurationOf(parts, n)) else None,
           manualDistanceM := None, manualDurationS := None,
           geometry := if |LineOf(parts, n)| > 1 then Encoded(LineOf(parts, n)) else [],
           source := SourceOf(parts, n), error := ReasonOf(parts, n),
           plannedCost := PlannedOf(leg.tickets, |leg.tickets|), actualCost := ActualOf(leg.tickets, |leg.tickets|),
           via := [], pinned := false, preference := Fastest)
  }

  /** What the parts of a leg come to together. */
  datatype Whole = Whole(distance: Option<int>, duration: Option<int>, line: seq<Point>, source: LegSource,
                         reason: string)

  function WholeOf(parts: seq<Segment>): Whole {
    Whole(if AnyKnownDistance(parts) then Some(DistanceOf(parts, |parts|)) else None,
          if AllKnownDurations(parts) then Some(DurationOf(parts, |parts|)) else None,
          LineOf(parts, |parts|), SourceOf(parts, |parts|), ReasonOf(parts, |parts|))
  }

  /** The loop over the parts of a leg. */
  method FoldParts(parts: seq<Segment>) returns (whole: Whole)
    ensures whole == WholeOf(parts)
  {
    hide Decoded;
    hide Rank;
    var metres, seconds := 0, 0;
    var distanceKnown, durationUnknown := false, false;
    var line: seq<Point> := [];
    var source, reason := Provider, "";
    for index := 0 to |parts|
      invariant metres == DistanceOf(parts, index) && seconds == DurationOf(parts, index)
      invariant distanceKnown <==> exists i :: 0 <= i < index && parts[i].Distance().Some?
      invariant durationUnknown <==> exists i :: 0 <= i < index && parts[i].Duration() == None
      invariant line == LineOf(parts, index)
      invariant source == SourceOf(parts, index) && reason == ReasonOf(parts, index)
    {
      var segment := parts[index];
      var value := segment.Distance();
      if value.Some? {
        metres := metres + value.value;
        distanceKnown := true;
      }
      value := segment.Duration();
      if value.Some? {
        seconds := seconds + value.value;
      } else {
        durationUnknown := true;
      }
      if index < |parts| - 1 {
        seconds := seconds + segment.waitMinutes * 60;
      }
      if segment.geometry != [] {
        var points := DecodePolyline(segment.geometry);
        line := line + points;
      } else {
        NothingDecoded();
      }
      var state := segment.source;
      if segment.Duration().Some? && state == MissingCoordinates {
        state := StraightLine;
      }
      assert state == StateOf(segment);
      if Rank(state) > Rank(source) {
        source := state;
      }
      if reason == "" && segment.source == Estimate {
        reason := segment.error;
      }
    }
    whole := Whole(if distanceKnown then Some(metres) else None, if durationUnknown then None else Some(seconds),
                   line, source, reason);
  }

  method AddTickets(tickets: seq<Ticket>) returns (planned: Option<Money>, actual: Option<Money>)
    ensures planned == PlannedOf(tickets, |tickets|) && actual == ActualOf(tickets, |tickets|)
  {
    planned, actual := None, None;
    for index := 0 to |tickets|
      invariant planned == PlannedOf(tickets, index) && actual == ActualOf(tickets, index)
    {
      planned := AddMoney(planned, tickets[index].plannedCost);
      actual := AddMoney(actual, tickets[index].actualCost);
    }
  }

  method Fold(leg: Leg) returns (folded: Leg)
    ensures folded == Folded(leg)
  {
    hide Encoded;
    if !leg.Composite() {
      return leg;
    }
    var whole := FoldParts(leg.segments);
    var geometry := [];
    if |whole.line| > 1 {
      geometry := EncodePolyline(whole.line);
    }
    var planned, actual := AddTickets(leg.tickets);
    folded := leg.(
      mode := leg.segments[0].mode, distanceM := whole.distance, durationS := whole.duration,
      manualDistanceM := None, manualDurationS := None, geometry := geometry, source := whole.source,
      error := whole.reason,
      plannedCost := planned, actualCost := actual, via := [], pinned := false, preference := Fastest);
  }

  lemma NothingDecoded()
    ensures Decoded([]) == []
  {
    DecodeEnd(ORIGIN, []);
  }

  // ------------------------------------------------------------- travel

  /** What one way of travelling takes within a leg. */
  datatype PartTravel = PartTravel(mode: TravelMode, distanceM: Option<int>, durationS: Option<int>)

  function Travel(leg: Leg): (parts: seq<PartTravel>)
    ensures |parts| == if leg.Composite() then |leg.segments| else 1
  {
    if !leg.Composite() then [PartTravel(leg.mode, leg.Distance(), leg.Duration())]
    else seq(|leg.segments|, i requires 0 <= i < |leg.segments| =>
               PartTravel(leg.segments[i].mode, leg.segments[i].Distance(), leg.segments[i].Duration()))
  }

  /** What was typed in counts before what was calculated. */
  function TypedOr(typed: Option<int>, calculated: Option<int>): Option<int> {
    if typed == None then calculated else typed
  }

  /** A leg is travelled its own way, or part by part each its own way. */
  lemma TravelIs(leg: Leg)
    ensures !leg.Composite() ==>
              Travel(leg) == [PartTravel(leg.mode, TypedOr(leg.manualDistanceM, leg.distanceM),
                                         TypedOr(leg.manualDurationS, leg.durationS))]
    ensures leg.Composite() ==>
              |Travel(leg)| == |leg.segments| && forall i :: 0 <= i < |leg.segments| ==>
                var part := leg.segments[i];
                Travel(leg)[i] == PartTravel(part.mode, TypedOr(part.manualDistanceM, part.distanceM),
                                             TypedOr(part.manualDurationS, part.durationS))
  {
  }

  function TravelDistances(parts: seq<PartTravel>): seq<int> {
    seq(|parts|, i requires 0 <= i < |parts| => parts[i].distanceM.GetOr(0))
  }

  function TravelDurations(parts: seq<PartTravel>): seq<int> {
    seq(|parts|, i requires 0 <= i < |parts| => parts[i].durationS.GetOr(0))
  }

  /** The minutes waited at the changes of a leg: everywhere but after its last part. */
  function Waits(segments: seq<Segment>): seq<int> {
    if |segments| <= 1 then [] else [segments[0].waitMinutes] + Waits(segments[1..])
  }

  lemma {:induction false} SumLast(s: seq<int>)
    requires s != []
    ensures Sum(s) == Sum(s[..|s| - 1]) + s[|s| - 1]
  {
    assert s == s[..|s| - 1] + [s[|s| - 1]];
    SumAppend(s[..|s| - 1], [s[|s| - 1]]);
  }

  lemma {:induction false} DistanceIsSum(leg: Leg, n: nat)
    requires leg.Composite() && n <= |leg.segments|
    ensures DistanceOf(leg.segments, n) == Sum(TravelDistances(Travel(leg))[..n])
  {
    if n > 0 {
      DistanceIsSum(leg, n - 1);
      var all := TravelDistances(Travel(leg));
      SumLast(all[..n]);
      assert all[..n][..n - 1] == all[..n - 1];
    }
  }

  lemma {:induction false} WaitsLast(segments: seq<Segment>)
    requires |segments| >= 2
    ensures Waits(segments) == Waits(segments[..|segments| - 1]) + [segments[|segments| - 2].waitMinutes]
  {
    if |segments| > 2 {
      WaitsLast(segments[1..]);
      assert segments[1..][..|segments| - 2] == segments[..|segments| - 1][1..];
    }
  }

  lemma {:induction false} DurationIsSum(leg: Leg, n: nat)
    requires leg.Composite() && n <= |leg.segments|
    ensures n < |leg.segments| ==>
              DurationOf(leg.segments, n) == Sum(TravelDurations(Travel(leg))[..n])
                  + 60 * Sum(Waits(leg.segments[..n + 1]))
    ensures n == |leg.segments| ==>
              DurationOf(leg.segments, n) == Sum(TravelDurations(Travel(leg))) + 60 * Sum(Waits(leg.segments))
  {
    var all := TravelDurations(Travel(leg));
    if n > 0 {
      DurationIsSum(leg, n - 1);
      SumLast(all[..n]);
      assert all[..n][..n - 1] == all[..n - 1];
      if n < |leg.segments| {
        var upTo := leg.segments[..n + 1];
        WaitsLast(upTo);
        assert upTo[..n] == leg.segments[..n];
        SumAppend(Waits(leg.segments[..n]), [upTo[n - 1].waitMinutes]);
      } else {
        assert all[..n] == all && leg.segments[..n] == leg.segments;
      }
    }
  }

  /** The distance a leg with changes shows is its known parts together, and unknown
      only when none is known. */
  lemma FoldKeepsDistance(leg: Leg)
    requires leg.Composite()
    ensures Folded(leg).Distance() ==
              if (forall i :: 0 <= i < |Travel(leg)| ==> Travel(leg)[i].distanceM == None) then None
              else Some(Sum(TravelDistances(Travel(leg))))
  {
    hide LineOf;
    hide Encoded;
    hide Sum;
    var n := |leg.segments|;
    DistanceIsSum(leg, n);
    assert TravelDistances(Travel(leg))[..n] == TravelDistances(Travel(leg));
    if AnyKnownDistance(leg.segments) {
      var i :| 0 <= i < n && leg.segments[i].Distance().Some?;
      assert Travel(leg)[i].distanceM.Some?;
    }
  }

  /** Its time is the parts and the waits between them, unknown while any part is. */
  lemma FoldKeepsDuration(leg: Leg)
    requires leg.Composite()
    ensures Folded(leg).Duration() ==
              if (exists i :: 0 <= i < |Travel(leg)| && Travel(leg)[i].durationS == None) then None
              else Some(Sum(TravelDurations(Travel(leg))) + 60 * Sum(Waits(leg.segments)))
  {
    hide LineOf;
    hide Encoded;
    hide Sum;
    hide Waits;
    DurationIsSum(leg, |leg.segments|);
    if i :| 0 <= i < |leg.segments| && leg.segments[i].Duration() == None {
      assert Travel(leg)[i].durationS == None;
    }
  }

  /** Every leg, once read, has the distance its ways of travelling add up to. */
  lemma DistanceByPart(leg: Leg)
    ensures Folded(leg).Distance().GetOr(0) == Sum(TravelDistances(Travel(Folded(leg))))
  {
    if leg.Composite() {
      FoldKeepsDistance(leg);
      if forall i :: 0 <= i < |Travel(leg)| ==> Travel(leg)[i].distanceM == None {
        NothingToAdd(TravelDistances(Travel(leg)));
      }
    } else {
      assert TravelDistances(Travel(leg)) == [leg.Distance().GetOr(0)];
    }
  }

  /** A leg as the rest of the program sees it: legs with changes are folded when read. */
  ghost predicate AsRead(leg: Leg) {
    exists stored: Leg :: leg == Folded(stored)
  }

  lemma ReadDistanceByPart(leg: Leg)
    requires AsRead(leg)
    ensures leg.Distance().GetOr(0) == Sum(TravelDistances(Travel(leg)))
  {
    var stored: Leg :| leg == Folded(stored);
    DistanceByPart(stored);
  }

  lemma {:induction false} NothingToAdd(s: seq<int>)
    requires forall i :: 0 <= i < |s| ==> s[i] == 0
    ensures Sum(s) == 0
  {
    if s != [] {
      NothingToAdd(s[1..]);
    }
  }

  // ------------------------------------------------------------- the rest of a leg

  lemma {:induction false} SourceRanks(segments: seq<Segment>, n: nat)
    requires n <= |segments|
    ensures forall i :: 0 <= i < n ==> Rank(StateOf(segments[i])) <= Rank(SourceOf(segments, n))
    ensures SourceOf(segments, n) == Provider || exists i :: 0 <= i < n && StateOf(segments[i]) == SourceOf(segments, n)
  {
    if n > 0 {
      SourceRanks(segments, n - 1);
      var before := SourceOf(segments, n - 1);
      if Rank(StateOf(segments[n - 1])) <= Rank(before) && before != Provider {
        var i :| 0 <= i < n - 1 && StateOf(segments[i]) == before;
      }
    }
  }

  /** A part whose ends are not all known, and nobody typed in how long it takes. */
  predicate Unplaced(part: Segment) {
    part.source == MissingCoordinates && part.manualDurationS == None && part.durationS == None
  }

  /** A leg with changes waits while one of its parts waits; otherwise it misses coordinates
      while a part does whose time is not known either, is an estimate as soon as one part
      is, and follows roads all the way only if every part does. What is left is drawn
      straight. */
  lemma FoldKeepsState(leg: Leg)
    requires leg.Composite()
    ensures var parts, source := leg.segments, Folded(leg).source;
            var waits := exists i :: 0 <= i < |parts| && parts[i].source == Pending;
            var unplaced := exists i :: 0 <= i < |parts| && Unplaced(parts[i]);
            var estimated := exists i :: 0 <= i < |parts| && parts[i].source == Estimate;
            && (source == Pending <==> waits)
            && (source == MissingCoordinates <==> !waits && unplaced)
            && (source == Estimate <==> !waits && !unplaced && estimated)
            && (source == Provider <==> forall i :: 0 <= i < |parts| ==> parts[i].source == Provider)
  {
    hide LineOf;
    hide Encoded;
    var parts, n := leg.segments, |leg.segments|;
    SourceRanks(parts, n);
    forall i | 0 <= i < n
      ensures StateOf(parts[i]) == Pending <==> parts[i].source == Pending
      ensures StateOf(parts[i]) == MissingCoordinates <==> Unplaced(parts[i])
      ensures StateOf(parts[i]) == Estimate <==> parts[i].source == Estimate
      ensures StateOf(parts[i]) == Provider <==> parts[i].source == Provider
    {
    }
    hide StateOf;
    hide Unplaced;
    var source := SourceOf(parts, n);
    if source != Provider {
      var i :| 0 <= i < n && StateOf(parts[i]) == source;
    }
  }

  /** The first part that is an estimate and says why, if any does. */
  predicate SaysWhy(parts: seq<Segment>, i: int) {
    && 0 <= i < |parts| && parts[i].source == Estimate && parts[i].error != ""
    && forall j :: 0 <= j < i ==> parts[j].source != Estimate || parts[j].error == ""
  }

  lemma {:induction false} ReasonIs(parts: seq<Segment>, n: nat)
    requires n <= |parts|
    ensures forall i :: SaysWhy(parts, i) ==> ReasonOf(parts, n) == if i < n then parts[i].error else ""
    ensures (forall i :: 0 <= i < n ==> parts[i].source != Estimate || parts[i].error == "") ==>
              ReasonOf(parts, n) == ""
  {
    if n > 0 {
      ReasonIs(parts, n - 1);
    }
  }

  function TicketPlans(ticket: Ticket): Money {
    ticket.plannedCost.GetOr(0)
  }

  function TicketCost(ticket: Ticket): Money {
    ticket.actualCost.GetOr(0)
  }

  lemma {:induction false} TicketsAddUp(tickets: seq<Ticket>, n: nat)
    requires n <= |tickets|
    ensures PlannedOf(tickets, n).GetOr(0) == SumBy(tickets[..n], TicketPlans)
    ensures ActualOf(tickets, n).GetOr(0) == SumBy(tickets[..n], TicketCost)
    ensures PlannedOf(tickets, n) == None <==> forall i :: 0 <= i < n ==> tickets[i].plannedCost == None
    ensures ActualOf(tickets, n) == None <==> forall i :: 0 <= i < n ==> tickets[i].actualCost == None
  {
    if n > 0 {
      TicketsAddUp(tickets, n - 1);
      assert tickets[..n][..n - 1] == tickets[..n - 1];
    }
  }

  /** It sets out as its first part does, gives the reason of the first estimate that has
      one, costs what its tickets cost together, unknown while none is known, and has nothing
      typed in, chosen or asked for of its own. */
  lemma FoldKeepsRest(leg: Leg)
    requires leg.Composite()
    ensures var folded := Folded(leg);
            && folded.mode == leg.segments[0].mode
            && (forall i :: SaysWhy(leg.segments, i) ==> folded.error == leg.segments[i].error)
            && ((forall i :: 0 <= i < |leg.segments| ==>
                   leg.segments[i].source != Estimate || leg.segments[i].error == "") ==> folded.error == "")
            && folded.plannedCost ==
                 (if forall i :: 0 <= i < |leg.tickets| ==> leg.tickets[i].plannedCost == None then None
                  else Some(SumBy(leg.tickets, TicketPlans)))
            && folded.actualCost ==
                 (if forall i :: 0 <= i < |leg.tickets| ==> leg.tickets[i].actualCost == None then None
                  else Some(SumBy(leg.tickets, TicketCost)))
            && folded.manualDistanceM == None && folded.manualDurationS == None
            && folded.Route() == LegRoute(Fastest, []) && !folded.pinned
  {
    hide LineOf;
    hide Encoded;
    ReasonIs(leg.segments, |leg.segments|);
    TicketsAddUp(leg.tickets, |leg.tickets|);
    assert leg.tickets[..|leg.tickets|] == leg.tickets;
  }

  /** The line of a leg with changes runs through the lines of its parts. */
  lemma FoldKeepsLine(leg: Leg)
    requires leg.Composite()
    requires AllOnGrid(LineOf(leg.segments, |leg.segments|))
    ensures var line := LineOf(leg.segments, |leg.segments|);
            Decoded(Folded(leg).geometry) == if |line| > 1 then line else []
  {
    hide Decoded;
    hide Encoded;
    var line := LineOf(leg.segments, |leg.segments|);
    if |line| > 1 {
      RoundTrip(line);
    } else {
      NothingDecoded();
    }
  }

  /** Reading a leg that was already read changes nothing: what a leg shows depends
      only on its parts and tickets, which folding keeps. */
  lemma FoldTwice(leg: Leg)
    ensures Folded(Folded(leg)) == Folded(leg)
    ensures Folded(leg).segments == leg.segments && Folded(leg).tickets == leg.tickets
    ensures Folded(leg).input == leg.input && Folded(leg).id == leg.id
  {
    hide LineOf;
    hide Encoded;
  }
}
