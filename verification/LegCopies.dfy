/**
 Reports made from plans (copyPlan, copyLegs and insertLegParts in
 backend/internal/storage/postgres/report.go and legsegments.go): every leg is copied with
 what it shows, so a leg with changes comes with the totals of its parts as its own.
 */
module LegCopies {
  import opened Common
  import opened Polyline
  import opened Document
  import opened LegInput
  import opened LegFold
  import opened Reconcile
  import opened LegSync
  import opened LegFixpoint
  import opened LegReaders
  import opened LegJobs
  import opened LegMoves
  import opened LegRuns
  import opened LegChoice

  /** The copies of days and elements, and the identifiers given to legs, parts and tickets. */
  datatype Copying = Copying(days: map<Id, Id>, items: map<Id, Id>, legs: nat -> Id, parts: (nat, nat) -> Id,
                             tickets: (nat, nat) -> Id)

  // ------------------------------------------------------------- the copied legs

  function TicketAt(tickets: seq<Ticket>, id: Id): Option<nat> {
    if tickets == [] then None
    else if tickets[|tickets| - 1].id == id then Some(|tickets| - 1)
    else TicketAt(tickets[..|tickets| - 1], id)
  }

  /** The n-th leg's tickets: what they cost in the end is the report's. */
  function CopiedTickets(tickets: seq<Ticket>, copying: Copying, n: nat): (r: seq<Ticket>)
    ensures |r| == |tickets|
    ensures forall k :: 0 <= k < |r| ==> r[k] == tickets[k].(id := copying.tickets(n, k), actualCost := None)
  {
    seq(|tickets|, k requires 0 <= k < |tickets| => tickets[k].(id := copying.tickets(n, k), actualCost := None))
  }

  function CopiedPart(part: Segment, tickets: seq<Ticket>, copying: Copying, n: nat, j: nat): Segment {
    var at := if part.ticketId.Some? then TicketAt(tickets, part.ticketId.value) else None;
    part.(id := copying.parts(n, j), ticketId := if at.Some? then Some(copying.tickets(n, at.value)) else None)
  }

  function CopiedParts(leg: Leg, copying: Copying, n: nat): (r: seq<Segment>)
    ensures |r| == |leg.segments|
    ensures forall j :: 0 <= j < |r| ==> r[j] == CopiedPart(leg.segments[j], leg.tickets, copying, n, j)
  {
    seq(|leg.segments|, j requires 0 <= j < |leg.segments| =>
      CopiedPart(leg.segments[j], leg.tickets, copying, n, j))
  }

  /** Whether a leg's day and both its ends were copied. */
  predicate Comes(copying: Copying, leg: Leg) {
    leg.dayId in copying.days && leg.fromItemId in copying.items && leg.toItemId in copying.items
  }

  function CopiedLeg(leg: Leg, copying: Copying, n: nat): Leg
    requires Comes(copying, leg)
  {
    leg.(id := copying.legs(n), dayId := copying.days[leg.dayId], fromItemId := copying.items[leg.fromItemId],
         toItemId := copying.items[leg.toItemId], preference := leg.Route().preference, actualCost := None,
         segments := if leg.Composite() then CopiedParts(leg, copying, n) else [],
         tickets := if leg.Composite() then CopiedTickets(leg.tickets, copying, n) else [])
  }

  /** The rows of the copied legs. */
  function Copies(legs: seq<Leg>, copying: Copying): seq<Leg> {
    if legs == [] then []
    else
      var before, last := Copies(legs[..|legs| - 1], copying), legs[|legs| - 1];
      if Comes(copying, last) then before + [CopiedLeg(last, copying, |before|)] else before
  }

  method InsertLegParts(leg: Leg, copying: Copying, n: nat) returns (parts: seq<Segment>, tickets: seq<Ticket>)
    ensures parts == CopiedParts(leg, copying, n) && tickets == CopiedTickets(leg.tickets, copying, n)
  {
    var ticketIds: map<Id, Id> := map[];
    tickets := [];
    for k := 0 to |leg.tickets|
      invariant tickets == CopiedTickets(leg.tickets, copying, n)[..k]
      invariant forall id ::
                  if id in ticketIds then TicketAt(leg.tickets[..k], id).Some?
                                          && ticketIds[id] == copying.tickets(n, TicketAt(leg.tickets[..k], id).value)
                  else TicketAt(leg.tickets[..k], id) == None
    {
      assert leg.tickets[..k + 1][..k] == leg.tickets[..k];
      var id := copying.tickets(n, k);
      ticketIds := ticketIds[leg.tickets[k].id := id];
      tickets := tickets + [leg.tickets[k].(id := id, actualCost := None)];
    }
    assert leg.tickets[..|leg.tickets|] == leg.tickets;
    parts := [];
    for j := 0 to |leg.segments|
      invariant parts == CopiedParts(leg, copying, n)[..j]
    {
      var part := leg.segments[j];
      var ticketId: Option<Id> := None;
      if part.ticketId.Some? {
        if part.ticketId.value in ticketIds {
          ticketId := Some(ticketIds[part.ticketId.value]);
        }
      }
      parts := parts + [part.(id := copying.parts(n, j), ticketId := ticketId)];
    }
  }

  method CopyLegs(legs: seq<Leg>, copying: Copying) returns (rows: seq<Leg>)
    ensures rows == Copies(legs, copying)
  {
    hide CopiedParts;
    hide CopiedTickets;
    rows := [];
    for k := 0 to |legs|
      invariant rows == Copies(legs[..k], copying)
    {
      assert legs[..k + 1][..k] == legs[..k];
      var leg := legs[k];
      if leg.dayId !in copying.days || leg.fromItemId !in copying.items || leg.toItemId !in copying.items {
        continue;
      }
      var row := leg.(id := copying.legs(|rows|), dayId := copying.days[leg.dayId],
                      fromItemId := copying.items[leg.fromItemId], toItemId := copying.items[leg.toItemId],
                      preference := leg.Route().preference, actualCost := None, segments := [], tickets := []);
      if leg.Composite() {
        var parts, tickets := InsertLegParts(leg, copying, |rows|);
        row := row.(segments := parts, tickets := tickets);
      }
      rows := rows + [row];
    }
    assert legs[..|legs|] == legs;
  }

  /** The leg a row was copied from. */
  lemma {:induction false} CopyFrom(legs: seq<Leg>, copying: Copying, a: nat) returns (r: nat)
    requires a < |Copies(legs, copying)|
    ensures r < |legs| && Comes(copying, legs[r]) && Copies(legs, copying)[a] == CopiedLeg(legs[r], copying, a)
  {
    hide CopiedLeg;
    var front := legs[..|legs| - 1];
    if a < |Copies(front, copying)| {
      r := CopyFrom(front, copying, a);
    } else {
      r := |legs| - 1;
    }
  }

  /** The row a leg was copied to. */
  lemma {:induction false} CopyFor(legs: seq<Leg>, copying: Copying, r: nat) returns (a: nat)
    requires r < |legs| && Comes(copying, legs[r])
    ensures a < |Copies(legs, copying)| && Copies(legs, copying)[a] == CopiedLeg(legs[r], copying, a)
  {
    hide CopiedLeg;
    var front := legs[..|legs| - 1];
    if r < |legs| - 1 {
      a := CopyFor(front, copying, r);
    } else {
      a := |Copies(front, copying)|;
    }
  }

  /** The k-th ticket is the one an identifier stands for: the last of it. */
  predicate TicketLast(tickets: seq<Ticket>, id: Id, k: int) {
    0 <= k < |tickets| && tickets[k].id == id && forall m :: k < m < |tickets| ==> tickets[m].id != id
  }

  lemma {:induction false} TicketIs(tickets: seq<Ticket>, id: Id)
    ensures forall k :: TicketLast(tickets, id, k) ==> TicketAt(tickets, id) == Some(k)
    ensures (forall k :: 0 <= k < |tickets| ==> tickets[k].id != id) ==> TicketAt(tickets, id) == None
  {
    if tickets != [] {
      var front := tickets[..|tickets| - 1];
      TicketIs(front, id);
      forall k | TicketLast(tickets, id, k) ensures TicketAt(tickets, id) == Some(k) {
        assert k < |front| ==> TicketLast(front, id, k);
      }
    }
  }

  /** A copied part is the part under a new identifier, with the copy of its ticket. */
  predicate PartCopied(part: Segment, copy: Segment, tickets: seq<Ticket>, copying: Copying, n: nat, j: nat) {
    && copy.(id := part.id, ticketId := part.ticketId) == part && copy.id == copying.parts(n, j)
    && (part.ticketId == None ==> copy.ticketId == None)
    && (part.ticketId.Some? ==>
          && (forall k :: 0 <= k < |tickets| && TicketLast(tickets, part.ticketId.value, k) ==>
                copy.ticketId == Some(copying.tickets(n, k)))
          && ((forall k :: 0 <= k < |tickets| ==> tickets[k].id != part.ticketId.value) ==> copy.ticketId == None))
  }

  /** A copied leg joins the copies of its ends on the copy of its day and shows what the leg shows,
      but has cost nothing yet; parts and tickets come along for a leg with changes only. */
  predicate LegCopied(leg: Leg, copy: Leg, copying: Copying, n: nat)
    requires Comes(copying, leg)
  {
    && copy.id == copying.legs(n) && copy.dayId == copying.days[leg.dayId] && copy.actualCost == None
    && copy.fromItemId == copying.items[leg.fromItemId] && copy.toItemId == copying.items[leg.toItemId]
    && copy.preference == (if leg.preference == Unset then Fastest else leg.preference)
    && copy.(id := leg.id, dayId := leg.dayId, fromItemId := leg.fromItemId, toItemId := leg.toItemId,
             preference := leg.preference, actualCost := leg.actualCost, segments := leg.segments,
             tickets := leg.tickets) == leg
    && if |leg.segments| <= 1 then copy.segments == [] && copy.tickets == []
       else
         && |copy.segments| == |leg.segments| && |copy.tickets| == |leg.tickets|
         && (forall j :: 0 <= j < |leg.segments| ==>
               PartCopied(leg.segments[j], copy.segments[j], leg.tickets, copying, n, j))
         && forall k :: 0 <= k < |leg.tickets| ==>
              copy.tickets[k] == leg.tickets[k].(id := copying.tickets(n, k), actualCost := None)
  }

  lemma CopyTells(leg: Leg, copying: Copying, n: nat)
    requires Comes(copying, leg)
    ensures LegCopied(leg, CopiedLeg(leg, copying, n), copying, n)
  {
    hide TicketAt;
    hide TicketLast;
    var copy := CopiedLeg(leg, copying, n);
    if leg.Composite() {
      forall j | 0 <= j < |leg.segments|
        ensures PartCopied(leg.segments[j], copy.segments[j], leg.tickets, copying, n, j)
      {
        if leg.segments[j].ticketId.Some? {
          TicketIs(leg.tickets, leg.segments[j].ticketId.value);
        }
      }
    }
  }

  function Coming(copying: Copying): Leg -> bool {
    (leg: Leg) => Comes(copying, leg)
  }

  lemma {:induction false} FilterMore<T(!new)>(s: seq<T>, last: T, keep: T -> bool)
    ensures Filter(s + [last], keep) == Filter(s, keep) + if keep(last) then [last] else []
  {
    if s == [] {
      assert [last][1..] == [] && [] + [last] == [last];
    } else {
      assert (s + [last])[1..] == s[1..] + [last];
      FilterMore(s[1..], last, keep);
    }
  }

  /** Every leg whose day and ends came is copied once, in the order of the plan, and no other. */
  lemma {:induction false} CopiesTell(legs: seq<Leg>, copying: Copying)
    ensures var coming, copies := Filter(legs, Coming(copying)), Copies(legs, copying);
            && |copies| == |coming|
            && forall n :: 0 <= n < |copies| ==>
                 Comes(copying, coming[n]) && LegCopied(coming[n], copies[n], copying, n)
  {
    hide CopiedLeg;
    hide LegCopied;
    hide Comes;
    if legs != [] {
      var front, last := legs[..|legs| - 1], legs[|legs| - 1];
      CopiesTell(front, copying);
      assert legs == front + [last];
      FilterMore(front, last, Coming(copying));
      if Comes(copying, last) {
        CopyTells(last, copying, |Copies(front, copying)|);
      }
    }
  }

  /** Copies have identifiers of their own. */
  ghost predicate Apart(copying: Copying) {
    && (forall x, y :: x in copying.items && y in copying.items && copying.items[x] == copying.items[y] ==> x == y)
    && (forall m: nat, n: nat :: copying.legs(m) == copying.legs(n) ==> m == n)
  }

  lemma {:induction false} CopiesPairs(legs: seq<Leg>, copying: Copying)
    requires DistinctPairs(legs) && Apart(copying)
    ensures DistinctPairs(Copies(legs, copying))
  {
    hide CopiedLeg;
    if legs != [] {
      var front, last := legs[..|legs| - 1], legs[|legs| - 1];
      var before := Copies(front, copying);
      CopiesPairs(front, copying);
      if Comes(copying, last) {
        CopyEnds(last, copying, |before|);
        forall a | 0 <= a < |before|
          ensures before[a].fromItemId != copying.items[last.fromItemId]
               || before[a].toItemId != copying.items[last.toItemId]
        {
          var r := CopyFrom(front, copying, a);
          CopyEnds(front[r], copying, a);
          assert front[r] == legs[r];
        }
      }
    }
  }

  lemma CopyEnds(leg: Leg, copying: Copying, n: nat)
    requires Comes(copying, leg)
    ensures var copy := CopiedLeg(leg, copying, n);
            && copy.id == copying.legs(n) && copy.dayId == copying.days[leg.dayId]
            && copy.fromItemId == copying.items[leg.fromItemId] && copy.toItemId == copying.items[leg.toItemId]
            && copy.input == leg.input && copy.Composite() == leg.Composite()
            && CalculationOf(copy) == CalculationOf(leg) && copy.pinned == leg.pinned
  {
  }

  lemma {:induction false} CopiesDistinct(legs: seq<Leg>, copying: Copying)
    requires Apart(copying)
    ensures DistinctLegs(Copies(legs, copying))
  {
    hide Copies;
    var rows := Copies(legs, copying);
    forall a | 0 <= a < |rows| ensures rows[a].id == copying.legs(a) {
      var r := CopyFrom(legs, copying, a);
    }
  }

  // ------------------------------------------------------------- the report

  /** The report before its legs are brought in line: it shares the answers with the plan,
      and nothing else. */
  function Copied(s: State, d: Content, copying: Copying): State {
    var rows := Copies(Read(s.rows), copying);
    State(d, rows, [], [], [], s.answers, s.mismatched, IdsOf(rows), s.near)
  }

  function Report(s: State, d: Content, copying: Copying, ids: nat -> Id): State {
    Resynced(Copied(s, d, copying), d, Copies(Read(s.rows), copying), ids)
  }

  ghost predicate MayCopy(s: State, d: Content, copying: Copying, ids: nat -> Id) {
    && DistinctItems(d.items) && DistinctDays(d.days) && Apart(copying)
    && DistinctParts(Copies(Read(s.rows), copying)) && Fresh(ids, Copies(Read(s.rows), copying))
  }

  /** A leg with changes whose totals are no answer to the input it is still stored under, one
      of a leg routed the default way. */
  predicate Misfiled(s: State, row: Leg) {
    && row.Composite() && Folded(row).source != Pending && DefaultRouted(row.input)
    && Answer(row.input, CalculationOf(Folded(row))) !in s.answers
  }

  /** The report needs the copy of a leg. */
  predicate Joins(copying: Copying, leg: Leg, need: Need)
    requires Comes(copying, leg)
  {
    && need.day.id == copying.days[leg.dayId] && need.from.id == copying.items[leg.fromItemId]
    && need.to.id == copying.items[leg.toItemId]
  }

  ghost predicate Kept(d: Content, copying: Copying, leg: Leg) {
    Comes(copying, leg) && exists k :: 0 <= k < |Needs(d)| && Joins(copying, leg, Needs(d)[k])
  }

  lemma ReadAs(row: Leg, copying: Copying)
    ensures Folded(row).input == row.input && Folded(row).Composite() == row.Composite()
    ensures Comes(copying, Folded(row)) == Comes(copying, row)
    ensures Folded(row).segments == row.segments && (!row.Composite() ==> Folded(row) == row)
    ensures forall need :: Comes(copying, row) ==> Joins(copying, Folded(row), need) == Joins(copying, row, need)
    ensures row.Composite() ==> Folded(row).preference == Fastest && Folded(row).via == [] && !Folded(row).pinned
  {
    hide LineOf;
    hide Encoded;
    hide SourceOf;
    hide ReasonOf;
    hide DistanceOf;
    hide DurationOf;
  }

  lemma CopyParts(s: State, leg: Leg, copying: Copying, n: nat)
    requires Comes(copying, leg) && PartsBacked(s, leg.segments)
    ensures PartsBacked(s, CopiedLeg(leg, copying, n).segments)
  {
    var copy := CopiedLeg(leg, copying, n);
    forall j | 0 <= j < |copy.segments| ensures Backed(s, copy.segments[j].input, PartCalculation(copy.segments[j])) {
      assert Backed(s, leg.segments[j].input, PartCalculation(leg.segments[j]));
    }
  }

  /** A copied leg is ready unless it is misfiled. */
  lemma CopyReady(s: State, t: State, row: Leg, copying: Copying, n: nat)
    requires RowBacked(s, row) && Comes(copying, Folded(row)) && !Misfiled(s, row)
    requires t.answers == s.answers && t.mismatched == s.mismatched
    ensures Ready(t, CopiedLeg(Folded(row), copying, n))
  {
    hide Folded;
    hide DefaultRouted;
    hide PartsBacked;
    ReadAs(row, copying);
    CopyEnds(Folded(row), copying, n);
    CopyParts(s, Folded(row), copying, n);
    SameParts(s, t, CopiedLeg(Folded(row), copying, n).segments);
    hide CopiedLeg;
  }

  lemma SameParts(s: State, t: State, parts: seq<Segment>)
    requires t.answers == s.answers && t.mismatched == s.mismatched
    ensures PartsBacked(s, parts) == PartsBacked(t, parts)
  {
  }

  /** The report needs a copy exactly when it keeps it. */
  lemma CopyServes(row: Leg, copying: Copying, n: nat, d: Content)
    requires Comes(copying, Folded(row))
    ensures Needed(CopiedLeg(Folded(row), copying, n), Needs(d)) <==> Kept(d, copying, row)
  {
    hide Needs;
    hide Folded;
    ReadAs(row, copying);
    CopyEnds(Folded(row), copying, n);
    hide CopiedLeg;
    forall k | 0 <= k < |Needs(d)|
      ensures Serves(CopiedLeg(Folded(row), copying, n), Needs(d)[k]) <==> Joins(copying, row, Needs(d)[k])
    {
    }
  }

  /** A report to which no misfiled leg comes is a state like any other. */
  lemma ReportKeeps(s: State, d: Content, copying: Copying, ids: nat -> Id)
    requires Inv(s) && MayCopy(s, d, copying, ids)
    requires forall i :: 0 <= i < |s.rows| && Misfiled(s, s.rows[i]) ==> !Kept(d, copying, s.rows[i])
    ensures Inv(Report(s, d, copying, ids))
  {
    hide Folded;
    hide Misfiled;
    hide CopiedLeg;
    hide Copies;
    hide RowBacked;
    hide Ready;
    hide Keyed;
    hide LegRuns.InLine;
    hide Needs;
    var base, rows := Copied(s, d, copying), Copies(Read(s.rows), copying);
    CopiesDistinct(Read(s.rows), copying);
    forall a | 0 <= a < |rows| ensures Keyed(rows[a]) && (Ready(base, rows[a]) || !Needed(rows[a], Needs(d))) {
      var r := CopyFrom(Read(s.rows), copying, a);
      ReadAs(s.rows[r], copying);
      CopyEnds(Read(s.rows)[r], copying, a);
      SameInputKeyed(s.rows[r], rows[a]);
      if Misfiled(s, s.rows[r]) {
        CopyServes(s.rows[r], copying, a, d);
      } else {
        assert RowBacked(s, s.rows[r]);
        CopyReady(s, base, s.rows[r], copying, a);
      }
    }
    assert Unused(base, ids) by {
      GoneIs(base);
      forall k: nat ensures ids(k) !in base.ids {
        assert Gone(base, ids(k));
      }
    }
    ResyncKeeps(base, d, rows, ids);
  }

  // ------------------------------------------------------------- one part again

  function PartIds(rows: seq<Leg>): set<Id> {
    set i, j | 0 <= i < |rows| && 0 <= j < |rows[i].segments| :: rows[i].segments[j].id
  }

  function PlainPart(id: Id, mode: TravelMode): Segment {
    Segment(id, mode, None, None, [], Pending, "", "", None, None, None, "", None, None, 0)
  }

  lemma NewPart(rows: seq<Leg>, mode: TravelMode) returns (part: Segment)
    ensures part.mode == mode && NewParts([part], rows)
  {
    var n := Above(PartIds(rows));
    part := PlainPart(n, mode);
    forall r, j | 0 <= r < |rows| && 0 <= j < |rows[r].segments| ensures rows[r].segments[j].id < n {
      assert rows[r].segments[j].id in PartIds(rows);
    }
  }

  /** The ends of a leg with changes are put where the input it is still stored under has them,
      and it is made one part that is travelled as that input says: now it holds the totals of
      its parts as the answer to that input. */
  lemma OnePartAgain(s: State, i: nat, mode: TravelMode, from: Option<Point>, to: Option<Point>)
    returns (events: seq<Event>)
    requires Lined(s) && i < |s.rows| && s.rows[i].Composite() && s.rows[i].source != Pending
    requires s.rows[i].input == Input(mode, from, to, DEFAULT_ROUTE)
    requires Answer(s.rows[i].input, CalculationOf(s.rows[i])) !in s.answers
    ensures Run(s, events) && ChoicesInPlace(s, events) && !NothingStale(After(s, events))
    ensures Holding(After(s, events), s.rows[i], CalculationOf(s.rows[i]))
  {
    hide Lined;
    hide Allowed;
    hide Next;
    hide Holding;
    hide NothingStale;
    hide Run;
    hide After;
    hide ChoicesInPlace;
    hide Input;
    hide StartOf;
    hide EndOf;
    var e1, t1, j := MovedBack(s, i, s.rows[i], from, to);
    var t2, t3 := LegSeen(t1, j);
    var part := NewPart(t3.rows, mode);
    var e4, t4, r, k := MadePlain(t3, |t1.read|, [part]);
    OnePartRow(t3, r, j, |t1.read|, part, from, to);
    StaleRow(t4, k, s.rows[i]);
    NoSteps(t4);
    var steps := [e1, ReadRow(j), ReadParts(|t1.glimpsed|, t1.rows[j].tickets), e4];
    StepsThen([s, t1, t2, t3, t4], steps, []);
    events := steps + [];
  }

  lemma LegSeen(s: State, i: nat) returns (t: State, u: State)
    requires Lined(s) && i < |s.rows|
    ensures Allowed(s, ReadRow(i)) && Next(s, ReadRow(i)) == t
    ensures var e := ReadParts(|s.glimpsed|, s.rows[i].tickets); Allowed(t, e) && Next(t, e) == u
    ensures Lined(u) && u.rows == s.rows && u.content == s.content && u.answers == s.answers
    ensures |u.read| == |s.read| + 1 && u.read[|s.read|].id == s.rows[i].id && !Gone(u, s.rows[i].id)
  {
    hide LegRuns.InLine;
    hide RowsKeyed;
    hide Folded;
    t := Next(s, ReadRow(i));
    u := Next(t, ReadParts(|s.glimpsed|, s.rows[i].tickets));
    var row := t.glimpsed[|s.glimpsed|];
    FoldKeepsIdentity(row.(segments := PartsNow(t.rows, row.id), tickets := s.rows[i].tickets));
  }

  lemma OnePartRow(s: State, r: nat, i: nat, leg: nat, part: Segment, from: Option<Point>, to: Option<Point>)
    requires Lined(s) && r < |s.rows| && i < |s.rows| && s.rows[r].id == s.rows[i].id && leg < |s.read|
    requires s.rows[i].input == Input(part.mode, from, to, DEFAULT_ROUTE)
    requires StartOf(s.content, s.rows[i]) == from && EndOf(s.content, s.rows[i]) == to
    ensures var row := WithParts(s.rows[r], s.read[leg], [part], [], None, None);
            && row.input == Input(row.mode, StartOf(s.content, row), EndOf(s.content, row), row.Route())
            && row.input == s.rows[i].input && CalculationOf(row) == CalculationOf(s.rows[i])
  {
    hide Input;
    hide StartOf;
    hide EndOf;
    assert r == i;
    var row := WithParts(s.rows[r], s.read[leg], [part], [], None, None);
    SameEnds(s.content, s.rows[i], row);
    DefaultRoutedIs(part.mode, from, to, LegRoute(Fastest, []));
    NoTail(part.mode);
  }

  lemma StaleRow(s: State, i: nat, seen: Leg)
    requires Lined(s) && i < |s.rows| && s.rows[i].segments == [] && s.rows[i].source != Pending
    requires s.rows[i].id == seen.id && s.rows[i].input == seen.input && CalculationOf(s.rows[i]) == CalculationOf(seen)
    requires Answer(seen.input, CalculationOf(seen)) !in s.answers
    ensures !NothingStale(s) && Holding(s, seen, CalculationOf(seen))
  {
    hide Lined;
    hide InputNow;
    PlainInput(s, i);
  }

  // ------------------------------------------------------------- when a report goes stale

  /** The row a misfiled leg has in the report. */
  lemma MisfiledCopy(s: State, d: Content, copying: Copying, ids: nat -> Id, r: nat) returns (i: nat)
    requires Inv(s) && MayCopy(s, d, copying, ids)
    requires r < |s.rows| && Misfiled(s, s.rows[r]) && Kept(d, copying, s.rows[r])
    ensures Lined(Report(s, d, copying, ids)) && i < |Report(s, d, copying, ids).rows|
    ensures var row := Report(s, d, copying, ids).rows[i];
            && row.Composite() && row.input == s.rows[r].input && CalculationOf(row) == CalculationOf(Folded(s.rows[r]))
            && Keyed(row)
  {
    hide Folded;
    hide CopiedLeg;
    hide Copies;
    hide Keyed;
    hide LegRuns.InLine;
    hide Needs;
    hide Plan;
    hide SyncRow;
    hide Ready;
    hide RowBacked;
    var legs, rows := Read(s.rows), Copies(Read(s.rows), copying);
    CopiesDistinct(legs, copying);
    forall a | 0 <= a < |rows| ensures Keyed(rows[a]) {
      var from := CopyFrom(legs, copying, a);
      ReadAs(s.rows[from], copying);
      CopyEnds(legs[from], copying, a);
      SameInputKeyed(s.rows[from], rows[a]);
    }
    ResyncLines(Copied(s, d, copying), d, rows, ids);
    ReadAs(s.rows[r], copying);
    var a := CopyFor(legs, copying, r);
    CopyServes(s.rows[r], copying, a, d);
    CopyEnds(legs[r], copying, a);
    var k :| 0 <= k < |Needs(d)| && Serves(rows[a], Needs(d)[k]);
    PairsOf(s);
    CopiesPairs(legs, copying);
    i := Survives(d, rows, ids, a, Needs(d)[k]);
    CompositeKept(d, rows, ids, a);
    assert Keyed(Report(s, d, copying, ids).rows[i]);
  }

  lemma PairsOf(s: State)
    requires Lined(s)
    ensures DistinctPairs(Read(s.rows))
  {
  }

  /** A report comes to hold a stale calculation, in some run in which every chosen route is in
      place, exactly when a misfiled leg of the plan is kept in it. */
  lemma ReportGoesStale(s: State, d: Content, copying: Copying, ids: nat -> Id)
    requires Inv(s) && s.mismatched == {} && MayCopy(s, d, copying, ids)
    ensures var t := Report(s, d, copying, ids);
            (exists events :: Run(t, events) && ChoicesInPlace(t, events) && !NothingStale(After(t, events)))
            <==> exists r :: 0 <= r < |s.rows| && Misfiled(s, s.rows[r]) && Kept(d, copying, s.rows[r])
  {
    hide Inv;
    hide MayCopy;
    hide Misfiled;
    hide Kept;
    hide Run;
    hide After;
    hide ChoicesInPlace;
    hide NothingStale;
    hide Resynced;
    var t := Report(s, d, copying, ids);
    SameStart(s, d, copying, ids);
    if r :| 0 <= r < |s.rows| && Misfiled(s, s.rows[r]) && Kept(d, copying, s.rows[r]) {
      var events := ReportRun(s, d, copying, ids, r);
    } else {
      ReportKeeps(s, d, copying, ids);
      forall events | Run(t, events) && ChoicesInPlace(t, events) ensures NothingStale(After(t, events)) {
        NeverStale(t, events);
      }
    }
  }

  lemma SameStart(s: State, d: Content, copying: Copying, ids: nat -> Id)
    ensures var t := Report(s, d, copying, ids); t.mismatched == s.mismatched && t.answers == s.answers
  {
  }

  /** A run of the report in which a misfiled leg shows the totals of its parts as the answer to
      the input it has now. */
  lemma ReportRun(s: State, d: Content, copying: Copying, ids: nat -> Id, r: nat) returns (events: seq<Event>)
    requires Inv(s) && MayCopy(s, d, copying, ids)
    requires r < |s.rows| && Misfiled(s, s.rows[r]) && Kept(d, copying, s.rows[r])
    ensures var t := Report(s, d, copying, ids);
            && Run(t, events) && ChoicesInPlace(t, events) && !NothingStale(After(t, events))
            && exists leg: Leg :: leg.input == s.rows[r].input
                                  && Holding(After(t, events), leg, CalculationOf(Folded(s.rows[r])))
  {
    hide Inv;
    hide MayCopy;
    hide Kept;
    hide Folded;
    hide Run;
    hide After;
    hide ChoicesInPlace;
    hide NothingStale;
    hide Holding;
    hide Resynced;
    hide Report;
    hide DefaultRouted;
    hide Input;
    var t := Report(s, d, copying, ids);
    var i := MisfiledCopy(s, d, copying, ids, r);
    SameStart(s, d, copying, ids);
    var mode, from, to, route :| t.rows[i].input == Input(mode, from, to, route);
    DefaultRoutedIs(mode, from, to, route);
    events := OnePartAgain(t, i, mode, from, to);
    assert t.rows[i].input == s.rows[r].input;
  }

  // ------------------------------------------------------------- a copy of the whole plan

  function DayIds(c: Content): set<Id> {
    set k | 0 <= k < |c.days| :: c.days[k].id
  }

  /** The elements that are in a day; ideas without one stay behind. */
  function InDays(items: seq<Item>, days: set<Id>): seq<Item> {
    if items == [] then []
    else
      var last := items[|items| - 1];
      InDays(items[..|items| - 1], days) + if last.dayId.Some? && last.dayId.value in days then [last] else []
  }

  function Placed(c: Content): Content {
    c.(items := InDays(c.items, DayIds(c)))
  }

  function OnOneOf(days: set<Id>): Item -> bool {
    (item: Item) => item.dayId.Some? && item.dayId.value in days
  }

  lemma {:induction false} InDaysAre(items: seq<Item>, days: set<Id>)
    ensures InDays(items, days) == Filter(items, OnOneOf(days))
  {
    if items != [] {
      var front, last := items[..|items| - 1], items[|items| - 1];
      InDaysAre(front, days);
      assert items == front + [last];
      FilterMore(front, last, OnOneOf(days));
    }
  }

  lemma {:induction false} InDaysSame(items: seq<Item>, days: set<Id>, day: Id)
    requires day in days
    ensures Places(InDays(items, days), Some(day)) == Places(items, Some(day))
    ensures forall morning :: Mark(InDays(items, days), Some(day), morning) == Mark(items, Some(day), morning)
  {
    if items != [] {
      var front, last := items[..|items| - 1], items[|items| - 1];
      InDaysSame(front, days, day);
      var kept := InDays(front, days);
      assert items == front + [last] && [last][1..] == [];
      PlacesAppend(front, [last], Some(day));
      PlacesAppend(kept, [last], Some(day));
      if last.dayId.Some? && last.dayId.value in days {
        assert (kept + [last])[..|kept + [last]| - 1] == kept && (kept + [last])[|kept|] == last;
      } else {
        assert kept + [] == kept && Places([last], Some(day)) == [];
      }
    }
  }

  lemma {:induction false} InDaysDistinct(items: seq<Item>, days: set<Id>)
    requires DistinctItems(items)
    ensures DistinctItems(InDays(items, days)) && forall item :: item in InDays(items, days) ==> item in items
  {
    if items != [] {
      var front := items[..|items| - 1];
      InDaysDistinct(front, days);
      forall item | item in InDays(front, days) ensures item.id != items[|items| - 1].id {
        assert item in front;
      }
    }
  }

  lemma {:induction false} PlacedNeedsFrom(c: Content, k: nat, previous: Option<Item>)
    requires k <= |c.days|
    ensures NeedsFrom(Placed(c), k, previous) == NeedsFrom(c, k, previous)
    decreases |c.days| - k
  {
    hide InDays;
    hide Places;
    hide Mark;
    hide DayNeeds;
    hide StableSort;
    if k < |c.days| {
      var day := c.days[k].id;
      InDaysSame(c.items, DayIds(c), day);
      assert DayItems(Placed(c).items, Some(day)) == DayItems(c.items, Some(day));
      var items := DayItems(c.items, Some(day));
      PlacedNeedsFrom(c, k + 1, if items == [] then previous else Some(items[|items| - 1]));
    }
  }

  lemma PlacedNeeds(c: Content)
    ensures Needs(Placed(c)) == Needs(c)
  {
    PlacedNeedsFrom(c, 0, None);
  }

  function DayName(copying: Copying): Id -> Id {
    (id: Id) => if id in copying.days then copying.days[id] else id
  }

  function ItemName(copying: Copying): Id -> Id {
    (id: Id) => if id in copying.items then copying.items[id] else id
  }

  /** A report with a copy of every day and of every element in a day, in the same order. The
      stay marks are placed afresh, one for each mark of the plan where those are in line. */
  ghost predicate CopyOf(c: Content, d: Content, copying: Copying) {
    && DayIds(c) <= copying.days.Keys
    && (forall item :: item in Placed(c).items ==> item.id in copying.items)
    && SameOrder(DayName(copying), ItemName(copying), Placed(c), d)
  }

  /** Every leg of a plan is kept in such a report. */
  lemma AllComeAlong(s: State, d: Content, copying: Copying, r: nat)
    requires Lined(s) && CopyOf(s.content, d, copying) && r < |s.rows|
    ensures Kept(d, copying, s.rows[r])
  {
    hide Needs;
    hide InDays;
    hide Lined;
    var c, row := s.content, s.rows[r];
    var need := NeedServed(s, r);
    RowIds(s);
    PlacedNeeds(c);
    InDaysDistinct(c.items, DayIds(c));
    NeedItems(Placed(c), need);
    NeedsAre(c);
    NeedsSame(DayName(copying), ItemName(copying), Placed(c), d);
    var k :| 0 <= k < |Needs(c)| && Needs(c)[k] == need;
    assert SameNeed(DayName(copying), ItemName(copying), Needs(c)[k], Needs(d)[k]);
    assert need.day.id in DayIds(c) by {
      var x :| 0 <= x < |c.days| && c.days[x] == need.day;
    }
    assert Joins(copying, row, Needs(d)[k]);
  }

  /** So a report of a whole plan comes to hold a stale calculation exactly when the plan has
      a misfiled leg. */
  lemma PlanGoesStale(s: State, d: Content, copying: Copying, ids: nat -> Id)
    requires Inv(s) && s.mismatched == {} && MayCopy(s, d, copying, ids) && CopyOf(s.content, d, copying)
    ensures var t := Report(s, d, copying, ids);
            (exists events :: Run(t, events) && ChoicesInPlace(t, events) && !NothingStale(After(t, events)))
            <==> exists r :: 0 <= r < |s.rows| && Misfiled(s, s.rows[r])
  {
    hide Inv;
    hide MayCopy;
    hide CopyOf;
    hide Misfiled;
    hide Kept;
    hide Run;
    hide After;
    hide ChoicesInPlace;
    hide NothingStale;
    hide Report;
    InvLined(s);
    forall r | 0 <= r < |s.rows| ensures Kept(d, copying, s.rows[r]) {
      AllComeAlong(s, d, copying, r);
    }
    ReportGoesStale(s, d, copying, ids);
  }
}
