/**
 Calculations that run beside edits (backend/internal/httpapi/legs.go and
 legsegments.go over the repository in backend/internal/storage/postgres/documents.go
 and legsegments.go).

 A calculation reads the document once, asks the provider outside any transaction and
 stores the answer only while the leg still has the input it was read with. Any number
 of them run beside edits, each of which brings the legs back in line before it
 commits. A run is any sequence of such steps; an answer may be delivered late, twice
 or never.
 */
module LegRuns {
  import opened Common
  import opened Polyline
  import opened Document
  import opened LegInput
  import opened LegFold
  import opened Reconcile
  import opened LegSync
  import opened LegFixpoint
  import opened LegJobs

  /** A conditional store of an answer: the leg or part, the input it was read with,
      and for a leg whether somebody chose the route. */
  datatype Save = Save(part: bool, id: Id, input: string, calculation: Calculation, pinned: bool)

  /** A question and the answer it got. */
  datatype Answer = Answer(asked: string, calculation: Calculation)

  datatype State = State(
    content: Content,
    rows: seq<Leg>,
    /** The rows of legs that requests have read, their parts not yet. */
    glimpsed: seq<Leg>,
    /** The legs requests have read so far. */
    read: seq<Leg>,
    /** The stores sent so far. */
    saves: seq<Save>,
    /** Everything the provider answered, and every chosen route under the ends it was checked against. */
    answers: set<Answer>,
    /** Chosen routes sent for a leg under another input than they were checked against. */
    mismatched: set<Answer>,
    /** Every identifier a leg ever had. */
    ids: set<Id>,
    /** Whether a line that begins or ends at the first point runs from or to the second. */
    near: (Point, Point) -> bool)

  datatype Event =
    /** Any edit of the document or of a leg's own fields, committed with the legs brought in line. */
    | Edit(content: Content, edited: seq<Leg>, ids: nat -> Id)
    /** A leg's parts are replaced; the leg was read earlier, its ends at some other moment. */
    | SetParts(leg: nat, parts: seq<Segment>, tickets: seq<Ticket>, start: Option<Point>, end: Option<Point>,
               ids: nat -> Id)
    /** A request reads the row of a leg. */
    | ReadRow(row: nat)
    /** Some other moment it reads the leg's parts, and the tickets, which no calculation depends on. */
    | ReadParts(glimpse: nat, tickets: seq<Ticket>)
    /** A calculation reads the document and the provider answers for one leg. */
    | CalculateLeg(row: nat, calculation: Calculation)
    /** The same for one part of a leg. */
    | CalculatePart(row: nat, index: nat, calculation: Calculation)
    /** A chosen route is checked against the present ends of a leg that was read earlier. */
    | CheckChoice(leg: nat, calculation: Calculation)
    /** A store reaches the database. */
    | Deliver(save: nat)

  // ------------------------------------------------------------- steps

  /** Typed fields, mode and routing may differ; identity, calculation and parts may not. */
  predicate Edits(row: Leg, edited: Leg) {
    && edited.id == row.id && edited.dayId == row.dayId && edited.fromItemId == row.fromItemId
    && edited.toItemId == row.toItemId && edited.input == row.input
    && CalculationOf(edited) == CalculationOf(row) && edited.pinned == row.pinned
    && edited.segments == row.segments
  }

  /** The edited rows are rows of the document, some of them gone with their elements. */
  ghost predicate EditOf(rows: seq<Leg>, edited: seq<Leg>) {
    && DistinctLegs(edited)
    && forall i :: 0 <= i < |edited| ==> exists r :: 0 <= r < |rows| && Edits(rows[r], edited[i])
  }

  function Resynced(s: State, content: Content, rows: seq<Leg>, ids: nat -> Id): State {
    var rows' := Synced(rows, Plan(content, Read(rows), ids));
    s.(content := content, rows := rows', ids := s.ids + IdsOf(rows'))
  }

  function IdsOf(rows: seq<Leg>): set<Id> {
    set i | 0 <= i < |rows| :: rows[i].id
  }

  /** The row of a leg whose parts were replaced. */
  function WithParts(row: Leg, seen: Leg, parts: seq<Segment>, tickets: seq<Ticket>, start: Option<Point>,
                     end: Option<Point>): Leg
  {
    if |parts| < 2 then
      var plain := Collapsed(seen, parts, tickets);
      row.(mode := plain.mode, manualDistanceM := plain.manualDistanceM, manualDurationS := plain.manualDurationS,
           plannedCost := plain.plannedCost, actualCost := plain.actualCost, preference := Fastest, via := [],
           segments := [], tickets := [])
    else
      row.(mode := parts[0].mode, segments := AllCarried(parts, seen.segments, start, end), tickets := tickets)
  }

  /** The rows after the parts of one leg were replaced, not yet brought in line. */
  function Replaced(rows: seq<Leg>, seen: Leg, parts: seq<Segment>, tickets: seq<Ticket>, start: Option<Point>,
                    end: Option<Point>): (r: seq<Leg>)
    ensures |r| == |rows|
    ensures forall i :: 0 <= i < |rows| ==>
              r[i] == if rows[i].id == seen.id then WithParts(rows[i], seen, parts, tickets, start, end) else rows[i]
  {
    seq(|rows|, i requires 0 <= i < |rows| =>
      if rows[i].id == seen.id then WithParts(rows[i], seen, parts, tickets, start, end) else rows[i])
  }

  /** The parts are new ones. */
  ghost predicate NewParts(parts: seq<Segment>, rows: seq<Leg>) {
    && (forall i, j :: 0 <= i < j < |parts| ==> parts[i].id != parts[j].id)
    && (forall i, r, j :: 0 <= i < |parts| && 0 <= r < |rows| && 0 <= j < |rows[r].segments| ==>
          parts[i].id != rows[r].segments[j].id)
  }

  function StoredPart(part: Segment, save: Save): Segment {
    if part.id == save.id && part.input == save.input then
      part.(distanceM := save.calculation.distanceM, durationS := save.calculation.durationS,
            geometry := save.calculation.geometry, source := save.calculation.source, error := save.calculation.error)
    else part
  }

  function StoredParts(parts: seq<Segment>, save: Save): (r: seq<Segment>)
    ensures |r| == |parts|
    ensures forall i :: 0 <= i < |parts| ==> r[i] == StoredPart(parts[i], save)
  {
    seq(|parts|, i requires 0 <= i < |parts| => StoredPart(parts[i], save))
  }

  /** The conditional store: the answer is kept only while the input is still the one
      it was calculated for. */
  function Stored(row: Leg, save: Save): Leg {
    if save.part then row.(segments := StoredParts(row.segments, save))
    else if row.id == save.id && row.input == save.input then
      row.(distanceM := save.calculation.distanceM, durationS := save.calculation.durationS,
           geometry := save.calculation.geometry, source := save.calculation.source,
           error := save.calculation.error, pinned := save.pinned)
    else row
  }

  function StoredRows(rows: seq<Leg>, save: Save): (r: seq<Leg>)
    ensures |r| == |rows|
    ensures forall i :: 0 <= i < |rows| ==> r[i] == Stored(rows[i], save)
  {
    seq(|rows|, i requires 0 <= i < |rows| => Stored(rows[i], save))
  }

  /** The input a leg that was read earlier would have if it were read now. */
  function InputNow(c: Content, leg: Leg): string {
    Input(leg.mode, StartOf(c, leg), EndOf(c, leg), leg.Route())
  }

  /** The parts a leg has, none when it is gone. */
  function PartsNow(rows: seq<Leg>, id: Id): seq<Segment> {
    if rows == [] then []
    else if rows[|rows| - 1].id == id then rows[|rows| - 1].segments
    else PartsNow(rows[..|rows| - 1], id)
  }

  function Asking(s: State, job: Job, calculation: Calculation): State {
    s.(saves := s.saves + [Save(job.part, job.id, job.input, calculation, false)],
       answers := s.answers + {Answer(Asked(job), calculation)})
  }

  const MAX_DISTANCE: int := 50_000_000

  const MAX_DURATION: int := 7 * 24 * 3600

  const MAX_GEOMETRY: int := 0x10_0000

  /** A route somebody may have chosen: a line of at least two points between the ends, of a
      plausible length and time. */
  predicate Choosable(near: (Point, Point) -> bool, calculation: Calculation, from: Point, to: Point) {
    && calculation.distanceM.Some? && 0 <= calculation.distanceM.value <= MAX_DISTANCE
    && calculation.durationS.Some? && 0 <= calculation.durationS.value <= MAX_DURATION
    && calculation.source == Provider && calculation.error == ""
    && |calculation.geometry| <= MAX_GEOMETRY
    && var line := Decoded(calculation.geometry);
       |line| >= 2 && near(line[0], from) && near(line[|line| - 1], to)
  }

  /** A chosen route is taken for a leg that follows roads from end to end, between the ends
      as they are when it is checked. */
  predicate MayChoose(s: State, leg: Leg, calculation: Calculation) {
    && !leg.Composite() && leg.mode.Routed() && leg.via == []
    && StartOf(s.content, leg).Some? && EndOf(s.content, leg).Some?
    && Choosable(s.near, calculation, StartOf(s.content, leg).value, EndOf(s.content, leg).value)
  }

  predicate Gone(s: State, id: Id) {
    forall i :: 0 <= i < |s.rows| ==> s.rows[i].id != id
  }

  /** The leg still has the input it was read with, or is not there any more. */
  predicate InPlace(s: State, leg: Leg) {
    InputNow(s.content, leg) == leg.input || Gone(s, leg.id)
  }

  /** No leg ever had one of these identifiers. */
  ghost predicate Unused(s: State, ids: nat -> Id) {
    forall k: nat :: ids(k) !in s.ids
  }

  /** What the system allows a step to assume: unique identifiers, new ones never used
      before, and chosen routes that were checked. */
  ghost predicate Allowed(s: State, e: Event) {
    match e
    case Edit(content, edited, ids) =>
      DistinctItems(content.items) && DistinctDays(content.days) && EditOf(s.rows, edited) && Fresh(ids, edited)
      && Unused(s, ids)
    case SetParts(leg, parts, _, _, _, ids) =>
      leg < |s.read| && NewParts(parts, s.rows) && Fresh(ids, s.rows) && Unused(s, ids)
    case ReadRow(row) => row < |s.rows|
    case ReadParts(glimpse, _) => glimpse < |s.glimpsed|
    case CalculateLeg(row, _) => row < |s.rows| && !s.rows[row].Composite()
    case CalculatePart(row, index, _) => row < |s.rows| && s.rows[row].Composite() && index < |s.rows[row].segments|
    case CheckChoice(leg, calculation) => leg < |s.read| && MayChoose(s, s.read[leg], calculation)
    case Deliver(save) => save < |s.saves|
  }

  function Next(s: State, e: Event): State
    requires e.SetParts? || e.CheckChoice? ==> e.leg < |s.read|
    requires e.ReadParts? ==> e.glimpse < |s.glimpsed|
    requires e.ReadRow? || e.CalculateLeg? || e.CalculatePart? ==> e.row < |s.rows|
    requires e.CalculatePart? ==> e.index < |s.rows[e.row].segments|
    requires e.Deliver? ==> e.save < |s.saves|
  {
    match e
    case Edit(content, edited, ids) => Resynced(s, content, edited, ids)
    case SetParts(leg, parts, tickets, start, end, ids) =>
      var seen := s.read[leg];
      Resynced(s, s.content, Replaced(s.rows, seen, parts, tickets, start, end), ids)
    case ReadRow(row) => s.(glimpsed := s.glimpsed + [s.rows[row].(segments := [], tickets := [])])
    case ReadParts(glimpse, tickets) =>
      var leg := s.glimpsed[glimpse];
      s.(read := s.read + [Folded(leg.(segments := PartsNow(s.rows, leg.id), tickets := tickets))])
    case CalculateLeg(row, calculation) => Asking(s, LegJob(s.content, Folded(s.rows[row])), calculation)
    case CalculatePart(row, index, calculation) =>
      Asking(s, PartJob(s.content, Folded(s.rows[row]), index), calculation)
    case CheckChoice(leg, calculation) =>
      var seen := s.read[leg];
      var checked := InputNow(s.content, seen);
      s.(saves := s.saves + [Save(false, seen.id, seen.input, calculation, true)],
         answers := s.answers + {Answer(checked, calculation)},
         mismatched := s.mismatched + if InPlace(s, seen) then {} else {Answer(seen.input, calculation)})
    case Deliver(save) => s.(rows := StoredRows(s.rows, s.saves[save]))
  }

  // ------------------------------------------------------------- what every run keeps

  /** A stored calculation waits, or is an answer stored under its input. */
  predicate Backed(s: State, input: string, calculation: Calculation) {
    || calculation.source == Pending
    || Answer(input, calculation) in s.answers
    || Answer(input, calculation) in s.mismatched
  }

  predicate PartsBacked(s: State, parts: seq<Segment>) {
    forall j :: 0 <= j < |parts| ==> Backed(s, parts[j].input, PartCalculation(parts[j]))
  }

  /** A leg with changes never shows the calculation it had when it was travelled one way
      unless it is made plain again, and then it is routed the default way. */
  predicate Dormant(row: Leg) {
    row.Composite() && !DefaultRouted(row.input)
  }

  predicate RowBacked(s: State, row: Leg) {
    && (row.source == Pending ==> !row.pinned)
    && (Backed(s, row.input, CalculationOf(row)) || Dormant(row)) && PartsBacked(s, row.segments)
  }

  /** The same of a row that may have been made plain a moment ago. */
  predicate Ready(s: State, row: Leg) {
    && (row.source == Pending ==> !row.pinned) && PartsBacked(s, row.segments)
    && (|| Backed(s, row.input, CalculationOf(row)) || Dormant(row)
        || (!DefaultRouted(row.input) && row.preference == Fastest && row.via == []))
  }

  ghost predicate RowsBacked(s: State, rows: seq<Leg>) {
    forall i :: 0 <= i < |rows| ==> RowBacked(s, rows[i])
  }

  ghost predicate InLine(c: Content, rows: seq<Leg>) {
    && DistinctItems(c.items) && DistinctDays(c.days)
    && DistinctLegs(rows) && DistinctParts(rows)
    && Reconciled(c, Read(rows))
  }

  /** A leg's input is one of some mode, ends and routing, its own or earlier ones. */
  ghost predicate Keyed(row: Leg) {
    exists mode, from, to, route :: row.input == Input(mode, from, to, route)
  }

  ghost predicate RowsKeyed(rows: seq<Leg>) {
    forall i :: 0 <= i < |rows| ==> Keyed(rows[i])
  }

  /** What every step keeps of the rows whatever they hold. */
  ghost predicate Lined(s: State) {
    InLine(s.content, s.rows) && RowsKeyed(s.rows) && IdsOf(s.rows) <= s.ids
  }

  /** What a request has read of a leg. */
  ghost predicate ReadSound(s: State, leg: Leg) {
    PartsBacked(s, leg.segments) && leg.id in s.ids && Keyed(leg)
  }

  /** A store keeps an answer under its own input, or comes to nothing: its leg is gone. */
  predicate SaveSound(s: State, save: Save) {
    && (save.calculation.source == Pending ==> !save.pinned)
    && (|| Backed(s, save.input, save.calculation)
        || (!save.part && save.id in s.ids && Gone(s, save.id)))
  }

  ghost predicate ReadsSound(s: State) {
    && (forall i :: 0 <= i < |s.glimpsed| ==> s.glimpsed[i].id in s.ids && Keyed(s.glimpsed[i]))
    && (forall i :: 0 <= i < |s.read| ==> ReadSound(s, s.read[i]))
    && (forall i :: 0 <= i < |s.saves| ==> SaveSound(s, s.saves[i]))
  }

  ghost predicate Inv(s: State) {
    Lined(s) && RowsBacked(s, s.rows) && ReadsSound(s)
  }

  // ------------------------------------------------------------- bringing legs in line

  /** A row made plain a moment ago keeps what it holds only if the default way between its
      ends is what that is stored under. */
  lemma SyncRowBacked(s: State, row: Leg, plan: LegPlan)
    requires Ready(s, row)
    requires !row.Composite() && row.preference == Fastest && row.via == [] ==> DefaultRouted(SyncRow(row, plan).input)
    ensures RowBacked(s, SyncRow(row, plan))
  {
    hide DefaultRouted;
  }

  lemma CreatedWaits(c: Content, legs: seq<Leg>, ids: nat -> Id, i: nat)
    requires i < |Plan(c, legs, ids).create|
    ensures var leg := Plan(c, legs, ids).create[i]; leg.source == Pending && leg.segments == [] && !leg.pinned
  {
    hide Needs;
    hide Keeps;
    hide Input;
    hide Resets;
    hide PartResets;
    var k := CreatedFrom(c, legs, ids, Needs(c), i);
  }

  /** What is ready, or not needed, is backed once it was brought in line. */
  ghost predicate ReadyFor(s: State, c: Content, rows: seq<Leg>) {
    forall i :: 0 <= i < |rows| ==> Ready(s, rows[i]) || !Needed(rows[i], Needs(c))
  }

  lemma SyncedBacked(s: State, c: Content, rows: seq<Leg>, ids: nat -> Id)
    requires ReadyFor(s, c, rows) && DistinctLegs(rows)
    requires InLine(c, Synced(rows, Plan(c, Read(rows), ids)))
    ensures RowsBacked(s, Synced(rows, Plan(c, Read(rows), ids)))
  {
    hide Plan;
    hide SyncRow;
    hide RowBacked;
    hide Ready;
    hide InLine;
    hide DefaultRouted;
    var plan := Plan(c, Read(rows), ids);
    var rows' := Synced(rows, plan);
    forall i | 0 <= i < |rows'| ensures RowBacked(s, rows'[i]) {
      if i < |SyncRows(rows, plan)| {
        var r := SyncedRowFrom(rows, plan, i);
        var k := RowServes(c, rows, ids, i);
        SyncKeepsIdentity(rows[r], plan);
        assert Serves(rows[r], Needs(c)[k]);
        if !rows'[i].Composite() && rows'[i].preference == Fastest && rows'[i].via == [] {
          DefaultInput(c, rows', i);
        }
        SyncRowBacked(s, rows[r], plan);
      } else {
        CreatedWaits(c, Read(rows), ids, i - |SyncRows(rows, plan)|);
        WaitingIsBacked(s, rows'[i]);
      }
    }
  }

  lemma RowInput(c: Content, rows: seq<Leg>, i: nat)
    requires InLine(c, rows) && i < |rows| && !rows[i].Composite()
    ensures rows[i].input == Input(rows[i].mode, StartOf(c, rows[i]), EndOf(c, rows[i]), rows[i].Route())
  {
    hide Reconciled;
    hide Folded;
    hide Input;
    FoldKeepsIdentity(rows[i]);
    JobIsCurrent(c, Read(rows), i);
  }

  lemma DefaultInput(c: Content, rows: seq<Leg>, i: nat)
    requires InLine(c, rows) && i < |rows|
    requires !rows[i].Composite() && rows[i].preference == Fastest && rows[i].via == []
    ensures DefaultRouted(rows[i].input)
  {
    hide InLine;
    RowInput(c, rows, i);
    DefaultRoutedIs(rows[i].mode, StartOf(c, rows[i]), EndOf(c, rows[i]), rows[i].Route());
    NoTail(rows[i].mode);
  }

  lemma WaitingIsBacked(s: State, row: Leg)
    requires row.source == Pending && row.segments == [] && !row.pinned
    ensures RowBacked(s, row)
  {
  }

  lemma SyncKeepsParts(row: Leg, plan: LegPlan)
    ensures |SyncRow(row, plan).segments| == |row.segments|
    ensures forall m :: 0 <= m < |row.segments| ==> SyncRow(row, plan).segments[m].id == row.segments[m].id
  {
  }

  /** The row a part of the synced rows came from. */
  lemma PartRow(c: Content, rows: seq<Leg>, ids: nat -> Id, i: nat, m: nat) returns (r: nat)
    requires i < |Synced(rows, Plan(c, Read(rows), ids))|
    requires m < |Synced(rows, Plan(c, Read(rows), ids))[i].segments|
    ensures r < |rows| && m < |rows[r].segments| && i < |SyncRows(rows, Plan(c, Read(rows), ids))|
    ensures Synced(rows, Plan(c, Read(rows), ids))[i].segments[m].id == rows[r].segments[m].id
    ensures Synced(rows, Plan(c, Read(rows), ids))[i].id == rows[r].id
  {
    hide Plan;
    hide SyncRow;
    var plan := Plan(c, Read(rows), ids);
    if i >= |SyncRows(rows, plan)| {
      CreatedWaits(c, Read(rows), ids, i - |SyncRows(rows, plan)|);
    }
    r := SyncedRowFrom(rows, plan, i);
    SyncKeepsParts(rows[r], plan);
    SyncKeepsIdentity(rows[r], plan);
  }

  lemma SyncedParts(c: Content, rows: seq<Leg>, ids: nat -> Id)
    requires DistinctLegs(rows) && DistinctParts(rows) && Fresh(ids, rows)
    ensures DistinctParts(Synced(rows, Plan(c, Read(rows), ids)))
  {
    hide Plan;
    hide Synced;
    var rows' := Synced(rows, Plan(c, Read(rows), ids));
    SyncedIds(c, rows, ids);
    forall i, j, m, n |
      0 <= i < |rows'| && 0 <= j < |rows'| && 0 <= m < |rows'[i].segments| && 0 <= n < |rows'[j].segments|
      && rows'[i].segments[m].id == rows'[j].segments[n].id
      ensures i == j && m == n
    {
      var a := PartRow(c, rows, ids, i, m);
      var b := PartRow(c, rows, ids, j, n);
      assert a == b;
      assert rows'[i].id == rows'[j].id;
    }
  }

  lemma SameInputKeyed(row: Leg, row': Leg)
    requires Keyed(row) && row'.input == row.input
    ensures Keyed(row')
  {
    hide Input;
  }

  lemma SyncedKeyed(c: Content, rows: seq<Leg>, ids: nat -> Id)
    requires RowsKeyed(rows) && DistinctLegs(rows) && DistinctItems(c.items) && DistinctDays(c.days)
    requires InLine(c, Synced(rows, Plan(c, Read(rows), ids)))
    ensures RowsKeyed(Synced(rows, Plan(c, Read(rows), ids)))
  {
    hide Plan;
    hide SyncRow;
    hide Keyed;
    hide Input;
    hide InLine;
    var plan := Plan(c, Read(rows), ids);
    var rows' := Synced(rows, plan);
    forall i | 0 <= i < |rows'| ensures Keyed(rows'[i]) {
      if !rows'[i].Composite() {
        RowInput(c, rows', i);
        KeyedBy(rows'[i], rows'[i].mode, StartOf(c, rows'[i]), EndOf(c, rows'[i]), rows'[i].Route());
      } else if i < |SyncRows(rows, plan)| {
        var r := SyncedRowFrom(rows, plan, i);
        SyncKeepsIdentity(rows[r], plan);
        CompositeKept(c, rows, ids, r);
        SameInputKeyed(rows[r], rows'[i]);
      } else {
        CreatedWaits(c, Read(rows), ids, i - |SyncRows(rows, plan)|);
      }
    }
  }

  lemma KeyedBy(row: Leg, mode: TravelMode, from: Option<Point>, to: Option<Point>, route: LegRoute)
    requires row.input == Input(mode, from, to, route)
    ensures Keyed(row)
  {
  }

  /** Whatever was done to the rows, the commit leaves the legs in line. */
  lemma ResyncLines(s: State, content: Content, rows: seq<Leg>, ids: nat -> Id)
    requires DistinctItems(content.items) && DistinctDays(content.days)
    requires DistinctLegs(rows) && DistinctParts(rows) && Fresh(ids, rows) && RowsKeyed(rows)
    ensures Lined(Resynced(s, content, rows, ids))
  {
    hide Plan;
    hide Synced;
    hide Reconciled;
    hide Keyed;
    SyncReconciles(content, rows, ids);
    SyncedIds(content, rows, ids);
    SyncedParts(content, rows, ids);
    SyncedKeyed(content, rows, ids);
  }

  /** And backed. */
  lemma ResyncKeeps(s: State, content: Content, rows: seq<Leg>, ids: nat -> Id)
    requires ReadsSound(s) && IdsOf(rows) <= IdsOf(s.rows) && Unused(s, ids)
    requires DistinctItems(content.items) && DistinctDays(content.days)
    requires DistinctLegs(rows) && DistinctParts(rows) && Fresh(ids, rows) && RowsKeyed(rows)
    requires ReadyFor(s, content, rows)
    ensures Inv(Resynced(s, content, rows, ids))
  {
    hide Plan;
    hide Synced;
    hide Reconciled;
    hide PartsBacked;
    hide RowsBacked;
    hide RowsKeyed;
    hide ReadyFor;
    hide Keyed;
    hide Backed;
    var s' := Resynced(s, content, rows, ids);
    ResyncLines(s, content, rows, ids);
    SyncedBacked(s, content, rows, ids);
    MoreAnswers(s, s');
    forall save | save in s.saves ensures SaveSound(s', save) {
      assert SaveSound(s, save);
      if !Backed(s, save.input, save.calculation) {
        StaysGone(s, content, rows, ids, save.id);
      }
    }
  }

  /** A leg that is gone does not come back. */
  lemma StaysGone(s: State, content: Content, rows: seq<Leg>, ids: nat -> Id, id: Id)
    requires id in s.ids && Gone(s, id) && IdsOf(rows) <= IdsOf(s.rows) && Unused(s, ids)
    ensures Gone(Resynced(s, content, rows, ids), id)
  {
    hide Plan;
    var plan := Plan(content, Read(rows), ids);
    var rows' := Synced(rows, plan);
    forall i | 0 <= i < |rows'| ensures rows'[i].id != id {
      if i < |SyncRows(rows, plan)| {
        var r := SyncedRowFrom(rows, plan, i);
        SyncKeepsIdentity(rows[r], plan);
        assert rows[r].id in IdsOf(rows);
      } else {
        CreatedPlanIds(content, Read(rows), ids);
      }
    }
  }

  lemma CreatedPlanIds(c: Content, legs: seq<Leg>, ids: nat -> Id)
    ensures forall i :: 0 <= i < |Plan(c, legs, ids).create| ==> Plan(c, legs, ids).create[i].id == ids(i)
  {
    CreatedIds(c, legs, ids, Needs(c));
  }

  /** What is backed stays backed as more is answered. */
  lemma MoreAnswers(s: State, s': State)
    requires s.answers <= s'.answers && s.mismatched <= s'.mismatched && s.ids <= s'.ids
    ensures forall input, calculation :: Backed(s, input, calculation) ==> Backed(s', input, calculation)
    ensures forall rows :: RowsBacked(s, rows) ==> RowsBacked(s', rows)
    ensures forall leg :: ReadSound(s, leg) ==> ReadSound(s', leg)
    ensures IdsOf(s'.rows) <= IdsOf(s.rows) ==> forall save :: SaveSound(s, save) ==> SaveSound(s', save)
  {
    assert IdsOf(s'.rows) <= IdsOf(s.rows) ==> forall id :: Gone(s, id) ==> Gone(s', id) by {
      GoneIs(s);
      GoneIs(s');
    }
  }

  lemma GoneIs(s: State)
    ensures forall id :: Gone(s, id) <==> id !in IdsOf(s.rows)
  {
    forall id ensures Gone(s, id) <==> id !in IdsOf(s.rows) {
      if i :| 0 <= i < |s.rows| && s.rows[i].id == id {
        assert s.rows[i].id in IdsOf(s.rows);
      }
    }
  }

  // ------------------------------------------------------------- the steps one by one

  lemma EditLines(s: State, e: Event)
    requires e.Edit? && Lined(s) && Allowed(s, e)
    ensures Lined(Next(s, e))
  {
    hide Reconciled;
    hide Resynced;
    hide Keyed;
    forall i | 0 <= i < |e.edited| ensures Keyed(e.edited[i]) {
      var r :| 0 <= r < |s.rows| && Edits(s.rows[r], e.edited[i]);
      SameInputKeyed(s.rows[r], e.edited[i]);
    }
    EditedParts(s.rows, e.edited);
    ResyncLines(s, e.content, e.edited, e.ids);
  }

  lemma EditKeeps(s: State, content: Content, edited: seq<Leg>, ids: nat -> Id)
    requires Inv(s) && Allowed(s, Edit(content, edited, ids))
    ensures Inv(Next(s, Edit(content, edited, ids)))
  {
    hide Reconciled;
    hide Resynced;
    hide ReadSound;
    hide SaveSound;
    hide Keyed;
    assert EditOf(s.rows, edited);
    forall i | 0 <= i < |edited|
      ensures Ready(s, edited[i]) && edited[i].id in IdsOf(s.rows) && Keyed(edited[i])
    {
      var r :| 0 <= r < |s.rows| && Edits(s.rows[r], edited[i]);
      assert RowBacked(s, s.rows[r]);
      assert s.rows[r].id in IdsOf(s.rows);
      SameInputKeyed(s.rows[r], edited[i]);
    }
    EditedParts(s.rows, edited);
    ResyncKeeps(s, content, edited, ids);
  }

  lemma EditedParts(rows: seq<Leg>, edited: seq<Leg>)
    requires DistinctParts(rows) && EditOf(rows, edited)
    ensures DistinctParts(edited)
  {
    forall i, j, m, n |
      0 <= i < |edited| && 0 <= j < |edited| && 0 <= m < |edited[i].segments| && 0 <= n < |edited[j].segments|
      && edited[i].segments[m].id == edited[j].segments[n].id
      ensures i == j && m == n
    {
      var a :| 0 <= a < |rows| && Edits(rows[a], edited[i]);
      var b :| 0 <= b < |rows| && Edits(rows[b], edited[j]);
      assert rows[a].segments[m].id == rows[b].segments[n].id;
      assert edited[i].id == edited[j].id;
    }
  }

  lemma CarriedBacked(s: State, parts: seq<Segment>, earlier: seq<Segment>, start: Option<Point>, end: Option<Point>)
    requires PartsBacked(s, earlier)
    ensures PartsBacked(s, AllCarried(parts, earlier, start, end))
  {
    hide Carried;
    var carried := AllCarried(parts, earlier, start, end);
    forall j | 0 <= j < |carried| ensures Backed(s, carried[j].input, PartCalculation(carried[j])) {
      CarriedIs(parts, earlier, start, end, j);
      if carried[j].source != Pending {
        var i :| 0 <= i < |earlier| && earlier[i].source != Pending && earlier[i].input == carried[j].input
                 && PartCalculation(carried[j]) == PartCalculation(earlier[i]);
        assert Backed(s, earlier[i].input, PartCalculation(earlier[i]));
      }
    }
  }

  lemma WithPartsBacked(s: State, row: Leg, seen: Leg, parts: seq<Segment>, tickets: seq<Ticket>,
                        start: Option<Point>, end: Option<Point>)
    requires RowBacked(s, row) && PartsBacked(s, seen.segments)
    ensures Ready(s, WithParts(row, seen, parts, tickets, start, end))
  {
    hide Collapsed;
    hide Carried;
    hide DefaultRouted;
    CarriedBacked(s, parts, seen.segments, start, end);
  }

  lemma WithPartsIds(row: Leg, seen: Leg, parts: seq<Segment>, tickets: seq<Ticket>,
                     start: Option<Point>, end: Option<Point>)
    ensures var row' := WithParts(row, seen, parts, tickets, start, end);
            && row'.id == row.id && row'.input == row.input
            && |row'.segments| == (if |parts| < 2 then 0 else |parts|)
            && forall m :: 0 <= m < |row'.segments| ==> row'.segments[m].id == parts[m].id
  {
    hide Collapsed;
    hide Carried;
    if |parts| >= 2 {
      forall m | 0 <= m < |parts| ensures AllCarried(parts, seen.segments, start, end)[m].id == parts[m].id {
        CarriedKeeps(parts, seen.segments, start, end, m);
      }
    }
  }

  lemma ReplacedDistinct(rows: seq<Leg>, seen: Leg, parts: seq<Segment>, tickets: seq<Ticket>,
                         start: Option<Point>, end: Option<Point>)
    requires DistinctLegs(rows) && DistinctParts(rows) && NewParts(parts, rows)
    ensures DistinctLegs(Replaced(rows, seen, parts, tickets, start, end))
    ensures DistinctParts(Replaced(rows, seen, parts, tickets, start, end))
  {
    hide WithParts;
    var rows' := Replaced(rows, seen, parts, tickets, start, end);
    forall i | 0 <= i < |rows|
      ensures rows'[i].id == rows[i].id
      ensures rows[i].id != seen.id ==> rows'[i] == rows[i]
      ensures rows[i].id == seen.id ==> |rows'[i].segments| <= |parts|
      ensures rows[i].id == seen.id ==>
                forall m :: 0 <= m < |rows'[i].segments| ==> rows'[i].segments[m].id == parts[m].id
    {
      WithPartsIds(rows[i], seen, parts, tickets, start, end);
    }
    forall i, j, m, n |
      0 <= i < |rows'| && 0 <= j < |rows'| && 0 <= m < |rows'[i].segments| && 0 <= n < |rows'[j].segments|
      && rows'[i].segments[m].id == rows'[j].segments[n].id
      ensures i == j && m == n
    {
      assert rows[i].id == seen.id ==> rows'[i].segments[m].id == parts[m].id;
      assert rows[j].id == seen.id ==> rows'[j].segments[n].id == parts[n].id;
      assert rows[i].id == seen.id <==> rows[j].id == seen.id;
    }
  }

  lemma SetPartsLines(s: State, e: Event)
    requires e.SetParts? && Lined(s) && Allowed(s, e)
    ensures Lined(Next(s, e))
  {
    hide Reconciled;
    hide Resynced;
    hide WithParts;
    hide Keyed;
    var seen := s.read[e.leg];
    var rows' := Replaced(s.rows, seen, e.parts, e.tickets, e.start, e.end);
    ReplacedDistinct(s.rows, seen, e.parts, e.tickets, e.start, e.end);
    forall i | 0 <= i < |rows'| ensures Keyed(rows'[i]) && rows'[i].id == s.rows[i].id {
      WithPartsIds(s.rows[i], seen, e.parts, e.tickets, e.start, e.end);
      SameInputKeyed(s.rows[i], rows'[i]);
    }
    ResyncLines(s, s.content, rows', e.ids);
  }

  lemma SetPartsKeeps(s: State, e: Event)
    requires e.SetParts? && Inv(s) && Allowed(s, e)
    ensures Inv(Next(s, e))
  {
    hide Reconciled;
    hide Resynced;
    hide WithParts;
    hide RowBacked;
    hide Ready;
    hide Keyed;
    var seen := s.read[e.leg];
    var rows' := Replaced(s.rows, seen, e.parts, e.tickets, e.start, e.end);
    ReplacedDistinct(s.rows, seen, e.parts, e.tickets, e.start, e.end);
    forall i | 0 <= i < |rows'| ensures Ready(s, rows'[i]) && Keyed(rows'[i]) && rows'[i].id == s.rows[i].id {
      WithPartsBacked(s, s.rows[i], seen, e.parts, e.tickets, e.start, e.end);
      WithPartsIds(s.rows[i], seen, e.parts, e.tickets, e.start, e.end);
      BackedIsReady(s, s.rows[i]);
      SameInputKeyed(s.rows[i], rows'[i]);
    }
    ResyncKeeps(s, s.content, rows', e.ids);
  }

  lemma BackedIsReady(s: State, row: Leg)
    requires RowBacked(s, row)
    ensures Ready(s, row)
  {
  }

  /** The same leg under the same input: only its calculations may differ. */
  predicate SameKeys(a: Leg, b: Leg) {
    && a.id == b.id && a.dayId == b.dayId && a.fromItemId == b.fromItemId && a.toItemId == b.toItemId
    && a.mode == b.mode && a.input == b.input && a.preference == b.preference && a.via == b.via
    && |a.segments| == |b.segments|
    && forall j :: 0 <= j < |a.segments| ==>
         && a.segments[j].id == b.segments[j].id && a.segments[j].mode == b.segments[j].mode
         && a.segments[j].input == b.segments[j].input && a.segments[j].Change() == b.segments[j].Change()
  }

  lemma SameKeysRead(c: Content, a: Leg, b: Leg, need: Need)
    requires SameKeys(a, b)
    ensures Serves(Folded(a), need) == Serves(Folded(b), need)
    ensures Current(c, Folded(a), need) == Current(c, Folded(b), need)
    ensures Folded(a).fromItemId == Folded(b).fromItemId && Folded(a).toItemId == Folded(b).toItemId
  {
    hide Input;
    hide LegStart;
    hide LegEnd;
    hide DistanceOf;
    hide DurationOf;
    hide LineOf;
    hide SourceOf;
    hide ReasonOf;
    hide PlannedOf;
    hide ActualOf;
    hide Encoded;
    FoldKeepsIdentity(a);
    FoldKeepsIdentity(b);
    forall j | 0 <= j < |a.segments|
      ensures NeedPartInput(c, need, a.segments, j) == NeedPartInput(c, need, b.segments, j)
    {
      assert j > 0 ==> a.segments[j - 1].Change() == b.segments[j - 1].Change();
    }
  }

  lemma SameKeysInLine(c: Content, rows: seq<Leg>, rows': seq<Leg>)
    requires InLine(c, rows)
    requires |rows| == |rows'| && forall i :: 0 <= i < |rows| ==> SameKeys(rows[i], rows'[i])
    ensures InLine(c, rows')
  {
    hide Needs;
    hide Serves;
    hide Current;
    hide Folded;
    var legs, legs' := Read(rows), Read(rows');
    forall i | 0 <= i < |rows|
      ensures legs'[i].fromItemId == legs[i].fromItemId && legs'[i].toItemId == legs[i].toItemId
      ensures Needed(legs'[i], Needs(c))
    {
      assert Needed(legs[i], Needs(c));
      var k :| 0 <= k < |Needs(c)| && Serves(legs[i], Needs(c)[k]);
      SameKeysRead(c, rows[i], rows'[i], Needs(c)[k]);
    }
    forall k | 0 <= k < |Needs(c)| ensures HasLeg(c, legs', Needs(c)[k]) {
      assert HasLeg(c, legs, Needs(c)[k]);
      var i :| 0 <= i < |legs| && Serves(legs[i], Needs(c)[k]) && Current(c, legs[i], Needs(c)[k]);
      SameKeysRead(c, rows[i], rows'[i], Needs(c)[k]);
    }
    SameKeysDistinct(rows, rows');
  }

  lemma SameKeysId(a: Leg, b: Leg)
    requires SameKeys(a, b)
    ensures a.id == b.id && a.input == b.input
  {
  }

  lemma SameKeysDistinct(rows: seq<Leg>, rows': seq<Leg>)
    requires DistinctLegs(rows) && DistinctParts(rows)
    requires |rows| == |rows'| && forall i :: 0 <= i < |rows| ==> SameKeys(rows[i], rows'[i])
    ensures DistinctLegs(rows') && DistinctParts(rows')
  {
    forall i, j, m, n |
      0 <= i < |rows'| && 0 <= j < |rows'| && 0 <= m < |rows'[i].segments| && 0 <= n < |rows'[j].segments|
      && rows'[i].segments[m].id == rows'[j].segments[n].id
      ensures i == j && m == n
    {
      assert rows[i].segments[m].id == rows[j].segments[n].id;
    }
  }

  lemma StoredKeeps(s: State, row: Leg, save: Save)
    requires RowBacked(s, row) && SaveSound(s, save) && row in s.rows
    ensures SameKeys(row, Stored(row, save)) && RowBacked(s, Stored(row, save))
  {
    hide DefaultRouted;
  }

  lemma DeliverLines(s: State, save: nat)
    requires Lined(s) && Allowed(s, Deliver(save))
    ensures Lined(Next(s, Deliver(save)))
  {
    hide InLine;
    hide SameKeys;
    hide Stored;
    hide Keyed;
    var s' := Next(s, Deliver(save));
    forall i | 0 <= i < |s.rows|
      ensures SameKeys(s.rows[i], s'.rows[i]) && s'.rows[i].id == s.rows[i].id && Keyed(s'.rows[i])
    {
      StoredSameKeys(s.rows[i], s.saves[save]);
      SameKeysId(s.rows[i], s'.rows[i]);
      SameInputKeyed(s.rows[i], s'.rows[i]);
    }
    SameKeysInLine(s.content, s.rows, s'.rows);
  }

  lemma StoredSameKeys(row: Leg, save: Save)
    ensures SameKeys(row, Stored(row, save))
  {
  }

  lemma DeliverKeeps(s: State, save: nat)
    requires Inv(s) && Allowed(s, Deliver(save))
    ensures Inv(Next(s, Deliver(save)))
  {
    hide Lined;
    hide RowBacked;
    hide Stored;
    hide SaveSound;
    hide ReadSound;
    var s' := Next(s, Deliver(save));
    forall i | 0 <= i < |s.rows| ensures RowBacked(s, s'.rows[i]) && s'.rows[i].id == s.rows[i].id {
      StoredKeeps(s, s.rows[i], s.saves[save]);
      SameKeysId(s.rows[i], s'.rows[i]);
    }
    DeliverLines(s, save);
    MoreAnswers(s, s');
  }

  lemma GlimpseKeeps(s: State, row: nat)
    requires Inv(s) && Allowed(s, ReadRow(row))
    ensures Inv(Next(s, ReadRow(row)))
  {
    hide Reconciled;
    hide ReadSound;
    hide SaveSound;
    hide Keyed;
    var s' := Next(s, ReadRow(row));
    MoreAnswers(s, s');
    assert s.rows[row].id in IdsOf(s.rows);
    SameInputKeyed(s.rows[row], s'.glimpsed[|s.glimpsed|]);
  }

  lemma {:induction false} PartsNowBacked(s: State, rows: seq<Leg>, id: Id)
    requires RowsBacked(s, rows)
    ensures PartsBacked(s, PartsNow(rows, id))
  {
    hide Backed;
    if rows != [] {
      assert RowBacked(s, rows[|rows| - 1]);
      PartsNowBacked(s, rows[..|rows| - 1], id);
    }
  }

  lemma ReadKeeps(s: State, glimpse: nat, tickets: seq<Ticket>)
    requires Inv(s) && Allowed(s, ReadParts(glimpse, tickets))
    ensures Inv(Next(s, ReadParts(glimpse, tickets)))
  {
    hide Reconciled;
    hide Folded;
    hide SaveSound;
    hide PartsBacked;
    hide Keyed;
    var s', seen := Next(s, ReadParts(glimpse, tickets)), s.glimpsed[glimpse];
    var leg := seen.(segments := PartsNow(s.rows, seen.id), tickets := tickets);
    FoldKeepsIdentity(leg);
    PartsNowBacked(s, s.rows, seen.id);
    SameInputKeyed(seen, Folded(leg));
    assert ReadSound(s, Folded(leg));
    MoreAnswers(s, s');
  }

  lemma AskingKeeps(s: State, job: Job, calculation: Calculation)
    requires Inv(s) && Asked(job) == job.input
    ensures Inv(Asking(s, job, calculation))
  {
    hide InLine;
    hide Asked;
    MoreAnswers(s, Asking(s, job, calculation));
  }

  lemma CalculateKeeps(s: State, e: Event)
    requires e.CalculateLeg? || e.CalculatePart?
    requires Inv(s) && Allowed(s, e)
    ensures Inv(Next(s, e))
  {
    hide Folded;
    hide LegJob;
    hide PartJob;
    hide Asked;
    hide Reconciled;
    var legs := Read(s.rows);
    FoldKeepsIdentity(s.rows[e.row]);
    JobIsCurrent(s.content, legs, e.row);
    LegJobInput(s.content, legs[e.row]);
    if e.CalculateLeg? {
      AskingKeeps(s, LegJob(s.content, legs[e.row]), e.calculation);
    } else {
      PartJobInput(s.content, legs[e.row], e.index);
      AskingKeeps(s, PartJob(s.content, legs[e.row], e.index), e.calculation);
    }
  }

  lemma LegJobInput(c: Content, leg: Leg)
    ensures LegJob(c, leg).input == leg.input
  {
  }

  lemma PartJobInput(c: Content, leg: Leg, index: nat)
    requires index < |leg.segments|
    ensures PartJob(c, leg, index).input == leg.segments[index].input
  {
  }

  lemma ChoiceKeeps(s: State, leg: nat, calculation: Calculation)
    requires Inv(s) && Allowed(s, CheckChoice(leg, calculation))
    ensures Inv(Next(s, CheckChoice(leg, calculation)))
  {
    hide InLine;
    hide MayChoose;
    hide InputNow;
    hide RowsBacked;
    hide ReadSound;
    hide SaveSound;
    hide IdsOf;
    var s' := Next(s, CheckChoice(leg, calculation));
    MoreAnswers(s, s');
    ChoiceSound(s, leg, calculation);
  }

  lemma ChoiceSound(s: State, leg: nat, calculation: Calculation)
    requires leg < |s.read| && ReadSound(s, s.read[leg]) && MayChoose(s, s.read[leg], calculation)
    ensures SaveSound(Next(s, CheckChoice(leg, calculation)),
                      Save(false, s.read[leg].id, s.read[leg].input, calculation, true))
  {
    hide InputNow;
    hide PartsBacked;
    hide Keyed;
    hide StartOf;
    hide EndOf;
    hide Decoded;
  }

  /** Every allowed step keeps the legs in line with the days and every stored
      calculation an answer to the input it is stored under. */
  lemma StepKeeps(s: State, e: Event)
    requires Inv(s) && Allowed(s, e)
    ensures Inv(Next(s, e))
  {
    hide Inv;
    hide Next;
    match e
    case Edit(content, edited, ids) => EditKeeps(s, content, edited, ids);
    case SetParts(_, _, _, _, _, _) => SetPartsKeeps(s, e);
    case ReadRow(row) => GlimpseKeeps(s, row);
    case ReadParts(glimpse, tickets) => ReadKeeps(s, glimpse, tickets);
    case CalculateLeg(_, _) => CalculateKeeps(s, e);
    case CalculatePart(_, _, _) => CalculateKeeps(s, e);
    case CheckChoice(leg, calculation) => ChoiceKeeps(s, leg, calculation);
    case Deliver(save) => DeliverKeeps(s, save);
  }

  // ------------------------------------------------------------- runs

  /** The steps are allowed one after another. */
  ghost predicate Run(s: State, events: seq<Event>)
    decreases |events|
  {
    events != [] ==> Allowed(s, events[0]) && Run(Next(s, events[0]), events[1..])
  }

  ghost function After(s: State, events: seq<Event>): State
    requires Run(s, events)
    decreases |events|
  {
    if events == [] then s else After(Next(s, events[0]), events[1..])
  }

  /** Each chosen route was checked while its leg still had the input it was read with, or
      was gone. */
  ghost predicate ChoicesInPlace(s: State, events: seq<Event>)
    requires Run(s, events)
    decreases |events|
  {
    events != [] ==>
      && (events[0].CheckChoice? ==> InPlace(s, s.read[events[0].leg]))
      && ChoicesInPlace(Next(s, events[0]), events[1..])
  }

  lemma {:induction false} RunKeeps(s: State, events: seq<Event>)
    requires Inv(s) && Run(s, events)
    ensures Inv(After(s, events))
    ensures s.mismatched == {} && ChoicesInPlace(s, events) ==> After(s, events).mismatched == {}
    decreases |events|
  {
    hide Inv;
    if events != [] {
      StepKeeps(s, events[0]);
      RunKeeps(Next(s, events[0]), events[1..]);
    }
  }

  /** The answer a leg or a part that does not wait holds was given to the question
      its present mode, ends and routing ask. */
  ghost predicate NothingStale(s: State) {
    && (forall i :: 0 <= i < |s.rows| && !s.rows[i].Composite() && s.rows[i].source != Pending ==>
          Answer(InputNow(s.content, s.rows[i]), CalculationOf(s.rows[i])) in s.answers)
    && (forall i, j :: 0 <= i < |s.rows| && s.rows[i].Composite() && 0 <= j < |s.rows[i].segments|
                       && s.rows[i].segments[j].source != Pending ==>
          Answer(Asked(PartJob(s.content, s.rows[i], j)), PartCalculation(s.rows[i].segments[j])) in s.answers)
  }

  lemma BackedIsCurrent(s: State)
    requires Inv(s) && s.mismatched == {}
    ensures NothingStale(s)
  {
    hide Reconciled;
    hide Input;
    hide LegStart;
    hide LegEnd;
    forall i | 0 <= i < |s.rows|
      ensures !s.rows[i].Composite() ==> InputNow(s.content, s.rows[i]) == s.rows[i].input
      ensures s.rows[i].Composite() ==> forall j :: 0 <= j < |s.rows[i].segments| ==>
                Asked(PartJob(s.content, s.rows[i], j)) == s.rows[i].segments[j].input
      ensures RowBacked(s, s.rows[i])
    {
      FoldKeepsIdentity(s.rows[i]);
      JobIsCurrent(s.content, Read(s.rows), i);
    }
  }

  /** In any run in which every chosen route was checked while its leg still had the
      input it was read with, or was gone, no leg and no part holds a stale calculation, however
      late its answer came and whatever the ends went through meanwhile. */
  lemma {:induction false} NeverStale(s: State, events: seq<Event>)
    requires Inv(s) && s.mismatched == {}
    requires Run(s, events) && ChoicesInPlace(s, events)
    ensures NothingStale(After(s, events))
    ensures InLine(After(s, events).content, After(s, events).rows)
  {
    hide NothingStale;
    RunKeeps(s, events);
    BackedIsCurrent(After(s, events));
  }
}
