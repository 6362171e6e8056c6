/**
 A report that shows a train journey as the provider's answer for the car: from an empty
 document through a plan with a leg by train and on foot to the report made from it.
 */
module LegCopyRun {
  import opened Common
  import opened Polyline
  import opened Document
  import opened LegInput
  import opened LegFold
  import opened Reconcile
  import opened LegSync
  import opened LegFixpoint
  import opened LegJobs
  import opened LegMoves
  import opened LegRuns
  import opened LegChoice
  import opened LegCopies

  const TRAIN: Segment :=
    Segment(1, Train, None, None, [], Pending, "", "", None, None, None, "Station", Some(0), Some(40_000), 5)

  const ON_FOOT: Segment := Segment(2, Walk, None, None, [], Pending, "", "", None, None, None, "", None, None, 0)

  const BY_TRAIN: Calculation := Calculation(Some(60_000), Some(2400), [], Provider, "")

  const BY_FOOT: Calculation := Calculation(Some(11_000), Some(9000), [], Provider, "")

  /** What the two parts come to, with five minutes between them. */
  const BOTH: Calculation := Calculation(Some(71_000), Some(11_700), [], Provider, "")

  // ------------------------------------------------------------- the plan

  /** The leg is travelled by train and then on foot. */
  predicate TwoParts(row: Leg) {
    && row.input == TheInput(HOME) && |row.segments| == 2
    && row.segments[0].mode == Train && row.segments[1].mode == Walk && row.segments[0].waitMinutes == 5
    && (forall j :: 0 <= j < 2 ==>
          row.segments[j].manualDistanceM == None && row.segments[j].manualDurationS == None)
  }

  lemma CarriedTwo(start: Option<Point>, end: Option<Point>)
    ensures var parts := AllCarried([TRAIN, ON_FOOT], [], start, end);
            && |parts| == 2 && parts[0].mode == Train && parts[1].mode == Walk && parts[0].waitMinutes == 5
            && forall j :: 0 <= j < 2 ==> parts[j].manualDistanceM == None && parts[j].manualDurationS == None
  {
    hide PartInput;
  }

  /** The plan's leg with its first n parts calculated. */
  predicate Calculated(row: Leg, n: nat) {
    && TwoParts(row)
    && (n >= 1 ==> PartCalculation(row.segments[0]) == BY_TRAIN)
    && (n >= 2 ==> PartCalculation(row.segments[1]) == BY_FOOT)
  }

  lemma SyncedTwo(row: Leg, plan: LegPlan)
    requires TwoParts(row) && ResetInput(plan.reset, row.id) == None
    ensures TwoParts(SyncRow(row, plan))
  {
    hide TheInput;
  }

  lemma ReplacedTwo(leg: Leg)
    requires TheLeg(leg, 10, HOME)
    ensures var rows := Replaced([leg], leg, [TRAIN, ON_FOOT], [], None, None);
            |rows| == 1 && TwoParts(rows[0]) && rows[0].Composite() && Serves(rows[0], TheNeed(HOME))
  {
    hide Carried;
    hide TheInput;
    CarriedTwo(None, None);
  }

  lemma PartsGiven(s: State, leg: Leg) returns (t: State, i: nat)
    requires Inv(s)
    requires s == NOWHERE.(content := Trip(HOME), rows := [leg], glimpsed := [leg], read := [leg], ids := {10})
    requires TheLeg(leg, 10, HOME)
    ensures var e := SetParts(0, [TRAIN, ON_FOOT], [], None, None, From(20)); Allowed(s, e) && Next(s, e) == t
    ensures Inv(t) && t.content == Trip(HOME) && t.saves == [] && t.answers == {} && t.mismatched == {}
    ensures i < |t.rows| && TwoParts(t.rows[i])
  {
    hide Plan;
    hide Synced;
    hide SyncRow;
    hide TheInput;
    hide Trip;
    hide Inv;
    hide Carried;
    hide TwoParts;
    var e := SetParts(0, [TRAIN, ON_FOOT], [], None, None, From(20));
    StepKeeps(s, e);
    t := Next(s, e);
    TripNeeds(HOME);
    var rows := Replaced(s.rows, leg, e.parts, [], None, None);
    ReplacedTwo(leg);
    i := Survives(Trip(HOME), rows, From(20), 0, TheNeed(HOME));
    CompositeKept(Trip(HOME), rows, From(20), 0);
    SyncedTwo(rows[0], Plan(Trip(HOME), Read(rows), From(20)));
  }

  /** The provider answers for one part, and the answer is stored. */
  lemma PartAnswered(s: State, i: nat, j: nat, calculation: Calculation) returns (t: State, u: State)
    requires Inv(s) && i < |s.rows| && s.rows[i].Composite() && j < |s.rows[i].segments|
    ensures Allowed(s, CalculatePart(i, j, calculation)) && Next(s, CalculatePart(i, j, calculation)) == t
    ensures Allowed(t, Deliver(|s.saves|)) && Next(t, Deliver(|s.saves|)) == u && Inv(u)
    ensures u.mismatched == s.mismatched && |u.saves| == |s.saves| + 1 && u.content == s.content
    ensures exists from, to ::
              u.answers == s.answers + {Answer(Input(s.rows[i].segments[j].mode, from, to, DEFAULT_ROUTE), calculation)}
    ensures i < |u.rows| && u.rows[i].input == s.rows[i].input && |u.rows[i].segments| == |s.rows[i].segments|
    ensures forall k :: 0 <= k < |s.rows[i].segments| ==>
              u.rows[i].segments[k]
              == if k == j then StoredPart(s.rows[i].segments[k], Save(true, s.rows[i].segments[k].id,
                                           s.rows[i].segments[k].input, calculation, false))
                 else s.rows[i].segments[k]
  {
    hide Inv;
    hide Folded;
    hide StoredPart;
    hide Input;
    hide PartStart;
    hide PartEnd;
    hide StartOf;
    hide EndOf;
    var row := s.rows[i];
    var leg, part := Folded(row), row.segments[j];
    FoldKeepsIdentity(row);
    StepKeeps(s, CalculatePart(i, j, calculation));
    t := Next(s, CalculatePart(i, j, calculation));
    StepKeeps(t, Deliver(|s.saves|));
    u := Next(t, Deliver(|s.saves|));
    var job := PartJob(s.content, leg, j);
    assert t.answers == s.answers + {Answer(Input(part.mode, job.from, job.to, DEFAULT_ROUTE), calculation)};
    assert t.saves[|s.saves|] == Save(true, part.id, part.input, calculation, false);
    OtherParts(s, i, j, t.saves[|s.saves|]);
  }

  lemma OtherParts(s: State, i: nat, j: nat, save: Save)
    requires Inv(s) && i < |s.rows| && j < |s.rows[i].segments| && save.id == s.rows[i].segments[j].id
    ensures forall k :: 0 <= k < |s.rows[i].segments| && k != j ==>
              StoredPart(s.rows[i].segments[k], save) == s.rows[i].segments[k]
  {
  }

  /** Nobody was asked for a route by car. */
  predicate CarUnasked(s: State) {
    forall answer :: answer in s.answers ==> answer.asked != TheInput(HOME)
  }

  lemma OtherMode(s: State, t: State, mode: TravelMode, from: Option<Point>, to: Option<Point>,
                  calculation: Calculation)
    requires CarUnasked(s) && mode != Car
    requires t.answers == s.answers + {Answer(Input(mode, from, to, DEFAULT_ROUTE), calculation)}
    ensures CarUnasked(t)
  {
    hide Input;
    Unambiguous(mode, from, to, DEFAULT_ROUTE, Car, Some(Point(HOME, 0)), Some(END), DEFAULT_ROUTE);
  }

  lemma NextAnswered(s: State, i: nat, j: nat, calculation: Calculation) returns (t: State, u: State)
    requires Inv(s) && i < |s.rows| && j < 2 && Calculated(s.rows[i], j) && CarUnasked(s)
    requires calculation == if j == 0 then BY_TRAIN else BY_FOOT
    ensures Allowed(s, CalculatePart(i, j, calculation)) && Next(s, CalculatePart(i, j, calculation)) == t
    ensures Allowed(t, Deliver(|s.saves|)) && Next(t, Deliver(|s.saves|)) == u && Inv(u)
    ensures u.mismatched == s.mismatched && u.content == s.content && |u.saves| == |s.saves| + 1
    ensures i < |u.rows| && Calculated(u.rows[i], j + 1) && CarUnasked(u)
  {
    hide Inv;
    hide Input;
    hide Allowed;
    hide Next;
    hide CarUnasked;
    t, u := PartAnswered(s, i, j, calculation);
    var from, to :|
      u.answers == s.answers + {Answer(Input(s.rows[i].segments[j].mode, from, to, DEFAULT_ROUTE), calculation)};
    OtherMode(s, u, s.rows[i].segments[j].mode, from, to, calculation);
  }

  /** The plan: a leg is made between two places, given two parts, and both are calculated. */
  lemma PlanMade() returns (s: State, i: nat, events: seq<Event>)
    ensures Run(NOWHERE, events) && ChoicesInPlace(NOWHERE, events) && After(NOWHERE, events) == s
    ensures Inv(s) && s.mismatched == {} && s.content == Trip(HOME) && CarUnasked(s)
    ensures i < |s.rows| && Calculated(s.rows[i], 2)
  {
    hide Inv;
    hide Allowed;
    hide Next;
    hide Run;
    hide After;
    hide ChoicesInPlace;
    hide Calculated;
    hide TheLeg;
    hide TheInput;
    hide Trip;
    var s1, leg := Arrived();
    TheLegId(leg, HOME);
    TheLegAgain(leg);
    var s2 := RowRead(s1, leg);
    var seen := PartsRead(s2, leg);
    var s3;
    s3, i := PartsGiven(seen, leg);
    NothingCalculated(s3.rows[i]);
    var t4, s4 := NextAnswered(s3, i, 0, BY_TRAIN);
    var t5, s5 := NextAnswered(s4, i, 1, BY_FOOT);
    s := s5;
    NoSteps(s);
    events := [Edit(Trip(HOME), [], From(10)), ReadRow(0), ReadParts(0, []),
               SetParts(0, [TRAIN, ON_FOOT], [], None, None, From(20)), CalculatePart(i, 0, BY_TRAIN), Deliver(0),
               CalculatePart(i, 1, BY_FOOT), Deliver(1)];
    StepsThen([NOWHERE, s1, s2, seen, s3, t4, s4, t5, s5], events, []);
    assert events + [] == events;
  }

  lemma NothingCalculated(row: Leg)
    requires TwoParts(row)
    ensures Calculated(row, 0)
  {
  }

  lemma {:induction false} NoLines(parts: seq<Segment>)
    requires |parts| == 2 && parts[0].geometry == [] && parts[1].geometry == []
    ensures LineOf(parts, 2) == []
  {
    NothingDecoded();
    hide Decoded;
    assert LineOf(parts, 1) == LineOf(parts, 0) + Decoded(parts[0].geometry);
    assert LineOf(parts, 2) == LineOf(parts, 1) + Decoded(parts[1].geometry);
  }

  lemma BothTogether(row: Leg)
    requires Calculated(row, 2)
    ensures row.Composite() && CalculationOf(Folded(row)) == BOTH && row.input == TheInput(HOME)
  {
    hide TheInput;
    hide Encoded;
    NoLines(row.segments);
    hide LineOf;
    assert row.segments[0].Distance() == Some(60_000) && row.segments[0].Duration() == Some(2400);
    assert DistanceOf(row.segments, 0) == 0 && DurationOf(row.segments, 0) == 0;
    assert DistanceOf(row.segments, 1) == 60_000 && DurationOf(row.segments, 1) == 2700;
    assert SourceOf(row.segments, 1) == Provider;
    assert ReasonOf(row.segments, 0) == "";
    assert ReasonOf(row.segments, 1) == "";
    assert row.segments[0].Distance().Some?;
  }

  // ------------------------------------------------------------- the report

  function CopiedPlace(item: Item, id: Id): Item {
    item.(id := id, dayId := Some(3))
  }

  const REPORT: Content :=
    Content([ONE_DAY.(id := 3)], [CopiedPlace(PlaceAt(1, 0, Point(HOME, 0)), 4), CopiedPlace(PlaceAt(2, 1, END), 5)],
            [], [], [], [], [])

  const COPYING: Copying :=
    Copying(map[1 := 3], map[1 := 4, 2 := 5], From(100), (leg: nat, part: nat) => 200 + part,
            (leg: nat, ticket: nat) => 300 + ticket)

  lemma OneRow(s: State)
    requires Lined(s) && s.content == Trip(HOME)
    ensures |s.rows| <= 1
  {
    hide Folded;
    hide Trip;
    TripNeeds(HOME);
    if |s.rows| > 1 {
      var a := NeedServed(s, 0);
      var b := NeedServed(s, 1);
    }
  }

  lemma {:induction false} OneCopy(legs: seq<Leg>)
    requires |legs| <= 1
    ensures var rows := Copies(legs, COPYING);
            && |rows| <= 1 && (forall a :: 0 <= a < |rows| ==> rows[a].id == 100)
            && forall a, j :: 0 <= a < |rows| && 0 <= j < |rows[a].segments| ==> rows[a].segments[j].id == 200 + j
  {
    if |legs| == 1 {
      assert legs[..0] == [];
      var leg := legs[0];
      if Comes(COPYING, leg) {
        PartsNumbered(leg);
      }
    }
  }

  lemma PartsNumbered(leg: Leg)
    requires Comes(COPYING, leg)
    ensures var copy := CopiedLeg(leg, COPYING, 0);
            copy.id == 100 && forall j :: 0 <= j < |copy.segments| ==> copy.segments[j].id == 200 + j
  {
  }

  lemma MayBeCopied(s: State)
    requires Lined(s) && s.content == Trip(HOME)
    ensures MayCopy(s, REPORT, COPYING, From(500))
  {
    hide Lined;
    hide Folded;
    hide Copies;
    OneRow(s);
    OneCopy(Read(s.rows));
  }

  lemma CopiesPlan()
    ensures CopyOf(Trip(HOME), REPORT, COPYING)
  {
    var c := Trip(HOME);
    assert c.days[0].id in DayIds(c);
    var items := c.items;
    assert items[..1] == [items[0]] && items[..1][..0] == [];
    assert InDays(items[..1], DayIds(c)) == [items[0]];
    assert Placed(c).items == items;
  }

  /** The run ends with a car leg between the two places that holds what the train and the walk
      came to. */
  ghost predicate ShowsBoth(t: State, events: seq<Event>) {
    && Run(t, events) && ChoicesInPlace(t, events) && !NothingStale(After(t, events))
    && exists leg: Leg :: leg.input == TheInput(HOME) && Holding(After(t, events), leg, BOTH)
  }

  lemma {:induction false} Shown(t: State, events: seq<Event>, input: string, calculation: Calculation)
    requires Run(t, events) && ChoicesInPlace(t, events) && !NothingStale(After(t, events))
    requires exists leg: Leg :: leg.input == input && Holding(After(t, events), leg, calculation)
    requires input == TheInput(HOME) && calculation == BOTH
    ensures ShowsBoth(t, events)
  {
    hide Run;
    hide After;
    hide ChoicesInPlace;
    hide NothingStale;
    hide Holding;
    hide TheInput;
  }

  lemma TrainMisfiled(s: State, i: nat)
    requires i < |s.rows| && Calculated(s.rows[i], 2) && CarUnasked(s)
    ensures Misfiled(s, s.rows[i]) && CalculationOf(Folded(s.rows[i])) == BOTH && s.rows[i].input == TheInput(HOME)
  {
    hide Calculated;
    hide TheInput;
    hide Folded;
    hide DefaultRouted;
    BothTogether(s.rows[i]);
    DefaultCar();
  }

  lemma {:induction false} ReportStale(s: State, i: nat) returns (report: seq<Event>)
    requires Inv(s) && s.content == Trip(HOME) && CarUnasked(s) && i < |s.rows| && Calculated(s.rows[i], 2)
    ensures MayCopy(s, REPORT, COPYING, From(500)) && CopyOf(s.content, REPORT, COPYING)
    ensures ShowsBoth(Report(s, REPORT, COPYING, From(500)), report)
  {
    hide *;
    InvLined(s);
    MayBeCopied(s);
    CopiesPlan();
    AllComeAlong(s, REPORT, COPYING, i);
    TrainMisfiled(s, i);
    report := ReportRun(s, REPORT, COPYING, From(500), i);
    Shown(Report(s, REPORT, COPYING, From(500)), report, s.rows[i].input, CalculationOf(Folded(s.rows[i])));
  }

  /** The report made from that plan, whose leg is then travelled by car from end to end: it
      does not wait, and shows the train's and the walk's distance and time. */
  lemma StaleReport() returns (plan: seq<Event>, report: seq<Event>)
    ensures Run(NOWHERE, plan) && ChoicesInPlace(NOWHERE, plan)
    ensures MayCopy(After(NOWHERE, plan), REPORT, COPYING, From(500))
    ensures CopyOf(After(NOWHERE, plan).content, REPORT, COPYING)
    ensures ShowsBoth(Report(After(NOWHERE, plan), REPORT, COPYING, From(500)), report)
  {
    hide *;
    var s, i;
    s, i, plan := PlanMade();
    report := ReportStale(s, i);
  }

  lemma DefaultCar()
    ensures DefaultRouted(TheInput(HOME))
  {
    hide PointText;
    hide ModeText;
    DefaultRoutedIs(Car, Some(Point(HOME, 0)), Some(END), DEFAULT_ROUTE);
  }
}
