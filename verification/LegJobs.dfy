/**
 Calculating the legs that wait, and keeping calculations across a change of a leg's
 parts (backend/internal/httpapi/legs.go and legsegments.go).
 */
module LegJobs {
  import opened Common
  import opened Polyline
  import opened Document
  import opened LegInput
  import opened LegFold
  import opened Reconcile
  import opened LegSync
  import opened LegReaders

  /** A calculated leg or part, ready to be stored. */
  datatype Calculation = Calculation(distanceM: Option<int>, durationS: Option<int>, geometry: seq<Byte>,
                                     source: LegSource, error: string)

  function CalculationOf(leg: Leg): Calculation {
    Calculation(leg.distanceM, leg.durationS, leg.geometry, leg.source, leg.error)
  }

  function PartCalculation(part: Segment): Calculation {
    Calculation(part.distanceM, part.durationS, part.geometry, part.source, part.error)
  }

  // ------------------------------------------------------------- what is calculated

  const MAX_LEGS_PER_CALCULATION: nat := 25

  const RETRYABLE: set<string> := {"provider_disabled", "rate_limited", "daily_limit", "provider_error"}

  predicate RetryableEstimate(source: LegSource, error: string) {
    source == Estimate && error in RETRYABLE
  }

  function ItemById(items: seq<Item>, id: Id): Option<Item> {
    if items == [] then None
    else if items[|items| - 1].id == id then Some(items[|items| - 1])
    else ItemById(items[..|items| - 1], id)
  }

  function StartOf(c: Content, leg: Leg): Option<Point> {
    match ItemById(c.items, leg.fromItemId)
    case None => None
    case Some(item) => LegStart(item, c.stays, c.tracks)
  }

  function EndOf(c: Content, leg: Leg): Option<Point> {
    match ItemById(c.items, leg.toItemId)
    case None => None
    case Some(item) => LegEnd(item, c.stays, c.tracks)
  }

  /** One question to the routing provider, and where its answer is to be stored. */
  datatype Job = Job(part: bool, id: Id, input: string, mode: TravelMode, from: Option<Point>, to: Option<Point>,
                     route: LegRoute)

  /** What the answer of a job is an answer to. */
  function Asked(job: Job): string {
    Input(job.mode, job.from, job.to, job.route)
  }

  function LegJob(c: Content, leg: Leg): Job {
    Job(false, leg.id, leg.input, leg.mode, StartOf(c, leg), EndOf(c, leg), leg.Route())
  }

  function PartJob(c: Content, leg: Leg, index: nat): Job
    requires index < |leg.segments|
  {
    var part := leg.segments[index];
    Job(true, part.id, part.input, part.mode, PartStart(leg.segments, StartOf(c, leg), index),
        PartEnd(leg.segments, EndOf(c, leg), index), DEFAULT_ROUTE)
  }

  predicate WantedLeg(leg: Leg, forced: bool, retry: bool) {
    (leg.source == Pending && !leg.pinned) || forced
    || (retry && RetryableEstimate(leg.source, leg.error) && !leg.pinned)
  }

  predicate WantedPart(part: Segment, forced: bool, retry: bool) {
    part.source == Pending || forced || (retry && RetryableEstimate(part.source, part.error))
  }

  function PartJobs(c: Content, leg: Leg, forced: bool, retry: bool, n: nat): seq<Job>
    requires n <= |leg.segments|
  {
    if n == 0 then []
    else PartJobs(c, leg, forced, retry, n - 1)
         + if WantedPart(leg.segments[n - 1], forced, retry) then [PartJob(c, leg, n - 1)] else []
  }

  function JobsOf(c: Content, leg: Leg, force: Option<set<Id>>, retry: bool): seq<Job> {
    var forced := force.Some? && leg.id in force.value;
    if force.Some? && !forced then []
    else if leg.Composite() then PartJobs(c, leg, forced, retry, |leg.segments|)
    else if WantedLeg(leg, forced, retry) then [LegJob(c, leg)]
    else []
  }

  /** Everything one request would calculate if it had no bound. */
  function AllJobs(c: Content, legs: seq<Leg>, force: Option<set<Id>>, retry: bool): seq<Job> {
    if legs == [] then []
    else AllJobs(c, legs[..|legs| - 1], force, retry) + JobsOf(c, legs[|legs| - 1], force, retry)
  }

  function Take(jobs: seq<Job>, bound: nat): seq<Job> {
    jobs[..Min(bound, |jobs|)]
  }

  method CalculateSegments(c: Content, leg: Leg, forced: bool, retry: bool, budget: nat) returns (asked: seq<Job>)
    ensures asked == Take(PartJobs(c, leg, forced, retry, |leg.segments|), budget)
  {
    hide StartOf;
    hide EndOf;
    hide WantedPart;
    hide PartStart;
    hide PartEnd;
    hide Segment.Change;
    var starts, ends := SegmentEnds(leg.segments, StartOf(c, leg), EndOf(c, leg));
    asked := [];
    for index := 0 to |leg.segments|
      invariant asked == Take(PartJobs(c, leg, forced, retry, index), budget)
    {
      var part := leg.segments[index];
      if !WantedPart(part, forced, retry) || |asked| >= budget {
        continue;
      }
      asked := asked + [Job(true, part.id, part.input, part.mode, starts[index], ends[index], DEFAULT_ROUTE)];
    }
  }

  lemma {:induction false} NoJobs(c: Content, force: Option<set<Id>>, retry: bool)
    ensures AllJobs(c, [], force, retry) == [] && Take([], MAX_LEGS_PER_CALCULATION) == []
  {
  }

  lemma {:induction false} MoreJobs(c: Content, legs: seq<Leg>, index: nat, force: Option<set<Id>>, retry: bool)
    requires index < |legs|
    ensures var before := Take(AllJobs(c, legs[..index], force, retry), MAX_LEGS_PER_CALCULATION);
            && |before| <= MAX_LEGS_PER_CALCULATION
            && Take(AllJobs(c, legs[..index + 1], force, retry), MAX_LEGS_PER_CALCULATION)
               == before + Take(JobsOf(c, legs[index], force, retry), MAX_LEGS_PER_CALCULATION - |before|)
    ensures Take([], MAX_LEGS_PER_CALCULATION) == []
    ensures forall bound: nat :: |Take(JobsOf(c, legs[index], force, retry), bound)| <= bound
    ensures forall bound: nat, job :: Take([job], bound) == if bound == 0 then [] else [job]
    ensures forall bound: nat :: Take([], bound) == []
  {
    hide JobsOf;
    assert legs[..index + 1][..index] == legs[..index];
  }

  /** One request calculates the first jobs in order, and no more than its bound. */
  method CalculateLegs(c: Content, legs: seq<Leg>, force: Option<set<Id>>, retry: bool) returns (asked: seq<Job>)
    ensures asked == Take(AllJobs(c, legs, force, retry), MAX_LEGS_PER_CALCULATION)
    ensures |asked| <= MAX_LEGS_PER_CALCULATION
  {
    hide Take;
    hide AllJobs;
    hide LegJob;
    hide PartJobs;
    asked := [];
    var done := 0;
    NoJobs(c, force, retry);
    for index := 0 to |legs|
      invariant |asked| <= MAX_LEGS_PER_CALCULATION
      invariant asked == Take(AllJobs(c, legs[..index], force, retry), MAX_LEGS_PER_CALCULATION)
      invariant done == |asked|
    {
      var leg := legs[index];
      MoreJobs(c, legs, index, force, retry);
      var forced := force.Some? && leg.id in force.value;
      if force.Some? && !forced {
        continue;
      }
      if leg.Composite() {
        var parts := CalculateSegments(c, leg, forced, retry, MAX_LEGS_PER_CALCULATION - done);
        asked := asked + parts;
        done := done + |parts|;
        continue;
      }
      if !WantedLeg(leg, forced, retry) || done >= MAX_LEGS_PER_CALCULATION {
        continue;
      }
      done := done + 1;
      asked := asked + [LegJob(c, leg)];
    }
    assert legs[..|legs|] == legs;
  }

  /** The reason an estimate gives may have passed. */
  predicate MayPass(error: string) {
    error == "provider_disabled" || error == "rate_limited" || error == "daily_limit" || error == "provider_error"
  }

  /** The leg, or one of its parts, is asked about with this job: because it waits, because it was
      named, or because estimates are tried again and it is one whose reason may have passed. A
      chosen route is asked about again only when its leg is named, and once legs are named no
      other leg is asked about. */
  predicate AsksAbout(c: Content, leg: Leg, named: Option<set<Id>>, again: bool, job: Job) {
    && (named.Some? ==> leg.id in named.value)
    && if leg.Composite() then
         exists j :: 0 <= j < |leg.segments| && job == PartJob(c, leg, j)
                     && (named.Some? || leg.segments[j].source == Pending
                         || (again && leg.segments[j].source == Estimate && MayPass(leg.segments[j].error)))
       else
         job == LegJob(c, leg)
         && (named.Some? || (!leg.pinned && (leg.source == Pending
                                             || (again && leg.source == Estimate && MayPass(leg.error)))))
  }

  lemma {:induction false} PartJobsAre(c: Content, leg: Leg, forced: bool, retry: bool, n: nat, job: Job)
    requires n <= |leg.segments|
    ensures job in PartJobs(c, leg, forced, retry, n) <==>
              exists j :: 0 <= j < n && job == PartJob(c, leg, j) && WantedPart(leg.segments[j], forced, retry)
  {
    hide PartJob;
    if n > 0 {
      PartJobsAre(c, leg, forced, retry, n - 1, job);
    }
  }

  lemma JobsOfLeg(c: Content, leg: Leg, named: Option<set<Id>>, again: bool, job: Job)
    ensures job in JobsOf(c, leg, named, again) <==> AsksAbout(c, leg, named, again, job)
  {
    hide PartJobs;
    hide PartJob;
    hide LegJob;
    PartJobsAre(c, leg, named.Some? && leg.id in named.value, again, |leg.segments|, job);
  }

  /** Without its bound a request asks about exactly those legs and parts. */
  lemma {:induction false} JobsAre(c: Content, legs: seq<Leg>, named: Option<set<Id>>, again: bool, job: Job)
    ensures job in AllJobs(c, legs, named, again) <==>
              exists i :: 0 <= i < |legs| && AsksAbout(c, legs[i], named, again, job)
  {
    hide JobsOf;
    hide AsksAbout;
    if legs != [] {
      JobsAre(c, legs[..|legs| - 1], named, again, job);
      JobsOfLeg(c, legs[|legs| - 1], named, again, job);
    }
  }

  /** It asks about the legs in their order: what the first ones want comes before what the others
      do, and the parts of one leg in theirs. */
  lemma {:induction false} JobsInOrder(c: Content, one: seq<Leg>, two: seq<Leg>, named: Option<set<Id>>, again: bool)
    ensures AllJobs(c, one + two, named, again) == AllJobs(c, one, named, again) + AllJobs(c, two, named, again)
  {
    hide JobsOf;
    if two == [] {
      assert one + two == one;
    } else {
      assert (one + two)[..|one + two| - 1] == one + two[..|two| - 1];
      JobsInOrder(c, one, two[..|two| - 1], named, again);
    }
  }

  lemma {:induction false} PartsInOrder(c: Content, leg: Leg, forced: bool, retry: bool, n: nat, a: nat, b: nat)
    requires n <= |leg.segments| && a < b < |PartJobs(c, leg, forced, retry, n)|
    ensures exists j, k :: 0 <= j < k < n && PartJobs(c, leg, forced, retry, n)[a] == PartJob(c, leg, j)
                           && PartJobs(c, leg, forced, retry, n)[b] == PartJob(c, leg, k)
  {
    hide PartJob;
    hide WantedPart;
    var jobs, before := PartJobs(c, leg, forced, retry, n), PartJobs(c, leg, forced, retry, n - 1);
    if b < |before| {
      PartsInOrder(c, leg, forced, retry, n - 1, a, b);
    } else {
      PartJobsAre(c, leg, forced, retry, n - 1, before[a]);
      var j :| 0 <= j < n - 1 && before[a] == PartJob(c, leg, j);
      assert jobs[a] == PartJob(c, leg, j) && jobs[b] == PartJob(c, leg, n - 1);
    }
  }

  lemma {:induction false} FoundItem(items: seq<Item>, item: Item)
    requires DistinctItems(items) && item in items
    ensures ItemById(items, item.id) == Some(item)
  {
    if items[|items| - 1] != item {
      UniqueId(items);
      FoundItem(items[..|items| - 1], item);
    }
  }

  /** In a document in line with its days, a job's answer is stored under the input
      it is an answer to. */
  lemma JobIsCurrent(c: Content, legs: seq<Leg>, i: nat)
    requires DistinctItems(c.items) && DistinctDays(c.days) && Reconciled(c, legs)
    requires i < |legs|
    ensures !legs[i].Composite() ==> Asked(LegJob(c, legs[i])) == legs[i].input
    ensures legs[i].Composite() ==>
              forall j :: 0 <= j < |legs[i].segments| ==> Asked(PartJob(c, legs[i], j)) == legs[i].segments[j].input
  {
    hide Needs;
    hide Input;
    hide FindLeg;
    hide LegStart;
    hide LegEnd;
    assert Needed(legs[i], Needs(c));
    var k :| 0 <= k < |Needs(c)| && Serves(legs[i], Needs(c)[k]);
    var need := Needs(c)[k];
    assert HasLeg(c, legs, need);
    var m :| 0 <= m < |legs| && Serves(legs[m], need) && Current(c, legs[m], need);
    FindsOnly(legs, m, need);
    FindsOnly(legs, i, need);
    NeedItems(c, need);
    FoundItem(c.items, need.from);
    FoundItem(c.items, need.to);
  }

  // ------------------------------------------------------------- carried calculations

  /** The calculated part that went the same way; the last one when there are several. */
  function Calculated(earlier: seq<Segment>, input: string): Option<Segment> {
    if earlier == [] then None
    else
      var last := earlier[|earlier| - 1];
      if last.source != Pending && last.input == input then Some(last) else Calculated(earlier[..|earlier| - 1], input)
  }

  function Carried(segments: seq<Segment>, earlier: seq<Segment>, start: Option<Point>, end: Option<Point>, index: nat)
    : Segment
    requires index < |segments|
  {
    var input := PartInput(segments[index].mode, PartStart(segments, start, index), PartEnd(segments, end, index));
    var waiting := segments[index].(input := input, source := Pending);
    match Calculated(earlier, input)
    case None => waiting
    case Some(previous) =>
      waiting.(distanceM := previous.distanceM, durationS := previous.durationS, geometry := previous.geometry,
               source := previous.source, error := previous.error)
  }

  function AllCarried(segments: seq<Segment>, earlier: seq<Segment>, start: Option<Point>, end: Option<Point>)
    : (r: seq<Segment>)
    ensures |r| == |segments|
    ensures forall i :: 0 <= i < |r| ==> r[i] == Carried(segments, earlier, start, end, i)
  {
    seq(|segments|, i requires 0 <= i < |segments| => Carried(segments, earlier, start, end, i))
  }

  method CarryCalculations(segments: seq<Segment>, earlier: seq<Segment>, start: Option<Point>, end: Option<Point>)
    returns (carried: seq<Segment>)
    ensures carried == AllCarried(segments, earlier, start, end)
  {
    hide Input;
    var byInput: map<string, Segment> := map[];
    for index := 0 to |earlier|
      invariant forall input ::
                  Calculated(earlier[..index], input) == if input in byInput then Some(byInput[input]) else None
    {
      assert earlier[..index + 1][..index] == earlier[..index];
      if earlier[index].source != Pending {
        byInput := byInput[earlier[index].input := earlier[index]];
      }
    }
    assert earlier[..|earlier|] == earlier;
    var starts, ends := SegmentEnds(segments, start, end);
    carried := segments;
    for index := 0 to |segments|
      invariant |carried| == |segments|
      invariant forall i :: 0 <= i < index ==> carried[i] == Carried(segments, earlier, start, end, i)
      invariant forall i :: index <= i < |segments| ==> carried[i] == segments[i]
    {
      var input := PartInput(carried[index].mode, starts[index], ends[index]);
      var segment := carried[index].(input := input, source := Pending);
      if input in byInput {
        var previous := byInput[input];
        segment := segment.(distanceM := previous.distanceM, durationS := previous.durationS,
                            geometry := previous.geometry, source := previous.source, error := previous.error);
      }
      carried := carried[index := segment];
    }
  }

  /** The i-th part is the last calculated one that went the way of an input. */
  predicate SentLast(parts: seq<Segment>, input: string, i: int) {
    && 0 <= i < |parts| && parts[i].source != Pending && parts[i].input == input
    && forall j :: i < j < |parts| ==> parts[j].source == Pending || parts[j].input != input
  }

  lemma {:induction false} CalculatedIs(earlier: seq<Segment>, input: string)
    ensures var found := Calculated(earlier, input);
            if found.Some? then exists i :: SentLast(earlier, input, i) && earlier[i] == found.value
            else forall i :: 0 <= i < |earlier| ==> earlier[i].source == Pending || earlier[i].input != input
  {
    if earlier != [] {
      var front, last := earlier[..|earlier| - 1], |earlier| - 1;
      CalculatedIs(front, input);
      if earlier[last].source != Pending && earlier[last].input == input {
        assert SentLast(earlier, input, last);
      } else if i :| SentLast(front, input, i) && Calculated(front, input) == Some(front[i]) {
        assert SentLast(earlier, input, i);
      }
    }
  }

  /** A carried part waits exactly when no calculated part went the same way, and otherwise
      holds the calculation of the last one that did; all else of it is as it was given. */
  lemma CarriedIs(segments: seq<Segment>, earlier: seq<Segment>, start: Option<Point>, end: Option<Point>, index: nat)
    requires index < |segments|
    ensures var part := Carried(segments, earlier, start, end, index);
            && (part.source == Pending <==>
                  forall i :: 0 <= i < |earlier| ==> earlier[i].source == Pending || earlier[i].input != part.input)
            && (part.source == Pending ==> part == segments[index].(input := part.input, source := Pending))
            && (part.source != Pending ==>
                  && (exists i :: 0 <= i < |earlier| && SentLast(earlier, part.input, i)
                                  && PartCalculation(part) == PartCalculation(earlier[i]))
                  && part.(distanceM := segments[index].distanceM, durationS := segments[index].durationS,
                           geometry := segments[index].geometry, error := segments[index].error,
                           source := segments[index].source)
                     == segments[index].(input := part.input))
  {
    hide Input;
    var part := Carried(segments, earlier, start, end, index);
    CalculatedIs(earlier, part.input);
  }

  lemma CarriedKeeps(segments: seq<Segment>, earlier: seq<Segment>, start: Option<Point>, end: Option<Point>,
                     index: nat)
    requires index < |segments|
    ensures var part := Carried(segments, earlier, start, end, index);
            && part.mode == segments[index].mode && part.Change() == segments[index].Change()
            && part.id == segments[index].id
            && part.input == PartInput(part.mode, PartStart(segments, start, index), PartEnd(segments, end, index))
  {
    hide Input;
  }

  /** Parts whose calculations were carried are not sent back by the reconciliation
      while the ends of their leg are the ones they were carried for. */
  lemma {:induction false} CarriedStays(c: Content, need: Need, segments: seq<Segment>, earlier: seq<Segment>)
    ensures var carried := AllCarried(segments, earlier, NeedStart(c, need), NeedEnd(c, need));
            MovedParts(c, need, carried, |carried|) == []
  {
    hide Input;
    hide LegStart;
    hide LegEnd;
    hide Carried;
    var start, end := NeedStart(c, need), NeedEnd(c, need);
    var carried := AllCarried(segments, earlier, start, end);
    forall i | 0 <= i < |segments|
      ensures carried[i].input == NeedPartInput(c, need, carried, i)
    {
      CarriedKeeps(segments, earlier, start, end, i);
      if i > 0 {
        CarriedKeeps(segments, earlier, start, end, i - 1);
      }
    }
    NoMovedParts(c, need, carried, |carried|);
  }

  // ------------------------------------------------------------- back to one part

  /** A leg travelled one way again takes its only part's mode and typed values, and
      what its tickets cost together. */
  function Collapsed(leg: Leg, segments: seq<Segment>, tickets: seq<Ticket>): Leg {
    var base := if |segments| > 0
                then leg.(mode := segments[0].mode, manualDistanceM := segments[0].manualDistanceM,
                          manualDurationS := segments[0].manualDurationS)
                else leg;
    base.(plannedCost := PlannedOf(tickets, |tickets|), actualCost := ActualOf(tickets, |tickets|), segments := [],
          tickets := [], via := [], preference := Fastest)
  }

  method CollapseLeg(leg: Leg, segments: seq<Segment>, tickets: seq<Ticket>) returns (plain: Leg)
    ensures plain == Collapsed(leg, segments, tickets)
  {
    plain := leg;
    if |segments| > 0 {
      plain := plain.(mode := segments[0].mode, manualDistanceM := segments[0].manualDistanceM,
                      manualDurationS := segments[0].manualDurationS);
    }
    plain := plain.(plannedCost := None, actualCost := None);
    for index := 0 to |tickets|
      invariant plain == Collapsed(leg, segments, tickets).(
                  plannedCost := PlannedOf(tickets, index), actualCost := ActualOf(tickets, index),
                  segments := leg.segments, tickets := leg.tickets, via := leg.via, preference := leg.preference)
    {
      var ticket := tickets[index];
      if ticket.plannedCost.Some? {
        var sum := ticket.plannedCost.value;
        if plain.plannedCost.Some? {
          sum := sum + plain.plannedCost.value;
        }
        plain := plain.(plannedCost := Some(sum));
      }
      if ticket.actualCost.Some? {
        var sum := ticket.actualCost.value;
        if plain.actualCost.Some? {
          sum := sum + plain.actualCost.value;
        }
        plain := plain.(actualCost := Some(sum));
      }
    }
    plain := plain.(segments := [], tickets := [], via := [], preference := Fastest);
  }

  /** Going back to one part keeps the cost the leg showed while it had several. */
  lemma CollapseKeepsCost(leg: Leg, segments: seq<Segment>)
    requires leg.Composite()
    ensures Collapsed(leg, segments, leg.tickets).plannedCost == Folded(leg).plannedCost
    ensures Collapsed(leg, segments, leg.tickets).actualCost == Folded(leg).actualCost
  {
    hide LineOf;
    hide Encoded;
  }

  /** It goes on as its first part did, or as before when there is none, asks for the default way,
      and keeps all it holds but the money. */
  lemma CollapseGoesOn(leg: Leg, segments: seq<Segment>, tickets: seq<Ticket>)
    ensures var plain := Collapsed(leg, segments, tickets);
            && plain.segments == [] && plain.tickets == [] && plain.Route() == LegRoute(Fastest, [])
            && (segments == [] ==> plain.mode == leg.mode && plain.manualDistanceM == leg.manualDistanceM
                                   && plain.manualDurationS == leg.manualDurationS)
            && (segments != [] ==>
                  plain.mode == segments[0].mode && plain.manualDistanceM == segments[0].manualDistanceM
                  && plain.manualDurationS == segments[0].manualDurationS)
            && plain.(mode := leg.mode, manualDistanceM := leg.manualDistanceM, manualDurationS := leg.manualDurationS,
                      plannedCost := leg.plannedCost, actualCost := leg.actualCost, preference := leg.preference,
                      via := leg.via, segments := leg.segments, tickets := leg.tickets) == leg
  {
  }
}
