/**
 The distances above a report and those of its days (BuildReportTotals in
 backend/internal/domain/report.go, ScheduleDay in backend/internal/domain/plan.go): one
 counts the legs and recordings of the document, the other what it reads for each day.
 */
module ReportDays {
  import opened Common
  import opened Document
  import opened LegFold
  import opened LegSync
  import opened LegReaders
  import opened BudgetTotals
  import opened Report
  import opened Schedule

  // ------------------------------------------------------------- legs

  function TotalOf(byMode: map<TravelMode, ModeTotal>, mode: TravelMode): ModeTotal {
    if mode in byMode then byMode[mode] else ModeTotal(0, 0)
  }

  function Metres(parts: seq<PartTravel>, mode: TravelMode): int {
    if parts == [] then 0
    else
      var last := parts[|parts| - 1];
      Metres(parts[..|parts| - 1], mode) + if last.mode == mode then last.distanceM.GetOr(0) else 0
  }

  function Seconds(parts: seq<PartTravel>, mode: TravelMode): int {
    if parts == [] then 0
    else
      var last := parts[|parts| - 1];
      Seconds(parts[..|parts| - 1], mode) + if last.mode == mode then last.durationS.GetOr(0) else 0
  }

  function LegMetres(mode: TravelMode): Leg -> int {
    (leg: Leg) => Metres(Travel(leg), mode)
  }

  function LegSeconds(mode: TravelMode): Leg -> int {
    (leg: Leg) => Seconds(Travel(leg), mode)
  }

  lemma {:induction false} PartsCounted(byMode: map<TravelMode, ModeTotal>, parts: seq<PartTravel>, mode: TravelMode)
    ensures TotalOf(AddParts(byMode, parts), mode)
         == ModeTotal(TotalOf(byMode, mode).distanceM + Metres(parts, mode),
                      TotalOf(byMode, mode).durationS + Seconds(parts, mode))
  {
    if parts != [] {
      PartsCounted(byMode, parts[..|parts| - 1], mode);
    }
  }

  lemma {:induction false} ModesCounted(legs: seq<Leg>, mode: TravelMode)
    ensures TotalOf(LegModes(legs), mode)
         == ModeTotal(SumBy(legs, LegMetres(mode)), SumBy(legs, LegSeconds(mode)))
  {
    hide AddParts;
    hide Travel;
    if legs != [] {
      var front, last := legs[..|legs| - 1], legs[|legs| - 1];
      ModesCounted(front, mode);
      PartsCounted(LegModes(front), Travel(last), mode);
    }
  }

  /** The legs travelled to the first n elements of a day. */
  function LegsTo(plan: DayPlan, n: nat): seq<Leg>
    requires n <= |plan.legs| + 1
  {
    Known(([plan.opening] + plan.legs)[..n])
  }

  lemma {:induction false} DayCountsLegs(plan: DayPlan, n: nat)
    requires n <= |plan.legs| + 1
    ensures plan.ByMode(n) == LegModes(LegsTo(plan, n))
    ensures plan.LegDistance(n) == SumBy(LegsTo(plan, n), LegLengths)
  {
    hide Known;
    hide AddParts;
    hide Travel;
    var legs := [plan.opening] + plan.legs;
    if n > 0 {
      DayCountsLegs(plan, n - 1);
      assert legs[..n][..n - 1] == legs[..n - 1] && legs[n - 1] == plan.LegTo(n - 1);
      KnownLast(legs[..n]);
      OneMoreLeg(LegsTo(plan, n - 1), plan.LegTo(n - 1));
    } else {
      KnownNone();
      assert legs[..0] == [];
    }
  }

  lemma {:induction false} OneMoreLeg(known: seq<Leg>, last: Option<Leg>)
    ensures var more := known + (if last.Some? then [last.value] else []);
            && LegModes(more) == (if last.Some? then AddParts(LegModes(known), Travel(last.value)) else LegModes(known))
            && SumBy(more, LegLengths) == SumBy(known, LegLengths) + (if last.Some? then LegLengths(last.value) else 0)
  {
    hide AddParts;
    hide Travel;
    if last.Some? {
      assert (known + [last.value])[..|known|] == known;
    } else {
      assert known + [] == known;
    }
  }

  /** The distance of the first n days, as their schedules give it. */
  function DaysDistance(c: Content, n: nat, travelers: int): int
    requires n <= |c.days|
  {
    if n == 0 then 0
    else
      var plan := PlanOf(c, n - 1, travelers);
      DaysDistance(c, n - 1, travelers) + plan.Summary(|plan.items|).distanceM
  }

  /** What the first n days cover by one means of travel. */
  function DaysByMode(c: Content, n: nat, travelers: int, mode: TravelMode): ModeTotal
    requires n <= |c.days|
  {
    if n == 0 then ModeTotal(0, 0)
    else
      var before, plan := DaysByMode(c, n - 1, travelers, mode), PlanOf(c, n - 1, travelers);
      var total := TotalOf(plan.Summary(|plan.items|).byMode, mode);
      ModeTotal(before.distanceM + total.distanceM, before.durationS + total.durationS)
  }

  lemma DayIs(c: Content, k: nat, travelers: int, mode: TravelMode)
    requires k < |c.days|
    ensures var plan := PlanOf(c, k, travelers);
            && plan.Summary(|plan.items|).distanceM
               == SumBy(DayReads(c, c.legs, k), LegLengths) + plan.TrackDistance(|plan.items|)
            && TotalOf(plan.Summary(|plan.items|).byMode, mode)
               == ModeTotal(SumBy(DayReads(c, c.legs, k), LegMetres(mode)),
                            SumBy(DayReads(c, c.legs, k), LegSeconds(mode)))
  {
    hide DayItems;
    hide SumBy;
    var plan := PlanOf(c, k, travelers);
    DayLegsAll(plan, c, k, false);
    DayCountsLegs(plan, |plan.items|);
    ModesCounted(DayReads(c, c.legs, k), mode);
  }

  /** What the first n days read of the recordings. */
  function DaysTracks(c: Content, n: nat, travelers: int): int
    requires n <= |c.days|
  {
    if n == 0 then 0
    else
      var plan := PlanOf(c, n - 1, travelers);
      DaysTracks(c, n - 1, travelers) + plan.TrackDistance(|plan.items|)
  }

  lemma {:induction false} DaysAdd(c: Content, n: nat, travelers: int, mode: TravelMode)
    requires n <= |c.days|
    ensures DaysDistance(c, n, travelers) == SumBy(Reads(c, c.legs, n), LegLengths) + DaysTracks(c, n, travelers)
    ensures DaysByMode(c, n, travelers, mode)
         == ModeTotal(SumBy(Reads(c, c.legs, n), LegMetres(mode)), SumBy(Reads(c, c.legs, n), LegSeconds(mode)))
  {
    hide PlanOf;
    hide DayReads;
    hide DayPlan.Summary;
    hide DayPlan.TrackDistance;
    if n > 0 {
      var before, day := Reads(c, c.legs, n - 1), DayReads(c, c.legs, n - 1);
      DaysAdd(c, n - 1, travelers, mode);
      DayIs(c, n - 1, travelers, mode);
      SumByAppend(before, day, LegLengths);
      SumByAppend(before, day, LegMetres(mode));
      SumByAppend(before, day, LegSeconds(mode));
    }
  }

  // ------------------------------------------------------------- recordings

  /** An element has at most one recording. */
  ghost predicate DistinctTracks(tracks: seq<Track>) {
    forall i, j :: 0 <= i < j < |tracks| ==> tracks[i].itemId != tracks[j].itemId
  }

  function Recorded(tracks: seq<Track>, id: Id): int {
    if TrackOfItem(tracks, id).Some? then TrackOfItem(tracks, id).value.distanceM else 0
  }

  /** The recordings of places and activities, on a day or not. */
  function OfVisits(tracks: seq<Track>): Item -> int {
    (item: Item) => if item.kind.IsVisit() then Recorded(tracks, item.id) else 0
  }

  /** The recordings of stay marks, which no schedule counts. */
  function OfMarks(tracks: seq<Track>): Item -> int {
    (item: Item) => if !item.kind.IsVisit() && item.dayId.Some? then Recorded(tracks, item.id) else 0
  }

  function OfDays(tracks: seq<Track>): Item -> int {
    (item: Item) => if item.dayId.Some? then Recorded(tracks, item.id) else 0
  }

  lemma {:induction false} DayRecords(plan: DayPlan, n: nat)
    requires n <= |plan.items|
    ensures plan.TrackDistance(n) == SumBy(plan.items[..n], OfVisits(plan.tracks))
  {
    if n > 0 {
      DayRecords(plan, n - 1);
      assert plan.items[..n][..n - 1] == plan.items[..n - 1];
    } else {
      assert plan.items[..0] == [];
    }
  }

  lemma {:induction false} DaysRecord(c: Content, n: nat, travelers: int)
    requires n <= |c.days|
    ensures DaysTracks(c, n, travelers) == DaysHold(c.items, ItemDay, c.days, n, OfVisits(c.tracks))
  {
    hide DayItems;
    hide SumBy;
    hide On;
    if n > 0 {
      var plan, day := PlanOf(c, n - 1, travelers), Some(c.days[n - 1].id);
      DaysRecord(c, n - 1, travelers);
      DayRecords(plan, |plan.items|);
      assert plan.items[..|plan.items|] == plan.items;
      DayItemsCost(c.items, day, OfVisits(c.tracks));
    }
  }

  /** The recordings of elements on days are those of the visits on days and of the marks. */
  lemma {:induction false} VisitsAndMarks(items: seq<Item>, tracks: seq<Track>)
    ensures SumBy(items, OfDays(tracks))
         == SumBy(items, OfVisits(tracks)) - SumBy(On(items, ItemDay, None), OfVisits(tracks))
            + SumBy(items, OfMarks(tracks))
  {
    hide SumBy;
    hide Recorded;
    if items == [] {
      SumOfNone(OfDays(tracks));
      SumOfNone(OfVisits(tracks));
      SumOfNone(OfMarks(tracks));
    } else {
      VisitsAndMarks(items[1..], tracks);
      OnFirst(items, ItemDay, None, OfVisits(tracks));
      assert [items[0]] + items[1..] == items;
      SumFirst(items[0], items[1..], OfDays(tracks));
      SumFirst(items[0], items[1..], OfVisits(tracks));
      SumFirst(items[0], items[1..], OfMarks(tracks));
    }
  }

  lemma {:induction false} NoRecording(items: seq<Item>)
    ensures SumBy(items, OfDays([])) == 0
  {
    if items != [] {
      NoRecording(items[..|items| - 1]);
    }
  }

  /** One recording counts once, for its element, when that is on a day. */
  lemma {:induction false} OneRecording(items: seq<Item>, first: Track, rest: seq<Track>)
    requires DistinctItems(items) && forall track :: track in rest ==> track.itemId != first.itemId
    ensures SumBy(items, OfDays([first] + rest)) == SumBy(items, OfDays(rest)) + TrackLengths(items)(first)
  {
    if items != [] {
      var front, last := items[..|items| - 1], items[|items| - 1];
      OneRecording(front, first, rest);
      assert ([first] + rest)[1..] == rest;
      if last.id == first.itemId {
        NotRecorded(rest, last.id);
        NotThere(front, last.id);
      }
    }
  }

  lemma {:induction false} NotRecorded(tracks: seq<Track>, id: Id)
    requires forall track :: track in tracks ==> track.itemId != id
    ensures TrackOfItem(tracks, id) == None
  {
    if tracks != [] {
      NotRecorded(tracks[1..], id);
    }
  }

  lemma {:induction false} NotThere(items: seq<Item>, id: Id)
    requires forall item :: item in items ==> item.id != id
    ensures !OnDay(items, id)
  {
    if items != [] {
      NotThere(items[..|items| - 1], id);
    }
  }

  lemma {:induction false} RecordingsAre(items: seq<Item>, tracks: seq<Track>)
    requires DistinctItems(items) && DistinctTracks(tracks)
    ensures SumBy(tracks, TrackLengths(items)) == SumBy(items, OfDays(tracks))
  {
    hide OnDay;
    hide TrackOfItem;
    if tracks == [] {
      NoRecording(items);
    } else {
      RecordingsAre(items, tracks[1..]);
      OneRecording(items, tracks[0], tracks[1..]);
      assert [tracks[0]] + tracks[1..] == tracks;
      SumFirst(tracks[0], tracks[1..], TrackLengths(items));
    }
  }

  // ------------------------------------------------------------- the report and its days

  /** The distance above a report in line with its days is what the schedules of the days add up
      to, and what was recorded at stay marks; by every means of travel the two are equal. */
  lemma {:induction false} ReportIsItsDays(c: Content, travelers: int, mode: TravelMode)
    requires DistinctItems(c.items) && DistinctDays(c.days) && DistinctLegs(c.legs) && Reconciled(c, c.legs)
    requires DistinctTracks(c.tracks)
    requires forall item :: item in c.items && item.dayId.Some? ==> OneOf(c.days, |c.days|, item.dayId)
    ensures SumBy(c.legs, LegLengths) + SumBy(c.tracks, TrackLengths(c.items))
         == DaysDistance(c, |c.days|, travelers) + SumBy(c.items, OfMarks(c.tracks))
    ensures TotalOf(LegModes(c.legs), mode) == DaysByMode(c, |c.days|, travelers, mode)
  {
    hide Reconciled;
    hide SumBy;
    hide On;
    hide OneOf;
    hide DaysHold;
    hide LegModes;
    hide DaysDistance;
    hide DaysByMode;
    hide DaysTracks;
    var n, handed := |c.days|, Reads(c, c.legs, |c.days|);
    EachLegOnce(c, c.legs);
    SumByPermuted(handed, c.legs, LegLengths);
    SumByPermuted(handed, c.legs, LegMetres(mode));
    SumByPermuted(handed, c.legs, LegSeconds(mode));
    DaysAdd(c, n, travelers, mode);
    ModesCounted(c.legs, mode);
    DaysRecord(c, n, travelers);
    DaysHoldAll(c.items, ItemDay, c.days, OfVisits(c.tracks));
    VisitsAndMarks(c.items, c.tracks);
    RecordingsAre(c.items, c.tracks);
  }
}
