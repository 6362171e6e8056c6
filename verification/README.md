# Tripvault, proved

Tripvault plans journeys: a trip holds a document of days, places, stays, legs and costs, shared
by the people who travel. Much of it is computation with a stated guarantee, and a few parts are
protocols between requests that run at the same time. This project models those parts and proves
what they promise, for every document, every archive and every run.

* **Encoded lines** (`Polyline`): the line codec at the level of bits, its round trip, and what is
  left of a line that was cut. Coordinates are whole numbers of 1e-5 degrees, in 64-bit words.
* **Private places** (`Privacy`): hiding circles around homes from everything that is shared.
  Whether a circle contains a point, and how far apart two points are, is left open.
* **Legs** (`LegInput`, `Reconcile`, `LegSync`, `LegFixpoint`, `LegPlans`, `LegReaders`, `LegJobs`,
  `LegFold`): bringing the legs of a document in line with its days, who reads which leg, folding legs with
  changes, and what is calculated next.
* **Runs** (`LegRuns`, `LegProgress`, `LegMoves`, `LegChoice`, `LegCopies`, `LegCopyRun`):
  calculations that are made outside any transaction and saved only if the leg's input has not
  changed, as a state machine over those steps; chosen routes; and reports copied from plans.
* **A day** (`Document`, `Schedule`, `StayMarks`, `TripSync`, `VisitOrder`): its elements in order,
  its timetable, its stay marks and the order places were reached in.
* **Money** (`Split`, `Budget`, `BudgetTotals`, `BudgetCategories`, `BudgetSources`, `Report`,
  `ReportDays`): sharing cents, settling debts, and totals of one document that are added up in
  different ways.
* **Packing lists** (`Packing`): adding templates without adding anything twice.
* **Sessions** (`Sessions`, `SessionRuns`, `SessionTraces`): one-time refresh tokens with replay
  detection (section 4.14 of RFC 9700). `SessionRuns` interleaves the statements of any number of
  calls, and `SessionTraces` says what that makes of each session.
* **Limits** (`RateLimiter`): requests per day and per minute, with reservations.
* **Links** (`GoogleLink`, `GoogleLoop`, `GoogleRoute`): the tree inside a directions link, when
  reading it ends, and the route in it.
* **Backups** (`Paths`, `Archive`, `ArchiveWriter`, `Restore`): what an archive holds, what is asked
  of one, and the staged restore with its cut-over and rollback.

Objects whose methods update fields are classes (`Budget`, `SessionStore`, `Service`, `Instance` and
the two stages); loops are methods with invariants, proved against functions of the document; what
the system promises is then proved of those functions. What a document has to satisfy is written as
a precondition: identifiers of items, days, legs and parts are unique and new ones are new
(`DistinctItems`, `DistinctDays`, `DistinctLegs`, `DistinctParts`, `Fresh`).

Five promises hold only under a condition, which is given exactly, both ways:

* A route a person chose is stored with the leg's input as it was when the leg was read, but is
  checked against ends that are read later. If the leg is still there then and its input is another
  one, a run exists that puts the ends back and leaves the route stored as current for ends it was
  never checked against; otherwise none does in which no other route was chosen out of place
  (`LegChoice.ChoiceGoesStale`).
* A report is made with what its plan's legs show, under the inputs they are stored under. A leg
  with changes brings the figures of its parts along as its own; if they do not wait, were never
  the answer to the leg's input, and that input is of the default way, the report's leg can be made
  plain again and shows them as that answer, and no recalculation is due. In any other report
  nothing ever goes stale that way (`LegCopies.ReportGoesStale`).
* The usage table counts whole hours, so the 24 hours of the daily limit are between 23 and 24
  (`RateLimiter.HourlyDay`); its own documentation speaks of the last 24 hours. Over those the limit
  holds if and only if the requests the table misses fit into the room it leaves
  (`RateLimiter.TrueDay`).
* A failed restore leaves the old database and the old media in use, unless the switch of the media
  failed and could not be undone (`Restore.Stuck`); what it staged is left behind where removing it
  failed or it is taken to be in use (`Restore.LeavesSchema`, `Restore.LeavesTree`).
* The entries of a link are read to the end or refused, unless the first message whose count leads
  back to itself or before it is met again for ever, or leads to before the first entry
  (`GoogleLoop.Decided`). A negative count is not refused as such, and `!1m-1` is such a link.

An equal split of a negative cost would lose up to a cent per member, since division drops the
fraction towards zero; amounts that are entered are never negative.

`dafny verify dfyconfig.toml` checks the whole project.

## Model

| member | source | states |
|---|---|---|
| `Polyline.EncodeValue` | backend/internal/domain/polyline.go:27-36 | the characters it appends for a signed 64-bit number are the zig-zagged number in groups of five bits, lowest first, every group but the last marked |
| `Polyline.EncodePolyline` | backend/internal/domain/polyline.go:21-43 | the line holds, for every point, the two numbers of its difference to the point before, the first measured from the origin |
| `Polyline.DecodeValue` | backend/internal/domain/polyline.go:89-104 | for any characters at all: the number read and how many characters it took, or nothing read when the line ends inside a number; it never reads past the end |
| `Polyline.DecodePolyline` | backend/internal/domain/polyline.go:59-85 | terminates on every string and yields exactly the points whose two numbers are complete |
| `Polyline.BitOrIsSum` | backend/internal/domain/polyline.go:95-97 | or-ing a group into the bits already read adds it, because the groups do not overlap |
| `Polyline.NumberRoundTrip` | backend/internal/domain/polyline.go:27-104 | what one number wrote is read back exactly, and exactly its own characters are consumed, whatever follows them |
| `Polyline.RoundTrip` | backend/internal/domain/polyline.go:8-85 | decoding the encoding of any list of points of the 1e-5 degree grid gives the list back |
| `Polyline.CutFrom` | backend/internal/domain/polyline.go:59-85 | cutting any string anywhere decodes to a beginning of the points of the whole string |
| `Polyline.CutLine` | backend/internal/domain/polyline.go:59-85 | a stored line that lost its end still draws a beginning of the points it was made from |
| `Polyline.WritesTheFormat` | backend/internal/domain/polyline.go:21-43 | the line of two points is the very text the format's documentation gives for them: latitude first, low groups first, 63 characters up, differences to the point before |
| `Document.ListDayItems` | backend/internal/domain/plan.go:176-203 | a day lists its morning mark, its places in stable order of position, and its evening mark; the last mark of a kind wins |
| `Document.DayItemsInOrder` | backend/internal/domain/plan.go:176-203 | a day is its last morning mark, its places and its last evening mark; the places are in order of position, and those of one position in the order they were entered in |
| `Document.DayItemsMembers` | backend/internal/domain/plan.go:176-203 | only elements of the day are listed, and every place of the day is |
| `Document.DayItemsDistinct` | backend/internal/domain/plan.go:176-203 | no element is listed twice |
| `Document.SegmentEnds` | backend/internal/domain/legsegment.go:131-145 | each part of a leg with changes starts where the part before it ends, the first at the leg's start and the last at its end |
| `Document.JourneyEnds` | backend/internal/domain/leg.go:264-309 | a journey sets out where the recording of an element ends and arrives where the next one begins; an element without a line counts with its own position, a stay mark with its stay's, and one without a position is nowhere |
| `Privacy.PrivacyZones.Points` | backend/internal/domain/privacy.go:157-165 | keeps exactly the points outside every circle, in order |
| `Privacy.PrivacyZones.Line` | backend/internal/domain/privacy.go:141-154 | trims an encoded line by decoding, filtering and encoding it again, and returns it untouched when nothing is dropped or there is nothing to drop |
| `Privacy.PrivacyZones.TrimmedLine` | backend/internal/domain/privacy.go:141-154 | trimming commutes with the codec: the trimmed line decodes to exactly the shown points, is the same string when none is hidden, is empty when fewer than two remain, and draws no hidden point |
| `Privacy.TrimmedByBoth` | backend/internal/domain/privacy.go:141-165 | trimming by one set of circles and then by another is trimming by both at once, on the encoded strings |
| `Privacy.BothShown` | backend/internal/domain/privacy.go:98-165 | filtering points by two sets of circles one after the other is filtering by both |
| `Privacy.PrivacyZones.Stops` | backend/internal/domain/privacy.go:250-268 | hidden stops move to the first of the nearest points of the shown line, or go when the line is empty |
| `Privacy.PrivacyZones.StopsAt` | backend/internal/domain/privacy.go:250-268 | with a line to sit on every stop is kept in order, shown ones unchanged and hidden ones at the first of the nearest points of the line; without one exactly the shown stops are kept |
| `Privacy.PrivacyZones.HideContent` | backend/internal/domain/privacy.go:195-246 | the loops that overwrite items, stays, transfers, legs, parts and tracks compute the shown content |
| `Privacy.PrivacyZones.TellsNothing` | backend/internal/domain/privacy.go:182-246 | two documents that differ only inside the circles are shown alike: in position, address and map reference of hidden elements, in position and address of hidden stays and of each hidden end of a transfer, in hidden changes, via points and points of lines |
| `Privacy.PrivacyZones.StillShows` | backend/internal/domain/privacy.go:182-246 | whatever is not hidden is shown as it was, each end of a transfer for itself; what is hidden loses position, address and map reference and keeps all else; times, distances and costs are always shown |
| `Privacy.PrivacyZones.Hidden` | backend/internal/domain/privacy.go:182-246 | whatever the content held, nothing shown of it - item, stay, transfer end, via, line point, change or stop - lies inside a circle |
| `Privacy.PrivacyZones.Idempotent` | backend/internal/domain/privacy.go:195-268 | hiding twice hides nothing more, and content is shown as it is if and only if nothing of it lies inside a circle |
| `LegInput.Unambiguous` | backend/internal/domain/leg.go:327-349 | two inputs are equal if and only if mode and both ends are equal and, for modes that follow roads only, the preference (none read as fastest) and the via points are |
| `LegInput.DefaultRoutedIs` | backend/internal/domain/leg.go:327-349 | an input has three fields, and no more, if and only if its leg asks for no way of routing, and then it is the input of the default way |
| `LegInput.WrittenAs` | backend/internal/domain/leg.go:327-349 | the text itself: mode, start and end, and for modes that follow roads the preference other than the fastest and the via points |
| `LegInput.FixedWritten` | backend/internal/domain/leg.go:328-333 | a coordinate is written as the decimal number it is, with five digits after the point |
| `LegInput.PointWritten` | backend/internal/domain/leg.go:328-333 | latitude before longitude, and a question mark for an end that is not known |
| `LegInput.OnlyRoads` | backend/internal/domain/leg.go:335-341 | a preference changes the input on foot, by bike, car, transit and bus, and by no other mode |
| `Reconcile.ReconcileLegs` | backend/internal/domain/leg.go:387-463 | the loops over days and legs compute the plan: which pairs need a leg, which leg each keeps, what is created, reset and deleted, and which parts are reset |
| `LegSync.NeedsAre` | backend/internal/domain/leg.go:441-462 | no pair is needed twice and no element is reached from two others |
| `LegSync.NothingToDo` | backend/internal/domain/leg.go:387-463 | the plan is empty if and only if every needed pair has exactly one leg, owned by its day and keyed by its present ends, and there is no other leg |
| `LegPlans.NewLegsGoOn` | backend/internal/domain/leg.go:377-438 | every leg the plan creates has the mode of the last existing leg from the same element; with no such leg it has the default mode of its day, or goes by car when the day has none; nothing else is known of it yet |
| `LegPlans.LegsGoOn` | backend/internal/storage/postgres/documents.go:613-671 | every leg there is afterwards is new, or was there before and keeps mode, routing, typed values, money and parts; it and each of its parts is as it was if its input is, and waits with nothing calculated or chosen otherwise |
| `LegFixpoint.SyncReconciles` | backend/internal/storage/postgres/documents.go:613-671 | after the plan is written to the stored legs and they are read again, folded, every needed pair has exactly one current leg and no other leg is left: legs of wrong days, duplicates and composite legs included |
| `LegFixpoint.Fixpoint` | backend/internal/domain/leg.go:387-463 | reconciling the legs a plan was applied to finds nothing to create, reset or delete and no part to reset |
| `LegFixpoint.FoldKeepsIdentity` | backend/internal/domain/legsegment.go:247-317 | folding a leg changes neither its identity nor its ends, its day, its input or its parts, and leaves a leg without changes alone |
| `LegReaders.OpeningLeg` | backend/internal/domain/leg.go:474-484 | the first leg that reaches the day's first element, none for a day without elements |
| `LegReaders.OpeningIsFirst` | backend/internal/domain/leg.go:474-484 | that leg is the first that reaches the element, and none is returned only when none reaches it |
| `LegReaders.DayLegs` | backend/internal/domain/leg.go:495-508 | the slots hold, for every two neighbours, the last leg joining them |
| `LegReaders.SlotsAre` | backend/internal/domain/leg.go:495-508 | each slot holds the last leg from its element to the next, and is empty only when there is none |
| `LegReaders.ReadersComplete` | backend/internal/domain/leg.go:465-508 | in a document in line no slot of a day is empty, and there is no opening leg exactly for a day without elements, a day that opens with a morning mark, and the first day that has elements |
| `LegReaders.EachLegOnce` | backend/internal/domain/leg.go:465-508 | the two readers over all days hand out every leg of the document exactly once, and nothing else |
| `LegReaders.NeedItems` | backend/internal/domain/leg.go:441-462 | every needed pair joins two elements of the document |
| `LegJobs.CalculateSegments` | backend/internal/httpapi/legsegments.go:303-326 | one request asks for the first waiting parts in order, within the budget it is given |
| `LegJobs.CalculateLegs` | backend/internal/httpapi/legs.go:29-78 | one request asks for exactly the first jobs in order, never more than 25, parts of composite legs counted one by one |
| `LegJobs.JobsAre` | backend/internal/httpapi/legs.go:46-69 | without its bound a request asks about exactly the legs and parts that wait, were named, or are estimates to be tried again whose reason may have passed; a chosen route only when its leg is named, and other legs only when none is named |
| `LegJobs.JobsInOrder` | backend/internal/httpapi/legs.go:46-78 | it asks about the legs in their order |
| `LegJobs.PartsInOrder` | backend/internal/httpapi/legsegments.go:303-326 | and about the parts of a leg in theirs |
| `LegJobs.JobIsCurrent` | backend/internal/httpapi/legs.go:29-78 | in a document in line, a leg or part is calculated for exactly the input its answer will be stored under |
| `LegJobs.CarryCalculations` | backend/internal/httpapi/legsegments.go:173-191 | the loops that overwrite parts in place compute each part with its input and the calculation carried over |
| `LegJobs.CarriedIs` | backend/internal/httpapi/legsegments.go:161-191 | a carried part waits if and only if no earlier part with the same input was calculated; otherwise it has the calculation of the last such part; all else of it is as it was given |
| `LegJobs.CarriedStays` | backend/internal/httpapi/legsegments.go:173-191 | parts prepared this way are never reset when the legs are reconciled |
| `LegJobs.CollapseLeg` | backend/internal/httpapi/legsegments.go:196-221 | a leg reduced to one part takes over that part's mode, typed values and the money of its tickets |
| `LegJobs.CollapseKeepsCost` | backend/internal/httpapi/legsegments.go:196-221 | collapsing a composite leg keeps what it costs |
| `LegJobs.CollapseGoesOn` | backend/internal/httpapi/legsegments.go:196-221 | it goes on as its first part did, or as before when there is none, asks for the default way, and keeps all else but the money |
| `LegRuns.StepKeeps` | backend/internal/httpapi/legs.go:29-78 | every step - an edit with its reconciliation, new parts, a leg read in two statements, a calculation started from a snapshot, a chosen route, a late save - keeps the legs in line and everything saved or under way answered for the input it is filed under |
| `LegRuns.RunKeeps` | backend/internal/httpapi/legs.go:29-78 | so does every run of steps, in any interleaving |
| `LegRuns.NeverStale` | backend/internal/storage/postgres/documents.go:1440-1460 | in every run that begins with an empty document, or with a report to which no misfiled leg came, and whose chosen routes were checked while their leg still had the input it was read with, or was gone, a leg or part that does not wait holds a result computed for its current mode, ends and routing, changes from one place to another and back included |
| `LegProgress.RoundsTake` | backend/internal/httpapi/legs.go:29-78 | with nothing in between and a provider that answers, every request takes the first 25 waiting jobs off the list and adds none |
| `LegProgress.Finishes` | backend/internal/httpapi/legs.go:20-78 | so requests leave no leg and no part waiting if and only if there were as many as batches of 25 jobs; no leg is ever held back by a chosen route |
| `LegMoves.NeedsSame` | backend/internal/domain/leg.go:441-462 | moving or renaming elements without reordering them leaves the days needing the same pairs |
| `LegMoves.TwoEnds` | backend/internal/domain/leg.go:441-462 | no needed pair joins an element to itself |
| `LegMoves.Survives` | backend/internal/storage/postgres/documents.go:613-671 | the leg of a pair that is needed, and has no other leg, is never deleted by bringing the legs in line |
| `LegChoice.ChoiceGoesStale` | backend/internal/httpapi/legs.go:364-432 | for every state such runs keep to and where no route was sent out of place, and every route that passes the checks and is no answer to the leg's input already: some run from there, in which every other chosen route is in place, ends with a stale calculation if and only if the leg is still there and its input, when its ends are read, is not the one it was read with |
| `LegChoice.WayBack` | backend/internal/httpapi/legs.go:391-432 | in that case such a run is made: the leg asked to be routed as it was and its ends put back, the route is stored and the leg holds it under ends it was never checked against |
| `LegChoice.NowhereInLine` | backend/internal/storage/postgres/documents.go:613-671 | an empty document is a state the runs may begin with |
| `LegChoice.StaleChoice` | backend/internal/httpapi/legs.go:355-432 | so from an empty document a run of allowed steps ends with a leg that starts at home and holds a route, accepted within the tolerance, whose line starts more than a hundred kilometres away |
| `LegCopies.CopyLegs` | backend/internal/storage/postgres/report.go:288-340 | the loop writes a row for every leg whose day and ends were copied, with the figures the leg shows and under the input it is stored under |
| `LegCopies.CopiesTell` | backend/internal/storage/postgres/report.go:288-340 | every leg whose day and ends came is copied once, in order, and no other; a copy joins the copies of its ends on the copy of its day, shows what the leg shows and has cost nothing yet; a leg with changes brings its parts, each with the copy of its ticket |
| `LegCopies.InsertLegParts` | backend/internal/storage/postgres/legsegments.go:141-192 | the parts and tickets are written under new identifiers, each part with the copy of its ticket |
| `LegCopies.ReportKeeps` | backend/internal/storage/postgres/report.go:284-340 | a report to which no misfiled leg comes - a leg with changes whose folded figures do not wait and are no answer to its own input, one of the default way - is a state the runs may begin with |
| `LegCopies.ReportGoesStale` | backend/internal/storage/postgres/report.go:284-340 | a report, whatever was copied into it, comes to hold a stale calculation in some run whose chosen routes are all in place if and only if a misfiled leg of the plan is kept in it |
| `LegCopies.PlanGoesStale` | backend/internal/storage/postgres/report.go:75-127 | a report of the whole plan does so if and only if the plan has a misfiled leg |
| `LegCopies.InDaysAre` | backend/internal/storage/postgres/report.go:176-208 | a report of the whole plan takes the elements that are on one of its days, in order |
| `LegCopies.ReportRun` | backend/internal/httpapi/legsegments.go:193-260 | in that case such a run is made: the leg's ends are put where its own input has them and it is given one part that is travelled as that input says; it then shows the figures of all its parts as the provider's answer |
| `LegCopyRun.StaleReport` | backend/internal/storage/postgres/report.go:284-340 | so from an empty document a run makes a leg by car, has it travelled by train and on foot and calculated; copied into a report and travelled by car again it does not wait, and shows the train's and the walk's distance and time |
| `LegFold.Fold` | backend/internal/domain/legsegment.go:255-317 | the loops over parts and tickets compute the folded leg |
| `LegFold.FoldKeepsDistance` | backend/internal/domain/legsegment.go:255-354 | a folded leg's distance is the sum of the known distances of its ways of travelling, unknown only when none is known |
| `LegFold.FoldKeepsDuration` | backend/internal/domain/legsegment.go:255-354 | its duration is the sum of its parts' plus the waits at the changes, and unknown if and only if a part's is |
| `LegFold.FoldKeepsState` | backend/internal/domain/legsegment.go:255-317 | all five states from those of the parts: it waits if and only if a part does; otherwise it misses coordinates if and only if a part does whose time is not known; otherwise it is an estimate if and only if a part is; it comes from the provider if and only if every part does, and is a straight line in every other case |
| `LegFold.FoldKeepsRest` | backend/internal/domain/legsegment.go:255-317 | it sets out by its first part's mode, gives the reason of the first estimate that has one, costs what its tickets cost together, unknown while none is known, and has nothing typed in, chosen or asked for of its own |
| `LegFold.FoldKeepsLine` | backend/internal/domain/legsegment.go:255-317 | its line decodes to the parts' lines one after the other when they have two or more points, and is empty otherwise |
| `LegFold.FoldTwice` | backend/internal/domain/legsegment.go:16-20 | folding is idempotent and keeps parts, tickets and input |
| `LegFold.DistanceByPart` | backend/internal/domain/legsegment.go:340-354 | any leg as it is read has the distance its ways of travelling add up to |
| `LegFold.TravelIs` | backend/internal/domain/legsegment.go:340-354 | a leg is travelled its own way, or part by part each its own way, and what was typed in counts before what was calculated |
| `Schedule.ScheduleDay` | backend/internal/domain/plan.go:273-341 | the loop over a day's elements computes every arrival, departure and lateness and the day's totals |
| `Schedule.ScheduleFeasible` | backend/internal/domain/plan.go:243-341 | the schedule can be kept: it respects the start, every journey, every visit and every desired time |
| `Schedule.EarliestTimetable` | backend/internal/domain/plan.go:243-341 | no timetable that can be kept reaches or leaves any element earlier |
| `Schedule.LateIsUnavoidable` | backend/internal/domain/plan.go:319-323 | a place is late if and only if no timetable that can be kept reaches it by the time it is wanted |
| `Schedule.StartingLater` | backend/internal/domain/plan.go:273-341 | starting some minutes later delays every arrival and departure by at least nothing and at most those minutes |
| `Schedule.DayLength` | backend/internal/domain/plan.go:273-341 | a day lasts exactly its travel, its visits and its waiting |
| `Schedule.RoundingDrift` | backend/internal/domain/plan.go:296-299 | rounding each leg to minutes drifts from the seconds, typed or else calculated, by at most half a minute for each leg that has a time |
| `Schedule.UnknownTravelIs` | backend/internal/domain/plan.go:291-304 | the travel of a day is marked as not fully known if and only if the leg into the day or one between its elements is there without a time, typed or calculated |
| `Schedule.DistanceIsByMode` | backend/internal/domain/plan.go:291-312 | a day's distance is what its modes cover plus what its recordings add |
| `Split.ShareAmounts` | backend/internal/domain/split.go:153-180 | each member's share of a cost |
| `Split.EqualSplitIsExact` | backend/internal/domain/split.go:141-180 | an equal split has parts at most one cent apart, larger ones first, and adds up to the cost if and only if the cost is not negative or divides evenly |
| `Split.CheckCostSplit` | backend/internal/domain/split.go:122-139 | which of the three refusals a split meets, each exactly when it applies |
| `Split.CheckedSplitIsExact` | backend/internal/domain/split.go:107-180 | a split that was accepted shares out exactly the cost |
| `Split.SharedAmount` | backend/internal/domain/split.go:100-106 | what an accepted split shares out is what was spent in a report once that is known, and what was planned otherwise, times the travellers when it is per person |
| `Split.OneMoreItem` | backend/internal/domain/split.go:220-235 | one more item changes nobody's account when it is a stay mark, on no day, paid by nobody or not split; otherwise whoever paid is credited with all of it, every member sharing it is charged their agreed amount or an equal part up to a cent, and nobody else anything |
| `Split.SumBalances` | backend/internal/domain/split.go:220-235 | every member's balance is what they paid and what they owe over all shared costs, and the nets add up to nothing |
| `Split.Settle` | backend/internal/domain/split.go:247-286 | every payment is positive and goes from somebody who owes to somebody who is owed; the payments square every account; there are at most creditors plus debtors less one; the first joins the largest debt and the largest credit |
| `Split.BuildBalances` | backend/internal/domain/split.go:220-243 | after the payments everybody has spent exactly their own share |
| `Budget.Budget.AddEntry` | backend/internal/domain/budget.go:422-438 | a cost reaches the plan, its category and its day, or only the unassigned total; after it every total is again what the listed entries come to |
| `Budget.Budget.AddDay` | backend/internal/domain/budget.go:188-216 | a day lists its places with their stops, the legs read for it and its own expenses, and its total is theirs |
| `Budget.BuildBudget` | backend/internal/domain/budget.go:161-269 | the list is the whole document in order, every total is what the listed entries come to, and every day, the stays, the transfers and the untied expenses have theirs |
| `BudgetSources.EntriesStand` | backend/internal/domain/budget.go:297-420 | every line is the line of one place, stop, stay, transfer, leg or expense of the document: it names it, has its day and its category - accommodation for stays, transport for transfers and legs - and tells what one pays and what the group pays; a plan tells nothing spent |
| `BudgetSources.PlacesShown` | backend/internal/domain/budget.go:188-269 | every place, activity and stop with a cost has a line, on a day or waiting for one |
| `BudgetSources.OthersShown` | backend/internal/domain/budget.go:205-262 | so has every leg read for a day, every stay and every transfer, and every expense of a day or of the whole trip |
| `BudgetSources.EntriesInOrder` | backend/internal/domain/budget.go:161-269 | the lines stand day by day, on each day places with their stops before legs before expenses, then stays, transfers, expenses of the whole trip, and last what waits for a day |
| `BudgetTotals.PlannedAndUnassigned` | backend/internal/domain/budget.go:100-117 | what is planned and what waits for a day make up the amounts of the whole list |
| `BudgetTotals.CategoriesSplit` | backend/internal/domain/budget.go:430-433 | the categories add up to the total, up to the costs of no known category |
| `BudgetCategories.CategoryIs` | backend/internal/domain/budget.go:297-438 | from the document and not from the list: a category comes to the places on days and the stops along their lines that cost in it, its expenses, and all stays if it is accommodation, all transfers and all legs read if it is transport |
| `BudgetCategories.JourneysAre` | backend/internal/domain/budget.go:161-269 | and for a document in line with its days those legs are all its legs |
| `BudgetTotals.TotalIsItsParts` | backend/internal/domain/budget.go:103-112 | everything planned, and everything spent, belongs to exactly one day, to the stays, to the transfers or to the untied expenses |
| `BudgetTotals.BudgetDayIsSchedule` | backend/internal/httpapi/documents.go:508-517 | a day of the budget comes to what the plan shows it to cost - its schedule and its own expenses - plus what stops on the lines of stay marks cost |
| `BudgetTotals.BudgetDayAgrees` | backend/internal/httpapi/documents.go:508-517 | so the two agree on every day of a document whose stay marks carry no such stops |
| `Report.BuildReportTotals` | backend/internal/domain/report.go:62-149 | the loops compute distance, distance by mode, planned and actual cost and their difference |
| `Report.DistanceIsByMode` | backend/internal/domain/report.go:101-128 | the distances by means of travel add up to the distance of the legs |
| `ReportDays.ReportIsItsDays` | backend/internal/domain/report.go:62-149 | for a report in line with its days the distance above it is what the schedules of its days add up to and what was recorded at stay marks, and the distance and time by every means of travel are exactly those of the days |
| `Report.BudgetAgreesWithReport` | backend/internal/domain/report.go:62-149 | for a report in line with its days the budget and the figures above the report agree, on what was planned and on what was spent |
| `VisitOrder.OrderByActualTime` | backend/internal/domain/document.go:703-723 | the loops that sort and fill slots compute the new order |
| `VisitOrder.OrderIsByTime` | backend/internal/domain/document.go:693-723 | the order holds the same places, leaves those without a time where they were, and has the others sorted by time with equal times in their old order |
| `StayMarks.AnchorAssignments` | backend/internal/domain/plan.go:57-76 | which marks there should be, and of which stay |
| `StayMarks.AssignedIs` | backend/internal/domain/plan.go:44-76 | a day carries exactly the marks it should and nothing else is marked |
| `StayMarks.Nights` | backend/internal/domain/plan.go:108-130 | one night for each date from the first to the day before the last, with every stay that covers it |
| `StayMarks.NightHolds` | backend/internal/domain/document.go:432-441 | the stays of a night are, in order, exactly those checked into on its date or before and out of after it |
| `StayMarks.MarksFollowNights` | backend/internal/domain/plan.go:44-130 | an evening is marked with the first stay of its night and a morning with the first stay of the night before; a night nothing covers marks neither, and where no day of its date is spent without a stay an evening that may be marked stays unmarked if and only if the night is one to warn about |
| `StayMarks.MorningAfter` | backend/internal/domain/plan.go:44-76 | the evening mark of a day and the morning mark of the next are never of different stays |
| `StayMarks.StaysInOrder` | backend/internal/domain/plan.go:18-29 | overlapping stays are decided by check-in date and then by identifier |
| `StayMarks.SyncAnchors` | backend/internal/storage/postgres/documents.go:554-602 | afterwards every wanted mark exists once with its stay and no other mark does, whatever was there before; a mark that stays keeps all but its stay, a new one holds nothing else; nothing else is touched, and marks already in line are left alone |
| `TripSync.SyncTrip` | backend/internal/storage/postgres/documents.go:604-671 | brought in line together, marks and then legs, both are in line whatever there was before, and doing it again changes nothing at all |
| `Packing.Merge` | backend/internal/domain/packing.go:238-274 | the nested loops compute the categories and things an addition creates |
| `Packing.OneAfterTheOther` | backend/internal/domain/packing.go:238-274 | adding two lists of sections at once is adding one and then the other |
| `Packing.NothingNew` | backend/internal/domain/packing.go:226-274 | a section adds nothing if and only if the list holds its category and all of its things already |
| `Packing.TwiceAddsNothing` | backend/internal/domain/packing.go:226-274 | adding a template again adds nothing, even with new identifiers and names written in another case |
| `Packing.NewRowsFit` | backend/internal/domain/packing.go:226-274 | nothing new repeats a name within its category or a category, each new thing comes after all its category holds, and a new category takes the next place and a colour |
| `Packing.ListExtends` | backend/internal/domain/packing.go:238-274 | nothing in the list is changed or moved |
| `Packing.NewRowsCome` | backend/internal/domain/packing.go:238-274 | every new thing is one of a section's, in the category of that section's name and its trip, right behind what the category held last; every new category is a section's, with its own colour or else that of its place |
| `Sessions.SessionStore.Rotate` | backend/internal/storage/postgres/sessions.go:123-137 | replaces the token only of a live session that still holds the old one, which it remembers, with a new expiry, and says whether it did; otherwise changes nothing |
| `Sessions.SessionStore.Revoke` | backend/internal/storage/postgres/sessions.go:152-163 | ends only a live session of that account, says whether it did, and changes nothing otherwise |
| `Sessions.Service.Login` | backend/internal/auth/service.go:212-233 | adds a session under its own token |
| `Sessions.Service.Refresh` | backend/internal/auth/service.go:252-286 | undisturbed, it exchanges the current token of a live session of an active account, treats a token no session holds as a replay, and otherwise changes nothing |
| `Sessions.Service.Replayed` | backend/internal/auth/service.go:304-320 | undisturbed, it ends the session that exchanged the token last if and only if that session is live and did so at least 30 seconds ago |
| `Sessions.Service.Logout` | backend/internal/auth/service.go:333-346 | ends the session of the token; a token nobody holds changes nothing |
| `SessionRuns.Initially` | backend/internal/auth/service.go:24-30 | without sessions and calls the invariant of the runs holds |
| `SessionRuns.StepKeeps` | backend/internal/auth/service.go:252-346 | every statement of every call, in any interleaving, keeps sessions under their own identifiers with one token each, tokens exchanged at most once and snapshots true to history |
| `SessionRuns.OneWinPerToken` | backend/internal/auth/service.go:24-30 | of all refreshes of one token, however they interleave, at most one succeeds |
| `SessionRuns.ExchangedOpensNothing` | backend/internal/auth/service.go:235-252 | a token that was exchanged opens no session in any later state |
| `SessionRuns.EndedStaysEnded` | backend/internal/auth/service.go:252-286 | a session that ended is never refreshed again and its row never changes until it is removed |
| `SessionRuns.ReplayEndsTheSession` | backend/internal/auth/service.go:288-320 | whenever a replay was answered by ending a session, that session had exchanged the presented token at least 30 seconds before, and it stays ended |
| `SessionRuns.ReplayChangesOnlyThat` | backend/internal/auth/service.go:304-320 | no step of a replay changes anything but by ending the session that exchanged the presented token at least 30 seconds before |
| `SessionRuns.UndisturbedReplay` | backend/internal/auth/service.go:304-320 | run step by step with nothing in between, a replay of the token exchanged last ends the session if and only if it is live and exchanged it at least 30 seconds ago |
| `SessionRuns.UndisturbedRefresh` | backend/internal/auth/service.go:252-320 | run step by step to the end with nothing in between, a refresh does to the sessions, and answers, exactly what the uninterrupted refresh does |
| `SessionRuns.UndisturbedLogout` | backend/internal/auth/service.go:333-346 | so does signing out |
| `SessionRuns.CanRunOut` | backend/internal/auth/service.go:252-346 | and every call can run to its end alone |
| `SessionRuns.SessionKeepsItself` | backend/internal/storage/postgres/sessions.go:107-137 | a session keeps its identifier and its account through every run |
| `SessionTraces.LastsFromLastUse` | backend/internal/storage/postgres/sessions.go:123-137 | in every run from a state without sessions a session expires exactly a lifetime after its last exchange, or after its sign-in when there was none, and holds the token given out then |
| `SessionTraces.RefreshSucceeds` | backend/internal/auth/service.go:252-286 | with nothing in between, the current token refreshes its session if and only if that was not ended, the account is active and less than the lifetime has passed since the session last got a token; then it expires a lifetime from now, and otherwise nothing changes |
| `SessionTraces.ExpiredRefused` | backend/internal/auth/service.go:252-286 | so once a lifetime has passed the token is refused |
| `SessionTraces.InactiveRefused` | backend/internal/storage/postgres/sessions.go:166-192 | and so it is from the moment the account is not active |
| `SessionTraces.LoginOpens` | backend/internal/auth/service.go:212-233 | signing in adds a live session that holds the token and expires a lifetime later, and touches no other |
| `SessionTraces.ReplayEnds` | backend/internal/auth/service.go:304-320 | with nothing in between, the token exchanged last ends its session if and only if that was not ended and exchanged the token 30 seconds ago or longer |
| `SessionTraces.EndsExactly` | backend/internal/storage/postgres/sessions.go:152-163 | a live session ends in a step if and only if its owner ends it or signs out, changes the password elsewhere, an exchanged token of it is replayed, or it expired and is cleaned up; of its row only that it ended changes |
| `SessionTraces.CleanUpRemoves` | backend/internal/storage/postgres/sessions.go:218-234 | cleaning up removes a session if and only if it expired or was ended before the given moment, and so none a token could still open |
| `RateLimiter.Service.TakeMinuteSlot` | backend/internal/geocoding/service.go:171-187 | forgets what is older than a minute and takes a slot if and only if there is room |
| `RateLimiter.Service.Admit` | backend/internal/geocoding/service.go:191-209 | grants a request if and only if the usage can be read, the day has room with reservations counted, and the whole history of admissions has room in the last minute |
| `RateLimiter.Service.Release` | backend/internal/geocoding/service.go:209-220 | records the attempt and gives the reservation back, or keeps the reservation when it cannot be recorded |
| `RateLimiter.DailyLimitKept` | backend/internal/geocoding/service.go:189-221 | recorded requests and reservations never exceed the day's limit from then on, and neither do the requests let through, failed recordings included |
| `RateLimiter.MinuteLimitKept` | backend/internal/geocoding/service.go:171-187 | no stretch of sixty seconds, wherever it begins, sees more admissions than allowed, although only a pruned slice is kept |
| `RateLimiter.HourlyDay` | backend/internal/storage/postgres/usage.go:32-50 | a request is in the table's day if and only if it is less than 24 hours old and was not made in the same hour of the day before, later in that hour |
| `RateLimiter.TrueDay` | backend/internal/storage/postgres/usage.go:32-50 | over a true 24 hours exactly the counted and the missed requests were let through, so the limit holds over it if and only if the room the count and the reservations leave is enough for the missed ones |
| `RateLimiter.TwoInADay` | backend/internal/storage/postgres/usage.go:32-50 | with a limit of one a day, requests at 00:59 and at the next midnight are both let through |
| `GoogleLink.Tokenize` | backend/internal/googlelink/googlelink.go:236-256 | reads the entries between exclamation marks, skipping empty parts, or refuses the text |
| `GoogleLink.EntriesAre` | backend/internal/googlelink/googlelink.go:236-256 | the entries are those of the parts that are not empty, in order, each an identifier of digits, a kind and a value; the text is refused if and only if one of these parts is no entry |
| `GoogleLink.CountIs` | backend/internal/googlelink/googlelink.go:324-337 | how many entries a message declares: the number its value is, none for a text that is no number, and the nearest in range otherwise |
| `GoogleLink.EntriesOfPrinted` | backend/internal/googlelink/googlelink.go:226-256 | reading what was printed gives the entries back |
| `GoogleLink.NestDescendants` | backend/internal/googlelink/googlelink.go:320-344 | for any counts at all and any number of rounds, how the loops end: with a forest, refused, with an index outside the entries, or still running |
| `GoogleLink.NestedExactly` | backend/internal/googlelink/googlelink.go:316-344 | entries describe a forest if and only if its list in order is those entries and every message holds exactly as many as it declares, and there is never a second one |
| `GoogleLink.TreeRoundTrip` | backend/internal/googlelink/googlelink.go:226-344 | printing such a tree and reading it back gives the tree |
| `GoogleLink.FindDirections` | backend/internal/googlelink/googlelink.go:348-369 | although it looks into messages only, it finds the first directions message of the whole forest |
| `GoogleLink.FoundIs` | backend/internal/googlelink/googlelink.go:348-369 | what is found is the first message numbered 4 that holds two messages numbered 1, and nothing only when there is none |
| `GoogleLoop.Decided` | backend/internal/googlelink/googlelink.go:320-344 | for all entries and any number of rounds the loop has not ended or has ended as decided, and twice as many rounds as entries are enough: without a message whose count leads back it ends or refuses; the first such message decides otherwise - an index outside the entries when it leads to before the first, a refusal when an entry read again runs past the end of its region, and no end if neither |
| `GoogleLoop.DecidingMessage` | backend/internal/googlelink/googlelink.go:324-343 | that message is characterised: its count leads back, every entry before it leads forward and not past the end of one around it, and its region is the innermost that holds it |
| `GoogleLoop.EndsWithForest` | backend/internal/googlelink/googlelink.go:316-344 | the loop ends with a forest if and only if the entries describe one, and it is that one |
| `GoogleLoop.OneMessage` | backend/internal/googlelink/googlelink.go:324-337 | what becomes of every parameter of one message, by its count |
| `GoogleLoop.Endless` | backend/internal/googlelink/googlelink.go:324-337 | so "!1m-1" is read for ever and "!1m-2" stops the request |
| `GoogleLoop.LargestCount` | backend/internal/googlelink/googlelink.go:324-337 | and so does a message that declares the largest count there is |
| `GoogleLoop.LedBackToRefusal` | backend/internal/googlelink/googlelink.go:324-337 | a message may also lead back and be refused |
| `GoogleRoute.ParseData` | backend/internal/googlelink/googlelink.go:269-314 | for any parameter: the route in its tree - for every stop its position, read or typed, and the points its line was dragged through - or none, or an index outside the entries, or not within the rounds it was given |
| `GoogleRoute.ParsedIs` | backend/internal/googlelink/googlelink.go:269-344 | given enough rounds a parameter gives the route of the forest its entries describe, or none when they describe none, and does neither exactly when the loop over its entries does not end or leaves them |
| `GoogleRoute.OneMoreChild` | backend/internal/googlelink/googlelink.go:281-312 | every message numbered 1 adds a stop: its position from its message 2, or else from the name the path gives that stop, and then the points its line was dragged through; any other entry adds nothing |
| `GoogleRoute.OneMoreVia` | backend/internal/googlelink/googlelink.go:297-312 | every message numbered 3 that holds a point adds it, and nothing else does |
| `GoogleRoute.ChildPointIs` | backend/internal/googlelink/googlelink.go:371-392 | a position is that of the first message of the number asked for that holds both coordinates, longitude as entry 1 and latitude as entry 2 |
| `GoogleRoute.ValueIs` | backend/internal/googlelink/googlelink.go:371-392 | a value is that of the last plain entry of the number asked for |
| `GoogleRoute.RouteRoundTrip` | backend/internal/googlelink/googlelink.go:258-392 | a route written as a link is read back: every stop with its position and every dragged point, in order |
| `Paths.AcceptedIsPlain` | backend/internal/backup/restore.go:351-354 | a name is safe and equal to its cleaned form if and only if every part of it is a plain one: not empty, not "." and not ".." |
| `Archive.Unpack` | backend/internal/backup/restore.go:320-393 | takes the entries in order and refuses special entries, unsafe or repeated names, oversized control entries and what does not fit, and an archive without manifest or metadata |
| `Archive.UnpackedExactly` | backend/internal/backup/restore.go:320-393 | an archive is unpacked if and only if it was read to its end, every entry is a plain file under a safe name with room for it, no two share a name or would be a file and its own directory, all together and each control entry are small enough, and both control entries are there and read; what is found is exactly what it holds |
| `Archive.UnpackedRefuses` | backend/internal/backup/restore.go:320-393 | the first entry that cannot be taken decides the refusal, which is told from that entry and the names and sizes of those before it: not an archive for an unsafe name or a control entry that cannot be read, damaged for what is no plain file, comes twice or does not fit, and the system error when a file would have to be a directory; with no such entry, a cut or undescribed archive is no archive and one without its metadata is damaged |
| `Archive.ValidateArchive` | backend/internal/backup/restore.go:421-481 | accepts an archive of a readable format if and only if it describes exactly what it carries |
| `Archive.CatalogueIsExact` | backend/internal/backup/restore.go:417-481 | an accepted archive carries one entry for each table and one for each file, all distinct, and no other |
| `Archive.Verify` | backend/internal/backup/restore.go:267-281 | every recorded payload has its recorded size and checksum |
| `ArchiveWriter.Build` | backend/internal/backup/archive.go:210-301 | succeeds if and only if everything can be read and every recorded object has its recorded bytes, and then writes every table, every object, the metadata and the manifest |
| `ArchiveWriter.WrittenIsRead` | backend/internal/backup/archive.go:210-301 | everything written of a well-formed service is unpacked, described exactly, matches its checksums and holds the same bytes |
| `Restore.DatabaseStage.Activate` | backend/internal/storage/migrations/migrations.go:338-358 | swaps the schemas, or changes nothing when it fails |
| `Restore.FileStage.Activate` | backend/internal/media/store.go:338-353 | switches the link; when it fails after switching, the stage knows so only if the link can be read back |
| `Restore.FileStage.Rollback` | backend/internal/media/store.go:357-366 | puts the link back; when it fails after that, the stage still takes its generation for the one in use |
| `Restore.CutOver` | backend/internal/backup/restore.go:240-258 | the whole state after every combination of failing activations, rollbacks and removals; the previous generations are removed only after both activations |
| `Restore.RestoreStaged` | backend/internal/backup/restore.go:210-265 | succeeds if and only if no essential step fails; after a failure the staged database is in use exactly when its own switch could not be undone, and the restored media exactly when theirs could not; each in use is wholly the old or wholly the archive's, nothing old is lost, and the staged parts are gone if and only if their removal succeeded |
| `Restore.UndoneUnless` | backend/internal/backup/restore.go:210-265 | whatever a failed restore leaves other than it was is owed to the very step that was to undo it and failed as well; when none of these fails everything is as it was |
| `Restore.Check` | backend/internal/backup/restore.go:168-201 | nothing is staged unless the archive is described, readable by this build, intact and fits; too new is told exactly of a newer format or a described archive of a newer schema, no archive exactly of an older format, and damaged of anything else |
| `Restore.Restore` | backend/internal/backup/restore.go:148-205 | for every archive and every choice of failing steps, removals included, the instance serves what the archive holds and the restore succeeded, or it failed and what is in use and what is left behind is as above; nothing at all changes, and the refusal is the one of the unpacking or of the checks, unless the archive was accepted first |
| `Restore.BackupRestores` | backend/internal/backup/restore.go:123-265 | restoring a backup puts back every table's dump and every object's bytes and nothing else, with the recorded counts |

## Left out

- LegChoice.ChoiceGoesStale: when a point counts as near an end is left open; one edit may change several things of the document at once.
- LegCopies.ReportGoesStale: the plan is read and the report written in one step, as one transaction; which elements were copied and which marks placed is a parameter; notes and pictures are not copied here.
- LegRuns.NeverStale: answers of the routing provider are arbitrary; that an answer belongs to the question asked is recorded, not computed.
- Polyline.RoundTrip: points within 2^61 units of the origin, which holds every position on earth; beyond it the 64-bit differences wrap. Decoding takes the one precision the program passes.
- Privacy.PrivacyZones.Hidden: lines whose shown points lie on that grid, for the same reason; names, descriptions, pictures and attachments of hidden places are not part of this model.
- Privacy.PrivacyZones.TellsNothing: the stops along a track are taken to be the same, since where a hidden one is decides which shown point it is drawn at.
- LegInput.Unambiguous: points are whole numbers, so a coordinate printed as "-0.00000" does not occur.
- LegFold.FoldKeepsLine: lines whose points lie on that grid.
- Budget.BuildBudget: labels, dates, the share of the budget in percent, the amount per person (both rounded in floating point) and the balances, which are modelled in Split, are not listed.
- Report.BuildReportTotals: counts of places by status, ratings and nights are plain counters and are left away.
- Schedule.ScheduleDay: times are unbounded whole numbers.
- StayMarks.SyncAnchors: every mark names a day and a stay, as its table demands; dates are day numbers, and new marks come last.
- TripSync.SyncTrip: a trip has one document here, and the program brings each of its documents in line in turn.
- Sessions.Service.Login: credentials, password hashing and the limit on concurrent hashing are not part of this model; access tokens are not modelled.
- SessionRuns.ReplayEndsTheSession: a token two generations old is not recognised by the program, and nothing is claimed for it.
- RateLimiter.Service.Admit: one process with a clock that does not run back; the answer cache and joint lookups are left away. Hours begin at multiples of 3600 seconds.
- RateLimiter.Service.Release: a recording that is made but reported as failed is not an outcome; it would count twice, which only leaves less room.
- GoogleLink.NestDescendants: memory is unbounded, so a loop that does not end runs on for ever; rounds are counted level by level.
- GoogleRoute.ParseData: how two decimal texts make a position is a parameter; reading the path of a link and the fallbacks for links without structure are left out.
- Archive.Unpack: tar, gzip and encryption are left away; the JSON of the control entries and the checksum are functions assumed to round-trip and to be well-formed; room on the disk and failures to write are one parameter.
- ArchiveWriter.WrittenIsRead: no storage key may be a directory of another, which no store on a disk allows.
- Restore.DatabaseStage.Activate: a failing transaction is assumed to change nothing, and tables are dumps rather than rows; migrating is a function.
- Restore.DatabaseStage.Close: a removal that fails is taken to leave everything in place, and that of the unpacked archive's directory is not modelled.
- Packing.Merge: comparing names in any case is an arbitrary equivalence; icons, notes, bringers and ticks are carried along unseen.
- VisitOrder.OrderByActualTime: a sort is any stable sort, which determines its result.
- HTTP, SQL, JWT, mail, pictures, PDF and the interface are not part of this model; single statements are taken as atomic, transactions too.
- The scheduler of backups, destinations and rotation, invitations, share links, roles, translations and field validation would only add easy members.
- Routing requests, their cache and the reduction of pasted links to via points are not modelled.
