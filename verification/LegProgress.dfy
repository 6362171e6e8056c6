/**
 Waiting legs are not forgotten: requests that calculate legs, 25 jobs at a time, come to an
 end (calculateLegs in backend/internal/httpapi/legs.go).
 */
module LegProgress {
  import opened Common
  import opened Polyline
  import opened Document
  import opened LegInput
  import opened LegFold
  import opened Reconcile
  import opened LegSync
  import opened LegFixpoint
  import opened LegJobs
  import opened LegRuns

  /** What the provider answers, whatever it is asked; every answer is one. */
  type Provider = Job -> Calculation

  ghost predicate Answers(provider: Provider) {
    forall job :: provider(job).source != Pending
  }

  function SaveOf(job: Job, provider: Provider): Save {
    Save(job.part, job.id, job.input, provider(job), false)
  }

  /** What an ordinary request would calculate if it had no bound. */
  function Waiting(c: Content, rows: seq<Leg>): seq<Job> {
    AllJobs(c, Read(rows), None, false)
  }

  /** The answers of some jobs stored one after the other. */
  function AnsweredAll(rows: seq<Leg>, jobs: seq<Job>, provider: Provider): seq<Leg>
    decreases |jobs|
  {
    if jobs == [] then rows else AnsweredAll(StoredRows(rows, SaveOf(jobs[0], provider)), jobs[1..], provider)
  }

  /** One request with nothing in between. */
  function Round(c: Content, rows: seq<Leg>, provider: Provider): seq<Leg> {
    AnsweredAll(rows, Take(Waiting(c, rows), MAX_LEGS_PER_CALCULATION), provider)
  }

  function Rounds(c: Content, rows: seq<Leg>, provider: Provider, n: nat): seq<Leg>
    decreases n
  {
    if n == 0 then rows else Rounds(c, Round(c, rows, provider), provider, n - 1)
  }

  // ------------------------------------------------------------- one answer

  function RowJobs(c: Content, row: Leg): seq<Job> {
    JobsOf(c, Folded(row), None, false)
  }

  /** The job is for the leg or for one of its parts. */
  predicate JobFor(row: Leg, job: Job) {
    if job.part then exists j :: 0 <= j < |row.segments| && row.segments[j].id == job.id
    else job.id == row.id
  }

  lemma {:induction false} PartJobsFor(c: Content, leg: Leg, n: nat)
    requires n <= |leg.segments|
    ensures forall job :: job in PartJobs(c, leg, false, false, n) ==>
              exists j :: 0 <= j < n && job == PartJob(c, leg, j)
  {
    hide PartJob;
    if n > 0 {
      PartJobsFor(c, leg, n - 1);
    }
  }

  lemma RowJobsFor(c: Content, row: Leg)
    ensures forall job :: job in RowJobs(c, row) ==> JobFor(row, job)
  {
    hide Folded;
    FoldKeepsIdentity(row);
    PartJobsFor(c, Folded(row), |row.segments|);
  }

  /** Storing an answer for another leg changes nothing. */
  lemma OtherRow(row: Leg, job: Job, provider: Provider)
    requires !JobFor(row, job)
    ensures Stored(row, SaveOf(job, provider)) == row
  {
    var parts := row.segments;
    assert StoredParts(parts, SaveOf(job, provider)) == parts || !job.part;
  }

  /** Parts that differ in nothing a job asks about. */
  predicate SameParts(a: seq<Segment>, b: seq<Segment>) {
    && |a| == |b|
    && forall i :: 0 <= i < |a| ==>
         a[i].id == b[i].id && a[i].mode == b[i].mode && a[i].input == b[i].input && a[i].Change() == b[i].Change()
  }

  lemma SamePartJob(c: Content, a: Leg, b: Leg, j: nat)
    requires SameParts(a.segments, b.segments) && j < |a.segments|
    requires a.fromItemId == b.fromItemId && a.toItemId == b.toItemId
    ensures PartJob(c, a, j) == PartJob(c, b, j)
  {
    hide ItemById;
    assert j > 0 ==> a.segments[j - 1].Change() == b.segments[j - 1].Change();
  }

  lemma {:induction false} SamePartJobs(c: Content, a: Leg, b: Leg, n: nat)
    requires SameParts(a.segments, b.segments) && n <= |a.segments|
    requires a.fromItemId == b.fromItemId && a.toItemId == b.toItemId
    requires forall i :: 0 <= i < n ==> (a.segments[i].source == Pending <==> b.segments[i].source == Pending)
    ensures PartJobs(c, a, false, false, n) == PartJobs(c, b, false, false, n)
  {
    hide PartJob;
    if n > 0 {
      SamePartJobs(c, a, b, n - 1);
      SamePartJob(c, a, b, n - 1);
    }
  }

  /** The first waiting part is answered: the others still wait. */
  lemma {:induction false} FirstPart(c: Content, a: Leg, b: Leg, n: nat) returns (i: nat)
    requires SameParts(a.segments, b.segments) && n <= |a.segments|
    requires a.fromItemId == b.fromItemId && a.toItemId == b.toItemId
    requires PartJobs(c, a, false, false, n) != []
    ensures i < n && PartJobs(c, a, false, false, n)[0] == PartJob(c, a, i) && a.segments[i].source == Pending
    ensures (&& b.segments[i].source != Pending
             && forall j :: 0 <= j < n && j != i ==>
                  (a.segments[j].source == Pending <==> b.segments[j].source == Pending))
            ==> PartJobs(c, b, false, false, n) == PartJobs(c, a, false, false, n)[1..]
  {
    hide PartJob;
    var before := PartJobs(c, a, false, false, n - 1);
    SamePartJob(c, a, b, n - 1);
    if before == [] {
      i := n - 1;
      if forall j :: 0 <= j < n - 1 ==> (a.segments[j].source == Pending <==> b.segments[j].source == Pending) {
        SamePartJobs(c, a, b, n - 1);
      }
    } else {
      i := FirstPart(c, a, b, n - 1);
    }
  }

  /** The first job of a leg is answered: its others still wait, and none is added. */
  lemma {:induction false} FirstOfRow(c: Content, row: Leg, provider: Provider)
    requires RowJobs(c, row) != [] && Answers(provider)
    requires forall i, j :: 0 <= i < j < |row.segments| ==> row.segments[i].id != row.segments[j].id
    ensures RowJobs(c, Stored(row, SaveOf(RowJobs(c, row)[0], provider))) == RowJobs(c, row)[1..]
  {
    hide Folded;
    var jobs := RowJobs(c, row);
    var row' := Stored(row, SaveOf(jobs[0], provider));
    FoldKeepsIdentity(row);
    FoldKeepsIdentity(row');
    if row.Composite() {
      var n := |row.segments|;
      var i := FirstPart(c, Folded(row), Folded(row), n);
      assert jobs[0] == PartJob(c, Folded(row), i);
      PartStored(row, Folded(row), c, i, provider);
      var i' := FirstPart(c, Folded(row), Folded(row'), n);
      FirstIs(c, Folded(row), i, i');
    }
  }

  lemma FirstIs(c: Content, leg: Leg, i: nat, j: nat)
    requires i < |leg.segments| && j < |leg.segments| && PartJob(c, leg, i) == PartJob(c, leg, j)
    requires forall a, b :: 0 <= a < b < |leg.segments| ==> leg.segments[a].id != leg.segments[b].id
    ensures i == j
  {
    assert PartJob(c, leg, i).id == leg.segments[i].id && PartJob(c, leg, j).id == leg.segments[j].id;
  }

  lemma PartStored(row: Leg, leg: Leg, c: Content, i: nat, provider: Provider)
    requires i < |row.segments| && leg.segments == row.segments && Answers(provider)
    requires forall a, b :: 0 <= a < b < |row.segments| ==> row.segments[a].id != row.segments[b].id
    ensures var row' := Stored(row, SaveOf(PartJob(c, leg, i), provider));
            && SameParts(row.segments, row'.segments) && row'.segments[i].source != Pending
            && forall j :: 0 <= j < |row.segments| && j != i ==> row'.segments[j] == row.segments[j]
  {
    hide StartOf;
    hide EndOf;
    hide PartStart;
    hide PartEnd;
  }

  lemma {:induction false} NoneForOthers(c: Content, rows: seq<Leg>, job: Job, provider: Provider)
    requires forall i :: 0 <= i < |rows| ==> !JobFor(rows[i], job)
    ensures StoredRows(rows, SaveOf(job, provider)) == rows
  {
    forall i | 0 <= i < |rows| ensures Stored(rows[i], SaveOf(job, provider)) == rows[i] {
      OtherRow(rows[i], job, provider);
    }
  }

  lemma WaitingLast(c: Content, rows: seq<Leg>)
    requires rows != []
    ensures Waiting(c, rows) == Waiting(c, rows[..|rows| - 1]) + RowJobs(c, rows[|rows| - 1])
  {
    hide Folded;
    hide JobsOf;
    assert Read(rows)[..|rows| - 1] == Read(rows[..|rows| - 1]);
  }

  /** Each job is for one leg. */
  lemma OneLeg(rows: seq<Leg>, i: nat, j: nat, job: Job)
    requires DistinctLegs(rows) && DistinctParts(rows) && i < |rows| && j < |rows| && i != j
    ensures !(JobFor(rows[i], job) && JobFor(rows[j], job))
  {
  }

  lemma {:induction false} WaitingFor(c: Content, rows: seq<Leg>)
    ensures forall job :: job in Waiting(c, rows) ==> exists i :: 0 <= i < |rows| && JobFor(rows[i], job)
  {
    hide JobFor;
    hide RowJobs;
    hide Waiting;
    if rows != [] {
      var front, last := rows[..|rows| - 1], rows[|rows| - 1];
      WaitingFor(c, front);
      WaitingLast(c, rows);
      RowJobsFor(c, last);
      forall job | job in Waiting(c, rows) ensures exists i :: 0 <= i < |rows| && JobFor(rows[i], job) {
        if job in RowJobs(c, last) {
          assert JobFor(rows[|rows| - 1], job);
        } else {
          var i :| 0 <= i < |front| && JobFor(front[i], job);
          assert JobFor(rows[i], job);
        }
      }
    } else {
      NothingWaits(c);
    }
  }

  lemma NothingWaits(c: Content)
    ensures Waiting(c, []) == []
  {
  }

  /** When the answer of the first waiting job is stored, the other jobs wait as they did. */
  lemma {:induction false} FirstStored(c: Content, rows: seq<Leg>, provider: Provider)
    requires DistinctLegs(rows) && DistinctParts(rows) && Answers(provider) && Waiting(c, rows) != []
    ensures Waiting(c, StoredRows(rows, SaveOf(Waiting(c, rows)[0], provider))) == Waiting(c, rows)[1..]
  {
    hide RowJobs;
    hide Waiting;
    hide JobFor;
    hide Answers;
    hide SaveOf;
    if rows == [] {
      NothingWaits(c);
    } else {
      var front, last := rows[..|rows| - 1], rows[|rows| - 1];
      var job := Waiting(c, rows)[0];
      var save := SaveOf(job, provider);
      var rows' := StoredRows(rows, save);
      assert rows'[..|rows| - 1] == StoredRows(front, save);
      WaitingLast(c, rows);
      WaitingLast(c, rows');
      WaitingFor(c, front);
      RowJobsFor(c, last);
      if Waiting(c, front) != [] {
        FirstStored(c, front, provider);
        assert job == Waiting(c, front)[0] && job in Waiting(c, front);
        var i :| 0 <= i < |front| && JobFor(front[i], job);
        OneLeg(rows, i, |rows| - 1, job);
        OtherRow(last, job, provider);
      } else {
        forall i | 0 <= i < |front| ensures !JobFor(front[i], job) {
          OneLeg(rows, i, |rows| - 1, job);
        }
        NoneForOthers(c, front, job, provider);
        FirstOfRow(c, last, provider);
      }
    }
  }

  // ------------------------------------------------------------- whole requests

  lemma StoredDistinct(rows: seq<Leg>, save: Save)
    requires DistinctLegs(rows) && DistinctParts(rows)
    ensures DistinctLegs(StoredRows(rows, save)) && DistinctParts(StoredRows(rows, save))
  {
    hide SameKeys;
    hide Stored;
    forall i | 0 <= i < |rows| ensures SameKeys(rows[i], StoredRows(rows, save)[i]) {
      StoredSameKeys(rows[i], save);
    }
    SameKeysDistinct(rows, StoredRows(rows, save));
  }

  lemma {:induction false} BatchStored(c: Content, rows: seq<Leg>, provider: Provider, n: nat)
    requires DistinctLegs(rows) && DistinctParts(rows) && Answers(provider) && n <= |Waiting(c, rows)|
    ensures var rows' := AnsweredAll(rows, Waiting(c, rows)[..n], provider);
            DistinctLegs(rows') && DistinctParts(rows') && Waiting(c, rows') == Waiting(c, rows)[n..]
    decreases n
  {
    hide Waiting;
    hide Answers;
    hide SaveOf;
    var jobs := Waiting(c, rows);
    if n > 0 {
      var next := StoredRows(rows, SaveOf(jobs[0], provider));
      FirstStored(c, rows, provider);
      StoredDistinct(rows, SaveOf(jobs[0], provider));
      BatchStored(c, next, provider, n - 1);
      assert jobs[..n][1..] == jobs[1..][..n - 1] && jobs[1..][n - 1..] == jobs[n..];
    }
  }

  /** Every request takes the first 25 jobs off the list, and adds none. */
  lemma RoundTakes(c: Content, rows: seq<Leg>, provider: Provider)
    requires DistinctLegs(rows) && DistinctParts(rows) && Answers(provider)
    ensures var rows' := Round(c, rows, provider);
            && DistinctLegs(rows') && DistinctParts(rows')
            && Waiting(c, rows') == Waiting(c, rows)[Min(MAX_LEGS_PER_CALCULATION, |Waiting(c, rows)|)..]
  {
    BatchStored(c, rows, provider, Min(MAX_LEGS_PER_CALCULATION, |Waiting(c, rows)|));
  }

  lemma {:induction false} RoundsTake(c: Content, rows: seq<Leg>, provider: Provider, n: nat)
    requires DistinctLegs(rows) && DistinctParts(rows) && Answers(provider)
    ensures var jobs := Waiting(c, rows);
            Waiting(c, Rounds(c, rows, provider, n)) == jobs[Min(MAX_LEGS_PER_CALCULATION * n, |jobs|)..]
    decreases n
  {
    hide Waiting;
    hide Round;
    if n > 0 {
      RoundTakes(c, rows, provider);
      RoundsTake(c, Round(c, rows, provider), provider, n - 1);
    }
  }

  /** Neither a leg travelled one way nor a part waits for a calculation. */
  predicate NoneWaits(rows: seq<Leg>) {
    && (forall i :: 0 <= i < |rows| && !rows[i].Composite() ==> rows[i].source != Pending)
    && forall i, j :: 0 <= i < |rows| && rows[i].Composite() && 0 <= j < |rows[i].segments| ==>
         rows[i].segments[j].source != Pending
  }

  lemma {:induction false} NoPartWaits(c: Content, leg: Leg, n: nat)
    requires n <= |leg.segments|
    ensures PartJobs(c, leg, false, false, n) == [] <==> forall j :: 0 <= j < n ==> leg.segments[j].source != Pending
  {
    hide PartJob;
    if n > 0 {
      NoPartWaits(c, leg, n - 1);
    }
  }

  /** No leg waits with a chosen route, which nothing would calculate. */
  predicate NoneHeldBack(rows: seq<Leg>) {
    forall i :: 0 <= i < |rows| && rows[i].source == Pending ==> !rows[i].pinned
  }

  lemma {:induction false} NoJobWaits(c: Content, rows: seq<Leg>)
    requires NoneHeldBack(rows)
    ensures Waiting(c, rows) == [] <==> NoneWaits(rows)
  {
    hide Waiting;
    hide Folded;
    if rows == [] {
      NothingWaits(c);
    } else {
      var front, last := rows[..|rows| - 1], rows[|rows| - 1];
      NoJobWaits(c, front);
      WaitingLast(c, rows);
      FoldKeepsIdentity(last);
      NoPartWaits(c, Folded(last), |last.segments|);
    }
  }

  lemma {:induction false} BatchHeldBack(rows: seq<Leg>, jobs: seq<Job>, provider: Provider)
    requires NoneHeldBack(rows)
    ensures NoneHeldBack(AnsweredAll(rows, jobs, provider))
    decreases |jobs|
  {
    if jobs != [] {
      BatchHeldBack(StoredRows(rows, SaveOf(jobs[0], provider)), jobs[1..], provider);
    }
  }

  lemma {:induction false} RoundsHeldBack(c: Content, rows: seq<Leg>, provider: Provider, n: nat)
    requires NoneHeldBack(rows)
    ensures NoneHeldBack(Rounds(c, rows, provider, n))
    decreases n
  {
    hide NoneHeldBack;
    if n > 0 {
      BatchHeldBack(rows, Take(Waiting(c, rows), MAX_LEGS_PER_CALCULATION), provider);
      RoundsHeldBack(c, Round(c, rows, provider), provider, n - 1);
    }
  }

  /** As many requests as there are batches of 25 jobs, with nothing in between and a provider
      that answers, leave nothing waiting; fewer leave something. */
  lemma {:induction false} Finishes(s: State, provider: Provider, n: nat)
    requires Inv(s) && Answers(provider)
    ensures NoneWaits(Rounds(s.content, s.rows, provider, n))
       <==> MAX_LEGS_PER_CALCULATION * n >= |Waiting(s.content, s.rows)|
  {
    hide Waiting;
    hide Rounds;
    hide NoneHeldBack;
    RowsAre(s);
    RoundsHeldBack(s.content, s.rows, provider, n);
    RoundsTake(s.content, s.rows, provider, n);
    NoJobWaits(s.content, Rounds(s.content, s.rows, provider, n));
  }

  lemma RowsAre(s: State)
    requires Inv(s)
    ensures DistinctLegs(s.rows) && DistinctParts(s.rows) && NoneHeldBack(s.rows)
  {
    forall i | 0 <= i < |s.rows| && s.rows[i].source == Pending ensures !s.rows[i].pinned {
      assert RowBacked(s, s.rows[i]);
    }
  }
}
