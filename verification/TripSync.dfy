/**
 Bringing a trip's marks and then its legs in line (syncTrip and syncLegs in
 backend/internal/storage/postgres/documents.go): doing it again changes nothing.
 */
module TripSync {
  import opened Common
  import opened Document
  import opened LegFold
  import opened Reconcile
  import opened LegSync
  import opened LegFixpoint
  import LegRuns
  import StayMarks

  /** The marks of a document are those its days and stays call for. */
  ghost predicate MarksInLine(c: Content) {
    StayMarks.InLine(StayMarks.MarksIn(c.items), StayMarks.Assigned(c.days, StayMarks.SortedStays(c.stays)))
  }

  ghost predicate TripInLine(c: Content, rows: seq<Leg>) {
    MarksInLine(c) && Reconciled(c, Read(rows))
  }

  lemma {:induction false} NothingReset(rows: seq<Leg>)
    ensures SyncRows(rows, NOTHING) == rows
  {
    if rows != [] {
      hide SyncRow;
      NothingReset(rows[..|rows| - 1]);
      RowUntouched(rows[|rows| - 1]);
    }
  }

  lemma RowUntouched(row: Leg)
    ensures SyncRow(row, NOTHING) == row
  {
    assert SyncParts(row.segments, NOTHING) == row.segments;
    assert row.(segments := row.segments) == row;
  }

  lemma NothingSynced(rows: seq<Leg>)
    ensures Synced(rows, NOTHING) == rows
  {
    NothingReset(rows);
    assert rows + [] == rows;
  }

  lemma InLineIsKept(c: Content, rows: seq<Leg>, ids: nat -> Id)
    requires DistinctLegs(rows) && Reconciled(c, Read(rows))
    ensures Synced(rows, Plan(c, Read(rows), ids)) == rows
  {
    hide Reconciled;
    hide Plan;
    hide Synced;
    ReadDistinct(rows);
    NothingToDo(c, Read(rows), ids);
    NothingSynced(rows);
  }

  /** Brings the marks in line, and then the legs between the elements they frame. Whatever
      there was, both are in line afterwards; what is in line is not touched. */
  method SyncTrip(c: Content, rows: seq<Leg>, names: nat -> Id, ids: nat -> Id) returns (d: Content, synced: seq<Leg>)
    requires DistinctItems(c.items) && DistinctDays(c.days) && StayMarks.Marked(c.items)
    requires StayMarks.Unnamed(c.items, names)
    requires DistinctLegs(rows) && DistinctParts(rows) && Fresh(ids, rows)
    ensures d == c.(items := d.items) && StayMarks.OthersIn(d.items) == StayMarks.OthersIn(c.items)
    ensures synced == Synced(rows, Plan(d, Read(rows), ids))
    ensures DistinctItems(d.items) && StayMarks.Marked(d.items) && DistinctLegs(synced) && DistinctParts(synced)
    ensures TripInLine(d, synced)
    ensures TripInLine(c, rows) ==> d == c && synced == rows
  {
    hide *;
    var wanted := StayMarks.AnchorAssignments(c.days, c.stays);
    var items := StayMarks.SyncAnchors(c.items, wanted, names);
    d := c.(items := items);
    var plan := ReconcileLegs(d, Read(rows), ids);
    synced := Synced(rows, plan);
    SyncReconciles(d, rows, ids);
    LegRuns.SyncedParts(d, rows, ids);
    BothInLine(c, d, rows, synced);
    if TripInLine(c, rows) {
      WasInLine(c, rows);
      InLineIsKept(c, rows, ids);
    }
  }

  lemma BothInLine(c: Content, d: Content, rows: seq<Leg>, synced: seq<Leg>)
    requires d == c.(items := d.items) && Reconciled(d, Read(synced))
    requires StayMarks.InLine(StayMarks.MarksIn(d.items), StayMarks.Assigned(c.days, StayMarks.SortedStays(c.stays)))
    ensures TripInLine(d, synced)
  {
  }

  lemma WasInLine(c: Content, rows: seq<Leg>)
    requires TripInLine(c, rows)
    ensures StayMarks.InLine(StayMarks.MarksIn(c.items), StayMarks.Assigned(c.days, StayMarks.SortedStays(c.stays)))
    ensures Reconciled(c, Read(rows))
  {
  }
}
