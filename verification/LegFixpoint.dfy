/**
 Reconciling legs that were just brought in line changes nothing
 (backend/internal/domain/leg.go, backend/internal/storage/postgres/documents.go).
 */
module LegFixpoint {
  import opened Common
  import opened Polyline
  import opened Document
  import opened LegInput
  import opened LegFold
  import opened Reconcile
  import opened LegSync

  // ------------------------------------------------------------- what is reset

  lemma KeptTwice(legs: seq<Leg>, needs: seq<Need>, k: nat, m: nat)
    requires DistinctLegs(legs) && DistinctEnds(needs)
    requires k < |needs| && Keeps(legs, needs[k])
    requires m < |needs| && Keeps(legs, needs[m])
    ensures KeptLeg(legs, needs[k]).id == KeptLeg(legs, needs[m]).id ==> k == m
  {
    hide FindLeg;
    KeptServes(legs, needs[k]);
    KeptServes(legs, needs[m]);
    var i :| 0 <= i < |legs| && legs[i] == KeptLeg(legs, needs[k]);
    var j :| 0 <= j < |legs| && legs[j] == KeptLeg(legs, needs[m]);
    assert legs[i].id == legs[j].id ==> i == j;
    assert i == j ==> needs[k].to.id == needs[m].to.id;
  }

  function InputOf(resets: seq<Leg>): Option<string> {
    if resets == [] then None else Some(resets[|resets| - 1].input)
  }

  lemma {:induction false} ResetAppend(a: seq<Leg>, b: seq<Leg>, id: Id)
    ensures ResetInput(a + b, id) == if ResetInput(b, id).Some? then ResetInput(b, id) else ResetInput(a, id)
  {
    if b == [] {
      assert a + b == a;
    } else {
      assert (a + b)[..|a + b| - 1] == a + b[..|b| - 1];
      ResetAppend(a, b[..|b| - 1], id);
    }
  }

  /** A kept leg is reset to what its own need says, whatever the other needs are. */
  lemma {:induction false} ResetFor(c: Content, legs: seq<Leg>, needs: seq<Need>, n: nat, k: nat)
    requires DistinctLegs(legs) && DistinctEnds(needs)
    requires n <= |needs| && k < |needs| && Keeps(legs, needs[k])
    ensures ResetInput(Resets(c, legs, needs[..n]), KeptLeg(legs, needs[k]).id)
         == if k < n then InputOf(ResetOf(c, legs, needs[k])) else None
  {
    hide FindLeg;
    hide NeedInput;
    if n > 0 {
      ResetFor(c, legs, needs, n - 1, k);
      assert needs[..n][..n - 1] == needs[..n - 1];
      ResetAppend(Resets(c, legs, needs[..n - 1]), ResetOf(c, legs, needs[n - 1]), KeptLeg(legs, needs[k]).id);
      if Keeps(legs, needs[n - 1]) && KeptLeg(legs, needs[n - 1]).id == KeptLeg(legs, needs[k]).id {
        KeptTwice(legs, needs, k, n - 1);
      }
    }
  }

  lemma {:induction false} PartResetAppend(a: seq<Segment>, b: seq<Segment>, id: Id)
    ensures PartResetInput(a + b, id)
         == if PartResetInput(b, id).Some? then PartResetInput(b, id) else PartResetInput(a, id)
  {
    if b == [] {
      assert a + b == a;
    } else {
      assert (a + b)[..|a + b| - 1] == a + b[..|b| - 1];
      PartResetAppend(a, b[..|b| - 1], id);
    }
  }

  lemma {:induction false} MovedPart(c: Content, need: Need, segments: seq<Segment>, n: nat, j: nat)
    requires n <= |segments| && j < |segments|
    requires forall a, b :: 0 <= a < b < |segments| ==> segments[a].id != segments[b].id
    ensures PartResetInput(MovedParts(c, need, segments, n), segments[j].id)
         == if j < n && NeedPartInput(c, need, segments, j) != segments[j].input
            then Some(NeedPartInput(c, need, segments, j)) else None
  {
    hide NeedPartInput;
    if n > 0 {
      MovedPart(c, need, segments, n - 1, j);
      var input := NeedPartInput(c, need, segments, n - 1);
      PartResetAppend(MovedParts(c, need, segments, n - 1),
                      if input == segments[n - 1].input then [] else [segments[n - 1].(input := input)],
                      segments[j].id);
      assert n - 1 < j ==> segments[n - 1].id != segments[j].id;
      assert j < n - 1 ==> segments[j].id != segments[n - 1].id;
    }
  }

  lemma {:induction false} NotMoved(c: Content, need: Need, segments: seq<Segment>, n: nat, id: Id)
    requires n <= |segments|
    requires forall a :: 0 <= a < |segments| ==> segments[a].id != id
    ensures PartResetInput(MovedParts(c, need, segments, n), id) == None
  {
    hide NeedPartInput;
    if n > 0 {
      NotMoved(c, need, segments, n - 1, id);
      var input := NeedPartInput(c, need, segments, n - 1);
      PartResetAppend(MovedParts(c, need, segments, n - 1),
                      if input == segments[n - 1].input then [] else [segments[n - 1].(input := input)], id);
    }
  }

  /** Parts of different legs have different identifiers. */
  lemma OtherParts(legs: seq<Leg>, leg: Leg, other: Leg, j: nat)
    requires DistinctParts(legs) && leg in legs && other in legs && leg.id != other.id
    requires j < |leg.segments|
    ensures forall a :: 0 <= a < |other.segments| ==> other.segments[a].id != leg.segments[j].id
  {
    var i :| 0 <= i < |legs| && legs[i] == leg;
    var m :| 0 <= m < |legs| && legs[m] == other;
  }

  lemma OwnParts(legs: seq<Leg>, leg: Leg)
    requires DistinctParts(legs) && leg in legs
    ensures forall a, b :: 0 <= a < b < |leg.segments| ==> leg.segments[a].id != leg.segments[b].id
  {
    var i :| 0 <= i < |legs| && legs[i] == leg;
    forall a, b | 0 <= a < b < |leg.segments| ensures leg.segments[a].id != leg.segments[b].id {
      assert legs[i].segments[a].id == legs[i].segments[b].id ==> a == b;
    }
  }

  /** The input the j-th part of a kept leg needs. */
  function PartInputOf(c: Content, legs: seq<Leg>, needs: seq<Need>, k: nat, j: nat): string
    requires k < |needs| && Keeps(legs, needs[k]) && j < |KeptLeg(legs, needs[k]).segments|
  {
    NeedPartInput(c, needs[k], KeptLeg(legs, needs[k]).segments, j)
  }

  /** A needed pair resets the parts of its own leg that moved, and no other leg's. */
  lemma PartResetStep(c: Content, legs: seq<Leg>, needs: seq<Need>, m: nat, k: nat, j: nat)
    requires DistinctLegs(legs) && DistinctParts(legs) && DistinctEnds(needs)
    requires m < |needs| && k < |needs| && Keeps(legs, needs[k])
    requires KeptLeg(legs, needs[k]).Composite() && j < |KeptLeg(legs, needs[k]).segments|
    ensures PartResetInput(PartResetsOf(c, legs, needs[m]), KeptLeg(legs, needs[k]).segments[j].id)
         == if m == k && PartInputOf(c, legs, needs, k, j) != KeptLeg(legs, needs[k]).segments[j].input
            then Some(PartInputOf(c, legs, needs, k, j)) else None
  {
    hide FindLeg;
    hide NeedPartInput;
    hide MovedParts;
    var leg, need := KeptLeg(legs, needs[k]), needs[m];
    KeptServes(legs, needs[k]);
    if Keeps(legs, need) && KeptLeg(legs, need).Composite() {
      var other := KeptLeg(legs, need);
      KeptServes(legs, need);
      if m == k {
        OwnParts(legs, leg);
        MovedPart(c, need, leg.segments, |leg.segments|, j);
      } else {
        KeptTwice(legs, needs, k, m);
        OtherParts(legs, leg, other, j);
        NotMoved(c, need, other.segments, |other.segments|, leg.segments[j].id);
      }
    }
  }

  /** A part of a kept leg is reset to what the need of its own leg says. */
  lemma {:induction false} PartResetFor(c: Content, legs: seq<Leg>, needs: seq<Need>, n: nat, k: nat, j: nat)
    requires DistinctLegs(legs) && DistinctParts(legs) && DistinctEnds(needs)
    requires n <= |needs| && k < |needs| && Keeps(legs, needs[k])
    requires KeptLeg(legs, needs[k]).Composite() && j < |KeptLeg(legs, needs[k]).segments|
    ensures PartResetInput(PartResets(c, legs, needs[..n]), KeptLeg(legs, needs[k]).segments[j].id)
         == if k < n && PartInputOf(c, legs, needs, k, j) != KeptLeg(legs, needs[k]).segments[j].input
            then Some(PartInputOf(c, legs, needs, k, j)) else None
  {
    hide FindLeg;
    hide PartResetsOf;
    hide PartInputOf;
    if n > 0 {
      PartResetFor(c, legs, needs, n - 1, k, j);
      assert needs[..n][..n - 1] == needs[..n - 1];
      PartResetAppend(PartResets(c, legs, needs[..n - 1]), PartResetsOf(c, legs, needs[n - 1]),
                      KeptLeg(legs, needs[k]).segments[j].id);
      PartResetStep(c, legs, needs, n - 1, k, j);
    }
  }

  // ------------------------------------------------------------- the synced rows

  lemma SyncKeepsIdentity(row: Leg, plan: LegPlan)
    ensures var row' := SyncRow(row, plan);
            && row'.id == row.id && row'.dayId == row.dayId && row'.fromItemId == row.fromItemId
            && row'.toItemId == row.toItemId && |row'.segments| == |row.segments|
            && row'.mode == row.mode && row'.preference == row.preference && row'.via == row.via
  {
  }

  lemma {:induction false} SyncedRowFrom(rows: seq<Leg>, plan: LegPlan, i: nat) returns (r: nat)
    requires i < |SyncRows(rows, plan)|
    ensures r < |rows| && rows[r].id !in plan.delete && SyncRows(rows, plan)[i] == SyncRow(rows[r], plan)
  {
    hide SyncRow;
    if i < |SyncRows(rows[..|rows| - 1], plan)| {
      r := SyncedRowFrom(rows[..|rows| - 1], plan, i);
    } else {
      r := |rows| - 1;
    }
  }

  lemma {:induction false} SyncedRowFor(rows: seq<Leg>, plan: LegPlan, r: nat) returns (i: nat)
    requires r < |rows| && rows[r].id !in plan.delete
    ensures i < |SyncRows(rows, plan)| && SyncRows(rows, plan)[i] == SyncRow(rows[r], plan)
  {
    hide SyncRow;
    if r < |rows| - 1 {
      i := SyncedRowFor(rows[..|rows| - 1], plan, r);
    } else {
      i := |SyncRows(rows[..|rows| - 1], plan)|;
    }
  }

  /** Only legs travelled one way are reset themselves. */
  lemma {:induction false} OnlyPlainReset(c: Content, legs: seq<Leg>, needs: seq<Need>, leg: Leg)
    requires DistinctLegs(legs) && leg in legs && leg.Composite()
    ensures ResetInput(Resets(c, legs, needs), leg.id) == None
  {
    hide FindLeg;
    hide NeedInput;
    if needs != [] {
      var front, need := needs[..|needs| - 1], needs[|needs| - 1];
      OnlyPlainReset(c, legs, front, leg);
      ResetAppend(Resets(c, legs, front), ResetOf(c, legs, need), leg.id);
      if Keeps(legs, need) {
        KeptServes(legs, need);
        assert KeptLeg(legs, need).id == leg.id ==> KeptLeg(legs, need) == leg;
      }
    }
  }

  /** A stored leg with changes keeps what it holds itself; only its parts are reset. */
  lemma CompositeKept(c: Content, rows: seq<Leg>, ids: nat -> Id, r: nat)
    requires DistinctLegs(rows) && r < |rows| && rows[r].Composite()
    ensures ResetInput(Plan(c, Read(rows), ids).reset, rows[r].id) == None
    ensures SyncRow(rows[r], Plan(c, Read(rows), ids))
         == rows[r].(segments := SyncParts(rows[r].segments, Plan(c, Read(rows), ids)))
  {
    hide Needs;
    hide Creates;
    hide Resets;
    hide PartResets;
    hide Deletes;
    hide KeptIds;
    hide Folded;
    ReadDistinct(rows);
    FoldKeepsIdentity(rows[r]);
    OnlyPlainReset(c, Read(rows), Needs(c), Read(rows)[r]);
  }

  /** The kept leg of a need, read again after the sync, is keyed by its present ends. */
  lemma KeptIsCurrent(c: Content, rows: seq<Leg>, ids: nat -> Id, r: nat, k: nat)
    requires DistinctLegs(Read(rows)) && DistinctParts(Read(rows)) && DistinctEnds(Needs(c))
    requires r < |rows| && k < |Needs(c)| && Keeps(Read(rows), Needs(c)[k])
    requires KeptLeg(Read(rows), Needs(c)[k]) == Folded(rows[r])
    ensures var leg := Folded(SyncRow(rows[r], Plan(c, Read(rows), ids)));
            Serves(leg, Needs(c)[k]) && Current(c, leg, Needs(c)[k])
  {
    hide FindLeg;
    hide Needs;
    hide Input;
    hide LineOf;
    hide Encoded;
    hide Creates;
    hide PartResets;
    hide Resets;
    var legs, needs := Read(rows), Needs(c);
    var need, leg, plan := needs[k], Folded(rows[r]), Plan(c, legs, ids);
    var row' := SyncRow(rows[r], plan);
    KeptServes(legs, need);
    assert needs[..|needs|] == needs;
    ResetFor(c, legs, needs, |needs|, k);
    FoldTwice(rows[r]);
    FoldTwice(row');
    SyncKeepsIdentity(rows[r], plan);
    FoldKeepsIdentity(rows[r]);
    FoldKeepsIdentity(row');
    if leg.Composite() {
      forall j | 0 <= j < |leg.segments| ensures row'.segments[j].input == NeedPartInput(c, need, row'.segments, j) {
        PartResetFor(c, legs, needs, |needs|, k, j);
        SamePartInput(c, need, rows[r].segments, row'.segments, plan, j);
      }
    }
  }

  lemma FoldKeepsIdentity(row: Leg)
    ensures var leg := Folded(row);
            && leg.id == row.id && leg.dayId == row.dayId && leg.fromItemId == row.fromItemId
            && leg.toItemId == row.toItemId && leg.segments == row.segments && leg.input == row.input
            && leg.Composite() == row.Composite()
    ensures !row.Composite() ==> Folded(row) == row
  {
  }

  /** Resetting parts moves none of them. */
  lemma SamePartInput(c: Content, need: Need, parts: seq<Segment>, parts': seq<Segment>, plan: LegPlan, j: nat)
    requires parts' == SyncParts(parts, plan) && j < |parts|
    ensures NeedPartInput(c, need, parts', j) == NeedPartInput(c, need, parts, j)
  {
    assert forall i :: 0 <= i < |parts| ==> parts'[i].Change() == parts[i].Change() && parts'[i].mode == parts[i].mode;
  }

  // ------------------------------------------------------------- in line after a sync

  /** Identifiers handed out for new legs differ from each other and from the old ones. */
  ghost predicate Fresh(ids: nat -> Id, rows: seq<Leg>) {
    && (forall m: nat, n: nat :: m != n ==> ids(m) != ids(n))
    && (forall n: nat, i :: 0 <= i < |rows| ==> ids(n) != rows[i].id)
  }

  lemma {:induction false} SyncRowsDistinct(rows: seq<Leg>, plan: LegPlan)
    requires DistinctLegs(rows)
    ensures DistinctLegs(SyncRows(rows, plan))
  {
    hide SyncRow;
    if rows != [] {
      var front, last := rows[..|rows| - 1], rows[|rows| - 1];
      SyncRowsDistinct(front, plan);
      SyncKeepsIdentity(last, plan);
      forall i | 0 <= i < |SyncRows(front, plan)| ensures SyncRows(front, plan)[i].id != last.id {
        var r := SyncedRowFrom(front, plan, i);
        SyncKeepsIdentity(front[r], plan);
        assert rows[r] == front[r];
      }
    }
  }

  lemma {:induction false} CreatesDistinct(c: Content, legs: seq<Leg>, ids: nat -> Id, needs: seq<Need>)
    requires DistinctEnds(needs)
    ensures DistinctPairs(Creates(c, legs, ids, needs))
  {
    hide NewLeg;
    hide Keeps;
    if needs != [] {
      var front, last := needs[..|needs| - 1], needs[|needs| - 1];
      var before := Creates(c, legs, ids, front);
      CreatesDistinct(c, legs, ids, front);
      NewLegId(c, legs, ids(|before|), last);
      forall i | 0 <= i < |before| ensures before[i].toItemId != last.to.id {
        var k := CreatedFrom(c, legs, ids, front, i);
        NewLegId(c, legs, ids(i), front[k]);
        assert needs[k] == front[k];
      }
    }
  }

  /** A created leg, once stored, serves its need under its present ends. */
  lemma InsertedIsCurrent(c: Content, legs: seq<Leg>, id: Id, need: Need)
    ensures var row := NewLeg(c, legs, id, need).(preference := Fastest);
            Serves(Folded(row), need) && Current(c, Folded(row), need)
  {
    hide PointText;
    hide LegStart;
    hide LegEnd;
    hide ModeText;
    hide ModeFrom;
    hide Fields;
  }

  lemma ReadDistinct(rows: seq<Leg>)
    requires DistinctLegs(rows)
    ensures DistinctLegs(Read(rows))
    ensures DistinctParts(rows) ==> DistinctParts(Read(rows))
  {
    forall i | 0 <= i < |rows| ensures Read(rows)[i].id == rows[i].id && Read(rows)[i].segments == rows[i].segments {
      FoldKeepsIdentity(rows[i]);
    }
  }

  lemma EveryNeedMet(c: Content, rows: seq<Leg>, ids: nat -> Id, k: nat)
    requires DistinctLegs(rows) && DistinctParts(rows) && DistinctEnds(Needs(c))
    requires k < |Needs(c)|
    ensures HasLeg(c, Read(Synced(rows, Plan(c, Read(rows), ids))), Needs(c)[k])
  {
    hide Needs;
    hide Serves;
    hide Current;
    hide SyncRow;
    hide NewLeg;
    hide Folded;
    hide FindLeg;
    hide Creates;
    hide Resets;
    hide PartResets;
    var legs, needs := Read(rows), Needs(c);
    var plan, need := Plan(c, legs, ids), needs[k];
    var rows' := Synced(rows, plan);
    ReadDistinct(rows);
    if Keeps(legs, need) {
      KeptServes(legs, need);
      KeptIdsAre(legs, needs);
      DeletesAre(legs, KeptIds(legs, needs));
      var r :| 0 <= r < |legs| && legs[r] == KeptLeg(legs, need);
      FoldKeepsIdentity(rows[r]);
      var i := SyncedRowFor(rows, plan, r);
      KeptIsCurrent(c, rows, ids, r, k);
      assert rows'[i] == SyncRow(rows[r], plan);
      assert Read(rows')[i] == Folded(SyncRow(rows[r], plan));
    } else {
      var i := CreatedFor(c, legs, ids, needs, k);
      InsertedIsCurrent(c, legs, ids(i), need);
      var at := |SyncRows(rows, plan)| + i;
      assert rows'[at] == NewLeg(c, legs, ids(i), need).(preference := Fastest);
      assert Read(rows')[at] == Folded(rows'[at]);
    }
  }

  /** The need a stored row serves after the sync, and whether it was kept for it. */
  lemma RowServes(c: Content, rows: seq<Leg>, ids: nat -> Id, at: nat) returns (k: nat)
    requires DistinctLegs(rows)
    requires at < |Synced(rows, Plan(c, Read(rows), ids))|
    ensures k < |Needs(c)| && Serves(Synced(rows, Plan(c, Read(rows), ids))[at], Needs(c)[k])
    ensures Keeps(Read(rows), Needs(c)[k]) <==> at < |SyncRows(rows, Plan(c, Read(rows), ids))|
  {
    hide Needs;
    hide SyncRow;
    hide NewLeg;
    hide Folded;
    hide FindLeg;
    hide Creates;
    hide Resets;
    hide PartResets;
    var legs, needs := Read(rows), Needs(c);
    var plan := Plan(c, legs, ids);
    ReadDistinct(rows);
    if at < |SyncRows(rows, plan)| {
      var r := SyncedRowFrom(rows, plan, at);
      SyncKeepsIdentity(rows[r], plan);
      FoldKeepsIdentity(rows[r]);
      DeletesAre(legs, KeptIds(legs, needs));
      assert legs[r].id in KeptIds(legs, needs);
      k := KeptFor(legs, needs, r);
    } else {
      var i := at - |SyncRows(rows, plan)|;
      k := CreatedFrom(c, legs, ids, needs, i);
      NewLegId(c, legs, ids(i), needs[k]);
    }
  }

  lemma SyncedIds(c: Content, rows: seq<Leg>, ids: nat -> Id)
    requires DistinctLegs(rows) && Fresh(ids, rows)
    ensures DistinctLegs(Synced(rows, Plan(c, Read(rows), ids)))
  {
    hide Needs;
    hide SyncRow;
    hide Creates;
    hide Resets;
    hide PartResets;
    hide Deletes;
    var legs := Read(rows);
    var plan := Plan(c, legs, ids);
    var synced := SyncRows(rows, plan);
    SyncRowsDistinct(rows, plan);
    CreatedIds(c, legs, ids, Needs(c));
    forall i | 0 <= i < |synced| ensures exists r :: 0 <= r < |rows| && rows[r].id == synced[i].id {
      var r := SyncedRowFrom(rows, plan, i);
      SyncKeepsIdentity(rows[r], plan);
    }
  }

  lemma SyncedPairs(c: Content, rows: seq<Leg>, ids: nat -> Id)
    requires DistinctItems(c.items) && DistinctDays(c.days)
    requires DistinctLegs(rows) && Fresh(ids, rows)
    ensures DistinctPairs(Synced(rows, Plan(c, Read(rows), ids)))
  {
    hide Needs;
    hide SyncRow;
    hide FindLeg;
    hide Creates;
    hide Resets;
    hide PartResets;
    hide Plan;
    var legs, needs := Read(rows), Needs(c);
    var plan := Plan(c, legs, ids);
    var rows', count := Synced(rows, plan), |SyncRows(rows, plan)|;
    NeedsAre(c);
    forall i, j | 0 <= i < j < |rows'|
      ensures rows'[i].fromItemId != rows'[j].fromItemId || rows'[i].toItemId != rows'[j].toItemId
    {
      if rows'[i].toItemId == rows'[j].toItemId {
        var k := RowServes(c, rows, ids, i);
        var m := RowServes(c, rows, ids, j);
        assert k == m;
        if j < count {
          KeptRowOnce(c, rows, ids, i, j);
        } else {
          CreatesDistinct(c, legs, ids, needs);
          CreatedPlan(c, legs, ids);
        }
      }
    }
  }

  lemma {:induction false} CreatedPlan(c: Content, legs: seq<Leg>, ids: nat -> Id)
    ensures Plan(c, legs, ids).create == Creates(c, legs, ids, Needs(c))
    ensures Plan(c, legs, ids).delete == Deletes(legs, KeptIds(legs, Needs(c)))
  {
  }

  /** Two rows that were kept do not join the same pair. */
  lemma {:induction false} KeptRowOnce(c: Content, rows: seq<Leg>, ids: nat -> Id, i: nat, j: nat)
    requires DistinctLegs(rows)
    requires i < j < |SyncRows(rows, Plan(c, Read(rows), ids))|
    ensures var synced := SyncRows(rows, Plan(c, Read(rows), ids));
            synced[i].fromItemId != synced[j].fromItemId || synced[i].toItemId != synced[j].toItemId
  {
    hide Needs;
    hide SyncRow;
    hide FindLeg;
    hide Folded;
    hide Plan;
    var legs, needs := Read(rows), Needs(c);
    var plan := Plan(c, legs, ids);
    var synced := SyncRows(rows, plan);
    ReadDistinct(rows);
    SyncRowsDistinct(rows, plan);
    CreatedPlan(c, legs, ids);
    DeletesAre(legs, KeptIds(legs, needs));
    var a := SyncedRowFrom(rows, plan, i);
    var b := SyncedRowFrom(rows, plan, j);
    SyncKeepsIdentity(rows[a], plan);
    SyncKeepsIdentity(rows[b], plan);
    FoldKeepsIdentity(rows[a]);
    FoldKeepsIdentity(rows[b]);
    assert legs[a].id in KeptIds(legs, needs) && legs[b].id in KeptIds(legs, needs);
    assert synced[i].id != synced[j].id;
    if synced[i].fromItemId == synced[j].fromItemId && synced[i].toItemId == synced[j].toItemId {
      KeptOnce(legs, needs, a, b);
    }
  }

  /** After a sync every pair the days need has exactly one leg, keyed by its present
      ends, and nothing else is stored. */
  lemma SyncReconciles(c: Content, rows: seq<Leg>, ids: nat -> Id)
    requires DistinctItems(c.items) && DistinctDays(c.days)
    requires DistinctLegs(rows) && DistinctParts(rows) && Fresh(ids, rows)
    ensures Reconciled(c, Read(Synced(rows, Plan(c, Read(rows), ids))))
    ensures DistinctLegs(Synced(rows, Plan(c, Read(rows), ids)))
  {
    hide Needs;
    hide Synced;
    hide Plan;
    hide Folded;
    hide Current;
    var rows' := Synced(rows, Plan(c, Read(rows), ids));
    NeedsAre(c);
    SyncedIds(c, rows, ids);
    SyncedPairs(c, rows, ids);
    forall i | 0 <= i < |rows'|
      ensures Needed(Read(rows')[i], Needs(c)) && Read(rows')[i].fromItemId == rows'[i].fromItemId
           && Read(rows')[i].toItemId == rows'[i].toItemId
    {
      var k := RowServes(c, rows, ids, i);
      FoldKeepsIdentity(rows'[i]);
      assert Serves(Read(rows')[i], Needs(c)[k]);
    }
    forall k | 0 <= k < |Needs(c)| ensures HasLeg(c, Read(rows'), Needs(c)[k]) {
      EveryNeedMet(c, rows, ids, k);
    }
  }

  /** Reconciling again, whatever identifiers it would give out, changes nothing. */
  lemma Fixpoint(c: Content, rows: seq<Leg>, ids: nat -> Id, again: nat -> Id)
    requires DistinctItems(c.items) && DistinctDays(c.days)
    requires DistinctLegs(rows) && DistinctParts(rows) && Fresh(ids, rows)
    ensures Plan(c, Read(Synced(rows, Plan(c, Read(rows), ids))), again) == NOTHING
  {
    hide Plan;
    hide Synced;
    hide Reconciled;
    var rows' := Synced(rows, Plan(c, Read(rows), ids));
    SyncReconciles(c, rows, ids);
    ReadDistinct(rows');
    NothingToDo(c, Read(rows'), again);
  }
}
