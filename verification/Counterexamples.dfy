/** Concrete inputs at which the exact conditions of the apply and of the inverse plan fail. The
    first two need a connection that reports composite keys or cascade captures, which the
    PostgreSQL one does not. */
module Counterexamples {
  import opened Prelude
  import opened BlastRadius
  import opened Inverse
  import opened ApplyGuards
  import opened ApplyEngine
  import opened NoFalseAbort
  import TriggerExample

  /** One non-key column, so that a row has something to restore. */
  const IMAGE: seq<(Column, Value)> := [("a", Null)]

  function Answering(forward: ForwardResult, deltas: seq<RelationChange>): Answers {
    Answers(None, Success([]), Success(()), Success(forward), Success(deltas), Success(0), Success(()), Success(()))
  }

  // ------------------------------------------------------------------ an error after a commit

  /** Two written rows whose keys have widths 1 and 2. */
  function MixedWidths(): ForwardResult {
    ForwardResult([RowImage([Int(1)], IMAGE), RowImage([Int(1), Int(2)], IMAGE)], map[], [])
  }

  lemma MixedWidthsCovered()
    ensures ColumnsCovered(Update, MixedWidths()) && !UniformKeys(MixedWidths().written)
  {
    var forward := MixedWidths();
    assert |"a"| == 1 && |PK_COLUMN| == 2;
    forall i | 0 <= i < |forward.written| ensures RowColumnsCovered(forward, forward.written[i]) {
      assert forward.written[i].image[0].0 == "a";
      assert ApplyGuards.Captures(forward.written[i], "a");
    }
    assert |forward.written[1].pk| != |forward.written[0].pk|;
  }

  /** The transaction commits, the server confirms it, and the apply reports an error. */
  lemma ErrorHidesCommit(rel: Relation)
    ensures var job := TriggerExample.JobOf(rel, Update, TriggerExample.ONE_UPDATE);
            var a := Answering(MixedWidths(), [RelationChange(rel, OpCounts(0, 1, 0))]);
            Commits(job, a) && a.commit.Success? && ApplyResult(job, a).Failure?
  {
    var job := TriggerExample.JobOf(rel, Update, TriggerExample.ONE_UPDATE);
    var a := Answering(MixedWidths(), [RelationChange(rel, OpCounts(0, 1, 0))]);
    TriggerExample.RecordIsAssembled(rel, Update, TriggerExample.ONE_UPDATE);
    MixedWidthsCovered();
    assert AsRecorded(job.dryRun, a.deltas.value);
    RehearsedCommits(job, TriggerExample.Measured(rel, TriggerExample.ONE_UPDATE), a);
    ResultMatchesCommit(job, a);
  }

  // ------------------------------------------------------------------ deletes the plan does not cover

  /** A record that predicts one delete on the target and one on a relation that is no cascade. */
  function SideDelete(rel: Relation, other: Relation): BlastRadius {
    BlastRadius([], [],
      Affected(map[rel := 1], map[], map[rel := []], map[rel := OpCounts(0, 0, 1), other := OpCounts(0, 0, 1)], 1),
      0, 0, true)
  }

  function SideJob(rel: Relation, other: Relation): Job {
    Job([], Delete, rel, SideDelete(rel, other), WriteCap(U64_MAX, U64_MAX), false, [])
  }

  /** One row captured for each. */
  function SideCaptures(other: Relation): ForwardResult {
    ForwardResult([RowImage([Int(1)], IMAGE)], map[other := [RowImage([Int(2)], IMAGE)]], [])
  }

  function SideDeltas(rel: Relation, other: Relation): seq<RelationChange> {
    [RelationChange(rel, OpCounts(0, 0, 1)), RelationChange(other, OpCounts(0, 0, 1))]
  }

  lemma SidePasses(rel: Relation, other: Relation, predicted: Predicted)
    requires rel != other && predicted.effectByTable == SideDelete(rel, other).affected.effectByTable
    ensures GuardsPass(SideJob(rel, other), predicted, SideCaptures(other), SideDeltas(rel, other), 0)
  {
    var job, forward, deltas := SideJob(rel, other), SideCaptures(other), SideDeltas(rel, other);
    forall i | 0 <= i < |deltas|
      ensures Foreseen(predicted, rel, Delete, deltas[i]) && RowsCovered(rel, forward, deltas[i]) {
      assert deltas[i].relation == rel || deltas[i].relation == other;
    }
  }

  lemma SideAdmissible(rel: Relation, other: Relation)
    ensures Admissible(SideJob(rel, other))
  {
  }

  /** Every guard passes and the apply commits, but the deleted row of the other relation, though
      captured, is not in the plan. */
  lemma CapturedDeleteNotPlanned(rel: Relation, other: Relation)
    requires rel != other
    ensures var job, a := SideJob(rel, other), Answering(SideCaptures(other), SideDeltas(rel, other));
            && Commits(job, a) && CascadeRows(a.forward.value, other) != []
            && !Restorable(job, a.forward.value, Names(Precheck(job).value.cascades), a.deltas.value[1])
  {
    var job, a := SideJob(rel, other), Answering(SideCaptures(other), SideDeltas(rel, other));
    SideAdmissible(rel, other);
    PrecheckExact(job);
    FromGrantExact(job.dryRun, job.relation);
    SidePasses(rel, other, Precheck(job).value);
    NotPlanned(rel, other, Names(Precheck(job).value.cascades));
  }

  lemma NotPlanned(rel: Relation, other: Relation, cascades: seq<Relation>)
    requires rel != other && other !in cascades
    ensures !Restorable(SideJob(rel, other), SideCaptures(other), cascades, RelationChange(other, OpCounts(0, 0, 1)))
  {
  }

  // ------------------------------------------------------------------ a column named like the stamp

  /** A captured row of the target with a column of its own called `__relation`. */
  function StampedRow(other: Relation): RowImage {
    RowImage([Int(1)], IMAGE + [(RELATION_STAMP, Text(other))])
  }

  /** The plan routes the target's row to another relation. */
  lemma StampColumnMisroutes(target: Relation, other: Relation)
    requires target != other
    ensures var plan := PlanOf(Update, target, [other], ForwardResult([StampedRow(other)], map[], []));
            RouteAll(plan, plan.rows) == Success(map[other := [RowImage([Int(1)], IMAGE)]])
  {
    var forward := ForwardResult([StampedRow(other)], map[], []);
    var plan := PlanOf(Update, target, [other], forward);
    var row := RowImage([Int(1)], IMAGE);
    assert |"a"| == 1 && |RELATION_STAMP| == 10;
    assert Routable(row);
    assert plan.fkOrder[1] == other;
    RouteStamped(plan, other, row);
    assert StampRow(other, row) == StampedRow(other);
    NoCascadeRows([other], forward);
    RouteOneMore(plan, [], StampedRow(other));
    assert plan.rows == [] + [StampedRow(other)];
    var routed: Routed := map[];
    assert RowsAt(routed, other) + [row] == [row];
    assert Push(routed, other, row) == map[other := [row]];
  }

  lemma NoCascadeRows(cascades: seq<Relation>, forward: ForwardResult)
    requires forward.cascadePreimages == map[] && |cascades| == 1
    ensures StampedCascades(cascades, forward) == []
  {
    assert StampedCascades(cascades[..0], forward) == [];
  }
}
