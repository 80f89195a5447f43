/** What a revert runs: one statement per captured row, the target's rows first, then those of the
    cascades in foreign-key order, each list as it was captured; and why it does not start. */
module RevertOrder {
  import opened Prelude
  import opened BlastRadius
  import opened Inverse
  import opened PgTable
  import PgConn

  // ------------------------------------------------------------------ the statements in order

  /** A captured row and the relation it goes back to. */
  type Restore = (Relation, RowImage)

  function Tagged(rel: Relation, rows: seq<RowImage>): (r: seq<Restore>)
    ensures |r| == |rows| && forall i :: 0 <= i < |r| ==> r[i] == (rel, rows[i])
  {
    if rows == [] then [] else Tagged(rel, rows[..|rows| - 1]) + [(rel, rows[|rows| - 1])]
  }

  /** The captured rows in the order they are to be restored in. */
  function Restores(target: Relation, cascades: seq<Relation>, forward: ForwardResult): seq<Restore> {
    if cascades == [] then Tagged(target, forward.written)
    else
      var n := |cascades| - 1;
      Restores(target, cascades[..n], forward) + Tagged(cascades[n], CascadeRows(forward, cascades[n]))
  }

  type Outcome = Result<Database, RevertError>

  /** What a statement makes of the outcome of the earlier ones, by its number. */
  type Runner = (Outcome, Restore, nat) -> Outcome

  /** One statement after the other, the first being number `start`. */
  function RunFrom(run: Runner, earlier: Outcome, restores: seq<Restore>, start: nat): Outcome {
    if restores == [] then earlier
    else
      var n := |restores| - 1;
      run(RunFrom(run, earlier, restores[..n], start), restores[n], start + n)
  }

  /** Each statement restores its row under the firing of its number, unless one before failed. */
  function Restoring(kind: InverseKind, script: Script): Runner {
    (earlier: Outcome, r: Restore, i: nat) => RestoreNext(kind, earlier, r.0, r.1, script(i))
  }

  lemma TaggedMore(rel: Relation, rows: seq<RowImage>)
    requires rows != []
    ensures Tagged(rel, rows)[..|rows| - 1] == Tagged(rel, rows[..|rows| - 1])
    ensures Tagged(rel, rows)[|rows| - 1] == (rel, rows[|rows| - 1])
  {
  }

  lemma RunOneMore(run: Runner, earlier: Outcome, restores: seq<Restore>, last: Restore, start: nat)
    ensures RunFrom(run, earlier, restores + [last], start) ==
            run(RunFrom(run, earlier, restores, start), last, start + |restores|)
  {
    assert (restores + [last])[..|restores|] == restores;
  }

  /** Running two lists is running the first and then the second from where it stopped. */
  lemma {:induction false} RunConcat(run: Runner, earlier: Outcome, a: seq<Restore>, b: seq<Restore>, start: nat)
    ensures RunFrom(run, earlier, a + b, start) == RunFrom(run, RunFrom(run, earlier, a, start), b, start + |a|)
    decreases |b|
  {
    if b == [] {
      assert a + b == a;
    } else {
      var n := |b| - 1;
      RunConcat(run, earlier, a, b[..n], start);
      RunOneMore(run, earlier, a + b[..n], b[n], start);
      assert a + b == a + b[..n] + [b[n]];
    }
  }

  lemma RestoringIs(kind: InverseKind, script: Script, earlier: Outcome, r: Restore, i: nat)
    ensures Restoring(kind, script)(earlier, r, i) == RestoreNext(kind, earlier, r.0, r.1, script(i))
  {
  }

  lemma NextAfterFailure(kind: InverseKind, script: Script, e: RevertError, r: Restore, i: nat)
    ensures Restoring(kind, script)(Failure(e), r, i) == Failure(e)
  {
    RestoringIs(kind, script, Failure(e), r, i);
  }

  lemma {:induction false} FailureSticks(
    kind: InverseKind, script: Script, e: RevertError, restores: seq<Restore>, start: nat)
    ensures RunFrom(Restoring(kind, script), Failure(e), restores, start) == Failure(e)
  {
    if restores != [] {
      var n := |restores| - 1;
      FailureSticks(kind, script, e, restores[..n], start);
      NextAfterFailure(kind, script, e, restores[n], start + n);
    }
  }

  lemma RelationUnfolds(
    kind: InverseKind, db: Database, rel: Relation, rows: seq<RowImage>, script: Script, start: nat)
    requires rows != []
    ensures var n := |rows| - 1;
            RestoreRelation(kind, db, rel, rows, script, start) ==
            Restoring(kind, script)(RestoreRelation(kind, db, rel, rows[..n], script, start), (rel, rows[n]), start + n)
  {
    var n := |rows| - 1;
    RestoringIs(kind, script, RestoreRelation(kind, db, rel, rows[..n], script, start), (rel, rows[n]), start + n);
  }

  lemma TaggedRuns(run: Runner, first: Outcome, rel: Relation, rows: seq<RowImage>, start: nat)
    requires rows != []
    ensures var n := |rows| - 1;
            RunFrom(run, first, Tagged(rel, rows), start) ==
            run(RunFrom(run, first, Tagged(rel, rows[..n]), start), (rel, rows[n]), start + n)
  {
    TaggedMore(rel, rows);
  }

  lemma {:induction false} RelationRuns(
    kind: InverseKind, db: Database, rel: Relation, rows: seq<RowImage>, script: Script, start: nat)
    ensures RestoreRelation(kind, db, rel, rows, script, start) ==
            RunFrom(Restoring(kind, script), Success(db), Tagged(rel, rows), start)
  {
    if rows != [] {
      RelationRuns(kind, db, rel, rows[..|rows| - 1], script, start);
      RelationUnfolds(kind, db, rel, rows, script, start);
      TaggedRuns(Restoring(kind, script), Success(db), rel, rows, start);
    }
  }

  /** The rows routed to each relation are its captures. */
  ghost predicate RoutedAsCaptured(
    target: Relation, cascades: seq<Relation>, forward: ForwardResult, routed: Routed)
  {
    forall rel :: RowsAt(routed, rel) == CapturedFor(target, cascades, forward, rel)
  }

  lemma RowsOfCascade(
    target: Relation, cascades: seq<Relation>, forward: ForwardResult, routed: Routed, n: nat)
    requires n < |cascades| && Distinct(target, cascades) && RoutedAsCaptured(target, cascades, forward, routed)
    ensures RowsAt(routed, cascades[n]) == CascadeRows(forward, cascades[n])
  {
    assert RowsAt(routed, cascades[n]) == CapturedFor(target, cascades, forward, cascades[n]);
  }

  lemma RestoresMore(target: Relation, cascades: seq<Relation>, rel: Relation, forward: ForwardResult)
    ensures Restores(target, cascades + [rel], forward) ==
            Restores(target, cascades, forward) + Tagged(rel, CascadeRows(forward, rel))
  {
    assert (cascades + [rel])[..|cascades|] == cascades;
  }

  /** Restoring the relations of `order` is running `restores`. */
  ghost predicate OrderRuns(
    kind: InverseKind, db: Database, order: seq<Relation>, routed: Routed, restores: seq<Restore>, script: Script)
  {
    && Statements(order, routed) == |restores|
    && RestoreAll(kind, db, order, routed, script) == RunFrom(Restoring(kind, script), Success(db), restores, 0)
  }

  lemma RelationAfter(
    kind: InverseKind, earlier: Outcome, rel: Relation, rows: seq<RowImage>, script: Script, start: nat)
    ensures RunFrom(Restoring(kind, script), earlier, Tagged(rel, rows), start) ==
            if earlier.Failure? then earlier else RestoreRelation(kind, earlier.value, rel, rows, script, start)
  {
    if earlier.Failure? {
      FailureSticks(kind, script, earlier.error, Tagged(rel, rows), start);
    } else {
      RelationRuns(kind, earlier.value, rel, rows, script, start);
    }
  }

  lemma OneMoreRuns(
    kind: InverseKind, db: Database, order: seq<Relation>, rel: Relation, routed: Routed, restores: seq<Restore>,
    script: Script)
    requires OrderRuns(kind, db, order, routed, restores, script)
    ensures OrderRuns(kind, db, order + [rel], routed, restores + Tagged(rel, RowsAt(routed, rel)), script)
  {
    PgConn.AllOneMore(kind, db, order, rel, routed, script);
    RelationAfter(kind, RestoreAll(kind, db, order, routed, script), rel, RowsAt(routed, rel), script, |restores|);
    RunExtended(Restoring(kind, script), Success(db), restores, Tagged(rel, RowsAt(routed, rel)),
      RestoreAll(kind, db, order, routed, script), RestoreAll(kind, db, order + [rel], routed, script));
  }

  lemma RunExtended(
    run: Runner, first: Outcome, restores: seq<Restore>, more: seq<Restore>, earlier: Outcome, later: Outcome)
    requires earlier == RunFrom(run, first, restores, 0) && later == RunFrom(run, earlier, more, |restores|)
    ensures later == RunFrom(run, first, restores + more, 0)
  {
    RunConcat(run, first, restores, more, 0);
  }

  lemma OneMoreRunsAs(
    kind: InverseKind, db: Database, order: seq<Relation>, rel: Relation, routed: Routed, restores: seq<Restore>,
    order': seq<Relation>, restores': seq<Restore>, script: Script)
    requires OrderRuns(kind, db, order, routed, restores, script)
    requires order' == order + [rel] && restores' == restores + Tagged(rel, RowsAt(routed, rel))
    ensures OrderRuns(kind, db, order', routed, restores', script)
  {
    OneMoreRuns(kind, db, order, rel, routed, restores, script);
  }

  lemma OrderMore(target: Relation, init: seq<Relation>, rel: Relation)
    ensures [target] + (init + [rel]) == [target] + init + [rel]
  {
  }

  lemma CascadeRuns(
    kind: InverseKind, db: Database, target: Relation, init: seq<Relation>, rel: Relation, forward: ForwardResult,
    routed: Routed, script: Script)
    requires RowsAt(routed, rel) == CascadeRows(forward, rel)
    requires OrderRuns(kind, db, [target] + init, routed, Restores(target, init, forward), script)
    ensures OrderRuns(kind, db, [target] + (init + [rel]), routed, Restores(target, init + [rel], forward), script)
  {
    OrderMore(target, init, rel);
    RestoresMore(target, init, rel, forward);
    OneMoreRunsAs(kind, db, [target] + init, rel, routed, Restores(target, init, forward),
      [target] + (init + [rel]), Restores(target, init + [rel], forward), script);
  }

  /** What holds of nothing and is kept by one more holds of every prefix. */
  lemma {:induction false} PrefixInduction(names: seq<Relation>, holds: seq<Relation> -> bool, n: nat)
    requires n <= |names| && holds([])
    requires forall k :: 0 <= k < |names| && holds(names[..k]) ==> holds(names[..k] + [names[k]])
    ensures holds(names[..n])
  {
    if n == 0 {
      assert names[..0] == [];
    } else {
      PrefixInduction(names, holds, n - 1);
      assert names[..n] == names[..n - 1] + [names[n - 1]];
    }
  }

  lemma AllRuns(
    kind: InverseKind, db: Database, target: Relation, cascades: seq<Relation>, forward: ForwardResult,
    routed: Routed, script: Script)
    requires Distinct(target, cascades) && RoutedAsCaptured(target, cascades, forward, routed)
    ensures OrderRuns(kind, db, [target] + cascades, routed, Restores(target, cascades, forward), script)
  {
    var holds := (init: seq<Relation>) =>
      OrderRuns(kind, db, [target] + init, routed, Restores(target, init, forward), script);
    TargetRuns(kind, db, target, cascades, forward, routed, script);
    assert [target] + [] == [target];
    forall k | 0 <= k < |cascades| && holds(cascades[..k]) ensures holds(cascades[..k] + [cascades[k]]) {
      RowsOfCascade(target, cascades, forward, routed, k);
      CascadeRuns(kind, db, target, cascades[..k], cascades[k], forward, routed, script);
    }
    PrefixInduction(cascades, holds, |cascades|);
    assert cascades[..|cascades|] == cascades;
  }

  lemma TargetRuns(
    kind: InverseKind, db: Database, target: Relation, cascades: seq<Relation>, forward: ForwardResult,
    routed: Routed, script: Script)
    requires RoutedAsCaptured(target, cascades, forward, routed)
    ensures OrderRuns(kind, db, [target], routed, Restores(target, [], forward), script)
  {
    assert RowsAt(routed, target) == CapturedFor(target, cascades, forward, target);
    assert OrderRuns(kind, db, [], routed, [], script);
    OneMoreRuns(kind, db, [], target, routed, [], script);
    assert [] + [target] == [target];
    assert [] + Tagged(target, forward.written) == Tagged(target, forward.written);
  }

  /** Reverting the plan of an apply runs, one after the other and up to the first error, the
      restoring statement of every captured row: the target's first, then each cascade's in the
      plan's order. Every other relation is left to the triggers. */
  lemma RevertRunsCaptures(
    kind: WriteKind, target: Relation, cascades: seq<Relation>, forward: ForwardResult, db: Database, script: Script)
    requires Distinct(target, cascades) && AllRoutable(forward.written)
    requires forall c :: c in cascades ==> AllRoutable(CascadeRows(forward, c))
    ensures Reverted(PlanOf(kind, target, cascades, forward), db, script) ==
            RunFrom(Restoring(if kind == Update then PreimageUpsert else Insert, script), Success(db),
              Restores(target, cascades, forward), 0)
  {
    var plan := PlanOf(kind, target, cascades, forward);
    InverseRoundTrip(kind, target, cascades, forward);
    var routed := RouteAll(plan, plan.rows).value;
    AllRuns(plan.kind, db, target, cascades, forward, routed, script);
  }

  // ------------------------------------------------------------------ why a plan cannot be routed

  /** Some stamp is not text. */
  ghost predicate BadStamp(image: seq<(Column, Value)>) {
    exists k :: 0 <= k < |image| && image[k].0 == RELATION_STAMP && !image[k].1.Text?
  }

  /** The last stamp names `rel`, or there is none and `rel` is the target. */
  ghost predicate GoesTo(image: seq<(Column, Value)>, target: Relation, rel: Relation) {
    if NoStamp(image) then rel == target
    else exists k :: LastStamp(image, k) && image[k].1 == Text(rel)
  }

  ghost predicate LastStamp(image: seq<(Column, Value)>, k: int) {
    0 <= k < |image| && image[k].0 == RELATION_STAMP
    && forall j :: k < j < |image| ==> image[j].0 != RELATION_STAMP
  }

  /** Every column is a stamp. */
  ghost predicate OnlyStamps(image: seq<(Column, Value)>) {
    forall k :: 0 <= k < |image| ==> image[k].0 == RELATION_STAMP
  }

  lemma {:induction false} StampIs(image: seq<(Column, Value)>, target: Relation)
    ensures StampOf(image, target).Failure? <==> BadStamp(image)
    ensures StampOf(image, target).Failure? ==> StampOf(image, target).error == MalformedRow(target)
    ensures StampOf(image, target).Success? ==> GoesTo(image, target, StampOf(image, target).value)
    ensures Unstamped(image) == [] <==> OnlyStamps(image)
  {
    if image != [] {
      var n := |image| - 1;
      StampIs(image[..n], target);
      BadStampInit(image);
      if StampOf(image, target).Success? {
        GoesToInit(image, target, StampOf(image, target).value);
      }
      assert forall k :: 0 <= k < n ==> image[..n][k] == image[k];
    }
  }

  lemma BadStampInit(image: seq<(Column, Value)>)
    requires image != []
    ensures var n := |image| - 1;
            BadStamp(image) <==> BadStamp(image[..n]) || (image[n].0 == RELATION_STAMP && !image[n].1.Text?)
  {
    var n := |image| - 1;
    assert forall k :: 0 <= k < n ==> image[..n][k] == image[k];
    if BadStamp(image[..n]) {
      var k :| 0 <= k < n && image[..n][k].0 == RELATION_STAMP && !image[..n][k].1.Text?;
      assert image[k].0 == RELATION_STAMP && !image[k].1.Text?;
    }
    if BadStamp(image) && !(image[n].0 == RELATION_STAMP && !image[n].1.Text?) {
      var k :| 0 <= k < |image| && image[k].0 == RELATION_STAMP && !image[k].1.Text?;
      assert image[..n][k].0 == RELATION_STAMP && !image[..n][k].1.Text?;
    }
  }

  ghost predicate NoStamp(image: seq<(Column, Value)>) {
    forall k :: 0 <= k < |image| ==> image[k].0 != RELATION_STAMP
  }

  lemma LastStampInit(image: seq<(Column, Value)>, k: int)
    requires image != [] && image[|image| - 1].0 != RELATION_STAMP && LastStamp(image[..|image| - 1], k)
    ensures LastStamp(image, k) && image[k] == image[..|image| - 1][k]
  {
  }

  lemma NoStampInit(image: seq<(Column, Value)>)
    requires image != [] && image[|image| - 1].0 != RELATION_STAMP
    ensures NoStamp(image) <==> NoStamp(image[..|image| - 1])
  {
    var n := |image| - 1;
    if NoStamp(image[..n]) {
      forall k | 0 <= k < |image| ensures image[k].0 != RELATION_STAMP {
        assert k < n ==> image[..n][k] == image[k];
      }
    }
  }

  lemma GoesToInit(image: seq<(Column, Value)>, target: Relation, rel: Relation)
    requires image != []
    requires var n := |image| - 1;
             if image[n].0 == RELATION_STAMP then image[n].1 == Text(rel) else GoesTo(image[..n], target, rel)
    ensures GoesTo(image, target, rel)
  {
    var n := |image| - 1;
    if image[n].0 == RELATION_STAMP {
      assert LastStamp(image, n) && image[n].1 == Text(rel);
    } else {
      NoStampInit(image);
      if !NoStamp(image) {
        var k :| LastStamp(image[..n], k) && image[..n][k].1 == Text(rel);
        LastStampInit(image, k);
      }
    }
  }

  /** Why a row cannot be routed: a stamp that is not text, a relation the plan does not list, or
      no column to restore. */
  ghost predicate RowFault(plan: InversePlan, row: RowImage, e: RevertError) {
    if BadStamp(row.image) then e == MalformedRow(plan.relation)
    else exists rel :: GoesTo(row.image, plan.relation, rel)
                       && if rel !in plan.fkOrder then e == MalformedInverse(rel)
                          else OnlyStamps(row.image) && e == MalformedRow(rel)
  }

  lemma RowSaysWhy(plan: InversePlan, row: RowImage)
    requires RouteRow(plan, row).Failure?
    ensures RowFault(plan, row, RouteRow(plan, row).error)
  {
    StampIs(row.image, plan.relation);
    if !BadStamp(row.image) {
      assert GoesTo(row.image, plan.relation, StampOf(row.image, plan.relation).value);
    }
  }

  /** A plan that cannot be routed is refused for its first row that cannot be. */
  lemma {:induction false} RoutingSaysWhy(plan: InversePlan, rows: seq<RowImage>) returns (i: nat)
    requires RouteAll(plan, rows).Failure?
    ensures i < |rows| && RowFault(plan, rows[i], RouteAll(plan, rows).error)
    ensures forall j :: 0 <= j < i ==> RouteRow(plan, rows[j]).Success?
  {
    var n := |rows| - 1;
    if RouteAll(plan, rows[..n]).Failure? {
      i := RoutingSaysWhy(plan, rows[..n]);
      assert forall j :: 0 <= j < i ==> rows[..n][j] == rows[j];
    } else {
      i := n;
      RowSaysWhy(plan, rows[n]);
      AllRouted(plan, rows[..n]);
      assert forall j :: 0 <= j < n ==> rows[..n][j] == rows[j];
    }
  }

  lemma {:induction false} AllRouted(plan: InversePlan, rows: seq<RowImage>)
    requires RouteAll(plan, rows).Success?
    ensures forall j :: 0 <= j < |rows| ==> RouteRow(plan, rows[j]).Success?
  {
    if rows != [] {
      AllRouted(plan, rows[..|rows| - 1]);
    }
  }
}
