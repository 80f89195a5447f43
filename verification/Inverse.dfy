/** The typed inverse: how an apply builds it from the captured pre-images
    (crates/clone-orchestrator/src/apply.rs) and how a revert routes its rows back to their
    relations (crates/clone-orchestrator/src/revert.rs). */
module Inverse {
  import opened Prelude
  import opened BlastRadius

  type Column = string

  datatype Value = Int(i: int) | Text(s: string) | Bytes(b: seq<int>) | Null

  /** A row's key tuple and its ordered pre-image; captured, planned and routed alike. */
  datatype RowImage = RowImage(pk: seq<Value>, image: seq<(Column, Value)>)

  /** What the forward statement reported. */
  datatype ForwardResult = ForwardResult(
    written: seq<RowImage>,
    cascadePreimages: map<Relation, seq<RowImage>>,
    writtenColumns: seq<Column>)

  datatype InverseKind = PreimageUpsert | Insert

  datatype InversePlan = InversePlan(
    relation: Relation, kind: InverseKind, rows: seq<RowImage>, fkOrder: seq<Relation>)

  /** The synthetic column that names the relation of a cascade row. */
  const RELATION_STAMP: Column := "__relation"

  function InverseKindOf(kind: WriteKind): InverseKind {
    match kind
    case Update => PreimageUpsert
    case Delete => Insert
  }

  function CascadeRows(forward: ForwardResult, rel: Relation): seq<RowImage> {
    if rel in forward.cascadePreimages then forward.cascadePreimages[rel] else []
  }

  // ------------------------------------------------------------------ building

  function StampRow(rel: Relation, row: RowImage): RowImage {
    row.(image := row.image + [(RELATION_STAMP, Text(rel))])
  }

  function StampAll(rel: Relation, rows: seq<RowImage>): (r: seq<RowImage>)
    ensures |r| == |rows| && forall i :: 0 <= i < |r| ==> r[i] == StampRow(rel, rows[i])
  {
    if rows == [] then [] else StampAll(rel, rows[..|rows| - 1]) + [StampRow(rel, rows[|rows| - 1])]
  }

  /** The stamped rows of the cascade relations, in order. */
  function StampedCascades(cascades: seq<Relation>, forward: ForwardResult): seq<RowImage> {
    if cascades == [] then []
    else
      var last := cascades[|cascades| - 1];
      StampedCascades(cascades[..|cascades| - 1], forward) + StampAll(last, CascadeRows(forward, last))
  }

  /** Target rows as they are, then every cascade's rows with their relation stamped on. */
  function PlanOf(kind: WriteKind, target: Relation, cascades: seq<Relation>, forward: ForwardResult): InversePlan {
    InversePlan(target, InverseKindOf(kind), forward.written + StampedCascades(cascades, forward), [target] + cascades)
  }

  /** `build_inverse`. */
  method BuildInverse(kind: WriteKind, target: Relation, cascades: seq<Relation>, forward: ForwardResult)
    returns (plan: InversePlan)
    ensures plan == PlanOf(kind, target, cascades, forward)
  {
    var rows: seq<RowImage> := [];
    for i := 0 to |forward.written|
      invariant rows == forward.written[..i]
    {
      rows := rows + [forward.written[i]];
    }
    var fkOrder := [target];
    for c := 0 to |cascades|
      invariant rows == forward.written + StampedCascades(cascades[..c], forward)
      invariant fkOrder == [target] + cascades[..c]
    {
      var rel := cascades[c];
      assert cascades[..c + 1] == cascades[..c] + [rel];
      StampedOneMore(cascades[..c], rel, forward);
      if rel in forward.cascadePreimages {
        rows := PushStamped(rows, rel, forward.cascadePreimages[rel]);
      }
      fkOrder := fkOrder + [rel];
    }
    assert cascades[..|cascades|] == cascades;
    plan := InversePlan(target, InverseKindOf(kind), rows, fkOrder);
  }

  /** The inner loop of `build_inverse`: one cascade's rows, each stamped with its relation. */
  method PushStamped(before: seq<RowImage>, rel: Relation, children: seq<RowImage>) returns (rows: seq<RowImage>)
    ensures rows == before + StampAll(rel, children)
  {
    rows := before;
    for i := 0 to |children|
      invariant rows == before + StampAll(rel, children[..i])
    {
      assert children[..i + 1][..i] == children[..i];
      var image := children[i].image + [(RELATION_STAMP, Text(rel))];
      rows := rows + [RowImage(children[i].pk, image)];
    }
    assert children[..|children|] == children;
  }

  // ------------------------------------------------------------------ routing

  datatype RevertError =
    | MalformedInverse(relation: Relation)
    | MalformedRow(relation: Relation)
    | RevertBackend

  type Routed = map<Relation, seq<RowImage>>

  function RowsAt(routed: Routed, rel: Relation): seq<RowImage> {
    if rel in routed then routed[rel] else []
  }

  /** The columns of an image without the routing stamp. */
  function Unstamped(image: seq<(Column, Value)>): seq<(Column, Value)> {
    if image == [] then []
    else
      var last := image[|image| - 1];
      Unstamped(image[..|image| - 1]) + (if last.0 == RELATION_STAMP then [] else [last])
  }

  /** The relation an image is stamped with: the last stamp counts, a stamp that is not
      text is an error, no stamp means the target. */
  function StampOf(image: seq<(Column, Value)>, target: Relation): Result<Relation, RevertError> {
    if image == [] then Success(target)
    else
      var earlier := StampOf(image[..|image| - 1], target);
      var last := image[|image| - 1];
      if earlier.Failure? || last.0 != RELATION_STAMP then earlier
      else if last.1.Text? then Success(last.1.s)
      else Failure(MalformedRow(target))
  }

  function RouteRow(plan: InversePlan, row: RowImage): Result<(Relation, RowImage), RevertError> {
    var stamp := StampOf(row.image, plan.relation);
    if stamp.Failure? then Failure(stamp.error)
    else if stamp.value !in plan.fkOrder then Failure(MalformedInverse(stamp.value))
    else if Unstamped(row.image) == [] then Failure(MalformedRow(stamp.value))
    else Success((stamp.value, RowImage(row.pk, Unstamped(row.image))))
  }

  function Push(routed: Routed, rel: Relation, row: RowImage): Routed {
    routed[rel := RowsAt(routed, rel) + [row]]
  }

  function RouteAll(plan: InversePlan, rows: seq<RowImage>): Result<Routed, RevertError> {
    if rows == [] then Success(map[])
    else
      var earlier := RouteAll(plan, rows[..|rows| - 1]);
      if earlier.Failure? then earlier
      else
        var routed := RouteRow(plan, rows[|rows| - 1]);
        if routed.Failure? then Failure(routed.error)
        else Success(Push(earlier.value, routed.value.0, routed.value.1))
  }

  /** Read one image: its stamp and its real columns. */
  method ReadImage(image: seq<(Column, Value)>, target: Relation)
    returns (stamp: Result<Relation, RevertError>, columns: seq<(Column, Value)>)
    ensures stamp == StampOf(image, target)
    ensures stamp.Success? ==> columns == Unstamped(image)
  {
    var relation: Option<Relation> := None;
    columns := [];
    for i := 0 to |image|
      invariant StampOf(image[..i], target) == Success(if relation.Some? then relation.value else target)
      invariant columns == Unstamped(image[..i])
    {
      assert image[..i + 1][..i] == image[..i];
      var (col, val) := image[i];
      if col == RELATION_STAMP {
        if val.Text? {
          relation := Some(val.s);
        } else {
          StampErrorSticks(image, i + 1, target);
          return Failure(MalformedRow(target)), columns;
        }
      } else {
        columns := columns + [image[i]];
      }
    }
    assert image[..|image|] == image;
    stamp := Success(if relation.Some? then relation.value else target);
  }

  lemma {:induction false} StampErrorSticks(image: seq<(Column, Value)>, i: nat, target: Relation)
    requires i <= |image| && StampOf(image[..i], target).Failure?
    ensures StampOf(image, target) == StampOf(image[..i], target)
    decreases |image|
  {
    if i == |image| {
      assert image[..i] == image;
    } else {
      assert image[..|image| - 1][..i] == image[..i];
      StampErrorSticks(image[..|image| - 1], i, target);
    }
  }

  /** `route_rows`. */
  method RouteRows(plan: InversePlan) returns (result: Result<Routed, RevertError>)
    ensures result == RouteAll(plan, plan.rows)
  {
    var routed: Routed := map[];
    for i := 0 to |plan.rows|
      invariant RouteAll(plan, plan.rows[..i]) == Success(routed)
    {
      assert plan.rows[..i + 1][..i] == plan.rows[..i];
      var row := plan.rows[i];
      var stamp, columns := ReadImage(row.image, plan.relation);
      var failed: Option<RevertError> :=
        if stamp.Failure? then Some(stamp.error)
        else if stamp.value !in plan.fkOrder then Some(MalformedInverse(stamp.value))
        else if columns == [] then Some(MalformedRow(stamp.value))
        else None;
      if failed.Some? {
        RouteErrorSticks(plan, i + 1, plan.rows);
        return Failure(failed.value);
      }
      routed := Push(routed, stamp.value, RowImage(row.pk, columns));
    }
    assert plan.rows[..|plan.rows|] == plan.rows;
    return Success(routed);
  }

  lemma {:induction false} RouteErrorSticks(plan: InversePlan, i: nat, rows: seq<RowImage>)
    requires i <= |rows| && RouteAll(plan, rows[..i]).Failure?
    ensures RouteAll(plan, rows) == RouteAll(plan, rows[..i])
    decreases |rows|
  {
    if i == |rows| {
      assert rows[..i] == rows;
    } else {
      assert rows[..|rows| - 1][..i] == rows[..i];
      RouteErrorSticks(plan, i, rows[..|rows| - 1]);
    }
  }

  // ------------------------------------------------------------------ round trip

  /** A row the routing can carry: some column, and none that uses the stamp's name. */
  ghost predicate Routable(row: RowImage) {
    row.image != [] && forall i :: 0 <= i < |row.image| ==> row.image[i].0 != RELATION_STAMP
  }

  ghost predicate AllRoutable(rows: seq<RowImage>) {
    forall i :: 0 <= i < |rows| ==> Routable(rows[i])
  }

  /** The rows a plan should route to `rel`. */
  function CapturedFor(target: Relation, cascades: seq<Relation>, forward: ForwardResult, rel: Relation)
    : seq<RowImage>
  {
    if rel == target then forward.written
    else if rel in cascades then CascadeRows(forward, rel)
    else []
  }

  /** Routing puts back exactly the captures: each relation its own rows, in order. */
  ghost predicate RoutesBack(
    target: Relation, cascades: seq<Relation>, forward: ForwardResult, r: Result<Routed, RevertError>)
  {
    r.Success? && forall rel :: RowsAt(r.value, rel) == CapturedFor(target, cascades, forward, rel)
  }

  ghost predicate Distinct(target: Relation, cascades: seq<Relation>) {
    && target !in cascades
    && forall i, j :: 0 <= i < j < |cascades| ==> cascades[i] != cascades[j]
  }

  lemma {:induction false} UnstampedKeeps(image: seq<(Column, Value)>, target: Relation)
    requires forall i :: 0 <= i < |image| ==> image[i].0 != RELATION_STAMP
    ensures Unstamped(image) == image && StampOf(image, target) == Success(target)
  {
    if image != [] {
      UnstampedKeeps(image[..|image| - 1], target);
    }
  }

  lemma RouteUnstamped(plan: InversePlan, row: RowImage)
    requires Routable(row) && plan.relation in plan.fkOrder
    ensures RouteRow(plan, row) == Success((plan.relation, row))
  {
    UnstampedKeeps(row.image, plan.relation);
  }

  lemma RouteStamped(plan: InversePlan, rel: Relation, row: RowImage)
    requires Routable(row) && rel in plan.fkOrder
    ensures RouteRow(plan, StampRow(rel, row)) == Success((rel, row))
  {
    var image := StampRow(rel, row).image;
    assert image[..|image| - 1] == row.image;
    UnstampedKeeps(row.image, plan.relation);
    assert image[|image| - 1] == (RELATION_STAMP, Text(rel));
    assert Unstamped(image) == row.image + [] == row.image;
    assert StampOf(image, plan.relation) == Success(rel);
  }

  /** `after` holds `more` at the end of `rel`'s rows, and what `before` held elsewhere. */
  ghost predicate Adds(before: Routed, after: Routed, rel: Relation, more: seq<RowImage>) {
    && RowsAt(after, rel) == RowsAt(before, rel) + more
    && forall other :: other != rel ==> RowsAt(after, other) == RowsAt(before, other)
  }

  lemma RouteOneMore(plan: InversePlan, rows: seq<RowImage>, row: RowImage)
    requires RouteAll(plan, rows).Success? && RouteRow(plan, row).Success?
    ensures var (rel, clean) := RouteRow(plan, row).value;
            RouteAll(plan, rows + [row]) == Success(Push(RouteAll(plan, rows).value, rel, clean))
  {
    assert (rows + [row])[..|rows|] == rows;
  }

  lemma PushAdds(before: Routed, after: Routed, rel: Relation, more: seq<RowImage>, row: RowImage)
    requires Adds(before, after, rel, more)
    ensures Adds(before, Push(after, rel, row), rel, more + [row])
  {
    assert RowsAt(before, rel) + more + [row] == RowsAt(before, rel) + (more + [row]);
    forall other | other != rel ensures RowsAt(Push(after, rel, row), other) == RowsAt(before, other) {
      assert RowsAt(after, other) == RowsAt(before, other);
    }
  }

  /** Each of `stamped` routes to `rel`, as the row of `more` at its place. */
  ghost predicate RouteTo(plan: InversePlan, rel: Relation, stamped: seq<RowImage>, more: seq<RowImage>) {
    |stamped| == |more| && forall i :: 0 <= i < |more| ==> RouteRow(plan, stamped[i]) == Success((rel, more[i]))
  }

  lemma RouteToInit(plan: InversePlan, rel: Relation, stamped: seq<RowImage>, more: seq<RowImage>, n: nat)
    requires RouteTo(plan, rel, stamped, more) && n < |more|
    ensures RouteTo(plan, rel, stamped[..n], more[..n]) && RouteRow(plan, stamped[n]) == Success((rel, more[n]))
  {
  }

  lemma RouteMoreStep(
    plan: InversePlan, rows: seq<RowImage>, before: Routed, rel: Relation, stamped: seq<RowImage>,
    more: seq<RowImage>, mid: Routed)
    requires more != [] && |stamped| == |more|
    requires var n := |more| - 1;
             && RouteAll(plan, rows + stamped[..n]) == Success(mid) && Adds(before, mid, rel, more[..n])
             && RouteRow(plan, stamped[n]) == Success((rel, more[n]))
    ensures var after := Push(mid, rel, more[|more| - 1]);
            RouteAll(plan, rows + stamped) == Success(after) && Adds(before, after, rel, more)
  {
    var n := |more| - 1;
    PushAdds(before, mid, rel, more[..n], more[n]);
    RouteOneMore(plan, rows + stamped[..n], stamped[n]);
    assert rows + stamped == rows + stamped[..n] + [stamped[n]];
    assert more == more[..n] + [more[n]];
  }

  /** Routing more rows for one relation appends them to that relation's list only. */
  lemma {:induction false} RouteMore(
    plan: InversePlan, rows: seq<RowImage>, before: Routed, rel: Relation, stamped: seq<RowImage>, more: seq<RowImage>)
    returns (after: Routed)
    requires RouteAll(plan, rows) == Success(before) && RouteTo(plan, rel, stamped, more)
    ensures RouteAll(plan, rows + stamped) == Success(after) && Adds(before, after, rel, more)
    decreases |more|
  {
    if more == [] {
      assert rows + stamped == rows;
      assert RowsAt(before, rel) + more == RowsAt(before, rel);
      after := before;
    } else {
      var n := |more| - 1;
      RouteToInit(plan, rel, stamped, more, n);
      var mid := RouteMore(plan, rows, before, rel, stamped[..n], more[..n]);
      after := Push(mid, rel, more[n]);
      RouteMoreStep(plan, rows, before, rel, stamped, more, mid);
    }
  }

  lemma TargetRoutesBack(plan: InversePlan, forward: ForwardResult)
    requires plan.relation in plan.fkOrder && AllRoutable(forward.written)
    ensures RoutesBack(plan.relation, [], forward, RouteAll(plan, forward.written))
  {
    var rows := forward.written;
    forall i | 0 <= i < |rows| ensures RouteRow(plan, rows[i]) == Success((plan.relation, rows[i])) {
      RouteUnstamped(plan, rows[i]);
    }
    var after := RouteMore(plan, [], map[], plan.relation, rows, rows);
    assert [] + rows == rows;
  }

  /** One more cascade: its stamped rows come back under its own name. */
  lemma CascadeRoutesBack(
    plan: InversePlan, cascades: seq<Relation>, forward: ForwardResult, rows: seq<RowImage>, rel: Relation)
    requires rel in plan.fkOrder && rel != plan.relation && rel !in cascades
    requires AllRoutable(CascadeRows(forward, rel))
    requires RoutesBack(plan.relation, cascades, forward, RouteAll(plan, rows))
    ensures RoutesBack(plan.relation, cascades + [rel], forward,
                       RouteAll(plan, rows + StampAll(rel, CascadeRows(forward, rel))))
  {
    var children := CascadeRows(forward, rel);
    var stamped := StampAll(rel, children);
    forall i | 0 <= i < |children| ensures RouteRow(plan, stamped[i]) == Success((rel, children[i])) {
      RouteStamped(plan, rel, children[i]);
    }
    var before := RouteAll(plan, rows).value;
    var after := RouteMore(plan, rows, before, rel, stamped, children);
    assert RowsAt(before, rel) == CapturedFor(plan.relation, cascades, forward, rel);
    forall r ensures RowsAt(after, r) == CapturedFor(plan.relation, cascades + [rel], forward, r) {
      assert RowsAt(before, r) == CapturedFor(plan.relation, cascades, forward, r);
      assert r in cascades + [rel] <==> r in cascades || r == rel;
    }
  }

  lemma StampedOneMore(cascades: seq<Relation>, rel: Relation, forward: ForwardResult)
    ensures forward.written + StampedCascades(cascades + [rel], forward) ==
            forward.written + StampedCascades(cascades, forward) + StampAll(rel, CascadeRows(forward, rel))
  {
    assert (cascades + [rel])[..|cascades|] == cascades;
  }

  lemma {:induction false} CascadesRouteBack(plan: InversePlan, cascades: seq<Relation>, forward: ForwardResult, n: nat)
    requires n <= |cascades| && Distinct(plan.relation, cascades)
    requires plan.fkOrder == [plan.relation] + cascades
    requires AllRoutable(forward.written)
    requires forall c :: c in cascades ==> AllRoutable(CascadeRows(forward, c))
    ensures RoutesBack(plan.relation, cascades[..n], forward,
                       RouteAll(plan, forward.written + StampedCascades(cascades[..n], forward)))
  {
    if n == 0 {
      TargetRoutesBack(plan, forward);
      assert forward.written + StampedCascades(cascades[..0], forward) == forward.written;
    } else {
      CascadesRouteBack(plan, cascades, forward, n - 1);
      var rel := cascades[n - 1];
      var rows := forward.written + StampedCascades(cascades[..n - 1], forward);
      CascadeRoutesBack(plan, cascades[..n - 1], forward, rows, rel);
      assert cascades[..n] == cascades[..n - 1] + [rel];
      StampedOneMore(cascades[..n - 1], rel, forward);
    }
  }

  /** Rows that come out of the routing are routable, so a capture that is not cannot. */
  lemma {:induction false} RoutedRowsAreRoutable(plan: InversePlan, rows: seq<RowImage>, rel: Relation)
    requires RouteAll(plan, rows).Success?
    ensures AllRoutable(RowsAt(RouteAll(plan, rows).value, rel))
  {
    if rows != [] {
      RoutedRowsAreRoutable(plan, rows[..|rows| - 1], rel);
      UnstampedIsClean(rows[|rows| - 1].image);
    }
  }

  lemma {:induction false} UnstampedIsClean(image: seq<(Column, Value)>)
    ensures forall i :: 0 <= i < |Unstamped(image)| ==> Unstamped(image)[i].0 != RELATION_STAMP
  {
    if image != [] {
      UnstampedIsClean(image[..|image| - 1]);
    }
  }

  /** A revert recovers exactly what the apply captured, relation by relation, in order and
      with multiplicity, if and only if every captured row has a column and no captured
      column is named like the stamp. The target comes first in the restore order. */
  lemma InverseRoundTrip(kind: WriteKind, target: Relation, cascades: seq<Relation>, forward: ForwardResult)
    requires Distinct(target, cascades)
    ensures var plan := PlanOf(kind, target, cascades, forward);
            && plan.fkOrder[0] == target
            && (RoutesBack(target, cascades, forward, RouteAll(plan, plan.rows)) <==>
                AllRoutable(forward.written) && forall c :: c in cascades ==> AllRoutable(CascadeRows(forward, c)))
  {
    var plan := PlanOf(kind, target, cascades, forward);
    assert cascades[..|cascades|] == cascades;
    if AllRoutable(forward.written) && forall c :: c in cascades ==> AllRoutable(CascadeRows(forward, c)) {
      CascadesRouteBack(plan, cascades, forward, |cascades|);
    }
    if RoutesBack(target, cascades, forward, RouteAll(plan, plan.rows)) {
      forall rel ensures AllRoutable(CapturedFor(target, cascades, forward, rel)) {
        RoutedRowsAreRoutable(plan, plan.rows, rel);
      }
      assert AllRoutable(CapturedFor(target, cascades, forward, target));
      forall c | c in cascades ensures AllRoutable(CascadeRows(forward, c)) {
        assert AllRoutable(CapturedFor(target, cascades, forward, c));
      }
    }
  }
}
