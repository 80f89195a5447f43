/** The guards of a guarded apply (crates/clone-orchestrator/src/apply.rs): the predicted
    footprint a record authorizes, per-channel reconciliation, pre-image coverage by row
    and by column. Each loop with early return is proved against a declarative predicate. */
module ApplyGuards {
  import opened Prelude
  import opened BlastRadius
  import opened Inverse

  datatype RelationChange = RelationChange(relation: Relation, counts: OpCounts)

  datatype Channel = InsChannel | UpdChannel | DelChannel

  datatype CapKind = RowsCap | WalBytesCap

  datatype RefusedOp = DeleteWithoutPreimage | UpdateWithoutPreimage

  datatype GrantFault =
    | ProposalMismatch
    | NoTargetChecksum
    | NoFootprint
    | TargetNotMeasured
    | NoCascadeChecksum(relation: Relation)

  datatype ApplyError =
    | Refused(op: RefusedOp)
    | CapExceeded(relation: Relation, kind: CapKind, cap: U64, live: U64)
    | UnpredictedRelationWrite(relation: Relation, counts: OpCounts)
    | RelationOverWrite(relation: Relation, channel: Channel, predicted: OpCounts, actual: OpCounts)
    | IrreversibleChange(relation: Relation, lost: U64, captured: nat)
    | UncapturedColumn(relation: Relation, pk: seq<Value>, missing: seq<Column>)
    | MissingPreImage(relation: Relation, pk: seq<Value>)
    | SerializationFailure
    | Timeout(timeoutMs: U64)
    | InvalidGrant(fault: GrantFault)
    | Backend(detail: string)

  /** The primary-key column the apply and the revert hard-wire. */
  const PK_COLUMN: Column := "id"

  // ------------------------------------------------------------------ early-return loops

  /** What a loop that returns its first error computes. */
  function FirstFailure<T>(items: seq<T>, check: T -> Option<ApplyError>): Option<ApplyError> {
    if items == [] then None
    else if check(items[0]).Some? then check(items[0])
    else FirstFailure(items[1..], check)
  }

  ghost predicate FailsFirstAt<T>(items: seq<T>, check: T -> Option<ApplyError>, i: nat) {
    i < |items| && check(items[i]).Some? && forall j :: 0 <= j < i ==> check(items[j]).None?
  }

  ghost predicate AllPass<T>(items: seq<T>, check: T -> Option<ApplyError>) {
    forall i :: 0 <= i < |items| ==> check(items[i]).None?
  }

  lemma {:induction false} FirstFailureAt<T>(items: seq<T>, check: T -> Option<ApplyError>, i: nat)
    requires FailsFirstAt(items, check, i)
    ensures FirstFailure(items, check) == check(items[i])
  {
    if i > 0 {
      FirstFailureAt(items[1..], check, i - 1);
    }
  }

  /** The loop passes exactly when every item passes. */
  lemma {:induction false} PassesExactly<T>(items: seq<T>, check: T -> Option<ApplyError>)
    ensures FirstFailure(items, check).None? <==> AllPass(items, check)
  {
    if items != [] {
      PassesExactly(items[1..], check);
      assert items == [items[0]] + items[1..];
    }
  }

  // ------------------------------------------------------------------ the predicted footprint

  datatype Predicted = Predicted(cascades: seq<(Relation, string)>, effectByTable: map<Relation, OpCounts>)

  function Names(cascades: seq<(Relation, string)>): (r: seq<Relation>)
    ensures |r| == |cascades| && forall i :: 0 <= i < |r| ==> r[i] == cascades[i].0
  {
    if cascades == [] then [] else Names(cascades[..|cascades| - 1]) + [cascades[|cascades| - 1].0]
  }

  /** The cascade relations of a record, target left out, each with its checksum. */
  function CascadeChecksums(keys: seq<Relation>, target: Relation, checksums: map<Relation, string>)
    : Result<seq<(Relation, string)>, ApplyError>
  {
    if keys == [] then Success([])
    else
      var earlier := CascadeChecksums(keys[..|keys| - 1], target, checksums);
      var rel := keys[|keys| - 1];
      if earlier.Failure? || rel == target then earlier
      else if rel !in checksums then Failure(InvalidGrant(NoCascadeChecksum(rel)))
      else Success(earlier.value + [(rel, checksums[rel])])
  }

  function FromGrant(dryRun: BlastRadius, target: Relation): Result<Predicted, ApplyError> {
    var affected := dryRun.affected;
    if target !in affected.pkSetChecksum then Failure(InvalidGrant(NoTargetChecksum))
    else if affected.effectByTable == map[] then Failure(InvalidGrant(NoFootprint))
    else if target !in affected.effectByTable then Failure(InvalidGrant(TargetNotMeasured))
    else
      var cascades := CascadeChecksums(SortedKeys(affected.cascadeByTable.Keys), target, affected.pkSetChecksum);
      if cascades.Failure? then Failure(cascades.error)
      else Success(Predicted(cascades.value, affected.effectByTable))
  }

  /** `PredictedBlastRadius::from_grant`. */
  method PredictFromGrant(dryRun: BlastRadius, target: Relation) returns (r: Result<Predicted, ApplyError>)
    ensures r == FromGrant(dryRun, target)
  {
    var affected := dryRun.affected;
    if target !in affected.pkSetChecksum {
      return Failure(InvalidGrant(NoTargetChecksum));
    }
    if affected.effectByTable == map[] {
      return Failure(InvalidGrant(NoFootprint));
    }
    if target !in affected.effectByTable {
      return Failure(InvalidGrant(TargetNotMeasured));
    }
    var cascades := CollectCascades(SortedKeys(affected.cascadeByTable.Keys), target, affected.pkSetChecksum);
    if cascades.Failure? {
      return Failure(cascades.error);
    }
    return Success(Predicted(cascades.value, affected.effectByTable));
  }

  method CollectCascades(keys: seq<Relation>, target: Relation, checksums: map<Relation, string>)
    returns (r: Result<seq<(Relation, string)>, ApplyError>)
    ensures r == CascadeChecksums(keys, target, checksums)
  {
    var cascades: seq<(Relation, string)> := [];
    for i := 0 to |keys|
      invariant CascadeChecksums(keys[..i], target, checksums) == Success(cascades)
    {
      assert keys[..i + 1][..i] == keys[..i];
      var rel := keys[i];
      if rel != target {
        if rel !in checksums {
          CascadeErrorSticks(keys, i + 1, target, checksums);
          return Failure(InvalidGrant(NoCascadeChecksum(rel)));
        }
        cascades := cascades + [(rel, checksums[rel])];
      }
    }
    assert keys[..|keys|] == keys;
    return Success(cascades);
  }

  lemma {:induction false} CascadeErrorSticks(
    keys: seq<Relation>, i: nat, target: Relation, checksums: map<Relation, string>)
    requires i <= |keys| && CascadeChecksums(keys[..i], target, checksums).Failure?
    ensures CascadeChecksums(keys, target, checksums) == CascadeChecksums(keys[..i], target, checksums)
    decreases |keys|
  {
    if i == |keys| {
      assert keys[..i] == keys;
    } else {
      assert keys[..|keys| - 1][..i] == keys[..i];
      CascadeErrorSticks(keys[..|keys| - 1], i, target, checksums);
    }
  }

  /** A record authorizes a write to `target`: keyed, measured, and every cascade keyed. */
  ghost predicate Authorizes(dryRun: BlastRadius, target: Relation) {
    && target in dryRun.affected.pkSetChecksum
    && target in dryRun.affected.effectByTable
    && forall k :: k in dryRun.affected.cascadeByTable && k != target ==> k in dryRun.affected.pkSetChecksum
  }

  lemma {:induction false} CascadeChecksumsExact(
    keys: seq<Relation>, target: Relation, checksums: map<Relation, string>)
    requires Unrepeated(keys)
    ensures var r := CascadeChecksums(keys, target, checksums);
            && (r.Success? <==> forall k :: k in keys && k != target ==> k in checksums)
            && (r.Success? ==>
                && Distinct(target, Names(r.value))
                && forall k :: k in Names(r.value) <==> k in keys && k != target)
  {
    if keys != [] {
      var init, rel := keys[..|keys| - 1], keys[|keys| - 1];
      CascadeChecksumsExact(init, target, checksums);
      assert forall k :: k in keys <==> k in init || k == rel;
      var r := CascadeChecksums(keys, target, checksums);
      var earlier := CascadeChecksums(init, target, checksums);
      if r.Success? && rel != target {
        assert Names(r.value) == Names(earlier.value) + [rel] by {
          assert r.value[..|r.value| - 1] == earlier.value;
        }
        assert rel !in init;
      }
    }
  }

  /** A record is accepted exactly when it authorizes the target; the footprint is then the
      record's own, and the cascades are its cascade relations, once each, target excluded. */
  lemma FromGrantExact(dryRun: BlastRadius, target: Relation)
    ensures var r := FromGrant(dryRun, target);
            && (r.Success? <==> Authorizes(dryRun, target))
            && (r.Success? ==>
                && r.value.effectByTable == dryRun.affected.effectByTable
                && Distinct(target, Names(r.value.cascades))
                && forall k :: k in Names(r.value.cascades) <==> k in dryRun.affected.cascadeByTable && k != target)
  {
    CascadeChecksumsExact(SortedKeys(dryRun.affected.cascadeByTable.Keys), target, dryRun.affected.pkSetChecksum);
  }

  // ------------------------------------------------------------------ reconciliation

  function PredictedFor(predicted: Predicted, rel: Relation): OpCounts {
    if rel in predicted.effectByTable then predicted.effectByTable[rel] else NO_OPS
  }

  function PrimaryChannel(kind: WriteKind): Channel {
    match kind
    case Update => UpdChannel
    case Delete => DelChannel
  }

  /** The first channel that exceeds its prediction, the target's primary one exempt. */
  function OverChannel(p: OpCounts, a: OpCounts, exempt: Option<Channel>): Option<Channel> {
    if a.ins > p.ins && exempt != Some(InsChannel) then Some(InsChannel)
    else if a.upd > p.upd && exempt != Some(UpdChannel) then Some(UpdChannel)
    else if a.del > p.del && exempt != Some(DelChannel) then Some(DelChannel)
    else None
  }

  function ReconcileOne(predicted: Predicted, target: Relation, kind: WriteKind, change: RelationChange)
    : Option<ApplyError>
  {
    if change.counts.Total() == 0 then None
    else if change.relation !in predicted.effectByTable then
      Some(UnpredictedRelationWrite(change.relation, change.counts))
    else
      var p := PredictedFor(predicted, change.relation);
      var exempt := if change.relation == target then Some(PrimaryChannel(kind)) else None;
      match OverChannel(p, change.counts, exempt)
      case None => None
      case Some(channel) => Some(RelationOverWrite(change.relation, channel, p, change.counts))
  }

  /** The change is within its prediction; only the target's primary channel may grow. */
  ghost predicate Foreseen(predicted: Predicted, target: Relation, kind: WriteKind, change: RelationChange) {
    var p, a := PredictedFor(predicted, change.relation), change.counts;
    && (change.relation in predicted.effectByTable || a == NO_OPS)
    && a.ins <= p.ins
    && (a.upd <= p.upd || (change.relation == target && kind == Update))
    && (a.del <= p.del || (change.relation == target && kind == Delete))
  }

  /** `reconcile_full_effect`. */
  method ReconcileFullEffect(predicted: Predicted, target: Relation, kind: WriteKind, deltas: seq<RelationChange>)
    returns (failure: Option<ApplyError>)
    ensures failure == FirstFailure(deltas, c => ReconcileOne(predicted, target, kind, c))
    ensures failure.None? <==> forall i :: 0 <= i < |deltas| ==> Foreseen(predicted, target, kind, deltas[i])
  {
    ghost var check := c => ReconcileOne(predicted, target, kind, c);
    PassesExactly(deltas, check);
    ForeseenExactly(predicted, target, kind, deltas);
    for i := 0 to |deltas|
      invariant forall j :: 0 <= j < i ==> check(deltas[j]).None?
    {
      var change := deltas[i];
      if change.counts.Total() == 0 {
        continue;
      }
      if change.relation !in predicted.effectByTable {
        FirstFailureAt(deltas, check, i);
        return Some(UnpredictedRelationWrite(change.relation, change.counts));
      }
      var p := PredictedFor(predicted, change.relation);
      var exempt := if change.relation == target then Some(PrimaryChannel(kind)) else None;
      var channel := OverChannel(p, change.counts, exempt);
      if channel.Some? {
        FirstFailureAt(deltas, check, i);
        return Some(RelationOverWrite(change.relation, channel.value, p, change.counts));
      }
    }
    return None;
  }

  lemma ForeseenExactly(predicted: Predicted, target: Relation, kind: WriteKind, deltas: seq<RelationChange>)
    ensures AllPass(deltas, c => ReconcileOne(predicted, target, kind, c))
       <==> forall i :: 0 <= i < |deltas| ==> Foreseen(predicted, target, kind, deltas[i])
  {
    var check := c => ReconcileOne(predicted, target, kind, c);
    forall i | 0 <= i < |deltas| ensures check(deltas[i]).None? <==> Foreseen(predicted, target, kind, deltas[i]) {
      var p := PredictedFor(predicted, deltas[i].relation);
    }
  }

  // ------------------------------------------------------------------ row coverage

  /** How many pre-images the inverse holds for a relation; counted, not identified. */
  function CapturedCount(target: Relation, forward: ForwardResult, rel: Relation): nat {
    if rel == target then |forward.written| else |CascadeRows(forward, rel)|
  }

  function CoverageOne(target: Relation, forward: ForwardResult, change: RelationChange): Option<ApplyError> {
    var captured := CapturedCount(target, forward, change.relation);
    if change.counts.Total() == 0 then None
    else if change.counts.del > 0 && captured < change.counts.del then
      Some(IrreversibleChange(change.relation, change.counts.del, captured))
    else if change.relation != target && change.counts.upd > 0 && captured < change.counts.upd then
      Some(IrreversibleChange(change.relation, change.counts.upd, captured))
    else None
  }

  /** Deletes, and updates outside the target, are matched in number by captures. */
  ghost predicate RowsCovered(target: Relation, forward: ForwardResult, change: RelationChange) {
    && change.counts.del <= CapturedCount(target, forward, change.relation)
    && (change.relation == target || change.counts.upd <= CapturedCount(target, forward, change.relation))
  }

  /** `assert_reversible_preimage_coverage`. */
  method AssertReversiblePreimageCoverage(target: Relation, deltas: seq<RelationChange>, forward: ForwardResult)
    returns (failure: Option<ApplyError>)
    ensures failure == FirstFailure(deltas, c => CoverageOne(target, forward, c))
    ensures failure.None? <==> forall i :: 0 <= i < |deltas| ==> RowsCovered(target, forward, deltas[i])
  {
    ghost var check := c => CoverageOne(target, forward, c);
    PassesExactly(deltas, check);
    RowsCoveredExactly(target, forward, deltas);
    for i := 0 to |deltas|
      invariant forall j :: 0 <= j < i ==> check(deltas[j]).None?
    {
      var change := deltas[i];
      if change.counts.Total() == 0 {
        continue;
      }
      var captured := CapturedCount(target, forward, change.relation);
      if change.counts.del > 0 && captured < change.counts.del {
        FirstFailureAt(deltas, check, i);
        return Some(IrreversibleChange(change.relation, change.counts.del, captured));
      }
      if change.relation != target && change.counts.upd > 0 && captured < change.counts.upd {
        FirstFailureAt(deltas, check, i);
        return Some(IrreversibleChange(change.relation, change.counts.upd, captured));
      }
    }
    return None;
  }

  lemma RowsCoveredExactly(target: Relation, forward: ForwardResult, deltas: seq<RelationChange>)
    ensures AllPass(deltas, c => CoverageOne(target, forward, c))
       <==> forall i :: 0 <= i < |deltas| ==> RowsCovered(target, forward, deltas[i])
  {
    var check := c => CoverageOne(target, forward, c);
    forall i | 0 <= i < |deltas| ensures check(deltas[i]).None? <==> RowsCovered(target, forward, deltas[i]) {
      var captured := CapturedCount(target, forward, deltas[i].relation);
    }
  }

  // ------------------------------------------------------------------ column coverage

  function RequiredColumns(forward: ForwardResult): set<Column> {
    set c | c in forward.writtenColumns && c != PK_COLUMN
  }

  function CapturedColumns(row: RowImage): set<Column> {
    set p | p in row.image && p.0 != PK_COLUMN :: p.0
  }

  function ColumnsOne(relation: Relation, forward: ForwardResult, row: RowImage): Option<ApplyError> {
    var required, captured := RequiredColumns(forward), CapturedColumns(row);
    if required == {} then
      if captured == {} then Some(UncapturedColumn(relation, row.pk, ["<any written column>"])) else None
    else if required <= captured then None
    else Some(UncapturedColumn(relation, row.pk, SortedKeys(required - captured)))
  }

  ghost predicate Captures(row: RowImage, c: Column) {
    exists i :: 0 <= i < |row.image| && row.image[i].0 == c
  }

  /** Every written column of every written row has its old value captured; with no
      declared column, at least one non-key column has. */
  ghost predicate ColumnsCovered(kind: WriteKind, forward: ForwardResult) {
    kind == Update ==> forall i :: 0 <= i < |forward.written| ==> RowColumnsCovered(forward, forward.written[i])
  }

  ghost predicate RowColumnsCovered(forward: ForwardResult, row: RowImage) {
    && (forall c :: c in forward.writtenColumns && c != PK_COLUMN ==> Captures(row, c))
    && (exists c :: c != PK_COLUMN && Captures(row, c))
  }

  function ColumnsGuard(kind: WriteKind, relation: Relation, forward: ForwardResult): Option<ApplyError> {
    if kind != Update then None else FirstFailure(forward.written, r => ColumnsOne(relation, forward, r))
  }

  /** `assert_written_column_coverage`. */
  method AssertWrittenColumnCoverage(kind: WriteKind, relation: Relation, forward: ForwardResult)
    returns (failure: Option<ApplyError>)
    ensures failure == ColumnsGuard(kind, relation, forward)
    ensures failure.None? <==> ColumnsCovered(kind, forward)
  {
    ColumnsCoveredExactly(kind, relation, forward);
    if kind != Update {
      return None;
    }
    ghost var check := r => ColumnsOne(relation, forward, r);
    PassesExactly(forward.written, check);
    for i := 0 to |forward.written|
      invariant forall j :: 0 <= j < i ==> check(forward.written[j]).None?
    {
      failure := CheckRowColumns(relation, forward, forward.written[i]);
      if failure.Some? {
        FirstFailureAt(forward.written, check, i);
        return;
      }
    }
    return None;
  }

  /** The loop body: a written row captures every required column, or at least one. */
  method CheckRowColumns(relation: Relation, forward: ForwardResult, row: RowImage)
    returns (failure: Option<ApplyError>)
    ensures failure == ColumnsOne(relation, forward, row)
  {
    var required, captured := RequiredColumns(forward), CapturedColumns(row);
    if required == {} {
      if captured == {} {
        return Some(UncapturedColumn(relation, row.pk, ["<any written column>"]));
      }
      return None;
    }
    var missing := SortedKeys(required - captured);
    if missing != [] {
      assert missing[0] in required - captured;
      return Some(UncapturedColumn(relation, row.pk, missing));
    }
    forall c | c in required ensures c in captured {
      assert c in required - captured <==> c in missing;
    }
    return None;
  }

  lemma CapturedColumnsAre(row: RowImage, c: Column)
    requires c != PK_COLUMN
    ensures c in CapturedColumns(row) <==> Captures(row, c)
  {
    if Captures(row, c) {
      var i :| 0 <= i < |row.image| && row.image[i].0 == c;
      assert row.image[i] in row.image;
    }
  }

  lemma RowColumnsExactly(relation: Relation, forward: ForwardResult, row: RowImage)
    ensures ColumnsOne(relation, forward, row).None? <==> RowColumnsCovered(forward, row)
  {
    var required, captured := RequiredColumns(forward), CapturedColumns(row);
    forall c | c != PK_COLUMN ensures c in captured <==> Captures(row, c) {
      CapturedColumnsAre(row, c);
    }
    if RowColumnsCovered(forward, row) {
      var c :| c != PK_COLUMN && Captures(row, c);
      assert c in captured;
    }
    if ColumnsOne(relation, forward, row).None? {
      forall c | c in forward.writtenColumns && c != PK_COLUMN ensures Captures(row, c) {
        assert c in required;
      }
      assert captured != {} by {
        if required != {} {
          var r :| r in required;
          assert r in captured;
        }
      }
      var c :| c in captured;
      assert c != PK_COLUMN && Captures(row, c);
    }
  }

  lemma ColumnsCoveredExactly(kind: WriteKind, relation: Relation, forward: ForwardResult)
    ensures ColumnsGuard(kind, relation, forward).None? <==> ColumnsCovered(kind, forward)
  {
    var check := r => ColumnsOne(relation, forward, r);
    PassesExactly(forward.written, check);
    forall i | 0 <= i < |forward.written|
      ensures check(forward.written[i]).None? <==> RowColumnsCovered(forward, forward.written[i]) {
      RowColumnsExactly(relation, forward, forward.written[i]);
    }
  }
}
