/** Why a guarded apply fails: each error names a fault that is there, quotes the values that
    show it, and is the first in the order of the checks. */
module ApplyErrors {
  import opened Prelude
  import opened BlastRadius
  import opened Inverse
  import opened ApplyGuards
  import opened ApplyEngine
  import opened ApplyOutcome

  // ------------------------------------------------------------------ before the connection

  /** The record is this proposal's and names the target with a checksum and a footprint. */
  ghost predicate TargetRecorded(proposalId: string, relation: Relation, dryRun: BlastRadius) {
    && dryRun.proposalId == proposalId && relation in dryRun.affected.pkSetChecksum
    && relation in dryRun.affected.effectByTable
  }

  ghost predicate Unkeyed(relation: Relation, dryRun: BlastRadius, k: Relation) {
    k in dryRun.affected.cascadeByTable && k != relation && k !in dryRun.affected.pkSetChecksum
  }

  ghost predicate CascadesKeyed(relation: Relation, dryRun: BlastRadius) {
    forall k :: k in dryRun.affected.cascadeByTable ==> !Unkeyed(relation, dryRun, k)
  }

  ghost predicate RecordFault(proposalId: string, relation: Relation, dryRun: BlastRadius, fault: GrantFault) {
    match fault
    case ProposalMismatch => dryRun.proposalId != proposalId
    case NoTargetChecksum => dryRun.proposalId == proposalId && relation !in dryRun.affected.pkSetChecksum
    case NoFootprint =>
      && dryRun.proposalId == proposalId && relation in dryRun.affected.pkSetChecksum
      && dryRun.affected.effectByTable == map[]
    case TargetNotMeasured =>
      && dryRun.proposalId == proposalId && relation in dryRun.affected.pkSetChecksum
      && dryRun.affected.effectByTable != map[] && relation !in dryRun.affected.effectByTable
    case NoCascadeChecksum(k) =>
      && TargetRecorded(proposalId, relation, dryRun) && Unkeyed(relation, dryRun, k)
      && forall j :: Unkeyed(relation, dryRun, j) && j != k ==> Precedes(k, j)
  }

  /** Why a write may not start. */
  ghost predicate RefusedBecause(
    proposalId: string, kind: WriteKind, relation: Relation, dryRun: BlastRadius, cap: WriteCap, e: ApplyError)
  {
    match e
    case InvalidGrant(fault) => RecordFault(proposalId, relation, dryRun, fault)
    case CapExceeded(rel, RowsCap, limit, live) =>
      && TargetRecorded(proposalId, relation, dryRun) && CascadesKeyed(relation, dryRun)
      && rel == relation && limit == cap.maxRows < live == PredictedTotalTuples(dryRun.affected)
    case CapExceeded(rel, WalBytesCap, limit, live) =>
      && TargetRecorded(proposalId, relation, dryRun) && CascadesKeyed(relation, dryRun)
      && PredictedTotalTuples(dryRun.affected) <= cap.maxRows
      && rel == relation && limit == cap.maxWalBytes < live == dryRun.walBytes
    case Refused(op) =>
      && TargetRecorded(proposalId, relation, dryRun) && CascadesKeyed(relation, dryRun)
      && PredictedTotalTuples(dryRun.affected) <= cap.maxRows && dryRun.walBytes <= cap.maxWalBytes
      && !dryRun.reversible && (op == UpdateWithoutPreimage <==> kind == Update)
    case _ => false
  }

  lemma {:induction false} FirstUnkeyed(keys: seq<Relation>, target: Relation, checksums: map<Relation, string>)
    returns (i: nat)
    requires CascadeChecksums(keys, target, checksums).Failure?
    ensures i < |keys| && keys[i] != target && keys[i] !in checksums
    ensures forall j :: 0 <= j < i ==> keys[j] == target || keys[j] in checksums
    ensures CascadeChecksums(keys, target, checksums) == Failure(InvalidGrant(NoCascadeChecksum(keys[i])))
  {
    var n := |keys| - 1;
    if CascadeChecksums(keys[..n], target, checksums).Failure? {
      i := FirstUnkeyed(keys[..n], target, checksums);
    } else {
      i := n;
      AllKeyed(keys[..n], target, checksums);
      forall j | 0 <= j < i ensures keys[j] == target || keys[j] in checksums {
        assert keys[..n][j] == keys[j];
      }
    }
  }

  lemma {:induction false} AllKeyed(keys: seq<Relation>, target: Relation, checksums: map<Relation, string>)
    requires CascadeChecksums(keys, target, checksums).Success?
    ensures forall j :: 0 <= j < |keys| ==> keys[j] == target || keys[j] in checksums
  {
    if keys != [] {
      AllKeyed(keys[..|keys| - 1], target, checksums);
    }
  }

  lemma UnkeyedIsFirst(relation: Relation, dryRun: BlastRadius)
    requires CascadeChecksums(SortedKeys(dryRun.affected.cascadeByTable.Keys), relation,
               dryRun.affected.pkSetChecksum).Failure?
    ensures var e := CascadeChecksums(SortedKeys(dryRun.affected.cascadeByTable.Keys), relation,
              dryRun.affected.pkSetChecksum).error;
            && e.InvalidGrant? && e.fault.NoCascadeChecksum? && Unkeyed(relation, dryRun, e.fault.relation)
            && forall j :: Unkeyed(relation, dryRun, j) && j != e.fault.relation ==> Precedes(e.fault.relation, j)
  {
    var keys := SortedKeys(dryRun.affected.cascadeByTable.Keys);
    var i := FirstUnkeyed(keys, relation, dryRun.affected.pkSetChecksum);
    assert keys[i] in keys;
    forall j | Unkeyed(relation, dryRun, j) && j != keys[i] ensures Precedes(keys[i], j) {
      assert j in keys;
      var n :| 0 <= n < |keys| && keys[n] == j;
    }
  }

  lemma FaultSaysWhy(proposalId: string, dryRun: BlastRadius, relation: Relation)
    requires dryRun.proposalId == proposalId && FromGrant(dryRun, relation).Failure?
    ensures var e := FromGrant(dryRun, relation).error;
            e.InvalidGrant? && RecordFault(proposalId, relation, dryRun, e.fault)
  {
    if TargetRecorded(proposalId, relation, dryRun) {
      UnkeyedIsFirst(relation, dryRun);
    }
  }

  lemma LimitSaysWhy(job: Job)
    requires TargetRecorded(job.proposalId, job.relation, job.dryRun) && CascadesKeyed(job.relation, job.dryRun)
    requires LimitFault(job).Some?
    ensures RefusedBecause(job.proposalId, job.kind, job.relation, job.dryRun, job.cap, LimitFault(job).value)
  {
  }

  lemma RefusalSaysWhy(job: Job)
    requires Precheck(job).Failure?
    ensures RefusedBecause(job.proposalId, job.kind, job.relation, job.dryRun, job.cap, Precheck(job).error)
  {
    if job.dryRun.proposalId == job.proposalId {
      FromGrantExact(job.dryRun, job.relation);
      if FromGrant(job.dryRun, job.relation).Failure? {
        FaultSaysWhy(job.proposalId, job.dryRun, job.relation);
      } else {
        LimitSaysWhy(job);
      }
    }
  }

  // ------------------------------------------------------------------ inside the transaction

  lemma {:induction false} FailsSomewhere<T>(items: seq<T>, check: T -> Option<ApplyError>) returns (i: nat)
    requires FirstFailure(items, check).Some?
    ensures FailsFirstAt(items, check, i) && FirstFailure(items, check) == check(items[i])
  {
    if check(items[0]).Some? {
      i := 0;
    } else {
      var rest := FailsSomewhere(items[1..], check);
      i := rest + 1;
      forall j | 0 <= j < i ensures check(items[j]).None? {
        if j > 0 {
          assert items[1..][j - 1] == items[j];
        }
      }
    }
  }

  /** Change `i` is the first beyond the record. */
  ghost predicate FirstBeyond(
    record: map<Relation, OpCounts>, kind: WriteKind, relation: Relation, deltas: seq<RelationChange>, i: nat)
  {
    && i < |deltas| && !WithinRecord(record, kind, relation, deltas[i])
    && forall j :: 0 <= j < i ==> WithinRecord(record, kind, relation, deltas[j])
  }

  ghost predicate AllWithin(
    record: map<Relation, OpCounts>, kind: WriteKind, relation: Relation, deltas: seq<RelationChange>)
  {
    forall i :: 0 <= i < |deltas| ==> WithinRecord(record, kind, relation, deltas[i])
  }

  /** The channel exceeds its prediction, and no earlier one that counts does. */
  ghost predicate ChannelExceeds(
    kind: WriteKind, relation: Relation, rel: Relation, channel: Channel, predicted: OpCounts, actual: OpCounts)
  {
    match channel
    case InsChannel => actual.ins > predicted.ins
    case UpdChannel =>
      actual.ins <= predicted.ins && actual.upd > predicted.upd && !(rel == relation && kind == Update)
    case DelChannel =>
      && actual.ins <= predicted.ins && (actual.upd <= predicted.upd || (rel == relation && kind == Update))
      && actual.del > predicted.del && !(rel == relation && kind == Delete)
  }

  /** What the first change beyond the record is reported as. */
  ghost predicate BeyondBecause(
    record: map<Relation, OpCounts>, kind: WriteKind, relation: Relation, change: RelationChange, e: ApplyError)
  {
    match e
    case UnpredictedRelationWrite(rel, counts) => change == RelationChange(rel, counts) && rel !in record
    case RelationOverWrite(rel, channel, predicted, actual) =>
      && change == RelationChange(rel, actual) && rel in record && predicted == record[rel]
      && ChannelExceeds(kind, relation, rel, channel, predicted, actual)
    case _ => false
  }

  /** Why the footprint is rejected: the first change beyond the record, or the row cap. */
  ghost predicate FootprintBecause(
    kind: WriteKind, relation: Relation, dryRun: BlastRadius, cap: WriteCap, deltas: seq<RelationChange>,
    e: ApplyError)
  {
    var record := dryRun.affected.effectByTable;
    if AllWithin(record, kind, relation, deltas)
    then && e == CapExceeded(relation, RowsCap, cap.maxRows, Capped(ExactTotal(CountsOf(deltas))))
         && cap.maxRows < Capped(ExactTotal(CountsOf(deltas)))
    else exists i: nat :: FirstBeyond(record, kind, relation, deltas, i)
                     && BeyondBecause(record, kind, relation, deltas[i], e)
  }

  lemma ReconcileOneExactly(
    predicted: Predicted, kind: WriteKind, relation: Relation, change: RelationChange)
    ensures var r := ReconcileOne(predicted, relation, kind, change);
            && (r.None? <==> WithinRecord(predicted.effectByTable, kind, relation, change))
            && (r.Some? ==> BeyondBecause(predicted.effectByTable, kind, relation, change, r.value))
  {
  }

  lemma FootprintSaysWhy(job: Job, predicted: Predicted, deltas: seq<RelationChange>)
    requires predicted.effectByTable == job.dryRun.affected.effectByTable
    requires FootprintGuard(job, predicted, deltas).Some?
    ensures FootprintBecause(job.kind, job.relation, job.dryRun, job.cap, deltas,
              FootprintGuard(job, predicted, deltas).value)
  {
    var check := c => ReconcileOne(predicted, job.relation, job.kind, c);
    var record := predicted.effectByTable;
    forall i | 0 <= i < |deltas|
      ensures check(deltas[i]).None? <==> WithinRecord(record, job.kind, job.relation, deltas[i]) {
      ReconcileOneExactly(predicted, job.kind, job.relation, deltas[i]);
    }
    PassesExactly(deltas, check);
    FoldedTotalIsExact(CountsOf(deltas));
    if FirstFailure(deltas, check).Some? {
      var i := FailsSomewhere(deltas, check);
      ReconcileOneExactly(predicted, job.kind, job.relation, deltas[i]);
      assert FirstBeyond(record, job.kind, job.relation, deltas, i);
    }
  }

  ghost predicate FirstUnmatched(relation: Relation, forward: ForwardResult, deltas: seq<RelationChange>, i: nat) {
    && i < |deltas| && !Matched(relation, forward, deltas[i])
    && forall j :: 0 <= j < i ==> Matched(relation, forward, deltas[j])
  }

  /** What the first unmatched change is reported as: its relation, what would be lost, what was
      captured. */
  ghost predicate UnmatchedBecause(
    relation: Relation, forward: ForwardResult, change: RelationChange, e: ApplyError)
  {
    var captured := Reported(relation, forward, change.relation);
    e == IrreversibleChange(change.relation,
           if change.counts.del > captured then change.counts.del else change.counts.upd, captured)
  }

  ghost predicate FirstUnimaged(forward: ForwardResult, i: nat) {
    && i < |forward.written| && !RowImaged(forward, forward.written[i])
    && forall j :: 0 <= j < i ==> RowImaged(forward, forward.written[j])
  }

  /** What the first row without its columns is reported as: its key and the missing columns. */
  ghost predicate UnimagedBecause(relation: Relation, forward: ForwardResult, row: RowImage, e: ApplyError) {
    && e.UncapturedColumn? && e.relation == relation && e.pk == row.pk
    && if forall c :: c in forward.writtenColumns ==> c == "id" then e.missing == ["<any written column>"]
       else && Ascending(e.missing)
            && forall c :: c in e.missing <==> c in forward.writtenColumns && c != "id" && !HasColumn(row, c)
  }

  /** Why the captures are rejected, or the WAL volume. */
  ghost predicate CoverageBecause(
    kind: WriteKind, relation: Relation, cap: WriteCap, forward: ForwardResult, deltas: seq<RelationChange>, wal: U64,
    e: ApplyError)
  {
    if wal > cap.maxWalBytes then e == CapExceeded(relation, WalBytesCap, cap.maxWalBytes, wal)
    else if forall i :: 0 <= i < |deltas| ==> Matched(relation, forward, deltas[i])
    then kind == Update && exists i: nat :: FirstUnimaged(forward, i)
                                       && UnimagedBecause(relation, forward, forward.written[i], e)
    else exists i: nat :: FirstUnmatched(relation, forward, deltas, i)
                     && UnmatchedBecause(relation, forward, deltas[i], e)
  }

  lemma CoverageOneExactly(relation: Relation, forward: ForwardResult, change: RelationChange)
    ensures var r := CoverageOne(relation, forward, change);
            && (r.None? <==> Matched(relation, forward, change))
            && (r.Some? ==> UnmatchedBecause(relation, forward, change, r.value))
  {
  }

  lemma ColumnsOneSaysWhy(relation: Relation, forward: ForwardResult, row: RowImage)
    requires ColumnsOne(relation, forward, row).Some?
    ensures UnimagedBecause(relation, forward, row, ColumnsOne(relation, forward, row).value)
  {
    var required, captured := RequiredColumns(forward), CapturedColumns(row);
    forall c | c != "id" ensures c in captured <==> HasColumn(row, c) {
      CapturedColumnsAre(row, c);
    }
    if required == {} {
      forall c | c in forward.writtenColumns ensures c == "id" {
        assert c != PK_COLUMN ==> c in required;
      }
    } else {
      var c :| c in required;
      assert c in forward.writtenColumns && c != "id";
    }
  }

  lemma UnmatchedSaysWhy(relation: Relation, forward: ForwardResult, deltas: seq<RelationChange>)
    ensures var r := FirstFailure(deltas, c => CoverageOne(relation, forward, c));
            && (r.None? <==> forall i :: 0 <= i < |deltas| ==> Matched(relation, forward, deltas[i]))
            && (r.Some? ==> exists i: nat :: FirstUnmatched(relation, forward, deltas, i)
                                        && UnmatchedBecause(relation, forward, deltas[i], r.value))
  {
    var check := c => CoverageOne(relation, forward, c);
    forall i | 0 <= i < |deltas| ensures check(deltas[i]).None? <==> Matched(relation, forward, deltas[i]) {
      CoverageOneExactly(relation, forward, deltas[i]);
    }
    PassesExactly(deltas, check);
    if FirstFailure(deltas, check).Some? {
      var i := FailsSomewhere(deltas, check);
      CoverageOneExactly(relation, forward, deltas[i]);
      assert FirstUnmatched(relation, forward, deltas, i);
    }
  }

  lemma UnimagedSaysWhy(relation: Relation, forward: ForwardResult)
    ensures var r := ColumnsGuard(Update, relation, forward);
            r.Some? ==> exists i: nat :: FirstUnimaged(forward, i)
                                    && UnimagedBecause(relation, forward, forward.written[i], r.value)
  {
    var check := r => ColumnsOne(relation, forward, r);
    if FirstFailure(forward.written, check).Some? {
      var i := FailsSomewhere(forward.written, check);
      ColumnsOneSaysWhy(relation, forward, forward.written[i]);
      forall j | 0 <= j <= i ensures RowImaged(forward, forward.written[j]) <==> check(forward.written[j]).None? {
        RowColumnsExactly(relation, forward, forward.written[j]);
        RowImagedExactly(forward, forward.written[j]);
      }
      assert FirstUnimaged(forward, i);
    }
  }

  lemma CoverageSaysWhy(job: Job, forward: ForwardResult, deltas: seq<RelationChange>, wal: U64)
    requires CoverageGuard(job, forward, deltas, wal).Some?
    ensures CoverageBecause(job.kind, job.relation, job.cap, forward, deltas, wal,
              CoverageGuard(job, forward, deltas, wal).value)
  {
    UnmatchedSaysWhy(job.relation, forward, deltas);
    UnimagedSaysWhy(job.relation, forward);
  }

  // ------------------------------------------------------------------ the whole apply

  /** Why an open transaction is rolled back, in the order of the checks. */
  ghost predicate AbortedBecause(
    kind: WriteKind, relation: Relation, dryRun: BlastRadius, cap: WriteCap, a: Answers, e: ApplyError)
  {
    if a.forward.Failure? then e == a.forward.error
    else if a.deltas.Failure? then e == a.deltas.error
    else if !AllWithin(dryRun.affected.effectByTable, kind, relation, a.deltas.value)
            || (ExactTotal(CountsOf(a.deltas.value)) > cap.maxRows && cap.maxRows < U64_MAX)
    then FootprintBecause(kind, relation, dryRun, cap, a.deltas.value, e)
    else if a.walBytes.Failure? then e == a.walBytes.error
    else CoverageBecause(kind, relation, cap, a.forward.value, a.deltas.value, a.walBytes.value, e)
  }

  /** Why an apply fails: refused, not fenced, not begun, aborted, not committed, or committed
      with keys of mixed widths. */
  ghost predicate FailsBecause(
    proposalId: string, kind: WriteKind, relation: Relation, dryRun: BlastRadius, cap: WriteCap, pitr: bool,
    a: Answers, e: ApplyError)
  {
    if !MayStart(proposalId, relation, dryRun, cap) then RefusedBecause(proposalId, kind, relation, dryRun, cap, e)
    else if pitr && a.restorePoint.Failure? then e == a.restorePoint.error
    else if a.begin.Failure? then e == a.begin.error
    else if !MayCommit(proposalId, kind, relation, dryRun, cap, pitr, a)
    then AbortedBecause(kind, relation, dryRun, cap, a, e)
    else if a.commit.Failure? then e == a.commit.error
    else e == BAD_ARITY && !UniformKeys(a.forward.value.written)
  }

  lemma AbortSaysWhy(job: Job, predicted: Predicted, a: Answers)
    requires predicted.effectByTable == job.dryRun.affected.effectByTable && Body(job, predicted, a).Failure?
    ensures AbortedBecause(job.kind, job.relation, job.dryRun, job.cap, a, Body(job, predicted, a).error)
  {
    if a.forward.Success? && a.deltas.Success? {
      var deltas := a.deltas.value;
      FootprintGuardExact(job, predicted, deltas);
      forall i | 0 <= i < |deltas|
        ensures Foreseen(predicted, job.relation, job.kind, deltas[i]) <==>
                WithinRecord(job.dryRun.affected.effectByTable, job.kind, job.relation, deltas[i]) {
      }
      if FootprintGuard(job, predicted, deltas).Some? {
        FootprintSaysWhy(job, predicted, deltas);
      } else if a.walBytes.Success? {
        CoverageSaysWhy(job, a.forward.value, deltas, a.walBytes.value);
      }
    }
  }

  lemma RunSaysWhy(job: Job, a: Answers)
    requires Precheck(job).Success? && RunResult(job, Precheck(job).value, a).Failure?
    ensures FailsBecause(job.proposalId, job.kind, job.relation, job.dryRun, job.cap, job.pitr, a,
              RunResult(job, Precheck(job).value, a).error)
  {
    PrecheckExact(job);
    FromGrantExact(job.dryRun, job.relation);
    var predicted := Precheck(job).value;
    BodyExact(job, predicted, a);
    if Body(job, predicted, a).Failure? {
      AbortSaysWhy(job, predicted, a);
    } else {
      ChecksumExact(a.forward.value.written);
    }
    if Answered(job.pitr, a) {
      GuardsExactly(job, predicted, a.forward.value, a.deltas.value, a.walBytes.value);
    }
  }

  /** Every failure is explained by what the apply was given and what it was answered. */
  lemma FailureSaysWhy(job: Job, a: Answers)
    requires ApplyResult(job, a).Failure?
    ensures FailsBecause(job.proposalId, job.kind, job.relation, job.dryRun, job.cap, job.pitr, a,
              ApplyResult(job, a).error)
  {
    PrecheckExact(job);
    if Precheck(job).Failure? {
      RefusalSaysWhy(job);
    } else {
      RunSaysWhy(job, a);
    }
  }
}
