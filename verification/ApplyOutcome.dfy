/** What a guarded apply sends, commits and reports, in terms of what it is given: the statement's
    kind and relation, the rehearsed record, the cap and the connection's answers. Nothing here
    is said through the functions the apply is modelled with. */
module ApplyOutcome {
  import opened Prelude
  import opened BlastRadius
  import opened Inverse
  import opened ApplyGuards
  import opened ApplyEngine

  // ------------------------------------------------------------------ what may be committed

  /** The record is this proposal's, keyed, measured on the target and reversible, and the cap
      admits it. */
  ghost predicate MayStart(proposalId: string, relation: Relation, dryRun: BlastRadius, cap: WriteCap) {
    && dryRun.proposalId == proposalId && dryRun.reversible
    && relation in dryRun.affected.pkSetChecksum && relation in dryRun.affected.effectByTable
    && (forall k :: k in dryRun.affected.cascadeByTable && k != relation ==> k in dryRun.affected.pkSetChecksum)
    && PredictedTotalTuples(dryRun.affected) <= cap.maxRows && dryRun.walBytes <= cap.maxWalBytes
  }

  /** No count of the change exceeds the recorded one, except that the statement's own channel
      on its own relation is left to the cap. */
  ghost predicate WithinRecord(
    record: map<Relation, OpCounts>, kind: WriteKind, relation: Relation, change: RelationChange)
  {
    || change.counts == OpCounts(0, 0, 0)
    || (&& change.relation in record
        && change.counts.ins <= record[change.relation].ins
        && (change.counts.upd <= record[change.relation].upd || (change.relation == relation && kind == Update))
        && (change.counts.del <= record[change.relation].del || (change.relation == relation && kind == Delete)))
  }

  /** How many old rows were reported for a relation. */
  ghost function Reported(relation: Relation, forward: ForwardResult, rel: Relation): nat {
    if rel == relation then |forward.written|
    else if rel in forward.cascadePreimages then |forward.cascadePreimages[rel]| else 0
  }

  /** Each deleted row, and each updated row elsewhere than in the target, is matched by one. */
  ghost predicate Matched(relation: Relation, forward: ForwardResult, change: RelationChange) {
    && change.counts.del <= Reported(relation, forward, change.relation)
    && (change.relation != relation ==> change.counts.upd <= Reported(relation, forward, change.relation))
  }

  /** The image has a value for the column. */
  ghost predicate HasColumn(row: RowImage, c: Column) {
    exists j :: 0 <= j < |row.image| && row.image[j].0 == c
  }

  /** The image has every declared column, `id` aside, and at least one column besides `id`. */
  ghost predicate RowImaged(forward: ForwardResult, row: RowImage) {
    && (forall c :: c in forward.writtenColumns && c != "id" ==> HasColumn(row, c))
    && (exists c :: c != "id" && HasColumn(row, c))
  }

  /** The measured changes stay within record and cap, and are matched by captures. */
  ghost predicate StaysWithin(
    kind: WriteKind, relation: Relation, dryRun: BlastRadius, cap: WriteCap,
    forward: ForwardResult, deltas: seq<RelationChange>, wal: U64)
  {
    && (forall i :: 0 <= i < |deltas| ==> WithinRecord(dryRun.affected.effectByTable, kind, relation, deltas[i]))
    && (ExactTotal(CountsOf(deltas)) <= cap.maxRows || cap.maxRows == U64_MAX) && wal <= cap.maxWalBytes
    && (forall i :: 0 <= i < |deltas| ==> Matched(relation, forward, deltas[i]))
    && (kind == Update ==> forall i :: 0 <= i < |forward.written| ==> RowImaged(forward, forward.written[i]))
  }

  /** Every call up to the commit was answered. */
  ghost predicate Answered(pitr: bool, a: Answers) {
    && (pitr ==> a.restorePoint.Success?) && a.begin.Success?
    && a.forward.Success? && a.deltas.Success? && a.walBytes.Success?
  }

  ghost predicate MayCommit(
    proposalId: string, kind: WriteKind, relation: Relation, dryRun: BlastRadius, cap: WriteCap, pitr: bool, a: Answers)
  {
    && MayStart(proposalId, relation, dryRun, cap) && Answered(pitr, a)
    && StaysWithin(kind, relation, dryRun, cap, a.forward.value, a.deltas.value, a.walBytes.value)
  }

  lemma RowImagedExactly(forward: ForwardResult, row: RowImage)
    ensures RowImaged(forward, row) <==> RowColumnsCovered(forward, row)
  {
    forall c ensures HasColumn(row, c) <==> ApplyGuards.Captures(row, c) {
    }
    if RowImaged(forward, row) {
      var c :| c != "id" && HasColumn(row, c);
      assert ApplyGuards.Captures(row, c);
    }
    if RowColumnsCovered(forward, row) {
      var c :| c != PK_COLUMN && ApplyGuards.Captures(row, c);
      assert HasColumn(row, c);
    }
  }

  lemma ColumnsExactly(kind: WriteKind, forward: ForwardResult)
    ensures ColumnsCovered(kind, forward) <==>
            (kind == Update ==> forall i :: 0 <= i < |forward.written| ==> RowImaged(forward, forward.written[i]))
  {
    forall i | 0 <= i < |forward.written|
      ensures RowImaged(forward, forward.written[i]) <==> RowColumnsCovered(forward, forward.written[i]) {
      RowImagedExactly(forward, forward.written[i]);
    }
  }

  lemma GuardsExactly(
    job: Job, predicted: Predicted, forward: ForwardResult, deltas: seq<RelationChange>, wal: U64)
    requires predicted.effectByTable == job.dryRun.affected.effectByTable
    ensures GuardsPass(job, predicted, forward, deltas, wal) <==>
            StaysWithin(job.kind, job.relation, job.dryRun, job.cap, forward, deltas, wal)
  {
    ColumnsExactly(job.kind, forward);
    forall i | 0 <= i < |deltas|
      ensures Foreseen(predicted, job.relation, job.kind, deltas[i]) <==>
              WithinRecord(job.dryRun.affected.effectByTable, job.kind, job.relation, deltas[i])
      ensures RowsCovered(job.relation, forward, deltas[i]) <==> Matched(job.relation, forward, deltas[i]) {
    }
  }

  /** The commit is sent exactly when the record and the cap admit the write, every call was
      answered, and what was measured stays within them with captures to undo it. */
  lemma CommitExactly(job: Job, a: Answers)
    ensures Commit in ApplyCalls(job, a) <==>
            MayCommit(job.proposalId, job.kind, job.relation, job.dryRun, job.cap, job.pitr, a)
  {
    CommitOnlyAfterGuards(job, a);
    PrecheckExact(job);
    FromGrantExact(job.dryRun, job.relation);
    if MayStart(job.proposalId, job.relation, job.dryRun, job.cap) && Answered(job.pitr, a) {
      GuardsExactly(job, Precheck(job).value, a.forward.value, a.deltas.value, a.walBytes.value);
    }
  }

  // ------------------------------------------------------------------ what is sent

  ghost predicate Ascending(names: seq<Relation>) {
    forall i, j :: 0 <= i < j < |names| ==> Precedes(names[i], names[j])
  }

  /** The recorded cascade relations in name order, the target left out. */
  ghost predicate CascadeList(dryRun: BlastRadius, relation: Relation, names: seq<Relation>) {
    && Ascending(names)
    && forall k :: k in names <==> k in dryRun.affected.cascadeByTable && k != relation
  }

  /** Three times the rehearsal's duration, at least a second, at most what 64 bits hold. */
  ghost function TimeoutFor(durationMs: U64): nat {
    if 3 * durationMs < 1000 then 1000 else if 3 * durationMs > U64_MAX then U64_MAX else 3 * durationMs
  }

  lemma AscendsFurther(names: seq<Relation>, keys: seq<Relation>, rel: Relation)
    requires Ascending(names) && Ascending(keys + [rel]) && forall k :: k in names ==> k in keys
    ensures Ascending(names + [rel])
  {
    forall i | 0 <= i < |names| ensures Precedes(names[i], rel) {
      assert names[i] in keys;
      var k :| 0 <= k < |keys| && keys[k] == names[i];
      assert (keys + [rel])[k] == names[i] && (keys + [rel])[|keys|] == rel;
    }
  }

  lemma NamesMore(cascades: seq<(Relation, string)>, rel: Relation, checksum: string)
    ensures Names(cascades + [(rel, checksum)]) == Names(cascades) + [rel]
  {
    assert (cascades + [(rel, checksum)])[..|cascades|] == cascades;
  }

  lemma {:induction false} CascadesAscend(keys: seq<Relation>, target: Relation, checksums: map<Relation, string>)
    requires Ascending(keys) && CascadeChecksums(keys, target, checksums).Success?
    ensures var names := Names(CascadeChecksums(keys, target, checksums).value);
            Ascending(names) && forall k :: k in names ==> k in keys
  {
    if keys != [] {
      var init, rel := keys[..|keys| - 1], keys[|keys| - 1];
      CascadesAscend(init, target, checksums);
      var earlier := CascadeChecksums(init, target, checksums).value;
      if rel != target {
        NamesMore(earlier, rel, checksums[rel]);
        assert keys == init + [rel];
        AscendsFurther(Names(earlier), init, rel);
      }
    }
  }

  lemma CascadesListed(job: Job)
    requires Precheck(job).Success?
    ensures CascadeList(job.dryRun, job.relation, Names(Precheck(job).value.cascades))
  {
    PrecheckExact(job);
    FromGrantExact(job.dryRun, job.relation);
    var affected := job.dryRun.affected;
    CascadesAscend(SortedKeys(affected.cascadeByTable.Keys), job.relation, affected.pkSetChecksum);
  }

  /** The restore point an apply asks for, when it asks for one. */
  ghost function Fence(proposalId: string, stamp: string, pitr: bool): seq<Call> {
    if pitr then [RestorePoint("pgb_" + proposalId + "_" + stamp)] else []
  }

  lemma Regroup<T>(fence: seq<T>, begin: T, script: seq<T>, commit: T, whole: seq<T>)
    requires whole == [begin] + script + [commit]
    ensures fence + [begin] + script + [commit] == fence + whole
  {
  }

  lemma ProtocolIs(job: Job, predicted: Predicted)
    ensures Protocol(job, predicted) + [Commit] == Fence(job.proposalId, job.stamp, job.pitr)
              + [Begin(TimeoutFor(job.dryRun.durationMs)), Pause,
                 Forward(job.kind, job.relation, Names(predicted.cascades)), Deltas, WalBytes, Commit]
  {
    assert FenceCalls(job) == Fence(job.proposalId, job.stamp, job.pitr);
    Regroup(FenceCalls(job), BeginCall(job), BodyScript(job, predicted), Commit,
      [Begin(TimeoutFor(job.dryRun.durationMs)), Pause,
       Forward(job.kind, job.relation, Names(predicted.cascades)), Deltas, WalBytes, Commit]);
  }

  lemma CommittedRun(job: Job, a: Answers)
    requires Commit in ApplyCalls(job, a)
    ensures Precheck(job).Success? && ApplyCalls(job, a) == Protocol(job, Precheck(job).value) + [Commit]
  {
    CommitOnlyAfterGuards(job, a);
    RunFollowsProtocol(job, Precheck(job).value, a);
  }

  /** A committed apply asked, in this order and nothing else: for a restore point if the setting
      says so, for a transaction with its timeout, for the statement, for the two measurements,
      for the commit. */
  lemma CommitTrace(job: Job, a: Answers) returns (cascades: seq<Relation>)
    requires Commit in ApplyCalls(job, a)
    ensures CascadeList(job.dryRun, job.relation, cascades)
    ensures ApplyCalls(job, a) == Fence(job.proposalId, job.stamp, job.pitr)
              + [Begin(TimeoutFor(job.dryRun.durationMs)), Pause, Forward(job.kind, job.relation, cascades),
                 Deltas, WalBytes, Commit]
  {
    CommittedRun(job, a);
    CascadesListed(job);
    ProtocolIs(job, Precheck(job).value);
    cascades := Names(Precheck(job).value.cascades);
  }

  /** A call that an apply of this statement may make inside its transaction. */
  ghost predicate CallFits(
    kind: WriteKind, relation: Relation, dryRun: BlastRadius, proposalId: string, stamp: string, pitr: bool, c: Call)
  {
    match c
    case PkColumn(_) => false
    case RestorePoint(name) => pitr && name == "pgb_" + proposalId + "_" + stamp
    case Begin(timeoutMs) => timeoutMs == TimeoutFor(dryRun.durationMs)
    case Forward(k, rel, cascades) => k == kind && rel == relation && CascadeList(dryRun, relation, cascades)
    case _ => true
  }

  lemma ProtocolFits(job: Job, predicted: Predicted)
    requires CascadeList(job.dryRun, job.relation, Names(predicted.cascades))
    ensures forall c :: c in Protocol(job, predicted) + [Commit, Rollback] ==>
              CallFits(job.kind, job.relation, job.dryRun, job.proposalId, job.stamp, job.pitr, c)
  {
  }

  lemma RunWithinProtocol(job: Job, predicted: Predicted, a: Answers)
    ensures forall c :: c in RunCalls(job, predicted, a) ==> c in Protocol(job, predicted) + [Commit, Rollback]
  {
    RunFollowsProtocol(job, predicted, a);
  }

  lemma FirstCalls(job: Job, predicted: Predicted, a: Answers)
    ensures (exists c :: c in RunCalls(job, predicted, a) && c.RestorePoint?) <==> job.pitr
    ensures (exists c :: c in RunCalls(job, predicted, a) && c.Begin?) <==> (job.pitr ==> a.restorePoint.Success?)
  {
    var calls := RunCalls(job, predicted, a);
    RunFollowsProtocol(job, predicted, a);
    if job.pitr {
      assert calls[0] == RestorePoint(FenceLabel(job)) && calls[0] in calls;
    }
    if job.pitr ==> a.restorePoint.Success? {
      assert calls[|FenceCalls(job)|] == BeginCall(job) && BeginCall(job) in calls;
    }
  }

  /** However the connection answers, every call fits; a restore point is asked for exactly when
      the write may start and the setting says so, and a transaction exactly when it may start
      and the restore point, if any, was made. */
  lemma CallsExactly(job: Job, a: Answers)
    ensures forall c :: c in ApplyCalls(job, a) ==>
              CallFits(job.kind, job.relation, job.dryRun, job.proposalId, job.stamp, job.pitr, c)
    ensures (exists c :: c in ApplyCalls(job, a) && c.RestorePoint?) <==>
            MayStart(job.proposalId, job.relation, job.dryRun, job.cap) && job.pitr
    ensures (exists c :: c in ApplyCalls(job, a) && c.Begin?) <==>
            MayStart(job.proposalId, job.relation, job.dryRun, job.cap) && (job.pitr ==> a.restorePoint.Success?)
  {
    PrecheckExact(job);
    if Precheck(job).Success? {
      CascadesListed(job);
      ProtocolFits(job, Precheck(job).value);
      RunWithinProtocol(job, Precheck(job).value, a);
      FirstCalls(job, Precheck(job).value, a);
    }
  }

  /** A statement is sent, and every one sent is of this kind, on this relation and the record's
      cascades. */
  ghost predicate SendsWrite(calls: seq<Call>, kind: WriteKind, relation: Relation, dryRun: BlastRadius) {
    && (exists c :: c in calls && c.Forward?)
    && forall c :: c in calls && c.Forward? ==>
         c.kind == kind && c.relation == relation && CascadeList(dryRun, relation, c.cascades)
  }

  lemma ProtocolSends(job: Job, predicted: Predicted)
    ensures Forward(job.kind, job.relation, Names(predicted.cascades)) in Protocol(job, predicted) + [Commit]
  {
    assert BodyScript(job, predicted)[1] in BodyScript(job, predicted);
  }

  lemma CommitSends(job: Job, a: Answers)
    requires Commit in ApplyCalls(job, a)
    ensures SendsWrite(ApplyCalls(job, a), job.kind, job.relation, job.dryRun)
  {
    CommittedRun(job, a);
    ProtocolSends(job, Precheck(job).value);
    CallsExactly(job, a);
    forall c | c in ApplyCalls(job, a) && c.Forward?
      ensures c.kind == job.kind && c.relation == job.relation && CascadeList(job.dryRun, job.relation, c.cascades) {
      assert CallFits(job.kind, job.relation, job.dryRun, job.proposalId, job.stamp, job.pitr, c);
    }
  }

  // ------------------------------------------------------------------ what is reported

  /** The recovery fence of a report. */
  ghost predicate FenceIs(proposalId: string, stamp: string, pitr: bool, a: Answers, fence: RecoveryFence) {
    if pitr
    then a.restorePoint.Success? && fence == PitrRestorePoint("pgb_" + proposalId + "_" + stamp, a.restorePoint.value)
    else fence == TypedInverseOnly
  }

  lemma RunReport(job: Job, predicted: Predicted, a: Answers)
    requires RunResult(job, predicted, a).Success?
    ensures a.forward.Success? && Body(job, predicted, a) == a.forward
    ensures RunResult(job, predicted, a) == Summary(job, predicted, a.forward.value, FenceOf(job, a))
  {
    BodyExact(job, predicted, a);
  }

  lemma SummaryReports(job: Job, predicted: Predicted, forward: ForwardResult, fence: RecoveryFence)
    requires Summary(job, predicted, forward, fence).Success?
    ensures var r := Summary(job, predicted, forward, fence).value;
            && r.proposalId == job.proposalId && r.rowsWritten == |forward.written|
            && r.applyChecksum == Keys(forward.written) && r.timeoutMs == TimeoutFor(job.dryRun.durationMs)
            && r.inverse == PlanOf(job.kind, job.relation, Names(predicted.cascades), forward) && r.fence == fence
  {
    ChecksumExact(forward.written);
  }

  /** What a success reports: the proposal, the number and the keys of the rows the statement
      returned, the plan that undoes them, the fence and the timeout used. */
  lemma ReportExactly(job: Job, a: Answers) returns (cascades: seq<Relation>)
    requires ApplyResult(job, a).Success?
    ensures Commit in ApplyCalls(job, a) && a.commit.Success? && CascadeList(job.dryRun, job.relation, cascades)
    ensures var r, forward := ApplyResult(job, a).value, a.forward.value;
            && r.proposalId == job.proposalId && r.rowsWritten == |forward.written|
            && r.applyChecksum == Keys(forward.written) && r.timeoutMs == TimeoutFor(job.dryRun.durationMs)
            && r.inverse == PlanOf(job.kind, job.relation, cascades, forward)
            && FenceIs(job.proposalId, job.stamp, job.pitr, a, r.fence)
  {
    ResultMatchesCommit(job, a);
    CommitOnlyAfterGuards(job, a);
    CascadesListed(job);
    cascades := Names(Precheck(job).value.cascades);
    RunReport(job, Precheck(job).value, a);
    SummaryReports(job, Precheck(job).value, a.forward.value, FenceOf(job, a));
  }
}
