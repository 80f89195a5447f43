/** The guarded apply itself (crates/clone-orchestrator/src/apply.rs): one transaction on a
    connection, a chain of guards, commit or rollback.

    A connection's behaviour is a script of answers. Every call is made at most once per
    apply, so quantifying over scripts quantifies over every behaviour of every connection. */
module ApplyEngine {
  import opened Prelude
  import opened BlastRadius
  import opened Inverse
  import opened ApplyGuards

  datatype Call =
    | PkColumn(relation: Relation)
    | RestorePoint(name: string)
    | Begin(timeoutMs: U64)
    | Pause
    | Forward(kind: WriteKind, relation: Relation, cascades: seq<Relation>)
    | Deltas
    | WalBytes
    | Commit
    | Rollback

  datatype Answers = Answers(
    pkColumn: Option<Column>,
    restorePoint: Result<string, ApplyError>,
    begin: Result<(), ApplyError>,
    forward: Result<ForwardResult, ApplyError>,
    deltas: Result<seq<RelationChange>, ApplyError>,
    walBytes: Result<U64, ApplyError>,
    commit: Result<(), ApplyError>,
    rollback: Result<(), ApplyError>)

  /** The connection an apply drives, with the trace of calls made on it. */
  class ApplyConn {
    const answers: Answers
    var calls: seq<Call>

    constructor (answers: Answers)
      ensures this.answers == answers && calls == []
    {
      this.answers := answers;
      calls := [];
    }

    method SelfDeterminedPkColumn(relation: Relation) returns (r: Option<Column>)
      modifies this
      ensures r == answers.pkColumn && calls == old(calls) + [PkColumn(relation)]
    {
      calls := calls + [PkColumn(relation)];
      return answers.pkColumn;
    }

    method CreateRestorePoint(name: string) returns (r: Result<string, ApplyError>)
      modifies this
      ensures r == answers.restorePoint && calls == old(calls) + [RestorePoint(name)]
    {
      calls := calls + [RestorePoint(name)];
      return answers.restorePoint;
    }

    method BeginTxn(timeoutMs: U64) returns (r: Result<(), ApplyError>)
      modifies this
      ensures r == answers.begin && calls == old(calls) + [Begin(timeoutMs)]
    {
      calls := calls + [Begin(timeoutMs)];
      return answers.begin;
    }

    method PausePoint()
      modifies this
      ensures calls == old(calls) + [Pause]
    {
      calls := calls + [Pause];
    }

    method ApplyForward(kind: WriteKind, relation: Relation, cascades: seq<Relation>)
      returns (r: Result<ForwardResult, ApplyError>)
      modifies this
      ensures r == answers.forward && calls == old(calls) + [Forward(kind, relation, cascades)]
    {
      calls := calls + [Forward(kind, relation, cascades)];
      return answers.forward;
    }

    method XactTupleDeltas() returns (r: Result<seq<RelationChange>, ApplyError>)
      modifies this
      ensures r == answers.deltas && calls == old(calls) + [Deltas]
    {
      calls := calls + [Deltas];
      return answers.deltas;
    }

    method XactWalBytes() returns (r: Result<U64, ApplyError>)
      modifies this
      ensures r == answers.walBytes && calls == old(calls) + [WalBytes]
    {
      calls := calls + [WalBytes];
      return answers.walBytes;
    }

    method CommitTxn() returns (r: Result<(), ApplyError>)
      modifies this
      ensures r == answers.commit && calls == old(calls) + [Commit]
    {
      calls := calls + [Commit];
      return answers.commit;
    }

    method RollbackTxn() returns (r: Result<(), ApplyError>)
      modifies this
      ensures r == answers.rollback && calls == old(calls) + [Rollback]
    {
      calls := calls + [Rollback];
      return answers.rollback;
    }
  }

  datatype RecoveryFence = PitrRestorePoint(name: string, lsn: string) | TypedInverseOnly

  datatype AppliedWrite = AppliedWrite(
    proposalId: string, rowsWritten: nat, applyChecksum: multiset<seq<Value>>,
    inverse: InversePlan, fence: RecoveryFence, timeoutMs: U64)

  /** What an apply is asked to do. `stamp` is the clock reading printed in the label. */
  datatype Job = Job(
    proposalId: string, kind: WriteKind, relation: Relation, dryRun: BlastRadius,
    cap: WriteCap, pitr: bool, stamp: string)

  // ------------------------------------------------------------------ before the connection

  const MIN_STATEMENT_TIMEOUT_MS: U64 := 1000

  function StatementTimeoutMs(durationMs: U64): U64 {
    var tripled := if 3 * durationMs <= U64_MAX then 3 * durationMs else U64_MAX;
    if tripled < MIN_STATEMENT_TIMEOUT_MS then MIN_STATEMENT_TIMEOUT_MS else tripled
  }

  function Certify(kind: WriteKind, reversible: bool): Option<RefusedOp> {
    if reversible then None
    else match kind
      case Update => Some(UpdateWithoutPreimage)
      case Delete => Some(DeleteWithoutPreimage)
  }

  /** The checks made before anything is asked of the connection. */
  function Precheck(job: Job): Result<Predicted, ApplyError> {
    if job.dryRun.proposalId != job.proposalId then Failure(InvalidGrant(ProposalMismatch))
    else if FromGrant(job.dryRun, job.relation).Failure? then FromGrant(job.dryRun, job.relation)
    else if LimitFault(job).Some? then Failure(LimitFault(job).value)
    else FromGrant(job.dryRun, job.relation)
  }

  /** The cap does not admit the rehearsed write, or the write is not certified. */
  function LimitFault(job: Job): Option<ApplyError> {
    var rows := PredictedTotalTuples(job.dryRun.affected);
    if job.cap.maxRows < rows then Some(CapExceeded(job.relation, RowsCap, job.cap.maxRows, rows))
    else if job.cap.maxWalBytes < job.dryRun.walBytes then
      Some(CapExceeded(job.relation, WalBytesCap, job.cap.maxWalBytes, job.dryRun.walBytes))
    else match Certify(job.kind, job.dryRun.reversible)
      case Some(op) => Some(Refused(op))
      case None => None
  }

  lemma LimitFaultExact(job: Job)
    ensures LimitFault(job).None? <==>
            && PredictedTotalTuples(job.dryRun.affected) <= job.cap.maxRows
            && job.dryRun.walBytes <= job.cap.maxWalBytes && job.dryRun.reversible
  {
  }

  /** What the record and the cap must be for an apply to reach the connection. */
  ghost predicate Admissible(job: Job) {
    && job.dryRun.proposalId == job.proposalId
    && Authorizes(job.dryRun, job.relation)
    && PredictedTotalTuples(job.dryRun.affected) <= job.cap.maxRows
    && job.dryRun.walBytes <= job.cap.maxWalBytes
    && job.dryRun.reversible
  }

  lemma PrecheckExact(job: Job)
    ensures Precheck(job).Success? <==> Admissible(job)
    ensures Precheck(job).Success? ==> Precheck(job) == FromGrant(job.dryRun, job.relation)
  {
    FromGrantExact(job.dryRun, job.relation);
    LimitFaultExact(job);
  }

  // ------------------------------------------------------------------ the guarded body

  function CountsOf(deltas: seq<RelationChange>): (r: seq<OpCounts>)
    ensures |r| == |deltas| && forall i :: 0 <= i < |r| ==> r[i] == deltas[i].counts
  {
    if deltas == [] then [] else CountsOf(deltas[..|deltas| - 1]) + [deltas[|deltas| - 1].counts]
  }

  /** The guards after the deltas are read, before the WAL volume is. */
  function FootprintGuard(job: Job, predicted: Predicted, deltas: seq<RelationChange>): Option<ApplyError> {
    var reconciled := FirstFailure(deltas, c => ReconcileOne(predicted, job.relation, job.kind, c));
    var rows := FoldedTotal(CountsOf(deltas));
    if reconciled.Some? then reconciled
    else if rows > job.cap.maxRows then Some(CapExceeded(job.relation, RowsCap, job.cap.maxRows, rows))
    else None
  }

  /** The guards after the WAL volume is read. */
  function CoverageGuard(job: Job, forward: ForwardResult, deltas: seq<RelationChange>, wal: U64): Option<ApplyError> {
    var covered := FirstFailure(deltas, c => CoverageOne(job.relation, forward, c));
    if wal > job.cap.maxWalBytes then Some(CapExceeded(job.relation, WalBytesCap, job.cap.maxWalBytes, wal))
    else if covered.Some? then covered
    else ColumnsGuard(job.kind, job.relation, forward)
  }

  function Body(job: Job, predicted: Predicted, a: Answers): Result<ForwardResult, ApplyError> {
    if a.forward.Failure? then Failure(a.forward.error)
    else if a.deltas.Failure? then Failure(a.deltas.error)
    else
      var footprint := FootprintGuard(job, predicted, a.deltas.value);
      if footprint.Some? then Failure(footprint.value)
      else if a.walBytes.Failure? then Failure(a.walBytes.error)
      else
        var coverage := CoverageGuard(job, a.forward.value, a.deltas.value, a.walBytes.value);
        if coverage.Some? then Failure(coverage.value) else Success(a.forward.value)
  }

  /** The calls of a body that runs to its end. */
  function BodyScript(job: Job, predicted: Predicted): seq<Call> {
    [Pause, Forward(job.kind, job.relation, Names(predicted.cascades)), Deltas, WalBytes]
  }

  /** How many of them are made before the body returns. */
  function BodySteps(job: Job, predicted: Predicted, a: Answers): (n: nat)
    ensures 2 <= n <= 4
    ensures Body(job, predicted, a).Success? ==> n == 4
  {
    if a.forward.Failure? then 2
    else if a.deltas.Failure? || FootprintGuard(job, predicted, a.deltas.value).Some? then 3
    else 4
  }

  function BodyCalls(job: Job, predicted: Predicted, a: Answers): seq<Call> {
    BodyScript(job, predicted)[..BodySteps(job, predicted, a)]
  }

  /** `guarded_body`. */
  method GuardedBody(job: Job, predicted: Predicted, conn: ApplyConn) returns (r: Result<ForwardResult, ApplyError>)
    modifies conn
    ensures r == Body(job, predicted, conn.answers)
    ensures conn.calls == old(conn.calls) + BodyCalls(job, predicted, conn.answers)
  {
    conn.PausePoint();
    var forward := conn.ApplyForward(job.kind, job.relation, Names(predicted.cascades));
    if forward.Failure? {
      return Failure(forward.error);
    }
    var deltas := conn.XactTupleDeltas();
    if deltas.Failure? {
      return Failure(deltas.error);
    }
    var failure := CheckFootprint(job, predicted, deltas.value);
    if failure.Some? {
      return Failure(failure.value);
    }
    var liveWal := conn.XactWalBytes();
    if liveWal.Failure? {
      return Failure(liveWal.error);
    }
    failure := CheckCoverage(job, forward.value, deltas.value, liveWal.value);
    if failure.Some? {
      return Failure(failure.value);
    }
    return Success(forward.value);
  }

  /** The first two guards: reconciliation and row cap. */
  method CheckFootprint(job: Job, predicted: Predicted, deltas: seq<RelationChange>)
    returns (failure: Option<ApplyError>)
    ensures failure == FootprintGuard(job, predicted, deltas)
  {
    failure := ReconcileFullEffect(predicted, job.relation, job.kind, deltas);
    if failure.Some? {
      return;
    }
    var liveRows := SaturatingTotal(CountsOf(deltas));
    if liveRows > job.cap.maxRows {
      return Some(CapExceeded(job.relation, RowsCap, job.cap.maxRows, liveRows));
    }
  }

  /** The last three guards: WAL cap, row coverage, column coverage. */
  method CheckCoverage(job: Job, forward: ForwardResult, deltas: seq<RelationChange>, liveWal: U64)
    returns (failure: Option<ApplyError>)
    ensures failure == CoverageGuard(job, forward, deltas, liveWal)
  {
    if liveWal > job.cap.maxWalBytes {
      return Some(CapExceeded(job.relation, WalBytesCap, job.cap.maxWalBytes, liveWal));
    }
    failure := AssertReversiblePreimageCoverage(job.relation, deltas, forward);
    if failure.Some? {
      return;
    }
    failure := AssertWrittenColumnCoverage(job.kind, job.relation, forward);
  }

  /** The total fits the cap; a cap of 2^64-1 admits every total, since the sum saturates. */
  ghost predicate RowsFit(deltas: seq<RelationChange>, maxRows: U64) {
    ExactTotal(CountsOf(deltas)) <= maxRows || maxRows == U64_MAX
  }

  /** What the guards demand of the measurements, without the order they are made in. */
  ghost predicate GuardsPass(
    job: Job, predicted: Predicted, forward: ForwardResult, deltas: seq<RelationChange>, wal: U64)
  {
    && (forall i :: 0 <= i < |deltas| ==> Foreseen(predicted, job.relation, job.kind, deltas[i]))
    && RowsFit(deltas, job.cap.maxRows)
    && wal <= job.cap.maxWalBytes
    && (forall i :: 0 <= i < |deltas| ==> RowsCovered(job.relation, forward, deltas[i]))
    && ColumnsCovered(job.kind, forward)
  }

  lemma FootprintGuardExact(job: Job, predicted: Predicted, deltas: seq<RelationChange>)
    ensures FootprintGuard(job, predicted, deltas).None? <==>
            (forall i :: 0 <= i < |deltas| ==> Foreseen(predicted, job.relation, job.kind, deltas[i]))
            && RowsFit(deltas, job.cap.maxRows)
  {
    PassesExactly(deltas, c => ReconcileOne(predicted, job.relation, job.kind, c));
    ForeseenExactly(predicted, job.relation, job.kind, deltas);
    FoldedTotalIsExact(CountsOf(deltas));
  }

  lemma CoverageGuardExact(job: Job, forward: ForwardResult, deltas: seq<RelationChange>, wal: U64)
    ensures CoverageGuard(job, forward, deltas, wal).None? <==>
            && wal <= job.cap.maxWalBytes
            && (forall i :: 0 <= i < |deltas| ==> RowsCovered(job.relation, forward, deltas[i]))
            && ColumnsCovered(job.kind, forward)
  {
    PassesExactly(deltas, c => CoverageOne(job.relation, forward, c));
    RowsCoveredExactly(job.relation, forward, deltas);
    ColumnsCoveredExactly(job.kind, job.relation, forward);
  }

  /** The body succeeds exactly when the connection answered and every guard passes. */
  ghost predicate Passes(job: Job, predicted: Predicted, a: Answers) {
    && a.forward.Success? && a.deltas.Success? && a.walBytes.Success?
    && GuardsPass(job, predicted, a.forward.value, a.deltas.value, a.walBytes.value)
  }

  lemma BodyExact(job: Job, predicted: Predicted, a: Answers)
    ensures Body(job, predicted, a).Success? <==> Passes(job, predicted, a)
    ensures Body(job, predicted, a).Success? ==> Body(job, predicted, a) == a.forward
  {
    if a.forward.Success? && a.deltas.Success? {
      FootprintGuardExact(job, predicted, a.deltas.value);
      if a.walBytes.Success? {
        CoverageGuardExact(job, a.forward.value, a.deltas.value, a.walBytes.value);
      }
    }
  }

  // ------------------------------------------------------------------ the whole apply

  /** All keys have one width, which is what a key-set checksum needs. */
  ghost predicate UniformKeys(rows: seq<RowImage>) {
    forall i :: 0 <= i < |rows| ==> |rows[i].pk| == |rows[0].pk|
  }

  const BAD_ARITY := Backend("inconsistent PK arity")

  function Keys(rows: seq<RowImage>): multiset<seq<Value>> {
    if rows == [] then multiset{} else Keys(rows[..|rows| - 1]) + multiset{rows[|rows| - 1].pk}
  }

  /** Each row counts its key once. */
  lemma KeysOneMore(rows: seq<RowImage>, row: RowImage)
    ensures Keys([]) == multiset{} && Keys(rows + [row]) == Keys(rows) + multiset{row.pk}
  {
    assert (rows + [row])[..|rows|] == rows;
  }

  function Checksum(rows: seq<RowImage>): Result<multiset<seq<Value>>, ApplyError> {
    if rows == [] then Success(multiset{})
    else
      var earlier := Checksum(rows[..|rows| - 1]);
      var pk := rows[|rows| - 1].pk;
      if earlier.Failure? then earlier
      else if |pk| != |rows[0].pk| then Failure(BAD_ARITY)
      else Success(earlier.value + multiset{pk})
  }

  /** `written_checksum`: the key multiset stands for its digest. */
  method WrittenChecksum(rows: seq<RowImage>) returns (r: Result<multiset<seq<Value>>, ApplyError>)
    ensures r == Checksum(rows)
    ensures r.Success? <==> UniformKeys(rows)
    ensures r.Success? ==> r.value == Keys(rows)
  {
    ChecksumExact(rows);
    var arity: Option<nat> := None;
    var keys: multiset<seq<Value>> := multiset{};
    for i := 0 to |rows|
      invariant arity == if i == 0 then None else Some(|rows[0].pk|)
      invariant forall j :: 0 <= j < i ==> |rows[j].pk| == |rows[0].pk|
      invariant keys == Keys(rows[..i])
    {
      assert rows[..i + 1][..i] == rows[..i];
      var pk := rows[i].pk;
      if arity.None? {
        arity := Some(|pk|);
      } else if arity.value != |pk| {
        return Failure(BAD_ARITY);
      }
      keys := keys + multiset{pk};
    }
    assert rows[..|rows|] == rows;
    return Success(keys);
  }

  lemma {:induction false} ChecksumExact(rows: seq<RowImage>)
    ensures Checksum(rows) == if UniformKeys(rows) then Success(Keys(rows)) else Failure(BAD_ARITY)
  {
    if rows != [] {
      ChecksumExact(rows[..|rows| - 1]);
      if UniformKeys(rows) {
        assert UniformKeys(rows[..|rows| - 1]);
      }
    }
  }

  function FenceLabel(job: Job): string {
    "pgb_" + job.proposalId + "_" + job.stamp
  }

  function FenceCalls(job: Job): seq<Call> {
    if job.pitr then [RestorePoint(FenceLabel(job))] else []
  }

  function FenceOf(job: Job, a: Answers): RecoveryFence
    requires a.restorePoint.Success? || !job.pitr
  {
    if job.pitr then PitrRestorePoint(FenceLabel(job), a.restorePoint.value) else TypedInverseOnly
  }

  function BeginCall(job: Job): Call {
    Begin(StatementTimeoutMs(job.dryRun.durationMs))
  }

  /** The calls after the prechecks passed with `predicted`. */
  function RunCalls(job: Job, predicted: Predicted, a: Answers): seq<Call> {
    if job.pitr && a.restorePoint.Failure? then FenceCalls(job)
    else if a.begin.Failure? then FenceCalls(job) + [BeginCall(job)]
    else
      FenceCalls(job) + [BeginCall(job)] + BodyCalls(job, predicted, a)
      + [if Body(job, predicted, a).Success? then Commit else Rollback]
  }

  function RunResult(job: Job, predicted: Predicted, a: Answers): Result<AppliedWrite, ApplyError> {
    if job.pitr && a.restorePoint.Failure? then Failure(a.restorePoint.error)
    else if a.begin.Failure? then Failure(a.begin.error)
    else
      var body := Body(job, predicted, a);
      if body.Failure? then Failure(body.error)
      else if a.commit.Failure? then Failure(a.commit.error)
      else Summary(job, predicted, body.value, FenceOf(job, a))
  }

  function Summary(job: Job, predicted: Predicted, forward: ForwardResult, fence: RecoveryFence)
    : Result<AppliedWrite, ApplyError>
  {
    var checksum := Checksum(forward.written);
    if checksum.Failure? then Failure(checksum.error)
    else Success(AppliedWrite(
      job.proposalId, |forward.written|, checksum.value,
      PlanOf(job.kind, job.relation, Names(predicted.cascades), forward),
      fence, StatementTimeoutMs(job.dryRun.durationMs)))
  }

  function ApplyCalls(job: Job, a: Answers): seq<Call> {
    if Precheck(job).Failure? then [] else RunCalls(job, Precheck(job).value, a)
  }

  function ApplyResult(job: Job, a: Answers): Result<AppliedWrite, ApplyError> {
    if Precheck(job).Failure? then Failure(Precheck(job).error) else RunResult(job, Precheck(job).value, a)
  }

  method CheckBefore(job: Job) returns (r: Result<Predicted, ApplyError>)
    ensures r == Precheck(job)
  {
    if job.dryRun.proposalId != job.proposalId {
      return Failure(InvalidGrant(ProposalMismatch));
    }
    r := PredictFromGrant(job.dryRun, job.relation);
    if r.Failure? {
      return;
    }
    var fault := CheckLimits(job);
    if fault.Some? {
      return Failure(fault.value);
    }
  }

  method CheckLimits(job: Job) returns (fault: Option<ApplyError>)
    ensures fault == LimitFault(job)
  {
    var rows := PredictedTotalTuples(job.dryRun.affected);
    if job.cap.maxRows < rows {
      return Some(CapExceeded(job.relation, RowsCap, job.cap.maxRows, rows));
    }
    if job.cap.maxWalBytes < job.dryRun.walBytes {
      return Some(CapExceeded(job.relation, WalBytesCap, job.cap.maxWalBytes, job.dryRun.walBytes));
    }
    var refused := Certify(job.kind, job.dryRun.reversible);
    if refused.Some? {
      return Some(Refused(refused.value));
    }
    return None;
  }

  /** `guarded_apply`. */
  method GuardedApply(job: Job, conn: ApplyConn) returns (r: Result<AppliedWrite, ApplyError>)
    modifies conn
    ensures r == ApplyResult(job, conn.answers)
    ensures conn.calls == old(conn.calls) + ApplyCalls(job, conn.answers)
  {
    var predicted := CheckBefore(job);
    if predicted.Failure? {
      return Failure(predicted.error);
    }
    r := FenceAndRun(job, predicted.value, conn);
  }

  method FenceAndRun(job: Job, predicted: Predicted, conn: ApplyConn) returns (r: Result<AppliedWrite, ApplyError>)
    modifies conn
    ensures r == RunResult(job, predicted, conn.answers)
    ensures conn.calls == old(conn.calls) + RunCalls(job, predicted, conn.answers)
  {
    var fence := TypedInverseOnly;
    if job.pitr {
      var lsn := conn.CreateRestorePoint(FenceLabel(job));
      if lsn.Failure? {
        return Failure(lsn.error);
      }
      fence := PitrRestorePoint(FenceLabel(job), lsn.value);
    }
    assert conn.calls == old(conn.calls) + FenceCalls(job);
    var timeoutMs := StatementTimeoutMs(job.dryRun.durationMs);
    var begun := conn.BeginTxn(timeoutMs);
    assert conn.calls == old(conn.calls) + (FenceCalls(job) + [BeginCall(job)]);
    if begun.Failure? {
      return Failure(begun.error);
    }
    var outcome := GuardedBody(job, predicted, conn);
    assert conn.calls ==
           old(conn.calls) + (FenceCalls(job) + [BeginCall(job)] + BodyCalls(job, predicted, conn.answers));
    if outcome.Failure? {
      var _ := conn.RollbackTxn();
      return Failure(outcome.error);
    }
    var committed := conn.CommitTxn();
    if committed.Failure? {
      return Failure(committed.error);
    }
    r := Summarize(job, predicted, outcome.value, fence);
  }

  /** What is reported once the commit is confirmed. */
  method Summarize(job: Job, predicted: Predicted, forward: ForwardResult, fence: RecoveryFence)
    returns (r: Result<AppliedWrite, ApplyError>)
    ensures r == Summary(job, predicted, forward, fence)
  {
    var inverse := BuildInverse(job.kind, job.relation, Names(predicted.cascades), forward);
    var checksum := WrittenChecksum(forward.written);
    if checksum.Failure? {
      return Failure(checksum.error);
    }
    return Success(AppliedWrite(
      job.proposalId, |forward.written|, checksum.value, inverse, fence,
      StatementTimeoutMs(job.dryRun.durationMs)));
  }

  // ------------------------------------------------------------------ what a call trace shows

  /** A transaction is open: the prechecks, the fence and `begin` went through. */
  ghost predicate Opened(job: Job, a: Answers) {
    Precheck(job).Success? && (job.pitr ==> a.restorePoint.Success?) && a.begin.Success?
  }

  /** The commit is sent: everything before it answered and every guard passed. */
  ghost predicate Commits(job: Job, a: Answers) {
    Opened(job, a) && Passes(job, Precheck(job).value, a)
  }

  /** The order every apply follows, up to where it stops. */
  ghost function Protocol(job: Job, predicted: Predicted): seq<Call> {
    FenceCalls(job) + [BeginCall(job)] + BodyScript(job, predicted)
  }

  /** For every connection behaviour the calls are the protocol cut short before a
      transaction, or cut inside it and rolled back, or complete and committed. */
  lemma RunFollowsProtocol(job: Job, predicted: Predicted, a: Answers)
    ensures var calls, fence, full := RunCalls(job, predicted, a), |FenceCalls(job)|, Protocol(job, predicted);
            if (job.pitr && a.restorePoint.Failure?) || a.begin.Failure? then
              |calls| <= fence + 1 && calls == full[..|calls|]
            else if !Passes(job, predicted, a) then
              fence + 4 <= |calls| <= fence + 6 && calls == full[..|calls| - 1] + [Rollback]
            else calls == full + [Commit]
  {
    BodyExact(job, predicted, a);
    var fence, full, n := FenceCalls(job), Protocol(job, predicted), BodySteps(job, predicted, a);
    assert full[..|fence|] == fence;
    assert full[..|fence| + 1] == fence + [BeginCall(job)];
    assert full[..|fence| + 1 + n] == fence + [BeginCall(job)] + BodyScript(job, predicted)[..n];
  }

  /** Nothing at all is asked of the connection exactly when the job is refused, and the
      job is refused exactly when the record or the cap is not admissible. Otherwise commit
      is sent exactly when every guard passed, rollback exactly when a transaction was opened
      and the body failed, and never both. */
  lemma CommitOnlyAfterGuards(job: Job, a: Answers)
    ensures ApplyCalls(job, a) == [] <==> !Admissible(job)
    ensures Commit in ApplyCalls(job, a) <==> Commits(job, a)
    ensures Rollback in ApplyCalls(job, a) <==> Opened(job, a) && !Commits(job, a)
  {
    PrecheckExact(job);
    if Precheck(job).Success? {
      var predicted := Precheck(job).value;
      RunFollowsProtocol(job, predicted, a);
      RunEnds(job, predicted, a);
    }
  }

  lemma RefusedJobCallsNothing(job: Job, a: Answers)
    requires !Admissible(job)
    ensures ApplyCalls(job, a) == []
  {
    PrecheckExact(job);
  }

  lemma RunEnds(job: Job, predicted: Predicted, a: Answers)
    ensures RunCalls(job, predicted, a) != []
    ensures Commit in RunCalls(job, predicted, a) <==>
            (job.pitr ==> a.restorePoint.Success?) && a.begin.Success? && Passes(job, predicted, a)
    ensures Rollback in RunCalls(job, predicted, a) <==>
            (job.pitr ==> a.restorePoint.Success?) && a.begin.Success? && !Passes(job, predicted, a)
  {
    RunFollowsProtocol(job, predicted, a);
    var calls, full := RunCalls(job, predicted, a), Protocol(job, predicted);
    assert Commit !in full && Rollback !in full;
    assert forall n :: 0 <= n <= |full| ==> Commit !in full[..n] && Rollback !in full[..n];
    assert calls[|calls| - 1] in calls;
  }

  /** The result says what happened: success means a commit that went through, and an error
      hides a committed transaction exactly when the written keys have mixed widths. */
  lemma ResultMatchesCommit(job: Job, a: Answers)
    ensures Commits(job, a) && a.commit.Success? ==>
            (ApplyResult(job, a).Success? <==> UniformKeys(a.forward.value.written))
    ensures ApplyResult(job, a).Success? ==>
            && Commits(job, a) && a.commit.Success?
            && ApplyResult(job, a).value.inverse ==
               PlanOf(job.kind, job.relation, Names(Precheck(job).value.cascades), a.forward.value)
            && ApplyResult(job, a).value.applyChecksum == Keys(a.forward.value.written)
  {
    if Precheck(job).Success? {
      RunResultMatches(job, Precheck(job).value, a);
    }
  }

  lemma RunResultMatches(job: Job, predicted: Predicted, a: Answers)
    ensures RunResult(job, predicted, a).Success? <==>
            && (job.pitr ==> a.restorePoint.Success?) && a.begin.Success? && Passes(job, predicted, a)
            && a.commit.Success? && UniformKeys(a.forward.value.written)
    ensures RunResult(job, predicted, a).Success? ==>
            && RunResult(job, predicted, a).value.inverse ==
               PlanOf(job.kind, job.relation, Names(predicted.cascades), a.forward.value)
            && RunResult(job, predicted, a).value.applyChecksum == Keys(a.forward.value.written)
  {
    BodyExact(job, predicted, a);
    if a.forward.Success? {
      ChecksumExact(a.forward.value.written);
    }
  }

  // ------------------------------------------------------------------ what a commit implies

  ghost predicate NothingDestroyedOutside(job: Job, deltas: seq<RelationChange>) {
    forall i :: 0 <= i < |deltas| && deltas[i].relation != job.relation ==>
      && deltas[i].counts.upd == 0 && deltas[i].counts.del == 0
      && deltas[i].counts.ins <= (if deltas[i].relation in job.dryRun.affected.effectByTable
                                  then job.dryRun.affected.effectByTable[deltas[i].relation].ins else 0)
  }

  /** A connection that captures no cascade rows (the PostgreSQL one) commits only writes that
      update and delete nothing outside the target and insert no more than was rehearsed. */
  lemma CommitTouchesOnlyTheTarget(job: Job, a: Answers)
    requires Commits(job, a) && a.forward.value.cascadePreimages == map[]
    ensures NothingDestroyedOutside(job, a.deltas.value)
    ensures job.cap.maxRows < U64_MAX ==> ExactTotal(CountsOf(a.deltas.value)) <= job.cap.maxRows
  {
    PrecheckExact(job);
    FromGrantExact(job.dryRun, job.relation);
    var deltas := a.deltas.value;
    forall i | 0 <= i < |deltas| && deltas[i].relation != job.relation
      ensures deltas[i].counts.upd == 0 && deltas[i].counts.del == 0 {
      assert RowsCovered(job.relation, a.forward.value, deltas[i]);
    }
    forall i | 0 <= i < |deltas| ensures Foreseen(Precheck(job).value, job.relation, job.kind, deltas[i]) {
    }
  }

  /** Enough rows are in the plan, under the relation's own name, to undo a change's deletes. */
  ghost predicate Restorable(job: Job, forward: ForwardResult, cascades: seq<Relation>, change: RelationChange) {
    change.counts.del <= |CapturedFor(job.relation, cascades, forward, change.relation)|
  }

  /** After a commit the built plan holds a row for every deleted one exactly when each
      relation that lost rows is the target or one of the recorded cascades: captures for any
      other relation satisfy the coverage guard but never enter the plan. */
  lemma PlanCoversDeletes(job: Job, a: Answers)
    requires Commits(job, a)
    ensures var cascades, deltas := Names(Precheck(job).value.cascades), a.deltas.value;
            (forall i :: 0 <= i < |deltas| ==> Restorable(job, a.forward.value, cascades, deltas[i]))
            <==>
            (forall i :: 0 <= i < |deltas| && deltas[i].counts.del > 0 ==>
              deltas[i].relation == job.relation || deltas[i].relation in job.dryRun.affected.cascadeByTable)
  {
    PrecheckExact(job);
    FromGrantExact(job.dryRun, job.relation);
    var deltas := a.deltas.value;
    forall i | 0 <= i < |deltas|
      ensures Restorable(job, a.forward.value, Names(Precheck(job).value.cascades), deltas[i]) <==>
              (deltas[i].counts.del > 0 ==>
                deltas[i].relation == job.relation || deltas[i].relation in job.dryRun.affected.cascadeByTable)
    {
      assert RowsCovered(job.relation, a.forward.value, deltas[i]);
    }
  }
}
