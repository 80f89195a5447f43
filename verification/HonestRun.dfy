/** The other half of safety: an honest write goes through. Five calls in order, on any state of
    the service, end in a commit, so none of the gates refuses what it is meant to admit. */
module HonestRun {
  import opened Prelude
  import opened BlastRadius
  import opened ApplyEngine
  import opened ApplyOutcome
  import opened Grant
  import opened Lifecycle

  /** An honest write from proposal to apply: what is asked, what was rehearsed, who approves,
      how the connection answers, and the clock at each of the five calls. */
  datatype Honest = Honest(
    sql: string, expectedRows: Option<U64>, role: string, sessionId: string,
    kind: WriteKind, relation: Relation, id: string,
    dryRun: BlastRadius, cap: WriteCap, approverId: string, nonce: string, ttlMillis: U64, answers: Answers,
    proposeClock: Clock, dryRunClock: Clock, elevateClock: Clock, approveClock: Clock, applyClock: Clock)

  function Made(h: Honest): Proposal {
    Proposal(h.id, h.sql, h.expectedRows, h.proposeClock.unix, h.proposeClock.mono, DEFAULT_TTL_MILLIS)
  }

  /** The calls come before the proposal, the request and the grant expire. */
  ghost predicate InTime(h: Honest) {
    && h.dryRunClock.mono < h.proposeClock.mono + 900_000 && h.elevateClock.mono < h.proposeClock.mono + 900_000
    && h.applyClock.mono < h.proposeClock.mono + 900_000
    && h.approveClock.unix < SaturatingAdd(h.elevateClock.unix, 1_800_000)
    && h.applyClock.unix < SaturatingAdd(h.approveClock.unix, h.ttlMillis)
  }

  /** The grant the approver signs, and the attempt it authorizes. */
  function GrantOf(gate: Gate, h: Honest): GrantToken {
    Sign(gate.hash,
      GrantBinding(h.sql, [], h.role, h.sessionId, h.id, h.dryRun.cloneLsn, h.cap, h.nonce,
        SaturatingAdd(h.approveClock.unix, h.ttlMillis)),
      gate.key)
  }

  function AttemptFor(gate: Gate, h: Honest): Attempt {
    Attempt(GrantOf(gate, h), LiveRequest(h.sql, [], h.role, h.sessionId, h.id), h.kind, h.relation, h.dryRun,
            h.applyClock.unix, h.applyClock.stamp)
  }

  /** The record is this proposal's, keyed and reversible; the cap admits it; the predicate is
      pinned by its key; the nonce is new; someone else approves; what the connection answers
      stays within record and cap, and the server confirms the commit. */
  ghost predicate Sound(gate: Gate, s: State, h: Honest) {
    && h.dryRun.proposalId == h.id && h.relation in h.dryRun.affected.pkSetChecksum && h.dryRun.reversible
    && PredictedTotalTuples(h.dryRun.affected) <= h.cap.maxRows && h.dryRun.walBytes <= h.cap.maxWalBytes
    && (h.answers.pkColumn.Some? ==> !gate.steerable(h.sql, h.answers.pkColumn.value))
    && h.nonce !in s.usedNonces && h.approverId != h.sessionId
    && MayCommit(h.id, h.kind, h.relation, h.dryRun, h.cap, gate.pitr, h.answers)
    && h.answers.commit.Success? && UniformKeys(h.answers.forward.value.written)
  }

  /** The next request number is free, as it is in every state the service reaches. */
  ghost predicate NextIsFree(s: State) {
    forall r :: r in s.requests ==> r <= s.nextRequest
  }

  // ------------------------------------------------------------------ the five calls

  function ProposeCall(s: State, h: Honest): (State, Reply) {
    ProposeStep(s, h.sql, h.expectedRows, h.role, h.sessionId, Success((h.kind, h.relation)), h.id, h.proposeClock,
      true)
  }

  function DryRunCall(s: State, h: Honest): (State, Reply) {
    DryRunStep(s, h.id, Success(h.dryRun), h.dryRunClock, true)
  }

  function ElevateCall(s: State, h: Honest): (State, Reply) {
    ElevateStep(s, h.id, h.cap, h.elevateClock, true)
  }

  function ApproveCall(gate: Gate, s: State, h: Honest, rid: nat): (State, Reply) {
    ApproveStep(gate, s, Approval(rid, h.approverId, gate.key, h.nonce, h.ttlMillis), h.approveClock, true)
  }

  function ApplyCall(gate: Gate, s: State, h: Honest): (State, Reply) {
    ApplyStep(gate, s, Confirmation(h.id, h.dryRun.affected.totalRows, None, h.answers), h.applyClock, true)
  }

  /** The record as it stands after the rehearsal. */
  ghost predicate Rehearsed(s: State, h: Honest, serial: nat) {
    && h.id in s.proposals
    && s.proposals[h.id] == Record(serial, Made(h), h.role, h.sessionId, h.kind, h.relation,
         Some(DryRunState(h.dryRun, h.dryRun.affected.totalRows, ConfirmToken(h.id, h.dryRun.affected.totalRows))))
  }

  ghost predicate Unelevated(s: State, s1: State) {
    s1.requests == s.requests && s1.nextRequest == s.nextRequest && s1.usedNonces == s.usedNonces
  }

  lemma AfterPropose(s: State, h: Honest)
    ensures var (s1, reply) := ProposeCall(s, h);
            && reply.Proposed? && Unelevated(s, s1) && h.id in s1.proposals
            && s1.proposals[h.id] == Record(s.nextSerial, Made(h), h.role, h.sessionId, h.kind, h.relation, None)
  {
  }

  lemma AfterDryRun(s1: State, h: Honest, serial: nat)
    requires InTime(h) && h.relation in h.dryRun.affected.pkSetChecksum && h.id in s1.proposals
    requires s1.proposals[h.id] == Record(serial, Made(h), h.role, h.sessionId, h.kind, h.relation, None)
    ensures var (s2, reply) := DryRunCall(s1, h);
            reply.DryRan? && Unelevated(s1, s2) && Rehearsed(s2, h, serial)
  {
  }

  ghost function TicketOf(h: Honest): Ticket {
    Ticket(h.id, h.sql, [], h.role, h.sessionId, h.dryRun.cloneLsn, h.cap)
  }

  ghost function RequestOf(h: Honest): Request {
    Request(TicketOf(h), h.sessionId, h.elevateClock.unix, DEFAULT_REQUEST_TTL_MILLIS, Pending)
  }

  lemma AfterElevation(s2: State, h: Honest, serial: nat)
    requires InTime(h) && Rehearsed(s2, h, serial) && NextIsFree(s2) && h.dryRun.reversible
    ensures var (s3, reply) := ElevateCall(s2, h);
            && reply.Elevated? && Rehearsed(s3, h, serial) && s3.usedNonces == s2.usedNonces
            && s2.nextRequest + 1 in s3.requests && s3.requests[s2.nextRequest + 1] == RequestOf(h)
            && s2.nextRequest + 1 in s3.requestToProposal && s3.requestToProposal[s2.nextRequest + 1] == h.id
  {
  }

  lemma AfterApproval(gate: Gate, s3: State, h: Honest, rid: nat, serial: nat)
    requires InTime(h) && Rehearsed(s3, h, serial) && h.approverId != h.sessionId
    requires rid in s3.requests && s3.requests[rid] == RequestOf(h)
    requires rid in s3.requestToProposal && s3.requestToProposal[rid] == h.id
    ensures var (s4, reply) := ApproveCall(gate, s3, h, rid);
            && reply.Granted? && Rehearsed(s4, h, serial) && s4.usedNonces == s3.usedNonces
            && h.id in s4.grants && s4.grants[h.id] == GrantOf(gate, h)
  {
  }

  lemma GateOpens(gate: Gate, t: Attempt, used: set<string>, a: Answers)
    requires LiveBinding(t) == t.grant.binding && t.grant == Sign(gate.hash, t.grant.binding, gate.key)
    requires t.now < t.grant.binding.expiryUnixMillis && t.grant.binding.nonce !in used
    requires t.dryRun.proposalId == t.live.proposalId && t.relation in t.dryRun.affected.pkSetChecksum
    requires PredictedTotalTuples(t.dryRun.affected) <= t.grant.binding.cap.maxRows
    requires t.dryRun.walBytes <= t.grant.binding.cap.maxWalBytes
    requires a.pkColumn.Some? ==> !gate.steerable(t.live.statementText, a.pkColumn.value)
    ensures GateCheck(gate, t, used, a) == None
  {
  }

  lemma ResultOfOpenGate(gate: Gate, t: Attempt, used: set<string>, a: Answers)
    requires GateCheck(gate, t, used, a) == None
    requires MayCommit(t.live.proposalId, t.kind, t.relation, t.dryRun, t.grant.binding.cap, gate.pitr, a)
    requires a.commit.Success? && UniformKeys(a.forward.value.written)
    ensures var r := GrantedResult(gate, t, used, a);
            r.Success? && r.value.rowsWritten == |a.forward.value.written|
  {
    CommitExactly(JobFor(gate, t), a);
    CommitOnlyAfterGuards(JobFor(gate, t), a);
    ResultMatchesCommit(JobFor(gate, t), a);
    var cascades := ReportExactly(JobFor(gate, t), a);
  }

  lemma HonestPassesGate(gate: Gate, s: State, h: Honest)
    requires InTime(h) && Sound(gate, s, h)
    ensures var r := GrantedResult(gate, AttemptFor(gate, h), s.usedNonces, h.answers);
            r.Success? && r.value.rowsWritten == |h.answers.forward.value.written|
  {
    var t := AttemptFor(gate, h);
    GateOpens(gate, t, s.usedNonces, h.answers);
    ResultOfOpenGate(gate, t, s.usedNonces, h.answers);
  }

  lemma NotTurnedAway(gate: Gate, s4: State, h: Honest, serial: nat, c: Confirmation)
    requires InTime(h) && Rehearsed(s4, h, serial) && h.id in s4.grants && s4.grants[h.id] == GrantOf(gate, h)
    requires c == Confirmation(h.id, h.dryRun.affected.totalRows, None, h.answers)
    ensures ApplyFault(s4, c, h.applyClock).None? && AttemptOf(s4, c, h.applyClock) == AttemptFor(gate, h)
  {
  }

  lemma AppliedReply(gate: Gate, s: State, c: Confirmation, clock: Clock, rows: nat)
    requires ApplyFault(s, c, clock).None?
    requires var r := GrantedResult(gate, AttemptOf(s, c, clock), s.usedNonces, c.answers);
             r.Success? && r.value.rowsWritten == rows
    ensures var reply := ApplyStep(gate, s, c, clock, true).1; reply.Applied? && reply.rowsWritten == rows
  {
  }

  lemma AfterApply(gate: Gate, s4: State, h: Honest, serial: nat, rows: nat)
    requires InTime(h) && Rehearsed(s4, h, serial) && h.id in s4.grants && s4.grants[h.id] == GrantOf(gate, h)
    requires var r := GrantedResult(gate, AttemptFor(gate, h), s4.usedNonces, h.answers);
             r.Success? && r.value.rowsWritten == rows
    ensures ApplyCall(gate, s4, h).1.Applied? && ApplyCall(gate, s4, h).1.rowsWritten == rows
  {
    var c := Confirmation(h.id, h.dryRun.affected.totalRows, None, h.answers);
    NotTurnedAway(gate, s4, h, serial, c);
    AppliedReply(gate, s4, c, h.applyClock, rows);
  }

  /** From any state of the service, an honest write is proposed, rehearsed, elevated, approved
      and committed, and its caller is told how many rows were written. */
  lemma HonestWriteCommits(gate: Gate, s: State, h: Honest, s1: State, s2: State, s3: State, s4: State)
    requires InTime(h) && Sound(gate, s, h) && NextIsFree(s)
    requires s1 == ProposeCall(s, h).0 && s2 == DryRunCall(s1, h).0 && s3 == ElevateCall(s2, h).0
    requires s4 == ApproveCall(gate, s3, h, s2.nextRequest + 1).0
    ensures ProposeCall(s, h).1.Proposed? && DryRunCall(s1, h).1.DryRan? && ElevateCall(s2, h).1.Elevated?
    ensures ApproveCall(gate, s3, h, s2.nextRequest + 1).1.Granted? && ApplyCall(gate, s4, h).1.Applied?
    ensures ApplyCall(gate, s4, h).1.rowsWritten == |h.answers.forward.value.written|
  {
    AfterPropose(s, h);
    AfterDryRun(s1, h, s.nextSerial);
    AfterElevation(s2, h, s.nextSerial);
    AfterApproval(gate, s3, h, s2.nextRequest + 1, s.nextSerial);
    HonestPassesGate(gate, s, h);
    AfterApply(gate, s4, h, s.nextSerial, |h.answers.forward.value.written|);
  }

  /** Every call keeps the next request number free. */
  lemma StepKeepsNextFree(gate: Gate, s: State, input: Input)
    requires NextIsFree(s)
    ensures NextIsFree(Step(gate, s, input).0)
  {
    match input.call
    case Apply(c) =>
      if ApplyFault(s, c, input.clock).None? {
        var t := AttemptOf(s, c, input.clock);
        SettleKeepsRequests(s, t.live, GrantedResult(gate, t, s.usedNonces, c.answers),
          NoncesAfter(gate, t, s.usedNonces, c.answers), input.sinkOk);
      }
    case RequestElevation(pid, cap) => ElevateKeepsNextFree(s, pid, cap, input.clock, input.sinkOk);
    case _ =>
  }

  lemma SettleKeepsRequests(
    s: State, live: LiveRequest, result: Result<AppliedWrite, GrantedError>, nonces: set<string>, sinkOk: bool)
    ensures var s1 := Settle(s, live, result, nonces, sinkOk).0;
            s1.requests == s.requests && s1.nextRequest == s.nextRequest
  {
  }

  lemma ElevateKeepsNextFree(s: State, pid: string, cap: WriteCap, clock: Clock, sinkOk: bool)
    requires NextIsFree(s)
    ensures NextIsFree(ElevateStep(s, pid, cap, clock, sinkOk).0)
  {
  }
}
