/** The propose, dry-run, elevate, approve and apply lifecycle as a state machine: the state the
    write-safety service holds (crates/applyd/src/service.rs), the approval flow and request
    store behind it (crates/cli/src/flow.rs, request.rs, principal.rs), one function per call. */
module Lifecycle {
  import opened Prelude
  import opened BlastRadius
  import opened Inverse
  import opened ApplyEngine
  import opened Grant
  import AuditChain

  type Decision = AuditChain.Decision

  /** One reading of the injected clock: wall time, monotonic time, the wall time printed. */
  datatype Clock = Clock(unix: U64, mono: U64, stamp: string)

  const DEFAULT_TTL_MILLIS: U64 := 900_000
  const DEFAULT_REQUEST_TTL_MILLIS: U64 := 1_800_000

  datatype Proposal = Proposal(
    id: string, statement: string, expectedRows: Option<U64>, createdUnix: U64, createdMono: U64, ttlMillis: U64)

  /** Expiry reads the monotonic clock only. */
  predicate IsExpired(p: Proposal, clock: Clock) {
    SaturatingSub(clock.mono, p.createdMono) >= p.ttlMillis
  }

  function RemainingMillis(p: Proposal, clock: Clock): U64 {
    SaturatingSub(p.ttlMillis, SaturatingSub(clock.mono, p.createdMono))
  }

  /** The monotonic clock has not reached the end of the proposal's lifetime. */
  ghost predicate HasTime(p: Proposal, clock: Clock) {
    p.ttlMillis > 0 && clock.mono < p.createdMono + p.ttlMillis
  }

  /** A proposal has time left exactly until it expires, whatever the wall clock does, and
      once expired it stays so while the monotonic clock does not go back. */
  lemma ExpiryIsMonotone(p: Proposal, clock: Clock, later: Clock)
    ensures IsExpired(p, clock) <==> RemainingMillis(p, clock) == 0
    ensures IsExpired(p, clock) <==> !HasTime(p, clock)
    ensures RemainingMillis(p, clock) <= p.ttlMillis
    ensures HasTime(p, clock) && p.createdMono <= clock.mono ==>
            clock.mono + RemainingMillis(p, clock) == p.createdMono + p.ttlMillis
    ensures clock.mono <= later.mono && IsExpired(p, clock) ==> IsExpired(p, later)
  {
  }

  /** The confirmation token of a rehearsal: it names the proposal and its row count. */
  datatype ConfirmToken = ConfirmToken(proposalId: string, totalRows: U64)

  datatype DryRunState = DryRunState(blastRadius: BlastRadius, totalRows: U64, confirmToken: ConfirmToken)

  /** A stored proposal. `serial` is the process-wide sequence number its id was made from. */
  datatype Record = Record(
    serial: nat, proposal: Proposal, role: string, sessionId: string, kind: WriteKind, relation: Relation,
    dryRun: Option<DryRunState>)

  /** What a request records for the approver to sign. */
  datatype Ticket = Ticket(
    proposalId: string, statementText: string, normalizedParams: seq<string>, role: string, sessionId: string,
    dryRunLsn: string, cap: WriteCap)

  datatype Status = Pending | Approved

  datatype Request = Request(ticket: Ticket, requesterId: string, created: U64, ttlMillis: U64, status: Status)

  function ExpiresAt(r: Request): U64 {
    SaturatingAdd(r.created, r.ttlMillis)
  }

  datatype ErrorCode =
    | ProposalNotFound
    | VolatilePredicate
    | PkLessTarget
    | NotCertified
    | ApprovalRequired
    | GrantRejected
    | ConfirmMismatch
    | BlastDrift
    | AuditFailed

  datatype Reason =
    | ApplyCommitted
    | ApprovalPending
    | GrantSigned
    | SelfApprovalRefused
    | StructuralOpRefused
    | Failed(code: ErrorCode)

  datatype LogEntry = LogEntry(
    decision: Decision, reason: Reason, statementText: string, role: string, sessionId: string,
    principal: Option<string>, proposalId: Option<string>)

  datatype State = State(
    proposals: map<string, Record>, requests: map<nat, Request>, grants: map<string, GrantToken>,
    requestToProposal: map<nat, string>, nextRequest: nat, nextSerial: nat, usedNonces: set<string>,
    log: seq<LogEntry>)

  const INITIAL := State(map[], map[], map[], map[], 0, 0, {}, [])

  datatype Reply =
    | Proposed(proposalId: string, ttlMillis: U64)
    | DryRan(totalRows: U64, checksum: string, reversible: bool, confirmToken: ConfirmToken)
    | Elevated(requestId: nat, ttlMillis: U64, cap: WriteCap)
    | Granted(requestId: nat, nonce: string)
    | Applied(rowsWritten: nat, reversible: bool, inverse: InversePlan)
    | Error(code: ErrorCode)

  /** Append to the shared log, or not when the sink is down. */
  function Logged(s: State, entry: LogEntry, sinkOk: bool): State {
    if sinkOk then s.(log := s.log + [entry]) else s
  }

  // ------------------------------------------------------------------ propose and dry run

  function DryRunCode(e: DryRunError): ErrorCode {
    match e
    case Volatile => VolatilePredicate
    case PkLess(_) => PkLessTarget
    case Expired => ProposalNotFound
    case NotRehearsable => NotCertified
    case NotSelfDetermined => NotCertified
    case DryRunBackend => NotCertified
  }

  /** Refuse and record: an unrecorded refusal is reported as an audit failure instead. */
  function Refuse(s: State, statement: string, role: string, session: string, code: ErrorCode, sinkOk: bool)
    : (State, Reply)
  {
    (Logged(s, LogEntry(AuditChain.Block, Failed(code), statement, role, session, None, None), sinkOk),
     Error(if sinkOk then code else AuditFailed))
  }

  function ProposeStep(
    s: State, sql: string, expectedRows: Option<U64>, role: string, session: string,
    classified: Result<(WriteKind, Relation), DryRunError>, id: string, clock: Clock, sinkOk: bool): (State, Reply)
  {
    match classified
    case Failure(e) => Refuse(s, sql, role, session, DryRunCode(e), sinkOk)
    case Success((kind, relation)) =>
      var proposal := Proposal(id, sql, expectedRows, clock.unix, clock.mono, DEFAULT_TTL_MILLIS);
      var record := Record(s.nextSerial, proposal, role, session, kind, relation, None);
      (s.(proposals := s.proposals[id := record], nextSerial := s.nextSerial + 1), Proposed(id, DEFAULT_TTL_MILLIS))
  }

  predicate Live(s: State, pid: string, clock: Clock) {
    pid in s.proposals && !IsExpired(s.proposals[pid].proposal, clock)
  }

  /** `measured` is what the rehearsal of the stored statement returned. */
  function DryRunStep(s: State, pid: string, measured: Result<BlastRadius, DryRunError>, clock: Clock, sinkOk: bool)
    : (State, Reply)
  {
    if !Live(s, pid, clock) then (s, Error(ProposalNotFound))
    else
      var record := s.proposals[pid];
      if measured.Failure? then
        Refuse(s, record.proposal.statement, record.role, record.sessionId, DryRunCode(measured.error), sinkOk)
      else if record.relation !in measured.value.affected.pkSetChecksum then
        Refuse(s, record.proposal.statement, record.role, record.sessionId, PkLessTarget, sinkOk)
      else
        var total := measured.value.affected.totalRows;
        var token := ConfirmToken(pid, total);
        (s.(proposals := s.proposals[pid := record.(dryRun := Some(DryRunState(measured.value, total, token)))]),
         DryRan(total, measured.value.affected.pkSetChecksum[record.relation], measured.value.reversible, token))
  }

  // ------------------------------------------------------------------ request and approve

  function TicketFor(record: Record, dry: DryRunState, cap: WriteCap): Ticket {
    Ticket(record.proposal.id, record.proposal.statement, [], record.role, record.sessionId, dry.blastRadius.cloneLsn,
      cap)
  }

  /** `cap` is the suggested cap. */
  function ElevateStep(s: State, pid: string, cap: WriteCap, clock: Clock, sinkOk: bool): (State, Reply) {
    if !Live(s, pid, clock) then (s, Error(ProposalNotFound))
    else if s.proposals[pid].dryRun.None? then (s, Error(ConfirmMismatch))
    else
      var record, dry := s.proposals[pid], s.proposals[pid].dryRun.value;
      var ticket := TicketFor(record, dry, cap);
      var rid := s.nextRequest + 1;
      var s1 := s.(nextRequest := rid);
      var entry := LogEntry(AuditChain.Block, ApprovalPending, ticket.statementText, ticket.role, ticket.sessionId,
                            Some(record.sessionId), Some(ticket.proposalId));
      if Certify(record.kind, dry.blastRadius.reversible).Some? then
        (Logged(s1, entry.(decision := AuditChain.Reject, reason := StructuralOpRefused), sinkOk), Error(NotCertified))
      else if rid in s1.requests then (s1, Error(ProposalNotFound))
      else
        var request := Request(ticket, record.sessionId, clock.unix, DEFAULT_REQUEST_TTL_MILLIS, Pending);
        (Logged(s1.(requests := s1.requests[rid := request], requestToProposal := s1.requestToProposal[rid := pid]),
          entry, sinkOk),
         Elevated(rid, SaturatingSub(ExpiresAt(request), clock.unix), cap))
  }

  /** `to_binding`. */
  function BindingFor(ticket: Ticket, nonce: string, expiry: U64): GrantBinding {
    GrantBinding(ticket.statementText, ticket.normalizedParams, ticket.role, ticket.sessionId, ticket.proposalId,
                 ticket.dryRunLsn, ticket.cap, nonce, expiry)
  }

  /** What an operator presents: the request, who approves, the signing key, a nonce, a lifetime. */
  datatype Approval = Approval(requestId: nat, approverId: string, signer: Key, nonce: string, ttlMillis: U64)

  /** Why an approval is refused before anything is signed. */
  function ApprovalFault(gate: Gate, s: State, ap: Approval, clock: Clock): Option<ErrorCode> {
    if ap.signer != gate.key then Some(GrantRejected)
    else if ap.requestId !in s.requestToProposal then Some(ProposalNotFound)
    else if ap.requestId !in s.requests then Some(ProposalNotFound)
    else if s.requests[ap.requestId].status != Pending then Some(ProposalNotFound)
    else if clock.unix >= ExpiresAt(s.requests[ap.requestId]) then Some(ProposalNotFound)
    else if ap.approverId == s.requests[ap.requestId].requesterId then Some(GrantRejected)
    else None
  }

  function GrantFor(gate: Gate, s: State, ap: Approval, clock: Clock): GrantToken
    requires ap.requestId in s.requests
  {
    Sign(gate.hash, BindingFor(s.requests[ap.requestId].ticket, ap.nonce, SaturatingAdd(clock.unix, ap.ttlMillis)),
      ap.signer)
  }

  function FlowEntry(decision: Decision, reason: Reason, ticket: Ticket, principal: string): LogEntry {
    LogEntry(decision, reason, ticket.statementText, ticket.role, ticket.sessionId, Some(principal),
      Some(ticket.proposalId))
  }

  /** Self-approval got as far as the principal gate, which records it. */
  predicate SelfApproval(gate: Gate, s: State, ap: Approval, clock: Clock) {
    && ap.signer == gate.key && ap.requestId in s.requestToProposal && ap.requestId in s.requests
    && s.requests[ap.requestId].status == Pending && clock.unix < ExpiresAt(s.requests[ap.requestId])
    && ap.approverId == s.requests[ap.requestId].requesterId
  }

  function ApproveStep(gate: Gate, s: State, ap: Approval, clock: Clock, sinkOk: bool): (State, Reply) {
    var fault := ApprovalFault(gate, s, ap, clock);
    if SelfApproval(gate, s, ap, clock) then
      (Logged(s, FlowEntry(AuditChain.Reject, SelfApprovalRefused, s.requests[ap.requestId].ticket, ap.approverId),
        sinkOk),
       Error(GrantRejected))
    else if fault.Some? then (s, Error(fault.value))
    else
      var request := s.requests[ap.requestId];
      var s1 := s.(requests := s.requests[ap.requestId := request.(status := Approved)],
                   grants := s.grants[s.requestToProposal[ap.requestId] := GrantFor(gate, s, ap, clock)]);
      (Logged(s1, FlowEntry(AuditChain.Allow, GrantSigned, request.ticket, ap.approverId), sinkOk),
       Granted(ap.requestId, ap.nonce))
  }

  // ------------------------------------------------------------------ apply

  /** What the agent presents at apply, and how the connection will answer. */
  datatype Confirmation = Confirmation(proposalId: string, rows: U64, token: Option<ConfirmToken>, answers: Answers)

  /** Why an apply is turned away before the grant gate. */
  function ApplyFault(s: State, c: Confirmation, clock: Clock): Option<ErrorCode> {
    if !Live(s, c.proposalId, clock) then Some(ProposalNotFound)
    else if s.proposals[c.proposalId].dryRun.None? then Some(ConfirmMismatch)
    else if c.rows != s.proposals[c.proposalId].dryRun.value.totalRows then Some(ConfirmMismatch)
    else if c.token.Some? && c.token.value != s.proposals[c.proposalId].dryRun.value.confirmToken
      then Some(ConfirmMismatch)
    else if c.proposalId !in s.grants then Some(ApprovalRequired)
    else None
  }

  /** The attempt, re-derived from the stored record and never from what the agent presents. */
  function AttemptOf(s: State, c: Confirmation, clock: Clock): Attempt
    requires ApplyFault(s, c, clock).None?
  {
    var record := s.proposals[c.proposalId];
    Attempt(s.grants[c.proposalId],
            LiveRequest(record.proposal.statement, [], record.role, record.sessionId, c.proposalId),
            record.kind, record.relation, record.dryRun.value.blastRadius, clock.unix, clock.stamp)
  }

  function GrantedCode(e: GrantedError): ErrorCode {
    match e
    case ApplyFailed(_) => BlastDrift
    case _ => GrantRejected
  }

  function ApplyEntry(live: LiveRequest, decision: Decision, reason: Reason): LogEntry {
    LogEntry(decision, reason, live.statementText, live.role, live.sessionId, None, Some(live.proposalId))
  }

  function ReplyFor(applied: AppliedWrite): Reply {
    Applied(applied.rowsWritten, applied.inverse.kind == PreimageUpsert || applied.inverse.rows != [], applied.inverse)
  }

  /** What the service does with the outcome of the grant-gated apply. */
  function Settle(
    s: State, live: LiveRequest, result: Result<AppliedWrite, GrantedError>, nonces: set<string>, sinkOk: bool)
    : (State, Reply)
  {
    var s1 := s.(usedNonces := nonces);
    match result
    case Success(applied) =>
      var s2 := s1.(proposals := s1.proposals - {live.proposalId}, grants := s1.grants - {live.proposalId});
      (Logged(s2, ApplyEntry(live, AuditChain.Allow, ApplyCommitted), sinkOk),
       if sinkOk then ReplyFor(applied) else Error(AuditFailed))
    case Failure(e) =>
      (Logged(s1, ApplyEntry(live, AuditChain.Block, Failed(GrantedCode(e))), sinkOk),
       Error(if sinkOk then GrantedCode(e) else AuditFailed))
  }

  function ApplyStep(gate: Gate, s: State, c: Confirmation, clock: Clock, sinkOk: bool): (State, Reply) {
    var fault := ApplyFault(s, c, clock);
    if fault.Some? then (s, Error(fault.value))
    else
      var t := AttemptOf(s, c, clock);
      Settle(s, t.live, GrantedResult(gate, t, s.usedNonces, c.answers),
        NoncesAfter(gate, t, s.usedNonces, c.answers), sinkOk)
  }

  // ------------------------------------------------------------------ one step of any kind

  datatype ServiceCall =
    | Propose(sql: string, expectedRows: Option<U64>, role: string, sessionId: string,
              classified: Result<(WriteKind, Relation), DryRunError>, id: string)
    | DryRun(proposalId: string, measured: Result<BlastRadius, DryRunError>)
    | RequestElevation(proposalId: string, cap: WriteCap)
    | Approve(approval: Approval)
    | Apply(confirmation: Confirmation)

  /** A call with the clock it reads and whether the audit sink takes records meanwhile. */
  datatype Input = Input(call: ServiceCall, clock: Clock, sinkOk: bool)

  function Step(gate: Gate, s: State, input: Input): (State, Reply) {
    match input.call
    case Propose(sql, expected, role, session, classified, id) =>
      ProposeStep(s, sql, expected, role, session, classified, id, input.clock, input.sinkOk)
    case DryRun(pid, measured) => DryRunStep(s, pid, measured, input.clock, input.sinkOk)
    case RequestElevation(pid, cap) => ElevateStep(s, pid, cap, input.clock, input.sinkOk)
    case Approve(ap) => ApproveStep(gate, s, ap, input.clock, input.sinkOk)
    case Apply(c) => ApplyStep(gate, s, c, input.clock, input.sinkOk)
  }
}
