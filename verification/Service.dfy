/** The write-safety service as an object (crates/applyd/src/service.rs) over its approval flow,
    request store and audit sink (crates/cli/src/flow.rs, request.rs, principal.rs). Every
    method is proved to take the service's state exactly where the lifecycle's step does. */
module Service {
  import opened Prelude
  import opened BlastRadius
  import opened ApplyEngine
  import opened Grant
  import opened Lifecycle

  // ------------------------------------------------------------------ principals

  datatype PrincipalKind = RequesterKind | ApproverKind

  datatype Principal = Principal(id: string, kind: PrincipalKind)

  datatype AuthorityError = NotAnApprover(id: string) | SelfApprovalError(id: string)

  /** `authorize`. */
  function Authorize(approver: Principal, requesterId: string): (r: Option<AuthorityError>)
    ensures r.None? <==> approver.kind == ApproverKind && approver.id != requesterId
  {
    if approver.kind != ApproverKind then Some(NotAnApprover(approver.id))
    else if approver.id == requesterId then Some(SelfApprovalError(approver.id))
    else None
  }

  // ------------------------------------------------------------------ sink and store

  class AuditSink {
    var log: seq<LogEntry>

    constructor ()
      ensures log == []
    {
      log := [];
    }

    /** `up` is whether the sink takes the record. */
    method Append(entry: LogEntry, up: bool) returns (ok: bool)
      modifies this
      ensures ok == up && log == if up then old(log) + [entry] else old(log)
    {
      if up {
        log := log + [entry];
      }
      return up;
    }
  }

  class ApprovalStore {
    var requests: map<nat, Request>

    constructor ()
      ensures requests == map[]
    {
      requests := map[];
    }

    /** Opens a pending request, unless the id is taken. */
    method RequestElevation(id: nat, ticket: Ticket, requesterId: string, ttlMillis: U64, clock: Clock)
      returns (expires: Option<U64>)
      modifies this
      ensures expires.None? <==> id in old(requests)
      ensures expires.None? ==> requests == old(requests)
      ensures expires.Some? ==>
              var request := Request(ticket, requesterId, clock.unix, ttlMillis, Pending);
              requests == old(requests)[id := request] && expires.value == ExpiresAt(request)
    {
      if id in requests {
        return None;
      }
      var request := Request(ticket, requesterId, clock.unix, ttlMillis, Pending);
      requests := requests[id := request];
      return Some(ExpiresAt(request));
    }

    method PendingForApproval(id: nat, clock: Clock) returns (r: Option<Request>)
      ensures r.Some? <==> id in requests && requests[id].status == Pending && clock.unix < ExpiresAt(requests[id])
      ensures r.Some? ==> r.value == requests[id]
    {
      if id !in requests || requests[id].status != Pending || clock.unix >= ExpiresAt(requests[id]) {
        return None;
      }
      return Some(requests[id]);
    }

    /** Single use: only a pending request can be resolved. */
    method Resolve(id: nat, status: Status) returns (ok: bool)
      modifies this
      ensures ok <==> id in old(requests) && old(requests)[id].status == Pending
      ensures requests == if ok then old(requests)[id := old(requests)[id].(status := status)] else old(requests)
    {
      if id !in requests || requests[id].status != Pending {
        return false;
      }
      requests := requests[id := requests[id].(status := status)];
      return true;
    }
  }

  // ------------------------------------------------------------------ the approval flow

  datatype ElevationError = OpRefused | DuplicateRequest

  datatype ApproveError = AuthorityFailed | RequestFailed

  class ApprovalFlow {
    const store: ApprovalStore
    const sink: AuditSink

    constructor (store: ApprovalStore, sink: AuditSink)
      ensures this.store == store && this.sink == sink
    {
      this.store, this.sink := store, sink;
    }

    /** Flow records are appended without looking at the outcome. */
    method AuditStep(entry: LogEntry, sinkUp: bool)
      modifies sink
      ensures sink.log == if sinkUp then old(sink.log) + [entry] else old(sink.log)
    {
      var _ := sink.Append(entry, sinkUp);
    }

    method RequestElevation(
      id: nat, ticket: Ticket, requesterId: string, refused: bool, ttlMillis: U64, clock: Clock, sinkUp: bool)
      returns (r: Result<U64, ElevationError>)
      modifies store, sink
      ensures r.Failure? ==> store.requests == old(store.requests)
      ensures refused ==>
              && r == Failure(OpRefused)
              && sink.log == if sinkUp
                 then old(sink.log) + [FlowEntry(AuditChain.Reject, StructuralOpRefused, ticket, requesterId)]
                 else old(sink.log)
      ensures !refused && id in old(store.requests) ==> r == Failure(DuplicateRequest) && sink.log == old(sink.log)
      ensures !refused && id !in old(store.requests) ==>
              var request := Request(ticket, requesterId, clock.unix, ttlMillis, Pending);
              && r == Success(ExpiresAt(request)) && store.requests == old(store.requests)[id := request]
              && sink.log == if sinkUp
                 then old(sink.log) + [FlowEntry(AuditChain.Block, ApprovalPending, ticket, requesterId)]
                 else old(sink.log)
    {
      if refused {
        AuditStep(FlowEntry(AuditChain.Reject, StructuralOpRefused, ticket, requesterId), sinkUp);
        return Failure(OpRefused);
      }
      var expires := store.RequestElevation(id, ticket, requesterId, ttlMillis, clock);
      if expires.None? {
        return Failure(DuplicateRequest);
      }
      AuditStep(FlowEntry(AuditChain.Block, ApprovalPending, ticket, requesterId), sinkUp);
      return Success(expires.value);
    }

    ghost predicate Open(id: nat, clock: Clock)
      reads store
    {
      id in store.requests && store.requests[id].status == Pending && clock.unix < ExpiresAt(store.requests[id])
    }

    method Approve(gate: Gate, ap: Approval, clock: Clock, sinkUp: bool) returns (r: Result<GrantToken, ApproveError>)
      modifies store, sink
      ensures !old(Open(ap.requestId, clock)) ==>
              r == Failure(RequestFailed) && store.requests == old(store.requests) && sink.log == old(sink.log)
      ensures old(Open(ap.requestId, clock)) && ap.approverId == old(store.requests)[ap.requestId].requesterId ==>
              && r == Failure(AuthorityFailed) && store.requests == old(store.requests)
              && sink.log == if sinkUp
                 then old(sink.log) + [FlowEntry(AuditChain.Reject, SelfApprovalRefused,
                   old(store.requests)[ap.requestId].ticket, ap.approverId)]
                 else old(sink.log)
      ensures old(Open(ap.requestId, clock)) && ap.approverId != old(store.requests)[ap.requestId].requesterId ==>
              var request := old(store.requests)[ap.requestId];
              var binding := BindingFor(request.ticket, ap.nonce, SaturatingAdd(clock.unix, ap.ttlMillis));
              && r == Success(Sign(gate.hash, binding, ap.signer))
              && store.requests == old(store.requests)[ap.requestId := request.(status := Approved)]
              && sink.log == if sinkUp
                 then old(sink.log) + [FlowEntry(AuditChain.Allow, GrantSigned, request.ticket, ap.approverId)]
                 else old(sink.log)
    {
      var request := store.PendingForApproval(ap.requestId, clock);
      if request.None? {
        return Failure(RequestFailed);
      }
      var ticket := request.value.ticket;
      var refused := Authorize(Principal(ap.approverId, ApproverKind), request.value.requesterId);
      if refused.Some? {
        AuditStep(FlowEntry(AuditChain.Reject, SelfApprovalRefused, ticket, ap.approverId), sinkUp);
        return Failure(AuthorityFailed);
      }
      var expiry := SaturatingAdd(clock.unix, ap.ttlMillis);
      var grant := Sign(gate.hash, BindingFor(ticket, ap.nonce, expiry), ap.signer);
      var resolved := store.Resolve(ap.requestId, Approved);
      if !resolved {
        return Failure(RequestFailed);
      }
      AuditStep(FlowEntry(AuditChain.Allow, GrantSigned, ticket, ap.approverId), sinkUp);
      return Success(grant);
    }
  }

  // ------------------------------------------------------------------ the service

  class Service {
    const gate: Gate
    const flow: ApprovalFlow
    const nonces: NonceStore
    var proposals: map<string, Record>
    var grants: map<string, GrantToken>
    var requestToProposal: map<nat, string>
    var nextRequest: nat
    var nextSerial: nat

    /** The service's state as one value. */
    ghost function View(): State
      reads this, flow.store, flow.sink, nonces
    {
      State(proposals, flow.store.requests, grants, requestToProposal, nextRequest, nextSerial, nonces.used,
        flow.sink.log)
    }

    constructor (gate: Gate)
      ensures this.gate == gate && View() == INITIAL
    {
      this.gate := gate;
      var store := new ApprovalStore();
      var sink := new AuditSink();
      this.flow := new ApprovalFlow(store, sink);
      this.nonces := new NonceStore();
      proposals, grants, requestToProposal := map[], map[], map[];
      nextRequest, nextSerial := 0, 0;
    }

    /** `audit_refusal_then`: record the refusal, or report that it could not be recorded. */
    method AuditRefusalThen(statement: string, role: string, session: string, code: ErrorCode, sinkUp: bool)
      returns (reply: Reply)
      modifies flow.sink
      ensures (View(), reply) == Refuse(old(View()), statement, role, session, code, sinkUp)
    {
      var ok := flow.sink.Append(LogEntry(AuditChain.Block, Failed(code), statement, role, session, None, None),
        sinkUp);
      return Error(if ok then code else AuditFailed);
    }

    /** `classified` is what parsing the statement said, `id` the id made for it. */
    method Propose(sql: string, expectedRows: Option<U64>, role: string, session: string,
                   classified: Result<(WriteKind, Relation), DryRunError>, id: string, clock: Clock, sinkUp: bool)
      returns (reply: Reply)
      modifies this, flow.sink
      ensures (View(), reply) == ProposeStep(old(View()), sql, expectedRows, role, session, classified, id, clock,
        sinkUp)
    {
      if classified.Failure? {
        reply := AuditRefusalThen(sql, role, session, DryRunCode(classified.error), sinkUp);
        return;
      }
      var (kind, relation) := classified.value;
      var proposal := Proposal(id, sql, expectedRows, clock.unix, clock.mono, DEFAULT_TTL_MILLIS);
      proposals := proposals[id := Record(nextSerial, proposal, role, session, kind, relation, None)];
      nextSerial := nextSerial + 1;
      return Proposed(id, proposal.ttlMillis);
    }

    method DryRun(pid: string, measured: Result<BlastRadius, DryRunError>, clock: Clock, sinkUp: bool)
      returns (reply: Reply)
      modifies this, flow.sink
      ensures (View(), reply) == DryRunStep(old(View()), pid, measured, clock, sinkUp)
    {
      if pid !in proposals || IsExpired(proposals[pid].proposal, clock) {
        return Error(ProposalNotFound);
      }
      var record := proposals[pid];
      if measured.Failure? {
        reply := AuditRefusalThen(record.proposal.statement, record.role, record.sessionId,
          DryRunCode(measured.error), sinkUp);
        return;
      }
      if record.relation !in measured.value.affected.pkSetChecksum {
        reply := AuditRefusalThen(record.proposal.statement, record.role, record.sessionId, PkLessTarget, sinkUp);
        return;
      }
      var total := measured.value.affected.totalRows;
      var token := ConfirmToken(pid, total);
      proposals := proposals[pid := record.(dryRun := Some(DryRunState(measured.value, total, token)))];
      return DryRan(total, measured.value.affected.pkSetChecksum[record.relation], measured.value.reversible, token);
    }

    method RequestElevation(pid: string, cap: WriteCap, clock: Clock, sinkUp: bool) returns (reply: Reply)
      modifies this, flow.store, flow.sink
      ensures (View(), reply) == ElevateStep(old(View()), pid, cap, clock, sinkUp)
    {
      if pid !in proposals || IsExpired(proposals[pid].proposal, clock) {
        return Error(ProposalNotFound);
      }
      var record := proposals[pid];
      if record.dryRun.None? {
        return Error(ConfirmMismatch);
      }
      var dry := record.dryRun.value;
      var ticket := TicketFor(record, dry, cap);
      var refused := Certify(record.kind, dry.blastRadius.reversible).Some?;
      nextRequest := nextRequest + 1;
      var outcome := flow.RequestElevation(nextRequest, ticket, record.sessionId, refused, DEFAULT_REQUEST_TTL_MILLIS,
        clock, sinkUp);
      if outcome.Failure? {
        return Error(if outcome.error.OpRefused? then NotCertified else ProposalNotFound);
      }
      requestToProposal := requestToProposal[nextRequest := pid];
      return Elevated(nextRequest, SaturatingSub(outcome.value, clock.unix), cap);
    }

    method Approve(ap: Approval, clock: Clock, sinkUp: bool) returns (reply: Reply)
      modifies this, flow.store, flow.sink
      ensures (View(), reply) == ApproveStep(gate, old(View()), ap, clock, sinkUp)
    {
      if ap.signer != gate.key {
        return Error(GrantRejected);
      }
      if ap.requestId !in requestToProposal {
        return Error(ProposalNotFound);
      }
      var outcome := flow.Approve(gate, ap, clock, sinkUp);
      if outcome.Failure? {
        return Error(if outcome.error.AuthorityFailed? then GrantRejected else ProposalNotFound);
      }
      grants := grants[requestToProposal[ap.requestId] := outcome.value];
      return Granted(ap.requestId, ap.nonce);
    }

    /** `apply_returning_inverse` on a connection of its own. */
    method Apply(c: Confirmation, conn: ApplyConn, clock: Clock, sinkUp: bool) returns (reply: Reply)
      requires conn.answers == c.answers && conn.calls == []
      modifies this, flow.sink, nonces, conn
      ensures (View(), reply) == ApplyStep(gate, old(View()), c, clock, sinkUp)
      ensures conn.calls == if ApplyFault(old(View()), c, clock).Some? then []
                            else GrantedCalls(gate, AttemptOf(old(View()), c, clock), old(nonces.used), c.answers)
    {
      var fault := CheckConfirmation(c, clock);
      if fault.Some? {
        return Error(fault.value);
      }
      var record := proposals[c.proposalId];
      var live := LiveRequest(record.proposal.statement, [], record.role, record.sessionId, c.proposalId);
      var attempt := Attempt(grants[c.proposalId], live, record.kind, record.relation,
                             record.dryRun.value.blastRadius, clock.unix, clock.stamp);
      ghost var was := View();
      var result := GuardedApplyWithGrant(gate, attempt, nonces, conn);
      assert View() == was.(usedNonces := nonces.used);
      reply := SettleOutcome(live, result, sinkUp);
    }

    method CheckConfirmation(c: Confirmation, clock: Clock) returns (fault: Option<ErrorCode>)
      ensures fault == ApplyFault(View(), c, clock)
    {
      if c.proposalId !in proposals || IsExpired(proposals[c.proposalId].proposal, clock) {
        return Some(ProposalNotFound);
      }
      var record := proposals[c.proposalId];
      if record.dryRun.None? {
        return Some(ConfirmMismatch);
      }
      var dry := record.dryRun.value;
      if c.rows != dry.totalRows {
        return Some(ConfirmMismatch);
      }
      if c.token.Some? && c.token.value != dry.confirmToken {
        return Some(ConfirmMismatch);
      }
      if c.proposalId !in grants {
        return Some(ApprovalRequired);
      }
      return None;
    }

    /** Consume proposal and grant on success; record the decision either way. */
    method SettleOutcome(live: LiveRequest, result: Result<AppliedWrite, GrantedError>, sinkUp: bool)
      returns (reply: Reply)
      modifies this, flow.sink
      ensures (View(), reply) == Settle(old(View()), live, result, old(nonces.used), sinkUp)
    {
      match result {
        case Success(applied) =>
          proposals := proposals - {live.proposalId};
          grants := grants - {live.proposalId};
          var ok := flow.sink.Append(ApplyEntry(live, AuditChain.Allow, ApplyCommitted), sinkUp);
          reply := if ok then ReplyFor(applied) else Error(AuditFailed);
        case Failure(e) =>
          var ok := flow.sink.Append(ApplyEntry(live, AuditChain.Block, Failed(GrantedCode(e))), sinkUp);
          reply := Error(if ok then GrantedCode(e) else AuditFailed);
      }
    }
  }
}
