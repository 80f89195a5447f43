/** What the service answers and what it writes to the audit log, told by the calls of the run:
    who is served, what a served call is told, and whom and what each record names. */
module Replies {
  import opened Prelude
  import opened BlastRadius
  import opened Inverse
  import opened ApplyEngine
  import opened ApplyOutcome
  import opened Grant
  import opened GrantedOutcome
  import opened Lifecycle
  import opened Runs
  import opened Provenance
  import AuditChain

  // ------------------------------------------------------------------ proposals stay

  /** Call `x` reported a commit of `pid`, which uses the proposal up. */
  ghost predicate UsesUp(gate: Gate, inputs: seq<Input>, x: nat, pid: string) {
    && x < |inputs| && Reports(gate, Before(gate, inputs, x), inputs[x])
    && inputs[x].call.confirmation.proposalId == pid
  }

  lemma ApplyKeepsProposal(gate: Gate, s: State, input: Input, pid: string)
    requires input.call.Apply? && pid in s.proposals
    requires Reports(gate, s, input) ==> input.call.confirmation.proposalId != pid
    ensures pid in Step(gate, s, input).0.proposals
  {
    var c := input.call.confirmation;
    if ApplyFault(s, c, input.clock).None? {
      var t := AttemptOf(s, c, input.clock);
      SettleFrame(s, t.live, GrantedResult(gate, t, s.usedNonces, c.answers),
        NoncesAfter(gate, t, s.usedNonces, c.answers), input.sinkOk);
    }
  }

  lemma StepKeepsProposal(gate: Gate, s: State, input: Input, pid: string)
    requires pid in s.proposals
    requires Reports(gate, s, input) ==> input.call.confirmation.proposalId != pid
    ensures pid in Step(gate, s, input).0.proposals
  {
    match input.call
    case Apply(_) => ApplyKeepsProposal(gate, s, input, pid);
    case Approve(ap) => ApproveFrame(gate, s, ap, input.clock, input.sinkOk);
    case RequestElevation(id, cap) => ElevateFrame(s, id, cap, input.clock, input.sinkOk);
    case DryRun(id, measured) => DryRunFrame(s, id, measured, input.clock, input.sinkOk);
    case Propose(_, _, _, _, _, _) =>
  }

  lemma ProposeStores(gate: Gate, s: State, input: Input)
    requires input.call.Propose? && input.call.classified.Success?
    ensures input.call.id in Step(gate, s, input).0.proposals
  {
  }

  /** A proposal is stored until a commit of it is reported. */
  lemma {:induction false} ProposalStays(gate: Gate, inputs: seq<Input>, m: nat, n: nat, pid: string)
    requires ProposesAt(inputs, m, pid) && m < n <= |inputs|
    requires forall x: nat :: m < x < n ==> !UsesUp(gate, inputs, x, pid)
    ensures pid in Before(gate, inputs, n).proposals
  {
    var k := n - 1;
    BeforeNext(gate, inputs, k);
    if k == m {
      ProposeStores(gate, Before(gate, inputs, m), inputs[m]);
    } else {
      ProposalStays(gate, inputs, m, k, pid);
      assert !UsesUp(gate, inputs, k, pid);
      StepKeepsProposal(gate, Before(gate, inputs, k), inputs[k], pid);
    }
  }

  // ------------------------------------------------------------------ answers

  /** The code a refused statement is answered with. */
  ghost predicate CodeFor(e: DryRunError, code: ErrorCode) {
    match code
    case VolatilePredicate => e.Volatile?
    case PkLessTarget => e.PkLess?
    case ProposalNotFound => e.Expired?
    case NotCertified => e.NotRehearsable? || e.NotSelfDetermined? || e.DryRunBackend?
    case _ => false
  }

  /** A proposal is accepted under its id for fifteen minutes, or refused with the code of what
      was wrong with the statement. */
  lemma ProposeReplies(gate: Gate, s: State, input: Input)
    requires input.call.Propose?
    ensures var reply, classified := Step(gate, s, input).1, input.call.classified;
            && (classified.Success? ==> reply == Proposed(input.call.id, 900_000))
            && (classified.Failure? ==>
                reply.Error? && if input.sinkOk then CodeFor(classified.error, reply.code)
                                else reply.code == AuditFailed)
  {
  }

  /** A served rehearsal is answered with the totals, the target's checksum and the certificate of
      the record, and a token that names the proposal and its row count; a call is served
      exactly when its proposal is stored and in time and the measurement has the target's key. */
  lemma DryRunReplies(gate: Gate, inputs: seq<Input>, i: nat, m: nat)
    requires i < |inputs| && inputs[i].call.DryRun? && LastProposal(inputs, m, i, inputs[i].call.proposalId)
    requires forall x: nat :: m < x < i ==> !UsesUp(gate, inputs, x, inputs[i].call.proposalId)
    ensures var reply, measured := Step(gate, Before(gate, inputs, i), inputs[i]).1, inputs[i].call.measured;
            && (reply.DryRan? <==> RehearsesAt(inputs, m, i, inputs[i].call.proposalId))
            && (reply.DryRan? ==>
                && var b := measured.value;
                   reply == DryRan(b.affected.totalRows, b.affected.pkSetChecksum[inputs[m].call.classified.value.1],
                     b.reversible, ConfirmToken(inputs[i].call.proposalId, b.affected.totalRows)))
            && (!reply.DryRan? && Fresh(inputs, m, i) && inputs[i].sinkOk ==>
                reply.Error? && if measured.Failure? then CodeFor(measured.error, reply.code)
                                else reply.code == PkLessTarget)
  {
    var pid := inputs[i].call.proposalId;
    ProposalStays(gate, inputs, m, i, pid);
    var n := RecordsAreProposed(gate, inputs, i, pid);
    SameLast(inputs, m, n, i, pid);
  }

  lemma SameLast(inputs: seq<Input>, m: nat, n: nat, i: nat, pid: string)
    requires LastProposal(inputs, m, i, pid) && LastProposal(inputs, n, i, pid)
    ensures m == n
  {
  }

  /** An accepted elevation is answered with a new request number, the cap asked for and half an
      hour, or what is left of it before the end of time; any other stores no request. */
  lemma ElevateReplies(s: State, pid: string, cap: WriteCap, clock: Clock, sinkOk: bool)
    ensures var (s1, reply) := ElevateStep(s, pid, cap, clock, sinkOk);
            && (reply.Elevated? ==>
                && reply.requestId !in s.requests && reply.requestId in s1.requests && reply.cap == cap
                && s1.requestToProposal == s.requestToProposal[reply.requestId := pid]
                && reply.ttlMillis == if clock.unix + 1_800_000 <= U64_MAX then 1_800_000 else U64_MAX - clock.unix)
            && (!reply.Elevated? ==> s1.requests == s.requests && s1.requestToProposal == s.requestToProposal)
  {
  }

  /** When an elevation is accepted, and what it is answered otherwise, in the order of the checks. */
  lemma ElevateDecides(s: State, pid: string, cap: WriteCap, clock: Clock, sinkOk: bool)
    ensures var reply := ElevateStep(s, pid, cap, clock, sinkOk).1;
            if pid !in s.proposals || !HasTime(s.proposals[pid].proposal, clock) then reply == Error(ProposalNotFound)
            else if s.proposals[pid].dryRun.None? then reply == Error(ConfirmMismatch)
            else if !s.proposals[pid].dryRun.value.blastRadius.reversible then reply == Error(NotCertified)
            else reply.Elevated? || (s.nextRequest + 1 in s.requests && reply == Error(ProposalNotFound))
  {
    if pid in s.proposals {
      ExpiryIsMonotone(s.proposals[pid].proposal, clock, clock);
    }
  }

  /** What an approval is answered, in the order of the checks. */
  lemma ApproveReplies(gate: Gate, s: State, ap: Approval, clock: Clock, sinkOk: bool)
    ensures var reply := ApproveStep(gate, s, ap, clock, sinkOk).1;
            if ap.signer != gate.key then reply == Error(GrantRejected)
            else if ap.requestId !in s.requestToProposal || ap.requestId !in s.requests
                    || s.requests[ap.requestId].status != Pending
                    || clock.unix >= SaturatingAdd(s.requests[ap.requestId].created, s.requests[ap.requestId].ttlMillis)
            then reply == Error(ProposalNotFound)
            else if ap.approverId == s.requests[ap.requestId].requesterId then reply == Error(GrantRejected)
            else reply == Granted(ap.requestId, ap.nonce)
  {
  }

  /** Why an apply is turned away before the gate, in the order of the checks. */
  lemma ApplyTurnedAway(s: State, c: Confirmation, clock: Clock)
    ensures var fault := ApplyFault(s, c, clock);
            if c.proposalId !in s.proposals || !HasTime(s.proposals[c.proposalId].proposal, clock)
            then fault == Some(ProposalNotFound)
            else if s.proposals[c.proposalId].dryRun.None?
                    || c.rows != s.proposals[c.proposalId].dryRun.value.totalRows
                    || (c.token.Some? && c.token != Some(s.proposals[c.proposalId].dryRun.value.confirmToken))
            then fault == Some(ConfirmMismatch)
            else if c.proposalId !in s.grants then fault == Some(ApprovalRequired)
            else fault == None
  {
    if c.proposalId in s.proposals {
      ExpiryIsMonotone(s.proposals[c.proposalId].proposal, clock, clock);
    }
  }

  /** What the outcome of an attempt is answered with. */
  ghost predicate AnswerIs(result: Result<AppliedWrite, GrantedError>, sinkOk: bool, reply: Reply) {
    if !sinkOk then reply == Error(AuditFailed)
    else match result
      case Failure(e) => reply == Error(if e.ApplyFailed? then BlastDrift else GrantRejected)
      case Success(r) =>
        && reply.Applied? && reply.rowsWritten == r.rowsWritten && reply.inverse == r.inverse
        && (reply.reversible <==> r.inverse.kind == PreimageUpsert || r.inverse.rows != [])
  }

  lemma SettleAnswers(
    s: State, live: LiveRequest, result: Result<AppliedWrite, GrantedError>, nonces: set<string>, sinkOk: bool)
    ensures AnswerIs(result, sinkOk, Settle(s, live, result, nonces, sinkOk).1)
  {
  }

  ghost function ResultAt(gate: Gate, inputs: seq<Input>, i: nat): Result<AppliedWrite, GrantedError>
    requires AtGate(gate, inputs, i)
  {
    GrantedResult(gate, AttemptAt(gate, inputs, i), Before(gate, inputs, i).usedNonces, AnswersAt(gate, inputs, i))
  }

  lemma ApplyAnswers(gate: Gate, s: State, c: Confirmation, clock: Clock, sinkOk: bool)
    requires ApplyFault(s, c, clock).None?
    ensures AnswerIs(GrantedResult(gate, AttemptOf(s, c, clock), s.usedNonces, c.answers), sinkOk,
              ApplyStep(gate, s, c, clock, sinkOk).1)
  {
    var t := AttemptOf(s, c, clock);
    SettleAnswers(s, t.live, GrantedResult(gate, t, s.usedNonces, c.answers),
      NoncesAfter(gate, t, s.usedNonces, c.answers), sinkOk);
  }

  lemma StepIsApply(gate: Gate, s: State, input: Input)
    requires input.call.Apply?
    ensures Step(gate, s, input) == ApplyStep(gate, s, input.call.confirmation, input.clock, input.sinkOk)
  {
  }

  lemma AnswerAt(gate: Gate, inputs: seq<Input>, i: nat)
    requires AtGate(gate, inputs, i)
    ensures AnswerIs(ResultAt(gate, inputs, i), inputs[i].sinkOk, Step(gate, Before(gate, inputs, i), inputs[i]).1)
  {
    StepIsApply(gate, Before(gate, inputs, i), inputs[i]);
    ApplyAnswers(gate, Before(gate, inputs, i), inputs[i].call.confirmation, inputs[i].clock, inputs[i].sinkOk);
  }

  lemma ToldAt(reply: Reply, t: Attempt, cascades: seq<Relation>, a: Answers, gate: Gate, r: AppliedWrite)
    requires a.forward.Success? && ReportIs(gate, t, a, cascades, r) && AnswerIs(Success(r), true, reply)
    ensures Tells(reply, t.kind, t.relation, cascades, a.forward.value)
  {
  }

  /** An apply that reached the gate is answered with what it did: when the sink takes the record,
      a commit with the number of rows written and the plan that undoes them, a failed guard
      with BLAST_DRIFT, a refused grant with GRANT_REJECTED; otherwise AUDIT_FAILED. */
  lemma ApplyReplies(gate: Gate, inputs: seq<Input>, i: nat) returns (m: nat, d: nat, cascades: seq<Relation>)
    requires AtGate(gate, inputs, i)
    ensures LastProposal(inputs, m, i, inputs[i].call.confirmation.proposalId)
    ensures RehearsesAt(inputs, m, d, inputs[i].call.confirmation.proposalId)
    ensures var reply, result := Step(gate, Before(gate, inputs, i), inputs[i]).1, ResultAt(gate, inputs, i);
            && (!inputs[i].sinkOk ==> reply == Error(AuditFailed))
            && (inputs[i].sinkOk && result.Failure? ==>
                reply == Error(if result.error.ApplyFailed? then BlastDrift else GrantRejected))
            && (inputs[i].sinkOk && result.Success? ==>
                ToldOf(reply, inputs, m, d, cascades, AnswersAt(gate, inputs, i), CallsAt(gate, inputs, i)))
  {
    m, d := GateIsInTime(gate, inputs, i);
    AnswerAt(gate, inputs, i);
    cascades := [];
    if ResultAt(gate, inputs, i).Success? && inputs[i].sinkOk {
      var t, a := AttemptAt(gate, inputs, i), AnswersAt(gate, inputs, i);
      cascades := GrantedReport(gate, t, Before(gate, inputs, i).usedNonces, a);
      ToldAt(Step(gate, Before(gate, inputs, i), inputs[i]).1, t, cascades, a, gate, ResultAt(gate, inputs, i).value);
    }
  }

  /** A commit that was sent and confirmed, and what its caller is told: call `m` proposed it and
      call `d` rehearsed it. */
  ghost predicate ToldOf(
    reply: Reply, inputs: seq<Input>, m: nat, d: nat, cascades: seq<Relation>, a: Answers, calls: seq<Call>)
  {
    && m < d < |inputs| && inputs[m].call.Propose? && inputs[m].call.classified.Success?
    && inputs[d].call.DryRun? && inputs[d].call.measured.Success?
    && Commit in calls && a.commit.Success? && a.forward.Success?
    && var (kind, relation) := inputs[m].call.classified.value;
       && CascadeList(inputs[d].call.measured.value, relation, cascades)
       && Tells(reply, kind, relation, cascades, a.forward.value)
  }

  /** The reply of a reported commit: how many rows the statement returned, the plan that undoes
      them, and whether there is anything to undo: always for an UPDATE. */
  ghost predicate Tells(
    reply: Reply, kind: WriteKind, relation: Relation, cascades: seq<Relation>, forward: ForwardResult)
  {
    && reply.Applied? && reply.rowsWritten == |forward.written|
    && reply.inverse == PlanOf(kind, relation, cascades, forward)
    && (reply.reversible <==> kind == Update || reply.inverse.rows != [])
  }

  // ------------------------------------------------------------------ the log

  /** What the record of a call says: the decision, the reason, whose statement it is and, where
      one is known, on whose behalf and about which proposal. */
  ghost predicate Says(
    entry: LogEntry, decision: Decision, reason: Reason, sql: string, role: string, session: string,
    principal: Option<string>, proposalId: Option<string>)
  {
    && entry.decision == decision && entry.reason == reason && entry.statementText == sql && entry.role == role
    && entry.sessionId == session && entry.principal == principal && entry.proposalId == proposalId
  }

  /** The record a refused proposal leaves: the refused statement and its session. */
  lemma ProposeRecords(gate: Gate, s: State, input: Input)
    requires input.call.Propose?
    ensures var log, call := Step(gate, s, input).0.log, input.call;
            if call.classified.Success? || !input.sinkOk then log == s.log
            else && |log| == |s.log| + 1 && log[..|s.log|] == s.log
                 && log[|s.log|].reason.Failed? && CodeFor(call.classified.error, log[|s.log|].reason.code)
                 && Says(log[|s.log|], AuditChain.Block, log[|s.log|].reason, call.sql, call.role, call.sessionId,
                      None, None)
  {
  }

  /** The record a refused rehearsal leaves: the stored statement and session. */
  lemma DryRunRecords(gate: Gate, s: State, input: Input)
    requires input.call.DryRun?
    ensures var log := Step(gate, s, input).0.log;
            || log == s.log
            || (&& input.call.proposalId in s.proposals && input.sinkOk
                && |log| == |s.log| + 1 && log[..|s.log|] == s.log && log[|s.log|].reason.Failed?
                && (input.call.measured.Failure? ==>
                    CodeFor(input.call.measured.error, log[|s.log|].reason.code))
                && var record := s.proposals[input.call.proposalId];
                   Says(log[|s.log|], AuditChain.Block, log[|s.log|].reason, record.proposal.statement, record.role,
                     record.sessionId, None, None))
  {
  }

  /** The record an elevation leaves: the stored statement, its session as requester, and whether
      it waits for approval or was refused. */
  lemma ElevateRecords(gate: Gate, s: State, input: Input)
    requires input.call.RequestElevation?
    ensures var (s1, reply) := Step(gate, s, input);
            var pid := input.call.proposalId;
            || s1.log == s.log
            || (&& pid in s.proposals && input.sinkOk && (reply.Elevated? || reply == Error(NotCertified))
                && |s1.log| == |s.log| + 1 && s1.log[..|s.log|] == s.log
                && var record := s.proposals[pid];
                   Says(s1.log[|s.log|], if reply.Elevated? then AuditChain.Block else AuditChain.Reject,
                     if reply.Elevated? then ApprovalPending else StructuralOpRefused, record.proposal.statement,
                     record.role, record.sessionId, Some(record.sessionId), Some(record.proposal.id)))
    ensures input.sinkOk && Step(gate, s, input).1.Elevated? ==> Step(gate, s, input).0.log != s.log
  {
  }

  /** The record an approval leaves: the ticket's statement, proposal and session, and the approver
      by name, also when they may not approve. */
  lemma ApproveRecords(gate: Gate, s: State, input: Input)
    requires input.call.Approve?
    ensures var (s1, reply) := Step(gate, s, input);
            var ap := input.call.approval;
            || s1.log == s.log
            || (&& ap.requestId in s.requests && input.sinkOk
                && |s1.log| == |s.log| + 1 && s1.log[..|s.log|] == s.log
                && var ticket := s.requests[ap.requestId].ticket;
                   Says(s1.log[|s.log|], if reply.Granted? then AuditChain.Allow else AuditChain.Reject,
                     if reply.Granted? then GrantSigned else SelfApprovalRefused, ticket.statementText, ticket.role,
                     ticket.sessionId, Some(ap.approverId), Some(ticket.proposalId)))
    ensures input.sinkOk && Step(gate, s, input).1.Granted? ==> Step(gate, s, input).0.log != s.log
  {
  }

  /** The record an apply leaves, once it reached the gate: the proposed statement, its session and
      the proposal, allowed exactly when a commit is reported. */
  lemma ApplyRecords(gate: Gate, inputs: seq<Input>, i: nat) returns (m: nat)
    requires AtGate(gate, inputs, i)
    ensures LastProposal(inputs, m, i, inputs[i].call.confirmation.proposalId)
    ensures var s, s1 := Before(gate, inputs, i), Step(gate, Before(gate, inputs, i), inputs[i]).0;
            var reported := Reports(gate, s, inputs[i]);
            if !inputs[i].sinkOk then s1.log == s.log
            else && |s1.log| == |s.log| + 1 && s1.log[..|s.log|] == s.log
                 && var entry := s1.log[|s.log|];
                    && (if reported then entry.reason == ApplyCommitted
                        else entry.reason == Failed(BlastDrift) || entry.reason == Failed(GrantRejected))
                    && Says(entry, if reported then AuditChain.Allow else AuditChain.Block, entry.reason,
                         inputs[m].call.sql, inputs[m].call.role, inputs[m].call.sessionId, None,
                         Some(inputs[i].call.confirmation.proposalId))
  {
    var d;
    m, d := GateIsInTime(gate, inputs, i);
  }
}
