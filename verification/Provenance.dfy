/** Where a committed write comes from, told by the calls of the run alone: who proposed it and
    when, which rehearsal was confirmed, which request was approved by whom under which cap, and
    that each of these was still in time. And what happens to calls that come too late. */
module Provenance {
  import opened Prelude
  import opened BlastRadius
  import opened ApplyEngine
  import opened ApplyOutcome
  import opened Grant
  import opened GrantedOutcome
  import opened Lifecycle
  import opened Runs

  // ------------------------------------------------------------------ proposals

  /** Call `m` proposed `pid`, and was not refused. */
  ghost predicate ProposesAt(inputs: seq<Input>, m: nat, pid: string) {
    m < |inputs| && inputs[m].call.Propose? && inputs[m].call.classified.Success? && inputs[m].call.id == pid
  }

  /** No call between `m` and `n` proposed `pid` anew. */
  ghost predicate LastProposal(inputs: seq<Input>, m: nat, n: nat, pid: string) {
    m < n <= |inputs| && ProposesAt(inputs, m, pid) && forall x :: m < x < n ==> !ProposesAt(inputs, x, pid)
  }

  /** Less than fifteen minutes of monotonic time passed between the two calls. */
  ghost predicate Fresh(inputs: seq<Input>, m: nat, i: nat)
    requires m < |inputs| && i < |inputs|
  {
    inputs[i].clock.mono < inputs[m].clock.mono + 900_000
  }

  /** The record holds what call `m` proposed. */
  ghost predicate HoldsProposal(inputs: seq<Input>, m: nat, pid: string, record: Record)
    requires ProposesAt(inputs, m, pid)
  {
    var call, clock := inputs[m].call, inputs[m].clock;
    && record.proposal == Proposal(pid, call.sql, call.expectedRows, clock.unix, clock.mono, 900_000)
    && record.role == call.role && record.sessionId == call.sessionId
    && record.kind == call.classified.value.0 && record.relation == call.classified.value.1
  }

  /** Call `d` rehearsed what call `m` proposed, in time, with a keyed measurement. */
  ghost predicate RehearsesAt(inputs: seq<Input>, m: nat, d: nat, pid: string) {
    && m < d < |inputs| && ProposesAt(inputs, m, pid) && Fresh(inputs, m, d)
    && inputs[d].call.DryRun? && inputs[d].call.proposalId == pid && inputs[d].call.measured.Success?
    && inputs[m].call.classified.value.1 in inputs[d].call.measured.value.affected.pkSetChecksum
  }

  /** The record holds the rehearsal of call `d` and its confirmation token. */
  ghost predicate HoldsRehearsal(inputs: seq<Input>, m: nat, d: nat, pid: string, record: Record)
    requires RehearsesAt(inputs, m, d, pid)
  {
    var b := inputs[d].call.measured.value;
    record.dryRun == Some(DryRunState(b, b.affected.totalRows, ConfirmToken(pid, b.affected.totalRows)))
  }

  ghost predicate RehearsedBefore(inputs: seq<Input>, m: nat, n: nat, pid: string, record: Record) {
    exists d: nat :: d < n && RehearsesAt(inputs, m, d, pid) && HoldsRehearsal(inputs, m, d, pid, record)
  }

  /** The record under `pid` after `n` calls: the last proposal of that id, rehearsed since or
      not at all. */
  ghost predicate RecordFrom(inputs: seq<Input>, m: nat, n: nat, pid: string, record: Record) {
    && LastProposal(inputs, m, n, pid) && HoldsProposal(inputs, m, pid, record)
    && (record.dryRun.Some? ==> RehearsedBefore(inputs, m, n, pid, record))
  }

  lemma StepRecord(gate: Gate, s: State, input: Input, pid: string)
    requires pid in Step(gate, s, input).0.proposals
    ensures var record := Step(gate, s, input).0.proposals[pid];
            || (pid in s.proposals && record == s.proposals[pid]
                && !(input.call.Propose? && input.call.classified.Success? && input.call.id == pid))
            || (input.call.Propose? && input.call.classified.Success? && input.call.id == pid
                && record.dryRun.None? && ProposedNow(input, record))
            || (input.call.DryRun? && input.call.proposalId == pid && pid in s.proposals
                && RehearsedNow(input, s.proposals[pid], record))
  {
    match input.call
    case Apply(c) => ApplyFrame(gate, s, c, input.clock, input.sinkOk);
    case Approve(ap) => ApproveFrame(gate, s, ap, input.clock, input.sinkOk);
    case RequestElevation(id, cap) => ElevateFrame(s, id, cap, input.clock, input.sinkOk);
    case _ =>
  }

  ghost predicate ProposedNow(input: Input, record: Record)
    requires input.call.Propose? && input.call.classified.Success?
  {
    var call, clock := input.call, input.clock;
    && record.proposal == Proposal(call.id, call.sql, call.expectedRows, clock.unix, clock.mono, 900_000)
    && record.role == call.role && record.sessionId == call.sessionId
    && record.kind == call.classified.value.0 && record.relation == call.classified.value.1
  }

  ghost predicate RehearsedNow(input: Input, before: Record, record: Record)
    requires input.call.DryRun?
  {
    && input.call.measured.Success?
    && var b := input.call.measured.value;
       && record == before.(dryRun := Some(DryRunState(b, b.affected.totalRows,
                              ConfirmToken(input.call.proposalId, b.affected.totalRows))))
       && before.relation in b.affected.pkSetChecksum
       && input.clock.mono < before.proposal.createdMono + before.proposal.ttlMillis
  }

  lemma StillFrom(inputs: seq<Input>, m: nat, n: nat, pid: string, record: Record)
    requires n < |inputs| && RecordFrom(inputs, m, n, pid, record) && !ProposesAt(inputs, n, pid)
    ensures RecordFrom(inputs, m, n + 1, pid, record)
  {
    if record.dryRun.Some? {
      var d: nat :| d < n && RehearsesAt(inputs, m, d, pid) && HoldsRehearsal(inputs, m, d, pid, record);
      assert d < n + 1 && RehearsesAt(inputs, m, d, pid) && HoldsRehearsal(inputs, m, d, pid, record);
    }
  }

  lemma NewlyRehearsed(inputs: seq<Input>, m: nat, n: nat, pid: string, before: Record, record: Record)
    requires n < |inputs| && RecordFrom(inputs, m, n, pid, before)
    requires inputs[n].call.DryRun? && inputs[n].call.proposalId == pid && RehearsedNow(inputs[n], before, record)
    ensures RecordFrom(inputs, m, n + 1, pid, record)
  {
    assert n < n + 1 && RehearsesAt(inputs, m, n, pid) && HoldsRehearsal(inputs, m, n, pid, record);
  }

  /** Every stored record goes back to the last proposal of its id and to a rehearsal since. */
  lemma {:induction false} RecordsAreProposed(gate: Gate, inputs: seq<Input>, n: nat, pid: string) returns (m: nat)
    requires n <= |inputs| && pid in Before(gate, inputs, n).proposals
    ensures RecordFrom(inputs, m, n, pid, Before(gate, inputs, n).proposals[pid])
  {
    var k := n - 1;
    BeforeNext(gate, inputs, k);
    var s := Before(gate, inputs, k);
    StepRecord(gate, s, inputs[k], pid);
    var record := Before(gate, inputs, n).proposals[pid];
    if ProposesAt(inputs, k, pid) {
      m := k;
    } else {
      m := RecordsAreProposed(gate, inputs, k, pid);
      if record == s.proposals[pid] {
        StillFrom(inputs, m, k, pid, record);
      } else {
        NewlyRehearsed(inputs, m, k, pid, s.proposals[pid], record);
      }
    }
  }

  // ------------------------------------------------------------------ calls that come too late

  /** The call names the proposal `pid`, to rehearse it, to have it approved or to apply it. */
  ghost predicate Names(call: ServiceCall, pid: string) {
    match call
    case DryRun(id, _) => id == pid
    case RequestElevation(id, _) => id == pid
    case Apply(c) => c.proposalId == pid
    case _ => false
  }

  lemma ExpiredIsRefused(gate: Gate, s: State, input: Input, pid: string)
    requires Names(input.call, pid)
    requires pid in s.proposals ==>
             input.clock.mono >= s.proposals[pid].proposal.createdMono + s.proposals[pid].proposal.ttlMillis
    ensures Step(gate, s, input) == (s, Error(ProposalNotFound))
  {
  }

  /** Over every run: a call that names a proposal never made, or made fifteen minutes of
      monotonic time ago or more, changes nothing and is answered PROPOSAL_NOT_FOUND. */
  lemma LateCallsAreRefused(gate: Gate, inputs: seq<Input>, i: nat, pid: string)
    requires i < |inputs| && Names(inputs[i].call, pid)
    requires forall m: nat :: LastProposal(inputs, m, i, pid) ==> !Fresh(inputs, m, i)
    ensures Step(gate, Before(gate, inputs, i), inputs[i]) == (Before(gate, inputs, i), Error(ProposalNotFound))
  {
    var s := Before(gate, inputs, i);
    if pid in s.proposals {
      var m := RecordsAreProposed(gate, inputs, i, pid);
      assert LastProposal(inputs, m, i, pid);
    }
    ExpiredIsRefused(gate, s, inputs[i], pid);
  }

  /** Whatever reaches the grant gate was proposed, less than fifteen minutes of monotonic time
      ago, and rehearsed since; its caller confirmed that rehearsal's row count, and its token
      if one was presented. */
  lemma GateIsInTime(gate: Gate, inputs: seq<Input>, i: nat) returns (m: nat, d: nat)
    requires AtGate(gate, inputs, i)
    ensures var c, t := inputs[i].call.confirmation, AttemptAt(gate, inputs, i);
            && LastProposal(inputs, m, i, c.proposalId) && Fresh(inputs, m, i)
            && d < i && RehearsesAt(inputs, m, d, c.proposalId)
            && Attempted(inputs, m, d, i, t)
            && c.rows == inputs[d].call.measured.value.affected.totalRows
            && (c.token.Some? ==> c.token.value == ConfirmToken(c.proposalId, c.rows))
  {
    var c, s := inputs[i].call.confirmation, Before(gate, inputs, i);
    m := RecordsAreProposed(gate, inputs, i, c.proposalId);
    var record := s.proposals[c.proposalId];
    d :| d < i && RehearsesAt(inputs, m, d, c.proposalId) && HoldsRehearsal(inputs, m, d, c.proposalId, record);
  }

  /** The attempt is the statement of call `m` with the record of call `d`, at the time of call `i`. */
  ghost predicate Attempted(inputs: seq<Input>, m: nat, d: nat, i: nat, t: Attempt)
    requires i < |inputs| && inputs[i].call.Apply? && RehearsesAt(inputs, m, d, inputs[i].call.confirmation.proposalId)
  {
    var call := inputs[m].call;
    && t.live == LiveRequest(call.sql, [], call.role, call.sessionId, inputs[i].call.confirmation.proposalId)
    && t.kind == call.classified.value.0 && t.relation == call.classified.value.1
    && t.dryRun == inputs[d].call.measured.value
    && t.now == inputs[i].clock.unix && t.stamp == inputs[i].clock.stamp
  }

  // ------------------------------------------------------------------ requests

  /** Call `e` asked for approval of what call `m` proposed and call `d` rehearsed, in time, the
      rehearsal being reversible. */
  ghost predicate RequestsAt(inputs: seq<Input>, m: nat, d: nat, e: nat) {
    && d < e < |inputs| && inputs[e].call.RequestElevation?
    && RehearsesAt(inputs, m, d, inputs[e].call.proposalId) && Fresh(inputs, m, e)
    && inputs[d].call.measured.value.reversible
  }

  /** The ticket is for that statement, at that rehearsal's position, under the cap asked for. */
  ghost predicate TicketFrom(inputs: seq<Input>, m: nat, d: nat, e: nat, ticket: Ticket)
    requires RequestsAt(inputs, m, d, e)
  {
    ticket == Ticket(inputs[e].call.proposalId, inputs[m].call.sql, [], inputs[m].call.role,
      inputs[m].call.sessionId, inputs[d].call.measured.value.cloneLsn, inputs[e].call.cap)
  }

  ghost predicate RequestFrom(inputs: seq<Input>, m: nat, d: nat, e: nat, request: Request) {
    && RequestsAt(inputs, m, d, e) && TicketFrom(inputs, m, d, e, request.ticket)
    && request.requesterId == inputs[m].call.sessionId
    && request.created == inputs[e].clock.unix && request.ttlMillis == 1_800_000
  }

  ghost predicate ElevatedNow(s: State, input: Input, request: Request)
    requires input.call.RequestElevation? && input.call.proposalId in s.proposals
  {
    var record := s.proposals[input.call.proposalId];
    && record.dryRun.Some? && record.dryRun.value.blastRadius.reversible
    && input.clock.mono < record.proposal.createdMono + record.proposal.ttlMillis
    && request == Request(
         Ticket(record.proposal.id, record.proposal.statement, [], record.role, record.sessionId,
           record.dryRun.value.blastRadius.cloneLsn, input.call.cap),
         record.sessionId, input.clock.unix, 1_800_000, Pending)
  }

  lemma ElevationStores(s: State, pid: string, cap: WriteCap, clock: Clock, sinkOk: bool, r: nat)
    requires r in ElevateStep(s, pid, cap, clock, sinkOk).0.requests && r !in s.requests
    ensures pid in s.proposals
    ensures ElevatedNow(s, Input(RequestElevation(pid, cap), clock, sinkOk),
              ElevateStep(s, pid, cap, clock, sinkOk).0.requests[r])
  {
  }

  lemma StepRequest(gate: Gate, s: State, input: Input, r: nat)
    requires r in Step(gate, s, input).0.requests
    ensures var request := Step(gate, s, input).0.requests[r];
            || (r in s.requests && request.(status := Pending) == s.requests[r].(status := Pending))
            || (input.call.RequestElevation? && input.call.proposalId in s.proposals && ElevatedNow(s, input, request))
  {
    match input.call
    case Apply(c) => ApplyFrame(gate, s, c, input.clock, input.sinkOk);
    case Approve(ap) => ApproveRequests(gate, s, ap, input.clock, input.sinkOk);
    case RequestElevation(pid, cap) =>
      ElevateFrame(s, pid, cap, input.clock, input.sinkOk);
      if r !in s.requests {
        ElevationStores(s, pid, cap, input.clock, input.sinkOk, r);
      }
    case _ => OthersFrame(gate, s, input);
  }

  /** Every stored request goes back to the call that asked for it. */
  lemma {:induction false} RequestsAreAsked(gate: Gate, inputs: seq<Input>, n: nat, r: nat)
    returns (m: nat, d: nat, e: nat)
    requires n <= |inputs| && r in Before(gate, inputs, n).requests
    ensures e < n && RequestFrom(inputs, m, d, e, Before(gate, inputs, n).requests[r])
  {
    var k := n - 1;
    BeforeNext(gate, inputs, k);
    var s := Before(gate, inputs, k);
    StepRequest(gate, s, inputs[k], r);
    var request := Before(gate, inputs, n).requests[r];
    if r in s.requests && request.(status := Pending) == s.requests[r].(status := Pending) {
      m, d, e := RequestsAreAsked(gate, inputs, k, r);
    } else {
      var pid := inputs[k].call.proposalId;
      m := RecordsAreProposed(gate, inputs, k, pid);
      d :| d < k && RehearsesAt(inputs, m, d, pid) && HoldsRehearsal(inputs, m, d, pid, s.proposals[pid]);
      e := k;
    }
  }

  // ------------------------------------------------------------------ the trail of a committed write

  /** Call `j` approved, with the configured key and for someone other than the session that
      proposed, a request that was less than half an hour of wall time old, for a grant that had
      not run out at call `i`. */
  ghost predicate ApprovesAt(gate: Gate, inputs: seq<Input>, m: nat, e: nat, j: nat, i: nat) {
    && m < |inputs| && e < j < i < |inputs| && inputs[j].call.Approve? && inputs[m].call.Propose?
    && inputs[j].call.approval.signer == gate.key
    && inputs[j].call.approval.approverId != inputs[m].call.sessionId
    && inputs[j].clock.unix < SaturatingAdd(inputs[e].clock.unix, 1_800_000)
    && inputs[i].clock.unix < SaturatingAdd(inputs[j].clock.unix, inputs[j].call.approval.ttlMillis)
  }

  /** The request of call `e` was for the write of calls `m` and `d`: the same statement, role,
      session and proposal, rehearsed at the same position. */
  ghost predicate SameWrite(inputs: seq<Input>, m: nat, d: nat, m': nat, d': nat, e: nat, pid: string) {
    && RehearsesAt(inputs, m, d, pid) && RequestsAt(inputs, m', d', e) && inputs[e].call.proposalId == pid
    && inputs[m'].call.sql == inputs[m].call.sql && inputs[m'].call.role == inputs[m].call.role
    && inputs[m'].call.sessionId == inputs[m].call.sessionId
    && inputs[d'].call.measured.value.cloneLsn == inputs[d].call.measured.value.cloneLsn
  }

  lemma ApprovalTrail(gate: Gate, inputs: seq<Input>, i: nat) returns (m': nat, d': nat, e: nat, j: nat)
    requires PassesGate(gate, inputs, i) && HashSound(gate, AttemptAt(gate, inputs, i))
    ensures e < j < i && RequestsAt(inputs, m', d', e) && ApprovedAt(gate, inputs, j)
    ensures TicketFrom(inputs, m', d', e, RequestAt(gate, inputs, j).ticket)
    ensures RunsTicket(AttemptAt(gate, inputs, i), RequestAt(gate, inputs, j).ticket)
    ensures ApprovesAt(gate, inputs, m', e, j, i)
    ensures AttemptAt(gate, inputs, i).grant.binding.nonce == inputs[j].call.approval.nonce
  {
    j := CommitHasProvenance(gate, inputs, i);
    m', d', e := RequestsAreAsked(gate, inputs, j, inputs[j].call.approval.requestId);
  }

  /** Over every run, a commit that is sent has a trail: calls that proposed, rehearsed, asked for
      and approved exactly this write, each in time. What is sent is the proposed statement's
      kind and relation, and what is committed stays within the rehearsed record and within
      the cap that the approved request asked for. */
  lemma CommittedWriteTrail(gate: Gate, inputs: seq<Input>, i: nat)
    returns (m: nat, d: nat, m': nat, d': nat, e: nat, j: nat)
    requires AtGate(gate, inputs, i) && HashSound(gate, AttemptAt(gate, inputs, i))
    requires Commit in CallsAt(gate, inputs, i)
    ensures var c := inputs[i].call.confirmation;
            && d < i && RehearsesAt(inputs, m, d, c.proposalId) && Fresh(inputs, m, i)
            && c.rows == inputs[d].call.measured.value.affected.totalRows
            && SameWrite(inputs, m, d, m', d', e, c.proposalId) && ApprovesAt(gate, inputs, m, e, j, i)
            && SpendsNonce(gate, inputs, i, inputs[j].call.approval.nonce)
    ensures var call, b := inputs[m].call, inputs[d].call.measured.value;
            && MayCommit(inputs[i].call.confirmation.proposalId, call.classified.value.0, call.classified.value.1, b,
                 inputs[e].call.cap, gate.pitr, inputs[i].call.confirmation.answers)
            && SendsWrite(CallsAt(gate, inputs, i), call.classified.value.0, call.classified.value.1, b)
  {
    var t, used := AttemptAt(gate, inputs, i), Before(gate, inputs, i).usedNonces;
    var a := inputs[i].call.confirmation.answers;
    GrantedCommitExactly(gate, t, used, a);
    GateOpenExactly(gate, t, used, a);
    m, d := GateIsInTime(gate, inputs, i);
    m', d', e, j := ApprovalTrail(gate, inputs, i);
    GrantedSends(gate, t, used, a);
    GateSpendsNonce(gate, inputs, i);
  }

  /** The approver's nonce was unused before call `i` and is used after it. */
  ghost predicate SpendsNonce(gate: Gate, inputs: seq<Input>, i: nat, nonce: string)
    requires i < |inputs|
  {
    nonce !in Before(gate, inputs, i).usedNonces && nonce in Before(gate, inputs, i + 1).usedNonces
  }
}
