/** Safety over whole runs of the service: where every commit comes from, what happens at most
    once, and what the audit log accounts for. Calls are serialized by one mutex, so a run is
    a sequence of calls; the clock, the sink, the connection and every argument are arbitrary. */
module Runs {
  import opened Prelude
  import opened BlastRadius
  import opened ApplyEngine
  import opened Grant
  import opened Lifecycle

  function StateAfter(gate: Gate, inputs: seq<Input>): State {
    if inputs == [] then INITIAL
    else Step(gate, StateAfter(gate, inputs[..|inputs| - 1]), inputs[|inputs| - 1]).0
  }

  /** The state in which call `i` is served. */
  function Before(gate: Gate, inputs: seq<Input>, i: nat): State
    requires i <= |inputs|
  {
    StateAfter(gate, inputs[..i])
  }

  lemma BeforeNext(gate: Gate, inputs: seq<Input>, i: nat)
    requires i < |inputs|
    ensures Before(gate, inputs, i + 1) == Step(gate, Before(gate, inputs, i), inputs[i]).0
  {
    assert inputs[..i + 1][..i] == inputs[..i];
  }

  // ------------------------------------------------------------------ what a step changes

  lemma SettleFrame(
    s: State, live: LiveRequest, result: Result<AppliedWrite, GrantedError>, nonces: set<string>, sinkOk: bool)
    ensures var s1 := Settle(s, live, result, nonces, sinkOk).0;
            && s1.requests == s.requests && s1.nextSerial == s.nextSerial && s1.usedNonces == nonces
            && s1.proposals == (if result.Success? then s.proposals - {live.proposalId} else s.proposals)
            && s1.grants == (if result.Success? then s.grants - {live.proposalId} else s.grants)
  {
  }

  lemma ApplyNext(gate: Gate, inputs: seq<Input>, i: nat)
    requires i < |inputs| && inputs[i].call.Apply?
    ensures Before(gate, inputs, i + 1) ==
            ApplyStep(gate, Before(gate, inputs, i), inputs[i].call.confirmation, inputs[i].clock, inputs[i].sinkOk).0
  {
    BeforeNext(gate, inputs, i);
  }

  /** An apply leaves the requests alone, removes at most its own record and grant, and only
      adds nonces. */
  lemma ApplyFrame(gate: Gate, s: State, c: Confirmation, clock: Clock, sinkOk: bool)
    ensures var s1 := ApplyStep(gate, s, c, clock, sinkOk).0;
            && s1.requests == s.requests && s1.nextSerial == s.nextSerial
            && (s1.proposals == s.proposals || s1.proposals == s.proposals - {c.proposalId})
            && (s1.grants == s.grants || s1.grants == s.grants - {c.proposalId})
            && s.usedNonces <= s1.usedNonces
  {
    if ApplyFault(s, c, clock).None? {
      var t := AttemptOf(s, c, clock);
      SettleFrame(s, t.live, GrantedResult(gate, t, s.usedNonces, c.answers),
        NoncesAfter(gate, t, s.usedNonces, c.answers), sinkOk);
    }
  }

  lemma ProposeFrame(
    s: State, sql: string, expectedRows: Option<U64>, role: string, session: string,
    classified: Result<(WriteKind, Relation), DryRunError>, id: string, clock: Clock, sinkOk: bool)
    ensures var s1 := ProposeStep(s, sql, expectedRows, role, session, classified, id, clock, sinkOk).0;
            && s1.grants == s.grants && s1.usedNonces == s.usedNonces && s1.requests == s.requests
            && ((s1.proposals == s.proposals && s1.nextSerial == s.nextSerial)
                || (id in s1.proposals && s1.proposals == s.proposals[id := s1.proposals[id]]
                    && s1.proposals[id].serial == s.nextSerial && s1.nextSerial == s.nextSerial + 1))
  {
  }

  lemma DryRunFrame(s: State, pid: string, measured: Result<BlastRadius, DryRunError>, clock: Clock, sinkOk: bool)
    ensures var s1 := DryRunStep(s, pid, measured, clock, sinkOk).0;
            && s1.grants == s.grants && s1.usedNonces == s.usedNonces && s1.requests == s.requests
            && s1.nextSerial == s.nextSerial
            && (s1.proposals == s.proposals
                || (pid in s.proposals && pid in s1.proposals && s1.proposals == s.proposals[pid := s1.proposals[pid]]
                    && s1.proposals[pid].serial == s.proposals[pid].serial))
  {
  }

  lemma ElevateFrame(s: State, pid: string, cap: WriteCap, clock: Clock, sinkOk: bool)
    ensures var s1 := ElevateStep(s, pid, cap, clock, sinkOk).0;
            && s1.grants == s.grants && s1.usedNonces == s.usedNonces
            && s1.proposals == s.proposals && s1.nextSerial == s.nextSerial
            && (s1.requests == s.requests
                || (s1.nextRequest !in s.requests && s1.nextRequest in s1.requests
                    && s1.requests == s.requests[s1.nextRequest := s1.requests[s1.nextRequest]]
                    && s1.requests[s1.nextRequest].requesterId == s1.requests[s1.nextRequest].ticket.sessionId))
  {
  }

  /** Nothing but an approval or an apply touches grants or nonces; nothing but an approval
      or an elevation touches the requests. */
  lemma OthersFrame(gate: Gate, s: State, input: Input)
    requires !input.call.Apply? && !input.call.Approve?
    ensures var s1 := Step(gate, s, input).0;
            && s1.grants == s.grants && s1.usedNonces == s.usedNonces
            && (!input.call.RequestElevation? ==> s1.requests == s.requests)
  {
    match input.call
    case Propose(sql, expected, role, session, classified, id) =>
      ProposeFrame(s, sql, expected, role, session, classified, id, input.clock, input.sinkOk);
    case DryRun(pid, measured) => DryRunFrame(s, pid, measured, input.clock, input.sinkOk);
    case RequestElevation(pid, cap) => ElevateFrame(s, pid, cap, input.clock, input.sinkOk);
  }

  lemma ApproveFrame(gate: Gate, s: State, ap: Approval, clock: Clock, sinkOk: bool)
    ensures var s1 := ApproveStep(gate, s, ap, clock, sinkOk).0;
            s1.usedNonces == s.usedNonces && s1.proposals == s.proposals && s1.nextSerial == s.nextSerial
  {
  }

  lemma ApproveRequests(gate: Gate, s: State, ap: Approval, clock: Clock, sinkOk: bool)
    ensures var s1 := ApproveStep(gate, s, ap, clock, sinkOk).0;
            s1.requests == if Accepts(gate, s, ap, clock)
                           then s.requests[ap.requestId := s.requests[ap.requestId].(status := Approved)]
                           else s.requests
  {
  }

  lemma ApproveGrants(gate: Gate, s: State, ap: Approval, clock: Clock, sinkOk: bool)
    ensures var s1 := ApproveStep(gate, s, ap, clock, sinkOk).0;
            s1.grants == if Accepts(gate, s, ap, clock)
                         then s.grants[s.requestToProposal[ap.requestId] := GrantFor(gate, s, ap, clock)] else s.grants
  {
  }

  // ------------------------------------------------------------------ approvals

  /** The approval `ap` is accepted in `s`. */
  predicate Accepts(gate: Gate, s: State, ap: Approval, clock: Clock) {
    ApprovalFault(gate, s, ap, clock).None?
  }

  /** What an accepted approval implies: the configured key signs, over a request that is
      pending and unexpired, on behalf of someone other than its requester. */
  lemma AcceptedMeans(gate: Gate, s: State, ap: Approval, clock: Clock)
    ensures Accepts(gate, s, ap, clock) <==>
            && ap.signer == gate.key && ap.requestId in s.requestToProposal && ap.requestId in s.requests
            && s.requests[ap.requestId].status == Pending && clock.unix < ExpiresAt(s.requests[ap.requestId])
            && ap.approverId != s.requests[ap.requestId].requesterId
    ensures Accepts(gate, s, ap, clock) ==> ApproveStep(gate, s, ap, clock, true).1 == Granted(ap.requestId, ap.nonce)
    ensures !Accepts(gate, s, ap, clock) ==> ApproveStep(gate, s, ap, clock, true).1.Error?
  {
  }

  ghost predicate ApprovedAt(gate: Gate, inputs: seq<Input>, j: nat) {
    && j < |inputs| && inputs[j].call.Approve?
    && Accepts(gate, Before(gate, inputs, j), inputs[j].call.approval, inputs[j].clock)
  }

  /** Call `j` minted exactly this grant. */
  ghost predicate MintedAt(gate: Gate, inputs: seq<Input>, j: nat, grant: GrantToken) {
    && ApprovedAt(gate, inputs, j)
    && grant == GrantFor(gate, Before(gate, inputs, j), inputs[j].call.approval, inputs[j].clock)
  }

  /** Every request was opened by the session its ticket names. */
  ghost predicate RequestsOwned(s: State) {
    forall r :: r in s.requests ==> s.requests[r].requesterId == s.requests[r].ticket.sessionId
  }

  lemma StepKeepsOwned(gate: Gate, s: State, input: Input)
    requires RequestsOwned(s)
    ensures RequestsOwned(Step(gate, s, input).0)
  {
    match input.call
    case Apply(c) => ApplyFrame(gate, s, c, input.clock, input.sinkOk);
    case RequestElevation(pid, cap) => ElevateFrame(s, pid, cap, input.clock, input.sinkOk);
    case Approve(ap) => ApproveRequests(gate, s, ap, input.clock, input.sinkOk);
    case _ => OthersFrame(gate, s, input);
  }

  lemma {:induction false} AlwaysOwned(gate: Gate, inputs: seq<Input>)
    ensures RequestsOwned(StateAfter(gate, inputs))
  {
    if inputs != [] {
      AlwaysOwned(gate, inputs[..|inputs| - 1]);
      StepKeepsOwned(gate, StateAfter(gate, inputs[..|inputs| - 1]), inputs[|inputs| - 1]);
    }
  }

  /** A grant in the state after a call was there before, or the call minted it. */
  lemma GrantsComeFromApproval(gate: Gate, s: State, input: Input, pid: string)
    requires pid in Step(gate, s, input).0.grants
    ensures var grant := Step(gate, s, input).0.grants[pid];
            || (pid in s.grants && grant == s.grants[pid])
            || (input.call.Approve? && Accepts(gate, s, input.call.approval, input.clock)
                && grant == GrantFor(gate, s, input.call.approval, input.clock))
  {
    match input.call
    case Apply(c) => ApplyFrame(gate, s, c, input.clock, input.sinkOk);
    case Approve(ap) => ApproveGrants(gate, s, ap, input.clock, input.sinkOk);
    case _ => OthersFrame(gate, s, input);
  }

  lemma MintedInPrefix(gate: Gate, inputs: seq<Input>, n: nat, j: nat, grant: GrantToken)
    requires n <= |inputs| && MintedAt(gate, inputs[..n], j, grant)
    ensures MintedAt(gate, inputs, j, grant)
  {
    assert inputs[..n][..j] == inputs[..j];
  }

  /** Every grant the service holds was minted by an accepted approval of this run. */
  lemma {:induction false} GrantsAreMinted(gate: Gate, inputs: seq<Input>, pid: string) returns (j: nat)
    requires pid in StateAfter(gate, inputs).grants
    ensures MintedAt(gate, inputs, j, StateAfter(gate, inputs).grants[pid])
  {
    var n := |inputs| - 1;
    var s := StateAfter(gate, inputs[..n]);
    GrantsComeFromApproval(gate, s, inputs[n], pid);
    if pid in s.grants && StateAfter(gate, inputs).grants[pid] == s.grants[pid] {
      j := GrantsAreMinted(gate, inputs[..n], pid);
      MintedInPrefix(gate, inputs, n, j, s.grants[pid]);
    } else {
      j := n;
    }
  }

  // ------------------------------------------------------------------ commits

  /** Call `i` is an apply that reached the grant gate. */
  ghost predicate AtGate(gate: Gate, inputs: seq<Input>, i: nat) {
    && i < |inputs| && inputs[i].call.Apply?
    && ApplyFault(Before(gate, inputs, i), inputs[i].call.confirmation, inputs[i].clock).None?
  }

  ghost function AttemptAt(gate: Gate, inputs: seq<Input>, i: nat): Attempt
    requires AtGate(gate, inputs, i)
  {
    AttemptOf(Before(gate, inputs, i), inputs[i].call.confirmation, inputs[i].clock)
  }

  ghost function AnswersAt(gate: Gate, inputs: seq<Input>, i: nat): Answers
    requires AtGate(gate, inputs, i)
  {
    inputs[i].call.confirmation.answers
  }

  /** The calls made on the connection at `i`. */
  ghost function CallsAt(gate: Gate, inputs: seq<Input>, i: nat): seq<Call>
    requires AtGate(gate, inputs, i)
  {
    GrantedCalls(gate, AttemptAt(gate, inputs, i), Before(gate, inputs, i).usedNonces, AnswersAt(gate, inputs, i))
  }

  /** Call `i` got past the grant gate: its nonce is spent and the guarded apply runs. */
  ghost predicate PassesGate(gate: Gate, inputs: seq<Input>, i: nat) {
    && AtGate(gate, inputs, i)
    && GateCheck(gate, AttemptAt(gate, inputs, i), Before(gate, inputs, i).usedNonces, AnswersAt(gate, inputs, i)).None?
  }

  /** Call `i` sends a commit that the server carries out. */
  ghost predicate CommitsAt(gate: Gate, inputs: seq<Input>, i: nat) {
    && PassesGate(gate, inputs, i)
    && Commits(JobFor(gate, AttemptAt(gate, inputs, i)), AnswersAt(gate, inputs, i))
    && AnswersAt(gate, inputs, i).commit.Success?
  }

  /** The request that approval `j` answered. */
  ghost function RequestAt(gate: Gate, inputs: seq<Input>, j: nat): Request
    requires ApprovedAt(gate, inputs, j)
  {
    Before(gate, inputs, j).requests[inputs[j].call.approval.requestId]
  }

  /** The row count of the rehearsal that the apply at `i` had to confirm. */
  ghost function ConfirmedRows(gate: Gate, inputs: seq<Input>, i: nat): U64
    requires AtGate(gate, inputs, i)
  {
    Before(gate, inputs, i).proposals[inputs[i].call.confirmation.proposalId].dryRun.value.totalRows
  }

  /** What is about to run is what the ticket says. */
  ghost predicate RunsTicket(t: Attempt, ticket: Ticket) {
    && ticket.statementText == t.live.statementText && ticket.normalizedParams == t.live.normalizedParams
    && ticket.role == t.live.role && ticket.sessionId == t.live.sessionId && ticket.proposalId == t.live.proposalId
    && ticket.dryRunLsn == t.dryRun.cloneLsn && ticket.cap == t.grant.binding.cap
  }

  /** The live and the signed binding of this attempt do not collide. */
  ghost predicate HashSound(gate: Gate, t: Attempt) {
    ToldApart(gate.hash, LiveBinding(t), t.grant.binding)
  }

  /** Provenance: whatever passes the gate runs the stored statement, role, session, proposal,
      rehearsal position and cap of a request that an earlier call approved while it was
      pending and unexpired, with the configured key, for an approver who is not the
      recorded session, and the caller confirmed the rehearsed row count. Every commit is
      such a pass. */
  lemma CommitHasProvenance(gate: Gate, inputs: seq<Input>, i: nat) returns (j: nat)
    requires PassesGate(gate, inputs, i) && HashSound(gate, AttemptAt(gate, inputs, i))
    ensures j < i && ApprovedAt(gate, inputs, j)
    ensures var request, ap, t := RequestAt(gate, inputs, j), inputs[j].call.approval, AttemptAt(gate, inputs, i);
            && RunsTicket(t, request.ticket)
            && request.status == Pending && inputs[j].clock.unix < ExpiresAt(request)
            && ap.signer == gate.key && ap.approverId != t.live.sessionId
            && inputs[i].clock.unix < SaturatingAdd(inputs[j].clock.unix, ap.ttlMillis)
            && t.grant.binding.nonce == ap.nonce
            && inputs[i].call.confirmation.rows == ConfirmedRows(gate, inputs, i)
  {
    var s, t := Before(gate, inputs, i), AttemptAt(gate, inputs, i);
    GateExact(gate, t, s.usedNonces, AnswersAt(gate, inputs, i));
    j := GrantsAreMinted(gate, inputs[..i], inputs[i].call.confirmation.proposalId);
    MintedInPrefix(gate, inputs, i, j, t.grant);
    AcceptedMeans(gate, Before(gate, inputs, j), inputs[j].call.approval, inputs[j].clock);
    AlwaysOwned(gate, inputs[..j]);
  }

  /** A stored request that differs in any field from the signed one is blocked: no restore
      point, no transaction, and the nonce stays unused. */
  lemma ChangedRequestBlocks(gate: Gate, inputs: seq<Input>, i: nat)
    requires AtGate(gate, inputs, i) && HashSound(gate, AttemptAt(gate, inputs, i))
    requires !SignedAsLive(AttemptAt(gate, inputs, i))
    ensures !PassesGate(gate, inputs, i)
    ensures Before(gate, inputs, i + 1).usedNonces == Before(gate, inputs, i).usedNonces
    ensures OpensNothing(CallsAt(gate, inputs, i))
  {
    var s, t := Before(gate, inputs, i), AttemptAt(gate, inputs, i);
    GateExact(gate, t, s.usedNonces, AnswersAt(gate, inputs, i));
    RefusalOpensNothing(gate, t, s.usedNonces, AnswersAt(gate, inputs, i));
    NoncesNext(gate, inputs, i);
  }

  // ------------------------------------------------------------------ the last rehearsal counts

  /** The stored rehearsal of `pid` is the record `b`. */
  ghost predicate HasRehearsal(s: State, pid: string, b: BlastRadius) {
    pid in s.proposals ==> s.proposals[pid].dryRun.Some? && s.proposals[pid].dryRun.value.blastRadius == b
  }

  /** Call `k` rehearsed `pid` and was served with the record `b`. */
  ghost predicate RehearsedAt(gate: Gate, inputs: seq<Input>, k: nat, pid: string, b: BlastRadius) {
    && k < |inputs| && inputs[k].call == DryRun(pid, Success(b))
    && Serves(Before(gate, inputs, k), pid, b, inputs[k].clock)
  }

  ghost predicate Serves(s: State, pid: string, b: BlastRadius, clock: Clock) {
    Live(s, pid, clock) && s.proposals[pid].relation in b.affected.pkSetChecksum
  }

  /** The call stores a new proposal, or another rehearsal, under `pid`. */
  ghost predicate Replaces(s: State, input: Input, pid: string) {
    match input.call
    case Propose(_, _, _, _, classified, id) => classified.Success? && id == pid
    case DryRun(id, measured) => id == pid && measured.Success? && Serves(s, pid, measured.value, input.clock)
    case _ => false
  }

  lemma ProposeKeepsRehearsal(s: State, input: Input, pid: string, b: BlastRadius)
    requires input.call.Propose? && HasRehearsal(s, pid, b) && !Replaces(s, input, pid)
    ensures HasRehearsal(ProposeStep(s, input.call.sql, input.call.expectedRows, input.call.role, input.call.sessionId,
                                     input.call.classified, input.call.id, input.clock, input.sinkOk).0, pid, b)
  {
  }

  lemma DryRunKeepsRehearsal(s: State, input: Input, pid: string, b: BlastRadius)
    requires input.call.DryRun? && HasRehearsal(s, pid, b) && !Replaces(s, input, pid)
    ensures HasRehearsal(DryRunStep(s, input.call.proposalId, input.call.measured, input.clock, input.sinkOk).0, pid, b)
  {
  }

  lemma StepKeepsRehearsal(gate: Gate, s: State, input: Input, pid: string, b: BlastRadius)
    requires HasRehearsal(s, pid, b) && !Replaces(s, input, pid)
    ensures HasRehearsal(Step(gate, s, input).0, pid, b)
  {
    match input.call
    case Propose(_, _, _, _, _, _) => ProposeKeepsRehearsal(s, input, pid, b);
    case DryRun(_, _) => DryRunKeepsRehearsal(s, input, pid, b);
    case RequestElevation(id, cap) => ElevateFrame(s, id, cap, input.clock, input.sinkOk);
    case Approve(ap) => ApproveFrame(gate, s, ap, input.clock, input.sinkOk);
    case Apply(c) => ApplyFrame(gate, s, c, input.clock, input.sinkOk);
  }

  lemma RehearsalStored(gate: Gate, s: State, pid: string, b: BlastRadius, clock: Clock, sinkOk: bool)
    requires Serves(s, pid, b, clock)
    ensures HasRehearsal(Step(gate, s, Input(DryRun(pid, Success(b)), clock, sinkOk)).0, pid, b)
  {
  }

  lemma RehearsalStoredAt(gate: Gate, inputs: seq<Input>, k: nat, pid: string, b: BlastRadius)
    requires RehearsedAt(gate, inputs, k, pid, b)
    ensures HasRehearsal(Before(gate, inputs, k + 1), pid, b)
  {
    BeforeNext(gate, inputs, k);
    RehearsalStored(gate, Before(gate, inputs, k), pid, b, inputs[k].clock, inputs[k].sinkOk);
    assert inputs[k] == Input(DryRun(pid, Success(b)), inputs[k].clock, inputs[k].sinkOk);
  }

  lemma RehearsalStays(gate: Gate, inputs: seq<Input>, m: nat, pid: string, b: BlastRadius)
    requires m < |inputs| && HasRehearsal(Before(gate, inputs, m), pid, b)
    requires !Replaces(Before(gate, inputs, m), inputs[m], pid)
    ensures HasRehearsal(Before(gate, inputs, m + 1), pid, b)
  {
    BeforeNext(gate, inputs, m);
    StepKeepsRehearsal(gate, Before(gate, inputs, m), inputs[m], pid, b);
  }

  /** Until a call replaces it, the stored rehearsal is the last one served. */
  lemma {:induction false} StoredRehearsalIsLast(
    gate: Gate, inputs: seq<Input>, k: nat, i: nat, pid: string, b: BlastRadius)
    requires RehearsedAt(gate, inputs, k, pid, b) && k < i <= |inputs|
    requires forall m :: k < m < i ==> !Replaces(Before(gate, inputs, m), inputs[m], pid)
    ensures HasRehearsal(Before(gate, inputs, i), pid, b)
  {
    if i == k + 1 {
      RehearsalStoredAt(gate, inputs, k, pid, b);
    } else {
      StoredRehearsalIsLast(gate, inputs, k, i - 1, pid, b);
      RehearsalStays(gate, inputs, i - 1, pid, b);
    }
  }

  /** A grant minted at `j` and a rehearsal of the same proposal served afterwards, at `k`, at
      another position than the one signed: unless the rehearsal is replaced in turn, the apply
      at `i` is blocked, opens nothing and leaves the nonce unused. */
  lemma ReRehearsalBlocks(gate: Gate, inputs: seq<Input>, j: nat, k: nat, i: nat, b: BlastRadius)
    requires AtGate(gate, inputs, i) && HashSound(gate, AttemptAt(gate, inputs, i)) && j < k < i
    requires MintedAt(gate, inputs, j, AttemptAt(gate, inputs, i).grant)
    requires RehearsedAt(gate, inputs, k, inputs[i].call.confirmation.proposalId, b)
    requires b.cloneLsn != RequestAt(gate, inputs, j).ticket.dryRunLsn
    requires forall m :: k < m < i ==>
               !Replaces(Before(gate, inputs, m), inputs[m], inputs[i].call.confirmation.proposalId)
    ensures !PassesGate(gate, inputs, i)
    ensures Before(gate, inputs, i + 1).usedNonces == Before(gate, inputs, i).usedNonces
    ensures OpensNothing(CallsAt(gate, inputs, i))
  {
    StoredRehearsalIsLast(gate, inputs, k, i, inputs[i].call.confirmation.proposalId, b);
    assert AttemptAt(gate, inputs, i).dryRun == b;
    ChangedRequestBlocks(gate, inputs, i);
  }

  // ------------------------------------------------------------------ at most once

  lemma StepKeepsApproved(gate: Gate, s: State, input: Input, r: nat)
    requires r in s.requests && s.requests[r].status == Approved
    ensures r in Step(gate, s, input).0.requests && Step(gate, s, input).0.requests[r].status == Approved
  {
    match input.call
    case Apply(c) => ApplyFrame(gate, s, c, input.clock, input.sinkOk);
    case RequestElevation(pid, cap) => ElevateFrame(s, pid, cap, input.clock, input.sinkOk);
    case Approve(ap) => ApproveRequests(gate, s, ap, input.clock, input.sinkOk);
    case _ => OthersFrame(gate, s, input);
  }

  lemma {:induction false} StaysApproved(gate: Gate, inputs: seq<Input>, j: nat, k: nat)
    requires ApprovedAt(gate, inputs, j) && j < k <= |inputs|
    ensures var r := inputs[j].call.approval.requestId;
            r in Before(gate, inputs, k).requests && Before(gate, inputs, k).requests[r].status == Approved
  {
    BeforeNext(gate, inputs, k - 1);
    if k > j + 1 {
      StaysApproved(gate, inputs, j, k - 1);
      StepKeepsApproved(gate, Before(gate, inputs, k - 1), inputs[k - 1], inputs[j].call.approval.requestId);
    }
  }

  /** Each request yields at most one grant. */
  lemma OneGrantPerRequest(gate: Gate, inputs: seq<Input>, j: nat, k: nat)
    requires ApprovedAt(gate, inputs, j) && ApprovedAt(gate, inputs, k)
    requires inputs[j].call.approval.requestId == inputs[k].call.approval.requestId
    ensures j == k
  {
    if j < k {
      StaysApproved(gate, inputs, j, k);
    } else if k < j {
      StaysApproved(gate, inputs, k, j);
    }
  }

  lemma StepKeepsNonces(gate: Gate, s: State, input: Input)
    ensures s.usedNonces <= Step(gate, s, input).0.usedNonces
  {
    match input.call
    case Apply(c) => ApplyFrame(gate, s, c, input.clock, input.sinkOk);
    case Approve(ap) => ApproveFrame(gate, s, ap, input.clock, input.sinkOk);
    case _ => OthersFrame(gate, s, input);
  }

  lemma {:induction false} NoncesOnlyGrow(gate: Gate, inputs: seq<Input>, i: nat, k: nat)
    requires i <= k <= |inputs|
    ensures Before(gate, inputs, i).usedNonces <= Before(gate, inputs, k).usedNonces
    decreases k - i
  {
    if i < k {
      NoncesOnlyGrow(gate, inputs, i, k - 1);
      BeforeNext(gate, inputs, k - 1);
      StepKeepsNonces(gate, Before(gate, inputs, k - 1), inputs[k - 1]);
    }
  }

  lemma GateNeedsFreshNonce(gate: Gate, t: Attempt, used: set<string>, a: Answers)
    requires GateCheck(gate, t, used, a).None?
    ensures t.grant.binding.nonce !in used
  {
  }

  lemma ApplyNonces(gate: Gate, s: State, c: Confirmation, clock: Clock, sinkOk: bool)
    requires ApplyFault(s, c, clock).None?
    ensures ApplyStep(gate, s, c, clock, sinkOk).0.usedNonces ==
            NoncesAfter(gate, AttemptOf(s, c, clock), s.usedNonces, c.answers)
  {
    var t := AttemptOf(s, c, clock);
    SettleFrame(s, t.live, GrantedResult(gate, t, s.usedNonces, c.answers),
      NoncesAfter(gate, t, s.usedNonces, c.answers), sinkOk);
  }

  lemma NoncesNext(gate: Gate, inputs: seq<Input>, i: nat)
    requires AtGate(gate, inputs, i)
    ensures Before(gate, inputs, i + 1).usedNonces ==
            NoncesAfter(gate, AttemptAt(gate, inputs, i), Before(gate, inputs, i).usedNonces,
              AnswersAt(gate, inputs, i))
  {
    ApplyNext(gate, inputs, i);
    ApplyNonces(gate, Before(gate, inputs, i), inputs[i].call.confirmation, inputs[i].clock, inputs[i].sinkOk);
  }

  lemma GateSpendsNonce(gate: Gate, inputs: seq<Input>, i: nat)
    requires PassesGate(gate, inputs, i)
    ensures AttemptAt(gate, inputs, i).grant.binding.nonce !in Before(gate, inputs, i).usedNonces
    ensures AttemptAt(gate, inputs, i).grant.binding.nonce in Before(gate, inputs, i + 1).usedNonces
  {
    NoncesNext(gate, inputs, i);
    GateNeedsFreshNonce(gate, AttemptAt(gate, inputs, i), Before(gate, inputs, i).usedNonces,
      AnswersAt(gate, inputs, i));
  }

  /** Each nonce opens at most one apply, even when that apply is then aborted by a guard. */
  lemma OneApplyPerNonce(gate: Gate, inputs: seq<Input>, i: nat, k: nat)
    requires PassesGate(gate, inputs, i) && PassesGate(gate, inputs, k)
    requires AttemptAt(gate, inputs, i).grant.binding.nonce == AttemptAt(gate, inputs, k).grant.binding.nonce
    ensures i == k
  {
    GateSpendsNonce(gate, inputs, i);
    GateSpendsNonce(gate, inputs, k);
    if i < k {
      NoncesOnlyGrow(gate, inputs, i + 1, k);
    } else if k < i {
      NoncesOnlyGrow(gate, inputs, k + 1, i);
    }
  }

  /** Records carry distinct serial numbers, all handed out already. */
  ghost predicate SerialsUnique(s: State) {
    && (forall p :: p in s.proposals ==> s.proposals[p].serial < s.nextSerial)
    && (forall p, q :: p in s.proposals && q in s.proposals && p != q ==>
          s.proposals[p].serial != s.proposals[q].serial)
  }

  lemma ReplacedSerials(s: State, s1: State, id: string)
    requires SerialsUnique(s) && id in s1.proposals && s1.proposals == s.proposals[id := s1.proposals[id]]
    requires || (s1.nextSerial == s.nextSerial + 1 && s1.proposals[id].serial == s.nextSerial)
             || (s1.nextSerial == s.nextSerial && id in s.proposals
                 && s1.proposals[id].serial == s.proposals[id].serial)
    ensures SerialsUnique(s1)
  {
  }

  lemma ProposeKeepsSerials(s: State, input: Input)
    requires SerialsUnique(s) && input.call.Propose?
    ensures SerialsUnique(ProposeStep(s, input.call.sql, input.call.expectedRows, input.call.role, input.call.sessionId,
                                      input.call.classified, input.call.id, input.clock, input.sinkOk).0)
  {
    if input.call.classified.Success? {
      var s1 := ProposeStep(s, input.call.sql, input.call.expectedRows, input.call.role, input.call.sessionId,
                            input.call.classified, input.call.id, input.clock, input.sinkOk).0;
      ReplacedSerials(s, s1, input.call.id);
    }
  }

  lemma DryRunKeepsSerials(s: State, input: Input)
    requires SerialsUnique(s) && input.call.DryRun?
    ensures SerialsUnique(DryRunStep(s, input.call.proposalId, input.call.measured, input.clock, input.sinkOk).0)
  {
    DryRunFrame(s, input.call.proposalId, input.call.measured, input.clock, input.sinkOk);
    var s1 := DryRunStep(s, input.call.proposalId, input.call.measured, input.clock, input.sinkOk).0;
    if s1.proposals != s.proposals {
      ReplacedSerials(s, s1, input.call.proposalId);
    }
  }

  lemma StepKeepsSerials(gate: Gate, s: State, input: Input)
    requires SerialsUnique(s)
    ensures SerialsUnique(Step(gate, s, input).0)
  {
    match input.call
    case Apply(c) => ApplyFrame(gate, s, c, input.clock, input.sinkOk);
    case Approve(ap) => ApproveFrame(gate, s, ap, input.clock, input.sinkOk);
    case DryRun(_, _) => DryRunKeepsSerials(s, input);
    case RequestElevation(pid, cap) => ElevateFrame(s, pid, cap, input.clock, input.sinkOk);
    case Propose(_, _, _, _, _, _) => ProposeKeepsSerials(s, input);
  }

  lemma {:induction false} AlwaysUnique(gate: Gate, inputs: seq<Input>)
    ensures SerialsUnique(StateAfter(gate, inputs))
  {
    if inputs != [] {
      AlwaysUnique(gate, inputs[..|inputs| - 1]);
      StepKeepsSerials(gate, StateAfter(gate, inputs[..|inputs| - 1]), inputs[|inputs| - 1]);
    }
  }

  /** The record with this serial number has been there and is gone. */
  ghost predicate SerialGone(s: State, serial: nat) {
    serial < s.nextSerial && forall p :: p in s.proposals ==> s.proposals[p].serial != serial
  }

  lemma StepKeepsGone(gate: Gate, s: State, input: Input, serial: nat)
    requires SerialGone(s, serial)
    ensures SerialGone(Step(gate, s, input).0, serial)
  {
    match input.call
    case Apply(c) => ApplyFrame(gate, s, c, input.clock, input.sinkOk);
    case Approve(ap) => ApproveFrame(gate, s, ap, input.clock, input.sinkOk);
    case DryRun(pid, measured) => DryRunFrame(s, pid, measured, input.clock, input.sinkOk);
    case RequestElevation(pid, cap) => ElevateFrame(s, pid, cap, input.clock, input.sinkOk);
    case Propose(sql, expected, role, session, classified, id) =>
      ProposeFrame(s, sql, expected, role, session, classified, id, input.clock, input.sinkOk);
  }

  lemma {:induction false} StaysGone(gate: Gate, inputs: seq<Input>, i: nat, k: nat, serial: nat)
    requires i <= k <= |inputs| && SerialGone(Before(gate, inputs, i), serial)
    ensures SerialGone(Before(gate, inputs, k), serial)
    decreases k - i
  {
    if i < k {
      StaysGone(gate, inputs, i, k - 1, serial);
      BeforeNext(gate, inputs, k - 1);
      StepKeepsGone(gate, Before(gate, inputs, k - 1), inputs[k - 1], serial);
    }
  }

  ghost function SerialAt(gate: Gate, inputs: seq<Input>, i: nat): nat
    requires AtGate(gate, inputs, i)
  {
    Before(gate, inputs, i).proposals[inputs[i].call.confirmation.proposalId].serial
  }

  /** The keys the connection reported at `i` have one width, as single-integer keys do. */
  ghost predicate KeysUniformAt(gate: Gate, inputs: seq<Input>, i: nat)
    requires AtGate(gate, inputs, i)
  {
    AnswersAt(gate, inputs, i).forward.Success? ==> UniformKeys(AnswersAt(gate, inputs, i).forward.value.written)
  }

  /** With uniform keys the service is told of exactly the commits that happen. */
  lemma ReportedExactly(gate: Gate, inputs: seq<Input>, i: nat)
    requires AtGate(gate, inputs, i) && KeysUniformAt(gate, inputs, i)
    ensures CommitsAt(gate, inputs, i) <==>
            GrantedResult(gate, AttemptAt(gate, inputs, i), Before(gate, inputs, i).usedNonces,
              AnswersAt(gate, inputs, i)).Success?
  {
    ResultMatchesCommit(JobFor(gate, AttemptAt(gate, inputs, i)), AnswersAt(gate, inputs, i));
  }

  lemma ReportRemovesRecord(gate: Gate, s: State, c: Confirmation, clock: Clock, sinkOk: bool)
    requires SerialsUnique(s) && ApplyFault(s, c, clock).None?
    requires GrantedResult(gate, AttemptOf(s, c, clock), s.usedNonces, c.answers).Success?
    ensures SerialGone(ApplyStep(gate, s, c, clock, sinkOk).0, s.proposals[c.proposalId].serial)
  {
    var t := AttemptOf(s, c, clock);
    SettleFrame(s, t.live, GrantedResult(gate, t, s.usedNonces, c.answers),
      NoncesAfter(gate, t, s.usedNonces, c.answers), sinkOk);
  }

  lemma CommitRemovesRecord(gate: Gate, inputs: seq<Input>, i: nat)
    requires CommitsAt(gate, inputs, i) && KeysUniformAt(gate, inputs, i)
    ensures SerialGone(Before(gate, inputs, i + 1), SerialAt(gate, inputs, i))
  {
    ReportedExactly(gate, inputs, i);
    AlwaysUnique(gate, inputs[..i]);
    ApplyNext(gate, inputs, i);
    ReportRemovesRecord(gate, Before(gate, inputs, i), inputs[i].call.confirmation, inputs[i].clock, inputs[i].sinkOk);
  }

  /** A committed proposal record never commits again. */
  lemma OneCommitPerRecord(gate: Gate, inputs: seq<Input>, i: nat, k: nat)
    requires CommitsAt(gate, inputs, i) && CommitsAt(gate, inputs, k)
    requires KeysUniformAt(gate, inputs, i) && KeysUniformAt(gate, inputs, k)
    requires SerialAt(gate, inputs, i) == SerialAt(gate, inputs, k)
    ensures i == k
  {
    if i < k {
      CommitRemovesRecord(gate, inputs, i);
      StaysGone(gate, inputs, i + 1, k, SerialAt(gate, inputs, i));
    } else if k < i {
      CommitRemovesRecord(gate, inputs, k);
      StaysGone(gate, inputs, k + 1, i, SerialAt(gate, inputs, k));
    }
  }

  // ------------------------------------------------------------------ audit accounting

  /** The enforcement refusals: a statement refused at propose or at rehearsal, or an apply
      refused at or after the grant gate. */
  predicate Refuses(gate: Gate, s: State, input: Input) {
    match input.call
    case Propose(_, _, _, _, classified, _) => classified.Failure?
    case DryRun(pid, measured) =>
      && Live(s, pid, input.clock)
      && (measured.Failure? || s.proposals[pid].relation !in measured.value.affected.pkSetChecksum)
    case Apply(c) =>
      && ApplyFault(s, c, input.clock).None?
      && GrantedResult(gate, AttemptOf(s, c, input.clock), s.usedNonces, c.answers).Failure?
    case _ => false
  }

  predicate Reports(gate: Gate, s: State, input: Input) {
    && input.call.Apply?
    && ApplyFault(s, input.call.confirmation, input.clock).None?
    && GrantedResult(gate, AttemptOf(s, input.call.confirmation, input.clock), s.usedNonces,
      input.call.confirmation.answers).Success?
  }

  function Tick(b: bool): nat {
    if b then 1 else 0
  }

  function Recorded(log: seq<LogEntry>, decision: Decision, counts: Reason -> bool): nat {
    if log == [] then 0
    else
      var last := log[|log| - 1];
      Recorded(log[..|log| - 1], decision, counts) + Tick(last.decision == decision && counts(last.reason))
  }

  lemma RecordedMore(log: seq<LogEntry>, entry: LogEntry, decision: Decision, counts: Reason -> bool)
    ensures Recorded(log + [entry], decision, counts) ==
            Recorded(log, decision, counts) + Tick(entry.decision == decision && counts(entry.reason))
  {
    assert (log + [entry])[..|log|] == log;
  }

  function CommitRecords(s: State): nat {
    Recorded(s.log, AuditChain.Allow, (r: Reason) => r == ApplyCommitted)
  }

  function RefusalRecords(s: State): nat {
    Recorded(s.log, AuditChain.Block, (r: Reason) => r.Failed?)
  }

  /** The tallies after `entry` is logged, or not. */
  ghost predicate Accounts(s: State, s1: State, commits: bool, refuses: bool) {
    && CommitRecords(s1) == CommitRecords(s) + Tick(commits)
    && RefusalRecords(s1) == RefusalRecords(s) + Tick(refuses)
  }

  lemma LoggedAccounts(s: State, s1: State, entry: LogEntry, sinkOk: bool)
    requires s1.log == s.log
    ensures Accounts(s, Logged(s1, entry, sinkOk),
                     sinkOk && entry.decision == AuditChain.Allow && entry.reason == ApplyCommitted,
                     sinkOk && entry.decision == AuditChain.Block && entry.reason.Failed?)
  {
    RecordedMore(s.log, entry, AuditChain.Allow, (r: Reason) => r == ApplyCommitted);
    RecordedMore(s.log, entry, AuditChain.Block, (r: Reason) => r.Failed?);
  }

  lemma RefuseAccounts(s: State, statement: string, role: string, session: string, code: ErrorCode, sinkOk: bool)
    ensures Accounts(s, Refuse(s, statement, role, session, code, sinkOk).0, false, sinkOk)
  {
    LoggedAccounts(s, s, LogEntry(AuditChain.Block, Failed(code), statement, role, session, None, None), sinkOk);
  }

  lemma SettleAccounts(
    s: State, live: LiveRequest, result: Result<AppliedWrite, GrantedError>, nonces: set<string>, sinkOk: bool)
    ensures Accounts(s, Settle(s, live, result, nonces, sinkOk).0, result.Success? && sinkOk, result.Failure? && sinkOk)
    ensures Settle(s, live, result, nonces, sinkOk).1 == Error(AuditFailed) <==> !sinkOk
  {
    var s1 := s.(usedNonces := nonces);
    match result
    case Success(applied) =>
      var s2 := s1.(proposals := s1.proposals - {live.proposalId}, grants := s1.grants - {live.proposalId});
      LoggedAccounts(s, s2, ApplyEntry(live, AuditChain.Allow, ApplyCommitted), sinkOk);
    case Failure(e) =>
      LoggedAccounts(s, s1, ApplyEntry(live, AuditChain.Block, Failed(GrantedCode(e))), sinkOk);
  }

  lemma ElevateAccounts(s: State, pid: string, cap: WriteCap, clock: Clock, sinkOk: bool)
    ensures Accounts(s, ElevateStep(s, pid, cap, clock, sinkOk).0, false, false)
  {
    var s1 := ElevateStep(s, pid, cap, clock, sinkOk).0;
    if s1.log != s.log {
      LoggedAccounts(s, s, s1.log[|s1.log| - 1], true);
      assert s1.log == s.log + [s1.log[|s1.log| - 1]];
    }
  }

  lemma ApproveAccounts(gate: Gate, s: State, ap: Approval, clock: Clock, sinkOk: bool)
    ensures Accounts(s, ApproveStep(gate, s, ap, clock, sinkOk).0, false, false)
  {
    var s1 := ApproveStep(gate, s, ap, clock, sinkOk).0;
    if s1.log != s.log {
      LoggedAccounts(s, s, s1.log[|s1.log| - 1], true);
      assert s1.log == s.log + [s1.log[|s1.log| - 1]];
    }
  }

  lemma ProposeAccounts(gate: Gate, s: State, input: Input)
    requires input.call.Propose?
    ensures StepAccounted(gate, s, input)
  {
    if input.call.classified.Failure? {
      RefuseAccounts(s, input.call.sql, input.call.role, input.call.sessionId,
        DryRunCode(input.call.classified.error), input.sinkOk);
    }
  }

  lemma DryRunAccounts(gate: Gate, s: State, input: Input)
    requires input.call.DryRun?
    ensures StepAccounted(gate, s, input)
  {
    var measured := input.call.measured;
    if Refuses(gate, s, input) {
      var record := s.proposals[input.call.proposalId];
      RefuseAccounts(s, record.proposal.statement, record.role, record.sessionId,
                     if measured.Failure? then DryRunCode(measured.error) else PkLessTarget, input.sinkOk);
    }
  }

  lemma ApplyAccounts(gate: Gate, s: State, input: Input)
    requires input.call.Apply?
    ensures StepAccounted(gate, s, input)
  {
    var c := input.call.confirmation;
    if ApplyFault(s, c, input.clock).None? {
      var t := AttemptOf(s, c, input.clock);
      SettleAccounts(s, t.live, GrantedResult(gate, t, s.usedNonces, c.answers),
        NoncesAfter(gate, t, s.usedNonces, c.answers), input.sinkOk);
    }
  }

  /** One call adds the record it owes, or answers that the audit failed. */
  ghost predicate StepAccounted(gate: Gate, s: State, input: Input) {
    var (s1, reply) := Step(gate, s, input);
    && Accounts(s, s1, Reports(gate, s, input) && input.sinkOk, Refuses(gate, s, input) && input.sinkOk)
    && (Reports(gate, s, input) || Refuses(gate, s, input) ==> (reply == Error(AuditFailed) <==> !input.sinkOk))
  }

  lemma StepAccounts(gate: Gate, s: State, input: Input)
    ensures StepAccounted(gate, s, input)
  {
    match input.call
    case Propose(_, _, _, _, _, _) => ProposeAccounts(gate, s, input);
    case DryRun(_, _) => DryRunAccounts(gate, s, input);
    case RequestElevation(pid, cap) => ElevateAccounts(s, pid, cap, input.clock, input.sinkOk);
    case Approve(ap) => ApproveAccounts(gate, s, ap, input.clock, input.sinkOk);
    case Apply(_) => ApplyAccounts(gate, s, input);
  }

  /** How many calls of the run are reported commits, recorded or answered AUDIT_FAILED. */
  function Commitments(gate: Gate, inputs: seq<Input>): nat {
    if inputs == [] then 0
    else
      var init := inputs[..|inputs| - 1];
      Commitments(gate, init) + Tick(Reports(gate, StateAfter(gate, init), inputs[|inputs| - 1]))
  }

  function UnrecordedCommits(gate: Gate, inputs: seq<Input>): nat {
    if inputs == [] then 0
    else
      var init, last := inputs[..|inputs| - 1], inputs[|inputs| - 1];
      var s := StateAfter(gate, init);
      UnrecordedCommits(gate, init) + Tick(Reports(gate, s, last) && Step(gate, s, last).1 == Error(AuditFailed))
  }

  function Refusals(gate: Gate, inputs: seq<Input>): nat {
    if inputs == [] then 0
    else
      var init := inputs[..|inputs| - 1];
      Refusals(gate, init) + Tick(Refuses(gate, StateAfter(gate, init), inputs[|inputs| - 1]))
  }

  function UnrecordedRefusals(gate: Gate, inputs: seq<Input>): nat {
    if inputs == [] then 0
    else
      var init, last := inputs[..|inputs| - 1], inputs[|inputs| - 1];
      var s := StateAfter(gate, init);
      UnrecordedRefusals(gate, init) + Tick(Refuses(gate, s, last) && Step(gate, s, last).1 == Error(AuditFailed))
  }

  /** Over every run, commits are the committed records plus the commits answered with an
      audit failure, and enforcement refusals are the block records plus the refusals
      answered with an audit failure. */
  lemma {:induction false} AuditAccounts(gate: Gate, inputs: seq<Input>)
    ensures Commitments(gate, inputs) == CommitRecords(StateAfter(gate, inputs)) + UnrecordedCommits(gate, inputs)
    ensures Refusals(gate, inputs) == RefusalRecords(StateAfter(gate, inputs)) + UnrecordedRefusals(gate, inputs)
  {
    if inputs != [] {
      var init := inputs[..|inputs| - 1];
      AuditAccounts(gate, init);
      StepAccounts(gate, StateAfter(gate, init), inputs[|inputs| - 1]);
    }
  }

  /** Call `i` sends a commit, whatever the server answers. */
  ghost predicate SendsCommitAt(gate: Gate, inputs: seq<Input>, i: nat) {
    && PassesGate(gate, inputs, i)
    && Commits(JobFor(gate, AttemptAt(gate, inputs, i)), AnswersAt(gate, inputs, i))
  }

  /** Call `i` sends a commit and is told of an error; the server may have committed or not. */
  ghost predicate UnconfirmedAt(gate: Gate, inputs: seq<Input>, i: nat) {
    SendsCommitAt(gate, inputs, i) && AnswersAt(gate, inputs, i).commit.Failure?
  }

  /** How many of the first `n` calls send a commit, and how many of those are confirmed or not. */
  ghost function SentCount(gate: Gate, inputs: seq<Input>, n: nat): nat
    requires n <= |inputs|
  {
    if n == 0 then 0 else SentCount(gate, inputs, n - 1) + Tick(SendsCommitAt(gate, inputs, n - 1))
  }

  ghost function CommitCount(gate: Gate, inputs: seq<Input>, n: nat): nat
    requires n <= |inputs|
  {
    if n == 0 then 0 else CommitCount(gate, inputs, n - 1) + Tick(CommitsAt(gate, inputs, n - 1))
  }

  ghost function UnconfirmedCount(gate: Gate, inputs: seq<Input>, n: nat): nat
    requires n <= |inputs|
  {
    if n == 0 then 0 else UnconfirmedCount(gate, inputs, n - 1) + Tick(UnconfirmedAt(gate, inputs, n - 1))
  }

  lemma {:induction false} SentIsConfirmedOrNot(gate: Gate, inputs: seq<Input>, n: nat)
    requires n <= |inputs|
    ensures SentCount(gate, inputs, n) == CommitCount(gate, inputs, n) + UnconfirmedCount(gate, inputs, n)
  {
    if n > 0 {
      SentIsConfirmedOrNot(gate, inputs, n - 1);
    }
  }

  /** A commit the server did not confirm is treated, and recorded, as a refusal. */
  lemma UnconfirmedIsRefused(gate: Gate, inputs: seq<Input>, i: nat)
    requires UnconfirmedAt(gate, inputs, i)
    ensures Refuses(gate, Before(gate, inputs, i), inputs[i])
  {
    ResultMatchesCommit(JobFor(gate, AttemptAt(gate, inputs, i)), AnswersAt(gate, inputs, i));
  }

  lemma ReportsAt(gate: Gate, inputs: seq<Input>, i: nat)
    requires i < |inputs| && (AtGate(gate, inputs, i) ==> KeysUniformAt(gate, inputs, i))
    ensures Reports(gate, Before(gate, inputs, i), inputs[i]) <==> CommitsAt(gate, inputs, i)
  {
    if AtGate(gate, inputs, i) {
      ReportedExactly(gate, inputs, i);
    }
  }

  lemma CommitmentsMore(gate: Gate, inputs: seq<Input>, n: nat)
    requires n < |inputs|
    ensures Commitments(gate, inputs[..n + 1]) ==
            Commitments(gate, inputs[..n]) + Tick(Reports(gate, Before(gate, inputs, n), inputs[n]))
  {
    assert inputs[..n + 1][..n] == inputs[..n];
  }

  lemma {:induction false} CommitsAreReported(gate: Gate, inputs: seq<Input>, n: nat)
    requires n <= |inputs|
    requires forall i :: 0 <= i < |inputs| && AtGate(gate, inputs, i) ==> KeysUniformAt(gate, inputs, i)
    ensures CommitCount(gate, inputs, n) == Commitments(gate, inputs[..n])
  {
    if n > 0 {
      CommitsAreReported(gate, inputs, n - 1);
      CommitmentsMore(gate, inputs, n - 1);
      ReportsAt(gate, inputs, n - 1);
    }
  }

  /** With uniform keys, the commits sent are the committed records, plus the confirmed commits
      answered with an audit failure, plus the commits the server did not confirm. */
  lemma EveryCommitIsAccounted(gate: Gate, inputs: seq<Input>)
    requires forall i :: 0 <= i < |inputs| && AtGate(gate, inputs, i) ==> KeysUniformAt(gate, inputs, i)
    ensures SentCount(gate, inputs, |inputs|) ==
            CommitRecords(StateAfter(gate, inputs)) + UnrecordedCommits(gate, inputs)
            + UnconfirmedCount(gate, inputs, |inputs|)
  {
    SentIsConfirmedOrNot(gate, inputs, |inputs|);
    CommitsAreReported(gate, inputs, |inputs|);
    assert inputs[..|inputs|] == inputs;
    AuditAccounts(gate, inputs);
  }
}
