/** What a grant-gated apply sends, commits and reports, in terms of the grant that was signed and
    the request that is stored: the cap it runs under is the signed one, the statement it sends is
    the stored one (crates/clone-orchestrator/src/apply_grant.rs). */
module GrantedOutcome {
  import opened Prelude
  import opened BlastRadius
  import opened Inverse
  import opened ApplyEngine
  import opened ApplyOutcome
  import opened ApplyErrors
  import opened Grant

  /** The predicate depends on more than the relation's key. */
  ghost predicate Steered(gate: Gate, t: Attempt, a: Answers) {
    a.pkColumn.Some? && gate.steerable(t.live.statementText, a.pkColumn.value)
  }

  /** The record is the stored proposal's and keyed, and the signed cap admits it. */
  ghost predicate Consistent(t: Attempt) {
    && t.dryRun.proposalId == t.live.proposalId && t.relation in t.dryRun.affected.pkSetChecksum
    && PredictedTotalTuples(t.dryRun.affected) <= t.grant.binding.cap.maxRows
    && t.dryRun.walBytes <= t.grant.binding.cap.maxWalBytes
  }

  /** The configured key signed the grant's own binding. */
  ghost predicate KeySigned(gate: Gate, token: GrantToken) {
    token.signature == Signature(gate.key, gate.hash(Encode(token.binding)))
  }

  /** Everything asked of an attempt before the guarded apply. */
  ghost predicate GateOpen(gate: Gate, t: Attempt, used: set<string>, a: Answers) {
    && !Steered(gate, t, a) && Consistent(t) && KeySigned(gate, t.grant) && SignedAsLive(t)
    && t.now < t.grant.binding.expiryUnixMillis && t.grant.binding.nonce !in used
  }

  lemma GateOpenExactly(gate: Gate, t: Attempt, used: set<string>, a: Answers)
    requires ToldApart(gate.hash, LiveBinding(t), t.grant.binding)
    ensures GateCheck(gate, t, used, a).None? <==> GateOpen(gate, t, used, a)
  {
    GateExact(gate, t, used, a);
  }

  lemma CallsBehindGate(gate: Gate, t: Attempt, used: set<string>, a: Answers)
    ensures GrantedCalls(gate, t, used, a) ==
            [PkColumn(t.relation)] + if GateCheck(gate, t, used, a).Some? then [] else ApplyCalls(JobFor(gate, t), a)
  {
  }

  /** The commit is sent exactly when the gate is open and the write stays within the rehearsed
      record and the cap that was signed, on the stored statement's own channel and relation. */
  lemma GrantedCommitExactly(gate: Gate, t: Attempt, used: set<string>, a: Answers)
    requires ToldApart(gate.hash, LiveBinding(t), t.grant.binding)
    ensures Commit in GrantedCalls(gate, t, used, a) <==>
            && GateOpen(gate, t, used, a)
            && MayCommit(t.live.proposalId, t.kind, t.relation, t.dryRun, t.grant.binding.cap, gate.pitr, a)
  {
    GateOpenExactly(gate, t, used, a);
    CallsBehindGate(gate, t, used, a);
    CommitExactly(JobFor(gate, t), a);
  }

  /** A committed write changes no more rows, and no more WAL, than were signed for. */
  lemma SignedCapHolds(gate: Gate, t: Attempt, used: set<string>, a: Answers)
    requires Commit in GrantedCalls(gate, t, used, a)
    ensures a.deltas.Success? && a.walBytes.Success?
    ensures t.grant.binding.cap.maxRows < U64_MAX ==>
            ExactTotal(CountsOf(a.deltas.value)) <= t.grant.binding.cap.maxRows
    ensures a.walBytes.value <= t.grant.binding.cap.maxWalBytes
  {
    CallsBehindGate(gate, t, used, a);
    CommitExactly(JobFor(gate, t), a);
  }

  /** What a committed attempt asked of the connection, in order and nothing else. */
  lemma GrantedTrace(gate: Gate, t: Attempt, used: set<string>, a: Answers) returns (cascades: seq<Relation>)
    requires Commit in GrantedCalls(gate, t, used, a)
    ensures CascadeList(t.dryRun, t.relation, cascades)
    ensures GrantedCalls(gate, t, used, a) ==
            [PkColumn(t.relation)]
            + (Fence(t.live.proposalId, t.stamp, gate.pitr)
               + [Begin(TimeoutFor(t.dryRun.durationMs)), Pause, Forward(t.kind, t.relation, cascades),
                  Deltas, WalBytes, Commit])
  {
    CallsBehindGate(gate, t, used, a);
    cascades := CommitTrace(JobFor(gate, t), a);
  }

  lemma SendsBehind(
    first: Call, rest: seq<Call>, calls: seq<Call>, kind: WriteKind, relation: Relation, dryRun: BlastRadius)
    requires !first.Forward? && calls == [first] + rest && SendsWrite(rest, kind, relation, dryRun)
    ensures SendsWrite(calls, kind, relation, dryRun)
  {
    var c :| c in rest && c.Forward?;
    assert c in calls;
  }

  /** A committed attempt sent the stored statement and no other. */
  lemma GrantedSends(gate: Gate, t: Attempt, used: set<string>, a: Answers)
    requires Commit in GrantedCalls(gate, t, used, a)
    ensures SendsWrite(GrantedCalls(gate, t, used, a), t.kind, t.relation, t.dryRun)
  {
    CallsBehindGate(gate, t, used, a);
    CommitSends(JobFor(gate, t), a);
    SendsBehind(PkColumn(t.relation), ApplyCalls(JobFor(gate, t), a), GrantedCalls(gate, t, used, a),
      t.kind, t.relation, t.dryRun);
  }

  /** What is found behind a first call of another kind. */
  lemma BehindFirst(first: Call, rest: seq<Call>, calls: seq<Call>)
    requires first.PkColumn? && calls == [first] + rest
    ensures forall c :: c in calls <==> c == first || c in rest
    ensures (exists c :: c in calls && c.RestorePoint?) <==> (exists c :: c in rest && c.RestorePoint?)
    ensures (exists c :: c in calls && c.Begin?) <==> (exists c :: c in rest && c.Begin?)
  {
  }

  /** However the connection answers: the key is asked for first; a restore point is asked for
      exactly when the gate is open, the write may start and the setting says so; a transaction
      exactly when the gate is open, the write may start and the restore point was made. */
  lemma GrantedCallsExactly(gate: Gate, t: Attempt, used: set<string>, a: Answers)
    requires ToldApart(gate.hash, LiveBinding(t), t.grant.binding)
    ensures GrantedCalls(gate, t, used, a)[0] == PkColumn(t.relation)
    ensures forall c :: c in GrantedCalls(gate, t, used, a) && c != PkColumn(t.relation) ==>
              CallFits(t.kind, t.relation, t.dryRun, t.live.proposalId, t.stamp, gate.pitr, c)
    ensures var starts := GateOpen(gate, t, used, a)
                          && MayStart(t.live.proposalId, t.relation, t.dryRun, t.grant.binding.cap);
            && ((exists c :: c in GrantedCalls(gate, t, used, a) && c.RestorePoint?) <==> starts && gate.pitr)
            && ((exists c :: c in GrantedCalls(gate, t, used, a) && c.Begin?) <==>
                starts && (gate.pitr ==> a.restorePoint.Success?))
  {
    GateOpenExactly(gate, t, used, a);
    CallsBehindGate(gate, t, used, a);
    BehindFirst(PkColumn(t.relation), CallsAfterGate(GateCheck(gate, t, used, a), JobFor(gate, t), a),
      GrantedCalls(gate, t, used, a));
    CallsExactly(JobFor(gate, t), a);
  }

  /** What a success reports. */
  ghost predicate ReportIs(
    gate: Gate, t: Attempt, a: Answers, cascades: seq<Relation>, r: AppliedWrite)
    requires a.forward.Success?
  {
    && r.proposalId == t.live.proposalId && r.rowsWritten == |a.forward.value.written|
    && r.applyChecksum == Keys(a.forward.value.written) && r.timeoutMs == TimeoutFor(t.dryRun.durationMs)
    && r.inverse == PlanOf(t.kind, t.relation, cascades, a.forward.value)
    && FenceIs(t.live.proposalId, t.stamp, gate.pitr, a, r.fence)
  }

  lemma GrantedReport(gate: Gate, t: Attempt, used: set<string>, a: Answers) returns (cascades: seq<Relation>)
    requires GrantedResult(gate, t, used, a).Success?
    ensures Commit in GrantedCalls(gate, t, used, a) && a.commit.Success? && a.forward.Success?
    ensures CascadeList(t.dryRun, t.relation, cascades)
    ensures ReportIs(gate, t, a, cascades, GrantedResult(gate, t, used, a).value)
  {
    CallsBehindGate(gate, t, used, a);
    cascades := ReportExactly(JobFor(gate, t), a);
    CommitExactly(JobFor(gate, t), a);
  }

  // ------------------------------------------------------------------ refusals

  /** Why a grant does not verify, in the order of the checks. */
  ghost predicate GrantBecause(gate: Gate, t: Attempt, used: set<string>, e: GrantError) {
    var token := t.grant;
    match e
    case MalformedSignature => token.signature.Malformed?
    case BadSignature => !token.signature.Malformed? && !KeySigned(gate, token)
    case BindingMismatch => KeySigned(gate, token) && !SignedAsLive(t)
    case GrantExpired(now, expiry) =>
      && KeySigned(gate, token) && SignedAsLive(t)
      && now == t.now && expiry == token.binding.expiryUnixMillis && now >= expiry
    case ReplayedNonce =>
      && KeySigned(gate, token) && SignedAsLive(t)
      && t.now < token.binding.expiryUnixMillis && token.binding.nonce in used
  }

  /** Why an attempt fails, in the order of the checks. */
  ghost predicate AttemptBecause(gate: Gate, t: Attempt, used: set<string>, a: Answers, e: GrantedError) {
    match e
    case Steerable => Steered(gate, t, a)
    case Inconsistent => !Steered(gate, t, a) && !Consistent(t)
    case GrantRefused(g) => !Steered(gate, t, a) && Consistent(t) && GrantBecause(gate, t, used, g)
    case ApplyFailed(f) =>
      && GateOpen(gate, t, used, a)
      && FailsBecause(t.live.proposalId, t.kind, t.relation, t.dryRun, t.grant.binding.cap, gate.pitr, a, f)
  }

  lemma SameBindings(t: Attempt)
    ensures LiveBinding(t) == t.grant.binding <==> SignedAsLive(t)
  {
  }

  lemma VerifySaysWhy(gate: Gate, t: Attempt, used: set<string>)
    requires ToldApart(gate.hash, LiveBinding(t), t.grant.binding)
    requires Verify(gate.hash, t.grant, LiveBinding(t), gate.key, used, t.now).Some?
    ensures GrantBecause(gate, t, used, Verify(gate.hash, t.grant, LiveBinding(t), gate.key, used, t.now).value)
  {
    SameBindings(t);
    if BindingHash(gate.hash, LiveBinding(t)) == BindingHash(gate.hash, t.grant.binding) {
      EncodeInjective(LiveBinding(t), t.grant.binding);
    }
  }

  /** Every failure is explained by the grant, the stored request, the record and the answers. */
  lemma GrantedFailureSaysWhy(gate: Gate, t: Attempt, used: set<string>, a: Answers)
    requires ToldApart(gate.hash, LiveBinding(t), t.grant.binding) && GrantedResult(gate, t, used, a).Failure?
    ensures AttemptBecause(gate, t, used, a, GrantedResult(gate, t, used, a).error)
  {
    GateOpenExactly(gate, t, used, a);
    if GateCheck(gate, t, used, a).None? {
      FailureSaysWhy(JobFor(gate, t), a);
    } else if !Steered(gate, t, a) && Consistent(t) {
      VerifySaysWhy(gate, t, used);
    }
  }
}
