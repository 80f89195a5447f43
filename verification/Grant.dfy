/** The signed grant (crates/policy/src/grant.rs) and the grant-gated apply
    (crates/clone-orchestrator/src/apply_grant.rs). */
module Grant {
  import opened Prelude
  import opened BlastRadius
  import opened Inverse
  import opened ApplyGuards
  import opened ApplyEngine

  /** Everything an approval commits to. */
  datatype GrantBinding = GrantBinding(
    statementText: string, normalizedParams: seq<string>, role: string, sessionId: string,
    proposalId: string, dryRunLsn: string, cap: WriteCap, nonce: string, expiryUnixMillis: U64)

  // ------------------------------------------------------------------ the hashed encoding

  type Digest = seq<int>

  /** SHA-256 over a byte string. */
  type Hasher = seq<int> -> Digest

  function BeBytes(n: nat, width: nat): (r: seq<int>)
    ensures |r| == width
  {
    if width == 0 then [] else BeBytes(n / 256, width - 1) + [n % 256]
  }

  function Pow256(k: nat): nat {
    if k == 0 then 1 else 256 * Pow256(k - 1)
  }

  /** The number bytes stand for, the most significant first. */
  function FromBe(bytes: seq<int>): int {
    if bytes == [] then 0 else 256 * FromBe(bytes[..|bytes| - 1]) + bytes[|bytes| - 1]
  }

  lemma {:induction false} BeBytesRoundTrip(n: nat, width: nat)
    requires n < Pow256(width)
    ensures FromBe(BeBytes(n, width)) == n
  {
    if width > 0 {
      BeBytesRoundTrip(n / 256, width - 1);
      assert BeBytes(n, width)[..width - 1] == BeBytes(n / 256, width - 1);
    }
  }

  function Be64(n: U64): (r: seq<int>)
    ensures |r| == 8
  {
    BeBytes(n, 8)
  }

  /** Eight bytes hold a 64-bit number, the most significant first. */
  lemma Be64RoundTrip(n: U64)
    ensures FromBe(Be64(n)) == n
  {
    assert Pow256(8) == U64_MAX + 1 by {
      assert Pow256(4) == 0x1_0000_0000;
    }
    BeBytesRoundTrip(n, 8);
  }

  lemma Be64Injective(m: U64, n: U64)
    requires Be64(m) == Be64(n)
    ensures m == n
  {
    Be64RoundTrip(m);
    Be64RoundTrip(n);
  }

  /** A text's bytes; any injective character encoding would do. */
  function Units(s: string): (r: seq<int>)
    ensures |r| == |s| && forall i :: 0 <= i < |r| ==> r[i] == s[i] as int
  {
    if s == [] then [] else Units(s[..|s| - 1]) + [s[|s| - 1] as int]
  }

  /** A length that fits its 64-bit prefix. */
  ghost predicate Short<T>(s: seq<T>) {
    |s| <= U64_MAX
  }

  /** `absorb_str`: the length, then the bytes. */
  function AbsorbStr(s: string): seq<int> {
    Be64(Wrap(|s|)) + Units(s)
  }

  function AbsorbAll(params: seq<string>): seq<int> {
    if params == [] then [] else AbsorbStr(params[0]) + AbsorbAll(params[1..])
  }

  const BINDING_DOMAIN: string := "pg_brakes.grant.binding.v2"

  /** What `binding_hash` feeds the hash, field after field, right to left. */
  function Encode(b: GrantBinding): seq<int> {
    Units(BINDING_DOMAIN) + (AbsorbStr(b.statementText)
    + (Be64(Wrap(|b.normalizedParams|)) + (AbsorbAll(b.normalizedParams) + EncodeRequest(b))))
  }

  function EncodeRequest(b: GrantBinding): seq<int> {
    AbsorbStr(b.role)
    + (AbsorbStr(b.sessionId) + (AbsorbStr(b.proposalId) + (AbsorbStr(b.dryRunLsn) + EncodeLimits(b))))
  }

  function EncodeLimits(b: GrantBinding): seq<int> {
    Be64(b.cap.maxRows) + (Be64(b.cap.maxWalBytes) + (AbsorbStr(b.nonce) + Be64(b.expiryUnixMillis)))
  }

  /** What is hashed starts with the domain, which keeps grants apart from anything else signed. */
  lemma EncodeNamesDomain(b: GrantBinding)
    ensures |Encode(b)| >= 26 && Encode(b)[..26] == Units("pg_brakes.grant.binding.v2")
  {
  }

  ghost predicate Encodable(b: GrantBinding) {
    && Short(b.statementText) && Short(b.normalizedParams) && Short(b.role) && Short(b.sessionId)
    && Short(b.proposalId) && Short(b.dryRunLsn) && Short(b.nonce)
    && forall i :: 0 <= i < |b.normalizedParams| ==> Short(b.normalizedParams[i])
  }

  lemma SplitAt(a: seq<int>, b: seq<int>, x: seq<int>, y: seq<int>)
    requires a + x == b + y && |a| == |b|
    ensures a == b && x == y
  {
    assert a == (a + x)[..|a|] && b == (b + y)[..|b|];
    assert x == (a + x)[|a|..] && y == (b + y)[|b|..];
  }

  lemma SplitNumber(m: U64, n: U64, x: seq<int>, y: seq<int>)
    requires Be64(m) + x == Be64(n) + y
    ensures m == n && x == y
  {
    SplitAt(Be64(m), Be64(n), x, y);
    Be64Injective(m, n);
  }

  /** A length-prefixed text can be read off the front in one way only. */
  lemma SplitText(s: string, t: string, x: seq<int>, y: seq<int>)
    requires Short(s) && Short(t) && AbsorbStr(s) + x == AbsorbStr(t) + y
    ensures s == t && x == y
  {
    assert AbsorbStr(s) + x == Be64(|s|) + (Units(s) + x);
    assert AbsorbStr(t) + y == Be64(|t|) + (Units(t) + y);
    SplitNumber(|s|, |t|, Units(s) + x, Units(t) + y);
    SplitAt(Units(s), Units(t), x, y);
    forall i | 0 <= i < |s| ensures s[i] == t[i] {
      assert Units(s)[i] == Units(t)[i];
    }
  }

  lemma FirstParam(p: seq<string>, x: seq<int>)
    requires p != []
    ensures AbsorbAll(p) + x == AbsorbStr(p[0]) + (AbsorbAll(p[1..]) + x)
  {
  }

  lemma {:induction false} SplitParams(p: seq<string>, q: seq<string>, x: seq<int>, y: seq<int>)
    requires |p| == |q| && AbsorbAll(p) + x == AbsorbAll(q) + y
    requires forall i :: 0 <= i < |p| ==> Short(p[i]) && Short(q[i])
    ensures p == q && x == y
    decreases |p|
  {
    if p == [] {
      assert AbsorbAll(p) + x == x && AbsorbAll(q) + y == y;
    } else {
      FirstParam(p, x);
      FirstParam(q, y);
      SplitText(p[0], q[0], AbsorbAll(p[1..]) + x, AbsorbAll(q[1..]) + y);
      SplitParams(p[1..], q[1..], x, y);
      assert p == [p[0]] + p[1..] && q == [q[0]] + q[1..];
    }
  }

  lemma EncodeLimitsInjective(a: GrantBinding, b: GrantBinding)
    requires Short(a.nonce) && Short(b.nonce) && EncodeLimits(a) == EncodeLimits(b)
    ensures a.cap == b.cap && a.nonce == b.nonce && a.expiryUnixMillis == b.expiryUnixMillis
  {
    SplitNumber(a.cap.maxRows, b.cap.maxRows,
      Be64(a.cap.maxWalBytes) + (AbsorbStr(a.nonce) + Be64(a.expiryUnixMillis)),
      Be64(b.cap.maxWalBytes) + (AbsorbStr(b.nonce) + Be64(b.expiryUnixMillis)));
    SplitNumber(a.cap.maxWalBytes, b.cap.maxWalBytes,
      AbsorbStr(a.nonce) + Be64(a.expiryUnixMillis), AbsorbStr(b.nonce) + Be64(b.expiryUnixMillis));
    SplitText(a.nonce, b.nonce, Be64(a.expiryUnixMillis), Be64(b.expiryUnixMillis));
    Be64Injective(a.expiryUnixMillis, b.expiryUnixMillis);
  }

  lemma EncodeRequestInjective(a: GrantBinding, b: GrantBinding)
    requires Encodable(a) && Encodable(b) && EncodeRequest(a) == EncodeRequest(b)
    ensures a.role == b.role && a.sessionId == b.sessionId && a.proposalId == b.proposalId && a.dryRunLsn == b.dryRunLsn
    ensures a.cap == b.cap && a.nonce == b.nonce && a.expiryUnixMillis == b.expiryUnixMillis
  {
    SplitText(a.role, b.role,
      AbsorbStr(a.sessionId) + (AbsorbStr(a.proposalId) + (AbsorbStr(a.dryRunLsn) + EncodeLimits(a))),
      AbsorbStr(b.sessionId) + (AbsorbStr(b.proposalId) + (AbsorbStr(b.dryRunLsn) + EncodeLimits(b))));
    SplitText(a.sessionId, b.sessionId,
      AbsorbStr(a.proposalId) + (AbsorbStr(a.dryRunLsn) + EncodeLimits(a)),
      AbsorbStr(b.proposalId) + (AbsorbStr(b.dryRunLsn) + EncodeLimits(b)));
    SplitText(a.proposalId, b.proposalId,
      AbsorbStr(a.dryRunLsn) + EncodeLimits(a), AbsorbStr(b.dryRunLsn) + EncodeLimits(b));
    SplitText(a.dryRunLsn, b.dryRunLsn, EncodeLimits(a), EncodeLimits(b));
    EncodeLimitsInjective(a, b);
  }

  /** Field boundaries are unambiguous: bindings with the same encoding are the same. */
  lemma EncodeInjective(a: GrantBinding, b: GrantBinding)
    requires Encodable(a) && Encodable(b) && Encode(a) == Encode(b)
    ensures a == b
  {
    var d := Units(BINDING_DOMAIN);
    var pa, pb := AbsorbAll(a.normalizedParams) + EncodeRequest(a), AbsorbAll(b.normalizedParams) + EncodeRequest(b);
    var na, nb := Be64(|a.normalizedParams|) + pa, Be64(|b.normalizedParams|) + pb;
    assert Encode(a) == d + (AbsorbStr(a.statementText) + na);
    assert Encode(b) == d + (AbsorbStr(b.statementText) + nb);
    SplitAt(d, d, AbsorbStr(a.statementText) + na, AbsorbStr(b.statementText) + nb);
    SplitText(a.statementText, b.statementText, na, nb);
    SplitNumber(|a.normalizedParams|, |b.normalizedParams|, pa, pb);
    SplitParams(a.normalizedParams, b.normalizedParams, EncodeRequest(a), EncodeRequest(b));
    EncodeRequestInjective(a, b);
  }

  // ------------------------------------------------------------------ signing and verifying

  type Key = string

  /** A signature as the verifier sees it: not one at all, or made by the holder of a key over
      a digest. Ed25519's unforgeability is what makes this all there is to know. */
  datatype Signature = Malformed | Signature(key: Key, digest: Digest)

  datatype GrantToken = GrantToken(binding: GrantBinding, signature: Signature)

  datatype GrantError =
    | MalformedSignature
    | BadSignature
    | BindingMismatch
    | GrantExpired(now: U64, expiry: U64)
    | ReplayedNonce

  function BindingHash(hash: Hasher, b: GrantBinding): Digest {
    hash(Encode(b))
  }

  function Sign(hash: Hasher, b: GrantBinding, key: Key): GrantToken {
    GrantToken(b, Signature(key, BindingHash(hash, b)))
  }

  function Verify(hash: Hasher, token: GrantToken, live: GrantBinding, key: Key, used: set<string>, now: U64)
    : Option<GrantError>
  {
    if token.signature.Malformed? then Some(MalformedSignature)
    else if token.signature != Signature(key, BindingHash(hash, token.binding)) then Some(BadSignature)
    else if BindingHash(hash, live) != BindingHash(hash, token.binding) then Some(BindingMismatch)
    else if now >= token.binding.expiryUnixMillis then Some(GrantExpired(now, token.binding.expiryUnixMillis))
    else if token.binding.nonce in used then Some(ReplayedNonce)
    else None
  }

  /** The two bindings in play fit their length prefixes, and the hash tells their encodings
      apart if they differ. */
  ghost predicate ToldApart(hash: Hasher, a: GrantBinding, b: GrantBinding) {
    Encodable(a) && Encodable(b) && (hash(Encode(a)) == hash(Encode(b)) ==> Encode(a) == Encode(b))
  }

  /** A grant verifies exactly when the configured key signed it, the live request is field
      by field what was signed, it has not expired and its nonce is unused. */
  lemma VerifyExact(hash: Hasher, token: GrantToken, live: GrantBinding, key: Key, used: set<string>, now: U64)
    requires ToldApart(hash, live, token.binding)
    ensures Verify(hash, token, live, key, used, now).None? <==>
            && token == Sign(hash, token.binding, key) && live == token.binding
            && now < token.binding.expiryUnixMillis && token.binding.nonce !in used
  {
    if BindingHash(hash, live) == BindingHash(hash, token.binding) {
      EncodeInjective(live, token.binding);
    }
  }

  class NonceStore {
    var used: set<string>

    constructor ()
      ensures used == {}
    {
      used := {};
    }

    method Consume(nonce: string) returns (unused: bool)
      modifies this
      ensures unused == (nonce !in old(used)) && used == old(used) + {nonce}
    {
      unused := nonce !in used;
      used := used + {nonce};
    }
  }

  /** `verify_for_apply`: the nonce is consumed last, so only a grant that verifies uses it. */
  method VerifyForApply(hash: Hasher, token: GrantToken, live: GrantBinding, key: Key, nonces: NonceStore, now: U64)
    returns (failure: Option<GrantError>)
    modifies nonces
    ensures failure == Verify(hash, token, live, key, old(nonces.used), now)
    ensures nonces.used == if failure.None? then old(nonces.used) + {token.binding.nonce} else old(nonces.used)
  {
    if token.signature.Malformed? {
      return Some(MalformedSignature);
    }
    if token.signature != Signature(key, BindingHash(hash, token.binding)) {
      return Some(BadSignature);
    }
    if BindingHash(hash, live) != BindingHash(hash, token.binding) {
      return Some(BindingMismatch);
    }
    if now >= token.binding.expiryUnixMillis {
      return Some(GrantExpired(now, token.binding.expiryUnixMillis));
    }
    var unused := nonces.Consume(token.binding.nonce);
    if !unused {
      assert nonces.used == old(nonces.used);
      return Some(ReplayedNonce);
    }
    return None;
  }

  // ------------------------------------------------------------------ the grant-gated apply

  datatype LiveRequest = LiveRequest(
    statementText: string, normalizedParams: seq<string>, role: string, sessionId: string, proposalId: string)

  /** What the gate is configured with: the hash, the approver's key, the recovery setting, and
      whether a statement's predicate depends on more than the given key column. */
  datatype Gate = Gate(hash: Hasher, key: Key, pitr: bool, steerable: (string, Column) -> bool)

  datatype GrantedError =
    | Steerable
    | Inconsistent
    | GrantRefused(grant: GrantError)
    | ApplyFailed(apply: ApplyError)

  /** One apply attempt: the grant, the stored request, the write, its record, the clock. */
  datatype Attempt = Attempt(
    grant: GrantToken, live: LiveRequest, kind: WriteKind, relation: Relation, dryRun: BlastRadius,
    now: U64, stamp: string)

  /** The binding as the live request has it; cap, nonce and expiry are the grant's own. */
  function LiveBinding(t: Attempt): GrantBinding {
    GrantBinding(t.live.statementText, t.live.normalizedParams, t.live.role, t.live.sessionId, t.live.proposalId,
      t.dryRun.cloneLsn, t.grant.binding.cap, t.grant.binding.nonce, t.grant.binding.expiryUnixMillis)
  }

  function GateCheck(gate: Gate, t: Attempt, used: set<string>, a: Answers): Option<GrantedError> {
    if a.pkColumn.Some? && gate.steerable(t.live.statementText, a.pkColumn.value) then Some(Steerable)
    else if t.dryRun.proposalId != t.live.proposalId then Some(Inconsistent)
    else if t.relation !in t.dryRun.affected.pkSetChecksum then Some(Inconsistent)
    else if t.grant.binding.cap.maxRows < PredictedTotalTuples(t.dryRun.affected) then Some(Inconsistent)
    else if t.grant.binding.cap.maxWalBytes < t.dryRun.walBytes then Some(Inconsistent)
    else match Verify(gate.hash, t.grant, LiveBinding(t), gate.key, used, t.now)
      case Some(e) => Some(GrantRefused(e))
      case None => None
  }

  function JobFor(gate: Gate, t: Attempt): Job {
    Job(t.live.proposalId, t.kind, t.relation, t.dryRun, t.grant.binding.cap, gate.pitr, t.stamp)
  }

  /** The result and the calls once the gate has answered. */
  function ResultAfterGate(refused: Option<GrantedError>, job: Job, a: Answers): Result<AppliedWrite, GrantedError> {
    if refused.Some? then Failure(refused.value)
    else if ApplyResult(job, a).Failure? then Failure(ApplyFailed(ApplyResult(job, a).error))
    else Success(ApplyResult(job, a).value)
  }

  function CallsAfterGate(refused: Option<GrantedError>, job: Job, a: Answers): seq<Call> {
    if refused.Some? then [] else ApplyCalls(job, a)
  }

  function GrantedResult(gate: Gate, t: Attempt, used: set<string>, a: Answers): Result<AppliedWrite, GrantedError> {
    ResultAfterGate(GateCheck(gate, t, used, a), JobFor(gate, t), a)
  }

  function GrantedCalls(gate: Gate, t: Attempt, used: set<string>, a: Answers): seq<Call> {
    [PkColumn(t.relation)] + CallsAfterGate(GateCheck(gate, t, used, a), JobFor(gate, t), a)
  }

  function NoncesAfter(gate: Gate, t: Attempt, used: set<string>, a: Answers): set<string> {
    if GateCheck(gate, t, used, a).Some? then used else used + {t.grant.binding.nonce}
  }

  /** Everything `guarded_apply_with_grant` checks before it reaches the guarded apply. */
  method PassGate(gate: Gate, t: Attempt, nonces: NonceStore, conn: ApplyConn) returns (failure: Option<GrantedError>)
    modifies nonces, conn
    ensures failure == GateCheck(gate, t, old(nonces.used), conn.answers)
    ensures conn.calls == old(conn.calls) + [PkColumn(t.relation)]
    ensures nonces.used == NoncesAfter(gate, t, old(nonces.used), conn.answers)
  {
    var pkColumn := conn.SelfDeterminedPkColumn(t.relation);
    if pkColumn.Some? && gate.steerable(t.live.statementText, pkColumn.value) {
      return Some(Steerable);
    }
    if t.dryRun.proposalId != t.live.proposalId {
      return Some(Inconsistent);
    }
    if t.relation !in t.dryRun.affected.pkSetChecksum {
      return Some(Inconsistent);
    }
    var cap := t.grant.binding.cap;
    if cap.maxRows < PredictedTotalTuples(t.dryRun.affected) {
      return Some(Inconsistent);
    }
    if cap.maxWalBytes < t.dryRun.walBytes {
      return Some(Inconsistent);
    }
    var refused := VerifyForApply(gate.hash, t.grant, LiveBinding(t), gate.key, nonces, t.now);
    if refused.Some? {
      return Some(GrantRefused(refused.value));
    }
    return None;
  }

  /** `guarded_apply_with_grant`. */
  method GuardedApplyWithGrant(gate: Gate, t: Attempt, nonces: NonceStore, conn: ApplyConn)
    returns (r: Result<AppliedWrite, GrantedError>)
    modifies nonces, conn
    ensures r == GrantedResult(gate, t, old(nonces.used), conn.answers)
    ensures old(conn.calls) == [] ==> conn.calls == GrantedCalls(gate, t, old(nonces.used), conn.answers)
    ensures nonces.used == NoncesAfter(gate, t, old(nonces.used), conn.answers)
  {
    var refused := PassGate(gate, t, nonces, conn);
    r := ApplyAfterGate(refused, JobFor(gate, t), conn);
  }

  method ApplyAfterGate(refused: Option<GrantedError>, job: Job, conn: ApplyConn)
    returns (r: Result<AppliedWrite, GrantedError>)
    modifies conn
    ensures r == ResultAfterGate(refused, job, conn.answers)
    ensures conn.calls == old(conn.calls) + CallsAfterGate(refused, job, conn.answers)
  {
    if refused.Some? {
      return Failure(refused.value);
    }
    var applied := GuardedApply(job, conn);
    if applied.Failure? {
      return Failure(ApplyFailed(applied.error));
    }
    return Success(applied.value);
  }

  /** What the approver signed is what is about to run. */
  ghost predicate SignedAsLive(t: Attempt) {
    var b := t.grant.binding;
    && b.statementText == t.live.statementText && b.normalizedParams == t.live.normalizedParams
    && b.role == t.live.role && b.sessionId == t.live.sessionId && b.proposalId == t.live.proposalId
    && b.dryRunLsn == t.dryRun.cloneLsn
  }

  /** The transaction step is reached only by a grant the configured key signed over exactly
      the stored statement, parameters, role, session, proposal and rehearsal position, not
      expired, with a nonce not used before, and a cap that admits the rehearsed write. */
  lemma GateExact(gate: Gate, t: Attempt, used: set<string>, a: Answers)
    requires ToldApart(gate.hash, LiveBinding(t), t.grant.binding)
    ensures GateCheck(gate, t, used, a).None? <==>
            && (a.pkColumn.Some? ==> !gate.steerable(t.live.statementText, a.pkColumn.value))
            && t.dryRun.proposalId == t.live.proposalId && t.relation in t.dryRun.affected.pkSetChecksum
            && PredictedTotalTuples(t.dryRun.affected) <= t.grant.binding.cap.maxRows
            && t.dryRun.walBytes <= t.grant.binding.cap.maxWalBytes
            && t.grant == Sign(gate.hash, t.grant.binding, gate.key) && SignedAsLive(t)
            && t.now < t.grant.binding.expiryUnixMillis && t.grant.binding.nonce !in used
  {
    VerifyExact(gate.hash, t.grant, LiveBinding(t), gate.key, used, t.now);
  }

  ghost predicate OpensNothing(calls: seq<Call>) {
    forall i :: 0 <= i < |calls| ==> !calls[i].RestorePoint? && !calls[i].Begin? && calls[i] != Commit
  }

  /** A refusal by grant, cap or certification opens neither a restore point nor a
      transaction, and a refusal before the grant verified leaves every nonce unused. */
  lemma RefusalOpensNothing(gate: Gate, t: Attempt, used: set<string>, a: Answers)
    ensures GateCheck(gate, t, used, a).Some? ==>
            OpensNothing(GrantedCalls(gate, t, used, a)) && NoncesAfter(gate, t, used, a) == used
    ensures !Admissible(JobFor(gate, t)) ==> OpensNothing(GrantedCalls(gate, t, used, a))
  {
    var refused, job := GateCheck(gate, t, used, a), JobFor(gate, t);
    if refused.Some? || !Admissible(job) {
      RefusedCalls(refused, t.relation, job, a);
    }
  }

  lemma RefusedCalls(refused: Option<GrantedError>, relation: Relation, job: Job, a: Answers)
    requires refused.Some? || !Admissible(job)
    ensures OpensNothing([PkColumn(relation)] + CallsAfterGate(refused, job, a))
  {
    if refused.None? {
      RefusedJobCallsNothing(job, a);
    }
    assert [PkColumn(relation)] + CallsAfterGate(refused, job, a) == [PkColumn(relation)];
  }
}
