/** The hypotheses about honest writes can be met: a one-row update, rehearsed and approved,
    satisfies every one of them on a fresh service. */
module HonestExample {
  import opened Prelude
  import opened BlastRadius
  import opened ApplyEngine
  import opened ApplyOutcome
  import opened Grant
  import opened Lifecycle
  import opened HonestRun
  import TriggerExample

  const START := Clock(0, 0, [])

  /** A gate with any hash and key, no restore points, and predicates pinned by their key. */
  function AnyGate(hash: Hasher, key: Key): Gate {
    Gate(hash, key, false, (_, _) => false)
  }

  ghost function OneRowUpdate(rel: Relation, approver: string): Honest {
    Honest([], None, [], [], Update, rel, [], TriggerExample.RecordOf(rel, TriggerExample.ONE_UPDATE),
           WriteCap(U64_MAX, U64_MAX), approver, [], 1,
           TriggerExample.AnswersOf(rel), START, START, START, START, START)
  }

  lemma UpdateMayCommit(rel: Relation)
    ensures var a := TriggerExample.AnswersOf(rel);
            && MayCommit([], Update, rel, TriggerExample.RecordOf(rel, TriggerExample.ONE_UPDATE),
                 WriteCap(U64_MAX, U64_MAX), false, a)
            && a.commit.Success? && UniformKeys(a.forward.value.written)
  {
    var job, a := TriggerExample.JobOf(rel, Update, TriggerExample.ONE_UPDATE), TriggerExample.AnswersOf(rel);
    TriggerExample.AnswersCommit(rel);
    TriggerExample.SetBalanceCaptured(rel);
    CommitOnlyAfterGuards(job, a);
    CommitExactly(job, a);
  }

  lemma RecordKeyed(rel: Relation)
    ensures var b := TriggerExample.RecordOf(rel, TriggerExample.ONE_UPDATE);
            && b.proposalId == [] && rel in b.affected.pkSetChecksum && b.reversible
            && PredictedTotalTuples(b.affected) <= U64_MAX && b.walBytes <= U64_MAX
  {
  }

  lemma SoundOnFresh(gate: Gate, h: Honest)
    requires h.dryRun.proposalId == h.id && h.relation in h.dryRun.affected.pkSetChecksum && h.dryRun.reversible
    requires PredictedTotalTuples(h.dryRun.affected) <= h.cap.maxRows && h.dryRun.walBytes <= h.cap.maxWalBytes
    requires h.answers.pkColumn.None? && h.approverId != h.sessionId
    requires MayCommit(h.id, h.kind, h.relation, h.dryRun, h.cap, gate.pitr, h.answers)
    requires h.answers.commit.Success? && UniformKeys(h.answers.forward.value.written)
    ensures Sound(gate, INITIAL, h) && NextIsFree(INITIAL)
  {
  }

  /** For every hash, key, relation and approver with a name, an honest write exists. */
  lemma HonestWriteExists(hash: Hasher, key: Key, rel: Relation, approver: string) returns (h: Honest)
    requires approver != []
    ensures InTime(h) && Sound(AnyGate(hash, key), INITIAL, h) && NextIsFree(INITIAL)
  {
    h := OneRowUpdate(rel, approver);
    RecordKeyed(rel);
    UpdateMayCommit(rel);
    SoundOnFresh(AnyGate(hash, key), h);
  }
}
