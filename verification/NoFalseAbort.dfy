/** Rehearsal and apply agree: a record assembled from a measurement is accepted, and an
    apply that changes exactly what was rehearsed commits. */
module NoFalseAbort {
  import opened Prelude
  import opened BlastRadius
  import opened ApplyGuards
  import opened ApplyEngine

  /** The target is in the measured footprint, or none was measured and one is made up. */
  ghost predicate TargetMeasured(m: Measurement) {
    m.fullEffect == [] || exists i :: 0 <= i < |m.fullEffect| && m.fullEffect[i].relation == m.target.relation
  }

  /** An assembled record authorizes its target exactly when the footprint is empty or
      contains the target. */
  lemma AssembledIsAccepted(b: BlastRadius, proposalId: string, kind: WriteKind, m: Measurement)
    requires Keyed(m) && AssembledFrom(b, proposalId, kind, m)
    ensures Authorizes(b, m.target.relation) <==> TargetMeasured(m)
  {
    var effects, target := Effects(kind, m), m.target.relation;
    if TargetMeasured(m) {
      var i :| 0 <= i < |effects| && effects[i].relation == target;
      EffectRecorded(effects, i);
    }
    if target in b.affected.effectByTable {
      OnlyEffectsRecorded(effects, target);
    }
  }

  // ------------------------------------------------------------------ totals over a map

  function TotalAt(m: map<Relation, OpCounts>, keys: seq<Relation>): nat
    requires forall k :: k in keys ==> k in m
  {
    if keys == [] then 0
    else var c := m[keys[|keys| - 1]]; TotalAt(m, keys[..|keys| - 1]) + c.ins + c.upd + c.del
  }

  lemma {:induction false} TotalIsAt(m: map<Relation, OpCounts>, keys: seq<Relation>, counts: seq<OpCounts>)
    requires |counts| == |keys| && forall i :: 0 <= i < |keys| ==> keys[i] in m && m[keys[i]] == counts[i]
    ensures forall k :: k in keys ==> k in m
    ensures ExactTotal(counts) == TotalAt(m, keys)
  {
    if keys != [] {
      TotalIsAt(m, keys[..|keys| - 1], counts[..|counts| - 1]);
    }
  }

  /** Taking one key out takes its tuples out. */
  lemma {:induction false} TotalWithout(m: map<Relation, OpCounts>, keys: seq<Relation>, p: nat)
    requires p < |keys| && forall k :: k in keys ==> k in m
    ensures var c := m[keys[p]];
            TotalAt(m, keys) == TotalAt(m, keys[..p] + keys[p + 1..]) + c.ins + c.upd + c.del
  {
    var n := |keys| - 1;
    if p == n {
      assert keys[..p] + keys[p + 1..] == keys[..n];
    } else {
      TotalWithout(m, keys[..n], p);
      var without := keys[..p] + keys[p + 1..];
      assert without[..|without| - 1] == keys[..n][..p] + keys[..n][p + 1..];
      assert without[|without| - 1] == keys[n];
    }
  }

  /** Fewer distinct keys hold no more tuples. */
  lemma {:induction false} FewerKeysHoldLess(m: map<Relation, OpCounts>, few: seq<Relation>, many: seq<Relation>)
    requires Unrepeated(few) && Unrepeated(many)
    requires (forall k :: k in few ==> k in many) && (forall k :: k in many ==> k in m)
    ensures TotalAt(m, few) <= TotalAt(m, many)
    decreases |few|
  {
    if few != [] {
      var init, last := few[..|few| - 1], few[|few| - 1];
      assert last in many;
      var p :| 0 <= p < |many| && many[p] == last;
      var rest := many[..p] + many[p + 1..];
      TotalWithout(m, many, p);
      forall k | k in init ensures k in rest {
        assert k in few;
        StillThere(many, p, k);
      }
      FewerKeysHoldLess(m, init, rest);
    }
  }

  /** Taking one place out of a list keeps every other name. */
  lemma StillThere(many: seq<Relation>, p: nat, k: Relation)
    requires p < |many| && k in many && k != many[p]
    ensures k in many[..p] + many[p + 1..]
  {
    var q :| 0 <= q < |many| && many[q] == k;
    var rest := many[..p] + many[p + 1..];
    assert if q < p then rest[q] == k else rest[q - 1] == k;
  }

  function Relations(deltas: seq<RelationChange>): (r: seq<Relation>)
    ensures |r| == |deltas| && forall i :: 0 <= i < |r| ==> r[i] == deltas[i].relation
  {
    if deltas == [] then [] else Relations(deltas[..|deltas| - 1]) + [deltas[|deltas| - 1].relation]
  }

  /** The live deltas list recorded relations, once each, with the recorded counts. */
  ghost predicate AsRecorded(b: BlastRadius, deltas: seq<RelationChange>) {
    && Unrepeated(Relations(deltas))
    && forall i :: 0 <= i < |deltas| ==>
        deltas[i].relation in b.affected.effectByTable
          && b.affected.effectByTable[deltas[i].relation] == deltas[i].counts
  }

  /** Deltas as recorded fit every cap that admits the record. */
  lemma RecordedRowsFit(b: BlastRadius, deltas: seq<RelationChange>, maxRows: U64)
    requires AsRecorded(b, deltas) && PredictedTotalTuples(b.affected) <= maxRows
    ensures RowsFit(deltas, maxRows)
  {
    DeltasWithin(b, deltas);
    MeasuredWithinPrediction(b.affected);
    FoldedTotalIsExact(Values(b.affected.effectByTable));
  }

  lemma ValuesTotal(m: map<Relation, OpCounts>)
    ensures ExactTotal(Values(m)) == TotalAt(m, SortedKeys(m.Keys))
  {
    TotalIsAt(m, SortedKeys(m.Keys), Values(m));
  }

  lemma DeltasWithin(b: BlastRadius, deltas: seq<RelationChange>)
    requires AsRecorded(b, deltas)
    ensures ExactTotal(CountsOf(deltas)) <= ExactTotal(Values(b.affected.effectByTable))
  {
    ValuesTotal(b.affected.effectByTable);
    RecordedCountLess(b.affected.effectByTable, deltas, Relations(deltas), CountsOf(deltas));
  }

  lemma RecordedCountLess(
    m: map<Relation, OpCounts>, deltas: seq<RelationChange>, few: seq<Relation>, counts: seq<OpCounts>)
    requires Unrepeated(few) && |few| == |counts| == |deltas|
    requires forall i :: 0 <= i < |deltas| ==> few[i] == deltas[i].relation && counts[i] == deltas[i].counts
    requires forall i :: 0 <= i < |deltas| ==> deltas[i].relation in m && m[deltas[i].relation] == deltas[i].counts
    ensures ExactTotal(counts) <= TotalAt(m, SortedKeys(m.Keys))
  {
    FewerCountLess(m, few, counts, SortedKeys(m.Keys));
  }

  lemma MeasuredWithinPrediction(affected: Affected)
    ensures FoldedTotal(Values(affected.effectByTable)) <= PredictedTotalTuples(affected)
  {
  }

  lemma FewerCountLess(m: map<Relation, OpCounts>, few: seq<Relation>, counts: seq<OpCounts>, many: seq<Relation>)
    requires Unrepeated(few) && Unrepeated(many) && |counts| == |few|
    requires forall i :: 0 <= i < |few| ==> few[i] in m && m[few[i]] == counts[i]
    requires forall k :: k in many <==> k in m
    ensures ExactTotal(counts) <= TotalAt(m, many)
  {
    TotalIsAt(m, few, counts);
    FewerKeysHoldLess(m, few, many);
  }

  /** The record is assembled from `m` for this job, and the cap admits it. */
  ghost predicate Rehearsed(job: Job, m: Measurement) {
    && Keyed(m) && AssembledFrom(job.dryRun, job.proposalId, job.kind, m) && TargetMeasured(m)
    && job.relation == m.target.relation
    && PredictedTotalTuples(job.dryRun.affected) <= job.cap.maxRows && m.walBytes <= job.cap.maxWalBytes
  }

  /** Every call before the commit answers, the deltas are the record's and fit the cap, and the
      captures are complete. */
  ghost predicate Faithful(job: Job, a: Answers) {
    && a.restorePoint.Success? && a.begin.Success?
    && a.forward.Success? && a.deltas.Success? && a.walBytes.Success?
    && AsRecorded(job.dryRun, a.deltas.value) && a.walBytes.value <= job.cap.maxWalBytes
    && (forall i :: 0 <= i < |a.deltas.value| ==> RowsCovered(job.relation, a.forward.value, a.deltas.value[i]))
    && ColumnsCovered(job.kind, a.forward.value)
  }

  lemma RehearsedIsAdmissible(job: Job, m: Measurement)
    requires Rehearsed(job, m)
    ensures Admissible(job)
  {
    AssembledIsAccepted(job.dryRun, job.proposalId, job.kind, m);
  }

  lemma RecordedIsForeseen(job: Job, predicted: Predicted, deltas: seq<RelationChange>)
    requires AsRecorded(job.dryRun, deltas) && predicted.effectByTable == job.dryRun.affected.effectByTable
    ensures forall i :: 0 <= i < |deltas| ==> Foreseen(predicted, job.relation, job.kind, deltas[i])
  {
  }

  /** No false abort: an assembled record is accepted, and if the apply changes exactly what was
      rehearsed, with complete captures and a cap that admits the record, it is committed. */
  lemma RehearsedCommits(job: Job, m: Measurement, a: Answers)
    requires Rehearsed(job, m) && Faithful(job, a)
    ensures Commits(job, a)
  {
    RehearsedIsAdmissible(job, m);
    PrecheckExact(job);
    FromGrantExact(job.dryRun, job.relation);
    RecordedRowsFit(job.dryRun, a.deltas.value, job.cap.maxRows);
    RecordedIsForeseen(job, Precheck(job).value, a.deltas.value);
  }

  /** And if the commit goes through and the written keys have one width, it reports success. */
  lemma RehearsedApplyCommits(job: Job, m: Measurement, a: Answers)
    requires Rehearsed(job, m) && Faithful(job, a)
    requires a.commit.Success? && UniformKeys(a.forward.value.written)
    ensures Commits(job, a) && ApplyResult(job, a).Success?
  {
    RehearsedCommits(job, m, a);
    ResultMatchesCommit(job, a);
  }
}
