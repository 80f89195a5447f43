/** Runs of the service over the PostgreSQL connection, whose keys are single integers: what
    happens at most once and what is accounted for then needs no assumption about keys. */
module PgRuns {
  import opened BlastRadius
  import opened ApplyEngine
  import opened PgTable
  import opened ApplyRevert
  import opened Grant
  import opened Lifecycle
  import opened Runs

  /** The forward step was answered by the PostgreSQL connection, on some table. */
  ghost predicate PgAnswered(a: Answers) {
    exists rel: Relation, types: Types, t: Table, stmt: Statement, returned: seq<int> ::
      a.forward == PgForward(rel, types, t, stmt, returned)
  }

  /** Every apply of the run was served by the PostgreSQL connection. */
  ghost predicate OverPg(inputs: seq<Input>) {
    forall i :: 0 <= i < |inputs| && inputs[i].call.Apply? ==> PgAnswered(inputs[i].call.confirmation.answers)
  }

  lemma PgKeysUniformAt(gate: Gate, inputs: seq<Input>, i: nat)
    requires OverPg(inputs) && AtGate(gate, inputs, i)
    ensures KeysUniformAt(gate, inputs, i)
  {
    var a := inputs[i].call.confirmation.answers;
    assert PgAnswered(a);
    var rel: Relation, types: Types, t: Table, stmt: Statement, returned: seq<int> :|
      a.forward == PgForward(rel, types, t, stmt, returned);
    if a.forward.Success? {
      PgKeysUniform(rel, types, t, stmt, returned);
    }
  }

  /** Over the PostgreSQL connection, a committed proposal record never commits again. */
  lemma PgOneCommitPerRecord(gate: Gate, inputs: seq<Input>, i: nat, k: nat)
    requires OverPg(inputs) && CommitsAt(gate, inputs, i) && CommitsAt(gate, inputs, k)
    requires SerialAt(gate, inputs, i) == SerialAt(gate, inputs, k)
    ensures i == k
  {
    PgKeysUniformAt(gate, inputs, i);
    PgKeysUniformAt(gate, inputs, k);
    OneCommitPerRecord(gate, inputs, i, k);
  }

  /** Over the PostgreSQL connection, the commits sent are the committed records, plus the
      confirmed commits answered with an audit failure, plus the commits not confirmed. */
  lemma PgEveryCommitIsAccounted(gate: Gate, inputs: seq<Input>)
    requires OverPg(inputs)
    ensures SentCount(gate, inputs, |inputs|) ==
            CommitRecords(StateAfter(gate, inputs)) + UnrecordedCommits(gate, inputs)
            + UnconfirmedCount(gate, inputs, |inputs|)
  {
    forall i | 0 <= i < |inputs| && AtGate(gate, inputs, i) ensures KeysUniformAt(gate, inputs, i) {
      PgKeysUniformAt(gate, inputs, i);
    }
    EveryCommitIsAccounted(gate, inputs);
  }
}
