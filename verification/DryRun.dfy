/** The dry run (crates/clone-orchestrator/src/dry_run.rs): refusals in order, one rehearsal,
    then the record. The backend is a script of answers, each asked for at most once. */
module DryRun {
  import opened Prelude
  import opened BlastRadius
  import opened Inverse
  import opened Lifecycle

  datatype Asked = Volatility | ApplyShape | KeyColumn | Steerability | Rehearsed

  /** What the parser and the backend say of a statement. */
  datatype Backend = Backend(
    classified: Result<(WriteKind, Relation), DryRunError>, isVolatile: bool, shapeRefused: bool,
    keyColumn: Option<Column>, isSteerable: bool, measured: Result<Measurement, DryRunError>)

  class Rehearsal {
    const answers: Backend
    var asked: seq<Asked>

    constructor (answers: Backend)
      ensures this.answers == answers && asked == []
    {
      this.answers := answers;
      asked := [];
    }

    method Ask(what: Asked)
      modifies this
      ensures asked == old(asked) + [what]
    {
      asked := asked + [what];
    }
  }

  /** The statement may be rehearsed: certified, deterministic, carried by the apply path, and
      pinned by its key when the key is known. */
  ghost predicate Rehearsable(p: Proposal, clock: Clock, b: Backend) {
    && HasTime(p, clock) && b.classified.Success? && !b.isVolatile && !b.shapeRefused
    && (b.keyColumn.Some? ==> !b.isSteerable)
  }

  /** `dry_run`: the candidate is executed only if every refusal was passed, at most once and
      last, and a record comes out only of a rehearsed, keyed measurement. */
  method RunDry(p: Proposal, rehearsal: Rehearsal, clock: Clock) returns (r: Result<BlastRadius, DryRunError>)
    requires rehearsal.asked == []
    modifies rehearsal
    ensures Rehearsed in rehearsal.asked <==> Rehearsable(p, clock, rehearsal.answers)
    ensures forall i :: 0 <= i < |rehearsal.asked| && rehearsal.asked[i] == Rehearsed ==> i == |rehearsal.asked| - 1
    ensures r.Success? <==> Rehearsable(p, clock, rehearsal.answers)
                            && rehearsal.answers.measured.Success? && Keyed(rehearsal.answers.measured.value)
    ensures r.Success? ==>
              AssembledFrom(r.value, p.id, rehearsal.answers.classified.value.0, rehearsal.answers.measured.value)
    ensures !HasTime(p, clock) ==> r == Failure(Expired) && rehearsal.asked == []
    ensures r.Failure? && HasTime(p, clock) ==>
              var b := rehearsal.answers;
              if b.classified.Failure? then r.error == b.classified.error && rehearsal.asked == []
              else if b.isVolatile then r.error == Volatile
              else if b.shapeRefused then r.error == NotRehearsable
              else if b.keyColumn.Some? && b.isSteerable then r.error == NotSelfDetermined
              else if b.measured.Failure? then r.error == b.measured.error
              else r.error.PkLess?
  {
    ExpiryIsMonotone(p, clock, clock);
    var b := rehearsal.answers;
    if IsExpired(p, clock) {
      return Failure(Expired);
    }
    if b.classified.Failure? {
      return Failure(b.classified.error);
    }
    rehearsal.Ask(Volatility);
    if b.isVolatile {
      return Failure(Volatile);
    }
    rehearsal.Ask(ApplyShape);
    if b.shapeRefused {
      return Failure(NotRehearsable);
    }
    rehearsal.Ask(KeyColumn);
    if b.keyColumn.Some? {
      rehearsal.Ask(Steerability);
      if b.isSteerable {
        return Failure(NotSelfDetermined);
      }
    }
    rehearsal.Ask(Rehearsed);
    assert rehearsal.asked[|rehearsal.asked| - 1] == Rehearsed;
    if b.measured.Failure? {
      return Failure(b.measured.error);
    }
    r := Assemble(p.id, b.classified.value.0, b.measured.value);
  }
}
