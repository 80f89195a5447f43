/** A guarded apply on a database, and its revert. The statement hits rows of the target,
    triggers may do anything else, the server counts tuples, the guards decide, and the
    inverse plan is later run on whatever the database has become, under whatever triggers
    its own statements fire. */
module ApplyRevert {
  import opened Prelude
  import opened BlastRadius
  import opened Inverse
  import opened ApplyGuards
  import opened ApplyEngine
  import opened PgTable
  import opened RoundTrip

  // ------------------------------------------------------------------ what the server does

  /** What the statement did: where each row it hit went (`newId`), what was written there after
      any BEFORE trigger (`wrote`), the keys it returned in the server's order, and the row
      changes triggers made besides. */
  datatype Execution = Execution(newId: map<int, int>, wrote: map<int, Row>, returned: seq<int>, side: seq<RowOp>)

  ghost predicate Lists(ids: seq<int>, s: set<int>) {
    Unrepeated(ids) && forall k :: k in ids <==> k in s
  }

  /** The keys hit rows ended up with. */
  ghost function NewIds(newId: map<int, int>): (r: set<int>)
    ensures forall v :: v in r <==> exists k :: k in newId && newId[k] == v
  {
    set k | k in newId :: newId[k]
  }

  ghost predicate Injective(newId: map<int, int>) {
    forall j, k :: j in newId && k in newId && j != k ==> newId[j] != newId[k]
  }

  /** Rows on the move get distinct keys, none held by a row that stays. */
  ghost predicate MovesApart(keys: set<int>, newId: map<int, int>) {
    && Injective(newId)
    && NewIds(newId) * keys <= newId.Keys
  }

  /** Every hit row becomes what was written for it, under the key written, with keys unique; the
      other rows stay. A BEFORE trigger may have skipped matched rows. */
  ghost predicate Updates(t: Table, stmt: Statement, x: Execution, t1: Table) {
    && t1.columns == t.columns
    && x.newId.Keys <= Matched(t, stmt) && x.wrote.Keys == x.newId.Keys
    && MovesApart(t.rows.Keys, x.newId)
    && (forall k :: k in x.newId ==> FitsAt(t, x.wrote[k], x.newId[k]))
    && t1.rows.Keys == (t.rows.Keys - x.newId.Keys) + NewIds(x.newId)
    && (forall k :: k in t.rows && k !in x.newId ==> t1.rows[k] == t.rows[k])
    && (forall k :: k in x.newId ==> t1.rows[x.newId[k]] == x.wrote[k])
  }

  ghost predicate Deletes(t: Table, stmt: Statement, x: Execution, t1: Table) {
    && x.newId.Keys <= Matched(t, stmt)
    && (forall k :: k in x.newId ==> x.newId[k] == k)
    && t1 == t.(rows := t.rows - x.newId.Keys)
  }

  ghost predicate Hits(t: Table, stmt: Statement, x: Execution, t1: Table) {
    && Lists(x.returned, NewIds(x.newId))
    && match stmt.kind
       case Update => Updates(t, stmt, x, t1)
       case Delete => Deletes(t, stmt, x, t1)
  }

  // ------------------------------------------------------------------ trigger writes

  datatype Tally = Tally(ins: nat, upd: nat, del: nat)

  function Plus(a: Tally, b: Tally): Tally {
    Tally(a.ins + b.ins, a.upd + b.upd, a.del + b.del)
  }

  function TallyOf(db: Database, op: RowOp, rel: Relation): Tally {
    if !Effective(db, op) || op.relation != rel then Tally(0, 0, 0)
    else match op
      case InsertRow(_, _, _) => Tally(1, 0, 0)
      case UpdateRow(_, _, _, _) => Tally(0, 1, 0)
      case DeleteRow(_, _) => Tally(0, 0, 1)
  }

  /** How many rows of `rel` the operations inserted, updated and deleted. */
  function TallyAll(db: Database, ops: seq<RowOp>, rel: Relation): Tally {
    if ops == [] then Tally(0, 0, 0)
    else
      var init := ops[..|ops| - 1];
      Plus(TallyAll(db, init, rel), TallyOf(AfterOps(db, init), ops[|ops| - 1], rel))
  }

  /** Every row of `before` is unchanged in `after`. */
  ghost predicate KeepsRows(before: Table, after: Table) {
    forall k :: k in before.rows ==> k in after.rows && after.rows[k] == before.rows[k]
  }

  lemma InsertKeepsRows(db: Database, op: RowOp, rel: Relation)
    requires rel in db && TallyOf(db, op, rel).upd == 0 && TallyOf(db, op, rel).del == 0
    ensures rel in Perform(db, op) && KeepsRows(db[rel], Perform(db, op)[rel])
  {
  }

  /** A relation with no update and no delete counted has lost and changed no row. */
  lemma {:induction false} InsertsKeepRows(db: Database, ops: seq<RowOp>, rel: Relation)
    requires rel in db && TallyAll(db, ops, rel).upd == 0 && TallyAll(db, ops, rel).del == 0
    ensures rel in AfterOps(db, ops) && KeepsRows(db[rel], AfterOps(db, ops)[rel])
  {
    if ops != [] {
      var init := ops[..|ops| - 1];
      InsertsKeepRows(db, init, rel);
      InsertKeepsRows(AfterOps(db, init), ops[|ops| - 1], rel);
    }
  }

  /** Nothing was counted. */
  predicate NoneCounted(tally: Tally) {
    tally.ins == 0 && tally.upd == 0 && tally.del == 0
  }

  /** `rel` is in `after` what it was in `before`. */
  ghost predicate SameAt(before: Database, after: Database, rel: Relation) {
    rel in before && rel in after && after[rel] == before[rel]
  }

  lemma UncountedOpKeeps(before: Database, db: Database, op: RowOp, rel: Relation, earlier: Tally)
    requires SameAt(before, db, rel) && NoneCounted(Plus(earlier, TallyOf(db, op, rel)))
    ensures SameAt(before, Perform(db, op), rel)
  {
  }

  /** A relation with nothing counted is as it was. */
  lemma {:induction false} UncountedOpsKeep(db: Database, ops: seq<RowOp>, rel: Relation)
    requires rel in db && NoneCounted(TallyAll(db, ops, rel))
    ensures SameAt(db, AfterOps(db, ops), rel)
  {
    if ops != [] {
      var init, last := ops[..|ops| - 1], ops[|ops| - 1];
      UncountedOpsKeep(db, init, rel);
      UncountedOpKeeps(db, AfterOps(db, init), last, rel, TallyAll(db, init, rel));
    }
  }

  // ------------------------------------------------------------------ the counters

  /** A statistics counter of the server: a non-negative 64-bit signed integer. */
  type Counter = x: int | 0 <= x <= COUNTER_MAX

  const COUNTER_MAX: int := 0x7FFF_FFFF_FFFF_FFFF

  datatype Counters = Counters(ins: Counter, upd: Counter, del: Counter)

  type Stats = map<Relation, Counters>

  function CountersAt(stats: Stats, rel: Relation): Counters {
    if rel in stats then stats[rel] else Counters(0, 0, 0)
  }

  function Growth(after: Counter, before: Counter): U64 {
    if after < before then 0 else after - before
  }

  function GrowthOf(after: Counters, before: Counters): OpCounts {
    OpCounts(Growth(after.ins, before.ins), Growth(after.upd, before.upd), Growth(after.del, before.del))
  }

  function Delta(after: Stats, baseline: Stats, rel: Relation): OpCounts {
    GrowthOf(CountersAt(after, rel), CountersAt(baseline, rel))
  }

  /** The unchecked 64-bit sum the connection tests for zero. */
  function WrappedSum(counts: OpCounts): U64 {
    Wrap(counts.ins + counts.upd + counts.del)
  }

  function DeltaList(after: Stats, baseline: Stats, keys: seq<Relation>): seq<RelationChange> {
    if keys == [] then []
    else
      var rel := keys[|keys| - 1];
      var counts := Delta(after, baseline, rel);
      DeltaList(after, baseline, keys[..|keys| - 1])
      + (if WrappedSum(counts) == 0 then [] else [RelationChange(rel, counts)])
  }

  function PgDeltas(after: Stats, baseline: Stats): seq<RelationChange> {
    DeltaList(after, baseline, SortedKeys(after.Keys))
  }

  /** `xact_tuple_deltas`: the growth of every counter since `begin`, zero ones left out. The
      source's final sort by name keeps an order the map already yields. */
  method ReadDeltas(after: Stats, baseline: Stats) returns (out: seq<RelationChange>)
    ensures out == PgDeltas(after, baseline)
    ensures ListedInOrder(out)
  {
    DeltasInOrder(after, baseline, SortedKeys(after.Keys));
    out := ListDeltas(after, baseline, SortedKeys(after.Keys));
  }

  method ListDeltas(after: Stats, baseline: Stats, keys: seq<Relation>) returns (out: seq<RelationChange>)
    ensures out == DeltaList(after, baseline, keys)
  {
    out := [];
    for i := 0 to |keys|
      invariant out == DeltaList(after, baseline, keys[..i])
    {
      DeltaListMore(after, baseline, keys[..i], keys[i]);
      assert keys[..i + 1] == keys[..i] + [keys[i]];
      var counts := Delta(after, baseline, keys[i]);
      if WrappedSum(counts) != 0 {
        out := out + [RelationChange(keys[i], counts)];
      }
    }
    assert keys[..|keys|] == keys;
  }

  lemma DeltaListMore(after: Stats, baseline: Stats, keys: seq<Relation>, rel: Relation)
    ensures DeltaList(after, baseline, keys + [rel]) == DeltaList(after, baseline, keys) +
            if WrappedSum(Delta(after, baseline, rel)) == 0 then []
            else [RelationChange(rel, Delta(after, baseline, rel))]
  {
    assert (keys + [rel])[..|keys|] == keys;
  }

  /** A delta is listed exactly for the relations whose growths do not add to zero in 64 bits,
      with the growth of each counter. */
  lemma {:induction false} DeltaListed(after: Stats, baseline: Stats, keys: seq<Relation>, change: RelationChange)
    ensures change in DeltaList(after, baseline, keys) <==>
            && change.relation in keys && WrappedSum(change.counts) != 0
            && change.counts == Delta(after, baseline, change.relation)
  {
    if keys != [] {
      DeltaListed(after, baseline, keys[..|keys| - 1], change);
    }
  }

  ghost predicate Ordered(keys: seq<Relation>) {
    forall i, j :: 0 <= i < j < |keys| ==> Precedes(keys[i], keys[j])
  }

  ghost predicate ListedInOrder(deltas: seq<RelationChange>) {
    forall i, j :: 0 <= i < j < |deltas| ==> Precedes(deltas[i].relation, deltas[j].relation)
  }

  /** What is listed for distinct keys in order is in that order: for `PgDeltas`, by name. */
  lemma {:induction false} DeltasInOrder(after: Stats, baseline: Stats, keys: seq<Relation>)
    requires Ordered(keys)
    ensures ListedInOrder(DeltaList(after, baseline, keys))
  {
    if keys != [] {
      var n := |keys| - 1;
      DeltasInOrder(after, baseline, keys[..n]);
      var earlier := DeltaList(after, baseline, keys[..n]);
      forall i | 0 <= i < |earlier| ensures Precedes(earlier[i].relation, keys[n]) {
        DeltaListed(after, baseline, keys[..n], earlier[i]);
        var k :| 0 <= k < n && keys[..n][k] == earlier[i].relation;
        assert keys[k] == earlier[i].relation;
      }
    }
  }

  /** The growths add to 2^64, the one sum besides zero that 64 bits lose. */
  ghost predicate SumLost(counts: OpCounts) {
    counts.ins + counts.upd + counts.del == U64_MAX + 1
  }

  /** A relation that changed goes unlisted exactly when its sum is lost. */
  lemma UnlistedExactly(after: Stats, baseline: Stats, rel: Relation)
    ensures var counts := Delta(after, baseline, rel);
            WrappedSum(counts) == 0 <==> counts == NO_OPS || SumLost(counts)
  {
    var counts := Delta(after, baseline, rel);
    var sum := counts.ins + counts.upd + counts.del;
    assert sum > U64_MAX ==> Wrap(sum) == Wrap(sum - (U64_MAX + 1)) == sum - (U64_MAX + 1);
  }

  /** A concrete lost sum: two counters at their limit and two deletes go unreported. */
  lemma LostSumGoesUnlisted(rel: Relation)
    ensures PgDeltas(map[rel := Counters(COUNTER_MAX, COUNTER_MAX, 2)], map[]) == []
  {
    var after: Stats := map[rel := Counters(COUNTER_MAX, COUNTER_MAX, 2)];
    OneKeySorted(rel);
    assert after.Keys == {rel};
    assert Delta(after, map[], rel) == OpCounts(COUNTER_MAX, COUNTER_MAX, 2);
    UnlistedExactly(after, map[], rel);
    DeltaListMore(after, map[], [], rel);
    assert [] + [rel] == [rel];
  }

  lemma OneKeySorted(rel: Relation)
    ensures SortedKeys({rel}) == [rel]
  {
    assert {rel} - {rel} == {};
  }

  // ------------------------------------------------------------------ the whole apply

  /** What the target loses or has rewritten by the statement itself. */
  function OwnTally(kind: WriteKind, hit: nat): Tally {
    match kind
    case Update => Tally(0, hit, 0)
    case Delete => Tally(0, 0, hit)
  }

  /** The statement's own changes beside those triggers made. */
  function TotalOf(kind: WriteKind, hit: nat, side: Tally): Tally {
    Plus(OwnTally(kind, hit), side)
  }

  ghost function TotalTally(db: Database, job: Job, x: Execution, t1: Table, rel: Relation): Tally {
    var side := TallyAll(db[job.relation := t1], x.side, rel);
    if rel == job.relation then TotalOf(job.kind, |x.newId|, side) else side
  }

  /** The counters of `rel` grew by `tally`. */
  ghost predicate GrewBy(after: Stats, baseline: Stats, rel: Relation, tally: Tally) {
    && rel in after
    && var base := CountersAt(baseline, rel);
       && after[rel].ins == base.ins + tally.ins
       && after[rel].upd == base.upd + tally.upd
       && after[rel].del == base.del + tally.del
  }

  lemma GrowthIsTally(after: Stats, baseline: Stats, rel: Relation, tally: Tally)
    requires GrewBy(after, baseline, rel, tally)
    ensures var counts := Delta(after, baseline, rel);
            counts.ins == tally.ins && counts.upd == tally.upd && counts.del == tally.del
  {
  }

  ghost predicate CountedAt(
    db: Database, job: Job, x: Execution, t1: Table, baseline: Stats, after: Stats, rel: Relation)
  {
    GrewBy(after, baseline, rel, TotalTally(db, job, x, t1, rel))
  }

  ghost predicate Counted(db: Database, job: Job, x: Execution, t1: Table, baseline: Stats, after: Stats) {
    forall rel :: rel in db ==> CountedAt(db, job, x, t1, baseline, after, rel)
  }

  /** One apply over the PostgreSQL connection: on `db` the statement took the target to
      `hit`, triggers took the database to `done`, the counters went from `baseline` to
      `after`, and the connection, which reads the target's `types`, gave `answers`. */
  datatype Applied = Applied(
    db: Database, job: Job, types: Types, stmt: Statement, x: Execution, hit: Table, done: Database,
    baseline: Stats, after: Stats, answers: Answers)

  ghost predicate Ran(p: Applied) {
    var target := p.job.relation;
    && target in p.db && WellFormed(p.db[target]) && p.stmt.kind == p.job.kind
    && Hits(p.db[target], p.stmt, p.x, p.hit)
    && p.done == AfterOps(p.db[target := p.hit], p.x.side)
    && Counted(p.db, p.job, p.x, p.hit, p.baseline, p.after)
    && p.answers.forward == PgForward(target, p.types, p.db[target], p.stmt, p.x.returned)
    && p.answers.deltas == Success(PgDeltas(p.after, p.baseline))
  }

  /** An apply that ran and committed. */
  ghost predicate Committed(p: Applied) {
    Ran(p) && Commits(p.job, p.answers)
  }

  /** The target before the apply. */
  ghost function Target(p: Applied): Table
    requires Committed(p)
  {
    p.db[p.job.relation]
  }

  /** The columns captured for the target. */
  ghost function Captured(p: Applied): seq<Column>
    requires Committed(p)
  {
    SelectList(ImageColumns(Target(p), p.stmt))
  }

  /** What the connection captured: the old rows of the returned keys, and no cascade rows. */
  ghost predicate CapturedRows(forward: ForwardResult, was: Table, cols: seq<Column>, ids: seq<int>) {
    && KnownColumns(was, cols) && Unrepeated(cols) && cols != []
    && forward.cascadePreimages == map[] && forward.written == CaptureAll(was, cols, ids)
  }

  lemma ForwardOf(p: Applied)
    requires Committed(p)
    ensures CapturedRows(p.answers.forward.value, Target(p), Captured(p), p.x.returned)
    ensures forall k :: k in p.x.returned ==> k in Matched(Target(p), p.stmt)
    ensures IdsIn(p.x.returned, Target(p)) && Unrepeated(p.x.returned)
  {
    ForwardReports(p.job.relation, p.types, Target(p), p.stmt, p.x.returned);
    ReturnedIn(Target(p), p.stmt, p.x.returned);
  }

  lemma ReturnedIn(t: Table, stmt: Statement, returned: seq<int>)
    requires forall k :: k in returned ==> k in Matched(t, stmt)
    ensures IdsIn(returned, t)
  {
    forall i | 0 <= i < |returned| ensures returned[i] in t.rows {
      var k: int := returned[i];
      assert k in returned;
    }
  }

  /** Every declared column, `id` aside, has its old value in the row's image. */
  ghost predicate HoldsDeclared(forward: ForwardResult, row: RowImage) {
    forall c :: c in forward.writtenColumns && c != PK_COLUMN ==>
      exists j :: 0 <= j < |row.image| && row.image[j].0 == c
  }

  lemma DeclaredColumnsHeld(forward: ForwardResult)
    requires ColumnsCovered(Update, forward)
    ensures forall i :: 0 <= i < |forward.written| ==> HoldsDeclared(forward, forward.written[i])
  {
    forall i | 0 <= i < |forward.written| ensures HoldsDeclared(forward, forward.written[i]) {
      assert RowColumnsCovered(forward, forward.written[i]);
      forall c | c in forward.writtenColumns && c != PK_COLUMN
        ensures exists j :: 0 <= j < |forward.written[i].image| && forward.written[i].image[j].0 == c {
        assert ApplyGuards.Captures(forward.written[i], c);
      }
    }
  }

  /** A committed UPDATE declared exactly the columns its SET list names, and the column guard
      required the old value of each of them, `id` aside, in every written row's image. */
  lemma SetColumnsGuarded(p: Applied)
    requires Committed(p) && p.job.kind == Update
    ensures var forward := p.answers.forward.value;
            && (forall c :: c in forward.writtenColumns <==> c in p.stmt.setCols)
            && forall i :: 0 <= i < |forward.written| ==> HoldsDeclared(forward, forward.written[i])
  {
    ForwardReports(p.job.relation, p.types, Target(p), p.stmt, p.x.returned);
    DeclaredColumnsHeld(p.answers.forward.value);
  }

  /** The keys this connection reports all have one width, so after a commit that went through
      it never turns success into an error. */
  lemma PgKeysUniform(relation: Relation, types: Types, t: Table, stmt: Statement, returned: seq<int>)
    requires PgForward(relation, types, t, stmt, returned).Success?
    ensures UniformKeys(PgForward(relation, types, t, stmt, returned).value.written)
  {
    ForwardReports(relation, types, t, stmt, returned);
  }

  /** The sum of `rel`'s growths is not lost. */
  ghost predicate Unwrapped(p: Applied, rel: Relation) {
    !SumLost(Delta(p.after, p.baseline, rel))
  }

  lemma ChangeListed(after: Stats, baseline: Stats, rel: Relation)
    requires rel in after && Delta(after, baseline, rel) != NO_OPS && !SumLost(Delta(after, baseline, rel))
    ensures RelationChange(rel, Delta(after, baseline, rel)) in PgDeltas(after, baseline)
  {
    DeltaListed(after, baseline, SortedKeys(after.Keys), RelationChange(rel, Delta(after, baseline, rel)));
    UnlistedExactly(after, baseline, rel);
  }

  lemma QuietCounters(job: Job, after: Stats, baseline: Stats, rel: Relation)
    requires NothingDestroyedOutside(job, PgDeltas(after, baseline)) && rel != job.relation && rel in after
    requires !SumLost(Delta(after, baseline, rel))
    ensures after[rel].upd <= CountersAt(baseline, rel).upd && after[rel].del <= CountersAt(baseline, rel).del
  {
    var change := RelationChange(rel, Delta(after, baseline, rel));
    if change.counts != NO_OPS {
      ChangeListed(after, baseline, rel);
      var deltas := PgDeltas(after, baseline);
      var i :| 0 <= i < |deltas| && deltas[i] == change;
    }
  }

  /** A committed apply leaves every row of every other relation as it was, whatever row changes
      triggers made: there can be new rows, but none is changed and none is lost. */
  lemma CommitKeepsOtherRows(p: Applied, rel: Relation)
    requires Committed(p) && rel in p.db && rel != p.job.relation && Unwrapped(p, rel)
    ensures rel in p.done && KeepsRows(p.db[rel], p.done[rel])
  {
    CommitIsQuiet(p);
    QuietKeepsRows(p.db, p.job, p.x, p.hit, p.baseline, p.after, rel);
  }

  lemma CommitIsQuiet(p: Applied)
    requires Committed(p)
    ensures NothingDestroyedOutside(p.job, PgDeltas(p.after, p.baseline))
  {
    ForwardOf(p);
    CommitTouchesOnlyTheTarget(p.job, p.answers);
  }

  lemma QuietKeepsRows(
    db: Database, job: Job, x: Execution, hit: Table, baseline: Stats, after: Stats, rel: Relation)
    requires Counted(db, job, x, hit, baseline, after) && NothingDestroyedOutside(job, PgDeltas(after, baseline))
    requires rel in db && rel != job.relation && !SumLost(Delta(after, baseline, rel))
    ensures rel in AfterOps(db[job.relation := hit], x.side)
    ensures KeepsRows(db[rel], AfterOps(db[job.relation := hit], x.side)[rel])
  {
    assert CountedAt(db, job, x, hit, baseline, after, rel);
    QuietCounters(job, after, baseline, rel);
    QuietTally(db, job, x, hit, baseline, after, rel);
    InsertsKeepRows(db[job.relation := hit], x.side, rel);
  }

  lemma QuietTally(
    db: Database, job: Job, x: Execution, hit: Table, baseline: Stats, after: Stats, rel: Relation)
    requires Counted(db, job, x, hit, baseline, after) && rel in db && rel in after && rel != job.relation
    requires after[rel].upd <= CountersAt(baseline, rel).upd && after[rel].del <= CountersAt(baseline, rel).del
    ensures var side := TallyAll(db[job.relation := hit], x.side, rel); side.upd == 0 && side.del == 0
  {
    assert CountedAt(db, job, x, hit, baseline, after, rel);
  }

  // ------------------------------------------------------------------ what triggers did to the target

  /** The changes triggers made to the target besides the statement. */
  ghost function SideTally(p: Applied): Tally {
    TallyAll(p.db[p.job.relation := p.hit], p.x.side, p.job.relation)
  }

  ghost function TargetDelta(p: Applied): OpCounts {
    Delta(p.after, p.baseline, p.job.relation)
  }

  /** What the counters of the target show is the statement's changes beside the triggers'. */
  lemma TargetGrew(p: Applied)
    requires Ran(p)
    ensures GrewBy(p.after, p.baseline, p.job.relation, TotalOf(p.job.kind, |p.x.newId|, SideTally(p)))
  {
    assert CountedAt(p.db, p.job, p.x, p.hit, p.baseline, p.after, p.job.relation);
  }

  lemma TargetShows(p: Applied)
    requires Ran(p)
    ensures p.job.relation in p.after
    ensures var counts, side, own := TargetDelta(p), SideTally(p), OwnTally(p.job.kind, |p.x.newId|);
            counts.ins == side.ins && counts.upd == own.upd + side.upd && counts.del == own.del + side.del
  {
    TargetGrew(p);
    GrowthIsTally(p.after, p.baseline, p.job.relation, TotalOf(p.job.kind, |p.x.newId|, SideTally(p)));
  }

  lemma UpdatedCount(t: Table, stmt: Statement, x: Execution, t1: Table)
    requires Updates(t, stmt, x, t1) && Lists(x.returned, NewIds(x.newId))
    ensures |x.returned| == |x.newId|
  {
    NewIdsCount(x.newId);
    DistinctSize(x.returned, NewIds(x.newId));
  }

  lemma DeletedCount(t: Table, stmt: Statement, x: Execution, t1: Table)
    requires Deletes(t, stmt, x, t1) && Lists(x.returned, NewIds(x.newId))
    ensures |x.returned| == |x.newId| && forall k :: k in x.returned <==> k in x.newId
  {
    forall k: int ensures k in x.returned <==> k in x.newId {
      if k in x.newId {
        assert x.newId[k] == k;
      }
    }
    DistinctSize(x.returned, x.newId.Keys);
  }

  lemma HitCount(p: Applied)
    requires Ran(p)
    ensures |p.x.returned| == |p.x.newId|
  {
    match p.stmt.kind
    case Update => UpdatedCount(p.db[p.job.relation], p.stmt, p.x, p.hit);
    case Delete => DeletedCount(p.db[p.job.relation], p.stmt, p.x, p.hit);
  }

  /** The counters of the target show one change of the statement's kind per returned row, and
      nothing else. */
  ghost predicate OnlyHitsCounted(p: Applied) {
    && TargetDelta(p).ins == 0
    && TargetDelta(p).upd == OwnTally(p.job.kind, |p.x.returned|).upd
    && TargetDelta(p).del == OwnTally(p.job.kind, |p.x.returned|).del
  }

  /** Triggers changed nothing in the target exactly when the counters show one change of the
      statement's kind per returned row and nothing else: both are in the apply's hands
      before it commits. */
  lemma TargetSideExactly(p: Applied)
    requires Ran(p)
    ensures NoneCounted(SideTally(p)) <==> OnlyHitsCounted(p)
  {
    HitCount(p);
    TargetShows(p);
  }

  /** The record predicts nothing but updates, or nothing but deletes, on the target. */
  ghost predicate OnlyKindRecorded(job: Job) {
    && job.relation in job.dryRun.affected.effectByTable
    && var counts := job.dryRun.affected.effectByTable[job.relation];
       && counts.ins == 0
       && match job.kind
          case Update => counts.del == 0
          case Delete => counts.upd == 0
  }

  /** A committed change to the target stays within the record, its primary channel excepted, and
      a delete within the captures. */
  lemma TargetChangeBounded(job: Job, a: Answers, change: RelationChange)
    requires Commits(job, a) && OnlyKindRecorded(job)
    requires change in a.deltas.value && change.relation == job.relation
    ensures change.counts.ins == 0 && change.counts.del <= |a.forward.value.written|
    ensures match job.kind case Update => change.counts.del == 0 case Delete => change.counts.upd == 0
  {
    PrecheckExact(job);
    FromGrantExact(job.dryRun, job.relation);
    var i :| 0 <= i < |a.deltas.value| && a.deltas.value[i] == change;
    ForeseenBounded(job, Precheck(job).value, a.deltas.value[i]);
    assert RowsCovered(job.relation, a.forward.value, a.deltas.value[i]);
  }

  lemma ForeseenBounded(job: Job, predicted: Predicted, change: RelationChange)
    requires Foreseen(predicted, job.relation, job.kind, change) && change.relation == job.relation
    requires predicted.effectByTable == job.dryRun.affected.effectByTable && OnlyKindRecorded(job)
    ensures change.counts.ins == 0
    ensures match job.kind case Update => change.counts.del == 0 case Delete => change.counts.upd == 0
  {
  }

  lemma TargetDeltaBounded(job: Job, a: Answers, baseline: Stats, after: Stats)
    requires Commits(job, a) && OnlyKindRecorded(job)
    requires job.relation in after && !SumLost(Delta(after, baseline, job.relation))
    requires a.deltas == Success(PgDeltas(after, baseline))
    ensures var counts := Delta(after, baseline, job.relation);
            && counts.ins == 0 && counts.del <= |a.forward.value.written|
            && match job.kind case Update => counts.del == 0 case Delete => counts.upd == 0
  {
    if Delta(after, baseline, job.relation) != NO_OPS {
      ChangeListed(after, baseline, job.relation);
      TargetChangeBounded(job, a, RelationChange(job.relation, Delta(after, baseline, job.relation)));
    }
  }

  lemma TargetBounded(p: Applied)
    requires Committed(p) && OnlyKindRecorded(p.job) && Unwrapped(p, p.job.relation)
    ensures TargetDelta(p).ins == 0 && TargetDelta(p).del <= |p.answers.forward.value.written|
    ensures match p.job.kind case Update => TargetDelta(p).del == 0 case Delete => TargetDelta(p).upd == 0
  {
    TargetShows(p);
    TargetDeltaBounded(p.job, p.answers, p.baseline, p.after);
  }

  /** For a committed UPDATE whose record predicts nothing but updates on the target, only the
      update channel is left open: triggers changed nothing in the target exactly when it shows
      one update per returned row. No guard compares the two. */
  lemma CommittedUpdateSideExactly(p: Applied)
    requires Committed(p) && p.job.kind == Update && OnlyKindRecorded(p.job) && Unwrapped(p, p.job.relation)
    ensures NoneCounted(SideTally(p)) <==> TargetDelta(p).upd == |p.x.returned|
  {
    TargetBounded(p);
    TargetSideExactly(p);
  }

  lemma TargetDeletesCovered(job: Job, a: Answers, baseline: Stats, after: Stats)
    requires Commits(job, a) && job.relation in after && !SumLost(Delta(after, baseline, job.relation))
    requires a.deltas == Success(PgDeltas(after, baseline))
    ensures Delta(after, baseline, job.relation).del <= |a.forward.value.written|
  {
    var change := RelationChange(job.relation, Delta(after, baseline, job.relation));
    if change.counts != NO_OPS {
      ChangeListed(after, baseline, job.relation);
      var i :| 0 <= i < |a.deltas.value| && a.deltas.value[i] == change;
      assert RowsCovered(job.relation, a.forward.value, a.deltas.value[i]);
    }
  }

  /** For every committed DELETE the coverage guard closes the delete channel: triggers deleted
      nothing in the target, and changed nothing at all exactly when its other two channels
      show nothing. Rehearsed inserts and updates of the target pass every guard. */
  lemma CommittedDeleteSideExactly(p: Applied)
    requires Committed(p) && p.job.kind == Delete && Unwrapped(p, p.job.relation)
    ensures SideTally(p).del == 0
    ensures NoneCounted(SideTally(p)) <==> TargetDelta(p).ins == 0 && TargetDelta(p).upd == 0
  {
    ForwardOf(p);
    HitCount(p);
    TargetShows(p);
    TargetDeletesCovered(p.job, p.answers, p.baseline, p.after);
  }

  /** For a committed DELETE whose record predicts nothing but deletes on the target, the coverage
      guard leaves no room for deletes beside the statement's, and reconciliation none for inserts
      and updates: triggers did not write the target. */
  lemma DeleteLeavesNoSide(p: Applied)
    requires Committed(p) && p.job.kind == Delete && OnlyKindRecorded(p.job) && Unwrapped(p, p.job.relation)
    ensures NoneCounted(SideTally(p)) && OnlyHitsCounted(p)
  {
    TargetBounded(p);
    CommittedDeleteSideExactly(p);
    TargetSideExactly(p);
  }

  // ------------------------------------------------------------------ reverting

  lemma {:induction false} OnlyTargetRestored(
    kind: InverseKind, db: Database, order: seq<Relation>, routed: Routed, script: Script, n: nat)
    requires 1 <= n <= |order|
    requires forall i :: 1 <= i < |order| ==> RowsAt(routed, order[i]) == []
    ensures RestoreAll(kind, db, order[..n], routed, script) ==
            RestoreRelation(kind, db, order[0], RowsAt(routed, order[0]), script, 0)
  {
    assert order[..n][..n - 1] == order[..n - 1];
    if n > 1 {
      OnlyTargetRestored(kind, db, order, routed, script, n - 1);
    }
  }

  /** With captures for the target only, a revert restores the target only. */
  lemma RevertsTarget(
    kind: WriteKind, target: Relation, cascades: seq<Relation>, forward: ForwardResult, now: Database, script: Script)
    requires Distinct(target, cascades) && forward.cascadePreimages == map[] && AllRoutable(forward.written)
    ensures Reverted(PlanOf(kind, target, cascades, forward), now, script) ==
            RestoreRelation(InverseKindOf(kind), now, target, forward.written, script, 0)
  {
    var plan := PlanOf(kind, target, cascades, forward);
    InverseRoundTrip(kind, target, cascades, forward);
    var routed := RouteAll(plan, plan.rows).value;
    forall i | 1 <= i < |plan.fkOrder| ensures RowsAt(routed, plan.fkOrder[i]) == [] {
      assert RowsAt(routed, plan.fkOrder[i]) == CapturedFor(target, cascades, forward, plan.fkOrder[i]);
    }
    assert RowsAt(routed, target) == CapturedFor(target, cascades, forward, target);
    OnlyTargetRestored(plan.kind, now, plan.fkOrder, routed, script, |plan.fkOrder|);
    assert plan.fkOrder[..|plan.fkOrder|] == plan.fkOrder;
  }

  lemma CapturesRoutable(was: Table, cols: seq<Column>, ids: seq<int>)
    requires cols != [] && RELATION_STAMP !in cols
    ensures AllRoutable(CaptureAll(was, cols, ids))
  {
  }

  /** The plan a committed apply returns. */
  ghost function PlanFor(p: Applied): InversePlan
    requires Committed(p)
  {
    PlanOf(p.job.kind, p.job.relation, Names(Precheck(p.job).value.cascades), p.answers.forward.value)
  }

  /** A later database the plan can be run on: the target still has its columns, none of
      which the routing takes for its stamp. */
  ghost predicate Later(p: Applied, now: Database)
    requires Committed(p)
  {
    && p.job.relation in now && WellFormed(now[p.job.relation])
    && now[p.job.relation].columns == Target(p).columns
    && RELATION_STAMP !in Captured(p)
  }

  lemma RevertOf(p: Applied, now: Database, script: Script)
    requires Committed(p) && RELATION_STAMP !in Captured(p)
    ensures Reverted(PlanFor(p), now, script) ==
            RestoreRelation(InverseKindOf(p.job.kind), now, p.job.relation,
                            CaptureAll(Target(p), Captured(p), p.x.returned), script, 0)
  {
    ForwardOf(p);
    PrecheckExact(p.job);
    FromGrantExact(p.job.dryRun, p.job.relation);
    CapturesRoutable(Target(p), Captured(p), p.x.returned);
    RevertsTarget(p.job.kind, p.job.relation, Names(Precheck(p.job).value.cascades), p.answers.forward.value, now,
      script);
  }

  /** The target's own restoration. */
  ghost function TargetRestored(p: Applied, now: Database, script: Script): Result<Table, RevertError>
    requires Committed(p) && p.job.relation in now
  {
    RestoreRows(InverseKindOf(p.job.kind), now[p.job.relation], CaptureAll(Target(p), Captured(p), p.x.returned),
      script, 0)
  }

  /** Triggers of the revert's statements leave the target to those statements. */
  ghost predicate RevertLeavesTarget(p: Applied, script: Script) {
    SidesAvoid(script, |p.x.returned|, p.job.relation)
  }

  /** Reverting on any later database, under any triggers that do not write the target besides:
      the target becomes what its own restoration makes of it, and every other relation what
      the triggers' changes alone make of it; or nothing changes at all. */
  lemma RevertSplits(p: Applied, now: Database, script: Script)
    requires Committed(p) && Later(p, now) && RevertLeavesTarget(p, script)
    ensures var target := TargetRestored(p, now, script);
            Reverted(PlanFor(p), now, script) ==
            if target.Failure? then Failure(target.error)
            else Success(AfterOps(now, Sides(script, |p.x.returned|))[p.job.relation := target.value])
  {
    RevertOf(p, now, script);
    RestoreSplits(InverseKindOf(p.job.kind), now, p.job.relation,
                  CaptureAll(Target(p), Captured(p), p.x.returned), script);
  }

  /** A relation other than the target that the revert's triggers do not write is left alone,
      whatever those triggers do to the target. */
  lemma RevertFrame(p: Applied, now: Database, script: Script, other: Relation)
    requires Committed(p) && RELATION_STAMP !in Captured(p)
    requires other != p.job.relation && other in now && SidesAvoid(script, |p.x.returned|, other)
    ensures var r := Reverted(PlanFor(p), now, script);
            r.Success? ==> other in r.value && r.value[other] == now[other]
  {
    RevertOf(p, now, script);
    RestoreFrame(InverseKindOf(p.job.kind), now, p.job.relation,
                 CaptureAll(Target(p), Captured(p), p.x.returned), script, other);
  }

  /** The column guard leaves no captured row of an UPDATE without something to restore. */
  lemma GuardLeavesSomething(forward: ForwardResult, was: Table, cols: seq<Column>, ids: seq<int>)
    requires CapturedRows(forward, was, cols, ids) && ColumnsCovered(Update, forward) && ids != []
    ensures Restores(was, cols)
  {
    var row := forward.written[0];
    assert RowColumnsCovered(forward, row);
    var c :| c != PK_COLUMN && ApplyGuards.Captures(row, c);
    assert row == Capture(was, cols, ids[0]);
    assert c in cols;
  }

  lemma UpdateRestores(p: Applied, now: Database)
    requires Committed(p) && p.job.kind == Update && Later(p, now) && p.x.returned != []
    ensures Restores(now[p.job.relation], Captured(p))
  {
    ForwardOf(p);
    GuardLeavesSomething(p.answers.forward.value, Target(p), Captured(p), p.x.returned);
  }

  lemma DeleteImageIsFull(p: Applied, now: Database)
    requires Committed(p) && p.job.kind == Delete && Later(p, now)
    ensures FullImage(now[p.job.relation], Captured(p))
  {
    ForwardOf(p);
  }

  /** Reverting a committed UPDATE on any later database, when row triggers let the restored
      rows through: the captured cells of the written rows that still exist go back to what
      they were, every other cell of the target keeps what intervening writes made of it, and
      the other relations see only what the revert's own triggers change there. */
  lemma RevertUpdateAnywhere(p: Applied, now: Database, script: Script)
    requires Committed(p) && p.job.kind == Update && Later(p, now) && RevertLeavesTarget(p, script)
    requires PassesUpdates(now[p.job.relation], Target(p), Captured(p), p.x.returned, script)
    ensures var target := PutBack(now[p.job.relation], Target(p), Captured(p), p.x.returned);
            Reverted(PlanFor(p), now, script) ==
            Success(AfterOps(now, Sides(script, |p.x.returned|))[p.job.relation := target])
  {
    RevertSplits(p, now, script);
    ForwardOf(p);
    if p.x.returned == [] {
      PutBackNothing(now[p.job.relation], Target(p), Captured(p));
    } else {
      UpdateRestores(p, now);
      RestoreUpdatesPutBack(now[p.job.relation], Target(p), Captured(p), p.x.returned, script);
    }
  }

  lemma PutBackNothing(t: Table, was: Table, cols: seq<Column>)
    ensures PutBack(t, was, cols, []) == t
  {
    assert PutBack(t, was, cols, []).rows == t.rows;
  }

  /** Reverting a committed DELETE on any later database, when row triggers let the re-inserted
      rows through: the deleted rows come back, whole, if all their keys are still free;
      otherwise the revert fails and changes nothing. */
  lemma RevertDeleteAnywhere(p: Applied, now: Database, script: Script)
    requires Committed(p) && p.job.kind == Delete && Later(p, now) && RevertLeavesTarget(p, script)
    requires PassesInserts(Target(p), p.x.returned, script)
    ensures var target := WithRows(now[p.job.relation], Target(p), p.x.returned);
            Reverted(PlanFor(p), now, script) ==
            if AllFree(now[p.job.relation], p.x.returned)
            then Success(AfterOps(now, Sides(script, |p.x.returned|))[p.job.relation := target])
            else Failure(RevertBackend)
  {
    RevertSplits(p, now, script);
    ForwardOf(p);
    DeleteImageIsFull(p, now);
    RestoreInsertsAdd(now[p.job.relation], Target(p), Captured(p), p.x.returned, script, p.x.returned);
  }

  // ------------------------------------------------------------------ exactly when the target is restored

  /** The revert succeeds and leaves the target as it was before the apply. */
  ghost predicate GivesBack(p: Applied, now: Database, script: Script)
    requires Committed(p)
  {
    var r := Reverted(PlanFor(p), now, script);
    r.Success? && p.job.relation in r.value && r.value[p.job.relation] == Target(p)
  }

  lemma GivesBackExactly(p: Applied, now: Database, script: Script)
    requires Committed(p) && Later(p, now) && RevertLeavesTarget(p, script)
    ensures GivesBack(p, now, script) <==> TargetRestored(p, now, script) == Success(Target(p))
  {
    RevertSplits(p, now, script);
  }

  /** Reverting a committed UPDATE on any later database, in particular on the one the apply
      left, under any triggers that do not write the target besides, gives the target back if
      and only if the rows it does not restore are the old ones, and each statement's row
      trigger turns the row about to be restored into the old one. */
  lemma UpdateRoundTrip(p: Applied, now: Database, script: Script)
    requires Committed(p) && p.job.kind == Update && Later(p, now) && RevertLeavesTarget(p, script)
    ensures GivesBack(p, now, script) <==>
            Recovers(now[p.job.relation], Target(p), Captured(p), p.x.returned, script)
  {
    GivesBackExactly(p, now, script);
    ForwardOf(p);
    if p.x.returned == [] {
      NothingToRecover(now[p.job.relation], Target(p), Captured(p), script);
    } else {
      UpdateRestores(p, now);
      UpdatesRestoreExactly(now[p.job.relation], Target(p), Captured(p), p.x.returned, script);
    }
  }

  lemma NothingToRecover(t: Table, was: Table, cols: seq<Column>, script: Script)
    ensures t == was <==> Recovers(t, was, cols, [], script)
  {
    if Recovers(t, was, cols, [], script) {
      MixedIsOld(t, was, []);
      assert Mixed(t, was, []).rows == t.rows;
    }
  }

  /** Distinct keys that are taken only by rows on the move are a permutation of them. */
  lemma MovesPermute(keys: set<int>, moved: set<int>, image: set<int>)
    requires |image| == |moved| && image <= keys && image * keys <= moved && moved <= keys
    ensures image == moved && (keys - moved) + image == keys
  {
    SubsetOfSameSize(image, moved);
  }

  lemma NewIdsCount(newId: map<int, int>)
    requires Injective(newId)
    ensures |NewIds(newId)| == |newId.Keys|
  {
    InjectiveImageSize(newId.Keys, newId, NewIds(newId));
  }

  /** If every key the UPDATE gave out was in the snapshot, it only permuted the keys of the
      rows it hit. */
  lemma KeysArePermuted(t: Table, stmt: Statement, x: Execution, t1: Table)
    requires Updates(t, stmt, x, t1) && NewIds(x.newId) <= Matched(t, stmt)
    ensures NewIds(x.newId) == x.newId.Keys && t1.rows.Keys == t.rows.Keys
  {
    assert Matched(t, stmt) <= t.rows.Keys;
    NewIdsCount(x.newId);
    MovesPermute(t.rows.Keys, x.newId.Keys, NewIds(x.newId));
  }

  lemma UnhitRowsStay(t: Table, stmt: Statement, x: Execution, t1: Table)
    requires Updates(t, stmt, x, t1) && Lists(x.returned, NewIds(x.newId)) && NewIds(x.newId) <= Matched(t, stmt)
    ensures t1.rows.Keys == t.rows.Keys
    ensures forall j :: j in t1.rows && j !in x.returned ==> t1.rows[j] == t.rows[j]
  {
    KeysArePermuted(t, stmt, x, t1);
    forall j | j in t1.rows && j !in x.returned ensures t1.rows[j] == t.rows[j] {
      assert j !in NewIds(x.newId);
    }
  }

  /** Cells the SET list does not name were written as the row of the final key had them. */
  ghost predicate OtherCellsKept(t: Table, stmt: Statement, x: Execution) {
    forall k, c :: k in x.newId && k in x.wrote && c in t.columns && c !in stmt.setCols && c != PK_COLUMN ==>
      Cell(x.wrote[k], c) == Cell(RowAt(t, x.newId[k]), c)
  }

  lemma HitRowAt(t: Table, stmt: Statement, x: Execution, t1: Table, k: int, j: int)
    requires Updates(t, stmt, x, t1) && k in x.newId && x.newId[k] == j
    ensures k in x.wrote && j in t1.rows && t1.rows[j] == x.wrote[k] && FitsAt(t, x.wrote[k], j)
  {
  }

  lemma AgreementAt(t: Table, t1: Table, cols: seq<Column>, ids: seq<int>, j: int, c: Column)
    requires AgreesOffCaptures(t1, t, cols, ids) && j in t1.rows && j in t.rows && c in t.columns && c !in cols
    ensures Cell(t1.rows[j], c) == Cell(RowAt(t, j), c)
  {
  }

  lemma AgreementKeepsOtherCells(t: Table, stmt: Statement, x: Execution, t1: Table)
    requires Updates(t, stmt, x, t1) && AgreesOffCaptures(t1, t, SelectList(stmt.setCols), x.returned)
    ensures OtherCellsKept(t, stmt, x)
  {
    forall k, c | k in x.newId && k in x.wrote && c in t.columns && c !in stmt.setCols && c != PK_COLUMN
      ensures Cell(x.wrote[k], c) == Cell(RowAt(t, x.newId[k]), c) {
      HitRowAt(t, stmt, x, t1, k, x.newId[k]);
      AgreementAt(t, t1, SelectList(stmt.setCols), x.returned, x.newId[k], c);
    }
  }

  /** Each returned key is the new key of a hit row. */
  lemma HitOf(x: Execution, j: int) returns (k: int)
    requires Lists(x.returned, NewIds(x.newId)) && j in x.returned
    ensures k in x.newId && x.newId[k] == j
  {
    k :| k in x.newId && x.newId[k] == j;
  }

  lemma KeptCell(t: Table, stmt: Statement, x: Execution, k: int, j: int, c: Column)
    requires WellFormed(t) && OtherCellsKept(t, stmt, x) && k in x.newId && x.newId[k] == j && j in t.rows
    requires k in x.wrote && FitsAt(t, x.wrote[k], j)
    requires c in t.columns && (c !in stmt.setCols || c == PK_COLUMN)
    ensures Cell(x.wrote[k], c) == Cell(t.rows[j], c)
  {
    assert FitsAt(t, t.rows[j], j);
  }

  lemma OtherCellAgrees(t: Table, stmt: Statement, x: Execution, t1: Table, j: int, c: Column)
    requires WellFormed(t) && Updates(t, stmt, x, t1) && OtherCellsKept(t, stmt, x)
    requires Lists(x.returned, NewIds(x.newId)) && j in x.returned && j in t.rows
    requires c in t.columns && (c !in stmt.setCols || c == PK_COLUMN)
    ensures j in t1.rows && Cell(t1.rows[j], c) == Cell(t.rows[j], c)
  {
    var k := HitOf(x, j);
    HitRowAt(t, stmt, x, t1, k, j);
    KeptCell(t, stmt, x, k, j, c);
  }

  /** Row `j` of `t1` has the cells outside the SET list that it had in `t`. */
  ghost predicate KeptAt(t: Table, stmt: Statement, t1: Table, j: int) {
    && j in t.rows && j in t1.rows
    && forall c :: c in t.columns && (c !in stmt.setCols || c == PK_COLUMN) ==>
      Cell(t1.rows[j], c) == Cell(t.rows[j], c)
  }

  lemma KeptEverywhere(t: Table, stmt: Statement, x: Execution, t1: Table)
    requires WellFormed(t) && Updates(t, stmt, x, t1) && OtherCellsKept(t, stmt, x)
    requires Lists(x.returned, NewIds(x.newId))
    ensures forall j :: j in x.returned && j in t.rows ==> KeptAt(t, stmt, t1, j)
  {
    forall j | j in x.returned && j in t.rows ensures KeptAt(t, stmt, t1, j) {
      OtherCellAgrees(t, stmt, x, t1, j, PK_COLUMN);
      forall c | c in t.columns && (c !in stmt.setCols || c == PK_COLUMN)
        ensures Cell(t1.rows[j], c) == Cell(t.rows[j], c) {
        OtherCellAgrees(t, stmt, x, t1, j, c);
      }
    }
  }

  lemma KeptAgrees(t: Table, stmt: Statement, t1: Table, ids: seq<int>)
    requires t1.columns == t.columns && t1.rows.Keys == t.rows.Keys
    requires forall j :: j in ids && j in t.rows ==> KeptAt(t, stmt, t1, j)
    requires forall j :: j in t1.rows && j !in ids ==> t1.rows[j] == t.rows[j]
    ensures AgreesOffCaptures(t1, t, SelectList(stmt.setCols), ids)
  {
  }

  lemma OtherCellsAgree(t: Table, stmt: Statement, x: Execution, t1: Table)
    requires WellFormed(t) && Hits(t, stmt, x, t1) && stmt.kind == Update
    requires forall k :: k in x.returned ==> k in Matched(t, stmt)
    ensures AgreesOffCaptures(t1, t, SelectList(stmt.setCols), x.returned) <==> OtherCellsKept(t, stmt, x)
  {
    UnhitRowsStay(t, stmt, x, t1);
    if AgreesOffCaptures(t1, t, SelectList(stmt.setCols), x.returned) {
      AgreementKeepsOtherCells(t, stmt, x, t1);
    }
    if OtherCellsKept(t, stmt, x) {
      KeptEverywhere(t, stmt, x, t1);
      KeptAgrees(t, stmt, t1, x.returned);
    }
  }

  lemma HitIsWellFormed(t: Table, stmt: Statement, x: Execution, t1: Table)
    requires WellFormed(t) && Hits(t, stmt, x, t1)
    ensures WellFormed(t1) && t1.columns == t.columns
  {
    forall j | j in t1.rows ensures FitsAt(t1, t1.rows[j], j) {
      if stmt.kind == Update && j in x.returned {
        var k := HitOf(x, j);
        assert FitsAt(t, x.wrote[k], j);
      } else {
        assert FitsAt(t, t.rows[j], j);
      }
    }
  }

  lemma HitStays(p: Applied)
    requires Committed(p) && OnlyHitsCounted(p) && RELATION_STAMP !in Captured(p)
    ensures Later(p, p.done) && p.done[p.job.relation] == p.hit
  {
    TargetSideExactly(p);
    UncountedOpsKeep(p.db[p.job.relation := p.hit], p.x.side, p.job.relation);
    HitIsWellFormed(Target(p), p.stmt, p.x, p.hit);
  }

  /** When row triggers let the restored rows through and the counters show one update of the
      target per returned row and nothing else, apply then revert gives the target back if and
      only if each hit row's cells outside the SET list were written as the row of its final key
      had them. */
  lemma PassedUpdateRoundTrip(p: Applied, script: Script)
    requires Committed(p) && p.job.kind == Update && OnlyHitsCounted(p) && RELATION_STAMP !in Captured(p)
    requires RevertLeavesTarget(p, script) && PassesUpdates(p.hit, Target(p), Captured(p), p.x.returned, script)
    ensures GivesBack(p, p.done, script) <==> OtherCellsKept(Target(p), p.stmt, p.x)
  {
    HitStays(p);
    ForwardOf(p);
    GivesBackPutBack(p, p.done, script);
    HitRoundTrip(Target(p), p.stmt, p.x, p.hit);
  }

  lemma GivesBackPutBack(p: Applied, now: Database, script: Script)
    requires Committed(p) && p.job.kind == Update && Later(p, now) && RevertLeavesTarget(p, script)
    requires PassesUpdates(now[p.job.relation], Target(p), Captured(p), p.x.returned, script)
    ensures GivesBack(p, now, script) <==>
            PutBack(now[p.job.relation], Target(p), Captured(p), p.x.returned) == Target(p)
  {
    RevertUpdateAnywhere(p, now, script);
  }

  lemma HitRoundTrip(t: Table, stmt: Statement, x: Execution, t1: Table)
    requires WellFormed(t) && Hits(t, stmt, x, t1) && stmt.kind == Update
    requires forall k :: k in x.returned ==> k in Matched(t, stmt)
    ensures PutBack(t1, t, SelectList(stmt.setCols), x.returned) == t <==> OtherCellsKept(t, stmt, x)
  {
    HitIsWellFormed(t, stmt, x, t1);
    OtherCellsAgree(t, stmt, x, t1);
    PutBackIsOldExactly(t1, t, SelectList(stmt.setCols), x.returned);
  }

  /** The trigger leaves the old row alone, or it skips a row that already is the old one. */
  ghost predicate KeepsOldRow(t: Table, was: Table, k: int, firing: Firing) {
    && firing.Fires?
    && match firing.before(RowAt(was, k))
       case Some(row) => row == RowAt(was, k)
       case None => RowAt(t, k) == RowAt(was, k)
  }

  /** When the cells outside the SET list were kept, and the counters show one update of the
      target per returned row and nothing else, apply then revert gives the target back if and
      only if the triggers the revert fires leave every old row alone. */
  lemma KeptCellsRoundTrip(p: Applied, script: Script)
    requires Committed(p) && p.job.kind == Update && OnlyHitsCounted(p) && RELATION_STAMP !in Captured(p)
    requires RevertLeavesTarget(p, script) && OtherCellsKept(Target(p), p.stmt, p.x)
    ensures GivesBack(p, p.done, script) <==>
            forall i :: 0 <= i < |p.x.returned| ==> KeepsOldRow(p.hit, Target(p), p.x.returned[i], script(i))
  {
    HitStays(p);
    ForwardOf(p);
    UpdateRoundTrip(p, p.done, script);
    OtherCellsAgree(Target(p), p.stmt, p.x, p.hit);
    AgreeingRecovers(p.hit, Target(p), Captured(p), p.x.returned, script);
  }

  lemma AgreeingRecovered(t: Table, was: Table, cols: seq<Column>, ids: seq<int>, k: int, firing: Firing)
    requires WellFormed(t) && WellFormed(was) && AgreesOffCaptures(t, was, cols, ids)
    requires k in ids && k in t.rows && k in was.rows
    ensures Recovered(t, was, cols, k, firing) <==> KeepsOldRow(t, was, k, firing)
  {
    assert FitsAt(t, t.rows[k], k) && FitsAt(was, was.rows[k], k);
    RowsAgree(t, was, cols, ids, k);
  }

  lemma AgreeingRecovers(t: Table, was: Table, cols: seq<Column>, ids: seq<int>, script: Script)
    requires WellFormed(t) && WellFormed(was) && AgreesOffCaptures(t, was, cols, ids) && IdsIn(ids, was)
    ensures Recovers(t, was, cols, ids, script) <==>
            forall i :: 0 <= i < |ids| ==> KeepsOldRow(t, was, ids[i], script(i))
  {
    forall i | 0 <= i < |ids|
      ensures Recovered(t, was, cols, ids[i], script(i)) <==> KeepsOldRow(t, was, ids[i], script(i)) {
      AgreeingRecovered(t, was, cols, ids, ids[i], script(i));
    }
  }

  /** The statement wrote what it assigned. */
  ghost predicate WroteAsAssigned(t: Table, stmt: Statement, x: Execution) {
    forall k :: k in x.newId && k in x.wrote && k in t.rows ==> x.wrote[k] == stmt.assign(t.rows[k])
  }

  /** The rows of the first `n` statements pass as they are. */
  ghost predicate RowsPass(script: Script, n: nat) {
    forall i :: 0 <= i < n ==> script(i).Fires? && forall row :: script(i).before(row) == Some(row)
  }

  /** No BEFORE trigger, on the apply or on the revert. */
  ghost predicate NoRowTriggers(p: Applied, script: Script)
    requires Committed(p)
  {
    WroteAsAssigned(Target(p), p.stmt, p.x) && RowsPass(script, |p.x.returned|)
  }

  /** The assignments change only the cells the SET list names. */
  ghost predicate AssignsOnlySetColumns(t: Table, stmt: Statement) {
    forall k, c :: k in t.rows && c in t.columns && c !in stmt.setCols ==>
      Cell(stmt.assign(t.rows[k]), c) == Cell(t.rows[k], c)
  }

  lemma PlainCellsKept(t: Table, stmt: Statement, x: Execution, t1: Table)
    requires WellFormed(t) && Updates(t, stmt, x, t1) && AssignsOnlySetColumns(t, stmt) && PK_COLUMN !in stmt.setCols
    requires WroteAsAssigned(t, stmt, x)
    ensures OtherCellsKept(t, stmt, x)
  {
    forall k | k in x.newId ensures x.newId[k] == k {
      assert FitsAt(t, t.rows[k], k) && FitsAt(t, x.wrote[k], x.newId[k]);
      assert Cell(stmt.assign(t.rows[k]), PK_COLUMN) == Cell(t.rows[k], PK_COLUMN);
    }
  }

  /** Without row triggers, an UPDATE that does not set `id` round-trips if the counters show one
      update of the target per returned row and nothing else: the target is given back, and
      the other relations see only what the revert's AFTER triggers do. */
  lemma PlainUpdateRoundTrips(p: Applied, script: Script)
    requires Committed(p) && p.job.kind == Update && OnlyHitsCounted(p) && RELATION_STAMP !in Captured(p)
    requires RevertLeavesTarget(p, script) && NoRowTriggers(p, script)
    requires AssignsOnlySetColumns(Target(p), p.stmt) && PK_COLUMN !in p.stmt.setCols
    ensures Reverted(PlanFor(p), p.done, script) ==
            Success(AfterOps(p.done, Sides(script, |p.x.returned|))[p.job.relation := Target(p)])
  {
    PlainCellsKept(Target(p), p.stmt, p.x, p.hit);
    PassedUpdateRoundTrip(p, script);
    HitStays(p);
    RevertSplits(p, p.done, script);
  }

  // ------------------------------------------------------------------ a DELETE

  /** Reverting a committed DELETE on any later database, in particular on the one the apply
      left, under any triggers that do not write the target besides, gives the target back if
      and only if it then holds only old rows, and each statement's row trigger skips its row
      or yields an old row that is missing, until none is. */
  lemma DeleteRoundTrip(p: Applied, now: Database, script: Script)
    requires Committed(p) && p.job.kind == Delete && Later(p, now) && RevertLeavesTarget(p, script)
    ensures GivesBack(p, now, script) <==> Completes(now[p.job.relation], Target(p), p.x.returned, script)
  {
    GivesBackExactly(p, now, script);
    ForwardOf(p);
    DeleteImageIsFull(p, now);
    InsertsCompleteExactly(now[p.job.relation], Target(p), Captured(p), p.x.returned, script);
  }

  /** The target as the DELETE alone leaves it. */
  ghost function WithoutReturned(p: Applied): Table
    requires Committed(p)
  {
    Target(p).(rows := Target(p).rows - IdSet(p.x.returned))
  }

  /** When row triggers let the re-inserted rows through, a DELETE is undone on exactly one
      target: the old one without the deleted rows. */
  lemma PassedDeleteRoundTrip(p: Applied, now: Database, script: Script)
    requires Committed(p) && p.job.kind == Delete && Later(p, now) && RevertLeavesTarget(p, script)
    requires PassesInserts(Target(p), p.x.returned, script)
    ensures GivesBack(p, now, script) <==> now[p.job.relation] == WithoutReturned(p)
  {
    RevertDeleteAnywhere(p, now, script);
    ForwardOf(p);
    AddedBackExactly(now[p.job.relation], Target(p), p.x.returned);
  }

  lemma AddedBackExactly(t: Table, was: Table, ids: seq<int>)
    requires t.columns == was.columns && IdsIn(ids, was)
    ensures (AllFree(t, ids) && WithRows(t, was, ids) == was) <==> t == was.(rows := was.rows - IdSet(ids))
  {
    forall k | k in ids ensures k in was.rows {
    }
    if AllFree(t, ids) {
      WithRowsIsOldExactly(t, was, ids);
    }
  }

  lemma DeletedTarget(p: Applied)
    requires Committed(p) && p.job.kind == Delete && OnlyHitsCounted(p) && RELATION_STAMP !in Captured(p)
    ensures Later(p, p.done) && p.done[p.job.relation] == WithoutReturned(p)
  {
    HitStays(p);
    DeletedRows(Target(p), p.stmt, p.x, p.hit);
  }

  lemma DeletedRows(t: Table, stmt: Statement, x: Execution, t1: Table)
    requires Deletes(t, stmt, x, t1) && Lists(x.returned, NewIds(x.newId))
    ensures t1 == t.(rows := t.rows - IdSet(x.returned))
  {
    DeletedCount(t, stmt, x, t1);
    forall k: int ensures k in IdSet(x.returned) <==> k in x.newId.Keys {
    }
    assert IdSet(x.returned) == x.newId.Keys;
  }

  /** When the counters show one delete of the target per returned row and nothing else, apply
      then revert gives the target back if and only if the revert's row triggers yield the
      deleted rows, each once. */
  lemma CountedDeleteRoundTrip(p: Applied, script: Script)
    requires Committed(p) && p.job.kind == Delete && OnlyHitsCounted(p) && RELATION_STAMP !in Captured(p)
    requires RevertLeavesTarget(p, script)
    ensures GivesBack(p, p.done, script) <==> Reinserts(Target(p), p.x.returned, script)
  {
    DeletedTarget(p);
    ForwardOf(p);
    GivesBackExactly(p, p.done, script);
    DeleteImageIsFull(p, p.done);
    InsertsRestoreExactly(Target(p), Captured(p), p.x.returned, script, WithoutReturned(p));
  }

  /** When row triggers let the re-inserted rows through besides, such a DELETE round-trips. */
  lemma PlainDeleteRoundTrips(p: Applied, script: Script)
    requires Committed(p) && p.job.kind == Delete && OnlyHitsCounted(p) && RELATION_STAMP !in Captured(p)
    requires RevertLeavesTarget(p, script) && PassesInserts(Target(p), p.x.returned, script)
    ensures Reverted(PlanFor(p), p.done, script) ==
            Success(AfterOps(p.done, Sides(script, |p.x.returned|))[p.job.relation := Target(p)])
  {
    DeletedTarget(p);
    PassedDeleteRoundTrip(p, p.done, script);
    RevertSplits(p, p.done, script);
  }
}
