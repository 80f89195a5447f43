/** Committed applies on one small table, spelled out. They show that the hypotheses of the
    round-trip theorems can be met, and what row triggers do to a revert: each trigger here
    acts on the apply and on the revert alike, and no guard notices. */
module TriggerExample {
  import opened Prelude
  import opened BlastRadius
  import opened Inverse
  import opened ApplyGuards
  import opened ApplyEngine
  import opened NoFalseAbort
  import opened PgTable
  import opened RoundTrip
  import opened ApplyRevert

  function Account(balance: int, note: int): Row {
    map["id" := Int(1), "balance" := Int(balance), "note" := Int(note)]
  }

  function Accounts(balance: int, note: int): Table {
    Table(["id", "balance", "note"], map[1 := Account(balance, note)])
  }

  const TYPES := Types(true, {})

  /** `SET balance = 1` on every row. */
  function SetBalance(): Statement {
    Statement(Update, ["balance"], (_: Row) => true, (row: Row) => row["balance" := Int(1)])
  }

  /** The one row is hit, and written as the given balance and note. */
  function HitOne(balance: int, note: int): Execution {
    Execution(map[1 := 1], map[1 := Account(balance, note)], [1], [])
  }

  lemma AccountsWellFormed(balance: int, note: int)
    ensures WellFormed(Accounts(balance, note))
  {
    var t := Accounts(balance, note);
    assert |"id"| == 2 && |"balance"| == 7 && |"note"| == 4;
    assert t.columns[0] == PK_COLUMN;
    assert FitsAt(t, Account(balance, note), 1);
  }

  lemma SetBalanceHits(balance: int, note: int)
    ensures Hits(Accounts(0, 0), SetBalance(), HitOne(balance, note), Accounts(balance, note))
  {
    AccountsWellFormed(balance, note);
    var x := HitOne(balance, note);
    forall v: int ensures v in NewIds(x.newId) <==> v in {1} {
      assert 1 in x.newId && x.newId[1] == 1;
    }
    assert NewIds(x.newId) == {1};
    assert FitsAt(Accounts(balance, note), Account(balance, note), 1);
    assert 1 in Matched(Accounts(0, 0), SetBalance());
    assert Updates(Accounts(0, 0), SetBalance(), x, Accounts(balance, note));
  }

  lemma BalanceSelected()
    ensures SelectList(["balance"]) == ["id", "balance"]
  {
    assert |"id"| == 2 && |"balance"| == 7;
    assert ["balance"][..0] == [];
  }

  lemma SetBalanceCaptured(rel: Relation)
    ensures var forward := PgForward(rel, TYPES, Accounts(0, 0), SetBalance(), [1]);
            && forward.Success? && ColumnsCovered(Update, forward.value)
            && UniformKeys(forward.value.written) && |forward.value.written| == 1
  {
    BalanceSelected();
    var t := Accounts(0, 0);
    assert t.columns[0] == "id" && t.columns[1] == "balance";
    ForwardExact(rel, TYPES, t, SetBalance(), [1]);
    assert 1 in Matched(t, SetBalance());
    ForwardReports(rel, TYPES, t, SetBalance(), [1]);
    var forward := PgForward(rel, TYPES, t, SetBalance(), [1]).value;
    BalanceCovered(forward);
  }

  lemma BalanceCovered(forward: ForwardResult)
    requires forward.written == CaptureAll(Accounts(0, 0), ["id", "balance"], [1])
             && forward.writtenColumns == ["balance"]
    ensures ColumnsCovered(Update, forward) && UniformKeys(forward.written)
  {
    var row := forward.written[0];
    assert row.image[1].0 == "balance" && |"balance"| != |PK_COLUMN|;
    assert ApplyGuards.Captures(row, "balance");
    assert RowColumnsCovered(forward, row);
  }

  // ------------------------------------------------------------------ the rehearsal and the apply

  /** One or two changes. */
  type Few = c: OpCounts | 1 <= c.ins + c.upd + c.del <= 2 witness OpCounts(0, 1, 0)

  const ONE_UPDATE: Few := OpCounts(0, 1, 0)
  const ONE_DELETE: Few := OpCounts(0, 0, 1)

  /** One row hit, and these changes counted. */
  function Measured(rel: Relation, counts: Few): Measurement {
    Measurement(AffectedTable(rel, Some([]), 1), [], [RelationEffect(rel, counts)], 0, 0, [])
  }

  function RecordOf(rel: Relation, counts: Few): BlastRadius {
    BlastRadius([], [], Affected(map[rel := 1], map[], map[rel := []], map[rel := counts], 1), 0, 0, true)
  }

  lemma RecordIsAssembled(rel: Relation, kind: WriteKind, counts: Few)
    ensures Keyed(Measured(rel, counts)) && TargetMeasured(Measured(rel, counts))
            && AssembledFrom(RecordOf(rel, counts), [], kind, Measured(rel, counts))
  {
    var effects := Effects(kind, Measured(rel, counts));
    assert effects == [RelationEffect(rel, counts)];
    assert effects[..0] == [];
    assert Measured(rel, counts).fullEffect[0].relation == rel;
  }

  function JobOf(rel: Relation, kind: WriteKind, counts: Few): Job {
    Job([], kind, rel, RecordOf(rel, counts), WriteCap(U64_MAX, U64_MAX), false, [])
  }

  function StatsAfter(rel: Relation, counts: Few): Stats {
    map[rel := Counters(counts.ins, counts.upd, counts.del)]
  }

  lemma DeltasAre(rel: Relation, counts: Few)
    ensures PgDeltas(StatsAfter(rel, counts), map[]) == [RelationChange(rel, counts)]
  {
    OneKeySorted(rel);
    var after := StatsAfter(rel, counts);
    assert after.Keys == {rel};
    assert Delta(after, map[], rel) == counts;
    DeltaListMore(after, map[], [], rel);
    assert [] + [rel] == [rel];
  }

  /** Every call answered, the forward step by the PostgreSQL connection. */
  ghost function AnswersFor(rel: Relation, was: Table, stmt: Statement, counts: Few): Answers {
    Answers(None, Success([]), Success(()), PgForward(rel, TYPES, was, stmt, [1]),
            Success(PgDeltas(StatsAfter(rel, counts), map[])), Success(0), Success(()), Success(()))
  }

  ghost function AnswersOf(rel: Relation): Answers {
    AnswersFor(rel, Accounts(0, 0), SetBalance(), ONE_UPDATE)
  }

  /** The rehearsal counted what the apply counts, so no guard objects. */
  lemma RehearsedOneRow(rel: Relation, kind: WriteKind, counts: Few, a: Answers)
    requires a.restorePoint.Success? && a.begin.Success? && a.forward.Success? && a.walBytes == Success(0)
    requires a.deltas == Success(PgDeltas(StatsAfter(rel, counts), map[]))
    requires ColumnsCovered(kind, a.forward.value) && |a.forward.value.written| == 1 && counts.del <= 1
    ensures Commits(JobOf(rel, kind, counts), a)
  {
    RecordIsAssembled(rel, kind, counts);
    DeltasAre(rel, counts);
    assert AsRecorded(RecordOf(rel, counts), a.deltas.value);
    RehearsedCommits(JobOf(rel, kind, counts), Measured(rel, counts), a);
  }

  lemma AnswersCommit(rel: Relation)
    ensures Commits(JobOf(rel, Update, ONE_UPDATE), AnswersOf(rel))
  {
    SetBalanceCaptured(rel);
    RehearsedOneRow(rel, Update, ONE_UPDATE, AnswersOf(rel));
  }

  /** An apply that hits one row of a database of one table, counted as `counts`. */
  ghost predicate Alone(p: Applied, was: Table, counts: Few) {
    && p.db.Keys == {p.job.relation} && p.db[p.job.relation] == was
    && p.done == AfterOps(p.db[p.job.relation := p.hit], p.x.side)
    && p.stmt.kind == p.job.kind && |p.x.newId| == 1
    && p.baseline == map[] && p.after == StatsAfter(p.job.relation, counts)
    && SideAddsUp(p.job.kind, SideTally(p), counts)
  }

  /** Beside one change by the statement, `side` makes these. */
  ghost predicate SideAddsUp(kind: WriteKind, side: Tally, counts: Few) {
    side.ins == counts.ins && match kind
      case Update => side.upd + 1 == counts.upd && side.del == counts.del
      case Delete => side.upd == counts.upd && side.del + 1 == counts.del
  }

  lemma AddedUp(kind: WriteKind, side: Tally, counts: Few, rel: Relation)
    requires SideAddsUp(kind, side, counts)
    ensures GrewBy(StatsAfter(rel, counts), map[], rel, TotalOf(kind, 1, side))
  {
  }

  lemma OneCountedIsAll(db: Database, job: Job, x: Execution, hit: Table, baseline: Stats, after: Stats, rel: Relation)
    requires db.Keys == {rel} && CountedAt(db, job, x, hit, baseline, after, rel)
    ensures Counted(db, job, x, hit, baseline, after)
  {
  }

  lemma AloneCounted(p: Applied, was: Table, counts: Few)
    requires Alone(p, was, counts)
    ensures Counted(p.db, p.job, p.x, p.hit, p.baseline, p.after)
  {
    AddedUp(p.job.kind, SideTally(p), counts, p.job.relation);
    OneCountedIsAll(p.db, p.job, p.x, p.hit, p.baseline, p.after, p.job.relation);
  }

  lemma RanFrom(p: Applied, was: Table)
    requires p.job.relation in p.db && p.db[p.job.relation] == was && p.stmt.kind == p.job.kind
    requires WellFormed(was) && Hits(was, p.stmt, p.x, p.hit)
    requires p.done == AfterOps(p.db[p.job.relation := p.hit], p.x.side)
    requires Counted(p.db, p.job, p.x, p.hit, p.baseline, p.after)
    requires p.answers.forward == PgForward(p.job.relation, p.types, was, p.stmt, p.x.returned)
    requires p.answers.deltas == Success(PgDeltas(p.after, p.baseline))
    ensures Ran(p)
  {
  }

  lemma AloneRan(p: Applied, was: Table, counts: Few)
    requires Alone(p, was, counts) && WellFormed(was) && Hits(was, p.stmt, p.x, p.hit)
    requires p.answers.forward == PgForward(p.job.relation, p.types, was, p.stmt, p.x.returned)
    requires p.answers.deltas == Success(PgDeltas(p.after, p.baseline))
    ensures Ran(p)
  {
    AloneCounted(p, was, counts);
    RanFrom(p, was);
  }

  lemma OneHitCounted(p: Applied, counts: Few)
    requires p.after == StatsAfter(p.job.relation, counts) && p.baseline == map[]
    requires counts == OpCountsOf(p.job.kind, 1) && |p.x.returned| == 1
    ensures OnlyHitsCounted(p)
  {
  }

  lemma OneHit(
    rel: Relation, job: Job, was: Table, stmt: Statement, x: Execution, hit: Table, answers: Answers, counts: Few)
    returns (p: Applied)
    requires job.relation == rel && stmt.kind == job.kind && |x.newId| == 1
    requires SideAddsUp(job.kind, TallyAll(map[rel := was][rel := hit], x.side, rel), counts)
    ensures Alone(p, was, counts) && p.job == job && p.types == TYPES && p.stmt == stmt && p.x == x && p.hit == hit
    ensures p.answers == answers && p.baseline == map[] && p.after == StatsAfter(rel, counts)
  {
    p := Applied(map[rel := was], job, TYPES, stmt, x, hit, AfterOps(map[rel := was][rel := hit], x.side), map[],
      StatsAfter(rel, counts), answers);
  }

  /** An apply with these answers exists, and it commits if they make it. */
  lemma OneHitApply(
    rel: Relation, job: Job, was: Table, stmt: Statement, x: Execution, hit: Table, answers: Answers, counts: Few)
    returns (p: Applied)
    requires job.relation == rel && Commits(job, answers)
    requires WellFormed(was) && Hits(was, stmt, x, hit) && stmt.kind == job.kind && |x.newId| == 1
    requires SideAddsUp(job.kind, TallyAll(map[rel := was][rel := hit], x.side, rel), counts)
    requires answers.forward == PgForward(rel, TYPES, was, stmt, x.returned)
    requires answers.deltas == Success(PgDeltas(StatsAfter(rel, counts), map[]))
    ensures Committed(p) && Alone(p, was, counts) && p.job == job
    ensures rel in p.db && p.db[rel] == was && p.hit == hit && p.stmt == stmt && p.x == x
    ensures p.baseline == map[] && p.after == StatsAfter(rel, counts)
    ensures counts == OpCountsOf(job.kind, 1) && |x.returned| == 1 ==> OnlyHitsCounted(p)
  {
    p := OneHit(rel, job, was, stmt, x, hit, answers, counts);
    if counts == OpCountsOf(job.kind, 1) && |x.returned| == 1 {
      OneHitCounted(p, counts);
    }
    AloneRan(p, was, counts);
  }

  lemma NothingAdded(kind: WriteKind, db: Database, ops: seq<RowOp>, rel: Relation)
    requires ops == []
    ensures SideAddsUp(kind, TallyAll(db, ops, rel), OpCountsOf(kind, 1))
  {
  }

  /** A committed `SET balance = 1` on the one row, written as the given balance and note. */
  ghost predicate Example(p: Applied, rel: Relation, balance: int, note: int) {
    && Committed(p) && OnlyHitsCounted(p) && p.job.relation == rel && p.job.kind == Update
    && p.db[rel] == Accounts(0, 0) && p.hit == Accounts(balance, note)
    && p.stmt == SetBalance() && p.x == HitOne(balance, note)
  }

  /** Whatever a trigger makes of the written balance and note, the apply commits. */
  lemma SomeApply(rel: Relation, balance: int, note: int) returns (p: Applied)
    ensures Example(p, rel, balance, note)
  {
    AccountsWellFormed(0, 0);
    SetBalanceHits(balance, note);
    AnswersCommit(rel);
    var was, hit := Accounts(0, 0), Accounts(balance, note);
    NothingAdded(Update, map[rel := was][rel := hit], [], rel);
    p := OneHitApply(
      rel, JobOf(rel, Update, ONE_UPDATE), was, SetBalance(), HitOne(balance, note), hit, AnswersOf(rel), ONE_UPDATE);
  }

  // ------------------------------------------------------------------ the revert

  /** The same row trigger at every statement, and nothing besides. */
  function Always(before: Row -> Option<Row>): Script {
    (_: nat) => Fires(before, [])
  }

  lemma BalanceIntended(balance: int, note: int)
    ensures Intended(Accounts(balance, note), Accounts(0, 0), ["id", "balance"], 1) == Account(0, note)
  {
    var cols := ["id", "balance"];
    assert |"id"| == 2 && |"balance"| == 7 && |"note"| == 4;
    assert cols[1] == "balance";
  }

  lemma StampNotSelected()
    ensures RELATION_STAMP !in SelectList(["balance"])
  {
    BalanceSelected();
    assert |RELATION_STAMP| == 10 && |"id"| == 2 && |"balance"| == 7;
  }

  lemma FirstMissed(t: Table, was: Table, cols: seq<Column>, ids: seq<int>, script: Script)
    requires |ids| > 0 && !Recovered(t, was, cols, ids[0], script(0))
    ensures !Recovers(t, was, cols, ids, script)
  {
  }

  /** If a trigger makes of the first row about to be restored anything but the old row, the
      revert does not give the table back. */
  lemma MissedRow(p: Applied, was: Table, script: Script)
    requires Committed(p) && OnlyHitsCounted(p) && p.job.kind == Update && RevertLeavesTarget(p, script)
    requires p.db[p.job.relation] == was && RELATION_STAMP !in SelectList(p.stmt.setCols)
    requires |p.x.returned| > 0 && !Recovered(p.hit, was, SelectList(p.stmt.setCols), p.x.returned[0], script(0))
    ensures !GivesBack(p, p.done, script)
  {
    HitStays(p);
    UpdateRoundTrip(p, p.done, script);
    FirstMissed(p.hit, was, SelectList(p.stmt.setCols), p.x.returned, script);
  }

  lemma AlwaysLeavesTarget(p: Applied, before: Row -> Option<Row>)
    ensures RevertLeavesTarget(p, Always(before))
  {
  }

  lemma FirstRowMissed(p: Applied, was: Table, before: Row -> Option<Row>)
    requires Committed(p) && OnlyHitsCounted(p) && p.job.kind == Update
    requires p.db[p.job.relation] == was && RELATION_STAMP !in SelectList(p.stmt.setCols) && |p.x.returned| > 0
    requires !Recovered(p.hit, was, SelectList(p.stmt.setCols), p.x.returned[0], Fires(before, []))
    ensures !GivesBack(p, p.done, Always(before))
  {
    AlwaysLeavesTarget(p, before);
    MissedRow(p, was, Always(before));
  }

  lemma NotRecovered(balance: int, note: int, before: Row -> Option<Row>)
    requires before(Account(0, note)).Some? && before(Account(0, note)).value != Account(0, 0)
    ensures !Recovered(Accounts(balance, note), Accounts(0, 0), SelectList(["balance"]), 1, Fires(before, []))
  {
    BalanceSelected();
    BalanceIntended(balance, note);
  }

  lemma NotGivenBack(p: Applied, rel: Relation, balance: int, note: int, before: Row -> Option<Row>)
    requires Example(p, rel, balance, note)
    requires before(Account(0, note)).Some? && before(Account(0, note)).value != Account(0, 0)
    ensures !GivesBack(p, p.done, Always(before))
  {
    StampNotSelected();
    NotRecovered(balance, note, before);
    FirstRowMissed(p, Accounts(0, 0), before);
  }

  /** An apply whose revert is spoilt by this trigger. */
  lemma SpoiltApply(rel: Relation, balance: int, note: int, before: Row -> Option<Row>) returns (p: Applied)
    requires before(Account(0, note)).Some? && before(Account(0, note)).value != Account(0, 0)
    ensures Example(p, rel, balance, note) && !GivesBack(p, p.done, Always(before))
  {
    p := SomeApply(rel, balance, note);
    NotGivenBack(p, rel, balance, note, before);
  }

  // ------------------------------------------------------------------ no row trigger

  /** The row is written back as it is. */
  function Unchanged(row: Row): Option<Row> {
    Some(row)
  }

  lemma UnchangedPasses(n: nat)
    ensures RowsPass(Always(Unchanged), n)
  {
  }

  lemma CountedUpdateGivenBack(p: Applied, was: Table)
    requires Committed(p) && p.job.kind == Update && OnlyHitsCounted(p)
    requires p.db[p.job.relation] == was && RELATION_STAMP !in SelectList(p.stmt.setCols)
    requires WroteAsAssigned(was, p.stmt, p.x) && AssignsOnlySetColumns(was, p.stmt) && PK_COLUMN !in p.stmt.setCols
    ensures GivesBack(p, p.done, Always(Unchanged))
  {
    AlwaysLeavesTarget(p, Unchanged);
    UnchangedPasses(|p.x.returned|);
    PlainUpdateRoundTrips(p, Always(Unchanged));
  }

  lemma SetBalanceIsPlain()
    ensures WroteAsAssigned(Accounts(0, 0), SetBalance(), HitOne(1, 0))
    ensures AssignsOnlySetColumns(Accounts(0, 0), SetBalance()) && PK_COLUMN !in SetBalance().setCols
  {
    assert |"id"| == 2 && |"balance"| == 7 && |"note"| == 4;
    assert Account(0, 0)["balance" := Int(1)] == Account(1, 0);
  }

  /** On any relation, without row triggers, a committed UPDATE that the revert undoes. */
  lemma PlainUpdateExists(rel: Relation) returns (p: Applied)
    ensures Example(p, rel, 1, 0) && GivesBack(p, p.done, Always(Unchanged))
  {
    SetBalanceIsPlain();
    StampNotSelected();
    p := SomeApply(rel, 1, 0);
    CountedUpdateGivenBack(p, Accounts(0, 0));
  }

  // ------------------------------------------------------------------ a trigger on another column

  /** A BEFORE trigger that sets `note` to 9. */
  function StampNote(row: Row): Option<Row> {
    Some(row["note" := Int(9)])
  }

  lemma StampNoteWrites()
    ensures StampNote(SetBalance().assign(Account(0, 0))) == Some(Account(1, 9))
    ensures StampNote(Account(0, 9)) == Some(Account(0, 9)) && Account(0, 9) != Account(0, 0)
    ensures !OtherCellsKept(Accounts(0, 0), SetBalance(), HitOne(1, 9))
  {
    assert |"id"| == 2 && |"balance"| == 7 && |"note"| == 4;
    assert Account(0, 0)["balance" := Int(1)]["note" := Int(9)] == Account(1, 9);
    assert Account(0, 9)["note" := Int(9)] == Account(0, 9);
    assert Account(0, 9)["note"] != Account(0, 0)["note"];
    var t, x := Accounts(0, 0), HitOne(1, 9);
    assert t.columns[2] == "note" && "note" !in ["balance"];
    assert Cell(x.wrote[1], "note") == Int(9) && Cell(RowAt(t, x.newId[1]), "note") == Int(0);
  }

  /** On any relation, with this trigger: the apply writes a column the SET list does not name,
      which is not captured, and the revert leaves it behind. */
  lemma TriggerDefeatsRoundTrip(rel: Relation) returns (p: Applied)
    ensures StampNote(SetBalance().assign(Account(0, 0))) == Some(Account(1, 9))
    ensures Example(p, rel, 1, 9) && !GivesBack(p, p.done, Always(StampNote))
  {
    StampNoteWrites();
    p := SpoiltApply(rel, 1, 9, StampNote);
  }

  // ------------------------------------------------------------------ a trigger on the captured column

  /** A BEFORE trigger that sets `balance` to 777777. */
  function Hijack(row: Row): Option<Row> {
    Some(row["balance" := Int(777777)])
  }

  lemma HijackWrites()
    ensures Hijack(SetBalance().assign(Account(0, 0))) == Some(Account(777777, 0))
    ensures Hijack(Account(0, 0)) == Some(Account(777777, 0)) && Account(777777, 0) != Account(0, 0)
    ensures OtherCellsKept(Accounts(0, 0), SetBalance(), HitOne(777777, 0))
  {
    assert |"id"| == 2 && |"balance"| == 7 && |"note"| == 4;
    assert Account(0, 0)["balance" := Int(1)]["balance" := Int(777777)] == Account(777777, 0);
    assert Account(0, 0)["balance" := Int(777777)] == Account(777777, 0);
    assert Account(777777, 0)["balance"] != Account(0, 0)["balance"];
    assert "balance" in ["balance"];
  }

  /** On any relation, with this trigger: the apply writes only the captured column, every cell
      outside the SET list is kept and the captured value is the true one; but the restoring
      UPDATE fires the trigger too, and the table is not given back. */
  lemma HijackDefeatsRoundTrip(rel: Relation) returns (p: Applied)
    ensures Hijack(SetBalance().assign(Account(0, 0))) == Some(Account(777777, 0))
    ensures OtherCellsKept(Accounts(0, 0), SetBalance(), HitOne(777777, 0))
    ensures Example(p, rel, 777777, 0) && !GivesBack(p, p.done, Always(Hijack))
  {
    HijackWrites();
    p := SpoiltApply(rel, 777777, 0, Hijack);
  }

  // ------------------------------------------------------------------ a DELETE

  /** `DELETE` of every row. */
  function DeleteAll(): Statement {
    Statement(Delete, [], (_: Row) => true, (row: Row) => row)
  }

  function DeletedOne(): Execution {
    Execution(map[1 := 1], map[], [1], [])
  }

  function NoAccounts(): Table {
    Table(["id", "balance", "note"], map[])
  }

  lemma DeleteAllHits()
    ensures Hits(Accounts(0, 0), DeleteAll(), DeletedOne(), NoAccounts())
  {
    var x, t := DeletedOne(), Accounts(0, 0);
    forall v: int ensures v in NewIds(x.newId) <==> v in {1} {
      assert 1 in x.newId && x.newId[1] == 1;
    }
    assert 1 in Matched(t, DeleteAll());
    assert (t.rows - x.newId.Keys) == map[];
    assert Deletes(t, DeleteAll(), x, NoAccounts());
  }

  lemma DeleteAllCaptured(rel: Relation)
    ensures var forward := PgForward(rel, TYPES, Accounts(0, 0), DeleteAll(), [1]);
            forward.Success? && |forward.value.written| == 1
  {
    var t := Accounts(0, 0);
    ForwardExact(rel, TYPES, t, DeleteAll(), [1]);
    assert 1 in Matched(t, DeleteAll());
    ForwardReports(rel, TYPES, t, DeleteAll(), [1]);
  }

  /** A committed DELETE of the one row. */
  ghost predicate DeleteExample(p: Applied, rel: Relation) {
    && Committed(p) && OnlyHitsCounted(p) && p.job == JobOf(rel, Delete, ONE_DELETE)
    && p.db[rel] == Accounts(0, 0) && p.hit == NoAccounts() && p.stmt == DeleteAll() && p.x == DeletedOne()
  }

  lemma SomeDelete(rel: Relation) returns (p: Applied)
    ensures DeleteExample(p, rel)
  {
    AccountsWellFormed(0, 0);
    DeleteAllHits();
    DeleteAllCaptured(rel);
    var was, answers := Accounts(0, 0), AnswersFor(rel, Accounts(0, 0), DeleteAll(), ONE_DELETE);
    RehearsedOneRow(rel, Delete, ONE_DELETE, answers);
    NothingAdded(Delete, map[rel := was][rel := NoAccounts()], [], rel);
    p := OneHitApply(
      rel, JobOf(rel, Delete, ONE_DELETE), was, DeleteAll(), DeletedOne(), NoAccounts(), answers, ONE_DELETE);
  }

  lemma StampNotAColumn()
    ensures RELATION_STAMP !in SelectList(["id", "balance", "note"])
  {
    assert |RELATION_STAMP| == 10 && |"id"| == 2 && |"balance"| == 7 && |"note"| == 4;
  }

  /** Re-inserting nothing but changed rows does not re-insert the deleted ones. */
  lemma NotReinserted(was: Table, k: int, before: Row -> Option<Row>)
    requires k in was.rows && WellFormed(was) && forall j :: j in was.rows ==> before(was.rows[k]) != Some(was.rows[j])
    ensures !Reinserts(was, [k], Always(before))
  {
    forall keys: seq<int> | Relists(keys, [k]) ensures !AllReinserted(was, [k], Always(before), keys) {
      assert !Reinserted(was, [k][0], Always(before)(0), keys[0]);
    }
  }

  lemma CountedDeleteMissed(p: Applied, was: Table, before: Row -> Option<Row>)
    requires Committed(p) && p.job.kind == Delete && OnlyHitsCounted(p)
    requires RELATION_STAMP !in SelectList(was.columns) && p.db[p.job.relation] == was
    requires !Reinserts(was, p.x.returned, Always(before))
    ensures !GivesBack(p, p.done, Always(before))
  {
    AlwaysLeavesTarget(p, before);
    CountedDeleteRoundTrip(p, Always(before));
  }

  lemma StampedNotReinserted()
    ensures !Reinserts(Accounts(0, 0), [1], Always(StampNote))
  {
    AccountsWellFormed(0, 0);
    assert StampNote(Account(0, 0)).value["note"] != Account(0, 0)["note"];
    NotReinserted(Accounts(0, 0), 1, StampNote);
  }

  /** On any relation: a BEFORE INSERT trigger rewrites the row the revert re-inserts. */
  lemma InsertTriggerDefeatsDelete(rel: Relation) returns (p: Applied)
    ensures DeleteExample(p, rel) && !GivesBack(p, p.done, Always(StampNote))
  {
    p := SomeDelete(rel);
    StampNotAColumn();
    StampedNotReinserted();
    CountedDeleteMissed(p, Accounts(0, 0), StampNote);
  }

  ghost predicate LetsThrough(before: Row -> Option<Row>) {
    forall row :: before(row) == Some(row)
  }

  lemma PassedReinserts(was: Table, ids: seq<int>, before: Row -> Option<Row>)
    requires IdsIn(ids, was) && LetsThrough(before)
    ensures PassesInserts(was, ids, Always(before))
  {
  }

  lemma CountedDeleteGivenBack(p: Applied, was: Table, before: Row -> Option<Row>)
    requires Committed(p) && p.job.kind == Delete && OnlyHitsCounted(p)
    requires RELATION_STAMP !in SelectList(was.columns) && p.db[p.job.relation] == was && LetsThrough(before)
    ensures GivesBack(p, p.done, Always(before))
  {
    ForwardOf(p);
    PassedReinserts(was, p.x.returned, before);
    AlwaysLeavesTarget(p, before);
    PlainDeleteRoundTrips(p, Always(before));
  }

  lemma UndoneDelete(rel: Relation, before: Row -> Option<Row>) returns (p: Applied)
    requires LetsThrough(before)
    ensures DeleteExample(p, rel) && GivesBack(p, p.done, Always(before))
  {
    p := SomeDelete(rel);
    StampNotAColumn();
    CountedDeleteGivenBack(p, Accounts(0, 0), before);
  }

  /** On any relation, without row triggers, a committed DELETE that the revert undoes. */
  lemma PlainDeleteExists(rel: Relation) returns (p: Applied)
    ensures DeleteExample(p, rel) && GivesBack(p, p.done, Always(Unchanged))
  {
    p := UndoneDelete(rel, Unchanged);
  }
}
