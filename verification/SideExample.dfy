/** A committed UPDATE and a committed DELETE of one row whose AFTER trigger updates a second row
    of the target. The rehearsal counted both changes and so does the apply, but only the first
    row is captured: every guard passes, and the revert leaves the second row as the trigger
    wrote it. */
module SideExample {
  import opened Prelude
  import opened BlastRadius
  import opened Inverse
  import opened ApplyGuards
  import opened ApplyEngine
  import opened PgTable
  import opened RoundTrip
  import opened ApplyRevert
  import opened TriggerExample

  function Wallet(id: int, balance: int): Row {
    map["id" := Int(id), "balance" := Int(balance)]
  }

  function Wallets(first: int, second: int): Table {
    Table(["id", "balance"], map[1 := Wallet(1, first), 2 := Wallet(2, second)])
  }

  /** `SET balance = 1 WHERE id = 1`. */
  function SetFirst(): Statement {
    Statement(Update, ["balance"], (row: Row) => Cell(row, "id") == Int(1), (row: Row) => row["balance" := Int(1)])
  }

  /** The first row is hit; then a trigger sets the balance of the second to 1. */
  function HitFirst(rel: Relation): Execution {
    Execution(map[1 := 1], map[1 := Wallet(1, 1)], [1], [UpdateRow(rel, 2, 2, Wallet(2, 1))])
  }

  lemma WalletsWellFormed(first: int, second: int)
    ensures WellFormed(Wallets(first, second))
    ensures FitsAt(Wallets(first, second), Wallet(1, first), 1) && FitsAt(Wallets(first, second), Wallet(2, second), 2)
  {
    var t := Wallets(first, second);
    assert |"id"| == 2 && |"balance"| == 7;
    assert t.columns[0] == PK_COLUMN && t.columns[1] == "balance";
  }

  lemma FirstMatched()
    ensures Matched(Wallets(0, 0), SetFirst()) == {1}
  {
    var t, stmt := Wallets(0, 0), SetFirst();
    assert |"id"| == 2 && |"balance"| == 7;
    forall k: int ensures k in Matched(t, stmt) <==> k in {1} {
    }
  }

  lemma FirstAssigned()
    ensures SetFirst().assign(Wallet(1, 0)) == Wallet(1, 1)
  {
    assert |"id"| == 2 && |"balance"| == 7;
    assert Wallet(1, 0)["balance" := Int(1)] == Wallet(1, 1);
  }

  lemma FirstHit(rel: Relation)
    ensures Hits(Wallets(0, 0), SetFirst(), HitFirst(rel), Wallets(1, 0))
  {
    WalletsWellFormed(1, 0);
    FirstMatched();
    var x := HitFirst(rel);
    forall v: int ensures v in NewIds(x.newId) <==> v in {1} {
      assert 1 in x.newId && x.newId[1] == 1;
    }
    assert NewIds(x.newId) == {1};
    assert Updates(Wallets(0, 0), SetFirst(), x, Wallets(1, 0));
  }

  lemma FirstCaptured(rel: Relation)
    ensures var forward := PgForward(rel, TYPES, Wallets(0, 0), SetFirst(), [1]);
            forward.Success? && ColumnsCovered(Update, forward.value) && |forward.value.written| == 1
  {
    BalanceSelected();
    FirstMatched();
    var t := Wallets(0, 0);
    assert t.columns[0] == "id" && t.columns[1] == "balance";
    ForwardExact(rel, TYPES, t, SetFirst(), [1]);
    ForwardReports(rel, TYPES, t, SetFirst(), [1]);
    FirstCovered(PgForward(rel, TYPES, t, SetFirst(), [1]).value);
  }

  lemma FirstCovered(forward: ForwardResult)
    requires forward.written == CaptureAll(Wallets(0, 0), ["id", "balance"], [1])
             && forward.writtenColumns == ["balance"]
    ensures ColumnsCovered(Update, forward)
  {
    var row := forward.written[0];
    assert row.image[1].0 == "balance" && |"balance"| != |PK_COLUMN|;
    assert ApplyGuards.Captures(row, "balance");
    assert RowColumnsCovered(forward, row);
  }

  // ------------------------------------------------------------------ one side update, on any apply

  lemma TallyOneMore(db: Database, ops: seq<RowOp>, op: RowOp, rel: Relation)
    ensures TallyAll(db, ops + [op], rel) == Plus(TallyAll(db, ops, rel), TallyOf(AfterOps(db, ops), op, rel))
  {
    assert (ops + [op])[..|ops|] == ops;
  }

  /** The statement's one change and an update besides. */
  function WithOneUpdate(kind: WriteKind): Few {
    match kind
    case Update => OpCounts(0, 2, 0)
    case Delete => OpCounts(0, 1, 1)
  }

  lemma UpdateTally(db: Database, op: RowOp, rel: Relation)
    requires op.UpdateRow? && op.relation == rel && Effective(db, op)
    ensures TallyOf(db, op, rel) == Tally(0, 1, 0)
  {
  }

  lemma OneMoreUpdate(kind: WriteKind, earlier: Tally, more: Tally)
    requires SideAddsUp(kind, earlier, OpCountsOf(kind, 1)) && more == Tally(0, 1, 0)
    ensures SideAddsUp(kind, Plus(earlier, more), WithOneUpdate(kind))
  {
  }

  lemma UpdateTallied(kind: WriteKind, db: Database, ops: seq<RowOp>, op: RowOp, rel: Relation)
    requires SideAddsUp(kind, TallyAll(db, ops, rel), OpCountsOf(kind, 1))
    requires op.UpdateRow? && op.relation == rel && Effective(AfterOps(db, ops), op)
    ensures SideAddsUp(kind, TallyAll(db, ops + [op], rel), WithOneUpdate(kind))
  {
    TallyOneMore(db, ops, op, rel);
    UpdateTally(AfterOps(db, ops), op, rel);
    OneMoreUpdate(kind, TallyAll(db, ops, rel), TallyOf(AfterOps(db, ops), op, rel));
  }

  lemma OneUpdateTallied(kind: WriteKind, db: Database, op: RowOp, rel: Relation)
    requires op.UpdateRow? && op.relation == rel && Effective(db, op)
    ensures SideAddsUp(kind, TallyAll(db, [op], rel), WithOneUpdate(kind))
  {
    NothingAdded(kind, db, [], rel);
    UpdateTallied(kind, db, [], op, rel);
    assert [] + [op] == [op];
  }

  lemma OneOpPerformed(db: Database, op: RowOp)
    ensures AfterOps(db, [op]) == Perform(db, op)
  {
    OpsOneMore(db, [], op);
    assert [] + [op] == [op];
  }

  lemma RowRewritten(db: Database, rel: Relation, k: int, row: Row)
    requires rel in db && k in db[rel].rows
    ensures Perform(db, UpdateRow(rel, k, k, row)) == db[rel := db[rel].(rows := db[rel].rows[k := row])]
  {
    assert (db[rel].rows - {k})[k := row] == db[rel].rows[k := row];
  }

  /** Triggers made one change to the target: they wrote row `k`. */
  ghost predicate SideUpdates(p: Applied, k: int, row: Row) {
    p.x.side == [UpdateRow(p.job.relation, k, k, row)] && k in p.hit.rows
  }

  lemma SideWritten(p: Applied, k: int, row: Row)
    requires Ran(p) && SideUpdates(p, k, row)
    ensures p.job.relation in p.done && p.done[p.job.relation] == p.hit.(rows := p.hit.rows[k := row])
  {
    RowWritten(p.db[p.job.relation := p.hit], p.x.side, p.job.relation, k, row);
  }

  lemma RowWritten(db: Database, ops: seq<RowOp>, rel: Relation, k: int, row: Row)
    requires ops == [UpdateRow(rel, k, k, row)] && rel in db && k in db[rel].rows
    ensures AfterOps(db, ops) == db[rel := db[rel].(rows := db[rel].rows[k := row])]
  {
    OneOpPerformed(db, UpdateRow(rel, k, k, row));
    RowRewritten(db, rel, k, row);
  }

  lemma SideLater(p: Applied, k: int, row: Row)
    requires Committed(p) && SideUpdates(p, k, row) && FitsAt(p.hit, row, k) && RELATION_STAMP !in Captured(p)
    ensures Later(p, p.done)
  {
    SideWritten(p, k, row);
    HitIsWellFormed(Target(p), p.stmt, p.x, p.hit);
    WrittenWellFormed(p.hit, k, row);
  }

  lemma UnrestoredDiffers(t: Table, was: Table, cols: seq<Column>, ids: seq<int>, script: Script, k: int)
    requires k in t.rows && k in was.rows && k !in ids && t.rows[k] != was.rows[k]
    ensures !Recovers(t, was, cols, ids, script)
  {
  }

  lemma StrangeRow(t: Table, was: Table, ids: seq<int>, script: Script, k: int)
    requires k in t.rows && k in was.rows && t.rows[k] != was.rows[k]
    ensures !Completes(t, was, ids, script)
  {
  }

  /** Whatever row triggers the revert fires, a row that triggers of the apply changed and the
      statement did not return is not given back, after an UPDATE or a DELETE. */
  lemma SideUpdateStays(p: Applied, k: int, row: Row, script: Script)
    requires Committed(p) && SideUpdates(p, k, row) && FitsAt(p.hit, row, k)
    requires RELATION_STAMP !in Captured(p) && RevertLeavesTarget(p, script)
    requires k in Target(p).rows && k !in p.x.returned && row != Target(p).rows[k]
    ensures !GivesBack(p, p.done, script)
  {
    SideLater(p, k, row);
    SideWritten(p, k, row);
    match p.job.kind
    case Update =>
      UpdateRoundTrip(p, p.done, script);
      UnrestoredDiffers(p.done[p.job.relation], Target(p), Captured(p), p.x.returned, script, k);
    case Delete =>
      DeleteRoundTrip(p, p.done, script);
      StrangeRow(p.done[p.job.relation], Target(p), p.x.returned, script, k);
  }

  /** An apply of one row, with one side update that the rehearsal counted too, commits. */
  lemma SideApply(rel: Relation, was: Table, stmt: Statement, x: Execution, hit: Table, k: int, row: Row, counts: Few)
    returns (p: Applied)
    requires WellFormed(was) && Hits(was, stmt, x, hit) && |x.newId| == 1 && x.returned == [1]
    requires x.side == [UpdateRow(rel, k, k, row)] && k in hit.rows && counts == WithOneUpdate(stmt.kind)
    requires var forward := PgForward(rel, TYPES, was, stmt, [1]);
             forward.Success? && ColumnsCovered(stmt.kind, forward.value) && |forward.value.written| == 1
    ensures Committed(p) && p.job == JobOf(rel, stmt.kind, counts)
    ensures rel in p.db && p.db[rel] == was && p.hit == hit && p.stmt == stmt && p.x == x
    ensures p.baseline == map[] && p.after == StatsAfter(rel, counts)
  {
    var answers := AnswersFor(rel, was, stmt, counts);
    RehearsedOneRow(rel, stmt.kind, counts, answers);
    OneUpdateTallied(stmt.kind, map[rel := was][rel := hit], UpdateRow(rel, k, k, row), rel);
    p := OneHitApply(rel, JobOf(rel, stmt.kind, counts), was, stmt, x, hit, answers, counts);
  }

  // ------------------------------------------------------------------ an UPDATE

  /** A committed `SET balance = 1 WHERE id = 1` that rewrote the second row too. */
  ghost predicate SideExample(p: Applied, rel: Relation) {
    && Committed(p) && p.job == JobOf(rel, Update, WithOneUpdate(Update))
    && p.db[rel] == Wallets(0, 0) && p.hit == Wallets(1, 0) && p.stmt == SetFirst() && p.x == HitFirst(rel)
    && p.after == StatsAfter(rel, WithOneUpdate(Update)) && p.baseline == map[]
  }

  lemma SomeSideApply(rel: Relation) returns (p: Applied)
    ensures SideExample(p, rel)
  {
    WalletsWellFormed(0, 0);
    FirstHit(rel);
    FirstCaptured(rel);
    p := SideApply(
      rel, Wallets(0, 0), SetFirst(), HitFirst(rel), Wallets(1, 0), 2, Wallet(2, 1), WithOneUpdate(Update));
  }

  lemma PlainStatement()
    ensures AssignsOnlySetColumns(Wallets(0, 0), SetFirst()) && PK_COLUMN !in SetFirst().setCols
  {
    assert |"id"| == 2 && |"balance"| == 7;
  }

  lemma FirstWritten(rel: Relation)
    ensures WroteAsAssigned(Wallets(0, 0), SetFirst(), HitFirst(rel))
  {
    FirstAssigned();
  }

  lemma TwoCounted(p: Applied, rel: Relation)
    requires p.job == JobOf(rel, Update, WithOneUpdate(Update))
    requires p.after == StatsAfter(rel, WithOneUpdate(Update)) && p.baseline == map[]
    ensures OnlyKindRecorded(p.job) && TargetDelta(p).upd == 2
  {
  }

  lemma SecondStays(p: Applied, rel: Relation, before: Row -> Option<Row>)
    requires SideExample(p, rel)
    ensures !GivesBack(p, p.done, Always(before))
  {
    StampNotSelected();
    WalletsWellFormed(1, 1);
    assert Wallet(2, 1)["balance"] != Wallet(2, 0)["balance"];
    AlwaysLeavesTarget(p, before);
    SideUpdateStays(p, 2, Wallet(2, 1), Always(before));
  }

  /** On any relation, with no BEFORE trigger at all and `id` not set: the apply commits with
      two updates of the target counted for one row returned, and is not given back even
      when the revert's rows all pass. */
  lemma SideUpdateDefeatsRoundTrip(rel: Relation) returns (p: Applied)
    ensures SideExample(p, rel) && NoRowTriggers(p, Always(Unchanged))
    ensures AssignsOnlySetColumns(Wallets(0, 0), SetFirst()) && PK_COLUMN !in SetFirst().setCols
    ensures OnlyKindRecorded(p.job) && TargetDelta(p).upd == 2 && |p.x.returned| == 1
    ensures !GivesBack(p, p.done, Always(Unchanged))
  {
    PlainStatement();
    p := SomeSideApply(rel);
    FirstWritten(rel);
    UnchangedPasses(|p.x.returned|);
    TwoCounted(p, rel);
    SecondStays(p, rel, Unchanged);
  }

  // ------------------------------------------------------------------ a DELETE

  /** `DELETE WHERE id = 1`. */
  function DeleteFirst(): Statement {
    Statement(Delete, [], (row: Row) => Cell(row, "id") == Int(1), (row: Row) => row)
  }

  /** The first row is deleted; then a trigger sets the balance of the second to 1. */
  function DeletedFirst(rel: Relation): Execution {
    Execution(map[1 := 1], map[], [1], [UpdateRow(rel, 2, 2, Wallet(2, 1))])
  }

  function SecondOnly(): Table {
    Table(["id", "balance"], map[2 := Wallet(2, 0)])
  }

  lemma FirstDeleteMatched()
    ensures Matched(Wallets(0, 0), DeleteFirst()) == {1}
  {
    var t, stmt := Wallets(0, 0), DeleteFirst();
    assert |"id"| == 2 && |"balance"| == 7;
    forall k: int ensures k in Matched(t, stmt) <==> k in {1} {
    }
  }

  lemma FirstDeleted(rel: Relation)
    ensures Hits(Wallets(0, 0), DeleteFirst(), DeletedFirst(rel), SecondOnly())
  {
    FirstDeleteMatched();
    var x, t := DeletedFirst(rel), Wallets(0, 0);
    forall v: int ensures v in NewIds(x.newId) <==> v in {1} {
      assert 1 in x.newId && x.newId[1] == 1;
    }
    assert t.rows - x.newId.Keys == SecondOnly().rows;
    assert Deletes(t, DeleteFirst(), x, SecondOnly());
  }

  lemma FirstDeleteCaptured(rel: Relation)
    ensures var forward := PgForward(rel, TYPES, Wallets(0, 0), DeleteFirst(), [1]);
            forward.Success? && |forward.value.written| == 1
  {
    FirstDeleteMatched();
    var t := Wallets(0, 0);
    assert t.columns[0] == "id";
    ForwardExact(rel, TYPES, t, DeleteFirst(), [1]);
    ForwardReports(rel, TYPES, t, DeleteFirst(), [1]);
  }

  /** A committed `DELETE WHERE id = 1` that rewrote the second row. */
  ghost predicate SideDeleteExample(p: Applied, rel: Relation) {
    && Committed(p) && p.job == JobOf(rel, Delete, WithOneUpdate(Delete))
    && p.db[rel] == Wallets(0, 0) && p.hit == SecondOnly() && p.stmt == DeleteFirst() && p.x == DeletedFirst(rel)
    && p.after == StatsAfter(rel, WithOneUpdate(Delete)) && p.baseline == map[]
  }

  lemma SomeSideDelete(rel: Relation) returns (p: Applied)
    ensures SideDeleteExample(p, rel)
  {
    WalletsWellFormed(0, 0);
    FirstDeleted(rel);
    FirstDeleteCaptured(rel);
    p := SideApply(
      rel, Wallets(0, 0), DeleteFirst(), DeletedFirst(rel), SecondOnly(), 2, Wallet(2, 1), WithOneUpdate(Delete));
  }

  lemma NoStampColumn()
    ensures RELATION_STAMP !in SelectList(["id", "balance"])
  {
    assert |RELATION_STAMP| == 10 && |"id"| == 2 && |"balance"| == 7;
  }

  lemma SecondStaysDeleted(p: Applied, rel: Relation, before: Row -> Option<Row>)
    requires SideDeleteExample(p, rel)
    ensures !GivesBack(p, p.done, Always(before))
  {
    NoStampColumn();
    WalletsWellFormed(1, 1);
    assert Wallet(2, 1)["balance"] != Wallet(2, 0)["balance"];
    AlwaysLeavesTarget(p, before);
    SideUpdateStays(p, 2, Wallet(2, 1), Always(before));
  }

  lemma UpdateAndDeleteCounted(p: Applied, rel: Relation)
    requires p.job == JobOf(rel, Delete, WithOneUpdate(Delete))
    requires p.after == StatsAfter(rel, WithOneUpdate(Delete)) && p.baseline == map[]
    ensures TargetDelta(p).upd == 1 && TargetDelta(p).del == 1
  {
  }

  lemma FirstPasses(p: Applied)
    requires p.x.returned == [1]
    ensures PassesInserts(Wallets(0, 0), p.x.returned, Always(Unchanged))
  {
    PassedReinserts(Wallets(0, 0), p.x.returned, Unchanged);
  }

  /** On any relation: the apply commits with an update of the target counted beside the delete
      of the one row returned, and is not given back even when the re-inserted row passes. */
  lemma SideUpdateDefeatsDelete(rel: Relation) returns (p: Applied)
    ensures SideDeleteExample(p, rel) && PassesInserts(Wallets(0, 0), p.x.returned, Always(Unchanged))
    ensures TargetDelta(p).upd == 1 && TargetDelta(p).del == 1 && |p.x.returned| == 1
    ensures !GivesBack(p, p.done, Always(Unchanged))
  {
    p := SomeSideDelete(rel);
    FirstPasses(p);
    UpdateAndDeleteCounted(p, rel);
    SecondStaysDeleted(p, rel, Unchanged);
  }
}
