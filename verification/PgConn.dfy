/** The PostgreSQL connections of apply and revert (crates/clone-orchestrator/src/conn.rs) and
    the revert driver (crates/clone-orchestrator/src/revert.rs), as objects that change a
    database in memory. */
module PgConn {
  import opened Prelude
  import opened BlastRadius
  import opened Inverse
  import opened ApplyGuards
  import opened PgTable
  import opened RoundTrip
  import opened ApplyRevert

  // ------------------------------------------------------------------ bound parameters

  datatype SqlVal = SqlInt(i: int) | SqlText(s: string) | SqlBytes(b: seq<int>)

  /** `NULL`, or `$n` with or without the `::int8` cast. */
  datatype Placeholder = NullLiteral | Param(n: nat, int8: bool)

  function Concrete(v: Value): seq<SqlVal> {
    match v
    case Int(i) => [SqlInt(i)]
    case Text(s) => [SqlText(s)]
    case Bytes(b) => [SqlBytes(b)]
    case Null => []
  }

  /** How the server reads a placeholder against the bound parameters; a cast must meet an
      integer, and an integer needs its cast. */
  function Resolve(ph: Placeholder, params: seq<SqlVal>): Option<Value> {
    match ph
    case NullLiteral => Some(Null)
    case Param(n, int8) =>
      if n == 0 || n > |params| then None
      else match params[n - 1]
        case SqlInt(i) => if int8 then Some(Int(i)) else None
        case SqlText(s) => if int8 then None else Some(Text(s))
        case SqlBytes(b) => if int8 then None else Some(Bytes(b))
  }

  /** Resolving against more parameters changes nothing already resolved. */
  lemma ResolveKept(ph: Placeholder, params: seq<SqlVal>, more: seq<SqlVal>)
    requires Resolve(ph, params).Some?
    ensures Resolve(ph, params + more) == Resolve(ph, params)
  {
  }

  class BindBuilder {
    var owned: seq<SqlVal>

    constructor ()
      ensures owned == []
    {
      owned := [];
    }

    method Push(v: Value) returns (ph: Placeholder)
      modifies this
      ensures owned == old(owned) + Concrete(v)
      ensures Resolve(ph, owned) == Some(v)
    {
      match v {
        case Null =>
          ph := NullLiteral;
        case _ =>
          owned := owned + Concrete(v);
          ph := Param(|owned|, v.Int?);
      }
    }
  }

  /** The cells a list of columns with placeholders denotes. */
  function ResolveCells(cells: seq<(Column, Placeholder)>, params: seq<SqlVal>): Option<seq<(Column, Value)>> {
    if cells == [] then Some([])
    else
      var init := ResolveCells(cells[..|cells| - 1], params);
      var last := Resolve(cells[|cells| - 1].1, params);
      if init.None? || last.None? then None else Some(init.value + [(cells[|cells| - 1].0, last.value)])
  }

  lemma {:induction false} ResolveCellsExact(
    cells: seq<(Column, Placeholder)>, params: seq<SqlVal>, image: seq<(Column, Value)>)
    requires |cells| == |image|
    requires forall i :: 0 <= i < |cells| ==>
               cells[i].0 == image[i].0 && Resolve(cells[i].1, params) == Some(image[i].1)
    ensures ResolveCells(cells, params) == Some(image)
  {
    if cells != [] {
      ResolveCellsExact(cells[..|cells| - 1], params, image[..|image| - 1]);
      assert image == image[..|image| - 1] + [image[|image| - 1]];
    }
  }

  /** Rendering a captured image is faithful: with nulls anywhere, every placeholder resolves
      against the final parameter list to the value of its own column. */
  method BindImage(image: seq<(Column, Value)>, bind: BindBuilder) returns (cells: seq<(Column, Placeholder)>)
    modifies bind
    ensures |cells| == |image|
    ensures forall i :: 0 <= i < |cells| ==>
              cells[i].0 == image[i].0 && Resolve(cells[i].1, bind.owned) == Some(image[i].1)
    ensures ResolveCells(cells, bind.owned) == Some(image)
  {
    cells := [];
    for i := 0 to |image|
      invariant |cells| == i
      invariant forall j :: 0 <= j < i ==>
                  cells[j].0 == image[j].0 && Resolve(cells[j].1, bind.owned) == Some(image[j].1)
    {
      ghost var before := bind.owned;
      var ph := bind.Push(image[i].1);
      forall j | 0 <= j < i ensures Resolve(cells[j].1, bind.owned) == Some(image[j].1) {
        ResolveKept(cells[j].1, before, Concrete(image[i].1));
      }
      cells := cells + [(image[i].0, ph)];
    }
    ResolveCellsExact(cells, bind.owned, image);
  }

  /** The server runs a rendered UPDATE or INSERT. */
  function ExecuteUpdate(
    t: Table, sets: seq<(Column, Placeholder)>, key: Placeholder, params: seq<SqlVal>, before: Row -> Option<Row>)
    : Result<Table, RevertError>
  {
    var cells, k := ResolveCells(sets, params), Resolve(key, params);
    if cells.None? || k.None? || !k.value.Int? then Failure(RevertBackend)
    else SqlUpdate(t, cells.value, k.value.i, before)
  }

  function ExecuteInsert(t: Table, columns: seq<(Column, Placeholder)>, params: seq<SqlVal>, before: Row -> Option<Row>)
    : Result<Table, RevertError>
  {
    var cells := ResolveCells(columns, params);
    if cells.None? then Failure(RevertBackend) else SqlInsert(t, cells.value, before)
  }

  method DropKey(image: seq<(Column, Value)>) returns (cols: seq<(Column, Value)>)
    ensures cols == NonKey(image)
  {
    cols := [];
    for i := 0 to |image|
      invariant cols == NonKey(image[..i])
    {
      assert image[..i + 1][..i] == image[..i];
      if image[i].0 != PK_COLUMN {
        cols := cols + [image[i]];
      }
    }
    assert image[..|image|] == image;
  }

  /** The body of `restore_update`'s loop: the statement it sends has the effect the captured
      row asks for. */
  method RestoreOneUpdate(t: Table, row: RowImage, before: Row -> Option<Row>) returns (r: Result<Table, RevertError>)
    ensures r == RestoreUpdateRow(t, row, before)
  {
    if row.pk == [] || !row.pk[0].Int? {
      return Failure(RevertBackend);
    }
    var cols := DropKey(row.image);
    if cols == [] {
      return Failure(RevertBackend);
    }
    var bind := new BindBuilder();
    var sets := BindImage(cols, bind);
    ghost var bound := bind.owned;
    var key := bind.Push(row.pk[0]);
    forall i | 0 <= i < |sets| ensures Resolve(sets[i].1, bind.owned) == Some(cols[i].1) {
      ResolveKept(sets[i].1, bound, Concrete(row.pk[0]));
    }
    ResolveCellsExact(sets, bind.owned, cols);
    r := ExecuteUpdate(t, sets, key, bind.owned, before);
  }

  /** The body of `restore_insert`'s loop. */
  method RestoreOneInsert(t: Table, row: RowImage, before: Row -> Option<Row>) returns (r: Result<Table, RevertError>)
    ensures r == RestoreInsertRow(t, row, before)
  {
    if row.image == [] {
      return Failure(RevertBackend);
    }
    var bind := new BindBuilder();
    var columns := BindImage(row.image, bind);
    r := ExecuteInsert(t, columns, bind.owned, before);
  }

  /** One statement of the revert, sent to a server that fires `firing`. */
  method RestoreOne(kind: InverseKind, db: Database, rel: Relation, row: RowImage, firing: Firing)
    returns (r: Result<Database, RevertError>)
    ensures r == RestoreIn(kind, db, rel, row, firing)
  {
    if rel !in db || firing.Raises? {
      return Failure(RevertBackend);
    }
    var table: Result<Table, RevertError>;
    match kind {
      case PreimageUpsert => table := RestoreOneUpdate(db[rel], row, firing.before);
      case Insert => table := RestoreOneInsert(db[rel], row, firing.before);
    }
    if table.Failure? {
      return Failure(table.error);
    }
    return Success(AfterOps(db[rel := table.value], firing.after));
  }

  lemma {:induction false} RestoreErrorSticks(
    kind: InverseKind, db: Database, rel: Relation, i: nat, rows: seq<RowImage>, script: Script, start: nat)
    requires i <= |rows| && RestoreRelation(kind, db, rel, rows[..i], script, start).Failure?
    ensures RestoreRelation(kind, db, rel, rows, script, start) ==
            RestoreRelation(kind, db, rel, rows[..i], script, start)
    decreases |rows|
  {
    if i == |rows| {
      assert rows[..i] == rows;
    } else {
      assert rows[..|rows| - 1][..i] == rows[..i];
      RestoreErrorSticks(kind, db, rel, i, rows[..|rows| - 1], script, start);
    }
  }

  lemma EachStep(
    kind: InverseKind, db: Database, rel: Relation, rows: seq<RowImage>, script: Script, start: nat, i: nat,
    now: Database)
    requires i < |rows| && RestoreRelation(kind, db, rel, rows[..i], script, start) == Success(now)
    ensures RestoreRelation(kind, db, rel, rows[..i + 1], script, start) ==
            RestoreIn(kind, now, rel, rows[i], script(start + i))
  {
    RelationOneMore(kind, db, rel, rows[..i], rows[i], script, start);
    assert rows[..i + 1] == rows[..i] + [rows[i]];
  }

  /** Rows in order, stopping at the first error. */
  method RestoreEach(kind: InverseKind, db: Database, rel: Relation, rows: seq<RowImage>, script: Script, start: nat)
    returns (r: Result<Database, RevertError>)
    ensures r == RestoreRelation(kind, db, rel, rows, script, start)
  {
    var now := db;
    for i := 0 to |rows|
      invariant RestoreRelation(kind, db, rel, rows[..i], script, start) == Success(now)
    {
      EachStep(kind, db, rel, rows, script, start, i, now);
      var next := RestoreOne(kind, now, rel, rows[i], script(start + i));
      if next.Failure? {
        RestoreErrorSticks(kind, db, rel, i + 1, rows, script, start);
        return next;
      }
      now := next.value;
    }
    assert rows[..|rows|] == rows;
    return Success(now);
  }

  // ------------------------------------------------------------------ the revert

  /** How the server answers the revert's COMMIT: done; refused, with nothing committed; or lost,
      committed although the client is told of an error. */
  datatype CommitAnswer = CommitDone | CommitRefused | CommitLost

  class PgRevertConn {
    const script: Script
    const beginOk: bool
    const commitAnswer: CommitAnswer
    var db: Database
    var saved: Database
    var inTxn: bool
    var sent: nat

    constructor (db: Database, script: Script, beginOk: bool, commitAnswer: CommitAnswer)
      ensures this.db == db && !inTxn && sent == 0
      ensures this.script == script && this.beginOk == beginOk && this.commitAnswer == commitAnswer
    {
      this.script, this.beginOk, this.commitAnswer := script, beginOk, commitAnswer;
      this.db, saved, inTxn, sent := db, db, false, 0;
    }

    method Begin() returns (ok: bool)
      modifies this
      ensures ok == beginOk && db == old(db) && sent == old(sent)
      ensures inTxn == (ok || old(inTxn)) && saved == if ok then old(db) else old(saved)
    {
      if beginOk {
        saved, inTxn := db, true;
      }
      return beginOk;
    }

    /** `restore_update` or `restore_insert`: rows in order, stopping at the first error. */
    method Restore(kind: InverseKind, rel: Relation, rows: seq<RowImage>) returns (failure: Option<RevertError>)
      modifies this
      ensures saved == old(saved) && inTxn == old(inTxn)
      ensures RestoreRelation(kind, old(db), rel, rows, script, old(sent)) ==
              if failure.None? then Success(db) else Failure(failure.value)
      ensures failure.None? ==> sent == old(sent) + |rows|
    {
      var restored := RestoreEach(kind, db, rel, rows, script, sent);
      if restored.Failure? {
        return Some(restored.error);
      }
      db, sent := restored.value, sent + |rows|;
      return None;
    }

    method Commit() returns (ok: bool)
      modifies this
      ensures ok == commitAnswer.CommitDone?
      ensures db == if commitAnswer.CommitRefused? then old(saved) else old(db)
      ensures ok ==> !inTxn
    {
      if commitAnswer.CommitDone? {
        inTxn := false;
      } else if commitAnswer.CommitRefused? {
        db := saved;
      }
      return commitAnswer.CommitDone?;
    }

    /** Safe to call twice: outside a transaction it does nothing. */
    method Rollback()
      modifies this
      ensures db == (if old(inTxn) then old(saved) else old(db)) && !inTxn
    {
      if inTxn {
        db, inTxn := saved, false;
      }
    }
  }

  lemma {:induction false} RestoreAllErrorSticks(
    kind: InverseKind, db: Database, i: nat, order: seq<Relation>, routed: Routed, script: Script)
    requires i <= |order| && RestoreAll(kind, db, order[..i], routed, script).Failure?
    ensures RestoreAll(kind, db, order, routed, script) == RestoreAll(kind, db, order[..i], routed, script)
    decreases |order|
  {
    if i == |order| {
      assert order[..i] == order;
    } else {
      assert order[..|order| - 1][..i] == order[..i];
      RestoreAllErrorSticks(kind, db, i, order[..|order| - 1], routed, script);
    }
  }

  lemma AllOneMore(kind: InverseKind, db: Database, order: seq<Relation>, rel: Relation, routed: Routed, script: Script)
    ensures Statements(order + [rel], routed) == Statements(order, routed) + |RowsAt(routed, rel)|
    ensures var earlier := RestoreAll(kind, db, order, routed, script);
            RestoreAll(kind, db, order + [rel], routed, script) ==
            if earlier.Failure? then earlier
            else RestoreRelation(kind, earlier.value, rel, RowsAt(routed, rel), script, Statements(order, routed))
  {
    assert (order + [rel])[..|order|] == order;
  }

  /** `revert_body`. */
  method RevertBody(plan: InversePlan, routed: Routed, conn: PgRevertConn) returns (failure: Option<RevertError>)
    requires conn.sent == 0
    modifies conn
    ensures conn.saved == old(conn.saved) && conn.inTxn == old(conn.inTxn)
    ensures RestoreAll(plan.kind, old(conn.db), plan.fkOrder, routed, conn.script) ==
            if failure.None? then Success(conn.db) else Failure(failure.value)
  {
    var order := plan.fkOrder;
    ghost var was := conn.db;
    for i := 0 to |order|
      invariant conn.saved == old(conn.saved) && conn.inTxn == old(conn.inTxn)
      invariant conn.sent == Statements(order[..i], routed)
      invariant RestoreAll(plan.kind, was, order[..i], routed, conn.script) == Success(conn.db)
    {
      AllOneMore(plan.kind, was, order[..i], order[i], routed, conn.script);
      assert order[..i + 1] == order[..i] + [order[i]];
      failure := conn.Restore(plan.kind, order[i], RowsAt(routed, order[i]));
      if failure.Some? {
        RestoreAllErrorSticks(plan.kind, was, i + 1, order, routed, conn.script);
        return;
      }
    }
    assert order[..|order|] == order;
    failure := None;
  }

  /** The database after a revert, and whether it reports success. */
  function RevertOutcome(plan: InversePlan, db: Database, script: Script, beginOk: bool, commit: CommitAnswer)
    : (Database, bool)
  {
    match Reverted(plan, db, script)
    case Failure(_) => (db, false)
    case Success(restored) =>
      if !beginOk || commit.CommitRefused? then (db, false) else (restored, commit.CommitDone?)
  }

  /** `revert`: all of the plan or none of it, whatever the server answers; an error reported
      means none of it, unless the answer to the COMMIT was lost. */
  method Revert(plan: InversePlan, conn: PgRevertConn) returns (failure: Option<RevertError>)
    requires conn.sent == 0 && !conn.inTxn
    modifies conn
    ensures (conn.db, failure.None?) == RevertOutcome(plan, old(conn.db), conn.script, conn.beginOk, conn.commitAnswer)
    ensures Reverted(plan, old(conn.db), conn.script).Failure? && conn.beginOk ==>
            failure == Some(Reverted(plan, old(conn.db), conn.script).error)
    ensures conn.db == old(conn.db) || Reverted(plan, old(conn.db), conn.script) == Success(conn.db)
    ensures failure.None? <==>
            Reverted(plan, old(conn.db), conn.script).Success? && conn.beginOk && conn.commitAnswer.CommitDone?
    ensures failure.None? ==> Reverted(plan, old(conn.db), conn.script) == Success(conn.db)
    ensures failure.Some? && !conn.commitAnswer.CommitLost? ==> conn.db == old(conn.db)
  {
    var routed := RouteRows(plan);
    if routed.Failure? {
      return Some(routed.error);
    }
    var begun := conn.Begin();
    if !begun {
      return Some(RevertBackend);
    }
    failure := RevertBody(plan, routed.value, conn);
    if failure.Some? {
      conn.Rollback();
      return;
    }
    var committed := conn.Commit();
    if !committed {
      return Some(RevertBackend);
    }
  }

  // ------------------------------------------------------------------ the apply

  /** Building the select list in order, without repeats. */
  method BuildSelectList(cols: seq<Column>) returns (r: seq<Column>)
    ensures r == SelectList(cols)
  {
    r := [PK_COLUMN];
    for i := 0 to |cols|
      invariant r == SelectList(cols[..i])
    {
      assert cols[..i + 1][..i] == cols[..i];
      if cols[i] != PK_COLUMN && cols[i] !in r {
        r := r + [cols[i]];
      }
    }
    assert cols[..|cols|] == cols;
  }

  ghost predicate SameImages(p: map<int, seq<(Column, Value)>>, q: map<int, seq<(Column, Value)>>) {
    forall k :: (k in p <==> k in q) && (k in p ==> p[k] == q[k])
  }

  lemma {:induction false} WrittenSame(
    relation: Relation, int4Key: bool, p: map<int, seq<(Column, Value)>>, q: map<int, seq<(Column, Value)>>,
    returned: seq<int>)
    requires SameImages(p, q)
    ensures Written(relation, int4Key, p, returned) == Written(relation, int4Key, q, returned)
  {
    if returned != [] {
      WrittenSame(relation, int4Key, p, q, returned[..|returned| - 1]);
    }
  }

  /** `selected` are the keys the locking SELECT returned: those of the matched rows. A type the
      connection cannot read shows at the first row. */
  method CapturePreimages(types: Types, t: Table, stmt: Statement, selected: seq<int>, cols: seq<Column>)
    returns (r: Result<map<int, seq<(Column, Value)>>, ApplyError>)
    requires forall k :: k in selected <==> k in Matched(t, stmt)
    requires cols == SelectList(ImageColumns(t, stmt))
    ensures Matched(t, stmt) != {} && ReadFault(types, cols).Some? ==> r == Failure(ReadFault(types, cols).value)
    ensures Matched(t, stmt) == {} || ReadFault(types, cols).None? ==>
            r.Success? && SameImages(r.value, Snapshot(t, stmt))
  {
    NoneSelected(t, stmt, selected);
    var fault := ReadFault(types, cols);
    if selected != [] && fault.Some? {
      return Failure(fault.value);
    }
    var preimage := CaptureSelected(t, stmt, selected, cols);
    return Success(preimage);
  }

  lemma NoneSelected(t: Table, stmt: Statement, selected: seq<int>)
    requires forall k :: k in selected <==> k in Matched(t, stmt)
    ensures selected == [] <==> Matched(t, stmt) == {}
  {
    if selected == [] {
      if Matched(t, stmt) != {} {
        var k := PickAny(Matched(t, stmt));
        assert false;
      }
    } else {
      var k: int := selected[0];
      assert k in selected;
      assert k in Matched(t, stmt);
    }
  }

  method CaptureSelected(t: Table, stmt: Statement, selected: seq<int>, cols: seq<Column>)
    returns (preimage: map<int, seq<(Column, Value)>>)
    requires forall k :: k in selected <==> k in Matched(t, stmt)
    requires cols == SelectList(ImageColumns(t, stmt))
    ensures SameImages(preimage, Snapshot(t, stmt))
  {
    preimage := map[];
    for i := 0 to |selected|
      invariant forall k :: k in preimage <==> k in selected[..i]
      invariant forall k :: k in preimage ==> preimage[k] == ImageOf(RowAt(t, k), cols)
    {
      assert selected[..i + 1] == selected[..i] + [selected[i]];
      preimage := preimage[selected[i] := ImageOf(RowAt(t, selected[i]), cols)];
    }
    assert selected[..|selected|] == selected;
  }

  lemma {:induction false} WrittenErrorSticks(
    relation: Relation, int4Key: bool, preimage: map<int, seq<(Column, Value)>>, i: nat, returned: seq<int>)
    requires i <= |returned| && Written(relation, int4Key, preimage, returned[..i]).Failure?
    ensures Written(relation, int4Key, preimage, returned) == Written(relation, int4Key, preimage, returned[..i])
    decreases |returned|
  {
    if i == |returned| {
      assert returned[..i] == returned;
    } else {
      assert returned[..|returned| - 1][..i] == returned[..i];
      WrittenErrorSticks(relation, int4Key, preimage, i, returned[..|returned| - 1]);
    }
  }

  method CollectWritten(
    relation: Relation, int4Key: bool, preimage: map<int, seq<(Column, Value)>>, returned: seq<int>)
    returns (r: Result<seq<RowImage>, ApplyError>)
    ensures r == Written(relation, int4Key, preimage, returned)
  {
    var written: seq<RowImage> := [];
    for i := 0 to |returned|
      invariant Written(relation, int4Key, preimage, returned[..i]) == Success(written)
    {
      assert returned[..i + 1][..i] == returned[..i];
      if !int4Key || returned[i] !in preimage {
        WrittenErrorSticks(relation, int4Key, preimage, i + 1, returned);
        return Failure(if !int4Key then NON_INT4_KEY else MissingPreImage(relation, [Int(returned[i])]));
      }
      written := written + [RowImage([Int(returned[i])], preimage[returned[i]])];
    }
    assert returned[..|returned|] == returned;
    return Success(written);
  }

  class PgApplyConn {
    var db: Database
    var saved: Database
    var inTxn: bool
    var stats: Stats
    var xactBaseline: Stats

    constructor (db: Database, stats: Stats)
      ensures this.db == db && this.stats == stats && !inTxn
    {
      this.db, saved, inTxn := db, db, false;
      this.stats, xactBaseline := stats, map[];
    }

    method Begin()
      modifies this
      ensures db == saved == old(db) && inTxn
      ensures stats == xactBaseline == old(stats)
    {
      saved, inTxn, xactBaseline := db, true, stats;
    }

    /** `apply_forward`. What the server does is given: the keys its SELECT reads, its
        execution of the statement, and the counters afterwards. */
    method ApplyForward(
      relation: Relation, types: Types, stmt: Statement, selected: seq<int>, x: Execution, hit: Table, after: Stats)
      returns (r: Result<ForwardResult, ApplyError>)
      requires relation in db && WellFormed(db[relation]) && Hits(db[relation], stmt, x, hit)
      requires forall k :: k in selected <==> k in Matched(db[relation], stmt)
      modifies this
      ensures r == PgForward(relation, types, old(db[relation]), stmt, x.returned)
      ensures saved == old(saved) && inTxn == old(inTxn) && xactBaseline == old(xactBaseline)
      ensures r.Success? ==> db == AfterOps(old(db)[relation := hit], x.side) && stats == after
    {
      var t := db[relation];
      var cols := BuildSelectList(ImageColumns(t, stmt));
      if exists c :: c in cols && c !in t.columns {
        return Failure(UNKNOWN_COLUMN);
      }
      var preimage := CapturePreimages(types, t, stmt, selected, cols);
      if preimage.Failure? {
        return Failure(preimage.error);
      }
      db := AfterOps(db[relation := hit], x.side);
      stats := after;
      var written := CollectWritten(relation, types.int4Key, preimage.value, x.returned);
      WrittenSame(relation, types.int4Key, preimage.value, Snapshot(t, stmt), x.returned);
      if written.Failure? {
        return Failure(written.error);
      }
      return Success(ForwardResult(written.value, map[], if stmt.kind == Update then stmt.setCols else []));
    }

    method XactTupleDeltas() returns (out: seq<RelationChange>)
      ensures out == PgDeltas(stats, xactBaseline)
    {
      out := ReadDeltas(stats, xactBaseline);
    }

    method Commit()
      modifies this
      ensures db == old(db) && !inTxn
    {
      inTxn := false;
    }

    /** The database is exactly what it was at `begin`; a second call does nothing. */
    method Rollback()
      modifies this
      ensures db == (if old(inTxn) then old(saved) else old(db)) && !inTxn
    {
      if inTxn {
        db, inTxn := saved, false;
      }
    }
  }
}
