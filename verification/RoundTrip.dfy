/** What a revert does to tables, under any row triggers: where it puts things back, and
    exactly when it gives back the table it should. */
module RoundTrip {
  import opened Prelude
  import opened BlastRadius
  import opened Inverse
  import opened ApplyGuards
  import opened PgTable

  // ------------------------------------------------------------------ one relation at a time

  /** A relation's rows restored on its table alone. */
  function RestoreRows(kind: InverseKind, t: Table, rows: seq<RowImage>, script: Script, start: nat)
    : Result<Table, RevertError>
  {
    if rows == [] then Success(t)
    else
      var n := |rows| - 1;
      RestoreNextRow(kind, RestoreRows(kind, t, rows[..n], script, start), rows[n], script(start + n))
  }

  function RestoreNextRow(kind: InverseKind, earlier: Result<Table, RevertError>, row: RowImage, firing: Firing)
    : Result<Table, RevertError>
  {
    if earlier.Failure? then earlier else RestoreRow(kind, earlier.value, row, firing)
  }

  lemma RestoreOneMore(kind: InverseKind, t: Table, rows: seq<RowImage>, row: RowImage, script: Script, start: nat)
    ensures RestoreRows(kind, t, rows + [row], script, start) ==
            RestoreNextRow(kind, RestoreRows(kind, t, rows, script, start), row, script(start + |rows|))
  {
    assert (rows + [row])[..|rows|] == rows;
  }

  /** The row changes triggers make besides, over the first `n` statements. */
  function Sides(script: Script, n: nat): seq<RowOp> {
    if n == 0 then []
    else Sides(script, n - 1) + match script(n - 1) case Raises => [] case Fires(_, after) => after
  }

  ghost predicate OpsAvoid(ops: seq<RowOp>, rel: Relation) {
    forall i :: 0 <= i < |ops| ==> ops[i].relation != rel
  }

  /** No trigger of the first `n` statements writes `rel` besides. */
  ghost predicate SidesAvoid(script: Script, n: nat, rel: Relation) {
    forall i :: 0 <= i < n && script(i).Fires? ==> OpsAvoid(script(i).after, rel)
  }

  lemma OpsOneMore(db: Database, ops: seq<RowOp>, op: RowOp)
    ensures AfterOps(db, ops + [op]) == Perform(AfterOps(db, ops), op)
  {
    assert (ops + [op])[..|ops|] == ops;
  }

  lemma {:induction false} OpsConcat(db: Database, ops: seq<RowOp>, more: seq<RowOp>)
    ensures AfterOps(db, ops + more) == AfterOps(AfterOps(db, ops), more)
  {
    if more == [] {
      assert ops + more == ops;
    } else {
      var init, last := more[..|more| - 1], more[|more| - 1];
      OpsConcat(db, ops, init);
      OpsOneMore(db, ops + init, last);
      assert ops + more == ops + init + [last];
    }
  }

  lemma PerformElsewhere(db: Database, op: RowOp, rel: Relation, t: Table)
    requires rel in db && op.relation != rel
    ensures rel in Perform(db, op) && Perform(db, op)[rel] == db[rel]
    ensures Perform(db[rel := t], op) == Perform(db, op)[rel := t]
  {
    assert op.relation in db ==> Effective(db[rel := t], op) == Effective(db, op);
    if Effective(db, op) {
      var r := op.relation;
      assert db[rel := t][r] == db[r];
      var u := Perform(db, op)[r];
      assert db[rel := t][r := u] == db[r := u][rel := t];
    }
  }

  /** Changes to other relations do not see `rel`, and leave it alone. */
  lemma {:induction false} OpsElsewhere(db: Database, ops: seq<RowOp>, rel: Relation, t: Table)
    requires rel in db && OpsAvoid(ops, rel)
    ensures rel in AfterOps(db, ops) && AfterOps(db, ops)[rel] == db[rel]
    ensures AfterOps(db[rel := t], ops) == AfterOps(db, ops)[rel := t]
  {
    if ops != [] {
      var init := ops[..|ops| - 1];
      OpsElsewhere(db, init, rel, t);
      PerformElsewhere(AfterOps(db, init), ops[|ops| - 1], rel, t);
    }
  }

  /** The database when a relation was restored to `alone`, if it was, over `n` statements. */
  function Beside(db: Database, rel: Relation, alone: Result<Table, RevertError>, script: Script, n: nat)
    : Result<Database, RevertError>
  {
    if alone.Failure? then Failure(alone.error) else Success(AfterOps(db, Sides(script, n))[rel := alone.value])
  }

  lemma RelationOneMore(
    kind: InverseKind, db: Database, rel: Relation, rows: seq<RowImage>, row: RowImage, script: Script, start: nat)
    ensures RestoreRelation(kind, db, rel, rows + [row], script, start) ==
            RestoreNext(kind, RestoreRelation(kind, db, rel, rows, script, start), rel, row, script(start + |rows|))
  {
    assert (rows + [row])[..|rows|] == rows;
  }

  /** A revert of one relation is its table's own restoration beside what triggers do to the
      others: every other relation is what the triggers' changes alone make of it. */
  lemma {:induction false} RestoreSplits(
    kind: InverseKind, db: Database, rel: Relation, rows: seq<RowImage>, script: Script)
    requires rel in db && SidesAvoid(script, |rows|, rel)
    ensures RestoreRelation(kind, db, rel, rows, script, 0) ==
            Beside(db, rel, RestoreRows(kind, db[rel], rows, script, 0), script, |rows|)
  {
    if rows == [] {
      assert db[rel := db[rel]] == db;
    } else {
      var n := |rows| - 1;
      RestoreSplits(kind, db, rel, rows[..n], script);
      assert rows == rows[..n] + [rows[n]];
      RelationOneMore(kind, db, rel, rows[..n], rows[n], script, 0);
      RestoreOneMore(kind, db[rel], rows[..n], rows[n], script, 0);
      SplitStep(kind, db, rel, RestoreRows(kind, db[rel], rows[..n], script, 0), rows[n], script, n);
    }
  }

  lemma SplitStep(
    kind: InverseKind, db: Database, rel: Relation, earlier: Result<Table, RevertError>, row: RowImage,
    script: Script, n: nat)
    requires rel in db && SidesAvoid(script, n + 1, rel)
    ensures var before := Beside(db, rel, earlier, script, n);
            var alone := if earlier.Failure? then earlier else RestoreRow(kind, earlier.value, row, script(n));
            Beside(db, rel, alone, script, n + 1) ==
            if before.Failure? then before else RestoreIn(kind, before.value, rel, row, script(n))
  {
    if earlier.Success? {
      SidesSplit(kind, db, rel, earlier.value, row, script, n);
    }
  }

  lemma SidesSplit(kind: InverseKind, db: Database, rel: Relation, t: Table, row: RowImage, script: Script, n: nat)
    requires rel in db && SidesAvoid(script, n + 1, rel)
    ensures var alone := RestoreRow(kind, t, row, script(n));
            RestoreIn(kind, AfterOps(db, Sides(script, n))[rel := t], rel, row, script(n)) ==
            if alone.Failure? then Failure(alone.error)
            else Success(AfterOps(db, Sides(script, n + 1))[rel := alone.value])
  {
    var alone := RestoreRow(kind, t, row, script(n));
    if alone.Success? {
      var after, sides := script(n).after, Sides(script, n);
      SidesAvoidAll(script, n, rel);
      OpsElsewhere(db, sides, rel, t);
      var mid := AfterOps(db, sides);
      OpsElsewhere(mid, after, rel, alone.value);
      OpsConcat(db, sides, after);
      assert mid[rel := t][rel := alone.value] == mid[rel := alone.value];
    }
  }

  lemma {:induction false} SidesAvoidAll(script: Script, n: nat, rel: Relation)
    requires SidesAvoid(script, n, rel)
    ensures OpsAvoid(Sides(script, n), rel)
  {
    if n > 0 {
      SidesAvoidAll(script, n - 1, rel);
    }
  }

  /** Whatever the triggers do elsewhere, a relation that is neither restored nor written by
      them is left alone. */
  lemma {:induction false} RestoreFrame(
    kind: InverseKind, db: Database, rel: Relation, rows: seq<RowImage>, script: Script, other: Relation)
    requires other != rel && other in db && SidesAvoid(script, |rows|, other)
    ensures var r := RestoreRelation(kind, db, rel, rows, script, 0);
            r.Success? ==> other in r.value && r.value[other] == db[other]
  {
    if rows != [] {
      var n := |rows| - 1;
      RestoreFrame(kind, db, rel, rows[..n], script, other);
      var earlier := RestoreRelation(kind, db, rel, rows[..n], script, 0);
      if earlier.Success? {
        RestoreInFrame(kind, earlier.value, rel, rows[n], script(n), other);
      }
    }
  }

  lemma RestoreInFrame(kind: InverseKind, db: Database, rel: Relation, row: RowImage, firing: Firing, other: Relation)
    requires other != rel && other in db && (firing.Fires? ==> OpsAvoid(firing.after, other))
    ensures var r := RestoreIn(kind, db, rel, row, firing);
            r.Success? ==> other in r.value && r.value[other] == db[other]
  {
    if rel in db && RestoreRow(kind, db[rel], row, firing).Success? {
      var mid := db[rel := RestoreRow(kind, db[rel], row, firing).value];
      OpsElsewhere(mid, firing.after, other, mid[other]);
    }
  }

  // ------------------------------------------------------------------ the captured cells

  /** `row` with the selected non-key cells as they were in `was`. */
  function Overwrite(row: Row, was: Row, cols: seq<Column>): (r: Row)
    ensures r.Keys == row.Keys
  {
    map c | c in row :: if c in cols && c != PK_COLUMN then Cell(was, c) else row[c]
  }

  lemma {:induction false} NonKeyOfImage(was: Row, cols: seq<Column>, c: Column, v: Value)
    ensures (c, v) in NonKey(ImageOf(was, cols)) <==> c in cols && c != PK_COLUMN && v == Cell(was, c)
  {
    if cols != [] {
      var image := ImageOf(was, cols);
      assert image[..|image| - 1] == ImageOf(was, cols[..|cols| - 1]);
      NonKeyOfImage(was, cols[..|cols| - 1], c, v);
    }
  }

  ghost predicate NamesApart(cells: seq<(Column, Value)>) {
    forall i, j :: 0 <= i < j < |cells| ==> cells[i].0 != cells[j].0
  }

  lemma NamesApartOneMore(cells: seq<(Column, Value)>, cell: (Column, Value))
    requires NamesApart(cells) && forall i :: 0 <= i < |cells| ==> cells[i].0 != cell.0
    ensures NamesApart(cells + [cell])
  {
  }

  lemma {:induction false} NonKeyNoRepeats(was: Row, cols: seq<Column>)
    requires Unrepeated(cols)
    ensures NamesApart(NonKey(ImageOf(was, cols)))
  {
    if cols != [] {
      var init, last := cols[..|cols| - 1], cols[|cols| - 1];
      assert cols == init + [last];
      NonKeyNoRepeats(was, init);
      NonKeyOneMore(was, init, last);
      var earlier := NonKey(ImageOf(was, init));
      forall i | 0 <= i < |earlier| ensures earlier[i].0 != last {
        NonKeyOfImage(was, init, earlier[i].0, earlier[i].1);
        assert earlier[i] in earlier;
      }
      NamesApartOneMore(earlier, (last, Cell(was, last)));
      assert earlier + [] == earlier;
    }
  }

  lemma OverwriteOneMore(row: Row, was: Row, cols: seq<Column>, c: Column)
    requires c in row
    ensures Overwrite(row, was, cols + [c]) ==
            if c == PK_COLUMN then Overwrite(row, was, cols) else Overwrite(row, was, cols)[c := Cell(was, c)]
  {
    assert forall d :: d in cols + [c] <==> d in cols || d == c;
  }

  lemma NonKeyOneMore(was: Row, cols: seq<Column>, c: Column)
    ensures NonKey(ImageOf(was, cols + [c])) ==
            NonKey(ImageOf(was, cols)) + (if c == PK_COLUMN then [] else [(c, Cell(was, c))])
  {
    var image := ImageOf(was, cols + [c]);
    assert image[..|image| - 1] == ImageOf(was, cols);
  }

  lemma AssignOneMore(row: Row, cells: seq<(Column, Value)>, cell: (Column, Value))
    ensures Assign(row, cells + [cell]) == Assign(row, cells)[cell.0 := cell.1]
  {
    assert (cells + [cell])[..|cells|] == cells;
  }

  lemma {:induction false} AssignImage(row: Row, was: Row, cols: seq<Column>)
    requires forall c :: c in cols ==> c in row
    ensures Assign(row, NonKey(ImageOf(was, cols))) == Overwrite(row, was, cols)
  {
    if cols == [] {
      assert Overwrite(row, was, cols) == row;
    } else {
      var init, last := cols[..|cols| - 1], cols[|cols| - 1];
      assert cols == init + [last];
      AssignImage(row, was, init);
      OverwriteOneMore(row, was, init, last);
      NonKeyOneMore(was, init, last);
      AssignOneMore(row, NonKey(ImageOf(was, init)), (last, Cell(was, last)));
      assert NonKey(ImageOf(was, init)) + [] == NonKey(ImageOf(was, init));
    }
  }

  /** What an UPDATE's inverse can act on: known distinct columns, one besides the key. */
  ghost predicate Restores(t: Table, cols: seq<Column>) {
    && KnownColumns(t, cols) && Unrepeated(cols)
    && exists c :: c in cols && c != PK_COLUMN
  }

  lemma ImageAssignable(t: Table, was: Row, cols: seq<Column>)
    requires Restores(t, cols)
    ensures var cells := NonKey(ImageOf(was, cols)); Assignable(t, cells) && cells != []
  {
    var cells := NonKey(ImageOf(was, cols));
    NonKeyNoRepeats(was, cols);
    forall i | 0 <= i < |cells| ensures cells[i].0 in t.columns {
      assert cells[i] in cells;
      NonKeyOfImage(was, cols, cells[i].0, cells[i].1);
    }
    var c :| c in cols && c != PK_COLUMN;
    NonKeyOfImage(was, cols, c, Cell(was, c));
  }

  // ------------------------------------------------------------------ restoring an UPDATE

  /** What a row trigger leaves of row `row` when `intended` is about to replace it. */
  function Outcome(before: Row -> Option<Row>, row: Row, intended: Row): Row {
    match before(intended) case None => row case Some(w) => w
  }

  /** The row a restoring UPDATE is about to write at `k`. */
  function Intended(t: Table, was: Table, cols: seq<Column>, k: int): Row {
    Overwrite(RowAt(t, k), RowAt(was, k), cols)
  }

  lemma RestoreUpdateStep(t: Table, was: Table, cols: seq<Column>, k: int, firing: Firing)
    requires WellFormed(t) && Restores(t, cols)
    ensures RestoreRow(PreimageUpsert, t, Capture(was, cols, k), firing) ==
            if firing.Raises? then Failure(RevertBackend)
            else if k !in t.rows then Success(t)
            else match firing.before(Intended(t, was, cols, k))
              case None => Success(t)
              case Some(row) => Rewrite(t, k, row)
  {
    ImageAssignable(t, RowAt(was, k), cols);
    if k in t.rows {
      assert FitsAt(t, t.rows[k], k);
      AssignImage(t.rows[k], RowAt(was, k), cols);
    }
  }

  lemma CaptureOneMore(was: Table, cols: seq<Column>, ids: seq<int>, k: int)
    ensures CaptureAll(was, cols, ids + [k]) == CaptureAll(was, cols, ids) + [Capture(was, cols, k)]
  {
    assert (ids + [k])[..|ids|] == ids;
  }

  lemma UpdateOneMore(t: Table, was: Table, cols: seq<Column>, ids: seq<int>, k: int, script: Script)
    ensures var earlier := RestoreRows(PreimageUpsert, t, CaptureAll(was, cols, ids), script, 0);
            RestoreRows(PreimageUpsert, t, CaptureAll(was, cols, ids + [k]), script, 0) ==
            if earlier.Failure? then earlier
            else RestoreRow(PreimageUpsert, earlier.value, Capture(was, cols, k), script(|ids|))
  {
    CaptureOneMore(was, cols, ids, k);
    RestoreOneMore(PreimageUpsert, t, CaptureAll(was, cols, ids), Capture(was, cols, k), script, 0);
  }

  /** `t` with the captured cells of the rows `ids` put back. */
  ghost function PutBack(t: Table, was: Table, cols: seq<Column>, ids: seq<int>): Table {
    t.(rows := map k | k in t.rows :: if k in ids then Overwrite(t.rows[k], RowAt(was, k), cols) else t.rows[k])
  }

  lemma PutBackWellFormed(t: Table, was: Table, cols: seq<Column>, ids: seq<int>)
    requires WellFormed(t)
    ensures WellFormed(PutBack(t, was, cols, ids))
  {
    var back := PutBack(t, was, cols, ids);
    forall k | k in back.rows ensures FitsAt(back, back.rows[k], k) {
      assert FitsAt(t, t.rows[k], k);
    }
  }

  /** Each firing lets through the row it is about to restore. */
  ghost predicate PassesUpdates(t: Table, was: Table, cols: seq<Column>, ids: seq<int>, script: Script) {
    forall i :: 0 <= i < |ids| ==> PassesAt(t, was, cols, ids[i], script(i))
  }

  ghost predicate PassesAt(t: Table, was: Table, cols: seq<Column>, k: int, firing: Firing) {
    firing.Fires? && (k in t.rows ==> firing.before(Intended(t, was, cols, k)) == Some(Intended(t, was, cols, k)))
  }

  lemma PutBackOneMore(t: Table, was: Table, cols: seq<Column>, ids: seq<int>, k: int)
    requires k !in ids
    ensures var mid := PutBack(t, was, cols, ids);
            && Intended(mid, was, cols, k) == Intended(t, was, cols, k)
            && PutBack(t, was, cols, ids + [k]) ==
               if k in t.rows then mid.(rows := mid.rows[k := Intended(t, was, cols, k)]) else mid
  {
    assert forall j :: j in ids + [k] <==> j in ids || j == k;
    var mid, all := PutBack(t, was, cols, ids), PutBack(t, was, cols, ids + [k]);
    if k in t.rows {
      assert all.rows == mid.rows[k := Intended(t, was, cols, k)];
    } else {
      assert all.rows == mid.rows;
    }
  }

  /** Writing a row in place. */
  lemma RewriteInPlace(t: Table, k: int, row: Row)
    requires k in t.rows && FitsAt(t, row, k)
    ensures Rewrite(t, k, row) == Success(t.(rows := t.rows[k := row]))
  {
    assert (t.rows - {k})[k := row] == t.rows[k := row];
  }

  /** On any table at all, if row triggers let the restored rows through, the inverse of an
      UPDATE puts back exactly the captured cells of the captured rows that still exist. */
  lemma {:induction false} RestoreUpdatesPutBack(t: Table, was: Table, cols: seq<Column>, ids: seq<int>, script: Script)
    requires WellFormed(t) && Restores(t, cols) && Unrepeated(ids) && PassesUpdates(t, was, cols, ids, script)
    ensures RestoreRows(PreimageUpsert, t, CaptureAll(was, cols, ids), script, 0) == Success(PutBack(t, was, cols, ids))
  {
    if ids == [] {
      assert PutBack(t, was, cols, ids).rows == t.rows;
    } else {
      var n := |ids| - 1;
      PassesInit(t, was, cols, ids, script);
      RestoreUpdatesPutBack(t, was, cols, ids[..n], script);
      UpdateOneMore(t, was, cols, ids[..n], ids[n], script);
      PutBackStep(t, was, cols, ids[..n], ids[n], script(n));
    }
  }

  lemma PassesInit(t: Table, was: Table, cols: seq<Column>, ids: seq<int>, script: Script)
    requires ids != [] && Unrepeated(ids) && PassesUpdates(t, was, cols, ids, script)
    ensures var n := |ids| - 1;
            && ids == ids[..n] + [ids[n]] && Unrepeated(ids[..n]) && ids[n] !in ids[..n]
            && PassesUpdates(t, was, cols, ids[..n], script) && PassesAt(t, was, cols, ids[n], script(n))
  {
  }

  lemma PutBackStep(t: Table, was: Table, cols: seq<Column>, ids: seq<int>, k: int, firing: Firing)
    requires WellFormed(t) && Restores(t, cols) && k !in ids && PassesAt(t, was, cols, k, firing)
    ensures RestoreRow(PreimageUpsert, PutBack(t, was, cols, ids), Capture(was, cols, k), firing) ==
            Success(PutBack(t, was, cols, ids + [k]))
  {
    var mid := PutBack(t, was, cols, ids);
    PutBackWellFormed(t, was, cols, ids);
    RestoreUpdateStep(mid, was, cols, k, firing);
    PutBackOneMore(t, was, cols, ids, k);
    if k in t.rows {
      assert FitsAt(t, t.rows[k], k);
      RewriteInPlace(mid, k, Intended(t, was, cols, k));
    }
  }

  /** Off the captured cells, `t` is still what `was` was. */
  ghost predicate AgreesOffCaptures(t: Table, was: Table, cols: seq<Column>, ids: seq<int>) {
    && t.columns == was.columns && t.rows.Keys == was.rows.Keys
    && (forall k :: k in t.rows && k !in ids ==> t.rows[k] == was.rows[k])
    && (forall k, c :: k in t.rows && k in ids && c in t.columns && (c !in cols || c == PK_COLUMN) ==>
          Cell(t.rows[k], c) == Cell(was.rows[k], c))
  }

  /** Putting captured cells back gives the old table exactly when nothing else differs. */
  lemma PutBackIsOldExactly(t: Table, was: Table, cols: seq<Column>, ids: seq<int>)
    requires WellFormed(t) && WellFormed(was)
    ensures PutBack(t, was, cols, ids) == was <==> AgreesOffCaptures(t, was, cols, ids)
  {
    if PutBack(t, was, cols, ids) == was {
      OldPutBackAgrees(t, was, cols, ids);
    }
    if AgreesOffCaptures(t, was, cols, ids) {
      AgreeingPutBackIsOld(t, was, cols, ids);
    }
  }

  lemma OldPutBackAgrees(t: Table, was: Table, cols: seq<Column>, ids: seq<int>)
    requires WellFormed(t) && PutBack(t, was, cols, ids) == was
    ensures AgreesOffCaptures(t, was, cols, ids)
  {
    forall k, c | k in t.rows && k in ids && c in t.columns && (c !in cols || c == PK_COLUMN)
      ensures Cell(t.rows[k], c) == Cell(was.rows[k], c) {
      assert FitsAt(t, t.rows[k], k);
      assert was.rows[k] == Overwrite(t.rows[k], RowAt(was, k), cols);
    }
  }

  lemma AgreeingRowBack(t: Table, was: Table, cols: seq<Column>, ids: seq<int>, k: int)
    requires WellFormed(t) && WellFormed(was) && AgreesOffCaptures(t, was, cols, ids) && k in was.rows
    ensures k in PutBack(t, was, cols, ids).rows && PutBack(t, was, cols, ids).rows[k] == was.rows[k]
  {
    if k in ids {
      assert FitsAt(t, t.rows[k], k) && FitsAt(was, was.rows[k], k);
      RowsAgree(t, was, cols, ids, k);
    }
  }

  lemma AgreeingPutBackIsOld(t: Table, was: Table, cols: seq<Column>, ids: seq<int>)
    requires WellFormed(t) && WellFormed(was) && AgreesOffCaptures(t, was, cols, ids)
    ensures PutBack(t, was, cols, ids) == was
  {
    forall k | k in was.rows
      ensures k in PutBack(t, was, cols, ids).rows && PutBack(t, was, cols, ids).rows[k] == was.rows[k] {
      AgreeingRowBack(t, was, cols, ids, k);
    }
    assert PutBack(t, was, cols, ids).rows == was.rows;
  }

  lemma RowsAgree(t: Table, was: Table, cols: seq<Column>, ids: seq<int>, k: int)
    requires AgreesOffCaptures(t, was, cols, ids) && k in t.rows && k in ids
    requires FitsAt(t, t.rows[k], k) && FitsAt(was, was.rows[k], k)
    ensures Overwrite(t.rows[k], was.rows[k], cols) == was.rows[k]
  {
    var r := Overwrite(t.rows[k], was.rows[k], cols);
    forall c | c in r ensures c in was.rows[k] && r[c] == was.rows[k][c] {
      if c !in cols || c == PK_COLUMN {
        assert Cell(t.rows[k], c) == Cell(was.rows[k], c);
      }
    }
  }


  // ------------------------------------------------------------------ exactly when an UPDATE is undone

  /** The firing turns the row about to be restored at `k` into the old one. */
  ghost predicate Recovered(t: Table, was: Table, cols: seq<Column>, k: int, firing: Firing) {
    firing.Fires? && Outcome(firing.before, RowAt(t, k), Intended(t, was, cols, k)) == RowAt(was, k)
  }

  /** The rows not restored are the old ones, and each firing turns its row into the old one. */
  ghost predicate Recovers(t: Table, was: Table, cols: seq<Column>, ids: seq<int>, script: Script) {
    && t.columns == was.columns && t.rows.Keys == was.rows.Keys
    && (forall k :: k in t.rows && k !in ids ==> t.rows[k] == was.rows[k])
    && AllRecovered(t, was, cols, ids, script)
  }

  ghost predicate AllRecovered(t: Table, was: Table, cols: seq<Column>, ids: seq<int>, script: Script) {
    forall i :: 0 <= i < |ids| ==> Recovered(t, was, cols, ids[i], script(i))
  }

  ghost predicate IdsIn(ids: seq<int>, t: Table) {
    forall i :: 0 <= i < |ids| ==> ids[i] in t.rows
  }

  /** `t` with the rows `ids` as they were. */
  ghost function Mixed(t: Table, was: Table, ids: seq<int>): Table {
    t.(rows := map k | k in t.rows :: if k in ids then RowAt(was, k) else t.rows[k])
  }

  lemma MixedWellFormed(t: Table, was: Table, ids: seq<int>)
    requires WellFormed(t) && WellFormed(was) && t.columns == was.columns && IdsIn(ids, was)
    ensures WellFormed(Mixed(t, was, ids))
  {
    var mixed := Mixed(t, was, ids);
    forall k | k in mixed.rows ensures FitsAt(mixed, mixed.rows[k], k) {
      assert FitsAt(t, t.rows[k], k);
      assert k in was.rows ==> FitsAt(was, was.rows[k], k);
    }
  }

  lemma MixedOneMore(t: Table, was: Table, ids: seq<int>, k: int)
    requires k in t.rows && k !in ids
    ensures var mid := Mixed(t, was, ids);
            RowAt(mid, k) == t.rows[k] && Mixed(t, was, ids + [k]) == mid.(rows := mid.rows[k := RowAt(was, k)])
  {
    assert forall j :: j in ids + [k] <==> j in ids || j == k;
    assert Mixed(t, was, ids + [k]).rows == Mixed(t, was, ids).rows[k := RowAt(was, k)];
  }

  lemma RecoveredStep(t: Table, was: Table, cols: seq<Column>, k: int, firing: Firing)
    requires WellFormed(t) && WellFormed(was) && t.columns == was.columns && Restores(t, cols)
    requires k in was.rows && k in t.rows && Recovered(t, was, cols, k, firing)
    ensures RestoreRow(PreimageUpsert, t, Capture(was, cols, k), firing) ==
            Success(t.(rows := t.rows[k := RowAt(was, k)]))
  {
    RestoreUpdateStep(t, was, cols, k, firing);
    assert FitsAt(was, was.rows[k], k);
    if firing.before(Intended(t, was, cols, k)).Some? {
      RewriteInPlace(t, k, was.rows[k]);
    } else {
      assert t.rows[k := was.rows[k]] == t.rows;
    }
  }

  lemma MixedStepFrom(
    t: Table, was: Table, cols: seq<Column>, k: int, firing: Firing, mid: Table, next: Table)
    requires WellFormed(mid) && WellFormed(was) && mid.columns == was.columns && Restores(mid, cols)
    requires k in was.rows && k in t.rows && k in mid.rows && Recovered(t, was, cols, k, firing)
    requires RowAt(mid, k) == t.rows[k] && next == mid.(rows := mid.rows[k := RowAt(was, k)])
    ensures RestoreRow(PreimageUpsert, mid, Capture(was, cols, k), firing) == Success(next)
  {
    RecoveredStep(mid, was, cols, k, firing);
  }

  lemma MixedStep(t: Table, was: Table, cols: seq<Column>, ids: seq<int>, k: int, firing: Firing)
    requires WellFormed(t) && WellFormed(was) && t.columns == was.columns && Restores(t, cols)
    requires IdsIn(ids, was) && k in was.rows && k in t.rows && k !in ids && Recovered(t, was, cols, k, firing)
    ensures RestoreRow(PreimageUpsert, Mixed(t, was, ids), Capture(was, cols, k), firing) ==
            Success(Mixed(t, was, ids + [k]))
  {
    MixedWellFormed(t, was, ids);
    MixedOneMore(t, was, ids, k);
    MixedStepFrom(t, was, cols, k, firing, Mixed(t, was, ids), Mixed(t, was, ids + [k]));
  }

  lemma IdsInit(ids: seq<int>, t: Table, was: Table, cols: seq<Column>, script: Script)
    requires ids != [] && Unrepeated(ids) && IdsIn(ids, was) && AllRecovered(t, was, cols, ids, script)
    ensures var n := |ids| - 1;
            && ids == ids[..n] + [ids[n]] && Unrepeated(ids[..n]) && IdsIn(ids[..n], was) && ids[n] !in ids[..n]
            && AllRecovered(t, was, cols, ids[..n], script) && Recovered(t, was, cols, ids[n], script(n))
  {
  }

  lemma {:induction false} RecoveredRowsMix(t: Table, was: Table, cols: seq<Column>, ids: seq<int>, script: Script)
    requires WellFormed(t) && WellFormed(was) && t.columns == was.columns && Restores(t, cols)
    requires t.rows.Keys == was.rows.Keys && Unrepeated(ids) && IdsIn(ids, was)
    requires AllRecovered(t, was, cols, ids, script)
    ensures RestoreRows(PreimageUpsert, t, CaptureAll(was, cols, ids), script, 0) == Success(Mixed(t, was, ids))
  {
    if ids == [] {
      assert Mixed(t, was, ids).rows == t.rows;
    } else {
      var n := |ids| - 1;
      IdsInit(ids, t, was, cols, script);
      RecoveredRowsMix(t, was, cols, ids[..n], script);
      UpdateOneMore(t, was, cols, ids[..n], ids[n], script);
      MixedStep(t, was, cols, ids[..n], ids[n], script(n));
    }
  }

  lemma MixedIsOld(t: Table, was: Table, ids: seq<int>)
    requires t.columns == was.columns && t.rows.Keys == was.rows.Keys
    requires forall k :: k in t.rows && k !in ids ==> t.rows[k] == was.rows[k]
    ensures Mixed(t, was, ids) == was
  {
    var mixed := Mixed(t, was, ids);
    forall k: int ensures k in mixed.rows <==> k in was.rows {
    }
    forall k | k in mixed.rows ensures mixed.rows[k] == was.rows[k] {
    }
    assert mixed.rows == was.rows;
  }

  lemma RecoversRestores(t: Table, was: Table, cols: seq<Column>, ids: seq<int>, script: Script)
    requires WellFormed(t) && WellFormed(was) && Restores(t, cols) && Unrepeated(ids) && IdsIn(ids, was)
    requires Recovers(t, was, cols, ids, script)
    ensures RestoreRows(PreimageUpsert, t, CaptureAll(was, cols, ids), script, 0) == Success(was)
  {
    RecoveredRowsMix(t, was, cols, ids, script);
    MixedIsOld(t, was, ids);
  }

  // A rewrite keeps the number of rows, so if no key is to be left over, no row can move.

  lemma RewriteKeepsSize(t: Table, k: int, row: Row)
    requires k in t.rows && Rewrite(t, k, row).Success?
    ensures var keys := Rewrite(t, k, row).value.rows.Keys;
            keys == t.rows.Keys - {k} + {KeyOf(row)} && |keys| == |t.rows.Keys|
  {
    var keys := Rewrite(t, k, row).value.rows.Keys;
    forall j: int ensures j in keys <==> j in t.rows.Keys - {k} + {KeyOf(row)} {
    }
  }

  /** One restored row, if the keys come out right, was restored in place. */
  lemma StepInPlace(t: Table, was: Table, cols: seq<Column>, k: int, firing: Firing, back: Table)
    requires WellFormed(t) && Restores(t, cols) && k in was.rows
    requires RestoreRow(PreimageUpsert, t, Capture(was, cols, k), firing) == Success(back)
    requires back.rows.Keys == was.rows.Keys
    ensures t.rows.Keys == was.rows.Keys && firing.Fires? && WellFormed(back) && back.columns == t.columns
    ensures back.rows == t.rows[k := Outcome(firing.before, RowAt(t, k), Intended(t, was, cols, k))]
  {
    RestoreUpdateStep(t, was, cols, k, firing);
    if k in t.rows && firing.before(Intended(t, was, cols, k)).Some? {
      RewriteForced(t, was.rows.Keys, k, firing.before(Intended(t, was, cols, k)).value, back);
    } else {
      assert t.rows[k := t.rows[k]] == t.rows;
    }
  }

  lemma RewriteForced(t: Table, want: set<int>, k: int, row: Row, back: Table)
    requires WellFormed(t) && k in t.rows && k in want && Rewrite(t, k, row) == Success(back) && back.rows.Keys == want
    ensures t.rows.Keys == want && WellFormed(back) && back == t.(rows := t.rows[k := row])
  {
    RewriteKeepsSize(t, k, row);
    KeysForced(t.rows.Keys, want, k, KeyOf(row));
    RewriteInPlace(t, k, row);
    WrittenWellFormed(t, k, row);
  }

  lemma KeysForced(keys: set<int>, want: set<int>, k: int, n: int)
    requires k in keys && k in want && keys - {k} + {n} == want && |want| == |keys|
    ensures keys == want && n == k
  {
    forall j | j in keys ensures j in want {
      assert j != k ==> j in keys - {k} + {n};
    }
    SubsetOfSameSize(keys, want);
    assert k in keys - {k} + {n};
  }

  lemma WrittenWellFormed(t: Table, k: int, row: Row)
    requires WellFormed(t) && k in t.rows && FitsAt(t, row, k)
    ensures WellFormed(t.(rows := t.rows[k := row]))
  {
    var t1 := t.(rows := t.rows[k := row]);
    forall j | j in t1.rows ensures FitsAt(t1, t1.rows[j], j) {
      assert j != k ==> FitsAt(t, t.rows[j], j);
    }
  }

  lemma DistinctInit(ids: seq<int>, was: Table)
    requires ids != [] && Unrepeated(ids) && IdsIn(ids, was)
    ensures var n := |ids| - 1;
            ids == ids[..n] + [ids[n]] && Unrepeated(ids[..n]) && IdsIn(ids[..n], was) && ids[n] in was.rows
  {
  }

  /** If the restored keys come out as they were, every row was restored in place, each once. */
  lemma {:induction false} RestoredInPlace(
    t: Table, was: Table, cols: seq<Column>, ids: seq<int>, script: Script, back: Table)
    requires WellFormed(t) && Restores(t, cols) && Unrepeated(ids) && IdsIn(ids, was)
    requires RestoreRows(PreimageUpsert, t, CaptureAll(was, cols, ids), script, 0) == Success(back)
    requires back.rows.Keys == was.rows.Keys
    ensures t.rows.Keys == was.rows.Keys && WellFormed(back) && back.columns == t.columns
    ensures AllPlaced(t, was, cols, ids, script, back)
  {
    if ids != [] {
      var n := |ids| - 1;
      DistinctInit(ids, was);
      UpdateOneMore(t, was, cols, ids[..n], ids[n], script);
      var mid := RestoreRows(PreimageUpsert, t, CaptureAll(was, cols, ids[..n]), script, 0).value;
      RestoredShape(t, was, cols, ids[..n], script, mid);
      StepInPlace(mid, was, cols, ids[n], script(n), back);
      RestoredInPlace(t, was, cols, ids[..n], script, mid);
      PlacedLater(t, was, cols, ids, script, mid, back);
    }
  }

  /** Row `k` of `back` is what the firing left of it. */
  ghost predicate PlacedAs(t: Table, was: Table, cols: seq<Column>, k: int, firing: Firing, back: Table) {
    && firing.Fires? && k in back.rows
    && back.rows[k] == Outcome(firing.before, RowAt(t, k), Intended(t, was, cols, k))
  }

  /** The rows `ids` are what their firings left of them, and the others are untouched. */
  ghost predicate AllPlaced(t: Table, was: Table, cols: seq<Column>, ids: seq<int>, script: Script, back: Table) {
    && (forall k :: k in t.rows && k !in ids ==> k in back.rows && back.rows[k] == t.rows[k])
    && (forall i :: 0 <= i < |ids| ==> PlacedAs(t, was, cols, ids[i], script(i), back))
  }

  lemma PlacedLater(t: Table, was: Table, cols: seq<Column>, ids: seq<int>, script: Script, mid: Table, back: Table)
    requires ids != [] && Unrepeated(ids) && t.rows.Keys == was.rows.Keys && IdsIn(ids, was)
    requires var n := |ids| - 1;
             && script(n).Fires? && AllPlaced(t, was, cols, ids[..n], script, mid)
             && var placed := Outcome(script(n).before, RowAt(mid, ids[n]), Intended(mid, was, cols, ids[n]));
                back.rows == mid.rows[ids[n] := placed]
    ensures AllPlaced(t, was, cols, ids, script, back)
  {
    var n := |ids| - 1;
    assert ids[n] !in ids[..n];
    assert RowAt(mid, ids[n]) == RowAt(t, ids[n]);
    forall i | 0 <= i < |ids| ensures PlacedAs(t, was, cols, ids[i], script(i), back) {
      if i < n {
        assert PlacedAs(t, was, cols, ids[..n][i], script(i), mid);
      }
    }
    forall k | k in t.rows && k !in ids ensures k in back.rows && back.rows[k] == t.rows[k] {
      assert k !in ids[..n];
    }
  }

  /** Whatever the triggers do, the table stays well formed and keeps its columns. */
  lemma {:induction false} RestoredShape(
    t: Table, was: Table, cols: seq<Column>, ids: seq<int>, script: Script, back: Table)
    requires WellFormed(t) && Restores(t, cols)
    requires RestoreRows(PreimageUpsert, t, CaptureAll(was, cols, ids), script, 0) == Success(back)
    ensures WellFormed(back) && back.columns == t.columns
  {
    if ids != [] {
      var n := |ids| - 1;
      assert ids == ids[..n] + [ids[n]];
      UpdateOneMore(t, was, cols, ids[..n], ids[n], script);
      var mid := RestoreRows(PreimageUpsert, t, CaptureAll(was, cols, ids[..n]), script, 0).value;
      RestoredShape(t, was, cols, ids[..n], script, mid);
      StepShape(mid, was, cols, ids[n], script(n), back);
    }
  }

  lemma StepShape(t: Table, was: Table, cols: seq<Column>, k: int, firing: Firing, back: Table)
    requires WellFormed(t) && Restores(t, cols)
    requires RestoreRow(PreimageUpsert, t, Capture(was, cols, k), firing) == Success(back)
    ensures WellFormed(back) && back.columns == t.columns
  {
    RestoreUpdateStep(t, was, cols, k, firing);
    if k in t.rows && firing.before(Intended(t, was, cols, k)).Some? {
      RewriteShape(t, k, firing.before(Intended(t, was, cols, k)).value, back);
    }
  }

  lemma RewriteShape(t: Table, k: int, row: Row, back: Table)
    requires WellFormed(t) && Rewrite(t, k, row) == Success(back)
    ensures WellFormed(back) && back.columns == t.columns
  {
    forall j | j in back.rows ensures FitsAt(back, back.rows[j], j) {
      assert j != KeyOf(row) ==> FitsAt(t, t.rows[j], j);
    }
  }

  lemma PlacedRecovers(t: Table, was: Table, cols: seq<Column>, ids: seq<int>, script: Script)
    requires t.columns == was.columns && t.rows.Keys == was.rows.Keys && AllPlaced(t, was, cols, ids, script, was)
    ensures Recovers(t, was, cols, ids, script)
  {
    forall i | 0 <= i < |ids| ensures Recovered(t, was, cols, ids[i], script(i)) {
      assert PlacedAs(t, was, cols, ids[i], script(i), was);
    }
  }

  /** The restoring UPDATEs give the old table back if and only if the rows they do not reach
      are the old ones and each firing turns the row about to be restored into the old one. */
  lemma UpdatesRestoreExactly(t: Table, was: Table, cols: seq<Column>, ids: seq<int>, script: Script)
    requires WellFormed(t) && WellFormed(was) && t.columns == was.columns
    requires Restores(t, cols) && Unrepeated(ids) && IdsIn(ids, was)
    ensures RestoreRows(PreimageUpsert, t, CaptureAll(was, cols, ids), script, 0) == Success(was)
       <==> Recovers(t, was, cols, ids, script)
  {
    if RestoreRows(PreimageUpsert, t, CaptureAll(was, cols, ids), script, 0) == Success(was) {
      RestoredInPlace(t, was, cols, ids, script, was);
      PlacedRecovers(t, was, cols, ids, script);
    }
    if Recovers(t, was, cols, ids, script) {
      RecoversRestores(t, was, cols, ids, script);
    }
  }

  // ------------------------------------------------------------------ restoring a DELETE

  lemma {:induction false} AssignFullImage(row: Row, was: Row, cols: seq<Column>)
    requires forall c :: c in cols ==> c in row
    ensures Assign(row, ImageOf(was, cols)).Keys == row.Keys
    ensures forall c :: c in row ==> Assign(row, ImageOf(was, cols))[c] == if c in cols then Cell(was, c) else row[c]
  {
    if cols != [] {
      var init, last := cols[..|cols| - 1], cols[|cols| - 1];
      var image := ImageOf(was, cols);
      assert image[..|image| - 1] == ImageOf(was, init);
      AssignFullImage(row, was, init);
      assert forall c :: c in cols <==> c in init || c == last;
    }
  }

  /** A full image: every column of the table, each once. */
  ghost predicate FullImage(t: Table, cols: seq<Column>) {
    Unrepeated(cols) && forall c :: c in cols <==> c in t.columns
  }

  lemma RestoreInsertStep(t: Table, was: Table, cols: seq<Column>, k: int, firing: Firing)
    requires WellFormed(was) && FullImage(t, cols) && t.columns == was.columns && k in was.rows
    ensures RestoreRow(Insert, t, Capture(was, cols, k), firing) ==
            if firing.Raises? then Failure(RevertBackend)
            else match firing.before(was.rows[k])
              case None => Success(t)
              case Some(row) => Store(t, row)
  {
    InsertedImage(t, was, cols, k);
    if firing.Fires? {
      InsertAs(t, Capture(was, cols, k), was.rows[k], firing.before);
    }
  }

  lemma InsertAs(t: Table, image: RowImage, row: Row, before: Row -> Option<Row>)
    requires image.image != [] && Assignable(t, image.image) && Assign(NullRow(t.columns), image.image) == row
    ensures RestoreInsertRow(t, image, before) == match before(row) case None => Success(t) case Some(w) => Store(t, w)
  {
  }

  lemma InsertedImage(t: Table, was: Table, cols: seq<Column>, k: int)
    requires WellFormed(was) && FullImage(t, cols) && t.columns == was.columns && k in was.rows
    ensures var image := ImageOf(was.rows[k], cols);
            image != [] && Assignable(t, image) && Assign(NullRow(t.columns), image) == was.rows[k]
  {
    assert FitsAt(was, was.rows[k], k);
    var image := ImageOf(was.rows[k], cols);
    assert PK_COLUMN in cols;
    AssignFullImage(NullRow(t.columns), was.rows[k], cols);
  }

  lemma InsertOneMore(t: Table, was: Table, cols: seq<Column>, ids: seq<int>, k: int, script: Script)
    ensures var earlier := RestoreRows(Insert, t, CaptureAll(was, cols, ids), script, 0);
            RestoreRows(Insert, t, CaptureAll(was, cols, ids + [k]), script, 0) ==
            if earlier.Failure? then earlier
            else RestoreRow(Insert, earlier.value, Capture(was, cols, k), script(|ids|))
  {
    CaptureOneMore(was, cols, ids, k);
    RestoreOneMore(Insert, t, CaptureAll(was, cols, ids), Capture(was, cols, k), script, 0);
  }

  /** `t` with the rows `ids` of `was` added. */
  ghost function WithRows(t: Table, was: Table, ids: seq<int>): Table {
    t.(rows := t.rows + map k | k in ids && k in was.rows :: was.rows[k])
  }

  ghost function IdSet(ids: seq<int>): (r: set<int>)
    ensures forall k :: k in r <==> k in ids
  {
    set k | k in ids
  }

  ghost predicate AllFree(t: Table, ids: seq<int>) {
    forall k :: k in ids ==> k !in t.rows
  }

  lemma WithOneMore(t: Table, was: Table, ids: seq<int>, k: int)
    requires k in was.rows && k !in ids
    ensures AllFree(t, ids + [k]) <==> AllFree(t, ids) && k !in t.rows
    ensures k in WithRows(t, was, ids).rows <==> k in t.rows
    ensures var mid := WithRows(t, was, ids);
            WithRows(t, was, ids + [k]) == mid.(rows := mid.rows[k := was.rows[k]])
  {
    assert forall j :: j in ids + [k] <==> j in ids || j == k;
    assert WithRows(t, was, ids + [k]).rows == WithRows(t, was, ids).rows[k := was.rows[k]];
  }

  /** Each firing re-inserts some old row, `keys[i]` being the key of the i-th. */
  ghost predicate Reinserted(was: Table, k: int, firing: Firing, key: int) {
    k in was.rows && key in was.rows && firing.Fires? && firing.before(was.rows[k]) == Some(was.rows[key])
  }

  ghost predicate AllReinserted(was: Table, ids: seq<int>, script: Script, keys: seq<int>) {
    |keys| == |ids| && forall i :: 0 <= i < |ids| ==> Reinserted(was, ids[i], script(i), keys[i])
  }

  /** On any table at all, restoring INSERTs whose firings yield distinct old rows `keys` add
      exactly those rows if all of the keys are free, and fail otherwise. */
  lemma {:induction false} RestoreInsertsAdd(
    t: Table, was: Table, cols: seq<Column>, ids: seq<int>, script: Script, keys: seq<int>)
    requires WellFormed(was) && FullImage(t, cols) && t.columns == was.columns
    requires Unrepeated(keys) && AllReinserted(was, ids, script, keys)
    ensures RestoreRows(Insert, t, CaptureAll(was, cols, ids), script, 0) ==
            if AllFree(t, keys) then Success(WithRows(t, was, keys)) else Failure(RevertBackend)
    decreases |ids|
  {
    if ids == [] {
      assert WithRows(t, was, keys).rows == t.rows;
    } else {
      var n := |ids| - 1;
      ReinsertedInit(was, ids, script, keys);
      RestoreInsertsAdd(t, was, cols, ids[..n], script, keys[..n]);
      InsertOneMore(t, was, cols, ids[..n], ids[n], script);
      AddStep(t, was, cols, keys[..n], ids[n], script(n), keys[n]);
    }
  }

  lemma ReinsertedInit(was: Table, ids: seq<int>, script: Script, keys: seq<int>)
    requires ids != [] && Unrepeated(keys) && AllReinserted(was, ids, script, keys)
    ensures var n := |ids| - 1;
            && ids == ids[..n] + [ids[n]] && keys == keys[..n] + [keys[n]]
            && Unrepeated(keys[..n]) && AllReinserted(was, ids[..n], script, keys[..n])
            && keys[n] !in keys[..n] && Reinserted(was, ids[n], script(n), keys[n])
  {
  }

  lemma AddStepFrom(mid: Table, was: Table, cols: seq<Column>, k: int, firing: Firing, key: int)
    requires WellFormed(was) && FullImage(mid, cols) && mid.columns == was.columns && Reinserted(was, k, firing, key)
    ensures RestoreRow(Insert, mid, Capture(was, cols, k), firing) ==
            if key in mid.rows then Failure(RevertBackend)
            else Success(mid.(rows := mid.rows[key := was.rows[key]]))
  {
    RestoreInsertStep(mid, was, cols, k, firing);
    assert FitsAt(was, was.rows[key], key);
  }

  lemma AddStep(t: Table, was: Table, cols: seq<Column>, keys: seq<int>, k: int, firing: Firing, key: int)
    requires WellFormed(was) && FullImage(t, cols) && t.columns == was.columns
    requires key !in keys && Reinserted(was, k, firing, key)
    ensures AllFree(t, keys + [key]) <==> AllFree(t, keys) && key !in t.rows
    ensures RestoreRow(Insert, WithRows(t, was, keys), Capture(was, cols, k), firing) ==
            if key in t.rows then Failure(RevertBackend) else Success(WithRows(t, was, keys + [key]))
  {
    WithOneMore(t, was, keys, key);
    AddStepFrom(WithRows(t, was, keys), was, cols, k, firing, key);
  }

  /** Each firing lets through the row it is about to re-insert. */
  ghost predicate PassesInserts(was: Table, ids: seq<int>, script: Script) {
    forall i :: 0 <= i < |ids| ==> Reinserted(was, ids[i], script(i), ids[i])
  }

  /** Adding rows gives the old table back exactly when the table is the old one without them. */
  lemma WithRowsIsOldExactly(t: Table, was: Table, ids: seq<int>)
    requires (forall k :: k in ids ==> k in was.rows && k !in t.rows) && t.columns == was.columns
    ensures WithRows(t, was, ids) == was <==> t.rows == was.rows - IdSet(ids)
  {
    var gone := IdSet(ids);
    if WithRows(t, was, ids) == was {
      forall k | k in t.rows ensures k in was.rows - gone && (was.rows - gone)[k] == t.rows[k] {
        assert WithRows(t, was, ids).rows[k] == t.rows[k];
      }
      forall k | k in was.rows - gone ensures k in t.rows {
        assert k in WithRows(t, was, ids).rows;
      }
    }
    if t.rows == was.rows - gone {
      assert WithRows(t, was, ids).rows == was.rows;
    }
  }

  // ------------------------------------------------------------------ exactly when a DELETE is undone

  /** Among the deleted rows, each firing yields one, and no two the same: with a trigger that
      keeps keys, each row is let through unchanged. */
  ghost predicate Reinserts(was: Table, ids: seq<int>, script: Script) {
    exists keys: seq<int> :: Relists(keys, ids) && AllReinserted(was, ids, script, keys)
  }

  ghost predicate Relists(keys: seq<int>, ids: seq<int>) {
    |keys| == |ids| && Unrepeated(keys) && forall i :: 0 <= i < |keys| ==> keys[i] in ids
  }

  /** As many distinct keys, all of them among `ids`, are the ids in some order. */
  lemma RelistsAll(keys: seq<int>, ids: seq<int>)
    requires Relists(keys, ids) && Unrepeated(ids)
    ensures forall k :: k in keys <==> k in ids
  {
    var a, b := IdSet(keys), IdSet(ids);
    DistinctSize(keys, a);
    DistinctSize(ids, b);
    assert a <= b;
    SubsetOfSameSize(a, b);
    forall k: int ensures k in keys <==> k in ids {
      assert k in a <==> k in b;
    }
  }

  lemma {:induction false} DistinctSize(ids: seq<int>, s: set<int>)
    requires Unrepeated(ids) && forall k :: k in s <==> k in ids
    ensures |s| == |ids|
  {
    if ids == [] {
      if s != {} {
        var k := PickAny(s);
        assert false;
      }
    } else {
      var n := |ids| - 1;
      assert ids == ids[..n] + [ids[n]];
      DistinctSize(ids[..n], s - {ids[n]});
    }
  }

  lemma SameRowsAdded(t: Table, was: Table, keys: seq<int>, ids: seq<int>)
    requires forall k :: k in keys <==> k in ids
    ensures WithRows(t, was, keys) == WithRows(t, was, ids) && (AllFree(t, keys) <==> AllFree(t, ids))
  {
    var a, b := WithRows(t, was, keys).rows, WithRows(t, was, ids).rows;
    forall k: int ensures k in a <==> k in b {
      assert k in keys <==> k in ids;
    }
    forall k | k in a ensures a[k] == b[k] {
      assert k in keys <==> k in ids;
    }
    assert a == b;
  }

  lemma ReinsertsRestore(was: Table, cols: seq<Column>, ids: seq<int>, script: Script, t: Table, keys: seq<int>)
    requires WellFormed(was) && FullImage(t, cols) && t == was.(rows := was.rows - IdSet(ids))
    requires Unrepeated(ids) && IdsIn(ids, was) && Relists(keys, ids) && AllReinserted(was, ids, script, keys)
    ensures RestoreRows(Insert, t, CaptureAll(was, cols, ids), script, 0) == Success(was)
  {
    RelistsAll(keys, ids);
    SameRowsAdded(t, was, keys, ids);
    RestoreInsertsAdd(t, was, cols, ids, script, keys);
    WithRowsIsOldExactly(t, was, ids);
  }

  /** What restoring INSERTs can have done to `t` when `n` of them end in `back`. */
  ghost predicate Grew(t: Table, was: Table, ids: seq<int>, script: Script, back: Table, keys: seq<int>) {
    && |keys| == |ids| && Unrepeated(keys)
    && (forall i :: 0 <= i < |ids| ==> InsertedAs(t, was, ids[i], script(i), back, keys[i]))
  }

  ghost predicate InsertedAs(t: Table, was: Table, k: int, firing: Firing, back: Table, key: int) {
    && k in was.rows && key in back.rows && key !in t.rows
    && firing.Fires? && firing.before(was.rows[k]) == Some(back.rows[key])
  }

  ghost predicate HasRows(t: Table, back: Table) {
    back.columns == t.columns && forall k :: k in t.rows ==> k in back.rows && back.rows[k] == t.rows[k]
  }

  lemma StoreGrows(t: Table, row: Row, back: Table)
    requires Store(t, row) == Success(back)
    ensures HasRows(t, back) && KeyOf(row) !in t.rows && KeyOf(row) in back.rows && back.rows[KeyOf(row)] == row
    ensures |back.rows.Keys| == |t.rows.Keys| + 1
  {
    var keys := back.rows.Keys;
    forall j: int ensures j in keys <==> j in t.rows.Keys + {KeyOf(row)} {
    }
    assert keys == t.rows.Keys + {KeyOf(row)};
  }

  lemma InsertGrows(t: Table, was: Table, cols: seq<Column>, k: int, firing: Firing, back: Table)
    requires WellFormed(was) && FullImage(t, cols) && t.columns == was.columns && k in was.rows
    requires RestoreRow(Insert, t, Capture(was, cols, k), firing) == Success(back)
    ensures HasRows(t, back)
    ensures || back == t
            || (firing.Fires? && firing.before(was.rows[k]).Some?
                && Store(t, firing.before(was.rows[k]).value) == Success(back))
  {
    RestoreInsertStep(t, was, cols, k, firing);
    if firing.before(was.rows[k]).Some? {
      StoreGrows(t, firing.before(was.rows[k]).value, back);
    }
  }

  /** Restoring INSERTs only add rows, at most one each; if they added one each, they added
      what their firings yielded, under distinct keys. */
  lemma {:induction false} InsertsGrow(
    t: Table, was: Table, cols: seq<Column>, ids: seq<int>, script: Script, back: Table)
    returns (keys: seq<int>)
    requires WellFormed(was) && FullImage(t, cols) && t.columns == was.columns && IdsIn(ids, was)
    requires RestoreRows(Insert, t, CaptureAll(was, cols, ids), script, 0) == Success(back)
    ensures HasRows(t, back) && |back.rows.Keys| <= |t.rows.Keys| + |ids|
    ensures |back.rows.Keys| == |t.rows.Keys| + |ids| ==> Grew(t, was, ids, script, back, keys)
  {
    keys := [];
    if ids != [] {
      var n := |ids| - 1;
      IdsInPrefix(ids, was);
      InsertOneMore(t, was, cols, ids[..n], ids[n], script);
      var mid := RestoreRows(Insert, t, CaptureAll(was, cols, ids[..n]), script, 0).value;
      var earlier := InsertsGrow(t, was, cols, ids[..n], script, mid);
      InsertGrows(mid, was, cols, ids[n], script(n), back);
      HasRowsTransitive(t, mid, back);
      if back != mid {
        keys := GrewMore(t, was, ids, script, mid, back, earlier);
      }
    }
  }

  lemma IdsInPrefix(ids: seq<int>, was: Table)
    requires ids != [] && IdsIn(ids, was)
    ensures var n := |ids| - 1; ids == ids[..n] + [ids[n]] && IdsIn(ids[..n], was) && ids[n] in was.rows
  {
  }

  lemma HasRowsTransitive(t: Table, mid: Table, back: Table)
    requires HasRows(t, mid) && HasRows(mid, back)
    ensures HasRows(t, back)
  {
  }

  lemma GrewMore(t: Table, was: Table, ids: seq<int>, script: Script, mid: Table, back: Table, earlier: seq<int>)
    returns (keys: seq<int>)
    requires ids != [] && ids[|ids| - 1] in was.rows && HasRows(t, mid) && HasRows(mid, back)
    requires var n := |ids| - 1;
             && script(n).Fires? && script(n).before(was.rows[ids[n]]).Some?
             && Store(mid, script(n).before(was.rows[ids[n]]).value) == Success(back)
             && |mid.rows.Keys| <= |t.rows.Keys| + n
             && (|mid.rows.Keys| == |t.rows.Keys| + n ==> Grew(t, was, ids[..n], script, mid, earlier))
    ensures |back.rows.Keys| <= |t.rows.Keys| + |ids|
    ensures |back.rows.Keys| == |t.rows.Keys| + |ids| ==> Grew(t, was, ids, script, back, keys)
  {
    var n := |ids| - 1;
    var row := script(n).before(was.rows[ids[n]]).value;
    StoreGrows(mid, row, back);
    keys := earlier + [KeyOf(row)];
    if |back.rows.Keys| == |t.rows.Keys| + |ids| {
      GrewStep(t, was, ids, script, mid, back, earlier, KeyOf(row));
    }
  }

  lemma GrewStep(
    t: Table, was: Table, ids: seq<int>, script: Script, mid: Table, back: Table, keys: seq<int>, key: int)
    requires ids != [] && Grew(t, was, ids[..|ids| - 1], script, mid, keys) && HasRows(t, mid) && HasRows(mid, back)
    requires key !in mid.rows && InsertedAs(mid, was, ids[|ids| - 1], script(|ids| - 1), back, key)
    ensures Grew(t, was, ids, script, back, keys + [key])
  {
    var n := |ids| - 1;
    forall i | 0 <= i < |ids| ensures InsertedAs(t, was, ids[i], script(i), back, (keys + [key])[i]) {
      if i < n {
        assert InsertedAs(t, was, ids[..n][i], script(i), mid, keys[i]);
      }
    }
    forall i | 0 <= i < n ensures keys[i] != key {
      assert InsertedAs(t, was, ids[..n][i], script(i), mid, keys[i]);
    }
  }

  lemma RestoredReinserts(was: Table, cols: seq<Column>, ids: seq<int>, script: Script, t: Table)
    requires WellFormed(was) && FullImage(t, cols) && t == was.(rows := was.rows - IdSet(ids))
    requires Unrepeated(ids) && IdsIn(ids, was)
    requires RestoreRows(Insert, t, CaptureAll(was, cols, ids), script, 0) == Success(was)
    ensures Reinserts(was, ids, script)
  {
    var keys := InsertsGrow(t, was, cols, ids, script, was);
    DistinctSize(ids, IdSet(ids));
    RemovedSize(was.rows.Keys, IdSet(ids), t.rows.Keys);
    GrewReinserts(was, ids, script, t, keys);
  }

  lemma GrewReinserts(was: Table, ids: seq<int>, script: Script, t: Table, keys: seq<int>)
    requires t == was.(rows := was.rows - IdSet(ids)) && Grew(t, was, ids, script, was, keys)
    ensures Relists(keys, ids) && AllReinserted(was, ids, script, keys)
  {
    forall i | 0 <= i < |ids| ensures Reinserted(was, ids[i], script(i), keys[i]) && keys[i] in ids {
      assert InsertedAs(t, was, ids[i], script(i), was, keys[i]);
      assert keys[i] in IdSet(ids);
    }
  }

  lemma RemovedSize(all: set<int>, gone: set<int>, rest: set<int>)
    requires gone <= all && rest == all - gone
    ensures |all| == |rest| + |gone|
  {
    forall k: int ensures k in all <==> k in rest + gone {
    }
    assert all == rest + gone;
  }

  /** From the old table without the deleted rows, the restoring INSERTs give the old table
      back if and only if their firings yield those rows, each once. */
  lemma InsertsRestoreExactly(was: Table, cols: seq<Column>, ids: seq<int>, script: Script, t: Table)
    requires WellFormed(was) && FullImage(t, cols) && t == was.(rows := was.rows - IdSet(ids))
    requires Unrepeated(ids) && IdsIn(ids, was)
    ensures RestoreRows(Insert, t, CaptureAll(was, cols, ids), script, 0) == Success(was) <==>
            Reinserts(was, ids, script)
  {
    if RestoreRows(Insert, t, CaptureAll(was, cols, ids), script, 0) == Success(was) {
      RestoredReinserts(was, cols, ids, script, t);
    }
    if Reinserts(was, ids, script) {
      var keys :| Relists(keys, ids) && AllReinserted(was, ids, script, keys);
      ReinsertsRestore(was, cols, ids, script, t, keys);
    }
  }

  // ------------------------------------------------------------------ re-inserting into any table

  /** What the row trigger makes of old row `k`, about to be re-inserted; none if it is skipped. */
  ghost function Yield(was: Table, k: int, firing: Firing): Option<Row> {
    if firing.Raises? then None else firing.before(RowAt(was, k))
  }

  /** The firing stores a row under `key`. */
  ghost predicate Yields(was: Table, k: int, firing: Firing, key: int) {
    Yield(was, k, firing).Some? && KeyOf(Yield(was, k, firing).value) == key
  }

  /** The firing skips its row, or yields an old row that `t` lacks. */
  ghost predicate FillsGap(t: Table, was: Table, k: int, firing: Firing) {
    firing.Fires? && match Yield(was, k, firing)
      case None => true
      case Some(row) => KeyOf(row) in was.rows && row == was.rows[KeyOf(row)] && KeyOf(row) !in t.rows
  }

  /** And no earlier firing yielded that key. */
  ghost predicate FillsOwnGap(t: Table, was: Table, ids: seq<int>, script: Script, i: nat)
    requires i < |ids|
  {
    && FillsGap(t, was, ids[i], script(i))
    && forall j, key :: 0 <= j < i && Yields(was, ids[i], script(i), key) ==> !Yields(was, ids[j], script(j), key)
  }

  ghost predicate AllFillGaps(t: Table, was: Table, ids: seq<int>, script: Script) {
    forall i :: 0 <= i < |ids| ==> FillsOwnGap(t, was, ids, script, i)
  }

  ghost predicate Yielded(was: Table, ids: seq<int>, script: Script, key: int) {
    exists i :: 0 <= i < |ids| && Yields(was, ids[i], script(i), key)
  }

  /** `t` holds only old rows, each firing skips its row or fills a gap of its own, and no gap
      is left. */
  ghost predicate Completes(t: Table, was: Table, ids: seq<int>, script: Script) {
    && HasRows(t, was) && AllFillGaps(t, was, ids, script)
    && forall k :: k in was.rows && k !in t.rows ==> Yielded(was, ids, script, k)
  }

  ghost function Filled(t: Table, was: Table, k: int, firing: Firing): Table {
    match Yield(was, k, firing)
    case None => t
    case Some(row) => t.(rows := t.rows[KeyOf(row) := row])
  }

  /** One restoring INSERT ends among the old rows exactly when it fills a gap or is skipped. */
  lemma FillStep(t: Table, was: Table, cols: seq<Column>, k: int, firing: Firing, back: Table)
    requires WellFormed(was) && FullImage(t, cols) && t.columns == was.columns && k in was.rows
    ensures (RestoreRow(Insert, t, Capture(was, cols, k), firing) == Success(back) && HasRows(back, was)) <==>
            (HasRows(t, was) && FillsGap(t, was, k, firing) && back == Filled(t, was, k, firing))
  {
    RestoreInsertStep(t, was, cols, k, firing);
    if firing.Fires? && firing.before(was.rows[k]).Some? {
      StoreStep(t, was, firing.before(was.rows[k]).value, back);
    }
  }

  lemma StoreStep(t: Table, was: Table, row: Row, back: Table)
    requires WellFormed(was) && t.columns == was.columns
    ensures (Store(t, row) == Success(back) && HasRows(back, was)) <==>
            && HasRows(t, was) && KeyOf(row) in was.rows && row == was.rows[KeyOf(row)] && KeyOf(row) !in t.rows
            && back == t.(rows := t.rows[KeyOf(row) := row])
  {
    if Store(t, row) == Success(back) && HasRows(back, was) {
      StoreGrows(t, row, back);
    }
    if KeyOf(row) in was.rows && row == was.rows[KeyOf(row)] {
      assert FitsAt(was, row, KeyOf(row));
    }
  }

  /** The keys of `back` are those of `t` and the yielded ones. */
  ghost predicate FilledBy(t: Table, was: Table, ids: seq<int>, script: Script, back: Table) {
    && HasRows(t, back)
    && forall k :: k in back.rows <==> k in t.rows || Yielded(was, ids, script, k)
  }

  lemma YieldedOneMore(was: Table, ids: seq<int>, script: Script, key: int)
    requires ids != []
    ensures var n := |ids| - 1;
            Yielded(was, ids, script, key) <==>
            Yielded(was, ids[..n], script, key) || Yields(was, ids[n], script(n), key)
  {
    var n := |ids| - 1;
    if Yielded(was, ids[..n], script, key) {
      var i :| 0 <= i < n && Yields(was, ids[..n][i], script(i), key);
      assert Yields(was, ids[i], script(i), key);
    }
    if Yielded(was, ids, script, key) && !Yields(was, ids[n], script(n), key) {
      var i :| 0 <= i < |ids| && Yields(was, ids[i], script(i), key);
      assert Yields(was, ids[..n][i], script(i), key);
    }
  }

  lemma FillsOneMore(t: Table, was: Table, ids: seq<int>, script: Script)
    requires ids != []
    ensures var n := |ids| - 1;
            AllFillGaps(t, was, ids, script) <==>
            AllFillGaps(t, was, ids[..n], script) && FillsOwnGap(t, was, ids, script, n)
  {
    var n := |ids| - 1;
    forall i | 0 <= i < n ensures FillsOwnGap(t, was, ids[..n], script, i) <==> FillsOwnGap(t, was, ids, script, i) {
      assert forall j :: 0 <= j <= i ==> ids[..n][j] == ids[j];
    }
  }

  /** After the earlier firings, filling a gap is filling one of its own. */
  lemma OwnGap(t: Table, was: Table, ids: seq<int>, script: Script, mid: Table)
    requires ids != [] && FilledBy(t, was, ids[..|ids| - 1], script, mid)
    ensures var n := |ids| - 1;
            FillsGap(mid, was, ids[n], script(n)) <==> FillsOwnGap(t, was, ids, script, n)
  {
    var n := |ids| - 1;
    if Yield(was, ids[n], script(n)).Some? {
      var key := KeyOf(Yield(was, ids[n], script(n)).value);
      EarlierYielded(was, ids, script, key);
      assert Yields(was, ids[n], script(n), key);
      assert forall other :: Yields(was, ids[n], script(n), other) ==> other == key;
    }
  }

  lemma EarlierYielded(was: Table, ids: seq<int>, script: Script, key: int)
    requires ids != []
    ensures Yielded(was, ids[..|ids| - 1], script, key) <==>
            exists j :: 0 <= j < |ids| - 1 && Yields(was, ids[j], script(j), key)
  {
    var n := |ids| - 1;
    if Yielded(was, ids[..n], script, key) {
      var i :| 0 <= i < n && Yields(was, ids[..n][i], script(i), key);
      assert Yields(was, ids[i], script(i), key);
    }
    if exists j :: 0 <= j < n && Yields(was, ids[j], script(j), key) {
      var j :| 0 <= j < n && Yields(was, ids[j], script(j), key);
      assert Yields(was, ids[..n][j], script(j), key);
    }
  }

  lemma FilledMore(t: Table, was: Table, ids: seq<int>, script: Script, mid: Table)
    requires ids != [] && FilledBy(t, was, ids[..|ids| - 1], script, mid)
    requires FillsGap(mid, was, ids[|ids| - 1], script(|ids| - 1))
    ensures FilledBy(t, was, ids, script, Filled(mid, was, ids[|ids| - 1], script(|ids| - 1)))
  {
    var n := |ids| - 1;
    var back := Filled(mid, was, ids[n], script(n));
    forall k: int ensures k in back.rows <==> k in t.rows || Yielded(was, ids, script, k) {
      YieldedOneMore(was, ids, script, k);
    }
  }

  /** Restoring INSERTs that end among the old rows started there and filled gaps. */
  lemma {:induction false} InsertsFilled(
    t: Table, was: Table, cols: seq<Column>, ids: seq<int>, script: Script, back: Table)
    requires WellFormed(was) && FullImage(t, cols) && t.columns == was.columns && IdsIn(ids, was)
    requires RestoreRows(Insert, t, CaptureAll(was, cols, ids), script, 0) == Success(back) && HasRows(back, was)
    ensures HasRows(t, was) && AllFillGaps(t, was, ids, script) && FilledBy(t, was, ids, script, back)
  {
    if ids != [] {
      var n := |ids| - 1;
      IdsInPrefix(ids, was);
      InsertOneMore(t, was, cols, ids[..n], ids[n], script);
      var mid := RestoreRows(Insert, t, CaptureAll(was, cols, ids[..n]), script, 0).value;
      var _ := InsertsGrow(t, was, cols, ids[..n], script, mid);
      FillStep(mid, was, cols, ids[n], script(n), back);
      InsertsFilled(t, was, cols, ids[..n], script, mid);
      FillsOneMore(t, was, ids, script);
      OwnGap(t, was, ids, script, mid);
      FilledMore(t, was, ids, script, mid);
    }
  }

  /** And gaps filled one after another are what the restoring INSERTs do. */
  lemma {:induction false} GapsFilled(
    t: Table, was: Table, cols: seq<Column>, ids: seq<int>, script: Script) returns (back: Table)
    requires WellFormed(was) && FullImage(t, cols) && t.columns == was.columns && IdsIn(ids, was)
    requires HasRows(t, was) && AllFillGaps(t, was, ids, script)
    ensures RestoreRows(Insert, t, CaptureAll(was, cols, ids), script, 0) == Success(back) && HasRows(back, was)
    ensures FilledBy(t, was, ids, script, back)
  {
    back := t;
    if ids != [] {
      var n := |ids| - 1;
      IdsInPrefix(ids, was);
      FillsOneMore(t, was, ids, script);
      var mid := GapsFilled(t, was, cols, ids[..n], script);
      OwnGap(t, was, ids, script, mid);
      FilledMore(t, was, ids, script, mid);
      back := Filled(mid, was, ids[n], script(n));
      FillStep(mid, was, cols, ids[n], script(n), back);
      InsertOneMore(t, was, cols, ids[..n], ids[n], script);
    }
  }

  lemma SameKeysSameTable(back: Table, was: Table)
    requires HasRows(back, was) && forall k :: k in was.rows ==> k in back.rows
    ensures back == was
  {
    forall k: int ensures k in back.rows <==> k in was.rows {
    }
    forall k | k in back.rows ensures back.rows[k] == was.rows[k] {
    }
    assert back.rows == was.rows;
  }

  /** On any table, under any row triggers, the restoring INSERTs give the old table back if and
      only if the table holds only old rows and the firings fill its gaps, each once. */
  lemma InsertsCompleteExactly(t: Table, was: Table, cols: seq<Column>, ids: seq<int>, script: Script)
    requires WellFormed(was) && FullImage(t, cols) && t.columns == was.columns && IdsIn(ids, was)
    ensures RestoreRows(Insert, t, CaptureAll(was, cols, ids), script, 0) == Success(was) <==>
            Completes(t, was, ids, script)
  {
    if RestoreRows(Insert, t, CaptureAll(was, cols, ids), script, 0) == Success(was) {
      InsertsFilled(t, was, cols, ids, script, was);
    }
    if Completes(t, was, ids, script) {
      var back := GapsFilled(t, was, cols, ids, script);
      SameKeysSameTable(back, was);
    }
  }
}
