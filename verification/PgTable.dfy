/** A table in memory and what the apply and revert connections do to it
    (crates/clone-orchestrator/src/conn.rs): the pre-image capture of the forward statement,
    the restoring UPDATE and INSERT of the revert. */
module PgTable {
  import opened Prelude
  import opened BlastRadius
  import opened Inverse
  import opened ApplyGuards

  type Row = map<Column, Value>

  /** A relation: its columns in order and its rows by primary key. */
  datatype Table = Table(columns: seq<Column>, rows: map<int, Row>)

  type Database = map<Relation, Table>

  /** Every row has exactly the table's columns and sits under its own `id`. */
  ghost predicate WellFormed(t: Table) {
    && PK_COLUMN in t.columns && Unrepeated(t.columns)
    && forall k :: k in t.rows ==> FitsAt(t, t.rows[k], k)
  }

  ghost predicate FitsAt(t: Table, row: Row, k: int) {
    (forall c :: c in row <==> c in t.columns) && PK_COLUMN in row && row[PK_COLUMN] == Int(k)
  }

  /** An UPDATE or DELETE: its predicate, the columns of its SET list, and the row its
      assignments make of a row it hits. */
  datatype Statement = Statement(kind: WriteKind, setCols: seq<Column>, matches: Row -> bool, assign: Row -> Row)

  ghost function Matched(t: Table, stmt: Statement): set<int> {
    set k | k in t.rows && stmt.matches(t.rows[k])
  }

  // ------------------------------------------------------------------ capture

  /** The select list: the key first, then each column once. */
  function SelectList(cols: seq<Column>): (r: seq<Column>)
    ensures r != [] && r[0] == PK_COLUMN
    ensures Unrepeated(r)
    ensures forall c :: c in r <==> c == PK_COLUMN || c in cols
  {
    if cols == [] then [PK_COLUMN]
    else
      var init, last := SelectList(cols[..|cols| - 1]), cols[|cols| - 1];
      if last != PK_COLUMN && last !in init then init + [last] else init
  }

  /** The columns whose old values an inverse of the statement needs. */
  function ImageColumns(t: Table, stmt: Statement): seq<Column> {
    match stmt.kind
    case Update => stmt.setCols
    case Delete => t.columns
  }

  function Cell(row: Row, c: Column): Value {
    if c in row then row[c] else Null
  }

  function ImageOf(row: Row, cols: seq<Column>): (r: seq<(Column, Value)>)
    ensures |r| == |cols| && forall i :: 0 <= i < |r| ==> r[i] == (cols[i], Cell(row, cols[i]))
  {
    if cols == [] then []
    else ImageOf(row, cols[..|cols| - 1]) + [(cols[|cols| - 1], Cell(row, cols[|cols| - 1]))]
  }

  function RowAt(t: Table, k: int): Row {
    if k in t.rows then t.rows[k] else map[]
  }

  /** The captured row with key `k`, as it was in `was`. */
  function Capture(was: Table, cols: seq<Column>, k: int): RowImage {
    RowImage([Int(k)], ImageOf(RowAt(was, k), cols))
  }

  function CaptureAll(was: Table, cols: seq<Column>, ids: seq<int>): (r: seq<RowImage>)
    ensures |r| == |ids| && forall i :: 0 <= i < |r| ==> r[i] == Capture(was, cols, ids[i])
  {
    if ids == [] then [] else CaptureAll(was, cols, ids[..|ids| - 1]) + [Capture(was, cols, ids[|ids| - 1])]
  }

  const UNKNOWN_COLUMN := Backend("column does not exist")
  const NON_INT4_KEY := Backend("non-int4 PK")
  const UNSUPPORTED_TYPE := Backend("type not losslessly captured")

  /** What of a relation's types the connection can read: whether the key is a 32-bit integer,
      and which columns have a type it does not capture. */
  datatype Types = Types(int4Key: bool, unreadable: set<Column>)

  /** Pair each returned key with its snapshot image; a key outside the snapshot is an error. */
  function Written(relation: Relation, int4Key: bool, preimage: map<int, seq<(Column, Value)>>, returned: seq<int>)
    : Result<seq<RowImage>, ApplyError>
  {
    if returned == [] then Success([])
    else
      var earlier := Written(relation, int4Key, preimage, returned[..|returned| - 1]);
      var k := returned[|returned| - 1];
      if earlier.Failure? then earlier
      else if !int4Key then Failure(NON_INT4_KEY)
      else if k !in preimage then Failure(MissingPreImage(relation, [Int(k)]))
      else Success(earlier.value + [RowImage([Int(k)], preimage[k])])
  }

  /** The snapshot read before the write: the selected columns of every matched row. */
  ghost function Snapshot(t: Table, stmt: Statement): map<int, seq<(Column, Value)>> {
    map k | k in Matched(t, stmt) :: ImageOf(t.rows[k], SelectList(ImageColumns(t, stmt)))
  }

  predicate KnownColumns(t: Table, cols: seq<Column>) {
    forall c :: c in cols ==> c in t.columns
  }

  /** Why a locked row cannot be captured, if it cannot. */
  function ReadFault(types: Types, cols: seq<Column>): Option<ApplyError> {
    if !types.int4Key then Some(NON_INT4_KEY)
    else if exists c :: c in cols && c in types.unreadable then Some(UNSUPPORTED_TYPE)
    else None
  }

  /** What the forward step reports when the statement returned the keys `returned`. */
  ghost function PgForward(relation: Relation, types: Types, t: Table, stmt: Statement, returned: seq<int>)
    : Result<ForwardResult, ApplyError>
  {
    var cols := SelectList(ImageColumns(t, stmt));
    if !KnownColumns(t, cols) then Failure(UNKNOWN_COLUMN)
    else if Matched(t, stmt) != {} && ReadFault(types, cols).Some? then Failure(ReadFault(types, cols).value)
    else
      var written := Written(relation, types.int4Key, Snapshot(t, stmt), returned);
      if written.Failure? then Failure(written.error)
      else Success(ForwardResult(written.value, map[], if stmt.kind == Update then stmt.setCols else []))
  }

  lemma {:induction false} WrittenExact(
    relation: Relation, int4Key: bool, was: Table, cols: seq<Column>, preimage: map<int, seq<(Column, Value)>>,
    returned: seq<int>)
    requires forall k :: k in preimage ==> preimage[k] == ImageOf(RowAt(was, k), cols)
    ensures var r := Written(relation, int4Key, preimage, returned);
            && (r.Success? <==> (returned == [] || int4Key) && forall k :: k in returned ==> k in preimage)
            && (r.Success? ==> r.value == CaptureAll(was, cols, returned))
  {
    if returned != [] {
      var init, last := returned[..|returned| - 1], returned[|returned| - 1];
      WrittenExact(relation, int4Key, was, cols, preimage, init);
      assert forall k :: k in returned <==> k in init || k == last;
    }
  }

  /** Whatever the types, a forward step that succeeds reports, under each returned key, what
      the row of that key was, every returned key was in the snapshot, and the columns it
      declares written are those an UPDATE sets, none for a DELETE. */
  lemma ForwardReports(relation: Relation, types: Types, t: Table, stmt: Statement, returned: seq<int>)
    requires PgForward(relation, types, t, stmt, returned).Success?
    ensures var r := PgForward(relation, types, t, stmt, returned).value;
            && r.cascadePreimages == map[]
            && r.written == CaptureAll(t, SelectList(ImageColumns(t, stmt)), returned)
            && forall c :: c in r.writtenColumns <==> stmt.kind == Update && c in stmt.setCols
    ensures forall k :: k in returned ==> k in Matched(t, stmt)
    ensures KnownColumns(t, SelectList(ImageColumns(t, stmt)))
  {
    WrittenExact(relation, types.int4Key, t, SelectList(ImageColumns(t, stmt)), Snapshot(t, stmt), returned);
  }

  /** What the connection cannot name or read is an error before anything is written: a column
      the table lacks, then, if a row is to be captured, a key that is not a 32-bit integer,
      then a column of a type it does not capture. */
  lemma ForwardFaults(relation: Relation, types: Types, t: Table, stmt: Statement, returned: seq<int>)
    ensures var r, cols := PgForward(relation, types, t, stmt, returned), SelectList(ImageColumns(t, stmt));
            if exists c :: c in cols && c !in t.columns then r == Failure(Backend("column does not exist"))
            else if Matched(t, stmt) != {} && !types.int4Key then r == Failure(Backend("non-int4 PK"))
            else if Matched(t, stmt) != {} && exists c :: c in cols && c in types.unreadable
            then r == Failure(Backend("type not losslessly captured"))
            else r.Success? || r.error.MissingPreImage? || (r.error == Backend("non-int4 PK") && !types.int4Key)
  {
    WrittenFaults(relation, types.int4Key, Snapshot(t, stmt), returned);
  }

  lemma {:induction false} WrittenFaults(
    relation: Relation, int4Key: bool, preimage: map<int, seq<(Column, Value)>>, returned: seq<int>)
    ensures var r := Written(relation, int4Key, preimage, returned);
            r.Success? || r.error.MissingPreImage? || (r.error == Backend("non-int4 PK") && !int4Key)
  {
    if returned != [] {
      WrittenFaults(relation, int4Key, preimage, returned[..|returned| - 1]);
    }
  }

  /** Key `returned[i]` is the first that is not in the snapshot. */
  ghost predicate FirstOutside(t: Table, stmt: Statement, returned: seq<int>, i: nat) {
    && i < |returned| && returned[i] !in Matched(t, stmt)
    && forall j :: 0 <= j < i ==> returned[j] in Matched(t, stmt)
  }

  lemma {:induction false} WrittenFailsAt(
    relation: Relation, t: Table, stmt: Statement, preimage: map<int, seq<(Column, Value)>>, returned: seq<int>, i: nat)
    requires (forall k :: k in preimage <==> k in Matched(t, stmt)) && FirstOutside(t, stmt, returned, i)
    ensures Written(relation, true, preimage, returned) == Failure(MissingPreImage(relation, [Int(returned[i])]))
  {
    var n := |returned| - 1;
    if i < n {
      WrittenFailsAt(relation, t, stmt, preimage, returned[..n], i);
    } else {
      forall j | 0 <= j < n ensures returned[..n][j] in preimage {
        assert returned[..n][j] == returned[j];
      }
      WrittenBefore(relation, preimage, returned[..n]);
    }
  }

  lemma {:induction false} WrittenBefore(
    relation: Relation, preimage: map<int, seq<(Column, Value)>>, returned: seq<int>)
    requires forall j :: 0 <= j < |returned| ==> returned[j] in preimage
    ensures Written(relation, true, preimage, returned).Success?
  {
    if returned != [] {
      WrittenBefore(relation, preimage, returned[..|returned| - 1]);
    }
  }

  /** With readable types, the forward step succeeds exactly when every returned key was in the
      snapshot; otherwise the error names the first that was not. */
  lemma ForwardExact(relation: Relation, types: Types, t: Table, stmt: Statement, returned: seq<int>)
    requires KnownColumns(t, SelectList(ImageColumns(t, stmt)))
    requires ReadFault(types, SelectList(ImageColumns(t, stmt))).None?
    ensures PgForward(relation, types, t, stmt, returned).Success? <==>
            forall k :: k in returned ==> k in Matched(t, stmt)
    ensures forall i: nat :: FirstOutside(t, stmt, returned, i) ==>
            PgForward(relation, types, t, stmt, returned) == Failure(MissingPreImage(relation, [Int(returned[i])]))
  {
    WrittenExact(relation, types.int4Key, t, SelectList(ImageColumns(t, stmt)), Snapshot(t, stmt), returned);
    forall i: nat | FirstOutside(t, stmt, returned, i)
      ensures PgForward(relation, types, t, stmt, returned) == Failure(MissingPreImage(relation, [Int(returned[i])])) {
      WrittenFailsAt(relation, t, stmt, Snapshot(t, stmt), returned, i);
    }
  }

  // ------------------------------------------------------------------ row changes

  /** One row change, by a statement or by a trigger. */
  datatype RowOp =
    | InsertRow(relation: Relation, id: int, row: Row)
    | UpdateRow(relation: Relation, id: int, newId: int, row: Row)
    | DeleteRow(relation: Relation, id: int)

  predicate Effective(db: Database, op: RowOp) {
    && op.relation in db
    && var rows := db[op.relation].rows;
       match op
       case InsertRow(_, k, _) => k !in rows
       case UpdateRow(_, k, n, _) => k in rows && (n == k || n !in rows)
       case DeleteRow(_, k) => k in rows
  }

  function Perform(db: Database, op: RowOp): Database {
    if !Effective(db, op) then db
    else
      var t := db[op.relation];
      match op
      case InsertRow(rel, k, row) => db[rel := t.(rows := t.rows[k := row])]
      case UpdateRow(rel, k, n, row) => db[rel := t.(rows := (t.rows - {k})[n := row])]
      case DeleteRow(rel, k) => db[rel := t.(rows := t.rows - {k})]
  }

  function AfterOps(db: Database, ops: seq<RowOp>): Database {
    if ops == [] then db else Perform(AfterOps(db, ops[..|ops| - 1]), ops[|ops| - 1])
  }

  // ------------------------------------------------------------------ restore

  /** The assignments of a statement, later ones last. */
  function Assign(row: Row, cells: seq<(Column, Value)>): Row {
    if cells == [] then row
    else Assign(row, cells[..|cells| - 1])[cells[|cells| - 1].0 := cells[|cells| - 1].1]
  }

  /** The server accepts a column list without repeats and without unknown names. */
  predicate Assignable(t: Table, cells: seq<(Column, Value)>) {
    && (forall i :: 0 <= i < |cells| ==> cells[i].0 in t.columns)
    && (forall i, j :: 0 <= i < j < |cells| ==> cells[i].0 != cells[j].0)
  }

  /** What the server does with one statement of a revert: refuse it (a trigger that raises, a
      violated constraint), or run it. Then a BEFORE row trigger may rewrite the row about to
      be written, or skip it, and triggers may make other row changes. */
  datatype Firing = Raises | Fires(before: Row -> Option<Row>, after: seq<RowOp>)

  /** The behaviour of the revert's statements, by position. A firing for every position covers
      triggers that depend on the clock or on the rest of the database. */
  type Script = nat -> Firing

  /** A row the table can hold. */
  predicate Storable(t: Table, row: Row) {
    && (forall c :: c in t.columns ==> c in row) && (forall c :: c in row ==> c in t.columns)
    && PK_COLUMN in row && row[PK_COLUMN].Int?
  }

  function KeyOf(row: Row): int {
    if Cell(row, PK_COLUMN).Int? then Cell(row, PK_COLUMN).i else 0
  }

  /** Row `k` is written as `row`, which may move it. */
  function Rewrite(t: Table, k: int, row: Row): Result<Table, RevertError> {
    if !Storable(t, row) || (KeyOf(row) != k && KeyOf(row) in t.rows) then Failure(RevertBackend)
    else Success(t.(rows := (t.rows - {k})[KeyOf(row) := row]))
  }

  /** `UPDATE t SET cells WHERE id = k` under the row trigger `before`. */
  function SqlUpdate(t: Table, cells: seq<(Column, Value)>, k: int, before: Row -> Option<Row>)
    : Result<Table, RevertError>
  {
    if !Assignable(t, cells) then Failure(RevertBackend)
    else if k !in t.rows then Success(t)
    else match before(Assign(t.rows[k], cells))
      case None => Success(t)
      case Some(row) => Rewrite(t, k, row)
  }

  function NullRow(cols: seq<Column>): (r: Row)
    ensures forall c :: c in r <==> c in cols
    ensures forall c :: c in r ==> r[c] == Null
  {
    map c | c in cols :: Null
  }

  /** A new row; a taken key is refused. */
  function Store(t: Table, row: Row): Result<Table, RevertError> {
    if !Storable(t, row) || KeyOf(row) in t.rows then Failure(RevertBackend)
    else Success(t.(rows := t.rows[KeyOf(row) := row]))
  }

  /** `INSERT INTO t(cells)` under the row trigger `before`; columns left out are null. */
  function SqlInsert(t: Table, cells: seq<(Column, Value)>, before: Row -> Option<Row>): Result<Table, RevertError> {
    if !Assignable(t, cells) then Failure(RevertBackend)
    else match before(Assign(NullRow(t.columns), cells))
      case None => Success(t)
      case Some(row) => Store(t, row)
  }

  function NonKey(image: seq<(Column, Value)>): (r: seq<(Column, Value)>) {
    if image == [] then []
    else
      var last := image[|image| - 1];
      NonKey(image[..|image| - 1]) + (if last.0 == PK_COLUMN then [] else [last])
  }

  /** One row of `restore_update`. */
  function RestoreUpdateRow(t: Table, row: RowImage, before: Row -> Option<Row>): Result<Table, RevertError> {
    if row.pk == [] || !row.pk[0].Int? then Failure(RevertBackend)
    else if NonKey(row.image) == [] then Failure(RevertBackend)
    else SqlUpdate(t, NonKey(row.image), row.pk[0].i, before)
  }

  /** One row of `restore_insert`. */
  function RestoreInsertRow(t: Table, row: RowImage, before: Row -> Option<Row>): Result<Table, RevertError> {
    if row.image == [] then Failure(RevertBackend) else SqlInsert(t, row.image, before)
  }

  /** One row of either, under one firing. */
  function RestoreRow(kind: InverseKind, t: Table, row: RowImage, firing: Firing): Result<Table, RevertError> {
    if firing.Raises? then Failure(RevertBackend)
    else match kind
      case PreimageUpsert => RestoreUpdateRow(t, row, firing.before)
      case Insert => RestoreInsertRow(t, row, firing.before)
  }

  /** Why a restoring statement is not even sent, or is refused: the server raises; for an UPDATE,
      the row has no integer key or no column besides the key; for an INSERT, no column. */
  lemma RestoreFaults(kind: InverseKind, t: Table, row: RowImage, firing: Firing)
    ensures firing.Raises? ==> RestoreRow(kind, t, row, firing) == Failure(RevertBackend)
    ensures kind == PreimageUpsert && (row.pk == [] || !row.pk[0].Int?) ==>
            RestoreRow(kind, t, row, firing) == Failure(RevertBackend)
    ensures kind == PreimageUpsert && (forall i :: 0 <= i < |row.image| ==> row.image[i].0 == PK_COLUMN) ==>
            RestoreRow(kind, t, row, firing) == Failure(RevertBackend)
    ensures kind == Insert && row.image == [] ==> RestoreRow(kind, t, row, firing) == Failure(RevertBackend)
  {
    if forall i :: 0 <= i < |row.image| ==> row.image[i].0 == PK_COLUMN {
      OnlyKeysLeaveNothing(row.image);
    }
  }

  lemma {:induction false} OnlyKeysLeaveNothing(image: seq<(Column, Value)>)
    requires forall i :: 0 <= i < |image| ==> image[i].0 == PK_COLUMN
    ensures NonKey(image) == []
  {
    if image != [] {
      OnlyKeysLeaveNothing(image[..|image| - 1]);
    }
  }

  /** The same in the database, with what triggers change besides. */
  function RestoreIn(kind: InverseKind, db: Database, rel: Relation, row: RowImage, firing: Firing)
    : Result<Database, RevertError>
  {
    if rel !in db then Failure(RevertBackend)
    else
      var restored := RestoreRow(kind, db[rel], row, firing);
      if restored.Failure? then Failure(restored.error)
      else Success(AfterOps(db[rel := restored.value], firing.after))
  }

  function RestoreNext(
    kind: InverseKind, earlier: Result<Database, RevertError>, rel: Relation, row: RowImage, firing: Firing)
    : Result<Database, RevertError>
  {
    if earlier.Failure? then earlier else RestoreIn(kind, earlier.value, rel, row, firing)
  }

  /** `restore_update` or `restore_insert` over a relation's rows, in order, the first of them
      being statement `start` of the revert. */
  function RestoreRelation(
    kind: InverseKind, db: Database, rel: Relation, rows: seq<RowImage>, script: Script, start: nat)
    : Result<Database, RevertError>
  {
    if rows == [] then Success(db)
    else
      var n := |rows| - 1;
      RestoreNext(kind, RestoreRelation(kind, db, rel, rows[..n], script, start), rel, rows[n], script(start + n))
  }

  /** How many statements restore the relations of `order`. */
  function Statements(order: seq<Relation>, routed: Routed): nat {
    if order == [] then 0
    else Statements(order[..|order| - 1], routed) + |RowsAt(routed, order[|order| - 1])|
  }

  /** `revert_body`: the relations in foreign-key order. */
  function RestoreAll(kind: InverseKind, db: Database, order: seq<Relation>, routed: Routed, script: Script)
    : Result<Database, RevertError>
  {
    if order == [] then Success(db)
    else
      var init, rel := order[..|order| - 1], order[|order| - 1];
      var earlier := RestoreAll(kind, db, init, routed, script);
      if earlier.Failure? then earlier
      else RestoreRelation(kind, earlier.value, rel, RowsAt(routed, rel), script, Statements(init, routed))
  }

  /** The database a revert commits, or why it rolls back. */
  function Reverted(plan: InversePlan, db: Database, script: Script): Result<Database, RevertError> {
    var routed := RouteAll(plan, plan.rows);
    if routed.Failure? then Failure(routed.error) else RestoreAll(plan.kind, db, plan.fkOrder, routed.value, script)
  }
}
