/**
  What the generated statements do to the target's tables, compared with
  replaying the row changes themselves.
 */
module SqlMeaning {
  import opened Wrappers
  import opened Host
  import opened Event
  import opened Sql
  import opened SqlReader
  import opened Texts

  /** A stored row. `None` is NULL. */
  type Record = map<string, SqlValue>

  type Table = seq<Record>

  type Db = map<(string, string), Table>

  // ── The target's semantics ────────────────────────────────────────────────

  /** `c = v AND ...`: a comparison with NULL is never true. */
  predicate Matches(r: Record, wheres: seq<Assignment>) {
    forall w <- wheres :: w.1.Some? && w.0 in r && r[w.0] == w.1
  }

  function Overwrite(r: Record, sets: seq<Assignment>): Record
    decreases |sets|
  {
    if sets == [] then r else Overwrite(r[sets[0].0 := sets[0].1], sets[1..])
  }

  function Zip(cols: seq<string>, vals: seq<SqlValue>): seq<Assignment>
    requires |cols| == |vals|
  {
    seq(|cols|, i requires 0 <= i < |cols| => (cols[i], vals[i]))
  }

  function RecordOf(cols: seq<string>, vals: seq<SqlValue>): Record
    requires |cols| == |vals|
  {
    Overwrite(map[], Zip(cols, vals))
  }

  function DeleteWhere(t: Table, wheres: seq<Assignment>): Table {
    if t == [] then []
    else (if Matches(t[0], wheres) then [] else [t[0]]) + DeleteWhere(t[1..], wheres)
  }

  function UpdateWhere(t: Table, wheres: seq<Assignment>, sets: seq<Assignment>): Table {
    if t == [] then []
    else [if Matches(t[0], wheres) then Overwrite(t[0], sets) else t[0]] + UpdateWhere(t[1..], wheres, sets)
  }

  function EmptyAll(db: Db, targets: seq<TableRef>): Option<Db> {
    if targets == [] then Some(db)
    else
      match targets[0]
      case Bare(_) => None
      case Qualified(s, t) => if (s, t) in db then EmptyAll(db[(s, t) := []], targets[1..]) else None
  }

  /** The statement on the rows of its table. */
  function ExecOn(rows: Table, st: Statement): Option<Table>
    requires !st.TruncateTables?
  {
    match st
    case InsertInto(_, cols, vals) => if |cols| != |vals| then None else Some(rows + [RecordOf(cols, vals)])
    case UpdateSet(_, sets, wheres) => Some(UpdateWhere(rows, wheres, sets))
    case DeleteFrom(_, wheres) => Some(DeleteWhere(rows, wheres))
  }

  /** `None` when the statement is rejected. */
  function Exec(db: Db, st: Statement): Option<Db> {
    if st.TruncateTables? then EmptyAll(db, st.targets)
    else
      match st.target
      case Bare(_) => None
      case Qualified(s, t) =>
        if (s, t) !in db then None
        else
          var rows :- ExecOn(db[(s, t)], st);
          Some(db[(s, t) := rows])
  }

  /** The statements of one transaction, read from their text. */
  function ExecAll(db: Db, texts: seq<string>): Option<Db>
    decreases |texts|
  {
    if texts == [] then Some(db)
    else
      var st :- ReadStatement(texts[0]);
      var next :- Exec(db, st);
      ExecAll(next, texts[1..])
  }

  // ── Replaying the changes themselves ──────────────────────────────────────

  /** What a column holds: its whole text, or nothing when it is NULL. */
  function Datum(v: ColVal): Option<string>
    requires !v.Unchanged?
  {
    if v.Null? then None else Some(v.text)
  }

  /** The values a row carries. */
  function Cells(row: Row): Record {
    map c | c in row && !row[c].Unchanged? :: Datum(row[c])
  }

  function RemoveFirst(t: Table, r: Record): Table {
    if t == [] then [] else if t[0] == r then t[1..] else [t[0]] + RemoveFirst(t[1..], r)
  }

  function ReplaceFirst(t: Table, r: Record, sub: Record): Table {
    if t == [] then [] else if t[0] == r then [sub] + t[1..] else [t[0]] + ReplaceFirst(t[1..], r, sub)
  }

  /** What one row change makes of the rows of its table. */
  function Changed(rows: Table, e: WalEvent): Table
    requires e.IsRow() && (e.Update? ==> e.before.Some?)
  {
    match e
    case Insert(_, _, _, row) => rows + [Cells(row)]
    case Update(_, _, _, before, row) =>
      ReplaceFirst(rows, Cells(before.value), Cells(before.value) + Cells(row))
    case Delete(_, _, _, row) => RemoveFirst(rows, Cells(row))
  }

  /** The row changed in its table; or tables emptied by name. A change without a usable old row is lost. */
  function Replay(db: Db, event: WalEvent): Db {
    if event.Truncate? then Emptied(db, event.tables)
    else if !event.IsRow() || (event.Update? && event.before.None?) || (event.schema, event.table) !in db then db
    else
      var k := (event.schema, event.table);
      db[k := Changed(db[k], event)]
  }

  function Emptied(db: Db, names: seq<string>): Db {
    map k | k in db :: if QualifiedName(k.0, k.1) in names then [] else db[k]
  }

  function ReplayAll(db: Db, events: seq<WalEvent>): Db
    decreases |events|
  {
    if events == [] then db else ReplayAll(Replay(db, events[0]), events[1..])
  }

  // ── When a WHERE clause built from a row finds that row ───────────────────

  predicate Full(row: Row) {
    row != map[] && forall c <- row :: !row[c].Unchanged?
  }

  predicate NullFree(row: Row) {
    forall c <- row :: row[c].Text?
  }

  /** Every record of the table has the columns of `row`. */
  predicate SameColumns(t: Table, row: Row) {
    forall r <- t :: r.Keys == row.Keys
  }

  function Count(t: Table, r: Record): nat {
    if t == [] then 0 else (if t[0] == r then 1 else 0) + Count(t[1..], r)
  }

  /** For a full row the clause lists every column with its value, and nothing else. */
  lemma {:induction false} WheresList(order: Order, row: Row)
    requires OrderOk(order) && Full(row)
    ensures Wheres(order, row) != []
    ensures forall c :: c in row ==> (c, Datum(row[c])) in Wheres(order, row)
    ensures forall w :: w in Wheres(order, row) ==> w.0 in row && w.1 == Datum(row[w.0])
  {
    var cols, wheres := SentColumns(order, row), Wheres(order, row);
    assert ListsKeys(order(row), row);
    var some :| some in row;
    assert some in cols;
    forall c | c in row ensures (c, Datum(row[c])) in wheres {
      var i :| 0 <= i < |cols| && cols[i] == c;
      assert wheres[i] in wheres;
    }
    forall w | w in wheres ensures w.0 in row && w.1 == Datum(row[w.0]) {
      var i :| 0 <= i < |wheres| && wheres[i] == w;
      assert cols[i] in cols;
    }
  }

  lemma {:induction false} WhereExact(order: Order, row: Row, r: Record)
    requires OrderOk(order) && Full(row) && r.Keys == row.Keys
    ensures Matches(r, Wheres(order, row)) <==> NullFree(row) && r == Cells(row)
  {
    WheresList(order, row);
    if Matches(r, Wheres(order, row)) {
      forall c | c in row ensures row[c].Text? && r[c] == Datum(row[c]) {
        assert (c, Datum(row[c])) in Wheres(order, row);
      }
      assert r == Cells(row);
    }
  }

  function MapOf(sets: seq<Assignment>): Record {
    if sets == [] then map[] else map[sets[0].0 := sets[0].1] + MapOf(sets[1..])
  }

  lemma {:induction false} OverwriteIsMerge(sets: seq<Assignment>, r: Record)
    ensures Overwrite(r, sets) == r + MapOf(sets)
    decreases |sets|
  {
    if sets != [] {
      var (c, v) := sets[0];
      OverwriteIsMerge(sets[1..], r[c := v]);
      assert r[c := v] + MapOf(sets[1..]) == r + MapOf(sets);
    }
  }

  lemma {:induction false} MapOfLookup(sets: seq<Assignment>)
    requires forall i, j :: 0 <= i < j < |sets| ==> sets[i].0 != sets[j].0
    ensures forall i :: 0 <= i < |sets| ==> sets[i].0 in MapOf(sets) && MapOf(sets)[sets[i].0] == sets[i].1
    ensures forall c :: c in MapOf(sets) ==> exists i :: 0 <= i < |sets| && sets[i].0 == c
  {
    if sets != [] {
      MapOfLookup(sets[1..]);
      assert forall i :: 1 <= i < |sets| ==> sets[i] == sets[1..][i - 1];
    }
  }

  /** Assignments to distinct columns that list `m` overwrite with `m`. */
  lemma {:induction false} OverwriteMap(sets: seq<Assignment>, r: Record, m: Record)
    requires forall i, j :: 0 <= i < j < |sets| ==> sets[i].0 != sets[j].0
    requires forall i :: 0 <= i < |sets| ==> sets[i].0 in m && m[sets[i].0] == sets[i].1
    requires forall c :: c in m ==> exists i :: 0 <= i < |sets| && sets[i].0 == c
    ensures Overwrite(r, sets) == r + m
  {
    OverwriteIsMerge(sets, r);
    MapOfLookup(sets);
    assert MapOf(sets) == m;
  }

  lemma {:induction false} SentExact(order: Order, row: Row)
    requires OrderOk(order)
    ensures var cols := InsertColumns(order, row); Distinct(cols) && forall c :: c in cols <==> c in Cells(row)
  {
    assert ListsKeys(order(row), row);
  }

  /** The SET clause writes exactly the values the row carries. */
  lemma {:induction false} OverwriteAll(order: Order, row: Row, r: Record)
    requires OrderOk(order)
    ensures Overwrite(r, Sets(order, row)) == r + Cells(row)
  {
    var cols, sets, m := InsertColumns(order, row), Sets(order, row), Cells(row);
    SentExact(order, row);
    forall i | 0 <= i < |sets| ensures sets[i].0 == cols[i] && cols[i] in m && m[cols[i]] == sets[i].1 {
      assert cols[i] in cols;
    }
    forall c | c in m ensures exists i :: 0 <= i < |sets| && sets[i].0 == c {
      assert c in cols;
      var i :| 0 <= i < |cols| && cols[i] == c;
      assert sets[i].0 == c;
    }
    OverwriteMap(sets, r, m);
  }

  // ── Exactly when DELETE and UPDATE do what the change did ─────────────────

  lemma {:induction false} CountBound(t: Table, r: Record)
    ensures r in t <==> Count(t, r) > 0
    ensures |RemoveFirst(t, r)| == |t| - (if r in t then 1 else 0)
  {
    if t != [] {
      assert t == [t[0]] + t[1..];
      CountBound(t[1..], r);
    }
  }

  /** `wheres` finds `r`, and only `r`, when `usable`; otherwise it finds nothing. */
  ghost predicate Finds(t: Table, wheres: seq<Assignment>, r: Record, usable: bool) {
    forall i :: 0 <= i < |t| ==> (Matches(t[i], wheres) <==> usable && t[i] == r)
  }

  lemma {:induction false} FindsRow(order: Order, row: Row, t: Table)
    requires OrderOk(order) && Full(row) && SameColumns(t, row)
    ensures Finds(t, Wheres(order, row), Cells(row), NullFree(row))
  {
    forall i | 0 <= i < |t|
      ensures Matches(t[i], Wheres(order, row)) <==> NullFree(row) && t[i] == Cells(row)
    {
      assert t[i] in t;
      WhereExact(order, row, t[i]);
    }
  }

  lemma {:induction false} DeleteFound(t: Table, wheres: seq<Assignment>, r: Record, usable: bool)
    requires Finds(t, wheres, r, usable)
    ensures |DeleteWhere(t, wheres)| == |t| - (if usable then Count(t, r) else 0)
    ensures !usable || Count(t, r) == 0 ==> DeleteWhere(t, wheres) == t
    ensures usable && Count(t, r) == 1 ==> DeleteWhere(t, wheres) == RemoveFirst(t, r)
  {
    if t != [] {
      assert t == [t[0]] + t[1..];
      DeleteFound(t[1..], wheres, r, usable);
    }
  }

  lemma {:induction false} RemoveAbsent(t: Table, r: Record)
    requires r !in t
    ensures RemoveFirst(t, r) == t
    ensures forall sub :: ReplaceFirst(t, r, sub) == t
  {
    if t != [] {
      RemoveAbsent(t[1..], r);
    }
  }

  /**
    The DELETE for a full old row removes exactly one occurrence of it just
    when the row is absent, or occurs once and has no NULL.
   */
  lemma {:induction false} DeleteExact(order: Order, row: Row, t: Table)
    requires OrderOk(order) && Full(row) && SameColumns(t, row)
    ensures DeleteWhere(t, Wheres(order, row)) == RemoveFirst(t, Cells(row)) <==>
            Count(t, Cells(row)) == 0 || (Count(t, Cells(row)) == 1 && NullFree(row))
  {
    FindsRow(order, row, t);
    DeleteFound(t, Wheres(order, row), Cells(row), NullFree(row));
    CountBound(t, Cells(row));
    if Cells(row) !in t {
      RemoveAbsent(t, Cells(row));
    }
  }

  /** UPDATE leaves the table alone exactly when it finds no row or sets it to what it was. */
  lemma {:induction false} UpdateNothing(t: Table, wheres: seq<Assignment>, sets: seq<Assignment>, r: Record,
      usable: bool)
    requires Finds(t, wheres, r, usable)
    ensures UpdateWhere(t, wheres, sets) == t <==> Count(t, r) == 0 || !usable || Overwrite(r, sets) == r
  {
    if t != [] {
      assert t == [t[0]] + t[1..];
      UpdateNothing(t[1..], wheres, sets, r, usable);
    }
  }

  lemma {:induction false} UpdateFound(t: Table, wheres: seq<Assignment>, sets: seq<Assignment>, r: Record, usable: bool)
    requires Finds(t, wheres, r, usable)
    ensures UpdateWhere(t, wheres, sets) == ReplaceFirst(t, r, Overwrite(r, sets)) <==>
            Count(t, r) == 0 || (Count(t, r) == 1 && usable) || Overwrite(r, sets) == r
  {
    if t != [] {
      var u, v := UpdateWhere(t, wheres, sets), ReplaceFirst(t, r, Overwrite(r, sets));
      UpdateFound(t[1..], wheres, sets, r, usable);
      UpdateNothing(t[1..], wheres, sets, r, usable);
      assert u == v <==> u[0] == v[0] && u[1..] == v[1..] by {
        assert u == [u[0]] + u[1..] && v == [v[0]] + v[1..];
      }
    }
  }

  /** The same for UPDATE, which is also right whenever it changes nothing. */
  lemma {:induction false} UpdateExact(order: Order, before: Row, row: Row, t: Table)
    requires OrderOk(order) && Full(before) && SameColumns(t, before)
    ensures var sub := Cells(before) + Cells(row);
            UpdateWhere(t, Wheres(order, before), Sets(order, row)) == ReplaceFirst(t, Cells(before), sub) <==>
            || Count(t, Cells(before)) == 0
            || (Count(t, Cells(before)) == 1 && NullFree(before))
            || sub == Cells(before)
  {
    FindsRow(order, before, t);
    OverwriteAll(order, row, Cells(before));
    UpdateFound(t, Wheres(order, before), Sets(order, row), Cells(before), NullFree(before));
  }

  // ── Table names ───────────────────────────────────────────────────────────

  /** A qualified name splits back into its parts exactly when the schema has no dot. */
  lemma {:induction false} SplitExact(schema: string, table: string)
    ensures DotSpan(QualifiedName(schema, table)) == |schema| <==> '.' !in schema
    ensures DotSpan(QualifiedName(schema, table)) < |QualifiedName(schema, table)|
    ensures '.' !in schema ==>
              QualifiedName(schema, table)[..|schema|] == schema &&
              QualifiedName(schema, table)[|schema| + 1..] == table
  {
    var name := QualifiedName(schema, table);
    if schema != "" && schema[0] != '.' {
      assert name[1..] == QualifiedName(schema[1..], table);
      SplitExact(schema[1..], table);
      assert schema == [schema[0]] + schema[1..];
    }
  }

  // ── Whole transactions ────────────────────────────────────────────────────

  /** The target holds each source table under its mapped name. */
  ghost predicate Mirrors(db: Db, target: Db, sm: SchemaMap) {
    forall k <- db :: StoredAs(target, if k in sm then sm[k] else k, db[k])
  }

  predicate StoredAs(target: Db, k: (string, string), rows: Table) {
    k in target && target[k] == rows
  }

  ghost predicate Injective(db: Db, sm: SchemaMap) {
    forall j, k :: j in db && k in db && MapTable(j, sm) == MapTable(k, sm) ==> j == k
  }

  /** Tables that mirror no source table are left alone. */
  ghost predicate OthersKept(db: Db, target: Db, target': Db, sm: SchemaMap) {
    && target'.Keys == target.Keys
    && forall x :: x in target && (forall k <- db :: MapTable(k, sm) != x) ==> target'[x] == target[x]
  }

  /** The hypotheses on the rows a change meets. */
  ghost predicate RowsAdmit(rows: Table, e: WalEvent)
    requires e.IsRow()
  {
    match e
    case Insert(_, _, _, row) => Full(row)
    case Update(_, _, _, before, _) => before.Some? && Identifies(rows, before.value)
    case Delete(_, _, _, row) => Identifies(rows, row)
  }

  /** A full NULL-free row of the table's columns, stored at most once. */
  predicate Identifies(rows: Table, row: Row) {
    Full(row) && NullFree(row) && SameColumns(rows, row) && Count(rows, Cells(row)) <= 1
  }

  /** The hypotheses under which a change can be carried over by statement. */
  ghost predicate Admissible(db: Db, event: WalEvent) {
    if event.Truncate? then event.tables != [] && AllNamed(db, event.tables)
    else
      event.IsRow() ==> (event.schema, event.table) in db && RowsAdmit(db[(event.schema, event.table)], event)
  }

  ghost predicate IsTableNamed(db: Db, k: (string, string), name: string) {
    k in db && QualifiedName(k.0, k.1) == name
  }

  ghost predicate AllAdmissible(db: Db, events: seq<WalEvent>)
    decreases |events|
  {
    events != [] ==> Admissible(db, events[0]) && AllAdmissible(Replay(db, events[0]), events[1..])
  }

  ghost predicate DotFree(db: Db) {
    forall k <- db :: '.' !in k.0
  }

  ghost predicate Linked(db: Db, target: Db, sm: SchemaMap) {
    Mirrors(db, target, sm) && Injective(db, sm) && DotFree(db)
  }

  /** What must hold of the target after a step from `(db, target)` to `(db', target')`. */
  ghost predicate CarriedOver(db: Db, target: Db, db': Db, target': Db, sm: SchemaMap) {
    db'.Keys == db.Keys && Linked(db', target', sm) && OthersKept(db, target, target', sm)
  }

  lemma {:induction false} TableChanged(db: Db, target: Db, sm: SchemaMap, k: (string, string), rows: Table)
    requires Linked(db, target, sm) && k in db
    ensures CarriedOver(db, target, db[k := rows], target[MapTable(k, sm) := rows], sm)
  {
    var db', target' := db[k := rows], target[MapTable(k, sm) := rows];
    assert db'.Keys == db.Keys;
    forall j | j in db' ensures StoredAs(target', MapTable(j, sm), db'[j]) {
      assert StoredAs(target, MapTable(j, sm), db[j]);
    }
  }

  /** The target reads the text of a generated statement and carries it out. */
  lemma {:induction false} EmittedExec(order: Order, e: WalEvent, sm: SchemaMap, target: Db, st: Statement)
    requires GenSql(order, e, sm) == Stmt(st) && Readable(st)
    ensures ExecAll(target, Emitted(order, e, sm)) == Exec(target, st)
  {
    StatementReadsBack(st);
    match Exec(target, st)
    case None =>
    case Some(next) => assert ExecAll(next, []) == Some(next);
  }

  lemma {:induction false} EmittedRuns(order: Order, e: WalEvent, sm: SchemaMap, target: Db, st: Statement,
      k: (string, string))
    requires GenSql(order, e, sm) == Stmt(st) && Readable(st) && !st.TruncateTables?
    requires st.target == Qualified(k.0, k.1) && k in target && ExecOn(target[k], st).Some?
    ensures ExecAll(target, Emitted(order, e, sm)) == Some(target[k := ExecOn(target[k], st).value])
  {
    EmittedExec(order, e, sm, target, st);
  }

  lemma {:induction false} InsertedColumns(order: Order, row: Row)
    requires OrderOk(order) && Full(row)
    ensures var cols := InsertColumns(order, row);
            cols != [] && Distinct(cols) && forall c :: c in cols <==> c in row
  {
    assert ListsKeys(order(row), row);
    var some :| some in row;
    assert some in InsertColumns(order, row);
  }

  lemma {:induction false} RowRecord(cols: seq<string>, vals: seq<SqlValue>, row: Row)
    requires |vals| == |cols| && Distinct(cols) && Full(row) && forall c :: c in cols <==> c in row
    requires forall i :: 0 <= i < |cols| ==> cols[i] in row && vals[i] == SqlOf(row[cols[i]])
    ensures RecordOf(cols, vals) == Cells(row)
  {
    var sets := Zip(cols, vals);
    forall c | c in Cells(row) ensures exists i :: 0 <= i < |sets| && sets[i].0 == c {
      assert c in cols;
      var i :| 0 <= i < |cols| && cols[i] == c;
      assert sets[i].0 == c;
    }
    OverwriteMap(sets, map[], Cells(row));
  }

  lemma {:induction false} UpdateRuns(order: Order, e: WalEvent, sm: SchemaMap, target: Db, wheres: seq<Assignment>,
      sets: seq<Assignment>)
    requires e.Update? && e.before.Some? && wheres == Wheres(order, e.before.value) && wheres != []
    requires sets == Sets(order, e.newRow) && MapTable((e.schema, e.table), sm) in target
    ensures var k := MapTable((e.schema, e.table), sm);
            ExecAll(target, Emitted(order, e, sm)) == Some(target[k := UpdateWhere(target[k], wheres, sets)])
  {
    var k := MapTable((e.schema, e.table), sm);
    if sets == [] {
      UpdateByNothing(target[k], wheres);
      assert target[k := target[k]] == target;
    } else {
      EmittedRuns(order, e, sm, target, UpdateSet(TargetOf(e.schema, e.table, sm), sets, wheres), k);
    }
  }

  lemma {:induction false} InsertRuns(order: Order, e: WalEvent, sm: SchemaMap, target: Db)
    requires OrderOk(order) && e.Insert? && Full(e.newRow) && MapTable((e.schema, e.table), sm) in target
    ensures var k := MapTable((e.schema, e.table), sm);
            ExecAll(target, Emitted(order, e, sm)) == Some(target[k := target[k] + [Cells(e.newRow)]])
  {
    var cols := InsertColumns(order, e.newRow);
    InsertedColumns(order, e.newRow);
    RowRecord(cols, Values(cols, e.newRow), e.newRow);
    var st := InsertInto(TargetOf(e.schema, e.table, sm), cols, Values(cols, e.newRow));
    EmittedRuns(order, e, sm, target, st, MapTable((e.schema, e.table), sm));
  }

  lemma {:induction false} DeleteRuns(order: Order, e: WalEvent, sm: SchemaMap, target: Db, wheres: seq<Assignment>)
    requires e.Delete? && wheres == Wheres(order, e.oldRow) && wheres != []
    requires MapTable((e.schema, e.table), sm) in target
    ensures var k := MapTable((e.schema, e.table), sm);
            ExecAll(target, Emitted(order, e, sm)) == Some(target[k := DeleteWhere(target[k], wheres)])
  {
    var st := DeleteFrom(TargetOf(e.schema, e.table, sm), wheres);
    EmittedRuns(order, e, sm, target, st, MapTable((e.schema, e.table), sm));
  }

  lemma {:induction false} RowRuns(order: Order, e: WalEvent, sm: SchemaMap, target: Db)
    requires OrderOk(order) && e.IsRow() && MapTable((e.schema, e.table), sm) in target
    requires RowsAdmit(target[MapTable((e.schema, e.table), sm)], e)
    ensures var k := MapTable((e.schema, e.table), sm);
            ExecAll(target, Emitted(order, e, sm)) == Some(target[k := Changed(target[k], e)])
  {
    var rows := target[MapTable((e.schema, e.table), sm)];
    match e
    case Insert(_, _, _, _) =>
      InsertRuns(order, e, sm, target);
    case Update(_, _, _, before, row) =>
      WheresList(order, before.value);
      UpdateRuns(order, e, sm, target, Wheres(order, before.value), Sets(order, row));
      UpdateExact(order, before.value, row, rows);
    case Delete(_, _, _, row) =>
      WheresList(order, row);
      DeleteRuns(order, e, sm, target, Wheres(order, row));
      DeleteExact(order, row, rows);
  }

  lemma {:induction false} RowCarried(order: Order, e: WalEvent, db: Db, target: Db, sm: SchemaMap)
    requires OrderOk(order) && Linked(db, target, sm) && e.IsRow() && Admissible(db, e)
    ensures ExecAll(target, Emitted(order, e, sm)).Some?
    ensures CarriedOver(db, target, Replay(db, e), ExecAll(target, Emitted(order, e, sm)).value, sm)
  {
    var k := (e.schema, e.table);
    assert k in db && target[MapTable(k, sm)] == db[k];
    RowRuns(order, e, sm, target);
    TableChanged(db, target, sm, k, Changed(db[k], e));
  }

  lemma {:induction false} UpdateByNothing(t: Table, wheres: seq<Assignment>)
    ensures UpdateWhere(t, wheres, []) == t
  {
    if t != [] {
      UpdateByNothing(t[1..], wheres);
    }
  }

  ghost predicate Exists(db: Db, name: string) {
    exists k :: IsTableNamed(db, k, name)
  }

  ghost predicate AllNamed(db: Db, names: seq<string>) {
    forall i :: 0 <= i < |names| ==> Exists(db, names[i])
  }

  lemma {:induction false} EmptiedStep(db: Db, names: seq<string>, k: (string, string))
    requires DotFree(db) && names != [] && IsTableNamed(db, k, names[0]) && AllNamed(db, names)
    ensures Emptied(db[k := []], names[1..]) == Emptied(db, names)
    ensures AllNamed(db[k := []], names[1..])
  {
    SameNameSameTable(db, k);
    assert names == [names[0]] + names[1..];
    forall i | 0 <= i < |names[1..]| ensures Exists(db[k := []], names[1..][i]) {
      assert Exists(db, names[i + 1]);
      var j :| IsTableNamed(db, j, names[i + 1]);
      assert IsTableNamed(db[k := []], j, names[1..][i]);
    }
  }

  lemma {:induction false} EmptyFirst(names: seq<string>, target: Db, sm: SchemaMap, k: (string, string))
    requires names != [] && TruncateTarget(names[0], sm) == Qualified(k.0, k.1) && k in target
    ensures EmptyAll(target, TruncateTargets(names, sm)) == EmptyAll(target[k := []], TruncateTargets(names[1..], sm))
  {
    assert TruncateTargets(names, sm)[1..] == TruncateTargets(names[1..], sm);
  }

  lemma {:induction false} CarriedTwice(db: Db, target: Db, db1: Db, target1: Db, db2: Db, target2: Db, sm: SchemaMap)
    requires CarriedOver(db, target, db1, target1, sm) && CarriedOver(db1, target1, db2, target2, sm)
    ensures CarriedOver(db, target, db2, target2, sm)
  {
  }

  /** Emptying the mapped targets one by one empties exactly the named tables. */
  lemma {:induction false} EmptyCarried(names: seq<string>, db: Db, target: Db, sm: SchemaMap)
    requires Linked(db, target, sm) && AllNamed(db, names)
    ensures EmptyAll(target, TruncateTargets(names, sm)).Some?
    ensures CarriedOver(db, target, Emptied(db, names), EmptyAll(target, TruncateTargets(names, sm)).value, sm)
    decreases |names|
  {
    if names == [] {
      assert Emptied(db, names) == db;
    } else {
      assert Exists(db, names[0]);
      var k :| IsTableNamed(db, k, names[0]);
      SplitExact(k.0, k.1);
      EmptiedStep(db, names, k);
      TableChanged(db, target, sm, k, []);
      var db1, target1 := db[k := []], target[MapTable(k, sm) := []];
      EmptyFirst(names, target, sm, MapTable(k, sm));
      EmptyCarried(names[1..], db1, target1, sm);
      CarriedTwice(db, target, db1, target1, Emptied(db, names), EmptyAll(target, TruncateTargets(names, sm)).value, sm);
    }
  }

  lemma {:induction false} SameNameSameTable(db: Db, k: (string, string))
    requires DotFree(db) && k in db
    ensures forall j <- db :: QualifiedName(j.0, j.1) == QualifiedName(k.0, k.1) ==> j == k
  {
    forall j | j in db && QualifiedName(j.0, j.1) == QualifiedName(k.0, k.1) ensures j == k {
      SplitExact(j.0, j.1);
      SplitExact(k.0, k.1);
    }
  }

  lemma {:induction false} TruncateRuns(order: Order, e: WalEvent, sm: SchemaMap, target: Db)
    requires e.Truncate? && e.tables != [] && EmptyAll(target, TruncateTargets(e.tables, sm)).Some?
    ensures ExecAll(target, Emitted(order, e, sm)) == EmptyAll(target, TruncateTargets(e.tables, sm))
  {
    EmittedExec(order, e, sm, target, TruncateTables(TruncateTargets(e.tables, sm), e.restartSeqs, e.cascade));
  }

  lemma {:induction false} TruncateCarried(order: Order, e: WalEvent, db: Db, target: Db, sm: SchemaMap)
    requires Linked(db, target, sm) && e.Truncate? && e.tables != [] && AllNamed(db, e.tables)
    ensures ExecAll(target, Emitted(order, e, sm)).Some?
    ensures CarriedOver(db, target, Emptied(db, e.tables), ExecAll(target, Emitted(order, e, sm)).value, sm)
  {
    EmptyCarried(e.tables, db, target, sm);
    TruncateRuns(order, e, sm, target);
  }

  lemma {:induction false} EventCarried(order: Order, e: WalEvent, db: Db, target: Db, sm: SchemaMap)
    requires OrderOk(order) && Linked(db, target, sm) && Admissible(db, e)
    ensures ExecAll(target, Emitted(order, e, sm)).Some?
    ensures CarriedOver(db, target, Replay(db, e), ExecAll(target, Emitted(order, e, sm)).value, sm)
  {
    match e
    case Insert(_, _, _, _) => RowCarried(order, e, db, target, sm);
    case Update(_, _, _, _, _) => RowCarried(order, e, db, target, sm);
    case Delete(_, _, _, _) => RowCarried(order, e, db, target, sm);
    case Truncate(_, _, _, _) => TruncateCarried(order, e, db, target, sm);
    case _ =>
  }

  lemma {:induction false} ExecAppend(db: Db, xs: seq<string>, ys: seq<string>)
    ensures ExecAll(db, xs + ys) ==
            match ExecAll(db, xs) case None => None case Some(mid) => ExecAll(mid, ys)
    decreases |xs|
  {
    if xs == [] {
      assert xs + ys == ys;
    } else {
      assert (xs + ys)[1..] == xs[1..] + ys;
      match ReadStatement(xs[0])
      case None =>
      case Some(st) =>
        match Exec(db, st)
        case None =>
        case Some(next) => ExecAppend(next, xs[1..], ys);
    }
  }

  /**
    Running the statement texts of a transaction on the target has the effect
    of replaying its changes, and touches nothing else.
   */
  lemma {:induction false} StatementsPreserveMeaning(
      order: Order, events: seq<WalEvent>, db: Db, target: Db, sm: SchemaMap)
    requires OrderOk(order) && Linked(db, target, sm) && AllAdmissible(db, events)
    ensures ExecAll(target, GenStatements(order, events, sm)).Some?
    ensures CarriedOver(db, target, ReplayAll(db, events), ExecAll(target, GenStatements(order, events, sm)).value, sm)
    decreases |events|
  {
    if events != [] {
      var first, rest := Emitted(order, events[0], sm), GenStatements(order, events[1..], sm);
      assert GenStatements(order, events, sm) == first + rest;
      EventCarried(order, events[0], db, target, sm);
      var target1 := ExecAll(target, first).value;
      ExecAppend(target, first, rest);
      var db1 := Replay(db, events[0]);
      StatementsPreserveMeaning(order, events[1..], db1, target1, sm);
      CarriedTwice(db, target, db1, target1, ReplayAll(db1, events[1..]), ExecAll(target1, rest).value, sm);
    }
  }

  // ── What is stored in the end ─────────────────────────────────────────────

  /** The record has the whole text of each text column of `row` and NULL in each NULL one. */
  predicate Carries(r: Record, row: Row) {
    forall c <- row ::
      && (row[c].Text? ==> c in r && r[c] == Some(row[c].text))
      && (row[c].Null? ==> c in r && r[c] == None)
  }

  /** The mapped table on the target after the statement of an event. */
  function Afterwards(order: Order, e: WalEvent, target: Db, sm: SchemaMap): Table
    requires e.IsRow()
  {
    var k := if (e.schema, e.table) in sm then sm[(e.schema, e.table)] else (e.schema, e.table);
    match ExecAll(target, Emitted(order, e, sm))
    case None => []
    case Some(target') => if k in target' then target'[k] else []
  }

  /** The table of an admissible change is found where it is mapped, before and afterwards. */
  lemma {:induction false} StoredChange(order: Order, e: WalEvent, db: Db, target: Db, sm: SchemaMap)
    requires OrderOk(order) && Linked(db, target, sm) && e.IsRow() && Admissible(db, e)
    ensures Afterwards(order, e, target, sm) == Changed(db[(e.schema, e.table)], e)
  {
    var k := (e.schema, e.table);
    assert StoredAs(target, MapTable(k, sm), db[k]);
    RowRuns(order, e, sm, target);
  }

  /** An inserted row is one record more: its columns, with its values. */
  lemma {:induction false} InsertStored(order: Order, e: WalEvent, db: Db, target: Db, sm: SchemaMap)
    requires OrderOk(order) && Linked(db, target, sm) && e.Insert? && Admissible(db, e)
    ensures var rows, rows' := db[(e.schema, e.table)], Afterwards(order, e, target, sm);
            && |rows'| == |rows| + 1 && rows'[..|rows|] == rows
            && rows'[|rows|].Keys == e.newRow.Keys && Carries(rows'[|rows|], e.newRow)
  {
    StoredChange(order, e, db, target, sm);
  }

  /** An updated row keeps the values of the columns that came without one, and has those that came with one. */
  lemma {:induction false} UpdateStored(order: Order, e: WalEvent, db: Db, target: Db, sm: SchemaMap, i: nat)
    requires OrderOk(order) && Linked(db, target, sm) && e.Update? && Admissible(db, e)
    requires var rows := db[(e.schema, e.table)];
             i < |rows| && rows[i].Keys == e.before.value.Keys && Carries(rows[i], e.before.value)
    ensures var rows, rows' := db[(e.schema, e.table)], Afterwards(order, e, target, sm);
            && |rows'| == |rows| && (forall j :: 0 <= j < |rows| && j != i ==> rows'[j] == rows[j])
            && Carries(rows'[i], e.newRow) && KeepsRest(rows[i], e.newRow, rows'[i])
  {
    var rows := db[(e.schema, e.table)];
    UpdateChanges(rows, e, i);
    StoredChange(order, e, db, target, sm);
  }

  lemma {:induction false} UpdateChanges(rows: Table, e: WalEvent, i: nat)
    requires e.Update? && RowsAdmit(rows, e)
    requires i < |rows| && rows[i].Keys == e.before.value.Keys && Carries(rows[i], e.before.value)
    ensures var rows' := Changed(rows, e);
            && |rows'| == |rows| && (forall j :: 0 <= j < |rows| && j != i ==> rows'[j] == rows[j])
            && Carries(rows'[i], e.newRow) && KeepsRest(rows[i], e.newRow, rows'[i])
  {
    AsCells(rows[i], e.before.value);
    ReplacedAt(rows, rows[i], rows[i] + Cells(e.newRow), i);
    MergedCarries(rows[i], e.newRow);
  }

  /** Columns that came without a value are as they were. */
  predicate KeepsRest(r: Record, row: Row, r': Record) {
    forall c <- r :: (c in row ==> row[c].Unchanged?) ==> c in r' && r'[c] == r[c]
  }

  lemma {:induction false} MergedCarries(r: Record, row: Row)
    ensures Carries(r + Cells(row), row) && KeepsRest(r, row, r + Cells(row))
  {
  }

  lemma {:induction false} AsCells(r: Record, row: Row)
    requires r.Keys == row.Keys && Carries(r, row) && Full(row)
    ensures r == Cells(row)
  {
  }

  lemma {:induction false} ReplacedAt(t: Table, r: Record, sub: Record, i: nat)
    requires i < |t| && t[i] == r && Count(t, r) <= 1
    ensures ReplaceFirst(t, r, sub) == t[i := sub]
  {
    if i > 0 {
      CountBound(t[1..], r);
      assert t[1..][i - 1] == r;
      ReplacedAt(t[1..], r, sub, i - 1);
    } else {
      assert t[0 := sub] == [sub] + t[1..];
    }
  }

  /** A deleted row is one record less, and that the one with its values. */
  lemma {:induction false} DeleteStored(order: Order, e: WalEvent, db: Db, target: Db, sm: SchemaMap, i: nat)
    requires OrderOk(order) && Linked(db, target, sm) && e.Delete? && Admissible(db, e)
    requires var rows := db[(e.schema, e.table)];
             i < |rows| && rows[i].Keys == e.oldRow.Keys && Carries(rows[i], e.oldRow)
    ensures var rows := db[(e.schema, e.table)];
            Afterwards(order, e, target, sm) == rows[..i] + rows[i + 1..]
  {
    var rows := db[(e.schema, e.table)];
    StoredChange(order, e, db, target, sm);
    AsCells(rows[i], e.oldRow);
    RemovedAt(rows, rows[i], i);
  }

  lemma {:induction false} RemovedAt(t: Table, r: Record, i: nat)
    requires i < |t| && t[i] == r && Count(t, r) <= 1
    ensures RemoveFirst(t, r) == t[..i] + t[i + 1..]
  {
    if i > 0 {
      CountBound(t[1..], r);
      assert t[1..][i - 1] == r;
      RemovedAt(t[1..], r, i - 1);
      FirstKept(t, i);
    }
  }

  lemma {:induction false} FirstKept(t: Table, i: nat)
    requires 0 < i < |t|
    ensures t[..i] + t[i + 1..] == [t[0]] + (t[1..][..i - 1] + t[1..][i..])
  {
    assert t[..i] == [t[0]] + t[1..][..i - 1] && t[i + 1..] == t[1..][i..];
  }

  // ── The statements themselves ─────────────────────────────────────────────

  predicate SendsColumn(row: Row, c: string) {
    c in row && !row[c].Unchanged?
  }

  /** No statement comes of an event exactly when it leaves nothing to write, or no row to find. */
  lemma {:induction false} SkippedExactly(order: Order, e: WalEvent, sm: SchemaMap)
    requires OrderOk(order)
    ensures Emitted(order, e, sm) == [] <==>
            match e
            case Insert(_, _, _, row) => forall c :: !SendsColumn(row, c)
            case Update(_, _, _, before, row) =>
              (forall c :: !SendsColumn(row, c)) || before.None? || forall c :: !SendsColumn(before.value, c)
            case Delete(_, _, _, row) => forall c :: !SendsColumn(row, c)
            case Truncate(_, _, _, _) => false
            case _ => true
  {
    match e
    case Insert(_, _, _, row) => NothingSent(order, row);
    case Update(_, _, _, before, row) =>
      NothingSent(order, row);
      if before.Some? {
        NothingSent(order, before.value);
      }
    case Delete(_, _, _, row) => NothingSent(order, row);
    case _ =>
  }

  lemma {:induction false} NothingSent(order: Order, row: Row)
    requires OrderOk(order)
    ensures SentColumns(order, row) == [] <==> forall c :: !SendsColumn(row, c)
    ensures InsertColumns(order, row) == [] <==> SentColumns(order, row) == []
  {
    assert ListsKeys(order(row), row);
    assert forall c :: c in SentColumns(order, row) <==> SendsColumn(row, c);
    var cols, sorted := SentColumns(order, row), InsertColumns(order, row);
    assert cols != [] ==> cols[0] in cols;
    assert sorted != [] ==> sorted[0] in sorted;
  }

  /** INSERT and UPDATE list the columns in the order of their names. */
  lemma {:induction false} ColumnsInOrder(order: Order, row: Row)
    requires OrderOk(order)
    ensures var cols := InsertColumns(order, row);
            forall i, j :: 0 <= i < j < |cols| ==> Before(cols[i], cols[j])
  {
    var cols := InsertColumns(order, row);
    SentExact(order, row);
    SortedNames(SentColumns(order, row));
    forall i, j | 0 <= i < j < |cols| ensures Before(cols[i], cols[j]) {
      OneFirst(cols[i], cols[j]);
      StrLessExactly(cols[i], cols[j]);
    }
  }

  ghost predicate InOrder(names: seq<string>) {
    forall i, j :: 0 <= i < j < |names| ==> !StrLess(names[j], names[i])
  }

  lemma {:induction false} InsertedInOrder(c: string, sorted: seq<string>)
    requires InOrder(sorted)
    ensures InOrder(InsertName(c, sorted))
  {
    var r := InsertName(c, sorted);
    if sorted == [] {
    } else if !StrLess(sorted[0], c) {
      forall j | 0 < j < |r| ensures !StrLess(r[j], r[0]) {
        OneFirst(c, sorted[0]);
        if StrLess(sorted[j - 1], c) {
          NotAfter(sorted[j - 1], c, sorted[0]);
        }
      }
    } else {
      InsertedInOrder(c, sorted[1..]);
      forall j | 0 < j < |r| ensures !StrLess(r[j], r[0]) {
        OneFirst(c, sorted[0]);
        assert r[j] in InsertName(c, sorted[1..]);
      }
    }
  }

  /** What comes before something that does not come after `z` comes before `z`. */
  lemma {:induction false} NotAfter(x: string, y: string, z: string)
    requires StrLess(x, y) && !StrLess(z, y)
    ensures StrLess(x, z)
  {
    OneFirst(z, y);
    if StrLess(y, z) {
      FirstOfThree(x, y, z);
    }
  }

  lemma {:induction false} SortedNames(names: seq<string>)
    ensures InOrder(SortNames(names))
  {
    if names != [] {
      SortedNames(names[1..]);
      InsertedInOrder(names[0], SortNames(names[1..]));
    }
  }

  /** A truncation is one statement, on the tables in their order, with the options it came with. */
  lemma {:induction false} TruncateSays(order: Order, e: WalEvent, sm: SchemaMap)
    requires e.Truncate? && e.tables != []
    ensures |Emitted(order, e, sm)| == 1
    ensures match ReadStatement(Emitted(order, e, sm)[0])
            case Some(TruncateTables(targets, restart, cascade)) =>
              |targets| == |e.tables| && restart == e.restartSeqs && cascade == e.cascade
            case _ => false
  {
    StatementReadsBack(TruncateTables(TruncateTargets(e.tables, sm), e.restartSeqs, e.cascade));
  }
}
