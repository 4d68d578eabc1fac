/** WAL events to target statements. */
module Sql {
  import opened Wrappers
  import opened Host
  import opened Event
  import Quote

  type SchemaMap = map<(string, string), (string, string)>

  /** The order in which a row's hash map happens to be iterated. */
  type Order = Row -> seq<string>

  ghost predicate OrderOk(order: Order) {
    forall row :: ListsKeys(order(row), row)
  }

  ghost predicate ListsKeys(names: seq<string>, row: Row) {
    && (forall c :: c in names <==> c in row)
    && Distinct(names)
  }

  // ── Statements ────────────────────────────────────────────────────────────

  /** A table as written: qualified, or a bare name. */
  datatype TableRef = Qualified(schema: string, table: string) | Bare(table: string)

  /** A value as written: `None` is NULL. */
  type SqlValue = Option<string>

  type Assignment = (string, SqlValue)

  datatype Statement =
    | InsertInto(target: TableRef, cols: seq<string>, vals: seq<SqlValue>)
    | UpdateSet(target: TableRef, sets: seq<Assignment>, wheres: seq<Assignment>)
    | DeleteFrom(target: TableRef, wheres: seq<Assignment>)
    | TruncateTables(targets: seq<TableRef>, restart: bool, cascade: bool)

  datatype SkipReason = NoColumns | NoChanges | NoWhere | NotApplicable

  datatype Generated = Stmt(stmt: Statement) | Skipped(reason: SkipReason)

  // ── Generation ────────────────────────────────────────────────────────────

  function MapTable(key: (string, string), sm: SchemaMap): (string, string) {
    if key in sm then sm[key] else key
  }

  function TargetOf(schema: string, table: string, sm: SchemaMap): TableRef {
    var (s, t) := MapTable((schema, table), sm);
    Qualified(s, t)
  }

  /** The columns of `names` that carry a value to send. */
  function Sendable(names: seq<string>, row: Row): (cols: seq<string>)
    ensures forall c :: c in cols <==> c in names && c in row && !row[c].Unchanged?
    ensures Distinct(names) ==> Distinct(cols)
  {
    if names == [] then []
    else
      assert names == [names[0]] + names[1..];
      var more := Sendable(names[1..], row);
      assert Distinct(names) ==> names[0] !in names[1..];
      if names[0] !in row || row[names[0]].Unchanged? then more else [names[0]] + more
  }

  function SqlOf(v: ColVal): SqlValue {
    match v
    case Text(s) => Some(s)
    case _ => None
  }

  function InsertName(c: string, sorted: seq<string>): (r: seq<string>)
    ensures forall x :: x in r <==> x == c || x in sorted
    ensures c !in sorted && Distinct(sorted) ==> Distinct(r)
  {
    if sorted == [] || !StrLess(sorted[0], c) then [c] + sorted
    else
      assert sorted == [sorted[0]] + sorted[1..];
      assert Distinct(sorted) ==> sorted[0] !in sorted[1..];
      [sorted[0]] + InsertName(c, sorted[1..])
  }

  function SortNames(names: seq<string>): (r: seq<string>)
    ensures forall c :: c in r <==> c in names
    ensures Distinct(names) ==> Distinct(r)
  {
    if names == [] then []
    else
      assert names == [names[0]] + names[1..];
      assert Distinct(names) ==> names[0] !in names[1..];
      InsertName(names[0], SortNames(names[1..]))
  }

  function Assignments(cols: seq<string>, row: Row): (r: seq<Assignment>)
    requires forall c <- cols :: c in row
    ensures |r| == |cols|
    ensures forall i :: 0 <= i < |cols| ==> r[i] == (cols[i], SqlOf(row[cols[i]]))
  {
    if cols == [] then []
    else
      assert cols[0] in cols;
      [(cols[0], SqlOf(row[cols[0]]))] + Assignments(cols[1..], row)
  }

  function SentColumns(order: Order, row: Row): (cols: seq<string>)
    ensures forall c <- cols :: c in row
  {
    Sendable(order(row), row)
  }

  function InsertColumns(order: Order, row: Row): (cols: seq<string>)
    ensures forall c <- cols :: c in row
  {
    SortNames(SentColumns(order, row))
  }

  function Values(cols: seq<string>, row: Row): (vals: seq<SqlValue>)
    requires forall c <- cols :: c in row
    ensures |vals| == |cols|
    ensures forall i :: 0 <= i < |cols| ==> cols[i] in row && vals[i] == SqlOf(row[cols[i]])
  {
    assert forall i :: 0 <= i < |cols| ==> cols[i] in cols;
    seq(|cols|, i requires 0 <= i < |cols| => SqlOf(row[cols[i]]))
  }

  function Sets(order: Order, row: Row): seq<Assignment> {
    Assignments(InsertColumns(order, row), row)
  }

  function Wheres(order: Order, row: Row): seq<Assignment> {
    Assignments(SentColumns(order, row), row)
  }

  function GenInsert(order: Order, target: TableRef, row: Row): Generated {
    var cols := InsertColumns(order, row);
    if cols == [] then Skipped(NoColumns) else Stmt(InsertInto(target, cols, Values(cols, row)))
  }

  function GenUpdate(order: Order, target: TableRef, before: Option<Row>, row: Row): Generated {
    var sets := Sets(order, row);
    var wheres := if before.Some? then Wheres(order, before.value) else [];
    if sets == [] then Skipped(NoChanges)
    else if wheres == [] then Skipped(NoWhere)
    else Stmt(UpdateSet(target, sets, wheres))
  }

  function GenDelete(order: Order, target: TableRef, row: Row): Generated {
    var wheres := Wheres(order, row);
    if wheres == [] then Skipped(NoWhere) else Stmt(DeleteFrom(target, wheres))
  }

  /** The length of the part before the first dot. */
  function DotSpan(s: string): (n: nat)
    ensures n <= |s|
  {
    if s == "" || s[0] == '.' then 0 else 1 + DotSpan(s[1..])
  }

  /** A truncated table is split at its first dot. */
  function TruncateTarget(name: string, sm: SchemaMap): TableRef {
    var n := DotSpan(name);
    if n < |name| then TargetOf(name[..n], name[n + 1..], sm) else Bare(name)
  }

  function TruncateTargets(names: seq<string>, sm: SchemaMap): seq<TableRef> {
    seq(|names|, i requires 0 <= i < |names| => TruncateTarget(names[i], sm))
  }

  function GenSql(order: Order, event: WalEvent, sm: SchemaMap): Generated {
    match event
    case Insert(_, schema, table, row) => GenInsert(order, TargetOf(schema, table, sm), row)
    case Update(_, schema, table, before, row) => GenUpdate(order, TargetOf(schema, table, sm), before, row)
    case Delete(_, schema, table, row) => GenDelete(order, TargetOf(schema, table, sm), row)
    case Truncate(_, tables, cascade, restart) =>
      Stmt(TruncateTables(TruncateTargets(tables, sm), restart, cascade))
    case _ => Skipped(NotApplicable)
  }

  // ── Statement text ────────────────────────────────────────────────────────

  function RefText(t: TableRef): string {
    match t
    case Qualified(s, n) => Quote.Ident(s) + "." + Quote.Ident(n)
    case Bare(n) => Quote.Ident(n)
  }

  function ValueText(v: SqlValue): string {
    match v
    case Some(s) => Quote.Literal(s)
    case None => "NULL"
  }

  function AssignmentText(a: Assignment): string {
    Quote.Ident(a.0) + (" = " + ValueText(a.1))
  }

  function Join<T>(show: T -> string, sep: string, items: seq<T>): string {
    if items == [] then ""
    else if |items| == 1 then show(items[0])
    else show(items[0]) + (sep + Join(show, sep, items[1..]))
  }

  function Keyword(st: Statement): string {
    match st
    case InsertInto(_, _, _) => "INSERT INTO "
    case UpdateSet(_, _, _) => "UPDATE "
    case DeleteFrom(_, _) => "DELETE FROM "
    case TruncateTables(_, _, _) => "TRUNCATE "
  }

  function BodyText(st: Statement): string {
    match st
    case InsertInto(t, cols, vals) =>
      RefText(t) + (" (" + (Join(Quote.Ident, ", ", cols) +
      (") VALUES (" + (Join(ValueText, ", ", vals) + ")"))))
    case UpdateSet(t, sets, wheres) =>
      RefText(t) + (" SET " + (Join(AssignmentText, ", ", sets) +
      (" WHERE " + Join(AssignmentText, " AND ", wheres))))
    case DeleteFrom(t, wheres) =>
      RefText(t) + (" WHERE " + Join(AssignmentText, " AND ", wheres))
    case TruncateTables(ts, restart, cascade) =>
      Join(RefText, ", ", ts) +
      ((if restart then " RESTART IDENTITY" else "") + (if cascade then " CASCADE" else ""))
  }

  function StatementText(st: Statement): string {
    Keyword(st) + BodyText(st)
  }

  /** What one event contributes: its statement, or nothing when it is skipped. */
  function Emitted(order: Order, event: WalEvent, sm: SchemaMap): seq<string> {
    match GenSql(order, event, sm)
    case Stmt(st) => [StatementText(st)]
    case Skipped(_) => []
  }

  function Emitter(order: Order, sm: SchemaMap): WalEvent -> seq<string> {
    event => Emitted(order, event, sm)
  }

  /** The statements of a source transaction. */
  function GenStatements(order: Order, events: seq<WalEvent>, sm: SchemaMap): seq<string> {
    FlatMap(Emitter(order, sm), events)
  }

  method Push(order: Order, event: WalEvent, sm: SchemaMap, statements: seq<string>) returns (r: seq<string>)
    ensures r == statements + Emitted(order, event, sm)
  {
    match GenSql(order, event, sm)
    case Stmt(st) => r := statements + [StatementText(st)];
    case Skipped(_) => r := statements;
  }

  method Generate(order: Order, events: seq<WalEvent>, sm: SchemaMap) returns (statements: seq<string>)
    ensures statements == GenStatements(order, events, sm)
  {
    ghost var emit := Emitter(order, sm);
    statements := [];
    for i := 0 to |events|
      invariant statements == FlatMap(emit, events[..i])
    {
      statements := Push(order, events[i], sm, statements);
      FlatMapAppend(emit, events[..i], events[i]);
      assert events[..i + 1] == events[..i] + [events[i]];
    }
    assert events[..|events|] == events;
  }
}
