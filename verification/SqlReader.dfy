/** How the target reads statement text: the inverse of `Sql.StatementText`. */
module SqlReader {
  import opened Wrappers
  import opened Sql
  import Quote

  type Reader<T> = string -> Option<(T, string)>

  function Expect(lit: string, s: string): Option<string> {
    if lit <= s then Some(s[|lit|..]) else None
  }

  /** The text up to the closing quote, doubled quotes undone, and what follows it. */
  function Unquote(q: char, s: string): Option<(string, string)> {
    if s == "" then None
    else if s[0] != q then
      var (t, rest) :- Unquote(q, s[1..]);
      Some(([s[0]] + t, rest))
    else if |s| > 1 && s[1] == q then
      var (t, rest) :- Unquote(q, s[2..]);
      Some(([q] + t, rest))
    else Some(("", s[1..]))
  }

  function Quoted(q: char, s: string): Option<(string, string)> {
    if s != "" && s[0] == q then Unquote(q, s[1..]) else None
  }

  function ReadIdent(s: string): Option<(string, string)> {
    Quoted('"', s)
  }

  function ReadRef(s: string): Option<(TableRef, string)> {
    var (a, r) :- ReadIdent(s);
    if r != "" && r[0] == '.' then
      var (b, r) :- ReadIdent(r[1..]);
      Some((Qualified(a, b), r))
    else Some((Bare(a), r))
  }

  function ReadValue(s: string): Option<(SqlValue, string)> {
    if "NULL" <= s then Some((None, s[4..]))
    else
      var (v, r) :- Quoted('\'', s);
      Some((Some(v), r))
  }

  function ReadAssignment(s: string): Option<(Assignment, string)> {
    var (c, r) :- ReadIdent(s);
    var r :- Expect(" = ", r);
    var (v, r) :- ReadValue(r);
    Some(((c, v), r))
  }

  /** One or more items with `sep` between them. */
  function ReadList<T>(read: Reader<T>, sep: string, s: string): Option<(seq<T>, string)>
    decreases |s|
  {
    var (x, r) :- read(s);
    if sep <= r && |r| - |sep| < |s| then
      var (xs, r) :- ReadList(read, sep, r[|sep|..]);
      Some(([x] + xs, r))
    else Some(([x], r))
  }

  function ReadInsert(s: string): Option<(Statement, string)> {
    var (t, r) :- ReadRef(s);
    var r :- Expect(" (", r);
    var (cols, r) :- ReadList(ReadIdent, ", ", r);
    var r :- Expect(") VALUES (", r);
    var (vals, r) :- ReadList(ReadValue, ", ", r);
    var r :- Expect(")", r);
    Some((InsertInto(t, cols, vals), r))
  }

  function ReadUpdate(s: string): Option<(Statement, string)> {
    var (t, r) :- ReadRef(s);
    var r :- Expect(" SET ", r);
    var (sets, r) :- ReadList(ReadAssignment, ", ", r);
    var r :- Expect(" WHERE ", r);
    var (wheres, r) :- ReadList(ReadAssignment, " AND ", r);
    Some((UpdateSet(t, sets, wheres), r))
  }

  function ReadDelete(s: string): Option<(Statement, string)> {
    var (t, r) :- ReadRef(s);
    var r :- Expect(" WHERE ", r);
    var (wheres, r) :- ReadList(ReadAssignment, " AND ", r);
    Some((DeleteFrom(t, wheres), r))
  }

  function ReadTruncate(s: string): Option<(Statement, string)> {
    var (ts, r) :- ReadList(ReadRef, ", ", s);
    var restart := " RESTART IDENTITY" <= r;
    var r := if restart then r[17..] else r;
    var cascade := " CASCADE" <= r;
    var r := if cascade then r[8..] else r;
    Some((TruncateTables(ts, restart, cascade), r))
  }

  /** One whole statement and nothing after it. */
  function ReadStatement(s: string): Option<Statement> {
    var (st, r) :-
      if "INSERT INTO " <= s then ReadInsert(s[12..])
      else if "UPDATE " <= s then ReadUpdate(s[7..])
      else if "DELETE FROM " <= s then ReadDelete(s[12..])
      else if "TRUNCATE " <= s then ReadTruncate(s[9..])
      else None;
    if r == "" then Some(st) else None
  }

  // ── Reading back what was written ─────────────────────────────────────────

  /** What comes after an item never looks like more of it. */
  predicate Tail(t: string) {
    t == "" || t[0] == ' ' || t[0] == ',' || t[0] == ')'
  }

  lemma {:induction false} UnquoteReadsBack(q: char, s: string, rest: string)
    requires rest == "" || rest[0] != q
    ensures Unquote(q, Quote.DoubledBy(q, s) + ([q] + rest)) == Some((s, rest))
  {
    var text := Quote.DoubledBy(q, s) + ([q] + rest);
    if s == "" {
      assert text == [q] + rest;
    } else {
      UnquoteReadsBack(q, s[1..], rest);
      var tail := Quote.DoubledBy(q, s[1..]) + ([q] + rest);
      if s[0] == q {
        assert text == [q, q] + tail;
        assert text[2..] == tail;
      } else {
        assert text == [s[0]] + tail;
      }
      assert s == [s[0]] + s[1..];
    }
  }

  lemma {:induction false} IdentReadsBack(c: string, rest: string)
    requires rest == "" || rest[0] != '"'
    ensures ReadIdent(Quote.Ident(c) + rest) == Some((c, rest))
  {
    UnquoteReadsBack('"', c, rest);
    assert (Quote.Ident(c) + rest)[1..] == Quote.DoubledBy('"', c) + (['"'] + rest);
  }

  lemma {:induction false} LiteralReadsBack(s: string, rest: string)
    requires Tail(rest)
    ensures Quoted('\'', Quote.Literal(s) + rest) == Some((s, rest))
  {
    UnquoteReadsBack('\'', s, rest);
    assert (Quote.Literal(s) + rest)[1..] == Quote.DoubledBy('\'', s) + (['\''] + rest);
  }

  lemma {:induction false} RefReadsBack(t: TableRef, rest: string)
    requires Tail(rest)
    ensures ReadRef(RefText(t) + rest) == Some((t, rest))
  {
    match t
    case Bare(n) => IdentReadsBack(n, rest);
    case Qualified(s, n) =>
      var tail := "." + (Quote.Ident(n) + rest);
      assert RefText(t) + rest == Quote.Ident(s) + tail;
      IdentReadsBack(s, tail);
      assert tail[1..] == Quote.Ident(n) + rest;
      IdentReadsBack(n, rest);
  }

  lemma {:induction false} ValueReadsBack(v: SqlValue, rest: string)
    requires Tail(rest)
    ensures ReadValue(ValueText(v) + rest) == Some((v, rest))
  {
    match v
    case Some(s) =>
      assert (ValueText(v) + rest)[0] == '\'';
      LiteralReadsBack(s, rest);
    case None =>
      assert ("NULL" + rest)[4..] == rest;
  }

  lemma {:induction false} AssignmentReadsBack(a: Assignment, rest: string)
    requires Tail(rest)
    ensures ReadAssignment(AssignmentText(a) + rest) == Some((a, rest))
  {
    var value := ValueText(a.1) + rest;
    assert AssignmentText(a) + rest == Quote.Ident(a.0) + (" = " + value);
    IdentReadsBack(a.0, " = " + value);
    assert (" = " + value)[3..] == value;
    ValueReadsBack(a.1, rest);
  }

  /** A reader that undoes `show` item by item undoes the joined list. */
  lemma {:induction false} ListReadsBack<T>(
      read: Reader<T>, show: T -> string, sep: string, items: seq<T>, rest: string)
    requires items != [] && sep != "" && Tail(sep) && Tail(rest) && !(sep <= rest)
    requires forall x, tail :: Tail(tail) ==> read(show(x) + tail) == Some((x, tail))
    ensures ReadList(read, sep, Join(show, sep, items) + rest) == Some((items, rest))
  {
    var s := Join(show, sep, items) + rest;
    if |items| == 1 {
      assert read(show(items[0]) + rest) == Some((items[0], rest));
      assert items == [items[0]];
    } else {
      var more := Join(show, sep, items[1..]) + rest;
      var tail := sep + more;
      assert s == show(items[0]) + tail;
      assert Tail(tail);
      assert read(s) == Some((items[0], tail));
      assert tail[|sep|..] == more;
      ListReadsBack(read, show, sep, items[1..], rest);
      assert items == [items[0]] + items[1..];
    }
  }

  ghost predicate Readable(st: Statement) {
    match st
    case InsertInto(_, cols, vals) => cols != [] && vals != []
    case UpdateSet(_, sets, wheres) => sets != [] && wheres != []
    case DeleteFrom(_, wheres) => wheres != []
    case TruncateTables(ts, _, _) => ts != []
  }

  lemma {:induction false} InsertReadsBack(t: TableRef, cols: seq<string>, vals: seq<SqlValue>)
    requires cols != [] && vals != []
    ensures ReadInsert(BodyText(InsertInto(t, cols, vals))) == Some((InsertInto(t, cols, vals), ""))
  {
    var s5 := ")";
    var s4 := Join(ValueText, ", ", vals) + s5;
    var s3 := ") VALUES (" + s4;
    var s2 := Join(Quote.Ident, ", ", cols) + s3;
    var s1 := " (" + s2;
    var text := BodyText(InsertInto(t, cols, vals));
    assert text == RefText(t) + s1;
    RefReadsBack(t, s1);
    forall c: string, tail | Tail(tail) ensures ReadIdent(Quote.Ident(c) + tail) == Some((c, tail)) {
      IdentReadsBack(c, tail);
    }
    ListReadsBack(ReadIdent, Quote.Ident, ", ", cols, s3);
    forall v: SqlValue, tail | Tail(tail) ensures ReadValue(ValueText(v) + tail) == Some((v, tail)) {
      ValueReadsBack(v, tail);
    }
    ListReadsBack(ReadValue, ValueText, ", ", vals, s5);
    assert s1[2..] == s2 && s3[10..] == s4 && s5[1..] == "";
  }

  lemma {:induction false} AssignmentsReadBack(sep: string, items: seq<Assignment>, rest: string)
    requires items != [] && sep != "" && Tail(sep) && Tail(rest) && !(sep <= rest)
    ensures ReadList(ReadAssignment, sep, Join(AssignmentText, sep, items) + rest) == Some((items, rest))
  {
    forall a: Assignment, tail | Tail(tail) ensures ReadAssignment(AssignmentText(a) + tail) == Some((a, tail)) {
      AssignmentReadsBack(a, tail);
    }
    ListReadsBack(ReadAssignment, AssignmentText, sep, items, rest);
  }

  lemma {:induction false} WheresReadBack(wheres: seq<Assignment>)
    requires wheres != []
    ensures ReadList(ReadAssignment, " AND ", Join(AssignmentText, " AND ", wheres)) == Some((wheres, ""))
  {
    AssignmentsReadBack(" AND ", wheres, "");
    assert Join(AssignmentText, " AND ", wheres) + "" == Join(AssignmentText, " AND ", wheres);
  }

  lemma {:induction false} UpdateReadsBack(t: TableRef, sets: seq<Assignment>, wheres: seq<Assignment>)
    requires sets != [] && wheres != []
    ensures ReadUpdate(BodyText(UpdateSet(t, sets, wheres))) == Some((UpdateSet(t, sets, wheres), ""))
  {
    var s3 := Join(AssignmentText, " AND ", wheres);
    var s2 := " WHERE " + s3;
    var s1 := Join(AssignmentText, ", ", sets) + s2;
    var s0 := " SET " + s1;
    var text := BodyText(UpdateSet(t, sets, wheres));
    assert text == RefText(t) + s0;
    RefReadsBack(t, s0);
    AssignmentsReadBack(", ", sets, s2);
    WheresReadBack(wheres);
    assert s0[5..] == s1 && s2[7..] == s3;
  }

  lemma {:induction false} DeleteReadsBack(t: TableRef, wheres: seq<Assignment>)
    requires wheres != []
    ensures ReadDelete(BodyText(DeleteFrom(t, wheres))) == Some((DeleteFrom(t, wheres), ""))
  {
    var s2 := Join(AssignmentText, " AND ", wheres);
    var s1 := " WHERE " + s2;
    var text := BodyText(DeleteFrom(t, wheres));
    assert text == RefText(t) + s1;
    RefReadsBack(t, s1);
    WheresReadBack(wheres);
    assert s1[7..] == s2;
  }

  lemma {:induction false} TruncateReadsBack(ts: seq<TableRef>, restart: bool, cascade: bool)
    requires ts != []
    ensures ReadTruncate(BodyText(TruncateTables(ts, restart, cascade))) ==
            Some((TruncateTables(ts, restart, cascade), ""))
  {
    var s2 := if cascade then " CASCADE" else "";
    var s1 := (if restart then " RESTART IDENTITY" else "") + s2;
    var text := BodyText(TruncateTables(ts, restart, cascade));
    assert text == Join(RefText, ", ", ts) + s1;
    forall t: TableRef, tail | Tail(tail) ensures ReadRef(RefText(t) + tail) == Some((t, tail)) {
      RefReadsBack(t, tail);
    }
    assert s1 != "" ==> s1[0] == ' ';
    assert ", "[0] == ',';
    ListReadsBack(ReadRef, RefText, ", ", ts, s1);
    if restart {
      assert s1[17..] == s2;
    } else {
      assert s1 == s2;
    }
  }

  function ReadBody(kind: Statement, s: string): Option<(Statement, string)> {
    match kind
    case InsertInto(_, _, _) => ReadInsert(s)
    case UpdateSet(_, _, _) => ReadUpdate(s)
    case DeleteFrom(_, _) => ReadDelete(s)
    case TruncateTables(_, _, _) => ReadTruncate(s)
  }

  /** The keyword alone decides how the rest is read. */
  lemma {:induction false} Dispatch(kind: Statement, body: string, st: Statement)
    requires ReadBody(kind, body) == Some((st, ""))
    ensures ReadStatement(Keyword(kind) + body) == Some(st)
  {
    var s := Keyword(kind) + body;
    assert s[|Keyword(kind)|..] == body;
    assert "INSERT INTO "[0] == 'I' && "UPDATE "[0] == 'U' && "DELETE FROM "[0] == 'D' && "TRUNCATE "[0] == 'T';
  }

  lemma {:induction false} BodyReadsBack(st: Statement)
    requires Readable(st)
    ensures ReadBody(st, BodyText(st)) == Some((st, ""))
  {
    match st
    case InsertInto(t, cols, vals) => InsertReadsBack(t, cols, vals);
    case UpdateSet(t, sets, wheres) => UpdateReadsBack(t, sets, wheres);
    case DeleteFrom(t, wheres) => DeleteReadsBack(t, wheres);
    case TruncateTables(ts, restart, cascade) => TruncateReadsBack(ts, restart, cascade);
  }

  /** Whatever the names and values contain, the target reads the statement that was meant. */
  lemma {:induction false} StatementReadsBack(st: Statement)
    requires Readable(st)
    ensures ReadStatement(StatementText(st)) == Some(st)
  {
    BodyReadsBack(st);
    Dispatch(st, BodyText(st), st);
  }
}
