/** The `--where` row filter: its expressions and their three-valued meaning. */
module Filter {
  import opened Wrappers
  import opened Host
  import opened Event

  datatype Value = Str(s: string) | Num(n: F64) | NullLit

  datatype Operator = Eq | Neq | Gt | Lt | Ge | Le

  datatype FilterExpr =
    | Compare(col: string, op: Operator, val: Value)
    | IsNull(col: string)
    | IsNotNull(col: string)
    | And(left: FilterExpr, right: FilterExpr)
    | Or(left: FilterExpr, right: FilterExpr)

  function Eval(h: Host, e: FilterExpr, row: Row): Option<bool> {
    match e
    case Compare(col, op, val) => CompareCell(h, row, col, op, val)
    case IsNull(col) => Some(IsNullValue(row, col))
    case IsNotNull(col) => Some(!IsNullValue(row, col))
    case And(a, b) =>
      var x, y := Eval(h, a, row), Eval(h, b, row);
      if x == Some(false) || y == Some(false) then Some(false)
      else if x == Some(true) && y == Some(true) then Some(true)
      else None
    case Or(a, b) =>
      var x, y := Eval(h, a, row), Eval(h, b, row);
      if x == Some(true) || y == Some(true) then Some(true)
      else if x == Some(false) && y == Some(false) then Some(false)
      else None
  }

  predicate Evaluate(h: Host, e: FilterExpr, row: Row) {
    Eval(h, e, row) == Some(true)
  }

  predicate IsNullValue(row: Row, col: string) {
    col !in row || row[col].Null? || row[col].Unchanged?
  }

  function CompareCell(h: Host, row: Row, col: string, op: Operator, val: Value): Option<bool> {
    if IsNullValue(row, col) || val.NullLit? then None
    else Some(CompareText(h, row[col].text, op, val))
  }

  predicate CompareText(h: Host, lhs: string, op: Operator, val: Value)
    requires !val.NullLit?
  {
    match NumericPair(h, lhs, val)
    case Some((a, b)) => ApplyNum(h, op, a, b)
    case None => ApplyStr(op, lhs, LiteralStr(h, val))
  }

  function NumericPair(h: Host, lhs: string, val: Value): Option<(F64, F64)> {
    var b :=
      match val
      case Num(n) => Some(n)
      case Str(s) => h.parseF64(s)
      case NullLit => None;
    if b.None? then None
    else
      match h.parseF64(lhs)
      case Some(a) => Some((a, b.value))
      case None => None
  }

  predicate ApplyNum(h: Host, op: Operator, a: F64, b: F64) {
    match op
    case Eq => h.feq(a, b)
    case Neq => !h.feq(a, b)
    case Gt => h.flt(b, a)
    case Lt => h.flt(a, b)
    case Ge => h.fle(b, a)
    case Le => h.fle(a, b)
  }

  predicate ApplyStr(op: Operator, a: string, b: string) {
    match op
    case Eq => a == b
    case Neq => a != b
    case Gt => StrLess(b, a)
    case Lt => StrLess(a, b)
    case Ge => !StrLess(a, b)
    case Le => !StrLess(b, a)
  }

  function LiteralStr(h: Host, val: Value): string {
    match val
    case Str(s) => s
    case Num(n) => h.showF64(n)
    case NullLit => ""
  }

  // ── Kleene semantics ──────────────────────────────────────────────────────

  predicate HasNullTest(e: FilterExpr) {
    match e
    case Compare(_, _, _) => false
    case IsNull(_) => true
    case IsNotNull(_) => true
    case And(a, b) => HasNullTest(a) || HasNullTest(b)
    case Or(a, b) => HasNullTest(a) || HasNullTest(b)
  }

  /** `known` gives a value to every column `row` gives a value to, and perhaps to more. */
  ghost predicate MoreKnown(row: Row, known: Row) {
    forall c :: c in row && row[c].Text? ==> c in known && known[c] == row[c]
  }

  /** A result reached with NULLs is the result with any values in their place. */
  lemma {:induction false} KleeneMonotone(h: Host, e: FilterExpr, row: Row, known: Row)
    requires !HasNullTest(e) && MoreKnown(row, known)
    ensures Eval(h, e, row).Some? ==> Eval(h, e, known) == Eval(h, e, row)
  {
    match e
    case Compare(col, _, _) =>
    case And(a, b) =>
      KleeneMonotone(h, a, row, known);
      KleeneMonotone(h, b, row, known);
    case Or(a, b) =>
      KleeneMonotone(h, a, row, known);
      KleeneMonotone(h, b, row, known);
  }

  /** With IS NULL the law fails: learning the value of `c` turns true into false. */
  lemma {:induction false} NullTestFlips(h: Host, c: string, v: string)
    ensures MoreKnown(map[], map[c := Text(v)])
    ensures Eval(h, IsNull(c), map[]) == Some(true)
    ensures Eval(h, IsNull(c), map[c := Text(v)]) == Some(false)
  {
  }

  /** Exchanging AND and OR and complementing `=` with `!=` negates the outcome, NULL included. */
  function Negate(e: FilterExpr): FilterExpr
    requires EqualityOnly(e)
  {
    match e
    case Compare(c, op, v) => Compare(c, if op.Eq? then Neq else Eq, v)
    case IsNull(c) => IsNotNull(c)
    case IsNotNull(c) => IsNull(c)
    case And(a, b) => Or(Negate(a), Negate(b))
    case Or(a, b) => And(Negate(a), Negate(b))
  }

  /** `<` and `>=` are not complementary when an operand reads as NaN; `=` and `!=` are. */
  predicate EqualityOnly(e: FilterExpr) {
    match e
    case Compare(_, op, _) => op.Eq? || op.Neq?
    case IsNull(_) => true
    case IsNotNull(_) => true
    case And(a, b) => EqualityOnly(a) && EqualityOnly(b)
    case Or(a, b) => EqualityOnly(a) && EqualityOnly(b)
  }

  lemma {:induction false} DeMorgan(h: Host, e: FilterExpr, row: Row)
    requires EqualityOnly(e)
    ensures Eval(h, Negate(e), row) ==
            (match Eval(h, e, row) case Some(b) => Some(!b) case None => None)
  {
    match e
    case And(a, b) =>
      DeMorgan(h, a, row);
      DeMorgan(h, b, row);
    case Or(a, b) =>
      DeMorgan(h, a, row);
      DeMorgan(h, b, row);
    case _ =>
  }

  // ── The set of rules ──────────────────────────────────────────────────────

  type Rule = (TableKey, FilterExpr)

  /** The row a rule looks at: the new row of an insert or update, the old row of a delete. */
  function FilteredRow(event: WalEvent): Row
    requires event.IsRow()
  {
    if event.Delete? then event.oldRow else event.newRow
  }

  predicate RuleHolds(h: Host, rule: Rule, event: WalEvent)
    requires event.IsRow()
  {
    Applies(rule.0, event.schema, event.table) ==> Evaluate(h, rule.1, FilteredRow(event))
  }

  /** Every applicable rule is known to hold. */
  predicate Forwards(h: Host, rules: seq<Rule>, event: WalEvent) {
    event.IsRow() ==> forall rule <- rules :: RuleHolds(h, rule, event)
  }

  /** The order of the rules, and how often each is given, does not matter. */
  lemma {:induction false} RuleOrderIrrelevant(h: Host, rules: seq<Rule>, others: seq<Rule>, event: WalEvent)
    requires forall r :: r in rules <==> r in others
    ensures Forwards(h, rules, event) == Forwards(h, others, event)
  {
    if event.IsRow() {
      assert forall r :: r in rules ==> r in others;
      assert forall r :: r in others ==> r in rules;
    }
  }

  class RowFilter {
    var filters: seq<Rule>

    constructor ()
      ensures filters == []
    {
      filters := [];
    }

    method Add(key: TableKey, expr: FilterExpr)
      modifies this
      ensures filters == old(filters) + [(key, expr)]
    {
      filters := filters + [(key, expr)];
    }

    method ShouldForward(h: Host, event: WalEvent) returns (forward: bool)
      ensures forward == Forwards(h, filters, event)
    {
      if |filters| == 0 {
        return true;
      }
      if !event.IsRow() {
        return true;
      }
      var row := FilteredRow(event);
      for i := 0 to |filters|
        invariant forall k :: 0 <= k < i ==> RuleHolds(h, filters[k], event)
      {
        var (key, expr) := filters[i];
        if Applies(key, event.schema, event.table) && !Evaluate(h, expr, row) {
          assert !RuleHolds(h, filters[i], event);
          return false;
        }
      }
      return true;
    }
  }
}
