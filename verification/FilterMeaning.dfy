/** What a row filter says of a row, apart from how it is computed. */
module FilterMeaning {
  import opened Wrappers
  import opened Host
  import opened Event
  import opened Filter
  import opened Texts

  // ── Comparisons ───────────────────────────────────────────────────────────

  /** The relation an operator stands for between two things of which one comes first or which are equal. */
  predicate Relates(op: Operator, equal: bool, less: bool) {
    match op
    case Eq => equal
    case Neq => !equal
    case Lt => less
    case Le => less || equal
    case Gt => !less && !equal
    case Ge => !less
  }

  /** The order of `f64`: each has a place, but for NaN, which is comparable with nothing. */
  ghost predicate Ranked(h: Host, rank: F64 -> Option<int>) {
    forall a, b ::
      && (h.feq(a, b) <==> rank(a).Some? && rank(b).Some? && rank(a).value == rank(b).value)
      && (h.flt(a, b) <==> rank(a).Some? && rank(b).Some? && rank(a).value < rank(b).value)
      && (h.fle(a, b) <==> rank(a).Some? && rank(b).Some? && rank(a).value <= rank(b).value)
  }

  ghost predicate NumbersRelate(rank: F64 -> Option<int>, op: Operator, a: F64, b: F64) {
    if rank(a).None? || rank(b).None? then op.Neq? else Relates(op, rank(a).value == rank(b).value, rank(a).value < rank(b).value)
  }

  ghost predicate TextsRelate(op: Operator, a: string, b: string) {
    Relates(op, a == b, Before(a, b))
  }

  lemma {:induction false} TextsCompare(op: Operator, a: string, b: string)
    ensures ApplyStr(op, a, b) <==> TextsRelate(op, a, b)
  {
    StrLessExactly(a, b);
    StrLessExactly(b, a);
    OneFirst(a, b);
  }

  lemma {:induction false} NumbersCompare(h: Host, rank: F64 -> Option<int>, op: Operator, a: F64, b: F64)
    requires Ranked(h, rank)
    ensures ApplyNum(h, op, a, b) <==> NumbersRelate(rank, op, a, b)
  {
    assert h.feq(a, b) <==> rank(a).Some? && rank(b).Some? && rank(a).value == rank(b).value;
    assert h.fle(b, a) <==> rank(a).Some? && rank(b).Some? && rank(b).value <= rank(a).value;
  }

  /** The literal as a number, and as a text. */
  predicate DenotesNumber(h: Host, val: Value, b: F64) {
    val == Num(b) || (val.Str? && h.parseF64(val.s) == Some(b))
  }

  predicate DenotesText(h: Host, val: Value, t: string) {
    val == Str(t) || (val.Num? && h.showF64(val.n) == t)
  }

  /** A text compared with a literal: as numbers if both can be read so, and as texts otherwise. */
  ghost predicate Holds(h: Host, rank: F64 -> Option<int>, text: string, op: Operator, val: Value) {
    if exists a, b :: h.parseF64(text) == Some(a) && DenotesNumber(h, val, b)
    then exists a, b :: h.parseF64(text) == Some(a) && DenotesNumber(h, val, b) && NumbersRelate(rank, op, a, b)
    else exists t :: DenotesText(h, val, t) && TextsRelate(op, text, t)
  }

  lemma {:induction false} HoldsExactly(h: Host, rank: F64 -> Option<int>, text: string, op: Operator, val: Value)
    requires Ranked(h, rank) && !val.NullLit?
    ensures CompareText(h, text, op, val) <==> Holds(h, rank, text, op, val)
  {
    match NumericPair(h, text, val)
    case Some((a, b)) =>
      assert DenotesNumber(h, val, b);
      NumbersCompare(h, rank, op, a, b);
    case None =>
      var t := LiteralStr(h, val);
      assert DenotesText(h, val, t);
      TextsCompare(op, text, t);
  }

  // ── Truth ─────────────────────────────────────────────────────────────────

  predicate HasText(row: Row, col: string) {
    col in row && row[col].Text?
  }

  /** The filter is known to be true: what it needs is there and is so. */
  ghost predicate IsTrue(h: Host, rank: F64 -> Option<int>, e: FilterExpr, row: Row) {
    match e
    case Compare(col, op, val) => HasText(row, col) && !val.NullLit? && Holds(h, rank, row[col].text, op, val)
    case IsNull(col) => !HasText(row, col)
    case IsNotNull(col) => HasText(row, col)
    case And(a, b) => IsTrue(h, rank, a, row) && IsTrue(h, rank, b, row)
    case Or(a, b) => IsTrue(h, rank, a, row) || IsTrue(h, rank, b, row)
  }

  ghost predicate IsFalse(h: Host, rank: F64 -> Option<int>, e: FilterExpr, row: Row) {
    match e
    case Compare(col, op, val) => HasText(row, col) && !val.NullLit? && !Holds(h, rank, row[col].text, op, val)
    case IsNull(col) => HasText(row, col)
    case IsNotNull(col) => !HasText(row, col)
    case And(a, b) => IsFalse(h, rank, a, row) || IsFalse(h, rank, b, row)
    case Or(a, b) => IsFalse(h, rank, a, row) && IsFalse(h, rank, b, row)
  }

  /** The three-valued result is what is known. */
  lemma {:induction false} EvalExactly(h: Host, rank: F64 -> Option<int>, e: FilterExpr, row: Row)
    requires Ranked(h, rank)
    ensures Eval(h, e, row) == Some(true) <==> IsTrue(h, rank, e, row)
    ensures Eval(h, e, row) == Some(false) <==> IsFalse(h, rank, e, row)
  {
    match e
    case Compare(col, op, val) =>
      if HasText(row, col) && !val.NullLit? {
        HoldsExactly(h, rank, row[col].text, op, val);
      }
    case And(a, b) =>
      EvalExactly(h, rank, a, row);
      EvalExactly(h, rank, b, row);
    case Or(a, b) =>
      EvalExactly(h, rank, a, row);
      EvalExactly(h, rank, b, row);
    case _ =>
  }

  /** Every column the filter compares holds text, and so does every literal. */
  ghost predicate Complete(e: FilterExpr, row: Row) {
    match e
    case Compare(col, _, val) => HasText(row, col) && !val.NullLit?
    case And(a, b) => Complete(a, row) && Complete(b, row)
    case Or(a, b) => Complete(a, row) && Complete(b, row)
    case _ => true
  }

  /** On such a row the filter is an ordinary condition: true, or else false. */
  lemma {:induction false} ClassicalWhenComplete(h: Host, rank: F64 -> Option<int>, e: FilterExpr, row: Row)
    requires Ranked(h, rank) && Complete(e, row)
    ensures IsFalse(h, rank, e, row) <==> !IsTrue(h, rank, e, row)
    ensures Eval(h, e, row) == Some(IsTrue(h, rank, e, row))
  {
    EvalExactly(h, rank, e, row);
    match e
    case And(a, b) =>
      ClassicalWhenComplete(h, rank, a, row);
      ClassicalWhenComplete(h, rank, b, row);
    case Or(a, b) =>
      ClassicalWhenComplete(h, rank, a, row);
      ClassicalWhenComplete(h, rank, b, row);
    case _ =>
  }

  // ── Rules ─────────────────────────────────────────────────────────────────

  /** The row a change leaves behind or takes away. */
  ghost predicate Judged(event: WalEvent, row: Row) {
    match event
    case Insert(_, _, _, r) => row == r
    case Update(_, _, _, _, r) => row == r
    case Delete(_, _, _, r) => row == r
    case _ => false
  }

  /** A row change is forwarded exactly when every rule for its table, or for all tables, is true of its row. */
  lemma {:induction false} ForwardsExactly(h: Host, rank: F64 -> Option<int>, rules: seq<Rule>, event: WalEvent, row: Row)
    requires Ranked(h, rank) && Judged(event, row)
    ensures Forwards(h, rules, event) <==>
            forall i :: 0 <= i < |rules| && (rules[i].0 == None || rules[i].0 == Some((event.schema, event.table))) ==>
              IsTrue(h, rank, rules[i].1, row)
  {
    forall i | 0 <= i < |rules|
      ensures RuleHolds(h, rules[i], event) <==>
              (rules[i].0 == None || rules[i].0 == Some((event.schema, event.table)) ==> IsTrue(h, rank, rules[i].1, row))
    {
      EvalExactly(h, rank, rules[i].1, row);
    }
    if Forwards(h, rules, event) {
      forall i | 0 <= i < |rules| ensures RuleHolds(h, rules[i], event) {
        assert rules[i] in rules;
      }
    }
  }

  lemma {:induction false} AndIsBoth(h: Host, a: FilterExpr, b: FilterExpr, row: Row)
    ensures Evaluate(h, And(a, b), row) <==> Evaluate(h, a, row) && Evaluate(h, b, row)
    ensures Evaluate(h, Or(a, b), row) <==> Evaluate(h, a, row) || Evaluate(h, b, row)
  {
  }

  /** A rule `a AND b` forwards what the two rules `a` and `b` forward together. */
  lemma {:induction false} AndSplits(h: Host, rules: seq<Rule>, key: TableKey, a: FilterExpr, b: FilterExpr, event: WalEvent)
    ensures Forwards(h, rules + [(key, And(a, b))], event) <==> Forwards(h, rules + [(key, a), (key, b)], event)
  {
    if event.IsRow() {
      AndIsBoth(h, a, b, FilteredRow(event));
      assert forall r :: r in rules + [(key, And(a, b))] <==> r in rules || r == (key, And(a, b));
      assert forall r :: r in rules + [(key, a), (key, b)] <==> r in rules || r == (key, a) || r == (key, b);
      var both: Rule := (key, And(a, b));
      assert RuleHolds(h, both, event) <==> RuleHolds(h, (key, a), event) && RuleHolds(h, (key, b), event);
    }
  }
}
