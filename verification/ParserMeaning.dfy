/** Where a filter goes wrong: every parse error, and exactly the token lists that have it. */
module ParserMeaning {
  import opened Wrappers
  import opened Filter
  import opened FilterLexer
  import opened FilterParser

  predicate IsConnective(tok: Token) {
    tok.AndTok? || tok.OrTok?
  }

  predicate IsComparison(tok: Token) {
    tok.EqTok? || tok.NeqTok? || tok.GtTok? || tok.LtTok? || tok.GeTok? || tok.LeTok?
  }

  /** After these tokens an operand has to come: they are open parentheses and operands with a connective after them. */
  ghost predicate Awaits(p: seq<Token>)
    decreases |p|
  {
    || p == []
    || (p[0].LParen? && Awaits(p[1..]))
    || exists i | 0 <= i < |p| :: OperandThen(p, i)
  }

  ghost predicate OperandThen(p: seq<Token>, i: nat)
    requires i < |p|
    decreases |p|, 0
  {
    IsConnective(p[i]) && Awaits(p[i + 1..]) && exists e :: Derives(3, p[..i], e)
  }

  /** No operand begins here. */
  ghost predicate OperandFails(q: seq<Token>, e: ParseError) {
    match e
    case ExpectedStart => q == [] || (!q[0].LParen? && !q[0].Ident?)
    case ExpectedOperator =>
      q != [] && q[0].Ident? && (|q| > 1 ==> !q[1].IsTok? && !IsComparison(q[1]))
    case ExpectedNull =>
      && |q| > 1 && q[0].Ident? && q[1].IsTok?
      && (|q| > 2 ==> !q[2].NullTok?) && (|q| > 3 && q[2].NotTok? ==> !q[3].NullTok?)
    case ExpectedLiteral =>
      && |q| > 1 && q[0].Ident? && IsComparison(q[1])
      && (|q| > 2 ==> !q[2].StrTok? && !q[2].Number? && !q[2].NullTok?)
    case ExpectedClose =>
      q != [] && q[0].LParen? && exists m :: 1 <= m <= |q| && Unclosed(q, m)
    case _ => false
  }

  /** A whole filter, and then neither a connective nor the closing parenthesis. */
  ghost predicate Unclosed(q: seq<Token>, m: nat)
    requires 1 <= m <= |q|
  {
    (exists e :: Derives(1, q[1..m], e)) && (m < |q| ==> !IsConnective(q[m]) && !q[m].RParen?)
  }

  ghost predicate StuckAt(ts: seq<Token>, n: nat, e: ParseError) {
    n <= |ts| && Awaits(ts[..n]) && OperandFails(ts[n..], e)
  }

  /** What is wrong with a token list. */
  ghost predicate Broken(ts: seq<Token>, e: ParseError) {
    match e
    case EmptyExpression => ts == []
    case Trailing => exists m :: 0 < m < |ts| && !IsConnective(ts[m]) && exists x :: Derives(1, ts[..m], x)
    case _ => ts != [] && exists n: nat :: StuckAt(ts, n, e)
  }

  // ── A failing parser is stuck ─────────────────────────────────────────────

  lemma {:induction false} OperandAwaits(x: seq<Token>, e: FilterExpr, op: Token, p: seq<Token>)
    requires Derives(3, x, e) && IsConnective(op) && Awaits(p)
    ensures Awaits(x + [op] + p)
  {
    var all := x + [op] + p;
    assert all[..|x|] == x && all[|x|] == op && all[|x| + 1..] == p;
    assert OperandThen(all, |x|);
  }

  lemma {:induction false} SplitApart(x: seq<Token>, i: nat, op: Token, p: seq<Token>)
    requires i < |x|
    ensures x + [op] + p == x[..i] + [x[i]] + (x[i + 1..] + [op] + p)
  {
    assert x == x[..i] + [x[i]] + x[i + 1..];
  }

  /** A whole filter and a connective before what awaits an operand. */
  lemma {:induction false} AwaitsOver(level: nat, x: seq<Token>, e: FilterExpr, op: Token, p: seq<Token>)
    requires 1 <= level <= 3 && Derives(level, x, e) && IsConnective(op) && Awaits(p)
    ensures Awaits(x + [op] + p)
    decreases |x|, 3 - level
  {
    if level == 3 {
      OperandAwaits(x, e, op, p);
    } else if Derives(level + 1, x, e) {
      AwaitsOver(level + 1, x, e, op, p);
    } else {
      var i :| 0 <= i < |x| && SplitsAt(level, x, i, e);
      AwaitsOver(level + 1, x[i + 1..], e.right, op, p);
      AwaitsOver(level, x[..i], e.left, x[i], x[i + 1..] + [op] + p);
      SplitApart(x, i, op, p);
    }
  }

  lemma {:induction false} StuckOver(x: seq<Token>, lhs: FilterExpr, level: nat, op: Token, ts: seq<Token>, n: nat, e: ParseError)
    requires 1 <= level <= 3 && Derives(level, x, lhs) && IsConnective(op) && StuckAt(ts, n, e)
    ensures StuckAt(x + [op] + ts, |x| + 1 + n, e)
  {
    var all := x + [op] + ts;
    AwaitsOver(level, x, lhs, op, ts[..n]);
    assert all[..|x| + 1 + n] == x + [op] + ts[..n];
    assert all[|x| + 1 + n..] == ts[n..];
  }

  lemma {:induction false} StuckInside(ts: seq<Token>, n: nat, e: ParseError)
    requires ts != [] && ts[0].LParen? && StuckAt(ts[1..], n, e)
    ensures StuckAt(ts, n + 1, e)
  {
    assert ts[..n + 1][1..] == ts[1..][..n];
    assert ts[n + 1..] == ts[1..][n..];
  }

  lemma {:induction false} ComparisonStuck(ts: seq<Token>, e: ParseError)
    requires ts != [] && ts[0].Ident?
    ensures Comparison(ts) == Err(e) <==> OperandFails(ts, e)
  {
    if |ts| > 1 {
      var rest := ts[1..];
      assert OperatorOf(rest[0]).Some? <==> IsComparison(rest[0]);
      assert |ts| > 2 ==> rest[1..][0] == ts[2];
      assert |ts| > 3 ==> rest[2..][0] == ts[3];
    }
  }

  lemma {:induction false} PrimaryStuck(ts: seq<Token>) returns (n: nat)
    requires Primary(ts).Err?
    ensures StuckAt(ts, n, Primary(ts).error)
    decreases |ts|, 0
  {
    n := 0;
    assert ts[..0] == [] && ts[0..] == ts;
    if ts != [] && ts[0].LParen? {
      match Binary(ts[1..], 1)
      case Err(_) =>
        n := BinaryStuck(ts[1..], 1);
        StuckInside(ts, n, Primary(ts).error);
        n := n + 1;
      case Ok((inner, rest)) =>
        BinarySound(ts[1..], 1);
        var m := |ts| - |rest|;
        assert ts[1..m] == Taken(ts[1..], rest) && ts[m..] == rest;
        assert Unclosed(ts, m);
    } else if ts != [] && ts[0].Ident? {
      ComparisonStuck(ts, Primary(ts).error);
    }
  }

  lemma {:induction false} BinaryStuck(ts: seq<Token>, minPrec: nat) returns (n: nat)
    requires 1 <= minPrec <= 3 && Binary(ts, minPrec).Err?
    ensures StuckAt(ts, n, Binary(ts, minPrec).error)
    decreases |ts|, 1
  {
    match Primary(ts)
    case Err(_) => n := PrimaryStuck(ts);
    case Ok((lhs, rest)) =>
      PrimarySound(ts);
      n := ClimbStuck(Taken(ts, rest), lhs, rest, minPrec, 3);
  }

  /** Climbing over a connective reads its right operand and goes on with both. */
  lemma {:induction false} ClimbsOn(lhs: FilterExpr, ts: seq<Token>, minPrec: nat)
    requires 1 <= minPrec <= Precedence(ts)
    ensures IsConnective(ts[0])
    ensures match Binary(ts[1..], Precedence(ts) + 1)
            case Err(e) => Climb(lhs, ts, minPrec) == Err(e)
            case Ok((rhs, rest)) => Climb(lhs, ts, minPrec) == Climb(Combine(ts[0], lhs, rhs), rest, minPrec)
  {
  }

  lemma {:induction false} ClimbStuck(pre: seq<Token>, lhs: FilterExpr, ts: seq<Token>, minPrec: nat, level: nat) returns (n: nat)
    requires 1 <= minPrec <= level <= 3 && Derives(level, pre, lhs) && Precedence(ts) <= level
    requires Climb(lhs, ts, minPrec).Err?
    ensures StuckAt(pre + ts, n, Climb(lhs, ts, minPrec).error)
    decreases |ts|, 2
  {
    var prec := Precedence(ts);
    ClimbsOn(lhs, ts, minPrec);
    match Binary(ts[1..], prec + 1)
    case Err(e) =>
      n := BinaryStuck(ts[1..], prec + 1);
      StuckOver(pre, lhs, level, ts[0], ts[1..], n, e);
      n := |pre| + 1 + n;
      FirstApart(pre, ts);
    case Ok((rhs, rest)) =>
      OperatorSound(pre, lhs, ts, level);
      var longer := pre + [ts[0]] + Taken(ts[1..], rest);
      n := ClimbStuck(longer, Combine(ts[0], lhs, rhs), rest, minPrec, prec);
      TakenJoins(pre, ts, rest);
  }

  lemma {:induction false} FirstApart(pre: seq<Token>, ts: seq<Token>)
    requires ts != []
    ensures pre + [ts[0]] + ts[1..] == pre + ts
  {
  }

  lemma {:induction false} TakenJoins(pre: seq<Token>, ts: seq<Token>, rest: seq<Token>)
    requires ts != [] && LeavesSuffix(ts[1..], rest)
    ensures pre + ts == pre + [ts[0]] + Taken(ts[1..], rest) + rest
  {
    assert ts == [ts[0]] + ts[1..];
  }

  // ── A stuck parser fails ──────────────────────────────────────────────────

  lemma {:induction false} PrimaryFails(q: seq<Token>, e: ParseError)
    requires OperandFails(q, e)
    ensures Primary(q) == Err(e)
  {
    if q != [] && q[0].Ident? {
      ComparisonStuck(q, e);
    } else if e.ExpectedClose? {
      var m :| 1 <= m <= |q| && Unclosed(q, m);
      var x :| Derives(1, q[1..m], x);
      BinaryComplete(q[1..m], x, q[m..], 1, 1);
      assert q[1..] == q[1..m] + q[m..];
    }
  }

  /** The parser has not yet got to where it fails: it left an operator for a level above, and what follows awaits an operand. */
  ghost predicate Postponed(rest: seq<Token>, q: seq<Token>, minPrec: nat, longest: int) {
    && 1 <= Precedence(rest) < minPrec && |q| < |rest| <= |q| + 1 + longest
    && rest[|rest| - |q|..] == q && Awaits(rest[1..|rest| - |q|])
  }

  ghost predicate FailsOrPostpones(r: Parsed<FilterExpr>, q: seq<Token>, e: ParseError, minPrec: nat, longest: int) {
    r == Err(e) || (r.Ok? && Postponed(r.value.1, q, minPrec, longest))
  }

  lemma {:induction false} AwaitingFails(p: seq<Token>, q: seq<Token>, e: ParseError, minPrec: nat)
    requires 1 <= minPrec <= 3 && Awaits(p) && Primary(q) == Err(e)
    ensures FailsOrPostpones(Binary(p + q, minPrec), q, e, minPrec, |p| - 1)
    decreases |p|, 1
  {
    var ts := p + q;
    if p == [] {
      assert ts == q;
    } else if p[0].LParen? && Awaits(p[1..]) {
      assert ts[1..] == p[1..] + q;
      AwaitingFails(p[1..], q, e, 1);
    } else {
      var i :| 0 <= i < |p| && OperandThen(p, i);
      var lhs :| Derives(3, p[..i], lhs);
      var rest := [p[i]] + (p[i + 1..] + q);
      assert ts == p[..i] + rest;
      PrimaryComplete(p[..i], lhs, rest);
      ClimbingFails(lhs, p[i], p[i + 1..], q, e, minPrec);
    }
  }

  lemma {:induction false} PostponedShape(rest: seq<Token>, q: seq<Token>, minPrec: nat, longest: int) returns (p: seq<Token>)
    requires Postponed(rest, q, minPrec, longest)
    ensures rest == [rest[0]] + (p + q) && Awaits(p) && |p| <= longest && IsConnective(rest[0])
  {
    p := rest[1..|rest| - |q|];
  }

  lemma {:induction false} PostponedHere(op: Token, p: seq<Token>, q: seq<Token>, minPrec: nat)
    requires IsConnective(op) && Awaits(p)
    ensures var rest := [op] + (p + q); Precedence(rest) < minPrec ==> Postponed(rest, q, minPrec, |p|)
  {
    var rest := [op] + (p + q);
    assert rest[|rest| - |q|..] == q && rest[1..|rest| - |q|] == p;
  }

  lemma {:induction false} ClimbingFails(lhs: FilterExpr, op: Token, p: seq<Token>, q: seq<Token>, e: ParseError, minPrec: nat)
    requires 1 <= minPrec <= 3 && IsConnective(op) && Awaits(p) && Primary(q) == Err(e)
    ensures FailsOrPostpones(Climb(lhs, [op] + (p + q), minPrec), q, e, minPrec, |p|)
    decreases |p|, 2
  {
    var ts := [op] + (p + q);
    var prec := Precedence(ts);
    PostponedHere(op, p, q, minPrec);
    if prec >= minPrec {
      assert ts[1..] == p + q;
      AwaitingFails(p, q, e, prec + 1);
      ClimbsOn(lhs, ts, minPrec);
      var r := Binary(p + q, prec + 1);
      if r.Ok? {
        var rest := r.value.1;
        var p' := PostponedShape(rest, q, prec + 1, |p| - 1);
        ClimbingFails(Combine(op, lhs, r.value.0), rest[0], p', q, e, minPrec);
      }
    }
  }

  /**
    A token list has a parse error exactly when it is empty, when a filter ends
    before it does and no connective follows, or when an operand is due and what
    comes is none, with the error for why it is none.
   */
  lemma {:induction false} ErrorExactly(ts: seq<Token>, e: ParseError)
    ensures Parse(ts) == Err(e) <==> Broken(ts, e)
  {
    if ts != [] {
      BinarySound(ts, 1);
      if Binary(ts, 1).Err? {
        var n := BinaryStuck(ts, 1);
      } else {
        var (x, rest) := Binary(ts, 1).value;
        var m := |ts| - |rest|;
        assert ts[..m] == Taken(ts, rest) && ts[m..] == rest;
      }
      if n: nat :| StuckAt(ts, n, e) {
        PrimaryFails(ts[n..], e);
        AwaitingFails(ts[..n], ts[n..], e, 1);
        assert ts == ts[..n] + ts[n..];
      }
      if m :| e.Trailing? && 0 < m < |ts| && !IsConnective(ts[m]) && exists x :: Derives(1, ts[..m], x) {
        var x :| Derives(1, ts[..m], x);
        BinaryComplete(ts[..m], x, ts[m..], 1, 1);
        assert ts == ts[..m] + ts[m..];
      }
    }
  }
}
