/** Tokens to expressions: the precedence-climbing parser and the grammar it implements. */
module FilterParser {
  import opened Wrappers
  import opened Host
  import opened Filter
  import opened FilterLexer

  datatype ParseError =
    | EmptyExpression | Trailing | ExpectedClose | ExpectedStart
    | ExpectedNull | ExpectedOperator | ExpectedLiteral

  type Parsed<T> = Result<(T, seq<Token>), ParseError>

  /** OR is 1, AND is 2; every other token is no operator. */
  function Precedence(ts: seq<Token>): (p: nat) {
    if ts == [] then 0
    else if ts[0].OrTok? then 1
    else if ts[0].AndTok? then 2
    else 0
  }

  function Combine(op: Token, l: FilterExpr, r: FilterExpr): FilterExpr
    requires op.AndTok? || op.OrTok?
  {
    if op.AndTok? then And(l, r) else Or(l, r)
  }

  // ── The parser, as functions of the remaining tokens ──────────────────────

  function Literal(ts: seq<Token>): (r: Parsed<Value>)
    ensures r.Ok? ==> |r.value.1| < |ts| && r.value.1 == ts[1..]
  {
    if ts == [] then Err(ExpectedLiteral)
    else
      match ts[0]
      case StrTok(s) => Ok((Str(s), ts[1..]))
      case Number(n) => Ok((Num(n), ts[1..]))
      case NullTok => Ok((NullLit, ts[1..]))
      case _ => Err(ExpectedLiteral)
  }

  function OperatorOf(tok: Token): Option<Operator> {
    match tok
    case EqTok => Some(Eq)
    case NeqTok => Some(Neq)
    case GtTok => Some(Gt)
    case LtTok => Some(Lt)
    case GeTok => Some(Ge)
    case LeTok => Some(Le)
    case _ => None
  }

  function Comparison(ts: seq<Token>): (r: Parsed<FilterExpr>)
    requires ts != [] && ts[0].Ident?
    ensures r.Ok? ==> |r.value.1| < |ts|
  {
    var col, rest := ts[0].name, ts[1..];
    if rest == [] then Err(ExpectedOperator)
    else if rest[0].IsTok? then
      var negated := |rest| > 1 && rest[1].NotTok?;
      var tail := if negated then rest[2..] else rest[1..];
      if tail != [] && tail[0].NullTok? then
        Ok((if negated then IsNotNull(col) else IsNull(col), tail[1..]))
      else Err(ExpectedNull)
    else
      match OperatorOf(rest[0])
      case Some(op) =>
        var (val, tail) :- Literal(rest[1..]);
        Ok((Compare(col, op, val), tail))
      case None => Err(ExpectedOperator)
  }

  function Primary(ts: seq<Token>): (r: Parsed<FilterExpr>)
    ensures r.Ok? ==> |r.value.1| < |ts|
    decreases |ts|, 0
  {
    if ts != [] && ts[0].LParen? then
      var (inner, rest) :- Binary(ts[1..], 1);
      if rest != [] && rest[0].RParen? then Ok((inner, rest[1..])) else Err(ExpectedClose)
    else if ts != [] && ts[0].Ident? then Comparison(ts)
    else Err(ExpectedStart)
  }

  function Binary(ts: seq<Token>, minPrec: nat): (r: Parsed<FilterExpr>)
    requires minPrec > 0
    ensures r.Ok? ==> |r.value.1| < |ts|
    decreases |ts|, 1
  {
    var (lhs, rest) :- Primary(ts);
    Climb(lhs, rest, minPrec)
  }

  function Climb(lhs: FilterExpr, ts: seq<Token>, minPrec: nat): (r: Parsed<FilterExpr>)
    requires minPrec > 0
    ensures r.Ok? ==> |r.value.1| <= |ts|
    decreases |ts|, 2
  {
    var prec := Precedence(ts);
    if prec == 0 || prec < minPrec then Ok((lhs, ts))
    else
      var (rhs, rest) :- Binary(ts[1..], prec + 1);
      Climb(Combine(ts[0], lhs, rhs), rest, minPrec)
  }

  function Parse(ts: seq<Token>): Result<FilterExpr, ParseError> {
    if ts == [] then Err(EmptyExpression)
    else
      var (e, rest) :- Binary(ts, 1);
      if rest == [] then Ok(e) else Err(Trailing)
  }

  // ── The grammar ───────────────────────────────────────────────────────────
  //   or := and (OR and)*      and := primary (AND primary)*
  // read as left-associative trees: `Derives(level, ts, e)` says that the whole
  // of `ts` derives `e` at that level, 1 for or, 2 for and, 3 for primary.

  ghost predicate DerivesComparison(ts: seq<Token>, e: FilterExpr) {
    match e
    case IsNull(c) => ts == [Ident(c), IsTok, NullTok]
    case IsNotNull(c) => ts == [Ident(c), IsTok, NotTok, NullTok]
    case Compare(c, op, val) =>
      |ts| == 3 && ts[0] == Ident(c) && OperatorOf(ts[1]) == Some(op) && ts[2] == LiteralToken(val)
    case _ => false
  }

  function LiteralToken(val: Value): Token {
    match val
    case Str(s) => StrTok(s)
    case Num(n) => Number(n)
    case NullLit => NullTok
  }

  ghost predicate Derives(level: nat, ts: seq<Token>, e: FilterExpr)
    requires 1 <= level <= 3
    decreases |ts|, 3 - level
  {
    if level == 3 then
      || DerivesComparison(ts, e)
      || (|ts| > 2 && ts[0].LParen? && ts[|ts| - 1].RParen? && Derives(1, ts[1..|ts| - 1], e))
    else
      || Derives(level + 1, ts, e)
      || exists i | 0 <= i < |ts| :: SplitsAt(level, ts, i, e)
  }

  /** `e` is a binary node of `level` whose operator is the token at `i`. */
  ghost predicate SplitsAt(level: nat, ts: seq<Token>, i: nat, e: FilterExpr)
    requires 1 <= level <= 2 && i < |ts|
    decreases |ts|, 0
  {
    && (if level == 1 then ts[i].OrTok? && e.Or? else ts[i].AndTok? && e.And?)
    && Derives(level, ts[..i], e.left)
    && Derives(level + 1, ts[i + 1..], e.right)
  }

  lemma {:induction false} Split(level: nat, l: seq<Token>, op: Token, r: seq<Token>, e: FilterExpr)
    requires 1 <= level <= 2
    requires if level == 1 then op.OrTok? && e.Or? else op.AndTok? && e.And?
    requires Derives(level, l, e.left) && Derives(level + 1, r, e.right)
    ensures Derives(level, l + [op] + r, e)
  {
    var ts := l + [op] + r;
    assert ts[..|l|] == l && ts[|l| + 1..] == r;
    assert SplitsAt(level, ts, |l|, e);
  }

  // ── Soundness: what the parser accepts, the grammar derives ───────────────

  /** The tokens `Binary` or `Climb` took from `ts` when it left `rest`. */
  function Taken(ts: seq<Token>, rest: seq<Token>): seq<Token>
    requires |rest| <= |ts|
  {
    ts[..|ts| - |rest|]
  }

  ghost predicate LeavesSuffix(ts: seq<Token>, rest: seq<Token>) {
    |rest| <= |ts| && ts == Taken(ts, rest) + rest
  }

  lemma {:induction false} ComparisonSound(ts: seq<Token>)
    requires ts != [] && ts[0].Ident?
    ensures match Comparison(ts)
            case Ok((e, rest)) => LeavesSuffix(ts, rest) && DerivesComparison(Taken(ts, rest), e)
            case Err(_) => true
  {
    var r := Comparison(ts);
    if r.Ok? {
      var (e, rest) := r.value;
      var taken := Taken(ts, rest);
      match e
      case IsNull(c) => assert taken == [Ident(c), IsTok, NullTok];
      case IsNotNull(c) => assert taken == [Ident(c), IsTok, NotTok, NullTok];
      case Compare(c, op, val) => assert taken == [ts[0], ts[1], ts[2]];
    }
  }

  lemma {:induction false} PrimarySound(ts: seq<Token>)
    ensures match Primary(ts)
            case Ok((e, rest)) => LeavesSuffix(ts, rest) && Derives(3, Taken(ts, rest), e)
            case Err(_) => true
    decreases |ts|, 0
  {
    if ts != [] && ts[0].LParen? {
      BinarySound(ts[1..], 1);
      var inner := Binary(ts[1..], 1);
      if inner.Ok? {
        var (e, rest) := inner.value;
        if rest != [] && rest[0].RParen? {
          var body := Taken(ts[1..], rest);
          var taken := Taken(ts, rest[1..]);
          assert taken == [ts[0]] + body + [rest[0]];
          assert taken[1..|taken| - 1] == body;
          assert |body| > 0;
        }
      }
    } else if ts != [] && ts[0].Ident? {
      ComparisonSound(ts);
    }
  }

  lemma {:induction false} BinarySound(ts: seq<Token>, minPrec: nat)
    requires 1 <= minPrec <= 3
    ensures match Binary(ts, minPrec)
            case Ok((e, rest)) =>
              LeavesSuffix(ts, rest) && Derives(minPrec, Taken(ts, rest), e) &&
              !(Precedence(rest) >= minPrec)
            case Err(_) => true
    decreases |ts|, 1
  {
    PrimarySound(ts);
    var first := Primary(ts);
    if first.Ok? {
      var (lhs, rest) := first.value;
      ClimbSound(Taken(ts, rest), lhs, rest, minPrec, 3);
      var r := Climb(lhs, rest, minPrec);
      if r.Ok? {
        assert Taken(ts, r.value.1) == Taken(ts, rest) + Taken(rest, r.value.1);
      }
    }
  }

  /**
    `pre` derives `lhs` at `level`. An operator that binds tighter than `level`
    cannot follow, so extending `lhs` with the next operator is right.
   */
  lemma {:induction false} ClimbSound(
      pre: seq<Token>, lhs: FilterExpr, ts: seq<Token>, minPrec: nat, level: nat)
    requires 1 <= minPrec <= level <= 3
    requires Derives(level, pre, lhs) && Precedence(ts) <= level
    ensures match Climb(lhs, ts, minPrec)
            case Ok((e, rest)) =>
              LeavesSuffix(ts, rest) && Derives(minPrec, pre + Taken(ts, rest), e) &&
              !(Precedence(rest) >= minPrec)
            case Err(_) => true
    decreases |ts|, 2
  {
    var prec := Precedence(ts);
    if prec == 0 || prec < minPrec {
      Weaken(level, minPrec, pre, lhs);
      assert pre + Taken(ts, ts) == pre;
    } else {
      OperatorSound(pre, lhs, ts, level);
      var r := Binary(ts[1..], prec + 1);
      if r.Ok? {
        var (rhs, rest) := r.value;
        var e := Combine(ts[0], lhs, rhs);
        ClimbSound(pre + [ts[0]] + Taken(ts[1..], rest), e, rest, minPrec, prec);
        var end := Climb(e, rest, minPrec);
        if end.Ok? {
          TakenExtends(pre, ts, rest, end.value.1);
        }
      }
    }
  }

  /** An operator and its right operand extend what was derived before them. */
  lemma {:induction false} OperatorSound(pre: seq<Token>, lhs: FilterExpr, ts: seq<Token>, level: nat)
    requires 1 <= level <= 3 && Derives(level, pre, lhs) && 1 <= Precedence(ts) <= level
    ensures match Binary(ts[1..], Precedence(ts) + 1)
            case Ok((rhs, rest)) =>
              && LeavesSuffix(ts[1..], rest) && Precedence(rest) <= Precedence(ts)
              && Derives(Precedence(ts), pre + [ts[0]] + Taken(ts[1..], rest), Combine(ts[0], lhs, rhs))
            case Err(_) => true
    decreases |ts|, 1
  {
    var prec := Precedence(ts);
    BinarySound(ts[1..], prec + 1);
    var r := Binary(ts[1..], prec + 1);
    if r.Ok? {
      var (rhs, rest) := r.value;
      Weaken(level, prec, pre, lhs);
      Split(prec, pre, ts[0], Taken(ts[1..], rest), Combine(ts[0], lhs, rhs));
    }
  }

  /** Taking an operator and its right operand, then more, is taking all of it. */
  lemma {:induction false} TakenExtends(pre: seq<Token>, ts: seq<Token>, mid: seq<Token>, rest: seq<Token>)
    requires ts != [] && LeavesSuffix(ts[1..], mid) && LeavesSuffix(mid, rest)
    ensures LeavesSuffix(ts, rest)
    ensures pre + Taken(ts, rest) == pre + [ts[0]] + Taken(ts[1..], mid) + Taken(mid, rest)
  {
    assert ts == [ts[0]] + Taken(ts[1..], mid) + Taken(mid, rest) + rest;
  }

  lemma {:induction false} Weaken(from: nat, to: nat, ts: seq<Token>, e: FilterExpr)
    requires 1 <= to <= from <= 3 && Derives(from, ts, e)
    ensures Derives(to, ts, e)
    decreases from - to
  {
    if to < from {
      Weaken(from, to + 1, ts, e);
    }
  }

  // ── Completeness: what the grammar derives, the parser accepts ────────────

  lemma {:induction false} PrimaryComplete(ts: seq<Token>, e: FilterExpr, rest: seq<Token>)
    requires Derives(3, ts, e)
    ensures Primary(ts + rest) == Ok((e, rest))
    decreases |ts|, 0
  {
    var all := ts + rest;
    if DerivesComparison(ts, e) {
      assert all[1..] == ts[1..] + rest;
      match e
      case IsNull(c) =>
        assert all[1..][1..] == [NullTok] + rest;
      case IsNotNull(c) =>
        assert all[1..][2..] == [NullTok] + rest;
      case Compare(c, op, val) =>
        assert all[1..][1..] == [LiteralToken(val)] + rest;
    } else {
      var body := ts[1..|ts| - 1];
      var after := [RParen] + rest;
      assert all[1..] == body + after;
      BinaryComplete(body, e, after, 1, 1);
      assert after[1..] == rest;
    }
  }

  predicate OperatorOfNode(level: nat, op: Token, e: FilterExpr) {
    if level == 1 then op.OrTok? && e.Or? else level == 2 && op.AndTok? && e.And?
  }

  /** Having read the left side of `e`, climbing reads the operator and the right side and goes on with `e`. */
  lemma {:induction false} ClimbsOver(op: Token, r: seq<Token>, e: FilterExpr, rest: seq<Token>, minPrec: nat, level: nat)
    requires 1 <= minPrec <= level && OperatorOfNode(level, op, e) && Precedence(rest) <= level
    requires Binary(r + rest, level + 1) == Climb(e.right, rest, level + 1)
    ensures Climb(e.left, [op] + (r + rest), minPrec) == Climb(e, rest, minPrec)
  {
    var tail := [op] + (r + rest);
    assert tail[1..] == r + rest;
    assert Climb(e.right, rest, level + 1) == Ok((e.right, rest));
  }

  /**
    On `ts` followed by `rest`, `Binary(minPrec)` reaches the point where it
    has read `e` from `ts` and decides how to go on.
   */
  lemma {:induction false} BinaryComplete(
      ts: seq<Token>, e: FilterExpr, rest: seq<Token>, minPrec: nat, level: nat)
    requires 1 <= minPrec <= level <= 3
    requires Derives(level, ts, e) && Precedence(rest) <= level
    ensures Binary(ts + rest, minPrec) == Climb(e, rest, minPrec)
    decreases |ts|, 4 - level
  {
    if level == 3 {
      PrimaryComplete(ts, e, rest);
    } else if Derives(level + 1, ts, e) {
      BinaryComplete(ts, e, rest, minPrec, level + 1);
    } else {
      var i :| 0 <= i < |ts| && SplitsAt(level, ts, i, e);
      var l, r := ts[..i], ts[i + 1..];
      var tail := [ts[i]] + (r + rest);
      assert ts + rest == l + tail;
      BinaryComplete(l, e.left, tail, minPrec, level);
      BinaryComplete(r, e.right, rest, level + 1, level + 1);
      ClimbsOver(ts[i], r, e, rest, minPrec, level);
    }
  }

  /** The parser accepts exactly the sentences of the grammar, with the tree the grammar gives. */
  lemma {:induction false} ParserExact(ts: seq<Token>, e: FilterExpr)
    ensures Parse(ts) == Ok(e) <==> Derives(1, ts, e)
  {
    BinarySound(ts, 1);
    if Derives(1, ts, e) {
      BinaryComplete(ts, e, [], 1, 1);
      assert ts + [] == ts;
    }
    if Parse(ts) == Ok(e) {
      assert Taken(ts, []) == ts;
    }
  }

  /** The grammar is unambiguous. */
  lemma {:induction false} GrammarUnambiguous(ts: seq<Token>, d: FilterExpr, e: FilterExpr)
    requires Derives(1, ts, d) && Derives(1, ts, e)
    ensures d == e
  {
    ParserExact(ts, d);
    ParserExact(ts, e);
  }

  // ── The parser itself: a cursor over the tokens ───────────────────────────

  class Parser {
    const tokens: seq<Token>
    var pos: nat

    ghost predicate Valid()
      reads this
    {
      pos <= |tokens|
    }

    ghost function Rest(): seq<Token>
      requires Valid()
      reads this
    {
      tokens[pos..]
    }

    /** The cursor has consumed what the function consumed, and the outcomes agree. */
    ghost predicate Did<T>(r: Result<T, ParseError>, spec: Parsed<T>)
      requires Valid()
      reads this
    {
      match spec
      case Ok((x, rest)) => r == Ok(x) && Rest() == rest
      case Err(e) => r == Err(e)
    }

    constructor (tokens: seq<Token>)
      ensures Valid() && Rest() == tokens && this.tokens == tokens
    {
      this.tokens := tokens;
      pos := 0;
    }

    method Bump()
      requires Valid() && pos < |tokens|
      modifies this
      ensures Valid() && Rest() == old(Rest())[1..] && pos == old(pos) + 1
    {
      pos := pos + 1;
    }

    method Next() returns (tok: Option<Token>)
      requires Valid()
      modifies this
      ensures Valid()
      ensures if old(Rest()) == [] then tok == None && pos == old(pos)
              else tok == Some(old(Rest())[0]) && Rest() == old(Rest())[1..] && pos == old(pos) + 1
    {
      if pos < |tokens| {
        tok := Some(tokens[pos]);
        pos := pos + 1;
      } else {
        tok := None;
      }
    }

    method ParseLiteral() returns (r: Result<Value, ParseError>)
      requires Valid()
      modifies this
      ensures Valid() && pos >= old(pos) && Did(r, Literal(old(Rest())))
    {
      var tok := Next();
      match tok
      case Some(StrTok(s)) => r := Ok(Str(s));
      case Some(Number(n)) => r := Ok(Num(n));
      case Some(NullTok) => r := Ok(NullLit);
      case _ => r := Err(ExpectedLiteral);
    }

    method ParseComparison() returns (r: Result<FilterExpr, ParseError>)
      requires Valid() && pos < |tokens| && tokens[pos].Ident?
      modifies this
      ensures Valid() && pos >= old(pos) && Did(r, Comparison(old(Rest())))
    {
      var col := tokens[pos].name;
      Bump();
      if pos == |tokens| {
        return Err(ExpectedOperator);
      }
      var tok := tokens[pos];
      if tok.IsTok? {
        Bump();
        var negated := pos < |tokens| && tokens[pos].NotTok?;
        if negated {
          Bump();
        }
        var last := Next();
        if last == Some(NullTok) {
          r := Ok(if negated then IsNotNull(col) else IsNull(col));
        } else {
          r := Err(ExpectedNull);
        }
      } else {
        match OperatorOf(tok)
        case Some(op) =>
          Bump();
          var val :- ParseLiteral();
          r := Ok(Compare(col, op, val));
        case None =>
          r := Err(ExpectedOperator);
      }
    }

    method ParsePrimary() returns (r: Result<FilterExpr, ParseError>)
      requires Valid()
      modifies this
      ensures Valid() && pos >= old(pos) && Did(r, Primary(old(Rest())))
      decreases |tokens| - pos, 0
    {
      if pos < |tokens| && tokens[pos].LParen? {
        Bump();
        var inner :- ParseBinary(1);
        var close := Next();
        r := if close == Some(RParen) then Ok(inner) else Err(ExpectedClose);
      } else if pos < |tokens| && tokens[pos].Ident? {
        r := ParseComparison();
      } else {
        r := Err(ExpectedStart);
      }
    }

    method ParseBinary(minPrec: nat) returns (r: Result<FilterExpr, ParseError>)
      requires Valid() && minPrec > 0
      modifies this
      ensures Valid() && pos >= old(pos) && Did(r, Binary(old(Rest()), minPrec))
      decreases |tokens| - pos, 1
    {
      var lhs :- ParsePrimary();
      while Precedence(tokens[pos..]) > 0
        invariant Valid() && pos > old(pos)
        invariant Climb(lhs, Rest(), minPrec) == Binary(old(Rest()), minPrec)
        decreases |tokens| - pos
      {
        var prec := Precedence(tokens[pos..]);
        if prec < minPrec {
          break;
        }
        var op := tokens[pos];
        Bump();
        var rhs :- ParseBinary(prec + 1);
        lhs := Combine(op, lhs, rhs);
      }
      return Ok(lhs);
    }

    method ParseAll() returns (r: Result<FilterExpr, ParseError>)
      requires Valid() && pos == 0
      modifies this
      ensures r == Parse(tokens)
    {
      assert tokens[0..] == tokens;
      if |tokens| == 0 {
        return Err(EmptyExpression);
      }
      var expr :- ParseBinary(1);
      r := if pos == |tokens| then Ok(expr) else Err(Trailing);
    }
  }

  // ── From characters ───────────────────────────────────────────────────────

  datatype FilterError = Lexical(lex: LexError) | Syntax(parse: ParseError)

  function FilterOf(h: Host, input: string): Result<FilterExpr, FilterError> {
    match Tokens(h, input)
    case Err(e) => Err(Lexical(e))
    case Ok(ts) =>
      match Parse(ts)
      case Err(e) => Err(Syntax(e))
      case Ok(expr) => Ok(expr)
  }

  method ParseFilterExpr(h: Host, input: string) returns (r: Result<FilterExpr, FilterError>)
    ensures r == FilterOf(h, input)
  {
    var lexed := Tokenize(h, input);
    match lexed
    case Err(e) => r := Err(Lexical(e));
    case Ok(tokens) =>
      var parser := new Parser(tokens);
      var parsed := parser.ParseAll();
      match parsed
      case Err(e) => r := Err(Syntax(e));
      case Ok(expr) => r := Ok(expr);
  }
}
