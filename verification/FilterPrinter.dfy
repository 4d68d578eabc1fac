/** Expressions back to characters, and the proof that reading undoes printing. */
module FilterPrinter {
  import opened Wrappers
  import opened Host
  import opened Filter
  import opened FilterLexer
  import opened FilterParser
  import Quote

  // ── Expressions to tokens, with no parenthesis the grammar does not need ──

  function OperatorToken(op: Operator): Token {
    match op
    case Eq => EqTok
    case Neq => NeqTok
    case Gt => GtTok
    case Lt => LtTok
    case Ge => GeTok
    case Le => LeTok
  }

  /** The level at which `e` is derived without parentheses. */
  function Level(e: FilterExpr): (level: nat)
    ensures 1 <= level <= 3
  {
    if e.Or? then 1 else if e.And? then 2 else 3
  }

  function ToTokens(e: FilterExpr): seq<Token>
    decreases e, 0
  {
    match e
    case Compare(c, op, val) => [Ident(c), OperatorToken(op), LiteralToken(val)]
    case IsNull(c) => [Ident(c), IsTok, NullTok]
    case IsNotNull(c) => [Ident(c), IsTok, NotTok, NullTok]
    case And(l, r) => AtLevel(2, l) + [AndTok] + AtLevel(3, r)
    case Or(l, r) => AtLevel(1, l) + [OrTok] + AtLevel(2, r)
  }

  function AtLevel(level: nat, e: FilterExpr): seq<Token>
    decreases e, 1
  {
    if Level(e) >= level then ToTokens(e) else [LParen] + ToTokens(e) + [RParen]
  }

  lemma {:induction false} ToTokensDerives(e: FilterExpr)
    ensures Derives(Level(e), ToTokens(e), e)
    decreases e, 0
  {
    match e
    case And(l, r) =>
      AtLevelDerives(2, l);
      AtLevelDerives(3, r);
      Split(2, AtLevel(2, l), AndTok, AtLevel(3, r), e);
    case Or(l, r) =>
      AtLevelDerives(1, l);
      AtLevelDerives(2, r);
      Split(1, AtLevel(1, l), OrTok, AtLevel(2, r), e);
    case _ =>
      assert DerivesComparison(ToTokens(e), e);
  }

  lemma {:induction false} AtLevelDerives(level: nat, e: FilterExpr)
    requires 1 <= level <= 3
    ensures Derives(level, AtLevel(level, e), e)
    decreases e, 1
  {
    ToTokensDerives(e);
    if Level(e) >= level {
      Weaken(Level(e), level, ToTokens(e), e);
    } else {
      Weaken(Level(e), 1, ToTokens(e), e);
      var ts := AtLevel(level, e);
      assert ts[1..|ts| - 1] == ToTokens(e);
      assert Derives(3, ts, e);
      Weaken(3, level, ts, e);
    }
  }

  /** No other token sequence for `e` is shorter: every parenthesis printed is needed. */
  lemma {:induction false} PrintedIsShortest(level: nat, ts: seq<Token>, e: FilterExpr)
    requires 1 <= level <= 3 && Derives(level, ts, e)
    ensures |AtLevel(level, e)| <= |ts|
    decreases |ts|, 3 - level
  {
    if level == 3 {
      if !DerivesComparison(ts, e) {
        PrintedIsShortest(1, ts[1..|ts| - 1], e);
      }
    } else if Derives(level + 1, ts, e) {
      PrintedIsShortest(level + 1, ts, e);
    } else {
      var i :| 0 <= i < |ts| && SplitsAt(level, ts, i, e);
      PrintedIsShortest(level, ts[..i], e.left);
      PrintedIsShortest(level + 1, ts[i + 1..], e.right);
    }
  }

  // ── Tokens to characters ──────────────────────────────────────────────────

  function TokenText(h: Host, tok: Token): string {
    match tok
    case Ident(c) => c
    case StrTok(s) => Quote.Literal(s)
    case Number(n) => h.showF64(n)
    case EqTok => "="
    case NeqTok => "!="
    case GtTok => ">"
    case LtTok => "<"
    case GeTok => ">="
    case LeTok => "<="
    case AndTok => "AND"
    case OrTok => "OR"
    case NotTok => "NOT"
    case IsTok => "IS"
    case NullTok => "NULL"
    case LParen => "("
    case RParen => ")"
  }

  function Render(h: Host, ts: seq<Token>): string {
    if ts == [] then ""
    else if |ts| == 1 then TokenText(h, ts[0])
    else TokenText(h, ts[0]) + " " + Render(h, ts[1..])
  }

  function Print(h: Host, e: FilterExpr): string {
    Render(h, ToTokens(e))
  }

  /** A name the lexer reads as one identifier. */
  ghost predicate LegalIdent(h: Host, c: string) {
    && c != "" && !IsDigit(c[0])
    && (forall i :: 0 <= i < |c| ==> IsWordChar(h, c[i]))
    && WordToken(h, c) == Ident(c)
  }

  /** A number whose shown text is a plain decimal numeral that parses back to it. */
  ghost predicate LegalNumber(h: Host, n: F64) {
    var s := h.showF64(n);
    && s != "" && (IsDigit(s[0]) || (s[0] == '-' && |s| > 1 && IsDigit(s[1])))
    && NumberLength(s) == |s|
    && h.parseF64(s) == Some(n)
  }

  ghost predicate LegalToken(h: Host, tok: Token) {
    match tok
    case Ident(c) => LegalIdent(h, c)
    case Number(n) => LegalNumber(h, n)
    case _ => true
  }

  ghost predicate LegalExpr(h: Host, e: FilterExpr) {
    match e
    case Compare(c, _, val) => LegalIdent(h, c) && (val.Num? ==> LegalNumber(h, val.n))
    case IsNull(c) => LegalIdent(h, c)
    case IsNotNull(c) => LegalIdent(h, c)
    case And(l, r) => LegalExpr(h, l) && LegalExpr(h, r)
    case Or(l, r) => LegalExpr(h, l) && LegalExpr(h, r)
  }

  // ── Reading one token back ────────────────────────────────────────────────

  predicate Separated(rest: string) {
    rest == "" || rest[0] == ' '
  }

  /** A quoted literal reads back as itself exactly when no further quote follows it. */
  lemma {:induction false} StringBodyExact(s: string, rest: string)
    ensures StringBody(Quote.Doubled(s) + "'" + rest) == Ok((s, rest)) <==>
            (rest == "" || rest[0] != '\'')
  {
    var text := Quote.Doubled(s) + "'" + rest;
    if s == "" {
      assert text == "'" + rest;
      assert text[1..] == rest;
      if rest != "" && rest[0] == '\'' {
        var inner := StringBody(text[2..]);
        assert inner.Ok? ==> StringBody(text).value.0 != "";
      }
    } else {
      StringBodyExact(s[1..], rest);
      var tail := Quote.Doubled(s[1..]) + "'" + rest;
      if s[0] == '\'' {
        assert text == "''" + tail;
        assert text[2..] == tail;
      } else {
        assert text == [s[0]] + tail;
        assert text[1..] == tail;
      }
      assert s == [s[0]] + s[1..];
    }
  }

  /** `lex_string` undoes `quote_literal`. */
  lemma {:induction false} QuotedLiteralReadsBack(s: string, rest: string)
    ensures StringToken(Quote.Literal(s) + rest) == Ok((StrTok(s), rest)) <==>
            (rest == "" || rest[0] != '\'')
  {
    var text := Quote.Literal(s) + rest;
    assert text[1..] == Quote.Doubled(s) + "'" + rest;
    StringBodyExact(s, rest);
  }

  lemma {:induction false} WordSpanStops(h: Host, w: string, rest: string)
    requires forall i :: 0 <= i < |w| ==> IsWordChar(h, w[i])
    requires rest == "" || !IsWordChar(h, rest[0])
    ensures WordSpan(h, w + rest) == |w|
  {
    if w == "" {
      assert w + rest == rest;
    } else {
      assert (w + rest)[1..] == w[1..] + rest;
      WordSpanStops(h, w[1..], rest);
    }
  }

  lemma {:induction false} NumberSpanStops(s: string, hasDot: bool, rest: string)
    requires NumberSpan(s, hasDot) == |s| && Separated(rest)
    ensures NumberSpan(s + rest, hasDot) == |s|
  {
    if s == "" {
      assert s + rest == rest;
    } else {
      assert (s + rest)[1..] == s[1..] + rest;
      NumberSpanStops(s[1..], if IsDigit(s[0]) then hasDot else true, rest);
    }
  }

  lemma {:induction false} UpperKeyword(h: Host, s: string)
    requires AsciiOk(h) && forall i :: 0 <= i < |s| ==> 'A' <= s[i] <= 'Z'
    ensures Upper(h, s) == s
  {
    if s != "" {
      UpperKeyword(h, s[1..]);
      assert h.upper(s[0]) == [s[0]];
      assert s == [s[0]] + s[1..];
    }
  }

  lemma {:induction false} WordReadsBack(h: Host, w: string, rest: string)
    requires AsciiOk(h) && Separated(rest)
    requires w != "" && !IsDigit(w[0]) && forall i :: 0 <= i < |w| ==> IsWordChar(h, w[i])
    ensures NextToken(h, w + rest) == Ok(Some((WordToken(h, w), rest)))
  {
    var s := w + rest;
    assert IsWordChar(h, s[0]) && !h.alnum(' ');
    WordSpanStops(h, w, rest);
    assert s[..|w|] == w && s[|w|..] == rest;
  }

  lemma {:induction false} NumberReadsBack(h: Host, n: F64, rest: string)
    requires LegalNumber(h, n) && Separated(rest)
    ensures NextToken(h, h.showF64(n) + rest) == Ok(Some((Number(n), rest)))
  {
    var t := h.showF64(n);
    var s := t + rest;
    if t[0] == '-' {
      assert s[1..] == t[1..] + rest;
      NumberSpanStops(t[1..], false, rest);
    } else {
      NumberSpanStops(t, false, rest);
    }
    assert s[..|t|] == t && s[|t|..] == rest;
  }

  lemma {:induction false} KeywordReadsBack(h: Host, tok: Token, rest: string)
    requires AsciiOk(h) && Separated(rest)
    requires tok.AndTok? || tok.OrTok? || tok.NotTok? || tok.IsTok? || tok.NullTok?
    ensures NextToken(h, TokenText(h, tok) + rest) == Ok(Some((tok, rest)))
  {
    var w := TokenText(h, tok);
    assert WordToken(h, w) == tok by {
      UpperKeyword(h, w);
    }
    assert forall i :: 0 <= i < |w| ==> IsWordChar(h, w[i]) by {
      assert forall i :: 0 <= i < |w| ==> h.alnum(w[i]);
    }
    WordReadsBack(h, w, rest);
  }

  lemma {:induction false} TokenReadsBack(h: Host, tok: Token, rest: string)
    requires AsciiOk(h) && LegalToken(h, tok) && Separated(rest)
    ensures NextToken(h, TokenText(h, tok) + rest) == Ok(Some((tok, rest)))
  {
    var s := TokenText(h, tok) + rest;
    match tok
    case Ident(c) => WordReadsBack(h, c, rest);
    case StrTok(v) => QuotedLiteralReadsBack(v, rest);
    case Number(n) => NumberReadsBack(h, n, rest);
    case NeqTok => assert s[2..] == rest;
    case GeTok => assert s[2..] == rest;
    case LeTok => assert s[2..] == rest;
    case EqTok => assert s[1..] == rest;
    case GtTok => assert s[1..] == rest;
    case LtTok => assert s[1..] == rest;
    case LParen => assert s[1..] == rest;
    case RParen => assert s[1..] == rest;
    case _ => KeywordReadsBack(h, tok, rest);
  }

  // ── Reading everything back ───────────────────────────────────────────────

  lemma {:induction false} SpaceSkipped(h: Host, s: string)
    ensures NextToken(h, " " + s) == NextToken(h, s) && Tokens(h, " " + s) == Tokens(h, s)
  {
    assert (" " + s)[1..] == s;
  }

  lemma {:induction false} RenderReadsBack(h: Host, ts: seq<Token>)
    requires AsciiOk(h) && forall t :: t in ts ==> LegalToken(h, t)
    ensures Tokens(h, Render(h, ts)) == Ok(ts)
  {
    if ts == [] {
    } else if |ts| == 1 {
      TokenReadsBack(h, ts[0], "");
      assert TokenText(h, ts[0]) + "" == TokenText(h, ts[0]);
      assert Tokens(h, "") == Ok([]);
      assert [ts[0]] + [] == ts;
    } else {
      var tail := Render(h, ts[1..]);
      TokenReadsBack(h, ts[0], " " + tail);
      assert TokenText(h, ts[0]) + " " + tail == TokenText(h, ts[0]) + (" " + tail);
      SpaceSkipped(h, tail);
      RenderReadsBack(h, ts[1..]);
      assert [ts[0]] + ts[1..] == ts;
    }
  }

  lemma {:induction false} LegalTokens(h: Host, e: FilterExpr)
    requires LegalExpr(h, e)
    ensures forall t :: t in ToTokens(e) ==> LegalToken(h, t)
  {
    match e
    case And(l, r) => LegalTokens(h, l); LegalTokens(h, r);
    case Or(l, r) => LegalTokens(h, l); LegalTokens(h, r);
    case Compare(c, op, val) => assert LegalToken(h, Ident(c)) && LegalToken(h, LiteralToken(val));
    case IsNull(c) => assert LegalToken(h, Ident(c));
    case IsNotNull(c) => assert LegalToken(h, Ident(c));
  }

  /** Compiling the printed text of a filter gives the filter. */
  lemma {:induction false} PrintThenParse(h: Host, e: FilterExpr)
    requires AsciiOk(h) && LegalExpr(h, e)
    ensures FilterOf(h, Print(h, e)) == Ok(e)
  {
    LegalTokens(h, e);
    RenderReadsBack(h, ToTokens(e));
    ToTokensDerives(e);
    Weaken(Level(e), 1, ToTokens(e), e);
    ParserExact(ToTokens(e), e);
  }
}
