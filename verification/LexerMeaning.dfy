/** Which texts are which tokens: what the lexer reads, what it stops at, and nothing else. */
module LexerMeaning {
  import opened Wrappers
  import opened Host
  import opened FilterLexer
  import FilterPrinter
  import Quote

  predicate StartsWith(s: string, c: char) {
    s != "" && s[0] == c
  }

  // ── Words and numbers ─────────────────────────────────────────────────────

  /** Upper case goes character by character. */
  lemma {:induction false} UpperExactly(h: Host, s: string, c: char, t: string)
    ensures Upper(h, "") == "" && Upper(h, s + [c] + t) == Upper(h, s) + h.upper(c) + Upper(h, t)
  {
    if s != "" {
      assert (s + [c] + t)[1..] == s[1..] + [c] + t;
      UpperExactly(h, s[1..], c, t);
    } else {
      assert s + [c] + t == [c] + t && (s + [c] + t)[1..] == t;
    }
  }

  /** Keywords are read in any case; every other word is a name. */
  predicate WordShows(h: Host, text: string, tok: Token) {
    var u := Upper(h, text);
    match tok
    case AndTok => u == "AND"
    case OrTok => u == "OR"
    case NotTok => u == "NOT"
    case IsTok => u == "IS"
    case NullTok => u == "NULL"
    case Ident(name) => name == text && u != "AND" && u != "OR" && u != "NOT" && u != "IS" && u != "NULL"
    case _ => false
  }

  predicate Special(c: char) {
    c == '(' || c == ')' || c == '\'' || c == '=' || c == '!' || c == '<' || c == '>' || c == '-'
  }

  /** All of a word: `rest` does not go on with it. */
  ghost predicate WordText(h: Host, text: string, rest: string) {
    && text != "" && !Special(text[0]) && !IsDigit(text[0])
    && (forall i :: 0 <= i < |text| ==> h.alnum(text[i]) || text[i] == '_')
    && (rest != "" ==> !h.alnum(rest[0]) && rest[0] != '_')
  }

  /** Digits with at most one dot, or none when there was one before, as far as they go. */
  ghost predicate DigitsText(text: string, rest: string, hasDot: bool) {
    && (forall i :: 0 <= i < |text| ==> IsDigit(text[i]) || text[i] == '.')
    && (forall i, j :: 0 <= i < j < |text| ==> text[i] != '.' || text[j] != '.')
    && (hasDot ==> '.' !in text)
    && (rest != "" ==> !IsDigit(rest[0]) && (rest[0] == '.' ==> hasDot || '.' in text))
  }

  /** All of a number: it begins with a digit, or with a minus sign and a digit. */
  ghost predicate NumberText(text: string, rest: string) {
    if StartsWith(text, '-') then |text| > 1 && IsDigit(text[1]) && DigitsText(text[1..], rest, false)
    else text != "" && IsDigit(text[0]) && DigitsText(text, rest, false)
  }

  lemma {:induction false} SpanIsDigits(s: string, hasDot: bool)
    ensures var n := NumberSpan(s, hasDot); DigitsText(s[..n], s[n..], hasDot)
  {
    if s != "" && (IsDigit(s[0]) || (s[0] == '.' && !hasDot)) {
      var dot := hasDot || s[0] == '.';
      SpanIsDigits(s[1..], dot);
      var n := NumberSpan(s[1..], dot);
      assert s[..n + 1] == [s[0]] + s[1..][..n] && s[n + 1..] == s[1..][n..];
      assert '.' in s[..n + 1] <==> s[0] == '.' || '.' in s[1..][..n];
    }
  }

  lemma {:induction false} DigitsAreSpan(text: string, rest: string, hasDot: bool)
    requires DigitsText(text, rest, hasDot)
    ensures NumberSpan(text + rest, hasDot) == |text|
  {
    if text == "" {
      assert text + rest == rest;
    } else {
      assert (text + rest)[1..] == text[1..] + rest;
      assert text == [text[0]] + text[1..];
      DigitsAreSpan(text[1..], rest, hasDot || text[0] == '.');
    }
  }

  lemma {:induction false} LengthExactly(s: string, text: string, rest: string)
    requires s == text + rest && s != "" && (IsDigit(s[0]) || (s[0] == '-' && |s| > 1 && IsDigit(s[1])))
    ensures NumberLength(s) == |text| <==> NumberText(text, rest)
  {
    var n := NumberLength(s);
    if s[0] == '-' {
      SpanIsDigits(s[1..], false);
      assert s[..n][1..] == s[1..][..n - 1] && s[n..] == s[1..][n - 1..];
      if NumberText(text, rest) {
        assert s[1..] == text[1..] + rest;
        DigitsAreSpan(text[1..], rest, false);
      }
    } else {
      SpanIsDigits(s, false);
      if NumberText(text, rest) {
        DigitsAreSpan(text, rest, false);
      }
    }
    assert s[..|text|] == text && s[|text|..] == rest;
  }

  lemma {:induction false} SpanIsWord(h: Host, s: string)
    ensures var n := WordSpan(h, s);
            && (forall i :: 0 <= i < n ==> h.alnum(s[i]) || s[i] == '_')
            && (n < |s| ==> !h.alnum(s[n]) && s[n] != '_')
  {
    if s != "" && IsWordChar(h, s[0]) {
      SpanIsWord(h, s[1..]);
      assert forall i :: 0 < i < |s| ==> s[i] == s[1..][i - 1];
    }
  }

  lemma {:induction false} WordExactly(h: Host, s: string, text: string, rest: string)
    requires s == text + rest && s != "" && !Special(s[0]) && !IsDigit(s[0]) && IsWordChar(h, s[0])
    ensures WordSpan(h, s) == |text| <==> WordText(h, text, rest)
  {
    SpanIsWord(h, s);
    assert forall i :: 0 <= i < |text| ==> s[i] == text[i];
    if WordText(h, text, rest) {
      FilterPrinter.WordSpanStops(h, text, rest);
    }
    assert s[..|text|] == text && s[|text|..] == rest;
  }

  // ── Strings ───────────────────────────────────────────────────────────────

  lemma {:induction false} BodyWasQuoted(s: string)
    requires StringBody(s).Ok?
    ensures var (body, rest) := StringBody(s).value;
            s == Quote.Doubled(body) + "'" + rest && !StartsWith(rest, '\'')
  {
    if s[0] != '\'' {
      BodyWasQuoted(s[1..]);
    } else if |s| > 1 && s[1] == '\'' {
      BodyWasQuoted(s[2..]);
    }
  }

  lemma {:induction false} StringExactly(s: string, body: string, rest: string)
    requires StartsWith(s, '\'')
    ensures StringToken(s) == Ok((StrTok(body), rest)) <==> s == Quote.Literal(body) + rest && !StartsWith(rest, '\'')
  {
    if StringToken(s) == Ok((StrTok(body), rest)) {
      BodyWasQuoted(s[1..]);
      assert s == "'" + s[1..];
    }
    if s == Quote.Literal(body) + rest {
      FilterPrinter.QuotedLiteralReadsBack(body, rest);
    }
  }

  // ── One token ─────────────────────────────────────────────────────────────

  /** `s` is the token and then `rest`, and the token could not be longer. */
  ghost predicate Lexes(h: Host, s: string, tok: Token, rest: string) {
    match tok
    case LParen => s == "(" + rest
    case RParen => s == ")" + rest
    case EqTok => s == "=" + rest
    case NeqTok => s == "!=" + rest || s == "<>" + rest
    case GeTok => s == ">=" + rest
    case LeTok => s == "<=" + rest
    case GtTok => s == ">" + rest && !StartsWith(rest, '=')
    case LtTok => s == "<" + rest && !StartsWith(rest, '=') && !StartsWith(rest, '>')
    case StrTok(body) => s == Quote.Literal(body) + rest && !StartsWith(rest, '\'')
    case Number(n) => exists text :: s == text + rest && NumberText(text, rest) && h.parseF64(text) == Some(n)
    case _ => exists text :: s == text + rest && WordText(h, text, rest) && WordShows(h, text, tok)
  }

  /** No token begins here. */
  ghost predicate Fails(h: Host, s: string, e: LexError) {
    s != "" &&
    match e
    case UnterminatedString =>
      s[0] == '\'' && forall body, rest :: !(s == Quote.Literal(body) + rest && !StartsWith(rest, '\''))
    case LoneBang => s[0] == '!' && !(|s| > 1 && s[1] == '=')
    case LoneMinus => s[0] == '-' && !(|s| > 1 && IsDigit(s[1]))
    case BadNumber(text) => exists rest :: s == text + rest && NumberText(text, rest) && h.parseF64(text) == None
    case BadChar(c) => c == s[0] && !Special(c) && !IsDigit(c) && !h.alnum(c) && c != '_'
  }

  lemma {:induction false} NumberLexes(h: Host, s: string, tok: Token, rest: string)
    requires s != "" && (IsDigit(s[0]) || (s[0] == '-' && |s| > 1 && IsDigit(s[1])))
    ensures NumberToken(h, s) == Ok((tok, rest)) <==>
            tok.Number? && exists text :: s == text + rest && NumberText(text, rest) && h.parseF64(text) == Some(tok.n)
  {
    var n := NumberLength(s);
    assert s == s[..n] + s[n..];
    LengthExactly(s, s[..n], s[n..]);
    if text :| tok.Number? && s == text + rest && NumberText(text, rest) && h.parseF64(text) == Some(tok.n) {
      LengthExactly(s, text, rest);
      assert s[..n] == text && s[n..] == rest;
    }
  }

  lemma {:induction false} NumberFails(h: Host, s: string, bad: string)
    requires s != "" && (IsDigit(s[0]) || (s[0] == '-' && |s| > 1 && IsDigit(s[1])))
    ensures NumberToken(h, s) == Err(BadNumber(bad)) <==>
            exists rest :: s == bad + rest && NumberText(bad, rest) && h.parseF64(bad) == None
  {
    var n := NumberLength(s);
    assert s == s[..n] + s[n..];
    LengthExactly(s, s[..n], s[n..]);
    if rest :| s == bad + rest && NumberText(bad, rest) && h.parseF64(bad) == None {
      LengthExactly(s, bad, rest);
      assert s[..n] == bad && s[n..] == rest;
    }
  }

  lemma {:induction false} WordLexes(h: Host, s: string, tok: Token, rest: string)
    requires s != "" && !Special(s[0]) && !IsDigit(s[0]) && IsWordChar(h, s[0])
    ensures (var n := WordSpan(h, s); tok == WordToken(h, s[..n]) && rest == s[n..]) <==>
            exists text :: s == text + rest && WordText(h, text, rest) && WordShows(h, text, tok)
  {
    var n := WordSpan(h, s);
    assert s == s[..n] + s[n..];
    WordExactly(h, s, s[..n], s[n..]);
    if tok == WordToken(h, s[..n]) && rest == s[n..] {
      assert WordShows(h, s[..n], tok);
    }
    if text :| s == text + rest && WordText(h, text, rest) && WordShows(h, text, tok) {
      WordExactly(h, s, text, rest);
      assert s[..n] == text && s[n..] == rest;
    }
  }

  /** A number begins with a digit or a minus, a word with neither nor an operator. */
  lemma {:induction false} Beginnings(h: Host, s: string, tok: Token, rest: string)
    requires Lexes(h, s, tok, rest)
    ensures s != ""
    ensures tok.Number? ==> IsDigit(s[0]) || (s[0] == '-' && |s| > 1 && IsDigit(s[1]))
    ensures tok.Ident? || tok.AndTok? || tok.OrTok? || tok.NotTok? || tok.IsTok? || tok.NullTok? ==>
              !Special(s[0]) && !IsDigit(s[0]) && IsWordChar(h, s[0])
  {
    if tok.Number? {
      var text :| s == text + rest && NumberText(text, rest) && h.parseF64(text) == Some(tok.n);
      assert s[0] == text[0] && (|text| > 1 ==> s[1] == text[1]);
    } else if tok.Ident? || tok.AndTok? || tok.OrTok? || tok.NotTok? || tok.IsTok? || tok.NullTok? {
      var text :| s == text + rest && WordText(h, text, rest) && WordShows(h, text, tok);
      assert s[0] == text[0];
    }
  }

  predicate Symbol(c: char) {
    c == '(' || c == ')' || c == '=' || c == '!' || c == '<' || c == '>'
  }

  lemma {:induction false} SymbolLexes(h: Host, s: string, tok: Token, rest: string)
    requires s != "" && Symbol(s[0])
    ensures FirstToken(h, s) == Ok((tok, rest)) <==> Lexes(h, s, tok, rest)
  {
    assert s == [s[0]] + s[1..];
    assert |s| > 1 ==> s == [s[0], s[1]] + s[2..];
    if Lexes(h, s, tok, rest) {
      Beginnings(h, s, tok, rest);
      assert s[1..] == rest || (|s| > 1 && s[2..] == rest);
    }
  }

  lemma {:induction false} PlainLexes(h: Host, s: string, tok: Token, rest: string)
    requires s != "" && !Symbol(s[0]) && s[0] != '\''
    ensures FirstToken(h, s) == Ok((tok, rest)) <==> Lexes(h, s, tok, rest)
  {
    if Lexes(h, s, tok, rest) {
      Beginnings(h, s, tok, rest);
    }
    if IsDigit(s[0]) || (s[0] == '-' && |s| > 1 && IsDigit(s[1])) {
      NumberLexes(h, s, tok, rest);
    } else if s[0] != '-' && IsWordChar(h, s[0]) {
      WordLexes(h, s, tok, rest);
    }
  }

  /** The first token is read exactly when the text is that token, as long as it can be, and the rest. */
  lemma {:induction false} FirstTokenExactly(h: Host, s: string, tok: Token, rest: string)
    requires s != ""
    ensures FirstToken(h, s) == Ok((tok, rest)) <==> Lexes(h, s, tok, rest)
  {
    if Symbol(s[0]) {
      SymbolLexes(h, s, tok, rest);
    } else if s[0] == '\'' {
      if Lexes(h, s, tok, rest) {
        Beginnings(h, s, tok, rest);
      }
      if tok.StrTok? {
        StringExactly(s, tok.s, rest);
      }
    } else {
      PlainLexes(h, s, tok, rest);
    }
  }

  lemma {:induction false} OnlyUnterminated(s: string)
    ensures StringBody(s).Err? ==> StringBody(s).error == UnterminatedString
  {
    if s != "" {
      if s[0] != '\'' {
        OnlyUnterminated(s[1..]);
      } else if |s| > 1 && s[1] == '\'' {
        OnlyUnterminated(s[2..]);
      }
    }
  }

  lemma {:induction false} StringFails(h: Host, s: string)
    requires StartsWith(s, '\'')
    ensures if Fails(h, s, UnterminatedString) then StringToken(s) == Err(UnterminatedString) else StringToken(s).Ok?
  {
    OnlyUnterminated(s[1..]);
    if StringToken(s).Ok? {
      var (tok, rest) := StringToken(s).value;
      StringExactly(s, tok.s, rest);
    }
    if body, rest :| s == Quote.Literal(body) + rest && !StartsWith(rest, '\'') {
      StringExactly(s, body, rest);
    }
  }

  /** It fails exactly when none begins there, with the error that says so. */
  lemma {:induction false} FirstErrorExactly(h: Host, s: string, e: LexError)
    requires s != ""
    ensures FirstToken(h, s) == Err(e) <==> Fails(h, s, e)
  {
    if e.BadNumber? {
      if rest :| s == e.text + rest && NumberText(e.text, rest) && h.parseF64(e.text) == None {
        assert s[0] == e.text[0] && (|e.text| > 1 ==> s[1] == e.text[1]);
      }
    }
    if s[0] == '\'' {
      StringFails(h, s);
    } else if IsDigit(s[0]) || (s[0] == '-' && |s| > 1 && IsDigit(s[1])) {
      if e.BadNumber? {
        NumberFails(h, s, e.text);
      }
    }
  }

  // ── All of them ───────────────────────────────────────────────────────────

  /** `t` is `s` without the blanks before it. */
  ghost predicate AfterBlanks(s: string, t: string) {
    && |t| <= |s| && s[|s| - |t|..] == t
    && (forall i :: 0 <= i < |s| - |t| ==> s[i] in " \t\n\r\U{0C}")
    && (t != "" ==> t[0] !in " \t\n\r\U{0C}")
  }

  lemma {:induction false} SkippedExactly(s: string, t: string)
    ensures SkipWs(s) == t <==> AfterBlanks(s, t)
  {
    if s != "" {
      assert s[0] in " \t\n\r\U{0C}" <==> IsAsciiSpace(s[0]);
      if IsAsciiSpace(s[0]) {
        SkippedExactly(s[1..], t);
        if |t| < |s| {
          assert s[|s| - |t|..] == s[1..][|s| - 1 - |t|..];
          assert forall i :: 0 < i < |s| - |t| ==> s[i] == s[1..][i - 1];
        } else {
          assert |t| == |s| ==> s[0..] == s;
        }
      } else {
        assert s[0..] == s;
        assert |t| < |s| ==> s[0] !in " \t\n\r\U{0C}";
      }
    }
  }

  /** A token stands at the front of `s`, after blanks, and leaves `more`. */
  ghost predicate Stands(h: Host, s: string, tok: Token, more: string) {
    exists t :: AfterBlanks(s, t) && Lexes(h, t, tok, more)
  }

  /** No token stands there, and this is why. */
  ghost predicate Stuck(h: Host, s: string, e: LexError) {
    exists t :: AfterBlanks(s, t) && Fails(h, t, e)
  }

  type Next = string -> Result<Option<(Token, string)>, LexError>

  lemma {:induction false} NextExactly(h: Host, s: string)
    ensures forall tok, more :: NextToken(h, s) == Ok(Some((tok, more))) <==> Stands(h, s, tok, more)
    ensures forall e :: NextToken(h, s) == Err(e) <==> Stuck(h, s, e)
    ensures NextToken(h, s) == Ok(None) <==> AfterBlanks(s, "")
  {
    var t := SkipWs(s);
    SkippedExactly(s, t);
    SkippedExactly(s, "");
    OneAfterBlanks(s, t);
    forall tok, more ensures NextToken(h, s) == Ok(Some((tok, more))) <==> Lexes(h, t, tok, more) {
      NextRead(h, s, t, tok, more);
    }
    forall e ensures NextToken(h, s) == Err(e) <==> Fails(h, t, e) {
      NextFails(h, s, t, e);
    }
  }

  lemma {:induction false} OneAfterBlanks(s: string, t: string)
    requires AfterBlanks(s, t)
    ensures forall t' :: AfterBlanks(s, t') ==> t' == t
  {
    forall t' | AfterBlanks(s, t') ensures t' == t {
      SkippedExactly(s, t);
      SkippedExactly(s, t');
    }
  }

  lemma {:induction false} NextRead(h: Host, s: string, t: string, tok: Token, more: string)
    requires AfterBlanks(s, t)
    ensures NextToken(h, s) == Ok(Some((tok, more))) <==> Lexes(h, t, tok, more)
  {
    SkippedExactly(s, t);
    if t != "" {
      FirstTokenExactly(h, t, tok, more);
    } else if Lexes(h, t, tok, more) {
      Beginnings(h, t, tok, more);
    }
  }

  lemma {:induction false} NextFails(h: Host, s: string, t: string, e: LexError)
    requires AfterBlanks(s, t)
    ensures NextToken(h, s) == Err(e) <==> Fails(h, t, e)
  {
    SkippedExactly(s, t);
    if t != "" {
      FirstErrorExactly(h, t, e);
    }
  }

  // Reading one token after the other, whatever a token is.

  /** The tokens stand one after the other at the front of `s`, and `rest` is left. */
  ghost predicate Chain(next: Next, s: string, ts: seq<Token>, rest: string)
    decreases |ts|
  {
    if ts == [] then rest == s
    else exists more :: next(s) == Ok(Some((ts[0], more))) && Chain(next, more, ts[1..], rest)
  }

  ghost predicate Shrinks(next: Next) {
    forall s :: next(s).Ok? && next(s).value.Some? ==> |next(s).value.value.1| < |s|
  }

  /** `all` reads as `next` does, over and over. */
  ghost predicate Repeats(next: Next, all: string -> Result<seq<Token>, LexError>) {
    forall s ::
      match next(s)
      case Err(e) => all(s) == Err(e)
      case Ok(None) => all(s) == Ok([])
      case Ok(Some((tok, more))) => all(s) == After([tok], all(more))
  }

  lemma {:induction false} AfterTwice(ts: seq<Token>, us: seq<Token>, r: Result<seq<Token>, LexError>)
    ensures After(ts, After(us, r)) == After(ts + us, r)
  {
    assert r.Ok? ==> ts + (us + r.value) == ts + us + r.value;
  }

  lemma {:induction false} ChainReads(next: Next, all: string -> Result<seq<Token>, LexError>, s: string, ts: seq<Token>,
      rest: string)
    requires Repeats(next, all) && Chain(next, s, ts, rest)
    ensures all(s) == After(ts, all(rest))
    decreases |ts|
  {
    if ts == [] {
      assert all(rest).Ok? ==> [] + all(rest).value == all(rest).value;
    } else {
      var more :| next(s) == Ok(Some((ts[0], more))) && Chain(next, more, ts[1..], rest);
      ChainReads(next, all, more, ts[1..], rest);
      AfterTwice([ts[0]], ts[1..], all(rest));
      assert [ts[0]] + ts[1..] == ts;
    }
  }

  lemma {:induction false} ReadsChain(next: Next, all: string -> Result<seq<Token>, LexError>, s: string)
    returns (ts: seq<Token>, rest: string)
    requires Repeats(next, all) && Shrinks(next)
    ensures Chain(next, s, ts, rest) && !(next(rest).Ok? && next(rest).value.Some?)
    decreases |s|
  {
    if next(s).Ok? && next(s).value.Some? {
      var (tok, more) := next(s).value.value;
      var after;
      after, rest := ReadsChain(next, all, more);
      ts := [tok] + after;
      assert ts[1..] == after;
    } else {
      ts, rest := [], s;
    }
  }

  ghost function NextOf(h: Host): Next {
    s => NextToken(h, s)
  }

  ghost function AllOf(h: Host): string -> Result<seq<Token>, LexError> {
    s => Tokens(h, s)
  }

  lemma {:induction false} LexerRepeats(h: Host)
    ensures Repeats(NextOf(h), AllOf(h)) && Shrinks(NextOf(h))
  {
  }

  /** The tokens stand one after the other at the front of `s`, and `rest` is left. */
  ghost predicate StandsAll(h: Host, s: string, ts: seq<Token>, rest: string)
    decreases |ts|
  {
    if ts == [] then rest == s else exists more :: Stands(h, s, ts[0], more) && StandsAll(h, more, ts[1..], rest)
  }

  lemma {:induction false} ChainStands(h: Host, s: string, ts: seq<Token>, rest: string)
    ensures Chain(NextOf(h), s, ts, rest) <==> StandsAll(h, s, ts, rest)
    decreases |ts|
  {
    if ts != [] {
      NextExactly(h, s);
      assert forall more :: NextOf(h)(s) == Ok(Some((ts[0], more))) <==> Stands(h, s, ts[0], more);
      forall more ensures Chain(NextOf(h), more, ts[1..], rest) <==> StandsAll(h, more, ts[1..], rest) {
        ChainStands(h, more, ts[1..], rest);
      }
    }
  }

  /** A text is these tokens exactly when they stand in it one after the other and only blanks are left. */
  lemma {:induction false} TokensExactly(h: Host, s: string, ts: seq<Token>)
    ensures Tokens(h, s) == Ok(ts) <==> exists rest :: StandsAll(h, s, ts, rest) && AfterBlanks(rest, "")
  {
    LexerRepeats(h);
    var own, end := ReadsChain(NextOf(h), AllOf(h), s);
    ChainReads(NextOf(h), AllOf(h), s, own, end);
    ChainStands(h, s, own, end);
    NextExactly(h, end);
    assert own + [] == own;
    if rest :| StandsAll(h, s, ts, rest) && AfterBlanks(rest, "") {
      ChainStands(h, s, ts, rest);
      ChainReads(NextOf(h), AllOf(h), s, ts, rest);
      NextExactly(h, rest);
      assert ts + [] == ts;
    }
  }

  /** Lexing fails exactly when after some tokens no other begins, and with the error there. */
  lemma {:induction false} LexErrorExactly(h: Host, s: string, e: LexError)
    ensures Tokens(h, s) == Err(e) <==> exists ts, rest :: StandsAll(h, s, ts, rest) && Stuck(h, rest, e)
  {
    LexerRepeats(h);
    var own, end := ReadsChain(NextOf(h), AllOf(h), s);
    ChainReads(NextOf(h), AllOf(h), s, own, end);
    ChainStands(h, s, own, end);
    NextExactly(h, end);
    if ts, rest :| StandsAll(h, s, ts, rest) && Stuck(h, rest, e) {
      ChainStands(h, s, ts, rest);
      ChainReads(NextOf(h), AllOf(h), s, ts, rest);
      NextExactly(h, rest);
    }
  }
}
