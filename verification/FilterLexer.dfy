/** Characters to tokens. */
module FilterLexer {
  import opened Wrappers
  import opened Host

  datatype Token =
    | Ident(name: string) | StrTok(s: string) | Number(n: F64)
    | EqTok | NeqTok | GtTok | LtTok | GeTok | LeTok
    | AndTok | OrTok | NotTok | IsTok | NullTok
    | LParen | RParen

  datatype LexError =
    | UnterminatedString | LoneBang | LoneMinus | BadNumber(text: string) | BadChar(c: char)

  predicate IsWordChar(h: Host, c: char) {
    h.alnum(c) || c == '_'
  }

  // ── What each scanner consumes, as functions of the remaining text ────────

  function SkipWs(s: string): (rest: string)
    ensures |rest| <= |s|
  {
    if s != "" && IsAsciiSpace(s[0]) then SkipWs(s[1..]) else s
  }

  /** The text of a string literal after its opening quote, and what follows the closing one. */
  function StringBody(s: string): (r: Result<(string, string), LexError>)
    ensures r.Ok? ==> |r.value.1| < |s|
  {
    if s == "" then Err(UnterminatedString)
    else if s[0] != '\'' then
      var (body, rest) :- StringBody(s[1..]);
      Ok(([s[0]] + body, rest))
    else if |s| > 1 && s[1] == '\'' then
      var (body, rest) :- StringBody(s[2..]);
      Ok((['\''] + body, rest))
    else Ok(("", s[1..]))
  }

  /** How many characters belong to the digits of a number, with at most one dot. */
  function NumberSpan(s: string, hasDot: bool): (n: nat)
    ensures n <= |s|
  {
    if s == "" then 0
    else if IsDigit(s[0]) then 1 + NumberSpan(s[1..], hasDot)
    else if s[0] == '.' && !hasDot then 1 + NumberSpan(s[1..], true)
    else 0
  }

  function NumberLength(s: string): (n: nat)
    ensures n <= |s|
  {
    if s != "" && s[0] == '-' then 1 + NumberSpan(s[1..], false) else NumberSpan(s, false)
  }

  function WordSpan(h: Host, s: string): (n: nat)
    ensures n <= |s|
  {
    if s != "" && IsWordChar(h, s[0]) then 1 + WordSpan(h, s[1..]) else 0
  }

  function Upper(h: Host, s: string): string {
    if s == "" then "" else h.upper(s[0]) + Upper(h, s[1..])
  }

  function WordToken(h: Host, s: string): Token {
    var u := Upper(h, s);
    if u == "AND" then AndTok
    else if u == "OR" then OrTok
    else if u == "NOT" then NotTok
    else if u == "IS" then IsTok
    else if u == "NULL" then NullTok
    else Ident(s)
  }

  function StringToken(s: string): (r: Result<(Token, string), LexError>)
    requires s != ""
    ensures r.Ok? ==> |r.value.1| < |s|
  {
    var (body, rest) :- StringBody(s[1..]);
    Ok((StrTok(body), rest))
  }

  function NumberToken(h: Host, s: string): (r: Result<(Token, string), LexError>)
    requires s != "" && (s[0] == '-' || IsDigit(s[0]))
    ensures r.Ok? ==> |r.value.1| < |s|
  {
    var n := NumberLength(s);
    match h.parseF64(s[..n])
    case Some(x) => Ok((Number(x), s[n..]))
    case None => Err(BadNumber(s[..n]))
  }

  /** The first token of `s`, which does not start with white space, and what follows it. */
  function FirstToken(h: Host, s: string): (r: Result<(Token, string), LexError>)
    requires s != ""
    ensures r.Ok? ==> |r.value.1| < |s|
  {
    var c := s[0];
    if c == '(' then Ok((LParen, s[1..]))
    else if c == ')' then Ok((RParen, s[1..]))
    else if c == '\'' then StringToken(s)
    else if c == '=' then Ok((EqTok, s[1..]))
    else if c == '!' then
      if |s| > 1 && s[1] == '=' then Ok((NeqTok, s[2..])) else Err(LoneBang)
    else if c == '<' then
      if |s| > 1 && s[1] == '=' then Ok((LeTok, s[2..]))
      else if |s| > 1 && s[1] == '>' then Ok((NeqTok, s[2..]))
      else Ok((LtTok, s[1..]))
    else if c == '>' then
      if |s| > 1 && s[1] == '=' then Ok((GeTok, s[2..])) else Ok((GtTok, s[1..]))
    else if c == '-' then
      if |s| > 1 && IsDigit(s[1]) then NumberToken(h, s) else Err(LoneMinus)
    else if IsDigit(c) then NumberToken(h, s)
    else if IsWordChar(h, c) then
      var n := WordSpan(h, s);
      Ok((WordToken(h, s[..n]), s[n..]))
    else Err(BadChar(c))
  }

  function NextToken(h: Host, s: string): (r: Result<Option<(Token, string)>, LexError>)
    ensures r.Ok? && r.value.Some? ==> |r.value.value.1| < |s|
  {
    var t := SkipWs(s);
    if t == "" then Ok(None)
    else
      var p :- FirstToken(h, t);
      Ok(Some(p))
  }

  function Tokens(h: Host, s: string): Result<seq<Token>, LexError>
    decreases |s|
  {
    var next :- NextToken(h, s);
    match next
    case None => Ok([])
    case Some((tok, rest)) =>
      var more :- Tokens(h, rest);
      Ok([tok] + more)
  }

  // ── The lexer itself: a cursor over the characters ────────────────────────

  class Lexer {
    const chars: string
    var pos: nat

    ghost predicate Valid()
      reads this
    {
      pos <= |chars|
    }

    ghost function Rest(): string
      requires Valid()
      reads this
    {
      chars[pos..]
    }

    constructor (input: string)
      ensures Valid() && Rest() == input && chars == input
    {
      chars := input;
      pos := 0;
    }

    method Skip()
      requires Valid()
      modifies this
      ensures Valid() && Rest() == SkipWs(old(Rest()))
    {
      while pos < |chars| && IsAsciiSpace(chars[pos])
        invariant Valid() && SkipWs(Rest()) == SkipWs(old(Rest()))
      {
        assert Rest()[1..] == chars[pos + 1..];
        pos := pos + 1;
      }
    }

    method LexString() returns (r: Result<Token, LexError>)
      requires Valid() && pos < |chars| && chars[pos] == '\''
      modifies this
      ensures Valid()
      ensures match StringToken(old(Rest()))
              case Ok((tok, rest)) => r == Ok(tok) && Rest() == rest
              case Err(e) => r == Err(e)
    {
      ghost var start := Rest();
      pos := pos + 1;
      assert start[1..] == Rest();
      ghost var body := Rest();
      var s := "";
      assert forall b: string :: s + b == b;
      while true
        invariant Valid()
        invariant StringBody(body) ==
                  (match StringBody(Rest())
                   case Ok((b, rest)) => Ok((s + b, rest))
                   case Err(e) => Err(e))
        decreases |chars| - pos
      {
        ghost var before := Rest();
        if pos == |chars| {
          return Err(UnterminatedString);
        }
        var c := chars[pos];
        pos := pos + 1;
        assert before[1..] == Rest();
        if c == '\'' {
          if pos < |chars| && chars[pos] == '\'' {
            pos := pos + 1;
            assert before[2..] == Rest();
            s := s + ['\''];
          } else {
            assert s + "" == s;
            return Ok(StrTok(s));
          }
        } else {
          s := s + [c];
        }
        assert forall b: string :: (s[..|s| - 1] + ([s[|s| - 1]] + b)) == s + b;
      }
    }

    /** The sign, digits and dot of a number; returns where it began. */
    method SkipNumber() returns (start: nat)
      requires Valid() && pos < |chars| && (chars[pos] == '-' || IsDigit(chars[pos]))
      modifies this
      ensures Valid() && start == old(pos) <= pos && pos - start == NumberLength(old(Rest()))
    {
      start := pos;
      if chars[pos] == '-' {
        pos := pos + 1;
        assert chars[start..][1..] == Rest();
      }
      var hasDot := false;
      while pos < |chars| && (IsDigit(chars[pos]) || (chars[pos] == '.' && !hasDot))
        invariant start <= pos <= |chars|
        invariant NumberLength(chars[start..]) == pos - start + NumberSpan(Rest(), hasDot)
      {
        assert Rest()[1..] == chars[pos + 1..];
        if !IsDigit(chars[pos]) {
          hasDot := true;
        }
        pos := pos + 1;
      }
    }

    method LexNumber(h: Host) returns (r: Result<Token, LexError>)
      requires Valid() && pos < |chars| && (chars[pos] == '-' || IsDigit(chars[pos]))
      modifies this
      ensures Valid()
      ensures match NumberToken(h, old(Rest()))
              case Ok((tok, rest)) => r == Ok(tok) && Rest() == rest
              case Err(e) => r == Err(e)
    {
      var start := SkipNumber();
      var text := chars[start..pos];
      assert chars[start..][..pos - start] == text;
      assert chars[start..][pos - start..] == Rest();
      match h.parseF64(text)
      case Some(x) => r := Ok(Number(x));
      case None => r := Err(BadNumber(text));
    }

    method LexWord(h: Host) returns (tok: Token)
      requires Valid()
      modifies this
      ensures Valid()
      ensures var s := old(Rest()); var n := WordSpan(h, s);
              tok == WordToken(h, s[..n]) && Rest() == s[n..]
    {
      var start := pos;
      while pos < |chars| && IsWordChar(h, chars[pos])
        invariant start <= pos <= |chars|
        invariant WordSpan(h, chars[start..]) == pos - start + WordSpan(h, Rest())
      {
        assert Rest()[1..] == chars[pos + 1..];
        pos := pos + 1;
      }
      assert chars[start..][..pos - start] == chars[start..pos];
      assert chars[start..][pos - start..] == Rest();
      tok := WordToken(h, chars[start..pos]);
    }

    method Advance(n: nat)
      requires Valid() && pos + n <= |chars|
      modifies this
      ensures Valid() && Rest() == old(Rest())[n..]
    {
      assert chars[pos..][n..] == chars[pos + n..];
      pos := pos + n;
    }

    method Next(h: Host) returns (r: Result<Option<Token>, LexError>)
      requires Valid()
      modifies this
      ensures Valid()
      ensures match NextToken(h, old(Rest()))
              case Ok(Some((tok, rest))) => r == Ok(Some(tok)) && Rest() == rest
              case Ok(None) => r == Ok(None)
              case Err(e) => r == Err(e)
    {
      Skip();
      if pos == |chars| {
        return Ok(None);
      }
      var c := chars[pos];
      var second := if pos + 1 < |chars| then Some(chars[pos + 1]) else None;
      assert Rest()[0] == c;
      if c == '(' {
        Advance(1);
        r := Ok(Some(LParen));
      } else if c == ')' {
        Advance(1);
        r := Ok(Some(RParen));
      } else if c == '\'' {
        var t :- LexString();
        r := Ok(Some(t));
      } else if c == '=' {
        Advance(1);
        r := Ok(Some(EqTok));
      } else if c == '!' {
        if second == Some('=') {
          Advance(2);
          r := Ok(Some(NeqTok));
        } else {
          Advance(1);
          r := Err(LoneBang);
        }
      } else if c == '<' {
        if second == Some('=') {
          Advance(2);
          r := Ok(Some(LeTok));
        } else if second == Some('>') {
          Advance(2);
          r := Ok(Some(NeqTok));
        } else {
          Advance(1);
          r := Ok(Some(LtTok));
        }
      } else if c == '>' {
        if second == Some('=') {
          Advance(2);
          r := Ok(Some(GeTok));
        } else {
          Advance(1);
          r := Ok(Some(GtTok));
        }
      } else if c == '-' {
        if second.Some? && IsDigit(second.value) {
          var t :- LexNumber(h);
          r := Ok(Some(t));
        } else {
          r := Err(LoneMinus);
        }
      } else if IsDigit(c) {
        var t :- LexNumber(h);
        r := Ok(Some(t));
      } else if IsWordChar(h, c) {
        var t := LexWord(h);
        r := Ok(Some(t));
      } else {
        r := Err(BadChar(c));
      }
    }
  }

  /** What lexing gives when `done` has been read and the outcome for the rest is `r`. */
  function After(done: seq<Token>, r: Result<seq<Token>, LexError>): Result<seq<Token>, LexError> {
    match r
    case Ok(more) => Ok(done + more)
    case Err(e) => Err(e)
  }

  lemma {:induction false} AfterOne(h: Host, done: seq<Token>, s: string, tok: Token, rest: string)
    requires NextToken(h, s) == Ok(Some((tok, rest)))
    ensures After(done, Tokens(h, s)) == After(done + [tok], Tokens(h, rest))
  {
    match Tokens(h, rest)
    case Ok(more) => assert done + ([tok] + more) == done + [tok] + more;
    case Err(_) =>
  }

  method Tokenize(h: Host, input: string) returns (r: Result<seq<Token>, LexError>)
    ensures r == Tokens(h, input)
  {
    var lexer := new Lexer(input);
    var tokens := [];
    assert Tokens(h, input).Ok? ==> tokens + Tokens(h, input).value == Tokens(h, input).value;
    while true
      invariant lexer.Valid() && fresh(lexer)
      invariant Tokens(h, input) == After(tokens, Tokens(h, lexer.Rest()))
      decreases |lexer.Rest()|
    {
      ghost var before := lexer.Rest();
      var next :- lexer.Next(h);
      if next.None? {
        assert tokens + [] == tokens;
        return Ok(tokens);
      }
      AfterOne(h, tokens, before, next.value, lexer.Rest());
      tokens := tokens + [next.value];
    }
  }
}
