/**
  Selection sets: the parser of one level of fields, one per line, and the
  parser of one line, which parses what it finds between its braces.
 */
module Selection {
  import opened Wrappers
  import opened Host
  import opened Executor

  /** What is assumed of white space. */
  ghost predicate SpaceOk(space: Space) {
    space(' ') && space('\n') && space('\r') && !space('{') && !space('}')
  }

  // ── What the two parsers compute ──────────────────────────────────────────

  /** What one character does: ends the level, ends a field, or goes on with a depth and a text so far. */
  datatype Step = Stop | EndField | Go(depth: nat, current: string)

  function StepOf(ch: char, depth: nat, current: string): (step: Step)
    ensures step.Go? ==> |step.current| == |current| + 1
  {
    if ch == '{' then Go(depth + 1, current + ['{'])
    else if ch == '}' then if depth == 0 then Stop else Go(depth - 1, current + ['}'])
    else if ch == '\n' || ch == '\r' then if depth == 0 then EndField else Go(depth, current + ['\n'])
    else Go(depth, current + [ch])
  }

  /** The texts of the fields of one level: split at line breaks outside braces, up to a closing brace. */
  function Pieces(s: string, depth: nat, current: string): (ps: seq<string>)
    ensures forall i :: 0 <= i < |ps| ==> |ps[i]| <= |current| + |s|
    decreases |s|
  {
    if s == [] then if depth == 0 then [current] else []
    else
      match StepOf(s[0], depth, current)
      case Stop => [current]
      case EndField => [current] + Pieces(s[1..], 0, "")
      case Go(depth', current') => Pieces(s[1..], depth', current')
  }

  /** How far the text goes before the brace that closes `depth` open ones, or to its end. */
  function CloseAt(s: string, depth: nat): (n: nat)
    requires depth > 0
    ensures n <= |s|
    decreases |s|
  {
    if s == [] then 0
    else if s[0] == '{' then 1 + CloseAt(s[1..], depth + 1)
    else if s[0] == '}' then if depth == 1 then 0 else 1 + CloseAt(s[1..], depth - 1)
    else 1 + CloseAt(s[1..], depth)
  }

  /** The first opening brace. */
  function OpenAt(s: string): (n: nat)
    ensures n <= |s| && (n < |s| ==> s[n] == '{')
    ensures forall i :: 0 <= i < n ==> s[i] != '{'
  {
    if s == [] || s[0] == '{' then 0 else 1 + OpenAt(s[1..])
  }

  function Longest(ps: seq<string>): (n: nat)
    ensures forall i :: 0 <= i < |ps| ==> |ps[i]| <= n
    ensures ps != [] ==> exists i :: 0 <= i < |ps| && |ps[i]| == n
    ensures ps == [] ==> n == 0
  {
    if ps == [] then 0
    else
      var rest := Longest(ps[1..]);
      assert forall i :: 1 <= i < |ps| ==> ps[i] == ps[1..][i - 1];
      if |ps[0]| >= rest then assert |ps[0]| == Max(|ps[0]|, rest); |ps[0]|
      else
        var i :| 0 <= i < |ps[1..]| && |ps[1..][i]| == rest;
        assert |ps[i + 1]| == rest;
        rest
  }

  function ParseFields(space: Space, content: string): seq<Field>
    decreases |content|, 2, 0
  {
    ParsePieces(space, Pieces(content, 0, ""))
  }

  function ParsePieces(space: Space, ps: seq<string>): seq<Field>
    decreases Longest(ps), 1, |ps|
  {
    if ps == [] then []
    else
      assert forall i :: 0 <= i < |ps[1..]| ==> ps[1..][i] == ps[i + 1];
      var rest := ParsePieces(space, ps[1..]);
      match ParseLine(space, Trim(space, ps[0]))
      case None => rest
      case Some(f) => [f] + rest
  }

  function ParseLine(space: Space, text: string): Option<Field>
    decreases |text|, 0, 0
  {
    var line := Trim(space, text);
    if line == "" || line[0] == '#' then None
    else
      var open := OpenAt(line);
      if open == |line| then Some(Field(line, [], true))
      else
        var after := line[open + 1..];
        var inner := after[..CloseAt(after, 1)];
        Some(Field(Trim(space, line[..open]), ParseFields(space, Trim(space, inner)), false))
  }

  // ── The loops ─────────────────────────────────────────────────────────────

  function LineFields(space: Space, p: string): seq<Field> {
    match ParseLine(space, Trim(space, p))
    case None => []
    case Some(f) => [f]
  }

  lemma {:induction false} FirstPiece(space: Space, p: string, ps: seq<string>)
    ensures ParsePieces(space, [p] + ps) == LineFields(space, p) + ParsePieces(space, ps)
    ensures Trim(space, p) == "" ==> LineFields(space, p) == []
  {
    assert ([p] + ps)[1..] == ps;
  }

  lemma {:induction false} OnePieceMore(space: Space, ps: seq<string>, p: string)
    ensures ParsePieces(space, ps + [p]) == ParsePieces(space, ps) + LineFields(space, p)
    decreases |ps|
  {
    if ps == [] {
      assert [p][1..] == [] && ps + [p] == [p];
    } else {
      assert (ps + [p])[1..] == ps[1..] + [p];
      OnePieceMore(space, ps[1..], p);
    }
  }

  method Scan(ch: char, depth: nat, current: string) returns (step: Step)
    ensures step == StepOf(ch, depth, current)
  {
    if ch == '{' {
      step := Go(depth + 1, current + [ch]);
    } else if ch == '}' {
      if depth == 0 {
        return Stop;
      }
      step := Go(depth - 1, current + [ch]);
    } else if ch == '\n' || ch == '\r' {
      if depth == 0 {
        return EndField;
      }
      step := Go(depth, current + ['\n']);
    } else {
      step := Go(depth, current + [ch]);
    }
  }

  method ParseFieldsLoop(space: Space, content: string) returns (fields: seq<Field>)
    ensures fields == ParseFields(space, content)
    decreases |content|, 1
  {
    fields := [];
    var depth: nat := 0;
    var current := "";
    var i := 0;
    ghost var flushed: seq<string> := [];
    assert content[0..] == content;
    while i < |content|
      invariant 0 <= i <= |content| && |current| <= i
      invariant Pieces(content, 0, "") == flushed + Pieces(content[i..], depth, current)
      invariant fields == ParsePieces(space, flushed)
    {
      ghost var rest := content[i..];
      assert rest[0] == content[i] && rest[1..] == content[i + 1..];
      var step := Scan(content[i], depth, current);
      match step {
      case Stop =>
        break;
      case EndField =>
        fields := Flush(space, flushed, fields, current);
        Regroup(flushed, current, Pieces(rest[1..], 0, ""));
        flushed := flushed + [current];
        depth, current := 0, "";
      case Go(depth', current') =>
        depth, current := depth', current';
      }
      i := i + 1;
    }
    assert Pieces(content, 0, "") == if depth == 0 then flushed + [current] else flushed;
    if depth == 0 {
      if Trim(space, current) != "" {
        fields := Flush(space, flushed, fields, current);
      } else {
        BlankPiece(space, flushed, current);
      }
    }
  }

  method Flush(space: Space, ghost flushed: seq<string>, fields: seq<Field>, current: string) returns (more: seq<Field>)
    requires fields == ParsePieces(space, flushed)
    ensures more == ParsePieces(space, flushed + [current])
    decreases |current|, 0, 1
  {
    var field := ParseFieldLine(space, Trim(space, current));
    more := if field.Some? then fields + [field.value] else fields;
    OnePieceMore(space, flushed, current);
  }

  lemma {:induction false} Regroup(flushed: seq<string>, current: string, rest: seq<string>)
    ensures flushed + ([current] + rest) == flushed + [current] + rest
  {
  }

  lemma {:induction false} BlankPiece(space: Space, flushed: seq<string>, p: string)
    requires Trim(space, p) == ""
    ensures ParsePieces(space, flushed + [p]) == ParsePieces(space, flushed)
  {
    OnePieceMore(space, flushed, p);
  }

  method ClosingBrace(after: string) returns (close: nat)
    ensures close == CloseAt(after, 1)
  {
    var depth: nat := 1;
    close := 0;
    assert after[0..] == after;
    while close < |after|
      invariant 0 <= close <= |after| && depth > 0
      invariant CloseAt(after, 1) == close + CloseAt(after[close..], depth)
    {
      assert after[close..][1..] == after[close + 1..];
      if after[close] == '{' {
        depth := depth + 1;
      } else if after[close] == '}' {
        depth := depth - 1;
        if depth == 0 {
          break;
        }
      }
      close := close + 1;
    }
  }

  method ParseFieldLine(space: Space, text: string) returns (field: Option<Field>)
    ensures field == ParseLine(space, text)
    decreases |text|, 0, 0
  {
    var line := Trim(space, text);
    if line == "" || line[0] == '#' {
      return None;
    }
    var open := OpenAt(line);
    if open == |line| {
      return Some(Field(line, [], true));
    }
    var name := Trim(space, line[..open]);
    var after := line[open + 1..];
    var close := ClosingBrace(after);
    var children := ParseFieldsLoop(space, Trim(space, after[..close]));
    field := Some(Field(name, children, false));
  }
}
