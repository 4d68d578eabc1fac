/** Which fields a selection text has: its lines, outside and inside braces. */
module SelectionMeaning {
  import opened Wrappers
  import opened Host
  import opened Texts
  import opened Executor
  import opened Selection

  /** Braces opened and not closed by the first `n` characters. */
  ghost function Level(s: string, n: nat): int
    requires n <= |s|
  {
    if n == 0 then 0 else Level(s, n - 1) + (if s[n - 1] == '{' then 1 else if s[n - 1] == '}' then -1 else 0)
  }

  predicate Break(c: char) {
    c == '\n' || c == '\r'
  }

  // ── The lines of a level ──────────────────────────────────────────────────

  /** Up to `n` no line ends and no brace closes outside the braces of the text itself. */
  ghost predicate OneLine(s: string, n: nat) {
    n <= |s| && forall k: nat :: k < n && Level(s, k) == 0 ==> s[k] != '}' && !Break(s[k])
  }

  /** The line is `n` characters long: it ends there, or the level or the text does. */
  ghost predicate LineEnds(s: string, n: nat) {
    OneLine(s, n) && Level(s, n) == 0 && (n < |s| ==> s[n] == '}' || Break(s[n]))
  }

  /** Carriage returns inside braces become line feeds. */
  ghost function Unix(s: string): (t: string)
    ensures |t| == |s|
  {
    seq(|s|, i requires 0 <= i < |s| => if s[i] == '\r' then '\n' else s[i])
  }

  /** The lines up to the end of the level. One whose braces are never closed is lost. */
  ghost predicate AreLines(s: string, ps: seq<string>)
    decreases |s|
  {
    || (OneLine(s, |s|) && Level(s, |s|) != 0 && ps == [])
    || exists n: nat :: LineEnds(s, n) && LinesFrom(s, n, ps)
  }

  ghost predicate LinesFrom(s: string, n: nat, ps: seq<string>)
    requires LineEnds(s, n)
    decreases |s|, 0
  {
    && ps != [] && ps[0] == Unix(s[..n])
    && if n < |s| && Break(s[n]) then AreLines(s[n + 1..], ps[1..]) else |ps| == 1
  }

  lemma {:induction false} UnixNext(s: string, k: nat)
    requires k < |s|
    ensures Unix(s[..k + 1]) == Unix(s[..k]) + [if s[k] == '\r' then '\n' else s[k]]
  {
  }

  lemma {:induction false} OneMoreChar(s: string, k: nat, step: Step)
    requires k < |s| && OneLine(s, k) && Level(s, k) >= 0
    requires step == StepOf(s[k], Level(s, k), Unix(s[..k]))
    ensures step.Go? ==> OneLine(s, k + 1) && Level(s, k + 1) == step.depth && Unix(s[..k + 1]) == step.current
    ensures !step.Go? ==> LineEnds(s, k) && (step.EndField? <==> Break(s[k]))
  {
    UnixNext(s, k);
  }

  lemma {:induction false} LinesAre(s: string, k: nat)
    requires OneLine(s, k) && Level(s, k) >= 0
    ensures AreLines(s, Pieces(s[k..], Level(s, k), Unix(s[..k])))
    decreases |s|, |s| - k
  {
    var ps := Pieces(s[k..], Level(s, k), Unix(s[..k]));
    if k == |s| {
      assert s[..k] == s;
      if Level(s, |s|) == 0 {
        assert LinesFrom(s, k, ps);
      }
    } else {
      assert s[k..][0] == s[k] && s[k..][1..] == s[k + 1..];
      var step := StepOf(s[k], Level(s, k), Unix(s[..k]));
      OneMoreChar(s, k, step);
      match step
      case Go(_, _) => LinesAre(s, k + 1);
      case Stop => assert LinesFrom(s, k, ps);
      case EndField =>
        var rest := s[k + 1..];
        assert rest[0..] == rest && rest[..0] == "" && Unix("") == "";
        LinesAre(rest, 0);
        assert ps[1..] == Pieces(rest, 0, "");
        assert LinesFrom(s, k, ps);
    }
  }

  // ── One line ──────────────────────────────────────────────────────────────

  /** The brace before `s` is not closed within its first `n` characters. */
  ghost predicate StaysOpen(s: string, n: nat) {
    n <= |s| && forall k: nat :: k < n && Level(s, k) == 0 ==> s[k] != '}'
  }

  /** The brace that closes the one before `s`, or the end. */
  ghost predicate Closes(s: string, n: nat) {
    StaysOpen(s, n) && (n < |s| ==> s[n] == '}' && Level(s, n) == 0)
  }

  lemma {:induction false} StillOpen(s: string, k: nat, depth: nat)
    requires k < |s| && StaysOpen(s, k) && Level(s, k) == depth - 1
    ensures Level(s, k + 1) == (if s[k] == '{' then depth else if s[k] == '}' then depth - 2 else depth - 1)
    ensures s[k] != '}' || depth != 1 ==> StaysOpen(s, k + 1)
    ensures s[k] == '}' && depth == 1 ==> Closes(s, k)
  {
  }

  lemma {:induction false} ClosedAt(s: string, k: nat, depth: nat)
    requires StaysOpen(s, k) && Level(s, k) == depth - 1 && depth > 0
    ensures Closes(s, k + CloseAt(s[k..], depth))
    decreases |s| - k
  {
    if k < |s| {
      assert s[k..][0] == s[k] && s[k..][1..] == s[k + 1..];
      StillOpen(s, k, depth);
      if s[k] == '{' {
        ClosedAt(s, k + 1, depth + 1);
      } else if s[k] != '}' {
        ClosedAt(s, k + 1, depth);
      } else if depth > 1 {
        ClosedAt(s, k + 1, depth - 1);
      }
    }
  }

  /** A name, and in braces the fields below it. */
  ghost predicate IsGroup(space: Space, line: string, open: nat, close: nat, name: string, inner: string, f: Field)
    requires |inner| < |line|
    decreases |line|, 0
  {
    && open < |line| && line[open] == '{' && '{' !in line[..open] && Trimmed(space, line[..open], name)
    && Closes(line[open + 1..], close) && Trimmed(space, line[open + 1..][..close], inner)
    && f.name == name && !f.isLeaf && HasFields(space, inner, f.children)
  }

  /** A trimmed line: nothing when it is blank or a comment, a field without braces, or a group. */
  ghost predicate LineIs(space: Space, line: string, out: Option<Field>)
    decreases |line|, 1
  {
    if line == "" || line[0] == '#' then out == None
    else if '{' !in line then out == Some(Field(line, [], true))
    else
      out.Some? && exists open: nat, close: nat, name, inner ::
        |inner| < |line| && IsGroup(space, line, open, close, name, inner, out.value)
  }

  ghost predicate TextIs(space: Space, text: string, out: Option<Field>)
    decreases |text|, 2
  {
    exists line :: |line| <= |text| && Trimmed(space, text, line) && LineIs(space, line, out)
  }

  /** The fields of these lines, one after the other. */
  ghost predicate FieldsOf(space: Space, ps: seq<string>, fields: seq<Field>, longest: nat)
    decreases longest, 3, |ps|
  {
    if ps == [] then fields == []
    else
      |ps[0]| <= longest &&
      ((TextIs(space, ps[0], None) && FieldsOf(space, ps[1..], fields, longest)) ||
       (fields != [] && TextIs(space, ps[0], Some(fields[0])) && FieldsOf(space, ps[1..], fields[1..], longest)))
  }

  ghost predicate HasFields(space: Space, content: string, fields: seq<Field>)
    decreases |content|, 4
  {
    exists ps :: AreLines(content, ps) && FieldsOf(space, ps, fields, |content|)
  }

  lemma {:induction false} TrimmedTwice(space: Space, s: string, t: string, u: string)
    requires Trimmed(space, s, t) && Trimmed(space, t, u)
    ensures Trimmed(space, s, u)
  {
    var a, b :| Blank(space, a) && Blank(space, b) && s == a + t + b;
    var c, d :| Blank(space, c) && Blank(space, d) && t == c + u + d;
    assert Blank(space, a + c) && Blank(space, d + b);
    assert s == (a + c) + u + (d + b);
  }

  // ── What the parsers make of it ───────────────────────────────────────────

  lemma {:induction false} GroupParsed(space: Space, line: string, open: nat, fields: seq<Field>)
    requires open == OpenAt(line) && open < |line|
    requires HasFields(space, Trim(space, line[open + 1..][..CloseAt(line[open + 1..], 1)]), fields)
    ensures var close := CloseAt(line[open + 1..], 1);
            var inner := Trim(space, line[open + 1..][..close]);
            |inner| < |line| &&
            IsGroup(space, line, open, close, Trim(space, line[..open]), inner, Field(Trim(space, line[..open]), fields, false))
  {
    var after := line[open + 1..];
    assert after[0..] == after;
    ClosedAt(after, 0, 1);
    TrimExactly(space, line[..open]);
    TrimExactly(space, after[..CloseAt(after, 1)]);
  }

  lemma {:induction false} TrimmedLineParsed(space: Space, line: string, out: Option<Field>)
    requires if line == "" || line[0] == '#' then out == None
             else if OpenAt(line) == |line| then out == Some(Field(line, [], true))
             else
               var after := line[OpenAt(line) + 1..];
               var inner := Trim(space, after[..CloseAt(after, 1)]);
               && out.Some? && HasFields(space, inner, out.value.children)
               && out.value == Field(Trim(space, line[..OpenAt(line)]), out.value.children, false)
    ensures LineIs(space, line, out)
  {
    var open := OpenAt(line);
    if line != "" && line[0] != '#' && open < |line| {
      GroupParsed(space, line, open, out.value.children);
    }
  }

  lemma {:induction false} LineParsed(space: Space, text: string)
    ensures TextIs(space, text, ParseLine(space, text))
    decreases |text|, 0
  {
    var line := Trim(space, text);
    TrimExactly(space, text);
    if line != "" && line[0] != '#' && OpenAt(line) < |line| {
      var after := line[OpenAt(line) + 1..];
      LevelParsed(space, Trim(space, after[..CloseAt(after, 1)]));
    }
    TrimmedLineParsed(space, line, ParseLine(space, text));
  }

  lemma {:induction false} PieceParsed(space: Space, p: string)
    ensures TextIs(space, p, ParseLine(space, Trim(space, p)))
    decreases |p|, 1
  {
    var text := Trim(space, p);
    var out := ParseLine(space, text);
    TrimExactly(space, p);
    LineParsed(space, text);
    var line :| |line| <= |text| && Trimmed(space, text, line) && LineIs(space, line, out);
    TrimmedTwice(space, p, text, line);
  }

  lemma {:induction false} PiecesParsed(space: Space, ps: seq<string>, longest: nat)
    requires forall i :: 0 <= i < |ps| ==> |ps[i]| <= longest
    ensures FieldsOf(space, ps, ParsePieces(space, ps), longest)
    decreases longest, 2, |ps|
  {
    if ps != [] {
      PieceParsed(space, ps[0]);
      PiecesParsed(space, ps[1..], longest);
      match ParseLine(space, Trim(space, ps[0]))
      case None =>
      case Some(f) =>
        var fields := ParsePieces(space, ps);
        assert fields[0] == f && fields[1..] == ParsePieces(space, ps[1..]);
    }
  }

  /**
    The fields that are parsed are those of the lines of the text: blank lines
    and comments give none, a line without braces one that is a leaf, and a
    group its name and what is in its braces.
   */
  lemma {:induction false} LevelParsed(space: Space, content: string)
    ensures HasFields(space, content, ParseFields(space, content))
    decreases |content|, 3
  {
    assert content[0..] == content && content[..0] == "" && Unix("") == "";
    LinesAre(content, 0);
    PiecesParsed(space, Pieces(content, 0, ""), |content|);
  }
}
