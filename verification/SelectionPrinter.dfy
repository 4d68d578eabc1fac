/** Printing a selection tree and parsing it back. */
module SelectionPrinter {
  import opened Wrappers
  import opened Host
  import opened Executor
  import opened Selection

  /** One field, one per line with its own fields between braces, each level two blanks further in. */
  function PrintField(f: Field, pad: string): string
    decreases f, 0, 0
  {
    pad + f.name + if f.isLeaf then "" else " {\n" + PrintFields(f.children, pad + "  ") + pad + "}"
  }

  function PrintFields(fs: seq<Field>, pad: string): string
    decreases fs, 1, |fs|
  {
    if fs == [] then "" else PrintField(fs[0], pad) + "\n" + PrintFields(fs[1..], pad)
  }

  predicate Plain(s: string) {
    forall i :: 0 <= i < |s| ==> s[i] != '{' && s[i] != '}' && s[i] != '\n' && s[i] != '\r'
  }

  /** Names free of braces and line breaks, trimmed, that no `#` begins; leaves have no fields. */
  ghost predicate Printable(space: Space, f: Field)
    decreases f, 0
  {
    && f.name != "" && Plain(f.name) && f.name[0] != '#'
    && !space(f.name[0]) && !space(f.name[|f.name| - 1])
    && (f.isLeaf ==> f.children == [])
    && AllPrintable(space, f.children)
  }

  ghost predicate AllPrintable(space: Space, fs: seq<Field>)
    decreases fs, 1
  {
    forall i :: 0 <= i < |fs| ==> Printable(space, fs[i])
  }

  predicate Pad(s: string) {
    forall i :: 0 <= i < |s| ==> s[i] == ' '
  }

  // ── Braces ────────────────────────────────────────────────────────────────

  /** The depth after a text without carriage returns, if it never closes more than it opened. */
  function Balance(s: string, depth: nat): Option<nat>
    decreases |s|
  {
    if s == [] then Some(depth)
    else if s[0] == '\r' then None
    else if s[0] == '{' then Balance(s[1..], depth + 1)
    else if s[0] == '}' then if depth == 0 then None else Balance(s[1..], depth - 1)
    else Balance(s[1..], depth)
  }

  lemma {:induction false} BalanceJoins(s: string, t: string, depth: nat)
    requires Balance(s, depth).Some?
    ensures Balance(s + t, depth) == Balance(t, Balance(s, depth).value)
    decreases |s|
  {
    if s == [] {
      assert s + t == t;
    } else {
      assert (s + t)[1..] == s[1..] + t;
      BalanceJoins(s[1..], t, if s[0] == '{' then depth + 1 else if s[0] == '}' then depth - 1 else depth);
    }
  }

  lemma {:induction false} PlainBalance(s: string, depth: nat)
    requires Plain(s)
    ensures Balance(s, depth) == Some(depth)
    decreases |s|
  {
    if s != [] {
      PlainBalance(s[1..], depth);
    }
  }

  lemma {:induction false} FieldBalance(space: Space, f: Field, pad: string, depth: nat)
    requires Printable(space, f) && Pad(pad)
    ensures Balance(PrintField(f, pad), depth) == Some(depth)
    decreases f, 0, 0
  {
    PlainBalance(pad, depth);
    PlainBalance(f.name, depth);
    BalanceJoins(pad, f.name, depth);
    if !f.isLeaf {
      FieldsBalance(space, f.children, pad + "  ", depth + 1);
      BlockBalance(PrintFields(f.children, pad + "  "), pad, depth);
      BalanceJoins(pad + f.name, " {\n" + PrintFields(f.children, pad + "  ") + pad + "}", depth);
    } else {
      assert pad + f.name + "" == pad + f.name;
    }
  }

  lemma {:induction false} BlockBalance(body: string, pad: string, depth: nat)
    requires Balance(body, depth + 1) == Some(depth + 1) && Pad(pad)
    ensures Balance(" {\n" + body + pad + "}", depth) == Some(depth)
  {
    PlainBalance(pad, depth + 1);
    OneBrace(depth);
    BalanceJoins(" {\n", body, depth);
    BalanceJoins(" {\n" + body, pad, depth);
    BalanceJoins(" {\n" + body + pad, "}", depth);
  }

  lemma {:induction false} OneBrace(depth: nat)
    ensures Balance(" {\n", depth) == Some(depth + 1) && Balance("}", depth + 1) == Some(depth)
  {
    assert " {\n"[1..] == "{\n" && "{\n"[1..] == "\n" && "\n"[1..] == "" && "}"[1..] == "";
    assert Balance("\n", depth + 1) == Balance("", depth + 1);
    assert Balance("{\n", depth) == Balance("\n", depth + 1);
    assert Balance("}", depth + 1) == Balance("", depth);
  }

  lemma {:induction false} FieldsBalance(space: Space, fs: seq<Field>, pad: string, depth: nat)
    requires AllPrintable(space, fs) && Pad(pad)
    ensures Balance(PrintFields(fs, pad), depth) == Some(depth)
    decreases fs, 1, |fs|
  {
    if fs != [] {
      assert forall i :: 0 <= i < |fs[1..]| ==> fs[1..][i] == fs[i + 1];
      FieldBalance(space, fs[0], pad, depth);
      FieldsBalance(space, fs[1..], pad, depth);
      PlainLine(depth);
      BalanceJoins(PrintField(fs[0], pad), "\n", depth);
      BalanceJoins(PrintField(fs[0], pad) + "\n", PrintFields(fs[1..], pad), depth);
    }
  }

  lemma {:induction false} PlainLine(depth: nat)
    ensures Balance("\n", depth) == Some(depth)
  {
    assert "\n"[1..] == "";
    assert Balance("", depth) == Some(depth);
  }

  /** Inside braces the scanner takes a balanced text over whole. */
  lemma {:induction false} TakenWhole(s: string, t: string, base: nat, depth: nat, current: string)
    requires base > 0 && Balance(s, depth).Some?
    ensures Pieces(s + t, base + depth, current) == Pieces(t, base + Balance(s, depth).value, current + s)
    decreases |s|
  {
    if s == [] {
      assert s + t == t && current + s == current;
    } else {
      assert (s + t)[1..] == s[1..] + t;
      assert current + [s[0]] + s[1..] == current + s;
      TakenWhole(s[1..], t, base, if s[0] == '{' then depth + 1 else if s[0] == '}' then depth - 1 else depth, current + [s[0]]);
    }
  }

  lemma {:induction false} PlainTaken(s: string, t: string, depth: nat, current: string)
    requires Plain(s)
    ensures Pieces(s + t, depth, current) == Pieces(t, depth, current + s)
    decreases |s|
  {
    if s == [] {
      assert s + t == t && current + s == current;
    } else {
      assert (s + t)[1..] == s[1..] + t;
      assert current + [s[0]] + s[1..] == current + s;
      PlainTaken(s[1..], t, depth, current + [s[0]]);
    }
  }

  /** The closing brace is the one after a balanced text. */
  lemma {:induction false} ClosedAfter(s: string, t: string, depth: nat)
    requires Balance(s, depth).Some?
    ensures CloseAt(s + t, 1 + depth) == |s| + CloseAt(t, 1 + Balance(s, depth).value)
    decreases |s|
  {
    if s == [] {
      assert s + t == t;
    } else {
      assert (s + t)[1..] == s[1..] + t;
      ClosedAfter(s[1..], t, if s[0] == '{' then depth + 1 else if s[0] == '}' then depth - 1 else depth);
    }
  }

  // ── Blanks at the edges ───────────────────────────────────────────────────

  lemma {:induction false} TrimLeading(space: Space, c: char, s: string)
    requires space(c)
    ensures Trim(space, [c] + s) == Trim(space, s)
  {
    assert ([c] + s)[1..] == s;
  }

  lemma {:induction false} TrimStartLonger(space: Space, s: string, c: char)
    requires space(c)
    ensures TrimStart(space, s) == "" ==> TrimStart(space, s + [c]) == ""
    ensures TrimStart(space, s) != "" ==> TrimStart(space, s + [c]) == TrimStart(space, s) + [c]
    decreases |s|
  {
    if s == [] {
      assert (s + [c])[1..] == "";
    } else if space(s[0]) {
      assert (s + [c])[1..] == s[1..] + [c];
      TrimStartLonger(space, s[1..], c);
    }
  }

  lemma {:induction false} TrimTrailing(space: Space, s: string, c: char)
    requires space(c)
    ensures Trim(space, s + [c]) == Trim(space, s)
  {
    TrimStartLonger(space, s, c);
    var t := TrimStart(space, s);
    assert (t + [c])[..|t|] == t;
  }

  lemma {:induction false} BlankBefore(space: Space, c: char, s: string, depth: nat, current: string)
    requires space(c)
    ensures ParsePieces(space, Pieces(s, depth, [c] + current)) == ParsePieces(space, Pieces(s, depth, current))
    decreases |s|
  {
    TrimLeading(space, c, current);
    if s == [] {
      SameFirst(space, [c] + current, current, []);
    } else {
      match StepOf(s[0], depth, current)
      case Stop =>
        SameFirst(space, [c] + current, current, []);
      case EndField =>
        SameFirst(space, [c] + current, current, Pieces(s[1..], 0, ""));
      case Go(depth', current') =>
        assert StepOf(s[0], depth, [c] + current) == Go(depth', [c] + current');
        BlankBefore(space, c, s[1..], depth', current');
    }
  }

  lemma {:induction false} SameFirst(space: Space, p: string, q: string, ps: seq<string>)
    requires Trim(space, p) == Trim(space, q)
    ensures ParsePieces(space, [p] + ps) == ParsePieces(space, [q] + ps)
    ensures ParsePieces(space, [p]) == ParsePieces(space, [q])
  {
    FirstPiece(space, p, ps);
    FirstPiece(space, q, ps);
    FirstPiece(space, p, []);
    FirstPiece(space, q, []);
    assert [p] + [] == [p] && [q] + [] == [q];
  }

  lemma {:induction false} LeadingBlank(space: Space, c: char, s: string)
    requires SpaceOk(space) && space(c)
    ensures ParseFields(space, [c] + s) == ParseFields(space, s)
  {
    assert ([c] + s)[1..] == s;
    if c == '\n' || c == '\r' {
      FirstPiece(space, "", Pieces(s, 0, ""));
    } else {
      assert [] + [c] == [c] + [];
      BlankBefore(space, c, s, 0, "");
    }
  }

  lemma {:induction false} BlankAfter(space: Space, s: string, c: char, depth: nat, current: string)
    requires SpaceOk(space) && space(c)
    ensures ParsePieces(space, Pieces(s + [c], depth, current)) == ParsePieces(space, Pieces(s, depth, current))
    decreases |s|
  {
    if s == [] {
      LastBlank(space, c, depth, current);
      assert s + [c] == [c];
    } else {
      assert (s + [c])[1..] == s[1..] + [c];
      match StepOf(s[0], depth, current)
      case Stop =>
      case EndField =>
        BlankAfter(space, s[1..], c, 0, "");
        FirstPiece(space, current, Pieces(s[1..], 0, ""));
        FirstPiece(space, current, Pieces(s[1..] + [c], 0, ""));
      case Go(depth', current') =>
        BlankAfter(space, s[1..], c, depth', current');
    }
  }

  lemma {:induction false} LastBlank(space: Space, c: char, depth: nat, current: string)
    requires SpaceOk(space) && space(c)
    ensures ParsePieces(space, Pieces([c], depth, current)) == ParsePieces(space, Pieces("", depth, current))
  {
    assert [c][1..] == "";
    if depth == 0 && (c == '\n' || c == '\r') {
      assert Pieces("", 0, "") == [""];
      assert Pieces([c], depth, current) == [current] + [""];
      NothingMore(space, current);
    } else if depth == 0 {
      TrimTrailing(space, current, c);
      SameFirst(space, current + [c], current, []);
    }
  }

  lemma {:induction false} NothingMore(space: Space, current: string)
    ensures ParsePieces(space, [current] + [""]) == ParsePieces(space, [current])
  {
    FirstPiece(space, current, [""]);
    FirstPiece(space, current, []);
    FirstPiece(space, "", []);
    assert [""] + [] == [""] && [current] + [] == [current];
  }

  lemma {:induction false} TrimStartInvisible(space: Space, s: string)
    requires SpaceOk(space)
    ensures ParseFields(space, TrimStart(space, s)) == ParseFields(space, s)
    decreases |s|
  {
    if s != [] && space(s[0]) {
      TrimStartInvisible(space, s[1..]);
      LeadingBlank(space, s[0], s[1..]);
      assert [s[0]] + s[1..] == s;
    }
  }

  lemma {:induction false} TrimEndInvisible(space: Space, s: string)
    requires SpaceOk(space)
    ensures ParseFields(space, TrimEnd(space, s)) == ParseFields(space, s)
    decreases |s|
  {
    if s != [] && space(s[|s| - 1]) {
      TrimEndInvisible(space, s[..|s| - 1]);
      BlankAfter(space, s[..|s| - 1], s[|s| - 1], 0, "");
      assert s[..|s| - 1] + [s[|s| - 1]] == s;
    }
  }

  /** Blanks around a selection set do not matter. */
  lemma {:induction false} TrimInvisible(space: Space, s: string)
    requires SpaceOk(space)
    ensures ParseFields(space, Trim(space, s)) == ParseFields(space, s)
  {
    TrimStartInvisible(space, s);
    TrimEndInvisible(space, TrimStart(space, s));
  }

  // ── The round trip ────────────────────────────────────────────────────────

  /** Blanks, then the end or a closing brace. */
  predicate Ends(space: Space, rest: string)
    decreases |rest|
  {
    rest == "" || rest[0] == '}' || (space(rest[0]) && Ends(space, rest[1..]))
  }

  lemma {:induction false} EndsEmpty(space: Space, rest: string)
    requires SpaceOk(space) && Ends(space, rest)
    ensures ParseFields(space, rest) == []
    decreases |rest|
  {
    if rest == "" || rest[0] == '}' {
      FirstPiece(space, "", []);
      assert [""] + [] == [""];
      assert Pieces(rest, 0, "") == [""];
    } else {
      EndsEmpty(space, rest[1..]);
      LeadingBlank(space, rest[0], rest[1..]);
      assert [rest[0]] + rest[1..] == rest;
    }
  }

  lemma {:induction false} PadEnds(space: Space, pad: string)
    requires SpaceOk(space) && Pad(pad)
    ensures Ends(space, pad)
    decreases |pad|
  {
    if pad != [] {
      PadEnds(space, pad[1..]);
    }
  }

  /** A printed field without its pad. */
  function Core(f: Field, pad: string): string {
    f.name + if f.isLeaf then "" else " {\n" + PrintFields(f.children, pad + "  ") + pad + "}"
  }

  lemma {:induction false} PadTrimmed(space: Space, pad: string, s: string)
    requires SpaceOk(space) && Pad(pad) && s != "" && !space(s[0])
    ensures TrimStart(space, pad + s) == s
    decreases |pad|
  {
    if pad == [] {
      assert pad + s == s;
    } else {
      assert (pad + s)[1..] == pad[1..] + s;
      PadTrimmed(space, pad[1..], s);
    }
  }

  lemma {:induction false} CoreTrimmed(space: Space, f: Field, pad: string)
    requires SpaceOk(space) && Pad(pad) && Printable(space, f)
    ensures Trim(space, PrintField(f, pad)) == Core(f, pad) && Trim(space, Core(f, pad)) == Core(f, pad)
    ensures Core(f, pad) != "" && Core(f, pad)[0] != '#'
  {
    var core := Core(f, pad);
    assert core[0] == f.name[0];
    if f.isLeaf {
      assert core == f.name;
    } else {
      assert core[|core| - 1] == '}';
    }
    assert PrintField(f, pad) == pad + core;
    PadTrimmed(space, pad, core);
  }

  function Inner(f: Field, pad: string): string {
    "\n" + PrintFields(f.children, pad + "  ") + pad
  }

  lemma {:induction false} InnerBalanced(space: Space, f: Field, pad: string)
    requires Pad(pad) && Printable(space, f)
    ensures Balance(Inner(f, pad), 0) == Some(0)
  {
    PlainLine(0);
    FieldsBalance(space, f.children, pad + "  ", 0);
    PlainBalance(pad, 0);
    BalanceJoins("\n", PrintFields(f.children, pad + "  "), 0);
    BalanceJoins("\n" + PrintFields(f.children, pad + "  "), pad, 0);
  }

  /** A name and its braces, taken as one text. */
  lemma {:induction false} BracesTaken(head: string, inner: string, t: string)
    requires Plain(head) && Balance(inner, 0) == Some(0)
    ensures Pieces(head + ("{" + (inner + ("}" + t))), 0, "") == Pieces(t, 0, head + "{" + inner + "}")
  {
    var tail := "{" + (inner + ("}" + t));
    PlainTaken(head, tail, 0, "");
    assert "" + head == head && tail[1..] == inner + ("}" + t);
    TakenWhole(inner, "}" + t, 1, 0, head + "{");
    assert ("}" + t)[1..] == t;
  }

  /** A printed field with braces: a name, a blank, and what is between them. */
  lemma {:induction false} Shape(f: Field, pad: string, t: string)
    requires !f.isLeaf
    ensures PrintField(f, pad) == pad + f.name + " " + "{" + Inner(f, pad) + "}"
    ensures PrintField(f, pad) + t == (pad + f.name + " ") + ("{" + (Inner(f, pad) + ("}" + t)))
    ensures Core(f, pad) == f.name + " " + "{" + (Inner(f, pad) + "}")
  {
    var body := PrintFields(f.children, pad + "  ");
    assert " {\n" + body + pad + "}" == " " + ("{" + (("\n" + body + pad) + "}"));
  }

  /** The scanner takes a printed field as one piece. */
  lemma {:induction false} FieldIsPiece(space: Space, f: Field, pad: string, t: string)
    requires Pad(pad) && Printable(space, f)
    ensures Pieces(PrintField(f, pad) + ("\n" + t), 0, "") == [PrintField(f, pad)] + Pieces(t, 0, "")
  {
    var line := "\n" + t;
    assert line[1..] == t;
    if f.isLeaf {
      assert PrintField(f, pad) == pad + f.name;
      PlainTaken(pad + f.name, line, 0, "");
      assert "" + (pad + f.name) == pad + f.name;
    } else {
      Shape(f, pad, line);
      InnerBalanced(space, f, pad);
      BracesTaken(pad + f.name + " ", Inner(f, pad), line);
    }
  }

  lemma {:induction false} OpensAt(s: string, t: string)
    requires Plain(s)
    ensures OpenAt(s + "{" + t) == |s| && OpenAt(s) == |s|
    decreases |s|
  {
    if s == [] {
      assert s + "{" + t == "{" + t;
    } else {
      assert (s + "{" + t)[1..] == s[1..] + "{" + t;
      OpensAt(s[1..], t);
    }
  }

  lemma {:induction false} NameTrimmed(space: Space, name: string)
    requires SpaceOk(space) && name != "" && !space(name[0]) && !space(name[|name| - 1])
    ensures Trim(space, name) == name && Trim(space, name + " ") == name
  {
    TrimTrailing(space, name, ' ');
    assert name + " " == name + [' '];
  }

  /** The line of a field with fields of its own, taken apart. */
  lemma {:induction false} BracesParsed(space: Space, name: string, inner: string, line: string)
    requires SpaceOk(space) && name != "" && !space(name[0]) && !space(name[|name| - 1]) && name[0] != '#'
    requires Plain(name) && Balance(inner, 0) == Some(0)
    requires line == name + " " + "{" + (inner + "}") && Trim(space, line) == line
    ensures ParseLine(space, line) == Some(Field(name, ParseFields(space, Trim(space, inner)), false))
  {
    OpensAt(name + " ", inner + "}");
    NameTrimmed(space, name);
    InnerClosed(inner);
    assert line[0] == name[0];
    assert line[..|name| + 1] == name + " " && line[|name| + 2..] == inner + "}";
  }

  lemma {:induction false} InnerClosed(inner: string)
    requires Balance(inner, 0) == Some(0)
    ensures CloseAt(inner + "}", 1) == |inner| && (inner + "}")[..|inner|] == inner
  {
    ClosedAfter(inner, "}", 0);
    assert CloseAt("}", 1) == 0;
  }

  /** A line reads back as its field once what is between the braces does. */
  lemma {:induction false} LineReadsBack(space: Space, f: Field, pad: string)
    requires SpaceOk(space) && Pad(pad) && Printable(space, f)
    requires !f.isLeaf ==> ParseFields(space, Inner(f, pad)) == f.children
    ensures ParseLine(space, Trim(space, PrintField(f, pad))) == Some(f)
  {
    CoreTrimmed(space, f, pad);
    if f.isLeaf {
      assert Core(f, pad) == f.name;
      OpensAt(f.name, "");
    } else {
      Shape(f, pad, "");
      InnerBalanced(space, f, pad);
      BracesParsed(space, f.name, Inner(f, pad), Core(f, pad));
      TrimInvisible(space, Inner(f, pad));
    }
  }

  lemma {:induction false} FieldReadsBack(space: Space, f: Field, pad: string)
    requires SpaceOk(space) && Pad(pad) && Printable(space, f)
    ensures ParseLine(space, Trim(space, PrintField(f, pad))) == Some(f)
    decreases f, 0, 0
  {
    PadEnds(space, pad);
    FieldsReadBack(space, f.children, pad + "  ", pad);
    InnerFields(space, f, pad);
    LineReadsBack(space, f, pad);
  }

  lemma {:induction false} InnerFields(space: Space, f: Field, pad: string)
    requires SpaceOk(space)
    ensures ParseFields(space, Inner(f, pad)) == ParseFields(space, PrintFields(f.children, pad + "  ") + pad)
  {
    var body := PrintFields(f.children, pad + "  ") + pad;
    LeadingBlank(space, '\n', body);
    assert Inner(f, pad) == ['\n'] + body;
  }

  /**
    Printing any selection tree, one field per line with nested braces, and
    parsing the text up to its end or to the brace that closes it gives the
    tree back.
   */
  lemma {:induction false} FieldsReadBack(space: Space, fs: seq<Field>, pad: string, rest: string)
    requires SpaceOk(space) && Pad(pad) && AllPrintable(space, fs) && Ends(space, rest)
    ensures ParseFields(space, PrintFields(fs, pad) + rest) == fs
    decreases fs, 1, |fs|
  {
    if fs == [] {
      EndsEmpty(space, rest);
      assert "" + rest == rest;
    } else {
      FirstPrintable(space, fs);
      FieldReadsBack(space, fs[0], pad);
      FieldsReadBack(space, fs[1..], pad, rest);
      FieldThenMore(space, fs[0], pad, PrintFields(fs[1..], pad) + rest);
      FirstLine(fs, pad, rest);
    }
  }

  lemma {:induction false} FirstPrintable(space: Space, fs: seq<Field>)
    requires fs != [] && AllPrintable(space, fs)
    ensures Printable(space, fs[0]) && AllPrintable(space, fs[1..])
  {
    assert forall i :: 0 <= i < |fs[1..]| ==> fs[1..][i] == fs[i + 1];
  }

  lemma {:induction false} FirstLine(fs: seq<Field>, pad: string, rest: string)
    requires fs != []
    ensures PrintFields(fs, pad) + rest == PrintField(fs[0], pad) + ("\n" + (PrintFields(fs[1..], pad) + rest))
  {
    JoinThree(PrintField(fs[0], pad), PrintFields(fs[1..], pad), rest);
  }

  lemma {:induction false} JoinThree(p: string, q: string, rest: string)
    ensures p + "\n" + q + rest == p + ("\n" + (q + rest))
  {
  }

  lemma {:induction false} FieldThenMore(space: Space, f: Field, pad: string, more: string)
    requires Pad(pad) && Printable(space, f) && ParseLine(space, Trim(space, PrintField(f, pad))) == Some(f)
    ensures ParseFields(space, PrintField(f, pad) + ("\n" + more)) == [f] + ParseFields(space, more)
  {
    FieldIsPiece(space, f, pad, more);
    FirstPiece(space, PrintField(f, pad), Pieces(more, 0, ""));
  }
}
