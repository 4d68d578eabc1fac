/** Row rules as they are given: a filter, for one table when the table stands before it. */
module FilterRules {
  import opened Wrappers
  import opened Host
  import opened Event
  import opened Filter
  import opened FilterParser

  datatype RuleError = EmptyPrefix | Unqualified(prefix: string) | EmptyRule | BadFilter(error: FilterError)

  /** The length of the part before the first `c`. */
  function SpanTo(c: char, s: string): (n: nat)
    ensures n <= |s| && c !in s[..n] && (n < |s| ==> s[n] == c)
  {
    if s == "" || s[0] == c then 0
    else
      var n := SpanTo(c, s[1..]);
      assert s[..1 + n] == [s[0]] + s[1..][..n];
      1 + n
  }

  /** The table before the first colon, and what follows; without a colon a rule is for all tables. */
  function SplitTablePrefix(arg: string): Result<(TableKey, string), RuleError> {
    var n := SpanTo(':', arg);
    if n == |arg| then Ok((None, arg))
    else
      var prefix := arg[..n];
      if prefix == "" then Err(EmptyPrefix)
      else
        var dot := SpanTo('.', prefix);
        if dot == |prefix| then Err(Unqualified(prefix))
        else Ok((Some((prefix[..dot], prefix[dot + 1..])), arg[n + 1..]))
  }

  function RuleOf(h: Host, space: Space, arg: string): Result<Rule, RuleError> {
    var (key, text) :- SplitTablePrefix(arg);
    var text := Trim(space, text);
    if text == "" then Err(EmptyRule)
    else
      match FilterOf(h, text)
      case Err(e) => Err(BadFilter(e))
      case Ok(expr) => Ok((key, expr))
  }

  /** The rules of all arguments, or the error of the first that has one. */
  function RulesOf(h: Host, space: Space, args: seq<string>): Result<seq<Rule>, RuleError> {
    if args == [] then Ok([])
    else
      var rules :- RulesOf(h, space, args[..|args| - 1]);
      var rule :- RuleOf(h, space, args[|args| - 1]);
      Ok(rules + [rule])
  }

  method ParseWhereArg(h: Host, space: Space, arg: string) returns (r: Result<Rule, RuleError>)
    ensures r == RuleOf(h, space, arg)
  {
    var split :- SplitTablePrefix(arg);
    var exprStr := Trim(space, split.1);
    if |exprStr| == 0 {
      return Err(EmptyRule);
    }
    var expr := ParseFilterExpr(h, exprStr);
    match expr
    case Err(e) => r := Err(BadFilter(e));
    case Ok(e) => r := Ok((split.0, e));
  }

  lemma {:induction false} RulesStop(h: Host, space: Space, args: seq<string>, i: nat)
    requires i <= |args| && RulesOf(h, space, args[..i]).Err?
    ensures RulesOf(h, space, args) == RulesOf(h, space, args[..i])
    decreases |args|
  {
    if i == |args| {
      assert args[..i] == args;
    } else {
      assert args[..|args| - 1][..i] == args[..i];
      RulesStop(h, space, args[..|args| - 1], i);
    }
  }

  /** The rules of the configuration, then those of the command line. */
  method FromSources(h: Host, space: Space, config: seq<string>, cli: seq<string>) returns (r: Result<RowFilter, RuleError>)
    ensures match RulesOf(h, space, config + cli)
            case Err(e) => r == Err(e)
            case Ok(rules) => r.Ok? && fresh(r.value) && r.value.filters == rules
  {
    var rf := new RowFilter();
    var args := config + cli;
    for i := 0 to |args|
      invariant fresh(rf) && RulesOf(h, space, args[..i]) == Ok(rf.filters)
    {
      assert args[..i + 1][..i] == args[..i];
      var rule := ParseWhereArg(h, space, args[i]);
      if rule.Err? {
        RulesStop(h, space, args, i + 1);
        return Err(rule.error);
      }
      rf.Add(rule.value.0, rule.value.1);
    }
    assert args[..|args|] == args;
    r := Ok(rf);
  }

  // ── What is read as a table ───────────────────────────────────────────────

  lemma {:induction false} SpanStops(c: char, s: string, rest: string)
    ensures SpanTo(c, s + [c] + rest) == SpanTo(c, s)
    ensures SpanTo(c, s) == |s| <==> c !in s
  {
    if s != "" {
      assert (s + [c] + rest)[1..] == s[1..] + [c] + rest;
      SpanStops(c, s[1..], rest);
      assert s == [s[0]] + s[1..];
    }
  }

  /** A filter that compiles is a rule for all tables exactly when its text has no colon, not even in a literal. */
  lemma {:induction false} GlobalExactly(h: Host, space: Space, arg: string, e: FilterExpr)
    requires FilterOf(h, Trim(space, arg)) == Ok(e)
    ensures RuleOf(h, space, arg) == Ok((None, e)) <==> ':' !in arg
  {
    SpanStops(':', arg, "");
    assert FilterOf(h, "") == Err(Syntax(EmptyExpression));
  }

  /**
    A table before a filter is read as that table exactly when the schema has
    neither dot nor colon and the table no colon.
   */
  lemma {:induction false} ScopedExactly(h: Host, space: Space, schema: string, table: string, text: string, e: FilterExpr)
    requires FilterOf(h, Trim(space, text)) == Ok(e)
    ensures RuleOf(h, space, QualifiedName(schema, table) + ":" + text) == Ok((Some((schema, table)), e)) <==>
            '.' !in schema && ':' !in schema && ':' !in table
  {
    var name := QualifiedName(schema, table);
    var arg := name + ":" + text;
    var n := SpanTo(':', arg);
    SpanStops(':', name, text);
    assert ':' in name <==> ':' in schema || ':' in table;
    assert FilterOf(h, "") == Err(Syntax(EmptyExpression));
    if n == |name| {
      assert arg[..n] == name && arg[n + 1..] == text;
      SpanStops('.', schema, table);
      assert name == schema + "." + table;
      if '.' !in schema {
        assert name[..|schema|] == schema && name[|schema| + 1..] == table;
      }
    } else {
      ShorterName(arg[..n], schema, table);
    }
  }

  /** A prefix cut short does not name the table. */
  lemma {:induction false} ShorterName(prefix: string, schema: string, table: string)
    requires |prefix| < |QualifiedName(schema, table)|
    ensures var dot := SpanTo('.', prefix);
            dot < |prefix| ==> (prefix[..dot], prefix[dot + 1..]) != (schema, table)
  {
  }
}
