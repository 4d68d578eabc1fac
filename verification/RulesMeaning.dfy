/** What each row rule that is given amounts to, or why it is refused. */
module RulesMeaning {
  import opened Wrappers
  import opened Host
  import opened Event
  import opened Filter
  import opened FilterParser
  import opened FilterRules
  import opened Texts

  /** How an argument is cut: no colon, a qualified table before the first one, or a prefix that is no table. */
  ghost predicate CutAs(arg: string, r: Result<(TableKey, string), RuleError>) {
    match r
    case Ok((None, text)) => ':' !in arg && text == arg
    case Ok((Some((schema, table)), text)) =>
      arg == schema + "." + table + ":" + text && '.' !in schema && ':' !in schema && ':' !in table
    case Err(EmptyPrefix) => arg != "" && arg[0] == ':'
    case Err(Unqualified(prefix)) => prefix != "" && ':' !in prefix && '.' !in prefix && prefix + ":" <= arg
    case Err(_) => false
  }

  lemma {:induction false} CutExactly(arg: string, r: Result<(TableKey, string), RuleError>)
    ensures SplitTablePrefix(arg) == r <==> CutAs(arg, r)
  {
    SpanStops(':', arg, "");
    match r
    case Ok((None, text)) =>
    case Ok((Some((schema, table)), text)) => CutTable(arg, schema, table, text);
    case Err(Unqualified(prefix)) => CutUnqualified(arg, prefix);
    case Err(_) =>
  }

  lemma {:induction false} CutTable(arg: string, schema: string, table: string, text: string)
    ensures SplitTablePrefix(arg) == Ok((Some((schema, table)), text)) <==> CutAs(arg, Ok((Some((schema, table)), text)))
  {
    if CutAs(arg, Ok((Some((schema, table)), text))) {
      var name := schema + "." + table;
      assert arg == name + [':'] + text && name == schema + ['.'] + table;
      SpanStops(':', name, text);
      SpanStops('.', schema, table);
      SpanStops('.', name, "");
      assert arg[..|name|] == name && arg[|name| + 1..] == text;
      assert name[..|schema|] == schema && name[|schema| + 1..] == table;
    }
    var n := SpanTo(':', arg);
    if n < |arg| {
      var prefix := arg[..n];
      var dot := SpanTo('.', prefix);
      assert arg == prefix + ":" + arg[n + 1..];
      assert dot < |prefix| ==> prefix == prefix[..dot] + "." + prefix[dot + 1..];
    }
  }

  lemma {:induction false} CutUnqualified(arg: string, prefix: string)
    ensures SplitTablePrefix(arg) == Err(Unqualified(prefix)) <==> CutAs(arg, Err(Unqualified(prefix)))
  {
    SpanStops('.', prefix, "");
    if prefix + ":" <= arg {
      var text := arg[|prefix| + 1..];
      assert arg == prefix + [':'] + text;
      SpanStops(':', prefix, text);
      assert arg[..|prefix|] == prefix;
    }
    var n := SpanTo(':', arg);
    if n < |arg| {
      assert arg[..n + 1] == arg[..n] + ":";
      SpanStops('.', arg[..n], "");
    }
  }

  /** What an argument gives: the error of its prefix, none for what is empty, or what its filter compiles to. */
  ghost predicate RuleIs(h: Host, space: Space, arg: string, r: Result<Rule, RuleError>) {
    || (r.Err? && CutAs(arg, Err(r.error)))
    || exists key, text, filter ::
         && CutAs(arg, Ok((key, text))) && Trimmed(space, text, filter)
         && if filter == "" then r == Err(EmptyRule)
            else if r.Ok? then r.value.0 == key && FilterOf(h, filter) == Ok(r.value.1)
            else r.error.BadFilter? && FilterOf(h, filter) == Err(r.error.error)
  }

  lemma {:induction false} RuleExactly(h: Host, space: Space, arg: string)
    ensures RuleIs(h, space, arg, RuleOf(h, space, arg))
  {
    var cut := SplitTablePrefix(arg);
    CutExactly(arg, cut);
    if cut.Ok? {
      TrimExactly(space, cut.value.1);
    }
  }

  ghost predicate FirstFailing(results: seq<Result<Rule, RuleError>>, i: nat) {
    i < |results| && results[i].Err? && forall j :: 0 <= j < i ==> results[j].Ok?
  }

  /** All of them in their order, or the first error. */
  ghost predicate Joins(results: seq<Result<Rule, RuleError>>, r: Result<seq<Rule>, RuleError>) {
    match r
    case Ok(rules) => |rules| == |results| && forall i :: 0 <= i < |results| ==> results[i] == Ok(rules[i])
    case Err(e) => exists i: nat :: FirstFailing(results, i) && results[i] == Err(e)
  }

  lemma {:induction false} JoinsOneMore(results: seq<Result<Rule, RuleError>>, r: Result<seq<Rule>, RuleError>,
      last: Result<Rule, RuleError>)
    requires Joins(results, r)
    ensures Joins(results + [last],
              if r.Err? then r else if last.Err? then Err(last.error) else Ok(r.value + [last.value]))
  {
    var longer := results + [last];
    if r.Err? {
      var i: nat :| FirstFailing(results, i) && results[i] == Err(r.error);
      assert FirstFailing(longer, i);
    } else if last.Err? {
      assert FirstFailing(longer, |results|);
    }
  }

  ghost function RuleFor(h: Host, space: Space): string -> Result<Rule, RuleError> {
    arg => RuleOf(h, space, arg)
  }

  ghost function Each(rule: string -> Result<Rule, RuleError>, args: seq<string>): seq<Result<Rule, RuleError>> {
    seq(|args|, i requires 0 <= i < |args| => rule(args[i]))
  }

  lemma {:induction false} EachOneMore(rule: string -> Result<Rule, RuleError>, init: seq<string>, last: string)
    ensures Each(rule, init + [last]) == Each(rule, init) + [rule(last)]
  {
  }

  lemma {:induction false} RulesOneMore(h: Host, space: Space, init: seq<string>, last: string)
    ensures var r, rule := RulesOf(h, space, init), RuleFor(h, space)(last);
            RulesOf(h, space, init + [last]) ==
            if r.Err? then r else if rule.Err? then Err(rule.error) else Ok(r.value + [rule.value])
  {
    assert (init + [last])[..|init|] == init;
  }

  /** The rules are those of the arguments, one each and in their order; the first argument that gives none fails them all. */
  lemma {:induction false} RulesExactly(h: Host, space: Space, args: seq<string>)
    ensures Joins(Each(RuleFor(h, space), args), RulesOf(h, space, args))
  {
    if args != [] {
      var init, last := args[..|args| - 1], args[|args| - 1];
      var rule := RuleFor(h, space);
      RulesExactly(h, space, init);
      JoinsOneMore(Each(rule, init), RulesOf(h, space, init), rule(last));
      EachOneMore(rule, init, last);
      RulesOneMore(h, space, init, last);
      assert init + [last] == args;
    }
  }
}
