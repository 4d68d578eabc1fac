/** Which events a replicate session forwards. */
module Gate {
  import opened Host
  import opened Event
  import Filter

  datatype OpFilter = OnInsert | OnUpdate | OnDelete | OnTruncate

  datatype Config = Config(emitBoundaries: bool, emitSchema: bool, tables: seq<string>, ops: seq<OpFilter>)

  predicate TableMatches(schema: string, table: string, filter: seq<string>) {
    filter == [] || table in filter || QualifiedName(schema, table) in filter
  }

  predicate OpMatches(op: OpFilter, filter: seq<OpFilter>) {
    filter == [] || op in filter
  }

  function OpOf(event: WalEvent): OpFilter
    requires event.IsChange()
  {
    match event
    case Insert(_, _, _, _) => OnInsert
    case Update(_, _, _, _, _) => OnUpdate
    case Delete(_, _, _, _) => OnDelete
    case Truncate(_, _, _, _) => OnTruncate
  }

  /** The one gate for the applier and the sinks, on the event before any transform. */
  predicate ShouldForward(h: Host, config: Config, rules: seq<Filter.Rule>, event: WalEvent) {
    match event
    case Truncate(_, tables, _, _) =>
      OpMatches(OnTruncate, config.ops) &&
      (config.tables == [] || exists t <- tables :: t in config.tables)
    case Begin(_, _, _) => config.emitBoundaries
    case Commit(_, _, _) => config.emitBoundaries
    case Relation(_, _, _, _) => config.emitSchema
    case Keepalive(_, _) => false
    case _ =>
      TableMatches(event.schema, event.table, config.tables) &&
      OpMatches(OpOf(event), config.ops) &&
      Filter.Forwards(h, rules, event)
  }

  /** The table is listed by its bare or its qualified name. */
  ghost predicate Listed(tables: seq<string>, schema: string, table: string) {
    exists i :: 0 <= i < |tables| && (tables[i] == table || tables[i] == schema + "." + table)
  }

  predicate IsOf(op: OpFilter, event: WalEvent) {
    match op
    case OnInsert => event.Insert?
    case OnUpdate => event.Update?
    case OnDelete => event.Delete?
    case OnTruncate => event.Truncate?
  }

  /** The operation is listed. */
  ghost predicate Wanted(ops: seq<OpFilter>, event: WalEvent) {
    exists i :: 0 <= i < |ops| && IsOf(ops[i], event)
  }

  /** A truncated table is listed by the name the event has for it. */
  ghost predicate SomeTruncated(names: seq<string>, tables: seq<string>) {
    exists i, j :: 0 <= i < |names| && 0 <= j < |tables| && names[i] == tables[j]
  }

  /** Empty lists admit everything; boundaries and relations have their own switches, and keepalives never pass. */
  lemma {:induction false} GateExactly(h: Host, config: Config, rules: seq<Filter.Rule>, event: WalEvent)
    ensures ShouldForward(h, config, rules, event) <==>
            if event.IsRow() then
              && (config.tables != [] ==> Listed(config.tables, event.schema, event.table))
              && (config.ops != [] ==> Wanted(config.ops, event))
              && Filter.Forwards(h, rules, event)
            else if event.Truncate? then
              && (config.tables != [] ==> SomeTruncated(event.tables, config.tables))
              && (config.ops != [] ==> Wanted(config.ops, event))
            else
              || ((event.Begin? || event.Commit?) && config.emitBoundaries)
              || (event.Relation? && config.emitSchema)
  {
    if event.IsChange() {
      if OpOf(event) in config.ops {
        var i :| 0 <= i < |config.ops| && config.ops[i] == OpOf(event);
        assert Wanted(config.ops, event);
      }
    }
    if event.IsRow() {
      var qualified := event.schema + "." + event.table;
      assert Listed(config.tables, event.schema, event.table) <==> event.table in config.tables || qualified in config.tables;
    } else if event.Truncate? {
      assert SomeTruncated(event.tables, config.tables) <==> exists t <- event.tables :: t in config.tables by {
        if i, j :| 0 <= i < |event.tables| && 0 <= j < |config.tables| && event.tables[i] == config.tables[j] {
          assert event.tables[i] in event.tables && event.tables[i] in config.tables;
        }
      }
    }
  }

  /** The tables of all sessions, one after the other. */
  function Joint(parts: seq<seq<string>>): (tables: seq<string>)
    ensures forall t :: t in tables <==> exists k :: 0 <= k < |parts| && t in parts[k]
  {
    if parts == [] then []
    else
      var n := |parts| - 1;
      var init := Joint(parts[..n]);
      assert forall t :: t in init <==> exists k :: 0 <= k < n && t in parts[..n][k];
      init + parts[n]
  }

  ghost predicate SomePart(h: Host, config: Config, rules: seq<Filter.Rule>, event: WalEvent, parts: seq<seq<string>>) {
    exists k :: 0 <= k < |parts| && ShouldForward(h, config.(tables := parts[k]), rules, event)
  }

  /** Between them the sessions forward what one session with all the tables does. */
  ghost predicate Shares(h: Host, config: Config, rules: seq<Filter.Rule>, event: WalEvent, parts: seq<seq<string>>) {
    ShouldForward(h, config.(tables := Joint(parts)), rules, event) <==> SomePart(h, config, rules, event, parts)
  }

  lemma {:induction false} NoneJoint(parts: seq<seq<string>>)
    requires forall k :: 0 <= k < |parts| ==> parts[k] == []
    ensures Joint(parts) == []
  {
    if parts != [] {
      NoneJoint(parts[..|parts| - 1]);
    }
  }

  lemma {:induction false} PartsShare(h: Host, config: Config, rules: seq<Filter.Rule>, event: WalEvent,
      parts: seq<seq<string>>)
    requires event.IsChange() && parts != []
    requires (forall k :: 0 <= k < |parts| ==> parts[k] != []) || (forall k :: 0 <= k < |parts| ==> parts[k] == [])
    ensures Shares(h, config, rules, event, parts)
  {
    if parts[0] == [] {
      NoneJoint(parts);
      assert config.(tables := Joint(parts)) == config.(tables := parts[0]);
    }
  }

  /** A name longer than all of `names`. */
  lemma {:induction false} LongerName(names: seq<string>) returns (name: string)
    ensures forall n <- names :: |n| < |name|
  {
    if names == [] {
      name := "";
    } else {
      var k := |names| - 1;
      var longer := LongerName(names[..k]);
      name := longer + names[k] + "_";
      assert names == names[..k] + [names[k]];
    }
  }

  /**
    Sessions that share out the tables forward between them exactly what one
    session with all of them does if, and for arbitrary changes only if, each
    was given tables or none was: a session without tables takes them all.
   */
  lemma {:induction false} TablesShared(h: Host, config: Config, parts: seq<seq<string>>)
    requires parts != [] && OpMatches(OnInsert, config.ops)
    ensures (forall rules, event: WalEvent :: event.IsChange() ==> Shares(h, config, rules, event, parts)) <==>
            || (forall k :: 0 <= k < |parts| ==> parts[k] != [])
            || (forall k :: 0 <= k < |parts| ==> parts[k] == [])
  {
    if (forall k :: 0 <= k < |parts| ==> parts[k] != []) || (forall k :: 0 <= k < |parts| ==> parts[k] == []) {
      forall rules, event: WalEvent | event.IsChange() ensures Shares(h, config, rules, event, parts) {
        PartsShare(h, config, rules, event, parts);
      }
    } else {
      var all, some :| 0 <= all < |parts| && parts[all] == [] && 0 <= some < |parts| && parts[some] != [];
      var table := LongerName(Joint(parts));
      var event := Insert(0, "", table, map[]);
      assert parts[some][0] in Joint(parts);
      assert table !in Joint(parts) && QualifiedName("", table) !in Joint(parts);
      assert ShouldForward(h, config.(tables := parts[all]), [], event);
      assert !Shares(h, config, [], event, parts);
    }
  }

  function QualifiedNames(tables: seq<(string, string)>): (names: seq<string>)
    ensures |names| == |tables|
    ensures forall i :: 0 <= i < |tables| ==> names[i] == QualifiedName(tables[i].0, tables[i].1)
  {
    seq(|tables|, i requires 0 <= i < |tables| => QualifiedName(tables[i].0, tables[i].1))
  }

  ghost predicate SomeMatches(tables: seq<(string, string)>, filter: seq<string>) {
    exists i :: 0 <= i < |tables| && TableMatches(tables[i].0, tables[i].1, filter)
  }

  /** Some table is in the list by its bare name. */
  ghost predicate SomeListed(tables: seq<(string, string)>, filter: seq<string>) {
    exists i :: 0 <= i < |tables| && tables[i].1 in filter
  }

  ghost predicate SomeQualified(tables: seq<(string, string)>, filter: seq<string>) {
    exists i :: 0 <= i < |tables| && QualifiedName(tables[i].0, tables[i].1) in filter
  }

  /**
    A truncation carries qualified names and the gate compares nothing else:
    it is treated differently from the rows of its tables exactly when some of
    them is listed, and none by its qualified name.
   */
  lemma {:induction false} TruncateGateExactly(h: Host, config: Config, rules: seq<Filter.Rule>, relIds: seq<nat>,
      tables: seq<(string, string)>, cascade: bool, restart: bool)
    requires tables != [] && OpMatches(OnTruncate, config.ops)
    ensures var passes := ShouldForward(h, config, rules, Truncate(relIds, QualifiedNames(tables), cascade, restart));
            && (passes ==> SomeMatches(tables, config.tables))
            && (!passes && SomeMatches(tables, config.tables) <==>
                config.tables != [] && SomeListed(tables, config.tables) && !SomeQualified(tables, config.tables))
  {
    var names := QualifiedNames(tables);
    if config.tables == [] {
      assert TableMatches(tables[0].0, tables[0].1, config.tables);
    } else {
      assert SomeQualified(tables, config.tables) <==> exists t <- names :: t in config.tables by {
        if i :| 0 <= i < |tables| && QualifiedName(tables[i].0, tables[i].1) in config.tables {
          assert names[i] in names;
        }
        if t :| t in names && t in config.tables {
          var i :| 0 <= i < |names| && names[i] == t;
        }
      }
      if i :| 0 <= i < |tables| && QualifiedName(tables[i].0, tables[i].1) in config.tables {
        assert TableMatches(tables[i].0, tables[i].1, config.tables);
      }
    }
  }
}
