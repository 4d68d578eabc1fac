/** Turning batching on or off for a field does not change the document. */
module Batching {
  import opened Wrappers
  import opened Json
  import opened Loader
  import opened Executor

  function WithBatch(env: Env, name: string, batchBy: Option<string>): Env
    requires name in env.resolvers
  {
    env.(resolvers := env.resolvers[name := env.resolvers[name].(batchBy := batchBy)])
  }

  /** No field of a selection, at any depth, is called `name`. */
  ghost predicate Avoids(fields: seq<Field>, name: string)
    decreases fields
  {
    forall i :: 0 <= i < |fields| ==> FieldName(fields[i]) != name && Avoids(fields[i].children, name)
  }

  ghost predicate AllCarry(objs: seq<Json>, param: string) {
    forall i :: 0 <= i < |objs| ==> Get(objs[i], param).Some?
  }

  // ── One query for all parents against one for each ────────────────────────

  lemma {:induction false} KeysCollected(env: Env, parents: seq<Json>, param: string, key: string)
    ensures key in KeysOf(env, parents, param) <==>
            exists i :: 0 <= i < |parents| && Get(parents[i], param).Some? && KeyIn(env.render, parents[i], param) == key
  {
    if parents != [] {
      var init := parents[..|parents| - 1];
      KeysCollected(env, init, param, key);
      if i :| 0 <= i < |init| && Get(init[i], param).Some? && KeyIn(env.render, init[i], param) == key {
        assert parents[i] == init[i];
      }
      if i :| 0 <= i < |parents| && Get(parents[i], param).Some? && KeyIn(env.render, parents[i], param) == key {
        if i < |init| {
          assert init[i] == parents[i];
        }
      }
    }
  }

  /** What either way fetches for parent `i` when the query filters by key. */
  lemma {:induction false} FetchedRows(env: Env, r: Resolver, column: string, parents: seq<Json>, param: string,
      rows: seq<Json>, i: nat)
    requires Filters(env.render, env.runArray, r.sql, column, rows) && i < |parents|
    ensures var key := KeyIn(env.render, parents[i], param);
            && Fetch(env, r.(batchBy := None), parents, param)[i] == Ok(RowsWith(env.render, rows, column, key))
            && Fetch(env, r.(batchBy := Some(column)), parents, param)[i]
            == Ok(if key in KeysOf(env, parents, param) then RowsWith(env.render, rows, column, key) else [])
  {
    var key := KeyIn(env.render, parents[i], param);
    SelectedOne(env.render, rows, column, key);
    var data: Data := sql => rows;
    LoadExact(env.render, env.runArray, 0, None, data, {(r.sql, column)}, r.sql, column, KeysOf(env, parents, param), 0, 0);
  }

  /**
    For a query that filters by key, batching fetches the same rows for every
    parent exactly when no parent lacks the parameter's column, or the empty
    key such a parent stands for is asked for anyway or has no rows.
   */
  lemma {:induction false} FetchAgreesExactly(env: Env, r: Resolver, column: string, parents: seq<Json>, param: string,
      rows: seq<Json>)
    requires Filters(env.render, env.runArray, r.sql, column, rows)
    ensures Fetch(env, r.(batchBy := Some(column)), parents, param) == Fetch(env, r.(batchBy := None), parents, param)
       <==> AllCarry(parents, param) || "" in KeysOf(env, parents, param) || RowsWith(env.render, rows, column, "") == []
  {
    var batched := Fetch(env, r.(batchBy := Some(column)), parents, param);
    var single := Fetch(env, r.(batchBy := None), parents, param);
    forall i | 0 <= i < |parents|
      ensures batched[i] == single[i] <==>
              Get(parents[i], param).Some? || "" in KeysOf(env, parents, param) || RowsWith(env.render, rows, column, "") == []
    {
      FetchedRows(env, r, column, parents, param, rows, i);
      KeysCollected(env, parents, param, KeyIn(env.render, parents[i], param));
    }
  }

  /** Below the first level a single child shows the difference, and nothing else does. */
  lemma {:induction false} NestedAgreesExactly(r: Resolver, column: string, children: seq<Json>)
    ensures Nested(r.(batchBy := Some(column)), children) == Nested(r.(batchBy := None), children) <==> |children| != 1
  {
    if |children| == 1 {
      NotItself(children[0]);
      assert children == [children[0]];
    }
  }

  lemma {:induction false} NotItself(v: Json)
    ensures Array([v]) != v
  {
    assert Array([v]).items[0] == v;
  }

  // ── The levels below ──────────────────────────────────────────────────────

  lemma {:induction false} ChildrenSame(env: Env, name: string, b: Option<string>, v: Json, fields: seq<Field>,
      depth: nat)
    requires name in env.resolvers && Avoids(fields, name)
    ensures ResolveChildren(WithBatch(env, name, b), v, fields, depth) == ResolveChildren(env, v, fields, depth)
    decreases fields, 3
  {
    SiblingsSame(env, name, b, v, fields, depth);
  }

  lemma {:induction false} SiblingsSame(env: Env, name: string, b: Option<string>, v: Json, fields: seq<Field>,
      depth: nat)
    requires name in env.resolvers && Avoids(fields, name)
    ensures Siblings(WithBatch(env, name, b), v, fields, depth) == Siblings(env, v, fields, depth)
    decreases fields, 2
  {
    if fields != [] {
      var init, f := fields[..|fields| - 1], fields[|fields| - 1];
      assert forall i :: 0 <= i < |init| ==> init[i] == fields[i];
      SiblingsSame(env, name, b, v, init, depth);
      if Resolved(env, f) {
        FieldSame(env, name, b, f, env.resolvers[FieldName(f)], [v], depth + 1);
      }
    }
  }

  lemma {:induction false} FieldSame(env: Env, name: string, b: Option<string>, f: Field, r: Resolver,
      parents: seq<Json>, depth: nat)
    requires name in env.resolvers && Avoids(f.children, name)
    ensures ResolveField(WithBatch(env, name, b), f, r, parents, depth) == ResolveField(env, f, r, parents, depth)
    decreases f, 2
  {
    KeysSame(env, WithBatch(env, name, b), parents, ParamOf(r, f));
    assert Fetch(WithBatch(env, name, b), r, parents, ParamOf(r, f)) == Fetch(env, r, parents, ParamOf(r, f));
    PerParentSame(env, name, b, Fetch(env, r, parents, ParamOf(r, f)), f.children, depth);
  }

  lemma {:induction false} KeysSame(env: Env, env': Env, parents: seq<Json>, param: string)
    requires env.render == env'.render
    ensures KeysOf(env, parents, param) == KeysOf(env', parents, param)
  {
    if parents != [] {
      KeysSame(env, env', parents[..|parents| - 1], param);
    }
  }

  lemma {:induction false} PerParentSame(env: Env, name: string, b: Option<string>,
      fetched: seq<Result<seq<Json>, QueryError>>,
      fields: seq<Field>, depth: nat)
    requires name in env.resolvers && Avoids(fields, name)
    ensures PerParent(WithBatch(env, name, b), fetched, fields, depth) == PerParent(env, fetched, fields, depth)
    decreases fields, 5, |fetched|
  {
    if fetched != [] {
      PerParentSame(env, name, b, fetched[..|fetched| - 1], fields, depth);
      if fetched[|fetched| - 1].Ok? {
        RowsSame(env, name, b, fetched[|fetched| - 1].value, fields, depth);
      }
    }
  }

  lemma {:induction false} RowsSame(env: Env, name: string, b: Option<string>, rows: seq<Json>, fields: seq<Field>,
      depth: nat)
    requires name in env.resolvers && Avoids(fields, name)
    ensures ResolveRows(WithBatch(env, name, b), rows, fields, depth) == ResolveRows(env, rows, fields, depth)
    decreases fields, 4, |rows|
  {
    if rows != [] {
      RowsSame(env, name, b, rows[..|rows| - 1], fields, depth);
      ChildrenSame(env, name, b, rows[|rows| - 1], fields, depth);
    }
  }

  // ── The first level and the document ──────────────────────────────────────

  ghost predicate OnlyFirstLevel(fields: seq<Field>, name: string) {
    forall i :: 0 <= i < |fields| ==> Avoids(fields[i].children, name)
  }

  lemma {:induction false} StillCarry(env: Env, objs: seq<Json>, fields: seq<Field>, param: string)
    requires AllCarry(objs, param) && FirstLevel(env, objs, fields).Ok?
    ensures AllCarry(FirstLevel(env, objs, fields).value, param)
    decreases |fields|
  {
    if fields != [] {
      StillCarry(env, objs, fields[..|fields| - 1], param);
    }
  }

  /** The field itself, batched and not, over parents that carry its column. */
  lemma {:induction false} BatchedFieldSame(env: Env, f: Field, column: string, parents: seq<Json>, rows: seq<Json>,
      depth: nat)
    requires FieldName(f) in env.resolvers && Avoids(f.children, FieldName(f))
    requires var r := env.resolvers[FieldName(f)];
             r.batchBy.None? && Filters(env.render, env.runArray, r.sql, column, rows) && AllCarry(parents, ParamOf(r, f))
    ensures var r := env.resolvers[FieldName(f)];
            ResolveField(WithBatch(env, FieldName(f), Some(column)), f, r.(batchBy := Some(column)), parents, depth) ==
            ResolveField(env, f, r, parents, depth)
  {
    var r := env.resolvers[FieldName(f)];
    assert r == r.(batchBy := None);
    FetchAgreesExactly(env, r, column, parents, ParamOf(r, f), rows);
    FieldSame(env, FieldName(f), Some(column), f, r.(batchBy := Some(column)), parents, depth);
    assert ParamOf(r.(batchBy := Some(column)), f) == ParamOf(r, f);
  }

  lemma {:induction false} FirstLevelSame(env: Env, name: string, column: string, objs: seq<Json>, fields: seq<Field>,
      rows: seq<Json>)
    requires name in env.resolvers && OnlyFirstLevel(fields, name)
    requires var r := env.resolvers[name];
             r.batchBy.None? && Filters(env.render, env.runArray, r.sql, column, rows) && AllCarry(objs, r.param.GetOr(name))
    ensures FirstLevel(WithBatch(env, name, Some(column)), objs, fields) == FirstLevel(env, objs, fields)
    decreases |fields|
  {
    if fields != [] {
      var init, f := fields[..|fields| - 1], fields[|fields| - 1];
      FirstLevelSame(env, name, column, objs, init, rows);
      if FirstLevel(env, objs, init).Ok? && Resolved(env, f) {
        var objs' := FirstLevel(env, objs, init).value;
        StillCarry(env, objs, init, env.resolvers[name].param.GetOr(name));
        if FieldName(f) == name {
          BatchedFieldSame(env, f, column, objs', rows, 0);
        } else {
          FieldSame(env, name, Some(column), f, env.resolvers[FieldName(f)], objs', 0);
        }
      }
    }
  }

  /**
    For a query with one root field that gives several rows, all carrying the
    parameter's column, giving a first-level field whose SQL filters by key a
    `batch_by`, or taking it away, leaves the whole document unchanged,
    nested children and errors included.
   */
  lemma {:induction false} BatchingRefines(env: Env, name: string, column: string, root: Field, variables: Variables,
      rows: seq<Json>)
    requires name in env.resolvers && OnlyFirstLevel(root.children, name)
    requires var r := env.resolvers[name]; r.batchBy.None? && Filters(env.render, env.runArray, r.sql, column, rows)
    requires var values := RootRows(env, root, variables);
             values.Ok? ==> |values.value| > 1 && AllCarry(values.value, env.resolvers[name].param.GetOr(name))
    ensures Executor.Document(WithBatch(env, name, Some(column)), [root], variables) == Executor.Document(env, [root], variables)
  {
    var env' := WithBatch(env, name, Some(column));
    assert RootRows(env', root, variables) == RootRows(env, root, variables);
    assert [root][..0] == [];
    if RootRows(env, root, variables).Ok? {
      var values := RootRows(env, root, variables).value;
      assert [] + values == values;
      FirstLevelSame(env, name, column, values, root.children, rows);
      assert WithChildren(env', values, root.children) == WithChildren(env, values, root.children);
    }
    assert RootValues(env', [], variables) == Ok([]) && RootValues(env, [], variables) == Ok([]);
    assert RootValues(env', [root], variables) == RootValues(env, [root], variables);
  }
}
