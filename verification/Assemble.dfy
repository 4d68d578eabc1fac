/** The executor as it runs: loaders, loops over parents and rows, and a cache shared by all of them. */
module Assemble {
  import opened Wrappers
  import opened Json
  import opened Loader
  import opened Executor

  ghost function Pairs(env: Env): set<(string, string)> {
    set name | name in env.resolvers && env.resolvers[name].batchBy.Some? ::
      (env.resolvers[name].sql, env.resolvers[name].batchBy.value)
  }

  ghost function InnerOf(cache: GlobalDataCache?): Option<CacheMap>
    reads cache
  {
    if cache == null then None else Some(cache.inner)
  }

  /**
    There is no cache, or every batched query that does not fail filters
    unchanging data by key and the cache is true to that data.
   */
  ghost predicate Sound(env: Env, cache: GlobalDataCache?, data: Data)
    reads cache
  {
    cache == null ||
    (AllFilterOrFail(env.render, env.runArray, data, Pairs(env)) && Coherent(env.render, data, Pairs(env), InnerOf(cache)))
  }

  /** There is no cache to hide that a query would fail, or no batched query fails. */
  ghost predicate Exact(env: Env, cache: GlobalDataCache?, data: Data) {
    cache == null || AllFilter(env.render, env.runArray, data, Pairs(env))
  }

  /** The result is the specified one. A cache may also give another where a child query fails. */
  ghost predicate Agrees<T>(exact: bool, r: Result<T, Error>, spec: Result<T, Error>) {
    exact || spec.Ok? || !spec.error.ChildSqlFailed? ==> r == spec
  }

  /** What a loader got stands for the batched fetch: the same children for every parent, or the same error. */
  ghost predicate StandsFor(exact: bool, env: Env, r: Resolver, parents: seq<Json>, param: string,
      loaded: Result<Groups, QueryError>)
    requires r.batchBy.Some?
  {
    match LoadFor(env, r, parents, param)
    case Err(e) => exact ==> loaded == Err(e)
    case Ok(groups) =>
      loaded.Ok? && forall i :: 0 <= i < |parents| ==>
        ChildrenIn(loaded.value, KeyIn(env.render, parents[i], param)) == ChildrenIn(groups, KeyIn(env.render, parents[i], param))
  }

  lemma {:induction false} LoadStandsFor(env: Env, inner: Option<CacheMap>, ttl: nat, data: Data, name: string,
      parents: seq<Json>, param: string, now: nat, later: nat)
    requires name in env.resolvers && env.resolvers[name].batchBy.Some?
    requires inner.Some? ==>
               AllFilterOrFail(env.render, env.runArray, data, Pairs(env)) && Coherent(env.render, data, Pairs(env), inner)
    ensures var r := env.resolvers[name];
            var exact := inner.None? || AllFilter(env.render, env.runArray, data, Pairs(env));
            var (loaded, inner') := Load(env.render, env.runArray, ttl, inner, r.sql, r.batchBy.value, None,
                                         KeysOf(env, parents, param), now, later);
            && StandsFor(exact, env, r, parents, param, loaded)
            && inner'.Some? == inner.Some?
            && (inner.Some? ==> Coherent(env.render, data, Pairs(env), inner'))
  {
    var r := env.resolvers[name];
    var keys := KeysOf(env, parents, param);
    if inner.Some? {
      var pair := (r.sql, r.batchBy.value);
      assert pair in Pairs(env);
      LoadTrue(env.render, env.runArray, ttl, inner, data, Pairs(env), r.sql, r.batchBy.value, keys, now, later);
      LoadTrue(env.render, env.runArray, 0, None, data, Pairs(env), r.sql, r.batchBy.value, keys, 0, 0);
      if AllFilter(env.render, env.runArray, data, Pairs(env)) {
        LoadExact(env.render, env.runArray, 0, None, data, Pairs(env), r.sql, r.batchBy.value, keys, 0, 0);
      }
    }
  }

  /** The clock is read whenever the cache is. */
  method LoadAll(env: Env, cache: GlobalDataCache?, ghost data: Data, ghost name: string, r: Resolver,
      parents: seq<Json>, param: string)
    returns (loader: DataLoader, ok: Result<(), QueryError>)
    requires name in env.resolvers && r == env.resolvers[name] && r.batchBy.Some?
    modifies cache
    ensures fresh(loader)
    ensures old(Sound(env, cache, data)) ==>
              && Sound(env, cache, data)
              && StandsFor(Exact(env, cache, data), env, r, parents, param,
                           if ok.Ok? then Ok(loader.cached) else Err(ok.error))
  {
    loader := new DataLoader(env.render, r.sql, r.batchBy.value, None, cache);
    for i := 0 to |parents|
      invariant loader.keys == KeysOf(env, parents[..i], param)
      invariant !loader.resolved && loader.cached == map[]
      invariant InnerOf(cache) == old(InnerOf(cache))
    {
      assert parents[..i + 1][..i] == parents[..i];
      var key := Get(parents[i], param);
      if key.Some? {
        loader.AddKey(key.value);
      }
    }
    assert parents[..|parents|] == parents;
    var now: nat := *;
    var later: nat := *;
    ghost var inner := InnerOf(cache);
    ok := loader.Execute(env.runArray, now, later);
    if old(Sound(env, cache, data)) {
      LoadStandsFor(env, inner, if cache == null then 0 else cache.ttl, data, name, parents, param, now, later);
    }
  }

  // ── The first error ends the work ─────────────────────────────────────────

  lemma {:induction false} RowsStop(env: Env, rows: seq<Json>, fields: seq<Field>, depth: nat, i: nat)
    requires i <= |rows| && ResolveRows(env, rows[..i], fields, depth).Err?
    ensures ResolveRows(env, rows, fields, depth) == ResolveRows(env, rows[..i], fields, depth)
    decreases |rows|
  {
    if i == |rows| {
      assert rows[..i] == rows;
    } else {
      assert rows[..|rows| - 1][..i] == rows[..i];
      RowsStop(env, rows[..|rows| - 1], fields, depth, i);
    }
  }

  lemma {:induction false} ParentsStop(env: Env, fetched: seq<Result<seq<Json>, QueryError>>, fields: seq<Field>,
      depth: nat, i: nat)
    requires i <= |fetched| && PerParent(env, fetched[..i], fields, depth).Err?
    ensures PerParent(env, fetched, fields, depth) == PerParent(env, fetched[..i], fields, depth)
    decreases |fetched|
  {
    if i == |fetched| {
      assert fetched[..i] == fetched;
    } else {
      assert fetched[..|fetched| - 1][..i] == fetched[..i];
      ParentsStop(env, fetched[..|fetched| - 1], fields, depth, i);
    }
  }

  lemma {:induction false} SiblingsStop(env: Env, v: Json, fields: seq<Field>, depth: nat, i: nat)
    requires i <= |fields| && Siblings(env, v, fields[..i], depth).Err?
    ensures Siblings(env, v, fields, depth) == Siblings(env, v, fields[..i], depth)
    decreases |fields|
  {
    if i == |fields| {
      assert fields[..i] == fields;
    } else {
      assert fields[..|fields| - 1][..i] == fields[..i];
      SiblingsStop(env, v, fields[..|fields| - 1], depth, i);
    }
  }

  lemma {:induction false} FirstLevelStops(env: Env, objs: seq<Json>, fields: seq<Field>, i: nat)
    requires i <= |fields| && FirstLevel(env, objs, fields[..i]).Err?
    ensures FirstLevel(env, objs, fields) == FirstLevel(env, objs, fields[..i])
    decreases |fields|
  {
    if i == |fields| {
      assert fields[..i] == fields;
    } else {
      assert fields[..|fields| - 1][..i] == fields[..i];
      FirstLevelStops(env, objs, fields[..|fields| - 1], i);
    }
  }

  lemma {:induction false} RootsStop(env: Env, roots: seq<Field>, variables: Variables, i: nat)
    requires i <= |roots| && RootValues(env, roots[..i], variables).Err?
    ensures RootValues(env, roots, variables) == RootValues(env, roots[..i], variables)
    decreases |roots|
  {
    if i == |roots| {
      assert roots[..i] == roots;
    } else {
      assert roots[..|roots| - 1][..i] == roots[..i];
      RootsStop(env, roots[..|roots| - 1], variables, i);
    }
  }

  // ── One more item, or the end ─────────────────────────────────────────────

  lemma {:induction false} RowNext(exact: bool, env: Env, rows: seq<Json>, fields: seq<Field>, depth: nat, i: nat,
      resolved: seq<Json>, row: Result<Json, Error>)
    requires i < |rows| && Agrees(exact, Ok(resolved), ResolveRows(env, rows[..i], fields, depth))
    requires if fields == [] then row == Ok(rows[i]) else Agrees(exact, row, ResolveChildren(env, rows[i], fields, depth))
    ensures row.Ok? ==> Agrees(exact, Ok(resolved + [row.value]), ResolveRows(env, rows[..i + 1], fields, depth))
    ensures row.Err? ==> Agrees(exact, Err(row.error), ResolveRows(env, rows, fields, depth))
  {
    assert rows[..i + 1][..i] == rows[..i];
    if row.Err? {
      RowsStop(env, rows, fields, depth, i + 1);
    }
  }

  lemma {:induction false} SiblingNext(exact: bool, env: Env, v: Json, fields: seq<Field>, depth: nat, i: nat,
      values: seq<(string, Json)>, perParent: Result<Children, Error>)
    requires i < |fields| && Resolved(env, fields[i])
    requires Agrees(exact, Ok(values), Siblings(env, v, fields[..i], depth))
    requires Agrees(exact, perParent, ResolveField(env, fields[i], env.resolvers[FieldName(fields[i])], [v], depth + 1))
    requires perParent.Ok? ==> |perParent.value| == 1
    ensures var r := env.resolvers[FieldName(fields[i])];
            perParent.Ok? ==>
              Agrees(exact, Ok(values + [(FieldName(fields[i]), Nested(r, perParent.value[0]))]),
                     Siblings(env, v, fields[..i + 1], depth))
    ensures perParent.Err? ==> Agrees(exact, Err(perParent.error), Siblings(env, v, fields, depth))
  {
    assert fields[..i + 1][..i] == fields[..i];
    if perParent.Err? {
      SiblingsStop(env, v, fields, depth, i + 1);
    }
  }

  lemma {:induction false} FirstLevelNext(exact: bool, env: Env, objs: seq<Json>, fields: seq<Field>, i: nat,
      now: seq<Json>, perParent: Result<Children, Error>)
    requires i < |fields| && Resolved(env, fields[i])
    requires Agrees(exact, Ok(now), FirstLevel(env, objs, fields[..i]))
    requires Agrees(exact, perParent, ResolveField(env, fields[i], env.resolvers[FieldName(fields[i])], now, 0))
    requires perParent.Ok? ==> |perParent.value| == |now|
    ensures perParent.Ok? ==>
              Agrees(exact, Ok(InsertEach(now, FieldName(fields[i]), perParent.value)), FirstLevel(env, objs, fields[..i + 1]))
    ensures perParent.Err? ==> Agrees(exact, Err(perParent.error), FirstLevel(env, objs, fields))
  {
    assert fields[..i + 1][..i] == fields[..i];
    if perParent.Err? {
      FirstLevelStops(env, objs, fields, i + 1);
    }
  }

  lemma {:induction false} RootNext(exact: bool, env: Env, roots: seq<Field>, variables: Variables, i: nat,
      values: seq<Json>, more: Result<seq<Json>, Error>)
    requires i < |roots| && Agrees(exact, Ok(values), RootValues(env, roots[..i], variables))
    requires match RootRows(env, roots[i], variables)
             case Err(e) => more == Err(e)
             case Ok(rows) => Agrees(exact, more, WithChildren(env, values + rows, roots[i].children))
    ensures more.Ok? ==> Agrees(exact, more, RootValues(env, roots[..i + 1], variables))
    ensures more.Err? ==> Agrees(exact, Err(more.error), RootValues(env, roots, variables))
  {
    assert roots[..i + 1][..i] == roots[..i];
    if more.Err? {
      RootsStop(env, roots, variables, i + 1);
    }
  }

  /** The parents up to one that was fetched: how far the work gets depends on its rows. */
  lemma {:induction false} ParentNext(exact: bool, env: Env, fetched: seq<Result<seq<Json>, QueryError>>,
      fields: seq<Field>, depth: nat, i: nat, rows: seq<Json>, done: Children, resolved: Result<seq<Json>, Error>)
    requires i < |fetched| && fetched[i] == Ok(rows)
    requires Agrees(exact, Ok(done), PerParent(env, fetched[..i], fields, depth))
    requires Agrees(exact, resolved, ResolveRows(env, rows, fields, depth))
    ensures resolved.Ok? ==> Agrees(exact, Ok(done + [resolved.value]), PerParent(env, fetched[..i + 1], fields, depth))
    ensures resolved.Err? ==> Agrees(exact, Err(resolved.error), PerParent(env, fetched, fields, depth))
  {
    assert fetched[..i + 1][..i] == fetched[..i];
    if resolved.Err? {
      ParentsStop(env, fetched, fields, depth, i + 1);
    }
  }

  lemma {:induction false} ParentFails(exact: bool, env: Env, fetched: seq<Result<seq<Json>, QueryError>>,
      fields: seq<Field>, depth: nat, i: nat, done: Children)
    requires i < |fetched| && fetched[i].Err? && Agrees(exact, Ok(done), PerParent(env, fetched[..i], fields, depth))
    ensures Agrees(exact, Err(ChildSqlFailed(fetched[i].error)), PerParent(env, fetched, fields, depth))
  {
    assert fetched[..i + 1][..i] == fetched[..i];
    ParentsStop(env, fetched, fields, depth, i + 1);
  }

  // ── The loops ─────────────────────────────────────────────────────────────

  method ResolveEachRow(env: Env, cache: GlobalDataCache?, ghost data: Data, rows: seq<Json>, fields: seq<Field>,
      depth: nat)
    returns (r: Result<seq<Json>, Error>)
    modifies cache
    ensures old(Sound(env, cache, data)) ==>
              Sound(env, cache, data) && Agrees(Exact(env, cache, data), r, ResolveRows(env, rows, fields, depth))
    decreases fields, 4
  {
    ghost var sound, exact := Sound(env, cache, data), Exact(env, cache, data);
    var resolved: seq<Json> := [];
    for i := 0 to |rows|
      invariant sound ==> Sound(env, cache, data) && Agrees(exact, Ok(resolved), ResolveRows(env, rows[..i], fields, depth))
    {
      var child := rows[i];
      if |fields| > 0 {
        var done := ResolveChildrenWithDepth(env, cache, data, child, fields, depth);
        if sound {
          RowNext(exact, env, rows, fields, depth, i, resolved, done);
        }
        if done.Err? {
          return Err(done.error);
        }
        child := done.value;
      } else if sound {
        RowNext(exact, env, rows, fields, depth, i, resolved, Ok(child));
      }
      resolved := resolved + [child];
    }
    assert rows[..|rows|] == rows;
    r := Ok(resolved);
  }

  method ResolveChildrenWithDepth(env: Env, cache: GlobalDataCache?, ghost data: Data, v: Json, fields: seq<Field>,
      depth: nat)
    returns (r: Result<Json, Error>)
    modifies cache
    ensures old(Sound(env, cache, data)) ==>
              Sound(env, cache, data) && Agrees(Exact(env, cache, data), r, ResolveChildren(env, v, fields, depth))
    decreases fields, 3
  {
    if depth > env.maxDepth {
      return Err(TooDeep);
    }
    var values := ResolveSiblings(env, cache, data, v, fields, depth);
    if values.Err? {
      return Err(values.error);
    }
    var obj := InsertValues(v, values.value);
    r := Ok(obj);
  }

  /** The sibling fields, each from the value as it was. */
  method ResolveSiblings(env: Env, cache: GlobalDataCache?, ghost data: Data, v: Json, fields: seq<Field>, depth: nat)
    returns (r: Result<seq<(string, Json)>, Error>)
    modifies cache
    ensures old(Sound(env, cache, data)) ==>
              Sound(env, cache, data) && Agrees(Exact(env, cache, data), r, Siblings(env, v, fields, depth))
    decreases fields, 2
  {
    ghost var sound, exact := Sound(env, cache, data), Exact(env, cache, data);
    var values: seq<(string, Json)> := [];
    for i := 0 to |fields|
      invariant sound ==> Sound(env, cache, data) && Agrees(exact, Ok(values), Siblings(env, v, fields[..i], depth))
    {
      assert fields[..i + 1][..i] == fields[..i];
      var f := fields[i];
      if Resolved(env, f) {
        var resolver := env.resolvers[FieldName(f)];
        var perParent := ResolveFieldForParents(env, cache, data, f, resolver, [v], depth + 1);
        if sound {
          SiblingNext(exact, env, v, fields, depth, i, values, perParent);
        }
        if perParent.Err? {
          return Err(perParent.error);
        }
        var children := if |perParent.value| > 0 then perParent.value[0] else [];
        values := values + [(FieldName(f), Nested(resolver, children))];
      }
    }
    assert fields[..|fields|] == fields;
    r := Ok(values);
  }

  method InsertValues(v: Json, values: seq<(string, Json)>) returns (obj: Json)
    ensures obj == InsertAll(v, values)
  {
    obj := v;
    for i := 0 to |values|
      invariant obj == InsertAll(v, values[..i])
    {
      assert values[..i + 1][..i] == values[..i];
      obj := Insert(obj, values[i].0, values[i].1);
    }
    assert values[..|values|] == values;
  }

  method ResolveFieldForParents(env: Env, cache: GlobalDataCache?, ghost data: Data, f: Field, r: Resolver,
      parents: seq<Json>,
      nextDepth: nat)
    returns (res: Result<Children, Error>)
    requires FieldName(f) in env.resolvers && r == env.resolvers[FieldName(f)]
    modifies cache
    ensures old(Sound(env, cache, data)) ==>
              Sound(env, cache, data) && Agrees(Exact(env, cache, data), res, ResolveField(env, f, r, parents, nextDepth))
    ensures res.Ok? ==> |res.value| == |parents|
    decreases f, 1
  {
    if r.batchBy.Some? {
      res := ResolveBatched(env, cache, data, f, r, parents, nextDepth);
    } else {
      res := ResolveUnbatched(env, cache, data, f, r, parents, nextDepth);
    }
  }

  /** One query for all parents. */
  method ResolveBatched(env: Env, cache: GlobalDataCache?, ghost data: Data, f: Field, r: Resolver, parents: seq<Json>,
      nextDepth: nat)
    returns (res: Result<Children, Error>)
    requires FieldName(f) in env.resolvers && r == env.resolvers[FieldName(f)] && r.batchBy.Some?
    modifies cache
    ensures old(Sound(env, cache, data)) ==>
              Sound(env, cache, data) && Agrees(Exact(env, cache, data), res, ResolveField(env, f, r, parents, nextDepth))
    ensures res.Ok? ==> |res.value| == |parents|
    decreases f, 0
  {
    ghost var sound, exact := Sound(env, cache, data), Exact(env, cache, data);
    var param := ParamOf(r, f);
    ghost var fetched := Fetch(env, r, parents, param);
    var loader, ok := LoadAll(env, cache, data, FieldName(f), r, parents, param);
    if ok.Err? {
      if sound {
        FailedFetch(env, f, r, parents, nextDepth);
      }
      return Err(ChildSqlFailed(ok.error));
    }
    ghost var groups := loader.cached;
    ghost var told := sound && LoadFor(env, r, parents, param).Ok?;
    if told {
      FetchedFrom(exact, env, r, parents, param, groups);
    } else if sound {
      FailedFetch(env, f, r, parents, nextDepth);
    }
    var perParent: Children := [];
    for i := 0 to |parents|
      invariant loader.cached == groups
      invariant |perParent| == i && (sound ==> Sound(env, cache, data))
      invariant told ==> Agrees(exact, Ok(perParent), PerParent(env, fetched[..i], f.children, nextDepth))
    {
      var rows := loader.GetChildren(KeyIn(env.render, parents[i], param));
      var resolved := ResolveEachRow(env, cache, data, rows, f.children, nextDepth);
      if told {
        ParentNext(exact, env, fetched, f.children, nextDepth, i, rows, perParent, resolved);
      }
      if resolved.Err? {
        return Err(resolved.error);
      }
      perParent := perParent + [resolved.value];
    }
    assert fetched[..|parents|] == fetched;
    res := Ok(perParent);
  }

  /** One query for each parent. */
  method ResolveUnbatched(env: Env, cache: GlobalDataCache?, ghost data: Data, f: Field, r: Resolver,
      parents: seq<Json>, nextDepth: nat)
    returns (res: Result<Children, Error>)
    requires r.batchBy.None?
    modifies cache
    ensures old(Sound(env, cache, data)) ==>
              Sound(env, cache, data) && Agrees(Exact(env, cache, data), res, ResolveField(env, f, r, parents, nextDepth))
    ensures res.Ok? ==> |res.value| == |parents|
    decreases f, 0
  {
    ghost var sound, exact := Sound(env, cache, data), Exact(env, cache, data);
    var param := ParamOf(r, f);
    ghost var fetched := Fetch(env, r, parents, param);
    var perParent: Children := [];
    for i := 0 to |parents|
      invariant |perParent| == i && (sound ==> Sound(env, cache, data))
      invariant sound ==> Agrees(exact, Ok(perParent), PerParent(env, fetched[..i], f.children, nextDepth))
    {
      var answer := env.runArray(r.sql, [KeyIn(env.render, parents[i], param)]);
      assert fetched[i] == answer;
      if answer.Err? {
        if sound {
          ParentFails(exact, env, fetched, f.children, nextDepth, i, perParent);
        }
        return Err(ChildSqlFailed(answer.error));
      }
      var resolved := ResolveEachRow(env, cache, data, answer.value, f.children, nextDepth);
      if sound {
        ParentNext(exact, env, fetched, f.children, nextDepth, i, answer.value, perParent, resolved);
      }
      if resolved.Err? {
        return Err(resolved.error);
      }
      perParent := perParent + [resolved.value];
    }
    assert fetched[..|parents|] == fetched;
    res := Ok(perParent);
  }

  lemma {:induction false} FetchedFrom(exact: bool, env: Env, r: Resolver, parents: seq<Json>, param: string, groups: Groups)
    requires r.batchBy.Some? && StandsFor(exact, env, r, parents, param, Ok(groups)) && LoadFor(env, r, parents, param).Ok?
    ensures forall i :: 0 <= i < |parents| ==>
              Fetch(env, r, parents, param)[i] == Ok(ChildrenIn(groups, KeyIn(env.render, parents[i], param)))
  {
  }

  lemma {:induction false} FailedFetch(env: Env, f: Field, r: Resolver, parents: seq<Json>, nextDepth: nat)
    requires r.batchBy.Some? && LoadFor(env, r, parents, ParamOf(r, f)).Err?
    ensures ResolveField(env, f, r, parents, nextDepth) == Err(ChildSqlFailed(LoadFor(env, r, parents, ParamOf(r, f)).error))
  {
    var fetched := Fetch(env, r, parents, ParamOf(r, f));
    assert parents == [] ==> KeysOf(env, parents, ParamOf(r, f)) == [];
    assert parents != [];
    assert fetched[..1][..0] == [];
    assert PerParent(env, [], f.children, nextDepth) == Ok([]);
    ParentsStop(env, fetched, f.children, nextDepth, 1);
  }

  method ResolveChildrenBatched(env: Env, cache: GlobalDataCache?, ghost data: Data, parentObjs: seq<Json>,
      fields: seq<Field>)
    returns (r: Result<seq<Json>, Error>)
    modifies cache
    ensures old(Sound(env, cache, data)) ==>
              Sound(env, cache, data) && Agrees(Exact(env, cache, data), r, FirstLevel(env, parentObjs, fields))
  {
    ghost var sound, exact := Sound(env, cache, data), Exact(env, cache, data);
    var objs := parentObjs;
    for i := 0 to |fields|
      invariant sound ==> Sound(env, cache, data) && Agrees(exact, Ok(objs), FirstLevel(env, parentObjs, fields[..i]))
    {
      assert fields[..i + 1][..i] == fields[..i];
      var f := fields[i];
      if Resolved(env, f) {
        var perParent := ResolveFieldForParents(env, cache, data, f, env.resolvers[FieldName(f)], objs, 0);
        if sound {
          FirstLevelNext(exact, env, parentObjs, fields, i, objs, perParent);
        }
        if perParent.Err? {
          return Err(perParent.error);
        }
        objs := InsertChildren(objs, FieldName(f), perParent.value);
      }
    }
    assert fields[..|fields|] == fields;
    r := Ok(objs);
  }

  /** Each parent with its children, as far as there are both. */
  method InsertChildren(objs: seq<Json>, name: string, perParent: Children) returns (r: seq<Json>)
    ensures |perParent| == |objs| ==> r == InsertEach(objs, name, perParent)
  {
    r := objs;
    for i := 0 to Min(|objs|, |perParent|)
      invariant |r| == |objs|
      invariant forall k :: 0 <= k < |objs| ==>
                  r[k] == if k < i then Insert(objs[k], name, Array(perParent[k])) else objs[k]
    {
      r := r[i := Insert(r[i], name, Array(perParent[i]))];
    }
  }

  method ExecuteBatched(env: Env, cache: GlobalDataCache?, ghost data: Data, roots: seq<Field>, variables: Variables)
    returns (r: Result<Json, Error>)
    modifies cache
    ensures old(Sound(env, cache, data)) ==>
              Sound(env, cache, data) && Agrees(Exact(env, cache, data), r, Document(env, roots, variables))
  {
    ghost var sound, exact := Sound(env, cache, data), Exact(env, cache, data);
    var rootValues: seq<Json> := [];
    for i := 0 to |roots|
      invariant sound ==> Sound(env, cache, data) && Agrees(exact, Ok(rootValues), RootValues(env, roots[..i], variables))
    {
      ghost var before := rootValues;
      var f := roots[i];
      var rows := RootRows(env, f, variables);
      if rows.Err? {
        if sound {
          RootNext(exact, env, roots, variables, i, before, Err(rows.error));
        }
        return Err(rows.error);
      }
      rootValues := rootValues + rows.value;
      if |f.children| > 0 {
        var resolved: Result<seq<Json>, Error>;
        if |rootValues| > 1 {
          resolved := ResolveChildrenBatched(env, cache, data, rootValues, f.children);
        } else {
          resolved := ResolveEachRow(env, cache, data, rootValues, f.children, 0);
        }
        if sound {
          RootNext(exact, env, roots, variables, i, before, resolved);
        }
        if resolved.Err? {
          return Err(resolved.error);
        }
        rootValues := resolved.value;
      } else if sound {
        RootNext(exact, env, roots, variables, i, before, Ok(rootValues));
      }
    }
    assert roots[..|roots|] == roots;
    r := Ok(if |rootValues| == 1 then rootValues[0] else Array(rootValues));
  }
}
