/** Assembling a document: a root query, and the children of its rows, level by level. */
module Executor {
  import opened Wrappers
  import opened Json
  import opened Loader

  datatype Field = Field(name: string, children: seq<Field>, isLeaf: bool)

  datatype Resolver = Resolver(sql: string, param: Option<string>, batchBy: Option<string>)

  datatype Error =
    | TooDeep
    | ChildSqlFailed(e: QueryError)
    | RootSqlFailed(e: QueryError)
    | NoResolver(name: string)
    | MissingVariable(name: string)

  /** `runRows` binds its values as parameters, `runArray` as one array; `extractArg` reads an argument in a field's text. */
  datatype Env = Env(
    render: Render, resolvers: map<string, Resolver>, runRows: Runner, runArray: Runner,
    extractArg: (string, string) -> Option<string>, maxDepth: nat)

  type Children = seq<seq<Json>>

  /** The name before any arguments. */
  function BaseName(text: string): string {
    if text == [] || text[0] == '(' then [] else [text[0]] + BaseName(text[1..])
  }

  function FieldName(f: Field): string {
    BaseName(f.name)
  }

  /** Only fields with a resolver and a selection of their own are resolved. */
  predicate Resolved(env: Env, f: Field) {
    FieldName(f) in env.resolvers && !f.isLeaf && f.children != []
  }

  function ParamOf(r: Resolver, f: Field): string {
    r.param.GetOr(FieldName(f))
  }

  // ── The rows of one field, for many parents ───────────────────────────────

  function KeysOf(env: Env, parents: seq<Json>, param: string): seq<string> {
    if parents == [] then []
    else
      var init := KeysOf(env, parents[..|parents| - 1], param);
      match Get(parents[|parents| - 1], param)
      case Some(key) => init + [BatchKey(env.render, key)]
      case None => init
  }

  function LoadFor(env: Env, r: Resolver, parents: seq<Json>, param: string): Result<Groups, QueryError>
    requires r.batchBy.Some?
  {
    Load(env.render, env.runArray, 0, None, r.sql, r.batchBy.value, None, KeysOf(env, parents, param), 0, 0).0
  }

  /** One query for all parents, or one for each; the answer for parent `i`. */
  function Fetch(env: Env, r: Resolver, parents: seq<Json>, param: string): seq<Result<seq<Json>, QueryError>> {
    if r.batchBy.Some? then
      var loaded := LoadFor(env, r, parents, param);
      seq(|parents|, i requires 0 <= i < |parents| =>
        if loaded.Err? then Err(loaded.error)
        else Ok(ChildrenIn(loaded.value, KeyIn(env.render, parents[i], param))))
    else
      seq(|parents|, i requires 0 <= i < |parents| => env.runArray(r.sql, [KeyIn(env.render, parents[i], param)]))
  }

  // ── Children of children ──────────────────────────────────────────────────

  /** The value of a nested field: to-one when not batched and there is one. */
  function Nested(r: Resolver, children: seq<Json>): Json {
    if |children| == 1 && r.batchBy.None? then children[0] else Array(children)
  }

  function InsertAll(v: Json, values: seq<(string, Json)>): Json {
    if values == [] then v
    else Insert(InsertAll(v, values[..|values| - 1]), values[|values| - 1].0, values[|values| - 1].1)
  }

  function ResolveChildren(env: Env, v: Json, fields: seq<Field>, depth: nat): Result<Json, Error>
    decreases fields, 3
  {
    if depth > env.maxDepth then Err(TooDeep)
    else
      match Siblings(env, v, fields, depth)
      case Err(e) => Err(e)
      case Ok(values) => Ok(InsertAll(v, values))
  }

  /** The values of the resolved fields, each computed from the value as it was. */
  function Siblings(env: Env, v: Json, fields: seq<Field>, depth: nat): Result<seq<(string, Json)>, Error>
    decreases fields, 2
  {
    if fields == [] then Ok([])
    else
      match Siblings(env, v, fields[..|fields| - 1], depth)
      case Err(e) => Err(e)
      case Ok(values) =>
        var f := fields[|fields| - 1];
        if !Resolved(env, f) then Ok(values)
        else
          var r := env.resolvers[FieldName(f)];
          match ResolveField(env, f, r, [v], depth + 1)
          case Err(e) => Err(e)
          case Ok(perParent) => Ok(values + [(FieldName(f), Nested(r, perParent[0]))])
  }

  function ResolveField(env: Env, f: Field, r: Resolver, parents: seq<Json>, nextDepth: nat): (res: Result<Children, Error>)
    ensures res.Ok? ==> |res.value| == |parents|
    decreases f, 2
  {
    PerParent(env, Fetch(env, r, parents, ParamOf(r, f)), f.children, nextDepth)
  }

  function PerParent(env: Env, fetched: seq<Result<seq<Json>, QueryError>>, fields: seq<Field>, depth: nat)
    : (res: Result<Children, Error>)
    ensures res.Ok? ==> |res.value| == |fetched|
    decreases fields, 5, |fetched|
  {
    if fetched == [] then Ok([])
    else
      match PerParent(env, fetched[..|fetched| - 1], fields, depth)
      case Err(e) => Err(e)
      case Ok(perParent) =>
        match fetched[|fetched| - 1]
        case Err(e) => Err(ChildSqlFailed(e))
        case Ok(rows) =>
          match ResolveRows(env, rows, fields, depth)
          case Err(e) => Err(e)
          case Ok(resolved) => Ok(perParent + [resolved])
  }

  function ResolveRows(env: Env, rows: seq<Json>, fields: seq<Field>, depth: nat): Result<seq<Json>, Error>
    decreases fields, 4, |rows|
  {
    if rows == [] then Ok([])
    else
      match ResolveRows(env, rows[..|rows| - 1], fields, depth)
      case Err(e) => Err(e)
      case Ok(resolved) =>
        if fields == [] then Ok(resolved + [rows[|rows| - 1]])
        else
          match ResolveChildren(env, rows[|rows| - 1], fields, depth)
          case Err(e) => Err(e)
          case Ok(row) => Ok(resolved + [row])
  }

  // ── The first level, and the whole query ──────────────────────────────────

  function InsertEach(objs: seq<Json>, name: string, perParent: Children): seq<Json>
    requires |perParent| == |objs|
  {
    seq(|objs|, i requires 0 <= i < |objs| => Insert(objs[i], name, Array(perParent[i])))
  }

  /** The children of several root rows, field after field. */
  function FirstLevel(env: Env, objs: seq<Json>, fields: seq<Field>): (r: Result<seq<Json>, Error>)
    ensures r.Ok? ==> |r.value| == |objs|
    decreases |fields|
  {
    if fields == [] then Ok(objs)
    else
      match FirstLevel(env, objs, fields[..|fields| - 1])
      case Err(e) => Err(e)
      case Ok(objs') =>
        var f := fields[|fields| - 1];
        if !Resolved(env, f) then Ok(objs')
        else
          match ResolveField(env, f, env.resolvers[FieldName(f)], objs', 0)
          case Err(e) => Err(e)
          case Ok(perParent) => Ok(InsertEach(objs', FieldName(f), perParent))
  }

  type Variables = map<string, Json>

  function RootParam(env: Env, f: Field, r: Resolver, variables: Variables): Result<Json, Error> {
    match r.param
    case None => Ok(Null)
    case Some(param) =>
      if param in variables then Ok(variables[param])
      else
        var other := env.extractArg(f.name, param);
        if other.Some? && other.value in variables then Ok(variables[other.value]) else Err(MissingVariable(param))
  }

  function RootRows(env: Env, f: Field, variables: Variables): Result<seq<Json>, Error> {
    if FieldName(f) !in env.resolvers then Err(NoResolver(FieldName(f)))
    else
      match RootParam(env, f, env.resolvers[FieldName(f)], variables)
      case Err(e) => Err(e)
      case Ok(param) =>
        match env.runRows(env.resolvers[FieldName(f)].sql, [BatchKey(env.render, param)])
        case Err(e) => Err(RootSqlFailed(e))
        case Ok(rows) => Ok(rows)
  }

  function WithChildren(env: Env, values: seq<Json>, fields: seq<Field>): Result<seq<Json>, Error> {
    if fields == [] then Ok(values)
    else if |values| > 1 then FirstLevel(env, values, fields)
    else ResolveRows(env, values, fields, 0)
  }

  /** The root values so far; a later root field resolves its children over all of them. */
  function RootValues(env: Env, roots: seq<Field>, variables: Variables): Result<seq<Json>, Error> {
    if roots == [] then Ok([])
    else
      match RootValues(env, roots[..|roots| - 1], variables)
      case Err(e) => Err(e)
      case Ok(values) =>
        match RootRows(env, roots[|roots| - 1], variables)
        case Err(e) => Err(e)
        case Ok(rows) => WithChildren(env, values + rows, roots[|roots| - 1].children)
  }

  function Document(env: Env, roots: seq<Field>, variables: Variables): Result<Json, Error> {
    match RootValues(env, roots, variables)
    case Err(e) => Err(e)
    case Ok(values) => if |values| == 1 then Ok(values[0]) else Ok(Array(values))
  }
}
