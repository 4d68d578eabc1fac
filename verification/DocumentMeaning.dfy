/**
  The document, row by row: which rows a value holds under each of its fields.
  Every resolver's SQL filters some rows by a column here; nothing else is
  said of the queries.
 */
module DocumentMeaning {
  import opened Wrappers
  import opened Json
  import opened Loader
  import opened Executor
  import Batching

  /** The rows a resolver's SQL selects from and the column it filters them by. */
  datatype Tables = Tables(rows: string -> seq<Json>, column: string -> string)

  ghost predicate Filtering(env: Env, t: Tables) {
    forall name <- env.resolvers ::
      && Filters(env.render, env.runArray, env.resolvers[name].sql, t.column(name), t.rows(name))
      && (env.resolvers[name].batchBy.Some? ==> env.resolvers[name].batchBy.value == t.column(name))
  }

  // ── Keys and names ────────────────────────────────────────────────────────

  /** What a value is asked for as. */
  ghost predicate SentAs(render: Render, v: Json, text: string) {
    || v == String(text)
    || v == Number(text)
    || (v == Bool(true) && text == "true")
    || (v == Bool(false) && text == "false")
    || (v == Null && text == "")
    || ((v.Array? || v.Object?) && text == render(v))
  }

  lemma {:induction false} BatchKeyExactly(render: Render, v: Json, text: string)
    ensures BatchKey(render, v) == text <==> SentAs(render, v, text)
  {
    assert v.String? ==> v == String(v.s);
    assert v.Number? ==> v == Number(v.text);
  }

  lemma {:induction false} KeyInExactly(render: Render, v: Json, column: string, text: string)
    ensures KeyIn(render, v, column) == text <==>
            if v.Object? && column in v.fields then SentAs(render, v.fields[column], text) else text == ""
  {
    if v.Object? && column in v.fields {
      BatchKeyExactly(render, v.fields[column], text);
    }
  }

  /** The rows with a key are those that have it, each as often as it is there, and no others. */
  lemma {:induction false} RowsCounted(render: Render, rows: seq<Json>, column: string, key: string, row: Json)
    ensures multiset(RowsWith(render, rows, column, key))[row]
         == if KeyIn(render, row, column) == key then multiset(rows)[row] else 0
  {
    if rows != [] {
      RowsCounted(render, rows[..|rows| - 1], column, key, row);
      assert rows == rows[..|rows| - 1] + [rows[|rows| - 1]];
    }
  }

  /** A row with the key comes right after those with the key that are before it. */
  lemma {:induction false} RowsInOrder(render: Render, rows: seq<Json>, column: string, key: string, k: nat)
    requires k < |rows| && KeyIn(render, rows[k], column) == key
    ensures RowsWith(render, rows[..k], column, key) + [rows[k]] <= RowsWith(render, rows, column, key)
    decreases |rows|
  {
    var init := rows[..|rows| - 1];
    if k < |init| {
      RowsInOrder(render, init, column, key, k);
      assert init[..k] == rows[..k];
    }
  }

  /** A parent's key is asked for right after those of the parents before it. */
  lemma {:induction false} KeysInOrder(env: Env, parents: seq<Json>, param: string, k: nat)
    requires k < |parents| && Get(parents[k], param).Some?
    ensures KeysOf(env, parents[..k], param) + [KeyIn(env.render, parents[k], param)] <= KeysOf(env, parents, param)
    decreases |parents|
  {
    var init := parents[..|parents| - 1];
    if k < |init| {
      KeysInOrder(env, init, param, k);
      assert init[..k] == parents[..k];
    }
  }

  /** A field's text up to its arguments. */
  ghost predicate NameIn(text: string, name: string) {
    name <= text && '(' !in name && (|name| < |text| ==> text[|name|] == '(')
  }

  lemma {:induction false} BaseNameExactly(text: string, name: string)
    ensures BaseName(text) == name <==> NameIn(text, name)
  {
    if text != [] && text[0] != '(' {
      if name != [] {
        BaseNameExactly(text[1..], name[1..]);
        assert name <= text <==> name[0] == text[0] && name[1..] <= text[1..];
        assert name == [name[0]] + name[1..];
        assert |name| < |text| ==> text[1..][|name| - 1] == text[|name|];
        assert '(' !in name <==> name[0] != '(' && '(' !in name[1..];
      }
    } else {
      assert name != [] ==> name[0] in name;
    }
  }

  /** A field that is filled in: it has a resolver and a selection of its own. */
  ghost predicate Fills(env: Env, f: Field) {
    FieldName(f) in env.resolvers && f.isLeaf == false && |f.children| > 0
  }

  /** The column a field's key is read from. */
  ghost function KeyColumn(env: Env, f: Field): string
    requires Fills(env, f)
  {
    match env.resolvers[FieldName(f)].param
    case Some(param) => param
    case None => FieldName(f)
  }

  // ── The rows of one field ─────────────────────────────────────────────────

  ghost predicate EmptyKeyAsked(env: Env, parents: seq<Json>, column: string) {
    exists i :: 0 <= i < |parents| && parents[i].Object? && column in parents[i].fields &&
                KeyIn(env.render, parents[i], column) == ""
  }

  /**
    The rows that match a row's own key. A row without the column has the
    empty key; a batched query asks for that only on behalf of another row.
   */
  ghost function Matching(env: Env, t: Tables, f: Field, row: Json, parents: seq<Json>): seq<Json>
    requires Fills(env, f)
  {
    var name, column := FieldName(f), KeyColumn(env, f);
    var has := row.Object? && column in row.fields;
    if has || env.resolvers[name].batchBy.None? || EmptyKeyAsked(env, parents, column) then
      RowsWith(env.render, t.rows(name), t.column(name), KeyIn(env.render, row, column))
    else []
  }

  lemma {:induction false} FetchesMatching(env: Env, t: Tables, f: Field, parents: seq<Json>)
    requires Filtering(env, t) && Fills(env, f)
    ensures var r := env.resolvers[FieldName(f)];
            var fetched := Fetch(env, r, parents, ParamOf(r, f));
            && |fetched| == |parents|
            && forall i :: 0 <= i < |parents| ==> fetched[i] == Ok(Matching(env, t, f, parents[i], parents))
  {
    var name := FieldName(f);
    var r := env.resolvers[name];
    var column, rows := t.column(name), t.rows(name);
    var fetched := Fetch(env, r, parents, ParamOf(r, f));
    forall i | 0 <= i < |parents| ensures fetched[i] == Ok(Matching(env, t, f, parents[i], parents)) {
      Batching.FetchedRows(env, r, column, parents, ParamOf(r, f), rows, i);
      assert r.batchBy.None? ==> r.(batchBy := None) == r;
      assert r.batchBy.Some? ==> r.(batchBy := Some(column)) == r;
      var key := KeyIn(env.render, parents[i], ParamOf(r, f));
      Batching.KeysCollected(env, parents, ParamOf(r, f), key);
    }
  }

  // ── What a row shows ──────────────────────────────────────────────────────

  ghost predicate Filled(env: Env, fields: seq<Field>, name: string) {
    exists i :: 0 <= i < |fields| && Fills(env, fields[i]) && FieldName(fields[i]) == name
  }

  /** The field whose value stays: none after it fills the same name. */
  ghost predicate Stays(env: Env, fields: seq<Field>, i: nat)
    requires i < |fields|
  {
    Fills(env, fields[i]) &&
    forall j :: i < j < |fields| && Fills(env, fields[j]) ==> FieldName(fields[j]) != FieldName(fields[i])
  }

  /** Everything a row has under a name that no field fills is there as it was, and nothing else is added. */
  ghost predicate OthersKept(env: Env, row: Json, fields: seq<Field>, out: Json) {
    if !row.Object? then out == row
    else
      && out.Object?
      && (forall name <- out.fields :: name in row.fields || Filled(env, fields, name))
      && (forall name <- row.fields :: !Filled(env, fields, name) ==>
            name in out.fields && out.fields[name] == row.fields[name])
      && (forall i :: 0 <= i < |fields| && Fills(env, fields[i]) ==> FieldName(fields[i]) in out.fields)
  }

  /** Below the first level: every field that stays shows the rows matching the row's own key. */
  ghost predicate RowShown(env: Env, t: Tables, row: Json, fields: seq<Field>, out: Json)
    decreases fields, 1
  {
    && OthersKept(env, row, fields, out)
    && forall i :: 0 <= i < |fields| && Stays(env, fields, i) && row.Object? ==>
         ValueShown(env, t, fields[i], row, out.fields[FieldName(fields[i])])
  }

  /** An array of the matching rows, or the one row itself when the field is not batched. */
  ghost predicate ValueShown(env: Env, t: Tables, f: Field, row: Json, value: Json)
    requires Fills(env, f)
    decreases f
  {
    var rows := Matching(env, t, f, row, [row]);
    if |rows| == 1 && env.resolvers[FieldName(f)].batchBy.None? then RowShown(env, t, rows[0], f.children, value)
    else value.Array? && RowsShown(env, t, rows, f.children, value.items)
  }

  ghost predicate RowsShown(env: Env, t: Tables, rows: seq<Json>, fields: seq<Field>, outs: seq<Json>)
    decreases fields, 2
  {
    |outs| == |rows| && forall i :: 0 <= i < |rows| ==> RowShown(env, t, rows[i], fields, outs[i])
  }

  /** Some row lies too many levels down. */
  ghost predicate Deep(env: Env, t: Tables, row: Json, fields: seq<Field>, depth: nat)
    decreases fields, 1
  {
    || depth > env.maxDepth
    || exists i :: 0 <= i < |fields| && Fills(env, fields[i]) &&
                   AnyDeep(env, t, Matching(env, t, fields[i], row, [row]), fields[i].children, depth + 1)
  }

  ghost predicate AnyDeep(env: Env, t: Tables, rows: seq<Json>, fields: seq<Field>, depth: nat)
    decreases fields, 2
  {
    exists i :: 0 <= i < |rows| && Deep(env, t, rows[i], fields, depth)
  }

  lemma {:induction false} NothingFilled(env: Env, t: Tables, row: Json)
    ensures RowShown(env, t, row, [], row)
  {
  }

  lemma {:induction false} FilledGrows(env: Env, init: seq<Field>, f: Field, name: string)
    ensures Filled(env, init + [f], name) <==> Filled(env, init, name) || (Fills(env, f) && FieldName(f) == name)
  {
    var fields := init + [f];
    if Filled(env, init, name) {
      var i :| 0 <= i < |init| && Fills(env, init[i]) && FieldName(init[i]) == name;
      assert fields[i] == init[i];
    }
    assert fields[|init|] == f;
  }

  lemma {:induction false} StaysBefore(env: Env, init: seq<Field>, f: Field, i: nat)
    requires i < |init| && Stays(env, init + [f], i)
    ensures Stays(env, init, i) && (Fills(env, f) ==> FieldName(f) != FieldName(init[i]))
  {
    var fields := init + [f];
    assert fields[i] == init[i] && fields[|init|] == f;
    forall j | i < j < |init| && Fills(env, init[j]) ensures FieldName(init[j]) != FieldName(init[i]) {
      assert fields[j] == init[j];
    }
  }

  lemma {:induction false} OthersStillKept(env: Env, row: Json, init: seq<Field>, f: Field, mid: Json, value: Json)
    requires OthersKept(env, row, init, mid)
    ensures OthersKept(env, row, init + [f], if Fills(env, f) then Insert(mid, FieldName(f), value) else mid)
  {
    var fields := init + [f];
    var out := if Fills(env, f) then Insert(mid, FieldName(f), value) else mid;
    if row.Object? {
      forall name ensures Filled(env, fields, name) <==> Filled(env, init, name) || (Fills(env, f) && FieldName(f) == name) {
        FilledGrows(env, init, f, name);
      }
      assert forall i :: 0 <= i < |init| ==> fields[i] == init[i];
    }
  }

  /** One more field. */
  lemma {:induction false} OneMoreField(env: Env, t: Tables, row: Json, init: seq<Field>, f: Field, mid: Json, value: Json)
    requires RowShown(env, t, row, init, mid)
    requires Fills(env, f) ==> ValueShown(env, t, f, row, value)
    ensures RowShown(env, t, row, init + [f], if Fills(env, f) then Insert(mid, FieldName(f), value) else mid)
  {
    var fields := init + [f];
    var out := if Fills(env, f) then Insert(mid, FieldName(f), value) else mid;
    OthersStillKept(env, row, init, f, mid, value);
    forall i | 0 <= i < |fields| && Stays(env, fields, i) && row.Object?
      ensures ValueShown(env, t, fields[i], row, out.fields[FieldName(fields[i])])
    {
      if i < |init| {
        StaysBefore(env, init, f, i);
        assert fields[i] == init[i];
      }
    }
  }

  // ── What the executor makes of it ─────────────────────────────────────────

  /** The values of the fields so far, over one row. */
  lemma {:induction false} SiblingsShown(env: Env, t: Tables, row: Json, fields: seq<Field>, depth: nat)
    requires Filtering(env, t) && depth <= env.maxDepth
    ensures var values := Siblings(env, row, fields, depth);
            if Deep(env, t, row, fields, depth) then values == Err(TooDeep)
            else values.Ok? && RowShown(env, t, row, fields, InsertAll(row, values.value))
    decreases fields, 2
  {
    if fields == [] {
      NothingFilled(env, t, row);
    } else {
      var init, f := fields[..|fields| - 1], fields[|fields| - 1];
      assert fields == init + [f];
      SiblingsShown(env, t, row, init, depth);
      DeepGrows(env, t, row, init, f, depth);
      if Fills(env, f) && !Deep(env, t, row, init, depth) {
        FieldShown(env, t, f, row, depth + 1);
      }
      if !Deep(env, t, row, fields, depth) {
        var before := Siblings(env, row, init, depth).value;
        var values := Siblings(env, row, fields, depth).value;
        assert Fills(env, f) ==> values[..|values| - 1] == before;
        OneMoreField(env, t, row, init, f, InsertAll(row, before),
          if Fills(env, f) then values[|values| - 1].1 else Null);
      }
    }
  }

  lemma {:induction false} DeepGrows(env: Env, t: Tables, row: Json, init: seq<Field>, f: Field, depth: nat)
    ensures Deep(env, t, row, init + [f], depth) <==>
            Deep(env, t, row, init, depth) ||
            (Fills(env, f) && AnyDeep(env, t, Matching(env, t, f, row, [row]), f.children, depth + 1))
  {
    var fields := init + [f];
    assert forall i :: 0 <= i < |init| ==> fields[i] == init[i];
    assert fields[|init|] == f;
  }

  /** One field of one row. */
  lemma {:induction false} FieldShown(env: Env, t: Tables, f: Field, row: Json, depth: nat)
    requires Filtering(env, t) && Fills(env, f)
    ensures var r := env.resolvers[FieldName(f)];
            var perParent := ResolveField(env, f, r, [row], depth);
            if AnyDeep(env, t, Matching(env, t, f, row, [row]), f.children, depth) then perParent == Err(TooDeep)
            else perParent.Ok? && ValueShown(env, t, f, row, Nested(r, perParent.value[0]))
    decreases f, 3
  {
    var r := env.resolvers[FieldName(f)];
    var rows := Matching(env, t, f, row, [row]);
    var fetched := Fetch(env, r, [row], ParamOf(r, f));
    FetchesMatching(env, t, f, [row]);
    assert fetched[..0] == [] && fetched == [Ok(rows)];
    assert PerParent(env, [], f.children, depth) == Ok([]);
    RowsShownBy(env, t, rows, f.children, depth);
  }

  lemma {:induction false} RowsShownBy(env: Env, t: Tables, rows: seq<Json>, fields: seq<Field>, depth: nat)
    requires Filtering(env, t) && fields != []
    ensures var out := ResolveRows(env, rows, fields, depth);
            if AnyDeep(env, t, rows, fields, depth) then out == Err(TooDeep)
            else out.Ok? && RowsShown(env, t, rows, fields, out.value)
    decreases fields, 4, |rows|
  {
    if rows != [] {
      var init, last := rows[..|rows| - 1], rows[|rows| - 1];
      RowsShownBy(env, t, init, fields, depth);
      RowShownBy(env, t, last, fields, depth);
      AnyDeepGrows(env, t, init, last, fields, depth);
      assert rows == init + [last];
    }
  }

  lemma {:induction false} AnyDeepGrows(env: Env, t: Tables, init: seq<Json>, last: Json, fields: seq<Field>, depth: nat)
    ensures AnyDeep(env, t, init + [last], fields, depth) <==>
            AnyDeep(env, t, init, fields, depth) || Deep(env, t, last, fields, depth)
  {
    var rows := init + [last];
    assert forall i :: 0 <= i < |init| ==> rows[i] == init[i];
    assert rows[|init|] == last;
  }

  /**
    Below the first level a value fails exactly when some row lies too many
    levels down. Otherwise every field holds the rows that match the value's
    own key, each with its own fields, and everything else is as it was.
   */
  lemma {:induction false} RowShownBy(env: Env, t: Tables, row: Json, fields: seq<Field>, depth: nat)
    requires Filtering(env, t)
    ensures var out := ResolveChildren(env, row, fields, depth);
            if Deep(env, t, row, fields, depth) then out == Err(TooDeep)
            else out.Ok? && RowShown(env, t, row, fields, out.value)
    decreases fields, 3
  {
    if depth <= env.maxDepth {
      SiblingsShown(env, t, row, fields, depth);
    }
  }

  // ── The first level ───────────────────────────────────────────────────────

  /** Many rows at once: every field that stays shows, for each row, an array of the rows matching that row's own key. */
  ghost predicate LevelShown(env: Env, t: Tables, rows: seq<Json>, fields: seq<Field>, outs: seq<Json>) {
    && |outs| == |rows|
    && (forall k :: 0 <= k < |rows| ==> OthersKept(env, rows[k], fields, outs[k]))
    && (forall k, i :: 0 <= k < |rows| && 0 <= i < |fields| && Stays(env, fields, i) && rows[k].Object? ==>
          ArrayShown(env, t, fields[i], rows, k, outs[k].fields[FieldName(fields[i])]))
  }

  ghost predicate ArrayShown(env: Env, t: Tables, f: Field, rows: seq<Json>, k: nat, value: Json)
    requires Fills(env, f) && k < |rows|
  {
    value.Array? && RowsShown(env, t, Matching(env, t, f, rows[k], rows), f.children, value.items)
  }

  /** The rows a field shows for row `k` have rows too many levels down. */
  ghost predicate DeepAt(env: Env, t: Tables, rows: seq<Json>, f: Field, k: nat)
    requires Fills(env, f) && k < |rows|
  {
    AnyDeep(env, t, Matching(env, t, f, rows[k], rows), f.children, 0)
  }

  ghost predicate LevelDeep(env: Env, t: Tables, rows: seq<Json>, fields: seq<Field>) {
    exists i, k :: 0 <= i < |fields| && Fills(env, fields[i]) && 0 <= k < |rows| && DeepAt(env, t, rows, fields[i], k)
  }

  lemma {:induction false} ParentsShown(env: Env, t: Tables, lists: seq<seq<Json>>,
      fetched: seq<Result<seq<Json>, QueryError>>, fields: seq<Field>)
    requires Filtering(env, t) && fields != []
    requires |fetched| == |lists| && forall k :: 0 <= k < |lists| ==> fetched[k] == Ok(lists[k])
    ensures var out := PerParent(env, fetched, fields, 0);
            if exists k :: 0 <= k < |lists| && AnyDeep(env, t, lists[k], fields, 0) then out == Err(TooDeep)
            else out.Ok? && forall k :: 0 <= k < |lists| ==> RowsShown(env, t, lists[k], fields, out.value[k])
    decreases |lists|
  {
    if lists != [] {
      var init, last := lists[..|lists| - 1], lists[|lists| - 1];
      ParentsShown(env, t, init, fetched[..|fetched| - 1], fields);
      RowsShownBy(env, t, last, fields, 0);
      var before, out := PerParent(env, fetched[..|fetched| - 1], fields, 0), PerParent(env, fetched, fields, 0);
      assert forall k :: 0 <= k < |init| ==> lists[k] == init[k];
      if out.Ok? {
        assert out.value[..|init|] == before.value;
      }
    }
  }

  lemma {:induction false} LevelFieldShown(env: Env, t: Tables, f: Field, rows: seq<Json>)
    requires Filtering(env, t) && Fills(env, f)
    ensures var out := ResolveField(env, f, env.resolvers[FieldName(f)], rows, 0);
            if exists k :: 0 <= k < |rows| && DeepAt(env, t, rows, f, k) then out == Err(TooDeep)
            else out.Ok? && forall k :: 0 <= k < |rows| ==>
                   RowsShown(env, t, Matching(env, t, f, rows[k], rows), f.children, out.value[k])
  {
    var r := env.resolvers[FieldName(f)];
    var fetched := Fetch(env, r, rows, ParamOf(r, f));
    FetchesMatching(env, t, f, rows);
    var lists := seq(|rows|, k requires 0 <= k < |rows| => Matching(env, t, f, rows[k], rows));
    ParentsShown(env, t, lists, fetched, f.children);
    assert forall k :: 0 <= k < |rows| ==> (DeepAt(env, t, rows, f, k) <==> AnyDeep(env, t, lists[k], f.children, 0));
  }

  /** The next field of the first level, over the rows as the fields before it left them. */
  lemma {:induction false} NextFieldShown(env: Env, t: Tables, rows: seq<Json>, init: seq<Field>, f: Field, mids: seq<Json>)
    requires Filtering(env, t) && FirstLevel(env, rows, init) == Ok(mids)
    ensures var out := FirstLevel(env, rows, init + [f]);
            if LevelDeep(env, t, mids, [f]) then out == Err(TooDeep) else out.Ok? && LevelShown(env, t, mids, [f], out.value)
  {
    var fields := init + [f];
    assert fields[..|fields| - 1] == init;
    if Fills(env, f) {
      LevelFieldShown(env, t, f, mids);
      assert [f][0] == f;
      var perParent := ResolveField(env, f, env.resolvers[FieldName(f)], mids, 0);
      if perParent.Ok? {
        EachShown(env, t, f, mids, perParent.value);
      }
    } else {
      NoneShown(env, t, f, mids);
    }
  }

  lemma {:induction false} NoneShown(env: Env, t: Tables, f: Field, rows: seq<Json>)
    requires !Fills(env, f)
    ensures LevelShown(env, t, rows, [f], rows) && !LevelDeep(env, t, rows, [f])
  {
    assert forall name :: !Filled(env, [f], name);
  }

  lemma {:induction false} EachShown(env: Env, t: Tables, f: Field, rows: seq<Json>, perParent: Children)
    requires Fills(env, f) && |perParent| == |rows|
    requires forall k :: 0 <= k < |rows| ==> RowsShown(env, t, Matching(env, t, f, rows[k], rows), f.children, perParent[k])
    ensures LevelShown(env, t, rows, [f], InsertEach(rows, FieldName(f), perParent))
  {
    var outs := InsertEach(rows, FieldName(f), perParent);
    assert [] + [f] == [f];
    forall k | 0 <= k < |rows| ensures OthersKept(env, rows[k], [f], outs[k]) {
      OthersStillKept(env, rows[k], [], f, rows[k], Array(perParent[k]));
    }
    forall k | 0 <= k < |rows| && rows[k].Object?
      ensures ArrayShown(env, t, f, rows, k, outs[k].fields[FieldName(f)])
    {
      assert outs[k].fields[FieldName(f)] == Array(perParent[k]);
    }
  }

  /** No field reads its key from a column that a field before it fills. */
  ghost predicate OwnKeys(env: Env, fields: seq<Field>) {
    forall i, j :: 0 <= i < j < |fields| && Fills(env, fields[i]) && Fills(env, fields[j]) ==>
      FieldName(fields[i]) != KeyColumn(env, fields[j])
  }

  /** The fields before left the column of the next one alone. */
  lemma {:induction false} SameKeys(env: Env, t: Tables, rows: seq<Json>, init: seq<Field>, f: Field, mids: seq<Json>)
    requires LevelShown(env, t, rows, init, mids) && Fills(env, f) && !Filled(env, init, KeyColumn(env, f))
    ensures forall k :: 0 <= k < |rows| ==> Matching(env, t, f, mids[k], mids) == Matching(env, t, f, rows[k], rows)
  {
    var column := KeyColumn(env, f);
    assert forall k :: 0 <= k < |rows| ==> OthersKept(env, rows[k], init, mids[k]);
    assert forall k :: 0 <= k < |rows| ==> Get(mids[k], column) == Get(rows[k], column);
    assert forall k :: 0 <= k < |rows| ==> KeyIn(env.render, mids[k], column) == KeyIn(env.render, rows[k], column);
    assert EmptyKeyAsked(env, mids, column) <==> EmptyKeyAsked(env, rows, column);
  }

  lemma {:induction false} LevelGrows(env: Env, t: Tables, rows: seq<Json>, init: seq<Field>, f: Field, mids: seq<Json>,
      outs: seq<Json>)
    requires LevelShown(env, t, rows, init, mids) && LevelShown(env, t, mids, [f], outs)
    requires Fills(env, f) ==> !Filled(env, init, KeyColumn(env, f))
    ensures LevelShown(env, t, rows, init + [f], outs)
  {
    var fields := init + [f];
    assert [f][0] == f && fields[|init|] == f;
    forall k | 0 <= k < |rows| ensures OthersKept(env, rows[k], fields, outs[k]) {
      KeptTwice(env, rows[k], init, f, mids[k], outs[k]);
    }
    forall k, i | 0 <= k < |rows| && 0 <= i < |fields| && Stays(env, fields, i) && rows[k].Object?
      ensures ArrayShown(env, t, fields[i], rows, k, outs[k].fields[FieldName(fields[i])])
    {
      assert OthersKept(env, rows[k], init, mids[k]) && OthersKept(env, mids[k], [f], outs[k]);
      if i < |init| {
        StaysBefore(env, init, f, i);
        assert fields[i] == init[i];
        assert !Filled(env, [f], FieldName(init[i]));
        assert ArrayShown(env, t, init[i], rows, k, mids[k].fields[FieldName(init[i])]);
      } else {
        SameKeys(env, t, rows, init, f, mids);
        assert Stays(env, [f], 0);
        assert ArrayShown(env, t, [f][0], mids, k, outs[k].fields[FieldName(f)]);
      }
    }
  }

  lemma {:induction false} KeptTwice(env: Env, row: Json, init: seq<Field>, f: Field, mid: Json, out: Json)
    requires OthersKept(env, row, init, mid) && OthersKept(env, mid, [f], out)
    ensures OthersKept(env, row, init + [f], out)
  {
    var fields := init + [f];
    assert [] + [f] == [f] && [f][0] == f;
    forall name
      ensures Filled(env, fields, name) <==> Filled(env, init, name) || Filled(env, [f], name)
    {
      FilledGrows(env, init, f, name);
      FilledGrows(env, [], f, name);
    }
    assert forall i :: 0 <= i < |init| ==> fields[i] == init[i];
    if row.Object? {
      forall i | 0 <= i < |fields| && Fills(env, fields[i]) ensures FieldName(fields[i]) in out.fields {
        var name := FieldName(fields[i]);
        if i < |init| && !Filled(env, [f], name) {
          assert name in mid.fields;
        }
      }
    }
  }

  lemma {:induction false} LevelDeepGrows(env: Env, t: Tables, rows: seq<Json>, init: seq<Field>, f: Field)
    ensures LevelDeep(env, t, rows, init + [f]) <==> LevelDeep(env, t, rows, init) || LevelDeep(env, t, rows, [f])
  {
    var fields := init + [f];
    assert [f][0] == f && fields[|init|] == f;
    if i, k :| 0 <= i < |init| && Fills(env, init[i]) && 0 <= k < |rows| && DeepAt(env, t, rows, init[i], k) {
      assert fields[i] == init[i];
    }
    if i, k :| 0 <= i < |fields| && Fills(env, fields[i]) && 0 <= k < |rows| && DeepAt(env, t, rows, fields[i], k) {
      assert i < |init| ==> init[i] == fields[i];
    }
  }

  lemma {:induction false} SameDepth(env: Env, t: Tables, rows: seq<Json>, init: seq<Field>, f: Field, mids: seq<Json>)
    requires LevelShown(env, t, rows, init, mids) && (Fills(env, f) ==> !Filled(env, init, KeyColumn(env, f)))
    ensures LevelDeep(env, t, mids, [f]) <==> LevelDeep(env, t, rows, [f])
  {
    if Fills(env, f) {
      SameKeys(env, t, rows, init, f, mids);
      assert forall k :: 0 <= k < |rows| ==> (DeepAt(env, t, mids, f, k) <==> DeepAt(env, t, rows, f, k));
      assert [f][0] == f;
    }
  }

  /**
    The first level of several rows, when every field reads its key from the
    rows themselves: it fails exactly when some row lies too many levels down.
    Otherwise the rows come back in their order, every field that stays holds
    for each row an array of the rows matching that row's own key, each with
    its own fields, and everything else in the row is as it was.
   */
  lemma {:induction false} LevelShownBy(env: Env, t: Tables, rows: seq<Json>, fields: seq<Field>)
    requires Filtering(env, t) && OwnKeys(env, fields)
    ensures var out := FirstLevel(env, rows, fields);
            if LevelDeep(env, t, rows, fields) then out == Err(TooDeep)
            else out.Ok? && LevelShown(env, t, rows, fields, out.value)
    decreases |fields|
  {
    if fields == [] {
      assert forall name :: !Filled(env, fields, name);
    } else {
      var init, f := fields[..|fields| - 1], fields[|fields| - 1];
      assert fields == init + [f];
      LevelShownBy(env, t, rows, init);
      LevelDeepGrows(env, t, rows, init, f);
      if !LevelDeep(env, t, rows, init) {
        var mids := FirstLevel(env, rows, init).value;
        NextFieldShown(env, t, rows, init, f, mids);
        assert Fills(env, f) ==> !Filled(env, init, KeyColumn(env, f)) by {
          assert forall i :: 0 <= i < |init| ==> init[i] == fields[i];
        }
        SameDepth(env, t, rows, init, f, mids);
        if !LevelDeep(env, t, rows, fields) {
          LevelGrows(env, t, rows, init, f, mids, FirstLevel(env, rows, fields).value);
        }
      }
    }
  }

  // ── Root fields ───────────────────────────────────────────────────────────

  /** The value a root query is asked with: none, the variable of its name, or the one its argument names. */
  ghost predicate Given(env: Env, f: Field, r: Resolver, variables: Variables, value: Json) {
    match r.param
    case None => value == Null
    case Some(param) =>
      if param in variables then value == variables[param]
      else
        exists other <- variables :: env.extractArg(f.name, param) == Some(other) && value == variables[other]
  }

  /** What a root field gives: no resolver, no variable, a failed query, or the rows for the value. */
  ghost predicate RootGives(env: Env, f: Field, variables: Variables, out: Result<seq<Json>, Error>) {
    if FieldName(f) !in env.resolvers then out == Err(NoResolver(FieldName(f)))
    else
      var r := env.resolvers[FieldName(f)];
      || (exists value, text :: Given(env, f, r, variables, value) && SentAs(env.render, value, text) &&
            match env.runRows(r.sql, [text])
            case Err(e) => out == Err(RootSqlFailed(e))
            case Ok(rows) => out == Ok(rows))
      || (r.param.Some? && out == Err(MissingVariable(r.param.value)) &&
          forall value :: !Given(env, f, r, variables, value))
  }

  lemma {:induction false} RootExactly(env: Env, f: Field, variables: Variables, out: Result<seq<Json>, Error>)
    ensures RootRows(env, f, variables) == out <==> RootGives(env, f, variables, out)
  {
    if FieldName(f) in env.resolvers {
      var r := env.resolvers[FieldName(f)];
      var param := RootParam(env, f, r, variables);
      if param.Ok? {
        var value := param.value;
        assert Given(env, f, r, variables, value);
        forall v, text | Given(env, f, r, variables, v)
          ensures v == value && (SentAs(env.render, v, text) <==> text == BatchKey(env.render, value))
        {
          BatchKeyExactly(env.render, v, text);
        }
      }
    }
  }

  // ── The document ──────────────────────────────────────────────────────────

  /**
    A query with one root field: one row is the document itself, with its
    fields; otherwise the document is the array of the rows, in their order,
    each with its fields. It fails exactly when some row lies too many levels
    down.
   */
  lemma {:induction false} DocumentShown(env: Env, t: Tables, root: Field, variables: Variables, rows: seq<Json>)
    requires Filtering(env, t) && OwnKeys(env, root.children) && RootRows(env, root, variables) == Ok(rows)
    ensures var out := Executor.Document(env, [root], variables);
            && (|rows| == 1 ==>
                  if Deep(env, t, rows[0], root.children, 0) then out == Err(TooDeep)
                  else out.Ok? && RowShown(env, t, rows[0], root.children, out.value))
            && (|rows| != 1 ==>
                  if LevelDeep(env, t, rows, root.children) then out == Err(TooDeep)
                  else out.Ok? && out.value.Array? && LevelShown(env, t, rows, root.children, out.value.items))
  {
    assert [root][..0] == [] && [] + rows == rows;
    assert RootValues(env, [], variables) == Ok([]);
    assert RootValues(env, [root], variables) == WithChildren(env, rows, root.children);
    if |rows| == 1 {
      OneRootRow(env, t, rows[0], root.children);
      assert rows == [rows[0]];
    } else {
      LevelShownBy(env, t, rows, root.children);
    }
  }

  lemma {:induction false} OneRootRow(env: Env, t: Tables, row: Json, fields: seq<Field>)
    requires Filtering(env, t)
    ensures var out := WithChildren(env, [row], fields);
            if Deep(env, t, row, fields, 0) then out == Err(TooDeep)
            else out.Ok? && |out.value| == 1 && RowShown(env, t, row, fields, out.value[0])
  {
    if fields == [] {
      NothingFilled(env, t, row);
    } else {
      assert [row][..0] == [] && ResolveRows(env, [], fields, 0) == Ok([]);
      RowShownBy(env, t, row, fields, 0);
      var shown := ResolveChildren(env, row, fields, 0);
      assert shown.Ok? ==> [] + [shown.value] == [shown.value];
    }
  }

  /** A later root field adds its rows, and then fills its fields in on all the rows so far. */
  lemma {:induction false} LaterRootShown(env: Env, t: Tables, roots: seq<Field>, root: Field, variables: Variables,
      values: seq<Json>, rows: seq<Json>)
    requires Filtering(env, t) && OwnKeys(env, root.children)
    requires RootValues(env, roots, variables) == Ok(values) && RootRows(env, root, variables) == Ok(rows)
    requires |values + rows| > 1
    ensures var out := Executor.Document(env, roots + [root], variables);
            if LevelDeep(env, t, values + rows, root.children) then out == Err(TooDeep)
            else out.Ok? && out.value.Array? && LevelShown(env, t, values + rows, root.children, out.value.items)
  {
    assert (roots + [root])[..|roots|] == roots;
    LevelShownBy(env, t, values + rows, root.children);
  }
}
