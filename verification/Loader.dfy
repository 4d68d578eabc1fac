/**
  The data loader: one query for the keys of many parents, its rows grouped
  by key, and the cache of such results that outlives messages.
 */
module Loader {
  import opened Wrappers
  import opened Json

  type Groups = map<string, seq<Json>>

  /** What a database connection does: SQL with a list of keys gives rows, or fails. */
  datatype QueryError = SqlFailed(text: string)
  type Runner = (string, seq<string>) -> Result<seq<Json>, QueryError>

  // ── Grouping ──────────────────────────────────────────────────────────────

  /** The rows with a given key, in their order. */
  function RowsWith(render: Render, rows: seq<Json>, column: string, key: string): seq<Json> {
    if rows == [] then []
    else
      var init := RowsWith(render, rows[..|rows| - 1], column, key);
      if KeyIn(render, rows[|rows| - 1], column) == key then init + [rows[|rows| - 1]] else init
  }

  function KeysIn(render: Render, rows: seq<Json>, column: string): set<string> {
    set i | 0 <= i < |rows| :: KeyIn(render, rows[i], column)
  }

  function Grouped(render: Render, rows: seq<Json>, column: string): Groups {
    map key | key in KeysIn(render, rows, column) :: RowsWith(render, rows, column, key)
  }

  function ChildrenIn(groups: Groups, key: string): seq<Json> {
    if key in groups then groups[key] else []
  }

  lemma {:induction false} KeysGrow(render: Render, rows: seq<Json>, row: Json, column: string)
    ensures KeysIn(render, rows + [row], column) == KeysIn(render, rows, column) + {KeyIn(render, row, column)}
  {
    var longer := rows + [row];
    forall k | k in KeysIn(render, longer, column) ensures k in KeysIn(render, rows, column) + {KeyIn(render, row, column)} {
      var i :| 0 <= i < |longer| && KeyIn(render, longer[i], column) == k;
      if i < |rows| {
        assert KeyIn(render, rows[i], column) == k;
      }
    }
    forall k | k in KeysIn(render, rows, column) ensures k in KeysIn(render, longer, column) {
      var i :| 0 <= i < |rows| && KeyIn(render, rows[i], column) == k;
      assert KeyIn(render, longer[i], column) == k;
    }
    assert KeyIn(render, longer[|rows|], column) == KeyIn(render, row, column);
  }

  lemma {:induction false} NoRowsWithout(render: Render, rows: seq<Json>, column: string, key: string)
    ensures key in KeysIn(render, rows, column) <==> RowsWith(render, rows, column, key) != []
  {
    if rows != [] {
      var init := rows[..|rows| - 1];
      NoRowsWithout(render, init, column, key);
      KeysGrow(render, init, rows[|rows| - 1], column);
      assert init + [rows[|rows| - 1]] == rows;
    }
  }

  /** The children of any key are the rows with that key. */
  lemma {:induction false} ChildrenGrouped(render: Render, rows: seq<Json>, column: string, key: string)
    ensures ChildrenIn(Grouped(render, rows, column), key) == RowsWith(render, rows, column, key)
  {
    NoRowsWithout(render, rows, column, key);
  }

  lemma {:induction false} RowsWithMembers(render: Render, rows: seq<Json>, column: string, key: string, row: Json)
    ensures row in RowsWith(render, rows, column, key) <==> row in rows && KeyIn(render, row, column) == key
  {
    if rows != [] {
      RowsWithMembers(render, rows[..|rows| - 1], column, key, row);
      assert rows == rows[..|rows| - 1] + [rows[|rows| - 1]];
    }
  }

  /** `v` asks for a row with `w` in the column: they are equal, or one is a string that holds the other's key. */
  predicate Matches(render: Render, v: Json, w: Json) {
    v == w || (v.String? && v.s == BatchKey(render, w)) || (w.String? && w.s == BatchKey(render, v))
  }

  /**
    A row is among the children found under a parent's value exactly when that
    value matches the row's; a row without the column goes to null and `""`.
   */
  lemma {:induction false} ChildrenMatch(render: Render, rows: seq<Json>, column: string, v: Json, row: Json)
    requires RenderOk(render) && Numeral(v) && (Get(row, column).Some? ==> Numeral(Get(row, column).value))
    ensures row in ChildrenIn(Grouped(render, rows, column), BatchKey(render, v)) <==>
            row in rows && Matches(render, v, Get(row, column).GetOr(Null))
  {
    ChildrenGrouped(render, rows, column, BatchKey(render, v));
    RowsWithMembers(render, rows, column, BatchKey(render, v), row);
    KeysAgree(render, v, Get(row, column).GetOr(Null));
  }

  // ── Keys ──────────────────────────────────────────────────────────────────

  /** The first occurrences, in order. */
  function Unique(keys: seq<string>): (u: seq<string>)
    ensures forall k :: k in u <==> k in keys
    ensures Distinct(u)
  {
    if keys == [] then []
    else
      var init := Unique(keys[..|keys| - 1]);
      assert keys == keys[..|keys| - 1] + [keys[|keys| - 1]];
      if keys[|keys| - 1] in init then init else init + [keys[|keys| - 1]]
  }

  // ── The cache ─────────────────────────────────────────────────────────────

  datatype CacheEntry = CacheEntry(children: Groups, insertedAt: nat)

  /** Entries are found by SQL and batch column. */
  type CacheMap = map<(string, string), CacheEntry>

  /** The groups of all keys, when there is one for each of them. */
  function Lookup(children: Groups, keys: seq<string>): Option<Groups> {
    var found := map k | k in keys && k in children :: children[k];
    if |found| == |keys| then Some(found) else None
  }

  function CacheGet(ttl: nat, inner: CacheMap, sql: string, batchBy: string, keys: seq<string>, now: nat): Option<Groups> {
    if (sql, batchBy) !in inner then None
    else
      var entry := inner[(sql, batchBy)];
      if entry.insertedAt + ttl < now then None else Lookup(entry.children, keys)
  }

  lemma {:induction false} SetOfKeys(keys: seq<string>)
    ensures var s := set k | k in keys; |s| <= |keys| && (|s| == |keys| <==> Distinct(keys))
  {
    if keys != [] {
      var init, last := keys[..|keys| - 1], keys[|keys| - 1];
      SetOfKeys(init);
      assert keys == init + [last];
      var s, t := set k | k in keys, set k | k in init;
      assert s == t + {last};
      if last in init {
        assert s == t;
        var i :| 0 <= i < |init| && init[i] == last;
        assert keys[i] == keys[|keys| - 1];
      } else {
        if Distinct(init) {
          forall i, j | 0 <= i < j < |keys| ensures keys[i] != keys[j] {
            if j < |init| {
              assert init[i] != init[j];
            } else {
              assert init[i] in init;
            }
          }
        } else {
          var i, j :| 0 <= i < j < |init| && init[i] == init[j];
          assert keys[i] == keys[j];
        }
      }
    }
  }

  /** A lookup succeeds exactly when the keys differ and each has a group. */
  lemma {:induction false} LookupExactly(children: Groups, keys: seq<string>)
    ensures Lookup(children, keys).Some? <==> Distinct(keys) && forall k <- keys :: k in children
  {
    var found := map k | k in keys && k in children :: children[k];
    var all := set k | k in keys;
    SetOfKeys(keys);
    assert found.Keys <= all && |found| == |found.Keys|;
    Subset(found.Keys, all);
    if |found| == |keys| {
      assert found.Keys == all;
      forall k | k in keys ensures k in children {
        assert k in all;
      }
    } else if forall k <- keys :: k in children {
      assert found.Keys == all;
    }
  }

  lemma {:induction false} Subset(a: set<string>, b: set<string>)
    requires a <= b
    ensures |a| <= |b| && (|a| == |b| ==> a == b)
    decreases a
  {
    if a != {} {
      var x :| x in a;
      Subset(a - {x}, b - {x});
      assert a == a - {x} + {x} && b == b - {x} + {x};
    } else if |b| == 0 {
      assert b == {};
    }
  }

  /** The entries younger than the time to live. */
  function Evicted(ttl: nat, inner: CacheMap, now: nat): CacheMap {
    map key | key in inner && now < inner[key].insertedAt + ttl :: inner[key]
  }

  /** An eviction changes what is served from then on exactly at the one instant when an entry is as old as it may be. */
  lemma {:induction false} EvictionShowsExactly(ttl: nat, inner: CacheMap, sql: string, batchBy: string, keys: seq<string>,
      now: nat, later: nat)
    requires now <= later
    ensures CacheGet(ttl, Evicted(ttl, inner, now), sql, batchBy, keys, later) != CacheGet(ttl, inner, sql, batchBy, keys, later)
       <==> && (sql, batchBy) in inner && inner[(sql, batchBy)].insertedAt + ttl == now == later
            && Lookup(inner[(sql, batchBy)].children, keys).Some?
  {
  }

  class GlobalDataCache {
    const ttl: nat
    var inner: CacheMap

    constructor (ttl: nat)
      ensures this.ttl == ttl && inner == map[]
    {
      this.ttl := ttl;
      inner := map[];
    }

    method Get(sql: string, batchBy: string, keys: seq<string>, now: nat) returns (hit: Option<Groups>)
      ensures hit == CacheGet(ttl, inner, sql, batchBy, keys, now)
    {
      if (sql, batchBy) !in inner {
        return None;
      }
      var entry := inner[(sql, batchBy)];
      if entry.insertedAt + ttl < now {
        return None;
      }
      var result: Groups := map[];
      for i := 0 to |keys|
        invariant result == map k | k in keys[..i] && k in entry.children :: entry.children[k]
      {
        assert keys[..i + 1] == keys[..i] + [keys[i]];
        if keys[i] in entry.children {
          result := result[keys[i] := entry.children[keys[i]]];
        }
      }
      assert keys[..|keys|] == keys;
      hit := if |result| == |keys| then Some(result) else None;
    }

    method Insert(sql: string, batchBy: string, children: Groups, now: nat)
      modifies this
      ensures inner == old(inner)[(sql, batchBy) := CacheEntry(children, now)]
    {
      inner := inner[(sql, batchBy) := CacheEntry(children, now)];
    }

    method EvictExpired(now: nat)
      modifies this
      ensures inner == Evicted(ttl, old(inner), now)
    {
      var left := inner.Keys;
      var kept: CacheMap := map[];
      while left != {}
        invariant left <= inner.Keys && inner == old(inner)
        invariant kept == map key | key in inner && key !in left && now < inner[key].insertedAt + ttl :: inner[key]
        decreases |left|
      {
        var key :| key in left;
        left := left - {key};
        if now < inner[key].insertedAt + ttl {
          kept := kept[key := inner[key]];
        }
      }
      inner := kept;
    }
  }

  // ── One execution of a loader ─────────────────────────────────────────────

  /** The groups of an execution and the cache after it. `now` is when the cache is read, `later` when it is written. */
  function Load(render: Render, run: Runner, ttl: nat, inner: Option<CacheMap>, sql: string, batchBy: string,
                resultKey: Option<string>, keys: seq<string>, now: nat, later: nat)
    : (Result<Groups, QueryError>, Option<CacheMap>)
  {
    var unique := Unique(keys);
    if unique == [] then (Ok(map[]), inner)
    else
      var hit := if inner.Some? then CacheGet(ttl, inner.value, sql, batchBy, unique, now) else None;
      if hit.Some? then (Ok(hit.value), inner)
      else
        match run(sql, unique)
        case Err(e) => (Err(e), inner)
        case Ok(rows) =>
          var groups := Grouped(render, rows, resultKey.GetOr(batchBy));
          (Ok(groups), if inner.Some? then Some(inner.value[(sql, batchBy) := CacheEntry(groups, later)]) else None)
  }

  /** A key that is new comes after the ones before it. */
  lemma {:induction false} UniqueInOrder(keys: seq<string>, k: nat)
    requires k < |keys|
    ensures Unique(keys[..k]) + (if keys[k] in keys[..k] then [] else [keys[k]]) <= Unique(keys)
    decreases |keys|
  {
    var init := keys[..|keys| - 1];
    if k < |init| {
      UniqueInOrder(init, k);
      assert init[..k] == keys[..k];
    }
  }

  /**
    Without a cache: nothing for no keys, or one query for the distinct ones,
    its rows under the result key's column if there is one.
   */
  lemma {:induction false} FreshLoad(render: Render, run: Runner, ttl: nat, sql: string, batchBy: string,
      resultKey: Option<string>, keys: seq<string>, now: nat, later: nat, key: string)
    ensures var (loaded, inner) := Load(render, run, ttl, None, sql, batchBy, resultKey, keys, now, later);
            && inner == None
            && if keys == [] then loaded == Ok(map[])
               else
                 match run(sql, Unique(keys))
                 case Err(e) => loaded == Err(e)
                 case Ok(rows) =>
                   && loaded.Ok?
                   && ChildrenIn(loaded.value, key)
                   == RowsWith(render, rows, match resultKey case Some(column) => column case None => batchBy, key)
  {
    if keys != [] {
      assert keys[0] in Unique(keys);
      var rows := run(sql, Unique(keys));
      if rows.Ok? {
        ChildrenGrouped(render, rows.value, resultKey.GetOr(batchBy), key);
      }
    }
  }

  class DataLoader {
    const render: Render
    const sql: string
    const batchBy: string
    const resultKey: Option<string>
    const globalCache: GlobalDataCache?
    var keys: seq<string>
    var resolved: bool
    var cached: Groups

    constructor (render: Render, sql: string, batchBy: string, resultKey: Option<string>, globalCache: GlobalDataCache?)
      ensures this.render == render && this.sql == sql && this.batchBy == batchBy
      ensures this.resultKey == resultKey && this.globalCache == globalCache
      ensures keys == [] && !resolved && cached == map[]
    {
      this.render, this.sql, this.batchBy, this.resultKey := render, sql, batchBy, resultKey;
      this.globalCache := globalCache;
      keys, resolved, cached := [], false, map[];
    }

    ghost predicate Valid()
      reads this
    {
      !resolved ==> cached == map[]
    }

    ghost function Inner(): Option<CacheMap>
      reads globalCache
    {
      if globalCache == null then None else Some(globalCache.inner)
    }

    method AddKey(key: Json)
      modifies this`keys
      ensures keys == old(keys) + [BatchKey(render, key)]
    {
      keys := keys + [BatchKey(render, key)];
    }

    method UniqueKeys() returns (unique: seq<string>)
      ensures unique == Unique(keys)
    {
      var seen: set<string> := {};
      unique := [];
      for i := 0 to |keys|
        invariant unique == Unique(keys[..i])
        invariant forall k :: k in seen <==> k in unique
      {
        assert keys[..i + 1][..i] == keys[..i];
        if keys[i] !in seen {
          seen := seen + {keys[i]};
          unique := unique + [keys[i]];
        }
      }
      assert keys[..|keys|] == keys;
    }

    method Group(rows: seq<Json>) returns (groups: Groups)
      ensures groups == Grouped(render, rows, resultKey.GetOr(batchBy))
    {
      var column := resultKey.GetOr(batchBy);
      groups := map[];
      for i := 0 to |rows|
        invariant groups == Grouped(render, rows[..i], column)
      {
        var key := KeyIn(render, rows[i], column);
        GroupedGrows(render, rows[..i], rows[i], column);
        assert rows[..i + 1] == rows[..i] + [rows[i]];
        groups := groups[key := (if key in groups then groups[key] else []) + [rows[i]]];
      }
      assert rows[..|rows|] == rows;
    }

    /** An execution that already succeeded is not repeated. */
    method Execute(run: Runner, now: nat, later: nat) returns (r: Result<(), QueryError>)
      requires Valid()
      modifies this`resolved, this`cached, globalCache
      ensures Valid()
      ensures old(resolved) ==> r == Ok(()) && resolved && cached == old(cached) && Inner() == old(Inner())
      ensures !old(resolved) ==>
                var (loaded, inner) := Load(render, run, if globalCache == null then 0 else globalCache.ttl, old(Inner()),
                                            sql, batchBy, resultKey, keys, now, later);
                && Inner() == inner
                && match loaded
                   case Ok(groups) => r == Ok(()) && resolved && cached == groups
                   case Err(e) => r == Err(e) && !resolved
    {
      if resolved {
        return Ok(());
      }
      var unique := UniqueKeys();
      if |unique| == 0 {
        resolved := true;
        return Ok(());
      }
      if globalCache != null {
        var hit := globalCache.Get(sql, batchBy, unique, now);
        if hit.Some? {
          cached, resolved := hit.value, true;
          return Ok(());
        }
      }
      var rows := run(sql, unique);
      if rows.Err? {
        return Err(rows.error);
      }
      var groups := Group(rows.value);
      cached := groups;
      if globalCache != null {
        globalCache.Insert(sql, batchBy, groups, later);
      }
      resolved := true;
      r := Ok(());
    }

    method GetChildren(key: string) returns (children: seq<Json>)
      ensures children == ChildrenIn(cached, key)
    {
      children := if key in cached then cached[key] else [];
    }
  }

  lemma {:induction false} GroupedGrows(render: Render, rows: seq<Json>, row: Json, column: string)
    ensures var groups, key := Grouped(render, rows, column), KeyIn(render, row, column);
            Grouped(render, rows + [row], column) == groups[key := ChildrenIn(groups, key) + [row]]
  {
    var groups, key := Grouped(render, rows, column), KeyIn(render, row, column);
    KeysGrow(render, rows, row, column);
    ChildrenGrouped(render, rows, column, key);
    assert (rows + [row])[..|rows|] == rows;
  }

  // ── A runner that filters by key ──────────────────────────────────────────

  /** The rows whose key is among `keys`, in their order. */
  function Selected(render: Render, rows: seq<Json>, column: string, keys: seq<string>): seq<Json> {
    if rows == [] then []
    else
      var init := Selected(render, rows[..|rows| - 1], column, keys);
      if KeyIn(render, rows[|rows| - 1], column) in keys then init + [rows[|rows| - 1]] else init
  }

  /** Over unchanging `rows`, the SQL selects exactly by key, in a stable order. */
  ghost predicate Filters(render: Render, run: Runner, sql: string, column: string, rows: seq<Json>) {
    forall keys :: run(sql, keys) == Ok(Selected(render, rows, column, keys))
  }

  lemma {:induction false} SelectedWith(render: Render, rows: seq<Json>, column: string, keys: seq<string>, key: string)
    ensures RowsWith(render, Selected(render, rows, column, keys), column, key)
         == if key in keys then RowsWith(render, rows, column, key) else []
  {
    if rows != [] {
      var init, row := rows[..|rows| - 1], rows[|rows| - 1];
      SelectedWith(render, init, column, keys, key);
      if KeyIn(render, row, column) in keys {
        var selected := Selected(render, init, column, keys) + [row];
        assert selected[..|selected| - 1] == Selected(render, init, column, keys);
      }
    }
  }

  lemma {:induction false} SelectedOne(render: Render, rows: seq<Json>, column: string, key: string)
    ensures Selected(render, rows, column, [key]) == RowsWith(render, rows, column, key)
  {
    if rows != [] {
      SelectedOne(render, rows[..|rows| - 1], column, key);
    }
  }

  /** The rows behind each piece of SQL; what the cache holds for a filtering query comes from them. */
  type Data = string -> seq<Json>

  ghost predicate AllFilter(render: Render, run: Runner, data: Data, pairs: set<(string, string)>) {
    forall pair <- pairs :: Filters(render, run, pair.0, pair.1, data(pair.0))
  }

  /** The same for queries that may fail: when there is an answer, it is this one. */
  ghost predicate FiltersOrFails(render: Render, run: Runner, sql: string, column: string, rows: seq<Json>) {
    forall keys :: run(sql, keys).Ok? ==> run(sql, keys) == Ok(Selected(render, rows, column, keys))
  }

  ghost predicate AllFilterOrFail(render: Render, run: Runner, data: Data, pairs: set<(string, string)>) {
    forall pair <- pairs :: FiltersOrFails(render, run, pair.0, pair.1, data(pair.0))
  }

  ghost predicate Coherent(render: Render, data: Data, pairs: set<(string, string)>, inner: Option<CacheMap>) {
    inner.Some? ==>
      forall pair, key :: pair in pairs && pair in inner.value && key in inner.value[pair].children ==>
        inner.value[pair].children[key] == RowsWith(render, data(pair.0), pair.1, key)
  }

  /**
    One execution over unchanging data, if it gets an answer: the children of
    every key are those of the data if the key was asked for and none
    otherwise, whether they come from the cache or from a query. The cache
    stays true to the data in any case.
   */
  lemma {:induction false} LoadTrue(render: Render, run: Runner, ttl: nat, inner: Option<CacheMap>, data: Data,
      pairs: set<(string, string)>, sql: string, batchBy: string, keys: seq<string>, now: nat, later: nat)
    requires AllFilterOrFail(render, run, data, pairs) && Coherent(render, data, pairs, inner) && (sql, batchBy) in pairs
    ensures var (loaded, inner') := Load(render, run, ttl, inner, sql, batchBy, None, keys, now, later);
            && Coherent(render, data, pairs, inner') && inner'.Some? == inner.Some?
            && (loaded.Ok? ==>
                  forall key :: ChildrenIn(loaded.value, key)
                             == if key in keys then RowsWith(render, data(sql), batchBy, key) else [])
  {
    var unique := Unique(keys);
    var (loaded, inner') := Load(render, run, ttl, inner, sql, batchBy, None, keys, now, later);
    assert FiltersOrFails(render, run, (sql, batchBy).0, (sql, batchBy).1, data(sql));
    forall key ensures ChildrenIn(Grouped(render, Selected(render, data(sql), batchBy, unique), batchBy), key)
                    == if key in keys then RowsWith(render, data(sql), batchBy, key) else []
    {
      ChildrenGrouped(render, Selected(render, data(sql), batchBy, unique), batchBy, key);
      SelectedWith(render, data(sql), batchBy, unique, key);
      NoRowsWithout(render, Selected(render, data(sql), batchBy, unique), batchBy, key);
    }
    if unique == [] {
      assert forall key :: key !in keys;
    } else if inner.Some? && CacheGet(ttl, inner.value, sql, batchBy, unique, now).Some? {
      LookupExactly(inner.value[(sql, batchBy)].children, unique);
    } else if run(sql, unique).Ok? {
      LoadedCoherent(render, data, pairs, inner, sql, batchBy, unique, later);
    }
  }

  /** When no query fails there always is an answer. */
  lemma {:induction false} LoadExact(render: Render, run: Runner, ttl: nat, inner: Option<CacheMap>, data: Data,
      pairs: set<(string, string)>, sql: string, batchBy: string, keys: seq<string>, now: nat, later: nat)
    requires AllFilter(render, run, data, pairs) && Coherent(render, data, pairs, inner) && (sql, batchBy) in pairs
    ensures var (loaded, inner') := Load(render, run, ttl, inner, sql, batchBy, None, keys, now, later);
            && loaded.Ok? && Coherent(render, data, pairs, inner') && inner'.Some? == inner.Some?
            && forall key :: ChildrenIn(loaded.value, key)
                          == if key in keys then RowsWith(render, data(sql), batchBy, key) else []
  {
    assert Filters(render, run, (sql, batchBy).0, (sql, batchBy).1, data(sql));
    forall pair | pair in pairs ensures FiltersOrFails(render, run, pair.0, pair.1, data(pair.0)) {
      assert Filters(render, run, pair.0, pair.1, data(pair.0));
    }
    LoadTrue(render, run, ttl, inner, data, pairs, sql, batchBy, keys, now, later);
  }

  lemma {:induction false} LoadedCoherent(render: Render, data: Data, pairs: set<(string, string)>,
      inner: Option<CacheMap>,
      sql: string, batchBy: string, unique: seq<string>, later: nat)
    requires inner.Some? ==> Coherent(render, data, pairs, inner)
    ensures var groups := Grouped(render, Selected(render, data(sql), batchBy, unique), batchBy);
            inner.Some? ==> Coherent(render, data, pairs, Some(inner.value[(sql, batchBy) := CacheEntry(groups, later)]))
  {
    var rows := Selected(render, data(sql), batchBy, unique);
    var groups := Grouped(render, rows, batchBy);
    forall key | key in groups ensures groups[key] == RowsWith(render, data(sql), batchBy, key) {
      SelectedWith(render, data(sql), batchBy, unique, key);
      NoRowsWithout(render, rows, batchBy, key);
    }
  }
}
