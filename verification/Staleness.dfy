/** Many loaders over one cache: on data that stays and on data that changes. */
module Staleness {
  import opened Wrappers
  import opened Json
  import opened Loader

  // ── Data that stays ───────────────────────────────────────────────────────

  datatype Use =
    | Exec(sql: string, batchBy: string, keys: seq<string>, now: nat, later: nat)
    | Evict(now: nat)

  /** What each execution gave, in order; with no cache when `inner` is absent. */
  function Results(render: Render, run: Runner, ttl: nat, inner: Option<CacheMap>, uses: seq<Use>): seq<Result<Groups, QueryError>>
    decreases |uses|
  {
    if uses == [] then []
    else
      match uses[0]
      case Evict(now) =>
        Results(render, run, ttl, if inner.Some? then Some(Evicted(ttl, inner.value, now)) else None, uses[1..])
      case Exec(sql, batchBy, keys, now, later) =>
        var (loaded, inner') := Load(render, run, ttl, inner, sql, batchBy, None, keys, now, later);
        [loaded] + Results(render, run, ttl, inner', uses[1..])
  }

  ghost predicate SameChildren(a: seq<Result<Groups, QueryError>>, b: seq<Result<Groups, QueryError>>) {
    && |a| == |b|
    && forall i :: 0 <= i < |a| ==>
         a[i].Ok? && b[i].Ok? && forall key :: ChildrenIn(a[i].value, key) == ChildrenIn(b[i].value, key)
  }

  /**
    Over unchanging data that queries filter by key, any sequence of
    executions and evictions gives the same children with a cache as without.
   */
  lemma {:induction false} CacheTransparent(render: Render, run: Runner, ttl: nat, inner: CacheMap, data: Data,
      pairs: set<(string, string)>, uses: seq<Use>)
    requires AllFilter(render, run, data, pairs) && Coherent(render, data, pairs, Some(inner))
    requires forall i :: 0 <= i < |uses| && uses[i].Exec? ==> (uses[i].sql, uses[i].batchBy) in pairs
    ensures SameChildren(Results(render, run, ttl, Some(inner), uses), Results(render, run, ttl, None, uses))
    decreases |uses|
  {
    if uses != [] {
      assert forall i :: 0 <= i < |uses[1..]| ==> uses[1..][i] == uses[i + 1];
      match uses[0]
      case Evict(now) =>
        CacheTransparent(render, run, ttl, Evicted(ttl, inner, now), data, pairs, uses[1..]);
      case Exec(sql, batchBy, keys, now, later) =>
        LoadExact(render, run, ttl, Some(inner), data, pairs, sql, batchBy, keys, now, later);
        LoadExact(render, run, ttl, None, data, pairs, sql, batchBy, keys, now, later);
        var inner' := Load(render, run, ttl, Some(inner), sql, batchBy, None, keys, now, later).1;
        CacheTransparent(render, run, ttl, inner'.value, data, pairs, uses[1..]);
        SameChildrenGrow(
          Load(render, run, ttl, Some(inner), sql, batchBy, None, keys, now, later).0,
          Load(render, run, ttl, None, sql, batchBy, None, keys, now, later).0,
          Results(render, run, ttl, inner', uses[1..]), Results(render, run, ttl, None, uses[1..]));
    }
  }

  lemma {:induction false} SameChildrenGrow(x: Result<Groups, QueryError>, y: Result<Groups, QueryError>,
      a: seq<Result<Groups, QueryError>>, b: seq<Result<Groups, QueryError>>)
    requires x.Ok? && y.Ok? && forall key :: ChildrenIn(x.value, key) == ChildrenIn(y.value, key)
    requires SameChildren(a, b)
    ensures SameChildren([x] + a, [y] + b)
  {
  }

  // ── Data that changes ─────────────────────────────────────────────────────

  /** A result on its way from a query, made at the instant `asked`, to the cache. */
  datatype Flight = Flight(sql: string, batchBy: string, asked: nat, version: nat, keys: seq<string>, groups: Groups)

  datatype Stored = Stored(flight: Flight, at: nat)

  datatype Hit = Hit(sql: string, batchBy: string, keys: seq<string>, groups: Groups, at: nat, storedBefore: nat)

  /**
    `changed` holds the instants at which the data changed: version `v` of it
    was there until `changed[v]`. `stored` and `hits` record what the cache
    took and gave.
   */
  datatype World = World(
    clock: nat, changed: seq<nat>, inner: CacheMap, flights: seq<Flight>, stored: seq<Stored>, hits: seq<Hit>)

  /** The steps of any number of loaders, each reading, querying and writing when it gets to it. */
  datatype Step =
    | Wait(now: nat)
    | Change
    | Read(sql: string, batchBy: string, keys: seq<string>)
    | Query(sql: string, batchBy: string, keys: seq<string>)
    | Write(i: nat)
    | Sweep

  predicate Enabled(w: World, s: Step) {
    match s
    case Wait(now) => w.clock <= now
    case Write(i) => i < |w.flights|
    case _ => true
  }

  /** `runs` gives the database at each version. */
  function Apply(render: Render, runs: nat -> Runner, ttl: nat, w: World, s: Step): World
    requires Enabled(w, s)
  {
    match s
    case Wait(now) => w.(clock := now)
    case Change => w.(changed := w.changed + [w.clock])
    case Read(sql, batchBy, keys) =>
      var hit := CacheGet(ttl, w.inner, sql, batchBy, keys, w.clock);
      if hit.Some? then w.(hits := w.hits + [Hit(sql, batchBy, keys, hit.value, w.clock, |w.stored|)]) else w
    case Query(sql, batchBy, keys) =>
      var rows := runs(|w.changed|)(sql, keys);
      if rows.Err? then w
      else
        var groups := Grouped(render, rows.value, batchBy);
        w.(flights := w.flights + [Flight(sql, batchBy, w.clock, |w.changed|, keys, groups)])
    case Write(i) =>
      var f := w.flights[i];
      w.(inner := w.inner[(f.sql, f.batchBy) := CacheEntry(f.groups, w.clock)], stored := w.stored + [Stored(f, w.clock)])
    case Sweep => w.(inner := Evicted(ttl, w.inner, w.clock))
  }

  function RunAll(render: Render, runs: nat -> Runner, ttl: nat, w: World, steps: seq<Step>): Option<World>
    decreases |steps|
  {
    if steps == [] then Some(w)
    else if !Enabled(w, steps[0]) then None
    else RunAll(render, runs, ttl, Apply(render, runs, ttl, w, steps[0]), steps[1..])
  }

  function Init(): World {
    World(0, [], map[], [], [], [])
  }

  /** A flight carries the answer of one query to the data as it was at one version. */
  ghost predicate Answers(render: Render, runs: nat -> Runner, f: Flight) {
    var rows := runs(f.version)(f.sql, f.keys);
    rows.Ok? && f.groups == Grouped(render, rows.value, f.batchBy)
  }

  /** Entry number `n` is the last one stored for its SQL and column, among the first `count`. */
  ghost predicate Latest(stored: seq<Stored>, n: nat, count: nat, sql: string, batchBy: string) {
    && n < count <= |stored|
    && stored[n].flight.sql == sql && stored[n].flight.batchBy == batchBy
    && forall m :: n < m < count ==> (stored[m].flight.sql, stored[m].flight.batchBy) != (sql, batchBy)
  }

  /** The children of all requested keys come from the same stored answer, no older than the time to live. */
  ghost predicate FromOneSnapshot(render: Render, runs: nat -> Runner, ttl: nat, stored: seq<Stored>, h: Hit) {
    exists n: nat ::
      && Latest(stored, n, h.storedBefore, h.sql, h.batchBy)
      && stored[n].at <= h.at <= stored[n].at + ttl
      && Answers(render, runs, stored[n].flight)
      && forall key <- h.keys ::
           key in h.groups && h.groups[key] != [] &&
           h.groups[key] == RowsWith(render, runs(stored[n].flight.version)(h.sql, stored[n].flight.keys).value, h.batchBy, key)
  }

  ghost predicate EntriesStored(w: World) {
    forall pair :: pair in w.inner ==>
      exists n: nat :: Latest(w.stored, n, |w.stored|, pair.0, pair.1) &&
                       w.inner[pair] == CacheEntry(w.stored[n].flight.groups, w.stored[n].at)
  }

  ghost predicate Inv(render: Render, runs: nat -> Runner, ttl: nat, w: World) {
    && (forall i :: 0 <= i < |w.flights| ==> Answers(render, runs, w.flights[i]))
    && (forall n :: 0 <= n < |w.stored| ==> Answers(render, runs, w.stored[n].flight) && w.stored[n].at <= w.clock)
    && EntriesStored(w)
    && (forall i :: 0 <= i < |w.hits| ==> FromOneSnapshot(render, runs, ttl, w.stored, w.hits[i]))
  }

  lemma {:induction false} ReadInv(render: Render, runs: nat -> Runner, ttl: nat, w: World, sql: string,
      batchBy: string, keys: seq<string>)
    requires Inv(render, runs, ttl, w)
    ensures Inv(render, runs, ttl, Apply(render, runs, ttl, w, Read(sql, batchBy, keys)))
  {
    var hit := CacheGet(ttl, w.inner, sql, batchBy, keys, w.clock);
    if hit.Some? {
      var n: nat :| Latest(w.stored, n, |w.stored|, sql, batchBy) &&
                    w.inner[(sql, batchBy)] == CacheEntry(w.stored[n].flight.groups, w.stored[n].at);
      LookupExactly(w.stored[n].flight.groups, keys);
      var f := w.stored[n].flight;
      var h := Hit(sql, batchBy, keys, hit.value, w.clock, |w.stored|);
      assert Answers(render, runs, f);
      forall key | key in keys
        ensures key in h.groups && h.groups[key] != []
        ensures h.groups[key] == RowsWith(render, runs(f.version)(sql, f.keys).value, batchBy, key)
      {
        NoRowsWithout(render, runs(f.version)(sql, f.keys).value, batchBy, key);
      }
      assert FromOneSnapshot(render, runs, ttl, w.stored, h);
    }
  }

  lemma {:induction false} WriteInv(render: Render, runs: nat -> Runner, ttl: nat, w: World, i: nat)
    requires Inv(render, runs, ttl, w) && i < |w.flights|
    ensures Inv(render, runs, ttl, Apply(render, runs, ttl, w, Write(i)))
  {
    var f := w.flights[i];
    var w' := Apply(render, runs, ttl, w, Write(i));
    forall pair | pair in w'.inner
      ensures exists n: nat :: Latest(w'.stored, n, |w'.stored|, pair.0, pair.1) &&
                               w'.inner[pair] == CacheEntry(w'.stored[n].flight.groups, w'.stored[n].at)
    {
      if pair == (f.sql, f.batchBy) {
        assert Latest(w'.stored, |w.stored|, |w'.stored|, f.sql, f.batchBy);
      } else {
        var n: nat :| Latest(w.stored, n, |w.stored|, pair.0, pair.1) &&
                      w.inner[pair] == CacheEntry(w.stored[n].flight.groups, w.stored[n].at);
        assert Latest(w'.stored, n, |w'.stored|, pair.0, pair.1);
      }
    }
    forall k | 0 <= k < |w.hits| ensures FromOneSnapshot(render, runs, ttl, w'.stored, w.hits[k]) {
      SnapshotStays(render, runs, ttl, w.stored, Stored(f, w.clock), w.hits[k]);
    }
  }

  lemma {:induction false} SnapshotStays(render: Render, runs: nat -> Runner, ttl: nat, stored: seq<Stored>,
      more: Stored, h: Hit)
    requires FromOneSnapshot(render, runs, ttl, stored, h)
    ensures FromOneSnapshot(render, runs, ttl, stored + [more], h)
  {
    var n: nat :| && Latest(stored, n, h.storedBefore, h.sql, h.batchBy)
                  && stored[n].at <= h.at <= stored[n].at + ttl
                  && Answers(render, runs, stored[n].flight)
                  && forall key <- h.keys ::
                       key in h.groups && h.groups[key] != [] &&
                       h.groups[key] == RowsWith(render, runs(stored[n].flight.version)(h.sql, stored[n].flight.keys).value, h.batchBy, key);
    assert Latest(stored + [more], n, h.storedBefore, h.sql, h.batchBy);
  }

  lemma {:induction false} SweepInv(render: Render, runs: nat -> Runner, ttl: nat, w: World)
    requires Inv(render, runs, ttl, w)
    ensures Inv(render, runs, ttl, Apply(render, runs, ttl, w, Sweep))
  {
  }

  lemma {:induction false} StepInv(render: Render, runs: nat -> Runner, ttl: nat, w: World, s: Step)
    requires Inv(render, runs, ttl, w) && Enabled(w, s)
    ensures Inv(render, runs, ttl, Apply(render, runs, ttl, w, s))
  {
    match s
    case Wait(now) =>
    case Change =>
    case Read(sql, batchBy, keys) => ReadInv(render, runs, ttl, w, sql, batchBy, keys);
    case Query(sql, batchBy, keys) =>
    case Write(i) => WriteInv(render, runs, ttl, w, i);
    case Sweep => SweepInv(render, runs, ttl, w);
  }

  /**
    However the reads, queries and writes of many loaders interleave with
    changes of the data, every hit gives, for all the keys asked for, the rows
    of one query over one state of the data, from the entry stored last for
    its SQL and column, and that entry is no older than the time to live.
   */
  lemma {:induction false} HitsBounded(render: Render, runs: nat -> Runner, ttl: nat, w: World, steps: seq<Step>)
    requires Inv(render, runs, ttl, w) && RunAll(render, runs, ttl, w, steps).Some?
    ensures Inv(render, runs, ttl, RunAll(render, runs, ttl, w, steps).value)
    decreases |steps|
  {
    if steps != [] {
      StepInv(render, runs, ttl, w, steps[0]);
      HitsBounded(render, runs, ttl, Apply(render, runs, ttl, w, steps[0]), steps[1..]);
    }
  }

  lemma {:induction false} EveryHit(render: Render, runs: nat -> Runner, ttl: nat, steps: seq<Step>, i: nat)
    requires RunAll(render, runs, ttl, Init(), steps).Some?
    requires i < |RunAll(render, runs, ttl, Init(), steps).value.hits|
    ensures var w := RunAll(render, runs, ttl, Init(), steps).value; FromOneSnapshot(render, runs, ttl, w.stored, w.hits[i])
  {
    HitsBounded(render, runs, ttl, Init(), steps);
  }

  // ── How far behind a hit can be ───────────────────────────────────────────

  /** Queries and writes take place in the time of the run, and a query sees the data of its instant. */
  ghost predicate Timed(w: World, f: Flight) {
    && f.asked <= w.clock && f.version <= |w.changed|
    && (f.version < |w.changed| ==> f.asked <= w.changed[f.version])
  }

  ghost predicate AllTimed(w: World) {
    && (forall i :: 0 <= i < |w.flights| ==> Timed(w, w.flights[i]))
    && (forall n :: 0 <= n < |w.stored| ==> Timed(w, w.stored[n].flight) && w.stored[n].flight.asked <= w.stored[n].at)
  }

  lemma {:induction false} RunTimed(render: Render, runs: nat -> Runner, ttl: nat, w: World, steps: seq<Step>)
    requires AllTimed(w) && RunAll(render, runs, ttl, w, steps).Some?
    ensures AllTimed(RunAll(render, runs, ttl, w, steps).value)
    decreases |steps|
  {
    if steps != [] {
      RunTimed(render, runs, ttl, Apply(render, runs, ttl, w, steps[0]), steps[1..]);
    }
  }

  /** Every write came at most `lag` after its query. */
  ghost predicate Prompt(lag: nat, stored: seq<Stored>) {
    forall n :: 0 <= n < |stored| ==> stored[n].at <= stored[n].flight.asked + lag
  }

  /** The data that hit `i` gave had been changed `behind` before it. */
  ghost predicate BehindBy(w: World, i: nat, behind: nat) {
    i < |w.hits| &&
    exists n: nat ::
      && Latest(w.stored, n, w.hits[i].storedBefore, w.hits[i].sql, w.hits[i].batchBy)
      && w.stored[n].flight.version < |w.changed|
      && w.changed[w.stored[n].flight.version] + behind == w.hits[i].at
  }

  /** Some run, with writes at most `lag` after their queries, has such a hit. */
  ghost predicate CanBeBehind(render: Render, runs: nat -> Runner, ttl: nat, lag: nat, behind: nat) {
    exists steps, i ::
      && RunAll(render, runs, ttl, Init(), steps).Some?
      && Prompt(lag, RunAll(render, runs, ttl, Init(), steps).value.stored)
      && BehindBy(RunAll(render, runs, ttl, Init(), steps).value, i, behind)
  }

  lemma {:induction false} NeverFurther(render: Render, runs: nat -> Runner, ttl: nat, lag: nat, steps: seq<Step>,
      i: nat, behind: nat)
    requires RunAll(render, runs, ttl, Init(), steps).Some?
    requires Prompt(lag, RunAll(render, runs, ttl, Init(), steps).value.stored)
    requires BehindBy(RunAll(render, runs, ttl, Init(), steps).value, i, behind)
    ensures behind <= ttl + lag
  {
    var w := RunAll(render, runs, ttl, Init(), steps).value;
    EveryHit(render, runs, ttl, steps, i);
    RunTimed(render, runs, ttl, Init(), steps);
    var h := w.hits[i];
    var n: nat :| && Latest(w.stored, n, h.storedBefore, h.sql, h.batchBy)
                  && w.stored[n].flight.version < |w.changed|
                  && w.changed[w.stored[n].flight.version] + behind == h.at;
    SnapshotAge(render, runs, ttl, w.stored, h, n);
    assert Timed(w, w.stored[n].flight);
  }

  lemma {:induction false} SnapshotAge(render: Render, runs: nat -> Runner, ttl: nat, stored: seq<Stored>, h: Hit, n: nat)
    requires FromOneSnapshot(render, runs, ttl, stored, h) && Latest(stored, n, h.storedBefore, h.sql, h.batchBy)
    ensures stored[n].at <= h.at <= stored[n].at + ttl
  {
  }

  /** Asked for this, the database has rows for every key. */
  ghost predicate Served(render: Render, run: Runner, sql: string, batchBy: string, keys: seq<string>) {
    && run(sql, keys).Ok? && Distinct(keys)
    && forall key <- keys :: key in Grouped(render, run(sql, keys).value, batchBy)
  }

  lemma {:induction false} RunOne(render: Render, runs: nat -> Runner, ttl: nat, w: World, s: Step, rest: seq<Step>)
    requires Enabled(w, s)
    ensures RunAll(render, runs, ttl, w, [s] + rest) == RunAll(render, runs, ttl, Apply(render, runs, ttl, w, s), rest)
  {
    assert ([s] + rest)[1..] == rest;
  }

  /** A query, a change of the data at once, and the write `pause` later. */
  function LateWrite(sql: string, batchBy: string, keys: seq<string>, pause: nat, rest: seq<Step>): seq<Step> {
    [Query(sql, batchBy, keys)] + ([Change] + ([Wait(pause)] + ([Write(0)] + rest)))
  }

  function Written(f: Flight, pause: nat): World {
    World(pause, [0], map[(f.sql, f.batchBy) := CacheEntry(f.groups, pause)], [f], [Stored(f, pause)], [])
  }

  lemma {:induction false} WritesLate(render: Render, runs: nat -> Runner, ttl: nat, f: Flight, pause: nat, rest: seq<Step>)
    requires f.asked == 0 && f.version == 0 && Answers(render, runs, f)
    ensures RunAll(render, runs, ttl, Init(), LateWrite(f.sql, f.batchBy, f.keys, pause, rest)) ==
            RunAll(render, runs, ttl, Written(f, pause), rest)
  {
    var w1 := World(0, [], map[], [f], [], []);
    var w2 := World(0, [0], map[], [f], [], []);
    assert Apply(render, runs, ttl, Init(), Query(f.sql, f.batchBy, f.keys)) == w1;
    RunOne(render, runs, ttl, Init(), Query(f.sql, f.batchBy, f.keys), [Change] + ([Wait(pause)] + ([Write(0)] + rest)));
    assert Apply(render, runs, ttl, w1, Change) == w2;
    RunOne(render, runs, ttl, w1, Change, [Wait(pause)] + ([Write(0)] + rest));
    RunOne(render, runs, ttl, w2, Wait(pause), [Write(0)] + rest);
    assert Apply(render, runs, ttl, w2.(clock := pause), Write(0)) == Written(f, pause);
    RunOne(render, runs, ttl, w2.(clock := pause), Write(0), rest);
  }

  /** A read `end` after the change. */
  lemma {:induction false} ReadsLate(render: Render, runs: nat -> Runner, ttl: nat, f: Flight, pause: nat, end: nat)
    requires f.asked == 0 && f.version == 0 && pause <= end <= pause + ttl
    requires Distinct(f.keys) && forall key <- f.keys :: key in f.groups
    ensures var r := RunAll(render, runs, ttl, Written(f, pause), [Wait(end)] + [Read(f.sql, f.batchBy, f.keys)]);
            r.Some? && Prompt(pause, r.value.stored) && BehindBy(r.value, 0, end)
  {
    var w := Written(f, pause).(clock := end);
    var read := Read(f.sql, f.batchBy, f.keys);
    LookupExactly(f.groups, f.keys);
    var w' := Apply(render, runs, ttl, w, read);
    RunOne(render, runs, ttl, Written(f, pause), Wait(end), [read]);
    assert [read] + [] == [read];
    RunOne(render, runs, ttl, w, read, []);
    assert Latest(w'.stored, 0, 1, f.sql, f.batchBy);
  }

  /**
    With writes at most `lag` after their queries, hits can be behind the data
    by just as much as the time to live and `lag` together: the time to live
    counts from the write. It alone is a bound exactly when `lag` is zero.
   */
  lemma {:induction false} BehindExactly(render: Render, runs: nat -> Runner, ttl: nat, lag: nat, behind: nat,
      sql: string, batchBy: string, keys: seq<string>)
    requires Served(render, runs(0), sql, batchBy, keys)
    ensures CanBeBehind(render, runs, ttl, lag, behind) <==> behind <= ttl + lag
  {
    if behind <= ttl + lag {
      var pause := if behind < lag then behind else lag;
      var f := Flight(sql, batchBy, 0, 0, keys, Grouped(render, runs(0)(sql, keys).value, batchBy));
      WritesLate(render, runs, ttl, f, pause, [Wait(behind)] + [Read(sql, batchBy, keys)]);
      ReadsLate(render, runs, ttl, f, pause, behind);
    }
    if CanBeBehind(render, runs, ttl, lag, behind) {
      var steps, i :| && RunAll(render, runs, ttl, Init(), steps).Some?
                      && Prompt(lag, RunAll(render, runs, ttl, Init(), steps).value.stored)
                      && BehindBy(RunAll(render, runs, ttl, Init(), steps).value, i, behind);
      NeverFurther(render, runs, ttl, lag, steps, i, behind);
    }
  }
}
