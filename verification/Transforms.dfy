/** Column drops and renames. */
module Transforms {
  import opened Wrappers
  import opened Event

  type Rename = (string, string)

  datatype TableTransform = TableTransform(dropCols: seq<string>, renames: seq<Rename>)

  type Entry = (TableKey, TableTransform)

  // ── One row ───────────────────────────────────────────────────────────────

  function DropCols(row: Row, drops: seq<string>): Row {
    map c | c in row && c !in drops :: row[c]
  }

  /** First phase: the old names leave the row, their values wait under the new names. */
  function Pull(row: Row, renames: seq<Rename>): (Row, seq<(string, ColVal)>)
    decreases |renames|
  {
    if renames == [] then (row, [])
    else
      var (from, to) := renames[0];
      if from in row then
        var (rest, pending) := Pull(row - {from}, renames[1..]);
        (rest, [(to, row[from])] + pending)
      else Pull(row, renames[1..])
  }

  /** Second phase: the waiting values enter the row. */
  function Put(row: Row, pending: seq<(string, ColVal)>): Row
    decreases |pending|
  {
    if pending == [] then row else Put(row[pending[0].0 := pending[0].1], pending[1..])
  }

  function TransformRow(row: Row, drops: seq<string>, renames: seq<Rename>): Row {
    var (rest, pending) := Pull(DropCols(row, drops), renames);
    Put(rest, pending)
  }

  method ApplyToRow(start: Row, drops: seq<string>, renames: seq<Rename>) returns (row: Row)
    ensures row == TransformRow(start, drops, renames)
  {
    row := start;
    for i := 0 to |drops|
      invariant row == DropCols(start, drops[..i])
    {
      row := row - {drops[i]};
    }
    assert drops[..|drops|] == drops;
    ghost var spec := Pull(row, renames);
    var pending: seq<(string, ColVal)> := [];
    assert pending + spec.1 == spec.1;
    for i := 0 to |renames|
      invariant spec == (Pull(row, renames[i..]).0, pending + Pull(row, renames[i..]).1)
    {
      var (from, to) := renames[i];
      assert renames[i..][1..] == renames[i + 1..];
      if from in row {
        ghost var later := Pull(row - {from}, renames[i + 1..]).1;
        assert pending + ([(to, row[from])] + later) == pending + [(to, row[from])] + later;
        pending := pending + [(to, row[from])];
        row := row - {from};
      }
    }
    assert pending + [] == pending;
    for i := 0 to |pending|
      invariant Put(row, pending[i..]) == TransformRow(start, drops, renames)
    {
      assert pending[i..][1..] == pending[i + 1..];
      row := row[pending[i].0 := pending[i].1];
    }
  }

  // ── Events ────────────────────────────────────────────────────────────────

  function TransformEvent(e: WalEvent, t: TableTransform): WalEvent {
    match e
    case Insert(relId, schema, table, row) =>
      Insert(relId, schema, table, TransformRow(row, t.dropCols, t.renames))
    case Update(relId, schema, table, before, row) =>
      var b := match before
               case Some(r) => Some(TransformRow(r, t.dropCols, t.renames))
               case None => None;
      Update(relId, schema, table, b, TransformRow(row, t.dropCols, t.renames))
    case Delete(relId, schema, table, row) =>
      Delete(relId, schema, table, TransformRow(row, t.dropCols, t.renames))
    case _ => e
  }

  function ApplyEntries(entries: seq<Entry>, e: WalEvent): WalEvent
    decreases |entries|
  {
    if entries == [] || !e.IsRow() then e
    else
      var (key, t) := entries[0];
      ApplyEntries(entries[1..], if Applies(key, e.schema, e.table) then TransformEvent(e, t) else e)
  }

  /** Transforms change rows, never what kind of event it is or which table it is for. */
  lemma {:induction false} TableKept(entries: seq<Entry>, e: WalEvent)
    ensures var r := ApplyEntries(entries, e);
            && r.Insert? == e.Insert? && r.Update? == e.Update? && r.Delete? == e.Delete?
            && (if e.IsRow() then r.schema == e.schema && r.table == e.table else r == e)
    decreases |entries|
  {
    if entries != [] && e.IsRow() {
      var (key, t) := entries[0];
      TableKept(entries[1..], if Applies(key, e.schema, e.table) then TransformEvent(e, t) else e);
    }
  }

  class ColumnTransforms {
    var entries: seq<Entry>

    constructor ()
      ensures entries == []
    {
      entries := [];
    }

    method Merge(key: TableKey, drops: seq<string>, renames: seq<Rename>)
      modifies this
      ensures entries == MergeInto(old(entries), key, drops, renames)
    {
      var i := 0;
      while i < |entries| && entries[i].0 != key
        invariant 0 <= i <= |entries|
        invariant MergeInto(entries, key, drops, renames) ==
                  entries[..i] + MergeInto(entries[i..], key, drops, renames)
      {
        assert entries[i..][1..] == entries[i + 1..];
        assert entries[..i] + [entries[i]] == entries[..i + 1];
        i := i + 1;
      }
      if i < |entries| {
        var t := entries[i].1;
        assert entries[i..][1..] == entries[i + 1..];
        entries := entries[i := (key, TableTransform(t.dropCols + drops, t.renames + renames))];
      } else {
        assert entries[..i] == entries;
        entries := entries + [(key, TableTransform(drops, renames))];
      }
    }

    method Apply(event: WalEvent) returns (r: WalEvent)
      ensures r == ApplyEntries(entries, event)
    {
      r := event;
      if !event.IsRow() {
        return;
      }
      for i := 0 to |entries|
        invariant r.IsRow() && ApplyEntries(entries[i..], r) == ApplyEntries(entries, event)
      {
        assert entries[i..][1..] == entries[i + 1..];
        var (key, t) := entries[i];
        if Applies(key, r.schema, r.table) {
          r := TransformEvent(r, t);
        }
      }
    }
  }

  // ── Merging ───────────────────────────────────────────────────────────────

  function MergeInto(entries: seq<Entry>, key: TableKey, drops: seq<string>, renames: seq<Rename>): seq<Entry> {
    if entries == [] then [(key, TableTransform(drops, renames))]
    else if entries[0].0 == key then
      var t := entries[0].1;
      [(key, TableTransform(t.dropCols + drops, t.renames + renames))] + entries[1..]
    else [entries[0]] + MergeInto(entries[1..], key, drops, renames)
  }

  /** One command-line or configuration rule. */
  datatype Arg = Arg(key: TableKey, drops: seq<string>, renames: seq<Rename>)

  function FromArgs(args: seq<Arg>): seq<Entry> {
    if args == [] then []
    else
      var a := args[|args| - 1];
      MergeInto(FromArgs(args[..|args| - 1]), a.key, a.drops, a.renames)
  }

  /** Everything given for `key`, in the order given. */
  function Collected(args: seq<Arg>, key: TableKey): TableTransform {
    if args == [] then TableTransform([], [])
    else
      var a, t := args[|args| - 1], Collected(args[..|args| - 1], key);
      if a.key == key then TableTransform(t.dropCols + a.drops, t.renames + a.renames) else t
  }

  function Lookup(entries: seq<Entry>, key: TableKey): Option<TableTransform> {
    if entries == [] then None
    else if entries[0].0 == key then Some(entries[0].1)
    else Lookup(entries[1..], key)
  }

  lemma {:induction false} LookupMerged(entries: seq<Entry>, key: TableKey, drops: seq<string>, renames: seq<Rename>,
      k: TableKey)
    ensures Lookup(MergeInto(entries, key, drops, renames), k) ==
            if k != key then Lookup(entries, k)
            else
              var t := Lookup(entries, k).GetOr(TableTransform([], []));
              Some(TableTransform(t.dropCols + drops, t.renames + renames))
  {
    if entries == [] {
      assert [] + drops == drops && [] + renames == renames;
    } else if entries[0].0 != key {
      LookupMerged(entries[1..], key, drops, renames, k);
    }
  }

  /** Each table, and the global rule, ends up with exactly what was given for it, in order. */
  lemma {:induction false} MergingCollects(args: seq<Arg>, key: TableKey)
    ensures Lookup(FromArgs(args), key).GetOr(TableTransform([], [])) == Collected(args, key)
    ensures Lookup(FromArgs(args), key).Some? <==> exists i :: 0 <= i < |args| && args[i].key == key
  {
    if args != [] {
      var n := |args| - 1;
      MergingCollects(args[..n], key);
      LookupMerged(FromArgs(args[..n]), args[n].key, args[n].drops, args[n].renames, key);
      assert forall i :: 0 <= i < n ==> args[i] == args[..n][i];
    }
  }

  ghost predicate OneEach(entries: seq<Entry>) {
    forall i, j :: 0 <= i < j < |entries| ==> entries[i].0 != entries[j].0
  }

  /** The keys stay where they are, and a new one comes last. */
  ghost predicate KeysThen(entries: seq<Entry>, key: TableKey, merged: seq<Entry>) {
    && |entries| <= |merged| <= |entries| + 1
    && (forall i :: 0 <= i < |entries| ==> merged[i].0 == entries[i].0)
    && (|merged| > |entries| <==> forall i :: 0 <= i < |entries| ==> entries[i].0 != key)
    && (|merged| > |entries| ==> merged[|entries|].0 == key)
  }

  lemma {:induction false} MergedOnce(entries: seq<Entry>, key: TableKey, drops: seq<string>, renames: seq<Rename>)
    ensures KeysThen(entries, key, MergeInto(entries, key, drops, renames))
  {
    if entries != [] && entries[0].0 != key {
      MergedOnce(entries[1..], key, drops, renames);
      assert forall i :: 1 <= i < |entries| ==> entries[i] == entries[1..][i - 1];
    }
  }

  /** However the rules come, each key has one entry; more rules leave the keys where they are. */
  lemma {:induction false} OneEntryEach(args: seq<Arg>)
    ensures OneEach(FromArgs(args))
    ensures args != [] ==> KeysThen(FromArgs(args[..|args| - 1]), args[|args| - 1].key, FromArgs(args))
  {
    if args != [] {
      var n := |args| - 1;
      OneEntryEach(args[..n]);
      MergedOnce(FromArgs(args[..n]), args[n].key, args[n].drops, args[n].renames);
    }
  }

  // ── Renames as one simultaneous substitution ──────────────────────────────

  predicate IsSource(renames: seq<Rename>, c: string) {
    exists i :: 0 <= i < |renames| && renames[i].0 == c
  }

  ghost predicate Unambiguous(renames: seq<Rename>) {
    forall i, j :: 0 <= i < j < |renames| ==> renames[i].0 != renames[j].0 && renames[i].1 != renames[j].1
  }

  /** No new name is that of a column that keeps its name. */
  predicate NoCollision(row: Row, renames: seq<Rename>) {
    forall i :: 0 <= i < |renames| && renames[i].1 in row ==> IsSource(renames, renames[i].1)
  }

  function Renamed(renames: seq<Rename>, c: string): string {
    if renames == [] then c else if renames[0].0 == c then renames[0].1 else Renamed(renames[1..], c)
  }

  lemma {:induction false} RenamedAt(renames: seq<Rename>, c: string)
    requires Unambiguous(renames)
    ensures forall i :: 0 <= i < |renames| && renames[i].0 == c ==> Renamed(renames, c) == renames[i].1
    ensures !IsSource(renames, c) ==> Renamed(renames, c) == c
  {
    if renames != [] {
      RenamedAt(renames[1..], c);
      if !IsSource(renames, c) {
        assert renames[0].0 != c;
        assert forall i :: 0 <= i < |renames[1..]| ==> renames[1..][i] == renames[i + 1];
      }
    }
  }

  /** What waits is what the sources that are present held, in order. */
  function Waiting(row: Row, renames: seq<Rename>): seq<(string, ColVal)> {
    if renames == [] then []
    else (if renames[0].0 in row then [(renames[0].1, row[renames[0].0])] else []) + Waiting(row, renames[1..])
  }

  ghost predicate NamesDiffer(pending: seq<(string, ColVal)>) {
    forall i, j :: 0 <= i < j < |pending| ==> pending[i].0 != pending[j].0
  }

  ghost predicate IsWaiting(row: Row, renames: seq<Rename>, x: (string, ColVal)) {
    exists i :: 0 <= i < |renames| && renames[i].0 in row && x == (renames[i].1, row[renames[i].0])
  }

  lemma {:induction false} WaitingExact(row: Row, renames: seq<Rename>)
    ensures forall x :: x in Waiting(row, renames) <==> IsWaiting(row, renames, x)
  {
    if renames != [] {
      WaitingExact(row, renames[1..]);
      forall x ensures IsWaiting(row, renames, x) <==>
                       IsWaiting(row, renames[1..], x) ||
                       (renames[0].0 in row && x == (renames[0].1, row[renames[0].0])) {
        if IsWaiting(row, renames[1..], x) {
          var i :| 0 <= i < |renames[1..]| && renames[1..][i].0 in row &&
                   x == (renames[1..][i].1, row[renames[1..][i].0]);
          assert renames[i + 1] == renames[1..][i];
        }
        if IsWaiting(row, renames, x) {
          var i :| 0 <= i < |renames| && renames[i].0 in row && x == (renames[i].1, row[renames[i].0]);
          assert i > 0 ==> renames[1..][i - 1] == renames[i];
        }
      }
    }
  }

  lemma {:induction false} WaitingDistinct(row: Row, renames: seq<Rename>)
    requires Unambiguous(renames)
    ensures NamesDiffer(Waiting(row, renames))
  {
    if renames != [] {
      WaitingDistinct(row, renames[1..]);
      WaitingExact(row, renames[1..]);
      var later := Waiting(row, renames[1..]);
      forall i | 0 <= i < |later| ensures later[i].0 != renames[0].1 {
        assert later[i] in later;
        assert IsWaiting(row, renames[1..], later[i]);
      }
      var pending := Waiting(row, renames);
      if renames[0].0 in row {
        assert pending == [(renames[0].1, row[renames[0].0])] + later;
        assert forall j :: 1 <= j < |pending| ==> pending[j] == later[j - 1];
      } else {
        assert pending == later;
      }
    }
  }

  lemma {:induction false} WaitingSkips(row: Row, renames: seq<Rename>, c: string)
    requires forall i :: 0 <= i < |renames| ==> renames[i].0 != c
    ensures Waiting(row - {c}, renames) == Waiting(row, renames)
  {
    if renames != [] {
      WaitingSkips(row, renames[1..], c);
    }
  }

  lemma {:induction false} SourceFirst(renames: seq<Rename>, c: string)
    requires renames != []
    ensures IsSource(renames, c) <==> c == renames[0].0 || IsSource(renames[1..], c)
  {
    if i :| 0 <= i < |renames[1..]| && renames[1..][i].0 == c {
      assert renames[i + 1].0 == c;
    }
    if i :| 0 <= i < |renames| && renames[i].0 == c && i > 0 {
      assert renames[1..][i - 1].0 == c;
    }
  }

  /** The first phase takes out exactly the sources that are present. */
  lemma {:induction false} PullExact(row: Row, renames: seq<Rename>)
    requires Unambiguous(renames)
    ensures Pull(row, renames).0 == map c | c in row && !IsSource(renames, c) :: row[c]
    ensures Pull(row, renames).1 == Waiting(row, renames)
    decreases |renames|
  {
    if renames == [] {
      assert forall c :: !IsSource(renames, c);
    } else {
      var from := renames[0].0;
      var row1 := if from in row then row - {from} else row;
      PullExact(row1, renames[1..]);
      WaitingSkips(row, renames[1..], from);
      forall c ensures IsSource(renames, c) <==> c == from || IsSource(renames[1..], c) {
        SourceFirst(renames, c);
      }
    }
  }

  lemma {:induction false} PutExact(row: Row, pending: seq<(string, ColVal)>)
    requires NamesDiffer(pending)
    ensures var r := Put(row, pending);
            && (forall x <- pending :: x.0 in r && r[x.0] == x.1)
            && (forall c :: c in r ==> c in row || exists x <- pending :: x.0 == c)
            && (forall c :: c in row && (forall x <- pending :: x.0 != c) ==> c in r && r[c] == row[c])
    decreases |pending|
  {
    if pending != [] {
      var (k, v) := pending[0];
      assert pending == [(k, v)] + pending[1..];
      assert forall x <- pending[1..] :: x.0 != k;
      PutExact(row[k := v], pending[1..]);
    }
  }

  /** No column that is there is moved onto one that is there and stays. */
  predicate NoOverwrite(row: Row, renames: seq<Rename>) {
    forall i :: 0 <= i < |renames| && renames[i].0 in row && renames[i].1 in row ==> IsSource(renames, renames[i].1)
  }

  /** `r` is `row` with its columns renamed all at once, none lost and none made up. */
  ghost predicate Simultaneous(row: Row, renames: seq<Rename>, r: Row) {
    && (forall c :: c in row ==> Renamed(renames, c) in r && r[Renamed(renames, c)] == row[c])
    && (forall d :: d in r ==> exists c :: c in row && Renamed(renames, c) == d)
    && (forall b, c :: b in row && c in row && Renamed(renames, b) == Renamed(renames, c) ==> b == c)
  }

  /** The two phases rename all columns at once, cycles and chains included, exactly when nothing is overwritten. */
  lemma {:induction false} SimultaneousExactly(row: Row, renames: seq<Rename>)
    requires Unambiguous(renames)
    ensures Simultaneous(row, renames, TransformRow(row, [], renames)) <==> NoOverwrite(row, renames)
  {
    if NoOverwrite(row, renames) {
      RenamesAreSimultaneous(row, renames);
    }
    if i :| 0 <= i < |renames| && renames[i].0 in row && renames[i].1 in row && !IsSource(renames, renames[i].1) {
      RenamedAt(renames, renames[i].0);
      RenamedAt(renames, renames[i].1);
      assert IsSource(renames, renames[i].0);
      assert Renamed(renames, renames[i].0) == Renamed(renames, renames[i].1);
    }
  }

  lemma {:induction false} RenamesAreSimultaneous(row: Row, renames: seq<Rename>)
    requires Unambiguous(renames) && NoOverwrite(row, renames)
    ensures Simultaneous(row, renames, TransformRow(row, [], renames))
  {
    assert DropCols(row, []) == row;
    var (rest, pending) := Pull(row, renames);
    var r := Put(rest, pending);
    PullExact(row, renames);
    WaitingExact(row, renames);
    WaitingDistinct(row, renames);
    PutExact(rest, pending);
    forall c { RenamedAt(renames, c); }
    forall c | c in row ensures Renamed(renames, c) in r && r[Renamed(renames, c)] == row[c] {
      if IsSource(renames, c) {
        var i :| 0 <= i < |renames| && renames[i].0 == c;
        assert IsWaiting(row, renames, (renames[i].1, row[c]));
      } else {
        NoTarget(row, renames, c);
        assert forall x <- pending :: IsWaiting(row, renames, x);
      }
    }
    forall d | d in r ensures exists c :: c in row && Renamed(renames, c) == d {
      if exists x <- pending :: x.0 == d {
        var x :| x in pending && x.0 == d;
        assert IsWaiting(row, renames, x);
        var i :| 0 <= i < |renames| && renames[i].0 in row && x == (renames[i].1, row[renames[i].0]);
        assert Renamed(renames, renames[i].0) == d;
      } else {
        assert Renamed(renames, d) == d;
      }
    }
    forall b, c | b in row && c in row && Renamed(renames, b) == Renamed(renames, c) ensures b == c {
      if !IsSource(renames, b) { NoTarget(row, renames, b); }
      if !IsSource(renames, c) { NoTarget(row, renames, c); }
    }
  }

  lemma {:induction false} NoTarget(row: Row, renames: seq<Rename>, c: string)
    requires NoOverwrite(row, renames) && c in row && !IsSource(renames, c)
    ensures forall i :: 0 <= i < |renames| && renames[i].0 in row ==> renames[i].1 != c
  {
  }

  function Inverse(renames: seq<Rename>): seq<Rename> {
    seq(|renames|, i requires 0 <= i < |renames| => (renames[i].1, renames[i].0))
  }

  /** No new name is taken when renaming back. */
  lemma {:induction false} NoCollisionBack(row: Row, renames: seq<Rename>, r: Row)
    requires Unambiguous(renames) && NoCollision(row, renames) && Simultaneous(row, renames, r)
    ensures Unambiguous(Inverse(renames)) && NoOverwrite(r, Inverse(renames))
  {
    var inverse := Inverse(renames);
    forall i | 0 <= i < |inverse| && inverse[i].1 in r ensures IsSource(inverse, inverse[i].1) {
      var d := inverse[i].1;
      var c :| c in row && Renamed(renames, c) == d;
      RenamedAt(renames, c);
      assert renames[i].0 == d;
      assert IsSource(renames, c);
      var j :| 0 <= j < |renames| && renames[j].0 == c;
      assert inverse[j].0 == d;
    }
  }

  lemma {:induction false} RenamingBack(row: Row, renames: seq<Rename>)
    requires Unambiguous(renames) && NoCollision(row, renames)
    ensures TransformRow(TransformRow(row, [], renames), [], Inverse(renames)) == row
  {
    var r := TransformRow(row, [], renames);
    RenamesAreSimultaneous(row, renames);
    NoCollisionBack(row, renames, r);
    RenamesAreSimultaneous(r, Inverse(renames));
    BackAgain(row, renames, r, TransformRow(r, [], Inverse(renames)));
  }

  lemma {:induction false} BackAgain(row: Row, renames: seq<Rename>, r: Row, back: Row)
    requires Unambiguous(renames) && NoCollision(row, renames)
    requires Simultaneous(row, renames, r) && Simultaneous(r, Inverse(renames), back)
    ensures back == row
  {
    forall c | c in row ensures Renamed(Inverse(renames), Renamed(renames, c)) == c {
      RenamedBack(row, renames, c);
    }
  }

  /** A source that is nobody's new name is gone afterwards. */
  lemma {:induction false} SourceGone(row: Row, renames: seq<Rename>, c: string)
    requires Unambiguous(renames) && IsSource(renames, c)
    requires forall i :: 0 <= i < |renames| ==> renames[i].1 != c
    ensures c !in TransformRow(row, [], renames)
  {
    assert DropCols(row, []) == row;
    var (rest, pending) := Pull(row, renames);
    PullExact(row, renames);
    WaitingExact(row, renames);
    WaitingDistinct(row, renames);
    PutExact(rest, pending);
    assert forall x <- pending :: IsWaiting(row, renames, x);
  }

  /** Renaming back restores the row exactly when no new name is that of a column that keeps its name. */
  lemma {:induction false} InverseRestores(row: Row, renames: seq<Rename>)
    requires Unambiguous(renames)
    ensures TransformRow(TransformRow(row, [], renames), [], Inverse(renames)) == row <==> NoCollision(row, renames)
  {
    if NoCollision(row, renames) {
      RenamingBack(row, renames);
    }
    if i :| 0 <= i < |renames| && renames[i].1 in row && !IsSource(renames, renames[i].1) {
      var inverse := Inverse(renames);
      assert inverse[i] == (renames[i].1, renames[i].0);
      assert forall j :: 0 <= j < |inverse| ==> inverse[j].1 == renames[j].0;
      SourceGone(TransformRow(row, [], renames), inverse, renames[i].1);
    }
  }

  lemma {:induction false} RenamedBack(row: Row, renames: seq<Rename>, c: string)
    requires Unambiguous(renames) && NoCollision(row, renames) && c in row
    ensures Renamed(Inverse(renames), Renamed(renames, c)) == c
  {
    var inverse := Inverse(renames);
    assert Unambiguous(inverse);
    RenamedAt(renames, c);
    if IsSource(renames, c) {
      var j :| 0 <= j < |renames| && renames[j].0 == c;
      assert inverse[j] == (renames[j].1, c);
      RenamedAt(inverse, renames[j].1);
    } else {
      NoTarget(row, renames, c);
      RenamedAt(inverse, c);
      assert forall j :: 0 <= j < |inverse| ==> inverse[j].0 == renames[j].1;
    }
  }
}
