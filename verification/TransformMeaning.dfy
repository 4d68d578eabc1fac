/** What drops and renames make of a row and of an event, column by column. */
module TransformMeaning {
  import opened Wrappers
  import opened Event
  import opened Transforms

  // ── One row ───────────────────────────────────────────────────────────────

  predicate Stays(row: Row, drops: seq<string>, c: string) {
    c in row && c !in drops
  }

  /** Rename `i` has a column to move: an earlier rename of the same column would have taken it. */
  predicate Moves(row: Row, drops: seq<string>, renames: seq<Rename>, i: nat) {
    i < |renames| && Stays(row, drops, renames[i].0) && forall j :: 0 <= j < i ==> renames[j].0 != renames[i].0
  }

  /** Rename `i` is the last to move a column to `d`. */
  ghost predicate LastInto(row: Row, drops: seq<string>, renames: seq<Rename>, i: nat, d: string) {
    && Moves(row, drops, renames, i) && renames[i].1 == d
    && forall j: nat :: i < j && Moves(row, drops, renames, j) ==> renames[j].1 != d
  }

  ghost predicate Filled(row: Row, drops: seq<string>, renames: seq<Rename>, d: string) {
    exists i: nat :: LastInto(row, drops, renames, i, d)
  }

  /**
    `r` is `row` without the dropped columns and with the others renamed: a
    column has what was moved to it last, or else what it had, if it neither
    was dropped nor is renamed; and there is no other.
   */
  ghost predicate Becomes(row: Row, t: TableTransform, r: Row) {
    forall d :: ColumnBecomes(row, t, r, d)
  }

  ghost predicate ColumnBecomes(row: Row, t: TableTransform, r: Row, d: string) {
    && (forall i: nat :: LastInto(row, t.dropCols, t.renames, i, d) ==> d in r && r[d] == row[t.renames[i].0])
    && (!Filled(row, t.dropCols, t.renames, d) ==>
          (d in r <==> Stays(row, t.dropCols, d) && !IsSource(t.renames, d)) && (d in r ==> r[d] == row[d]))
  }

  lemma {:induction false} MovesLater(row: Row, renames: seq<Rename>, i: nat)
    requires renames != []
    ensures var f := renames[0].0; Moves(row, [], renames, i + 1) <==> Moves(row - {f}, [], renames[1..], i)
  {
    if i + 1 < |renames| && forall j :: 0 <= j < i + 1 ==> renames[j].0 != renames[i + 1].0 {
      assert renames[0].0 != renames[i + 1].0;
      forall j | 0 <= j < i ensures renames[1..][j].0 != renames[1..][i].0 {
        assert renames[1..][j] == renames[j + 1];
      }
    }
    if Moves(row - {renames[0].0}, [], renames[1..], i) {
      forall j | 0 <= j < i + 1 ensures renames[j].0 != renames[i + 1].0 {
        assert j > 0 ==> renames[j] == renames[1..][j - 1];
      }
    }
  }

  lemma {:induction false} LastLater(row: Row, renames: seq<Rename>, i: nat, d: string)
    requires renames != []
    ensures var f := renames[0].0; LastInto(row, [], renames, i + 1, d) <==> LastInto(row - {f}, [], renames[1..], i, d)
  {
    var f := renames[0].0;
    MovesLater(row, renames, i);
    if LastInto(row, [], renames, i + 1, d) {
      forall j: nat | i < j && Moves(row - {f}, [], renames[1..], j) ensures renames[1..][j].1 != d {
        MovesLater(row, renames, j);
        assert renames[j + 1].1 != d;
      }
    }
    if LastInto(row - {f}, [], renames[1..], i, d) {
      forall j: nat | i + 1 < j && Moves(row, [], renames, j) ensures renames[j].1 != d {
        MovesLater(row, renames, j - 1);
        assert renames[1..][j - 1].1 != d;
      }
    }
  }

  lemma {:induction false} FilledFirst(row: Row, renames: seq<Rename>, d: string)
    requires renames != []
    ensures var (f, t) := renames[0]; var later := Filled(row - {f}, [], renames[1..], d);
            && (Filled(row, [], renames, d) <==> later || (f in row && t == d))
            && (LastInto(row, [], renames, 0, d) <==> f in row && t == d && !later)
  {
    var (f, t) := renames[0];
    assert Moves(row, [], renames, 0) <==> f in row;
    if i: nat :| LastInto(row - {f}, [], renames[1..], i, d) {
      LastLater(row, renames, i, d);
      assert Moves(row, [], renames, i + 1) && renames[i + 1].1 == d;
    } else {
      forall j: nat | 0 < j && Moves(row, [], renames, j) ensures renames[j].1 != d {
        MovesLater(row, renames, j - 1);
        if renames[1..][j - 1].1 == d {
          LastExists(row - {f}, renames[1..], j - 1, d);
        }
      }
      assert f in row && t == d ==> LastInto(row, [], renames, 0, d);
    }
    if i: nat :| LastInto(row, [], renames, i, d) {
      if i > 0 {
        LastLater(row, renames, i - 1, d);
      }
    }
  }

  /** If something is moved to `d`, something is last. */
  lemma {:induction false} LastExists(row: Row, renames: seq<Rename>, i: nat, d: string)
    requires Moves(row, [], renames, i) && renames[i].1 == d
    ensures Filled(row, [], renames, d)
    decreases |renames| - i
  {
    if j: nat :| i < j && Moves(row, [], renames, j) && renames[j].1 == d {
      LastExists(row, renames, j, d);
    } else {
      assert LastInto(row, [], renames, i, d);
    }
  }

  /** What the second phase leaves in column `d` of any row. */
  lemma {:induction false} PutPulled(base: Row, row: Row, renames: seq<Rename>, d: string)
    ensures var r := Put(base, Pull(row, renames).1);
            && (forall i: nat :: LastInto(row, [], renames, i, d) ==> d in r && r[d] == row[renames[i].0])
            && (!Filled(row, [], renames, d) ==> (d in r <==> d in base) && (d in r ==> r[d] == base[d]))
    decreases |renames|
  {
    if renames != [] {
      var (f, t) := renames[0];
      var base' := if f in row then base[t := row[f]] else base;
      PutPulled(base', row - {f}, renames[1..], d);
      FilledFirst(row, renames, d);
      assert f !in row ==> row - {f} == row;
      forall i: nat | LastInto(row, [], renames, i, d)
        ensures var r := Put(base, Pull(row, renames).1); d in r && r[d] == row[renames[i].0]
      {
        if i > 0 {
          LastLater(row, renames, i - 1, d);
          assert renames[1..][i - 1] == renames[i];
        }
      }
    }
  }

  lemma {:induction false} PulledRest(row: Row, renames: seq<Rename>)
    ensures Pull(row, renames).0 == map c | c in row && !IsSource(renames, c) :: row[c]
    decreases |renames|
  {
    if renames == [] {
      assert forall c :: !IsSource(renames, c);
    } else {
      PulledRest(if renames[0].0 in row then row - {renames[0].0} else row, renames[1..]);
      forall c ensures IsSource(renames, c) <==> c == renames[0].0 || IsSource(renames[1..], c) {
        SourceFirst(renames, c);
      }
    }
  }

  /** Drops and renames in any number, with columns named twice on either side too. */
  lemma {:induction false} RowBecomes(row: Row, t: TableTransform)
    ensures Becomes(row, t, TransformRow(row, t.dropCols, t.renames))
  {
    forall d ensures ColumnBecomes(row, t, TransformRow(row, t.dropCols, t.renames), d) {
      ColumnMoved(row, t, d);
    }
  }

  lemma {:induction false} ColumnMoved(row: Row, t: TableTransform, d: string)
    ensures ColumnBecomes(row, t, TransformRow(row, t.dropCols, t.renames), d)
  {
    var kept := DropCols(row, t.dropCols);
    KeptMoves(row, t.dropCols, t.renames, d);
    PutPulled(Pull(kept, t.renames).0, kept, t.renames, d);
    PulledRest(kept, t.renames);
  }

  lemma {:induction false} KeptMoves(row: Row, drops: seq<string>, renames: seq<Rename>, d: string)
    ensures forall i: nat :: LastInto(row, drops, renames, i, d) <==> LastInto(DropCols(row, drops), [], renames, i, d)
    ensures Filled(row, drops, renames, d) <==> Filled(DropCols(row, drops), [], renames, d)
  {
    var kept := DropCols(row, drops);
    assert forall i: nat :: Moves(row, drops, renames, i) <==> Moves(kept, [], renames, i);
    forall i: nat ensures LastInto(row, drops, renames, i, d) <==> LastInto(kept, [], renames, i, d) {
    }
  }

  // ── Events ────────────────────────────────────────────────────────────────

  predicate Concerns(entry: Entry, schema: string, table: string) {
    entry.0 == None || entry.0 == Some((schema, table))
  }

  /** The entries for the table, one after the other, make `r` of `row`. */
  ghost predicate BecomesBy(entries: seq<Entry>, schema: string, table: string, row: Row, r: Row)
    decreases |entries|
  {
    if entries == [] then r == row
    else if !Concerns(entries[0], schema, table) then BecomesBy(entries[1..], schema, table, row, r)
    else exists mid :: Becomes(row, entries[0].1, mid) && BecomesBy(entries[1..], schema, table, mid, r)
  }

  /** Each row of the event, new or old, goes through the entries for its table. */
  ghost predicate EventBecomes(entries: seq<Entry>, e: WalEvent, r: WalEvent) {
    match e
    case Insert(relId, schema, table, row) =>
      && r == Insert(relId, schema, table, RowIn(r)) && BecomesBy(entries, schema, table, row, RowIn(r))
    case Delete(relId, schema, table, row) =>
      && r == Delete(relId, schema, table, RowIn(r)) && BecomesBy(entries, schema, table, row, RowIn(r))
    case Update(relId, schema, table, before, row) =>
      && r == Update(relId, schema, table, BeforeIn(r), RowIn(r)) && BecomesBy(entries, schema, table, row, RowIn(r))
      && BeforeIn(r).Some? == before.Some?
      && (before.Some? ==> BecomesBy(entries, schema, table, before.value, BeforeIn(r).value))
    case _ => r == e
  }

  function RowIn(e: WalEvent): Row {
    if e.Insert? || e.Update? then e.newRow else if e.Delete? then e.oldRow else map[]
  }

  function BeforeIn(e: WalEvent): Option<Row> {
    if e.Update? then e.before else None
  }

  lemma {:induction false} EntriesBecome(entries: seq<Entry>, e: WalEvent)
    ensures EventBecomes(entries, e, ApplyEntries(entries, e))
    decreases |entries|
  {
    if entries != [] && e.IsRow() {
      var t := entries[0].1;
      var e1 := if Concerns(entries[0], e.schema, e.table) then TransformEvent(e, t) else e;
      EntriesBecome(entries[1..], e1);
      RowBecomes(RowIn(e), t);
      if e.Update? && e.before.Some? {
        RowBecomes(e.before.value, t);
      }
    }
  }

  /** No rename for the table, from entry `k` on, gives a column the name `c`. */
  ghost predicate NotRenamedTo(entries: seq<Entry>, k: nat, schema: string, table: string, c: string) {
    forall j, i :: k <= j < |entries| && Concerns(entries[j], schema, table) && 0 <= i < |entries[j].1.renames| ==>
      entries[j].1.renames[i].1 != c
  }

  lemma {:induction false} NotThere(row: Row, t: TableTransform, r: Row, c: string)
    requires Becomes(row, t, r) && forall i :: 0 <= i < |t.renames| ==> t.renames[i].1 != c
    requires c !in row || c in t.dropCols
    ensures c !in r
  {
    assert ColumnBecomes(row, t, r, c);
    assert !Filled(row, t.dropCols, t.renames, c);
  }

  lemma {:induction false} StaysOut(entries: seq<Entry>, schema: string, table: string, c: string, row: Row, r: Row)
    requires BecomesBy(entries, schema, table, row, r) && c !in row && NotRenamedTo(entries, 0, schema, table, c)
    ensures c !in r
    decreases |entries|
  {
    if entries != [] {
      assert forall j :: 0 <= j < |entries[1..]| ==> entries[1..][j] == entries[j + 1];
      if Concerns(entries[0], schema, table) {
        var mid :| Becomes(row, entries[0].1, mid) && BecomesBy(entries[1..], schema, table, mid, r);
        NotThere(row, entries[0].1, mid, c);
        StaysOut(entries[1..], schema, table, c, mid, r);
      } else {
        StaysOut(entries[1..], schema, table, c, row, r);
      }
    }
  }

  lemma {:induction false} GoesOut(entries: seq<Entry>, k: nat, schema: string, table: string, c: string, row: Row, r: Row)
    requires k < |entries| && Concerns(entries[k], schema, table) && c in entries[k].1.dropCols
    requires BecomesBy(entries, schema, table, row, r) && NotRenamedTo(entries, k, schema, table, c)
    ensures c !in r
    decreases |entries|
  {
    assert forall j :: 0 <= j < |entries[1..]| ==> entries[1..][j] == entries[j + 1];
    if Concerns(entries[0], schema, table) {
      var mid :| Becomes(row, entries[0].1, mid) && BecomesBy(entries[1..], schema, table, mid, r);
      if k == 0 {
        NotThere(row, entries[0].1, mid, c);
        StaysOut(entries[1..], schema, table, c, mid, r);
      } else {
        GoesOut(entries[1..], k - 1, schema, table, c, mid, r);
      }
    } else {
      GoesOut(entries[1..], k - 1, schema, table, c, row, r);
    }
  }

  /**
    A column dropped for the table, or for all, is in no row of the event, new
    or old, unless a rename from then on gives its name to another.
   */
  lemma {:induction false} DroppedGone(entries: seq<Entry>, e: WalEvent, k: nat, c: string)
    requires e.IsRow() && k < |entries| && Concerns(entries[k], e.schema, e.table) && c in entries[k].1.dropCols
    requires NotRenamedTo(entries, k, e.schema, e.table, c)
    ensures var r := ApplyEntries(entries, e);
            && (r.Insert? || r.Update? ==> c !in r.newRow) && (r.Delete? ==> c !in r.oldRow)
            && (r.Update? && r.before.Some? ==> c !in r.before.value)
  {
    EntriesBecome(entries, e);
    var r := ApplyEntries(entries, e);
    GoesOut(entries, k, e.schema, e.table, c, RowIn(e), RowIn(r));
    if e.Update? && e.before.Some? {
      GoesOut(entries, k, e.schema, e.table, c, e.before.value, r.before.value);
    }
  }
}
