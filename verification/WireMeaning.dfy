/** What the messages of a stream say, name by name and cell by cell. */
module WireMeaning {
  import opened Wrappers
  import opened Bytes
  import opened Event
  import opened Proto
  import opened Decoder
  import opened Wire

  // ── Texts ─────────────────────────────────────────────────────────────────

  predicate IsHexDigit(ch: char, d: int) {
    if d < 10 then ch as int == '0' as int + d else ch as int == 'a' as int + d - 10
  }

  /** Two digits for each byte, the high one first. */
  ghost predicate HexText(bs: seq<byte>, s: string) {
    && |s| == 2 * |bs|
    && forall i :: 0 <= i < |bs| ==> IsHexDigit(s[2 * i], bs[i] as int / 16) && IsHexDigit(s[2 * i + 1], bs[i] as int % 16)
  }

  lemma {:induction false} HexShown(bs: seq<byte>)
    ensures HexText(bs, Hex(bs))
  {
    if bs != [] {
      HexShown(bs[1..]);
      var s, rest := Hex(bs), Hex(bs[1..]);
      forall i | 0 <= i < |bs|
        ensures IsHexDigit(s[2 * i], bs[i] as int / 16) && IsHexDigit(s[2 * i + 1], bs[i] as int % 16)
      {
        if i > 0 {
          assert s[2 * i] == rest[2 * (i - 1)] && s[2 * i + 1] == rest[2 * (i - 1) + 1] && bs[1..][i - 1] == bs[i];
        }
      }
    }
  }

  lemma {:induction false} OneHexText(bs: seq<byte>, s: string, t: string)
    requires HexText(bs, s) && HexText(bs, t)
    ensures s == t
  {
    forall k | 0 <= k < |s| ensures s[k] == t[k] {
      var i := k / 2;
      var b := bs[i];
      assert k == 2 * i || k == 2 * i + 1;
    }
  }

  /** `s` is `n` in decimal: its last digit after the rest, which is the tenth part unless that is zero. */
  predicate DecimalText(n: nat, s: string) {
    && s != []
    && s[|s| - 1] as int == '0' as int + n % 10
    && if n < 10 then |s| == 1 else DecimalText(n / 10, s[..|s| - 1])
  }

  lemma {:induction false} DecimalShown(n: nat)
    ensures DecimalText(n, Decimal(n))
  {
    if n >= 10 {
      DecimalShown(n / 10);
    }
  }

  // ── Rows ──────────────────────────────────────────────────────────────────

  ghost predicate Shows(cell: Cell, v: ColVal) {
    match cell
    case NullCell => v == Null
    case UnchangedCell => v == Unchanged
    case TextCell(s) => v == Text(s)
    case BinaryCell(bs) => v.Text? && |v.text| >= 2 && v.text[..2] == "\\x" && HexText(bs, v.text[2..])
  }

  lemma {:induction false} ShowsExactly(cell: Cell, v: ColVal)
    ensures CellValue(cell) == v <==> Shows(cell, v)
  {
    if cell.BinaryCell? {
      HexShown(cell.bytes);
      if Shows(cell, v) {
        OneHexText(cell.bytes, Hex(cell.bytes), v.text[2..]);
        assert v.text == v.text[..2] + v.text[2..];
      }
    }
  }

  /** A cell goes under its column's name; one too many under a question mark. */
  ghost predicate Named(columns: seq<ColumnDef>, i: nat, name: string) {
    if i < |columns| then name == columns[i].name else name == "?"
  }

  /** The last cell under a name. */
  ghost predicate LastNamed(columns: seq<ColumnDef>, cells: seq<Cell>, i: nat, name: string) {
    i < |cells| && Named(columns, i, name) && forall j: nat :: i < j < |cells| ==> !Named(columns, j, name)
  }

  /** Under each name the last cell that has it, and nothing else. */
  ghost predicate IsRowOf(columns: seq<ColumnDef>, cells: seq<Cell>, row: Row) {
    && (forall name <- row :: exists i: nat :: LastNamed(columns, cells, i, name))
    && (forall i: nat, name :: LastNamed(columns, cells, i, name) ==> name in row && Shows(cells[i], row[name]))
  }

  lemma {:induction false} RowShown(columns: seq<ColumnDef>, cells: seq<Cell>)
    ensures IsRowOf(columns, cells, RowOf(columns, cells))
  {
    if cells != [] {
      var n := |cells| - 1;
      var init, row := cells[..n], RowOf(columns, cells);
      RowShown(columns, init);
      ShowsExactly(cells[n], CellValue(cells[n]));
      assert forall i: nat, name ::
          LastNamed(columns, cells, i, name) ==> i == n || (LastNamed(columns, init, i, name) && !Named(columns, n, name));
      forall name | name in row ensures exists i: nat :: LastNamed(columns, cells, i, name) {
        if Named(columns, n, name) {
          assert LastNamed(columns, cells, n, name);
        } else {
          var i: nat :| LastNamed(columns, init, i, name);
          assert LastNamed(columns, cells, i, name);
        }
      }
    }
  }

  /** The row of a message is that and no other. */
  lemma {:induction false} RowExactly(columns: seq<ColumnDef>, cells: seq<Cell>, row: Row)
    ensures RowOf(columns, cells) == row <==> IsRowOf(columns, cells, row)
  {
    var own := RowOf(columns, cells);
    RowShown(columns, cells);
    if IsRowOf(columns, cells, row) {
      assert own.Keys == row.Keys;
      forall name | name in row ensures row[name] == own[name] {
        var i: nat :| LastNamed(columns, cells, i, name);
        ShowsExactly(cells[i], row[name]);
        ShowsExactly(cells[i], own[name]);
      }
    }
  }

  // ── Relations ─────────────────────────────────────────────────────────────

  /** The latest announcement of a relation. */
  ghost predicate LatestAt(ms: seq<PgMsg>, relId: nat, i: nat) {
    && i < |ms| && ms[i].RelationMsg? && ms[i].relId == relId
    && forall j: nat :: i < j < |ms| && ms[j].RelationMsg? ==> ms[j].relId != relId
  }

  /** What is known of a relation after some messages: its latest announcement, or a placeholder. */
  ghost predicate Known(ms: seq<PgMsg>, relId: nat, schema: string, table: string, columns: seq<ColumnDef>) {
    || (exists i: nat :: LatestAt(ms, relId, i) && ms[i].schema == schema && ms[i].table == table &&
          |columns| == |ms[i].columns| && forall j :: 0 <= j < |columns| ==> columns[j] == ms[i].columns[j].1)
    || ((forall i: nat :: !LatestAt(ms, relId, i)) &&
          |schema| > 8 && schema[..8] == "unknown_" && DecimalText(relId, schema[8..]) && table == "unknown" && columns == [])
  }

  lemma {:induction false} LatestFound(ms: seq<PgMsg>, relId: nat)
    ensures match LatestRelation(ms, relId)
            case Some(info) =>
              exists i: nat :: LatestAt(ms, relId, i) && info == RelationInfo(ms[i].schema, ms[i].table, Defs(ms[i].columns))
            case None => forall i: nat :: !LatestAt(ms, relId, i)
  {
    if ms != [] {
      var n := |ms| - 1;
      LatestFound(ms[..n], relId);
      if ms[n].RelationMsg? && ms[n].relId == relId {
        assert LatestAt(ms, relId, n);
      } else {
        assert forall i: nat :: LatestAt(ms, relId, i) ==> LatestAt(ms[..n], relId, i);
        assert forall i: nat :: LatestAt(ms[..n], relId, i) ==> LatestAt(ms, relId, i);
      }
    }
  }

  lemma {:induction false} InfoKnown(ms: seq<PgMsg>, relId: nat)
    ensures var info := InfoOf(CacheOf(ms), relId); Known(ms, relId, info.schema, info.table, info.columns)
  {
    CacheHoldsLatest(ms, relId);
    LatestFound(ms, relId);
    DecimalShown(relId);
  }

  /** How a truncation names a relation: schema, dot and table, or a placeholder. */
  ghost predicate NamesTable(ms: seq<PgMsg>, relId: nat, name: string) {
    || (exists i: nat :: LatestAt(ms, relId, i) && name == ms[i].schema + "." + ms[i].table)
    || ((forall i: nat :: !LatestAt(ms, relId, i)) &&
          |name| > 6 && name[..5] == "<rel:" && name[|name| - 1] == '>' && DecimalText(relId, name[5..|name| - 1]))
  }

  lemma {:induction false} TableNamed(ms: seq<PgMsg>, relId: nat)
    ensures NamesTable(ms, relId, TruncatedName(CacheOf(ms), relId))
  {
    CacheHoldsLatest(ms, relId);
    LatestFound(ms, relId);
    DecimalShown(relId);
    var text := "<rel:" + Decimal(relId) + ">";
    assert text[5..|text| - 1] == Decimal(relId);
  }

  // ── Messages ──────────────────────────────────────────────────────────────

  /** The event a message is, after the messages before it. */
  ghost predicate Says(before: seq<PgMsg>, m: PgMsg, event: WalEvent) {
    match m
    case RelationMsg(relId, schema, table, _, columns) =>
      && event.Relation? && event.relId == relId && event.schema == schema && event.table == table
      && |event.columns| == |columns| && forall i :: 0 <= i < |columns| ==> event.columns[i] == columns[i].1
    case InsertMsg(relId, cells) =>
      && event.Insert? && event.relId == relId
      && exists columns :: Known(before, relId, event.schema, event.table, columns) && IsRowOf(columns, cells, event.newRow)
    case UpdateMsg(relId, oldTuple, cells) =>
      && event.Update? && event.relId == relId && (event.before.Some? <==> oldTuple.Some?)
      && exists columns :: Known(before, relId, event.schema, event.table, columns) && IsRowOf(columns, cells, event.newRow)
                           && (oldTuple.Some? ==> IsRowOf(columns, oldTuple.value.1, event.before.value))
    case DeleteMsg(relId, _, cells) =>
      && event.Delete? && event.relId == relId
      && exists columns :: Known(before, relId, event.schema, event.table, columns) && IsRowOf(columns, cells, event.oldRow)
    case TruncateMsg(relIds, options) =>
      && event.Truncate? && event.relIds == relIds && |event.tables| == |relIds|
      && (forall i :: 0 <= i < |relIds| ==> NamesTable(before, relIds[i], event.tables[i]))
      && (event.cascade <==> options as nat % 2 == 1) && (event.restartSeqs <==> options as nat % 4 >= 2)
    case SkippedMsg(_, _) => false
  }

  /** A decoded message is the event it says, and one that is skipped is none. */
  ghost predicate DecodedAs(before: seq<PgMsg>, m: PgMsg, decoded: Decoded) {
    match decoded
    case Err(_) => false
    case Ok(None) => m.SkippedMsg?
    case Ok(Some(event)) => Says(before, m, event)
  }

  lemma {:induction false} MeaningSaid(before: seq<PgMsg>, m: PgMsg)
    ensures DecodedAs(before, m, Ok(Meaning(m, CacheOf(before))))
  {
    match m
    case RelationMsg(_, _, _, _, _) =>
    case InsertMsg(relId, cells) =>
      InfoKnown(before, relId);
      RowShown(InfoOf(CacheOf(before), relId).columns, cells);
    case UpdateMsg(relId, oldTuple, cells) =>
      InfoKnown(before, relId);
      RowShown(InfoOf(CacheOf(before), relId).columns, cells);
      if oldTuple.Some? {
        RowShown(InfoOf(CacheOf(before), relId).columns, oldTuple.value.1);
      }
    case DeleteMsg(relId, _, cells) =>
      InfoKnown(before, relId);
      RowShown(InfoOf(CacheOf(before), relId).columns, cells);
    case TruncateMsg(relIds, options) =>
      forall i | 0 <= i < |relIds| ensures NamesTable(before, relIds[i], TruncatedNames(CacheOf(before), relIds)[i]) {
        TableNamed(before, relIds[i]);
      }
    case SkippedMsg(_, _) =>
  }

  /**
    From the bytes of any stream: the decoder has one result for each message,
    in order, and it is the event the message says, with names and columns from
    the latest announcement before it.
   */
  lemma {:induction false} StreamSays(c: Codec, ds: seq<Delivery>)
    requires CodecOk(c) && forall d <- ds :: DeliveryOk(c, d)
    ensures var out := DecodeAll(c, WorkerRun(WireBytes(c, ds)).0, map[]); var ms := Messages(ds);
            |out| == |ms| && forall k :: 0 <= k < |ms| ==> DecodedAs(ms[..k], ms[k], out[k])
  {
    WireRoundTrip(c, ds);
    var ms := Messages(ds);
    forall k | 0 <= k < |ms| ensures DecodedAs(ms[..k], ms[k], Ok(Meaning(ms[k], CacheOf(ms[..k])))) {
      MeaningSaid(ms[..k], ms[k]);
    }
  }
}
