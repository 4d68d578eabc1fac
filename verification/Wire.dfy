/**
  What the server writes, in the layout of "Logical Replication Message
  Formats", section 55.9 of the PostgreSQL 16 documentation, and the proof that
  the client reads it back through every layer.
 */
module Wire {
  import opened Wrappers
  import opened Bytes
  import opened Event
  import opened Decoder
  import opened Proto

  // ── Server-side messages ──────────────────────────────────────────────────

  datatype Cell = NullCell | UnchangedCell | TextCell(text: string) | BinaryCell(bytes: seq<byte>)

  datatype PgMsg =
    | RelationMsg(relId: nat, schema: string, table: string, identity: byte, columns: seq<(byte, ColumnDef)>)
    | InsertMsg(relId: nat, cells: seq<Cell>)
    | UpdateMsg(relId: nat, oldTuple: Option<(byte, seq<Cell>)>, cells: seq<Cell>)
    | DeleteMsg(relId: nat, kind: byte, cells: seq<Cell>)
    | TruncateMsg(relIds: seq<nat>, options: byte)
    | SkippedMsg(tag: byte, body: seq<byte>)

  datatype Delivery =
    | BeginFrame(finalLsn: nat, commitTime: int, xid: nat, walStart: nat, walEnd: nat, serverTime: int)
    | CommitFrame(flags: byte, lsn: nat, endLsn: nat, commitTime: int, walStart: nat, walEnd: nat, serverTime: int)
    | MessageFrame(msg: PgMsg, walStart: nat, walEnd: nat, serverTime: int)
    | KeepAliveFrame(walEnd: nat, serverTime: int, reply: bool)
    | OtherFrame(tag: byte, payload: seq<byte>)

  // ── Encoding ──────────────────────────────────────────────────────────────

  function EncodeName(c: Codec, s: string): seq<byte> {
    c.encode(s) + [0]
  }

  function EncodeColumn(c: Codec, col: (byte, ColumnDef)): seq<byte>
    requires ColumnOk(c, col)
  {
    [col.0] + EncodeName(c, col.1.name) + BigEndian(col.1.typeId, 4) + I32Bytes(col.1.typeModifier)
  }

  function ColumnParts(c: Codec, cols: seq<(byte, ColumnDef)>): (parts: seq<seq<byte>>)
    requires forall i :: 0 <= i < |cols| ==> ColumnOk(c, cols[i])
  {
    seq(|cols|, i requires 0 <= i < |cols| => EncodeColumn(c, cols[i]))
  }

  function EncodeColumns(c: Codec, cols: seq<(byte, ColumnDef)>): seq<byte>
    requires forall i :: 0 <= i < |cols| ==> ColumnOk(c, cols[i])
  {
    Concat(ColumnParts(c, cols))
  }

  function EncodeCell(c: Codec, cell: Cell): seq<byte> {
    match cell
    case NullCell => [Tag('n')]
    case UnchangedCell => [Tag('u')]
    case TextCell(s) => [Tag('t')] + Sized(c.encode(s))
    case BinaryCell(bs) => [Tag('b')] + Sized(bs)
  }

  function EncodeCells(c: Codec, cells: seq<Cell>): seq<byte> {
    if cells == [] then [] else EncodeCell(c, cells[0]) + EncodeCells(c, cells[1..])
  }

  function EncodeTuple(c: Codec, cells: seq<Cell>): seq<byte> {
    BigEndian(|cells|, 2) + EncodeCells(c, cells)
  }

  function RelIdParts(relIds: seq<nat>): seq<seq<byte>> {
    seq(|relIds|, i requires 0 <= i < |relIds| => BigEndian(relIds[i], 4))
  }

  function EncodeRelIds(relIds: seq<nat>): seq<byte> {
    Concat(RelIdParts(relIds))
  }

  function EncodeMsg(c: Codec, m: PgMsg): seq<byte>
    requires WellFormed(c, m)
  {
    match m
    case RelationMsg(relId, schema, table, identity, columns) =>
      [Tag('R')] + (BigEndian(relId, 4) + (EncodeName(c, schema) + (EncodeName(c, table) +
      ([identity] + (BigEndian(|columns|, 2) + EncodeColumns(c, columns))))))
    case InsertMsg(relId, cells) =>
      [Tag('I')] + (BigEndian(relId, 4) + ([Tag('N')] + EncodeTuple(c, cells)))
    case UpdateMsg(relId, None, cells) =>
      [Tag('U')] + (BigEndian(relId, 4) + ([Tag('N')] + EncodeTuple(c, cells)))
    case UpdateMsg(relId, Some((kind, before)), cells) =>
      [Tag('U')] + (BigEndian(relId, 4) + ([kind] + (EncodeTuple(c, before) + ([Tag('N')] + EncodeTuple(c, cells)))))
    case DeleteMsg(relId, kind, cells) =>
      [Tag('D')] + (BigEndian(relId, 4) + ([kind] + EncodeTuple(c, cells)))
    case TruncateMsg(relIds, options) =>
      [Tag('T')] + (BigEndian(|relIds|, 4) + ([options] + EncodeRelIds(relIds)))
    case SkippedMsg(tag, body) => [tag] + body
  }

  // ── What the server may send ──────────────────────────────────────────────

  /** Names travel as zero-terminated strings. */
  ghost predicate NameOk(c: Codec, s: string) {
    0 !in c.encode(s)
  }

  ghost predicate ColumnOk(c: Codec, col: (byte, ColumnDef)) {
    && NameOk(c, col.1.name) && U32(col.1.typeId) && I32(col.1.typeModifier)
    && col.1.isKey == (col.0 as nat % 2 == 1)
  }

  predicate CellOk(c: Codec, cell: Cell) {
    match cell
    case TextCell(s) => U32(|c.encode(s)|)
    case BinaryCell(bs) => U32(|bs|)
    case _ => true
  }

  predicate TupleOk(c: Codec, cells: seq<Cell>) {
    U16(|cells|) && forall cell <- cells :: CellOk(c, cell)
  }

  ghost predicate WellFormed(c: Codec, m: PgMsg) {
    match m
    case RelationMsg(relId, schema, table, _, columns) =>
      U32(relId) && NameOk(c, schema) && NameOk(c, table) && U16(|columns|) && forall i :: 0 <= i < |columns| ==> ColumnOk(c, columns[i])
    case InsertMsg(relId, cells) => U32(relId) && TupleOk(c, cells)
    case UpdateMsg(relId, before, cells) =>
      U32(relId) && TupleOk(c, cells) &&
      (before.Some? ==> TupleOk(c, before.value.1) && (before.value.0 == Tag('O') || before.value.0 == Tag('K')))
    case DeleteMsg(relId, _, cells) => U32(relId) && TupleOk(c, cells)
    case TruncateMsg(relIds, _) => U32(|relIds|) && forall r <- relIds :: U32(r)
    case SkippedMsg(tag, _) => tag == Tag('O') || tag == Tag('Y') || tag == Tag('M')
  }

  // ── What the messages mean ────────────────────────────────────────────────

  function CellValue(cell: Cell): ColVal {
    match cell
    case NullCell => Null
    case UnchangedCell => Unchanged
    case TextCell(s) => Text(s)
    case BinaryCell(bs) => Text("\\x" + Hex(bs))
  }

  function RowOf(columns: seq<ColumnDef>, cells: seq<Cell>): Row {
    if cells == [] then map[]
    else
      var n := |cells| - 1;
      RowOf(columns, cells[..n])[ColumnName(columns, n) := CellValue(cells[n])]
  }

  function Defs(columns: seq<(byte, ColumnDef)>): seq<ColumnDef> {
    seq(|columns|, i requires 0 <= i < |columns| => columns[i].1)
  }

  /** The event a message stands for, under the relations known so far. */
  function Meaning(m: PgMsg, cache: RelationCache): Option<WalEvent> {
    match m
    case RelationMsg(relId, schema, table, _, columns) =>
      Some(Relation(relId, schema, table, Defs(columns)))
    case InsertMsg(relId, cells) =>
      var info := InfoOf(cache, relId);
      Some(Insert(relId, info.schema, info.table, RowOf(info.columns, cells)))
    case UpdateMsg(relId, before, cells) =>
      var info := InfoOf(cache, relId);
      var b := match before
               case None => None
               case Some((_, olds)) => Some(RowOf(info.columns, olds));
      Some(Update(relId, info.schema, info.table, b, RowOf(info.columns, cells)))
    case DeleteMsg(relId, _, cells) =>
      var info := InfoOf(cache, relId);
      Some(Delete(relId, info.schema, info.table, RowOf(info.columns, cells)))
    case TruncateMsg(relIds, options) =>
      Some(Truncate(relIds, TruncatedNames(cache, relIds), options as nat % 2 == 1, options as nat / 2 % 2 == 1))
    case SkippedMsg(_, _) => None
  }

  /** Every cell is found under the name its column has in the relation. */
  lemma {:induction false} RowByColumnName(columns: seq<ColumnDef>, cells: seq<Cell>)
    requires |cells| <= |columns|
    requires forall i, j :: 0 <= i < j < |columns| ==> columns[i].name != columns[j].name
    ensures forall name :: name in RowOf(columns, cells) <==> exists i :: 0 <= i < |cells| && columns[i].name == name
    ensures forall i :: 0 <= i < |cells| ==>
              columns[i].name in RowOf(columns, cells) &&
              RowOf(columns, cells)[columns[i].name] == CellValue(cells[i])
  {
    if cells != [] {
      RowByColumnName(columns, cells[..|cells| - 1]);
    }
  }

  // ── One message reads back ────────────────────────────────────────────────

  lemma {:induction false} UintReadsBack(n: nat, w: nat, rest: seq<byte>)
    requires n < Pow256(w)
    ensures ReadUint(BigEndian(n, w) + rest, w) == Ok((n, rest))
  {
    UintOfBigEndian(n, w);
    var s := BigEndian(n, w) + rest;
    assert s[..w] == BigEndian(n, w) && s[w..] == rest;
  }

  lemma {:induction false} SpanOfName(name: seq<byte>, rest: seq<byte>)
    requires 0 !in name
    ensures NonZeroSpan(name + [0] + rest) == |name|
  {
    var s := name + [0] + rest;
    if name != [] {
      assert s[1..] == name[1..] + [0] + rest;
      SpanOfName(name[1..], rest);
    }
  }

  lemma {:induction false} NameReadsBack(c: Codec, name: string, rest: seq<byte>)
    requires CodecOk(c) && NameOk(c, name)
    ensures ReadCstring(c, EncodeName(c, name) + rest) == Ok((name, rest))
  {
    var bs := c.encode(name);
    var s := EncodeName(c, name) + rest;
    SpanOfName(bs, rest);
    assert s[..|bs|] == bs && s[|bs| + 1..] == rest;
  }

  lemma {:induction false} ColumnReadsBack(c: Codec, col: (byte, ColumnDef), rest: seq<byte>)
    requires CodecOk(c) && ColumnOk(c, col)
    ensures ReadColumn(c, EncodeColumn(c, col) + rest) == Ok((col.1, rest))
  {
    Widths();
    var mod := I32Bytes(col.1.typeModifier);
    var tail := BigEndian(col.1.typeId, 4) + (mod + rest);
    var s := EncodeColumn(c, col) + rest;
    assert s[1..] == EncodeName(c, col.1.name) + tail;
    NameReadsBack(c, col.1.name, tail);
    UintReadsBack(col.1.typeId, 4, mod + rest);
    SignedOfUnsigned(col.1.typeModifier, 4);
    UintReadsBack(Unsigned(col.1.typeModifier, 4), 4, rest);
  }

  function Concat(parts: seq<seq<byte>>): seq<byte> {
    if parts == [] then [] else parts[0] + Concat(parts[1..])
  }

  /** If every part reads back as its column, the parts in a row read back as the columns in order. */
  lemma {:induction false} ColumnsReadBack(c: Codec, parts: seq<seq<byte>>, cols: seq<ColumnDef>, done: seq<ColumnDef>)
    requires |parts| == |cols|
    requires forall i, tail :: 0 <= i < |parts| ==> ReadColumn(c, parts[i] + tail) == Ok((cols[i], tail))
    ensures ReadColumns(c, Concat(parts), |cols|, done) == Ok((done + cols, []))
  {
    if cols == [] {
      assert done + cols == done;
    } else {
      ColumnsReadBack(c, parts[1..], cols[1..], done + [cols[0]]);
      assert done + cols == done + [cols[0]] + cols[1..];
    }
  }

  function Sized(bs: seq<byte>): seq<byte> {
    BigEndian(|bs|, 4) + bs
  }

  lemma {:induction false} SizedReadsBack(bs: seq<byte>, rest: seq<byte>)
    requires U32(|bs|)
    ensures ReadSized(Sized(bs) + rest) == Ok((bs, rest))
  {
    Widths();
    Assoc(BigEndian(|bs|, 4), bs, rest);
    UintReadsBack(|bs|, 4, bs + rest);
    assert (bs + rest)[..|bs|] == bs && (bs + rest)[|bs|..] == rest;
  }

  lemma {:induction false} CellReadsBack(c: Codec, cell: Cell, rest: seq<byte>)
    requires CodecOk(c) && CellOk(c, cell)
    ensures ReadCell(c, EncodeCell(c, cell) + rest) == Ok((CellValue(cell), rest))
  {
    var s := EncodeCell(c, cell) + rest;
    match cell
    case TextCell(t) =>
      Assoc([Tag('t')], Sized(c.encode(t)), rest);
      SizedReadsBack(c.encode(t), rest);
    case BinaryCell(bs) =>
      Assoc([Tag('b')], Sized(bs), rest);
      SizedReadsBack(bs, rest);
    case _ =>
      assert s[1..] == rest;
  }

  lemma {:induction false} CellsReadBack(c: Codec, columns: seq<ColumnDef>, cells: seq<Cell>, i: nat, rest: seq<byte>)
    requires CodecOk(c) && i <= |cells| && forall cell <- cells :: CellOk(c, cell)
    ensures ReadCells(c, columns, EncodeCells(c, cells[i..]) + rest, i, |cells|, RowOf(columns, cells[..i]))
            == Ok((RowOf(columns, cells), rest))
    decreases |cells| - i
  {
    if i == |cells| {
      assert EncodeCells(c, cells[i..]) + rest == rest && cells[..i] == cells;
    } else {
      var tail := EncodeCells(c, cells[i + 1..]) + rest;
      assert cells[i..][1..] == cells[i + 1..];
      assert EncodeCells(c, cells[i..]) + rest == EncodeCell(c, cells[i]) + tail;
      CellReadsBack(c, cells[i], tail);
      assert cells[..i + 1][..i] == cells[..i];
      CellsReadBack(c, columns, cells, i + 1, rest);
    }
  }

  lemma {:induction false} TupleReadsBack(c: Codec, columns: seq<ColumnDef>, cells: seq<Cell>, rest: seq<byte>)
    requires CodecOk(c) && TupleOk(c, cells)
    ensures ReadTuple(c, columns, EncodeTuple(c, cells) + rest) == Ok((RowOf(columns, cells), rest))
  {
    Widths();
    var tail := EncodeCells(c, cells) + rest;
    assert EncodeTuple(c, cells) + rest == BigEndian(|cells|, 2) + tail;
    UintReadsBack(|cells|, 2, tail);
    assert cells[0..] == cells && cells[..0] == [];
    CellsReadBack(c, columns, cells, 0, rest);
  }

  lemma {:induction false} TupleEndsBuffer(c: Codec, columns: seq<ColumnDef>, cells: seq<Cell>)
    requires CodecOk(c) && TupleOk(c, cells)
    ensures ReadTuple(c, columns, EncodeTuple(c, cells)) == Ok((RowOf(columns, cells), []))
  {
    TupleReadsBack(c, columns, cells, []);
    assert EncodeTuple(c, cells) + [] == EncodeTuple(c, cells);
  }

  lemma {:induction false} RelIdsReadBack(relIds: seq<nat>, done: seq<nat>)
    requires forall r <- relIds :: U32(r)
    ensures ReadRelIds(EncodeRelIds(relIds), |relIds|, done) == Ok((done + relIds, []))
  {
    if relIds == [] {
      assert done + relIds == done;
    } else {
      Widths();
      assert relIds[0] in relIds;
      assert RelIdParts(relIds)[1..] == RelIdParts(relIds[1..]);
      UintReadsBack(relIds[0], 4, EncodeRelIds(relIds[1..]));
      RelIdsReadBack(relIds[1..], done + [relIds[0]]);
      assert done + [relIds[0]] + relIds[1..] == done + relIds;
    }
  }

  lemma {:induction false} ColumnListReadsBack(c: Codec, cols: seq<(byte, ColumnDef)>)
    requires CodecOk(c) && U16(|cols|) && forall i :: 0 <= i < |cols| ==> ColumnOk(c, cols[i])
    ensures ReadColumnList(c, BigEndian(|cols|, 2) + EncodeColumns(c, cols)) == Ok((Defs(cols), []))
  {
    Widths();
    var parts := ColumnParts(c, cols);
    forall i, tail | 0 <= i < |parts|
      ensures ReadColumn(c, parts[i] + tail) == Ok((Defs(cols)[i], tail))
    {
      ColumnReadsBack(c, cols[i], tail);
    }
    UintReadsBack(|cols|, 2, Concat(parts));
    ColumnsReadBack(c, parts, Defs(cols), []);
    assert [] + Defs(cols) == Defs(cols);
  }

  lemma {:induction false} RelationReadsBack(c: Codec, m: PgMsg)
    requires CodecOk(c) && m.RelationMsg? && WellFormed(c, m)
    ensures DecodeRelation(c, EncodeMsg(c, m)[1..]) == Ok(Relation(m.relId, m.schema, m.table, Defs(m.columns)))
  {
    Widths();
    var s4 := BigEndian(|m.columns|, 2) + EncodeColumns(c, m.columns);
    var s3 := [m.identity] + s4;
    var s2 := EncodeName(c, m.table) + s3;
    var s1 := EncodeName(c, m.schema) + s2;
    assert EncodeMsg(c, m)[1..] == BigEndian(m.relId, 4) + s1;
    UintReadsBack(m.relId, 4, s1);
    NameReadsBack(c, m.schema, s2);
    NameReadsBack(c, m.table, s3);
    assert s3[1..] == s4;
    ColumnListReadsBack(c, m.columns);
  }

  lemma {:induction false} RowMessageReadsBack(c: Codec, m: PgMsg, cache: RelationCache)
    requires CodecOk(c) && (m.InsertMsg? || m.DeleteMsg?) && WellFormed(c, m)
    ensures DecodeBody(c, EncodeMsg(c, m)[0], EncodeMsg(c, m)[1..], cache) == Ok(Meaning(m, cache).value)
  {
    Widths();
    var tuple := EncodeTuple(c, m.cells);
    var s1 := [if m.InsertMsg? then Tag('N') else m.kind] + tuple;
    assert EncodeMsg(c, m)[1..] == BigEndian(m.relId, 4) + s1;
    UintReadsBack(m.relId, 4, s1);
    assert s1[1..] == tuple;
    TupleEndsBuffer(c, InfoOf(cache, m.relId).columns, m.cells);
  }

  lemma {:induction false} UpdateReadsBack(c: Codec, m: PgMsg, cache: RelationCache)
    requires CodecOk(c) && m.UpdateMsg? && WellFormed(c, m)
    ensures DecodeUpdate(c, EncodeMsg(c, m)[1..], cache) == Ok(Meaning(m, cache).value)
  {
    Widths();
    var columns := InfoOf(cache, m.relId).columns;
    var tuple := EncodeTuple(c, m.cells);
    var newPart := [Tag('N')] + tuple;
    assert newPart[1..] == tuple;
    TupleEndsBuffer(c, columns, m.cells);
    match m.oldTuple
    case None =>
      assert EncodeMsg(c, m)[1..] == BigEndian(m.relId, 4) + newPart;
      UintReadsBack(m.relId, 4, newPart);
    case Some((kind, before)) =>
      var s2 := EncodeTuple(c, before) + newPart;
      var s1 := [kind] + s2;
      assert EncodeMsg(c, m)[1..] == BigEndian(m.relId, 4) + s1;
      UintReadsBack(m.relId, 4, s1);
      assert s1[1..] == s2;
      TupleReadsBack(c, columns, before, newPart);
  }

  lemma {:induction false} TruncateReadsBack(c: Codec, m: PgMsg, cache: RelationCache)
    requires CodecOk(c) && m.TruncateMsg? && WellFormed(c, m)
    ensures DecodeTruncate(EncodeMsg(c, m)[1..], cache) == Ok(Meaning(m, cache).value)
  {
    Widths();
    var ids := EncodeRelIds(m.relIds);
    var s1 := [m.options] + ids;
    assert EncodeMsg(c, m)[1..] == BigEndian(|m.relIds|, 4) + s1;
    UintReadsBack(|m.relIds|, 4, s1);
    assert s1[1..] == ids;
    RelIdsReadBack(m.relIds, []);
    assert [] + m.relIds == m.relIds;
  }

  /** Decoding an encoded message gives what it means. */
  lemma {:induction false} MessageReadsBack(c: Codec, m: PgMsg, cache: RelationCache)
    requires CodecOk(c) && WellFormed(c, m)
    ensures DecodePgoutput(c, EncodeMsg(c, m), cache) == Ok(Meaning(m, cache))
  {
    match m
    case RelationMsg(_, _, _, _, _) => RelationReadsBack(c, m);
    case UpdateMsg(_, _, _) => UpdateReadsBack(c, m, cache);
    case TruncateMsg(_, _) => TruncateReadsBack(c, m, cache);
    case SkippedMsg(_, _) =>
    case _ => RowMessageReadsBack(c, m, cache);
  }

  // ── Whole streams ─────────────────────────────────────────────────────────

  /** The body of an XLogData payload. */
  function BodyOf(c: Codec, d: Delivery): seq<byte>
    requires DeliveryOk(c, d) && !d.KeepAliveFrame? && !d.OtherFrame?
  {
    match d
    case BeginFrame(finalLsn, commitTime, xid, _, _, _) =>
      [Tag('B')] + (BigEndian(finalLsn, 8) + I64Bytes(commitTime) + BigEndian(xid, 4))
    case CommitFrame(flags, lsn, endLsn, commitTime, _, _, _) =>
      [Tag('C')] + ([flags] + BigEndian(lsn, 8) + BigEndian(endLsn, 8) + I64Bytes(commitTime))
    case MessageFrame(m, _, _, _) => EncodeMsg(c, m)
  }

  ghost predicate DeliveryOk(c: Codec, d: Delivery) {
    match d
    case BeginFrame(finalLsn, commitTime, xid, walStart, walEnd, serverTime) =>
      U64(finalLsn) && I64(commitTime) && U32(xid) && U64(walStart) && U64(walEnd) && I64(serverTime)
    case CommitFrame(_, lsn, endLsn, commitTime, walStart, walEnd, serverTime) =>
      U64(lsn) && U64(endLsn) && I64(commitTime) && U64(walStart) && U64(walEnd) && I64(serverTime)
    case MessageFrame(m, walStart, walEnd, serverTime) =>
      WellFormed(c, m) && |EncodeMsg(c, m)| + 25 <= MAX_MESSAGE_SIZE &&
      U64(walStart) && U64(walEnd) && I64(serverTime)
    case KeepAliveFrame(walEnd, serverTime, _) => U64(walEnd) && I64(serverTime)
    case OtherFrame(tag, payload) =>
      tag != Tag('d') && tag != Tag('E') && |payload| <= MAX_MESSAGE_SIZE
  }

  function PayloadOf(c: Codec, d: Delivery): seq<byte>
    requires DeliveryOk(c, d)
  {
    match d
    case KeepAliveFrame(walEnd, serverTime, reply) =>
      [Tag('k')] + (BigEndian(walEnd, 8) + I64Bytes(serverTime) + [if reply then 1 else 0])
    case OtherFrame(_, payload) => payload
    case _ =>
      [Tag('w')] + (BigEndian(d.walStart, 8) + BigEndian(d.walEnd, 8) + I64Bytes(d.serverTime) + BodyOf(c, d))
  }

  function FrameOf(c: Codec, d: Delivery): seq<byte>
    requires DeliveryOk(c, d)
  {
    Frame(if d.OtherFrame? then d.tag else Tag('d'), PayloadOf(c, d))
  }

  function WireBytes(c: Codec, ds: seq<Delivery>): seq<byte>
    requires forall d <- ds :: DeliveryOk(c, d)
  {
    if ds == [] then [] else FrameOf(c, ds[0]) + WireBytes(c, ds[1..])
  }

  /** The events of a list of deliveries. Other frames carry none. */
  function Events(c: Codec, ds: seq<Delivery>): seq<ReplEvent>
    requires forall d <- ds :: DeliveryOk(c, d)
  {
    if ds == [] then []
    else EventsOf(c, ds[0]) + Events(c, ds[1..])
  }

  function EventsOf(c: Codec, d: Delivery): seq<ReplEvent>
    requires DeliveryOk(c, d)
  {
    match d
    case BeginFrame(finalLsn, commitTime, xid, _, _, _) => [ReplEvent.Begin(finalLsn, xid, commitTime)]
    case CommitFrame(_, lsn, endLsn, commitTime, _, _, _) => [ReplEvent.Commit(lsn, endLsn, commitTime)]
    case MessageFrame(m, walStart, walEnd, _) => [XLogData(walStart, walEnd, EncodeMsg(c, m))]
    case KeepAliveFrame(walEnd, _, _) => [ReplEvent.KeepAlive(walEnd)]
    case OtherFrame(_, _) => []
  }

  lemma {:induction false} I64ReadsBack(x: int)
    requires I64(x)
    ensures Signed(Uint(I64Bytes(x)), 8) == x
  {
    Widths();
    SignedOfUnsigned(x, 8);
    UintOfBigEndian(Unsigned(x, 8), 8);
  }

  lemma {:induction false} BoundaryReadsBack(c: Codec, d: Delivery)
    requires DeliveryOk(c, d) && !d.KeepAliveFrame? && !d.OtherFrame?
    ensures BoundaryOf(BodyOf(c, d)) ==
            match d
            case BeginFrame(finalLsn, commitTime, xid, _, _, _) => Ok(Some(BeginBoundary(finalLsn, commitTime, xid)))
            case CommitFrame(_, lsn, endLsn, commitTime, _, _, _) => Ok(Some(CommitBoundary(lsn, endLsn, commitTime)))
            case _ => Ok(None)
  {
    Widths();
    var body := BodyOf(c, d);
    var p := body[1..];
    match d
    case BeginFrame(finalLsn, commitTime, xid, _, _, _) =>
      assert p[..8] == BigEndian(finalLsn, 8) && p[8..16] == I64Bytes(commitTime) && p[16..20] == BigEndian(xid, 4);
      UintOfBigEndian(finalLsn, 8);
      UintOfBigEndian(xid, 4);
      I64ReadsBack(commitTime);
    case CommitFrame(_, lsn, endLsn, commitTime, _, _, _) =>
      assert p[1..9] == BigEndian(lsn, 8) && p[9..17] == BigEndian(endLsn, 8) && p[17..25] == I64Bytes(commitTime);
      UintOfBigEndian(lsn, 8);
      UintOfBigEndian(endLsn, 8);
      I64ReadsBack(commitTime);
    case MessageFrame(m, _, _, _) =>
      assert body[0] != Tag('B') && body[0] != Tag('C');
  }

  lemma {:induction false} XLogReadsBack(c: Codec, d: Delivery)
    requires DeliveryOk(c, d) && !d.KeepAliveFrame? && !d.OtherFrame?
    ensures CopyDataOf(PayloadOf(c, d)) == Ok(XLogCopy(d.walStart, d.walEnd, d.serverTime, BodyOf(c, d)))
  {
    Widths();
    var b := PayloadOf(c, d)[1..];
    assert b[..8] == BigEndian(d.walStart, 8) && b[8..16] == BigEndian(d.walEnd, 8);
    assert b[16..24] == I64Bytes(d.serverTime) && b[24..] == BodyOf(c, d);
    UintOfBigEndian(d.walStart, 8);
    UintOfBigEndian(d.walEnd, 8);
    I64ReadsBack(d.serverTime);
  }

  lemma {:induction false} PayloadReadsBack(c: Codec, d: Delivery)
    requires DeliveryOk(c, d) && !d.OtherFrame?
    ensures EventOf(PayloadOf(c, d)) == Ok(EventsOf(c, d)[0])
  {
    if d.KeepAliveFrame? {
      Widths();
      var b := PayloadOf(c, d)[1..];
      assert b[..8] == BigEndian(d.walEnd, 8) && b[8..16] == I64Bytes(d.serverTime);
      UintOfBigEndian(d.walEnd, 8);
      I64ReadsBack(d.serverTime);
    } else {
      XLogReadsBack(c, d);
      BoundaryReadsBack(c, d);
    }
  }

  /** The worker turns the bytes of any list of deliveries into exactly their events. */
  lemma {:induction false} StreamReadsBack(c: Codec, ds: seq<Delivery>)
    requires forall d <- ds :: DeliveryOk(c, d)
    ensures WorkerRun(WireBytes(c, ds)) == (Events(c, ds), Drained)
  {
    if ds != [] {
      var d := ds[0];
      assert d in ds;
      var tag := if d.OtherFrame? then d.tag else Tag('d');
      FrameReadsBack(tag, PayloadOf(c, d), WireBytes(c, ds[1..]));
      StreamReadsBack(c, ds[1..]);
      if d.OtherFrame? {
        assert EventsOf(c, d) + Events(c, ds[1..]) == Events(c, ds[1..]);
      } else {
        PayloadReadsBack(c, d);
        assert EventsOf(c, d) == [EventsOf(c, d)[0]];
      }
    }
  }

  // ── Through the decoder, with the relation cache ──────────────────────────

  /** Decoding every XLogData event in order, starting from `cache`. */
  function DecodeAll(c: Codec, events: seq<ReplEvent>, cache: RelationCache): seq<Decoded> {
    if events == [] then []
    else if events[0].XLogData? then
      var decoded := DecodePgoutput(c, events[0].data, cache);
      [decoded] + DecodeAll(c, events[1..], Learn(cache, decoded))
    else DecodeAll(c, events[1..], cache)
  }

  function Messages(ds: seq<Delivery>): seq<PgMsg> {
    if ds == [] then []
    else (if ds[0].MessageFrame? then [ds[0].msg] else []) + Messages(ds[1..])
  }

  /** The latest relation message for `relId`. */
  function LatestRelation(ms: seq<PgMsg>, relId: nat): Option<RelationInfo> {
    if ms == [] then None
    else
      var m := ms[|ms| - 1];
      if m.RelationMsg? && m.relId == relId then Some(RelationInfo(m.schema, m.table, Defs(m.columns)))
      else LatestRelation(ms[..|ms| - 1], relId)
  }

  /** The relations known after `ms`. */
  function CacheOf(ms: seq<PgMsg>): RelationCache {
    if ms == [] then map[]
    else
      var known := CacheOf(ms[..|ms| - 1]);
      Learn(known, Ok(Meaning(ms[|ms| - 1], known)))
  }

  /** Names come from the latest announcement of each relation. */
  lemma {:induction false} CacheHoldsLatest(ms: seq<PgMsg>, relId: nat)
    ensures LatestRelation(ms, relId) ==
            (if relId in CacheOf(ms) then Some(CacheOf(ms)[relId]) else None)
  {
    if ms != [] {
      CacheHoldsLatest(ms[..|ms| - 1], relId);
    }
  }

  /** The meanings of `ms`, coming after the messages `before`. */
  function Meanings(before: seq<PgMsg>, ms: seq<PgMsg>): seq<Decoded>
    decreases |ms|
  {
    if ms == [] then []
    else [Ok(Meaning(ms[0], CacheOf(before)))] + Meanings(before + [ms[0]], ms[1..])
  }

  lemma {:induction false} MeaningAt(before: seq<PgMsg>, ms: seq<PgMsg>, k: nat)
    requires k < |ms|
    ensures |Meanings(before, ms)| == |ms|
    ensures Meanings(before, ms)[k] == Ok(Meaning(ms[k], CacheOf(before + ms[..k])))
    decreases |ms|
  {
    if k == 0 {
      assert before + ms[..0] == before;
      if |ms| > 1 {
        MeaningAt(before + [ms[0]], ms[1..], 0);
      }
    } else {
      MeaningAt(before + [ms[0]], ms[1..], k - 1);
      assert before + [ms[0]] + ms[1..][..k - 1] == before + ms[..k];
    }
  }

  lemma {:induction false} DecodeAllMeans(c: Codec, ds: seq<Delivery>, before: seq<PgMsg>)
    requires CodecOk(c) && forall d <- ds :: DeliveryOk(c, d)
    ensures DecodeAll(c, Events(c, ds), CacheOf(before)) == Meanings(before, Messages(ds))
  {
    if ds != [] {
      var d, es := ds[0], Events(c, ds[1..]);
      assert d in ds;
      if d.MessageFrame? {
        assert Events(c, ds) == EventsOf(c, d) + es;
        MessageReadsBack(c, d.msg, CacheOf(before));
        assert (before + [d.msg])[..|before|] == before;
        DecodeAllMeans(c, ds[1..], before + [d.msg]);
        assert Events(c, ds)[1..] == es;
        assert Messages(ds) == [d.msg] + Messages(ds[1..]);
      } else {
        DecodeAllMeans(c, ds[1..], before);
        if d.OtherFrame? {
          assert Events(c, ds) == es;
        } else {
          assert Events(c, ds)[1..] == es;
        }
        assert Messages(ds) == Messages(ds[1..]);
      }
    }
  }

  /**
    The whole way from bytes to events: message `k` of the stream decodes to
    its meaning under the relations announced before it.
   */
  lemma {:induction false} WireRoundTrip(c: Codec, ds: seq<Delivery>)
    requires CodecOk(c) && forall d <- ds :: DeliveryOk(c, d)
    ensures WorkerRun(WireBytes(c, ds)).1 == Drained
    ensures var out := DecodeAll(c, WorkerRun(WireBytes(c, ds)).0, map[]); var ms := Messages(ds);
            && |out| == |ms|
            && forall k :: 0 <= k < |ms| ==> out[k] == Ok(Meaning(ms[k], CacheOf(ms[..k])))
  {
    StreamReadsBack(c, ds);
    DecodeAllMeans(c, ds, []);
    var ms := Messages(ds);
    forall k | 0 <= k < |ms|
      ensures |Meanings([], ms)| == |ms| && Meanings([], ms)[k] == Ok(Meaning(ms[k], CacheOf(ms[..k])))
    {
      MeaningAt([], ms, k);
      assert [] + ms[..k] == ms[..k];
    }
  }
}
