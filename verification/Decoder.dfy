/** The pgoutput decoder: one message body to one event, through the relation cache. */
module Decoder {
  import opened Wrappers
  import opened Bytes
  import opened Event

  datatype DecodeError =
    | Underrun | Unterminated | UnknownMessage(tag: byte) | UnknownKind(kind: byte) | BadUpdateFlag(flag: byte)

  datatype RelationInfo = RelationInfo(schema: string, table: string, columns: seq<ColumnDef>)

  type RelationCache = map<nat, RelationInfo>

  type Read<T> = Result<(T, seq<byte>), DecodeError>

  // ── What each reader takes from the front of the buffer ───────────────────

  function ReadUint(s: seq<byte>, w: nat): (r: Read<nat>)
    ensures r.Ok? ==> |r.value.1| == |s| - w
  {
    if |s| < w then Err(Underrun) else Ok((Uint(s[..w]), s[w..]))
  }

  function ReadByte(s: seq<byte>): (r: Read<byte>)
    ensures r.Ok? ==> |r.value.1| == |s| - 1
  {
    if s == [] then Err(Underrun) else Ok((s[0], s[1..]))
  }

  function ReadBytes(s: seq<byte>, n: nat): (r: Read<seq<byte>>)
    ensures r.Ok? ==> |r.value.1| == |s| - n
  {
    if |s| < n then Err(Underrun) else Ok((s[..n], s[n..]))
  }

  /** The length of the zero-free prefix. */
  function NonZeroSpan(s: seq<byte>): (n: nat)
    ensures n <= |s|
  {
    if s == [] || s[0] == 0 then 0 else 1 + NonZeroSpan(s[1..])
  }

  function ReadCstring(c: Codec, s: seq<byte>): (r: Read<string>)
    ensures r.Ok? ==> |r.value.1| < |s|
  {
    var n := NonZeroSpan(s);
    if n == |s| then Err(Unterminated) else Ok((c.strict(s[..n]).GetOr(""), s[n + 1..]))
  }

  function ReadColumn(c: Codec, s: seq<byte>): Read<ColumnDef> {
    var (flags, s) :- ReadByte(s);
    var (name, s) :- ReadCstring(c, s);
    var (typeId, s) :- ReadUint(s, 4);
    var (typeMod, s) :- ReadUint(s, 4);
    Ok((ColumnDef(name, flags as nat % 2 == 1, typeId, Signed(typeMod, 4)), s))
  }

  /** `n` columns read one after the other, added to `done`. */
  function ReadColumns(c: Codec, s: seq<byte>, n: nat, done: seq<ColumnDef>): Read<seq<ColumnDef>>
    decreases n
  {
    if n == 0 then Ok((done, s))
    else
      var (col, rest) :- ReadColumn(c, s);
      ReadColumns(c, rest, n - 1, done + [col])
  }

  function ReadColumnList(c: Codec, s: seq<byte>): Read<seq<ColumnDef>> {
    var (n, s) :- ReadUint(s, 2);
    ReadColumns(c, s, n, [])
  }

  /** Bytes after their four-byte length. */
  function ReadSized(s: seq<byte>): Read<seq<byte>> {
    var (len, s) :- ReadUint(s, 4);
    ReadBytes(s, len)
  }

  function ReadCell(c: Codec, s: seq<byte>): Read<ColVal> {
    var (kind, s) :- ReadByte(s);
    if kind == Tag('n') then Ok((Null, s))
    else if kind == Tag('u') then Ok((Unchanged, s))
    else if kind == Tag('t') || kind == Tag('b') then
      var (bytes, s) :- ReadSized(s);
      Ok((Text(if kind == Tag('t') then c.lossy(bytes) else "\\x" + Hex(bytes)), s))
    else Err(UnknownKind(kind))
  }

  function ColumnName(columns: seq<ColumnDef>, i: nat): string {
    if i < |columns| then columns[i].name else "?"
  }

  /** Cells `i` up to `n`, added to `row` under the names of `columns`. */
  function ReadCells(c: Codec, columns: seq<ColumnDef>, s: seq<byte>, i: nat, n: nat, row: Row): Read<Row>
    requires i <= n
    decreases n - i
  {
    if i == n then Ok((row, s))
    else
      var (val, s) :- ReadCell(c, s);
      ReadCells(c, columns, s, i + 1, n, row[ColumnName(columns, i) := val])
  }

  function ReadTuple(c: Codec, columns: seq<ColumnDef>, s: seq<byte>): Read<Row> {
    var (n, s) :- ReadUint(s, 2);
    ReadCells(c, columns, s, 0, n, map[])
  }

  function InfoOf(cache: RelationCache, relId: nat): RelationInfo {
    if relId in cache then cache[relId] else RelationInfo("unknown_" + Decimal(relId), "unknown", [])
  }

  function TruncatedName(cache: RelationCache, relId: nat): string {
    if relId in cache then QualifiedName(cache[relId].schema, cache[relId].table)
    else "<rel:" + Decimal(relId) + ">"
  }

  function ReadRelIds(s: seq<byte>, n: nat, done: seq<nat>): Read<seq<nat>>
    decreases n
  {
    if n == 0 then Ok((done, s))
    else
      var (relId, rest) :- ReadUint(s, 4);
      ReadRelIds(rest, n - 1, done + [relId])
  }

  function TruncatedNames(cache: RelationCache, relIds: seq<nat>): seq<string> {
    seq(|relIds|, i requires 0 <= i < |relIds| => TruncatedName(cache, relIds[i]))
  }

  // ── Messages ──────────────────────────────────────────────────────────────

  type Decoded = Result<Option<WalEvent>, DecodeError>

  function DecodeRelation(c: Codec, s: seq<byte>): Result<WalEvent, DecodeError> {
    var (relId, s) :- ReadUint(s, 4);
    var (schema, s) :- ReadCstring(c, s);
    var (table, s) :- ReadCstring(c, s);
    var (_, s) :- ReadByte(s);
    var (columns, s) :- ReadColumnList(c, s);
    Ok(Relation(relId, schema, table, columns))
  }

  function DecodeInsert(c: Codec, s: seq<byte>, cache: RelationCache): Result<WalEvent, DecodeError> {
    var (relId, s) :- ReadUint(s, 4);
    var (_, s) :- ReadByte(s);
    var info := InfoOf(cache, relId);
    var (row, s) :- ReadTuple(c, info.columns, s);
    Ok(Insert(relId, info.schema, info.table, row))
  }

  function DecodeUpdate(c: Codec, s: seq<byte>, cache: RelationCache): Result<WalEvent, DecodeError> {
    var (relId, s) :- ReadUint(s, 4);
    var info := InfoOf(cache, relId);
    var (flag, s) :- ReadByte(s);
    if flag == Tag('O') || flag == Tag('K') then
      var (before, s) :- ReadTuple(c, info.columns, s);
      var (_, s) :- ReadByte(s);
      var (row, s) :- ReadTuple(c, info.columns, s);
      Ok(Update(relId, info.schema, info.table, Some(before), row))
    else if flag == Tag('N') then
      var (row, s) :- ReadTuple(c, info.columns, s);
      Ok(Update(relId, info.schema, info.table, None, row))
    else Err(BadUpdateFlag(flag))
  }

  function DecodeDelete(c: Codec, s: seq<byte>, cache: RelationCache): Result<WalEvent, DecodeError> {
    var (relId, s) :- ReadUint(s, 4);
    var (_, s) :- ReadByte(s);
    var info := InfoOf(cache, relId);
    var (row, s) :- ReadTuple(c, info.columns, s);
    Ok(Delete(relId, info.schema, info.table, row))
  }

  function DecodeTruncate(s: seq<byte>, cache: RelationCache): Result<WalEvent, DecodeError> {
    var (n, s) :- ReadUint(s, 4);
    var (options, s) :- ReadByte(s);
    var (relIds, s) :- ReadRelIds(s, n, []);
    Ok(Truncate(relIds, TruncatedNames(cache, relIds), options as nat % 2 == 1, options as nat / 2 % 2 == 1))
  }

  predicate IsSkipped(tag: byte) {
    tag == Tag('O') || tag == Tag('Y') || tag == Tag('M')
  }

  function DecodeBody(c: Codec, tag: byte, s: seq<byte>, cache: RelationCache): Result<WalEvent, DecodeError> {
    if tag == Tag('R') then DecodeRelation(c, s)
    else if tag == Tag('I') then DecodeInsert(c, s, cache)
    else if tag == Tag('U') then DecodeUpdate(c, s, cache)
    else if tag == Tag('D') then DecodeDelete(c, s, cache)
    else if tag == Tag('T') then DecodeTruncate(s, cache)
    else Err(UnknownMessage(tag))
  }

  function DecodePgoutput(c: Codec, data: seq<byte>, cache: RelationCache): Decoded {
    if data == [] then Err(Underrun)
    else if IsSkipped(data[0]) then Ok(None)
    else
      match DecodeBody(c, data[0], data[1..], cache)
      case Ok(event) => Ok(Some(event))
      case Err(e) => Err(e)
  }

  /** A relation message replaces what the cache held for its id. */
  function Learn(cache: RelationCache, decoded: Decoded): RelationCache {
    match decoded
    case Ok(Some(Relation(relId, schema, table, columns))) =>
      cache[relId := RelationInfo(schema, table, columns)]
    case _ => cache
  }

  // ── The decoder itself: a cursor that never passes the end of its buffer ──

  class Buf {
    const data: seq<byte>
    var pos: nat

    ghost predicate Valid()
      reads this
    {
      pos <= |data|
    }

    ghost function Rest(): seq<byte>
      requires Valid()
      reads this
    {
      data[pos..]
    }

    /** The read succeeded as specified and moved the cursor by what it took. */
    ghost predicate Took<T>(r: Result<T, DecodeError>, spec: Read<T>)
      requires Valid()
      reads this
    {
      match spec
      case Ok((x, rest)) => r == Ok(x) && Rest() == rest
      case Err(e) => r == Err(e)
    }

    constructor (data: seq<byte>)
      ensures Valid() && Rest() == data
    {
      this.data := data;
      pos := 0;
    }

    method ReadU8() returns (r: Result<byte, DecodeError>)
      requires Valid()
      modifies this
      ensures Valid() && Took(r, ReadByte(old(Rest())))
    {
      if pos >= |data| {
        return Err(Underrun);
      }
      var b := data[pos];
      pos := pos + 1;
      return Ok(b);
    }

    method Take(n: nat) returns (r: Result<seq<byte>, DecodeError>)
      requires Valid()
      modifies this
      ensures Valid() && Took(r, ReadBytes(old(Rest()), n))
    {
      if pos + n > |data| {
        return Err(Underrun);
      }
      var slice := data[pos..pos + n];
      assert Rest()[..n] == slice && Rest()[n..] == data[pos + n..];
      pos := pos + n;
      return Ok(slice);
    }

    method ReadU16() returns (r: Result<nat, DecodeError>)
      requires Valid()
      modifies this
      ensures Valid() && Took(r, ReadUint(old(Rest()), 2))
    {
      var bytes :- Take(2);
      return Ok(Uint(bytes));
    }

    method ReadU32() returns (r: Result<nat, DecodeError>)
      requires Valid()
      modifies this
      ensures Valid() && Took(r, ReadUint(old(Rest()), 4))
    {
      var bytes :- Take(4);
      return Ok(Uint(bytes));
    }

    method ReadCstr(c: Codec) returns (r: Result<string, DecodeError>)
      requires Valid()
      modifies this
      ensures Valid() && Took(r, ReadCstring(c, old(Rest())))
    {
      var start := pos;
      while pos < |data| && data[pos] != 0
        invariant start <= pos <= |data|
        invariant NonZeroSpan(data[start..]) == pos - start + NonZeroSpan(Rest())
      {
        assert Rest()[1..] == data[pos + 1..];
        pos := pos + 1;
      }
      if pos >= |data| {
        return Err(Unterminated);
      }
      var s := c.strict(data[start..pos]).GetOr("");
      assert data[start..][..pos - start] == data[start..pos];
      assert data[start..][pos - start + 1..] == data[pos + 1..];
      pos := pos + 1;
      return Ok(s);
    }

    method Column(c: Codec) returns (r: Result<ColumnDef, DecodeError>)
      requires Valid()
      modifies this
      ensures Valid() && Took(r, ReadColumn(c, old(Rest())))
    {
      var flags :- ReadU8();
      var name :- ReadCstr(c);
      var typeId :- ReadU32();
      var typeMod :- ReadU32();
      return Ok(ColumnDef(name, flags as nat % 2 == 1, typeId, Signed(typeMod, 4)));
    }

    method ColumnItems(c: Codec, n: nat) returns (r: Result<seq<ColumnDef>, DecodeError>)
      requires Valid()
      modifies this
      ensures Valid() && Took(r, ReadColumns(c, old(Rest()), n, []))
    {
      ghost var all := ReadColumns(c, Rest(), n, []);
      var columns: seq<ColumnDef> := [];
      for i := 0 to n
        invariant Valid() && all == ReadColumns(c, Rest(), n - i, columns)
      {
        var col := Column(c);
        if col.Err? {
          return Err(col.error);
        }
        columns := columns + [col.value];
      }
      return Ok(columns);
    }

    method Columns(c: Codec) returns (r: Result<seq<ColumnDef>, DecodeError>)
      requires Valid()
      modifies this
      ensures Valid() && Took(r, ReadColumnList(c, old(Rest())))
    {
      var n :- ReadU16();
      r := ColumnItems(c, n);
    }

    method Cell(c: Codec) returns (r: Result<ColVal, DecodeError>)
      requires Valid()
      modifies this
      ensures Valid() && Took(r, ReadCell(c, old(Rest())))
    {
      var kind :- ReadU8();
      if kind == Tag('n') {
        r := Ok(Null);
      } else if kind == Tag('u') {
        r := Ok(Unchanged);
      } else if kind == Tag('t') {
        var len :- ReadU32();
        var bytes :- Take(len);
        r := Ok(Text(c.lossy(bytes)));
      } else if kind == Tag('b') {
        var len :- ReadU32();
        var bytes :- Take(len);
        r := Ok(Text("\\x" + Hex(bytes)));
      } else {
        r := Err(UnknownKind(kind));
      }
    }

    method Tuple(c: Codec, columns: seq<ColumnDef>) returns (r: Result<Row, DecodeError>)
      requires Valid()
      modifies this
      ensures Valid() && Took(r, ReadTuple(c, columns, old(Rest())))
    {
      var n :- ReadU16();
      ghost var start := Rest();
      var row: Row := map[];
      for i := 0 to n
        invariant Valid()
        invariant ReadCells(c, columns, start, 0, n, map[]) == ReadCells(c, columns, Rest(), i, n, row)
      {
        var val :- Cell(c);
        row := row[ColumnName(columns, i) := val];
      }
      return Ok(row);
    }

    method RelIds(n: nat) returns (r: Result<seq<nat>, DecodeError>)
      requires Valid()
      modifies this
      ensures Valid() && Took(r, ReadRelIds(old(Rest()), n, []))
    {
      var relIds := [];
      for i := 0 to n
        invariant Valid()
        invariant ReadRelIds(old(Rest()), n, []) == ReadRelIds(Rest(), n - i, relIds)
      {
        var relId :- ReadU32();
        relIds := relIds + [relId];
      }
      return Ok(relIds);
    }

    method Relation(c: Codec) returns (r: Result<WalEvent, DecodeError>)
      requires Valid()
      modifies this
      ensures Valid() && r == DecodeRelation(c, old(Rest()))
    {
      var relId :- ReadU32();
      var schema :- ReadCstr(c);
      var table :- ReadCstr(c);
      var _ :- ReadU8();
      var columns :- Columns(c);
      return Ok(WalEvent.Relation(relId, schema, table, columns));
    }

    method Insert(c: Codec, cache: RelationCache) returns (r: Result<WalEvent, DecodeError>)
      requires Valid()
      modifies this
      ensures Valid() && r == DecodeInsert(c, old(Rest()), cache)
    {
      var relId :- ReadU32();
      var _ :- ReadU8();
      var info := InfoOf(cache, relId);
      var row :- Tuple(c, info.columns);
      return Ok(WalEvent.Insert(relId, info.schema, info.table, row));
    }

    method Update(c: Codec, cache: RelationCache) returns (r: Result<WalEvent, DecodeError>)
      requires Valid()
      modifies this
      ensures Valid() && r == DecodeUpdate(c, old(Rest()), cache)
    {
      var relId :- ReadU32();
      var info := InfoOf(cache, relId);
      var flag :- ReadU8();
      var before: Option<Row> := None;
      if flag == Tag('O') || flag == Tag('K') {
        var row :- Tuple(c, info.columns);
        var _ :- ReadU8();
        before := Some(row);
      } else if flag != Tag('N') {
        return Err(BadUpdateFlag(flag));
      }
      var row :- Tuple(c, info.columns);
      return Ok(WalEvent.Update(relId, info.schema, info.table, before, row));
    }

    method Delete(c: Codec, cache: RelationCache) returns (r: Result<WalEvent, DecodeError>)
      requires Valid()
      modifies this
      ensures Valid() && r == DecodeDelete(c, old(Rest()), cache)
    {
      var relId :- ReadU32();
      var _ :- ReadU8();
      var info := InfoOf(cache, relId);
      var row :- Tuple(c, info.columns);
      return Ok(WalEvent.Delete(relId, info.schema, info.table, row));
    }

    method Truncate(cache: RelationCache) returns (r: Result<WalEvent, DecodeError>)
      requires Valid()
      modifies this
      ensures Valid() && r == DecodeTruncate(old(Rest()), cache)
    {
      var n :- ReadU32();
      var options :- ReadU8();
      var relIds :- RelIds(n);
      return Ok(WalEvent.Truncate(relIds, TruncatedNames(cache, relIds),
                                  options as nat % 2 == 1, options as nat / 2 % 2 == 1));
    }

    method Body(c: Codec, tag: byte, cache: RelationCache) returns (r: Result<WalEvent, DecodeError>)
      requires Valid()
      modifies this
      ensures Valid() && r == DecodeBody(c, tag, old(Rest()), cache)
    {
      if tag == Tag('R') {
        r := Relation(c);
      } else if tag == Tag('I') {
        r := Insert(c, cache);
      } else if tag == Tag('U') {
        r := Update(c, cache);
      } else if tag == Tag('D') {
        r := Delete(c, cache);
      } else if tag == Tag('T') {
        r := Truncate(cache);
      } else {
        r := Err(UnknownMessage(tag));
      }
    }
  }

  method Decode(c: Codec, data: seq<byte>, cache: RelationCache)
    returns (r: Decoded, cache': RelationCache)
    ensures r == DecodePgoutput(c, data, cache) && cache' == Learn(cache, r)
  {
    var buf := new Buf(data);
    var tag := buf.ReadU8();
    if tag.Err? {
      return Err(tag.error), cache;
    }
    if IsSkipped(tag.value) {
      return Ok(None), cache;
    }
    var event := buf.Body(c, tag.value, cache);
    match event
    case Err(e) =>
      r, cache' := Err(e), cache;
    case Ok(e) =>
      r, cache' := Ok(Some(e)), cache;
      if e.Relation? {
        cache' := cache[e.relId := RelationInfo(e.schema, e.table, e.columns)];
      }
  }
}
