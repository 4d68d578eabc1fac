/** Decoded WAL events. */
module Event {
  import opened Wrappers

  datatype ColVal = Text(text: string) | Null | Unchanged

  type Row = map<string, ColVal>

  datatype ColumnDef = ColumnDef(name: string, isKey: bool, typeId: nat, typeModifier: int)

  datatype WalEvent =
    | Begin(lsn: nat, commitTime: int, xid: nat)
    | Commit(lsn: nat, endLsn: nat, commitTime: int)
    | Relation(relId: nat, schema: string, table: string, columns: seq<ColumnDef>)
    | Insert(relId: nat, schema: string, table: string, newRow: Row)
    | Update(relId: nat, schema: string, table: string, before: Option<Row>, newRow: Row)
    | Delete(relId: nat, schema: string, table: string, oldRow: Row)
    | Truncate(relIds: seq<nat>, tables: seq<string>, cascade: bool, restartSeqs: bool)
    | Keepalive(walEnd: nat, replyRequested: bool)
  {
    predicate IsRow() {
      Insert? || Update? || Delete?
    }

    /** The events the applier keeps: row changes and truncations. */
    predicate IsChange() {
      IsRow() || Truncate?
    }
  }

  /** An optional `(schema, table)` restriction; `None` applies to every table. */
  type TableKey = Option<(string, string)>

  predicate Applies(key: TableKey, schema: string, table: string) {
    key.None? || key.value == (schema, table)
  }

  function QualifiedName(schema: string, table: string): string {
    schema + "." + table
  }
}
