/** The runs of the scenarios with the real stages and the messages a server sends. */
module RealRuns {
  import opened Wrappers
  import opened Bytes
  import opened Event
  import opened Proto
  import opened Decoder
  import opened Wire
  import opened Session
  import opened Replication
  import opened Delivery
  import opened Scenarios
  import opened EndToEnd
  import Sql

  // ── A log that can be sent ────────────────────────────────────────────────

  /** The table a message is about. */
  predicate About(m: PgMsg, relId: nat) {
    match m
    case InsertMsg(id, _) => id == relId
    case UpdateMsg(id, _, _) => id == relId
    case DeleteMsg(id, _, _) => id == relId
    case TruncateMsg(ids, _) => ids == [relId]
    case _ => false
  }

  function Announced(rel: PgMsg, cache: RelationCache): RelationCache {
    Learn(cache, Ok(Meaning(rel, cache)))
  }

  /** The change is what `m` means once `rel` has been announced. */
  ghost predicate ChangeOf(c: Codec, e: WalEvent, rel: PgMsg, m: PgMsg) {
    && rel.RelationMsg? && WellFormed(c, rel) && WellFormed(c, m) && About(m, rel.relId)
    && Meaning(m, Announced(rel, map[])) == Some(e)
  }

  /** Every change is a message about one announced table. */
  ghost predicate RealLog(c: Codec, log: seq<Txn>) {
    forall i, m :: 0 <= i < |log| && 0 <= m < |log[i].changes| ==> IsReal(c, log[i].changes[m])
  }

  ghost predicate IsReal(c: Codec, e: WalEvent) {
    exists rel, m :: ChangeOf(c, e, rel, m)
  }

  /** What a message means depends on nothing but its table's latest announcement. */
  lemma {:induction false} MeaningLocal(c: Codec, e: WalEvent, rel: PgMsg, m: PgMsg, cache: RelationCache)
    requires ChangeOf(c, e, rel, m)
    ensures Meaning(m, Announced(rel, cache)) == Some(e)
  {
    assert InfoOf(Announced(rel, cache), rel.relId) == InfoOf(Announced(rel, map[]), rel.relId);
    if m.TruncateMsg? {
      assert TruncatedNames(Announced(rel, cache), [rel.relId]) == TruncatedNames(Announced(rel, map[]), [rel.relId]);
    }
  }

  function Payload(c: Codec, at: nat, m: PgMsg): ReplEvent
    requires WellFormed(c, m)
  {
    XLogData(at, at, EncodeMsg(c, m))
  }

  /** A change as it is sent: the relation, then the row. */
  function ChangeScript(c: Codec, at: nat, rel: PgMsg, m: PgMsg, env: Env): Script
    requires WellFormed(c, rel) && WellFormed(c, m)
  {
    [(Payload(c, at, rel), Env(true, Committed)), (Payload(c, at, m), env)]
  }

  /** A payload the stages decode to an announcement. */
  lemma {:induction false} RelationStep(p: Stages, log: seq<Txn>, cur: Cursor, at: nat, data: seq<byte>, e: WalEvent, env: Env)
    requires Covers(log, at, cur.i) && p.decode(data, cur.cache) == Ok(Some(e)) && e.Relation?
    ensures Takes(p, log, cur, [(XLogData(at, at, data), env)], Cursor(cur.i, cur.sent, Learn(cur.cache, Ok(Some(e)))))
  {
    TakesOne(p, log, cur, XLogData(at, at, data), env);
  }

  /** A payload the stages decode to the change that comes next. */
  lemma {:induction false} ChangeStep(p: Stages, log: seq<Txn>, i: nat, m: nat, cache: RelationCache, at: nat,
      data: seq<byte>, env: Env)
    requires GoodLog(log) && i < |log| && m < |log[i].changes| && Covers(log, at, i)
    requires p.decode(data, cache) == Ok(Some(log[i].changes[m]))
    ensures Takes(p, log, Cursor(i, Some(m), cache), [(XLogData(at, at, data), env)], Cursor(i, Some(m + 1), cache))
  {
    assert log[i].changes[m].IsChange();
    TakesOne(p, log, Cursor(i, Some(m), cache), XLogData(at, at, data), env);
  }

  lemma {:induction false} Decodes(s: Setup, m: PgMsg, cache: RelationCache, e: WalEvent)
    requires CodecOk(s.codec) && WellFormed(s.codec, m) && Meaning(m, cache) == Some(e)
    ensures RealStages(s).decode(EncodeMsg(s.codec, m), cache) == Ok(Some(e))
  {
    MessageReadsBack(s.codec, m, cache);
  }

  /** One change leads the cursor past it. */
  lemma {:induction false} ChangeLeads(s: Setup, log: seq<Txn>, i: nat, m: nat, cache: RelationCache, rel: PgMsg,
      msg: PgMsg, env: Env)
    requires CodecOk(s.codec) && GoodLog(log) && i < |log| && m < |log[i].changes|
    requires ChangeOf(s.codec, log[i].changes[m], rel, msg)
    ensures Takes(RealStages(s), log, Cursor(i, Some(m), cache), ChangeScript(s.codec, log[i].finalLsn, rel, msg, env),
                  Cursor(i, Some(m + 1), Announced(rel, cache)))
  {
    var p, at := RealStages(s), log[i].finalLsn;
    var one, two := (Payload(s.codec, at, rel), Env(true, Committed)), (Payload(s.codec, at, msg), env);
    MeaningLocal(s.codec, log[i].changes[m], rel, msg, cache);
    Decodes(s, rel, cache, Meaning(rel, cache).value);
    Decodes(s, msg, Announced(rel, cache), log[i].changes[m]);
    RelationStep(p, log, Cursor(i, Some(m), cache), at, EncodeMsg(s.codec, rel), Meaning(rel, cache).value, Env(true, Committed));
    ChangeStep(p, log, i, m, Announced(rel, cache), at, EncodeMsg(s.codec, msg), env);
    TakesJoins(p, log, Cursor(i, Some(m), cache), [one], Cursor(i, Some(m), Announced(rel, cache)), [two],
               Cursor(i, Some(m + 1), Announced(rel, cache)));
    assert [one] + [two] == ChangeScript(s.codec, at, rel, msg, env);
  }

  /** Some way to send a change: its relation, known afterwards, and the row. */
  lemma {:induction false} ChangeSent(s: Setup, log: seq<Txn>, i: nat, m: nat, cache: RelationCache, env: Env)
    returns (relation: (ReplEvent, Env), change: (ReplEvent, Env), known: RelationCache)
    requires CodecOk(s.codec) && GoodLog(log) && RealLog(s.codec, log) && i < |log| && m < |log[i].changes|
    ensures Takes(RealStages(s), log, Cursor(i, Some(m), cache), [relation, change], Cursor(i, Some(m + 1), known))
    ensures relation.0.XLogData? && Learn(cache, RealStages(s).decode(relation.0.data, cache)) == known
    ensures change.0.XLogData? && RealStages(s).decode(change.0.data, known) == Ok(Some(log[i].changes[m])) && change.1 == env
  {
    var e, at := log[i].changes[m], log[i].finalLsn;
    assert IsReal(s.codec, e);
    var rel, msg :| ChangeOf(s.codec, e, rel, msg);
    ChangeLeads(s, log, i, m, cache, rel, msg, env);
    relation, change := (Payload(s.codec, at, rel), Env(true, Committed)), (Payload(s.codec, at, msg), env);
    known := Announced(rel, cache);
    MeaningLocal(s.codec, e, rel, msg, cache);
    Decodes(s, rel, cache, Meaning(rel, cache).value);
    Decodes(s, msg, known, e);
  }

  /** The changes of a transaction from the `m`th on. */
  lemma {:induction false} ChangesLead(s: Setup, log: seq<Txn>, i: nat, m: nat, cache: RelationCache)
    returns (script: Script, end: RelationCache)
    requires CodecOk(s.codec) && GoodLog(log) && RealLog(s.codec, log) && i < |log| && m <= |log[i].changes|
    ensures Takes(RealStages(s), log, Cursor(i, Some(m), cache), script, Cursor(i, Some(|log[i].changes|), end))
    decreases |log[i].changes| - m
  {
    if m == |log[i].changes| {
      script, end := [], cache;
      assert Scenarios.Events(script) == [];
    } else {
      var relation, change, known := ChangeSent(s, log, i, m, cache, Env(true, Committed));
      var more;
      more, end := ChangesLead(s, log, i, m + 1, known);
      script := [relation, change] + more;
      TakesMore(RealStages(s), log, i, m, cache, relation, change, known, more, end);
    }
  }

  lemma {:induction false} TakesMore(p: Stages, log: seq<Txn>, i: nat, m: nat, cache: RelationCache,
      relation: (ReplEvent, Env), change: (ReplEvent, Env), known: RelationCache, more: Script, end: RelationCache)
    requires i < |log| && Takes(p, log, Cursor(i, Some(m), cache), [relation, change], Cursor(i, Some(m + 1), known))
    requires Takes(p, log, Cursor(i, Some(m + 1), known), more, Cursor(i, Some(|log[i].changes|), end))
    ensures Takes(p, log, Cursor(i, Some(m), cache), [relation, change] + more, Cursor(i, Some(|log[i].changes|), end))
  {
    TakesJoins(p, log, Cursor(i, Some(m), cache), [relation, change], Cursor(i, Some(m + 1), known), more,
               Cursor(i, Some(|log[i].changes|), end));
  }

  function Opening(log: seq<Txn>, i: nat): Script
    requires i < |log|
  {
    [(ReplEvent.Begin(log[i].finalLsn, 0, 0), Env(true, Committed))]
  }

  lemma {:induction false} OpeningLeads(p: Stages, log: seq<Txn>, i: nat, cache: RelationCache)
    requires i < |log|
    ensures Takes(p, log, Cursor(i, None, cache), Opening(log, i), Cursor(i, Some(0), cache))
  {
    TakesOne(p, log, Cursor(i, None, cache), ReplEvent.Begin(log[i].finalLsn, 0, 0), Env(true, Committed));
  }

  /** A log of real changes can be sent with the real stages, whatever the session knows. */
  lemma {:induction false} RealSendable(s: Setup, log: seq<Txn>)
    requires CodecOk(s.codec) && GoodLog(log) && RealLog(s.codec, log)
    ensures Scenarios.Sendable(RealStages(s), log)
  {
    forall i, cache | 0 <= i < |log| ensures CanSend(RealStages(s), log, i, cache) {
      var script, end := RealCarries(s, log, i, cache);
    }
  }

  lemma {:induction false} RealCarries(s: Setup, log: seq<Txn>, i: nat, cache: RelationCache)
    returns (script: Script, end: RelationCache)
    requires CodecOk(s.codec) && GoodLog(log) && RealLog(s.codec, log) && i < |log|
    ensures Carries(RealStages(s), log, i, cache, script, end)
  {
    var more;
    more, end := ChangesLead(s, log, i, 0, cache);
    OpeningLeads(RealStages(s), log, i, cache);
    script := Opening(log, i) + more;
    TakesJoins(RealStages(s), log, Cursor(i, None, cache), Opening(log, i), Cursor(i, Some(0), cache), more,
               Cursor(i, Some(|log[i].changes|), end));
  }

  // ── The flaws, with real messages ─────────────────────────────────────────

  /**
    In any setup and for any log of real changes: if the first transaction to
    be sent executes something, each flaw has it executed twice. Only the one in
    doubt and the restart itself need the process to be restarted.
   */
  lemma {:induction false} RealFlawRepeats(s: Setup, log: seq<Txn>, start: nat, slot: nat, flaw: Flaw)
    returns (acts: seq<Action>)
    requires CodecOk(s.codec) && GoodLog(log) && RealLog(s.codec, log) && First(log, Max(start, slot)) < |log|
    requires TargetTxn(RealStages(s), log[First(log, Max(start, slot))]) != []
    requires flaw.BoundaryNotTaken? ==> s.config.emitBoundaries
    ensures var i := First(log, Max(start, slot)); var once := TargetTxn(RealStages(s), log[i]);
            var r := RunAll(RealStages(s), log, start, Init(start, slot, true), acts);
            && r.Some? && r.value.hist == [i, i] && r.value.target == once + once
            && (flaw.BoundaryNotTaken? ==> Calm(acts))
  {
    var i := First(log, Max(start, slot));
    RealStagesOk(s);
    var script, end := RealCarries(s, log, i, map[]);
    var commit := ReplEvent.Commit(0, log[i].endLsn, 0);
    var lsn := FlawRepeats(RealStages(s), log, start, slot, script, end, commit, flaw);
    acts := FlawedRun(flaw, lsn, script, commit);
    if flaw.BoundaryNotTaken? {
      FlawCalm(lsn, script, commit);
    }
  }

  // ── One such run, written out ─────────────────────────────────────────────

  const ONE_ROW := Insert(1, "public", "t", map["id" := Text("1")])

  const ONE_TXN := [Txn(10, 20, [ONE_ROW])]

  const ONE_STATEMENT := Sql.StatementText(Sql.InsertInto(Sql.Qualified("public", "t"), ["id"], [Some("1")]))

  /** Nothing filtered, nothing transformed, nothing renamed. */
  ghost predicate Plain(s: Setup) {
    && s.config.tables == [] && s.config.ops == [] && s.rules == [] && s.transforms == []
    && s.schemaMap == map[] && Sql.OrderOk(s.order)
  }

  /** The names and the value of the row travel. */
  ghost predicate Travels(c: Codec) {
    CodecOk(c) && NameOk(c, "public") && NameOk(c, "t") && NameOk(c, "id") && U32(|c.encode("1")|)
  }

  lemma {:induction false} OneRowIsReal(c: Codec)
    requires Travels(c)
    ensures RealLog(c, ONE_TXN)
  {
    var column := ((1 as byte), ColumnDef("id", true, 23, -1));
    var rel := RelationMsg(1, "public", "t", Tag('d'), [column]);
    var msg := InsertMsg(1, [TextCell("1")]);
    assert ColumnOk(c, column);
    assert Defs([column]) == [column.1];
    assert RowOf([column.1], [TextCell("1")][..0]) == map[];
    assert RowOf([column.1], [TextCell("1")]) == map["id" := Text("1")];
    assert ChangeOf(c, ONE_ROW, rel, msg);
  }

  lemma {:induction false} OnlyOne(names: seq<string>, name: string)
    requires Distinct(names) && forall c :: c in names <==> c == name
    ensures names == [name]
  {
    assert name in names;
    forall x | 0 <= x < |names| ensures names[x] == name && x == 0 {
      assert names[x] in names && names[0] in names;
    }
    assert names[|names| - 1] == name;
  }

  lemma {:induction false} OneRowColumns(order: Sql.Order)
    requires Sql.OrderOk(order)
    ensures Sql.InsertColumns(order, ONE_ROW.newRow) == ["id"]
  {
    var cols := Sql.InsertColumns(order, ONE_ROW.newRow);
    assert Sql.ListsKeys(order(ONE_ROW.newRow), ONE_ROW.newRow);
    assert Distinct(cols) && forall c :: c in cols <==> c == "id";
    OnlyOne(cols, "id");
  }

  lemma {:induction false} OneRowStatement(s: Setup)
    requires Plain(s)
    ensures Sql.GenStatements(s.order, [ONE_ROW], s.schemaMap) == [ONE_STATEMENT]
  {
    OneRowColumns(s.order);
    FlatMapAppend(Sql.Emitter(s.order, s.schemaMap), [], ONE_ROW);
    assert [] + [ONE_ROW] == [ONE_ROW];
  }

  lemma {:induction false} OneKept(p: Stages, e: WalEvent)
    requires e.IsChange() && p.forward(e) && p.transform(e) == e
    ensures Kept(p, [e]) == [e]
  {
    FlatMapAppend(KeptOf(p), [], e);
    assert [] + [e] == [e];
  }

  lemma {:induction false} OneTarget(p: Stages, t: Txn, e: WalEvent, statement: string)
    requires t.changes == [e] && e.IsChange() && p.forward(e) && p.transform(e) == e && p.statements([e]) == [statement]
    ensures TargetTxn(p, t) == [[statement]]
  {
    OneKept(p, e);
  }

  lemma {:induction false} OneRowTarget(s: Setup)
    requires Plain(s)
    ensures TargetTxn(RealStages(s), ONE_TXN[0]) == [[ONE_STATEMENT]]
  {
    OneRowStatement(s);
    OneTarget(RealStages(s), ONE_TXN[0], ONE_ROW, ONE_STATEMENT);
  }

  /** One row inserted at the source stands in the target twice, by each of the flaws. */
  lemma {:induction false} OneRowTwice(s: Setup, flaw: Flaw) returns (acts: seq<Action>)
    requires Plain(s) && Travels(s.codec) && (flaw.BoundaryNotTaken? ==> s.config.emitBoundaries)
    ensures var r := RunAll(RealStages(s), ONE_TXN, 0, Init(0, 0, true), acts);
            r.Some? && r.value.target == [[ONE_STATEMENT], [ONE_STATEMENT]]
  {
    OneRowIsReal(s.codec);
    OneRowTarget(s);
    assert First(ONE_TXN, 0) == 0;
    acts := RealFlawRepeats(s, ONE_TXN, 0, 0, flaw);
    assert [[ONE_STATEMENT]] + [[ONE_STATEMENT]] == [[ONE_STATEMENT], [ONE_STATEMENT]];
  }

  /**
    In any setup and for any log of real changes: if the first change of the
    first transaction to be sent is forwarded, its send may fail, the rest of
    the transaction go through, and no living process is ever sent it again.
   */
  lemma {:induction false} RealSinkLoss(s: Setup, log: seq<Txn>, start: nat, slot: nat, applier: bool)
    returns (before: Script, ev: ReplEvent, acts: seq<Action>)
    requires CodecOk(s.codec) && GoodLog(log) && RealLog(s.codec, log) && First(log, Max(start, slot)) < |log|
    requires var t := log[First(log, Max(start, slot))]; t.changes != [] && RealStages(s).forward(t.changes[0])
    ensures var p := RealStages(s); var i := First(log, Max(start, slot)); var failed := (ev, Env(false, Committed));
            var r := RunAll(p, log, start, Init(start, slot, applier), acts);
            && ev.XLogData?
            && p.decode(ev.data, Fold(p, Fresh(start, applier), before).cache) == Ok(Some(log[i].changes[0]))
            && Fold(p, Fresh(start, applier), before + [failed]).sent == Fold(p, Fresh(start, applier), before).sent
            && r.Some? && r.value.hist == [i] && !CanBeResent(p, log, start, r.value, i)
  {
    var p, i := RealStages(s), First(log, Max(start, slot));
    RealStagesOk(s);
    var relation, failed, known := ChangeSent(s, log, i, 0, map[], Env(false, Committed));
    var after, end := ChangesLead(s, log, i, 1, known);
    ev, before := failed.0, Opening(log, i) + [relation];
    acts := Loses(p, log, start, slot, applier, relation, ev, known, after, end);
  }

  lemma {:induction false} Loses(p: Stages, log: seq<Txn>, start: nat, slot: nat, applier: bool,
      relation: (ReplEvent, Env), ev: ReplEvent, known: RelationCache, after: Script, end: RelationCache) returns (acts: seq<Action>)
    requires StagesOk(p) && GoodLog(log) && First(log, Max(start, slot)) < |log|
    requires var t := log[First(log, Max(start, slot))]; t.changes != [] && p.forward(t.changes[0])
    requires relation.0.XLogData? && Learn(map[], p.decode(relation.0.data, map[])) == known && ev.XLogData?
    requires var i := First(log, Max(start, slot)); var failed := (ev, Env(false, Committed));
             && Takes(p, log, Cursor(i, Some(0), map[]), [relation, failed], Cursor(i, Some(1), known))
             && Takes(p, log, Cursor(i, Some(1), known), after, Cursor(i, Some(|log[i].changes|), end))
             && p.decode(ev.data, known) == Ok(Some(log[i].changes[0]))
    ensures var i := First(log, Max(start, slot)); var failed := (ev, Env(false, Committed));
            var before := Opening(log, i) + [relation];
            var r := RunAll(p, log, start, Init(start, slot, applier), acts);
            && p.decode(ev.data, Fold(p, Fresh(start, applier), before).cache) == Ok(Some(log[i].changes[0]))
            && Fold(p, Fresh(start, applier), before + [failed]).sent == Fold(p, Fresh(start, applier), before).sent
            && r.Some? && r.value.hist == [i] && !CanBeResent(p, log, start, r.value, i)
  {
    var i := First(log, Max(start, slot));
    var commit := ReplEvent.Commit(0, log[i].endLsn, 0);
    var failed := (ev, Env(false, Committed));
    var before := Opening(log, i) + [relation];
    OpeningLeads(p, log, i, map[]);
    LossCarries(p, log, i, Opening(log, i), relation, failed, known, after, end);
    BeforeKnows(p, log, i, start, applier, relation, known);
    SinkFailureLoses(p, log, start, slot, applier, before, ev, log[i].changes[0], after, end, commit, Env(true, Committed));
    acts := Round(before + [failed] + after, commit, Env(true, Committed));
  }

  lemma {:induction false} LossCarries(p: Stages, log: seq<Txn>, i: nat, opening: Script, relation: (ReplEvent, Env),
      failed: (ReplEvent, Env), known: RelationCache, after: Script, end: RelationCache)
    requires i < |log| && Takes(p, log, Cursor(i, None, map[]), opening, Cursor(i, Some(0), map[]))
    requires Takes(p, log, Cursor(i, Some(0), map[]), [relation, failed], Cursor(i, Some(1), known))
    requires Takes(p, log, Cursor(i, Some(1), known), after, Cursor(i, Some(|log[i].changes|), end))
    ensures Carries(p, log, i, map[], opening + [relation] + [failed] + after, end)
  {
    TakesJoins(p, log, Cursor(i, None, map[]), opening, Cursor(i, Some(0), map[]), [relation, failed],
               Cursor(i, Some(1), known));
    TakesJoins(p, log, Cursor(i, None, map[]), opening + [relation, failed], Cursor(i, Some(1), known), after,
               Cursor(i, Some(|log[i].changes|), end));
    Regroup(opening, relation, failed);
  }

  lemma {:induction false} Regroup(xs: Script, x: (ReplEvent, Env), y: (ReplEvent, Env))
    ensures xs + [x, y] == xs + [x] + [y]
  {
  }

  /** After the opening and the announcement the session knows the relation. */
  lemma {:induction false} BeforeKnows(p: Stages, log: seq<Txn>, i: nat, start: nat, applier: bool,
      relation: (ReplEvent, Env), known: RelationCache)
    requires i < |log| && relation.0.XLogData? && Learn(map[], p.decode(relation.0.data, map[])) == known
    ensures Fold(p, Fresh(start, applier), Opening(log, i) + [relation]).cache == known
  {
    var begin := Opening(log, i)[0];
    var before: Script := [begin, relation];
    assert before == Opening(log, i) + [relation];
    var st1 := OnEvent(p, Fresh(start, applier), begin.0, begin.1).0;
    assert before[1..] == [relation] && before[1..][1..] == [];
    var st2 := OnEvent(p, st1, relation.0, relation.1).0;
    assert Fold(p, st2, []) == st2;
    assert Fold(p, st1, before[1..]) == st2;
  }
}
