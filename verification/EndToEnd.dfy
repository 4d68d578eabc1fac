/** The pipeline with its real stages, from the server's bytes to the target's tables. */
module EndToEnd {
  import opened Wrappers
  import opened Bytes
  import opened Host
  import opened Event
  import opened Proto
  import opened Decoder
  import opened Wire
  import opened Session
  import opened Replication
  import opened Delivery
  import opened SqlMeaning
  import Filter
  import Gate
  import Transforms
  import Sql
  import Worker

  /** What the command line and the configuration decide. */
  datatype Setup = Setup(
    codec: Codec, host: Host, config: Gate.Config, rules: seq<Filter.Rule>,
    transforms: seq<Transforms.Entry>, order: Sql.Order, schemaMap: Sql.SchemaMap)

  function RealStages(s: Setup): Stages {
    Stages(
      (data, cache) => DecodePgoutput(s.codec, data, cache),
      event => Gate.ShouldForward(s.host, s.config, s.rules, event),
      event => Transforms.ApplyEntries(s.transforms, event),
      events => Sql.GenStatements(s.order, events, s.schemaMap),
      s.config.emitBoundaries)
  }

  lemma {:induction false} RealStagesOk(s: Setup)
    ensures StagesOk(RealStages(s))
  {
    forall e | RealStages(s).transform(e).IsChange() ensures e.IsChange() {
      Transforms.TableKept(s.transforms, e);
    }
  }

  /** Without row rules it makes no difference that the gate comes before the transforms. */
  lemma {:induction false} GateIgnoresTransforms(s: Setup, e: WalEvent)
    requires s.rules == []
    ensures RealStages(s).forward(RealStages(s).transform(e)) == RealStages(s).forward(e)
  {
    Transforms.TableKept(s.transforms, e);
  }

  // ── The target's tables ───────────────────────────────────────────────────

  /** The tables after the transactions of a target log. */
  function TablesAfter(target: Db, log: TargetLog): Option<Db>
    decreases |log|
  {
    if log == [] then Some(target)
    else
      var next :- ExecAll(target, log[0]);
      TablesAfter(next, log[1..])
  }

  function ChangesOf(p: Stages): Txn -> seq<WalEvent> {
    (t: Txn) => Kept(p, t.changes)
  }

  /** All changes that pass the gate, transformed, in commit order. */
  function AllKept(p: Stages, txns: seq<Txn>): seq<WalEvent> {
    FlatMap(ChangesOf(p), txns)
  }

  lemma {:induction false} ReplaySplits(db: Db, xs: seq<WalEvent>, ys: seq<WalEvent>)
    ensures ReplayAll(db, xs + ys) == ReplayAll(ReplayAll(db, xs), ys)
    ensures AllAdmissible(db, xs + ys) <==> AllAdmissible(db, xs) && AllAdmissible(ReplayAll(db, xs), ys)
    decreases |xs|
  {
    if xs == [] {
      assert xs + ys == ys;
    } else {
      assert (xs + ys)[1..] == xs[1..] + ys;
      ReplaySplits(Replay(db, xs[0]), xs[1..], ys);
    }
  }

  lemma {:induction false} TablesAppend(target: Db, xs: TargetLog, ys: TargetLog)
    ensures TablesAfter(target, xs + ys) ==
            match TablesAfter(target, xs) case None => None case Some(mid) => TablesAfter(mid, ys)
    decreases |xs|
  {
    if xs == [] {
      assert xs + ys == ys;
    } else {
      assert (xs + ys)[1..] == xs[1..] + ys;
      match ExecAll(target, xs[0])
      case None =>
      case Some(next) => TablesAppend(next, xs[1..], ys);
    }
  }

  /** One source transaction, applied as one target transaction. */
  lemma {:induction false} TxnCarried(s: Setup, t: Txn, db: Db, target: Db)
    requires Sql.OrderOk(s.order) && Linked(db, target, s.schemaMap)
    requires AllAdmissible(db, Kept(RealStages(s), t.changes))
    ensures TablesAfter(target, TargetTxn(RealStages(s), t)).Some?
    ensures CarriedOver(db, target, ReplayAll(db, Kept(RealStages(s), t.changes)),
                        TablesAfter(target, TargetTxn(RealStages(s), t)).value, s.schemaMap)
  {
    var kept := Kept(RealStages(s), t.changes);
    var statements := Sql.GenStatements(s.order, kept, s.schemaMap);
    StatementsPreserveMeaning(s.order, kept, db, target, s.schemaMap);
    assert RealStages(s).statements(kept) == statements;
    if kept != [] && statements != [] {
      var next := ExecAll(target, statements).value;
      assert TablesAfter(next, []) == Some(next);
    }
  }

  lemma {:induction false} TxnsCarried(s: Setup, txns: seq<Txn>, db: Db, target: Db)
    requires Sql.OrderOk(s.order) && Linked(db, target, s.schemaMap)
    requires AllAdmissible(db, AllKept(RealStages(s), txns))
    ensures TablesAfter(target, Expected(RealStages(s), txns)).Some?
    ensures CarriedOver(db, target, ReplayAll(db, AllKept(RealStages(s), txns)),
                        TablesAfter(target, Expected(RealStages(s), txns)).value, s.schemaMap)
    decreases |txns|
  {
    var p := RealStages(s);
    if txns != [] {
      var kept, rest := Kept(p, txns[0].changes), AllKept(p, txns[1..]);
      ReplaySplits(db, kept, rest);
      TxnCarried(s, txns[0], db, target);
      var db1, target1 := ReplayAll(db, kept), TablesAfter(target, TargetTxn(p, txns[0])).value;
      TxnsCarried(s, txns[1..], db1, target1);
      TablesAppend(target, TargetTxn(p, txns[0]), Expected(p, txns[1..]));
      CarriedTwice(db, target, db1, target1, ReplayAll(db1, rest), TablesAfter(target1, Expected(p, txns[1..])).value, s.schemaMap);
    }
  }

  /**
    Whenever every session began past what was there, the target's tables are
    the source's: replaying the changes of the transactions from the starting
    position up to some later one, gated and transformed, gives what the
    target holds.
   */
  lemma {:induction false} TargetMirrorsSource(s: Setup, log: seq<Txn>, start: nat, slot: nat, w: World, db: Db, target: Db)
    requires GoodLog(log) && Sql.OrderOk(s.order) && Linked(db, target, s.schemaMap)
    requires Reachable(RealStages(s), log, start, slot, true, w) && w.buffer.Some? && AllBeganPast(log, w)
    requires AllAdmissible(db, AllKept(RealStages(s), log[First(log, Max(start, slot))..]))
    ensures var p := RealStages(s);
            var base := First(log, Max(start, slot));
            var next := NextTxn(base, w);
            && base <= next <= |log|
            && TablesAfter(target, w.target).Some?
            && CarriedOver(db, target, ReplayAll(db, AllKept(p, log[base..next])),
                           TablesAfter(target, w.target).value, s.schemaMap)
  {
    var p := RealStages(s);
    RealStagesOk(s);
    ExactlyOnce(p, log, start, slot, w);
    var base := First(log, Max(start, slot));
    var next := NextTxn(base, w);
    KeptSplits(p, log, base, next);
    ReplaySplits(db, AllKept(p, log[base..next]), AllKept(p, log[next..]));
    TxnsCarried(s, log[base..next], db, target);
  }

  lemma {:induction false} KeptSplits(p: Stages, log: seq<Txn>, base: nat, next: nat)
    requires base <= next <= |log|
    ensures AllKept(p, log[base..]) == AllKept(p, log[base..next]) + AllKept(p, log[next..])
  {
    FlatMapConcat(ChangesOf(p), log[base..next], log[next..]);
    assert log[base..] == log[base..next] + log[next..];
  }

  // ── The server's bytes ────────────────────────────────────────────────────

  /**
    A message in the server's layout is a legal payload exactly when what it
    stands for, under the relations announced on this connection, is not a
    change or is the change that comes next.
   */
  lemma {:induction false} EncodedIsLegal(s: Setup, log: seq<Txn>, cur: Cursor, m: PgMsg, walStart: nat, walEnd: nat)
    requires CodecOk(s.codec) && WellFormed(s.codec, m) && Covers(log, walEnd, cur.i)
    ensures Legal(RealStages(s), log, cur, XLogData(walStart, walEnd, EncodeMsg(s.codec, m))) <==>
            match Meaning(m, cur.cache)
            case None => true
            case Some(e) =>
              e.IsChange() ==> cur.i < |log| && cur.sent.Some? && cur.sent.value < |log[cur.i].changes| &&
                               e == log[cur.i].changes[cur.sent.value]
  {
    MessageReadsBack(s.codec, m, cur.cache);
  }

  /** What has been sent of a legal stream leads somewhere. */
  lemma {:induction false} LeadsPartWay(p: Stages, log: seq<Txn>, cur: Cursor, evs: seq<ReplEvent>, end: Cursor, n: nat)
    returns (mid: Cursor)
    requires Leads(p, log, cur, evs, end) && n <= |evs|
    ensures Leads(p, log, cur, evs[..n], mid)
    decreases n
  {
    if n == 0 {
      mid := cur;
    } else {
      mid := LeadsPartWay(p, log, Follow(p, cur, evs[0]), evs[1..], end, n - 1);
      assert evs[..n][1..] == evs[1..][..n - 1];
    }
  }

  /**
    When the server writes a legal stream, the session receives one: whatever
    the worker's turns, if none drops the beginning of a message, it has passed
    on the events of the stream up to some point, in order, and nothing else. It
    fails only for want of further bytes once it has passed on all of them.
   */
  lemma {:induction false} WorkerLeads(s: Setup, log: seq<Txn>, cur: Cursor, ds: seq<Wire.Delivery>, end: Cursor,
      interval: nat, applied: nat, now: nat, turns: seq<Worker.Turn>) returns (mid: Cursor)
    requires forall d <- ds :: DeliveryOk(s.codec, d)
    requires Leads(RealStages(s), log, cur, Events(s.codec, ds), end) && Worker.Whole(turns)
    ensures var o := Worker.Turns(interval, Worker.Fresh(applied, now - interval), WireBytes(s.codec, ds), turns);
            && o.st.events <= Events(s.codec, ds) && Leads(RealStages(s), log, cur, o.st.events, mid)
            && (o.Over? && o.end.Broken? ==> o.end.error == Eof && o.st.events == Events(s.codec, ds))
  {
    var bytes, st := WireBytes(s.codec, ds), Worker.Fresh(applied, now - interval);
    StreamReadsBack(s.codec, ds);
    Worker.TurnsExplain(interval, st, bytes, turns);
    var got := Worker.Turns(interval, st, bytes, turns).st.events;
    Worker.ExplainsPrefix(bytes, Worker.Turns(interval, st, bytes, turns));
    mid := LeadsPartWay(RealStages(s), log, cur, Events(s.codec, ds), end, |got|);
    assert got == Events(s.codec, ds)[..|got|];
  }

  /**
    One keepalive of a legal stream, whose header has arrived when the idle
    timeout comes: the rest of it is read as a header, and the session breaks
    without its event.
   */
  lemma {:induction false} HalfReadBreaks(s: Setup, log: seq<Txn>, cur: Cursor, walEnd: nat, interval: nat, at: Worker.Tick)
    requires U32(walEnd) && Covers(log, walEnd, cur.i) && at.writes
    ensures var d := KeepAliveFrame(walEnd, 0, false);
            var turns := [Worker.Turn(at, [], false, Worker.Idle(at, 5)), Worker.Turn(at, [], false, Worker.Arrived(at))];
            var o := Worker.Turns(interval, Worker.Fresh(at.applied, at.now - interval), WireBytes(s.codec, [d]), turns);
            && Leads(RealStages(s), log, cur, Events(s.codec, [d]), cur)
            && o.Over? && o.end == Worker.Broken(BadLength(0)) && o.st.events == []
  {
    var d := KeepAliveFrame(walEnd, 0, false);
    var st := Worker.Fresh(at.applied, at.now - interval);
    var bytes := WireBytes(s.codec, [d]);
    assert EventsOf(s.codec, d) == [KeepAlive(walEnd)] && Events(s.codec, [d][1..]) == [];
    assert Events(s.codec, [d]) == [KeepAlive(walEnd)] && [KeepAlive(walEnd)][1..] == [];
    var tail := I64Bytes(0) + [0 as byte];
    assert PayloadOf(s.codec, d) == [Tag('k')] + (BigEndian(walEnd, 8) + tail);
    assert WireBytes(s.codec, [d][1..]) == [];
    assert bytes == Frame(Tag('d'), PayloadOf(s.codec, d));
    FrameReadsBack(Tag('d'), PayloadOf(s.codec, d), []);
    assert bytes + [] == bytes;
    assert Cut(bytes, 5) == PayloadOf(s.codec, d);
    Worker.HeaderDropped(walEnd, tail);
    Worker.BreaksNext(interval, st, bytes, at, 5, BadLength(0));
  }
}
