/**
  The whole pipeline as a step system: a server with an ordered transaction
  log, the queue of one connection, the session, the applier whose buffer
  outlives connections, and a target that takes one transaction at a time.
 */
module Replication {
  import opened Wrappers
  import opened Event
  import opened Proto
  import opened Decoder
  import opened Session

  /** Transforms turn nothing else into a change. */
  ghost predicate StagesOk(p: Stages) {
    forall e :: p.transform(e).IsChange() ==> e.IsChange()
  }

  // ── The server ────────────────────────────────────────────────────────────

  datatype Txn = Txn(finalLsn: nat, endLsn: nat, changes: seq<WalEvent>)

  /** Transactions in commit order, their positions in order too. */
  ghost predicate GoodLog(log: seq<Txn>) {
    && (forall i :: 0 <= i < |log| ==> log[i].finalLsn < log[i].endLsn)
    && (forall i, j :: 0 <= i < j < |log| ==> log[i].endLsn <= log[j].finalLsn)
    && (forall i, m :: 0 <= i < |log| && 0 <= m < |log[i].changes| ==> log[i].changes[m].IsChange())
  }

  /** The first transaction at or after `from` that a stream starting at `lsn` re-sends. */
  function FirstFrom(log: seq<Txn>, lsn: nat, from: nat): (i: nat)
    requires from <= |log|
    ensures from <= i <= |log|
    ensures i < |log| ==> lsn <= log[i].finalLsn
    ensures forall j :: from <= j < i ==> log[j].finalLsn < lsn
    decreases |log| - from
  {
    if from == |log| || lsn <= log[from].finalLsn then from else FirstFrom(log, lsn, from + 1)
  }

  function First(log: seq<Txn>, lsn: nat): nat {
    FirstFrom(log, lsn, 0)
  }

  /**
    A place in the stream of one connection: transaction `i` is next, or is
    being sent with `sent` of its changes out; `cache` holds the relations
    announced so far.
   */
  datatype Cursor = Cursor(i: nat, sent: Option<nat>, cache: RelationCache)

  /** `lsn` does not run past transaction `i`. */
  predicate Covers(log: seq<Txn>, lsn: nat, i: nat) {
    i < |log| ==> lsn <= log[i].finalLsn
  }

  /** What the server may send next. Payloads decode, under the relations already announced. */
  predicate Legal(p: Stages, log: seq<Txn>, cur: Cursor, ev: ReplEvent) {
    match ev
    case KeepAlive(walEnd) => Covers(log, walEnd, cur.i)
    case Begin(finalLsn, _, _) => cur.sent.None? && cur.i < |log| && finalLsn == log[cur.i].finalLsn
    case Commit(_, endLsn, _) =>
      cur.i < |log| && cur.sent == Some(|log[cur.i].changes|) && endLsn == log[cur.i].endLsn
    case XLogData(_, walEnd, data) =>
      && Covers(log, walEnd, cur.i)
      && match p.decode(data, cur.cache)
         case Ok(Some(e)) =>
           e.IsChange() ==> cur.i < |log| && cur.sent.Some? && cur.sent.value < |log[cur.i].changes| &&
                            e == log[cur.i].changes[cur.sent.value]
         case Ok(None) => true
         case Err(_) => false
  }

  function Follow(p: Stages, cur: Cursor, ev: ReplEvent): Cursor {
    match ev
    case KeepAlive(_) => cur
    case Begin(_, _, _) => cur.(sent := Some(0))
    case Commit(_, _, _) => cur.(i := cur.i + 1, sent := None)
    case XLogData(_, _, data) =>
      var decoded := p.decode(data, cur.cache);
      var more := decoded.Ok? && decoded.value.Some? && decoded.value.value.IsChange() && cur.sent.Some?;
      Cursor(cur.i, if more then Some(cur.sent.value + 1) else cur.sent, Learn(cur.cache, decoded))
  }

  /** Every event is legal where it stands, and together they lead from `cur` to `end`. */
  ghost predicate Leads(p: Stages, log: seq<Txn>, cur: Cursor, evs: seq<ReplEvent>, end: Cursor)
    decreases |evs|
  {
    if evs == [] then cur == end
    else Legal(p, log, cur, evs[0]) && Leads(p, log, Follow(p, cur, evs[0]), evs[1..], end)
  }

  lemma {:induction false} LeadsOn(p: Stages, log: seq<Txn>, cur: Cursor, evs: seq<ReplEvent>, mid: Cursor, ev: ReplEvent)
    requires Leads(p, log, cur, evs, mid) && Legal(p, log, mid, ev)
    ensures Leads(p, log, cur, evs + [ev], Follow(p, mid, ev))
    decreases |evs|
  {
    if evs == [] {
      assert (evs + [ev])[1..] == [];
    } else {
      assert (evs + [ev])[1..] == evs[1..] + [ev];
      LeadsOn(p, log, Follow(p, cur, evs[0]), evs[1..], mid, ev);
    }
  }

  // ── What must arrive at the target ────────────────────────────────────────

  function KeptOf(p: Stages): WalEvent -> seq<WalEvent> {
    e => if p.forward(e) && p.transform(e).IsChange() then [p.transform(e)] else []
  }

  /** Gate, then transform. */
  function Kept(p: Stages, changes: seq<WalEvent>): seq<WalEvent> {
    FlatMap(KeptOf(p), changes)
  }

  /** The target transaction of a source transaction; none when nothing is left to execute. */
  function TargetTxn(p: Stages, t: Txn): TargetLog {
    var kept := Kept(p, t.changes);
    if kept == [] || p.statements(kept) == [] then [] else [p.statements(kept)]
  }

  function Deliver(p: Stages, log: seq<Txn>): nat -> TargetLog {
    i => if 0 <= i < |log| then TargetTxn(p, log[i]) else []
  }

  /** The target log after the transactions with indices `hist`, in that order. */
  function Rendered(p: Stages, log: seq<Txn>, hist: seq<nat>): TargetLog {
    FlatMap(Deliver(p, log), hist)
  }

  // ── The world ─────────────────────────────────────────────────────────────

  /** One connection: where the server is, what is in flight, where the session is, its applied position. */
  datatype Conn = Conn(server: Cursor, fifo: seq<ReplEvent>, client: Cursor, applied: nat)

  /** A session: the position its stream began at, and how many transactions had been handled before it. */
  datatype Served = Served(start: nat, lo: nat)

  /**
    `slot` is the position the server has confirmed, `resume` the position the
    next connection asks for, and `lingering` bounds what a dying connection
    may still report. `buffer` is the applier's, if there is an applier, and `up`
    whether its connection to the target still stands.
    `hist` records which transactions took effect on the target (or had
    nothing to execute), in order, and `sessions` the connections so far.
   */
  datatype World = World(
    slot: nat, resume: nat, lingering: nat, conn: Option<Conn>, buffer: Option<seq<WalEvent>>, up: bool,
    target: TargetLog, sent: seq<WalEvent>, hist: seq<nat>, sessions: seq<Served>)

  datatype Action =
    | Connect
    | ServerSend(ev: ReplEvent)
    | Confirm(lsn: nat)        // a status update reaches the server
    | Recv(env: Env)           // the session handles the next event
    | EndSession               // shutdown, idle timeout, stream error or close
    | Restart                  // the process dies and starts again

  function NoBuffer(applier: bool): Option<seq<WalEvent>> {
    if applier then Some([]) else None
  }

  function Init(start: nat, slot: nat, applier: bool): World {
    World(slot, start, 0, None, NoBuffer(applier), true, [], [], [], [])
  }

  predicate Enabled(p: Stages, log: seq<Txn>, w: World, a: Action) {
    match a
    case Connect => w.conn.None?
    case ServerSend(ev) => w.conn.Some? && Legal(p, log, w.conn.value.server, ev)
    case Confirm(lsn) => lsn <= (if w.conn.Some? then w.conn.value.applied else w.lingering)
    case Recv(_) => w.conn.Some? && w.conn.value.fifo != []
    case EndSession => w.conn.Some?
    case Restart => true
  }

  function Closed(w: World, applied: nat): World {
    w.(conn := None, resume := applied, lingering := applied)
  }

  function StateOf(w: World): State
    requires w.conn.Some?
  {
    State(w.buffer, w.up, w.target, w.sent, w.conn.value.applied, w.conn.value.client.cache)
  }

  /** The transaction counts as handled: it took effect, or there was nothing to execute. */
  predicate Took(w: World, ev: ReplEvent, st: State, more: bool) {
    ev.Commit? && (more || st.target != w.target)
  }

  /** The world once the session has handled the next event, with what that came to. */
  function Reached(p: Stages, w: World, st: State, more: bool): World
    requires w.conn.Some? && w.conn.value.fifo != []
  {
    var c := w.conn.value;
    var ev := c.fifo[0];
    var w' := w.(buffer := st.applier, up := st.up, target := st.target, sent := st.sent,
                 hist := if Took(w, ev, st, more) then w.hist + [c.client.i] else w.hist);
    if more then w'.(conn := Some(Conn(c.server, c.fifo[1..], Follow(p, c.client, ev), st.applied)))
    else Closed(w', st.applied)
  }

  function Received(p: Stages, w: World, env: Env): World
    requires w.conn.Some? && w.conn.value.fifo != []
  {
    var (st, more) := OnEvent(p, StateOf(w), w.conn.value.fifo[0], env);
    Reached(p, w, st, more)
  }

  /** `start` is the position given on the command line, to which a restarted process goes back. */
  function Apply(p: Stages, log: seq<Txn>, start: nat, w: World, a: Action): World
    requires Enabled(p, log, w, a)
  {
    match a
    case Connect =>
      var from := Max(w.resume, w.slot);
      var cur := Cursor(First(log, from), None, map[]);
      w.(conn := Some(Conn(cur, [], cur, w.resume)), sessions := w.sessions + [Served(from, |w.hist|)])
    case ServerSend(ev) =>
      var c := w.conn.value;
      w.(conn := Some(c.(server := Follow(p, c.server, ev), fifo := c.fifo + [ev])))
    case Confirm(lsn) => w.(slot := Max(w.slot, lsn))
    case Recv(env) => Received(p, w, env)
    case EndSession => Closed(w, w.conn.value.applied)
    case Restart =>
      w.(conn := None, resume := start, buffer := NoBuffer(w.buffer.Some?), up := true,
         lingering := if w.conn.Some? then w.conn.value.applied else w.lingering)
  }

  /** The world after a list of actions, if each was possible in its turn. */
  function RunAll(p: Stages, log: seq<Txn>, start: nat, w: World, acts: seq<Action>): Option<World>
    decreases |acts|
  {
    if acts == [] then Some(w)
    else if !Enabled(p, log, w, acts[0]) then None
    else RunAll(p, log, start, Apply(p, log, start, w, acts[0]), acts[1..])
  }

  // ── The invariant of every run ────────────────────────────────────────────

  /** The transaction after the last one that took effect. */
  function NextTxn(base: nat, w: World): nat {
    if w.hist == [] then base else w.hist[|w.hist| - 1] + 1
  }

  /** From `base` on, never skipping a transaction. */
  ghost predicate Contiguous(base: nat, hist: seq<nat>) {
    && (hist != [] ==> hist[0] == base)
    && (forall x :: 0 <= x < |hist| ==> base <= hist[x])
    && (forall x, y :: 0 <= x < y < |hist| && y == x + 1 ==> hist[y] <= hist[x] + 1)
  }

  ghost predicate ConnOk(p: Stages, log: seq<Txn>, base: nat, w: World) {
    w.conn.Some? ==>
      var c := w.conn.value;
      && Leads(p, log, c.client, c.fifo, c.server)
      && base <= c.client.i <= NextTxn(base, w) && c.client.i <= |log|
      && Covers(log, c.applied, c.client.i) && Covers(log, w.slot, c.client.i)
      && (c.client.sent.Some? ==>
            c.client.i < |log| && c.client.sent.value <= |log[c.client.i].changes| &&
            (w.buffer.Some? ==> w.buffer.value == Kept(p, log[c.client.i].changes[..c.client.sent.value])))
  }

  ghost predicate IdleOk(log: seq<Txn>, base: nat, w: World) {
    w.conn.None? ==>
      var next := NextTxn(base, w);
      Covers(log, w.resume, next) && Covers(log, w.slot, next) && Covers(log, w.lingering, next)
  }

  ghost predicate Inv(p: Stages, log: seq<Txn>, start: nat, slot: nat, w: World) {
    var base := First(log, Max(start, slot));
    && w.target == (if w.buffer.Some? then Rendered(p, log, w.hist) else [])
    && Contiguous(base, w.hist) && NextTxn(base, w) <= |log|
    && slot <= w.slot
    && start <= (if w.conn.Some? then w.conn.value.applied else w.resume)
    && ConnOk(p, log, base, w) && IdleOk(log, base, w)
  }

  lemma {:induction false} CoversLater(log: seq<Txn>, lsn: nat, i: nat, j: nat)
    requires GoodLog(log) && Covers(log, lsn, i) && i <= j
    ensures Covers(log, lsn, j)
  {
  }

  /** A stream from `lsn` re-sends transaction `i` exactly when `lsn` does not run past it. */
  lemma {:induction false} FirstExact(log: seq<Txn>, lsn: nat, i: nat)
    requires GoodLog(log) && i <= |log|
    ensures First(log, lsn) <= i <==> Covers(log, lsn, i)
  {
    var f := First(log, lsn);
    if f <= i && i < |log| {
      CoversLater(log, lsn, f, i);
    }
  }

  lemma {:induction false} FirstMonotone(log: seq<Txn>, a: nat, b: nat)
    requires GoodLog(log) && a <= b
    ensures First(log, a) <= First(log, b)
  {
    FirstExact(log, a, First(log, b));
  }

  lemma {:induction false} InitInv(p: Stages, log: seq<Txn>, start: nat, slot: nat, applier: bool)
    requires GoodLog(log)
    ensures Inv(p, log, start, slot, Init(start, slot, applier))
  {
    var base := First(log, Max(start, slot));
    assert Covers(log, Max(start, slot), base);
  }

  lemma {:induction false} ContiguousGrows(base: nat, hist: seq<nat>, i: nat)
    requires Contiguous(base, hist) && base <= i <= (if hist == [] then base else hist[|hist| - 1] + 1)
    ensures Contiguous(base, hist + [i])
  {
    var more := hist + [i];
    forall x, y | 0 <= x < y < |more| && y == x + 1 ensures more[y] <= more[x] + 1 {
      assert more[x] == hist[x];
      if y < |hist| {
        assert more[y] == hist[y];
      }
    }
  }

  lemma {:induction false} RenderedGrows(p: Stages, log: seq<Txn>, hist: seq<nat>, i: nat)
    ensures Rendered(p, log, hist + [i]) == Rendered(p, log, hist) + Deliver(p, log)(i)
  {
    FlatMapAppend(Deliver(p, log), hist, i);
  }

  lemma {:induction false} KeptGrows(p: Stages, changes: seq<WalEvent>, m: nat)
    requires m < |changes|
    ensures Kept(p, changes[..m + 1]) == Kept(p, changes[..m]) + KeptOf(p)(changes[m])
  {
    FlatMapAppend(KeptOf(p), changes[..m], changes[m]);
    assert changes[..m + 1] == changes[..m] + [changes[m]];
  }

  /** What the session does with a payload that decodes, in terms of what it stands for. */
  lemma {:induction false} DataHandled(p: Stages, st: State, ev: ReplEvent, env: Env)
    requires StagesOk(p) && ev.XLogData? && p.decode(ev.data, st.cache).Ok?
    ensures var (st', more) := OnEvent(p, st, ev, env);
            var e := p.decode(ev.data, st.cache).value;
            && more && st'.target == st.target && st'.cache == Learn(st.cache, Ok(e))
            && st'.applied in {st.applied, Max(st.applied, ev.walEnd)}
            && st'.applier.Some? == st.applier.Some?
            && (st.applier.Some? ==>
                  st'.applier.value == st.applier.value + (if e.Some? then KeptOf(p)(e.value) else []))
            && (e.Some? && !e.value.IsChange() ==> KeptOf(p)(e.value) == [])
  {
    if st.applier.Some? {
      assert st.applier.value + [] == st.applier.value;
    }
  }

  /** The session has taken a payload that stands for `e`, and its buffer what is kept of it. */
  lemma {:induction false} DataTaken(p: Stages, log: seq<Txn>, start: nat, slot: nat, w: World, st: State,
      e: Option<WalEvent>)
    requires GoodLog(log) && Inv(p, log, start, slot, w) && w.conn.Some? && w.conn.value.fifo != []
    requires var c := w.conn.value; var ev := c.fifo[0];
             && ev.XLogData? && p.decode(ev.data, c.client.cache) == Ok(e)
             && st.target == w.target && st.applied in {c.applied, Max(c.applied, ev.walEnd)}
             && st.applier.Some? == w.buffer.Some?
             && (w.buffer.Some? ==> st.applier.value == w.buffer.value + (if e.Some? then KeptOf(p)(e.value) else []))
             && (e.Some? && !e.value.IsChange() ==> KeptOf(p)(e.value) == [])
    ensures Inv(p, log, start, slot, Reached(p, w, st, true))
  {
    var c := w.conn.value;
    assert Legal(p, log, c.client, c.fifo[0]);
    if e.Some? && e.value.IsChange() {
      KeptGrows(p, log[c.client.i].changes, c.client.sent.value);
    } else if w.buffer.Some? {
      assert w.buffer.value + [] == w.buffer.value;
    }
  }

  lemma {:induction false} ReceivedData(p: Stages, log: seq<Txn>, start: nat, slot: nat, w: World, env: Env)
    requires StagesOk(p) && GoodLog(log) && Inv(p, log, start, slot, w)
    requires w.conn.Some? && w.conn.value.fifo != [] && w.conn.value.fifo[0].XLogData?
    ensures Inv(p, log, start, slot, Received(p, w, env))
  {
    var c := w.conn.value;
    assert Legal(p, log, c.client, c.fifo[0]);
    DataHandled(p, StateOf(w), c.fifo[0], env);
    var (st, more) := OnEvent(p, StateOf(w), c.fifo[0], env);
    DataTaken(p, log, start, slot, w, st, p.decode(c.fifo[0].data, c.client.cache).value);
  }

  lemma {:induction false} ReceivedOther(p: Stages, log: seq<Txn>, start: nat, slot: nat, w: World, env: Env)
    requires GoodLog(log) && Inv(p, log, start, slot, w)
    requires w.conn.Some? && w.conn.value.fifo != []
    requires w.conn.value.fifo[0].KeepAlive? || w.conn.value.fifo[0].Begin?
    ensures Inv(p, log, start, slot, Received(p, w, env))
  {
    assert Legal(p, log, w.conn.value.client, w.conn.value.fifo[0]);
  }

  /** What a commit does to the target is the whole transaction or nothing. */
  lemma {:induction false} CommitExact(p: Stages, log: seq<Txn>, i: nat, buffer: seq<WalEvent>, target: TargetLog,
      up: bool, outcome: CommitOutcome)
    requires i < |log| && buffer == Kept(p, log[i].changes)
    ensures var done := ApplyBuffer(p, buffer, target, up, outcome);
            if done.ok || done.target != target then done.target == target + Deliver(p, log)(i) else done.target == target
  {
    assert target + [] == target;
  }

  /** What a commit may come to: the whole transaction on the target or nothing, and a position that moves only on success. */
  ghost predicate CommitOutcomes(p: Stages, log: seq<Txn>, i: nat, st: State, ev: ReplEvent, st': State, more: bool) {
    && ev.Commit? && st'.cache == st.cache && st'.applier == NoBuffer(st.applier.Some?)
    && (if st.applier.Some? && (more || st'.target != st.target) then st'.target == st.target + Deliver(p, log)(i)
        else st'.target == st.target)
    && (st'.applied == st.applied || (more && st'.applied == Max(st.applied, ev.endLsn)))
  }

  lemma {:induction false} CommitHandled(p: Stages, log: seq<Txn>, i: nat, st: State, ev: ReplEvent, env: Env)
    requires i < |log| && ev.Commit? && (st.applier.Some? ==> st.applier.value == Kept(p, log[i].changes))
    ensures var (st', more) := OnEvent(p, st, ev, env); CommitOutcomes(p, log, i, st, ev, st', more)
  {
    if st.applier.Some? {
      CommitExact(p, log, i, st.applier.value, st.target, st.up, env.commit);
    }
  }

  lemma {:induction false} CommitTaken(p: Stages, log: seq<Txn>, start: nat, slot: nat, w: World, st': State, more: bool)
    requires GoodLog(log) && Inv(p, log, start, slot, w) && w.conn.Some? && w.conn.value.fifo != []
    requires CommitOutcomes(p, log, w.conn.value.client.i, StateOf(w), w.conn.value.fifo[0], st', more)
    requires Took(w, w.conn.value.fifo[0], st', more)
    ensures Inv(p, log, start, slot, Reached(p, w, st', more))
  {
    var c := w.conn.value;
    var i := c.client.i;
    ContiguousGrows(First(log, Max(start, slot)), w.hist, i);
    RenderedGrows(p, log, w.hist, i);
    CoversLater(log, c.applied, i, i + 1);
    CoversLater(log, w.slot, i, i + 1);
  }

  lemma {:induction false} CommitRefused(p: Stages, log: seq<Txn>, start: nat, slot: nat, w: World, st': State)
    requires GoodLog(log) && Inv(p, log, start, slot, w) && w.conn.Some? && w.conn.value.fifo != []
    requires CommitOutcomes(p, log, w.conn.value.client.i, StateOf(w), w.conn.value.fifo[0], st', false)
    requires !Took(w, w.conn.value.fifo[0], st', false)
    ensures Inv(p, log, start, slot, Reached(p, w, st', false))
  {
    var c := w.conn.value;
    var next := NextTxn(First(log, Max(start, slot)), w);
    CoversLater(log, c.applied, c.client.i, next);
    CoversLater(log, w.slot, c.client.i, next);
  }

  lemma {:induction false} ReceivedCommit(p: Stages, log: seq<Txn>, start: nat, slot: nat, w: World, env: Env)
    requires StagesOk(p) && GoodLog(log) && Inv(p, log, start, slot, w)
    requires w.conn.Some? && w.conn.value.fifo != [] && w.conn.value.fifo[0].Commit?
    ensures Inv(p, log, start, slot, Received(p, w, env))
  {
    var c := w.conn.value;
    var i := c.client.i;
    assert Legal(p, log, c.client, c.fifo[0]);
    assert log[i].changes[..|log[i].changes|] == log[i].changes;
    CommitHandled(p, log, i, StateOf(w), c.fifo[0], env);
    var (st, more) := OnEvent(p, StateOf(w), c.fifo[0], env);
    if Took(w, c.fifo[0], st, more) {
      CommitTaken(p, log, start, slot, w, st, more);
    } else {
      CommitRefused(p, log, start, slot, w, st);
    }
  }

  /** A stream from `from` begins between where the first one did and the next transaction. */
  lemma {:induction false} StreamStart(log: seq<Txn>, first: nat, from: nat, next: nat)
    requires GoodLog(log) && first <= from && next <= |log| && Covers(log, from, next)
    ensures First(log, first) <= First(log, from) <= next && Covers(log, from, First(log, from))
  {
    FirstMonotone(log, first, from);
    FirstExact(log, from, next);
  }

  lemma {:induction false} ConnectInv(p: Stages, log: seq<Txn>, start: nat, slot: nat, w: World)
    requires GoodLog(log) && Inv(p, log, start, slot, w) && w.conn.None?
    ensures Inv(p, log, start, slot, Apply(p, log, start, w, Connect))
  {
    var base := First(log, Max(start, slot));
    StreamStart(log, Max(start, slot), Max(w.resume, w.slot), NextTxn(base, w));
  }

  lemma {:induction false} RestartInv(p: Stages, log: seq<Txn>, start: nat, slot: nat, w: World)
    requires GoodLog(log) && Inv(p, log, start, slot, w)
    ensures Inv(p, log, start, slot, Apply(p, log, start, w, Restart))
  {
    var base := First(log, Max(start, slot));
    var next := NextTxn(base, w);
    assert Covers(log, start, base);
    CoversLater(log, start, base, next);
    if w.conn.Some? {
      CoversLater(log, w.conn.value.applied, w.conn.value.client.i, next);
      CoversLater(log, w.slot, w.conn.value.client.i, next);
    }
  }

  lemma {:induction false} SendInv(p: Stages, log: seq<Txn>, start: nat, slot: nat, w: World, ev: ReplEvent)
    requires Inv(p, log, start, slot, w) && Enabled(p, log, w, ServerSend(ev))
    ensures Inv(p, log, start, slot, Apply(p, log, start, w, ServerSend(ev)))
  {
    LeadsOn(p, log, w.conn.value.client, w.conn.value.fifo, w.conn.value.server, ev);
  }

  lemma {:induction false} ConfirmInv(p: Stages, log: seq<Txn>, start: nat, slot: nat, w: World, lsn: nat)
    requires Inv(p, log, start, slot, w) && Enabled(p, log, w, Confirm(lsn))
    ensures Inv(p, log, start, slot, Apply(p, log, start, w, Confirm(lsn)))
  {
  }

  lemma {:induction false} RecvInv(p: Stages, log: seq<Txn>, start: nat, slot: nat, w: World, env: Env)
    requires StagesOk(p) && GoodLog(log) && Inv(p, log, start, slot, w) && Enabled(p, log, w, Recv(env))
    ensures Inv(p, log, start, slot, Received(p, w, env))
  {
    match w.conn.value.fifo[0]
    case Commit(_, _, _) => ReceivedCommit(p, log, start, slot, w, env);
    case XLogData(_, _, _) => ReceivedData(p, log, start, slot, w, env);
    case _ => ReceivedOther(p, log, start, slot, w, env);
  }

  lemma {:induction false} EndInv(p: Stages, log: seq<Txn>, start: nat, slot: nat, w: World)
    requires GoodLog(log) && Inv(p, log, start, slot, w) && w.conn.Some?
    ensures Inv(p, log, start, slot, Apply(p, log, start, w, EndSession))
  {
    var next := NextTxn(First(log, Max(start, slot)), w);
    CoversLater(log, w.conn.value.applied, w.conn.value.client.i, next);
    CoversLater(log, w.slot, w.conn.value.client.i, next);
  }

  lemma {:induction false} StepInv(p: Stages, log: seq<Txn>, start: nat, slot: nat, w: World, a: Action)
    requires StagesOk(p) && GoodLog(log) && Inv(p, log, start, slot, w) && Enabled(p, log, w, a)
    ensures Inv(p, log, start, slot, Apply(p, log, start, w, a))
  {
    match a
    case Connect => ConnectInv(p, log, start, slot, w);
    case ServerSend(ev) => SendInv(p, log, start, slot, w, ev);
    case Confirm(lsn) => ConfirmInv(p, log, start, slot, w, lsn);
    case Recv(env) => RecvInv(p, log, start, slot, w, env);
    case EndSession => EndInv(p, log, start, slot, w);
    case Restart => RestartInv(p, log, start, slot, w);
  }

  lemma {:induction false} RunInv(p: Stages, log: seq<Txn>, start: nat, slot: nat, w: World, acts: seq<Action>)
    requires StagesOk(p) && GoodLog(log) && Inv(p, log, start, slot, w) && RunAll(p, log, start, w, acts).Some?
    ensures Inv(p, log, start, slot, RunAll(p, log, start, w, acts).value)
    decreases |acts|
  {
    if acts != [] {
      StepInv(p, log, start, slot, w, acts[0]);
      RunInv(p, log, start, slot, Apply(p, log, start, w, acts[0]), acts[1..]);
    }
  }
}
