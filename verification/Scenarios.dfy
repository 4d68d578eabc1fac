/** Runs that show what the conditions on delivery are worth: each is built for any stages and any log. */
module Scenarios {
  import opened Wrappers
  import opened Event
  import opened Proto
  import opened Decoder
  import opened Session
  import opened Replication
  import opened Delivery

  // ── Runs ──────────────────────────────────────────────────────────────────

  lemma {:induction false} RunAppend(p: Stages, log: seq<Txn>, start: nat, w: World, xs: seq<Action>, ys: seq<Action>)
    requires RunAll(p, log, start, w, xs).Some?
    ensures RunAll(p, log, start, w, xs + ys) == RunAll(p, log, start, RunAll(p, log, start, w, xs).value, ys)
    decreases |xs|
  {
    if xs == [] {
      assert xs + ys == ys;
    } else {
      assert (xs + ys)[1..] == xs[1..] + ys;
      RunAppend(p, log, start, Apply(p, log, start, w, xs[0]), xs[1..], ys);
    }
  }

  lemma {:induction false} SteadyAppend(p: Stages, log: seq<Txn>, start: nat, w: World, xs: seq<Action>, ys: seq<Action>)
    requires RunAll(p, log, start, w, xs).Some? && Steady(p, log, start, w, xs)
    requires Steady(p, log, start, RunAll(p, log, start, w, xs).value, ys)
    ensures Steady(p, log, start, w, xs + ys)
    decreases |xs|
  {
    if xs == [] {
      assert xs + ys == ys;
    } else {
      assert (xs + ys)[1..] == xs[1..] + ys;
      SteadyAppend(p, log, start, Apply(p, log, start, w, xs[0]), xs[1..], ys);
    }
  }

  lemma {:induction false} ReachableOn(p: Stages, log: seq<Txn>, start: nat, slot: nat, applier: bool, w: World,
      acts: seq<Action>)
    requires Reachable(p, log, start, slot, applier, w) && RunAll(p, log, start, w, acts).Some?
    ensures Reachable(p, log, start, slot, applier, RunAll(p, log, start, w, acts).value)
  {
    var before :| RunAll(p, log, start, Init(start, slot, applier), before) == Some(w);
    RunAppend(p, log, start, Init(start, slot, applier), before, acts);
  }

  // ── Playing events one by one ─────────────────────────────────────────────

  type Script = seq<(ReplEvent, Env)>

  /** Each event is sent, and handled before the next one is. */
  function Play(script: Script): seq<Action>
    decreases |script|
  {
    if script == [] then [] else [ServerSend(script[0].0), Recv(script[0].1)] + Play(script[1..])
  }

  function Events(script: Script): seq<ReplEvent> {
    seq(|script|, i requires 0 <= i < |script| => script[i].0)
  }

  predicate NoCommit(script: Script) {
    forall i :: 0 <= i < |script| ==> !script[i].0.Commit?
  }

  /** Everything sent has been handled. */
  predicate Aligned(w: World) {
    w.conn.Some? && w.conn.value.fifo == [] && w.conn.value.server == w.conn.value.client
  }

  function Sent(p: Stages, w: World, ev: ReplEvent): World
    requires w.conn.Some?
  {
    var c := w.conn.value;
    w.(conn := Some(Conn(Follow(p, c.client, ev), [ev], c.client, c.applied)))
  }

  function Handled(p: Stages, w: World, ev: ReplEvent, env: Env): World
    requires w.conn.Some?
  {
    Received(p, Sent(p, w, ev), env)
  }

  lemma {:induction false} PlayOne(p: Stages, log: seq<Txn>, start: nat, w: World, ev: ReplEvent, env: Env)
    requires Aligned(w) && Legal(p, log, w.conn.value.client, ev)
    ensures RunAll(p, log, start, w, [ServerSend(ev), Recv(env)]) == Some(Handled(p, w, ev, env))
    ensures [ServerSend(ev), Recv(env)] == Play([(ev, env)])
  {
    var w1 := Apply(p, log, start, w, ServerSend(ev));
    assert [] + [ev] == [ev];
    assert w1 == Sent(p, w, ev);
    assert [ServerSend(ev), Recv(env)][1..] == [Recv(env)] && [Recv(env)][1..] == [];
    assert RunAll(p, log, start, w1, [Recv(env)]) == Some(Handled(p, w, ev, env));
    assert Play([(ev, env)][1..]) == [];
  }

  /** The state after events that no commit is among. */
  function Fold(p: Stages, st: State, script: Script): State
    decreases |script|
  {
    if script == [] then st else Fold(p, OnEvent(p, st, script[0].0, script[0].1).0, script[1..])
  }

  /** What changes when an event that is no commit is handled, and what does not. */
  lemma {:induction false} HandledOther(p: Stages, w: World, ev: ReplEvent, env: Env)
    requires Aligned(w) && !ev.Commit?
    ensures var w' := Handled(p, w, ev, env);
            && Aligned(w') && w'.conn.value.client == Follow(p, w.conn.value.client, ev)
            && StateOf(w') == OnEvent(p, StateOf(w), ev, env).0
            && w'.hist == w.hist && w'.sessions == w.sessions && w'.slot == w.slot && w'.target == w.target
            && w'.buffer.Some? == w.buffer.Some? && w'.up == w.up
  {
    CacheFollows(p, w, ev, env);
  }

  lemma {:induction false} CacheFollows(p: Stages, w: World, ev: ReplEvent, env: Env)
    requires w.conn.Some? && !ev.Commit?
    ensures var (st, more) := OnEvent(p, StateOf(w), ev, env);
            && more && st.cache == Follow(p, w.conn.value.client, ev).cache
            && st.target == w.target && st.applier.Some? == w.buffer.Some? && st.up == w.up
  {
  }

  lemma {:induction false} Plays(p: Stages, log: seq<Txn>, start: nat, w: World, script: Script, end: Cursor)
    requires Aligned(w) && NoCommit(script) && Leads(p, log, w.conn.value.client, Events(script), end)
    ensures var r := RunAll(p, log, start, w, Play(script));
            && r.Some? && Aligned(r.value) && r.value.conn.value.client == end
            && StateOf(r.value) == Fold(p, StateOf(w), script)
            && r.value.hist == w.hist && r.value.sessions == w.sessions && r.value.slot == w.slot
            && r.value.target == w.target && r.value.buffer.Some? == w.buffer.Some? && r.value.up == w.up
    ensures Steady(p, log, start, w, Play(script)) && Calm(Play(script))
    decreases |script|
  {
    if script != [] {
      var (ev, env) := script[0];
      assert Events(script)[0] == ev && Events(script)[1..] == Events(script[1..]);
      PlayOne(p, log, start, w, ev, env);
      HandledOther(p, w, ev, env);
      var w' := Handled(p, w, ev, env);
      Plays(p, log, start, w', script[1..], end);
      RunAppend(p, log, start, w, [ServerSend(ev), Recv(env)], Play(script[1..]));
      OneSteady(p, log, start, w, ev, env);
      SteadyAppend(p, log, start, w, [ServerSend(ev), Recv(env)], Play(script[1..]));
    }
  }

  lemma {:induction false} OneSteady(p: Stages, log: seq<Txn>, start: nat, w: World, ev: ReplEvent, env: Env)
    requires Aligned(w) && Legal(p, log, w.conn.value.client, ev)
    requires ev.Commit? ==> env == Env(true, Committed)
    ensures Steady(p, log, start, w, [ServerSend(ev), Recv(env)])
  {
    var w1 := Apply(p, log, start, w, ServerSend(ev));
    assert [] + [ev] == [ev];
    assert [ServerSend(ev), Recv(env)][1..] == [Recv(env)] && [Recv(env)][1..] == [];
    assert !Slips(p, log, start, w1, Recv(env));
    assert Steady(p, log, start, Apply(p, log, start, w1, Recv(env)), []);
    assert Steady(p, log, start, w1, [Recv(env)]);
  }

  // ── A whole transaction ───────────────────────────────────────────────────

  predicate CommitOf(log: seq<Txn>, i: nat, ev: ReplEvent) {
    i < |log| && ev.Commit? && ev.endLsn == log[i].endLsn
  }

  /** Events without a commit that are legal one after the other and lead from `cur` to `end`. */
  ghost predicate Takes(p: Stages, log: seq<Txn>, cur: Cursor, script: Script, end: Cursor) {
    NoCommit(script) && Leads(p, log, cur, Events(script), end)
  }

  lemma {:induction false} TakesJoins(p: Stages, log: seq<Txn>, cur: Cursor, xs: Script, mid: Cursor, ys: Script, end: Cursor)
    requires Takes(p, log, cur, xs, mid) && Takes(p, log, mid, ys, end)
    ensures Takes(p, log, cur, xs + ys, end)
  {
    LeadsJoins(p, log, cur, Events(xs), mid, Events(ys), end);
    assert Events(xs + ys) == Events(xs) + Events(ys);
  }

  lemma {:induction false} LeadsJoins(p: Stages, log: seq<Txn>, cur: Cursor, xs: seq<ReplEvent>, mid: Cursor,
      ys: seq<ReplEvent>, end: Cursor)
    requires Leads(p, log, cur, xs, mid) && Leads(p, log, mid, ys, end)
    ensures Leads(p, log, cur, xs + ys, end)
    decreases |xs|
  {
    if xs == [] {
      assert xs + ys == ys;
    } else {
      assert (xs + ys)[1..] == xs[1..] + ys;
      LeadsJoins(p, log, Follow(p, cur, xs[0]), xs[1..], mid, ys, end);
    }
  }

  lemma {:induction false} TakesOne(p: Stages, log: seq<Txn>, cur: Cursor, ev: ReplEvent, env: Env)
    requires Legal(p, log, cur, ev) && !ev.Commit?
    ensures Takes(p, log, cur, [(ev, env)], Follow(p, cur, ev))
  {
    assert Events([(ev, env)]) == [ev] && [ev][1..] == [];
  }

  /** The events of transaction `i` up to its commit, for a session that knows the relations in `cache`. */
  ghost predicate Carries(p: Stages, log: seq<Txn>, i: nat, cache: RelationCache, script: Script, end: RelationCache) {
    i < |log| && Takes(p, log, Cursor(i, None, cache), script, Cursor(i, Some(|log[i].changes|), end))
  }

  /** The commit of transaction `i` succeeds: there is no target, or nothing for it, or it is reached and takes it. */
  predicate Succeeds(p: Stages, log: seq<Txn>, i: nat, applier: bool, up: bool, outcome: CommitOutcome)
    requires i < |log|
  {
    !applier || TargetTxn(p, log[i]) == [] || (up && outcome.Committed?)
  }

  /** It took effect, reported or not. */
  predicate Effective(p: Stages, log: seq<Txn>, i: nat, applier: bool, up: bool, outcome: CommitOutcome)
    requires i < |log|
  {
    Succeeds(p, log, i, applier, up, outcome) || (up && outcome.InDoubt?)
  }

  predicate UpAfter(p: Stages, log: seq<Txn>, i: nat, applier: bool, up: bool, outcome: CommitOutcome)
    requires i < |log|
  {
    up && (Succeeds(p, log, i, applier, up, outcome) || outcome.Refused?)
  }

  /** What handling the commit of transaction `i`, perhaps after its changes, comes to. */
  ghost predicate Commits(p: Stages, log: seq<Txn>, w: World, w': World, i: nat, env: Env)
    requires i < |log|
  {
    var succeeds := Succeeds(p, log, i, w.buffer.Some?, w.up, env.commit);
    var effective := Effective(p, log, i, w.buffer.Some?, w.up, env.commit);
    && (w'.conn.Some? <==> succeeds) && (!succeeds ==> w'.lingering == w'.resume)
    && w'.hist == (if effective then w.hist + [i] else w.hist)
    && w'.target == (if w.buffer.Some? && effective then w.target + Deliver(p, log)(i) else w.target)
    && w'.up == UpAfter(p, log, i, w.buffer.Some?, w.up, env.commit)
    && w'.slot == w.slot && w'.buffer.Some? == w.buffer.Some?
    && (succeeds && (p.emitBoundaries ==> env.sinkOk) <==> Passed(log, w', i))
  }

  lemma {:induction false} CommitDone(p: Stages, log: seq<Txn>, w: World, commit: ReplEvent, env: Env)
    requires Aligned(w) && CommitOf(log, w.conn.value.client.i, commit) && GoodLog(log)
    requires var i := w.conn.value.client.i;
             (w.buffer.Some? ==> w.buffer.value == Kept(p, log[i].changes)) && Position(w) <= log[i].finalLsn
    ensures var i := w.conn.value.client.i; var w' := Handled(p, w, commit, env);
            && Commits(p, log, w, w', i, env) && w'.sessions == w.sessions && w.sent <= w'.sent
            && (w'.conn.Some? ==> Aligned(w') && w'.conn.value.client == Cursor(i + 1, None, w.conn.value.client.cache))
  {
    var i := w.conn.value.client.i;
    CommitState(p, log, i, StateOf(w), commit, env);
    OnEventAdvances(p, StateOf(w), commit, env);
    assert StateOf(Sent(p, w, commit)) == StateOf(w);
  }

  /** The commit of the transaction the session is in. */
  lemma {:induction false} CommitPlayed(p: Stages, log: seq<Txn>, start: nat, slot: nat, w: World, commit: ReplEvent, env: Env)
    requires StagesOk(p) && GoodLog(log) && Good(p, log, start, slot, w) && Aligned(w)
    requires var c := w.conn.value.client; CommitOf(log, c.i, commit) && c.sent == Some(|log[c.i].changes|)
    ensures var i := w.conn.value.client.i;
            var r := RunAll(p, log, start, w, Play([(commit, env)]));
            && r.Some? && Good(p, log, start, slot, r.value) && Commits(p, log, w, r.value, i, env)
            && (r.value.conn.Some? ==>
                  Aligned(r.value) && r.value.conn.value.client == Cursor(i + 1, None, w.conn.value.client.cache))
            && r.value.sessions == w.sessions && w.sent <= r.value.sent
  {
    var i := w.conn.value.client.i;
    assert log[i].changes[..|log[i].changes|] == log[i].changes;
    PlayOne(p, log, start, w, commit, env);
    RunGood(p, log, start, slot, w, Play([(commit, env)]));
    CommitDone(p, log, w, commit, env);
  }

  lemma {:induction false} CommitState(p: Stages, log: seq<Txn>, i: nat, st: State, commit: ReplEvent, env: Env)
    requires CommitOf(log, i, commit) && (st.applier.Some? ==> st.applier.value == Kept(p, log[i].changes))
    ensures var (st', more) := OnEvent(p, st, commit, env);
            var effective := Effective(p, log, i, st.applier.Some?, st.up, env.commit);
            && (more <==> Succeeds(p, log, i, st.applier.Some?, st.up, env.commit))
            && st'.applier == NoBuffer(st.applier.Some?) && st'.cache == st.cache && st.sent <= st'.sent
            && st'.target == (if st.applier.Some? && effective then st.target + Deliver(p, log)(i) else st.target)
            && (!more && effective ==> st'.target != st.target)
            && st'.up == UpAfter(p, log, i, st.applier.Some?, st.up, env.commit)
  {
    assert st.target + [] == st.target;
  }

  lemma {:induction false} PlayJoins(xs: Script, ys: Script)
    ensures Play(xs + ys) == Play(xs) + Play(ys)
    decreases |xs|
  {
    if xs == [] {
      assert xs + ys == ys;
    } else {
      assert (xs + ys)[1..] == xs[1..] + ys;
      PlayJoins(xs[1..], ys);
    }
  }

  /** A transaction from beginning to end, in a session that is at it. */
  lemma {:induction false} TxnPlayed(p: Stages, log: seq<Txn>, start: nat, slot: nat, w: World, script: Script,
      end: RelationCache, commit: ReplEvent, env: Env)
    requires StagesOk(p) && GoodLog(log) && Good(p, log, start, slot, w) && Aligned(w) && w.conn.value.client.sent.None?
    requires var c := w.conn.value.client; Carries(p, log, c.i, c.cache, script, end) && CommitOf(log, c.i, commit)
    ensures var i := w.conn.value.client.i;
            var r := RunAll(p, log, start, w, Play(script + [(commit, env)]));
            && r.Some? && Good(p, log, start, slot, r.value) && Commits(p, log, w, r.value, i, env)
            && (r.value.conn.Some? ==> Aligned(r.value) && r.value.conn.value.client == Cursor(i + 1, None, end))
            && r.value.sessions == w.sessions && Fold(p, StateOf(w), script).sent <= r.value.sent
  {
    var i := w.conn.value.client.i;
    Plays(p, log, start, w, script, Cursor(i, Some(|log[i].changes|), end));
    RunGood(p, log, start, slot, w, Play(script));
    var w' := RunAll(p, log, start, w, Play(script)).value;
    CommitPlayed(p, log, start, slot, w', commit, env);
    PlayJoins(script, [(commit, env)]);
    RunAppend(p, log, start, w, Play(script), Play([(commit, env)]));
  }

  // ── Each condition is needed ──────────────────────────────────────────────

  /** The three ways to a repeated transaction. */
  datatype Flaw = BoundaryNotTaken | CommitInDoubt | ProcessRestarts

  function Round(script: Script, commit: ReplEvent, env: Env): seq<Action> {
    [Connect] + Play(script + [(commit, env)])
  }

  /** A connection that plays one transaction. */
  lemma {:induction false} RoundRuns(p: Stages, log: seq<Txn>, start: nat, slot: nat, w: World, i: nat, script: Script,
      end: RelationCache, commit: ReplEvent, env: Env)
    requires StagesOk(p) && GoodLog(log) && Good(p, log, start, slot, w) && w.conn.None? && i == First(log, Position(w))
    requires Carries(p, log, i, map[], script, end) && CommitOf(log, i, commit)
    ensures var r := RunAll(p, log, start, w, Round(script, commit, env));
            r.Some? && Good(p, log, start, slot, r.value) && Commits(p, log, w, r.value, i, env)
  {
    Reconnects(p, log, start, w);
    assert Reconnecting(w) == [Connect];
    RunGood(p, log, start, slot, w, [Connect]);
    var w1 := RunAll(p, log, start, w, [Connect]).value;
    TxnPlayed(p, log, start, slot, w1, script, end, commit, env);
    RunAppend(p, log, start, w, [Connect], Play(script + [(commit, env)]));
  }

  function FlawEnv(flaw: Flaw): Env {
    Env(!flaw.BoundaryNotTaken?, if flaw.CommitInDoubt? then InDoubt else Committed)
  }

  /**
    How things go on after the first connection. A commit in doubt has taken
    the target's connection with it, so the process has to be restarted; `lsn`
    is what the server has been told by then.
   */
  function FlawEnd(flaw: Flaw, lsn: nat): seq<Action> {
    match flaw
    case BoundaryNotTaken => [EndSession]
    case CommitInDoubt => [Confirm(lsn), Restart]
    case ProcessRestarts => [Restart]
  }

  /** The transaction is played with the flaw, and after its end it is played well. */
  function FlawedRun(flaw: Flaw, lsn: nat, script: Script, commit: ReplEvent): seq<Action> {
    Round(script, commit, FlawEnv(flaw)) + FlawEnd(flaw, lsn) + Round(script, commit, Env(true, Committed))
  }

  lemma {:induction false} FlawEnds(p: Stages, log: seq<Txn>, start: nat, w: World, flaw: Flaw)
    requires if flaw.CommitInDoubt? then w.conn.None? else w.conn.Some?
    ensures var r := RunAll(p, log, start, w, FlawEnd(flaw, w.lingering));
            && r.Some? && r.value.conn.None? && r.value.target == w.target && r.value.hist == w.hist
            && r.value.buffer.Some? == w.buffer.Some? && (r.value.up <==> w.up || !flaw.BoundaryNotTaken?)
            && Position(r.value) == (match flaw
                                     case BoundaryNotTaken => Position(w)
                                     case CommitInDoubt => Max(start, Max(w.slot, w.lingering))
                                     case ProcessRestarts => Max(start, w.slot))
  {
    var acts := FlawEnd(flaw, w.lingering);
    var w1 := Apply(p, log, start, w, acts[0]);
    assert RunAll(p, log, start, w1, []) == Some(w1);
    if flaw.CommitInDoubt? {
      var w2 := Apply(p, log, start, w1, Restart);
      assert acts[1..] == [Restart] && [Restart][1..] == [];
      assert RunAll(p, log, start, w2, []) == Some(w2);
    } else {
      assert acts[1..] == [];
    }
  }

  /** After the flaw the next connection has to begin with the same transaction. */
  lemma {:induction false} FlawLags(p: Stages, log: seq<Txn>, start: nat, slot: nat, i: nat, w: World, flaw: Flaw)
    requires StagesOk(p) && GoodLog(log) && Good(p, log, start, slot, w) && i == First(log, Max(start, slot)) < |log|
    requires if flaw.CommitInDoubt? then w.conn.None? && w.lingering == w.resume else w.conn.Some?
    requires !flaw.ProcessRestarts? ==> !Passed(log, w, i)
    requires w.slot == slot
    ensures var r := RunAll(p, log, start, w, FlawEnd(flaw, w.lingering));
            r.Some? && Good(p, log, start, slot, r.value) && First(log, Position(r.value)) == i
  {
    FlawEnds(p, log, start, w, flaw);
    RunGood(p, log, start, slot, w, FlawEnd(flaw, w.lingering));
    var w' := RunAll(p, log, start, w, FlawEnd(flaw, w.lingering)).value;
    FirstMonotone(log, Max(start, slot), Position(w'));
    FirstExact(log, Position(w'), i);
  }

  /** The flawed connection: the transaction took effect. */
  lemma {:induction false} FlawFirst(p: Stages, log: seq<Txn>, start: nat, slot: nat, i: nat, script: Script,
      end: RelationCache, commit: ReplEvent, flaw: Flaw) returns (w: World)
    requires StagesOk(p) && GoodLog(log) && i == First(log, Max(start, slot)) < |log|
    requires Carries(p, log, i, map[], script, end) && CommitOf(log, i, commit) && TargetTxn(p, log[i]) != []
    requires flaw.BoundaryNotTaken? ==> p.emitBoundaries
    ensures RunAll(p, log, start, Init(start, slot, true), Round(script, commit, FlawEnv(flaw))) == Some(w)
    ensures Good(p, log, start, slot, w) && w.slot == slot && w.buffer.Some? && (w.up <==> !flaw.CommitInDoubt?)
    ensures w.target == TargetTxn(p, log[i]) && w.hist == [i]
    ensures if flaw.CommitInDoubt? then w.conn.None? && w.lingering == w.resume else w.conn.Some?
    ensures !flaw.ProcessRestarts? ==> !Passed(log, w, i)
  {
    var w0 := Init(start, slot, true);
    InitInv(p, log, start, slot, true);
    RoundRuns(p, log, start, slot, w0, i, script, end, commit, FlawEnv(flaw));
    w := RunAll(p, log, start, w0, Round(script, commit, FlawEnv(flaw))).value;
    assert [] + Deliver(p, log)(i) == TargetTxn(p, log[i]);
    assert [] + [i] == [i];
  }

  /** The flawed connection and its end. */
  lemma {:induction false} FlawEnded(p: Stages, log: seq<Txn>, start: nat, slot: nat, i: nat, script: Script,
      end: RelationCache, commit: ReplEvent, flaw: Flaw) returns (lsn: nat, w: World)
    requires StagesOk(p) && GoodLog(log) && i == First(log, Max(start, slot)) < |log|
    requires Carries(p, log, i, map[], script, end) && CommitOf(log, i, commit) && TargetTxn(p, log[i]) != []
    requires flaw.BoundaryNotTaken? ==> p.emitBoundaries
    ensures ToldBy(p, log, start, slot, script, commit, flaw, lsn)
    ensures RunAll(p, log, start, Init(start, slot, true), Round(script, commit, FlawEnv(flaw)) + FlawEnd(flaw, lsn)) == Some(w)
    ensures Good(p, log, start, slot, w) && w.conn.None? && First(log, Position(w)) == i && w.buffer.Some? && w.up
    ensures w.target == TargetTxn(p, log[i]) && w.hist == [i]
  {
    var one := Round(script, commit, FlawEnv(flaw));
    var w1 := FlawFirst(p, log, start, slot, i, script, end, commit, flaw);
    lsn := w1.lingering;
    FlawEnds(p, log, start, w1, flaw);
    FlawLags(p, log, start, slot, i, w1, flaw);
    RunAppend(p, log, start, Init(start, slot, true), one, FlawEnd(flaw, lsn));
    w := RunAll(p, log, start, w1, FlawEnd(flaw, lsn)).value;
  }

  /** `lsn` is all that the server can have been told after the flawed connection. */
  ghost predicate ToldBy(p: Stages, log: seq<Txn>, start: nat, slot: nat, script: Script, commit: ReplEvent, flaw: Flaw,
      lsn: nat)
  {
    var r := RunAll(p, log, start, Init(start, slot, true), Round(script, commit, FlawEnv(flaw)));
    r.Some? && lsn == r.value.lingering
  }

  /**
    For any stages, any log and any way its first transaction is sent: if it
    has something to execute, each of the three flaws has it executed twice,
    the one in doubt even when the server has been told everything (`lsn`).
   */
  lemma {:induction false} FlawRepeats(p: Stages, log: seq<Txn>, start: nat, slot: nat, script: Script,
      end: RelationCache, commit: ReplEvent, flaw: Flaw) returns (lsn: nat)
    requires StagesOk(p) && GoodLog(log) && First(log, Max(start, slot)) < |log|
    requires var i := First(log, Max(start, slot));
             Carries(p, log, i, map[], script, end) && CommitOf(log, i, commit) && TargetTxn(p, log[i]) != []
    requires flaw.BoundaryNotTaken? ==> p.emitBoundaries
    ensures var i := First(log, Max(start, slot));
            var r := RunAll(p, log, start, Init(start, slot, true), FlawedRun(flaw, lsn, script, commit));
            && ToldBy(p, log, start, slot, script, commit, flaw, lsn)
            && r.Some? && r.value.hist == [i, i] && r.value.target == TargetTxn(p, log[i]) + TargetTxn(p, log[i])
  {
    var i := First(log, Max(start, slot));
    var again := Round(script, commit, Env(true, Committed));
    var w;
    lsn, w := FlawEnded(p, log, start, slot, i, script, end, commit, flaw);
    RoundRuns(p, log, start, slot, w, i, script, end, commit, Env(true, Committed));
    RunAppend(p, log, start, Init(start, slot, true), Round(script, commit, FlawEnv(flaw)) + FlawEnd(flaw, lsn), again);
    assert [i] + [i] == [i, i];
  }

  /** A boundary that is not taken repeats the transaction in one life of the process. */
  lemma {:induction false} FlawCalm(lsn: nat, script: Script, commit: ReplEvent)
    ensures Calm(FlawedRun(BoundaryNotTaken, lsn, script, commit))
  {
    PlayCalm(script + [(commit, FlawEnv(BoundaryNotTaken))]);
    PlayCalm(script + [(commit, Env(true, Committed))]);
  }

  lemma {:induction false} PlayCalm(script: Script)
    ensures Calm(Play(script))
    decreases |script|
  {
    if script != [] {
      PlayCalm(script[1..]);
    }
  }

  // ── The sinks ─────────────────────────────────────────────────────

  /**
    A change that passes the gate and whose send fails: the sink, alone or
    beside the applier, gets nothing, and the session goes past it.
   */
  ghost predicate FailedSend(p: Stages, w: World, env: Env) {
    && w.conn.Some? && w.conn.value.fifo != [] && !env.sinkOk
    && w.conn.value.fifo[0].XLogData?
    && var decoded := p.decode(w.conn.value.fifo[0].data, w.conn.value.client.cache);
       decoded.Ok? && decoded.value.Some? && decoded.value.value.IsChange() && p.forward(decoded.value.value)
  }

  /**
    Whatever follows a failed send, the change can be sent again by a living
    process exactly when neither the session's nor the confirmed position has
    moved past the commit of its transaction.
   */
  lemma {:induction false} FailedSendLost(p: Stages, log: seq<Txn>, start: nat, slot: nat, applier: bool, w: World,
      env: Env, acts: seq<Action>)
    requires StagesOk(p) && GoodLog(log) && Reachable(p, log, start, slot, applier, w) && FailedSend(p, w, env)
    requires RunAll(p, log, start, Received(p, w, env), acts).Some?
    ensures var t := w.conn.value.client.i;
            var w1 := Received(p, w, env);
            var w2 := RunAll(p, log, start, w1, acts).value;
            && t < |log| && w1.sent == w.sent && w1.conn.Some?
            && w1.conn.value.client.sent == Some(w.conn.value.client.sent.GetOr(0) + 1)
            && (CanBeResent(p, log, start, w2, t) <==> !Passed(log, w2, t))
  {
    ReachableGood(p, log, start, slot, applier, w);
    assert Legal(p, log, w.conn.value.client, w.conn.value.fifo[0]);
    var w1 := Received(p, w, env);
    assert [Recv(env)][1..] == [];
    assert RunAll(p, log, start, w1, []) == Some(w1);
    assert RunAll(p, log, start, w, [Recv(env)]) == Some(w1);
    ReachableOn(p, log, start, slot, applier, w, [Recv(env)]);
    ReachableOn(p, log, start, slot, applier, w1, acts);
    ResentExactly(p, log, start, slot, applier, RunAll(p, log, start, w1, acts).value, w.conn.value.client.i);
  }

  lemma {:induction false} FoldJoins(p: Stages, st: State, xs: Script, ys: Script)
    ensures Fold(p, st, xs + ys) == Fold(p, Fold(p, st, xs), ys)
    decreases |xs|
  {
    if xs == [] {
      assert xs + ys == ys;
    } else {
      assert (xs + ys)[1..] == xs[1..] + ys;
      FoldJoins(p, OnEvent(p, st, xs[0].0, xs[0].1).0, xs[1..], ys);
    }
  }

  /** What the session knows when it begins. */
  function Fresh(start: nat, applier: bool): State {
    State(NoBuffer(applier), true, [], [], start, map[])
  }

  /**
    For any stages and any log: one failed send in the first transaction, the
    rest of it sent or not, and its commit handled, on the target too if there
    is one. The sink never got the change, and no later session of the living
    process will be sent it.
   */
  lemma {:induction false} SinkFailureLoses(p: Stages, log: seq<Txn>, start: nat, slot: nat, applier: bool, before: Script,
      ev: ReplEvent, e: WalEvent, after: Script, end: RelationCache, commit: ReplEvent, env: Env)
    requires StagesOk(p) && GoodLog(log) && First(log, Max(start, slot)) < |log|
    requires var i := First(log, Max(start, slot)); var failed := (ev, Env(false, Committed));
             Carries(p, log, i, map[], before + [failed] + after, end) && CommitOf(log, i, commit)
    requires ev.XLogData? && p.forward(e)
    requires p.decode(ev.data, Fold(p, Fresh(start, applier), before).cache) == Ok(Some(e))
    requires (p.emitBoundaries ==> env.sinkOk) && (applier ==> env.commit.Committed?)
    ensures var i := First(log, Max(start, slot)); var failed := (ev, Env(false, Committed));
            var r := RunAll(p, log, start, Init(start, slot, applier), Round(before + [failed] + after, commit, env));
            && r.Some? && r.value.hist == [i]
            && Fold(p, Fresh(start, applier), before + [failed]).sent == Fold(p, Fresh(start, applier), before).sent
            && Fold(p, Fold(p, Fresh(start, applier), before + [failed]), after).sent <= r.value.sent
            && !CanBeResent(p, log, start, r.value, i)
  {
    var i := First(log, Max(start, slot));
    var failed := (ev, Env(false, Committed));
    var script := before + [failed] + after;
    var w0 := Init(start, slot, applier);
    InitInv(p, log, start, slot, applier);
    RoundRuns(p, log, start, slot, w0, i, script, end, commit, env);
    assert RunAll(p, log, start, w0, []) == Some(w0);
    ReachableOn(p, log, start, slot, applier, w0, Round(script, commit, env));
    var w := RunAll(p, log, start, w0, Round(script, commit, env)).value;
    ResentExactly(p, log, start, slot, applier, w, i);
    SendFails(p, Fresh(start, applier), before, ev, e);
    RoundSent(p, log, start, slot, w0, i, script, end, commit, env);
    FoldJoins(p, Fresh(start, applier), before + [failed], after);
    assert [] + [i] == [i];
  }

  lemma {:induction false} SendFails(p: Stages, st: State, before: Script, ev: ReplEvent, e: WalEvent)
    requires ev.XLogData? && p.forward(e) && p.decode(ev.data, Fold(p, st, before).cache) == Ok(Some(e))
    ensures Fold(p, st, before + [(ev, Env(false, Committed))]).sent == Fold(p, st, before).sent
  {
    var failed := (ev, Env(false, Committed));
    var last: Script := [failed];
    FoldJoins(p, st, before, last);
    assert last[1..] == [];
    var mid := Fold(p, st, before);
    assert Fold(p, OnEvent(p, mid, ev, failed.1).0, []) == OnEvent(p, mid, ev, failed.1).0;
  }

  /** The state the next session begins in. */
  function StateThere(w: World): State {
    State(w.buffer, w.up, w.target, w.sent, w.resume, map[])
  }

  /** The sinks of a connection that plays one transaction got at least what its events gave them. */
  lemma {:induction false} RoundSent(p: Stages, log: seq<Txn>, start: nat, slot: nat, w: World, i: nat, script: Script,
      end: RelationCache, commit: ReplEvent, env: Env)
    requires StagesOk(p) && GoodLog(log) && Good(p, log, start, slot, w) && w.conn.None? && i == First(log, Position(w))
    requires Carries(p, log, i, map[], script, end) && CommitOf(log, i, commit)
    requires StateThere(w) == Fresh(start, w.buffer.Some?)
    ensures var r := RunAll(p, log, start, w, Round(script, commit, env));
            r.Some? && Fold(p, Fresh(start, w.buffer.Some?), script).sent <= r.value.sent
  {
    var w1 := Apply(p, log, start, w, Connect);
    assert [Connect][1..] == [];
    assert RunAll(p, log, start, w1, []) == Some(w1);
    RunGood(p, log, start, slot, w, [Connect]);
    assert StateOf(w1) == StateThere(w);
    TxnPlayed(p, log, start, slot, w1, script, end, commit, env);
    RunAppend(p, log, start, w, [Connect], Play(script + [(commit, env)]));
  }

  // ── Getting to the end ────────────────────────────────────────────────────

  /** Every transaction can be sent, whatever relations the session knows. */
  ghost predicate Sendable(p: Stages, log: seq<Txn>) {
    forall i, cache :: 0 <= i < |log| ==> CanSend(p, log, i, cache)
  }

  ghost predicate CanSend(p: Stages, log: seq<Txn>, i: nat, cache: RelationCache) {
    exists script, end :: Carries(p, log, i, cache, script, end)
  }

  /** The session is about to receive transaction `j`. */
  predicate At(w: World, j: nat) {
    Aligned(w) && w.conn.value.client.sent.None? && w.conn.value.client.i == j
  }

  /** A run that brings a session from `w` to transaction `j` without a slip. */
  ghost predicate Brings(p: Stages, log: seq<Txn>, start: nat, w: World, acts: seq<Action>, j: nat) {
    && Calm(acts) && Steady(p, log, start, w, acts) && w.conn.Some? && w.conn.value.client.i <= j
    && RunAll(p, log, start, w, acts).Some? && At(RunAll(p, log, start, w, acts).value, j)
    && RunAll(p, log, start, w, acts).value.hist == w.hist + Range(w.conn.value.client.i, j)
    && Works(RunAll(p, log, start, w, acts).value)
  }

  lemma {:induction false} BringsOne(p: Stages, log: seq<Txn>, start: nat, slot: nat, w: World, i: nat) returns (acts: seq<Action>)
    requires StagesOk(p) && GoodLog(log) && Good(p, log, start, slot, w) && Sendable(p, log) && At(w, i) && i < |log|
    requires Works(w)
    ensures Brings(p, log, start, w, acts, i + 1)
  {
    var c := w.conn.value.client;
    assert CanSend(p, log, c.i, c.cache);
    var script, end :| Carries(p, log, c.i, c.cache, script, end);
    acts := BringsScript(p, log, start, slot, w, i, script, end);
  }

  lemma {:induction false} BringsScript(p: Stages, log: seq<Txn>, start: nat, slot: nat, w: World, i: nat, script: Script,
      end: RelationCache) returns (acts: seq<Action>)
    requires StagesOk(p) && GoodLog(log) && Good(p, log, start, slot, w) && At(w, i) && Works(w)
    requires Carries(p, log, i, w.conn.value.client.cache, script, end)
    ensures Brings(p, log, start, w, acts, i + 1)
  {
    var commit := ReplEvent.Commit(0, log[i].endLsn, 0);
    acts := Play(script + [(commit, Env(true, Committed))]);
    TxnArrives(p, log, start, slot, w, i, script, end, commit);
    TxnSteady(p, log, start, slot, w, script, end, commit);
    BringsNext(p, log, start, w, i, acts);
  }

  lemma {:induction false} TxnArrives(p: Stages, log: seq<Txn>, start: nat, slot: nat, w: World, i: nat, script: Script,
      end: RelationCache, commit: ReplEvent)
    requires StagesOk(p) && GoodLog(log) && Good(p, log, start, slot, w) && At(w, i) && Works(w)
    requires Carries(p, log, i, w.conn.value.client.cache, script, end) && CommitOf(log, i, commit)
    ensures var r := RunAll(p, log, start, w, Play(script + [(commit, Env(true, Committed))]));
            r.Some? && At(r.value, i + 1) && r.value.hist == w.hist + [i] && Works(r.value)
  {
    TxnPlayed(p, log, start, slot, w, script, end, commit, Env(true, Committed));
  }

  lemma {:induction false} BringsNext(p: Stages, log: seq<Txn>, start: nat, w: World, i: nat, acts: seq<Action>)
    requires At(w, i) && Calm(acts) && Steady(p, log, start, w, acts) && RunAll(p, log, start, w, acts).Some?
    requires var w' := RunAll(p, log, start, w, acts).value; At(w', i + 1) && w'.hist == w.hist + [i] && Works(w')
    ensures Brings(p, log, start, w, acts, i + 1)
  {
    assert Range(i, i + 1) == [i];
  }

  lemma {:induction false} BringsOn(p: Stages, log: seq<Txn>, start: nat, w: World, xs: seq<Action>, j: nat,
      ys: seq<Action>, k: nat)
    requires Brings(p, log, start, w, xs, j) && Brings(p, log, start, RunAll(p, log, start, w, xs).value, ys, k)
    ensures Brings(p, log, start, w, xs + ys, k)
  {
    RunAppend(p, log, start, w, xs, ys);
    SteadyAppend(p, log, start, w, xs, ys);
    var i := w.conn.value.client.i;
    assert w.hist + Range(i, j) + Range(j, k) == w.hist + Range(i, k);
  }

  /** A session that is at a transaction can be brought to any later one, without a slip. */
  lemma {:induction false} Serves(p: Stages, log: seq<Txn>, start: nat, slot: nat, w: World, i: nat, j: nat)
    returns (acts: seq<Action>)
    requires StagesOk(p) && GoodLog(log) && Good(p, log, start, slot, w) && Sendable(p, log)
    requires At(w, i) && i <= j <= |log| && Works(w)
    ensures Brings(p, log, start, w, acts, j)
    decreases j - i
  {
    if i == j {
      acts := [];
      assert w.hist + Range(j, j) == w.hist;
    } else {
      var one := BringsOne(p, log, start, slot, w, i);
      RunGood(p, log, start, slot, w, one);
      var more := Serves(p, log, start, slot, RunAll(p, log, start, w, one).value, i + 1, j);
      acts := one + more;
      BringsOn(p, log, start, w, one, i + 1, more, j);
    }
  }

  /**
    From every world of a run in which the target is not lost some continuation
    without a slip hands over everything that is left of the log.
   */
  lemma {:induction false} AlwaysFinishes(p: Stages, log: seq<Txn>, start: nat, slot: nat, applier: bool, w: World)
    returns (acts: seq<Action>)
    requires StagesOk(p) && GoodLog(log) && Reachable(p, log, start, slot, applier, w) && Sendable(p, log) && Works(w)
    ensures Calm(acts) && Steady(p, log, start, w, acts) && Finishes(p, log, start, slot, w, acts)
  {
    ReachableGood(p, log, start, slot, applier, w);
    Reconnects(p, log, start, w);
    ReconnectsSteady(p, log, start, w);
    RunGood(p, log, start, slot, w, Reconnecting(w));
    var w1 := RunAll(p, log, start, w, Reconnecting(w)).value;
    var more := Serves(p, log, start, slot, w1, First(log, Position(w)), |log|);
    acts := Reconnecting(w) + more;
    RunAppend(p, log, start, w, Reconnecting(w), more);
    SteadyAppend(p, log, start, w, Reconnecting(w), more);
    RunGood(p, log, start, slot, w1, more);
  }

  ghost predicate Finishes(p: Stages, log: seq<Txn>, start: nat, slot: nat, w: World, acts: seq<Action>) {
    RunAll(p, log, start, w, acts).Some? &&
    NextTxn(First(log, Max(start, slot)), RunAll(p, log, start, w, acts).value) == |log|
  }

  ghost predicate CanFinish(p: Stages, log: seq<Txn>, start: nat, slot: nat, w: World) {
    exists acts :: Calm(acts) && Finishes(p, log, start, slot, w, acts)
  }

  /**
    When every transaction executes something, the living process can still
    hand over the whole log exactly when the target is not lost or everything
    is handed over.
   */
  lemma {:induction false} FinishesExactly(p: Stages, log: seq<Txn>, start: nat, slot: nat, applier: bool, w: World)
    requires StagesOk(p) && GoodLog(log) && Reachable(p, log, start, slot, applier, w) && Sendable(p, log)
    requires AllExecute(p, log)
    ensures CanFinish(p, log, start, slot, w) <==> Works(w) || NextTxn(First(log, Max(start, slot)), w) == |log|
  {
    ReachableGood(p, log, start, slot, applier, w);
    if Works(w) {
      var acts := AlwaysFinishes(p, log, start, slot, applier, w);
    } else {
      assert RunAll(p, log, start, w, []) == Some(w);
      assert Finishes(p, log, start, slot, w, []) <==> NextTxn(First(log, Max(start, slot)), w) == |log|;
      forall acts | Calm(acts) && RunAll(p, log, start, w, acts).Some?
        ensures RunAll(p, log, start, w, acts).value.hist == w.hist
      {
        DownForGood(p, log, start, slot, w, acts);
        NothingMore(p, log, w, RunAll(p, log, start, w, acts).value);
      }
    }
  }

  lemma {:induction false} GainedIdle(p: Stages, log: seq<Txn>, w: World, w': World, x: nat)
    requires StaysDown(p, log, w, w') && |w.hist| <= x < |w'.hist|
    ensures w'.hist[x] < |log| && TargetTxn(p, log[w'.hist[x]]) == []
  {
  }

  lemma {:induction false} NothingMore(p: Stages, log: seq<Txn>, w: World, w': World)
    requires StaysDown(p, log, w, w') && AllExecute(p, log)
    ensures w'.hist == w.hist
  {
    if |w.hist| < |w'.hist| {
      GainedIdle(p, log, w, w', |w.hist|);
      assert false;
    }
  }

  lemma {:induction false} ReconnectsSteady(p: Stages, log: seq<Txn>, start: nat, w: World)
    ensures Calm(Reconnecting(w)) && Steady(p, log, start, w, Reconnecting(w))
  {
    var w1 := if w.conn.Some? then Apply(p, log, start, w, EndSession) else w;
    assert Steady(p, log, start, Apply(p, log, start, w1, Connect), []);
    assert [Connect][1..] == [];
    assert Steady(p, log, start, w1, [Connect]);
    if w.conn.Some? {
      assert ([EndSession] + [Connect])[1..] == [Connect];
    } else {
      assert [] + [Connect] == [Connect];
    }
  }

  /** Without a restart, `t` can take effect from here on. */
  ghost predicate CanTakeEffect(p: Stages, log: seq<Txn>, start: nat, w: World, t: nat) {
    exists acts :: Calm(acts) && RunAll(p, log, start, w, acts).Some? && Gains(w, RunAll(p, log, start, w, acts).value, t)
  }

  ghost predicate Gains(w: World, w': World, t: nat) {
    exists x :: |w.hist| <= x < |w'.hist| && w'.hist[x] == t
  }

  /**
    From any world of a run a transaction that executes something can take
    effect, or take effect again, without a restart exactly when neither
    position is past it and the target is not lost. While it is not lost, so can
    any other.
   */
  lemma {:induction false} TakesEffectExactly(p: Stages, log: seq<Txn>, start: nat, slot: nat, applier: bool, w: World, t: nat)
    requires StagesOk(p) && GoodLog(log) && Reachable(p, log, start, slot, applier, w) && Sendable(p, log) && t < |log|
    ensures CanTakeEffect(p, log, start, w, t) ==> !Passed(log, w, t)
    ensures Works(w) || TargetTxn(p, log[t]) != [] ==>
              (CanTakeEffect(p, log, start, w, t) <==> Works(w) && !Passed(log, w, t))
  {
    ReachableGood(p, log, start, slot, applier, w);
    forall acts | Calm(acts) && RunAll(p, log, start, w, acts).Some?
      ensures Gains(w, RunAll(p, log, start, w, acts).value, t) ==>
                !Passed(log, w, t) && (Works(w) || TargetTxn(p, log[t]) == [])
    {
      if Passed(log, w, t) {
        NeverAgain(p, log, start, slot, w, acts, t);
      }
      if !Works(w) {
        DownForGood(p, log, start, slot, w, acts);
      }
    }
    if Works(w) && !Passed(log, w, t) {
      var acts := Delivers(p, log, start, slot, w, t);
    }
  }

  lemma {:induction false} Delivers(p: Stages, log: seq<Txn>, start: nat, slot: nat, w: World, t: nat) returns (acts: seq<Action>)
    requires StagesOk(p) && GoodLog(log) && Good(p, log, start, slot, w) && Sendable(p, log) && Works(w)
    requires t < |log| && !Passed(log, w, t)
    ensures Calm(acts) && RunAll(p, log, start, w, acts).Some? && Gains(w, RunAll(p, log, start, w, acts).value, t)
  {
    acts := ComesTo(p, log, start, slot, w, t, t + 1);
    var w' := RunAll(p, log, start, w, acts).value;
    assert w'.hist[|w'.hist| - 1] == t;
  }

  /** Reconnecting, and going on to transaction `j`, past `t` if that is not yet passed. */
  lemma {:induction false} ComesTo(p: Stages, log: seq<Txn>, start: nat, slot: nat, w: World, t: nat, j: nat)
    returns (acts: seq<Action>)
    requires StagesOk(p) && GoodLog(log) && Good(p, log, start, slot, w) && Sendable(p, log) && Works(w)
    requires t < |log| && !Passed(log, w, t) && t <= j <= |log|
    ensures Calm(acts) && RunAll(p, log, start, w, acts).Some?
    ensures var w' := RunAll(p, log, start, w, acts).value;
            At(w', j) && Good(p, log, start, slot, w') && First(log, Position(w)) <= t &&
            w'.hist == w.hist + Range(First(log, Position(w)), j)
  {
    Reconnects(p, log, start, w);
    ReconnectsSteady(p, log, start, w);
    RunGood(p, log, start, slot, w, Reconnecting(w));
    FirstExact(log, Position(w), t);
    var w1 := RunAll(p, log, start, w, Reconnecting(w)).value;
    var more := Serves(p, log, start, slot, w1, First(log, Position(w)), j);
    acts := Reconnecting(w) + more;
    RunAppend(p, log, start, w, Reconnecting(w), more);
    RunGood(p, log, start, slot, w, acts);
  }

  // ── What the sinks are given again ────────────────────────────────────────

  /** Handling the next event gives the sinks change `m` of transaction `t`. */
  ghost predicate Gives(p: Stages, w: World, env: Env, t: nat, m: nat) {
    && w.conn.Some? && w.conn.value.fifo != [] && env.sinkOk && w.conn.value.fifo[0].XLogData?
    && w.conn.value.client.i == t && w.conn.value.client.sent == Some(m)
    && var decoded := p.decode(w.conn.value.fifo[0].data, w.conn.value.client.cache);
       decoded.Ok? && decoded.value.Some? && decoded.value.value.IsChange() && p.forward(decoded.value.value)
  }

  /** That is the change as the log has it, transformed. */
  lemma {:induction false} GivesChange(p: Stages, log: seq<Txn>, start: nat, slot: nat, w: World, env: Env, t: nat, m: nat)
    requires GoodLog(log) && Good(p, log, start, slot, w) && Gives(p, w, env, t, m)
    ensures t < |log| && m < |log[t].changes| && p.forward(log[t].changes[m]) && !Passed(log, w, t)
    ensures Received(p, w, env).sent == w.sent + [p.transform(log[t].changes[m])]
  {
    assert Legal(p, log, w.conn.value.client, w.conn.value.fifo[0]);
  }

  /** Without a restart, the sinks can be given the change from here on. */
  ghost predicate CanBeGiven(p: Stages, log: seq<Txn>, start: nat, w: World, t: nat, m: nat) {
    exists acts, env :: Calm(acts) && RunAll(p, log, start, w, acts).Some? && Gives(p, RunAll(p, log, start, w, acts).value, env, t, m)
  }

  /**
    Given before or not, the living process can give a change to the sinks
    exactly when it passes the gate and neither position is past its
    transaction, while the target, if there is one, is not lost.
   */
  lemma {:induction false} GivenAgainExactly(p: Stages, log: seq<Txn>, start: nat, slot: nat, applier: bool, w: World,
      t: nat, m: nat)
    requires StagesOk(p) && GoodLog(log) && Reachable(p, log, start, slot, applier, w) && Sendable(p, log)
    requires t < |log| && m < |log[t].changes|
    ensures CanBeGiven(p, log, start, w, t, m) ==> p.forward(log[t].changes[m]) && !Passed(log, w, t)
    ensures Works(w) ==> (CanBeGiven(p, log, start, w, t, m) <==> p.forward(log[t].changes[m]) && !Passed(log, w, t))
  {
    ReachableGood(p, log, start, slot, applier, w);
    forall acts, env | Calm(acts) && RunAll(p, log, start, w, acts).Some? && Gives(p, RunAll(p, log, start, w, acts).value, env, t, m)
      ensures p.forward(log[t].changes[m]) && !Passed(log, w, t)
    {
      RunGood(p, log, start, slot, w, acts);
      GivesChange(p, log, start, slot, RunAll(p, log, start, w, acts).value, env, t, m);
      if Passed(log, w, t) {
        NeverAgain(p, log, start, slot, w, acts, t);
      }
    }
    if Works(w) && p.forward(log[t].changes[m]) && !Passed(log, w, t) {
      var acts := GivesOnce(p, log, start, slot, w, t, m);
    }
  }

  lemma {:induction false} GivesOnce(p: Stages, log: seq<Txn>, start: nat, slot: nat, w: World, t: nat, m: nat)
    returns (acts: seq<Action>)
    requires StagesOk(p) && GoodLog(log) && Good(p, log, start, slot, w) && Sendable(p, log) && Works(w)
    requires t < |log| && m < |log[t].changes| && p.forward(log[t].changes[m]) && !Passed(log, w, t)
    ensures Calm(acts) && RunAll(p, log, start, w, acts).Some?
    ensures Gives(p, RunAll(p, log, start, w, acts).value, Env(true, Committed), t, m)
  {
    var come := ComesTo(p, log, start, slot, w, t, t);
    var w1 := RunAll(p, log, start, w, come).value;
    var cache := w1.conn.value.client.cache;
    assert CanSend(p, log, t, cache);
    var script: Script, end :| Carries(p, log, t, cache, script, end);
    var k, mid := Crosses(p, log, Cursor(t, None, cache), script, Cursor(t, Some(|log[t].changes|), end), m);
    var upTo := GivesNext(p, log, start, w1, script[..k], mid, script[k].0, m);
    acts := come + upTo;
    RunAppend(p, log, start, w, come, upTo);
  }

  /** Where in the events of a transaction its change `m` comes. */
  lemma {:induction false} Crosses(p: Stages, log: seq<Txn>, cur: Cursor, script: Script, end: Cursor, m: nat)
    returns (k: nat, mid: Cursor)
    requires GoodLog(log) && Takes(p, log, cur, script, end) && cur.i == end.i < |log|
    requires (cur.sent.None? || cur.sent.value <= m) && end.sent.Some? && m < end.sent.value
    ensures k < |script| && Takes(p, log, cur, script[..k], mid) && mid.i == cur.i && mid.sent == Some(m)
    ensures Legal(p, log, mid, script[k].0) && CarriesChange(p, mid, script[k].0)
    decreases |script|
  {
    var ev := script[0].0;
    assert Events(script)[0] == ev && Events(script)[1..] == Events(script[1..]);
    if cur.sent == Some(m) && CarriesChange(p, cur, ev) {
      k, mid := 0, cur;
      assert Events(script[..0]) == [];
    } else {
      k, mid := Crosses(p, log, Follow(p, cur, ev), script[1..], end, m);
      k := k + 1;
      assert script[..k][1..] == script[1..][..k - 1] && Events(script[..k])[0] == ev;
      assert Events(script[..k])[1..] == Events(script[1..][..k - 1]);
    }
  }

  /** The event is a change for a session that is at `cur`. */
  ghost predicate CarriesChange(p: Stages, cur: Cursor, ev: ReplEvent) {
    ev.XLogData? &&
    var decoded := p.decode(ev.data, cur.cache);
    decoded.Ok? && decoded.value.Some? && decoded.value.value.IsChange()
  }

  lemma {:induction false} GivesNext(p: Stages, log: seq<Txn>, start: nat, w: World, script: Script, mid: Cursor,
      ev: ReplEvent, m: nat) returns (acts: seq<Action>)
    requires Aligned(w) && Takes(p, log, w.conn.value.client, script, mid) && mid.i < |log| && mid.sent == Some(m)
    requires Legal(p, log, mid, ev) && CarriesChange(p, mid, ev) && m < |log[mid.i].changes|
    requires p.forward(log[mid.i].changes[m])
    ensures Calm(acts) && RunAll(p, log, start, w, acts).Some?
    ensures Gives(p, RunAll(p, log, start, w, acts).value, Env(true, Committed), mid.i, m)
  {
    Plays(p, log, start, w, script, mid);
    var w1 := RunAll(p, log, start, w, Play(script)).value;
    var w2 := Apply(p, log, start, w1, ServerSend(ev));
    assert [ServerSend(ev)][1..] == [] && RunAll(p, log, start, w2, []) == Some(w2);
    assert w2.conn.value.fifo == [] + [ev];
    acts := Play(script) + [ServerSend(ev)];
    RunAppend(p, log, start, w, Play(script), [ServerSend(ev)]);
  }

  lemma {:induction false} TxnSteady(p: Stages, log: seq<Txn>, start: nat, slot: nat, w: World, script: Script,
      end: RelationCache, commit: ReplEvent)
    requires Aligned(w) && w.conn.value.client.sent.None?
    requires var c := w.conn.value.client; Carries(p, log, c.i, c.cache, script, end) && CommitOf(log, c.i, commit)
    ensures var acts := Play(script + [(commit, Env(true, Committed))]); Calm(acts) && Steady(p, log, start, w, acts)
  {
    var i := w.conn.value.client.i;
    var last := [(commit, Env(true, Committed))];
    Plays(p, log, start, w, script, Cursor(i, Some(|log[i].changes|), end));
    var w' := RunAll(p, log, start, w, Play(script)).value;
    PlayOne(p, log, start, w', commit, Env(true, Committed));
    OneSteady(p, log, start, w', commit, Env(true, Committed));
    PlayJoins(script, last);
    SteadyAppend(p, log, start, w, Play(script), Play(last));
  }
}
