/** What every run of the pipeline guarantees, and where the guarantee ends. */
module Delivery {
  import opened Wrappers
  import opened Proto
  import opened Session
  import opened Replication

  /** The transactions a target holds after `txns`, one each, in order. */
  function TargetOf(p: Stages): Txn -> TargetLog {
    t => TargetTxn(p, t)
  }

  function Expected(p: Stages, txns: seq<Txn>): TargetLog {
    FlatMap(TargetOf(p), txns)
  }

  function Range(lo: nat, hi: nat): seq<nat>
    requires lo <= hi
  {
    seq(hi - lo, x requires 0 <= x < hi - lo => lo + x)
  }

  lemma {:induction false} FlatMapRange<T, U>(f: nat -> seq<U>, g: T -> seq<U>, xs: seq<T>, lo: nat, hi: nat)
    requires lo <= hi <= |xs| && forall i :: 0 <= i < |xs| ==> f(i) == g(xs[i])
    ensures FlatMap(f, Range(lo, hi)) == FlatMap(g, xs[lo..hi])
    decreases hi
  {
    if lo == hi {
      assert Range(lo, hi) == [] && xs[lo..hi] == [];
    } else {
      FlatMapRange(f, g, xs, lo, hi - 1);
      assert Range(lo, hi) == Range(lo, hi - 1) + [hi - 1];
      assert xs[lo..hi] == xs[lo..hi - 1] + [xs[hi - 1]];
      FlatMapAppend<nat, U>(f, Range(lo, hi - 1), hi - 1);
      FlatMapAppend<T, U>(g, xs[lo..hi - 1], xs[hi - 1]);
    }
  }

  // ── How far things have got ───────────────────────────────────────────────

  /** The later of the session's position, or the next one's, and the confirmed one: where a new stream would begin. */
  function Position(w: World): nat {
    Max(if w.conn.Some? then w.conn.value.applied else w.resume, w.slot)
  }

  predicate Passed(log: seq<Txn>, w: World, t: nat)
    requires t < |log|
  {
    log[t].finalLsn < Position(w)
  }

  /** The transactions session `k` handled end here in `hist`. */
  function Hi(sessions: seq<Served>, hist: seq<nat>, k: nat): nat
    requires k < |sessions|
  {
    if k + 1 < |sessions| then sessions[k + 1].lo else |hist|
  }

  /**
    The sessions share out `hist`, and each handled consecutive transactions
    from the first one its stream had to begin with.
   */
  ghost predicate Spans(log: seq<Txn>, sessions: seq<Served>, hist: seq<nat>) {
    && (forall k :: 0 <= k < |sessions| ==> sessions[k].lo <= |hist|)
    && (forall j, k :: 0 <= j < k < |sessions| ==> sessions[j].lo <= sessions[k].lo)
    && (if sessions == [] then hist == [] else sessions[0].lo == 0)
    && (forall k, x :: 0 <= k < |sessions| && sessions[k].lo <= x < Hi(sessions, hist, k) ==>
          hist[x] == First(log, sessions[k].start) + (x - sessions[k].lo))
  }

  /** Transaction `i` is the one the last session handles next. */
  predicate InLine(log: seq<Txn>, sessions: seq<Served>, hist: seq<nat>, i: nat) {
    var n := |sessions|;
    n > 0 && sessions[n - 1].lo <= |hist| && i == First(log, sessions[n - 1].start) + (|hist| - sessions[n - 1].lo)
  }

  lemma {:induction false} SpansTake(log: seq<Txn>, sessions: seq<Served>, hist: seq<nat>, i: nat)
    requires Spans(log, sessions, hist) && InLine(log, sessions, hist, i)
    ensures Spans(log, sessions, hist + [i]) && InLine(log, sessions, hist + [i], i + 1)
  {
    forall k, x | 0 <= k < |sessions| && sessions[k].lo <= x < Hi(sessions, hist + [i], k)
      ensures (hist + [i])[x] == First(log, sessions[k].start) + (x - sessions[k].lo)
    {
      if x < |hist| {
        assert x < Hi(sessions, hist, k);
      }
    }
  }

  lemma {:induction false} SpansPush(log: seq<Txn>, sessions: seq<Served>, hist: seq<nat>, start: nat)
    requires Spans(log, sessions, hist)
    ensures Spans(log, sessions + [Served(start, |hist|)], hist)
    ensures InLine(log, sessions + [Served(start, |hist|)], hist, First(log, start))
  {
    var more := sessions + [Served(start, |hist|)];
    forall k, x | 0 <= k < |more| && more[k].lo <= x < Hi(more, hist, k)
      ensures hist[x] == First(log, more[k].start) + (x - more[k].lo)
    {
      assert k < |sessions| && Hi(more, hist, k) == Hi(sessions, hist, k);
    }
  }

  /** Every transaction handled so far is in the log, and a session in progress is at the next one of its span. */
  ghost predicate SpansOf(log: seq<Txn>, w: World) {
    && Spans(log, w.sessions, w.hist) && Below(log, w)
    && (w.conn.Some? ==> InLine(log, w.sessions, w.hist, w.conn.value.client.i))
  }

  ghost predicate Below(log: seq<Txn>, w: World) {
    forall x :: 0 <= x < |w.hist| ==> w.hist[x] < |log|
  }

  /** What holds of every world a run can reach. */
  ghost predicate Good(p: Stages, log: seq<Txn>, start: nat, slot: nat, w: World) {
    Inv(p, log, start, slot, w) && SpansOf(log, w)
  }

  lemma {:induction false} ReachedSpans(p: Stages, log: seq<Txn>, w: World, st: State, more: bool)
    requires SpansOf(log, w) && w.conn.Some? && w.conn.value.fifo != []
    requires w.conn.value.fifo[0].Commit? ==> w.conn.value.client.i < |log|
    requires !w.conn.value.fifo[0].Commit? ==> more
    ensures SpansOf(log, Reached(p, w, st, more))
  {
    SpansTake(log, w.sessions, w.hist, w.conn.value.client.i);
  }

  lemma {:induction false} StepSpans(p: Stages, log: seq<Txn>, start: nat, slot: nat, w: World, a: Action)
    requires Good(p, log, start, slot, w) && Enabled(p, log, w, a)
    ensures SpansOf(log, Apply(p, log, start, w, a))
  {
    match a
    case Recv(env) =>
      var c := w.conn.value;
      assert Legal(p, log, c.client, c.fifo[0]);
      var (st, more) := OnEvent(p, StateOf(w), c.fifo[0], env);
      OnEventAdvances(p, StateOf(w), c.fifo[0], env);
      ReachedSpans(p, log, w, st, more);
    case Connect =>
      SpansPush(log, w.sessions, w.hist, Max(w.resume, w.slot));
    case _ =>
  }

  lemma {:induction false} OnEventAdvances(p: Stages, st: State, ev: ReplEvent, env: Env)
    ensures var (st', more) := OnEvent(p, st, ev, env);
            && st.applied <= st'.applied
            && (ev.Commit? && more && (p.emitBoundaries ==> env.sinkOk) ==> ev.endLsn <= st'.applied)
            && (ev.Commit? && !(more && (p.emitBoundaries ==> env.sinkOk)) ==> st'.applied == st.applied)
            && (!ev.Commit? ==> more)
  {
  }

  lemma {:induction false} StepGood(p: Stages, log: seq<Txn>, start: nat, slot: nat, w: World, a: Action)
    requires StagesOk(p) && GoodLog(log) && Good(p, log, start, slot, w) && Enabled(p, log, w, a)
    ensures Good(p, log, start, slot, Apply(p, log, start, w, a))
  {
    StepInv(p, log, start, slot, w, a);
    StepSpans(p, log, start, slot, w, a);
  }

  lemma {:induction false} RunGood(p: Stages, log: seq<Txn>, start: nat, slot: nat, w: World, acts: seq<Action>)
    requires StagesOk(p) && GoodLog(log) && Good(p, log, start, slot, w) && RunAll(p, log, start, w, acts).Some?
    ensures Good(p, log, start, slot, RunAll(p, log, start, w, acts).value)
    decreases |acts|
  {
    if acts != [] {
      StepGood(p, log, start, slot, w, acts[0]);
      RunGood(p, log, start, slot, Apply(p, log, start, w, acts[0]), acts[1..]);
    }
  }

  /** A world some run leads to. */
  ghost predicate Reachable(p: Stages, log: seq<Txn>, start: nat, slot: nat, applier: bool, w: World) {
    exists acts :: RunAll(p, log, start, Init(start, slot, applier), acts) == Some(w)
  }

  lemma {:induction false} ReachableGood(p: Stages, log: seq<Txn>, start: nat, slot: nat, applier: bool, w: World)
    requires StagesOk(p) && GoodLog(log) && Reachable(p, log, start, slot, applier, w)
    ensures Good(p, log, start, slot, w)
  {
    InitInv(p, log, start, slot, applier);
    var acts :| RunAll(p, log, start, Init(start, slot, applier), acts) == Some(w);
    RunGood(p, log, start, slot, Init(start, slot, applier), acts);
  }

  // ── No loss, in every run ─────────────────────────────────────────────────

  lemma {:induction false} ContiguousCovers(base: nat, hist: seq<nat>, x: nat, t: nat)
    requires Contiguous(base, hist) && x < |hist| && base <= t <= hist[x]
    ensures exists y :: 0 <= y <= x && hist[y] == t
  {
    if t < hist[x] {
      assert x > 0;
      assert hist[x] <= hist[x - 1] + 1;
      ContiguousCovers(base, hist, x - 1, t);
    }
  }

  ghost predicate Before(hist: seq<nat>, x: nat, t: nat)
    requires x <= |hist|
  {
    exists y :: 0 <= y < x && hist[y] == t
  }

  /**
    Whatever happens - sink failures with boundaries emitted, refused or
    in-doubt target commits, reconnects, restarts - the target holds whole
    source transactions in the order of `hist`. That begins with the first
    transaction to be sent and never goes on by more than one, so none is
    skipped, not even while others are repeated; and each session handled a
    run of consecutive transactions from the first at or after its start.
   */
  lemma {:induction false} NothingLost(p: Stages, log: seq<Txn>, start: nat, slot: nat, applier: bool, w: World)
    requires StagesOk(p) && GoodLog(log) && Reachable(p, log, start, slot, applier, w)
    ensures w.buffer.Some? ==> w.target == Rendered(p, log, w.hist)
    ensures Contiguous(First(log, Max(start, slot)), w.hist) && Below(log, w) && Spans(log, w.sessions, w.hist)
    ensures forall x, t :: 0 <= x < |w.hist| && First(log, Max(start, slot)) <= t < w.hist[x] ==> Before(w.hist, x, t)
  {
    ReachableGood(p, log, start, slot, applier, w);
    var base := First(log, Max(start, slot));
    forall x, t | 0 <= x < |w.hist| && base <= t < w.hist[x] ensures Before(w.hist, x, t) {
      ContiguousCovers(base, w.hist, x, t);
      var y :| 0 <= y <= x && w.hist[y] == t;
    }
  }

  // ── What is sent again ────────────────────────────────────────────────────

  /** The process goes on living. */
  ghost predicate Calm(acts: seq<Action>) {
    forall i :: 0 <= i < |acts| ==> !acts[i].Restart?
  }

  /** Since `w` transaction `t` has stayed behind: nothing up to it has taken effect, and no session began at or before it. */
  ghost predicate StaysPassed(log: seq<Txn>, w: World, w': World, t: nat)
    requires t < |log|
  {
    && Passed(log, w', t) && w.hist <= w'.hist && w.sessions <= w'.sessions
    && (forall x :: |w.hist| <= x < |w'.hist| ==> w'.hist[x] > t)
    && (forall k :: |w.sessions| <= k < |w'.sessions| ==> log[t].finalLsn < w'.sessions[k].start)
  }

  lemma {:induction false} StepPassed(p: Stages, log: seq<Txn>, start: nat, slot: nat, w: World, a: Action, t: nat)
    requires StagesOk(p) && GoodLog(log) && Good(p, log, start, slot, w) && Enabled(p, log, w, a) && !a.Restart?
    requires t < |log| && Passed(log, w, t)
    ensures StaysPassed(log, w, Apply(p, log, start, w, a), t)
  {
    if a.Recv? {
      var c := w.conn.value;
      OnEventAdvances(p, StateOf(w), c.fifo[0], a.env);
      assert Legal(p, log, c.client, c.fifo[0]);
      if c.client.i <= t {
        CoversLater(log, Position(w), c.client.i, t);
      }
    }
  }

  lemma {:induction false} StaysOn(log: seq<Txn>, w: World, w1: World, w2: World, t: nat)
    requires t < |log| && StaysPassed(log, w, w1, t) && StaysPassed(log, w1, w2, t)
    ensures StaysPassed(log, w, w2, t)
  {
    forall x | |w.hist| <= x < |w2.hist| ensures w2.hist[x] > t {
      assert x < |w1.hist| ==> w2.hist[x] == w1.hist[x];
    }
    forall k | |w.sessions| <= k < |w2.sessions| ensures log[t].finalLsn < w2.sessions[k].start {
      assert k < |w1.sessions| ==> w2.sessions[k] == w1.sessions[k];
    }
  }

  /**
    Once the session's or the confirmed position is past a transaction, that
    transaction never takes effect again and no later session is sent it, as
    long as the process lives.
   */
  lemma {:induction false} NeverAgain(p: Stages, log: seq<Txn>, start: nat, slot: nat, w: World, acts: seq<Action>, t: nat)
    requires StagesOk(p) && GoodLog(log) && Good(p, log, start, slot, w) && RunAll(p, log, start, w, acts).Some?
    requires Calm(acts) && t < |log| && Passed(log, w, t)
    ensures StaysPassed(log, w, RunAll(p, log, start, w, acts).value, t)
    decreases |acts|
  {
    if acts != [] {
      var w1 := Apply(p, log, start, w, acts[0]);
      StepGood(p, log, start, slot, w, acts[0]);
      StepPassed(p, log, start, slot, w, acts[0], t);
      assert forall i :: 0 <= i < |acts[1..]| ==> acts[1..][i] == acts[i + 1];
      NeverAgain(p, log, start, slot, w1, acts[1..], t);
      StaysOn(log, w, w1, RunAll(p, log, start, w1, acts[1..]).value, t);
    }
  }

  /** Some later session of a run from `w` is sent transaction `t`. */
  ghost predicate Resent(log: seq<Txn>, w: World, w': World, t: nat)
    requires t < |log|
  {
    exists k :: |w.sessions| <= k < |w'.sessions| && First(log, w'.sessions[k].start) <= t
  }

  /** Without a restart, `t` can be sent again on a later connection. */
  ghost predicate CanBeResent(p: Stages, log: seq<Txn>, start: nat, w: World, t: nat)
    requires t < |log|
  {
    exists acts :: Calm(acts) && RunAll(p, log, start, w, acts).Some? && Resent(log, w, RunAll(p, log, start, w, acts).value, t)
  }

  function Reconnecting(w: World): seq<Action> {
    (if w.conn.Some? then [EndSession] else []) + [Connect]
  }

  /** Ending the session, if there is one, and connecting: the new session begins at the position. */
  lemma {:induction false} Reconnects(p: Stages, log: seq<Txn>, start: nat, w: World)
    ensures var r := RunAll(p, log, start, w, Reconnecting(w));
            && r.Some? && r.value.conn.Some? && r.value.hist == w.hist && r.value.target == w.target
            && r.value.sent == w.sent && r.value.slot == w.slot && r.value.buffer == w.buffer && r.value.up == w.up
            && r.value.sessions == w.sessions + [Served(Position(w), |w.hist|)]
            && Position(r.value) == Position(w)
            && r.value.conn.value.fifo == [] && r.value.conn.value.server == r.value.conn.value.client
            && r.value.conn.value.client == Cursor(First(log, Position(w)), None, map[])
  {
    var w1 := if w.conn.Some? then Apply(p, log, start, w, EndSession) else w;
    var w2 := Apply(p, log, start, w1, Connect);
    assert RunAll(p, log, start, w2, []) == Some(w2);
    assert RunAll(p, log, start, w1, [Connect]) == Some(w2);
    if w.conn.Some? {
      assert ([EndSession] + [Connect])[1..] == [Connect];
    } else {
      assert [] + [Connect] == [Connect];
    }
  }

  /**
    From any world of a run, a transaction can be sent again by a living
    process exactly when neither the session's nor the confirmed position has
    moved past its commit.
   */
  lemma {:induction false} ResentExactly(p: Stages, log: seq<Txn>, start: nat, slot: nat, applier: bool, w: World, t: nat)
    requires StagesOk(p) && GoodLog(log) && Reachable(p, log, start, slot, applier, w) && t < |log|
    ensures CanBeResent(p, log, start, w, t) <==> !Passed(log, w, t)
  {
    ReachableGood(p, log, start, slot, applier, w);
    if !Passed(log, w, t) {
      Reconnects(p, log, start, w);
      FirstExact(log, Position(w), t);
      var w' := RunAll(p, log, start, w, Reconnecting(w)).value;
      assert w'.sessions[|w.sessions|].start == Position(w);
      assert Calm(Reconnecting(w));
    } else {
      forall acts | Calm(acts) && RunAll(p, log, start, w, acts).Some?
        ensures !Resent(log, w, RunAll(p, log, start, w, acts).value, t)
      {
        NeverAgain(p, log, start, slot, w, acts, t);
        var w' := RunAll(p, log, start, w, acts).value;
        forall k | |w.sessions| <= k < |w'.sessions| ensures First(log, w'.sessions[k].start) > t {
          FirstExact(log, w'.sessions[k].start, t);
        }
      }
    }
  }

  /**
    A restarted process loses its position and goes on from what the server
    confirmed: transaction `t` is sent again exactly when neither the start
    position nor the confirmed one has passed it.
   */
  lemma {:induction false} RestartResendsExactly(p: Stages, log: seq<Txn>, start: nat, w: World, t: nat)
    requires GoodLog(log) && t < |log|
    ensures Apply(p, log, start, Apply(p, log, start, w, Restart), Connect).conn.value.client.i <= t <==>
            start <= log[t].finalLsn && w.slot <= log[t].finalLsn
  {
    FirstExact(log, Max(start, w.slot), t);
  }

  // ── A target that is gone ─────────────────────────────────────────────────

  /** What takes effect is not kept from the target by a lost connection. */
  predicate Works(w: World) {
    w.buffer.Some? ==> w.up
  }

  /** Since `w` nothing has been executed: the target is as it was and out of reach, and only transactions without effect went by. */
  ghost predicate StaysDown(p: Stages, log: seq<Txn>, w: World, w': World) {
    && w'.buffer.Some? && !w'.up && w'.target == w.target && w.hist <= w'.hist
    && forall x :: |w.hist| <= x < |w'.hist| ==> w'.hist[x] < |log| && TargetTxn(p, log[w'.hist[x]]) == []
  }

  lemma {:induction false} CommitDown(p: Stages, log: seq<Txn>, i: nat, st: State, ev: ReplEvent, env: Env)
    requires i < |log| && ev.Commit? && !st.up && st.applier == Some(Kept(p, log[i].changes))
    ensures var (st', more) := OnEvent(p, st, ev, env);
            st'.target == st.target && !st'.up && st'.applier.Some? && (more ==> TargetTxn(p, log[i]) == [])
  {
  }

  lemma {:induction false} OtherDown(p: Stages, st: State, ev: ReplEvent, env: Env)
    requires !ev.Commit?
    ensures var (st', more) := OnEvent(p, st, ev, env);
            more && st'.target == st.target && st'.up == st.up && st'.applier.Some? == st.applier.Some?
  {
  }

  lemma {:induction false} StepDown(p: Stages, log: seq<Txn>, start: nat, slot: nat, w: World, a: Action)
    requires Good(p, log, start, slot, w) && Enabled(p, log, w, a) && !a.Restart? && !Works(w)
    ensures StaysDown(p, log, w, Apply(p, log, start, w, a))
  {
    if a.Recv? {
      var c := w.conn.value;
      assert Legal(p, log, c.client, c.fifo[0]);
      if c.fifo[0].Commit? {
        assert log[c.client.i].changes[..|log[c.client.i].changes|] == log[c.client.i].changes;
        CommitDown(p, log, c.client.i, StateOf(w), c.fifo[0], a.env);
      } else {
        OtherDown(p, StateOf(w), c.fifo[0], a.env);
      }
    }
  }

  /** Once the target is lost, no transaction executes anything on it as long as the process lives. */
  lemma {:induction false} DownForGood(p: Stages, log: seq<Txn>, start: nat, slot: nat, w: World, acts: seq<Action>)
    requires StagesOk(p) && GoodLog(log) && Good(p, log, start, slot, w) && RunAll(p, log, start, w, acts).Some?
    requires Calm(acts) && !Works(w)
    ensures StaysDown(p, log, w, RunAll(p, log, start, w, acts).value)
    decreases |acts|
  {
    if acts != [] {
      var w1 := Apply(p, log, start, w, acts[0]);
      StepGood(p, log, start, slot, w, acts[0]);
      StepDown(p, log, start, slot, w, acts[0]);
      assert forall i :: 0 <= i < |acts[1..]| ==> acts[1..][i] == acts[i + 1];
      DownForGood(p, log, start, slot, w1, acts[1..]);
      DownOn(p, log, w, w1, RunAll(p, log, start, w1, acts[1..]).value);
    }
  }

  lemma {:induction false} DownOn(p: Stages, log: seq<Txn>, w: World, w1: World, w2: World)
    requires StaysDown(p, log, w, w1) && StaysDown(p, log, w1, w2)
    ensures StaysDown(p, log, w, w2)
  {
    forall x | |w.hist| <= x < |w2.hist| ensures w2.hist[x] < |log| && TargetTxn(p, log[w2.hist[x]]) == [] {
      assert x < |w1.hist| ==> w2.hist[x] == w1.hist[x];
    }
  }

  // ── Exactly once ──────────────────────────────────────────────────────────

  ghost predicate NoRepeat(hist: seq<nat>) {
    forall x, y :: 0 <= x < y < |hist| ==> hist[x] != hist[y]
  }

  /** The session began past everything that had taken effect before it. */
  predicate BeganPast(log: seq<Txn>, session: Served, hist: seq<nat>) {
    0 < session.lo <= |hist| && hist[session.lo - 1] < |log| ==> log[hist[session.lo - 1]].finalLsn < session.start
  }

  /** Every session that handled a transaction began past everything before it. */
  ghost predicate AllBeganPast(log: seq<Txn>, w: World) {
    forall k :: 0 <= k < |w.sessions| && w.sessions[k].lo < Hi(w.sessions, w.hist, k) ==>
      BeganPast(log, w.sessions[k], w.hist)
  }

  /** The session that handled the transaction at `x`. */
  lemma {:induction false} SessionOf(log: seq<Txn>, sessions: seq<Served>, hist: seq<nat>, x: nat, k: nat) returns (j: nat)
    requires Spans(log, sessions, hist) && x < |hist| && k < |sessions| && sessions[k].lo <= x
    ensures j < |sessions| && sessions[j].lo <= x < Hi(sessions, hist, j)
    decreases |sessions| - k
  {
    if x < Hi(sessions, hist, k) {
      j := k;
    } else {
      j := SessionOf(log, sessions, hist, x, k + 1);
    }
  }

  lemma {:induction false} NextInLine(log: seq<Txn>, base: nat, w: World, x: nat)
    requires GoodLog(log) && Contiguous(base, w.hist) && SpansOf(log, w) && AllBeganPast(log, w) && 0 < x < |w.hist|
    ensures w.hist[x] == w.hist[x - 1] + 1
  {
    var k := SessionOf(log, w.sessions, w.hist, x, 0);
    assert w.hist[x] <= w.hist[x - 1] + 1;
    if w.sessions[k].lo == x {
      assert BeganPast(log, w.sessions[k], w.hist);
      FirstExact(log, w.sessions[k].start, w.hist[x - 1]);
    }
  }

  lemma {:induction false} InOrder(base: nat, hist: seq<nat>, x: nat)
    requires hist != [] ==> hist[0] == base
    requires forall x, y :: 0 <= x < y < |hist| && y == x + 1 ==> hist[y] == hist[x] + 1
    requires x < |hist|
    ensures hist[x] == base + x
    decreases x
  {
    if x > 0 {
      InOrder(base, hist, x - 1);
    }
  }

  lemma {:induction false} InOrderIsRange(base: nat, hist: seq<nat>)
    requires hist != [] ==> hist[0] == base
    requires forall x, y :: 0 <= x < y < |hist| && y == x + 1 ==> hist[y] == hist[x] + 1
    ensures hist == Range(base, base + |hist|)
  {
    forall x | 0 <= x < |hist| ensures hist[x] == base + x {
      InOrder(base, hist, x);
    }
  }

  lemma {:induction false} AllInLine(log: seq<Txn>, base: nat, w: World)
    requires GoodLog(log) && Contiguous(base, w.hist) && SpansOf(log, w) && AllBeganPast(log, w)
    ensures forall x, y :: 0 <= x < y < |w.hist| && y == x + 1 ==> w.hist[y] == w.hist[x] + 1
  {
    forall x, y | 0 <= x < y < |w.hist| && y == x + 1 ensures w.hist[y] == w.hist[x] + 1 {
      NextInLine(log, base, w, y);
    }
  }

  lemma {:induction false} HistIsRange(log: seq<Txn>, base: nat, w: World)
    requires GoodLog(log) && Contiguous(base, w.hist) && SpansOf(log, w) && AllBeganPast(log, w)
    ensures base <= NextTxn(base, w) && w.hist == Range(base, NextTxn(base, w))
  {
    AllInLine(log, base, w);
    InOrderIsRange(base, w.hist);
  }

  lemma {:induction false} RangeOnce(base: nat, next: nat)
    requires base <= next
    ensures NoRepeat(Range(base, next))
  {
  }

  /** A session that began too early and handled something handled it for the second time. */
  lemma {:induction false} EarlyRepeats(log: seq<Txn>, base: nat, w: World, k: nat)
    requires GoodLog(log) && Contiguous(base, w.hist) && SpansOf(log, w)
    requires k < |w.sessions| && w.sessions[k].lo < Hi(w.sessions, w.hist, k) && !BeganPast(log, w.sessions[k], w.hist)
    requires forall x :: 0 <= x < |w.hist| ==> base <= w.hist[x]
    ensures !NoRepeat(w.hist)
  {
    var lo := w.sessions[k].lo;
    FirstExact(log, w.sessions[k].start, w.hist[lo - 1]);
    assert w.hist[lo] == First(log, w.sessions[k].start);
    ContiguousCovers(base, w.hist, lo - 1, w.hist[lo]);
  }

  lemma {:induction false} GoodOnce(log: seq<Txn>, base: nat, w: World)
    requires GoodLog(log) && Contiguous(base, w.hist) && SpansOf(log, w)
    ensures NoRepeat(w.hist) <==> AllBeganPast(log, w)
  {
    if AllBeganPast(log, w) {
      HistIsRange(log, base, w);
      RangeOnce(base, NextTxn(base, w));
    } else {
      var k :| 0 <= k < |w.sessions| && w.sessions[k].lo < Hi(w.sessions, w.hist, k) &&
               !BeganPast(log, w.sessions[k], w.hist);
      EarlyRepeats(log, base, w, k);
    }
  }

  /** In any run no transaction takes effect twice exactly when every session that handled one began past all before it. */
  lemma {:induction false} OnceExactly(p: Stages, log: seq<Txn>, start: nat, slot: nat, applier: bool, w: World)
    requires StagesOk(p) && GoodLog(log) && Reachable(p, log, start, slot, applier, w)
    ensures NoRepeat(w.hist) <==> AllBeganPast(log, w)
  {
    ReachableGood(p, log, start, slot, applier, w);
    GoodOnce(log, First(log, Max(start, slot)), w);
  }

  /** Every transaction has something to execute on the target. */
  ghost predicate AllExecute(p: Stages, log: seq<Txn>) {
    forall i :: 0 <= i < |log| ==> TargetTxn(p, log[i]) != []
  }

  /** The target holds the transactions from `base` on, up to some later one, each once and in order. */
  ghost predicate HoldsPrefix(p: Stages, log: seq<Txn>, base: nat, w: World) {
    base <= NextTxn(base, w) <= |log| && w.target == Expected(p, log[base..NextTxn(base, w)])
  }

  /**
    When every session began past what was there, the target log is an
    in-order prefix of the source transactions from the starting position on:
    none lost, repeated, split or mixed with what an earlier connection left
    in the buffer. If every transaction executes something, only then.
   */
  lemma {:induction false} ExactlyOnce(p: Stages, log: seq<Txn>, start: nat, slot: nat, w: World)
    requires StagesOk(p) && GoodLog(log) && Reachable(p, log, start, slot, true, w) && w.buffer.Some?
    ensures AllBeganPast(log, w) ==> HoldsPrefix(p, log, First(log, Max(start, slot)), w)
    ensures AllExecute(p, log) ==> (HoldsPrefix(p, log, First(log, Max(start, slot)), w) <==> AllBeganPast(log, w))
  {
    ReachableGood(p, log, start, slot, true, w);
    OnceExactly(p, log, start, slot, true, w);
    if AllBeganPast(log, w) {
      PastHolds(p, log, First(log, Max(start, slot)), w);
    } else if AllExecute(p, log) {
      RepeatHoldsNot(p, log, First(log, Max(start, slot)), w);
    }
  }

  /** Transactions `base` to `next`, each once and in order. */
  lemma {:induction false} ExpectedIsRendered(p: Stages, log: seq<Txn>, base: nat, next: nat)
    requires base <= next <= |log|
    ensures Expected(p, log[base..next]) == Rendered(p, log, Range(base, next))
  {
    FlatMapRange(Deliver(p, log), TargetOf(p), log, base, next);
  }

  lemma {:induction false} PastHolds(p: Stages, log: seq<Txn>, base: nat, w: World)
    requires GoodLog(log) && Contiguous(base, w.hist) && SpansOf(log, w) && NextTxn(base, w) <= |log|
    requires w.target == Rendered(p, log, w.hist) && AllBeganPast(log, w)
    ensures HoldsPrefix(p, log, base, w)
  {
    HistIsRange(log, base, w);
    ExpectedIsRendered(p, log, base, NextTxn(base, w));
  }

  lemma {:induction false} RepeatHoldsNot(p: Stages, log: seq<Txn>, base: nat, w: World)
    requires Contiguous(base, w.hist) && Below(log, w) && AllExecute(p, log) && !NoRepeat(w.hist)
    requires w.target == Rendered(p, log, w.hist)
    ensures !HoldsPrefix(p, log, base, w)
  {
    var next := NextTxn(base, w);
    RepeatsShow(p, log, base, w.hist);
    ExpectedIsRendered(p, log, base, next);
  }

  /** A target log with repetitions is longer than one without. */
  lemma {:induction false} RepeatsShow(p: Stages, log: seq<Txn>, base: nat, hist: seq<nat>)
    requires AllExecute(p, log) && Contiguous(base, hist) && !NoRepeat(hist)
    requires forall x :: 0 <= x < |hist| ==> hist[x] < |log|
    ensures Rendered(p, log, hist) != Rendered(p, log, Range(base, hist[|hist| - 1] + 1))
  {
    var range := Range(base, hist[|hist| - 1] + 1);
    RenderedLength(p, log, hist);
    RenderedLength(p, log, range);
    if |hist| <= |range| {
      RepeatsAreLonger(base, hist);
    }
  }

  lemma {:induction false} RenderedLength(p: Stages, log: seq<Txn>, hist: seq<nat>)
    requires AllExecute(p, log) && forall x :: 0 <= x < |hist| ==> hist[x] < |log|
    ensures |Rendered(p, log, hist)| == |hist|
    decreases |hist|
  {
    if hist != [] {
      RenderedLength(p, log, hist[1..]);
    }
  }

  /** A run that never goes on by more than one and covers no more than its length allows repeats nothing. */
  lemma {:induction false} RepeatsAreLonger(base: nat, hist: seq<nat>)
    requires Contiguous(base, hist) && hist != [] && |hist| <= hist[|hist| - 1] + 1 - base
    ensures NoRepeat(hist)
  {
    forall x | 0 <= x < |hist| ensures hist[x] <= base + x && hist[x] >= hist[|hist| - 1] - (|hist| - 1 - x) {
      AtMost(base, hist, x);
      AtLeast(base, hist, x);
    }
  }

  lemma {:induction false} AtMost(base: nat, hist: seq<nat>, x: nat)
    requires Contiguous(base, hist) && x < |hist|
    ensures hist[x] <= base + x
    decreases x
  {
    if x > 0 {
      AtMost(base, hist, x - 1);
      assert hist[x] <= hist[x - 1] + 1;
    }
  }

  lemma {:induction false} AtLeast(base: nat, hist: seq<nat>, x: nat)
    requires Contiguous(base, hist) && x < |hist|
    ensures hist[x] >= hist[|hist| - 1] - (|hist| - 1 - x)
    decreases |hist| - x
  {
    if x + 1 < |hist| {
      AtLeast(base, hist, x + 1);
      assert hist[x + 1] <= hist[x] + 1;
    }
  }

  // ── What makes a session begin too early ──────────────────────────────────

  /** The last transaction that took effect would be sent again. */
  predicate Lags(log: seq<Txn>, w: World) {
    w.hist != [] && w.hist[|w.hist| - 1] < |log| && !Passed(log, w, w.hist[|w.hist| - 1])
  }

  /**
    A step that leaves what took effect behind the position: a commit that
    took effect without moving the position, because an error was reported
    for it or because the sink did not take the boundary; or a restart whose
    start and confirmed positions lie before it.
   */
  predicate Slips(p: Stages, log: seq<Txn>, start: nat, w: World, a: Action)
    requires Enabled(p, log, w, a)
  {
    match a
    case Recv(env) =>
      var ev := w.conn.value.fifo[0];
      var (st, more) := OnEvent(p, StateOf(w), ev, env);
      Took(w, ev, st, more) && (!more || (p.emitBoundaries && !env.sinkOk))
    case Restart => Lags(log, Apply(p, log, start, w, Restart))
    case _ => false
  }

  /** The position would still lie before what took effect last. */
  predicate StaysBehind(p: Stages, log: seq<Txn>, w: World, a: Action)
    requires Enabled(p, log, w, a) && w.hist != [] && w.hist[|w.hist| - 1] < |log|
  {
    var last := log[w.hist[|w.hist| - 1]].finalLsn;
    match a
    case Recv(env) =>
      var ev := w.conn.value.fifo[0];
      var (st, more) := OnEvent(p, StateOf(w), ev, env);
      !Took(w, ev, st, more) && st.applied <= last
    case Confirm(lsn) => lsn <= last
    case Restart => false
    case _ => true
  }

  /** The same for what the session receives. */
  lemma {:induction false} RecvLags(p: Stages, log: seq<Txn>, w: World, st: State, more: bool, sinkOk: bool)
    requires w.conn.Some? && w.conn.value.fifo != []
    requires var c := w.conn.value; var ev := c.fifo[0];
             && c.applied <= st.applied
             && (!ev.Commit? ==> more)
             && (ev.Commit? ==> c.client.i < |log| && Covers(log, c.applied, c.client.i) && Covers(log, w.slot, c.client.i))
             && (ev.Commit? && !(more && (p.emitBoundaries ==> sinkOk)) ==> st.applied == c.applied)
             && (ev.Commit? && more && (p.emitBoundaries ==> sinkOk) ==> log[c.client.i].finalLsn < st.applied)
    ensures var ev := w.conn.value.fifo[0];
            Lags(log, Reached(p, w, st, more)) <==>
            || (Took(w, ev, st, more) && (!more || (p.emitBoundaries && !sinkOk)))
            || (Lags(log, w) && !Took(w, ev, st, more) && st.applied <= log[w.hist[|w.hist| - 1]].finalLsn)
  {
  }

  lemma {:induction false} ReceivedLags(p: Stages, log: seq<Txn>, start: nat, slot: nat, w: World, env: Env)
    requires GoodLog(log) && Good(p, log, start, slot, w) && w.conn.Some? && w.conn.value.fifo != []
    ensures Lags(log, Received(p, w, env)) <==>
            Slips(p, log, start, w, Recv(env)) || (Lags(log, w) && StaysBehind(p, log, w, Recv(env)))
  {
    var c := w.conn.value;
    assert Legal(p, log, c.client, c.fifo[0]);
    OnEventAdvances(p, StateOf(w), c.fifo[0], env);
    var (st, more) := OnEvent(p, StateOf(w), c.fifo[0], env);
    RecvLags(p, log, w, st, more, env.sinkOk);
  }

  lemma {:induction false} OtherLags(p: Stages, log: seq<Txn>, start: nat, w: World, a: Action)
    requires Enabled(p, log, w, a) && !a.Recv?
    ensures Lags(log, Apply(p, log, start, w, a)) <==>
            Slips(p, log, start, w, a) || (Lags(log, w) && StaysBehind(p, log, w, a))
  {
  }

  /** Steps of these kinds, and no others, make what took effect lag, and it then lags until the position moves past it. */
  lemma {:induction false} LagsExactly(p: Stages, log: seq<Txn>, start: nat, slot: nat, w: World, a: Action)
    requires StagesOk(p) && GoodLog(log) && Good(p, log, start, slot, w) && Enabled(p, log, w, a)
    ensures Lags(log, Apply(p, log, start, w, a)) <==>
            Slips(p, log, start, w, a) || (Lags(log, w) && StaysBehind(p, log, w, a))
  {
    match a
    case Recv(env) => ReceivedLags(p, log, start, slot, w, env);
    case _ => OtherLags(p, log, start, w, a);
  }

  /** A connection begins too early exactly when what took effect last lags. */
  lemma {:induction false} BeginsEarlyExactly(p: Stages, log: seq<Txn>, start: nat, slot: nat, w: World)
    requires GoodLog(log) && Good(p, log, start, slot, w) && w.conn.None?
    ensures var w' := Apply(p, log, start, w, Connect);
            |w'.sessions| > 0 && (!BeganPast(log, w'.sessions[|w'.sessions| - 1], w'.hist) <==> Lags(log, w))
  {
  }

  /** A run in which no step slips. */
  ghost predicate Steady(p: Stages, log: seq<Txn>, start: nat, w: World, acts: seq<Action>)
    decreases |acts|
  {
    acts == [] ||
    (Enabled(p, log, w, acts[0]) && !Slips(p, log, start, w, acts[0]) &&
     Steady(p, log, start, Apply(p, log, start, w, acts[0]), acts[1..]))
  }

  /** Every session so far, and the next one, begins past what took effect before it. */
  ghost predicate InStep(log: seq<Txn>, w: World) {
    !Lags(log, w) && forall k :: 0 <= k < |w.sessions| ==> BeganPast(log, w.sessions[k], w.hist)
  }

  /** A step adds to `hist`, and only connecting adds a session, which begins at the position. */
  lemma {:induction false} StepGrows(p: Stages, log: seq<Txn>, start: nat, w: World, a: Action)
    requires Enabled(p, log, w, a)
    ensures var w' := Apply(p, log, start, w, a);
            && w.hist <= w'.hist
            && w'.sessions == (if a.Connect? then w.sessions + [Served(Position(w), |w.hist|)] else w.sessions)
  {
  }

  lemma {:induction false} StepInStep(p: Stages, log: seq<Txn>, start: nat, slot: nat, w: World, a: Action)
    requires StagesOk(p) && GoodLog(log) && Good(p, log, start, slot, w) && Enabled(p, log, w, a)
    requires InStep(log, w) && !Slips(p, log, start, w, a)
    ensures InStep(log, Apply(p, log, start, w, a))
  {
    LagsExactly(p, log, start, slot, w, a);
    StepGrows(p, log, start, w, a);
    AllStillPast(log, w.sessions, Apply(p, log, start, w, a).sessions, w.hist, Apply(p, log, start, w, a).hist, Position(w));
  }

  lemma {:induction false} AllStillPast(log: seq<Txn>, sessions: seq<Served>, sessions': seq<Served>, hist: seq<nat>,
      hist': seq<nat>, position: nat)
    requires hist <= hist' && Spans(log, sessions, hist)
    requires sessions' == sessions || (sessions' == sessions + [Served(position, |hist|)] && hist' == hist)
    requires hist != [] && hist[|hist| - 1] < |log| ==> log[hist[|hist| - 1]].finalLsn < position
    requires forall k :: 0 <= k < |sessions| ==> BeganPast(log, sessions[k], hist)
    ensures forall k :: 0 <= k < |sessions'| ==> BeganPast(log, sessions'[k], hist')
  {
    forall k | 0 <= k < |sessions'| ensures BeganPast(log, sessions'[k], hist') {
      if k < |sessions| {
        assert BeganPast(log, sessions[k], hist);
      }
    }
  }

  /** Without a slip no session begins too early, so everything takes effect once. */
  lemma {:induction false} SteadyRuns(p: Stages, log: seq<Txn>, start: nat, slot: nat, w: World, acts: seq<Action>)
    requires StagesOk(p) && GoodLog(log) && Good(p, log, start, slot, w) && InStep(log, w)
    requires Steady(p, log, start, w, acts)
    ensures RunAll(p, log, start, w, acts).Some? && InStep(log, RunAll(p, log, start, w, acts).value)
    ensures AllBeganPast(log, RunAll(p, log, start, w, acts).value)
    decreases |acts|
  {
    if acts != [] {
      StepGood(p, log, start, slot, w, acts[0]);
      StepInStep(p, log, start, slot, w, acts[0]);
      SteadyRuns(p, log, start, slot, Apply(p, log, start, w, acts[0]), acts[1..]);
    }
  }
}
