/** What each received event confirms, sends and applies, and what a session leaves behind. */
module SessionMeaning {
  import opened Wrappers
  import opened Event
  import opened Proto
  import opened Decoder
  import opened Session

  // ── One event ─────────────────────────────────────────────────────────────

  /** The commit of a transaction whose buffer gives these statements. */
  ghost predicate Commits(p: Stages, st: State, ev: ReplEvent, statements: seq<string>) {
    && ev.Commit? && st.applier.Some? && st.applier.value != []
    && statements != [] && statements == p.statements(st.applier.value)
  }

  /** A commit with something to run that did not succeed. */
  ghost predicate CommitFails(p: Stages, st: State, ev: ReplEvent, env: Env) {
    exists statements :: Commits(p, st, ev, statements) && (!st.up || env.commit != Committed)
  }

  /** The event is sent on to the sink, whether or not the sink takes it. */
  ghost predicate Offers(p: Stages, st: State, ev: ReplEvent, env: Env, event: WalEvent) {
    match ev
    case KeepAlive(_) => false
    case Begin(finalLsn, xid, commitTime) =>
      p.emitBoundaries && event.Begin? && event.lsn == finalLsn && event.xid == xid && event.commitTime == commitTime
    case Commit(lsn, endLsn, commitTime) =>
      && p.emitBoundaries && !CommitFails(p, st, ev, env)
      && event.Commit? && event.lsn == lsn && event.endLsn == endLsn && event.commitTime == commitTime
    case XLogData(_, _, data) =>
      exists change :: p.decode(data, st.cache) == Ok(Some(change)) && p.forward(change) && event == p.transform(change)
  }

  /** The sink refused what it was offered. */
  ghost predicate SinkFails(p: Stages, st: State, ev: ReplEvent, env: Env) {
    !env.sinkOk && exists event :: Offers(p, st, ev, env, event)
  }

  /** The position an event confirms once it is handled. Rows wait for their commit when there is an applier. */
  ghost predicate Confirms(p: Stages, st: State, ev: ReplEvent, env: Env, lsn: nat) {
    !SinkFails(p, st, ev, env) &&
    match ev
    case KeepAlive(walEnd) => lsn == walEnd
    case Begin(finalLsn, _, _) => lsn == finalLsn
    case Commit(_, endLsn, _) => lsn == endLsn && !CommitFails(p, st, ev, env)
    case XLogData(_, walEnd, data) =>
      lsn == walEnd && p.decode(data, st.cache).Ok? && (p.decode(data, st.cache).value.Some? ==> st.applier.None?)
  }

  /** The applied position moves up to what the event confirms, and never back. */
  lemma {:induction false} PositionExactly(p: Stages, st: State, ev: ReplEvent, env: Env)
    ensures var st' := OnEvent(p, st, ev, env).0;
            && (forall lsn: nat :: Confirms(p, st, ev, env, lsn) ==> st'.applied == if lsn > st.applied then lsn else st.applied)
            && ((forall lsn: nat :: !Confirms(p, st, ev, env, lsn)) ==> st'.applied == st.applied)
  {
    OfferedOne(p, st, ev, env);
    CommitCases(p, st, ev, env);
    var lsn :=
      match ev
      case KeepAlive(walEnd) => walEnd
      case Begin(finalLsn, _, _) => finalLsn
      case Commit(_, endLsn, _) => endLsn
      case XLogData(_, walEnd, _) => walEnd;
    assert (forall at: nat :: !Confirms(p, st, ev, env, at)) ==> !Confirms(p, st, ev, env, lsn);
  }

  lemma {:induction false} OfferedOne(p: Stages, st: State, ev: ReplEvent, env: Env)
    ensures forall event, other :: Offers(p, st, ev, env, event) && Offers(p, st, ev, env, other) ==> event == other
    ensures ev.Begin? && p.emitBoundaries ==> Offers(p, st, ev, env, WalEvent.Begin(ev.finalLsn, ev.commitTime, ev.xid))
    ensures ev.Commit? && p.emitBoundaries && !CommitFails(p, st, ev, env) ==>
              Offers(p, st, ev, env, WalEvent.Commit(ev.lsn, ev.endLsn, ev.commitTime))
    ensures ev.XLogData? && p.decode(ev.data, st.cache).Ok? && p.decode(ev.data, st.cache).value.Some?
            && p.forward(p.decode(ev.data, st.cache).value.value) ==>
              Offers(p, st, ev, env, p.transform(p.decode(ev.data, st.cache).value.value))
  {
  }

  lemma {:induction false} CommitCases(p: Stages, st: State, ev: ReplEvent, env: Env)
    ensures ev.Commit? && st.applier.Some? ==>
              (ApplyBuffer(p, st.applier.value, st.target, st.up, env.commit).ok <==> !CommitFails(p, st, ev, env))
  {
    if ev.Commit? && st.applier.Some? && st.applier.value != [] {
      var statements := p.statements(st.applier.value);
      assert statements != [] ==> Commits(p, st, ev, statements);
    }
  }

  /** The sink has one event more exactly when it was offered one and took it. */
  lemma {:induction false} SentExactly(p: Stages, st: State, ev: ReplEvent, env: Env)
    ensures var st' := OnEvent(p, st, ev, env).0;
            && (forall event :: Offers(p, st, ev, env, event) && env.sinkOk ==> st'.sent == st.sent + [event])
            && ((forall event :: !(Offers(p, st, ev, env, event) && env.sinkOk)) ==> st'.sent == st.sent)
  {
    OfferedOne(p, st, ev, env);
    CommitCases(p, st, ev, env);
  }

  /** The session goes on unless a commit failed. */
  lemma {:induction false} GoesOnExactly(p: Stages, st: State, ev: ReplEvent, env: Env)
    ensures OnEvent(p, st, ev, env).1 <==> !CommitFails(p, st, ev, env)
  {
    CommitCases(p, st, ev, env);
  }

  /**
    The applier begins empty at every begin and is empty after every commit;
    in between it collects the transformed changes that pass the gate.
   */
  lemma {:induction false} BufferedExactly(p: Stages, st: State, ev: ReplEvent, env: Env)
    ensures var st' := OnEvent(p, st, ev, env).0;
            && (st.applier.None? <==> st'.applier.None?)
            && (st.applier.Some? ==>
                  match ev
                  case KeepAlive(_) => st'.applier == st.applier
                  case Begin(_, _, _) => st'.applier == Some([])
                  case Commit(_, _, _) => st'.applier == Some([])
                  case XLogData(_, _, _) =>
                    && (forall event :: Offers(p, st, ev, env, event) && event.IsChange() ==>
                          st'.applier == Some(st.applier.value + [event]))
                    && ((forall event :: !(Offers(p, st, ev, env, event) && event.IsChange())) ==> st'.applier == st.applier))
  {
    OfferedOne(p, st, ev, env);
  }

  /**
    The target gets the statements of a commit over a standing connection when
    they take effect, and nothing else; the connection is lost with them or
    before them, and with nothing else.
   */
  lemma {:induction false} AppliedExactly(p: Stages, st: State, ev: ReplEvent, env: Env)
    ensures var st' := OnEvent(p, st, ev, env).0;
            && (forall statements :: Commits(p, st, ev, statements) && st.up ==>
                  && st'.target == st.target + (if env.commit == Committed || env.commit == InDoubt then [statements] else [])
                  && (st'.up <==> env.commit != Lost && env.commit != InDoubt))
            && ((forall statements :: !(Commits(p, st, ev, statements) && st.up)) ==> st'.target == st.target && st'.up == st.up)
  {
    if ev.Commit? && st.applier.Some? && st.applier.value != [] {
      var statements := p.statements(st.applier.value);
      assert statements != [] ==> Commits(p, st, ev, statements);
    }
  }

  /** Relations are learned from what is decoded, and from nothing else. */
  lemma {:induction false} LearnedExactly(p: Stages, st: State, ev: ReplEvent, env: Env)
    ensures var st' := OnEvent(p, st, ev, env).0;
            && (forall relId, schema, table, columns ::
                  ev.XLogData? && p.decode(ev.data, st.cache) == Ok(Some(Relation(relId, schema, table, columns))) ==>
                    st'.cache == st.cache[relId := RelationInfo(schema, table, columns)])
            && ((forall relation: WalEvent :: relation.Relation? && ev.XLogData? ==>
                   p.decode(ev.data, st.cache) != Ok(Some(relation))) ==> st'.cache == st.cache)
  {
  }

  // ── A whole session ───────────────────────────────────────────────────────

  /** The state after the first `k` events of the script, if the session went on after each. */
  ghost predicate Reaches(p: Stages, st: State, script: seq<Incoming>, k: nat, st': State)
    decreases k
  {
    if k == 0 then st' == st
    else
      && script != [] && script[0].Delivered?
      && !CommitFails(p, st, script[0].ev, script[0].env)
      && Reaches(p, OnEvent(p, st, script[0].ev, script[0].env).0, script[1..], k - 1, st')
  }

  /** What ends a session: the end of its source, a signal, silence, an error, or a commit that fails. */
  ghost predicate EndsWith(p: Stages, st: State, script: seq<Incoming>, st': State, clean: bool) {
    if script == [] || script[0].StreamClosed? || script[0].ShutdownSignal? then st' == st && clean
    else if script[0].IdleTimeout? || script[0].StreamError? then st' == st && !clean
    else
      && CommitFails(p, st, script[0].ev, script[0].env)
      && st' == OnEvent(p, st, script[0].ev, script[0].env).0 && !clean
  }

  ghost predicate Runs(p: Stages, st: State, script: seq<Incoming>, k: nat, st': State, clean: bool) {
    k <= |script| && exists mid :: Reaches(p, st, script, k, mid) && EndsWith(p, mid, script[k..], st', clean)
  }

  /** A session handles its events one after the other up to the first that ends it. */
  lemma {:induction false} SessionRuns(p: Stages, st: State, script: seq<Incoming>) returns (k: nat)
    ensures var (st', clean) := RunOn(p, st, script); Runs(p, st, script, k, st', clean)
    decreases |script|
  {
    var (st', clean) := RunOn(p, st, script);
    if script != [] && script[0].Delivered? && !CommitFails(p, st, script[0].ev, script[0].env) {
      GoesOnExactly(p, st, script[0].ev, script[0].env);
      var next := OnEvent(p, st, script[0].ev, script[0].env).0;
      k := SessionRuns(p, next, script[1..]);
      var mid :| Reaches(p, next, script[1..], k, mid) && EndsWith(p, mid, script[1..][k..], st', clean);
      k := k + 1;
      assert script[1..][k - 1..] == script[k..];
      assert Reaches(p, st, script, k, mid);
    } else {
      if script != [] && script[0].Delivered? {
        GoesOnExactly(p, st, script[0].ev, script[0].env);
      }
      k := 0;
      assert Reaches(p, st, script, 0, st) && script[0..] == script;
    }
  }

  /**
    After a signal or the end of its source a session is over for good. After
    anything else it connects again, and counts as healthy exactly when it
    confirmed some position beyond where it started.
   */
  lemma {:induction false} ExitExactly(p: Stages, st: State, script: seq<Incoming>)
    ensures var (st', clean) := RunOn(p, st, script); var exit := ExitOf(st.applied, st'.applied, clean);
            exists k: nat ::
              && Runs(p, st, script, k, st', clean)
              && (exit == Shutdown <==> k == |script| || script[k].StreamClosed? || script[k].ShutdownSignal?)
              && (exit == ReconnectAfterHealthy <==>
                    k < |script| && !script[k].StreamClosed? && !script[k].ShutdownSignal? && st'.applied > st.applied)
  {
    var k := SessionRuns(p, st, script);
    var (st', clean) := RunOn(p, st, script);
    AppliedGrows(p, st, script);
    assert k < |script| ==> script[k..] != [] && script[k..][0] == script[k];
    assert Runs(p, st, script, k, st', clean);
  }

  /** Event `i` of the script, met in this state. */
  ghost predicate Meets(p: Stages, st: State, script: seq<Incoming>, i: nat, mid: State) {
    i < |script| && script[i].Delivered? && Reaches(p, st, script, i, mid)
  }

  ghost predicate ConfirmedAt(p: Stages, st: State, script: seq<Incoming>, i: nat, lsn: nat) {
    exists mid :: Meets(p, st, script, i, mid) && Confirms(p, mid, script[i].ev, script[i].env, lsn)
  }

  lemma {:induction false} ConfirmedLater(p: Stages, st: State, script: seq<Incoming>, i: nat, lsn: nat)
    requires script != [] && script[0].Delivered? && !CommitFails(p, st, script[0].ev, script[0].env)
    ensures ConfirmedAt(p, OnEvent(p, st, script[0].ev, script[0].env).0, script[1..], i, lsn) <==>
            ConfirmedAt(p, st, script, i + 1, lsn)
  {
    var next := OnEvent(p, st, script[0].ev, script[0].env).0;
    var j := i + 1;
    assert script[1..] != [] && j < |script| ==> script[1..][i] == script[j];
    assert forall mid :: Meets(p, next, script[1..], i, mid) <==> Meets(p, st, script, j, mid);
  }

  /** The position a session ends with is the highest of where it began and what its events confirmed. */
  lemma {:induction false} ResumesAtHighest(p: Stages, st: State, script: seq<Incoming>)
    ensures var end := RunOn(p, st, script).0.applied;
            && (end == st.applied || exists i: nat :: ConfirmedAt(p, st, script, i, end))
            && end >= st.applied && forall i: nat, lsn: nat :: ConfirmedAt(p, st, script, i, lsn) ==> lsn <= end
    decreases |script|
  {
    var end := RunOn(p, st, script).0.applied;
    AppliedGrows(p, st, script);
    if script != [] && script[0].Delivered? {
      var ev, env := script[0].ev, script[0].env;
      var (next, more) := OnEvent(p, st, ev, env);
      GoesOnExactly(p, st, ev, env);
      PositionExactly(p, st, ev, env);
      assert Meets(p, st, script, 0, st);
      FirstConfirmed(p, st, script, next.applied);
      if more {
        ResumesAtHighest(p, next, script[1..]);
        AppliedGrows(p, next, script[1..]);
        forall i: nat, lsn: nat | ConfirmedAt(p, st, script, i, lsn) ensures lsn <= end {
          if i == 0 {
            FirstConfirmed(p, st, script, lsn);
          } else {
            ConfirmedLater(p, st, script, i - 1, lsn);
          }
        }
        if end != next.applied {
          var i: nat :| ConfirmedAt(p, next, script[1..], i, end);
          ConfirmedLater(p, st, script, i, end);
        }
      } else {
        NothingLater(p, st, script);
        forall i: nat, lsn: nat | ConfirmedAt(p, st, script, i, lsn) ensures lsn <= end {
          FirstConfirmed(p, st, script, lsn);
        }
      }
    } else {
      NothingLater(p, st, script);
    }
  }

  lemma {:induction false} FirstConfirmed(p: Stages, st: State, script: seq<Incoming>, lsn: nat)
    requires script != [] && script[0].Delivered?
    ensures ConfirmedAt(p, st, script, 0, lsn) <==> Confirms(p, st, script[0].ev, script[0].env, lsn)
  {
    assert Meets(p, st, script, 0, st);
  }

  lemma {:induction false} NothingLater(p: Stages, st: State, script: seq<Incoming>)
    requires script != [] && script[0].Delivered? ==> CommitFails(p, st, script[0].ev, script[0].env)
    ensures forall i: nat, lsn: nat :: ConfirmedAt(p, st, script, i, lsn) ==> i == 0 && script != [] && script[0].Delivered?
  {
  }

  /** Event `i` of the script gives the sink this event as number `n`. */
  ghost predicate SentAt(p: Stages, st: State, script: seq<Incoming>, i: nat, n: nat, event: WalEvent) {
    exists mid ::
      && Meets(p, st, script, i, mid) && |mid.sent| == n
      && Offers(p, mid, script[i].ev, script[i].env, event) && script[i].env.sinkOk
  }

  lemma {:induction false} SentLater(p: Stages, st: State, script: seq<Incoming>, i: nat, n: nat, event: WalEvent)
    requires script != [] && script[0].Delivered? && !CommitFails(p, st, script[0].ev, script[0].env)
    ensures SentAt(p, OnEvent(p, st, script[0].ev, script[0].env).0, script[1..], i, n, event) <==>
            SentAt(p, st, script, i + 1, n, event)
  {
    var next := OnEvent(p, st, script[0].ev, script[0].env).0;
    var j := i + 1;
    assert script[1..] != [] && j < |script| ==> script[1..][i] == script[j];
    assert forall mid :: Meets(p, next, script[1..], i, mid) <==> Meets(p, st, script, j, mid);
  }

  lemma {:induction false} FirstSent(p: Stages, st: State, script: seq<Incoming>, n: nat, event: WalEvent)
    requires script != [] && script[0].Delivered?
    ensures SentAt(p, st, script, 0, n, event) <==>
            n == |st.sent| && Offers(p, st, script[0].ev, script[0].env, event) && script[0].env.sinkOk
  {
    assert Meets(p, st, script, 0, st);
  }

  lemma {:induction false} SentGrows(p: Stages, st: State, script: seq<Incoming>)
    ensures st.sent <= RunOn(p, st, script).0.sent
    decreases |script|
  {
    if script != [] && script[0].Delivered? {
      SentGrows(p, OnEvent(p, st, script[0].ev, script[0].env).0, script[1..]);
    }
  }

  /** What the sink has after a session is what it had, and then, in order, what its events offered it and it took. */
  lemma {:induction false} SessionSends(p: Stages, st: State, script: seq<Incoming>, n: nat, event: WalEvent)
    requires n >= |st.sent|
    ensures var sent := RunOn(p, st, script).0.sent;
            (n < |sent| && sent[n] == event) <==> exists i: nat :: SentAt(p, st, script, i, n, event)
    decreases |script|
  {
    var sent := RunOn(p, st, script).0.sent;
    SentGrows(p, st, script);
    if script != [] && script[0].Delivered? {
      var ev, env := script[0].ev, script[0].env;
      var (next, more) := OnEvent(p, st, ev, env);
      GoesOnExactly(p, st, ev, env);
      SentExactly(p, st, ev, env);
      FirstSent(p, st, script, n, event);
      assert next.sent == st.sent || next.sent == st.sent + [next.sent[|st.sent|]];
      if more {
        SentGrows(p, next, script[1..]);
        forall i: nat ensures SentAt(p, next, script[1..], i, n, event) <==> SentAt(p, st, script, i + 1, n, event) {
          SentLater(p, st, script, i, n, event);
        }
        if n >= |next.sent| {
          SessionSends(p, next, script[1..], n, event);
          if i: nat :| SentAt(p, st, script, i, n, event) {
            assert i > 0;
            assert SentAt(p, next, script[1..], i - 1, n, event);
          }
          if i: nat :| SentAt(p, next, script[1..], i, n, event) {
            assert SentAt(p, st, script, i + 1, n, event);
          }
        } else {
          assert sent[n] == next.sent[n];
          NoneBefore(p, next, script[1..], n, event);
          if i: nat :| SentAt(p, st, script, i, n, event) {
            assert i > 0 ==> SentAt(p, next, script[1..], i - 1, n, event);
          }
        }
      } else {
        NoneSentLater(p, st, script);
      }
    } else {
      NoneSentLater(p, st, script);
    }
  }

  lemma {:induction false} NoneSentLater(p: Stages, st: State, script: seq<Incoming>)
    requires script != [] && script[0].Delivered? ==> CommitFails(p, st, script[0].ev, script[0].env)
    ensures forall i: nat, n: nat, event ::
              SentAt(p, st, script, i, n, event) ==> i == 0 && script != [] && script[0].Delivered?
  {
  }

  lemma {:induction false} ReachedSent(p: Stages, st: State, script: seq<Incoming>, k: nat, mid: State)
    requires Reaches(p, st, script, k, mid)
    ensures |st.sent| <= |mid.sent|
    decreases k
  {
    if k > 0 {
      ReachedSent(p, OnEvent(p, st, script[0].ev, script[0].env).0, script[1..], k - 1, mid);
    }
  }

  lemma {:induction false} NoneBefore(p: Stages, st: State, script: seq<Incoming>, n: nat, event: WalEvent)
    requires n < |st.sent|
    ensures forall i: nat :: !SentAt(p, st, script, i, n, event)
  {
    forall i: nat, mid | Meets(p, st, script, i, mid) ensures |mid.sent| != n {
      ReachedSent(p, st, script, i, mid);
    }
  }
}
