/** Which document a message gets, how it is settled, and how a session ends. */
module ConsumeMeaning {
  import opened Wrappers
  import opened Dedupe
  import opened Consume
  import opened Broker

  // ── The document ──────────────────────────────────────────────────────────

  /** The query a message names, or the default one when it names none, and the message's variables. */
  predicate AsksFor(cfg: Config, m: Msg, name: string, variables: string) {
    match cfg.mode
    case Simple => name == cfg.defaultQuery && variables == cfg.payloadVariables(m.payload)
    case Contract =>
      || cfg.tryParse(m.payload) == Some((Some(name), variables))
      || (name == cfg.defaultQuery && cfg.tryParse(m.payload) == Some((None, variables)))
  }

  predicate Readable(cfg: Config, m: Msg) {
    cfg.mode.Simple? || cfg.tryParse(m.payload).Some?
  }

  /** A readable message asks for one query with one set of variables; another for none. */
  lemma {:induction false} AsksForOne(cfg: Config, m: Msg)
    ensures Readable(cfg, m) <==> exists name, variables :: AsksFor(cfg, m, name, variables)
    ensures forall n, v, n', v' :: AsksFor(cfg, m, n, v) && AsksFor(cfg, m, n', v') ==> n == n' && v == v'
  {
    if Readable(cfg, m) {
      var name := if cfg.mode.Simple? then cfg.defaultQuery else cfg.tryParse(m.payload).value.0.GetOr(cfg.defaultQuery);
      var variables := if cfg.mode.Simple? then cfg.payloadVariables(m.payload) else cfg.tryParse(m.payload).value.1;
      assert AsksFor(cfg, m, name, variables);
    }
  }

  /** What composing gives for the query the message asks for. */
  ghost predicate IsDocumentOf(cfg: Config, m: Msg, compose: (string, string) -> Option<string>, doc: string) {
    exists name, variables ::
      AsksFor(cfg, m, name, variables) && name in cfg.queries && compose(cfg.queries[name], variables) == Some(doc)
  }

  /** Why there is none. */
  ghost predicate FailsToCompose(cfg: Config, m: Msg, compose: (string, string) -> Option<string>, stage: Stage) {
    match stage
    case Parse => !Readable(cfg, m)
    case Lookup => exists name, variables :: AsksFor(cfg, m, name, variables) && name !in cfg.queries
    case Compose => exists name, variables ::
      AsksFor(cfg, m, name, variables) && name in cfg.queries && compose(cfg.queries[name], variables) == None
    case Sink => false
  }

  lemma {:induction false} DocumentExactly(cfg: Config, m: Msg, compose: (string, string) -> Option<string>)
    ensures forall doc :: Document(cfg, m, compose) == Ok(doc) <==> IsDocumentOf(cfg, m, compose, doc)
    ensures forall stage :: Document(cfg, m, compose) == Err(stage) <==> FailsToCompose(cfg, m, compose, stage)
  {
    AsksForOne(cfg, m);
    match Request(cfg, m)
    case None =>
    case Some((name, variables)) =>
      assert AsksFor(cfg, m, name, variables);
  }

  /** The send comes from handling the message: its document, its id as the key in idempotent mode, and when. */
  ghost predicate SentBy(cfg: Config, act: Action, d: Delivered) {
    && (act.Take? || act.CrashAfterSend?)
    && d.sent.msg == act.m && IsDocumentOf(cfg, act.m, act.a.compose, d.sent.doc)
    && d.sent.key == (if cfg.idempotent then act.m.id else None)
    && d.sent.at == act.a.sentAt && d.recordAt == act.a.recordAt && act.a.sinkOk
  }

  ghost predicate FromSome(cfg: Config, acts: seq<Action>, d: Delivered) {
    exists i :: 0 <= i < |acts| && SentBy(cfg, acts[i], d)
  }

  lemma {:induction false} StepSends(cfg: Config, w: World, act: Action)
    requires Broker.Enabled(w, act)
    ensures var w' := Broker.Apply(cfg, w, act);
            w'.sends == w.sends || (exists d :: SentBy(cfg, act, d) && w'.sends == w.sends + [d])
  {
    if act.Take? || act.CrashAfterSend? {
      DocumentExactly(cfg, act.m, act.a.compose);
      var h := Handle(cfg, w.seen, act.m, act.a);
      if h.sent.Some? {
        assert SentBy(cfg, act, Delivered(h.sent.value, act.a.recordAt));
      } else {
        assert w.sends + [] == w.sends;
      }
    }
  }

  /**
    In every run each document the sink accepted is what composing gave for the
    query its message asks for, with that message's variables, and was offered
    with the message's id in idempotent mode and with no key otherwise.
   */
  lemma {:induction false} EverySend(cfg: Config, w: World, acts: seq<Action>, k: nat)
    requires Broker.RunAll(cfg, w, acts).Some?
    requires |w.sends| <= k < |Broker.RunAll(cfg, w, acts).value.sends|
    ensures FromSome(cfg, acts, Broker.RunAll(cfg, w, acts).value.sends[k])
    decreases |acts|
  {
    var w1 := Broker.Apply(cfg, w, acts[0]);
    StepSends(cfg, w, acts[0]);
    SendsGrow(cfg, w1, acts[1..]);
    var w' := Broker.RunAll(cfg, w, acts).value;
    if k < |w1.sends| {
      assert w'.sends[k] == w1.sends[k];
    } else {
      EverySend(cfg, w1, acts[1..], k);
      var i :| 0 <= i < |acts[1..]| && SentBy(cfg, acts[1..][i], w'.sends[k]);
      assert acts[i + 1] == acts[1..][i];
    }
  }

  lemma {:induction false} SendsGrow(cfg: Config, w: World, acts: seq<Action>)
    requires Broker.RunAll(cfg, w, acts).Some?
    ensures w.sends <= Broker.RunAll(cfg, w, acts).value.sends
    decreases |acts|
  {
    if acts != [] {
      StepSends(cfg, w, acts[0]);
      SendsGrow(cfg, Broker.Apply(cfg, w, acts[0]), acts[1..]);
    }
  }

  // ── The settlement ────────────────────────────────────────────────────────

  /** The message is not a duplicate, and this stage fails for it. */
  ghost predicate FailsAt(cfg: Config, seen: Option<Seen>, m: Msg, a: Answers, stage: Stage) {
    && !IsDuplicate(cfg, SweptIn(cfg, seen, a.sweptBefore), m, a.checkAt)
    && if stage.Sink? then (exists doc :: IsDocumentOf(cfg, m, a.compose, doc)) && !a.sinkOk
       else FailsToCompose(cfg, m, a.compose, stage)
  }

  /**
    A message that fails goes back to the queue when it was the sink or in
    strict mode, which also ends the session; otherwise it is discarded. Any
    other is acked, and the session goes on if the broker hears of it.
   */
  lemma {:induction false} SettledExactly(cfg: Config, seen: Option<Seen>, m: Msg, a: Answers, stage: Stage)
    ensures var h := Handle(cfg, seen, m, a);
            && (h.failed == Some(stage) <==> FailsAt(cfg, seen, m, a, stage))
            && (h.failed == Some(stage) ==>
                  && h.settle == Nack(m, stage.Sink? || cfg.onError.Strict?)
                  && h.flow == (if cfg.onError.Strict? then Aborted(stage) else Continue))
            && (h.failed == None ==>
                  h.settle == Ack(m) && (h.flow.Continue? <==> a.settleOk) && (h.flow.Dropped? <==> !a.settleOk))
  {
    DocumentExactly(cfg, m, a.compose);
  }

  /** The document is sent exactly when the message is no duplicate, has one, and the sink accepts it. */
  lemma {:induction false} SentExactly(cfg: Config, seen: Option<Seen>, m: Msg, a: Answers)
    ensures Handle(cfg, seen, m, a).sent.Some? <==>
            && !IsDuplicate(cfg, SweptIn(cfg, seen, a.sweptBefore), m, a.checkAt)
            && (exists doc :: IsDocumentOf(cfg, m, a.compose, doc)) && a.sinkOk
  {
    DocumentExactly(cfg, m, a.compose);
  }

  /** The session is over: its channel is closed and what it had not settled is queued again. */
  ghost predicate Over(w: World) {
    !w.up && !w.alive && w.unacked == {} && w.buffer == {}
  }

  /**
    Only connecting begins a session, with an open channel. One ends when it is
    told to, when the process dies, or when it does not go on after a message;
    then nothing is left unacked or buffered. A dead channel alone ends none.
   */
  lemma {:induction false} SessionLife(cfg: Config, w: World, act: Action)
    requires Broker.Enabled(w, act)
    ensures var w' := Broker.Apply(cfg, w, act);
            && (act.Connect? ==> w'.up && w'.alive)
            && (act.End? || act.Crash? || act.CrashAfterSend? ==> Over(w'))
            && (act.Take? ==>
                  if Handle(cfg, w.seen, act.m, act.a).flow.Continue? then w'.up && w'.alive == w.alive else Over(w'))
            && (act.ChannelDies? ==> w'.up == w.up && !w'.alive && w'.unacked == {})
            && (act.Publish? || act.Deliver? || act.SweeperRuns? ==> w'.up == w.up && w'.alive == w.alive)
            && (act.Crash? || act.CrashAfterSend? ==> w'.seen == if cfg.idempotent then Some(map[]) else None)
  {
  }

  // ── How a session ends ────────────────────────────────────────────────────

  /** The state after the first `k` messages of the script, if the session went on after each. */
  ghost predicate Reaches(cfg: Config, st: Consume.State, script: seq<Incoming>, k: nat, st': Consume.State)
    decreases k
  {
    if k == 0 then st' == st
    else
      && script != [] && script[0].Message?
      && var (next, flow) := OnMessage(cfg, st, script[0].msg, script[0].answers);
         flow.Continue? && Reaches(cfg, next, script[1..], k - 1, st')
  }

  /** What ends a session: the end of the script, what is not a message, or a message after which it does not go on. */
  ghost predicate EndsWith(cfg: Config, st: Consume.State, script: seq<Incoming>, st': Consume.State, exit: Exit) {
    if script == [] || script[0].Closed? || script[0].RecvError? then st' == st && exit == ReconnectAfterHealthy
    else if script[0].ShutdownSignal? then st' == st && exit == Shutdown
    else
      && st' == OnMessage(cfg, st, script[0].msg, script[0].answers).0
      && match OnMessage(cfg, st, script[0].msg, script[0].answers).1
         case Continue => false
         case Dropped => exit == ReconnectAfterHealthy
         case Aborted(stage) => exit == Fatal(stage)
  }

  ghost predicate Runs(cfg: Config, st: Consume.State, script: seq<Incoming>, k: nat, st': Consume.State, exit: Exit) {
    k <= |script| && exists mid :: Reaches(cfg, st, script, k, mid) && EndsWith(cfg, mid, script[k..], st', exit)
  }

  /** A session handles its messages one after the other up to the first that, or after which, it ends. */
  lemma {:induction false} SessionRuns(cfg: Config, st: Consume.State, script: seq<Incoming>) returns (k: nat)
    ensures var (st', exit) := Consume.RunOn(cfg, st, script); Runs(cfg, st, script, k, st', exit)
    decreases |script|
  {
    var (st', exit) := Consume.RunOn(cfg, st, script);
    if script != [] && script[0].Message? && OnMessage(cfg, st, script[0].msg, script[0].answers).1.Continue? {
      var next := OnMessage(cfg, st, script[0].msg, script[0].answers).0;
      k := SessionRuns(cfg, next, script[1..]);
      var mid :| Reaches(cfg, next, script[1..], k, mid) && EndsWith(cfg, mid, script[1..][k..], st', exit);
      k := k + 1;
      assert script[1..][k - 1..] == script[k..];
      assert Reaches(cfg, st, script, k, mid);
    } else {
      k := 0;
      assert Reaches(cfg, st, script, 0, st) && script[0..] == script;
    }
  }
}
