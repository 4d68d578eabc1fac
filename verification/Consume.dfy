/**
  The consume session: each message is checked against the ids already seen,
  turned into a document, sent to the sink and settled with the broker.
 */
module Consume {
  import opened Wrappers
  import opened Dedupe

  datatype QueryMode = Contract | Simple
  datatype ErrorMode = Strict | Lenient
  datatype Stage = Parse | Lookup | Compose | Sink
  datatype ErrorAction = Discard | Requeue | Abort

  /** JSON values, queries and documents are texts here; the readers of payloads are parameters. */
  datatype Config = Config(
    mode: QueryMode, onError: ErrorMode, idempotent: bool, ttl: nat, defaultQuery: string,
    tryParse: string -> Option<(Option<string>, string)>,  // the event type and the variables
    payloadVariables: string -> string,
    queries: map<string, string>)

  /** `uid` stands for the broker's own record of the message and serves as its delivery tag. */
  datatype Msg = Msg(uid: nat, id: Option<string>, payload: string)

  /**
    What the outside world does while one message is handled: when the
    sweeper ran and the clock was read, what composing gives, and whether the
    sink and the broker answered without an error.
   */
  datatype Answers = Answers(
    sweptBefore: seq<nat>, checkAt: nat, compose: (string, string) -> Option<string>,
    sentAt: nat, sinkOk: bool, sweptBetween: seq<nat>, recordAt: nat, settleOk: bool)

  datatype Call = Received(msg: Msg) | Ack(msg: Msg) | Nack(msg: Msg, requeue: bool)

  /** A document the sink accepted, with the key it was offered. */
  datatype Sent = Sent(msg: Msg, doc: string, key: Option<string>, at: nat)

  datatype Flow = Continue | Dropped | Aborted(stage: Stage)

  function Policy(mode: ErrorMode, stage: Stage): ErrorAction {
    match (mode, stage)
    case (Lenient, Sink) => Requeue
    case (Lenient, _) => Discard
    case (Strict, _) => Abort
  }

  /** The query's name and its variables. */
  function Request(cfg: Config, m: Msg): Option<(string, string)> {
    match cfg.mode
    case Simple => Some((cfg.defaultQuery, cfg.payloadVariables(m.payload)))
    case Contract =>
      var contract :- cfg.tryParse(m.payload);
      Some((contract.0.GetOr(cfg.defaultQuery), contract.1))
  }

  /** The document for a message, or the stage that failed. */
  function Document(cfg: Config, m: Msg, compose: (string, string) -> Option<string>): Result<string, Stage> {
    match Request(cfg, m)
    case None => Err(Parse)
    case Some((name, variables)) =>
      if name !in cfg.queries then Err(Lookup)
      else
        match compose(cfg.queries[name], variables)
        case None => Err(Compose)
        case Some(doc) => Ok(doc)
  }

  /** `failed` is the stage that failed, if one did; the message is settled either way. */
  datatype Handled = Handled(seen: Option<Seen>, sent: Option<Sent>, failed: Option<Stage>, settle: Call, flow: Flow)

  function IsDuplicate(cfg: Config, seen: Option<Seen>, m: Msg, now: nat): bool {
    seen.Some? && m.id.Some? && Remembers(cfg.ttl, seen.value, m.id.value, now)
  }

  function SweptIn(cfg: Config, seen: Option<Seen>, times: seq<nat>): Option<Seen> {
    if seen.Some? then Some(SweepAll(cfg.ttl, seen.value, times)) else None
  }

  function Checked(cfg: Config, seen: Option<Seen>, m: Msg, now: nat): Option<Seen> {
    if seen.Some? && m.id.Some? then Some(AfterCheck(cfg.ttl, seen.value, m.id.value, now)) else seen
  }

  function Recorded(seen: Option<Seen>, m: Msg, now: nat): Option<Seen> {
    if seen.Some? && m.id.Some? then Some(seen.value[m.id.value := now]) else seen
  }

  function Failed(cfg: Config, seen: Option<Seen>, m: Msg, stage: Stage): Handled {
    match Policy(cfg.onError, stage)
    case Discard => Handled(seen, None, Some(stage), Nack(m, false), Continue)
    case Requeue => Handled(seen, None, Some(stage), Nack(m, true), Continue)
    case Abort => Handled(seen, None, Some(stage), Nack(m, true), Aborted(stage))
  }

  /** One message, from its receipt to its settlement. */
  function Handle(cfg: Config, seen: Option<Seen>, m: Msg, a: Answers): Handled {
    var swept := SweptIn(cfg, seen, a.sweptBefore);
    var settled := if a.settleOk then Continue else Dropped;
    var checked := Checked(cfg, swept, m, a.checkAt);
    if IsDuplicate(cfg, swept, m, a.checkAt) then Handled(checked, None, None, Ack(m), settled)
    else
      match Document(cfg, m, a.compose)
      case Err(stage) => Failed(cfg, checked, m, stage)
      case Ok(doc) =>
        if !a.sinkOk then Failed(cfg, checked, m, Sink)
        else
          var sent := Sent(m, doc, if cfg.idempotent then m.id else None, a.sentAt);
          Handled(Recorded(SweptIn(cfg, checked, a.sweptBetween), m, a.recordAt), Some(sent), None, Ack(m), settled)
  }

  // ── A whole session ───────────────────────────────────────────────────────

  datatype Incoming = ShutdownSignal | Closed | RecvError | Message(msg: Msg, answers: Answers)

  datatype Exit = ReconnectAfterHealthy | Shutdown | Fatal(stage: Stage)

  /** The ids seen, the calls made to the broker and what the sink accepted. */
  datatype State = State(seen: Option<Seen>, calls: seq<Call>, sends: seq<Sent>)

  function OnMessage(cfg: Config, st: State, m: Msg, a: Answers): (State, Flow) {
    var h := Handle(cfg, st.seen, m, a);
    (State(h.seen, st.calls + [Received(m), h.settle], st.sends + if h.sent.Some? then [h.sent.value] else []), h.flow)
  }

  /** A consumer with nothing more to say is closed. */
  function RunOn(cfg: Config, st: State, script: seq<Incoming>): (State, Exit)
    decreases |script|
  {
    if script == [] then (st, ReconnectAfterHealthy)
    else
      match script[0]
      case ShutdownSignal => (st, Shutdown)
      case Closed => (st, ReconnectAfterHealthy)
      case RecvError => (st, ReconnectAfterHealthy)
      case Message(m, a) =>
        var (st', flow) := OnMessage(cfg, st, m, a);
        match flow
        case Continue => RunOn(cfg, st', script[1..])
        case Dropped => (st', ReconnectAfterHealthy)
        case Aborted(stage) => (st', Fatal(stage))
  }

  /** Receipts and settlements alternate: every message is settled once, before the next is taken. */
  ghost predicate SettledInTurn(calls: seq<Call>) {
    calls == [] ||
    var n := |calls|;
    n >= 2 && calls[n - 2].Received? && !calls[n - 1].Received? && calls[n - 1].msg == calls[n - 2].msg &&
    SettledInTurn(calls[..n - 2])
  }

  /** A message adds its receipt and one settlement; the session goes on or not accordingly. */
  lemma {:induction false} OneMessage(cfg: Config, st: State, m: Msg, a: Answers)
    ensures var (st', flow) := OnMessage(cfg, st, m, a);
            && |st'.calls| == |st.calls| + 2 && st'.calls[..|st.calls|] == st.calls
            && st'.calls[|st.calls|] == Received(m)
            && !st'.calls[|st.calls| + 1].Received? && st'.calls[|st.calls| + 1].msg == m
            && (flow.Aborted? ==> cfg.onError.Strict? && st'.calls[|st.calls| + 1].Nack?)
            && (cfg.onError.Strict? && st'.calls[|st.calls| + 1].Nack? ==>
                  flow.Aborted? && st'.calls[|st.calls| + 1].requeue)
  {
  }

  lemma {:induction false} EachSettledOnce(cfg: Config, st: State, script: seq<Incoming>)
    requires SettledInTurn(st.calls)
    ensures SettledInTurn(RunOn(cfg, st, script).0.calls)
    decreases |script|
  {
    if script != [] && script[0].Message? {
      OneMessage(cfg, st, script[0].msg, script[0].answers);
      var (st', flow) := OnMessage(cfg, st, script[0].msg, script[0].answers);
      if flow.Continue? {
        EachSettledOnce(cfg, st', script[1..]);
      }
    }
  }

  lemma {:induction false} CallsGrow(cfg: Config, st: State, script: seq<Incoming>)
    ensures st.calls <= RunOn(cfg, st, script).0.calls
    decreases |script|
  {
    if script != [] && script[0].Message? {
      OneMessage(cfg, st, script[0].msg, script[0].answers);
      var (st', flow) := OnMessage(cfg, st, script[0].msg, script[0].answers);
      if flow.Continue? {
        CallsGrow(cfg, st', script[1..]);
      }
    }
  }

  /** Whether a message was refused from call `from` on. */
  ghost predicate Refused(calls: seq<Call>, from: nat) {
    exists k :: from <= k < |calls| && calls[k].Nack?
  }

  /** In strict mode a session is fatal exactly when a message was refused, which was the last thing it did; in lenient mode never. */
  lemma {:induction false} FatalExactly(cfg: Config, st: State, script: seq<Incoming>)
    ensures var (st', exit) := RunOn(cfg, st, script);
            && (exit.Fatal? <==> cfg.onError.Strict? && Refused(st'.calls, |st.calls|))
            && (exit.Fatal? ==> st'.calls[|st'.calls| - 1].Nack? && st'.calls[|st'.calls| - 1].requeue)
            && (exit.Fatal? ==> !Refused(st'.calls[..|st'.calls| - 1], |st.calls|))
    decreases |script|
  {
    if script != [] && script[0].Message? {
      OneMessage(cfg, st, script[0].msg, script[0].answers);
      var (st', flow) := OnMessage(cfg, st, script[0].msg, script[0].answers);
      if flow.Continue? {
        CallsGrow(cfg, st', script[1..]);
        FatalExactly(cfg, st', script[1..]);
      } else {
        assert Refused(st'.calls, |st.calls|) <==> st'.calls[|st.calls| + 1].Nack?;
      }
    }
  }

  // ── The objects ───────────────────────────────────────────────────────────

  class Consumer {
    var script: seq<Incoming>
    var calls: seq<Call>

    constructor (script: seq<Incoming>)
      ensures this.script == script && calls == []
    {
      this.script, calls := script, [];
    }

    method Recv() returns (incoming: Incoming)
      modifies this
      ensures incoming == if old(script) == [] then Closed else old(script)[0]
      ensures script == if old(script) == [] then [] else old(script)[1..]
      ensures calls == old(calls) + if incoming.Message? then [Received(incoming.msg)] else []
    {
      incoming := Closed;
      if |script| > 0 {
        incoming, script := script[0], script[1..];
      }
      if incoming.Message? {
        calls := calls + [Received(incoming.msg)];
      }
    }

    method Settle(call: Call, answer: bool) returns (ok: bool)
      modifies this`calls
      ensures calls == old(calls) + [call] && ok == answer
    {
      calls := calls + [call];
      ok := answer;
    }
  }

  class ConsumeSink {
    var sends: seq<Sent>

    constructor ()
      ensures sends == []
    {
      sends := [];
    }

    method Send(sent: Sent, accepts: bool) returns (ok: bool)
      modifies this
      ensures ok == accepts && sends == if accepts then old(sends) + [sent] else old(sends)
    {
      if accepts {
        sends := sends + [sent];
      }
      ok := accepts;
    }
  }

  class ConsumeSession {
    const cfg: Config
    const sink: ConsumeSink
    const dedup: DedupCache?

    constructor (cfg: Config, sink: ConsumeSink)
      ensures this.cfg == cfg && this.sink == sink
      ensures Valid() && (dedup != null <==> cfg.idempotent)
      ensures dedup != null ==> fresh(dedup) && dedup.seen == map[]
    {
      this.cfg, this.sink := cfg, sink;
      if cfg.idempotent {
        dedup := new DedupCache(cfg.ttl);
      } else {
        dedup := null;
      }
    }

    ghost predicate Valid() {
      dedup != null ==> dedup.ttl == cfg.ttl
    }

    ghost function Ids(): Option<Seen>
      reads dedup
    {
      if dedup == null then None else Some(dedup.seen)
    }

    ghost function Abstract(consumer: Consumer): State
      reads dedup, sink, consumer
    {
      State(Ids(), consumer.calls, sink.sends)
    }

    method SweeperRuns(times: seq<nat>)
      requires Valid()
      modifies dedup
      ensures Ids() == SweptIn(cfg, old(Ids()), times)
    {
      if dedup != null {
        dedup.Sweeper(times);
      }
    }

    method CheckDuplicate(m: Msg, now: nat) returns (duplicate: bool)
      requires Valid()
      modifies dedup
      ensures duplicate == IsDuplicate(cfg, old(Ids()), m, now)
      ensures Ids() == Checked(cfg, old(Ids()), m, now)
    {
      duplicate := false;
      if dedup != null && m.id.Some? {
        duplicate := dedup.Contains(m.id.value, now);
      }
    }

    method RecordProcessed(m: Msg, now: nat)
      modifies dedup
      ensures Ids() == Recorded(old(Ids()), m, now)
    {
      if dedup != null && m.id.Some? {
        dedup.Record(m.id.value, now);
      }
    }

    /** Settle a failed message; the broker's answer is not looked at. */
    method Fail(consumer: Consumer, m: Msg, stage: Stage, answer: bool) returns (flow: Flow)
      modifies consumer`calls
      ensures var h := Failed(cfg, None, m, stage);
              flow == h.flow && consumer.calls == old(consumer.calls) + [h.settle]
    {
      match Policy(cfg.onError, stage)
      case Discard =>
        var _ := consumer.Settle(Nack(m, false), answer);
        flow := Continue;
      case Requeue =>
        var _ := consumer.Settle(Nack(m, true), answer);
        flow := Continue;
      case Abort =>
        var _ := consumer.Settle(Nack(m, true), answer);
        flow := Aborted(stage);
    }

    method ComposeDocument(m: Msg, compose: (string, string) -> Option<string>) returns (doc: Result<string, Stage>)
      ensures doc == Document(cfg, m, compose)
    {
      var name, variables;
      match cfg.mode {
      case Contract =>
        var contract := cfg.tryParse(m.payload);
        if contract.None? {
          return Err(Parse);
        }
        name, variables := contract.value.0.GetOr(cfg.defaultQuery), contract.value.1;
      case Simple =>
        name, variables := cfg.defaultQuery, cfg.payloadVariables(m.payload);
      }
      if name !in cfg.queries {
        return Err(Lookup);
      }
      var composed := compose(cfg.queries[name], variables);
      doc := if composed.None? then Err(Compose) else Ok(composed.value);
    }

    method Process(consumer: Consumer, m: Msg, a: Answers) returns (flow: Flow)
      requires Valid()
      modifies dedup, sink, consumer`calls
      ensures var h := Handle(cfg, old(Ids()), m, a);
              && flow == h.flow && Ids() == h.seen
              && consumer.calls == old(consumer.calls) + [h.settle]
              && sink.sends == old(sink.sends) + if h.sent.Some? then [h.sent.value] else []
    {
      SweeperRuns(a.sweptBefore);
      var duplicate := CheckDuplicate(m, a.checkAt);
      if duplicate {
        var ok := consumer.Settle(Ack(m), a.settleOk);
        return if ok then Continue else Dropped;
      }
      var doc := ComposeDocument(m, a.compose);
      if doc.Err? {
        flow := Fail(consumer, m, doc.error, a.settleOk);
        return;
      }
      var key := if cfg.idempotent then m.id else None;
      var accepted := sink.Send(Sent(m, doc.value, key, a.sentAt), a.sinkOk);
      if !accepted {
        flow := Fail(consumer, m, Sink, a.settleOk);
        return;
      }
      SweeperRuns(a.sweptBetween);
      RecordProcessed(m, a.recordAt);
      var ok := consumer.Settle(Ack(m), a.settleOk);
      flow := if ok then Continue else Dropped;
    }

    method Run(consumer: Consumer) returns (exit: Exit)
      requires Valid()
      modifies dedup, sink, consumer
      ensures (Abstract(consumer), exit) == RunOn(cfg, old(Abstract(consumer)), old(consumer.script))
    {
      var sessionFailed := false;
      var fatal: Option<Stage> := None;
      while true
        invariant !sessionFailed && fatal.None?
        invariant RunOn(cfg, Abstract(consumer), consumer.script) == RunOn(cfg, old(Abstract(consumer)), old(consumer.script))
        decreases |consumer.script|
      {
        ghost var st := Abstract(consumer);
        var incoming := consumer.Recv();
        assert !incoming.Message? ==> Abstract(consumer) == st;
        match incoming
        case ShutdownSignal =>
          return Shutdown;
        case Closed =>
          sessionFailed := true;
          break;
        case RecvError =>
          sessionFailed := true;
          break;
        case Message(m, a) =>
          var flow := Process(consumer, m, a);
          assert st.calls + [Received(m)] + [Handle(cfg, st.seen, m, a).settle]
              == st.calls + [Received(m), Handle(cfg, st.seen, m, a).settle];
          assert (Abstract(consumer), flow) == OnMessage(cfg, st, m, a);
          if flow.Dropped? {
            sessionFailed := true;
            break;
          }
          if flow.Aborted? {
            fatal := Some(flow.stage);
            break;
          }
      }
      match fatal
      case Some(stage) => exit := Fatal(stage);
      case None => exit := if sessionFailed then ReconnectAfterHealthy else Shutdown;
    }
  }
}
