/**
  One replicate session: what each received event does to the applier, the
  sink and the applied position, and the loop around it.
 */
module Session {
  import opened Wrappers
  import opened Bytes
  import opened Event
  import opened Proto
  import opened Decoder
  import opened Progress

  /** The stages an XLogData event passes through, and whether boundaries are emitted. */
  datatype Stages = Stages(
    decode: (seq<byte>, RelationCache) -> Decoded,
    forward: WalEvent -> bool,
    transform: WalEvent -> WalEvent,
    statements: seq<WalEvent> -> seq<string>,
    emitBoundaries: bool)

  /**
    How a target transaction ends. `Refused`: the target answers with an error
    and has undone it. Otherwise the connection is lost, before the transaction
    took effect (`Lost`), which may be long before it began, or after (`InDoubt`).
   */
  datatype CommitOutcome = Committed | Refused | Lost | InDoubt

  /** What the outside world does while one event is handled. */
  datatype Env = Env(sinkOk: bool, commit: CommitOutcome)

  type TargetLog = seq<seq<string>>

  /**
    `applier` is the buffer of the Postgres applier, when there is one, and `up`
    whether its one connection to the target still stands.
   */
  datatype State = State(
    applier: Option<seq<WalEvent>>, up: bool, target: TargetLog, sent: seq<WalEvent>, applied: nat,
    cache: RelationCache)
  {
    function Advance(lsn: nat): State {
      this.(applied := Max(applied, lsn))
    }

    function Send(event: WalEvent): State {
      this.(sent := sent + [event])
    }
  }

  /** The target and the connection to it after a commit, and whether that succeeded. */
  datatype Applied = Applied(target: TargetLog, up: bool, ok: bool)

  /** A lost connection is never opened again. */
  function ApplyBuffer(p: Stages, buffer: seq<WalEvent>, target: TargetLog, up: bool, outcome: CommitOutcome): Applied {
    if buffer == [] then Applied(target, up, true)
    else
      var statements := p.statements(buffer);
      if statements == [] then Applied(target, up, true)
      else if !up then Applied(target, false, false)
      else
        match outcome
        case Committed => Applied(target + [statements], true, true)
        case Refused => Applied(target, true, false)
        case Lost => Applied(target, false, false)
        case InDoubt => Applied(target + [statements], false, false)
  }

  function Buffered(buffer: seq<WalEvent>, event: WalEvent): seq<WalEvent> {
    if event.IsChange() then buffer + [event] else buffer
  }

  /** The state after an event, and whether the session goes on. */
  function OnEvent(p: Stages, st: State, ev: ReplEvent, env: Env): (State, bool) {
    match ev
    case KeepAlive(walEnd) => (st.Advance(walEnd), true)
    case Begin(finalLsn, xid, commitTime) =>
      var st := if st.applier.Some? then st.(applier := Some([])) else st;
      if !p.emitBoundaries then (st.Advance(finalLsn), true)
      else if !env.sinkOk then (st, true)
      else (st.Send(WalEvent.Begin(finalLsn, commitTime, xid)).Advance(finalLsn), true)
    case Commit(lsn, endLsn, commitTime) =>
      var done :=
        if st.applier.Some? then ApplyBuffer(p, st.applier.value, st.target, st.up, env.commit)
        else Applied(st.target, st.up, true);
      var st := st.(target := done.target, up := done.up, applier := if st.applier.Some? then Some([]) else None);
      if !done.ok then (st, false)
      else if !p.emitBoundaries then (st.Advance(endLsn), true)
      else if !env.sinkOk then (st, true)
      else (st.Send(WalEvent.Commit(lsn, endLsn, commitTime)).Advance(endLsn), true)
    case XLogData(_, walEnd, data) =>
      var decoded := p.decode(data, st.cache);
      var st := st.(cache := Learn(st.cache, decoded));
      match decoded
      case Err(_) => (st, true)
      case Ok(None) => (st.Advance(walEnd), true)
      case Ok(Some(event)) =>
        var event' := p.transform(event);
        var forward := p.forward(event);
        var st := if forward && st.applier.Some? then st.(applier := Some(Buffered(st.applier.value, event'))) else st;
        if forward && !env.sinkOk then (st, true)
        else
          var st := if forward then st.Send(event') else st;
          (if st.applier.Some? then st else st.Advance(walEnd), true)
  }

  /** One result of waiting for the source. */
  datatype Incoming =
    | Delivered(ev: ReplEvent, env: Env)
    | ShutdownSignal | IdleTimeout | StreamError | StreamClosed

  /** The state a session ends in, and whether it ended cleanly. A source with nothing more is closed. */
  function RunOn(p: Stages, st: State, script: seq<Incoming>): (State, bool)
    decreases |script|
  {
    if script == [] then (st, true)
    else
      match script[0]
      case ShutdownSignal => (st, true)
      case StreamClosed => (st, true)
      case IdleTimeout => (st, false)
      case StreamError => (st, false)
      case Delivered(ev, env) =>
        var (st', more) := OnEvent(p, st, ev, env);
        if more then RunOn(p, st', script[1..]) else (st', false)
  }

  datatype SessionExit = Reconnect | ReconnectAfterHealthy | Shutdown

  function ExitOf(start: nat, applied: nat, clean: bool): SessionExit {
    if clean then Shutdown else if applied != start then ReconnectAfterHealthy else Reconnect
  }

  lemma {:induction false} EventAdvances(p: Stages, st: State, ev: ReplEvent, env: Env)
    ensures st.applied <= OnEvent(p, st, ev, env).0.applied
  {
  }

  lemma {:induction false} AppliedGrows(p: Stages, st: State, script: seq<Incoming>)
    ensures st.applied <= RunOn(p, st, script).0.applied
    decreases |script|
  {
    if script != [] && script[0].Delivered? {
      EventAdvances(p, st, script[0].ev, script[0].env);
      AppliedGrows(p, OnEvent(p, st, script[0].ev, script[0].env).0, script[1..]);
    }
  }

  // ── The objects ───────────────────────────────────────────────────────────

  class PostgresApplier {
    const p: Stages
    var buffer: seq<WalEvent>
    var up: bool
    var target: TargetLog

    constructor (p: Stages)
      ensures this.p == p && buffer == [] && up && target == []
    {
      this.p := p;
      buffer, up, target := [], true, [];
    }

    method HandleBegin()
      modifies this
      ensures buffer == [] && up == old(up) && target == old(target)
    {
      buffer := [];
    }

    method HandleEvent(event: WalEvent)
      modifies this
      ensures buffer == Buffered(old(buffer), event) && up == old(up) && target == old(target)
    {
      if event.IsChange() {
        buffer := buffer + [event];
      }
    }

    method HandleCommit(outcome: CommitOutcome) returns (ok: bool)
      modifies this
      ensures Applied(target, up, ok) == ApplyBuffer(p, old(buffer), old(target), old(up), outcome) && buffer == []
    {
      if |buffer| == 0 {
        return true;
      }
      var events := buffer;
      buffer := [];
      var statements := p.statements(events);
      if |statements| == 0 {
        return true;
      }
      if !up {
        return false;
      }
      match outcome
      case Committed => target := target + [statements]; ok := true;
      case Refused => ok := false;
      case Lost => up := false; ok := false;
      case InDoubt => target := target + [statements]; up := false; ok := false;
    }
  }

  class WalSink {
    var sent: seq<WalEvent>

    constructor ()
      ensures sent == []
    {
      sent := [];
    }

    method SendWal(event: WalEvent, accepts: bool) returns (ok: bool)
      modifies this
      ensures ok == accepts && sent == if accepts then old(sent) + [event] else old(sent)
    {
      if accepts {
        sent := sent + [event];
      }
      ok := accepts;
    }
  }

  /** The source: what it will deliver, and the position it shares with its worker. */
  class Source {
    var script: seq<Incoming>
    const progress: SharedProgress

    constructor (script: seq<Incoming>, start: nat)
      ensures this.script == script && progress.applied == start && fresh(progress)
    {
      this.script := script;
      progress := new SharedProgress(start);
    }

    method Recv() returns (incoming: Incoming)
      modifies this
      ensures if old(script) == [] then incoming == StreamClosed && script == []
              else incoming == old(script)[0] && script == old(script)[1..]
    {
      if |script| == 0 {
        return StreamClosed;
      }
      incoming := script[0];
      script := script[1..];
    }
  }

  class ReplicateSession {
    const p: Stages
    const sink: WalSink
    const applier: PostgresApplier?
    var relCache: RelationCache
    var resumeLsn: nat

    constructor (p: Stages, sink: WalSink, applier: PostgresApplier?, resumeLsn: nat)
      requires applier != null ==> applier.p == p
      ensures this.p == p && this.sink == sink && this.applier == applier
      ensures relCache == map[] && this.resumeLsn == resumeLsn
    {
      this.p, this.sink, this.applier := p, sink, applier;
      relCache, this.resumeLsn := map[], resumeLsn;
    }

    ghost function Abstract(source: Source): State
      reads this, sink, applier, source.progress
    {
      State(if applier == null then None else Some(applier.buffer),
            applier == null || applier.up,
            if applier == null then [] else applier.target,
            sink.sent, source.progress.applied, relCache)
    }

    method Handle(source: Source, ev: ReplEvent, env: Env) returns (more: bool)
      requires applier != null ==> applier.p == p
      modifies this`relCache, sink, applier, source.progress
      ensures (Abstract(source), more) == OnEvent(p, old(Abstract(source)), ev, env)
    {
      more := true;
      match ev {
      case KeepAlive(walEnd) =>
        source.progress.UpdateApplied(walEnd, 0);
      case Begin(finalLsn, xid, commitTime) =>
        if applier != null {
          applier.HandleBegin();
        }
        if p.emitBoundaries {
          var ok := sink.SendWal(WalEvent.Begin(finalLsn, commitTime, xid), env.sinkOk);
          if !ok {
            return true;
          }
        }
        source.progress.UpdateApplied(finalLsn, 0);
      case Commit(lsn, endLsn, commitTime) =>
        if applier != null {
          var ok := applier.HandleCommit(env.commit);
          if !ok {
            return false;
          }
        }
        if p.emitBoundaries {
          var ok := sink.SendWal(WalEvent.Commit(lsn, endLsn, commitTime), env.sinkOk);
          if !ok {
            return true;
          }
        }
        source.progress.UpdateApplied(endLsn, 0);
      case XLogData(_, walEnd, data) =>
        var decoded := p.decode(data, relCache);
        relCache := Learn(relCache, decoded);
        match decoded
        case Err(_) =>
        case Ok(None) =>
          source.progress.UpdateApplied(walEnd, 0);
        case Ok(Some(decodedEvent)) =>
          var forward := p.forward(decodedEvent);
          var event := p.transform(decodedEvent);
          if forward {
            if applier != null {
              applier.HandleEvent(event);
            }
            var ok := sink.SendWal(event, env.sinkOk);
            if !ok {
              return true;
            }
          }
          if applier == null {
            source.progress.UpdateApplied(walEnd, 0);
          }
      }
    }

    method Run(source: Source) returns (exit: SessionExit)
      requires applier != null ==> applier.p == p
      modifies this`relCache, this`resumeLsn, sink, applier, source, source.progress
      ensures var (st, clean) := RunOn(p, old(Abstract(source)), old(source.script));
              && Abstract(source) == st
              && resumeLsn == st.applied
              && exit == ExitOf(old(resumeLsn), st.applied, clean)
    {
      var startLsn := resumeLsn;
      var clean := false;
      while true
        invariant RunOn(p, old(Abstract(source)), old(source.script)) == RunOn(p, Abstract(source), source.script)
        invariant applier != null ==> applier.p == p
        decreases |source.script|
      {
        ghost var before := source.script;
        ghost var st := Abstract(source);
        var incoming := source.Recv();
        assert Abstract(source) == st;
        match incoming
        case ShutdownSignal =>
          clean := true;
          break;
        case StreamClosed =>
          clean := true;
          break;
        case IdleTimeout =>
          break;
        case StreamError =>
          break;
        case Delivered(ev, env) =>
          var more := Handle(source, ev, env);
          if !more {
            break;
          }
      }
      resumeLsn := source.progress.applied;
      exit := ExitOf(startLsn, resumeLsn, clean);
    }
  }
}
