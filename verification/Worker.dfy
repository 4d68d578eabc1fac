/** The background worker: frames in, events and status updates out. */
module Worker {
  import opened Wrappers
  import opened Bytes
  import opened Proto
  import Progress

  const DRAIN_BATCH: nat := 256

  /** What the worker writes to the server. */
  datatype Out = Status(applied: nat, reply: bool) | CopyDone

  /** `Waiting`: the turns are used up and the loop would go on. */
  datatype End = Waiting | Stopped | WriteFailed | Broken(error: ProtoError)

  /** `lastStatus` is when the last status update was sent. */
  datatype State = State(events: seq<ReplEvent>, sent: seq<Out>, lastApplied: nat, lastStatus: int)

  // ── What happens around it ────────────────────────────────────────────────

  function Fresh(applied: nat, lastStatus: int): State {
    State([], [], applied, lastStatus)
  }

  /** A moment: the shared position, the clock before and after a write, and whether a write succeeds. */
  datatype Tick = Tick(applied: nat, now: nat, later: nat, writes: bool)

  /**
    What the wait for something to happen ends with. A signal and an idle
    timeout drop the pending read, which may have `taken` bytes already.
   */
  datatype Wait = Signal(stop: bool, taken: nat) | Arrived(at: Tick) | Idle(at: Tick, taken: nat)

  /**
    One turn of the loop: the moment at its top, the moments at which messages
    already buffered are handled, the stop flag after those, and how the wait
    ends when there are none.
   */
  datatype Turn = Turn(top: Tick, buffered: seq<Tick>, stop: bool, wait: Wait)

  // ── What the loop computes ────────────────────────────────────────────────

  /** The loop goes on with the bytes of `rest` still to be read, or is over. */
  datatype Outcome = Going(st: State, rest: seq<byte>) | Over(st: State, end: End)

  function Reported(st: State, at: Tick, reply: bool): State {
    st.(sent := st.sent + [Status(st.lastApplied, reply)], lastStatus := at.later)
  }

  /** A status update, then whatever follows it. */
  function Report(st: State, rest: seq<byte>, at: Tick, reply: bool): Outcome {
    if at.writes then Going(Reported(st, at, reply), rest) else Over(st, WriteFailed)
  }

  predicate AsksReply(payload: seq<byte>) {
    var cd := CopyDataOf(payload);
    cd.Ok? && cd.value.KeepAliveCopy? && cd.value.replyRequested
  }

  /** A keepalive that asks for a reply gets it before its event is passed on. */
  function OnPayload(st: State, rest: seq<byte>, payload: seq<byte>, at: Tick): Outcome {
    var answered := if AsksReply(payload) then Report(st.(lastApplied := at.applied), rest, at, true) else Going(st, rest);
    if answered.Over? then answered
    else
      match EventOf(payload)
      case Err(e) => Over(answered.st, Broken(e))
      case Ok(ev) => Going(answered.st.(events := answered.st.events + [ev]), rest)
  }

  function OnMessage(st: State, rest: seq<byte>, m: BackendMessage, at: Tick): Outcome {
    if m.tag == Tag('d') then OnPayload(st, rest, m.payload, at)
    else if m.tag == Tag('E') then Over(st, Broken(ServerError(m.payload)))
    else Going(st, rest)
  }

  function Receive(st: State, rest: seq<byte>, at: Tick): Outcome {
    match ReadFrame(rest)
    case Err(e) => Over(st, Broken(e))
    case Ok((m, more)) => OnMessage(st, more, m, at)
  }

  function Drain(st: State, rest: seq<byte>, moments: seq<Tick>): Outcome
    decreases |moments|
  {
    if moments == [] then Going(st, rest)
    else
      match Receive(st, rest, moments[0])
      case Over(st', end) => Over(st', end)
      case Going(st', rest') => Drain(st', rest', moments[1..])
  }

  function Stop(st: State): Outcome {
    Over(st.(sent := st.sent + [CopyDone]), Stopped)
  }

  /** A due status update at the top of the loop. */
  function Top(interval: nat, st: State, rest: seq<byte>, at: Tick): Outcome {
    var synced := st.(lastApplied := at.applied);
    if at.now - st.lastStatus >= interval then Report(synced, rest, at, false) else Going(synced, rest)
  }

  /** The messages one turn drains. */
  function Batch(turn: Turn): seq<Tick> {
    turn.buffered[..Min(|turn.buffered|, DRAIN_BATCH)]
  }

  function AfterWait(st: State, rest: seq<byte>, wait: Wait): Outcome {
    match wait
    case Signal(stop, taken) => if stop then Stop(st) else Going(st, Cut(rest, taken))
    case Idle(at, taken) => Report(st.(lastApplied := at.applied), Cut(rest, taken), at, false)
    case Arrived(at) => Receive(st, rest, at)
  }

  function AfterTop(st: State, rest: seq<byte>, turn: Turn): Outcome {
    if turn.buffered == [] then AfterWait(st, rest, turn.wait)
    else
      var drained := Drain(st, rest, Batch(turn));
      if drained.Going? && turn.stop then Stop(drained.st) else drained
  }

  function OneTurn(interval: nat, st: State, rest: seq<byte>, turn: Turn): Outcome {
    var top := Top(interval, st, rest, turn.top);
    if top.Over? then top else AfterTop(top.st, rest, turn)
  }

  function Turns(interval: nat, st: State, rest: seq<byte>, turns: seq<Turn>): Outcome
    decreases |turns|
  {
    if turns == [] then Going(st, rest)
    else
      match OneTurn(interval, st, rest, turns[0])
      case Over(st', end) => Over(st', end)
      case Going(st', rest') => Turns(interval, st', rest', turns[1..])
  }

  // ── The worker ────────────────────────────────────────────────────────────

  class Worker {
    const interval: nat
    const socket: Socket
    var events: seq<ReplEvent>
    var sent: seq<Out>
    var lastApplied: nat
    var lastStatus: int

    constructor (interval: nat, socket: Socket, applied: nat, now: nat)
      ensures this.interval == interval && this.socket == socket && Now() == Fresh(applied, now - interval)
    {
      this.interval, this.socket := interval, socket;
      events, sent, lastApplied, lastStatus := [], [], applied, now - interval;
    }

    ghost function Now(): State
      reads this
    {
      State(events, sent, lastApplied, lastStatus)
    }

    /** Where the worker is, or how it ended: then what is left on the socket no longer matters. */
    ghost predicate Is(outcome: Outcome, over: Option<End>)
      reads this, socket
    {
      match outcome
      case Going(st, rest) => over.None? && Now() == st && socket.rest == rest
      case Over(st, end) => over == Some(end) && Now() == st
    }

    method SendFeedback(at: Tick, reply: bool) returns (over: Option<End>)
      modifies this`sent, this`lastStatus
      ensures Is(Report(old(Now()), old(socket.rest), at, reply), over)
    {
      if !at.writes {
        return Some(WriteFailed);
      }
      sent := sent + [Status(lastApplied, reply)];
      lastStatus := at.later;
      over := None;
    }

    method HandleCopyData(payload: seq<byte>, at: Tick) returns (over: Option<End>)
      modifies this
      ensures Is(OnPayload(old(Now()), old(socket.rest), payload, at), over)
    {
      var cd := ParseCopyData(payload);
      if cd.Err? {
        return Some(Broken(cd.error));
      }
      match cd.value {
        case KeepAliveCopy(walEnd, _, replyRequested) =>
          if replyRequested {
            lastApplied := at.applied;
            over := SendFeedback(at, true);
            if over.Some? {
              return;
            }
          }
          events := events + [KeepAlive(walEnd)];
        case XLogCopy(walStart, walEnd, _, data) =>
          var boundary := ParseBoundary(data);
          if boundary.Err? {
            return Some(Broken(boundary.error));
          }
          match boundary.value {
            case Some(BeginBoundary(finalLsn, commitTime, xid)) => events := events + [Begin(finalLsn, xid, commitTime)];
            case Some(CommitBoundary(lsn, endLsn, commitTime)) => events := events + [Commit(lsn, endLsn, commitTime)];
            case None => events := events + [XLogData(walStart, walEnd, data)];
          }
      }
      over := None;
    }

    method ReadMessage(at: Tick) returns (over: Option<End>)
      modifies this, socket
      ensures Is(Receive(old(Now()), old(socket.rest), at), over)
    {
      var msg := socket.ReadBackendMessage();
      if msg.Err? {
        return Some(Broken(msg.error));
      }
      if msg.value.tag == Tag('d') {
        over := HandleCopyData(msg.value.payload, at);
      } else if msg.value.tag == Tag('E') {
        over := Some(Broken(ServerError(msg.value.payload)));
      } else {
        over := None;
      }
    }

    method SendCopyDone()
      modifies this`sent
      ensures sent == old(sent) + [CopyDone]
    {
      sent := sent + [CopyDone];
    }

    method DrainBuffered(buffered: seq<Tick>) returns (drained: nat, over: Option<End>)
      modifies this, socket
      ensures Is(Drain(old(Now()), old(socket.rest), buffered[..Min(|buffered|, DRAIN_BATCH)]), over)
      ensures over.None? ==> drained == Min(|buffered|, DRAIN_BATCH)
    {
      drained := 0;
      ghost var batch := buffered[..Min(|buffered|, DRAIN_BATCH)];
      assert batch[0..] == batch;
      while drained < |buffered| && drained < DRAIN_BATCH
        invariant drained <= |batch|
        invariant Drain(Now(), socket.rest, batch[drained..]) == Drain(old(Now()), old(socket.rest), batch)
      {
        assert batch[drained..][1..] == batch[drained + 1..];
        over := ReadMessage(buffered[drained]);
        drained := drained + 1;
        if over.Some? {
          return;
        }
      }
      over := None;
    }

    method LoopOnce(turn: Turn) returns (over: Option<End>)
      modifies this, socket
      ensures Is(OneTurn(interval, old(Now()), old(socket.rest), turn), over)
    {
      var currentApplied := turn.top.applied;
      if currentApplied != lastApplied {
        lastApplied := currentApplied;
      }
      if turn.top.now - lastStatus >= interval {
        over := SendFeedback(turn.top, false);
        if over.Some? {
          return;
        }
      }
      var drained;
      drained, over := DrainBuffered(turn.buffered);
      if over.Some? {
        return;
      }
      if drained > 0 {
        if turn.stop {
          SendCopyDone();
          return Some(Stopped);
        }
        return None;
      }
      match turn.wait
      case Signal(stop, taken) =>
        socket.CancelRead(taken);
        if stop {
          SendCopyDone();
          return Some(Stopped);
        }
        return None;
      case Idle(at, taken) =>
        socket.CancelRead(taken);
        lastApplied := at.applied;
        over := SendFeedback(at, false);
      case Arrived(at) =>
        over := ReadMessage(at);
    }

    method StreamLoop(turns: seq<Turn>) returns (end: End)
      modifies this, socket
      ensures match Turns(interval, old(Now()), old(socket.rest), turns)
              case Going(st, rest) => end == Waiting && Now() == st && socket.rest == rest
              case Over(st, e) => end == e && Now() == st
    {
      var i := 0;
      assert turns[0..] == turns;
      while i < |turns|
        invariant i <= |turns|
        invariant Turns(interval, Now(), socket.rest, turns[i..]) == Turns(interval, old(Now()), old(socket.rest), turns)
      {
        assert turns[i..][1..] == turns[i + 1..];
        var over := LoopOnce(turns[i]);
        i := i + 1;
        if over.Some? {
          return over.value;
        }
      }
      end := Waiting;
    }
  }

  // ── The events are those of the bytes ─────────────────────────────────────

  /**
    With `before` emitted and `s` to be read: what is emitted by then and what
    is left to emit make up the events of the bytes, and an error ends both or
    neither.
   */
  ghost predicate Explains(before: seq<ReplEvent>, s: seq<byte>, o: Outcome) {
    var (evs, end) := WorkerRun(s);
    match o
    case Going(st, rest) => before + evs == st.events + WorkerRun(rest).0 && end == WorkerRun(rest).1
    case Over(st, Broken(e)) => before + evs == st.events && (end == Failed(e) || (e == Eof && end == Drained))
    case Over(st, _) => st.events <= before + evs
  }

  lemma {:induction false} ThenExplains(before: seq<ReplEvent>, s: seq<byte>, st: State, rest: seq<byte>, o: Outcome)
    requires Explains(before, s, Going(st, rest)) && Explains(st.events, rest, o)
    ensures Explains(before, s, o)
  {
  }

  lemma {:induction false} ReceiveExplains(st: State, s: seq<byte>, at: Tick)
    ensures Explains(st.events, s, Receive(st, s, at))
  {
    if s != [] && ReadFrame(s).Ok? {
      var (m, rest) := ReadFrame(s).value;
      var more := WorkerRun(rest).0;
      if m.tag == Tag('d') && EventOf(m.payload).Ok? {
        var ev := EventOf(m.payload).value;
        assert st.events + ([ev] + more) == st.events + [ev] + more;
      }
    }
  }

  lemma {:induction false} DrainExplains(st: State, s: seq<byte>, moments: seq<Tick>)
    ensures Explains(st.events, s, Drain(st, s, moments))
    decreases |moments|
  {
    if moments != [] {
      ReceiveExplains(st, s, moments[0]);
      match Receive(st, s, moments[0])
      case Over(_, _) =>
      case Going(st', rest') =>
        DrainExplains(st', rest', moments[1..]);
        ThenExplains(st.events, s, st', rest', Drain(st', rest', moments[1..]));
    }
  }

  /** The bytes of a half-read message that the loop drops and then reads on without. */
  function DroppedAt(wait: Wait): nat {
    match wait
    case Signal(stop, taken) => if stop then 0 else taken
    case Idle(at, taken) => if at.writes then taken else 0
    case Arrived(_) => 0
  }

  function Dropped(turn: Turn): nat {
    if turn.buffered == [] then DroppedAt(turn.wait) else 0
  }

  lemma {:induction false} TurnExplains(interval: nat, st: State, s: seq<byte>, turn: Turn)
    requires Dropped(turn) == 0
    ensures Explains(st.events, s, OneTurn(interval, st, s, turn))
  {
    match Top(interval, st, s, turn.top)
    case Over(_, _) =>
    case Going(st', _) =>
      DrainExplains(st', s, Batch(turn));
      if turn.wait.Arrived? {
        ReceiveExplains(st', s, turn.wait.at);
      }
  }

  /** No turn drops the beginning of a message. */
  ghost predicate Whole(turns: seq<Turn>) {
    forall i :: 0 <= i < |turns| ==> Dropped(turns[i]) == 0
  }

  /** However the bytes come in batches and waits, if no turn drops the beginning of a message. */
  lemma {:induction false} TurnsExplain(interval: nat, st: State, s: seq<byte>, turns: seq<Turn>)
    requires Whole(turns)
    ensures Explains(st.events, s, Turns(interval, st, s, turns))
    decreases |turns|
  {
    if turns != [] {
      TurnExplains(interval, st, s, turns[0]);
      match OneTurn(interval, st, s, turns[0])
      case Over(_, _) =>
      case Going(st', rest') =>
        TurnsExplain(interval, st', rest', turns[1..]);
        ThenExplains(st.events, s, st', rest', Turns(interval, st', rest', turns[1..]));
    }
  }

  // ── A message cut short ───────────────────────────────────────────────────

  /** An event takes no fewer bytes than its data, the fields before it and the frame. */
  lemma {:induction false} EventsNeedBytes(s: seq<byte>, i: nat)
    requires i < |WorkerRun(s).0| && WorkerRun(s).0[i].XLogData?
    ensures 30 + |WorkerRun(s).0[i].data| <= |s|
    decreases |s|
  {
    var (m, rest) := ReadFrame(s).value;
    if m.tag == Tag('d') {
      if i > 0 {
        EventsNeedBytes(rest, i - 1);
      }
    } else {
      EventsNeedBytes(rest, i);
    }
  }

  /** The payload of a row message that carries one zero byte. */
  function ZeroPayload(): seq<byte> {
    [Tag('w')] + seq(25, _ => 0 as byte)
  }

  /** A message that leaves nothing behind reads as its event; no part of it does. */
  lemma {:induction false} ZeroCut(taken: nat)
    requires taken > 0
    ensures var s := Frame(Tag('d'), ZeroPayload());
            && WorkerRun(s).0 == [XLogData(0, 0, [0])]
            && WorkerRun(Cut(s, taken)).0 != [XLogData(0, 0, [0])]
  {
    var payload := ZeroPayload();
    var s := Frame(Tag('d'), payload);
    FrameReadsBack(Tag('d'), payload, []);
    assert s + [] == s;
    ZeroEvent();
    assert WorkerRun([]) == ([], Drained);
    assert |Cut(s, taken)| < |s|;
    if WorkerRun(Cut(s, taken)).0 == [XLogData(0, 0, [0])] {
      EventsNeedBytes(Cut(s, taken), 0);
    }
  }

  lemma {:induction false} ZeroEvent()
    ensures EventOf(ZeroPayload()) == Ok(XLogData(0, 0, [0]))
  {
    var b := ZeroPayload()[1..];
    ZeroUint(b[..8]);
    ZeroUint(b[8..16]);
    ZeroUint(b[16..24]);
    assert b[24..] == [0];
  }

  lemma {:induction false} ZeroUint(bs: seq<byte>)
    requires forall i :: 0 <= i < |bs| ==> bs[i] == 0
    ensures Uint(bs) == 0
  {
    if bs != [] {
      ZeroUint(bs[..|bs| - 1]);
    }
  }

  /** Whatever is to be read, a turn passes on what the bytes say, exactly when it drops nothing of a message. */
  lemma {:induction false} TurnExplainsExactly(interval: nat, turn: Turn)
    ensures (forall st: State, s :: Explains(st.events, s, OneTurn(interval, st, s, turn))) <==> Dropped(turn) == 0
  {
    if Dropped(turn) == 0 {
      forall st: State, s ensures Explains(st.events, s, OneTurn(interval, st, s, turn)) {
        TurnExplains(interval, st, s, turn);
      }
    } else {
      var st, s := Fresh(0, turn.top.now + 1), Frame(Tag('d'), ZeroPayload());
      ZeroCut(Dropped(turn));
      var o := OneTurn(interval, st, s, turn);
      assert o.Going? && o.st.events == [] && o.rest == Cut(s, Dropped(turn));
      assert !Explains([], s, o) by {
        assert [] + WorkerRun(s).0 == WorkerRun(s).0 && [] + WorkerRun(o.rest).0 == WorkerRun(o.rest).0;
      }
    }
  }

  /**
    A keepalive whose header was dropped: the bytes of its position are read as
    the next header, and below two to the 32 as a length of zero.
   */
  lemma {:induction false} HeaderDropped(walEnd: nat, rest: seq<byte>)
    requires U32(walEnd)
    ensures var s := [Tag('k')] + (BigEndian(walEnd, 8) + rest);
            ReadFrame(s) == Err(BadLength(0))
  {
    var s := [Tag('k')] + (BigEndian(walEnd, 8) + rest);
    HighZeros(walEnd);
    assert s[1..5] == BigEndian(walEnd, 8)[..4];
    ZeroUint(s[1..5]);
  }

  /** An idle timeout after which what is left does not begin with a frame, and the next read. */
  lemma {:induction false} BreaksNext(interval: nat, st: State, s: seq<byte>, at: Tick, taken: nat, e: ProtoError)
    requires at.writes && ReadFrame(Cut(s, taken)) == Err(e)
    ensures var turns := [Turn(at, [], false, Idle(at, taken)), Turn(at, [], false, Arrived(at))];
            var o := Turns(interval, st, s, turns);
            o.Over? && o.end == Broken(e) && o.st.events == st.events
  {
    var turns := [Turn(at, [], false, Idle(at, taken)), Turn(at, [], false, Arrived(at))];
    assert turns[1..] == [Turn(at, [], false, Arrived(at))];
    var o := OneTurn(interval, st, s, turns[0]);
    assert Turns(interval, st, s, turns) == Turns(interval, o.st, o.rest, turns[1..]);
    assert Turns(interval, o.st, o.rest, turns[1..]) == OneTurn(interval, o.st, o.rest, turns[1]);
  }

  lemma {:induction false} HighZeros(n: nat)
    requires U32(n)
    ensures forall i :: 0 <= i < 4 ==> BigEndian(n, 8)[i] == 0
  {
    var n1, n2, n3 := n / 256, n / 256 / 256, n / 256 / 256 / 256;
    assert BigEndian(n, 8) == BigEndian(n1, 7) + [(n % 256) as byte];
    assert BigEndian(n1, 7) == BigEndian(n2, 6) + [(n1 % 256) as byte];
    assert BigEndian(n2, 6) == BigEndian(n3, 5) + [(n2 % 256) as byte];
    assert BigEndian(n3, 5) == BigEndian(0, 4) + [(n3 % 256) as byte];
    ZeroBytes(4);
  }

  lemma {:induction false} ZeroBytes(w: nat)
    ensures forall i :: 0 <= i < w ==> BigEndian(0, w)[i] == 0
  {
    if w > 0 {
      ZeroBytes(w - 1);
    }
  }

  /** From the beginning: the events emitted are a beginning of those of the bytes, all of them if an error ended it. */
  lemma {:induction false} ExplainsPrefix(s: seq<byte>, o: Outcome)
    requires Explains([], s, o)
    ensures o.st.events <= WorkerRun(s).0
    ensures o.Over? && o.end.Broken? ==>
              && o.st.events == WorkerRun(s).0
              && (WorkerRun(s).1 == Failed(o.end.error) || (o.end.error == Eof && WorkerRun(s).1 == Drained))
  {
    assert [] + WorkerRun(s).0 == WorkerRun(s).0;
  }

  // ── Every request is answered ─────────────────────────────────────────────

  /** The keepalives of `s` that ask for a reply, up to an error. */
  function Requests(s: seq<byte>): nat
    decreases |s|
  {
    match ReadFrame(s)
    case Err(_) => 0
    case Ok((m, rest)) =>
      if m.tag == Tag('d') then
        if EventOf(m.payload).Err? then 0 else (if AsksReply(m.payload) then 1 else 0) + Requests(rest)
      else if m.tag == Tag('E') then 0
      else Requests(rest)
  }

  function Replies(sent: seq<Out>): nat {
    if sent == [] then 0
    else Replies(sent[..|sent| - 1]) + (if sent[|sent| - 1].Status? && sent[|sent| - 1].reply then 1 else 0)
  }

  lemma {:induction false} RepliesGrow(sent: seq<Out>, out: Out)
    ensures Replies(sent + [out]) == Replies(sent) + (if out.Status? && out.reply then 1 else 0)
  {
    assert (sent + [out])[..|sent|] == sent;
  }

  /** CopyDone is the last thing written when the loop was told to stop, and is not written otherwise. */
  ghost predicate DoneLast(o: Outcome) {
    if o.Over? && o.end.Stopped? then o.st.sent != [] && exists init :: o.st.sent == init + [CopyDone] && CopyDone !in init
    else CopyDone !in o.st.sent
  }

  /** With `replies` given so far and `s` to be read: one reply for each request that was read. */
  ghost predicate AnswersAll(replies: nat, s: seq<byte>, o: Outcome) {
    match o
    case Going(st, rest) => replies + Requests(s) == Replies(st.sent) + Requests(rest)
    case Over(st, Broken(_)) => Replies(st.sent) == replies + Requests(s)
    case Over(st, _) => Replies(st.sent) <= replies + Requests(s)
  }

  lemma {:induction false} PayloadAnswers(st: State, rest: seq<byte>, payload: seq<byte>, at: Tick)
    requires CopyDone !in st.sent
    ensures var o := OnPayload(st, rest, payload, at);
            var asked := if AsksReply(payload) then 1 else 0;
            && CopyDone !in o.st.sent
            && match o
               case Going(st', rest') =>
                 EventOf(payload).Ok? && rest' == rest && Replies(st'.sent) == Replies(st.sent) + asked
               case Over(st', end) =>
                 && Replies(st'.sent) == Replies(st.sent)
                 && (end == WriteFailed || (end.Broken? && asked == 0 && EventOf(payload).Err?))
  {
    RepliesGrow(st.sent, Status(at.applied, true));
  }

  lemma {:induction false} ReceiveAnswers(st: State, s: seq<byte>, at: Tick)
    requires CopyDone !in st.sent
    ensures AnswersAll(Replies(st.sent), s, Receive(st, s, at)) && CopyDone !in Receive(st, s, at).st.sent
    ensures Receive(st, s, at).Over? ==> !Receive(st, s, at).end.Stopped?
  {
    if ReadFrame(s).Ok? {
      var (m, rest) := ReadFrame(s).value;
      PayloadAnswers(st, rest, m.payload, at);
    }
  }

  lemma {:induction false} DrainAnswers(st: State, s: seq<byte>, moments: seq<Tick>)
    requires CopyDone !in st.sent
    ensures AnswersAll(Replies(st.sent), s, Drain(st, s, moments)) && CopyDone !in Drain(st, s, moments).st.sent
    ensures Drain(st, s, moments).Over? ==> !Drain(st, s, moments).end.Stopped?
    decreases |moments|
  {
    if moments != [] {
      ReceiveAnswers(st, s, moments[0]);
      match Receive(st, s, moments[0])
      case Over(_, _) =>
      case Going(st', rest') => DrainAnswers(st', rest', moments[1..]);
    }
  }

  lemma {:induction false} StopAnswers(st: State)
    requires CopyDone !in st.sent
    ensures DoneLast(Stop(st)) && Replies(Stop(st).st.sent) == Replies(st.sent)
  {
    RepliesGrow(st.sent, CopyDone);
    assert Stop(st).st.sent == st.sent + [CopyDone];
  }

  lemma {:induction false} WaitAnswers(st: State, s: seq<byte>, wait: Wait)
    requires CopyDone !in st.sent
    ensures DoneLast(AfterWait(st, s, wait))
    ensures DroppedAt(wait) == 0 ==> AnswersAll(Replies(st.sent), s, AfterWait(st, s, wait))
  {
    match wait
    case Signal(_, _) => StopAnswers(st);
    case Idle(at, _) => RepliesGrow(st.sent, Status(at.applied, false));
    case Arrived(at) => ReceiveAnswers(st, s, at);
  }

  lemma {:induction false} TurnAnswers(interval: nat, st: State, s: seq<byte>, turn: Turn)
    requires CopyDone !in st.sent
    ensures DoneLast(OneTurn(interval, st, s, turn))
    ensures Dropped(turn) == 0 ==> AnswersAll(Replies(st.sent), s, OneTurn(interval, st, s, turn))
  {
    RepliesGrow(st.sent, Status(turn.top.applied, false));
    match Top(interval, st, s, turn.top)
    case Over(_, _) =>
    case Going(st', _) =>
      if turn.buffered == [] {
        WaitAnswers(st', s, turn.wait);
      } else {
        DrainAnswers(st', s, Batch(turn));
        match Drain(st', s, Batch(turn))
        case Over(_, _) =>
        case Going(st2, _) => StopAnswers(st2);
      }
  }

  /**
    Whatever the turns, CopyDone ends a stopped session and is not written
    otherwise. If no turn drops the beginning of a message, every keepalive that
    was read and asks for a reply got one, and nothing else was marked as one.
   */
  lemma {:induction false} TurnsAnswer(interval: nat, st: State, s: seq<byte>, turns: seq<Turn>)
    requires CopyDone !in st.sent
    ensures DoneLast(Turns(interval, st, s, turns))
    ensures Whole(turns) ==> AnswersAll(Replies(st.sent), s, Turns(interval, st, s, turns))
    decreases |turns|
  {
    if turns != [] {
      TurnAnswers(interval, st, s, turns[0]);
      assert Whole(turns) ==> Dropped(turns[0]) == 0 && Whole(turns[1..]);
      match OneTurn(interval, st, s, turns[0])
      case Over(_, _) =>
      case Going(st', rest') => TurnsAnswer(interval, st', rest', turns[1..]);
    }
  }

  // ── The positions reported ────────────────────────────────────────────────

  /** The positions of the status updates, in order. */
  function Positions(sent: seq<Out>): seq<nat> {
    if sent == [] then []
    else
      var last := sent[|sent| - 1];
      Positions(sent[..|sent| - 1]) + (if last.Status? then [last.applied] else [])
  }

  lemma {:induction false} PositionsGrow(sent: seq<Out>, out: Out)
    ensures Positions(sent + [out]) == Positions(sent) + (if out.Status? then [out.applied] else [])
  {
    assert (sent + [out])[..|sent|] == sent;
  }

  /** The shared position at the moments of a turn. */
  function Loads(turn: Turn): seq<nat> {
    [turn.top.applied] + (if turn.buffered != [] then Applied(Batch(turn)) else AtWait(turn.wait))
  }

  function Applied(moments: seq<Tick>): seq<nat> {
    seq(|moments|, i requires 0 <= i < |moments| => moments[i].applied)
  }

  function AtWait(wait: Wait): seq<nat> {
    if wait.Signal? then [] else [wait.at.applied]
  }

  function AllLoads(turns: seq<Turn>): seq<nat> {
    if turns == [] then [] else Loads(turns[0]) + AllLoads(turns[1..])
  }

  /** The shared position never goes back; it was `from` before. */
  ghost predicate Rising(from: nat, loads: seq<nat>)
    decreases |loads|
  {
    loads == [] || (from <= loads[0] && Rising(loads[0], loads[1..]))
  }

  function LastOf(from: nat, loads: seq<nat>): nat {
    if loads == [] then from else loads[|loads| - 1]
  }

  lemma {:induction false} RisingSplits(from: nat, xs: seq<nat>, ys: seq<nat>)
    requires Rising(from, xs + ys)
    ensures Rising(from, xs) && Rising(LastOf(from, xs), ys)
    decreases |xs|
  {
    if xs == [] {
      assert xs + ys == ys;
    } else {
      assert (xs + ys)[1..] == xs[1..] + ys;
      RisingSplits(xs[0], xs[1..], ys);
    }
  }

  /** The worker's copy of the position and its reports are those of the feedback system. */
  ghost predicate Follows(st: State, f: Progress.Feedback) {
    f.lastApplied == st.lastApplied && f.reports == Positions(st.sent)
  }

  /** Some steps of the feedback system lead from `f` to where the worker is, the shared position being `shared`. */
  ghost predicate Feeds(f: Progress.Feedback, o: Outcome, shared: nat) {
    exists steps :: Follows(o.st, Progress.Run(f, steps)) && (o.Going? ==> Progress.Run(f, steps).shared == shared)
  }

  lemma {:induction false} FeedsBy(f: Progress.Feedback, steps: seq<Progress.FeedbackStep>, o: Outcome, shared: nat)
    requires Follows(o.st, Progress.Run(f, steps)) && (o.Going? ==> Progress.Run(f, steps).shared == shared)
    ensures Feeds(f, o, shared)
  {
  }

  /** What leads on from the state that was reached leads there from the start. */
  lemma {:induction false} FeedsOn(f: Progress.Feedback, steps: seq<Progress.FeedbackStep>, o: Outcome, shared: nat)
    requires Feeds(Progress.Run(f, steps), o, shared)
    ensures Feeds(f, o, shared)
  {
    var more :| Follows(o.st, Progress.Run(Progress.Run(f, steps), more)) &&
                (o.Going? ==> Progress.Run(Progress.Run(f, steps), more).shared == shared);
    Progress.RunAppend(f, steps, more);
    FeedsBy(f, steps + more, o, shared);
  }

  lemma {:induction false} RunOne(f: Progress.Feedback, x: Progress.FeedbackStep, rest: seq<Progress.FeedbackStep>)
    ensures Progress.Run(f, [x] + rest) == Progress.Run(Progress.Next(f, x), rest)
  {
    assert ([x] + rest)[1..] == rest;
  }

  /** The session has moved the position to `a`; the worker has loaded it; it reports it. */
  lemma {:induction false} FirstSteps(f: Progress.Feedback, a: nat)
    requires f.shared <= a
    ensures Progress.Run(f, [Progress.Advance(a)]) == f.(shared := a)
    ensures Progress.Run(f, [Progress.Advance(a)] + [Progress.Sync]) == f.(shared := a, lastApplied := a)
    ensures Progress.Run(f, [Progress.Advance(a)] + [Progress.Fresh]) ==
            Progress.Feedback(a, a, f.reports + [a], f.atSend + [a])
    ensures Progress.Run(f, [Progress.Advance(a)] + ([Progress.Sync] + [Progress.Periodic])) ==
            Progress.Feedback(a, a, f.reports + [a], f.atSend + [a])
  {
    var g := f.(shared := a);
    assert [Progress.Advance(a)] + [] == [Progress.Advance(a)];
    RunOne(f, Progress.Advance(a), []);
    RunOne(f, Progress.Advance(a), [Progress.Sync]);
    RunOne(f, Progress.Advance(a), [Progress.Fresh]);
    RunOne(f, Progress.Advance(a), [Progress.Sync] + [Progress.Periodic]);
    assert [Progress.Sync] + [] == [Progress.Sync] && [Progress.Fresh] + [] == [Progress.Fresh];
    assert [Progress.Periodic] + [] == [Progress.Periodic];
    RunOne(g, Progress.Sync, []);
    RunOne(g, Progress.Fresh, []);
    RunOne(g, Progress.Sync, [Progress.Periodic]);
    RunOne(g.(lastApplied := a), Progress.Periodic, []);
  }

  lemma {:induction false} ReceiveFeeds(st: State, s: seq<byte>, at: Tick, f: Progress.Feedback)
    requires Follows(st, f) && f.shared <= at.applied
    ensures Feeds(f, Receive(st, s, at), at.applied)
  {
    var a := at.applied;
    FirstSteps(f, a);
    PositionsGrow(st.sent, Status(a, true));
    if ReadFrame(s).Ok? && ReadFrame(s).value.0.tag == Tag('d') && AsksReply(ReadFrame(s).value.0.payload) {
      if at.writes {
        FeedsBy(f, [Progress.Advance(a)] + [Progress.Fresh], Receive(st, s, at), a);
      } else {
        FeedsBy(f, [Progress.Advance(a)] + [Progress.Sync], Receive(st, s, at), a);
      }
    } else {
      FeedsBy(f, [Progress.Advance(a)], Receive(st, s, at), a);
    }
  }

  lemma {:induction false} TopFeeds(interval: nat, st: State, s: seq<byte>, at: Tick, f: Progress.Feedback)
    requires Follows(st, f) && f.shared <= at.applied
    ensures Feeds(f, Top(interval, st, s, at), at.applied)
  {
    var a := at.applied;
    FirstSteps(f, a);
    PositionsGrow(st.sent, Status(a, false));
    if at.now - st.lastStatus >= interval && at.writes {
      FeedsBy(f, [Progress.Advance(a)] + ([Progress.Sync] + [Progress.Periodic]), Top(interval, st, s, at), a);
    } else {
      FeedsBy(f, [Progress.Advance(a)] + [Progress.Sync], Top(interval, st, s, at), a);
    }
  }

  lemma {:induction false} StopFeeds(st: State, f: Progress.Feedback, shared: nat)
    requires Follows(st, f)
    ensures Feeds(f, Stop(st), shared)
  {
    PositionsGrow(st.sent, CopyDone);
    FeedsBy(f, [], Stop(st), shared);
  }

  lemma {:induction false} WaitFeeds(st: State, s: seq<byte>, wait: Wait, f: Progress.Feedback)
    requires Follows(st, f) && Rising(f.shared, AtWait(wait))
    ensures Feeds(f, AfterWait(st, s, wait), LastOf(f.shared, AtWait(wait)))
  {
    match wait
    case Signal(stop, _) =>
      if stop {
        StopFeeds(st, f, f.shared);
      } else {
        FeedsBy(f, [], AfterWait(st, s, wait), f.shared);
      }
    case Idle(at, _) =>
      FirstSteps(f, at.applied);
      PositionsGrow(st.sent, Status(at.applied, false));
      var o := AfterWait(st, s, wait);
      if at.writes {
        FeedsBy(f, [Progress.Advance(at.applied)] + [Progress.Fresh], o, at.applied);
      } else {
        FeedsBy(f, [Progress.Advance(at.applied)] + [Progress.Sync], o, at.applied);
      }
    case Arrived(at) => ReceiveFeeds(st, s, at, f);
  }

  lemma {:induction false} DrainFeeds(st: State, s: seq<byte>, moments: seq<Tick>, f: Progress.Feedback)
    requires Follows(st, f) && Rising(f.shared, Applied(moments))
    ensures Feeds(f, Drain(st, s, moments), LastOf(f.shared, Applied(moments)))
    decreases |moments|
  {
    if moments == [] {
      FeedsBy(f, [], Drain(st, s, moments), f.shared);
    } else {
      var a := moments[0].applied;
      assert Applied(moments)[0] == a && Applied(moments)[1..] == Applied(moments[1..]);
      ReceiveFeeds(st, s, moments[0], f);
      var o := Receive(st, s, moments[0]);
      var steps :| Follows(o.st, Progress.Run(f, steps)) && (o.Going? ==> Progress.Run(f, steps).shared == a);
      match o
      case Over(_, _) => FeedsBy(f, steps, Drain(st, s, moments), LastOf(f.shared, Applied(moments)));
      case Going(st', rest') =>
        DrainFeeds(st', rest', moments[1..], Progress.Run(f, steps));
        FeedsOn(f, steps, Drain(st, s, moments), LastOf(f.shared, Applied(moments)));
    }
  }

  lemma {:induction false} RestFeeds(st: State, s: seq<byte>, turn: Turn, f: Progress.Feedback, loads: seq<nat>)
    requires Follows(st, f) && loads == (if turn.buffered != [] then Applied(Batch(turn)) else AtWait(turn.wait))
    requires Rising(f.shared, loads)
    ensures Feeds(f, AfterTop(st, s, turn), LastOf(f.shared, loads))
  {
    if turn.buffered == [] {
      WaitFeeds(st, s, turn.wait, f);
    } else {
      DrainFeeds(st, s, Batch(turn), f);
      var o := Drain(st, s, Batch(turn));
      if o.Going? && turn.stop {
        var steps :| Follows(o.st, Progress.Run(f, steps));
        StopFeeds(o.st, Progress.Run(f, steps), LastOf(f.shared, loads));
        FeedsOn(f, steps, Stop(o.st), LastOf(f.shared, loads));
      }
    }
  }

  lemma {:induction false} TurnFeeds(interval: nat, st: State, s: seq<byte>, turn: Turn, f: Progress.Feedback)
    requires Follows(st, f) && Rising(f.shared, Loads(turn))
    ensures Feeds(f, OneTurn(interval, st, s, turn), LastOf(f.shared, Loads(turn)))
  {
    var a := turn.top.applied;
    var loads := if turn.buffered != [] then Applied(Batch(turn)) else AtWait(turn.wait);
    assert Loads(turn)[0] == a && Loads(turn)[1..] == loads;
    TopFeeds(interval, st, s, turn.top, f);
    var o := Top(interval, st, s, turn.top);
    var steps :| Follows(o.st, Progress.Run(f, steps)) && (o.Going? ==> Progress.Run(f, steps).shared == a);
    match o
    case Over(_, _) => FeedsBy(f, steps, OneTurn(interval, st, s, turn), LastOf(f.shared, Loads(turn)));
    case Going(st', _) =>
      RestFeeds(st', s, turn, Progress.Run(f, steps), loads);
      FeedsOn(f, steps, OneTurn(interval, st, s, turn), LastOf(f.shared, Loads(turn)));
  }

  /** The stream loop is a run of the feedback system. */
  lemma {:induction false} TurnsFeed(interval: nat, st: State, s: seq<byte>, turns: seq<Turn>, f: Progress.Feedback)
    requires Follows(st, f) && Rising(f.shared, AllLoads(turns))
    ensures Feeds(f, Turns(interval, st, s, turns), LastOf(f.shared, AllLoads(turns)))
    decreases |turns|
  {
    var last := LastOf(f.shared, AllLoads(turns));
    if turns == [] {
      FeedsBy(f, [], Turns(interval, st, s, turns), last);
    } else {
      RisingSplits(f.shared, Loads(turns[0]), AllLoads(turns[1..]));
      TurnFeeds(interval, st, s, turns[0], f);
      var o := OneTurn(interval, st, s, turns[0]);
      var mid := LastOf(f.shared, Loads(turns[0]));
      var steps :| Follows(o.st, Progress.Run(f, steps)) && (o.Going? ==> Progress.Run(f, steps).shared == mid);
      match o
      case Over(_, _) => FeedsBy(f, steps, Turns(interval, st, s, turns), last);
      case Going(st', rest') =>
        TurnsFeed(interval, st', rest', turns[1..], Progress.Run(f, steps));
        FeedsOn(f, steps, Turns(interval, st, s, turns), last);
    }
  }

  /** The worker's reports are those of a run of the feedback system, with what was shared when each was sent. */
  ghost predicate Reports(sent: seq<Out>, start: nat) {
    exists f: Progress.Feedback :: f.reports == Positions(sent) && Progress.Honest(f) && RunsTo(start, f)
  }

  ghost predicate RunsTo(start: nat, f: Progress.Feedback) {
    exists steps :: Progress.Run(Progress.Feedback(start, start, [], []), steps) == f
  }

  /**
    In every run of the worker the positions of the status updates never go
    back, and each is at most what the shared position was when it was sent.
   */
  lemma {:induction false} StatusesInOrder(interval: nat, s: seq<byte>, applied: nat, now: nat, turns: seq<Turn>)
    requires Rising(applied, AllLoads(turns))
    ensures var sent := Turns(interval, Fresh(applied, now - interval), s, turns).st.sent;
            && (forall i, j :: 0 <= i < j < |Positions(sent)| ==> Positions(sent)[i] <= Positions(sent)[j])
            && Reports(sent, applied)
  {
    var st, f := Fresh(applied, now - interval), Progress.Feedback(applied, applied, [], []);
    TurnsFeed(interval, st, s, turns, f);
    var o := Turns(interval, st, s, turns);
    var steps :| Follows(o.st, Progress.Run(f, steps));
    Progress.ReportsAreMonotone(f, steps);
    assert RunsTo(applied, Progress.Run(f, steps));
  }
}
