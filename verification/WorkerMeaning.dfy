/** What the worker writes and when: every report, every reply, and what it reads in between. */
module WorkerMeaning {
  import opened Wrappers
  import opened Bytes
  import opened Proto
  import opened Worker

  /** A keepalive whose last byte asks for a reply. */
  predicate Asks(m: BackendMessage) {
    m.tag == Tag('d') && |m.payload| >= 18 && m.payload[0] == Tag('k') && m.payload[17] != 0
  }

  /** `rest` is what follows the first `n` frames of `s`. */
  ghost predicate Past(s: seq<byte>, n: nat, rest: seq<byte>) {
    if n == 0 then rest == s else ReadFrame(s).Ok? && Past(ReadFrame(s).value.1, n - 1, rest)
  }

  /** One reply, with the position shared at its moment, for each request among the first frames of `s`. */
  function RepliesTo(s: seq<byte>, moments: seq<Tick>): seq<Out>
    decreases |moments|
  {
    if moments == [] || ReadFrame(s).Err? then []
    else
      var (m, rest) := ReadFrame(s).value;
      (if Asks(m) then [Status(moments[0].applied, true)] else []) + RepliesTo(rest, moments[1..])
  }

  lemma {:induction false} ReceivesOne(st: State, s: seq<byte>, at: Tick)
    ensures var o := Receive(st, s, at);
            o.Going? ==> ReadFrame(s).Ok? && o.rest == ReadFrame(s).value.1 && o.st.sent == st.sent + RepliesTo(s, [at])
    ensures var o := Receive(st, s, at);
            o.Going? ==> o.st.lastStatus == if ReadFrame(s).Ok? && Asks(ReadFrame(s).value.0) then at.later else st.lastStatus
  {
    if ReadFrame(s).Ok? {
      var (m, rest) := ReadFrame(s).value;
      assert RepliesTo(rest, [at][1..]) == [];
      assert m.tag == Tag('d') ==> (AsksReply(m.payload) <==> Asks(m)) by {
        assert |m.payload| >= 18 ==> m.payload[1..][16] == m.payload[17];
      }
    }
  }

  /** No moment lies before `now`, and none goes on before it begins. */
  ghost predicate From(now: nat, moments: seq<Tick>) {
    forall i :: 0 <= i < |moments| ==> now <= moments[i].later
  }

  lemma {:induction false} RepliesJoin(s: seq<byte>, moments: seq<Tick>)
    requires moments != [] && ReadFrame(s).Ok?
    ensures RepliesTo(s, moments) == RepliesTo(s, [moments[0]]) + RepliesTo(ReadFrame(s).value.1, moments[1..])
  {
    var (m, rest) := ReadFrame(s).value;
    assert RepliesTo(rest, [moments[0]][1..]) == [];
  }

  lemma {:induction false} DrainsBatch(st: State, s: seq<byte>, moments: seq<Tick>)
    ensures var o := Drain(st, s, moments);
            o.Going? ==> Past(s, |moments|, o.rest) && o.st.sent == st.sent + RepliesTo(s, moments)
    decreases |moments|
  {
    if moments == [] {
      assert st.sent + [] == st.sent;
    } else {
      ReceivesOne(st, s, moments[0]);
      var first := Receive(st, s, moments[0]);
      if first.Going? {
        DrainsBatch(first.st, first.rest, moments[1..]);
        RepliesJoin(s, moments);
        Assoc(st.sent, RepliesTo(s, [moments[0]]), RepliesTo(first.rest, moments[1..]));
      }
    }
  }

  lemma {:induction false} DrainStatus(st: State, s: seq<byte>, moments: seq<Tick>)
    ensures var o := Drain(st, s, moments);
            o.Going? ==> o.st.lastStatus == st.lastStatus || exists i :: 0 <= i < |moments| && o.st.lastStatus == moments[i].later
    decreases |moments|
  {
    if moments != [] {
      ReceivesOne(st, s, moments[0]);
      var first := Receive(st, s, moments[0]);
      if first.Going? {
        DrainStatus(first.st, first.rest, moments[1..]);
        assert forall i :: 0 <= i < |moments[1..]| ==> moments[1..][i] == moments[i + 1];
      }
    }
  }

  /** A status update is due: the interval has passed since the last one. */
  predicate Due(interval: nat, lastStatus: int, now: nat) {
    now >= lastStatus + interval
  }

  /**
    What a turn writes after its top: replies to what was buffered, at most 256
    messages; or the reply to what arrived; or a report when idle.
   */
  function Writes(s: seq<byte>, turn: Turn): seq<Out> {
    if turn.buffered != [] then
      RepliesTo(s, if |turn.buffered| <= 256 then turn.buffered else turn.buffered[..256])
    else
      match turn.wait
      case Signal(_, _) => []
      case Arrived(at) => RepliesTo(s, [at])
      case Idle(at, _) => [Status(at.applied, false)]
  }

  /** What it has read by then. */
  ghost predicate Reads(s: seq<byte>, turn: Turn, rest: seq<byte>) {
    if turn.buffered != [] then Past(s, if |turn.buffered| <= 256 then |turn.buffered| else 256, rest)
    else
      match turn.wait
      case Signal(_, taken) => exists n: nat :: n <= taken && n <= |s| && rest == s[n..]
      case Arrived(_) => Past(s, 1, rest)
      case Idle(_, taken) => exists n: nat :: n <= taken && n <= |s| && rest == s[n..]
  }

  /**
    A turn after which the loop goes on: a report at its top exactly when one
    was due, with the position shared at that moment, and then what it read and
    wrote. It was not told to stop.
   */
  lemma {:induction false} TurnExactly(interval: nat, st: State, s: seq<byte>, turn: Turn)
    requires OneTurn(interval, st, s, turn).Going?
    ensures var o := OneTurn(interval, st, s, turn);
            && o.st.sent == st.sent
                 + (if Due(interval, st.lastStatus, turn.top.now) then [Status(turn.top.applied, false)] else [])
                 + Writes(s, turn)
            && Reads(s, turn, o.rest)
            && (turn.buffered != [] ==> !turn.stop) && (turn.buffered == [] && turn.wait.Signal? ==> !turn.wait.stop)
  {
    var top := Top(interval, st, s, turn.top);
    assert top.st.sent == st.sent + (if Due(interval, st.lastStatus, turn.top.now) then [Status(turn.top.applied, false)] else []);
    if turn.buffered != [] {
      DrainsBatch(top.st, s, Batch(turn));
      assert |turn.buffered| <= 256 ==> turn.buffered[..|turn.buffered|] == turn.buffered;
    } else {
      match turn.wait
      case Signal(_, taken) => assert Cut(s, taken) == s[Min(taken, Pending(s))..];
      case Arrived(at) =>
        ReceivesOne(top.st, s, at);
        assert Past(ReadFrame(s).value.1, 0, ReadFrame(s).value.1);
      case Idle(at, taken) => assert Cut(s, taken) == s[Min(taken, Pending(s))..];
    }
  }

  /** The moments at which a turn may write. */
  function Moments(turn: Turn): seq<Tick> {
    [turn.top] + turn.buffered + (if turn.wait.Signal? then [] else [turn.wait.at])
  }

  /** Whatever the turn, when the loop goes on less than the interval has passed between its top and the last status update. */
  lemma {:induction false} NeverSilent(interval: nat, st: State, s: seq<byte>, turn: Turn)
    requires interval > 0 && From(turn.top.now, Moments(turn)) && OneTurn(interval, st, s, turn).Going?
    ensures !Due(interval, OneTurn(interval, st, s, turn).st.lastStatus, turn.top.now)
  {
    var top := Top(interval, st, s, turn.top);
    var ms := Moments(turn);
    assert ms[0] == turn.top;
    assert !Due(interval, top.st.lastStatus, turn.top.now);
    if turn.buffered != [] {
      DrainStatus(top.st, s, Batch(turn));
      assert forall i :: 0 <= i < |Batch(turn)| ==> Batch(turn)[i] == ms[i + 1];
    } else if !turn.wait.Signal? {
      assert ms[1] == turn.wait.at;
      if turn.wait.Arrived? {
        ReceivesOne(top.st, s, turn.wait.at);
      }
    }
  }

  /** The loop stops exactly when a turn that wrote and read all it should is told to; CopyDone comes last. */
  lemma {:induction false} StopsExactly(interval: nat, st: State, s: seq<byte>, turn: Turn)
    requires OneTurn(interval, st, s, turn) == Over(OneTurn(interval, st, s, turn).st, Stopped)
    ensures (if turn.buffered != [] then turn.stop else turn.wait.Signal? && turn.wait.stop)
    ensures OneTurn(interval, st, s, turn).st.sent == st.sent
              + (if Due(interval, st.lastStatus, turn.top.now) then [Status(turn.top.applied, false)] else [])
              + Writes(s, turn) + [CopyDone]
  {
    var top := Top(interval, st, s, turn.top);
    if turn.buffered != [] {
      DrainEnds(top.st, s, Batch(turn));
      DrainsBatch(top.st, s, Batch(turn));
      assert |turn.buffered| <= 256 ==> turn.buffered[..|turn.buffered|] == turn.buffered;
    } else {
      assert top.st.sent + [] == top.st.sent;
    }
  }

  /** Otherwise it ends only when a write failed or a message is broken. */
  lemma {:induction false} FailsOnly(interval: nat, st: State, s: seq<byte>, turn: Turn)
    requires OneTurn(interval, st, s, turn).Over? && OneTurn(interval, st, s, turn).end != Stopped
    ensures var end := OneTurn(interval, st, s, turn).end;
            end.Broken? || (end == WriteFailed && exists i :: 0 <= i < |Moments(turn)| && !Moments(turn)[i].writes)
  {
    var top := Top(interval, st, s, turn.top);
    assert Moments(turn)[0] == turn.top;
    if top.Going? {
      if turn.buffered != [] {
        DrainEnds(top.st, s, Batch(turn));
        assert forall i :: 0 <= i < |Batch(turn)| ==> Batch(turn)[i] == Moments(turn)[i + 1];
      } else if !turn.wait.Signal? {
        assert Moments(turn)[1] == turn.wait.at;
      }
    }
  }

  lemma {:induction false} DrainEnds(st: State, s: seq<byte>, moments: seq<Tick>)
    ensures var o := Drain(st, s, moments);
            o.Over? ==>
              o.end.Broken? || (o.end == WriteFailed && exists i :: 0 <= i < |moments| && !moments[i].writes)
    decreases |moments|
  {
    if moments != [] {
      var first := Receive(st, s, moments[0]);
      if first.Going? {
        DrainEnds(first.st, first.rest, moments[1..]);
        assert forall i :: 0 <= i < |moments[1..]| ==> moments[1..][i] == moments[i + 1];
      }
    }
  }
}
