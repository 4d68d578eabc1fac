/**
  The consume command beside its broker, as a step system: messages are
  published and delivered at any time, channels die, settlements may or may
  not land, the sweeper runs, the clock moves, and the process may die.
 */
module Broker {
  import opened Wrappers
  import opened Dedupe
  import opened Consume

  /** A sink send that succeeded, and when its message's id was recorded. */
  datatype Delivered = Delivered(sent: Sent, recordAt: nat)

  /**
    `ready`, `unacked` and `gone` are the broker's; `buffer` holds what the
    client has been handed and not yet taken. `failures` records every
    message that failed, with the stage.
   */
  datatype World = World(
    clock: nat, published: set<Msg>, ready: set<Msg>, unacked: set<Msg>, gone: set<Msg>,
    up: bool, alive: bool, buffer: set<Msg>, seen: Option<Seen>,
    sends: seq<Delivered>, failures: seq<(Msg, Stage)>)

  datatype Action =
    | Publish(m: Msg)
    | Connect
    | Deliver(m: Msg)                           // the broker hands a message to the client
    | ChannelDies                               // unacked messages return to the queue
    | Take(m: Msg, a: Answers, landed: bool)    // the session handles a message
    | End                                       // shutdown, closed consumer or receive error
    | SweeperRuns(now: nat)
    | Crash                                     // the process dies between messages
    | CrashAfterSend(m: Msg, a: Answers)        // or before it has recorded or settled one

  function Init(cfg: Config): World {
    World(0, {}, {}, {}, {}, false, false, {}, if cfg.idempotent then Some(map[]) else None, [], [])
  }

  /** Time does not run backwards. */
  predicate Timely(clock: nat, a: Answers) {
    && clock <= a.checkAt <= a.sentAt <= a.recordAt
    && (forall k :: 0 <= k < |a.sweptBefore| ==> a.sweptBefore[k] <= a.checkAt)
    && (forall k :: 0 <= k < |a.sweptBetween| ==> a.sweptBetween[k] <= a.recordAt)
  }

  predicate Enabled(w: World, act: Action) {
    match act
    case Publish(m) => m !in w.published
    case Connect => !w.up
    case Deliver(m) => w.up && w.alive && m in w.ready
    case ChannelDies => w.alive
    case Take(m, a, _) => w.up && m in w.buffer && Timely(w.clock, a)
    case End => w.up
    case SweeperRuns(now) => w.clock <= now
    case Crash => true
    case CrashAfterSend(m, a) => w.up && m in w.buffer && Timely(w.clock, a)
  }

  function ChannelClosed(w: World): World {
    w.(ready := w.ready + w.unacked, unacked := {}, alive := false)
  }

  function Ended(w: World): World {
    ChannelClosed(w).(up := false, buffer := {})
  }

  /** A settlement takes effect only while the broker still counts the message as unacked. */
  function Settled(w: World, call: Call, landed: bool): World {
    if !landed || call.msg !in w.unacked then w
    else if call.Nack? && call.requeue then w.(unacked := w.unacked - {call.msg}, ready := w.ready + {call.msg})
    else w.(unacked := w.unacked - {call.msg}, gone := w.gone + {call.msg})
  }

  /** What the sink and the log of failures gain from a handled message. */
  function Noted(w: World, h: Handled, m: Msg, recordAt: nat): World {
    w.(sends := w.sends + (if h.sent.Some? then [Delivered(h.sent.value, recordAt)] else []),
       failures := w.failures + (if h.failed.Some? then [(m, h.failed.value)] else []))
  }

  function Taken(w: World, h: Handled, m: Msg, a: Answers, landed: bool): World {
    var w1 := Noted(w, h, m, a.recordAt).(clock := a.recordAt, buffer := w.buffer - {m}, seen := h.seen);
    var w2 := Settled(w1, h.settle, landed);
    if h.flow.Continue? then w2 else Ended(w2)
  }

  function Apply(cfg: Config, w: World, act: Action): World {
    match act
    case Publish(m) => w.(published := w.published + {m}, ready := w.ready + {m})
    case Connect => w.(up := true, alive := true)
    case Deliver(m) => w.(ready := w.ready - {m}, unacked := w.unacked + {m}, buffer := w.buffer + {m})
    case ChannelDies => ChannelClosed(w)
    case Take(m, a, landed) => Taken(w, Handle(cfg, w.seen, m, a), m, a, landed)
    case End => Ended(w)
    case SweeperRuns(now) => w.(clock := now, seen := SweptIn(cfg, w.seen, [now]))
    case Crash => Ended(w).(seen := Init(cfg).seen)
    case CrashAfterSend(m, a) =>
      var h := Handle(cfg, w.seen, m, a);
      Ended(Noted(w, h.(failed := None), m, a.recordAt)).(clock := a.recordAt, seen := Init(cfg).seen)
  }

  function RunAll(cfg: Config, w: World, acts: seq<Action>): Option<World>
    decreases |acts|
  {
    if acts == [] then Some(w)
    else if !Enabled(w, acts[0]) then None
    else RunAll(cfg, Apply(cfg, w, acts[0]), acts[1..])
  }

  // ── Conservation ──────────────────────────────────────────────────────────

  /** Every published message is in exactly one place. */
  ghost predicate Conserved(w: World) {
    && w.published == w.ready + w.unacked + w.gone
    && w.ready !! w.unacked && w.ready !! w.gone && w.unacked !! w.gone
    && w.buffer <= w.published && (w.up || w.unacked == {}) && (w.alive || w.unacked == {})
  }

  ghost predicate Accepted(w: World, m: Msg) {
    exists k :: 0 <= k < |w.sends| && w.sends[k].sent.msg == m
  }

  ghost predicate SameIdAccepted(w: World, m: Msg) {
    m.id.Some? && exists k :: 0 <= k < |w.sends| && w.sends[k].sent.msg.id == m.id
  }

  ghost predicate Unusable(w: World, m: Msg) {
    exists k :: 0 <= k < |w.failures| && w.failures[k].0 == m && w.failures[k].1 != Stage.Sink
  }

  /** Why a message may leave the broker. */
  ghost predicate Accounted(cfg: Config, w: World, m: Msg) {
    Accepted(w, m) || SameIdAccepted(w, m) || (cfg.onError.Lenient? && Unusable(w, m))
  }

  /** What is remembered was accepted. */
  ghost predicate SeenWasSent(seen: Option<Seen>, sends: seq<Delivered>) {
    seen.Some? ==>
      forall id <- seen.value :: exists k :: 0 <= k < |sends| && sends[k].sent.msg.id == Some(id) &&
                                             sends[k].recordAt == seen.value[id]
  }

  ghost predicate Inv(cfg: Config, w: World) {
    && Conserved(w)
    && (forall m <- w.gone :: Accounted(cfg, w, m))
    && SeenWasSent(w.seen, w.sends)
  }

  /** What handling one message can come to. */
  lemma {:induction false} HandledOutcomes(cfg: Config, seen: Option<Seen>, m: Msg, a: Answers)
    requires forall k :: 0 <= k < |a.sweptBefore| ==> a.sweptBefore[k] <= a.checkAt
    ensures var h := Handle(cfg, seen, m, a);
            && h.settle.msg == m && !h.settle.Received?
            && (h.sent.Some? ==> h.sent.value.msg == m && h.settle.Ack? && h.failed.None?)
            && (h.sent.None? && h.settle.Ack? ==> m.id.Some? && seen.Some? && m.id.value in seen.value)
            && (h.settle.Nack? ==> h.failed.Some?)
            && (h.settle.Nack? && !h.settle.requeue ==> cfg.onError.Lenient? && h.failed.value != Stage.Sink)
  {
    if seen.Some? && m.id.Some? {
      SweepsKeep(cfg.ttl, seen.value, a.sweptBefore, m.id.value, a.checkAt);
    }
  }

  /** Handling a message remembers at most its own id, and only after a send. */
  lemma {:induction false} HandledSeen(cfg: Config, seen: Option<Seen>, m: Msg, a: Answers, id: string)
    requires seen.Some? && Handle(cfg, seen, m, a).seen.Some? && id in Handle(cfg, seen, m, a).seen.value
    ensures var h := Handle(cfg, seen, m, a);
            || (id in seen.value && h.seen.value[id] == seen.value[id])
            || (h.sent.Some? && m.id == Some(id) && h.seen.value[id] == a.recordAt)
  {
    var latest := LatestOf(a.sweptBefore, a.checkAt);
    SweepsKeep(cfg.ttl, seen.value, a.sweptBefore, id, latest);
    var swept := SweepAll(cfg.ttl, seen.value, a.sweptBefore);
    var checked := Checked(cfg, Some(swept), m, a.checkAt).value;
    SweepsKeep(cfg.ttl, checked, a.sweptBetween, id, LatestOf(a.sweptBetween, 0));
  }

  function LatestOf(times: seq<nat>, floor: nat): (t: nat)
    ensures floor <= t && forall k :: 0 <= k < |times| ==> times[k] <= t
  {
    if times == [] then floor
    else
      var t := LatestOf(times[1..], Max(floor, times[0]));
      assert forall k :: 1 <= k < |times| ==> times[k] == times[1..][k - 1];
      t
  }

  ghost predicate Extends(w: World, w': World) {
    w.sends <= w'.sends && w.failures <= w'.failures
  }

  lemma {:induction false} AccountedStays(cfg: Config, w: World, w': World, m: Msg)
    requires Extends(w, w') && Accounted(cfg, w, m)
    ensures Accounted(cfg, w', m)
  {
    if Accepted(w, m) {
      var k :| 0 <= k < |w.sends| && w.sends[k].sent.msg == m;
      assert w'.sends[k].sent.msg == m;
    } else if SameIdAccepted(w, m) {
      var k :| 0 <= k < |w.sends| && w.sends[k].sent.msg.id == m.id;
      assert w'.sends[k].sent.msg.id == m.id;
    } else {
      var k :| 0 <= k < |w.failures| && w.failures[k].0 == m && w.failures[k].1 != Stage.Sink;
      assert w'.failures[k].0 == m;
    }
  }

  lemma {:induction false} SeenStaysSent(seen: Option<Seen>, seen': Option<Seen>, sends: seq<Delivered>)
    requires SeenWasSent(seen, sends) && seen.Some? == seen'.Some?
    requires seen.Some? ==> forall id <- seen'.value :: id in seen.value && seen'.value[id] == seen.value[id]
    ensures SeenWasSent(seen', sends)
  {
  }

  /** The sweeper drops entries and changes none. */
  lemma {:induction false} SweptSeen(cfg: Config, w: World, now: nat)
    requires w.seen.Some?
    ensures SweptIn(cfg, w.seen, [now]) == Some(Sweep(cfg.ttl, w.seen.value, now))
    ensures SeenWasSent(w.seen, w.sends) ==> SeenWasSent(SweptIn(cfg, w.seen, [now]), w.sends)
  {
    assert [now][1..] == [];
    assert SweepAll(cfg.ttl, Sweep(cfg.ttl, w.seen.value, now), []) == Sweep(cfg.ttl, w.seen.value, now);
    if SeenWasSent(w.seen, w.sends) {
      SeenStaysSent(w.seen, SweptIn(cfg, w.seen, [now]), w.sends);
    }
  }

  /** A settlement that takes a message off the broker is accounted for. */
  lemma {:induction false} SettledAccounted(cfg: Config, w: World, m: Msg, a: Answers)
    requires Inv(cfg, w) && Timely(w.clock, a)
    ensures var h := Handle(cfg, w.seen, m, a);
            h.settle.Ack? || !h.settle.requeue ==> Accounted(cfg, Noted(w, h, m, a.recordAt), m)
  {
    var h := Handle(cfg, w.seen, m, a);
    var w' := Noted(w, h, m, a.recordAt);
    HandledOutcomes(cfg, w.seen, m, a);
    if h.sent.Some? {
      assert w'.sends[|w.sends|].sent.msg == m;
    } else if h.settle.Ack? {
      var k :| 0 <= k < |w.sends| && w.sends[k].sent.msg.id == m.id;
      assert w'.sends[k].sent.msg.id == m.id;
    } else if !h.settle.requeue {
      assert w'.failures[|w.failures|] == (m, h.failed.value);
    }
  }

  lemma {:induction false} TakenConserved(w: World, h: Handled, m: Msg, a: Answers, landed: bool)
    requires Conserved(w) && h.settle.msg == m && w.up && m in w.buffer
    ensures Conserved(Taken(w, h, m, a, landed))
  {
  }

  lemma {:induction false} TakenSeen(cfg: Config, w: World, m: Msg, a: Answers)
    requires SeenWasSent(w.seen, w.sends) && Timely(w.clock, a)
    ensures var h := Handle(cfg, w.seen, m, a); SeenWasSent(h.seen, Noted(w, h, m, a.recordAt).sends)
  {
    var h := Handle(cfg, w.seen, m, a);
    var sends := Noted(w, h, m, a.recordAt).sends;
    if w.seen.Some? {
      forall id | id in h.seen.value
        ensures exists k :: 0 <= k < |sends| && sends[k].sent.msg.id == Some(id) && sends[k].recordAt == h.seen.value[id]
      {
        HandledSeen(cfg, w.seen, m, a, id);
        if id in w.seen.value && h.seen.value[id] == w.seen.value[id] {
          var k :| 0 <= k < |w.sends| && w.sends[k].sent.msg.id == Some(id) && w.sends[k].recordAt == w.seen.value[id];
          assert sends[k] == w.sends[k];
        } else {
          HandledOutcomes(cfg, w.seen, m, a);
          assert sends[|w.sends|] == Delivered(h.sent.value, a.recordAt);
        }
      }
    }
  }

  lemma {:induction false} TakenAccounted(cfg: Config, w: World, h: Handled, m: Msg, a: Answers, landed: bool)
    requires Inv(cfg, w) && h.settle.msg == m
    requires (h.settle.Nack? && h.settle.requeue) || Accounted(cfg, Noted(w, h, m, a.recordAt), m)
    ensures var w' := Taken(w, h, m, a, landed); forall n <- w'.gone :: Accounted(cfg, w', n)
  {
    var noted := Noted(w, h, m, a.recordAt);
    var w' := Taken(w, h, m, a, landed);
    assert w'.sends == noted.sends && w'.failures == noted.failures;
    forall n | n in w'.gone ensures Accounted(cfg, w', n) {
      AccountedStays(cfg, if n in w.gone then w else noted, w', n);
    }
  }

  lemma {:induction false} TakenInv(cfg: Config, w: World, m: Msg, a: Answers, landed: bool)
    requires Inv(cfg, w) && w.up && m in w.buffer && Timely(w.clock, a)
    ensures Inv(cfg, Apply(cfg, w, Take(m, a, landed)))
  {
    var h := Handle(cfg, w.seen, m, a);
    HandledOutcomes(cfg, w.seen, m, a);
    SettledAccounted(cfg, w, m, a);
    TakenConserved(w, h, m, a, landed);
    TakenAccounted(cfg, w, h, m, a, landed);
    TakenSeen(cfg, w, m, a);
  }

  lemma {:induction false} CrashInv(cfg: Config, w: World, m: Msg, a: Answers)
    requires Inv(cfg, w)
    ensures Inv(cfg, Apply(cfg, w, Crash)) && Inv(cfg, Apply(cfg, w, CrashAfterSend(m, a)))
  {
    forall act, n | act in {Crash, CrashAfterSend(m, a)} && n in w.gone ensures Accounted(cfg, Apply(cfg, w, act), n) {
      AccountedStays(cfg, w, Apply(cfg, w, act), n);
    }
  }

  lemma {:induction false} SweptInv(cfg: Config, w: World, now: nat)
    requires Inv(cfg, w)
    ensures Inv(cfg, Apply(cfg, w, SweeperRuns(now)))
  {
    if w.seen.Some? {
      SweptSeen(cfg, w, now);
    }
    forall m | m in w.gone ensures Accounted(cfg, Apply(cfg, w, SweeperRuns(now)), m) {
      AccountedStays(cfg, w, Apply(cfg, w, SweeperRuns(now)), m);
    }
  }

  lemma {:induction false} StepInv(cfg: Config, w: World, act: Action)
    requires Inv(cfg, w) && Enabled(w, act)
    ensures Inv(cfg, Apply(cfg, w, act))
  {
    match act
    case Take(m, a, landed) => TakenInv(cfg, w, m, a, landed);
    case Crash => CrashInv(cfg, w, Msg(0, None, ""), Answers([], 0, (q, v) => None, 0, false, [], 0, false));
    case CrashAfterSend(m, a) => CrashInv(cfg, w, m, a);
    case SweeperRuns(now) =>
      SweptInv(cfg, w, now);
    case _ =>
      forall n | n in w.gone ensures Accounted(cfg, Apply(cfg, w, act), n) {
        AccountedStays(cfg, w, Apply(cfg, w, act), n);
      }
  }

  lemma {:induction false} RunInv(cfg: Config, w: World, acts: seq<Action>)
    requires Inv(cfg, w) && RunAll(cfg, w, acts).Some?
    ensures Inv(cfg, RunAll(cfg, w, acts).value)
    decreases |acts|
  {
    if acts != [] {
      StepInv(cfg, w, acts[0]);
      RunInv(cfg, Apply(cfg, w, acts[0]), acts[1..]);
    }
  }

  /**
    In every run nothing published is lost or doubled by the broker, and what
    left it was accepted by the sink, or shares its id with something that was,
    or, in lenient mode only, failed to parse, to name a query or to compose.
   */
  lemma {:induction false} NothingLeavesUnseen(cfg: Config, acts: seq<Action>)
    requires RunAll(cfg, Init(cfg), acts).Some?
    ensures var w := RunAll(cfg, Init(cfg), acts).value;
            Conserved(w) && forall m <- w.gone :: Accounted(cfg, w, m)
  {
    RunInv(cfg, Init(cfg), acts);
  }

  // ── Dedupe ────────────────────────────────────────────────────────────────

  /** Sends so far, as the clock and the remembered ids reflect them. */
  ghost predicate Reflected(ttl: nat, clock: nat, seen: Seen, sends: seq<Delivered>) {
    forall k :: 0 <= k < |sends| ==>
      sends[k].sent.at <= sends[k].recordAt <= clock &&
      (sends[k].sent.msg.id.Some? ==>
         || sends[k].recordAt + ttl < clock
         || (sends[k].sent.msg.id.value in seen && sends[k].recordAt <= seen[sends[k].sent.msg.id.value]))
  }

  /** Two sends of one id lie more than the time to live apart. */
  ghost predicate Spaced(ttl: nat, sends: seq<Delivered>) {
    forall i, j :: 0 <= i < j < |sends| && sends[i].sent.msg.id.Some? && sends[i].sent.msg.id == sends[j].sent.msg.id ==>
      sends[i].recordAt + ttl < sends[j].sent.at
  }

  ghost predicate DedupeInv(cfg: Config, w: World) {
    w.seen.Some? && SeenWasSent(w.seen, w.sends) && Reflected(cfg.ttl, w.clock, w.seen.value, w.sends) && Spaced(cfg.ttl, w.sends)
  }

  ghost predicate SentWithin(cfg: Config, sends: seq<Delivered>, m: Msg, now: nat) {
    m.id.Some? &&
    exists k :: 0 <= k < |sends| && sends[k].sent.msg.id == m.id && now <= sends[k].recordAt + cfg.ttl
  }

  lemma {:induction false} DuplicateThen(cfg: Config, w: World, m: Msg, now: nat)
    requires DedupeInv(cfg, w) && w.clock <= now
    ensures IsDuplicate(cfg, w.seen, m, now) <==> SentWithin(cfg, w.sends, m, now)
  {
    if IsDuplicate(cfg, w.seen, m, now) {
      var k :| 0 <= k < |w.sends| && w.sends[k].sent.msg.id == m.id && w.sends[k].recordAt == w.seen.value[m.id.value];
    }
  }

  /** What is remembered at the end of handling is still there, no older than before. */
  lemma {:induction false} HandledKeeps(cfg: Config, seen: Option<Seen>, m: Msg, a: Answers, id: string, clock: nat)
    requires seen.Some? && Timely(clock, a)
    requires Remembers(cfg.ttl, seen.value, id, a.recordAt) && seen.value[id] <= a.recordAt
    ensures var s := Handle(cfg, seen, m, a).seen; s.Some? && id in s.value && seen.value[id] <= s.value[id]
  {
    SweepsKeep(cfg.ttl, seen.value, a.sweptBefore, id, a.recordAt);
    var checked := Checked(cfg, SweptIn(cfg, seen, a.sweptBefore), m, a.checkAt).value;
    SweepsKeep(cfg.ttl, checked, a.sweptBetween, id, a.recordAt);
  }

  /**
    Handling sends only an id that was not sent within the time to live, and
    remembers it from then on; other ids stay remembered as long as they count.
   */
  ghost predicate Fresh(cfg: Config, seen: Seen, h: Handled, m: Msg, a: Answers) {
    && h.seen.Some?
    && (h.sent.Some? ==>
          && h.sent.value.msg == m && h.sent.value.at == a.sentAt
          && (m.id.Some? ==> !Remembers(cfg.ttl, seen, m.id.value, a.checkAt) &&
                             m.id.value in h.seen.value && h.seen.value[m.id.value] == a.recordAt))
    && (forall id :: Remembers(cfg.ttl, seen, id, a.recordAt) && seen[id] <= a.recordAt ==>
          id in h.seen.value && seen[id] <= h.seen.value[id])
  }

  lemma {:induction false} HandledFresh(cfg: Config, seen: Option<Seen>, m: Msg, a: Answers, clock: nat)
    requires seen.Some? && Timely(clock, a)
    ensures Fresh(cfg, seen.value, Handle(cfg, seen, m, a), m, a)
  {
    if m.id.Some? {
      SweepsKeep(cfg.ttl, seen.value, a.sweptBefore, m.id.value, a.checkAt);
    }
    forall id | Remembers(cfg.ttl, seen.value, id, a.recordAt) && seen.value[id] <= a.recordAt
      ensures id in Handle(cfg, seen, m, a).seen.value && seen.value[id] <= Handle(cfg, seen, m, a).seen.value[id]
    {
      HandledKeeps(cfg, seen, m, a, id, clock);
    }
  }

  /** A message whose send failed is not suppressed by that attempt: nothing new is remembered. */
  lemma {:induction false} FailureNotRemembered(cfg: Config, seen: Option<Seen>, m: Msg, a: Answers, id: string, now: nat)
    requires seen.Some? && Handle(cfg, seen, m, a).sent.None? && Handle(cfg, seen, m, a).seen.Some?
    ensures Remembers(cfg.ttl, Handle(cfg, seen, m, a).seen.value, id, now) ==> Remembers(cfg.ttl, seen.value, id, now)
  {
    if id in Handle(cfg, seen, m, a).seen.value {
      HandledSeen(cfg, seen, m, a, id);
    }
  }

  /** No id is remembered from the future. */
  ghost predicate Past(seen: Seen, clock: nat) {
    forall id <- seen :: seen[id] <= clock
  }

  lemma {:induction false} SeenIsPast(cfg: Config, w: World)
    requires DedupeInv(cfg, w)
    ensures Past(w.seen.value, w.clock)
  {
    forall id | id in w.seen.value ensures w.seen.value[id] <= w.clock {
      var k :| 0 <= k < |w.sends| && w.sends[k].sent.msg.id == Some(id) && w.sends[k].recordAt == w.seen.value[id];
    }
  }

  lemma {:induction false} SentReflected(cfg: Config, clock: nat, seen: Seen, sends: seq<Delivered>, h: Handled,
      m: Msg, a: Answers)
    requires Reflected(cfg.ttl, clock, seen, sends) && Past(seen, clock)
    requires Timely(clock, a) && Fresh(cfg, seen, h, m, a)
    ensures Reflected(cfg.ttl, a.recordAt, h.seen.value, sends)
    ensures h.sent.Some? ==> Reflected(cfg.ttl, a.recordAt, h.seen.value, sends + [Delivered(h.sent.value, a.recordAt)])
  {
    forall k | 0 <= k < |sends| && sends[k].sent.msg.id.Some?
      ensures var id := sends[k].sent.msg.id.value;
              || sends[k].recordAt + cfg.ttl < a.recordAt
              || (id in h.seen.value && sends[k].recordAt <= h.seen.value[id])
    {
      var id := sends[k].sent.msg.id.value;
      if a.recordAt <= sends[k].recordAt + cfg.ttl {
        assert Remembers(cfg.ttl, seen, id, a.recordAt);
      }
    }
  }

  lemma {:induction false} SentSpaced(cfg: Config, clock: nat, seen: Seen, sends: seq<Delivered>, h: Handled, m: Msg,
      a: Answers)
    requires Reflected(cfg.ttl, clock, seen, sends) && Spaced(cfg.ttl, sends)
    requires Timely(clock, a) && Fresh(cfg, seen, h, m, a) && h.sent.Some?
    ensures Spaced(cfg.ttl, sends + [Delivered(h.sent.value, a.recordAt)])
  {
  }

  lemma {:induction false} TakenFields(w: World, h: Handled, m: Msg, a: Answers, landed: bool)
    ensures var w' := Taken(w, h, m, a, landed);
            && w'.sends == (if h.sent.Some? then w.sends + [Delivered(h.sent.value, a.recordAt)] else w.sends)
            && w'.seen == h.seen && w'.clock == a.recordAt
  {
    assert w.sends + [] == w.sends;
  }

  lemma {:induction false} TakenDedupeOf(cfg: Config, w: World, h: Handled, m: Msg, a: Answers, landed: bool)
    requires DedupeInv(cfg, w) && Timely(w.clock, a) && Fresh(cfg, w.seen.value, h, m, a)
    requires SeenWasSent(h.seen, Noted(w, h, m, a.recordAt).sends)
    ensures DedupeInv(cfg, Taken(w, h, m, a, landed))
  {
    SeenIsPast(cfg, w);
    SentReflected(cfg, w.clock, w.seen.value, w.sends, h, m, a);
    if h.sent.Some? {
      SentSpaced(cfg, w.clock, w.seen.value, w.sends, h, m, a);
    }
    TakenFields(w, h, m, a, landed);
  }

  lemma {:induction false} TakenDedupe(cfg: Config, w: World, m: Msg, a: Answers, landed: bool)
    requires DedupeInv(cfg, w) && Timely(w.clock, a)
    ensures DedupeInv(cfg, Apply(cfg, w, Take(m, a, landed)))
  {
    HandledFresh(cfg, w.seen, m, a, w.clock);
    TakenSeen(cfg, w, m, a);
    TakenDedupeOf(cfg, w, Handle(cfg, w.seen, m, a), m, a, landed);
  }

  lemma {:induction false} StepDedupe(cfg: Config, w: World, act: Action)
    requires DedupeInv(cfg, w) && Enabled(w, act) && !act.Crash? && !act.CrashAfterSend?
    ensures DedupeInv(cfg, Apply(cfg, w, act))
  {
    match act
    case Take(m, a, landed) =>
      TakenDedupe(cfg, w, m, a, landed);
    case SweeperRuns(now) =>
      SweptSeen(cfg, w, now);
    case _ =>
  }

  lemma {:induction false} RunDedupe(cfg: Config, w: World, acts: seq<Action>)
    requires DedupeInv(cfg, w) && RunAll(cfg, w, acts).Some?
    requires forall i :: 0 <= i < |acts| ==> !acts[i].Crash? && !acts[i].CrashAfterSend?
    ensures DedupeInv(cfg, RunAll(cfg, w, acts).value)
    decreases |acts|
  {
    if acts != [] {
      StepDedupe(cfg, w, acts[0]);
      RunDedupe(cfg, Apply(cfg, w, acts[0]), acts[1..]);
    }
  }

  /**
    In idempotent mode, while the process lives, two accepted sends of one
    message id are more than the time to live apart, across any number of
    reconnects and redeliveries and wherever the sweeper runs.
   */
  lemma {:induction false} SendsSpaced(cfg: Config, acts: seq<Action>)
    requires cfg.idempotent && RunAll(cfg, Init(cfg), acts).Some?
    requires forall i :: 0 <= i < |acts| ==> !acts[i].Crash? && !acts[i].CrashAfterSend?
    ensures Spaced(cfg.ttl, RunAll(cfg, Init(cfg), acts).value.sends)
  {
    RunDedupe(cfg, Init(cfg), acts);
  }

  /**
    In such a run a message is taken for a duplicate exactly when a message
    with its id was accepted within the time to live.
   */
  lemma {:induction false} DuplicateExactly(cfg: Config, acts: seq<Action>, m: Msg, now: nat)
    requires cfg.idempotent && RunAll(cfg, Init(cfg), acts).Some?
    requires forall i :: 0 <= i < |acts| ==> !acts[i].Crash? && !acts[i].CrashAfterSend?
    requires RunAll(cfg, Init(cfg), acts).value.clock <= now
    ensures var w := RunAll(cfg, Init(cfg), acts).value;
            IsDuplicate(cfg, w.seen, m, now) <==> SentWithin(cfg, w.sends, m, now)
  {
    RunDedupe(cfg, Init(cfg), acts);
    DuplicateThen(cfg, RunAll(cfg, Init(cfg), acts).value, m, now);
  }

  /** A crash forgets: whatever was sent before, a redelivered message that composes is sent again. */
  lemma {:induction false} CrashForgets(cfg: Config, w: World, m: Msg, a: Answers)
    requires Document(cfg, m, a.compose).Ok? && a.sinkOk && Timely(w.clock, a)
    ensures Handle(cfg, Apply(cfg, w, Crash).seen, m, a).sent.Some?
  {
    if cfg.idempotent && m.id.Some? {
      SweepsKeep(cfg.ttl, map[], a.sweptBefore, m.id.value, a.checkAt);
    }
  }
}
