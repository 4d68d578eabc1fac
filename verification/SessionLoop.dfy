/** Running sessions until shutdown, a fatal error, or too many failures in a row. */
module SessionLoop {
  import opened Wrappers
  import opened Backoff

  datatype Exit = Reconnect | ReconnectAfterHealthy | Shutdown | Fatal

  /** `wait` gives the wait after a number of failures, for a random draw. */
  datatype Config = Config(maxAttempts: nat, wait: (nat, nat) -> nat)

  function Reconnecting(maxAttempts: nat, baseMs: nat, maxMs: nat): Config {
    Config(maxAttempts, (failures, random) => Delay(failures, baseMs, maxMs, random))
  }

  /** One turn of the loop: whether shutdown came during the wait before it, the draw for that wait, and how the session ended. */
  datatype Turn = Turn(stopped: bool, random: nat, exit: Exit)

  /** `Waiting`: the turns are used up and the loop would go on. */
  datatype Outcome = Clean | Failed | GaveUp | Waiting(failures: nat)

  /** The failure counter is 32 bits wide. */
  function Count(failures: nat, exit: Exit): nat {
    if exit.Reconnect? then (failures + 1) % 0x1_0000_0000 else 1
  }

  predicate Exhausted(cfg: Config, failures: nat) {
    failures > 0 && cfg.maxAttempts != 0 && failures >= cfg.maxAttempts
  }

  /** How a run ends, after how many sessions, and the waits between them. */
  datatype Summary = Summary(outcome: Outcome, sessions: nat, waits: seq<nat>)

  function After(sessions: nat, waits: seq<nat>, rest: Summary): Summary {
    Summary(rest.outcome, sessions + rest.sessions, waits + rest.waits)
  }

  function WaitFor(cfg: Config, failures: nat, turn: Turn): seq<nat> {
    if failures > 0 then [cfg.wait(failures, turn.random)] else []
  }

  function RunOn(cfg: Config, failures: nat, turns: seq<Turn>): Summary
    decreases |turns|
  {
    if Exhausted(cfg, failures) then Summary(GaveUp, 0, [])
    else if turns == [] then Summary(Waiting(failures), 0, [])
    else
      var wait := WaitFor(cfg, failures, turns[0]);
      if failures > 0 && turns[0].stopped then Summary(Clean, 0, wait)
      else
        match turns[0].exit
        case Shutdown => Summary(Clean, 1, wait)
        case Fatal => Summary(Failed, 1, wait)
        case _ => After(1, wait, RunOn(cfg, Count(failures, turns[0].exit), turns[1..]))
  }

  lemma {:induction false} AfterTwice(m: nat, xs: seq<nat>, n: nat, ys: seq<nat>, rest: Summary)
    ensures After(m, xs, After(n, ys, rest)) == After(m + n, xs + ys, rest)
  {
    assert xs + (ys + rest.waits) == xs + ys + rest.waits;
  }

  /** One turn: the wait, unless this is the first, and the session, unless shutdown came first. */
  method RunTurn(cfg: Config, failures: nat, turn: Turn) returns (ended: Option<Outcome>, ran: bool, wait: seq<nat>)
    ensures wait == WaitFor(cfg, failures, turn)
    ensures ran <==> !(failures > 0 && turn.stopped)
    ensures !ran ==> ended == Some(Clean)
    ensures ran ==> ended == match turn.exit case Shutdown => Some(Clean) case Fatal => Some(Failed) case _ => None
  {
    wait := [];
    if failures > 0 {
      wait := [cfg.wait(failures, turn.random)];
      if turn.stopped {
        return Some(Clean), false, wait;
      }
    }
    ran := true;
    match turn.exit
    case Reconnect => ended := None;
    case ReconnectAfterHealthy => ended := None;
    case Shutdown => ended := Some(Clean);
    case Fatal => ended := Some(Failed);
  }

  lemma {:induction false} TurnGoesOn(cfg: Config, failures: nat, turns: seq<Turn>, sessions: nat, waits: seq<nat>)
    requires !Exhausted(cfg, failures) && turns != [] && GoesOn(failures == 0, turns[0])
    ensures After(sessions, waits, RunOn(cfg, failures, turns))
         == After(sessions + 1, waits + WaitFor(cfg, failures, turns[0]), RunOn(cfg, Count(failures, turns[0].exit), turns[1..]))
  {
    AfterTwice(sessions, waits, 1, WaitFor(cfg, failures, turns[0]), RunOn(cfg, Count(failures, turns[0].exit), turns[1..]));
  }

  lemma {:induction false} TurnEnds(cfg: Config, failures: nat, turns: seq<Turn>)
    requires !Exhausted(cfg, failures) && turns != [] && !GoesOn(failures == 0, turns[0])
    ensures RunOn(cfg, failures, turns) == Summary(
              if failures > 0 && turns[0].stopped then Clean else if turns[0].exit.Shutdown? then Clean else Failed,
              if failures > 0 && turns[0].stopped then 0 else 1, WaitFor(cfg, failures, turns[0]))
  {
  }

  method Run(cfg: Config, turns: seq<Turn>) returns (outcome: Outcome, sessions: nat, waits: seq<nat>)
    ensures Summary(outcome, sessions, waits) == RunOn(cfg, 0, turns)
  {
    var consecutiveFailures: nat := 0;
    sessions, waits := 0, [];
    assert turns[0..] == turns;
    while true
      invariant sessions <= |turns|
      invariant RunOn(cfg, 0, turns) == After(sessions, waits, RunOn(cfg, consecutiveFailures, turns[sessions..]))
      decreases |turns| - sessions
    {
      ghost var left := turns[sessions..];
      if consecutiveFailures > 0 {
        var infinite := cfg.maxAttempts == 0;
        if !infinite && consecutiveFailures >= cfg.maxAttempts {
          assert waits + [] == waits;
          return GaveUp, sessions, waits;
        }
      }
      if sessions == |turns| {
        assert waits + [] == waits;
        return Waiting(consecutiveFailures), sessions, waits;
      }
      var ended, ran, wait := RunTurn(cfg, consecutiveFailures, turns[sessions]);
      if ended.Some? {
        TurnEnds(cfg, consecutiveFailures, left);
        return ended.value, if ran then sessions + 1 else sessions, waits + wait;
      }
      TurnGoesOn(cfg, consecutiveFailures, left, sessions, waits);
      assert left[1..] == turns[sessions + 1..];
      consecutiveFailures := if turns[sessions].exit.Reconnect? then (consecutiveFailures + 1) % 0x1_0000_0000 else 1;
      sessions, waits := sessions + 1, waits + wait;
    }
  }

  // ── When it gives up ──────────────────────────────────────────────────────

  /** A turn after which the loop goes on. */
  predicate GoesOn(first: bool, turn: Turn) {
    (first || !turn.stopped) && (turn.exit.Reconnect? || turn.exit.ReconnectAfterHealthy?)
  }

  /** The failures in a row at the end of some turns: those since the last healthy session, which itself counts as one. */
  function Streak(turns: seq<Turn>): nat {
    if turns == [] then 0
    else if turns[|turns| - 1].exit.ReconnectAfterHealthy? then 1
    else Streak(turns[..|turns| - 1]) + 1
  }

  /** All go on, and before the last of them the streak had not reached the limit. */
  ghost predicate Lasts(limit: nat, turns: seq<Turn>) {
    && (forall i :: 0 <= i < |turns| ==> GoesOn(i == 0, turns[i]))
    && (forall k :: 0 <= k < |turns| ==> Streak(turns[..k]) < limit)
  }

  /** What is left of a run after `k` sessions, counting from the streak. */
  function Rest(cfg: Config, turns: seq<Turn>, k: nat): Summary
    requires k <= |turns|
  {
    RunOn(cfg, Streak(turns[..k]), turns[k..])
  }

  lemma {:induction false} StreakNext(turns: seq<Turn>, k: nat)
    requires k < |turns| && (turns[k].exit.Reconnect? ==> Streak(turns[..k]) + 1 < 0x1_0000_0000)
    requires turns[k].exit.Reconnect? || turns[k].exit.ReconnectAfterHealthy?
    ensures Streak(turns[..k + 1]) == Count(Streak(turns[..k]), turns[k].exit)
  {
    StreakStarts(turns[..k]);
    assert turns[..k + 1][..k] == turns[..k];
  }

  lemma {:induction false} RestNext(cfg: Config, turns: seq<Turn>, k: nat)
    requires 0 < cfg.maxAttempts && k < |turns| && GoesOn(k == 0, turns[k]) && Streak(turns[..k]) < cfg.maxAttempts
    requires Streak(turns[..k + 1]) == Count(Streak(turns[..k]), turns[k].exit)
    ensures Rest(cfg, turns, k).outcome == Rest(cfg, turns, k + 1).outcome
    ensures Rest(cfg, turns, k).sessions == 1 + Rest(cfg, turns, k + 1).sessions
  {
    StreakStarts(turns[..k]);
    assert turns[k..][0] == turns[k] && turns[k..][1..] == turns[k + 1..];
  }

  /** As long as it lasts, the counter is the streak. */
  lemma {:induction false} CounterIsStreak(cfg: Config, turns: seq<Turn>, k: nat)
    requires 0 < cfg.maxAttempts < 0x1_0000_0000
    requires k <= |turns| && Lasts(cfg.maxAttempts, turns[..k])
    ensures RunOn(cfg, 0, turns).outcome == Rest(cfg, turns, k).outcome
    ensures RunOn(cfg, 0, turns).sessions == k + Rest(cfg, turns, k).sessions
    decreases k
  {
    if k == 0 {
      assert turns[0..] == turns;
    } else {
      LastsShorter(cfg.maxAttempts, turns, k - 1);
      CounterIsStreak(cfg, turns, k - 1);
      StreakNext(turns, k - 1);
      RestNext(cfg, turns, k - 1);
    }
  }

  lemma {:induction false} LastsShorter(limit: nat, turns: seq<Turn>, j: nat)
    requires j < |turns| && Lasts(limit, turns[..j + 1])
    ensures Lasts(limit, turns[..j]) && GoesOn(j == 0, turns[j]) && Streak(turns[..j]) < limit
  {
    var longer := turns[..j + 1];
    assert longer[..j] == turns[..j] && longer[j] == turns[j];
    forall i | 0 <= i < j ensures GoesOn(i == 0, turns[..j][i]) && Streak(turns[..j][..i]) < limit {
      assert turns[..j][i] == longer[i] && turns[..j][..i] == longer[..i];
    }
  }

  lemma {:induction false} StreakStarts(turns: seq<Turn>)
    ensures Streak(turns) > 0 <==> turns != []
    ensures Streak(turns) <= |turns|
  {
    if turns != [] {
      StreakStarts(turns[..|turns| - 1]);
    }
  }

  /**
    With a limit, the loop gives up after `k` sessions exactly when those all
    went on and end in a streak that is the first to reach the limit.
   */
  lemma {:induction false} GivesUpExactly(cfg: Config, turns: seq<Turn>, k: nat)
    requires 0 < cfg.maxAttempts < 0x1_0000_0000
    ensures Ended(RunOn(cfg, 0, turns), GaveUp, k) <==>
            k <= |turns| && Lasts(cfg.maxAttempts, turns[..k]) && Streak(turns[..k]) == cfg.maxAttempts
  {
    if k <= |turns| && Lasts(cfg.maxAttempts, turns[..k]) && Streak(turns[..k]) == cfg.maxAttempts {
      CounterIsStreak(cfg, turns, k);
    }
    if Ended(RunOn(cfg, 0, turns), GaveUp, k) {
      GaveUpLasts(cfg, turns, 0);
    }
  }

  predicate Ended(s: Summary, outcome: Outcome, sessions: nat) {
    s.outcome == outcome && s.sessions == sessions
  }

  lemma {:induction false} LastsLonger(limit: nat, turns: seq<Turn>, j: nat)
    requires j < |turns| && Lasts(limit, turns[..j]) && GoesOn(j == 0, turns[j]) && Streak(turns[..j]) < limit
    ensures Lasts(limit, turns[..j + 1])
  {
    var next := turns[..j + 1];
    assert next[..j] == turns[..j];
    forall i | 0 <= i < j + 1 ensures GoesOn(i == 0, next[i]) && Streak(next[..i]) < limit {
      if i < j {
        assert next[i] == turns[..j][i] && next[..i] == turns[..j][..i];
      }
    }
  }

  lemma {:induction false} GaveUpLasts(cfg: Config, turns: seq<Turn>, j: nat)
    requires 0 < cfg.maxAttempts < 0x1_0000_0000
    requires j <= |turns| && Lasts(cfg.maxAttempts, turns[..j]) && Streak(turns[..j]) <= cfg.maxAttempts
    requires RunOn(cfg, 0, turns).outcome == GaveUp
    ensures var k := RunOn(cfg, 0, turns).sessions;
            k <= |turns| && Lasts(cfg.maxAttempts, turns[..k]) && Streak(turns[..k]) == cfg.maxAttempts
    decreases |turns| - j
  {
    CounterIsStreak(cfg, turns, j);
    StreakStarts(turns[..j]);
    if Streak(turns[..j]) < cfg.maxAttempts {
      assert j < |turns|;
      assert turns[j..][0] == turns[j];
      LastsLonger(cfg.maxAttempts, turns, j);
      assert turns[..j + 1][..j] == turns[..j];
      GaveUpLasts(cfg, turns, j + 1);
    }
  }

  /** After a healthy session that dropped, the loop runs at most one session fewer than the limit before it gives up. */
  lemma {:induction false} HealthyBudget(cfg: Config, turns: seq<Turn>, h: nat)
    requires 0 < cfg.maxAttempts < 0x1_0000_0000
    requires h + cfg.maxAttempts <= |turns| && turns[h].exit.ReconnectAfterHealthy?
    requires forall i :: h < i < h + cfg.maxAttempts ==> turns[i].exit.Reconnect?
    ensures RunOn(cfg, 0, turns).sessions <= h + cfg.maxAttempts
    ensures RunOn(cfg, 0, turns).outcome == GaveUp && RunOn(cfg, 0, turns).sessions > h ==> RunOn(cfg, 0, turns).sessions == h + cfg.maxAttempts
  {
    var outcome, k := RunOn(cfg, 0, turns).outcome, RunOn(cfg, 0, turns).sessions;
    if k > h + cfg.maxAttempts {
      SessionsLast(cfg, turns, 0);
      assert turns[..k][..h + cfg.maxAttempts] == turns[..h + cfg.maxAttempts];
      StreakAfter(turns, h, cfg.maxAttempts);
      assert false;
    }
    if outcome == GaveUp && k > h {
      GivesUpExactly(cfg, turns, k);
      StreakAfter(turns, h, k - h);
    }
  }

  lemma {:induction false} StreakAfter(turns: seq<Turn>, h: nat, m: nat)
    requires m > 0 && h + m <= |turns| && turns[h].exit.ReconnectAfterHealthy?
    requires forall i :: h < i < h + m ==> turns[i].exit.Reconnect?
    ensures Streak(turns[..h + m]) == m
    decreases m
  {
    var s := turns[..h + m];
    if m > 1 {
      StreakAfter(turns, h, m - 1);
      assert s[..|s| - 1] == turns[..h + m - 1];
      assert s[|s| - 1] == turns[h + m - 1];
    }
  }

  /** The streak stays under the limit before every session that runs. */
  lemma {:induction false} SessionsLast(cfg: Config, turns: seq<Turn>, j: nat)
    requires 0 < cfg.maxAttempts < 0x1_0000_0000
    requires j <= |turns| && Lasts(cfg.maxAttempts, turns[..j])
    ensures j <= RunOn(cfg, 0, turns).sessions <= |turns|
    ensures forall i :: j <= i < RunOn(cfg, 0, turns).sessions ==> Streak(turns[..i]) < cfg.maxAttempts
    decreases |turns| - j
  {
    CounterIsStreak(cfg, turns, j);
    StreakStarts(turns[..j]);
    if j < |turns| && Streak(turns[..j]) < cfg.maxAttempts {
      assert turns[j..][0] == turns[j];
      if GoesOn(j == 0, turns[j]) {
        LastsLonger(cfg.maxAttempts, turns, j);
        SessionsLast(cfg, turns, j + 1);
      }
    }
  }

  // ── How long it waits ─────────────────────────────────────────────────────

  /** The counter never has to count further than it can. */
  ghost predicate Countable(cfg: Config, turns: seq<Turn>) {
    cfg.maxAttempts < 0x1_0000_0000 &&
    (cfg.maxAttempts == 0 ==> forall k :: 0 <= k <= |turns| ==> Streak(turns[..k]) < 0x1_0000_0000)
  }

  /** The wait before turn `t`. */
  function WaitBefore(cfg: Config, turns: seq<Turn>, t: nat): nat
    requires t < |turns|
  {
    cfg.wait(Streak(turns[..t]), turns[t].random)
  }

  /** The waits before turn `first` and those after it, as far as they go. */
  ghost predicate WaitsFrom(cfg: Config, turns: seq<Turn>, first: nat, waits: seq<nat>) {
    && (waits != [] ==> first + |waits| <= |turns|)
    && forall t :: first <= t < first + |waits| ==> waits[t - first] == WaitBefore(cfg, turns, t)
  }

  lemma {:induction false} WaitsGrow(cfg: Config, turns: seq<Turn>, first: nat, rest: seq<nat>)
    requires first < |turns| && WaitsFrom(cfg, turns, first + 1, rest)
    ensures WaitsFrom(cfg, turns, first, [WaitBefore(cfg, turns, first)] + rest)
  {
    var waits := [WaitBefore(cfg, turns, first)] + rest;
    forall t | first <= t < first + |waits| ensures waits[t - first] == WaitBefore(cfg, turns, t) {
      if t > first {
        assert rest[t - (first + 1)] == WaitBefore(cfg, turns, t);
      }
    }
  }

  /** Before the first turn there is no wait. */
  lemma {:induction false} RestWaits(cfg: Config, turns: seq<Turn>, k: nat)
    requires Countable(cfg, turns) && k <= |turns|
    ensures WaitsFrom(cfg, turns, Max(k, 1), Rest(cfg, turns, k).waits)
    decreases |turns| - k
  {
    StreakStarts(turns[..k]);
    if k < |turns| && !Exhausted(cfg, Streak(turns[..k])) {
      assert turns[k..][0] == turns[k];
      if GoesOn(k == 0, turns[k]) {
        if turns[k].exit.Reconnect? {
          StreakBounded(cfg, turns, k);
        }
        StreakNext(turns, k);
        RestWaits(cfg, turns, k + 1);
        assert turns[k..][1..] == turns[k + 1..];
        if k > 0 {
          WaitsGrow(cfg, turns, k, Rest(cfg, turns, k + 1).waits);
        } else {
          assert [] + Rest(cfg, turns, 1).waits == Rest(cfg, turns, 1).waits;
        }
      }
    }
  }

  lemma {:induction false} StreakBounded(cfg: Config, turns: seq<Turn>, k: nat)
    requires Countable(cfg, turns) && k < |turns| && !Exhausted(cfg, Streak(turns[..k]))
    requires turns[k].exit.Reconnect?
    ensures Streak(turns[..k]) + 1 < 0x1_0000_0000
  {
    assert turns[..k + 1][..k] == turns[..k];
    StreakStarts(turns[..k]);
    if cfg.maxAttempts == 0 {
      assert Streak(turns[..k + 1]) < 0x1_0000_0000;
    }
  }

  /**
    Every wait of a run with the exponential backoff: it is within a fifth of
    the base doubled once for each failure in a row but the first, capped, and
    never above the cap.
   */
  lemma {:induction false} WaitsBounded(maxAttempts: nat, baseMs: nat, maxMs: nat, turns: seq<Turn>, j: nat)
    requires Countable(Reconnecting(maxAttempts, baseMs, maxMs), turns) && maxMs <= 0x4000_0000_0000_0000
    requires j < |RunOn(Reconnecting(maxAttempts, baseMs, maxMs), 0, turns).waits|
    ensures var wait := RunOn(Reconnecting(maxAttempts, baseMs, maxMs), 0, turns).waits[j];
            j + 1 < |turns| && Streak(turns[..j + 1]) > 0 &&
            var ideal := Min(Product(baseMs, Pow2(Streak(turns[..j + 1]) - 1)), maxMs);
            ideal - ideal / 5 <= wait <= Min(ideal + ideal / 5, maxMs)
  {
    var cfg := Reconnecting(maxAttempts, baseMs, maxMs);
    assert turns[0..] == turns;
    RestWaits(cfg, turns, 0);
    StreakStarts(turns[..j + 1]);
    var n := Streak(turns[..j + 1]);
    assert RunOn(cfg, 0, turns).waits[j] == WaitBefore(cfg, turns, j + 1);
    BaseIsIdeal(n, baseMs, maxMs);
    JitterBounds(Base(n, baseMs, maxMs), turns[j + 1].random);
  }

  // ── How a run ends ────────────────────────────────────────────────────────

  predicate LimitReached(cfg: Config, turns: seq<Turn>, k: nat)
    requires k <= |turns|
  {
    cfg.maxAttempts > 0 && Streak(turns[..k]) >= cfg.maxAttempts
  }

  /** The first `k` turns all ran and the loop went on after each. */
  ghost predicate Lasted(cfg: Config, turns: seq<Turn>, k: nat) {
    k <= |turns| && forall i: nat :: i < k ==> GoesOn(i == 0, turns[i]) && !LimitReached(cfg, turns, i)
  }

  /** Turn `k` comes and is the last one, or does not come: the outcome, and whether a session ran in it. */
  ghost predicate LastTurn(cfg: Config, turns: seq<Turn>, k: nat, outcome: Outcome, began: bool, ran: bool)
    requires k <= |turns|
  {
    if LimitReached(cfg, turns, k) then outcome == GaveUp && !began && !ran
    else if k == |turns| then outcome == Waiting(Streak(turns)) && !began && !ran
    else if k > 0 && turns[k].stopped then outcome == Clean && began && !ran
    else
      && began && ran
      && match turns[k].exit
         case Shutdown => outcome == Clean
         case Fatal => outcome == Failed
         case _ => false
  }

  ghost predicate EndsAt(cfg: Config, turns: seq<Turn>, first: nat, k: nat, s: Summary) {
    && first <= k && Lasted(cfg, turns, k)
    && exists began, ran ::
         && LastTurn(cfg, turns, k, s.outcome, began, ran)
         && s.sessions == k - first + (if ran then 1 else 0)
         && |s.waits| == (if began then k + 1 else k) - (if first == 0 && (k > 0 || began) then 1 else first)
  }

  lemma {:induction false} RestEnds(cfg: Config, turns: seq<Turn>, j: nat) returns (k: nat)
    requires Countable(cfg, turns) && Lasted(cfg, turns, j)
    ensures EndsAt(cfg, turns, j, k, Rest(cfg, turns, j))
    decreases |turns| - j
  {
    StreakStarts(turns[..j]);
    assert turns[..|turns|] == turns;
    if !LimitReached(cfg, turns, j) && j < |turns| && GoesOn(j == 0, turns[j]) {
      assert turns[j..][0] == turns[j] && turns[j..][1..] == turns[j + 1..];
      if turns[j].exit.Reconnect? {
        StreakBounded(cfg, turns, j);
      }
      StreakNext(turns, j);
      k := RestEnds(cfg, turns, j + 1);
    } else {
      k := j;
      var began := !LimitReached(cfg, turns, j) && j < |turns|;
      var ran := began && (j == 0 || !turns[j].stopped);
      assert j < |turns| ==> turns[j..][0] == turns[j];
      assert LastTurn(cfg, turns, k, Rest(cfg, turns, j).outcome, began, ran);
    }
  }

  /**
    A run goes through its turns until one does not go on, the streak reaches
    the limit, or shutdown comes during a wait: shutdown ends it cleanly, a
    fatal error does not, and there is a wait before every turn but the first.
   */
  lemma {:induction false} EndsExactly(cfg: Config, turns: seq<Turn>) returns (k: nat)
    requires Countable(cfg, turns)
    ensures EndsAt(cfg, turns, 0, k, RunOn(cfg, 0, turns))
  {
    assert turns[0..] == turns;
    k := RestEnds(cfg, turns, 0);
  }
}
