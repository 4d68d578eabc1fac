/** The applied position shared by the session and the worker. */
module Progress {
  import opened Wrappers

  class SharedProgress {
    var applied: nat

    constructor (start: nat)
      ensures applied == start
    {
      applied := start;
    }

    /**
      The compare-exchange loop with nobody else writing: `spurious` is how
      often the weak exchange fails although the value did not change.
     */
    method UpdateApplied(lsn: nat, spurious: nat)
      modifies this
      ensures applied == Max(old(applied), lsn)
    {
      var cur := applied;
      var failures := spurious;
      while lsn > cur
        invariant cur == applied == old(applied) || (cur == applied == lsn && lsn > old(applied))
        decreases lsn > cur, failures
      {
        if failures > 0 {
          failures := failures - 1;
          cur := applied;
        } else {
          applied := lsn;
          cur := lsn;
        }
      }
    }
  }

  // ── Concurrent updates ────────────────────────────────────────────────────
  // Any number of threads run `update_applied` at once. `history` holds every
  // value the atomic has had; a relaxed load, or the load of a failed
  // exchange, may return any of them.

  datatype Pc = Start | Loop(cur: nat) | Done

  datatype Thread = Thread(lsn: nat, pc: Pc)

  datatype Atomic = Atomic(history: seq<nat>, threads: seq<Thread>)

  datatype Step =
    | Load(t: nat, seen: nat)       // the first load
    | Exchange(t: nat)              // the exchange succeeds
    | Retry(t: nat, seen: nat)      // the exchange fails, spuriously or not
    | Leave(t: nat)                 // `new > cur` no longer holds

  function Value(a: Atomic): nat
    requires a.history != []
  {
    a.history[|a.history| - 1]
  }

  ghost predicate Enabled(a: Atomic, s: Step) {
    && a.history != [] && s.t < |a.threads|
    && var th := a.threads[s.t];
       match s
       case Load(_, seen) => th.pc.Start? && seen in a.history
       case Exchange(_) => th.pc.Loop? && th.lsn > th.pc.cur && th.pc.cur == Value(a)
       case Retry(_, seen) => th.pc.Loop? && th.lsn > th.pc.cur && seen in a.history
       case Leave(_) => th.pc.Loop? && th.lsn <= th.pc.cur
  }

  function Take(a: Atomic, s: Step): Atomic
    requires s.t < |a.threads|
  {
    var th := a.threads[s.t];
    match s
    case Load(_, seen) => a.(threads := a.threads[s.t := th.(pc := Loop(seen))])
    case Exchange(_) => Atomic(a.history + [th.lsn], a.threads[s.t := th.(pc := Done)])
    case Retry(_, seen) => a.(threads := a.threads[s.t := th.(pc := Loop(seen))])
    case Leave(_) => a.(threads := a.threads[s.t := th.(pc := Done)])
  }

  ghost predicate Reaches(a: Atomic, steps: seq<Step>, b: Atomic)
    decreases |steps|
  {
    if steps == [] then a == b
    else Enabled(a, steps[0]) && Reaches(Take(a, steps[0]), steps[1..], b)
  }

  /** The values of the atomic only grow, and each one was there at the start or is some thread's. */
  ghost predicate Coherent(start: nat, a: Atomic) {
    && a.history != [] && a.history[0] == start
    && (forall i, j :: 0 <= i < j < |a.history| ==> a.history[i] < a.history[j])
    && (Value(a) == start || exists t :: 0 <= t < |a.threads| && a.threads[t].lsn == Value(a))
    && (forall t :: 0 <= t < |a.threads| ==>
          match a.threads[t].pc
          case Start => true
          case Loop(cur) => cur in a.history
          case Done => a.threads[t].lsn <= Value(a))
  }

  lemma {:induction false} SeenIsPast(start: nat, a: Atomic, seen: nat)
    requires Coherent(start, a) && seen in a.history
    ensures seen <= Value(a)
  {
    var i :| 0 <= i < |a.history| && a.history[i] == seen;
  }

  lemma {:induction false} StepCoherent(start: nat, a: Atomic, s: Step)
    requires Coherent(start, a) && Enabled(a, s)
    ensures Coherent(start, Take(a, s)) && Value(a) <= Value(Take(a, s))
  {
    var b := Take(a, s);
    var th := a.threads[s.t];
    match s
    case Leave(_) =>
      SeenIsPast(start, a, th.pc.cur);
      if Value(a) != start {
        var t :| 0 <= t < |a.threads| && a.threads[t].lsn == Value(a);
        assert b.threads[t].lsn == Value(b);
      }
    case Exchange(_) =>
      assert b.threads[s.t].lsn == Value(b);
    case _ =>
      if Value(a) != start {
        var t :| 0 <= t < |a.threads| && a.threads[t].lsn == Value(a);
        assert b.threads[t].lsn == Value(b);
      }
  }

  /**
    Under every interleaving the shared value never decreases, and once every
    update has returned it is the largest of the start and all the updates.
   */
  lemma {:induction false} UpdatesEndAtMax(start: nat, a: Atomic, steps: seq<Step>, b: Atomic)
    requires Coherent(start, a) && Reaches(a, steps, b)
    ensures Coherent(start, b) && Value(a) <= Value(b)
    ensures start <= Value(b)
    ensures (forall t :: 0 <= t < |b.threads| ==> b.threads[t].pc.Done?) ==>
              && (forall t :: 0 <= t < |b.threads| ==> b.threads[t].lsn <= Value(b))
              && (Value(b) == start || exists t :: 0 <= t < |b.threads| && b.threads[t].lsn == Value(b))
    decreases |steps|
  {
    if steps == [] {
      SeenIsPast(start, a, a.history[0]);
    } else {
      StepCoherent(start, a, steps[0]);
      UpdatesEndAtMax(start, Take(a, steps[0]), steps[1..], b);
    }
  }

  // ── Status updates ────────────────────────────────────────────────────────
  // The stream loop keeps its own copy of the position. It reports the copy at
  // the top of the loop, and a fresh load on a reply request or an idle wakeup.

  datatype Feedback = Feedback(shared: nat, lastApplied: nat, reports: seq<nat>, atSend: seq<nat>)

  datatype FeedbackStep =
    | Advance(to: nat)     // the session moves the shared position
    | Sync                 // the loop loads the position
    | Periodic             // a due status update carries the copy
    | Fresh                // reply requested, or idle: load, then report

  function Next(f: Feedback, s: FeedbackStep): Feedback {
    match s
    case Advance(to) => f.(shared := Max(f.shared, to))
    case Sync => f.(lastApplied := f.shared)
    case Periodic => f.(reports := f.reports + [f.lastApplied], atSend := f.atSend + [f.shared])
    case Fresh => Feedback(f.shared, f.shared, f.reports + [f.shared], f.atSend + [f.shared])
  }

  function Run(f: Feedback, steps: seq<FeedbackStep>): Feedback
    decreases |steps|
  {
    if steps == [] then f else Run(Next(f, steps[0]), steps[1..])
  }

  lemma {:induction false} RunAppend(f: Feedback, xs: seq<FeedbackStep>, ys: seq<FeedbackStep>)
    ensures Run(f, xs + ys) == Run(Run(f, xs), ys)
    decreases |xs|
  {
    if xs == [] {
      assert xs + ys == ys;
    } else {
      assert (xs + ys)[1..] == xs[1..] + ys;
      RunAppend(Next(f, xs[0]), xs[1..], ys);
    }
  }

  ghost predicate Honest(f: Feedback) {
    && |f.reports| == |f.atSend| && f.lastApplied <= f.shared
    && (forall i :: 0 <= i < |f.reports| ==> f.reports[i] <= f.atSend[i] && f.reports[i] <= f.lastApplied)
    && (forall i, j :: 0 <= i < j < |f.reports| ==> f.reports[i] <= f.reports[j])
  }

  /** Reported positions never go back and never run ahead of the shared one. */
  lemma {:induction false} ReportsAreMonotone(f: Feedback, steps: seq<FeedbackStep>)
    requires Honest(f)
    ensures Honest(Run(f, steps))
    decreases |steps|
  {
    if steps != [] {
      ReportsAreMonotone(Next(f, steps[0]), steps[1..]);
    }
  }
}
