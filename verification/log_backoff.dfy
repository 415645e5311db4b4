/** How long a source waits between reconnects, and when a finite read gives up. */
module LogBackoff {
  import opened Wrappers
  import opened LogCursors
  import opened LogReads
  import opened LogSources

  function Pow2(n: nat): (p: nat)
    ensures p > 0
  {
    if n == 0 then 1 else 2 * Pow2(n - 1)
  }

  /** The wait after `n` earlier consecutive iterations without progress. */
  function Backoff(n: nat): nat { Min(BACKOFF_INITIAL * Pow2(n), BACKOFF_MAX) }

  function Waits(events: seq<Event>): seq<nat> {
    if events == [] then []
    else (if events[0].Waited? then [events[0].delay] else []) + Waits(events[1..])
  }

  /** Whether an iteration got as far as its wait. */
  predicate ReachedWait(p: Progress) { p.events != [] && p.events[|p.events| - 1].Waited? }

  /** For each iteration that reached its wait, whether it moved the cursor forward. */
  function Moves(s: LoopState, script: seq<Attempt>): seq<bool>
    decreases |script|
  {
    if script == [] then []
    else
      var first := Iterate(s, script[0]);
      var own := if ReachedWait(first) then [first.state.cursor.time > s.cursor.time] else [];
      if first.outcome.Some? then own else own + Moves(first.state, script[1..])
  }

  /** The length of the idle run that ends the list, continuing one of length `before`. */
  function IdleRun(moves: seq<bool>, before: nat): nat {
    if moves == [] then before
    else if moves[|moves| - 1] then 0
    else IdleRun(moves[..|moves| - 1], before) + 1
  }

  lemma {:induction false} WaitsAppend(a: seq<Event>, b: seq<Event>)
    ensures Waits(a + b) == Waits(a) + Waits(b)
  {
    if a == [] {
      assert a + b == b;
    } else {
      var own := if a[0].Waited? then [a[0].delay] else [];
      assert (a + b)[0] == a[0] && (a + b)[1..] == a[1..] + b;
      WaitsAppend(a[1..], b);
      assert own + (Waits(a[1..]) + Waits(b)) == own + Waits(a[1..]) + Waits(b);
    }
  }

  lemma {:induction false} IdleRunCons(m: bool, rest: seq<bool>, before: nat)
    ensures IdleRun([m] + rest, before) == IdleRun(rest, if m then 0 else before + 1)
  {
    var whole := [m] + rest;
    if rest == [] {
      assert whole[..|whole| - 1] == [];
    } else {
      assert whole[..|whole| - 1] == [m] + rest[..|rest| - 1];
      IdleRunCons(m, rest[..|rest| - 1], before);
    }
  }

  lemma {:induction false} StreamNeverWaits(c: Cursor, arrivals: seq<Arrival>, end: StreamEnd)
    ensures Waits(ReadStream(c, arrivals, end).events) == []
    ensures forall e :: e in ReadStream(c, arrivals, end).events ==> !e.Waited?
    decreases |arrivals|
  {
    if arrivals != [] {
      var (next, event) := Offer(c, arrivals[0]);
      if !event.Unsent? {
        StreamNeverWaits(next, arrivals[1..], end);
        WaitsAppend([event], ReadStream(next, arrivals[1..], end).events);
      }
    }
  }

  /** What one iteration contributes: no wait, or the current one. */
  lemma {:induction false} IterationWait(s: LoopState, a: Attempt)
    ensures var p := Iterate(s, a);
            var moved := p.state.cursor.time > s.cursor.time;
            && (p.outcome.None? ==> ReachedWait(p))
            && Waits(p.events) == (if ReachedWait(p) then [if moved then BACKOFF_INITIAL else s.delay] else [])
            && (p.outcome.None? ==>
                  p.state.delay == if moved then BACKOFF_INITIAL else Min(s.delay * 2, BACKOFF_MAX))
  {
    var c, start := Reconnected(s.cursor), [Reconnect(s.cursor.replayUncertain)];
    match a.opening
    case Opened(arrivals, end) =>
      var run := ReadStream(c, arrivals, end);
      StreamNeverWaits(c, arrivals, end);
      WaitsAppend(start, run.events);
      var failures := if run.result == StreamError then OneMore(s.failures) else 0;
      if run.result != StreamCanceled && !(run.result == StreamEOF && a.terminalAtEnd) {
        SettleWait(s.(cursor := run.cursor, failures := failures), s.cursor.time, a, start + run.events);
      }
    case Refused(reported, denied) =>
      WaitsAppend(start, [Reported(OpenFailed)]);
      if reported && !denied {
        SettleWait(s.(cursor := c, failures := OneMore(s.failures)), s.cursor.time, a, start + [Reported(OpenFailed)]);
      }
  }

  lemma {:induction false} SettleWait(s: LoopState, before: nat, a: Attempt, events: seq<Event>)
    requires Waits(events) == [] && (forall e :: e in events ==> !e.Waited?)
    ensures var p := Settle(s, before, a, events);
            var moved := p.state.cursor.time > before;
            && (p.outcome.None? ==> ReachedWait(p))
            && Waits(p.events) == (if ReachedWait(p) then [if moved then BACKOFF_INITIAL else s.delay] else [])
            && (p.outcome.None? ==>
                  p.state.delay == if moved then BACKOFF_INITIAL else Min(s.delay * 2, BACKOFF_MAX))
  {
    QuietWaits();
    hide Waits;
    WaitsAppend(events, [Reported(BudgetExhausted)]);
    WaitsAppend(events, []);
    WaitsAppend(events, [DedupLimit]);
    var noticed := events + (if s.cursor.limited then [DedupLimit] else []);
    var delay := if s.cursor.time > before then BACKOFF_INITIAL else s.delay;
    OneWait(delay);
    WaitsAppend(noticed, [Waited(delay)]);
  }

  lemma {:induction false} QuietWaits()
    ensures Waits([]) == [] && Waits([Reported(BudgetExhausted)]) == [] && Waits([DedupLimit]) == []
  {
    assert [DedupLimit][1..] == [] && [Reported(BudgetExhausted)][1..] == [];
  }

  lemma {:induction false} OneWait(delay: nat)
    ensures Waits([Waited(delay)]) == [delay]
  {
    assert [Waited(delay)][1..] == [];
  }

  /** The waits of a list of moves, walked forwards from an idle run of length `idle`. */
  function Schedule(moves: seq<bool>, idle: nat): seq<nat> {
    if moves == [] then []
    else [if moves[0] then BACKOFF_INITIAL else Backoff(idle)]
         + Schedule(moves[1..], if moves[0] then 0 else idle + 1)
  }

  lemma {:induction false} WaitsFollowSchedule(s: LoopState, script: seq<Attempt>, idle: nat)
    requires s.delay == Backoff(idle)
    ensures Waits(Run(s, script).events) == Schedule(Moves(s, script), idle)
    decreases |script|
  {
    if script != [] {
      var first := Iterate(s, script[0]);
      IterationWait(s, script[0]);
      if first.outcome.None? {
        var moved := first.state.cursor.time > s.cursor.time;
        WaitsFollowSchedule(first.state, script[1..], if moved then 0 else idle + 1);
        WaitsAppend(first.events, Run(first.state, script[1..]).events);
        assert Moves(s, script)[1..] == Moves(first.state, script[1..]);
      }
    }
  }

  lemma {:induction false} ScheduleEntry(moves: seq<bool>, idle: nat, i: nat)
    requires i < |moves|
    ensures |Schedule(moves, idle)| == |moves|
    ensures moves[i] ==> Schedule(moves, idle)[i] == BACKOFF_INITIAL
    ensures !moves[i] ==>
              && IdleRun(moves[..i + 1], idle) >= 1
              && Schedule(moves, idle)[i] == Backoff(IdleRun(moves[..i + 1], idle) - 1)
  {
    var next := if moves[0] then 0 else idle + 1;
    assert moves[..i + 1] == [moves[0]] + moves[1..][..i];
    IdleRunCons(moves[0], moves[1..][..i], idle);
    if i > 0 {
      ScheduleEntry(moves[1..], next, i - 1);
    } else if |moves| > 1 {
      ScheduleEntry(moves[1..], next, 0);
    }
  }

  /** In the n-th consecutive iteration without progress the source waits exactly
      min(500 ms * 2^(n-1), 30 s), and 500 ms after every iteration that made progress. */
  lemma {:induction false} BackoffIsExact(c: Cursor, script: seq<Attempt>, i: nat)
    requires i < |Moves(Starting(c), script)|
    ensures var waits, moves := Waits(Run(Starting(c), script).events), Moves(Starting(c), script);
            && |waits| == |moves|
            && (moves[i] ==> waits[i] == BACKOFF_INITIAL)
            && (!moves[i] ==>
                  var n := IdleRun(moves[..i + 1], 0);
                  n >= 1 && waits[i] == Min(BACKOFF_INITIAL * Pow2(n - 1), BACKOFF_MAX))
  {
    hide Schedule, Moves, Run, Waits, IdleRun;
    WaitsFollowSchedule(Starting(c), script, 0);
    ScheduleEntry(Moves(Starting(c), script), 0, i);
  }

  // ---- The failure budget ----

  /** Consecutive failures never exceed the budget, and only a spent budget exhausts a source. */
  lemma {:induction false} FailuresWithinBudget(s: LoopState, script: seq<Attempt>)
    requires s.failures <= RETRY_COUNT
    ensures Run(s, script).state.failures <= RETRY_COUNT
    ensures Run(s, script).outcome == Some(SourceExhausted) ==> Run(s, script).state.failures == RETRY_COUNT
    decreases |script|
  {
    if script != [] && Iterate(s, script[0]).outcome.None? {
      FailuresWithinBudget(Iterate(s, script[0]).state, script[1..]);
    }
  }

  predicate AlwaysTerminal(script: seq<Attempt>) {
    forall a :: a in script ==> a.terminalAtEnd && a.terminalAtBudget
  }

  /** Once the source stays terminal the loop returns within max(1, budget - failures) iterations. */
  lemma {:induction false} FiniteReadsReturn(s: LoopState, script: seq<Attempt>)
    requires s.failures <= RETRY_COUNT && AlwaysTerminal(script)
    requires |script| >= 1 && |script| >= RETRY_COUNT - s.failures
    ensures Run(s, script).outcome.Some?
    decreases |script|
  {
    var first := Iterate(s, script[0]);
    assert script[0] in script;
    if first.outcome.None? {
      assert first.state.failures == s.failures + 1 < RETRY_COUNT;
      FiniteReadsReturn(first.state, script[1..]);
    }
  }

  /** A live source is never given up for failing: without a terminal observation it ends only
      cancelled or denied. */
  lemma {:induction false} LiveSourceStaysEligible(s: LoopState, script: seq<Attempt>)
    requires forall a :: a in script ==> !a.terminalAtEnd && !a.terminalAtBudget
    ensures Run(s, script).outcome in {None, Some(SourceCanceled), Some(SourceDenied)}
    decreases |script|
  {
    if script != [] {
      var first := Iterate(s, script[0]);
      assert script[0] in script;
      if first.outcome.None? {
        LiveSourceStaysEligible(first.state, script[1..]);
      }
    }
  }
}
