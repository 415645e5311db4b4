/** The reconnect loop of one log source: cursor resumption, failure budget and backoff. */
module LogSources {
  import opened Wrappers
  import opened LogCursors
  import opened LogReads

  const RETRY_COUNT: nat := 20
  const BACKOFF_INITIAL: nat := 500     // milliseconds
  const BACKOFF_MAX: nat := 30_000      // milliseconds

  datatype Outcome = SourceCanceled | SourceCompleted | SourceDenied | SourceExhausted

  datatype Opening =
    | Opened(arrivals: seq<Arrival>, end: StreamEnd)
    | Refused(reported: bool, denied: bool)

  /** Everything the environment decides in one iteration: the server's answer, how much of the log
      exists when it answers, the value of the shared terminal flag at its two decisive reads,
      and whether the deliveries and the wait outlive the context. */
  datatype Attempt = Attempt(visible: nat, opening: Opening, terminalAtEnd: bool, terminalAtBudget: bool,
                             finalReported: bool, noticeSent: bool, waited: bool)

  datatype LoopState = LoopState(cursor: Cursor, failures: nat, delay: nat)

  datatype Progress = Progress(state: LoopState, events: seq<Event>, outcome: Option<Outcome>)

  function Min(a: nat, b: nat): nat { if a < b then a else b }

  function Starting(c: Cursor): LoopState { LoopState(c, 0, BACKOFF_INITIAL) }

  function OneMore(failures: nat): nat { if failures < RETRY_COUNT then failures + 1 else failures }

  /** The tail of an iteration: budget, overflow notice, wait. */
  function Settle(s: LoopState, before: nat, a: Attempt, events: seq<Event>): Progress {
    if a.terminalAtBudget && s.failures >= RETRY_COUNT then
      Progress(s, events + (if a.finalReported then [Reported(BudgetExhausted)] else []), Some(SourceExhausted))
    else if s.cursor.limited && !a.noticeSent then
      Progress(s, events, Some(SourceCanceled))
    else
      var noticed := events + (if s.cursor.limited then [DedupLimit] else []);
      var c := s.cursor.(limited := false);
      var delay := if c.time > before then BACKOFF_INITIAL else s.delay;
      if !a.waited then
        Progress(LoopState(c, s.failures, delay), noticed + [Waited(delay)], Some(SourceCanceled))
      else
        var next := if c.time > before then delay else Min(delay * 2, BACKOFF_MAX);
        Progress(LoopState(c, s.failures, next), noticed + [Waited(delay)], None)
  }

  function Iterate(s: LoopState, a: Attempt): Progress {
    var c := Reconnected(s.cursor);
    var start := [Reconnect(s.cursor.replayUncertain)];
    match a.opening
    case Opened(arrivals, end) =>
      var run := ReadStream(c, arrivals, end);
      var read := s.(cursor := run.cursor);
      if run.result == StreamCanceled then Progress(read, start + run.events, Some(SourceCanceled))
      else if run.result == StreamEOF && a.terminalAtEnd then
        Progress(read, start + run.events, Some(SourceCompleted))
      else
        var failures := if run.result == StreamError then OneMore(s.failures) else 0;
        Settle(read.(failures := failures), s.cursor.time, a, start + run.events)
    case Refused(reported, denied) =>
      if !reported then Progress(s.(cursor := c), start, Some(SourceCanceled))
      else if denied then Progress(s.(cursor := c), start + [Reported(OpenFailed)], Some(SourceDenied))
      else Settle(s.(cursor := c, failures := OneMore(s.failures)), s.cursor.time, a, start + [Reported(OpenFailed)])
  }

  /** The loop up to the end of the script; no outcome means it is back at its head. */
  function Run(s: LoopState, script: seq<Attempt>): Progress
    decreases |script|
  {
    if script == [] then Progress(s, [], None)
    else
      var first := Iterate(s, script[0]);
      if first.outcome.Some? then first
      else
        var rest := Run(first.state, script[1..]);
        rest.(events := first.events + rest.events)
  }

  predicate Wellformed(a: Attempt) {
    a.opening.Opened? ==> forall x :: x in a.opening.arrivals ==> Stamped(x.item)
  }

  /** The tail of one iteration on the cursor object. */
  method SettleAttempt(cursor: LogCursor, failures: nat, delay: nat, before: nat, a: Attempt, soFar: seq<Event>)
    returns (events: seq<Event>, nextDelay: nat, outcome: Option<Outcome>)
    modifies cursor`limited
    ensures Progress(LoopState(cursor.Value(), failures, nextDelay), events, outcome)
         == Settle(LoopState(old(cursor.Value()), failures, delay), before, a, soFar)
  {
    events, nextDelay := soFar, delay;
    if a.terminalAtBudget && failures >= RETRY_COUNT {
      if a.finalReported {
        events := events + [Reported(BudgetExhausted)];
      }
      return events, nextDelay, Some(SourceExhausted);
    }
    if cursor.limited {
      if !a.noticeSent {
        return events, nextDelay, Some(SourceCanceled);
      }
      events := events + [DedupLimit];
      cursor.limited := false;
    }
    var progressed := cursor.time > before;
    if progressed {
      nextDelay := BACKOFF_INITIAL;
    }
    events := events + [Waited(nextDelay)];
    if !a.waited {
      return events, nextDelay, Some(SourceCanceled);
    }
    if !progressed {
      nextDelay := Min(nextDelay * 2, BACKOFF_MAX);
    }
    return events, nextDelay, None;
  }

  /** One iteration on the cursor object. */
  method TryOnce(cursor: LogCursor, failures: nat, delay: nat, a: Attempt)
    returns (events: seq<Event>, nextFailures: nat, nextDelay: nat, outcome: Option<Outcome>)
    requires Wellformed(a)
    modifies cursor
    ensures Progress(LoopState(cursor.Value(), nextFailures, nextDelay), events, outcome)
         == Iterate(LoopState(old(cursor.Value()), failures, delay), a)
  {
    var before := cursor.time;
    nextFailures := failures;
    events := [Reconnect(cursor.replayUncertain)];
    cursor.Reconnect();
    match a.opening {
      case Opened(arrivals, end) =>
        var read, result := ReadLogStream(cursor, arrivals, end);
        events := events + read;
        if result == StreamCanceled {
          return events, failures, delay, Some(SourceCanceled);
        }
        if result == StreamEOF && a.terminalAtEnd {
          return events, failures, delay, Some(SourceCompleted);
        }
        if result == StreamError {
          if nextFailures < RETRY_COUNT {
            nextFailures := nextFailures + 1;
          }
        } else {
          nextFailures := 0;
        }
      case Refused(reported, denied) =>
        if !reported {
          return events, failures, delay, Some(SourceCanceled);
        }
        events := events + [Reported(OpenFailed)];
        if denied {
          return events, failures, delay, Some(SourceDenied);
        }
        if nextFailures < RETRY_COUNT {
          nextFailures := nextFailures + 1;
        }
    }
    events, nextDelay, outcome := SettleAttempt(cursor, nextFailures, delay, before, a, events);
  }

  /** The loop itself. When the script ends, the context is done at the head of the loop. */
  method RunLogSource(cursor: LogCursor, script: seq<Attempt>) returns (events: seq<Event>, outcome: Outcome)
    requires forall a :: a in script ==> Wellformed(a)
    modifies cursor
    ensures var run := Run(Starting(old(cursor.Value())), script);
            && events == run.events && cursor.Value() == run.state.cursor
            && outcome == if run.outcome.Some? then run.outcome.value else SourceCanceled
  {
    hide Iterate, Wellformed;
    var failures, delay, i := 0, BACKOFF_INITIAL, 0;
    events := [];
    while i < |script|
      invariant 0 <= i <= |script|
      invariant var rest := Run(LoopState(cursor.Value(), failures, delay), script[i..]);
                Run(Starting(old(cursor.Value())), script) == rest.(events := events + rest.events)
    {
      assert script[i..][1..] == script[i + 1..];
      assert Wellformed(script[i]);
      var local, ended;
      local, failures, delay, ended := TryOnce(cursor, failures, delay, script[i]);
      i := i + 1;
      ghost var rest := Run(LoopState(cursor.Value(), failures, delay), script[i..]);
      assert events + (local + rest.events) == events + local + rest.events;
      events := events + local;
      if ended.Some? {
        return events, ended.value;
      }
    }
    return events, SourceCanceled;
  }
}
