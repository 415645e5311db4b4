/** How a run of one source ends: each outcome in terms of what its iterations met, and what each iteration
    reports on the channel. */
module LogOutcomes {
  import opened Wrappers
  import opened LogCursors
  import opened LogReads
  import opened LogSources

  // ---- How a stream ends ----

  predicate AllOffered(events: seq<Event>) { forall e :: e in events ==> !e.Unsent? }

  /** What the stream of an iteration comes to, if it was opened. */
  function Stream(s: LoopState, a: Attempt): StreamRun
    requires a.opening.Opened?
  {
    ReadStream(Reconnected(s.cursor), a.opening.arrivals, a.opening.end)
  }

  /** Every delivery of the stream succeeded and then it ended as `end` says. */
  predicate ReadThrough(s: LoopState, a: Attempt, end: StreamEnd) {
    a.opening.Opened? && a.opening.end == end && AllOffered(Stream(s, a).events)
  }

  lemma {:induction false} StreamEndsIff(c: Cursor, arrivals: seq<Arrival>, end: StreamEnd)
    ensures var run := ReadStream(c, arrivals, end);
            && (run.result == StreamEOF <==> AllOffered(run.events) && end == EndOfFile)
            && (run.result == StreamError <==> AllOffered(run.events) && end == TransportError(true))
    decreases |arrivals|
  {
    var run := ReadStream(c, arrivals, end);
    if arrivals != [] {
      var (next, event) := Offer(c, arrivals[0]);
      if event.Unsent? {
        assert run.events[0] in run.events;
      } else {
        StreamEndsIff(next, arrivals[1..], end);
        var rest := ReadStream(next, arrivals[1..], end);
        assert forall e :: e in run.events <==> e == event || e in rest.events;
      }
    }
  }

  // ---- What an iteration ends with ----

  /** The open was refused with a denial that could be reported. */
  predicate Denied(a: Attempt) { a.opening == Refused(true, true) }

  /** The stream was read to its end and the source was seen terminal there. */
  predicate Completes(s: LoopState, a: Attempt) { ReadThrough(s, a, EndOfFile) && a.terminalAtEnd }

  /** The open failed, or the stream broke off, and that could be reported. */
  predicate Fails(s: LoopState, a: Attempt) {
    a.opening == Refused(true, false) || ReadThrough(s, a, TransportError(true))
  }

  /** It is the last failure the budget allows, and the source was seen terminal after it. */
  predicate Exhausts(s: LoopState, a: Attempt) {
    Fails(s, a) && s.failures + 1 >= RETRY_COUNT && a.terminalAtBudget
  }

  /** A notice is owed after the stream. */
  predicate Owes(s: LoopState, a: Attempt) {
    if a.opening.Opened? then Stream(s, a).cursor.limited else s.cursor.limited
  }

  /** The read or the report of its end came through, without an end of the run. */
  predicate GoesOn(s: LoopState, a: Attempt) {
    (Fails(s, a) && !Exhausts(s, a)) || (ReadThrough(s, a, EndOfFile) && !a.terminalAtEnd)
  }

  /** The iteration found its context done where it looked: when it opened the stream, offered a record, read
      the end, gave the overflow notice or waited. */
  predicate ContextSeen(s: LoopState, a: Attempt) {
    match a.opening
    case Refused(false, _) => true
    case _ =>
      || (a.opening.Opened? && !ReadThrough(s, a, EndOfFile) && !ReadThrough(s, a, TransportError(true)))
      || (GoesOn(s, a) && ((Owes(s, a) && !a.noticeSent) || !a.waited))
  }

  lemma {:induction false} SettleEnds(s: LoopState, before: nat, a: Attempt, events: seq<Event>)
    ensures var p := Settle(s, before, a, events);
            && (p.outcome == Some(SourceExhausted) <==> a.terminalAtBudget && s.failures >= RETRY_COUNT)
            && (p.outcome == Some(SourceCanceled) <==>
                  && !(a.terminalAtBudget && s.failures >= RETRY_COUNT)
                  && ((s.cursor.limited && !a.noticeSent) || !a.waited))
            && p.outcome in {None, Some(SourceCanceled), Some(SourceExhausted)}
            && (p.outcome.None? ==> p.state.failures == s.failures)
  {
  }

  /** Each end of an iteration, exactly, and the failures it leaves behind. */
  lemma {:induction false} IterationEndsIff(s: LoopState, a: Attempt)
    ensures var p := Iterate(s, a);
            && (p.outcome == Some(SourceDenied) <==> Denied(a))
            && (p.outcome == Some(SourceCompleted) <==> Completes(s, a))
            && (p.outcome == Some(SourceExhausted) <==> Exhausts(s, a))
            && (p.outcome == Some(SourceCanceled) <==> ContextSeen(s, a))
            && (p.outcome.None? ==>
                  p.state.failures == if Fails(s, a) then OneMore(s.failures) else 0)
  {
    hide Settle;
    var c, start := Reconnected(s.cursor), [Reconnect(s.cursor.replayUncertain)];
    match a.opening
    case Opened(arrivals, end) =>
      var run := ReadStream(c, arrivals, end);
      StreamEndsIff(c, arrivals, end);
      var failures := if run.result == StreamError then OneMore(s.failures) else 0;
      SettleEnds(s.(cursor := run.cursor, failures := failures), s.cursor.time, a, start + run.events);
    case Refused(_, _) =>
      SettleEnds(s.(cursor := c, failures := OneMore(s.failures)), s.cursor.time, a, start + [Reported(OpenFailed)]);
  }

  // ---- How a run ends ----

  /** The iteration is reached: all before it ended nothing. */
  predicate Reached(s: LoopState, script: seq<Attempt>, i: nat) {
    i < |script| && Run(s, script[..i]).outcome.None?
  }

  /** The state at the head of an iteration. */
  function At(s: LoopState, script: seq<Attempt>, i: nat): LoopState
    requires i <= |script|
  {
    Run(s, script[..i]).state
  }

  lemma {:induction false} RunNext(s: LoopState, script: seq<Attempt>, i: nat)
    requires Reached(s, script, i)
    ensures var (before, own) := (Run(s, script[..i]), Iterate(At(s, script, i), script[i]));
            Run(s, script[..i + 1]) == own.(events := before.events + own.events)
    decreases |script|
  {
    hide Iterate;
    if i == 0 {
      assert script[..1][0] == script[0] && script[..1][1..] == [] && script[..0] == [];
      var own := Iterate(s, script[0]);
      assert [] + own.events == own.events == own.events + [];
    } else {
      var first, rest := Iterate(s, script[0]), script[1..];
      assert script[..i + 1][1..] == rest[..i] && script[..i][1..] == rest[..i - 1];
      RunNext(first.state, rest, i - 1);
      var before := Run(first.state, rest[..i - 1]);
      var own := Iterate(before.state, rest[i - 1]);
      assert first.events + (before.events + own.events) == first.events + before.events + own.events;
    }
  }

  /** A run that has ended does not go on. */
  lemma {:induction false} RunStops(s: LoopState, script: seq<Attempt>, i: nat)
    requires i <= |script| && Run(s, script[..i]).outcome.Some?
    ensures Run(s, script) == Run(s, script[..i])
    decreases |script|
  {
    hide Iterate;
    if i > 0 {
      var first := Iterate(s, script[0]);
      assert script[..i][0] == script[0] && script[..i][1..] == script[1..][..i - 1];
      if first.outcome.None? { RunStops(first.state, script[1..], i - 1); }
    }
  }

  /** The iteration in which a run ended. */
  lemma {:induction false} RunEnds(s: LoopState, script: seq<Attempt>) returns (i: nat)
    requires Run(s, script).outcome.Some?
    ensures Reached(s, script, i)
    ensures var (before, last) := (Run(s, script[..i]), Iterate(At(s, script, i), script[i]));
            Run(s, script) == last.(events := before.events + last.events)
    decreases |script|
  {
    hide Iterate;
    var first := Iterate(s, script[0]);
    if first.outcome.None? {
      i := RunEnds(first.state, script[1..]);
      i := i + 1;
      assert script[..i][0] == script[0] && script[..i][1..] == script[1..][..i - 1];
    } else {
      i := 0;
      assert script[..0] == [];
    }
    assert script[..i + 1][..i] == script[..i];
    RunNext(s, script, i);
    RunStops(s, script, i + 1);
  }

  /** A reached iteration that ends something ends the run, and so. */
  lemma {:induction false} EndsRun(s: LoopState, script: seq<Attempt>, i: nat)
    requires Reached(s, script, i) && Iterate(At(s, script, i), script[i]).outcome.Some?
    ensures Run(s, script).outcome == Iterate(At(s, script, i), script[i]).outcome
  {
    RunNext(s, script, i);
    RunStops(s, script, i + 1);
  }

  /** A source ends denied if and only if an iteration it reaches is refused with a denial. */
  lemma {:induction false} DeniedIff(s: LoopState, script: seq<Attempt>)
    ensures Run(s, script).outcome == Some(SourceDenied) <==>
              exists i: nat :: Reached(s, script, i) && script[i].opening == Refused(true, true)
  {
    hide Iterate, Run;
    if Run(s, script).outcome == Some(SourceDenied) {
      var i := RunEnds(s, script);
      IterationEndsIff(At(s, script, i), script[i]);
    }
    if i: nat :| Reached(s, script, i) && script[i].opening == Refused(true, true) {
      IterationEndsIff(At(s, script, i), script[i]);
      EndsRun(s, script, i);
    }
  }

  /** It completes if and only if an iteration it reaches reads its stream to the end and sees it terminal. */
  lemma {:induction false} CompletedIff(s: LoopState, script: seq<Attempt>)
    ensures Run(s, script).outcome == Some(SourceCompleted) <==>
              exists i: nat ::
                Reached(s, script, i) && ReadThrough(At(s, script, i), script[i], EndOfFile) && script[i].terminalAtEnd
  {
    hide Iterate, Run, ReadThrough;
    if Run(s, script).outcome == Some(SourceCompleted) {
      var i := RunEnds(s, script);
      IterationEndsIff(At(s, script, i), script[i]);
    }
    if i: nat :| Reached(s, script, i) && ReadThrough(At(s, script, i), script[i], EndOfFile)
                 && script[i].terminalAtEnd {
      IterationEndsIff(At(s, script, i), script[i]);
      EndsRun(s, script, i);
    }
  }

  /** It is cancelled if and only if an iteration it reaches finds its context done: what the follow loop
      relies on. */
  lemma {:induction false} CanceledIff(s: LoopState, script: seq<Attempt>)
    ensures Run(s, script).outcome == Some(SourceCanceled) <==>
              exists i: nat :: Reached(s, script, i) && ContextSeen(At(s, script, i), script[i])
  {
    hide Iterate, Run, ContextSeen;
    if Run(s, script).outcome == Some(SourceCanceled) {
      var i := RunEnds(s, script);
      IterationEndsIff(At(s, script, i), script[i]);
    }
    if i: nat :| Reached(s, script, i) && ContextSeen(At(s, script, i), script[i]) {
      IterationEndsIff(At(s, script, i), script[i]);
      EndsRun(s, script, i);
    }
  }

  /** The last `n` iterations before `i` all failed. */
  predicate FailedLast(s: LoopState, script: seq<Attempt>, i: nat, n: nat)
    requires i <= |script|
  {
    n <= i && forall j :: i - n <= j < i ==> Fails(At(s, script, j), script[j])
  }

  /** The failures counted at the head of an iteration are those in an unbroken row before it, up to the budget. */
  lemma {:induction false} FailuresInARow(c: Cursor, script: seq<Attempt>, i: nat, n: nat)
    requires i <= |script| && Run(Starting(c), script[..i]).outcome.None? && n <= RETRY_COUNT
    ensures At(Starting(c), script, i).failures >= n <==> FailedLast(Starting(c), script, i, n)
    decreases i
  {
    hide Iterate, Fails;
    var s := Starting(c);
    if i == 0 {
      assert script[..0] == [];
    } else if n > 0 {
      var k := i - 1;
      ReachedBefore(s, script, k);
      RunNext(s, script, k);
      IterationEndsIff(At(s, script, k), script[k]);
      FailuresInARow(c, script, k, n - 1);
    }
  }

  lemma {:induction false} ReachedBefore(s: LoopState, script: seq<Attempt>, k: nat)
    requires k < |script| && Run(s, script[..k + 1]).outcome.None?
    ensures Reached(s, script, k)
  {
    if Run(s, script[..k]).outcome.Some? {
      assert script[..k + 1][..k] == script[..k];
      RunStops(s, script[..k + 1], k);
    }
  }

  /** It is exhausted if and only if it reaches an iteration that is the last of RETRY_COUNT failing ones in a
      row and sees it terminal. */
  lemma {:induction false} ExhaustedIff(c: Cursor, script: seq<Attempt>)
    ensures var s := Starting(c);
            Run(s, script).outcome == Some(SourceExhausted) <==>
              exists i: nat ::
                && Reached(s, script, i) && script[i].terminalAtBudget && Fails(At(s, script, i), script[i])
                && FailedLast(s, script, i, RETRY_COUNT - 1)
  {
    hide Iterate, Run, Fails, FailedLast;
    var s := Starting(c);
    if Run(s, script).outcome == Some(SourceExhausted) {
      var i := RunEnds(s, script);
      IterationEndsIff(At(s, script, i), script[i]);
      FailuresInARow(c, script, i, RETRY_COUNT - 1);
    }
    if i: nat :| Reached(s, script, i) && script[i].terminalAtBudget && Fails(At(s, script, i), script[i])
                 && FailedLast(s, script, i, RETRY_COUNT - 1) {
      FailuresInARow(c, script, i, RETRY_COUNT - 1);
      IterationEndsIff(At(s, script, i), script[i]);
      EndsRun(s, script, i);
    }
  }

  // ---- What an iteration reports ----

  function Times(events: seq<Event>, e: Event): nat { multiset(events)[e] }

  lemma {:induction false} TimesAppend(a: seq<Event>, b: seq<Event>, e: Event)
    ensures Times(a + b, e) == Times(a, e) + Times(b, e)
  {
  }

  lemma {:induction false} TimesOne(x: Event, e: Event)
    ensures Times([x], e) == if x == e then 1 else 0
  {
  }

  lemma {:induction false} StreamReports(c: Cursor, arrivals: seq<Arrival>, end: StreamEnd, e: Event)
    requires e.Reported? || e.DedupLimit?
    ensures var events := ReadStream(c, arrivals, end).events;
            Times(events, e)
            == if e == Reported(ReadFailed) && AllOffered(events) && end == TransportError(true) then 1 else 0
    decreases |arrivals|
  {
    if arrivals != [] {
      var (next, event) := Offer(c, arrivals[0]);
      TimesOne(event, e);
      if event.Unsent? {
        assert ReadStream(c, arrivals, end).events == [event] && event in [event];
      } else {
        var rest := ReadStream(next, arrivals[1..], end).events;
        StreamReports(next, arrivals[1..], end, e);
        TimesAppend([event], rest, e);
        assert AllOffered([event] + rest) <==> AllOffered(rest);
      }
    }
  }

  /** The four messages of an iteration, each exactly when it is due: an open error, a read error, the final
      error of a spent budget, and the overflow notice. */
  lemma {:induction false} IterationReports(s: LoopState, a: Attempt, e: Event)
    requires e.Reported? || e.DedupLimit?
    ensures var due := match e
                       case Reported(OpenFailed) => a.opening.Refused? && a.opening.reported
                       case Reported(ReadFailed) => ReadThrough(s, a, TransportError(true))
                       case Reported(BudgetExhausted) => Exhausts(s, a) && a.finalReported
                       case _ => GoesOn(s, a) && Owes(s, a) && a.noticeSent;
            Times(Iterate(s, a).events, e) == if due then 1 else 0
  {
    hide Times, Settle;
    var c, start := Reconnected(s.cursor), [Reconnect(s.cursor.replayUncertain)];
    TimesOne(start[0], e);
    match a.opening
    case Opened(arrivals, end) =>
      var run := ReadStream(c, arrivals, end);
      StreamEndsIff(c, arrivals, end);
      StreamReports(c, arrivals, end, e);
      TimesAppend(start, run.events, e);
      var failures := if run.result == StreamError then OneMore(s.failures) else 0;
      SettleReports(s.(cursor := run.cursor, failures := failures), s.cursor.time, a, start + run.events, e);
    case Refused(_, _) =>
      TimesOne(Reported(OpenFailed), e);
      TimesAppend(start, [Reported(OpenFailed)], e);
      SettleReports(s.(cursor := c, failures := OneMore(s.failures)), s.cursor.time, a,
                    start + [Reported(OpenFailed)], e);
  }

  lemma {:induction false} SettleReports(s: LoopState, before: nat, a: Attempt, events: seq<Event>, e: Event)
    requires e.Reported? || e.DedupLimit?
    ensures var spent := a.terminalAtBudget && s.failures >= RETRY_COUNT;
            var due := match e
                       case Reported(BudgetExhausted) => spent && a.finalReported
                       case DedupLimit => !spent && s.cursor.limited && a.noticeSent
                       case _ => false;
            Times(Settle(s, before, a, events).events, e) == Times(events, e) + (if due then 1 else 0)
  {
    hide Times;
    var delay := if s.cursor.time > before then BACKOFF_INITIAL else s.delay;
    var noticed := events + (if s.cursor.limited then [DedupLimit] else []);
    TimesOne(Reported(BudgetExhausted), e);
    TimesOne(DedupLimit, e);
    TimesOne(Waited(delay), e);
    TimesAppend(events, [Reported(BudgetExhausted)], e);
    TimesAppend(events, [DedupLimit], e);
    assert events + [] == events;
    TimesAppend(noticed, [Waited(delay)], e);
  }
}
