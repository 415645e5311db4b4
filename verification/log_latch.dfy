/** The fail-closed latch: once the redactor's view of a source can no longer be trusted, every later
    record of that source is marked sensitive, in this stream and in every later one. */
module LogLatch {
  import opened LogCursors
  import opened LogReads
  import opened LogSources
  import opened LogDelivery

  /** What closes the latch: a truncated record that was not suppressed, a sensitive record that was
      tracked but not delivered, or a reconnect whose boundary is uncertain. */
  predicate Closes(e: Event) {
    match e
    case Reconnect(uncertain) => uncertain
    case Sent(item, _) => item.truncated
    case Unsent(item, sensitive) => item.truncated || sensitive
    case _ => false
  }

  /** The trace property, walked forwards. */
  predicate StaysClosed(closed: bool, events: seq<Event>)
    decreases |events|
  {
    events == [] ||
    (var now := closed || Closes(events[0]);
     (events[0].Sent? && now ==> events[0].sensitive) && StaysClosed(now, events[1..]))
  }

  predicate ClosedAfter(closed: bool, events: seq<Event>) {
    closed || exists e :: e in events && Closes(e)
  }

  lemma {:induction false} StaysClosedAppend(closed: bool, a: seq<Event>, b: seq<Event>)
    requires StaysClosed(closed, a) && StaysClosed(ClosedAfter(closed, a), b)
    ensures StaysClosed(closed, a + b)
    decreases |a|
  {
    if a == [] {
      assert a + b == b;
    } else {
      var t := a[1..];
      assert (a + b)[1..] == t + b && a == [a[0]] + t;
      StaysClosedAppend(closed || Closes(a[0]), t, b);
    }
  }

  /** The cursor flag implements the trace property: it is closed exactly when the trace is. */
  ghost predicate Holds(before: bool, events: seq<Event>, after: Cursor) {
    StaysClosed(before, events) && (after.failClosed <==> ClosedAfter(before, events))
  }

  lemma {:induction false} HoldsAppend(before: bool, a: seq<Event>, mid: Cursor, b: seq<Event>, after: Cursor)
    requires Holds(before, a, mid) && Holds(mid.failClosed, b, after)
    ensures Holds(before, a + b, after)
  {
    StaysClosedAppend(before, a, b);
    assert forall e :: e in a + b <==> e in a || e in b;
  }

  /** One record: closing is recorded, and what is sent respects the latch. */
  lemma {:induction false} OfferHolds(c: Cursor, a: Arrival)
    ensures var (next, event) := Offer(c, a); Holds(c.failClosed, [event], next)
  {
    var (next, event) := Offer(c, a);
    assert [event][1..] == [];
  }

  lemma {:induction false} StreamHolds(c: Cursor, arrivals: seq<Arrival>, end: StreamEnd)
    ensures var run := ReadStream(c, arrivals, end); Holds(c.failClosed, run.events, run.cursor)
    decreases |arrivals|
  {
    if arrivals == [] {
      QuietHolds(c, c, Ended(c, end).events);
    } else {
      var (next, event) := Offer(c, arrivals[0]);
      OfferHolds(c, arrivals[0]);
      if !event.Unsent? {
        StreamHolds(next, arrivals[1..], end);
        var rest := ReadStream(next, arrivals[1..], end);
        HoldsAppend(c.failClosed, [event], next, rest.events, rest.cursor);
      }
    }
  }

  /** Events that concern no record, over a cursor whose latch did not move. */
  lemma {:induction false} QuietHolds(c: Cursor, d: Cursor, events: seq<Event>)
    requires c.failClosed == d.failClosed
    requires forall e :: e in events ==> e.Reported? || e.DedupLimit? || e.Waited?
    ensures Holds(c.failClosed, events, d)
    decreases |events|
  {
    if events != [] {
      var t := events[1..];
      assert events[0] in events;
      QuietHolds(c, d, t);
      assert events == [events[0]] + t;
    }
  }

  lemma {:induction false} SettleHolds(s: LoopState, before: nat, a: Attempt, closed: bool, events: seq<Event>)
    requires Holds(closed, events, s.cursor)
    ensures var p := Settle(s, before, a, events); Holds(closed, p.events, p.state.cursor)
  {
    hide Holds, StaysClosed, ClosedAfter;
    var p := Settle(s, before, a, events);
    var quiet := p.events[|events|..];
    assert p.events == events + quiet;
    QuietHolds(s.cursor, p.state.cursor, quiet);
    HoldsAppend(closed, events, s.cursor, quiet, p.state.cursor);
  }

  lemma {:induction false} IterateHolds(s: LoopState, a: Attempt)
    ensures var p := Iterate(s, a); Holds(s.cursor.failClosed, p.events, p.state.cursor)
  {
    var c, start, closed := Reconnected(s.cursor), [Reconnect(s.cursor.replayUncertain)], s.cursor.failClosed;
    match a.opening
    case Opened(arrivals, end) =>
      var run := ReadStream(c, arrivals, end);
      StreamHolds(c, arrivals, end);
      HoldsAppend(closed, start, c, run.events, run.cursor);
      if run.result != StreamCanceled && !(run.result == StreamEOF && a.terminalAtEnd) {
        var failures := if run.result == StreamError then OneMore(s.failures) else 0;
        SettleHolds(s.(cursor := run.cursor, failures := failures), s.cursor.time, a, closed, start + run.events);
      }
    case Refused(reported, denied) =>
      QuietHolds(c, c, [Reported(OpenFailed)]);
      HoldsAppend(closed, start, c, [Reported(OpenFailed)], c);
      if reported && !denied {
        SettleHolds(s.(cursor := c, failures := OneMore(s.failures)), s.cursor.time, a, closed,
                    start + [Reported(OpenFailed)]);
      }
  }

  lemma {:induction false} RunHolds(s: LoopState, script: seq<Attempt>)
    ensures var p := Run(s, script); Holds(s.cursor.failClosed, p.events, p.state.cursor)
    decreases |script|
  {
    if script != [] {
      var first := Iterate(s, script[0]);
      IterateHolds(s, script[0]);
      if first.outcome.None? {
        RunHolds(first.state, script[1..]);
        var rest := Run(first.state, script[1..]);
        HoldsAppend(s.cursor.failClosed, first.events, first.state.cursor, rest.events, rest.state.cursor);
      }
    }
  }

  lemma {:induction false} SessionHolds(c: Cursor, scripts: seq<seq<Attempt>>)
    ensures var run := Session(c, scripts); Holds(c.failClosed, run.events, run.cursor)
    decreases |scripts|
  {
    if scripts != [] {
      var first := Run(Starting(c), scripts[0]);
      RunHolds(Starting(c), scripts[0]);
      SessionHolds(first.state.cursor, scripts[1..]);
      var rest := Session(first.state.cursor, scripts[1..]);
      HoldsAppend(c.failClosed, first.events, first.state.cursor, rest.events, rest.cursor);
    }
  }

  lemma {:induction false} ClosedThenSensitive(closed: bool, events: seq<Event>, i: nat, j: nat)
    requires StaysClosed(closed, events) && i <= j < |events| && events[j].Sent?
    requires closed || Closes(events[i])
    ensures events[j].sensitive
    decreases |events|
  {
    var now := closed || Closes(events[0]);
    if j > 0 {
      ClosedThenSensitive(now, events[1..], if i == 0 then 0 else i - 1, j - 1);
    }
  }

  /** Over any session, for any server and any redactor: after an event that closes the latch, every
      record sent from this cursor is sensitive, the truncated record itself included. */
  lemma {:induction false} FailClosedLatch(c: Cursor, scripts: seq<seq<Attempt>>, i: nat, j: nat)
    requires var events := Session(c, scripts).events;
             i <= j < |events| && Closes(events[i]) && events[j].Sent?
    ensures Session(c, scripts).events[j].sensitive
  {
    SessionHolds(c, scripts);
    ClosedThenSensitive(c.failClosed, Session(c, scripts).events, i, j);
  }

  /** And only such an event closes it: the latch a session ends with is closed exactly if it was closed at the
      start or one of its events closed it. */
  lemma {:induction false} ClosedIff(c: Cursor, scripts: seq<seq<Attempt>>)
    ensures var run := Session(c, scripts);
            run.cursor.failClosed <==> c.failClosed || exists e :: e in run.events && Closes(e)
  {
    SessionHolds(c, scripts);
  }

  /** The records of a stream come out one by one, and each that is sent is sensitive exactly if the redactor
      says so or the latch was closed, before the stream or by one of its records up to this one. */
  lemma {:induction false} SensitiveIff(c: Cursor, arrivals: seq<Arrival>, end: StreamEnd, j: nat)
    requires var events := ReadStream(c, arrivals, end).events;
             j < |events| && events[j].Sent?
    ensures var events := ReadStream(c, arrivals, end).events;
            && j < |arrivals| && events[j].item == arrivals[j].item
            && (events[j].sensitive <==>
                  arrivals[j].tracked || c.failClosed || exists i :: 0 <= i <= j && Closes(events[i]))
    decreases |arrivals|
  {
    var events := ReadStream(c, arrivals, end).events;
    if arrivals != [] {
      var (next, event) := Offer(c, arrivals[0]);
      assert events[0] == event;
      OfferHolds(c, arrivals[0]);
      if j > 0 {
        var rest := ReadStream(next, arrivals[1..], end).events;
        assert events == [event] + rest;
        SensitiveIff(next, arrivals[1..], end, j - 1);
        assert Holds(c.failClosed, [event], next);
        assert next.failClosed <==> c.failClosed || Closes(events[0]) by { assert event in [event]; }
        if i :| 0 <= i <= j && Closes(events[i]) {
          assert i > 0 ==> rest[i - 1] == events[i];
        }
        if i :| 0 <= i <= j - 1 && Closes(rest[i]) {
          assert events[i + 1] == rest[i];
        }
      }
    }
  }

  /** A cursor whose latch is closed stays closed and only sends sensitive records. */
  lemma {:induction false} ClosedForGood(c: Cursor, scripts: seq<seq<Attempt>>, j: nat)
    requires c.failClosed
    ensures Session(c, scripts).cursor.failClosed
    ensures j < |Session(c, scripts).events| && Session(c, scripts).events[j].Sent? ==>
              Session(c, scripts).events[j].sensitive
  {
    SessionHolds(c, scripts);
    if j < |Session(c, scripts).events| && Session(c, scripts).events[j].Sent? {
      ClosedThenSensitive(true, Session(c, scripts).events, j, j);
    }
  }
}
