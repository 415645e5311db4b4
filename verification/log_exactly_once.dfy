/** The delivery theorems: at least once always, and exactly once precisely when no second of the log holds more
    distinct keys than the cursor can count. */
module LogExactlyOnce {
  import opened Wrappers
  import opened LogCursors
  import opened LogReads
  import opened LogSources
  import opened LogDelivery
  import opened LogOverflow

  // ---- No loss, and no repetition when keys are few ----

  /** Any session sends every record up to some point at least once, first sendings in log order;
      whatever else it sends is a sensitive repetition of an overflowed record. */
  lemma {:induction false} AtLeastOnce(log: seq<LogItem>, scripts: seq<seq<Attempt>>) returns (m: nat, at: seq<nat>)
    requires Orderly(log) && SessionServed(log, FRESH, scripts)
    ensures var events := Session(FRESH, scripts).events;
            && m <= |log| && InOrder(log, 0, true, events, m)
            && |at| == m
            && (forall i :: 0 <= i < m ==> at[i] < |events| && events[at[i]].Sent? && events[at[i]].item == log[i])
            && (forall i, j :: 0 <= i < j < m ==> at[i] < at[j])
            && Tracks(Session(FRESH, scripts).cursor, log[..m])
  {
    FreshTracks();
    assert log[..0] == [];
    m := SessionInOrder(FRESH, log, 0, true, scripts);
    at := InOrderSendsAll(log, 0, true, Session(FRESH, scripts).events, m);
  }

  /** No loss and no duplicate: what was sent is a prefix of the log. */
  lemma {:induction false} ExactlyOnce(log: seq<LogItem>, scripts: seq<seq<Attempt>>) returns (m: nat)
    requires Orderly(log) && FewKeys(log) && SessionServed(log, FRESH, scripts)
    ensures m <= |log| && Delivered(Session(FRESH, scripts).events) == log[..m]
  {
    var at;
    m, at := AtLeastOnce(log, scripts);
    NoRepetition(log, 0, true, Session(FRESH, scripts).events, m);
  }

  lemma {:induction false} LastRead(log: seq<LogItem>, s: LoopState, m: nat, last: Attempt)
    requires Orderly(log) && FewKeys(log) && m <= |log| && Tracks(s.cursor, log[..m])
    requires FromServer(log, s.cursor, last) && Iterate(s, last).outcome == Some(SourceCompleted)
    requires last.opening.Opened? && Items(last.opening.arrivals) == Serve(log, Sec(s.cursor.time))
    ensures Delivered(Iterate(s, last).events) == log[m..]
  {
    hide Iterate, FromServer, Tracks, Orderly, FewKeys, Serve, InOrder, Delivered;
    var end := IterateInOrder(s, log, m, true, last);
    NoRepetition(log, m, true, Iterate(s, last).events, end);
    assert log[m..end] == log[m..];
  }

  /** A session whose last read is completed on the whole remaining log has delivered the log. */
  lemma {:induction false} CompletedReadDeliversAll(log: seq<LogItem>, scripts: seq<seq<Attempt>>, s: LoopState,
                                                    last: Attempt)
    requires Orderly(log) && FewKeys(log) && SessionServed(log, FRESH, scripts)
    requires s == Starting(Session(FRESH, scripts).cursor) && FromServer(log, s.cursor, last)
    requires Iterate(s, last).outcome == Some(SourceCompleted)
    requires last.opening.Opened? && Items(last.opening.arrivals) == Serve(log, Sec(s.cursor.time))
    ensures Delivered(Session(FRESH, scripts).events + Iterate(s, last).events) == log
  {
    hide Iterate, Session, SessionServed, FromServer, Tracks, Orderly, FewKeys, Serve, InOrder, Delivered;
    var events := Session(FRESH, scripts).events;
    var m, at := AtLeastOnce(log, scripts);
    NoRepetition(log, 0, true, events, m);
    LastRead(log, s, m, last);
    DeliveredAppend(events, Iterate(s, last).events);
    assert log[..m] + log[m..] == log;
  }

  // ---- And only then ----

  lemma {:induction false} TwoRunsServed(log: seq<LogItem>, c: Cursor, first: seq<Attempt>, second: seq<Attempt>)
    requires ScriptServed(log, Starting(c), first)
    requires ScriptServed(log, Starting(Run(Starting(c), first).state.cursor), second)
    ensures SessionServed(log, c, [first, second])
  {
    assert [first, second][1..] == [second] && [second][1..] == [];
  }

  lemma {:induction false} TwoRuns(c: Cursor, first: seq<Attempt>, second: seq<Attempt>)
    ensures var one := Run(Starting(c), first);
            var two := Run(Starting(one.state.cursor), second);
            Session(c, [first, second]).events == one.events + two.events
  {
    var scripts := [first, second];
    assert scripts[1..] == [second] && [second][1..] == [];
    var one := Run(Starting(c), first);
    var two := Run(Starting(one.state.cursor), second);
    assert Session(one.state.cursor, [second]).events == two.events + [] == two.events;
  }

  /** A record sent once more after the whole part of the log that holds it. */
  lemma {:induction false} OneTooMany(log: seq<LogItem>, e: nat, sent: seq<LogItem>, item: LogItem)
    requires e < |sent| && e <= |log| && sent[..e] == log[..e] && sent[e] == item && item !in log[e..]
    ensures multiset(sent)[item] > multiset(log)[item]
  {
    assert log == log[..e] + log[e..] && sent == sent[..e] + [item] + sent[e + 1..];
  }

  lemma {:induction false} PrefixHoldsNoMore(part: seq<LogItem>, log: seq<LogItem>, item: LogItem)
    requires part <= log
    ensures multiset(part)[item] <= multiset(log)[item]
  {
    assert log == part + log[|part|..];
  }

  /** If some second holds too many keys, there is a session that sends every record up to its end and
      then one of them again: record k is sent more often than the log holds it. */
  lemma {:induction false} TooManyKeysRepeat(log: seq<LogItem>, s: nat)
    returns (scripts: seq<seq<Attempt>>, e: nat, k: nat)
    requires Orderly(log) && |KeysOf(log, s)| > MAX_KEYS
    ensures SessionServed(log, FRESH, scripts)
    ensures var sent := Delivered(Session(FRESH, scripts).events);
            && k < e < |sent| && e <= |log| && sent[..e] == log[..e] && sent[e] == log[k]
            && multiset(sent)[log[k]] > multiset(log)[log[k]] && !(sent <= log)
  {
    hide Serve, ReadStream, Delivered, Run, ScriptServed, SessionServed, Session, Tracks, Reconnected, Clean;
    hide CutRead, Orderly, KeysOf;
    e := Boundary(log, s + 1);
    var h := log[..e];
    PrefixOrderly(log, e);
    FirstRead(log, e);
    var first := [CutRead(e, h)];
    var one := Run(Starting(FRESH), first);
    var c := one.state.cursor;
    TooManyKeysUncertain(log, s, e, c);
    var second;
    second, k := UncertainRepeats(c, h);
    ServedLonger(log, e, Starting(c), second);
    scripts := [first, second];
    TwoRunsServed(log, FRESH, first, second);
    var two := Run(Starting(c), second);
    TwoRuns(FRESH, first, second);
    DeliveredAppend(one.events, two.events);
    var sent := Delivered(Session(FRESH, scripts).events);
    assert sent == h + Delivered(two.events);
    OneTooMany(log, e, sent, log[k]);
    if sent <= log { PrefixHoldsNoMore(sent, log, log[k]); }
  }

  /** Exactly-once delivery holds for every session over a log precisely when no second of it holds
      more than MAX_KEYS distinct keys. */
  lemma {:induction false} ExactlyOnceIff(log: seq<LogItem>)
    requires Orderly(log)
    ensures FewKeys(log) <==>
            forall scripts :: SessionServed(log, FRESH, scripts) ==> Delivered(Session(FRESH, scripts).events) <= log
  {
    if FewKeys(log) {
      forall scripts | SessionServed(log, FRESH, scripts)
        ensures Delivered(Session(FRESH, scripts).events) <= log
      {
        var m := ExactlyOnce(log, scripts);
      }
    } else {
      var s: nat :| |KeysOf(log, s)| > MAX_KEYS;
      var scripts, e, k := TooManyKeysRepeat(log, s);
    }
  }

  // ---- Logs with too many keys exist ----

  /** One record more than the table holds, all in the first second that can be stamped. */
  function CrowdedSecond(): (log: seq<LogItem>)
    ensures |log| == MAX_KEYS + 1
    ensures forall i :: 0 <= i < |log| ==> log[i] == LogItem(1_000_000_000 + i, [], 0, false)
  {
    seq(MAX_KEYS + 1, i requires 0 <= i => LogItem(1_000_000_000 + i, [], 0, false))
  }

  lemma {:induction false} KeysOfLast(log: seq<LogItem>, s: nat)
    requires log != [] && Sec(log[|log| - 1].time) == s
    ensures KeysOf(log, s) == KeysOf(log[..|log| - 1], s) + {Key(log[|log| - 1])}
  {
    hide Sec;
    var init, last := log[..|log| - 1], log[|log| - 1];
    forall k ensures k in KeysOf(log, s) <==> k in KeysOf(init, s) + {Key(last)} {
      if k in KeysOf(init, s) {
        var i :| 0 <= i < |init| && Sec(init[i].time) == s && Key(init[i]) == k;
        assert log[i] == init[i];
      }
      if k in KeysOf(log, s) {
        var i :| 0 <= i < |log| && Sec(log[i].time) == s && Key(log[i]) == k;
        if i < |init| { assert init[i] == log[i]; }
      }
    }
  }

  lemma {:induction false} DistinctKeys(log: seq<LogItem>, s: nat)
    requires forall i :: 0 <= i < |log| ==> Sec(log[i].time) == s
    requires forall i, j :: 0 <= i < j < |log| ==> Key(log[i]) != Key(log[j])
    ensures |KeysOf(log, s)| == |log|
    decreases |log|
  {
    if log == [] {
      assert KeysOf(log, s) == {};
    } else {
      hide Sec;
      var n := |log| - 1;
      DistinctKeys(log[..n], s);
      KeysOfLast(log, s);
      forall i | 0 <= i < n ensures Key(log[..n][i]) != Key(log[n]) { assert log[..n][i] == log[i]; }
    }
  }

  lemma {:induction false} CrowdedSecondOverflows()
    ensures Orderly(CrowdedSecond()) && |KeysOf(CrowdedSecond(), 1)| == MAX_KEYS + 1 && !FewKeys(CrowdedSecond())
  {
    var log := CrowdedSecond();
    forall i | 0 <= i < |log| ensures Sec(log[i].time) == 1 {}
    DistinctKeys(log, 1);
  }
}
