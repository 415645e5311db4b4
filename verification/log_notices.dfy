/** When the repetitions after an overflow are announced before they are sent. */
module LogNotices {
  import opened LogCursors
  import opened LogReads
  import opened LogSources
  import opened LogDelivery
  import opened LogOverflow

  // ---- A run that starts with no notice outstanding ----

  /** After any session at all, a run that starts with no notice outstanding repeats a record only after
      an overflow notice: one given by an earlier run, or its own. */
  lemma {:induction false} RepetitionsFollowNotice(log: seq<LogItem>, scripts: seq<seq<Attempt>>, last: seq<Attempt>)
    returns (n: nat, m: nat)
    requires Orderly(log) && SessionServed(log, FRESH, scripts) && !Session(FRESH, scripts).cursor.limited
    requires ScriptServed(log, Starting(Session(FRESH, scripts).cursor), last)
    ensures var session := Session(FRESH, scripts);
            && n <= m <= |log| && InOrder(log, 0, true, session.events, n) && Tracks(session.cursor, log[..n])
            && InOrder(log, n, DedupLimit in session.events, Run(Starting(session.cursor), last).events, m)
  {
    hide InOrder, Tracks, Orderly, SessionServed, ScriptServed, Session, Run;
    FreshTracks();
    assert log[..0] == [];
    var session := Session(FRESH, scripts);
    n := SessionInOrder(FRESH, log, 0, true, scripts);
    SessionAnnounces(FRESH, scripts, false);
    m := RunInOrder(Starting(session.cursor), log, n, DedupLimit in session.events, last);
  }

  /** In particular, if every run starts so, each repetition of the session follows a notice. */
  lemma {:induction false} SettledSessionFollowsNotice(log: seq<LogItem>, scripts: seq<seq<Attempt>>)
    returns (m: nat)
    requires Orderly(log) && SessionServed(log, FRESH, scripts) && StartsSettled(FRESH, scripts)
    ensures m <= |log| && InOrder(log, 0, false, Session(FRESH, scripts).events, m)
  {
    FreshTracks();
    assert log[..0] == [];
    m := SessionInOrder(FRESH, log, 0, false, scripts);
  }

  // ---- Exactly when a notice comes first ----

  /** Wherever the log goes on from `h` and whatever its server does, one more run repeats a record only
      after a notice; `noticed` says that there was one before. */
  ghost predicate RepeatsAnnounced(c: Cursor, h: seq<LogItem>, noticed: bool) {
    forall log, script :: Orderly(log) && h <= log && ScriptServed(log, Starting(c), script) ==>
                            exists m: nat :: InOrder(log, |h|, noticed, Run(Starting(c), script).events, m)
  }

  /** After everything in `h` was delivered, every further run repeats only after a notice exactly if there
      was one before or the cursor is certain. With `noticed` false: exactly if it is certain, the run gives
      its own notice first. */
  lemma {:induction false} AnnouncedWithinRunIff(c: Cursor, h: seq<LogItem>, noticed: bool)
    requires Orderly(h) && Tracks(c, h)
    ensures RepeatsAnnounced(c, h, noticed) <==> (c.replayUncertain ==> noticed)
  {
    hide InOrder, Tracks, Orderly, ScriptServed, Run, Delivered;
    if c.replayUncertain && !noticed {
      var script, k := UncertainRepeats(c, h);
      var events := Run(Starting(c), script).events;
      forall m: nat ensures !InOrder(h, |h|, noticed, events, m) {
        if InOrder(h, |h|, noticed, events, m) { NoRepetition(h, |h|, noticed, events, m); }
      }
    } else {
      forall log, script | Orderly(log) && h <= log && ScriptServed(log, Starting(c), script)
        ensures exists m: nat :: InOrder(log, |h|, noticed, Run(Starting(c), script).events, m)
      {
        assert log[..|h|] == h;
        var m := RunInOrder(Starting(c), log, |h|, noticed, script);
      }
    }
  }

  /** After a session that delivered `h`, every further run repeats only after some notice unless the
      session overflowed, gave no notice and left the notice outstanding. */
  lemma {:induction false} AnnouncedAfterSessionIff(h: seq<LogItem>, scripts: seq<seq<Attempt>>)
    requires Orderly(h) && Tracks(Session(FRESH, scripts).cursor, h)
    ensures var (c, noticed) := (Session(FRESH, scripts).cursor, DedupLimit in Session(FRESH, scripts).events);
            RepeatsAnnounced(c, h, noticed) <==> !(c.replayUncertain && c.limited && !noticed)
  {
    hide RepeatsAnnounced, Tracks, Orderly, Session;
    SessionAnnounces(FRESH, scripts, false);
    AnnouncedWithinRunIff(Session(FRESH, scripts).cursor, h, DedupLimit in Session(FRESH, scripts).events);
  }

  // ---- The failing start can be reached ----

  /** An iteration that reads `items` to the end of the stream and gives its notice, if it owes one, but
      is cancelled in its wait. */
  function CutWait(visible: nat, items: seq<LogItem>): Attempt {
    Attempt(visible, Opened(Clean(items), EndOfFile), false, false, false, true, false)
  }

  lemma {:induction false} NothingDelivered()
    ensures Delivered([]) == [] && Delivered([DedupLimit]) == [] && Delivered([Reconnect(false)]) == []
    ensures Delivered([Waited(BACKOFF_INITIAL)]) == []
  {
    assert [DedupLimit][1..] == [] && [Reconnect(false)][1..] == [] && [Waited(BACKOFF_INITIAL)][1..] == [];
  }

  lemma {:induction false} EndOfFileReached(c: Cursor, arrivals: seq<Arrival>)
    requires forall e :: e in ReadStream(c, arrivals, EndOfFile).events ==> !e.Unsent?
    ensures ReadStream(c, arrivals, EndOfFile).result == StreamEOF
    decreases |arrivals|
  {
    if arrivals != [] {
      StreamUnfold(c, arrivals, EndOfFile);
      EndOfFileReached(Offer(c, arrivals[0]).0, arrivals[1..]);
    }
  }

  lemma {:induction false} CutWaitIterates(visible: nat, items: seq<LogItem>)
    ensures var run := ReadStream(Reconnected(FRESH), Clean(items), EndOfFile);
            var p := Run(Starting(FRESH), [CutWait(visible, items)]);
            (forall x :: x in run.events ==> !x.Unsent?) ==>
              && p.state.cursor == run.cursor.(limited := false)
              && Delivered(p.events) == Delivered(run.events)
              && (run.cursor.limited ==> DedupLimit in p.events)
  {
    hide ReadStream, Delivered, Clean, Reconnected;
    var run := ReadStream(Reconnected(FRESH), Clean(items), EndOfFile);
    var p := Run(Starting(FRESH), [CutWait(visible, items)]);
    if forall x :: x in run.events ==> !x.Unsent? {
      EndOfFileReached(Reconnected(FRESH), Clean(items));
      var start, notice := [Reconnect(false)], if run.cursor.limited then [DedupLimit] else [];
      assert p.events == start + run.events + notice + [Waited(BACKOFF_INITIAL)];
      DeliveredAppend(start + run.events + notice, [Waited(BACKOFF_INITIAL)]);
      DeliveredAppend(start + run.events, notice);
      DeliveredAppend(start, run.events);
      NothingDelivered();
      if run.cursor.limited { assert p.events[|start + run.events|] == DedupLimit; }
    }
  }

  lemma {:induction false} CutWaitServed(log: seq<LogItem>, e: nat)
    requires e <= |log|
    ensures ScriptServed(log, Starting(FRESH), [CutWait(e, log[..e])])
  {
    ServeAll(log[..e], 0);
    assert FromServer(log, FRESH, CutWait(e, log[..e]));
  }

  lemma {:induction false} SameTrack(c: Cursor, h: seq<LogItem>)
    requires Tracks(c, h)
    ensures Tracks(c.(limited := false), h)
  {
  }

  lemma {:induction false} OneRun(log: seq<LogItem>, c: Cursor, first: seq<Attempt>)
    requires ScriptServed(log, Starting(c), first)
    ensures SessionServed(log, c, [first])
    ensures Session(c, [first]) == SessionRun(Run(Starting(c), first).state.cursor, Run(Starting(c), first).events)
  {
    assert [first][1..] == [];
    var one := Run(Starting(c), first);
    assert one.events + [] == one.events;
  }

  /** Over any log with too many keys in some second there is a session that gives its notice, is
      cancelled in the wait after it, and settles with the cursor uncertain and nothing outstanding; and a
      next run whose first record is one already sent, with no notice of its own. */
  lemma {:induction false} CancelledAfterNotice(log: seq<LogItem>, s: nat)
    returns (scripts: seq<seq<Attempt>>, e: nat, last: seq<Attempt>, k: nat)
    requires Orderly(log) && |KeysOf(log, s)| > MAX_KEYS
    ensures SessionServed(log, FRESH, scripts) && e <= |log|
    ensures var session := Session(FRESH, scripts);
            && Delivered(session.events) == log[..e] && Tracks(session.cursor, log[..e])
            && DedupLimit in session.events && session.cursor.replayUncertain && !session.cursor.limited
    ensures ScriptServed(log, Starting(Session(FRESH, scripts).cursor), last)
    ensures var events := Run(Starting(Session(FRESH, scripts).cursor), last).events;
            && DedupLimit !in events && k < e && Delivered(events) != [] && Delivered(events)[0] == log[k]
  {
    hide Serve, ReadStream, Delivered, Run, ScriptServed, SessionServed, Session, Tracks, Reconnected, Clean;
    hide CutWait, Orderly, KeysOf;
    e := Boundary(log, s + 1);
    var h := log[..e];
    PrefixOrderly(log, e);
    var first := [CutWait(e, h)];
    CutWaitServed(log, e);
    CutWaitIterates(e, h);
    FirstStream(log, e, EndOfFile);
    var one := Run(Starting(FRESH), first);
    var c := one.state.cursor;
    SameTrack(ReadStream(Reconnected(FRESH), Clean(h), EndOfFile).cursor, h);
    TooManyKeysUncertain(log, s, e, c);
    scripts := [first];
    OneRun(log, FRESH, first);
    last, k := UncertainRepeats(c, h);
    ServedLonger(log, e, Starting(c), last);
  }
}
