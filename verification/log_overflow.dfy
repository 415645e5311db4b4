/** What an overflow of the key table does to delivery: only it can make a record be sent again, and after one
    a replay of the boundary second does so. */
module LogOverflow {
  import opened Wrappers
  import opened LogCursors
  import opened LogReads
  import opened LogSources
  import opened LogDelivery

  // ---- Repetitions need an overflow ----

  lemma {:induction false} DeliveredAppend(a: seq<Event>, b: seq<Event>)
    ensures Delivered(a + b) == Delivered(a) + Delivered(b)
  {
    if a == [] {
      assert a + b == b;
    } else {
      var own := if a[0].Sent? then [a[0].item] else [];
      assert (a + b)[0] == a[0] && (a + b)[1..] == a[1..] + b;
      DeliveredAppend(a[1..], b);
      assert own + (Delivered(a[1..]) + Delivered(b)) == own + Delivered(a[1..]) + Delivered(b);
    }
  }

  lemma {:induction false} AdmittedAreKeys(log: seq<LogItem>, n: nat, s: nat)
    requires n <= |log|
    ensures Admitted(log[..n], s) <= KeysOf(log, s)
  {
    forall k | k in Admitted(log[..n], s) ensures k in KeysOf(log, s) {
      AdmittedOrigin(log[..n], s, k);
      var i :| 0 <= i < n && InSecond(log[..n][i], s) && Key(log[..n][i]) == k;
      assert log[..n][i] == log[i];
    }
  }

  /** A key is turned away only in a second with more than MAX_KEYS of them. */
  lemma {:induction false} OverflowNeedsManyKeys(log: seq<LogItem>, n: nat, item: LogItem)
    requires Orderly(log) && n <= |log| && Overflowed(log, n, item)
    ensures |KeysOf(log, Sec(item.time))| > MAX_KEYS
  {
    var s := Sec(item.time);
    var i :| 0 <= i < n && log[..n][i] == item;
    assert log[i] == item && item.time != 0;
    AdmittedFull(log[..n], s, i);
    AdmittedAreKeys(log, n, s);
    assert Key(item) in KeysOf(log, s);
    SubsetSize(Admitted(log[..n], s) + {Key(item)}, KeysOf(log, s));
  }

  /** Without an overflow, or before the first notice, in-order delivery has no repetition. */
  lemma {:induction false} NoRepetition(log: seq<LogItem>, n: nat, noticed: bool, events: seq<Event>, m: nat)
    requires Orderly(log) && n <= |log| && InOrder(log, n, noticed, events, m)
    requires FewKeys(log) || (!noticed && DedupLimit !in events)
    ensures n <= m <= |log| && Delivered(events) == log[n..m]
    decreases |events|
  {
    InOrderBounds(log, n, noticed, events, m);
    if events != [] {
      assert forall e :: e in events[1..] ==> e in events;
      match events[0]
      case Sent(item, sensitive) =>
        if n < |log| && item == log[n] && InOrder(log, n + 1, noticed, events[1..], m) {
          NoRepetition(log, n + 1, noticed, events[1..], m);
        } else {
          assert noticed;
          OverflowNeedsManyKeys(log, n, item);
          assert false;
        }
      case DedupLimit =>
        assert events[0] in events;
        NoRepetition(log, n, true, events[1..], m);
      case _ => NoRepetition(log, n, noticed, events[1..], m);
    }
  }

  // ---- Reads in which every delivery succeeds ----

  /** A server answer in which every delivery succeeds. */
  function Clean(items: seq<LogItem>): (arrivals: seq<Arrival>)
    ensures Items(arrivals) == items && forall a :: a in arrivals ==> a.deliverable
  {
    seq(|items|, i requires 0 <= i < |items| => Arrival(items[i], false, true))
  }

  /** An iteration that reads `items` and is then cut off without any further effect. */
  function CutRead(visible: nat, items: seq<LogItem>): Attempt {
    Attempt(visible, Opened(Clean(items), ContextDone), false, false, false, false, false)
  }

  lemma {:induction false} CutReadIterates(s: LoopState, visible: nat, items: seq<LogItem>)
    ensures var run := ReadStream(Reconnected(s.cursor), Clean(items), ContextDone);
            var start := [Reconnect(s.cursor.replayUncertain)];
            && Run(s, [CutRead(visible, items)])
               == Progress(s.(cursor := run.cursor), start + run.events, Some(SourceCanceled))
            && Delivered(start + run.events) == Delivered(run.events)
  {
    CutStream(Reconnected(s.cursor), Clean(items));
    DeliveredAppend([Reconnect(s.cursor.replayUncertain)],
                    ReadStream(Reconnected(s.cursor), Clean(items), ContextDone).events);
  }

  lemma {:induction false} CutReadServed(log: seq<LogItem>, s: LoopState, visible: nat, items: seq<LogItem>)
    requires visible <= |log| && items <= Serve(log[..visible], Sec(s.cursor.time))
    ensures ScriptServed(log, s, [CutRead(visible, items)])
  {
    var script := [CutRead(visible, items)];
    assert FromServer(log, s.cursor, script[0]);
    CutReadIterates(s, visible, items);
  }

  lemma {:induction false} CutStream(c: Cursor, arrivals: seq<Arrival>)
    ensures ReadStream(c, arrivals, ContextDone).result == StreamCanceled
    decreases |arrivals|
  {
    if arrivals != [] { CutStream(Offer(c, arrivals[0]).0, arrivals[1..]); }
  }

  lemma {:induction false} CleanDelivers(c: Cursor, arrivals: seq<Arrival>, end: StreamEnd)
    requires forall a :: a in arrivals ==> a.deliverable
    ensures forall e :: e in ReadStream(c, arrivals, end).events ==> !e.Unsent?
    decreases |arrivals|
  {
    if arrivals != [] {
      CleanDelivers(Offer(c, arrivals[0]).0, arrivals[1..], end);
      StreamUnfold(c, arrivals, end);
      assert arrivals[0] in arrivals;
    }
  }

  lemma {:induction false} StreamWithoutNotice(c: Cursor, arrivals: seq<Arrival>, end: StreamEnd)
    ensures DedupLimit !in ReadStream(c, arrivals, end).events
    decreases |arrivals|
  {
    if arrivals != [] {
      StreamWithoutNotice(Offer(c, arrivals[0]).0, arrivals[1..], end);
      StreamUnfold(c, arrivals, end);
    }
  }

  lemma {:induction false} FirstStream(log: seq<LogItem>, e: nat, end: StreamEnd)
    requires Orderly(log) && e <= |log|
    ensures var run := ReadStream(Reconnected(FRESH), Clean(log[..e]), end);
            && Delivered(run.events) == log[..e] && Tracks(run.cursor, log[..e]) && Announced(run.cursor, false)
            && forall x :: x in run.events ==> !x.Unsent?
  {
    hide ReadStream, Orderly, InOrder, Delivered, Tracks;
    var c, arrivals := Reconnected(FRESH), Clean(log[..e]);
    FreshTracks();
    assert log[..0] == [];
    PositionedAtStart(FRESH, log, 0, 0);
    var m := StreamInOrder(c, log, 0, 0, false, arrivals, end);
    CleanDelivers(c, arrivals, end);
    NoRepetition(log, 0, false, ReadStream(c, arrivals, end).events, m);
    assert log[0..e] == log[..e];
  }

  /** Reading log[..e] once, cleanly, from a fresh cursor delivers it. */
  lemma {:induction false} FirstRead(log: seq<LogItem>, e: nat)
    requires Orderly(log) && e <= |log|
    ensures ScriptServed(log, Starting(FRESH), [CutRead(e, log[..e])])
    ensures var run := Run(Starting(FRESH), [CutRead(e, log[..e])]);
            Delivered(run.events) == log[..e] && Tracks(run.state.cursor, log[..e])
  {
    hide Serve, ReadStream, Delivered, Run, ScriptServed, Tracks, Reconnected, Clean, CutRead;
    ServeAll(log[..e], 0);
    CutReadServed(log, Starting(FRESH), e, log[..e]);
    CutReadIterates(Starting(FRESH), e, log[..e]);
    FirstStream(log, e, ContextDone);
  }

  /** What a shorter log can serve, the whole log can. */
  lemma {:induction false} ServedLonger(log: seq<LogItem>, e: nat, s: LoopState, script: seq<Attempt>)
    requires e <= |log| && ScriptServed(log[..e], s, script)
    ensures ScriptServed(log, s, script)
    decreases |script|
  {
    if script != [] {
      var a := script[0];
      if a.opening.Opened? { assert log[..e][..a.visible] == log[..a.visible]; }
      if Iterate(s, a).outcome.None? { ServedLonger(log, e, Iterate(s, a).state, script[1..]); }
    }
  }

  // ---- After an overflow a replay repeats ----

  lemma {:induction false} PrefixOrderly(log: seq<LogItem>, e: nat)
    requires Orderly(log) && e <= |log|
    ensures Orderly(log[..e])
  {
  }

  /** A key of second `s` in log[..n] that found no place. */
  lemma {:induction false} SomeKeyRejected(log: seq<LogItem>, n: nat, s: nat) returns (j: nat)
    requires Orderly(log) && n <= |log| && |KeysOf(log[..n], s)| > MAX_KEYS
    ensures j < n && Sec(log[j].time) == s && Key(log[j]) !in Admitted(log[..n], s)
  {
    var h := log[..n];
    var keys := KeysOf(h, s);
    if keys <= Admitted(h, s) {
      SubsetSize(keys, Admitted(h, s));
      assert false;
    }
    var k :| k in keys && k !in Admitted(h, s);
    j :| 0 <= j < |h| && Sec(h[j].time) == s && Key(h[j]) == k;
    assert h[j] == log[j];
  }

  /** The log up to the end of a second with too many keys leaves the cursor uncertain there. */
  lemma {:induction false} TooManyKeysUncertain(log: seq<LogItem>, s: nat, e: nat, c: Cursor)
    requires Orderly(log) && |KeysOf(log, s)| > MAX_KEYS && e <= |log| && Tracks(c, log[..e])
    requires forall i :: 0 <= i < e ==> Sec(log[i].time) < s + 1
    requires forall i :: e <= i < |log| ==> Sec(log[i].time) >= s + 1
    ensures c.replayUncertain && Sec(c.time) == s
  {
    var h := log[..e];
    forall k | k in KeysOf(log, s) ensures k in KeysOf(h, s) {
      var i :| 0 <= i < |log| && Sec(log[i].time) == s && Key(log[i]) == k;
      assert h[i] == log[i];
    }
    SubsetSize(KeysOf(log, s), KeysOf(h, s));
    var j := SomeKeyRejected(log, e, s);
    assert h[j] == log[j];
    MaxTimeBounds(h, j);
    var top := MaxTimeReached(h);
    assert h[top] == log[top];
    assert InSecond(h[j], s);
  }

  /** Replaying the boundary second past a record that was turned away sends a record again. */
  lemma {:induction false} ReplayRepeats(c: Cursor, log: seq<LogItem>, n: nat, p: nat, j: nat, arrivals: seq<Arrival>)
    returns (k: nat)
    requires Orderly(log) && Positioned(c, log, n, p) && p <= j < n && Key(log[j]) !in c.counts
    requires Items(arrivals) == log[p..n] && forall a :: a in arrivals ==> a.deliverable
    ensures var sent := Delivered(ReadStream(c, arrivals, ContextDone).events);
            k < n && sent != [] && sent[0] == log[k] && Sec(log[k].time) == Sec(c.time)
    decreases |arrivals|
  {
    hide ReadStream, Tracks, Advanced, Items;
    StreamUnfold(c, arrivals, ContextDone);
    assert arrivals[0] in arrivals;
    if Key(log[p]) in c.counts {
      SuppressStep(c, log, n, p);
      k := ReplayRepeats(Consumed(c, log[p]), log, n, p + 1, j, arrivals[1..]);
    } else {
      RepeatStep(c, log, n, p);
      k := p;
    }
  }

  /** A cursor that was uncertain when the source stopped sends some record again, without any notice. */
  lemma {:induction false} UncertainRepeats(c: Cursor, h: seq<LogItem>) returns (script: seq<Attempt>, k: nat)
    requires Orderly(h) && Tracks(c, h) && c.replayUncertain
    ensures ScriptServed(h, Starting(c), script)
    ensures var events := Run(Starting(c), script).events;
            && DedupLimit !in events && k < |h| && Sec(h[k].time) == Sec(c.time)
            && Delivered(events) != [] && Delivered(events)[0] == h[k]
  {
    hide Serve, Positioned, ReadStream, Delivered, Run, ScriptServed, Orderly, Clean, CutRead;
    var s := Sec(c.time);
    var j :| 0 <= j < |h| && InSecond(h[j], s) && Key(h[j]) !in Admitted(h, s);
    assert h[..|h|] == h;
    var b := Boundary(h, s);
    ServedSuffix(h, |h|, s, b);
    PositionedAtStart(c, h, |h|, b);
    var items := h[b..];
    script := [CutRead(|h|, items)];
    CutReadServed(h, Starting(c), |h|, items);
    CutReadIterates(Starting(c), |h|, items);
    StreamWithoutNotice(Reconnected(c), Clean(items), ContextDone);
    assert h[b..|h|] == items;
    k := ReplayRepeats(Reconnected(c), h, |h|, b, j, Clean(items));
  }
}
