/** What reaches the output channel over whole sessions: any number of reconnects and restarts of
    one source, any cut points, any server that replays from a whole second. */
module LogDelivery {
  import opened Wrappers
  import opened LogCursors
  import opened LogReads
  import opened LogSources

  // ---- The server ----

  /** The records a log request returns: all those not before the requested whole second. */
  function Serve(log: seq<LogItem>, since: nat): seq<LogItem> {
    if log == [] then []
    else (if Sec(log[0].time) >= since then [log[0]] else []) + Serve(log[1..], since)
  }

  /** The stream is cut anywhere, and the log may not have been written to its end yet. */
  ghost predicate FromServer(log: seq<LogItem>, c: Cursor, a: Attempt) {
    a.opening.Opened? ==>
      && a.visible <= |log|
      && Items(a.opening.arrivals) <= Serve(log[..a.visible], Sec(c.time))
  }

  ghost predicate ScriptServed(log: seq<LogItem>, s: LoopState, script: seq<Attempt>)
    decreases |script|
  {
    script == [] ||
    (&& FromServer(log, s.cursor, script[0])
     && (Iterate(s, script[0]).outcome.None? ==>
           ScriptServed(log, Iterate(s, script[0]).state, script[1..])))
  }

  /** Several runs of the loop on one cursor: a cancelled source is started again where it stopped. */
  datatype SessionRun = SessionRun(cursor: Cursor, events: seq<Event>)

  function Session(c: Cursor, scripts: seq<seq<Attempt>>): SessionRun
    decreases |scripts|
  {
    if scripts == [] then SessionRun(c, [])
    else
      var first := Run(Starting(c), scripts[0]);
      var rest := Session(first.state.cursor, scripts[1..]);
      SessionRun(rest.cursor, first.events + rest.events)
  }

  ghost predicate SessionServed(log: seq<LogItem>, c: Cursor, scripts: seq<seq<Attempt>>)
    decreases |scripts|
  {
    scripts == [] ||
    (&& ScriptServed(log, Starting(c), scripts[0])
     && SessionServed(log, Run(Starting(c), scripts[0]).state.cursor, scripts[1..]))
  }

  // ---- The logs the collector is promised ----

  /** Every record is stamped, and whole seconds never decrease; inside a second any order goes. */
  ghost predicate Orderly(log: seq<LogItem>) {
    && (forall i :: 0 <= i < |log| ==> Sec(log[i].time) > 0)
    && (forall i, j :: 0 <= i < j < |log| ==> Sec(log[i].time) <= Sec(log[j].time))
  }

  function KeysOf(log: seq<LogItem>, s: nat): set<ReplayKey> {
    set i | 0 <= i < |log| && Sec(log[i].time) == s :: Key(log[i])
  }

  ghost predicate FewKeys(log: seq<LogItem>) {
    forall s: nat :: |KeysOf(log, s)| <= MAX_KEYS
  }

  function Delivered(events: seq<Event>): seq<LogItem> {
    if events == [] then []
    else (if events[0].Sent? then [events[0].item] else []) + Delivered(events[1..])
  }

  // ---- In-order delivery, with the only duplicates an overflow can cause ----

  /** A record already delivered whose key came after the first MAX_KEYS of its second. */
  ghost predicate Overflowed(log: seq<LogItem>, n: nat, item: LogItem)
    requires n <= |log|
  {
    item in log[..n] && Key(item) !in Admitted(log[..n], Sec(item.time))
  }

  /** `events` deliver log[n..m] in order. Anything sent besides is a sensitive repetition of an
      overflowed record, sent only after an overflow notice (`noticed`); only records delivered
      before are suppressed. */
  ghost predicate InOrder(log: seq<LogItem>, n: nat, noticed: bool, events: seq<Event>, m: nat)
    requires n <= |log|
    decreases |events|
  {
    if events == [] then n == m
    else
      match events[0]
      case Sent(item, sensitive) =>
        || (n < |log| && item == log[n] && InOrder(log, n + 1, noticed, events[1..], m))
        || (sensitive && noticed && Overflowed(log, n, item) && InOrder(log, n, noticed, events[1..], m))
      case Skipped(item) => item in log[..n] && InOrder(log, n, noticed, events[1..], m)
      case DedupLimit => InOrder(log, n, true, events[1..], m)
      case _ => InOrder(log, n, noticed, events[1..], m)
  }

  ghost function Noticed(noticed: bool, events: seq<Event>): bool { noticed || DedupLimit in events }

  lemma {:induction false} InOrderBounds(log: seq<LogItem>, n: nat, noticed: bool, events: seq<Event>, m: nat)
    requires n <= |log| && InOrder(log, n, noticed, events, m)
    ensures n <= m <= |log|
    decreases |events|
  {
    if events != [] {
      match events[0]
      case Sent(item, sensitive) =>
        if n < |log| && item == log[n] && InOrder(log, n + 1, noticed, events[1..], m) {
          InOrderBounds(log, n + 1, noticed, events[1..], m);
        } else {
          InOrderBounds(log, n, noticed, events[1..], m);
        }
      case DedupLimit => InOrderBounds(log, n, true, events[1..], m);
      case _ => InOrderBounds(log, n, noticed, events[1..], m);
    }
  }

  lemma {:induction false} InOrderAppend(log: seq<LogItem>, n: nat, noticed: bool, a: seq<Event>, m: nat,
                                         b: seq<Event>, q: nat)
    requires n <= |log| && m <= |log|
    requires InOrder(log, n, noticed, a, m) && InOrder(log, m, Noticed(noticed, a), b, q)
    ensures InOrder(log, n, noticed, a + b, q)
    decreases |a|
  {
    if a == [] {
      assert a + b == b;
    } else {
      var t := a[1..];
      assert (a + b)[1..] == t + b && (a + b)[0] == a[0];
      assert a == [a[0]] + t;
      match a[0]
      case Sent(item, sensitive) =>
        assert Noticed(noticed, a) == Noticed(noticed, t);
        if n < |log| && item == log[n] && InOrder(log, n + 1, noticed, t, m) {
          InOrderAppend(log, n + 1, noticed, t, m, b, q);
        } else {
          InOrderAppend(log, n, noticed, t, m, b, q);
        }
      case DedupLimit =>
        assert Noticed(noticed, a) == Noticed(true, t);
        InOrderAppend(log, n, true, t, m, b, q);
      case _ =>
        assert Noticed(noticed, a) == Noticed(noticed, t);
        InOrderAppend(log, n, noticed, t, m, b, q);
    }
  }

  /** The positions `at`, in increasing order, at which log[n..] is sent, record by record. */
  ghost predicate SendsAt(log: seq<LogItem>, n: nat, events: seq<Event>, at: seq<nat>) {
    && n + |at| <= |log|
    && (forall i :: 0 <= i < |at| ==> at[i] < |events| && events[at[i]].Sent? && events[at[i]].item == log[n + i])
    && (forall i, j :: 0 <= i < j < |at| ==> at[i] < at[j])
  }

  function Shifted(at: seq<nat>): (r: seq<nat>)
    ensures |r| == |at| && forall i :: 0 <= i < |r| ==> r[i] == at[i] + 1
  {
    seq(|at|, i requires 0 <= i < |at| => at[i] + 1)
  }

  lemma {:induction false} SendsLater(log: seq<LogItem>, n: nat, events: seq<Event>, at: seq<nat>)
    requires events != [] && SendsAt(log, n, events[1..], at)
    ensures SendsAt(log, n, events, Shifted(at))
  {
    assert forall i :: 0 <= i < |events| - 1 ==> events[1..][i] == events[i + 1];
  }

  lemma {:induction false} SendsFirst(log: seq<LogItem>, n: nat, events: seq<Event>, at: seq<nat>)
    requires events != [] && n < |log| && events[0].Sent? && events[0].item == log[n]
    requires SendsAt(log, n + 1, events[1..], at)
    ensures SendsAt(log, n, events, [0] + Shifted(at))
  {
    SendsLater(log, n + 1, events, at);
    var later, all := Shifted(at), [0] + Shifted(at);
    forall i | 0 <= i < |all|
      ensures all[i] < |events| && events[all[i]].Sent? && events[all[i]].item == log[n + i]
    {
      if i > 0 {
        assert all[i] == later[i - 1];
      }
    }
  }

  /** The independent reading of InOrder: each record of log[n..m] is sent, and the first sending of
      an earlier one comes first. */
  lemma {:induction false} InOrderSendsAll(log: seq<LogItem>, n: nat, noticed: bool, events: seq<Event>, m: nat)
    returns (at: seq<nat>)
    requires n <= |log| && InOrder(log, n, noticed, events, m)
    ensures n <= m <= |log| && |at| == m - n && SendsAt(log, n, events, at)
    decreases |events|
  {
    hide Overflowed, SendsAt;
    if events == [] {
      at := [];
      SendsNothing(log, n);
    } else {
      var tail;
      match events[0] {
        case Sent(item, sensitive) =>
          if n < |log| && item == log[n] && InOrder(log, n + 1, noticed, events[1..], m) {
            tail := InOrderSendsAll(log, n + 1, noticed, events[1..], m);
            SendsFirst(log, n, events, tail);
            return [0] + Shifted(tail);
          }
          tail := InOrderSendsAll(log, n, noticed, events[1..], m);
        case DedupLimit =>
          tail := InOrderSendsAll(log, n, true, events[1..], m);
        case _ =>
          tail := InOrderSendsAll(log, n, noticed, events[1..], m);
      }
      SendsLater(log, n, events, tail);
      at := Shifted(tail);
    }
  }

  lemma {:induction false} SendsNothing(log: seq<LogItem>, n: nat)
    requires n <= |log|
    ensures SendsAt(log, n, [], [])
  {
  }

  // ---- The served records are a suffix of the log ----

  lemma {:induction false} ServeAppend(a: seq<LogItem>, b: seq<LogItem>, since: nat)
    ensures Serve(a + b, since) == Serve(a, since) + Serve(b, since)
  {
    if a == [] {
      assert a + b == b;
    } else {
      hide Sec;
      var head := if Sec(a[0].time) >= since then [a[0]] else [];
      assert (a + b)[0] == a[0] && (a + b)[1..] == a[1..] + b;
      ServeAppend(a[1..], b, since);
      assert head + (Serve(a[1..], since) + Serve(b, since)) == head + Serve(a[1..], since) + Serve(b, since);
    }
  }

  lemma {:induction false} ServeAll(log: seq<LogItem>, since: nat)
    requires forall i :: 0 <= i < |log| ==> Sec(log[i].time) >= since
    ensures Serve(log, since) == log
  {
    if log != [] { ServeAll(log[1..], since); }
  }

  lemma {:induction false} ServeNone(log: seq<LogItem>, since: nat)
    requires forall i :: 0 <= i < |log| ==> Sec(log[i].time) < since
    ensures Serve(log, since) == []
  {
    if log != [] { ServeNone(log[1..], since); }
  }

  /** Where second `since` begins. */
  lemma {:induction false} Boundary(log: seq<LogItem>, since: nat) returns (b: nat)
    requires Orderly(log)
    ensures b <= |log| && (since == 0 ==> b == 0)
    ensures forall i :: 0 <= i < b ==> Sec(log[i].time) < since
    ensures forall i :: b <= i < |log| ==> Sec(log[i].time) >= since
    decreases |log|
  {
    if log == [] || Sec(log[|log| - 1].time) < since {
      b := |log|;
    } else {
      b := Boundary(log[..|log| - 1], since);
    }
  }

  /** Whatever part of the log exists, the answer is a prefix of the full log from the boundary on. */
  lemma {:induction false} ServedSuffix(log: seq<LogItem>, visible: nat, since: nat, b: nat)
    requires visible <= |log| && b <= |log|
    requires forall i :: 0 <= i < b ==> Sec(log[i].time) < since
    requires forall i :: b <= i < |log| ==> Sec(log[i].time) >= since
    ensures Serve(log[..visible], since) <= log[b..]
    ensures Serve(log, since) == log[b..]
  {
    hide Serve, Sec;
    ServedFrom(log, since, b);
    if visible <= b {
      ServeNone(log[..visible], since);
    } else {
      assert forall i :: 0 <= i < visible ==> log[..visible][i] == log[i];
      ServedFrom(log[..visible], since, b);
      assert log[..visible][b..] == log[b..][..visible - b];
    }
  }

  lemma {:induction false} ServedFrom(log: seq<LogItem>, since: nat, b: nat)
    requires b <= |log|
    requires forall i :: 0 <= i < b ==> Sec(log[i].time) < since
    requires forall i :: b <= i < |log| ==> Sec(log[i].time) >= since
    ensures Serve(log, since) == log[b..]
  {
    hide Serve, Sec;
    assert log == log[..b] + log[b..];
    ServeAppend(log[..b], log[b..], since);
    ServeNone(log[..b], since);
    ServeAll(log[b..], since);
  }

  // ---- One stream ----

  /** The cursor has committed log[..n] and the stream has reached position p <= n: the remaining
      allowance is exactly the counted part of log[p..n]. */
  ghost predicate Positioned(c: Cursor, log: seq<LogItem>, n: nat, p: nat) {
    && p <= n <= |log| && Tracks(c, log[..n])
    && (forall i :: p <= i < n ==> Sec(log[i].time) == Sec(c.time))
    && (forall k :: Allowance(c, k) == if k in c.counts then Count(log[p..n], k) else 0)
  }

  lemma {:induction false} PositionedAtStart(c: Cursor, log: seq<LogItem>, n: nat, b: nat)
    requires Orderly(log) && n <= |log| && Tracks(c, log[..n])
    requires b <= |log| && (Sec(c.time) == 0 ==> b == 0)
    requires forall i :: 0 <= i < b ==> Sec(log[i].time) < Sec(c.time)
    requires forall i :: b <= i < |log| ==> Sec(log[i].time) >= Sec(c.time)
    ensures b <= n && Positioned(Reconnected(c), log, n, b)
  {
    var h := log[..n];
    if n > 0 {
      var top := MaxTimeReached(h);
      assert h[top] == log[top];
      forall i | b <= i < n ensures Sec(log[i].time) == Sec(c.time) {
        MaxTimeBounds(h, i);
        assert h[i] == log[i];
      }
    }
    forall k ensures Allowance(Reconnected(c), k) == if k in c.counts then Count(log[b..n], k) else 0 {
      if k in c.counts { WholeCountIsOwed(log, n, b, Sec(c.time), k); }
    }
  }

  /** All commits of a boundary key lie in the part the server replays. */
  lemma {:induction false} WholeCountIsOwed(log: seq<LogItem>, n: nat, b: nat, s: nat, k: ReplayKey)
    requires b <= n <= |log| && k in Admitted(log[..n], s)
    requires forall i :: 0 <= i < b ==> Sec(log[i].time) < s
    ensures Count(log[..n], k) == Count(log[b..n], k)
  {
    AdmittedOrigin(log[..n], s, k);
    assert Sec(k.time) == s;
    assert log[..n] == log[..b] + log[b..n];
    CountSplit(log[..b], log[b..n], k);
    forall i | 0 <= i < b ensures Key(log[..b][i]) != k {
      assert log[..b][i] == log[i];
    }
    CountAbsent(log[..b], k);
  }

  /** Before the stream catches up, a counted record is suppressed and the rest is still owed. */
  lemma {:induction false} SuppressStep(c: Cursor, log: seq<LogItem>, n: nat, p: nat)
    requires Positioned(c, log, n, p) && p < n && log[p].time != 0 && Key(log[p]) in c.counts
    ensures IsReplay(c, log[p]) && Positioned(Consumed(c, log[p]), log, n, p + 1)
  {
    var item := log[p];
    CountHead(log[p..n]);
    assert log[p..n][1..] == log[p + 1..n];
    var d := Consumed(c, item);
    forall k ensures Allowance(d, k) == if k in c.counts then Count(log[p + 1..n], k) else 0 {
      assert Allowance(c, k) == if k in c.counts then Count(log[p..n], k) else 0;
    }
  }

  lemma {:induction false} CountHead(h: seq<LogItem>)
    requires h != []
    ensures forall k :: Count(h, k) == (if Key(h[0]) == k then 1 else 0) + Count(h[1..], k)
  {
    forall k ensures Count(h, k) == (if Key(h[0]) == k then 1 else 0) + Count(h[1..], k) {
      assert h == [h[0]] + h[1..] && [h[0]][..0] == [];
      CountSplit([h[0]], h[1..], k);
    }
  }

  /** Before the stream catches up, an uncounted record is sent again and nothing else changes. */
  lemma {:induction false} RepeatStep(c: Cursor, log: seq<LogItem>, n: nat, p: nat)
    requires Positioned(c, log, n, p) && p < n && log[p].time != 0 && Key(log[p]) !in c.counts
    ensures !IsReplay(c, log[p]) && c.replayUncertain && Overflowed(log, n, log[p])
    ensures Advanced(c, log[p]) == c.(limited := true)
    ensures Positioned(Advanced(c, log[p]), log, n, p + 1)
  {
    var item := log[p];
    assert log[..n][p] == item;
    assert Allowance(c, Key(item)) == 0;
    RejectedAgain(c, log[..n], p);
    CountHead(log[p..n]);
    assert log[p..n][1..] == log[p + 1..n];
    var d := c.(limited := true);
    forall k ensures Allowance(d, k) == if k in c.counts then Count(log[p + 1..n], k) else 0 {
      assert Allowance(d, k) == Allowance(c, k);
    }
  }

  /** Once the stream has caught up, every record is new, is sent, and is committed. */
  lemma {:induction false} FreshStep(c: Cursor, log: seq<LogItem>, n: nat)
    requires Positioned(c, log, n, n) && n < |log| && Stamped(log[n])
    ensures !IsReplay(c, log[n]) && Positioned(Advanced(c, log[n]), log, n + 1, n + 1)
  {
    var item, d := log[n], Advanced(c, log[n]);
    assert log[n..n] == [] && log[n + 1..n + 1] == [];
    forall k ensures Allowance(c, k) == 0 && Allowance(d, k) == 0 {
      AdvancedAllowance(c, item, k);
    }
    AdvanceTracks(c, log[..n], item);
    assert log[..n + 1] == log[..n] + [item];
  }

  /** Committing a record keeps the replay allowance or drops it whole. */
  lemma {:induction false} AdvancedAllowance(c: Cursor, item: LogItem, k: ReplayKey)
    ensures Allowance(Advanced(c, item), k) in {0, Allowance(c, k)}
  {
  }

  /** An overflow that was never announced is still waiting to be. */
  ghost predicate Announced(c: Cursor, noticed: bool) {
    c.replayUncertain && !c.limited ==> noticed
  }

  function Max(a: nat, b: nat): nat { if a < b then b else a }

  /** A stream may repeat records only after a notice, and then it is closed. */
  ghost predicate Careful(c: Cursor, behind: bool, noticed: bool) {
    Announced(c, noticed) && (behind && c.replayUncertain ==> c.failClosed && noticed)
  }

  /** One record of the stream: suppressed, repeated after an overflow, or the next new one. */
  lemma {:induction false} OfferStep(c: Cursor, log: seq<LogItem>, n: nat, p: nat, noticed: bool,
                                     a: Arrival) returns (m: nat)
    requires Orderly(log) && Positioned(c, log, n, p) && p < |log| && a.item == log[p]
    requires Careful(c, p < n, noticed)
    ensures var (next, event) := Offer(c, a);
            && (event.Sent? || event.Unsent? || event.Skipped?)
            && (event.Unsent? ==> m == n && Tracks(next, log[..n]) && Announced(next, noticed))
            && (!event.Unsent? ==>
                  && m == Max(n, p + 1) && Positioned(next, log, m, p + 1)
                  && Careful(next, p + 1 < m, noticed))
            && (event.Skipped? ==> m == n && event.item in log[..n])
            && (event.Sent? ==>
                  || (n < |log| && m == n + 1 && event.item == log[n])
                  || (m == n && event.sensitive && noticed && Overflowed(log, n, event.item)))
  {
    var latched := Latched(c, a.item);
    assert Positioned(latched, log, n, p);
    m := n;
    if p < n && Key(a.item) in c.counts {
      SuppressStep(c, log, n, p);
      assert log[..n][p] == a.item;
    } else if p < n {
      RepeatStep(c, log, n, p);
      RepeatStep(latched, log, n, p);
    } else {
      FreshStep(c, log, n);
      FreshStep(latched, log, n);
      AdvanceAnnounces(latched, a.item, noticed);
      if a.deliverable { m := n + 1; }
    }
  }

  /** A whole stream. Unless a delivery fails it brings the log forward to its own end. */
  lemma {:induction false} StreamInOrder(c: Cursor, log: seq<LogItem>, n: nat, p: nat, noticed: bool,
                                         arrivals: seq<Arrival>, end: StreamEnd) returns (m: nat)
    requires Orderly(log) && Positioned(c, log, n, p)
    requires Items(arrivals) <= log[p..]
    requires Careful(c, p < n, noticed)
    ensures var run := ReadStream(c, arrivals, end);
            && n <= m <= |log| && Tracks(run.cursor, log[..m]) && Announced(run.cursor, noticed)
            && InOrder(log, n, noticed, run.events, m) && DedupLimit !in run.events
            && ((forall e :: e in run.events ==> !e.Unsent?) ==> m == Max(n, p + |arrivals|))
    decreases |arrivals|
  {
    hide InOrder, Offer, ReadStream, Positioned, Orderly, Tracks, Overflowed, Careful, Announced;
    PositionedBounds(c, log, n, p);
    if arrivals == [] {
      m := n;
      StreamEnds(c, log, n, p, noticed, arrivals, end);
    } else {
      var a, rest := arrivals[0], arrivals[1..];
      ItemsTail(arrivals, log, p);
      var (next, event) := Offer(c, a);
      StreamStep(c, arrivals, end);
      m := OfferStep(c, log, n, p, noticed, a);
      if event.Unsent? {
        NothingInOrder(log, n, noticed);
        InOrderCons(log, n, noticed, event, n, [], n);
        assert [event] + [] == [event];
        assert event in ReadStream(c, arrivals, end).events;
      } else {
        var mid := m;
        m := StreamInOrder(next, log, mid, p + 1, noticed, rest, end);
        InOrderCons(log, n, noticed, event, mid, ReadStream(next, rest, end).events, m);
      }
    }
  }

  lemma {:induction false} PositionedBounds(c: Cursor, log: seq<LogItem>, n: nat, p: nat)
    requires Positioned(c, log, n, p)
    ensures p <= n <= |log|
  {
  }

  lemma {:induction false} StreamEnds(c: Cursor, log: seq<LogItem>, n: nat, p: nat, noticed: bool,
                                      arrivals: seq<Arrival>, end: StreamEnd)
    requires Positioned(c, log, n, p) && Careful(c, p < n, noticed) && arrivals == []
    ensures var run := ReadStream(c, arrivals, end);
            && Tracks(run.cursor, log[..n]) && Announced(run.cursor, noticed)
            && InOrder(log, n, noticed, run.events, n) && DedupLimit !in run.events && p <= n <= |log|
  {
    hide Tracks;
    var run := ReadStream(c, arrivals, end);
    assert run.events != [] ==> run.events[1..] == [];
  }

  lemma {:induction false} StreamStep(c: Cursor, arrivals: seq<Arrival>, end: StreamEnd)
    requires arrivals != []
    ensures var (next, event) := Offer(c, arrivals[0]);
            var run, rest := ReadStream(c, arrivals, end), ReadStream(next, arrivals[1..], end);
            if event.Unsent? then run.cursor == next && run.events == [event]
            else run.cursor == rest.cursor && run.events == [event] + rest.events
  {
  }

  lemma {:induction false} NothingInOrder(log: seq<LogItem>, n: nat, noticed: bool)
    requires n <= |log|
    ensures InOrder(log, n, noticed, [], n)
  {
  }

  /** What one event of a stream contributes to in-order delivery. */
  lemma {:induction false} InOrderCons(log: seq<LogItem>, n: nat, noticed: bool, event: Event, mid: nat,
                                       tail: seq<Event>, m: nat)
    requires n <= |log| && mid <= |log| && InOrder(log, mid, noticed, tail, m)
    requires event.Sent? || event.Unsent? || event.Skipped?
    requires event.Unsent? ==> mid == n
    requires event.Skipped? ==> mid == n && event.item in log[..n]
    requires event.Sent? ==>
               || (n < |log| && mid == n + 1 && event.item == log[n])
               || (mid == n && event.sensitive && noticed && Overflowed(log, n, event.item))
    ensures InOrder(log, n, noticed, [event] + tail, m)
  {
    var whole := [event] + tail;
    assert whole[0] == event && whole[1..] == tail;
  }

  lemma {:induction false} ItemsTail(arrivals: seq<Arrival>, log: seq<LogItem>, p: nat)
    requires p <= |log| && Items(arrivals) <= log[p..] && arrivals != []
    ensures p < |log| && log[p] == arrivals[0].item && Items(arrivals[1..]) <= log[p + 1..]
  {
    assert Items(arrivals)[0] == log[p..][0];
    var tail := Items(arrivals[1..]);
    assert forall i :: 0 <= i < |tail| ==> tail[i] == Items(arrivals)[i + 1] == log[p..][i + 1];
  }

  lemma {:induction false} AdvanceAnnounces(c: Cursor, item: LogItem, noticed: bool)
    requires Announced(c, noticed)
    ensures Announced(Advanced(c, item), noticed)
  {
  }

  lemma {:induction false} StreamUnfold(c: Cursor, arrivals: seq<Arrival>, end: StreamEnd)
    requires arrivals != []
    ensures var (next, event) := Offer(c, arrivals[0]);
            var run := ReadStream(c, arrivals, end);
            && run.events != [] && run.events[0] == event
            && run.events[1..] == (if event.Unsent? then [] else ReadStream(next, arrivals[1..], end).events)
            && forall e :: e in run.events ==> e == event || e in run.events[1..]
  {
  }

  // ---- Iterations and runs ----

  /** Events that neither deliver nor announce leave the frontier where it is. */
  lemma {:induction false} QuietAppend(log: seq<LogItem>, n: nat, noticed: bool, a: seq<Event>, m: nat,
                                       quiet: seq<Event>)
    requires n <= |log| && m <= |log| && InOrder(log, n, noticed, a, m)
    requires forall e :: e in quiet ==> !e.Sent? && !e.Skipped?
    ensures InOrder(log, n, noticed, a + quiet, m)
  {
    QuietInOrder(log, m, Noticed(noticed, a), quiet);
    InOrderAppend(log, n, noticed, a, m, quiet, m);
  }

  lemma {:induction false} QuietInOrder(log: seq<LogItem>, n: nat, noticed: bool, quiet: seq<Event>)
    requires n <= |log| && forall e :: e in quiet ==> !e.Sent? && !e.Skipped?
    ensures InOrder(log, n, noticed, quiet, n)
    decreases |quiet|
  {
    if quiet != [] {
      QuietInOrder(log, n, noticed || quiet[0].DedupLimit?, quiet[1..]);
    }
  }

  lemma {:induction false} SettleInOrder(s: LoopState, log: seq<LogItem>, n: nat, noticed: bool, before: nat,
                                         a: Attempt, events: seq<Event>, m: nat)
    requires n <= |log| && m <= |log| && InOrder(log, n, noticed, events, m)
    requires Tracks(s.cursor, log[..m]) && Announced(s.cursor, noticed)
    ensures var p := Settle(s, before, a, events);
            && InOrder(log, n, noticed, p.events, m) && Tracks(p.state.cursor, log[..m])
            && Announced(p.state.cursor, Noticed(noticed, p.events))
            && (p.outcome.None? ==> !p.state.cursor.limited)
  {
    var p := Settle(s, before, a, events);
    var quiet := p.events[|events|..];
    assert p.events == events + quiet;
    QuietAppend(log, n, noticed, events, m, quiet);
    if !(a.terminalAtBudget && s.failures >= RETRY_COUNT) && s.cursor.limited && a.noticeSent {
      assert p.events[|events|] == DedupLimit;
    }
  }

  lemma {:induction false} ReconnectInOrder(log: seq<LogItem>, n: nat, noticed: bool, uncertain: bool,
                                            events: seq<Event>, m: nat)
    requires n <= |log| && InOrder(log, n, noticed, events, m)
    ensures InOrder(log, n, noticed, [Reconnect(uncertain)] + events, m)
  {
    assert ([Reconnect(uncertain)] + events)[1..] == events;
  }

  /** Reconnecting and reading what the server replays from the boundary second. */
  lemma {:induction false} ReadInOrder(c: Cursor, log: seq<LogItem>, n: nat, noticed: bool, visible: nat,
                                       arrivals: seq<Arrival>, end: StreamEnd) returns (m: nat)
    requires Orderly(log) && n <= |log| && Tracks(c, log[..n])
    requires visible <= |log| && Items(arrivals) <= Serve(log[..visible], Sec(c.time))
    requires c.replayUncertain ==> noticed
    ensures var run := ReadStream(Reconnected(c), arrivals, end);
            && n <= m <= |log| && Tracks(run.cursor, log[..m]) && Announced(run.cursor, noticed)
            && InOrder(log, n, noticed, [Reconnect(c.replayUncertain)] + run.events, m)
            && (run.result == StreamEOF && Items(arrivals) == Serve(log, Sec(c.time)) ==> m == |log|)
  {
    hide InOrder, Tracks, Orderly, Serve;
    var b := Boundary(log, Sec(c.time));
    ServedSuffix(log, visible, Sec(c.time), b);
    PositionedAtStart(c, log, n, b);
    m := StreamInOrder(Reconnected(c), log, n, b, noticed, arrivals, end);
    var run := ReadStream(Reconnected(c), arrivals, end);
    if run.result == StreamEOF { StreamDelivers(Reconnected(c), arrivals, end); }
    ReconnectInOrder(log, n, noticed, c.replayUncertain, run.events, m);
  }

  /** One iteration: reconnect, serve from the boundary second, settle. */
  lemma {:induction false} IterateInOrder(s: LoopState, log: seq<LogItem>, n: nat, noticed: bool,
                                          a: Attempt) returns (m: nat)
    requires Orderly(log) && n <= |log| && Tracks(s.cursor, log[..n]) && FromServer(log, s.cursor, a)
    requires s.cursor.replayUncertain ==> noticed
    ensures var p := Iterate(s, a);
            && n <= m <= |log| && Tracks(p.state.cursor, log[..m])
            && InOrder(log, n, noticed, p.events, m)
            && Announced(p.state.cursor, Noticed(noticed, p.events))
            && (p.outcome.None? ==> !p.state.cursor.limited)
            && (p.outcome == Some(SourceCompleted) ==> a.opening.Opened?)
            && (p.outcome == Some(SourceCompleted) ==>
                  Items(a.opening.arrivals) == Serve(log, Sec(s.cursor.time)) ==> m == |log|)
  {
    var start := [Reconnect(s.cursor.replayUncertain)];
    match a.opening
    case Opened(arrivals, end) =>
      m := ReadInOrder(s.cursor, log, n, noticed, a.visible, arrivals, end);
      var run := ReadStream(Reconnected(s.cursor), arrivals, end);
      if run.result != StreamCanceled && !(run.result == StreamEOF && a.terminalAtEnd) {
        var failures := if run.result == StreamError then OneMore(s.failures) else 0;
        SettleInOrder(s.(cursor := run.cursor, failures := failures), log, n, noticed, s.cursor.time, a,
                      start + run.events, m);
      }
    case Refused(reported, denied) =>
      m := n;
      RefusedInOrder(s, log, n, noticed, a);
  }

  lemma {:induction false} RefusedInOrder(s: LoopState, log: seq<LogItem>, n: nat, noticed: bool, a: Attempt)
    requires n <= |log| && Tracks(s.cursor, log[..n]) && a.opening.Refused?
    requires s.cursor.replayUncertain ==> noticed
    ensures var p := Iterate(s, a);
            && InOrder(log, n, noticed, p.events, n) && Tracks(p.state.cursor, log[..n])
            && Announced(p.state.cursor, Noticed(noticed, p.events))
            && (p.outcome.None? ==> !p.state.cursor.limited)
            && p.outcome != Some(SourceCompleted)
  {
    var c, start := Reconnected(s.cursor), [Reconnect(s.cursor.replayUncertain)];
    QuietInOrder(log, n, noticed, start);
    QuietInOrder(log, n, noticed, start + [Reported(OpenFailed)]);
    if a.opening.reported && !a.opening.denied {
      SettleInOrder(s.(cursor := c, failures := OneMore(s.failures)), log, n, noticed, s.cursor.time, a,
                    start + [Reported(OpenFailed)], n);
    }
  }

  lemma {:induction false} StreamDelivers(c: Cursor, arrivals: seq<Arrival>, end: StreamEnd)
    requires ReadStream(c, arrivals, end).result != StreamCanceled
    ensures forall e :: e in ReadStream(c, arrivals, end).events ==> !e.Unsent?
    decreases |arrivals|
  {
    if arrivals != [] {
      var (next, event) := Offer(c, arrivals[0]);
      StreamDelivers(next, arrivals[1..], end);
      StreamUnfold(c, arrivals, end);
    }
  }

  lemma {:induction false} RunInOrder(s: LoopState, log: seq<LogItem>, n: nat, noticed: bool, script: seq<Attempt>)
    returns (m: nat)
    requires Orderly(log) && n <= |log| && Tracks(s.cursor, log[..n]) && ScriptServed(log, s, script)
    requires s.cursor.replayUncertain ==> noticed
    ensures var p := Run(s, script);
            && n <= m <= |log| && Tracks(p.state.cursor, log[..m])
            && InOrder(log, n, noticed, p.events, m)
            && Announced(p.state.cursor, Noticed(noticed, p.events))
    decreases |script|
  {
    if script == [] {
      m := n;
    } else {
      var first := Iterate(s, script[0]);
      var mid := IterateInOrder(s, log, n, noticed, script[0]);
      if first.outcome.Some? {
        m := mid;
      } else {
        m := RunInOrder(first.state, log, mid, Noticed(noticed, first.events), script[1..]);
        InOrderAppend(log, n, noticed, first.events, mid, Run(first.state, script[1..]).events, m);
      }
    }
  }

  // ---- An overflow is announced before it is forgotten, whatever the server sends ----

  lemma {:induction false} StreamAnnounces(c: Cursor, arrivals: seq<Arrival>, end: StreamEnd, noticed: bool)
    requires Announced(c, noticed)
    ensures Announced(ReadStream(c, arrivals, end).cursor, noticed)
    decreases |arrivals|
  {
    if arrivals != [] {
      var (next, event) := Offer(c, arrivals[0]);
      assert Announced(next, noticed);
      StreamAnnounces(next, arrivals[1..], end, noticed);
    }
  }

  lemma {:induction false} SettleAnnounces(s: LoopState, before: nat, a: Attempt, events: seq<Event>, noticed: bool)
    requires Announced(s.cursor, noticed)
    ensures var p := Settle(s, before, a, events);
            Announced(p.state.cursor, Noticed(noticed, p.events))
  {
    var p := Settle(s, before, a, events);
    if !(a.terminalAtBudget && s.failures >= RETRY_COUNT) && s.cursor.limited && a.noticeSent {
      assert p.events[|events|] == DedupLimit;
    }
  }

  lemma {:induction false} IterateAnnounces(s: LoopState, a: Attempt, noticed: bool)
    requires Announced(s.cursor, noticed)
    ensures Announced(Iterate(s, a).state.cursor, Noticed(noticed, Iterate(s, a).events))
  {
    hide Settle;
    var c, start := Reconnected(s.cursor), [Reconnect(s.cursor.replayUncertain)];
    match a.opening
    case Opened(arrivals, end) =>
      var run := ReadStream(c, arrivals, end);
      StreamAnnounces(c, arrivals, end, noticed);
      var failures := if run.result == StreamError then OneMore(s.failures) else 0;
      SettleAnnounces(s.(cursor := run.cursor, failures := failures), s.cursor.time, a, start + run.events, noticed);
    case Refused(reported, denied) =>
      SettleAnnounces(s.(cursor := c, failures := OneMore(s.failures)), s.cursor.time, a,
                      start + [Reported(OpenFailed)], noticed);
  }

  lemma {:induction false} RunAnnounces(s: LoopState, script: seq<Attempt>, noticed: bool)
    requires Announced(s.cursor, noticed)
    ensures Announced(Run(s, script).state.cursor, Noticed(noticed, Run(s, script).events))
    decreases |script|
  {
    hide Iterate;
    if script != [] {
      var first := Iterate(s, script[0]);
      IterateAnnounces(s, script[0], noticed);
      if first.outcome.None? {
        RunAnnounces(first.state, script[1..], Noticed(noticed, first.events));
      }
    }
  }

  lemma {:induction false} SessionAnnounces(c: Cursor, scripts: seq<seq<Attempt>>, noticed: bool)
    requires Announced(c, noticed)
    ensures Announced(Session(c, scripts).cursor, Noticed(noticed, Session(c, scripts).events))
    decreases |scripts|
  {
    hide Run;
    if scripts != [] {
      var first := Run(Starting(c), scripts[0]);
      RunAnnounces(Starting(c), scripts[0], noticed);
      SessionAnnounces(first.state.cursor, scripts[1..], Noticed(noticed, first.events));
    }
  }

  // ---- Sessions ----

  /** Every run of the session starts with no overflow notice outstanding. */
  ghost predicate StartsSettled(c: Cursor, scripts: seq<seq<Attempt>>)
    decreases |scripts|
  {
    scripts == [] ||
    (!c.limited && StartsSettled(Run(Starting(c), scripts[0]).state.cursor, scripts[1..]))
  }

  lemma {:induction false} SessionInOrder(c: Cursor, log: seq<LogItem>, n: nat, noticed: bool,
                                          scripts: seq<seq<Attempt>>)
    returns (m: nat)
    requires Orderly(log) && n <= |log| && Tracks(c, log[..n]) && SessionServed(log, c, scripts)
    requires Announced(c, noticed) && (noticed || StartsSettled(c, scripts))
    ensures var run := Session(c, scripts);
            n <= m <= |log| && Tracks(run.cursor, log[..m]) && InOrder(log, n, noticed, run.events, m)
    decreases |scripts|
  {
    if scripts == [] {
      m := n;
    } else {
      var first := Run(Starting(c), scripts[0]);
      var mid := RunInOrder(Starting(c), log, n, noticed, scripts[0]);
      m := SessionInOrder(first.state.cursor, log, mid, Noticed(noticed, first.events), scripts[1..]);
      InOrderAppend(log, n, noticed, first.events, mid, Session(first.state.cursor, scripts[1..]).events, m);
    }
  }
}
