/** Which records of a stream are suppressed, said by what was committed before the stream was opened and by the
    records that came earlier in it. */
module LogSuppression {
  import opened LogCursors
  import opened LogReads

  function Occurs(arrivals: seq<Arrival>, k: ReplayKey): nat {
    if arrivals == [] then 0 else (if Key(arrivals[0].item) == k then 1 else 0) + Occurs(arrivals[1..], k)
  }

  /** Nothing newer than the cursor is to be suppressed. */
  predicate NoneNewer(c: Cursor) { forall k :: k in c.replay ==> k.time <= c.time }

  predicate Suppresses(c: Cursor, arrivals: seq<Arrival>, i: nat)
    requires i < |arrivals|
  {
    var x := arrivals[i].item;
    && x.time != 0 && Sec(x.time) == Sec(c.time) && Occurs(arrivals[..i], Key(x)) < Allowance(c, Key(x))
    && forall j :: 0 <= j < i ==> arrivals[j].item.time <= c.time
  }

  lemma {:induction false} AfterSkip(c: Cursor, arrivals: seq<Arrival>, i: nat)
    requires NoneNewer(c) && 0 < i < |arrivals| && IsReplay(c, arrivals[0].item)
    ensures var next := Consumed(c, arrivals[0].item);
            NoneNewer(next) && (Suppresses(c, arrivals, i) <==> Suppresses(next, arrivals[1..], i - 1))
  {
    var next, rest := Consumed(c, arrivals[0].item), arrivals[1..];
    assert arrivals[..i][1..] == rest[..i - 1] && arrivals[..i][0] == arrivals[0];
    assert forall j :: 0 <= j < i - 1 ==> rest[j] == arrivals[j + 1];
    assert forall j :: 0 < j < i ==> arrivals[j] == rest[j - 1];
    assert Key(arrivals[0].item) in c.replay;
  }

  lemma {:induction false} AfterSend(c: Cursor, arrivals: seq<Arrival>, i: nat)
    requires NoneNewer(c) && 0 < i < |arrivals| && !IsReplay(c, arrivals[0].item)
    ensures var next := Advanced(Latched(c, arrivals[0].item), arrivals[0].item);
            NoneNewer(next) && (Suppresses(c, arrivals, i) <==> Suppresses(next, arrivals[1..], i - 1))
  {
    var x, rest := arrivals[0].item, arrivals[1..];
    var next := Advanced(Latched(c, x), x);
    assert arrivals[..i][1..] == rest[..i - 1] && arrivals[..i][0] == arrivals[0];
    assert forall j :: 0 <= j < i - 1 ==> rest[j] == arrivals[j + 1];
    assert forall j :: 0 < j < i ==> arrivals[j] == rest[j - 1];
    AllowanceAfter(Latched(c, x), x);
    hide Advanced, Sec;
  }

  /** A newer record ends all suppression, an older one leaves it as it is. */
  lemma {:induction false} AllowanceAfter(c: Cursor, x: LogItem)
    ensures var next := Advanced(c, x);
            && (x.time > c.time ==> next.replay == map[] && next.time == x.time)
            && (x.time <= c.time ==> next.replay == c.replay && next.time == c.time)
  {
  }

  lemma {:induction false} SuppressedIff(c: Cursor, arrivals: seq<Arrival>, end: StreamEnd, i: nat)
    requires NoneNewer(c) && i < |arrivals| && i < |ReadStream(c, arrivals, end).events|
    ensures var e := ReadStream(c, arrivals, end).events[i];
            if Suppresses(c, arrivals, i) then e == Skipped(arrivals[i].item)
            else (e.Sent? || e.Unsent?) && e.item == arrivals[i].item
    decreases |arrivals|
  {
    hide Advanced, Consumed, Suppresses, Latched, Sensitive, Undelivered, NoneNewer;
    var (next, event) := Offer(c, arrivals[0]);
    if i == 0 {
      FirstSuppressed(c, arrivals);
    } else {
      if event.Skipped? { AfterSkip(c, arrivals, i); } else { AfterSend(c, arrivals, i); }
      SuppressedIff(next, arrivals[1..], end, i - 1);
    }
  }

  lemma {:induction false} FirstSuppressed(c: Cursor, arrivals: seq<Arrival>)
    requires arrivals != []
    ensures Suppresses(c, arrivals, 0) <==> IsReplay(c, arrivals[0].item)
  {
    assert arrivals[..0] == [];
  }

  lemma {:induction false} NoneNewerAtStart(c: Cursor, h: seq<LogItem>)
    requires Tracks(c, h)
    ensures NoneNewer(Reconnected(c))
  {
    forall k | k in c.counts ensures k.time <= c.time {
      AdmittedOrigin(h, Sec(c.time), k);
      var i :| 0 <= i < |h| && InSecond(h[i], Sec(c.time)) && Key(h[i]) == k;
      MaxTimeBounds(h, i);
    }
  }

  /** After a reconnect a record is suppressed exactly when it lies in the second of the newest committed record,
      its key was committed more often than the stream has brought it so far and is one of the counted ones, and
      the stream has brought nothing newer yet. Every other record is offered to the channel. */
  lemma {:induction false} SuppressedExactly(c: Cursor, h: seq<LogItem>, arrivals: seq<Arrival>, end: StreamEnd, i: nat)
    requires Tracks(c, h) && i < |arrivals| && i < |ReadStream(Reconnected(c), arrivals, end).events|
    ensures var x, e := arrivals[i].item, ReadStream(Reconnected(c), arrivals, end).events[i];
            if && InSecond(x, Sec(MaxTime(h))) && Key(x) in Admitted(h, Sec(MaxTime(h)))
               && Occurs(arrivals[..i], Key(x)) < Count(h, Key(x))
               && forall j :: 0 <= j < i ==> arrivals[j].item.time <= MaxTime(h)
            then e == Skipped(x)
            else (e.Sent? || e.Unsent?) && e.item == x
  {
    hide ReadStream, Occurs, MaxTime, Admitted, Count, Rejected, Sec;
    NoneNewerAtStart(c, h);
    SuppressedIff(Reconnected(c), arrivals, end, i);
  }
}
