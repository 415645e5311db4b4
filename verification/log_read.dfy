/** Reading one opened log stream through a cursor. */
module LogReads {
  import opened LogCursors

  const MAX_LOG_LINE_BYTES: nat := 64 * 1024

  // ---- One physical line, assembled from bounded reader slices ----

  function Flatten(parts: seq<seq<bv8>>): seq<bv8> {
    if parts == [] then [] else Flatten(parts[..|parts| - 1]) + parts[|parts| - 1]
  }

  function Capped(bytes: seq<bv8>): seq<bv8> {
    if |bytes| > MAX_LOG_LINE_BYTES then bytes[..MAX_LOG_LINE_BYTES] else bytes
  }

  /** The retained line is the longest allowed prefix of the physical line, however the reader
      happened to slice it, and `truncated` says exactly whether bytes were discarded. */
  method ReadLine(parts: seq<seq<bv8>>) returns (line: seq<bv8>, truncated: bool)
    ensures line == Capped(Flatten(parts))
    ensures truncated <==> |Flatten(parts)| > MAX_LOG_LINE_BYTES
  {
    line, truncated := [], false;
    for i := 0 to |parts|
      invariant line == Capped(Flatten(parts[..i]))
      invariant truncated <==> |Flatten(parts[..i])| > MAX_LOG_LINE_BYTES
    {
      var part, remaining := parts[i], MAX_LOG_LINE_BYTES - |line|;
      assert parts[..i + 1][..i] == parts[..i];
      if |part| > remaining {
        line := line + part[..remaining];
        truncated := true;
      } else {
        line := line + part;
      }
    }
    assert parts[..|parts|] == parts;
  }

  // ---- What can happen while a stream is read ----

  /** A record off the stream, what the redactor says about it, and whether the context is still
      alive when the record is offered to the output channel. */
  datatype Arrival = Arrival(item: LogItem, tracked: bool, deliverable: bool)

  /** How the stream ends after its complete records. A transport error is reported on the channel,
      which fails only when the context was cancelled. */
  datatype StreamEnd = EndOfFile | TransportError(reported: bool) | ContextDone

  datatype StreamResult = StreamEOF | StreamError | StreamCanceled

  datatype Failure = OpenFailed | ReadFailed | BudgetExhausted

  /** The observable and the hidden steps of a source, in order. `Sent`, `Reported` and `DedupLimit`
      are channel deliveries. */
  datatype Event =
    | Reconnect(uncertain: bool)
    | Sent(item: LogItem, sensitive: bool)
    | Unsent(item: LogItem, sensitive: bool)
    | Skipped(item: LogItem)
    | Reported(failure: Failure)
    | DedupLimit
    | Waited(delay: nat)

  datatype StreamRun = StreamRun(cursor: Cursor, events: seq<Event>, result: StreamResult)

  function Items(arrivals: seq<Arrival>): (items: seq<LogItem>)
    ensures |items| == |arrivals|
    ensures forall i :: 0 <= i < |items| ==> items[i] == arrivals[i].item
  {
    seq(|arrivals|, i requires 0 <= i < |arrivals| => arrivals[i].item)
  }

  function Latched(c: Cursor, item: LogItem): Cursor {
    c.(failClosed := c.failClosed || item.truncated)
  }

  predicate Sensitive(c: Cursor, a: Arrival) {
    a.tracked || Latched(c, a.item).failClosed
  }

  function Undelivered(c: Cursor, a: Arrival): Cursor {
    Latched(c, a.item).(failClosed := c.failClosed || a.item.truncated || Sensitive(c, a))
  }

  /** One record: suppressed, lost to a cancelled context, or delivered and then committed. */
  function Offer(c: Cursor, a: Arrival): (Cursor, Event) {
    if IsReplay(c, a.item) then (Consumed(c, a.item), Skipped(a.item))
    else if !a.deliverable then (Undelivered(c, a), Unsent(a.item, Sensitive(c, a)))
    else (Advanced(Latched(c, a.item), a.item), Sent(a.item, Sensitive(c, a)))
  }

  function Before(events: seq<Event>, run: StreamRun): StreamRun {
    run.(events := events + run.events)
  }

  function Ended(c: Cursor, end: StreamEnd): StreamRun {
    match end
    case EndOfFile => StreamRun(c, [], StreamEOF)
    case TransportError(true) => StreamRun(c, [Reported(ReadFailed)], StreamError)
    case TransportError(false) => StreamRun(c, [], StreamCanceled)
    case ContextDone => StreamRun(c, [], StreamCanceled)
  }

  function ReadStream(c: Cursor, arrivals: seq<Arrival>, end: StreamEnd): StreamRun
    decreases |arrivals|
  {
    if arrivals == [] then Ended(c, end)
    else
      var (next, event) := Offer(c, arrivals[0]);
      if event.Unsent? then StreamRun(next, [event], StreamCanceled)
      else Before([event], ReadStream(next, arrivals[1..], end))
  }

  lemma {:induction false} BeforeTwice(a: seq<Event>, b: seq<Event>, run: StreamRun)
    ensures Before(a, Before(b, run)) == Before(a + b, run)
  {
    assert a + (b + run.events) == a + b + run.events;
  }

  /** One record on the cursor object: it is committed only after its delivery. */
  method ReadRecord(cursor: LogCursor, a: Arrival, latch: bool) returns (event: Event, failClosed: bool)
    requires Stamped(a.item) && latch == cursor.failClosed
    modifies cursor
    ensures (cursor.Value(), event) == Offer(old(cursor.Value()), a)
    ensures !event.Unsent? ==> failClosed == cursor.failClosed
  {
    failClosed := latch;
    var skip := cursor.Replayed(a.item);
    if skip {
      return Skipped(a.item), failClosed;
    }
    if a.item.truncated {
      failClosed := true;
      cursor.failClosed := true;
    }
    var sensitive := a.tracked || failClosed;
    if !a.deliverable {
      if sensitive {
        cursor.failClosed := true;
      }
      return Unsent(a.item, sensitive), failClosed;
    }
    cursor.Advance(a.item);
    return Sent(a.item, sensitive), failClosed;
  }

  /** The read loop over a whole stream. */
  method ReadLogStream(cursor: LogCursor, arrivals: seq<Arrival>, end: StreamEnd)
    returns (events: seq<Event>, result: StreamResult)
    requires forall a :: a in arrivals ==> Stamped(a.item)
    modifies cursor
    ensures StreamRun(cursor.Value(), events, result) == ReadStream(old(cursor.Value()), arrivals, end)
  {
    var failClosed := cursor.failClosed;
    var i := 0;
    events := [];
    while i < |arrivals|
      invariant 0 <= i <= |arrivals|
      invariant failClosed == cursor.failClosed
      invariant ReadStream(old(cursor.Value()), arrivals, end)
             == Before(events, ReadStream(cursor.Value(), arrivals[i..], end))
    {
      assert arrivals[i..][1..] == arrivals[i + 1..];
      var event;
      event, failClosed := ReadRecord(cursor, arrivals[i], failClosed);
      if event.Unsent? {
        return events + [event], StreamCanceled;
      }
      i := i + 1;
      BeforeTwice(events, [event], ReadStream(cursor.Value(), arrivals[i..], end));
      events := events + [event];
    }
    assert arrivals[i..] == [];
    match end {
      case EndOfFile =>
        return events, StreamEOF;
      case TransportError(reported) =>
        if !reported {
          return events, StreamCanceled;
        }
        return events + [Reported(ReadFailed)], StreamError;
      case ContextDone =>
        return events, StreamCanceled;
    }
  }
}
