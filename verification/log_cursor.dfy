/** The per-source delivery cursor: what survives a reconnect of one container log.

    A resume request carries whole seconds only, so the server replays the entire boundary
    second. The cursor remembers, for that second, how often each (time, digest) key was
    delivered, for at most MAX_KEYS keys. */
module LogCursors {

  const MAX_KEYS: nat := 1024

  type Digest = int

  /** A complete physical record. `time` counts nanoseconds from the zero time, and 0 is the zero
      time itself: a record without a parsable timestamp. `digest` stands for the hash of `raw`; it
      is an arbitrary value, so every statement below covers any hash, collisions included. */
  datatype LogItem = LogItem(time: nat, raw: seq<bv8>, digest: Digest, truncated: bool)

  datatype ReplayKey = ReplayKey(time: nat, digest: Digest)

  datatype Cursor = Cursor(failClosed: bool, time: nat, counts: map<ReplayKey, nat>,
                           replay: map<ReplayKey, nat>, replayUncertain: bool, limited: bool)

  const FRESH: Cursor := Cursor(false, 0, map[], map[], false, false)

  /** The whole second of a time in nanoseconds. */
  function Sec(t: nat): nat { t / 1_000_000_000 }

  function Key(item: LogItem): ReplayKey { ReplayKey(item.time, item.digest) }

  /** Writing the still unallocated count table would be a run-time panic, so a timestamp inside the
      very first second is outside what the cursor accepts. */
  predicate Stamped(item: LogItem) { item.time == 0 || Sec(item.time) > 0 }

  // ---- The three operations on a cursor value ----

  function Reconnected(c: Cursor): Cursor {
    c.(replay := c.counts, failClosed := c.failClosed || c.replayUncertain)
  }

  function Allowance(c: Cursor, k: ReplayKey): nat {
    if k in c.replay then c.replay[k] else 0
  }

  predicate IsReplay(c: Cursor, item: LogItem) {
    item.time != 0 && Sec(item.time) == Sec(c.time) && Allowance(c, Key(item)) > 0
  }

  function Consumed(c: Cursor, item: LogItem): Cursor
    requires IsReplay(c, item)
  {
    c.(replay := c.replay[Key(item) := Allowance(c, Key(item)) - 1])
  }

  function Moved(c: Cursor, item: LogItem): Cursor {
    if item.time <= c.time then c
    else if Sec(item.time) == Sec(c.time) then c.(time := item.time, replay := map[])
    else c.(time := item.time, replay := map[], counts := map[], replayUncertain := false)
  }

  function Counted(c: Cursor, k: ReplayKey): Cursor {
    if |c.counts| < MAX_KEYS || k in c.counts then
      c.(counts := c.counts[k := (if k in c.counts then c.counts[k] else 0) + 1])
    else
      c.(replayUncertain := true, limited := true)
  }

  function Advanced(c: Cursor, item: LogItem): Cursor {
    if item.time == 0 || (item.time < c.time && Sec(item.time) != Sec(c.time)) then c
    else Counted(Moved(c, item), Key(item))
  }

  // ---- What a cursor means, as a function of everything committed so far ----

  function MaxTime(h: seq<LogItem>): nat {
    if h == [] then 0
    else var m := MaxTime(h[..|h| - 1]); if h[|h| - 1].time > m then h[|h| - 1].time else m
  }

  predicate InSecond(item: LogItem, s: nat) { item.time != 0 && Sec(item.time) == s }

  /** The first MAX_KEYS distinct keys of second `s`, in commit order. */
  function Admitted(h: seq<LogItem>, s: nat): (keys: set<ReplayKey>)
    ensures |keys| <= MAX_KEYS
  {
    if h == [] then {}
    else
      var keys := Admitted(h[..|h| - 1], s);
      if InSecond(h[|h| - 1], s) && |keys| < MAX_KEYS then keys + {Key(h[|h| - 1])} else keys
  }

  function Count(h: seq<LogItem>, k: ReplayKey): nat {
    if h == [] then 0 else Count(h[..|h| - 1], k) + (if Key(h[|h| - 1]) == k then 1 else 0)
  }

  /** Some record of second `s` was committed without a place in the count table. */
  ghost predicate Rejected(h: seq<LogItem>, s: nat) {
    exists i :: 0 <= i < |h| && InSecond(h[i], s) && Key(h[i]) !in Admitted(h, s)
  }

  /** The cursor invariant, for commits in any timestamp order. */
  ghost predicate Tracks(c: Cursor, h: seq<LogItem>) {
    && c.time == MaxTime(h)
    && c.counts.Keys == Admitted(h, Sec(c.time))
    && (forall k :: k in c.counts ==> c.counts[k] == Count(h, k))
    && (c.replayUncertain <==> Rejected(h, Sec(c.time)))
  }

  // ---- Facts about histories ----

  lemma {:induction false} MaxTimeBounds(h: seq<LogItem>, i: nat)
    requires i < |h|
    ensures h[i].time <= MaxTime(h)
  {
    if i < |h| - 1 { MaxTimeBounds(h[..|h| - 1], i); }
  }

  lemma {:induction false} MaxTimeReached(h: seq<LogItem>) returns (i: nat)
    requires h != []
    ensures i < |h| && h[i].time == MaxTime(h)
  {
    var rest := h[..|h| - 1];
    if rest == [] || h[|h| - 1].time > MaxTime(rest) {
      i := |h| - 1;
    } else {
      i := MaxTimeReached(rest);
    }
  }

  lemma {:induction false} AdmittedOrigin(h: seq<LogItem>, s: nat, k: ReplayKey)
    requires k in Admitted(h, s)
    ensures exists i :: 0 <= i < |h| && InSecond(h[i], s) && Key(h[i]) == k
  {
    var rest := h[..|h| - 1];
    if k in Admitted(rest, s) {
      AdmittedOrigin(rest, s, k);
      var i :| 0 <= i < |rest| && InSecond(rest[i], s) && Key(rest[i]) == k;
      assert h[i] == rest[i];
    }
  }

  /** Only a full table turns a key away. */
  lemma {:induction false} AdmittedFull(h: seq<LogItem>, s: nat, i: nat)
    requires i < |h| && InSecond(h[i], s) && Key(h[i]) !in Admitted(h, s)
    ensures |Admitted(h, s)| == MAX_KEYS
  {
    if i < |h| - 1 { AdmittedFull(h[..|h| - 1], s, i); }
  }

  lemma {:induction false} AdmittedEmpty(h: seq<LogItem>, s: nat)
    requires forall i :: 0 <= i < |h| ==> !InSecond(h[i], s)
    ensures Admitted(h, s) == {}
  {
    if h != [] { AdmittedEmpty(h[..|h| - 1], s); }
  }

  lemma {:induction false} CountAbsent(h: seq<LogItem>, k: ReplayKey)
    requires forall i :: 0 <= i < |h| ==> Key(h[i]) != k
    ensures Count(h, k) == 0
  {
    if h != [] { CountAbsent(h[..|h| - 1], k); }
  }

  lemma {:induction false} CountSplit(a: seq<LogItem>, b: seq<LogItem>, k: ReplayKey)
    ensures Count(a + b, k) == Count(a, k) + Count(b, k)
  {
    if b == [] {
      assert a + b == a;
    } else {
      assert (a + b)[..|a + b| - 1] == a + b[..|b| - 1];
      CountSplit(a, b[..|b| - 1], k);
    }
  }

  lemma {:induction false} CountPositive(h: seq<LogItem>, i: nat)
    requires i < |h|
    ensures Count(h, Key(h[i])) > 0
  {
    if i < |h| - 1 { CountPositive(h[..|h| - 1], i); }
  }

  // ---- The invariant is kept by every commit ----

  lemma {:induction false} FreshTracks()
    ensures Tracks(FRESH, [])
  {
  }

  /** A record that reaches a later second starts that second's table from nothing. */
  lemma {:induction false} LaterSecondIsEmpty(h: seq<LogItem>, s: nat)
    requires s > Sec(MaxTime(h))
    ensures Admitted(h, s) == {} && !Rejected(h, s)
  {
    forall i | 0 <= i < |h| ensures !InSecond(h[i], s) { MaxTimeBounds(h, i); }
    AdmittedEmpty(h, s);
  }

  /** While the table has room nothing was turned away; afterwards only the new key can be. */
  lemma {:induction false} RejectedExtends(h: seq<LogItem>, s: nat, item: LogItem)
    requires InSecond(item, s)
    ensures |Admitted(h, s)| < MAX_KEYS ==> !Rejected(h, s) && !Rejected(h + [item], s)
    ensures |Admitted(h, s)| == MAX_KEYS ==>
              (Rejected(h + [item], s) <==> Rejected(h, s) || Key(item) !in Admitted(h, s))
  {
    var g := h + [item];
    assert g[..|g| - 1] == h && g[|h|] == item;
    if |Admitted(h, s)| < MAX_KEYS {
      forall i | 0 <= i < |h| && InSecond(h[i], s) ensures Key(h[i]) in Admitted(h, s) {
        if Key(h[i]) !in Admitted(h, s) { AdmittedFull(h, s, i); }
      }
      assert forall i :: 0 <= i < |g| && InSecond(g[i], s) ==> i == |h| || g[i] == h[i];
    } else {
      assert Admitted(g, s) == Admitted(h, s);
      if Rejected(h, s) {
        var i :| 0 <= i < |h| && InSecond(h[i], s) && Key(h[i]) !in Admitted(h, s);
        assert g[i] == h[i];
      }
      if Rejected(g, s) {
        var i :| 0 <= i < |g| && InSecond(g[i], s) && Key(g[i]) !in Admitted(g, s);
        assert i < |h| ==> g[i] == h[i];
      }
    }
  }

  /** A key outside a table that still has room was never committed in that second. */
  lemma {:induction false} UncountedIsNew(h: seq<LogItem>, s: nat, k: ReplayKey)
    requires k !in Admitted(h, s) && |Admitted(h, s)| < MAX_KEYS
    requires k.time != 0 && Sec(k.time) == s
    ensures Count(h, k) == 0
  {
    forall i | 0 <= i < |h| ensures Key(h[i]) != k {
      if Key(h[i]) == k { AdmittedFull(h, s, i); }
    }
    CountAbsent(h, k);
  }

  lemma {:induction false} CountExtends(h: seq<LogItem>, item: LogItem, k: ReplayKey)
    ensures Count(h + [item], k) == Count(h, k) + (if Key(item) == k then 1 else 0)
  {
    assert (h + [item])[..|h + [item]| - 1] == h;
  }

  /** The keys of the table after a commit in second `s`. */
  lemma {:induction false} KeysExtend(c: Cursor, h: seq<LogItem>, s: nat, item: LogItem)
    requires InSecond(item, s) && c.counts.Keys == Admitted(h, s)
    ensures Counted(c, Key(item)).counts.Keys == Admitted(h + [item], s)
  {
    assert (h + [item])[..|h + [item]| - 1] == h;
    assert |c.counts| == |c.counts.Keys|;
  }

  /** Each key of that table has its number of commits. */
  lemma {:induction false} TableExtends(c: Cursor, h: seq<LogItem>, s: nat, item: LogItem)
    requires InSecond(item, s) && c.counts.Keys == Admitted(h, s)
    requires forall k :: k in c.counts ==> c.counts[k] == Count(h, k)
    ensures forall k :: k in Counted(c, Key(item)).counts ==>
              Counted(c, Key(item)).counts[k] == Count(h + [item], k)
  {
    var d := Counted(c, Key(item));
    forall k | k in d.counts ensures d.counts[k] == Count(h + [item], k) {
      CountExtends(h, item, k);
      assert |c.counts| == |c.counts.Keys|;
      if k !in c.counts { UncountedIsNew(h, s, k); }
    }
  }

  /** Extending the history by a record of the current second updates the table and the flag as
      Counted does. */
  lemma {:induction false} CountedTracks(c: Cursor, h: seq<LogItem>, item: LogItem)
    requires InSecond(item, Sec(c.time)) && c.time == MaxTime(h + [item])
    requires c.counts.Keys == Admitted(h, Sec(c.time))
    requires forall k :: k in c.counts ==> c.counts[k] == Count(h, k)
    requires c.replayUncertain <==> Rejected(h, Sec(c.time))
    ensures Tracks(Counted(c, Key(item)), h + [item])
  {
    KeysExtend(c, h, Sec(c.time), item);
    TableExtends(c, h, Sec(c.time), item);
    RejectedExtends(h, Sec(c.time), item);
    assert |c.counts| == |c.counts.Keys|;
  }

  /** A record of another second leaves the table of second `s` and its flag alone. */
  lemma {:induction false} OtherSecondKeeps(h: seq<LogItem>, item: LogItem, s: nat)
    requires !InSecond(item, s)
    ensures Admitted(h + [item], s) == Admitted(h, s)
    ensures Rejected(h + [item], s) <==> Rejected(h, s)
  {
    var g := h + [item];
    assert g[..|g| - 1] == h;
    if Rejected(h, s) {
      var i :| 0 <= i < |h| && InSecond(h[i], s) && Key(h[i]) !in Admitted(h, s);
      assert g[i] == h[i];
    }
    if Rejected(g, s) {
      var i :| 0 <= i < |g| && InSecond(g[i], s) && Key(g[i]) !in Admitted(g, s);
      assert g[i] == h[i];
    }
  }

  /** Every commit keeps the invariant, whatever its timestamp. */
  lemma {:induction false} AdvanceTracks(c: Cursor, h: seq<LogItem>, item: LogItem)
    requires Tracks(c, h) && Stamped(item)
    ensures Tracks(Advanced(c, item), h + [item])
  {
    var s, g := Sec(c.time), h + [item];
    assert g[..|g| - 1] == h;
    if item.time == 0 || (item.time < c.time && Sec(item.time) != s) {
      OtherSecondKeeps(h, item, s);
      forall k | k in c.counts ensures Count(g, k) == Count(h, k) {
        AdmittedOrigin(h, s, k);
      }
    } else {
      var m := Moved(c, item);
      assert MaxTime(g) == m.time;
      if Sec(item.time) != s {
        LaterSecondIsEmpty(h, Sec(item.time));
      }
      CountedTracks(m, h, item);
    }
  }

  /** Committing again a record that was turned away changes nothing but the overflow notice. */
  lemma {:induction false} RejectedAgain(c: Cursor, h: seq<LogItem>, i: nat)
    requires Tracks(c, h) && i < |h|
    requires InSecond(h[i], Sec(c.time)) && Key(h[i]) !in c.counts
    ensures c.replayUncertain && Advanced(c, h[i]) == c.(limited := true)
  {
    MaxTimeBounds(h, i);
    AdmittedFull(h, Sec(c.time), i);
    assert |c.counts| == |c.counts.Keys|;
  }

  /** A commit makes a notice due exactly when it is turned away: its record lies in the current second and
      its key is not among the first MAX_KEYS of it. */
  lemma {:induction false} LimitedIff(c: Cursor, h: seq<LogItem>, item: LogItem)
    requires Tracks(c, h) && Stamped(item)
    ensures var (g, s) := (h + [item], Sec(MaxTime(h + [item])));
            Advanced(c, item).limited <==> c.limited || (InSecond(item, s) && Key(item) !in Admitted(g, s))
  {
    hide Tracks, Admitted, Sec;
    var g, m := h + [item], Moved(c, item);
    SameMaximum(c, h, item);
    AdvanceTracks(c, h, item);
    if item.time != 0 && (item.time >= c.time || Sec(item.time) == Sec(c.time)) {
      CountsOf(Advanced(c, item), g);
    }
  }

  lemma {:induction false} CountsOf(c: Cursor, h: seq<LogItem>)
    requires Tracks(c, h)
    ensures c.counts.Keys == Admitted(h, Sec(c.time))
  {
  }

  lemma {:induction false} SameMaximum(c: Cursor, h: seq<LogItem>, item: LogItem)
    requires Tracks(c, h)
    ensures MaxTime(h + [item]) == if item.time > c.time then item.time else c.time
  {
    assert (h + [item])[..|h + [item]| - 1] == h;
  }

  /** A key of the current second is counted exactly as often as it was committed, or never. */
  lemma {:induction false} ExactOrNever(c: Cursor, h: seq<LogItem>, i: nat)
    requires Tracks(c, h) && i < |h| && InSecond(h[i], Sec(c.time))
    ensures |c.counts| <= MAX_KEYS
    ensures Key(h[i]) in c.counts ==> c.counts[Key(h[i])] == Count(h, Key(h[i])) > 0
    ensures Key(h[i]) !in c.counts ==> |c.counts| == MAX_KEYS && c.replayUncertain
  {
    assert |c.counts| == |c.counts.Keys|;
    CountPositive(h, i);
    if Key(h[i]) !in c.counts { AdmittedFull(h, Sec(c.time), i); }
  }

  // ---- The object the collector updates in place ----

  class LogCursor {
    var failClosed: bool
    var time: nat
    var counts: map<ReplayKey, nat>
    var replay: map<ReplayKey, nat>
    var replayUncertain: bool
    var limited: bool

    ghost function Value(): Cursor
      reads this
    {
      Cursor(failClosed, time, counts, replay, replayUncertain, limited)
    }

    constructor ()
      ensures Value() == FRESH
    {
      failClosed, time, counts, replay, replayUncertain, limited := false, 0, map[], map[], false, false;
    }

    method Reconnect()
      modifies this`replay, this`failClosed
      ensures Value() == Reconnected(old(Value()))
    {
      replay := map[];
      var keys := counts.Keys;
      while keys != {}
        invariant keys <= counts.Keys
        invariant replay == map k | k in counts && k !in keys :: counts[k]
        invariant failClosed == old(failClosed)
        decreases keys
      {
        var k :| k in keys;
        replay := replay[k := counts[k]];
        keys := keys - {k};
      }
      assert replay == counts;
      if replayUncertain {
        failClosed := true;
      }
    }

    /** Whether the record is one the server sends again; if so, one unit of its allowance is spent. What
        was delivered stays as it is. */
    method Replayed(item: LogItem) returns (skip: bool)
      modifies this`replay
      ensures skip == IsReplay(old(Value()), item)
      ensures Value() == if skip then Consumed(old(Value()), item) else old(Value())
    {
      if item.time == 0 {
        return false;
      }
      if Sec(item.time) != Sec(time) {
        return false;
      }
      var key := Key(item);
      if key in replay && replay[key] > 0 {
        replay := replay[key := replay[key] - 1];
        return true;
      }
      return false;
    }

    /** Moves the cursor past a delivered record. */
    method Advance(item: LogItem)
      requires Stamped(item)
      modifies this
      ensures Value() == Advanced(old(Value()), item)
    {
      if item.time == 0 {
        return;
      }
      var boundary := Sec(time);
      var itemBoundary := Sec(item.time);
      if item.time < time && itemBoundary != boundary {
        return;
      }
      if item.time > time {
        if itemBoundary != boundary {
          counts := map[];
          replayUncertain := false;
        }
        time := item.time;
        replay := map[];
      }
      var key := Key(item);
      if |counts| < MAX_KEYS || key in counts {
        counts := counts[key := (if key in counts then counts[key] else 0) + 1];
      } else {
        replayUncertain := true;
        limited := true;
      }
    }
  }
}
