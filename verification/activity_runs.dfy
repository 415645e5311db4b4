/** What every refresh and every event collection keeps, and what holds over whole runs of them. */
module ActivityRuns {
  import opened Wrappers
  import opened ActivityFacts
  import opened ActivityLog
  import opened ActivitySteps

  // ---- Appending at one time ----

  function AppendedAll(l: Log, at: int, records: seq<Record>): Log {
    if records == [] then l
    else Appended(AppendedAll(l, at, records[..|records| - 1]), at, records[|records| - 1])
  }

  /** `m` is `l` with some records appended, all observed at one time. */
  ghost predicate Extends(l: Log, m: Log, at: int) {
    exists records :: m == AppendedAll(l, at, records)
  }

  lemma {:induction false} ExtendsSelf(l: Log, at: int)
    ensures Extends(l, l, at)
  {
    assert l == AppendedAll(l, at, []);
  }

  lemma {:induction false} ExtendsNoted(l: Log, m: Log, at: int, record: Record)
    requires Extends(l, m, at)
    ensures Extends(l, Appended(m, at, record), at)
  {
    var records :| m == AppendedAll(l, at, records);
    assert (records + [record])[..|records|] == records;
    assert Appended(m, at, record) == AppendedAll(l, at, records + [record]);
  }

  lemma {:induction false} AppendedAllExact(l: Log, at: int, records: seq<Record>)
    requires Exact(l)
    ensures Exact(AppendedAll(l, at, records))
  {
    if records != [] {
      AppendedAllExact(l, at, records[..|records| - 1]);
      AppendedExact(AppendedAll(l, at, records[..|records| - 1]), at, records[|records| - 1]);
    }
  }

  /** The entries are in the order of their times, between two bounds. */
  ghost predicate InTime(l: Log, low: int, high: int) {
    Chronological(l.entries) && forall i :: 0 <= i < |l.entries| ==> low <= l.entries[i].observedAt <= high
  }

  lemma {:induction false} AppendedInTime(l: Log, low: int, at: int, record: Record)
    requires InTime(l, low, at) && low <= at
    ensures InTime(Appended(l, at, record), low, at)
  {
  }

  lemma {:induction false} AppendedAllInTime(l: Log, low: int, at: int, records: seq<Record>)
    requires InTime(l, low, at) && low <= at
    ensures InTime(AppendedAll(l, at, records), low, at)
  {
    if records != [] {
      AppendedAllInTime(l, low, at, records[..|records| - 1]);
      AppendedInTime(AppendedAll(l, at, records[..|records| - 1]), low, at, records[|records| - 1]);
    }
  }

  lemma {:induction false} ExtendsKeeps(l: Log, m: Log, low: int, at: int)
    requires Extends(l, m, at)
    ensures Exact(l) ==> Exact(m)
    ensures InTime(l, low, at) && low <= at ==> InTime(m, low, at)
  {
    var records :| m == AppendedAll(l, at, records);
    if Exact(l) {
      AppendedAllExact(l, at, records);
    }
    if InTime(l, low, at) && low <= at {
      AppendedAllInTime(l, low, at, records);
    }
  }

  // ---- Every step of a refresh only appends, at the time of the refresh ----

  lemma {:induction false} ItemExtends(l: Log, sc: Scan, item: Item, at: int, inScope: Ref -> bool)
    requires Extends(l, sc.w.log, at)
    ensures Extends(l, ItemSeen(sc, item, at, inScope).w.log, at)
  {
    if inScope(item.ref) {
      match Project(sc.w, item, at)
      case None =>
        ExtendsNoted(l, sc.w.log, at, Gap(None, Some(Coverage(item.ref.gvr, item.ref.namespace, Unknown, false))));
      case Some(s) =>
        var w := if s.whole then sc.w else Noted(sc.w, at, Gap(Some(s), None));
        ExtendsNoted(l, sc.w.log, at, Gap(Some(s), None));
        if s.identity !in sc.seen {
          ReplacementExtends(l, w, s, at);
          SourceExtends(l, WithReplacement(w, s, at), s, at);
        }
    }
  }

  lemma {:induction false} ReplacementExtends(l: Log, w: State, s: Source, at: int)
    requires Extends(l, w.log, at)
    ensures Extends(l, WithReplacement(w, s, at).log, at)
  {
    var name := NameOf(s.identity);
    if name in w.current {
      ExtendsNoted(l, w.log, at, Replaced(s, w.current[name]));
    }
  }

  lemma {:induction false} SourceExtends(l: Log, w: State, s: Source, at: int)
    requires Extends(l, w.log, at)
    ensures Extends(l, WithSource(w, s, at).log, at)
  {
    ExtendsNoted(l, w.log, at, FirstObserved(s));
    if s.identity in w.tracked {
      var p := w.tracked[s.identity];
      ExtendsNoted(l, w.log, at, Changed(s, p.capturedAt, Changes(p.facts, s.facts)));
    }
  }

  lemma {:induction false} ItemsExtend(l: Log, sc: Scan, items: seq<Item>, at: int, inScope: Ref -> bool)
    requires Extends(l, sc.w.log, at)
    ensures Extends(l, ItemsSeen(sc, items, at, inScope).w.log, at)
  {
    if items != [] {
      var n := |items| - 1;
      ItemsExtend(l, sc, items[..n], at, inScope);
      ItemExtends(l, ItemsSeen(sc, items[..n], at, inScope), items[n], at, inScope);
    }
  }

  lemma {:induction false} CoverageExtends(l: Log, w: State, coverage: seq<Coverage>, failed: bool, at: int)
    requires Extends(l, w.log, at)
    ensures Extends(l, CoverageNoted(w, coverage, failed, at).log, at)
  {
    if coverage != [] {
      var n := |coverage| - 1;
      CoverageExtends(l, w, coverage[..n], failed, at);
      var c := Judged(coverage[n], QueryOf(coverage[n]) in CoverageMap(coverage[..n], failed), failed);
      ExtendsNoted(l, CoverageNoted(w, coverage[..n], failed, at).log, at, Gap(None, Some(c)));
    }
  }

  lemma {:induction false} Swept1Extends(l: Log, w: State, key: Identity, m: map<(string, string), Coverage>,
                                         failed: bool, at: int)
    requires Extends(l, w.log, at) && key in w.tracked
    ensures Extends(l, Swept1(w, key, m, failed, at).log, at)
  {
    var s := w.tracked[key];
    var query := (s.identity.gvr, s.identity.namespace);
    ExtendsNoted(l, w.log, at, Gap(Some(s), Some(Coverage(s.identity.gvr, s.identity.namespace, Unknown, false))));
    if query in m {
      ExtendsNoted(l, w.log, at, NotObserved(s, s.capturedAt, m[query]));
    }
  }

  lemma {:induction false} SweptExtends(l: Log, w: State, order: seq<Identity>, m: map<(string, string), Coverage>,
                                        seen: set<Identity>, failed: bool, at: int)
    requires Extends(l, w.log, at)
    ensures Extends(l, Swept(w, order, m, seen, failed, at).log, at)
    decreases |order|
  {
    if order != [] {
      var n := |order| - 1;
      var v := Swept(w, order[..n], m, seen, failed, at);
      SweptExtends(l, w, order[..n], m, seen, failed, at);
      if order[n] !in seen && order[n] in v.tracked {
        Swept1Extends(l, v, order[n], m, failed, at);
      }
    }
  }

  lemma {:induction false} BeforeCapExtends(w: State, snapshot: Snapshot, failed: bool, order: seq<Identity>,
                                            inScope: Ref -> bool)
    ensures Extends(Pruned(w, snapshot.observedAt).log, BeforeCap(w, snapshot, failed, order, inScope).log,
                    snapshot.observedAt)
  {
    var at, coverage := snapshot.observedAt, snapshot.coverage;
    var l := Pruned(w, at).log;
    var sc := ItemsSeen(Scan(Pruned(w, at), {}), snapshot.items, at, inScope);
    var m := CoverageMap(coverage, failed);
    ExtendsSelf(l, at);
    ItemsExtend(l, Scan(Pruned(w, at), {}), snapshot.items, at, inScope);
    CoverageExtends(l, sc.w, coverage, failed, at);
    SweptExtends(l, CoverageNoted(sc.w, coverage, failed, at), order, m, sc.seen, failed, at);
    ExtendsNoted(l, Swept(CoverageNoted(sc.w, coverage, failed, at), order, m, sc.seen, failed, at).log, at,
                 Gap(None, Some(Coverage("", "", Unknown, false))));
  }

  lemma {:induction false} EventsExtend(l: Log, w: State, events: seq<Event>, at: int, inScope: Ref -> bool,
                                        safe: string -> string)
    requires Extends(l, w.log, at)
    ensures Extends(l, EventsSeen(w, events, at, inScope, safe).log, at)
  {
    if events != [] {
      var n := |events| - 1;
      var v, e := EventsSeen(w, events[..n], at, inScope, safe), events[n];
      EventsExtend(l, w, events[..n], at, inScope, safe);
      if Relevant(v, e, inScope) {
        var kind := v.tracked[IdentityOf(v.context, Regarded(e))].kind;
        ExtendsNoted(l, v.log, at, Retained(e.(kind := kind, content := Safely(e.content, safe))));
      }
    }
  }

  lemma {:induction false} EventCoverageExtends(l: Log, w: State, coverage: seq<Coverage>, at: int)
    requires Extends(l, w.log, at)
    ensures Extends(l, EventCoverage(w, coverage, at).log, at)
  {
    if coverage != [] {
      var n := |coverage| - 1;
      EventCoverageExtends(l, w, coverage[..n], at);
      ExtendsNoted(l, EventCoverage(w, coverage[..n], at).log, at, Gap(None, Some(coverage[n])));
    }
  }

  // ---- The log stays exact ----

  lemma {:induction false} PrunedExact(w: State, at: int)
    requires Exact(w.log)
    ensures Exact(Pruned(w, at).log)
  {
    var cutoff := at - RETENTION;
    var v := if Aged(w, cutoff) == {} then w else Forgotten(w, Aged(w, cutoff), cutoff);
    TrimmedExact(v.log, cutoff);
  }

  lemma {:induction false} BeforeCapExact(w: State, snapshot: Snapshot, failed: bool, order: seq<Identity>,
                                          inScope: Ref -> bool)
    requires Exact(w.log)
    ensures Exact(BeforeCap(w, snapshot, failed, order, inScope).log)
  {
    var at := snapshot.observedAt;
    PrunedExact(w, at);
    BeforeCapExtends(w, snapshot, failed, order, inScope);
    ExtendsKeeps(Pruned(w, at).log, BeforeCap(w, snapshot, failed, order, inScope).log, 0, at);
  }

  lemma {:induction false} ObservedExact(w: State, snapshot: Snapshot, failed: bool, order: seq<Identity>,
                                         evicted: set<Identity>, inScope: Ref -> bool)
    requires Exact(w.log)
    ensures Exact(Observed(w, snapshot, failed, order, evicted, inScope).log)
  {
    BeforeCapExact(w, snapshot, failed, order, inScope);
    AppendedExact(w.log, w.lastRefreshAt, Gap(None, Some(Coverage("", "", Stale, false))));
  }

  lemma {:induction false} BeforeEventCapExtends(w: State, c: Collection, inScope: Ref -> bool, safe: string -> string)
    ensures Extends(w.log, BeforeEventCap(w, c, inScope, safe).log, c.capturedAt)
  {
    ExtendsSelf(w.log, c.capturedAt);
    EventsExtend(w.log, w, c.events, c.capturedAt, inScope, safe);
    EventCoverageExtends(w.log, EventsSeen(w, c.events, c.capturedAt, inScope, safe), c.coverage, c.capturedAt);
  }

  lemma {:induction false} CollectedExact(w: State, c: Collection, evicted: set<EventKey>, inScope: Ref -> bool,
                                          safe: string -> string)
    requires Exact(w.log)
    ensures Exact(Collected(w, c, evicted, inScope, safe).log)
  {
    if !c.requested {
      AppendedExact(w.log, w.lastRefreshAt, Gap(None, Some(Coverage(EVENT_GVR, "", Unknown, false))));
    } else if !Ignores(w, c.capturedAt) {
      BeforeEventCapExtends(w, c, inScope, safe);
      ExtendsKeeps(w.log, BeforeEventCap(w, c, inScope, safe).log, 0, c.capturedAt);
    }
  }

  // ---- Retention ----

  lemma {:induction false} TrimmedInTime(l: Log, low: int, high: int, cutoff: int)
    requires InTime(l, low, high)
    ensures InTime(Trimmed(l, cutoff), cutoff, high)
  {
    var first := OldPrefix(l.entries, cutoff);
    var kept := Trimmed(l, cutoff).entries;
    assert forall i :: 0 <= i < |kept| ==> kept[i] == l.entries[first + i];
    if first < |l.entries| {
      assert l.entries[first].observedAt >= cutoff;
    }
  }

  /** Pruning keeps exactly what is inside the retention, when the entries are in order. */
  lemma {:induction false} PrunedInTime(w: State, at: nat, low: int, high: int)
    requires InTime(w.log, low, high) && high <= at
    ensures InTime(Pruned(w, at).log, at - RETENTION, at)
    ensures forall e :: e in w.log.entries && e.observedAt >= at - RETENTION ==> e in Pruned(w, at).log.entries
  {
    var cutoff := at - RETENTION;
    var v := if Aged(w, cutoff) == {} then w else Forgotten(w, Aged(w, cutoff), cutoff);
    TrimmedInTime(v.log, low, at, cutoff);
    TrimmedIff(v.log, cutoff);
  }

  lemma {:induction false} BeforeCapInTime(w: State, snapshot: Snapshot, failed: bool, order: seq<Identity>,
                                           inScope: Ref -> bool, low: int)
    requires InTime(Pruned(w, snapshot.observedAt).log, low, snapshot.observedAt) && low <= snapshot.observedAt
    ensures InTime(BeforeCap(w, snapshot, failed, order, inScope).log, low, snapshot.observedAt)
  {
    BeforeCapExtends(w, snapshot, failed, order, inScope);
    ExtendsKeeps(Pruned(w, snapshot.observedAt).log, BeforeCap(w, snapshot, failed, order, inScope).log, low,
                 snapshot.observedAt);
  }

  /** If the entries were in the order of their times, an accepted refresh leaves them so. */
  lemma {:induction false} RefreshInTime(w: State, snapshot: Snapshot, failed: bool, order: seq<Identity>,
                                         evicted: set<Identity>, inScope: Ref -> bool, low: int)
    requires Accepts(w, snapshot.observedAt) && InTime(w.log, low, w.lastRefreshAt)
    ensures InTime(Observed(w, snapshot, failed, order, evicted, inScope).log,
                   snapshot.observedAt - RETENTION, snapshot.observedAt)
  {
    var at := snapshot.observedAt;
    PrunedInTime(w, at, low, w.lastRefreshAt);
    BeforeCapInTime(w, snapshot, failed, order, inScope, at - RETENTION);
  }

  // ---- Exactly when a refresh leaves nothing old ----

  /** How many of `n` entries the cap pushes out when `more` are appended. */
  function PushedOut(n: nat, more: nat): nat { if n + more > MAX_ENTRIES then n + more - MAX_ENTRIES else 0 }

  /** `now` is what is left of `before` once its first `out` entries were pushed out, and then new entries
      observed at `at`. */
  ghost predicate Continues(before: seq<Entry>, now: seq<Entry>, out: nat, at: int) {
    && |before| <= out + |now|
    && forall i :: 0 <= i < |now| ==>
         if out + i < |before| then now[i] == before[out + i] else now[i].observedAt == at
  }

  lemma {:induction false} AppendedContinues(l: Log, m: Log, more: nat, at: int, record: Record)
    requires PushedOut(|l.entries|, more) + |m.entries| == |l.entries| + more
    requires Continues(l.entries, m.entries, PushedOut(|l.entries|, more), at)
    ensures var n := Appended(m, at, record);
            && PushedOut(|l.entries|, more + 1) + |n.entries| == |l.entries| + more + 1
            && Continues(l.entries, n.entries, PushedOut(|l.entries|, more + 1), at)
  {
  }

  lemma {:induction false} AppendedAllContinues(l: Log, at: int, records: seq<Record>)
    requires |l.entries| <= MAX_ENTRIES
    ensures var m := AppendedAll(l, at, records);
            && m.sequence == l.sequence + |records|
            && PushedOut(|l.entries|, |records|) + |m.entries| == |l.entries| + |records|
            && Continues(l.entries, m.entries, PushedOut(|l.entries|, |records|), at)
  {
    if records != [] {
      hide Continues;
      var n := |records| - 1;
      AppendedAllContinues(l, at, records[..n]);
      AppendedContinues(l, AppendedAll(l, at, records[..n]), n, at, records[n]);
    }
  }

  ghost predicate NoneOld(entries: seq<Entry>, cutoff: int) { forall e :: e in entries ==> e.observedAt >= cutoff }

  lemma {:induction false} AppendedAllNoneOld(l: Log, at: int, records: seq<Record>, cutoff: int)
    requires cutoff <= at && NoneOld(l.entries, cutoff)
    ensures NoneOld(AppendedAll(l, at, records).entries, cutoff)
  {
    if records != [] {
      AppendedAllNoneOld(l, at, records[..|records| - 1], cutoff);
    }
  }

  lemma {:induction false} AppendedAllCounts(l: Log, at: int, records: seq<Record>)
    ensures AppendedAll(l, at, records).sequence == l.sequence + |records|
  {
    if records != [] {
      AppendedAllCounts(l, at, records[..|records| - 1]);
    }
  }

  lemma {:induction false} ContinuesNoneOld(before: seq<Entry>, now: seq<Entry>, out: nat, at: int, cutoff: int)
    requires Continues(before, now, out, at) && cutoff <= at
    ensures NoneOld(now, cutoff) <==> forall i :: out <= i < |before| ==> before[i].observedAt >= cutoff
  {
    if NoneOld(now, cutoff) {
      forall i | out <= i < |before| ensures before[i].observedAt >= cutoff {
        assert now[i - out] in now;
      }
    }
    if forall i :: out <= i < |before| ==> before[i].observedAt >= cutoff {
      forall i | 0 <= i < |now| ensures now[i].observedAt >= cutoff {}
    }
  }

  lemma {:induction false} ExtendsNoneOld(l: Log, m: Log, at: int, cutoff: int)
    requires Extends(l, m, at) && cutoff <= at
    ensures m.sequence >= l.sequence && (NoneOld(l.entries, cutoff) ==> NoneOld(m.entries, cutoff))
    ensures |l.entries| <= MAX_ENTRIES ==>
              (NoneOld(m.entries, cutoff) <==>
                 forall i :: PushedOut(|l.entries|, m.sequence - l.sequence) <= i < |l.entries| ==>
                   l.entries[i].observedAt >= cutoff)
  {
    hide Continues, NoneOld, AppendedAll;
    var records :| m == AppendedAll(l, at, records);
    AppendedAllCounts(l, at, records);
    if NoneOld(l.entries, cutoff) { AppendedAllNoneOld(l, at, records, cutoff); }
    if |l.entries| <= MAX_ENTRIES {
      AppendedAllContinues(l, at, records);
      ContinuesNoneOld(l.entries, m.entries, PushedOut(|l.entries|, |records|), at, cutoff);
    }
  }

  lemma {:induction false} PrunedEntries(w: State, at: int)
    ensures Pruned(w, at).log.entries == w.log.entries[OldPrefix(w.log.entries, at - RETENTION)..]
    ensures Pruned(w, at).log.sequence == w.log.sequence
    ensures NoneOld(Pruned(w, at).log.entries, at - RETENTION) <==> OldFirst(w.log.entries, at - RETENTION)
  {
    hide OldFirst, OldPrefix;
    OldFirstIff(w.log.entries, at - RETENTION);
  }

  /** After any accepted refresh nothing older than the retention is left if no old entry came after a recent
      one, and only if, as long as the cap pushes nothing out. In general an old entry is left exactly if
      it lies behind the old entries at the front and is not pushed out by the new ones. */
  lemma {:induction false} RefreshRetains(w: State, snapshot: Snapshot, failed: bool, order: seq<Identity>,
                                          evicted: set<Identity>, inScope: Ref -> bool)
    requires Accepts(w, snapshot.observedAt)
    ensures var cutoff, entries := snapshot.observedAt - RETENTION, w.log.entries;
            var log := Observed(w, snapshot, failed, order, evicted, inScope).log;
            var kept := entries[OldPrefix(entries, cutoff)..];
            && log.sequence >= w.log.sequence
            && (OldFirst(entries, cutoff) ==> NoneOld(log.entries, cutoff))
            && (|kept| + (log.sequence - w.log.sequence) <= MAX_ENTRIES ==>
                  (NoneOld(log.entries, cutoff) <==> OldFirst(entries, cutoff)))
            && (|entries| <= MAX_ENTRIES ==>
                  (NoneOld(log.entries, cutoff) <==>
                     forall i :: PushedOut(|kept|, log.sequence - w.log.sequence) <= i < |kept| ==>
                       kept[i].observedAt >= cutoff))
  {
    hide Observed, Pruned, BeforeCap, OldPrefix, OldFirst, NoneOld, Extends, PushedOut, Accepts;
    var at := snapshot.observedAt;
    var cutoff, l, m := at - RETENTION, Pruned(w, at).log, BeforeCap(w, snapshot, failed, order, inScope).log;
    PrunedEntries(w, at);
    BeforeCapExtends(w, snapshot, failed, order, inScope);
    ExtendsNoneOld(l, m, at, cutoff);
    ObservedEntries(w, snapshot, failed, order, evicted, inScope);
    if |l.entries| + (m.sequence - l.sequence) <= MAX_ENTRIES {
      NothingPushedOut(l.entries, m.sequence - l.sequence, cutoff);
    }
  }

  lemma {:induction false} ObservedEntries(w: State, snapshot: Snapshot, failed: bool, order: seq<Identity>,
                                           evicted: set<Identity>, inScope: Ref -> bool)
    requires Accepts(w, snapshot.observedAt)
    ensures var (v, m) := (Observed(w, snapshot, failed, order, evicted, inScope).log,
                           BeforeCap(w, snapshot, failed, order, inScope).log);
            v.entries == m.entries && v.sequence == m.sequence
  {
    hide BeforeCap;
  }

  lemma {:induction false} NothingPushedOut(entries: seq<Entry>, more: nat, cutoff: int)
    requires |entries| + more <= MAX_ENTRIES
    ensures PushedOut(|entries|, more) == 0
    ensures (forall i :: 0 <= i < |entries| ==> entries[i].observedAt >= cutoff) <==> NoneOld(entries, cutoff)
  {
  }

  // ---- Runs ----

  datatype Move =
    | Refresh(snapshot: Snapshot, failed: bool, order: seq<Identity>, evicted: set<Identity>)
    | Collect(collection: Collection, evictedEvents: set<EventKey>)

  function After1(w: State, move: Move, inScope: Ref -> bool, safe: string -> string): State {
    match move
    case Refresh(snapshot, failed, order, evicted) => Observed(w, snapshot, failed, order, evicted, inScope)
    case Collect(collection, evicted) => Collected(w, collection, evicted, inScope, safe)
  }

  ghost predicate Possible(w: State, move: Move, inScope: Ref -> bool, safe: string -> string) {
    match move
    case Refresh(snapshot, failed, order, evicted) => RefreshChoices(w, snapshot, failed, order, evicted, inScope)
    case Collect(collection, evicted) => CollectChoices(w, collection, evicted, inScope, safe)
  }

  function After(w: State, moves: seq<Move>, inScope: Ref -> bool, safe: string -> string): State {
    if moves == [] then w
    else After1(After(w, moves[..|moves| - 1], inScope, safe), moves[|moves| - 1], inScope, safe)
  }

  ghost predicate AllPossible(w: State, moves: seq<Move>, inScope: Ref -> bool, safe: string -> string) {
    forall i :: 0 <= i < |moves| ==> Possible(After(w, moves[..i], inScope, safe), moves[i], inScope, safe)
  }

  /** Over any run: the entries are an exact suffix of all that was appended, consecutively numbered, and what
      is dropped is exactly the earlier entries, the lost sources and the evicted events. */
  lemma {:induction false} RunExact(context: string, at: nat, moves: seq<Move>, inScope: Ref -> bool,
                                    safe: string -> string)
    ensures Exact(After(Fresh(context, at), moves, inScope, safe).log)
  {
    if moves != [] {
      var n := |moves| - 1;
      RunExact(context, at, moves[..n], inScope, safe);
      var w := After(Fresh(context, at), moves[..n], inScope, safe);
      match moves[n]
      case Refresh(snapshot, failed, order, evicted) => ObservedExact(w, snapshot, failed, order, evicted, inScope);
      case Collect(collection, evicted) => CollectedExact(w, collection, evicted, inScope, safe);
    }
  }

  ghost predicate NoEventsRequested(moves: seq<Move>) {
    forall i :: 0 <= i < |moves| && moves[i].Collect? ==> !moves[i].collection.requested
  }

  ghost predicate InOrder(l: Log, high: int) { exists low: int :: InTime(l, low, high) }

  lemma {:induction false} NotedInOrder(l: Log, at: int, record: Record)
    requires InOrder(l, at)
    ensures InOrder(Appended(l, at, record), at)
  {
    var low: int :| InTime(l, low, at);
    var lower := if low <= at then low else at;
    assert InTime(l, lower, at);
    AppendedInTime(l, lower, at, record);
  }

  /** Without requested event collections, over any run: the entries are in the order of their times, and after
      each accepted refresh none is older than the retention. */
  lemma {:induction false} RunRetained(context: string, at: nat, moves: seq<Move>, inScope: Ref -> bool,
                                       safe: string -> string)
    requires NoEventsRequested(moves)
    ensures var w := After(Fresh(context, at), moves, inScope, safe);
            && InOrder(w.log, w.lastRefreshAt)
            && (moves != [] && moves[|moves| - 1].Refresh? ==>
                  var before := After(Fresh(context, at), moves[..|moves| - 1], inScope, safe);
                  var now := moves[|moves| - 1].snapshot.observedAt;
                  Accepts(before, now) ==> InTime(w.log, now - RETENTION, now))
  {
    if moves == [] {
      assert InTime(EMPTY_LOG, 0, 0);
    } else {
      var n := |moves| - 1;
      RunRetained(context, at, moves[..n], inScope, safe);
      var w := After(Fresh(context, at), moves[..n], inScope, safe);
      match moves[n]
      case Refresh(snapshot, failed, order, evicted) =>
        if Accepts(w, snapshot.observedAt) {
          var low: int :| InTime(w.log, low, w.lastRefreshAt);
          RefreshInTime(w, snapshot, failed, order, evicted, inScope, low);
        } else {
          NotedInOrder(w.log, w.lastRefreshAt, Gap(None, Some(Coverage("", "", Stale, false))));
        }
      case Collect(collection, evicted) =>
        assert !collection.requested;
        NotedInOrder(w.log, w.lastRefreshAt, Gap(None, Some(Coverage(EVENT_GVR, "", Unknown, false))));
    }
  }

  // ---- A run in which an old entry outlives its retention ----

  const SECOND: nat := 1_000_000_000
  const HOUR: nat := 3600 * SECOND

  function Quiet(at: nat): Move { Refresh(Snapshot(at, [], [Coverage("v1/pods", "", Complete, false)]), false, [], {}) }

  /** A refresh at ten hours; its events, captured five seconds later, whose query was cut short; a second
      refresh of the same time, which is stale; and a refresh a day and two seconds after the first. */
  function StaleGap(): seq<Move> {
    [Quiet(10 * HOUR),
     Collect(Collection(true, 10 * HOUR + 5 * SECOND, [], [Coverage(EVENT_GVR, "", Complete, true)]), {}),
     Quiet(10 * HOUR),
     Quiet(34 * HOUR + 2 * SECOND)]
  }

  lemma {:induction false} QuietRefresh(w: State, at: nat, inScope: Ref -> bool, safe: string -> string)
    requires w.tracked == map[] && w.events == map[] && Accepts(w, at)
    requires w.log.entries != [] ==> w.log.entries[0].observedAt >= at - RETENTION
    ensures After1(w, Quiet(at), inScope, safe) == w.(lastRefreshAt := at)
    ensures Possible(w, Quiet(at), inScope, safe)
  {
    var coverage := [Coverage("v1/pods", "", Complete, false)];
    assert Aged(w, at - RETENTION) == {};
    assert Pruned(w, at) == w;
    assert ItemsSeen(Scan(w, {}), [], at, inScope) == Scan(w, {});
    assert coverage[..0] == [];
    assert CoverageNoted(w, coverage, false, at) == w;
    assert CoverageRecorded(Scan(w, {}), coverage, false, [], at) == w;
  }

  /** The events and the stale refresh append two entries, of which the later one has the earlier time. */
  lemma {:induction false} CollectThenStale(w: State, inScope: Ref -> bool, safe: string -> string)
    requires w == Fresh("", 1).(lastRefreshAt := 10 * HOUR)
    ensures var v := After1(w, StaleGap()[1], inScope, safe);
            var u := After1(v, StaleGap()[2], inScope, safe);
            && Possible(w, StaleGap()[1], inScope, safe) && Possible(v, StaleGap()[2], inScope, safe)
            && u == w.(log := u.log) && |u.log.entries| == 2
            && u.log.entries[0].observedAt == 10 * HOUR + 5 * SECOND && u.log.entries[1].observedAt == 10 * HOUR
  {
    var coverage, at := [Coverage(EVENT_GVR, "", Complete, true)], 10 * HOUR + 5 * SECOND;
    assert coverage[..0] == [];
    assert EventsSeen(w, [], at, inScope, safe) == w;
    assert EventCoverage(w, coverage, at) == Noted(w, at, Gap(None, Some(coverage[0])));
  }

  lemma {:induction false} AfterNext(w: State, moves: seq<Move>, i: nat, inScope: Ref -> bool, safe: string -> string)
    requires i < |moves|
    ensures After(w, moves[..i + 1], inScope, safe)
         == After1(After(w, moves[..i], inScope, safe), moves[i], inScope, safe)
  {
    assert moves[..i + 1][..i] == moves[..i];
  }

  lemma {:induction false} StaleGapStates(inScope: Ref -> bool, safe: string -> string)
    ensures var w0 := Fresh("", 1);
            var w3 := After(w0, StaleGap()[..3], inScope, safe);
            && (forall i :: 0 <= i < 3 ==>
                  Possible(After(w0, StaleGap()[..i], inScope, safe), StaleGap()[i], inScope, safe))
            && w3 == w0.(lastRefreshAt := 10 * HOUR, log := w3.log) && |w3.log.entries| == 2
            && w3.log.entries[0].observedAt == 10 * HOUR + 5 * SECOND && w3.log.entries[1].observedAt == 10 * HOUR
  {
    hide After1, Possible;
    var w0 := Fresh("", 1);
    AfterNext(w0, StaleGap(), 0, inScope, safe);
    AfterNext(w0, StaleGap(), 1, inScope, safe);
    AfterNext(w0, StaleGap(), 2, inScope, safe);
    QuietRefresh(w0, 10 * HOUR, inScope, safe);
    CollectThenStale(w0.(lastRefreshAt := 10 * HOUR), inScope, safe);
  }

  /** A run in which an entry older than the retention is still there after an accepted refresh: the gap of the
      stale refresh carries the time of the last refresh and stands behind events captured after it. */
  lemma {:induction false} StaleGapBreaksRetention(inScope: Ref -> bool, safe: string -> string)
    ensures var before := After(Fresh("", 1), StaleGap()[..3], inScope, safe);
            var w, at := After(Fresh("", 1), StaleGap(), inScope, safe), 34 * HOUR + 2 * SECOND;
            && AllPossible(Fresh("", 1), StaleGap(), inScope, safe)
            && Accepts(before, at) && !OldFirst(before.log.entries, at - RETENTION)
            && w.lastRefreshAt == at && !NoneOld(w.log.entries, at - RETENTION)
  {
    hide After1, Possible;
    var w3 := After(Fresh("", 1), StaleGap()[..3], inScope, safe);
    StaleGapStates(inScope, safe);
    QuietRefresh(w3, 34 * HOUR + 2 * SECOND, inScope, safe);
    assert StaleGap()[..|StaleGap()| - 1] == StaleGap()[..3];
    assert w3.log.entries[1] in w3.log.entries;
  }
}
