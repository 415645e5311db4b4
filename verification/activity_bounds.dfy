/** What a refresh or a collection counts as lost, and up to which time it says that something is missing. */
module ActivityBounds {
  import opened ActivityLog
  import opened ActivitySteps
  import opened ActivityRuns

  /** Appending pushes out the oldest entries beyond 512, and notes the time of the last one that went. */
  lemma {:induction false} AppendedAllBounds(l: Log, at: int, records: seq<Record>)
    requires Exact(l)
    ensures var m := AppendedAll(l, at, records);
            && Exact(m) && |m.journal| == |l.journal| + |records| && |l.entries| <= |l.journal|
            && |m.entries| == (if |l.entries| + |records| > 512 then 512 else |l.entries| + |records|)
            && m.lostSources == l.lostSources && m.lostEvents == l.lostEvents
            && m.prunedBefore == if |l.entries| + |records| > 512 then m.journal[|m.journal| - 513].observedAt
                                 else l.prunedBefore
  {
    assert |l.entries| <= 512 && |l.entries| <= |l.journal|;
    if records != [] {
      hide Exact;
      var n := |records| - 1;
      var m := AppendedAll(l, at, records[..n]);
      AppendedAllBounds(l, at, records[..n]);
      AppendedBounds(m, at, records[n]);
    }
  }

  lemma {:induction false} AppendedBounds(l: Log, at: int, record: Record)
    requires Exact(l)
    ensures var m := Appended(l, at, record);
            && Exact(m) && |m.journal| == |l.journal| + 1 && m.journal[..|l.journal|] == l.journal
            && |l.entries| <= 512 && |l.entries| <= |l.journal|
            && |m.entries| == (if |l.entries| == 512 then 512 else |l.entries| + 1)
            && m.lostSources == l.lostSources && m.lostEvents == l.lostEvents
            && m.prunedBefore == if |l.entries| == 512 then m.journal[|m.journal| - 513].observedAt else l.prunedBefore
  {
    AppendedExact(l, at, record);
    if |l.entries| == 512 {
      assert l.entries[0] == l.journal[|l.journal| - 512];
    }
  }

  /** The entries that pruning leaves. */
  function Left(w: State, at: int): nat { |w.log.entries| - OldPrefix(w.log.entries, at - RETENTION) }

  lemma {:induction false} PrunedBounds(w: State, at: int)
    requires Exact(w.log)
    ensures var p := Pruned(w, at);
            && |p.log.entries| == Left(w, at) && |p.log.journal| == |w.log.journal|
            && p.log.lostSources == w.log.lostSources + multiset(Aged(w, at - RETENTION))
            && p.log.lostEvents == w.log.lostEvents
            && p.log.prunedBefore == (if || (exists k :: k in w.tracked && w.tracked[k].capturedAt < at - RETENTION)
                                         || (w.log.entries != [] && w.log.entries[0].observedAt < at - RETENTION)
                                      then at - RETENTION else w.log.prunedBefore)
  {
    var aged := Aged(w, at - RETENTION);
    assert aged == {} <==> forall k :: k in w.tracked ==> w.tracked[k].capturedAt >= at - RETENTION by {
      if aged != {} {
        var k :| k in aged;
      }
      assert forall k :: k in w.tracked && w.tracked[k].capturedAt < at - RETENTION ==> k in aged;
    }
  }

  /** An accepted refresh is the last one from then on. The sources it lost are those that were too old and those
      beyond the cap, and no event is counted. The time it names is its own if the cap took a source; else that of
      the last entry that was pushed out, if any; else the limit of the retention, if anything was too old. */
  lemma {:induction false} RefreshBounds(w: State, snapshot: Snapshot, failed: bool, order: seq<Identity>,
                                         evicted: set<Identity>, inScope: Ref -> bool)
    requires Exact(w.log) && Accepts(w, snapshot.observedAt)
    ensures var (v, at) := (Observed(w, snapshot, failed, order, evicted, inScope), snapshot.observedAt);
            var over, more := |BeforeCap(w, snapshot, failed, order, inScope).tracked| > 2000,
                              |v.log.journal| - |w.log.journal|;
            && v.lastRefreshAt == at
            && v.log.lostSources == w.log.lostSources + multiset(Aged(w, at - RETENTION))
                                    + (if over then multiset(evicted) else multiset{})
            && v.log.lostEvents == w.log.lostEvents
            && more >= 0 && (!over && Left(w, at) + more > 512 ==> |v.log.journal| >= 513)
            && v.log.prunedBefore
               == (if over then at
                   else if Left(w, at) + more > 512 then v.log.journal[|v.log.journal| - 513].observedAt
                   else if || (exists k :: k in w.tracked && w.tracked[k].capturedAt < at - RETENTION)
                           || (w.log.entries != [] && w.log.entries[0].observedAt < at - RETENTION)
                   then at - RETENTION else w.log.prunedBefore)
  {
    hide AppendedAll, Exact, Pruned, Aged, Left, BeforeCap, Capped;
    var at := snapshot.observedAt;
    var p, b := Pruned(w, at), BeforeCap(w, snapshot, failed, order, inScope);
    PrunedBounds(w, at);
    PrunedExact(w, at);
    BeforeCapExtends(w, snapshot, failed, order, inScope);
    var records :| b.log == AppendedAll(p.log, at, records);
    AppendedAllBounds(p.log, at, records);
    CappedBounds(b, evicted, at);
    BeforeCapIsLast(w, snapshot, failed, order, inScope);
  }

  lemma {:induction false} CappedBounds(b: State, evicted: set<Identity>, at: int)
    ensures var v := Capped(b, evicted, at);
            if |b.tracked| > 2000 then
              && v.lastRefreshAt == b.lastRefreshAt && v.log.journal == b.log.journal
              && v.log.lostSources == b.log.lostSources + multiset(evicted)
              && v.log.lostEvents == b.log.lostEvents && v.log.prunedBefore == at
            else v == b
  {
  }

  lemma {:induction false} BeforeCapIsLast(w: State, snapshot: Snapshot, failed: bool, order: seq<Identity>,
                                           inScope: Ref -> bool)
    ensures BeforeCap(w, snapshot, failed, order, inScope).lastRefreshAt == snapshot.observedAt
  {
    hide CoverageRecorded, Scanned;
  }

  /** A collection that is taken counts the events beyond the cap, and names its own time if there are any; else
      that of the last entry it pushed out, if any. */
  lemma {:induction false} CollectBounds(w: State, c: Collection, evicted: set<EventKey>, inScope: Ref -> bool,
                                         safe: string -> string)
    requires Exact(w.log) && c.requested && !Ignores(w, c.capturedAt)
    ensures var v := Collected(w, c, evicted, inScope, safe);
            var over, more := |BeforeEventCap(w, c, inScope, safe).events| > 128, |v.log.journal| - |w.log.journal|;
            && v.log.lostSources == w.log.lostSources
            && v.log.lostEvents == w.log.lostEvents + (if over then multiset(evicted) else multiset{})
            && more >= 0 && (!over && |w.log.entries| + more > 512 ==> |v.log.journal| >= 513)
            && v.log.prunedBefore
               == (if over then c.capturedAt
                   else if |w.log.entries| + more > 512 then v.log.journal[|v.log.journal| - 513].observedAt
                   else w.log.prunedBefore)
  {
    hide AppendedAll, Exact, BeforeEventCap;
    var b := BeforeEventCap(w, c, inScope, safe);
    BeforeEventCapExtends(w, c, inScope, safe);
    var records :| b.log == AppendedAll(w.log, c.capturedAt, records);
    AppendedAllBounds(w.log, c.capturedAt, records);
  }
}
