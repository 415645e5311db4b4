/** The retained events of an activity window, and the bounds that hold over whole runs. */
module ActivityEvents {
  import opened ActivityLog
  import opened ActivitySteps
  import opened ActivityIdentities
  import opened ActivityRuns

  // ---- Reading the same events again ----

  predicate Settled(w: State, e: Event) { EventKeyOf(e) in w.events && SameEvent(w.events[EventKeyOf(e)], e) }

  lemma {:induction false} EventsSeenOnly(w: State, events: seq<Event>, at: nat, inScope: Ref -> bool,
                                          safe: string -> string)
    ensures var v := EventsSeen(w, events, at, inScope, safe);
            && v == w.(log := v.log, events := v.events)
            && |v.log.journal| >= |w.log.journal| && (|v.log.journal| == |w.log.journal| ==> v == w)
            && v.log.lostSources == w.log.lostSources
  {
    if events != [] {
      EventsSeenOnly(w, events[..|events| - 1], at, inScope, safe);
    }
  }

  /** A pass over some events changes nothing exactly when all that are relevant are settled. */
  lemma {:induction false} SilentIff(w: State, events: seq<Event>, at: nat, inScope: Ref -> bool,
                                     safe: string -> string)
    ensures EventsSeen(w, events, at, inScope, safe) == w <==>
              forall e :: e in events && Relevant(w, e, inScope) ==> Settled(w, e)
  {
    if events != [] {
      var n := |events| - 1;
      var v := EventsSeen(w, events[..n], at, inScope, safe);
      SilentIff(w, events[..n], at, inScope, safe);
      EventsSeenOnly(w, events[..n], at, inScope, safe);
      assert events == events[..n] + [events[n]];
      assert EventSeen(v, events[n], at, inScope, safe) == v <==>
               !Relevant(v, events[n], inScope) || Settled(v, events[n]) by {
        if Relevant(v, events[n], inScope) && !Settled(v, events[n]) {
          assert |EventSeen(v, events[n], at, inScope, safe).log.journal| == |v.log.journal| + 1;
        }
      }
    }
  }

  /** The relevant events of a list that fall on one key all say the same as `e`. */
  ghost predicate AgreeOn(w: State, events: seq<Event>, inScope: Ref -> bool, e: Event) {
    forall f :: f in events && Relevant(w, f, inScope) && EventKeyOf(f) == EventKeyOf(e) ==> SameEvent(f, e)
  }

  ghost predicate Says(x: Event, e: Event, safe: string -> string) {
    x.regarding == e.regarding && x.content == Safely(e.content, safe)
  }

  lemma {:induction false} StepLeaves(v: State, f: Event, at: nat, inScope: Ref -> bool, safe: string -> string,
                                      e: Event)
    requires EventKeyOf(f) == EventKeyOf(e) && Relevant(v, f, inScope) ==> SameEvent(f, e)
    ensures var u, k := EventSeen(v, f, at, inScope, safe), EventKeyOf(e);
            && (Settled(v, e) || EventKeyOf(f) != k || !Relevant(v, f, inScope) ==>
                  (k in u.events <==> k in v.events) && (k in v.events ==> u.events[k] == v.events[k]))
            && (!Settled(v, e) && EventKeyOf(f) == k && Relevant(v, f, inScope) ==>
                  k in u.events && Says(u.events[k], e, safe))
  {
  }

  lemma {:induction false} PassLeaves(w: State, events: seq<Event>, at: nat, inScope: Ref -> bool,
                                      safe: string -> string, e: Event)
    requires AgreeOn(w, events, inScope, e)
    ensures var v, k := EventsSeen(w, events, at, inScope, safe), EventKeyOf(e);
            && (Settled(w, e) ==> k in v.events && v.events[k] == w.events[k])
            && (!Settled(w, e) && e in events && Relevant(w, e, inScope) ==>
                  k in v.events && Says(v.events[k], e, safe))
            && (k in v.events ==> (k in w.events && v.events[k] == w.events[k]) || Says(v.events[k], e, safe))
  {
    if events != [] {
      var n := |events| - 1;
      var v, f := EventsSeen(w, events[..n], at, inScope, safe), events[n];
      PassLeaves(w, events[..n], at, inScope, safe, e);
      EventsSeenOnly(w, events[..n], at, inScope, safe);
      assert events == events[..n] + [f];
      assert Relevant(v, f, inScope) <==> Relevant(w, f, inScope);
      StepLeaves(v, f, at, inScope, safe, e);
    }
  }

  /** Events that were read once are silent when read again exactly when no two of them contradict each other
      and each either was known already or has texts that stay as they are when made safe for display. */
  lemma {:induction false} RepeatIsSilentIff(w: State, events: seq<Event>, at: nat, again: nat, inScope: Ref -> bool,
                                             safe: string -> string)
    ensures var v := EventsSeen(w, events, at, inScope, safe);
            EventsSeen(v, events, again, inScope, safe) == v <==>
              forall e :: e in events && Relevant(w, e, inScope) ==>
                AgreeOn(w, events, inScope, e) && (Settled(w, e) || Safely(e.content, safe) == e.content)
  {
    var v := EventsSeen(w, events, at, inScope, safe);
    EventsSeenOnly(w, events, at, inScope, safe);
    SilentIff(v, events, again, inScope, safe);
    assert forall e :: Relevant(v, e, inScope) <==> Relevant(w, e, inScope);
    if EventsSeen(v, events, again, inScope, safe) == v {
      forall e | e in events && Relevant(w, e, inScope)
        ensures AgreeOn(w, events, inScope, e) && (Settled(w, e) || Safely(e.content, safe) == e.content)
      {
        SilentMeansAgreed(w, events, at, inScope, safe, e);
      }
    } else {
      var e :| e in events && Relevant(v, e, inScope) && !Settled(v, e);
      if AgreeOn(w, events, inScope, e) {
        PassLeaves(w, events, at, inScope, safe, e);
      }
    }
  }

  lemma {:induction false} SilentMeansAgreed(w: State, events: seq<Event>, at: nat, inScope: Ref -> bool,
                                             safe: string -> string, e: Event)
    requires e in events && Relevant(w, e, inScope)
    requires forall f :: f in events && Relevant(w, f, inScope) ==> Settled(EventsSeen(w, events, at, inScope, safe), f)
    ensures AgreeOn(w, events, inScope, e) && (Settled(w, e) || Safely(e.content, safe) == e.content)
  {
    var v := EventsSeen(w, events, at, inScope, safe);
    forall f | f in events && Relevant(w, f, inScope) && EventKeyOf(f) == EventKeyOf(e) ensures SameEvent(f, e) {
      assert Settled(v, f) && Settled(v, e);
    }
    PassLeaves(w, events, at, inScope, safe, e);
    assert Settled(v, e);
  }

  // ---- Bounds and keys, over any run ----

  ghost predicate EventsKeyed(w: State) { forall k :: k in w.events ==> EventKeyOf(w.events[k]) == k }

  ghost predicate Sound(w: State) {
    && Keyed(w) && |w.tracked| <= MAX_TRACKED
    && EventsKeyed(w) && |w.events| <= MAX_EVENTS
  }

  lemma {:induction false} EventsSeenKeyed(w: State, events: seq<Event>, at: nat, inScope: Ref -> bool,
                                           safe: string -> string)
    requires EventsKeyed(w)
    ensures EventsKeyed(EventsSeen(w, events, at, inScope, safe))
  {
    if events != [] {
      EventsSeenKeyed(w, events[..|events| - 1], at, inScope, safe);
    }
  }

  lemma {:induction false} EventCoverageOnly(w: State, coverage: seq<Coverage>, at: nat)
    ensures var v := EventCoverage(w, coverage, at);
            v == w.(log := v.log)
  {
    if coverage != [] {
      EventCoverageOnly(w, coverage[..|coverage| - 1], at);
    }
  }

  lemma {:induction false} BeforeEventCapKeyed(w: State, c: Collection, inScope: Ref -> bool, safe: string -> string)
    requires EventsKeyed(w)
    ensures var b := BeforeEventCap(w, c, inScope, safe);
            EventsKeyed(b) && b == w.(log := b.log, events := b.events)
  {
    EventsSeenOnly(w, c.events, c.capturedAt, inScope, safe);
    EventsSeenKeyed(w, c.events, c.capturedAt, inScope, safe);
    EventCoverageOnly(EventsSeen(w, c.events, c.capturedAt, inScope, safe), c.coverage, c.capturedAt);
  }

  lemma {:induction false} EventsCappedKeyed(b: State, evicted: set<EventKey>, at: nat)
    requires EventsKeyed(b) && (|b.events| > MAX_EVENTS ==> OldestEvents(b.events, evicted))
    ensures var v := EventsCapped(b, evicted, at);
            EventsKeyed(v) && |v.events| <= MAX_EVENTS && v == b.(log := v.log, events := v.events)
  {
    if |b.events| > MAX_EVENTS {
      RemovedSize(b.events, evicted);
    }
  }

  /** Event collections never touch what is tracked, and never leave more events than the cap. */
  lemma {:induction false} CollectedSound(w: State, c: Collection, evicted: set<EventKey>, inScope: Ref -> bool,
                                          safe: string -> string)
    requires Sound(w) && CollectChoices(w, c, evicted, inScope, safe)
    ensures var v := Collected(w, c, evicted, inScope, safe);
            Sound(v) && v == w.(log := v.log, events := v.events)
  {
    hide BeforeEventCap, EventsCapped;
    if c.requested && !Ignores(w, c.capturedAt) {
      BeforeEventCapKeyed(w, c, inScope, safe);
      EventsCappedKeyed(BeforeEventCap(w, c, inScope, safe), evicted, c.capturedAt);
    }
  }

  lemma {:induction false} PrunedEvents(w: State, at: nat)
    requires EventsKeyed(w) && |w.events| <= MAX_EVENTS
    ensures EventsKeyed(Pruned(w, at)) && |Pruned(w, at).events| <= MAX_EVENTS
  {
    var aged := AgedEvents(w, at - RETENTION);
    assert aged <= w.events.Keys;
    RemovedSize(w.events, aged);
  }

  lemma {:induction false} ObservedSound(w: State, snapshot: Snapshot, failed: bool, order: seq<Identity>,
                                         evicted: set<Identity>, inScope: Ref -> bool)
    requires Sound(w) && RefreshChoices(w, snapshot, failed, order, evicted, inScope)
    ensures Sound(Observed(w, snapshot, failed, order, evicted, inScope))
  {
    if Accepts(w, snapshot.observedAt) {
      var any := Identity("", "", "", "", "");
      TrackedExactly(w, snapshot, failed, order, evicted, inScope, any);
      PrunedEvents(w, snapshot.observedAt);
      BeforeCapEvents(w, snapshot, failed, order, inScope);
    }
  }

  lemma {:induction false} BeforeCapEvents(w: State, snapshot: Snapshot, failed: bool, order: seq<Identity>,
                                           inScope: Ref -> bool)
    requires Keyed(w)
    requires Enumerates(order, Scanned(w, snapshot, inScope).w.tracked.Keys)
    ensures BeforeCap(w, snapshot, failed, order, inScope).events == Pruned(w, snapshot.observedAt).events
  {
    var at := snapshot.observedAt;
    PrunedKeyed(w, at);
    ItemsReflected(Pruned(w, at), snapshot.items, at, inScope);
    RecordedEffect(Scanned(w, snapshot, inScope), snapshot.coverage, failed, order, at,
                   Identity("", "", "", "", ""));
  }

  /** Over any run, with any choices the program could make: map keys match, every current UID names a tracked
      source, and sources and events stay within their caps. */
  lemma {:induction false} RunSound(context: string, at: nat, moves: seq<Move>, inScope: Ref -> bool,
                                    safe: string -> string)
    requires AllPossible(Fresh(context, at), moves, inScope, safe)
    ensures Sound(After(Fresh(context, at), moves, inScope, safe))
  {
    if moves != [] {
      var n := |moves| - 1;
      var w0 := Fresh(context, at);
      forall i | 0 <= i < n ensures Possible(After(w0, moves[..n][..i], inScope, safe), moves[..n][i], inScope, safe) {
        assert moves[..n][..i] == moves[..i];
      }
      RunSound(context, at, moves[..n], inScope, safe);
      var w := After(w0, moves[..n], inScope, safe);
      assert Possible(w, moves[n], inScope, safe);
      match moves[n]
      case Refresh(snapshot, failed, order, evicted) => ObservedSound(w, snapshot, failed, order, evicted, inScope);
      case Collect(collection, evicted) => CollectedSound(w, collection, evicted, inScope, safe);
    }
  }
}
