/** The activity window itself: the fields it updates in place, each method proved against the step it makes. */
module ActivityWindow {
  import opened Wrappers
  import opened ActivityFacts
  import opened ActivityLog
  import opened ActivitySteps
  import opened ActivityIdentities

  // ---- Keys in some order ----

  ghost predicate Orders<K(!new)>(keys: seq<K>, s: set<K>) {
    && (forall k :: k in keys <==> k in s)
    && forall i, j :: 0 <= i < j < |keys| ==> keys[i] != keys[j]
  }

  method Keys<K(!new,==)>(s: set<K>) returns (keys: seq<K>)
    ensures Orders(keys, s)
  {
    keys := [];
    var rest := s;
    while rest != {}
      invariant rest <= s && Orders(keys, s - rest)
    {
      var k :| k in rest;
      rest, keys := rest - {k}, keys + [k];
    }
    assert s - rest == s;
  }

  method Oldest<K(!new,==)>(ages: map<K, int>, s: set<K>) returns (oldest: K)
    requires s != {} && s <= ages.Keys
    ensures oldest in s && forall k :: k in s ==> ages[oldest] <= ages[k]
  {
    oldest :| oldest in s;
    var rest := s - {oldest};
    while rest != {}
      invariant rest <= s && oldest in s
      invariant forall k :: k in s && k !in rest ==> ages[oldest] <= ages[k]
    {
      var k :| k in rest;
      rest := rest - {k};
      if ages[k] < ages[oldest] {
        oldest := k;
      }
    }
  }

  ghost predicate Sorted<K(!new)>(ages: map<K, int>, keys: seq<K>)
    requires forall k :: k in keys ==> k in ages
  {
    forall i, j :: 0 <= i < j < |keys| ==> ages[keys[i]] <= ages[keys[j]]
  }

  method ByAge<K(!new,==)>(ages: map<K, int>) returns (keys: seq<K>)
    ensures Orders(keys, ages.Keys)
    ensures Sorted(ages, keys)
  {
    keys := [];
    var rest := ages.Keys;
    while rest != {}
      invariant rest <= ages.Keys && Orders(keys, ages.Keys - rest)
      invariant forall k :: k in keys ==> k in ages
      invariant forall i, k :: 0 <= i < |keys| && k in rest ==> ages[keys[i]] <= ages[k]
      invariant Sorted(ages, keys)
    {
      var k := Oldest(ages, rest);
      rest, keys := rest - {k}, keys + [k];
    }
    assert ages.Keys - rest == ages.Keys;
  }

  lemma {:induction false} OrdersSize<K(!new)>(keys: seq<K>, s: set<K>)
    requires Orders(keys, s)
    ensures |keys| == |s|
  {
    if keys == [] {
      assert s == {};
    } else {
      var n := |keys| - 1;
      assert keys == keys[..n] + [keys[n]];
      OrdersSize(keys[..n], s - {keys[n]});
    }
  }

  /** The first of the keys in order of age are the oldest. */
  lemma {:induction false} FirstAreOldest<K(!new)>(ages: map<K, int>, keys: seq<K>, n: nat, first: set<K>)
    requires Orders(keys, ages.Keys) && Sorted(ages, keys)
    requires n <= |keys| && first == set k | k in keys[..n]
    ensures first <= ages.Keys && |first| == n && |keys| == |ages|
    ensures forall e, k :: e in first && k in ages && k !in first ==> ages[e] <= ages[k]
  {
    OrdersSize(keys, ages.Keys);
    assert |ages.Keys| == |ages|;
    forall k | k in first ensures k in ages { assert k in keys; }
    assert Orders(keys[..n], first);
    OrdersSize(keys[..n], first);
    forall e, k | e in first && k in ages && k !in first ensures ages[e] <= ages[k] {
      var i :| 0 <= i < n && keys[..n][i] == e;
      var j :| 0 <= j < |keys| && keys[j] == k;
      assert forall l :: 0 <= l < n ==> keys[..n][l] == keys[l] && keys[l] in first;
    }
  }

  lemma {:induction false} NamesOneMore(keys: set<Identity>, k: Identity)
    ensures NamesOf(keys + {k}) == NamesOf(keys) + {NameOf(k)}
  {
    forall n | n in NamesOf(keys + {k}) ensures n in NamesOf(keys) + {NameOf(k)} {
      var i :| i in keys + {k} && NameOf(i) == n;
    }
  }

  lemma {:induction false} ForgottenOneMore(w: State, keys: set<Identity>, k: Identity, before: int)
    requires k !in keys
    ensures Forgotten(w, keys + {k}, before)
         == var v := Forgotten(w, keys, before);
            v.(tracked := v.tracked - {k}, current := v.current - {NameOf(k)},
               log := v.log.(dropped := v.log.dropped + 1, lostSources := v.log.lostSources + multiset{k}))
  {
    NamesOneMore(keys, k);
    assert multiset(keys + {k}) == multiset(keys) + multiset{k};
    assert w.tracked - keys - {k} == w.tracked - (keys + {k});
    assert w.current - NamesOf(keys) - {NameOf(k)} == w.current - (NamesOf(keys) + {NameOf(k)});
  }

  function FirstOf(keys: seq<Identity>, n: nat): set<Identity>
    requires n <= |keys|
  {
    set k | k in keys[..n]
  }

  lemma {:induction false} FirstNone(keys: seq<Identity>)
    ensures FirstOf(keys, 0) == {}
  {
  }

  lemma {:induction false} FirstOneMore(keys: seq<Identity>, n: nat)
    requires n < |keys| && forall i, j :: 0 <= i < j < |keys| ==> keys[i] != keys[j]
    ensures keys[n] !in FirstOf(keys, n) && FirstOf(keys, n + 1) == FirstOf(keys, n) + {keys[n]}
  {
    assert keys[..n + 1] == keys[..n] + [keys[n]];
  }

  lemma {:induction false} ForgottenNone(w: State)
    ensures Forgotten(w, {}, w.log.prunedBefore) == w
  {
    assert w.tracked - {} == w.tracked && NamesOf({}) == {} && w.current - {} == w.current;
  }

  method OldestRetained(events: map<EventKey, Event>) returns (oldest: seq<EventKey>)
    requires |events| > MAX_EVENTS
    ensures forall i, j :: 0 <= i < j < |oldest| ==> oldest[i] != oldest[j]
    ensures OldestEvents(events, set k | k in oldest)
  {
    var ages := map k | k in events :: events[k].capturedAt;
    var keys := ByAge(ages);
    SameSize(ages, events);
    OrdersSize(keys, ages.Keys);
    oldest := keys[..|keys| - MAX_EVENTS];
    FirstAreOldest(ages, keys, |keys| - MAX_EVENTS, set k | k in oldest);
  }

  ghost function EventsForgotten(w: State, keys: set<EventKey>): State {
    w.(events := w.events - keys, log := EventsLost(w.log, keys, w.log.prunedBefore))
  }

  lemma {:induction false} EventsForgottenOneMore(w: State, keys: set<EventKey>, k: EventKey)
    requires k !in keys
    ensures EventsForgotten(w, keys + {k})
         == var v := EventsForgotten(w, keys);
            v.(events := v.events - {k},
               log := v.log.(dropped := v.log.dropped + 1, lostEvents := v.log.lostEvents + multiset{k}))
  {
    assert multiset(keys + {k}) == multiset(keys) + multiset{k};
    assert w.events - keys - {k} == w.events - (keys + {k});
  }

  lemma {:induction false} EventsForgottenNone(w: State)
    ensures EventsForgotten(w, {}) == w
  {
    assert w.events - {} == w.events;
  }

  /** The keys beyond the cap, in order of age. */
  method OldestTracked(tracked: map<Identity, Source>) returns (oldest: seq<Identity>)
    requires |tracked| > MAX_TRACKED
    ensures forall i, j :: 0 <= i < j < |oldest| ==> oldest[i] != oldest[j]
    ensures OldestSources(tracked, set k | k in oldest)
  {
    var ages := map k | k in tracked :: tracked[k].capturedAt;
    var keys := ByAge(ages);
    SameSize(ages, tracked);
    OrdersSize(keys, ages.Keys);
    oldest := keys[..|keys| - MAX_TRACKED];
    FirstAreOldest(ages, keys, |keys| - MAX_TRACKED, set k | k in oldest);
  }

  class Window {
    const context: string
    const startedAt: nat
    const inScope: Ref -> bool
    const safe: string -> string
    var lastRefreshAt: nat
    var entries: seq<Entry>
    var sequence: nat
    var dropped: nat
    var prunedBefore: int
    var tracked: map<Identity, Source>
    var currentUid: map<NameKey, string>
    var events: map<EventKey, Event>
    ghost var journal: seq<Entry>
    ghost var lostSources: multiset<Identity>
    ghost var lostEvents: multiset<EventKey>

    ghost function Value(): State
      reads this
    {
      State(context, startedAt, lastRefreshAt,
            Log(entries, sequence, dropped, prunedBefore, journal, lostSources, lostEvents),
            tracked, currentUid, events)
    }

    constructor (context: string, at: nat, inScope: Ref -> bool, safe: string -> string)
      ensures Value() == Fresh(context, at) && this.inScope == inScope && this.safe == safe
    {
      this.context, this.startedAt, this.inScope, this.safe := context, at, inScope, safe;
      lastRefreshAt, entries, sequence, dropped, prunedBefore := 0, [], 0, 0, 0;
      tracked, currentUid, events := map[], map[], map[];
      journal, lostSources, lostEvents := [], multiset{}, multiset{};
    }

    method Append(at: int, record: Record)
      modifies this`entries, this`sequence, this`dropped, this`prunedBefore, this`journal
      ensures Value() == Noted(old(Value()), at, record)
    {
      sequence := sequence + 1;
      journal := journal + [Entry(sequence, at, record)];
      entries := entries + [Entry(sequence, at, record)];
      if |entries| > MAX_ENTRIES {
        dropped := dropped + 1;
        prunedBefore := entries[0].observedAt;
        entries := entries[|entries| - MAX_ENTRIES..];
      }
    }

    method Forget(key: Identity)
      requires key in tracked && tracked[key].identity == key
      modifies this`tracked, this`currentUid, this`dropped, this`lostSources
      ensures tracked == old(tracked) - {key} && currentUid == old(currentUid) - {NameOf(key)}
      ensures dropped == old(dropped) + 1 && lostSources == old(lostSources) + multiset{key}
    {
      currentUid := currentUid - {NameOf(tracked[key].identity)};
      tracked := tracked - {key};
      dropped := dropped + 1;
      lostSources := lostSources + multiset{key};
    }

    /** Some tracked sources leave, one by one, and count as dropped. */
    method ForgetAll(keys: seq<Identity>)
      requires forall i :: 0 <= i < |keys| ==> keys[i] in tracked && tracked[keys[i]].identity == keys[i]
      requires forall i, j :: 0 <= i < j < |keys| ==> keys[i] != keys[j]
      modifies this`tracked, this`currentUid, this`dropped, this`lostSources
      ensures var w, gone := old(Value()), set k | k in keys;
              Value() == Forgotten(w, gone, w.log.prunedBefore)
    {
      hide Forgotten;
      ghost var w := Value();
      ForgottenNone(w);
      FirstNone(keys);
      for i := 0 to |keys|
        invariant Value() == Forgotten(w, FirstOf(keys, i), w.log.prunedBefore)
        invariant forall j :: i <= j < |keys| ==> keys[j] in tracked && tracked[keys[j]].identity == keys[j]
      {
        FirstOneMore(keys, i);
        ForgottenOneMore(w, FirstOf(keys, i), keys[i], w.log.prunedBefore);
        Forget(keys[i]);
      }
      assert keys[..|keys|] == keys;
    }

    method PruneTracked(cutoff: int)
      requires Keyed(Value())
      modifies this`tracked, this`currentUid, this`dropped, this`lostSources, this`prunedBefore
      ensures var w := old(Value());
              Value() == if Aged(w, cutoff) == {} then w else Forgotten(w, Aged(w, cutoff), cutoff)
    {
      var aged := Keys(set k | k in tracked && tracked[k].capturedAt < cutoff);
      ghost var w := Value();
      ghost var gone := set k | k in aged;
      assert gone == Aged(w, cutoff);
      assert aged == [] <==> gone == {} by {
        if aged != [] {
          assert aged[0] in gone;
        }
      }
      if aged != [] {
        assert forall i :: 0 <= i < |aged| ==> aged[i] in aged && aged[i] in Aged(w, cutoff);
        ForgetAll(aged);
        prunedBefore := cutoff;
      }
    }

    method TrimEntries(cutoff: int)
      modifies this`entries, this`dropped, this`prunedBefore
      ensures var w := old(Value());
              Value() == w.(log := Trimmed(w.log, cutoff))
    {
      var first := 0;
      while first < |entries| && entries[first].observedAt < cutoff
        invariant first <= OldPrefix(entries, cutoff)
      {
        first := first + 1;
      }
      assert first == OldPrefix(entries, cutoff);
      if first > 0 {
        dropped := dropped + first;
        prunedBefore := cutoff;
        entries := entries[first..];
      }
    }

    method Prune(at: nat)
      requires Keyed(Value())
      modifies this
      ensures Value() == Pruned(old(Value()), at)
    {
      var cutoff := at - RETENTION;
      PruneTracked(cutoff);
      events := events - (set k | k in events && events[k].capturedAt < cutoff);
      TrimEntries(cutoff);
    }

    /** One projected source of a refresh. */
    method SeeSource(s: Source, at: nat, seen: set<Identity>) returns (now: set<Identity>)
      modifies this
      ensures Scan(Value(), now) == SourceSeen(Scan(old(Value()), seen), s, at)
    {
      if !s.whole {
        Append(at, Gap(Some(s), None));
      }
      now := seen;
      if s.identity in seen {
        return;
      }
      now := seen + {s.identity};
      NoteReplacement(s, at);
      NoteSource(s, at);
    }

    method NoteReplacement(s: Source, at: nat)
      modifies this
      ensures Value() == WithReplacement(old(Value()), s, at)
    {
      var name := NameOf(s.identity);
      if name in currentUid && currentUid[name] != "" && currentUid[name] != s.identity.uid {
        Append(at, Replaced(s, currentUid[name]));
      }
      currentUid := currentUid[name := s.identity.uid];
    }

    method NoteSource(s: Source, at: nat)
      modifies this
      ensures Value() == WithSource(old(Value()), s, at)
    {
      if s.identity !in tracked {
        Append(at, FirstObserved(s));
      } else {
        var prior := tracked[s.identity];
        var changes, gone := DiffFacts(prior.facts, s.facts);
        DiffIsChanges(prior.facts, s.facts, gone, changes);
        if |changes| > 0 {
          assert changes[0] in multiset(changes);
          Append(at, Changed(s, prior.capturedAt, multiset(changes)));
        }
      }
      tracked := tracked[s.identity := s];
    }

    method SeeItem(item: Item, at: nat, seen: set<Identity>) returns (now: set<Identity>)
      modifies this
      ensures Scan(Value(), now) == ItemSeen(Scan(old(Value()), seen), item, at, inScope)
    {
      if !inScope(item.ref) {
        return seen;
      }
      if item.projection.None? || item.ref.uid == "" {
        Append(at, Gap(None, Some(Coverage(item.ref.gvr, item.ref.namespace, Unknown, false))));
        return seen + {IdentityOf(context, item.ref)};
      }
      var p := item.projection.value;
      now := SeeSource(Source(IdentityOf(context, item.ref), p.kind, at, p.facts, p.whole), at, seen);
    }

    method SeeItems(items: seq<Item>, at: nat) returns (seen: set<Identity>)
      modifies this
      ensures Scan(Value(), seen) == ItemsSeen(Scan(old(Value()), {}), items, at, inScope)
    {
      ghost var w := Value();
      seen := {};
      for i := 0 to |items|
        invariant Scan(Value(), seen) == ItemsSeen(Scan(w, {}), items[..i], at, inScope)
      {
        assert items[..i + 1][..i] == items[..i];
        seen := SeeItem(items[i], at, seen);
      }
      assert items[..|items|] == items;
    }

    method NoteCoverage(list: seq<Coverage>, failed: bool, at: nat) returns (m: map<(string, string), Coverage>)
      modifies this
      ensures Value() == CoverageNoted(old(Value()), list, failed, at) && m == CoverageMap(list, failed)
    {
      hide Noted;
      ghost var w := Value();
      m := map[];
      for i := 0 to |list|
        invariant m == CoverageMap(list[..i], failed)
        invariant Value() == CoverageNoted(w, list[..i], failed, at)
      {
        assert list[..i + 1][..i] == list[..i];
        var c := list[i];
        if QueryOf(c) in m {
          c := c.(state := Unknown);
        }
        if failed {
          c := c.(state := Canceled);
        }
        assert c == Judged(list[i], QueryOf(list[i]) in m, failed);
        m := m[QueryOf(list[i]) := c];
        if c.state != Complete || c.truncated {
          Append(at, Gap(None, Some(c)));
        }
      }
      assert list[..|list|] == list;
    }

    /** A tracked key that the refresh did not see. */
    method SweepOne(key: Identity, m: map<(string, string), Coverage>, failed: bool, at: nat)
      requires key in tracked
      modifies this
      ensures Value() == Swept1(old(Value()), key, m, failed, at)
    {
      var prior := tracked[key];
      var query := (prior.identity.gvr, prior.identity.namespace);
      var c := if query in m then m[query] else Coverage(prior.identity.gvr, prior.identity.namespace, Unknown, false);
      if c.state != Complete || c.truncated || failed {
        if query !in m {
          Append(at, Gap(Some(prior), Some(c)));
        }
        return;
      }
      Append(at, NotObserved(prior, prior.capturedAt, c));
      tracked := tracked - {key};
      var name := NameOf(prior.identity);
      if name in currentUid && currentUid[name] == prior.identity.uid {
        currentUid := currentUid - {name};
      }
    }

    method Sweep(order: seq<Identity>, m: map<(string, string), Coverage>, seen: set<Identity>, failed: bool, at: nat)
      modifies this
      ensures Value() == Swept(old(Value()), order, m, seen, failed, at)
    {
      ghost var w := Value();
      for i := 0 to |order|
        invariant Value() == Swept(w, order[..i], m, seen, failed, at)
      {
        assert order[..i + 1][..i] == order[..i];
        if order[i] !in seen && order[i] in tracked {
          SweepOne(order[i], m, failed, at);
        }
      }
      assert order[..|order|] == order;
    }

    method RecordCoverage(list: seq<Coverage>, seen: set<Identity>, failed: bool,
                          at: nat) returns (order: seq<Identity>)
      modifies this
      ensures Enumerates(order, old(tracked).Keys)
      ensures Value() == CoverageRecorded(Scan(old(Value()), seen), list, failed, order, at)
    {
      ghost var w := Value();
      var m := NoteCoverage(list, failed, at);
      CoverageNotedOnly(w, list, failed, at, Identity("", "", "", "", ""));
      order := Keys(tracked.Keys);
      Sweep(order, m, seen, failed, at);
      if |list| == 0 {
        Append(at, Gap(None, Some(Coverage("", "", Unknown, false))));
      }
    }

    method CapTracked(at: nat) returns (ghost evicted: set<Identity>)
      requires Keyed(Value())
      modifies this
      ensures |old(tracked)| > MAX_TRACKED ==> OldestSources(old(tracked), evicted)
      ensures Value() == Capped(old(Value()), evicted, at)
    {
      evicted := {};
      if |tracked| <= MAX_TRACKED {
        return;
      }
      var oldest := OldestTracked(tracked);
      evicted := set k | k in oldest;
      assert forall i :: 0 <= i < |oldest| ==> oldest[i] in oldest;
      ForgetAll(oldest);
      prunedBefore := at;
    }

    /** One refresh, explicit or failed; `None` is a refresh without a snapshot. */
    method Observe(snapshot: Option<Snapshot>, failed: bool)
      returns (ghost order: seq<Identity>, ghost evicted: set<Identity>)
      requires Keyed(Value())
      modifies this
      ensures snapshot.None? ==> Value() == old(Value())
      ensures snapshot.Some? ==>
                && RefreshChoices(old(Value()), snapshot.value, failed, order, evicted, inScope)
                && Value() == Observed(old(Value()), snapshot.value, failed, order, evicted, inScope)
    {
      order, evicted := [], {};
      if snapshot.None? {
        return;
      }
      var at := snapshot.value.observedAt;
      if at == 0 || at < startedAt || (lastRefreshAt != 0 && !(at > lastRefreshAt)) {
        Append(lastRefreshAt, Gap(None, Some(Coverage("", "", Stale, false))));
        return;
      }
      ghost var w := Value();
      Prune(at);
      PrunedKeyed(w, at);
      ItemsReflected(Value(), snapshot.value.items, at, inScope);
      var seen := SeeItems(snapshot.value.items, at);
      ghost var sc := Scan(Value(), seen);
      order := RecordCoverage(snapshot.value.coverage, seen, failed, at);
      RecordedEffect(sc, snapshot.value.coverage, failed, order, at, Identity("", "", "", "", ""));
      lastRefreshAt := at;
      assert Value() == BeforeCap(w, snapshot.value, failed, order, inScope);
      evicted := CapTracked(at);
    }

    method SeeEvent(e: Event, at: nat)
      modifies this
      ensures Value() == EventSeen(old(Value()), e, at, inScope, safe)
    {
      var ref := Ref(e.regarding.gvr, e.regarding.namespace, e.regarding.name, e.regarding.uid);
      var regarded := IdentityOf(context, ref);
      if e.identity.context != context || e.regarding.context != context || e.identity.uid == "" ||
         e.identity.gvr != EVENT_GVR || e.identity.namespace != ref.namespace || e.identity.name == "" ||
         !inScope(ref) || regarded !in tracked {
        return;
      }
      var key := EventKeyOf(e);
      if key in events && SameEvent(events[key], e) {
        return;
      }
      var c := e.content;
      var kept := e.(kind := tracked[regarded].kind,
                     content := c.(reason := safe(c.reason), message := safe(c.message), kind := safe(c.kind),
                                   controller := safe(c.controller)));
      events := events[key := kept];
      Append(at, Retained(kept));
    }

    method SeeEvents(list: seq<Event>, at: nat)
      modifies this
      ensures Value() == EventsSeen(old(Value()), list, at, inScope, safe)
    {
      ghost var w := Value();
      for i := 0 to |list|
        invariant Value() == EventsSeen(w, list[..i], at, inScope, safe)
      {
        assert list[..i + 1][..i] == list[..i];
        SeeEvent(list[i], at);
      }
      assert list[..|list|] == list;
    }

    method NoteEventCoverage(list: seq<Coverage>, at: nat)
      modifies this
      ensures Value() == EventCoverage(old(Value()), list, at)
    {
      ghost var w := Value();
      for i := 0 to |list|
        invariant Value() == EventCoverage(w, list[..i], at)
      {
        assert list[..i + 1][..i] == list[..i];
        if list[i].state != Complete || list[i].truncated {
          Append(at, Gap(None, Some(list[i])));
        }
      }
      assert list[..|list|] == list;
    }

    method ForgetEvent(key: EventKey)
      modifies this`events, this`dropped, this`lostEvents
      ensures events == old(events) - {key} && dropped == old(dropped) + 1
      ensures lostEvents == old(lostEvents) + multiset{key}
    {
      events := events - {key};
      dropped := dropped + 1;
      lostEvents := lostEvents + multiset{key};
    }

    method ForgetEvents(keys: seq<EventKey>)
      requires forall i, j :: 0 <= i < j < |keys| ==> keys[i] != keys[j]
      modifies this`events, this`dropped, this`lostEvents
      ensures Value() == EventsForgotten(old(Value()), set k | k in keys)
    {
      hide EventsForgotten;
      ghost var w := Value();
      ghost var gone: set<EventKey> := {};
      EventsForgottenNone(w);
      for i := 0 to |keys|
        invariant forall k :: k in gone ==> k in keys[..i]
        invariant forall j :: 0 <= j < i ==> keys[j] in gone
        invariant Value() == EventsForgotten(w, gone)
      {
        EventsForgottenOneMore(w, gone, keys[i]);
        ForgetEvent(keys[i]);
        gone := gone + {keys[i]};
      }
      assert gone == set k | k in keys;
    }

    method CapEvents(at: nat) returns (ghost evicted: set<EventKey>)
      modifies this
      ensures |old(events)| > MAX_EVENTS ==> OldestEvents(old(events), evicted)
      ensures Value() == EventsCapped(old(Value()), evicted, at)
    {
      evicted := {};
      if |events| <= MAX_EVENTS {
        return;
      }
      var oldest := OldestRetained(events);
      evicted := set k | k in oldest;
      assert forall i :: 0 <= i < |oldest| ==> oldest[i] in oldest;
      ForgetEvents(oldest);
      prunedBefore := at;
    }

    /** One collection of events; `None`, like one that was not requested, leaves a gap. */
    method ObserveEvents(collection: Option<Collection>) returns (ghost evicted: set<EventKey>)
      modifies this
      ensures collection.None? ==>
                Value() == Collected(old(Value()), Collection(false, 0, [], []), evicted, inScope, safe)
      ensures collection.Some? ==>
                && CollectChoices(old(Value()), collection.value, evicted, inScope, safe)
                && Value() == Collected(old(Value()), collection.value, evicted, inScope, safe)
    {
      evicted := {};
      if collection.None? || !collection.value.requested {
        Append(lastRefreshAt, Gap(None, Some(Coverage(EVENT_GVR, "", Unknown, false))));
        return;
      }
      var c := collection.value;
      if c.capturedAt < startedAt || c.capturedAt < lastRefreshAt {
        return;
      }
      SeeEvents(c.events, c.capturedAt);
      NoteEventCoverage(c.coverage, c.capturedAt);
      evicted := CapEvents(c.capturedAt);
    }
  }

  lemma {:induction false} SameSize<K, V, U>(a: map<K, V>, b: map<K, U>)
    requires a.Keys == b.Keys
    ensures |a| == |b|
  {
    assert |a| == |a.Keys| && |b| == |b.Keys|;
  }
}
