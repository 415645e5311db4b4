/** The tracked identities of an activity window: how they enter, and the only ways in which they leave. */
module ActivityIdentities {
  import opened Wrappers
  import opened ActivityFacts
  import opened ActivityLog
  import opened ActivitySteps

  /** The tracked source that a current UID stands for. */
  function Holder(n: NameKey, uid: string): Identity { Identity(n.context, n.gvr, n.namespace, n.name, uid) }

  /** Map keys match their sources, and every current UID names a tracked source. */
  ghost predicate Keyed(w: State) {
    && (forall k :: k in w.tracked ==> w.tracked[k].identity == k && k.context == w.context && k.uid != "")
    && (forall n :: n in w.current ==> Holder(n, w.current[n]) in w.tracked)
  }

  lemma {:induction false} ForgottenKeyed(w: State, keys: set<Identity>, before: int)
    requires Keyed(w)
    ensures Keyed(Forgotten(w, keys, before))
  {
    var v := Forgotten(w, keys, before);
    forall n | n in v.current ensures Holder(n, v.current[n]) in v.tracked {
      assert NameOf(Holder(n, w.current[n])) == n;
      assert Holder(n, w.current[n]) !in keys;
    }
  }

  lemma {:induction false} PrunedKeyed(w: State, at: nat)
    requires Keyed(w)
    ensures Keyed(Pruned(w, at)) && Pruned(w, at).context == w.context
  {
    ForgottenKeyed(w, Aged(w, at - RETENTION), at - RETENTION);
  }

  lemma {:induction false} SourceFields(w: State, s: Source, at: nat)
    ensures var v := WithSource(WithReplacement(w, s, at), s, at);
            v == w.(log := v.log, tracked := w.tracked[s.identity := s],
                    current := w.current[NameOf(s.identity) := s.identity.uid])
  {
    var v := WithReplacement(w, s, at);
    assert v == w.(log := v.log, current := w.current[NameOf(s.identity) := s.identity.uid]);
  }

  lemma {:induction false} HolderKeyed(w: State, v: State, s: Source)
    requires Keyed(w) && s.identity.context == w.context && s.identity.uid != ""
    requires v.context == w.context && v.tracked == w.tracked[s.identity := s]
    requires v.current == w.current[NameOf(s.identity) := s.identity.uid]
    ensures Keyed(v)
  {
    assert Holder(NameOf(s.identity), s.identity.uid) == s.identity;
  }

  // ---- What a refresh sees ----

  predicate Mentions(context: string, item: Item, k: Identity, inScope: Ref -> bool) {
    inScope(item.ref) && IdentityOf(context, item.ref) == k
  }

  /** The first item in scope with a given identity: the only one that counts. */
  function FirstItem(context: string, items: seq<Item>, k: Identity, inScope: Ref -> bool): Option<Item> {
    if items == [] then None
    else
      var n := |items| - 1;
      var earlier := FirstItem(context, items[..n], k, inScope);
      if earlier.Some? then earlier
      else if Mentions(context, items[n], k, inScope) then Some(items[n]) else None
  }

  /** What the first such item projects to. */
  function Seen(w: State, items: seq<Item>, k: Identity, at: nat, inScope: Ref -> bool): Option<Source> {
    var first := FirstItem(w.context, items, k, inScope);
    if first.None? then None else Project(w, first.value, at)
  }

  /** A scan that reflects some items: what it has seen, and what it tracks in place of `w`'s sources. */
  ghost predicate Reflects(w: State, items: seq<Item>, at: nat, inScope: Ref -> bool, sc: Scan) {
    && Keyed(sc.w) && Untouched(w, sc.w)
    && forall k :: ReflectsAt(w, items, k, at, inScope, sc)
  }

  ghost predicate ReflectsAt(w: State, items: seq<Item>, k: Identity, at: nat, inScope: Ref -> bool, sc: Scan) {
    && (k in sc.seen <==> FirstItem(w.context, items, k, inScope).Some?)
    && (k in sc.w.tracked <==> k in w.tracked || Seen(w, items, k, at, inScope).Some?)
    && (k in sc.w.tracked ==>
          sc.w.tracked[k] == var seen := Seen(w, items, k, at, inScope);
                             if seen.Some? then seen.value else w.tracked[k])
    && Absences(sc.w.log, k) == Absences(w.log, k)
  }

  /** What a scan leaves alone. */
  ghost predicate Untouched(w: State, v: State) {
    && v.context == w.context && v.log.lostSources == w.log.lostSources
    && v.lastRefreshAt == w.lastRefreshAt && v.events == w.events
  }

  function AbsencesIn(journal: seq<Entry>, k: Identity): nat {
    if journal == [] then 0
    else
      var last := journal[|journal| - 1].record;
      AbsencesIn(journal[..|journal| - 1], k) + (if last.NotObserved? && last.source.identity == k then 1 else 0)
  }

  /** How often a key has been reported as not observed. */
  function Absences(l: Log, k: Identity): nat { AbsencesIn(l.journal, k) }

  lemma {:induction false} AppendedAbsences(l: Log, at: int, record: Record, k: Identity)
    ensures Absences(Appended(l, at, record), k)
         == Absences(l, k) + (if record.NotObserved? && record.source.identity == k then 1 else 0)
    ensures Appended(l, at, record).lostSources == l.lostSources
  {
    assert Appended(l, at, record).journal[..|l.journal|] == l.journal;
  }

  lemma {:induction false} SourceAbsences(w: State, s: Source, at: nat, k: Identity)
    ensures var v := WithSource(WithReplacement(w, s, at), s, at);
            Absences(v.log, k) == Absences(w.log, k) && v.log.lostSources == w.log.lostSources
  {
    hide Absences, Appended, Changes;
    var name := NameOf(s.identity);
    if name in w.current {
      AppendedAbsences(w.log, at, Replaced(s, w.current[name]), k);
    }
    var v := WithReplacement(w, s, at);
    AppendedAbsences(v.log, at, FirstObserved(s), k);
    if s.identity in v.tracked {
      var p := v.tracked[s.identity];
      AppendedAbsences(v.log, at, Changed(s, p.capturedAt, Changes(p.facts, s.facts)), k);
    }
  }

  lemma {:induction false} SeenFields(sc: Scan, s: Source, at: nat)
    ensures SourceSeen(sc, s, at)
         == Scan(sc.w.(log := SourceSeen(sc, s, at).w.log,
                       tracked := if s.identity in sc.seen then sc.w.tracked else sc.w.tracked[s.identity := s],
                       current := if s.identity in sc.seen then sc.w.current
                                  else sc.w.current[NameOf(s.identity) := s.identity.uid]),
                 sc.seen + {s.identity})
  {
    var w := if s.whole then sc.w else Noted(sc.w, at, Gap(Some(s), None));
    assert w == sc.w.(log := w.log);
    if s.identity in sc.seen {
      assert sc.seen + {s.identity} == sc.seen;
    } else {
      SourceFields(w, s, at);
    }
  }

  lemma {:induction false} SeenAbsences(sc: Scan, s: Source, at: nat, k: Identity)
    ensures var l := SourceSeen(sc, s, at).w.log;
            Absences(l, k) == Absences(sc.w.log, k) && l.lostSources == sc.w.log.lostSources
  {
    AppendedAbsences(sc.w.log, at, Gap(Some(s), None), k);
    SourceAbsences(if s.whole then sc.w else Noted(sc.w, at, Gap(Some(s), None)), s, at, k);
  }

  /** What one projected source does to a scan. */
  lemma {:induction false} SourceSeenEffect(sc: Scan, s: Source, at: nat, k: Identity)
    requires Keyed(sc.w) && s.identity.context == sc.w.context && s.identity.uid != ""
    ensures var next := SourceSeen(sc, s, at);
            && Keyed(next.w) && Untouched(sc.w, next.w) && next.seen == sc.seen + {s.identity}
            && next.w.tracked == (if s.identity in sc.seen then sc.w.tracked else sc.w.tracked[s.identity := s])
            && Absences(next.w.log, k) == Absences(sc.w.log, k)
  {
    var next := SourceSeen(sc, s, at);
    SeenFields(sc, s, at);
    SeenAbsences(sc, s, at, k);
    if s.identity !in sc.seen {
      HolderKeyed(sc.w, next.w, s);
    }
  }

  lemma {:induction false} FirstItemNext(context: string, items: seq<Item>, item: Item, k: Identity,
                                         inScope: Ref -> bool)
    ensures FirstItem(context, items + [item], k, inScope)
         == var earlier := FirstItem(context, items, k, inScope);
            if earlier.Some? then earlier else if Mentions(context, item, k, inScope) then Some(item) else None
  {
    assert (items + [item])[..|items|] == items;
  }

  lemma {:induction false} ItemReflected(w: State, items: seq<Item>, item: Item, at: nat, inScope: Ref -> bool,
                                         sc: Scan)
    requires Reflects(w, items, at, inScope, sc)
    ensures Reflects(w, items + [item], at, inScope, ItemSeen(sc, item, at, inScope))
  {
    var next := ItemSeen(sc, item, at, inScope);
    forall k ensures ReflectsAt(w, items + [item], k, at, inScope, next) {
      ItemReflectedAt(w, items, item, k, at, inScope, sc);
    }
    ItemReflectedAt(w, items, item, IdentityOf(w.context, item.ref), at, inScope, sc);
  }

  lemma {:induction false} ItemReflectedAt(w: State, items: seq<Item>, item: Item, k: Identity, at: nat,
                                           inScope: Ref -> bool, sc: Scan)
    requires Reflects(w, items, at, inScope, sc)
    ensures var next := ItemSeen(sc, item, at, inScope);
            && ReflectsAt(w, items + [item], k, at, inScope, next)
            && Keyed(next.w) && Untouched(w, next.w)
  {
    FirstItemNext(w.context, items, item, k, inScope);
    assert ReflectsAt(w, items, k, at, inScope, sc);
    if inScope(item.ref) {
      match Project(sc.w, item, at)
      case None =>
        AppendedAbsences(sc.w.log, at, Gap(None, Some(Coverage(item.ref.gvr, item.ref.namespace, Unknown, false))), k);
      case Some(s) =>
        SourceSeenEffect(sc, s, at, k);
    }
  }

  lemma {:induction false} ItemsReflected(w: State, items: seq<Item>, at: nat, inScope: Ref -> bool)
    requires Keyed(w)
    ensures Reflects(w, items, at, inScope, ItemsSeen(Scan(w, {}), items, at, inScope))
  {
    if items == [] {
      assert forall k :: ReflectsAt(w, items, k, at, inScope, Scan(w, {}));
    } else {
      var n := |items| - 1;
      ItemsReflected(w, items[..n], at, inScope);
      ItemReflected(w, items[..n], items[n], at, inScope, ItemsSeen(Scan(w, {}), items[..n], at, inScope));
      assert items[..n] + [items[n]] == items;
    }
  }

  // ---- When an absence is established ----

  /** Exactly one report for the query of a key, and that one complete, from a refresh that did not fail. */
  ghost predicate ConfirmsAbsence(coverage: seq<Coverage>, failed: bool, k: Identity) {
    !failed && exists i :: 0 <= i < |coverage| && QueryOf(coverage[i]) == (k.gvr, k.namespace) && Trusted(coverage[i])
                           && forall j :: 0 <= j < |coverage| && j != i ==> QueryOf(coverage[j]) != (k.gvr, k.namespace)
  }

  predicate Establishes(m: map<(string, string), Coverage>, failed: bool, k: Identity) {
    (k.gvr, k.namespace) in m && Trusted(m[(k.gvr, k.namespace)]) && !failed
  }

  lemma {:induction false} CoverageMapKeys(coverage: seq<Coverage>, failed: bool, q: (string, string))
    ensures q in CoverageMap(coverage, failed) <==> exists i :: 0 <= i < |coverage| && QueryOf(coverage[i]) == q
  {
    if coverage != [] {
      var n := |coverage| - 1;
      CoverageMapKeys(coverage[..n], failed, q);
      if i :| 0 <= i < n && QueryOf(coverage[i]) == q {
        assert QueryOf(coverage[..n][i]) == q;
      }
    }
  }

  lemma {:induction false} EstablishesIff(coverage: seq<Coverage>, failed: bool, k: Identity)
    ensures Establishes(CoverageMap(coverage, failed), failed, k) <==> ConfirmsAbsence(coverage, failed, k)
  {
    if coverage != [] && !failed {
      var n := |coverage| - 1;
      var q, front := (k.gvr, k.namespace), coverage[..n];
      EstablishesIff(front, failed, k);
      CoverageMapKeys(front, failed, q);
      if QueryOf(coverage[n]) == q {
        if Establishes(CoverageMap(coverage, failed), failed, k) {
          forall j | 0 <= j < n ensures QueryOf(coverage[j]) != q {
            assert QueryOf(front[j]) != q;
          }
        }
        if ConfirmsAbsence(coverage, failed, k) {
          var i :| 0 <= i < |coverage| && QueryOf(coverage[i]) == q && Trusted(coverage[i])
                   && forall j :: 0 <= j < |coverage| && j != i ==> QueryOf(coverage[j]) != q;
          assert i == n;
          assert forall j :: 0 <= j < n ==> QueryOf(front[j]) != q;
        }
      }
    }
  }

  // ---- What becomes of the keys that a refresh does not see ----

  lemma {:induction false} CoverageNotedOnly(w: State, coverage: seq<Coverage>, failed: bool, at: nat, k: Identity)
    ensures var v := CoverageNoted(w, coverage, failed, at);
            && v == w.(log := v.log) && Absences(v.log, k) == Absences(w.log, k)
            && v.log.lostSources == w.log.lostSources
  {
    if coverage != [] {
      var n := |coverage| - 1;
      CoverageNotedOnly(w, coverage[..n], failed, at, k);
      var c := Judged(coverage[n], QueryOf(coverage[n]) in CoverageMap(coverage[..n], failed), failed);
      AppendedAbsences(CoverageNoted(w, coverage[..n], failed, at).log, at, Gap(None, Some(c)), k);
    }
  }

  lemma {:induction false} MissingKeyed(w: State, key: Identity, c: Coverage, at: nat)
    requires Keyed(w) && key in w.tracked
    ensures Keyed(Missing(w, key, c, at))
  {
    var v := Missing(w, key, c, at);
    forall n | n in v.current ensures Holder(n, v.current[n]) in v.tracked {
      assert NameOf(Holder(n, w.current[n])) == n;
    }
  }

  lemma {:induction false} Swept1Effect(w: State, key: Identity, m: map<(string, string), Coverage>, failed: bool,
                                        at: nat, k: Identity)
    requires Keyed(w) && key in w.tracked
    ensures var v := Swept1(w, key, m, failed, at);
            && Keyed(v) && Untouched(w, v)
            && v.tracked == (if Establishes(m, failed, key) then w.tracked - {key} else w.tracked)
            && Absences(v.log, k) == Absences(w.log, k) + (if k == key && Establishes(m, failed, key) then 1 else 0)
  {
    var s := w.tracked[key];
    var query := (key.gvr, key.namespace);
    if query !in m {
      AppendedAbsences(w.log, at, Gap(Some(s), Some(Coverage(key.gvr, key.namespace, Unknown, false))), k);
    } else if Establishes(m, failed, key) {
      AppendedAbsences(w.log, at, NotObserved(s, s.capturedAt, m[query]), k);
      MissingKeyed(w, key, m[query], at);
    }
  }

  /** A tracked key leaves in a sweep when it is due. */
  predicate Due(w: State, m: map<(string, string), Coverage>, seen: set<Identity>, failed: bool, k: Identity) {
    k in w.tracked && k !in seen && Establishes(m, failed, k)
  }

  ghost predicate SweptThrough(w: State, order: seq<Identity>, m: map<(string, string), Coverage>, seen: set<Identity>,
                               failed: bool, k: Identity, v: State) {
    && (k in v.tracked <==> k in w.tracked && !(k in order && Due(w, m, seen, failed, k)))
    && (k in v.tracked ==> v.tracked[k] == w.tracked[k])
    && Absences(v.log, k) == Absences(w.log, k) + (if k in order && Due(w, m, seen, failed, k) then 1 else 0)
  }

  lemma {:induction false} SweptEffect(w: State, order: seq<Identity>, m: map<(string, string), Coverage>,
                                       seen: set<Identity>, failed: bool, at: nat, k: Identity)
    requires Keyed(w) && forall i, j :: 0 <= i < j < |order| ==> order[i] != order[j]
    ensures var v := Swept(w, order, m, seen, failed, at);
            && Keyed(v) && Untouched(w, v) && SweptThrough(w, order, m, seen, failed, k, v)
    decreases |order|
  {
    if order != [] {
      var n := |order| - 1;
      hide SweptThrough, Swept1, Keyed, Untouched;
      var key, v := order[n], Swept(w, order[..n], m, seen, failed, at);
      SweptEffect(w, order[..n], m, seen, failed, at, k);
      SweptEffect(w, order[..n], m, seen, failed, at, key);
      assert order == order[..n] + [key] && key !in order[..n];
      SweptNext(w, order[..n], key, m, seen, failed, at, k, v);
    }
  }

  lemma {:induction false} SweptNext(w: State, order: seq<Identity>, key: Identity, m: map<(string, string), Coverage>,
                                     seen: set<Identity>, failed: bool, at: nat, k: Identity, v: State)
    requires Keyed(v) && Untouched(w, v) && key !in order
    requires SweptThrough(w, order, m, seen, failed, k, v) && SweptThrough(w, order, m, seen, failed, key, v)
    ensures var u := if key in seen || key !in v.tracked then v else Swept1(v, key, m, failed, at);
            Keyed(u) && Untouched(w, u) && SweptThrough(w, order + [key], m, seen, failed, k, u)
  {
    hide Swept1, Keyed, Establishes, Absences;
    assert k in order + [key] <==> k in order || k == key;
    if key !in seen && key in v.tracked {
      Swept1Effect(v, key, m, failed, at, k);
    }
  }

  // ---- A whole refresh ----

  ghost predicate Old(w: State, k: Identity, at: nat) { k in w.tracked && w.tracked[k].capturedAt < at - RETENTION }

  /** Pruned by age, and not observed again. */
  ghost predicate AgedOut(w: State, snapshot: Snapshot, k: Identity, inScope: Ref -> bool) {
    Old(w, k, snapshot.observedAt) && Seen(w, snapshot.items, k, snapshot.observedAt, inScope).None?
  }

  /** Not mentioned, with its absence established. */
  ghost predicate FoundAbsent(w: State, snapshot: Snapshot, failed: bool, k: Identity, inScope: Ref -> bool) {
    && k in w.tracked && !Old(w, k, snapshot.observedAt)
    && FirstItem(w.context, snapshot.items, k, inScope).None? && ConfirmsAbsence(snapshot.coverage, failed, k)
  }

  lemma {:induction false} PrunedEffect(w: State, at: nat, k: Identity)
    requires Keyed(w)
    ensures var v := Pruned(w, at);
            && Keyed(v) && v.context == w.context
            && (k in v.tracked <==> k in w.tracked && !Old(w, k, at))
            && (k in v.tracked ==> v.tracked[k] == w.tracked[k])
            && Absences(v.log, k) == Absences(w.log, k)
            && v.log.lostSources[k] == w.log.lostSources[k] + (if Old(w, k, at) then 1 else 0)
  {
    PrunedKeyed(w, at);
    assert k in Aged(w, at - RETENTION) <==> Old(w, k, at);
  }

  /** The tracked keys and the reports of absence just before the cap is applied. */
  lemma {:induction false} BeforeCapEffect(w: State, snapshot: Snapshot, failed: bool, order: seq<Identity>,
                                           inScope: Ref -> bool, k: Identity)
    requires Keyed(w)
    requires Enumerates(order, Scanned(w, snapshot, inScope).w.tracked.Keys)
    ensures var at, b := snapshot.observedAt, BeforeCap(w, snapshot, failed, order, inScope);
            && Keyed(b) && b.context == w.context
            && (k in b.tracked <==>
                  Seen(w, snapshot.items, k, at, inScope).Some?
                  || (k in w.tracked && !Old(w, k, at) && !FoundAbsent(w, snapshot, failed, k, inScope)))
            && (k in b.tracked ==>
                  b.tracked[k] == var seen := Seen(w, snapshot.items, k, at, inScope);
                                  if seen.Some? then seen.value else w.tracked[k])
            && Absences(b.log, k)
               == Absences(w.log, k) + (if FoundAbsent(w, snapshot, failed, k, inScope) then 1 else 0)
            && b.log.lostSources[k] == w.log.lostSources[k] + (if Old(w, k, at) then 1 else 0)
  {
    var at, coverage := snapshot.observedAt, snapshot.coverage;
    var p := Pruned(w, at);
    var sc := ItemsSeen(Scan(p, {}), snapshot.items, at, inScope);
    PrunedEffect(w, at, k);
    ItemsReflected(p, snapshot.items, at, inScope);
    assert ReflectsAt(p, snapshot.items, k, at, inScope, sc);
    assert Seen(p, snapshot.items, k, at, inScope) == Seen(w, snapshot.items, k, at, inScope);
    RecordedEffect(sc, coverage, failed, order, at, k);
  }

  lemma {:induction false} RecordedEffect(sc: Scan, coverage: seq<Coverage>, failed: bool, order: seq<Identity>,
                                          at: nat, k: Identity)
    requires Keyed(sc.w) && Enumerates(order, sc.w.tracked.Keys)
    ensures var v := CoverageRecorded(sc, coverage, failed, order, at);
            var leaves := k in sc.w.tracked && k !in sc.seen && ConfirmsAbsence(coverage, failed, k);
            && Keyed(v) && Untouched(sc.w, v)
            && (k in v.tracked <==> k in sc.w.tracked && !leaves)
            && (k in v.tracked ==> v.tracked[k] == sc.w.tracked[k])
            && Absences(v.log, k) == Absences(sc.w.log, k) + (if leaves then 1 else 0)
  {
    var m, u := CoverageMap(coverage, failed), CoverageNoted(sc.w, coverage, failed, at);
    CoverageNotedOnly(sc.w, coverage, failed, at, k);
    assert Keyed(u);
    SweptEffect(u, order, m, sc.seen, failed, at, k);
    EstablishesIff(coverage, failed, k);
    AppendedAbsences(Swept(u, order, m, sc.seen, failed, at).log, at,
                     Gap(None, Some(Coverage("", "", Unknown, false))), k);
  }

  /** Evicted by the cap. */
  ghost predicate CapEvicts(b: State, evicted: set<Identity>, k: Identity) { |b.tracked| > MAX_TRACKED && k in evicted }

  /** An accepted refresh keeps a tracked source, or takes it out for exactly one reason: its age, an established
      absence, or the cap. Age and cap are counted as lost; an absence is reported by exactly one entry. */
  lemma {:induction false} TrackedLeaveSoundly(w: State, snapshot: Snapshot, failed: bool, order: seq<Identity>,
                                               evicted: set<Identity>, inScope: Ref -> bool, k: Identity)
    requires Keyed(w) && Accepts(w, snapshot.observedAt) && k in w.tracked
    requires RefreshChoices(w, snapshot, failed, order, evicted, inScope)
    ensures var at, b := snapshot.observedAt, BeforeCap(w, snapshot, failed, order, inScope);
            var v := Observed(w, snapshot, failed, order, evicted, inScope);
            && (k !in v.tracked <==>
                  || AgedOut(w, snapshot, k, inScope)
                  || FoundAbsent(w, snapshot, failed, k, inScope)
                  || CapEvicts(b, evicted, k))
            && !(AgedOut(w, snapshot, k, inScope) && FoundAbsent(w, snapshot, failed, k, inScope))
            && (CapEvicts(b, evicted, k) ==>
                  !AgedOut(w, snapshot, k, inScope) && !FoundAbsent(w, snapshot, failed, k, inScope))
            && Absences(v.log, k)
               == Absences(w.log, k) + (if FoundAbsent(w, snapshot, failed, k, inScope) then 1 else 0)
            && v.log.lostSources[k] == w.log.lostSources[k] + (if Old(w, k, at) then 1 else 0)
                                                            + (if CapEvicts(b, evicted, k) then 1 else 0)
  {
    BeforeCapEffect(w, snapshot, failed, order, inScope, k);
  }

  /** What is tracked after an accepted refresh: what it observed, and what it neither outlived nor refuted, up to
      the cap; and the cap takes the oldest. */
  lemma {:induction false} TrackedExactly(w: State, snapshot: Snapshot, failed: bool, order: seq<Identity>,
                                          evicted: set<Identity>, inScope: Ref -> bool, k: Identity)
    requires Keyed(w) && Accepts(w, snapshot.observedAt)
    requires RefreshChoices(w, snapshot, failed, order, evicted, inScope)
    ensures var at, b := snapshot.observedAt, BeforeCap(w, snapshot, failed, order, inScope);
            var v := Observed(w, snapshot, failed, order, evicted, inScope);
            var seen := Seen(w, snapshot.items, k, at, inScope);
            && Keyed(v) && |v.tracked| <= MAX_TRACKED
            && (k in v.tracked <==>
                  && !CapEvicts(b, evicted, k)
                  && (seen.Some?
                      || (k in w.tracked && !Old(w, k, at) && !FoundAbsent(w, snapshot, failed, k, inScope))))
            && (k in v.tracked ==> v.tracked[k] == if seen.Some? then seen.value else w.tracked[k])
            && (CapEvicts(b, evicted, k) ==>
                  k in b.tracked && forall s :: s in v.tracked ==> b.tracked[k].capturedAt <= v.tracked[s].capturedAt)
  {
    var b := BeforeCap(w, snapshot, failed, order, inScope);
    BeforeCapEffect(w, snapshot, failed, order, inScope, k);
    if |b.tracked| > MAX_TRACKED {
      ForgottenKeyed(b, evicted, snapshot.observedAt);
      RemovedSize(b.tracked, evicted);
    }
  }

  lemma {:induction false} RemovedSize<K, V>(m: map<K, V>, keys: set<K>)
    requires keys <= m.Keys
    ensures |m - keys| + |keys| == |m|
  {
    assert (m - keys).Keys + keys == m.Keys;
    assert |(m - keys).Keys| == |m - keys|;
  }
}
