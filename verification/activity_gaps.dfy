/** The gaps a refresh records, in their order, and the UIDs it leaves current. */
module ActivityGaps {
  import opened Wrappers
  import opened ActivityFacts
  import opened ActivityLog
  import opened ActivitySteps
  import opened ActivityIdentities
  import opened ActivityTold

  function IsGap(): Record -> bool { (r: Record) => r.Gap? }

  // ---- The gaps, told by the snapshot ----

  /** An item in scope without a usable projection, or one whose projection was cut short. */
  function ItemGap(context: string, item: Item, at: int, inScope: Ref -> bool): seq<Record> {
    if !inScope(item.ref) then []
    else if item.projection.None? || item.ref.uid == "" then
      [Gap(None, Some(Coverage(item.ref.gvr, item.ref.namespace, Unknown, false)))]
    else
      var (r, p) := (item.ref, item.projection.value);
      if p.whole then []
      else [Gap(Some(Source(Identity(context, r.gvr, r.namespace, r.name, r.uid), p.kind, at, p.facts, false)), None)]
  }

  function ItemGaps(context: string, items: seq<Item>, at: int, inScope: Ref -> bool): seq<Record> {
    if items == [] then []
    else
      ItemGaps(context, items[..|items| - 1], at, inScope) + ItemGap(context, items[|items| - 1], at, inScope)
  }

  /** A report that is not complete and whole, after a failed refresh every report, and a second report for a
      query as one of unknown state. */
  function ReportGap(earlier: seq<Coverage>, c: Coverage, failed: bool): seq<Record> {
    var again := exists i :: 0 <= i < |earlier| && earlier[i].gvr == c.gvr && earlier[i].namespace == c.namespace;
    var state := if failed then Canceled else if again then Unknown else c.state;
    if state == Complete && !c.truncated then []
    else [Gap(None, Some(Coverage(c.gvr, c.namespace, state, c.truncated)))]
  }

  function ReportGaps(coverage: seq<Coverage>, failed: bool): seq<Record> {
    if coverage == [] then []
    else
      var n := |coverage| - 1;
      ReportGaps(coverage[..n], failed) + ReportGap(coverage[..n], coverage[n], failed)
  }

  predicate Unreported(coverage: seq<Coverage>, k: Identity) {
    forall i :: 0 <= i < |coverage| ==> coverage[i].gvr != k.gvr || coverage[i].namespace != k.namespace
  }

  /** A tracked source that was not mentioned and whose query was not reported at all. */
  function SweepGaps(tracked: map<Identity, Source>, order: seq<Identity>, coverage: seq<Coverage>, seen: set<Identity>)
    : seq<Record>
  {
    if order == [] then []
    else
      var k := order[|order| - 1];
      SweepGaps(tracked, order[..|order| - 1], coverage, seen)
      + (if k in tracked && k !in seen && Unreported(coverage, k)
         then [Gap(Some(tracked[k]), Some(Coverage(k.gvr, k.namespace, Unknown, false)))] else [])
  }

  function RefreshGaps(context: string, tracked: map<Identity, Source>, snapshot: Snapshot, failed: bool,
                       order: seq<Identity>, seen: set<Identity>, inScope: Ref -> bool): seq<Record> {
    ItemGaps(context, snapshot.items, snapshot.observedAt, inScope)
    + ReportGaps(snapshot.coverage, failed)
    + SweepGaps(tracked, order, snapshot.coverage, seen)
    + (if snapshot.coverage == [] then [Gap(None, Some(Coverage("", "", Unknown, false)))] else [])
  }

  // ---- Each part ----

  lemma {:induction false} SourceGap(sc: Scan, s: Source, at: int)
    ensures Adds(sc.w.log, SourceSeen(sc, s, at).w.log, IsGap(), if s.whole then [] else [Gap(Some(s), None)])
  {
    hide Adds, Changes;
    var w, first := if s.whole then sc.w else Noted(sc.w, at, Gap(Some(s), None)),
                    if s.whole then [] else [Gap(Some(s), None)];
    AddsNothing(sc.w.log, IsGap());
    NotedAdds(sc.w, at, Gap(Some(s), None), IsGap());
    if s.identity !in sc.seen {
      var v := WithReplacement(w, s, at);
      var u := WithSource(v, s, at);
      AddsNothing(w.log, IsGap());
      AddsNothing(v.log, IsGap());
      NotedAdds(w, at, Replaced(s, CurrentUid(w, NameOf(s.identity))), IsGap());
      NotedAdds(v, at, FirstObserved(s), IsGap());
      if s.identity in v.tracked {
        var p := v.tracked[s.identity];
        NotedAdds(v, at, Changed(s, p.capturedAt, Changes(p.facts, s.facts)), IsGap());
      }
      AddsMore(sc.w.log, w.log, v.log, IsGap(), first, []);
      assert first + [] == first;
      AddsMore(sc.w.log, v.log, u.log, IsGap(), first, []);
    }
  }

  lemma {:induction false} ItemTellsGap(sc: Scan, item: Item, at: int, inScope: Ref -> bool)
    ensures Adds(sc.w.log, ItemSeen(sc, item, at, inScope).w.log, IsGap(), ItemGap(sc.w.context, item, at, inScope))
  {
    hide Adds, SourceSeen;
    AddsNothing(sc.w.log, IsGap());
    if inScope(item.ref) {
      match Project(sc.w, item, at)
      case None =>
        NotedAdds(sc.w, at, Gap(None, Some(Coverage(item.ref.gvr, item.ref.namespace, Unknown, false))), IsGap());
      case Some(s) => SourceGap(sc, s, at);
    }
  }

  lemma {:induction false} ItemsTellGaps(w: State, items: seq<Item>, at: nat, inScope: Ref -> bool)
    requires Keyed(w)
    ensures Adds(w.log, ItemsSeen(Scan(w, {}), items, at, inScope).w.log, IsGap(),
                 ItemGaps(w.context, items, at, inScope))
  {
    AddsNothing(w.log, IsGap());
    if items != [] {
      hide Adds, ItemSeen, ItemGap, Keyed;
      var n := |items| - 1;
      var sc := ItemsSeen(Scan(w, {}), items[..n], at, inScope);
      ItemsTellGaps(w, items[..n], at, inScope);
      ScanIs(w, items[..n], at, inScope, Identity("", "", "", "", ""));
      ItemTellsGap(sc, items[n], at, inScope);
      AddsMore(w.log, sc.w.log, ItemSeen(sc, items[n], at, inScope).w.log, IsGap(),
               ItemGaps(w.context, items[..n], at, inScope), ItemGap(w.context, items[n], at, inScope));
    }
  }

  lemma {:induction false} ReportTellsGap(w: State, earlier: seq<Coverage>, c: Coverage, failed: bool, at: int)
    ensures var judged := Judged(c, QueryOf(c) in CoverageMap(earlier, failed), failed);
            Adds(w.log, (if Trusted(judged) then w else Noted(w, at, Gap(None, Some(judged)))).log, IsGap(),
                 ReportGap(earlier, c, failed))
  {
    hide Adds;
    var judged := Judged(c, QueryOf(c) in CoverageMap(earlier, failed), failed);
    CoverageMapKeys(earlier, failed, QueryOf(c));
    AddsNothing(w.log, IsGap());
    NotedAdds(w, at, Gap(None, Some(judged)), IsGap());
    assert judged == Coverage(c.gvr, c.namespace, judged.state, c.truncated);
  }

  lemma {:induction false} ReportsTellGaps(w: State, coverage: seq<Coverage>, failed: bool, at: int)
    ensures Adds(w.log, CoverageNoted(w, coverage, failed, at).log, IsGap(), ReportGaps(coverage, failed))
  {
    AddsNothing(w.log, IsGap());
    if coverage != [] {
      hide Adds, ReportGap, Judged, CoverageMap;
      var n := |coverage| - 1;
      var v := CoverageNoted(w, coverage[..n], failed, at);
      ReportsTellGaps(w, coverage[..n], failed, at);
      ReportTellsGap(v, coverage[..n], coverage[n], failed, at);
      AddsMore(w.log, v.log, CoverageNoted(w, coverage, failed, at).log, IsGap(), ReportGaps(coverage[..n], failed),
               ReportGap(coverage[..n], coverage[n], failed));
    }
  }

  lemma {:induction false} UnreportedIff(coverage: seq<Coverage>, failed: bool, k: Identity)
    ensures (k.gvr, k.namespace) !in CoverageMap(coverage, failed) <==> Unreported(coverage, k)
  {
    CoverageMapKeys(coverage, failed, (k.gvr, k.namespace));
  }

  lemma {:induction false} Swept1Gap(w: State, key: Identity, coverage: seq<Coverage>, failed: bool, at: int)
    requires Keyed(w) && key in w.tracked
    ensures Adds(w.log, Swept1(w, key, CoverageMap(coverage, failed), failed, at).log, IsGap(),
                 if Unreported(coverage, key)
                 then [Gap(Some(w.tracked[key]), Some(Coverage(key.gvr, key.namespace, Unknown, false)))] else [])
  {
    hide Adds, CoverageMap, Unreported;
    var m, s, query := CoverageMap(coverage, failed), w.tracked[key], (key.gvr, key.namespace);
    UnreportedIff(coverage, failed, key);
    AddsNothing(w.log, IsGap());
    NotedAdds(w, at, Gap(Some(s), Some(Coverage(key.gvr, key.namespace, Unknown, false))), IsGap());
    if query in m { NotedAdds(w, at, NotObserved(s, s.capturedAt, m[query]), IsGap()); }
  }

  lemma {:induction false} SweptTellsGaps(w: State, order: seq<Identity>, coverage: seq<Coverage>, seen: set<Identity>,
                                          failed: bool, at: nat)
    requires Keyed(w) && forall i, j :: 0 <= i < j < |order| ==> order[i] != order[j]
    ensures Adds(w.log, Swept(w, order, CoverageMap(coverage, failed), seen, failed, at).log, IsGap(),
                 SweepGaps(w.tracked, order, coverage, seen))
    decreases |order|
  {
    AddsNothing(w.log, IsGap());
    if order != [] {
      hide Adds, Swept1, Keyed, CoverageMap, Unreported, Establishes;
      var n, m := |order| - 1, CoverageMap(coverage, failed);
      var key, v := order[n], Swept(w, order[..n], m, seen, failed, at);
      SweptTellsGaps(w, order[..n], coverage, seen, failed, at);
      SweptEffect(w, order[..n], m, seen, failed, at, key);
      assert order == order[..n] + [key] && key !in order[..n];
      AddsNothing(v.log, IsGap());
      if key !in seen && key in v.tracked { Swept1Gap(v, key, coverage, failed, at); }
      var own := if key in w.tracked && key !in seen && Unreported(coverage, key)
                 then [Gap(Some(w.tracked[key]), Some(Coverage(key.gvr, key.namespace, Unknown, false)))] else [];
      AddsMore(w.log, v.log, Swept(w, order, m, seen, failed, at).log, IsGap(),
               SweepGaps(w.tracked, order[..n], coverage, seen), own);
    }
  }

  /** The gaps of an accepted refresh: of its items, of its reports, of the sources it could not account for, and
      one if it came without any report. */
  lemma {:induction false} RefreshTellsGaps(w: State, snapshot: Snapshot, failed: bool, order: seq<Identity>,
                                            evicted: set<Identity>, inScope: Ref -> bool)
    requires Keyed(w) && Accepts(w, snapshot.observedAt)
    requires RefreshChoices(w, snapshot, failed, order, evicted, inScope)
    ensures var v, sc := Observed(w, snapshot, failed, order, evicted, inScope), Scanned(w, snapshot, inScope);
            RecordsOf(v.log.journal, IsGap())
            == RecordsOf(w.log.journal, IsGap())
               + RefreshGaps(w.context, sc.w.tracked, snapshot, failed, order, sc.seen, inScope)
  {
    hide Adds, Keyed, ItemsSeen, CoverageNoted, Swept, ItemGaps, ReportGaps, SweepGaps, RecordsOf;
    var at, coverage := snapshot.observedAt, snapshot.coverage;
    var p, sc := Pruned(w, at), Scanned(w, snapshot, inScope);
    var u := CoverageNoted(sc.w, coverage, failed, at);
    var x := Swept(u, order, CoverageMap(coverage, failed), sc.seen, failed, at);
    var a, b := ItemGaps(w.context, snapshot.items, at, inScope), ReportGaps(coverage, failed);
    var c, none := SweepGaps(sc.w.tracked, order, coverage, sc.seen), Gap(None, Some(Coverage("", "", Unknown, false)));
    PrunedTold(w, at, IsGap());
    PrunedKeyed(w, at);
    ItemsTellGaps(p, snapshot.items, at, inScope);
    ScanKeyed(p, snapshot.items, at, inScope);
    ReportsTellGaps(sc.w, coverage, failed, at);
    CoverageNotedOnly(sc.w, coverage, failed, at, Identity("", "", "", "", ""));
    StillKeyed(sc.w, u);
    SweptTellsGaps(u, order, coverage, sc.seen, failed, at);
    NotedAdds(x, at, none, IsGap());
    AddsNothing(x.log, IsGap());
    AddsMore(w.log, p.log, sc.w.log, IsGap(), [], a);
    assert [] + a == a;
    AddsMore(w.log, sc.w.log, u.log, IsGap(), a, b);
    AddsMore(w.log, u.log, x.log, IsGap(), a + b, c);
    AddsMore(w.log, x.log, CoverageRecorded(sc, coverage, failed, order, at).log, IsGap(), a + b + c,
             if coverage == [] then [none] else []);
    AddsMeans(w.log, BeforeCap(w, snapshot, failed, order, inScope).log, IsGap(),
              RefreshGaps(w.context, sc.w.tracked, snapshot, failed, order, sc.seen, inScope));
    CappedTold(BeforeCap(w, snapshot, failed, order, inScope), evicted, at, IsGap());
  }

  lemma {:induction false} AddsMeans(a: Log, b: Log, about: Record -> bool, more: seq<Record>)
    requires Adds(a, b, about, more)
    ensures RecordsOf(b.journal, about) == RecordsOf(a.journal, about) + more
  {
  }

  /** A stale or undated refresh changes nothing and records one gap, at the time of the last refresh. */
  lemma {:induction false} StaleExactly(w: State, snapshot: Snapshot, failed: bool, order: seq<Identity>,
                                        evicted: set<Identity>, inScope: Ref -> bool)
    requires var at := snapshot.observedAt;
             at == 0 || at < w.startedAt || (w.lastRefreshAt != 0 && at <= w.lastRefreshAt)
    ensures var v := Observed(w, snapshot, failed, order, evicted, inScope);
            && v == w.(log := v.log)
            && v.log.journal == w.log.journal
                                + [Entry(w.log.sequence + 1, w.lastRefreshAt,
                                         Gap(None, Some(Coverage("", "", Stale, false))))]
  {
  }

  // ---- The current UIDs ----

  lemma {:induction false} Swept1Current(w: State, key: Identity, m: map<(string, string), Coverage>, failed: bool,
                                         at: int, n: NameKey)
    requires Keyed(w) && key in w.tracked
    ensures CurrentUid(Swept1(w, key, m, failed, at), n)
         == if Establishes(m, failed, key) && key == Holder(n, CurrentUid(w, n)) then "" else CurrentUid(w, n)
  {
  }

  lemma {:induction false} SweptCurrent(w: State, order: seq<Identity>, m: map<(string, string), Coverage>,
                                        seen: set<Identity>, failed: bool, at: nat, n: NameKey)
    requires Keyed(w) && forall i, j :: 0 <= i < j < |order| ==> order[i] != order[j]
    ensures var k := Holder(n, CurrentUid(w, n));
            CurrentUid(Swept(w, order, m, seen, failed, at), n)
            == if k in order && Due(w, m, seen, failed, k) then "" else CurrentUid(w, n)
    decreases |order|
  {
    if order != [] {
      hide Swept1, Establishes, CurrentUid;
      var i := |order| - 1;
      var key, v := order[i], Swept(w, order[..i], m, seen, failed, at);
      SweptCurrent(w, order[..i], m, seen, failed, at, n);
      SweptEffect(w, order[..i], m, seen, failed, at, key);
      assert order == order[..i] + [key] && key !in order[..i];
      if key !in seen && key in v.tracked {
        Swept1Current(v, key, m, failed, at, n);
        TrackedHasUid(v, key);
      }
    }
  }

  lemma {:induction false} TrackedHasUid(w: State, k: Identity)
    requires Keyed(w) && k in w.tracked
    ensures k.uid != ""
  {
  }

  /** The UID that is current under a name after an accepted refresh: the last one that came under it, or the one
      before, unless its source was found absent or the cap took a source of that name. */
  lemma {:induction false} CurrentExactly(w: State, snapshot: Snapshot, failed: bool, order: seq<Identity>,
                                          evicted: set<Identity>, inScope: Ref -> bool, n: NameKey)
    requires Keyed(w) && Accepts(w, snapshot.observedAt)
    requires RefreshChoices(w, snapshot, failed, order, evicted, inScope)
    ensures var p, v := Pruned(w, snapshot.observedAt), Observed(w, snapshot, failed, order, evicted, inScope);
            var b := BeforeCap(w, snapshot, failed, order, inScope);
            var uid := UidAfter(p, snapshot.items, n, inScope);
            CurrentUid(v, n)
            == if FoundAbsent(w, snapshot, failed, Holder(n, uid), inScope)
                  || (|b.tracked| > MAX_TRACKED && exists k :: k in evicted && NameOf(k) == n)
               then "" else uid
  {
    hide Keyed, ItemsSeen, CoverageNoted, Swept, UidAfter, CoverageMap, ConfirmsAbsence, FirstItem;
    var at, coverage := snapshot.observedAt, snapshot.coverage;
    var p, sc := Pruned(w, at), Scanned(w, snapshot, inScope);
    var u, m := CoverageNoted(sc.w, coverage, failed, at), CoverageMap(coverage, failed);
    PrunedKeyed(w, at);
    CurrentIs(p, snapshot.items, at, n, inScope);
    ScanKeyed(p, snapshot.items, at, inScope);
    CoverageNotedOnly(sc.w, coverage, failed, at, Identity("", "", "", "", ""));
    StillKeyed(sc.w, u);
    SweptCurrent(u, order, m, sc.seen, failed, at, n);
    var k := Holder(n, CurrentUid(sc.w, n));
    ScanIs(p, snapshot.items, at, inScope, k);
    PrunedEffect(w, at, k);
    EstablishesIff(coverage, failed, k);
    CappedCurrent(BeforeCap(w, snapshot, failed, order, inScope), evicted, at, n);
  }

  lemma {:induction false} CappedCurrent(b: State, evicted: set<Identity>, at: int, n: NameKey)
    ensures CurrentUid(Capped(b, evicted, at), n)
         == if |b.tracked| > MAX_TRACKED && exists k :: k in evicted && NameOf(k) == n then "" else CurrentUid(b, n)
  {
    assert n in NamesOf(evicted) <==> exists k :: k in evicted && NameOf(k) == n;
  }
}
