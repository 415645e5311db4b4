/** What one refresh and one event collection do to an activity window. Choices that the program leaves
    open (which of equally old items go first) and its order of visiting tracked keys are parameters.
    Times count from the zero time, which stands for no time at all. */
module ActivitySteps {
  import opened Wrappers
  import opened ActivityFacts
  import opened ActivityLog

  const RETENTION: int := 24 * 3600 * 1_000_000_000
  const MAX_TRACKED: nat := 2000
  const MAX_EVENTS: nat := 128
  const EVENT_GVR := "v1/events"

  datatype Ref = Ref(gvr: string, namespace: string, name: string, uid: string)
  datatype NameKey = NameKey(context: string, gvr: string, namespace: string, name: string)

  /** The projection of an object, or none when the object does not match its reference. */
  datatype Projection = Projection(kind: string, facts: seq<Fact>, whole: bool)
  datatype Item = Item(ref: Ref, projection: Option<Projection>)
  datatype Snapshot = Snapshot(observedAt: nat, items: seq<Item>, coverage: seq<Coverage>)
  datatype Collection = Collection(requested: bool, capturedAt: nat, events: seq<Event>, coverage: seq<Coverage>)

  datatype State = State(context: string, startedAt: nat, lastRefreshAt: nat, log: Log,
                         tracked: map<Identity, Source>, current: map<NameKey, string>, events: map<EventKey, Event>)

  function Fresh(context: string, at: nat): State { State(context, at, 0, EMPTY_LOG, map[], map[], map[]) }

  function NameOf(i: Identity): NameKey { NameKey(i.context, i.gvr, i.namespace, i.name) }

  function IdentityOf(context: string, r: Ref): Identity { Identity(context, r.gvr, r.namespace, r.name, r.uid) }

  function NamesOf(keys: set<Identity>): set<NameKey> { set k | k in keys :: NameOf(k) }

  function Noted(w: State, at: int, record: Record): State { w.(log := Appended(w.log, at, record)) }

  // ---- Refreshes ----

  predicate Accepts(w: State, at: int) {
    at != 0 && at >= w.startedAt && (w.lastRefreshAt == 0 || at > w.lastRefreshAt)
  }

  function StaleRefresh(w: State): State {
    Noted(w, w.lastRefreshAt, Gap(None, Some(Coverage("", "", Stale, false))))
  }

  function Aged(w: State, cutoff: int): set<Identity> { set k | k in w.tracked && w.tracked[k].capturedAt < cutoff }

  function AgedEvents(w: State, cutoff: int): set<EventKey> {
    set k | k in w.events && w.events[k].capturedAt < cutoff
  }

  /** Sources that leave are counted as dropped, and their names are forgotten whatever UID was current. */
  function Forgotten(w: State, keys: set<Identity>, before: int): State {
    w.(tracked := w.tracked - keys, current := w.current - NamesOf(keys), log := SourcesLost(w.log, keys, before))
  }

  function Pruned(w: State, at: int): State {
    var cutoff := at - RETENTION;
    var aged := Aged(w, cutoff);
    var v := if aged == {} then w else Forgotten(w, aged, cutoff);
    v.(events := w.events - AgedEvents(w, cutoff), log := Trimmed(v.log, cutoff))
  }

  function Project(w: State, item: Item, at: int): Option<Source> {
    if item.projection.None? || item.ref.uid == "" then None
    else
      var p := item.projection.value;
      Some(Source(IdentityOf(w.context, item.ref), p.kind, at, p.facts, p.whole))
  }

  /** A window and the keys seen so far in a refresh. */
  datatype Scan = Scan(w: State, seen: set<Identity>)

  function WithReplacement(w: State, s: Source, at: int): State {
    var name := NameOf(s.identity);
    var v := if name in w.current && w.current[name] != "" && w.current[name] != s.identity.uid
             then Noted(w, at, Replaced(s, w.current[name])) else w;
    v.(current := v.current[name := s.identity.uid])
  }

  function WithSource(w: State, s: Source, at: int): State {
    var v :=
      if s.identity !in w.tracked then Noted(w, at, FirstObserved(s))
      else
        var changes := Changes(w.tracked[s.identity].facts, s.facts);
        if changes != multiset{} then Noted(w, at, Changed(s, w.tracked[s.identity].capturedAt, changes)) else w;
    v.(tracked := v.tracked[s.identity := s])
  }

  function SourceSeen(sc: Scan, s: Source, at: int): Scan {
    var w := if s.whole then sc.w else Noted(sc.w, at, Gap(Some(s), None));
    if s.identity in sc.seen then Scan(w, sc.seen)
    else Scan(WithSource(WithReplacement(w, s, at), s, at), sc.seen + {s.identity})
  }

  function ItemSeen(sc: Scan, item: Item, at: int, inScope: Ref -> bool): Scan {
    if !inScope(item.ref) then sc
    else
      match Project(sc.w, item, at)
      case None =>
        Scan(Noted(sc.w, at, Gap(None, Some(Coverage(item.ref.gvr, item.ref.namespace, Unknown, false)))),
             sc.seen + {IdentityOf(sc.w.context, item.ref)})
      case Some(s) => SourceSeen(sc, s, at)
  }

  function ItemsSeen(sc: Scan, items: seq<Item>, at: int, inScope: Ref -> bool): Scan {
    if items == [] then sc
    else ItemSeen(ItemsSeen(sc, items[..|items| - 1], at, inScope), items[|items| - 1], at, inScope)
  }

  /** A query reported twice is ambiguous, and after a failed refresh none is trusted. */
  function Judged(c: Coverage, duplicate: bool, failed: bool): Coverage {
    c.(state := if failed then Canceled else if duplicate then Unknown else c.state)
  }

  function QueryOf(c: Coverage): (string, string) { (c.gvr, c.namespace) }

  function CoverageMap(coverage: seq<Coverage>, failed: bool): map<(string, string), Coverage> {
    if coverage == [] then map[]
    else
      var n := |coverage| - 1;
      var m := CoverageMap(coverage[..n], failed);
      m[QueryOf(coverage[n]) := Judged(coverage[n], QueryOf(coverage[n]) in m, failed)]
  }

  predicate Trusted(c: Coverage) { c.state == Complete && !c.truncated }

  function CoverageNoted(w: State, coverage: seq<Coverage>, failed: bool, at: int): State {
    if coverage == [] then w
    else
      var n := |coverage| - 1;
      var v := CoverageNoted(w, coverage[..n], failed, at);
      var c := Judged(coverage[n], QueryOf(coverage[n]) in CoverageMap(coverage[..n], failed), failed);
      if Trusted(c) then v else Noted(v, at, Gap(None, Some(c)))
  }

  function Missing(w: State, key: Identity, c: Coverage, at: int): State
    requires key in w.tracked
  {
    var s := w.tracked[key];
    var v := Noted(w, at, NotObserved(s, s.capturedAt, c));
    var name := NameOf(s.identity);
    v.(tracked := v.tracked - {key},
       current := if name in v.current && v.current[name] == s.identity.uid then v.current - {name} else v.current)
  }

  /** What a refresh makes of a tracked key that it did not see. */
  function Swept1(w: State, key: Identity, m: map<(string, string), Coverage>, failed: bool, at: int): State
    requires key in w.tracked
  {
    var s := w.tracked[key];
    var query := (s.identity.gvr, s.identity.namespace);
    if query !in m then
      Noted(w, at, Gap(Some(s), Some(Coverage(s.identity.gvr, s.identity.namespace, Unknown, false))))
    else if !Trusted(m[query]) || failed then w
    else Missing(w, key, m[query], at)
  }

  function Swept(w: State, order: seq<Identity>, m: map<(string, string), Coverage>, seen: set<Identity>,
                 failed: bool, at: int): State
  {
    if order == [] then w
    else
      var key := order[|order| - 1];
      var v := Swept(w, order[..|order| - 1], m, seen, failed, at);
      if key in seen || key !in v.tracked then v else Swept1(v, key, m, failed, at)
  }

  function CoverageRecorded(sc: Scan, coverage: seq<Coverage>, failed: bool, order: seq<Identity>, at: int): State {
    var w := CoverageNoted(sc.w, coverage, failed, at);
    var v := Swept(w, order, CoverageMap(coverage, failed), sc.seen, failed, at);
    if coverage == [] then Noted(v, at, Gap(None, Some(Coverage("", "", Unknown, false)))) else v
  }

  function Capped(w: State, evicted: set<Identity>, at: int): State {
    if |w.tracked| <= MAX_TRACKED then w else Forgotten(w, evicted, at)
  }

  /** What a refresh has seen once it went through its items. */
  function Scanned(w: State, snapshot: Snapshot, inScope: Ref -> bool): Scan {
    ItemsSeen(Scan(Pruned(w, snapshot.observedAt), {}), snapshot.items, snapshot.observedAt, inScope)
  }

  /** The state in which the cap on tracked sources is applied. */
  function BeforeCap(w: State, snapshot: Snapshot, failed: bool, order: seq<Identity>, inScope: Ref -> bool): State {
    var at := snapshot.observedAt;
    CoverageRecorded(Scanned(w, snapshot, inScope), snapshot.coverage, failed, order, at).(lastRefreshAt := at)
  }

  function Observed(w: State, snapshot: Snapshot, failed: bool, order: seq<Identity>, evicted: set<Identity>,
                    inScope: Ref -> bool): State {
    if !Accepts(w, snapshot.observedAt) then StaleRefresh(w)
    else Capped(BeforeCap(w, snapshot, failed, order, inScope), evicted, snapshot.observedAt)
  }

  /** The oldest tracked sources, as many as exceed the cap. */
  ghost predicate OldestSources(tracked: map<Identity, Source>, evicted: set<Identity>) {
    && evicted <= tracked.Keys && |evicted| + MAX_TRACKED == |tracked|
    && forall e, k :: e in evicted && k in tracked && k !in evicted ==> tracked[e].capturedAt <= tracked[k].capturedAt
  }

  ghost predicate Enumerates(order: seq<Identity>, keys: set<Identity>) {
    && (forall k :: k in order <==> k in keys)
    && forall i, j :: 0 <= i < j < |order| ==> order[i] != order[j]
  }

  /** The choices of a refresh are ones the program could make. */
  ghost predicate RefreshChoices(w: State, snapshot: Snapshot, failed: bool, order: seq<Identity>,
                                 evicted: set<Identity>,
                                 inScope: Ref -> bool) {
    var at := snapshot.observedAt;
    Accepts(w, at) ==>
      && Enumerates(order, Scanned(w, snapshot, inScope).w.tracked.Keys)
      && var b := BeforeCap(w, snapshot, failed, order, inScope);
         |b.tracked| > MAX_TRACKED ==> OldestSources(b.tracked, evicted)
  }

  // ---- Event collections ----

  function Regarded(e: Event): Ref { Ref(e.regarding.gvr, e.regarding.namespace, e.regarding.name, e.regarding.uid) }

  function EventKeyOf(e: Event): EventKey {
    EventKey(e.identity.context, e.identity.namespace, e.identity.name, e.identity.uid)
  }

  predicate Relevant(w: State, e: Event, inScope: Ref -> bool) {
    && e.identity.context == w.context && e.regarding.context == w.context && e.identity.uid != ""
    && e.identity.gvr == EVENT_GVR && e.identity.namespace == e.regarding.namespace && e.identity.name != ""
    && inScope(Regarded(e)) && IdentityOf(w.context, Regarded(e)) in w.tracked
  }

  function Safely(c: Content, safe: string -> string): Content {
    c.(reason := safe(c.reason), message := safe(c.message), kind := safe(c.kind), controller := safe(c.controller))
  }

  predicate SameEvent(a: Event, b: Event) { a.content == b.content && a.regarding == b.regarding }

  function EventSeen(w: State, e: Event, at: int, inScope: Ref -> bool, safe: string -> string): State {
    if !Relevant(w, e, inScope) then w
    else
      var key := EventKeyOf(e);
      if key in w.events && SameEvent(w.events[key], e) then w
      else
        var kept := e.(kind := w.tracked[IdentityOf(w.context, Regarded(e))].kind, content := Safely(e.content, safe));
        Noted(w.(events := w.events[key := kept]), at, Retained(kept))
  }

  function EventsSeen(w: State, events: seq<Event>, at: int, inScope: Ref -> bool, safe: string -> string): State {
    if events == [] then w
    else EventSeen(EventsSeen(w, events[..|events| - 1], at, inScope, safe), events[|events| - 1], at, inScope, safe)
  }

  function EventCoverage(w: State, coverage: seq<Coverage>, at: int): State {
    if coverage == [] then w
    else
      var n := |coverage| - 1;
      var v := EventCoverage(w, coverage[..n], at);
      if Trusted(coverage[n]) then v else Noted(v, at, Gap(None, Some(coverage[n])))
  }

  function EventsCapped(w: State, evicted: set<EventKey>, at: int): State {
    if |w.events| <= MAX_EVENTS then w
    else w.(events := w.events - evicted, log := EventsLost(w.log, evicted, at))
  }

  predicate Ignores(w: State, at: int) { at < w.startedAt || at < w.lastRefreshAt }

  function BeforeEventCap(w: State, c: Collection, inScope: Ref -> bool, safe: string -> string): State {
    EventCoverage(EventsSeen(w, c.events, c.capturedAt, inScope, safe), c.coverage, c.capturedAt)
  }

  function Collected(w: State, c: Collection, evicted: set<EventKey>, inScope: Ref -> bool,
                     safe: string -> string): State {
    if !c.requested then
      Noted(w, w.lastRefreshAt, Gap(None, Some(Coverage(EVENT_GVR, "", Unknown, false))))
    else if Ignores(w, c.capturedAt) then w
    else EventsCapped(BeforeEventCap(w, c, inScope, safe), evicted, c.capturedAt)
  }

  ghost predicate OldestEvents(events: map<EventKey, Event>, evicted: set<EventKey>) {
    && evicted <= events.Keys && |evicted| + MAX_EVENTS == |events|
    && forall e, k :: e in evicted && k in events && k !in evicted ==> events[e].capturedAt <= events[k].capturedAt
  }

  ghost predicate CollectChoices(w: State, c: Collection, evicted: set<EventKey>, inScope: Ref -> bool,
                                 safe: string -> string) {
    c.requested && !Ignores(w, c.capturedAt) ==>
      var b := BeforeEventCap(w, c, inScope, safe);
      |b.events| > MAX_EVENTS ==> OldestEvents(b.events, evicted)
  }
}
