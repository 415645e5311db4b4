/** What a collection of events leaves and records, event by event. */
module ActivityCollected {
  import opened Wrappers
  import opened ActivityLog
  import opened ActivitySteps
  import opened ActivityEvents
  import opened ActivityRuns
  import opened ActivityTold
  import opened ActivityGaps

  // ---- The fate of one event key ----

  /** An event of the window's context, in the namespace of what it is about, where that is in scope and tracked. */
  predicate Wanted(context: string, tracked: map<Identity, Source>, e: Event, inScope: Ref -> bool) {
    var (i, r) := (e.identity, e.regarding);
    && i.context == context && r.context == context
    && i.gvr == "v1/events" && i.uid != "" && i.name != "" && i.namespace == r.namespace
    && r in tracked && inScope(Ref(r.gvr, r.namespace, r.name, r.uid))
  }

  predicate Under(e: Event, x: EventKey) {
    && e.identity.context == x.context && e.identity.namespace == x.namespace
    && e.identity.name == x.name && e.identity.uid == x.uid
  }

  /** An event as it is kept: with the kind of what it is about, and texts made safe for display. */
  function Shown(e: Event, kind: string, safe: string -> string): Event {
    var c := e.content;
    Event(e.identity, e.regarding, kind,
          Content(c.count, safe(c.reason), safe(c.message), safe(c.kind), safe(c.controller),
                  c.firstAt, c.lastAt, c.eventAt, c.seriesLastAt), e.capturedAt)
  }

  /** The event known under a key, and the records about that key. */
  datatype Story = Story(known: Option<Event>, told: seq<Record>)

  predicate News(known: Option<Event>, e: Event) {
    known.None? || known.value.content != e.content || known.value.regarding != e.regarding
  }

  function StoryOf(context: string, tracked: map<Identity, Source>, known: Option<Event>, events: seq<Event>,
                   x: EventKey, inScope: Ref -> bool, safe: string -> string): Story {
    if events == [] then Story(known, [])
    else
      var e := events[|events| - 1];
      var s := StoryOf(context, tracked, known, events[..|events| - 1], x, inScope, safe);
      if Under(e, x) && Wanted(context, tracked, e, inScope) && News(s.known, e) then
        var kept := Shown(e, tracked[e.regarding].kind, safe);
        Story(Some(kept), s.told + [Retained(kept)])
      else s
  }

  function AboutEvent(x: EventKey): Record -> bool { (r: Record) => r.Retained? && Under(r.event, x) }

  function KnownEvent(w: State, x: EventKey): Option<Event> { if x in w.events then Some(w.events[x]) else None }

  lemma {:induction false} WantedIff(w: State, e: Event, inScope: Ref -> bool)
    ensures Relevant(w, e, inScope) <==> Wanted(w.context, w.tracked, e, inScope)
    ensures Relevant(w, e, inScope) ==> IdentityOf(w.context, Regarded(e)) == e.regarding
  {
  }

  lemma {:induction false} EventTells(w: State, e: Event, at: int, x: EventKey, inScope: Ref -> bool,
                                      safe: string -> string)
    ensures var v := EventSeen(w, e, at, inScope, safe);
            if Under(e, x) && Wanted(w.context, w.tracked, e, inScope) && News(KnownEvent(w, x), e) then
              var kept := Shown(e, w.tracked[e.regarding].kind, safe);
              KnownEvent(v, x) == Some(kept) && Adds(w.log, v.log, AboutEvent(x), [Retained(kept)])
            else KnownEvent(v, x) == KnownEvent(w, x) && Adds(w.log, v.log, AboutEvent(x), [])
  {
    hide Adds, Appended;
    WantedIff(w, e, inScope);
    AddsNothing(w.log, AboutEvent(x));
    if Relevant(w, e, inScope) {
      var kept := Shown(e, w.tracked[IdentityOf(w.context, Regarded(e))].kind, safe);
      var key := EventKeyOf(e);
      assert key == x <==> Under(e, x);
      NotedAdds(w.(events := w.events[key := kept]), at, Retained(kept), AboutEvent(x));
    }
  }

  lemma {:induction false} EventsTell(w: State, events: seq<Event>, at: nat, x: EventKey, inScope: Ref -> bool,
                                      safe: string -> string)
    ensures var v := EventsSeen(w, events, at, inScope, safe);
            var s := StoryOf(w.context, w.tracked, KnownEvent(w, x), events, x, inScope, safe);
            KnownEvent(v, x) == s.known && Adds(w.log, v.log, AboutEvent(x), s.told)
  {
    AddsNothing(w.log, AboutEvent(x));
    if events != [] {
      hide Adds, EventSeen, Wanted, Under, News, Shown;
      var n := |events| - 1;
      var v := EventsSeen(w, events[..n], at, inScope, safe);
      var s := StoryOf(w.context, w.tracked, KnownEvent(w, x), events[..n], x, inScope, safe);
      EventsTell(w, events[..n], at, x, inScope, safe);
      EventsSeenOnly(w, events[..n], at, inScope, safe);
      EventTells(v, events[n], at, x, inScope, safe);
      var u := EventSeen(v, events[n], at, inScope, safe);
      var more := StoryOf(w.context, w.tracked, KnownEvent(w, x), events, x, inScope, safe).told[|s.told|..];
      AddsMore(w.log, v.log, u.log, AboutEvent(x), s.told, more);
      assert s.told + [] == s.told;
    }
  }

  // ---- The gaps of a collection ----

  /** Reports that are not complete and whole, in their order. */
  function PoorReports(coverage: seq<Coverage>): seq<Record> {
    if coverage == [] then []
    else
      var c := coverage[|coverage| - 1];
      PoorReports(coverage[..|coverage| - 1])
      + (if c.state == Complete && !c.truncated then [] else [Gap(None, Some(c))])
  }

  lemma {:induction false} EventsTellNoGap(w: State, events: seq<Event>, at: int, inScope: Ref -> bool,
                                           safe: string -> string)
    ensures Adds(w.log, EventsSeen(w, events, at, inScope, safe).log, IsGap(), [])
  {
    AddsNothing(w.log, IsGap());
    if events != [] {
      hide Adds, Relevant, Appended;
      var n := |events| - 1;
      var v, e := EventsSeen(w, events[..n], at, inScope, safe), events[n];
      EventsTellNoGap(w, events[..n], at, inScope, safe);
      AddsNothing(v.log, IsGap());
      if Relevant(v, e, inScope) {
        var kept := e.(kind := v.tracked[IdentityOf(v.context, Regarded(e))].kind, content := Safely(e.content, safe));
        NotedAdds(v.(events := v.events[EventKeyOf(e) := kept]), at, Retained(kept), IsGap());
      }
      AddsMore(w.log, v.log, EventSeen(v, e, at, inScope, safe).log, IsGap(), [], []);
    }
  }

  lemma {:induction false} ReportsTell(w: State, coverage: seq<Coverage>, at: int, x: EventKey)
    ensures Adds(w.log, EventCoverage(w, coverage, at).log, IsGap(), PoorReports(coverage))
    ensures Adds(w.log, EventCoverage(w, coverage, at).log, AboutEvent(x), [])
  {
    AddsNothing(w.log, IsGap());
    AddsNothing(w.log, AboutEvent(x));
    if coverage != [] {
      hide Adds, Noted;
      var n := |coverage| - 1;
      var v, gap := EventCoverage(w, coverage[..n], at), Gap(None, Some(coverage[n]));
      ReportsTell(w, coverage[..n], at, x);
      AddsNothing(v.log, IsGap());
      AddsNothing(v.log, AboutEvent(x));
      NotedAdds(v, at, gap, IsGap());
      NotedAdds(v, at, gap, AboutEvent(x));
      var u, last := EventCoverage(w, coverage, at), if Trusted(coverage[n]) then [] else [gap];
      AddsMore(w.log, v.log, u.log, IsGap(), PoorReports(coverage[..n]), last);
      AddsMore(w.log, v.log, u.log, AboutEvent(x), [], []);
    }
  }

  // ---- The whole collection ----

  /** A collection that was not requested records one gap, at the time of the last refresh; one from before the
      window, or before the last refresh, changes nothing. */
  lemma {:induction false} RefusedExactly(w: State, c: Collection, evicted: set<EventKey>, inScope: Ref -> bool,
                                          safe: string -> string)
    requires !c.requested || c.capturedAt < w.startedAt || c.capturedAt < w.lastRefreshAt
    ensures var v := Collected(w, c, evicted, inScope, safe);
            && v == w.(log := v.log) && (c.requested ==> v == w)
            && (!c.requested ==>
                  v.log.journal == w.log.journal
                                   + [Entry(w.log.sequence + 1, w.lastRefreshAt,
                                            Gap(None, Some(Coverage("v1/events", "", Unknown, false))))])
  {
  }

  /** Any other collection: what it records about each event key and as gaps, and which event it leaves under
      each key. The cap takes events only when there are more than 128. */
  lemma {:induction false} CollectedTells(w: State, c: Collection, evicted: set<EventKey>, inScope: Ref -> bool,
                                          safe: string -> string, x: EventKey)
    requires c.requested && c.capturedAt >= w.startedAt && c.capturedAt >= w.lastRefreshAt
    ensures var v := Collected(w, c, evicted, inScope, safe);
            var b := BeforeEventCap(w, c, inScope, safe);
            var s := StoryOf(w.context, w.tracked, KnownEvent(w, x), c.events, x, inScope, safe);
            && RecordsOf(v.log.journal, AboutEvent(x)) == RecordsOf(w.log.journal, AboutEvent(x)) + s.told
            && RecordsOf(v.log.journal, IsGap()) == RecordsOf(w.log.journal, IsGap()) + PoorReports(c.coverage)
            && KnownEvent(v, x) == (if |b.events| > 128 && x in evicted then None else s.known)
            && KnownEvent(b, x) == s.known
  {
    hide Adds, EventsSeen, EventCoverage, StoryOf, RecordsOf;
    var at := c.capturedAt;
    var v, b := EventsSeen(w, c.events, at, inScope, safe), BeforeEventCap(w, c, inScope, safe);
    var s := StoryOf(w.context, w.tracked, KnownEvent(w, x), c.events, x, inScope, safe);
    EventsTell(w, c.events, at, x, inScope, safe);
    EventsTellNoGap(w, c.events, at, inScope, safe);
    ReportsTell(v, c.coverage, at, x);
    EventCoverageOnly(v, c.coverage, at);
    AddsMore(w.log, v.log, b.log, AboutEvent(x), s.told, []);
    AddsMore(w.log, v.log, b.log, IsGap(), [], PoorReports(c.coverage));
    assert s.told + [] == s.told && [] + PoorReports(c.coverage) == PoorReports(c.coverage);
    AddsMeans(w.log, b.log, AboutEvent(x), s.told);
    AddsMeans(w.log, b.log, IsGap(), PoorReports(c.coverage));
  }

  // ---- One wanted event under a key ----

  /** A key without a wanted event keeps what it had, and nothing is recorded about it. */
  lemma {:induction false} NoneUnder(context: string, tracked: map<Identity, Source>, known: Option<Event>,
                                     events: seq<Event>, x: EventKey, inScope: Ref -> bool, safe: string -> string)
    requires forall i :: 0 <= i < |events| ==> !(Under(events[i], x) && Wanted(context, tracked, events[i], inScope))
    ensures StoryOf(context, tracked, known, events, x, inScope, safe) == Story(known, [])
  {
    if events != [] {
      hide Under, Wanted, News, Shown;
      NoneUnder(context, tracked, known, events[..|events| - 1], x, inScope, safe);
    }
  }

  /** A wanted event that is the only one under its key is kept and recorded once, exactly when it says something
      else than the event known before. */
  lemma {:induction false} OneUnder(context: string, tracked: map<Identity, Source>, known: Option<Event>,
                                    events: seq<Event>, x: EventKey, inScope: Ref -> bool, safe: string -> string,
                                    i: nat)
    requires i < |events| && Under(events[i], x) && Wanted(context, tracked, events[i], inScope)
    requires forall j :: 0 <= j < |events| && j != i ==>
               !(Under(events[j], x) && Wanted(context, tracked, events[j], inScope))
    ensures var kept := Shown(events[i], tracked[events[i].regarding].kind, safe);
            StoryOf(context, tracked, known, events, x, inScope, safe)
            == if News(known, events[i]) then Story(Some(kept), [Retained(kept)]) else Story(known, [])
  {
    hide Under, News, Shown;
    var front := events[..|events| - 1];
    if i == |front| {
      NoneUnder(context, tracked, known, front, x, inScope, safe);
    } else {
      OneUnder(context, tracked, known, front, x, inScope, safe, i);
    }
  }

  // ---- Everything at one time ----

  ghost predicate GrowsAt(a: seq<Entry>, b: seq<Entry>, at: int) {
    && |a| <= |b| && b[..|a|] == a
    && forall i :: |a| <= i < |b| ==> b[i].observedAt == at
  }

  lemma {:induction false} AppendedAllGrows(l: Log, at: int, records: seq<Record>)
    ensures GrowsAt(l.journal, AppendedAll(l, at, records).journal, at)
  {
    if records != [] {
      var n := |records| - 1;
      var m := AppendedAll(l, at, records[..n]);
      AppendedAllGrows(l, at, records[..n]);
      assert Appended(m, at, records[n]).journal == m.journal + [Entry(m.sequence + 1, at, records[n])];
    }
  }

  /** Whatever a refresh or a collection that is taken writes, it writes after all that was written before, with
      its own time. */
  lemma {:induction false} WrittenAtItsTime(w: State, move: Move, inScope: Ref -> bool, safe: string -> string)
    requires match move
             case Refresh(snapshot, _, _, _) => Accepts(w, snapshot.observedAt)
             case Collect(c, _) => c.requested && !Ignores(w, c.capturedAt)
    ensures GrowsAt(w.log.journal, After1(w, move, inScope, safe).log.journal,
                    match move
                    case Refresh(snapshot, _, _, _) => snapshot.observedAt
                    case Collect(c, _) => c.capturedAt)
  {
    hide AppendedAll, BeforeCap, BeforeEventCap, GrowsAt;
    match move
    case Refresh(snapshot, failed, order, evicted) =>
      var at := snapshot.observedAt;
      BeforeCapExtends(w, snapshot, failed, order, inScope);
      var records :| BeforeCap(w, snapshot, failed, order, inScope).log == AppendedAll(Pruned(w, at).log, at, records);
      AppendedAllGrows(Pruned(w, at).log, at, records);
    case Collect(c, evicted) =>
      BeforeEventCapExtends(w, c, inScope, safe);
      var records :| BeforeEventCap(w, c, inScope, safe).log == AppendedAll(w.log, c.capturedAt, records);
      AppendedAllGrows(w.log, c.capturedAt, records);
  }
}
