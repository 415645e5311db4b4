/** What a reconciliation, a completion and a change of the pods do, field by field and marker by marker. */
module LogReconcile {
  import opened Wrappers
  import opened LogSources
  import opened LogFollow

  function Times(st: State, m: Marker): nat { multiset(st.markers)[m] }

  predicate Names(m: Marker, k: Source) { m != SourceLimit && m.source == k }

  // ---- Single markers ----

  lemma {:induction false} EmittedTimes(st: State, m: Marker, x: Marker)
    requires Emitted(st, m).sends > 0
    ensures st.sends > 0 && Times(Emitted(st, m), x) == Times(st, x) + (if x == m then 1 else 0)
  {
  }

  lemma {:induction false} EmittedIfTimes(st: State, when: bool, m: Marker, x: Marker)
    requires EmittedIf(st, when, m).sends > 0
    ensures st.sends > 0 && Times(EmittedIf(st, when, m), x) == Times(st, x) + (if when && x == m then 1 else 0)
  {
    if when { EmittedTimes(st, m, x); }
  }

  /** A marker changes nothing but the output. */
  lemma {:induction false} EmittedIfFields(st: State, when: bool, m: Marker)
    ensures var e := EmittedIf(st, when, m); e == st.(markers := e.markers, sends := e.sends) && e.sends <= st.sends
  {
  }

  // ---- One target ----

  /** Whether a worker was started for `k` between two states. */
  predicate StartedHere(st: State, k: Source, p: State) {
    k in p.sources && p.sources[k].running && !(k in st.sources && st.sources[k].running)
  }

  /** A worker runs for `k`, or `k` has ended for good. */
  predicate Ongoing(st: State, k: Source) {
    k in st.sources && (st.sources[k].running || st.sources[k].outcome != SourceCanceled)
  }

  /** The entry of a tracked target: what its pod says now, and otherwise what it was. */
  predicate Updated(s: Followed, t: Target, now: Followed) {
    && now.wanted && now.terminal == t.terminal && now.revision == t.revision
    && now.outcome == s.outcome && now.left == s.left && now.running == s.running && now.canceled == s.canceled
  }

  /** The table after the target `t` was placed: it goes on, or it starts afresh, or there is no room; `tracked`
      is the number of sources that were tracked by then. */
  ghost predicate PlacedEntry(st: State, t: Target, p: State, tracked: nat) {
    var k := t.source;
    if Ongoing(st, k) then k in p.sources && Updated(st.sources[k], t, p.sources[k]) && (k in p.live <==> k in st.live)
    else if StartedHere(st, k, p) then
      p.sources[k] == Followed(SourceCanceled, t.terminal, t.revision, false, true, true, false) && k in p.live
    else
      && p.capWarned && (p.active >= MAX_LOG_SOURCES || (k !in st.sources && tracked >= MAX_TRACKED_SOURCES))
      && (k in p.sources <==> k in st.sources) && (k in p.live <==> k in st.live)
      && (k in st.sources ==> Updated(st.sources[k], t, p.sources[k]))
  }

  /** How often each marker about the target is due. */
  predicate Due(st: State, t: Target, p: State, m: Marker, n: nat) {
    var k := t.source;
    var started := StartedHere(st, k, p);
    n == match m
         case Terminal(_) => if k in st.sources && t.terminal && !st.sources[k].terminal then 1 else 0
         case Rollout(_) =>
           (if k in st.sources && t.revision != st.sources[k].revision then 1 else 0)
           + (if started && t.revision != "" then 1 else 0)
         case Join(_) => if started then 1 else 0
         case LastTermination(_) => if started && t.lastTermination then 1 else 0
         case _ => 0
  }

  /** Nothing about `k` happened between two states, and what has run out stays so. */
  ghost predicate Apart(a: State, k: Source, b: State) {
    && Untouched(a, k, b) && (k in b.live <==> k in a.live)
    && (a.capWarned ==> b.capWarned) && a.active <= b.active && a.sources.Keys <= b.sources.Keys
    && (b.sends > 0 ==> a.sends > 0)
  }

  lemma {:induction false} RefreshedTimes(st: State, t: Target, m: Marker)
    requires t.source in st.sources && Refreshed(st, t).sends > 0
    ensures var s := st.sources[t.source];
            && st.sends > 0
            && Times(Refreshed(st, t), m)
               == Times(st, m) + (if t.terminal && !s.terminal && m == Terminal(t.source) then 1 else 0)
                  + (if t.revision != s.revision && m == Rollout(t.source) then 1 else 0)
  {
    hide EmittedIf, Times;
    var s := st.sources[t.source];
    var told := EmittedIf(Kept(st, t), t.terminal && !s.terminal, Terminal(t.source));
    EmittedIfTimes(told, t.revision != s.revision, Rollout(t.source), m);
    EmittedIfTimes(Kept(st, t), t.terminal && !s.terminal, Terminal(t.source), m);
    KeptTimes(st, t, m);
  }

  lemma {:induction false} KeptTimes(st: State, t: Target, m: Marker)
    requires t.source in st.sources
    ensures Times(Kept(st, t), m) == Times(st, m) && Kept(st, t).sends == st.sends
  {
  }

  lemma {:induction false} ReservedTimes(st: State, t: Target, m: Marker)
    ensures Times(Reserved(st, t), m) == Times(st, m) && Reserved(st, t).sends == st.sends
  {
  }

  lemma {:induction false} StartedTimes(st: State, t: Target, m: Marker)
    requires Started(st, t).sends > 0
    ensures && st.sends > 0
            && Times(Started(st, t), m)
               == Times(st, m) + (if m == Join(t.source) then 1 else 0)
                  + (if t.lastTermination && m == LastTermination(t.source) then 1 else 0)
                  + (if t.revision != "" && m == Rollout(t.source) then 1 else 0)
  {
    hide EmittedIf, Emitted, Times, Reserved;
    var joined := Emitted(Reserved(st, t), Join(t.source));
    var told := EmittedIf(joined, t.lastTermination, LastTermination(t.source));
    EmittedIfTimes(told, t.revision != "", Rollout(t.source), m);
    EmittedIfTimes(joined, t.lastTermination, LastTermination(t.source), m);
    EmittedTimes(Reserved(st, t), Join(t.source), m);
    ReservedTimes(st, t, m);
  }

  lemma {:induction false} CapWarnedTimes(st: State, m: Marker)
    requires CapWarned(st).sends > 0
    ensures st.sends > 0
    ensures Times(CapWarned(st), m) == Times(st, m) + (if m == SourceLimit && !st.capWarned then 1 else 0)
  {
    if !st.capWarned { EmittedTimes(st.(capWarned := true), SourceLimit, m); }
  }

  lemma {:induction false} PlacedEntryHolds(st: State, t: Target)
    ensures PlacedEntry(st, t, Placed(st, t), |Placed(st, t).sources|)
  {
    var k := t.source;
    if k in st.sources {
      RefreshedFields(st, t);
      if !Ongoing(st, k) { AbsentOrIdlePlaced(Refreshed(st, t), t); }
    } else {
      AbsentOrIdlePlaced(st, t);
    }
  }

  lemma {:induction false} RefreshedFields(st: State, t: Target)
    requires t.source in st.sources
    ensures var (s, r) := (st.sources[t.source], Refreshed(st, t));
            && r.sources == st.sources[t.source := Followed(s.outcome, t.terminal, t.revision, s.left, s.running, true,
                                                             s.canceled)]
            && r.live == st.live && r.active == st.active && r.capWarned == st.capWarned
            && r.done == st.done && r.pods == st.pods && r.finite == st.finite && r.sends <= st.sends
  {
    hide EmittedIf;
    var s := st.sources[t.source];
    EmittedIfFields(Kept(st, t), t.terminal && !s.terminal, Terminal(t.source));
    EmittedIfFields(EmittedIf(Kept(st, t), t.terminal && !s.terminal, Terminal(t.source)), t.revision != s.revision,
                    Rollout(t.source));
  }

  lemma {:induction false} StartedFields(st: State, t: Target)
    ensures var (revision, r) := (if t.source in st.sources then st.sources[t.source].revision else t.revision,
                                  Started(st, t));
            && r.sources == st.sources[t.source := Followed(SourceCanceled, t.terminal, revision, false, true, true,
                                                             false)]
            && r.live == st.live + {t.source} && r.active == st.active + 1 && r.capWarned == st.capWarned
            && r.done == st.done && r.pods == st.pods && r.finite == st.finite && r.sends <= st.sends
  {
    hide EmittedIf, Emitted;
    var reserved := Reserved(st, t);
    var joined := Emitted(reserved, Join(t.source));
    assert joined == EmittedIf(reserved, true, Join(t.source)) by { OneEmitted(reserved, Join(t.source)); }
    EmittedIfFields(reserved, true, Join(t.source));
    EmittedIfFields(joined, t.lastTermination, LastTermination(t.source));
    EmittedIfFields(EmittedIf(joined, t.lastTermination, LastTermination(t.source)), t.revision != "",
                    Rollout(t.source));
  }

  lemma {:induction false} OneEmitted(st: State, m: Marker)
    ensures EmittedIf(st, true, m) == Emitted(st, m)
  {
  }

  lemma {:induction false} WarnedFields(st: State)
    ensures var w := CapWarned(st);
            w == st.(capWarned := true, markers := w.markers, sends := w.sends) && w.sends <= st.sends
  {
  }

  /** A source that is not ongoing, after its refresh if there was one. */
  lemma {:induction false} AbsentOrIdlePlaced(known: State, t: Target)
    requires !Ongoing(known, t.source)
    ensures var (k, p) := (t.source, if Full(known, t.source) then CapWarned(known) else Started(known, t));
            if Full(known, k) then
              && p.sources == known.sources && p.live == known.live && p.active == known.active && p.capWarned
              && (known.active >= MAX_LOG_SOURCES || (k !in known.sources && |known.sources| >= MAX_TRACKED_SOURCES))
            else
              && k in p.sources && k in p.live
              && p.sources[k] == Followed(SourceCanceled, t.terminal,
                                          if k in known.sources then known.sources[k].revision else t.revision,
                                          false, true, true, false)
  {
    hide Started, CapWarned;
    StartedFields(known, t);
    WarnedFields(known);
  }

  /** What a target tells about itself. */
  lemma {:induction false} PlacedDue(st: State, t: Target, m: Marker)
    requires Names(m, t.source) && Placed(st, t).sends > 0
    ensures st.sends > 0 && Times(Placed(st, t), m) >= Times(st, m)
    ensures Due(st, t, Placed(st, t), m, Times(Placed(st, t), m) - Times(st, m))
  {
    hide Times, Refreshed, Started, CapWarned;
    var k := t.source;
    var known := if k in st.sources then Refreshed(st, t) else st;
    if k in st.sources { RefreshedFields(st, t); }
    StartedFields(known, t);
    WarnedFields(known);
    if !Ongoing(known, k) {
      if Full(known, k) { CapWarnedTimes(known, m); } else { StartedTimes(known, t, m); }
    }
    if k in st.sources { RefreshedTimes(st, t, m); }
  }

  /** A target tells nothing about another source, and leaves it as it is. */
  lemma {:induction false} PlacedApart(st: State, t: Target, k: Source)
    requires k != t.source
    ensures Apart(st, k, Placed(st, t))
    ensures Placed(st, t).sends > 0 ==> forall m :: Names(m, k) ==> Times(Placed(st, t), m) == Times(st, m)
  {
    hide Times, Refreshed, Started, CapWarned;
    var known := if t.source in st.sources then Refreshed(st, t) else st;
    if t.source in st.sources { RefreshedFields(st, t); }
    StartedFields(known, t);
    WarnedFields(known);
    if Placed(st, t).sends > 0 {
      forall m | Names(m, k) ensures Times(Placed(st, t), m) == Times(st, m) {
        if !Ongoing(known, t.source) {
          if Full(known, t.source) { CapWarnedTimes(known, m); } else { StartedTimes(known, t, m); }
        }
        if t.source in st.sources { RefreshedTimes(st, t, m); }
      }
    }
  }

  /** The cap is announced once, by the target that met it first. */
  lemma {:induction false} PlacedLimit(st: State, t: Target)
    ensures st.capWarned ==> Placed(st, t).capWarned
    ensures Placed(st, t).sends > 0 ==>
              Times(Placed(st, t), SourceLimit)
              == Times(st, SourceLimit) + (if Placed(st, t).capWarned && !st.capWarned then 1 else 0)
  {
    hide Times, Refreshed, Started, CapWarned;
    var k := t.source;
    var known := if k in st.sources then Refreshed(st, t) else st;
    if k in st.sources { RefreshedFields(st, t); }
    StartedFields(known, t);
    WarnedFields(known);
    if Placed(st, t).sends > 0 {
      if !Ongoing(known, k) {
        if Full(known, k) { CapWarnedTimes(known, SourceLimit); } else { StartedTimes(known, t, SourceLimit); }
      }
      if k in st.sources { RefreshedTimes(st, t, SourceLimit); }
    }
  }

  // ---- All targets ----

  predicate DistinctTargets(targets: seq<Target>) {
    forall i, j :: 0 <= i < j < |targets| ==> targets[i].source != targets[j].source
  }

  /** How many sources were tracked at some time in a reconciliation, when the table is walked. */
  lemma {:induction false} MoreTracked(a: State, b: State)
    requires a.sources.Keys <= b.sources.Keys
    ensures |a.sources| <= |b.sources|
  {
    SubsetSize(a.sources.Keys, b.sources.Keys);
    assert |a.sources| == |a.sources.Keys| && |b.sources| == |b.sources.Keys|;
  }

  lemma {:induction false} PlacedLater(st: State, t: Target, mid: State, p: State)
    requires PlacedEntry(st, t, mid, |mid.sources|) && Apart(mid, t.source, p)
    ensures PlacedEntry(st, t, p, |p.sources|)
  {
    MoreTracked(mid, p);
  }

  lemma {:induction false} PlacedEarlier(st: State, mid: State, t: Target, p: State, tracked: nat)
    requires Apart(st, t.source, mid) && PlacedEntry(mid, t, p, tracked)
    ensures PlacedEntry(st, t, p, tracked)
  {
  }

  lemma {:induction false} DueLater(st: State, t: Target, mid: State, p: State, m: Marker, n: nat)
    requires Due(st, t, mid, m, n) && Apart(mid, t.source, p)
    ensures Due(st, t, p, m, n)
  {
  }

  lemma {:induction false} DueEarlier(st: State, mid: State, t: Target, p: State, m: Marker, n: nat)
    requires Apart(st, t.source, mid) && Due(mid, t, p, m, n)
    ensures Due(st, t, p, m, n)
  {
  }

  lemma {:induction false} ApartTwice(a: State, b: State, c: State, k: Source)
    requires Apart(a, k, b) && Apart(b, k, c)
    ensures Apart(a, k, c)
  {
  }

  lemma {:induction false} ApartSelf(a: State, k: Source)
    ensures Apart(a, k, a)
  {
  }

  /** Only targets are touched. */
  lemma {:induction false} AllPlacedApart(st: State, targets: seq<Target>, k: Source, m: Marker)
    requires (forall i :: 0 <= i < |targets| ==> targets[i].source != k) && Names(m, k)
    ensures Apart(st, k, AllPlaced(st, targets))
    ensures AllPlaced(st, targets).sends > 0 ==> Times(AllPlaced(st, targets), m) == Times(st, m)
  {
    hide Apart, Placed, Times;
    if targets == [] {
      ApartSelf(st, k);
    } else {
      var n := |targets| - 1;
      var mid := AllPlaced(st, targets[..n]);
      AllPlacedApart(st, targets[..n], k, m);
      PlacedApart(mid, targets[n], k);
      ApartTwice(st, mid, AllPlaced(st, targets), k);
      ApartSends(mid, AllPlaced(st, targets), k);
    }
  }

  lemma {:induction false} ApartSends(a: State, b: State, k: Source)
    requires Apart(a, k, b)
    ensures b.sends > 0 ==> a.sends > 0
  {
  }

  /** The entry of each target and its markers, after all targets were placed. */
  lemma {:induction false} AllPlacedExact(st: State, targets: seq<Target>, i: nat, m: Marker)
    requires DistinctTargets(targets) && i < |targets| && Names(m, targets[i].source)
    ensures var p := AllPlaced(st, targets);
            && PlacedEntry(st, targets[i], p, |p.sources|)
            && (p.sends > 0 ==>
                  && st.sends > 0 && Times(p, m) >= Times(st, m)
                  && Due(st, targets[i], p, m, Times(p, m) - Times(st, m)))
    decreases |targets|
  {
    hide Apart, Placed, Times, PlacedEntry, Due, Names;
    var n := |targets| - 1;
    var mid, t, p := AllPlaced(st, targets[..n]), targets[i], AllPlaced(st, targets);
    if i == n {
      AllPlacedApart(st, targets[..n], t.source, m);
      ApartSends(st, mid, t.source);
      PlacedEntryHolds(mid, t);
      PlacedEarlier(st, mid, t, p, |p.sources|);
      if p.sends > 0 {
        PlacedDue(mid, t, m);
        DueEarlier(st, mid, t, p, m, Times(p, m) - Times(mid, m));
      }
    } else {
      AllPlacedExact(st, targets[..n], i, m);
      PlacedApart(mid, targets[n], t.source);
      ApartSends(mid, p, t.source);
      PlacedLater(st, t, mid, p);
      if p.sends > 0 { DueLater(st, t, mid, p, m, Times(mid, m) - Times(st, m)); }
    }
  }

  lemma {:induction false} AllPlacedRest(st: State, targets: seq<Target>)
    ensures var p := AllPlaced(st, targets);
            && p.pods == st.pods && p.done == st.done && p.finite == st.finite && p.sends <= st.sends
            && (st.capWarned ==> p.capWarned)
            && (p.sends > 0 ==>
                  Times(p, SourceLimit) == Times(st, SourceLimit) + (if p.capWarned && !st.capWarned then 1 else 0))
  {
    hide Placed, Times;
    if targets != [] {
      var n := |targets| - 1;
      var mid := AllPlaced(st, targets[..n]);
      AllPlacedRest(st, targets[..n]);
      PlacedLimit(mid, targets[n]);
      PlacedRest(mid, targets[n]);
    }
  }

  lemma {:induction false} PlacedRest(st: State, t: Target)
    ensures var p := Placed(st, t);
            p.pods == st.pods && p.done == st.done && p.finite == st.finite && p.sends <= st.sends
  {
    hide Refreshed, Started, CapWarned;
    var known := if t.source in st.sources then Refreshed(st, t) else st;
    if t.source in st.sources { RefreshedFields(st, t); }
    StartedFields(known, t);
    WarnedFields(known);
  }

  // ---- The walk over the table ----

  lemma {:induction false} RetiredFields(st: State, k: Source, m: Marker)
    ensures var r := Retired(st, k);
            && r == st.(sources := r.sources, markers := r.markers, sends := r.sends) && r.sends <= st.sends
            && (r.sends > 0 ==>
                  Times(r, m)
                  == Times(st, m)
                     + (if k in st.sources && !st.sources[k].wanted && !st.sources[k].left && m == Leave(k)
                        then 1 else 0))
  {
    hide Times, EmittedIf;
    if k in st.sources && !st.sources[k].wanted {
      var let := Let(st, k);
      EmittedIfFields(let, !st.sources[k].left, Leave(k));
      SameMarkers(let, st, m);
      if Retired(st, k).sends > 0 { EmittedIfTimes(let, !st.sources[k].left, Leave(k), m); }
    }
  }

  lemma {:induction false} SameMarkers(a: State, b: State, m: Marker)
    requires a.markers == b.markers
    ensures Times(a, m) == Times(b, m)
  {
  }

  /** A source is told to have left once, however often the walk comes by. */
  lemma {:induction false} AllRetiredTimes(st: State, order: seq<Source>, k: Source, m: Marker)
    requires Names(m, k)
    ensures var r := AllRetired(st, order);
            && r == st.(sources := r.sources, markers := r.markers, sends := r.sends) && r.sends <= st.sends
            && (r.sends > 0 ==>
                  Times(r, m)
                  == Times(st, m)
                     + (if && k in order && k in st.sources && !st.sources[k].wanted && !st.sources[k].left
                           && m == Leave(k)
                        then 1 else 0))
  {
    if order != [] {
      hide Times, Retired;
      var n := |order| - 1;
      var mid := AllRetired(st, order[..n]);
      AllRetiredTimes(st, order[..n], k, m);
      AllRetiredEffect(st, order[..n], k);
      RetiredFields(mid, order[n], m);
      assert order == order[..n] + [order[n]];
    }
  }

  lemma {:induction false} AllRetiredLimit(st: State, order: seq<Source>)
    ensures AllRetired(st, order).sends > 0 ==> Times(AllRetired(st, order), SourceLimit) == Times(st, SourceLimit)
    ensures AllRetired(st, order).sends <= st.sends
  {
    if order != [] {
      hide Times, Retired;
      var n := |order| - 1;
      AllRetiredLimit(st, order[..n]);
      RetiredFields(AllRetired(st, order[..n]), order[n], SourceLimit);
    }
  }

  // ---- The reconciliation ----

  lemma {:induction false} UnwantedEntry(st: State, t: Target, p: State, tracked: nat, m: Marker, n: nat)
    ensures PlacedEntry(Unwanted(st), t, p, tracked) ==> PlacedEntry(st, t, p, tracked)
    ensures Due(Unwanted(st), t, p, m, n) ==> Due(st, t, p, m, n)
    ensures Times(Unwanted(st), m) == Times(st, m) && Unwanted(st).sends == st.sends
  {
  }

  /** What the walk leaves of a wanted source, and of one that was not tracked. */
  lemma {:induction false} EntryWalked(st: State, t: Target, p: State, r: State, tracked: nat, more: nat, m: Marker,
                                       n: nat)
    requires PlacedEntry(st, t, p, tracked) && tracked <= more
    requires r == p.(sources := r.sources, markers := r.markers, sends := r.sends)
    requires t.source in p.sources ==> p.sources[t.source].wanted
    requires Departed(p, t.source, r)
    ensures PlacedEntry(st, t, r, more)
    ensures Due(st, t, p, m, n) ==> Due(st, t, r, m, n)
  {
  }

  lemma {:induction false} InKeys(targets: seq<Target>, t: Target)
    requires t in targets
    ensures t.source in Keys(targets)
  {
  }

  /** Every source that was tracked meanwhile was tracked before or is afterwards. */
  lemma {:induction false} TrackedMeanwhile(st: State, targets: seq<Target>, order: seq<Source>)
    requires Walks(order, st, targets)
    ensures |AllPlaced(Unwanted(st), targets).sources|
         <= |st.sources.Keys + Reconciled(st, targets, order).sources.Keys|
  {
    var p, r := AllPlaced(Unwanted(st), targets), Reconciled(st, targets, order);
    assert Unwanted(st).sources.Keys == st.sources.Keys;
    forall k | k in p.sources ensures k in st.sources.Keys + r.sources.Keys {
      AllPlacedAt(Unwanted(st), targets, k);
      AllRetiredEffect(p, order, k);
    }
    SubsetSize(p.sources.Keys, st.sources.Keys + r.sources.Keys);
    assert |p.sources| == |p.sources.Keys|;
  }

  lemma {:induction false} ReconciledEntry(st: State, targets: seq<Target>, order: seq<Source>, i: nat)
    requires Walks(order, st, targets) && DistinctTargets(targets) && i < |targets|
    ensures var (t, r) := (targets[i], Reconciled(st, targets, order));
            PlacedEntry(st, t, r, |st.sources.Keys + r.sources.Keys|)
  {
    hide PlacedEntry, Due, Times, Unwanted, AllPlaced, AllRetired, Departed, Names;
    var t, u, r := targets[i], Unwanted(st), Reconciled(st, targets, order);
    var p, k := AllPlaced(u, targets), targets[i].source;
    JoinNames(k);
    AllPlacedExact(u, targets, i, Join(k));
    TrackedMeanwhile(st, targets, order);
    UnwantedEntry(st, t, p, |p.sources|, Join(k), 0);
    WalkedTarget(st, targets, order, i);
    AllRetiredTimes(p, order, k, Join(k));
    EntryWalked(st, t, p, r, |p.sources|, |st.sources.Keys + r.sources.Keys|, Join(k), 0);
  }

  lemma {:induction false} JoinNames(k: Source)
    ensures Names(Join(k), k)
  {
  }

  lemma {:induction false} WalkedTarget(st: State, targets: seq<Target>, order: seq<Source>, i: nat)
    requires Walks(order, st, targets) && i < |targets|
    ensures var (p, k) := (AllPlaced(Unwanted(st), targets), targets[i].source);
            (k in p.sources ==> p.sources[k].wanted) && Departed(p, k, Reconciled(st, targets, order))
  {
    hide Departed, Unwanted, AllPlaced, AllRetired;
    InKeys(targets, targets[i]);
    AllPlacedAt(Unwanted(st), targets, targets[i].source);
    TargetWalked(AllPlaced(Unwanted(st), targets), order, targets[i].source);
  }

  lemma {:induction false} ReconciledMarkers(st: State, targets: seq<Target>, order: seq<Source>, i: nat, m: Marker)
    requires Walks(order, st, targets) && DistinctTargets(targets) && i < |targets|
    requires Names(m, targets[i].source) && Reconciled(st, targets, order).sends > 0
    ensures var (t, r) := (targets[i], Reconciled(st, targets, order));
            Times(r, m) >= Times(st, m) && Due(st, t, r, m, Times(r, m) - Times(st, m))
  {
    hide PlacedEntry, Due, Times, Unwanted, AllPlaced, AllRetired, Departed, Names;
    var t, u, r := targets[i], Unwanted(st), Reconciled(st, targets, order);
    var p, k := AllPlaced(u, targets), targets[i].source;
    AllPlacedExact(u, targets, i, m);
    WalkedTarget(st, targets, order, i);
    AllRetiredTimes(p, order, k, m);
    WantedTellsNothing(p, order, k, m);
    var n := Times(p, m) - Times(u, m);
    UnwantedEntry(st, t, p, |p.sources|, m, n);
    EntryWalked(st, t, p, r, |p.sources|, |p.sources|, m, n);
  }

  lemma {:induction false} WantedTellsNothing(p: State, order: seq<Source>, k: Source, m: Marker)
    requires Names(m, k) && (k in p.sources ==> p.sources[k].wanted)
    ensures AllRetired(p, order).sends > 0 ==> Times(AllRetired(p, order), m) == Times(p, m)
    ensures AllRetired(p, order).sends <= p.sends
  {
    hide AllRetired, Times;
    AllRetiredTimes(p, order, k, m);
  }

  /** Each target after a reconciliation: an ongoing source has what its pod says now and is otherwise as it was;
      any other is started afresh, or stays unserved because the cap on workers or on sources was met. While
      deliveries succeed it tells exactly what is due: its end, a changed revision, and its start. */
  lemma {:induction false} ReconciledTarget(st: State, targets: seq<Target>, order: seq<Source>, i: nat, m: Marker)
    requires Walks(order, st, targets) && DistinctTargets(targets) && i < |targets|
    ensures var (t, r) := (targets[i], Reconciled(st, targets, order));
            && PlacedEntry(st, t, r, |st.sources.Keys + r.sources.Keys|)
            && (r.sends > 0 && Names(m, t.source) ==>
                  Times(r, m) >= Times(st, m) && Due(st, t, r, m, Times(r, m) - Times(st, m)))
  {
    hide PlacedEntry, Due, Times, Reconciled;
    ReconciledEntry(st, targets, order, i);
    if Reconciled(st, targets, order).sends > 0 && Names(m, targets[i].source) {
      ReconciledMarkers(st, targets, order, i, m);
    }
  }

  lemma {:induction false} TargetWalked(p: State, order: seq<Source>, k: Source)
    requires k in p.sources ==> p.sources[k].wanted && k in order
    ensures Departed(p, k, AllRetired(p, order))
  {
    AllRetiredEffect(p, order, k);
  }

  /** Every other source: a running worker is cancelled, anything else is forgotten; while deliveries succeed
      it is told once that it left. */
  lemma {:induction false} ReconciledOther(st: State, targets: seq<Target>, order: seq<Source>, k: Source, m: Marker)
    requires Walks(order, st, targets) && k !in Keys(targets)
    ensures var r := Reconciled(st, targets, order);
            && (k in r.sources <==> k in st.sources && st.sources[k].running)
            && (k in r.sources ==>
                  var (s, now) := (st.sources[k], r.sources[k]);
                  now == Followed(s.outcome, s.terminal, s.revision, true, true, false, true))
            && (k in r.live <==> k in st.live)
            && (r.sends > 0 && Names(m, k) ==>
                  Times(r, m)
                  == Times(st, m) + (if m == Leave(k) && k in st.sources && !st.sources[k].left then 1 else 0))
  {
    hide Times, AllPlaced, AllRetired, Apart;
    var u, r := Unwanted(st), Reconciled(st, targets, order);
    var p := AllPlaced(u, targets);
    var told := if Names(m, k) then m else Join(k);
    forall j | 0 <= j < |targets| ensures targets[j].source != k { InKeys(targets, targets[j]); }
    AllPlacedApart(u, targets, k, told);
    ApartLive(u, p, k);
    AllPlacedAt(u, targets, k);
    AllRetiredTimes(p, order, k, told);
    AllRetiredEffect(p, order, k);
    SameMarkers(u, st, told);
  }

  lemma {:induction false} ApartLive(a: State, b: State, k: Source)
    requires Apart(a, k, b)
    ensures k in b.live <==> k in a.live
  {
  }

  /** Nothing else changes, and the cap is announced at most once in a session. */
  lemma {:induction false} ReconciledRest(st: State, targets: seq<Target>, order: seq<Source>)
    ensures var r := Reconciled(st, targets, order);
            && r.pods == st.pods && r.done == st.done && r.finite == st.finite && r.sends <= st.sends
            && (st.capWarned ==> r.capWarned)
            && (r.sends > 0 ==>
                  Times(r, SourceLimit) == Times(st, SourceLimit) + (if r.capWarned && !st.capWarned then 1 else 0))
  {
    hide Times, AllPlaced, AllRetired;
    var u := Unwanted(st);
    var p := AllPlaced(u, targets);
    var k := Source("", "", "", 0);
    AllPlacedRest(u, targets);
    AllRetiredTimes(p, order, k, Join(k));
    AllRetiredLimit(p, order);
    SameMarkers(u, st, SourceLimit);
  }

  // ---- A completion ----

  /** The source of the oldest completion was running. It is forgotten if it is no longer wanted, and otherwise
      stopped with its outcome; no other source moves; and a completed one is told so. */
  lemma {:induction false} FinishedExactly(st: State)
    requires Valid(st) && st.done != []
    ensures st.done[0].source in st.sources && st.sources[st.done[0].source].running
    ensures var (k, outcome, f) := (st.done[0].source, st.done[0].outcome, Finished(st));
            var s := st.sources[k];
            && f.sources == (if s.wanted
                             then st.sources[k := Followed(outcome, s.terminal, s.revision, s.left, false, true,
                                                           s.canceled)]
                             else st.sources - {k})
            && f.active == st.active - 1 && f.done == st.done[1..] && f.live == st.live && f.pods == st.pods
            && f.capWarned == st.capWarned
            && (f.sends > 0 ==> f.markers == st.markers + (if outcome == SourceCompleted then [Complete(k)] else []))
  {
    hide Finished, Valid, Accounting;
    ValidAccounting(st);
    FinishedKnown(st);
    FinishedFields(st);
  }

  lemma {:induction false} FinishedFields(st: State)
    requires st.done != [] && st.done[0].source in st.sources
    ensures var (k, outcome, f) := (st.done[0].source, st.done[0].outcome, Finished(st));
            var s := st.sources[k];
            && f.sources == (if s.wanted
                             then st.sources[k := Followed(outcome, s.terminal, s.revision, s.left, false, true,
                                                           s.canceled)]
                             else st.sources - {k})
            && f.active == st.active - 1 && f.done == st.done[1..] && f.live == st.live && f.pods == st.pods
            && f.capWarned == st.capWarned
            && (f.sends > 0 ==> f.markers == st.markers + (if outcome == SourceCompleted then [Complete(k)] else []))
  {
    hide EmittedIf;
    var k, rest := st.done[0].source, st.(done := st.done[1..]);
    EmittedIfFields(rest, st.done[0].outcome == SourceCompleted, Complete(k));
    EmittedIfMarkers(rest, st.done[0].outcome == SourceCompleted, Complete(k));
  }

  lemma {:induction false} ValidAccounting(st: State)
    requires Valid(st)
    ensures Accounting(st)
  {
  }

  lemma {:induction false} EmittedIfMarkers(st: State, when: bool, m: Marker)
    ensures EmittedIf(st, when, m).sends > 0 ==>
              EmittedIf(st, when, m).markers == st.markers + (if when then [m] else [])
  {
    assert st.markers + [] == st.markers;
  }

  // ---- The pods ----

  /** Exactly when the cap is announced by a change of the pods. */
  predicate Warns(st: State, now: State, when: bool) {
    && (now.capWarned <==> st.capWarned || when)
    && (now.sends > 0 ==> now.markers == st.markers + (if when && !st.capWarned then [SourceLimit] else []))
  }

  /** One watch event: the pod is in the table afterwards exactly if it was not deleted, is selected, and had a
      place in it; no other pod moves; and the lack of a place is announced. */
  lemma {:induction false} PodChangedExactly(st: State, p: Pod, deleted: bool)
    ensures var now := PodChanged(st, p, deleted);
            var room := p.name in st.pods || |st.pods| < MAX_LOG_PODS;
            && (p.name in now.pods <==> !deleted && p.selected && room)
            && (p.name in now.pods ==> now.pods[p.name] == p)
            && (forall n :: n != p.name ==>
                  (n in now.pods <==> n in st.pods) && (n in now.pods ==> now.pods[n] == st.pods[n]))
            && Warns(st, now, !deleted && p.selected && !room)
            && now.sources == st.sources && now.done == st.done && now.live == st.live && now.active == st.active
  {
    hide CapWarned, Warns;
    WarnedFields(st);
    CapWarns(st, PodChanged(st, p, deleted).pods);
  }

  lemma {:induction false} CapWarns(st: State, pods: map<string, Pod>)
    ensures Warns(st, CapWarned(st), true) && Warns(st, st.(pods := pods), false)
    ensures Warns(st, CapWarned(st).(pods := pods), true)
  {
    assert st.markers + [] == st.markers;
  }

  /** The selected pods of the first `cut` of a list are in the table, the last of each name; the rest of the
      list is left out only when the table is full and the next one is selected too. */
  ghost predicate FirstPods(list: seq<Pod>, cut: nat, before: map<string, Pod>, pods: map<string, Pod>)
    requires cut <= |list|
  {
    && (forall n :: n in pods <==> n in before || exists i :: 0 <= i < cut && list[i].selected && list[i].name == n)
    && (forall n :: n in pods ==>
          || (n in before && pods[n] == before[n]
              && forall i :: 0 <= i < cut && list[i].selected ==> list[i].name != n)
          || exists i :: 0 <= i < cut && list[i].selected && list[i] == pods[n] && list[i].name == n
                         && forall j :: i < j < cut && list[j].selected ==> list[j].name != n)
    && (cut < |list| ==> |pods| >= MAX_LOG_PODS && list[cut].selected)
  }

  lemma {:induction false} IngestExactly(list: seq<Pod>, next: map<string, Pod>) returns (cut: nat)
    ensures cut <= |list|
    ensures var (pods, stopped) := Ingest(list, next);
            FirstPods(list, cut, next, pods) && (stopped <==> cut < |list|)
    decreases |list|
  {
    hide FirstPods;
    if list == [] || (list[0].selected && |next| >= MAX_LOG_PODS) {
      cut := 0;
      FirstPodsNone(list, next);
    } else {
      var p := list[0];
      var more := if p.selected then next[p.name := p] else next;
      cut := IngestExactly(list[1..], more);
      FirstPodsCons(list, cut, next, Ingest(list, next).0);
      cut := cut + 1;
    }
  }

  lemma {:induction false} FirstPodsNone(list: seq<Pod>, next: map<string, Pod>)
    requires list != [] ==> list[0].selected && |next| >= MAX_LOG_PODS
    ensures FirstPods(list, 0, next, next)
  {
  }

  lemma {:induction false} FirstPodsCons(list: seq<Pod>, cut: nat, before: map<string, Pod>, pods: map<string, Pod>)
    requires list != [] && cut <= |list| - 1
    requires FirstPods(list[1..], cut, if list[0].selected then before[list[0].name := list[0]] else before, pods)
    ensures FirstPods(list, cut + 1, before, pods)
  {
    var p, rest := list[0], list[1..];
    var more := if p.selected then before[p.name := p] else before;
    forall n
      ensures n in pods <==> n in before || exists i :: 0 <= i < cut + 1 && list[i].selected && list[i].name == n
    {
      if i :| 0 <= i < cut && rest[i].selected && rest[i].name == n {
        assert list[i + 1] == rest[i];
      }
      if i :| 0 <= i < cut + 1 && list[i].selected && list[i].name == n {
        assert i > 0 ==> rest[i - 1] == list[i];
      }
    }
    forall n | n in pods
      ensures || (n in before && pods[n] == before[n]
                  && forall i :: 0 <= i < cut + 1 && list[i].selected ==> list[i].name != n)
              || exists i :: 0 <= i < cut + 1 && list[i].selected && list[i] == pods[n] && list[i].name == n
                             && forall j :: i < j < cut + 1 && list[j].selected ==> list[j].name != n
    {
      if i :| 0 <= i < cut && rest[i].selected && rest[i] == pods[n] && rest[i].name == n
              && forall j :: i < j < cut && rest[j].selected ==> rest[j].name != n {
        assert list[i + 1] == rest[i];
        forall j | i + 1 < j < cut + 1 && list[j].selected ensures list[j].name != n {
          assert rest[j - 1] == list[j];
        }
      } else {
        forall j | 0 < j < cut + 1 && list[j].selected ensures list[j].name != n {
          assert rest[j - 1] == list[j];
        }
        assert n in more && pods[n] == more[n];
        if p.selected && p.name == n { assert list[0] == pods[n]; }
      }
    }
  }

  /** A pod list: the table holds the selected pods of it, up to the first that found it full; that, and a list
      that goes on, is announced. */
  lemma {:induction false} ListedExactly(st: State, list: seq<Pod>, truncated: bool) returns (cut: nat)
    ensures cut <= |list|
    ensures var now := Listed(st, list, truncated);
            && FirstPods(list, cut, map[], now.pods) && Warns(st, now, cut < |list| || truncated)
            && now.sources == st.sources && now.done == st.done && now.live == st.live && now.active == st.active
  {
    hide CapWarned, Warns, FirstPods, Ingest;
    cut := IngestExactly(list, map[]);
    var (pods, stopped) := Ingest(list, map[]);
    WarnedFields(st);
    CapWarns(st, pods);
    WarnedFields(CapWarned(st));
    WarnedOnce(st);
  }

  lemma {:induction false} WarnedOnce(st: State)
    ensures CapWarned(CapWarned(st)) == CapWarned(st)
  {
  }
}
