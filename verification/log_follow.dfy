/** The single-owner loop that follows the log sources of a set of pods: which sources run, which are
    wanted, and what the join and leave markers say about them. */
module LogFollow {
  import opened Wrappers
  import opened LogSources

  const MAX_LOG_SOURCES: nat := 32
  const MAX_TRACKED_SOURCES: nat := 256
  const MAX_LOG_PODS: nat := 128

  /** The identity of one container generation of one pod. */
  datatype Source = Source(pod: string, uid: string, container: string, generation: int)

  /** What the pod statuses ask for: a source, and what to record about it. */
  datatype Target = Target(source: Source, terminal: bool, revision: string, lastTermination: bool)

  datatype Pod = Pod(name: string, uid: string, selected: bool)

  /** `canceled` says that the context of the current worker was cancelled. */
  datatype Followed = Followed(outcome: Outcome, terminal: bool, revision: string,
                               left: bool, running: bool, wanted: bool, canceled: bool)

  datatype Done = Done(source: Source, outcome: Outcome)

  datatype Marker =
    | Join(source: Source)
    | Leave(source: Source)
    | Complete(source: Source)
    | Terminal(source: Source)
    | Rollout(source: Source)
    | LastTermination(source: Source)
    | SourceLimit

  // ---- Join and leave markers of one source ----

  datatype Presence = Absent | Present | Broken

  function After(p: Presence, m: Marker, k: Source): Presence {
    if m == Join(k) then (if p == Absent then Present else Broken)
    else if m == Leave(k) then (if p == Present then Absent else Broken)
    else p
  }

  function PresenceOf(markers: seq<Marker>, k: Source): Presence {
    if markers == [] then Absent
    else After(PresenceOf(markers[..|markers| - 1], k), markers[|markers| - 1], k)
  }

  /** The join and leave markers of `k`, true for a join. */
  function JoinsAndLeaves(markers: seq<Marker>, k: Source): seq<bool> {
    if markers == [] then []
    else
      var m := markers[|markers| - 1];
      JoinsAndLeaves(markers[..|markers| - 1], k)
      + (if m == Join(k) then [true] else if m == Leave(k) then [false] else [])
  }

  lemma {:induction false} PresenceStep(markers: seq<Marker>, m: Marker, k: Source)
    ensures PresenceOf(markers + [m], k) == After(PresenceOf(markers, k), m, k)
  {
    assert (markers + [m])[..|markers + [m]| - 1] == markers;
  }

  /** An unbroken presence means join, leave, join, leave, and so on. */
  lemma {:induction false} UnbrokenAlternates(markers: seq<Marker>, k: Source)
    requires PresenceOf(markers, k) != Broken
    ensures var jl := JoinsAndLeaves(markers, k);
            && (forall i :: 0 <= i < |jl| ==> jl[i] == (i % 2 == 0))
            && (PresenceOf(markers, k) == Present <==> |jl| % 2 == 1)
  {
    if markers != [] {
      UnbrokenAlternates(markers[..|markers| - 1], k);
    }
  }

  // ---- Sets of sources ----

  function Running(sources: map<Source, Followed>): set<Source> {
    set k | k in sources && sources[k].running
  }

  function Keys(targets: seq<Target>): set<Source> {
    set t | t in targets :: t.source
  }

  function Reported(done: seq<Done>): set<Source> {
    set d | d in done :: d.source
  }

  predicate Distinct(done: seq<Done>) {
    forall i, j :: 0 <= i < j < |done| ==> done[i].source != done[j].source
  }

  lemma {:induction false} DistinctCount(done: seq<Done>)
    requires Distinct(done)
    ensures |Reported(done)| == |done|
  {
    if done != [] {
      var rest := done[1..];
      DistinctCount(rest);
      forall k | k in Reported(done) ensures k in Reported(rest) + {done[0].source} {
        var d :| d in done && d.source == k;
        assert d == done[0] || d in rest;
      }
      assert Reported(done) == Reported(rest) + {done[0].source};
    }
  }

  // ---- The state of the loop, as a value ----

  /** `done` is the completion channel, `live` the workers that have not finished, `markers` what
      reached the output channel, and `sends` how many deliveries succeed before the context is
      done; it is 0 once the context is done. */
  datatype State = State(finite: bool, pods: map<string, Pod>, sources: map<Source, Followed>, active: int,
                         capWarned: bool, done: seq<Done>, live: set<Source>, markers: seq<Marker>, sends: nat)

  function Initial(finite: bool, sends: nat): State {
    State(finite, map[], map[], 0, false, [], {}, [], sends)
  }

  function Emitted(st: State, m: Marker): State {
    if st.sends == 0 then st else st.(markers := st.markers + [m], sends := st.sends - 1)
  }

  function EmittedIf(st: State, when: bool, m: Marker): State {
    if when then Emitted(st, m) else st
  }

  function CapWarned(st: State): State {
    if st.capWarned then st else Emitted(st.(capWarned := true), SourceLimit)
  }

  /** Reserves the slot of a new worker; the join marker follows. */
  function Reserved(st: State, t: Target): State {
    var revision := if t.source in st.sources then st.sources[t.source].revision else t.revision;
    st.(sources := st.sources[t.source := Followed(SourceCanceled, t.terminal, revision, false, true, true, false)],
        active := st.active + 1, live := st.live + {t.source})
  }

  function Started(st: State, t: Target): State {
    var joined := Emitted(Reserved(st, t), Join(t.source));
    EmittedIf(EmittedIf(joined, t.lastTermination, LastTermination(t.source)), t.revision != "", Rollout(t.source))
  }

  function Kept(st: State, t: Target): State
    requires t.source in st.sources
  {
    st.(sources := st.sources[t.source :=
          st.sources[t.source].(wanted := true, terminal := t.terminal, revision := t.revision)])
  }

  /** A target whose source is already tracked. */
  function Refreshed(st: State, t: Target): State
    requires t.source in st.sources
  {
    var s := st.sources[t.source];
    EmittedIf(EmittedIf(Kept(st, t), t.terminal && !s.terminal, Terminal(t.source)),
              t.revision != s.revision, Rollout(t.source))
  }

  /** A worker runs, or the source has ended for good. */
  predicate Served(st: State, k: Source) {
    k in st.sources && (st.sources[k].running || st.sources[k].outcome != SourceCanceled)
  }

  predicate Full(st: State, k: Source) {
    st.active >= MAX_LOG_SOURCES || (k !in st.sources && |st.sources| >= MAX_TRACKED_SOURCES)
  }

  /** One container of one tracked pod. */
  function Placed(st: State, t: Target): State {
    var known := if t.source in st.sources then Refreshed(st, t) else st;
    if Served(known, t.source) then known
    else if Full(known, t.source) then CapWarned(known)
    else Started(known, t)
  }

  function AllPlaced(st: State, targets: seq<Target>): State {
    if targets == [] then st else Placed(AllPlaced(st, targets[..|targets| - 1]), targets[|targets| - 1])
  }

  function Unwanted(st: State): State {
    st.(sources := map k | k in st.sources :: st.sources[k].(wanted := false))
  }

  function Let(st: State, k: Source): State
    requires k in st.sources
  {
    var s := st.sources[k];
    st.(sources := if s.running then st.sources[k := s.(canceled := true, left := true)] else st.sources - {k})
  }

  /** A source that is no longer wanted is cancelled, forgotten once its worker is gone, and marked
      as left once. */
  function Retired(st: State, k: Source): State {
    if k !in st.sources || st.sources[k].wanted then st
    else EmittedIf(Let(st, k), !st.sources[k].left, Leave(k))
  }

  function AllRetired(st: State, order: seq<Source>): State {
    if order == [] then st else Retired(AllRetired(st, order[..|order| - 1]), order[|order| - 1])
  }

  /** A reconciliation; `order` is the order in which the source table happens to be walked. */
  function Reconciled(st: State, targets: seq<Target>, order: seq<Source>): State {
    AllRetired(AllPlaced(Unwanted(st), targets), order)
  }

  ghost predicate Walks(order: seq<Source>, st: State, targets: seq<Target>) {
    forall k :: k in AllPlaced(Unwanted(st), targets).sources ==> k in order
  }

  /** Taking the oldest completion off the channel. */
  function Finished(st: State): State
    requires st.done != []
  {
    var k, outcome, rest := st.done[0].source, st.done[0].outcome, st.(done := st.done[1..]);
    if k !in st.sources then rest
    else
      var s := st.sources[k];
      var told := EmittedIf(rest, outcome == SourceCompleted, Complete(k));
      told.(active := st.active - 1,
            sources := if s.wanted then st.sources[k := s.(outcome := outcome, running := false)]
                       else st.sources - {k})
  }

  // ---- The invariants ----

  ghost predicate Accounting(st: State) {
    && st.active == |Running(st.sources)| <= MAX_LOG_SOURCES
    && |st.sources| <= MAX_TRACKED_SOURCES && |st.pods| <= MAX_LOG_PODS
    && Distinct(st.done) && st.live !! Reported(st.done)
    && st.live + Reported(st.done) <= Running(st.sources)
    && (st.sends > 0 ==> st.live + Reported(st.done) == Running(st.sources))
  }

  ghost predicate Attendance(st: State) {
    && (forall k :: PresenceOf(st.markers, k) != Broken)
    && (st.sends > 0 ==> forall k :: PresenceOf(st.markers, k) == Present <==> k in st.sources && !st.sources[k].left)
  }

  /** Only a source that was marked as left can have a cancelled worker or be due for a restart. */
  ghost predicate Causes(st: State) {
    st.sends > 0 ==>
      && (forall k :: k in st.sources ==> st.sources[k].canceled ==> st.sources[k].left)
      && (forall k :: k in st.sources ==>
            !st.sources[k].running && st.sources[k].outcome == SourceCanceled ==> st.sources[k].left)
      && (forall d :: d in st.done ==> d.outcome == SourceCanceled ==>
            d.source in st.sources && st.sources[d.source].canceled)
  }

  ghost predicate Settled(st: State) {
    st.sends > 0 ==> forall k :: k in st.sources ==> !st.sources[k].wanted ==> st.sources[k].left
  }

  ghost predicate Core(st: State) { Accounting(st) && Attendance(st) && Causes(st) }

  ghost predicate Valid(st: State) { Core(st) && Settled(st) }

  // ---- Each building block keeps them ----

  lemma {:induction false} EmittedAccounting(st: State, m: Marker)
    requires Accounting(st)
    ensures Accounting(Emitted(st, m))
  {
  }

  lemma {:induction false} EmittedAttendance(st: State, m: Marker)
    requires Attendance(st) && !m.Join? && !m.Leave?
    ensures Attendance(Emitted(st, m))
  {
    forall k { PresenceStep(st.markers, m, k); }
  }

  lemma {:induction false} EmittedCauses(st: State, m: Marker)
    requires Causes(st)
    ensures Causes(Emitted(st, m))
  {
  }

  lemma {:induction false} EmittedCore(st: State, m: Marker)
    requires Core(st) && !m.Join? && !m.Leave?
    ensures Core(Emitted(st, m))
    ensures Settled(st) ==> Settled(Emitted(st, m))
  {
    EmittedAccounting(st, m);
    EmittedAttendance(st, m);
    EmittedCauses(st, m);
  }

  lemma {:induction false} SameRunning(a: map<Source, Followed>, b: map<Source, Followed>)
    requires forall k :: (k in a && a[k].running) <==> (k in b && b[k].running)
    ensures Running(a) == Running(b)
  {
  }

  lemma {:induction false} RunningGrows(sources: map<Source, Followed>, k: Source, s: Followed)
    requires k !in Running(sources) && s.running
    ensures Running(sources[k := s]) == Running(sources) + {k}
    ensures |Running(sources[k := s])| == |Running(sources)| + 1
    ensures |sources[k := s]| == if k in sources then |sources| else |sources| + 1
  {
    assert Running(sources[k := s]) == Running(sources) + {k};
    if k in sources { assert sources[k := s].Keys == sources.Keys; }
    assert |sources[k := s]| == |sources[k := s].Keys| && |sources| == |sources.Keys|;
  }

  lemma {:induction false} ReservedAccounting(st: State, t: Target)
    requires Accounting(st) && !Served(st, t.source) && !Full(st, t.source)
    ensures Accounting(Reserved(st, t))
  {
    var k, next := t.source, Reserved(st, t);
    assert k !in Running(st.sources);
    RunningGrows(st.sources, k, next.sources[k]);
    assert Running(next.sources) == Running(st.sources) + {k} && |next.sources| <= MAX_TRACKED_SOURCES;
    assert next.live !! Reported(st.done);
  }

  lemma {:induction false} JoinedAccounting(st: State, t: Target)
    requires Accounting(st) && !Served(st, t.source) && !Full(st, t.source)
    ensures Accounting(Emitted(Reserved(st, t), Join(t.source)))
  {
    hide Accounting, Reserved;
    ReservedAccounting(st, t);
    EmittedAccounting(Reserved(st, t), Join(t.source));
  }

  lemma {:induction false} JoinedAttendance(st: State, t: Target)
    requires Attendance(st) && Causes(st) && !Served(st, t.source)
    ensures Attendance(Emitted(Reserved(st, t), Join(t.source)))
  {
    forall k { PresenceStep(st.markers, Join(t.source), k); }
  }

  lemma {:induction false} JoinedCauses(st: State, t: Target)
    requires Accounting(st) && Causes(st) && !Served(st, t.source)
    ensures Causes(Emitted(Reserved(st, t), Join(t.source)))
  {
    var next := Reserved(st, t);
    forall d | d in st.done ensures d.source != t.source {
      assert d.source in Reported(st.done);
      assert t.source !in Running(st.sources);
    }
  }

  lemma {:induction false} StartedCore(st: State, t: Target)
    requires Core(st) && !Served(st, t.source) && !Full(st, t.source)
    ensures Core(Started(st, t))
  {
    JoinedAccounting(st, t);
    JoinedAttendance(st, t);
    JoinedCauses(st, t);
    var joined := Emitted(Reserved(st, t), Join(t.source));
    EmittedCore(joined, LastTermination(t.source));
    EmittedCore(EmittedIf(joined, t.lastTermination, LastTermination(t.source)), Rollout(t.source));
  }

  lemma {:induction false} KeptAccounting(st: State, t: Target)
    requires Accounting(st) && t.source in st.sources
    ensures Accounting(Kept(st, t))
  {
    SameRunning(st.sources, Kept(st, t).sources);
    assert Kept(st, t).sources.Keys == st.sources.Keys;
  }

  lemma {:induction false} KeptAttendance(st: State, t: Target)
    requires Attendance(st) && t.source in st.sources
    ensures Attendance(Kept(st, t))
  {
  }

  lemma {:induction false} KeptCauses(st: State, t: Target)
    requires Causes(st) && t.source in st.sources
    ensures Causes(Kept(st, t))
  {
  }

  lemma {:induction false} KeptCore(st: State, t: Target)
    requires Core(st) && t.source in st.sources
    ensures Core(Kept(st, t))
  {
    hide Accounting, Attendance, Causes, Kept;
    KeptAccounting(st, t);
    KeptAttendance(st, t);
    KeptCauses(st, t);
  }

  lemma {:induction false} RefreshedCore(st: State, t: Target)
    requires Core(st) && t.source in st.sources
    ensures Core(Refreshed(st, t))
  {
    hide Core, Kept, Emitted, Settled;
    KeptCore(st, t);
    var kept, s := Kept(st, t), st.sources[t.source];
    EmittedCore(kept, Terminal(t.source));
    EmittedCore(EmittedIf(kept, t.terminal && !s.terminal, Terminal(t.source)), Rollout(t.source));
  }

  lemma {:induction false} CapWarnedCore(st: State)
    requires Core(st)
    ensures Core(CapWarned(st))
    ensures Settled(st) ==> Settled(CapWarned(st))
  {
    var warned := st.(capWarned := true);
    assert Core(warned);
    EmittedCore(warned, SourceLimit);
  }

  lemma {:induction false} PlacedCore(st: State, t: Target)
    requires Core(st)
    ensures Core(Placed(st, t))
  {
    var known := if t.source in st.sources then Refreshed(st, t) else st;
    if t.source in st.sources { RefreshedCore(st, t); }
    if !Served(known, t.source) {
      if Full(known, t.source) {
        CapWarnedCore(known);
      } else {
        StartedCore(known, t);
      }
    }
  }

  lemma {:induction false} AllPlacedCore(st: State, targets: seq<Target>)
    requires Core(st)
    ensures Core(AllPlaced(st, targets))
  {
    if targets != [] {
      AllPlacedCore(st, targets[..|targets| - 1]);
      PlacedCore(AllPlaced(st, targets[..|targets| - 1]), targets[|targets| - 1]);
    }
  }

  lemma {:induction false} UnwantedAccounting(st: State)
    requires Accounting(st)
    ensures Accounting(Unwanted(st))
  {
    SameRunning(st.sources, Unwanted(st).sources);
    assert Unwanted(st).sources.Keys == st.sources.Keys;
    assert |Unwanted(st).sources| == |st.sources|;
  }

  lemma {:induction false} UnwantedCore(st: State)
    requires Core(st)
    ensures Core(Unwanted(st))
  {
    UnwantedAccounting(st);
    assert Unwanted(st).sources.Keys == st.sources.Keys;
    assert Attendance(Unwanted(st));
    assert Causes(Unwanted(st));
  }

  lemma {:induction false} SmallerTable(a: map<Source, Followed>, k: Source)
    ensures |a - {k}| <= |a|
  {
    assert (a - {k}).Keys == a.Keys - {k};
    assert |a.Keys - {k}| <= |a.Keys|;
    assert |a - {k}| == |(a - {k}).Keys| && |a| == |a.Keys|;
  }

  lemma {:induction false} LetAccounting(st: State, k: Source)
    requires Accounting(st) && k in st.sources
    ensures Accounting(Let(st, k))
  {
    var next := Let(st, k).sources;
    SameRunning(st.sources, next);
    SmallerTable(st.sources, k);
    if st.sources[k].running {
      assert next.Keys == st.sources.Keys;
      assert |next| == |next.Keys|;
    }
  }

  lemma {:induction false} LetAttendance(st: State, k: Source)
    requires Attendance(st) && k in st.sources
    ensures Attendance(EmittedIf(Let(st, k), !st.sources[k].left, Leave(k)))
  {
    hide PresenceOf;
    forall j { PresenceStep(st.markers, Leave(k), j); }
    assert forall j :: j != k ==> (j in Let(st, k).sources <==> j in st.sources);
  }

  lemma {:induction false} LetCauses(st: State, k: Source)
    requires Causes(st) && k in st.sources
    requires forall d :: d in st.done ==> d.source in Running(st.sources)
    ensures Causes(Let(st, k))
  {
  }

  lemma {:induction false} DoneAreRunning(st: State)
    requires Accounting(st)
    ensures forall d :: d in st.done ==> d.source in Running(st.sources)
  {
    forall d | d in st.done ensures d.source in Running(st.sources) {
      assert d.source in Reported(st.done);
    }
  }

  lemma {:induction false} RetiredCore(st: State, k: Source)
    requires Core(st)
    ensures Core(Retired(st, k))
  {
    if k in st.sources && !st.sources[k].wanted {
      LetAccounting(st, k);
      LetAttendance(st, k);
      DoneAreRunning(st);
      LetCauses(st, k);
      EmittedAccounting(Let(st, k), Leave(k));
      EmittedCauses(Let(st, k), Leave(k));
    }
  }

  lemma {:induction false} AllRetiredCore(st: State, order: seq<Source>)
    requires Core(st)
    ensures Core(AllRetired(st, order))
  {
    if order != [] {
      AllRetiredCore(st, order[..|order| - 1]);
      RetiredCore(AllRetired(st, order[..|order| - 1]), order[|order| - 1]);
    }
  }

  // ---- What a reconciliation does ----

  lemma {:induction false} KeysSnoc(rest: seq<Target>, t: Target)
    ensures Keys(rest + [t]) == Keys(rest) + {t.source}
  {
    assert forall x :: x in rest + [t] <==> x in rest || x == t;
  }

  /** Only the markers tell whether a step could still send. */
  ghost predicate SameTable(a: State, b: State) {
    a.sources == b.sources && a.capWarned == b.capWarned && a.done == b.done
  }

  lemma {:induction false} StartedTable(st: State, t: Target)
    ensures SameTable(Started(st, t), Reserved(st, t))
  {
  }

  lemma {:induction false} RefreshedTable(st: State, t: Target)
    requires t.source in st.sources
    ensures SameTable(Refreshed(st, t), Kept(st, t))
  {
  }

  /** What placing one target does to the table. */
  lemma {:induction false} PlacedTable(st: State, t: Target)
    ensures var p := Placed(st, t);
            var known := if t.source in st.sources then Kept(st, t) else st;
            if Served(known, t.source) then SameTable(p, known)
            else if Full(known, t.source) then p.sources == known.sources && p.capWarned
            else p.sources == Reserved(known, t).sources && p.capWarned == st.capWarned
  {
    if t.source in st.sources { RefreshedTable(st, t); }
    var known := if t.source in st.sources then Refreshed(st, t) else st;
    StartedTable(known, t);
  }

  ghost predicate Untouched(st: State, k: Source, after: State) {
    (k in after.sources <==> k in st.sources) && (k in st.sources ==> after.sources[k] == st.sources[k])
  }

  /** A target is wanted and served, unless the cap was announced; a running worker is left alone. */
  ghost predicate Attended(st: State, k: Source, after: State) {
    && (k in st.sources ==> k in after.sources)
    && (k in after.sources ==> after.sources[k].wanted)
    && (Served(after, k) || after.capWarned)
    && (k in st.sources && st.sources[k].running ==>
          after.sources[k].running && after.sources[k].outcome == st.sources[k].outcome)
  }

  lemma {:induction false} PlacedAt(st: State, t: Target, k: Source)
    ensures var p := Placed(st, t);
            && (st.capWarned ==> p.capWarned)
            && if k == t.source then Attended(st, k, p) else Untouched(st, k, p)
  {
    PlacedTable(st, t);
  }

  lemma {:induction false} AllPlacedAt(st: State, targets: seq<Target>, k: Source)
    ensures var p := AllPlaced(st, targets);
            && (st.capWarned ==> p.capWarned)
            && if k in Keys(targets) then Attended(st, k, p) else Untouched(st, k, p)
  {
    if targets != [] {
      var rest, t := targets[..|targets| - 1], targets[|targets| - 1];
      var mid := AllPlaced(st, rest);
      AllPlacedAt(st, rest, k);
      assert targets == rest + [t];
      KeysSnoc(rest, t);
      PlacedAt(mid, t, k);
    }
  }

  /** The fate of one source when the table is walked. */
  ghost predicate Departed(st: State, k: Source, after: State) {
    && (k in after.sources <==> k in st.sources && (st.sources[k].wanted || st.sources[k].running))
    && (k in after.sources ==>
          after.sources[k] == if st.sources[k].wanted then st.sources[k]
                              else st.sources[k].(canceled := true, left := true))
  }

  lemma {:induction false} AllRetiredEffect(st: State, order: seq<Source>, k: Source)
    ensures if k in order then Departed(st, k, AllRetired(st, order)) else Untouched(st, k, AllRetired(st, order))
    ensures AllRetired(st, order).capWarned == st.capWarned
  {
    if order != [] {
      var rest := order[..|order| - 1];
      AllRetiredEffect(st, rest, k);
      assert order == rest + [order[|order| - 1]];
    }
  }

  /** What a reconciliation means for one source: it stays wanted exactly if it is a target, it
      disappears only when it is neither a target nor running, a running worker is never replaced, an
      unwanted one is cancelled and marked as left, and a target is served or the cap was announced. */
  ghost predicate ReconciledAt(st: State, targets: seq<Target>, r: State, k: Source) {
    var target := k in Keys(targets);
    && (k in r.sources ==> (r.sources[k].wanted <==> target) && (target || k in st.sources))
    && (k in st.sources ==> (k in r.sources <==> target || st.sources[k].running))
    && (k in st.sources && st.sources[k].running ==>
          r.sources[k].running && r.sources[k].outcome == st.sources[k].outcome)
    && (k in r.sources && !target ==> r.sources[k].canceled && r.sources[k].left && r.sources[k].running)
    && (target ==> Served(r, k) || r.capWarned)
  }

  lemma {:induction false} ReconciliationAt(st: State, targets: seq<Target>, order: seq<Source>, k: Source)
    requires Walks(order, st, targets)
    ensures ReconciledAt(st, targets, Reconciled(st, targets, order), k)
  {
    var u := Unwanted(st);
    AllPlacedAt(u, targets, k);
    AllRetiredEffect(AllPlaced(u, targets), order, k);
  }

  /** Every reconciliation keeps the loop invariant and settles each source as described. */
  lemma {:induction false} Reconciliation(st: State, targets: seq<Target>, order: seq<Source>)
    requires Core(st) && Walks(order, st, targets)
    ensures Valid(Reconciled(st, targets, order))
    ensures forall k :: ReconciledAt(st, targets, Reconciled(st, targets, order), k)
  {
    forall k ensures ReconciledAt(st, targets, Reconciled(st, targets, order), k) {
      ReconciliationAt(st, targets, order, k);
    }
    ReconciledCore(st, targets, order);
    AllSettled(st, targets, Reconciled(st, targets, order));
  }

  lemma {:induction false} AllSettled(st: State, targets: seq<Target>, r: State)
    requires forall k :: ReconciledAt(st, targets, r, k)
    ensures Settled(r)
  {
    forall k | k in r.sources ensures !r.sources[k].wanted ==> r.sources[k].left {
      assert ReconciledAt(st, targets, r, k);
    }
  }

  lemma {:induction false} ReconciledCore(st: State, targets: seq<Target>, order: seq<Source>)
    requires Core(st)
    ensures Core(Reconciled(st, targets, order))
  {
    UnwantedCore(st);
    AllPlacedCore(Unwanted(st), targets);
    AllRetiredCore(AllPlaced(Unwanted(st), targets), order);
  }

  // ---- Completions ----

  lemma {:induction false} FinishedKnown(st: State)
    requires Accounting(st) && st.done != []
    ensures st.done[0].source in st.sources && st.sources[st.done[0].source].running
    ensures st.done[0].source !in Reported(st.done[1..])
    ensures Reported(st.done) == Reported(st.done[1..]) + {st.done[0].source}
    ensures Distinct(st.done[1..]) && st.done[0].source !in st.live
  {
    var k, rest := st.done[0].source, st.done[1..];
    assert st.done == [st.done[0]] + rest;
    assert forall d :: d in st.done <==> d == st.done[0] || d in rest;
    assert k in Reported(st.done);
    assert k in Running(st.sources);
  }

  lemma {:induction false} RunningShrinks(sources: map<Source, Followed>, k: Source, s: Followed)
    requires k in Running(sources) && !s.running
    ensures Running(sources - {k}) == Running(sources[k := s]) == Running(sources) - {k}
    ensures |Running(sources) - {k}| == |Running(sources)| - 1
    ensures |sources - {k}| <= |sources| && |sources[k := s]| == |sources|
  {
    assert Running(sources - {k}) == Running(sources) - {k};
    assert Running(sources[k := s]) == Running(sources) - {k};
    SmallerTable(sources, k);
    assert sources[k := s].Keys == sources.Keys;
    assert |sources[k := s]| == |sources[k := s].Keys| && |sources| == |sources.Keys|;
  }

  /** The table entry of a finished source. */
  function Ended(s: Followed, outcome: Outcome): Followed { s.(outcome := outcome, running := false) }

  lemma {:induction false} FinishedTable(st: State)
    requires st.done != [] && st.done[0].source in st.sources
    ensures var k, next := st.done[0].source, Finished(st);
            && next.done == st.done[1..] && next.live == st.live && next.pods == st.pods
            && next.active == st.active - 1 && next.sends <= st.sends
            && next.sources == if st.sources[k].wanted
                               then st.sources[k := Ended(st.sources[k], st.done[0].outcome)]
                               else st.sources - {k}
  {
  }

  /** The accounting after one running source `k` has been taken out. */
  lemma {:induction false} AccountingWithout(st: State, next: State, k: Source)
    requires Accounting(st) && k in Running(st.sources) && k !in st.live
    requires Running(next.sources) == Running(st.sources) - {k} && next.active == st.active - 1
    requires |next.sources| <= |st.sources| && next.pods == st.pods && next.live == st.live
    requires k !in Reported(next.done) && Reported(st.done) == Reported(next.done) + {k}
    requires Distinct(next.done) && next.sends <= st.sends
    ensures Accounting(next)
  {
    assert |Running(st.sources) - {k}| == |Running(st.sources)| - 1;
  }

  lemma {:induction false} FinishedRunning(st: State)
    requires Accounting(st) && st.done != []
    ensures Running(Finished(st).sources) == Running(st.sources) - {st.done[0].source}
    ensures |Finished(st).sources| <= |st.sources|
  {
    FinishedKnown(st);
    FinishedTable(st);
    RunningShrinks(st.sources, st.done[0].source, Ended(st.sources[st.done[0].source], st.done[0].outcome));
  }

  lemma {:induction false} FinishedAccounting(st: State)
    requires Accounting(st) && st.done != []
    ensures Accounting(Finished(st))
    ensures Running(Finished(st).sources) == Running(st.sources) - {st.done[0].source}
  {
    FinishedKnown(st);
    FinishedTable(st);
    FinishedRunning(st);
    AccountingWithout(st, Finished(st), st.done[0].source);
  }

  lemma {:induction false} ToldAttendance(st: State, told: bool, m: Marker)
    requires Attendance(st) && !m.Join? && !m.Leave?
    ensures Attendance(EmittedIf(st, told, m))
  {
    EmittedAttendance(st, m);
  }

  lemma {:induction false} FinishedAttendance(st: State)
    requires Attendance(st) && Settled(st) && st.done != [] && st.done[0].source in st.sources
    ensures Attendance(Finished(st))
  {
    var k, rest := st.done[0].source, st.(done := st.done[1..]);
    ToldAttendance(rest, st.done[0].outcome == SourceCompleted, Complete(k));
  }

  lemma {:induction false} TailSources(st: State)
    requires Accounting(st) && st.done != []
    ensures forall d :: d in st.done[1..] ==> d in st.done && d.source != st.done[0].source
  {
    FinishedKnown(st);
    forall d | d in st.done[1..] ensures d in st.done && d.source != st.done[0].source {
      assert d.source in Reported(st.done[1..]);
    }
  }

  lemma {:induction false} FinishedCauses(st: State)
    requires Causes(st) && st.done != [] && st.done[0].source in st.sources
    requires forall d :: d in st.done[1..] ==> d in st.done && d.source != st.done[0].source
    ensures Causes(Finished(st))
  {
    FinishedTable(st);
    assert st.done[0] in st.done;
  }

  lemma {:induction false} FinishedSettled(st: State)
    requires Settled(st) && st.done != []
    ensures Settled(Finished(st))
  {
  }

  /** A completion always belongs to a running source; taking it stops that source and no other. */
  lemma {:induction false} FinishedValid(st: State)
    requires Valid(st) && st.done != []
    ensures Valid(Finished(st))
    ensures st.done[0].source in Running(st.sources)
    ensures Running(Finished(st).sources) == Running(st.sources) - {st.done[0].source}
  {
    FinishedKnown(st);
    FinishedAccounting(st);
    FinishedAttendance(st);
    TailSources(st);
    FinishedCauses(st);
    FinishedSettled(st);
  }

  // ---- Pods ----

  /** Takes the first MAX_LOG_PODS selected pods of a list, already sorted by name; the flag reports that it
      had to stop. */
  function Ingest(list: seq<Pod>, next: map<string, Pod>): (map<string, Pod>, bool)
    decreases |list|
  {
    if list == [] then (next, false)
    else if !list[0].selected then Ingest(list[1..], next)
    else if |next| >= MAX_LOG_PODS then (next, true)
    else Ingest(list[1..], next[list[0].name := list[0]])
  }

  /** The table stays bounded, holds only selected pods of the list, and is complete unless flagged. */
  lemma {:induction false} IngestSound(list: seq<Pod>, next: map<string, Pod>)
    requires |next| <= MAX_LOG_PODS
    ensures var (pods, stopped) := Ingest(list, next);
            && |pods| <= MAX_LOG_PODS
            && (forall n :: n in next ==> n in pods)
            && (forall n :: n in pods ==> (n in next && pods[n] == next[n]) || (pods[n] in list && pods[n].selected))
            && (!stopped ==> forall p :: p in list && p.selected ==> p.name in pods)
            && (stopped ==> |pods| == MAX_LOG_PODS)
    decreases |list|
  {
    if list != [] {
      if !list[0].selected {
        IngestSound(list[1..], next);
      } else if |next| < MAX_LOG_PODS {
        assert next[list[0].name := list[0]].Keys == next.Keys + {list[0].name};
        assert |next[list[0].name := list[0]]| == |next.Keys + {list[0].name}| && |next| == |next.Keys|;
        IngestSound(list[1..], next[list[0].name := list[0]]);
      }
    }
  }

  function Listed(st: State, list: seq<Pod>, truncated: bool): State {
    var (pods, stopped) := Ingest(list, map[]);
    var warned := if stopped then CapWarned(st) else st;
    (if truncated then CapWarned(warned) else warned).(pods := pods)
  }

  function PodChanged(st: State, p: Pod, deleted: bool): State {
    if deleted || !p.selected then st.(pods := st.pods - {p.name})
    else if p.name in st.pods || |st.pods| < MAX_LOG_PODS then st.(pods := st.pods[p.name := p])
    else CapWarned(st)
  }

  lemma {:induction false} PodsValid(st: State, pods: map<string, Pod>)
    requires Valid(st) && |pods| <= MAX_LOG_PODS
    ensures Valid(st.(pods := pods))
  {
  }

  lemma {:induction false} ListedValid(st: State, list: seq<Pod>, truncated: bool)
    requires Valid(st)
    ensures Valid(Listed(st, list, truncated))
  {
    IngestSound(list, map[]);
    var (pods, stopped) := Ingest(list, map[]);
    var warned := if stopped then CapWarned(st) else st;
    CapWarnedCore(st);
    CapWarnedCore(warned);
    PodsValid(if truncated then CapWarned(warned) else warned, pods);
  }

  lemma {:induction false} PodChangedValid(st: State, p: Pod, deleted: bool)
    requires Valid(st)
    ensures Valid(PodChanged(st, p, deleted))
  {
    CapWarnedCore(st);
    PodTableSizes(st.pods, p);
    if deleted || !p.selected {
      PodsValid(st, st.pods - {p.name});
    } else if p.name in st.pods || |st.pods| < MAX_LOG_PODS {
      PodsValid(st, st.pods[p.name := p]);
    }
  }

  lemma {:induction false} PodTableSizes(pods: map<string, Pod>, p: Pod)
    ensures |pods - {p.name}| <= |pods|
    ensures |pods[p.name := p]| == if p.name in pods then |pods| else |pods| + 1
  {
    var less, more := pods - {p.name}, pods[p.name := p];
    assert less.Keys == pods.Keys - {p.name} && more.Keys == pods.Keys + {p.name};
    assert |less| == |less.Keys| && |more| == |more.Keys| && |pods| == |pods.Keys|;
    assert p.name in pods ==> more.Keys == pods.Keys;
  }

  // ---- Whole runs of the loop ----

  /** What the environment can do next. A worker reports at most once and then is gone; it reports a
      cancellation only if its context was cancelled, and it may give up reporting once the context
      of the whole session is done. */
  datatype Step =
    | PodList(list: seq<Pod>, truncated: bool, targets: seq<Target>, order: seq<Source>)
    | PodEvent(pod: Pod, deleted: bool, targets: seq<Target>, order: seq<Source>)
    | TakeDone(targets: seq<Target>, order: seq<Source>)
    | WorkerReports(source: Source, outcome: Outcome)
    | WorkerDrops(source: Source)
    | ContextDone

  function Reports(st: State, k: Source, outcome: Outcome): State {
    st.(done := st.done + [Done(k, outcome)], live := st.live - {k})
  }

  ghost predicate Enabled(st: State, step: Step) {
    match step
    case PodList(list, truncated, targets, order) => Walks(order, Listed(st, list, truncated), targets)
    case PodEvent(pod, deleted, targets, order) => !st.finite && Walks(order, PodChanged(st, pod, deleted), targets)
    case TakeDone(targets, order) => st.done != [] && (!st.finite ==> Walks(order, Finished(st), targets))
    case WorkerReports(k, outcome) =>
      && k in st.live && |st.done| < MAX_LOG_SOURCES
      && (outcome == SourceCanceled ==> st.sends == 0 || (k in st.sources && st.sources[k].canceled))
    case WorkerDrops(k) => k in st.live && st.sends == 0
    case ContextDone => true
  }

  function Next(st: State, step: Step): State
    requires step.TakeDone? ==> st.done != []
  {
    match step
    case PodList(list, truncated, targets, order) => Reconciled(Listed(st, list, truncated), targets, order)
    case PodEvent(pod, deleted, targets, order) => Reconciled(PodChanged(st, pod, deleted), targets, order)
    case TakeDone(targets, order) => if st.finite then Finished(st) else Reconciled(Finished(st), targets, order)
    case WorkerReports(k, outcome) => Reports(st, k, outcome)
    case WorkerDrops(k) => st.(live := st.live - {k})
    case ContextDone => st.(sends := 0)
  }

  /** The states the loop can reach from `st`, one enabled step after the other. */
  ghost predicate Reaches(st: State, steps: seq<Step>, end: State)
    decreases |steps|
  {
    if steps == [] then st == end
    else Enabled(st, steps[0]) && Reaches(Next(st, steps[0]), steps[1..], end)
  }

  lemma {:induction false} ReportedSnoc(done: seq<Done>, d: Done)
    ensures Reported(done + [d]) == Reported(done) + {d.source}
  {
    assert forall x :: x in done + [d] <==> x in done || x == d;
  }

  lemma {:induction false} AllReported(done: seq<Done>)
    ensures forall x :: x in done ==> x.source in Reported(done)
  {
  }

  lemma {:induction false} ReportsAccounting(st: State, k: Source, outcome: Outcome)
    requires Accounting(st) && k in st.live
    ensures Accounting(Reports(st, k, outcome))
  {
    hide Running, Reported;
    var d := Done(k, outcome);
    ReportedSnoc(st.done, d);
    assert forall x :: x in st.done ==> x.source in Reported(st.done) by {
      AllReported(st.done);
    }
    forall i | 0 <= i < |st.done| ensures st.done[i].source != k {
      assert st.done[i].source in Reported(st.done);
    }
  }

  lemma {:induction false} ReportsCauses(st: State, k: Source, outcome: Outcome)
    requires Causes(st)
    requires outcome == SourceCanceled ==> st.sends == 0 || (k in st.sources && st.sources[k].canceled)
    ensures Causes(Reports(st, k, outcome))
  {
    assert forall x :: x in Reports(st, k, outcome).done <==> x in st.done || x == Done(k, outcome);
  }

  /** Every enabled step keeps the invariant. */
  lemma {:induction false} NextValid(st: State, step: Step)
    requires Valid(st) && Enabled(st, step)
    ensures Valid(Next(st, step))
  {
    match step
    case PodList(list, truncated, targets, order) =>
      ListedValid(st, list, truncated);
      Reconciliation(Listed(st, list, truncated), targets, order);
    case PodEvent(pod, deleted, targets, order) =>
      PodChangedValid(st, pod, deleted);
      Reconciliation(PodChanged(st, pod, deleted), targets, order);
    case TakeDone(targets, order) =>
      FinishedValid(st);
      if !st.finite { Reconciliation(Finished(st), targets, order); }
    case WorkerReports(k, outcome) =>
      ReportsAccounting(st, k, outcome);
      ReportsCauses(st, k, outcome);
    case WorkerDrops(k) =>
    case ContextDone =>
  }

  lemma {:induction false} ReachableValid(st: State, steps: seq<Step>, end: State)
    requires Valid(st) && Reaches(st, steps, end)
    ensures Valid(end)
    decreases |steps|
  {
    if steps != [] {
      NextValid(st, steps[0]);
      ReachableValid(Next(st, steps[0]), steps[1..], end);
    }
  }

  lemma {:induction false} InitialValid(finite: bool, sends: nat)
    ensures Valid(Initial(finite, sends))
  {
    assert Running(map[]) == {};
  }

  /** In every reachable state the markers of each source read join, leave, join, leave, and so on; while
      the context is alive the last one is a join exactly if the source is tracked and has not left. */
  lemma {:induction false} MarkersAlternate(finite: bool, sends: nat, steps: seq<Step>, end: State, k: Source)
    requires Reaches(Initial(finite, sends), steps, end)
    ensures var jl := JoinsAndLeaves(end.markers, k);
            && (forall i :: 0 <= i < |jl| ==> jl[i] == (i % 2 == 0))
            && (end.sends > 0 ==> (|jl| % 2 == 1 <==> k in end.sources && !end.sources[k].left))
  {
    InitialValid(finite, sends);
    ReachableValid(Initial(finite, sends), steps, end);
    UnbrokenAlternates(end.markers, k);
  }

  /** In every reachable state the caps hold, `active` counts the running sources, each running source
      has exactly one live worker or queued completion, and a live worker finds room in the channel. */
  lemma {:induction false} SourcesAccounted(finite: bool, sends: nat, steps: seq<Step>, end: State)
    requires Reaches(Initial(finite, sends), steps, end)
    ensures end.active == |Running(end.sources)| <= MAX_LOG_SOURCES
    ensures |end.sources| <= MAX_TRACKED_SOURCES && |end.pods| <= MAX_LOG_PODS
    ensures |end.live| + |end.done| <= end.active
    ensures end.sends > 0 ==> |end.live| + |end.done| == end.active
    ensures end.live != {} ==> |end.done| < MAX_LOG_SOURCES
  {
    InitialValid(finite, sends);
    ReachableValid(Initial(finite, sends), steps, end);
    DistinctCount(end.done);
    SubsetSize(end.live + Reported(end.done), Running(end.sources));
    assert |end.live + Reported(end.done)| == |end.live| + |Reported(end.done)|;
  }

  /** No step deletes or restarts a running source; only taking its own completion stops it. */
  lemma {:induction false} RunningIsKept(st: State, step: Step, k: Source)
    requires Valid(st) && Enabled(st, step) && k in Running(st.sources)
    requires step.TakeDone? ==> k != st.done[0].source
    ensures k in Running(Next(st, step).sources)
  {
    hide Valid, Reconciled, Listed, Finished, PodChanged;
    match step
    case PodList(list, truncated, targets, order) =>
      ListedSources(st, list, truncated);
      ReconciliationAt(Listed(st, list, truncated), targets, order, k);
    case PodEvent(pod, deleted, targets, order) =>
      PodChangedSources(st, pod, deleted);
      ReconciliationAt(PodChanged(st, pod, deleted), targets, order, k);
    case TakeDone(targets, order) =>
      FinishedValid(st);
      assert k in Running(Finished(st).sources);
      if !st.finite { ReconciliationAt(Finished(st), targets, order, k); }
    case _ =>
  }

  lemma {:induction false} ListedSources(st: State, list: seq<Pod>, truncated: bool)
    ensures Listed(st, list, truncated).sources == st.sources
  {
  }

  lemma {:induction false} PodChangedSources(st: State, p: Pod, deleted: bool)
    ensures PodChanged(st, p, deleted).sources == st.sources
  {
  }
}
