/** Kubernetes Events that arrived before their pod: a bounded store in arrival order, replayed when
    the pod is tracked. */
module LogPending {

  const MAX_PENDING: nat := 512
  const MAX_SEEN: nat := 512
  const MAX_MESSAGE: nat := 64 * 1024
  const MAX_REASON: nat := 1024

  datatype EventKey = EventKey(uid: string, version: string)

  /** Times count from the zero time, which stands for no time at all. */
  datatype Event = Event(uid: string, version: string, podUID: string, reason: string, message: string,
                         lastAt: nat, eventAt: nat)

  /** One slot of the arrival order. */
  datatype Ref = Ref(podUID: string, key: EventKey)

  datatype Marker = Correlated(podUID: string, reason: string, message: string, at: nat) | EventsPartial

  function Key(e: Event): EventKey { EventKey(e.uid, e.version) }

  function RefOf(e: Event): Ref { Ref(e.podUID, Key(e)) }

  function TimeOf(e: Event): nat { if e.lastAt == 0 then e.eventAt else e.lastAt }

  /** What is retained of an Event: its identity, and a bounded reason and message. */
  function Compact(e: Event): Event {
    e.(message := if |e.message| > MAX_MESSAGE then e.message[..MAX_MESSAGE] + " [Event message truncated]"
                  else e.message,
       reason := if |e.reason| > MAX_REASON then e.reason[..MAX_REASON] else e.reason)
  }

  type Table = map<string, map<EventKey, Event>>

  predicate Holds(table: Table, r: Ref) {
    r.podUID in table && r.key in table[r.podUID]
  }

  function Added(table: Table, e: Event): Table {
    table[e.podUID := (if e.podUID in table then table[e.podUID] else map[])[Key(e) := Compact(e)]]
  }

  function Removed(table: Table, r: Ref): Table
    requires Holds(table, r)
  {
    var rest := table[r.podUID] - {r.key};
    if rest == map[] then table - {r.podUID} else table[r.podUID := rest]
  }

  /** The references of pods that are still unknown, in their old order. */
  function Waiting(order: seq<Ref>, tracked: set<string>): seq<Ref> {
    if order == [] then []
    else Waiting(order[..|order| - 1], tracked)
         + (if order[|order| - 1].podUID in tracked then [] else [order[|order| - 1]])
  }

  /** The order lists exactly the contents of the table, each entry once. */
  ghost predicate Enumerates(order: seq<Ref>, table: Table) {
    && (forall r :: multiset(order)[r] == if Holds(table, r) then 1 else 0)
    && (forall u :: u in table ==> table[u] != map[])
    && (forall r :: Holds(table, r) ==> r.podUID != "" && RefOf(table[r.podUID][r.key]) == r)
  }

  /** In particular the order has no duplicates and misses no entry. */
  lemma {:induction false} EnumerationIsExact(order: seq<Ref>, table: Table)
    requires Enumerates(order, table)
    ensures forall i, j :: 0 <= i < j < |order| ==> order[i] != order[j]
    ensures forall r :: r in order <==> Holds(table, r)
  {
    forall i, j | 0 <= i < j < |order| ensures order[i] != order[j] {
      assert order == order[..i] + [order[i]] + order[i + 1..j] + [order[j]] + order[j + 1..];
      assert multiset(order)[order[j]] >= (if order[i] == order[j] then 2 else 1);
    }
    forall r ensures r in order <==> Holds(table, r) {
      assert r in order <==> multiset(order)[r] > 0;
    }
  }

  lemma {:induction false} AddedEnumerates(order: seq<Ref>, table: Table, e: Event)
    requires Enumerates(order, table) && e.podUID != "" && !Holds(table, RefOf(e))
    ensures Enumerates(order + [RefOf(e)], Added(table, e))
  {
    var next := Added(table, e);
    assert forall r :: Holds(next, r) <==> Holds(table, r) || r == RefOf(e);
    assert Key(e) in next[e.podUID];
  }

  lemma {:induction false} RemovedHolds(table: Table, r: Ref)
    requires Holds(table, r)
    ensures var next := Removed(table, r);
            && (forall x :: Holds(next, x) <==> Holds(table, x) && x != r)
            && (forall x :: Holds(next, x) ==> next[x.podUID][x.key] == table[x.podUID][x.key])
            && ((forall u :: u in table ==> table[u] != map[]) ==> forall u :: u in next ==> next[u] != map[])
  {
    var rest := table[r.podUID] - {r.key};
    forall k | k in table[r.podUID] && k != r.key ensures rest != map[] {
      assert k in rest;
    }
  }

  /** Taking an entry out of the table and out of the order keeps the two in step. */
  lemma {:induction false} RemovedEnumerates(a: seq<Ref>, r: Ref, b: seq<Ref>, table: Table)
    requires Enumerates(a + [r] + b, table)
    ensures Holds(table, r) && Enumerates(a + b, Removed(table, r))
  {
    assert multiset(a + [r] + b) == multiset(a + b) + multiset{r};
    assert multiset(a + [r] + b)[r] > 0;
    RemovedHolds(table, r);
  }

  lemma {:induction false} OldestRemoved(order: seq<Ref>, table: Table)
    requires Enumerates(order, table) && order != []
    ensures Holds(table, order[0]) && Enumerates(order[1..], Removed(table, order[0]))
  {
    assert order == [] + [order[0]] + order[1..] && [] + order[1..] == order[1..];
    RemovedEnumerates([], order[0], order[1..], table);
  }

  // ---- The store as a value, with its history ----

  /** `retained`, `handed` and `evicted` record every reference ever stored, handed on because its pod
      was tracked, and given up; `told` the keys of the Events told, split where the dedup set was reset. */
  datatype Store = Store(order: seq<Ref>, pending: Table, seen: set<EventKey>, warned: bool, markers: seq<Marker>,
                         retained: seq<Ref>, handed: seq<Ref>, evicted: seq<Ref>, told: seq<seq<EventKey>>)

  const EMPTY: Store := Store([], map[], {}, false, [], [], [], [], [])

  ghost predicate Valid(s: Store) {
    && |s.order| <= MAX_PENDING && |s.seen| <= MAX_SEEN
    && Enumerates(s.order, s.pending)
    && multiset(s.retained) == multiset(s.order) + multiset(s.handed) + multiset(s.evicted)
    && (s.evicted != [] ==> EventsPartial in s.markers)
    && (s.warned <==> EventsPartial in s.markers)
  }

  function WithoutOldest(s: Store): Store
    requires s.order != [] && Holds(s.pending, s.order[0])
  {
    s.(order := s.order[1..], pending := Removed(s.pending, s.order[0]), warned := true,
       markers := s.markers + (if s.warned then [] else [EventsPartial]), evicted := s.evicted + [s.order[0]])
  }

  function Stored(s: Store, e: Event): Store {
    s.(order := s.order + [RefOf(e)], pending := Added(s.pending, e), retained := s.retained + [RefOf(e)])
  }

  ghost function Retained(s: Store, e: Event): Store
    requires Valid(s)
  {
    if e.podUID == "" || Holds(s.pending, RefOf(e)) then s
    else if |s.order| >= MAX_PENDING then (OldestRemoved(s.order, s.pending); Stored(WithoutOldest(s), e))
    else Stored(s, e)
  }

  /** The history of tellings with one more, after a reset if the dedup set was full. */
  function Told(told: seq<seq<EventKey>>, full: bool, key: EventKey): seq<seq<EventKey>> {
    if told == [] || full then told + [[key]]
    else told[..|told| - 1] + [told[|told| - 1] + [key]]
  }

  /** The Event of a tracked pod, unless the dedup set has it; a full set is reset first. */
  function Announced(s: Store, e: Event): Store {
    if Key(e) in s.seen then s
    else s.(seen := (if |s.seen| >= MAX_SEEN then {} else s.seen) + {Key(e)},
            told := Told(s.told, |s.seen| >= MAX_SEEN, Key(e)),
            markers := s.markers + [Correlated(e.podUID, e.reason, e.message, TimeOf(e))])
  }

  ghost function Processed(s: Store, e: Event, tracked: set<string>): Store
    requires Valid(s)
  {
    if Key(e) in s.seen || e.podUID in tracked then Announced(s, e) else Retained(s, e)
  }

  /** The references a replay hands on, in arrival order. */
  function Due(order: seq<Ref>, tracked: set<string>): seq<Ref> {
    if order == [] then []
    else Due(order[..|order| - 1], tracked)
         + (if order[|order| - 1].podUID in tracked then [order[|order| - 1]] else [])
  }

  /** Announcing the stored Events behind `refs`, one after the other. */
  function AllAnnounced(s: Store, refs: seq<Ref>, table: Table): Store {
    if refs == [] then s
    else
      var t, r := AllAnnounced(s, refs[..|refs| - 1], table), refs[|refs| - 1];
      if Holds(table, r) then Announced(t, table[r.podUID][r.key]) else t
  }

  /** The part of the table whose pods are unknown. */
  function Untracked(table: Table, tracked: set<string>): Table {
    map u | u in table && u !in tracked :: table[u]
  }

  /** A replay in one sweep: the Events of tracked pods are announced in arrival order and leave the
      store, all others stay as they are. */
  function Replayed(s: Store, tracked: set<string>): Store {
    AllAnnounced(s, Due(s.order, tracked), s.pending).(
      order := Waiting(s.order, tracked),
      pending := Untracked(s.pending, tracked),
      handed := s.handed + Due(s.order, tracked))
  }

  // ---- The store's invariant ----

  lemma {:induction false} WithoutOldestValid(s: Store)
    requires Valid(s) && s.order != []
    ensures Holds(s.pending, s.order[0]) && Valid(WithoutOldest(s))
    ensures forall r :: Holds(WithoutOldest(s).pending, r) ==> Holds(s.pending, r)
  {
    OldestRemoved(s.order, s.pending);
    RemovedHolds(s.pending, s.order[0]);
    assert s.order == [s.order[0]] + s.order[1..];
    assert multiset(s.evicted + [s.order[0]]) == multiset(s.evicted) + multiset{s.order[0]};
  }

  lemma {:induction false} StoredValid(s: Store, e: Event)
    requires Valid(s) && |s.order| < MAX_PENDING && e.podUID != "" && !Holds(s.pending, RefOf(e))
    ensures Valid(Stored(s, e))
  {
    AddedEnumerates(s.order, s.pending, e);
  }

  /** Retaining keeps the invariant and the arrival order: the new reference is last, and only the
      oldest one can have made room for it. */
  lemma {:induction false} RetainedValid(s: Store, e: Event)
    requires Valid(s)
    ensures var t := Retained(s, e);
            && Valid(t)
            && (e.podUID != "" ==> Holds(t.pending, RefOf(e)))
            && (t.order != s.order ==>
                  t.order == (if |s.order| >= MAX_PENDING then s.order[1..] else s.order) + [RefOf(e)])
            && t.evicted == s.evicted + (if t.order != s.order && |s.order| >= MAX_PENDING then [s.order[0]] else [])
            && t.handed == s.handed
  {
    if e.podUID != "" && !Holds(s.pending, RefOf(e)) {
      if |s.order| >= MAX_PENDING {
        WithoutOldestValid(s);
        StoredValid(WithoutOldest(s), e);
        assert Retained(s, e).order[MAX_PENDING - 1] == RefOf(e);
        assert RefOf(e) !in s.order;
      } else {
        StoredValid(s, e);
      }
    }
  }

  lemma {:induction false} AnnouncedFrame(s: Store, e: Event)
    requires |s.seen| <= MAX_SEEN
    ensures var t := Announced(s, e);
            && |t.seen| <= MAX_SEEN && s.markers <= t.markers
            && (EventsPartial in t.markers <==> EventsPartial in s.markers)
            && t == s.(seen := t.seen, markers := t.markers, told := t.told)
  {
    assert |s.seen + {Key(e)}| <= |s.seen| + 1;
    assert {} + {Key(e)} == {Key(e)};
  }

  lemma {:induction false} AnnouncedValid(s: Store, e: Event)
    requires Valid(s)
    ensures Valid(Announced(s, e))
  {
    AnnouncedFrame(s, e);
  }

  lemma {:induction false} ProcessedValid(s: Store, e: Event, tracked: set<string>)
    requires Valid(s)
    ensures Valid(Processed(s, e, tracked))
  {
    AnnouncedValid(s, e);
    RetainedValid(s, e);
  }

  // ---- Replay ----

  lemma {:induction false} AllAnnouncedFrame(s: Store, refs: seq<Ref>, table: Table)
    requires |s.seen| <= MAX_SEEN
    ensures var t := AllAnnounced(s, refs, table);
            && |t.seen| <= MAX_SEEN && s.markers <= t.markers
            && (EventsPartial in t.markers <==> EventsPartial in s.markers)
            && t == s.(seen := t.seen, markers := t.markers, told := t.told)
  {
    if refs != [] {
      AllAnnouncedFrame(s, refs[..|refs| - 1], table);
      var t, r := AllAnnounced(s, refs[..|refs| - 1], table), refs[|refs| - 1];
      if Holds(table, r) { AnnouncedFrame(t, table[r.podUID][r.key]); }
    }
  }

  lemma {:induction false} CountSnoc(refs: seq<Ref>, x: Ref, r: Ref)
    ensures multiset(refs + [x])[r] == multiset(refs)[r] + (if x == r then 1 else 0)
  {
  }

  /** The last reference goes to one of the two. */
  lemma {:induction false} WaitingOrDueLast(rest: seq<Ref>, last: Ref, tracked: set<string>)
    ensures Waiting(rest + [last], tracked)
         == if last.podUID in tracked then Waiting(rest, tracked) else Waiting(rest, tracked) + [last]
    ensures Due(rest + [last], tracked)
         == if last.podUID in tracked then Due(rest, tracked) + [last] else Due(rest, tracked)
  {
    assert (rest + [last])[..|rest|] == rest;
  }

  lemma {:induction false} WaitingOrDue(order: seq<Ref>, tracked: set<string>, r: Ref)
    ensures multiset(Waiting(order, tracked))[r] == if r.podUID in tracked then 0 else multiset(order)[r]
    ensures multiset(Due(order, tracked))[r] == if r.podUID in tracked then multiset(order)[r] else 0
    ensures |Waiting(order, tracked)| <= |order|
  {
    if order == [] {
      assert Waiting(order, tracked) == [] && Due(order, tracked) == [];
    } else {
      hide Waiting, Due;
      var rest, last := order[..|order| - 1], order[|order| - 1];
      assert order == rest + [last];
      WaitingOrDue(rest, tracked, r);
      WaitingOrDueLast(rest, last, tracked);
      CountSnoc(rest, last, r);
      CountSnoc(Due(rest, tracked), last, r);
      CountSnoc(Waiting(rest, tracked), last, r);
    }
  }

  lemma {:induction false} WaitingAndDue(order: seq<Ref>, tracked: set<string>)
    ensures multiset(order) == multiset(Waiting(order, tracked)) + multiset(Due(order, tracked))
  {
    forall r
      ensures multiset(order)[r] == multiset(Waiting(order, tracked))[r] + multiset(Due(order, tracked))[r]
    {
      WaitingOrDue(order, tracked, r);
    }
  }

  /** Leaving out the pods that are tracked keeps order and table in step. */
  lemma {:induction false} WaitingEnumerates(order: seq<Ref>, table: Table, tracked: set<string>)
    requires Enumerates(order, table)
    ensures Enumerates(Waiting(order, tracked), Untracked(table, tracked))
  {
    forall r ensures multiset(Waiting(order, tracked))[r] == if Holds(Untracked(table, tracked), r) then 1 else 0 {
      WaitingOrDue(order, tracked, r);
    }
  }

  /** Replaying keeps the invariant; what leaves the table is exactly what is handed on. */
  lemma {:induction false} ReplayedValid(s: Store, tracked: set<string>)
    requires Valid(s)
    ensures Valid(Replayed(s, tracked))
    ensures forall r :: Holds(Replayed(s, tracked).pending, r) <==> Holds(s.pending, r) && r.podUID !in tracked
  {
    hide Enumerates, Waiting, Due;
    var t, due := Replayed(s, tracked), Due(s.order, tracked);
    AllAnnouncedFrame(s, due, s.pending);
    WaitingEnumerates(s.order, s.pending, tracked);
    WaitingOrDue(s.order, tracked, Ref("", EventKey("", "")));
    WaitingAndDue(s.order, tracked);
    assert multiset(t.handed) == multiset(s.handed) + multiset(due);
    assert t.pending == Untracked(s.pending, tracked);
  }

  // ---- Whole runs ----

  /** An Event arrives, or the set of tracked pods was reconciled. */
  datatype Op = Arrives(event: Event, tracked: set<string>) | Reconciles(tracked: set<string>)

  ghost function Performed(s: Store, op: Op): (t: Store)
    requires Valid(s)
    ensures Valid(t)
  {
    match op
    case Arrives(event, tracked) => ProcessedValid(s, event, tracked); Processed(s, event, tracked)
    case Reconciles(tracked) => ReplayedValid(s, tracked); Replayed(s, tracked)
  }

  ghost function Performing(s: Store, ops: seq<Op>): (t: Store)
    requires Valid(s)
    ensures Valid(t)
  {
    if ops == [] then s else Performed(Performing(s, ops[..|ops| - 1]), ops[|ops| - 1])
  }

  /** After any run: the order lists the table without duplicates and within its bound; everything ever
      retained is still pending, was handed on, or was evicted; and an eviction was announced. */
  lemma {:induction false} NothingIsLost(ops: seq<Op>)
    ensures Valid(EMPTY)
    ensures var t := Performing(EMPTY, ops);
            && |t.order| <= MAX_PENDING
            && (forall i, j :: 0 <= i < j < |t.order| ==> t.order[i] != t.order[j])
            && (forall r :: r in t.order <==> Holds(t.pending, r))
            && multiset(t.retained) == multiset(t.order) + multiset(t.handed) + multiset(t.evicted)
            && (t.evicted != [] ==> EventsPartial in t.markers)
  {
    var t := Performing(EMPTY, ops);
    EnumerationIsExact(t.order, t.pending);
  }

  /** An eviction takes the oldest pending reference, and only when the store is full. */
  lemma {:induction false} EvictsOnlyTheOldest(s: Store, op: Op)
    requires Valid(s)
    ensures var t := Performed(s, op);
            t.evicted != s.evicted ==>
              && |s.order| >= MAX_PENDING && t.evicted == s.evicted + [s.order[0]]
              && op.Arrives? && t.order == s.order[1..] + [RefOf(op.event)]
  {
    match op
    case Arrives(event, tracked) =>
      RetainedValid(s, event);
      AnnouncedFrame(s, event);
    case Reconciles(tracked) => AllAnnouncedFrame(s, Due(s.order, tracked), s.pending);
  }

  // ---- Every Event is told once between two resets ----

  function Tellings(markers: seq<Marker>): nat {
    if markers == [] then 0
    else Tellings(markers[..|markers| - 1]) + (if markers[|markers| - 1].Correlated? then 1 else 0)
  }

  function Total(told: seq<seq<EventKey>>): nat {
    if told == [] then 0 else Total(told[..|told| - 1]) + |told[|told| - 1]|
  }

  ghost predicate Different(keys: seq<EventKey>) { forall i, j :: 0 <= i < j < |keys| ==> keys[i] != keys[j] }

  /** What was told since the last reset. */
  function LastTold(told: seq<seq<EventKey>>): seq<EventKey> { if told == [] then [] else told[|told| - 1] }

  /** No key is told twice between two resets, and a reset comes after exactly MAX_SEEN tellings. */
  ghost predicate Spaced(told: seq<seq<EventKey>>) {
    && (forall i :: 0 <= i < |told| ==> Different(told[i]))
    && (forall i :: 0 <= i < |told| - 1 ==> |told[i]| == MAX_SEEN)
  }

  /** The dedup set holds exactly these. */
  ghost predicate Remembers(seen: set<EventKey>, keys: seq<EventKey>) {
    |keys| == |seen| && forall k :: k in seen <==> k in keys
  }

  /** Moreover the dedup set holds what was told since the last reset, and each telling is a marker. */
  ghost predicate ToldOnce(s: Store) {
    Spaced(s.told) && Remembers(s.seen, LastTold(s.told)) && Tellings(s.markers) == Total(s.told)
  }

  lemma {:induction false} TellingsSnoc(markers: seq<Marker>, m: Marker)
    ensures Tellings(markers + [m]) == Tellings(markers) + (if m.Correlated? then 1 else 0)
  {
    assert (markers + [m])[..|markers|] == markers;
  }

  lemma {:induction false} ToldTotal(told: seq<seq<EventKey>>, full: bool, key: EventKey)
    ensures Total(Told(told, full, key)) == Total(told) + 1
  {
    var next := Told(told, full, key);
    if told == [] || full {
      assert next[..|told|] == told;
    } else {
      assert next[..|told| - 1] == told[..|told| - 1];
    }
  }

  lemma {:induction false} DifferentSnoc(keys: seq<EventKey>, k: EventKey)
    requires (keys == [] || Different(keys)) && k !in keys
    ensures Different(keys + [k])
  {
  }

  lemma {:induction false} RemembersMore(seen: set<EventKey>, keys: seq<EventKey>, k: EventKey)
    requires Remembers(seen, keys) && k !in seen
    ensures Remembers(seen + {k}, keys + [k])
  {
    assert forall x :: x in keys + [k] <==> x in keys || x == k;
  }

  lemma {:induction false} SpacedSnoc(told: seq<seq<EventKey>>, keys: seq<EventKey>)
    requires Spaced(told) && Different(keys) && (told != [] ==> |told[|told| - 1]| == MAX_SEEN)
    ensures Spaced(told + [keys])
  {
    hide Different;
    var next := told + [keys];
    forall i | 0 <= i < |next| ensures Different(next[i]) {
      if i < |told| { assert next[i] == told[i]; }
    }
    forall i | 0 <= i < |next| - 1 ensures |next[i]| == MAX_SEEN { assert next[i] == told[i]; }
  }

  lemma {:induction false} SpacedFront(told: seq<seq<EventKey>>)
    requires Spaced(told) && told != []
    ensures var front := told[..|told| - 1];
            Spaced(front) && (front != [] ==> |front[|front| - 1]| == MAX_SEEN)
  {
    hide Different;
  }

  lemma {:induction false} ToldSpaced(told: seq<seq<EventKey>>, full: bool, k: EventKey)
    requires Spaced(told) && k !in LastTold(told) && (full ==> |LastTold(told)| == MAX_SEEN)
    ensures Spaced(Told(told, full, k))
    ensures LastTold(Told(told, full, k)) == if full then [k] else LastTold(told) + [k]
  {
    hide Different, Spaced;
    if told == [] || full {
      DifferentSnoc([], k);
      assert [] + [k] == [k];
      SpacedSnoc(told, [k]);
    } else {
      LastDifferent(told);
      DifferentSnoc(told[|told| - 1], k);
      SpacedFront(told);
      SpacedSnoc(told[..|told| - 1], told[|told| - 1] + [k]);
    }
  }

  lemma {:induction false} LastDifferent(told: seq<seq<EventKey>>)
    requires Spaced(told) && told != []
    ensures Different(told[|told| - 1])
  {
    hide Different;
  }

  /** After a reset, or with what is remembered, one more telling is remembered. */
  lemma {:induction false} TellingRemembered(s: Store, full: bool, k: EventKey)
    requires Remembers(s.seen, LastTold(s.told)) && k !in s.seen
    ensures Remembers((if full then {} else s.seen) + {k}, if full then [k] else LastTold(s.told) + [k])
  {
    hide LastTold;
    if full {
      assert Remembers({}, []);
      RemembersMore({}, [], k);
      assert [] + [k] == [k];
    } else {
      RemembersMore(s.seen, LastTold(s.told), k);
    }
  }

  lemma {:induction false} NotLastTold(seen: set<EventKey>, keys: seq<EventKey>, k: EventKey)
    requires Remembers(seen, keys) && k !in seen
    ensures k !in keys && |keys| == |seen|
  {
  }

  lemma {:induction false} AnnouncedToldOnce(s: Store, e: Event)
    requires ToldOnce(s) && |s.seen| <= MAX_SEEN
    ensures ToldOnce(Announced(s, e))
  {
    if Key(e) !in s.seen {
      hide Tellings, Total, Spaced, Told, LastTold, Remembers;
      var full := |s.seen| >= MAX_SEEN;
      TellingsSnoc(s.markers, Correlated(e.podUID, e.reason, e.message, TimeOf(e)));
      ToldTotal(s.told, full, Key(e));
      NotLastTold(s.seen, LastTold(s.told), Key(e));
      ToldSpaced(s.told, full, Key(e));
      TellingRemembered(s, full, Key(e));
    }
  }

  lemma {:induction false} AllAnnouncedToldOnce(s: Store, refs: seq<Ref>, table: Table)
    requires ToldOnce(s) && |s.seen| <= MAX_SEEN
    ensures ToldOnce(AllAnnounced(s, refs, table))
  {
    if refs != [] {
      hide ToldOnce, Announced;
      var n := |refs| - 1;
      AllAnnouncedToldOnce(s, refs[..n], table);
      AllAnnouncedFrame(s, refs[..n], table);
      if Holds(table, refs[n]) {
        AnnouncedToldOnce(AllAnnounced(s, refs[..n], table), table[refs[n].podUID][refs[n].key]);
      }
    }
  }

  lemma {:induction false} RetainedTellsNothing(s: Store, e: Event)
    requires Valid(s)
    ensures var t := Retained(s, e);
            t.told == s.told && t.seen == s.seen && Tellings(t.markers) == Tellings(s.markers)
  {
    hide Enumerates, Tellings, Added, Removed;
    TellingsSnoc(s.markers, EventsPartial);
    assert s.markers + [] == s.markers;
  }

  lemma {:induction false} PerformedToldOnce(s: Store, op: Op)
    requires Valid(s) && ToldOnce(s)
    ensures ToldOnce(Performed(s, op))
  {
    match op
    case Arrives(event, tracked) =>
      hide Valid, Retained, Announced, Spaced, Remembers, Tellings, Total;
      SeenBounded(s);
      AnnouncedToldOnce(s, event);
      RetainedTellsNothing(s, event);
    case Reconciles(tracked) =>
      hide Valid, AllAnnounced, Due, Spaced, Remembers, Tellings, Total;
      SeenBounded(s);
      AllAnnouncedToldOnce(s, Due(s.order, tracked), s.pending);
  }

  lemma {:induction false} SeenBounded(s: Store)
    requires Valid(s)
    ensures |s.seen| <= MAX_SEEN
  {
  }

  /** Over any run. In particular an Event is told again only after MAX_SEEN tellings and a reset. */
  lemma {:induction false} ToldOnceBetweenResets(ops: seq<Op>)
    ensures Valid(EMPTY) && ToldOnce(Performing(EMPTY, ops))
  {
    if ops != [] {
      hide ToldOnce;
      ToldOnceBetweenResets(ops[..|ops| - 1]);
      PerformedToldOnce(Performing(EMPTY, ops[..|ops| - 1]), ops[|ops| - 1]);
    }
  }
}
