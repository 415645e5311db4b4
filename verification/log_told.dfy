/** What the told Events say: which arrivals they come from, and in what order a replay tells them. */
module LogTold {
  import opened LogPending

  /** A cut reason or message, as it is retained. */
  function Message(e: Event): string {
    if |e.message| <= 65536 then e.message else e.message[..65536] + " [Event message truncated]"
  }

  function Reason(e: Event): string { if |e.reason| <= 1024 then e.reason else e.reason[..1024] }

  predicate Short(e: Event) { |e.message| <= 65536 && |e.reason| <= 1024 }

  /** The pending Event behind a reference is the one that arrived, up to the bounds on its texts. */
  predicate KeptAs(s: Store, e: Event) {
    var k := EventKey(e.uid, e.version);
    && e.podUID in s.pending && k in s.pending[e.podUID]
    && s.pending[e.podUID][k] == Event(e.uid, e.version, e.podUID, Reason(e), Message(e), e.lastAt, e.eventAt)
  }

  lemma {:induction false} ShortIsKept(s: Store, e: Event)
    requires Short(e) && KeptAs(s, e)
    ensures s.pending[e.podUID][EventKey(e.uid, e.version)] == e
  {
  }

  predicate Unchanged(s: Store, t: Store, r: Ref) {
    Holds(s.pending, r) && Holds(t.pending, r) && t.pending[r.podUID][r.key] == s.pending[r.podUID][r.key]
  }

  // ---- One arrival ----

  lemma {:induction false} RetainedKeeps(s: Store, e: Event, r: Ref)
    requires Valid(s) && Holds(Retained(s, e).pending, r)
    ensures Unchanged(s, Retained(s, e), r)
            || (r == RefOf(e) && e.podUID != "" && !Holds(s.pending, r) && KeptAs(Retained(s, e), e))
  {
    hide Enumerates, Removed;
    if e.podUID != "" && !Holds(s.pending, RefOf(e)) {
      if |s.order| >= MAX_PENDING {
        WithoutOldestValid(s);
        RemovedHolds(s.pending, s.order[0]);
        AddedKeeps(WithoutOldest(s).pending, e, r);
      } else {
        AddedKeeps(s.pending, e, r);
      }
    }
  }

  lemma {:induction false} AddedKeeps(table: Table, e: Event, r: Ref)
    requires Holds(Added(table, e), r)
    ensures r != RefOf(e) ==> Holds(table, r) && Added(table, e)[r.podUID][r.key] == table[r.podUID][r.key]
    ensures r == RefOf(e) ==>
              Added(table, e)[r.podUID][r.key]
              == Event(e.uid, e.version, e.podUID, Reason(e), Message(e), e.lastAt, e.eventAt)
  {
  }

  lemma {:induction false} Kept(s: Store, e: Event)
    requires Valid(s) && e.podUID != "" && !Holds(s.pending, RefOf(e))
    ensures var t := Retained(s, e);
            && KeptAs(t, e) && t.seen == s.seen && t.told == s.told
            && t.order == (if |s.order| == 512 then s.order[1..] else s.order) + [RefOf(e)]
            && t.markers == s.markers + (if |s.order| == 512 && !s.warned then [EventsPartial] else [])
  {
    hide Removed, Added, Enumerates, KeptAs;
    RetainedValid(s, e);
    RetainedKeeps(s, e, RefOf(e));
    if |s.order| >= MAX_PENDING { OldestRemoved(s.order, s.pending); }
  }

  lemma {:induction false} OthersKept(s: Store, e: Event)
    requires Valid(s)
    ensures forall r :: r != RefOf(e) && r in Retained(s, e).order ==> Unchanged(s, Retained(s, e), r)
  {
    hide Retained, Unchanged, KeptAs, Holds;
    var t := Retained(s, e);
    RetainedValid(s, e);
    EnumerationIsExact(t.order, t.pending);
    forall r | r != RefOf(e) && r in t.order ensures Unchanged(s, t, r) { RetainedKeeps(s, e, r); }
  }

  /** An Event that was told is ignored; one of a tracked pod is told with its own texts and time; of the rest,
      one without a pod or already pending is ignored, and any other is kept, the oldest making room. */
  lemma {:induction false} ArrivesExactly(s: Store, e: Event, tracked: set<string>)
    requires Valid(s)
    ensures var t, k := Processed(s, e, tracked), EventKey(e.uid, e.version);
            if k in s.seen then t == s
            else if e.podUID in tracked then
              && t == s.(seen := t.seen, markers := t.markers, told := t.told)
              && t.seen == (if |s.seen| >= 512 then {k} else s.seen + {k})
              && t.markers == s.markers + [Correlated(e.podUID, e.reason, e.message,
                                                      if e.lastAt != 0 then e.lastAt else e.eventAt)]
            else if e.podUID == "" || (e.podUID in s.pending && k in s.pending[e.podUID]) then t == s
            else
              && KeptAs(t, e) && t.seen == s.seen && t.told == s.told
              && t.order == (if |s.order| == 512 then s.order[1..] else s.order) + [Ref(e.podUID, k)]
              && t.markers == s.markers + (if |s.order| == 512 && !s.warned then [EventsPartial] else [])
              && forall r :: r != Ref(e.podUID, k) && r in t.order ==> Unchanged(s, t, r)
  {
    hide KeptAs, Unchanged, Removed, Added, Holds, Valid;
    AnnouncedTells(s, e);
    HoldsMeans(s, e);
    OthersKept(s, e);
    if e.podUID != "" && !Holds(s.pending, RefOf(e)) { Kept(s, e); }
  }

  lemma {:induction false} HoldsMeans(s: Store, e: Event)
    ensures Holds(s.pending, RefOf(e)) <==> e.podUID in s.pending && Key(e) in s.pending[e.podUID]
  {
  }

  // ---- One replay ----

  /** The stored Events behind some references. */
  function Behind(table: Table, refs: seq<Ref>): seq<Event> {
    if refs == [] then []
    else
      var r := refs[|refs| - 1];
      Behind(table, refs[..|refs| - 1])
      + (if r.podUID in table && r.key in table[r.podUID] then [table[r.podUID][r.key]] else [])
  }

  /** What a dedup set of at most 512 keys, reset when it is full, lets through. */
  datatype Letting = Letting(seen: set<EventKey>, markers: seq<Marker>)

  function LetThrough(seen: set<EventKey>, events: seq<Event>): Letting {
    if events == [] then Letting(seen, [])
    else
      var e := events[|events| - 1];
      var before, k := LetThrough(seen, events[..|events| - 1]), EventKey(e.uid, e.version);
      if k in before.seen then before
      else
        Letting(if |before.seen| >= 512 then {k} else before.seen + {k},
                before.markers + [Correlated(e.podUID, e.reason, e.message,
                                             if e.lastAt != 0 then e.lastAt else e.eventAt)])
  }

  lemma {:induction false} LetThroughNext(seen: set<EventKey>, events: seq<Event>, e: Event)
    ensures var (before, k) := (LetThrough(seen, events), EventKey(e.uid, e.version));
            LetThrough(seen, events + [e])
            == if k in before.seen then before
               else Letting(if |before.seen| >= 512 then {k} else before.seen + {k},
                            before.markers + [Correlated(e.podUID, e.reason, e.message,
                                                         if e.lastAt != 0 then e.lastAt else e.eventAt)])
  {
    assert (events + [e])[..|events|] == events;
  }

  lemma {:induction false} AllAnnouncedTells(s: Store, refs: seq<Ref>, table: Table)
    ensures var t, told := AllAnnounced(s, refs, table), LetThrough(s.seen, Behind(table, refs));
            t.seen == told.seen && t.markers == s.markers + told.markers
  {
    if refs != [] {
      hide Announced, LetThrough;
      var n := |refs| - 1;
      var t, r, events := AllAnnounced(s, refs[..n], table), refs[n], Behind(table, refs[..n]);
      AllAnnouncedTells(s, refs[..n], table);
      if Holds(table, r) {
        var e := table[r.podUID][r.key];
        LetThroughNext(s.seen, events, e);
        AnnouncedTells(t, e);
      } else {
        assert events + [] == events;
      }
    } else {
      assert s.markers + [] == s.markers;
    }
  }

  lemma {:induction false} AnnouncedTells(s: Store, e: Event)
    ensures var t, k := Announced(s, e), EventKey(e.uid, e.version);
            if k in s.seen then t == s
            else
              && t.seen == (if |s.seen| >= 512 then {k} else s.seen + {k})
              && t.markers == s.markers + [Correlated(e.podUID, e.reason, e.message,
                                                      if e.lastAt != 0 then e.lastAt else e.eventAt)]
  {
    assert {} + {Key(e)} == {Key(e)};
  }

  lemma {:induction false} DueLast(order: seq<Ref>, tracked: set<string>)
    requires order != []
    ensures var last := order[|order| - 1];
            Due(order, tracked) == Due(order[..|order| - 1], tracked) + (if last.podUID in tracked then [last] else [])
  {
  }

  /** Where a pending reference of a tracked pod stands among those that are due: behind as many as arrived
      before it. */
  lemma {:induction false} DueInOrder(order: seq<Ref>, tracked: set<string>, i: nat)
    requires i < |order| && order[i].podUID in tracked
    ensures var n := |Due(order[..i], tracked)|;
            && n < |Due(order, tracked)| && Due(order, tracked)[n] == order[i]
            && Due(order, tracked)[..n] == Due(order[..i], tracked)
    decreases |order|
  {
    hide Due;
    var front := order[..|order| - 1];
    DueLast(order, tracked);
    if i < |front| {
      assert front[..i] == order[..i];
      DueInOrder(front, tracked, i);
    }
  }

  lemma {:induction false} DueMembers(order: seq<Ref>, tracked: set<string>, r: Ref)
    ensures r in Due(order, tracked) <==> r in order && r.podUID in tracked
  {
    if order != [] {
      var front := order[..|order| - 1];
      DueMembers(front, tracked, r);
      assert order == front + [order[|front|]];
    }
  }

  /** A replay tells the pending Events of tracked pods, in arrival order, through the dedup set; they leave, and
      all others stay as they are. */
  lemma {:induction false} ReplaysExactly(s: Store, tracked: set<string>)
    requires Valid(s)
    ensures var t := Replayed(s, tracked);
            var told := LetThrough(s.seen, Behind(s.pending, Due(s.order, tracked)));
            && t.seen == told.seen && t.markers == s.markers + told.markers
            && (forall r :: r in t.order <==> r in s.order && r.podUID !in tracked)
            && (forall r :: r in t.order ==> Unchanged(s, t, r))
            && (forall r :: r in Due(s.order, tracked) <==> r in s.order && r.podUID in tracked)
  {
    hide Due, LetThrough, Behind, Waiting, AllAnnounced;
    AllAnnouncedTells(s, Due(s.order, tracked), s.pending);
    ReplayedValid(s, tracked);
    EnumerationIsExact(s.order, s.pending);
    var t := Replayed(s, tracked);
    EnumerationIsExact(t.order, t.pending);
    forall r ensures r in Due(s.order, tracked) <==> r in s.order && r.podUID in tracked {
      DueMembers(s.order, tracked, r);
    }
  }

  predicate DistinctEvents(events: seq<Event>) {
    forall i, j :: 0 <= i < j < |events| ==> Key(events[i]) != Key(events[j])
  }

  /** Events with different keys that were not told all get through, each as it is. */
  lemma {:induction false} AllGetThrough(seen: set<EventKey>, events: seq<Event>)
    requires DistinctEvents(events) && forall e :: e in events ==> Key(e) !in seen
    ensures var told := LetThrough(seen, events);
            && |told.markers| == |events|
            && (forall i :: 0 <= i < |events| ==>
                  var e := events[i];
                  told.markers[i] == Correlated(e.podUID, e.reason, e.message,
                                                if e.lastAt != 0 then e.lastAt else e.eventAt))
            && forall k :: k in told.seen ==> k in seen || exists e :: e in events && Key(e) == k
  {
    if events != [] {
      var n := |events| - 1;
      var e := events[n];
      assert events == events[..n] + [e];
      AllGetThrough(seen, events[..n]);
      assert Key(e) !in LetThrough(seen, events[..n]).seen;
      assert forall k :: k in LetThrough(seen, events).seen ==> k == Key(e) || k in LetThrough(seen, events[..n]).seen;
    }
  }

  // ---- From the arrival to the telling ----

  /** A pending Event stays as it was kept, until its pod is tracked or it is evicted. */
  lemma {:induction false} StepKeeps(s: Store, op: Op, r: Ref)
    requires Valid(s) && Holds(s.pending, r)
    ensures var t := Performed(s, op);
            if Holds(t.pending, r) then Unchanged(s, t, r)
            else if op.Arrives? then s.order != [] && r == s.order[0] && t.evicted == s.evicted + [r]
            else r.podUID in op.tracked && r in t.handed
  {
    hide Enumerates;
    match op
    case Arrives(event, tracked) =>
      ArrivalKeeps(s, event, r);
    case Reconciles(tracked) =>
      ReplayedValid(s, tracked);
      DueMembers(s.order, tracked, r);
      EnumerationIsExact(s.order, s.pending);
  }

  lemma {:induction false} ArrivalKeeps(s: Store, e: Event, r: Ref)
    requires Valid(s) && Holds(s.pending, r)
    ensures var t := Retained(s, e);
            if Holds(t.pending, r) then Unchanged(s, t, r)
            else s.order != [] && r == s.order[0] && t.evicted == s.evicted + [r]
  {
    hide Unchanged, KeptAs, Enumerates, Added, Removed;
    var t := Retained(s, e);
    if Holds(t.pending, r) {
      RetainedKeeps(s, e, r);
    } else {
      hide Holds;
      RetainedValid(s, e);
      EnumerationIsExact(s.order, s.pending);
      EnumerationIsExact(t.order, t.pending);
      OnlyFirstLeaves(s.order, t.order, r);
    }
  }

  lemma {:induction false} OnlyFirstLeaves(before: seq<Ref>, after: seq<Ref>, r: Ref)
    requires r in before && r !in after
    requires after == before
             || (after != [] && after[..|after| - 1] == if |before| >= MAX_PENDING then before[1..] else before)
    ensures |before| >= MAX_PENDING && r == before[0]
  {
    assert before == [before[0]] + before[1..];
  }

  ghost predicate StaysPending(s: Store, ops: seq<Op>, r: Ref)
    requires Valid(s)
  {
    forall i :: 0 <= i <= |ops| ==> Holds(Performing(s, ops[..i]).pending, r)
  }

  lemma {:induction false} StaysFront(s: Store, ops: seq<Op>, r: Ref)
    requires Valid(s) && StaysPending(s, ops, r)
    ensures Holds(Performing(s, ops).pending, r)
    ensures ops != [] ==> StaysPending(s, ops[..|ops| - 1], r)
  {
    hide Valid, Holds, Performed;
    assert ops[..|ops|] == ops;
    if ops != [] {
      var n := |ops| - 1;
      forall i | 0 <= i <= n ensures Holds(Performing(s, ops[..n][..i]).pending, r) {
        assert ops[..n][..i] == ops[..i];
      }
    }
  }

  /** Whatever else arrives and is reconciled meanwhile, an Event that is still pending is the one that arrived,
      up to the bounds on its texts. */
  lemma {:induction false} WaitsAsItArrived(s: Store, e: Event, tracked: set<string>, ops: seq<Op>)
    requires Valid(s) && e.podUID != "" && e.podUID !in tracked && Key(e) !in s.seen && !Holds(s.pending, RefOf(e))
    requires StaysPending(Performed(s, Arrives(e, tracked)), ops, RefOf(e))
    ensures KeptAs(Performing(Performed(s, Arrives(e, tracked)), ops), e)
  {
    var t := Performed(s, Arrives(e, tracked));
    if ops == [] {
      Kept(s, e);
    } else {
      hide KeptAs, Holds, Unchanged, Valid, Performed, StaysPending;
      var n := |ops| - 1;
      StaysFront(t, ops, RefOf(e));
      StaysFront(t, ops[..n], RefOf(e));
      WaitsAsItArrived(s, e, tracked, ops[..n]);
      StepKeeps(Performing(t, ops[..n]), ops[n], RefOf(e));
      StillKept(Performing(t, ops[..n]), Performing(t, ops), e);
    }
  }

  lemma {:induction false} StillKept(s: Store, t: Store, e: Event)
    requires KeptAs(s, e) && Unchanged(s, t, RefOf(e))
    ensures KeptAs(t, e)
  {
  }

  // ---- Every telling comes from an arrival ----

  predicate Tells(m: Marker, e: Event) {
    && m.Correlated? && m.podUID == e.podUID && m.at == (if e.lastAt != 0 then e.lastAt else e.eventAt)
    && ((m.reason == e.reason && m.message == e.message) || (m.reason == Reason(e) && m.message == Message(e)))
  }

  ghost predicate Arrived(ops: seq<Op>, e: Event) { exists i :: 0 <= i < |ops| && ops[i].Arrives? && ops[i].event == e }

  ghost predicate HeldArrived(s: Store, ops: seq<Op>, r: Ref) {
    exists e :: Arrived(ops, e) && RefOf(e) == r && KeptAs(s, e)
  }

  ghost predicate ToldArrived(m: Marker, ops: seq<Op>) { exists e :: Arrived(ops, e) && Tells(m, e) }

  /** Whatever is pending, or was told, arrived. */
  ghost predicate FromArrivals(s: Store, ops: seq<Op>) {
    && (forall r :: Holds(s.pending, r) ==> HeldArrived(s, ops, r))
    && (forall m :: m in s.markers && m.Correlated? ==> ToldArrived(m, ops))
  }

  lemma {:induction false} ArrivedMore(ops: seq<Op>, op: Op)
    ensures forall e :: Arrived(ops, e) ==> Arrived(ops + [op], e)
    ensures op.Arrives? ==> Arrived(ops + [op], op.event)
  {
    var more := ops + [op];
    forall e | Arrived(ops, e) ensures Arrived(more, e) {
      var i :| 0 <= i < |ops| && ops[i].Arrives? && ops[i].event == e;
      assert more[i].Arrives? && more[i].event == e;
    }
    assert more[|ops|] == op;
  }

  lemma {:induction false} HeldArrives(s: Store, ops: seq<Op>, op: Op, r: Ref)
    requires Valid(s) && FromArrivals(s, ops) && Holds(Performed(s, op).pending, r)
    ensures HeldArrived(Performed(s, op), ops + [op], r)
  {
    hide Tells, ToldArrived, KeptAs, Arrived, Unchanged, Holds;
    var t := Performed(s, op);
    ArrivedMore(ops, op);
    if Holds(s.pending, r) {
      StepKeeps(s, op, r);
      assert HeldArrived(s, ops, r);
      var e :| Arrived(ops, e) && RefOf(e) == r && KeptAs(s, e);
      StillKept(s, t, e);
    } else {
      NewlyHeld(s, op, r);
    }
  }

  lemma {:induction false} NewlyHeld(s: Store, op: Op, r: Ref)
    requires Valid(s) && Holds(Performed(s, op).pending, r) && !Holds(s.pending, r)
    ensures op.Arrives? && RefOf(op.event) == r && KeptAs(Performed(s, op), op.event)
  {
    hide KeptAs, Retained, Enumerates;
    match op
    case Arrives(e, tracked) =>
      if Key(e) !in s.seen && e.podUID !in tracked { RetainedKeeps(s, e, r); }
    case Reconciles(tracked) => ReplayedValid(s, tracked);
  }

  lemma {:induction false} LetThroughFrom(seen: set<EventKey>, events: seq<Event>, m: Marker)
    requires m in LetThrough(seen, events).markers
    ensures exists e :: e in events && m == Correlated(e.podUID, e.reason, e.message, TimeOf(e))
    decreases |events|
  {
    var n := |events| - 1;
    assert events == events[..n] + [events[n]];
    if m in LetThrough(seen, events[..n]).markers { LetThroughFrom(seen, events[..n], m); }
  }

  lemma {:induction false} BehindFrom(table: Table, refs: seq<Ref>, e: Event)
    requires e in Behind(table, refs)
    ensures exists r :: r in refs && Holds(table, r) && table[r.podUID][r.key] == e
  {
    var n := |refs| - 1;
    assert refs == refs[..n] + [refs[n]];
    if e in Behind(table, refs[..n]) { BehindFrom(table, refs[..n], e); }
  }

  /** A replay tells what is pending. */
  lemma {:induction false} ReplayTells(s: Store, tracked: set<string>, m: Marker)
    requires m in Replayed(s, tracked).markers
    ensures m in s.markers
            || exists r :: Holds(s.pending, r) &&
                 var e := s.pending[r.podUID][r.key];
                 m == Correlated(e.podUID, e.reason, e.message, TimeOf(e))
  {
    hide Due, LetThrough, Behind, Waiting, AllAnnounced, TimeOf;
    var due := Behind(s.pending, Due(s.order, tracked));
    AllAnnouncedTells(s, Due(s.order, tracked), s.pending);
    if m !in s.markers {
      LetThroughFrom(s.seen, due, m);
      var e :| e in due && m == Correlated(e.podUID, e.reason, e.message, TimeOf(e));
      BehindFrom(s.pending, Due(s.order, tracked), e);
    }
  }

  lemma {:induction false} ToldArrives(s: Store, ops: seq<Op>, op: Op, m: Marker)
    requires Valid(s) && FromArrivals(s, ops) && m in Performed(s, op).markers && m.Correlated?
    ensures ToldArrived(m, ops + [op])
  {
    hide Tells, KeptAs, Arrived, Replayed;
    ArrivedMore(ops, op);
    if m in s.markers {
      assert ToldArrived(m, ops);
    } else {
      match op
      case Arrives(e, tracked) => ArrivalTells(s, e, tracked, m);
      case Reconciles(tracked) =>
        ReplayTells(s, tracked, m);
        var r :| Holds(s.pending, r) && var e := s.pending[r.podUID][r.key];
                                        m == Correlated(e.podUID, e.reason, e.message, TimeOf(e));
        assert HeldArrived(s, ops, r);
        var e :| Arrived(ops, e) && RefOf(e) == r && KeptAs(s, e);
        KeptTells(s, e, m);
    }
  }

  lemma {:induction false} ArrivalTells(s: Store, e: Event, tracked: set<string>, m: Marker)
    requires Valid(s) && m in Processed(s, e, tracked).markers && m.Correlated? && m !in s.markers
    ensures Tells(m, e)
  {
    hide KeptAs, Unchanged, Valid;
    ArrivesExactly(s, e, tracked);
  }

  lemma {:induction false} KeptTells(s: Store, e: Event, m: Marker)
    requires KeptAs(s, e)
    requires var x := s.pending[e.podUID][Key(e)];
             m == Correlated(x.podUID, x.reason, x.message, TimeOf(x))
    ensures Tells(m, e)
  {
  }

  /** Over any run: what is told or pending is an Event that arrived, its texts at most cut to their bounds; so a
      short Event is told with the very texts it came with. */
  lemma {:induction false} OnlyWhatArrived(ops: seq<Op>)
    ensures Valid(EMPTY) && FromArrivals(Performing(EMPTY, ops), ops)
  {
    if ops != [] {
      hide FromArrivals, HeldArrived, ToldArrived;
      var n := |ops| - 1;
      assert ops == ops[..n] + [ops[n]];
      OnlyWhatArrived(ops[..n]);
      ArrivalsStep(Performing(EMPTY, ops[..n]), ops[..n], ops[n]);
    }
  }

  lemma {:induction false} ArrivalsStep(s: Store, ops: seq<Op>, op: Op)
    requires Valid(s) && FromArrivals(s, ops)
    ensures FromArrivals(Performed(s, op), ops + [op])
  {
    hide HeldArrived, ToldArrived, Holds;
    var t := Performed(s, op);
    forall r | Holds(t.pending, r) ensures HeldArrived(t, ops + [op], r) { HeldArrives(s, ops, op, r); }
    forall m | m in t.markers && m.Correlated? ensures ToldArrived(m, ops + [op]) { ToldArrives(s, ops, op, m); }
  }

  lemma {:induction false} ShortIsToldAsIs(m: Marker, e: Event)
    requires Short(e) && Tells(m, e)
    ensures m == Correlated(e.podUID, e.reason, e.message, if e.lastAt != 0 then e.lastAt else e.eventAt)
  {
  }
}
