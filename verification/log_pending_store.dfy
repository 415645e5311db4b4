/** The pending-Event store as the loop owns it: a nested table and a slice over a backing array that
    a replay compacts in place. */
module LogPendingStore {
  import opened LogPending

  /** `now` is `before` without the entries behind `gone`. */
  ghost predicate Without(now: Table, before: Table, gone: seq<Ref>) {
    && (forall x :: Holds(now, x) <==> Holds(before, x) && x !in gone)
    && (forall x :: Holds(now, x) ==> now[x.podUID][x.key] == before[x.podUID][x.key])
    && (forall u :: u in now ==> now[u] != map[])
  }

  lemma {:induction false} WithoutMore(now: Table, before: Table, gone: seq<Ref>, r: Ref)
    requires Without(now, before, gone) && Holds(now, r)
    ensures Without(Removed(now, r), before, gone + [r])
  {
    RemovedHolds(now, r);
  }

  /** Once everything due is gone, the table is the old one restricted to unknown pods. */
  lemma {:induction false} WithoutAllDue(now: Table, order: seq<Ref>, before: Table, tracked: set<string>)
    requires Enumerates(order, before) && Without(now, before, Due(order, tracked))
    ensures now == map u | u in before && u !in tracked :: before[u]
  {
    forall x ensures Holds(now, x) <==> Holds(before, x) && x.podUID !in tracked {
      DueMembers(order, tracked, x);
      EnumerationIsExact(order, before);
    }
    forall u ensures u in now <==> u in before && u !in tracked {
      if u in now {
        var k :| k in now[u];
        assert Holds(now, Ref(u, k));
      }
      if u in before && u !in tracked {
        var k :| k in before[u];
        assert Holds(before, Ref(u, k)) && Holds(now, Ref(u, k));
      }
    }
    forall u | u in now ensures now[u] == before[u] {
      forall k ensures k in now[u] <==> k in before[u] {
        assert Holds(now, Ref(u, k)) <==> Holds(before, Ref(u, k));
      }
      forall k | k in now[u] ensures now[u][k] == before[u][k] {
        assert Holds(now, Ref(u, k));
      }
    }
  }

  lemma {:induction false} DueMembers(order: seq<Ref>, tracked: set<string>, r: Ref)
    ensures r in Due(order, tracked) <==> r in order && r.podUID in tracked
  {
    if order != [] {
      DueMembers(order[..|order| - 1], tracked, r);
      assert order == order[..|order| - 1] + [order[|order| - 1]];
    }
  }

  /** The reference a replay visits is still stored, and so is its Event. */
  lemma {:induction false} VisitedHolds(order: seq<Ref>, before: Table, now: Table, i: nat, tracked: set<string>)
    requires i < |order| && Enumerates(order, before) && Without(now, before, Due(order[..i], tracked))
    ensures Holds(before, order[i])
    ensures Holds(now, order[i]) && now[order[i].podUID][order[i].key].podUID == order[i].podUID
    ensures now[order[i].podUID][order[i].key] == before[order[i].podUID][order[i].key]
  {
    EnumerationIsExact(order, before);
    DueMembers(order[..i], tracked, order[i]);
    assert order[i] in order;
    assert forall j :: 0 <= j < i ==> order[..i][j] == order[j];
  }

  /** Halfway through a replay of `s`: the first `n` references are dealt with, `front` holds those
      to keep, and `now` is the store except for its order. */
  ghost predicate Swept(s: Store, tracked: set<string>, n: nat, front: seq<Ref>, now: Store)
    requires n <= |s.order|
  {
    var due := Due(s.order[..n], tracked);
    var told := AllAnnounced(s, due, s.pending);
    && front == Waiting(s.order[..n], tracked)
    && now.seen == told.seen && now.markers == told.markers && now.told == told.told
    && now.warned == s.warned && now.retained == s.retained && now.evicted == s.evicted
    && now.handed == s.handed + due
    && Without(now.pending, s.pending, due)
  }

  function HandedOn(now: Store, r: Ref): Store
    requires Holds(now.pending, r)
  {
    Announced(now, now.pending[r.podUID][r.key]).(pending := Removed(now.pending, r), handed := now.handed + [r])
  }

  lemma {:induction false} VisitedSwept(s: Store, tracked: set<string>, n: nat, front: seq<Ref>, now: Store)
    requires n < |s.order| && Swept(s, tracked, n, front, now) && Enumerates(s.order, s.pending)
    ensures Holds(now.pending, s.order[n]) && Holds(s.pending, s.order[n])
    ensures now.pending[s.order[n].podUID][s.order[n].key] == s.pending[s.order[n].podUID][s.order[n].key]
    ensures now.pending[s.order[n].podUID][s.order[n].key].podUID == s.order[n].podUID
  {
    VisitedHolds(s.order, s.pending, now.pending, n, tracked);
  }

  lemma {:induction false} Snoc(order: seq<Ref>, n: nat, tracked: set<string>)
    requires n < |order|
    ensures Due(order[..n + 1], tracked)
         == if order[n].podUID in tracked then Due(order[..n], tracked) + [order[n]] else Due(order[..n], tracked)
    ensures Waiting(order[..n + 1], tracked)
         == if order[n].podUID in tracked then Waiting(order[..n], tracked)
            else Waiting(order[..n], tracked) + [order[n]]
  {
    assert order[..n + 1][..n] == order[..n];
    assert Due(order[..n], tracked) + [] == Due(order[..n], tracked);
    assert Waiting(order[..n], tracked) + [] == Waiting(order[..n], tracked);
  }

  lemma {:induction false} AnnouncedSnoc(s: Store, due: seq<Ref>, r: Ref, table: Table)
    requires Holds(table, r)
    ensures AllAnnounced(s, due + [r], table) == Announced(AllAnnounced(s, due, table), table[r.podUID][r.key])
  {
    assert (due + [r])[..|due|] == due;
  }

  lemma {:induction false} SweepKeep(s: Store, tracked: set<string>, n: nat, front: seq<Ref>, now: Store)
    requires n < |s.order| && Swept(s, tracked, n, front, now) && s.order[n].podUID !in tracked
    ensures Swept(s, tracked, n + 1, front + [s.order[n]], now)
  {
    Snoc(s.order, n, tracked);
  }

  lemma {:induction false} SweepHand(s: Store, tracked: set<string>, n: nat, front: seq<Ref>, now: Store)
    requires n < |s.order| && Swept(s, tracked, n, front, now) && s.order[n].podUID in tracked
    requires Holds(now.pending, s.order[n]) && Holds(s.pending, s.order[n])
    requires now.pending[s.order[n].podUID][s.order[n].key] == s.pending[s.order[n].podUID][s.order[n].key]
    ensures Swept(s, tracked, n + 1, front, HandedOn(now, s.order[n]))
  {
    hide Without, Removed, Announced, AllAnnounced, Waiting, Due, HandedOn;
    var r := s.order[n];
    var due := Due(s.order[..n], tracked);
    Snoc(s.order, n, tracked);
    AnnouncedSnoc(s, due, r, s.pending);
    WithoutMore(now.pending, s.pending, due, r);
    HandedOnFrame(now, AllAnnounced(s, due, s.pending), r);
    assert s.handed + (due + [r]) == s.handed + due + [r];
  }

  lemma {:induction false} HandedOnFrame(now: Store, told: Store, r: Ref)
    requires Holds(now.pending, r) && now.seen == told.seen && now.markers == told.markers && now.told == told.told
    ensures var e, next := now.pending[r.podUID][r.key], HandedOn(now, r);
            && next.seen == Announced(told, e).seen && next.markers == Announced(told, e).markers
            && next.told == Announced(told, e).told
            && next.warned == now.warned && next.retained == now.retained && next.evicted == now.evicted
            && next.handed == now.handed + [r] && next.pending == Removed(now.pending, r)
  {
  }

  lemma {:induction false} SweptNone(s: Store, tracked: set<string>, front: seq<Ref>, now: Store)
    requires Enumerates(s.order, s.pending) && front == [] && now == s.(order := [])
    ensures Swept(s, tracked, 0, front, now)
  {
  }

  /** Dealing with the next reference, either way. */
  lemma {:induction false} SweepStep(s: Store, tracked: set<string>, n: nat, front: seq<Ref>, now: Store,
                                     front': seq<Ref>, now': Store)
    requires n < |s.order| && Swept(s, tracked, n, front, now)
    requires Holds(now.pending, s.order[n]) && Holds(s.pending, s.order[n])
    requires now.pending[s.order[n].podUID][s.order[n].key] == s.pending[s.order[n].podUID][s.order[n].key]
    requires s.order[n].podUID in tracked ==> front' == front && now' == HandedOn(now, s.order[n])
    requires s.order[n].podUID !in tracked ==> front' == front + [s.order[n]] && now' == now
    ensures Swept(s, tracked, n + 1, front', now')
  {
    if s.order[n].podUID in tracked {
      SweepHand(s, tracked, n, front, now);
    } else {
      SweepKeep(s, tracked, n, front, now);
    }
  }

  lemma {:induction false} SweptAll(s: Store, tracked: set<string>, front: seq<Ref>, now: Store)
    requires Valid(s) && Swept(s, tracked, |s.order|, front, now)
    ensures now.(order := front) == Replayed(s, tracked)
  {
    assert s.order[..|s.order|] == s.order;
    WithoutAllDue(now.pending, s.order, s.pending, tracked);
    AllAnnouncedFrame(s, Due(s.order, tracked), s.pending);
  }

  class PendingEvents {
    var pending: Table
    var backing: array<Ref>     // the slice pendingOrder is backing[lo..hi]
    var lo: nat
    var hi: nat
    var seen: set<EventKey>
    var warned: bool
    var markers: seq<Marker>
    ghost var retained: seq<Ref>
    ghost var handed: seq<Ref>
    ghost var evicted: seq<Ref>
    ghost var told: seq<seq<EventKey>>

    ghost predicate Sliced()
      reads this
    {
      lo <= hi <= backing.Length
    }

    ghost function Value(): Store
      reads this, backing
      requires Sliced()
    {
      Store(backing[lo..hi], pending, seen, warned, markers, retained, handed, evicted, told)
    }

    constructor ()
      ensures Sliced() && fresh(backing) && Value() == EMPTY
    {
      pending, lo, hi, seen, warned, markers := map[], 0, 0, {}, false, [];
      backing := new Ref[MAX_PENDING](_ => Ref("", EventKey("", "")));
      retained, handed, evicted, told := [], [], [], [];
    }

    /** Drops the oldest reference; the loss is announced once. */
    method EvictOldest()
      requires Sliced() && lo < hi && Holds(pending, backing[lo])
      modifies this`pending, this`lo, this`warned, this`markers, this`evicted
      ensures Sliced() && Value() == WithoutOldest(old(Value()))
    {
      var oldest := backing[lo];
      lo := lo + 1;
      var rest := pending[oldest.podUID] - {oldest.key};
      if rest == map[] {
        pending := pending - {oldest.podUID};
      } else {
        pending := pending[oldest.podUID := rest];
      }
      evicted := evicted + [oldest];
      if !warned {
        warned := true;
        markers := markers + [EventsPartial];
      }
    }

    /** Appends a reference; a full backing array is replaced, as a slice append does. */
    method AppendRef(r: Ref)
      requires Sliced()
      modifies this`backing, this`lo, this`hi, backing
      ensures Sliced() && (backing == old(backing) || fresh(backing))
      ensures backing[lo..hi] == old(backing[lo..hi]) + [r]
    {
      if hi == backing.Length {
        var size := hi - lo;
        var grown := new Ref[2 * size + 1](_ => r);
        forall i | 0 <= i < size {
          grown[i] := backing[lo + i];
        }
        assert grown[..size] == backing[lo..hi];
        backing, lo, hi := grown, 0, size;
      }
      backing[hi] := r;
      hi := hi + 1;
    }

    method StoreEvent(e: Event)
      requires Sliced()
      modifies this`pending, this`retained, this`backing, this`lo, this`hi, backing
      ensures Sliced() && (backing == old(backing) || fresh(backing))
      ensures Value() == Stored(old(Value()), e)
    {
      var uid, key := e.podUID, Key(e);
      if uid !in pending {
        pending := pending[uid := map[]];
      }
      pending := pending[uid := pending[uid][key := Compact(e)]];
      assert pending == Added(old(pending), e);
      retained := retained + [Ref(uid, key)];
      AppendRef(Ref(uid, key));
    }

    method RetainEvent(e: Event)
      requires Sliced() && Valid(Value())
      modifies this, backing
      ensures Sliced() && (backing == old(backing) || fresh(backing))
      ensures Value() == Retained(old(Value()), e)
    {
      if e.podUID == "" {
        return;
      }
      if e.podUID in pending && Key(e) in pending[e.podUID] {
        return;
      }
      if hi - lo >= MAX_PENDING {
        OldestRemoved(backing[lo..hi], pending);
        EvictOldest();
      }
      StoreEvent(e);
    }

    method ProcessEvent(e: Event, tracked: set<string>)
      requires Sliced() && (e.podUID in tracked || Valid(Value()))
      modifies this, backing
      ensures Sliced() && (backing == old(backing) || fresh(backing))
      ensures old(e.podUID !in tracked && Valid(Value())) ==> Value() == Processed(old(Value()), e, tracked)
      ensures e.podUID in tracked ==>
                && Value() == Announced(old(Value()), e) && backing[..] == old(backing[..])
                && backing == old(backing) && lo == old(lo) && hi == old(hi)
    {
      if Key(e) in seen {
        return;
      }
      if e.podUID in tracked {
        told := Told(told, |seen| >= MAX_SEEN, Key(e));
        if |seen| >= MAX_SEEN {
          seen := {};
        }
        seen := seen + {Key(e)};
        var at := if e.lastAt == 0 then e.eventAt else e.lastAt;
        markers := markers + [Correlated(e.podUID, e.reason, e.message, at)];
        return;
      }
      RetainEvent(e);
    }

    /** Replays in arrival order and compacts the slice in place: the references to keep are written
        over the front of the same array while the loop still reads its rest. */
    method ReplayPending(tracked: set<string>)
      requires Sliced() && Valid(Value())
      modifies this, backing
      ensures Sliced() && backing == old(backing) && Value() == Replayed(old(Value()), tracked)
    {
      hide Swept, Replayed, Enumerates, Waiting, Due, AllAnnounced;
      ghost var s := Value();
      assert s.order[0..] == s.order;
      SweptNone(s, tracked, backing[lo..lo], Rest());
      var kept := Sweep(s, tracked);
      ghost var front, now := backing[lo..kept], Rest();
      hi := kept;
      SweptAll(s, tracked, front, now);
    }

    /** The first `n` references are dealt with, the rest is still in place. */
    ghost predicate SweptTo(s: Store, tracked: set<string>, kept: nat, n: nat)
      reads this, backing
    {
      && lo <= kept <= lo + n <= hi <= backing.Length && |s.order| == hi - lo
      && backing[lo + n..hi] == s.order[n..]
      && Swept(s, tracked, n, backing[lo..kept], Rest())
    }

    /** The loop of a replay, over the range the slice had when it started. */
    method Sweep(ghost s: Store, tracked: set<string>) returns (kept: nat)
      requires lo <= hi && Enumerates(s.order, s.pending) && SweptTo(s, tracked, lo, 0)
      modifies this, backing
      ensures lo == old(lo) && hi == old(hi) && backing == old(backing)
      ensures SweptTo(s, tracked, kept, hi - lo)
    {
      hide *;
      kept := lo;
      for n := 0 to hi - lo
        invariant lo == old(lo) && hi == old(hi) && backing == old(backing)
        invariant SweptTo(s, tracked, kept, n)
      {
        kept := VisitNext(s, kept, n, tracked);
      }
    }

    method VisitNext(ghost s: Store, kept: nat, n: nat, tracked: set<string>) returns (next: nat)
      requires SweptTo(s, tracked, kept, n) && lo + n < hi && Enumerates(s.order, s.pending)
      modifies this, backing
      ensures lo == old(lo) && hi == old(hi) && backing == old(backing)
      ensures SweptTo(s, tracked, next, n + 1)
    {
      hide Swept, HandedOn, Enumerates, Removed, Announced;
      ghost var front, now := backing[lo..kept], Rest();
      assert backing[lo + n] == s.order[n] && backing[lo + n + 1..hi] == s.order[n + 1..] by {
        assert backing[lo + n..hi][0] == backing[lo + n] && backing[lo + n..hi][1..] == backing[lo + n + 1..hi];
      }
      VisitedSwept(s, tracked, n, front, now);
      next := Visit(kept, lo + n, tracked);
      SweepStep(s, tracked, n, front, now, backing[lo..next], Rest());
    }

    ghost function Rest(): Store
      reads this, backing
      requires Sliced()
    {
      Value().(order := [])
    }

    /** One reference of a replay: handed on, or kept at the front of the slice. */
    method Visit(kept: nat, i: nat, tracked: set<string>) returns (next: nat)
      requires lo <= kept <= i < hi <= backing.Length && Holds(pending, backing[i])
      requires pending[backing[i].podUID][backing[i].key].podUID == backing[i].podUID
      modifies this, backing
      ensures Sliced() && backing == old(backing) && lo == old(lo) && hi == old(hi)
      ensures backing[i + 1..hi] == old(backing[i + 1..hi])
      ensures old(backing[i].podUID in tracked) ==>
                && next == kept && backing[lo..kept] == old(backing[lo..kept])
                && Rest() == HandedOn(old(Rest()), old(backing[i]))
      ensures old(backing[i].podUID !in tracked) ==>
                && next == kept + 1 && backing[lo..next] == old(backing[lo..kept]) + [old(backing[i])]
                && Rest() == old(Rest())
    {
      var ref := backing[i];
      next := kept;
      if ref.podUID in pending && ref.key in pending[ref.podUID] {
        if ref.podUID !in tracked {
          Keep(kept, i);
          next := kept + 1;
        } else {
          HandOn(ref, tracked);
        }
      }
    }

    /** Processes the stored Event behind a reference and forgets it. */
    method HandOn(r: Ref, tracked: set<string>)
      requires Sliced() && Holds(pending, r)
      requires r.podUID in tracked && pending[r.podUID][r.key].podUID == r.podUID
      modifies this, backing
      ensures Sliced() && backing == old(backing) && lo == old(lo) && hi == old(hi)
      ensures backing[..] == old(backing[..]) && Rest() == HandedOn(old(Rest()), r)
    {
      ProcessEvent(pending[r.podUID][r.key], tracked);
      var rest := pending[r.podUID] - {r.key};
      if rest == map[] {
        pending := pending - {r.podUID};
      } else {
        pending := pending[r.podUID := rest];
      }
      handed := handed + [r];
    }

    /** Moves one reference to the front part of the slice. */
    method Keep(at: nat, i: nat)
      requires lo <= at <= i < hi <= backing.Length
      modifies backing
      ensures backing[lo..at + 1] == old(backing[lo..at]) + [old(backing[i])]
      ensures backing[i + 1..hi] == old(backing[i + 1..hi])
    {
      backing[at] := backing[i];
    }
  }
}
