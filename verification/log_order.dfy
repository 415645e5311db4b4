/** The order in which a reconciliation tells its markers. */
module LogMarkerOrder {
  import opened LogFollow
  import opened LogReconcile

  /** These markers were told, as far as the deliveries last. */
  predicate Gives(st: State, now: State, told: seq<Marker>) {
    var n := if |told| <= st.sends then |told| else st.sends;
    now.markers == st.markers + told[..n] && now.sends == st.sends - n
  }

  lemma {:induction false} GivesNothing(st: State, now: State)
    requires now.markers == st.markers && now.sends == st.sends
    ensures Gives(st, now, [])
  {
  }

  lemma {:induction false} GivesIf(st: State, when: bool, m: Marker)
    ensures Gives(st, EmittedIf(st, when, m), if when then [m] else [])
  {
  }

  lemma {:induction false} GivesMore(a: State, b: State, c: State, x: seq<Marker>, y: seq<Marker>)
    requires Gives(a, b, x) && Gives(b, c, y)
    ensures Gives(a, c, x + y)
  {
    if |x| >= a.sends {
      assert (x + y)[..a.sends] == x[..a.sends];
      assert y[..0] == [];
    } else {
      var n := if |y| <= b.sends then |y| else b.sends;
      assert (x + y)[..|x| + n] == x + y[..n] && x[..|x|] == x;
    }
  }

  // ---- One target ----

  /** What a tracked target tells: that it ended, and then that its revision is another one. */
  function RefreshTold(s: Followed, t: Target): seq<Marker> {
    (if t.terminal && !s.terminal then [Terminal(t.source)] else [])
    + (if t.revision != s.revision then [Rollout(t.source)] else [])
  }

  /** What a new worker tells: its join, an earlier termination, and its revision. */
  function StartTold(t: Target): seq<Marker> {
    [Join(t.source)] + (if t.lastTermination then [LastTermination(t.source)] else [])
    + (if t.revision != "" then [Rollout(t.source)] else [])
  }

  lemma {:induction false} RefreshGives(st: State, t: Target)
    requires t.source in st.sources
    ensures Gives(st, Refreshed(st, t), RefreshTold(st.sources[t.source], t))
  {
    hide Gives, EmittedIf;
    var s, kept := st.sources[t.source], Kept(st, t);
    var first, second := t.terminal && !s.terminal, t.revision != s.revision;
    var told := EmittedIf(kept, first, Terminal(t.source));
    GivesNothing(st, kept);
    GivesIf(kept, first, Terminal(t.source));
    GivesIf(told, second, Rollout(t.source));
    var x, y := if first then [Terminal(t.source)] else [], if second then [Rollout(t.source)] else [];
    GivesMore(st, kept, told, [], x);
    assert [] + x == x;
    GivesMore(st, told, EmittedIf(told, second, Rollout(t.source)), x, y);
  }

  lemma {:induction false} StartGives(st: State, t: Target)
    ensures Gives(st, Started(st, t), StartTold(t))
  {
    hide Gives, EmittedIf, Emitted;
    var reserved := Reserved(st, t);
    var joined := Emitted(reserved, Join(t.source));
    OneEmitted(reserved, Join(t.source));
    var told := EmittedIf(joined, t.lastTermination, LastTermination(t.source));
    GivesNothing(st, reserved);
    GivesIf(reserved, true, Join(t.source));
    GivesIf(joined, t.lastTermination, LastTermination(t.source));
    GivesIf(told, t.revision != "", Rollout(t.source));
    var x, y := [Join(t.source)], if t.lastTermination then [LastTermination(t.source)] else [];
    GivesMore(st, reserved, joined, [], x);
    assert [] + x == x;
    GivesMore(st, joined, told, x, y);
    GivesMore(st, told, Started(st, t), x + y, if t.revision != "" then [Rollout(t.source)] else []);
  }

  lemma {:induction false} WarningGives(st: State)
    ensures Gives(st, CapWarned(st), if st.capWarned then [] else [SourceLimit])
  {
  }

  /** What one target tells, in its order: what changed about it; and if no worker serves it, what a new one
      tells, or once that there is no room. */
  function TargetTold(st: State, t: Target, started: bool): seq<Marker> {
    (if t.source in st.sources then RefreshTold(st.sources[t.source], t) else [])
    + (if Ongoing(st, t.source) then []
       else if started then StartTold(t)
       else if st.capWarned then []
       else [SourceLimit])
  }

  lemma {:induction false} PlacedInOrder(st: State, t: Target)
    ensures Gives(st, Placed(st, t), TargetTold(st, t, StartedHere(st, t.source, Placed(st, t))))
  {
    hide Gives, Refreshed, Started, CapWarned, RefreshTold, StartTold;
    var k := t.source;
    var known := if k in st.sources then Refreshed(st, t) else st;
    var x := if k in st.sources then RefreshTold(st.sources[k], t) else [];
    if k in st.sources {
      RefreshGives(st, t);
      RefreshedFields(st, t);
    } else {
      GivesNothing(st, st);
    }
    StartedFields(known, t);
    WarnedFields(known);
    StartGives(known, t);
    WarningGives(known);
    GivesNothing(known, known);
    var y := if Ongoing(st, k) then [] else if !Full(known, k) then StartTold(t)
             else if st.capWarned then [] else [SourceLimit];
    GivesMore(st, known, Placed(st, t), x, y);
  }

  // ---- All targets, and then what leaves ----

  predicate About(m: Marker, k: Source) { m == SourceLimit || (Names(m, k) && !m.Leave? && !m.Complete?) }

  ghost predicate Extends(a: seq<Marker>, b: seq<Marker>) { |a| <= |b| && b[..|a|] == a }

  /** What was told since, marker by marker, belongs to these targets in their order. */
  ghost predicate FollowTargets(st: State, p: State, targets: seq<Target>, at: seq<nat>) {
    && Extends(st.markers, p.markers) && |p.markers| == |st.markers| + |at|
    && (forall a, b :: 0 <= a < b < |at| ==> at[a] <= at[b])
    && forall a :: 0 <= a < |at| ==> at[a] < |targets| && About(p.markers[|st.markers| + a], targets[at[a]].source)
  }

  lemma {:induction false} ToldAbout(st: State, t: Target, started: bool)
    ensures forall m :: m in TargetTold(st, t, started) ==> About(m, t.source)
  {
  }

  lemma {:induction false} GivesAbout(st: State, now: State, told: seq<Marker>, k: Source)
    requires Gives(st, now, told) && forall m :: m in told ==> About(m, k)
    ensures Extends(st.markers, now.markers)
    ensures forall a :: |st.markers| <= a < |now.markers| ==> About(now.markers[a], k)
  {
    hide About;
    var n := if |told| <= st.sends then |told| else st.sends;
    forall a | |st.markers| <= a < |now.markers| ensures About(now.markers[a], k) {
      assert now.markers[a] == told[a - |st.markers|];
      assert told[a - |st.markers|] in told;
    }
  }

  lemma {:induction false} OneMoreTarget(st: State, mid: State, p: State, targets: seq<Target>, at: seq<nat>)
    requires targets != [] && FollowTargets(st, mid, targets[..|targets| - 1], at)
    requires Extends(mid.markers, p.markers)
    requires forall a :: |mid.markers| <= a < |p.markers| ==> About(p.markers[a], targets[|targets| - 1].source)
    ensures FollowTargets(st, p, targets, at + seq(|p.markers| - |mid.markers|, _ => |targets| - 1))
  {
    hide About;
    assert forall a :: 0 <= a < |mid.markers| ==> p.markers[a] == p.markers[..|mid.markers|][a];
  }

  /** The markers of a target come before those of the targets behind it. */
  lemma {:induction false} AllPlacedInOrder(st: State, targets: seq<Target>) returns (at: seq<nat>)
    ensures FollowTargets(st, AllPlaced(st, targets), targets, at)
  {
    at := [];
    if targets != [] {
      hide Placed, Gives, TargetTold, FollowTargets, Extends, About;
      var n := |targets| - 1;
      var mid, t := AllPlaced(st, targets[..n]), targets[n];
      var p := Placed(mid, t);
      at := AllPlacedInOrder(st, targets[..n]);
      PlacedInOrder(mid, t);
      ToldAbout(mid, t, StartedHere(mid, t.source, p));
      GivesAbout(mid, p, TargetTold(mid, t, StartedHere(mid, t.source, p)), t.source);
      OneMoreTarget(st, mid, p, targets, at);
      assert |mid.markers| <= |p.markers| by { LongerIfExtends(mid.markers, p.markers); }
      at := at + seq(|p.markers| - |mid.markers|, _ => n);
    }
  }

  lemma {:induction false} LongerIfExtends(a: seq<Marker>, b: seq<Marker>)
    requires Extends(a, b)
    ensures |a| <= |b|
  {
  }

  /** Whatever leaves is told after all targets. */
  lemma {:induction false} LeavesComeLast(p: State, order: seq<Source>)
    ensures var r := AllRetired(p, order);
            && |p.markers| <= |r.markers| && r.markers[..|p.markers|] == p.markers
            && forall a :: |p.markers| <= a < |r.markers| ==> r.markers[a].Leave?
  {
    if order != [] {
      LeavesComeLast(p, order[..|order| - 1]);
    }
  }

  lemma {:induction false} ReconciledInOrder(st: State, targets: seq<Target>, order: seq<Source>)
    returns (p: State, at: seq<nat>)
    ensures FollowTargets(st, p, targets, at)
    ensures var r := Reconciled(st, targets, order);
            && |p.markers| <= |r.markers| && r.markers[..|p.markers|] == p.markers
            && forall a :: |p.markers| <= a < |r.markers| ==> r.markers[a].Leave?
  {
    p := AllPlaced(Unwanted(st), targets);
    at := AllPlacedInOrder(Unwanted(st), targets);
    LeavesComeLast(p, order);
  }
}
