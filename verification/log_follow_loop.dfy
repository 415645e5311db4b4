/** The follow loop as the object that owns and updates its state in place. Each method is proved to
    be the corresponding step on values, for which the invariants are proved in LogFollow. */
module LogFollowLoop {
  import opened LogSources
  import opened LogFollow

  class LogFollower {
    const finite: bool
    var pods: map<string, Pod>
    var sources: map<Source, Followed>
    var active: int
    var capWarned: bool
    var done: seq<Done>
    var live: set<Source>
    var markers: seq<Marker>
    var sends: nat

    ghost function Value(): State
      reads this
    {
      State(finite, pods, sources, active, capWarned, done, live, markers, sends)
    }

    constructor (finite: bool, sends: nat)
      ensures Value() == Initial(finite, sends)
    {
      this.finite, this.sends := finite, sends;
      pods, sources, active, capWarned := map[], map[], 0, false;
      done, live, markers := [], {}, [];
    }

    method Emit(m: Marker)
      modifies this`markers, this`sends
      ensures Value() == Emitted(old(Value()), m)
    {
      if sends > 0 {
        markers := markers + [m];
        sends := sends - 1;
      }
    }

    method WarnCap()
      modifies this`markers, this`sends, this`capWarned
      ensures Value() == CapWarned(old(Value()))
    {
      if !capWarned {
        capWarned := true;
        Emit(SourceLimit);
      }
    }

    method Reserve(t: Target)
      modifies this`sources, this`active, this`live
      ensures Value() == Reserved(old(Value()), t)
    {
      var k := t.source;
      var revision := if k in sources then sources[k].revision else t.revision;
      sources := sources[k := Followed(SourceCanceled, t.terminal, revision, false, true, true, false)];
      active := active + 1;
      live := live + {k};
    }

    method Start(t: Target)
      modifies this`sources, this`active, this`live, this`markers, this`sends
      ensures Value() == Started(old(Value()), t)
    {
      Reserve(t);
      Emit(Join(t.source));
      if t.lastTermination {
        Emit(LastTermination(t.source));
      }
      if t.revision != "" {
        Emit(Rollout(t.source));
      }
    }

    method Refresh(t: Target)
      requires t.source in sources
      modifies this`sources, this`markers, this`sends
      ensures Value() == Refreshed(old(Value()), t)
    {
      var s := sources[t.source];
      sources := sources[t.source := s.(wanted := true, terminal := t.terminal, revision := t.revision)];
      if t.terminal && !s.terminal {
        Emit(Terminal(t.source));
      }
      if t.revision != s.revision {
        Emit(Rollout(t.source));
      }
    }

    method Place(t: Target)
      modifies this`sources, this`active, this`live, this`markers, this`sends, this`capWarned
      ensures Value() == Placed(old(Value()), t)
    {
      var k := t.source;
      if k in sources {
        Refresh(t);
        if sources[k].running || sources[k].outcome != SourceCanceled {
          return;
        }
      }
      if active >= MAX_LOG_SOURCES || (k !in sources && |sources| >= MAX_TRACKED_SOURCES) {
        WarnCap();
        return;
      }
      Start(t);
    }

    method Retire(k: Source)
      modifies this`sources, this`markers, this`sends
      ensures Value() == Retired(old(Value()), k)
    {
      if k in sources && !sources[k].wanted {
        var s := sources[k];
        if s.running {
          sources := sources[k := s.(canceled := true, left := true)];
        } else {
          sources := sources - {k};
        }
        if !s.left {
          Emit(Leave(k));
        }
      }
    }

    /** Matches the running workers with the targets. The walk over the source table has no fixed
        order; the order it took is returned. */
    method Reconcile(targets: seq<Target>) returns (ghost order: seq<Source>)
      modifies this`sources, this`active, this`live, this`markers, this`sends, this`capWarned
      ensures Walks(order, old(Value()), targets)
      ensures Value() == Reconciled(old(Value()), targets, order)
    {
      sources := map k | k in sources :: sources[k].(wanted := false);
      ghost var start := Value();
      for i := 0 to |targets|
        invariant Value() == AllPlaced(start, targets[..i])
      {
        Place(targets[i]);
        assert targets[..i + 1][..i] == targets[..i];
      }
      assert targets[..|targets|] == targets;
      ghost var placed := Value();
      var todo := sources.Keys;
      order := [];
      while todo != {}
        invariant todo <= placed.sources.Keys
        invariant forall k :: k in placed.sources && k !in todo ==> k in order
        invariant Value() == AllRetired(placed, order)
        decreases todo
      {
        var k :| k in todo;
        todo := todo - {k};
        Retire(k);
        assert (order + [k])[..|order|] == order;
        order := order + [k];
      }
    }

    method Finish()
      requires done != []
      modifies this`done, this`sources, this`active, this`markers, this`sends
      ensures Value() == Finished(old(Value()))
    {
      var k, outcome := done[0].source, done[0].outcome;
      done := done[1..];
      if k in sources {
        var s := sources[k];
        if outcome == SourceCompleted {
          Emit(Complete(k));
        }
        active := active - 1;
        if s.wanted {
          sources := sources[k := s.(outcome := outcome, running := false)];
        } else {
          sources := sources - {k};
        }
      }
    }

    /** Takes the oldest completion and, unless the session is finite, reconciles. */
    method TakeCompletion(targets: seq<Target>) returns (ghost order: seq<Source>)
      requires done != []
      modifies this
      ensures !finite ==> Walks(order, Finished(old(Value())), targets)
      ensures Value() == Next(old(Value()), TakeDone(targets, order))
    {
      order := [];
      Finish();
      if !finite {
        order := Reconcile(targets);
      }
    }

    /** A pod list replaces the table. `list` is the list in the order of its names, which decides what
        pods are kept when there are more than MAX_LOG_PODS. */
    method IngestList(list: seq<Pod>, truncated: bool)
      modifies this`pods, this`markers, this`sends, this`capWarned
      ensures Value() == Listed(old(Value()), list, truncated)
    {
      var next: map<string, Pod> := map[];
      var i := 0;
      while i < |list|
        invariant 0 <= i <= |list|
        invariant Value() == old(Value())
        invariant Ingest(list, map[]) == Ingest(list[i..], next)
      {
        assert list[i..][1..] == list[i + 1..];
        if list[i].selected {
          if |next| >= MAX_LOG_PODS {
            WarnCap();
            break;
          }
          next := next[list[i].name := list[i]];
        }
        i := i + 1;
      }
      if truncated {
        WarnCap();
      }
      pods := next;
    }

    method PodWatched(p: Pod, deleted: bool)
      modifies this`pods, this`markers, this`sends, this`capWarned
      ensures Value() == PodChanged(old(Value()), p, deleted)
    {
      if deleted || !p.selected {
        pods := pods - {p.name};
      } else if p.name in pods || |pods| < MAX_LOG_PODS {
        pods := pods[p.name := p];
      } else {
        WarnCap();
      }
    }
  }
}
