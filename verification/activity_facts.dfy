/** The difference between two projections of one source, as a list of field changes. */
module ActivityFacts {
  import opened Wrappers

  datatype Fact = Fact(group: string, field: string, value: string, sourceAt: int)

  /** The pair of group and field that names a fact. */
  datatype FactKey = FactKey(group: string, field: string)

  /** What the difference compares: the value and its source time. */
  datatype Reading = Reading(value: string, sourceAt: int)

  datatype Change = Change(key: FactKey, before: Option<Reading>, after: Option<Reading>)

  function KeyOf(f: Fact): FactKey { FactKey(f.group, f.field) }

  function ReadingOf(f: Fact): Reading { Reading(f.value, f.sourceAt) }

  function FactMap(facts: seq<Fact>): map<FactKey, Reading> {
    if facts == [] then map[]
    else FactMap(facts[..|facts| - 1])[KeyOf(facts[|facts| - 1]) := ReadingOf(facts[|facts| - 1])]
  }

  function Names(facts: seq<Fact>): set<FactKey> { set f | f in facts :: KeyOf(f) }

  ghost predicate DistinctKeys(facts: seq<Fact>) {
    forall i, j :: 0 <= i < j < |facts| ==> KeyOf(facts[i]) != KeyOf(facts[j])
  }

  lemma {:induction false} NamesSnoc(facts: seq<Fact>, f: Fact)
    ensures Names(facts + [f]) == Names(facts) + {KeyOf(f)}
  {
    assert (facts + [f])[|facts|] == f;
    forall k | k in Names(facts) ensures k in Names(facts + [f]) {
      var g :| g in facts && KeyOf(g) == k;
      assert g in facts + [f];
    }
  }

  lemma {:induction false} FactMapKeys(facts: seq<Fact>)
    ensures FactMap(facts).Keys == Names(facts)
  {
    if facts != [] {
      var n := |facts| - 1;
      FactMapKeys(facts[..n]);
      NamesSnoc(facts[..n], facts[n]);
      assert facts == facts[..n] + [facts[n]];
    }
  }

  // ---- The difference ----

  /** The prior reading that a fact is compared with: only the first fact of a key finds it. */
  function Prior(known: map<FactKey, Reading>, earlier: seq<Fact>, key: FactKey): Option<Reading> {
    if key in known && key !in Names(earlier) then Some(known[key]) else None
  }

  function Update(known: map<FactKey, Reading>, earlier: seq<Fact>, f: Fact): seq<Change> {
    var prior := Prior(known, earlier, KeyOf(f));
    if prior == Some(ReadingOf(f)) then [] else [Change(KeyOf(f), prior, Some(ReadingOf(f)))]
  }

  function Updates(known: map<FactKey, Reading>, after: seq<Fact>): seq<Change> {
    if after == [] then []
    else
      var n := |after| - 1;
      Updates(known, after[..n]) + Update(known, after[..n], after[n])
  }

  function Removal(known: map<FactKey, Reading>, key: FactKey): Change
    requires key in known
  {
    Change(key, Some(known[key]), None)
  }

  /** One change for each key of a list. */
  function Removals(known: map<FactKey, Reading>, keys: seq<FactKey>): seq<Change>
    requires forall k :: k in keys ==> k in known
  {
    seq(|keys|, i requires 0 <= i < |keys| => Removal(known, keys[i]))
  }

  ghost predicate Lists(keys: seq<FactKey>, s: set<FactKey>) {
    && (forall k :: k in keys <==> k in s)
    && forall i, j :: 0 <= i < j < |keys| ==> keys[i] != keys[j]
  }

  /** The updates in the order of the new facts, then the removals in any order. */
  ghost predicate IsDiff(before: seq<Fact>, after: seq<Fact>, gone: seq<FactKey>, changes: seq<Change>) {
    && Lists(gone, Names(before) - Names(after))
    && (forall k :: k in gone ==> k in FactMap(before))
    && changes == Updates(FactMap(before), after) + Removals(FactMap(before), gone)
  }

  method DiffFacts(before: seq<Fact>, after: seq<Fact>) returns (changes: seq<Change>, gone: seq<FactKey>)
    ensures IsDiff(before, after, gone, changes)
  {
    var known: map<FactKey, Reading> := map[];
    for i := 0 to |before|
      invariant known == FactMap(before[..i])
    {
      assert before[..i + 1][..i] == before[..i];
      known := known[KeyOf(before[i]) := ReadingOf(before[i])];
    }
    assert before[..|before|] == before;
    FactMapKeys(before);
    var left, removals;
    changes, left := Compare(known, after);
    removals, gone := Remove(left);
    assert Removals(left, gone) == Removals(known, gone);
    changes := changes + removals;
  }

  /** One change for each fact that is left over, in any order. */
  method Remove(left: map<FactKey, Reading>) returns (changes: seq<Change>, gone: seq<FactKey>)
    ensures Lists(gone, left.Keys) && changes == Removals(left, gone)
  {
    changes, gone := [], [];
    var keys := left.Keys;
    while keys != {}
      invariant keys <= left.Keys && Lists(gone, left.Keys - keys)
      invariant changes == Removals(left, gone)
    {
      var key :| key in keys;
      keys := keys - {key};
      gone, changes := gone + [key], changes + [Change(key, Some(left[key]), None)];
    }
    assert left.Keys - keys == left.Keys;
  }

  /** The scan of the new facts: each takes its prior reading out of the map. */
  method Compare(known: map<FactKey, Reading>, after: seq<Fact>)
    returns (changes: seq<Change>, left: map<FactKey, Reading>)
    ensures changes == Updates(known, after) && left == known - Names(after)
  {
    left, changes := known, [];
    for i := 0 to |after|
      invariant changes == Updates(known, after[..i])
      invariant left == known - Names(after[..i])
    {
      var f := after[i];
      var key := KeyOf(f);
      var prior := if key in left then Some(left[key]) else None;
      assert after[..i + 1][..i] == after[..i] && after[..i + 1] == after[..i] + [f];
      NamesSnoc(after[..i], f);
      assert prior == Prior(known, after[..i], key);
      left := left - {key};
      if prior != Some(ReadingOf(f)) {
        changes := changes + [Change(key, prior, Some(ReadingOf(f)))];
      }
    }
    assert after[..|after|] == after;
  }

  function RemovalSet(known: map<FactKey, Reading>, s: set<FactKey>): set<Change> {
    set k | k in known && k in s :: Removal(known, k)
  }

  /** The difference without the order of its changes, which is for display. */
  function Changes(before: seq<Fact>, after: seq<Fact>): multiset<Change> {
    var known := FactMap(before);
    multiset(Updates(known, after)) + multiset(RemovalSet(known, known.Keys - Names(after)))
  }

  lemma {:induction false} RemovalSetLess(known: map<FactKey, Reading>, s: set<FactKey>, key: FactKey)
    requires key in s && key in known
    ensures Removal(known, key) !in RemovalSet(known, s - {key})
    ensures RemovalSet(known, s) == RemovalSet(known, s - {key}) + {Removal(known, key)}
  {
    forall c ensures c in RemovalSet(known, s) <==> c in RemovalSet(known, s - {key}) || c == Removal(known, key) {
      if c in RemovalSet(known, s) && c.key != key {
        assert c.key in s - {key} && c == Removal(known, c.key);
      }
    }
  }

  lemma {:induction false} RemovalsCount(known: map<FactKey, Reading>, keys: seq<FactKey>, s: set<FactKey>)
    requires Lists(keys, s) && forall k :: k in keys ==> k in known
    ensures multiset(Removals(known, keys)) == multiset(RemovalSet(known, s))
  {
    hide RemovalSet;
    if keys == [] {
      NoRemovals(known, s);
    } else {
      var n := |keys| - 1;
      var last := Removal(known, keys[n]);
      assert keys == keys[..n] + [keys[n]];
      RemovalSetLess(known, s, keys[n]);
      RemovalsCount(known, keys[..n], s - {keys[n]});
      assert Removals(known, keys) == Removals(known, keys[..n]) + [last];
      assert multiset(RemovalSet(known, s)) == multiset(RemovalSet(known, s - {keys[n]})) + multiset{last};
    }
  }

  lemma {:induction false} NoRemovals(known: map<FactKey, Reading>, s: set<FactKey>)
    requires s == {}
    ensures RemovalSet(known, s) == {}
  {
  }

  lemma {:induction false} DiffIsChanges(before: seq<Fact>, after: seq<Fact>, gone: seq<FactKey>, changes: seq<Change>)
    requires IsDiff(before, after, gone, changes)
    ensures multiset(changes) == Changes(before, after)
  {
    var known := FactMap(before);
    FactMapKeys(before);
    RemovalsCount(known, gone, Names(before) - Names(after));
  }

  // ---- The difference is a patch ----

  function Patched(m: map<FactKey, Reading>, c: Change): map<FactKey, Reading> {
    match c.after
    case Some(reading) => m[c.key := reading]
    case None => m - {c.key}
  }

  function Patch(m: map<FactKey, Reading>, changes: seq<Change>): map<FactKey, Reading> {
    if changes == [] then m else Patched(Patch(m, changes[..|changes| - 1]), changes[|changes| - 1])
  }

  lemma {:induction false} PatchAppend(m: map<FactKey, Reading>, a: seq<Change>, b: seq<Change>)
    ensures Patch(m, a + b) == Patch(Patch(m, a), b)
    decreases |b|
  {
    if b == [] {
      assert a + b == a;
    } else {
      assert (a + b)[..|a + b| - 1] == a + b[..|b| - 1];
      PatchAppend(m, a, b[..|b| - 1]);
    }
  }

  lemma {:induction false} UpdatePatch(known: map<FactKey, Reading>, earlier: seq<Fact>, f: Fact)
    ensures Patch(known + FactMap(earlier), Update(known, earlier, f))
         == known + FactMap(earlier)[KeyOf(f) := ReadingOf(f)]
  {
    var m := known + FactMap(earlier);
    FactMapKeys(earlier);
    if Prior(known, earlier, KeyOf(f)) == Some(ReadingOf(f)) {
      assert m == known + FactMap(earlier)[KeyOf(f) := ReadingOf(f)];
    } else {
      var c := Update(known, earlier, f)[0];
      assert Patch(m, [c]) == Patched(m, c);
      assert m[KeyOf(f) := ReadingOf(f)] == known + FactMap(earlier)[KeyOf(f) := ReadingOf(f)];
    }
  }

  lemma {:induction false} UpdatesPatch(known: map<FactKey, Reading>, after: seq<Fact>)
    ensures Patch(known, Updates(known, after)) == known + FactMap(after)
  {
    if after != [] {
      var n := |after| - 1;
      UpdatesPatch(known, after[..n]);
      PatchAppend(known, Updates(known, after[..n]), Update(known, after[..n], after[n]));
      UpdatePatch(known, after[..n], after[n]);
    }
  }

  lemma {:induction false} RemovalsPatch(m: map<FactKey, Reading>, known: map<FactKey, Reading>, keys: seq<FactKey>)
    requires forall k :: k in keys ==> k in known
    ensures Patch(m, Removals(known, keys)) == m - (set k | k in keys)
  {
    if keys != [] {
      var n := |keys| - 1;
      RemovalsPatch(m, known, keys[..n]);
      assert Removals(known, keys)[..n] == Removals(known, keys[..n]);
      assert keys == keys[..n] + [keys[n]];
    }
  }

  /** For any facts, with or without repeated keys: the changes turn what was known into what is known. */
  lemma {:induction false} DiffIsPatch(before: seq<Fact>, after: seq<Fact>, gone: seq<FactKey>, changes: seq<Change>)
    requires IsDiff(before, after, gone, changes)
    ensures Patch(FactMap(before), changes) == FactMap(after)
  {
    hide FactMap, Names, Updates, Removals, Patch;
    var known := FactMap(before);
    UpdatesPatch(known, after);
    RemovalsPatch(known + FactMap(after), known, gone);
    PatchAppend(known, Updates(known, after), Removals(known, gone));
    FactMapKeys(before);
    FactMapKeys(after);
  }

  // ---- When there is no difference ----

  lemma {:induction false} DistinctSnoc(facts: seq<Fact>)
    requires facts != []
    ensures DistinctKeys(facts) <==>
              DistinctKeys(facts[..|facts| - 1]) && KeyOf(facts[|facts| - 1]) !in Names(facts[..|facts| - 1])
  {
    var n := |facts| - 1;
    var front, key := facts[..n], KeyOf(facts[n]);
    if DistinctKeys(front) && key !in Names(front) {
      forall i, j | 0 <= i < j < |facts| ensures KeyOf(facts[i]) != KeyOf(facts[j]) {
        assert front[i] in front;
        assert KeyOf(front[i]) in Names(front);
        if j < n {
          assert KeyOf(front[i]) != KeyOf(front[j]);
        }
      }
    }
  }

  lemma {:induction false} NoUpdatesIff(known: map<FactKey, Reading>, after: seq<Fact>)
    ensures Updates(known, after) == [] <==>
              DistinctKeys(after) && forall k :: k in FactMap(after) ==> k in known && known[k] == FactMap(after)[k]
  {
    if after != [] {
      var n := |after| - 1;
      var front, f := after[..n], after[n];
      NoUpdatesIff(known, front);
      DistinctSnoc(after);
      FactMapKeys(front);
      assert Update(known, front, f) == [] <==>
               KeyOf(f) in known && KeyOf(f) !in Names(front) && known[KeyOf(f)] == ReadingOf(f);
      assert FactMap(after) == FactMap(front)[KeyOf(f) := ReadingOf(f)];
      if
        && KeyOf(f) !in Names(front)
        && forall k :: k in FactMap(after) ==> k in known && known[k] == FactMap(after)[k]
      {
        assert KeyOf(f) in FactMap(after);
        forall k | k in FactMap(front) ensures k in known && known[k] == FactMap(front)[k] {
          assert k in FactMap(after);
        }
      }
    }
  }

  /** Exactly when two projections are reported as unchanged: the new one names no key twice, and both know
      the same keys with the same values and source times. */
  lemma {:induction false} NoDiffIff(before: seq<Fact>, after: seq<Fact>, gone: seq<FactKey>, changes: seq<Change>)
    requires IsDiff(before, after, gone, changes)
    ensures changes == [] <==> DistinctKeys(after) && FactMap(before) == FactMap(after)
  {
    var m, n := FactMap(before), FactMap(after);
    NoUpdatesIff(m, after);
    FactMapKeys(before);
    FactMapKeys(after);
    assert |changes| == |Updates(m, after)| + |gone|;
    if gone == [] {
      assert Names(before) <= Names(after) by {
        forall k | k in Names(before) ensures k in Names(after) {
          assert k !in gone;
        }
      }
      if DistinctKeys(after) && Updates(m, after) == [] {
        assert m.Keys == n.Keys;
        assert m == n;
      }
    } else {
      assert gone[0] in gone;
      assert gone[0] in m && gone[0] !in n;
    }
  }

  // ---- Each differing key is named exactly once ----

  function Mentions(changes: seq<Change>, key: FactKey): nat {
    if changes == [] then 0
    else Mentions(changes[..|changes| - 1], key) + (if changes[|changes| - 1].key == key then 1 else 0)
  }

  lemma {:induction false} MentionsAppend(a: seq<Change>, b: seq<Change>, key: FactKey)
    ensures Mentions(a + b, key) == Mentions(a, key) + Mentions(b, key)
    decreases |b|
  {
    if b == [] {
      assert a + b == a;
    } else {
      assert (a + b)[..|a + b| - 1] == a + b[..|b| - 1];
      MentionsAppend(a, b[..|b| - 1], key);
    }
  }

  lemma {:induction false} UpdatesMention(known: map<FactKey, Reading>, after: seq<Fact>, key: FactKey)
    requires DistinctKeys(after)
    ensures Mentions(Updates(known, after), key)
         == if key in FactMap(after) && !(key in known && known[key] == FactMap(after)[key]) then 1 else 0
  {
    if after != [] {
      var n := |after| - 1;
      var front, f := after[..n], after[n];
      var update := Update(known, front, f);
      DistinctSnoc(after);
      UpdatesMention(known, front, key);
      FactMapKeys(front);
      MentionsAppend(Updates(known, front), update, key);
      assert update != [] ==> update[..0] == [];
    }
  }

  lemma {:induction false} RemovalsMention(known: map<FactKey, Reading>, keys: seq<FactKey>, key: FactKey)
    requires forall k :: k in keys ==> k in known
    requires forall i, j :: 0 <= i < j < |keys| ==> keys[i] != keys[j]
    ensures Mentions(Removals(known, keys), key) == if key in keys then 1 else 0
  {
    if keys != [] {
      var n := |keys| - 1;
      RemovalsMention(known, keys[..n], key);
      assert Removals(known, keys)[..n] == Removals(known, keys[..n]);
      assert keys == keys[..n] + [keys[n]];
    }
  }

  /** With distinct keys, each key on which the two differ is named once, and no other. */
  lemma {:induction false} DiffMentions(before: seq<Fact>, after: seq<Fact>, gone: seq<FactKey>,
                                        changes: seq<Change>, key: FactKey)
    requires DistinctKeys(after) && IsDiff(before, after, gone, changes)
    ensures var known, current := FactMap(before), FactMap(after);
            var same := (key in known) == (key in current) && (key in known ==> known[key] == current[key]);
            Mentions(changes, key) == if same then 0 else 1
  {
    var known := FactMap(before);
    UpdatesMention(known, after, key);
    RemovalsMention(known, gone, key);
    MentionsAppend(Updates(known, after), Removals(known, gone), key);
    FactMapKeys(before);
    FactMapKeys(after);
  }
}
