/** What a refresh writes into the journal about each identity, record by record. */
module ActivityTold {
  import opened Wrappers
  import opened ActivityFacts
  import opened ActivityLog
  import opened ActivitySteps
  import opened ActivityIdentities

  // ---- The difference of two projections, change by change ----

  function Known(facts: seq<Fact>, key: FactKey): Option<Reading> {
    if key in FactMap(facts) then Some(FactMap(facts)[key]) else None
  }

  /** The changes lead from one projection to the other; and if the new one names no key twice, they are exactly
      one for each key on which the two differ, with what was known before and what is known after. */
  ghost predicate Tells(before: seq<Fact>, after: seq<Fact>, changes: multiset<Change>) {
    && (exists cs: seq<Change> :: multiset(cs) == changes && Patch(FactMap(before), cs) == FactMap(after))
    && (DistinctKeys(after) ==>
          forall c :: changes[c] == if c.before == Known(before, c.key) && c.after == Known(after, c.key)
                                       && c.before != c.after then 1 else 0)
  }

  predicate Same(before: seq<Fact>, after: seq<Fact>) {
    && FactMap(before) == FactMap(after)
    && forall i, j :: 0 <= i < j < |after| ==> KeyOf(after[i]) != KeyOf(after[j])
  }

  lemma {:induction false} SomeList(s: set<FactKey>) returns (keys: seq<FactKey>)
    ensures Lists(keys, s)
    decreases s
  {
    if s == {} {
      keys := [];
    } else {
      var k :| k in s;
      var rest := SomeList(s - {k});
      keys := rest + [k];
      assert forall x :: x in keys <==> x in rest || x == k;
    }
  }

  lemma {:induction false} SomeDiff(before: seq<Fact>, after: seq<Fact>)
    returns (gone: seq<FactKey>, changes: seq<Change>)
    ensures IsDiff(before, after, gone, changes)
  {
    FactMapKeys(before);
    gone := SomeList(Names(before) - Names(after));
    changes := Updates(FactMap(before), after) + Removals(FactMap(before), gone);
  }

  /** A change to a fact that is there afterwards. */
  lemma {:induction false} UpdateCount(known: map<FactKey, Reading>, after: seq<Fact>, c: Change)
    requires DistinctKeys(after)
    ensures multiset(Updates(known, after))[c]
         == if c.key in FactMap(after) && c.after == Some(FactMap(after)[c.key])
               && c.before == (if c.key in known then Some(known[c.key]) else None) && c.before != c.after
            then 1 else 0
  {
    if after != [] {
      hide Updates;
      var n := |after| - 1;
      var front, f := after[..n], after[n];
      DistinctSnoc(after);
      UpdateCount(known, front, c);
      FactMapKeys(front);
      UpdatesLast(known, after);
      var last := Update(known, front, f);
      assert multiset(Updates(known, front) + last)[c] == multiset(Updates(known, front))[c] + multiset(last)[c];
    } else {
      assert Updates(known, after) == [];
    }
  }

  lemma {:induction false} UpdatesLast(known: map<FactKey, Reading>, after: seq<Fact>)
    requires after != []
    ensures Updates(known, after)
         == Updates(known, after[..|after| - 1]) + Update(known, after[..|after| - 1], after[|after| - 1])
  {
  }

  lemma {:induction false} RemovalCount(known: map<FactKey, Reading>, s: set<FactKey>, c: Change)
    ensures multiset(RemovalSet(known, s))[c]
         == if c.key in known && c.key in s && c == Change(c.key, Some(known[c.key]), None) then 1 else 0
  {
    if c.key in known && c.key in s && c == Change(c.key, Some(known[c.key]), None) {
      assert c == Removal(known, c.key);
    }
  }

  lemma {:induction false} ChangeCount(before: seq<Fact>, after: seq<Fact>, c: Change)
    requires DistinctKeys(after)
    ensures Changes(before, after)[c]
         == if c.before == Known(before, c.key) && c.after == Known(after, c.key) && c.before != c.after then 1 else 0
  {
    hide FactMap, Updates, RemovalSet;
    var known := FactMap(before);
    UpdateCount(known, after, c);
    RemovalCount(known, known.Keys - Names(after), c);
    FactMapKeys(after);
  }

  lemma {:induction false} ChangesTell(before: seq<Fact>, after: seq<Fact>)
    ensures Tells(before, after, Changes(before, after))
    ensures Changes(before, after) == multiset{} <==> Same(before, after)
  {
    hide Changes, FactMap, Patch;
    var gone, cs := SomeDiff(before, after);
    DiffIsChanges(before, after, gone, cs);
    DiffIsPatch(before, after, gone, cs);
    NoDiffIff(before, after, gone, cs);
    if DistinctKeys(after) {
      forall c
        ensures Changes(before, after)[c]
             == if c.before == Known(before, c.key) && c.after == Known(after, c.key) && c.before != c.after
                then 1 else 0
      {
        ChangeCount(before, after, c);
      }
    }
    assert cs != [] ==> multiset(cs)[cs[0]] > 0;
  }

  // ---- The records of a journal that are about one thing ----

  function RecordsOf(journal: seq<Entry>, about: Record -> bool): seq<Record> {
    if journal == [] then []
    else
      var last := journal[|journal| - 1].record;
      RecordsOf(journal[..|journal| - 1], about) + (if about(last) then [last] else [])
  }

  function Told(l: Log, about: Record -> bool): seq<Record> { RecordsOf(l.journal, about) }

  /** The records about the fate of an identity; gaps and events are apart. */
  function About(k: Identity): Record -> bool {
    (r: Record) =>
      match r
      case FirstObserved(s) => s.identity == k
      case Changed(s, _, _) => s.identity == k
      case Replaced(s, _) => s.identity == k
      case NotObserved(s, _, _) => s.identity == k
      case _ => false
  }

  lemma {:induction false} AppendedTold(l: Log, at: int, record: Record, about: Record -> bool)
    ensures Told(Appended(l, at, record), about) == Told(l, about) + (if about(record) then [record] else [])
  {
    assert Appended(l, at, record).journal[..|l.journal|] == l.journal;
  }

  // ---- One source ----

  /** What is told about a source that is seen for the first time in a refresh: a replacement if another UID was
      current, and then its first observation, or its change if there is one. */
  ghost predicate SourceTold(tracked: map<Identity, Source>, uid: string, s: Source, told: seq<Record>) {
    var replaced := if uid != "" && uid != s.identity.uid then [Replaced(s, uid)] else [];
    if s.identity !in tracked then told == replaced + [FirstObserved(s)]
    else
      var prior := tracked[s.identity];
      if Same(prior.facts, s.facts) then told == replaced
      else
        && |told| == |replaced| + 1 && told[..|replaced|] == replaced
        && var last := told[|replaced|];
           last.Changed? && last.source == s && last.priorAt == prior.capturedAt
           && Tells(prior.facts, s.facts, last.changes)
  }

  function CurrentUid(w: State, n: NameKey): string { if n in w.current then w.current[n] else "" }

  /** What was told since. */
  ghost predicate Adds(before: Log, after: Log, about: Record -> bool, more: seq<Record>) {
    Told(after, about) == Told(before, about) + more
  }

  lemma {:induction false} NotedAdds(w: State, at: int, record: Record, about: Record -> bool)
    ensures Adds(w.log, Noted(w, at, record).log, about, if about(record) then [record] else [])
  {
    AppendedTold(w.log, at, record, about);
  }

  lemma {:induction false} AddsNothing(l: Log, about: Record -> bool)
    ensures Adds(l, l, about, [])
  {
  }

  lemma {:induction false} AddsMore(a: Log, b: Log, c: Log, about: Record -> bool, x: seq<Record>, y: seq<Record>)
    requires Adds(a, b, about, x) && Adds(b, c, about, y)
    ensures Adds(a, c, about, x + y)
  {
    assert Told(a, about) + x + y == Told(a, about) + (x + y);
  }

  lemma {:induction false} ReplacementTold(w: State, s: Source, at: int)
    ensures var (uid, v) := (CurrentUid(w, NameOf(s.identity)), WithReplacement(w, s, at));
            && Adds(w.log, v.log, About(s.identity),
                    if uid != "" && uid != s.identity.uid then [Replaced(s, uid)] else [])
            && v.tracked == w.tracked
  {
    var uid := CurrentUid(w, NameOf(s.identity));
    AddsNothing(w.log, About(s.identity));
    NotedAdds(w, at, Replaced(s, uid), About(s.identity));
  }

  lemma {:induction false} ObservationTold(w: State, s: Source, at: int) returns (more: seq<Record>)
    ensures Adds(w.log, WithSource(w, s, at).log, About(s.identity), more)
    ensures SourceTold(w.tracked, "", s, more)
  {
    hide Changes;
    AddsNothing(w.log, About(s.identity));
    if s.identity !in w.tracked {
      more := [FirstObserved(s)];
      NotedAdds(w, at, FirstObserved(s), About(s.identity));
    } else {
      var prior := w.tracked[s.identity];
      var changes := Changes(prior.facts, s.facts);
      ChangesTell(prior.facts, s.facts);
      NotedAdds(w, at, Changed(s, prior.capturedAt, changes), About(s.identity));
      more := if changes == multiset{} then [] else [Changed(s, prior.capturedAt, changes)];
    }
  }

  lemma {:induction false} TogetherTold(tracked: map<Identity, Source>, uid: string, s: Source, more: seq<Record>)
    requires SourceTold(tracked, "", s, more)
    ensures SourceTold(tracked, uid, s, (if uid != "" && uid != s.identity.uid then [Replaced(s, uid)] else []) + more)
  {
    hide Tells, Same;
  }

  lemma {:induction false} FirstMentionTold(sc: Scan, s: Source, at: int) returns (more: seq<Record>)
    requires s.identity !in sc.seen
    ensures Adds(sc.w.log, SourceSeen(sc, s, at).w.log, About(s.identity), more)
    ensures SourceTold(sc.w.tracked, CurrentUid(sc.w, NameOf(s.identity)), s, more)
  {
    hide Adds, SourceTold, WithReplacement, WithSource;
    var k, uid := s.identity, CurrentUid(sc.w, NameOf(s.identity));
    var w := if s.whole then sc.w else Noted(sc.w, at, Gap(Some(s), None));
    AddsNothing(sc.w.log, About(k));
    NotedAdds(sc.w, at, Gap(Some(s), None), About(k));
    ReplacementTold(w, s, at);
    var v := WithReplacement(w, s, at);
    var observed := ObservationTold(v, s, at);
    TogetherTold(v.tracked, uid, s, observed);
    var replaced := if uid != "" && uid != k.uid then [Replaced(s, uid)] else [];
    AddsMore(sc.w.log, w.log, v.log, About(k), [], replaced);
    AddsMore(sc.w.log, v.log, WithSource(v, s, at).log, About(k), [] + replaced, observed);
    more := replaced + observed;
    assert [] + replaced + observed == more;
  }

  /** Nothing is told about any other identity, nor about one that was seen already. */
  lemma {:induction false} OtherSourceTold(sc: Scan, s: Source, at: int, k: Identity)
    requires k != s.identity || k in sc.seen
    ensures Adds(sc.w.log, SourceSeen(sc, s, at).w.log, About(k), [])
  {
    hide Adds, Changes;
    var w := if s.whole then sc.w else Noted(sc.w, at, Gap(Some(s), None));
    AddsNothing(sc.w.log, About(k));
    NotedAdds(sc.w, at, Gap(Some(s), None), About(k));
    if s.identity !in sc.seen {
      var name := NameOf(s.identity);
      var v := WithReplacement(w, s, at);
      AddsNothing(w.log, About(k));
      AddsNothing(v.log, About(k));
      NotedAdds(w, at, Replaced(s, CurrentUid(w, name)), About(k));
      NotedAdds(v, at, FirstObserved(s), About(k));
      if s.identity in v.tracked {
        var p := v.tracked[s.identity];
        NotedAdds(v, at, Changed(s, p.capturedAt, Changes(p.facts, s.facts)), About(k));
      }
      AddsMore(sc.w.log, w.log, v.log, About(k), [], []);
      AddsMore(sc.w.log, v.log, WithSource(v, s, at).log, About(k), [], []);
      var none: seq<Record> := [];
      assert none + none == none;
    }
  }

  // ---- All items ----

  /** An item that brings its identity into view: the first of it in scope, with a projection. */
  predicate Introduces(context: string, items: seq<Item>, item: Item, inScope: Ref -> bool) {
    && inScope(item.ref) && item.projection.Some? && item.ref.uid != ""
    && FirstItem(context, items, IdentityOf(context, item.ref), inScope).None?
  }

  /** The UID that is current under a name after some items, or none. */
  function UidAfter(w: State, items: seq<Item>, n: NameKey, inScope: Ref -> bool): string {
    if items == [] then (if n in w.current then w.current[n] else "")
    else
      var front, last := items[..|items| - 1], items[|items| - 1];
      if Introduces(w.context, front, last, inScope) && NameOf(IdentityOf(w.context, last.ref)) == n then last.ref.uid
      else UidAfter(w, front, n, inScope)
  }

  /** The UID that was current under its name when the first item of an identity came. */
  function UidBefore(w: State, items: seq<Item>, k: Identity, inScope: Ref -> bool): string {
    if items == [] then ""
    else
      var front := items[..|items| - 1];
      if FirstItem(w.context, front, k, inScope).Some? then UidBefore(w, front, k, inScope)
      else UidAfter(w, front, NameOf(k), inScope)
  }

  lemma {:induction false} UidNext(w: State, items: seq<Item>, item: Item, n: NameKey, inScope: Ref -> bool)
    ensures UidAfter(w, items + [item], n, inScope)
         == if Introduces(w.context, items, item, inScope) && NameOf(IdentityOf(w.context, item.ref)) == n
            then item.ref.uid else UidAfter(w, items, n, inScope)
  {
    assert (items + [item])[..|items|] == items;
  }

  lemma {:induction false} UidBeforeNext(w: State, items: seq<Item>, item: Item, k: Identity, inScope: Ref -> bool)
    ensures UidBefore(w, items + [item], k, inScope)
         == if FirstItem(w.context, items, k, inScope).Some? then UidBefore(w, items, k, inScope)
            else UidAfter(w, items, NameOf(k), inScope)
  {
    assert (items + [item])[..|items|] == items;
  }

  lemma {:induction false} SourceSeenUid(sc: Scan, s: Source, at: nat, n: NameKey)
    ensures CurrentUid(SourceSeen(sc, s, at).w, n)
         == if s.identity !in sc.seen && NameOf(s.identity) == n then s.identity.uid else CurrentUid(sc.w, n)
  {
    hide SourceSeen;
    SeenFields(sc, s, at);
  }

  lemma {:induction false} CurrentIs(w: State, items: seq<Item>, at: nat, n: NameKey, inScope: Ref -> bool)
    requires Keyed(w)
    ensures CurrentUid(ItemsSeen(Scan(w, {}), items, at, inScope).w, n) == UidAfter(w, items, n, inScope)
  {
    if items != [] {
      hide SourceSeen, UidAfter, Keyed, CurrentUid;
      var m := |items| - 1;
      var front, last := items[..m], items[m];
      var sc := ItemsSeen(Scan(w, {}), front, at, inScope);
      CurrentIs(w, front, at, n, inScope);
      assert items == front + [last];
      UidNext(w, front, last, n, inScope);
      ScanIs(w, front, at, inScope, IdentityOf(w.context, last.ref));
      NotedKeepsCurrent(sc.w, at, Gap(None, Some(Coverage(last.ref.gvr, last.ref.namespace, Unknown, false))), n);
      var s := Project(sc.w, last, at);
      if s.Some? { SourceSeenUid(sc, s.value, at, n); }
    } else {
      NoItemsUid(w, n, inScope);
    }
  }

  lemma {:induction false} NoItemsUid(w: State, n: NameKey, inScope: Ref -> bool)
    ensures UidAfter(w, [], n, inScope) == CurrentUid(w, n)
  {
  }

  lemma {:induction false} NotedKeepsCurrent(w: State, at: int, record: Record, n: NameKey)
    ensures CurrentUid(Noted(w, at, record), n) == CurrentUid(w, n)
  {
  }

  /** What a scan has seen and tracks, for one identity. */
  lemma {:induction false} ScanIs(w: State, items: seq<Item>, at: nat, inScope: Ref -> bool, k: Identity)
    requires Keyed(w)
    ensures var sc := ItemsSeen(Scan(w, {}), items, at, inScope);
            && sc.w.context == w.context
            && (k in sc.seen <==> FirstItem(w.context, items, k, inScope).Some?)
            && (k !in sc.seen ==> (k in sc.w.tracked <==> k in w.tracked))
            && (k !in sc.seen && k in w.tracked ==> sc.w.tracked[k] == w.tracked[k])
  {
    hide FirstItem;
    ItemsReflected(w, items, at, inScope);
    assert ReflectsAt(w, items, k, at, inScope, ItemsSeen(Scan(w, {}), items, at, inScope));
  }

  lemma {:induction false} SameTracked(a: map<Identity, Source>, b: map<Identity, Source>, uid: string, s: Source,
                                       told: seq<Record>)
    requires SourceTold(a, uid, s, told)
    requires (s.identity in a <==> s.identity in b) && (s.identity in a ==> a[s.identity] == b[s.identity])
    ensures SourceTold(b, uid, s, told)
  {
    hide Tells, Same;
  }

  /** What is told about an identity by the items of a refresh. */
  ghost predicate ItemsTold(w: State, items: seq<Item>, k: Identity, at: nat, inScope: Ref -> bool, told: seq<Record>) {
    match Seen(w, items, k, at, inScope)
    case None => told == []
    case Some(s) => SourceTold(w.tracked, UidBefore(w, items, k, inScope), s, told)
  }

  /** What the next item tells about an identity, given what a scan has seen. */
  lemma {:induction false} ItemTells(sc: Scan, item: Item, at: nat, inScope: Ref -> bool, k: Identity)
    returns (more: seq<Record>)
    ensures Adds(sc.w.log, ItemSeen(sc, item, at, inScope).w.log, About(k), more)
    ensures var s := Project(sc.w, item, at);
            if inScope(item.ref) && s.Some? && s.value.identity == k && k !in sc.seen
            then SourceTold(sc.w.tracked, CurrentUid(sc.w, NameOf(k)), s.value, more) else more == []
  {
    hide Adds, SourceSeen, SourceTold, CurrentUid;
    more := [];
    AddsNothing(sc.w.log, About(k));
    NotedAdds(sc.w, at, Gap(None, Some(Coverage(item.ref.gvr, item.ref.namespace, Unknown, false))), About(k));
    var s := Project(sc.w, item, at);
    if inScope(item.ref) && s.Some? {
      if s.value.identity == k && k !in sc.seen {
        more := FirstMentionTold(sc, s.value, at);
      } else {
        OtherSourceTold(sc, s.value, at, k);
      }
    }
  }

  lemma {:induction false} ItemsTell(w: State, items: seq<Item>, at: nat, inScope: Ref -> bool, k: Identity)
    returns (told: seq<Record>)
    requires Keyed(w)
    ensures Adds(w.log, ItemsSeen(Scan(w, {}), items, at, inScope).w.log, About(k), told)
    ensures ItemsTold(w, items, k, at, inScope, told)
  {
    if items == [] {
      told := [];
      AddsNothing(w.log, About(k));
    } else {
      hide Adds, ItemSeen, Keyed, ItemsTold;
      var m := |items| - 1;
      var front, last := items[..m], items[m];
      var sc := ItemsSeen(Scan(w, {}), front, at, inScope);
      var earlier := ItemsTell(w, front, at, inScope, k);
      var more := ItemTells(sc, last, at, inScope, k);
      assert items == front + [last];
      NextTold(w, front, last, at, inScope, k, earlier, more);
      AddsMore(w.log, sc.w.log, ItemSeen(sc, last, at, inScope).w.log, About(k), earlier, more);
      told := earlier + more;
    }
  }

  lemma {:induction false} NextTold(w: State, items: seq<Item>, item: Item, at: nat, inScope: Ref -> bool, k: Identity,
                                    earlier: seq<Record>, more: seq<Record>)
    requires Keyed(w) && ItemsTold(w, items, k, at, inScope, earlier)
    requires var sc := ItemsSeen(Scan(w, {}), items, at, inScope);
             var s := Project(sc.w, item, at);
             if inScope(item.ref) && s.Some? && s.value.identity == k && k !in sc.seen
             then SourceTold(sc.w.tracked, CurrentUid(sc.w, NameOf(k)), s.value, more) else more == []
    ensures ItemsTold(w, items + [item], k, at, inScope, earlier + more)
  {
    hide SourceTold, CurrentUid, UidAfter, UidBefore, FirstItem, Keyed, ItemsSeen;
    var sc := ItemsSeen(Scan(w, {}), items, at, inScope);
    FirstItemNext(w.context, items, item, k, inScope);
    UidBeforeNext(w, items, item, k, inScope);
    ScanIs(w, items, at, inScope, k);
    CurrentIs(w, items, at, NameOf(k), inScope);
    assert earlier + [] == earlier && [] + more == more;
    if more != [] {
      SameTracked(sc.w.tracked, w.tracked, CurrentUid(sc.w, NameOf(k)), Project(sc.w, item, at).value, more);
    } else if && inScope(item.ref) && Project(sc.w, item, at).Some?
              && IdentityOf(w.context, item.ref) == k && k !in sc.seen {
      SameTracked(sc.w.tracked, w.tracked, CurrentUid(sc.w, NameOf(k)), Project(sc.w, item, at).value, more);
    }
  }

  // ---- The sweep and the whole refresh ----

  lemma {:induction false} CoverageTold(w: State, coverage: seq<Coverage>, failed: bool, at: nat, k: Identity)
    ensures Adds(w.log, CoverageNoted(w, coverage, failed, at).log, About(k), [])
  {
    AddsNothing(w.log, About(k));
    if coverage != [] {
      hide Adds;
      var n := |coverage| - 1;
      var v := CoverageNoted(w, coverage[..n], failed, at);
      var c := Judged(coverage[n], QueryOf(coverage[n]) in CoverageMap(coverage[..n], failed), failed);
      var none: seq<Record> := [];
      CoverageTold(w, coverage[..n], failed, at, k);
      AddsNothing(v.log, About(k));
      NotedAdds(v, at, Gap(None, Some(c)), About(k));
      AddsMore(w.log, v.log, CoverageNoted(w, coverage, failed, at).log, About(k), [], []);
      assert none + none == none;
    }
  }

  /** The record of an absence: the source as it was last known, and the report that establishes it. */
  function AbsenceTold(w: State, m: map<(string, string), Coverage>, seen: set<Identity>, failed: bool, k: Identity)
    : seq<Record>
  {
    if Due(w, m, seen, failed, k)
    then [NotObserved(w.tracked[k], w.tracked[k].capturedAt, m[(k.gvr, k.namespace)])] else []
  }

  lemma {:induction false} Swept1Told(w: State, key: Identity, m: map<(string, string), Coverage>, seen: set<Identity>,
                                      failed: bool, at: nat, k: Identity)
    requires Keyed(w) && key in w.tracked && key !in seen
    ensures Adds(w.log, Swept1(w, key, m, failed, at).log, About(k),
                 if k == key then AbsenceTold(w, m, seen, failed, k) else [])
  {
    hide Adds;
    var s, query := w.tracked[key], (key.gvr, key.namespace);
    AddsNothing(w.log, About(k));
    NotedAdds(w, at, Gap(Some(s), Some(Coverage(key.gvr, key.namespace, Unknown, false))), About(k));
    if query in m { NotedAdds(w, at, NotObserved(s, s.capturedAt, m[query]), About(k)); }
  }

  lemma {:induction false} SweptTold(w: State, order: seq<Identity>, m: map<(string, string), Coverage>,
                                     seen: set<Identity>, failed: bool, at: nat, k: Identity)
    requires Keyed(w) && forall i, j :: 0 <= i < j < |order| ==> order[i] != order[j]
    ensures Adds(w.log, Swept(w, order, m, seen, failed, at).log, About(k),
                 if k in order then AbsenceTold(w, m, seen, failed, k) else [])
    decreases |order|
  {
    AddsNothing(w.log, About(k));
    if order != [] {
      hide Adds, Swept1, Keyed, Establishes, AbsenceTold;
      var n := |order| - 1;
      var key, v := order[n], Swept(w, order[..n], m, seen, failed, at);
      SweptTold(w, order[..n], m, seen, failed, at, k);
      SweptEffect(w, order[..n], m, seen, failed, at, key);
      assert order == order[..n] + [key] && key !in order[..n];
      SameAbsence(w, v, m, seen, failed, key);
      AddsNothing(v.log, About(k));
      if key !in seen && key in v.tracked {
        Swept1Told(v, key, m, seen, failed, at, k);
      } else {
        NoAbsence(v, m, seen, failed, key);
      }
      var x := if k in order[..n] then AbsenceTold(w, m, seen, failed, k) else [];
      var y := if k == key then AbsenceTold(v, m, seen, failed, k) else [];
      AddsMore(w.log, v.log, Swept(w, order, m, seen, failed, at).log, About(k), x, y);
      assert [] + y == y && x + [] == x;
    }
  }

  lemma {:induction false} NoAbsence(w: State, m: map<(string, string), Coverage>, seen: set<Identity>, failed: bool,
                                     k: Identity)
    requires k in seen || k !in w.tracked
    ensures AbsenceTold(w, m, seen, failed, k) == []
  {
  }

  lemma {:induction false} SameAbsence(w: State, v: State, m: map<(string, string), Coverage>, seen: set<Identity>,
                                       failed: bool, k: Identity)
    requires (k in v.tracked <==> k in w.tracked) && (k in v.tracked ==> v.tracked[k] == w.tracked[k])
    ensures AbsenceTold(v, m, seen, failed, k) == AbsenceTold(w, m, seen, failed, k)
  {
  }

  /** The report that confirms an absence is the one in the map. */
  lemma {:induction false} ReportIs(coverage: seq<Coverage>, k: Identity)
    requires ConfirmsAbsence(coverage, false, k)
    ensures var q, m := (k.gvr, k.namespace), CoverageMap(coverage, false);
            q in m && m[q] in coverage && QueryOf(m[q]) == q && Trusted(m[q])
  {
    var n := |coverage| - 1;
    var q, front := (k.gvr, k.namespace), coverage[..n];
    EstablishesIff(coverage, false, k);
    CoverageMapKeys(front, false, q);
    var i :| 0 <= i < |coverage| && QueryOf(coverage[i]) == q && Trusted(coverage[i])
             && forall j :: 0 <= j < |coverage| && j != i ==> QueryOf(coverage[j]) != q;
    if i == n {
      assert forall j :: 0 <= j < n ==> QueryOf(front[j]) != q;
      assert coverage[n].(state := coverage[n].state) == coverage[n];
    } else {
      assert front[i] == coverage[i];
      assert forall j :: 0 <= j < n && j != i ==> QueryOf(front[j]) != q;
      ReportIs(front, k);
      assert coverage == front + [coverage[n]];
    }
  }

  lemma {:induction false} PrunedTold(w: State, at: nat, about: Record -> bool)
    ensures Adds(w.log, Pruned(w, at).log, about, [])
  {
    assert Told(w.log, about) + [] == Told(w.log, about);
  }

  lemma {:induction false} RecordedTold(sc: Scan, coverage: seq<Coverage>, failed: bool, order: seq<Identity>, at: nat,
                                        k: Identity)
    requires Keyed(sc.w) && Enumerates(order, sc.w.tracked.Keys)
    ensures Adds(sc.w.log, CoverageRecorded(sc, coverage, failed, order, at).log, About(k),
                 AbsenceTold(sc.w, CoverageMap(coverage, failed), sc.seen, failed, k))
  {
    hide Adds, Keyed, Swept, CoverageNoted, AbsenceTold;
    var m, u := CoverageMap(coverage, failed), CoverageNoted(sc.w, coverage, failed, at);
    var v, told := Swept(u, order, m, sc.seen, failed, at), AbsenceTold(sc.w, m, sc.seen, failed, k);
    CoverageTold(sc.w, coverage, failed, at, k);
    CoverageNotedOnly(sc.w, coverage, failed, at, k);
    StillKeyed(sc.w, u);
    SweptTold(u, order, m, sc.seen, failed, at, k);
    SameAbsence(sc.w, u, m, sc.seen, failed, k);
    if k !in order { NoAbsence(sc.w, m, sc.seen, failed, k); }
    AddsMore(sc.w.log, u.log, v.log, About(k), [], told);
    assert [] + told == told && told + [] == told;
    AddsNothing(v.log, About(k));
    NotedAdds(v, at, Gap(None, Some(Coverage("", "", Unknown, false))), About(k));
    AddsMore(sc.w.log, v.log, CoverageRecorded(sc, coverage, failed, order, at).log, About(k), told, []);
  }

  lemma {:induction false} StillKeyed(w: State, v: State)
    requires Keyed(w) && v == w.(log := v.log)
    ensures Keyed(v)
  {
  }

  /** Everything an accepted refresh tells about an identity. If an item brought it, with what it projects to: a
      replacement, a first observation or a change. If not, its absence if that is established, with the report
      that establishes it. And nothing else. */
  lemma {:induction false} RefreshTells(w: State, snapshot: Snapshot, failed: bool, order: seq<Identity>,
                                        evicted: set<Identity>, inScope: Ref -> bool, k: Identity)
    returns (told: seq<Record>)
    requires Keyed(w) && Accepts(w, snapshot.observedAt)
    requires RefreshChoices(w, snapshot, failed, order, evicted, inScope)
    ensures var v := Observed(w, snapshot, failed, order, evicted, inScope);
            RecordsOf(v.log.journal, About(k)) == RecordsOf(w.log.journal, About(k)) + told
    ensures var at, p := snapshot.observedAt, Pruned(w, snapshot.observedAt);
            match Seen(w, snapshot.items, k, at, inScope)
            case Some(s) => SourceTold(p.tracked, UidBefore(p, snapshot.items, k, inScope), s, told)
            case None =>
              if FoundAbsent(w, snapshot, failed, k, inScope) then
                exists c :: c in snapshot.coverage && QueryOf(c) == (k.gvr, k.namespace) && Trusted(c)
                            && told == [NotObserved(w.tracked[k], w.tracked[k].capturedAt, c)]
              else told == []
  {
    hide Keyed, SourceTold, UidBefore, CoverageRecorded, ItemsSeen, Swept, ConfirmsAbsence, RecordsOf, AbsenceTold;
    var at := snapshot.observedAt;
    var p, m := Pruned(w, at), CoverageMap(snapshot.coverage, failed);
    var sc := ItemsSeen(Scan(p, {}), snapshot.items, at, inScope);
    PrunedEffect(w, at, k);
    PrunedTold(w, at, About(k));
    var items := ItemsTell(p, snapshot.items, at, inScope, k);
    ScanKeyed(p, snapshot.items, at, inScope);
    RecordedTold(sc, snapshot.coverage, failed, order, at, k);
    var absence := AbsenceTold(sc.w, m, sc.seen, failed, k);
    var b := BeforeCap(w, snapshot, failed, order, inScope);
    ScanIs(p, snapshot.items, at, inScope, k);
    assert Seen(p, snapshot.items, k, at, inScope) == Seen(w, snapshot.items, k, at, inScope);
    told := items + absence;
    AddsMore(w.log, p.log, sc.w.log, About(k), [], items);
    assert [] + items == items;
    AddsMore(w.log, sc.w.log, b.log, About(k), items, absence);
    CappedTold(b, evicted, at, About(k));
    AbsenceFound(w, sc, snapshot, failed, k, inScope, items);
  }

  lemma {:induction false} ScanKeyed(w: State, items: seq<Item>, at: nat, inScope: Ref -> bool)
    requires Keyed(w)
    ensures Keyed(ItemsSeen(Scan(w, {}), items, at, inScope).w)
  {
    ItemsReflected(w, items, at, inScope);
  }

  lemma {:induction false} CappedTold(w: State, evicted: set<Identity>, at: int, about: Record -> bool)
    ensures RecordsOf(Capped(w, evicted, at).log.journal, about) == RecordsOf(w.log.journal, about)
  {
  }

  /** The absence of a sweep, told by the refresh alone. */
  lemma {:induction false} AbsenceFound(w: State, sc: Scan, snapshot: Snapshot, failed: bool, k: Identity,
                                        inScope: Ref -> bool, items: seq<Record>)
    requires k in sc.seen <==> FirstItem(w.context, snapshot.items, k, inScope).Some?
    requires k !in sc.seen ==> (k in sc.w.tracked <==> k in w.tracked && !Old(w, k, snapshot.observedAt))
    requires k !in sc.seen && k in sc.w.tracked ==> sc.w.tracked[k] == w.tracked[k]
    requires Seen(w, snapshot.items, k, snapshot.observedAt, inScope).None? ==> items == []
    ensures var told := AbsenceTold(sc.w, CoverageMap(snapshot.coverage, failed), sc.seen, failed, k);
            && (Seen(w, snapshot.items, k, snapshot.observedAt, inScope).Some? ==> items + told == items)
            && (Seen(w, snapshot.items, k, snapshot.observedAt, inScope).None? ==>
                  if FoundAbsent(w, snapshot, failed, k, inScope) then
                    exists c :: c in snapshot.coverage && QueryOf(c) == (k.gvr, k.namespace) && Trusted(c)
                                && items + told == [NotObserved(w.tracked[k], w.tracked[k].capturedAt, c)]
                  else items + told == [])
  {
    hide FirstItem, CoverageMap;
    EstablishesIff(snapshot.coverage, failed, k);
    if FoundAbsent(w, snapshot, failed, k, inScope) { ReportIs(snapshot.coverage, k); }
  }

  // ---- Pruning, field by field ----

  /** What is too old leaves, with its names, whatever UID was current; nothing else does. */
  lemma {:induction false} PrunedExactly(w: State, at: nat)
    requires forall k :: k in w.tracked ==> w.tracked[k].identity == k
    ensures var p := Pruned(w, at);
            && (forall k :: k in p.tracked <==> k in w.tracked && w.tracked[k].capturedAt >= at - RETENTION)
            && (forall k :: k in p.tracked ==> p.tracked[k] == w.tracked[k])
            && (forall n :: n in p.current <==>
                  n in w.current
                  && forall k :: k in w.tracked && NameKey(k.context, k.gvr, k.namespace, k.name) == n ==>
                                      w.tracked[k].capturedAt >= at - RETENTION)
            && (forall n :: n in p.current ==> p.current[n] == w.current[n])
            && (forall x :: x in p.events <==> x in w.events && w.events[x].capturedAt >= at - RETENTION)
            && (forall x :: x in p.events ==> p.events[x] == w.events[x])
            && p.log.journal == w.log.journal
  {
    var aged := Aged(w, at - RETENTION);
    assert forall k :: k in aged <==> k in w.tracked && w.tracked[k].capturedAt < at - RETENTION;
    assert forall n :: n in NamesOf(aged) <==> exists k :: k in aged && NameOf(k) == n;
    assert aged == {} ==> forall k :: k in w.tracked ==> k !in aged;
  }

  /** A refresh removes exactly the events that are too old, and adds none. */
  lemma {:induction false} EventsStayIff(w: State, snapshot: Snapshot, failed: bool, order: seq<Identity>,
                                         evicted: set<Identity>, inScope: Ref -> bool, x: EventKey)
    requires Keyed(w) && Accepts(w, snapshot.observedAt)
    requires RefreshChoices(w, snapshot, failed, order, evicted, inScope)
    ensures var v := Observed(w, snapshot, failed, order, evicted, inScope);
            && (x in v.events <==> x in w.events && w.events[x].capturedAt >= snapshot.observedAt - RETENTION)
            && (x in v.events ==> v.events[x] == w.events[x])
  {
    var at := snapshot.observedAt;
    PrunedKeyed(w, at);
    ItemsReflected(Pruned(w, at), snapshot.items, at, inScope);
    RecordedEffect(Scanned(w, snapshot, inScope), snapshot.coverage, failed, order, at,
                   Identity("", "", "", "", ""));
  }
}
