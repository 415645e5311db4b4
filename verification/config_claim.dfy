/** What a review retains and exactly when it may call its view of the consumers complete. */
module ConfigClaim {
  import opened Wrappers
  import opened ConfigReferences
  import opened ConfigCollect

  /** The first occurrence of everything, in order. */
  function Distinct(refs: seq<Reference>): (d: seq<Reference>)
    ensures forall r :: r in d <==> r in refs
    ensures forall i, j :: 0 <= i < j < |d| ==> d[i] != d[j]
    ensures |d| <= |refs|
  {
    if refs == [] then []
    else
      var last := refs[|refs| - 1];
      assert refs == refs[..|refs| - 1] + [last];
      var d := Distinct(refs[..|refs| - 1]);
      if last in d then d else d + [last]
  }

  function KeptOf(s: Step, validName: string -> bool): seq<Reference> {
    if s.Offer? && Acceptable(s.ref, validName) then [s.ref] else []
  }

  /** The references that are offered and may be kept. */
  function Kept(steps: seq<Step>, validName: string -> bool): seq<Reference> {
    if steps == [] then []
    else Kept(steps[..|steps| - 1], validName) + KeptOf(steps[|steps| - 1], validName)
  }

  ghost predicate Fine(s: Step, validName: string -> bool) {
    match s
    case Offer(ref) => Acceptable(ref, validName)
    case Gap(_, _) => false
    case Note(c) => c.state == Complete
    case Named(_, _) => true
  }

  ghost predicate Clean(steps: seq<Step>, validName: string -> bool) {
    forall i :: 0 <= i < |steps| ==> Fine(steps[i], validName)
  }

  function FirstKept(refs: seq<Reference>): seq<Reference> {
    Distinct(refs)[..Min(|Distinct(refs)|, MAX_REFERENCES)]
  }

  lemma {:induction false} DistinctSnoc(refs: seq<Reference>, ref: Reference)
    ensures Distinct(refs + [ref]) == if ref in refs then Distinct(refs) else Distinct(refs) + [ref]
  {
    assert (refs + [ref])[..|refs|] == refs;
  }

  lemma {:induction false} FirstKeptSnoc(refs: seq<Reference>, ref: Reference)
    ensures var first := FirstKept(refs);
            FirstKept(refs + [ref]) == if ref in first || |first| >= MAX_REFERENCES then first else first + [ref]
  {
    hide Distinct;
    DistinctSnoc(refs, ref);
    var d := Distinct(refs);
    if |d| < MAX_REFERENCES {
      assert FirstKept(refs) == d;
    } else {
      assert forall r :: r in d[..MAX_REFERENCES] ==> r in d;
      assert (d + [ref])[..MAX_REFERENCES] == d[..MAX_REFERENCES];
    }
  }

  /** Offering one more acceptable reference, when everything so far was retained exactly. */
  lemma {:induction false} OfferExact(v: View, kept: seq<Reference>, ref: Reference, validName: string -> bool)
    requires v.references == FirstKept(kept) && Acceptable(ref, validName)
    ensures Offered(v, ref, validName).references == FirstKept(kept + [ref])
    ensures Offered(v, ref, validName).complete && |Distinct(kept)| <= MAX_REFERENCES <==>
              v.complete && |Distinct(kept + [ref])| <= MAX_REFERENCES
    ensures |Distinct(kept + [ref])| >= |Distinct(kept)|
  {
    FirstKeptSnoc(kept, ref);
    DistinctSnoc(kept, ref);
    if |Distinct(kept)| <= MAX_REFERENCES {
      assert FirstKept(kept) == Distinct(kept);
    }
  }

  lemma {:induction false} TakenExact(v: View, kept: seq<Reference>, s: Step, validName: string -> bool, clean: bool)
    requires v.references == FirstKept(kept)
    requires v.complete <==> clean && |Distinct(kept)| <= MAX_REFERENCES
    ensures var w, more := Taken(v, s, validName), kept + KeptOf(s, validName);
            && w.references == FirstKept(more)
            && (w.complete <==> clean && Fine(s, validName) && |Distinct(more)| <= MAX_REFERENCES)
  {
    hide Distinct, FirstKept;
    if s.Offer? && Acceptable(s.ref, validName) {
      OfferExact(v, kept, s.ref, validName);
    } else {
      assert kept + [] == kept;
    }
  }

  /** The references kept are the first distinct acceptable ones; the view is complete exactly when there
      was no gap and none had to be left out. */
  lemma {:induction false} PlayExact(steps: seq<Step>, validName: string -> bool)
    ensures Play(EMPTY_VIEW, steps, validName).references == FirstKept(Kept(steps, validName))
    ensures Play(EMPTY_VIEW, steps, validName).complete <==>
              Clean(steps, validName) && |Distinct(Kept(steps, validName))| <= MAX_REFERENCES
  {
    if steps != [] {
      hide Distinct, FirstKept, Fine, Taken, KeptOf;
      var n := |steps| - 1;
      var front := steps[..n];
      PlayExact(front, validName);
      assert Clean(steps, validName) <==> Clean(front, validName) && Fine(steps[n], validName);
      TakenExact(Play(EMPTY_VIEW, front, validName), Kept(front, validName), steps[n], validName,
                 Clean(front, validName));
    }
  }

  // ---- The claim and the recorded gaps ----

  /** An entry, other than one about a named read, that does not say complete. */
  predicate IsGap(c: Coverage) { !c.source.NamedGet? && c.state != Complete }

  ghost predicate HasGap(coverage: seq<Coverage>) { exists c :: c in coverage && IsGap(c) }

  predicate IsReason(source: Source) { source == Declarations || source == Consumers }

  predicate WellNamedStep(s: Step) {
    match s
    case Offer(_) => true
    case Gap(source, _) => IsReason(source)
    case Note(c) => !IsReason(c.source) && !c.source.NamedGet?
    case Named(_, _) => true
  }

  /** Gaps, notes and named reads are recorded under different names. */
  ghost predicate WellNamed(steps: seq<Step>) { forall s :: s in steps ==> WellNamedStep(s) }

  /** The claim stands without a gap on record; an entry that names a reason is a gap; and the entries about
      named reads are those of the objects that are not there. */
  ghost predicate Honest(v: View) {
    && (v.complete <==> !HasGap(v.coverage))
    && (forall c :: c in v.coverage && IsReason(c.source) ==> c.state != Complete)
    && (forall t, s :: NamedEntry(v.coverage, t, s) <==> Object(t, s) in v.objects && s != Present)
  }

  /** Some entry about the named read of the topic says `state`. */
  ghost predicate NamedEntry(coverage: seq<Coverage>, topic: Topic, state: State) {
    exists c :: c in coverage && c.source == NamedGet(topic) && c.state == state
  }

  lemma {:induction false} EntriesSnoc(coverage: seq<Coverage>, last: Coverage)
    ensures HasGap(coverage + [last]) <==> HasGap(coverage) || IsGap(last)
    ensures forall t, s :: NamedEntry(coverage + [last], t, s) <==>
                             NamedEntry(coverage, t, s) || (last.source == NamedGet(t) && last.state == s)
  {
    var all := coverage + [last];
    assert forall c :: c in all <==> c in coverage || c == last;
    assert last in all;
    forall t, s ensures NamedEntry(all, t, s) <==>
                          NamedEntry(coverage, t, s) || (last.source == NamedGet(t) && last.state == s)
    {
      if NamedEntry(coverage, t, s) {
        var c :| c in coverage && c.source == NamedGet(t) && c.state == s;
        assert c in all;
      }
    }
    if HasGap(coverage) {
      var c :| c in coverage && IsGap(c);
      assert c in all;
    }
  }

  lemma {:induction false} GappedHonest(v: View, source: Source, detail: Detail)
    requires Honest(v) && IsReason(source)
    ensures Honest(Gapped(v, source, detail))
  {
    hide HasGap, NamedEntry;
    if Known(v.coverage, source, detail) {
      var i :| 0 <= i < |v.coverage| && v.coverage[i].source == source && v.coverage[i].detail == detail;
      GapOnRecord(v.coverage, v.coverage[i]);
    } else {
      EntriesSnoc(v.coverage, Coverage(source, Incomplete, detail));
    }
  }

  lemma {:induction false} GapOnRecord(coverage: seq<Coverage>, c: Coverage)
    requires c in coverage && IsGap(c)
    ensures HasGap(coverage)
  {
  }

  lemma {:induction false} NotedHonest(v: View, c: Coverage)
    requires Honest(v) && !IsReason(c.source) && !c.source.NamedGet?
    ensures Honest(v.(coverage := v.coverage + [c], complete := v.complete && c.state == Complete))
  {
    hide HasGap, NamedEntry;
    EntriesSnoc(v.coverage, c);
  }

  lemma {:induction false} LookedHonest(v: View, topic: Topic, answer: NamedAnswer)
    requires Honest(v)
    ensures Honest(Looked(v, topic, answer))
  {
    hide HasGap, NamedEntry;
    var w, o := Looked(v, topic, answer), Object(topic, NamedState(answer));
    assert forall x :: x in w.objects <==> x in v.objects || x == o;
    if answer != Found {
      EntriesSnoc(v.coverage, Coverage(NamedGet(topic), NamedState(answer), NamedDetail(topic.kind, answer)));
    }
  }

  lemma {:induction false} PlayHonest(steps: seq<Step>, validName: string -> bool)
    requires WellNamed(steps)
    ensures Honest(Play(EMPTY_VIEW, steps, validName))
  {
    if steps != [] {
      hide Honest, Gapped, Acceptable;
      var n := |steps| - 1;
      assert WellNamedStep(steps[n]);
      PlayHonest(steps[..n], validName);
      StepHonest(Play(EMPTY_VIEW, steps[..n], validName), steps[n], validName);
    }
  }

  lemma {:induction false} StepHonest(v: View, s: Step, validName: string -> bool)
    requires Honest(v) && WellNamedStep(s)
    ensures Honest(Taken(v, s, validName))
  {
    hide HasGap, NamedEntry, Gapped, Looked, Acceptable;
    match s
    case Offer(ref) =>
      GappedHonest(v, Declarations, InvalidExcluded);
      GappedHonest(v, Declarations, RetentionCapped);
    case Gap(source, detail) => GappedHonest(v, source, detail);
    case Note(c) => NotedHonest(v, c);
    case Named(topic, answer) => LookedHonest(v, topic, answer);
  }

  // ---- The claim in terms of what was read ----

  /** The topics of a review. */
  function ReviewTopics(id: Identity, answer: SourceAnswer): set<Topic> {
    match answer
    case SourceConfig(kind) => {Topic(id.namespace, kind, id.name)}
    case SourceWorkload(Some(spec)) => Topics(Declared(id, spec))
    case _ => {}
  }

  function SourceDeclared(id: Identity, answer: SourceAnswer): seq<Reference> {
    if answer.SourceWorkload? && answer.spec.Some? then Declared(id, answer.spec.value) else []
  }

  ghost predicate AllAcceptable(refs: seq<Reference>, validName: string -> bool) {
    forall r :: r in refs ==> Acceptable(r, validName)
  }

  function ItemDeclared(id: Identity, r: Resource, x: Listed, topics: set<Topic>): seq<Reference> {
    if x.spec.None? then [] else Matching(Declared(ConsumerIdentity(id, r, x), x.spec.value), topics)
  }

  ghost predicate ItemUnderstood(id: Identity, r: Resource, x: Listed, topics: set<Topic>, validName: string -> bool) {
    && x.namespace == id.namespace && x.uid != "" && x.matches && x.spec.Some?
    && |Declared(ConsumerIdentity(id, r, x), x.spec.value)| <= MAX_REFERENCES
    && AllAcceptable(ItemDeclared(id, r, x, topics), validName)
  }

  function ItemsDeclared(id: Identity, r: Resource, items: seq<Listed>, topics: set<Topic>): seq<Reference> {
    if items == [] then []
    else ItemsDeclared(id, r, items[..|items| - 1], topics) + ItemDeclared(id, r, items[|items| - 1], topics)
  }

  ghost predicate ItemsUnderstood(id: Identity, r: Resource, items: seq<Listed>, topics: set<Topic>,
                                  validName: string -> bool) {
    items == [] || (
    && ItemsUnderstood(id, r, items[..|items| - 1], topics, validName)
    && ItemUnderstood(id, r, items[|items| - 1], topics, validName))
  }

  lemma {:induction false} EachItem(id: Identity, r: Resource, items: seq<Listed>, topics: set<Topic>,
                                    validName: string -> bool)
    ensures ItemsUnderstood(id, r, items, topics, validName) <==>
              forall i :: 0 <= i < |items| ==> ItemUnderstood(id, r, items[i], topics, validName)
  {
    hide ItemUnderstood;
    if items != [] {
      var n := |items| - 1;
      EachItem(id, r, items[..n], topics, validName);
      forall i | 0 <= i < n && ItemsUnderstood(id, r, items, topics, validName)
        ensures ItemUnderstood(id, r, items[i], topics, validName)
      {
        assert items[..n][i] == items[i];
      }
    }
  }

  ghost predicate ListUnderstood(id: Identity, r: Resource, answer: ListAnswer, topics: set<Topic>,
                                 validName: string -> bool) {
    && answer.ListOk? && !answer.more && |answer.items| <= MAX_CONSUMERS
    && ItemsUnderstood(id, r, answer.items, topics, validName)
  }

  function ListDeclared(id: Identity, r: Resource, answer: ListAnswer, topics: set<Topic>): seq<Reference> {
    if answer.ListOk? then ItemsDeclared(id, r, answer.items, topics) else []
  }

  function ListsDeclared(id: Identity, answers: seq<ListAnswer>, topics: set<Topic>): seq<Reference>
    requires |answers| <= |CONSUMER_RESOURCES|
  {
    if answers == [] then []
    else
      var n := |answers| - 1;
      ListsDeclared(id, answers[..n], topics) + ListDeclared(id, CONSUMER_RESOURCES[n], answers[n], topics)
  }

  ghost predicate ListsUnderstood(id: Identity, answers: seq<ListAnswer>, topics: set<Topic>, validName: string -> bool)
    requires |answers| <= |CONSUMER_RESOURCES|
  {
    answers == [] || (
    var n := |answers| - 1;
    && ListsUnderstood(id, answers[..n], topics, validName)
    && ListUnderstood(id, CONSUMER_RESOURCES[n], answers[n], topics, validName))
  }

  lemma {:induction false} EachList(id: Identity, answers: seq<ListAnswer>, topics: set<Topic>,
                                    validName: string -> bool)
    requires |answers| <= |CONSUMER_RESOURCES|
    ensures ListsUnderstood(id, answers, topics, validName) <==>
              forall k :: 0 <= k < |answers| ==>
                ListUnderstood(id, CONSUMER_RESOURCES[k], answers[k], topics, validName)
  {
    hide ListUnderstood;
    if answers != [] {
      var n := |answers| - 1;
      EachList(id, answers[..n], topics, validName);
      forall k | 0 <= k < n && ListsUnderstood(id, answers, topics, validName)
        ensures ListUnderstood(id, CONSUMER_RESOURCES[k], answers[k], topics, validName)
      {
        assert answers[..n][k] == answers[k];
      }
    }
  }

  // ---- Steps and what they stand for ----

  lemma {:induction false} CleanAppend(a: seq<Step>, b: seq<Step>, validName: string -> bool)
    ensures Clean(a + b, validName) <==> Clean(a, validName) && Clean(b, validName)
  {
    if Clean(a + b, validName) {
      forall i | 0 <= i < |a| ensures Fine(a[i], validName) { assert (a + b)[i] == a[i]; }
      forall i | 0 <= i < |b| ensures Fine(b[i], validName) { assert (a + b)[|a| + i] == b[i]; }
    }
  }

  lemma {:induction false} KeptAppend(a: seq<Step>, b: seq<Step>, validName: string -> bool)
    ensures Kept(a + b, validName) == Kept(a, validName) + Kept(b, validName)
    decreases |b|
  {
    if b == [] {
      assert a + b == a;
    } else {
      assert (a + b)[..|a + b| - 1] == a + b[..|b| - 1];
      KeptAppend(a, b[..|b| - 1], validName);
    }
  }

  /** Observations that leave no gap exactly when something was understood, and that then offer just `refs`. */
  ghost predicate Conveys(steps: seq<Step>, validName: string -> bool, understood: bool, refs: seq<Reference>) {
    && (Clean(steps, validName) <==> understood)
    && (understood ==> Kept(steps, validName) == refs)
  }

  lemma {:induction false} ConveysAppend(a: seq<Step>, b: seq<Step>, validName: string -> bool, p: bool, q: bool,
                                         x: seq<Reference>, y: seq<Reference>)
    requires Conveys(a, validName, p, x) && Conveys(b, validName, q, y)
    ensures Conveys(a + b, validName, p && q, x + y)
  {
    CleanAppend(a, b, validName);
    KeptAppend(a, b, validName);
  }

  lemma {:induction false} ConveysNote(c: Coverage, validName: string -> bool)
    ensures Conveys([Note(c)], validName, c.state == Complete, [])
  {
    assert Clean([Note(c)], validName) <==> Fine([Note(c)][0], validName);
    assert Kept([Note(c)], validName) == [];
  }

  lemma {:induction false} ConveysOffers(refs: seq<Reference>, validName: string -> bool)
    ensures Conveys(Offers(refs), validName, AllAcceptable(refs, validName), refs)
  {
    if refs != [] {
      var n := |refs| - 1;
      var last := [Offer(refs[n])];
      ConveysOffers(refs[..n], validName);
      assert Clean(last, validName) <==> Fine(last[0], validName);
      assert refs == refs[..n] + [refs[n]] && Offers(refs) == Offers(refs[..n]) + last;
      assert Conveys(last, validName, Acceptable(refs[n], validName), [refs[n]]);
      ConveysAppend(Offers(refs[..n]), last, validName,
                    AllAcceptable(refs[..n], validName), Acceptable(refs[n], validName), refs[..n], [refs[n]]);
    }
  }

  lemma {:induction false} ConveysItem(id: Identity, r: Resource, x: Listed, topics: set<Topic>,
                                       validName: string -> bool)
    ensures Conveys(ItemSteps(id, r, x, topics), validName, ItemUnderstood(id, r, x, topics, validName),
                    ItemDeclared(id, r, x, topics))
  {
    if x.namespace != id.namespace || x.uid == "" || !x.matches || x.spec.None? {
      assert ItemSteps(id, r, x, topics)[0].Gap?;
    } else {
      var all := Declared(ConsumerIdentity(id, r, x), x.spec.value);
      if |all| > MAX_REFERENCES {
        assert ItemSteps(id, r, x, topics)[0].Gap?;
      } else {
        assert First(all) == all;
        assert ItemSteps(id, r, x, topics) == Offers(Matching(all, topics));
        ConveysOffers(Matching(all, topics), validName);
      }
    }
  }

  lemma {:induction false} ConveysPage(id: Identity, r: Resource, items: seq<Listed>, topics: set<Topic>,
                                       validName: string -> bool)
    ensures Conveys(PageSteps(id, r, items, topics), validName,
                    ItemsUnderstood(id, r, items, topics, validName), ItemsDeclared(id, r, items, topics))
  {
    if items != [] {
      var n := |items| - 1;
      ConveysPage(id, r, items[..n], topics, validName);
      ConveysItem(id, r, items[n], topics, validName);
      ConveysAppend(PageSteps(id, r, items[..n], topics), ItemSteps(id, r, items[n], topics), validName,
                    ItemsUnderstood(id, r, items[..n], topics, validName),
                    ItemUnderstood(id, r, items[n], topics, validName),
                    ItemsDeclared(id, r, items[..n], topics), ItemDeclared(id, r, items[n], topics));
    }
  }

  lemma {:induction false} ConveysList(id: Identity, r: Resource, answer: ListAnswer, topics: set<Topic>,
                                       validName: string -> bool)
    ensures Conveys(ListSteps(id, r, answer, topics), validName,
                    ListUnderstood(id, r, answer, topics, validName), ListDeclared(id, r, answer, topics))
  {
    var note := ListNote(r, answer);
    ConveysNote(note, validName);
    if answer.ListOk? {
      var page := answer.items[..Min(|answer.items|, MAX_CONSUMERS)];
      ConveysPage(id, r, page, topics, validName);
      ConveysAppend([Note(note)], PageSteps(id, r, page, topics), validName, note.state == Complete,
                    ItemsUnderstood(id, r, page, topics, validName), [], ItemsDeclared(id, r, page, topics));
      if |answer.items| <= MAX_CONSUMERS {
        assert page == answer.items;
      }
    } else {
      assert ListSteps(id, r, answer, topics) == [Note(note)];
    }
  }

  lemma {:induction false} ConveysLists(id: Identity, answers: seq<ListAnswer>, topics: set<Topic>,
                                        validName: string -> bool)
    requires |answers| <= |CONSUMER_RESOURCES|
    ensures Conveys(ListsSteps(id, answers, topics), validName,
                    ListsUnderstood(id, answers, topics, validName), ListsDeclared(id, answers, topics))
  {
    if answers != [] {
      var n := |answers| - 1;
      ConveysLists(id, answers[..n], topics, validName);
      ConveysList(id, CONSUMER_RESOURCES[n], answers[n], topics, validName);
      ConveysAppend(ListsSteps(id, answers[..n], topics), ListSteps(id, CONSUMER_RESOURCES[n], answers[n], topics),
                    validName,
                    ListsUnderstood(id, answers[..n], topics, validName),
                    ListUnderstood(id, CONSUMER_RESOURCES[n], answers[n], topics, validName),
                    ListsDeclared(id, answers[..n], topics),
                    ListDeclared(id, CONSUMER_RESOURCES[n], answers[n], topics));
    }
  }

  // ---- The whole review ----

  ghost predicate SourceUnderstood(id: Identity, answer: SourceAnswer, validName: string -> bool) {
    |SourceDeclared(id, answer)| <= MAX_REFERENCES && AllAcceptable(SourceDeclared(id, answer), validName)
  }

  lemma {:induction false} ConveysOwn(id: Identity, answer: SourceAnswer, validName: string -> bool)
    ensures Conveys(OwnSteps(id, answer), validName, SourceUnderstood(id, answer, validName),
                    SourceDeclared(id, answer))
  {
    if answer.SourceWorkload? && answer.spec.Some? {
      var all := SourceDeclared(id, answer);
      if |all| > MAX_REFERENCES {
        assert OwnSteps(id, answer)[0].Gap?;
      } else {
        assert First(all) == all && OwnSteps(id, answer) == Offers(all);
        ConveysOffers(all, validName);
      }
    } else {
      assert |OwnSteps(id, answer)| <= 1;
    }
  }

  lemma {:induction false} ConveysSource(id: Identity, answer: SourceAnswer, validName: string -> bool)
    ensures Conveys(SourceSteps(id, answer), validName, SourceUnderstood(id, answer, validName),
                    SourceDeclared(id, answer))
  {
    hide Conveys, OwnSteps, SourceDeclared, SourceUnderstood;
    var note, all := Coverage(SourceGet, Complete, SourceVerified), SourceDeclared(id, answer);
    ConveysOwn(id, answer, validName);
    ConveysNote(note, validName);
    ConveysAppend(OwnSteps(id, answer), [Note(note)], validName, SourceUnderstood(id, answer, validName), true,
                  all, []);
    assert all + [] == all;
  }

  /** The named reads leave no gap and offer nothing. */
  lemma {:induction false} ConveysNamed(order: seq<Topic>, lookup: Topic -> NamedAnswer, captured: set<Topic>,
                                        validName: string -> bool)
    ensures Conveys(NamedSteps(order, lookup, captured), validName, true, [])
  {
    if order != [] {
      var n := |order| - 1;
      var last := if order[n] in captured then [] else [Named(order[n], lookup(order[n]))];
      ConveysNamed(order[..n], lookup, captured, validName);
      assert Conveys(last, validName, true, []);
      ConveysAppend(NamedSteps(order[..n], lookup, captured), last, validName, true, true, [], []);
    }
  }

  function ConsumersDeclared(id: Identity, lists: Option<seq<ListAnswer>>, topics: set<Topic>): seq<Reference>
    requires lists.Some? ==> |lists.value| == |CONSUMER_RESOURCES|
  {
    if topics == {} || lists.None? then [] else ListsDeclared(id, lists.value, topics)
  }

  ghost predicate ConsumersUnderstood(id: Identity, lists: Option<seq<ListAnswer>>, topics: set<Topic>,
                                      validName: string -> bool)
    requires lists.Some? ==> |lists.value| == |CONSUMER_RESOURCES|
  {
    topics == {} || (lists.Some? && ListsUnderstood(id, lists.value, topics, validName))
  }

  lemma {:induction false} ConveysConsumers(id: Identity, lists: Option<seq<ListAnswer>>, topics: set<Topic>,
                                            validName: string -> bool)
    requires lists.Some? ==> |lists.value| == |CONSUMER_RESOURCES|
    ensures Conveys(ConsumerSteps(id, lists, topics), validName,
                    ConsumersUnderstood(id, lists, topics, validName), ConsumersDeclared(id, lists, topics))
  {
    if topics != {} && lists.Some? {
      ConveysLists(id, lists.value, topics, validName);
    } else if topics != {} {
      assert ConsumerSteps(id, lists, topics)[0].Gap?;
    }
  }

  lemma {:induction false} AllKept(refs: seq<Reference>)
    requires |refs| <= MAX_REFERENCES
    ensures FirstKept(refs) == Distinct(refs)
  {
    hide Distinct;
    assert |Distinct(refs)| <= |refs|;
  }

  /** A source that is understood leaves the references it declares, each once. */
  lemma {:induction false} SourceReferences(id: Identity, answer: SourceAnswer, validName: string -> bool)
    requires SourceUnderstood(id, answer, validName)
    ensures Play(EMPTY_VIEW, SourceSteps(id, answer), validName).references == Distinct(SourceDeclared(id, answer))
  {
    hide Play, SourceSteps, SourceDeclared, Kept, Clean, AllAcceptable, Distinct, FirstKept;
    ConveysSource(id, answer, validName);
    PlayExact(SourceSteps(id, answer), validName);
    AllKept(SourceDeclared(id, answer));
  }

  /** The topics the collector goes on with are those of the source, once the source is understood. */
  lemma {:induction false} TopicsOfSource(id: Identity, answer: SourceAnswer, validName: string -> bool)
    requires Failure(answer).None? && SourceUnderstood(id, answer, validName)
    ensures SourceTopics(id, answer, validName) == ReviewTopics(id, answer)
  {
    if answer.SourceWorkload? {
      hide Play, SourceSteps, Declared, SourceUnderstood, Distinct, Topics;
      SourceReferences(id, answer, validName);
    }
  }

  lemma {:induction false} ConveysReview(id: Identity, answer: SourceAnswer, lists: Option<seq<ListAnswer>>,
                                         order: seq<Topic>, lookup: Topic -> NamedAnswer,
                                         validName: string -> bool)
    requires lists.Some? ==> |lists.value| == |CONSUMER_RESOURCES|
    ensures var topics := SourceTopics(id, answer, validName);
            Conveys(AllSteps(id, answer, lists, order, lookup, validName), validName,
                    SourceUnderstood(id, answer, validName) && ConsumersUnderstood(id, lists, topics, validName),
                    SourceDeclared(id, answer) + ConsumersDeclared(id, lists, topics))
  {
    hide Conveys, SourceSteps, ConsumerSteps, NamedSteps, SourceDeclared, ConsumersDeclared, SourceUnderstood,
      ConsumersUnderstood, SourceTopics, Captured;
    var topics := SourceTopics(id, answer, validName);
    var x, y := SourceDeclared(id, answer), ConsumersDeclared(id, lists, topics);
    ConveysSource(id, answer, validName);
    ConveysConsumers(id, lists, topics, validName);
    ConveysNamed(order, lookup, Captured(id, answer), validName);
    ConveysAppend(SourceSteps(id, answer), ConsumerSteps(id, lists, topics), validName,
                  SourceUnderstood(id, answer, validName), ConsumersUnderstood(id, lists, topics, validName), x, y);
    ConveysAppend(SourceSteps(id, answer) + ConsumerSteps(id, lists, topics),
                  NamedSteps(order, lookup, Captured(id, answer)), validName,
                  SourceUnderstood(id, answer, validName) && ConsumersUnderstood(id, lists, topics, validName), true,
                  x + y, []);
    assert x + y + [] == x + y;
  }

  /** The claim is made exactly when everything was read, recognised and retained: the source and every
      listed consumer within bounds, no list failed or cut off, and all of it together within the cap. */
  lemma {:induction false} ClaimIff(id: Identity, answer: SourceAnswer, lists: Option<seq<ListAnswer>>,
                                    order: seq<Topic>, lookup: Topic -> NamedAnswer, validName: string -> bool)
    requires Failure(answer).None? && (lists.Some? ==> |lists.value| == |CONSUMER_RESOURCES|)
    ensures var topics, view := ReviewTopics(id, answer), Reviewed(id, answer, lists, order, lookup, validName);
            var all := SourceDeclared(id, answer) + ConsumersDeclared(id, lists, topics);
            && (view.complete <==>
                  && SourceUnderstood(id, answer, validName)
                  && ConsumersUnderstood(id, lists, topics, validName)
                  && |Distinct(all)| <= MAX_REFERENCES)
            && (view.complete ==> view.references == Distinct(all))
  {
    hide Play, SourceSteps, ConsumerSteps, Kept, Clean, SourceDeclared, ConsumersDeclared, SourceUnderstood,
      ConsumersUnderstood, ReviewTopics, SourceTopics, Distinct, Failure;
    var topics := SourceTopics(id, answer, validName);
    ConveysReview(id, answer, lists, order, lookup, validName);
    PlayExact(AllSteps(id, answer, lists, order, lookup, validName), validName);
    if SourceUnderstood(id, answer, validName) {
      TopicsOfSource(id, answer, validName);
    }
  }

  lemma {:induction false} MatchingIn(refs: seq<Reference>, topics: set<Topic>, d: Reference)
    ensures d in Matching(refs, topics) <==> d in refs && TopicOf(d) in topics
  {
    if refs != [] {
      var n := |refs| - 1;
      MatchingIn(refs[..n], topics, d);
      assert refs == refs[..n] + [refs[n]];
    }
  }

  lemma {:induction false} ItemsDeclaredIn(id: Identity, r: Resource, items: seq<Listed>, topics: set<Topic>,
                                           d: Reference)
    ensures d in ItemsDeclared(id, r, items, topics) <==>
              exists i :: 0 <= i < |items| && d in ItemDeclared(id, r, items[i], topics)
  {
    hide ItemDeclared;
    if items != [] {
      var n := |items| - 1;
      ItemsDeclaredIn(id, r, items[..n], topics, d);
      if i :| 0 <= i < n && d in ItemDeclared(id, r, items[i], topics) {
        assert items[..n][i] == items[i];
      }
    }
  }

  lemma {:induction false} ListDeclaredIn(id: Identity, answers: seq<ListAnswer>, topics: set<Topic>, k: nat,
                                          d: Reference)
    requires k < |answers| <= |CONSUMER_RESOURCES| && d in ListDeclared(id, CONSUMER_RESOURCES[k], answers[k], topics)
    ensures d in ListsDeclared(id, answers, topics)
  {
    hide ListDeclared;
    var n := |answers| - 1;
    var front := ListsDeclared(id, answers[..n], topics);
    var last := ListDeclared(id, CONSUMER_RESOURCES[n], answers[n], topics);
    assert ListsDeclared(id, answers, topics) == front + last;
    if k < n {
      assert answers[..n][k] == answers[k];
      ListDeclaredIn(id, answers[..n], topics, k, d);
      assert d in front;
    } else {
      assert d in last;
    }
  }

  /** A declaration `d` about one of the topics, made by the object number `i` of the list number `k`. */
  ghost predicate DeclaredBy(id: Identity, answers: seq<ListAnswer>, topics: set<Topic>, k: nat, i: nat, d: Reference)
    requires |answers| == |CONSUMER_RESOURCES|
  {
    && k < |answers| && answers[k].ListOk? && i < |answers[k].items| && answers[k].items[i].spec.Some?
    && Topic(d.consumer.namespace, d.kind, d.name) in topics
    && var (r, x) := (CONSUMER_RESOURCES[k], answers[k].items[i]);
       d in Declared(Identity(id.context, r.gvr, x.namespace, x.name, x.uid, r.kind), x.spec.value)
  }

  /** A list that was read to its end, and every object on it recognised. */
  ghost predicate RecognisedWhole(id: Identity, r: Resource, answer: ListAnswer, topics: set<Topic>,
                                  validName: string -> bool)
  {
    && answer.ListOk? && !answer.more && |answer.items| <= MAX_CONSUMERS
    && forall i :: 0 <= i < |answer.items| ==> ItemUnderstood(id, r, answer.items[i], topics, validName)
  }

  /** What the claim is worth: no declaration of the source and no declaration about its topics by any object
      of any list is missing, every list was obtained whole, and every object on it was recognised. */
  lemma {:induction false} ClaimSound(id: Identity, answer: SourceAnswer, lists: Option<seq<ListAnswer>>,
                                      order: seq<Topic>, lookup: Topic -> NamedAnswer, validName: string -> bool)
    requires Failure(answer).None? && (lists.Some? ==> |lists.value| == |CONSUMER_RESOURCES|)
    requires Reviewed(id, answer, lists, order, lookup, validName).complete
    ensures var topics, view := ReviewTopics(id, answer), Reviewed(id, answer, lists, order, lookup, validName);
            && (forall d :: d in SourceDeclared(id, answer) ==> d in view.references)
            && (topics != {} ==> lists.Some?)
            && (topics != {} ==>
                  forall k, i, d :: DeclaredBy(id, lists.value, topics, k, i, d) ==> d in view.references)
            && (topics != {} ==> forall k :: 0 <= k < |CONSUMER_RESOURCES| ==>
                  RecognisedWhole(id, CONSUMER_RESOURCES[k], lists.value[k], topics, validName))
  {
    hide Reviewed, ReviewTopics, SourceUnderstood, ItemUnderstood, ListsDeclared, Failure;
    ClaimIff(id, answer, lists, order, lookup, validName);
    var topics, view := ReviewTopics(id, answer), Reviewed(id, answer, lists, order, lookup, validName);
    if topics != {} {
      EachList(id, lists.value, topics, validName);
      forall k | 0 <= k < |CONSUMER_RESOURCES|
        ensures RecognisedWhole(id, CONSUMER_RESOURCES[k], lists.value[k], topics, validName)
      {
        EachItem(id, CONSUMER_RESOURCES[k], lists.value[k].items, topics, validName);
      }
      forall k, i, d | DeclaredBy(id, lists.value, topics, k, i, d) ensures d in view.references {
        DeclaredByListed(id, lists.value, topics, k, i, d);
      }
    }
  }

  lemma {:induction false} DeclaredByListed(id: Identity, answers: seq<ListAnswer>, topics: set<Topic>, k: nat,
                                            i: nat, d: Reference)
    requires |answers| == |CONSUMER_RESOURCES| && DeclaredBy(id, answers, topics, k, i, d)
    ensures d in ListsDeclared(id, answers, topics)
  {
    var x := answers[k].items[i];
    MatchingIn(Declared(ConsumerIdentity(id, CONSUMER_RESOURCES[k], x), x.spec.value), topics, d);
    assert d in ItemDeclared(id, CONSUMER_RESOURCES[k], answers[k].items[i], topics);
    ItemsDeclaredIn(id, CONSUMER_RESOURCES[k], answers[k].items, topics, d);
    ListDeclaredIn(id, answers, topics, k, d);
  }

  // ---- What holds of every review, complete or not ----

  lemma {:induction false} NamedAppend(a: seq<Step>, b: seq<Step>)
    requires WellNamed(a) && WellNamed(b)
    ensures WellNamed(a + b)
  {
    hide WellNamedStep;
    forall s | s in a + b ensures WellNamedStep(s) { assert s in a || s in b; }
  }

  /** What lists and pages observe names no configuration. */
  ghost predicate FromLists(steps: seq<Step>) { forall s :: s in steps ==> WellNamedStep(s) && !s.Named? }

  lemma {:induction false} ItemNamed(id: Identity, r: Resource, x: Listed, topics: set<Topic>)
    ensures FromLists(ItemSteps(id, r, x, topics))
  {
    hide Declared, First, Matching;
  }

  lemma {:induction false} PageNamed(id: Identity, r: Resource, items: seq<Listed>, topics: set<Topic>)
    ensures FromLists(PageSteps(id, r, items, topics))
  {
    if items != [] {
      hide FromLists, ItemSteps;
      var n := |items| - 1;
      PageNamed(id, r, items[..n], topics);
      ItemNamed(id, r, items[n], topics);
    } else {
      assert PageSteps(id, r, items, topics) == [];
    }
  }

  lemma {:induction false} ListNamed(id: Identity, r: Resource, answer: ListAnswer, topics: set<Topic>)
    ensures FromLists(ListSteps(id, r, answer, topics))
  {
    hide PageSteps;
    var note := [Note(ListNote(r, answer))];
    assert FromLists(note);
    if answer.ListOk? {
      var page := answer.items[..Min(|answer.items|, MAX_CONSUMERS)];
      PageNamed(id, r, page, topics);
    } else {
      assert note + [] == note;
    }
  }

  lemma {:induction false} ListsNamed(id: Identity, answers: seq<ListAnswer>, topics: set<Topic>)
    requires |answers| <= |CONSUMER_RESOURCES|
    ensures FromLists(ListsSteps(id, answers, topics))
  {
    if answers != [] {
      hide FromLists, ListSteps;
      var n := |answers| - 1;
      ListsNamed(id, answers[..n], topics);
      ListNamed(id, CONSUMER_RESOURCES[n], answers[n], topics);
    } else {
      assert ListsSteps(id, answers, topics) == [];
    }
  }

  lemma {:induction false} ConsumersNamed(id: Identity, lists: Option<seq<ListAnswer>>, topics: set<Topic>)
    requires lists.Some? ==> |lists.value| == |CONSUMER_RESOURCES|
    ensures FromLists(ConsumerSteps(id, lists, topics))
  {
    hide ListsSteps;
    if topics != {} && lists.Some? { ListsNamed(id, lists.value, topics); }
  }

  lemma {:induction false} OwnNamed(id: Identity, answer: SourceAnswer)
    ensures WellNamed(OwnSteps(id, answer)) && WellNamed(SourceSteps(id, answer))
  {
    hide Declared, First;
    var note := Note(Coverage(SourceGet, Complete, SourceVerified));
    assert WellNamed(OwnSteps(id, answer)) && WellNamed([note]);
    NamedAppend(OwnSteps(id, answer), [note]);
  }

  lemma {:induction false} ReadsNamed(order: seq<Topic>, lookup: Topic -> NamedAnswer, captured: set<Topic>)
    ensures WellNamed(NamedSteps(order, lookup, captured))
  {
    if order != [] {
      ReadsNamed(order[..|order| - 1], lookup, captured);
    }
  }

  lemma {:induction false} ReviewNamed(id: Identity, answer: SourceAnswer, lists: Option<seq<ListAnswer>>,
                                       order: seq<Topic>, lookup: Topic -> NamedAnswer, validName: string -> bool)
    requires lists.Some? ==> |lists.value| == |CONSUMER_RESOURCES|
    ensures WellNamed(AllSteps(id, answer, lists, order, lookup, validName))
  {
    hide WellNamed, SourceSteps, ConsumerSteps, NamedSteps, Captured, SourceTopics;
    var listed := ConsumerSteps(id, lists, SourceTopics(id, answer, validName));
    OwnNamed(id, answer);
    ConsumersNamed(id, lists, SourceTopics(id, answer, validName));
    ListedWellNamed(listed);
    NamedAppend(SourceSteps(id, answer), listed);
    ReadsNamed(order, lookup, Captured(id, answer));
    NamedAppend(SourceSteps(id, answer) + listed, NamedSteps(order, lookup, Captured(id, answer)));
  }

  /** The claim is withdrawn exactly when some entry other than one about a named read is not complete; and
      there is an entry about a named read for each object that was not there, and for no other. */
  lemma {:induction false} ClaimIsHonest(id: Identity, answer: SourceAnswer, lists: Option<seq<ListAnswer>>,
                                         order: seq<Topic>, lookup: Topic -> NamedAnswer,
                                         validName: string -> bool)
    requires lists.Some? ==> |lists.value| == |CONSUMER_RESOURCES|
    ensures var view := Reviewed(id, answer, lists, order, lookup, validName);
            && (view.complete <==> !exists c :: c in view.coverage && !c.source.NamedGet? && c.state != Complete)
            && (forall t, s :: NamedEntry(view.coverage, t, s) <==> Object(t, s) in view.objects && s != Present)
  {
    hide WellNamed, NamedEntry, Play, AllSteps;
    ReviewNamed(id, answer, lists, order, lookup, validName);
    PlayHonest(AllSteps(id, answer, lists, order, lookup, validName), validName);
    assert forall c :: IsGap(c) <==> !c.source.NamedGet? && c.state != Complete;
  }

  lemma {:induction false} ListedWellNamed(steps: seq<Step>)
    requires FromLists(steps)
    ensures WellNamed(steps)
  {
  }

  // ---- The objects, and when every entry is complete ----

  function ObjectsOf(s: Step): seq<Object> {
    if s.Named? then [Object(s.topic, NamedState(s.answer))] else []
  }

  function AllObjects(steps: seq<Step>): seq<Object> {
    if steps == [] then [] else AllObjects(steps[..|steps| - 1]) + ObjectsOf(steps[|steps| - 1])
  }

  lemma {:induction false} PlayObjects(v: View, steps: seq<Step>, validName: string -> bool)
    ensures Play(v, steps, validName).objects == v.objects + AllObjects(steps)
  {
    if steps != [] {
      var n := |steps| - 1;
      PlayObjects(v, steps[..n], validName);
      assert v.objects + (AllObjects(steps[..n]) + ObjectsOf(steps[n]))
          == v.objects + AllObjects(steps[..n]) + ObjectsOf(steps[n]);
    } else {
      assert v.objects + [] == v.objects;
    }
  }

  lemma {:induction false} ObjectsAppend(a: seq<Step>, b: seq<Step>)
    ensures AllObjects(a + b) == AllObjects(a) + AllObjects(b)
    decreases |b|
  {
    if b == [] {
      assert a + b == a;
    } else {
      var n := |b| - 1;
      assert (a + b)[..|a + b| - 1] == a + b[..n];
      ObjectsAppend(a, b[..n]);
      assert AllObjects(a) + AllObjects(b[..n]) + ObjectsOf(b[n])
          == AllObjects(a) + (AllObjects(b[..n]) + ObjectsOf(b[n]));
    }
  }

  lemma {:induction false} NoObjects(steps: seq<Step>)
    requires forall s :: s in steps ==> !s.Named?
    ensures AllObjects(steps) == []
  {
    if steps != [] {
      assert steps[|steps| - 1] in steps;
      NoObjects(steps[..|steps| - 1]);
    }
  }

  lemma {:induction false} SourceObjects(id: Identity, answer: SourceAnswer)
    ensures AllObjects(SourceSteps(id, answer))
         == if answer.SourceConfig? then [Object(Topic(id.namespace, answer.kind, id.name), Present)] else []
  {
    hide Declared, First, WorkloadSteps;
    var own, note := OwnSteps(id, answer), Note(Coverage(SourceGet, Complete, SourceVerified));
    ObjectsAppend(own, [note]);
    NoObjects([note]);
    if answer.SourceConfig? {
      assert own[..0] == [];
      assert [] + ObjectsOf(own[0]) == ObjectsOf(own[0]);
    } else if answer.SourceWorkload? && answer.spec.Some? {
      WorkloadUnnamed(First(Declared(id, answer.spec.value)));
      NoObjects(own);
    }
  }

  lemma {:induction false} WorkloadUnnamed(refs: seq<Reference>)
    ensures forall s :: s in WorkloadSteps(refs) ==> !s.Named?
  {
  }

  /** What the named read of one topic adds. */
  function ReadObject(t: Topic, lookup: Topic -> NamedAnswer, captured: set<Topic>): seq<Object> {
    if t in captured then [] else [Object(t, NamedState(lookup(t)))]
  }

  lemma {:induction false} ReadObjectsSnoc(order: seq<Topic>, lookup: Topic -> NamedAnswer, captured: set<Topic>)
    requires order != []
    ensures var n := |order| - 1;
            AllObjects(NamedSteps(order, lookup, captured))
            == AllObjects(NamedSteps(order[..n], lookup, captured)) + ReadObject(order[n], lookup, captured)
  {
    hide NamedState;
    var n := |order| - 1;
    var last := if order[n] in captured then [] else [Named(order[n], lookup(order[n]))];
    ObjectsAppend(NamedSteps(order[..n], lookup, captured), last);
  }

  /** The object a topic must have if its named read adds one. */
  predicate Expected(o: Object, lookup: Topic -> NamedAnswer, captured: set<Topic>) {
    o.topic !in captured && o.state == NamedState(lookup(o.topic))
  }

  /** The named reads give an object to each topic that was not captured, */
  lemma {:induction false} ReadObjectsIn(order: seq<Topic>, lookup: Topic -> NamedAnswer, captured: set<Topic>,
                                         o: Object)
    ensures o in AllObjects(NamedSteps(order, lookup, captured)) <==> o.topic in order && Expected(o, lookup, captured)
  {
    if order == [] {
      assert NamedSteps(order, lookup, captured) == [];
    } else {
      hide *;
      var n := |order| - 1;
      ReadObjectsSnoc(order, lookup, captured);
      ReadObjectsIn(order[..n], lookup, captured, o);
    }
  }

  /** and one only. */
  lemma {:induction false} ReadObjectsDistinct(order: seq<Topic>, lookup: Topic -> NamedAnswer, captured: set<Topic>)
    requires forall i, j :: 0 <= i < j < |order| ==> order[i] != order[j]
    ensures var objects := AllObjects(NamedSteps(order, lookup, captured));
            forall i, j :: 0 <= i < j < |objects| ==> objects[i].topic != objects[j].topic
  {
    if order != [] {
      hide NamedState, AllObjects, NamedSteps;
      var n := |order| - 1;
      ReadObjectsSnoc(order, lookup, captured);
      ReadObjectsDistinct(order[..n], lookup, captured);
      var before := AllObjects(NamedSteps(order[..n], lookup, captured));
      forall i | 0 <= i < |before| ensures before[i].topic != order[n] {
        ReadObjectsIn(order[..n], lookup, captured, before[i]);
      }
    }
  }

  lemma {:induction false} ReviewObjects(id: Identity, answer: SourceAnswer, lists: Option<seq<ListAnswer>>,
                                         order: seq<Topic>, lookup: Topic -> NamedAnswer, validName: string -> bool)
    requires lists.Some? ==> |lists.value| == |CONSUMER_RESOURCES|
    ensures Reviewed(id, answer, lists, order, lookup, validName).objects
         == AllObjects(SourceSteps(id, answer)) + AllObjects(NamedSteps(order, lookup, Captured(id, answer)))
  {
    hide Play, SourceSteps, ConsumerSteps, NamedSteps, WellNamedStep, AllObjects, SourceTopics, Captured;
    var listed := ConsumerSteps(id, lists, SourceTopics(id, answer, validName));
    var later := NamedSteps(order, lookup, Captured(id, answer));
    PlayObjects(EMPTY_VIEW, AllSteps(id, answer, lists, order, lookup, validName), validName);
    ObjectsAppend(SourceSteps(id, answer) + listed, later);
    ObjectsAppend(SourceSteps(id, answer), listed);
    ConsumersNamed(id, lists, SourceTopics(id, answer, validName));
    NoObjects(listed);
    var own := AllObjects(SourceSteps(id, answer));
    assert own + [] == own && [] + (own + AllObjects(later)) == own + AllObjects(later);
  }

  lemma {:induction false} ObjectsAre(id: Identity, answer: SourceAnswer, lists: Option<seq<ListAnswer>>,
                                      order: seq<Topic>, lookup: Topic -> NamedAnswer, validName: string -> bool,
                                      o: Object)
    requires lists.Some? ==> |lists.value| == |CONSUMER_RESOURCES|
    requires Enumerates(order, SourceTopics(id, answer, validName))
    ensures var topics, captured := SourceTopics(id, answer, validName), Captured(id, answer);
            o in Reviewed(id, answer, lists, order, lookup, validName).objects <==>
              o.topic in topics && o.state == if o.topic in captured then Present else NamedState(lookup(o.topic))
  {
    hide Reviewed, SourceSteps, NamedSteps, NamedState, AllObjects;
    var captured := Captured(id, answer);
    ReviewObjects(id, answer, lists, order, lookup, validName);
    SourceObjects(id, answer);
    var own, later := AllObjects(SourceSteps(id, answer)), AllObjects(NamedSteps(order, lookup, captured));
    ReadObjectsIn(order, lookup, captured, o);
    assert o in own + later <==> o in own || o in later;
  }

  /** A review has one object for each of its topics: the captured one, or what its named read found. Only a
      verified absence counts as missing and only a denial as denied. */
  lemma {:induction false} ObjectsExact(id: Identity, answer: SourceAnswer, lists: Option<seq<ListAnswer>>,
                                        order: seq<Topic>, lookup: Topic -> NamedAnswer, validName: string -> bool)
    requires lists.Some? ==> |lists.value| == |CONSUMER_RESOURCES|
    requires Enumerates(order, SourceTopics(id, answer, validName))
    ensures var topics, captured := SourceTopics(id, answer, validName), Captured(id, answer);
            var objects := Reviewed(id, answer, lists, order, lookup, validName).objects;
            && (forall o :: o in objects <==>
                  && o.topic in topics
                  && (if o.topic in captured then o.state == Present
                      else match lookup(o.topic)
                           case Found => o.state == Present
                           case ReadNotFound => o.state == Missing
                           case ReadDenied => o.state == Denied
                           case ReadFailed => o.state == Unknown
                           case Unverified => o.state == Unknown
                           case NoReader => o.state == Unknown))
            && (forall i, j :: 0 <= i < j < |objects| ==> objects[i].topic != objects[j].topic)
  {
    hide Reviewed, SourceSteps, NamedSteps, AllObjects;
    var captured := Captured(id, answer);
    forall o ensures o in Reviewed(id, answer, lists, order, lookup, validName).objects <==>
                       && o.topic in SourceTopics(id, answer, validName)
                       && o.state == if o.topic in captured then Present else NamedState(lookup(o.topic))
    {
      ObjectsAre(id, answer, lists, order, lookup, validName, o);
    }
    ReviewObjects(id, answer, lists, order, lookup, validName);
    SourceObjects(id, answer);
    ReadObjectsDistinct(order, lookup, captured);
    var later := AllObjects(NamedSteps(order, lookup, captured));
    forall i | 0 <= i < |later| ensures later[i].topic !in captured {
      ReadObjectsIn(order, lookup, captured, later[i]);
    }
  }

  lemma {:induction false} EntryOf(coverage: seq<Coverage>, c: Coverage)
    requires c in coverage
    ensures c.source.NamedGet? ==> NamedEntry(coverage, c.source.topic, c.state)
  {
  }

  /** Every entry on record is complete exactly when the claim stands and every configuration was there:
      the claim alone says nothing about the configurations. */
  lemma {:induction false} AllCompleteIff(id: Identity, answer: SourceAnswer, lists: Option<seq<ListAnswer>>,
                                          order: seq<Topic>, lookup: Topic -> NamedAnswer, validName: string -> bool)
    requires lists.Some? ==> |lists.value| == |CONSUMER_RESOURCES|
    requires Enumerates(order, SourceTopics(id, answer, validName))
    ensures var topics, captured := SourceTopics(id, answer, validName), Captured(id, answer);
            var view := Reviewed(id, answer, lists, order, lookup, validName);
            (forall c :: c in view.coverage ==> c.state == Complete) <==>
              view.complete && forall t :: t in topics && t !in captured ==> lookup(t) == Found
  {
    hide Reviewed, SourceTopics, Captured;
    var topics, captured := SourceTopics(id, answer, validName), Captured(id, answer);
    var view := Reviewed(id, answer, lists, order, lookup, validName);
    ClaimIsHonest(id, answer, lists, order, lookup, validName);
    ObjectsExact(id, answer, lists, order, lookup, validName);
    if forall c :: c in view.coverage ==> c.state == Complete {
      forall t | t in topics && t !in captured ensures lookup(t) == Found {
        assert Object(t, NamedState(lookup(t))) in view.objects;
        assert lookup(t) != Found ==> NamedEntry(view.coverage, t, NamedState(lookup(t)));
      }
    }
    if view.complete && (forall t :: t in topics && t !in captured ==> lookup(t) == Found) {
      forall o | o in view.objects ensures o.state == Present {}
      forall c | c in view.coverage ensures c.state == Complete { EntryOf(view.coverage, c); }
    }
  }

  const PULL_POD := Identity("context", "v1/pods", "shop", "web", "uid-1", "Pod")
  const PULL_SPEC := PodSpec([], [], [], [], ["registry"])
  const PULL_SECRET := Topic("shop", SecretKind, "registry")

  function EmptyLists(n: nat): (answers: seq<ListAnswer>)
    ensures |answers| == n
  {
    seq(n, _ => ListOk([], false))
  }

  lemma {:induction false} EmptyListsDeclareNothing(id: Identity, n: nat, topics: set<Topic>, validName: string -> bool)
    requires n <= |CONSUMER_RESOURCES|
    ensures ListsDeclared(id, EmptyLists(n), topics) == [] && ListsUnderstood(id, EmptyLists(n), topics, validName)
  {
    if n > 0 {
      assert EmptyLists(n)[..n - 1] == EmptyLists(n - 1);
      EmptyListsDeclareNothing(id, n - 1, topics, validName);
    }
  }

  lemma {:induction false} PullDeclared(validName: string -> bool)
    requires validName("registry")
    ensures Declared(PULL_POD, PULL_SPEC)
         == [Base(PULL_POD).(kind := SecretKind, name := "registry", use := ImagePullUse)]
    ensures ReviewTopics(PULL_POD, SourceWorkload(Some(PULL_SPEC))) == {PULL_SECRET}
    ensures SourceUnderstood(PULL_POD, SourceWorkload(Some(PULL_SPEC)), validName)
  {
    var ref := Base(PULL_POD).(kind := SecretKind, name := "registry", use := ImagePullUse);
    var refs := Declared(PULL_POD, PULL_SPEC);
    assert refs == Pulls(PULL_POD, ["registry"]) == [ref];
    assert TopicOf(ref) == Topic(PULL_POD.namespace, SecretKind, "registry") == PULL_SECRET;
    assert ref in refs;
    assert |PULL_POD.uid| > 0;
  }

  /** The claim does stand beside a configuration that is missing: a Pod with one pull Secret that does not
      exist, and eight empty lists. */
  lemma {:induction false} ClaimBesideMissing(lookup: Topic -> NamedAnswer, validName: string -> bool)
    requires lookup(PULL_SECRET) == ReadNotFound && validName("registry")
    ensures var answer, lists := SourceWorkload(Some(PULL_SPEC)), Some(EmptyLists(|CONSUMER_RESOURCES|));
            var view := Reviewed(PULL_POD, answer, lists, [PULL_SECRET], lookup, validName);
            && Enumerates([PULL_SECRET], SourceTopics(PULL_POD, answer, validName))
            && view.complete && NamedEntry(view.coverage, PULL_SECRET, Missing)
  {
    hide Reviewed, Declared, NamedEntry, ListsDeclared, ListsUnderstood, EmptyLists, SourceTopics, ReviewTopics;
    var answer, lists := SourceWorkload(Some(PULL_SPEC)), Some(EmptyLists(|CONSUMER_RESOURCES|));
    PullDeclared(validName);
    EmptyListsDeclareNothing(PULL_POD, |CONSUMER_RESOURCES|, {PULL_SECRET}, validName);
    ClaimIff(PULL_POD, answer, lists, [PULL_SECRET], lookup, validName);
    TopicsOfSource(PULL_POD, answer, validName);
    ClaimIsHonest(PULL_POD, answer, lists, [PULL_SECRET], lookup, validName);
    ObjectsExact(PULL_POD, answer, lists, [PULL_SECRET], lookup, validName);
    var view := Reviewed(PULL_POD, answer, lists, [PULL_SECRET], lookup, validName);
    assert Object(PULL_SECRET, Missing) in view.objects;
  }

  lemma {:induction false} KeptOffered(steps: seq<Step>, validName: string -> bool, d: Reference)
    requires d in Kept(steps, validName)
    ensures Offer(d) in steps
  {
    var n := |steps| - 1;
    if d in Kept(steps[..n], validName) {
      KeptOffered(steps[..n], validName, d);
    }
  }

  lemma {:induction false} ItemOffers(id: Identity, r: Resource, x: Listed, topics: set<Topic>, d: Reference)
    requires Offer(d) in ItemSteps(id, r, x, topics)
    ensures d in ItemDeclared(id, r, x, topics)
  {
    hide Declared, Matching;
    var all := Declared(ConsumerIdentity(id, r, x), x.spec.value);
    assert d in Matching(First(all), topics);
    MatchingIn(First(all), topics, d);
    MatchingIn(all, topics, d);
  }

  lemma {:induction false} PageOffers(id: Identity, r: Resource, items: seq<Listed>, topics: set<Topic>, d: Reference)
    requires Offer(d) in PageSteps(id, r, items, topics)
    ensures d in ItemsDeclared(id, r, items, topics)
  {
    if items != [] {
      hide ItemSteps, ItemDeclared;
      var n := |items| - 1;
      if Offer(d) in PageSteps(id, r, items[..n], topics) {
        PageOffers(id, r, items[..n], topics, d);
      } else {
        ItemOffers(id, r, items[n], topics, d);
      }
    }
  }

  lemma {:induction false} ListsOffers(id: Identity, answers: seq<ListAnswer>, topics: set<Topic>, d: Reference)
    requires |answers| <= |CONSUMER_RESOURCES| && Offer(d) in ListsSteps(id, answers, topics)
    ensures d in ListsDeclared(id, answers, topics)
  {
    if answers != [] {
      var n := |answers| - 1;
      var r, answer := CONSUMER_RESOURCES[n], answers[n];
      if Offer(d) in ListsSteps(id, answers[..n], topics) {
        ListsOffers(id, answers[..n], topics, d);
      } else {
        assert Offer(d) in ListSteps(id, r, answer, topics);
        var page := answer.items[..Min(|answer.items|, MAX_CONSUMERS)];
        PageOffers(id, r, page, topics, d);
        ItemsDeclaredIn(id, r, page, topics, d);
        var i :| 0 <= i < |page| && d in ItemDeclared(id, r, page[i], topics);
        assert page[i] == answer.items[i];
        ItemsDeclaredIn(id, r, answer.items, topics, d);
      }
    }
  }

  lemma {:induction false} SourceOffers(id: Identity, answer: SourceAnswer, d: Reference)
    requires Offer(d) in SourceSteps(id, answer)
    ensures d in SourceDeclared(id, answer)
  {
    var all := SourceDeclared(id, answer);
    assert d in First(all);
  }

  lemma {:induction false} ReadsOffer(order: seq<Topic>, lookup: Topic -> NamedAnswer, captured: set<Topic>,
                                      d: Reference)
    ensures Offer(d) !in NamedSteps(order, lookup, captured)
  {
    if order != [] {
      ReadsOffer(order[..|order| - 1], lookup, captured, d);
    }
  }

  /** Nothing is made up, repeated or kept beyond the cap, whatever went wrong. */
  lemma {:induction false} ReferencesSound(id: Identity, answer: SourceAnswer, lists: Option<seq<ListAnswer>>,
                                           order: seq<Topic>, lookup: Topic -> NamedAnswer,
                                           validName: string -> bool)
    requires lists.Some? ==> |lists.value| == |CONSUMER_RESOURCES|
    ensures var refs := Reviewed(id, answer, lists, order, lookup, validName).references;
            && |refs| <= MAX_REFERENCES
            && (forall i, j :: 0 <= i < j < |refs| ==> refs[i] != refs[j])
            && forall d :: d in refs ==>
                 || d in SourceDeclared(id, answer)
                 || d in ConsumersDeclared(id, lists, SourceTopics(id, answer, validName))
  {
    hide Play, SourceSteps, ListsSteps, NamedSteps, Kept, Clean, SourceTopics, SourceDeclared, ListsDeclared, Captured;
    var topics, steps := SourceTopics(id, answer, validName), AllSteps(id, answer, lists, order, lookup, validName);
    PlayExact(steps, validName);
    var refs := Play(EMPTY_VIEW, steps, validName).references;
    forall d | d in refs
      ensures d in SourceDeclared(id, answer) || d in ConsumersDeclared(id, lists, topics)
    {
      assert d in Distinct(Kept(steps, validName));
      KeptOffered(steps, validName, d);
      ReadsOffer(order, lookup, Captured(id, answer), d);
      if Offer(d) in SourceSteps(id, answer) {
        SourceOffers(id, answer, d);
      } else {
        assert Offer(d) in ConsumerSteps(id, lists, topics);
        ListsOffers(id, lists.value, topics, d);
      }
    }
  }
}
