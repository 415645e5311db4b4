/** What a review puts on record and what it retains, told by the answers it was given. */
module ConfigCoverage {
  import opened Wrappers
  import opened ConfigReferences
  import opened ConfigCollect
  import opened ConfigClaim

  // ---- What one observation puts on record ----

  /** The entry about a configuration that a named read did not find there. */
  predicate ReadRecord(topic: Topic, answer: NamedAnswer, c: Coverage) {
    match answer
    case Found => false
    case ReadNotFound => c == Coverage(NamedGet(topic), Missing, NotFound)
    case ReadDenied => c == Coverage(NamedGet(topic), Denied, NamedDenied)
    case ReadFailed => c == Coverage(NamedGet(topic), Unknown, NamedUnavailable)
    case Unverified => c == Coverage(NamedGet(topic), Unknown, IdentityUnavailable)
    case NoReader =>
      c == Coverage(NamedGet(topic), Unknown,
                    if topic.kind.SecretKind? then SecretReaderUnavailable else IdentityUnavailable)
  }

  predicate Recorded(s: Step, c: Coverage, validName: string -> bool) {
    match s
    case Offer(ref) =>
      (!validName(ref.name) || ref.consumer.uid == "") && c == Coverage(Declarations, Incomplete, InvalidExcluded)
    case Gap(source, detail) => c == Coverage(source, Incomplete, detail)
    case Note(note) => c == note
    case Named(topic, answer) => ReadRecord(topic, answer, c)
  }

  const CAPPED := Coverage(Declarations, Incomplete, RetentionCapped)

  /** The record beside the references that were to be kept. */
  ghost predicate OnRecord(v: View, kept: seq<Reference>) {
    && v.references == FirstKept(kept)
    && Reasons(v.coverage)
    && (|Distinct(kept)| > MAX_REFERENCES ==> CAPPED in v.coverage)
  }

  ghost predicate Reasons(coverage: seq<Coverage>) {
    forall c :: c in coverage && IsReason(c.source) ==> c.state == Incomplete
  }

  lemma {:induction false} GappedRecord(v: View, source: Source, detail: Detail, c: Coverage)
    requires Reasons(v.coverage) && IsReason(source)
    ensures var w := Gapped(v, source, detail);
            && (c in w.coverage <==> c in v.coverage || c == Coverage(source, Incomplete, detail))
            && Reasons(w.coverage) && w.references == v.references
            && Coverage(source, Incomplete, detail) in w.coverage
  {
    if Known(v.coverage, source, detail) {
      var i :| 0 <= i < |v.coverage| && v.coverage[i].source == source && v.coverage[i].detail == detail;
      assert v.coverage[i] in v.coverage && v.coverage[i] == Coverage(source, Incomplete, detail);
    }
  }

  /** A reference offered to a full list is refused exactly if it makes one too many. */
  lemma {:induction false} OneTooMany(kept: seq<Reference>, ref: Reference)
    ensures ref !in FirstKept(kept) && |FirstKept(kept)| >= MAX_REFERENCES ==>
              |Distinct(kept + [ref])| > MAX_REFERENCES
    ensures |Distinct(kept + [ref])| > MAX_REFERENCES ==>
              || |Distinct(kept)| > MAX_REFERENCES
              || (ref !in FirstKept(kept) && |FirstKept(kept)| >= MAX_REFERENCES)
  {
    hide Distinct;
    DistinctSnoc(kept, ref);
    var d := Distinct(kept);
    if |d| <= MAX_REFERENCES { AllKeptOf(kept); }
  }

  lemma {:induction false} AllKeptOf(kept: seq<Reference>)
    requires |Distinct(kept)| <= MAX_REFERENCES
    ensures FirstKept(kept) == Distinct(kept)
  {
    hide Distinct;
  }

  lemma {:induction false} OfferRecord(v: View, kept: seq<Reference>, ref: Reference, validName: string -> bool,
                                       c: Coverage)
    requires OnRecord(v, kept)
    ensures var w, more := Offered(v, ref, validName), kept + KeptOf(Offer(ref), validName);
            && OnRecord(w, more)
            && (c in w.coverage <==>
                  c in v.coverage || Recorded(Offer(ref), c, validName)
                  || (c == CAPPED && |Distinct(more)| > MAX_REFERENCES))
  {
    hide Distinct, FirstKept, Gapped, Reasons;
    GappedRecord(v, Declarations, InvalidExcluded, c);
    GappedRecord(v, Declarations, InvalidExcluded, CAPPED);
    GappedRecord(v, Declarations, RetentionCapped, c);
    if Acceptable(ref, validName) {
      FirstKeptSnoc(kept, ref);
      OneTooMany(kept, ref);
      DistinctGrows(kept, ref);
    } else {
      assert kept + [] == kept;
    }
  }

  lemma {:induction false} DistinctGrows(kept: seq<Reference>, ref: Reference)
    ensures |Distinct(kept + [ref])| >= |Distinct(kept)|
  {
    hide Distinct;
    DistinctSnoc(kept, ref);
  }

  lemma {:induction false} StepRecord(v: View, kept: seq<Reference>, s: Step, validName: string -> bool, c: Coverage)
    requires OnRecord(v, kept) && WellNamedStep(s)
    ensures var w, more := Taken(v, s, validName), kept + KeptOf(s, validName);
            && OnRecord(w, more)
            && (c in w.coverage <==>
                  c in v.coverage || Recorded(s, c, validName) || (c == CAPPED && |Distinct(more)| > MAX_REFERENCES))
  {
    hide Distinct, FirstKept, Gapped, Offered;
    if !s.Offer? { assert kept + [] == kept; }
    match s
    case Offer(ref) => OfferRecord(v, kept, ref, validName, c);
    case Gap(source, detail) =>
      GappedRecord(v, source, detail, c);
      GappedRecord(v, source, detail, CAPPED);
    case Note(_) =>
    case Named(_, _) =>
  }

  lemma {:induction false} PlayRecord(steps: seq<Step>, validName: string -> bool, c: Coverage)
    requires WellNamed(steps)
    ensures var v, kept := Play(EMPTY_VIEW, steps, validName), Kept(steps, validName);
            && OnRecord(v, kept)
            && (c in v.coverage <==>
                  || (exists s :: s in steps && Recorded(s, c, validName))
                  || (c == CAPPED && |Distinct(kept)| > MAX_REFERENCES))
  {
    if steps != [] {
      hide Distinct, FirstKept, OnRecord, Taken, KeptOf, Recorded, WellNamedStep;
      var n := |steps| - 1;
      var front, last := steps[..n], steps[n];
      assert steps == front + [last] && last in steps;
      PlayRecord(front, validName, c);
      StepRecord(Play(EMPTY_VIEW, front, validName), Kept(front, validName), last, validName, c);
      CapStays(Kept(front, validName), last, validName);
      assert forall s :: s in steps <==> s in front || s == last;
    } else {
      EmptyRecord();
    }
  }

  lemma {:induction false} EmptyRecord()
    ensures OnRecord(EMPTY_VIEW, []) && |Distinct([])| == 0
  {
  }

  lemma {:induction false} CapStays(kept: seq<Reference>, s: Step, validName: string -> bool)
    ensures |Distinct(kept + KeptOf(s, validName))| >= |Distinct(kept)|
  {
    hide Distinct;
    if s.Offer? && Acceptable(s.ref, validName) {
      DistinctGrows(kept, s.ref);
    } else {
      assert kept + [] == kept;
    }
  }

  // ---- What is observed, told by the answers ----

  /** Among the first declarations, one more than may be kept. */
  predicate AmongFirst(d: Reference, all: seq<Reference>) {
    exists i :: 0 <= i < |all| && i <= MAX_REFERENCES && all[i] == d
  }

  predicate SourceSays(id: Identity, answer: SourceAnswer, s: Step) {
    var whole := answer.SourceWorkload? && answer.spec.Some?;
    match s
    case Offer(d) => whole && AmongFirst(d, Declared(id, answer.spec.value))
    case Gap(source, detail) =>
      && whole && |Declared(id, answer.spec.value)| > MAX_REFERENCES
      && source == Declarations && detail == SourceExceedsBound
    case Note(c) => c == Coverage(SourceGet, Complete, SourceVerified)
    case Named(topic, read) =>
      answer.SourceConfig? && topic == Topic(id.namespace, answer.kind, id.name) && read == Found
  }

  /** What a listed object contributes: its declarations about the topics if its identity is verified and its
      template was found, and a reason in every other case. */
  predicate ObjectSays(id: Identity, r: Resource, x: Listed, topics: set<Topic>, s: Step) {
    var verified := x.namespace == id.namespace && x.uid != "" && x.matches;
    var me := Identity(id.context, r.gvr, x.namespace, x.name, x.uid, r.kind);
    match s
    case Offer(d) =>
      && verified && x.spec.Some? && AmongFirst(d, Declared(me, x.spec.value))
      && Topic(d.consumer.namespace, d.kind, d.name) in topics
    case Gap(source, detail) =>
      && source == Consumers
      && (match detail
          case UnverifiedExcluded => !verified
          case TemplateExcluded => verified && x.spec.None?
          case ConsumerExceedsBound =>
            verified && x.spec.Some? && |Declared(me, x.spec.value)| > MAX_REFERENCES
          case _ => false)
    case _ => false
  }

  predicate ListSays(id: Identity, r: Resource, answer: ListAnswer, topics: set<Topic>, s: Step) {
    match s
    case Note(c) =>
      && c.source == ConsumerList(r.gvr)
      && (match answer
          case ListFailed(denied) => c.state == (if denied then Denied else Unknown) && c.detail == ReadUnavailable
          case ListOk(items, more) =>
            if more || |items| > MAX_CONSUMERS then c.state == Incomplete && c.detail == PageBounded
            else c.state == Complete && c.detail == SpecObservations)
    case Named(_, _) => false
    case _ =>
      answer.ListOk? && exists i :: 0 <= i < |answer.items| && i < MAX_CONSUMERS
                                    && ObjectSays(id, r, answer.items[i], topics, s)
  }

  predicate ListsSay(id: Identity, answers: seq<ListAnswer>, topics: set<Topic>, s: Step)
    requires |answers| <= |CONSUMER_RESOURCES|
  {
    exists k :: 0 <= k < |answers| && ListSays(id, CONSUMER_RESOURCES[k], answers[k], topics, s)
  }

  predicate ConsumersSay(id: Identity, lists: Option<seq<ListAnswer>>, topics: set<Topic>, s: Step)
    requires lists.Some? ==> |lists.value| == |CONSUMER_RESOURCES|
  {
    && topics != {}
    && (if lists.None? then s == Gap(Consumers, ReaderUnavailable)
        else ListsSay(id, lists.value, topics, s))
  }

  /** Each topic is read by its name, unless it is the captured configuration itself. */
  predicate ReadsSay(id: Identity, answer: SourceAnswer, order: seq<Topic>, lookup: Topic -> NamedAnswer, s: Step) {
    && s.Named? && s.topic in order && s.answer == lookup(s.topic)
    && !(answer.SourceConfig? && s.topic == Topic(id.namespace, answer.kind, id.name))
  }

  predicate Says(id: Identity, answer: SourceAnswer, lists: Option<seq<ListAnswer>>, order: seq<Topic>,
                 lookup: Topic -> NamedAnswer, validName: string -> bool, s: Step)
    requires lists.Some? ==> |lists.value| == |CONSUMER_RESOURCES|
  {
    || SourceSays(id, answer, s)
    || ConsumersSay(id, lists, SourceTopics(id, answer, validName), s)
    || ReadsSay(id, answer, order, lookup, s)
  }

  lemma {:induction false} InFirst(d: Reference, all: seq<Reference>)
    ensures d in First(all) <==> AmongFirst(d, all)
  {
  }

  lemma {:induction false} OffersIn(refs: seq<Reference>, s: Step)
    ensures s in Offers(refs) <==> s.Offer? && s.ref in refs
  {
    if s.Offer? && s.ref in refs {
      var i :| 0 <= i < |refs| && refs[i] == s.ref;
      assert Offers(refs)[i] == s;
    }
  }

  lemma {:induction false} FirstExceeds(all: seq<Reference>)
    ensures |First(all)| > MAX_REFERENCES <==> |all| > MAX_REFERENCES
  {
  }

  lemma {:induction false} SourceStepsIn(id: Identity, answer: SourceAnswer, s: Step)
    ensures s in SourceSteps(id, answer) <==> SourceSays(id, answer, s)
  {
    hide Declared, First, Offers, AmongFirst;
    var note := Note(Coverage(SourceGet, Complete, SourceVerified));
    assert s in SourceSteps(id, answer) <==> s in OwnSteps(id, answer) || s == note;
    if answer.SourceWorkload? && answer.spec.Some? {
      var all := Declared(id, answer.spec.value);
      OffersIn(First(all), s);
      FirstExceeds(all);
      if s.Offer? { InFirst(s.ref, all); }
    }
  }

  lemma {:induction false} ItemStepsIn(id: Identity, r: Resource, x: Listed, topics: set<Topic>, s: Step)
    ensures s in ItemSteps(id, r, x, topics) <==> ObjectSays(id, r, x, topics, s)
  {
    hide Declared, First, Offers, AmongFirst, Matching;
    if x.spec.Some? {
      var all := Declared(ConsumerIdentity(id, r, x), x.spec.value);
      OffersIn(Matching(First(all), topics), s);
      FirstExceeds(all);
      if s.Offer? {
        MatchingIn(First(all), topics, s.ref);
        InFirst(s.ref, all);
      }
    }
  }

  predicate PageSays(id: Identity, r: Resource, items: seq<Listed>, topics: set<Topic>, s: Step) {
    exists i :: 0 <= i < |items| && ObjectSays(id, r, items[i], topics, s)
  }

  lemma {:induction false} PageSaysLast(id: Identity, r: Resource, items: seq<Listed>, topics: set<Topic>, s: Step)
    requires items != []
    ensures PageSays(id, r, items, topics, s) <==>
              || PageSays(id, r, items[..|items| - 1], topics, s)
              || ObjectSays(id, r, items[|items| - 1], topics, s)
  {
    hide ObjectSays;
    var n := |items| - 1;
    if i :| 0 <= i < |items| && ObjectSays(id, r, items[i], topics, s) {
      assert i < n ==> items[..n][i] == items[i];
    }
    if i :| 0 <= i < n && ObjectSays(id, r, items[..n][i], topics, s) {
      assert items[i] == items[..n][i];
    }
  }

  lemma {:induction false} PageStepsIn(id: Identity, r: Resource, items: seq<Listed>, topics: set<Topic>, s: Step)
    ensures s in PageSteps(id, r, items, topics) <==> PageSays(id, r, items, topics, s)
  {
    if items != [] {
      hide ObjectSays, ItemSteps, PageSays;
      var n := |items| - 1;
      var front, last := PageSteps(id, r, items[..n], topics), ItemSteps(id, r, items[n], topics);
      PageStepsIn(id, r, items[..n], topics, s);
      ItemStepsIn(id, r, items[n], topics, s);
      PageSaysLast(id, r, items, topics, s);
      InEither(front, last, s);
    }
  }

  lemma {:induction false} InEither(a: seq<Step>, b: seq<Step>, s: Step)
    ensures s in a + b <==> s in a || s in b
  {
  }

  lemma {:induction false} ListStepsIn(id: Identity, r: Resource, answer: ListAnswer, topics: set<Topic>, s: Step)
    ensures s in ListSteps(id, r, answer, topics) <==> ListSays(id, r, answer, topics, s)
  {
    hide PageSteps, ObjectSays;
    if answer.ListOk? {
      var page := answer.items[..Min(|answer.items|, MAX_CONSUMERS)];
      PageStepsIn(id, r, page, topics, s);
      NotesAreNotSaid(id, r, page, topics, s);
      assert forall i :: 0 <= i < |page| ==> page[i] == answer.items[i];
      InEither([Note(ListNote(r, answer))], PageSteps(id, r, page, topics), s);
    }
  }

  lemma {:induction false} NotesAreNotSaid(id: Identity, r: Resource, items: seq<Listed>, topics: set<Topic>, s: Step)
    ensures s.Note? || s.Named? ==> forall i :: 0 <= i < |items| ==> !ObjectSays(id, r, items[i], topics, s)
  {
  }

  lemma {:induction false} ListsSayLast(id: Identity, answers: seq<ListAnswer>, topics: set<Topic>, s: Step)
    requires 0 < |answers| <= |CONSUMER_RESOURCES|
    ensures var n := |answers| - 1;
            ListsSay(id, answers, topics, s) <==>
              ListsSay(id, answers[..n], topics, s) || ListSays(id, CONSUMER_RESOURCES[n], answers[n], topics, s)
  {
    hide ListSays;
    var n := |answers| - 1;
    if k :| 0 <= k < |answers| && ListSays(id, CONSUMER_RESOURCES[k], answers[k], topics, s) {
      assert k < n ==> answers[..n][k] == answers[k];
    }
    if k :| 0 <= k < n && ListSays(id, CONSUMER_RESOURCES[k], answers[..n][k], topics, s) {
      assert answers[k] == answers[..n][k];
    }
  }

  lemma {:induction false} ListsStepsIn(id: Identity, answers: seq<ListAnswer>, topics: set<Topic>, s: Step)
    requires |answers| <= |CONSUMER_RESOURCES|
    ensures s in ListsSteps(id, answers, topics) <==> ListsSay(id, answers, topics, s)
  {
    if answers != [] {
      hide ListSays, ListSteps, ListsSay;
      var n := |answers| - 1;
      ListsStepsIn(id, answers[..n], topics, s);
      ListStepsIn(id, CONSUMER_RESOURCES[n], answers[n], topics, s);
      ListsSayLast(id, answers, topics, s);
      InEither(ListsSteps(id, answers[..n], topics), ListSteps(id, CONSUMER_RESOURCES[n], answers[n], topics), s);
    }
  }

  lemma {:induction false} NamedStepsIn(order: seq<Topic>, lookup: Topic -> NamedAnswer, captured: set<Topic>, s: Step)
    ensures s in NamedSteps(order, lookup, captured) <==>
              s.Named? && s.topic in order && s.topic !in captured && s.answer == lookup(s.topic)
  {
    if order != [] {
      var n := |order| - 1;
      NamedStepsIn(order[..n], lookup, captured, s);
      assert order == order[..n] + [order[n]];
    }
  }

  /** The collector observes exactly what the answers say. */
  lemma {:induction false} AllStepsIn(id: Identity, answer: SourceAnswer, lists: Option<seq<ListAnswer>>,
                                      order: seq<Topic>, lookup: Topic -> NamedAnswer, validName: string -> bool,
                                      s: Step)
    requires lists.Some? ==> |lists.value| == |CONSUMER_RESOURCES|
    ensures s in AllSteps(id, answer, lists, order, lookup, validName) <==>
              Says(id, answer, lists, order, lookup, validName, s)
  {
    hide SourceSteps, ListsSteps, NamedSteps, SourceSays, ListSays, SourceTopics;
    var topics := SourceTopics(id, answer, validName);
    var listed, later := ConsumerSteps(id, lists, topics), NamedSteps(order, lookup, Captured(id, answer));
    assert s in SourceSteps(id, answer) + listed + later <==> s in SourceSteps(id, answer) || s in listed || s in later;
    SourceStepsIn(id, answer, s);
    NamedStepsIn(order, lookup, Captured(id, answer), s);
    if topics != {} && lists.Some? { ListsStepsIn(id, lists.value, topics, s); }
  }

  // ---- The record and the references of a whole review ----

  /** The record, exactly: what the answers put on it, and the cap if there are too many references. */
  lemma {:induction false} CoverageIff(id: Identity, answer: SourceAnswer, lists: Option<seq<ListAnswer>>,
                                       order: seq<Topic>, lookup: Topic -> NamedAnswer, validName: string -> bool,
                                       c: Coverage)
    requires lists.Some? ==> |lists.value| == |CONSUMER_RESOURCES|
    ensures var kept := Kept(AllSteps(id, answer, lists, order, lookup, validName), validName);
            c in Reviewed(id, answer, lists, order, lookup, validName).coverage <==>
              || (exists s :: Says(id, answer, lists, order, lookup, validName, s) && Recorded(s, c, validName))
              || (c == Coverage(Declarations, Incomplete, RetentionCapped) && |Distinct(kept)| > MAX_REFERENCES)
  {
    hide Says, Recorded, AllSteps, Play, Kept, Distinct, OnRecord, WellNamed;
    var steps := AllSteps(id, answer, lists, order, lookup, validName);
    ReviewNamed(id, answer, lists, order, lookup, validName);
    PlayRecord(steps, validName, c);
    forall s ensures s in steps <==> Says(id, answer, lists, order, lookup, validName, s) {
      AllStepsIn(id, answer, lists, order, lookup, validName, s);
    }
  }

  /** Each configuration that was read by its name is recorded with the state and the reason of its answer. */
  lemma {:induction false} ReadsRecorded(id: Identity, answer: SourceAnswer, lists: Option<seq<ListAnswer>>,
                                         order: seq<Topic>, lookup: Topic -> NamedAnswer, validName: string -> bool,
                                         c: Coverage)
    requires (lists.Some? ==> |lists.value| == |CONSUMER_RESOURCES|) && c.source.NamedGet?
    ensures var t := c.source.topic;
            c in Reviewed(id, answer, lists, order, lookup, validName).coverage <==>
              && t in order && !(answer.SourceConfig? && t == Topic(id.namespace, answer.kind, id.name))
              && match lookup(t)
                 case Found => false
                 case ReadNotFound => c.state == Missing && c.detail == NotFound
                 case ReadDenied => c.state == Denied && c.detail == NamedDenied
                 case ReadFailed => c.state == Unknown && c.detail == NamedUnavailable
                 case Unverified => c.state == Unknown && c.detail == IdentityUnavailable
                 case NoReader =>
                   c.state == Unknown
                   && c.detail == if t.kind.SecretKind? then SecretReaderUnavailable else IdentityUnavailable
  {
    hide Reviewed, SourceTopics, AllSteps, Kept, Distinct, Declared;
    var t := c.source.topic;
    CoverageIff(id, answer, lists, order, lookup, validName, c);
    var read := Named(t, lookup(t));
    var due := t in order && !(answer.SourceConfig? && t == Topic(id.namespace, answer.kind, id.name));
    assert due ==> Says(id, answer, lists, order, lookup, validName, read);
    forall s | Says(id, answer, lists, order, lookup, validName, s) && Recorded(s, c, validName)
      ensures s == read && t in order && !(answer.SourceConfig? && t == Topic(id.namespace, answer.kind, id.name))
    {
      NamedSaid(id, answer, lists, order, lookup, validName, s, c);
    }
  }

  lemma {:induction false} NamedSaid(id: Identity, answer: SourceAnswer, lists: Option<seq<ListAnswer>>,
                                     order: seq<Topic>, lookup: Topic -> NamedAnswer, validName: string -> bool,
                                     s: Step, c: Coverage)
    requires (lists.Some? ==> |lists.value| == |CONSUMER_RESOURCES|) && c.source.NamedGet?
    requires Says(id, answer, lists, order, lookup, validName, s) && Recorded(s, c, validName)
    ensures s == Named(c.source.topic, lookup(c.source.topic)) && c.source.topic in order
    ensures !(answer.SourceConfig? && c.source.topic == Topic(id.namespace, answer.kind, id.name))
  {
    hide SourceTopics, Declared;
  }

  /** Each of the eight lists is recorded once, failed, cut off or whole. */
  lemma {:induction false} ListsRecorded(id: Identity, answer: SourceAnswer, answers: seq<ListAnswer>,
                                         order: seq<Topic>, lookup: Topic -> NamedAnswer, validName: string -> bool,
                                         k: nat, c: Coverage)
    requires |answers| == |CONSUMER_RESOURCES| && k < |answers| && c.source == ConsumerList(CONSUMER_RESOURCES[k].gvr)
    requires SourceTopics(id, answer, validName) != {}
    ensures c in Reviewed(id, answer, Some(answers), order, lookup, validName).coverage <==>
              match answers[k]
              case ListFailed(denied) => c.state == (if denied then Denied else Unknown) && c.detail == ReadUnavailable
              case ListOk(items, more) =>
                if more || |items| > MAX_CONSUMERS then c.state == Incomplete && c.detail == PageBounded
                else c.state == Complete && c.detail == SpecObservations
  {
    hide Reviewed, SourceTopics, AllSteps, Kept, Distinct, Declared, ObjectSays;
    CoverageIff(id, answer, Some(answers), order, lookup, validName, c);
    if ListSays(id, CONSUMER_RESOURCES[k], answers[k], SourceTopics(id, answer, validName), Note(c)) {
      assert Says(id, answer, Some(answers), order, lookup, validName, Note(c)) && Recorded(Note(c), c, validName);
    }
    forall s | Says(id, answer, Some(answers), order, lookup, validName, s) && Recorded(s, c, validName)
      ensures ListSays(id, CONSUMER_RESOURCES[k], answers[k], SourceTopics(id, answer, validName), Note(c))
    {
      ListSaid(id, answer, answers, order, lookup, validName, s, k, c);
    }
  }

  lemma {:induction false} ListSaid(id: Identity, answer: SourceAnswer, answers: seq<ListAnswer>, order: seq<Topic>,
                                    lookup: Topic -> NamedAnswer, validName: string -> bool, s: Step, k: nat,
                                    c: Coverage)
    requires |answers| == |CONSUMER_RESOURCES| && k < |answers| && c.source == ConsumerList(CONSUMER_RESOURCES[k].gvr)
    requires Says(id, answer, Some(answers), order, lookup, validName, s) && Recorded(s, c, validName)
    ensures ListSays(id, CONSUMER_RESOURCES[k], answers[k], SourceTopics(id, answer, validName), Note(c))
  {
    hide SourceTopics, Declared, ListSays;
    var topics := SourceTopics(id, answer, validName);
    ReasonsOnly(id, answers, topics, s);
    assert s == Note(c);
    var j :| 0 <= j < |CONSUMER_RESOURCES| && ListSays(id, CONSUMER_RESOURCES[j], answers[j], topics, s);
    NotedSource(id, CONSUMER_RESOURCES[j], answers[j], topics, c);
    DistinctResources(j, k);
  }

  lemma {:induction false} NotedSource(id: Identity, r: Resource, answer: ListAnswer, topics: set<Topic>, c: Coverage)
    requires ListSays(id, r, answer, topics, Note(c))
    ensures c.source == ConsumerList(r.gvr)
  {
  }

  /** A gap told by a list is one about consumers. */
  lemma {:induction false} ReasonsOnly(id: Identity, answers: seq<ListAnswer>, topics: set<Topic>, s: Step)
    requires |answers| == |CONSUMER_RESOURCES|
    ensures forall j :: 0 <= j < |CONSUMER_RESOURCES| && ListSays(id, CONSUMER_RESOURCES[j], answers[j], topics, s) ==>
              !s.Named? && (s.Gap? ==> s.source == Consumers)
  {
    hide Declared;
  }

  lemma {:induction false} DistinctResources(j: nat, k: nat)
    requires j < |CONSUMER_RESOURCES| && k < |CONSUMER_RESOURCES|
    requires CONSUMER_RESOURCES[j].gvr == CONSUMER_RESOURCES[k].gvr
    ensures j == k
  {
  }

  /** Whatever went wrong, what is retained was declared by the source or, about one of its topics, by a verified
      object among the first hundred of a list, with an acceptable name; and below the cap all of that is. */
  lemma {:induction false} RetainedIff(id: Identity, answer: SourceAnswer, lists: Option<seq<ListAnswer>>,
                                       order: seq<Topic>, lookup: Topic -> NamedAnswer, validName: string -> bool,
                                       d: Reference)
    requires lists.Some? ==> |lists.value| == |CONSUMER_RESOURCES|
    ensures var refs := Reviewed(id, answer, lists, order, lookup, validName).references;
            var due := validName(d.name) && d.consumer.uid != ""
                       && Says(id, answer, lists, order, lookup, validName, Offer(d));
            (d in refs ==> due) && (|refs| < MAX_REFERENCES ==> (d in refs <==> due))
  {
    hide Says, AllSteps, Play, Kept, Distinct;
    var steps := AllSteps(id, answer, lists, order, lookup, validName);
    PlayExact(steps, validName);
    AllStepsIn(id, answer, lists, order, lookup, validName, Offer(d));
    KeptIff(steps, validName, d);
    var all := Distinct(Kept(steps, validName));
    assert |FirstKept(Kept(steps, validName))| < MAX_REFERENCES ==> FirstKept(Kept(steps, validName)) == all;
  }

  lemma {:induction false} KeptIff(steps: seq<Step>, validName: string -> bool, d: Reference)
    ensures d in Kept(steps, validName) <==> Offer(d) in steps && Acceptable(d, validName)
  {
    if steps != [] {
      hide Acceptable;
      var n := |steps| - 1;
      KeptIff(steps[..n], validName, d);
      assert steps == steps[..n] + [steps[n]];
    }
  }
}
