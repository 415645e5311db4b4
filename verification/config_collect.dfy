/** The collector of configuration references: what it retains, and what it may claim when it says
    that its view of the consumers is complete. */
module ConfigCollect {
  import opened Wrappers
  import opened ConfigReferences

  const MAX_CONSUMERS: nat := 100

  datatype Topic = Topic(namespace: string, kind: Kind, name: string)

  datatype State = Complete | Incomplete | Present | Missing | Denied | Unknown

  /** What an entry of the coverage is about, and what it says: the fixed texts of the entries. */
  datatype Source = Declarations | Consumers | SourceGet | ConsumerList(gvr: string) | NamedGet(topic: Topic)

  datatype Detail =
    | InvalidExcluded | RetentionCapped | SourceExceedsBound | SourceVerified | UnverifiedExcluded | TemplateExcluded
    | ConsumerExceedsBound | ReadUnavailable | PageBounded | SpecObservations | ReaderUnavailable
    | NotFound | NamedDenied | NamedUnavailable | IdentityUnavailable | SecretReaderUnavailable

  datatype Coverage = Coverage(source: Source, state: State, detail: Detail)

  /** What reading one configuration by its name gives: the object, an error of one of three kinds, an
      answer that is not the object asked for, or nothing because there is no reader. */
  datatype NamedAnswer = Found | ReadNotFound | ReadDenied | ReadFailed | Unverified | NoReader

  /** A configuration the review is about, and whether it was there. */
  datatype Object = Object(topic: Topic, state: State)

  datatype Resource = Resource(gvr: string, kind: string)

  const CONSUMER_RESOURCES: seq<Resource> := [
    Resource("v1/pods", "Pod"), Resource("apps/v1/deployments", "Deployment"),
    Resource("apps/v1/statefulsets", "StatefulSet"), Resource("apps/v1/daemonsets", "DaemonSet"),
    Resource("apps/v1/replicasets", "ReplicaSet"), Resource("v1/replicationcontrollers", "ReplicationController"),
    Resource("batch/v1/jobs", "Job"), Resource("batch/v1/cronjobs", "CronJob")]

  /** One object of a list: its identity, whether name, kind and version match the query, and the pod
      specification found in it. */
  datatype Listed = Listed(namespace: string, name: string, uid: string, matches: bool, spec: Option<PodSpec>)

  datatype ListAnswer = ListFailed(denied: bool) | ListOk(items: seq<Listed>, more: bool)

  /** What the named read of the captured source gives. */
  datatype SourceAnswer =
    | SourceFailed | SourceReplaced | SourceConfig(kind: Kind) | SourceWorkload(spec: Option<PodSpec>)

  datatype Collection = ReadError | ReplacedError | TemplateError | Collected(view: View)

  /** A snapshot: references, objects, coverage and the claim that the consumers are complete. */
  datatype View = View(references: seq<Reference>, objects: seq<Object>, coverage: seq<Coverage>, complete: bool)

  const EMPTY_VIEW := View([], [], [], true)

  function TopicOf(r: Reference): Topic { Topic(r.consumer.namespace, r.kind, r.name) }

  function Topics(refs: seq<Reference>): set<Topic> { set r | r in refs :: TopicOf(r) }

  function ConsumerIdentity(id: Identity, r: Resource, x: Listed): Identity {
    Identity(id.context, r.gvr, x.namespace, x.name, x.uid, r.kind)
  }

  // ---- The effect of one observation on the view ----

  datatype Step =
    | Offer(ref: Reference)
    | Gap(source: Source, detail: Detail)
    | Note(coverage: Coverage)
    | Named(topic: Topic, answer: NamedAnswer)

  predicate Known(coverage: seq<Coverage>, source: Source, detail: Detail) {
    exists i :: 0 <= i < |coverage| && coverage[i].source == source && coverage[i].detail == detail
  }

  function Gapped(v: View, source: Source, detail: Detail): View {
    v.(complete := false,
       coverage := if Known(v.coverage, source, detail) then v.coverage
                   else v.coverage + [Coverage(source, Incomplete, detail)])
  }

  predicate Acceptable(ref: Reference, validName: string -> bool) { validName(ref.name) && ref.consumer.uid != "" }

  function Offered(v: View, ref: Reference, validName: string -> bool): View {
    if !Acceptable(ref, validName) then Gapped(v, Declarations, InvalidExcluded)
    else if ref in v.references then v
    else if |v.references| >= MAX_REFERENCES
    then Gapped(v, Declarations, RetentionCapped)
    else v.(references := v.references + [ref])
  }

  function NamedState(answer: NamedAnswer): State {
    match answer
    case Found => Present
    case ReadNotFound => Missing
    case ReadDenied => Denied
    case _ => Unknown
  }

  function NamedDetail(kind: Kind, answer: NamedAnswer): Detail
    requires answer != Found
  {
    match answer
    case ReadNotFound => NotFound
    case ReadDenied => NamedDenied
    case ReadFailed => NamedUnavailable
    case Unverified => IdentityUnavailable
    case NoReader => if kind.SecretKind? then SecretReaderUnavailable else IdentityUnavailable
  }

  /** A named read adds an object and, unless it is there, an entry; the claim is left as it is. */
  function Looked(v: View, topic: Topic, answer: NamedAnswer): View {
    v.(objects := v.objects + [Object(topic, NamedState(answer))],
       coverage := if answer == Found then v.coverage
                   else v.coverage + [Coverage(NamedGet(topic), NamedState(answer), NamedDetail(topic.kind, answer))])
  }

  function Taken(v: View, s: Step, validName: string -> bool): View {
    match s
    case Offer(ref) => Offered(v, ref, validName)
    case Gap(source, detail) => Gapped(v, source, detail)
    case Note(c) => v.(coverage := v.coverage + [c], complete := v.complete && c.state == Complete)
    case Named(topic, answer) => Looked(v, topic, answer)
  }

  function Play(v: View, steps: seq<Step>, validName: string -> bool): View {
    if steps == [] then v else Taken(Play(v, steps[..|steps| - 1], validName), steps[|steps| - 1], validName)
  }

  lemma {:induction false} PlayAppend(v: View, a: seq<Step>, b: seq<Step>, validName: string -> bool)
    ensures Play(v, a + b, validName) == Play(Play(v, a, validName), b, validName)
    decreases |b|
  {
    if b == [] {
      assert a + b == a;
    } else {
      assert (a + b)[..|a + b| - 1] == a + b[..|b| - 1];
      PlayAppend(v, a, b[..|b| - 1], validName);
    }
  }

  // ---- The observations made of a source and of its consumers ----

  function Offers(refs: seq<Reference>): seq<Step> {
    seq(|refs|, i requires 0 <= i < |refs| => Offer(refs[i]))
  }

  function Matching(refs: seq<Reference>, topics: set<Topic>): seq<Reference> {
    if refs == [] then []
    else Matching(refs[..|refs| - 1], topics)
         + (if TopicOf(refs[|refs| - 1]) in topics then [refs[|refs| - 1]] else [])
  }

  function DeclaredSteps(refs: seq<Reference>, source: Source, detail: Detail, topics: set<Topic>): seq<Step> {
    (if |refs| > MAX_REFERENCES then [Gap(source, detail)] else []) + Offers(Matching(refs, topics))
  }

  function WorkloadSteps(refs: seq<Reference>): seq<Step> {
    (if |refs| > MAX_REFERENCES
     then [Gap(Declarations, SourceExceedsBound)] else [])
    + Offers(refs)
  }

  function OwnSteps(id: Identity, answer: SourceAnswer): seq<Step> {
    match answer
    case SourceConfig(kind) => [Named(Topic(id.namespace, kind, id.name), Found)]
    case SourceWorkload(Some(spec)) => WorkloadSteps(First(Declared(id, spec)))
    case _ => []
  }

  function SourceSteps(id: Identity, answer: SourceAnswer): seq<Step> {
    OwnSteps(id, answer) + [Note(Coverage(SourceGet, Complete, SourceVerified))]
  }

  /** The topics whose object is there before the named reads: a captured configuration itself. */
  function Captured(id: Identity, answer: SourceAnswer): set<Topic> {
    if answer.SourceConfig? then {Topic(id.namespace, answer.kind, id.name)} else {}
  }

  function SourceTopics(id: Identity, answer: SourceAnswer, validName: string -> bool): set<Topic> {
    if answer.SourceConfig? then {Topic(id.namespace, answer.kind, id.name)}
    else Topics(Play(EMPTY_VIEW, SourceSteps(id, answer), validName).references)
  }

  function ItemSteps(id: Identity, r: Resource, x: Listed, topics: set<Topic>): seq<Step> {
    if x.namespace != id.namespace || x.uid == "" || !x.matches
    then [Gap(Consumers, UnverifiedExcluded)]
    else if x.spec.None? then [Gap(Consumers, TemplateExcluded)]
    else DeclaredSteps(First(Declared(ConsumerIdentity(id, r, x), x.spec.value)), Consumers,
                       ConsumerExceedsBound, topics)
  }

  function PageSteps(id: Identity, r: Resource, items: seq<Listed>, topics: set<Topic>): seq<Step> {
    if items == [] then []
    else PageSteps(id, r, items[..|items| - 1], topics) + ItemSteps(id, r, items[|items| - 1], topics)
  }

  function ListNote(r: Resource, answer: ListAnswer): Coverage {
    match answer
    case ListFailed(denied) =>
      Coverage(ConsumerList(r.gvr), if denied then Denied else Unknown,
               ReadUnavailable)
    case ListOk(items, more) =>
      if more || |items| > MAX_CONSUMERS
      then Coverage(ConsumerList(r.gvr), Incomplete, PageBounded)
      else Coverage(ConsumerList(r.gvr), Complete, SpecObservations)
  }

  function ListSteps(id: Identity, r: Resource, answer: ListAnswer, topics: set<Topic>): seq<Step> {
    [Note(ListNote(r, answer))]
    + (if answer.ListOk? then PageSteps(id, r, answer.items[..Min(|answer.items|, MAX_CONSUMERS)], topics) else [])
  }

  function ListsSteps(id: Identity, answers: seq<ListAnswer>, topics: set<Topic>): seq<Step>
    requires |answers| <= |CONSUMER_RESOURCES|
  {
    if answers == [] then []
    else
      var n := |answers| - 1;
      ListsSteps(id, answers[..n], topics) + ListSteps(id, CONSUMER_RESOURCES[n], answers[n], topics)
  }

  function ConsumerSteps(id: Identity, lists: Option<seq<ListAnswer>>, topics: set<Topic>): seq<Step>
    requires lists.Some? ==> |lists.value| == |CONSUMER_RESOURCES|
  {
    if topics == {} then []
    else if lists.None? then [Gap(Consumers, ReaderUnavailable)]
    else ListsSteps(id, lists.value, topics)
  }

  /** The named reads, in the order of the keys; what was captured is not read again. */
  function NamedSteps(order: seq<Topic>, lookup: Topic -> NamedAnswer, captured: set<Topic>): seq<Step> {
    if order == [] then []
    else
      var last := order[|order| - 1];
      NamedSteps(order[..|order| - 1], lookup, captured)
      + (if last in captured then [] else [Named(last, lookup(last))])
  }

  /** `order` names each topic once. */
  ghost predicate Enumerates(order: seq<Topic>, topics: set<Topic>) {
    && (forall t :: t in order <==> t in topics)
    && (forall i, j :: 0 <= i < j < |order| ==> order[i] != order[j])
  }

  function AllSteps(id: Identity, answer: SourceAnswer, lists: Option<seq<ListAnswer>>, order: seq<Topic>,
                    lookup: Topic -> NamedAnswer, validName: string -> bool): seq<Step>
    requires lists.Some? ==> |lists.value| == |CONSUMER_RESOURCES|
  {
    SourceSteps(id, answer) + ConsumerSteps(id, lists, SourceTopics(id, answer, validName))
    + NamedSteps(order, lookup, Captured(id, answer))
  }

  /** The view a review ends with. */
  function Reviewed(id: Identity, answer: SourceAnswer, lists: Option<seq<ListAnswer>>, order: seq<Topic>,
                    lookup: Topic -> NamedAnswer, validName: string -> bool): View
    requires lists.Some? ==> |lists.value| == |CONSUMER_RESOURCES|
  {
    Play(EMPTY_VIEW, AllSteps(id, answer, lists, order, lookup, validName), validName)
  }

  // ---- How the loops extend the observations ----

  lemma {:induction false} PlayOffer(v: View, refs: seq<Reference>, i: nat, validName: string -> bool)
    requires i < |refs|
    ensures Play(v, Offers(refs)[..i + 1], validName)
         == Offered(Play(v, Offers(refs)[..i], validName), refs[i], validName)
  {
    assert Offers(refs)[..i + 1][..i] == Offers(refs)[..i];
  }

  lemma {:induction false} PlayMatching(v: View, refs: seq<Reference>, i: nat, topics: set<Topic>,
                                        validName: string -> bool)
    requires i < |refs|
    ensures Play(v, Offers(Matching(refs[..i + 1], topics)), validName)
         == (var before := Play(v, Offers(Matching(refs[..i], topics)), validName);
             if TopicOf(refs[i]) in topics then Offered(before, refs[i], validName) else before)
  {
    assert refs[..i + 1][..i] == refs[..i];
    var done := Offers(Matching(refs[..i], topics));
    if TopicOf(refs[i]) in topics {
      assert Offers(Matching(refs[..i + 1], topics)) == done + [Offer(refs[i])];
      assert (done + [Offer(refs[i])])[..|done|] == done;
    } else {
      assert Matching(refs[..i + 1], topics) == Matching(refs[..i], topics);
    }
  }

  lemma {:induction false} PlayNoItem(v: View, id: Identity, r: Resource, items: seq<Listed>, topics: set<Topic>,
                                      validName: string -> bool)
    ensures Play(v, PageSteps(id, r, items[..0], topics), validName) == v
  {
  }

  lemma {:induction false} PlayItem(v: View, id: Identity, r: Resource, items: seq<Listed>, i: nat,
                                    topics: set<Topic>, validName: string -> bool)
    requires i < |items|
    ensures Play(v, PageSteps(id, r, items[..i + 1], topics), validName)
         == Play(Play(v, PageSteps(id, r, items[..i], topics), validName),
                 ItemSteps(id, r, items[i], topics), validName)
  {
    assert items[..i + 1][..i] == items[..i];
    PlayAppend(v, PageSteps(id, r, items[..i], topics), ItemSteps(id, r, items[i], topics), validName);
  }

  lemma {:induction false} PlayList(v: View, id: Identity, answers: seq<ListAnswer>, i: nat, topics: set<Topic>,
                                    validName: string -> bool)
    requires i < |answers| <= |CONSUMER_RESOURCES|
    ensures Play(v, ListsSteps(id, answers[..i + 1], topics), validName)
         == Play(Play(v, ListsSteps(id, answers[..i], topics), validName),
                 ListSteps(id, CONSUMER_RESOURCES[i], answers[i], topics), validName)
  {
    assert answers[..i + 1][..i] == answers[..i];
    PlayAppend(v, ListsSteps(id, answers[..i], topics), ListSteps(id, CONSUMER_RESOURCES[i], answers[i], topics),
               validName);
  }

  lemma {:induction false} PlaySource(id: Identity, answer: SourceAnswer, validName: string -> bool)
    ensures var v := Play(EMPTY_VIEW, OwnSteps(id, answer), validName);
            Play(EMPTY_VIEW, SourceSteps(id, answer), validName)
            == v.(coverage := v.coverage + [Coverage(SourceGet, Complete, SourceVerified)])
  {
    hide OwnSteps;
    var own, note := OwnSteps(id, answer), Note(Coverage(SourceGet, Complete, SourceVerified));
    assert (own + [note])[..|own|] == own;
  }

  lemma {:induction false} PlayCaptured(topic: Topic, validName: string -> bool)
    ensures Play(EMPTY_VIEW, [Named(topic, Found)], validName) == EMPTY_VIEW.(objects := [Object(topic, Present)])
  {
    assert [Named(topic, Found)][..0] == [];
  }

  lemma {:induction false} PlayNamed(v: View, order: seq<Topic>, i: nat, lookup: Topic -> NamedAnswer,
                                     captured: set<Topic>, validName: string -> bool)
    requires i < |order|
    ensures Play(v, NamedSteps(order[..i + 1], lookup, captured), validName)
         == (var before := Play(v, NamedSteps(order[..i], lookup, captured), validName);
             if order[i] in captured then before else Looked(before, order[i], lookup(order[i])))
  {
    assert order[..i + 1][..i] == order[..i];
    var done := NamedSteps(order[..i], lookup, captured);
    if order[i] !in captured {
      assert (done + [Named(order[i], lookup(order[i]))])[..|done|] == done;
    } else {
      assert done + [] == done;
    }
  }

  lemma {:induction false} PlayNoName(v: View, order: seq<Topic>, lookup: Topic -> NamedAnswer, captured: set<Topic>,
                                      validName: string -> bool)
    ensures Play(v, NamedSteps(order[..0], lookup, captured), validName) == v
  {
  }

  predicate HaveObject(objects: seq<Object>, topic: Topic) {
    exists i :: 0 <= i < |objects| && objects[i].topic == topic
  }

  lemma {:induction false} HaveOneMore(objects: seq<Object>, o: Object)
    ensures forall t :: HaveObject(objects + [o], t) <==> HaveObject(objects, t) || t == o.topic
  {
    forall t ensures HaveObject(objects + [o], t) <==> HaveObject(objects, t) || t == o.topic {
      if HaveObject(objects, t) {
        var i :| 0 <= i < |objects| && objects[i].topic == t;
        assert (objects + [o])[i].topic == t;
      }
      assert (objects + [o])[|objects|] == o;
      if HaveObject(objects + [o], t) && t != o.topic {
        var i :| 0 <= i < |objects + [o]| && (objects + [o])[i].topic == t;
        assert objects[i].topic == t;
      }
    }
  }

  /** The collector itself, with the fields it updates. */
  class Collector {
    const id: Identity
    const validName: string -> bool
    var references: seq<Reference>
    var objects: seq<Object>
    var coverage: seq<Coverage>
    var complete: bool
    var topics: set<Topic>
    var seen: set<Reference>

    ghost predicate Valid()
      reads this
    {
      forall r :: r in seen <==> r in references
    }

    ghost function Value(): View
      reads this
    {
      View(references, objects, coverage, complete)
    }

    constructor (id: Identity, validName: string -> bool)
      ensures Valid() && Value() == EMPTY_VIEW && topics == {} && this.id == id && this.validName == validName
    {
      this.id, this.validName := id, validName;
      references, objects, coverage, complete, topics, seen := [], [], [], true, {}, {};
    }

    /** Withdraws the completeness claim, naming the reason once. */
    method Partial(source: Source, detail: Detail)
      requires Valid()
      modifies this`coverage, this`complete
      ensures Valid() && Value() == Gapped(old(Value()), source, detail)
    {
      complete := false;
      for i := 0 to |coverage|
        invariant forall j :: 0 <= j < i ==> !(coverage[j].source == source && coverage[j].detail == detail)
      {
        if coverage[i].source == source && coverage[i].detail == detail {
          return;
        }
      }
      coverage := coverage + [Coverage(source, Incomplete, detail)];
    }

    method Add(ref: Reference) returns (added: bool)
      requires Valid()
      modifies this`references, this`coverage, this`complete, this`seen
      ensures Valid() && Value() == Offered(old(Value()), ref, validName)
      ensures added <==> references != old(references)
    {
      if !validName(ref.name) || ref.consumer.uid == "" {
        Partial(Declarations, InvalidExcluded);
        return false;
      }
      if ref in seen {
        return false;
      }
      if |references| >= MAX_REFERENCES {
        Partial(Declarations, RetentionCapped);
        return false;
      }
      seen := seen + {ref};
      references := references + [ref];
      assert |references| == |old(references)| + 1;
      return true;
    }

    /** The declarations of the source become references and, with them, the topics of the review. */
    method AddSource(refs: seq<Reference>)
      requires Valid() && topics == Topics(references)
      modifies this`references, this`coverage, this`complete, this`topics, this`seen
      ensures Valid() && Value() == Play(old(Value()), Offers(refs), validName)
      ensures topics == Topics(references)
    {
      ghost var v := Value();
      ghost var steps := Offers(refs);
      for i := 0 to |refs|
        invariant Valid() && Value() == Play(v, steps[..i], validName)
        invariant topics == Topics(references)
      {
        var ref := refs[i];
        ghost var before := references;
        var added := Add(ref);
        PlayOffer(v, refs, i, validName);
        if added {
          TopicsSnoc(before, ref);
          topics := topics + {Topic(ref.consumer.namespace, ref.kind, ref.name)};
        }
      }
      assert steps[..|refs|] == steps;
    }

    method AddWorkload(spec: PodSpec)
      requires Valid() && Value() == EMPTY_VIEW && topics == {}
      modifies this`references, this`coverage, this`complete, this`topics, this`seen
      ensures Valid() && Value() == Play(EMPTY_VIEW, WorkloadSteps(First(Declared(id, spec))), validName)
      ensures topics == Topics(references)
    {
      var refs := References(Some(id), Some(spec));
      ghost var steps: seq<Step> := [];
      if |refs| > MAX_REFERENCES {
        Partial(Declarations, SourceExceedsBound);
        steps := [Gap(Declarations, SourceExceedsBound)];
        assert steps[..0] == [];
      }
      AddSource(refs);
      PlayAppend(EMPTY_VIEW, steps, Offers(refs), validName);
      assert WorkloadSteps(refs) == steps + Offers(refs);
    }

    method ReadSource(answer: SourceAnswer) returns (failure: Option<Collection>)
      requires Valid() && Value() == EMPTY_VIEW && topics == {}
      modifies this
      ensures Valid()
      ensures failure == Failure(answer)
      ensures failure.None? ==> Value() == Play(EMPTY_VIEW, SourceSteps(id, answer), validName)
      ensures failure.None? ==> topics == SourceTopics(id, answer, validName)
      ensures failure.None? ==> forall t :: HaveObject(objects, t) <==> t in Captured(id, answer)
    {
      hide Play, WorkloadSteps, Declared, First, Topics, SourceSteps;
      match answer {
        case SourceFailed => return Some(ReadError);
        case SourceReplaced => return Some(ReplacedError);
        case SourceWorkload(None) => return Some(TemplateError);
        case SourceConfig(kind) =>
          HaveOneMore(objects, Object(Topic(id.namespace, kind, id.name), Present));
          objects := objects + [Object(Topic(id.namespace, kind, id.name), Present)];
          topics := {Topic(id.namespace, kind, id.name)};
          PlayCaptured(Topic(id.namespace, kind, id.name), validName);
        case SourceWorkload(Some(spec)) =>
          AddWorkload(spec);
      }
      coverage := coverage + [Coverage(SourceGet, Complete, SourceVerified)];
      PlaySource(id, answer, validName);
      failure := None;
    }

    /** The declarations of one consumer that are about a topic of the review. */
    method AddMatching(refs: seq<Reference>)
      requires Valid()
      modifies this`references, this`coverage, this`complete, this`seen
      ensures Valid() && Value() == Play(old(Value()), Offers(Matching(refs, topics)), validName)
    {
      ghost var v := Value();
      for j := 0 to |refs|
        invariant Valid() && Value() == Play(v, Offers(Matching(refs[..j], topics)), validName)
      {
        PlayMatching(v, refs, j, topics, validName);
        if Topic(refs[j].consumer.namespace, refs[j].kind, refs[j].name) in topics {
          var _ := Add(refs[j]);
        }
      }
      assert refs[..|refs|] == refs;
    }

    method ConsumerItem(r: Resource, x: Listed)
      requires Valid()
      modifies this`references, this`coverage, this`complete, this`seen
      ensures Valid() && Value() == Play(old(Value()), ItemSteps(id, r, x, topics), validName)
    {
      ghost var v := Value();
      if x.namespace != id.namespace || x.uid == "" || !x.matches {
        Partial(Consumers, UnverifiedExcluded);
        return;
      }
      if x.spec.None? {
        Partial(Consumers, TemplateExcluded);
        return;
      }
      var consumer := Identity(id.context, r.gvr, x.namespace, x.name, x.uid, r.kind);
      var refs := References(Some(consumer), x.spec);
      ghost var steps: seq<Step> := [];
      if |refs| > MAX_REFERENCES {
        Partial(Consumers, ConsumerExceedsBound);
        steps := [Gap(Consumers, ConsumerExceedsBound)];
      }
      AddMatching(refs);
      PlayAppend(v, steps, Offers(Matching(refs, topics)), validName);
    }

    method ConsumerPage(r: Resource, items: seq<Listed>)
      requires Valid()
      modifies this`references, this`coverage, this`complete, this`seen
      ensures Valid()
      ensures Value() == Play(old(Value()), PageSteps(id, r, items[..Min(|items|, MAX_CONSUMERS)], topics), validName)
    {
      hide ItemSteps, PageSteps, Play;
      ghost var v := Value();
      var n := Min(|items|, MAX_CONSUMERS);
      PlayNoItem(v, id, r, items, topics, validName);
      for i := 0 to n
        invariant Valid() && Value() == Play(v, PageSteps(id, r, items[..i], topics), validName)
      {
        ConsumerItem(r, items[i]);
        PlayItem(v, id, r, items, i, topics, validName);
      }
    }

    method ReadList(r: Resource, answer: ListAnswer)
      requires Valid()
      modifies this`references, this`coverage, this`complete, this`seen
      ensures Valid() && Value() == Play(old(Value()), ListSteps(id, r, answer, topics), validName)
    {
      ghost var v := Value();
      ghost var note := [Note(ListNote(r, answer))];
      assert Play(v, note[..0], validName) == v;
      if answer.ListFailed? {
        complete := false;
        coverage := coverage + [Coverage(ConsumerList(r.gvr), if answer.denied then Denied else Unknown,
                                         ReadUnavailable)];
        assert ListSteps(id, r, answer, topics) == note;
        return;
      }
      var state, detail := Complete, SpecObservations;
      if answer.more || |answer.items| > MAX_CONSUMERS {
        state, detail := Incomplete, PageBounded;
        complete := false;
      }
      coverage := coverage + [Coverage(ConsumerList(r.gvr), state, detail)];
      assert Value() == Play(v, note, validName);
      ConsumerPage(r, answer.items);
      PlayAppend(v, note, PageSteps(id, r, answer.items[..Min(|answer.items|, MAX_CONSUMERS)], topics), validName);
    }

    method ListConsumers(lists: Option<seq<ListAnswer>>)
      requires Valid() && topics != {}
      requires lists.Some? ==> |lists.value| == |CONSUMER_RESOURCES|
      modifies this`references, this`coverage, this`complete, this`seen
      ensures Valid() && Value() == Play(old(Value()), ConsumerSteps(id, lists, topics), validName)
    {
      ghost var v := Value();
      if lists.None? {
        Partial(Consumers, ReaderUnavailable);
        assert ConsumerSteps(id, lists, topics)[..0] == [];
        return;
      }
      for i := 0 to |CONSUMER_RESOURCES|
        invariant Valid() && Value() == Play(v, ListsSteps(id, lists.value[..i], topics), validName)
      {
        ReadList(CONSUMER_RESOURCES[i], lists.value[i]);
        PlayList(v, id, lists.value, i, topics, validName);
      }
      assert lists.value[..|CONSUMER_RESOURCES|] == lists.value;
    }

    method Have(topic: Topic) returns (have: bool)
      ensures have <==> HaveObject(objects, topic)
    {
      for i := 0 to |objects|
        invariant forall j :: 0 <= j < i ==> objects[j].topic != topic
      {
        if objects[i].topic == topic {
          return true;
        }
      }
      have := false;
    }

    /** The named reads: one object for each topic, with an entry unless it is there. */
    method Configurations(lookup: Topic -> NamedAnswer, ghost captured: set<Topic>) returns (order: seq<Topic>)
      requires Valid() && forall t :: HaveObject(objects, t) <==> t in captured
      modifies this`objects, this`coverage
      ensures Valid() && Enumerates(order, topics)
      ensures Value() == Play(old(Value()), NamedSteps(order, lookup, captured), validName)
    {
      hide Play, NamedSteps;
      order := Keys(topics);
      ghost var v := Value();
      PlayNoName(v, order, lookup, captured, validName);
      for i := 0 to |order|
        invariant Value() == Play(v, NamedSteps(order[..i], lookup, captured), validName)
        invariant forall j :: i <= j < |order| ==> (HaveObject(objects, order[j]) <==> order[j] in captured)
      {
        var have := Have(order[i]);
        PlayNamed(v, order, i, lookup, captured, validName);
        if !have {
          var answer := lookup(order[i]);
          ghost var before := objects;
          objects := objects + [Object(order[i], NamedState(answer))];
          HaveOneMore(before, Object(order[i], NamedState(answer)));
          if answer != Found {
            coverage := coverage + [Coverage(NamedGet(order[i]), NamedState(answer),
                                             NamedDetail(order[i].kind, answer))];
          }
        }
      }
      assert order[..|order|] == order;
    }
  }

  /** The topics in the order of their keys; any order without repetition will do. */
  method Keys(topics: set<Topic>) returns (order: seq<Topic>)
    ensures Enumerates(order, topics)
  {
    order := [];
    var rest := topics;
    while rest != {}
      invariant rest <= topics && Enumerates(order, topics - rest)
      decreases rest
    {
      var t :| t in rest;
      order := order + [t];
      rest := rest - {t};
    }
    assert topics - rest == topics;
  }

  function Failure(answer: SourceAnswer): Option<Collection> {
    match answer
    case SourceFailed => Some(ReadError)
    case SourceReplaced => Some(ReplacedError)
    case SourceWorkload(None) => Some(TemplateError)
    case _ => None
  }

  /** One review. A source that cannot be read, was replaced or has no template gives no snapshot. */
  method Collect(id: Identity, answer: SourceAnswer, lists: Option<seq<ListAnswer>>, lookup: Topic -> NamedAnswer,
                 validName: string -> bool)
    returns (r: Collection)
    requires lists.Some? ==> |lists.value| == |CONSUMER_RESOURCES|
    ensures Failure(answer).Some? ==> r == Failure(answer).value
    ensures Failure(answer).None? ==>
              exists order :: Enumerates(order, SourceTopics(id, answer, validName))
                              && r == Collected(Reviewed(id, answer, lists, order, lookup, validName))
  {
    hide Play, SourceSteps, ConsumerSteps, NamedSteps, SourceTopics, Captured;
    var c := new Collector(id, validName);
    var failure := c.ReadSource(answer);
    if failure.Some? {
      return failure.value;
    }
    ghost var topics, steps := c.topics, SourceSteps(id, answer);
    ghost var listed := ConsumerSteps(id, lists, topics);
    if c.topics != {} {
      c.ListConsumers(lists);
    } else {
      NoConsumers(c.Value(), id, lists, validName);
    }
    PlayAppend(EMPTY_VIEW, steps, listed, validName);
    var order := c.Configurations(lookup, Captured(id, answer));
    PlayAppend(EMPTY_VIEW, steps + listed, NamedSteps(order, lookup, Captured(id, answer)), validName);
    r := Collected(View(c.references, c.objects, c.coverage, c.complete));
  }

  lemma {:induction false} NoConsumers(v: View, id: Identity, lists: Option<seq<ListAnswer>>, validName: string -> bool)
    requires lists.Some? ==> |lists.value| == |CONSUMER_RESOURCES|
    ensures Play(v, ConsumerSteps(id, lists, {}), validName) == v
  {
  }

  lemma {:induction false} TopicsSnoc(refs: seq<Reference>, ref: Reference)
    ensures Topics(refs + [ref]) == Topics(refs) + {TopicOf(ref)}
  {
    forall t ensures t in Topics(refs + [ref]) <==> t in Topics(refs) + {TopicOf(ref)} {
      if t in Topics(refs) {
        var r :| r in refs && TopicOf(r) == t;
        assert r in refs + [ref];
      }
      if t == TopicOf(ref) {
        assert (refs + [ref])[|refs|] == ref;
      }
    }
  }
}
