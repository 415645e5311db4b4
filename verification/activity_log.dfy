/** The bounded log of an activity window: what it holds, numbers and counts as dropped. */
module ActivityLog {
  import opened Wrappers
  import opened ActivityFacts

  const MAX_ENTRIES: nat := 512

  /** The identity of an object; with the UID it is the key of a tracked source. */
  datatype Identity = Identity(context: string, gvr: string, namespace: string, name: string, uid: string)

  datatype Source = Source(identity: Identity, kind: string, capturedAt: int, facts: seq<Fact>, whole: bool)

  datatype CoverageState = Complete | Unknown | Canceled | Stale | Other(text: string)
  datatype Coverage = Coverage(gvr: string, namespace: string, state: CoverageState, truncated: bool)

  datatype Content = Content(count: Option<int>, reason: string, message: string, kind: string, controller: string,
                             firstAt: int, lastAt: int, eventAt: int, seriesLastAt: int)
  datatype Event = Event(identity: Identity, regarding: Identity, kind: string, content: Content, capturedAt: int)

  /** An event is kept by context, namespace, name and UID. */
  datatype EventKey = EventKey(context: string, namespace: string, name: string, uid: string)

  datatype Record =
    | FirstObserved(source: Source)
    | Changed(source: Source, priorAt: int, changes: multiset<Change>)
    | Replaced(source: Source, priorUid: string)
    | NotObserved(source: Source, priorAt: int, coverage: Coverage)
    | Gap(about: Option<Source>, noted: Option<Coverage>)
    | Retained(event: Event)

  datatype Entry = Entry(sequence: nat, observedAt: int, record: Record)

  /** The log, with everything ever appended and everything counted as lost beside its entries. */
  datatype Log = Log(entries: seq<Entry>, sequence: nat, dropped: nat, prunedBefore: int,
                     journal: seq<Entry>, lostSources: multiset<Identity>, lostEvents: multiset<EventKey>)

  const EMPTY_LOG := Log([], 0, 0, 0, [], multiset{}, multiset{})

  function Appended(l: Log, at: int, record: Record): Log {
    var e := Entry(l.sequence + 1, at, record);
    var all := l.entries + [e];
    var grown := l.(sequence := l.sequence + 1, journal := l.journal + [e]);
    if |all| > MAX_ENTRIES
    then grown.(entries := all[|all| - MAX_ENTRIES..], dropped := l.dropped + 1, prunedBefore := all[0].observedAt)
    else grown.(entries := all)
  }

  /** How many entries, from the first, are older than the cutoff. */
  function OldPrefix(entries: seq<Entry>, cutoff: int): (n: nat)
    ensures n <= |entries| && (forall i :: 0 <= i < n ==> entries[i].observedAt < cutoff)
    ensures n < |entries| ==> entries[n].observedAt >= cutoff
  {
    if entries == [] || entries[0].observedAt >= cutoff then 0 else 1 + OldPrefix(entries[1..], cutoff)
  }

  function Trimmed(l: Log, cutoff: int): Log {
    var first := OldPrefix(l.entries, cutoff);
    if first > 0
    then l.(entries := l.entries[first..], dropped := l.dropped + first, prunedBefore := cutoff)
    else l
  }

  function SourcesLost(l: Log, keys: set<Identity>, before: int): Log {
    l.(dropped := l.dropped + |keys|, lostSources := l.lostSources + multiset(keys), prunedBefore := before)
  }

  function EventsLost(l: Log, keys: set<EventKey>, before: int): Log {
    l.(dropped := l.dropped + |keys|, lostEvents := l.lostEvents + multiset(keys), prunedBefore := before)
  }

  ghost predicate IsSuffix(part: seq<Entry>, whole: seq<Entry>) {
    |part| <= |whole| && part == whole[|whole| - |part|..]
  }

  /** Numbered without a gap from one. */
  ghost predicate Numbered(journal: seq<Entry>) { forall i :: 0 <= i < |journal| ==> journal[i].sequence == i + 1 }

  /** The entries are the end of all that was appended, numbered without a gap; whatever is counted as
      dropped is an earlier entry, a lost source or a lost event, and each of these is counted. */
  ghost predicate Exact(l: Log) {
    && l.sequence == |l.journal| && Numbered(l.journal)
    && IsSuffix(l.entries, l.journal) && |l.entries| <= MAX_ENTRIES
    && l.dropped == |l.journal| - |l.entries| + |l.lostSources| + |l.lostEvents|
  }

  lemma {:induction false} SuffixGrows(part: seq<Entry>, whole: seq<Entry>, e: Entry)
    requires IsSuffix(part, whole)
    ensures IsSuffix(part + [e], whole + [e]) && |part| <= |whole|
  {
  }

  lemma {:induction false} SuffixCut(part: seq<Entry>, whole: seq<Entry>, n: nat)
    requires n <= |part| && IsSuffix(part, whole)
    ensures IsSuffix(part[n..], whole)
  {
  }

  lemma {:induction false} NumbersGrow(whole: seq<Entry>, e: Entry)
    requires e.sequence == |whole| + 1 && Numbered(whole)
    ensures Numbered(whole + [e])
  {
  }

  lemma {:induction false} AppendedExact(l: Log, at: int, record: Record)
    requires Exact(l)
    ensures Exact(Appended(l, at, record))
  {
    hide IsSuffix, Numbered;
    var e := Entry(l.sequence + 1, at, record);
    NumbersGrow(l.journal, e);
    SuffixGrows(l.entries, l.journal, e);
    if |l.entries| == MAX_ENTRIES {
      SuffixCut(l.entries + [e], l.journal + [e], 1);
    }
  }

  lemma {:induction false} TrimmedExact(l: Log, cutoff: int)
    requires Exact(l)
    ensures Exact(Trimmed(l, cutoff))
  {
    hide IsSuffix, Numbered;
    SuffixCut(l.entries, l.journal, OldPrefix(l.entries, cutoff));
  }

  /** What the numbers of the entries are. */
  lemma {:induction false} EntriesNumbered(l: Log, i: nat)
    requires Exact(l) && i < |l.entries|
    ensures l.entries[i].sequence == l.sequence - |l.entries| + 1 + i
  {
    assert l.entries[i] == l.journal[|l.journal| - |l.entries| + i];
  }

  // ---- Time ----

  ghost predicate Chronological(entries: seq<Entry>) {
    forall i, j :: 0 <= i < j < |entries| ==> entries[i].observedAt <= entries[j].observedAt
  }

  lemma {:induction false} TrimmedKeepsRecent(l: Log, cutoff: int)
    ensures Trimmed(l, cutoff).entries == l.entries[OldPrefix(l.entries, cutoff)..]
    ensures forall e :: e in l.entries && e.observedAt >= cutoff ==> e in Trimmed(l, cutoff).entries
  {
    var first, kept := OldPrefix(l.entries, cutoff), Trimmed(l, cutoff).entries;
    assert kept == l.entries[first..];
    forall e | e in l.entries && e.observedAt >= cutoff ensures e in kept {
      var i :| 0 <= i < |l.entries| && l.entries[i] == e;
      assert kept[i - first] == e;
    }
  }

  /** No old entry comes after a recent one. */
  ghost predicate OldFirst(entries: seq<Entry>, cutoff: int) {
    forall i, j :: 0 <= i < j < |entries| && entries[j].observedAt < cutoff ==> entries[i].observedAt < cutoff
  }

  lemma {:induction false} OldFirstIff(entries: seq<Entry>, cutoff: int)
    ensures (forall e :: e in entries[OldPrefix(entries, cutoff)..] ==> e.observedAt >= cutoff)
            <==> OldFirst(entries, cutoff)
  {
    var first := OldPrefix(entries, cutoff);
    var kept := entries[first..];
    assert forall j :: 0 <= j < |kept| ==> kept[j] == entries[first + j];
    if OldFirst(entries, cutoff) && first < |entries| {
      assert forall j :: 0 <= j < |kept| ==> kept[j].observedAt >= cutoff;
    }
    assert forall j :: first <= j < |entries| ==> entries[j] == kept[j - first] && entries[j] in kept;
  }

  /** Trimming removes nothing that is recent, and it leaves nothing old exactly when no old entry comes
      after a recent one. */
  lemma {:induction false} TrimmedIff(l: Log, cutoff: int)
    ensures var kept := Trimmed(l, cutoff).entries;
            && (forall e :: e in l.entries && e.observedAt >= cutoff ==> e in kept)
            && ((forall e :: e in kept ==> e.observedAt >= cutoff) <==> OldFirst(l.entries, cutoff))
  {
    hide Trimmed, OldFirst, OldPrefix;
    TrimmedKeepsRecent(l, cutoff);
    OldFirstIff(l.entries, cutoff);
  }
}
