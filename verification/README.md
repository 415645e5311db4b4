# A verified model of k9+: log following, configuration review, activity window

This project models, in Dafny 4.11, the parts of k9+ whose behaviour is hardest to see from the code, and
proves what they promise. `dafny verify dfyconfig.toml` checks all of it. Nothing here runs the program.

The code that updates things in place is modelled by classes and loops. Each method is proved equal to a step
on immutable values (`Value() == Step(old(Value()))`), and the theorems are lemmas about those steps and about
runs of any number of them. What the environment decides (servers, cut points, cancellation, the outcome of a
worker, the order in which a map is walked, what a redactor says) is an input, so every theorem holds for all
of it. Inductions are written out; automatic induction is off. `wrappers.dfy` holds what several modules share.

## Logs (`internal/dao`)

- `log_cursor.dfy`: the delivery cursor of one source. A resume request carries whole seconds only, so the
  server replays the whole boundary second; the cursor counts, for at most 1024 keys of that second, how often
  each was delivered. Times are nanoseconds from the zero time. The hash of a record is an arbitrary value, so
  collisions are covered.
- `log_read.dfy`, `log_source.dfy`: reading one stream, and the reconnect loop around it. A script lists what
  each iteration meets; when it ends, the context is done.
- `log_delivery.dfy`, `log_overflow.dfy`, `log_exactly_once.dfy`: over any number of runs and reconnects, every
  record is sent at least once and in order; and what is sent is a prefix of the log, for every session, if and
  only if no second of the log holds more than 1024 distinct keys. A server returns the records not before the
  requested second, up to any cut. Timestamps may be in any order inside a second; whole seconds never decrease.
- `log_notices.dfy`: when the repetitions after an overflow are announced before they are sent.
- `log_suppression.dfy`: which records of a stream are suppressed, told by what was committed before it.
- `log_latch.dfy`, `log_backoff.dfy`, `log_outcomes.dfy`: the fail-closed latch over all later streams; the exact
  waits and the failure budget; and exactly when a run ends in each of its four ways and reports each message.
- `log_follow.dfy`, `log_follow_loop.dfy`: the single-owner loop over pods, sources and worker completions. A
  worker reports a cancellation only if its own context was cancelled (`LogOutcomes.CanceledIff` is the
  reason). `sends` counts the deliveries that succeed before the session's context is done.
- `log_reconcile.dfy`, `log_order.dfy`: what a reconciliation, a completion and a change of the pods leave in
  each field, how often they tell each marker, and in which order.
- `log_pending.dfy`, `log_pending_store.dfy`, `log_told.dfy`: Events that arrive before their pod, in an array
  slice that is compacted in place; and what they are told with.

One promise is weaker than it first looks. After any session a run that starts with no notice outstanding
repeats a record only after some overflow notice (`RepetitionsFollowNotice`), but not always after one of its
own: exactly if the cursor is already uncertain when the run starts, it can repeat a record first, however the
log goes on (`AnnouncedWithinRunIff`). Such a start is reached by a source that overflowed, gave its notice and
was cancelled in the wait after it (`CancelledAfterNotice`). After a run that ended before its notice the next
one can even repeat before any notice at all (`AnnouncedAfterSessionIff`).

## Configuration review (`internal/configreview`)

- `config_references.dfy`, `config_declared.dfy`: the projection stops early at 65 references in five nested
  places, and is proved to be the first 65 of the unbounded list of declarations; what is declared, by field.
- `config_collect.dfy`, `config_claim.dfy`: the collector; exactly when it may claim that its view of the
  consumers is complete, and what that claim is worth. The name validation is an arbitrary predicate.
- `config_coverage.dfy`: which answers put which entry on the record, and which references are retained, also
  when something went wrong.

The claim is about consumers alone. A configuration that could not be read by its name is recorded in the
coverage and leaves the claim as it is, so that a claim can stand beside an entry that is not complete
(`ConfigClaim.ClaimBesideMissing`). Every entry is complete exactly if the claim stands and every configuration
was there (`ConfigClaim.AllCompleteIff`).

## Activity window (`internal/activity`)

- `activity_facts.dfy`: the difference of two projections as a patch.
- `activity_log.dfy`, `activity_steps.dfy`, `activity_window.dfy`: the bounded log, the steps of a refresh and
  of an event collection, and the window that performs them in place. Joined string keys are tuples; scope
  matching and `safe` are arbitrary functions; the projection of an object is given.
- `activity_runs.dfy`, `activity_identities.dfy`, `activity_events.dfy`: the entries are an exact suffix of
  what was appended; tracked identities leave for exactly three reasons; retention; caps over any run.
- `activity_told.dfy`, `activity_gaps.dfy`, `activity_collected.dfy`, `activity_bounds.dfy`: what a refresh tells
  about each identity, its gaps, what a collection tells about each event, and what either counts as lost.

An entry can outlive its retention. Pruning stops at the first entry that is recent, and a gap recorded for a
stale refresh or for events that were not requested carries the time of the last refresh, although it may stand
behind events captured after that refresh. Once the gap is too old and the events are not, it stays.
`ActivityRuns.StaleGapBreaksRetention` gives such a run, and `ActivityRuns.RefreshRetains` states exactly when
an accepted refresh leaves nothing old: if no old entry stands behind a recent one, and, as long as the cap
pushes nothing out, only then.

## Two small cores

- `worker_pool.dfy` (`internal/pool.go`): jobs, two channels, two wait groups and one drain as a system of
  steps in any interleaving. A pool is stuck before its drain returns exactly if it was made without room for
  any job and one was added.
- `highlight.dfy` (`internal/color/colorize.go`): highlighting bytes of a UTF-8 text (section 3 of RFC 3629)
  keeps the text if and only if every highlighted continuation byte belongs to a highlighted character.

## Model

| member | source | states |
|---|---|---|
| LogCursors.LogCursor.Reconnect | internal/dao/log_cursor.go:30-38 | the replay allowance becomes the delivered counts, and an uncertain boundary closes the latch; nothing else changes |
| LogCursors.LogCursor.Replayed | internal/dao/log_cursor.go:41-55 | a record is suppressed exactly if it lies in the boundary second with allowance left, and that costs one unit of it |
| LogCursors.LogCursor.Advance | internal/dao/log_cursor.go:58-83 | a commit moves the cursor as the value step does, for which the invariant below is proved |
| LogCursors.AdvanceTracks | internal/dao/log_cursor.go:58-83 | for commits in any timestamp order: the time is the maximum committed, the table holds the first 1024 keys of its second with their exact counts, and the cursor is uncertain exactly if a key of that second was turned away |
| LogCursors.ExactOrNever | internal/dao/log_cursor.go:76-82 | a key of the current second is counted exactly as often as it was committed, or never and then the table is full and the cursor uncertain |
| LogCursors.RejectedAgain | internal/dao/log_cursor.go:76-82 | committing a turned-away key again changes nothing but the overflow notice |
| LogCursors.LimitedIff | internal/dao/log_cursor.go:76-82 | a commit makes the overflow notice due exactly if its record lies in the second of the newest one and its key is not among the first 1024 of that second |
| LogSuppression.SuppressedExactly | internal/dao/log_cursor.go:41-73 | after a reconnect a record is skipped exactly if it lies in the second of the newest committed one, its key is counted and was committed more often than the stream has brought it so far, and the stream has brought nothing newer; every other record is offered to the channel |
| LogReads.ReadLine | internal/dao/log_read.go:53-72 | however the reader slices a line, its first 64 KiB are kept and truncation is reported exactly if bytes were discarded |
| LogReads.ReadRecord | internal/dao/log_read.go:78-109 | one record is suppressed, lost with the latch closed if it was sensitive, or sent and only then committed |
| LogReads.ReadLogStream | internal/dao/log_read.go:35-122 | the read loop over a stream and its three ends is the value function that the delivery theorems are about |
| LogSources.SettleAttempt | internal/dao/log_follow.go:616-638 | budget, overflow notice, progress and wait, in this order and with these exits |
| LogSources.TryOnce | internal/dao/log_follow.go:578-638 | one iteration on the cursor object: reconnect, read from the boundary, count failures, settle, with the same exits and the same counters as the value step the theorems use |
| LogSources.RunLogSource | internal/dao/log_follow.go:562-640 | the whole loop is the run that the delivery, latch and backoff theorems are about |
| LogDelivery.ServedSuffix | internal/dao/log_follow.go:579-583 | what the server replays from a whole second is a prefix of the rest of the log from that second on |
| LogDelivery.PositionedAtStart | internal/dao/log_cursor.go:30-38 | after a reconnect the allowance is exactly the counted part of what the server replays |
| LogDelivery.OfferStep | internal/dao/log_read.go:78-109 | each record of a replayed stream is suppressed because it was delivered, repeated because it overflowed (sensitive and after a notice), or the next new one |
| LogDelivery.StreamInOrder | internal/dao/log_read.go:49-121 | a whole stream delivers the next part of the log in order, and unless a delivery fails it reaches its own end |
| LogDelivery.SessionInOrder | internal/dao/log_follow.go:562-640 | the same over any number of runs, reconnects and cut points |
| LogDelivery.InOrderSendsAll | internal/dao/log_read.go:98-108 | in-order delivery means that each record is sent, and first sendings follow the order of the log |
| LogExactlyOnce.AtLeastOnce | internal/dao/log_follow.go:562-640 | without any bound on keys: every record up to some point is sent, in order, and whatever else is sent is a sensitive repetition of an overflowed record |
| LogDelivery.SessionAnnounces | internal/dao/log_follow.go:620-628 | whatever any server sends, a cursor that is uncertain after a session either still owes its notice or the session gave one |
| LogNotices.RepetitionsFollowNotice | internal/dao/log_follow.go:620-628 | after any session, a run that starts with no notice outstanding repeats a record only after a notice, an earlier one or its own |
| LogNotices.SettledSessionFollowsNotice | internal/dao/log_follow.go:620-628 | if every run starts so, each repetition of the session follows a notice |
| LogNotices.AnnouncedWithinRunIff | internal/dao/log_follow.go:620-628 | after the delivery of `h`, every further run over every longer log repeats only after a notice if and only if one was given before or the cursor is not uncertain; so it gives its own notice first if and only if the cursor is certain |
| LogNotices.AnnouncedAfterSessionIff | internal/dao/log_follow.go:620-638 | after a session, every further run repeats only after some notice if and only if the session did not leave its first notice outstanding |
| LogNotices.CancelledAfterNotice | internal/dao/log_follow.go:620-635 | over any log with too many keys in a second, a session ends uncertain with its notice given, and a next run sends a record again as its first without a notice of its own |
| LogExactlyOnce.CrowdedSecondOverflows | internal/dao/log_cursor.go:77-82 | such a log exists: 1025 distinct records in one second |
| LogExactlyOnce.ExactlyOnce | internal/dao/log_cursor.go:30-83 | with at most 1024 keys in each second, what any session sent is a prefix of the log, for any hash |
| LogExactlyOnce.CompletedReadDeliversAll | internal/dao/log_follow.go:595-597 | a session whose last read completes on the remaining log has sent the log, once |
| LogExactlyOnce.TooManyKeysRepeat | internal/dao/log_cursor.go:77-82 | one second with more than 1024 keys is enough for a session that sends the log up to the end of that second and then a record of it again, more often than the log holds it |
| LogExactlyOnce.ExactlyOnceIff | internal/dao/log_cursor.go:30-83 | every session sends a prefix of the log if and only if no second holds more than 1024 distinct keys |
| LogLatch.FailClosedLatch | internal/dao/log_read.go:48-106 | after a truncated record, an undelivered sensitive record or an uncertain reconnect, every record sent later from this cursor, in any later stream, is sensitive |
| LogLatch.ClosedForGood | internal/dao/log_cursor.go:30-38 | a closed latch never opens again |
| LogLatch.ClosedIff | internal/dao/log_read.go:86-106 | the latch is closed after a session exactly if it was before or one of these events closed it |
| LogLatch.SensitiveIff | internal/dao/log_read.go:86-106 | a record that is sent is sensitive exactly if the redactor says so or the latch was closed before the stream or by one of its records so far |
| LogBackoff.BackoffIsExact | internal/dao/log_follow.go:629-638 | the n-th consecutive iteration without progress waits min(500 ms * 2^(n-1), 30 s), and progress resets the wait to 500 ms |
| LogBackoff.FailuresWithinBudget | internal/dao/log_follow.go:598-619 | failures never exceed the budget, and only a spent budget exhausts a source |
| LogBackoff.FiniteReadsReturn | internal/dao/log_follow.go:595-619 | while the source stays terminal the loop returns within max(1, budget - failures) iterations |
| LogBackoff.LiveSourceStaysEligible | internal/dao/log_follow.go:560-619 | a source never seen terminal ends only cancelled or denied |
| LogOutcomes.DeniedIff | internal/dao/log_follow.go:605-611 | a run ends denied if and only if an iteration it reaches is refused with a denial that could be reported |
| LogOutcomes.CompletedIff | internal/dao/log_follow.go:591-597 | a run completes if and only if an iteration it reaches reads its stream to the end and then finds the source terminal |
| LogOutcomes.CanceledIff | internal/dao/log_follow.go:575-635 | a run is cancelled if and only if an iteration it reaches finds its context done, where it opened the stream, read its end, offered a record, gave the notice or waited |
| LogOutcomes.ExhaustedIff | internal/dao/log_follow.go:598-619 | a run is exhausted if and only if an iteration it reaches is the last of 20 failing ones in a row and finds the source terminal |
| LogOutcomes.FailuresInARow | internal/dao/log_follow.go:598-614 | the failures counted when an iteration begins are the unbroken row of failing ones before it, up to the budget |
| LogOutcomes.IterationReports | internal/dao/log_follow.go:588-628 | an open error, a read error, the final error and the overflow notice are each given once exactly if due, and otherwise not |
| LogFollow.Reconciliation | internal/dao/log_follow.go:154-267 | a reconciliation keeps all invariants and settles every source: wanted exactly if targeted, never dropping or replacing a running worker, cancelling and marking an unwanted one as left, serving each target unless the cap was announced |
| LogFollow.FinishedValid | internal/dao/log_follow.go:457-469 | a completion always belongs to a running source, stops that one and no other, and keeps all invariants |
| LogReconcile.ReconciledTarget | internal/dao/log_follow.go:187-252 | each target with a source of its own: an ongoing source has the terminal flag and revision its pod has now and is otherwise as it was, any other is started afresh, or finds no room, which was announced; and while deliveries succeed it tells its end exactly if the flag rose, a rollout exactly if the revision changed, and its join, last termination and revision exactly if it was started |
| LogReconcile.ReconciledOther | internal/dao/log_follow.go:254-265 | any other source is cancelled if it runs and forgotten if not, and tells that it left exactly if it had not yet |
| LogReconcile.ReconciledRest | internal/dao/log_follow.go:154-267 | nothing else moves, and the cap is announced exactly if it was met for the first time |
| LogReconcile.FinishedExactly | internal/dao/log_follow.go:457-469 | the source of the oldest completion ran; it is stopped with its outcome if it is wanted and forgotten otherwise, and told as complete exactly if it completed; no other source moves |
| LogMarkerOrder.PlacedInOrder | internal/dao/log_follow.go:198-242 | the markers of one target and their order, as far as the deliveries last: its end, a changed revision; join, last termination and revision; or the cap |
| LogMarkerOrder.ReconciledInOrder | internal/dao/log_follow.go:154-265 | the markers of a target come before those of the targets behind it, and whatever left is told last |
| LogFollow.IngestSound | internal/dao/log_follow.go:133-151 | the pod table stays within 128, holds only selected pods of the list, and is complete unless the cap was announced |
| LogReconcile.ListedExactly | internal/dao/log_follow.go:133-151 | after a list the table holds exactly the selected pods of it up to the first that found it full, and the cap is announced exactly if there was one or the list goes on |
| LogReconcile.PodChangedExactly | internal/dao/log_follow.go:486-492 | after a watch event the pod is in the table exactly if it was not deleted, is selected and had a place; no other pod moves; and the lack of a place is announced |
| LogFollow.NextValid | internal/dao/log_follow.go:450-526 | every step the loop or its environment can take keeps all invariants |
| LogFollow.MarkersAlternate | internal/dao/log_follow.go:198-265 | over any run the markers of each source read join, leave, join, leave, and the last one is a join exactly while the source is tracked and has not left |
| LogFollow.SourcesAccounted | internal/dao/log_follow.go:123-151 | over any run the active count is the number of running sources, the caps of 32, 256 and 128 hold, live workers and queued completions make up the active count, and a live worker always finds room in the channel |
| LogFollow.RunningIsKept | internal/dao/log_follow.go:254-265 | no step deletes or stops a running source except taking its own completion |
| LogFollowLoop.LogFollower.Place | internal/dao/log_follow.go:187-252 | one container of one pod: refresh, start or announce the cap |
| LogFollowLoop.LogFollower.Retire | internal/dao/log_follow.go:254-265 | a source no longer wanted is cancelled, forgotten if it does not run, and marked as left once |
| LogFollowLoop.LogFollower.Reconcile | internal/dao/log_follow.go:154-267 | placing every target and then walking the table in any order equals the reconciliation the invariants are proved for |
| LogFollowLoop.LogFollower.Finish | internal/dao/log_follow.go:457-469 | the oldest completion stops its source, keeps it with its outcome if it is wanted and forgets it otherwise |
| LogFollowLoop.LogFollower.TakeCompletion | internal/dao/log_follow.go:457-472 | a completion, followed by a reconciliation unless the session is finite |
| LogFollowLoop.LogFollower.IngestList | internal/dao/log_follow.go:133-151 | a pod list, taken in the order of its names, replaces the table and announces the cap if it stopped early or was continued |
| LogFollowLoop.LogFollower.PodWatched | internal/dao/log_follow.go:486-492 | one watch event on the pod table |
| LogPending.EnumerationIsExact | internal/dao/log_follow.go:302-304 | the arrival order lists the nested table exactly, without duplicates |
| LogPending.RetainedValid | internal/dao/log_follow.go:306-344 | retaining an Event keeps the store exact and in arrival order, and evicts at most the oldest entry |
| LogPending.ReplayedValid | internal/dao/log_follow.go:368-394 | a replay keeps the store exact, and what leaves the table is exactly what belongs to tracked pods |
| LogPending.NothingIsLost | internal/dao/log_follow.go:299-394 | over any run everything retained is still pending, was handed on or was evicted, at most 512 are pending, and an eviction was announced |
| LogPending.EvictsOnlyTheOldest | internal/dao/log_follow.go:314-325 | only the arrival of an Event at a full store evicts, and it evicts the oldest |
| LogPending.ToldOnceBetweenResets | internal/dao/log_follow.go:345-367 | over any run no Event is told twice between two resets of the dedup set, a reset comes after exactly 512 tellings, the set holds what was told since, and each telling is one marker |
| LogTold.ArrivesExactly | internal/dao/log_follow.go:306-367 | an Event told before is ignored; one of a tracked pod is told with its own texts and time; one without a pod or already pending is ignored; any other is kept, with its message and reason cut to their bounds, and the oldest makes room if there are 512 |
| LogTold.ReplaysExactly | internal/dao/log_follow.go:368-394 | a replay tells the pending Events of tracked pods in arrival order, as far as a dedup set of 512 keys that is reset when full lets them through; they leave, and all others stay as they are |
| LogTold.AllGetThrough | internal/dao/log_follow.go:345-367 | Events with different keys of which none was told are all told, each with its texts and time |
| LogTold.DueInOrder | internal/dao/log_follow.go:368-394 | a pending Event of a tracked pod stands behind exactly those that arrived before it |
| LogTold.WaitsAsItArrived | internal/dao/log_follow.go:306-344 | whatever arrives or is reconciled meanwhile, an Event that is still pending is the one that arrived, up to the bounds on its texts |
| LogTold.OnlyWhatArrived | internal/dao/log_follow.go:299-394 | over any run everything told or pending is an Event that arrived, its texts at most cut to their bounds |
| LogTold.ShortIsToldAsIs | internal/dao/log_follow.go:326-333 | so an Event within the bounds is told exactly as it arrived |
| LogPendingStore.PendingEvents.EvictOldest | internal/dao/log_follow.go:315-324 | the slice loses its first element and the table that entry, with no empty inner map left |
| LogPendingStore.PendingEvents.RetainEvent | internal/dao/log_follow.go:306-344 | the store becomes the retained one, also when the slice append moves to a new array |
| LogPendingStore.PendingEvents.ProcessEvent | internal/dao/log_follow.go:345-367 | an Event that was told is ignored, one of a tracked pod is told, after a reset if the dedup set is full, and any other is retained |
| LogPendingStore.PendingEvents.ReplayPending | internal/dao/log_follow.go:368-394 | the compaction over the front of the array being read equals a replay of all due Events in arrival order |
| ConfigReferences.References | internal/configreview/references.go:12-48 | the result is the first 65 of all declarations, and exceeds 64 exactly if more than 64 exist |
| ConfigReferences.AppendContainer | internal/configreview/references.go:23-39 | a container's environment and mounts are appended with early returns that do not change the first 65 |
| ConfigReferences.ContainerReferences | internal/configreview/references.go:50-84 | the environment of a container agrees with all it declares, up to the bound |
| ConfigReferences.MountReferences | internal/configreview/references.go:28-39 | the volumes behind one mount agree with all they declare, up to the bound |
| ConfigReferences.VolumeReferences | internal/configreview/references.go:86-115 | a volume's sources agree with all they declare, up to the bound |
| ConfigReferences.ItemReferences | internal/configreview/references.go:117-130 | the items of one source agree with all it declares, up to the bound |
| ConfigReferences.BoundedAppend | internal/configreview/references.go:134-137 | appending within the bound keeps the first 65 of the concatenation |
| ConfigReferences.AgreeAppend | internal/configreview/references.go:134-137 | two parts that each agree up to the bound agree when joined |
| ConfigDeclared.DeclaredIff | internal/configreview/references.go:12-130 | what a specification declares, field by field: keys and whole objects taken into the environment, volumes and projections behind the mounts, publish secrets and pull Secrets; optional only where it is said |
| ConfigCollect.Collector.Partial | internal/configreview/collect.go:370-378 | the claim is withdrawn and each reason is recorded once |
| ConfigCollect.Collector.Add | internal/configreview/collect.go:188-203 | a reference is added exactly if it is acceptable, new and within the cap; a refusal withdraws the claim |
| ConfigCollect.Collector.ReadSource | internal/configreview/collect.go:119-169 | the source's declarations become references and topics, or the read fails in one of three ways |
| ConfigCollect.Collector.ConsumerPage | internal/configreview/collect.go:232-256 | the first hundred objects of a list are verified, projected and matched with the topics |
| ConfigCollect.Collector.ListConsumers | internal/configreview/collect.go:205-230 | the eight lists, failed, cut off or whole |
| ConfigCollect.Collector.Configurations | internal/configreview/collect.go:258-300 | each topic without an object is read by its name and gets one; an entry is recorded unless it is there, and the claim is left as it is |
| ConfigCollect.Collect | internal/configreview/collect.go:93-117 | the review as a whole, for which the claim is characterised below |
| ConfigClaim.PlayExact | internal/configreview/collect.go:188-203 | the references kept are the first 64 distinct acceptable ones offered; the claim stands exactly if nothing was refused and no gap was met |
| ConfigClaim.ClaimIff | internal/configreview/collect.go:93-117 | the claim is made if and only if source and consumers were read whole and recognised, each within 64 declarations, with acceptable names, and with at most 64 distinct ones in all; and then exactly these are kept |
| ConfigClaim.ClaimSound | internal/configreview/collect.go:205-256 | when the claim is made, every declaration of the source and every declaration about its topics by any listed object is among the references, and no list failed or was cut off |
| ConfigClaim.ClaimIsHonest | internal/configreview/collect.go:205-378 | the claim is withdrawn if and only if some entry other than one about a named read is not complete; and the entries about named reads are exactly those of the objects that were not there |
| ConfigClaim.ObjectsExact | internal/configreview/collect.go:258-300 | a review has exactly one object for each topic: present if it is the captured one or was found, missing only if its read found none, denied only if it was denied, and otherwise unknown |
| ConfigCoverage.CoverageIff | internal/configreview/collect.go:93-117 | an entry is on the record if and only if an answer of the source, of a list or of a named read puts it there, or more than 64 references were acceptable |
| ConfigCoverage.ReadsRecorded | internal/configreview/collect.go:288-298 | a named read is recorded as missing, denied or unknown, with its reason, exactly according to its answer, and not at all if the object was there |
| ConfigCoverage.ListsRecorded | internal/configreview/collect.go:210-227 | each of the eight lists is recorded as denied, unknown, cut off or complete, exactly according to its answer |
| ConfigCoverage.RetainedIff | internal/configreview/collect.go:188-256 | whatever went wrong, a retained reference was declared by the source or about one of its topics by a verified object among the first hundred of a list; and below the cap all of these are retained |
| ConfigClaim.AllCompleteIff | internal/configreview/collect.go:258-300 | every entry is complete if and only if the claim stands and every configuration that was not captured was there |
| ConfigClaim.ClaimBesideMissing | internal/configreview/collect.go:295-298 | a review in which the claim stands beside a pull Secret that is missing |
| ConfigClaim.ReferencesSound | internal/configreview/collect.go:188-203 | in every review the references are distinct, at most 64, and each was declared by the source or, about one of its topics, by a listed object |
| ActivityFacts.DiffFacts | internal/activity/window.go:171-197 | the changes are the updates in the order of the new facts, then one removal for each key that is gone |
| ActivityFacts.DiffIsPatch | internal/activity/window.go:171-197 | for any facts, repeated keys included, applying the changes to what was known gives what is known |
| ActivityFacts.NoDiffIff | internal/activity/window.go:183-185 | nothing is reported if and only if the new facts name no key twice and both agree on every key, value and source time |
| ActivityFacts.DiffMentions | internal/activity/window.go:179-194 | with distinct keys each differing key is named once and no other is named |
| ActivityTold.ChangesTell | internal/activity/window.go:171-197 | the changes between two projections, from the first to the second: with distinct keys exactly one for each key they differ on, with what was known before and after; none exactly if they say the same |
| ActivityLog.EntriesNumbered | internal/activity/window.go:226-235 | entry i carries the number sequence - length + 1 + i |
| ActivityLog.AppendedExact | internal/activity/window.go:226-235 | appending keeps the entries an exact, consecutively numbered suffix of at most 512 with every dropped one counted |
| ActivityLog.TrimmedIff | internal/activity/window.go:252-260 | trimming removes nothing recent, and leaves nothing old if and only if no old entry comes after a recent one |
| ActivityRuns.ObservedExact | internal/activity/window.go:61-115 | a refresh, accepted or stale, keeps the log exact and the drop count equal to lost entries, sources and events |
| ActivityRuns.CollectedExact | internal/activity/events.go:191-250 | so does an event collection |
| ActivityRuns.RunExact | internal/activity/window.go:226-278 | over any run of both the entries are an exact suffix and the drop count is exact |
| ActivityRuns.RefreshRetains | internal/activity/window.go:61-115 | an accepted refresh leaves no entry older than 24 hours if no such entry stood behind a recent one, and only if, as long as the kept and the new entries fit the cap; in general exactly if each one behind a recent one is pushed out by new entries |
| ActivityRuns.RefreshInTime | internal/activity/window.go:61-71 | if the entries were in the order of their times, an accepted refresh leaves them so and none is older than 24 hours |
| ActivityRuns.PrunedInTime | internal/activity/window.go:237-261 | and pruning removed none inside the 24 hours |
| ActivityRuns.RunRetained | internal/activity/window.go:61-115 | over any run without requested collections both hold after each accepted refresh |
| ActivityRuns.StaleGapBreaksRetention | internal/activity/window.go:66-71 | a run with events captured after a refresh and then a stale refresh, after which an entry older than 24 hours outlives an accepted refresh |
| ActivityIdentities.ItemsReflected | internal/activity/window.go:72-111 | a scan tracks, for each identity, what its first item in scope projects to, and reports no absence |
| ActivityIdentities.EstablishesIff | internal/activity/window.go:117-153 | an absence is established if and only if the refresh did not fail and exactly one report, complete and whole, covers the query |
| ActivityIdentities.SweptEffect | internal/activity/window.go:139-160 | each unseen key with an established absence leaves with exactly one entry, and all others stay |
| ActivityIdentities.TrackedLeaveSoundly | internal/activity/window.go:61-169 | an accepted refresh takes a source out for exactly one of three reasons: age (counted), established absence (one entry) or the cap (counted) |
| ActivityIdentities.TrackedExactly | internal/activity/window.go:61-115 | what is tracked afterwards, exactly; map keys match, every current UID names a tracked source, at most 2000 remain, and the cap took the oldest |
| ActivityTold.RefreshTells | internal/activity/window.go:61-160 | everything an accepted refresh records about an identity: if an item brought it, a replacement exactly if another UID was current, then its first observation, or one change with the time and the facts known before exactly if they differ; if none did, its absence with the report that establishes it; and nothing else |
| ActivityGaps.RefreshTellsGaps | internal/activity/window.go:72-168 | the gaps of an accepted refresh, in their order: items without projection or cut short, reports that are not complete and whole, sources nothing reports on, and a refresh without any report |
| ActivityGaps.StaleExactly | internal/activity/window.go:65-70 | a stale or undated refresh records one gap at the time of the last refresh and changes nothing else |
| ActivityGaps.CurrentExactly | internal/activity/window.go:97-103 | the UID that is current under a name afterwards: the last that came under it, or the one before, unless its source was found absent or the cap took a source of that name |
| ActivityTold.PrunedExactly | internal/activity/window.go:237-261 | pruning takes out exactly the sources and events older than 24 hours, and the names of these sources whatever UID was current |
| ActivityTold.EventsStayIff | internal/activity/window.go:237-261 | an accepted refresh leaves an event exactly if it is not older than 24 hours, and leaves it as it was |
| ActivityBounds.RefreshBounds | internal/activity/window.go:226-278 | what an accepted refresh counts as lost, and the time before which it says that something is missing: its own if the cap took a source, else that of the last entry pushed out, else the limit of the retention if anything was too old |
| ActivityEvents.RepeatIsSilentIff | internal/activity/events.go:201-230 | reading the same events again adds nothing if and only if they do not contradict each other and each was known or has texts that stay as they are |
| ActivityEvents.CollectedSound | internal/activity/events.go:191-250 | a collection touches nothing but events and log, and leaves at most 128 events under their own keys |
| ActivityCollected.CollectedTells | internal/activity/events.go:191-250 | for each event key the event that is left and the records about it: every wanted event that says something else than the one known is kept with the kind of what it is about and safe texts, and recorded; and each report that is not complete and whole is one gap |
| ActivityCollected.OneUnder | internal/activity/events.go:201-230 | a wanted event that is alone under its key is kept and recorded once exactly if it is new or says something else |
| ActivityCollected.RefusedExactly | internal/activity/events.go:191-200 | a collection that was not requested records one gap at the time of the last refresh, and one that is too early changes nothing |
| ActivityCollected.WrittenAtItsTime | internal/activity/window.go:226-235 | whatever a refresh or collection writes comes after everything written before, with its own time |
| ActivityBounds.CollectBounds | internal/activity/events.go:238-249 | a collection counts exactly the events beyond the cap, and says which time they are missing before |
| ActivityEvents.RunSound | internal/activity/window.go:237-278 | over any run keys match, every current UID names a tracked source, and both caps hold |
| ActivityWindow.Window.Append | internal/activity/window.go:226-235 | the new entry is last and carries the next number; the newest 512 stay, and a dropped one is counted and dated |
| ActivityWindow.Window.Prune | internal/activity/window.go:237-261 | old sources and their names leave and are counted, old events leave uncounted, old entries at the front are counted |
| ActivityWindow.Window.SeeItem | internal/activity/window.go:73-110 | one listed resource: out of scope, unprojectable, repeated, replaced, new or changed |
| ActivityWindow.Window.RecordCoverage | internal/activity/window.go:117-169 | gaps of the coverage, then every unseen tracked key |
| ActivityWindow.Window.CapTracked | internal/activity/window.go:263-278 | beyond 2000 the oldest sources leave, are counted, and their names are forgotten |
| ActivityWindow.Window.Observe | internal/activity/window.go:61-115 | the whole refresh equals the step the invariants are proved for, with an order and evictions the program could choose; without a snapshot nothing changes |
| ActivityWindow.Window.ObserveEvents | internal/activity/events.go:191-250 | the whole event collection in place, ignored if it is too early and capped at 128 oldest first |
| WorkerPool.StepKeepsValid | internal/pool.go:26-79 | every step of any job, the collector or the drain keeps tokens and wait group exact, the closing order, and the conservation of errors |
| WorkerPool.ReachableSafe | internal/pool.go:51-76 | in every reachable state at most `size` jobs run, nothing is sent on a closed channel, none is closed twice, and the wait group never falls below zero |
| WorkerPool.EveryFailureIsSomewhere | internal/pool.go:36-63 | at any time each failure of a run is in exactly one place: being sent, in the channel, with the collector or in the list |
| WorkerPool.EachJobReturnsOnce | internal/pool.go:51-63 | each call of Add makes one job, which returns once or is still to return |
| WorkerPool.InSendOrder | internal/pool.go:36-63 | list, collector and channel together hold the errors of the run in the order in which they were sent |
| WorkerPool.ReturnedInOrder | internal/pool.go:66-79 | so the list that is returned has them in that order |
| WorkerPool.ReturnedIsComplete | internal/pool.go:66-79 | when the drain returns every job that was added has run once and finished, and each error is returned exactly as often as a job of the run failed with it |
| WorkerPool.StuckIff | internal/pool.go:26-79 | a reachable pool is stuck if and only if its drain has returned, or it has no room for any job and one was added |
| WorkerPool.RunsAreBounded | internal/pool.go:51-76 | without new jobs every run is finite, so that every run returns |
| Highlighting.Highlight | internal/color/colorize.go:45-84 | without positions the text itself; otherwise each byte becomes what its position alone determines: raw, the start of a wrapped character, part of one, or nothing |
| Highlighting.ContentKeptIff | internal/color/colorize.go:58-80 | the pieces hold the input if and only if every highlighted continuation byte belongs to a highlighted character; otherwise exactly the stray bytes are missing |
| Highlighting.StripGivesTextBack | internal/color/colorize.go:40-42 | for a text without escape bytes, removing the colour codes gives it back under the same condition |
| Highlighting.DigitsIff | internal/color/colorize.go:40-42 | the digits of a colour are its one decimal numeral, the most significant digit first |
| Highlighting.ColorizedIff | internal/color/colorize.go:40-42 | wrapped text stands between ESC[38;5;Nm, with that numeral, and ESC[0m |

## Left out

- LogFollowLoop.LogFollower.IngestList: the sort of the list by name that decides which 128 pods are kept; the list is taken as sorted.
- Kubernetes clients, watches, tickers, contexts and goroutine scheduling: inputs of the model; only whether something was cancelled matters.
- Records stamped inside the very first second of the zero time: the source would write to a table that does not exist yet (`LogCursors.Stamped`).
- Opening a source by tail lines or since seconds, torn lines at the end of a stream, log rotation and records without a timestamp: outside the premises of the delivery theorems; the cursor invariant covers records without a timestamp.
- Reading without a cursor (`readLogs`): the same loop with nothing to remember.
- The redactor, display text, markup and SHA-256: the redactor is an arbitrary boolean per record and the hash an arbitrary value.
- The choice of containers from pod statuses: the list of targets is an input of a reconciliation, and a source is a value in the table rather than a pointer.
- LogReconcile.ReconciledTarget: targets with the same source are left to `LogFollow.Reconciliation`; the containers of a pod have distinct names.
- ConfigDeclared.DeclaredIff: says what is declared and not in which order; the order is that of `ConfigReferences.Declared`.
- LogPending.NothingIsLost: markers count as given when they are attempted; message lengths are counted in characters.
- ConfigCollect.Collect: scope validation, the time limit, the key names and annotations of an object, and the order of the topics' keys (any order will do); coverage texts are constructors.
- ActivityFacts.DiffFacts: the final sort by group and field is for display; `unknown` texts are options.
- ActivityWindow.Window.Observe: summaries, history texts and the coverage attached to a retained source; the order in which tracked keys are swept and the choice among equally old ones are arbitrary.
- ActivityWindow.Window.Prune: names are forgotten whatever UID was current, so not every tracked source has a current UID; no such claim is made.
- WorkerPool.StuckIff: adding to a pool during or after its drain, the mutex around the error list, and the cancelled context that no job receives.
- Field extraction of projections, access reviews, capacity, backups, certificates, configuration files, caches, the remaining data access and the user interface.
