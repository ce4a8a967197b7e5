# Proofs about xconf

xconf assembles a configuration from ordered layers. Each source gives a tree of values, a list
of Replace/Delete edits and source locations; the layers are merged under a schema, every write
is recorded in a provenance log keyed by JSON pointer, and a runtime re-reads all sources when
one of them reports a change and publishes a new snapshot.

The project is in five parts.

- **Merge and provenance** (`Basics`, `Int64`, `Paths`, `Trees`, `Merging`, `Merger`,
  `MergeLaws`, `SchemaLaws`, `LayerLaws`, `Provenance`, `Loading`). `Merger.Merger` holds the tree and the log and updates both in
  place. Its methods are proved against functions: one on trees, one along a single path of the
  log. What merging means is then proved about those functions: path by path, by what the
  schema's fields and discriminators say, by what is recorded where and in which order, over
  runs of layers, and against a second merge on trees whose leaves and lists carry their writer.
- **The path filter** (`Filtering`, `NonInterference`, `Agreement`, `ListAgreement`). Outside its
  selection a filtered layer changes no object member, and list elements only where it replaces a
  list that stands above them. On selected paths of object members it has the effect of the whole
  layer, under a condition on the layer's values; for list elements named by an index there
  is a further one, and it is exact.
- **The runtime** (`RuntimeProtocol`, `RuntimeSafety`, `RuntimeInvalidation`,
  `RuntimePublication`, `RuntimeFeed`, `RuntimeTheorems`, `Opening`, `Diffing`). The reload protocol is a transition system whose
  steps are the points where the code takes a mutex, uses a channel or reads a source. The
  theorems hold in every state of every interleaving.
- **Sources in memory and resilient sources** (`Memory`, `Resilience`): a settable source and its
  watchers; the last good layer, 64-bit backoff, and the wake loop.
- **Remote sources and decoders** (`EtcdWatch`, `ConsulWatch`, `HttpCache`, `YamlWalk`,
  `YamlLaws`, `Bindings`).

Five properties turned out to hold only under a condition.

- An element of a list outside the selection can be lost. Selecting a member by the name of an
  index, in a list the schema does not know, lets the filtered values put an object in the place
  of the whole list. `FilteredLayerTouchesNothingElse` shows that a live path is changed exactly
  when that happens above it, and `ListElementLost` gives an input.
- What is published can lag behind a watched source with nothing left to make up for it. That
  happens exactly when a build of the run loop's comes to nothing, at whatever point it fails or
  is turned down for a degraded source, and no token is there or coming: the token is spent, the
  read is thrown away or was never made, and nothing asks for another reload. `AttentionLostIff`
  shows it step by step and `AttendedUnlessDiscarded` over runs, `FailureHidesAChange` gives a run
  for every such point, and `NoLostPublication` says that a failure is then being reported to
  subscribers. `NoticedUnlessStopped` and `NoLostInvalidation` say when a change can go unread.
- The retry delay of a resilient source stays within its bounds exactly when the upper bound is
  at most half of the largest duration; beyond that the doubling wraps around. `Watch` asks only
  for `0 < min <= max`.
- A filtered layer agrees with the whole one on each selected path of object members to which the
  layer's values leave the way clear: objects on the way there, and no OneOf switched above it. The
  converse is about the values alone, before any edits, and about topmost selected paths: when the
  way is not clear, `UnclearOutcome` says exactly when the two merges agree there all the same.
- A selected path may name an index into a list that is not selected as a whole, and then the two
  can differ in what they reach there: `EditedElementMissed` and `ElementKeptByFilter` are inputs.
  `FilteredLayerReaches` gives agreement on all that is reached, list elements included, when the
  whole layer leaves an object member there or no list is put or found above the path, and
  `DifferOnlyInLists` says exactly when they differ.

The Consul watch expects positive indexes; `ChangeMissedIff` says exactly which change it would
miss if replies, or the baseline query, carried index zero.

## Model

| member | source | states |
|---|---|---|
| Basics.Sorted | merge.go:209 | the keys of a map, each once, in ascending code-point order |
| Basics.LessIff | merge.go:209 | a string comes first exactly when it is a proper prefix or smaller where the two first part |
| Paths.Render | xconf.go:23-30 | the builder loop writes the JSON pointer of the path |
| Paths.ParseInvertsPointer | filter.go:79-87 | the filter reads every pointer back to the path it was made from, empty segments and `~` and `/` included |
| Paths.PointerInjective | xconf.go:23-30 | different paths have different pointers |
| Paths.PrefixIsDescent | merge.go:154-156 | a pointer followed by a slash is a string prefix of another exactly when the other path is strictly below |
| Paths.UnescapeInvertsEscape | filter.go:85 | the two unescaping passes undo the two escaping passes |
| Paths.EscapesByCharacter | xconf.go:27 | escaping works character by character: the tilde as ~0, the slash as ~1, any other as itself |
| Paths.PointerMeans | xconf.go:23-30 | a pointer is a slash and an escaped segment for each segment in order |
| Paths.ParseFailsIff | filter.go:80-83 | a location key is no pointer exactly when it is not empty and does not begin with a slash |
| Paths.ItoaIsDecimal | merge.go:170 | an index is written in decimal digits without a leading zero |
| Paths.ItoaInjective | merge.go:170 | different list positions have different segments |
| Merger.Merger.constructor | xconf.go:304 | a merger starts with no values and no history |
| Merger.Merger.Add | merge.go:144-152 | appends one record, with the nearest ancestor's location, to one path and leaves every other history alone |
| Merger.Merger.Invalidate | merge.go:153-160 | appends the record to exactly the recorded paths strictly below |
| Merger.Merger.RecordTree | merge.go:161-173 | appends one located record to each path the value reaches, through objects and lists, and to no other |
| Merger.Merger.MergeMap | merge.go:208-242 | returns the merged object and extends every path's history by what the merge did there |
| Merger.Merger.MergeMember | merge.go:210-240 | one member is merged into or replaced, with the matching records |
| Merger.Merger.Apply | merge.go:84-143 | values, then edits in order: the tree, every path's history, and the error if there is one |
| Merger.Merger.ApplyOne | merge.go:94-140 | one edit, with missing parents created by Replace and passed over by Delete |
| LayerLaws.RecordIsLocated | merge.go:144-150 | a record's location is that of the longest located prefix of its path, and its own if none is located |
| LayerLaws.MergeRecords | merge.go:208-242 | a merge records each value the layer gives, objects and elements included, once at its path, after one "replaced" if the path was recorded and something above it was replaced, and nothing else |
| LayerLaws.ValuesWrite | merge.go:85-92 | the records of the values name the source, its revision and "set", or "replaced" |
| LayerLaws.EditWrites | merge.go:119-140 | the records of an edit name the source, its revision and "replace" or "delete": on every recorded path below it, then on what it writes or deletes |
| LayerLaws.EditsInOrder | merge.go:93-141 | edits take effect and are recorded one after the other |
| LayerLaws.ValuesThenEdits | merge.go:86-93 | a layer is its values and then its edits, in effect and in records |
| LayerLaws.EditFailsIff | merge.go:100-118 | an edit's walk fails exactly when something that is no object stands above its path |
| LayerLaws.EditErrors | merge.go:94-138 | which error an edit gives, in the code's order |
| LayerLaws.ValuesFailIff | merge.go:86-90 | values fail exactly when something in them is nested more than 128 deep |
| LayerLaws.ClonableIff | merge.go:18-21 | a value can be copied exactly when nothing in it is nested more than 128 deep |
| LayerLaws.LayerClonableIff | sources.go:45-66 | a layer can be copied exactly when its values and its edits' values can |
| SchemaLaws.FindFieldIsFirst | merge.go:174-181 | the field found is the first of its name |
| SchemaLaws.FieldAtMeans | merge.go:212-218 | a map's members are governed by the value field, before the value schema; others by the schema's field |
| SchemaLaws.BelowMeans | merge.go:182-207 | the schema under a member: the object's own, what the ref's identifier or name finds, or the variant that the lower discriminator names |
| SchemaLaws.RefKeysAreDistinct | merge.go:187-189 | different identifiers without a NUL have different keys |
| SchemaLaws.OneOfMember | merge.go:219-240 | objects on both sides of a member: a OneOf whose discriminator the layer gives differently leaves the layer's object alone; otherwise every lower member not given is unchanged |
| SchemaLaws.OneOfAtDepth | merge.go:208-242 | the same at any depth, by whether a OneOf on the way disagrees |
| MergeLaws.MergeByPath | merge.go:208-242 | leaves of the layer are in the result; a lower path survives exactly when nothing above it, or it, was replaced; nothing else appears |
| MergeLaws.MergeIdempotent | merge.go:208-242 | merging the same values twice equals once, under every schema |
| MergeLaws.VariantKept | merge.go:222-231 | a merge without a switch leaves a OneOf object in its variant |
| MergeLaws.ValuesComeFromLayers | merge.go:192-242 | at any depth, whatever the outcome of a run holds is in some layer or was there before, leaves as given |
| MergeLaws.CutBelow | merge.go:229-240 | what replaces an ancestor replaces everything below it |
| MergeLaws.OneOfHoldsOnlySinceSwitch | merge.go:222-239 | over any run of layers and at any depth, whatever a OneOf object holds is from a layer since its discriminator last changed, leaves as that layer gave them |
| MergeLaws.MemberSinceSwitch | merge.go:222-239 | for a member of the merged object itself, the outcome is that of the layers since the switch alone |
| Provenance.EraseMerge | merge.go:208-242 | the merge that carries writers is the merge, once the writers are erased |
| Provenance.EraseEdit | merge.go:100-141 | the same for an edit |
| Provenance.EditReach | merge.go:100-141 | what every path leads to after an edit: inside the new value, at an object above it, or what it did before |
| Provenance.MergeTold | merge.go:208-242 | a merge keeps the last record of each live non-object value naming its writer |
| Provenance.EditTold | merge.go:119-141 | so does an edit |
| Provenance.ProvenanceNamesTheWriter | merge.go:84-173 | after any run of layers the last record of a live non-object value names exactly its writer, and a path whose last operation is "set" is live |
| Loading.Bind | xconf.go:249-262 | accepts sources exactly when each has a name of its own |
| Loading.Gather | xconf.go:303-324 | folds the layers lowest first, fails as the first failing source does, keeps every path's exact history, and reports revisions of exactly the sources and errors of exactly the stale ones |
| Loading.FirstFailure | xconf.go:306-316 | the error is that of the first source that ends the loop, with its name and kind |
| Loading.SchemaRecordsGrow | xconf.go:332-335 | each event is one record more, of source "schema", at its own path |
| Loading.RecordEvents | xconf.go:332-335 | appends the schema's operations to the histories of their own paths |
| Loading.Load | xconf.go:303-337 | for any schema engine: when it succeeds, how it fails, and a history of source writes that explains every value, followed by schema operations; blocking errors are degraded exactly when a source is stale, with the errors of exactly the stale ones |
| Loading.OutcomeIsRun | xconf.go:306-321 | the loop succeeds exactly when every source gives a layer and all layers apply in turn |
| Filtering.AllowPaths | filter.go:20-36 | the trie selects exactly the given paths and has no dead ends |
| Filtering.CoveredMeans | filter.go:96-104 | a path is covered exactly when it is at or below a given path |
| Filtering.ApartMeans | filter.go:96-104 | a path is apart from the trie exactly when it is no ancestor and no descendant of a given path |
| Filtering.Read | filter.go:55-93 | succeeds exactly when the selection is valid, the source reads, the layer can be copied and its edits are valid, gives the filtered layer, and otherwise the first of these errors |
| Filtering.AppendProjected | filter.go:127-140 | appends the projected edits in key order |
| Filtering.ReadEdits | filter.go:69-76 | refuses an invalid edit and otherwise projects all in order |
| Filtering.ReadLocations | filter.go:77-91 | keeps exactly the locations on the way to or within the selection |
| NonInterference.ValidatedIsSafe | filter.go:144-178 | an accepted selection never selects a discriminator, nor part of a list, in any variant |
| NonInterference.AcceptedIffSafe | filter.go:144-178 | the check accepts exactly the safe selections within the nesting limit, whatever order it looks in |
| NonInterference.AcceptedMember | filter.go:151-175 | an accepted selection takes each list whole, each OneOf whole or without its discriminator, and is accepted below each member in every variant |
| NonInterference.UnknownIsAccepted | filter.go:165-175 | without a schema every selection within the nesting limit is accepted |
| NonInterference.SafeBelow | filter.go:154-163 | trying all variants covers the one the lower value's discriminator picks |
| NonInterference.OverriddenIsList | merge.go:219-239 | a live path is overridden only where the values give an object in the place of a list above it |
| NonInterference.MergeApart | filter.go:106-125 | merging projected values removes a path apart from the selection, list elements included, and marks its history replaced, exactly when it is overridden; otherwise both are as before |
| NonInterference.EditLookup | merge.go:100-141 | what each path of object members leads to after an edit |
| NonInterference.EditMisses | merge.go:100-141 | an edit leaves what is neither above nor below its path, list elements included |
| NonInterference.FilteredEditsCovered | filter.go:127-140 | every projected edit is at or below a selected path |
| NonInterference.FilteredLayerTouchesNothingElse | filter.go:13-19 | for every accepted selection and a path neither above nor below a selected one: object members keep value and history; any live path keeps its value, and a recorded one its history, exactly when the values put no object in the place of a list above it; nothing appears |
| NonInterference.ListElementLost | filter.go:165-173 | an accepted selection and a layer under which a list element outside the selection is lost and marked replaced |
| NonInterference.NearestLocationKept | filter.go:77-91 | a retained path is located where it was without the filter |
| NonInterference.RetainedMeans | filter.go:88-90 | the filter retains exactly the paths above, at or below a selected one |
| NonInterference.LocationKeptIff | filter.go:77-91 | a location is dropped exactly when its key is no pointer or is comparable with no selected path |
| NonInterference.FilteredLayerHeader | filter.go:67-68 | the revision passes through and staleness does not |
| Agreement.MergeAgrees | filter.go:106-125 | with a clear way, whole and projected values lead to the same on every selected path |
| Agreement.UnclearOutcome | filter.go:106-125 | without one, at a topmost selected path, what both merges hold there, and exactly when they agree in terms of the lower and given values |
| Agreement.SettledIsGiven | merge.go:208-242 | merging over a lower object gives back the given one exactly when the lower one holds nothing that is kept beside it |
| Agreement.ProjectedEffect | filter.go:127-140 | projected edits do to each selected path what the edit itself does |
| Agreement.FilteredLayerAgrees | filter.go:55-93 | if both forms of a layer apply, they agree on every selected path of object members the way to which is clear, whatever the edits |
| Agreement.FilteredEditsAgree | filter.go:69-76 | layers of edits alone agree on every selected path of object members, projected ancestor edits included |
| ListAgreement.FilteredLayerReaches | filter.go:55-93 | with a clear way to a topmost selected path they agree on all that is reached at or below it, list elements included, if the whole layer leaves an object member there or no list stands above it in the lower tree, the values or an edit |
| ListAgreement.DifferOnlyInLists | filter.go:55-93 | they differ in what is reached there exactly when the whole layer leaves no object member and not the very element the filtered one does: that of a list above the path in the lower tree which the filtered values leave in place, and otherwise none |
| ListAgreement.FilteredKeepsList | filter.go:106-140 | a list above the path that the filtered values do not replace stays, with all that is reached through it |
| ListAgreement.FilteredNoList | filter.go:106-140 | a filtered layer never puts a list above a topmost selected path |
| ListAgreement.TopmostAbove | filter.go:96-104 | every covered path is at or below a topmost selected one |
| ListAgreement.EditedElementMissed | filter.go:127-140 | an accepted selection of an index, and an edit under which whole and filtered layer differ |
| ListAgreement.ElementKeptByFilter | filter.go:106-125 | the same for values, with the way clear |
| Diffing.Walker.Walk | runtime.go:283-314 | appends the changed paths below the place walked |
| Diffing.ChangedPaths | runtime.go:280-317 | the walk's paths are the difference of the two trees |
| Diffing.PatchMakesEqual | runtime.go:280-317 | copying the new value, or its absence, to the reported paths turns the old tree into the new one |
| Diffing.DiffIsSharp | runtime.go:280-317 | no reported path is at or below another, and at each the two sides differ and have no common shape to descend into |
| Diffing.DiffIsOrdered | runtime.go:289-311 | members are reported in code-point order and elements by index |
| Diffing.ChangedPathsAreExact | runtime.go:280-317 | for any two snapshots: a patch, independent, as deep as the difference goes, in order, never the root, and empty exactly when they are equal |
| Opening.Opener.StopAll | runtime.go:63-68 | calls every kept stop, last registered first |
| Opening.Opener.Open | runtime.go:60-107 | opens exactly when all watchers register and the load succeeds or recovers before the context ends; otherwise everything obtained is stopped |
| Opening.LoadOpensIff | runtime.go:84-102 | the load opens exactly when some build succeeds after builds that were all held by degraded sources, while the context lasts |
| Opening.OpenAndClose | runtime.go:121-127 | on every way out the same stops are called |
| Opening.EachStopOnce | runtime.go:60-107 | exactly the stops obtained, each once: the failing registration's own first, then the others in reverse order |
| RuntimeProtocol.SameKeys | runtime.go:269-279 | one pass decides whether two maps have the same names |
| RuntimeSafety.GateKept | runtime.go:227-234 | every step keeps the gate's holder the only one inside a build or publication |
| RuntimeSafety.RevisionKept | runtime.go:239-264 | every step keeps builds between what is current and what the sources hold |
| RuntimeSafety.CurrentNeverGoesBack | runtime.go:253-263 | no step takes a source's published revision back |
| RuntimeSafety.AccountsKept | runtime.go:245-264 | every step keeps failed true to the last event published, that event's snapshot current, and the current snapshot's body, revisions and degraded sources those of the last good build |
| RuntimeSafety.VersionCountsChanges | runtime.go:254-263 | the version grows by one exactly when the body, the revisions or the names of the degraded sources change |
| RuntimeSafety.OpensAtVersionOne | runtime.go:103-104 | the first snapshot is the opener's build, with version one |
| RuntimeSafety.CommitPublishes | runtime.go:245-265 | exactly what a commit publishes: nothing when closed or ended, a failure, a build that differs field by field, or an equal one that ends a failure |
| RuntimeSafety.EndedIsFrozen | runtime.go:245-247 | once the context has ended no step changes the snapshot, publishes or registers a subscriber |
| RuntimeInvalidation.NoticedInvKept | runtime.go:115-154 | every step keeps changed sources noticed or the failure under report |
| RuntimeInvalidation.TokenMoves | runtime.go:88-150 | exactly which steps take the dirty token and which put it |
| RuntimeInvalidation.BuildIsWhatWasRead | xconf.go:303-337 | a finished build has the revisions it read, the baked body and the degraded sources |
| RuntimeInvalidation.ReportingKept | runtime.go:248-261 | a failure stays reported until a build that read everything succeeds |
| RuntimeFeed.FeedKept | runtime.go:210-218 | every step keeps the subscribers' invariant |
| RuntimeFeed.PublishNeverBlocks | runtime.go:210-218 | a publication always has its next step, and never sends to a closed channel |
| RuntimeFeed.PublicationReachesAll | runtime.go:210-218 | a publication ends only when every registered subscriber was sent its event |
| RuntimeFeed.SubscribeDelivers | runtime.go:167-177 | a new subscriber finds the current snapshot in its channel, or a closed channel once the runtime is ending |
| RuntimeFeed.ReceiveInOrder | runtime.go:166-191 | what is received is the newest event sent, of no older version than the last received |
| RuntimeFeed.ClosedIsFrozen | runtime.go:127-133 | once closed, no step changes the snapshot, sends an event or opens a channel |
| RuntimeTheorems.Reachable | runtime.go:60-266 | all invariants hold in every state of every run |
| RuntimeTheorems.BuildsAreSerial | runtime.go:227-234 | at most one actor is between taking and leaving the gate |
| RuntimePublication.LatestKept | runtime.go:227-243 | every step keeps builds holding the latest read of each source they have read |
| RuntimePublication.ShownKept | runtime.go:239-264 | every step keeps the latest reads published, or a build under way with them, or a failure reported |
| RuntimePublication.AttentionLostIff | runtime.go:135-153 | a step leaves a source whose published revision lags unattended exactly when the run loop's build comes to nothing and no token is there or coming |
| RuntimeTheorems.NoLostPublication | runtime.go:115-154 | while open, a watched source ahead of what is published is noticed, or a build that has read it is under way, or a failure is being reported |
| RuntimeTheorems.AttendedUnlessDiscarded | runtime.go:115-154 | in a run where no build of the run loop's comes to nothing, such a source is always noticed or read by the run loop on the way to publishing it |
| RuntimeTheorems.FailureHidesAChange | runtime.go:248-252 | for every watched source and every point where the run loop's build fails or is turned down there is a run that ends at rest with what is published lagging and nothing to make up for it |
| RuntimeTheorems.NoLostInvalidation | runtime.go:115-154 | while open, a watched source set since it was last read is noticed, or a failure is being reported |
| RuntimeTheorems.NoticeLostIff | runtime.go:115-154 | a step loses the notice of an unread change exactly when the run loop's build stops short of the source and no token is there or coming |
| RuntimeTheorems.NoticedUnlessStopped | runtime.go:115-154 | in a run where no such build stops short of it, an unread change is always noticed |
| RuntimeTheorems.RevisionsOnlyGrow | runtime.go:223-266 | over any stretch of a run published revisions and versions only grow |
| RuntimeTheorems.CurrentIsLastGood | runtime.go:245-264 | in every state of a run failed holds exactly when the last event whose publication the run started carried an error, that event's snapshot is current, and once open the current snapshot has the body, the revisions and the degraded sources of the last good build that was not refused |
| RuntimeTheorems.SubscribersAreCurrent | runtime.go:166-218 | one event at most per buffer, always the newest, no closed channel used, and registered subscribers sent what is current, to be received unless it was |
| Memory.Memory.Set | sources.go:68-84 | a layer that cannot be copied changes nothing; any other is kept, stamped if blank, and every watcher is told once |
| Memory.Memory.Read | sources.go:85-92 | fails exactly when the context has ended; otherwise gives the layer last set, which can always be copied |
| Memory.Memory.Watch | sources.go:93-99 | registers under an id no other watcher has had |
| Memory.StampKeepsGiven | sources.go:75-79 | a given revision is kept, a blank one becomes the counter's decimal, and nothing else changes |
| Memory.StampsEqualIff | sources.go:75-78 | layers set without a revision share one only when the 64-bit counter has come round |
| Resilience.Resilient.Read | sources.go:182-206 | a failing read gives the layer of the latest good reading with only Stale set, or an empty one if none was good, and wakes every loop |
| Resilience.GoodIff | sources.go:183-193 | a read error and a layer nested too deep to be copied are failures, and nothing else is |
| Resilience.LastGoodIs | sources.go:189-203 | what is kept is the latest good reading by position |
| Resilience.DelayDoubles | sources.go:254 | after k waits the delay is min(lo*2^k, hi) |
| Resilience.BackoffWithinIffNoOverflow | sources.go:208-211 | the delay stays in [lo, hi] for ever exactly when hi is at most half of the largest int64 |
| Resilience.InvKept | sources.go:182-255 | every step keeps a failing source's parked loops with a wake in their slot |
| Resilience.FailingSourceIsRetried | sources.go:223-255 | in every interleaving a registered loop over a failing source has a step, and each brings it nearer to a notification |
| Resilience.BackoffRestarts | sources.go:227-236 | after recovery or registration the delay is the lower bound again |
| Resilience.HealthyLoopParks | sources.go:235-242 | a healthy source's loop parks without notifying |
| EtcdWatch.InvKept | contrib/sources/etcd/etcd.go:143-184 | every step keeps an open stream behind all unnotified modifications while the loop selects |
| EtcdWatch.NoModificationLost | contrib/sources/etcd/etcd.go:113-188 | in every run a modification is notified, queued in the open stream, or about to be covered by a notification |
| EtcdWatch.NotificationFollows | contrib/sources/etcd/etcd.go:144-167 | through failed reads and registrations each step brings the notification nearer |
| EtcdWatch.DeliveryNotifies | contrib/sources/etcd/etcd.go:173-183 | a response carrying an unnotified modification notifies |
| EtcdWatch.DeliveryNotifiesIff | contrib/sources/etcd/etcd.go:181-183 | a response notifies exactly when it carries an event of the key |
| EtcdWatch.DisruptionsNotify | contrib/sources/etcd/etcd.go:152-180 | ticks, broken streams and attempts to reconnect, failed or not, notify |
| ConsulWatch.Watcher.Query | contrib/sources/consul/consul.go:192-226 | one pass: the cursor, the notification and the backoff |
| ConsulWatch.CursorIsZeroOrLast | contrib/sources/consul/consul.go:184-225 | the cursor is zero or the last successful response's index |
| ConsulWatch.EveryChangeNotifies | contrib/sources/consul/consul.go:213-215 | a response that differs from the last one seen, the baseline included, or follows a failure, notifies |
| ConsulWatch.CursorIsZeroIff | contrib/sources/consul/consul.go:218-225 | the cursor is zero exactly after an odd number of successes each below the one before |
| ConsulWatch.ChangeMissedIff | contrib/sources/consul/consul.go:213-225 | with zero indexes allowed, a response that differs from the last one seen is missed exactly when it follows no failure and goes from zero to one after an even number of falls, or to zero after an odd number |
| ConsulWatch.UnchangedNotifiesIff | contrib/sources/consul/consul.go:213-225 | exactly when an unchanged index notifies: after a failure, after an odd number of falls, or at zero without one |
| ConsulWatch.MissedChanges | contrib/sources/consul/consul.go:184-225 | three changes the watch misses: from a zero baseline to one, from a later zero to one, and to zero after a fall |
| ConsulWatch.TimeoutAcceptedIffItFits | contrib/sources/consul/consul.go:101-107 | the guard accepts exactly the durations whose request limit does not overflow |
| ConsulWatch.Ignored | contrib/sources/consul/consul.go:277-293 | a key is ignored exactly when a pattern matches it or something it is below |
| HttpCache.Source.Read | contrib/sources/http/http.go:59-125 | the result and the new cache for every kind of response |
| HttpCache.CacheStaysSound | contrib/sources/http/http.go:121-123 | the cache is always one successfully decoded response, body and validators together |
| HttpCache.CacheRefinesUncached | contrib/sources/http/http.go:83-124 | against an honest server every conclusive read gives what an uncached source would read at that moment |
| HttpCache.OnlyNotFoundClears | contrib/sources/http/http.go:111-116 | NotFound is given for a 404 alone, and only a 404 clears the cache |
| HttpCache.FailuresByStatus | contrib/sources/http/http.go:98-120 | which error each other failure gives |
| HttpCache.NextRequest | contrib/sources/http/http.go:82-89 | after a decoded document the next request carries its validators, and none with nothing cached |
| YamlWalk.Walker.Walk | contrib/decoders/yaml/yaml.go:42-115 | succeeds exactly when the node stands for a tree within the budget; value, locations, budget spent and visits made |
| YamlWalk.Decode | contrib/decoders/yaml/yaml.go:30-40 | at most 100001 visits on any graph; succeeds exactly when the root stands for an object within the budget |
| YamlLaws.AcceptedIffTrailsFit | contrib/decoders/yaml/yaml.go:42-115 | budget aside, a node is accepted exactly when every way down from it is short enough and ends at an acceptable node |
| YamlLaws.CyclesAreRefused | contrib/decoders/yaml/yaml.go:47-49 | a node on a cycle is never accepted |
| YamlLaws.ScalarIsParsed | contrib/decoders/yaml/yaml.go:102-111 | a plain scalar is the parser's own value, and anything else is refused |
| YamlLaws.ValueMirrorsGraph | contrib/decoders/yaml/yaml.go:52-80 | at every path the value has the shape of the node it leads to, each key once, and there are no other paths |
| YamlLaws.AcceptedIsClonable | contrib/decoders/yaml/yaml.go:47-49 | an accepted value passes the nesting check of a layer |
| YamlLaws.PlacesAreTheNodes | contrib/decoders/yaml/yaml.go:50 | each path is located at the node it leads to, aliases followed |
| YamlLaws.DecodedIsBounded | contrib/decoders/yaml/yaml.go:29-40 | a decoded document has at most 100000 nodes, one location for each and no other, and nests no deeper than a layer may |
| Bindings.Overlaps | contrib/sources/kubernetes/kubernetes.go:215-219 | the loop finds an overlapping pointer exactly when there is one |
| Bindings.OverlapIsComparable | contrib/sources/kubernetes/kubernetes.go:216 | the string test overlaps exactly when one path is at or above the other |
| Bindings.SetPathHolds | contrib/sources/kubernetes/kubernetes.go:225-232 | a value apart from all others joins them; the parent assertion never fails |
| Bindings.Assemble | contrib/sources/kubernetes/kubernetes.go:207-234 | in whatever order bindings come, fails exactly when one is empty or two overlap; otherwise the tree and locations hold exactly the supplied values |
| Bindings.AssemblyUnique | contrib/sources/kubernetes/kubernetes.go:207-234 | only one tree holds given values at given paths |
| Bindings.OrderIsIrrelevant | contrib/sources/kubernetes/kubernetes.go:209-233 | two assemblies of the same bindings give the same tree and locations |
| Bindings.DefaultIsIdentity | contrib/sources/kubernetes/kubernetes.go:200-206 | without bindings of its own a source assembles its entries as they are |

## Left out

- Nested maps and lists are values here: in-place update of shared nested Go maps, and the freshness of clones, are not captured.
- cloneInput keeps only its depth limit; Go reflection, nil maps and slices, and numeric kinds are not modelled.
- An edit's walk to its parent is a recursive function, not the source's loop over a cursor into shared maps.
- The schema engine (compiling, defaults, coercion, validation) is any function from the merged tree to an error, blocking errors, or values with events; in the runtime a build's baked result is an arbitrary number that steps choose.
- The Runtime is a transition system and not a class, because its methods interleave; its sources are read and set atomically under their own mutex, as Memory is, and their content is their revision.
- Real time, fairness and liveness are not modelled: "noticed" means that a token is there, about to be put, or was consumed for the source.
- The changed paths carried by an event are not part of the protocol; `Diffing` covers them.
- AllowPaths rebuilds the layer without Stale, as the code does; nothing is claimed about degraded status through that wrapper.
- Merging is not associative, and nothing here says it is.
- Agreement.FilteredLayerAgrees: speaks of paths of object members; what a list index reaches is in DifferOnlyInLists.
- Agreement.FilteredEditsAgree: speaks of paths of object members; EditedElementMissed shows why.
- RuntimeTheorems.NoLostPublication: says "or a failure is being reported" because the plain statement is false; AttendedUnlessDiscarded and FailureHidesAChange give the exact condition.
- RuntimeTheorems.NoLostInvalidation: says "or a failure is being reported" because the plain statement is false; NoticedUnlessStopped and NoticeLostIff give the exact condition.
- HttpCache.CacheRefinesUncached: assumes the server's side of sections 13.1.2, 13.1.3 and 15.4.5 of RFC 9110; a server that reuses validators for a different body is not covered.
- ConsulWatch.EveryChangeNotifies: assumes positive indexes and identifies content by its index.
- YamlWalk.Walker.Walk: does not say which of several errors a refused document gives, because the budget decides what is met first.
- YamlWalk.Decode: takes one parsed document; the checks for an empty or second document, and parsing itself, are left out.
- YAML scalar resolution (tags, floats, timestamps) is one uninterpreted function whose result must be a plain scalar.
- Bindings.Assemble: does not say which error refused bindings give, because it depends on the iteration order.
- The env source's walk over a schema to derive variable names, and its splitting and JSON decoding; its overlap test and assembly are those of `Bindings`.
- The directory source's file reading and generation retry; its overlap test and assembly are those of `Bindings`.
- The Kubernetes size limit and document mode, and its relist loop, which has the shape of etcd's.
- The consul prefix decoder, vault, nats, s3, file and flag sources, and other thin adapters.
- Revision hashing, error message text, copies of events and errors, and clocks.
