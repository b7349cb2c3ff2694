# Shadow Relay: a Dafny model of the control plane

Shadow Relay imports media sources, stages and approves revisions of them, compiles approved ones into immutable
publications and moves stable pointers. This project models the parts of it where several functions, or a whole run, must
work together, and proves what they promise.

`dafny verify dfyconfig.toml` checks the whole project.

## How the model is built

Every short write of the service runs in one serialized database transaction. Each such transaction is a function from the
rows before it to the rows after it or to its error, and a class method, written step by step as the source is, is proved to
compute that function. What the function means is then said on the rows themselves, without naming it, in the files whose names
end in `Laws` and beside the functions (`FinishMeans`, `ProbeFails`, `ChosenExactly` and the like). Longer operations are runs: a
sequence of events, where an operation reads, works and commits while everything else goes on. Text algorithms are methods with the
loops of the source, proved against functions about which the round trips and invariants are then proved.

| file | what it models |
|---|---|
| `JobQueue.dfy`, `Workers.dfy`, `QueueLaws.dfy` | the leased job queue: the statements on the job table, workers that crash, lose heartbeats or finish late, and what becomes of a job |
| `Sources.dfy`, `ControlPlane.dfy`, `SourceRuns.dfy`, `SourceLaws.dfy`, `SourceFates.dfy`, `Difference.dfy` | sources, revisions, approval, health, the optimistic commits of sync, probe and staging, and what they mean for the rows |
| `Members.dfy`, `Publisher.dfy`, `PublicationRuns.dfy`, `PublicationLaws.dfy` | member order, selection, publication, rollback and withdrawal |
| `Membership.dfy`, `Aggregates.dfy` | the incrementally kept aggregate index and its rebuild |
| `Dedup.dfy`, `GroupBy.dfy`, `Channels.dfy`, `M3u.dfy`, `Playlist.dfy`, `TxtList.dfy` | channel union, overrides, the M3U and TXT printers and the parser that reads them |
| `Jsonc.dfy` | the two-pass stripper of comments and trailing commas |
| `CopyText.dfy`, `Dump.dfy` | PostgreSQL COPY text and the dump reader |
| `Walk.dfy`, `ChapterPages.dfy` | the paginating directory and chapter walks of the plugin runner, and which links stay in a chapter |
| `PluginInstall.dfy`, `Recipes.dfy` | the plugin installer, recipe validation and conversion |
| `Merging.dfy`, `MergeImport.dfy`, `Preparation.dfy` | the preparation of an upload and its merge import across the database and the seed directory |
| `HostGate.dfy` | the per-host slots and circuit breaker |
| `Common.dfy`, `Text.dfy`, `Model.dfy` | shared values and string helpers |

## Assumptions

- Identifiers, lease tokens and version stamps are new when they are made. Hashes are injective: a body is named by its hash, a
  publication signature by what is hashed into it.
- Job bodies end within 95 s of their start and finish statements within 5 s, and workers and database agree on the time.
- What is sealed with this instance's key opens again, and no constraint of the database looks into a sealed text
  (`Preparation.SealOpens`, `MergeImport.BlindToSeals`).
- Fetching, parsing, sampling, compiling, decryption, URL safety, page selection and database constraints are function
  parameters: arbitrary, but the same answer for the same arguments. `PlaylistsHaveHosts` and `HintsAgree` in `SourceRuns.dfy`
  say what two results assume of the parser.
- A rename or removal on disk happens wholly or not at all, and the rename that puts an old directory back succeeds.
- Bytes are written as characters of the same code. Case folding is ASCII. An unknown action cannot be written down.

## What differs from the documentation

- `docs/design.md:53` sets the deletion limit of automatic updates to 30%; `internal/adapter/adapter.go:842` asks for review from
  20% on. `docs/design.md:65` quarantines a source after three failures; `internal/service/service.go:630-640` puts it into
  `avoid`. The model follows the code.
- `RetryJob` can be refused by the unique index on active targets, not only for jobs that have not failed (`JobQueue.Retried`).
- `Approve` accepts a revision that was rejected before; only an invalid one is refused (`Sources.ApprovalError`).
- Accepting a catalog candidate does not run the runtime check that an import runs (`Sources.Admitted`).
- `Install` notices a plain file in the place of a wanted plugin only when it comes to that plugin, in the order of the names, so
  plugins before it may already be replaced: `PluginInstall.LateRefusal` gives such an input, and
  `PluginInstall.StoppedUnchanged` says exactly when nothing has changed.
- A failed import may leave snapshot files behind; they are named by their contents (`MergeImport.Workspace.Import`).

## Model

| member | source | states |
|---|---|---|
| `JobQueue.JobTable.Enqueue` | internal/service/jobs.go:12-43 | inserts unless the target has an active job, and returns the one active job of kind and target; an unknown kind or target changes nothing |
| `JobQueue.JobTable.Retry` | internal/service/jobs.go:66-77 | only a failed job is queued again, with its attempts reset; otherwise the rows stay |
| `JobQueue.JobTable.Poll` | internal/service/jobs.go:203-211 | claims a first claimable row after reclaiming expired leases; when nothing is claimable the reclaim is undone as well |
| `JobQueue.JobTable.Heartbeat` | internal/service/jobs.go:213-226 | renews exactly the lease whose token it carries |
| `JobQueue.JobTable.Finish` | internal/service/jobs.go:243-262 | ends exactly the job whose lease it carries, as succeeded, requeued with backoff, or failed at three attempts |
| `QueueLaws.InsertMeans` | internal/service/jobs.go:24-43 | a new job starts queued, at once, without attempts, lease or error, unless its target has an active one |
| `QueueLaws.RetryMeans` | internal/service/jobs.go:66-77 | a retry is accepted iff the job has failed and its target is free, and starts it afresh |
| `QueueLaws.ReclaimMeans` | internal/service/jobs.go:203-206 | exactly the running rows past their lease lose it: failed from three attempts on, otherwise queued |
| `QueueLaws.ClaimMeans` | internal/service/jobs.go:207-211 | the claimed job is due, none that is due is before it, and it runs with one attempt more for 120 seconds |
| `QueueLaws.RenewMeans` | internal/service/jobs.go:213-226 | a heartbeat sets the lease of its own running job to 120 seconds from now and nothing else |
| `QueueLaws.FinishMeans` | internal/service/jobs.go:243-262 | succeeded iff it was done; failed iff it was not and the target is missing or there were three attempts; otherwise queued, 15 seconds times the attempts squared from now; no error iff done |
| `QueueLaws.SucceededForever` | internal/service/jobs.go:66-262 | in every run a job that has succeeded stays as it is and is never claimed or retried |
| `QueueLaws.SucceededWasDone` | internal/service/jobs.go:229-262 | in every run a job is succeeded only after a body of it ended as done |
| `QueueLaws.FailedForAReason` | internal/service/jobs.go:197-262 | in every run a failed job has three attempts behind it, or a body of it reported its target missing |
| `Workers.QueueKept` | internal/service/jobs.go:24-77 | every step keeps: one active job per kind and target; running iff leased; queued with at most 2 attempts, running with 1 to 3 |
| `Workers.InvInRun` | internal/service/jobs.go:197-262 | the queue invariant, and that every busy worker holds its lease, in every state of every run with crashes, lost heartbeats and late statements |
| `Workers.BusyNotExpired` | internal/service/jobs.go:198-211 | no transaction begun by now can reclaim the job of a worker inside its deadlines |
| `Workers.NoJobRunTwice` | internal/service/jobs.go:197-262 | two live workers never run the same job |
| `Workers.ReclaimHitsOnlyTheDead` | internal/service/jobs.go:203-206 | a row that a poll reclaims belongs to no live worker |
| `Workers.SupersededForever` | internal/service/jobs.go:207-223 | a lease that is lost never comes back |
| `Workers.LostLeaseChangesNothing` | internal/service/jobs.go:223-261 | a heartbeat or late finish with a lost lease leaves the table as it is |
| `Workers.BusyNeverSuperseded` | internal/service/jobs.go:197-262 | a live worker's lease is never lost |
| `Workers.ClaimsAreBounded` | internal/service/jobs.go:203-262 | without enqueues and retries, claims so far plus the attempts still open never exceed the attempts open at the start |
| `Workers.ClaimsOfAJob` | internal/service/jobs.go:203-262 | the same for a single job: it is claimed at most three times less its attempts |
| `Difference.Compare` | internal/adapter/adapter.go:804-844 | the two indexing loops and the counting loops compute added, removed, changed, new hosts and the review verdict |
| `Difference.KeyBalance` | internal/adapter/adapter.go:804-844 | keys after = keys before + added - removed; swapping the arguments swaps added and removed and keeps changed |
| `Difference.UnreviewedIsClose` | internal/adapter/adapter.go:834-843 | no review is asked for iff more than four fifths of the old keys stay and known hosts gain none |
| `Difference.NoDifference` | internal/adapter/adapter.go:804-832 | nothing added, removed or changed iff both sides have the same items under the same keys |
| `Difference.CountsMean` | internal/adapter/adapter.go:813-835 | added, removed and changed count the ids, or names of items without one, that are new, gone, or stand for something else |
| `Difference.DomainsMean` | internal/adapter/adapter.go:819-840 | a host is reported iff the new items use it and the old ones used others but not it |
| `ControlPlane.Plane.Import` | internal/service/service.go:157-236 | a new source starts disabled with one staged revision, or nothing changes |
| `ControlPlane.Plane.EditSource` | internal/service/service.go:279-335 | the edit as a whole or its error; health is forgotten unless held |
| `ControlPlane.Plane.SetHeaders` | internal/service/service.go:765-796 | new credentials, new stamp, health forgotten unless held |
| `ControlPlane.Plane.SourceAction` | internal/service/service.go:336-445 | the eight operator actions, each with its error cases |
| `ControlPlane.Plane.DeleteSource` | internal/service/service.go:446-481 | the source goes with its revisions and credentials |
| `ControlPlane.Plane.SoftDeleteSource` | internal/service/steward.go:77-119 | the source is disabled and archived |
| `ControlPlane.Plane.UndoDeleteSource` | internal/service/steward.go:121-143 | the archive entry goes; the source stays disabled |
| `ControlPlane.Plane.Schedule` | internal/service/jobs.go:116-155 | due rows get their next times and keep their version stamps |
| `ControlPlane.Plane.FinishSync` | internal/service/service.go:505-598 | the commit of a sync: stale, known content, gated update, or staged for review |
| `ControlPlane.Plane.SaveProbe` | internal/service/service.go:606-648 | the commit of a probe: stale, or the health automaton's step |
| `ControlPlane.Plane.FinishStage` | internal/service/content.go:33-73 | the commit of local content: stale, already staged, identical to the active one, or staged |
| `SourceLaws.ProbeIsStale` | internal/service/service.go:606-614 | a probe commits iff the row still has the stamp, the active revision and the runtime it read |
| `SourceLaws.ProbeSucceeds` | internal/service/service.go:615-625 | a success forgets the failures; unless held the source is healthy at 100 iff functional, otherwise degraded at 60 |
| `SourceLaws.ProbeFails` | internal/service/service.go:626-641 | a failure counts; unless held: degraded at 40, failing at 20, and from the third on avoid at 0 with the next probe in 30 minutes |
| `SourceLaws.SyncIsStale` | internal/service/service.go:531-576 | a sync commits iff the row still has the stamp it read and the revisions it compares with exist |
| `SourceLaws.SyncDecides` | internal/service/service.go:552-591 | known content changes nothing; new content becomes active and approved iff the policy is automatic, there is an active revision, no quarantine, a sample that works in full, over 4/5 of the keys stay and no host is new to known ones; otherwise it is staged |
| `SourceLaws.SyncKeeps` | internal/service/service.go:531-597 | whatever a sync decides, settings, health, credentials and visibility stay |
| `SourceLaws.SyncIsNoted` | internal/service/service.go:539-540 | a sync notes when it ran and sets the next one an interval away |
| `SourceLaws.SyncRemembers` | internal/service/service.go:541-546 | the validators of the next fetch are those of the answer, or the old ones where an answer without news names none |
| `SourceLaws.PlanMeans` | internal/service/service.go:482-530 | what is fetched, with which validators, what is parsed, and that only what may go live by itself is sampled |
| `SourceLaws.StageDecides` | internal/service/content.go:33-73 | content that is staged already changes nothing, that of the active revision is refused, any other is staged |
| `SourceLaws.ApprovalAdmits` | internal/service/service.go:344-366 | which revisions approve, approve-enable and rollback accept |
| `SourceLaws.ApprovalMeans` | internal/service/service.go:344-392 | the named revision, or the staged one, becomes active and approved; a rollback pins the policy; approve-enable makes the source visible |
| `SourceLaws.ApprovalHealth` | internal/service/service.go:378-387 | an approval leaves an operator's hold and otherwise makes the source degraded at 60 until it is probed |
| `SourceLaws.RejectMeans` | internal/service/service.go:393-405 | the staged revision becomes rejected and nothing is staged any more |
| `SourceLaws.SwitchMeans` | internal/service/service.go:406-427 | enable, disable, quarantine and release: when each is accepted, and visibility, health, score and failures afterwards |
| `SourceLaws.ImportMeans` | internal/service/service.go:157-236 | a new source is disabled, unmeasured, with one staged revision and the credentials it came with |
| `SourceLaws.EditMeans` | internal/service/service.go:279-335 | an edit cannot change protocol or address, changes only its row, and lets the next probe come at once |
| `SourceLaws.EditedSettingsMean` | internal/service/service.go:295-316 | an edit sets what it names and keeps proxy, mode and media types that it does not name |
| `SourceLaws.ChangeForgetsHealth` | internal/service/service.go:320-324 | new settings and new credentials make health unknown at score 0, unless an operator holds the source |
| `SourceLaws.DeleteMeans` | internal/service/service.go:469-474 | the source goes with its credentials and exactly its own revisions |
| `SourceLaws.ProbeSchedule` | internal/service/jobs.go:116-155 | a visible source is probed again after its interval; one without an interval only when avoided, after 30 minutes |
| `SourceLaws.SyncSchedule` | internal/service/jobs.go:116-155 | a visible source with an address is synced again after its interval, under the automatic and the review policy only |
| `SourceRuns.OptimisticCommitsAreAtomic` | internal/service/service.go:482-667 | in any interleaving a commit whose source still has the stamp it read does what it would have done with all its reads at commit time; any other commit fails and changes nothing |
| `SourceRuns.SchedulerWritesSurvive` | internal/service/jobs.go:116-155 | no commit loses the scheduler's unstamped times, except the one it sets itself |
| `SourceRuns.ApprovalKept` | internal/service/service.go:336-445 | every event keeps: enabled implies an active revision, an active one is the source's own and approved, a staged one its own and staged |
| `SourceFates.ActiveChanges` | internal/service/service.go:577-591 | the active revision changes only to the one that an operator approved or rolled back to, or to content fetched under the automatic policy that was sampled in full working order, keeps over 4/5 of the keys and adds no host |
| `SourceFates.ThreeFailuresAvoid` | internal/service/service.go:616-640 | in every run three failures of an unheld source, with nothing else that touches its health between them, end in avoid at score 0 with the next probe 30 minutes after the last |
| `SourceFates.OneSuccessHeals` | internal/service/service.go:616-628 | in every run one functional success leaves an unheld source healthy at 100 until something else touches its health |
| `SourceRuns.RejectedContentStaysOut` | internal/service/service.go:560-591 | no sync commits a revision with the content of a rejected one |
| `SourceRuns.InvalidContentIsNew` | internal/service/service.go:482-545 | in any run a sync never records as invalid what the source rejected, staged or approved before |
| `SourceRuns.ContentKept` | internal/service/service.go:336-591 | a revision's content never changes while its source exists |
| `SourceRuns.HealthKept` | internal/service/service.go:606-648 | score, health and failures fit each other: 100 healthy, 60 or 40 degraded, 20 failing, 0 avoid, unknown or quarantined |
| `SourceRuns.HeldUntilOperator` | internal/service/service.go:612-636 | only an operator leaves or exchanges quarantined and disabled |
| `SourceRuns.AutomaticStep` | internal/service/service.go:577-589 | one automatic update of a playlist adds no host and keeps more than 80% of the keys |
| `SourceRuns.AutomaticUpdatesStayWithinApprovedHosts` | internal/service/service.go:577-589 | between operator approvals the hosts of the active revision stay within those last approved |
| `SourceRuns.EveryRunIsSafe` | internal/service/service.go:336-667 | approval safety and the health automaton in every reachable state |
| `Members.Sort` | internal/service/publisher.go:132-141 | the member sort yields an ordered permutation, and the same one as `Sorted` |
| `Members.SortedIsOrdered` | internal/service/publisher.go:132-141 | sorting orders strictly and keeps the members, for members without a repeated source |
| `Members.OrderIsCanonical` | internal/service/publisher.go:132-141 | two ordered lists of the same members are the same list |
| `Members.OrderMeans` | internal/service/publisher.go:132-141 | higher priority first, then primaries, backups, auxiliaries, then by id |
| `PublicationRuns.Catalogue.Judge` | internal/service/publisher.go:145-190 | whether one member is selected, with its endpoint, or why not, reason by reason |
| `PublicationRuns.Catalogue.Select` | internal/service/publisher.go:142-205 | the selection loop computes the selected items and the reasons of exclusion |
| `PublicationRuns.Catalogue.Publish` | internal/service/publisher.go:125-256 | a publish, automatic publish or preview decides as specified, and only a decided publication is stored |
| `PublicationRuns.Catalogue.Rollback` | internal/service/publisher.go:600-621 | the pointer moves to an existing publication and the previous one is remembered |
| `PublicationRuns.Catalogue.Withdraw` | internal/service/aggregate.go:450-492 | an empty aggregate gets its empty bundle once |
| `PublicationRuns.Catalogue.SaveSet` | internal/service/publisher.go:25-104 | name, sizes, channel rules, limits, expected stamp and every member with its role are checked before anything is stored; the pointers stay |
| `PublicationRuns.CheckRules` | internal/service/exports.go:185-206 | the loop reports the first fault of the channel rules |
| `PublicationRuns.RulesAccepted` | internal/service/exports.go:185-206 | rules are accepted iff each is readable with a safe logo and no two have the same key |
| `PublicationRuns.SelectedAreEligible` | internal/service/publisher.go:142-205 | whoever is selected is enabled, approved, healthy enough and available |
| `PublicationLaws.ChosenExactly` | internal/service/publisher.go:144-193 | a member is chosen iff its source is enabled, approved, not held back by health, score, mode or media types, has an item left and a healthy runtime if it has one; with its active content and the address of the runtime, or else its own |
| `PublicationLaws.StopsExactly` | internal/service/publisher.go:144-184 | a publication stops iff a row that a member needs is missing or its active revision is not approved |
| `PublicationLaws.RowReasons` | internal/service/publisher.go:149-156 | disabled, no_approved_revision and the four states of health are each given iff they are so |
| `PublicationLaws.MemberReasons` | internal/service/publisher.go:157-163 | below_minimum_health, catalog_only and media_filtered likewise: the last iff the member asks for media types and the source has none of them |
| `PublicationLaws.ExcludedExactly` | internal/service/publisher.go:149-188 | item_filter_empty and runtime_unavailable likewise, and no other reason is recorded |
| `PublicationLaws.PublishesExactly` | internal/service/publisher.go:142-256 | a publication holds a member's source iff the member may publish, at its active revision, and lists it as excluded iff it may not |
| `PublicationRuns.ChoiceIsAPartition` | internal/service/publisher.go:142-205 | selected and excluded ids partition the members, in member order |
| `PublicationRuns.PublicationAccounts` | internal/service/publisher.go:142-256 | a publication gives every member either its approved active revision or a reason, never both; what automation stores keeps to the availability policy, empty bundles apart |
| `PublicationLaws.StoredExactly` | internal/service/publisher.go:228-254 | with something selected: stored iff no preview, compiled and, when automatic, within the limits of the set with an input changed; it holds what was compiled |
| `PublicationLaws.NothingMeans` | internal/service/publisher.go:194-227 | with nothing selected: the empty bundle of an aggregate without members, or what there is, or the refusal with the reasons |
| `PublicationLaws.SignaturesAgree` | internal/service/publisher.go:231-231 | two signatures are equal iff name, description, members, rules, exclusions and what clients notice of each selected source are |
| `PublicationLaws.PublishMeans` | internal/service/publisher.go:243-252 | the stored publication becomes the current one and the one before it the previous; nothing else of the set changes |
| `PublicationLaws.RollbackMeans` | internal/service/publisher.go:600-621 | the publication becomes the current one and the one before it the previous; the current one stays as it is |
| `PublicationLaws.RollbackTwice` | internal/service/publisher.go:600-621 | rolling back to what was current before a rollback undoes it |
| `PublicationLaws.WithdrawMeans` | internal/service/aggregate.go:450-490 | an aggregate without members gets an empty publication with both pointers moved, unless it has it |
| `PublicationLaws.WithdrawnOnce` | internal/service/aggregate.go:459-461 | a second withdrawal changes nothing |
| `PublicationLaws.SaveMeans` | internal/service/publisher.go:25-104 | a set is saved iff draft and members are in order and, if it is there, unchanged since it was read; what is stored is what was sent; pointers and signature stay |
| `PublicationLaws.MembersMeans` | internal/service/publisher.go:63-98 | members are accepted iff no source comes twice and each exists, with role, numbers and media types in range; stored in order with the defaults |
| `PublicationLaws.StripMeans` | internal/service/aggregate.go:493-522 | exactly the aggregates that held the source lose it, its member only, and with it their signature |
| `PublicationLaws.JoinMeans` | internal/service/aggregate.go:298-379 | the aggregate of its type ends with the source as a member of the system's defaults; a new aggregate publishes by itself |
| `PublicationLaws.ChangedMembersRepublish` | internal/service/aggregate.go:298-524 | a set whose members were changed by joining, leaving or clearing is not up to date |
| `PublicationRuns.PointersKept` | internal/service/publisher.go:125-256 | every transaction, publishing, editing a set or moving sources into and out of aggregates, leaves both pointers of each set on its own publications and its members without repetition, and alters no publication |
| `PublicationRuns.PointersInRun` | internal/service/aggregate.go:298-361 | the same over any run |
| `PublicationRuns.OnlyPublishingChanges` | internal/service/publisher.go:119-256 | previews and failed publishes change nothing |
| `PublicationRuns.AtMostOnePublication` | internal/service/publisher.go:206-256 | with something selected and unchanged inputs, any number of automatic publishes and rollbacks create at most one publication |
| `PublicationRuns.RollbackStands` | internal/service/publisher.go:600-621 | after a rollback, automatic publishes with unchanged inputs leave the pointer where it was put |
| `PublicationRuns.PublishUpdates` | internal/service/publisher.go:206-256 | a stored publish leaves the set up to date with its inputs |
| `Aggregates.AggregateSets.Strip` | internal/service/aggregate.go:493-524 | the source leaves every aggregate and nothing else changes |
| `Aggregates.AggregateSets.Upsert` | internal/service/aggregate.go:298-323 | the source leaves every aggregate and joins the one of its type |
| `Aggregates.AggregateSets.Reconcile` | internal/service/aggregate.go:533-587 | the rebuild clears every aggregate and adds the eligible sources one by one |
| `Aggregates.AggregationIsSound` | internal/service/aggregate.go:24-106 | every type has a bucket, and the buckets are exactly the aggregate set ids |
| `Aggregates.ListBuckets` | internal/service/aggregate.go:50-104 | TVBox lists and playlists, guides and Dispatcharr have their own aggregates |
| `Aggregates.BookBuckets` | internal/service/aggregate.go:50-104 | book sources go to novel, Mihon repositories to manga |
| `Aggregates.SoundBuckets` | internal/service/aggregate.go:50-104 | speech and podcasts go to audiobook, music sources to music |
| `Aggregates.FeedBuckets` | internal/service/aggregate.go:50-104 | a feed goes to music iff it is tagged as music, otherwise to rss |
| `Aggregates.ImportMeansSets` | internal/service/service.go:199-214 | a reviewed or trusted manual import is enabled, approved and a member of its aggregate at once; any other touches no set and stays disabled |
| `Aggregates.DeleteMeansSets` | internal/service/service.go:446-481 | a source is deleted iff no set outside the aggregates holds it, and then no set does |
| `Aggregates.ArchiveMeansSets` | internal/service/steward.go:77-119 | a source is archived under the same condition, and then stays, disabled, outside all sets |
| `Aggregates.IndexKept` | internal/service/aggregate.go:277-361 | import, actions, hard and soft delete, undo and manual sets keep the index exactly {(type of s, s) : s enabled}, each once |
| `Aggregates.BackgroundKeepsVisibility` | internal/service/service.go:482-667 | commits, ticks and credential changes never change what is indexed |
| `Aggregates.BackgroundKeepsApproved` | internal/service/service.go:482-667 | nor do they leave anything enabled without an active revision |
| `Aggregates.EditKeepsVisibility` | internal/service/service.go:279-335 | an edit that keeps the media types changes neither |
| `Aggregates.RebuildIsRight` | internal/service/aggregate.go:533-587 | from any membership whatever, the rebuild over a listing of all sources makes the index right, when what is enabled is approved |
| `Aggregates.ApprovedKept` | internal/service/aggregate.go:277-361 | every operation of a run keeps enabled sources approved |
| `Aggregates.RebuildAgrees` | internal/service/publisher.go:132-141 | two right indexes give every bucket the same sorted member list |
| `Aggregates.RunMatchesRebuild` | internal/service/aggregate.go:277-587 | after any run from an approved database, what ReconcileAggregates computes gives every bucket the same sorted member list |
| `Dedup.FirstByKeepsKeys` | internal/service/publisher.go:368-375 | keeping the first per key loses no key and leaves none twice |
| `Dedup.FirstByKeepsFirst` | internal/service/publisher.go:368-375 | the one that stays is the first, in its place |
| `Model.FilteredMeans` | internal/service/publisher.go:275-287 | an item stays iff it has a wanted language and a wanted region |
| `Model.FilteredInOrder` | internal/service/publisher.go:275-287 | in order, each as often as it was there |
| `Channels.FilterItems` | internal/service/publisher.go:275-287 | exactly the items in a wanted language and region, in order |
| `Channels.ChannelOverrides` | internal/service/exports.go:207-238 | each item with the rules applied that match the original item, hidden ones dropped |
| `Channels.LastRuleWins` | internal/service/exports.go:207-238 | field by field the last matching rule that sets it wins; hiding is up to the last matching rule alone; the URL stays |
| `Channels.ApplyingMeans` | internal/service/exports.go:213-219 | a rule applies iff it is for this source or all and names the URL or the id the channel had before any rule |
| `Channels.UnionMeans` | internal/service/publisher.go:305-375 | a channel is in the list only if an unrestricted m3u member has it in a wanted language and region and no rule hides it; every URL that a member brings is there, once |
| `Channels.Union` | internal/service/publisher.go:305-375 | the first channel per URL over all unrestricted m3u members, filtered and overridden, in member order |
| `M3u.ReadExtinf` | internal/adapter/adapter.go:530-560 | the name behind the first bare comma and the attributes before it, later ones winning |
| `M3u.ParseM3U` | internal/adapter/adapter.go:518-609 | the line reader and the screening of URLs and logos, with warnings and errors |
| `M3u.ParsedIsSafe` | internal/adapter/adapter.go:590-608 | whatever the text, every parsed channel has a safe URL and an empty or safe logo |
| `M3u.ScreenMeans` | internal/adapter/adapter.go:588-603 | a channel is dropped iff its URL is empty or unsafe and loses its logo iff that is unsafe, each with its own warning |
| `M3u.AttributesMean` | internal/adapter/adapter.go:543-557 | which attribute sets which field, the last of a name winning |
| `M3u.ParseFailsExactly` | internal/adapter/adapter.go:518-609 | a list is refused iff a comment mentions cookies or authorization, a channel line has no bare comma, or no channel is left |
| `Playlist.WritePlaylist` | internal/service/publisher.go:824-836 | the printing loop writes each URL's first channel |
| `Playlist.HeadRead` | internal/adapter/adapter.go:491-491 | the attribute pattern and the bare-comma scan read a printed EXTINF line back exactly |
| `Playlist.PlaylistRoundTrip` | internal/service/publisher.go:461-468 | parsing iptv/live.m3u with an empty base yields, with no warning, one channel per URL in order, cleaned as `attr` does, with or without a guide header |
| `Playlist.CompiledRoundTrip` | internal/service/publisher.go:305-375 | the same for the channel union of the members: no URL lost, none twice |
| `Playlist.PresentedTwice` | internal/service/publisher.go:293-293 | a second print and parse changes nothing more |
| `GroupBy.GroupingIsStable` | internal/service/exports.go:131-152 | each group's items keep their order |
| `GroupBy.GroupingIsAPermutation` | internal/service/exports.go:131-152 | grouping loses and doubles nothing |
| `TxtList.CollectGroups` | internal/service/exports.go:131-144 | groups in the order of first appearance, each with its items in order |
| `TxtList.WriteTxt` | internal/service/exports.go:131-152 | the printing loops write every section |
| `TxtList.TxtRoundTrip` | internal/service/exports.go:131-152 | parsing live.txt yields, with no warning, every channel once, stably grouped, commas widened, empty groups named, id and logo dropped |
| `Jsonc.LexIsWellFormed` | internal/adapter/adapter.go:140-187 | the lexer takes a text apart into complete tokens |
| `Jsonc.LexFinds` | internal/adapter/adapter.go:140-187 | a well-formed token sequence is what the lexer finds in its text |
| `Jsonc.PassOneBlanksComments` | internal/adapter/adapter.go:141-186 | the first pass replaces each comment by one blank, and fails when the lexer does |
| `Jsonc.PassTwoDropsCommas` | internal/adapter/adapter.go:187-213 | the second pass finds the same string literals and drops exactly the trailing commas |
| `Jsonc.KeepsTokens` | internal/adapter/adapter.go:140-214 | the result lexes into the input's tokens without comments and trailing commas: nothing is glued together |
| `Jsonc.KeepsLiterals` | internal/adapter/adapter.go:139-214 | no comment is left outside literals, and the string literals are those of the input, byte for byte |
| `Jsonc.UnchangedExactly` | internal/adapter/adapter.go:140-214 | a text comes back unchanged iff it has neither comments nor trailing commas |
| `Jsonc.FailsExactly` | internal/adapter/adapter.go:171-180 | it fails iff complete tokens are followed by a block comment that is never closed |
| `Jsonc.JSONC` | internal/adapter/adapter.go:140-214 | the byte loops with quote and escape flags do all of the above |
| `CopyText.DecodeEscape` | internal/transfer/archive.go:296-350 | decoding inverts the server's escaping (PostgreSQL manual, COPY, "Text Format"), for every string |
| `CopyText.OctalRead` | internal/transfer/archive.go:296-350 | a backslash and three octal digits are the byte of that number, whatever follows |
| `CopyText.HexRead` | internal/transfer/archive.go:296-350 | and so are a backslash, an x and two hexadecimal digits |
| `CopyText.FieldRoundTrip` | internal/transfer/archive.go:247-257 | null and strings come back as what they were, the string \N included |
| `CopyText.FailsExactly` | internal/transfer/archive.go:296-350 | decoding fails iff a backslash ends the text or an x has no hexadecimal digit |
| `CopyText.CopyValue` | internal/transfer/archive.go:296-350 | the byte loop, with numeric escapes as long as they fit a byte, decodes as specified |
| `Dump.HeaderRead` | internal/transfer/archive.go:200-222 | a COPY header is read back as its table and columns |
| `Dump.SchemaColumns` | internal/transfer/archive.go:201-237 | the columns of every table of the schema are such that its header can be read |
| `Dump.RowIsNoEnd` | internal/transfer/archive.go:241-247 | no row is ever taken for the end mark |
| `Dump.DumpRoundTrip` | internal/transfer/archive.go:203-294 | parsing a printed dump gives exactly its records, jobs and migrations, whatever other lines stand between the tables |
| `Dump.TextRoundTrip` | internal/transfer/archive.go:203-294 | the same down to the text: no value breaks a line or a field |
| `Dump.DocHolds` | internal/transfer/archive.go:281-287 | every data table of the dump is there with its rows |
| `Dump.DocHoldsOnly` | internal/transfer/archive.go:236-239 | and no other table is |
| `Dump.CutInsideATable` | internal/transfer/archive.go:289-292 | a dump in which an opened table never ends is rejected, whatever came before |
| `Dump.ParsedIsValid` | internal/transfer/archive.go:203-294 | whatever is accepted holds valid JSON in data tables of the schema only, and jobs that are complete with attempts that are a number |
| `Dump.TableOnlyOnce` | internal/transfer/archive.go:216-222 | a second header of a table is rejected, wherever it comes |
| `Dump.ParseCopy` | internal/transfer/archive.go:203-294 | the line loop does all of the above |
| `Walk.FollowIsLinked` | internal/bookplugin/runner.py:137-152 | a complete chain is exactly a path of links that ends within the limit |
| `Walk.CyclesNeverEnd` | internal/bookplugin/runner.py:141-142 | a cycle of links has no complete chain of any length |
| `Walk.DirectoryIsWhole` | internal/bookplugin/runner.py:144-151 | every valid item of every page of the chain is in the directory, and no chapter URL twice |
| `Walk.DirectoryHoldsOnly` | internal/bookplugin/runner.py:144-151 | nothing is in the directory but what a page lists with a title and an address |
| `Walk.FinishedAt` | internal/bookplugin/runner.py:153-157 | the indexes are 1 to n, in order or, when asked, against it |
| `Walk.Toc` | internal/bookplugin/runner.py:137-161 | for any page graph: at most maxPages fetches; returns iff the links end and the directory has 1 to 20000 chapters, and then the whole directory |
| `Walk.ReadChapter` | internal/bookplugin/runner.py:183-210 | at most 20 fetches; returns iff every page of the chain has content and all fit the limit, and then all of it |
| `Walk.ChapterGoesOn` | internal/bookplugin/runner.py:200-208 | the walk goes on exactly to a named page of the same chapter, ends at any other, and fails at a page without text |
| `Walk.ContentsAt` | internal/bookplugin/runner.py:200-210 | the text is that of the pages, page by page |
| `Walk.TitleIsFirst` | internal/bookplugin/runner.py:201-201 | the title is the first that a page gives |
| `ChapterPages.SamePathExactly` | internal/bookplugin/runner.py:167-178 | a path belongs to a chapter iff it is the chapter's own or has one mark, - or _ and a number from two on, between stem and extension |
| `ChapterPages.NoWayBack` | internal/bookplugin/runner.py:167-178 | a later page never takes the first page for its own |
| `ChapterPages.NumberedPages` | internal/bookplugin/runner.py:175-178 | of a page's numbered companions exactly those from two on are pages of its chapter |
| `ChapterPages.PageParameters` | internal/bookplugin/runner.py:179-181 | of the query only page, p and pageNo may differ between pages of a chapter |
| `ChapterPages.NumberedChaptersDiffer` | internal/bookplugin/runner.py:168-177 | chapters told apart by a number are never taken for pages of one another |
| `ChapterPages.TextIsOfOneChapter` | internal/bookplugin/runner.py:163-208 | every page whose text goes into a chapter is by its address a page of that chapter |
| `PluginInstall.PreparedHolds` | internal/bookplugin/sync.go:57-73 | exactly the supported entries are wanted, each once |
| `PluginInstall.PreparedExactly` | internal/bookplugin/sync.go:57-73 | the manifest's entries are prepared iff every supported one has a plain relay name and files and no two share a name |
| `PluginInstall.RefusedExactly` | internal/bookplugin/sync.go:73-98 | refused beforehand iff a wanted name is a link, a plugin without a receipt, or another set's |
| `PluginInstall.TargetHasFiles` | internal/bookplugin/sync.go:99-147 | a wanted id that was not current holds exactly the wanted files and a receipt of the set with their hash; a current one is untouched |
| `PluginInstall.HonestyIsKept` | internal/bookplugin/sync.go:99-158 | if every receipt carries the hash of the files beside it, this stays so, also when the install stops half-way |
| `PluginInstall.WantedFilesAreThere` | internal/bookplugin/sync.go:99-147 | and then every wanted id, kept or new, holds exactly the wanted files |
| `PluginInstall.TargetConverges` | internal/bookplugin/sync.go:99-158 | afterwards the set owns exactly the wanted ids with the wanted hashes, and nobody else's directory has changed |
| `PluginInstall.TargetIsStable` | internal/bookplugin/sync.go:104-109 | an identical rerun is admitted, changes nothing, and reports all wanted ids as unchanged, none installed, none removed |
| `PluginInstall.InstallsCommute` | internal/bookplugin/sync.go:28-159 | two sets without a common id stay admitted and commute |
| `PluginInstall.PluginRoot.Replace` | internal/bookplugin/sync.go:110-147 | a replacement leaves the target wholly old or wholly new |
| `PluginInstall.PluginRoot.Install` | internal/bookplugin/sync.go:28-159 | a refusal changes nothing; success is the target with exact counts; without disk faults a plain file in the way stops the install exactly before the first name it blocks; any later failure leaves every name wholly old, new or removed |
| `PluginInstall.StoppedUnchanged` | internal/bookplugin/sync.go:99-147 | such a stop leaves the tree unchanged iff every wanted id before the blocked one was current |
| `PluginInstall.LateRefusal` | internal/bookplugin/sync.go:136-138 | two wanted ids, the second taken by a plain file: the first is installed all the same |
| `Recipes.Draft.Validate` | internal/bookplugin/model.go:70-174 | filling in the defaults stage by stage and checking accepts exactly the recipes that are valid with their defaults, selectors, templates, domains and form keys included |
| `Recipes.ValidatedStays` | internal/bookplugin/model.go:70-174 | validation is idempotent, defaults included, also under a proxy mode set afterwards |
| `Recipes.ValidatedMeans` | internal/bookplugin/model.go:84-117 | what is stored is what was sent, with 50 pages, 1200 ms, GET and the site's own host where nothing was |
| `Recipes.ValidatedKeepsBounds` | internal/bookplugin/model.go:70-109 | an accepted recipe keeps to all bounds on name, pages, pause, domains and proxy mode |
| `Recipes.ValidatedNamesFields` | internal/bookplugin/model.go:110-112 | and names every field that a book needs |
| `Recipes.OnlySearchAsks` | internal/bookplugin/model.go:113-129 | only the search has an address, a form or POST, and a form only with POST |
| `Recipes.Convert` | internal/bookplugin/convert.go:18-153 | one entry per rule, in order; supported and unsupported add up to the rules |
| `Recipes.RecipeIffUnblocked` | internal/bookplugin/convert.go:133-151 | an entry has a recipe iff nothing blocks it, and then a validated one |
| `Recipes.SupportedIsDeclarative` | internal/bookplugin/convert.go:16-17 | whatever a protocol makes of its rules, a supported one holds no script, no unknown placeholder and no search address outside its domains |
| `Recipes.SupportedIdsDiffer` | internal/bookplugin/convert.go:138-143 | supported rules have distinct identifiers |
| `Recipes.VersionsAgree` | internal/service/hub.go:92-106 | the version written into a plugin is the one the Hub probe computes from the same rules |
| `Merging.MergeIsUnion` | internal/transfer/manager.go:230-268 | merging is the union: what was there stays, what is new comes from the archive, every row is there |
| `Merging.MergesExactly` | internal/transfer/manager.go:230-268 | the merge goes through iff every row is equal to the one that is there or is taken by the database after those before it |
| `Merging.AddedPlusReused` | internal/transfer/manager.go:251-267 | added and reused rows of a table are the archive's rows of it |
| `MergeImport.RewritingEndsJobs` | internal/transfer/manager.go:165-187 | an unfinished job comes over as failed and without its lease; nothing else of the archive changes |
| `MergeImport.PrepareJobs` | internal/transfer/manager.go:165-188 | jobs with repeated or malformed ids or unknown states are refused; the others are rewritten and counted |
| `Preparation.ResealSecrets` | internal/transfer/manager.go:145-164 | secrets that the given key opens are checked and sealed anew; one that it does not open asks for the key |
| `Preparation.Prepare` | internal/transfer/manager.go:53-188 | what an upload becomes: checked, sealed anew, jobs ended; the result is fit for the import |
| `Preparation.AdmittedExactly` | internal/transfer/manager.go:53-188 | an upload is admitted iff no key comes twice, every record and job has a known form, there are at most 100000, and every secret has an owner and headers that may be sent |
| `Preparation.CredentialsAreKept` | internal/transfer/manager.go:145-164 | a secret that the given key opens opens under this instance's key to the same text, for the same owner and time; every other record is unchanged |
| `Preparation.KeyIsRequired` | internal/transfer/manager.go:145-164 | the key is asked for iff the given one fails on a snapshot or a secret |
| `Preparation.CredentialsArrive` | internal/transfer/manager.go:145-300 | after an import the row in the database opens to the uploaded credentials |
| `Preparation.PreparedTwice` | internal/transfer/manager.go:145-188 | one upload prepared twice is admitted both times or neither, and but for the seals the results are one |
| `MergeImport.CountsAddUp` | internal/transfer/manager.go:200-300 | Added + Reused = Counts, table by table |
| `MergeImport.ImportIsQuiet` | internal/transfer/manager.go:222-300 | after an import no job is active and every archive row is there |
| `MergeImport.RowsArrive` | internal/transfer/manager.go:230-300 | every archive row is in the database with its data; a secret with its credentials |
| `MergeImport.OldRowsStay` | internal/transfer/manager.go:230-300 | every old row is as it was, and every new one comes from the archive |
| `MergeImport.SeedsArrive` | internal/transfer/manager.go:302-370 | every seed file of the archive is in the directory, every old one is as it was, and no other is there |
| `MergeImport.RefusedExactly` | internal/transfer/manager.go:222-336 | an import is refused iff a job is active, the rows do not merge, or the seeds clash or have no directory |
| `MergeImport.ImportAgain` | internal/transfer/manager.go:230-300 | the archive prepared anew is admitted again and adds none of its rows: all are reused |
| `MergeImport.PreviewPredicts` | internal/transfer/manager.go:199-300 | two preparations meet the same refusal, or merge with equal counts into rows that compare equal |
| `Preparation.UploadAgain` | internal/transfer/manager.go:199-300 | an upload imported once and uploaded again, every secret sealed anew, adds no row |
| `Preparation.PreviewPredictsApply` | internal/transfer/manager.go:199-370 | the preview of an upload tells what applying the same upload later does, in refusal and in counts, while nothing else changes |
| `MergeImport.DifferenceRefusesImport` | internal/transfer/manager.go:234-329 | one id or one seed file with different contents is enough to refuse, secrets compared decrypted |
| `MergeImport.StageSeeds` | internal/transfer/manager.go:302-336 | the stage is the old seeds and the archive's, or a conflict |
| `MergeImport.Workspace.Import` | internal/transfer/manager.go:199-370 | all or nothing across rows and seeds, also when the commit fails after the swap; a preview changes nothing and reports the counts an apply would |
| `HostGate.InvKept` | internal/fetch/fetch.go:221-257 | every step keeps the slot accounting and the circuit rule, for every host |
| `HostGate.SlotsAreHeld` | internal/fetch/fetch.go:234-256 | in every run the held slots of a host are its requests between acquiring and releasing, never more than two; below three failures the circuit is closed |
| `HostGate.SlotsAreGivenBackOnce` | internal/fetch/fetch.go:215-256 | a slot is given back at most once however often a body is closed, and exactly once when the request is over |
| `HostGate.NoSlotLeaks` | internal/fetch/fetch.go:215-256 | when every request is over, every slot is free |
| `HostGate.AnswerMeans` | internal/fetch/fetch.go:240-250 | a failure counts, from the third in a row on the circuit is open for 60 seconds, any other answer closes it; nothing else touches either |
| `HostGate.EnterMeans` | internal/fetch/fetch.go:222-234 | a request is refused, without a slot, iff the circuit is open |
| `HostGate.StepMeans` | internal/fetch/fetch.go:234-256 | what acquiring, giving up, answering, releasing and closing do to the request and to its host's slots |
| `HostGate.ThirdFailureBlocks` | internal/fetch/fetch.go:223-250 | in every run, after three failed answers of a host a request within the next minute is refused, until the host has answered again |
| `HostGate.SuccessReopens` | internal/fetch/fetch.go:231-250 | in every run, after a good answer the next request waits for a slot at whatever time it comes |
| `HostGate.HostState.Account` | internal/fetch/fetch.go:240-250 | failures are counted, the third in a row opens the circuit for a minute, a success closes it; the slot stays taken |
| `HostGate.HostState.Release` | internal/fetch/fetch.go:251-255 | one slot is given back |
| `HostGate.GatedBody.Close` | internal/fetch/fetch.go:215-221 | the first close gives the slot back, later ones do nothing |

## Left out

- PostgreSQL, HTTP, DNS, TLS, proxies, archives, cryptography and the clock: assumed as said above.
- The tables probes, audits (but for the import's own row), endpoints, bindings, feedback, preferences and candidates: no modelled
  decision reads them.
- `ControlPlane.Plane.SetHeaders`: replacing the credentials of a runtime instead of a source is not modelled.
- `ControlPlane.Plane.DeleteSource`: whether the source is still in a set is an argument; `Aggregates.Do` computes it.
- `ControlPlane.Plane.SoftDeleteSource`: the same.
- `Difference.Compare`: domain changes are a set; the source sorts them for display.
- `Difference.UnreviewedIsClose`: the floating-point test is the exact 5 * removed >= old, which agrees with it up to 20000 items.
- `Compile` beyond the channel list: one shallow branch per other format, with no invariant they share.
- The other branches of `parseJSON`, `parseXML` and `extraJSON`, `checkItems`, and the audio-only reclassification of playlists.
- `M3u.ParseM3U`: one call site of `resolve` and `SafeURL` each, taken as parameters; the round trips assume `resolve` with an empty
  base to be the identity, and URLs that are trimmed, on one line and do not start with a number sign.
- `Dump.ParseCopy`: lines over 32 MiB end the scan in the source; the column list is compared as text, not split first.
- `CopyText.CopyValue`: numeric escapes follow the code, which stops before a number leaves the byte; the server would wrap it.
- `Walk.Toc`: the selectors and the URL check of a page are one answer per page; search and detail are not modelled.
- `ChapterPages.SamePathExactly`: addresses are given taken apart by `urlsplit` and `parse_qs`; which characters are decimal
  digits, with which values, is a parameter.
- `PluginInstall.PluginRoot.Install`: a stale lock is not recovered; a refusal for a link and one for a foreign directory are not
  told apart.
- `Recipes.Convert`: the mapping of each rule protocol to a recipe and its blockers is a parameter, so what is proved holds for
  every mapping.
- `Recipes.Draft.Validate`: the syntax of URLs, the host a search URL resolves to, the names of credentials and the search for
  embedded ones are parameters.
- `Preparation.Prepare`: format and migration names, the decryption of snapshots and the JSON inside a record are given as answers.
- `MergeImport.Workspace.Import`: unreadable existing snapshots and other disk errors are one fault each; transfer of preferences
  and deleted sources is not part of the format.
- `Aggregates.IndexKept`: each operation runs to its end before the next, edits keep the media types, and publishing an aggregate
  after a change of membership is an event of `PublicationRuns.PointersInRun`, not of this run.
- `HostGate.SlotsAreHeld`: nothing is said of requests that were already waiting when the circuit opened; the source lets them go.
- Automatic publication of an empty aggregate is not idempotent in the source, so `PublicationRuns.AtMostOnePublication` asks for
  at least one selected item.
- `JobQueue.JobTable.Poll`: one of several rows with equal times may be claimed; the database decides which.
- The web console, HTTP routing, command-line entry points, connectors, catalogue sync, play resolution and lock recovery.
