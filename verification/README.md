# OpenVibely: verified models of its protocols, stores and text formats

This project models the parts of OpenVibely whose correctness is not visible in any one
function body, and proves what they promise.  Each module follows one component of the
repository; code that updates state in place is a class or a method with loops, proved against
functions on values, and the results about whole runs are lemmas on those functions.

* **Event fan-out.** `ExecutionStreamHub` and `Broadcaster` are the two publish/subscribe engines
  as mutable objects; `ExecutionStreamRuns` and `BroadcasterRuns` cut every call at its lock
  releases and let any number of threads interleave, and `ExecutionStreamEnds` shows that no
  subscriber is left open behind them.
* **Locking.** `SessionLock` is the ref-counted lock per attachment session, over every
  interleaving of its four regions.
* **Hosted sign-in.** `PendingStore` is the bounded store of pending transactions, `PendingRuns`
  what holds over whole runs of it, `PendingOrigins` where what it hands out comes from, and
  `PendingQueue` the per-browser queue it refines.  `SessionTokens` and `Base64Url` are the token
  formats (base64url is section 5 of RFC 4648) with the MAC as a parameter; `RetryDelay` reads a
  Retry-After value.
* **Skill library.** `SkillIndex`, `SkillIndexEntry`, `BundledIndex` and `BundledIndexMerge` are the
  Markdown indexes, `Frontmatter` the skill file format, `FileTree` and `SkillImport` the import
  transaction with rollback, `AgentDeclarations` and `Applier` the reconciliation of agent records
  and hooks, `AppliedRecords` what that leaves in each field, `Slugs` and `SkillKeys` skill keys and
  the migration of legacy skills.
* **Smaller algorithms.** `ToolMemo` (the memo of empty searches), `JsonScanner` (balanced objects;
  strings are those of section 7 of RFC 8259) and `CaptionVisibility` (the out-of-order watermark).

`Text`, `Listing`, `Floats` and `Wrappers` hold the few library facts the others share.  `dafny verify
dfyconfig.toml` checks everything.

## Where a promise has a condition

Several promises hold only under a condition, which is proved exact.

* A user name with a colon signs but never verifies (`SessionTokens.VerifyInvertsSign`).
* Splitting a printed skill file gives something else exactly when a line of the header after the
  first starts with three dashes.  Printing again reproduces the file exactly when the header up to
  such a line does not end in a blank line and a blank line follows the dashes
  (`Frontmatter.PrintsBack`); without such a line only the first part matters.
* Removing an index entry that was just added restores the text exactly when no line of the entry
  looks like a section header; a multi-line name or description can bring one in.
* Importing the same skill twice is importing it once exactly when the first section under its key
  then reads as the entry; for a new key, when no line of the entry looks like a header.
* Importing a new version of a skill replaces the old index entry exactly when the old entry's text
  does not occur earlier, as it does under a deeper heading (`DeeperHeadingIsRewritten`), or both
  entries show the same.  Header-like lines in the new version can hide the difference
  (`HeaderInNewVersionHidesIt`).
* Merging the bundled index keeps every header exactly when the user's file, but for line ends at its
  end, is empty or not blank (`Fits`), or the first new header comes again: a file of white space
  swallows it, and every later merge writes again (`SpaceSwallowsHeader`).  The headers are exactly those of both texts when
  moreover trimming, which knows white space outside ASCII, turns no last line into another header
  (`Tidy`, `MergeCanBringHeader`).
* A rolled-back import is exact unless a file had a setuid, setgid or sticky bit (the backup takes
  over permission bits only) or a failed write of the index left its temporary file behind.
* Applying a declaration a second time is idle exactly when the record's temperature is not NaN,
  which `reflect.DeepEqual` never finds equal to itself.
* A remembered empty search answers like the handler exactly when the handler could read the input:
  the memo trims all Unicode white space, JSON allows four characters of it.
* Migrated legacy skills are lost exactly when the agent is built in, protected under its stored
  record, disabled or archived: a blocked write carries no error and the loop looks at nothing else
  (`DisabledAgentLosesItsSkills`).  Older packages stay exactly when no key given out is that of
  another package, as it can be when the skill directory cannot be listed
  (`UnreadableFolderIsOverwritten`).
* Caption visibility converges exactly when the events with the greatest key agree.

## Model

| member | source | states |
|---|---|---|
| `SessionLock.MutualExclusion` | internal/attachmentsession/lock.go:19-39 | in every interleaving, two callers between acquire and release of one session are the same caller |
| `SessionLock.OneEntryPerSession` | internal/attachmentsession/lock.go:20-38 | all callers of a session, waiting or holding, use the registry's one entry, and refs is their number |
| `SessionLock.RegistryEmptyIffAllReleased` | internal/attachmentsession/lock.go:20-38 | the map holds a session exactly while some caller is active on it, so it is empty once all have released |
| `SessionLock.NeverCrashes` | internal/attachmentsession/lock.go:29-39 | no reachable step unlocks an unlocked mutex, by whatever interleaving |
| `SessionLock.SessionNeverStuck` | internal/attachmentsession/lock.go:19-39 | while callers are active on a session one of them can always take a step |
| `SessionLock.StepKeepsInv` | internal/attachmentsession/lock.go:19-39 | each of the four locked regions keeps the registry invariant |
| `SessionLock.RunKeepsInv` | internal/attachmentsession/lock.go:19-39 | every reachable state satisfies the registry invariant |
| `SessionLock.Registry.Register` | internal/attachmentsession/lock.go:20-28 | creates the entry on demand or joins it, as the step function says |
| `SessionLock.Registry.Deregister` | internal/attachmentsession/lock.go:32-38 | drops one reference and deletes the entry at zero, as the step function says |
| `ExecutionStreamHub.SubscribeKeeps` | internal/events/execution_stream_hub.go:95-115 | subscribing keeps the hub invariant, adds exactly that subscriber below the limit, and touches no other execution |
| `ExecutionStreamHub.UnsubscribeKeeps` | internal/events/execution_stream_hub.go:117-144 | unsubscribing keeps the hub invariant, drops exactly that subscriber, deletes an empty group, and touches no other execution |
| `ExecutionStreamHub.RebuildKeeps` | internal/events/execution_stream_hub.go:62-73 | a rebuilt snapshot lists the members exactly once in any iteration order, and no membership changes |
| `ExecutionStreamHub.DetachKeeps` | internal/events/execution_stream_hub.go:212-228 | closing an execution removes exactly its members from the count, so the clamp at zero never fires |
| `ExecutionStreamHub.TotalMovesWith` | internal/events/execution_stream_hub.go:95-144 | a change to one execution moves the sum of group sizes by that group's change |
| `ExecutionStreamHub.StreamGroup.RebuildSnapshot` | internal/events/execution_stream_hub.go:62-73 | the loop yields every member exactly once and clears the dirty flag |
| `ExecutionStreamHub.StreamHub.Subscribe` | internal/events/execution_stream_hub.go:95-115 | refuses exactly at the limit, changing nothing; otherwise a fresh open channel joins its execution |
| `ExecutionStreamHub.StreamHub.Unsubscribe` | internal/events/execution_stream_hub.go:117-144 | forgets and closes the subscriber only if the execution's current group has it |
| `ExecutionStreamHub.StreamHub.Publish` | internal/events/execution_stream_hub.go:146-189 | offers the event once to every member of its execution and to nobody else; memberships stay |
| `ExecutionStreamHub.StreamHub.Close` | internal/events/execution_stream_hub.go:212-247 | detaches the group and gives each member the terminal event, room permitting, before closing it |
| `ExecutionStreamHub.StreamHub.CloseTerminal` | internal/events/execution_stream_hub.go:191-210 | the statuses that end an execution close it with their event, all others change nothing |
| `ExecutionStreamHub.TerminalEventIs` | internal/events/execution_stream_hub.go:191-210 | completed and cancelled executions end with a done event carrying that status, failed ones with an error event carrying the message, and no others end |
| `ExecutionStreamRuns.StepKeepsInv` | internal/events/execution_stream_hub.go:95-247 | every step of every thread keeps the invariant of hub, channels and program counters |
| `ExecutionStreamRuns.RunKeepsInv` | internal/events/execution_stream_hub.go:95-247 | every reachable state satisfies that invariant |
| `ExecutionStreamRuns.NeverCrashes` | internal/events/execution_stream_hub.go:117-247 | in no interleaving is a closed channel sent to or closed again |
| `ExecutionStreamRuns.BudgetIsExact` | internal/events/execution_stream_hub.go:95-144 | the subscriber count is the sum of the group sizes, at most the limit, no stored group is empty, clean snapshots list their members, and the clamp never fires |
| `ExecutionStreamRuns.FinishedPublishReachedAll` | internal/events/execution_stream_hub.go:146-189 | when a publication ends, every subscriber of its snapshot has the event or is closed |
| `ExecutionStreamRuns.FinishedCloseClosedAll` | internal/events/execution_stream_hub.go:212-247 | when a Close ends, every member of the group it took out is closed |
| `ExecutionStreamRuns.ChannelMoves` | internal/events/execution_stream_hub.go:117-247 | in every reachable state a step changes a subscriber's channel only by an offer that goes in while fewer than 128 events wait and closes it otherwise, by a terminal offer, by unsubscribing, or by taking the oldest event out |
| `ExecutionStreamRuns.ClosedForAReason` | internal/events/execution_stream_hub.go:117-247 | so a channel is closed only by its own unsubscription, the end of its execution, or an offer that met 128 waiting events |
| `ExecutionStreamRuns.NothingAfterClose` | internal/events/execution_stream_hub.go:117-247 | once closed, a channel's history never changes |
| `ExecutionStreamRuns.UnsubscribeIsIdempotent` | internal/events/execution_stream_hub.go:117-144 | unsubscribing again changes nothing, even after the execution was closed and created anew |
| `ExecutionStreamRuns.DetachedGroupIsFrozen` | internal/events/execution_stream_hub.go:212-247 | the group Close ranges over without the lock is never changed by later steps |
| `ExecutionStreamRuns.SoloRunKeepsInv` | internal/events/execution_stream_hub.go:146-247 | with one publisher per execution every reachable state keeps the stream invariant |
| `ExecutionStreamRuns.StreamsHaveNoGap` | internal/events/execution_stream_hub.go:146-247 | with one publisher per execution a channel was given one gap-free stretch of the publications, from the first after its subscription or the one then under way, any terminal event last; what was received and what is buffered is exactly that |
| `ExecutionStreamRuns.OpenStreamsAreComplete` | internal/events/execution_stream_hub.go:146-189 | with no publication under way a subscriber still open was given every publication since it subscribed, up to the latest, the first included |
| `ExecutionStreamEnds.NobodyIsLeftBehind` | internal/events/execution_stream_hub.go:117-144 | in every reachable state an open channel belongs to a member of its execution's group or some caller has yet to close it and can do so in its next step, so once calls have returned whoever is no member is closed |
| `ExecutionStreamEnds.CloseNamesExecution` | internal/events/execution_stream_hub.go:216-218 | a terminal event without an execution gets the one it ends |
| `Broadcaster.WithSubKeeps` | internal/events/broadcaster_core.go:63-72 | a new subscriber leaves all three maps describing one relation |
| `Broadcaster.WithoutSubKeeps` | internal/events/broadcaster_core.go:95-106 | so does removing one, with its scope deleted when empty |
| `Broadcaster.TargetsAreAudience` | internal/events/broadcaster_core.go:124-153 | the two snapshots together list each live global or same-scope subscriber exactly once, and nobody else |
| `Broadcaster.Broadcaster.SubscribeScoped` | internal/events/broadcaster_core.go:55-73 | refuses exactly at the limit; otherwise a fresh open channel joins its scope |
| `Broadcaster.Broadcaster.RebuildScopedSnapshotLocked` | internal/events/broadcaster_core.go:75-91 | the scope's snapshot lists its members, or is gone with the last of them |
| `Broadcaster.Broadcaster.Unsubscribe` | internal/events/broadcaster_core.go:94-113 | a live subscriber goes and its channel is closed; for one already gone nothing changes |
| `Broadcaster.Broadcaster.PublishScoped` | internal/events/broadcaster_core.go:120-153 | offers once to each live subscriber concerned, to nobody else, and counts exactly those offers |
| `BroadcasterRuns.StepKeepsInv` | internal/events/broadcaster_core.go:55-153 | with publishers overlapping under the read lock, every step keeps the invariant |
| `BroadcasterRuns.RunKeepsInv` | internal/events/broadcaster_core.go:55-153 | every reachable state satisfies it |
| `BroadcasterRuns.NeverCrashes` | internal/events/broadcaster_core.go:94-153 | no send meets a closed channel and none is closed twice |
| `BroadcasterRuns.FinishedPublicationReachedAudience` | internal/events/broadcaster_core.go:120-153 | a finished publication was offered exactly once to each subscriber it concerned and to nobody else |
| `BroadcasterRuns.ChannelMoves` | internal/events/broadcaster_core.go:94-153 | a step changes a subscriber's channel only by an offer, delivered exactly while there is room and dropped otherwise, by unsubscribing, or by taking the oldest event out |
| `BroadcasterRuns.HistoryIsSubsequence` | internal/events/broadcaster_core.go:131-151 | what a channel held is a subsequence of its offers in the order they were made to it, each offer being of a publication that concerned its subscriber |
| `BroadcasterRuns.SequentialHistoryIsOrdered` | internal/events/broadcaster_core.go:118-153 | when publications do not overlap, every subscriber was offered them in the order in which they were made |
| `BroadcasterRuns.SequentialHistoryIsSubsequence` | internal/events/broadcaster_core.go:118-153 | then what a channel held is a subsequence of the publications that concerned its subscriber, in the order they were made, and between publications all of these were offered |
| `BroadcasterRuns.AttemptsAreExact` | internal/events/broadcaster_core.go:125-129 | the attempt counter is the number of subscribers concerned, summed over all publications |
| `PendingStore.AdmitOK` | internal/auth/hosted_sso.go:463-520 | admission keeps the caps of 4 per browser and 256 in all and unique sequence numbers |
| `PendingStore.RemovalOK` | internal/auth/hosted_sso.go:522-541 | taking out any transactions keeps them |
| `PendingStore.OldestExists` | internal/auth/hosted_sso.go:488-499 | a browser with transactions has one that is earliest by time and sequence |
| `PendingStore.OldestIsUnique` | internal/auth/hosted_sso.go:488-499 | eviction takes exactly that one |
| `PendingStore.EvictionMakesRoom` | internal/auth/hosted_sso.go:488-499 | eviction leaves the browser one transaction fewer and the others untouched |
| `PendingStore.CountsAfterRemoval` | internal/auth/hosted_sso.go:621-634 | the count index stays exactly the per-browser number of entries when one goes |
| `PendingStore.CountsAfterEntry` | internal/auth/hosted_sso.go:511-512 | and when one is added |
| `PendingStore.Store.Admit` | internal/auth/hosted_sso.go:463-520 | the method is the specified admission: every error path changes nothing but pruning |
| `PendingStore.Store.Consume` | internal/auth/hosted_sso.go:522-535 | hands out a transaction to its own browser before it expires, and removes it |
| `PendingStore.Store.Discard` | internal/auth/hosted_sso.go:537-541 | removes the transaction if it is there |
| `PendingStore.Store.Prune` | internal/auth/hosted_sso.go:550-556 | removes what has expired and forgets starts a minute old |
| `PendingStore.Store.PruneLocked` | internal/auth/hosted_sso.go:602-608 | exactly the expired transactions go, the index with them |
| `PendingStore.Store.PruneRateLocked` | internal/auth/hosted_sso.go:610-619 | exactly the starts older than the window go |
| `PendingStore.Store.Shutdown` | internal/auth/hosted_sso.go:579-588 | closing empties the store and its index |
| `PendingRuns.TickKeepsRate` | internal/auth/hosted_sso.go:463-520 | under a non-decreasing clock each operation keeps the recorded starts sorted and complete for the window |
| `PendingRuns.RunKeepsRate` | internal/auth/hosted_sso.go:463-520 | so does every run |
| `PendingRuns.AtMostSixtyPerMinute` | internal/auth/hosted_sso.go:474-477 | over a whole run every half-open 60-second window holds at most 60 accepted starts, those since consumed or pruned included |
| `PendingRuns.EndsForOneReason` | internal/auth/hosted_sso.go:463-541 | a pending transaction stops being pending exactly when one of the five reasons applies to the operation |
| `PendingRuns.NeverReturns` | internal/auth/hosted_sso.go:500-511 | once gone it is never pending again |
| `PendingRuns.LeavesExactlyOnce` | internal/auth/hosted_sso.go:463-541 | over any run an admitted transaction has ended exactly once or is still pending |
| `PendingRuns.ConsumeHandsOutWhatItEnds` | internal/auth/hosted_sso.go:522-535 | Consume returns a transaction exactly when it ends that one |
| `PendingOrigins.RecentStartsAre` | internal/auth/hosted_sso.go:610-619 | the starts that count against the rate are those of the last 60 seconds |
| `PendingOrigins.AdmittedIff` | internal/auth/hosted_sso.go:463-487 | a start is accepted exactly when browser, state and verifier are canonical, the store is open, fewer than 60 starts are recent, fewer than 256 transactions are pending or the browser has 4, and the state is not pending |
| `PendingOrigins.AdmittedCarries` | internal/auth/hosted_sso.go:488-520 | what is admitted carries the arguments and the generated values of that call, lasts ten minutes and is pending; nothing else comes in and no other browser loses anything before its time |
| `PendingOrigins.PendingWasAdmitted` | internal/auth/hosted_sso.go:463-541 | over any run, what is pending was admitted by one earlier call with these very values and has been pending since |
| `PendingOrigins.ConsumedWasAdmitted` | internal/auth/hosted_sso.go:522-535 | over any run, what a consumption hands out was admitted less than ten minutes before by that browser under that state, with the verifier and the destination of that very admission |
| `PendingQueue.StoreIsQueue` | internal/auth/hosted_sso.go:463-541 | under a non-decreasing clock every operation on the store is the same operation on one simple queue, results included |
| `PendingQueue.RunIsQueue` | internal/auth/hosted_sso.go:463-541 | so is every run |
| `PendingQueue.CountsAreLengths` | internal/auth/hosted_sso.go:465-520 | per-browser counts are the lengths of that browser's part of the queue |
| `PendingQueue.EvictionDropsHead` | internal/auth/hosted_sso.go:488-499 | the search for the oldest drops the head of the browser's part |
| `PendingQueue.AdmitIsFirstInFirstOut` | internal/auth/hosted_sso.go:463-520 | an admission appends to its browser's part, dropping the head of a full one, and leaves the others alone |
| `Base64Url.DecodeEncode` | internal/auth/hosted_sso.go:271-277 | decoding an encoded byte string gives it back |
| `Base64Url.EncodedBits` | internal/auth/auth.go:98 | three bytes are encoded as the four letters of their 24 bits, high bits first |
| `Base64Url.LetterIs` | internal/auth/auth.go:98 | the letters are those of the URL-safe alphabet in their order (section 5 of RFC 4648) |
| `Base64Url.DecodeCanonicalIffEncoded` | internal/auth/hosted_sso.go:889-898 | the canonical decoder accepts exactly the encodings |
| `Base64Url.IsCanonical32Iff` | internal/auth/hosted_sso.go:881-887 | the check accepts exactly the encodings of 32-byte strings |
| `SessionTokens.VerifyInvertsSign` | internal/auth/auth.go:90-155 | a token is signed whenever name and secret are not blank; a name without a colon comes back exactly until the moment of signing plus the lifetime, a day where none is configured, and is expired from then on; a name with a colon never verifies |
| `SessionTokens.AcceptedIff` | internal/auth/auth.go:101-155 | any token is accepted for a user exactly when it carries a payload with its own MAC under the secret, and the payload names, but for white space, that user and a deadline not yet reached, in nanoseconds or in the old format in seconds |
| `SessionTokens.ExpiredIff` | internal/auth/auth.go:101-148 | any token is reported expired exactly when it carries a payload with its own MAC and a deadline that was reached |
| `SessionTokens.ExpiryIsFinal` | internal/auth/auth.go:101-155 | any token that is expired stays expired and one that is accepted was accepted before |
| `SessionTokens.VerifyBindingIffSigned` | internal/auth/hosted_sso.go:271-296 | a browser binding verifies to a nonce exactly when it is the signature of that nonce |
| `SessionTokens.BindingIs` | internal/auth/hosted_sso.go:271-304 | a value verifies to a nonce exactly if it is that nonce with its MAC, taken over the domain and the nonce |
| `RetryDelay.RetryDelay` | internal/auth/hosted_sso.go:935-956 | the scan gives the decimal value clamped to one to three seconds, for values of any length |
| `SkillIndex.SplitSkillIndexSections` | internal/agentlibrary/importer.go:1757-1773 | each section's text runs from its header line up to the next |
| `SkillIndex.SectionsCoverText` | internal/agentlibrary/importer.go:1757-1773 | the sections joined again are the text from the first header line on |
| `SkillIndex.SectionHandle` | internal/agentlibrary/importer.go:1775-1783 | the handle of a text's first header line, or none |
| `SkillIndex.FindWindow` | internal/agentlibrary/importer.go:1638-1645 | searching all lines for the section's text lands on the section itself |
| `SkillIndex.RemoveSkillIndexSection` | internal/agentlibrary/importer.go:1626-1662 | the code removes the lines of the first section with the handle and one blank line before it |
| `SkillIndex.RemovalDropsFirstSection` | internal/agentlibrary/importer.go:1626-1662 | the list of handles loses exactly its first occurrence of the handle; without one the text is unchanged |
| `SkillIndexEntry.AppendThenRemove` | internal/agentlibrary/importer.go:1724-1755 | removing a just-added entry gives the body with its trailing newlines replaced by one exactly when no line of the entry looks like a header |
| `SkillIndexEntry.RemoveAfterAppend` | internal/agentlibrary/importer.go:1626-1662 | what is left otherwise: the entry's lines from its first header-like line on |
| `SkillIndexEntry.OneLineIsHeaderFree` | internal/agentlibrary/importer.go:1747-1755 | a one-line name and description never look like a header |
| `SkillIndexEntry.AddedText` | internal/agentlibrary/importer.go:1738-1755 | the first import adds the key as header and under it a link with the name, and the description where there is one, to the trimmed text or to the title of a blank one |
| `SkillIndexEntry.SecondImportIsIdleIff` | internal/agentlibrary/importer.go:1724-1745 | whatever the index held, hand-written sections included, importing an entry twice is importing it once exactly when the first section under its key then reads as the entry |
| `SkillIndexEntry.AppendIsIdempotent` | internal/agentlibrary/importer.go:1724-1745 | where there was no section under the key, that is so exactly when no line of the entry looks like a header |
| `SkillIndexEntry.NewVersionReplacesOld` | internal/agentlibrary/importer.go:1729-1736 | importing a new version over a section this code added leaves the index as if only it had been imported when the old section's text occurs no earlier or both sections are the same, and, for a new version without header-like lines, only then |
| `SkillIndexEntry.HeaderInNewVersionHidesIt` | internal/agentlibrary/importer.go:1735 | with header-like lines in the new version, here the old section once more, the two can agree although another occurrence was rewritten |
| `SkillIndexEntry.DeeperHeadingIsRewritten` | internal/agentlibrary/importer.go:1735 | under a deeper heading the same text is no section but is rewritten, and the section keeps the old version |
| `Frontmatter.SplitInvertsRender` | internal/agentlibrary/declaration.go:141-157 | splitting a printed file gives the header and the body up to one leading newline exactly when no line of the header after its first starts with three dashes |
| `Frontmatter.RenderIsFixedPoint` | internal/agentlibrary/importer.go:1277-1309 | printing what was split gives the same file exactly when the header, up to its first fence if it holds one, does not end in a blank line, and a blank line follows such a fence |
| `Frontmatter.SplitIs` | internal/agentlibrary/declaration.go:141-157 | any file has a header exactly when it begins with three dashes and a fence follows; header and body are what stands before and behind the first fence |
| `BundledIndex.MergeStandaloneSkillsIndex` | internal/builtinskills/builtinskills.go:126-156 | the loop writes the specified merge, and nothing when no section is missing |
| `BundledIndexMerge.SectionsOfIndex` | internal/builtinskills/builtinskills.go:163-179 | every section's text starts with its one header line, and the sections' headers are all headers of the index, in order |
| `BundledIndexMerge.SectionsCoverIndex` | internal/builtinskills/builtinskills.go:163-179 | an index is a part without headers followed by its sections, nothing lost or repeated |
| `BundledIndexMerge.HeadersOfTrimmed` | internal/builtinskills/builtinskills.go:144 | a trimmed section shows its header and, if trimming turns its last line into a header, that one |
| `BundledIndexMerge.ExistingIsPrefix` | internal/builtinskills/builtinskills.go:149-155 | the existing text without trailing line ends is a prefix of the result |
| `BundledIndexMerge.MissingSectionsAreThere` | internal/builtinskills/builtinskills.go:139-155 | every missing bundled section stands in the result with its whole trimmed text |
| `BundledIndexMerge.MergeHoldsAllIff` | internal/builtinskills/builtinskills.go:137-155 | for any two texts the result has every header of both exactly when the old text, but for its last line ends, is empty or not blank, or the header it swallows comes again |
| `BundledIndexMerge.MergeIsUnion` | internal/builtinskills/builtinskills.go:137-155 | the result's headers are the union of both exactly when moreover trimming turns no last line of a missing section into a header foreign to both |
| `BundledIndexMerge.SecondMergeIsIdle` | internal/builtinskills/builtinskills.go:126-155 | a second merge writes nothing exactly when the first left every header of both |
| `BundledIndexMerge.NoHeaderIsLost` | internal/builtinskills/builtinskills.go:137-155 | no existing header is ever lost, and only bundled ones and those that trimming brings in are new |
| `BundledIndexMerge.UnchangedIffCovered` | internal/builtinskills/builtinskills.go:138-148 | nothing is written exactly when every bundled header is already there |
| `BundledIndexMerge.FirstMergeTakesAll` | internal/builtinskills/builtinskills.go:130-136 | without an index the bundled one is taken whole, and merging again changes nothing |
| `BundledIndexMerge.SpaceSwallowsHeader` | internal/builtinskills/builtinskills.go:149-155 | an index holding one space loses the first bundled header, and every later merge writes again unless that header comes twice |
| `BundledIndexMerge.MergeCanBringHeader` | internal/builtinskills/builtinskills.go:139-155 | a no-break space behind a header-like line makes the merge write a header that neither text had |
| `FileTree.CopyIsIdentityIff` | internal/agentlibrary/importer.go:367-415 | a copy equals the tree exactly when nothing in it has a special mode bit |
| `FileTree.CopyableIff` | internal/agentlibrary/importer.go:367-415 | a tree cannot be copied exactly when something other than a file, a directory or a link stands in it |
| `FileTree.CopyOfCopy` | internal/agentlibrary/importer.go:302-338 | copying a copy gives the same again |
| `FileTree.ReadWritten` | internal/util/atomic_write.go:13-50 | after a write the file reads as written and every other file as before |
| `SkillImport.Library.ImportSkillPackage` | internal/agentlibrary/importer.go:202-242 | refused exactly when the snapshot cannot be taken; imported exactly when otherwise nothing is in the way and every step that writes succeeds, and then package and index are written and nothing else; else rolled back to the stated tree exactly when every undoing step succeeds and a created directory holds no leftover; even a failed rollback touches no other entry |
| `SkillImport.Library.WriteAll` | internal/agentlibrary/importer.go:706-743 | up to a failing step only the package, the index and new temporary files are touched |
| `SkillImport.Library.Restore` | internal/agentlibrary/importer.go:346-360 | if every part succeeds, package and index are their backups and a skills directory that did not exist is gone |
| `SkillImport.RollbackIsExactIff` | internal/agentlibrary/importer.go:219-224 | the rolled-back tree is the original exactly when package and index had no special bits and no temporary file was left |
| `SkillImport.RollbackKeepsOthers` | internal/agentlibrary/importer.go:346-360 | every other entry is as it was, and nothing new is there but leftovers |
| `SkillImport.ImportedPackageReads` | internal/agentlibrary/importer.go:960-987 | after success each written path reads as last requested and all others as before |
| `SkillImport.ImportedModes` | internal/agentlibrary/importer.go:965-987 | afterwards scripts can be executed, every other file written keeps its permission bits or gets 0644, and all others keep their mode |
| `SkillImport.IndexNodeIs` | internal/agentlibrary/importer.go:1486-1514 | the index then reads as adding the entry says, and is not touched where that changes white space only |
| `AgentDeclarations.MergeIsIdempotent` | internal/agentlibrary/applier.go:437-463 | merging a declared skill twice is merging it once, and skills of other names keep place and content |
| `AgentDeclarations.MergedSkillIs` | internal/agentlibrary/applier.go:437-463 | the declared skill stands where the first of its name stood or at the end, and takes over from it what the declaration leaves out |
| `AgentDeclarations.NonBlankAre` | internal/agentlibrary/applier.go:530-543 | lists are read entry by entry, blank entries dropped and the others trimmed |
| `AgentDeclarations.TargetIsFixed` | internal/agentlibrary/applier.go:280-377 | the record a declaration asks for, once stored, is what it asks for again |
| `AgentDeclarations.StoredTargetIsUnchangedIff` | internal/agentlibrary/applier.go:144-155 | it counts as unchanged exactly when its temperature is a number |
| `Applier.ImportHooks` | internal/agentlibrary/applier.go:379-419 | the loop over the hook map yields every declared hook once, in some order |
| `Applier.ProtectedIsNeverWritten` | internal/agentlibrary/applier.go:68-77 | a protected agent, or an invalid declaration, is refused with both stores unchanged, and no other call changes a protected record |
| `Applier.SecondApplicationIsIdleIff` | internal/agentlibrary/applier.go:54-139 | a second application, in any order of hooks, reports no change and writes nothing exactly when the temperature is a number |
| `Applier.OrderDoesNotMatter` | internal/agentlibrary/applier.go:107-136 | the order of hooks decides neither what the store then gives for any slot and skill nor the set of changes |
| `Applier.UndeclaredHooksStay` | internal/agentlibrary/applier.go:103-136 | hooks not declared, second hooks of a pair, other agents' hooks and other agents' records stay as they were |
| `Applier.WantedAreThere` | internal/agentlibrary/applier.go:113-135 | afterwards the first hook of every declared pair is configured as declared |
| `Applier.RowsAfterAll` | internal/agentlibrary/applier.go:113-135 | IDs and pairs of existing hooks stay, and every new hook is a declared one |
| `Applier.RepoApplier.ApplyDeclaration` | internal/agentlibrary/applier.go:54-142 | the method on the two stores is the specified reconciliation for the order it happens to take |
| `AppliedRecords.RefusedIff` | internal/agentlibrary/declaration.go:179-227 | a call is invalid exactly for one of eight faults of the declaration, otherwise protected exactly for a protected record, and then writes nothing |
| `AppliedRecords.RecordIdentity` | internal/agentlibrary/applier.go:80-101 | a new record gets the next ID and the time of the call, an old one keeps both, and no other record changes |
| `AppliedRecords.RootTexts` | internal/agentlibrary/applier.go:280-318 | name, description, prompt, model, key, scope and project of the record stored by a root declaration, from the declaration or, where it leaves them out, the old record |
| `AppliedRecords.RootSettings` | internal/agentlibrary/applier.go:290-346 | likewise its tools, plugins, permissions, references and model defaults |
| `AppliedRecords.RootServersAndTools` | internal/agentlibrary/applier.go:296-334 | likewise its servers, known by name alone, and its tool configuration with trimmed directories |
| `AppliedRecords.RootState` | internal/agentlibrary/applier.go:80-98 | it is enabled unless the declaration says no or the agent was archived; skills, owner and status of the old record stay, and what no declaration expresses is cleared |
| `AppliedRecords.SkillKeepsRecord` | internal/agentlibrary/applier.go:353-358 | a skill declaration changes the skills of an existing record, fills in an owner, and nothing else |
| `AppliedRecords.SkillMakesRecord` | internal/agentlibrary/applier.go:359-376 | a record it creates holds the agent's texts, that one skill and defaults |
| `AppliedRecords.DeclaredHookStands` | internal/agentlibrary/applier.go:103-136 | afterwards every declared hook stands with the record, first of its slot and skill, with each field as declared |
| `AppliedRecords.SkillTouchesNoHook` | internal/agentlibrary/applier.go:379-382 | a skill declaration touches no hook |
| `AppliedRecords.HookChangesAre` | internal/agentlibrary/applier.go:113-135 | hooks are reported created exactly where slot and skill had none, and updated exactly where the first was configured otherwise |
| `AppliedRecords.AgentChangesAre` | internal/agentlibrary/applier.go:80-101 | the agent is reported created exactly where it had no record, and updated exactly where the record changes or its temperature is no number |
| `Slugs.SlugifySkillName` | internal/agentlibrary/importer.go:566-591 | the loop joins the maximal runs of lower-case letters and digits by single underscores, or gives "skill" |
| `Slugs.DerivedKeyIsSlug` | internal/agentlibrary/importer.go:566-591 | every derived key is a valid slug |
| `Slugs.DerivedKeyIsFixed` | internal/agentlibrary/importer.go:566-591 | deriving a key from a derived key gives it back |
| `Slugs.WordsOfParts` | internal/agentlibrary/importer.go:566-591 | the words a key is made of are those of the parts between characters other than lower-case letters and digits |
| `Slugs.IsSlugIff` | internal/agentlibrary/declaration.go:229-248 | slugs are made of ASCII letters, digits, dashes, underscores and dots, and begin with a letter or digit |
| `Slugs.TitleOfParts` | internal/agentlibrary/importer.go:1794-1803 | the display name of a slug is that of its parts with blanks between those that are not empty |
| `Slugs.TitleOfPart` | internal/agentlibrary/importer.go:1798-1801 | a part is shown with its first letter raised and the rest as it is |
| `SkillKeys.UniqueAgentSkillKey` | internal/handler/agent_skills_handler.go:700-713 | the loop ends for every finite set of used keys, with the stem or its least unused number |
| `SkillKeys.Pigeonhole` | internal/handler/agent_skills_handler.go:707-712 | distinct numbers give distinct candidates, so as many keys are used as numbers were tried |
| `SkillKeys.FreshKeyIsUnique` | internal/handler/agent_skills_handler.go:700-713 | the fresh key is determined by stem and used keys, and is unused |
| `SkillKeys.FreshKeyIff` | internal/handler/agent_skills_handler.go:700-713 | the fresh key is the name where that is free, else the name with the least number from two on that is free |
| `SkillKeys.KeysAreNew` | internal/handler/agent_skills_handler.go:642-651 | all keys given out are slugs, pairwise distinct, and none names an existing directory |
| `SkillKeys.ConvertibleIff` | internal/handler/agent_skills_handler.go:643-648 | a legacy skill is converted exactly when its name and its content hold something besides white space |
| `SkillKeys.ConvertedIs` | internal/handler/agent_skills_handler.go:643-666 | its package has its trimmed name, description and content, the tools named before the content where it has any |
| `SkillKeys.OwnedSkillIsProtectedIff` | internal/agentlibrary/applier.go:217-275 | the write of a skill owned by an agent is blocked exactly when the agent is built in, protected, disabled or archived |
| `SkillKeys.MigrateLegacyAgentSkills` | internal/handler/agent_skills_handler.go:611-681 | a protected agent is skipped; otherwise each convertible skill gets the first free key for its name and its write the fate the guard and its faults decide; a failed write leaves the record alone, otherwise it keeps exactly the other skills |
| `SkillKeys.NothingLostIffUnguarded` | internal/handler/agent_skills_handler.go:642-681 | without a failed write and with a directory that could be read, every legacy skill is kept or stands written under its key exactly when there is none to convert or the agent is not built in, protected, disabled or archived; if it is, all to convert are lost |
| `SkillKeys.DisabledAgentLosesItsSkills` | internal/handler/agent_skills_handler.go:667-675 | a disabled agent loses every skill there is to convert, and no package is written |
| `SkillKeys.EarlierPackagesStayIff` | internal/handler/agent_skills_handler.go:649-669 | the packages from before are all unchanged exactly when no key given out is that of a different package with a write that lands, which a directory that could be read rules out |
| `SkillKeys.UnreadableFolderIsOverwritten` | internal/handler/agent_skills_handler.go:688-691 | when the directory cannot be read, a different package that has the first skill's name is overwritten by it |
| `ToolMemo.CanonicalIsIdempotent` | internal/chatcontrol/executor.go:114-163 | canonicalising a request twice is canonicalising it once |
| `ToolMemo.CanonicalIs` | internal/chatcontrol/executor.go:132-157 | texts are trimmed, filters lower-cased too, the limit is 20 where none is given and at most 50, and the offset is never negative |
| `ToolMemo.KeyIsIdempotent` | internal/chatcontrol/executor.go:114-163 | the key of a key is the key |
| `ToolMemo.SameKeyIff` | internal/chatcontrol/executor.go:114-163 | inputs share a key exactly when their requests agree in canonical form, or neither can be read and their texts agree |
| `ToolMemo.SameKeySamePage` | internal/service/task_discovery.go:132-213 | readable inputs with one key get one page from the handler in any store |
| `ToolMemo.ListTasksIs` | internal/service/task_discovery.go:143-199 | the search asks the store for the canonical request, refuses exactly an unknown filter or a failing store, and reports more exactly while the page does not reach the total |
| `ToolMemo.JsonPaddedIff` | internal/service/task_discovery.go:139-141 | the handler reads an input exactly when only the white space of JSON stands around it (section 2 of RFC 8259) |
| `ToolMemo.IsEmptyExhaustedIff` | internal/chatcontrol/executor.go:165-177 | an answer is remembered exactly when it is in order and says that there are no tasks, in all and on this page |
| `ToolMemo.MemoHoldsLastWord` | internal/chatcontrol/executor.go:84-110 | the memo answers for a key exactly when the last successful search for it was an exhausted empty page and no write has succeeded since |
| `ToolMemo.RuntimeExecutor.Call` | internal/chatcontrol/executor.go:58-112 | reply, handler runs and memo of every call are as specified, gating included |
| `ToolMemo.ReplyIs` | internal/chatcontrol/executor.go:58-112 | unknown names are passed on, actions not allowed here and missing handlers reported, each exactly for its reason; a search whose last word was an empty page is answered from it, marked; whatever else runs is answered unmarked as it ends |
| `ToolMemo.HistoryKeepsSound` | internal/chatcontrol/executor.go:58-112 | while only successful writes change the store, every remembered answer stays the handler's answer |
| `ToolMemo.RememberedAnswersAreTrue` | internal/chatcontrol/executor.go:84-91 | then a reply from the memo carries the tasks, total and has_more of a direct call exactly when the handler could read the input |
| `JsonScanner.SpansAre` | internal/handler/agent_handler.go:883-919 | a span is found exactly when it runs from a depth-zero brace outside strings to its match |
| `JsonScanner.SpansAreOrdered` | internal/handler/agent_handler.go:883-919 | the spans are within bounds, disjoint and in order |
| `JsonScanner.SpanIsObject` | internal/handler/agent_handler.go:883-919 | a span's text is a balanced object by itself, and only then |
| `JsonScanner.StringIsPassedOver` | internal/handler/agent_handler.go:884-903 | a string of section 7 of RFC 8259, whatever braces it holds, leaves the scanner as it found it |
| `JsonScanner.ExtractBalancedJSONObjectCandidates` | internal/handler/agent_handler.go:870-923 | the loop returns the texts of the first eight spans of the trimmed input |
| `JsonScanner.ObjectsOfTrimmed` | internal/handler/agent_handler.go:871 | trimming the input costs no object |
| `JsonScanner.ScannerRecovers` | internal/handler/agent_handler.go:870-923 | up to eight balanced objects set apart by text without quotes or opening braces come back exactly |
| `CaptionVisibility.Handle` | cmd/desktop/caption_visibility.go:19-38 | an event queues an update exactly when sender, visibility, page and sequence are valid |
| `CaptionVisibility.QueuedIff` | cmd/desktop/caption_visibility.go:19-37 | an update is queued exactly for an event of the main page that carries its visibility, page and sequence, both in range |
| `CaptionVisibility.Watermark.Run` | cmd/desktop/caption_visibility.go:38-44 | the closure keeps the watermark at the last update applied and the window told its visibility |
| `CaptionVisibility.AppliedIsIncreasing` | cmd/desktop/caption_visibility.go:38-44 | the keys applied are strictly increasing |
| `CaptionVisibility.FinalIsThatOfGreatest` | cmd/desktop/caption_visibility.go:38-44 | where equal keys agree, the final visibility is that of the greatest key, in every order |
| `CaptionVisibility.LatestDecides` | cmd/desktop/caption_visibility.go:38-44 | the update of the latest page, and there of the highest sequence, decides in whatever order updates run |
| `CaptionVisibility.ConvergesIffGreatestAgree` | cmd/desktop/caption_visibility.go:19-44 | all orders of the same updates end alike exactly when those with the greatest key agree |

## Left out

- Desktop windows and native UI code, apart from the caption watermark.
- HTTP handlers, the token exchange, marketplace cloning and model calls: network and process input and output.
- The action tables and tool schemas: constant data.
- encoding/json, yaml.v3, HMAC-SHA256 and Unicode case folding: parameters of the models, with the laws they must obey stated where they are used.
- Scheduling fairness and timers: the interleaving models say what can happen, not when.
- `SessionTokens.VerifyInvertsSign`: covers the moments time.Time.UnixNano can represent; names and secrets are trimmed of ASCII white space only, and their other bytes are opaque.
- `PendingStore.Store.Admit`: sequence numbers are unbounded, the destination is taken as already sanitised, and the read-only counters Count, BrowserCount and HasBrowser are not modelled.
- `Broadcaster.Broadcaster.PublishScoped`: a send succeeds exactly when the buffer has room; a receiver waiting on an unbuffered channel is not modelled.
- `SkillIndexEntry.NewVersionReplacesOld`: covers sections this code added; where an import rewrites a section written by hand, only its repetition is covered (`SecondImportIsIdleIff`).
- `SkillImport.Library.ImportSkillPackage`: starts at the snapshot, after validation, which writes nothing; a clear umask is assumed, the library root made by the first write is not removed by a rollback, and the answer for a protected skill is not modelled because standalone skills never are.
- `Applier.RepoApplier.ApplyDeclaration`: the stores never fail and keep what they are given; the database's refusal to find archived agents or an empty key, and its order of hooks, are not modelled.
- `SkillKeys.MigrateLegacyAgentSkills`: the early returns that depend on configuration, the choice of the root directory and the key given to an agent without one are left out; writing a package is one step whose failure may leave any package under its own key.
- `ToolMemo.RememberedAnswersAreTrue`: takes the handler's answer to name no field twice, as its own encoder does; marking would otherwise reorder such fields.
- `ToolMemo.RuntimeExecutor.Call`: the registry is reduced to what gating and the memo look at; error texts are not modelled.
- `CaptionVisibility.Watermark.Run`: positive finite floats are compared as reals.
- `Frontmatter.SplitInvertsRender`: the marshalled header is any text; which texts the YAML library produces is not modelled.
