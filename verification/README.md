# Cement Desk server: what its state machines guarantee

The server keeps the books of cement dealers on one SQLite database and synchronises them with
phones that work offline. This project models its state machines and proves what they promise.

- Pulling (`OrderedScan`, `Pull`, `PullExact`, `SyncRuns`): tables paginated one by one share a
  single scalar cursor. The central result is that no interleaving of writes, pulls, lost watermark
  bumps and stale caches makes a client miss a row its cursor has passed, nor keep one that the purge
  has removed; the assumptions behind it are shown to be exact.
- Caching (`TtlCache`, `Caches`): the insertion-ordered cache and the firm watermark read through it.
- The connection (`DbLock`, `ExpandArrays`): a FIFO lock makes asynchronous transactions serial, and
  the list-expanding rewrite of SQL preserves meaning.
- Freight (`FreightLedger`, `FreightPush`, `SerialIndex`, `FreightImport`, `Listing`): serials stay 1..N
  through creation, deletion and resurrection, holes are accounted for one by one, the unique index holds
  after every single UPDATE, and an import is let through by it exactly under a stated condition.
- Pushing (`PushSchedule`, `DepotRecords`, `DepotReturns`, `StockCells`, `StockDays`, `Claims`):
  the schedule of a batch, the revision gate, the merge of sparse sheets, and the claim status.
- Accounts (`Sessions`, `Limiter`, `Referrals`): token rotation, rate limits and referral money.
- Backups (`EnumMaps`, `BackupPlan`, `Backup`, `BackupRoundTrip`, `BackupSound`; `Keyed`, `Chunks`,
  `BackupWrite`, `BackupStored`, `BackupRestore`, `BackupListing`, `BackupReplace`, `BackupIntegrity`): when an exported file is
  accepted and read back exactly, what an accepted file of any origin is worth, when, written to the tables
  and exported again, it is the same file, and what writing it does to a firm that has rows.
- `Dates` proves that the fixed-width strings used for instants and days sort as time does, which is
  what lets the other models use integers. `Common` holds shared helpers.

Code that changes state is a class or a method with loops, proved equal to a function of the old
state; the lemmas are about those functions and about whole runs of them.

## Findings

Where the code falls short of what its comments or documentation say, the code is modelled as it is
and a lemma gives the exact condition or a concrete case.

- A page cut between two rows of one millisecond loses the second (`CompleteIffNoTieCut`, `TieLosesARow`).
- The fallback in `pull.ts` for a floor that has not moved can never run (`FloorInsideWindow`).
- A BEGIN that throws keeps the lock for good (`FailedBeginStopsEverything`).
- A mutation of an unlisted entity gets no outcome; the `UNKNOWN_ENTITY` branch cannot be reached from `push` (`EveryoneIsAnsweredIffKnown`).
- A rejected mutation is not always without effect: a refused bag count, null for the split of an edit,
  or a row that cannot be written and has used up a serial (`OutcomeTellsTheTruth`), a refused receipt,
  cell or remark (`RejectionIsCleanIff`), a credit note that throws (`ThrowingNoteIff`).
- A serial used up by a pushed row that cannot be written leaves a hole that nothing closes (`SerialsAreOneToN`).
- A receipt or a credit note pushed under another parent changes the old parent's data (`ReceiptIsLastSent`, `ForeignNoteIff`).
- Deleting a party takes its shares out of the baseline without raising the baseline's revision (`ForgottenLeavesNothing`).
- A tombstone written again after its deletion can be purged before everyone has seen it (`RemovalLeavesGhostIff`, `RewrittenTombstoneLeavesGhost`).
- A firm with an entry of a deleted party, or a purchase from a deleted source, cannot restore its own
  backup (`DeletedPartyBlocksImport`, `DeletedSourceBlocksImport`), and a tombstoned baseline is exported as live (`RoundTripIff`).
- A firm that has deleted any entry but its last cannot restore its previous backup, replacing or merging: the
  tombstone keeps the serial its successor moved down to (`OwnBackupPassesIff`, `OnlyTheLastMayBeDeleted`). What
  decides is stated for every book and file (`ImportPassesIff`); two new entries of serial zero are one more case.
- An entry revived above the counter makes the next new entry fail (`RevivedAboveCounter`, `NextEntryIsRefused`).
- An accepted backup can still be refused half-way, with the tables before and the full chunks written staying
  (`RestorePassesIff`, `RefusalKeepsWholeChunks`): the dry run does not look at baseline grades, receipt ids or
  repeated premium grades.
- What was restored need not be what was planned: repeated ids, route pairs and claim periods overwrite each other,
  a physical stock alone gains a zero counterpart, and a party without shares is gone (`RestoredAndExportedIff`,
  `MissingSapComesBackAsZero`). Replacing keeps payments the file does not have (`OldPaymentsSurvive`), and a
  replace refused half-way leaves the rest of the firm dead (`RefusedReplaceLeaves`).
- Refreshing a key of a full cache evicts another (`RefreshEvicts`); a wait of exactly the returned seconds can be refused (`ExactWaitRefused`).

## Model

| member | source | states |
|---|---|---|
| `Pull.Pager.ReadPage` | src/modules/sync/pull.ts:104-117 | one page asks for limit + 1 rows, keeps limit, and lowers the shared floor and raises the shared newest instant exactly as a cut page demands |
| `Pull.ReadAll` | src/modules/sync/pull.ts:104-217 | after all tables the shared pager holds the earliest cut, the newest instant and whether any table was cut |
| `Pull.PullOnce` | src/modules/sync/pull.ts:47-231 | a pull end to end: malformed and too old cursors refused, the watermark shortcut returns nothing and leaves the cursor, otherwise the pages and the next cursor |
| `Pull.FloorIsEarliestCut` | src/modules/sync/pull.ts:111-114 | the floor exists exactly when some page was cut and is the earliest last-kept instant of the cut pages |
| `Pull.NewestIsLatestReturned` | src/modules/sync/pull.ts:115 | the newest instant is the greatest one any table returned, and there is none exactly when nothing was returned |
| `Pull.NextCursorInWindow` | src/modules/sync/pull.ts:217-225 | the next cursor never passes the upper bound, strictly advances when anything was returned, and sits on a cut whenever there is one |
| `Pull.NextCursorIs` | src/modules/sync/pull.ts:217-225 | over any number of tables the next cursor is the earliest last-kept instant of the cut pages; with none cut the newest row returned; with none returned the upper bound |
| `Pull.FloorInsideWindow` | src/modules/sync/pull.ts:217-225 | a cut always lies above the incoming cursor and at or below the newest row, so the comparison with the incoming cursor never fails |
| `Pull.PageWellFormed` | src/modules/sync/pull.ts:104-117 | a page holds rows of the window, each id once, none beyond its last kept instant, and the row past the limit sorts after all of them |
| `Pull.PageCovers` | src/modules/sync/pull.ts:104-117 | a row of the window missing from a page sorts at or after the one row read past the limit |
| `PullExact.MissingExactly` | src/modules/sync/pull.ts:104-117 | a row the new cursor has passed is missing from its page exactly when that page was cut between it and a row of the same instant |
| `PullExact.CompleteIffNoTieCut` | src/modules/sync/pull.ts:217-225 | one pull delivers everything its cursor passes if and only if no page was cut inside the instant the cursor moves to |
| `PullExact.TieLosesARow` | src/modules/sync/pull.ts:104-117 | two rows of one millisecond and a limit of one: the second is sent neither by this pull nor by the next |
| `PullExact.DrainExact` | src/modules/sync/pull.ts:104-117 | on an unchanging database, pulling while there is more delivers exactly the rows above the start less exactly the rows skipped at ties: what is skipped once is never sent, before or after; the cursor strictly advances, so it ends |
| `SyncRuns.FinishKeepsClient` | src/modules/sync/pull.ts:217-231 | a client that applies the pages of a pull holds, in its current version, every row its new cursor has passed, though rows were written while the pull was running |
| `SyncRuns.StepKeeps` | src/modules/sync/pull.ts:86-117 | each step of the protocol (writes, lost or late bumps, cache reads and stores, table reads, finishing, aborting) keeps the invariant for every client at once |
| `SyncRuns.NothingIsEverLost` | src/modules/sync/pull.ts:38-43 | in every run of any number of clients and any interleaving, whatever a client's cursor has passed the client holds in its current version |
| `SyncRuns.BumpedRowsAreFound` | src/modules/sync/pull.ts:62-84 | once a write's bump has landed a client still missing it is sent down the slow path by any fresh reading, and a cached reading that hides it predates the bump and is younger than the TTL |
| `SyncRuns.MarkerStepsAre` | src/lib/caches.ts:97-149 | an invalidation empties the cache at once, a landed bump stores the moment, a look-up reads exactly what is stored, and the reading is cached as it was taken |
| `SyncRuns.AnnouncementsLast` | src/lib/caches.ts:109-149 | a landed bump stays known to the stored watermark and to every later reading, whatever happens next, until the row is written again or removed |
| `SyncRuns.ShortcutHidesOnlyUnbumped` | src/modules/sync/pull.ts:62-84 | the shortcut never hides a row that was already there, and is there still, at the last bump its watermark knows of |
| `SyncRuns.RemovedRowsAreNotShown` | src/modules/sync/pull.ts:54-59 | in every run in which tombstones are removed only once seen, a client that still shows a removed row has a cursor that is refused as too old |
| `SyncRuns.RemovalLeavesGhostIff` | src/jobs/purge.ts:24-33 | removing tombstones, by the purge or to make room for a new claim, leaves a client, pulling or not, showing a dead row exactly when one was last written above its cursor and the client holds it live, or above the upper bound of its pull and a page already read shows it |
| `SyncRuns.PurgeRemovesSeen` | src/jobs/purge.ts:22-33 | purge and pull share one retention: if no purged tombstone was written again after the cutoff and no pull in flight started before it, every client that may pull has seen them all |
| `SyncRuns.RewrittenTombstoneLeavesGhost` | src/modules/masters/service.ts:195-203 | a run from an empty firm: a tombstone written again after its deletion, as unfiling a deleted scheme does, is purged before a client with an accepted cursor has met it |
| `SyncRuns.WriteIsSafeIffStampedAbove` | src/modules/sync/pull.ts:86 | a write keeps a client complete exactly when it is stamped above the client's cursor, or is already held |
| `SyncRuns.SameMillisecondIsLost` | src/modules/sync/pull.ts:86-117 | a write stamped in the very millisecond of an empty pull's upper bound ends up behind the cursor and not held |
| `Caches.FirmMarkers.FirmWatermark` | src/lib/caches.ts:109-129 | a hit answers from the cache, a miss from the database, and afterwards the cache answers the same |
| `Caches.FirmMarkers.BumpFirmData` | src/lib/caches.ts:144-149 | the synchronous half of a bump: no later lookup is answered from before it |
| `Caches.CachedMarkerIsRecent` | src/lib/caches.ts:97-129 | a watermark answered from the cache is the last one stored, less than 15 s ago and not dropped since |
| `TtlCaches.TtlCache.Get` | src/lib/cache.ts:38-46 | returns the live value or nothing, removing an expired entry |
| `TtlCaches.TtlCache.Set` | src/lib/cache.ts:48-55 | at the cap the oldest-inserted entry goes first, then the value is stored with its expiry, an existing key keeping its place |
| `TtlCaches.TtlCache.DeletePrefix` | src/lib/cache.ts:66-70 | drops every entry whose key starts with the prefix |
| `TtlCaches.RunSound` | src/lib/cache.ts:38-74 | in every run each entry is the latest set of its key, unremoved since, and the cap holds |
| `TtlCaches.HitIsCurrent` | src/lib/cache.ts:38-46 | a hit is the value of the latest set of that key, younger than the TTL, not deleted, prefix-deleted or cleared since |
| `TtlCaches.SetEffect` | src/lib/cache.ts:48-55 | a set is seen until its TTL and costs at most the oldest other entry, exactly when the map was full |
| `TtlCaches.WhatIsDropped` | src/lib/cache.ts:38-74 | reading drops the entry read exactly when it has expired, a delete the key named, a prefix delete the keys that start with it, and nothing else goes |
| `TtlCaches.RefreshEvicts` | src/lib/cache.ts:48-55 | refreshing a key in a full cache evicts the oldest entry although the size would not have grown |
| `DbLock.Mutex.Acquire` | src/db/pool.ts:147-161 | free: taken at once; held: queued at the end |
| `DbLock.Mutex.Release` | src/db/pool.ts:151-155 | hands over to the first waiter without ever being free, or frees the lock |
| `DbLock.OneAtATime` | src/db/pool.ts:303-328 | only the holder of the lock can take any step but asking for it |
| `DbLock.StepKeeps` | src/db/pool.ts:303-358 | each step keeps the queue in asking order with nobody lost, and the database equal to the served tasks plus the part the open transaction has run |
| `DbLock.EveryRunIsSerial` | src/db/pool.ts:303-358 | for any interleaving of transactions and single statements, nested calls included, the log is whole blocks in asking order and the database is the serial result with failed transactions removed |
| `DbLock.StepsPayOff` | src/db/pool.ts:303-328 | every step of the holder reduces the work owed to those who asked and nobody overtakes |
| `DbLock.NeverDeadlocked` | src/db/pool.ts:288-306 | while someone who asked is unserved and no BEGIN has failed, some step is possible, calls nested in a transaction included |
| `DbLock.FailedBeginStopsEverything` | src/db/pool.ts:308-327 | a BEGIN that throws is outside the try: the lock is never released and nothing is served in any continuation |
| `DbLock.FailedBeginIsReachable` | src/db/pool.ts:308-327 | two steps lead there from a fresh pool: the first transaction takes the lock and its BEGIN throws |
| `ExpandArrays.Expand` | src/db/pool.ts:187-225 | the rewritten statement with its flat values means what the original with its lists spliced in meant; unchanged without lists; placeholders and values agree in number exactly when there is a list or the caller counted right |
| `ExpandArrays.QuotedTextIsInert` | src/db/pool.ts:193-204 | text inside quotes is copied and uses up no parameter, whatever it holds |
| `ExpandArrays.SplicedIs` | src/db/pool.ts:209-222 | a list is spliced as all its elements in order with single commas between, an empty one as NULL |
| `FreightLedger.Ledger.AllocateSerial` | src/modules/freight/service.ts:77-90 | one above the counter, the counter row created on first use |
| `FreightLedger.Ledger.EnsureSerialAtLeast` | src/modules/freight/service.ts:93-99 | the counter becomes the greater of itself and the argument |
| `FreightLedger.Ledger.WriteRow` | migrations-sqlite/0001_baseline.sql:232 | a single INSERT or UPDATE must leave the unique index on live serials intact, and every caller proves it does |
| `FreightLedger.Ledger.MoveAllDown` | src/modules/freight/service.ts:280-289 | the compaction loop, one UPDATE a row, each let through by the unique index |
| `FreightLedger.Ledger.CompactSerialsAfterDelete` | src/modules/freight/service.ts:274-294 | closes the gap, bumps every moved row and lowers the counter, but not below zero |
| `FreightLedger.Ledger.WriteGradeBags` | src/modules/freight/service.ts:101-116 | replaces the bag split, stopping at the first count the table refuses |
| `FreightLedger.Ledger.CreateEntry` | src/modules/freight/service.ts:118-155 | a live id is left alone, a tombstone resurrected with a fresh serial, a new id inserted |
| `FreightLedger.Ledger.DeleteEntry` | src/modules/freight/service.ts:296-311 | tombstones a live entry and compacts; nothing when it is already gone |
| `FreightLedger.EveryUpdateKeepsIndex` | src/modules/freight/service.ts:274-289 | live serials are pairwise distinct after every single UPDATE of the compaction loop |
| `FreightLedger.MoveIsSafeIffBelowIsFree` | src/modules/freight/service.ts:261-273 | moving one row down is let through exactly when the serial below it is free: the reason for going from low to high |
| `FreightLedger.CreatedKeepsContiguous` | src/modules/freight/service.ts:118-155 | creating or resurrecting keeps the live serials exactly 1..N with counter N |
| `FreightLedger.DeletedKeepsContiguous` | src/modules/freight/service.ts:261-311 | deleting keeps the live serials exactly 1..N with counter N |
| `FreightLedger.OrderIsKept` | src/modules/freight/service.ts:261-289 | a delete renumbers but never reorders the surviving entries |
| `FreightLedger.DeleteBumpsWhatItMoves` | src/modules/freight/service.ts:268-289 | exactly the deleted and the renumbered rows change, each with its revision raised by one |
| `FreightLedger.NewcomerIsLast` | src/modules/freight/service.ts:118-155 | a new or resurrected entry gets the highest serial and moves nobody |
| `FreightLedger.ContiguousCounts` | src/modules/freight/service.ts:261-264 | the counter equals the number of live entries |
| `FreightLedger.ContiguousIffNoHoles` | src/modules/freight/service.ts:261-264 | the live serials are exactly 1..N if and only if they are distinct, from one up to the counter, and as many as it counts |
| `FreightPush.FreightUpsert` | src/modules/sync/push.ts:218-284 | a pushed create or gated edit, its outcome and its effect on the ledger, the failures after its checks included: a row that cannot be written, a refused count, null for the split of an edit |
| `FreightPush.FreightDelete` | src/modules/sync/push.ts:305-316 | a pushed delete: success when already gone, conflict on another revision, otherwise delete and compact |
| `FreightPush.OutcomeTellsTheTruth` | src/modules/sync/push.ts:218-303 | applied: stored under the reported revision, one above the one named, unsent fields kept; conflict: nothing changed; rejected: unchanged exactly unless it used up a serial for a row that could not be written or failed on the bag split after the row was; no other row is touched |
| `FreightPush.AnswerIs` | src/modules/sync/push.ts:218-303 | which answer an upsert gets: conflict exactly for another revision or a dead row, applied exactly when its checks pass, its row can be written and its split stored whole |
| `FreightPush.DeleteTellsTheTruth` | src/modules/sync/push.ts:305-316 | a pushed delete of a live row is applied exactly when it names the row's revision, and the row is then dead under the reported one, one above; naming another or none it conflicts, shows the row and changes nothing; of a row that is gone it is success and changes nothing |
| `FreightPush.PatchIsExact` | src/modules/freight/service.ts:189-259 | the web application's patch takes effect exactly when the entry is live and of the revision named, the formulas hold, the counts can be stored and there is something to change; what it changes is exactly what it sent, one revision up |
| `FreightPush.WebCreateIs` | src/modules/freight/service.ts:118-155 | a web creation takes effect exactly when the formulas hold and the split can be stored, on the fields and serial stated |
| `FreightLedger.StoredIffReached` | src/modules/freight/service.ts:101-116 | a grade of a split is stored exactly when a count for it comes before the first refused one |
| `FreightLedger.StoredIsLastReached` | src/modules/freight/service.ts:101-116 | and at the last such count |
| `FreightPush.RunKeepsSound` | src/modules/freight/service.ts:77-99 | from any book with distinct live serials at or below the counter, every run of web and pushed operations keeps it so |
| `FreightPush.StepHoles` | src/modules/freight/service.ts:77-99 | conservation: every operation adds to the gap between counter and live entries exactly the serials it uses up, and none is ever closed |
| `FreightPush.SerialsAreOneToN` | src/modules/freight/service.ts:261-264 | after every run from an empty firm the live serials are exactly 1..N if and only if no serial was used up in vain, by a pushed row that could not be written or a counter raised above the live entries |
| `FreightPush.RaiseBreaksIffAbove` | src/modules/freight/service.ts:93-99 | raising the counter loses contiguity exactly when it is raised above the live entries |
| `FreightPush.OneEditPerRevision` | src/modules/sync/push.ts:252-284 | over any run, compaction included, whatever a pushed edit or delete changes of its row it named the revision it found, and a later one found a later revision; an edit rejected for its bag split included |
| `DepotRecords.RecordTable.RecordUpsert` | src/modules/depot/service.ts:859-884 | the shared upsert of the seven diary tables: insert, gated update, revival, carry-over, refusals |
| `DepotRecords.RecordTable.RecordDelete` | src/modules/depot/service.ts:886-895 | the shared delete: success when already gone, conflict on another revision, else tombstone |
| `DepotRecords.GateIsExact` | src/modules/depot/service.ts:874-884 | a well-formed edit takes effect exactly when it names the current revision of a live row, or the row is dead and the table revives; then the stored revision is the reported one |
| `DepotRecords.UpsertIsExact` | src/modules/depot/service.ts:859-884 | an upsert is applied, conflicts or is rejected exactly under the stated conditions; applied, a new row is there at revision one and an edited one is updated with what is carried over, one revision up |
| `DepotRecords.DeleteIsExact` | src/modules/depot/service.ts:886-895 | a pushed delete of a live row is applied exactly when it names its revision and leaves it dead with its content, one revision up; otherwise it conflicts and shows the row; of a row that is gone it is success and changes nothing |
| `DepotRecords.RefusalsChangeNothing` | src/modules/depot/service.ts:859-895 | a conflict or rejection changes no row |
| `DepotRecords.OneEditPerRevision` | src/modules/depot/service.ts:854-895 | over any run two writes that change one row found different revisions, and each named the one it found unless it revived a tombstone |
| `DepotRecords.TruckDelete` | src/modules/depot/service.ts:409-415 | deleting a truck tombstones its direct deliveries in the same step, and only when the truck table changes |
| `DepotRecords.NoDeliveryIsLeftBehind` | src/modules/depot/service.ts:406-415 | after the cascade no live delivery names the truck and no other delivery changed |
| `DepotReturns.ReadGradeBags` | src/modules/depot/service.ts:41-53 | refuses anything but an object, keys that are not grade ids, and counts that are no number, negative or out of range; drops zero lines |
| `DepotReturns.KeptJoins` | src/modules/depot/service.ts:41-53 | line by line and in order the bags kept are the counts beyond a billionth |
| `DepotReturns.AdjustmentIsAcceptedIff` | src/modules/depot/service.ts:463-495 | an adjustment is accepted exactly when its bags are in order for its kind, damage only takes away, a return brings bags back from a dealer with readable details, and what a new one is stored as |
| `DepotReturns.EditIsStoredAs` | src/modules/depot/service.ts:494-503 | what an edit is stored as, a return edited by an old app included, and when that one is refused |
| `DepotReturns.RunStaysSensible` | src/modules/depot/service.ts:460-503 | in every run of old and new apps, a stored return names its dealer and brings bags back, and every kind keeps its sign |
| `DepotReturns.OldAppKeepsReturn` | src/modules/depot/service.ts:494-503 | an app that sends none of the return's keys can change a return's bags and note but neither its kind nor its dealer |
| `PushSchedule.ByEntity` | src/modules/sync/push.ts:63-67 | the mutations of each entity, in the order they came |
| `PushSchedule.MakeGroups` | src/modules/sync/push.ts:68-72 | one group per listed entity that has any mutation of the operation |
| `PushSchedule.Server.RunGroup` | src/modules/sync/push.ts:74-89 | a group's effects appear together with one answer each, or not at all with a failure for each |
| `PushSchedule.Server.Push` | src/modules/sync/push.ts:43-93 | a push executes the plan of its batch, group by group |
| `PushSchedule.PlanIsStableSort` | src/modules/sync/push.ts:44-72 | all upserts in group order, then all deletes in reverse group order, stable within an entity, and only listed entities |
| `PushSchedule.StableSortIsUnique` | src/modules/sync/push.ts:44-72 | those properties leave no choice: there is exactly one such schedule |
| `PushSchedule.PlanIsPermutation` | src/modules/sync/push.ts:63-72 | the schedule is a permutation of exactly the mutations whose entity is listed |
| `PushSchedule.ParentsGoFirst` | src/modules/sync/push.ts:44-72 | in one push a row is written before the rows that name it and deleted after them |
| `PushSchedule.OutcomesMatch` | src/modules/sync/push.ts:73-92 | one outcome per scheduled mutation, in schedule order |
| `PushSchedule.FailedGroupsLeaveNoTrace` | src/modules/sync/push.ts:83-89 | the final state is as if only the groups that committed had been sent |
| `PushSchedule.EveryoneIsAnsweredIffKnown` | src/modules/sync/push.ts:68-72 | every mutation gets an outcome exactly when every entity is listed: one that is not is silently skipped |
| `Sessions.SessionStore.RotateSession` | src/modules/auth/service.ts:242-262 | inserts the successor and points the revoked session at it |
| `Sessions.SessionStore.RefreshTokens` | src/modules/auth/service.ts:264-300 | the refresh walk, bounded to five hops inside the grace period, and its four answers |
| `Sessions.RefreshSucceedsIffReaches` | src/modules/auth/service.ts:264-300 | tokens are given exactly when a live unexpired session is reached in at most five links each inside the grace; expired and revoked exactly otherwise |
| `Sessions.RefusalsChangeNothing` | src/modules/auth/service.ts:264-300 | an unknown or expired token is refused and leaves every session as it was |
| `Sessions.RevokedMeansAllOut` | src/modules/auth/service.ts:290-297 | a refresh that ends in TOKEN_REVOKED revokes now exactly the live sessions of its user; every other session is as it was |
| `Sessions.RunKeeps` | src/modules/auth/service.ts:46-69 | in every run links go forward, stay with one user, leave only revoked sessions, never meet and never dangle, purging included |
| `Sessions.PurgeKeeps` | src/jobs/purge.ts:35-40 | purging old sessions leaves no link pointing at a session that is gone |
| `Sessions.ChainsNeverMerge` | src/modules/auth/service.ts:252-255 | two chains that share a session are one chain |
| `Sessions.OneLiveSessionPerChain` | src/modules/auth/service.ts:242-262 | in every run each chain has at most one live session and it is the chain's end |
| `Sessions.RefreshTradesOneForOne` | src/modules/auth/service.ts:242-300 | a successful refresh replaces exactly one live session of that user by one new one, which it points at, and every other session, whoever's, is exactly as it was |
| `Sessions.LoggedOutStaysOut` | src/modules/auth/service.ts:302-310 | a token logged out never gets tokens again, whatever happens afterwards; presenting it ends its user's other sessions |
| `Sessions.WhatBecomesOfASession` | src/modules/auth/service.ts:302-315 | in every step but a refresh a session is revoked exactly when its token, its user or itself is named, purged exactly when it is over thirty days old and expired or revoked, and otherwise as it was; only a login adds one |
| `Sessions.PasswordChangeSparesOne` | src/modules/auth/service.ts:360-376 | changing the password ends every session of the user but the one it was changed from |
| `StockCells.SameSheetSameCells` | src/modules/stock/service.ts:182-201 | the sparse table is a canonical form: equal sheets mean equal tables |
| `StockCells.MergeIsLastWriterWins` | src/modules/sync/push.ts:357-374 | any sequence of cell writes is last writer wins at every place, and no zero cell is ever stored |
| `StockCells.DisjointPushesCommute` | src/modules/sync/push.ts:357-374 | pushes touching different cells give the same table in either order |
| `StockCells.RepeatedPushIsHarmless` | src/modules/sync/push.ts:357-374 | a push delivered twice does no more than once |
| `StockCells.NoTraceIff` | src/modules/sync/push.ts:357-374 | writes leave the table unchanged exactly when the last word on every place is what it already shows |
| `StockCells.MapStockDay` | src/modules/stock/service.ts:14-38 | the sheet on the wire shows exactly the stored cells, without zero cells or empty parties |
| `StockDays.StockBook.StockDayUpsert` | src/modules/sync/push.ts:335-385 | a pushed sheet: created or resurrected, receipts, cells, the remark cut to its length, revision, and every refusal with what it leaves behind |
| `StockDays.StockBook.BaselineUpsert` | src/modules/sync/push.ts:403-436 | a pushed baseline: conflict, refusal over existing sheets, or wholesale replacement of stock and party shares, as far as a refused grade or party lets it get |
| `StockDays.StockBook.CreateStockDay` | src/modules/stock/service.ts:125-148 | a sheet is created or resurrected strictly after the baseline, once per date |
| `StockDays.StockBook.PutCell` | src/modules/stock/service.ts:183-209 | one cell written or removed and the sheet bumped, or nothing |
| `StockDays.MovedKeepsIff` | src/modules/stock/service.ts:72-85 | the baseline may move exactly while no live sheet is on or before its new date |
| `StockDays.RunKeeps` | src/modules/stock/service.ts:125-148 | in every run live sheets lie strictly after the live baseline, ids and dates identify rows, no zero cell is stored |
| `StockDays.DateKeepsItsRow` | src/modules/stock/service.ts:130-137 | a date keeps its one row through deletion and resurrection, its revision never falling |
| `StockDays.AppliedSheetIsMerged` | src/modules/sync/push.ts:335-385 | an applied sheet is live under the reported revision, merged cell by cell, other sheets untouched, receipts taken, the note kept when none is sent and otherwise the one sent up to 500 characters |
| `StockDays.SheetIsAppliedIff` | src/modules/sync/push.ts:325-385 | a pushed sheet is applied exactly when its date is after the live baseline and no receipt, cell or remark is refused, and the code otherwise |
| `StockDays.SheetRowIs` | src/modules/sync/push.ts:325-385 | its row is made or reopened under its old id as soon as the date is taken; the revision it then has; no other sheet changes, nor the baseline |
| `StockDays.CellIsLastSent` | src/modules/sync/push.ts:357-374 | a sheet says of a place the last cell it sends for that party and grade |
| `StockDays.RefusedSheetLeaves` | src/modules/sync/push.ts:347-374 | a sheet refused inside leaves exactly the receipts and cells before the refused item |
| `StockDays.CreateDayIsExact` | src/modules/stock/service.ts:125-148 | a sheet is made from the web exactly when its date is after the live baseline and has none; reopened it keeps its id and remark, one revision up |
| `StockDays.ReceiptIsLastSent` | src/modules/sync/push.ts:347-356 | a receipt reads as it was last sent and stays on the sheet it was first written to |
| `StockDays.PutCellShows` | src/modules/stock/service.ts:183-209 | one cell shows what was written, no other place changes, the sheet is bumped; refused, without a live sheet or for an unknown party or grade, nothing changes |
| `StockDays.BaselineGateIsExact` | src/modules/sync/push.ts:403-436 | a conflict exactly when another revision is named; refused unchanged exactly with a live sheet in the way; past that every grade and every party's share is stored at the figures last sent for it, physical and sap each, and no others, up to the first refused; applied exactly when none is |
| `StockDays.PutBaselineIsExact` | src/modules/stock/service.ts:72-115 | the web application's replacement: the same figures, all or nothing |
| `StockDays.StockedIsAsSent` | src/modules/sync/push.ts:424-427 | the stored stock holds exactly the grades named, each at the physical and sap last sent for it |
| `StockDays.RejectionIsCleanIff` | src/modules/sync/push.ts:335-374 | a rejected sheet left nothing behind exactly when its date was refused or everything before the refused receipt, cell or remark was already stored; a live sheet's revision does not move |
| `StockDays.ForgottenLeavesNothing` | src/modules/masters/service.ts:206-226 | deleting a party removes exactly its cells and its shares of the baseline, and bumps exactly the sheets that had a cell: the baseline keeps its revision |
| `Limiter.RateLimiter.LimitHit` | src/lib/limiter.ts:20-32 | prunes, admits or refuses, and returns the wait |
| `Limiter.RateLimiter.Sweep` | src/lib/limiter.ts:11-17 | drops hits over an hour old and empty buckets |
| `Limiter.WindowNeverExceeded` | src/lib/limiter.ts:11-32 | in every run no closed stretch of a window's length holds more than the maximum of admitted hits, sweeps at any time |
| `Limiter.AdmittedIffRoom` | src/lib/limiter.ts:20-32 | in every run a hit is let through exactly when fewer than the maximum were let through in the window that ends with it |
| `Limiter.SweepLeaves` | src/lib/limiter.ts:11-17 | a sweep keeps exactly the keys with a hit in the last hour, and drops only older hits |
| `Limiter.AdmittedAgainExactly` | src/lib/limiter.ts:20-32 | a refused caller alone on the key is let through exactly when the oldest remembered hit has left the window |
| `Limiter.RetryAfterIsEnough` | src/lib/limiter.ts:29 | waiting longer than the returned seconds is always enough, waiting exactly that long only when the remainder is no whole second |
| `Limiter.ExactWaitRefused` | src/lib/limiter.ts:29 | a caller told 30 s and trying exactly then is refused again |
| `Listing.ListEntries` | src/modules/freight/service.ts:313-352 | a page of the list and the cursor of its last row, if there is more |
| `Listing.ListHoldsExactly` | src/modules/freight/service.ts:317-341 | the list holds exactly the live entries in the dates, of the party and location asked for, that are older than the cursor |
| `Listing.ListIsInOrder` | src/modules/freight/service.ts:334-341 | later dates first, then larger ids, nothing twice |
| `Listing.PagesAreTheList` | src/modules/freight/service.ts:313-352 | following the cursors until there is none gives the whole list once, in order, for any page size |
| `EnumMaps.EnumRoundTrip` | src/modules/backup/enumMaps.ts:19-31 | exporting and importing gives back every value of an enumeration, null becoming the importer's default |
| `EnumMaps.NameOrIndex` | src/modules/backup/enumMaps.ts:19-24 | names and indexes are read alike, and nothing outside the enumeration but the default |
| `BackupPlan.BuildPlan` | src/modules/backup/backupImport.ts:291-566 | the dry run over a file of unknown origin: every fault and the rows it would write |
| `Backup.LiveIsWhatLives` | src/modules/backup/backupExport.ts:53-54 | an export holds the live rows, in their order, and no tombstone |
| `Backup.EntryComesBack` | src/modules/backup/backupExport.ts:96-104 | an exported entry is accepted exactly when its party and location are known, and comes back unchanged exactly when it fits the limits |
| `Backup.DayComesBack` | src/modules/backup/backupExport.ts:105-115 | the same for a stock sheet with its receipts and sparse cells |
| `Backup.BaselineComesBack` | src/modules/backup/backupExport.ts:62-73 | the same for the baseline, whose maps come back as they were |
| `Backup.SchemeComesBack` | src/modules/backup/backupExport.ts:124-139 | the same for a scheme: slabs, windows, enumerations, grade scope and its legacy single grade |
| `Backup.PurchaseComesBack` | src/modules/backup/backupExport.ts:118-122 | a purchase with its payments is accepted exactly when company, grade and source are known and its figures in range |
| `Backup.ClaimComesBack` | src/modules/backup/backupExport.ts:140-146 | a claim with its credit notes is accepted exactly when its period is in order and its accrual not negative, whatever became of its scheme |
| `BackupRoundTrip.ExportIsAcceptedIff` | src/modules/backup/backupImport.ts:291-566 | an exported file is accepted exactly when live rows refer to live masters, live sheets follow the exported baseline, purchases and claims are in order and no master is unnamed |
| `BackupRoundTrip.DeletedPartyBlocksImport` | src/modules/backup/backupImport.ts:414-418 | a live entry of a deleted party makes the firm's own backup unreadable |
| `BackupRoundTrip.DeletedSourceBlocksImport` | src/modules/backup/backupImport.ts:507-515 | so does a live purchase of a deleted source |
| `BackupRoundTrip.RoundTripIff` | src/modules/backup/backupExport.ts:53-150 | an accepted export is planned as exactly the live rows if and only if nothing is cut, dropped or unfiled and the baseline is not a tombstone |
| `BackupSound.FaultlessPlanIsSound` | src/modules/backup/backupImport.ts:291-566 | a file of any origin without a fault: no row is passed over, references are known, dates and positive serials distinct, sheets after the baseline, no zero cell or empty party, slabs strictly ascending, each kind of scheme with what it needs, every text within its column; of ids and other keys it says nothing, as the dry run does not |
| `Chunks.Write` | src/modules/backup/backupImport.ts:81-90 | the loop over chunks of five hundred and over the rows of each inside its own transaction |
| `Chunks.RefusalKeepsWholeChunks` | src/modules/backup/backupImport.ts:81-90 | a refused row leaves exactly the chunks before its own committed, and nothing after is tried |
| `SerialIndex.EveryRowIsTakenIff` | src/modules/backup/backupImport.ts:181-195 | every entry gets past the unique index exactly when the serials the rows will carry, the stored one for a row that is there and the file's for a new one, differ from each other and from those of the live rows left alone |
| `FreightImport.ImportEntries` | src/modules/backup/backupImport.ts:181-202 | the entries written over a book in either mode, committed chunk by chunk up to the first refusal, and the counter raised only at the end |
| `FreightImport.ImportPassesIff` | src/modules/backup/backupImport.ts:181-202 | the same condition on book, mode and file decides whether an import of entries gets through, and then says which serial every row carries |
| `FreightImport.WhatBecomesOfAnEntry` | src/modules/backup/backupImport.ts:181-202 | after an import that got through an entry the file does not name is as it was, or dead when replacing; one it names is live with what the file says last of it, one revision up for each time |
| `FreightImport.TwinSerialsAreRefused` | src/modules/backup/backupImport.ts:441-447 | two new entries of one serial, zero for instance, pass the dry run and are refused by the index |
| `FreightImport.TakenSerialIsRefused` | src/modules/backup/backupImport.ts:181-195 | merging, a new entry with the serial of a live one the file does not name is refused |
| `FreightImport.OwnBackupPassesIff` | src/modules/backup/backupImport.ts:66-195 | a firm that has deleted an entry since its last backup can restore that backup, replacing or merging, if and only if no entry held the next serial |
| `FreightImport.OnlyTheLastMayBeDeleted` | src/modules/freight/service.ts:261-264 | with serials 1..N that is: only the entry with the highest serial was deleted |
| `FreightImport.CounterAfterImport` | src/modules/backup/backupImport.ts:263-267 | only an import that got through raises the counter, to the highest serial of the file if that is above it |
| `FreightImport.ImportIsSoundIff` | src/modules/backup/backupImport.ts:263-267 | an import that got through leaves the counter at or above every live serial exactly when no revived row carries one above both the counter and the file's serials |
| `FreightImport.NextEntryIsRefused` | src/modules/freight/service.ts:118-155 | when a live row holds the serial above the counter, the next new entry is refused by the index |
| `FreightImport.RevivedAboveCounter` | src/modules/backup/backupImport.ts:263-267 | an input for it: the second entry deleted, then revived by a file in which it was the first |
| `BackupWrite.Firm.Restore` | src/modules/backup/backupImport.ts:66-259 | the second phase over a firm of any content: tombstones when replacing, then table after table in the source's order, keyed upserts, a route by its pair, a sheet by its date, a claim making way by its period, up to the first refused statement |
| `BackupStored.RestorePassesIff` | src/modules/backup/backupImport.ts:66-259 | into an empty firm every statement of a sound plan gets through if and only if the plan also has known baseline grades, and receipt ids, serials and premium lists without repeats; then every table is known row by row |
| `BackupRestore.RestoredAndExportedIff` | src/modules/backup/backupImport.ts:66-566 | a file of any origin without a fault, restored into an empty firm and exported: it gets through if and only if its plan is storable; then the second file has no fault, and is planned as the first, up to the order of rows, if and only if ids, route pairs and claim periods are distinct and the baseline is whole |
| `BackupRestore.OwnBackupComesBack` | src/modules/backup/backupExport.ts:53-150 | a firm's own backup, accepted and with nothing cut, restored into an empty firm: it gets through if and only if its baseline names live grades only, and then the new firm lists exactly what the old one did |
| `BackupRestore.OldPaymentsSurvive` | src/modules/backup/backupImport.ts:225-236 | replacing leaves a payment the file does not have in place, and it is exported with its purchase again |
| `BackupIntegrity.RestoreKeepsIntegrity` | migrations-sqlite/0001_baseline.sql:179-520 | any plan, in either mode, over any firm, got through or refused at any statement: the unique indexes on live serials, claim periods and slabs and the foreign keys of every table and child table hold afterwards if they held before |
| `BackupReplace.WhatARestoreWrites` | src/modules/backup/backupImport.ts:66-259 | over any firm and in either mode: every table keeps its rows or takes those of the plan; got through, it has the last row of every key; refused, no claim has been touched |
| `BackupReplace.ReplacingStartsDead` | src/modules/backup/backupImport.ts:69-79 | replacing first tombstones every live row of every synced table, content and children unchanged |
| `BackupReplace.ReplaceIsExact` | src/modules/backup/backupImport.ts:66-259 | after a replace that got through exactly the plan's rows are live in every table, as last written, and the others are there, dead, with their content, rivals of its claims apart; entries keep their serials; payments stay, and notes unless their claim goes |
| `BackupReplace.RefusedReplaceLeaves` | src/modules/backup/backupImport.ts:66-259 | after a replace refused half-way every row is a tombstone with its content or a row of the plan, and no claim is live |
| `BackupReplace.MergeLeavesTheRest` | src/modules/backup/backupImport.ts:81-259 | merging leaves every row the plan does not name exactly as it was, got through or refused, rivals of its claims apart |
| `BackupRestore.MissingSapComesBackAsZero` | src/modules/backup/backupImport.ts:145-148 | an input for a difference: a physical stock without its counterpart is accepted and comes back with a zero |
| `BackupListing.RestoredCanBeExported` | src/modules/backup/backupExport.ts:53-150 | after a restore that got through there is an export: the statements about it are about something |
| `Claims.ClaimBook.ApplyAutoStatus` | src/modules/landing/claims.ts:191-209 | the status recomputed from the notes as they are |
| `Claims.ClaimBook.PatchClaim` | src/modules/landing/claims.ts:112-161 | a patch of the open fields, the status settled from the notes |
| `Claims.ClaimBook.ClaimUpsert` | src/modules/sync/push.ts:618-672 | a pushed claim: every refusal, creation, the gate on frozen fields, then header, notes and status; a note that throws ends it after the header and the notes before it |
| `Claims.ClaimBook.AddCreditNote` | src/modules/landing/claims.ts:163-179 | a note written and the claim's status recomputed |
| `Claims.ClaimBook.DeleteCreditNote` | src/modules/landing/claims.ts:181-189 | a note removed and the claim's status recomputed |
| `Claims.AutoStatusFollowsMoney` | src/lib/validators.ts:139-149 | received exactly when there is a note and the money is there; one that stops being received is claimed exactly if it was sent, else claimable; settling twice changes nothing |
| `Claims.PatchIsExact` | src/modules/landing/claims.ts:112-161 | a patch is taken exactly of a live claim, at the revision named, that touches no frozen field; it stores the open fields sent, and the status given settled by the notes |
| `Claims.NoteAddedIs` | src/modules/landing/claims.ts:163-179 | a note is there as sent, on its claim if new and else on the one it had; its claim is recomputed one revision up, and nothing else changes |
| `Claims.NoteDeletedIs` | src/modules/sync/push.ts:717-724 | from the web a note goes exactly if it is on the claim named, pushed wherever it is; the claim named is recomputed |
| `Claims.CreateIsExact` | src/modules/landing/claims.ts:70-101 | a claim is raised exactly if no live claim has its id or its scheme and period and at most one tombstone does; that one goes with its notes, all others stay |
| `Claims.DeletesExactly` | src/modules/landing/claims.ts:211-216 | a deletion or a cascade tombstones exactly the live claims named, with all they hold |
| `Claims.ClaimBook.ClaimDelete` | src/modules/sync/push.ts:726-735 | a pushed delete of a claim: success when it is gone, conflict on another revision, else a tombstone |
| `Claims.ClaimDeleteTellsTheTruth` | src/modules/sync/push.ts:726-735 | applied exactly when the live claim's revision is named, the claim then dead under the reported one; else a conflict that changes nothing; of a claim that is gone success that changes nothing |
| `Claims.PushAnswerIs` | src/modules/sync/push.ts:618-664 | which answer a pushed claim gets, in the order of the checks: every frozen field sent must be sent as stored, the company excepted |
| `Claims.AppliedClaimIs` | src/modules/sync/push.ts:618-672 | what an applied claim is stored as: new, on exactly what was sent; edited, open fields as sent, frozen ones as they were, the status settled |
| `Claims.StepKeepsIff` | src/modules/landing/claims.ts:79-209 | every operation, web or pushed, keeps each live claim received exactly when its notes settle it, if and only if it is harmless: no note carries another claim across its threshold, and no note throws after a status that disagrees |
| `Claims.StatusFollowsMoney` | src/modules/landing/claims.ts:112-209 | a run keeps every live claim received exactly when it has a note and its notes reach what was accrued, if and only if each operation is harmless where it happens |
| `Claims.DisciplineIsHarmless` | src/modules/sync/push.ts:682-690 | keeping each note id with one claim, and sending notes that can be written, is enough |
| `Claims.ThrowingNoteIff` | src/modules/sync/push.ts:664-671 | a push whose k-th note is the first to throw is rejected with the status right exactly when the one it sent, or the one there was, agrees with what the notes before k settle |
| `Claims.ForeignNoteIff` | src/modules/sync/push.ts:682-715 | a note of one live claim re-sent under another, from the web or pushed, leaves the first claim's status right exactly when the new amount in place of the old keeps it on its side of the threshold |
| `Claims.NoteDeletePushedIff` | src/modules/sync/push.ts:717-724 | a pushed note delete keeps every status right exactly when the claim that loses the note is the one it names, is dead, or stays on its side of the threshold |
| `Claims.NoteDeletedKeeps` | src/modules/landing/claims.ts:181-189 | the web application's delete names claim and note and always keeps every status right |
| `Claims.ClaimOutcomeTellsTheTruth` | src/modules/sync/push.ts:618-672 | applied: stored under the reported revision with the status right; conflict: nothing changed; rejected: nothing changed exactly unless a note threw after the header |
| `Claims.FrozenForGood` | src/modules/landing/claims.ts:20-21 | what a live claim was raised on never changes |
| `Claims.ForeignNoteMisleads` | src/modules/sync/push.ts:682-690 | an input for it: a note re-sent as nothing under another claim leaves the first claim received without the money |
| `Referrals.Desk.Update` | src/modules/referral/service.ts:290-296 | an UPDATE acts on every selected row and reports whether there was one |
| `Referrals.Desk.ApplyCode` | src/modules/referral/service.ts:218-243 | a code is recorded exactly when referrals run, the owner is another account, and the user has neither purchased nor been referred |
| `Referrals.Desk.Summarize` | src/modules/referral/service.ts:200-214 | the three figures of the referrer's screen |
| `Referrals.Desk.Claim` | src/modules/referral/service.ts:246-257 | claiming takes everything that has qualified |
| `Referrals.RowsOnlyMoveForward` | src/modules/referral/service.ts:266-432 | a status only moves forward and never from paid or rejected; a bonus is written once, from pending to qualified, at the day's offer |
| `Referrals.WhatBecomesOfARow` | src/modules/referral/service.ts:246-432 | what every operation makes of a row: pending, it qualifies at the day's offer when its own referee buys; qualified, its referrer claims it; claimed, it is paid; not yet paid, it is rejected; nothing else touches it |
| `Referrals.CodeIsRecordedIff` | src/modules/referral/service.ts:218-243 | a row is added exactly by a code of another account, typed while referrals run by an account neither referred before nor a purchaser |
| `Referrals.PendingIsOwn` | src/modules/referral/service.ts:272-276 | the row found on a purchase is pending and the purchaser's own, and one is found exactly when there is one |
| `Referrals.ClaimMovesAll` | src/modules/referral/service.ts:246-257 | claiming moves the whole claimable sum to pending payout and nothing else |
| `Referrals.MoneyIsConserved` | src/modules/referral/service.ts:200-214 | over any run, with the offer changing, claimable plus pending plus paid plus refused is exactly what was promised |
| `Referrals.OnePromisePerReferee` | migrations-sqlite/0003_referrals.sql:50 | no account is ever referred twice |
| `Dates.TimestampsSortAsTime` | src/lib/dates.ts:52-58 | the order of timestamp strings is the order of time |
| `Dates.DatesSortAsDays` | src/lib/dates.ts:16-17 | date strings compare by year, month and day |
| `Dates.ParsingIsIdempotent` | src/lib/dates.ts:22-49 | the day is taken literally off the front, is a real day in range, and parses to itself |
| `Dates.AcceptedIff` | src/lib/dates.ts:12-49 | a string is accepted exactly if it starts with a day of the Gregorian calendar from 2000 to 2099 and goes on with nothing, a time of day after T or a space, or one after T with an offset, in the digits and separators stated |
| `OrderedScan.SortedUnique` | src/modules/sync/pull.ts:106 | there is only one ordering of a set of keys |
| `OrderedScan.TailIsAfter` | src/modules/freight/service.ts:330-341 | continuing after the n-th key is skipping n keys |

## Left out

- Freight, claim and referral figures are unbounded integers or reals; floating-point rounding and the 0.01 tolerance of the formula checks are taken as given.
- Ids, users and firms are integers; one firm is modelled at a time, and any number of synced tables stands for the 24 of the source.
- Timestamps and dates are integers in the machines; `Dates` proves that the strings compare the same way.
- A REST operation whose checks run before its transaction is one atomic step, as is a push mutation; the interleavings modelled are those of the lock, of a pull and of the watermark cache.
- Children of a synced row (bag splits, cells, receipts, slabs, notes) are inlined in the pull model: a child write counts as a write of its parent, which the grade cascade of `src/modules/masters/service.ts` does not always make true.
- SyncRuns.RemovedRowsAreNotShown: assumes that removed tombstones were seen; `RemovalLeavesGhostIff` says exactly what that is worth and `PurgeRemovesSeen` when the purge meets it.
- SyncRuns.RemovalLeavesGhostIff: rows removed are tombstones; what a purged company or party takes with it by foreign key is left out.
- SyncRuns.NothingIsEverLost: assumes writes are stamped above every upper bound already read and no page is cut inside an instant; `WriteIsSafeIffStampedAbove` and `CompleteIffNoTieCut` say exactly what each assumption is worth.
- Limiter.RateLimiter.LimitHit: needs a maximum of at least one, as every call site passes; with zero the source reads past an empty array.
- Limiter.WindowNeverExceeded: needs a non-decreasing clock, one maximum and window per key, and a window of at most the hour the sweep looks back, as every call site has.
- DbLock.EveryRunIsSerial: work a callback starts but does not await is not modelled, nor is a second process; a ROLLBACK that throws counts as one that took effect, as when SQLite has already rolled back.
- ExpandArrays.Expand: like the source it knows quotes but not SQL comments.
- FreightPush.SerialsAreOneToN: of an import only what it does to the counter is a step of these runs; the entries it writes are in `FreightImport`, one import at a time.
- FreightPush.OneEditPerRevision: runs exclude the purge job, which deletes tombstones for good, so that a reused id starts again at revision 1.
- StockDays.DateKeepsItsRow: runs exclude the purge job, after which a date is given a new row.
- Claims.ClaimBook.ClaimUpsert: a header that cannot be bound, which changes nothing, and the notes' dates and numbers are left out.
- StockDays.RunKeeps: excludes backup import, which can tombstone a baseline under live sheets, and the web application's receipt and note edits, which touch neither dates nor cells.
- BackupRoundTrip.ExportIsAcceptedIff: the depot diary is left out; reading it only ever adds warnings.
- BackupRoundTrip.RoundTripIff: the depot diary and the remaining columns of the masters are left out; what becomes of the plan when it is written is in `BackupRestore`.
- BackupSound.FaultlessPlanIsSound: leaves out the same tables and columns.
- BackupRestore.RestoredAndExportedIff: leaves them out too, and takes the firm restored into to be empty; figures are reals, so no statement is refused for a number.
- BackupWrite.Firm.Restore: revisions, actors and timestamps are left out, and sheets and routes are identified by their date and pair, not by the ids they are given; the entries' revisions and the counter are in `FreightImport`.
- Backup.EntryComesBack: upper-casing covers the ASCII letters only.
- BackupPlan.BuildPlan: the depot diary is left out, JSON is typed (an id is a UUID or another string, a date is valid, invalid or null), messages and warnings are dropped, an id the importer draws itself comes with the wire row, and blank means ASCII white space.
- PushSchedule.Server.Push: what one mutation does is a parameter; routes may answer under another id than the one sent.
- Referrals.Desk.Claim: the console listing, the mail and the Play calls are left out; whether a purchase earns a bonus is an input.
- Sessions.RefreshSucceedsIffReaches: tokens are identified with sessions, and the in-memory session cache is left out.
- OTP codes, plans and features, sponsor links, HTTP routing, validation schemas, HTML pages and all mail, push and Play calls are left out.
- SQLite itself is a map of rows whose statements are atomic; its prepared-statement cache and result shapes are left out.
