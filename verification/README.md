# Truthward: verified models of the migration runner, the intent recovery protocol and the browser-side transformations

This project models the parts of the repository that keep state over time or transform untrusted data, and proves what
they promise. `dafny verify dfyconfig.toml` checks everything.

**Migration runner and doctor** (`scripts/apply_migrations.py`, `scripts/community.py`). A package of SQL files is frozen
and checksummed, then applied under a session advisory lock, one transaction per file and ledger row. `MigrationText` is
the text check at character level, with the real meaning of the two multi-line patterns (leading and trailing space may
cross line breaks). `MigrationFiles` is the manifest and the freezing. `MigrationStore` is one undisturbed run, as the
runner's own loops over a database object and as a function. `MigrationRuns` is the step machine: any number of runs
interleave and any run may die at any step, also between a commit and its report. `MigrationHistory` adds package
upgrades and whole histories from an empty database, and shows that a run left alone in the step machine is the
sequential run. `MigrationOutcome` says what one run does without the runner's own helpers. `Doctor` is the ledger test
of the read-only check, its report, and its agreement with the runner.

**Idempotent-intent recovery** (`frontend/src/lib/api.ts`). `IntentRecovery` has the three segments between awaits, once
as methods on the storage slot and once as steps of a world with concurrent calls, reloads, lost replies, late requests
and storage failures. `IntentEffects` says what each call does for its user. `SlotName` is the arithmetic of the slot's
name.

**Decision timeline** (`frontend/src/hooks/useExecutionExplanationTimeline.ts`). `Timeline` merges pages;
`TimelineFetch` is the loop against a server that may answer anything, and the effect around it; `TimelineView` is what
is seen of one load. `Sorting` and `Keyed` hold the stable sort and the insertion-ordered map that they rest on.

**Bounded printer and redactor** (`frontend/src/lib/safeJson.ts`, `frontend/src/lib/redaction.ts`). `SafeJson` walks a
heap that may be shared or cyclic, as an object with the shared counter, flag and visited set, and as a function;
`SafeJsonFlagged` says what is shown when something was cut. `Json` reads encoded structures (sections 2 to 7 of RFC
8259), `JsonPrint` prints them and proves that the reader reads every printed value back, and `JsonLayout` and
`JsonGrammar` prove that it takes exactly the legal spellings of a value. `Redaction`, `RedactionEffect` and
`RedactionMeaning` are the mutually recursive redactor.

**Browser plan** (`frontend/src/lib/browserPlan.ts`, `frontend/src/components/BrowserPlanFields.tsx`). `BrowserPlan`
reads, checks and builds; `BrowserRoundTrip` relates the two directions; `BrowserEdits` is every edit the form offers,
beside a record of what was reviewed; `BrowserExecution` concludes what may execute. `BrowserMeaning` and
`BrowserEditEffects` say what reading, checking, saving and each edit mean for a configuration and its user.

`Options`, `Basics`, `FiniteSets` and `JsText` are small helpers.

## Assumptions

- A transaction is atomic and the session lock ends with the session. SQL is an uninterpreted partial function on
  database states and does not write the ledger. Checksums are collision-free only where `CollisionFree` is required.
- The server of the intent protocol maps one idempotency key to one run; it may answer late, twice or never.
- What stays unchanged under redaction is stated for an encoder that prints as `JsonPrint.Print` does (`Prints`).
- Sort keys are compared by some total preorder on events; `localeCompare` is one.
- A URL stays valid when it is trimmed, and the empty text is no URL (`TrimmedUrls`, used only for validity after a load).

## Where a plain claim is false

- A fresh run is free of ledger conflicts exactly when the frozen names are distinct (`ConflictIffDuplicate`). They are
  distinct exactly when the manifest does not list `000_db_schema.sql` (`SchemaClash`), a name that the pattern for
  numbered files accepts (`SchemaNameIsNumbered`).
- A valid plan does not always load as a valid one: loading withdraws the acceptance but keeps the change, so the loaded
  plan is refused exactly when the source had changed and some scenario is confirmed (`LoadedValidIff`).
- Saving and loading twice is not always the same as once: it is exactly when the configured target URL is trimmed or
  blank (`IdempotentIffSettled`).
- Concurrent callers need not share a key after a failed run, and the bound on server runs is reached
  (`TwoKeysAfterFailedRun`).
- Slot names of different intents can be equal: `CollisionEverywhere` gives a pair behind every beginning and in front of
  every end, and `SharedSlot` and `TwoUnitsApart` say exactly when names meet.
- Where events are cut into pages can show: a stage that no later page touches keeps the server's order
  (`UntouchedIsInOrderIff`), and merging later pages among themselves first drops what their first page does not list
  (`GroupingDrops`; `GroupingIff` says exactly when it shows).
- A plan in preserve mode says nothing about the configuration that it is saved into: a target with scenarios of its own
  keeps executing them (`OnlyReviewedContentExecutes`).
- A timeline that is ready can fall back to empty, exactly when a server reports a negative total (`FallsBackIff`).

## Model

| member | source | states |
|---|---|---|
| MigrationStore.FirstMismatch | scripts/apply_migrations.py:147-149 | the file reported is the first whose recorded checksum differs, and none is reported exactly when every recorded checksum agrees |
| MigrationStore.Database.ApplyMigrations | scripts/apply_migrations.py:112-174 | the runner's loops end in the outcome, database and ledger of `Apply`, give the lock back on every way out, and change nothing when it is held; a fresh run is refused as not empty exactly over user tables or a ledger, with both unchanged |
| MigrationRuns.NextKeepsSafe | scripts/apply_migrations.py:113-164 | every step of every run, death included, keeps the lock, ledger and snapshot invariant |
| MigrationRuns.EveryInterleavingIsSafe | scripts/apply_migrations.py:113-164 | from any installation and in every interleaving with crashes: one lock holder, its snapshot plus its passed files is the current ledger, every file is applied at most once, no ledger insert conflicts, applied and skipped add up, a fresh run skips nothing |
| MigrationRuns.OneHolder | scripts/apply_migrations.py:118-121 | two runs that both hold the lock are the same run |
| MigrationRuns.AbsentFromLedger | scripts/apply_migrations.py:138-162 | a file missing from the snapshot is missing from the current ledger, although the snapshot is never refreshed |
| MigrationRuns.RefusedCommit | scripts/apply_migrations.py:156-172 | a transaction that rolls back does so because of its script, never because of its ledger row |
| MigrationRuns.OnlyAdvanceWrites | scripts/apply_migrations.py:150-163 | a step that changes database or ledger commits the next unrecorded file of one applying run |
| MigrationRuns.OnlyValidatedRunsWrite | scripts/apply_migrations.py:118-163 | wherever a history changes database or ledger, the writer holds the lock, its snapshot passed the whole validation and is still the ledger but for its own commits |
| MigrationRuns.RejectedRunsWriteNothing | scripts/apply_migrations.py:118-149 | a run that ends turned away by the lock, the emptiness check or validation changed neither database nor ledger with any of its steps |
| MigrationHistory.EveryHistoryIsSafe | scripts/apply_migrations.py:141-164 | across package upgrades, every reachable log keeps the safety invariant and the shape of one schema row before a prefix of the numbered files |
| MigrationHistory.LedgerIsPrefix | scripts/apply_migrations.py:141-164 | the ledger is exactly the rows of a prefix of the list behind at most one schema row, and the database is the fold of exactly those scripts |
| MigrationHistory.NewFileIsNext | scripts/apply_migrations.py:150-163 | a file that the snapshot lacks is the first numbered file that the database lacks |
| MigrationHistory.AllPassedIsAll | scripts/apply_migrations.py:144-152 | a run that passed all its files has reached the end of the log: validation admitted nothing beyond them |
| MigrationHistory.FreshStillAccepted | scripts/apply_migrations.py:122-136 | after any history, a fresh run passes the emptiness check exactly when nothing was ever committed, that is when the database is vacant and has no ledger |
| MigrationHistory.ApplyOnEmpty | scripts/apply_migrations.py:150-174 | one run over an empty database applies every file, skips none, and leaves the fold and the rows of all of them |
| MigrationHistory.ResumeEqualsOneRun | scripts/apply_migrations.py:122-164 | whatever crashed or was interrupted before, a run about to report success faces the database and ledger of one uninterrupted run |
| MigrationHistory.ConflictIffDuplicate | scripts/apply_migrations.py:150-162 | a fresh run whose scripts work fails on a ledger insert if and only if two frozen names are equal |
| MigrationHistory.AloneIsApply | scripts/apply_migrations.py:113-164 | a run that nobody interleaves with has the outcome and the store of the sequential loops |
| MigrationOutcome.NotEmptyIff | scripts/apply_migrations.py:122-136 | a fresh run stops as not empty, and changes nothing, if and only if the database has user tables or a ledger |
| MigrationOutcome.UnknownEntriesIff | scripts/apply_migrations.py:141-146 | past the emptiness check a run is stopped for unknown entries if and only if some row names neither a file nor the schema |
| MigrationOutcome.HashMismatchIff | scripts/apply_migrations.py:147-149 | the mismatch reported is the first file whose row has another checksum, and nothing is changed |
| MigrationOutcome.LoopMeaning | scripts/apply_migrations.py:150-164 | from any file on, the loop commits the longest working beginning of the pending files and stops at the first that fails |
| MigrationOutcome.AdmittedRunMeaning | scripts/apply_migrations.py:138-174 | a run that is let in commits, in order, the pending files up to the first failing script: database, ledger, counts and the reported name follow, and without a failure all are committed |
| MigrationOutcome.LockIsGivenOnce | scripts/apply_migrations.py:118-121 | trying the lock succeeds exactly when it is free, else the run ends locked out |
| MigrationOutcome.EmptinessIsChecked | scripts/apply_migrations.py:122-136 | a run leaves the check admitted if and only if it is not fresh or faces a vacant database without ledger at that step |
| MigrationOutcome.DeathFreesTheLock | scripts/apply_migrations.py:113-121 | a run that dies gives its lock back and leaves database and ledger as they are |
| MigrationOutcome.LockIsInherited | scripts/apply_migrations.py:113-121 | after the death of the holder the next run gets the lock |
| Doctor.LengthClauseRedundant | scripts/community.py:183-187 | the length comparison decides nothing |
| Doctor.LedgerTestMeaning | scripts/community.py:182-187 | the test accepts exactly the inventory plus one schema row |
| Doctor.SchemaNamedFileNeverPasses | scripts/community.py:182-187 | a package with a numbered file of the schema's name can never pass |
| Doctor.PassesAfterFreshRun | scripts/community.py:143-187 | the test holds whenever a fresh run of the package is about to succeed, whatever ran before |
| Doctor.DoctorAgreesWithRunner | scripts/community.py:143-187 | given a schema row, the test passes if and only if a plain run would validate, apply nothing and skip every file |
| Doctor.CommunityDoctor | scripts/community.py:200-322 | the report lists exactly the expected checks, blocks exactly the failed required ones, and is ready if and only if every required finding is good |
| Doctor.NoBlockedIffAllPass | scripts/community.py:315-318 | nothing is blocked exactly when all required checks pass |
| Doctor.BlockedInOrder | scripts/community.py:315 | the ids listed are those of the required checks that did not pass, each exactly once per check and in order |
| Doctor.PathChecks | scripts/community.py:221-237 | there is one required check per path, in order, passed exactly if the path is safe |
| Doctor.LaterChecks | scripts/community.py:241-313 | ids and order of the remaining checks, only docker compose optional; the database is looked at exactly with settings and a non-empty source, and passes exactly on the inventory plus one schema row |
| MigrationText.KeywordAt | scripts/apply_migrations.py:15 | a keyword is found exactly where its spelling stands |
| MigrationText.FirstFrom | scripts/apply_migrations.py:36 | the match found is the leftmost one, and none is missed before it |
| MigrationText.StatementIsFound | scripts/apply_migrations.py:15 | the pattern matches at every bare BEGIN, COMMIT or ROLLBACK statement |
| MigrationText.MatchIsStatement | scripts/apply_migrations.py:15 | and every match is a bare statement with the recorded keyword |
| MigrationText.NumberedAcceptedIff | scripts/apply_migrations.py:32-50 | a numbered text is accepted unchanged if and only if it has no meta-command and no bare transaction statement |
| MigrationText.SchemaAcceptedIff | scripts/apply_migrations.py:32-47 | a schema text is accepted if and only if it has no meta-command, its matches are one BEGIN and one COMMIT behind it, and only comments stand outside; the text between is what is executed |
| MigrationText.FrozenTextIsClean | scripts/apply_migrations.py:32-50 | no accepted text, numbered or schema body, keeps a bare transaction statement or a backslash line |
| MigrationText.MatchIsGreedy | scripts/apply_migrations.py:15 | a match reaches at least as far as any way of reading a statement at its start, trailing line breaks included |
| MigrationText.MetaMeaning | scripts/apply_migrations.py:34 | a text has a meta-command exactly if a backslash follows only space from the start of some line |
| MigrationText.OneLine | scripts/apply_migrations.py:59 | a text without line break is one line, or none if it is empty |
| MigrationText.LineAndRest | scripts/apply_migrations.py:59 | a line break ends a line, and carriage return with line feed is one break |
| MigrationFiles.EntryLine | scripts/apply_migrations.py:60-65 | a line is an entry exactly when it is a checksum, space and a numbered name with nothing but space around them |
| MigrationFiles.ManifestMeaning | scripts/apply_migrations.py:58-68 | a manifest is accepted if and only if every line that is neither blank nor comment is an entry and no name occurs twice; the dictionary binds a name exactly where a line does; otherwise the first fault is reported |
| MigrationFiles.ExpectedDigests | scripts/apply_migrations.py:55-68 | the loop's dictionary holds exactly the entries of a faultless manifest, and its error is the first fault |
| MigrationFiles.FreezeFiles | scripts/apply_migrations.py:72-80 | the loop stops at the first bad file, or every path gives a regular file with the listed digest and accepted text |
| MigrationFiles.LoadMigrations | scripts/apply_migrations.py:53-86 | the whole loader equals its specification, errors and their order included |
| MigrationFiles.LoadSound | scripts/apply_migrations.py:69-80 | a loaded list is strictly sorted and distinct, names exactly the manifest's files, and every file comes from a regular entry with the listed digest |
| MigrationFiles.LoadFollowsManifest | scripts/apply_migrations.py:58-80 | the loaded names are exactly those on the manifest's lines, and every file carries the checksum of its line |
| MigrationFiles.LoadSucceedsIff | scripts/apply_migrations.py:55-80 | numbered files load if and only if the manifest is faultless, the directory has numbered entries and exactly the named ones, and each is regular, readable, has the digest on its line and clean SQL |
| MigrationFiles.FreshLoadSucceedsIff | scripts/apply_migrations.py:53-86 | a fresh package loads if and only if, besides, its schema file is regular, readable and one outer transaction with only comments outside |
| MigrationFiles.LoadedTextIsClean | scripts/apply_migrations.py:32-86 | no loaded text, the schema of a fresh run included, keeps a transaction statement or a meta-command |
| MigrationFiles.SchemaNameIsNumbered | scripts/apply_migrations.py:13 | the schema's ledger name matches the pattern for numbered files |
| MigrationFiles.SchemaClash | scripts/apply_migrations.py:81-85 | with the schema in front names stay distinct if and only if the manifest does not list the schema's name |
| MigrationFiles.SortedPrefix | scripts/apply_migrations.py:69 | of two sorted lists, the one whose additional names all sort later extends the other |
| MigrationFiles.UpgradeExtendsList | scripts/apply_migrations.py:69-80 | a package that keeps the old manifest lines and adds later names freezes to an extension of the old list |
| MigrationFiles.ManifestDeterminesList | scripts/apply_migrations.py:69-80 | with collision-free checksums, one manifest means one frozen list |
| MigrationFiles.LoadedPackages | scripts/apply_migrations.py:53-86 | every package of an upgrade chain of any length freezes to a part of the newest list, behind its schema if there is one |
| MigrationFiles.ChainHistories | scripts/apply_migrations.py:53-164 | every history of runs over a chain of loaded packages is one that the laws of histories speak about, when the newest manifest does not list the schema's name |
| MigrationFiles.NameLeMeaning | scripts/apply_migrations.py:69 | one name stands before another exactly if it is a beginning of it or has the smaller character at the first difference |
| MigrationFiles.SmallerNameFirst | scripts/apply_migrations.py:69 | of two loaded files, the one whose name has the smaller character at the first difference stands first |
| MigrationFiles.BeginningFirst | scripts/apply_migrations.py:69 | a loaded name stands before its proper extensions |
| MigrationFiles.NumberedMeaning | scripts/apply_migrations.py:13 | a name is numbered exactly if it is digits, an underscore, letters, digits or underscores, and .sql |
| MigrationFiles.ChecksumMeaning | scripts/apply_migrations.py:14 | a checksum is the tag sha256: and 64 hexadecimal digits in small letters |
| MigrationFiles.FirstFaultIsReported | scripts/apply_migrations.py:72-80 | when files are bad, the error is that of the first bad one in name order |
| MigrationFiles.FaultOfOneFile | scripts/apply_migrations.py:72-80 | each error of a file has its one cause: not regular, another digest, not UTF-8, or a text that is not clean |
| MigrationFiles.SchemaFileMeaning | scripts/apply_migrations.py:81-85 | the schema file stands first under its ledger name, with the digest of the whole file and the text between its outer pair |
| IntentRecovery.Tab.Begin | frontend/src/lib/api.ts:2159-2188 | from the call to the first await: what is written to the slot, which key is used, whether it is new |
| IntentRecovery.Tab.AfterFetch | frontend/src/lib/api.ts:2171-2188 | from the answer about the recorded run to the next await |
| IntentRecovery.Tab.AfterPost | frontend/src/lib/api.ts:2189-2203 | from the answer to the creating request to the end of the call |
| IntentRecovery.NextKeepsInv | frontend/src/lib/api.ts:2154-2204 | every step of every caller, tab and server keeps the accounting of keys and runs |
| IntentRecovery.EveryHistoryIsAccounted | frontend/src/lib/api.ts:2154-2204 | the accounting holds over every interleaving of calls, reloads, timeouts, lost replies and storage failures |
| IntentRecovery.RunsAreBounded | frontend/src/lib/api.ts:2159-2203 | minted keys, and with them server runs of recovering calls, are at most one more than slot removals and failed storage operations |
| IntentRecovery.RecordedRunIsServers | frontend/src/lib/api.ts:2194-2196 | a recorded run is always the server's run for the key recorded beside it |
| IntentRecovery.RetriesCreateOneRun | frontend/src/lib/api.ts:2159-2203 | without removals and failures all successful calls return one and the same run |
| IntentRecovery.RetriesSendOneKey | frontend/src/lib/api.ts:2159-2203 | without removals and failures all requests of recovering calls carry one key |
| IntentRecovery.LostReplyIsRetriedWithItsKey | frontend/src/lib/api.ts:2163-2203 | after a request whose reply is lost, with reloads and late server work in between, the next call sends the same key again and mints none |
| IntentRecovery.MintedWhen | frontend/src/lib/api.ts:2182-2185 | a key is minted exactly by a call without a key of its own that reads no record or whose recorded run is unusable |
| IntentRecovery.TwoKeysAfterFailedRun | frontend/src/lib/api.ts:2170-2188 | two callers that find one failed run mint one key each, and two more runs are created |
| IntentEffects.CallSends | frontend/src/lib/api.ts:2159-2190 | a call sends its own key, else the recorded one, else a new one, and records it unless writing fails |
| IntentEffects.RecordedRunIsLookedUp | frontend/src/lib/api.ts:2163-2171 | with a recorded run the call looks that run up and writes nothing |
| IntentEffects.LookUpAnswered | frontend/src/lib/api.ts:2171-2181 | a live run is returned and stays recorded; an unanswered look-up fails the call and keeps the record |
| IntentEffects.UnusableRunIsReplaced | frontend/src/lib/api.ts:2171-2190 | after a failed, cancelled or vanished run the call sends a new key, or the one of its payload, and records it |
| IntentEffects.CreatedRunIsRecorded | frontend/src/lib/api.ts:2191-2198 | a created run is returned and recorded beside its key |
| IntentEffects.CreatedRunIsReturnedAgain | frontend/src/lib/api.ts:2159-2198 | the next call looks the created run up, and while it lives returns it without sending anything |
| IntentEffects.RefusalForgets | frontend/src/lib/api.ts:2199-2203 | a refused request empties the slot and fails the call |
| IntentEffects.RefusedKeyIsNotSentAgain | frontend/src/lib/api.ts:2182-2203 | from an empty slot a refused call removes its record, and the next call mints and sends another key |
| IntentEffects.LostReplyKeepsRecord | frontend/src/lib/api.ts:2199-2203 | without an answer, or with a server error, the record stays |
| IntentEffects.DirectCallsLeaveTheSlot | frontend/src/lib/api.ts:2160-2162 | a call outside recovery sends its key and never touches the slot |
| IntentEffects.LookUpByStatus | frontend/src/lib/api.ts:2171-2181 | a look-up renews the record exactly after a failed or cancelled run and after status 401, 403 or 404; otherwise the call ends and the slot stays |
| IntentEffects.CreationByStatus | frontend/src/lib/api.ts:2199-2203 | a failed creation empties the slot exactly for a recovering call and a status from 1 to 499 |
| IntentEffects.ServedOnce | frontend/src/lib/api.ts:2154-2204 | a request that was sent can be served, and one key keeps one run for ever |
| SlotName.ComputeHash | frontend/src/lib/api.ts:2150 | the reduction equals the fold of the hash step |
| SlotName.ScaleIsBijection | frontend/src/lib/api.ts:2150 | multiplication by 16777619 modulo 2^32 is inverted by 899433627 |
| SlotName.MixIsBijection | frontend/src/lib/api.ts:2150 | for every code unit the hash step is a bijection on 32-bit words |
| SlotName.MixSeparatesUnits | frontend/src/lib/api.ts:2150 | for every word the hash step is injective in the code unit |
| SlotName.OneUnitApart | frontend/src/lib/api.ts:2150 | texts that differ in exactly one code unit have different hashes |
| SlotName.TwoUnitsApart | frontend/src/lib/api.ts:2150 | two neighbouring changes cancel if and only if the second undoes what the first did to the word |
| SlotName.SharedSlot | frontend/src/lib/api.ts:2148-2152 | slot names are equal if and only if hash and length are |
| SlotName.NeighboursNeverShare | frontend/src/lib/api.ts:2148-2152 | equal-length intents that differ in exactly one code unit never share a slot |
| SlotName.CollisionEverywhere | frontend/src/lib/api.ts:2148-2152 | behind every beginning and in front of every end there are two different pairs of code units whose intents share a slot |
| SlotName.KeyDoesNotMatter | frontend/src/lib/api.ts:2149-2151 | the slot name does not depend on the idempotency key, wherever the payload carries it |
| SlotName.OtherFieldsStay | frontend/src/lib/api.ts:2149 | every other field is serialised as it stands, in its place |
| SlotName.NothingElseIsDropped | frontend/src/lib/api.ts:2149 | a payload without idempotency key is serialised as it is |
| SlotName.XorBits | frontend/src/lib/api.ts:2150 | the exclusive or has a bit exactly where one of the numbers has it |
| SlotName.HashOfNext | frontend/src/lib/api.ts:2150 | the hash starts at 2166136261 and each unit is mixed in by exclusive or and a multiplication of which 32 bits are kept |
| SlotName.NameSpells | frontend/src/lib/api.ts:2151 | behind the prefix the name spells the hash in base 16 and the length in base 10 |
| Sorting.StableSortIsStable | frontend/src/hooks/useExecutionExplanationTimeline.ts:138 | the sort is sorted, a permutation, and keeps the order of equal elements |
| Sorting.SortedUnique | frontend/src/hooks/useExecutionExplanationTimeline.ts:138 | any two stable sorts of a list are the same list |
| Keyed.CollectKeepsLast | frontend/src/hooks/useExecutionExplanationTimeline.ts:163-177 | every kept element is the last one with its key |
| Keyed.CollectKeepsOrder | frontend/src/hooks/useExecutionExplanationTimeline.ts:163-177 | no key is lost and kept keys stand in the order of their first appearance |
| Keyed.CollectTwice | frontend/src/hooks/useExecutionExplanationTimeline.ts:151-154 | deduplicating in portions is deduplicating at once |
| Timeline.MergeEventLists | frontend/src/hooks/useExecutionExplanationTimeline.ts:136-138 | the two Map loops and the sort compute the specified merge |
| Timeline.DedupeUnavailableReasons | frontend/src/hooks/useExecutionExplanationTimeline.ts:163-177 | the loop computes the insertion-ordered collection |
| Timeline.MergeEventsIsSortOfAll | frontend/src/hooks/useExecutionExplanationTimeline.ts:136-138 | merging into a sorted deduplicated list is sorting and deduplicating everything at once |
| Timeline.PagingIndependence | frontend/src/hooks/useExecutionExplanationTimeline.ts:126-161 | a touched group holds the stable sort of the deduplication of all its events, an untouched one what the first page brought |
| Timeline.SplitDoesNotMatter | frontend/src/hooks/useExecutionExplanationTimeline.ts:103-161 | wherever the same events are cut into pages, the first page included, the same list is shown, when both or neither cut touches the stage again |
| Timeline.UntouchedIsInOrderIff | frontend/src/hooks/useExecutionExplanationTimeline.ts:131-138 | a group that no later page touches is the sorted deduplication if and only if the first page brought it so |
| Timeline.GroupingDoesNotMatter | frontend/src/hooks/useExecutionExplanationTimeline.ts:126-161 | a block of pages merged on its own first gives the same events, for every stage its first page lists |
| Timeline.GroupingDrops | frontend/src/hooks/useExecutionExplanationTimeline.ts:131-135 | a stage that the first page of a block does not list is dropped with all later events of the block |
| Timeline.GroupingIff | frontend/src/hooks/useExecutionExplanationTimeline.ts:126-161 | merging a block on its own first gives the same events if and only if its first page lists the stage, or no later page of it touches the stage, or the known group is sorted, free of repeated ids and holds all of the block already |
| Timeline.ReasonsOfAllPages | frontend/src/hooks/useExecutionExplanationTimeline.ts:151-154 | reasons keep first position and last value over all pages, whatever the split |
| Timeline.SummaryAfter | frontend/src/hooks/useExecutionExplanationTimeline.ts:139-145 | a group keeps its identity, the greatest count it was told, its own number of events and the reason given first |
| Timeline.PaginationOfAllPages | frontend/src/hooks/useExecutionExplanationTimeline.ts:148-160 | header of the first page, cursor of the last, greatest total, and the number of events held |
| Timeline.UnlistedStageIsDropped | frontend/src/hooks/useExecutionExplanationTimeline.ts:131-135 | a stage missing from the first page never appears |
| Timeline.MergeGrows | frontend/src/hooks/useExecutionExplanationTimeline.ts:126-161 | against any page, no event id is lost, no count goes down, and returnedEvents is the sum over the groups |
| Timeline.IncomingMeaning | frontend/src/hooks/useExecutionExplanationTimeline.ts:130-132 | looking up a stage finds it exactly if any group of the page has it, and of repeated ones the last |
| Timeline.PageIsTakenIn | frontend/src/hooks/useExecutionExplanationTimeline.ts:131-146 | wherever the known projection lists a stage of the page, all events of the page's group are taken in, its count is reached and a reason is kept |
| Timeline.OtherStagesStay | frontend/src/hooks/useExecutionExplanationTimeline.ts:131-135 | a stage that the page does not have stays as it is |
| Timeline.SameReasonIff | frontend/src/hooks/useExecutionExplanationTimeline.ts:166-174 | two reasons without colons in their first five parts have one key exactly if all six parts agree |
| TimelineFetch.FetchComplete | frontend/src/hooks/useExecutionExplanationTimeline.ts:99-124 | against any server: at most 50 requests, no cursor twice, every publication is the next merge, and the end is an error or a projection without usable cursor |
| TimelineFetch.CursorsAreUsable | frontend/src/hooks/useExecutionExplanationTimeline.ts:107-115 | only a non-empty cursor is sent on, and only of a page that announces more |
| TimelineFetch.PublishedIsMerge | frontend/src/hooks/useExecutionExplanationTimeline.ts:103-121 | what is published is the merge of the pages so far |
| TimelineFetch.PublicationsGrow | frontend/src/hooks/useExecutionExplanationTimeline.ts:103-121 | from publication to publication event ids are only added and no count goes down |
| TimelineFetch.NextKeepsView | frontend/src/hooks/useExecutionExplanationTimeline.ts:36-94 | every effect run, cleanup, page, result and failure keeps the view invariant |
| TimelineFetch.EveryViewIsCurrent | frontend/src/hooks/useExecutionExplanationTimeline.ts:29-97 | in every interleaving a stored projection is the latest instance's, exists exactly in ready and empty, and loadingMore means that instance is in flight |
| TimelineFetch.StaleAnswersAreIgnored | frontend/src/hooks/useExecutionExplanationTimeline.ts:55-94 | a superseded or unmounted instance changes nothing that is shown |
| TimelineFetch.ReadyStaysReady | frontend/src/hooks/useExecutionExplanationTimeline.ts:55-67 | fed by one load of any server, with other instances answering in between: shown event ids are only added, totals do not go down, and ready falls back to empty only after a negative total |
| TimelineFetch.FallsBackIff | frontend/src/hooks/useExecutionExplanationTimeline.ts:59-67 | a merge turns ready into empty exactly when a negative total meets a page that reports zero |
| TimelineView.OthersAreIgnored | frontend/src/hooks/useExecutionExplanationTimeline.ts:55-71 | while one load is at work, answers of other instances change neither the view nor its own state |
| TimelineView.RerunBeginsAfresh | frontend/src/hooks/useExecutionExplanationTimeline.ts:36-53 | after any history a rerun clears what is shown, cancels the instances before and loads exactly if there is an execution that may be read |
| TimelineView.EarlyFailure | frontend/src/hooks/useExecutionExplanationTimeline.ts:69-91 | a failure before the first page: restricted exactly for status 403, unavailable exactly for 404, 409, 410 and 503, else failed, which alone shows an error |
| TimelineView.PageIsShown | frontend/src/hooks/useExecutionExplanationTimeline.ts:55-61 | a page of the load at work is shown, as empty exactly if its total is zero, with more announced unless it is complete |
| TimelineView.LateFailure | frontend/src/hooks/useExecutionExplanationTimeline.ts:69-75 | a failure behind a page leaves what is shown and adds an error, whatever the status |
| TimelineView.ResultIsShown | frontend/src/hooks/useExecutionExplanationTimeline.ts:63-68 | the result is shown, loading ends, and no later answer of the load changes anything |
| TimelineView.PageThenFailure | frontend/src/hooks/useExecutionExplanationTimeline.ts:53-75 | a load that shows a page and then fails keeps that page beside the error, whatever others answer in between |
| SafeJson.Sanitizer.VisitValue | frontend/src/lib/safeJson.ts:28-63 | the closure over counter, flag and visited set computes `Visit`, result and new state |
| SafeJson.Sanitizer.VisitChildren | frontend/src/lib/safeJson.ts:53-61 | the loop over entries or items computes `VisitSlots` from left to right |
| SafeJson.SanitizeForDisplay | frontend/src/lib/safeJson.ts:16-71 | the printer computes the specified text and flag |
| SafeJson.VisitCounts | frontend/src/lib/safeJson.ts:28-63 | real results use up the node budget and every rebuilt container marks a new object |
| SafeJson.VisitShape | frontend/src/lib/safeJson.ts:34-61 | result depth is bounded by the depth limit and no blocked key appears |
| SafeJson.VisitFaithful | frontend/src/lib/safeJson.ts:28-63 | the flag stays down exactly on a tree within all limits, and then the result says the same as the input |
| SafeJson.FaithfulUnlessFlagged | frontend/src/lib/safeJson.ts:16-71 | unflagged if and only if the reachable heap is a tree within the node, depth, string and text limits and without blocked key; then the result equals the input |
| SafeJson.AlwaysBounded | frontend/src/lib/safeJson.ts:16-71 | on any heap, cycles included: bounded results, expansions, depth and text, and no blocked key |
| SafeJsonFlagged.FlagHasNoInfluence | frontend/src/lib/safeJson.ts:28-63 | the flag never influences what is shown, counted or marked |
| SafeJsonFlagged.PlaceholderIff | frontend/src/lib/safeJson.ts:29-52 | each placeholder has its one cause: the node limit, then the depth limit, then an object seen before |
| SafeJsonFlagged.TextIsShown | frontend/src/lib/safeJson.ts:38-42 | a text within the limit stands as it is and one over it shows its first characters and an ellipsis, whatever was cut before |
| SafeJsonFlagged.PrimitiveIsShown | frontend/src/lib/safeJson.ts:43-47 | primitives are kept, and a bigint, a symbol and a function are shown as text |
| SafeJsonFlagged.SlotsInOrder | frontend/src/lib/safeJson.ts:53-61 | children are walked from left to right, each from the state that the ones before it left |
| SafeJsonFlagged.VisitShows | frontend/src/lib/safeJson.ts:28-63 | on every heap every result is a placeholder, a text or its beginning, the primitive, an array with a result per item, or a record with a result for each displayed key |
| SafeJsonFlagged.VisitIsAccounted | frontend/src/lib/safeJson.ts:28-63 | without colliding displayed keys every visit costs one node and shows one result, and the objects marked are those expanded |
| SafeJsonFlagged.OverlongDisplay | frontend/src/lib/safeJson.ts:65-70 | a text over the limit shows its first characters and an ellipsis on a new line and is flagged; any other is shown whole |
| Json.Decode | frontend/src/lib/redaction.ts:41-46 | every text inside a decoded value is strictly shorter than the text it came from |
| JsonPrint.DecodePrinted | frontend/src/lib/redaction.ts:43-44 | the reader gives back every value that was printed |
| JsonPrint.DecodedIsProper | frontend/src/lib/redaction.ts:43-44 | the reader gives nothing but well-formed values, and printing and reading them again gives them back |
| JsonLayout.DecodeWritten | frontend/src/lib/redaction.ts:43-44 | a text that spells a value with space around its tokens, any legal escapes and repeated keys is read as that value |
| JsonGrammar.DecodesIffSpelled | frontend/src/lib/redaction.ts:43-44 | a text is read as a value if and only if it is such a spelling of it |
| JsonGrammar.ProperNumberIff | frontend/src/lib/redaction.ts:43-44 | a number is read exactly if it is an optional minus, a whole part without leading zero, a fraction and an exponent |
| Redaction.Encoded | frontend/src/lib/redaction.ts:40-44 | only an object or array is taken as encoded, and it is strictly smaller than its text |
| Redaction.RedactTextIndependent | frontend/src/lib/redaction.ts:39-51 | texts whose encoded structures differ only under sensitive keys redact to the same text |
| Redaction.RedactValueIndependent | frontend/src/lib/redaction.ts:58-87 | snapshots that differ only under sensitive keys, at any depth and inside encoded texts, redact to the same result |
| Redaction.EncodedHasNoPrefix | frontend/src/lib/redaction.ts:81-84 | the prefix test never takes an encoded structure away from the recursion |
| Redaction.SecretHasNoInfluence | frontend/src/lib/redaction.ts:58-72 | no value under a sensitive key influences the redacted record |
| RedactionEffect.PrintedIsEncoded | frontend/src/lib/redaction.ts:40-44 | a printed structure is recognised as what it encodes exactly within the size guard |
| RedactionEffect.RedactPrinted | frontend/src/lib/redaction.ts:39-51 | redacting the text of a structure is encoding the redacted structure, and past the guard the patterns apply |
| RedactionEffect.EncodedSecretHasNoInfluence | frontend/src/lib/redaction.ts:39-51 | no secret inside an encoded record influences the redacted text |
| RedactionEffect.TextUnchangedIff | frontend/src/lib/redaction.ts:39-51 | a text stays as it is if and only if it encodes nothing and the patterns leave it alone, or it is the printed form of a structure that stays as it is |
| RedactionEffect.UnchangedIffUntouched | frontend/src/lib/redaction.ts:58-87 | a snapshot stays as it is if and only if no sensitive key holds anything but the placeholder and every other key and text stays, inside encoded structures as well |
| RedactionMeaning.SensitiveMeaning | frontend/src/lib/redaction.ts:2-22 | a key is sensitive exactly if its letters and digits are secretref or hold one of fifteen fragments; the other three fragments and two reference keys decide nothing |
| RedactionMeaning.LettersBecomeSmall | frontend/src/lib/redaction.ts:59 | case is dropped from the letters of a key |
| RedactionMeaning.OthersAreDropped | frontend/src/lib/redaction.ts:59 | every character but ASCII letters and digits, and two letters with an ASCII lower case, is dropped from a key |
| RedactionMeaning.CaseDoesNotMatter | frontend/src/lib/redaction.ts:58-62 | the case of a letter anywhere in a key does not decide whether it is sensitive |
| RedactionMeaning.PunctuationDoesNotMatter | frontend/src/lib/redaction.ts:58-62 | nor does punctuation anywhere in it |
| RedactionMeaning.SecretIsReplaced | frontend/src/lib/redaction.ts:58-84 | anything under a sensitive key, and any text that begins with one of the seven prefixes, is replaced as a whole |
| RedactionMeaning.ItemsAreRedacted | frontend/src/lib/redaction.ts:63-65 | an array keeps its length and each item is redacted without a key |
| RedactionMeaning.RecordIsRedacted | frontend/src/lib/redaction.ts:66-73 | a record has every redacted key, with the redacted value of the last field whose key redacts to it |
| RedactionMeaning.SpelledIsEncoded | frontend/src/lib/redaction.ts:40-44 | a text that spells an object or array, with any space around and inside, is recognised up to 65536 characters without the space around it |
| RedactionMeaning.SpellingDoesNotMatter | frontend/src/lib/redaction.ts:39-47 | two spellings of one structure redact to the same text |
| RedactionMeaning.OtherTextIsScrubbed | frontend/src/lib/redaction.ts:39-51 | a text with another first character, one that is no JSON and one over the limit go to the patterns |
| BrowserPlan.CheckPlan | frontend/src/lib/browserPlan.ts:230-245 | the scanning loops report the first error in scan order |
| BrowserPlan.AssembleTarget | frontend/src/lib/browserPlan.ts:248-254 | filling the two target records field by field gives the specified records |
| BrowserPlan.AssembleAction | frontend/src/lib/browserPlan.ts:247-274 | filling the action record field by field gives the specified record |
| BrowserMeaning.ActionTexts | frontend/src/lib/browserPlan.ts:81-103 | each text of a read action comes from the first of its fields that is there and not null, and the match is exact only if it says so |
| BrowserMeaning.KindIsRead | frontend/src/lib/browserPlan.ts:69-73 | an unknown kind is read as a visibility check, any other as the kind it names |
| BrowserMeaning.StatusIsRead | frontend/src/lib/browserPlan.ts:75-125 | an unknown status is a draft, an unknown author the user, and a scenario is selected unless it says false |
| BrowserMeaning.ScenarioTexts | frontend/src/lib/browserPlan.ts:105-125 | texts of a read scenario fall back on empty values, and its actions are read in order with ids built from its own |
| BrowserMeaning.TextsAreKept | frontend/src/lib/browserPlan.ts:61-63 | of a list of texts the non-empty ones are kept, in order |
| BrowserMeaning.RecordsAreKept | frontend/src/lib/browserPlan.ts:65-67 | of a list of references the records are kept, in order |
| BrowserMeaning.HowAPlanIsTaken | frontend/src/lib/browserPlan.ts:178-219 | scenario records win; without them an executing configuration is preserved unread exactly if one action has an unknown kind, else it becomes one scenario; otherwise there is no execution |
| BrowserMeaning.HeaderIsRead | frontend/src/lib/browserPlan.ts:165-191 | revision, fingerprint, change flag and summary are read with their defaults, and an acceptance is never loaded |
| BrowserMeaning.OldScenario | frontend/src/lib/browserPlan.ts:195-217 | the scenario of an old configuration is confirmed, selected and holds its actions in order |
| BrowserMeaning.SoundActionIff | frontend/src/lib/browserPlan.ts:236-242 | an action has no fault exactly if it names its target, its text or its one reference by a visible character |
| BrowserMeaning.ScenarioFault | frontend/src/lib/browserPlan.ts:234-243 | the fault of a scenario is its URL, then missing actions, then that of its first faulty action |
| BrowserMeaning.NoPlanErrorIff | frontend/src/lib/browserPlan.ts:230-245 | a draft has no error if and only if every confirmed scenario is sound and a changed source is accepted |
| BrowserMeaning.FirstFault | frontend/src/lib/browserPlan.ts:232-244 | the error reported is that of the first confirmed scenario that is not sound |
| BrowserMeaning.SaveKeepsTheRest | frontend/src/lib/browserPlan.ts:276-317 | a save alters nothing but four fields of the functional record, and a preserved plan alters nothing |
| BrowserMeaning.SavedExecution | frontend/src/lib/browserPlan.ts:280-305 | saving without execution removes three fields and switches execution off; with scenarios the switch is on exactly if one is selected and confirmed |
| BrowserMeaning.SavedActionPolicy | frontend/src/lib/browserPlan.ts:255-273 | every saved action looks at the page structure first, at accessible names next, never at coordinates, and only a fill carries references |
| BrowserMeaning.SavedTarget | frontend/src/lib/browserPlan.ts:248-254 | the saved target has exactly the fields with a visible character, and a URL only for navigation |
| BrowserMeaning.IdsInOrder | frontend/src/lib/browserPlan.ts:319-327 | on any configuration the executable ids are those of the confirmed records that are not deselected and have an id, in order |
| BrowserRoundTrip.ReadBuiltAction | frontend/src/lib/browserPlan.ts:81-103 | reading a built action gives the action's normal form |
| BrowserRoundTrip.ReadBuiltScenario | frontend/src/lib/browserPlan.ts:105-125 | reading a built scenario gives the scenario's normal form |
| BrowserRoundTrip.SaveThenLoad | frontend/src/lib/browserPlan.ts:178-317 | loading a saved valid draft gives its normal form with the next revision and the acceptance withdrawn |
| BrowserRoundTrip.NoErrorMeaning | frontend/src/lib/browserPlan.ts:232-244 | the scan finds no error exactly when every confirmed scenario passes every check |
| BrowserRoundTrip.LoadedValidIff | frontend/src/lib/browserPlan.ts:178-245 | a valid draft loads as valid if and only if the source is unchanged or nothing is confirmed |
| BrowserRoundTrip.IdempotentIffSettled | frontend/src/lib/browserPlan.ts:105-125 | normalising is idempotent on every draft if and only if the configured target URL is trimmed or blank |
| BrowserRoundTrip.SecondSaveAltersRevisionOnly | frontend/src/lib/browserPlan.ts:276-317 | with an unchanged source and such a URL, saving and loading once more alters the revision alone |
| BrowserEdits.OneScenario | frontend/src/components/BrowserPlanFields.tsx:21-28 | an edit that makes a scenario a draft, or changes its selection alone, keeps all reviews good |
| BrowserEdits.HintKeepsInv | frontend/src/components/BrowserPlanFields.tsx:42-56 | a locator hint, wherever it lands, leaves nothing confirmed that was not reviewed |
| BrowserEdits.EveryEditIsReviewed | frontend/src/components/BrowserPlanFields.tsx:21-116 | after any sequence of edits a confirmed scenario has the content it was last confirmed or loaded with, and was confirmed after the latest acceptance of a changed source |
| BrowserEditEffects.OthersStay | frontend/src/components/BrowserPlanFields.tsx:21-28 | an edit of one scenario leaves every other scenario and the rest of the plan alone |
| BrowserEditEffects.ReviewIsLost | frontend/src/components/BrowserPlanFields.tsx:21-34 | every edit of a scenario's content makes it a draft and keeps its id and selection |
| BrowserEditEffects.ActionIsUpdated | frontend/src/components/BrowserPlanFields.tsx:29-34 | an update reaches the one action of the one scenario |
| BrowserEditEffects.PlanWideEdits | frontend/src/components/BrowserPlanFields.tsx:64-116 | what changing the mode, taking the suggested URL and accepting a source do to every scenario, and that they leave the rest alone |
| BrowserEditEffects.HintLands | frontend/src/components/BrowserPlanFields.tsx:42-56 | a locator hint lands on the first scenario and action with its ids, else on the first ones, and changes nothing without a place |
| BrowserExecution.SavedScenariosExecute | frontend/src/lib/browserPlan.ts:319-327 | a saved configuration executes exactly the selected confirmed scenarios of the draft, in order |
| BrowserExecution.NothingExecutesWithoutScenarios | frontend/src/lib/browserPlan.ts:279-286 | saving without execution leaves nothing executable; a preserved plan hands the target on as it is, and a target without scenarios executes nothing |
| BrowserExecution.OnlyReviewedContentExecutes | frontend/src/lib/browserPlan.ts:276-327 | after any edits and an accepted save into whatever configuration, every executable id names a reviewed, unchanged, faultless scenario, confirmed after the latest acceptance if the source changed; only a plan preserved unread leaves a target's own scenarios alone |
| BrowserExecution.DistinctIdsNameReviewedOnly | frontend/src/lib/browserPlan.ts:319-327 | with distinct scenario ids, and unless a preserved plan hands foreign scenarios on, an executable id names nothing but that reviewed scenario |
| BrowserEditEffects.ConfirmedExecutes | frontend/src/lib/browserPlan.ts:276-327 | after any edits, a sound scenario that is selected and confirmed can be saved anywhere unless another confirmed one is faulty, and executes with the content it had |
| BrowserEditEffects.FaultStopsSave | frontend/src/lib/browserPlan.ts:276-278 | a confirmed scenario with a fault, or a changed source that is not accepted, stops every save |

## Left out

- OnlyReviewedContentExecutes: claims a reviewed scenario for every executable id, not that no other scenario carries the
  same id; ids read from a configuration may repeat, and `DistinctIdsNameReviewedOnly` covers distinct ones.
- RunsAreBounded: follows one intent in one slot; two intents whose slot names collide would share it.
- EveryViewIsCurrent: the cleanup of one effect run and the start of the next are one step, and React's batching is not
  modelled; after an unmount only the stored projection is claimed, not the flags.
- FrozenTextIsClean: speaks of statements and meta-commands that the two patterns describe, not of other SQL that would
  end a transaction.
- FaithfulUnlessFlagged: plain records and arrays with non-negative text limits; getters, symbol keys, dates and the
  field order that JavaScript gives to numeric keys are not captured, and JSON.stringify is a parameter.
- RedactValueIndependent: the free-text patterns are one total function, JSON.stringify is a parameter, numbers keep
  their spelling, halves of surrogate pairs read as U+FFFD, and lengths count characters rather than UTF-16 units.
- SaveThenLoad: a record holds its fields without order; numbers are reals, so the rounding of doubles is left out.
- Action ids: they come from the current number of actions and can repeat after a removal, so no uniqueness is claimed.
- PostgreSQL, psycopg, SHA-256, UTF-8 decoding and the file system: parameters and stated assumptions; VARCHAR lengths,
  timeouts, the URL checks, printed lines and error texts are not modelled.
- The browser form's handlers and the effect are modelled on values, as the source writes them; the objects behind
  React state are not.
- `configure`, the probes of the doctor for Python, paths, Node, npm and Docker, and its command line: their results are
  parameters.
- The HTTP transport and the other wrappers of `api.ts`: only the outcome of a request matters here.
- The backend: the server of the intent protocol is an assumption and the paging server is arbitrary.
- `useCegProjection.ts`, the remaining hooks, pages, components, translations and presentation helpers: they add easy
  list filters, or repeat one pattern without a guard against stale answers.
