# Once-only remote actions: a model and its proofs

This project models the parts of the repository that make remote actions safe under crashes, lost
replies and finite budgets, and proves what they promise.

- **Publisher ceremony** (`PublisherLedger`, `PublisherSafety`, `PublisherJournal`, `PublisherCapacity`,
  `PublisherClient`, `PublisherOperator`, `WorkerIdentity`).  A durable intent journal, an operator that
  provisions and exercises four scenarios and is cleaned up under separate authority, and a client that
  dispatches seven phases each.  A ghost trace records every committed row and every effect that leaves
  the process; `Lawful` says which step may follow which history; the classes only extend lawful traces,
  whatever the provider answers and wherever the process dies; `PublisherSafety` derives the global
  promises from the law.
- **Ruleset walk** (`RulesetWalk`).  The bounded depth-first search, as a function with soundness and
  completeness theorems, and as the recursive collector that performs it.
- **Fixed-origin attempt** (`FixedOrigin`).  Latched operations, ordered teardown, one verdict, and the
  owner lock with crashes and manual removal.
- **Strict response reader** (`StrictReader`).  The response grammar as a parser of octets, and the
  buffered reader that computes it however the octets arrive.
- **Archive and snapshot** (`SqlArchive`, `ArchiveRestore`, `ArchiveText`, `Snapshot`, `SnapshotTables`,
  `Ordering`, `DecimalText`).  Literal printing and its inverse, restore-and-recapture, the script as one
  text, canonical typed snapshots.
- **Smaller protocols** (`Keyset`, `PauseBatch`, `Timestamp`, `Teardown`, `NativeDispatch`).

`Outcomes.dfy` holds the shared result types.  A call may end normally, raise, or (`Crashed`) die with
its process, after which only the journal survives.  Provider replies, clock readings, grant checks, stop
requests and the contents of handshake files are arbitrary.  Octets are written as characters.

Where the code and its promises differ:

- `_timestamp` is meant to tell texts apart up to trailing fraction zeros.  Its pattern and the date
  parser also accept non-ASCII decimal digits, so that fails for them; `Timestamp` states the exact
  condition (the text is ASCII) and gives the colliding pair.
- A pause receipt names the plan only as far as the operation identifier does.  A confirmed receipt is
  right if and only if no other plan committed under the identifier; `PauseBatch` proves that over all
  histories and gives an instance of the other case.
- The header loop accepts 99 fields, not 100: the blank line is read after the count is checked.

## Model

| member | source | states |
|---|---|---|
| `PublisherSafety.TotalsWithinBudgets` | scripts/hosted_publisher_operator.py:340-398 | At every moment of every lawful history, cut anywhere, the six totals folded over the journal (unfinished requests at their full 2,097,152-byte reservation) are within the plan's budgets |
| `PublisherSafety.RowsPersist` | scripts/hosted_publisher_operator.py:145-177 | Over any later history a row never disappears, never changes its payload, and once settled never changes again |
| `PublisherSafety.ReservedOnce` | scripts/hosted_publisher_operator.py:145-158 | No key is reserved twice, across any number of processes and crashes |
| `PublisherSafety.KeysMatchRows` | scripts/hosted_publisher_operator.py:145-158 | The journal's key order lists exactly its rows, without repetition, at most 2,048 of them |
| `PublisherSafety.LawfulPrefix` | scripts/hosted_publisher_operator.py:145-177 | A crash at any point of a lawful history leaves a lawful history |
| `PublisherSafety.DispatchedOnce` | scripts/hosted_publisher_finite_client.py:404-453 | Each (scenario, phase) reaches the transport at most once, directly after its own reservation, inside the authority window |
| `PublisherSafety.PhaseAfterPhase` | scripts/hosted_publisher_finite_client.py:404-412 | A phase is reserved only once its predecessor is complete |
| `PublisherSafety.ClientEntriesArePrefix` | scripts/hosted_publisher_finite_client.py:404-492 | After any history each scenario's client rows are complete for a prefix of the seven phases, then at most one row that is pending or unknown, then nothing |
| `PublisherSafety.EarlierScenariosFinished` | scripts/hosted_publisher_operator.py:758-841 | A scenario has any client row only if every earlier scenario completed all seven phases and was read back disabled |
| `PublisherSafety.NothingDispatchedAfterCleanup` | scripts/hosted_publisher_operator.py:632-641 | Once the cleanup row exists, no client phase is reserved or dispatched, ever |
| `PublisherSafety.InvokedOnce` | scripts/hosted_publisher_operator.py:421-427 | No provider operation is invoked twice: one delete per Worker and per database over all cleanup attempts |
| `PublisherSafety.WorkerDisposal` | scripts/hosted_publisher_operator.py:1026-1042 | A Worker is deleted only by its acknowledged creation identity, after cleanup was entered and its access was read back disabled |
| `PublisherSafety.DatabaseDisposal` | scripts/hosted_publisher_operator.py:996-1062 | A database is deleted only by the identity of its acknowledged creation, with binding, version and deployment complete, and only after its Worker's delete was invoked, then acknowledged, then the Worker was read back absent, in that order |
| `PublisherSafety.MigrationsInOrder` | scripts/hosted_publisher_operator.py:765-787 | A completed migration implies every earlier one completed, each after its own SQL charge |
| `PublisherSafety.WorkerFollowsEmptyDatabase` | scripts/hosted_publisher_operator.py:709-737 | A Worker exists only beside an owned database that was read back unchanged and empty |
| `PublisherSafety.EnabledWasDeployable` | scripts/hosted_publisher_operator.py:788-810 | Enabling was invoked only over an owned Worker and an owned, empty-checked, fully migrated database, with the version and deployment read back equal and the binding verified for that database |
| `PublisherSafety.PhaseRestsOnDeployment` | scripts/hosted_publisher_operator.py:758-837 | A client phase reaches the transport only when all of that holds, the endpoint was read back enabled without previews, and the phase SQL capacity was charged |
| `PublisherSafety.BindingNamesOwnedDatabase` | scripts/hosted_publisher_operator.py:807-808 | A binding row always names the database acknowledged for its scenario |
| `PublisherSafety.CreationReceipts` | scripts/hosted_publisher_operator.py:447-521 | A completed creation row carries the identity it created |
| `PublisherSafety.CommitReserve` | scripts/hosted_publisher_operator.py:145-158 | Committing a reservation keeps the history lawful and adds exactly its charge to the totals |
| `PublisherSafety.CommitFinish` | scripts/hosted_publisher_operator.py:159-170 | Settling a row keeps the history lawful and moves the totals by exactly the change of its charge |
| `PublisherCapacity.CapacitySumsAreTheTotals` | scripts/hosted_publisher_execution.py:517-534 | The capacity check's four separate sums are the operator's four provider totals |
| `PublisherCapacity.CapacityCheckIsExact` | scripts/hosted_publisher_execution.py:517-534 | The check refuses exactly the journals on which the operator would refuse a one-byte mutation for budget reasons |
| `PublisherJournal.DurableJournal.constructor` | scripts/hosted_publisher_operator.py:75-134 | A new journal is empty and lawful |
| `PublisherJournal.DurableJournal.Reserve` | scripts/hosted_publisher_operator.py:145-158 | Reserve commits an absent key exactly once, refuses a present one with false, raises at the bound; a dying process leaves the row either absent or committed |
| `PublisherJournal.DurableJournal.Finish` | scripts/hosted_publisher_operator.py:159-177 | Only a pending row settles, once, its payload kept; a dying process leaves it pending or settled |
| `PublisherClient.DispatchFence.Fence` | scripts/hosted_publisher_operator.py:321-325 | A stop request or an earlier stop latches; passing means inside the authority window |
| `PublisherClient.DispatchFence.ClientStopped` | scripts/hosted_publisher_operator.py:643-652 | Any refusal latches the stop; once stopped, always stopped |
| `PublisherClient.ActivityFitsFourScenarios` | scripts/hosted_publisher_finite_client.py:436-480 | With at most 27 phases handed out, one more worst case of 16 calls and 1 post fits the caps 448 and 28 |
| `PublisherClient.SharedBudget.ReserveRequest` | scripts/hosted_publisher_finite_client.py:122-129 | A request and its bytes are counted only within both caps |
| `PublisherClient.SharedBudget.ChargeResponse` | scripts/hosted_publisher_finite_client.py:131-136 | Response bytes are always charged, and refused exactly past the cap |
| `PublisherClient.SharedBudget.ActivityFits` | scripts/hosted_publisher_finite_client.py:436-443 | Under the closed caps the activity refusal never happens in the first 28 phases |
| `PublisherClient.SharedBudget.ReserveActivity` | scripts/hosted_publisher_finite_client.py:456-458 | Handing a phase out adds its worst case; the counters still account for every phase |
| `PublisherClient.SharedBudget.SettleActivity` | scripts/hosted_publisher_finite_client.py:472-475 | An accepted phase replaces its worst case by its validated counts and nothing else |
| `PublisherClient.ValidateResponse` | scripts/hosted_publisher_finite_client.py:277-360 | Accepted counts never exceed the reserved worst case; materialize, attach and title carry exactly one post, remove and finish none |
| `PublisherClient.FiniteClient.Transport` | scripts/hosted_publisher_operator.py:654-662 | A stopped run sends nothing and raises; otherwise the trace grows by exactly one dispatch of this phase |
| `PublisherClient.FiniteClient.Prepare` | scripts/hosted_publisher_finite_client.py:414-458 | The limit handed to the transport is what the response budget has left; a refusal charges no activity |
| `PublisherClient.FiniteClient.Account` | scripts/hosted_publisher_finite_client.py:459-481 | The counters hold the validated counts if accepted and the worst case if not; both late over-budget refusals are unreachable |
| `PublisherClient.FiniteClient.Exchange` | scripts/hosted_publisher_finite_client.py:413-492 | Acceptance completes this phase's row and no other; anything else leaves it pending |
| `PublisherClient.FiniteClient.Phase` | scripts/hosted_publisher_finite_client.py:404-492 | One phase adds at most its own row and touches no earlier one |
| `PublisherClient.FiniteClient.Run` | scripts/hosted_publisher_finite_client.py:393-498 | Complete means all seven phases are complete; a second call refuses without a trace; only this scenario's client rows are added; no activity refusal in a run's first 28 phases |
| `PublisherOperator.HostedPublisherOperator.CountRow` | scripts/hosted_publisher_operator.py:283-295 | Counting one row adds exactly that row's charge |
| `PublisherOperator.HostedPublisherOperator.Recount` | scripts/hosted_publisher_operator.py:283-295 | Reconstruction computes the fold over the whole journal |
| `PublisherOperator.HostedPublisherOperator.Open` | scripts/hosted_publisher_operator.py:237-299 | A reopened process has totals equal to the fold over the journal it found |
| `PublisherOperator.HostedPublisherOperator.CaseWindow` | scripts/hosted_publisher_operator.py:327-338 | Outside stopping and cleanup, a mutation is admitted only inside its own case window |
| `PublisherOperator.HostedPublisherOperator.Admit` | scripts/hosted_publisher_operator.py:340-384 | Admission implies room for one more worst-case request in every provider budget |
| `PublisherOperator.HostedPublisherOperator.BeforeRequest` | scripts/hosted_publisher_operator.py:340-400 | An admitted request is durably reserved at its worst case before it is sent |
| `PublisherOperator.HostedPublisherOperator.AfterRequest` | scripts/hosted_publisher_operator.py:402-419 | Settling a request replaces its reservation by its actual response bytes |
| `PublisherOperator.HostedPublisherOperator.Provider` | scripts/hosted_publisher_operator.py:421-600 | Whatever a provider does through the hooks, only request rows change and the totals stay the fold |
| `PublisherOperator.HostedPublisherOperator.Call` | scripts/hosted_publisher_operator.py:421-603 | An operation is reserved before it starts, ends complete with an acknowledged receipt or settled as unknown, and touches no other operation's row |
| `PublisherOperator.HostedPublisherOperator.SettleUnknown` | scripts/hosted_publisher_operator.py:529-600 | The open request and the operation become unknown; only a creation or deployment retaining a diagnostic may stay pending instead |
| `PublisherOperator.HostedPublisherOperator.CheckDeployment` | scripts/hosted_publisher_operator.py:605-630 | Passing means version, deployment and origin were all read back equal |
| `PublisherOperator.HostedPublisherOperator.ChargeSql` | scripts/hosted_publisher_operator.py:874-884 | The SQL charge is durable and within both SQL budgets before the submission |
| `PublisherOperator.HostedPublisherOperator.StopCase` | scripts/hosted_publisher_operator.py:886-902 | Success means the endpoint was read back disabled |
| `PublisherOperator.HostedPublisherOperator.CreateEmptyDatabase` | scripts/hosted_publisher_operator.py:709-734 | The database is owned, read back unchanged, and verified empty |
| `PublisherOperator.HostedPublisherOperator.Provision` | scripts/hosted_publisher_operator.py:709-737 | Both identities of the pair are acknowledged in the journal |
| `PublisherOperator.HostedPublisherOperator.Migrations` | scripts/hosted_publisher_operator.py:765-787 | Success means the last migration is complete |
| `PublisherOperator.HostedPublisherOperator.Upload` | scripts/hosted_publisher_operator.py:790-806 | Version and deployment are owned and read back at the planned origin |
| `PublisherOperator.HostedPublisherOperator.BindAndEnable` | scripts/hosted_publisher_operator.py:807-814 | Success means the endpoint was read back enabled, previews off |
| `PublisherOperator.HostedPublisherOperator.Bind` | scripts/hosted_publisher_operator.py:807-808 | The binding row is complete and names the owned database |
| `PublisherOperator.HostedPublisherOperator.Exercise` | scripts/hosted_publisher_operator.py:758-841 | Success means the scenario is finished: seven phases complete, endpoint read back disabled |
| `PublisherOperator.HostedPublisherOperator.ProvisionAll` | scripts/hosted_publisher_operator.py:709-750 | Every pair is provisioned before any scenario starts |
| `PublisherOperator.HostedPublisherOperator.ExerciseAll` | scripts/hosted_publisher_operator.py:758-841 | Success means all four scenarios finished, in order, on one budget |
| `PublisherOperator.HostedPublisherOperator.StopRemaining` | scripts/hosted_publisher_operator.py:848-857 | No failure escapes, and a Worker is marked stopped only where its endpoint was read back disabled |
| `PublisherOperator.HostedPublisherOperator.Run` | scripts/hosted_publisher_operator.py:632-872 | A run refuses without a trace once a run was reserved or a cleanup entered; complete means all four scenarios finished; the shared activity refusal never ends it |
| `PublisherOperator.HostedPublisherOperator.DisableAndDelete` | scripts/hosted_publisher_operator.py:1026-1042 | A first deletion is acknowledged after access was read back off |
| `PublisherOperator.HostedPublisherOperator.DisposeOfWorker` | scripts/hosted_publisher_operator.py:1018-1047 | Success means the deletion is acknowledged and the Worker was read back absent afterwards; an unknown earlier deletion is never repeated |
| `PublisherOperator.HostedPublisherOperator.DisposeOfDatabase` | scripts/hosted_publisher_operator.py:1051-1069 | Success means the whole pair is disposed of; an unknown earlier deletion is never repeated |
| `PublisherOperator.HostedPublisherOperator.CleanupCase` | scripts/hosted_publisher_operator.py:975-1070 | A case reports absent only if its pair is disposed of |
| `PublisherOperator.HostedPublisherOperator.Cleanup` | scripts/hosted_publisher_operator.py:904-1084 | An attempt name runs once; any verdict other than pending means all four pairs are disposed of; `resources_disposed` moreover means no journal row is pending or unknown |
| `PublisherOperator.Ceremony` | scripts/hosted_publisher_operator.py:229-1109 | Any number of processes, crashes, runs and cleanups on one journal leave it lawful and within budgets |
| `WorkerIdentity.NamePostedOnce` | scripts/hosted_publisher_worker_identity.py:185-223 | A name is posted at most once, and never after an identity of that name was restored |
| `WorkerIdentity.OneIdentityPerId` | scripts/hosted_publisher_worker_identity.py:191-223 | An id never changes the identity registered for it |
| `WorkerIdentity.MutationsStayInScope` | scripts/hosted_publisher_worker_identity.py:127-264 | Every PATCH or DELETE is addressed to an identity that a POST answer carried or a receipt restored, and directly follows a GET that showed that identity; a DELETE moreover one that showed access off |
| `WorkerIdentity.CloudflareProvider.Request` | scripts/hosted_publisher_provider.py:376-473 | A closed provider or a used key sends nothing; an outcome that may not be relied on closes it |
| `WorkerIdentity.BetaWorkerProvider.CreateWorker` | scripts/hosted_publisher_worker_identity.py:185-196 | The name is consumed before sending; success registers exactly the answered identity, an unknown outcome closes the provider |
| `WorkerIdentity.BetaWorkerProvider.RestoreOwnedIdentity` | scripts/hosted_publisher_worker_identity.py:198-223 | Accepts exactly well-formed receipts of known names that contradict no registered id |
| `WorkerIdentity.BetaWorkerProvider.Read` | scripts/hosted_publisher_worker_identity.py:225-237 | Absent only on a 404; otherwise exactly the registered identity |
| `WorkerIdentity.BetaWorkerProvider.DisableWorker` | scripts/hosted_publisher_worker_identity.py:243-253 | Acknowledged only when the PATCH answer shows this identity with access off |
| `WorkerIdentity.BetaWorkerProvider.DeleteWorker` | scripts/hosted_publisher_worker_identity.py:255-264 | Acknowledged only when a DELETE was sent and answered with a success other than 404; absent only on a 404 |
| `RulesetWalk.CompleteWalkIsClosedAndAcyclic` | scripts/existing_photo_inventory.py:354-424 | If the flag ends up, the marked (scope, id, version) keys contain every root, are closed under execution, number at most 32, form an acyclic graph, and each was served a well-formed document |
| `RulesetWalk.ValidGraphWalkIsComplete` | scripts/existing_photo_inventory.py:354-424 | A valid graph of at most 32 keys within the remaining request and byte budgets, with no path repeating a (scope, id), leaves the flag up, each key requested once |
| `RulesetWalk.ReadSound` | scripts/existing_photo_inventory.py:360-424 | What any read keeps: marks and finished keys stay, the flag never rises, and while it is up a finished key executes only keys finished before it |
| `RulesetWalk.NoCycle` | scripts/existing_photo_inventory.py:366-373 | Keys finished in execution order have no cycle |
| `RulesetWalk.OneVersionGraphIsAcyclic` | scripts/existing_photo_inventory.py:360-373 | If the flag ends up and no ruleset was met under two versions, no path of (scope, id) returns to its start |
| `RulesetWalk.UnversionedGraphMayBeCyclic` | scripts/existing_photo_inventory.py:360-373 | With two versions of one ruleset the flag may stay up although, without versions, two rulesets execute each other |
| `RulesetWalk.CaptureSucceeds` | scripts/existing_photo_inventory.py:142-163 | Within the budgets an affordable key's request is answered and paid for exactly |
| `RulesetWalk.Collector.Request` | scripts/existing_photo_inventory.py:142-163 | The bounded request, counted before it is made |
| `RulesetWalk.Collector.RulesetRead` | scripts/existing_photo_inventory.py:360-424 | The recursive read performs the walk function's read |
| `RulesetWalk.Collector.Collect` | scripts/existing_photo_inventory.py:514-521 | The collector performs the walk the two theorems are about |
| `FixedOrigin.CalledOnce` | scripts/fixed_origin_lifecycle.py:138-155 | Each operation key is invoked at most once over all instances and crashes |
| `FixedOrigin.CallsFollowThePlan` | scripts/fixed_origin_lifecycle.py:193-306 | The calls are a prefix of preflight, creates, guard, install, then a prefix of disable, restore and the deletes in reverse creation order of what was latched for creation |
| `FixedOrigin.ConfirmedMeansRemoved` | scripts/fixed_origin_lifecycle.py:271-315 | A recorded confirmation means disable and exact restore were acknowledged and every attempted create was acknowledged and later deleted by its exact identity, acknowledged |
| `FixedOrigin.Lifecycle.Once` | scripts/fixed_origin_lifecycle.py:138-155 | Latch, call, acknowledge whatever is returned; a latched key is refused whatever became of it |
| `FixedOrigin.Lifecycle.Provision` | scripts/fixed_origin_lifecycle.py:193-252 | Refused without a trace unless the journal is untouched; success means all seven steps were acknowledged as required |
| `FixedOrigin.Lifecycle.DeleteCreated` | scripts/fixed_origin_lifecycle.py:289-304 | Stops at a creation without an acknowledgement; success means every latched creation was deleted by its identity |
| `FixedOrigin.Lifecycle.Teardown` | scripts/fixed_origin_lifecycle.py:275-304 | Whatever happens, the disable step was latched; success means the whole teardown was acknowledged |
| `FixedOrigin.Lifecycle.Cleanup` | scripts/fixed_origin_lifecycle.py:266-315 | A recorded verdict is returned and nothing changes; otherwise one teardown records it |
| `FixedOrigin.Lifecycle.Attempt` | scripts/fixed_origin_lifecycle.py:254-264 | With the lock free between the two halves and other instances running meanwhile, the answer is the recorded confirmation, and a verdict recorded before leaves everything as it is |
| `FixedOrigin.Sessions` | scripts/fixed_origin_lifecycle.py:122-315 | Over any sequence of sessions, once a verdict is recorded nothing is latched, called or recorded again |
| `FixedOrigin.OnlyOwnerInside` | scripts/fixed_origin_lifecycle.py:122-136 | At most the instance named by the lock file is inside, and it is alive |
| `FixedOrigin.WorkIsSerial` | scripts/fixed_origin_lifecycle.py:122-136 | With crashes and manual removal of a dead owner's lock, two instances' work never interleaves |
| `StrictReader.TruncationIsRefused` | scripts/hosted_publisher_execution_provider.py:142-309 | An accepted response cut anywhere before its last framing octet is refused (sections 6.3 and 7.1 of RFC 9112) |
| `StrictReader.ResponseStable` | scripts/hosted_publisher_execution_provider.py:142-309 | Octets after an accepted response change nothing in it |
| `StrictReader.ChunksRoundTrip` | scripts/hosted_publisher_execution_provider.py:187-226 | Chunked decoding inverts chunked sending for every split into nonempty chunks, with any size-line spelling and extension |
| `StrictReader.ChunkedRoundTrip` | scripts/hosted_publisher_execution_provider.py:278-309 | A whole chunked response is read back exactly |
| `StrictReader.LengthRoundTrip` | scripts/hosted_publisher_execution_provider.py:278-309 | A whole response with Content-Length is read back exactly |
| `StrictReader.PlainChunkIsGood` | scripts/hosted_publisher_execution_provider.py:222-226 | The plain hexadecimal size line of any chunk within the largest response limit is accepted with its size |
| `StrictReader.CookiesChangeNothing` | scripts/hosted_publisher_execution_provider.py:142-178 | With discard on, two blocks differing only in Set-Cookie lines, wherever and however many within the limits, are read alike (section 5.3 of RFC 9110) |
| `StrictReader.AcceptedBlock` | scripts/hosted_publisher_execution_provider.py:142-178 | Every accepted block is at most 99 field lines and a blank line within 65,536 octets counting the status line, and the kept names are distinct |
| `StrictReader.HeadersOfBlock` | scripts/hosted_publisher_execution_provider.py:157-177 | A block within the limits is read as exactly its fields, or refused exactly when a kept name repeats |
| `StrictReader.WireReader.ReadInto` | scripts/hosted_publisher_execution_provider.py:78-98 | A receive of any size within the wire limit; nothing only at the peer's close |
| `StrictReader.BufferedReader.ReadLine` | scripts/hosted_publisher_execution_provider.py:101-109 | A bounded line of the unread octets, however they arrive |
| `StrictReader.BufferedReader.ReadBytes` | scripts/hosted_publisher_execution_provider.py:101-109 | Exactly the next octets, fewer only at the peer's close |
| `StrictReader.StrictResponse.ReadHead` | scripts/hosted_publisher_execution_provider.py:142-186 | Agrees with the head parser on the unread octets |
| `StrictReader.StrictResponse.ReadFields` | scripts/hosted_publisher_execution_provider.py:157-177 | Agrees with the header-block parser |
| `StrictReader.StrictResponse.ReadTrailer` | scripts/hosted_publisher_execution_provider.py:187-213 | Agrees with the trailer parser |
| `StrictReader.StrictResponse.ReadChunked` | scripts/hosted_publisher_execution_provider.py:215-226 | Agrees with the chunked parser |
| `StrictReader.StrictResponse.Receive` | scripts/hosted_publisher_execution_provider.py:278-309 | However the octets are split into receives, the result is the parse of what the peer sent; only a deadline, a failure or more octets than the wire limit cut it short |
| `SqlArchive.LiteralRoundTrip` | scripts/foundation_probe.py:617-626 | Every storable value reads back from its literal: NULL, signed 64-bit integers, blobs, and all text, with quotes, commas, semicolons and NULs |
| `SqlArchive.StatementRoundTrip` | scripts/current_schema_archive.py:134-147 | A row's INSERT statement gives back exactly that row |
| `SqlArchive.StatementsAreInjective` | scripts/current_schema_archive.py:134-147 | Different rows of a table print differently |
| `ArchiveRestore.CaptureTables` | scripts/current_schema_archive.py:133-147 | The capture loop collects every table's sorted statements |
| `ArchiveRestore.CapturedTable` | scripts/current_schema_archive.py:134-147 | A table's captured lines read back as the same rows and print again as the same lines |
| `ArchiveRestore.LoadsRows` | scripts/current_schema_archive.py:46-56 | Executing a table's lines with no trigger in place stores exactly the rows they were printed from |
| `ArchiveRestore.ScriptRestores` | scripts/current_schema_archive.py:46-56 | The script's commands run to their end on an empty database, whatever triggers would do |
| `ArchiveText.RowIsWhole` | scripts/current_schema_archive.py:134-147 | A row's INSERT ends exactly at its own semicolon, whatever its values hold and whatever follows |
| `ArchiveText.LinesSplit` | scripts/current_schema_archive.py:46-56 | Joined statements followed by anything split into exactly those statements and then the rest |
| `ArchiveText.SqlTextSplits` | scripts/current_schema_archive.py:46-56 | The one joined text splits into exactly the loading commands' texts, in order, and then the triggers' text: semicolons, quotes and newlines in values move no boundary |
| `ArchiveText.CapturedTextSplits` | scripts/current_schema_archive.py:46-147 | The same for the text of every captured archive, whose commands are those that are executed |
| `ArchiveRestore.RestoreIsExact` | scripts/current_schema_archive.py:46-163 | Running an archive's script on an empty database and capturing again gives the same archive and the same rows, whatever any trigger would do when fired |
| `Ordering.TextSortIsCanonical` | scripts/current_schema_archive.py:140-147 | Sorted output depends only on which texts there are |
| `Snapshot.CellsAreInjective` | scripts/fixed_origin_preservation.py:73-85 | Different typed values are encoded differently |
| `Snapshot.CellsRoundTrip` | scripts/fixed_origin_preservation.py:64-70 | The JSON text of a row of cells reads back as those cells, so equal text means equal rows |
| `SnapshotTables.KeysAreInjective` | scripts/fixed_origin_preservation.py:192-211 | The sort key tells any two rows with their rowids apart |
| `SnapshotTables.SnapshotsAreCanonical` | scripts/fixed_origin_preservation.py:156-211 | Two table snapshots are equal exactly when columns, storage kind and rows with rowids are the same, in any enumeration order |
| `SnapshotTables.CaptureIsValid` | scripts/fixed_origin_preservation.py:289-333 | Every captured table passes the validator's checks on it |
| `SnapshotTables.CapturePassesValidation` | scripts/fixed_origin_preservation.py:263-350 | Every capture of a database with the gate table and distinct nonempty names passes all the table checks |
| `SnapshotTables.CaptureTables` | scripts/fixed_origin_preservation.py:155-213 | A capture within the bounds is every named table's snapshot, at most 10,000 rows |
| `SnapshotTables.ReadTable` | scripts/fixed_origin_preservation.py:177-199 | The row loop keeps both running bounds and counts exactly the encoded size |
| `Keyset.Inventory` | scripts/controlled_trial_observations.py:135-205 | Returns exactly every row in key order, and returns at all if and only if the table has distinct nonempty text keys of at most 512 characters, fewer than 1,000,000 rows, and no NUL in a key a continuation starts from |
| `Keyset.Collect` | scripts/controlled_trial_observations.py:164-217 | The same for both sweeps over every inventory of an unchanging database |
| `Keyset.WellKeyedIsCollectable` | scripts/controlled_trial_observations.py:135-205 | Distinct, nonempty, well-formed keys and fewer than 1,000,000 rows always succeed |
| `Keyset.AcceptPage` | scripts/controlled_trial_observations.py:186-193 | A page is accepted exactly when each key is past the last and short enough |
| `Keyset.Query` | scripts/controlled_trial_observations.py:135-155 | A page is the first hundred rows past the cursor in some arrangement by key, ties left open, or all of them when there are fewer |
| `Keyset.ExactlyOne` | scripts/controlled_trial_observations.py:208-211 | A table has at most one such collection, so two sweeps agree |
| `PauseBatch.ConfirmationIsExact` | scripts/controlled_trial_pause.py:61-202 | Over any interleaving, the batch committed exactly once with neither gate written since if and only if an inspection confirms the plan and no other plan committed under its operation identifier; so a confirmed receipt is right exactly when the identifier named one plan, including when a gate was already paused |
| `PauseBatch.ConfirmationUnderOnePlan` | scripts/controlled_trial_pause.py:61-202 | Where every identifier names one plan, confirmation and that pause are the same thing |
| `PauseBatch.CommittedPlanIsTheOne` | scripts/controlled_trial_pause.py:89-102 | A committed batch shuts out every other plan under its identifier |
| `PauseBatch.Receipt` | scripts/controlled_trial_pause.py:169-202 | The receipt loop confirms exactly two distinct gates that each confirm |
| `PauseBatch.AppliedOnce` | scripts/controlled_trial_pause.py:89-102 | A plan's batch commits at most once |
| `PauseBatch.RevisionNeverFalls` | scripts/controlled_trial_pause.py:82-88 | A gate's revision never falls, and rises with every write of it |
| `PauseBatch.BatchPauses` | scripts/controlled_trial_pause.py:61-104 | Right after its batch each gate is off at the resulting revision, with a pause event if it changed |
| `PauseBatch.SharedIdentifierMisleads` | scripts/controlled_trial_pause.py:107-120 | An instance of the other case: a second plan reusing the identifier is confirmed without having committed |
| `Timestamp.EqualInstants` | scripts/collect_publisher_grant_metadata.py:240-250 | Two accepted texts share an integer exactly when, digits written in ASCII, they differ only in trailing fraction zeros; integer order is calendar order |
| `Timestamp.AsciiTextsAgree` | scripts/collect_publisher_grant_metadata.py:240-250 | For ASCII texts the promise holds as stated |
| `Timestamp.AsciiGuardIsExact` | scripts/collect_publisher_grant_metadata.py:49-52 | An accepted text shares its integer with its ASCII form, and differs from it only in trailing zeros if and only if it was ASCII |
| `Timestamp.NonAsciiDigitsCollide` | scripts/collect_publisher_grant_metadata.py:49-52 | Two texts, one with a non-ASCII digit, share an integer without being equal up to trailing zeros |
| `Timestamp.InstantsAreOrdered` | scripts/collect_publisher_grant_metadata.py:240-250 | Integer order is calendar order, and equal integers are the same instant, down to 10^-18 s |
| `Timestamp.LeapSecondsAreRefused` | scripts/collect_publisher_grant_metadata.py:240-250 | A seconds field starting with 6 is refused (section 5.6 of RFC 3339 admits leap seconds) |
| `Timestamp.WrittenIsRead` | scripts/collect_publisher_grant_metadata.py:240-250 | Every valid calendar instant is written by some accepted text |
| `Teardown.Lifecycle.constructor` | scripts/group_post_characterization.py:161-187 | The deadlines are fixed at the start |
| `Teardown.Lifecycle.Call` | scripts/group_post_characterization.py:195-205 | Refused exactly when 20 more seconds would reach the cutoff or the calls are used up, without time passing; otherwise counted and over before the cutoff |
| `Teardown.Lifecycle.Prepare` | scripts/group_post_characterization.py:268-380 | At most eight calls before the deadline, or a failure followed by its own teardown |
| `Teardown.Lifecycle.Cleanup` | scripts/group_post_characterization.py:207-266 | At most three calls a resource, none refused while 180 seconds remain; confirmed exactly when everything is deleted |
| `Teardown.Lifecycle.Observe` | scripts/group_post_characterization.py:405-472 | At most one call |
| `Teardown.Lifecycle.Watch` | scripts/group_post_characterization.py:613-643 | Ends before 219 seconds to expiry, and never by its iteration limit |
| `Teardown.Lifecycle.RunOnce` | scripts/group_post_characterization.py:533-682 | From any stop, cutoff or failure, no observation or teardown call is refused for time or count; at most 27 calls; over 19 seconds before expiry |
| `Teardown.Lifecycle.HoldAndCleanup` | scripts/group_post_characterization.py:382-403 | The same for the holding variant |
| `NativeDispatch.CreatedOnce` | scripts/group_post_dispatch.py:36-41 | At most one request is published and each phase is answered at most once |
| `NativeDispatch.ConfirmedRequestIsTheOne` | scripts/group_post_dispatch.py:217-307 | A confirmed dispatch names the only published request, and the owner's answer, to a challenge due no later than the request, came after the marker was read equal to it and before the challenge was due |
| `NativeDispatch.NativeFiles.StopRequested` | scripts/group_post_dispatch.py:98-124 | Passes exactly when not latched, the owner file reads as written, and clocks, process and stop files are healthy; any doubt latches, and the latch never clears |
| `NativeDispatch.NativeFiles.WaitReady` | scripts/group_post_dispatch.py:126-148 | Ready means this owner answered the prewarm challenge; otherwise the stop is latched |
| `NativeDispatch.NativeFiles.ServiceCheckpoint` | scripts/group_post_dispatch.py:150-215 | Raising latches the stop; a response repeats a correlated challenge due within ten seconds of a clock reading and still not due at one taken last |
| `NativeDispatch.NativeFiles.ReadAcknowledgement` | scripts/group_post_dispatch.py:268-304 | True only for a correlated acknowledgement of exactly one input with the marker equal to the request |
| `NativeDispatch.NativeFiles.InvokeNative` | scripts/group_post_dispatch.py:217-347 | Returns normally only on a confirmed dispatch of exactly one input, never twice, within 52 seconds of sleeping |
| `NativeDispatch.AnyUse` | scripts/group_post_dispatch.py:44-307 | In any use against any environment, at most one request is published, and a reported count of 0 means none was, or a correlated acknowledgement said stopped |

## Left out

- Sockets, TLS, DNS, subprocesses, file permissions and Wrangler: replaced by arbitrary replies.
- JSON parsing and the validation of closed records (plans, approvals, evidence, deployment projections): taken as done; their outcome is an arbitrary boolean or a precondition.
- Journal keys and payloads: modelled as datatypes rather than as strings and JSON, so that two different keys never collide; the encodability check is an arbitrary refusal.
- SQLite commits of the two journals: each succeeds or the process dies.
- PublisherJournal.DurableJournal.constructor: the schema, owner and plan-digest checks made on opening are not modelled; a journal is opened by the process it belongs to.
- The operator's execution lock and the journal's owner latch: one process at a time uses a journal, and one invocation at a time runs in a process.
- `result` dictionaries, diagnostics, sanitised error text and private receipts of the ceremony.
- The operator's provider operations: each makes any requests and gives any answer; `WorkerIdentity` models the Worker adapter's own rules separately, and the database half of the provider is not modelled.
- The byte and time budgets inside the shared HTTP provider: an arbitrary refusal before sending.
- PublisherClient.FiniteClient.Fence: deadlines are arbitrary integers; the per-phase timeout passed to the wire is not followed further.
- The listing half of the ruleset inventory (cursor pagination, catalogue entries) and every other inventory read: the walk starts from arbitrary roots, catalogue, spent budget and flag.
- RulesetWalk.Collector.Request: a deadline, once passed, stays passed; the environment is a function of the request's position and key.
- FixedOrigin: sessions of different instances are run one at a time; `WorkIsSerial` shows that the lock allows nothing else.  The guard reads between steps are arbitrary checks.
- StrictReader: the response object's status reason, version and connection closing; a `Content-Length` of more than ten digits is refused as in the code.
- StrictReader.StrictResponse.Receive: octets beyond the message can exceed the wire limit depending on how far the buffer reads ahead; the result is then allowed to be a cut.
- SqlArchive: REAL values; SQLite's storage of a literal is assumed to keep its value.
- ArchiveText: storage statements are taken to close their quotations and to hold no inner semicolon, comments and bracketed names are not scanned, and the split inside trigger bodies is SQLite's own.
- ArchiveRestore: `normalized_sql` is an arbitrary function, since whitespace after an unquoted prefix can be collapsed inside quoted text; constraints and foreign keys are assumed to accept rows the source held; `foreign_key_check`, the integrity pragmas and the digests are not modelled.
- Snapshot: a real is its exact hexadecimal rendering; the schema rows, the run and time fields and the outer envelope are carried unchanged and not modelled; the progress limit and the whole-document size bound are further refusals.
- Keyset: SQL's octet order and the comparison of text by code point are taken as the same order; the pair query and the counts query are not modelled beyond the exact count.
- PauseBatch: the schema's guard check, audit primary key and transition trigger are assumptions; other writers raise the revision, and no other component writes this tool's audit action.
- Timestamp: which characters are decimal digits is a parameter; overflow of the date range is the year bound 1 to 9999.
- Teardown: local steps take no time and provider calls at most 20 seconds; the native invocation at most the 52 seconds of sleeping that `NativeDispatch` allows; resource fields other than the flags are dropped.
- NativeDispatch: file contents are abstract values, malformed ones a single value; a file read is one atomic step.
- Release checks, hosted probes, audits and the historical child recovery files: they start other programs and compare fixed values, and what could be proved of them is easier.
