# SOIT: a verified model of its migration, pilot, load and backup tools

SOIT is an AI platform; this project models five of the tools that surround its server and proves
what they promise.

* **Scoped secrets.** An Alembic revision rewrites arbitrary JSON documents in 14 columns and texts
  in two more: legacy secret fields get their current names, every secret reference becomes a plain
  id that is live in the tenant and workspace of its row, and the downgrade turns the shape back.
  `SecretPayloads`, `SecretRoundTrips`, `SecretEquality`, `SecretConflicts`, `SecretPaths` and
  `SecretFields` treat one document, `CellRewriting`, `SecretDatabase` and `SecretUpgrades` a whole
  database. A dict is its entries in insertion order (`JsonValues`), so that order can be spoken of, and
  Python's order-blind `==` is the predicate `SameValue`.
* **The gateway pilot.** `setup` creates a chain of dependent resources on a server and records each
  one; `teardown` compensates from that record. Every call may fail: `PilotServer`, `PilotSaga`,
  `PilotTeardown`, `PilotFaults`, `PilotUndo`.
* **The load baseline.** Requests run concurrently under a semaphore, read an event stream each,
  and append to shared lists that are then summarised: `LoadRequests`, `LoadRun`, `Percentiles`.
* **Backup and restore.** A manifest is built from a directory, validated against one, and used to
  check a restored bucket: `BackupFiles`, `BackupManifests`, `BackupRestore`, `BackupGaps`,
  `RestoreRun`.
* **Two loops**: the failures among seeded runs (`RunSeeding`) and the wait for a database
  (`DatabaseWait`).

Code that updates things in place is a method or a class here (`Database`, `Pilot`, `Soit`,
`Sample`, `Target`, `Clock`, `Hasher`, `Reader`), each tied by its `ensures` to a function or
predicate on values; the lemmas are about those.

What the model showed about the code, beyond what it was expected to keep:

* Downgrading an upgraded database does not in general give the original back; it does exactly when
  every targeted cell was legacy-normal (`SecretUpgrades.DowngradeInvertsExactly`).
* `teardown` does not attempt every recorded resource: an exception other than `PilotError`, such as
  a lost connection, ends the loop (`PilotTeardown.LostConnectionLeavesTheRest`). It attempts all of
  them exactly when no such exception meets any step but the last
  (`PilotTeardown.AllAttemptedExactly`).
* `teardown` goes on to delete the secret whatever answer it got about the provider that uses it. One
  refused answer to the deletion of the provider, or of any of its models, is enough to leave a
  provider without its secret, and one to the deletion of the virtual model to leave that without a
  target. These are the only references that can dangle, under exactly the faults of
  `PilotFaults.DanglingFaults`.
* A second teardown without faults removes whatever the first one left, but can never report success
  once a first one has deleted anything, because the server refuses to delete that again
  (`PilotUndo.SecondTeardown`).
* If someone else meanwhile adds the pilot's own host to the egress allowlist, teardown removes that
  entry too; every other entry stays, in order (`PilotUndo.AllowlistRestored`).
* An accepted manifest and a successful readback do not make the bucket the backup's object tree.
  They do exactly when the records name the backup's objects with their digests
  (`BackupRestore.ReadbackIsFaithful`). Two accepted manifests fail that: one that leaves an object
  unrecorded (`BackupGaps.UnrecordedObjectIsLost`), and one that records a path with a blank behind
  it, which the validator strips and the readback does not
  (`BackupGaps.BlankPathRestoresAnotherObject`).
* A backup that holds an object whose name ends in whitespace is refused by its own validation, and
  one that holds an object called `backup-manifest.json` is accepted but cannot be restored with
  success; every other one can (`RestoreRun.BackupThenRestore`).

## Model

| member | source | states |
|---|---|---|
| `SecretUpgrades.UpDownUp` | server/alembic/versions/20260723160000_scoped_secret_ids.py:279-306 | on any upgradable database, downgrade and a second upgrade are both accepted and leave exactly the state of one upgrade |
| `SecretUpgrades.UpgradableExactly` | server/alembic/versions/20260723160000_scoped_secret_ids.py:156-252 | a database can be upgraded iff every targeted document is acceptable, and every targeted text a reference, over the undeleted secrets of the row's own tenant and workspace |
| `SecretUpgrades.ResolverServes` | server/alembic/versions/20260723160000_scoped_secret_ids.py:133-151 | the resolver accepts a text iff it spells the well-formed id of an undeleted secret of the scope, and answers that id; its error says which half fails |
| `SecretUpgrades.LiveSecretResolves` | server/alembic/versions/20260723160000_scoped_secret_ids.py:133-151 | every undeleted secret with a well-formed id can be referred to, plainly or prefixed |
| `SecretDatabase.TargetsAre` | server/alembic/versions/20260723160000_scoped_secret_ids.py:32-47 | the sixteen columns, table by table |
| `SecretUpgrades.UpgradeIsIdempotent` | server/alembic/versions/20260723160000_scoped_secret_ids.py:156-192 | an upgraded database is accepted again, unchanged |
| `SecretUpgrades.DowngradeInvertsExactly` | server/alembic/versions/20260723160000_scoped_secret_ids.py:279-306 | the downgrade gives the original database back if and only if every targeted cell was legacy-normal |
| `SecretUpgrades.UpgradedSecretsAreInScope` | server/alembic/versions/20260723160000_scoped_secret_ids.py:118-192 | after an upgrade every secret position at any depth of a targeted cell names an undeleted secret of the row's own tenant and workspace |
| `SecretUpgrades.OtherScopesDoNotMatter` | server/alembic/versions/20260723160000_scoped_secret_ids.py:133-153 | two secret tables that agree on a scope treat every cell of that scope alike, errors included |
| `SecretUpgrades.CellRoundTrips` | server/alembic/versions/20260723160000_scoped_secret_ids.py:50-115 | for one document or text: fixed point, way back and forth again, and exact inversion |
| `SecretUpgrades.UpgradeAgain` | server/alembic/versions/20260723160000_scoped_secret_ids.py:187-192 | an upgrade run on an upgraded database succeeds, changes nothing and sends no statement |
| `SecretUpgrades.UpgradeDowngradeUpgrade` | server/alembic/versions/20260723160000_scoped_secret_ids.py:279-306 | three runs in a row on a mutable database: after a first success all succeed and the state is that of the first |
| `SecretDatabase.Database.Upgrade` | server/alembic/versions/20260723160000_scoped_secret_ids.py:279-291 | succeeds iff every targeted cell migrates under its own row's scope; is then the cell-by-cell rewriting; a failure is that of a targeted cell; every statement sent changes a cell |
| `SecretDatabase.Database.Downgrade` | server/alembic/versions/20260723160000_scoped_secret_ids.py:294-306 | the same for the downgrade |
| `SecretDatabase.Database.RunUpgrade` | server/alembic/env.py:93-99 | a failure anywhere leaves the tables as they were; an upgrade that changes nothing sends nothing |
| `SecretDatabase.Database.RunDowngrade` | server/alembic/env.py:93-99 | a failed downgrade leaves the tables as they were |
| `SecretDatabase.Database.MigrateJsonColumn` | server/alembic/versions/20260723160000_scoped_secret_ids.py:165-192 | the loop over the rows, with its skips and in-place updates, is the rewriting of that column |
| `SecretDatabase.Database.MigrateJsonColumns` | server/alembic/versions/20260723160000_scoped_secret_ids.py:156-192 | column after column is the rewriting of all of them, whatever column fails first |
| `SecretDatabase.Database.RestoreJsonColumn` | server/alembic/versions/20260723160000_scoped_secret_ids.py:202-215 | the same for restoring one column |
| `SecretDatabase.Database.RestoreJsonColumns` | server/alembic/versions/20260723160000_scoped_secret_ids.py:195-215 | the same for restoring all of them |
| `SecretDatabase.Database.MigrateScalarColumn` | server/alembic/versions/20260723160000_scoped_secret_ids.py:218-252 | a text column, resolved row by row |
| `SecretDatabase.Database.RestoreScalarColumn` | server/alembic/versions/20260723160000_scoped_secret_ids.py:255-276 | a text column restored; never fails |
| `SecretDatabase.NothingToSend` | server/alembic/versions/20260723160000_scoped_secret_ids.py:187-192 | when the rewriting changes nothing, no update was sent |
| `SecretDatabase.UpKeepsTypes` | server/alembic/versions/20260723160000_scoped_secret_ids.py:50-84 | migrated documents are again documents Python can hold |
| `CellRewriting.CellwiseEffect` | server/alembic/versions/20260723160000_scoped_secret_ids.py:156-192 | every column, row and table that is not targeted stays; every targeted cell is its own rewriting |
| `CellRewriting.ThenTarget` | server/alembic/versions/20260723160000_scoped_secret_ids.py:156-157 | rewriting one more column after others is rewriting them together, and earlier columns do not affect acceptance |
| `CellRewriting.ProgressWritten` | server/alembic/versions/20260723160000_scoped_secret_ids.py:187-192 | an update by id writes the one row meant |
| `CellRewriting.ThereAndBack` | server/alembic/versions/20260723160000_scoped_secret_ids.py:279-306 | a rewriting and its cellwise inverse together change nothing |
| `SecretPayloads.MigratePayload` | server/alembic/versions/20260723160000_scoped_secret_ids.py:50-84 | the loop that fills a dict key by key computes the specified migration, with the first error |
| `SecretPayloads.MigrateField` | server/alembic/versions/20260723160000_scoped_secret_ids.py:63-80 | the branches over the target key compute the specified value |
| `SecretPayloads.MigrateList` | server/alembic/versions/20260723160000_scoped_secret_ids.py:55-56 | lists, item by item |
| `SecretPayloads.RestorePayload` | server/alembic/versions/20260723160000_scoped_secret_ids.py:87-111 | the downgrade's loop computes the specified restoration |
| `SecretPayloads.RestoreField` | server/alembic/versions/20260723160000_scoped_secret_ids.py:97-109 | its branches over the key |
| `SecretPayloads.RestoreList` | server/alembic/versions/20260723160000_scoped_secret_ids.py:89-90 | its lists |
| `SecretPayloads.ScopedResolverIsLawful` | server/alembic/versions/20260723160000_scoped_secret_ids.py:133-153 | what the resolver answers is a well-formed id, which it accepts again, plain or prefixed |
| `SecretPayloads.IdResolves` | server/alembic/versions/20260723160000_scoped_secret_ids.py:114-135 | an id is its own candidate with or without the prefix, and the legacy spelling of both is the prefixed one |
| `SecretPayloads.NonStringNeverResolves` | server/alembic/versions/20260723160000_scoped_secret_ids.py:65-66 | `str()` of a value that is no string is never accepted as a secret |
| `SecretPayloads.KeysInvert` | server/alembic/versions/20260723160000_scoped_secret_ids.py:25-30 | the two renamings undo each other exactly on keys that are not already renamed |
| `SecretFields.FieldsMigrate` | server/alembic/versions/20260723160000_scoped_secret_ids.py:60-84 | field by field, by name: which fields of a dict hold one secret, a list (`secrets` only as a list) or bindings, their new names, and that their values are resolved; every other field is migrated under its own name |
| `SecretFields.FieldsRestore` | server/alembic/versions/20260723160000_scoped_secret_ids.py:93-111 | the same for the downgrade, wherever a current field does not meet its own legacy field |
| `SecretFields.WrongShapesFail` | server/alembic/versions/20260723160000_scoped_secret_ids.py:67-72 | a secret list that is no list and bindings that are no dict are refused, each with its error |
| `SecretFields.OddShapesRestore` | server/alembic/versions/20260723160000_scoped_secret_ids.py:99-104 | what the downgrade makes of a secret list that is a text, a dict or neither, and of bindings that are no dict |
| `SecretFields.LastFieldRestores` | server/alembic/versions/20260723160000_scoped_secret_ids.py:110-111 | of the fields that take one legacy name the last one counts |
| `SecretFields.SecretIdsAre` | server/alembic/versions/20260723160000_scoped_secret_ids.py:24-24 | what a secret id looks like |
| `SecretFields.GeneratedIdsAreSecretIds` | server/app/kernel/commons/ids.py:111-117 | the ids the server generates are such ids |
| `SecretFields.CandidatesAre` | server/alembic/versions/20260723160000_scoped_secret_ids.py:134-134 | one leading `secret:` is removed, then whitespace |
| `SecretRoundTrips.RoundTripExactly` | server/alembic/versions/20260723160000_scoped_secret_ids.py:50-115 | restoring a migrated payload gives the original, key order included, iff it was legacy-normal |
| `SecretRoundTrips.MigrateIsIdempotent` | server/alembic/versions/20260723160000_scoped_secret_ids.py:50-84 | migrating twice is migrating once, never a conflict |
| `SecretRoundTrips.MigrateIsCanonical` | server/alembic/versions/20260723160000_scoped_secret_ids.py:50-84 | no legacy name is left in any dict reached, and every reference is a plain accepted id |
| `SecretRoundTrips.CanonicalIsFixed` | server/alembic/versions/20260723160000_scoped_secret_ids.py:50-84 | canonical payloads are exactly left alone |
| `SecretRoundTrips.CanonicalRestores` | server/alembic/versions/20260723160000_scoped_secret_ids.py:87-115 | on a migrated payload the downgrade is total, overwrites no key, is legacy-normal and migrates back |
| `SecretRoundTrips.LegacyComesBack` | server/alembic/versions/20260723160000_scoped_secret_ids.py:50-115 | a legacy-normal payload comes back |
| `SecretRoundTrips.MigrateRestoreMigrate` | server/alembic/versions/20260723160000_scoped_secret_ids.py:50-115 | migrate, restore, migrate is one migration |
| `SecretRoundTrips.RestoreIsInjective` | server/alembic/versions/20260723160000_scoped_secret_ids.py:87-111 | different migrated payloads have different restored forms |
| `SecretEquality.RestoreIsIdempotent` | server/alembic/versions/20260723160000_scoped_secret_ids.py:87-115 | restoring twice is restoring once, for every payload it accepts |
| `SecretEquality.MigrateSkipIsExact` | server/alembic/versions/20260723160000_scoped_secret_ids.py:187-187 | the order-blind test that skips a write in the modelled loop, as in the source, finds equal only what has not changed at all |
| `SecretEquality.RestoreSkipIsExact` | server/alembic/versions/20260723160000_scoped_secret_ids.py:210-210 | the same for the downgrade's test |
| `SecretEquality.KeyOrderNeverMatters` | server/alembic/versions/20260723160000_scoped_secret_ids.py:60-84 | whether a payload migrates, and to what value, does not depend on the order of keys at any depth |
| `SecretEquality.CollisionIsFlat` | server/alembic/versions/20260723160000_scoped_secret_ids.py:81-82 | values that meet under one name hold no dict, so the conflict test means the same under Python's order-blind equality |
| `SecretConflicts.MigratesExactly` | server/alembic/versions/20260723160000_scoped_secret_ids.py:50-84 | a payload of any depth migrates iff every reference resolves, every secret list is a list and every bindings value a dict, and no dict reached has a legacy field that names other secrets than its current one |
| `SecretConflicts.ConflictExactly` | server/alembic/versions/20260723160000_scoped_secret_ids.py:81-83 | a dict whose values migrate is refused iff it holds a legacy field and its current one with different migrated values |
| `SecretConflicts.MergingShrinksByPairs` | server/alembic/versions/20260723160000_scoped_secret_ids.py:81-84 | a migrated dict has one entry fewer for every field present under both names |
| `SecretConflicts.ScopeOnlyAccepts` | server/alembic/versions/20260723160000_scoped_secret_ids.py:118-153 | two scopes that both accept a payload migrate it to the same result |
| `SecretPaths.PathsSurvive` | server/alembic/versions/20260723160000_scoped_secret_ids.py:50-84 | every path leads, renamed, to the same leaf, a list of the same length, or the resolved secret; parameter names in `secret_bindings` are not renamed |
| `SecretPaths.NothingInvented` | server/alembic/versions/20260723160000_scoped_secret_ids.py:50-84 | every path of the result is the renaming of one of the original |
| `SecretPaths.SecretsAreLive` | server/alembic/versions/20260723160000_scoped_secret_ids.py:50-84 | wherever a secret stands in a canonical payload, it is an accepted id |
| `PilotSaga.Pilot.Setup` | examples/pilot/pilot_acceptance.py:113-239 | the planned calls are made in order until one meets a fault, and it succeeds iff none does and credential and primary model are there; however it ends, the server is what it was plus exactly what the saved state records, with one model a role in order, and nothing dangles; after a success everything configured is there and hangs together |
| `PilotSaga.Pilot.SetupCalls` | examples/pilot/pilot_acceptance.py:134-235 | the guarded body follows the plan and keeps the account of server and record, however it ends |
| `PilotSaga.Pilot.AllowHost` | examples/pilot/pilot_acceptance.py:135-146 | the host is recorded iff it was not listed and has been added at the end of the list |
| `PilotSaga.Pilot.AddProvider` | examples/pilot/pilot_acceptance.py:149-174 | secret and provider, each recorded once it exists |
| `PilotSaga.Pilot.AddModels` | examples/pilot/pilot_acceptance.py:176-191 | one call for each model that is planned, until a fault; the record is a beginning of the planned models, and all of them on success |
| `PilotSaga.ModelPlanIs` | examples/pilot/pilot_acceptance.py:176-191 | the plan has one model for each role named, in the order primary, failing, unpriced |
| `PilotSaga.IsConnected` | examples/pilot/pilot_acceptance.py:149-235 | provider with its secret, models with their provider, virtual model with failing target first, budget with its key, host at the end of the allowlist |
| `PilotSaga.Pilot.GrantAccess` | examples/pilot/pilot_acceptance.py:193-220 | a virtual model over the failing and the primary model, if there is a failing one, then key and budget; a blank primary model raises |
| `PilotSaga.Pilot.GrantKey` | examples/pilot/pilot_acceptance.py:208-235 | the key, and the budget of that key |
| `PilotServer.FollowedThen` | examples/pilot/pilot_acceptance.py:134-235 | plans followed one after the other are one plan followed |
| `PilotSaga.RecordModel` | examples/pilot/pilot_acceptance.py:187-191 | creating a model and recording it keeps server and record in step |
| `PilotSaga.RecordVirtual` | examples/pilot/pilot_acceptance.py:195-206 | the same for the virtual model with its two targets |
| `PilotSaga.RecordedIsSound` | examples/pilot/pilot_acceptance.py:134-235 | at every point of setup no model lacks its provider, no provider its secret, no virtual model a target, no budget its key |
| `PilotServer.Soit.Api` | examples/pilot/pilot_acceptance.py:65-75 | a call either happens and answers or raises and changes nothing |
| `PilotTeardown.Teardown` | examples/pilot/pilot_acceptance.py:503-542 | a recorded resource is attempted, once and in order, iff no exception other than `PilotError` met an earlier call; the host is taken off the list iff none met any step and its two calls succeed; the file is removed iff everything succeeded |
| `PilotTeardown.AttemptAll` | examples/pilot/pilot_acceptance.py:519-526 | the loop over the steps computes the specified run, and is cut short iff a step meets an exception other than `PilotError` |
| `PilotTeardown.Attempts` | examples/pilot/pilot_acceptance.py:519-526 | how far any run gets, and whether it is cut short, as a condition on the faults alone |
| `PilotTeardown.AllAttemptedExactly` | examples/pilot/pilot_acceptance.py:519-526 | every resource is attempted iff no such exception meets any but the last step |
| `PilotTeardown.LostConnectionLeavesTheRest` | examples/pilot/pilot_acceptance.py:519-526 | a concrete lost connection after which the other resources are never attempted |
| `PilotUndo.CleanTeardownUndoesSetup` | examples/pilot/pilot_acceptance.py:503-542 | from any point setup may have stopped at, the steps all succeed iff none of their calls meets a fault, and then everything setup created is removed or revoked and nothing else |
| `PilotUndo.SecondTeardown` | examples/pilot/pilot_acceptance.py:503-542 | a fault-free second teardown removes all that any first one left, and still fails iff the first one had deleted anything |
| `PilotUndo.SetupThenTeardown` | examples/pilot/pilot_acceptance.py:113-542 | setup stopped anywhere, other people's list edits, a teardown with any faults: it succeeds iff no call meets a fault; then everything is undone, the original allowlist entries are back and the others' stay around them in order |
| `PilotTeardown.RunStrips` | examples/pilot/pilot_acceptance.py:519-526 | any run with any failures removes exactly the resources whose steps happened |
| `PilotFaults.DanglingFaults` | examples/pilot/pilot_acceptance.py:503-526 | after any prefix of a teardown under any faults: the exact faults that leave a provider without its secret, and those that leave a virtual model without a target; models and budgets never dangle |
| `PilotFaults.DanglingExactly` | examples/pilot/pilot_acceptance.py:503-526 | the same in terms of the steps that happened |
| `PilotFaults.RunExactly` | examples/pilot/pilot_acceptance.py:519-526 | which steps of a first or later teardown happen, fail, or are never reached, as a condition on the faults and on what is gone already |
| `PilotFaults.RefusedExactly` | server/app/modules/modelhub/application/service.py:1165-1178 | of the reasons modelled, the server refuses exactly what is gone, and a provider of which a model is left |
| `PilotFaults.RefusedDeletionOrphansProvider` | examples/pilot/pilot_acceptance.py:519-526 | a concrete teardown whose first call is refused leaves a provider without its secret |
| `PilotFaults.RefusedModelOrphansProvider` | examples/pilot/pilot_acceptance.py:519-526 | so does one in which a model's deletion is refused and the provider's call meets no fault at all |
| `PilotFaults.RefusedDeletionOrphansVirtual` | examples/pilot/pilot_acceptance.py:519-526 | a concrete teardown that leaves a virtual model without a target |
| `PilotTeardown.StepsAre` | examples/pilot/pilot_acceptance.py:506-518 | the steps are exactly those of the recorded resources |
| `PilotTeardown.StepsAreDistinct` | examples/pilot/pilot_acceptance.py:506-518 | no recorded resource has two steps |
| `PilotTeardown.StepsInOrder` | examples/pilot/pilot_acceptance.py:506-518 | where each kind of step stands: the key first, then budget, virtual model, models, provider, secret |
| `PilotUndo.AllowlistRestored` | examples/pilot/pilot_acceptance.py:527-538 | the original list is back; entries others put in between stay in order, all of them iff none is the pilot's host |
| `LoadRun.RunsKeepInvariant` | server/scripts/load_baseline.py:263-271 | at every step of every interleaving at most `concurrency` requests are inside, each request is in one place, each ended one left one trace, and the lists hold exactly what the ended requests measured |
| `LoadRun.RunsKeepPairs` | server/scripts/load_baseline.py:234-243 | while no clock goes back, waits pair with latencies at every step and none is longer than its latency |
| `LoadRun.RunsReportAlike` | server/scripts/load_baseline.py:274-288 | two completed interleavings of the same requests report the same latency and wait summaries and error counts |
| `LoadRun.RunsTerminate` | server/scripts/load_baseline.py:263-271 | every interleaving has exactly the same bounded number of steps |
| `LoadRun.StandstillExactly` | server/scripts/load_baseline.py:264-271 | a run can go no further iff all requests ended or the semaphore admits nobody |
| `LoadRun.CompletedRunsAddUp` | server/scripts/load_baseline.py:274-282 | at the end successes and errors add up to the requests iff no exception escaped |
| `LoadRun.NextPlaces` | server/scripts/load_baseline.py:266-269 | every step keeps the requests partitioned and the permits accounted for |
| `LoadRun.StepCosts` | server/scripts/load_baseline.py:266-269 | every step takes exactly one from the work left |
| `LoadRequests.Sample.OneWorkerRequest` | server/scripts/load_baseline.py:175-250 | appends a measurement if the run finishes, nothing if an exception escapes first, and otherwise one error of the right kind |
| `LoadRequests.ReadStream` | server/scripts/load_baseline.py:224-237 | the loop over the lines finds the first terminal event, the first start before it and the last event read |
| `LoadRequests.WaitIsMeant` | server/scripts/load_baseline.py:234-243 | the recorded wait is that to the first RUN_STARTED before the terminal event, else the latency, and at most the latency |
| `LoadRequests.StoppedOutcome` | server/scripts/load_baseline.py:224-250 | the first line that stops the stream decides the outcome |
| `LoadRequests.EndlessOutcome` | server/scripts/load_baseline.py:238-250 | a stream without one ends in an error, which names the last event if the stream was simply closed |
| `LoadRequests.Sample.OneInlineRequest` | server/scripts/load_baseline.py:152-172 | one measurement on a successful 200, one error otherwise, an escape when the body is no JSON object |
| `Percentiles.RoundIsNearest` | server/scripts/load_baseline.py:50-50 | the rounded value is the one integer within a half, the even one of two |
| `Percentiles.RoundIsMonotone` | server/scripts/load_baseline.py:50-61 | rounding keeps order |
| `Percentiles.RankIsNearest` | server/scripts/load_baseline.py:50-50 | the clamped index is within half a rank of `fraction * (n - 1)` |
| `Percentiles.PercentileRanks` | server/scripts/load_baseline.py:47-51 | a percentile is one of the samples, with at least so many samples no larger and so many no smaller |
| `Percentiles.SortSorts` | server/scripts/load_baseline.py:55-55 | the specification's sort is ascending and a permutation |
| `Percentiles.AscendingIsUnique` | server/scripts/load_baseline.py:55-55 | so it is the only such arrangement |
| `Percentiles.MeanAtMostMax` | server/scripts/load_baseline.py:60-61 | the mean lies between least and greatest sample |
| `Percentiles.SummaryPercentilesAre` | server/scripts/load_baseline.py:54-59 | p50, p95 and p99 are the rounded sample values at 0.50, 0.95 and 0.99 of the sample |
| `Percentiles.PercentileIsUnique` | server/scripts/load_baseline.py:47-51 | there is one value at a fraction of a sample |
| `Percentiles.SummaryMeanIs` | server/scripts/load_baseline.py:60-60 | the mean is the rounded sum of the sample over its size |
| `Percentiles.SummaryMaxIs` | server/scripts/load_baseline.py:61-61 | the maximum is the rounded greatest value |
| `Percentiles.TenthsAre` | server/scripts/load_baseline.py:57-61 | rounding gives the nearest tenth, the even one of two |
| `Percentiles.EmptySummaryIs` | server/scripts/load_baseline.py:48-61 | of no samples every figure is 0 |
| `Percentiles.SummaryIsOrdered` | server/scripts/load_baseline.py:54-62 | p50 <= p95 <= p99 <= max and mean <= max still hold after rounding each |
| `Percentiles.SummaryIgnoresOrder` | server/scripts/load_baseline.py:54-62 | the summary depends only on which samples there are |
| `BackupRestore.BuiltIsAcceptedExactly` | docker/operations/compose_backup.py:173-228 | a manifest built from any complete listing is accepted against that directory iff the parameters are usable, both database files are there and no path with surrounding whitespace does harm |
| `BackupRestore.BuildAndValidate` | docker/operations/compose_backup.py:143-170 | building and validating: accepted under exactly that condition, and the report repeats the stripped ids and counts the files |
| `BackupRestore.TrimmedIsAcceptedExactly` | server/scripts/verify_backup_manifest.py:36-150 | with trimmed paths only the parameters and the two files count |
| `BackupRestore.BlankAfterObjectIsRefused` | server/scripts/verify_backup_manifest.py:153-168 | a concrete object name that makes every backup holding it invalid |
| `BackupRestore.HeaderExactly` | docker/operations/compose_backup.py:203-212 | the header is valid iff ids are not blank, targets positive, and start and finish lie in increasing whole seconds |
| `BackupRestore.AcceptedInParts` | server/scripts/verify_backup_manifest.py:60-143 | acceptance of a built manifest comes down to header, records and named files |
| `BackupRestore.ObjectsExactly` | server/scripts/verify_backup_manifest.py:163-168 | the object list names known files iff no untrimmed path does harm |
| `BackupRestore.ReadbackIsFaithful` | docker/operations/compose_restore.py:211-233 | a bucket that passes the readback has the recorded names, sizes and digests; without digest collisions it is the backup's object tree iff the records name exactly its objects, with their digests |
| `BackupRestore.TrimmedReadbackIsFaithful` | docker/operations/compose_restore.py:211-233 | after acceptance of a manifest without untrimmed paths the bucket holds only objects of the backup, and all of them iff all are recorded |
| `BackupGaps.UnrecordedObjectIsLost` | server/scripts/verify_backup_manifest.py:60-83 | an accepted manifest that leaves an object unrecorded, and an empty bucket that passes its readback |
| `BackupGaps.BlankPathRestoresAnotherObject` | server/scripts/verify_backup_manifest.py:178-182 | an accepted manifest with a blank behind a path, and a bucket that passes its readback with the object under another name |
| `BackupRestore.MirrorReadsBackExactly` | docker/operations/compose_restore.py:211-233 | a faithful mirror of an unchanged backup reads back iff no object is called like the manifest |
| `BackupRestore.BackupRestoresExactly` | docker/operations/compose_backup.py:137-170 | with the manifest written beside it the backup is still accepted, and its mirror reads back under that same condition |
| `BackupRestore.VerifyObjectReadback` | docker/operations/compose_restore.py:211-233 | decides exactly whether the bucket has the expected names, sizes and digests |
| `BackupRestore.RecordedAre` | docker/operations/compose_backup.py:185-188 | the recorded paths are the listed files that are no manifest, none twice |
| `RestoreRun.RestoreCanonicalData` | docker/operations/compose_restore.py:39-182 | nothing is touched before validation, confirmation and stopped services, and the bucket only after the database; what a success means for database and bucket; when it is the object tree |
| `RestoreRun.ConfirmTarget` | docker/operations/compose_restore.py:185-208 | passes iff every name is non-empty and repeated exactly |
| `RestoreRun.BackupThenRestore` | docker/operations/compose_backup.py:79-170 | with working commands the dump and every object come back iff no object's name ends in whitespace, and success is reported iff moreover no object is called like the manifest |
| `RestoreRun.BackupHoldsObjects` | docker/operations/compose_backup.py:131-141 | the object part of the backup directory is the bucket it was mirrored from |
| `BackupManifests.BuildManifest` | docker/operations/compose_backup.py:173-228 | which parameter stands in which field, both times as whole seconds, and one record with path, digest and size for each recorded file |
| `BackupManifests.ValidateBackupManifest` | server/scripts/verify_backup_manifest.py:36-150 | accepts exactly the valid manifests, for arbitrary ones, and reports their stripped id and revision and the file count |
| `BackupManifests.CheckHeader` | server/scripts/verify_backup_manifest.py:43-58 | the checks from the feature key to the targets, in order, accept exactly valid headers |
| `BackupManifests.AcceptedHeader` | server/scripts/verify_backup_manifest.py:43-58 | what an accepted header says, field by field |
| `BackupManifests.AcceptedFiles` | server/scripts/verify_backup_manifest.py:60-143 | every record of an accepted manifest names another file inside the directory, with its size and digest |
| `BackupManifests.AcceptedNames` | server/scripts/verify_backup_manifest.py:153-168 | a component lists at least one file where one is needed, none twice, each by the stripped path of a record |
| `BackupManifests.AcceptedComponents` | server/scripts/verify_backup_manifest.py:85-129 | the four components of an accepted manifest |
| `BackupManifests.CheckRecords` | server/scripts/verify_backup_manifest.py:62-83 | the loop over the records accepts exactly valid records under distinct stripped names |
| `BackupManifests.CheckComponentFiles` | server/scripts/verify_backup_manifest.py:153-168 | accepts exactly lists of distinct known names |
| `BackupManifests.CheckContents` | server/scripts/verify_backup_manifest.py:131-143 | accepts exactly when every recorded file is there with its size and digest |
| `BackupFiles.Sha256Of` | docker/operations/compose_backup.py:329-334 | digesting a megabyte at a time is digesting the whole content |
| `BackupFiles.PartsBelow` | docker/operations/compose_restore.py:223-231 | a path below a directory has the directory and then its own parts |
| `Text.StripTrims` | server/scripts/verify_backup_manifest.py:178-182 | a stripped text has no surrounding whitespace |
| `RunSeeding.SeedFiller` | server/scripts/seed_console_prototype.py:1279-1297 | exactly the wanted failures or all runs, at the multiples of the stride; starts 5 to 1084 minutes back, never later along the index |
| `RunSeeding.StrideIs` | server/scripts/seed_console_prototype.py:1284-1284 | the stride is the largest that leaves room for all failures, 1 if none does, 0 without failures |
| `RunSeeding.StrideFits` | server/scripts/seed_console_prototype.py:1284-1284 | the stride is positive when it divides, and leaves room for every failure unless there are fewer runs |
| `RunSeeding.FailuresAre` | server/scripts/seed_console_prototype.py:1291-1297 | the runs that fail stand at 0, one stride, two strides, and so on |
| `RunSeeding.MinutesAre` | server/scripts/seed_console_prototype.py:1297-1297 | the start lies 5 minutes plus the whole minutes of index / total of 1080 back |
| `RunSeeding.CountTrueIs` | server/scripts/seed_console_prototype.py:1282-1282 | the named failures are those that are marked so |
| `RunSeeding.CountDecides` | server/scripts/seed_console_prototype.py:1291-1297 | deciding by the count placed so far is deciding by the offset alone |
| `DatabaseWait.WaitForDatabase` | server/scripts/wait_for_database.py:39-60 | at least one and at most ceil(max(timeout, 0) / 2) + 1 attempts; returns iff an attempt answers; gives up only at or after the deadline, and less than 7 s after it when sleeps and attempts are punctual |

## Left out

- The resolver's query, row selection and updates run against a database that is a map from tables to rows; a NULL column is absent from its row, and a SELECT returns the rows in stored order.
- The location strings and message texts of errors; a failure is one of six kinds.
- Python's `str()` of a value that is no string is any text that begins neither with `s` nor with whitespace.
- The comprehensions inside a field (a list of references, the bindings) have no loop of their own; they are the functions `MigrateRefs` and `MigrateBindings`, which fail with the first bad reference.
- Other revisions run in the same Alembic transaction, and the DDL they hold.
- JSON numbers are exact integers and reals; NaN and Python's `1 == 1.0 == True` play no part, since the migration copies numbers unchanged.
- PilotSaga.Pilot.Setup: does not model the admin session, the reading of the configuration apart from the model names, or failures of writing the state file; a process killed between a call and its record loses that resource.
- PilotServer.Soit.Api: does not model calls that happen on the server but raise at the client, such as a lost answer; nor another client's edit between the GET and the PUT of the allowlist.
- Server refusals other than of unknown resources and of providers with models, such as of a model that an agent or a published version still references: they are faults any call may meet.
- LoadRequests.Sample.OneWorkerRequest: does not model the `LOAD_DEBUG_THREAD_CHECK` branch, and takes what the stream will deliver as a parameter.
- LoadRun.RunsKeepInvariant: does not fix the order in which the semaphore admits requests (it proves the property for every order), and keeps taking steps after an exception has escaped, where `gather` raises.
- Floating-point rounding in latencies, percentiles and clocks: numbers are reals.
- SHA-256 is any function to 64 hex digits; injectivity is assumed only between the two trees compared.
- `datetime` parsing is any function; the one law used is that it reads back what `_iso_z` writes.
- BackupManifests.ValidateBackupManifest: takes a manifest whose JSON keys have been looked up, a missing key being null, and reports which group of checks failed rather than the message.
- Symbolic links, Windows paths and special files in a backup directory.
- RestoreRun.RestoreCanonicalData: what a failed restore leaves of the database and a failed mirror of the bucket is left open; the temporary dump in the container is not modelled.
- RestoreRun.BackupThenRestore: does not model the service checks and failing commands of `create_backup`; it starts from the dump, the revision and the objects those commands deliver.
- DatabaseWait.WaitForDatabase: what the attempts answer and how long attempts and sleeps last are parameters; error messages and URL rewriting are not modelled.
- The named runs, identifiers, agents and durations of `_seed_runs`.
- The outbox dispatcher, workers, budgets, workflow runtime, CLI, HTTP clients, web files, and the other evidence checkers.
