# migr8: a verified model of the crash-safe migration protocol

migr8 applies an ordered list of migrations to a database and records what it
did in three metadata tables. Its promise is about failure: a commit may land,
be rejected or lose its reply, an interrupt or a process death may fall between
any two steps, author code may catch any error and carry on -- and the next run
must still find a history it can trust.

This project models that protocol and proves the promise in Dafny 4.11. Check it
with `dafny verify dfyconfig.toml`.

## How it is built

The protocol is proved in two layers that meet in one relation.

* `Durable.Step` says which durable transitions exist at all: create the next
  metadata object, write the marker, complete an atomic unit, admit, readmit or
  complete a restartable unit, author work. The lemmas of `Durable` follow whole
  journeys of such steps: the referee accepts every state, rows never change
  once successful, attempts count admissions, an append-only manifest is never
  wedged.
* The program is imperative, like its source: `Database` (a server with durable
  tables and one open transaction, whose every call may be acknowledged,
  rejected, lose its reply or be interrupted), `RunLatch`, `SessionAdapter`,
  `MigrationContext`, `MigrateEngine`, `MigrateCommand`. Exceptions are values
  (`Outcome`, `Result`) propagated with `:-`. Author code (`Programs`) is an
  arbitrary strategy: a function from all the answers it has received to its next
  facade call, return or exception, so it may swallow, replace or ignore anything.
  What it would do if nothing failed is `Play`, a function of the data it finds. Each
  method is proved, for every behaviour of the database and of the author, to
  add only `Step`s to the trail of durable states.

`Runners` joins the two: runs follow one another over one namespace, each dying
anywhere along its trail, and an interleaving of lock-respecting runners is shown
to be one journey. What faults leave of the *data* is followed along a `Course`, one
set of possible data for each number of units done: if from data in it every source
runs through to the next set, passes through data of its own set only, and stops at
the first error, then no fault or death at any point of any run takes the data out
of the course, and the run that is left alone ends in its last set. `Sqlite` and `Postgres` refine the abstract driver relations
(`Begins`, `Commits`, `RollsBack`, `Executes`) by each engine's own transaction
semantics.

Beside the protocol stand the pure parts it leans on: the referee
(`StateValidate`), the status report (`Readonly`), the `fp1` encoding
(`Fingerprint`), the SQL scanner and normaliser (`SqlText`, `ScanLaws`,
`Normalize`, `NormalizeLaws`, `StatementLaws`, `Normalizer`), the comparison of CHECK conditions
(`Conditions`), and one client of the protocol, the checkpointed backfill: as a
program that calls the facade (`Backfill`), and as the strategy of an engine run
(`BackfillProgram`).

## What turned out false, and when it holds

* **A cleanly exited batch can be lost while its migration succeeds.** The server
  can answer in three ways that lead there; each is a chain of sessions, with the
  engine-transaction flag and the latch as the program leaves them, that ends where
  nothing stands in the way of completion. In `TornBatchCanComplete` the exit of an
  aborted batch rolls back, which clears the flag, and only then latches the failure
  (src/migr8/context.py:436-441 and 468-478); an interrupt between the two that
  author code swallows leaves no trace. In `HalfLatchedBatchCanComplete` the
  interrupt falls within the latching. In `WithdrawnBatchCanComplete` there is no
  interrupt at all: COMMIT is definitely refused and the transaction stays open, the
  author catches that error and calls `__exit__` again with it, and the second exit
  rolls back and clears the flag (src/migr8/context.py:385-390 and 485-487).
  `RunRestartable` proves that there is nothing else: once a unit is SUCCESS, each
  clean exit of a batch is either durable, whole, by the commit of its own
  transaction, or its own record shows why not -- an exit with an exception outside
  any batch came before it landed, or an interrupt fell into the latching of its
  failure, or the server has code that swaps transactions. So **all of them are
  durable** on a server without such code if the author leaves batches with an
  exception only from inside, as `with` blocks do (`Bracketed`), and if no interrupt
  fell into a latching; and of that an author makes sure who never returns normally
  after an interrupt or an outcome in doubt (`Candid`). `Go` states it for every
  unit of a run.
* **The latch can be set by half.** Its state and its error are two assignments
  (src/migr8/latch.py:57-73) and `check` looks at the error only. An interrupt
  between them that is swallowed leaves a latch that refuses nothing. All that is
  claimed here about a latched run -- silence after an unknown outcome, the
  reported code, no completion -- is claimed of a latched *error*: `Submit` sends
  a statement exactly when none is latched, and `RunLatch.Half` is tracked
  through every contract that depends on it.
* **Two SQLite transactions can share an epoch identity.** An interrupt between
  BEGIN and the increment, after a rollback the adapter did not see, reuses the
  epoch (src/migr8/adapters/sqlite.py:791-793).
  `InterruptedBeginSharesAnIdentity` is the instance and `IdentityMatchesIff` the
  exact condition. The abstract driver allows for it: a transaction whose begin was
  cut short (`cut`) may answer to another identity, and
  `SqliteSession.CarriesIdentity` shows that no other can. In atomic mode the
  identity is established after an acknowledged begin and only statements follow, so
  the test is exact there (`AtomicReturn`, `StatementsUnderIdentity`); a stale batch
  object that is exited again may match a transaction that was cut short.
* **Normalising is not idempotent on unusual whitespace.** Whitespace the scanner
  does not skip is a token to it, but is stripped from the text. In front it hides
  a leading `@` from the first pass (`OtherSpacingHidesInclusion`), and it makes an
  opening parenthesis count for the main verb of a WITH statement
  (`StrayHidesMainVerb`). `SecondPass` says exactly what a second pass returns, and
  `NormalizeIsIdempotentIff` that it is the same statement unless such whitespace
  stands in front of a script inclusion, or of a WITH statement that starts with a
  parenthesis and has another main verb outside it than behind it; with ordinary
  spacing it always is (`NormalizeIsIdempotent`).
* **A canonical condition with a quoted identifier need not be a fixed point**
  (`DelimitedIsNotFixed`). Without one it is (`CanonicalIsFixed`); in general it is
  exactly if it is itself laid out canonically, with no quoted identifier left in it
  (`CanonicalIsFixedIff`).
* **A DO statement can end in an error that is not the program's own**: looking
  for a dollar tag in a literal that has none raises `ValueError`
  (src/migr8/sqltext.py:498-499). `UnreadableDoBody` says for which literals; the
  model returns no statement for them.

## Model

| member | source | states |
|---|---|---|
| `StateValidate.OrderedIsSortedPermutation` | src/migr8/statevalidate.py:47-47 | sorting rows by position loses and adds none |
| `StateValidate.ValidateRow` | src/migr8/statevalidate.py:100-153 | a row passes if and only if status, mode, language, fingerprints, attempt and timestamps fit together |
| `StateValidate.CountingRuleIsPrefixRule` | src/migr8/statevalidate.py:78-95 | the two counting tests the code makes hold exactly when SUCCESS rows are a prefix with at most one ACTIVE row behind it |
| `StateValidate.CheckPositions` | src/migr8/statevalidate.py:49-73 | passes exactly when positions are 1..n without duplicate positions or ids |
| `StateValidate.ValidateRows` | src/migr8/statevalidate.py:75-76 | passes exactly when every row is valid on its own |
| `StateValidate.ValidateProgress` | src/migr8/statevalidate.py:156-183 | passes exactly when all checkpoints belong to the ACTIVE row, have distinct keys and non-empty values |
| `StateValidate.ValidateSnapshotShape` | src/migr8/statevalidate.py:39-97 | the referee accepts a snapshot if and only if it is well shaped, and rejects with damage otherwise |
| `StateValidate.BuildPlan` | src/migr8/statevalidate.py:186-262 | a plan is returned if and only if the snapshot is well shaped and each row, field by field, fits the unit at its position: a SUCCESS row has its id, language, mode and fingerprint, an ACTIVE row its id, with restartable mode and a new language only under a new fingerprint; the plan counts the SUCCESS rows, names the ACTIVE one and lists exactly the other units; refusals are damage for shape and validation for disagreement |
| `StateValidate.AgreementIsFieldwise` | src/migr8/statevalidate.py:198-250 | comparing by position in sorted order is comparing every row, in whatever order it was read, with the unit its position names |
| `StateValidate.RequireNoRecoveryNeeded` | src/migr8/statevalidate.py:265-277 | a plain run is refused exactly when the ACTIVE unit was amended, naming it |
| `StateValidate.CheckRecoveryAdmission` | src/migr8/statevalidate.py:280-309 | recovery is admitted exactly for the id of the ACTIVE restartable row, if the unit captured at its position is the same and restartable |
| `StateValidate.RecoveryOfAPlan` | src/migr8/statevalidate.py:280-309 | once a plan exists, that is exactly the id of its ACTIVE unit, amended or not |
| `Durable.StepKeepsInv` | src/migr8/statevalidate.py:39-183 | every durable step of any run keeps the invariant: layout created in order, marker only over it, history and progress shaped |
| `Durable.EveryReachableStateIsAccepted` | src/migr8/engine.py:416-577 | after any number of steps of any number of runs from an empty namespace the referee accepts the state |
| `Durable.RowsAreForever` | src/migr8/adapters/base.py:745-833 | a SUCCESS row never changes or moves; an ACTIVE row keeps id, position, mode, start time and first fingerprint |
| `Durable.AmendedOnlyByRecovery` | src/migr8/engine.py:519-539 | a recorded fingerprint or language changes only in a run that recovers that very id |
| `Durable.AttemptsAreAdmissions` | src/migr8/adapters/base.py:770-808 | the attempt of a restartable row equals the number of its durable admissions |
| `Durable.NeverWedged` | src/migr8/statevalidate.py:186-277 | if captures only append units, every state they leave is planned by any later capture without recovery |
| `Runners.MoveIsExclusive` | src/migr8/adapters/base.py:384-389 | what the lock holder knows is what is durable, whatever its runner does, and only its steps change it |
| `Runners.InterleavingsAreJourneys` | src/migr8/engine.py:153-190 | the durable states of any interleaving of lock-respecting runners, with in-doubt commits settling before the lock is released, form one journey of steps by runs that acquired the lock |
| `Runners.EveryInterleavingIsAccepted` | src/migr8/statevalidate.py:39-97 | every state such an interleaving passes through is accepted by the referee |
| `Runners.Succession` | src/migr8/engine.py:137-190 | engine runs one after another, on any kind of server, each faulting and dying anywhere, leave an accepted state reached by protocol steps only; and where no server code ends transactions, data in the course the sources steer |
| `Runners.Converge` | src/migr8/engine.py:399-447 | whatever earlier runs of a growing manifest left, on either kind of server, one fault-free run executes a prefix of the units that are not SUCCESS; if they run through from the data that was left, all of them, ending with every unit SUCCESS, no checkpoint and the data they play to, and a further run executes nothing; and they do run through, to data in the last set of the course, if the sources steer one, whatever failed before |
| `Latch.RunLatch.Check` | src/migr8/latch.py:75-83 | re-raises exactly a latched error; a half-set latch lets every call pass |
| `Latch.RunLatch.LatchUnknown` | src/migr8/latch.py:57-61 | the first failure wins; both assignments are made, or only the first when an interrupt falls between them |
| `Latch.RunLatch.LatchViolation` | src/migr8/latch.py:63-67 | the first failure wins; both assignments are made, or only the first when an interrupt falls between them |
| `Latch.RunLatch.LatchFailure` | src/migr8/latch.py:69-73 | the first failure wins; both assignments are made, or only the first when an interrupt falls between them |
| `Adapter.SessionAdapter.Guard` | src/migr8/adapters/base.py:208-262 | with no further interrupt, a lost reply, or an interrupt in a call that can commit, raises an unknown outcome and, on an unset latch, latches that very error and marks the moment among the driver calls; with one, it raises the interrupt; an interrupt in any other call, a definite rejection and an own error pass unchanged; no call is left in doubt without one of these |
| `Adapter.SessionAdapter.Submit` | src/migr8/adapters/base.py:645-662 | a statement is sent exactly when no error is latched, and returns exactly when it is acknowledged |
| `Adapter.SessionAdapter.HasOpenTransaction` | src/migr8/adapters/base.py:957-970 | answers whether a transaction is open, or sends nothing and re-raises |
| `Adapter.SessionAdapter.Begin` | src/migr8/adapters/base.py:922-937 | opens a transaction only when neither the server nor the engine flag says one is open, and sends no BEGIN otherwise |
| `Adapter.SessionAdapter.DurableCommit` | src/migr8/adapters/base.py:294-309 | only an acknowledged commit clears the engine flag; a rejected one leaves it set and nothing durable |
| `Adapter.SessionAdapter.Rollback` | src/migr8/adapters/base.py:943-945 | ends the transaction and clears the flag, or leaves the flag |
| `Adapter.SessionAdapter.EstablishTransactionIdentity` | src/migr8/adapters/base.py:989-999 | returns the identity of the open transaction |
| `Adapter.SessionAdapter.InsertSuccessRow` | src/migr8/adapters/base.py:723-743 | adds exactly the SUCCESS row, written out field by field with the time read off the clock, to the pending work; nothing becomes durable |
| `Adapter.SessionAdapter.InsertActiveRow` | src/migr8/adapters/base.py:745-768 | the ACTIVE row as attempt 1, written out field by field with the time read, is durable alone, or nothing is |
| `Adapter.SessionAdapter.SubmitInTransaction` | src/migr8/adapters/base.py:856-858 | a metadata statement is pending in a transaction of its own, on top of what is durable |
| `Adapter.SessionAdapter.UpdateInTransaction` | src/migr8/adapters/base.py:835-858 | succeeds only when exactly one ACTIVE row is updated, in a transaction of its own |
| `Adapter.SessionAdapter.RequireOneRow` | src/migr8/adapters/base.py:835-858 | any other number of affected rows is damage, and the update is rolled back |
| `Driver.DeletionIsExact` | src/migr8/adapters/base.py:810-833 | deleting checkpoints takes away exactly those of that migration |
| `Adapter.SessionAdapter.UpdateActiveAttempt` | src/migr8/adapters/base.py:770-808 | the ACTIVE row of that id gets the next attempt, the fingerprint, the language and the time read, every other row and field stays; durable, or nothing is |
| `Adapter.SessionAdapter.CompleteActiveRow` | src/migr8/adapters/base.py:810-833 | the ACTIVE row of that id becomes SUCCESS, finished at the time read, every other row and field stays, and the checkpoints are deleted: durable together or not at all, and only if nothing was latched or open before |
| `Adapter.SessionAdapter.InspectMetadata` | src/migr8/adapters/base.py:393-431 | inspection changes nothing and returns the classification of what is durable |
| `Adapter.SessionAdapter.CreateMetadataObject` | src/migr8/adapters/sqlite.py:834-838 | one object is durable on its own, or nothing is |
| `Adapter.SessionAdapter.CreateMissing` | src/migr8/adapters/base.py:441-454 | creates only what is missing, in the fixed order, whatever interrupts it |
| `Adapter.SessionAdapter.LayoutIsComplete` | src/migr8/adapters/base.py:456-466 | a second look says whether the whole supported layout is there |
| `Adapter.SessionAdapter.Initialize` | src/migr8/adapters/base.py:433-489 | leaves a prefix of the creation order; when it returns the layout is complete and marked; over incompatible definitions it never marks |
| `Adapter.SessionAdapter.Close` | src/migr8/adapters/base.py:366-367 | ends the session without touching anything durable |
| `Adapter.SessionAdapter.Discard` | src/migr8/adapters/base.py:375-380 | drops the connection with no SQL |
| `Metadata.InspectionMeans` | src/migr8/adapters/metadata.py:301-368 | each verdict exactly: DAMAGED is a marker over a missing object or an incompatible definition, or no marker over objects of which one is incompatible or holds a row; ABSENT is no marker and no object; INCOMPLETE is no marker over compatible empty objects; COMPLETE is the rest |
| `Metadata.InterruptedInitializationIsNotDamage` | src/migr8/adapters/metadata.py:97-97 | initialization interrupted any number of times inspects as a prefix of the creation order, never as damage, and the marker implies the full layout |
| `Context.UpsertKeepsKeysDistinct` | src/migr8/adapters/base.py:875-913 | writing a checkpoint never leaves two rows under one key |
| `Context.CheckpointReadsBack` | src/migr8/adapters/base.py:862-913 | a checkpoint reads back as written and no other one changes |
| `Context.ExecutionIsAuthored` | src/migr8/context.py:209-229 | whatever the server makes of an author statement, only application data and own checkpoints can become durable by it |
| `Context.CheckTransactionIdentity` | src/migr8/context.py:74-102 | passes only in the established transaction, or in one whose begin was cut short and that shares its identity; otherwise a violation is latched, or the read failed |
| `Context.ExecutionKeepsRecord` | src/migr8/context.py:209-229 | whatever the server makes of a statement, an exited batch keeps its record: landed whole, pending whole, or never |
| `Context.CommitKeepsRecord` | src/migr8/context.py:496-506 | a commit lands all of a pending batch or none of it |
| `Programs.KeysAreShortAscii` | src/migr8/context.py:325-331 | a progress key is 1 to 128 ASCII characters, exactly |
| `Programs.ValuesAreShort` | src/migr8/context.py:334-342 | a progress value is 1 to 4000 bytes of UTF-8, exactly |
| `Context.MigrationContext.AdmitCall` | src/migr8/context.py:140-164 | a call is refused once an error is latched or the batch transaction has ended, and that end is latched: as a failure where it is known to be a rollback, else as a violation |
| `Context.MigrationContext.SubmitOwn` | src/migr8/context.py:172-196 | every driver call of a batch is made in a transaction, and in the batch transaction where no server code can end one and open another; the answer is one the server may give |
| `Context.MigrationContext.ExecuteSql` | src/migr8/context.py:209-229 | an admitted statement that returns has taken effect on what the session sees, and only author steps become durable; a write outside a batch is refused without being sent, unless it is procedural; a statement is taken to be able to commit exactly outside a batch of restartable code |
| `Context.MigrationContext.GetProgress` | src/migr8/context.py:286-297 | returns the checkpoint of this migration under the key, as the current transaction sees it |
| `Context.MigrationContext.SetProgress` | src/migr8/context.py:299-322 | a checkpoint with a valid key and value is written exactly, only inside a batch, and never commits by itself |
| `Context.MigrationContext.RollbackBatch` | src/migr8/context.py:490-494 | once the engine transaction is no longer marked open, every batch exited and not landed is given up: by a clean exit, or by one with an exception outside any batch, which needs that each of them was marked when it happened |
| `Context.MigrationContext.BeginOwn` | src/migr8/adapters/base.py:922-937 | a transaction can be begun only when every batch exited before is landed or given up |
| `Context.MigrationContext.MakeBatch` | src/migr8/context.py:406-413 | a batch object is made, not entered, unless an error is latched |
| `Context.MigrationContext.Enter` | src/migr8/context.py:360-383 | a batch opens a transaction of its own over what is durable, and only when every batch exited before is settled |
| `Context.MigrationContext.CheckBatch` | src/migr8/context.py:432-478 | a batch is passed on to commit only in the established open transaction with nothing latched; the latch is never left half-set by a check that passes |
| `Context.MigrationContext.FailCleanBatch` | src/migr8/context.py:440-442 | a cleanly exited batch that was rolled back latches a failure; only an interrupt before or within the latching prevents it, and that is noted on the batch or shows in a half-set latch, and is raised |
| `Context.MigrationContext.CommitBatch` | src/migr8/context.py:496-506 | an acknowledged commit makes exactly the pending work durable and settles every exit; a refused one leaves the engine flag set and is a failed batch |
| `Context.MigrationContext.SettleBatch` | src/migr8/context.py:479-488 | a latched error is raised after a rollback, except that a failed batch keeps its own exception under a latched batch failure; a failed batch leaves nothing durable; a clean one commits |
| `Context.MigrationContext.FinishBatch` | src/migr8/context.py:415-488 | a clean exit returns normally only if the transaction that was open is committed and all of its work is durable; the only durable state it can add is that work |
| `Context.MigrationContext.Exit` | src/migr8/context.py:385-390 | leaving any batch object, entered or not, any number of times; every clean exit of an engine transaction is recorded with the transaction and its contents, unless an interrupt came before it did anything; one that returns normally has landed; one with an exception adds nothing durable, and strays only outside a batch |
| `Context.MigrationContext.CompletionExplains` | src/migr8/engine.py:577-577 | after a begin that succeeded, each clean exit is durable exactly if it was not given up, and one that was given up carries its own evidence |
| `Context.MigrationContext.ExecuteDdl` | src/migr8/adapters/base.py:1173-1193 | DDL runs in a transaction of its own |
| `Context.MigrationContext.RunDdl` | src/migr8/context.py:508-532 | DDL is refused in a batch, after a latched error or with a transaction open |
| `Context.MigrationContext.LeaveBatch` | src/migr8/context.py:385-388 | a clean exit of an engine transaction is recorded with what is pending; an exit with an exception marks what is on its way exactly if no batch was current |
| `Context.MigrationContext.UndoBatch` | src/migr8/context.py:436-442 | a batch that cannot be committed is rolled back, and a clean one is a failure of its own |
| `Context.MigrationContext.Call` | src/migr8/context.py:105-196 | where no server code ends transactions, a call in order that returns has had exactly its effect and its answer, and one that fails has had that effect on durable data or none |
| `Programs.OnTrackStill` | src/migr8/context.py:105-196 | one more call, returned or failed, keeps a straight program on the durable data it passes through when nothing fails |
| `Context.MigrationContext.Run` | src/migr8/context.py:105-196 | for every author program, which may exit batch objects as it likes, all that becomes durable are author steps; if nothing fails it does what it plays; if it is straight its durable data is always some it passes through then; if it is bracketed no exit strays; if it is candid no interrupt fell into a latching before a normal return |
| `Engine.TornBatchCanComplete` | src/migr8/context.py:436-441 | the server can answer so that a swallowed interrupt before the latching loses a cleanly exited batch: flag down, nothing latched, completion possible |
| `Engine.HalfLatchedBatchCanComplete` | src/migr8/latch.py:69-73 | so can an interrupt between the two assignments of the latching, after which no failure can be latched any more |
| `Engine.WithdrawnBatchCanComplete` | src/migr8/context.py:485-487 | so can a second exit after a refused COMMIT, without any interrupt |
| `Engine.MigrateEngine.InvokeSql` | src/migr8/engine.py:614-647 | a SQL entry file makes only author steps durable, and exactly its statement if it returns; an inadmissible one is refused with nothing sent |
| `Engine.MigrateEngine.Invoke` | src/migr8/engine.py:605-612 | author code may be called only where a legal entry says so, and every call leaves its entry: position, attempt, durable state, clean exits |
| `Engine.MigrateEngine.RunAuthor` | src/migr8/engine.py:456-466 | author code as part of a run adds protocol steps only and, in a guided run, keeps to the course |
| `Engine.MigrateEngine.RollbackQuietly` | src/migr8/engine.py:509-515 | rolls back except after an unknown outcome, when nothing is sent, and lets only an interrupt escape |
| `Engine.MigrateEngine.BeginAtomic` | src/migr8/engine.py:454-455 | a transaction over what is durable, and its identity |
| `Engine.MigrateEngine.AtomicReturn` | src/migr8/engine.py:458-477 | the SUCCESS row is pending only in the established transaction, exactly that one, with no error latched and, if the unit requires objects, after they were looked at |
| `Engine.MigrateEngine.CommitAtomic` | src/migr8/engine.py:499-499 | work and row are durable in one step, or nothing is |
| `Engine.MigrateEngine.AtomicBody` | src/migr8/engine.py:456-477 | the pending work is author work plus the SUCCESS row, in the established transaction, or an error is raised |
| `Engine.MigrateEngine.RunAtomic` | src/migr8/engine.py:451-499 | while the established transaction survives, work and SUCCESS row are durable in one step or not at all; if it ends underneath, no SUCCESS row becomes durable |
| `Engine.MigrateEngine.AbandonAtomic` | src/migr8/engine.py:478-498 | an unknown outcome, an interrupt or a system exit is raised as it is, with nothing sent; any other failure is rolled back and becomes the latched error or a failed migration; nothing durable changes |
| `Engine.MigrateEngine.Admit` | src/migr8/engine.py:519-539 | admission is durable before author code runs, and the attempt author code sees is the durable one |
| `Engine.MigrateEngine.PostReturnCleanup` | src/migr8/engine.py:591-603 | no SQL after an unknown outcome; otherwise no transaction is left open without a rollback; nothing durable changes |
| `Engine.MigrateEngine.RestartableBody` | src/migr8/engine.py:541-575 | author code runs with its ACTIVE row durable; afterwards the row is still as admitted |
| `Engine.MigrateEngine.PostReturnState` | src/migr8/engine.py:560-575 | returns normally only with nothing latched, no batch left open, no transaction open and required objects looked at; a batch or transaction left open is a failed migration, and a latched error is raised with nothing sent |
| `Engine.MigrateEngine.Complete` | src/migr8/engine.py:577-577 | if the unit becomes SUCCESS, every clean exit of a batch is explained by its own record, and all are durable if none strayed, no interrupt fell into a latching and no server code ends transactions |
| `Engine.MigrateEngine.RunRestartable` | src/migr8/engine.py:519-577 | the same for the whole unit, for every author program and every fault, batch by batch; for a bracketed and candid source on a server without such code all clean exits are durable |
| `Engine.MigrateEngine.Execute` | src/migr8/engine.py:416-447 | units run in plan order; what was executed is a prefix of what was pending and author code was entered once for each of them; an empty plan changes nothing; if nothing fails and the sources run through, the data is what they play to |
| `Engine.MigrateEngine.AdmitRecoveryNamespace` | src/migr8/engine.py:355-378 | recovery needs completed metadata |
| `Engine.MigrateEngine.InitializeAndInspect` | src/migr8/engine.py:386-393 | initialization ends with a marked layout and an empty history |
| `Engine.MigrateEngine.InitializeIfNeeded` | src/migr8/engine.py:380-395 | damaged or complete metadata is left alone; otherwise initialization leads to a marked layout |
| `Engine.MigrateEngine.Judge` | src/migr8/engine.py:399-412 | which histories this run may follow, exactly: well shaped, each row fitting its unit, no amended ACTIVE migration unless it is the one to recover, and an ACTIVE one for every recovery; each refusal with its exit code |
| `Engine.MigrateEngine.PlanRun` | src/migr8/engine.py:399-412 | a plan describes the durable history, and an amended ACTIVE unit is planned only under its own recovery |
| `Engine.MigrateEngine.AcquireLock` | src/migr8/engine.py:176-176 | the lock is granted, or the run fails for want of it |
| `Engine.MigrateEngine.Locked` | src/migr8/engine.py:178-190 | inspection and all that follows happen with the lock granted |
| `Engine.MigrateEngine.Attempt` | src/migr8/engine.py:153-190 | the lock comes before any look; recovery of uninitialized metadata creates nothing; a run over a finished namespace changes nothing; damaged or incompatible metadata, wrong bindings and refused histories change nothing and fail, without faults with the code the table of refusals gives |
| `Engine.MigrateEngine.DiscardQuietly` | src/migr8/engine.py:323-342 | one discard, or two if an interrupt cut the first one short; nothing durable changes |
| `Engine.MigrateEngine.CloseQuietly` | src/migr8/engine.py:312-321 | the session is closed, and discarded if an interrupt cut that short; nothing durable changes and only an interrupt escapes |
| `Engine.MigrateEngine.Fail` | src/migr8/engine.py:248-263 | the recorded code is that of the error |
| `Engine.MigrateEngine.Terminate` | src/migr8/engine.py:223-246 | the latched error decides the reported code whatever was raised, a required recovery is named, and a connected session is let go: discarded after an unknown outcome, closed otherwise |
| `Engine.MigrateEngine.LeaveSession` | src/migr8/engine.py:242-246 | a connected session is discarded after an unknown outcome and closed otherwise; one that was never connected is left alone |
| `Engine.MigrateEngine.HandleInterruption` | src/migr8/engine.py:265-295 | an unlatched interruption is rolled back and reported as a failed migration |
| `Engine.MigrateEngine.Conclude` | src/migr8/engine.py:153-190 | the attempt is recorded as OK exactly if it was done, else with the code of its error, and the session is let go |
| `Engine.MigrateEngine.SettleInterruptedTeardown` | src/migr8/engine.py:192-207 | a recorded outcome survives an interrupted teardown unchanged |
| `Engine.MigrateEngine.Go` | src/migr8/engine.py:137-151 | a whole run: only protocol steps; what was executed is a prefix of what was left to do; author code entered once for each unit, only in legal states; every batch under a SUCCESS row vouched for; every call in doubt is followed by a latched unknown outcome, unless an interrupt came after it or had left the latch half-set, and none is latched without an unanswered call or an interrupt; no driver call but discard behind it; the code is UNKNOWN_OUTCOME, CONTRACT_VIOLATION or MIGRATION_FAILED as the latch says, the refusal table for refused runs without faults, the lock code without a lock, and OK only with every unit SUCCESS; in a guided run the data stays in its course whatever fails |
| `Cli.MigrateCommand.Render` | src/migr8/cli.py:256-266 | the code is decided before anything is written |
| `Cli.MigrateCommand.CleanupStaging` | src/migr8/cli.py:228-253 | after an engine run two interrupts are absorbed, one by a second attempt, and only a third escapes |
| `Cli.MigrateCommand.DoMigrate` | src/migr8/cli.py:184-208 | returns the recorded outcome or is interrupted |
| `Cli.MigrateCommand.RenderInterruptOnce` | src/migr8/cli.py:397-428 | renders the recorded outcome, else the latched code, else an ordinary failure |
| `Cli.MigrateCommand.RenderInterrupt` | src/migr8/cli.py:370-386 | the same with one repetition; only a third interrupt escapes |
| `Cli.MigrateCommand.Command` | src/migr8/cli.py:446-504 | for every pattern of interrupts the exit code is the recorded one, else the latched one: UNKNOWN_OUTCOME after any call in doubt that no interrupt followed, CONTRACT_VIOLATION or MIGRATION_FAILED as latched; the result is written at most once; OK means every unit is SUCCESS; silence behind a latched unknown outcome |
| `Sqlite.IdentityMatchesIff` | src/migr8/adapters/sqlite.py:893-904 | an established epoch matches again exactly when the transaction is the same or every control call since went uncounted |
| `Sqlite.DistinctTransactionsHaveDistinctIdentities` | src/migr8/adapters/sqlite.py:791-826 | if no begin was cut short before its count, two open transactions never share an epoch |
| `Sqlite.InterruptedBeginSharesAnIdentity` | src/migr8/adapters/sqlite.py:791-793 | a silent rollback and a begin cut short give two transactions one epoch |
| `Sqlite.SqliteSession.DoBegin` | src/migr8/adapters/sqlite.py:791-793 | refines the abstract begin; counted exactly when acknowledged |
| `Sqlite.SqliteSession.DoCommit` | src/migr8/adapters/sqlite.py:795-821 | refines the abstract commit; a COMMIT without a transaction is a definite rejection that wrote nothing, a storage error is in doubt |
| `Sqlite.SqliteSession.DoRollback` | src/migr8/adapters/sqlite.py:823-826 | refines the abstract rollback; nothing is sent without a transaction |
| `Sqlite.SqliteSession.BatchTransactionState` | src/migr8/adapters/sqlite.py:874-889 | OPEN exactly while the transaction is; a lost one is known to be rolled back while connected |
| `Sqlite.SqliteSession.ReadTransactionIdentity` | src/migr8/adapters/sqlite.py:901-904 | the epoch, exactly while a transaction is open |
| `Sqlite.SqliteSession.CarriesIdentity` | src/migr8/adapters/sqlite.py:893-904 | refines the abstract identity test: an established epoch is found in its own transaction, and otherwise only in one whose begin was cut short |
| `Sqlite.SqliteSession.StatementsUnderIdentity` | src/migr8/adapters/sqlite.py:893-904 | across any statements, however they fail, the identity read equals the established one exactly when the transaction is the same, and then nothing became durable |
| `Postgres.PostgresSession.DoCommit` | src/migr8/adapters/postgres.py:406-426 | refines the abstract commit although the server answers COMMIT of an aborted transaction with ROLLBACK: that is a rejection and nothing is sent or lost silently |
| `Postgres.PostgresSession.DoRollback` | src/migr8/adapters/postgres.py:428-433 | refines the abstract rollback |
| `Postgres.PostgresSession.Run` | src/migr8/adapters/postgres.py:711-712 | refines the abstract statement; an error aborts the transaction, and an aborted one answers only errors |
| `Postgres.PostgresSession.BatchTransactionState` | src/migr8/adapters/postgres.py:680-690 | an aborted transaction still counts as open |
| `Postgres.PostgresSession.EstablishTransactionIdentity` | src/migr8/adapters/postgres.py:694-701 | the id is the open transaction and is never given to another |
| `Postgres.PostgresSession.ReadTransactionIdentity` | src/migr8/adapters/postgres.py:703-707 | equals an established id exactly in the transaction it was given to; an aborted transaction answers with an error |
| `Fingerprint.BigEndianRoundTrip` | src/migr8/fingerprint.py:24-29 | a length is read back from its fixed-width bytes |
| `Fingerprint.FieldRoundTrip` | src/migr8/fingerprint.py:32-35 | a field is read back whole, whatever follows it |
| `Fingerprint.FieldsRoundTrip` | src/migr8/fingerprint.py:38-50 | a list of pairs of fields is read back |
| `Fingerprint.SortedIsUnique` | src/migr8/fingerprint.py:45-45 | a sorted arrangement of the same pairs is unique |
| `Fingerprint.DecodeRecovers` | src/migr8/fingerprint.py:65-79 | a decoder recovers language, mode, entry, sorted required objects and sorted files |
| `Fingerprint.EncodingIdentifiesDefinitions` | src/migr8/fingerprint.py:65-79 | two definitions encode equally exactly when they agree up to the order of required objects and of files |
| `Fingerprint.EncodeRequired` | src/migr8/fingerprint.py:38-50 | the loop writes the encoding of the sorted required objects |
| `Fingerprint.CanonicalBytes` | src/migr8/fingerprint.py:65-79 | the loop writes the encoding |
| `Fingerprint.SupportedIsText` | src/migr8/fingerprint.py:16-21 | a recorded fingerprint is supported if and only if it is the text of some 32-byte digest |
| `Fingerprint.TextIdentifies` | src/migr8/fingerprint.py:82-85 | different digests have different texts |
| `SqlText.RunIsLongest` | src/migr8/sqltext.py:193-211 | a run of a character class is maximal |
| `SqlText.FindIsFirst` | src/migr8/sqltext.py:213-217 | a find is the first occurrence |
| `SqlText.Lex` | src/migr8/sqltext.py:118-184 | the pieces of a text, whitespace included, concatenate to the text |
| `SqlText.LexPartitions` | src/migr8/sqltext.py:118-184 | tokens are ordered, disjoint, non-empty, carry their exact text, and leave only skipped whitespace between them |
| `SqlText.ScanNumber` | src/migr8/sqltext.py:197-210 | the number loop ends where the specification says |
| `SqlText.ScanPlainString` | src/migr8/sqltext.py:220-231 | the string loop ends where the specification says |
| `SqlText.Tokenize` | src/migr8/sqltext.py:118-184 | the scanning loop always advances, fails exactly on an unterminated form, and partitions its input |
| `SqlText.LiteralIsScannedWhole` | src/migr8/sqltext.py:220-231 | the literal of any value is scanned to its end |
| `SqlText.ScannedIsALiteral` | src/migr8/sqltext.py:220-231 | whatever is scanned as a literal is the literal of some value |
| `SqlText.HeadIsLocal` | src/migr8/sqltext.py:131-183 | a token depends only on its own text and the character class behind it |
| `ScanLaws.QuotedIdentifier` | src/migr8/sqltext.py:213-217 | a quoted identifier ends at its first double quote, whatever follows |
| `ScanLaws.BlockComment` | src/migr8/sqltext.py:139-147 | a block comment ends at its first star-slash |
| `ScanLaws.LineComment` | src/migr8/sqltext.py:133-138 | a line comment ends before its line break |
| `ScanLaws.DollarQuoted` | src/migr8/sqltext.py:234-248 | a dollar-quoted literal ends at its own tag, named or not |
| `ScanLaws.AlternativeQuoted` | src/migr8/sqltext.py:251-281 | an alternative-quoted literal, in every spelling of its prefix, ends at the bracket that answers its opener, before a quote |
| `ScanLaws.BlankOpensNothing` | src/migr8/sqltext.py:272-275 | whitespace cannot open one |
| `ScanLaws.NationalLiteral` | src/migr8/sqltext.py:251-265 | a national literal is a plain one behind its prefix |
| `ScanLaws.WordIsScannedWhole` | src/migr8/sqltext.py:187-194 | a word is scanned whole |
| `Normalize.Classify` | src/migr8/sqltext.py:507-531 | block, definition or plain SQL, by the first word and the first word behind CREATE modifiers |
| `Normalize.CteMainVerb` | src/migr8/sqltext.py:414-432 | the first main verb at parenthesis depth zero |
| `Normalize.CteBodyVerbs` | src/migr8/sqltext.py:438-461 | exactly the data-modifying verbs that open a body behind AS at depth zero |
| `Normalize.DoBodyNames` | src/migr8/sqltext.py:481-504 | a name is found if and only if the body of some string token names it, and there is an answer if and only if every string token has a body |
| `Normalize.StringsInIdentifierPosition` | src/migr8/sqltext.py:390-400 | a name is found if and only if some plain literal with that value stands behind a word or dot that announces a name |
| `NormalizeLaws.StripKeeps` | src/migr8/sqltext.py:606-608 | stripping takes away stray whitespace tokens at both ends and changes no word, no other token and no answer about slashes |
| `NormalizeLaws.WithoutSemicolonKeepsWords` | src/migr8/sqltext.py:582-586 | removing the final semicolon and scanning again keeps every word, although a dash may join a comment |
| `NormalizeLaws.SecondPass` | src/migr8/sqltext.py:542-642 | for every accepted text, exactly what normalising the result again returns |
| `NormalizeLaws.NormalizeIsIdempotentIff` | src/migr8/sqltext.py:542-642 | that is the same statement exactly unless unskipped whitespace stands in front of a script inclusion, or of a WITH statement that starts with a parenthesis and whose first main verb outside it differs from the first behind it |
| `NormalizeLaws.NormalizeIsIdempotent` | src/migr8/sqltext.py:542-642 | which is always so on text with ordinary spacing |
| `NormalizeLaws.StrayHidesMainVerb` | src/migr8/sqltext.py:414-432 | every text of an unskipped whitespace, a parenthesis, WITH and SELECT is accepted without a main verb, and the second pass finds it |
| `NormalizeLaws.UnreadableDoBody` | src/migr8/sqltext.py:481-504 | for which literals of a DO statement there is no body to look into |
| `NormalizeLaws.AcceptedTerminators` | src/migr8/sqltext.py:582-604 | for every accepted text: plain SQL holds no semicolon outside literals, quoted identifiers and comments; a block or definition ends in one; no slash stands alone on a line |
| `NormalizeLaws.OtherSpacingHidesInclusion` | src/migr8/sqltext.py:606-622 | in every real character database, with a no-break space in front, the second pass refuses what the first accepted |
| `NormalizeLaws.AcceptedNames` | src/migr8/sqltext.py:403-411 | for every accepted text: each bare word and each quoted identifier, without its quotes, is among the names in upper case; in a statement other than DO there are no other names |
| `StatementLaws.UpperByCharacter` | src/migr8/sqltext.py:108-111 | upper-casing goes character by character |
| `StatementLaws.BodyOfLiteral` | src/migr8/sqltext.py:383-387 | the body of a plain literal is its value |
| `StatementLaws.BodyOfDollars` | src/migr8/sqltext.py:495-500 | the body of a dollar-quoted literal is what stands between its tags |
| `StatementLaws.AsciiWordsOf` | src/migr8/sqltext.py:501-504 | text that cannot be tokenized is searched for words, each taken whole |
| `StatementLaws.AsciiWordsSkip` | src/migr8/sqltext.py:478-503 | what cannot start a word is skipped, and nothing more |
| `StatementLaws.AcceptedDoNames` | src/migr8/sqltext.py:481-504 | the names in the code of an accepted DO statement are among its names, whether the code can be tokenized or not |
| `StatementLaws.AcceptedStringNames` | src/migr8/sqltext.py:390-400 | the string names of an accepted statement are exactly the values of plain literals behind a word or dot that announces a name |
| `StatementLaws.AcceptedBodyVerbs` | src/migr8/sqltext.py:438-478 | the body verbs of an accepted WITH statement are exactly the data-modifying verbs that open a body behind AS, AS MATERIALIZED or AS NOT MATERIALIZED |
| `StatementLaws.AcceptedIsNoCommand` | src/migr8/sqltext.py:553-634 | an accepted plain statement starts with no client command but the SET statements servers know; it holds no NUL; its lead is its first four words |
| `StatementLaws.ServerSetIsNoCommand` | src/migr8/sqltext.py:645-657 | SET ROLE, SET CONSTRAINT(S) and SET TRANSACTION are not refused as client commands |
| `Normalizer.StandaloneIsLone` | src/migr8/sqltext.py:534-539 | the line test by positions says exactly that the slash is alone on its line |
| `Normalizer.SettleTerminators` | src/migr8/sqltext.py:582-595 | refuses exactly what is not terminated as its kind demands, after cutting one semicolon from plain SQL |
| `Normalizer.BuildStatement` | src/migr8/sqltext.py:610-642 | names, string names and common-table-expression verbs as those laws have them |
| `Normalizer.NormalizeStatement` | src/migr8/sqltext.py:542-642 | the program that cuts and rescans computes the normal form that the laws above are about, every field of it |
| `Conditions.CanonicalCondition` | src/migr8/adapters/metadata.py:189-225 | the loop computes the canonical form, or nothing for an unrecognised condition |
| `Conditions.CanonicalIsFixed` | src/migr8/adapters/metadata.py:189-225 | a canonical form is its own canonical form, without quoted identifiers |
| `Conditions.CanonicalComparesTokens` | src/migr8/adapters/metadata.py:189-225 | canonical forms are equal exactly when the folded tokens are, without quoted identifiers |
| `Conditions.CanonicalIsFixedIff` | src/migr8/adapters/metadata.py:189-225 | in general it is exactly if the output is folded tokens one blank apart, none of them a quoted identifier |
| `Conditions.FoldIsAsciiCase` | src/migr8/adapters/metadata.py:189-225 | folding changes the case of the 26 letters and nothing else |
| `Conditions.DoubleOperators` | src/migr8/adapters/metadata.py:173-184 | two-character operators are tokens |
| `Conditions.NotNullMeans` | src/migr8/adapters/metadata.py:186-230 | a constraint is dropped as NOT NULL exactly if it is a name followed by those words in any case, one final line break allowed |
| `Conditions.DelimitedIsNotFixed` | src/migr8/adapters/metadata.py:219-222 | a quoted lower-case identifier under upper folding is not a fixed point |
| `Conditions.CheckProblems` | src/migr8/adapters/metadata.py:233-289 | no problem is reported exactly when every constraint is recognised and, NOT NULL ones dropped, all are enforced and they are exactly the expected set; each missing, unsupported or unenforced one is named |
| `Readonly.RowByIdIsRowByPosition` | src/migr8/readonly.py:63-96 | in a planned history the row found by id is the row at the position |
| `Readonly.Fill` | src/migr8/readonly.py:63-96 | the counts by id are the counts by position |
| `Readonly.StatusAgreesWithPlan` | src/migr8/readonly.py:63-96 | whenever a plan exists, status reports its success count, pending count and active id |
| `Backfill.ShownIsRead` | examples/sqlite/migrations/003-backfill-region/migration.py:16-34 | the checkpoint text is read back as the id that was written |
| `Backfill.Select` | examples/sqlite/migrations/003-backfill-region/migration.py:19-23 | the batch is the ascending prefix of the rows left to do |
| `Backfill.UpdateRows` | examples/sqlite/migrations/003-backfill-region/migration.py:27-30 | in the batch transaction, exactly the selected rows are filled, and counted |
| `Backfill.SaveCheckpoint` | examples/sqlite/migrations/003-backfill-region/migration.py:33-34 | the highest id of the batch is pending as its checkpoint |
| `Backfill.BatchBody` | examples/sqlite/migrations/003-backfill-region/migration.py:18-34 | select, update and checkpoint leave exactly the batch and its checkpoint pending |
| `Backfill.BatchKeepsProgress` | examples/sqlite/migrations/003-backfill-region/migration.py:27-34 | a batch that lands fills no row twice and leaves nothing to do at or below its checkpoint |
| `Backfill.OneBatch` | examples/sqlite/migrations/003-backfill-region/migration.py:18-34 | through the facade, whatever fails, the batch and its checkpoint become durable together or not at all |
| `Backfill.Migrate` | examples/sqlite/migrations/003-backfill-region/migration.py:15-35 | every durable state the migration leaves can be re-entered from; it terminates, and if it returns the work is finished |
| `BackfillProgram.LowestAre` | examples/sqlite/migrations/003-backfill-region/migration.py:19-23 | the selection as a function: the lowest rows left, in order |
| `BackfillProgram.IsBracketed` | examples/sqlite/migrations/003-backfill-region/migration.py:15-35 | whatever it is answered, the program leaves a batch with an exception only from inside |
| `BackfillProgram.IsCandid` | examples/sqlite/migrations/003-backfill-region/migration.py:15-35 | and never returns normally after an interrupt or an outcome in doubt |
| `BackfillProgram.IsStraight` | examples/sqlite/migrations/003-backfill-region/migration.py:15-35 | nor makes any call after an error but the exit of its batch |
| `BackfillProgram.PlayFollows` | examples/sqlite/migrations/003-backfill-region/migration.py:15-35 | the play of the strategy is the walk through the stages of the program |
| `BackfillProgram.BackfillPlays` | examples/sqlite/migrations/003-backfill-region/migration.py:15-35 | from any data an earlier entry can have left, the program runs through if nothing fails, however many batches that takes, and the work is finished |
| `BackfillProgram.PassesProgressed` | examples/sqlite/migrations/003-backfill-region/migration.py:15-35 | all durable data on the way is data it can be entered from again |
| `BackfillProgram.BackfillSteers` | examples/sqlite/migrations/003-backfill-region/migration.py:15-35 | so as the source of a unit it steers the course from unfinished to finished data |
| `BackfillProgram.Converge` | examples/sqlite/migrations/003-backfill-region/migration.py:15-35 | after any number of engine runs over an empty namespace that fault and die anywhere, and one that is left alone, the migration is SUCCESS, every positive-id NULL row was updated exactly once and no other row changed |

## Left out

- Oracle: transactions that open by themselves, implicit commits around DDL and its dictionary; the abstract driver covers explicit transactions as SQLite and PostgreSQL have them.
- Drivers, connection set-up, lock acquisition and polling, TLS, liveness probes and storage preparation are one step that may fail or be interrupted; the lock itself is the exclusive resource of `Runners`.
- The dictionary queries behind `_definition_problems`: whether existing definitions are compatible is an input of `Database`, except for the comparison of CHECK conditions.
- Runner diagnostics in history rows (host, user, process, session, tool version), report text, JSON, the run log, redaction and message wording; errors are kept by kind, phase and exit code.
- The per-code error tables that sort a driver exception into rejection or communication failure; the answer is arbitrary.
- Manifest, TOML and configuration parsing, staging of files, Python import, and the filesystem.
- SHA-256; `Fingerprint` works on bytes, so UTF-8 encoding of paths and names is not modelled either.
- Statement admission (`admit_statement`, `admit_ddl`, reserved names) beyond its verdict, which is the `legal` flag of a facade call; that author code leaves the reserved tables alone is therefore a premise.
- Procedural blocks that commit several times within one statement: a statement ends its transaction at most once and opens at most one.
- Interrupts fall at driver calls and at the explicit points between statements where a durable or latched fact is at stake, the two assignments of the latch included, not at every bytecode.
- The handlers in `main` for engine-independent errors and for failing output; `Write` may be cut short but its I/O errors are not modelled.
- SqlText.Tokenize: says that a text is refused, not with which message.
- NormalizeLaws.NormalizeIsIdempotent: asks for text whose only whitespace is the six characters the scanner skips; `NormalizeIsIdempotentIff` is the statement for all text.
- Conditions.CanonicalCondition: `fold` is ASCII upper- or lower-casing, which is what the adapters pass and all that an unquoted identifier can need; a quote that never closes makes the condition unrecognised at once, where the pattern would first back up to an earlier quote and then fail on the rest.
- Fingerprint.EncodingIdentifiesDefinitions: asks for distinct file paths and for lengths that fit their 4-byte and 8-byte prefixes.
- Cli.MigrateCommand.Command: three further interrupts during the rendering of an interrupt may escape; nothing is claimed of the exit code then.
- Engine.MigrateEngine.Go: the check of required objects is an arbitrary answer, and an author program is cut off by an interrupt after a number of actions that may be any function of the data it starts from.
- Engine.MigrateEngine.RunRestartable: clean exits while no engine transaction is marked open have nothing to lose and are not recorded, nor is one that an interrupt stopped before it did anything.
- BackfillProgram.Converge: no other writer touches the table while the migration runs, the batch size is at least one, no server code ends the transaction, and ids have at most 4000 digits; `executemany` is one statement for each id, and the manifest holds this migration alone.
- Context.MigrationContext.SubmitOwn: on a server whose code can commit and reopen a transaction inside a statement, a call of a batch is known to be in some transaction only; the program asks whether one is open, not which.
- The snapshot read inside its own read-only transaction is one atomic read of the driver.
