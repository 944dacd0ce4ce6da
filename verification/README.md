# Verification of the schema follower and its neighbours

A Dafny 4.11 model of the parts of this repository whose correctness rests on an argument, with
proofs of what they promise. `dafny verify dfyconfig.toml` checks everything.

## What is modelled

**The schema follower** carries a publisher's migrations to a logical-replication subscriber: apply
stalls at the migration transaction, the subscription is disabled, the migration is replayed locally
under a trigger that logs every inserted row, those rows are deleted again, and apply, re-enabled,
brings production's own row changes onto the new schema.

- `Tables`, `UndoApply`, `Keyless`, `CopyAhead`: tables as maps from key to row, the publisher's
  changes, and the apply worker of section 31.5 of the PostgreSQL 16 documentation, which raises on an
  insert of a present key and skips an update or delete of an absent one.
- `Rewrites`, `Apart`: a migration as a script of statements: row changes, table rewrites and stored
  defaults; and tables that agree outside some relations.
- `ReplayShape`, `ChecksSuffice`, `WaivedChecks`: the shape checks before the undo, the operator's
  resolutions of their halts, and what a passing check says about the scripts on both sides, before and
  after resolutions.
- `StallMarker`: the one-shot armed versions.
- `Protocol`: the persisted state of the whole system, and one event for every database transaction
  of the publisher, the apply worker, the follower, the operator and copy-columns. Crashes may fall
  between any two events. A transaction's position in the publisher's sequence stands for both its
  xid and its LSN.
- `ExactlyOnce`, `LogComplete`, `Ledger`, `DataEquality`, `AfterUndo`, `VersionTables`, `Restoring`:
  invariants every event keeps, and what they mean for whole runs.
- `Carrying`, `Resolving`, `RoundTrip`: runs put together: from a stall to the pass, through halts and
  their resolutions, and around the copy's guard.
- `Follower`: the commands themselves, in the order of their statements, each proved to be a run of
  that protocol with a stated outcome. A crash is a budget of database transactions that runs out.

**Self-contained algorithms**: cycle detection and root restriction of the plan graph (`PlanGraph`);
the HCL masker (`HclMask`) against a grammar of the HCL Native Syntax Specification's templates and
comments that has exactly the closed sources (`HclGrammar`, `HclParse`); the sequence margins
(`SeqSync`); the SQL printers against readers following section 5.3 of ISO/IEC 9075-2 (`Quoting`);
the libpq password file of section 34.16 of the PostgreSQL 16 documentation (`Passfile`); and the
pager relay's delivery loop (`Relay`).

## What the proofs found

Where a promise does not hold as worded, the model follows the code, and each item names the condition
proved instead.

- The applied record is keyed by version, so a later migration transaction that leaves the same
  version takes it over (`RecordedIffUndone` is exact, `RecordTakenOver` a run). Stall handling is
  safe all the same (`PendingRecordIsExact`).
- The copy's guard compares version rows, not positions: a publisher that changes revision and returns
  passes it, and columns it has reshaped already are reshaped again when both migrations are carried.
  `GuardMissesRoundTrip` is that run, with the exact condition for its data to come out equal, for every
  one-row table and pair of reshapings; `RoundTripDiverges` an instance. A copy with no migration up to
  its snapshot does no harm (`MergeConverges`).
- A halt by the configuration guard keeps no detail of a migration in progress; a resume then goes
  idle without the undo (`BareHaltForgetsReplay`).
- A crash inside a halt, after its trigger cleanup, leaves step `migrate` without triggers
  (`TornHaltLosesRows`). The log is complete in every run without these two (`ReplayLogComplete`).
- A migration that changes a key of, or unsafely rewrites, a table it then drops cannot be resolved
  (`ResolvingTerminates` gives the exact condition, `RewriteThenDropIsStuck` an instance).
- The publisher's version rows pass the marker after the undo if and only if none is inserted twice and
  none of their updates finds its row (`ReappliesExactly`, over runs `ReappliesAfterUndo`): a version row
  inserted and then updated in one transaction, or an upgrade run that passes through the revision it
  ends at, stalls a second time (`StampThenRestampStalls`, `UpgradeRunReapplies`).
- A transaction that deletes a version row and then updates another row to that version passes after the
  undo and loses the row; a pass leaves the publisher's rows if and only if no row that is kept without
  being inserted is deleted on the way (`PassLeavesRows`).
- A transaction that only deletes version rows fires no marker (`RaisesExactly`); head comparison alone
  can notice it.
- `max_advance` skips pairs of one instant, so its bound holds exactly when no instant has two values
  (`BoundHoldsExactly`), and `margin_for` is an exact ceiling only against integers
  (`MarginCoversReals`).
- A passfile whose last line lacks its newline loses the boundary to the new entry (`WriteReadsBack`).

## Model

| member | source | states |
|---|---|---|
| Tables.ApplyTracksDivergence | local/postgres/lib/qpg/follower.py:24-33 | A subscriber whose keys are among the publisher's applies any publisher transaction without a conflict, and the rows still missing and still stale afterwards are computed exactly from the transaction alone. |
| Tables.ApplyOnEqualTable | local/postgres/lib/qpg/follower.py:11-12 | Apply reproduces the publisher's effect on an equal table, so stopping before a transaction means holding the data as of the one before. |
| Tables.MissingClosesByDelete | local/postgres/lib/qpg/follower.py:24-33 | With no key change a row the subscriber lacks stops diverging exactly when the publisher deletes it: apply skips updates of it. |
| Tables.StaleClosesByWrite | local/postgres/lib/qpg/follower.py:24-33 | A stale row stops diverging exactly when the publisher deletes or rewrites it. |
| UndoApply.ReplayKeyState | local/postgres/lib/qpg/follower_schema.py:195-224 | What the row trigger can know of one key: an old row the replay never deleted survives and is not logged; any other key present after the replay is logged. |
| UndoApply.UndoRestoresKeys | local/postgres/lib/qpg/follower.py:1001-1052 | After the undo the table holds exactly the pre-migration keys the replay never deleted, and its missing and stale rows are exactly what the replay deleted and altered. |
| UndoApply.UndoThenApply | local/postgres/lib/qpg/follower.py:24-33 | The central claim, for every table, every replay that changed no key and every publisher transaction: applying it to the undone table never conflicts, and gives the publisher's table if and only if the transaction settles what the replay deleted and altered. |
| UndoApply.SettlesRowByRow | local/postgres/lib/qpg/follower.py:24-33 | That condition row by row: every old row the replay deleted is deleted by production, and every one it altered is written or deleted by production. |
| UndoApply.SameSelectionSettles | local/postgres/lib/qpg/follower.py:50-57 | A replay that deletes and writes the keys production did is always carried, whatever values it generated. |
| UndoApply.DifferentSelectionDiverges | local/postgres/lib/qpg/follower.py:52-57 | The undetected gap: a row only the replay selected for deletion stays missing and nothing reports it. |
| Rewrites.RewritesFirst | local/postgres/lib/qpg/follower.py:934-978 | If no table is reshaped, by a rewrite or by a column with a stored default, after a row was written to it, then running the migration is reshaping every row first and then making the row changes as they are decoded; the one goes through exactly when the other does. |
| Rewrites.UndoThenApplyAcrossRewrites | local/postgres/lib/qpg/follower.py:934-978 | Undo-then-apply for the replay's script and production's, which may differ in their row changes but reshape the old rows alike: production's changes as decoded never conflict on the undone table, and lead to production's next state if and only if they settle what the replay deleted and altered. |
| Rewrites.RewriteAfterUpdateDiverges | local/postgres/lib/qpg/follower.py:934-941 | Why the check is needed: an update followed by a rewrite, identical on both sides, silently leaves the row as it was before the rewrite. |
| Apart.UndoThenApplyApart | local/postgres/lib/qpg/follower.py:24-33 | Undo-then-apply when some tables' rewrites or defaults were resolved: whatever both sides do to the shape of those, apply never conflicts, and outside them it ends at the publisher's rows if and only if production's changes settle what the replay deleted anywhere and altered outside them. |
| ChecksSuffice.KeyCheckIsExact | local/postgres/lib/qpg/follower.py:898-907 | The key-change check is exact: for every script whose triggers wrote the log, it finds nothing if and only if no update of the script changed a key. |
| ChecksSuffice.SafeRewrites | local/postgres/lib/qpg/follower.py:934-971 | What a passing rewrite check says of each rewrite of the script: its table had not been touched by then, directly or through a partitioned parent, it filled no volatile default, and the table had gained no column. |
| ChecksSuffice.PassingChecksSuffice | local/postgres/lib/qpg/follower.py:883-978 | The fail-closed checks suffice. When the log is what the triggers wrote of the replay and nothing but renames was resolved, a passing check gives every hypothesis of undo-then-apply across changes of shape: no key changed, both scripts reshape first, and they reshape the old rows alike. |
| WaivedChecks.UnsafeOutside | local/postgres/lib/qpg/follower.py:351-358 | Deleting the log rows of a resolved rewrite, as resolve does, hides nothing about any other table: every unsafe rewrite outside the resolved partition trees is still reported. |
| WaivedChecks.PassingChecksSufficeOutside | local/postgres/lib/qpg/follower.py:883-978 | The fail-closed checks after resolutions: on the log resolve leaves, a passing check still gives that no key changed, and outside the tables resolved that both scripts reshape first and alike. |
| Keyless.UndoSubtracts | local/postgres/lib/qpg/follower.py:1022-1028 | On a table without a key the row-numbering delete is exact multiset subtraction: max(0, count - logged) copies of each row remain. |
| Keyless.UndoneReplay | local/postgres/lib/qpg/follower.py:1022-1028 | A replay that only inserted is undone exactly; one that also deleted leaves max(0, before - deleted) of each row, in whatever order it worked. |
| CopyAhead.CopyTouchesOnly | local/postgres/lib/qpg/follower.py:419-424 | copy-columns adds and removes no row and changes only the chosen columns of matched rows. |
| CopyAhead.CopyColumns | local/postgres/lib/qpg/follower.py:406-424 | A copy is refused exactly when the rows read but not held locally outnumber the allowance; otherwise exactly the matched rows of the table are updated, and no key comes or goes. |
| CopyAhead.CopyAheadConverges | local/postgres/lib/qpg/follower.py:406-424 | Copying from a snapshot ahead of apply and then applying everything gives the publisher's table if and only if each row no later change hits agreed with the publisher outside the copied columns. |
| CopyAhead.CopiedColumnsConverge | local/postgres/lib/qpg/follower.py:406-424 | A subscriber that differs only in the copied columns ends equal to the publisher at any later position. |
| CopyAhead.CopyKeepsConverging | local/postgres/lib/qpg/follower.py:421-422 | A copy on a subscriber that would converge anyway keeps it converging. |
| ReplayShape.ResolveProgresses | local/postgres/lib/qpg/follower.py:330-378 | One resolve settles its own target, leaves the other cases alone and raises no new target. |
| ReplayShape.IssuesShrink | local/postgres/lib/qpg/follower.py:883-978 | Resolving an unresolved rename, key change, unsafe rewrite or stored default shrinks the set of issues strictly; no resolve enlarges it. |
| ReplayShape.HaltsMoveForward | local/postgres/lib/qpg/follower.py:374-378 | Resolving every target a halt named, in any order and with repetitions, moves the check to a later case or lets it pass. |
| ReplayShape.PassesWhenSettled | local/postgres/lib/qpg/follower.py:883-978 | The shape check passes if and only if nothing is unresolved. |
| ReplayShape.ResolvingTerminates | local/postgres/lib/qpg/follower.py:330-383 | Resolving carries a migration through, in at most four halts, if and only if no issue is about a relation the migration itself dropped. |
| ReplayShape.EverySessionEnds | local/postgres/lib/qpg/follower.py:374-383 | Every session in which each halt's targets are all resolved, whatever else the operator resolves, has at most one halt per case from the first one's on; and where no issue is about a dropped relation it never ends stuck: the check passes or its halt can be answered. |
| ReplayShape.DeadIssueStays | local/postgres/lib/qpg/follower.py:351-356 | An issue about a dropped relation survives every resolution: its printed name is a number, which names no table. |
| ReplayShape.RewriteThenDropIsStuck | local/postgres/lib/qpg/follower.py:942-956 | A concrete migration, rewriting a table and then dropping it, that no session of answered halts carries through. |
| StallMarker.ArmingsConserved | local/postgres/lib/qpg/follower_schema.py:97-102 | For every history in which arming is one-shot: committed passes of a version plus outstanding armings equal its effective armings. |
| StallMarker.ArmingBetweenPasses | local/postgres/lib/qpg/follower_schema.py:159-189 | Two passes of one version always have an arming of it between them. |
| StallMarker.RaisesExactly | local/postgres/lib/qpg/follower_schema.py:159-189 | A transaction aborts if and only if it comes, with the armings left by then, to write a version row that is not armed or whose key is taken; deletes, and updates of absent rows, never fire the marker. |
| StallMarker.UnarmedStops | local/postgres/lib/qpg/follower_schema.py:12-20 | From the publisher's own version rows, every transaction that writes a version row is stopped unless it writes an armed version: a re-stamp or a downgrade to an old version stalls too. |
| StallMarker.PrefixStopsAtStall | local/postgres/lib/qpg/follower_schema.py:159-189 | Apply's committed prefix ends at the list's end or right before the first transaction that writes a version row which is not armed, or whose key is taken; every transaction before it had none, and an aborted one gives its armings back. |
| StallMarker.ReappliesExactly | local/postgres/lib/qpg/follower.py:28-32 | For every list of inserted, updated and deleted version rows without an update to an armed version: after the replay and its undo the publisher's list passes the marker if and only if it inserts no version twice and no update finds its row, among those the replay left and the undo kept, or inserted earlier in the list and not deleted since; then it uses up the armings of what it inserts. |
| StallMarker.PassesExactly | local/postgres/lib/qpg/follower_schema.py:159-189 | Which transactions an armed marker lets through, for any armings: exactly those whose inserted versions are all armed, inserted once, and whose updates find no row. |
| StallMarker.PassLeavesRows | local/postgres/lib/qpg/follower.py:28-32 | What such a pass leaves: the replay's version rows if and only if the transaction deletes none that it keeps without inserting; one that deletes a version and then updates another row to it passes and silently loses that row. |
| StallMarker.UpgradeRunReapplies | local/postgres/lib/qpg/follower.py:29-31 | After the replay of an upgrade run and its undo, the publisher's own run passes the marker if and only if the run does not pass through the revision it ends at before its end. |
| StallMarker.HistoryRunReapplies | local/postgres/lib/qpg/follower.py:1030-1037 | A coord run that only inserts history rows is let through exactly once after the undo and leaves the publisher's rows. |
| StallMarker.StampThenRestampStalls | local/postgres/lib/qpg/follower.py:1030-1037 | In particular every list with a version row inserted, not deleted, and later updated stalls again, because the undo arms only the logged insert. |
| ExactlyOnce.KeepsSafe | local/postgres/lib/qpg/follower.py:839-881 | Every event keeps undos in commit order and none past what apply reached, the applied record equal to what those undos wrote, nothing undone after a migration whose own undo has not committed, the subscription off from the logging step to the undo, and a copy and a migration exclusive. |
| ExactlyOnce.KeepsStanding | local/postgres/lib/qpg/follower.py:594-611 | Every event of a steady run keeps apply right before the migration that is being carried. |
| ExactlyOnce.UndoneAtMostOnce | local/postgres/lib/qpg/follower.py:869-871 | Over every run with crashes between transactions, the undo of a remote transaction commits at most once, and undos follow the publisher's order. |
| ExactlyOnce.RecordedIffUndone | local/postgres/lib/qpg/follower.py:1120-1136 | A transaction is on the applied record if and only if its undo committed and it left some version row that no later undone transaction left. |
| ExactlyOnce.PendingRecordIsExact | local/postgres/lib/qpg/follower.py:803-804 | For a transaction apply has not passed the record is exact, so a stall on a recorded transaction cannot start a second replay. |
| ExactlyOnce.EnableFollowsUndo | local/postgres/lib/qpg/follower.py:866-871 | Step enable is persisted only after the undo of that very transaction, and before it nothing later can have been undone. |
| ExactlyOnce.SubscriptionStaysOff | local/postgres/lib/qpg/follower.py:843-871 | From the persisted step log until the undo commits, through restarts, halts and resumes, the subscription is off. |
| LogComplete.MigrationIsLogged | local/postgres/lib/qpg/follower_schema.py:195-224 | Whatever the migration transactions do with the triggers on, the log names every row and version row they inserted, and nothing else as inserted. |
| LogComplete.KeepsLogged | local/postgres/lib/qpg/follower.py:845-861 | Every event but an incomplete halt keeps the log complete, the relog step included. |
| LogComplete.ResolveKeepsExact | local/postgres/lib/qpg/follower.py:345-372 | A resolution keeps the log exact but for the entries of the partition tree it resolves, so what earlier and later resolutions say adds up. |
| LogComplete.ReplayLogComplete | local/postgres/lib/qpg/follower.py:845-861 | Over every run without an incomplete halt: while a replay is under way, running or halted, every row it inserted and every version it stamped is in the log. |
| LogComplete.UndoneMigrationsPassed | local/postgres/lib/qpg/follower.py:865-871 | At every undo of such a run for which no key change was resolved, the replay has changed no key; and outside the tables whose rewrites and defaults were resolved, against any script of the same migration, both reshape first and reshape the old rows alike. |
| LogComplete.TornHaltLosesRows | local/postgres/lib/qpg/follower.py:267-286 | Why a halt must be taken whole: a crash inside it at step migrate leaves the restarted migration unlogged. |
| LogComplete.BareHaltForgetsReplay | local/postgres/lib/qpg/follower.py:715-719 | A guard halt keeps no detail: during a replay the next resume goes idle with the replayed rows in place and the undo never made. |
| Ledger.KeepsMarked | local/postgres/lib/qpg/follower_schema.py:97-102 | Every event keeps armings one-shot: only apply, the seed and the undo touch them. |
| Ledger.ArmingIsOneShot | local/postgres/lib/qpg/follower_schema.py:97-102 | Over every run of the whole protocol: passes plus outstanding armings are the effective armings, and two passes of one version have an arming between them. |
| Ledger.KeepsHonest | local/postgres/lib/qpg/follower.py:482-487 | Every event of every run keeps every debt on the owed ledger, and the subscription off while a debt's migration has not been carried through. |
| Ledger.DebtsAreOwed | local/postgres/lib/qpg/follower.py:360-371 | Over every run, crashes and transient errors included: every copy still owed is on the ledger; while a copy is under way the follower is idle and every debt's migration has been carried through; and while one has not been, the subscription is off. |
| Ledger.DebtsAppear | local/postgres/lib/qpg/follower.py:360-371 | A debt appears only when an operator resolves a rewrite, key change or missing value. |
| Ledger.DebtsGo | local/postgres/lib/qpg/follower.py:482-487 | A debt goes exactly when a copy that covers its columns commits, on an idle follower that has carried the debt's migration through. |
| Ledger.ClearedMeansCopied | local/postgres/lib/qpg/follower.py:346-372 | The ledger over every run: once a resolve has owed an entry, at every later point it is there or a copy covering it (every non-key column for *) has committed since, after that resolve's migration had been carried through to idle. |
| DataEquality.ConvergingApplies | local/postgres/lib/qpg/follower.py:421-422 | Apply keeps a table that differs only in rows about to be rewritten on its way to the publisher's, one transaction at a time. |
| DataEquality.UndonePhase | local/postgres/lib/qpg/follower.py:24-33 | At the undo, whatever the migration did to the shape of the rows and whatever rewrites and defaults were resolved: the checks that passed and the settling of the row changes make apply lead the undone table to the publisher's state after the migration, but for rows of the tables resolved. |
| DataEquality.MergeConverges | local/postgres/lib/qpg/follower.py:461-481 | A copy from a snapshot ahead of apply keeps the table converging, however far ahead, as long as no migration lies in between, and brings back a resolved table whose rows differed in the copied columns only. |
| DataEquality.KeepsGood | local/postgres/lib/qpg/follower.py:839-881 | Every event of a careful, steady run keeps the data invariant: the replayed script's rows during a replay, rows that one application of production's changes turns into the publisher's once undone, and the publisher's (but for copied columns of rows about to change) otherwise, each outside the tables set apart by resolutions. |
| DataEquality.SubscriberEqualsPublisher | local/postgres/lib/qpg/follower.py:1-33 | Data equality over whole runs, migrations that rewrite tables and store defaults and halts that were resolved included: if the undone migrations were the publisher's and settled, then outside a replay and once apply has passed the newest undo and the newest copy, the subscriber's table is the publisher's at apply's position, but for rows of tables that a resolution has set apart and no copy has brought back. That no key changed and shapes agree is not assumed: the checks the undo passed give it. |
| DataEquality.ApartByResolution | local/postgres/lib/qpg/follower.py:345-372 | A table is set apart only by the undo of a migration for which its own rewrite or stored default was resolved, and comes back only by a copy of it when its rows differed in the copied columns alone. |
| DataEquality.ApplyNeverConflicts | local/postgres/lib/qpg/follower.py:24-33 | In such runs apply never meets a row conflict when the subscription is on and the marker passes the next transaction, and that transaction was carried or changes no shape. |
| DataEquality.ConvergesLater | local/postgres/lib/qpg/follower.py:421-422 | Before that the table still leads to the publisher's. |
| AfterUndo.ApplyStopsAtStall | local/postgres/lib/qpg/follower_schema.py:12-20 | Over every run in which nothing is armed or replayed: apply gets no further than the first transaction that writes an unarmed version row, stands there with that transaction's armings kept, and cannot carry it. |
| AfterUndo.MarkerWaits | local/postgres/lib/qpg/follower.py:866-877 | From an undo until apply has passed its transaction, through every interleaving, the marker and the version rows stay as the undo left them. |
| AfterUndo.ReappliesAfterUndo | local/postgres/lib/qpg/follower.py:28-32 | The exact re-application condition over runs, transient errors taken for stalls included: after any run to an undo and any continuation, until apply has passed the migration the marker stops it if and only if it inserts a version twice or one of its updates finds its row; where it does not, the pass leaves what its inserts and deletes leave, and none of its armings. |
| VersionTables.KeepsVersions | local/postgres/lib/qpg/follower_schema.py:12-20 | Every event keeps the version tables: the publisher's rows at apply's position outside a carry, those of the lane a replay does not work on during one, those but for the inserted rows, armed, right after an undo, and every migration passed among the undone ones. |
| VersionTables.UndoneRows | local/postgres/lib/qpg/follower.py:1107-1118 | The version check before the undo at work: web versions equal to the recorded ones, on a subscriber whose other lane the replay left alone, are the publisher's whole version tables; for a coord lane, checked by inclusion, that it holds no more is asked of the replay. |
| VersionTables.ProperIsSteady | local/postgres/lib/qpg/follower_schema.py:12-20 | The marker does its work: where every migration writes an unseeded version row, every stall the follower handles in such a run is one the marker causes, whatever error it read. |
| VersionTables.VersionTablesFollow | local/postgres/lib/qpg/follower.py:384-404 | Over whole runs the version tables equal the publisher's at apply's position, outside a replay and but for the migration just undone, and nothing is armed that was not seeded. |
| VersionTables.EachMigrationCarriedOnce | local/postgres/lib/qpg/follower.py:1-15 | What the marker is for: over whole runs every migration apply has passed was replayed and undone exactly once, and apply cannot carry the next one before its undo has committed. No stall is assumed to be the marker's where every migration writes an unseeded version row. |
| VersionTables.MarkedTransactionsApply | local/postgres/lib/qpg/follower.py:24-33 | So when every transaction that changes a shape writes an unseeded version row, apply in a faithful run carries the next transaction exactly when the marker passes it, and the run stays faithful. |
| VersionTables.MarkedSubscriberEquals | local/postgres/lib/qpg/follower.py:1-33 | Data equality and version-table equality over whole runs without a word about stalls, where every migration writes an unseeded version row. |
| Carrying.CarryOne | local/postgres/lib/qpg/follower.py:839-881 | From every stall on a migration whose replay passes the checks there is a run that ends idle and enabled with the undo made, recorded, and the transaction applied, with the resulting table, marker and record stated. |
| Carrying.MigrationIsCarried | local/postgres/lib/qpg/follower.py:1-33 | The design at work: a follower that holds the publisher's table and stalls on a migration, which then runs locally, passes the checks and settles row by row, has a run to the publisher's next state. |
| Carrying.BackfillIsCarried | local/postgres/lib/qpg/follower.py:24-33 | From installation, a migration that rewrites a table and fills a row with a value computed on each side has a run to the publisher's value in the publisher's shape: the hypotheses of the data theorems are met. |
| Carrying.RecordTakenOver | local/postgres/lib/qpg/follower.py:1120-1136 | A whole run, an upgrade, a downgrade and the upgrade again, each stalled, replayed, undone and applied, after which the first migration's undo has committed and the applied record no longer names it. |
| RoundTrip.GuardMissesRoundTrip | local/postgres/lib/qpg/follower.py:384-404 | A whole run without a halt: a copy during which the publisher migrates to another revision and back passes the version guard, and after both migrations are carried the row is the publisher's if and only if reshaping the copied row twice gives what reshaping the old one twice gives; for every row, both reshapings and any copied columns. |
| RoundTrip.RoundTripDiverges | local/postgres/lib/qpg/follower.py:384-404 | An instance: two migrations that each append to a column, and a copy of that column in between, end with different data, idle and without a halt. |
| Resolving.HaltedMigrationIsUndone | local/postgres/lib/qpg/follower.py:330-383 | From every halt of the shape check that is not about a dropped relation there is a run of resolves and resumes to the undo, with at most one halt more per later case. |
| Resolving.CarryResolved | local/postgres/lib/qpg/follower.py:839-881 | From every stall on a migration whose issues are not about dropped relations there is a run that ends idle and enabled with the undo made, recorded, and the transaction applied, after at most four halts, and after none exactly when the check passes at once. |
| Resolving.LateRewriteRemedied | local/postgres/lib/qpg/follower.py:320-328 | A migration that updates a row and then rewrites its table, from installation to the remedy: a run in which the check halts, the operator resolves, and the carried row is as it was before the rewrite; then copy-columns gives the publisher's row if and only if the rewrite changed nothing but the copied columns. |
| Restoring.OwingApplies | local/postgres/lib/qpg/follower.py:421-422 | Apply keeps a table that differs from the publisher's in owed columns only at that, and settles the rows it touches. |
| Restoring.MergeOwing | local/postgres/lib/qpg/follower.py:461-487 | A copy leaves owed exactly what the remaining debts cover: a debt it clears covers no column it did not copy. |
| Restoring.OwedCopiesRestore | local/postgres/lib/qpg/follower.py:320-328 | The remedy works: from a table that differs in owed columns only, and until the publisher migrates again, once every debt's copy has committed and apply has passed the newest snapshot, the table is the publisher's, whatever else happens meanwhile. |
| Restoring.ResolvedRunsRestore | local/postgres/lib/qpg/follower.py:320-328 | And the assumption it starts from: after any careful and steady run from installation, resolved rewrites and defaults included, an idle follower past its newest undo and copy differs from the publisher in the resolved tables only, so that of those alone the operator's assumption about columns is needed. |
| Follower.Follower.constructor | local/postgres/lib/qpg/follower.py:190-201 | An installed follower on a subscriber that holds the publisher's first state is an initial state of the protocol. |
| Follower.Follower.CommitBatch | local/postgres/lib/qpg/follower_schema.py:195-233 | A committed transaction of the migration command, with the triggers' log rows, is the protocol's migration event. |
| Follower.Follower.UndoReplayInserts | local/postgres/lib/qpg/follower.py:1001-1052 | The undo, the armings, the applied record and the step change are one event. |
| Follower.Follower.DisableStep | local/postgres/lib/qpg/follower.py:842-844 | Step disable is persisted as done only when the workers are gone; otherwise it halts there. |
| Follower.Follower.LogStep | local/postgres/lib/qpg/follower.py:845-852 | Step log ends with an empty log, triggers on, and the scope stored. |
| Follower.Follower.RelogStep | local/postgres/lib/qpg/follower.py:853-861 | Step relog keeps the log and brings the triggers back. |
| Follower.Follower.MigrateStep | local/postgres/lib/qpg/follower.py:862-864 | The command may commit some transactions and fail, or the process die in between; only success is persisted. |
| Follower.Follower.UndoStep | local/postgres/lib/qpg/follower.py:865-871 | Step undo halts on wrong versions (web ones must be equal, coord ones present) or a wrong shape with the data untouched, and otherwise leaves exactly the undone table and an empty log. |
| Follower.Follower.EnableStep | local/postgres/lib/qpg/follower.py:872-877 | Step enable turns the subscription on exactly if it was on before, and ends idle. |
| Follower.Follower.OneStep | local/postgres/lib/qpg/follower.py:840-881 | One turn either stops with the state persisted or lowers the rank of the step; the undo happens exactly on the turn into enable. |
| Follower.Follower.Advance | local/postgres/lib/qpg/follower.py:839-881 | The step loop terminates; a run to the end undoes exactly the transaction once, and a halt or crash leaves it in progress for the reason given. |
| Follower.Follower.HaltNow | local/postgres/lib/qpg/follower.py:267-286 | For every number of its transactions that commit, exactly what a halt leaves: only a whole one records the interrupted step, and it disables the subscription when it can be reached. |
| Follower.Follower.ResumeCommand | local/postgres/lib/qpg/follower.py:297-316 | A halted migration goes back to its step, or to relog or log when it halted before its undo; any other halt goes idle with the subscription as the halt found it. |
| Follower.Follower.HandleStall | local/postgres/lib/qpg/follower.py:800-835 | A recorded, unidentified, refused or moved transaction halts with nothing changed; one with table syncs in flight waits; any other is carried through or left in progress. |
| Follower.Follower.Poll | local/postgres/lib/qpg/follower.py:720-738 | A missing subscription, parallel streaming or several heads on the publisher halt first, in that order; then a migration in progress advances, a missing log halts, a fresh stall is refused, waits or starts, and passed heads halt; each with its exact outcome. |
| Follower.Follower.Cycle | local/postgres/lib/qpg/follower.py:713-745 | One poll is a run of the protocol with its exact ending: a halted follower does nothing, a refusal leaves what a halt that committed so far leaves, a migration in progress stays the same one or is carried through with its undo made once, and the guard's halt, which comes first, loses the detail. |
| Follower.Follower.RecordResolution | local/postgres/lib/qpg/follower.py:345-372 | The resolution, the log rows it deletes and the owed entry are one event. |
| Follower.Follower.ResolveCommand | local/postgres/lib/qpg/follower.py:330-378 | Exactly the current case and a named target are accepted; the follower resumes exactly when no named target remains. |
| Follower.Follower.WriteCopied | local/postgres/lib/qpg/follower.py:463-481 | The copy's update, from a snapshot at or ahead of apply that passed the version guard, is one event and settles the debts it covers. |
| Follower.Follower.CopyWhileOff | local/postgres/lib/qpg/follower.py:461-489 | Past the disable, with the publisher committing meanwhile: refused exactly when its version rows moved, refused exactly when too many rows are unmatched, both with nothing changed here, or done with its owed entries cleared. |
| Follower.Follower.CopyColumnsCommand | local/postgres/lib/qpg/follower.py:429-493 | copy-columns is a run of the protocol that starts only idle, enabled and caught up, reads a snapshot ahead of apply by what the publisher committed meanwhile, and turns the subscription on again at every ending but a crash. |
| PlanGraph.CanonicalInvariant | scripts/plan-graph.py:277-285 | Two reports that are rotations of each other have the same signature. |
| PlanGraph.RanksFall | scripts/plan-graph.py:291-308 | Along a walk whose edges all lead to earlier finished stems the finishing order falls, so it cannot close. |
| PlanGraph.CycleSearch.ReportBackEdge | scripts/plan-graph.py:295-302 | A back edge closes a cycle of real edges through the current stem, which is on a report afterwards. |
| PlanGraph.CycleSearch.Dfs | scripts/plan-graph.py:291-308 | The recursion terminates, restores the stack, finishes each stem once and visits nothing the stem does not reach. |
| PlanGraph.SearchDecides | scripts/plan-graph.py:267-312 | For every closed part of what was visited: some report touches it if and only if it has a cycle. |
| PlanGraph.DetectCycles | scripts/plan-graph.py:267-312 | Every reported list is a closed simple path of real edges, no two are rotations of each other, exactly what the nodes reach is visited and each stem once, and the list is empty if and only if that is acyclic. |
| PlanGraph.Graph.EnsureNode | scripts/plan-graph.py:138-146 | A present stem is left alone; a new one gets its node and an edge set. |
| PlanGraph.RestrictToRoot | scripts/plan-graph.py:320-354 | An unknown root gives only its placeholder; otherwise the result is the graph restricted to the least set closed under edges with the root, and the cycles lying inside it. |
| PlanGraph.ReachedByWalks | scripts/plan-graph.py:331-348 | That set is exactly the stems some walk from the root leads to. |
| PlanGraph.RestrictedCyclesDecide | scripts/plan-graph.py:350-353 | Although only the whole graph was searched: the kept cycles are exactly the reported ones touching the root's part, and there are none if and only if the restricted graph is acyclic. |
| HclMask.MaskSource | scripts/terraform-sensitive-lint.py:99-188 | The in-place scan terminates on every input, keeps the length and every newline, and only ever turns a character into a space. |
| HclMask.MaskOnlyBlanks | scripts/terraform-sensitive-lint.py:99-188 | The same of a scan from any context. |
| HclMask.MaskingAgainChangesNothing | scripts/terraform-sensitive-lint.py:99-188 | Masking a mask changes nothing and ends in the same contexts, for every input and starting context. |
| HclGrammar.TerminatorLines | scripts/terraform-sensitive-lint.py:176-184 | A heredoc ends at a line holding the tag between spaces and tabs, and at no other. |
| HclGrammar.ScanIsMask | scripts/terraform-sensitive-lint.py:99-188 | In every context and before any following text, scanning a tree's text gives the tree's mask and returns to that context. |
| HclGrammar.MaskFollowsStructure | scripts/terraform-sensitive-lint.py:99-188 | For every document of code, comments, heredocs and strings with escapes, escaped markers and nested templates: the scan is the structural mask and no context stays open. |
| HclParse.ReadDoc | scripts/terraform-sensitive-lint.py:99-188 | Every source suffix that the scanner finds closed from a context is the text of a tree up to where that context ends. |
| HclParse.ReadParts | scripts/terraform-sensitive-lint.py:121-144 | The same from inside a quoted literal. |
| HclParse.ClosedSourcesAreDocuments | scripts/terraform-sensitive-lint.py:99-188 | The sources in which nothing is left open are exactly the texts of trees, and on each of them the mask is the structural one: the grammar leaves out no input but unclosed ones. |
| SeqSync.MaxAdvance | local/postgres/lib/qpg/seqsync.py:56-70 | The loop computes the largest rate between neighbours of the sorted samples. |
| SeqSync.BestIsLargest | local/postgres/lib/qpg/seqsync.py:56-70 | That value bounds every neighbouring rate and is zero or attained. |
| SeqSync.BestIgnoresOrder | local/postgres/lib/qpg/seqsync.py:64-70 | It does not depend on the order in which the rows are read. |
| SeqSync.AdvanceIsBounded | local/postgres/lib/qpg/seqsync.py:56-70 | For every list: the advance between two samples is at most the rate times the time that counts, plus what jumped within single instants. |
| SeqSync.BoundHoldsExactly | local/postgres/lib/qpg/seqsync.py:56-70 | The bound without that last term holds between all samples if and only if no instant has two values. |
| SeqSync.MarginCovers | local/postgres/lib/qpg/seqsync.py:73-74 | The margin covers every integer advance up to three times the largest. |
| SeqSync.MarginCoversReals | local/postgres/lib/qpg/seqsync.py:73-74 | It covers three times the real-valued advance exactly unless that exceeds the floor by a fraction between zero and a thousandth. |
| SeqSync.SeqSync.Decide | local/postgres/lib/qpg/seqsync.py:114-141 | One source row: unused, error, ahead or set, with the margin and both values reported. |
| SeqSync.SeqSync.Run | local/postgres/lib/qpg/seqsync.py:100-148 | Every row is reported with the margin of an ordinary or a final run, the statements take effect even when the run then raises, it raises exactly when some row is faulty, and a dry run changes nothing. |
| SeqSync.SeriesNeverGoesDown | local/postgres/lib/qpg/seqsync.py:130-141 | Over any series of runs, ordinary and final ones mixed, no target sequence goes down and none appears or disappears. |
| SeqSync.SeriesCovers | local/postgres/lib/qpg/seqsync.py:126-141 | Once a run has read a value, every later target, whatever the other runs' floors, covers the source while it advances by at most that run's floor or three times the largest advance it saw. |
| SeqSync.SamplesGiveTheBound | local/postgres/lib/qpg/follower_schema.py:152-157 | The stored samples behind a margin have one value per instant over any series of runs, unless one was stored at the very instant of the read. |
| Quoting.QuotedReadsBack | local/postgres/lib/qpg/pg.py:54-72 | A quoted token is read back whole, with nothing after it taken, if and only if the following text does not begin with the quote. |
| Quoting.QuotedPrintsBack | local/postgres/lib/qpg/pg.py:54-72 | Whatever the reader accepts is what the printer prints for the value it read. |
| Quoting.LitReadsBack | local/postgres/lib/qpg/pg.py:65-72 | lit refuses exactly a NUL; otherwise every string, and NULL, is read back. |
| Quoting.IdentReadsBack | local/postgres/lib/qpg/pg.py:54-58 | ident refuses exactly a NUL; otherwise every name is read back. |
| Quoting.QualifiedReadsBack | local/postgres/lib/qpg/pg.py:61-62 | Schema and name are both read back: dots and quotes inside them cannot move the boundary. |
| Quoting.TextArrayReadsBack | local/postgres/lib/qpg/pg.py:75-77 | Every list of strings and NULLs is read back, the empty one included; it is refused exactly when some element has a NUL. |
| Passfile.EntryUser | local/postgres/lib/qpg/credential.py:50-64 | The one-pass loop gives the fourth of exactly five fields of the recursive splitting. |
| Passfile.FieldsReadBack | local/postgres/lib/qpg/credential.py:46-64 | Any fields are read back from the line they are printed on. |
| Passfile.EntryReadsBack | local/postgres/lib/qpg/credential.py:46-64 | An entry without line breaks is one line and parses to its five fields. |
| Passfile.PassfileOnDisk.WriteEntry | local/postgres/lib/qpg/credential.py:67-100 | The checks in their order decide the outcome; the file changes only on success, to the other roles' lines in order and the new entry. |
| Passfile.WriteReadsBack | local/postgres/lib/qpg/credential.py:85-93 | What was written reads back as those lines and the entry if and only if every kept line has its newline. |
| Passfile.WriteStands | local/postgres/lib/qpg/credential.py:81-93 | A write replaces the role's entry and keeps every other role's. |
| Passfile.WriteSeries | local/postgres/lib/qpg/credential.py:67-100 | After any series of calls from an absent file there is exactly one entry per role written, the last one, and nothing else. |
| Relay.TakenAtMostOnce | aws/lambdas/operator_pager_relay/handler.py:783-808 | A page is accepted at most once, and is rejected exactly when no send was accepted. |
| Relay.DropRecord | aws/lambdas/operator_pager_relay/handler.py:825-829 | The metrics and reason of a message that is not delivered. |
| Relay.DeliveryRecord | aws/lambdas/operator_pager_relay/handler.py:830-841 | The metrics of a delivery. |
| Relay.PagerRelay.Deliver | aws/lambdas/operator_pager_relay/handler.py:783-808 | For any answers: one or two primary sends, the second exactly after a transport error or other non-final answer, the fallback exactly when the primary took nothing and it is another channel; the delivery reports what was seen. |
| Relay.PagerRelay.HandleOne | aws/lambdas/operator_pager_relay/handler.py:938-977 | A page that would ask is dropped; otherwise the record says what the channels answered. |
| Relay.PagerRelay.Handler | aws/lambdas/operator_pager_relay/handler.py:937-981 | Every message is handled in order and recorded before the call fails, which it does exactly when a page was rejected; the channels' answers are accounted for one by one. |
| Relay.MetricsConserve | aws/lambdas/operator_pager_relay/handler.py:825-841 | For any batch and answers: accepted + vendor-rejected + dropped + suppressed is the number of messages, accepted + vendor-rejected the number paged, and forwarded + rejected the vendor-rejected. |
| Relay.EveryPageOnce | aws/lambdas/operator_pager_relay/handler.py:937-981 | No page gets two 2xx answers, none more than two primary sends and one fallback, nothing else is sent, and the call fails exactly when some page got no 2xx. |

## Left out

- psql, subprocesses, HTTP, boto3 and file descriptors: a database transaction, a send or a file
  replacement is one atomic step; what the environment answers is a parameter.
- Cached time: stall freshness, `enabled_at`, sleeps, deadlines and back-off are choices of the
  environment. SeqSync reads one clock instant per run, which also stamps its samples.
- DataEquality.SubscriberEqualsPublisher: for careful runs, with steady stalls or migrations that all
  mark, whose history is `faithful`: outside the tables resolved every undone replay was the publisher's
  migration (`OneMigration`) and settles (`SettlesOff`), partition ancestors are transitive (`Nested`), no
  key change was resolved, apply passed no change of shape that was not carried, and copies were not
  taken across a migration. A resolved key change leaves nothing to say: rows it moved may conflict.
  `MarkedTransactionsApply` discharges the condition on apply for migrations that mark.
- DataEquality.ApplyNeverConflicts: the same.
- DataEquality.KeepsGood: likewise.
- DataEquality.UndonePhase: that the replay was the publisher's migration is a hypothesis. It is
  syntactic: the same statements touching the same tables, rewrites with the same function unless they
  filled a default of their own, and a catalog that lists what the replay added.
- DataEquality.MergeConverges: copies across a migration are excluded; the guard does not always
  exclude them, and what one across a round trip does is in `GuardMissesRoundTrip`.
- A stored default added to a table after a row was written to it (`FillsFirst`), and other DDL after
  DML that makes decoded rows no longer fit: apply fails on it again, which the model leaves to the
  environment.
- VersionTables.EachMigrationCarriedOnce: for replays that insert the version rows the publisher's
  transaction did and end with its coord rows (`SameInserts`), for migrations that write one lane and lose
  no row in the pass (`Lanes`, `NothingLost`). The web rows are not assumed: the undo's check gives them.
- VersionTables.KeepsVersions: the same.
- VersionTables.VersionTablesFollow: the same.
- VersionTables.MarkedTransactionsApply: the same.
- Resolving.CarryResolved: one run exists, for a replay that ends at the recorded versions.
- Restoring.OwedCopiesRestore: until the publisher's next migration. That the resolved tables differ in
  owed columns only is a hypothesis, as it is for the operator; that no other table differs is
  `ResolvedRunsRestore`.
- Carrying.CarryOne: one run exists; nothing says the scheduler takes it.
- Follower.Follower.constructor: equal data and version rows at installation are given; seeding and
  the initial table sync establish them outside the model.
- Follower.Follower.UndoReplayInserts: emptying the tables the migration created is not modelled.
- Follower.Follower.EnableStep: nor is the refresh that copies them.
- LogComplete.ReplayLogComplete: for runs without the two incomplete halts above.
- Stalls that the marker would not cause. The follower takes any fresh apply error on a migration for
  its stall. The data and version theorems assume that every migration marks, or else steady stalls
  (`Steady`), which excludes a transient error, such as a deadlock, on a seeded migration; the ledger,
  once-only and re-application theorems assume neither.
- Migration commands that outlive a crashed follower.
- Rows selected differently by the replay and by production are a hypothesis (`Settles`), not a
  conclusion: the repository calls this gap undetected.
- Unchanged-TOAST columns, sequences and constraints other than the key, truncation, and the rows of
  tables a migration creates or drops: new tables are emptied and copied by REFRESH PUBLICATION.
- Partition trees beyond the sets of ancestors and children the checks read; DETACH and ATTACH.
- Owed entries whose relation is renamed later: the ledger is keyed by the name at the time.
- Resolutions of another subscription or transaction: the model holds those of the current one, which
  the undo deletes.
- Transaction id wrap-around.
- A subscription that is dropped, and failures of the database itself inside a step beyond the crash
  between transactions; a DISABLE that fails during a halt is a choice of the environment.
- coord-adopt, coord-refresh, seeding checks, recording and pruning of publisher heads, head comparison
  and its mismatch timer beyond the halt they may raise, event rows and notices.
- Catalog queries and SQL text, log parsing, `lsn_int`: the model holds what they report.
- PlanGraph: a stem stands for its rank in sorted order. Reading plan files, rendering and
  `_filter_visible` are not modelled; `predecessors` is a set filter.
- HclMask: `_match_brace`, `_depth_between`, `_expression_end` and the lint rules above the mask.
- Unclosed HCL sources have no structural mask; only the properties of every input speak of them.
- SeqSync: floating-point rounding of the rate (the model computes over reals), `from_data`, bounds of
  sequences, and a target that moves between being read and being set.
- Quoting: str() of values that are not strings.
- Passfile: creation and checking of the directory, SCRAM verifiers, and libpq's matching of hosts.
- Relay: parsing and rendering of messages, the retry delay, JSON of the record, and fields of the
  record copied from the page.
- The lint, drift, partition, role, watchdog and stats scripts, and the Cognito handler: table lookups
  and set differences.
