# Guarded writes, verified

pg_brakes puts a brake on writes an agent wants to run against PostgreSQL. A write is proposed,
rehearsed on a clone, approved by a human who signs a grant, and applied in one transaction under
a chain of guards that captures a typed inverse. Every decision goes to a hash-chained audit log
whose head is anchored. This project models that core in Dafny and proves what it is for.

Run `dafny verify dfyconfig.toml` here to check everything.

## Layout

| file | component |
|---|---|
| Prelude | optional and fallible results, 64-bit arithmetic |
| BlastRadius, DryRun | the rehearsal record: order of refusals, assembly from a measurement, totals, key order |
| Inverse | building the inverse plan and routing its rows back to their relations |
| ApplyGuards, ApplyEngine | the guards as early-return loops, and the guarded apply on a connection |
| ApplyOutcome, ApplyErrors | what an apply sends, commits and reports, and why it fails, in terms of what it is given |
| NoFalseAbort | rehearsal and apply agree |
| PgTable, RoundTrip, ApplyRevert, PgConn, RevertOrder | a database in memory, apply followed by revert under triggers, the PostgreSQL connections, the order of a revert |
| TriggerExample, SideExample, Counterexamples | concrete committed applies, and inputs at which the exact conditions fail |
| Grant, GrantedOutcome | the signed grant, its encoding, the grant-gated apply, and that it runs under the signed cap |
| Lifecycle, Service, Runs, PgRuns | the service as a state machine and as an object, and safety over its runs |
| Provenance, Replies | the trail of every committed write, calls that come too late, what the service answers and records |
| HonestRun, HonestExample | honest writes go through, and exist |
| AuditChain, PgSink, PgAppends, AuditBoot | the hash chain, concurrent appenders and what they were asked to append, anchoring and boot |
| ProposalId | the FNV-1a proposal id |

## How things are modelled

- **Connections** are scripts of answers. An apply makes each call at most once, so a theorem about
  every script is a theorem about every behaviour of every connection.
- **Tables** are maps from integer key to row. What the server does with the applied statement is a
  relation: BEFORE triggers may rewrite or skip rows, keys may move, other triggers may do any
  sequence of row changes anywhere, and the tuple counters grow by exactly what was done.
- **The revert's statements fire triggers too.** For each of them a script says whether the server
  refuses it, what a BEFORE row trigger makes of the row about to be written, and which row changes
  other triggers make. A theorem about every script covers triggers that depend on anything.
- **The service** is one function per call on one state value; an object with the same fields is
  proved to follow it method by method. A run is a sequence of calls with arbitrary arguments,
  clock readings, sink failures and connection behaviour; each call reads the clock once.
- **SHA-256 and Ed25519** are parameters. The audit log assumes of SHA-256 no collision among the
  payloads in play and no payload hashing to the genesis constant. Grants assume that
  the live and the signed binding do not collide, and that a signature that verifies was made by
  the key's holder.
- **Integer widths** are explicit (`U64`) where sums saturate or wrap. Lengths of in-memory lists
  and the request counter are unbounded.

## What the code does not promise

In six places the code delivers less than its comments or names suggest. The code is kept, the
exact condition is proved, and a lemma gives an input at which it fails.

- The apply error type says that every error means nothing was committed. An error can follow a
  commit: exactly when the written keys have mixed widths, or when the commit call itself reports
  an error (`ApplyEngine.ResultMatchesCommit`, `Counterexamples.ErrorHidesCommit`). The PostgreSQL
  connection never reports mixed widths (`ApplyRevert.PgKeysUniform`).
- An apply is said to be undone by its inverse. For an UPDATE it is, exactly when the rows the revert
  does not restore are the old ones and each restoring statement's row trigger turns the row about to
  be written into the old one (`ApplyRevert.UpdateRoundTrip`). So a BEFORE trigger on another column
  defeats it (`TriggerExample.TriggerDefeatsRoundTrip`), and so does one on the written column, although
  the captured value is the true one (`TriggerExample.HijackDefeatsRoundTrip`). For a DELETE it is,
  exactly when the table then holds only old rows and each re-insert's row trigger skips its row or yields
  an old row that is missing, until none is (`ApplyRevert.DeleteRoundTrip`,
  `TriggerExample.InsertTriggerDefeatsDelete`). Without row triggers, a DELETE and an UPDATE that does not
  set `id` are undone if the counters show one change of the statement's kind per returned row of the
  target and nothing else (`ApplyRevert.PlainDeleteRoundTrips`, `ApplyRevert.PlainUpdateRoundTrips`); the
  other relations still see what the revert's own AFTER triggers change.
- The target's own updates are said to be exactly what `RETURNING` captured. No guard compares the two:
  reconciliation exempts the update channel of an UPDATE's target and accepts whatever the rehearsal
  counted on the others, and row coverage skips the target's updates. So an AFTER trigger that updates
  another row of the target commits, is not captured and is not undone, after an UPDATE
  (`SideExample.SideUpdateDefeatsRoundTrip`) or a DELETE (`SideExample.SideUpdateDefeatsDelete`). Triggers
  left the target alone exactly when the counters, which the apply reads before it commits, show one change
  of the statement's kind per returned row and nothing else (`ApplyRevert.TargetSideExactly`). After a
  commit only some channels are left to look at (`ApplyRevert.CommittedUpdateSideExactly`,
  `ApplyRevert.CommittedDeleteSideExactly`), and none for a DELETE whose record predicts only deletes there
  (`ApplyRevert.DeleteLeavesNoSide`).
- Row coverage is said to make every delete restorable. Captures for a relation that is neither
  target nor recorded cascade satisfy the guard but never enter the plan
  (`ApplyEngine.PlanCoversDeletes`, `Counterexamples.CapturedDeleteNotPlanned`). The PostgreSQL
  connection captures no cascade rows, so a commit through it deletes nothing outside the target.
- Row routing relies on no captured column being called `__relation`; that and a non-empty image
  are exactly what it needs (`Inverse.InverseRoundTrip`, `Counterexamples.StampColumnMisroutes`).
- The delta read tests an unchecked 64-bit sum for zero. A relation that changed goes unlisted exactly
  when its growths add to 2^64 in a release build (`ApplyRevert.UnlistedExactly`,
  `ApplyRevert.LostSumGoesUnlisted`).

One more consequence of the code is a theorem too: in the audit log, honest appends that no anchor
follows make the next boot refuse (`AuditBoot.UnanchoredAppendsRefuseBoot`).

## Model

| member | source | states |
|---|---|---|
| `ApplyRevert.UpdateRoundTrip` | crates/clone-orchestrator/src/conn.rs:781-814 | For every committed UPDATE and every later database, in particular the one the apply left, under any triggers of the revert that do not write the target besides: reverting gives the target back if and only if the rows not restored are the old ones and each restoring statement's row trigger turns its row into the old one. |
| `ApplyRevert.PassedUpdateRoundTrip` | crates/clone-orchestrator/src/conn.rs:590-687 | When row triggers let the restored rows through and the counters show one update of the target per returned row and nothing else, the target is given back if and only if each hit row's cells outside the SET list were written as the row of its final key had them. |
| `ApplyRevert.KeptCellsRoundTrip` | crates/clone-orchestrator/src/conn.rs:781-814 | When those cells were kept and the counters show one update of the target per returned row and nothing else, the target is given back if and only if the row triggers the revert fires leave every old row alone. |
| `ApplyRevert.PlainUpdateRoundTrips` | crates/clone-orchestrator/src/conn.rs:590-687 | Without row triggers, with `id` not in the SET list and the counters showing one update of the target per returned row and nothing else, commit then revert is the identity on the target; other relations see only what the revert's AFTER triggers do. |
| `ApplyRevert.TargetSideExactly` | crates/clone-orchestrator/src/apply.rs:963-964 | Triggers changed nothing in the target if and only if the counters show one change of the statement's kind per returned row and nothing else. |
| `ApplyRevert.CommittedUpdateSideExactly` | crates/clone-orchestrator/src/apply.rs:970-1025 | For a committed UPDATE whose record predicts neither insert nor delete on the target, the guards leave only the update channel open: triggers changed nothing in the target if and only if it shows one update per returned row. |
| `SideExample.SideUpdateStays` | crates/clone-orchestrator/src/apply.rs:1011-1022 | If the one change triggers of a committed UPDATE or DELETE make to the target is to give another value to a row the statement did not return, the target is not given back, whatever row triggers the revert fires. |
| `SideExample.SideUpdateDefeatsRoundTrip` | crates/clone-orchestrator/src/apply.rs:963-964 | On any relation, a committed UPDATE of one row, with no BEFORE trigger and `id` not set, whose AFTER trigger updates a second row of the target: two updates are counted for one row returned, every guard passes, and the revert does not give the table back. |
| `SideExample.SideUpdateDefeatsDelete` | crates/clone-orchestrator/src/apply.rs:1057-1119 | On any relation, a committed DELETE of one row whose AFTER trigger updates a second row of the target, as rehearsed: every guard passes, the re-inserted row is let through, and the revert does not give the table back. |
| `ApplyRevert.DeleteRoundTrip` | crates/clone-orchestrator/src/conn.rs:816-845 | For every committed DELETE and every later database, in particular the one the apply left, under any triggers of the revert that do not write the target besides: reverting gives the target back if and only if the target holds only old rows, each re-insert's row trigger skips its row or yields an old row that is missing and that no earlier one yielded, and no row is missing in the end. |
| `ApplyRevert.PassedDeleteRoundTrip` | crates/clone-orchestrator/src/conn.rs:816-845 | When row triggers let the re-inserted rows through, a committed DELETE is undone on exactly one target: the old one without the deleted rows. |
| `ApplyRevert.CountedDeleteRoundTrip` | crates/clone-orchestrator/src/conn.rs:816-845 | When the counters show one delete of the target per returned row and nothing else, commit then revert gives the target back if and only if the re-inserts' row triggers yield the deleted rows, each once. |
| `ApplyRevert.PlainDeleteRoundTrips` | crates/clone-orchestrator/src/conn.rs:816-845 | When the counters show that and row triggers let the re-inserted rows through, commit then revert is the identity on the target; other relations see only what the revert's AFTER triggers do. |
| `ApplyRevert.CommittedDeleteSideExactly` | crates/clone-orchestrator/src/apply.rs:970-1025 | For every committed DELETE, triggers deleted nothing in the target besides, and changed nothing in it if and only if its insert and update channels show nothing. |
| `ApplyRevert.DeleteLeavesNoSide` | crates/clone-orchestrator/src/apply.rs:998-1010 | For a committed DELETE whose record predicts no insert and no update on the target, coverage and reconciliation together leave triggers no change to it. |
| `ApplyRevert.RevertUpdateAnywhere` | crates/clone-orchestrator/src/conn.rs:781-814 | On any later database, when row triggers let the restored rows through, the inverse of an UPDATE puts back exactly the captured cells of the written rows that still exist; other cells keep what intervening writes made of them, other relations see only the revert's own triggers. |
| `ApplyRevert.RevertDeleteAnywhere` | crates/clone-orchestrator/src/conn.rs:816-845 | Likewise the inverse of a DELETE adds exactly the deleted rows if all their keys are free, and otherwise fails. |
| `ApplyRevert.RevertSplits` | crates/clone-orchestrator/src/revert.rs:212-241 | Under any triggers that do not write the target besides, a revert is the target's own restoration beside what the triggers' changes alone make of the other relations, or it fails. |
| `ApplyRevert.RevertFrame` | crates/clone-orchestrator/src/revert.rs:33-37 | Whatever the revert's triggers do, a relation that is neither the target nor written by them is left alone. |
| `ApplyRevert.CommitKeepsOtherRows` | crates/clone-orchestrator/src/apply.rs:970-1025 | Whatever row changes triggers make, a commit leaves every existing row of every relation other than the target unchanged and present, unless the relation's growths add to exactly 2^64. |
| `ApplyRevert.PgKeysUniform` | crates/clone-orchestrator/src/conn.rs:673-676 | The keys the PostgreSQL connection reports all have one width. |
| `ApplyRevert.SetColumnsGuarded` | crates/clone-orchestrator/src/conn.rs:679-686 | A committed UPDATE declared exactly the columns of its SET list, and the column guard required each of them, `id` aside, in every written row's image. |
| `TriggerExample.TriggerDefeatsRoundTrip` | crates/clone-orchestrator/src/conn.rs:596-618 | On any relation, a committed apply under a BEFORE trigger on another column whose revert, under the same trigger, does not give the table back. |
| `TriggerExample.HijackDefeatsRoundTrip` | crates/clone-orchestrator/tests/apply_it.rs:1352-1413 | On any relation, a committed apply under a BEFORE trigger on the written column, every other cell kept, whose revert fires the trigger again and does not give the table back. |
| `TriggerExample.InsertTriggerDefeatsDelete` | crates/clone-orchestrator/src/revert.rs:33-37 | On any relation, a committed DELETE whose revert, under a BEFORE INSERT trigger, does not give the table back. |
| `TriggerExample.PlainUpdateExists` | crates/clone-orchestrator/src/conn.rs:590-687 | On any relation, a committed UPDATE under no row trigger that the revert undoes. |
| `TriggerExample.PlainDeleteExists` | crates/clone-orchestrator/src/conn.rs:816-845 | On any relation, a committed DELETE under no row trigger that the revert undoes. |
| `ApplyRevert.KeysArePermuted` | crates/clone-orchestrator/src/conn.rs:655-677 | If every returned key was in the snapshot, the UPDATE only permuted the keys of the rows it hit. |
| `ApplyRevert.ReadDeltas` | crates/clone-orchestrator/src/conn.rs:689-709 | The counter differences since begin, those whose 64-bit sum is zero left out, in name order. |
| `ApplyRevert.DeltaListed` | crates/clone-orchestrator/src/conn.rs:689-709 | A relation is listed exactly when its growths do not add to zero in 64 bits, with the growth of each counter. |
| `ApplyRevert.DeltasInOrder` | crates/clone-orchestrator/src/conn.rs:689-709 | The deltas are listed in name order. |
| `ApplyRevert.UnlistedExactly` | crates/clone-orchestrator/src/conn.rs:697-699 | A relation that changed goes unlisted exactly when its growths add to 2^64. |
| `ApplyRevert.LostSumGoesUnlisted` | crates/clone-orchestrator/src/conn.rs:697-699 | Two counters grown to their limit and two deletes go unlisted. |
| `ApplyRevert.RevertsTarget` | crates/clone-orchestrator/src/revert.rs:212-233 | With captures for the target only, the plan's statements are those that restore the target. |
| `RoundTrip.UpdatesRestoreExactly` | crates/clone-orchestrator/src/conn.rs:781-814 | On any table, under any row triggers, the restoring UPDATEs give the old table back if and only if every row comes out old, row by row. |
| `RoundTrip.InsertsCompleteExactly` | crates/clone-orchestrator/src/conn.rs:816-845 | On any table, under any row triggers, the restoring INSERTs give the old table back if and only if it holds only old rows and the triggers fill its gaps, each once. |
| `RoundTrip.InsertsRestoreExactly` | crates/clone-orchestrator/src/conn.rs:816-845 | From the old table without the deleted rows, under any row triggers, the restoring INSERTs give the old table back if and only if the triggers yield those rows, each once. |
| `RoundTrip.RestoreUpdatesPutBack` | crates/clone-orchestrator/src/conn.rs:781-814 | On any table, when row triggers let the restored rows through, the restoring UPDATEs overwrite exactly the captured non-key cells of the rows present. |
| `RoundTrip.RestoreInsertsAdd` | crates/clone-orchestrator/src/conn.rs:816-845 | On any table, restoring INSERTs whose triggers yield distinct old rows add exactly those, whole, or fail if any key is taken. |
| `RoundTrip.PutBackIsOldExactly` | crates/clone-orchestrator/src/conn.rs:781-814 | Putting captured cells back gives the old table if and only if nothing but captured cells differs. |
| `RoundTrip.RestoreSplits` | crates/clone-orchestrator/src/revert.rs:212-241 | Restoring a relation in the database is restoring its table beside the triggers' changes to the other relations. |
| `RevertOrder.RevertRunsCaptures` | crates/clone-orchestrator/src/revert.rs:212-241 | Reverting a plan whose rows can be routed runs the restoring statement of every captured row, one after the other up to the first error: the target's rows first, then each cascade's in the plan's order, each as captured. |
| `RevertOrder.RoutingSaysWhy` | crates/clone-orchestrator/src/revert.rs:250-298 | A plan that cannot be routed is refused for its first bad row: a stamp that is not text, a relation the plan does not list, or no column to restore. |
| `PgTable.ForwardExact` | crates/clone-orchestrator/src/conn.rs:634-686 | With types the connection can read, the forward step succeeds if and only if every returned key was in the locked snapshot; otherwise the error names the first that was not. |
| `PgTable.ForwardReports` | crates/clone-orchestrator/src/conn.rs:642-686 | Whatever the types, a forward step that succeeds reports under each returned key what that row was, declares exactly the SET columns as written (none for a DELETE), and reports no cascade rows. |
| `PgTable.ForwardFaults` | crates/clone-orchestrator/src/conn.rs:613-660 | An unknown column, a key that is not a 32-bit integer and a column of a type not captured are each their own error, in that order. |
| `PgTable.RestoreFaults` | crates/clone-orchestrator/src/conn.rs:783-830 | A restoring UPDATE needs an integer key and a column besides it, a restoring INSERT a column; otherwise, or when the server raises, the row is an error. |
| `PgTable.SelectList` | crates/clone-orchestrator/src/conn.rs:613-618 | The select list has the key first, every image column, nothing else, and no repeats. |
| `PgConn.BindImage` | crates/clone-orchestrator/src/conn.rs:904-952 | With nulls anywhere, every rendered placeholder resolves against the final parameter list to the value of its own column. |
| `PgConn.BindBuilder.Push` | crates/clone-orchestrator/src/conn.rs:914-928 | A null is a literal and binds nothing; any other value is appended and its placeholder resolves to it. |
| `PgConn.RestoreOneUpdate` | crates/clone-orchestrator/src/conn.rs:783-811 | The rendered UPDATE has the effect the captured row asks for under the row trigger, including the malformed-row errors. |
| `PgConn.RestoreOneInsert` | crates/clone-orchestrator/src/conn.rs:818-842 | The rendered INSERT has the effect the captured row asks for under the row trigger. |
| `PgConn.RestoreEach` | crates/clone-orchestrator/src/conn.rs:781-845 | The restore loop sends the rows in order, with what triggers change besides, and stops at the first error. |
| `PgConn.RevertBody` | crates/clone-orchestrator/src/revert.rs:212-241 | Relations are restored in foreign-key order, stopping at the first error. |
| `PgConn.Revert` | crates/clone-orchestrator/src/revert.rs:181-206 | Whatever the server answers to begin, statements and commit, a revert does all of the plan or leaves the database as it was; an error means the latter unless the answer to the commit was lost. |
| `PgConn.PgApplyConn.ApplyForward` | crates/clone-orchestrator/src/conn.rs:590-687 | The capture loops compute the forward report for every outcome of the statement, including keys and types the connection cannot read. |
| `PgConn.PgApplyConn.Rollback` | crates/clone-orchestrator/src/conn.rs:719-725 | Rolling back restores the database of begin, and is harmless outside a transaction. |
| `PgConn.PgRevertConn.Rollback` | crates/clone-orchestrator/src/conn.rs:855-861 | As for the apply connection. |
| `ApplyEngine.BodyExact` | crates/clone-orchestrator/src/apply.rs:768-860 | The guarded body succeeds if and only if every call answered, every change is foreseen, row and WAL totals fit the cap, deletes and foreign updates are count-covered, and every written column is captured. |
| `ApplyEngine.GuardedBody` | crates/clone-orchestrator/src/apply.rs:768-860 | The body's result, error by error, and the calls it makes, for every connection behaviour. |
| `ApplyEngine.GuardedApply` | crates/clone-orchestrator/src/apply.rs:592-682 | The whole apply's result and call trace, for every connection behaviour. |
| `ApplyEngine.RunFollowsProtocol` | crates/clone-orchestrator/src/apply.rs:640-681 | The calls are the fixed protocol cut before a transaction, or cut inside it and rolled back, or complete and committed. |
| `ApplyEngine.CommitOnlyAfterGuards` | crates/clone-orchestrator/src/apply.rs:592-682 | Nothing is called if and only if the job is inadmissible; commit is sent if and only if every guard passed; rollback if and only if a transaction was opened and the body failed. |
| `ApplyEngine.ResultMatchesCommit` | crates/clone-orchestrator/src/apply.rs:660-674 | After a commit that went through, success is reported if and only if the written keys have one width; success carries the plan and key set of what was written. |
| `ApplyEngine.CommitTouchesOnlyTheTarget` | crates/clone-orchestrator/src/apply.rs:1057-1119 | Without cascade captures a commit implies zero updates and deletes outside the target, inserts within the rehearsed count, and a true row total within any cap below 2^64-1. |
| `ApplyEngine.PlanCoversDeletes` | crates/clone-orchestrator/src/apply.rs:970-1028 | After a commit the plan holds a row for every deleted one if and only if each relation that lost rows is the target or a recorded cascade. |
| `ApplyOutcome.CommitExactly` | crates/clone-orchestrator/src/apply.rs:592-860 | The commit is sent if and only if the record is this proposal's, keyed, measured and reversible, the cap admits it, every call was answered, no count exceeds the recorded one except the statement's own on its target, the totals fit the cap, deletes and foreign updates are matched by captures, and written rows carry their columns. |
| `ApplyOutcome.CommitTrace` | crates/clone-orchestrator/src/apply.rs:644-682 | A committed apply asked, in this order and nothing else, for the restore point if enabled, a transaction with three times the rehearsal's duration and at least a second, the statement of its kind on its relation with the recorded cascades in name order, the two measurements and the commit. |
| `ApplyOutcome.CallsExactly` | crates/clone-orchestrator/src/apply.rs:644-660 | However the connection answers, every call has those arguments; a restore point is asked for if and only if the write may start and recovery is enabled, a transaction if and only if it may start and the restore point was made. |
| `ApplyOutcome.ReportExactly` | crates/clone-orchestrator/src/apply.rs:661-673 | A success reports the proposal, the number and keys of the returned rows, the plan built from their captures, the fence and the timeout. |
| `ApplyErrors.FailureSaysWhy` | crates/clone-orchestrator/src/apply.rs:602-682 | Every failure is the first in the order of the checks and quotes the values that show it: the missing part of the record, the cap and the count above it, the first change beyond the record and its channel, the first change or row without captures, the call that failed, or keys of mixed widths. |
| `Counterexamples.ErrorHidesCommit` | crates/clone-orchestrator/src/apply.rs:660-666 | Keys of widths 1 and 2: the transaction commits, the server confirms it, and the apply reports an error. |
| `Counterexamples.CapturedDeleteNotPlanned` | crates/clone-orchestrator/src/apply.rs:1148-1165 | A captured delete in an unrecorded relation: every guard passes, the apply commits, and the plan lacks the row. |
| `Counterexamples.StampColumnMisroutes` | crates/clone-orchestrator/src/revert.rs:255-274 | A captured column named like the stamp: the plan routes the target's row to another relation. |
| `ApplyEngine.PrecheckExact` | crates/clone-orchestrator/src/apply.rs:603-641 | The checks before the connection pass if and only if the record is for this proposal, authorizes the target, fits the cap and is reversible. |
| `ApplyEngine.WrittenChecksum` | crates/clone-orchestrator/src/apply.rs:362-369 | The key checksum exists if and only if all keys have one width, and stands for the multiset of keys. |
| `ApplyEngine.KeysOneMore` | crates/clone-orchestrator/src/apply.rs:362-369 | The checksum counts each written row's key once. |
| `ApplyGuards.FromGrantExact` | crates/clone-orchestrator/src/apply.rs:715-757 | A record is accepted if and only if target and cascades are keyed and the target is measured; the cascades are then the record's, once each, target excluded. |
| `ApplyGuards.PredictFromGrant` | crates/clone-orchestrator/src/apply.rs:715-757 | The loop over cascade keys computes that prediction, or the first fault. |
| `ApplyGuards.ReconcileFullEffect` | crates/clone-orchestrator/src/apply.rs:1057-1119 | Passes if and only if every change is foreseen channel by channel, the target's primary channel exempt; otherwise returns the first offender's error. |
| `ApplyGuards.AssertReversiblePreimageCoverage` | crates/clone-orchestrator/src/apply.rs:970-1028 | Passes if and only if deletes, and updates outside the target, are matched in number by captures; otherwise the first offender. |
| `ApplyGuards.AssertWrittenColumnCoverage` | crates/clone-orchestrator/src/apply.rs:882-932 | Passes if and only if every written row captures every written column and at least one non-key column; otherwise the first offender with its missing columns. |
| `BlastRadius.FoldedTotalIsExact` | crates/clone-orchestrator/src/apply.rs:818-829 | The saturating row total is the minimum of the true sum and 2^64-1. |
| `BlastRadius.SaturatingTotal` | crates/clone-orchestrator/src/apply.rs:818-821 | The accumulating loop computes that total. |
| `BlastRadius.Assemble` | crates/clone-orchestrator/src/dry_run.rs:495-588 | A record comes out if and only if target and cascades are keyed, and holds exactly what was measured; otherwise the first unkeyed relation is named. |
| `BlastRadius.EffectRecorded` | crates/clone-orchestrator/src/dry_run.rs:537-549 | Every measured relation is recorded with its last counts. |
| `BlastRadius.PredictedExactly` | crates/core/src/blast_radius.rs:246-272 | The prediction is the exact number of tuples in the footprint, cut at 2^64-1, or, when that is zero, the row counts of target and cascades, each sum modulo 2^64, added and cut alike. |
| `BlastRadius.SynthesizedEffects` | crates/clone-orchestrator/src/dry_run.rs:537-549 | A measured footprint is kept; without one, the rows of target and cascades count as updates for an UPDATE and as deletes for a DELETE. |
| `BlastRadius.CascadeRowsRecorded` | crates/clone-orchestrator/src/dry_run.rs:516-526 | A cascade is recorded with the rows of its last listing. |
| `BlastRadius.CascadeChecksumRecorded` | crates/clone-orchestrator/src/dry_run.rs:516-526 | A cascade is recorded with the checksum of its last listing. |
| `BlastRadius.TargetChecksumRecorded` | crates/clone-orchestrator/src/dry_run.rs:500-514 | A target that is not also a cascade is recorded with its own checksum. |
| `DryRun.RunDry` | crates/clone-orchestrator/src/dry_run.rs:420-487 | The candidate is executed if and only if every refusal was passed, once and last; a record comes out only of a rehearsed, keyed measurement; each refusal has its own error, in order. |
| `NoFalseAbort.AssembledIsAccepted` | crates/clone-orchestrator/src/dry_run.rs:537-549 | An assembled record authorizes its target if and only if the measured footprint is empty or contains the target. |
| `NoFalseAbort.RehearsedCommits` | crates/clone-orchestrator/src/apply.rs:715-860 | An apply whose deltas are the recorded footprint, with complete captures and a cap that admits the record, commits. |
| `NoFalseAbort.RehearsedApplyCommits` | crates/clone-orchestrator/src/apply.rs:592-682 | And reports success if the commit goes through and the written keys have one width. |
| `NoFalseAbort.FewerKeysHoldLess` | crates/core/src/blast_radius.rs:260-272 | Distinct relations of a footprint never hold more tuples than the whole footprint. |
| `Inverse.InverseRoundTrip` | crates/clone-orchestrator/src/apply.rs:1130-1166 | Routing the built plan gives every relation its own captures, in order and with multiplicity, if and only if each captured row has a column and none is named like the stamp; the target comes first. |
| `Inverse.BuildInverse` | crates/clone-orchestrator/src/apply.rs:1130-1166 | The loops build that plan. |
| `Inverse.RouteRows` | crates/clone-orchestrator/src/revert.rs:250-298 | The routing loop, with every malformed-row error. |
| `Grant.EncodeInjective` | crates/policy/src/grant.rs:109-145 | Two bindings with the same encoding are equal in every field, whatever their texts contain. |
| `Grant.VerifyExact` | crates/policy/src/grant.rs:202-240 | If the hash tells the live and the signed binding apart, a grant verifies if and only if the key signed it, the two are equal, it is unexpired and its nonce is unused. |
| `Grant.VerifyForApply` | crates/policy/src/grant.rs:202-240 | Only a grant that verifies uses up its nonce. |
| `Grant.GateExact` | crates/clone-orchestrator/src/apply_grant.rs:221-285 | The guarded apply is reached if and only if the signed statement, parameters, role, session, proposal and rehearsal position are the live ones, the cap admits the record, and the grant is valid, unexpired and unused. |
| `Grant.RefusalOpensNothing` | crates/clone-orchestrator/src/apply_grant.rs:221-285 | A refusal by gate, grant, cap or certification opens neither restore point nor transaction, and one before verification uses no nonce. |
| `Grant.GuardedApplyWithGrant` | crates/clone-orchestrator/src/apply_grant.rs:194-301 | Result, call trace and nonce set, for every grant and connection behaviour. |
| `Grant.EncodeNamesDomain` | crates/policy/src/grant.rs:109-145 | What is hashed for a grant starts with the grant domain. |
| `Grant.Be64RoundTrip` | crates/policy/src/grant.rs:109-145 | A number is hashed as eight bytes, the most significant first, from which it can be read back. |
| `GrantedOutcome.GrantedCommitExactly` | crates/clone-orchestrator/src/apply_grant.rs:194-301 | The commit is sent if and only if the grant is the configured key's over the stored request, in time and unused, and the write may start, is answered and stays within the rehearsed record and the signed cap, on the stored statement's kind and relation. |
| `GrantedOutcome.SignedCapHolds` | crates/clone-orchestrator/src/apply_grant.rs:286-297 | A committed write changes no more tuples and no more WAL than the signed cap allows. |
| `GrantedOutcome.GrantedTrace` | crates/clone-orchestrator/src/apply_grant.rs:194-301 | A committed attempt asked for the key of its relation, then exactly what an apply of the stored statement asks for. |
| `GrantedOutcome.GrantedCallsExactly` | crates/clone-orchestrator/src/apply_grant.rs:194-301 | However the connection answers, a restore point is asked for if and only if the gate is open, the write may start and recovery is enabled. |
| `GrantedOutcome.GrantedReport` | crates/clone-orchestrator/src/apply_grant.rs:286-301 | A success reports what was applied for the stored proposal: rows, keys, plan, fence, timeout. |
| `GrantedOutcome.GrantedFailureSaysWhy` | crates/clone-orchestrator/src/apply_grant.rs:194-301 | Every failure is explained, in the order of the checks: a steerable predicate, a record or cap that does not fit, what is wrong with the grant, or why the guarded apply failed. |
| `Runs.CommitHasProvenance` | crates/applyd/src/service.rs:410-541 | Over every run, what passes the gate has the statement, role, session, proposal, rehearsal position and cap of a request approved earlier while pending and unexpired, under the configured key, by someone other than the recorded session, with the rehearsed row count confirmed. |
| `Provenance.CommittedWriteTrail` | crates/applyd/src/service.rs:410-541 | Over every run, a commit that is sent has a trail of calls that proposed, rehearsed, asked for and approved exactly this write: less than fifteen minutes of monotonic time since the proposal, less than half an hour between request and approval, within the grant's lifetime, approved by someone other than the proposing session; what is sent is the proposed kind and relation, and what is committed stays within the rehearsed record and the cap the approved request asked for. |
| `Provenance.LateCallsAreRefused` | crates/applyd/src/service.rs:186-190 | Over every run, a rehearsal, an elevation or an apply that names a proposal never made, or made fifteen minutes of monotonic time ago or more, changes nothing and is answered PROPOSAL_NOT_FOUND. |
| `Provenance.GateIsInTime` | crates/applyd/src/service.rs:418-470 | Over every run, what reaches the grant gate is the statement last proposed under that id, in time, with a rehearsal since whose row count, and token if presented, the caller confirmed. |
| `Provenance.RecordsAreProposed` | crates/applyd/src/service.rs:137-172 | Over every run, every stored record holds what the last call to propose its id asked for and the result of a rehearsal since. |
| `Provenance.RequestsAreAsked` | crates/applyd/src/service.rs:259-319 | Over every run, every stored request is for what was proposed and rehearsed, under the cap asked for, since the call that asked. |
| `Replies.ProposalStays` | crates/applyd/src/service.rs:482-487 | Over every run, a proposal stays stored until a commit of it is reported. |
| `Replies.ProposeReplies` | crates/applyd/src/service.rs:137-172 | A proposal is accepted under its id for fifteen minutes or refused with the code of what was wrong, AUDIT_FAILED if that cannot be recorded. |
| `Replies.DryRunReplies` | crates/applyd/src/service.rs:180-252 | A rehearsal is served if and only if its proposal is stored and in time and the measurement has the target's key; it is answered with that record's totals, checksum and certificate and a token for its row count. |
| `Replies.ElevateReplies` | crates/applyd/src/service.rs:259-319 | An accepted elevation is answered with a new request number, the cap asked for and half an hour; any other stores no request. |
| `Replies.ElevateDecides` | crates/applyd/src/service.rs:259-319 | When an elevation is accepted, and the code it is refused with otherwise. |
| `Replies.ApproveReplies` | crates/applyd/src/service.rs:329-369 | An approval is granted if and only if the configured key signs a pending, unexpired request for someone else; otherwise the code says which check failed. |
| `Replies.ApplyTurnedAway` | crates/applyd/src/service.rs:418-462 | Which code turns an apply away before the gate, in the order of the checks. |
| `Replies.ApplyReplies` | crates/applyd/src/service.rs:482-541 | An apply that reached the gate is told the rows written and the plan that undoes them, BLAST_DRIFT, GRANT_REJECTED, or AUDIT_FAILED if the sink took no record. |
| `Replies.ProposeRecords` | crates/applyd/src/service.rs:629-656 | A refused proposal is recorded with its statement, role and session and the code. |
| `Replies.DryRunRecords` | crates/applyd/src/service.rs:629-656 | A refused rehearsal is recorded with the stored statement, role and session and the code. |
| `Replies.ElevateRecords` | crates/cli/src/flow.rs:126-184 | An elevation is recorded with the stored statement, its session as requester and the proposal, as pending or refused. |
| `Replies.ApproveRecords` | crates/cli/src/flow.rs:200-256 | An approval is recorded with the ticket's statement, session and proposal and the approver by name, also when it is refused as self-approval. |
| `Replies.ApplyRecords` | crates/applyd/src/service.rs:559-579 | An apply that reached the gate is recorded with the proposed statement, role and session and the proposal, allowed if and only if a commit is reported. |
| `Runs.ReRehearsalBlocks` | crates/applyd/src/service.rs:180-252 | Over every run, a rehearsal served after the grant was minted, at another position than the one signed and not replaced since, blocks the apply: no restore point, no transaction, nonce unused. |
| `Runs.StoredRehearsalIsLast` | crates/applyd/src/service.rs:235-244 | Over every run the stored rehearsal of a proposal is the last one served, until a call replaces it. |
| `Runs.ChangedRequestBlocks` | crates/clone-orchestrator/src/apply_grant.rs:272-285 | A stored request that differs in any field from the signed one is blocked and uses nothing up. |
| `Runs.OneGrantPerRequest` | crates/cli/src/request.rs:261-296 | Over every run each request yields at most one grant. |
| `Runs.OneApplyPerNonce` | crates/clone-orchestrator/src/apply_grant.rs:283-299 | Over every run each nonce opens at most one apply, even if a guard then aborts it. |
| `Runs.OneCommitPerRecord` | crates/applyd/src/service.rs:482-487 | Over every run, with written keys of one width, a proposal record whose commit was confirmed never commits again. |
| `PgRuns.PgOneCommitPerRecord` | crates/applyd/src/service.rs:482-487 | The same over the PostgreSQL connection, with no assumption about keys. |
| `Runs.AuditAccounts` | crates/applyd/src/service.rs:482-541 | Over every run reported commits are committed records plus AUDIT_FAILED answers, and enforcement refusals are block records plus AUDIT_FAILED answers. |
| `Runs.EveryCommitIsAccounted` | crates/applyd/src/service.rs:482-541 | With written keys of one width, the commits sent are the committed records, plus confirmed commits answered AUDIT_FAILED, plus commits the server did not confirm. |
| `Runs.UnconfirmedIsRefused` | crates/applyd/src/service.rs:518-541 | A commit the server did not confirm is treated as a refusal. |
| `PgRuns.PgEveryCommitIsAccounted` | crates/applyd/src/service.rs:482-541 | The same accounting over the PostgreSQL connection, with no assumption about keys. |
| `Runs.StepAccounts` | crates/applyd/src/service.rs:629-656 | Each refusal or reported commit adds exactly one record of its kind, or answers AUDIT_FAILED. |
| `Runs.AcceptedMeans` | crates/cli/src/flow.rs:200-256 | An approval is accepted if and only if the configured key signs a pending, unexpired request for someone other than its requester. |
| `Runs.GrantsAreMinted` | crates/applyd/src/service.rs:329-369 | Every grant held was minted by an accepted approval of this run. |
| `HonestRun.HonestWriteCommits` | crates/applyd/src/service.rs:137-541 | From any state, an in-time write whose record, cap and connection are sound and whose approver is someone else is proposed, rehearsed, elevated, approved and committed, and its caller is told the rows written: no gate refuses what it should admit. |
| `HonestExample.HonestWriteExists` | crates/applyd/src/service.rs:137-541 | For every hash, key, relation and approver, a rehearsed one-row update meets all those conditions on a fresh service. |
| `HonestRun.StepKeepsNextFree` | crates/applyd/src/service.rs:291-293 | Every call keeps the next request number unused. |
| `Lifecycle.ExpiryIsMonotone` | crates/clone-orchestrator/src/proposal.rs:57-68 | A proposal has time left exactly until the monotonic clock reaches its creation plus its lifetime, and expiry is never undone while that clock does not go back. |
| `Service.Service.Propose` | crates/applyd/src/service.rs:137-172 | The new state and reply are the lifecycle's propose step. |
| `Service.Service.DryRun` | crates/applyd/src/service.rs:180-252 | The new state and reply are the lifecycle's dry-run step. |
| `Service.Service.RequestElevation` | crates/applyd/src/service.rs:259-319 | The new state and reply are the lifecycle's elevation step. |
| `Service.Service.Approve` | crates/applyd/src/service.rs:329-369 | The new state and reply are the lifecycle's approval step. |
| `Service.Service.Apply` | crates/applyd/src/service.rs:410-541 | The new state, reply and connection trace are the lifecycle's apply step. |
| `Service.Service.AuditRefusalThen` | crates/applyd/src/service.rs:629-656 | One block record and the refusal, or no record and AUDIT_FAILED. |
| `Service.ApprovalFlow.RequestElevation` | crates/cli/src/flow.rs:126-184 | Refused operations are recorded and open nothing; eligible ones open one pending request. |
| `Service.ApprovalFlow.Approve` | crates/cli/src/flow.rs:200-256 | A grant over the recorded ticket is signed and the request closed, or nothing changes but the record of a self-approval. |
| `Service.ApprovalStore.RequestElevation` | crates/cli/src/request.rs:219-250 | A taken id changes nothing; otherwise a pending request with its expiry is added. |
| `Service.ApprovalStore.PendingForApproval` | crates/cli/src/request.rs:261-283 | The request, if and only if it is known, pending and unexpired. |
| `Service.ApprovalStore.Resolve` | crates/cli/src/request.rs:286-296 | A request is resolved if and only if it was pending. |
| `Service.Authorize` | crates/cli/src/principal.rs:111-123 | Allowed if and only if the principal is an approver and not the requester. |
| `AuditChain.VerifyChain` | crates/audit/src/chain.rs:81-130 | The loop returns the first break, or none for a valid chain. |
| `AuditChain.FirstBreakPrecision` | crates/audit/src/chain.rs:81-130 | A break at i is reported if and only if the records before i are a valid chain and i is the first bad one; no break if and only if the chain is valid. |
| `AuditChain.EditReported` | crates/audit/src/chain.rs:84-93 | An unsealed edit of record i of a valid chain is reported as a hash mismatch at i. |
| `AuditChain.ResealedEditReported` | crates/audit/src/chain.rs:116-124 | A resealed edit with links kept is reported as a broken link at the next record. |
| `AuditChain.DeletionReported` | crates/audit/src/chain.rs:94-115 | Deleting an interior record is reported as a gap at its place; deleting the first of several as a bad genesis. |
| `AuditChain.EqualHeadsEqualChains` | crates/audit/src/chain.rs:81-130 | Two valid chains with the same head are identical, so truncation, extension and rewriting all change the head. |
| `AuditChain.BuiltChainVerifies` | crates/audit/src/chain.rs:191-207 | Whatever is appended, the chain verifies and is numbered from zero. |
| `AuditChain.Chain.Append` | crates/audit/src/chain.rs:191-207 | Appending adds one sealed record and keeps the chain valid. |
| `PgSink.EveryInterleavingIsSequential` | crates/audit/src/pg.rs:128-173 | For any number of processes, interleaving and crash point, also between the server's commit and its answer, the table in sequence order is the chain that sequential appends of the committed entries in lock order build: valid, contiguous from zero, one row each; every acknowledged append is among them. |
| `PgAppends.RowsAreAsked` | crates/audit/src/pg.rs:128-173 | At every point of every interleaving, row k is sealed over exactly the entry and timestamp that some process was asked to append, and was committed by that process. |
| `PgAppends.RowsComeApart` | crates/audit/src/pg.rs:128-173 | Different rows go back to different requests to append. |
| `PgAppends.AcksAreCommits` | crates/audit/src/pg.rs:160-173 | Every acknowledgement tells a process of its own latest commit, once. |
| `PgAppends.AppendGoesThrough` | crates/audit/src/pg.rs:128-173 | From every reachable state with the lock free and a sequence number left, the steps of one idle process end in one row more, with its entry, linked to the head, acknowledged, and the lock free. |
| `PgSink.ChainOnlyGrows` | crates/audit/src/pg.rs:128-173 | Between any two points of a run the commits and the chain only grow at their ends. |
| `PgSink.BackstopNeverFires` | crates/audit/sql/10_audit_meta.sql:103-114 | Under the lock an insert always meets the table's uniqueness constraints while a sequence number is left. |
| `PgSink.LockIsNeverWedged` | crates/audit/src/pg.rs:128-173 | The lock's holder can always finish or abort, which frees it. |
| `AuditBoot.BootAcceptsExactlyTheAnchoredChain` | crates/audit/src/boot.rs:319-374 | After any run of appends, anchors, rewrites and boots, a boot over a non-empty anchor log succeeds if and only if the stored chain is exactly the one anchored last, provided that one verified. |
| `AuditBoot.BootExactly` | crates/audit/src/boot.rs:319-374 | A boot is accepted if and only if the records can be read, form a valid chain whose head the latest entry signs, and an owner whose interval has run out can write; then and only then that owner adds one entry naming the last record's hash, number and time. |
| `AuditBoot.BootSaysWhy` | crates/audit/src/boot.rs:319-374 | A refused boot names the first break, the entry it cannot verify, the two heads that differ, or the failed read or write. |
| `AuditBoot.AnchorIsNeverStale` | crates/audit/src/anchor.rs:319-347 | After every tick of a process whose clock does not go back, the head it published last is less than an interval old. |
| `AuditBoot.OnlyAcceptedOwnerBootsPublish` | crates/audit/src/boot.rs:319-374 | A refused boot and every verify-role boot leave the anchor log unchanged; an accepted owner boot adds at most the entry of the chain it verified. |
| `AuditBoot.PublishedStaysPublished` | crates/audit/src/anchor.rs:240-253 | Over every run published entries stay a prefix of the log. |
| `AuditBoot.UnanchoredAppendsRefuseBoot` | crates/audit/src/boot.rs:404-420 | Any non-empty sequence of honest appends after the last anchor makes the next boot refuse with a head mismatch. |
| `AuditBoot.VerifyRecordsAgainstAnchor` | crates/audit/src/anchor.rs:406-435 | The records verify against the latest anchor exactly when its signature is good and its head is theirs. |
| `AuditBoot.AuditBoot.VerifyThenAnchor` | crates/audit/src/boot.rs:319-346 | The owner boot checks chain and anchor before it publishes anything. |
| `AuditBoot.AuditBoot.VerifyOnly` | crates/audit/src/boot.rs:354-362 | The verify-role boot makes the same checks and publishes nothing. |
| `AuditBoot.AuditBoot.Boot` | crates/audit/src/boot.rs:369-374 | The role decides which of the two runs. |
| `AuditBoot.AuditBoot.MaybeAnchor` | crates/audit/src/boot.rs:288-300 | A tick adds one entry for the records in the sink, unverified, if and only if they can be read, the log can be written, and nothing was published before or the interval has run out; the mark moves with it. |
| `AuditBoot.Anchorer.MaybeAnchorRecords` | crates/audit/src/anchor.rs:319-347 | One entry naming the last record's hash, number and time is added, and the mark set to now, if and only if the log can be written and nothing was published before or `now` is at least the mark plus the interval; otherwise both stay. |
| `AuditBoot.WormAnchor.Append` | crates/audit/src/anchor.rs:240-253 | The log grows by the entry, or stays as it was. |
| `ProposalId.MixIsBijective` | crates/clone-orchestrator/src/proposal.rs:114-119 | One FNV-1a step (section 2 of draft-eastlake-fnv) has an inverse on 64-bit states. |
| `ProposalId.OneByteChangesId` | crates/clone-orchestrator/src/proposal.rs:110-125 | Two encoded inputs of equal length that differ in exactly one byte get different ids, for statements of any length. |
| `ProposalId.SequenceKeepsIdsApart` | crates/clone-orchestrator/src/proposal.rs:110-125 | Otherwise equal proposals whose sequence numbers differ in one byte get different ids. |
| `ProposalId.EncodedExactly` | crates/clone-orchestrator/src/proposal.rs:120-123 | What is digested is the same if and only if statement, row estimate, creation time and sequence number are, where no estimate and one of 2^64-1 look the same. |
| `ProposalId.LeBytesRoundTrip` | crates/clone-orchestrator/src/proposal.rs:121-123 | A number is digested as eight bytes, the least significant first, from which it can be read back. |
| `ProposalId.FnvVectors` | crates/clone-orchestrator/src/proposal.rs:113-119 | The fold gives the published 64-bit FNV-1a values of the empty string and of "a". |
| `ProposalId.MakeId` | crates/clone-orchestrator/src/proposal.rs:110-125 | The mixing loops compute the id of the encoded fields. |

## Left out

- SQL text, parsing, catalog queries and the measurement SQL of the rehearsal: statement kind, SET columns, predicate and measurement are inputs.
- Predicate analysis: whether a predicate is volatile or steerable is an input.
- SHA-256, Ed25519 and HMAC internals, key loading and the secret store: their contracts are assumed as stated above.
- JSON-RPC, sockets, webhooks, environment and policy resolution: input and output plumbing around the calls modelled here.
- `doctor.rs`, `refuse.rs`, `verify.rs`, role parsing and the benchmark and fuzz harnesses: single-branch checks and finite corpora.
- The read path (classifier, byte budget, warden, clone providers, reaper).
- The suggested cap's floating-point headroom: the cap of a request is an arbitrary input.
- The free-text reasons of audit records and of errors, and the row counts of the revert report.
- The integer width of database columns: a captured value is taken to be restored as it was captured.
- A TRUNCATE issued by a trigger, which the server does not count as deletes: triggers make row changes, and an apply under such a trigger is not modelled.
- Work of aborted subtransactions, which the server's counters include: the counters grow by exactly what was done.
- Statistics counters at or above 2^63, and the panic a debug build makes of the wrapped sum.
- Foreign keys and other constraints between tables: the restore order is modelled, and a statement the server refuses, but not when it refuses.
- ApplyRevert.UpdateRoundTrip: assumes that no trigger of the revert's statements writes the target beside the row being restored, because what such a write leaves has nothing to do with the captures; `ApplyRevert.RevertFrame` still holds.
- ApplyRevert.DeleteRoundTrip: assumes the same of the revert's triggers.
- ApplyRevert.CountedDeleteRoundTrip: assumes besides that the counters show one delete of the target per returned row and nothing else, because an apply that shows more has written rows it did not capture; `ApplyRevert.DeleteRoundTrip` covers those too.
- ApplyRevert.PlainDeleteRoundTrips: assumes besides that the counters show one delete of the target per returned row and nothing else, for the same reason.
- ApplyRevert.CommittedDeleteSideExactly: excludes a target whose growths add to exactly 2^64, which the guards do not see.
- ApplyRevert.CommittedUpdateSideExactly: excludes a target whose growths add to exactly 2^64, which the guards do not see, and a record that predicts inserts or deletes on the target; `ApplyRevert.TargetSideExactly` covers both.
- ApplyRevert.DeleteLeavesNoSide: excludes a target whose growths add to exactly 2^64, for the same reason.
- ApplyRevert.PassedUpdateRoundTrip: assumes besides that the counters show one update of the target per returned row and nothing else, because an apply that shows more may have written rows it did not capture; `ApplyRevert.UpdateRoundTrip` covers those too.
- ApplyRevert.KeptCellsRoundTrip: assumes besides that the counters show one update of the target per returned row and nothing else, because an apply that shows more may have written rows it did not capture; `ApplyRevert.UpdateRoundTrip` covers those too.
- ApplyRevert.PlainUpdateRoundTrips: assumes besides that the counters show one update of the target per returned row and nothing else, because an apply that shows more may have written rows it did not capture; `ApplyRevert.UpdateRoundTrip` covers those too.
- ApplyRevert.CommitKeepsOtherRows: excludes a relation whose growths add to exactly 2^64, which the source's unchecked sum drops.
- Runs.OneCommitPerRecord: assumes written keys of one width, because with mixed widths the apply reports an error after committing and the record stays; a commit whose confirmation is lost leaves the record too.
- Runs.EveryCommitIsAccounted: assumes written keys of one width, for the same reason; whether an unconfirmed commit took effect is not known to the service.
