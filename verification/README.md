# txbox in Dafny

txbox is a transactional inbox. Before a message's handler runs, a row `(consumer, message)` is claimed in
the same database transaction the handler writes in, so a redelivered message finds the row and is skipped.
This project models that library and proves what it promises: exactly-once effects under concurrency,
failures, redelivery and purge; batches that mean the same as one message at a time; and no deadlock
between batches.

| file | what it models |
|---|---|
| `Ids.dfy` | identifiers: validation, `MessageId::scoped`, UTF-8 byte order |
| `Claims.dfy` | what claiming means, one id after another, and the one-statement batch claim |
| `Batches.dfy` | what `process` and `process_many` mean, as folds, and their promises |
| `Stores.dfy` | the `InboxStore` and `Savepoints` contracts on one connection, where any statement may fail |
| `Consumers.dfy` | `claim_many`, `process` and `process_many`, statement by statement |
| `Protocol.dfy` | the inbox protocol as a transition system over any number of transactions |
| `BatchLoop.dfy` | `process_many` with its own variables, beside every other transaction of that system |
| `BatchFold.dfy` | that driver's results and rows, in every interleaving, as the fold's |
| `Simulation.dfy` | runs of that system that commit what the batch driver's fold commits |
| `Successes.dfy` | which handlers' effects last, read off the moves of a run |
| `LockOrder.dfy` | the lock order of batches and its consequences |
| `KafkaLoop.dfy` | the receive, process, commit-offset loop over the protocol |
| `KafkaAcks.dfy` | when that loop acks, read off its run |
| `KafkaProgress.dfy` | that it gets through, from every state |
| `MySql.dfy` | the session lock timeout and the claim token of the MySQL backend |
| `Purging.dfy` | retention and the batched purge |
| `PurgeRuns.dfy` | that purge as steps of the protocol |

SQL statements are modelled by their relational effect: insert-if-absent, delete, savepoint, rollback to a
savepoint. A handler is an arbitrary function of its own captured state and of everything in the database
except this consumer's inbox rows; its captured state survives a rollback. Failures, cancellations and
clocks are nondeterministic or parameters, so each statement below holds for all of them.

## How the results fit together

`Consumers.ProcessMany` is proved to commit and return the fold `Batches.ProcessEach` whenever the backend
executes each of its statements, and to stop at the first it does not. The lemmas of `Batches` then say what
that fold is worth: a result is `Ok` exactly when its id is recorded, failed handlers leave nothing behind,
and the batch is the loop over `process` exactly when no unrecorded id is delivered twice. `Protocol` takes up where one transaction is not alone: every step of every
interleaving keeps an invariant from which exactly-once, ack safety, the retention window and, in
`LockOrder`, freedom from deadlock and completion follow. `Successes` says whose effects those are: the
durable log is the handlers that succeeded in transactions that committed, each told from the run's moves.

More modules join the drivers to it. `BatchLoop` puts the variables of `process_many` beside the transition
system: every behaviour of that driver is a run of the protocol, and its result vector is right at every
position over all of them; `BatchFold` adds that it is the fold's, and so are the rows committed.
`Simulation` goes the other way, for existence: beside any transactions that hold none of its keys, there is
a run that commits exactly what the fold commits. `KafkaLoop` does for the single-message driver and its
broker what `BatchLoop` does for batches, `KafkaAcks` says when it acks, and `KafkaProgress` that nothing
leaves it stuck. `PurgeRuns` makes the purge loop a run as well.

Where the code and its documentation part ways, the model follows the code:

- src/consumer.rs:69 says an outer `Err` of `process_many` means nothing was committed. That fails exactly
  when the commit took effect, its reply was lost and some handler had succeeded (`Consumers.ProcessMany`);
  `Simulation.LostReplyHidesACommit` builds such a run for every batch with a handler that succeeds.
- src/store.rs:129-131 says looping over `process` has the same semantics as `process_many`. For every
  handler this is so exactly when no unrecorded id is delivered twice (`Batches.LoopForEveryHandler`);
  otherwise the loop would run a failed message's handler again, while `process_many` reports the failure.
- src/retention.rs:5-7 asks that `max_age` exceed the redelivery window. Equality is enough, and one unit
  more is too much (`Protocol.RetentionWindowIsExact`). What has to fall inside the window is the claim: a
  delivery that arrives in time but whose claim is delayed past it can be applied twice
  (`Protocol.LateClaimAppliesTwice`).

## Model

| member | source | states |
|---|---|---|
| Ids.TryFromExact | src/types.rs:36-50 | validation accepts exactly the values with no whitespace at either end that fit in the byte limit, unchanged, and names the first test that fails |
| Ids.AsciiIds | src/types.rs:37-44 | printable ASCII ids pass up to the limit, a byte a character; a blank, tab or line break at an end fails |
| Ids.WhitespaceIsUnicodes | src/types.rs:37-42 | what is trimmed is exactly the characters with the Unicode property White_Space |
| Ids.LengthCountsBytes | src/types.rs:40-44 | lengths are in bytes: each character counts for its UTF-8 width |
| Ids.CharWidth | src/consumer.rs:202-204 | UTF-8 widths by code-point range, told by the lead byte |
| Ids.PayloadIsCodePoint | src/consumer.rs:202-204 | the payload bits of an encoded character are its code point |
| Ids.ScopedExact | src/types.rs:82-95 | what `scoped` answers for every pair: the first failing test names the error, else the join is accepted up to 512 bytes |
| Ids.ScopedAccepts | src/types.rs:82-95 | `scoped` succeeds iff the scope has no ':', both parts are clean and the joined byte length is at most 512 |
| Ids.ScopedJoinFailsOnlyByLength | src/types.rs:86-94 | once both parts pass, the final validation can only fail with `TooLong`, with the joined length |
| Ids.ScopedInjective | src/types.rs:79-95 | splitting at the first ':' recovers both parts, so no two pairs share an id |
| Ids.ByteOrderIsCodePointOrder | src/consumer.rs:202-204 | comparing UTF-8 bytes is comparing code points |
| Ids.IdLessStrict | src/consumer.rs:202-204 | byte order is irreflexive, transitive and asymmetric |
| Ids.IdLessTotal | src/consumer.rs:202-205 | distinct ids never tie, so after sorting only equal ids are adjacent |
| Ids.PrefixComesFirst | src/consumer.rs:202-204 | an id comes before every longer one that starts with it |
| Claims.ClaimEachMeaning | src/consumer.rs:188-192 | claiming in turn answers `Fresh` to exactly the first occurrence of each unrecorded id and records every id |
| Claims.BatchInsertIsOneByOne | src/sql.rs:32-44 | one insert-if-absent with returned ids leaves the same rows as claiming in turn, and the same answers iff no unrecorded id is repeated |
| Stores.Store.Begin | src/store.rs:30-31 | unless the backend fails it, a new transaction sees the committed database |
| Stores.Store.InsertIfAbsent | src/postgres.rs:66-68 | inserts and answers `Fresh` iff the row is absent; fails iff the backend does or the transaction is aborted, and then changes nothing but its mode; on one the backend has rolled back, it commits by itself |
| Stores.Store.ClaimOne | src/store.rs:46-66 | that insert as one logged statement |
| Stores.Store.ClaimMany | src/store.rs:74-90 | the default loop inserts one id after another and fails exactly at the first insert that does; what those before it inserted stays in the transaction, and nothing is committed unless the backend had already rolled it back |
| Stores.InSomeOrder | src/postgres.rs:215-219 | the returned rows list exactly the inserted ids, in any order |
| Stores.Store.ClaimManyReturning | src/postgres.rs:213-221 | the SQL batch claim leaves the rows of claiming in turn, and the answers iff no unrecorded id is repeated |
| Stores.Store.Savepoint | src/store.rs:133-134 | snapshots the transaction; only an open one can |
| Stores.Store.ReleaseAndSavepoint | src/store.rs:136-140 | the top savepoint is replaced by one of the current state |
| Stores.Store.Release | src/store.rs:142-143 | the top savepoint goes, the work stays |
| Stores.Store.RollbackTo | src/store.rs:145-147 | the snapshot is restored and stays open; impossible once the backend has rolled back |
| Stores.Store.Unclaim | src/store.rs:149-156 | deletes the row whoever inserted it; autocommitted on a dead transaction |
| Stores.Store.Commit | src/store.rs:33-34 | the view of an open transaction becomes durable unless the commit is refused, also when its reply is lost |
| Stores.Store.Rollback | src/store.rs:36-44 | nothing of the transaction remains, even if the statement fails |
| Stores.Store.Drop | src/store.rs:21-28 | leaving scope without commit rolls back |
| Consumers.SortSorts | src/consumer.rs:203-204 | a sorted permutation in byte order |
| Consumers.Dedup | src/consumer.rs:205-205 | strictly increasing, with the same ids |
| Consumers.AnswersById | src/consumer.rs:225-226 | each id sent has the backend's answer |
| Consumers.Expand | src/consumer.rs:227-234 | first occurrences take the answer, repeats `Duplicate`; the lookup never misses |
| Consumers.ExpansionIsOneByOne | src/consumer.rs:223-234 | the expanded answers are those of claiming each delivery in turn |
| Consumers.ClaimMany | src/consumer.rs:193-236 | one call goes out, strictly byte-increasing, same set; `Ok` exactly if it is executed and answered one for one, and then answers and rows equal claiming each id in input order, repeats included; else the call's own error |
| Consumers.HandleAndClose | src/consumer.rs:270-293 | a handler that succeeds is committed, its reply and database as the commit went; one that fails is rolled back and its error returned, even if the rollback fails |
| Consumers.ProcessBody | src/consumer.rs:255-295 | the database changes exactly when a commit went out and was not refused, and then by the fold's step; every reply says which statement closed or failed, and a handler error leaves it unchanged even if rollback fails |
| Consumers.Process | src/consumer.rs:243-299 | the same, with no transaction left open; a store error is the failed statement's, and without a fault there is none |
| Consumers.ClaimDecidesStep | src/consumer.rs:89-101 | a claim made up front is `Fresh` exactly when the fold, arriving there, has the id neither recorded nor failed |
| Consumers.HandleFresh | src/consumer.rs:120-134 | one message: effects kept, or effects and claim gone, the savepoint moved on; stops at the first failing statement |
| Consumers.FreshStep | src/consumer.rs:120-134 | that is one step of the fold, although the claims ahead are already in the transaction |
| Consumers.RunOne | src/consumer.rs:100-135 | one delivery, repeats of failed ids included, and the `pending` count; it fails only with a statement that failed |
| Consumers.RunMessages | src/consumer.rs:100-135 | `pending` is the number of fresh claims ahead, the savepoint is open iff it is positive, and none is open at the end; it fails only with a statement that failed |
| Consumers.OpenBatch | src/consumer.rs:88-99 | all claims precede the savepoint, opened iff something is fresh; it succeeds exactly if its last statement does |
| Consumers.ProcessManyBody | src/consumer.rs:84-138 | the database becomes the fold's exactly when the commit went out and was not refused, else stays; `Ok` iff that commit was acknowledged, `Err` iff the last statement failed, and nothing follows a failed statement; each statement finds the savepoint as it should; only rows the batch inserted are withdrawn |
| Consumers.ProcessMany | src/consumer.rs:70-141 | `Ok` iff the backend executed every statement, as it does without faults, and then results, database and handler state are the fold's; each result is `Ok` iff its id is committed; no committed row is lost; the outer `Err` is the failed statement's, and nothing was committed, unless the commit's reply was lost and some handler had succeeded, and then something was |
| Batches.EveryIdIsRecordedOrFailed | src/consumer.rs:92-128 | every delivered id ends recorded or failed, never both, and no row is lost |
| Batches.AckSafety | src/consumer.rs:64-67 | results align with the ids, and each is `Ok` iff its id is recorded at the end |
| Batches.HandlerRunsOncePerUnprocessedId | src/consumer.rs:60-61 | the handler is called for exactly the distinct unprocessed ids, in input order |
| Batches.PoisonIsolation | src/consumer.rs:63-65 | the world is the fold of the successful calls alone; captured state went through all of them |
| Batches.ChangesIffSomethingSucceeds | src/consumer.rs:119-136 | a batch leaves the database as it was iff no handler call succeeded, and else adds a row |
| Batches.PoisonsLeaveNoTrace | src/consumer.rs:63-65 | for a handler whose effect does not depend on captured state, the batch without its failed deliveries leaves the same database, with no failure |
| Batches.RepeatOfFailureIsReported | src/consumer.rs:92-106 | a repeat of a failed id is reported as failed |
| Batches.ProcessManyIsTheLoop | src/store.rs:129-131 | same results, calls, state, rows and world as looping `process` iff no delivery repeats an id that failed earlier; always so for distinct ids |
| Batches.LoopForEveryHandler | src/store.rs:129-131 | that holds for every handler iff no unrecorded id is delivered twice |
| Protocol.StepKeepsInv | src/store.rs:21-66 | every step of every transaction keeps rows under locks, locks apart, and one effect per handled row |
| Protocol.StepKeepsOnce | src/store.rs:46-51 | only a fresh claim of an applied key could repeat an effect |
| Protocol.CommitSettlesTheBatch | src/consumer.rs:92-136 | under any interleaving, a commit leaves each key of the batch applied, or failed here and its row nowhere |
| Protocol.CommitAddsRows | src/store.rs:17-34 | a commit with every claim handled adds the transaction's rows and one effect for each, and removes nothing |
| Successes.LogIsSuccesses | src/consumer.rs:269-293 | over every run the durable effects are exactly the handlers that succeeded in a transaction that committed |
| Successes.CommitAddsSuccesses | src/consumer.rs:119-136 | a commit adds the rows, and one effect each, of exactly the handlers that succeeded in it |
| Successes.OnlyCommitsAdd | src/store.rs:21-28 | nothing but a commit adds a row or an effect |
| Successes.FailedProcessNeverCommits | src/consumer.rs:279-292 | once the handler of a single delivery failed, no run that follows commits it |
| Successes.ClosingNeverCommits | src/store.rs:21-28 | a transaction that was lost never commits, whatever follows |
| Successes.ClosingOnlyEnds | src/store.rs:36-44 | and ending it changes nothing durable |
| Successes.AnythingMayCome | src/store.rs:21-28 | any transaction may be lost or dropped at any time, any handler fail, any commit's reply get lost |
| Successes.AnyStampMayCome | src/postgres.rs:63-68 | a row may be stamped with any time from its transaction's start to the claim, and no other |
| Successes.AnyExpiredRowsMayGo | src/postgres.rs:79-84 | any rows stamped more than `max_age` ago may be purged at any moment, and no other |
| Successes.ClaimLocksOthersOut | src/store.rs:68-73 | a fresh claim locks its key against every other transaction, a duplicate on backends that do |
| Successes.BlockedWaits | src/store.rs:57-61 | a claim that finds its key locked waits, and can only be given up until the key is free |
| Successes.WakingClaims | src/store.rs:57-61 | once it is free the claim goes on, as a duplicate or fresh by the committed rows |
| Protocol.OnlyPurgeRemovesRows | src/postgres.rs:53-53 | no step but a purge removes a committed row, though `unclaim` has no ownership guard |
| Protocol.KnownDuplicateStays | src/store.rs:92-98 | a committed row stays known until a purge, over every run |
| Protocol.ExactlyOnce | src/consumer.rs:238-299 | over every interleaving without purge, a key has one durable effect iff its row is committed, else none |
| Protocol.ExactlyOnceWithinWindow | src/retention.rs:5-7 | with purges anywhere, no effect repeats while claims come by `processed_at + max_age` |
| Protocol.LateClaimAppliesTwice | src/postgres.rs:79-84 | one unit later, a purged message that arrived in time is applied twice |
| Protocol.RetentionWindowIsExact | src/retention.rs:5-7 | a redelivery window is safe under purge iff it is at most `max_age` |
| Simulation.BatchRuns | src/consumer.rs:84-138 | beside any transactions that hold none of its keys, for any batch in lock order and any set of succeeding handlers, a run of the protocol claims, handles and commits it: exactly the missing keys that succeed gain a row and one effect, and the others' transactions are untouched |
| Simulation.ProcessManyIsARun | src/consumer.rs:84-138 | beside such transactions, for every handler and every list of deliveries, a run of the protocol on the sorted, deduplicated ids adds exactly the rows `process_many` adds, one effect each, and touches no other key |
| Simulation.LostReplyHidesACommit | src/consumer.rs:69-69 | for every batch with a handler that succeeds, a run whose commit gets no reply leaves a new row and its effect |
| BatchLoop.ExpansionMarksRows | src/consumer.rs:223-234 | the answers, re-expanded, mark each row the transaction inserted fresh once, at its first delivery |
| BatchLoop.StepKeepsWorkerInv | src/consumer.rs:87-136 | through every step of the driver and of anyone else, `pending` counts the fresh claims ahead, each result so far is `Ok` iff its key has not failed, and the rows are those handled, running or ahead |
| BatchLoop.AnythingMayInterfere | src/store.rs:21-28 | between any two steps of the driver others may do whatever the protocol allows, and it may be lost or dropped |
| BatchLoop.DriverNeverStuck | src/consumer.rs:89-136 | in an open transaction the driver's next statement is always one the protocol allows: a claim or a wait for it, a handler, the commit; nothing is pending at commit and the answer lookup never misses |
| BatchLoop.CommitSettles | src/consumer.rs:92-136 | beside any other transactions, a commit leaves every `Ok` position's key applied and every `Err` position's row nowhere |
| BatchLoop.CommitAddsWhatItReports | src/consumer.rs:116-136 | it adds exactly the rows reported as processed, and one effect for each |
| BatchLoop.DriverRunIsAProtocolRun | src/consumer.rs:84-138 | every behaviour of the driver, interleaved with anything, is a run of the protocol |
| BatchLoop.AckSafetyInEveryRun | src/consumer.rs:60-67 | over all of them, once `process_many` has returned, its results align with its ids and each `Ok`, repeats included, is of a key applied, and applied once while claims keep to the retention window |
| BatchLoop.ReturnsWhenAcknowledged | src/consumer.rs:136-137 | over all of them it returns `Ok` exactly when its commit was acknowledged, and the outer `Err` exactly when the reply was lost or the transaction given up |
| BatchLoop.ReturnsWhatItHeld | src/consumer.rs:136-137 | and what it returns is what it held when the commit went out |
| BatchLoop.CommitAnswersEveryPosition | src/consumer.rs:92-136 | over all of them without purge, at the commit each position is `Ok` iff its row is committed |
| BatchFold.ExpansionFollows | src/consumer.rs:223-234 | the answers of the interleaved claims, re-expanded, are those of claiming each delivery in turn on the rows they found |
| BatchFold.ResultsAreTheFold | src/consumer.rs:84-138 | from every state the protocol reaches, over every interleaving in which the handler ends as a given function does, `process_many` returns at each position what the fold returns |
| BatchFold.CommitAddsTheFold | src/consumer.rs:116-136 | and its commit adds exactly the fold's new rows, one effect each, whatever others did meanwhile |
| LockOrder.HoldsOnlySmallerKeys | src/consumer.rs:202-211 | a transaction holds only keys smaller than the one it claims next |
| LockOrder.WantedKeysIncrease | src/postgres.rs:70-77 | along a chain of waits the wanted keys strictly increase |
| LockOrder.NoDeadlock | src/postgres.rs:70-77 | no chain of waits returns to its start |
| LockOrder.SomeoneCanStep | src/mysql.rs:60-68 | while a transaction is open, some transaction can move forward |
| LockOrder.ForwardTakesWork | src/store.rs:68-73 | every forward move leaves the open transactions strictly less to do |
| LockOrder.ForwardRunsEnd | src/store.rs:68-73 | a run of forward moves is no longer than the work there was |
| LockOrder.EveryoneFinishes | src/store.rs:68-73 | from any state, forward moves alone end every open transaction |
| LockOrder.ReachableStatesNeverDeadlock | src/store.rs:68-73 | every reachable state has no cycle of waits, a forward move while anything is open, and a forward run that ends all of it |
| KafkaLoop.StepKeepsLoopInv | examples/kafka_consumer.rs:56-99 | receiving, skipping, processing, acking, late offset commits and crashes, after which a transaction may end or its commit still land, keep every offset in flight settled |
| KafkaLoop.KeyOfMeaning | examples/kafka_consumer.rs:64-75 | a record is skipped exactly when its key is missing, not clean or over 512 bytes, and else claimed under that key |
| KafkaLoop.AnythingMayHappen | examples/kafka_consumer.rs:54-57 | at any point records may arrive, the worker crash, an offset commit land or the database move |
| KafkaLoop.CommittedOffsetsAreSettled | examples/kafka_consumer.rs:56-99 | every offset the broker has been moved past is of a record whose key is applied, or missing, not clean or too long, purges included |
| KafkaLoop.EachMessageOnce | examples/kafka_consumer.rs:91-98 | with crashes anywhere and no purge, no key is applied twice and each record passed with a valid key is applied once, its row committed |
| KafkaLoop.EachMessageOnceBesidePurge | examples/kafka_consumer.rs:39-52 | the same beside purges, while claims keep to the retention window |
| KafkaAcks.MessagesAreProduced | examples/kafka_consumer.rs:56-57 | the records those theorems speak of are the ones produced, in order |
| KafkaAcks.AcksOnlyOk | examples/kafka_consumer.rs:78-98 | over every run the worker comes to ack exactly when `process` returned `Ok`, and never after its handler failed |
| KafkaAcks.AckedCommitSucceeded | examples/kafka_consumer.rs:78-98 | when its commit is acknowledged, the handler of that very record had succeeded |
| KafkaProgress.EveryRecordCanBePassed | examples/kafka_consumer.rs:56-99 | from every state, a restart at the broker's offset and the end of what others had open let the loop pass every record, each one settled |
| MySql.OnlyInterruptionLeavesSet | src/mysql.rs:199-202 | whatever becomes of its statements, a claim leaves its timeout set only if it was cancelled or the restore failed; any other error has restored it |
| MySql.ApplicationTimeoutSurvives | src/mysql.rs:34-50 | over every run in which BEGIN follows a claim that left its timeout set, the application's timeout is kept, and is the session's after each BEGIN and each other claim, answered or failed |
| MySql.CallersKeepTheTimeout | src/mysql.rs:34-42 | the same where the caller begins again after a cancelled claim or a failed restore, and after no other failure |
| MySql.ReuseForgetsTheApplication | src/mysql.rs:47-48 | a timed claim started over a saved value loses the application's timeout unless the two agree |
| MySql.ReadBackIsExact | src/mysql.rs:60-73 | the read-back lists exactly the rows the call inserted iff no row in place carries its token |
| MySql.StatementsMean | src/mysql.rs:57-79 | row by row what each statement does to the table: claims add only the absent ids sent and keep every other row, deletes remove only theirs |
| MySql.TokensTellTheirCall | src/mysql.rs:60-63 | over every history, each stored token was issued by the call that inserted its row |
| MySql.TokenClaimIsOneByOne | src/mysql.rs:226-244 | after any history of claims, deletes and interleaved rollbacks, a batch of distinct ids under an unissued token answers and records like claiming in turn, and touches no other row |
| MySql.MySqlInbox.SetLockTimeout | src/mysql.rs:93-104 | saves the session's value and sets the claim's, unless rejected or dropped before running; without a timeout it sends nothing and succeeds |
| MySql.MySqlInbox.RestoreLockTimeout | src/mysql.rs:106-116 | puts the saved value back, under each fate; without a timeout it sends nothing and succeeds |
| MySql.MySqlInbox.Claim | src/mysql.rs:191-208 | for every fate of its statements, the session, the table and the reply: every row there stays, and only an absent key sent is new; the insert runs under the claim's timeout, restored also when it fails, and its error wins; an answer iff all ran, `Fresh` iff the row was absent |
| MySql.MySqlInbox.ClaimMany | src/mysql.rs:224-245 | the same for a batch; under an unused token each answer is `Fresh` iff that id's row was absent |
| Purging.Inbox.DeleteExpired | src/sqlite.rs:57-62 | one statement deletes at most the limit, only rows stamped before the cutoff, none younger than a row it leaves, and all of them if it comes back short |
| Purging.PoliciesAreBuilt | src/retention.rs:18-30 | the policies with a positive batch size are exactly those the constructors build: 1000 by default, else as asked, zero clamped to one |
| Purging.EachRowWasDue | src/postgres.rs:252-273 | in a purge whose cutoff moves, each row removed was stamped before the cutoff of its own statement, and cutoffs never go back |
| Purging.Inbox.PurgeLoop | src/sqlite.rs:209-224 | the loop ends; what it removed goes oldest batch first and stays removed if a later statement fails, which alone makes it fail |
| Purging.Inbox.Purge | src/sqlite.rs:201-225 | by the stamps: each row removed was older than `max_age` when its statement ran; on success no row before the last cutoff is left, with a fixed cutoff the first one, and the count is the rows gone |
| PurgeRuns.PurgeIsARun | src/postgres.rs:252-273 | its statements are purge steps of the protocol, which remove the same rows and nothing else |

## Left out

- Consumers.ProcessMany: stated for a transaction that runs alone; the same driver beside other transactions is `BatchLoop`, and `BatchFold` for handlers that are functions of what that transaction sees.
- Consumers.SortSorts: `sort_unstable_by` is modelled by its result, an insertion sort on values, not in place.
- Purging.Inbox.Purge: no other writer inserts rows while the loop runs; each deletion statement is stated without that restriction.
- Stores.Store.Executes: which statements fail, how, and in what mode they leave the transaction is fixed beforehand, statement by statement, and arbitrary.
- Stores.Store.HandlerWrites: a handler that returns `Ok` has left its transaction open; one that swallows an SQL error, writes on a transaction the backend has rolled back, runs DDL or uses the inbox's savepoint name is outside the contract.
- MySql.MySqlInbox.ClaimMany: the token is a parameter; drawing it can fail in the code, before any statement.
- MySql.TokenClaimIsOneByOne: the insert and its read-back are taken as one step of the history, and tokens are never reused, which the code gets from 64 random bits.
- LockOrder.NoDeadlock: each transaction claims one batch under exclusive row locks; several batches in one transaction, locks taken by handlers, InnoDB gap locks and the shared lock an `INSERT IGNORE` (src/mysql.rs:57) takes on a duplicate, over which two waiting claims can deadlock once the holder rolls back, are not covered, nor promised.
- Simulation.ProcessManyIsARun: says that one run exists, in which the others do not move and the ids are handled in an order of its own, effects being a multiset there; what holds of every run is in `BatchLoop`.
- KafkaLoop.EachMessageOnce: one worker on the partition, as the documentation demands; rebalances are crashes.
- Connection pools, drivers, SQL parsing, migrations, tracing, boxed futures and lifetimes.
- The classification of backend error codes into `Contended`, and the rounding of lock timeouts to milliseconds or seconds.
- Wrap-around of the 64-bit purge counter and of time values; times are integers.
- The column encodings of ids and timestamps; ids compare byte for byte and times are ordered.
