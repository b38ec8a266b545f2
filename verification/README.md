# Webhook ingestor: the protocol and its proofs

The service accepts vendor webhooks, queues them in a database table, lets any number of
workers claim them under leases, asks a language model what each one means, stores the
answer as an immutable fact and projects it onto a current-state row per shipment or
invoice. It promises *effectively-once* processing: at-least-once delivery made safe by
guarded writes. This project models the queue, the gate, the projection and the workers,
and proves what that promise amounts to, including where it ends.

`dafny verify dfyconfig.toml` checks everything.

## How it is built

| file | contents |
|---|---|
| `common.dfy`, `model.dfy` | options, results; states, ranks, the invoice transition table, fact and entity rows |
| `projection.dfy` | the two guarded writes as functions on the entities table; convergence, progress, money, elimination of duplicates |
| `confluence.dfy` | when the arrival order of invoice events matters |
| `invoice_tx.dfy` | the statements of concurrent invoice transactions under row locks |
| `normalize.dfy` | the validation gate and the entity keys, against what a text spells |
| `backoff.dfy` | the retry delay in 64-bit arithmetic |
| `raw_queue.dfy` | what each statement does to a queue row, and what a job does to the other tables; the same column by column |
| `store.dfy` | the same as mutable objects: tables, queue, processor, worker |
| `system.dfy` | the whole service as a step system; the queue's unconditional guarantees |
| `effectively_once.dfy` | facts and entities in every reachable state, for a model client given as a relation |
| `replies.dfy` | facts and entities traced back to what the model replied |
| `agreement.dfy` | the worker method is a run of the step system; oldest rows first; two finished schedules compared |
| `schedules.dfy` | exactly when all schedules of the same payloads agree on a key |
| `locked_service.dfy` | the service with the invoice transaction interleaved statement by statement reaches exactly the states of the step system |
| `drain.dfy` | settled rows when leases are kept; how many claims any run issues, and that the queue drains |
| `finality.dfy` | exactly when an outcome is final and when attempts can still grow |
| `limits.dfy` | runs that reach the bounds or show where the guarantees end; exactly which clients keep which promise |
| `wakeup.dfy`, `migrate.dfy`, `ingest.dfy` | the wake-up channel, the migrations, the producer side |

A run of the service is *any* sequence of actions; an action that is not enabled changes
nothing. Actions are: time passes by any amount, a row is inserted, a worker claims any
claimable row (SKIP LOCKED may pass over the others), the model answers, a fact is stored,
an entity is projected (either may fail, or take effect and lose its reply), a job is
settled, a worker crashes. Leases are not
fenced: Ack, Retry and Fail act by row id alone, so a worker whose lease has run out still
acts on a row that another one has claimed again. Every theorem without an explicit
hypothesis holds in the presence of such workers. Two hypotheses occur:

* *one write per payload*: the model client is any relation between payloads and answers,
  and whatever accepted answers it may give to a payload ask for the same write (they may
  differ in confidence and texts; calls may be rejected or fail in any way). This hypothesis
  is exact (`Limits.EffectivelyOnceExactlyForOneWrite`);
* *timely*: no worker outlives its lease. It is used only for what fails without it, or to
  sharpen a bound that is also stated without it.

Row ids are the positions of the rows in the append-only table. The model is a parameter,
and so are the clock, the random draw of the backoff, the hash and the parser of times.

## What the code does where its prose says more

* A payload that kills its worker does not cap out: claiming never looks at the attempts
  (`Limits.CrashesNeverCap`). In any state the attempts of a row can still grow beyond every
  bound if and only if the row is not terminal (`Finality.AttemptsGrowExactlyWhileLive`);
  claims beyond the cap are paid for by claims that are never settled
  (`System.AttemptsAreAccountedFor`).
* MaxAttempts does not bound the claims of a row even if no claim is lost: a worker that
  outlives its lease still holds its claim, so the bound is MaxAttempts - 1 and one for every
  worker, and that is reached (`Drain.ClaimsAreBounded`, `Limits.ClaimBoundsAreReached`). It
  is MaxAttempts if workers keep to their leases. The queue drains all the same
  (`Drain.QueueDrains`).
* PROCESSED and FAILED are terminal for claiming in every run, but a stale worker can turn
  one into the other (`Limits.StaleWorkersOverturnOutcomes`). The outcome is final if and only
  if no worker on the row is in one of the positions that `Finality.OutcomeIsFinalExactly`
  names; after a run that kept its leases there is no worker on it at all
  (`Drain.LeasesMakeOutcomesFinal`).
* Invoices are not order-independent in general; `Confluence.ConfluentExactlyWithinOneEdge`
  says exactly when they are, and `Schedules.SchedulesAgreeExactly` says it of the service.
* Ties between shipment events of one rank go to the first applied, not to `event_time`
  (`Projection.ShipmentsConverge`).
* The handler stores its first answer and projects its latest, so whenever two accepted
  answers to a payload ask for different writes, some run leaves a PROCESSED fact that was
  not projected (`Limits.AnswersMustAgree`). Weaker promises hold for exactly the clients
  whose answers agree on less (`Limits.StatesHaveFactsExactlyForOneTarget`,
  `Limits.ProcessedIsShownExactlyForOnePlace`).
* The duplicate of an invoice event that takes effect may be a later one
  (`Projection.KeepingTheFirstCopyIsNotEnough`); it is still only one of them, and this
  happens exactly to refunds that come before the payment
  (`Projection.IgnoredCopiesCountExactlyForEarlyRefunds`).
* The overflow guard of the backoff misses some settings, not the defaults
  (`Backoff.BackoffIsExponentialExactlyWhenGuarded`, `Backoff.OverflowCanSlipThrough`).
* A shipment event on the key of an invoice moves it to a shipment state but leaves its
  type and money (`Projection.KindIsThatOfTheFirstEvent`).

## Model

| member | source | states |
|---|---|---|
| EffectivelyOnce.HandledEffectivelyOnce | internal/processor/processor.go:31-73 | for a client with one write per payload: in every reachable state there is a duplicate-free list of raw events, all with stored facts and including every PROCESSED one that names an entity, whose one-after-the-other application gives exactly the entities table |
| EffectivelyOnce.ProcessedMeansProjected | internal/worker/worker.go:77-93 | for a client whose accepted answers to a payload agree on the key and on a shipment's state: the entity of every PROCESSED row with a key exists, and for a shipment has at least the rank of the stored fact |
| EffectivelyOnce.ProcessedHasItsFact | internal/processor/processor.go:50-60 | with any client: a PROCESSED row has a well-formed fact made of an answer to its payload, and what some accepted answer to its payload asks for has been written |
| EffectivelyOnce.EveryStateHasItsFact | internal/processor/processor.go:50-55 | for a client whose accepted answers to a payload agree on key and state: every entity's state is that of a stored fact with its key, even between fact insert and projection |
| EffectivelyOnce.EntitiesAreCoherent | internal/store/entity.go:17-72 | with any model: the rank is that of the state, amount and currency are one coherent pair out of one event, every spelling of the key and no other finds the row, and it was written at most 7 times |
| EffectivelyOnce.NothingRecordedIsLost | internal/store/normalized.go:9-23 | in every run, with any answers to retried workers, the first fact of a raw event stays as it is |
| Replies.EntitiesSayWhatWasReplied | internal/processor/processor.go:36-73 | whatever the client: state and time of an entity are those of one reply about its key, its money that of one reply, its type the class of one; each reply was given to a stored payload and was not to be refused |
| Replies.TablesSayWhatWasReplied | internal/processor/processor.go:50-73 | a stored fact says what a reply to its payload said, and every projection write carries class, key, state, time, amount and currency of a reply to the payload of its row |
| LockedService.LockedServiceRefinesService | internal/store/entity.go:35-72 | every interleaving of the statements of invoice transactions with all other steps performs a run in which each projection is one step; the entities are the committed table |
| LockedService.ServiceIsPerformed | internal/store/entity.go:35-72 | the other direction: every run of the service is performed statement by statement, so both reach the same states |
| LockedService.LocksHaveLiveHolders | internal/store/entity.go:35-45 | in every interleaving with crashes a row is locked only by a live worker that is projecting onto it |
| LockedService.CommittedEffectivelyOnce | internal/store/entity.go:35-72 | for such a client the committed table of such an interleaving is effectively once |
| Agreement.SchedulesAgreeOnShipments | internal/store/entity.go:13-29 | two runs that have processed every payload with an accepted answer, the others being rejected or unsettled, in any order and with any overlaps, agree on state and rank of every key with a shipment event |
| Agreement.SchedulesAgreeOnInvoices | internal/store/entity.go:31-72 | they agree on an invoice whose states lie within one edge of the transition table |
| Schedules.SchedulesAgreeExactly | internal/model/model.go:29-59 | all runs that have finished the same payloads leave a key in the same state if and only if some accepted answer asks for a shipment state of it, or all states asked for lie within one edge of the invoice transition table |
| Schedules.DisagreeingSchedules | internal/store/entity.go:56-58 | otherwise two reachable states that have finished the same payloads and differ on the key |
| Agreement.DispatchIsARun | internal/worker/worker.go:77-93 | whatever statements fail or lose their reply, the settlement included, the tables the worker method leaves are those of a run of steps of that worker alone; a settlement that fails without effect is matched by a crash |
| Agreement.ClaimsFollowArrival | internal/store/raw.go:44-51 | after time has passed, a row that arrives is never the oldest while one that was there can be claimed |
| Projection.EffectiveApplyMovesUp | internal/store/entity.go:17-72 | an apply touches only its own key, keeps rows coherent, and either changes nothing or strictly raises the level of the row and puts it in its own state |
| Projection.FoldKeepsCoherence | internal/store/entity.go:17-72 | no sequence of events makes a row incoherent or lowers its level, and a row whose level is unchanged is unchanged |
| Projection.WritesAreBounded | internal/store/entity.go:17-72 | a row is written at most 7 times, 4 if its events are shipments, 3 if they are invoices |
| Projection.SevenWritesHappen | internal/model/model.go:29-59 | seven writes do occur |
| Projection.ShipmentsConverge | internal/store/entity.go:13-29 | whatever else arrives in whatever order, the row ends at the highest rank on its key, with the time of the first event of that rank |
| Projection.SameShipmentsSameState | internal/store/integration_test.go:87-109 | histories with the same set of shipment states on a key end in the same state and rank |
| Projection.StatesAreJustified | internal/store/entity.go:17-72 | the state of a row is that of an event on its key |
| Projection.StateAndTimeComeTogether | internal/store/entity.go:17-72 | state and event time of a row are those of the last event that changed it |
| Projection.KindIsThatOfTheFirstEvent | internal/store/entity.go:17-53 | the type of a row is that of the first event on its key, for ever |
| Projection.MoneyIsNeverMixed | internal/store/entity.go:59-67 | amount and currency are those of the last effective event that carried money, never of two |
| Projection.EffectHappensOnce | internal/store/entity.go:17-72 | an event that takes effect now had none at any earlier place in the history |
| Projection.DuplicatesAreHarmless | internal/processor/processor.go:31-34 | every history has the effect of one with the same events and no duplicates |
| Projection.IgnoredCopiesCountExactlyForEarlyRefunds | internal/store/entity.go:56-58 | an event ignored now takes effect after further events if and only if it is a refund, its invoice is ISSUED now and PAID then |
| Projection.KeepingTheFirstCopyIsNotEnough | internal/store/entity.go:56-58 | the smallest such history: dropping all but the first copy changes the result |
| Confluence.ConfluentExactlyWithinOneEdge | internal/model/model.go:49-59 | all arrival orders of invoice events end in the same state if and only if the states that occur lie within one edge of the transition table |
| Confluence.DisagreeingOrders | internal/store/entity.go:56-58 | otherwise two arrival orders of the same events with different results |
| Confluence.EdgeDecides | internal/model/model.go:49-59 | within one edge the result is its target if that occurs, else its source |
| Confluence.KeysAreIndependent | internal/store/entity.go:35-72 | a row depends only on the events of its own key |
| Confluence.SameInvoicesSameState | internal/store/entity.go:31-72 | histories with the same invoice states on a key, within one edge, end alike |
| InvoiceTx.Serializable | internal/store/entity.go:35-72 | every interleaving of transactions and upserts equals running the committed ones, each once, in commit order; aborted ones leave no trace |
| InvoiceTx.StepIsAtomic | internal/store/entity.go:35-72 | a step does nothing to the table or is the one atomic apply of the transaction that commits |
| InvoiceTx.OneSeeds | internal/store/entity.go:46-52 | of two transactions that both see no row, once one commits the other can only abort, without effect |
| InvoiceTx.ExactlyOneSeeds | internal/store/entity.go:46-52 | of two transactions that both see no row, the first to write makes the other wait and can commit, which puts state, time and money of its event into the row; then the other is aborted |
| InvoiceTx.BegunCommits | internal/store/entity.go:35-72 | a transaction that nobody is in the way of selects, writes and commits: it seeds the row, or follows a legal edge keeping known money, or leaves the row |
| InvoiceTx.EveryTransactionCanEnd | internal/store/entity.go:35-72 | from every reachable state each transaction can be brought to its end after the one it waits for, and is aborted only by the unique violation of a late seed |
| InvoiceTx.RollbackReleases | internal/store/entity.go:40 | a rollback leaves the table alone and releases the lock |
| InvoiceTx.UpsertTakesEffect | internal/store/entity.go:17-29 | the upsert takes effect at once unless the row is locked |
| InvoiceTx.LockHoldersCanCommit | internal/store/entity.go:42-71 | a lock holder never waits, so there is no deadlock |
| Normalize.GateRejectsExactly | internal/normalize/normalize.go:25-81 | a reply is an error if and only if it is certain and names no class, no state of that class or no key; naming is up to letter case and outer blanks |
| Normalize.GateKeepsWhatIsNamed | internal/normalize/normalize.go:32-99 | an accepted fact says what the reply says: class, state and key as named, trimmed text, parsed time, and money exactly if the reply has an amount and a three-letter currency on an invoice; an uncertain reply becomes UNCLASSIFIED without them |
| Normalize.ClassesByName | internal/model/model.go:13-17 | the three classes by name |
| Normalize.ShipmentStatesByName | internal/model/model.go:20-37 | the shipment states by name, and their rank is their place in the list |
| Normalize.InvoiceStatesByName | internal/model/model.go:42-65 | the invoice states and the three edges, by name |
| Normalize.Normalizer.Apply | internal/normalize/normalize.go:32-81 | the field-by-field gate returns, for every response, the outcome those two rows are about |
| Normalize.Normalizer.IsAlpha | internal/normalize/normalize.go:101-108 | true if and only if every character is an upper-case letter |
| Normalize.GateOutputIsWellFormed | internal/normalize/normalize.go:25-31 | an accepted fact has a state of its class and a canonical, non-empty key, and money only as a coherent pair on an invoice |
| Normalize.GateIsStable | internal/normalize/normalize.go:32-99 | the gate accepts its own output and changes nothing but the time |
| Normalize.CanonicalKeyIsFixpoint | internal/normalize/normalize.go:83-88 | canonicalizing a canonical key changes nothing |
| Normalize.VariantsFindTheKey | internal/normalize/normalize.go:83-88 | the canonical key of a text is the one text without small letters and outer blanks that it spells, letter case and blanks being those of literal lists |
| Backoff.BackoffIsExponentialExactlyWhenGuarded | internal/queue/postgres.go:104-114 | the ceiling is min(base*2^(attempts-1), cap) at every attempt if and only if the guard catches every overflow among the first 64 shifts |
| Backoff.EvenBasesAreGuarded | internal/queue/postgres.go:107-114 | it does when the cap is at most 2^first times the power of two in the base, `first` being the first overflowing shift |
| Backoff.DefaultsAreGuarded | internal/queue/postgres.go:38-43 | it does for the defaults 2s and 5m |
| Backoff.OverflowCanSlipThrough | internal/queue/postgres.go:107-114 | a base and a cap for which attempt 33 waits 4.29s instead of 5m |
| Backoff.DelayIsCapped | internal/queue/postgres.go:107-114 | for all settings the delay lies between 0 and the cap |
| Backoff.DrawsCoverTheUpperHalf | internal/queue/postgres.go:107-114 | over all draws the delay takes every value from half of the ceiling to twice that half, each for one draw, and no other |
| Backoff.WrapIsInt64 | internal/queue/postgres.go:108 | a shifted value is reduced to an int64 by a multiple of 2^64 |
| Backoff.DelayFollowsTheIdeal | internal/queue/postgres.go:104-114 | with guarded settings it lies between half of the promised ceiling and the ceiling, which never falls |
| RawQueue.DefaultsAreWellFormed | internal/queue/postgres.go:31-48 | unset settings become 5 attempts, 30s lease, 2s and 5m backoff; the filled-in settings are usable, and usable settings are kept |
| RawQueue.VerdictIsWellFormed | internal/processor/processor.go:36-48 | a fact that Handle goes on with has passed the gate |
| RawQueue.RepeatedWritesAreNoOps | internal/processor/processor.go:31-34 | handling a job again right after its writes changes neither table |
| RawQueue.ProjectedIsRecorded | internal/processor/processor.go:62-73 | projecting a fact: a new row holds its class, state, time and money; a shipment moves to a higher rank, an invoice along a legal edge with the fact's money if any; anything else changes nothing |
| RawQueue.SettledRowIsSettled | internal/queue/postgres.go:79-102 | every outcome with its status, error and lease; a retry is due half of the ideal delay plus the draw from now; nothing else in the row changes |
| RawQueue.RetriesKeepTheirDistance | internal/queue/postgres.go:83-114 | after a retry below the cap the row cannot be claimed during the first half of min(base*2^(attempts-1), cap) and can be after the whole of it |
| Store.Tables.InsertRaw | internal/store/raw.go:13-31 | one row per hash: a known hash returns its row unchanged, a new one appends a PENDING row; a failure may leave the new row or none |
| Store.Tables.Claim | internal/store/raw.go:33-62 | leases an oldest claimable row, counts the attempt, and returns none only if no row is claimable |
| Store.Tables.SelectNext | internal/store/raw.go:44-51 | finds a claimable row received no later than any other |
| Store.Tables.FindHash | internal/store/raw.go:29-30 | finds the row with a hash if and only if there is one |
| Store.Tables.MarkProcessed | internal/store/raw.go:64-68 | sets PROCESSED and clears error and lease of that row only |
| Store.Tables.RetryOrFail | internal/store/raw.go:70-84 | dead-letters at the cap, else reschedules without touching the status |
| Store.Tables.Fail | internal/store/raw.go:86-93 | sets FAILED with its reason, whatever the attempts |
| Store.Tables.InsertNormalized | internal/store/normalized.go:9-23 | the first fact of a raw event wins |
| Store.Tables.ApplyShipment | internal/store/entity.go:13-29 | inserts, or overwrites if and only if the rank is higher |
| Store.Tables.ApplyInvoice | internal/store/entity.go:31-72 | seeds, or follows a legal edge keeping known money, or does nothing |
| Store.Queue.Notify | internal/queue/postgres.go:50-57 | leaves one token, however often it is called |
| Store.Queue.Claim | internal/queue/postgres.go:59-77 | leases as above, or finds nothing and uses up the token unless the timer fired |
| Store.Queue.Ack | internal/queue/postgres.go:79-81 | the row is PROCESSED |
| Store.Queue.Retry | internal/queue/postgres.go:83-96 | the row is rescheduled by the backoff of the attempt, or dead-lettered at the cap |
| Store.Queue.Fail | internal/queue/postgres.go:98-102 | the row is FAILED at once |
| Store.Processor.Handle | internal/processor/processor.go:31-60 | for every answer and every failing statement: a rejection or a refused reply is permanent and leaves both tables alone, a fault is transient, of any other reply the fact that says what it says is stored first and then projected, with early exits |
| Store.Processor.Project | internal/processor/processor.go:62-73 | one guarded write by class, none for UNCLASSIFIED; the columns of the row it leaves |
| Store.Worker.Dispatch | internal/worker/worker.go:77-93 | exactly one of Ack, Fail and Retry, chosen by the outcome, on the job's row, with the columns it leaves; if that statement fails the row is left to its lease |
| System.NoRowIsStranded | internal/store/raw.go:38-84 | in every run a row that is not terminal is claimable at the latest one lease or one maximal backoff from now |
| System.RetriesWait | internal/store/raw.go:80-82 | in every run a transient failure below the cap of a leased row records its reason and keeps the row away for at least half of the ideal delay and at most the whole |
| System.ClaimsKeepTheirDistance | internal/store/raw.go:38-52 | a claim keeps the row away for exactly the lease and changes only status, attempts and lease |
| System.RowsAreInOrder | internal/store/raw.go:13-19 | rows lie in the order of their arrival and keep the time of their insert |
| System.HashesStayUnique | internal/store/raw.go:13-24 | in every run no two rows have one hash |
| System.InsertsAreOncePerHash | internal/store/raw.go:13-31 | an insert appends a PENDING row with what was delivered and the time; a known hash changes nothing |
| System.TerminalIsClosed | internal/store/raw.go:44-93 | in every run rows keep hash and payload, and a terminal row stays terminal and can never be claimed again |
| System.AttemptsAreAccountedFor | internal/store/raw.go:36-84 | attempts is the number of claims issued, and a row that is not terminal has at most MaxAttempts - 1 of them besides those never settled |
| System.StepKeepsQueueInv | internal/store/raw.go:38-93 | what every step keeps: counted claims, bounded leases, distinct live claims, terminal rows after a last claim is settled |
| Drain.LeasesMakeOutcomesFinal | internal/store/raw.go:33-37 | in every state of a run that kept its leases at most one claim per row is live, and a terminal row never changes again in any continuation, whether leases are kept or not |
| Drain.LeasesKeepRowsClean | internal/store/raw.go:64-93 | after such a run PROCESSED rows carry no error and no lease, FAILED rows carry their reason |
| Drain.ClaimsAreBounded | internal/store/raw.go:70-84 | in every run, besides the claims lost in crashes, a row gets at most MaxAttempts - 1 claims and one for every worker, and at most MaxAttempts if leases are kept; in total that times the rows |
| Drain.QueueDrains | internal/worker/worker.go:54-93 | in every run the work done is at most five steps for each of those claims, so it ends once no row is inserted and no claim lost; and until all rows are terminal some step is possible, now or after the longest wait |
| Finality.OutcomeIsFinalExactly | internal/store/raw.go:64-93 | in every state of every run no continuation overturns a terminal row if and only if no worker on it can: a FAILED row is safe from workers about to fail or retry it, a PROCESSED row from those about to acknowledge it and, below the cap, from all that are past the model call and not about to fail it |
| Finality.AttemptsGrowExactlyWhileLive | internal/store/raw.go:36-52 | in every state of every run with a worker the attempts of a row can still grow beyond every bound if and only if it is not terminal |
| Finality.ClaimsCanFollow | internal/store/raw.go:36-52 | for every number of further claims some continuation issues exactly that many on a live row and leaves it live |
| Limits.CrashesNeverCap | internal/store/raw.go:36-52 | for every n a run with n lost claims on a row that can be claimed again |
| Limits.ClaimBoundsAreReached | internal/store/raw.go:36-84 | for all settings, workers and numbers n of lost claims some run gives a live row exactly MaxAttempts - 1 + n claims and one more for every worker; with one claim held, one that keeps its leases reaches MaxAttempts + n |
| Limits.StaleWorkersOverturnOutcomes | internal/store/raw.go:64-68 | a run in which a FAILED row becomes PROCESSED |
| Limits.AnswersMustAgree | internal/processor/processor.go:50-55 | for any two accepted answers to a payload that ask for different writes, a run of the client that ends PROCESSED with the fact of the first and the entities of the second, which no sequential handling of the stored facts explains |
| Limits.EffectivelyOnceExactlyForOneWrite | internal/processor/processor.go:31-60 | every reachable state of a client is effectively once if and only if all its accepted answers to a payload ask for the same write |
| Limits.StatesHaveFactsExactlyForOneTarget | internal/processor/processor.go:50-55 | every entity has its fact in every reachable state of a client if and only if its accepted answers to a payload agree on key and state |
| Limits.ProcessedIsShownExactlyForOnePlace | internal/processor/processor.go:50-60 | the entity of every PROCESSED row shows its fact in every reachable state of a client if and only if its accepted answers to a payload agree on the key and on a shipment's state |
| Wakeup.NoWakeupIsLost | internal/queue/postgres.go:50-77 | while a row whose insert was followed by Notify is pending, a token waits or some worker is not parked |
| Wakeup.NotifiedRowsCanBeClaimed | internal/queue/postgres.go:50-77 | from every reachable state a notified row can be claimed without waiting for the poll interval |
| Wakeup.TokensWakeOnce | internal/queue/postgres.go:50-57 | a Notify wakes at most one worker |
| Wakeup.PendingRowsAreClaimedOnce | internal/store/raw.go:44-51 | a row stays pending until a worker has claimed it, and no two workers do |
| Migrate.Database.Migrate | internal/store/store.go:41-102 | applies what is missing in order, records exactly what took effect, returns success only with the whole list applied |
| Migrate.MigrationsRunOnceInOrder | internal/store/store.go:41-102 | for any number of concurrent migrators failing anywhere, the schema is a prefix of the list, each file once, and success means the whole list |
| Migrate.EveryMigratorCanSucceed | internal/store/store.go:41-102 | from every reachable state each migrator that has not returned can succeed after the one that holds the lock, with its whole list applied |
| Ingest.Api.Ingest | internal/ingest/ingest.go:108-143 | an unreadable body is 413, non-JSON 400, a failed insert 500; the same body gets the same id; only a new row is stored, and signalled when the caller learns of it |
| Ingest.Api.GetEntity | internal/ingest/ingest.go:164-178 | a stored entity is found under every variant of its key |
| Ingest.OneRowPerHash | internal/store/raw.go:13-31 | over all interleavings, calls that return have the same id if and only if they have the same hash, now and later |
| Ingest.OneNewPerHash | internal/store/raw.go:16-31 | exactly one call inserted the row of a returned id; only it reports a new row, unless its reply is lost |
| Ingest.CallsCanReturn | internal/store/raw.go:13-31 | in every reachable state a call that has not ended returns by its own steps the id of a row with its hash, and reports a new row if and only if it inserted it |

## Left out

- Postgres itself: row locks, unique violations and ON CONFLICT under READ COMMITTED are taken as described at the head of `invoice_tx.dfy`; snapshots, connection pools, 32-bit columns and the float conversion of intervals are not modelled.
- The worker loop and its goroutines: `Worker.Dispatch` is a method; claiming again and again, sleeping after a failed claim and shutdown are steps of the system, shutdown being a lost claim.
- The order of claims in the step system: any claimable row may be next, since SKIP LOCKED may pass over older ones; the oldest-first rule is stated by `Store.Tables.Claim`.
- A COMMIT still in flight when its worker dies: it is the commit followed by the crash, or the crash alone.
- The two statements of an insert in the step system: they are one step there and are taken apart in `ingest.dfy`.
- The model clients: HTTP, prompts, the classification of provider errors and the mock are a parameter that answers, fails transiently or rejects.
- Text beyond ASCII: upper-casing and trimming of other characters.
- Times: layouts and zones; a parser is a parameter and a parsed time is an opaque number.
- Confidence: a real number, so no NaN and no rounding.
- The hash and JSON validity: SHA-256 is a parameter, so deduplication is per hash.
- created_at, updated_at, model and prompt version columns: they are written and never decided on.
- Wake-ups across processes: a producer in another process never signals a worker; there the poll interval alone wakes it, so `Wakeup.NoWakeupIsLost` is about one process.
- The sorted file list of the migrations: taken as given, without repetitions; an older binary may know a shorter prefix of it.
- HTTP routing, reads of single events, failing reads, logging, response encoding, health check, configuration and wiring.
