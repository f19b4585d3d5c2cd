# Verification of pg-inventory's extractor

A Dafny model of the two hardest parts of the extractor, and proofs about it:

1. **The per-database connection coordinator and the fan-out that runs on it.**
   Any number of RPCs share one coordinator: a mutex-protected, lazily filled map
   from database name to a one-slot channel. Each RPC starts one worker per
   database; a worker acquires its permit, defers the release, opens a pool,
   queries, reads rows and unwinds; a collector receives one message per database.
2. **The table listing.** The `queryTables` SQL (grouped common table expressions,
   outer joins, ordered and unordered aggregates), the Go row loop that decodes its
   JSON documents, and the conversion to the gRPC response.

`dafny verify dfyconfig.toml` checks the whole project.

## How it is built

| file | content |
|---|---|
| `Coordinator.dfy` | `ConnectionCoordinator` as a class with the source's fields, each method proved against the value type `Coord` |
| `Workers.dfy` | what a worker returns, and the worker as a method with an explicit stack of deferred calls |
| `Gathering.dfy`, `FanOut.dfy` | `forEachDatabase` as a method under an arbitrary scheduler, and the laws of its aggregate |
| `Machine.dfy` | the server as a step machine: mutex, map, channels, workers, buffers, collectors, contexts |
| `Invariant.dfy` | the inductive invariant and its preservation by every step |
| `Safety.dfy` | mutual exclusion, token conservation, stable channels, refinement of a lock table, permits balanced on every path, message accounting |
| `Cancellation.dfy` | a worker is refused only at its select and only by its own RPC's context |
| `Waiting.dfy` | exactly where a goroutine waits, and which case of the select can run |
| `Progress.dfy` | deadlock-freedom, the decreasing measure, the end of every maximal run |
| `Outcomes.dfy` | what an RPC of the machine returns, whatever the interleaving |
| `Sql.dfy`, `Text.dfy`, `Catalog.dfy` | relational operators, the order of type `name` and `LIKE`, catalog relations with their keys |
| `TablesQuery.dfy` | the query, operator by operator |
| `TablesSpec.dfy` | what it is meant to return, said directly per table |
| `KeyVectors.dfy`, `TablesProof.dfy`, `TablesTheorem.dfy` | the proof that the two agree |
| `TableRows.dfy`, `Server.dfy` | the row loop and `tableToProto`, as methods with the loops of the source |
| `EndToEnd.dfy` | catalog rows to response, across databases and interleavings |
| `Response.dfy` | the response read against the catalog rows themselves, with every condition written out |

The coordinator operations (`Intern`, `Lookup`, `Send`, `Drain`) and the conclusion
of a collector (`Conclude`) are defined once. The class and method forms are proved
against them and the machine steps are made of them.

A worker's environment is a `Script`: whether the pool connects, whether the query
starts, what each row scan gives, whether iteration ends cleanly. A run is taken for
arbitrary scripts, so a query that fails because its context ended is one of them.
The context flag itself is part of the machine state and may be raised at any time.

An `Executor` is whatever order PostgreSQL feeds rows to an aggregate or a sort in.
It may permute every intermediate relation and nothing else; all results about the
query hold for every executor. Aggregates without `ORDER BY` are compared as bags.

## What the code does where its comments say more

- The coordinator's comment promises at most one connection per database. What the
  code gives is at most one coordinator-guarded *pool* per database; the connections
  inside a pool, and the default pool, are not governed by it.
- The schema filter is described as selecting user schemas. In `LIKE`, `_` matches
  any character, so `pg_temp_%` also drops a user schema such as `pgxtempx`.
  `TablesTheorem.UserSchemaExactly` and `TablesTheorem.FilterAgainstTemporary` give
  the exact set.

## Model

| member | source | states |
|---|---|---|
| Coordinator.ConnectionCoordinator.constructor | internal/extractor/store/coordinator.go:14-18 | a new coordinator has no channel |
| Coordinator.ConnectionCoordinator.Resolve | internal/extractor/store/coordinator.go:39-45 | the critical section interns the name and returns the channel the map holds for it |
| Coordinator.ConnectionCoordinator.SelectOn | internal/extractor/store/coordinator.go:47-53 | the select: either ready case may run, a send adds one token, a done context changes nothing |
| Coordinator.ConnectionCoordinator.Acquire | internal/extractor/store/coordinator.go:38-54 | granted only with room and then one token more; cancelled only when the context is done and then no token; blocked only when neither; whole new state given |
| Coordinator.ConnectionCoordinator.Release | internal/extractor/store/coordinator.go:64-72 | takes one token out of the name's channel, blocks on an empty one, does nothing for an unknown name |
| Workers.FetchAccountsForEveryRow | internal/extractor/store/store.go:197-231 | a worker succeeds exactly when connection, query, every scan and iteration work, and then holds every row once, in order, tagged with its database; otherwise it names the first thing that went wrong, each failure with its exact condition |
| Workers.ScanRows | internal/extractor/store/store.go:217-230 | the row loop computes that result |
| Workers.RunDeferred | internal/extractor/store/store.go:202-215 | deferred calls run last-in first-out and free exactly one permit |
| Workers.ListForDatabase | internal/extractor/store/store.go:197-231 | a worker run alone returns its fetch, hands every token back on every path, and its effects nest |
| Workers.PoolClosesBeforePermitFrees | internal/extractor/store/store.go:202-208 | for every script the effects nest: the permit is taken first and freed last, a pool is opened exactly when the connection succeeds and closed immediately before the permit is freed, rows are opened exactly when the query starts and closed before the pool; the whole trace is given |
| FanOut.ForEachDatabase | internal/extractor/store/store.go:413-442 | under any scheduler the collector receives exactly one message per database and returns what that log concludes |
| FanOut.LetWorkersSend | internal/extractor/store/store.go:414-423 | whichever workers send next, every message sent is one worker's own result, none is lost or sent twice, and the buffer made for one message per database never overflows |
| FanOut.AllOrNothing | internal/extractor/store/store.go:428-441 | aggregate if and only if no worker failed; otherwise the count is the number of failed workers and each reason is reported once for each worker that failed for it |
| FanOut.ScheduleOnlyReorders | internal/extractor/store/store.go:413-441 | any schedule gives the items of the sequential run, up to order |
| FanOut.AnyTwoSchedulesArePermutations | internal/extractor/store/store.go:413-441 | any two schedules give permutations of each other |
| FanOut.WholeBlocks | internal/extractor/store/store.go:428-434 | the aggregate is one contiguous block per job, in arrival order, row order kept inside |
| Invariant.StepKeepsInv | internal/extractor/store/coordinator.go:38-72 | every step of every goroutine and of the environment keeps the global invariant |
| Invariant.RunInv | internal/extractor/store/coordinator.go:38-72 | the invariant holds in every state of every run, for any number of RPCs |
| Safety.OnePermitPerDatabase | internal/extractor/store/coordinator.go:8-12 | at most one worker over all RPCs and listings holds a database's permit |
| Safety.OnePoolPerDatabase | internal/extractor/store/store.go:198-208 | at most one coordinator-guarded pool is open per database in every reachable state |
| Safety.PoolOpenInsidePermit | internal/extractor/store/store.go:198-230 | a worker's pool is open exactly while it queries, reads or has the pool's close still to run, and all that time it holds its permit |
| Safety.TokensConserved | internal/extractor/store/coordinator.go:47-71 | occupancy equals the number of workers between send and drain, never above one; the receive in Release always finds the worker's own token |
| Safety.ChannelsAreStable | internal/extractor/store/coordinator.go:39-70 | the map only grows along a run, and a reference used after unlock is still the map's entry |
| Safety.StepRefines | internal/extractor/store/coordinator.go:38-72 | a send is an atomic take of a free name, a drain an atomic free by its owner, every other step a stutter of the lock table |
| Safety.RunRefines | internal/extractor/store/coordinator.go:38-72 | every run of the machine is, state by state, a run of the lock table from empty |
| Safety.CountersCount | internal/extractor/store/coordinator.go:47-71 | the history counters of a worker are the numbers of its sends and drains along the run |
| Safety.PermitsBalance | internal/extractor/store/store.go:198-213 | a finished worker was refused exactly when it never sent a token; otherwise it sent one and drained one, whatever failed later |
| Safety.ResultsAccounted | internal/extractor/store/store.go:414-435 | buffered messages are sent minus received and leave room for every message to come; at return all have sent and the buffer is empty |
| Cancellation.TurnedAwayIffRefused | internal/extractor/store/coordinator.go:47-53 | in every run a worker ends without a permit exactly when it took the context case of its select while its RPC's context was done |
| Cancellation.RefusedByItsOwnContext | internal/extractor/store/coordinator.go:47-53 | a refused worker's own RPC has a done context, so ending one RPC's context never fails another's worker |
| Waiting.ContextCaseCanRun | internal/extractor/store/coordinator.go:50-52 | a worker at the select whose context is done can leave it at once, whoever holds the permit, and only that worker changes |
| Waiting.SendCaseCanRun | internal/extractor/store/coordinator.go:47-49 | a worker whose database nobody holds can send at once, whatever other databases do and even if its context is done |
| Waiting.SelectExactly | internal/extractor/store/coordinator.go:47-53 | the context case can run if and only if the context is done, the send case if and only if no worker of any RPC holds the database |
| Waiting.WaitsExactly | internal/extractor/store/coordinator.go:38-72 | a started worker waits for the mutex or at its select, and there only while its database is held and its context alive; nowhere else |
| Waiting.CollectorWaitsExactly | internal/extractor/store/store.go:416-435 | a collector waits only for a message, not to start goroutines and not once it has all |
| Waiting.ContextCanEnd | internal/extractor/store/coordinator.go:50 | any RPC's context may end in any state, and that alone changes nothing else |
| Progress.CriticalCanMove | internal/extractor/store/coordinator.go:39-45 | no goroutine waits while it holds the mutex |
| Progress.HolderCanMove | internal/extractor/store/store.go:198-230 | a permit holder never waits for a permit, a token or buffer space |
| Progress.DeadlockFree | internal/extractor/store/store.go:413-435 | until everything has finished, some goroutine can run without help from the environment |
| Progress.EveryStepDecreases | internal/extractor/store/store.go:416-435 | every step lowers an explicit natural-number measure |
| Progress.RunsAreBounded | internal/extractor/store/store.go:416-435 | no run has more steps than the measure of its first state |
| Progress.MaximalRunsFinish | internal/extractor/store/store.go:416-442 | a run is stuck if and only if it has finished, and then mutex, permits, pools, buffers and semaphores are all free or empty |
| Progress.EveryRunCanFinish | internal/extractor/store/store.go:416-442 | every run extends to that end by steps of the goroutines alone: no context is ended and nobody gives up on the way |
| Outcomes.RpcAllOrNothing | internal/extractor/store/store.go:413-441 | an RPC in any run returns an aggregate if and only if no worker took the context case of its select and every query ran to its end; otherwise the failure count is exact |
| Outcomes.RpcReportsEveryReason | internal/extractor/store/store.go:431-438 | a failed RPC reports a refused acquire for each refused worker and, for each other failed worker, what first went wrong in its own fetch |
| Outcomes.UncancelledRpcSucceeds | internal/extractor/store/store.go:413-441 | in every run an RPC whose own context is not done and whose queries run to their end returns its aggregate, whatever happens to other RPCs |
| Outcomes.GoroutinesAloneSucceed | internal/extractor/store/store.go:413-441 | from every state of every run the goroutines alone bring every such RPC to its aggregate |
| Outcomes.EveryRowAccountedFor | internal/extractor/store/store.go:116-179 | a successful answer is, as a bag, every row of every database with its own database, and nothing else |
| Outcomes.RunsOnlyReorder | internal/extractor/store/store.go:413-441 | two runs that answer the same RPC successfully answer with permutations |
| Outcomes.AnswerIsWholeBlocks | internal/extractor/store/store.go:428-434 | in any run a successful answer is whole worker results, contiguous, in some permutation of the database list |
| KeyVectors.ArrayAggIsNamedColumns | internal/extractor/store/tables.go:97-107 | the correlated ordered aggregate is the key vector's columns in key order, NULL when there are none |
| KeyVectors.NamesJoin | internal/extractor/store/tables.go:28-65 | unnest, join, grouping and outer join give each index one row with its own columns in key order, or none |
| KeyVectors.NamedColumnsFilterExpressions | internal/extractor/store/tables.go:32-36 | the column list is the key vector without expression slots, in key order |
| KeyVectors.NullExactlyWithoutColumns | internal/extractor/store/tables.go:65 | it is NULL exactly when no slot names a column |
| TablesProof.IndexDataIsEntries | internal/extractor/store/tables.go:38-76 | no join of `index_data` loses or repeats an index |
| TablesProof.EntriesOfTable | internal/extractor/store/tables.go:66-83 | for a listed table the grouped rows are exactly its indexes, filtered early or not |
| TablesProof.ConstraintsOfTable | internal/extractor/store/tables.go:84-114 | the grouped constraints of a table are exactly its listed constraints |
| TablesProof.IneligibleGivesNothing | internal/extractor/store/tables.go:160-168 | a class that is not eligible contributes no row, whatever is grouped under its oid |
| TablesTheorem.QueryTablesIsCorrect | internal/extractor/store/tables.go:28-169 | exactly one row per eligible table, strictly increasing by schema and name, each with exactly its columns, indexes, constraints and parents |
| TablesTheorem.IndexColumnsEmitted | internal/extractor/store/tables.go:28-65 | every index of a listed table is emitted with it, its columns in key order without expression slots, NULL exactly when there are none |
| TablesTheorem.EarlyFilterIsLossless | internal/extractor/store/tables.go:66-75 | with or without the early filter, under any executors, the result is the same up to the order of unordered aggregates |
| TablesTheorem.UserSchemaExactly | internal/extractor/store/tables.go:166-168 | exactly which schema names pass the filter |
| TablesTheorem.FilterAgainstTemporary | internal/extractor/store/tables.go:67-75 | no temporary schema passes; another schema passes if and only if its name does not look temporary, with a schema that is dropped |
| Text.PairLeMeans | internal/extractor/store/tables.go:169 | the sort order compares schemas first and names within one schema |
| Text.TextLeIsDictionaryOrder | internal/extractor/store/tables.go:169 | the output order compares names at their first difference |
| TableRows.DecodeRow | internal/extractor/store/tables.go:194-246 | a row becomes a table, NULL documents and JSON nulls leaving zero values |
| TableRows.ScanTables | internal/extractor/store/tables.go:192-256 | on the rows as scanned: success exactly when every row is good and the iteration ended cleanly, then one entry under the database's name with the decoded table of every row in order; otherwise the first bad row, or the broken iteration |
| TableRows.ListTablesForDatabase | internal/extractor/store/tables.go:172-257 | the fifth worker follows the same permit protocol around that loop: refused by a done context, or that answer on every script, failed connection and query included |
| Server.TableToProto | internal/extractor/server.go:167-239 | the append loops convert every element in order |
| Server.ListTables | internal/extractor/server.go:144-165 | an error of the store is an error of the RPC; otherwise one entry per database, in order |
| EndToEnd.TableCarried | internal/extractor/server.go:167-239 | the response's table says about a class exactly what the catalog says |
| EndToEnd.DatabaseCarried | internal/extractor/store/tables.go:193-256 | a database's listing is its eligible tables, each once, strictly increasing by schema and name |
| EndToEnd.ListTablesEndToEnd | internal/extractor/server.go:144-165 | in every run a successful ListTables has one entry per database in arrival order, each with its own name and exactly its own tables |
| Response.ListTablesSucceedsExactly | internal/extractor/store/tables.go:172-257 | in every run ListTables succeeds if and only if no worker was refused and every database delivered only good rows and ended its iteration cleanly |
| Response.ResponseOrder | internal/extractor/store/tables.go:169 | in every run, in every database's entry, schemas rise and within a schema names rise strictly |
| Response.UserTableListed | internal/extractor/store/tables.go:160-168 | every ordinary or partitioned table whose schema passes the filter is in the listing under its schema and name |
| Response.ListedIsUserTable | internal/extractor/store/tables.go:160-168 | nothing else is listed |
| Response.ColumnsExactly | internal/extractor/store/tables.go:140-154 | the columns are the attributes with positive number that are not dropped, by number, each with its four fields |
| Response.ConstraintsExactly | internal/extractor/store/tables.go:84-114 | the constraints are those of the five kinds on the table, each as often as in the catalog, with kind, columns, definition, and a foreign table exactly for a foreign key with non-empty `regclass` text |
| Response.NoConstraintIsLost | internal/extractor/store/tables.go:112 | every foreign key and every other constraint of a listed kind has its entry in the response |
| Response.NoConstraintIsInvented | internal/extractor/server.go:192-208 | every constraint in the response is one of the catalog's, of a listed kind |
| Response.IndexesExactly | internal/extractor/store/tables.go:38-83 | the indexes are those on the table, each once, with all eleven fields; inherited exactly when `pg_inherits` has the index as a child |
| Response.ParentsExactly | internal/extractor/store/tables.go:115-127 | the parents are the tables inherited from, by `inhseqno` |

## Left out

- ListDatabases: it does not check for an iteration error, so its list is taken as the input; its own failure makes every listing fail before the fan-out.
- Connections inside one pool and the default pool: the coordinator does not govern them.
- Fairness among waiters: the code promises no order; only deadlock-freedom and bounded runs are stated.
- Release by a caller without the permit: `ConnectionCoordinator.Release` says what happens, the machine only has workers that follow the protocol.
- Coordinator.ConnectionCoordinator.Acquire: the class runs one call at a time, so a call that would wait returns `AcquireBlocked`; waiting and interleaving are in the machine.
- TableRows.DecodeRow: JSON text, number ranges of the Go fields and parse errors are not modelled; a failed scan or unmarshal is a `Bad` row of the script.
- Values PostgreSQL computes (`format_type`, `pg_get_indexdef`, `regclass` text, sizes, owners): uninterpreted functions; `reltuples::bigint` is taken as the stored integer.
- Catalog snapshots: one query reads one fixed catalog.
- The SQL of the four flat listings: their rows are arbitrary; only the worker around them is modelled.
- Error texts: failures are kinds, and the aggregate error is its count, its total and its list.
- Pointer aliasing of the Go slices and structs: tables and responses are values.
- Backups, server information, configuration, connection strings and process start-up.
