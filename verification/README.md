# node-taskman in Dafny

A model of the core of node-taskman, a task queue for Node.js.

Producers push strings onto a named **queue**. A **worker** pops them in batches and runs an action on each batch. The worker keeps its settings and status in a record (a hash) in the same store.

Two storage **drivers** implement the store:
- an in-memory one, which keeps JavaScript values as given;
- a Redis one, which keeps record fields as text.

The Redis driver also has a **unique mode**. A set of SHA-256 digests keeps a value from being queued twice. Each unique push or pop is a WATCH … MULTI/EXEC round, and a round may be lost to a concurrent writer.

Two older **poll workers** are also modelled: the single-value one and the batch one. Each runs a started/running flag loop over a driver's fetch.

Everything is a pure function over an immutable `Store` value (named lists, digest sets and records). The effects around it become inputs or outputs:
- Time (milliseconds) and the process id are parameters.
- A timer a step arms is returned as a `Next` value.
- The outcome of each transaction round comes from an environment sequence, `Exec`: committed, aborted by a concurrent write, or failed.

Files and modules:
- `js_values.dfy`, module `JsValues`: the JavaScript value semantics the code relies on. This covers truthiness, `+=` on a possibly undefined field, the `Number` coercion behind `x * 1000` and `i < number`, and the text a Redis server keeps for a number.
- `store.dfy`, module `Store`: the store, digests, and list ends.
- `keys.dfy`, module `Keys`: the key formatters of `lib/keys`.
- `memory_driver.dfy`, `redis_driver.dfy` and `drivers.dfy`: the two drivers and the capability the queue and worker call.
- `queue.dfy`: the queue façade, which chooses plain or unique mode for each call.
- `worker.dfy` and `worker_properties.dfy`: the worker record, the `process` tick machine, and properties across several calls.
- `poll_loop.dfy`, `workerll.dfy` and `poll_worker.dfy`: the poll workers of `lib/workerll.js` and `lib/index.js`.

On a Redis server every number lands in the record as its decimal text. So `loop_sleep` reads back as `"0"`, which is not `=== 0`. After each action, a Redis-backed worker with default options therefore sets SLEEPING and re-arms a zero-length timer. The in-memory worker goes straight on (`WorkerProperties.DefaultLoopSleep`).

The in-memory driver is one object that a queue and a worker may both hold. Its maps and its `initialized` flag are therefore part of the shared `Store` (`memoryReady`), not of the queue or worker value. A queue that has not run `initialize` itself calls the driver's `initialize`, which does nothing once anyone has run it (`Queue.StaleQueueKeepsRecords`, `WorkerProperties.SharedMemoryDriver`).

A transaction round whose EXEC is aborted by the WATCH gets `null` replies from the client instead of an error. The pop callback turns them into a `null` entry. The push callback reads `replies[1]` of `null` and throws, so the push never answers (`RedisDriver.UniquePushAsWritten`). Both code paths are modelled as written and as evidently intended. The queue and worker use the intended ones (see "## Findings").

## Model

| member | source | states |
|---|---|---|
| JsValues.IntTextRoundTrip | lib/driver/redis.js:56-58 | The decimal text of any integer parses back to that integer, as a Redis server reads back a counter it stored as text |
| JsValues.NatTextValue | lib/driver/redis.js:56-58 | The digits written for a natural number evaluate to that number |
| JsValues.AsText | lib/driver/redis.js:67-69 | What a Redis server keeps for a value: always text (or a date's text), and text is kept unchanged |
| JsValues.NumberSurvivesText | lib/worker.js:180 | A number written to a Redis record and multiplied back (`Number(String(n))`) is the same number |
| JsValues.AddNumber | lib/driver/memory.js:28-30 | `+=` on a number field adds; on an undefined field it gives NaN |
| JsValues.Millis | lib/worker.js:161 | A field in seconds times 1000: a number field gives its milliseconds; a missing field gives NaN (no number) |
| JsValues.LoopCount | lib/driver/memory.js:101 | `for (i = 0; i < number; i++)` runs `number` times for a non-negative number and never for undefined |
| JsValues.ParseDate | lib/worker.js:156 | `new Date(v).getTime()` of a written date is its instant, and of a number is that number |
| Keys.FormatList | lib/keys/queue.js:10-12 | The list key is `queue:` followed by exactly the queue name |
| Keys.FormatSet | lib/keys/queue.js:14-16 | The set key is `unique:` followed by exactly the queue name |
| Keys.FormatHash | lib/keys/worker.js:11-13 | The record key starts with `worker:` and ends with the worker name |
| Keys.FormatExamples | lib/keys/worker.js:11-13 | The formatters on `test` and `w1` give `queue:test`, `unique:test` and `worker:test:w1` |
| Keys.FormatListSetInjective | lib/keys/queue.js:10-16 | Distinct queue names never share a list key or a set key |
| Keys.ListKeyIsNeverSetKey | lib/keys/queue.js:10-16 | No list key equals any set key |
| Keys.FormatHashInjectiveInWorker | lib/keys/worker.js:11-13 | Within one queue, distinct worker names give distinct record keys |
| MemoryDriver.Initialize | lib/driver/memory.js:10-19 | The first `initialize` on the driver empties lists, sets and records and sets its flag; once the flag is set, `initialize` leaves the store exactly as it is |
| MemoryDriver.InitializeOnce | lib/driver/memory.js:10-19 | `initialize` is idempotent |
| MemoryDriver.HIncrBy | lib/driver/memory.js:28-34 | The field becomes its old value `+=` the number (NaN when it was undefined); lists and sets are untouched |
| MemoryDriver.HSet | lib/driver/memory.js:43-49 | The field reads back exactly the value written, and the record exists afterwards |
| MemoryDriver.HGetAll | lib/driver/memory.js:56-59 | A record is returned exactly when it was ever written, and each field is the stored one |
| MemoryDriver.LPush | lib/driver/memory.js:67-73 | The data goes in front of the list (created when absent); other lists are unchanged |
| MemoryDriver.RPush | lib/driver/memory.js:81-87 | The data goes at the back of the list (created when absent); other lists are unchanged |
| MemoryDriver.ShiftLoopTakesPrefix | lib/driver/memory.js:101-106 | `number` shifts remove the first min(number, length) items and keep the non-empty ones among them, in order |
| MemoryDriver.PopLoopTakesSuffix | lib/driver/memory.js:124-129 | `number` pops remove the last min(number, length) items and keep the non-empty ones, newest first |
| MemoryDriver.LPop | lib/driver/memory.js:96-110 | At most `number` items come back, none of them empty; other lists, sets and records are unchanged |
| MemoryDriver.RPop | lib/driver/memory.js:119-133 | At most `number` items come back, none of them empty; other lists, sets and records are unchanged |
| MemoryDriver.LPopRemovesFront | lib/driver/memory.js:96-110 | `lpop` leaves the list without its first min(n, length) items and returns the non-empty ones among them, front first |
| MemoryDriver.RPopRemovesBack | lib/driver/memory.js:119-133 | `rpop` leaves the list without its last min(n, length) items and returns the non-empty ones among them, back first |
| MemoryDriver.LLen | lib/driver/memory.js:140-145 | The reply is the list's length (0 for a queue never used), and no list's contents change |
| MemoryDriver.PushThenPopSameEnd | lib/driver/memory.js:67-133 | A non-empty string pushed at either end comes back from a one-item pop at that end, and the list is as before |
| Drivers.Initialize | lib/driver/redis.js:31-38 | Afterwards an in-memory driver is initialized; the first call on it empties the store, a later one (from any holder) changes nothing, and Redis leaves the store alone |
| Drivers.InitializeOnce | lib/driver/memory.js:10-19 | A second `initialize` of the same driver, by the same or another holder, changes nothing |
| Drivers.Stored | lib/driver/redis.js:67-69 | Text and dates read back unchanged from either driver |
| Drivers.HSet | lib/driver/redis.js:67-69 | The field reads back as the driver stores the value; every other field of every record is unchanged |
| Drivers.HIncrBy | lib/driver/redis.js:56-58 | The field is incremented as the driver does it; every other field is unchanged |
| Drivers.HGetAll | lib/driver/redis.js:86-88 | The record read holds exactly the fields stored under the worker's key, and nothing when the key was never written |
| Drivers.Push | lib/driver/redis.js:105-117 | The data lands at the chosen end of the queue's list. Redis replies with the new length, and the memory driver replies nothing |
| Drivers.Pop | lib/driver/redis.js:126-155 | A plain pop never fails and returns at most `number` entries. Redis returns exactly `number` entries, and memory returns only non-empty strings |
| Drivers.PopContents | lib/driver/redis.js:126-155 | Either driver removes the first min(n, length) elements in pop order. Redis answers entry i with the i-th of them, or null past the end; memory answers the non-empty ones among them |
| Drivers.MemoryPopFront | lib/driver/memory.js:96-110 | `lpop` leaves the list without its first min(n, length) elements and returns the non-empty ones in pop order |
| Drivers.MemoryPopBack | lib/driver/memory.js:119-133 | `rpop` leaves the list without its last min(n, length) elements and returns the non-empty ones in pop order, newest first |
| Drivers.LLen | lib/driver/redis.js:162-164 | The reply is the length of the queue's list; no list changes |
| RedisDriver.MakeConfig | lib/driver/redis.js:15-25 | A given non-empty prefix is used; a missing or empty one falls back to `queue:` / `worker:` |
| RedisDriver.DefaultKeyNames | lib/driver/redis.js:297-299 | With default prefixes the keys are `queue:<q>`, `worker:<w>` and `unique_set:queue:<q>`; distinct queues get distinct keys and no set key is a list key |
| RedisDriver.HSet | lib/driver/redis.js:67-69 | The field under the prefixed key holds the text of the value; lists and sets are untouched |
| RedisDriver.HGetAll | lib/driver/redis.js:86-88 | A missing or empty hash reads as null; otherwise the stored record |
| RedisDriver.StoredInteger | lib/driver/redis.js:56-58 | A value HINCRBY reads as an integer is a 64-bit integer whose canonical decimal text is exactly what the field holds |
| RedisDriver.StoredIntegerReadsBack | lib/driver/redis.js:56-58 | A 64-bit integer reads back as itself whether written as a number or as its text; beyond 64 bits neither form is an integer |
| RedisDriver.NonCanonicalTextRefused | lib/driver/redis.js:56-58 | "007" and "-0" are no integers to HINCRBY, although `Number` reads them as 7 and 0 |
| RedisDriver.IntegerOf | lib/driver/redis.js:56-58 | HINCRBY counts a missing field as 0 and otherwise reads it as a stored 64-bit integer or refuses it |
| RedisDriver.HIncrBy | lib/driver/redis.js:56-58 | HINCRBY succeeds exactly when the increment is a 64-bit integer, the field is missing or holds the canonical text of a 64-bit integer, and the sum stays within 64 bits. The field then holds the text of the sum, and lists and sets are unchanged; otherwise it is an error |
| RedisDriver.HIncrByCounts | lib/driver/redis.js:56-58 | A missing field becomes the increment, the text of n becomes the text of n + number, and a sum beyond 64 bits is refused |
| RedisDriver.Push | lib/driver/redis.js:105-117 | LPUSH/RPUSH put the data at that end; the reply is the new length; nothing else changes |
| RedisDriver.PopTimesStore | lib/driver/redis.js:126-133 | `number` pops in series remove the first min(number, length) elements in pop order, and touch only that list |
| RedisDriver.PopTimesItems | lib/driver/redis.js:126-133 | Entry i of the reply is the i-th element in pop order, or null once the list has run dry |
| RedisDriver.Pop | lib/driver/redis.js:142-155 | `lpop`/`rpop` never fail and reply exactly `number` entries; a negative number pops nothing |
| RedisDriver.TransactionalPushAsWritten | lib/driver/redis.js:207-221 | As written: the round never answers exactly when its EXEC was aborted on a value not yet in the set, since `replies[1]` of the `null` reply throws. Any other round behaves as the corrected one |
| RedisDriver.TransactionalPush | lib/driver/redis.js:207-222 | Corrected: a committed round always completes, and a reply of 0 (already a member) writes nothing. A round is lost exactly when it failed, or was aborted before a fresh value was written |
| RedisDriver.UniquePushAsWritten | lib/driver/redis.js:188-198 | As written: with no aborted round, the result is that of the corrected push, and a value already queued answers 0 with no write |
| RedisDriver.UniquePush | lib/driver/redis.js:188-198 | Corrected: a digest already in the set gives reply 0 and no write. Otherwise the data is pushed, its digest joins the set, the reply is the new length, and nothing else changes, however many rounds were lost |
| RedisDriver.UniquePushRetryTransparent | lib/driver/redis.js:188-198 | Corrected: the result under any sequence of aborted or failed rounds equals the uncontended result |
| RedisDriver.AsWrittenAbortedPushThrows | lib/driver/redis.js:217-220 | One aborted EXEC on a fresh value: as written the push never answers, while the corrected push retries and answers 1 |
| RedisDriver.UniquePushKeepsInvariant | lib/driver/redis.js:188-222 | The set stays equal to the digests of the list with no duplicates, and the reply is 0 exactly when the data is already queued |
| RedisDriver.TransactionalPopAsWritten | lib/driver/redis.js:263-280 | As written: only a failed round errors, and an item handed back is the element at the popped end |
| RedisDriver.TransactionalPop | lib/driver/redis.js:263-280 | Corrected: the popped element leaves the list and its own digest leaves the set; a null reply changes nothing; only a failed round errors |
| RedisDriver.AsWrittenAgreesOnBack | lib/driver/redis.js:263-280 | For `rpop` the code as written and the corrected pop coincide |
| RedisDriver.AsWrittenLpopLeavesStaleDigest | lib/driver/redis.js:263-280 | As written, `lpop` on ["a","b"] returns "a" but removes the digest of "b". The invariant breaks: "a" can never be queued again and "b" can be queued twice |
| RedisDriver.UniquePopTimes | lib/driver/redis.js:231-238 | Either round, as written or corrected: without a failed round there is one entry per requested pop; a failed round stops the series and reports an error |
| RedisDriver.UniquePop | lib/driver/redis.js:231-238 | Either round: a unique pop that does not fail replies exactly `number` entries |
| RedisDriver.AsWrittenSeriesAgreesOnBack | lib/driver/redis.js:231-280 | For `rpop` a whole series as written equals the corrected series, under any contention |
| RedisDriver.TransactionalPopKeepsInvariant | lib/driver/redis.js:246-280 | One completed pop round keeps the set equal to the digests of a duplicate-free list |
| RedisDriver.UniquePopKeepsInvariant | lib/driver/redis.js:231-280 | Corrected: a unique pop of any length under any contention keeps the set equal to the digests of a duplicate-free list |
| RedisDriver.CommittedRoundIsPopOne | lib/driver/redis.js:263-279 | Corrected: a committed round on a list with no empty string pops the same element as a plain pop and leaves the same list |
| RedisDriver.UniquePopMatchesPlainPop | lib/driver/redis.js:231-279 | Corrected: when every round commits and no element is the empty string, a unique pop of n does not fail, returns the same entries as n plain pops, and leaves the same list |
| RedisDriver.AsWrittenRpopKeepsInvariant | lib/driver/redis.js:231-280 | As written, an `rpop` series of any length under any contention keeps that invariant |
| RedisDriver.PushPopClearsDigest | lib/driver/redis.js:188-280 | On an empty queue, a unique push then a one-item pop returns the value and clears its digest, so it can be queued again |
| RedisDriver.UniqueLpushScenario | lib/driver/redis.js:188-222 | `lpush` first, second, third, third reply 1, 2, 3, 0 and leave three values newest first with three digests |
| RedisDriver.UniqueLpopScenario | lib/driver/redis.js:231-280 | Corrected: `lpop 4` of those values returns third, second, first, null and leaves list and set empty |
| RedisDriver.AsWrittenLpopScenario | lib/driver/redis.js:231-280 | As written, the same `lpop 4` returns the same items and empties the list, but the digests of second and third stay, so pushing second again answers 0 |
| RedisDriver.UniqueLpushLpopScenario | lib/driver/redis.js:188-280 | Corrected: the whole push-then-pop sequence above, end to end |
| Queue.New | lib/queue.js:15-22 | The queue keeps name and driver, is not initialized, and its options gain `unique: false` only when absent |
| Queue.UniqueDefaultsToFalse | lib/queue.js:15-22 | Without a `unique` option a queue is never in unique mode |
| Queue.Initialize | lib/queue.js:28-36 | A queue calls `driver.initialize` at most once and marks itself initialized. The call changes the store only for an in-memory driver that nobody initialized yet, and then empties it |
| Queue.InitializeReachesDriverOnce | lib/queue.js:28-36 | Two `initialize` calls in a row reach the driver at most once |
| Queue.StaleQueueKeepsRecords | lib/queue.js:28-51 | A queue that has not run `initialize`, over an in-memory driver someone else initialized, pushes without touching any record |
| Queue.Push | lib/queue.js:42-66 | Plain mode always pushes at that end. Unique mode pushes only a value whose digest is absent (and adds the digest), and replies 0 with no write otherwise; an aborted round is retried, as corrected |
| Queue.UniquePropertyIgnored | lib/queue.js:42-100 | The `queue.unique` property a worker assigns has no effect on any push or pop |
| Queue.Pop | lib/queue.js:74-100 | A plain pop never fails, no pop returns more than `number` entries, Redis fills `number` entries unless a unique round failed, and memory returns only non-empty strings. A plain pop leaves the store and answers the entries of the driver's own pop after the queue's `initialize`. Unique mode uses the corrected pop round |
| Queue.LLen | lib/queue.js:106-110 | The reply is the length of the queue's list after initialization |
| Queue.GetNameIsConstructorName | lib/queue.js:116-118 | `getName` is the constructor's name, also after pushes and pops |
| Queue.UniqueModeKeepsInvariant | lib/queue.js:42-100 | Corrected: in unique mode every push and every pop keeps the set equal to the digests of a duplicate-free list |
| Queue.PopOneTakesEnd | lib/queue.js:74-100 | In plain mode a one-item pop of a non-empty list returns the element at that end and removes it |
| Queue.PopContents | lib/queue.js:74-100 | A pop of n leaves the list without its first min(n, length) elements in pop order. A Redis queue answers the i-th of them or null past the end, and an in-memory queue the non-empty ones. In unique mode this holds when every round commits and no element is the empty string |
| Queue.PushThenPopSameEnd | lib/queue.js:42-100 | Plain-mode round trip: push then one-item pop at the same end returns the data and restores the list |
| Queue.PlainRedisScenario | lib/queue.js:42-110 | On Redis, `rpush hello` replies 1 and `lpush world` replies 2; `llen` is then 2, `lpop` gives world, and `rpop` gives hello |
| Queue.PlainMemoryScenario | lib/queue.js:42-110 | The same sequence in memory: pushes reply nothing; `llen` is 2, the pops return world then hello, and the queue ends empty |
| Queue.EmptyQueuePops | lib/queue.js:74-100 | An empty queue on Redis pops one null per requested item |
| Queue.EmptyMemoryQueuePops | lib/queue.js:74-100 | An empty in-memory queue pops nothing at all, whatever number is asked |
| Queue.UniqueDuplicatePush | lib/queue.js:42-51 | With `unique: true` a duplicate push replies 0 and writes nothing. With only the `queue.unique` property set, the duplicate is queued (replies 1, 2) |
| Worker.StatusText | lib/worker.js:49-73 | Every status is written as non-empty text |
| Worker.StatusTextInjective | lib/worker.js:49-73 | Distinct statuses are written as distinct texts |
| Worker.Pick | lib/worker.js:25-33 | A caller's option replaces the default, and a missing one keeps it |
| Worker.New | lib/worker.js:22-41 | The worker keeps the driver it was given. The complete name is `<queue name>:<name>` and the options are the defaults extended by the caller's. The queue's `unique` property is set to the truthiness of the option |
| Worker.NewNamesAndUnique | lib/worker.js:22-41 | The default options are FIFO/0/5/1/1/17280000/false, and the `unique` option never changes the queue's mode |
| Worker.WriteAllFrame | lib/worker.js:94-104 | A series of `hset`s leaves unwritten fields and other records alone |
| Worker.WriteAllReads | lib/worker.js:94-104 | After a series of `hset`s on distinct fields, each field reads back as the driver stores its value |
| Worker.InitialFields | lib/worker.js:94-104 | The settings `initialize` writes name distinct fields |
| Worker.Initialize | lib/worker.js:90-110 | Once only: initialize the worker's own driver and write the nine settings (waiting timeout, loop sleep, pause, per-tick count, action, queue, type, language, pid). The lists are only as the driver's `initialize` leaves them. Later calls change nothing |
| Worker.InitializeOnce | lib/worker.js:90-92 | A second `initialize` is a no-op |
| Worker.MarkStatus | lib/worker.js:206-214 | The status and its change date are written; the counter and start date are kept |
| Worker.MarkWorking | lib/worker.js:206-217 | WORKING also increments `cpt_action` by one |
| Worker.MarkStarted | lib/worker.js:206-222 | STARTED also resets `cpt_action` to 0 and sets the start date to now |
| Worker.SetStatus | lib/worker.js:206-223 | Every status writes status and change date. WORKING counts one more action, STARTED resets the counter and start date, and the others keep both |
| Worker.SetStatusFrame | lib/worker.js:206-223 | `setStatus` writes no field but those four of its own record |
| Worker.SetStatusCounts | lib/worker.js:216-222 | Read as a number on either driver, the counter moves by one on WORKING (stopping at 2^63 - 1 on Redis), to 0 on STARTED, and not at all otherwise |
| Worker.CounterTracksWork | lib/worker.js:216-222 | Across any series of status changes the counter equals the tally of WORKING statuses since the last STARTED |
| Worker.StartedCounterZero | lib/worker.js:219-222 | After STARTED the counter reads 0, whatever it held |
| Worker.CounterAfterWork | lib/worker.js:216-217 | From a counter reading n, k WORKING statuses make it read n + k, capped at 2^63 - 1 on Redis |
| Worker.WorkingTally | lib/worker.js:216-217 | k WORKING statuses add k to a count in memory, and add k up to 2^63 - 1 on Redis |
| Worker.AfterPop | lib/worker.js:173-199 | A pop error schedules nothing. An empty or falsy first entry means WAITING and a timer of `waiting_timeout` seconds; otherwise WORKING and the action on the batch |
| Worker.Process | lib/worker.js:152-199 | A missing record, falsy end date or passed end date closes. PAUSE re-arms after `pause_sleep_time` seconds. Otherwise `data_per_tick` items are popped, from the front exactly when the type is FIFO. The lists afterwards are those the queue pop leaves, and the store and next step are what the pop callback (`AfterPop`) makes of that pop's store and reply |
| Worker.LoopSleepAtCompletion | lib/driver/memory.js:56-59 | The completion callback reads `loop_sleep` from the live in-memory record, which `hset` updates in place, and from the copy `process` read on Redis |
| Worker.ActionDone | lib/worker.js:185-192 | With `loop_sleep` the number 0 at completion the next tick runs at once; otherwise SLEEPING and a timer of `loop_sleep` seconds |
| Worker.ActionSetsLoopSleep | lib/worker.js:185-192 | An action that calls `setLoopSleepTime(t)` before its callback: in memory, t = 0 goes on at once and any other t sets SLEEPING with a timer of t seconds, whatever `process` read; on Redis the step is the one `process`'s copy gives |
| Worker.EndDate | lib/worker.js:117 | The end date `start` computes is `expire` seconds after now, in milliseconds, and unreadable (NaN) when `expire` is not a number |
| Worker.Launch | lib/worker.js:116-131 | The writes `start` makes after initialization leave the lists alone and put the given end date in the record |
| Worker.Start | lib/worker.js:116-131 | After initialization the end date is `expire` seconds after now (unreadable for a NaN expiry). The next tick runs at once and the lists are only as initialization left them |
| Worker.StartWrites | lib/worker.js:116-131 | After `start` the status is STARTED and the counter is 0 |
| Worker.StartFrame | lib/worker.js:116-131 | `start` writes only the status fields, counter, start date and end date on top of `initialize` |
| Worker.StartHoldsSettings | lib/worker.js:116-131 | After `start`, a fresh worker's record, or one that already held them, holds the worker's settings |
| Worker.Pause | lib/worker.js:137-139 | `pause` initializes and sets status PAUSE |
| Worker.PauseFrame | lib/worker.js:137-139 | `pause` writes only the status and its change date |
| Worker.Stop | lib/worker.js:145-147 | `stop` initializes and sets the end date to now |
| Worker.StopFrame | lib/worker.js:145-147 | `stop` writes only the end date |
| Worker.GetCompleteName | lib/worker.js:319-321 | The record's Redis key; the in-memory driver has no such name |
| WorkerProperties.GetInfos | lib/worker.js:327-329 | `getInfos` reads each field as the record holds it |
| WorkerProperties.InitializeWritesDefaults | lib/worker.js:90-110 | Default settings land as numbers in memory and as text on Redis, with type FIFO, language nodejs and the queue's name |
| WorkerProperties.StopThenProcessCloses | lib/worker.js:145-157 | After `stop` at time t, any later `process` closes and pops nothing |
| WorkerProperties.StartRecord | lib/worker.js:116-131 | After a fresh worker's `start`: its settings, status STARTED, and the end date `expire` seconds ahead |
| WorkerProperties.LiveRecordPops | lib/worker.js:152-166 | With a future end date and no PAUSE, `process` pops at the end the type names, as many as `data_per_tick` says |
| WorkerProperties.StoredFifo | lib/worker.js:163 | A stored type reads FIFO exactly when the option was the string FIFO, on either driver |
| WorkerProperties.SettledRecordPops | lib/worker.js:152-166 | A live record holding a worker's settings pops from the front exactly for type FIFO, `dataPerTick` items |
| WorkerProperties.PausedRecordWaits | lib/worker.js:159-161 | A live paused record only re-arms after `pause_sleep_time` seconds: no pop, no write |
| WorkerProperties.PauseSettledRecord | lib/worker.js:137-161 | After `pause`, `process` waits the pause length the worker's settings give |
| WorkerProperties.PauseAfterStart | lib/worker.js:116-139 | `start` then `pause`: status PAUSE, with the end date `start` wrote still in place |
| WorkerProperties.DefaultPauseIsFiveSeconds | lib/worker.js:28 | The default pause reads back as 5000 ms on either driver |
| WorkerProperties.DefaultLoopSleep | lib/worker.js:185-192 | With default options the memory worker continues at once after an action. The Redis worker reads `"0"`, sets SLEEPING and re-arms with delay 0 |
| WorkerProperties.FreshMemoryStart | lib/worker.js:116-131 | A fresh default worker whose memory driver nobody initialized yet, once started, has an empty queue, status STARTED and counter 0 |
| WorkerProperties.FreshMemoryEndDate | lib/worker.js:117 | Its end date is 17280000 seconds after the start |
| WorkerProperties.DefaultExpiry | lib/worker.js:31 | The default expiry is 17280000 seconds in milliseconds |
| WorkerProperties.FreshMemorySettings | lib/worker.js:25-33 | Its record holds type FIFO, one item per tick, a one-second wait and loop sleep 0 |
| WorkerProperties.FreshMemoryWorkerWaits | lib/worker.js:152-182 | Its first `process` pops one item from the front, finds nothing, sets WAITING and re-arms after 1000 ms |
| WorkerProperties.EmptyMemoryQueueWaits | lib/worker.js:173-182 | A live FIFO in-memory record over an empty queue pops one item, sets WAITING and re-arms after `waiting_timeout` seconds |
| WorkerProperties.SharedMemoryDriver | lib/worker.js:90-110 | A worker and a queue holding one in-memory driver: after the worker's `initialize`, a push through the queue leaves the worker's settings in place |
| PollLoop.NumberOption | lib/workerll.js:22-38 | An option replaces its default only when given as a number |
| PollLoop.Configured | lib/workerll.js:13-38 | Constructed stopped and idle. `waitTime` and `sleepTime` given as numbers are used as given; otherwise they are 4000 and 0 |
| PollLoop.Start | lib/workerll.js:67-78 | `start` marks the loop started, and runs at once exactly when it was stopped with no run in flight |
| PollLoop.RunCallback | lib/workerll.js:113-121 | The run ends; the next run follows after `sleepTime` exactly when the loop is started |
| PollLoop.Stop | lib/workerll.js:131-134 | `stop` clears only `started`; a run in flight goes on |
| PollLoop.StartIdempotent | lib/workerll.js:67-78 | A second `start` changes nothing and runs nothing |
| PollLoop.StopEndsLoop | lib/workerll.js:113-134 | After `stop`, the callback of the run in flight schedules nothing |
| PollLoop.RestartWhileRunning | lib/workerll.js:67-134 | `stop` then `start` during a run starts nothing at once; the pending callback carries on after `sleepTime` |
| WorkerLL.New | lib/workerll.js:8-44 | The constructor succeeds exactly when the batch size is a number above 0. The batch size is the numeric `multiNumber` option, else 1, and the defaults are wait 4000, sleep 0 and batch 1 |
| WorkerLL.RunAsWritten | lib/workerll.js:83-108 | As written: a batch starting with null waits `waitTime`, except that with `waitTime` 0 nothing at all is scheduled. Any other batch goes to the callback |
| WorkerLL.Run | lib/workerll.js:83-108 | Corrected: a batch starting with null runs again at once when `waitTime` is 0. Every run schedules something |
| WorkerLL.FeedDelivers | lib/workerll.js:83-121 | A started worker consumes every fetch and hands the callback exactly the batches not starting with null, in order |
| WorkerLL.StallAsWritten | lib/workerll.js:93-99 | As written with `waitTime` 0, the first batch starting with null stops the worker for good. It is left started and running, so neither `start` nor `stop` then `start` runs it again |
| WorkerLL.StallExample | lib/workerll.js:95-98 | A started default worker with `waitTime` 0 over an empty queue: as written nothing follows, and corrected it runs again at once |
| PollWorker.New | lib/index.js:8-33 | Constructed stopped and idle. `waitTime` and `sleepTime` given as numbers are used as given; otherwise, and without options, they are 4000 and 0 |
| PollWorker.Run | lib/index.js:72-91 | A null result waits `waitTime` (even 0); a value goes to the callback |
| PollWorker.FeedDelivers | lib/index.js:72-104 | A started worker consumes every fetch and hands the callback exactly the non-null values, in order |
| PollWorker.StoppedDeliversOnce | lib/index.js:96-117 | Stopped before a run, the worker delivers that run's value and then rests |

## Left out

- Network and client plumbing: creating the Redis client, SELECT of the database, `close`/`quit`, and `hget`. Closing is the `Close` step result of `Worker.Process`.
- Errors of individual record commands are not modelled, so `start`, `pause` and `stop` always succeed. The exceptions are the errors of HINCRBY (`RedisDriver.HIncrBy`) and a failed pop round (a `Halt` step).
- Events (`status change`, `job complete`) and the user callbacks' arguments.
- Timers, `process.nextTick` and `setTimeout` become a `Next` value. Time is a parameter in milliseconds, and `process.pid` is a parameter.
- Concurrency beyond the transaction rounds is left out. Another client's interleaving appears only as an `Exec` outcome, and the corrected unique push retries until a round completes, so the number of lost rounds is finite.
- SHA-256 is the injective constructor `Sha256(text)`. Base64 and the hash function itself are not modelled, and collisions are assumed away.
- Dates: a date's JSON text is kept as its instant (`Date(ms)`), not spelled out. `stop` on Redis stores `String(new Date())`, which keeps whole seconds only; the model stores the instant. Other date text (`ParseDate` of a string) reads as an Invalid Date.
- Numbers are integers: fractional option values, exponent or hex text, and floating point are outside the model.
- JsValues.AddNumber: `+=` on a date field gives NaN in the model, where JavaScript would concatenate text. Only `cpt_action` is ever incremented.
- Drivers.Pop: a plain LPOP/RPOP never reports an error in the model (`!failed`), since errors of single list commands (a lost connection, a key of the wrong type) are not modelled. The contract itself only bounds the reply; the contents are stated by `Drivers.PopContents`.
- RedisDriver.Pop: the same; only a failed unique round can stop a pop series.
- RedisDriver.UniquePush: states the corrected push, which retries an aborted round. As written, such a round throws and the push never answers (`RedisDriver.UniquePushAsWritten`, third row of "## Findings").
- RedisDriver.UniquePushRetryTransparent: holds of the corrected push only. As written, one aborted round on a fresh value ends the push (`RedisDriver.AsWrittenAbortedPushThrows`).
- RedisDriver.UniquePop: its contract holds for either round; the queue runs it with the corrected round. Which elements it returns is stated by `RedisDriver.UniquePopMatchesPlainPop`, and only when every round commits and no element is the empty string. An aborted round answers `null` and pops nothing; an empty-string element is never popped (`if (! data)`). Those cases are stated only one round at a time (`RedisDriver.TransactionalPop`).
- RedisDriver.UniquePopTimes: the same as the line above.
- RedisDriver.UniquePopKeepsInvariant: holds of the corrected round. As written it holds for `rpop` (`RedisDriver.AsWrittenRpopKeepsInvariant`) and fails for `lpop` (`RedisDriver.AsWrittenLpopLeavesStaleDigest`).
- RedisDriver.UniqueLpopScenario: the corrected run. As written the set ends holding the digests of second and third (`RedisDriver.AsWrittenLpopScenario`).
- RedisDriver.UniqueLpushLpopScenario: the corrected run, as in the line above.
- Queue.Pop: in unique mode the model uses the corrected pop round, so the queue's invariant does not hold of the code as written for `lpop` (first row of "## Findings"). The code as written is `RedisDriver.UniquePopTimes` with `asWritten` set. A plain-mode pop never reports an error, as for `Drivers.Pop`. `Queue.PopContents` states which elements a unique pop returns only when every round commits and no element is the empty string.
- Queue.Push: in unique mode the model uses the corrected push, which retries an aborted round; as written such a round throws (third row of "## Findings").
- Queue.UniqueModeKeepsInvariant: states the invariant of the corrected pop and push, for the reasons of the two lines above.
- Worker.Process: pops through `Queue.Pop`, so it inherits the corrected unique rounds.
- Worker.MarkWorking: all of its writes land before the action starts. The in-memory `hset` calls back at once, so in the program the action starts after the status is written but before `status_changedate` and `cpt_action` are written. When the action calls back later, as an asynchronous job does, the record its callback sees is the same either way. An action that calls back synchronously is not modelled: its callback would see `cpt_action` not yet incremented, and the writes that follow would overwrite its change date.
- Worker.LoopSleepAtCompletion: when the in-memory record is gone at completion, it reads the copy `process` read, as the program does. A record that a reset of the in-memory driver replaces during the action is read as the new record, while the program keeps reading the old object.
- Worker.New: the worker's driver and its queue's driver are separate values. When both are in-memory they are taken to be one driver object, sharing one `Store`; two distinct in-memory driver objects are not modelled. A Redis driver's connection is not modelled either. A worker and a queue on different backends (one in-memory, one Redis) also share the one `Store`, so the worker's first in-memory `initialize` would empty the Redis lists, sets and records too, which the program does not do. The model promises nothing for such a mixed pair.
- Drivers.Initialize: the in-memory driver's first `initialize` empties the whole `Store`, because the model keeps one key space for both backends. It matches the program only when every holder of the store uses the in-memory driver (see the Worker.New line above).
- JsValues.ParseInt: only an optional minus and decimal digits read as a number. Other numeric spellings read as NaN.
- The poll workers' `initialize` (a deferred that waits for the driver) is not modelled. Their drivers' `getNextValueFromQueue`/`getNextValuesFromQueue` are not part of this model either; each fetch result is a parameter of the run.
- WorkerLL.New: the constructor's `throw new Exception(...)` is an `Error` result. `Exception` is not defined in JavaScript, so the actual throw is a ReferenceError, but it throws either way.
- The other files of the repository (`lib/taskman.js`, `lib/redis.js`, `lib/queue/`, `lib/parsers/`, `lib/util.js`, the CLI) are outside the modelled core.

## Findings

| source | as written | input that shows it | evidently intended | confidence | as-written member | corrected member |
|---|---|---|---|---|---|---|
| lib/driver/redis.js:263-280 | The transactional pop reads `LINDEX key -1` (the tail) and removes that element's digest, whichever end it pops | A unique queue ["a","b"] with digests {a, b}, then `lpop 1`: it returns "a" but removes the digest of "b". Then "a" can never be queued again and "b" can be queued twice | Read the element at the popped end (`LINDEX key 0` for `lpop`) and remove its digest | high; not executed | RedisDriver.TransactionalPopAsWritten, RedisDriver.AsWrittenLpopLeavesStaleDigest, RedisDriver.AsWrittenLpopScenario | RedisDriver.TransactionalPop, RedisDriver.TransactionalPopKeepsInvariant, RedisDriver.UniquePopKeepsInvariant |
| lib/workerll.js:95-98 | With `waitTime` 0 and an empty batch, `k.run.bind(k); return;` creates a bound function and never calls it | A started batch worker built with `{waitTime: 0}` over an empty queue: nothing is scheduled, and `running` stays true, so `start` (even after `stop`) never runs it again | Call `k.run()` so the worker polls again at once | high; not executed | WorkerLL.RunAsWritten, WorkerLL.StallAsWritten | WorkerLL.Run, WorkerLL.FeedDelivers |
| lib/driver/redis.js:217-220 | When the WATCH aborts the EXEC, the client answers `null` replies with no error, and `replies[1]` of `null` throws a TypeError inside the callback. `uniquePush` never calls back and never retries | A unique push of a value not yet queued while another client writes the watched list between WATCH and EXEC | Treat the aborted round like an error, which line 195 already retries | medium; not executed | RedisDriver.UniquePushAsWritten, RedisDriver.AsWrittenAbortedPushThrows | RedisDriver.TransactionalPush, RedisDriver.UniquePushRetryTransparent |
