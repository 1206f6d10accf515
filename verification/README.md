# sbs — simple batch scheduler, modelled in Dafny

This project models the core of **sbs** (so5/sbs), a small Node.js batch
scheduler. Users submit jobs with `qsub`. The scheduler runs at most
`maxConcurrent` of them at a time, retrying failed jobs according to
`retry`, `maxRetry` and `retryLater`. Callers can query a job (`qstat`),
read its result (`getResult`), wait for it (`qwait`), delete it while it
waits (`qdel`), and clear everything (`clear`, `clearResults`).

The model is functional: immutable states and pure transitions.

- `Fifo` is the job queue of `lib/fifo.js`. It holds `(id, element)` entries; a normal enqueue goes to the tail and an urgent one to the head.
- `Sanitize` is `sanitizeNumber`. `JsValues` is the part of JavaScript's value universe the scheduler can observe: `typeof`, truthiness and own properties.
- `OrderedMap` is a JavaScript `Map`, with keys in insertion order. It is the wait registry.
- `Scheduler` is class `SBS` of `lib/index.js`. Its state record holds:
  - the settings;
  - the queue;
  - `numRunning` and the running ids;
  - the finished and failed result maps;
  - the wait registry;
  - the "dispatch enabled" flag that `start`/`stop` toggle;
  - a waiter ticket counter.
- `_dispatch` is split into two transitions:
  - `Dispatch` runs from the guard to the call of the executor.
  - `Complete` runs from the executor settling through the `finally` block and the "done" handler.

  A `Flight` record keeps what `_dispatch` resolved for the running job: the job, the retry policy, the effective maxRetry, the retryDelay and retryLater. The executor's outcome and the retry predicate's answer are inputs to `Complete`.
- `Step` / `Steps` describe every possible interleaving of API calls, "go" signals and executor settlements.
- `SchedulerInvariants` proves that every step keeps the invariant:
  - `numRunning == |running| <= maxConcurrent`;
  - each id sits in at most one of queue, running, finished and failed;
  - queued ids are distinct;
  - every queued or running job has a callable executor.
- `SchedulerProperties` relates operations to `qstat` and proves the retry limit. With `retry: true` and `maxRetry: K`, an always-failing job runs K + 1 times.
- `SchedulerProperties` also shows where a retried job goes. A retried job returns to the **head** of the queue, ahead of jobs already waiting, unless `retryLater` is truthy. The JSDoc at lib/index.js:42 and :119 documents that a truthy `retryLater` sends a retried job to the bottom of the queue, and the code calls `enqueue(job, !retryLater, id)` (lib/index.js:413).
- `SchedulerQuirks` covers two consequences of the code that its own comments and names do not lead a caller to expect. The model follows the code in each, and the lemmas show the consequence:
  1. The comment on the wait registry (lib/index.js:70-72) describes each waiter record as carrying a `keepResultFlag`. `qwait` stores it under the name `keepResult` (lib/index.js:245), but the "done" handler asks the records for `keepResults` (lib/index.js:98-100), which none has. So a job's settlement blanks its stored result unless `noAutoClear` is set, even for waiters that passed a truthy `keepResult`.
  2. `clear` skips the waiters of running ids when it resolves waiters with "removed", and then empties the whole registry (lib/index.js:320-327). When such a job later settles, the "done" handler finds no entry and returns (lib/index.js:87-89). So the waiters of a job that was running during `clear` never settle.
- One more error path is modelled as its own transition, `Abandon`. If the retry predicate throws or rejects (lib/index.js:402), nothing is recorded. The `finally` block still releases the id, and the "done" handler returns because the id is in no store. The job is lost, and its waiters stay registered without being told.

The one place where the model corrects the code is the string branch of
`sanitizeNumber`; it is listed under Findings. The other abstractions are
listed under Left out.

## Model

| member | source | states |
|---|---|---|
| Fifo.FreshId | lib/fifo.js:10 | a generated id differs from every id issued before (uuid as a fresh-id oracle) |
| Fifo.Empty | lib/fifo.js:5-7 | a new queue holds no entry, dequeues nothing, carries no id and has issued none |
| Fifo.Enqueue | lib/fifo.js:9-18 | returns the caller's id when one is given, else an id never issued; exactly one entry is added; urgent: the new entry is the head and the old queue follows unchanged; otherwise the old queue is untouched and the new entry is last |
| Fifo.Dequeue | lib/fifo.js:20-23 | on an empty queue: nothing (null, null) and no change; otherwise the head's (element, id), leaving exactly the tail |
| Fifo.FindIndex | lib/fifo.js:26-28 | the first position carrying the id, and -1 exactly when no entry carries it |
| Fifo.Has | lib/fifo.js:44-51 | true iff some entry carries the id |
| Fifo.Del | lib/fifo.js:25-34 | returns what `has(id)` returned before; when true, removes exactly the first matching entry and keeps the others in order; when false, the queue is unchanged |
| Fifo.Clear | lib/fifo.js:36-38 | afterwards the size is 0 and a dequeue yields nothing |
| Fifo.Size | lib/fifo.js:40-42 | the number of entries: zero exactly when a dequeue yields nothing and no id is queued |
| Fifo.EnqueueIdSet | lib/fifo.js:9-18 | the ids after an enqueue are the ids before plus the returned id; ids stay distinct when that id was not queued |
| Fifo.DequeueIdSet | lib/fifo.js:20-23 | with distinct ids, a dequeue removes exactly the head's id and keeps the rest distinct |
| Fifo.DelIdSet | lib/fifo.js:25-34 | with distinct ids, `del` removes exactly that id and keeps the rest distinct |
| Fifo.DistinctIdCount | lib/fifo.js:40-42 | with distinct ids, `size()` equals the number of ids queued |
| Fifo.UrgentIsNextOut | lib/fifo.js:12-13 | an urgent entry is the next one dequeued, and dequeuing it restores the queue |
| Fifo.UrgentIsLifo | lib/fifo.js:12-13 | two urgent entries come out in reverse order of insertion, each with the id its enqueue issued, and the two dequeues leave the queue as it was |
| Fifo.UrgentPushesReverse | lib/fifo.js:9-16 | after any number of urgent enqueues the queue holds those elements newest first, ahead of the old queue in its old order |
| Fifo.TailEntryWaitsItsTurn | lib/fifo.js:14-16 | a non-urgent entry does not overtake: the old head comes out first and the new entry is last of the rest |
| Fifo.GeneratedIdsDiffer | lib/fifo.js:10 | three generated ids are pairwise different |
| Fifo.RunKeepsOrder | lib/fifo.js:9-23 | under tail enqueues and dequeues, what came out followed by what is still queued is the initial queue followed by everything pushed, in order |
| Fifo.DequeueScenario | test/fifo.js:48-74 | a, b, c in; a and b out; d in; c, d and then nothing come out |
| OrderedMap.Set | lib/index.js:246 | the registry stays a map; the key set gains the key, which now maps to the value; other keys keep theirs; a present key keeps its position and a new one goes last |
| OrderedMap.Delete | lib/index.js:102 | the key set loses the key; other keys keep their values and their order (the entry at the key's position is cut out); deleting an absent key changes nothing |
| OrderedMap.Clear | lib/index.js:327 | the registry is emptied |
| Sanitize.SanitizeNumber | lib/index.js:22-33 | a number gives its floor when the floor is in range, otherwise the default; NaN, every value that is neither a number nor a string, and a string `parseFloat` cannot read give the default; the result is always the default or an integer in range |
| Sanitize.SanitizeNumberAsWritten | lib/index.js:22-33 | a string that parseFloat reads gives that float with no floor and no range check; every other input agrees with the corrected definition |
| Sanitize.SanitizedSettingInRange | lib/index.js:56 | with a default that is in range, the setting is always an integer in range (maxConcurrent is at least 1) |
| Sanitize.NumericStringLikeNumber | lib/index.js:24-26 | in the corrected definition, a numeric string is treated like the number parseFloat reads from it |
| Sanitize.MaxConcurrentExamples | test/sbs.js:41-61 | maxConcurrent 10.3 gives 10 and 21 gives 21; 0, -13, NaN, false, {} and "hoge" give 1 |
| Sanitize.MaxRetryExamples | test/sbs.js:63-81 | maxRetry 10.3 gives 10; 0, -13 and "hoge" give null |
| Sanitize.StringOptionEscapesMinimum | lib/index.js:24-26 | as written, `maxConcurrent: "0"` gives 0, below the minimum; the corrected definition gives the default 1 |
| Scheduler.PolicyOf | lib/index.js:376-382 | a function retry setting is asked about each error; any other value answers every error with its own truthiness, as the `() => retryFlag` wrapper does |
| Scheduler.Init | lib/index.js:54-84 | maxConcurrent, maxRetry, retryDelay and interval are their options passed through `sanitizeNumber` with minimum 1 and defaults 1, null, 0, 0, so maxConcurrent is at least 1 and maxRetry is null or at least 1; the default executor is `opt.exec` iff that is a function; retry, retryLater and noAutoClear are kept as given; name is `opt.name` if a string, else empty; dispatching is on iff `noAutoStart` is falsy; queue, running set, result maps and registry start empty |
| Scheduler.SanitizeWithDefault | lib/index.js:61 | a delay setting is its default or at least 1, and is what `sanitizeNumber` gives |
| Scheduler.Qstat | lib/index.js:184-199 | null exactly for a non-string id; failed, waiting, running and finished each hold exactly when that store has the id and no earlier one in the order failed > waiting > running > finished does |
| Scheduler.GetResult | lib/index.js:206-222 | returns the failed slot when the key exists, else the finished slot, else null with no change; only the slot read can change, to null exactly when neither noAutoClear nor keepResult is truthy; both key sets stay |
| Scheduler.Size | lib/index.js:298-300 | the queue length: when zero no id reads as waiting, otherwise the head's id reads as waiting (or failed, which qstat checks first) |
| Scheduler.GetRunning | lib/index.js:306-308 | every returned id reads as running, or as failed or waiting, which qstat checks before running; never finished or removed |
| Scheduler.Normalize | lib/index.js:125-147 | a function is stored as `{exec}` and any other value with neither own `exec` nor own `args` as `{args}`; an object with either keeps its own keys; the stored job always has an own `exec` or `args` and never the caller's `retryCount`; `exec` is the function itself or the job's own `exec`; `args` is the job's own `args` or the whole value; an object that names `exec` or `args` keeps all its other properties |
| Scheduler.NormalizeRunnable | lib/index.js:131-147 | the stored job has a callable executor exactly when `qsub` does not decline the value |
| Scheduler.Qsub | lib/index.js:130-156 | a null or undefined job throws a TypeError; it is declined (null) exactly when no executor can be found or the job's own `exec` is not a function, and then nothing changes; otherwise one normalised job with retryCount 0 is enqueued under a fresh id and returned |
| Scheduler.Qdel | lib/index.js:164-174 | true iff the id was queued; then the id leaves the queue, its waiters resolve with "removed" in order, and its registry entry is deleted while every other id keeps its waiters and its place in the registry order; on false nothing changes |
| Scheduler.Qwait | lib/index.js:228-248 | failed: rejects at once with the result, read through getResult; finished: resolves likewise; removed: resolves "removed" with no change; waiting, running or a non-string id: appends one waiter under that key (an existing entry keeps its place, a new key goes last) and leaves other keys' waiters and order alone |
| Scheduler.OnDone | lib/index.js:85-108 | nothing happens unless the id has waiters and is now finished or failed; then the result is read once (blanked unless noAutoClear), the entry is cut out with the other entries keeping their order, and every waiter is resolved (finished) or rejected (failed) with it; other registry entries and both key sets stay |
| Scheduler.NoWaiterKeepsResults | lib/index.js:98-100 | no registered waiter ever has a truthy `keepResults`, whatever keepResult its caller passed |
| Scheduler.Clear | lib/index.js:314-328 | dispatching stops; queue, result maps and registry are emptied; running jobs are untouched; the settlements are those of the registry entries of non-running ids |
| Scheduler.ClearResults | lib/index.js:335-342 | every stored value becomes null and both key sets stay |
| Scheduler.Start | lib/index.js:274-283 | dispatching is on afterwards; no job and no qstat answer changes |
| Scheduler.Stop | lib/index.js:289-292 | dispatching is off afterwards; running jobs carry on and no qstat answer changes |
| Scheduler.ResolveInvocation | lib/index.js:371-374 | the job's own `exec` if any, else the default, bound to `args` exactly when the job has own `args`; a callable one when the job is runnable |
| Scheduler.ResolveFlight | lib/index.js:384-385 | the flight carries the dequeued job; a job-level maxRetry or retryDelay that replaces the scheduler's is at least 1 |
| Scheduler.FlightSettings | lib/index.js:376-386 | an own retry or retryLater replaces the scheduler's; an own maxRetry or retryDelay replaces it only as a number with floor at least 1, and a smaller number, none, or a non-number non-string leaves the scheduler's |
| Scheduler.Dispatch | lib/index.js:344-393 | nothing when the queue is empty or numRunning has reached maxConcurrent; otherwise the head is dequeued, its id marked running with its flight, numRunning incremented, and its executor invoked; numRunning never passes maxConcurrent |
| Scheduler.GivesUp | lib/index.js:402 | at the limit a failure is final without consulting retry; a constant retry setting gives up iff at the limit or falsy; below the limit a predicate retries iff it answers yes |
| Scheduler.Record | lib/index.js:395-414 | success: the value is stored under the id, other finished entries and everything else unchanged; a failure at the limit or refused by retry: the error is stored under the id as failed, nothing else changes; otherwise the queued ids gain the id and the job goes back with retryCount + 1, at the head unless retryLater, with nothing else changed |
| Scheduler.Complete | lib/index.js:395-431 | the outcome is recorded; the id leaves running and the flights; numRunning drops by one; settings, flag and tickets stay; the registry stays a map; with nobody waiting, no waiter is settled, a returned value is stored under the id in finished and a final error in failed, and nothing else changes |
| Scheduler.Abandon | lib/index.js:401-431 | the retry predicate threw: the id leaves running and the flights, numRunning drops by one, queue and result maps are untouched; a job in no other store then reads as removed and no waiter is settled |
| Scheduler.Step | lib/index.js:130-431 | every call, "go", executor settlement or predicate failure keeps the settings fixed and the registry a valid map |
| Scheduler.Steps | lib/index.js:130-431 | the same over any sequence of events |
| SchedulerInvariants.QstatExact | lib/index.js:184-199 | under the invariant each qstat answer holds exactly when its store has the id (removed: when no store does), so the precedence never matters |
| SchedulerInvariants.DispatchInvokesFunction | lib/index.js:371-374 | under the invariant the executor `_dispatch` invokes is always a function |
| SchedulerInvariants.InitValid | lib/index.js:54-84 | a new scheduler satisfies the invariant |
| SchedulerInvariants.QsubPreservesValid | lib/index.js:130-156 | `qsub` keeps the invariant |
| SchedulerInvariants.DispatchPreservesValid | lib/index.js:344-393 | `Dispatch` keeps the invariant, including numRunning <= maxConcurrent and numRunning == the number of running ids |
| SchedulerInvariants.RequeueValid | lib/index.js:407-413 | re-enqueueing a released job under its own id keeps the invariant |
| SchedulerInvariants.CompletePreservesValid | lib/index.js:395-431 | `Complete` keeps the invariant for each outcome |
| SchedulerInvariants.AbandonPreservesValid | lib/index.js:401-431 | a completion whose retry predicate threw keeps the invariant |
| SchedulerInvariants.OnDonePreservesValid | lib/index.js:85-108 | the "done" handler keeps the invariant |
| SchedulerInvariants.QdelPreservesValid | lib/index.js:164-174 | `qdel` keeps the invariant |
| SchedulerInvariants.QwaitPreservesValid | lib/index.js:228-248 | `qwait` keeps the invariant |
| SchedulerInvariants.GetResultPreservesValid | lib/index.js:206-222 | `getResult` keeps the invariant |
| SchedulerInvariants.ClearPreservesValid | lib/index.js:314-328 | `clear` keeps the invariant (running jobs stay counted) |
| SchedulerInvariants.ClearResultsPreservesValid | lib/index.js:335-342 | `clearResults` keeps the invariant |
| SchedulerInvariants.StepPreservesValid | lib/index.js:344-431 | every possible step keeps the invariant |
| SchedulerInvariants.AlwaysValid | lib/index.js:344-431 | the invariant holds after any sequence of steps |
| SchedulerInvariants.NeverOverCommitted | lib/index.js:346-355 | from any options, after any sequence of events, numRunning equals the number of running ids and never exceeds maxConcurrent |
| SchedulerProperties.DefaultOptions | lib/index.js:54-78 | with no options: one job at a time, unbounded retries, no delay, no interval, no default executor, dispatching on |
| SchedulerProperties.OneOption | lib/index.js:56-60 | with one option given, maxConcurrent and maxRetry are that option sanitised, or the sanitised undefined |
| SchedulerProperties.MaxConcurrentOption | test/sbs.js:41-61 | `new SBS({maxConcurrent})` gives 1 for "hoge", NaN, {}, a function, false, -13 and 0; 10 for 10.3 and 21 for 21 |
| SchedulerProperties.MaxRetryOption | test/sbs.js:63-81 | `new SBS({maxRetry})` gives null for "hoge", NaN, {}, a function, false, -13 and 0; 10 for 10.3 and 21 for 21 |
| SchedulerProperties.GetResultKeepsStatus | lib/index.js:206-222 | reading a result never changes what qstat answers, for any id |
| SchedulerProperties.ClearResultsKeepsStatus | lib/index.js:335-342 | `clearResults` never changes what qstat answers |
| SchedulerProperties.SubmittedIsWaiting | lib/index.js:148 | a submitted job reads as waiting, under an id that read as removed before |
| SchedulerProperties.SizeCountsWaiting | lib/index.js:298-300 | `size()` is the number of ids qstat reports as waiting |
| SchedulerProperties.GetRunningIsRunning | lib/index.js:306-308 | `getRunning()` holds exactly the ids qstat reports as running, numRunning of them, at most maxConcurrent |
| SchedulerProperties.StopHaltsDispatch | lib/index.js:274-292 | after `stop` a "go" changes nothing; after `start` it dispatches |
| SchedulerProperties.QdelOnlyWaiting | lib/index.js:164-174 | `qdel` succeeds iff qstat says waiting; a running id gives false and no change |
| SchedulerProperties.DeletedIsRemoved | lib/index.js:164-174 | after a successful `qdel` the id reads as removed |
| SchedulerProperties.ResultReadOnce | test/sbs.js:361-368 | a job nobody waits for that returns a value reads as finished, the first getResult gives the value and a second gives null unless noAutoClear; a final failure reads likewise from failed |
| SchedulerProperties.CompleteSettlesWaiters | lib/index.js:395-431 | a success, or a failure that is not retried, settles every waiter of the job in order: resolved with the value or rejected with the error; the job's registry entry goes and it reads as finished or failed |
| SchedulerProperties.PredicateThrowLosesJob | lib/index.js:87-93 | after the retry predicate throws, the job reads as removed with nothing stored, no waiter is settled, its waiters stay registered, and a later qwait resolves "removed" at once |
| SchedulerProperties.RetryTrueGivesUpAtLimit | lib/index.js:400 | with retry true and effective maxRetry K, a failure is final iff the job has been retried K times |
| SchedulerProperties.RequeuedWithinLimit | lib/index.js:400-413 | a job is re-enqueued only below its limit, so retryCount never exceeds the effective maxRetry |
| SchedulerProperties.StillWaitingAfter | lib/index.js:400-413 | a lone job failing n times without reaching its limit is back in the queue with retryCount n higher |
| SchedulerProperties.FailedAfter | lib/index.js:400-403 | the run made with retryCount equal to the limit is the last; the job then reads as failed |
| SchedulerProperties.AlwaysFailingRunsLimitPlusOne | lib/index.js:384-414 | with scheduler-level retry true and maxRetry K (the job sets neither), an always-failing job still reads as waiting after each of its first K runs and as failed after run K + 1 |
| SchedulerQuirks.SettlementIgnoresKeepResult | lib/index.js:97-101 | when a finished job with waiters settles, its result is blanked unless noAutoClear, whatever keepResult the waiters gave; a direct read with any of their truthy keepResult values would keep it |
| SchedulerQuirks.FailureSettlementIgnoresKeepResult | lib/index.js:97-101 | the same for a failed job: its error is blanked after its waiters are rejected with it |
| SchedulerQuirks.KeepResultWaiterStillLosesResult | lib/index.js:245 | a waiter registered with keepResult true on a running job resolves with the value, yet a later read with keepResult gives null |
| SchedulerQuirks.ClearResolvesIdleWaiters | lib/index.js:320-326 | `clear` resolves every waiter of a non-running id with "removed" |
| SchedulerQuirks.ClearStrandsRunningWaiters | lib/index.js:320-327 | no settlement from `clear` comes from a running id's entry; the registry is left empty, so the job's later settlement settles no one |
| SchedulerProperties.RetryLaterDefaultsToFalse | lib/index.js:386 | with neither the options nor the job giving retryLater, the effective retryLater is false |
| SchedulerProperties.RetryRequeuesAtHead | lib/index.js:413 | a retried job goes back under the same id with retryCount + 1: at the head, ahead of every waiting job, unless retryLater, then at the tail |
| SchedulerProperties.RetriedKeepsWaiters | lib/index.js:89-93 | a re-queued job reads as waiting, the "done" handler settles no one, and every registry entry stays |

## Left out

- EventEmitter wiring, the `setTimeout` re-arming of "go" and the `interval` pacing (lib/index.js:81-83, 152-154, 277-282, 389-391, 428-430). `start`/`stop` are a "dispatch enabled" flag. Any "go" is a `Go` step the environment may take at any time.
- `debug` logging and the "submitted", "run", "finished" and "failed" events: side effects that leave no state.
- `Fifo.Id`: ids are strings. The standalone queue accepts any id compared with `===` (lib/fifo.js:9-10, 44-51), but inside the scheduler every id is a uuid string.
- uuid generation: `Fifo.FreshId` is a deterministic fresh-id oracle (an id longer than any issued so far). The queue records the ids it issued so that freshness can be stated.
- Promises. A waiter is a record (ticket, keepResult). Its settlement is returned as a value (`Settled`), not delivered through a future.
- `qsubAndWait` and `qwaitAll` (lib/index.js:253-269): thin promise compositions of `qsub` and `qwait`.
- Calling the executor, the async retry predicate and `sleep(retryDelay)`: the outcome and the predicate's answer are inputs to `Complete`. The retry delay is resolved into the flight but only delays the re-enqueue.
- `Scheduler.Complete`: applied atomically. In the source every `await` of the `catch` block precedes its state writes, and the writes plus the `finally` block are synchronous. Other calls can happen during `sleep(retryDelay)`; the model orders such calls before or after the whole completion.
- `Sanitize.SanitizeNumber` / `Sanitize.ParseFloat`: `parseFloat` is modelled for [sign] digits [. digits] only. Leading whitespace, exponents, "Infinity" and hexadecimal forms are not read. Numbers are reals, with no NaN/Infinity arithmetic or IEEE rounding.
- `Scheduler.Init` / `Scheduler.ResolveFlight`: they use the corrected `sanitizeNumber` of Findings. They therefore differ from lib/index.js:56-62 and :384-385 on every numeric-string option. For example, `maxConcurrent: "2.5"` is 2.5 in the source, so three jobs may run at once, but the model gives 2. A job-level `maxRetry: "0"` means "never retry" in the source but leaves the scheduler's limit in the model. `NeverOverCommitted` holds for the corrected rule only.
- `Scheduler.FlightSettings`: states nothing about numeric-string job settings beyond what the corrected `sanitizeNumber` gives.
- `new SBS(null)`: the source throws a TypeError reading `opt.maxConcurrent`, because the `opt = {}` default covers only undefined. `Scheduler.Init` takes the options' own properties, so null options are not modelled.
- The unhandled rejection that `_dispatch` raises when the retry predicate throws: `Abandon` models the state change only.
- `Scheduler.GetRunning`: returns a set. The source returns the running ids in insertion order.
- Changing `maxConcurrent` (or any other setting) on a live instance: the settings are fixed per instance, and the invariant `numRunning <= maxConcurrent` depends on that.
- Object identity and prototypes: an object job is its own properties, by value. A user mutating a submitted job object, and `qsub` writing `retryCount` into the caller's object, are not modelled. Property reads of primitives and functions see no own properties. The same holds for the wait registry's keys: a JS `Map` compares object keys by identity, so two distinct `{}` passed to `qwait` make two entries there, while the model, comparing by value, makes one entry holding both waiters.
- `submitHook`, `forceRetry` and a job-level `id`: declared only in lib/index.d.ts and not implemented in lib/index.js.
- lib/index.d.ts (type declarations) and eslint.config.js (lint configuration).

## Findings

| source | as written | input that shows it | evidently intended | confidence | as-written member | corrected member |
|---|---|---|---|---|---|---|
| lib/index.js:24-26 | a string option is passed to `parseFloat` and returned with no floor and no min/max check | `new SBS({ maxConcurrent: "0" })` gives maxConcurrent 0, so `_dispatch` never runs a job; `"2.5"` gives 2.5 | a numeric string is floored and range-checked like the number it spells ("sanitize integer value", min 1, default 1) | not executed | Sanitize.StringOptionEscapesMinimum | Sanitize.SanitizeNumber |
