# ELIT server: the request-batching scheduler

A Dafny model of `ModelRunner`, the scheduler behind the ELIT HTTP server. Callers
submit inputs; the runner keeps a bounded FIFO queue of pending tasks, decides after
every queue change whether a batch is ready now or when a deadline for the oldest task
should fire, slices up to `max_batch_size` of the oldest tasks off the queue, runs the
service on their inputs (turning a raised exception into the same reply for every
input), and zips the replies back onto the tasks, marking each one done.

- `server.dfy`, module `Server`: the data model (`Task`, `Slot`, `Reply`, `Control`,
  `HandlingError` with the busy error `TooBusy` = "I'm too busy", code 503), the pure
  specification functions `Decide`, `TakeBatch`, `Deliver` with their lemmas, and the
  class `ModelRunner` whose fields are the queue, the ready flag (`needs_processing`),
  the stored timer deadline (`needs_processing_timer`), a map from task id to its
  output/done state, and the id counter. Its invariant `Valid()` says the queue holds
  at most `maxQueueSize` distinct tasks, every queued task is still pending, a nonempty
  queue always has a wake-up pending (ready flag or stored timer), and a stored timer is
  the one armed for the current oldest task at its time plus `maxWait`.
- `scenarios.dfy`, module `Scenarios`: client runs that use only the contracts above —
  backpressure with capacity 2, a full batch made ready without waiting, a lone task
  that waits for its deadline, order preservation with a tagging service, fail-together
  with a raising service, and a short service result leaving a task pending.

Three behaviours of the code that a caller may not expect, which the model keeps:

- Fan-out uses `zip` (server.py line 104), so when the service returns fewer outputs
  than inputs the tasks past the end are never answered and their callers, waiting on
  their done event at server.py line 66, wait forever. `StrandedPastResults`,
  `ModelRunner.RunBatch` (tasks past the end of the replies stay pending) and
  `Scenarios.ShortResultStrandsTask` state it.
- The scheduling decision re-arms the timer by overwriting the stored handle without
  cancelling the previous timer (server.py line 52); the model overwrites the field.
- The constructor does not check its sizes. Among the sizes the model admits (natural
  numbers), `maxBatchSize` = 0 is allowed, and then the decision marks the runner ready
  even on an empty queue and every dispatch is empty.

## Model

| member | source | states |
|---|---|---|
| `Server.Decide` | elit/server/server.py:46-52 | ready afterwards iff ready before or the queue holds at least `maxBatchSize` tasks; a full queue keeps the timer, a shorter nonempty one arms it at oldest time + `maxWait`, an empty one keeps it; a nonempty queue that was not ready ends with a wake-up pending |
| `Server.ModelRunner.Schedule` | elit/server/server.py:46-52 | the ready flag and stored deadline become `Decide` of the current queue and the old control fields |
| `Server.ModelRunner.constructor` | elit/server/server.py:28-44 | stores the service and the three limits (defaults 128, 32, 50 ms); empty queue, not ready, no timer, no tasks |
| `Server.ModelRunner.Submit` | elit/server/server.py:54-64 | rejected with `TooBusy` (code 503) iff the queue already holds `maxQueueSize` tasks, and then nothing changes; otherwise exactly one pending task with a fresh id and the given time is appended, earlier entries unchanged, and the decision is rerun; the fresh id had no slot, so no earlier task's slot is overwritten; the queue length afterwards is at most `maxQueueSize`; the invariant is kept (every id with a slot is below the counter) |
| `Server.TakeBatch` | elit/server/server.py:96-97 | the batch followed by the rest is the old queue; the batch has at most `n` tasks and fewer only when nothing is left (an empty queue gives an empty batch) |
| `Server.TakeBatchDisjoint` | elit/server/server.py:96-97 | from a queue of distinct tasks, batch and rest are each distinct, share no task, and together hold exactly the queue's tasks |
| `Server.SliceDisjoint` | elit/server/server.py:96-97 | cutting a queue of distinct tasks gives two parts of distinct tasks with no task in common |
| `Server.SliceIds` | elit/server/server.py:96-97 | cutting a queue neither loses nor invents a task |
| `Server.AdmitKeepsQueueInv` | elit/server/server.py:60-62 | appending a fresh pending task below capacity keeps the queue invariant (bounded, distinct, never dispatched, all pending) |
| `Server.RemoveKeepsQueueInv` | elit/server/server.py:96-97 | removing the oldest tasks and recording them as dispatched keeps the queue invariant |
| `Server.DeliverKeepsQueueInv` | elit/server/server.py:104-106 | answering only dispatched tasks leaves every queued task pending |
| `Server.DecideAfterAppend` | elit/server/server.py:46-52 | after an append, the decision keeps a wake-up pending for a nonempty queue and a stored timer tied to the oldest task |
| `Server.DecideFromCleared` | elit/server/server.py:84-98 | after the dispatcher clears the flag and timer, the decision on the leftover queue re-establishes that invariant |
| `Server.ModelRunner.Slice` | elit/server/server.py:96-97 | the batch and the new queue are the two parts `TakeBatch` gives, the batch's tasks are recorded as dispatched, distinct, none of them stays queued and none had been dispatched before; the queue invariant is kept |
| `Server.ModelRunner.Dispatch` | elit/server/server.py:84-98 | clears the ready flag and timer, returns the first `min(|queue|, maxBatchSize)` tasks, batch + new queue = old queue, no dispatched task remains queued, none of the batch had been dispatched before, the control fields are `Decide` of the leftover queue from a cleared state; the invariant is kept |
| `Server.Inputs` | elit/server/server.py:100 | the service receives one input per task, the i-th being the i-th task's input |
| `Server.ModelRunner.RunModel` | elit/server/server.py:69-74 | when the service raises, one reply per input, each the caught exception; when it returns, the replies are its outputs in order and in number |
| `Server.Deliver` | elit/server/server.py:104-106 | the ids with a slot afterwards are those before plus the tasks the zip reaches (index below both lengths) |
| `Server.Delivered` | elit/server/server.py:104 | the tasks the zip reaches are tasks of the batch |
| `Server.DeliverHit` | elit/server/server.py:104-106 | for distinct tasks and i below both lengths, task i's slot becomes done with reply i |
| `Server.DeliverMiss` | elit/server/server.py:104-106 | a task the zip does not reach keeps its slot, or stays without one |
| `Server.StrandedPastResults` | elit/server/server.py:104-106 | a task whose position is at or beyond the number of replies is left as it was |
| `Server.FailTogether` | elit/server/server.py:104-106 | delivering one identical exception per task marks every task of the batch done with that exception |
| `Server.ModelRunner.FanOut` | elit/server/server.py:104-106 | the slots become `Deliver` of the old slots; tasks outside the batch are untouched and queued tasks stay pending |
| `Server.ModelRunner.RunBatch` | elit/server/server.py:81-107 | one dispatcher pass: dispatch, run the service on the batch's inputs, fan out; task i is done with reply i for i below both lengths, later tasks stay pending, and on a service failure every task of the batch is done with the same exception; every task outside the batch keeps its slot unchanged; the batch's tasks are distinct, none stays queued or had been dispatched before, and all are now recorded as dispatched, so no task is answered twice |
| `Scenarios.Backpressure` | elit/server/server.py:59-64 | with capacity 2, A and B are accepted, C is rejected with `TooBusy`, A and B leave in one batch of 2, and D is then accepted |
| `Scenarios.FullBatchReadyAtOnce` | elit/server/server.py:47-49 | the submission reaching `maxBatchSize` sets the ready flag, the one before does not |
| `Scenarios.LoneTaskWaitsForDeadline` | elit/server/server.py:50-52 | a lone task at time 0 with `maxWait` 20 arms the timer at 20 without setting ready; dispatch takes just that task and leaves no timer |
| `Scenarios.OutputsInOrder` | elit/server/server.py:100-106 | with a service tagging inputs by position, tasks a, b, c receive (a,0), (b,1), (c,2) |
| `Scenarios.FailingServiceAnswersAll` | elit/server/server.py:69-74 | a raising service answers both tasks of the batch with the same exception |
| `Scenarios.ShortResultStrandsTask` | elit/server/server.py:104 | a service returning one output for two inputs answers the first task and leaves the second pending |
| `Scenarios.AnswerIsFinal` | elit/server/server.py:54-107 | the answer a task gets in one dispatcher pass is unchanged after a later submission and pass, and the later pass answers the new task |

## Left out

- asyncio concurrency: the lock, the `needs_processing` event, the executor and the `while True` loop (server.py lines 59, 66, 78-83, 101-103). Each lock-protected block is one atomic method; `RunBatch` is one pass of the loop with no submissions interleaved, while `Dispatch`, `RunModel` and `FanOut` can be called separately with submissions in between.
- The wake condition of the dispatcher: `Dispatch` may be called in any state, since timer firing (`loop.call_at` calling the event's `set`) is not modelled; the timer is only its stored deadline.
- Timers that were overwritten without being cancelled still fire in the source and may wake the dispatcher early; the model keeps only the stored deadline and does not track them.
- Floating-point time: the clock is an integer parameter (`now`, milliseconds in the defaults), and `max_wait` an integer.
- Queue order by time: the timestamp is read before the lock is taken, so no sortedness by time is claimed.
- The internals of `service.parse` and the `Document` type: the service is a total function from a list of inputs to a list of outputs or a raised `Exception`; exceptions outside `Exception` that `except Exception` would not catch are not modelled.
- Task identity: Python tasks are distinct objects; the model gives each accepted task a fresh id from a counter, and a rejected submission allocates none.
- The caller's wait on its done event and the return of its output (server.py lines 66-67): the caller-visible state is the task's slot, `Pending` or `Done(output)`.
- The longest-wait computation (server.py lines 90-95), `traceback.print_exc` and every logging call: they only feed the log.
- FastAPI routes, the `isinstance` check on outputs, `HandlingError` to HTTP status mapping, `run`, `main`, the module-level `runner` and the startup hook (server.py lines 17, 20-24, 110-145): transport and bootstrap code.
- Negative sizes: `maxQueueSize` and `maxBatchSize` are natural numbers. Python accepts
  negative values: `queue[:max_batch_size]` at server.py line 96 would then count from
  the end, and the comparison at server.py line 60 would reject every submission. The
  only construction in the repository (server.py line 115) uses the non-negative
  defaults, so these cases are not modelled.
- elit/main.py: command-line dispatch and the stdin loop, I/O plumbing with no scheduling logic.
