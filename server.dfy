/**
 The request-batching scheduler of the ELIT server (class ModelRunner).

 Callers submit inputs into a bounded FIFO queue; a scheduling decision taken
 after every queue change either marks a batch as ready or arms a deadline
 for the oldest queued task; a dispatcher removes up to `maxBatchSize` of the
 oldest tasks, hands their inputs to the service, and fans the replies back
 out to the tasks in order.

 The asyncio lock, the events and the executor are not modelled: every
 lock-protected block is one atomic method call, the timer is the deadline
 it was armed for, and the clock is an integer parameter.
 */
module Server {

  datatype Option<T> = None | Some(value: T)

  datatype Result<T, E> = Success(value: T) | Failure(error: E)

  /** The error raised to the HTTP layer, with its status code. */
  datatype HandlingError = HandlingError(msg: string, code: int)

  /** Raised by admission when the queue is full. */
  const TooBusy: HandlingError := HandlingError("I'm too busy", 503)

  /** Default configuration of the constructor; `max_wait` is 0.05 s, here in milliseconds. */
  const DefaultMaxQueueSize: nat := 128
  const DefaultMaxBatchSize: nat := 32
  const DefaultMaxWait: int := 50

  /** An exception raised by the service. */
  datatype Exception = Exception(message: string)

  /** What `service.parse` does with a batch of inputs: returns a list, or raises. */
  datatype ParseResult<O> = Parsed(outputs: seq<O>) | Failed(exception: Exception)

  /** One element of the list that `run_model` returns: a service output, or the caught exception. */
  datatype Reply<O> = Output(value: O) | Raised(exception: Exception)

  type TaskId = nat

  /** A queued task: its input and the clock reading taken when it was submitted. */
  datatype Task<I> = Task(id: TaskId, input: I, time: int)

  /** The caller-visible part of a task: no output yet, or the output assigned with the done event set. */
  datatype Slot<O> = Pending | Done(output: Reply<O>)

  /** The scheduler's two control fields: the `needs_processing` event and the armed timer. */
  datatype Control = Control(ready: bool, timer: Option<int>)

  ghost predicate DistinctIds<I>(q: seq<Task<I>>)
  {
    forall j, k :: 0 <= j < k < |q| ==> q[j].id != q[k].id
  }

  /** The ids of the tasks in a queue or batch. */
  function Ids<I>(q: seq<Task<I>>): (s: set<TaskId>)
  {
    set j | 0 <= j < |q| :: q[j].id
  }

  /** The ids of the tasks that a zip of `batch` with `results` reaches. */
  function Delivered<I, O>(batch: seq<Task<I>>, results: seq<Reply<O>>): (s: set<TaskId>)
    ensures s <= Ids(batch)
  {
    set j | 0 <= j < |batch| && j < |results| :: batch[j].id
  }

  /** The list of inputs handed to the service, in batch order. */
  function Inputs<I>(batch: seq<Task<I>>): (xs: seq<I>)
    ensures |xs| == |batch|
    ensures forall j :: 0 <= j < |batch| ==> xs[j] == batch[j].input
  {
    seq(|batch|, j requires 0 <= j < |batch| => batch[j].input)
  }

  /**
   The scheduling decision: a queue holding at least `maxBatchSize` tasks sets
   the ready flag and leaves the timer alone; a shorter nonempty queue re-arms
   the timer (overwriting, not cancelling, the previous one) at the oldest
   task's time plus `maxWait`; an empty queue changes nothing.
   */
  function Decide<I>(q: seq<Task<I>>, c: Control, maxBatchSize: nat, maxWait: int): (d: Control)
    ensures d.ready <==> c.ready || |q| >= maxBatchSize
    ensures |q| >= maxBatchSize ==> d.timer == c.timer
    ensures 0 < |q| < maxBatchSize ==> d.timer == Some(q[0].time + maxWait)
    ensures |q| == 0 ==> d.timer == c.timer
    ensures |q| > 0 && !c.ready ==> d.ready || d.timer.Some?
  {
    if |q| >= maxBatchSize then Control(true, c.timer)
    else if |q| > 0 then Control(c.ready, Some(q[0].time + maxWait))
    else c
  }

  /**
   The slice a dispatch removes: the oldest tasks, at most `n` of them, and
   fewer only when the queue runs out.
   */
  function TakeBatch<I>(q: seq<Task<I>>, n: nat): (r: (seq<Task<I>>, seq<Task<I>>))
    ensures r.0 + r.1 == q
    ensures |r.0| <= n
    ensures |r.0| < n ==> r.1 == []
  {
    var k := if |q| < n then |q| else n;
    (q[..k], q[k..])
  }

  /** Cutting a queue of distinct tasks at `k` gives two parts of distinct tasks with no task in common. */
  lemma SliceDisjoint<I>(q: seq<Task<I>>, k: nat)
    requires DistinctIds(q) && k <= |q|
    ensures DistinctIds(q[..k]) && DistinctIds(q[k..])
    ensures Ids(q[..k]) !! Ids(q[k..])
  {
    forall j, i | 0 <= j < k && 0 <= i < |q| - k ensures q[..k][j].id != q[k..][i].id {
      assert q[..k][j] == q[j] && q[k..][i] == q[k + i];
    }
    forall j, i | 0 <= j < i < |q| - k ensures q[k..][j].id != q[k..][i].id {
      assert q[k..][j] == q[k + j] && q[k..][i] == q[k + i];
    }
  }

  /** Cutting a queue loses no task and invents none. */
  lemma SliceIds<I>(q: seq<Task<I>>, k: nat)
    requires k <= |q|
    ensures Ids(q[..k]) + Ids(q[k..]) == Ids(q)
  {
    forall id | id in Ids(q) ensures id in Ids(q[..k]) + Ids(q[k..]) {
      var j :| 0 <= j < |q| && q[j].id == id;
      if j < k {
        assert q[..k][j] == q[j];
      } else {
        assert q[k..][j - k] == q[j];
      }
    }
    forall id | id in Ids(q[k..]) ensures id in Ids(q) {
      var i :| 0 <= i < |q| - k && q[k..][i].id == id;
      assert q[k + i] == q[k..][i];
    }
  }

  /** A batch taken from a queue of distinct tasks shares no task with what is left, and together they are the queue. */
  lemma TakeBatchDisjoint<I>(q: seq<Task<I>>, n: nat)
    requires DistinctIds(q)
    ensures DistinctIds(TakeBatch(q, n).0) && DistinctIds(TakeBatch(q, n).1)
    ensures Ids(TakeBatch(q, n).0) !! Ids(TakeBatch(q, n).1)
    ensures Ids(TakeBatch(q, n).0) + Ids(TakeBatch(q, n).1) == Ids(q)
  {
    var k := if |q| < n then |q| else n;
    assert TakeBatch(q, n) == (q[..k], q[k..]);
    SliceDisjoint(q, k);
    SliceIds(q, k);
  }

  /**
   Fan-out: walks `batch` and `results` together, as `zip` does, stopping at
   the shorter one, and marks each task reached done with its reply.
   */
  function Deliver<I, O>(m: map<TaskId, Slot<O>>, batch: seq<Task<I>>, results: seq<Reply<O>>): (m': map<TaskId, Slot<O>>)
    ensures m'.Keys == m.Keys + Delivered(batch, results)
    decreases |batch|
  {
    if |batch| == 0 || |results| == 0 then m
    else
      DeliveredUnfold(batch, results);
      Deliver(m[batch[0].id := Done(results[0])], batch[1..], results[1..])
  }

  lemma DeliveredUnfold<I, O>(batch: seq<Task<I>>, results: seq<Reply<O>>)
    requires |batch| > 0 && |results| > 0
    ensures Delivered(batch, results) == {batch[0].id} + Delivered(batch[1..], results[1..])
  {
    forall id | id in Delivered(batch, results) ensures id in {batch[0].id} + Delivered(batch[1..], results[1..]) {
      var j :| 0 <= j < |batch| && j < |results| && batch[j].id == id;
      if j > 0 {
        assert batch[1..][j - 1] == batch[j];
      }
    }
    forall id | id in Delivered(batch[1..], results[1..]) ensures id in Delivered(batch, results) {
      var j :| 0 <= j < |batch| - 1 && j < |results| - 1 && batch[1..][j].id == id;
      assert batch[j + 1].id == id;
    }
  }

  /**
   A dispatch moved `batch` out of the queue for good: its tasks are distinct,
   none of them stays queued or had been dispatched before, and they are now
   recorded as dispatched.
   */
  ghost predicate TakenOnce<I>(batch: seq<Task<I>>, rest: seq<Task<I>>, before: set<TaskId>, after: set<TaskId>)
  {
    && DistinctIds(batch)
    && Ids(batch) !! Ids(rest)
    && Ids(batch) !! before
    && after == before + Ids(batch)
  }

  /** Every task outside `ids` has the same slot in `m'` as in `m`, or no slot in either. */
  ghost predicate SlotsKept<O>(m: map<TaskId, Slot<O>>, m': map<TaskId, Slot<O>>, ids: set<TaskId>)
  {
    forall id :: id !in ids ==> (id in m' <==> id in m) && (id in m' ==> m'[id] == m[id])
  }

  /** A task the zip does not reach keeps its slot, or stays absent. */
  lemma {:induction false} DeliverMiss<I, O>(m: map<TaskId, Slot<O>>, batch: seq<Task<I>>, results: seq<Reply<O>>, id: TaskId)
    requires id !in Delivered(batch, results)
    ensures id in Deliver(m, batch, results) <==> id in m
    ensures id in m ==> Deliver(m, batch, results)[id] == m[id]
    decreases |batch|
  {
    if |batch| > 0 && |results| > 0 {
      DeliveredUnfold(batch, results);
      DeliverMiss(m[batch[0].id := Done(results[0])], batch[1..], results[1..], id);
    }
  }

  /** The i-th task of a batch of distinct tasks receives the i-th reply, when there is one. */
  lemma {:induction false} DeliverHit<I, O>(m: map<TaskId, Slot<O>>, batch: seq<Task<I>>, results: seq<Reply<O>>, i: nat)
    requires DistinctIds(batch)
    requires i < |batch| && i < |results|
    ensures batch[i].id in Deliver(m, batch, results)
    ensures Deliver(m, batch, results)[batch[i].id] == Done(results[i])
    decreases i
  {
    var m1 := m[batch[0].id := Done(results[0])];
    if i == 0 {
      DeliverMiss(m1, batch[1..], results[1..], batch[0].id);
    } else {
      assert DistinctIds(batch[1..]) by {
        forall j, k | 0 <= j < k < |batch| - 1 ensures batch[1..][j].id != batch[1..][k].id {
          assert batch[1..][j] == batch[j + 1] && batch[1..][k] == batch[k + 1];
        }
      }
      DeliverHit(m1, batch[1..], results[1..], i - 1);
      assert batch[1..][i - 1] == batch[i] && results[1..][i - 1] == results[i];
    }
  }

  /** A task that lies in the batch beyond the end of the results is never answered. */
  lemma StrandedPastResults<I, O>(m: map<TaskId, Slot<O>>, batch: seq<Task<I>>, results: seq<Reply<O>>, i: nat)
    requires DistinctIds(batch)
    requires |results| <= i < |batch|
    ensures batch[i].id in Deliver(m, batch, results) <==> batch[i].id in m
    ensures batch[i].id in m ==> Deliver(m, batch, results)[batch[i].id] == m[batch[i].id]
  {
    DeliverMiss(m, batch, results, batch[i].id);
  }

  /** Fail-together: when every reply is the same exception and there is one per task, every task gets it. */
  lemma FailTogether<I, O>(m: map<TaskId, Slot<O>>, batch: seq<Task<I>>, results: seq<Reply<O>>, e: Exception)
    requires DistinctIds(batch)
    requires |results| == |batch|
    requires forall j :: 0 <= j < |results| ==> results[j] == Raised(e)
    ensures forall j :: 0 <= j < |batch| ==>
      batch[j].id in Deliver(m, batch, results) && Deliver(m, batch, results)[batch[j].id] == Done(Raised(e))
  {
    forall j | 0 <= j < |batch|
      ensures batch[j].id in Deliver(m, batch, results) && Deliver(m, batch, results)[batch[j].id] == Done(Raised(e))
    {
      DeliverHit(m, batch, results, j);
    }
  }

  /**
   The queue part of the runner's invariant: within capacity, distinct tasks
   with ids already handed out, none of them dispatched before, all pending.
   */
  ghost predicate QueueInv<I, O>(q: seq<Task<I>>, slots: map<TaskId, Slot<O>>, nextId: TaskId,
                                 dispatched: set<TaskId>, capacity: nat)
  {
    && |q| <= capacity
    && DistinctIds(q)
    && (forall j :: 0 <= j < |q| ==> q[j].id < nextId)
    && (forall id :: id in dispatched ==> id < nextId)
    && (forall id :: id in slots ==> id < nextId)
    && Ids(q) !! dispatched
    && (forall j :: 0 <= j < |q| ==> q[j].id in slots && slots[q[j].id] == Pending)
  }

  /**
   The control part of the runner's invariant: a nonempty queue always has a
   wake-up pending, and a stored timer is the one armed for the current
   oldest task.
   */
  ghost predicate ControlInv<I>(q: seq<Task<I>>, c: Control, maxWait: int)
  {
    && (|q| > 0 ==> c.ready || c.timer.Some?)
    && (c.timer.Some? ==> |q| > 0 && c.timer.value == q[0].time + maxWait)
  }

  /** Appending a fresh pending task below capacity keeps the queue invariant. */
  lemma AdmitKeepsQueueInv<I, O>(q: seq<Task<I>>, slots: map<TaskId, Slot<O>>, nextId: TaskId,
                                 dispatched: set<TaskId>, capacity: nat, input: I, now: int)
    requires QueueInv(q, slots, nextId, dispatched, capacity)
    requires |q| < capacity
    ensures QueueInv(q + [Task(nextId, input, now)], slots[nextId := Pending], nextId + 1, dispatched, capacity)
  {
    var q' := q + [Task(nextId, input, now)];
    assert forall j :: 0 <= j < |q| ==> q'[j] == q[j];
    assert Ids(q') == Ids(q) + {nextId} by {
      forall id | id in Ids(q') ensures id in Ids(q) + {nextId} {
        var j :| 0 <= j < |q'| && q'[j].id == id;
        if j < |q| {
          assert q[j].id == id;
        }
      }
      assert q'[|q|].id == nextId;
    }
  }

  /** Removing the first `k` tasks and recording them as dispatched keeps the queue invariant. */
  lemma RemoveKeepsQueueInv<I, O>(q: seq<Task<I>>, slots: map<TaskId, Slot<O>>, nextId: TaskId,
                                  dispatched: set<TaskId>, capacity: nat, k: nat)
    requires QueueInv(q, slots, nextId, dispatched, capacity)
    requires k <= |q|
    ensures QueueInv(q[k..], slots, nextId, dispatched + Ids(q[..k]), capacity)
    ensures Ids(q[..k]) !! dispatched
  {
    SliceDisjoint(q, k);
    SliceIds(q, k);
    assert forall j :: 0 <= j < |q| - k ==> q[k..][j] == q[k + j];
    forall id | id in Ids(q[..k]) ensures id < nextId {
      var j :| 0 <= j < k && q[..k][j].id == id;
      assert q[..k][j] == q[j];
    }
  }

  /** Answering tasks that were all dispatched leaves every queued task pending. */
  lemma DeliverKeepsQueueInv<I, O>(q: seq<Task<I>>, slots: map<TaskId, Slot<O>>, nextId: TaskId,
                                   dispatched: set<TaskId>, capacity: nat,
                                   batch: seq<Task<I>>, results: seq<Reply<O>>)
    requires QueueInv(q, slots, nextId, dispatched, capacity)
    requires Ids(batch) <= dispatched
    ensures QueueInv(q, Deliver(slots, batch, results), nextId, dispatched, capacity)
  {
    forall j | 0 <= j < |q|
      ensures q[j].id in Deliver(slots, batch, results) && Deliver(slots, batch, results)[q[j].id] == Pending
    {
      assert q[j].id in Ids(q);
      assert Delivered(batch, results) <= Ids(batch);
      DeliverMiss(slots, batch, results, q[j].id);
    }
  }

  /** The decision after an append keeps the control invariant. */
  lemma DecideAfterAppend<I>(q: seq<Task<I>>, t: Task<I>, c: Control, maxBatchSize: nat, maxWait: int)
    requires ControlInv(q, c, maxWait)
    ensures ControlInv(q + [t], Decide(q + [t], c, maxBatchSize, maxWait), maxWait)
  {
    if |q| > 0 {
      assert (q + [t])[0] == q[0];
    }
  }

  /** The decision from a cleared state establishes the control invariant. */
  lemma DecideFromCleared<I>(q: seq<Task<I>>, maxBatchSize: nat, maxWait: int)
    ensures ControlInv(q, Decide(q, Control(false, None), maxBatchSize, maxWait), maxWait)
  {
  }

  class ModelRunner<I, O> {
    /** The service whose `parse` runs a batch. */
    const service: seq<I> -> ParseResult<O>
    const maxQueueSize: nat
    const maxBatchSize: nat
    const maxWait: int

    var queue: seq<Task<I>>
    /** The `needs_processing` event. */
    var ready: bool
    /** The deadline of `needs_processing_timer`, when one is stored. */
    var timerDeadline: Option<int>
    /** Output and done event of every accepted task. */
    var slots: map<TaskId, Slot<O>>
    /** The id the next accepted task receives. */
    var nextId: TaskId
    /** The ids of the tasks dispatched so far. */
    ghost var dispatched: set<TaskId>

    ghost predicate Valid()
      reads this
    {
      && QueueInv(queue, slots, nextId, dispatched, maxQueueSize)
      && ControlInv(queue, Control(ready, timerDeadline), maxWait)
    }

    constructor (service: seq<I> -> ParseResult<O>, maxQueueSize: nat := DefaultMaxQueueSize,
                 maxBatchSize: nat := DefaultMaxBatchSize, maxWait: int := DefaultMaxWait)
      ensures Valid()
      ensures this.service == service && this.maxQueueSize == maxQueueSize
      ensures this.maxBatchSize == maxBatchSize && this.maxWait == maxWait
      ensures queue == [] && !ready && timerDeadline == None && slots == map[] && nextId == 0
    {
      this.service := service;
      this.maxQueueSize := maxQueueSize;
      this.maxBatchSize := maxBatchSize;
      this.maxWait := maxWait;
      queue := [];
      ready := false;
      timerDeadline := None;
      slots := map[];
      nextId := 0;
      dispatched := {};
    }

    /** The scheduling decision, applied to the current queue. */
    method Schedule()
      modifies this`ready, this`timerDeadline
      ensures Control(ready, timerDeadline) == Decide(queue, old(Control(ready, timerDeadline)), maxBatchSize, maxWait)
    {
      if |queue| >= maxBatchSize {
        ready := true;
      } else if |queue| > 0 {
        timerDeadline := Some(queue[0].time + maxWait);
      }
    }

    /**
     Admission: a full queue rejects with the busy error and nothing changes;
     otherwise the task is appended at the end and the scheduling decision runs.
     `now` is the clock reading taken before the lock.
     */
    method Submit(input: I, now: int) returns (r: Result<TaskId, HandlingError>)
      requires Valid()
      modifies this
      ensures Valid()
      ensures r.Failure? <==> old(|queue|) >= maxQueueSize
      ensures r.Failure? ==>
                && r.error == TooBusy && queue == old(queue) && slots == old(slots)
                && ready == old(ready) && timerDeadline == old(timerDeadline) && nextId == old(nextId)
      ensures r.Success? ==>
                && r.value == old(nextId) && nextId == old(nextId) + 1
                && queue == old(queue) + [Task(old(nextId), input, now)]
                && slots == old(slots)[old(nextId) := Pending]
                && Control(ready, timerDeadline) == Decide(queue, old(Control(ready, timerDeadline)), maxBatchSize, maxWait)
      ensures r.Success? ==> old(nextId) !in old(slots)
      ensures |queue| <= maxQueueSize
      ensures dispatched == old(dispatched)
    {
      if |queue| >= maxQueueSize {
        return Failure(TooBusy);
      }
      var id := nextId;
      AdmitKeepsQueueInv(queue, slots, nextId, dispatched, maxQueueSize, input, now);
      DecideAfterAppend(queue, Task(id, input, now), Control(ready, timerDeadline), maxBatchSize, maxWait);
      queue := queue + [Task(id, input, now)];
      slots := slots[id := Pending];
      nextId := nextId + 1;
      Schedule();
      r := Success(id);
    }

    /** The slicing under the lock: the oldest tasks, at most `maxBatchSize`, leave the queue. */
    method Slice() returns (batch: seq<Task<I>>)
      requires QueueInv(queue, slots, nextId, dispatched, maxQueueSize)
      modifies this`queue, this`dispatched
      ensures QueueInv(queue, slots, nextId, dispatched, maxQueueSize)
      ensures batch == TakeBatch(old(queue), maxBatchSize).0 && queue == TakeBatch(old(queue), maxBatchSize).1
      ensures dispatched == old(dispatched) + Ids(batch)
      ensures DistinctIds(batch) && Ids(batch) !! Ids(queue)
      ensures Ids(batch) !! old(dispatched)
    {
      var k := if |queue| < maxBatchSize then |queue| else maxBatchSize;
      assert TakeBatch(queue, maxBatchSize) == (queue[..k], queue[k..]);
      SliceDisjoint(queue, k);
      RemoveKeepsQueueInv(queue, slots, nextId, dispatched, maxQueueSize, k);
      batch := queue[..k];
      dispatched := dispatched + Ids(batch);
      queue := queue[k..];
    }

    /**
     The dispatcher's step after it wakes: clear the ready flag and drop the
     timer, remove the oldest tasks (at most `maxBatchSize`) and rerun the
     scheduling decision on what is left.
     */
    method Dispatch() returns (batch: seq<Task<I>>)
      requires Valid()
      modifies this`queue, this`ready, this`timerDeadline, this`dispatched
      ensures Valid()
      ensures batch == TakeBatch(old(queue), maxBatchSize).0
      ensures batch + queue == old(queue)
      ensures |batch| <= maxBatchSize && (|batch| < maxBatchSize ==> queue == [])
      ensures Control(ready, timerDeadline) == Decide(queue, Control(false, None), maxBatchSize, maxWait)
      ensures DistinctIds(batch) && Ids(batch) !! Ids(queue)
      ensures dispatched == old(dispatched) + Ids(batch)
      ensures Ids(batch) !! old(dispatched)
    {
      ready := false;
      timerDeadline := None;
      ghost var taken := TakeBatch(queue, maxBatchSize);
      batch := Slice();
      assert batch == taken.0 && queue == taken.1;
      DecideFromCleared(queue, maxBatchSize, maxWait);
      Schedule();
    }

    /**
     Runs the service on a batch of inputs; when it raises, every input gets
     the same exception, one per input.
     */
    function RunModel(batch: seq<I>): (r: seq<Reply<O>>)
      ensures service(batch).Failed? ==>
                |r| == |batch| && forall j :: 0 <= j < |r| ==> r[j] == Raised(service(batch).exception)
      ensures service(batch).Parsed? ==>
        |r| == |service(batch).outputs| && forall j :: 0 <= j < |r| ==> r[j] == Output(service(batch).outputs[j])
    {
      match service(batch)
      case Parsed(outputs) => seq(|outputs|, j requires 0 <= j < |outputs| => Output(outputs[j]))
      case Failed(e) => seq(|batch|, _ => Raised(e))
    }

    /** Assigns each reply to the task in the same position and sets its done event, stopping at the shorter list. */
    method FanOut(batch: seq<Task<I>>, results: seq<Reply<O>>)
      requires Valid()
      requires Ids(batch) <= dispatched
      modifies this`slots
      ensures Valid()
      ensures slots == Deliver(old(slots), batch, results)
    {
      var n := if |batch| < |results| then |batch| else |results|;
      for i := 0 to n
        invariant Deliver(slots, batch[i..], results[i..]) == Deliver(old(slots), batch, results)
      {
        assert batch[i..][1..] == batch[i + 1..] && results[i..][1..] == results[i + 1..];
        slots := slots[batch[i].id := Done(results[i])];
      }
      assert batch[n..] == [] || results[n..] == [];
      DeliverKeepsQueueInv(queue, old(slots), nextId, dispatched, maxQueueSize, batch, results);
    }

    /**
     One pass of the dispatcher loop: dispatch a batch, run the service on
     its inputs and fan the replies out.
     */
    method RunBatch() returns (batch: seq<Task<I>>, results: seq<Reply<O>>)
      requires Valid()
      modifies this
      ensures Valid()
      ensures batch == TakeBatch(old(queue), maxBatchSize).0
      ensures batch + queue == old(queue)
      ensures Control(ready, timerDeadline) == Decide(queue, Control(false, None), maxBatchSize, maxWait)
      ensures results == RunModel(Inputs(batch))
      ensures slots == Deliver(old(slots), batch, results)
      ensures forall j :: 0 <= j < |batch| && j < |results| ==>
        batch[j].id in slots && slots[batch[j].id] == Done(results[j])
      ensures forall j :: 0 <= j < |batch| && |results| <= j ==> batch[j].id in slots && slots[batch[j].id] == Pending
      ensures service(Inputs(batch)).Failed? ==> forall j :: 0 <= j < |batch| ==>
        batch[j].id in slots && slots[batch[j].id] == Done(Raised(service(Inputs(batch)).exception))
      ensures SlotsKept(old(slots), slots, Ids(batch))
      ensures TakenOnce(batch, queue, old(dispatched), dispatched)
      ensures nextId == old(nextId)
    {
      ghost var before := slots;
      batch := Dispatch();
      results := RunModel(Inputs(batch));
      FanOut(batch, results);
      forall j | 0 <= j < |batch| && j < |results|
        ensures batch[j].id in slots && slots[batch[j].id] == Done(results[j])
      {
        DeliverHit(before, batch, results, j);
      }
      forall j | 0 <= j < |batch| && |results| <= j
        ensures batch[j].id in slots && slots[batch[j].id] == Pending
      {
        assert batch[j] == old(queue)[j];
        StrandedPastResults(before, batch, results, j);
      }
      forall id | id !in Ids(batch)
        ensures (id in slots <==> id in before) && (id in slots ==> slots[id] == before[id])
      {
        DeliverMiss(before, batch, results, id);
      }
    }
  }
}
