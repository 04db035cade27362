/**
 Client runs of the scheduler: each method drives one ModelRunner through a
 short sequence of submissions and dispatches, and its postcondition states
 what the scheduler's contracts alone guarantee about that run.
 */
module Scenarios {
  import opened Server

  /**
   Queue and batch capacity 2: A and B are accepted and make a full batch at
   once, C is turned away as too busy, and once A and B are dispatched
   together a fourth submission is accepted again.
   */
  method Backpressure() returns (a: Result<TaskId, HandlingError>, b: Result<TaskId, HandlingError>,
                                 c: Result<TaskId, HandlingError>, batchSize: nat,
                                 d: Result<TaskId, HandlingError>)
    ensures a.Success? && b.Success? && a.value != b.value
    ensures c == Failure(TooBusy)
    ensures batchSize == 2
    ensures d.Success?
  {
    var runner := new ModelRunner<string, string>((xs: seq<string>) => Parsed(xs), 2, 2, 50);
    a := runner.Submit("A", 0);
    b := runner.Submit("B", 1);
    c := runner.Submit("C", 2);
    var batch, results := runner.RunBatch();
    batchSize := |batch|;
    d := runner.Submit("D", 3);
  }

  /**
   A full batch does not wait for the deadline: the submission that brings
   the queue to `maxBatchSize` sets the ready flag.
   */
  method FullBatchReadyAtOnce() returns (readyBefore: bool, readyAfter: bool)
    ensures !readyBefore && readyAfter
  {
    var runner := new ModelRunner<string, string>((xs: seq<string>) => Parsed(xs), 8, 3, 20);
    var r := runner.Submit("x", 0);
    r := runner.Submit("y", 1);
    readyBefore := runner.ready;
    r := runner.Submit("z", 2);
    readyAfter := runner.ready;
  }

  /**
   A single task on an idle runner arms the timer at its own time plus
   `maxWait`, without setting the ready flag; the dispatch that follows
   takes exactly that task and leaves no timer behind.
   */
  method LoneTaskWaitsForDeadline() returns (ready: bool, deadline: Option<int>, batch: seq<Task<string>>,
                                            after: Option<int>)
    ensures !ready && deadline == Some(20)
    ensures |batch| == 1 && batch[0].input == "t" && batch[0].time == 0
    ensures after == None
  {
    var runner := new ModelRunner<string, string>((xs: seq<string>) => Parsed(xs), 8, 3, 20);
    var r := runner.Submit("t", 0);
    ready, deadline := runner.ready, runner.timerDeadline;
    batch := runner.Dispatch();
    after := runner.timerDeadline;
  }

  /** A service that tags each input with its position in the batch. */
  function Tagging(xs: seq<string>): (r: ParseResult<(string, int)>)
    ensures r.Parsed? && |r.outputs| == |xs|
  {
    Parsed(seq(|xs|, i requires 0 <= i < |xs| => (xs[i], i)))
  }

  /** Order preservation: with a tagging service, each task receives the output for its own input. */
  method OutputsInOrder() returns (sa: Slot<(string, int)>, sb: Slot<(string, int)>, sc: Slot<(string, int)>)
    ensures sa == Done(Output(("a", 0)))
    ensures sb == Done(Output(("b", 1)))
    ensures sc == Done(Output(("c", 2)))
  {
    var runner := new ModelRunner<string, (string, int)>(Tagging, 8, 3, 20);
    var ra := runner.Submit("a", 0);
    var rb := runner.Submit("b", 1);
    var rc := runner.Submit("c", 2);
    ghost var q := [Task(0, "a", 0), Task(1, "b", 1), Task(2, "c", 2)];
    assert runner.queue == q;
    assert TakeBatch(q, 3).0 == q;
    var batch, results := runner.RunBatch();
    assert |results| == 3;
    assert results[0] == Output(("a", 0)) && results[1] == Output(("b", 1)) && results[2] == Output(("c", 2));
    sa, sb, sc := runner.slots[0], runner.slots[1], runner.slots[2];
  }

  /** Fail-together: a service that raises answers every task of the batch with the same exception. */
  method FailingServiceAnswersAll() returns (s0: Slot<string>, s1: Slot<string>)
    ensures s0 == Done(Raised(Exception("model crashed")))
    ensures s1 == Done(Raised(Exception("model crashed")))
  {
    var runner := new ModelRunner<string, string>((xs: seq<string>) => Failed(Exception("model crashed")), 8, 2, 20);
    var r0 := runner.Submit("p", 0);
    var r1 := runner.Submit("q", 5);
    ghost var q := runner.queue;
    assert |q| == 2 && q[0].id == 0 && q[1].id == 1;
    var batch, results := runner.RunBatch();
    assert batch == q;
    s0, s1 := runner.slots[0], runner.slots[1];
  }

  /**
   Fan-out zips tasks with outputs: a service that returns one output for a
   batch of two answers the first task and leaves the second pending.
   */
  method ShortResultStrandsTask() returns (s0: Slot<string>, s1: Slot<string>)
    ensures s0 == Done(Output("only"))
    ensures s1 == Pending
  {
    var runner := new ModelRunner<string, string>((xs: seq<string>) => Parsed(["only"]), 8, 2, 20);
    var r0 := runner.Submit("p", 0);
    var r1 := runner.Submit("q", 5);
    ghost var q := runner.queue;
    assert |q| == 2 && q[0].id == 0 && q[1].id == 1;
    var batch, results := runner.RunBatch();
    assert batch == q;
    s0, s1 := runner.slots[0], runner.slots[1];
  }

  /**
   A task is answered at most once: the answer a task receives in one
   dispatcher pass survives a later submission and a later pass, which
   answers only the new task.
   */
  method AnswerIsFinal() returns (first: Slot<string>, later: Slot<string>, other: Slot<string>)
    ensures first == Done(Output("a")) && later == first
    ensures other == Done(Output("b"))
  {
    var runner := new ModelRunner<string, string>((xs: seq<string>) => Parsed(xs), 8, 2, 20);
    var ra := runner.Submit("a", 0);
    ghost var q1 := runner.queue;
    assert |q1| == 1 && q1[0].id == 0;
    var batch1, results1 := runner.RunBatch();
    assert batch1 == q1;
    first := runner.slots[0];
    var rb := runner.Submit("b", 1);
    ghost var q2 := runner.queue;
    assert |q2| == 1 && q2[0].id == 1;
    var batch2, results2 := runner.RunBatch();
    assert batch2 == q2 && 0 !in Ids(batch2);
    later, other := runner.slots[0], runner.slots[1];
  }
}
