/**
 The concurrency of a resync: a producer that lists objects and sends work items into a bounded
 channel, workers that take items and report a result for each, a closer that waits for all of
 them, and a collector that gathers the errors from an unbuffered channel. The context is never
 cancelled.
 */
module Pipeline {
  import opened Prelude
  import opened Resync

  /** What the producer does next: send a work item, or report the result of listing a resource. */
  datatype Action = SendWork(item: WorkItem) | SendResult(err: Option<string>)

  datatype Worker = Idle | Busy(item: WorkItem) | Reporting(err: Option<string>) | Exited

  datatype State = State(
    script: seq<Action>,            // what the producer has still to do
    queue: seq<WorkItem>,           // the buffered work channel
    workClosed: bool,
    workers: seq<Worker>,
    errsClosed: bool,
    returned: bool,                 // the collector is done
    collected: seq<string>,         // errors gathered so far
    handled: multiset<WorkItem>,    // items that were drained or moved, successfully or not
    failures: multiset<string>)     // errors of handling items

  function Collect(collected: seq<string>, err: Option<string>): (r: seq<string>)
  {
    if err.Some? then collected + [err.value] else collected
  }

  function ErrorOf(err: Option<string>): (m: multiset<string>)
  {
    if err.Some? then multiset{err.value} else multiset{}
  }

  datatype Step =
    | Produce
    | CloseWork
    | Receive(w: nat)
    | Process(w: nat, err: Option<string>)
    | Report(w: nat)
    | Exit(w: nat)
    | CloseErrs
    | Return

  predicate AllExited(workers: seq<Worker>)
  {
    forall w :: 0 <= w < |workers| ==> workers[w] == Exited
  }

  ghost predicate NextStep(s: State, step: Step, s': State)
  {
    match step
    // the channel holds as many items as there are workers; results go straight to the collector
    case Produce =>
      && s.script != []
      && if s.script[0].SendWork?
         then |s.queue| < |s.workers| && s' == s.(script := s.script[1..], queue := s.queue + [s.script[0].item])
         else !s.returned && s' == s.(script := s.script[1..], collected := Collect(s.collected, s.script[0].err))
    case CloseWork =>
      s.script == [] && !s.workClosed && s' == s.(workClosed := true)
    case Receive(w) =>
      && w < |s.workers| && s.workers[w] == Idle && s.queue != []
      && s' == s.(queue := s.queue[1..], workers := s.workers[w := Busy(s.queue[0])])
    case Process(w, err) =>
      && w < |s.workers| && s.workers[w].Busy?
      && s' == s.(workers := s.workers[w := Reporting(err)], handled := s.handled + multiset{s.workers[w].item},
                  failures := s.failures + ErrorOf(err))
    case Report(w) =>
      && w < |s.workers| && s.workers[w].Reporting? && !s.returned
      && s' == s.(workers := s.workers[w := Idle], collected := Collect(s.collected, s.workers[w].err))
    case Exit(w) =>
      && w < |s.workers| && s.workers[w] == Idle && s.queue == [] && s.workClosed
      && s' == s.(workers := s.workers[w := Exited])
    case CloseErrs =>
      s.workClosed && AllExited(s.workers) && !s.errsClosed && s' == s.(errsClosed := true)
    case Return =>
      s.errsClosed && !s.returned && s' == s.(returned := true)
  }

  predicate Init(concurrency: nat, script: seq<Action>, s: State)
  {
    && s.script == script && s.queue == [] && !s.workClosed && !s.errsClosed && !s.returned
    && |s.workers| == concurrency && (forall w :: 0 <= w < concurrency ==> s.workers[w] == Idle)
    && s.collected == [] && s.handled == multiset{} && s.failures == multiset{}
  }

  ghost predicate Next(s: State, s': State)
  {
    exists step :: NextStep(s, step, s')
  }

  ghost predicate IsRun(concurrency: nat, script: seq<Action>, run: seq<State>)
  {
    && run != [] && Init(concurrency, script, run[0])
    && forall i :: 0 <= i < |run| - 1 ==> Next(run[i], run[i + 1])
  }

  /** The work items that the producer sends. */
  function WorkSent(script: seq<Action>): (items: multiset<WorkItem>)
  {
    if script == [] then multiset{}
    else (if script[0].SendWork? then multiset{script[0].item} else multiset{}) + WorkSent(script[1..])
  }

  /** The errors that the producer reports; a nil result is none. */
  function ErrorsSent(script: seq<Action>): (errs: multiset<string>)
  {
    if script == [] then multiset{}
    else (if script[0].SendResult? then ErrorOf(script[0].err) else multiset{}) + ErrorsSent(script[1..])
  }

  // ------------------------------------------------------------------ bookkeeping

  /** What is counted: how often an item or an error is under way, or the steps still to be taken at most. */
  datatype Book = Items(item: WorkItem) | Errors(err: string) | Steps

  function Count(b: bool): (n: nat)
  {
    if b then 1 else 0
  }

  function OfAction(k: Book, a: Action): (n: nat)
  {
    match k
    case Items(item) => Count(a == SendWork(item))
    case Errors(err) => Count(a == SendResult(Some(err)))
    case Steps => if a.SendWork? then 5 else 1
  }

  function OfScript(k: Book, script: seq<Action>): (n: nat)
  {
    if script == [] then 0 else OfAction(k, script[0]) + OfScript(k, script[1..])
  }

  function OfQueue(k: Book, queue: seq<WorkItem>): (n: nat)
  {
    match k
    case Items(item) => multiset(queue)[item]
    case Errors(_) => 0
    case Steps => 4 * |queue|
  }

  function OfWorker(k: Book, w: Worker): (n: nat)
  {
    match k
    case Items(item) => Count(w == Busy(item))
    case Errors(err) => Count(w == Reporting(Some(err)))
    case Steps => if w.Busy? then 4 else if w.Reporting? then 3 else if w.Idle? then 1 else 0
  }

  function OfWorkers(k: Book, workers: seq<Worker>): (n: nat)
  {
    if workers == [] then 0 else OfWorker(k, workers[0]) + OfWorkers(k, workers[1..])
  }

  lemma {:induction false} OfWorkersUpdate(k: Book, workers: seq<Worker>, i: nat, w: Worker)
    requires i < |workers|
    ensures OfWorkers(k, workers[i := w]) == OfWorkers(k, workers) - OfWorker(k, workers[i]) + OfWorker(k, w)
  {
    if i > 0 {
      OfWorkersUpdate(k, workers[1..], i - 1, w);
      assert workers[i := w][1..] == workers[1..][i - 1 := w];
    }
  }

  lemma {:induction false} NothingWithExited(k: Book, workers: seq<Worker>)
    requires AllExited(workers)
    ensures OfWorkers(k, workers) == 0
  {
    if workers != [] {
      NothingWithExited(k, workers[1..]);
    }
  }

  lemma {:induction false} OfScriptCounts(k: Book, script: seq<Action>)
    ensures k.Items? ==> OfScript(k, script) == WorkSent(script)[k.item]
    ensures k.Errors? ==> OfScript(k, script) == ErrorsSent(script)[k.err]
    ensures k.Steps? ==> OfScript(k, script) <= 5 * |script|
  {
    if script != [] {
      OfScriptCounts(k, script[1..]);
    }
  }

  function UnderWay(k: Book, s: State): (n: nat)
  {
    OfScript(k, s.script) + OfQueue(k, s.queue) + OfWorkers(k, s.workers)
  }

  function Flag(b: bool): (n: nat)
  {
    if b then 0 else 1
  }

  function Measure(s: State): (n: nat)
  {
    UnderWay(Steps, s) + Flag(s.workClosed) + Flag(s.errsClosed) + Flag(s.returned)
  }

  /** Nothing that is counted is lost or duplicated. */
  predicate Conserved(k: Book, script: seq<Action>, s: State)
  {
    match k
    case Items(item) => s.handled[item] + UnderWay(k, s) == OfScript(k, script)
    case Errors(err) => multiset(s.collected)[err] + UnderWay(k, s) == OfScript(k, script) + s.failures[err]
    case Steps => true
  }

  /** In which order the channels are closed and the goroutines end. */
  ghost predicate Ordered(s: State)
  {
    && |s.queue| <= |s.workers|
    && (s.workClosed ==> s.script == [])
    && (s.errsClosed ==> s.workClosed && AllExited(s.workers))
    && (s.returned ==> s.errsClosed)
    && (forall w :: 0 <= w < |s.workers| && s.workers[w] == Exited ==> s.workClosed && s.queue == [])
  }

  lemma StepOrdered(s: State, step: Step, s': State)
    requires Ordered(s) && NextStep(s, step, s')
    ensures Ordered(s') && |s'.workers| == |s.workers|
  {
  }

  lemma QueueShift(k: Book, queue: seq<WorkItem>)
    requires queue != []
    ensures OfQueue(k, queue) == OfQueue(k, queue[1..]) + OfWorker(k, Busy(queue[0])) || k.Steps?
  {
    assert queue == [queue[0]] + queue[1..];
  }

  lemma CollectCounts(collected: seq<string>, err: Option<string>, e: string)
    ensures multiset(Collect(collected, err))[e] == multiset(collected)[e] + Count(err == Some(e))
  {
  }

  /** What a step does to the workers and the queue, as far as the book is concerned. */
  lemma WorkersBook(k: Book, s: State, step: Step, s': State)
    requires NextStep(s, step, s')
    ensures step.Receive? ==>
              OfWorkers(k, s'.workers) == OfWorkers(k, s.workers) - OfWorker(k, Idle) + OfWorker(k, Busy(s.queue[0]))
    ensures step.Process? ==>
              OfWorkers(k, s'.workers)
                == OfWorkers(k, s.workers) - OfWorker(k, s.workers[step.w]) + OfWorker(k, Reporting(step.err))
    ensures step.Report? ==>
              OfWorkers(k, s'.workers) == OfWorkers(k, s.workers) - OfWorker(k, s.workers[step.w]) + OfWorker(k, Idle)
    ensures step.Exit? ==> OfWorkers(k, s'.workers) == OfWorkers(k, s.workers) - OfWorker(k, Idle) + OfWorker(k, Exited)
  {
    match step
    case Receive(w) => OfWorkersUpdate(k, s.workers, w, Busy(s.queue[0]));
    case Process(w, err) => OfWorkersUpdate(k, s.workers, w, Reporting(err));
    case Report(w) => OfWorkersUpdate(k, s.workers, w, Idle);
    case Exit(w) => OfWorkersUpdate(k, s.workers, w, Exited);
    case _ =>
  }

  lemma StepLowers(s: State, step: Step, s': State)
    requires NextStep(s, step, s')
    ensures Measure(s') < Measure(s)
  {
    WorkersBook(Steps, s, step, s');
  }

  lemma ItemsConserved(item: WorkItem, script: seq<Action>, s: State, step: Step, s': State)
    requires Conserved(Items(item), script, s) && NextStep(s, step, s')
    ensures Conserved(Items(item), script, s')
  {
    WorkersBook(Items(item), s, step, s');
    if step.Receive? {
      QueueShift(Items(item), s.queue);
    }
  }

  lemma ErrorsConserved(err: string, script: seq<Action>, s: State, step: Step, s': State)
    requires Conserved(Errors(err), script, s) && NextStep(s, step, s')
    ensures Conserved(Errors(err), script, s')
  {
    WorkersBook(Errors(err), s, step, s');
    if step.Produce? && s.script[0].SendResult? {
      CollectCounts(s.collected, s.script[0].err, err);
    } else if step.Report? {
      CollectCounts(s.collected, s.workers[step.w].err, err);
    }
  }

  lemma {:induction false} IdleWorkers(k: Book, workers: seq<Worker>)
    requires forall w :: 0 <= w < |workers| ==> workers[w] == Idle
    ensures OfWorkers(k, workers) == if k.Steps? then |workers| else 0
  {
    if workers != [] {
      IdleWorkers(k, workers[1..]);
    }
  }

  lemma StepConserves(k: Book, script: seq<Action>, s: State, step: Step, s': State)
    requires Conserved(k, script, s) && NextStep(s, step, s')
    ensures Conserved(k, script, s')
  {
    match k
    case Items(item) => ItemsConserved(item, script, s, step, s');
    case Errors(err) => ErrorsConserved(err, script, s, step, s');
    case Steps =>
  }

  lemma InitKeeps(k: Book, concurrency: nat, script: seq<Action>, s: State)
    requires Init(concurrency, script, s)
    ensures Ordered(s) && Conserved(k, script, s)
  {
    IdleWorkers(k, s.workers);
  }

  lemma NextKeeps(k: Book, script: seq<Action>, s: State, s': State)
    requires Ordered(s) && Conserved(k, script, s) && Next(s, s')
    ensures Ordered(s') && |s'.workers| == |s.workers|
    ensures Conserved(k, script, s') && Measure(s') < Measure(s)
  {
    var step :| NextStep(s, step, s');
    StepOrdered(s, step, s');
    StepLowers(s, step, s');
    StepConserves(k, script, s, step, s');
  }

  lemma {:induction false} RunKeeps(k: Book, concurrency: nat, script: seq<Action>, run: seq<State>, i: nat)
    requires IsRun(concurrency, script, run) && i < |run|
    ensures Ordered(run[i]) && |run[i].workers| == concurrency
    ensures Conserved(k, script, run[i]) && Measure(run[i]) + i <= Measure(run[0])
  {
    if i == 0 {
      InitKeeps(k, concurrency, script, run[0]);
    } else {
      RunKeeps(k, concurrency, script, run, i - 1);
      assert Next(run[i - 1], run[i - 1 + 1]);
      NextKeeps(k, script, run[i - 1], run[i]);
    }
  }

  // ------------------------------------------------------------------ no deadlock

  ghost predicate CanContinue(s: State)
  {
    exists s' :: Next(s, s')
  }

  lemma Continue(s: State, step: Step, s': State)
    requires NextStep(s, step, s')
    ensures CanContinue(s)
  {
    assert Next(s, s');
  }

  lemma WorkerContinues(s: State, w: nat)
    requires w < |s.workers| && !s.returned && (s.workers[w].Busy? || s.workers[w].Reporting?)
    ensures CanContinue(s)
  {
    if s.workers[w].Busy? {
      Continue(s, Process(w, None), s.(workers := s.workers[w := Reporting(None)],
                                       handled := s.handled + multiset{s.workers[w].item},
                                       failures := s.failures + ErrorOf(None)));
    } else {
      Continue(s, Report(w), s.(workers := s.workers[w := Idle], collected := Collect(s.collected, s.workers[w].err)));
    }
  }

  lemma IdleContinues(s: State, w: nat)
    requires w < |s.workers| && s.workers[w] == Idle && (s.queue != [] || s.workClosed)
    ensures CanContinue(s)
  {
    if s.queue != [] {
      Continue(s, Receive(w), s.(queue := s.queue[1..], workers := s.workers[w := Busy(s.queue[0])]));
    } else {
      Continue(s, Exit(w), s.(workers := s.workers[w := Exited]));
    }
  }

  /** There is a worker for every item that is still to be sent: one at least, or none is needed. */
  predicate Staffed(concurrency: nat, script: seq<Action>)
  {
    concurrency > 0 || WorkSent(script) == multiset{}
  }

  lemma ProducerContinues(s: State)
    requires Ordered(s) && !s.returned && s.script != [] && Staffed(|s.workers|, s.script)
    requires forall w :: 0 <= w < |s.workers| ==> s.workers[w] == Idle || s.workers[w] == Exited
    ensures CanContinue(s)
  {
    if s.script[0].SendResult? {
      Continue(s, Produce, s.(script := s.script[1..], collected := Collect(s.collected, s.script[0].err)));
    } else if |s.queue| < |s.workers| {
      Continue(s, Produce, s.(script := s.script[1..], queue := s.queue + [s.script[0].item]));
    } else {
      assert s.script[0].item in WorkSent(s.script);
      IdleContinues(s, 0);
    }
  }

  /** With at least one worker, or no work, some goroutine can always go on until the collector has returned. */
  lemma NoDeadlock(s: State)
    requires Ordered(s) && Staffed(|s.workers|, s.script)
    ensures CanContinue(s) <==> !s.returned
  {
    if s.returned {
      forall s' ensures !Next(s, s') {
        forall step ensures !NextStep(s, step, s') {
        }
      }
    } else if w :| 0 <= w < |s.workers| && (s.workers[w].Busy? || s.workers[w].Reporting?) {
      WorkerContinues(s, w);
    } else if s.script != [] {
      ProducerContinues(s);
    } else if !s.workClosed {
      Continue(s, CloseWork, s.(workClosed := true));
    } else if w :| 0 <= w < |s.workers| && s.workers[w] == Idle {
      IdleContinues(s, w);
    } else if !s.errsClosed {
      Continue(s, CloseErrs, s.(errsClosed := true));
    } else {
      Continue(s, Return, s.(returned := true));
    }
  }

  /** What a book says at the end of a run. */
  lemma ItemsAtEnd(item: WorkItem, concurrency: nat, script: seq<Action>, run: seq<State>)
    requires IsRun(concurrency, script, run)
    ensures run[|run| - 1].handled[item] <= WorkSent(script)[item]
    ensures run[|run| - 1].returned ==> run[|run| - 1].handled[item] == WorkSent(script)[item]
  {
    var last := run[|run| - 1];
    RunKeeps(Items(item), concurrency, script, run, |run| - 1);
    OfScriptCounts(Items(item), script);
    if last.returned {
      NothingWithExited(Items(item), last.workers);
      if last.workers == [] {
        assert last.queue == [];
      } else {
        assert last.workers[0] == Exited;
      }
    }
  }

  lemma ErrorsAtEnd(err: string, concurrency: nat, script: seq<Action>, run: seq<State>)
    requires IsRun(concurrency, script, run) && run[|run| - 1].returned
    ensures multiset(run[|run| - 1].collected)[err] == (ErrorsSent(script) + run[|run| - 1].failures)[err]
  {
    RunKeeps(Errors(err), concurrency, script, run, |run| - 1);
    OfScriptCounts(Errors(err), script);
    NothingWithExited(Errors(err), run[|run| - 1].workers);
  }

  /** No work appears that was not in the script. */
  lemma StaysStaffed(concurrency: nat, script: seq<Action>, run: seq<State>)
    requires IsRun(concurrency, script, run) && Staffed(concurrency, script)
    ensures Staffed(concurrency, run[|run| - 1].script)
  {
    var rest := run[|run| - 1].script;
    if concurrency == 0 {
      forall item: WorkItem ensures WorkSent(rest)[item] == 0 {
        RunKeeps(Items(item), concurrency, script, run, |run| - 1);
        OfScriptCounts(Items(item), script);
        OfScriptCounts(Items(item), rest);
      }
    }
  }

  /**
   Every schedule of a resync with at least one worker, or without work, ends, and it only ends with the collector
   returning. At that point each work item that was sent has been handled exactly once, and the
   errors returned are exactly the errors of listing resources and of handling items.
   */
  lemma ResyncCompletes(concurrency: nat, script: seq<Action>, run: seq<State>)
    requires Staffed(concurrency, script) && IsRun(concurrency, script, run)
    ensures |run| - 1 <= 5 * |script| + concurrency + 3
    ensures var last := run[|run| - 1];
            && last.handled <= WorkSent(script)
            && (CanContinue(last) <==> !last.returned)
            && (last.returned ==> AllExited(last.workers) && last.handled == WorkSent(script))
            && (last.returned ==> multiset(last.collected) == ErrorsSent(script) + last.failures)
  {
    var last := run[|run| - 1];
    RunKeeps(Steps, concurrency, script, run, |run| - 1);
    IdleWorkers(Steps, run[0].workers);
    OfScriptCounts(Steps, script);
    StaysStaffed(concurrency, script, run);
    NoDeadlock(last);
    HandledAll(concurrency, script, run);
    if last.returned {
      CollectedAll(concurrency, script, run);
    }
  }

  lemma CollectedAll(concurrency: nat, script: seq<Action>, run: seq<State>)
    requires IsRun(concurrency, script, run) && run[|run| - 1].returned
    ensures multiset(run[|run| - 1].collected) == ErrorsSent(script) + run[|run| - 1].failures
  {
    var last := run[|run| - 1];
    forall err: string ensures multiset(last.collected)[err] == (ErrorsSent(script) + last.failures)[err] {
      ErrorsAtEnd(err, concurrency, script, run);
    }
  }

  lemma HandledAll(concurrency: nat, script: seq<Action>, run: seq<State>)
    requires IsRun(concurrency, script, run)
    ensures run[|run| - 1].handled <= WorkSent(script)
    ensures run[|run| - 1].returned ==> run[|run| - 1].handled == WorkSent(script)
  {
    forall item: WorkItem
      ensures run[|run| - 1].handled[item] <= WorkSent(script)[item]
      ensures run[|run| - 1].returned ==> run[|run| - 1].handled[item] == WorkSent(script)[item]
    {
      ItemsAtEnd(item, concurrency, script, run);
    }
  }

  // ------------------------------------------------------------------ no workers

  ghost predicate NeverHandles(s: State)
  {
    s.workers == [] && s.handled == multiset{}
  }

  lemma {:induction false} WithoutWorkers(script: seq<Action>, run: seq<State>, i: nat)
    requires IsRun(0, script, run) && i < |run|
    ensures NeverHandles(run[i])
  {
    if i > 0 {
      WithoutWorkers(script, run, i - 1);
      assert Next(run[i - 1], run[i - 1 + 1]);
    }
  }

  /** Without workers a resync never returns as soon as there is a single work item. */
  lemma NoWorkersStuck(script: seq<Action>, run: seq<State>)
    requires IsRun(0, script, run) && WorkSent(script) != multiset{}
    ensures !run[|run| - 1].returned
  {
    HandledAll(0, script, run);
    WithoutWorkers(script, run, |run| - 1);
  }

  /** Every schedule goes on as long as some goroutine can, so it reaches a state in which none can. */
  lemma {:induction false} LongestRun(concurrency: nat, script: seq<Action>, run: seq<State>)
    returns (longer: seq<State>)
    requires IsRun(concurrency, script, run)
    ensures IsRun(concurrency, script, longer) && !CanContinue(longer[|longer| - 1])
    decreases Measure(run[|run| - 1])
  {
    var last := run[|run| - 1];
    if CanContinue(last) {
      var next :| Next(last, next);
      var step :| NextStep(last, step, next);
      StepLowers(last, step, next);
      RunExtends(concurrency, script, run, next);
      longer := LongestRun(concurrency, script, run + [next]);
    } else {
      longer := run;
    }
  }

  lemma RunExtends(concurrency: nat, script: seq<Action>, run: seq<State>, next: State)
    requires IsRun(concurrency, script, run) && Next(run[|run| - 1], next)
    ensures IsRun(concurrency, script, run + [next])
  {
    var longer := run + [next];
    forall i | 0 <= i < |longer| - 1 ensures Next(longer[i], longer[i + 1]) {
      if i < |run| - 1 {
        assert Next(run[i], run[i + 1]);
      }
    }
  }

  /** No schedule is ever stuck before the collector has returned. */
  ghost predicate NeverStuck(concurrency: nat, script: seq<Action>)
  {
    forall run: seq<State> :: IsRun(concurrency, script, run) && !run[|run| - 1].returned
                             ==> CanContinue(run[|run| - 1])
  }

  /** A resync can always go on until the collector returns exactly if it has at least one worker or no work. */
  lemma NeverStuckIff(concurrency: nat, script: seq<Action>)
    ensures NeverStuck(concurrency, script) <==> concurrency > 0 || WorkSent(script) == multiset{}
  {
    if Staffed(concurrency, script) {
      forall run: seq<State> | IsRun(concurrency, script, run) && !run[|run| - 1].returned
        ensures CanContinue(run[|run| - 1])
      {
        ResyncCompletes(concurrency, script, run);
      }
    } else {
      var init := State(script, [], false, [], false, false, [], multiset{}, multiset{});
      assert IsRun(concurrency, script, [init]);
      var run := LongestRun(concurrency, script, [init]);
      NoWorkersStuck(script, run);
    }
  }
}
