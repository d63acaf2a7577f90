/** The queue of tasks and the worker loop of src/base/src/ThreadPool.cc as interleaved steps, with a
    positive maximum queue size. */
module ThreadPools {
  import opened ConditionVariables

  type Task = int

  /** Workers by what they are doing: testing running_, about to enter take(), blocked around
      notEmpty_, executing a task, or finished. */
  datatype Workers = Workers(testing: nat, entering: nat, blocked: Waiters, executing: nat, exited: nat) {
    function Size(): nat {
      testing + entering + blocked.Size() + executing + exited
    }
  }

  datatype Pool = Pool(
    queue: seq<Task>,        // queue_
    maxSize: nat,            // maxQueueSize_
    running: bool,           // running_
    workers: Workers,
    submitters: Waiters,     // around notFull_
    held: multiset<Task>,    // tasks of submitters that are blocked in run
    offered: multiset<Task>, // history: every task passed to run
    refused: multiset<Task>, // history: tasks run returned without queueing
    accepted: seq<Task>,     // history: tasks in the order they entered the queue
    taken: seq<Task>)        // history: tasks in the order take() returned them

  /** A pool that start() has given its threads and nobody has used yet. */
  predicate Started(p: Pool, numThreads: nat, maxSize: nat) {
    && p.maxSize == maxSize && p.running
    && p.workers == Workers(numThreads, 0, Waiters(0, 0, 0), 0, 0) && p.submitters == Waiters(0, 0, 0)
    && |p.queue| == 0 && |p.accepted| == 0 && |p.taken| == 0
    && |p.held| == 0 && |p.offered| == 0 && |p.refused| == 0
  }

  function NotifyAll(w: Waiters): Waiters {
    w.(waiting := 0, signalled := w.signalled + w.waiting)
  }

  function WithBlocked(p: Pool, w: Waiters): Pool {
    p.(workers := p.workers.(blocked := w))
  }

  /** run, from getting the mutex to waiting or returning. */
  function RunSection(p: Pool, t: Task): Pool {
    if |p.queue| >= p.maxSize && p.running then
      p.(submitters := p.submitters.Block(), held := p.held + multiset{t})
    else if !p.running then p.(refused := p.refused + multiset{t})
    else
      WithBlocked(p.(queue := p.queue + [t], accepted := p.accepted + [t]), p.workers.blocked.Notify())
  }

  /** take, likewise; a worker that gets no task goes straight back to testing running_. */
  function TakeSection(p: Pool): Pool {
    if p.queue == [] && p.running then
      WithBlocked(p, p.workers.blocked.Block())
    else if p.queue == [] then
      p.(workers := p.workers.(testing := p.workers.testing + 1))
    else
      p.(queue := p.queue[1..], taken := p.taken + [p.queue[0]],
         workers := p.workers.(executing := p.workers.executing + 1),
         submitters := p.submitters.Notify())
  }

  function StopSection(p: Pool): Pool {
    WithBlocked(p, NotifyAll(p.workers.blocked)).(running := false, submitters := NotifyAll(p.submitters))
  }

  datatype Step =
    | Submit(t: Task) | SubmitAgain(u: Task, spuriousSubmit: bool) | WakeSubmitter
    | TestRunning | Take | TakeAgain(spuriousTake: bool) | WakeWorker | TaskReturns
    | Stop

  predicate Enabled(p: Pool, step: Step) {
    match step
    case Submit(_) => true
    case SubmitAgain(u, spurious) => p.submitters.CanResume(spurious) && u in p.held
    case WakeSubmitter => p.submitters.waiting > 0
    case TestRunning => p.workers.testing > 0
    case Take => p.workers.entering > 0
    case TakeAgain(spurious) => p.workers.blocked.CanResume(spurious)
    case WakeWorker => p.workers.blocked.waiting > 0
    case TaskReturns => p.workers.executing > 0
    case Stop => true
  }

  function Do(p: Pool, step: Step): Pool
    requires Enabled(p, step)
  {
    var w := p.workers;
    match step
    case Submit(t) => RunSection(p.(offered := p.offered + multiset{t}), t)
    case SubmitAgain(u, spurious) =>
      RunSection(p.(submitters := p.submitters.Resume(spurious), held := p.held - multiset{u}), u)
    case WakeSubmitter => p.(submitters := p.submitters.WakeSpuriously())
    case TestRunning =>
      if p.running then p.(workers := w.(testing := w.testing - 1, entering := w.entering + 1))
      else p.(workers := w.(testing := w.testing - 1, exited := w.exited + 1))
    case Take => TakeSection(p.(workers := w.(entering := w.entering - 1)))
    case TakeAgain(spurious) => TakeSection(WithBlocked(p, w.blocked.Resume(spurious)))
    case WakeWorker => WithBlocked(p, w.blocked.WakeSpuriously())
    case TaskReturns => p.(workers := w.(executing := w.executing - 1, testing := w.testing + 1))
    case Stop => StopSection(p)
  }

  function Run(p: Pool, steps: seq<Step>): Pool
    decreases |steps|
  {
    if steps == [] then p
    else Run(if Enabled(p, steps[0]) then Do(p, steps[0]) else p, steps[1..])
  }

  // ---------------------------------------------------------------- the invariant

  /** Nothing wakes too few threads while the pool runs; nobody waits once it has stopped. */
  ghost predicate NoLostWakeup(p: Pool) {
    && p.maxSize > 0 && |p.queue| <= p.maxSize
    && (if p.running then
          && (p.workers.blocked.waiting > 0 ==> |p.queue| <= p.workers.blocked.signalled)
          && (p.submitters.waiting > 0 ==> p.maxSize - |p.queue| <= p.submitters.signalled)
        else
          p.workers.blocked.waiting == 0 && p.submitters.waiting == 0)
  }

  /** First in, first out, each task once; a task that was not accepted is still with its blocked
      submitter or was refused, and while the pool runs none is refused. */
  ghost predicate Conserved(p: Pool) {
    && p.accepted == p.taken + p.queue
    && p.offered == multiset(p.accepted) + p.held + p.refused
    && |p.held| == p.submitters.Size()
    && (p.running ==> p.refused == multiset{})
  }

  ghost predicate Inv(p: Pool) {
    NoLostWakeup(p) && Conserved(p)
  }

  lemma StepKeepsWakeups(p: Pool, step: Step)
    requires NoLostWakeup(p) && Enabled(p, step)
    ensures NoLostWakeup(Do(p, step))
  {
  }

  lemma StepKeepsSize(p: Pool, step: Step)
    requires Enabled(p, step)
    ensures Do(p, step).workers.Size() == p.workers.Size() && Do(p, step).maxSize == p.maxSize
  {
  }

  /** `held` is what the other blocked submitters hold. */
  lemma RunConserves(p: Pool, t: Task)
    requires p.accepted == p.taken + p.queue
    requires p.offered == multiset(p.accepted) + (p.held + multiset{t}) + p.refused
    requires |p.held| == p.submitters.Size() && (p.running ==> p.refused == multiset{})
    ensures Conserved(RunSection(p, t))
  {
    if |p.queue| < p.maxSize && p.running {
      assert p.taken + (p.queue + [t]) == p.accepted + [t];
      assert multiset(p.accepted + [t]) == multiset(p.accepted) + multiset{t};
    }
  }

  lemma FirstMoves(taken: seq<Task>, queue: seq<Task>)
    requires queue != []
    ensures taken + [queue[0]] + queue[1..] == taken + queue
  {
    assert queue == [queue[0]] + queue[1..];
  }

  lemma TakeConserves(p: Pool)
    requires Conserved(p)
    ensures Conserved(TakeSection(p))
  {
    if p.queue != [] {
      FirstMoves(p.taken, p.queue);
    }
  }

  lemma StepConserves(p: Pool, step: Step)
    requires Conserved(p) && Enabled(p, step)
    ensures Conserved(Do(p, step))
  {
    match step
    case Submit(t) => RunConserves(p.(offered := p.offered + multiset{t}), t);
    case SubmitAgain(u, spurious) =>
      var others := p.held - multiset{u};
      assert p.held == others + multiset{u};
      RunConserves(p.(submitters := p.submitters.Resume(spurious), held := others), u);
    case Take => TakeConserves(p.(workers := p.workers.(entering := p.workers.entering - 1)));
    case TakeAgain(spurious) => TakeConserves(WithBlocked(p, p.workers.blocked.Resume(spurious)));
    case _ =>
  }

  lemma StepKeeps(p: Pool, step: Step)
    requires Inv(p) && Enabled(p, step)
    ensures Inv(Do(p, step))
    ensures Do(p, step).workers.Size() == p.workers.Size() && Do(p, step).maxSize == p.maxSize
  {
    StepKeepsWakeups(p, step);
    StepKeepsSize(p, step);
    StepConserves(p, step);
  }

  lemma {:induction false} EveryRunKeeps(p: Pool, steps: seq<Step>)
    requires Inv(p)
    ensures Inv(Run(p, steps))
    ensures Run(p, steps).workers.Size() == p.workers.Size() && Run(p, steps).maxSize == p.maxSize
    decreases |steps|
  {
    if steps != [] {
      if Enabled(p, steps[0]) {
        StepKeeps(p, steps[0]);
        EveryRunKeeps(Do(p, steps[0]), steps[1..]);
      } else {
        EveryRunKeeps(p, steps[1..]);
      }
    }
  }

  // ---------------------------------------------------------------- main results

  lemma NoTasks(offered: multiset<Task>, accepted: multiset<Task>, held: multiset<Task>, refused: multiset<Task>)
    requires |offered| == 0 && |accepted| == 0 && |held| == 0 && |refused| == 0
    ensures offered == accepted + held + refused && refused == multiset{}
  {
  }

  lemma StartedInv(start: Pool, numThreads: nat, maxSize: nat)
    requires Started(start, numThreads, maxSize) && maxSize > 0
    ensures Inv(start) && start.workers.Size() == numThreads && start.maxSize == maxSize
  {
    var p := start;
    assert NoLostWakeup(p);
    assert p.accepted == p.taken + p.queue;
    assert p.offered == multiset(p.accepted) + p.held + p.refused && p.refused == multiset{} by {
      NoTasks(p.offered, multiset(p.accepted), p.held, p.refused);
    }
    assert p.workers.Size() == numThreads;
  }

  /** What is promised of a pool with these many workers and places. */
  ghost predicate Safe(p: Pool, numThreads: nat, maxSize: nat) {
    && |p.queue| <= maxSize
    && p.accepted == p.taken + p.queue
    && p.offered == multiset(p.accepted) + p.held + p.refused
    && |p.held| == p.submitters.Size() && (p.running ==> p.refused == multiset{})
    && p.workers.Size() == numThreads
    && (p.running && p.workers.blocked.waiting > 0 ==> |p.queue| <= p.workers.blocked.signalled)
    && (p.running && p.submitters.waiting > 0 ==> maxSize - |p.queue| <= p.submitters.signalled)
  }

  lemma RunIsSafe(p: Pool, steps: seq<Step>)
    requires Inv(p)
    ensures Safe(Run(p, steps), p.workers.Size(), p.maxSize)
  {
    EveryRunKeeps(p, steps);
  }

  /** In every run the queue stays within its bound, accepted tasks are taken at most once and in
      order, every task passed to run is accepted, still with its blocked submitter or, once the pool
      has stopped, refused; no worker is lost, and while the pool runs no wake-up is lost. */
  lemma PoolIsSafe(start: Pool, numThreads: nat, maxSize: nat, steps: seq<Step>)
    requires Started(start, numThreads, maxSize) && numThreads > 0 && maxSize > 0
    ensures Safe(Run(start, steps), numThreads, maxSize)
  {
    StartedInv(start, numThreads, maxSize);
    RunIsSafe(start, steps);
  }

  lemma {:induction false} StoppedStaysStopped(p: Pool, steps: seq<Step>)
    requires !p.running
    ensures !Run(p, steps).running
    decreases |steps|
  {
    if steps != [] {
      StoppedStaysStopped(if Enabled(p, steps[0]) then Do(p, steps[0]) else p, steps[1..]);
    }
  }

  /** After stop's critical section nobody is waiting, on either side, and nobody ever waits again. */
  lemma NobodyWaitsAfterStop(p: Pool, steps: seq<Step>)
    requires Inv(p)
    ensures var p' := Run(StopSection(p), steps);
            !p'.running && p'.workers.blocked.waiting == 0 && p'.submitters.waiting == 0
  {
    StepKeeps(p, Stop);
    EveryRunKeeps(StopSection(p), steps);
    StoppedStaysStopped(StopSection(p), steps);
  }

  // ---------------------------------------------------------------- while the pool runs

  predicate NobodyLeft(p: Pool) {
    p.running ==> p.workers.exited == 0
  }

  lemma {:induction false} RunKeepsWorkers(p: Pool, steps: seq<Step>)
    requires NobodyLeft(p)
    ensures NobodyLeft(Run(p, steps))
    decreases |steps|
  {
    if steps != [] {
      RunKeepsWorkers(if Enabled(p, steps[0]) then Do(p, steps[0]) else p, steps[1..]);
    }
  }

  /** As long as the pool runs, no worker leaves its loop. */
  lemma NoWorkerLeavesARunningPool(start: Pool, numThreads: nat, maxSize: nat, steps: seq<Step>)
    requires Started(start, numThreads, maxSize)
    ensures Run(start, steps).running ==> Run(start, steps).workers.exited == 0
  {
    RunKeepsWorkers(start, steps);
  }

  /** A worker that is neither asleep nor executing goes on. */
  predicate Moves(step: Step) {
    step.TestRunning? || step.Take? || step.TakeAgain?
  }

  /** While it runs, some worker can move on unless each of them sleeps beside an empty queue or is
      executing a task. */
  lemma RunningWorkersMove(p: Pool)
    requires Inv(p) && p.running && NobodyLeft(p)
    ensures (exists step :: Moves(step) && Enabled(p, step))
              <==> p.workers.blocked.waiting + p.workers.executing < p.workers.Size()
    ensures p.queue != [] && p.workers.executing < p.workers.Size() ==>
              exists step :: Moves(step) && Enabled(p, step)
  {
    var w := p.workers;
    if w.testing > 0 { assert Moves(TestRunning) && Enabled(p, TestRunning); }
    if w.entering > 0 { assert Moves(Take) && Enabled(p, Take); }
    if w.blocked.signalled > 0 { assert Moves(TakeAgain(false)) && Enabled(p, TakeAgain(false)); }
    if w.blocked.woken > 0 { assert Moves(TakeAgain(true)) && Enabled(p, TakeAgain(true)); }
  }

  /** How many steps the workers can make before one of them takes the front task. */
  function Distance(p: Pool): nat {
    2 * p.workers.executing + p.workers.testing
  }

  lemma StepTakesFront(p: Pool, step: Step)
    requires p.running && p.queue != [] && Enabled(p, step) && !step.Stop?
    ensures var q := Do(p, step);
            && q.running
            && if step.Take? || step.TakeAgain? then
                 q.taken == p.taken + [p.queue[0]]
               else
                 && q.taken == p.taken && q.queue != [] && q.queue[0] == p.queue[0]
                 && Distance(q) + (if WorkerStep(step) then 1 else 0) == Distance(p)
  {
  }

  lemma {:induction false} TakenGrows(p: Pool, steps: seq<Step>)
    ensures p.taken <= Run(p, steps).taken
    decreases |steps|
  {
    if steps != [] {
      TakenGrows(if Enabled(p, steps[0]) then Do(p, steps[0]) else p, steps[1..]);
    }
  }

  /** While the pool runs and whatever is interleaved, so many worker steps take the front task. */
  lemma {:induction false} FrontIsTaken(p: Pool, steps: seq<Step>)
    requires p.running && p.queue != [] && Stop !in steps && WorkerSteps(p, steps) > Distance(p)
    ensures p.taken + [p.queue[0]] <= Run(p, steps).taken
    decreases |steps|
  {
    assert steps[0] in steps && forall x :: x in steps[1..] ==> x in steps;
    if !Enabled(p, steps[0]) {
      FrontIsTaken(p, steps[1..]);
    } else {
      StepTakesFront(p, steps[0]);
      if steps[0].Take? || steps[0].TakeAgain? {
        TakenGrows(Do(p, steps[0]), steps[1..]);
      } else {
        FrontIsTaken(Do(p, steps[0]), steps[1..]);
      }
    }
  }

  /** A worker leaves its loop only by the test of running_, and only once the pool has stopped. */
  lemma ExitsOnlyByTheTest(p: Pool, step: Step)
    requires Enabled(p, step)
    ensures Do(p, step).workers.exited
              == p.workers.exited + (if step.TestRunning? && !p.running then 1 else 0)
  {
  }

  /** A thread woken for nothing gets the mutex and goes back to sleep: nothing has changed. */
  lemma SpuriousWakeup(p: Pool, u: Task)
    requires p.running
    ensures p.workers.blocked.waiting > 0 && p.queue == [] ==>
              && Enabled(Do(p, WakeWorker), TakeAgain(true))
              && Do(Do(p, WakeWorker), TakeAgain(true)) == p
    ensures p.submitters.waiting > 0 && |p.queue| >= p.maxSize && u in p.held ==>
              && Enabled(Do(p, WakeSubmitter), SubmitAgain(u, true))
              && Do(Do(p, WakeSubmitter), SubmitAgain(u, true)) == p
  {
    if u in p.held {
      assert p.held - multiset{u} + multiset{u} == p.held;
    }
  }

  // ---------------------------------------------------------------- what happens to a task

  /** A submitter with the mutex: refused once the pool has stopped, else blocked exactly when the
      queue is full, else its task is the last of the queue and one sleeping worker is woken. */
  lemma SubmitExactly(p: Pool, t: Task)
    ensures var q := Do(p, Submit(t));
            && q.offered == p.offered + multiset{t} && q.running == p.running && q.taken == p.taken
            && if !p.running then
                 q.refused == p.refused + multiset{t} && q.queue == p.queue && q.held == p.held
               else if |p.queue| >= p.maxSize then
                 && q.held == p.held + multiset{t} && q.queue == p.queue && q.refused == p.refused
                 && q.submitters.waiting == p.submitters.waiting + 1
               else
                 && q.queue == p.queue + [t] && q.accepted == p.accepted + [t] && q.held == p.held
                 && q.refused == p.refused && q.submitters == p.submitters
                 && p.workers.blocked.OneFewer(q.workers.blocked)
  {
  }

  /** The tasks passed to run. */
  function Submitted(steps: seq<Step>): multiset<Task> {
    if steps == [] then multiset{}
    else (if steps[0].Submit? then multiset{steps[0].t} else multiset{}) + Submitted(steps[1..])
  }

  lemma {:induction false} OfferedExactly(p: Pool, steps: seq<Step>)
    ensures Run(p, steps).offered == p.offered + Submitted(steps)
    decreases |steps|
  {
    if steps != [] {
      OfferedExactly(if Enabled(p, steps[0]) then Do(p, steps[0]) else p, steps[1..]);
    }
  }

  lemma {:induction false} AcceptedStays(p: Pool, steps: seq<Step>)
    requires !p.running
    ensures Run(p, steps).accepted == p.accepted && !Run(p, steps).running
    decreases |steps|
  {
    if steps != [] {
      AcceptedStays(if Enabled(p, steps[0]) then Do(p, steps[0]) else p, steps[1..]);
    }
  }

  /** After stop no task is accepted any more: each later one, and each of a submitter that was blocked,
      is refused as soon as its thread has the mutex. */
  lemma NothingAcceptedAfterStop(p: Pool, steps: seq<Step>)
    requires Inv(p) && !p.running
    ensures var q := Run(p, steps);
            && q.accepted == p.accepted
            && q.held + q.refused == p.held + p.refused + Submitted(steps)
  {
    AcceptedStays(p, steps);
    OfferedExactly(p, steps);
    EveryRunKeeps(p, steps);
    var q := Run(p, steps);
    RestOfOffered(multiset(p.accepted), p.held, p.refused, Submitted(steps), q.held, q.refused);
  }

  lemma RestOfOffered(accepted: multiset<Task>, held: multiset<Task>, refused: multiset<Task>,
                      submitted: multiset<Task>, held': multiset<Task>, refused': multiset<Task>)
    requires accepted + held' + refused' == accepted + held + refused + submitted
    ensures held' + refused' == held + refused + submitted
  {
    var left, right := accepted + held' + refused', accepted + held + refused + submitted;
    forall x
      ensures (held' + refused')[x] == (held + refused + submitted)[x]
    {
      assert left[x] == accepted[x] + (held' + refused')[x];
      assert right[x] == accepted[x] + (held + refused + submitted)[x];
    }
  }

  // ---------------------------------------------------------------- after stop

  /** How many steps the workers can still make once the pool has stopped. */
  function Rank(p: Pool): nat {
    3 * (p.workers.entering + p.workers.blocked.Size()) + 2 * p.workers.executing + p.workers.testing
  }

  predicate WorkerStep(step: Step) {
    step.TestRunning? || step.Take? || step.TakeAgain? || step.TaskReturns?
  }

  /** How many worker steps of a schedule take effect. */
  function WorkerSteps(p: Pool, steps: seq<Step>): nat
    decreases |steps|
  {
    if steps == [] then 0
    else if Enabled(p, steps[0]) then (if WorkerStep(steps[0]) then 1 else 0) + WorkerSteps(Do(p, steps[0]), steps[1..])
    else WorkerSteps(p, steps[1..])
  }

  /** After stop every worker is on its way out: each worker step uses up rank and nothing gives any
      back, so at most Rank(p) of them remain; while some worker has not exited one of them, or the
      return of a running task, is possible; and at rank 0 all have exited. */
  lemma {:induction false} WorkersDrain(p: Pool, steps: seq<Step>)
    requires Inv(p) && !p.running
    ensures WorkerSteps(p, steps) + Rank(Run(p, steps)) <= Rank(p)
    decreases |steps|
  {
    if steps != [] {
      if Enabled(p, steps[0]) {
        StepKeeps(p, steps[0]);
        WorkersDrain(Do(p, steps[0]), steps[1..]);
      } else {
        WorkersDrain(p, steps[1..]);
      }
    }
  }

  lemma SomeWorkerCanMove(p: Pool)
    requires Inv(p) && !p.running
    ensures p.workers.exited < p.workers.Size() <==> exists step :: WorkerStep(step) && Enabled(p, step)
    ensures p.workers.exited == p.workers.Size() <==> Rank(p) == 0
  {
    var w := p.workers;
    if w.testing > 0 { assert WorkerStep(TestRunning) && Enabled(p, TestRunning); }
    if w.entering > 0 { assert WorkerStep(Take) && Enabled(p, Take); }
    if w.executing > 0 { assert WorkerStep(TaskReturns) && Enabled(p, TaskReturns); }
    if w.blocked.signalled > 0 { assert WorkerStep(TakeAgain(false)) && Enabled(p, TakeAgain(false)); }
    if w.blocked.woken > 0 { assert WorkerStep(TakeAgain(true)) && Enabled(p, TakeAgain(true)); }
  }

  // ---------------------------------------------------------------- the object

  class ThreadPool {
    const maxQueueSize_: nat
    var queue_: seq<Task>
    var running_: bool
    ghost var workers: Workers
    ghost var submitters: Waiters
    ghost var held: multiset<Task>
    ghost var offered: multiset<Task>
    ghost var refused: multiset<Task>
    ghost var accepted: seq<Task>
    ghost var taken: seq<Task>

    ghost function Model(): Pool
      reads this
    {
      Pool(queue_, maxQueueSize_, running_, workers, submitters, held, offered, refused, accepted, taken)
    }

    constructor (numThreads: nat, maxSize: nat)
      requires numThreads > 0 && maxSize > 0
      ensures Started(Model(), numThreads, maxSize) && Inv(Model())
    {
      maxQueueSize_, queue_, running_ := maxSize, [], true;
      workers, submitters := Workers(numThreads, 0, Waiters(0, 0, 0), 0, 0), Waiters(0, 0, 0);
      held, offered, refused, accepted, taken := multiset{}, multiset{}, multiset{}, [], [];
      new;
      StartedInv(Model(), numThreads, maxSize);
    }

    /** One turn of run's loop: its argument is queued or refused, or the submitter waits. */
    method RunOnce(task: Task) returns (waits: bool)
      modifies this
      ensures Model() == RunSection(old(Model()), task)
      ensures waits == (|old(queue_)| >= maxQueueSize_ && old(running_))
    {
      waits := |queue_| >= maxQueueSize_ && running_;
      if waits {
        submitters, held := submitters.Block(), held + multiset{task};
      } else if !running_ {
        refused := refused + multiset{task};
      } else {
        assert |queue_| < maxQueueSize_;
        queue_ := queue_ + [task];
        accepted := accepted + [task];
        workers := workers.(blocked := workers.blocked.Notify());
      }
    }

    /** One turn of take's loop; `found` is false when the worker waits or gets an empty task. */
    method TakeOnce() returns (found: bool, task: Task)
      modifies this
      ensures Model() == TakeSection(old(Model()))
      ensures found == (old(queue_) != []) && (found ==> task == old(queue_)[0])
    {
      found, task := |queue_| > 0, 0;
      if found {
        task := queue_[0];
        queue_ := queue_[1..];
        taken := taken + [task];
        workers := workers.(executing := workers.executing + 1);
        submitters := submitters.Notify();
      } else if running_ {
        workers := workers.(blocked := workers.blocked.Block());
      } else {
        workers := workers.(testing := workers.testing + 1);
      }
    }

    method StopPool()
      modifies this
      ensures Model() == StopSection(old(Model()))
    {
      running_ := false;
      workers := workers.(blocked := NotifyAll(workers.blocked));
      submitters := NotifyAll(submitters);
    }
  }
}
