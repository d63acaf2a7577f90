/** The wake-up protocol of src/net/src/EventLoop.cc: the loop thread and any number of foreign
    threads, interleaved between every two accesses to shared state. */
module EventLoops {
  import opened Sequences

  type Functor = int

  /** Where the loop thread stands. `Handling(true)` still has the wake-up channel to handle;
      `Calling` has raised callingPendingFunctors_ but not swapped yet. */
  datatype Place = CheckQuit | Polling | Handling(woken: bool) | Calling | Running | Stopped

  datatype State = State(
    pending: seq<Functor>,   // pendingFunctors_
    quit: bool,              // quit_
    calling: bool,           // callingPendingFunctors_
    counter: nat,            // the eventfd behind wakeupFd_
    owing: nat,              // foreign threads between their update and their wakeup()
    loopOwes: bool,          // the same for the loop thread inside queueInLoop
    place: Place,
    batch: seq<Functor>,     // what is left of the swapped-out functors
    queued: seq<Functor>,    // history: every functor ever queued
    ran: seq<Functor>,       // history: every functor started
    mark: nat)               // history: how many functors were queued at the last swap

  /** At the head of `while (!quit_)`. Functors queued before loop() starts come with their wake-ups. */
  ghost predicate Initial(s: State) {
    && s.place == CheckQuit && !s.quit && !s.calling && !s.loopOwes
    && s.batch == [] && s.ran == [] && s.queued == s.pending
    && (s.pending != [] ==> s.counter > 0 || s.owing > 0)
  }

  datatype Step =
    | ForeignQueue(f: Functor) | ForeignQuit | ForeignWakeup   // any thread but the loop's
    | LoopQueue(g: Functor) | LoopQuit | LoopWakeup            // callbacks on the loop thread
    | TestQuit | PollReturns | HandleRead | BeginPending | SwapPending | RunNext | EndPending

  predicate InCallback(s: State) {
    (s.place.Handling? || s.place.Running?) && !s.loopOwes
  }

  predicate Enabled(s: State, step: Step) {
    match step
    case ForeignQueue(_) => true
    case ForeignQuit => true
    case ForeignWakeup => s.owing > 0
    case LoopQueue(_) => InCallback(s)
    case LoopQuit => InCallback(s)
    case LoopWakeup => s.loopOwes
    case TestQuit => s.place.CheckQuit?
    case PollReturns => s.place.Polling?
    case HandleRead => s.place == Handling(true) && !s.loopOwes
    case BeginPending => s.place == Handling(false) && !s.loopOwes
    case SwapPending => s.place.Calling?
    case RunNext => s.place.Running? && s.batch != [] && !s.loopOwes
    case EndPending => s.place.Running? && s.batch == [] && !s.loopOwes
  }

  /** poll returns when the eventfd is readable, on other events or on timeout; the wake-up channel is
      active exactly when the counter is positive. */
  function Do(s: State, step: Step): State
    requires Enabled(s, step)
  {
    match step
    case ForeignQueue(f) => s.(pending := s.pending + [f], queued := s.queued + [f], owing := s.owing + 1)
    case ForeignQuit => s.(quit := true, owing := s.owing + 1)
    case ForeignWakeup => s.(owing := s.owing - 1, counter := s.counter + 1)
    case LoopQueue(g) => s.(pending := s.pending + [g], queued := s.queued + [g], loopOwes := s.calling)
    case LoopQuit => s.(quit := true)
    case LoopWakeup => s.(loopOwes := false, counter := s.counter + 1)
    case TestQuit => s.(place := if s.quit then Stopped else Polling)
    case PollReturns => s.(place := Handling(s.counter > 0))
    case HandleRead => s.(counter := 0, place := Handling(false))
    case BeginPending => s.(calling := true, place := Calling)
    case SwapPending => s.(batch := s.pending, pending := [], mark := |s.queued|, place := Running)
    case RunNext => s.(ran := s.ran + [s.batch[0]], batch := s.batch[1..])
    case EndPending => s.(calling := false, place := CheckQuit)
  }

  function Run(s: State, steps: seq<Step>): State
    decreases |steps|
  {
    if steps == [] then s
    else Run(if Enabled(s, steps[0]) then Do(s, steps[0]) else s, steps[1..])
  }

  // ---------------------------------------------------------------- the invariant

  predicate WakeupComing(s: State) {
    s.counter > 0 || s.owing > 0 || s.loopOwes
  }

  /** From the swap until poll returns, queued work is announced; quit_ is, once the loop has looked at it. */
  predicate Announced(s: State) {
    && (s.place in {Running, CheckQuit, Polling} && s.pending != [] ==> WakeupComing(s))
    && (s.place.Polling? && s.quit ==> WakeupComing(s))
    && (s.loopOwes ==> s.place.Running?)
    && (s.place == Handling(true) ==> s.counter > 0)
    && (s.calling <==> s.place.Calling? || s.place.Running?)
  }

  /** Functors run in queueing order, none twice, none skipped; those of the running batch are exactly
      the ones queued before its swap. */
  predicate InOrder(s: State) {
    && s.queued == s.ran + s.batch + s.pending
    && (s.batch != [] ==> s.place.Running?)
    && (s.place.Running? ==> s.mark <= |s.queued| && s.ran + s.batch == s.queued[..s.mark])
  }

  predicate Inv(s: State) {
    Announced(s) && InOrder(s)
  }

  lemma StepKeepsOrder(s: State, step: Step)
    requires InOrder(s) && Enabled(s, step)
    ensures InOrder(Do(s, step))
  {
    var s' := Do(s, step);
    match step
    case ForeignQueue(f) =>
      assert s.ran + s.batch + (s.pending + [f]) == s.ran + s.batch + s.pending + [f];
    case LoopQueue(g) =>
      assert s.ran + s.batch + (s.pending + [g]) == s.ran + s.batch + s.pending + [g];
    case SwapPending =>
      assert s.batch == [];
      assert s'.queued[..s'.mark] == s'.queued;
    case RunNext =>
      assert s.batch == [s.batch[0]] + s.batch[1..];
      assert s'.ran + s'.batch == s.ran + s.batch;
    case _ =>
  }

  lemma StepKeeps(s: State, step: Step)
    requires Inv(s) && Enabled(s, step)
    ensures Inv(Do(s, step))
  {
    StepKeepsOrder(s, step);
  }

  lemma {:induction false} EveryRunKeeps(s: State, steps: seq<Step>)
    requires Inv(s)
    ensures Inv(Run(s, steps))
    decreases |steps|
  {
    if steps != [] {
      if Enabled(s, steps[0]) {
        StepKeeps(s, steps[0]);
        EveryRunKeeps(Do(s, steps[0]), steps[1..]);
      } else {
        EveryRunKeeps(s, steps[1..]);
      }
    }
  }

  // ---------------------------------------------------------------- main results

  /** However the threads interleave, the loop never sits in poll with a pending functor or a set quit
      flag unless the eventfd is readable or some foreign thread is about to make it so. */
  lemma NeverSleepsOnWork(s: State, steps: seq<Step>)
    requires Initial(s)
    ensures var s' := Run(s, steps);
            s'.place.Polling? && (s'.pending != [] || s'.quit) ==> s'.counter > 0 || s'.owing > 0
  {
    EveryRunKeeps(s, steps);
  }

  /** The functors started so far are a prefix of those queued, and nothing in between is lost: each
      runs exactly once, in queueing order. */
  lemma ExactlyOnceInOrder(s: State, steps: seq<Step>)
    requires Initial(s)
    ensures var s' := Run(s, steps);
            && s'.ran <= s'.queued
            && s'.queued[|s'.ran|..] == s'.batch + s'.pending
  {
    EveryRunKeeps(s, steps);
    var s' := Run(s, steps);
    assert s'.queued == s'.ran + (s'.batch + s'.pending);
  }

  /** Until the next swap, only functors queued before this swap are started, whatever is queued
      meanwhile by callbacks or by other threads; when the batch ends they have all been started. */
  lemma {:induction false} LaterFunctorsWait(s: State, steps: seq<Step>)
    requires Inv(s) && s.place.Running? && SwapPending !in steps
    ensures var s' := Run(s, steps);
            && s'.ran <= s.queued[..s.mark]
            && (s'.place.Running? || s'.ran == s.queued[..s.mark])
    decreases |steps|
  {
    if steps != [] {
      assert forall x :: x in steps[1..] ==> x in steps;
      if Enabled(s, steps[0]) {
        var s1 := Do(s, steps[0]);
        StepKeeps(s, steps[0]);
        if s1.place.Running? {
          assert s1.queued[..s1.mark] == s.queued[..s.mark];
          LaterFunctorsWait(s1, steps[1..]);
        } else {
          assert s1.ran == s.ran + s.batch;
          NothingRunsBetweenBatches(s1, steps[1..]);
        }
      } else {
        LaterFunctorsWait(s, steps[1..]);
      }
    }
  }

  lemma {:induction false} NothingRunsBetweenBatches(s: State, steps: seq<Step>)
    requires Inv(s) && !s.place.Running? && SwapPending !in steps
    ensures Run(s, steps).ran == s.ran && !Run(s, steps).place.Running?
    decreases |steps|
  {
    if steps != [] {
      assert steps[0] in steps && forall x :: x in steps[1..] ==> x in steps;
      if Enabled(s, steps[0]) {
        StepKeeps(s, steps[0]);
        NothingRunsBetweenBatches(Do(s, steps[0]), steps[1..]);
      } else {
        NothingRunsBetweenBatches(s, steps[1..]);
      }
    }
  }

  /** Once quit_ is set while the loop is not in poll, it never polls again. */
  lemma {:induction false} QuitIsFinal(s: State, steps: seq<Step>)
    requires s.quit && !s.place.Polling?
    ensures Run(s, steps).quit && !Run(s, steps).place.Polling?
    decreases |steps|
  {
    if steps != [] {
      QuitIsFinal(if Enabled(s, steps[0]) then Do(s, steps[0]) else s, steps[1..]);
    }
  }

  // ---------------------------------------------------------------- progress of a round

  /** The loop thread's own steps from one test of quit_ to the next. */
  predicate LoopStep(step: Step) {
    || step.PollReturns? || step.HandleRead? || step.BeginPending?
    || step.SwapPending? || step.RunNext? || step.EndPending?
  }

  predicate BeforeSwap(s: State) {
    s.place.Polling? || s.place.Handling? || s.place.Calling?
  }

  /** How many of them are left if nothing more is queued before the swap. */
  function Rank(s: State): nat {
    match s.place
    case Polling => 5 + |s.pending|
    case Handling(woken) => (if woken then 4 else 3) + |s.pending|
    case Calling => 2 + |s.pending|
    case Running => 1 + |s.batch|
    case _ => 0
  }

  function LoopSteps(s: State, steps: seq<Step>): nat
    decreases |steps|
  {
    if steps == [] then 0
    else if Enabled(s, steps[0]) then (if LoopStep(steps[0]) then 1 else 0) + LoopSteps(Do(s, steps[0]), steps[1..])
    else LoopSteps(s, steps[1..])
  }

  function QueuedBeforeSwap(s: State, steps: seq<Step>): nat
    decreases |steps|
  {
    if steps == [] then 0
    else if Enabled(s, steps[0]) then
      (if BeforeSwap(s) && (steps[0].ForeignQueue? || steps[0].LoopQueue?) then 1 else 0)
      + QueuedBeforeSwap(Do(s, steps[0]), steps[1..])
    else QueuedBeforeSwap(s, steps[1..])
  }

  lemma StepUsesRank(s: State, step: Step)
    requires Enabled(s, step) && !step.TestQuit?
    ensures (if LoopStep(step) then 1 else 0) + Rank(Do(s, step))
              <= Rank(s) + (if BeforeSwap(s) && (step.ForeignQueue? || step.LoopQueue?) then 1 else 0)
  {
  }

  /** Whatever is interleaved, each step of the loop thread uses up rank, and only a functor queued
      before the swap gives any back. */
  lemma {:induction false} RoundUsesRank(s: State, steps: seq<Step>)
    requires TestQuit !in steps
    ensures LoopSteps(s, steps) + Rank(Run(s, steps)) <= Rank(s) + QueuedBeforeSwap(s, steps)
    decreases |steps|
  {
    if steps != [] {
      assert steps[0] in steps && forall x :: x in steps[1..] ==> x in steps;
      if Enabled(s, steps[0]) {
        StepUsesRank(s, steps[0]);
        RoundUsesRank(Do(s, steps[0]), steps[1..]);
      } else {
        RoundUsesRank(s, steps[1..]);
      }
    }
  }

  /** The loop thread can move, if only to finish a wakeup, exactly until it is back at the test. */
  lemma LoopCanMove(s: State)
    requires Inv(s)
    ensures Rank(s) > 0 <==> exists step :: (LoopStep(step) || step.LoopWakeup?) && Enabled(s, step)
    ensures Rank(s) == 0 <==> s.place.CheckQuit? || s.place.Stopped?
  {
    match s.place
    case Polling => assert LoopStep(PollReturns) && Enabled(s, PollReturns);
    case Handling(woken) =>
      var step := if woken then HandleRead else BeginPending;
      assert LoopStep(step) && Enabled(s, step);
    case Calling => assert LoopStep(SwapPending) && Enabled(s, SwapPending);
    case Running =>
      var step := if s.loopOwes then LoopWakeup else if s.batch != [] then RunNext else EndPending;
      assert (LoopStep(step) || step.LoopWakeup?) && Enabled(s, step);
    case _ =>
  }

  lemma {:induction false} InRound(s: State, steps: seq<Step>)
    requires Inv(s) && (s.place.Running? || s.place.CheckQuit?) && TestQuit !in steps
    ensures var t := Run(s, steps);
            && (t.place.Running? || t.place.CheckQuit?)
            && (s.place.CheckQuit? ==> t.place.CheckQuit? && t.ran == s.ran)
            && (s.place.Running? && t.place.CheckQuit? ==> t.ran == s.queued[..s.mark])
    ensures QueuedBeforeSwap(s, steps) == 0
    decreases |steps|
  {
    if steps != [] {
      assert steps[0] in steps && forall x :: x in steps[1..] ==> x in steps;
      if Enabled(s, steps[0]) {
        var s1 := Do(s, steps[0]);
        StepKeeps(s, steps[0]);
        InRound(s1, steps[1..]);
        if s1.place.Running? {
          assert s1.queued[..s1.mark] == s.queued[..s.mark];
        } else if s.place.Running? {
          assert s1.ran == s.ran + s.batch;
        }
      } else {
        InRound(s, steps[1..]);
      }
    }
  }

  /** After the swap, one step for each functor and one more bring the loop back to its test with
      everything started that was pending at the swap, whatever is interleaved. */
  lemma RoundStartsEverything(s: State, steps: seq<Step>)
    requires Inv(s) && s.place.Running? && TestQuit !in steps && LoopSteps(s, steps) >= 1 + |s.batch|
    ensures Run(s, steps).place.CheckQuit? && Run(s, steps).ran == s.queued[..s.mark]
  {
    InRound(s, steps);
    RoundUsesRank(s, steps);
  }

  // ---------------------------------------------------------------- the loop goes on

  predicate StoppedWhenAsked(s: State) {
    s.place.Stopped? ==> s.quit
  }

  lemma {:induction false} RunStopsWhenAsked(s: State, steps: seq<Step>)
    requires StoppedWhenAsked(s)
    ensures StoppedWhenAsked(Run(s, steps))
    decreases |steps|
  {
    if steps != [] {
      RunStopsWhenAsked(if Enabled(s, steps[0]) then Do(s, steps[0]) else s, steps[1..]);
    }
  }

  predicate QuitCall(step: Step) {
    step.ForeignQuit? || step.LoopQuit?
  }

  /** The functors and the quits of the steps that take effect. */
  function FunctorsOf(s: State, steps: seq<Step>): seq<Functor>
    decreases |steps|
  {
    if steps == [] then []
    else if Enabled(s, steps[0]) then
      (match steps[0] case ForeignQueue(f) => [f] case LoopQueue(g) => [g] case _ => [])
      + FunctorsOf(Do(s, steps[0]), steps[1..])
    else FunctorsOf(s, steps[1..])
  }

  ghost predicate Quits(s: State, steps: seq<Step>)
    decreases |steps|
  {
    steps != [] &&
    if Enabled(s, steps[0]) then QuitCall(steps[0]) || Quits(Do(s, steps[0]), steps[1..]) else Quits(s, steps[1..])
  }

  /** quit_ is set exactly when somebody has called quit. */
  lemma {:induction false} QuitExactly(s: State, steps: seq<Step>)
    ensures Run(s, steps).quit <==> s.quit || Quits(s, steps)
    decreases |steps|
  {
    if steps != [] {
      QuitExactly(if Enabled(s, steps[0]) then Do(s, steps[0]) else s, steps[1..]);
    }
  }

  /** The functors queued are those of the calls, in their order. */
  lemma {:induction false} QueuedExactly(s: State, steps: seq<Step>)
    ensures Run(s, steps).queued == s.queued + FunctorsOf(s, steps)
    decreases |steps|
  {
    if steps == [] {
      assert s.queued + [] == s.queued;
    } else if Enabled(s, steps[0]) {
      var s1 := Do(s, steps[0]);
      QueuedExactly(s1, steps[1..]);
      var first := match steps[0] case ForeignQueue(f) => [f] case LoopQueue(g) => [g] case _ => [];
      assert s1.queued == s.queued + first;
      Associate(s.queued, first, FunctorsOf(s1, steps[1..]));
    } else {
      QueuedExactly(s, steps[1..]);
    }
  }

  /** The loop ends only when somebody has called quit, and its test goes on to poll exactly until then. */
  lemma LoopsUntilQuit(s: State, steps: seq<Step>)
    requires Initial(s)
    ensures var t := Run(s, steps);
            && (t.place.Stopped? ==> Quits(s, steps))
            && (t.place.CheckQuit? ==>
                  Enabled(t, TestQuit) && Do(t, TestQuit).place == if Quits(s, steps) then Stopped else Polling)
  {
    RunStopsWhenAsked(s, steps);
    QuitExactly(s, steps);
  }

  /** Every step of the loop thread except finishing a wakeup. */
  predicate ThreadStep(step: Step) {
    LoopStep(step) || step.TestQuit?
  }

  function ThreadSteps(s: State, steps: seq<Step>): nat
    decreases |steps|
  {
    if steps == [] then 0
    else if Enabled(s, steps[0]) then
      (if ThreadStep(steps[0]) then 1 else 0) + ThreadSteps(Do(s, steps[0]), steps[1..])
    else ThreadSteps(s, steps[1..])
  }

  /** How many steps of the loop thread are enough for the first `n` functors to have been started. */
  function Need(s: State, n: nat): nat {
    if |s.ran| >= n then 0
    else
      n - |s.ran| +
      match s.place
      case CheckQuit => 5
      case Polling => 4
      case Handling(woken) => if woken then 3 else 2
      case Calling => 1
      case Running => if s.mark < n then 6 else 0
      case Stopped => 0
  }

  lemma StepMeetsNeed(s: State, step: Step, n: nat)
    requires Inv(s) && Enabled(s, step) && !QuitCall(step) && !s.quit && !s.place.Stopped? && n <= |s.queued|
    ensures var t := Do(s, step);
            && !t.quit && !t.place.Stopped? && n <= |t.queued| && |s.ran| <= |t.ran|
            && (Need(t, n) == 0 || Need(t, n) + (if ThreadStep(step) then 1 else 0) <= Need(s, n))
  {
    if s.place.Running? {
      assert |s.ran| + |s.batch| == s.mark;
    }
  }

  /** Any number of rounds, whatever is interleaved: as long as nobody quits, so many steps of the loop
      thread, its tests among them, start everything that has been queued. */
  lemma {:induction false} StepsMeetNeed(s: State, steps: seq<Step>, n: nat)
    requires Inv(s) && !s.quit && !s.place.Stopped? && n <= |s.queued|
    requires forall i :: 0 <= i < |steps| ==> !QuitCall(steps[i])
    ensures Need(Run(s, steps), n) == 0 || Need(Run(s, steps), n) + ThreadSteps(s, steps) <= Need(s, n)
    ensures |s.ran| <= |Run(s, steps).ran| && !Run(s, steps).place.Stopped?
    decreases |steps|
  {
    if steps != [] {
      assert !QuitCall(steps[0]);
      assert forall i :: 0 <= i < |steps[1..]| ==> !QuitCall(steps[1..][i]);
      if Enabled(s, steps[0]) {
        StepKeeps(s, steps[0]);
        StepMeetsNeed(s, steps[0], n);
        StepsMeetNeed(Do(s, steps[0]), steps[1..], n);
      } else {
        StepsMeetNeed(s, steps[1..], n);
      }
    }
  }

  lemma EveryFunctorStarts(s: State, steps: seq<Step>)
    requires Inv(s) && !s.quit && !s.place.Stopped?
    requires forall i :: 0 <= i < |steps| ==> !QuitCall(steps[i])
    requires ThreadSteps(s, steps) >= |s.queued| - |s.ran| + 6
    ensures s.queued <= Run(s, steps).ran && !Run(s, steps).place.Stopped?
  {
    StepsMeetNeed(s, steps, |s.queued|);
    QueuedExactly(s, steps);
    EveryRunKeeps(s, steps);
    var t := Run(s, steps);
    assert t.queued[..|t.ran|] == t.ran && s.queued == t.queued[..|s.queued|];
  }

  // ---------------------------------------------------------------- the eventfd

  predicate WakeupCall(step: Step) {
    step.ForeignWakeup? || step.LoopWakeup?
  }

  function Foreigners(s: State, steps: seq<Step>): nat
    decreases |steps|
  {
    if steps == [] then 0
    else if Enabled(s, steps[0]) then
      (if steps[0].ForeignQueue? || steps[0].ForeignQuit? then 1 else 0) + Foreigners(Do(s, steps[0]), steps[1..])
    else Foreigners(s, steps[1..])
  }

  function ForeignWakeups(s: State, steps: seq<Step>): nat
    decreases |steps|
  {
    if steps == [] then 0
    else if Enabled(s, steps[0]) then
      (if steps[0].ForeignWakeup? then 1 else 0) + ForeignWakeups(Do(s, steps[0]), steps[1..])
    else ForeignWakeups(s, steps[1..])
  }

  /** Every call by another thread makes exactly one wakeup: those not made yet are owed. */
  lemma {:induction false} OneWakeupForEachCall(s: State, steps: seq<Step>)
    ensures Run(s, steps).owing + ForeignWakeups(s, steps) == s.owing + Foreigners(s, steps)
    decreases |steps|
  {
    if steps != [] {
      OneWakeupForEachCall(if Enabled(s, steps[0]) then Do(s, steps[0]) else s, steps[1..]);
    }
  }

  /** Once read, the eventfd is not readable again before the next wakeup, and poll reports it exactly
      when it is. */
  lemma {:induction false} QuietUntilWakeup(s: State, steps: seq<Step>)
    requires s.counter == 0 && forall i :: 0 <= i < |steps| ==> !WakeupCall(steps[i])
    ensures Run(s, steps).counter == 0
    decreases |steps|
  {
    if steps != [] {
      assert !WakeupCall(steps[0]);
      assert forall i :: 0 <= i < |steps[1..]| ==> !WakeupCall(steps[1..][i]);
      QuietUntilWakeup(if Enabled(s, steps[0]) then Do(s, steps[0]) else s, steps[1..]);
    }
  }

  lemma ReadingQuietsPoll(s: State, steps: seq<Step>)
    requires Enabled(s, HandleRead) && forall i :: 0 <= i < |steps| ==> !WakeupCall(steps[i])
    ensures var t := Run(Do(s, HandleRead), steps);
            t.counter == 0 && (t.place.Polling? ==> Do(t, PollReturns).place == Handling(false))
  {
    QuietUntilWakeup(Do(s, HandleRead), steps);
  }

  /** A readable eventfd wakes poll and is read before the pending functors are run. */
  lemma ReadableIsRead(s: State)
    requires s.place.Polling? && s.counter > 0
    ensures var t := Do(s, PollReturns);
            !Enabled(t, BeginPending) && (!s.loopOwes ==> Enabled(t, HandleRead) && Do(t, HandleRead).counter == 0)
  {
  }

  // ---------------------------------------------------------------- what may happen during a batch

  /** Steps of other threads, and what a callback does to its own loop. */
  predicate Outside(step: Step) {
    || step.ForeignQueue? || step.ForeignQuit? || step.ForeignWakeup?
    || step.LoopQueue? || step.LoopQuit? || step.LoopWakeup?
  }

  predicate AllOutside(steps: seq<Step>) {
    forall i :: 0 <= i < |steps| ==> Outside(steps[i])
  }

  function ForeignFunctors(steps: seq<Step>): (r: seq<Functor>)
    ensures |r| <= |steps|
  {
    if steps == [] then []
    else (if steps[0].ForeignQueue? then [steps[0].f] else []) + ForeignFunctors(steps[1..])
  }

  lemma OutsideCallingStep(s: State, step: Step)
    requires Inv(s) && s.place.Calling? && Outside(step)
    ensures var t := if Enabled(s, step) then Do(s, step) else s;
            && Inv(t) && t.place.Calling? && t.ran == s.ran
            && t.queued == s.queued + (if step.ForeignQueue? then [step.f] else [])
  {
    if Enabled(s, step) {
      StepKeeps(s, step);
    }
    assert s.queued + [] == s.queued;
  }

  /** Between raising the flag and the swap only other threads queue. */
  lemma {:induction false} OutsideCalling(s: State, steps: seq<Step>)
    requires Inv(s) && s.place.Calling? && AllOutside(steps)
    ensures var t := Run(s, steps);
            Inv(t) && t.place.Calling? && t.ran == s.ran && t.queued == s.queued + ForeignFunctors(steps)
    decreases |steps|
  {
    if steps == [] {
      assert s.queued + [] == s.queued;
    } else {
      assert Outside(steps[0]) && AllOutside(steps[1..]);
      OutsideCallingStep(s, steps[0]);
      OutsideCalling(if Enabled(s, steps[0]) then Do(s, steps[0]) else s, steps[1..]);
      Associate(s.queued, if steps[0].ForeignQueue? then [steps[0].f] else [], ForeignFunctors(steps[1..]));
    }
  }

  /** During a batch nothing that happens outside touches the batch. */
  lemma {:induction false} OutsideRunning(s: State, steps: seq<Step>)
    requires Inv(s) && s.place.Running? && AllOutside(steps)
    ensures var t := Run(s, steps);
            && Inv(t) && t.place.Running? && t.ran == s.ran && t.batch == s.batch
            && t.mark == s.mark <= |t.queued| && s.queued <= t.queued
    decreases |steps|
  {
    if steps != [] {
      assert Outside(steps[0]) && AllOutside(steps[1..]);
      if Enabled(s, steps[0]) {
        StepKeeps(s, steps[0]);
        OutsideRunning(Do(s, steps[0]), steps[1..]);
      } else {
        OutsideRunning(s, steps[1..]);
      }
    }
  }

  lemma RunSnoc(s: State, steps: seq<Step>, step: Step)
    ensures var t := Run(s, steps); Run(s, steps + [step]) == if Enabled(t, step) then Do(t, step) else t
    decreases |steps|
  {
    if steps == [] {
      assert ([] + [step])[1..] == [];
    } else {
      assert (steps + [step])[0] == steps[0] && (steps + [step])[1..] == steps[1..] + [step];
      RunSnoc(if Enabled(s, steps[0]) then Do(s, steps[0]) else s, steps[1..], step);
    }
  }

  // ---------------------------------------------------------------- the object

  /** The shared fields, changed by one atomic access at a time. */
  class EventLoop {
    var pendingFunctors_: seq<Functor>
    var quit_: bool
    var callingPendingFunctors_: bool
    var wakeupCounter: nat
    var functors: seq<Functor>   // local of doPendingFunctors
    // where the threads stand
    var owing: nat
    var loopOwes: bool
    var place: Place
    ghost var queued: seq<Functor>
    ghost var ran: seq<Functor>
    ghost var mark: nat

    ghost function Model(): State
      reads this
    {
      State(pendingFunctors_, quit_, callingPendingFunctors_, wakeupCounter, owing, loopOwes, place,
            functors, queued, ran, mark)
    }

    constructor ()
      ensures Initial(Model()) && Inv(Model())
    {
      pendingFunctors_, quit_, callingPendingFunctors_, wakeupCounter, functors := [], false, false, 0, [];
      owing, loopOwes, place, queued, ran, mark := 0, false, CheckQuit, [], [], 0;
    }

    /** queueInLoop up to the test of the calling thread; `wake` tells whether wakeup() follows. */
    method PushFunctor(cb: Functor, inLoopThread: bool) returns (wake: bool)
      requires Inv(Model()) && (inLoopThread ==> InCallback(Model()))
      modifies this
      ensures Inv(Model()) && Model() == Do(old(Model()), if inLoopThread then LoopQueue(cb) else ForeignQueue(cb))
      ensures wake == (!inLoopThread || callingPendingFunctors_)
    {
      StepKeeps(Model(), if inLoopThread then LoopQueue(cb) else ForeignQueue(cb));
      pendingFunctors_ := pendingFunctors_ + [cb];
      queued := queued + [cb];
      wake := !inLoopThread || callingPendingFunctors_;
      if inLoopThread {
        loopOwes := wake;
      } else {
        owing := owing + 1;
      }
    }

    method Wakeup(inLoopThread: bool)
      requires Inv(Model()) && Enabled(Model(), if inLoopThread then LoopWakeup else ForeignWakeup)
      modifies this
      ensures Inv(Model()) && Model() == Do(old(Model()), if inLoopThread then LoopWakeup else ForeignWakeup)
    {
      StepKeeps(Model(), if inLoopThread then LoopWakeup else ForeignWakeup);
      wakeupCounter := wakeupCounter + 1;
      if inLoopThread {
        loopOwes := false;
      } else {
        owing := owing - 1;
      }
    }

    method SetQuit(inLoopThread: bool) returns (wake: bool)
      requires Inv(Model()) && (inLoopThread ==> InCallback(Model()))
      modifies this
      ensures Inv(Model()) && Model() == Do(old(Model()), if inLoopThread then LoopQuit else ForeignQuit)
      ensures wake == !inLoopThread
    {
      StepKeeps(Model(), if inLoopThread then LoopQuit else ForeignQuit);
      quit_ := true;
      wake := !inLoopThread;
      if wake {
        owing := owing + 1;
      }
    }

    method ReadWakeupFd()
      requires Inv(Model()) && Enabled(Model(), HandleRead)
      modifies this
      ensures Inv(Model()) && Model() == Do(old(Model()), HandleRead)
    {
      StepKeeps(Model(), HandleRead);
      wakeupCounter := 0;
      place := Handling(false);
    }

    method SwapFunctors()
      requires Inv(Model()) && Enabled(Model(), SwapPending)
      modifies this
      ensures Inv(Model()) && Model() == Do(old(Model()), SwapPending)
    {
      StepKeeps(Model(), SwapPending);
      functors, pendingFunctors_ := pendingFunctors_, [];
      mark, place := |queued|, Running;
    }

    method RunFunctor()
      requires Inv(Model()) && Enabled(Model(), RunNext)
      modifies this`functors, this`ran
      ensures Inv(Model()) && Model() == Do(old(Model()), RunNext)
    {
      StepKeeps(Model(), RunNext);
      ran := ran + [functors[0]];
      functors := functors[1..];
    }

    method EndFunctors()
      requires Inv(Model()) && Enabled(Model(), EndPending)
      modifies this
      ensures Inv(Model()) && Model() == Do(old(Model()), EndPending)
    {
      StepKeeps(Model(), EndPending);
      callingPendingFunctors_ := false;
      place := CheckQuit;
    }

    method Perform(step: Step)
      requires Inv(Model()) && Outside(step)
      modifies this
      ensures Inv(Model()) && Model() == if Enabled(old(Model()), step) then Do(old(Model()), step) else old(Model())
    {
      var inCallback := (place.Handling? || place.Running?) && !loopOwes;
      match step {
        case ForeignQueue(f) => var _ := PushFunctor(f, false);
        case ForeignQuit => var _ := SetQuit(false);
        case ForeignWakeup => if owing > 0 { Wakeup(false); }
        case LoopQueue(g) => if inCallback { var _ := PushFunctor(g, true); }
        case LoopQuit => if inCallback { var _ := SetQuit(true); }
        case LoopWakeup => if loopOwes { Wakeup(true); }
      }
    }

    method PerformAll(steps: seq<Step>)
      requires Inv(Model()) && AllOutside(steps)
      modifies this
      ensures Inv(Model()) && Model() == Run(old(Model()), steps)
    {
      ghost var s := Model();
      for i := 0 to |steps|
        invariant Inv(Model()) && Model() == Run(s, steps[..i])
      {
        assert Outside(steps[i]);
        RunSnoc(s, steps[..i], steps[i]);
        assert steps[..i + 1] == steps[..i] + [steps[i]];
        Perform(steps[i]);
      }
      assert steps[..|steps|] == steps;
    }

    method BeginFunctors()
      requires Inv(Model()) && Enabled(Model(), BeginPending)
      modifies this`callingPendingFunctors_, this`place
      ensures Inv(Model()) && Model() == Do(old(Model()), BeginPending)
    {
      StepKeeps(Model(), BeginPending);
      callingPendingFunctors_ := true;
      place := Calling;
    }

    /** One functor with all that happens while it runs; it finishes the wakeup of its last call. */
    method RunFunctorAmid(amid: seq<Step>)
      requires Inv(Model()) && Enabled(Model(), RunNext) && AllOutside(amid)
      modifies this
      ensures Inv(Model()) && place.Running? && !loopOwes
      ensures functors == old(functors)[1..] && mark == old(mark)
      ensures old(queued) <= queued
    {
      RunFunctor();
      OutsideRunning(Model(), amid);
      PerformAll(amid);
      if loopOwes {
        Wakeup(true);
      }
    }

    /** doPendingFunctors while other threads and the functors themselves queue, quit and wake:
        `before` happens before the swap, `amid[i]` while the i-th functor runs. What was pending at
        the swap is run, in order; what is queued later is still pending, in order. */
    method DoPendingFunctors(before: seq<Step>, amid: seq<seq<Step>>)
      requires Inv(Model()) && Enabled(Model(), BeginPending)
      requires AllOutside(before) && forall i :: 0 <= i < |amid| ==> AllOutside(amid[i])
      requires |pendingFunctors_| + |before| <= |amid|
      modifies this
      ensures Inv(Model()) && place == CheckQuit && !callingPendingFunctors_
      ensures ran == old(queued) + ForeignFunctors(before) && queued == ran + pendingFunctors_
    {
      BeginFunctors();
      OutsideCalling(Model(), before);
      PerformAll(before);
      ghost var due := queued;
      SwapFunctors();
      assert queued[..mark] == due;
      var n := |functors|;
      for i := 0 to n
        invariant Inv(Model()) && place.Running? && !loopOwes && |functors| == n - i
        invariant mark == |due| && due <= queued
      {
        RunFunctorAmid(amid[i]);
      }
      assert queued[..mark] == due && ran + [] == due;
      EndFunctors();
      assert queued == ran + [] + pendingFunctors_;
    }
  }
}
