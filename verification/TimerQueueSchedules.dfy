/** What is scheduled stays scheduled until it is due or cancelled by its own id, then runs exactly
    once, and the timerfd is armed for it and not before it. */
module TimerQueueSchedules {
  import opened Outcomes
  import opened TimerQueues
  import opened TimerQueueTheorems

  /** Timer `id` is in both sets, to expire at `when`. */
  ghost predicate Scheduled(s: State, id: TimerId, when: int) {
    && id.timer in s.heap && id == IdOf(s.heap, id.timer) && s.heap[id.timer].expiration == when
    && Entry(when, id.timer) in s.timers && id in s.active
  }

  // ---------------------------------------------------------------- cancelling by key

  /** Cancelling an id, stale or not, leaves every other scheduled timer alone, even one that lives at
      the same address; cancelling an id that is not scheduled changes neither set and no memory. */
  lemma CancelSparesOthers(s: State, id: TimerId, a: Address)
    requires Inv(s) && a in s.heap && IdOf(s.heap, a) in s.active && IdOf(s.heap, a) != id
    ensures CancelInLoop(s, id).Ok?
    ensures Scheduled(CancelInLoop(s, id).value, IdOf(s.heap, a), s.heap[a].expiration)
    ensures CancelInLoop(s, id).value.heap[a] == s.heap[a]
    ensures id !in s.active ==> CancelInLoop(s, id).value == s.(canceling := CancelInLoop(s, id).value.canceling)
  {
    CancelKeepsCore(s, BatchOf(s), id);
    var s' := CancelInLoop(s, id).value;
    assert EntryOf(s.heap, a) in s.timers;
    if id in s.active {
      assert id.timer != a;
      EraseEntryCorrect(s.timers, EntryOf(s.heap, id.timer));
    }
  }

  /** A timer that was deleted cannot be cancelled any more, whoever lives at its address now. */
  lemma StaleCancelChangesNothing(s: State, id: TimerId)
    requires Inv(s) && id !in s.active
    ensures CancelInLoop(s, id).Ok?
    ensures var s' := CancelInLoop(s, id).value;
            s' == s.(canceling := s'.canceling) && (!s.calling ==> s' == s)
  {
    CancelKeepsCore(s, BatchOf(s), id);
  }

  // ---------------------------------------------------------------- over runs

  /** No handleRead of the schedule starts at or after `when`. */
  predicate NoReadSince(s: State, steps: seq<Step>, when: int)
    decreases |steps|
  {
    if steps == [] then true
    else if !Enabled(s, steps[0]) then NoReadSince(s, steps[1..], when)
    else
      && (steps[0].Start? ==> s.clock < when)
      && (Do(s, steps[0]).Ok? ==> NoReadSince(Do(s, steps[0]).value, steps[1..], when))
  }

  lemma StartKeepsScheduled(s: State, id: TimerId, when: int)
    requires Inv(s) && s.phase.Idle? && Scheduled(s, id, when) && s.clock < when
    ensures StartRead(s).Ok? && Scheduled(StartRead(s).value, id, when)
  {
    GetExpiredExact(Drained(s), s.clock);
    StartUnfolds(s, GetExpired(Drained(s), s.clock));
    var (s1, expired) := GetExpired(Drained(s), s.clock).value;
    assert Entry(when, id.timer) in s1.timers;
  }

  lemma FinishKeepsScheduled(s: State, id: TimerId, when: int)
    requires Inv(s) && s.phase.Calling? && Scheduled(s, id, when)
    ensures FinishRead(s).Ok? && Scheduled(FinishRead(s).value, id, when)
  {
    FinishKeeps(s);
    var s' := FinishRead(s).value;
    assert EntryOf(s.heap, id.timer) == Entry(when, id.timer) && Entry(when, id.timer) !in s.phase.expired;
    assert Settled(s).heap[id.timer] == s.heap[id.timer];
    assert Entry(when, id.timer) in Settled(s).timers;
  }

  lemma StepKeepsScheduled(s: State, step: Step, id: TimerId, when: int)
    requires Inv(s) && Enabled(s, step) && Scheduled(s, id, when)
    requires step != Cancel(id) && (step.Start? ==> s.clock < when)
    ensures Do(s, step).Ok? && Scheduled(Do(s, step).value, id, when)
  {
    match step
    case Create(_, _, _, _, _) =>
    case Add(a) =>
      AddKeepsCore(s, BatchOf(s), a);
      InsertEntryCorrect(s.timers, EntryOf(s.heap, a));
    case Cancel(other) => CancelSparesOthers(s, other, id.timer);
    case Start => StartKeepsScheduled(s, id, when);
    case Call => CallKeeps(s);
    case Finish => FinishKeepsScheduled(s, id, when);
    case Tick(t) =>
  }

  /** A scheduled timer stays scheduled, under the same expiration, in every schedule without its own
      cancellation and without a handleRead at or after that expiration. */
  lemma {:induction false} ScheduledStays(s: State, steps: seq<Step>, id: TimerId, when: int)
    requires Inv(s) && Scheduled(s, id, when) && Cancel(id) !in steps && NoReadSince(s, steps, when)
    ensures Run(s, steps).Ok? && Scheduled(Run(s, steps).value, id, when)
    decreases |steps|
  {
    if steps != [] {
      assert steps[0] in steps && forall x :: x in steps[1..] ==> x in steps;
      if Enabled(s, steps[0]) {
        StepKeeps(s, steps[0]);
        StepKeepsScheduled(s, steps[0], id, when);
        ScheduledStays(Do(s, steps[0]).value, steps[1..], id, when);
      } else {
        ScheduledStays(s, steps[1..], id, when);
      }
    }
  }

  lemma StepKeepsPending(s: State, step: Step, a: Address)
    requires Inv(s) && Enabled(s, step) && a in s.pending && step != Add(a)
    ensures Do(s, step).Ok?
    ensures a in s.heap && a in Do(s, step).value.pending && a in Do(s, step).value.heap
    ensures Do(s, step).value.heap[a] == s.heap[a]
  {
    match step
    case Create(_, _, _, _, _) =>
    case Add(b) => AddKeepsCore(s, BatchOf(s), b);
    case Cancel(id) => CancelPending(s, id, a);
    case Start =>
      StartFrame(s);
      StartPending(s);
    case Call => CallKeeps(s);
    case Finish => FinishPending(s, a);
    case Tick(t) =>
  }

  lemma CancelPending(s: State, id: TimerId, a: Address)
    requires Inv(s) && a in s.pending
    ensures CancelInLoop(s, id).Ok?
    ensures a in s.heap && a in CancelInLoop(s, id).value.pending && a in CancelInLoop(s, id).value.heap
    ensures CancelInLoop(s, id).value.heap[a] == s.heap[a]
  {
    CancelKeepsCore(s, BatchOf(s), id);
    if id in s.active {
      assert EntryOf(s.heap, id.timer) in s.timers && EntryOf(s.heap, a) !in s.timers;
    }
  }

  lemma StartPending(s: State)
    requires Inv(s) && s.phase.Idle?
    ensures StartRead(s).Ok? && StartRead(s).value.pending == s.pending
  {
    GetExpiredExact(Drained(s), s.clock);
    StartUnfolds(s, GetExpired(Drained(s), s.clock));
  }

  lemma FinishPending(s: State, a: Address)
    requires Inv(s) && s.phase.Calling? && a in s.pending
    ensures FinishRead(s).Ok?
    ensures a in s.heap && a in FinishRead(s).value.pending && a in FinishRead(s).value.heap
    ensures FinishRead(s).value.heap[a] == s.heap[a]
  {
    FinishKeeps(s);
    assert EntryOf(s.heap, a) !in s.phase.expired;
    assert Settled(s).heap[a] == s.heap[a];
  }

  lemma {:induction false} PendingStays(s: State, steps: seq<Step>, a: Address)
    requires Inv(s) && a in s.pending && Add(a) !in steps
    ensures Run(s, steps).Ok? && Inv(Run(s, steps).value)
    ensures a in s.heap && a in Run(s, steps).value.pending && a in Run(s, steps).value.heap
    ensures Run(s, steps).value.heap[a] == s.heap[a]
    decreases |steps|
  {
    if steps != [] {
      assert steps[0] in steps && forall x :: x in steps[1..] ==> x in steps;
      if Enabled(s, steps[0]) {
        StepKeeps(s, steps[0]);
        StepKeepsPending(s, steps[0], a);
        PendingStays(Do(s, steps[0]).value, steps[1..], a);
      } else {
        PendingStays(s, steps[1..], a);
      }
    }
  }

  lemma AddSchedules(s: State, a: Address)
    requires Inv(s) && a in s.pending
    ensures a in s.heap && AddTimerInLoop(s, a).Ok?
    ensures Scheduled(AddTimerInLoop(s, a).value, IdOf(s.heap, a), s.heap[a].expiration)
    ensures AddTimerInLoop(s, a).value.heap == s.heap
  {
    AddKeepsCore(s, BatchOf(s), a);
    InsertEntryCorrect(s.timers, EntryOf(s.heap, a));
  }

  /** Whatever happens between addTimer and its queued addTimerInLoop, the addition schedules the timer
      that was asked for, at the time that was asked for. */
  lemma CreatedIsScheduled(s: State, create: Step, steps: seq<Step>)
    requires Inv(s) && create.Create? && Enabled(s, create) && Add(create.timer) !in steps
    ensures Run(Do(s, create).value, steps).Ok?
    ensures var t := Run(Do(s, create).value, steps).value;
            && Enabled(t, Add(create.timer)) && Do(t, Add(create.timer)).Ok?
            && var t' := Do(t, Add(create.timer)).value;
               && Scheduled(t', TimerId(create.timer, create.sequence), create.when)
               && t'.heap[create.timer] == Timer(create.when, create.interval, create.repeat, create.sequence)
  {
    StepKeeps(s, create);
    var s1 := Do(s, create).value;
    PendingStays(s1, steps, create.timer);
    AddSchedules(Run(s1, steps).value, create.timer);
  }

  // ---------------------------------------------------------------- a batch runs

  lemma BatchStep(s: State, step: Step, id: TimerId, k: nat)
    requires Inv(s) && BatchMember(s, id, k) && Enabled(s, step) && !step.Finish?
    ensures Do(s, step).Ok? && Inv(Do(s, step).value) && BatchMember(Do(s, step).value, id, k)
    ensures var s' := Do(s, step).value;
            && RunsOf(s', id.sequence) + Budget(s', id, k) == RunsOf(s, id.sequence) + Budget(s, id, k)
            && |s'.phase.expired| == |s.phase.expired|
  {
    StepKeeps(s, step);
    BatchMemberStays(s, step, id, k);
    if step.Call? {
      CallSpendsBudget(s, id, k);
    } else {
      RunsOnlyGrowByCall(s, step, id.sequence);
      SameTurn(s, step);
    }
  }

  lemma {:induction false} BatchRuns(s: State, steps: seq<Step>, id: TimerId, k: nat)
    requires Inv(s) && BatchMember(s, id, k) && Finish !in steps
    ensures Run(s, steps).Ok? && BatchMember(Run(s, steps).value, id, k)
    ensures RunsOf(Run(s, steps).value, id.sequence) + Budget(Run(s, steps).value, id, k)
              == RunsOf(s, id.sequence) + Budget(s, id, k)
    decreases |steps|
  {
    if steps != [] {
      assert steps[0] in steps && forall x :: x in steps[1..] ==> x in steps;
      if Enabled(s, steps[0]) {
        BatchStep(s, steps[0], id, k);
        BatchRuns(Do(s, steps[0]).value, steps[1..], id, k);
      } else {
        BatchRuns(s, steps[1..], id, k);
      }
    }
  }

  lemma StartBatches(s: State, id: TimerId, when: int) returns (k: nat)
    requires Inv(s) && s.phase.Idle? && Scheduled(s, id, when) && when <= s.clock
    ensures StartRead(s).Ok? && Inv(StartRead(s).value) && BatchMember(StartRead(s).value, id, k)
    ensures StartRead(s).value.phase.next == 0 && RunsOf(StartRead(s).value, id.sequence) == RunsOf(s, id.sequence)
  {
    GetExpiredExact(Drained(s), s.clock);
    StartUnfolds(s, GetExpired(Drained(s), s.clock));
    StartKeeps(s);
    var expired := StartRead(s).value.phase.expired;
    assert Entry(when, id.timer) in expired;
    k :| 0 <= k < |expired| && expired[k] == Entry(when, id.timer);
  }

  lemma BatchRunsToEnd(s: State, steps: seq<Step>, id: TimerId, k: nat)
    requires Inv(s) && BatchMember(s, id, k) && s.phase.next == 0 && Finish !in steps
    ensures Run(s, steps).Ok?
    ensures Enabled(Run(s, steps).value, Finish) ==>
              RunsOf(Run(s, steps).value, id.sequence) == RunsOf(s, id.sequence) + 1
  {
    BatchRuns(s, steps, id, k);
  }

  /** By the end of the batch every timer that was due when it started has run exactly once in it,
      whatever the callbacks do, cancel it included. */
  lemma DueTimersRunOnce(s: State, id: TimerId, when: int, steps: seq<Step>)
    requires Inv(s) && s.phase.Idle? && Scheduled(s, id, when) && when <= s.clock && Finish !in steps
    ensures StartRead(s).Ok? && Run(StartRead(s).value, steps).Ok?
    ensures var t := Run(StartRead(s).value, steps).value;
            Enabled(t, Finish) ==> RunsOf(t, id.sequence) == RunsOf(s, id.sequence) + 1
  {
    var k := StartBatches(s, id, when);
    BatchRunsToEnd(StartRead(s).value, steps, id, k);
  }

  // ---------------------------------------------------------------- the timerfd

  /** Armed to fire at `when`, but no sooner than 100 microseconds from now. */
  predicate ArmedFor(s: State, when: int) {
    s.fd == Armed(Max(when, s.clock + 100), s.clock)
  }

  /** Adding the earliest timer arms the timerfd for exactly its expiration, or the floor; adding any
      other leaves it as it was. */
  lemma AddArmsExactly(s: State, a: Address)
    requires Inv(s) && a in s.pending
    ensures a in s.heap && AddTimerInLoop(s, a).Ok?
    ensures var s' := AddTimerInLoop(s, a).value;
            if s.timers == [] || s.heap[a].expiration < s.timers[0].when then ArmedFor(s', s.heap[a].expiration)
            else s'.fd == s.fd
  {
    AddKeepsCore(s, BatchOf(s), a);
  }

  lemma RearmArms(s: State)
    requires Core(s, [], {})
    ensures Rearm(s).Ok?
    ensures var s' := Rearm(s).value;
            && s' == s.(fd := s'.fd)
            && (s.timers != [] && s.timers[0].when > 0 ==> ArmedFor(s', s.timers[0].when))
            && (s.timers == [] ==> s'.fd == s.fd)
  {
    assert s.timers != [] ==> s.timers[0] in s.timers;
  }

  /** After a batch the timerfd is armed for exactly the earliest expiration, or the floor. */
  lemma FinishArmsExactly(s: State)
    requires Inv(s) && s.phase.Calling?
    ensures FinishRead(s).Ok?
    ensures var s' := FinishRead(s).value;
            && s'.clock == s.clock
            && (s'.timers != [] && s'.timers[0].when > 0 ==> ArmedFor(s', s'.timers[0].when))
            && (s'.timers == [] ==> s'.fd == s.fd)
  {
    var s0 := s.(calling := false, phase := Idle);
    SettleExact(s0, s.phase.expired, s.phase.now);
    var s1 := Settle(s0, s.phase.expired, s.phase.now).value;
    RearmArms(s1);
    assert FinishRead(s) == Rearm(s1);
  }

  /** handleRead reads the timerfd: it is not readable again until it fires again. */
  lemma StartReadsTimerfd(s: State)
    requires Inv(s) && s.phase.Idle?
    ensures StartRead(s).Ok? && StartRead(s).value.fd == if s.fd.Fired? then Disarmed else s.fd
  {
    GetExpiredExact(Drained(s), s.clock);
    StartUnfolds(s, GetExpired(Drained(s), s.clock));
  }

  /** The steps that neither arm nor read the timerfd. */
  predicate LeavesTimerfd(step: Step) {
    step.Create? || step.Cancel? || step.Call? || step.Tick?
  }

  lemma StepLeavesTimerfd(s: State, step: Step, at: int)
    requires Inv(s) && Enabled(s, step) && LeavesTimerfd(step)
    requires s.fd == Fired || (s.fd.Armed? && s.fd.at == at)
    requires s.fd.Fired? <==> s.clock >= at
    ensures Do(s, step).Ok?
    ensures var t := Do(s, step).value;
            && (t.fd == Fired || (t.fd.Armed? && t.fd.at == at)) && (t.fd.Fired? <==> t.clock >= at)
  {
    match step
    case Create(_, _, _, _, _) =>
    case Cancel(id) => CancelKeepsCore(s, BatchOf(s), id);
    case Call => CallKeeps(s);
    case Tick(t) =>
  }

  /** Once armed, and until it is armed again or read, it is readable exactly from its instant on,
      whatever is cancelled meanwhile. */
  lemma {:induction false} FiresExactlyWhenDue(s: State, steps: seq<Step>, at: int)
    requires Inv(s) && forall i :: 0 <= i < |steps| ==> LeavesTimerfd(steps[i])
    requires s.fd == Fired || (s.fd.Armed? && s.fd.at == at)
    requires s.fd.Fired? <==> s.clock >= at
    ensures Run(s, steps).Ok?
    ensures Run(s, steps).value.fd.Fired? <==> Run(s, steps).value.clock >= at
    decreases |steps|
  {
    if steps != [] {
      assert LeavesTimerfd(steps[0]);
      assert forall i :: 0 <= i < |steps[1..]| ==> LeavesTimerfd(steps[1..][i]);
      if Enabled(s, steps[0]) {
        StepKeeps(s, steps[0]);
        StepLeavesTimerfd(s, steps[0], at);
        FiresExactlyWhenDue(Do(s, steps[0]).value, steps[1..], at);
      } else {
        FiresExactlyWhenDue(s, steps[1..], at);
      }
    }
  }
}
