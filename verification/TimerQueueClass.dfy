/** The member functions of src/net/src/TimerQueue.cc updating their fields in place, each proved to
    take the step of the transition system. */
module TimerQueueObject {
  import opened Outcomes
  import opened TimerQueues
  import opened TimerQueueTheorems

  class TimerQueue {
    var timers_: seq<Entry>
    var activeTimers_: set<TimerId>
    var callingExpiredTimers_: bool
    var cancelingTimers_: set<TimerId>

    // The program's memory, clock and timerfd, and additions still queued on the loop.
    var heap: map<Address, Timer>
    var pending: set<Address>
    var nextSequence: int
    var clock: int
    var fd: Timerfd

    ghost var phase: Phase
    ghost var created: set<int>
    ghost var ran: seq<int>
    ghost var freed: seq<int>

    ghost function Model(): State
      reads this
    {
      State(heap, pending, timers_, activeTimers_, callingExpiredTimers_, cancelingTimers_,
            phase, nextSequence, clock, fd, created, ran, freed)
    }

    constructor (now: int, sequence: int)
      requires now > 0
      ensures Initial(Model()) && Reachable(Model()) && clock == now && nextSequence == sequence
    {
      timers_, activeTimers_, callingExpiredTimers_, cancelingTimers_ := [], {}, false, {};
      heap, pending, nextSequence, clock, fd := map[], {}, sequence, now, Disarmed;
      phase, created, ran, freed := Idle, {}, [], [];
      new;
      assert Run(Model(), []) == Ok(Model());
    }

    method Insert(timer: Address) returns (earliestChanged: bool)
      requires TimerQueues.Insert(Model(), timer).Ok?
      modifies this
      ensures Ok((Model(), earliestChanged)) == TimerQueues.Insert(old(Model()), timer)
    {
      assert |timers_| == |activeTimers_|;
      earliestChanged := false;
      var when := heap[timer].expiration;
      if |timers_| == 0 || when < timers_[0].when {
        earliestChanged := true;
      }
      assert Entry(when, timer) !in timers_;
      timers_ := InsertEntry(timers_, Entry(when, timer));
      assert TimerId(timer, heap[timer].sequence) !in activeTimers_;
      activeTimers_ := activeTimers_ + {TimerId(timer, heap[timer].sequence)};
      assert |timers_| == |activeTimers_|;
    }

    method Free(timer: Address)
      requires timer in heap
      modifies this
      ensures Ok(Model()) == Delete(old(Model()), timer)
    {
      freed := freed + [heap[timer].sequence];
      heap := heap - {timer};
    }

    method AddTimerInLoop(timer: Address)
      requires TimerQueues.AddTimerInLoop(Model(), timer).Ok?
      modifies this
      ensures Ok(Model()) == TimerQueues.AddTimerInLoop(old(Model()), timer)
    {
      pending := pending - {timer};
      var earliestChanged := Insert(timer);
      if earliestChanged {
        fd := ArmTimerfd(clock, heap[timer].expiration);
      }
    }

    method CancelInLoop(timerId: TimerId)
      requires TimerQueues.CancelInLoop(Model(), timerId).Ok?
      modifies this
      ensures Ok(Model()) == TimerQueues.CancelInLoop(old(Model()), timerId)
    {
      assert |timers_| == |activeTimers_|;
      if timerId in activeTimers_ {
        var e := Entry(heap[timerId.timer].expiration, timerId.timer);
        assert e in timers_;
        timers_ := EraseEntry(timers_, e);
        Free(timerId.timer);
        activeTimers_ := activeTimers_ - {timerId};
      } else if callingExpiredTimers_ {
        cancelingTimers_ := cancelingTimers_ + {timerId};
      }
      assert |timers_| == |activeTimers_|;
    }

    method GetExpired(now: int) returns (expired: seq<Entry>)
      requires TimerQueues.GetExpired(Model(), now).Ok?
      modifies this
      ensures Ok((Model(), expired)) == TimerQueues.GetExpired(old(Model()), now)
    {
      assert |timers_| == |activeTimers_|;
      var end := LowerBound(timers_, Entry(now, UINTPTR_MAX));
      assert end == |timers_| || now < timers_[end].when;
      expired := timers_[..end];
      timers_ := timers_[end..];
      for i := 0 to |expired|
        invariant Model() == old(Model()).(timers := timers_, active := activeTimers_)
        invariant timers_ == old(timers_)[end..] && expired == old(timers_)[..end]
        invariant Deactivate(heap, activeTimers_, expired[i..]).Ok?
        invariant Deactivate(heap, activeTimers_, expired[i..]) == Deactivate(heap, old(activeTimers_), expired)
      {
        var timer := TimerId(expired[i].timer, heap[expired[i].timer].sequence);
        assert timer in activeTimers_;
        assert expired[i..][1..] == expired[i + 1..];
        activeTimers_ := activeTimers_ - {timer};
      }
      assert |timers_| == |activeTimers_|;
    }

    /** One turn of the loop in reset. */
    method SettleTimer(timer: Address, now: int)
      requires SettleHead(Model(), timer, now).Ok?
      modifies this
      ensures Ok(Model()) == SettleHead(old(Model()), timer, now)
    {
      if heap[timer].repeat && TimerId(timer, heap[timer].sequence) !in cancelingTimers_ {
        heap := heap[timer := heap[timer].(expiration := now + heap[timer].interval)];
        var _ := Insert(timer);
      } else {
        Free(timer);
      }
    }

    method Reset(expired: seq<Entry>, now: int)
      requires TimerQueues.Reset(Model(), expired, now).Ok?
      modifies this
      ensures Ok(Model()) == TimerQueues.Reset(old(Model()), expired, now)
    {
      for i := 0 to |expired|
        invariant Settle(Model(), expired[i..], now).Ok?
        invariant Settle(Model(), expired[i..], now) == Settle(old(Model()), expired, now)
      {
        assert expired[i..][0] == expired[i] && expired[i..][1..] == expired[i + 1..];
        SettleTurn(Model(), expired[i..], now);
        SettleTimer(expired[i].timer, now);
      }
      if timers_ != [] {
        var nextExpire := heap[timers_[0].timer].expiration;
        if nextExpire > 0 {
          fd := ArmTimerfd(clock, nextExpire);
        }
      }
    }

    /** Something a callback may do: create a timer, add it, cancel any id, or take some time. */
    method Perform(step: Step)
      requires Reachable(Model()) && !step.Start? && !step.Call? && !step.Finish?
      modifies this
      ensures Ok(Model()) == Run(old(Model()), [step])
    {
      RunOne(Model(), step);
      if Enabled(Model(), step) {
        ReachableStep(Model(), step);
      }
      match step {
        case Create(a, when, interval, repeat, q) =>
          if a !in heap && a < UINTPTR_MAX && nextSequence <= q {
            heap := heap[a := Timer(when, interval, repeat, q)];
            pending := pending + {a};
            nextSequence := q + 1;
            created := created + {q};
          }
        case Add(a) =>
          if a in pending {
            AddTimerInLoop(a);
          }
        case Cancel(id) =>
          CancelInLoop(id);
        case Tick(t) =>
          if clock <= t {
            clock := t;
            if fd.Armed? && fd.at <= t {
              fd := Fired;
            }
          }
      }
    }

    method PerformAll(steps: seq<Step>)
      requires Reachable(Model()) && CallbackSteps(steps)
      modifies this
      ensures Ok(Model()) == Run(old(Model()), steps)
    {
      ghost var s0 := Model();
      for i := 0 to |steps|
        invariant Ok(Model()) == Run(s0, steps[..i])
      {
        ReachableRun(s0, steps[..i]);
        RunAppend(s0, steps[..i], [steps[i]]);
        assert steps[..i + 1] == steps[..i] + [steps[i]];
        Perform(steps[i]);
      }
      assert steps[..|steps|] == steps;
    }

    /** handleRead up to the callback loop. */
    method StartRead() returns (expired: seq<Entry>, now: int)
      requires TimerQueues.StartRead(Model()).Ok?
      modifies this
      ensures Ok(Model()) == TimerQueues.StartRead(old(Model()))
      ensures phase == Calling(expired, now, 0)
    {
      StartUnfolds(Model(), TimerQueues.GetExpired(Drained(Model()), clock));
      now := clock;
      if fd.Fired? {
        fd := Disarmed;
      }
      assert Model() == Drained(old(Model()));
      expired := GetExpired(now);
      callingExpiredTimers_ := true;
      cancelingTimers_ := {};
      phase := Calling(expired, now, 0);
    }

    /** One turn of the callback loop. */
    method CallTimer(it: Entry, callback: seq<Step>)
      requires Reachable(Model()) && Enabled(Model(), Call)
      requires it == phase.expired[phase.next] && CallbackSteps(callback)
      modifies this
      ensures phase == old(phase).(next := old(phase).next + 1)
      ensures Ok(Model()) == Run(old(Model()), [Call] + callback)
    {
      ReachableStep(Model(), Call);
      ran := ran + [heap[it.timer].sequence];
      phase := phase.(next := phase.next + 1);
      ghost var called := Model();
      PerformAll(callback);
      CallbackStaysInBatch(called, callback);
      RunAppend(old(Model()), [Call], callback);
    }

    /** handleRead after the callback loop. */
    method FinishRead(expired: seq<Entry>, now: int)
      requires phase.Calling? && phase.expired == expired && phase.now == now
      requires TimerQueues.FinishRead(Model()).Ok?
      modifies this
      ensures Ok(Model()) == TimerQueues.FinishRead(old(Model()))
    {
      callingExpiredTimers_ := false;
      phase := Idle;
      Reset(expired, now);
    }

    /** `callbacks[i]` is what the callback of the i-th expired timer does. */
    method HandleRead(callbacks: seq<seq<Step>>)
      requires Reachable(Model()) && phase.Idle?
      requires |timers_| <= |callbacks| && forall i :: 0 <= i < |callbacks| ==> CallbackSteps(callbacks[i])
      modifies this
      ensures phase.Idle?
      ensures var due := DueCount(old(timers_), old(clock));
              due <= |callbacks| && Ok(Model()) == Run(old(Model()), HandleReadSchedule(callbacks[..due]))
    {
      ghost var s0 := Model();
      ReadStarts(s0);
      var expired, now := StartRead();
      for i := 0 to |expired|
        invariant phase == Calling(expired, now, i)
        invariant Ok(Model()) == Run(s0, [Start] + Turns(callbacks[..i]))
      {
        ReachableRun(s0, [Start] + Turns(callbacks[..i]));
        CallTimer(expired[i], callbacks[i]);
        RunTurn(s0, callbacks[..i], callbacks[i]);
        assert callbacks[..i + 1] == callbacks[..i] + [callbacks[i]];
      }
      ReadFinishes(s0, callbacks[..|expired|], Model());
      FinishRead(expired, now);
    }
  }

  /** How many timers are due by `now`, counted by their times alone. */
  function DueCount(timers: seq<Entry>, now: int): (n: nat)
    ensures n <= |timers|
  {
    LowerBound(timers, Entry(now, UINTPTR_MAX))
  }

  function HandleReadSchedule(callbacks: seq<seq<Step>>): seq<Step> {
    [Start] + Turns(callbacks) + [Finish]
  }

  lemma ReadStarts(s: State)
    requires Reachable(s) && s.phase.Idle?
    ensures StartRead(s).Ok? && |StartRead(s).value.phase.expired| == DueCount(s.timers, s.clock)
    ensures Run(s, [Start] + Turns([])) == StartRead(s)
  {
    assert [Start] + Turns([]) == [Start];
    ReachableStep(s, Start);
    assert StartRead(s).Ok?;
    BatchSize(s);
  }

  lemma BatchSize(s: State)
    requires s.phase.Idle? && StartRead(s).Ok?
    ensures |StartRead(s).value.phase.expired| == DueCount(s.timers, s.clock)
  {
    StartUnfolds(s, GetExpired(Drained(s), s.clock));
    var (s1, expired) := GetExpired(Drained(s), s.clock).value;
    assert expired == s.timers[..DueCount(s.timers, s.clock)];
  }

  lemma ReadFinishes(s: State, callbacks: seq<seq<Step>>, s': State)
    requires Reachable(s) && Enabled(s', Finish)
    requires Run(s, [Start] + Turns(callbacks)) == Ok(s')
    ensures FinishRead(s').Ok? && FinishRead(s').value.phase.Idle?
    ensures Run(s, HandleReadSchedule(callbacks)) == FinishRead(s')
  {
    ReachableRun(s, [Start] + Turns(callbacks));
    ReachableStep(s', Finish);
    RunAppend(s, [Start] + Turns(callbacks), [Finish]);
    ReachableIsSafe(s');
    FinishKeeps(s');
  }

  lemma RunTurn(s: State, callbacks: seq<seq<Step>>, last: seq<Step>)
    requires Run(s, [Start] + Turns(callbacks)).Ok?
    ensures Run(s, [Start] + Turns(callbacks + [last])) == Run(Run(s, [Start] + Turns(callbacks)).value, [Call] + last)
  {
    TurnsSnoc(callbacks, last);
    assert [Start] + Turns(callbacks + [last]) == [Start] + Turns(callbacks) + ([Call] + last);
    RunAppend(s, [Start] + Turns(callbacks), [Call] + last);
  }

  predicate CallbackSteps(steps: seq<Step>) {
    forall i :: 0 <= i < |steps| ==> !steps[i].Start? && !steps[i].Call? && !steps[i].Finish?
  }

  /** The callback loop as a schedule: call a timer, do what its callback does, call the next. */
  function Turns(callbacks: seq<seq<Step>>): seq<Step> {
    if callbacks == [] then [] else [Call] + callbacks[0] + Turns(callbacks[1..])
  }

  lemma {:induction false} TurnsSnoc(callbacks: seq<seq<Step>>, last: seq<Step>)
    ensures Turns(callbacks + [last]) == Turns(callbacks) + [Call] + last
  {
    if callbacks == [] {
      assert [last][1..] == [];
    } else {
      TurnsSnoc(callbacks[1..], last);
      assert (callbacks + [last])[1..] == callbacks[1..] + [last];
      assert (callbacks + [last])[0] == callbacks[0];
    }
  }

  lemma {:induction false} CallbackStaysInBatch(s: State, steps: seq<Step>)
    requires Reachable(s) && s.phase.Calling? && CallbackSteps(steps)
    ensures Run(s, steps).Ok? && Run(s, steps).value.phase == s.phase
    decreases |steps|
  {
    if steps != [] {
      if Enabled(s, steps[0]) {
        ReachableStep(s, steps[0]);
        ReachableIsSafe(s);
        SameTurn(s, steps[0]);
        CallbackStaysInBatch(Do(s, steps[0]).value, steps[1..]);
      } else {
        CallbackStaysInBatch(s, steps[1..]);
      }
    }
  }
}
