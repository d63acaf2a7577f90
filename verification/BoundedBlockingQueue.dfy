/** The bounded queue of src/base/include/BoundedBlockQueue.h as interleaved critical sections. Threads
    are counted by what they do with a condition variable; one section runs from taking the mutex to
    giving it up, either by waiting or by returning. */
module BoundedBlockingQueues {

  import opened ConditionVariables

  datatype State<T> = State(
    queue: seq<T>,           // queue_
    maxSize: nat,            // max_size_
    consumers: Waiters,      // around notEmpty_
    producers: Waiters,      // around notFull_
    held: multiset<T>,       // items of producers that are blocked in put
    offered: multiset<T>,    // history: every item passed to put
    accepted: seq<T>,        // history: items in the order they entered the queue
    delivered: seq<T>)       // history: items in the order get returned them

  function Initial<T>(maxSize: nat): State<T> {
    State([], maxSize, Waiters(0, 0, 0), Waiters(0, 0, 0), multiset{}, multiset{}, [], [])
  }

  /** put, from getting the mutex to waiting or returning. */
  function PutSection<T(==)>(s: State<T>, x: T): State<T> {
    if |s.queue| >= s.maxSize then
      s.(producers := s.producers.Block(), held := s.held + multiset{x})
    else
      s.(queue := s.queue + [x], accepted := s.accepted + [x], consumers := s.consumers.Notify())
  }

  /** get, likewise. */
  function GetSection<T>(s: State<T>): State<T> {
    if s.queue == [] then
      s.(consumers := s.consumers.Block())
    else
      s.(queue := s.queue[1..], delivered := s.delivered + [s.queue[0]], producers := s.producers.Notify())
  }

  datatype Step<T> =
    | Put(x: T)                             // a thread calls put and gets the mutex
    | PutAgain(y: T, spuriousPut: bool)     // a producer returns from wait
    | Get                                   // a thread calls get and gets the mutex
    | GetAgain(spuriousGet: bool)           // a consumer returns from wait
    | WakeProducer                          // spurious wake-ups
    | WakeConsumer

  predicate Enabled<T(==)>(s: State<T>, step: Step<T>) {
    match step
    case Put(_) => true
    case PutAgain(y, spurious) => s.producers.CanResume(spurious) && y in s.held
    case Get => true
    case GetAgain(spurious) => s.consumers.CanResume(spurious)
    case WakeProducer => s.producers.waiting > 0
    case WakeConsumer => s.consumers.waiting > 0
  }

  function Do<T(==)>(s: State<T>, step: Step<T>): State<T>
    requires Enabled(s, step)
  {
    match step
    case Put(x) => PutSection(s.(offered := s.offered + multiset{x}), x)
    case PutAgain(y, spurious) =>
      PutSection(s.(producers := s.producers.Resume(spurious), held := s.held - multiset{y}), y)
    case Get => GetSection(s)
    case GetAgain(spurious) => GetSection(s.(consumers := s.consumers.Resume(spurious)))
    case WakeProducer => s.(producers := s.producers.WakeSpuriously())
    case WakeConsumer => s.(consumers := s.consumers.WakeSpuriously())
  }

  function Run<T(==)>(s: State<T>, steps: seq<Step<T>>): State<T>
    decreases |steps|
  {
    if steps == [] then s
    else Run(if Enabled(s, steps[0]) then Do(s, steps[0]) else s, steps[1..])
  }

  // ---------------------------------------------------------------- the invariant

  /** While someone waits, every item (every free place) has a signalled thread on its way to it. */
  predicate NoLostWakeup<T>(s: State<T>) {
    && |s.queue| <= s.maxSize
    && (s.consumers.waiting > 0 ==> |s.queue| <= s.consumers.signalled)
    && (s.producers.waiting > 0 ==> s.maxSize - |s.queue| <= s.producers.signalled)
  }

  /** First in, first out, each item once; an item not accepted is still with its blocked producer. */
  ghost predicate Conserved<T>(s: State<T>) {
    && s.accepted == s.delivered + s.queue
    && s.offered == multiset(s.accepted) + s.held
    && |s.held| == s.producers.Size()
  }

  ghost predicate Inv<T>(s: State<T>) {
    NoLostWakeup(s) && Conserved(s)
  }

  lemma StepKeepsWakeups<T>(s: State<T>, step: Step<T>)
    requires NoLostWakeup(s) && Enabled(s, step)
    ensures NoLostWakeup(Do(s, step))
  {
  }

  /** `held` is what the other blocked producers hold. */
  lemma PutConserves<T>(s: State<T>, x: T)
    requires s.accepted == s.delivered + s.queue
    requires s.offered == multiset(s.accepted) + (s.held + multiset{x})
    requires |s.held| == s.producers.Size()
    ensures Conserved(PutSection(s, x))
  {
    if |s.queue| < s.maxSize {
      assert s.delivered + (s.queue + [x]) == s.accepted + [x];
      assert multiset(s.accepted + [x]) == multiset(s.accepted) + multiset{x};
    }
  }

  lemma GetConserves<T>(s: State<T>)
    requires Conserved(s)
    ensures Conserved(GetSection(s))
  {
    if s.queue != [] {
      assert s.queue == [s.queue[0]] + s.queue[1..];
      assert s.delivered + [s.queue[0]] + s.queue[1..] == s.accepted;
    }
  }

  lemma PutStepConserves<T>(s: State<T>, x: T)
    requires Conserved(s)
    ensures Conserved(Do(s, Put(x)))
  {
    PutConserves(s.(offered := s.offered + multiset{x}), x);
  }

  lemma PutAgainConserves<T>(s: State<T>, y: T, spurious: bool)
    requires Conserved(s) && Enabled(s, PutAgain(y, spurious))
    ensures Conserved(Do(s, PutAgain(y, spurious)))
  {
    var rest := s.held - multiset{y};
    assert s.held == rest + multiset{y};
    PutConserves(s.(producers := s.producers.Resume(spurious), held := rest), y);
  }

  lemma GetAgainConserves<T>(s: State<T>, spurious: bool)
    requires Conserved(s) && s.consumers.CanResume(spurious)
    ensures Conserved(Do(s, GetAgain(spurious)))
  {
    GetConserves(s.(consumers := s.consumers.Resume(spurious)));
  }

  lemma WakingConserves<T>(s: State<T>, step: Step<T>)
    requires Conserved(s) && Enabled(s, step) && (step.WakeProducer? || step.WakeConsumer?)
    ensures Conserved(Do(s, step))
  {
  }

  lemma StepKeeps<T>(s: State<T>, step: Step<T>)
    requires Inv(s) && Enabled(s, step)
    ensures Inv(Do(s, step))
  {
    StepKeepsWakeups(s, step);
    match step
    case Put(x) => PutStepConserves(s, x);
    case PutAgain(y, spurious) => PutAgainConserves(s, y, spurious);
    case Get => GetConserves(s);
    case GetAgain(spurious) => GetAgainConserves(s, spurious);
    case WakeProducer => WakingConserves(s, step);
    case WakeConsumer => WakingConserves(s, step);
  }

  lemma {:induction false} EveryRunKeeps<T>(s: State<T>, steps: seq<Step<T>>)
    requires Inv(s)
    ensures Inv(Run(s, steps)) && Run(s, steps).maxSize == s.maxSize
    decreases |steps|
  {
    if steps != [] {
      if Enabled(s, steps[0]) {
        StepKeeps(s, steps[0]);
        EveryRunKeeps(Do(s, steps[0]), steps[1..]);
      } else {
        EveryRunKeeps(s, steps[1..]);
      }
    }
  }

  // ---------------------------------------------------------------- main results

  lemma InitialInv<T>(start: State<T>)
    requires start == Initial(start.maxSize)
    ensures Inv(start)
  {
    var none: seq<T> := [];
    assert multiset(none) == multiset{};
    assert start.offered == multiset(start.accepted) + start.held;
  }

  lemma FromTheStart<T>(start: State<T>, steps: seq<Step<T>>)
    requires start == Initial(start.maxSize)
    ensures Inv(Run(start, steps)) && Run(start, steps).maxSize == start.maxSize
  {
    InitialInv(start);
    EveryRunKeeps(start, steps);
  }

  /** For any numbers of producers and consumers, with barging and spurious wake-ups: the bound holds,
      delivery is first in first out and exactly once, and no wake-up is lost. */
  lemma QueueIsSafe<T>(start: State<T>, steps: seq<Step<T>>)
    requires start == Initial(start.maxSize)
    ensures var s := Run(start, steps);
            && |s.queue| <= start.maxSize
            && s.accepted == s.delivered + s.queue
            && s.offered == multiset(s.accepted) + s.held
            && (s.consumers.waiting > 0 ==> |s.queue| <= s.consumers.signalled)
            && (s.producers.waiting > 0 ==> start.maxSize - |s.queue| <= s.producers.signalled)
  {
    FromTheStart(start, steps);
  }

  predicate Asleep(w: Waiters) {
    w.signalled == 0 && w.woken == 0
  }

  /** With room for at least one item, producers and consumers can never all be asleep together; when
      nobody is awake, sleeping consumers mean an empty queue and sleeping producers a full one. */
  lemma NotAllStuck<T>(start: State<T>, steps: seq<Step<T>>)
    requires start == Initial(start.maxSize) && start.maxSize > 0
    ensures var s := Run(start, steps);
            Asleep(s.consumers) && Asleep(s.producers) ==>
              && (s.consumers.waiting == 0 || s.producers.waiting == 0)
              && (s.consumers.waiting > 0 ==> s.queue == [])
              && (s.producers.waiting > 0 ==> |s.queue| == start.maxSize)
  {
    FromTheStart(start, steps);
  }

  /** If a consumer sleeps although the queue has an item, some signalled consumer can take it next. */
  lemma SleepingBesideAnItem<T>(start: State<T>, steps: seq<Step<T>>)
    requires start == Initial(start.maxSize)
    ensures var s := Run(start, steps);
            s.consumers.waiting > 0 && s.queue != [] ==>
              && Enabled(s, GetAgain(false))
              && Do(s, GetAgain(false)).delivered == s.delivered + [s.queue[0]]
  {
    FromTheStart(start, steps);
  }

  // ---------------------------------------------------------------- what a call does

  /** put returns with its item last in the queue, having woken one consumer, exactly when there is
      room, and waits otherwise. */
  lemma PutExactly<T>(s: State<T>, x: T)
    ensures var t := Do(s, Put(x));
            && t.offered == s.offered + multiset{x} && t.delivered == s.delivered
            && if |s.queue| < s.maxSize then
                 && t.queue == s.queue + [x] && t.held == s.held && t.producers == s.producers
                 && s.consumers.OneFewer(t.consumers)
               else
                 && t.queue == s.queue && t.held == s.held + multiset{x} && t.consumers == s.consumers
                 && t.producers.waiting == s.producers.waiting + 1
  {
  }

  /** get returns the front, having woken one producer, exactly when there is one, and waits otherwise. */
  lemma GetExactly<T>(s: State<T>)
    ensures var t := Do(s, Get);
            && t.accepted == s.accepted && t.held == s.held
            && if s.queue != [] then
                 && t.delivered == s.delivered + [s.queue[0]] && t.queue == s.queue[1..]
                 && t.consumers == s.consumers && s.producers.OneFewer(t.producers)
               else
                 && t.delivered == s.delivered && t.queue == [] && t.producers == s.producers
                 && t.consumers.waiting == s.consumers.waiting + 1
  {
  }

  predicate GetStep<T(==)>(step: Step<T>) {
    step.Get? || step.GetAgain?
  }

  predicate PutStep<T(==)>(step: Step<T>) {
    step.Put? || step.PutAgain?
  }

  /** Some step of the schedule that takes effect is a turn of get, or of put. */
  ghost predicate Gets<T>(s: State<T>, steps: seq<Step<T>>)
    decreases |steps|
  {
    steps != [] &&
    if Enabled(s, steps[0]) then GetStep(steps[0]) || Gets(Do(s, steps[0]), steps[1..]) else Gets(s, steps[1..])
  }

  ghost predicate Puts<T>(s: State<T>, steps: seq<Step<T>>)
    decreases |steps|
  {
    steps != [] &&
    if Enabled(s, steps[0]) then PutStep(steps[0]) || Puts(Do(s, steps[0]), steps[1..]) else Puts(s, steps[1..])
  }

  lemma {:induction false} HistoriesGrow<T>(s: State<T>, steps: seq<Step<T>>)
    ensures s.delivered <= Run(s, steps).delivered && s.accepted <= Run(s, steps).accepted
    decreases |steps|
  {
    if steps != [] {
      HistoriesGrow(if Enabled(s, steps[0]) then Do(s, steps[0]) else s, steps[1..]);
    }
  }

  /** Whatever is interleaved, the first consumer to get the mutex takes the front. */
  lemma {:induction false} FrontIsDelivered<T>(s: State<T>, steps: seq<Step<T>>)
    requires s.queue != [] && Gets(s, steps)
    ensures s.delivered + [s.queue[0]] <= Run(s, steps).delivered
    decreases |steps|
  {
    if !Enabled(s, steps[0]) {
      FrontIsDelivered(s, steps[1..]);
    } else if GetStep(steps[0]) {
      HistoriesGrow(Do(s, steps[0]), steps[1..]);
    } else {
      FrontIsDelivered(Do(s, steps[0]), steps[1..]);
    }
  }

  /** And as long as there is room, the first producer to get it leaves its item. */
  lemma {:induction false} RoomIsUsed<T>(s: State<T>, steps: seq<Step<T>>)
    requires |s.queue| < s.maxSize && Puts(s, steps)
    ensures |s.accepted| < |Run(s, steps).accepted|
    decreases |steps|
  {
    if !Enabled(s, steps[0]) {
      RoomIsUsed(s, steps[1..]);
    } else if PutStep(steps[0]) {
      HistoriesGrow(Do(s, steps[0]), steps[1..]);
    } else {
      RoomIsUsed(Do(s, steps[0]), steps[1..]);
    }
  }

  /** A thread woken for nothing gets the mutex and goes back to sleep: nothing has changed. */
  lemma SpuriousWakeup<T>(s: State<T>, y: T)
    ensures s.consumers.waiting > 0 && s.queue == [] ==>
              && Enabled(Do(s, WakeConsumer), GetAgain(true))
              && Do(Do(s, WakeConsumer), GetAgain(true)) == s
    ensures s.producers.waiting > 0 && |s.queue| >= s.maxSize && y in s.held ==>
              && Enabled(Do(s, WakeProducer), PutAgain(y, true))
              && Do(Do(s, WakeProducer), PutAgain(y, true)) == s
  {
    if y in s.held {
      assert s.held - multiset{y} + multiset{y} == s.held;
    }
  }

  /** The calls of get that have taken effect. */
  function GetCalls<T>(steps: seq<Step<T>>): nat {
    if steps == [] then 0 else (if steps[0].Get? then 1 else 0) + GetCalls(steps[1..])
  }

  /** Each call of get has returned one item or is still inside. */
  lemma {:induction false} OneItemForEachGet<T>(s: State<T>, steps: seq<Step<T>>)
    ensures |Run(s, steps).delivered| + Run(s, steps).consumers.Size()
              == |s.delivered| + s.consumers.Size() + GetCalls(steps)
    decreases |steps|
  {
    if steps != [] {
      OneItemForEachGet(if Enabled(s, steps[0]) then Do(s, steps[0]) else s, steps[1..]);
    }
  }

  /** The items passed to put. */
  function PutItems<T(==)>(steps: seq<Step<T>>): multiset<T> {
    if steps == [] then multiset{}
    else (if steps[0].Put? then multiset{steps[0].x} else multiset{}) + PutItems(steps[1..])
  }

  lemma {:induction false} OfferedExactly<T>(s: State<T>, steps: seq<Step<T>>)
    ensures Run(s, steps).offered == s.offered + PutItems(steps)
    decreases |steps|
  {
    if steps != [] {
      OfferedExactly(if Enabled(s, steps[0]) then Do(s, steps[0]) else s, steps[1..]);
    }
  }

  // ---------------------------------------------------------------- the object

  class BoundedBlockingQueue<T(==)> {
    const maxSize_: nat
    var queue_: seq<T>
    ghost var consumers: Waiters
    ghost var producers: Waiters
    ghost var held: multiset<T>
    ghost var offered: multiset<T>
    ghost var accepted: seq<T>
    ghost var delivered: seq<T>

    ghost function Model(): State<T>
      reads this
    {
      State(queue_, maxSize_, consumers, producers, held, offered, accepted, delivered)
    }

    constructor (maxSize: nat)
      ensures Model() == Initial(maxSize) && Inv(Model())
    {
      maxSize_, queue_ := maxSize, [];
      consumers, producers := Waiters(0, 0, 0), Waiters(0, 0, 0);
      held, offered, accepted, delivered := multiset{}, multiset{}, [], [];
    }

    /** One turn of put's loop; `done` is false when the thread has gone to wait. */
    method PutOnce(x: T) returns (done: bool)
      modifies this
      ensures Model() == PutSection(old(Model()), x) && done == (|old(queue_)| < maxSize_)
    {
      if |queue_| >= maxSize_ {
        producers, held := producers.Block(), held + multiset{x};
        return false;
      }
      queue_ := queue_ + [x];
      accepted := accepted + [x];
      consumers := consumers.Notify();
      return true;
    }

    /** One turn of get's loop. */
    method GetOnce(fallback: T) returns (done: bool, front: T)
      modifies this
      ensures Model() == GetSection(old(Model())) && done == (old(queue_) != [])
      ensures done ==> front == old(queue_)[0]
    {
      if |queue_| == 0 {
        consumers := consumers.Block();
        return false, fallback;
      }
      front := queue_[0];
      queue_ := queue_[1..];
      delivered := delivered + [front];
      producers := producers.Notify();
      return true, front;
    }
  }
}
