/** The timer queue as a transition system: the sets of src/net/src/TimerQueue.cc, the memory the
    timers live in, the clock and the timerfd. Addresses are plain numbers that the allocator may
    hand out again after a `delete`, so a stale `TimerId` can name a newer timer's address. */
module TimerQueues {
  import opened Outcomes

  const UINTPTR_MAX: nat := 0xFFFF_FFFF_FFFF_FFFF
  const FLOOR: nat := 100  // microseconds, the shortest delay given to the timerfd

  type Address = nat

  /** `interval` is in whole microseconds, as `addTime` truncates it; `repeat` is a separate flag
      because a positive interval may truncate to zero. */
  datatype Timer = Timer(expiration: int, interval: nat, repeat: bool, sequence: int)

  datatype Entry = Entry(when: int, timer: Address)

  datatype TimerId = TimerId(timer: Address, sequence: int)

  datatype Timerfd = Disarmed | Armed(at: int, since: int) | Fired

  /** `Calling` is the loop inside `handleRead`: callbacks before `next` have been started. */
  datatype Phase = Idle | Calling(expired: seq<Entry>, now: int, next: nat)

  datatype State = State(
    heap: map<Address, Timer>,   // allocated timers
    pending: set<Address>,       // created by addTimer, addTimerInLoop still queued
    timers: seq<Entry>,          // timers_, a std::set: strictly ascending
    active: set<TimerId>,        // activeTimers_
    calling: bool,               // callingExpiredTimers_
    canceling: set<TimerId>,     // cancelingTimers_
    phase: Phase,
    nextSequence: int,           // Timer::s_numCreated_, shared with other queues
    clock: int,
    fd: Timerfd,
    created: set<int>,           // sequence numbers of this queue's timers
    ran: seq<int>,               // sequence numbers in the order their callbacks started
    freed: seq<int>)             // sequence numbers in the order they were deleted

  // ---------------------------------------------------------------- std::set<Entry>

  predicate Less(x: Entry, y: Entry) {
    x.when < y.when || (x.when == y.when && x.timer < y.timer)
  }

  predicate Ascending(ts: seq<Entry>) {
    forall i, j :: 0 <= i < j < |ts| ==> Less(ts[i], ts[j])
  }

  function LowerBound(ts: seq<Entry>, e: Entry): (r: nat)
    ensures r <= |ts|
    ensures forall i :: 0 <= i < r ==> Less(ts[i], e)
    ensures r < |ts| ==> !Less(ts[r], e)
  {
    if ts == [] || !Less(ts[0], e) then 0 else 1 + LowerBound(ts[1..], e)
  }

  function InsertEntry(ts: seq<Entry>, e: Entry): seq<Entry> {
    var i := LowerBound(ts, e);
    ts[..i] + [e] + ts[i..]
  }

  function EraseEntry(ts: seq<Entry>, e: Entry): seq<Entry> {
    var i := LowerBound(ts, e);
    if i < |ts| && ts[i] == e then ts[..i] + ts[i + 1..] else ts
  }

  lemma SplitMembers(ts: seq<Entry>, i: nat)
    requires i <= |ts|
    ensures forall x :: x in ts <==> x in ts[..i] || x in ts[i..]
  {
    assert ts == ts[..i] + ts[i..];
  }

  lemma InsertEntryCorrect(ts: seq<Entry>, e: Entry)
    requires Ascending(ts) && e !in ts
    ensures Ascending(InsertEntry(ts, e))
    ensures |InsertEntry(ts, e)| == |ts| + 1
    ensures forall x :: x in InsertEntry(ts, e) <==> x == e || x in ts
    ensures InsertEntry(ts, e)[0].when == if ts == [] || e.when < ts[0].when then e.when else ts[0].when
  {
    var i := LowerBound(ts, e);
    var r := InsertEntry(ts, e);
    assert i < |ts| ==> ts[i] in ts;
    forall j, k | 0 <= j < k < |r|
      ensures Less(r[j], r[k])
    {
      if k < i {
        assert r[j] == ts[j] && r[k] == ts[k];
      } else if k == i {
        assert r[j] == ts[j];
      } else {
        assert r[k] == ts[k - 1];
        assert k - 1 == i || Less(ts[i], ts[k - 1]);
      }
    }
    SplitMembers(ts, i);
  }

  lemma EraseEntryCorrect(ts: seq<Entry>, e: Entry)
    requires Ascending(ts) && e in ts
    ensures Ascending(EraseEntry(ts, e))
    ensures |EraseEntry(ts, e)| == |ts| - 1
    ensures forall x :: x in EraseEntry(ts, e) <==> x != e && x in ts
    ensures EraseEntry(ts, e) != [] ==> ts[0].when <= EraseEntry(ts, e)[0].when
  {
    var i := LowerBound(ts, e);
    var k :| 0 <= k < |ts| && ts[k] == e;
    assert i == k;
    var r := EraseEntry(ts, e);
    assert r == ts[..i] + ts[i + 1..];
    assert ts == ts[..i] + [e] + ts[i + 1..];
    assert forall x :: x in r <==> x in ts[..i] || x in ts[i + 1..];
    assert forall x :: x in ts <==> x in ts[..i] || x == e || x in ts[i + 1..];
    assert e !in ts[..i] && e !in ts[i + 1..];
  }

  // ---------------------------------------------------------------- the member functions

  /** resetTimerfd: arm relative to the clock, never for less than FLOOR microseconds. */
  function ArmTimerfd(clock: int, when: int): Timerfd {
    var delay := when - clock;
    Armed(clock + (if delay < FLOOR then FLOOR else delay), clock)
  }

  /** insert: both sets must accept the timer. The flag tells whether it is the new earliest. */
  function Insert(s: State, a: Address): Outcome<(State, bool)> {
    if a !in s.heap || |s.timers| != |s.active| then Fault else
    var t := s.heap[a];
    var e := Entry(t.expiration, a);
    var id := TimerId(a, t.sequence);
    var earliestChanged := s.timers == [] || t.expiration < s.timers[0].when;
    if e in s.timers || id in s.active then Fault else
    var s' := s.(timers := InsertEntry(s.timers, e), active := s.active + {id});
    if |s'.timers| != |s'.active| then Fault else Ok((s', earliestChanged))
  }

  function AddTimerInLoop(s: State, a: Address): Outcome<State> {
    var (s', earliestChanged) :- Insert(s.(pending := s.pending - {a}), a);
    if earliestChanged then
      Ok(s'.(fd := ArmTimerfd(s.clock, s.heap[a].expiration)))
    else
      Ok(s')
  }

  /** `delete`: reading the sequence number stands for the destructor touching the object. */
  function Delete(s: State, a: Address): Outcome<State> {
    if a !in s.heap then Fault else
    Ok(s.(heap := s.heap - {a}, freed := s.freed + [s.heap[a].sequence]))
  }

  function CancelInLoop(s: State, id: TimerId): Outcome<State> {
    if |s.timers| != |s.active| then Fault
    else if id in s.active then
      if id.timer !in s.heap then Fault else
      var e := Entry(s.heap[id.timer].expiration, id.timer);
      if e !in s.timers then Fault else
      var s' :- Delete(s.(timers := EraseEntry(s.timers, e)), id.timer);
      var s'' := s'.(active := s'.active - {id});
      if |s''.timers| != |s''.active| then Fault else Ok(s'')
    else if s.calling then
      Ok(s.(canceling := s.canceling + {id}))
    else
      Ok(s)
  }

  /** The second loop of getExpired: take each expired timer out of activeTimers_. */
  function Deactivate(heap: map<Address, Timer>, active: set<TimerId>, expired: seq<Entry>): Outcome<set<TimerId>> {
    if expired == [] then Ok(active) else
    var a := expired[0].timer;
    if a !in heap then Fault else
    var id := TimerId(a, heap[a].sequence);
    if id !in active then Fault else
    Deactivate(heap, active - {id}, expired[1..])
  }

  function GetExpired(s: State, now: int): Outcome<(State, seq<Entry>)> {
    if |s.timers| != |s.active| then Fault else
    var end := LowerBound(s.timers, Entry(now, UINTPTR_MAX));
    if end < |s.timers| && s.timers[end].when <= now then Fault else
    var expired := s.timers[..end];
    var active' :- Deactivate(s.heap, s.active, expired);
    var s' := s.(timers := s.timers[end..], active := active');
    if |s'.timers| != |s'.active| then Fault else Ok((s', expired))
  }

  /** The loop of reset, over what is left of the batch. */
  function Settle(s: State, batch: seq<Entry>, now: int): Outcome<State>
    decreases |batch|
  {
    if batch == [] then Ok(s) else
    var a := batch[0].timer;
    if a !in s.heap then Fault else
    var t := s.heap[a];
    if t.repeat && TimerId(a, t.sequence) !in s.canceling then
      var (s', _) :- Insert(s.(heap := s.heap[a := t.(expiration := now + t.interval)]), a);
      Settle(s', batch[1..], now)
    else
      var s' :- Delete(s, a);
      Settle(s', batch[1..], now)
  }

  function Rearm(s: State): Outcome<State> {
    if s.timers == [] then Ok(s)
    else if s.timers[0].timer !in s.heap then Fault
    else
      var nextExpire := s.heap[s.timers[0].timer].expiration;
      if nextExpire > 0 then Ok(s.(fd := ArmTimerfd(s.clock, nextExpire))) else Ok(s)
  }

  function Reset(s: State, expired: seq<Entry>, now: int): Outcome<State> {
    var s' :- Settle(s, expired, now);
    Rearm(s')
  }

  /** handleRead up to the first callback. */
  function StartRead(s: State): Outcome<State> {
    var now := s.clock;
    var (s', expired) :- GetExpired(s.(fd := if s.fd.Fired? then Disarmed else s.fd), now);
    Ok(s'.(calling := true, canceling := {}, phase := Calling(expired, now, 0)))
  }

  /** One turn of the callback loop; what the callback does follows as separate steps. */
  function CallNext(s: State): Outcome<State>
    requires s.phase.Calling? && s.phase.next < |s.phase.expired|
  {
    var a := s.phase.expired[s.phase.next].timer;
    if a !in s.heap then Fault else
    Ok(s.(ran := s.ran + [s.heap[a].sequence], phase := s.phase.(next := s.phase.next + 1)))
  }

  /** handleRead after the last callback. */
  function FinishRead(s: State): Outcome<State>
    requires s.phase.Calling?
  {
    Reset(s.(calling := false, phase := Idle), s.phase.expired, s.phase.now)
  }

  // ---------------------------------------------------------------- runs

  datatype Step =
    | Create(timer: Address, when: int, interval: nat, repeat: bool, sequence: int)
    | Add(added: Address)
    | Cancel(id: TimerId)
    | Start
    | Call
    | Finish
    | Tick(time: int)

  /** What the environment may do: allocate unused addresses, run queued additions, cancel anything,
      let time pass, and drive handleRead in its order. */
  predicate Enabled(s: State, step: Step) {
    match step
    case Create(a, _, _, _, q) => a !in s.heap && a < UINTPTR_MAX && s.nextSequence <= q
    case Add(a) => a in s.pending
    case Cancel(_) => true
    case Start => s.phase.Idle?
    case Call => s.phase.Calling? && s.phase.next < |s.phase.expired|
    case Finish => s.phase.Calling? && s.phase.next == |s.phase.expired|
    case Tick(t) => s.clock <= t
  }

  function Do(s: State, step: Step): Outcome<State>
    requires Enabled(s, step)
  {
    match step
    case Create(a, when, interval, repeat, q) =>
      Ok(s.(heap := s.heap[a := Timer(when, interval, repeat, q)],
            pending := s.pending + {a},
            nextSequence := q + 1,
            created := s.created + {q}))
    case Add(a) => AddTimerInLoop(s, a)
    case Cancel(id) => CancelInLoop(s, id)
    case Start => StartRead(s)
    case Call => CallNext(s)
    case Finish => FinishRead(s)
    case Tick(t) =>
      Ok(s.(clock := t, fd := if s.fd.Armed? && s.fd.at <= t then Fired else s.fd))
  }

  /** A schedule is any list of steps; steps that are not enabled are passed over. */
  function Run(s: State, steps: seq<Step>): Outcome<State>
    decreases |steps|
  {
    if steps == [] then Ok(s)
    else if Enabled(s, steps[0]) then
      var s' :- Do(s, steps[0]);
      Run(s', steps[1..])
    else
      Run(s, steps[1..])
  }

  ghost predicate Initial(s: State) {
    && s.heap == map[] && s.pending == {} && s.timers == [] && s.active == {} && !s.calling
    && s.canceling == {} && s.phase == Idle && s.clock > 0 && s.fd == Disarmed
    && s.created == {} && s.ran == [] && s.freed == []
  }
}
