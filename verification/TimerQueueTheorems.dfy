/** What every run of the timer queue keeps: the two sets agree, memory is neither leaked nor freed
    twice nor touched after release, cancelled timers stay cancelled, and the timerfd is armed. */
module TimerQueueTheorems {
  import opened Outcomes
  import opened TimerQueues

  type Heap = map<Address, Timer>

  // ---------------------------------------------------------------- the invariant

  function EntryOf(heap: Heap, a: Address): Entry
    requires a in heap
  {
    Entry(heap[a].expiration, a)
  }

  function IdOf(heap: Heap, a: Address): TimerId
    requires a in heap
  {
    TimerId(a, heap[a].sequence)
  }

  /** timers_ and activeTimers_ hold exactly the same timers, each under its current expiration. */
  ghost predicate SetsAgree(heap: Heap, timers: seq<Entry>, active: set<TimerId>) {
    && Ascending(timers) && |timers| == |active|
    && (forall e :: e in timers ==> e.timer in heap && e == EntryOf(heap, e.timer) && IdOf(heap, e.timer) in active)
    && (forall id :: id in active ==>
          id.timer in heap && id == IdOf(heap, id.timer) && EntryOf(heap, id.timer) in timers)
  }

  /** The allocated timers are the scheduled ones, the queued ones, those of the batch and, in the
      middle of an operation, the floating ones; no timer is in two of these places. */
  ghost predicate Partitioned(heap: Heap, timers: seq<Entry>, pending: set<Address>, batch: seq<Entry>,
                              floating: set<Address>)
  {
    && Ascending(batch)
    && (forall a :: a in heap ==> a < UINTPTR_MAX)
    && (forall a :: a in heap ==>
          a in pending || a in floating || EntryOf(heap, a) in timers || EntryOf(heap, a) in batch)
    && (forall e :: e in batch ==> e.timer in heap && e == EntryOf(heap, e.timer) && e !in timers)
    && (forall e :: e in batch ==> e.timer !in pending && e.timer !in floating)
    && (forall a :: a in pending ==> a in heap && EntryOf(heap, a) !in timers && a !in floating)
    && (forall a :: a in floating ==> a in heap && EntryOf(heap, a) !in timers)
  }

  ghost predicate Live(heap: Heap, q: int) {
    exists a :: a in heap && heap[a].sequence == q
  }

  /** Sequence numbers identify timers: every created timer is either live or freed exactly once. */
  ghost predicate Ledger(heap: Heap, created: set<int>, freed: seq<int>, nextSequence: int) {
    && (forall a :: a in heap ==> heap[a].sequence in created)
    && (forall a, b :: a in heap && b in heap && heap[a].sequence == heap[b].sequence ==> a == b)
    && (forall q :: q in created ==> q < nextSequence && (Live(heap, q) || q in freed))
    && (forall q :: q in freed ==> q in created && !Live(heap, q))
    && (forall i, j :: 0 <= i < j < |freed| ==> freed[i] != freed[j])
  }

  ghost predicate Core(s: State, batch: seq<Entry>, floating: set<Address>) {
    && SetsAgree(s.heap, s.timers, s.active)
    && Partitioned(s.heap, s.timers, s.pending, batch, floating)
    && Ledger(s.heap, s.created, s.freed, s.nextSequence)
  }

  function Max(x: int, y: int): int {
    if x < y then y else x
  }

  /** The timerfd is readable, or will be by the earliest expiration or by the floor after arming. */
  predicate Covered(s: State) {
    s.timers != [] ==>
      s.fd.Fired? || (s.fd.Armed? && s.clock < s.fd.at <= Max(s.timers[0].when, s.fd.since + FLOOR))
  }

  predicate FdConsistent(s: State) {
    s.clock > 0 && (s.fd.Armed? ==> s.fd.since <= s.clock < s.fd.at)
  }

  ghost predicate InPhase(s: State) {
    match s.phase
    case Idle => !s.calling && Covered(s)
    case Calling(expired, now, next) =>
      && s.calling && next <= |expired| && 0 < now <= s.clock
      && (forall e :: e in expired ==> e.when <= now)
      && (s.timers != [] && s.timers[0].when <= now ==> Covered(s))
  }

  function BatchOf(s: State): seq<Entry> {
    if s.phase.Calling? then s.phase.expired else []
  }

  ghost predicate Inv(s: State) {
    Core(s, BatchOf(s), {}) && FdConsistent(s) && InPhase(s)
  }

  // ---------------------------------------------------------------- building blocks

  lemma InsertAgrees(heap: Heap, timers: seq<Entry>, active: set<TimerId>, a: Address)
    requires SetsAgree(heap, timers, active) && a in heap && EntryOf(heap, a) !in timers
    ensures IdOf(heap, a) !in active
    ensures SetsAgree(heap, InsertEntry(timers, EntryOf(heap, a)), active + {IdOf(heap, a)})
  {
    InsertEntryCorrect(timers, EntryOf(heap, a));
  }

  lemma InsertKeeps(s: State, batch: seq<Entry>, a: Address)
    requires Core(s, batch, {a})
    ensures Insert(s, a).Ok?
    ensures var (s', earliest) := Insert(s, a).value;
            && Core(s', batch, {})
            && earliest == (s.timers == [] || s.heap[a].expiration < s.timers[0].when)
            && s' == s.(timers := InsertEntry(s.timers, EntryOf(s.heap, a)), active := s.active + {IdOf(s.heap, a)})
  {
    InsertAgrees(s.heap, s.timers, s.active, a);
    InsertEntryCorrect(s.timers, EntryOf(s.heap, a));
  }

  lemma DeleteLedger(heap: Heap, created: set<int>, freed: seq<int>, nextSequence: int, a: Address)
    requires Ledger(heap, created, freed, nextSequence) && a in heap
    ensures Ledger(heap - {a}, created, freed + [heap[a].sequence], nextSequence)
  {
    var heap', freed' := heap - {a}, freed + [heap[a].sequence];
    assert Live(heap, heap[a].sequence);
    forall q | q in created
      ensures Live(heap', q) || q in freed'
    {
      if Live(heap, q) {
        var b :| b in heap && heap[b].sequence == q;
        assert b != a ==> b in heap' && heap'[b].sequence == q;
      }
    }
    forall q | q in freed'
      ensures q in created && !Live(heap', q)
    {
      assert Live(heap', q) ==> Live(heap, q);
    }
  }

  /** Allocating, restarting or freeing a timer that is in neither set leaves the sets in agreement. */
  lemma ElsewhereAgrees(heap: Heap, heap': Heap, timers: seq<Entry>, active: set<TimerId>, a: Address)
    requires SetsAgree(heap, timers, active)
    requires a in heap ==> EntryOf(heap, a) !in timers
    requires forall b :: b != a ==> (b in heap <==> b in heap')
    requires forall b :: b != a && b in heap ==> heap[b] == heap'[b]
    ensures SetsAgree(heap', timers, active)
    ensures a in heap' ==> EntryOf(heap', a) !in timers && IdOf(heap', a) !in active
  {
    forall e | e in timers
      ensures e.timer != a
    {
      assert e == EntryOf(heap, e.timer);
    }
    forall id | id in active
      ensures id.timer != a
    {
      assert EntryOf(heap, id.timer) in timers;
    }
  }

  lemma DeletePartitions(heap: Heap, timers: seq<Entry>, pending: set<Address>, batch: seq<Entry>, a: Address)
    requires Partitioned(heap, timers, pending, batch, {a})
    ensures Partitioned(heap - {a}, timers, pending, batch, {})
  {
  }

  lemma DeleteKeeps(s: State, batch: seq<Entry>, a: Address)
    requires Core(s, batch, {a})
    ensures Delete(s, a).Ok? && Core(Delete(s, a).value, batch, {})
  {
    DeleteLedger(s.heap, s.created, s.freed, s.nextSequence, a);
    ElsewhereAgrees(s.heap, s.heap - {a}, s.timers, s.active, a);
    DeletePartitions(s.heap, s.timers, s.pending, batch, a);
  }

  lemma EraseAgrees(heap: Heap, timers: seq<Entry>, active: set<TimerId>, a: Address)
    requires SetsAgree(heap, timers, active) && a in heap && EntryOf(heap, a) in timers
    ensures SetsAgree(heap, EraseEntry(timers, EntryOf(heap, a)), active - {IdOf(heap, a)})
  {
    EraseEntryCorrect(timers, EntryOf(heap, a));
  }

  lemma ErasePartitions(heap: Heap, timers: seq<Entry>, pending: set<Address>, batch: seq<Entry>, a: Address)
    requires Ascending(timers)
    requires Partitioned(heap, timers, pending, batch, {}) && a in heap && EntryOf(heap, a) in timers
    ensures Partitioned(heap, EraseEntry(timers, EntryOf(heap, a)), pending, batch, {a})
  {
    EraseEntryCorrect(timers, EntryOf(heap, a));
  }

  lemma EraseFloats(s: State, batch: seq<Entry>, a: Address)
    requires Core(s, batch, {}) && a in s.heap && EntryOf(s.heap, a) in s.timers
    ensures Core(s.(timers := EraseEntry(s.timers, EntryOf(s.heap, a)), active := s.active - {IdOf(s.heap, a)}),
                 batch, {a})
  {
    EraseAgrees(s.heap, s.timers, s.active, a);
    ErasePartitions(s.heap, s.timers, s.pending, batch, a);
  }

  lemma CancelKeepsCore(s: State, batch: seq<Entry>, id: TimerId)
    requires Core(s, batch, {})
    ensures CancelInLoop(s, id).Ok? && Core(CancelInLoop(s, id).value, batch, {})
    ensures id in s.active ==>
              && id.timer in s.heap && id == IdOf(s.heap, id.timer)
              && var e := EntryOf(s.heap, id.timer);
                 e in s.timers &&
                 CancelInLoop(s, id).value == s.(timers := EraseEntry(s.timers, e), active := s.active - {id},
                                                 heap := s.heap - {id.timer}, freed := s.freed + [id.sequence])
  {
    if id in s.active {
      var a := id.timer;
      var e := EntryOf(s.heap, a);
      EraseFloats(s, batch, a);
      var middle := s.(timers := EraseEntry(s.timers, e), active := s.active - {id});
      DeleteKeeps(middle, batch, a);
      assert CancelInLoop(s, id) == Delete(middle, a);
    }
  }

  lemma CreateLedger(heap: Heap, created: set<int>, freed: seq<int>, nextSequence: int, a: Address, t: Timer)
    requires Ledger(heap, created, freed, nextSequence) && a !in heap && nextSequence <= t.sequence
    ensures Ledger(heap[a := t], created + {t.sequence}, freed, t.sequence + 1)
  {
    var heap' := heap[a := t];
    forall q | q in created + {t.sequence}
      ensures q < t.sequence + 1 && (Live(heap', q) || q in freed)
    {
      if q == t.sequence {
        assert heap'[a].sequence == q;
      } else if Live(heap, q) {
        var b :| b in heap && heap[b].sequence == q;
        assert heap'[b].sequence == q;
      }
    }
    forall q | q in freed
      ensures !Live(heap', q)
    {
      assert q in created;
      assert Live(heap', q) ==> Live(heap, q);
    }
  }

  lemma CreatePartitions(heap: Heap, timers: seq<Entry>, pending: set<Address>, batch: seq<Entry>, a: Address, t: Timer)
    requires Partitioned(heap, timers, pending, batch, {}) && a !in heap && a < UINTPTR_MAX
    requires Entry(t.expiration, a) !in timers
    ensures Partitioned(heap[a := t], timers, pending + {a}, batch, {})
  {
  }

  lemma CreateKeepsCore(s: State, batch: seq<Entry>, step: Step)
    requires Core(s, batch, {}) && step.Create? && Enabled(s, step)
    ensures Core(Do(s, step).value, batch, {})
  {
    var a, t := step.timer, Timer(step.when, step.interval, step.repeat, step.sequence);
    ElsewhereAgrees(s.heap, s.heap[a := t], s.timers, s.active, a);
    CreatePartitions(s.heap, s.timers, s.pending, batch, a, t);
    CreateLedger(s.heap, s.created, s.freed, s.nextSequence, a, t);
  }

  lemma AddKeepsCore(s: State, batch: seq<Entry>, a: Address)
    requires Core(s, batch, {}) && a in s.pending
    ensures AddTimerInLoop(s, a).Ok? && Core(AddTimerInLoop(s, a).value, batch, {})
    ensures var s' := AddTimerInLoop(s, a).value;
            var earliest := s.timers == [] || s.heap[a].expiration < s.timers[0].when;
            s' == s.(pending := s.pending - {a},
                     timers := InsertEntry(s.timers, EntryOf(s.heap, a)),
                     active := s.active + {IdOf(s.heap, a)},
                     fd := if earliest then ArmTimerfd(s.clock, s.heap[a].expiration) else s.fd)
  {
    var middle := s.(pending := s.pending - {a});
    assert Core(middle, batch, {a});
    InsertKeeps(middle, batch, a);
  }

  // ---------------------------------------------------------------- getExpired

  lemma SentryIndex(ts: seq<Entry>, now: int, i: nat)
    requires Ascending(ts) && i < |ts| && ts[i].timer < UINTPTR_MAX
    ensures i < LowerBound(ts, Entry(now, UINTPTR_MAX)) <==> ts[i].when <= now
  {
    var end := LowerBound(ts, Entry(now, UINTPTR_MAX));
    if end <= i {
      assert end == i || Less(ts[end], ts[i]);
      assert !Less(ts[end], Entry(now, UINTPTR_MAX));
    }
  }

  lemma SplitByTime(ts: seq<Entry>, now: int, end: nat)
    requires end <= |ts| && forall i :: 0 <= i < |ts| ==> (i < end <==> ts[i].when <= now)
    ensures forall e :: e in ts[..end] <==> e in ts && e.when <= now
    ensures forall e :: e in ts[end..] <==> e in ts && now < e.when
    ensures ts == ts[..end] + ts[end..]
  {
    SplitMembers(ts, end);
    forall e | e in ts[..end]
      ensures e.when <= now
    {
      var i :| 0 <= i < end && ts[i] == e;
    }
    forall e | e in ts[end..]
      ensures now < e.when
    {
      var i :| end <= i < |ts| && ts[i] == e;
    }
  }

  /** The prefix below the sentry is exactly the timers due by `now`. */
  lemma SentrySplits(ts: seq<Entry>, now: int)
    requires Ascending(ts) && forall e :: e in ts ==> e.timer < UINTPTR_MAX
    ensures var end := LowerBound(ts, Entry(now, UINTPTR_MAX));
            && (end < |ts| ==> now < ts[end].when)
            && (forall e :: e in ts[..end] <==> e in ts && e.when <= now)
            && (forall e :: e in ts[end..] <==> e in ts && now < e.when)
            && ts == ts[..end] + ts[end..]
  {
    var end := LowerBound(ts, Entry(now, UINTPTR_MAX));
    forall i | 0 <= i < |ts|
      ensures i < end <==> ts[i].when <= now
    {
      assert ts[i] in ts;
      SentryIndex(ts, now, i);
    }
    SplitByTime(ts, now, end);
  }

  ghost function Ids(heap: Heap, es: seq<Entry>): set<TimerId>
    requires forall e :: e in es ==> e.timer in heap
  {
    set e | e in es :: IdOf(heap, e.timer)
  }

  lemma IdsCons(heap: Heap, es: seq<Entry>)
    requires es != [] && forall e :: e in es ==> e.timer in heap
    ensures forall e :: e in es[1..] ==> e in es
    ensures Ids(heap, es) == {IdOf(heap, es[0].timer)} + Ids(heap, es[1..])
  {
    assert es == [es[0]] + es[1..];
  }

  lemma DistinctHead(heap: Heap, es: seq<Entry>)
    requires Ascending(es) && es != []
    requires forall e :: e in es ==> e.timer in heap && e == EntryOf(heap, e.timer)
    ensures forall x :: x in es[1..] ==> x in es && x.timer != es[0].timer
  {
    forall j | 0 < j < |es|
      ensures es[j].timer != es[0].timer
    {
      assert Less(es[0], es[j]);
      assert es[0] in es && es[j] in es;
    }
  }

  lemma {:induction false} DeactivateRemoves(heap: Heap, active: set<TimerId>, es: seq<Entry>)
    requires Ascending(es)
    requires forall e :: e in es ==> e.timer in heap && e == EntryOf(heap, e.timer) && IdOf(heap, e.timer) in active
    ensures Deactivate(heap, active, es) == Ok(active - Ids(heap, es))
    ensures |active - Ids(heap, es)| == |active| - |es|
  {
    if es == [] {
      assert active - Ids(heap, es) == active;
    } else {
      var id := IdOf(heap, es[0].timer);
      assert es[0] in es;
      DistinctHead(heap, es);
      DeactivateRemoves(heap, active - {id}, es[1..]);
      IdsCons(heap, es);
      assert (active - {id}) - Ids(heap, es[1..]) == active - Ids(heap, es);
    }
  }

  lemma ExpireAgrees(heap: Heap, timers: seq<Entry>, active: set<TimerId>, end: nat)
    requires SetsAgree(heap, timers, active) && end <= |timers|
    ensures forall e :: e in timers[..end] ==> e in timers && e.timer in heap
    ensures Deactivate(heap, active, timers[..end]) == Ok(active - Ids(heap, timers[..end]))
    ensures SetsAgree(heap, timers[end..], active - Ids(heap, timers[..end]))
  {
    var expired, rest := timers[..end], timers[end..];
    SplitMembers(timers, end);
    DeactivateRemoves(heap, active, expired);
    forall e | e in rest
      ensures IdOf(heap, e.timer) in active - Ids(heap, expired)
    {
      DisjointHalves(timers, end, e);
      assert e == EntryOf(heap, e.timer);
    }
    forall id | id in active - Ids(heap, expired)
      ensures EntryOf(heap, id.timer) in rest
    {
      assert EntryOf(heap, id.timer) in timers;
    }
  }

  lemma DisjointHalves(ts: seq<Entry>, k: nat, e: Entry)
    requires Ascending(ts) && k <= |ts| && e in ts[k..]
    ensures e !in ts[..k]
  {
  }

  lemma ExpirePartitions(heap: Heap, timers: seq<Entry>, pending: set<Address>, end: nat)
    requires Ascending(timers) && end <= |timers|
    requires forall e :: e in timers ==> e.timer in heap && e == EntryOf(heap, e.timer)
    requires Partitioned(heap, timers, pending, [], {})
    ensures Partitioned(heap, timers[end..], pending, timers[..end], {})
  {
    SplitMembers(timers, end);
    forall e | e in timers[..end]
      ensures e !in timers[end..]
    {
      if e in timers[end..] {
        DisjointHalves(timers, end, e);
      }
    }
  }

  ghost predicate ExpiresAt(s: State, now: int, s': State, expired: seq<Entry>) {
    && s' == s.(timers := s'.timers, active := s'.active)
    && s.timers == expired + s'.timers
    && (forall e :: e in expired <==> e in s.timers && e.when <= now)
    && (forall e :: e in s'.timers <==> e in s.timers && now < e.when)
  }

  lemma ExpireRuns(s: State, now: int, active': set<TimerId>)
    requires Ascending(s.timers) && |s.timers| == |s.active|
    requires forall e :: e in s.timers ==> e.timer < UINTPTR_MAX
    requires var end := LowerBound(s.timers, Entry(now, UINTPTR_MAX));
             Deactivate(s.heap, s.active, s.timers[..end]) == Ok(active') && |active'| == |s.timers[end..]|
    ensures var end := LowerBound(s.timers, Entry(now, UINTPTR_MAX));
            var s' := s.(timers := s.timers[end..], active := active');
            GetExpired(s, now) == Ok((s', s.timers[..end])) && ExpiresAt(s, now, s', s.timers[..end])
  {
    SentrySplits(s.timers, now);
  }

  /** getExpired takes out exactly the timers due by `now`, in ascending order, and keeps the rest. */
  lemma GetExpiredExact(s: State, now: int)
    requires Core(s, [], {})
    ensures GetExpired(s, now).Ok?
    ensures var (s', expired) := GetExpired(s, now).value;
            Core(s', expired, {}) && ExpiresAt(s, now, s', expired)
  {
    var end := LowerBound(s.timers, Entry(now, UINTPTR_MAX));
    ExpireAgrees(s.heap, s.timers, s.active, end);
    ExpirePartitions(s.heap, s.timers, s.pending, end);
    ExpireRuns(s, now, s.active - Ids(s.heap, s.timers[..end]));
  }

  // ---------------------------------------------------------------- reset

  ghost predicate Kept(s: State, a: Address)
    requires a in s.heap
  {
    s.heap[a].repeat && IdOf(s.heap, a) !in s.canceling
  }

  function Restarted(t: Timer, now: int): Timer {
    t.(expiration := now + t.interval)
  }

  /** What `reset` makes of one timer of the batch. */
  ghost predicate SettledOne(s: State, now: int, s': State, a: Address)
    requires a in s.heap
  {
    if Kept(s, a) then
      && a in s'.heap && s'.heap[a] == Restarted(s.heap[a], now)
      && EntryOf(s'.heap, a) in s'.timers && IdOf(s.heap, a) in s'.active
    else
      a !in s'.heap && s.heap[a].sequence in s'.freed
  }

  /** Every timer of the batch is settled, every other timer is as it was, and nothing else is added. */
  ghost predicate SettledAs(s: State, batch: seq<Entry>, now: int, s': State)
    requires forall e :: e in batch ==> e.timer in s.heap
  {
    && s' == s.(heap := s'.heap, timers := s'.timers, active := s'.active, freed := s'.freed)
    && (forall e :: e in batch ==> SettledOne(s, now, s', e.timer))
    && (forall a :: a in s.heap && EntryOf(s.heap, a) !in batch ==> a in s'.heap && s'.heap[a] == s.heap[a])
    && (forall a :: a in s'.heap ==> a in s.heap)
    && (forall x :: x in s.timers ==> x in s'.timers)
    && (forall x :: x in s'.timers && x !in s.timers ==>
          && x.timer in s.heap && EntryOf(s.heap, x.timer) in batch && Kept(s, x.timer)
          && x.when == now + s.heap[x.timer].interval)
    && s.freed <= s'.freed
  }

  lemma FloatHead(heap: Heap, timers: seq<Entry>, pending: set<Address>, batch: seq<Entry>)
    requires Partitioned(heap, timers, pending, batch, {}) && batch != []
    ensures Partitioned(heap, timers, pending, batch[1..], {batch[0].timer})
  {
    DistinctHead(heap, batch);
    assert batch == [batch[0]] + batch[1..];
  }

  lemma RestartPartitions(heap: Heap, timers: seq<Entry>, pending: set<Address>, batch: seq<Entry>,
                          a: Address, t: Timer)
    requires Partitioned(heap, timers, pending, batch, {a})
    requires Entry(t.expiration, a) !in timers
    ensures Partitioned(heap[a := t], timers, pending, batch, {a})
  {
  }

  lemma RestartLedger(heap: Heap, created: set<int>, freed: seq<int>, nextSequence: int, a: Address, t: Timer)
    requires Ledger(heap, created, freed, nextSequence) && a in heap && t.sequence == heap[a].sequence
    ensures Ledger(heap[a := t], created, freed, nextSequence)
  {
    var heap' := heap[a := t];
    forall q
      ensures Live(heap, q) <==> Live(heap', q)
    {
      if Live(heap, q) {
        var b :| b in heap && heap[b].sequence == q;
        assert heap'[b].sequence == q;
      }
      if Live(heap', q) {
        var b :| b in heap' && heap'[b].sequence == q;
        assert heap[b].sequence == q;
      }
    }
  }

  /** One turn of the loop in `reset`. */
  function SettleHead(s: State, a: Address, now: int): Outcome<State> {
    if a !in s.heap then Fault
    else if s.heap[a].repeat && TimerId(a, s.heap[a].sequence) !in s.canceling then
      var (s', _) :- Insert(s.(heap := s.heap[a := Restarted(s.heap[a], now)]), a);
      Ok(s')
    else
      Delete(s, a)
  }

  lemma RestartFloats(s: State, batch: seq<Entry>, t: Timer)
    requires Core(s, batch, {}) && batch != [] && batch[0].timer in s.heap
    requires t.sequence == s.heap[batch[0].timer].sequence
    ensures Entry(t.expiration, batch[0].timer) !in s.timers
    ensures Core(s.(heap := s.heap[batch[0].timer := t]), batch[1..], {batch[0].timer})
  {
    var a := batch[0].timer;
    FloatHead(s.heap, s.timers, s.pending, batch);
    ElsewhereAgrees(s.heap, s.heap[a := t], s.timers, s.active, a);
    RestartPartitions(s.heap, s.timers, s.pending, batch[1..], a, t);
    RestartLedger(s.heap, s.created, s.freed, s.nextSequence, a, t);
  }

  lemma RestartHeadKeeps(s: State, batch: seq<Entry>, now: int)
    requires Core(s, batch, {}) && batch != []
    requires batch[0].timer in s.heap && Kept(s, batch[0].timer)
    ensures SettleHead(s, batch[0].timer, now).Ok?
    ensures Core(SettleHead(s, batch[0].timer, now).value, batch[1..], {})
    ensures var a, t := batch[0].timer, Restarted(s.heap[batch[0].timer], now);
            && Entry(t.expiration, a) !in s.timers
            && SettleHead(s, a, now).value ==
                 s.(heap := s.heap[a := t], timers := InsertEntry(s.timers, Entry(t.expiration, a)),
                    active := s.active + {IdOf(s.heap, a)})
  {
    var a := batch[0].timer;
    var t := Restarted(s.heap[a], now);
    RestartFloats(s, batch, t);
    var floating := s.(heap := s.heap[a := t]);
    InsertKeeps(floating, batch[1..], a);
    assert SettleHead(s, a, now) == Ok(Insert(floating, a).value.0);
    assert IdOf(floating.heap, a) == IdOf(s.heap, a);
  }

  lemma DeleteHeadKeeps(s: State, batch: seq<Entry>, now: int)
    requires Core(s, batch, {}) && batch != []
    requires batch[0].timer in s.heap && !Kept(s, batch[0].timer)
    ensures SettleHead(s, batch[0].timer, now).Ok?
    ensures Core(SettleHead(s, batch[0].timer, now).value, batch[1..], {})
    ensures SettleHead(s, batch[0].timer, now) == Delete(s, batch[0].timer)
  {
    FloatHead(s.heap, s.timers, s.pending, batch);
    DeleteKeeps(s, batch[1..], batch[0].timer);
  }

  lemma SettleHeadSettles(s: State, e: Entry, now: int)
    requires Ascending(s.timers) && e.timer in s.heap && e == EntryOf(s.heap, e.timer)
    requires Entry(now + s.heap[e.timer].interval, e.timer) in s.timers ==> !Kept(s, e.timer)
    requires SettleHead(s, e.timer, now).Ok?
    ensures SettledAs(s, [e], now, SettleHead(s, e.timer, now).value)
  {
    var a := e.timer;
    if Kept(s, a) {
      InsertEntryCorrect(s.timers, Entry(now + s.heap[a].interval, a));
    }
  }

  lemma SettleHeadKeeps(s: State, batch: seq<Entry>, now: int)
    requires Core(s, batch, {}) && batch != []
    ensures SettleHead(s, batch[0].timer, now).Ok?
    ensures Core(SettleHead(s, batch[0].timer, now).value, batch[1..], {})
    ensures forall e :: e in batch ==> e.timer in s.heap
    ensures SettledAs(s, [batch[0]], now, SettleHead(s, batch[0].timer, now).value)
  {
    assert batch[0] in batch;
    if Kept(s, batch[0].timer) {
      RestartHeadKeeps(s, batch, now);
    } else {
      DeleteHeadKeeps(s, batch, now);
    }
    SettleHeadSettles(s, batch[0], now);
  }

  lemma SettleUnfolds(s: State, batch: seq<Entry>, now: int)
    requires batch != [] && SettleHead(s, batch[0].timer, now).Ok?
    ensures Settle(s, batch, now) == Settle(SettleHead(s, batch[0].timer, now).value, batch[1..], now)
  {
  }

  lemma SettleTurn(s: State, batch: seq<Entry>, now: int)
    requires batch != [] && Settle(s, batch, now).Ok?
    ensures SettleHead(s, batch[0].timer, now).Ok?
    ensures Settle(s, batch, now) == Settle(SettleHead(s, batch[0].timer, now).value, batch[1..], now)
  {
  }

  lemma SettledCompose(s: State, batch: seq<Entry>, now: int, s1: State, s': State)
    requires Ascending(batch) && batch != []
    requires forall e :: e in batch ==> e.timer in s.heap && e == EntryOf(s.heap, e.timer)
    requires forall e :: e in batch[1..] ==> e.timer in s1.heap && e == EntryOf(s1.heap, e.timer)
    requires SettledAs(s, [batch[0]], now, s1) && SettledAs(s1, batch[1..], now, s')
    requires batch[0].timer in s1.heap ==> EntryOf(s1.heap, batch[0].timer) !in batch[1..]
    requires forall id :: id in s1.active ==>
               id.timer in s1.heap && id == IdOf(s1.heap, id.timer) && EntryOf(s1.heap, id.timer) in s1.timers
    requires forall e :: e in s'.timers ==>
               e.timer in s'.heap && e == EntryOf(s'.heap, e.timer) && IdOf(s'.heap, e.timer) in s'.active
    ensures SettledAs(s, batch, now, s')
  {
    var a := batch[0].timer;
    DistinctHead(s.heap, batch);
    assert batch[0] in [batch[0]];
    assert forall x :: x in batch <==> x == batch[0] || x in batch[1..] by {
      assert batch == [batch[0]] + batch[1..];
    }
    assert SettledOne(s, now, s1, a);
    forall e | e in batch
      ensures SettledOne(s, now, s', e.timer)
    {
      if e == batch[0] {
        if Kept(s, a) {
          assert s'.heap[a] == s1.heap[a];
          assert EntryOf(s'.heap, a) in s'.timers;
        } else {
          assert a !in s1.heap;
        }
      } else {
        assert s1.heap[e.timer] == s.heap[e.timer];
        assert SettledOne(s1, now, s', e.timer);
      }
    }
  }

  lemma {:induction false} SettleExact(s: State, batch: seq<Entry>, now: int)
    requires Core(s, batch, {})
    ensures Settle(s, batch, now).Ok?
    ensures Core(Settle(s, batch, now).value, [], {})
    ensures forall e :: e in batch ==> e.timer in s.heap
    ensures SettledAs(s, batch, now, Settle(s, batch, now).value)
    decreases |batch|
  {
    if batch != [] {
      SettleHeadKeeps(s, batch, now);
      var s1 := SettleHead(s, batch[0].timer, now).value;
      SettleUnfolds(s, batch, now);
      SettleExact(s1, batch[1..], now);
      SettledCompose(s, batch, now, s1, Settle(s1, batch[1..], now).value);
    }
  }

  // ---------------------------------------------------------------- every step keeps the invariant

  lemma CreateKeeps(s: State, step: Step)
    requires Inv(s) && step.Create? && Enabled(s, step)
    ensures Inv(Do(s, step).value)
  {
    CreateKeepsCore(s, BatchOf(s), step);
  }

  /** The new earliest timer is armed for; any other insertion leaves the earliest as it was. */
  lemma InsertCovers(s: State, e: Entry, s': State)
    requires Ascending(s.timers) && e !in s.timers && FdConsistent(s)
    requires s'.timers == InsertEntry(s.timers, e) && s'.clock == s.clock
    requires s'.fd == if s.timers == [] || e.when < s.timers[0].when then ArmTimerfd(s.clock, e.when) else s.fd
    ensures FdConsistent(s') && (Covered(s) ==> Covered(s'))
    ensures s'.timers[0].when == e.when || (s.timers != [] && s'.timers[0].when == s.timers[0].when)
    ensures s.timers == [] || e.when < s.timers[0].when ==> Covered(s')
  {
    InsertEntryCorrect(s.timers, e);
  }

  lemma AddKeeps(s: State, a: Address)
    requires Inv(s) && a in s.pending
    ensures AddTimerInLoop(s, a).Ok? && Inv(AddTimerInLoop(s, a).value)
  {
    AddKeepsCore(s, BatchOf(s), a);
    InsertCovers(s, EntryOf(s.heap, a), AddTimerInLoop(s, a).value);
  }

  lemma EraseCovers(s: State, e: Entry, s': State)
    requires Ascending(s.timers) && e in s.timers
    requires s'.timers == EraseEntry(s.timers, e) && s'.clock == s.clock && s'.fd == s.fd
    ensures Covered(s) ==> Covered(s')
    ensures s'.timers != [] ==> s.timers[0].when <= s'.timers[0].when
  {
    EraseEntryCorrect(s.timers, e);
  }

  lemma CancelKeeps(s: State, id: TimerId)
    requires Inv(s)
    ensures CancelInLoop(s, id).Ok? && Inv(CancelInLoop(s, id).value)
  {
    CancelKeepsCore(s, BatchOf(s), id);
    if id in s.active {
      EraseCovers(s, EntryOf(s.heap, id.timer), CancelInLoop(s, id).value);
    }
  }

  function Drained(s: State): State {
    s.(fd := if s.fd.Fired? then Disarmed else s.fd)
  }

  function Begun(s: State, expired: seq<Entry>, now: int): State {
    s.(calling := true, canceling := {}, phase := Calling(expired, now, 0))
  }

  lemma StartUnfolds(s: State, r: Outcome<(State, seq<Entry>)>)
    requires r == GetExpired(Drained(s), s.clock)
    ensures StartRead(s) == if r.Ok? then Ok(Begun(r.value.0, r.value.1, s.clock)) else Fault
  {
  }

  lemma BegunKeeps(s: State, s': State, expired: seq<Entry>)
    requires FdConsistent(s) && Core(s', expired, {}) && ExpiresAt(Drained(s), s.clock, s', expired)
    ensures Inv(Begun(s', expired, s.clock))
  {
    assert s'.timers != [] ==> s'.timers[0] in s'.timers;
  }

  lemma StartKeeps(s: State)
    requires Inv(s) && s.phase.Idle?
    ensures StartRead(s).Ok? && Inv(StartRead(s).value)
  {
    GetExpiredExact(Drained(s), s.clock);
    StartUnfolds(s, GetExpired(Drained(s), s.clock));
    var (s', expired) := GetExpired(Drained(s), s.clock).value;
    BegunKeeps(s, s', expired);
  }

  lemma CallKeeps(s: State)
    requires Inv(s) && s.phase.Calling? && s.phase.next < |s.phase.expired|
    ensures CallNext(s).Ok? && Inv(CallNext(s).value)
  {
    assert s.phase.expired[s.phase.next] in s.phase.expired;
  }

  lemma RearmKeeps(s: State)
    requires Core(s, [], {}) && FdConsistent(s)
    requires s.timers != [] && s.timers[0].when <= 0 ==> Covered(s)
    ensures Rearm(s).Ok?
    ensures var s' := Rearm(s).value; s' == s.(fd := s'.fd) && FdConsistent(s') && Covered(s')
  {
    if s.timers != [] {
      assert s.timers[0] in s.timers;
    }
  }

  lemma OverdueStaysCovered(s: State, batch: seq<Entry>, now: int, s1: State)
    requires Ascending(s.timers) && now > 0
    requires s.timers != [] && s.timers[0].when <= now ==> Covered(s)
    requires forall e :: e in batch ==> e.timer in s.heap
    requires SettledAs(s, batch, now, s1)
    ensures s1.timers != [] && s1.timers[0].when <= 0 ==> Covered(s1)
  {
    if s1.timers != [] && s1.timers[0].when <= 0 {
      assert s1.timers[0] in s1.timers;
      var k :| 0 <= k < |s.timers| && s.timers[k] == s1.timers[0];
      assert k == 0 || Less(s.timers[0], s.timers[k]);
    }
  }

  /** The state `reset` leaves, apart from the timerfd and the phase. */
  function Settled(s: State): State
    requires s.phase.Calling? && FinishRead(s).Ok?
  {
    FinishRead(s).value.(calling := s.calling, phase := s.phase, fd := s.fd)
  }

  lemma SettleIgnoresPhase(s: State, batch: seq<Entry>, now: int)
    requires Core(s, batch, {}) && s.phase.Calling?
    ensures var s0 := s.(calling := false, phase := Idle);
            && Settle(s0, batch, now).Ok? && Core(Settle(s0, batch, now).value, [], {})
            && (forall e :: e in batch ==> e.timer in s.heap)
            && SettledAs(s0, batch, now, Settle(s0, batch, now).value)
            && SettledAs(s, batch, now, Settle(s0, batch, now).value.(calling := s.calling, phase := s.phase))
  {
    var s0 := s.(calling := false, phase := Idle);
    SettleExact(s0, batch, now);
    var s1 := Settle(s0, batch, now).value;
    SettledFrame(s0, batch, now, s1, s, s1.(calling := s.calling, phase := s.phase));
  }

  lemma SettledFrame(s: State, batch: seq<Entry>, now: int, s': State, t: State, t': State)
    requires forall e :: e in batch ==> e.timer in s.heap
    requires SettledAs(s, batch, now, s')
    requires t == s.(calling := t.calling, phase := t.phase)
    requires t' == s'.(calling := t.calling, phase := t.phase)
    ensures SettledAs(t, batch, now, t')
  {
    forall e | e in batch
      ensures SettledOne(t, now, t', e.timer)
    {
      assert SettledOne(s, now, s', e.timer);
      assert Kept(t, e.timer) == Kept(s, e.timer);
    }
    forall x | x in t'.timers && x !in t.timers
      ensures x.timer in t.heap && Kept(t, x.timer)
    {
      assert Kept(s, x.timer);
    }
  }

  lemma FinishKeeps(s: State)
    requires Inv(s) && s.phase.Calling?
    ensures FinishRead(s).Ok? && Inv(FinishRead(s).value) && FinishRead(s).value.phase.Idle?
    ensures forall e :: e in s.phase.expired ==> e.timer in s.heap
    ensures SettledAs(s, s.phase.expired, s.phase.now, Settled(s))
  {
    var s0 := s.(calling := false, phase := Idle);
    SettleIgnoresPhase(s, s.phase.expired, s.phase.now);
    var s1 := Settle(s0, s.phase.expired, s.phase.now).value;
    OverdueStaysCovered(s0, s.phase.expired, s.phase.now, s1);
    RearmKeeps(s1);
    assert FinishRead(s) == Rearm(s1);
  }

  lemma StepKeeps(s: State, step: Step)
    requires Inv(s) && Enabled(s, step)
    ensures Do(s, step).Ok? && Inv(Do(s, step).value)
  {
    match step
    case Create(_, _, _, _, _) => CreateKeeps(s, step);
    case Add(a) => AddKeeps(s, a);
    case Cancel(id) => CancelKeeps(s, id);
    case Start => StartKeeps(s);
    case Call => CallKeeps(s);
    case Finish => FinishKeeps(s);
    case Tick(t) =>
  }

  /** No schedule of additions, cancellations (of any id, stale or not), callbacks, allocations at
      reused addresses and clock ticks reaches a failed assertion, a second delete or a use of a
      deleted timer, and every state reached satisfies the invariant. */
  lemma {:induction false} EveryRunIsSafe(s: State, steps: seq<Step>)
    requires Inv(s)
    ensures Run(s, steps).Ok? && Inv(Run(s, steps).value)
    decreases |steps|
  {
    if steps != [] {
      if Enabled(s, steps[0]) {
        StepKeeps(s, steps[0]);
        EveryRunIsSafe(Do(s, steps[0]).value, steps[1..]);
      } else {
        EveryRunIsSafe(s, steps[1..]);
      }
    }
  }

  lemma InitialIsSafe(s: State, steps: seq<Step>)
    requires Initial(s)
    ensures Run(s, steps).Ok? && Inv(Run(s, steps).value)
  {
    EveryRunIsSafe(s, steps);
  }

  lemma RunOne(s: State, step: Step)
    ensures Run(s, [step]) == if Enabled(s, step) then Do(s, step) else Ok(s)
  {
    assert [step][1..] == [];
  }

  lemma {:induction false} RunAppend(s: State, first: seq<Step>, second: seq<Step>)
    requires Run(s, first).Ok?
    ensures Run(s, first + second) == Run(Run(s, first).value, second)
    decreases |first|
  {
    if first == [] {
      assert first + second == second;
    } else {
      assert (first + second)[0] == first[0] && (first + second)[1..] == first[1..] + second;
      RunAppend(if Enabled(s, first[0]) then Do(s, first[0]).value else s, first[1..], second);
    }
  }

  ghost predicate Reachable(s: State) {
    exists s0, steps :: Initial(s0) && Run(s0, steps) == Ok(s)
  }

  lemma ReachableIsSafe(s: State)
    requires Reachable(s)
    ensures Inv(s)
  {
    var s0, steps :| Initial(s0) && Run(s0, steps) == Ok(s);
    InitialIsSafe(s0, steps);
  }

  lemma ReachableRun(s: State, steps: seq<Step>)
    requires Reachable(s)
    ensures Run(s, steps).Ok? && Reachable(Run(s, steps).value)
  {
    var s0, first :| Initial(s0) && Run(s0, first) == Ok(s);
    ReachableIsSafe(s);
    EveryRunIsSafe(s, steps);
    RunAppend(s0, first, steps);
  }

  lemma ReachableStep(s: State, step: Step)
    requires Reachable(s) && Enabled(s, step)
    ensures Do(s, step).Ok? && Run(s, [step]) == Do(s, step) && Reachable(Do(s, step).value)
  {
    ReachableRun(s, [step]);
    RunOne(s, step);
  }

  /** Conservation over whole runs: a timer this queue created is either still allocated, in exactly
      one of the three places a live timer can be, or was freed exactly once. */
  lemma NoLeakNoDoubleFree(s: State, steps: seq<Step>, q: int)
    requires Initial(s) && Run(s, steps).Ok? && q in Run(s, steps).value.created
    ensures var s' := Run(s, steps).value;
            multiset(s'.freed)[q] == (if Live(s'.heap, q) then 0 else 1)
  {
    InitialIsSafe(s, steps);
    var s' := Run(s, steps).value;
    DistinctCount(s'.freed, q);
  }

  lemma {:induction false} DistinctCount(qs: seq<int>, q: int)
    requires forall i, j :: 0 <= i < j < |qs| ==> qs[i] != qs[j]
    ensures multiset(qs)[q] == if q in qs then 1 else 0
  {
    if qs != [] {
      assert qs == [qs[0]] + qs[1..];
      DistinctCount(qs[1..], q);
    }
  }

  /** Between loop steps a due timer is noticed: once the clock has reached both the earliest
      expiration and the floor after the last arming, the timerfd is readable. */
  lemma DueTimersAreNoticed(s: State, steps: seq<Step>)
    requires Initial(s) && Run(s, steps).Ok?
    ensures var s' := Run(s, steps).value;
            s'.phase.Idle? && s'.timers != [] ==>
              && Covered(s')
              && (s'.fd.Armed? && s'.clock >= s'.timers[0].when ==> s'.clock < s'.fd.since + 100)
  {
    InitialIsSafe(s, steps);
  }

  // ---------------------------------------------------------------- cancellation

  ghost predicate Dead(s: State, q: int) {
    q < s.nextSequence && !Live(s.heap, q)
  }

  function RunsOf(s: State, q: int): nat {
    multiset(s.ran)[q]
  }

  lemma CreateRevivesNothing(s: State, step: Step, q: int)
    requires Inv(s) && step.Create? && Enabled(s, step) && Dead(s, q)
    ensures Dead(Do(s, step).value, q) && RunsOf(Do(s, step).value, q) == RunsOf(s, q)
  {
    NoNewSequences(s.heap, Do(s, step).value.heap, q);
  }

  lemma CancelRevivesNothing(s: State, id: TimerId, q: int)
    requires Inv(s) && Dead(s, q)
    ensures CancelInLoop(s, id).Ok?
    ensures Dead(CancelInLoop(s, id).value, q) && RunsOf(CancelInLoop(s, id).value, q) == RunsOf(s, q)
  {
    CancelKeepsCore(s, BatchOf(s), id);
    NoNewSequences(s.heap, CancelInLoop(s, id).value.heap, q);
  }

  lemma FinishRevivesNothing(s: State, q: int)
    requires Inv(s) && s.phase.Calling? && Dead(s, q)
    ensures FinishRead(s).Ok? && Dead(FinishRead(s).value, q) && RunsOf(FinishRead(s).value, q) == RunsOf(s, q)
  {
    FinishKeeps(s);
    var s' := Settled(s);
    forall a | a in s'.heap
      ensures a in s.heap && s'.heap[a].sequence == s.heap[a].sequence
    {
      if EntryOf(s.heap, a) in s.phase.expired {
        assert SettledOne(s, s.phase.now, s', EntryOf(s.heap, a).timer);
      }
    }
    NoNewSequences(s.heap, s'.heap, q);
  }

  /** No step brings a sequence number back. */
  lemma StepRevivesNothing(s: State, step: Step, q: int)
    requires Inv(s) && Enabled(s, step) && Do(s, step).Ok? && Dead(s, q)
    ensures Dead(Do(s, step).value, q) && RunsOf(Do(s, step).value, q) == RunsOf(s, q)
  {
    match step
    case Create(_, _, _, _, _) => CreateRevivesNothing(s, step, q);
    case Add(a) => AddKeepsCore(s, BatchOf(s), a);
    case Cancel(id) => CancelRevivesNothing(s, id, q);
    case Start => StartFrame(s);
    case Call => CallRunsTheNext(s, q);
    case Finish => FinishRevivesNothing(s, q);
    case Tick(t) =>
  }

  lemma NoNewSequences(heap: Heap, heap': Heap, q: int)
    requires !Live(heap, q)
    requires forall a :: a in heap' && (a !in heap || heap[a].sequence != heap'[a].sequence) ==> heap'[a].sequence != q
    ensures !Live(heap', q)
  {
  }

  lemma StartFrame(s: State)
    requires Inv(s) && s.phase.Idle?
    ensures StartRead(s).Ok?
    ensures var s' := StartRead(s).value;
            s'.heap == s.heap && s'.ran == s.ran && s'.nextSequence == s.nextSequence
  {
    GetExpiredExact(Drained(s), s.clock);
    StartUnfolds(s, GetExpired(Drained(s), s.clock));
  }

  lemma CallRunsTheNext(s: State, q: int)
    requires Inv(s) && s.phase.Calling? && s.phase.next < |s.phase.expired|
    ensures CallNext(s).Ok?
    ensures var e := s.phase.expired[s.phase.next];
            && e.timer in s.heap
            && CallNext(s).value.heap == s.heap
            && RunsOf(CallNext(s).value, q) == RunsOf(s, q) + (if s.heap[e.timer].sequence == q then 1 else 0)
  {
    assert s.phase.expired[s.phase.next] in s.phase.expired;
  }

  lemma {:induction false} DeadStaysDead(s: State, steps: seq<Step>, q: int)
    requires Inv(s) && Dead(s, q)
    ensures Run(s, steps).Ok?
    ensures Dead(Run(s, steps).value, q) && RunsOf(Run(s, steps).value, q) == RunsOf(s, q)
    decreases |steps|
  {
    if steps != [] {
      if Enabled(s, steps[0]) {
        StepKeeps(s, steps[0]);
        StepRevivesNothing(s, steps[0], q);
        DeadStaysDead(Do(s, steps[0]).value, steps[1..], q);
      } else {
        DeadStaysDead(s, steps[1..], q);
      }
    }
  }

  /** A scheduled timer that is cancelled never runs again, whatever happens later, even when its
      address is handed out again. */
  lemma CancelledNeverRuns(s: State, id: TimerId, steps: seq<Step>)
    requires Inv(s) && id in s.active
    ensures CancelInLoop(s, id).Ok? && Run(CancelInLoop(s, id).value, steps).Ok?
    ensures var s' := Run(CancelInLoop(s, id).value, steps).value;
            Dead(s', id.sequence) && RunsOf(s', id.sequence) == RunsOf(s, id.sequence)
  {
    CancelKeeps(s, id);
    CancelKeepsCore(s, BatchOf(s), id);
    var s1 := CancelInLoop(s, id).value;
    assert id.sequence in s1.freed;
    DeadStaysDead(s1, steps, id.sequence);
  }

  /** Timer `id` is entry `k` of the batch being called. */
  ghost predicate BatchMember(s: State, id: TimerId, k: nat) {
    && s.phase.Calling? && k < |s.phase.expired| && s.phase.expired[k].timer == id.timer
    && id.timer in s.heap && id == IdOf(s.heap, id.timer)
  }

  /** How often a cancelled member of the batch may still run. */
  ghost function Budget(s: State, id: TimerId, k: nat): nat {
    if BatchMember(s, id, k) && s.phase.next <= k then 1 else 0
  }

  ghost predicate Doomed(s: State, id: TimerId, k: nat) {
    Dead(s, id.sequence) || (BatchMember(s, id, k) && id in s.canceling)
  }

  /** Within a batch its members stay put: only `Finish` settles them. */
  lemma BatchMemberStays(s: State, step: Step, id: TimerId, k: nat)
    requires Inv(s) && BatchMember(s, id, k) && Enabled(s, step) && !step.Finish?
    ensures Do(s, step).Ok?
    ensures var s' := Do(s, step).value;
            && BatchMember(s', id, k) && s'.heap[id.timer] == s.heap[id.timer]
            && s'.phase.expired == s.phase.expired && s'.phase.now == s.phase.now
            && s.canceling <= s'.canceling
            && (step != Cancel(id) && id !in s.canceling ==> id !in s'.canceling)
  {
    assert s.phase.expired[k] in s.phase.expired;
    StepKeeps(s, step);
    match step
    case Create(_, _, _, _, _) =>
    case Add(a) => AddKeepsCore(s, BatchOf(s), a);
    case Cancel(other) =>
      CancelKeepsCore(s, BatchOf(s), other);
    case Start =>
    case Call =>
    case Tick(t) =>
  }

  lemma BatchMemberInactive(s: State, id: TimerId, k: nat)
    requires Inv(s) && BatchMember(s, id, k)
    ensures id !in s.active
  {
    assert s.phase.expired[k] in s.phase.expired;
    assert s.phase.expired[k] == EntryOf(s.heap, id.timer);
  }

  lemma DeadIsInactive(s: State, id: TimerId)
    requires Inv(s) && Dead(s, id.sequence)
    ensures id !in s.active
  {
  }

  lemma CallSpendsBudget(s: State, id: TimerId, k: nat)
    requires Inv(s) && BatchMember(s, id, k) && Enabled(s, Call)
    ensures CallNext(s).Ok? && BatchMember(CallNext(s).value, id, k)
    ensures RunsOf(CallNext(s).value, id.sequence) + Budget(CallNext(s).value, id, k)
              == RunsOf(s, id.sequence) + Budget(s, id, k)
  {
    var next := s.phase.next;
    CallRunsTheNext(s, id.sequence);
    assert s.phase.expired[k] in s.phase.expired && s.phase.expired[next] in s.phase.expired;
    if next != k {
      assert s.phase.expired[next].timer != id.timer by {
        assert Less(s.phase.expired[if next < k then next else k], s.phase.expired[if next < k then k else next]);
      }
    }
  }

  lemma RunsOnlyGrowByCall(s: State, step: Step, q: int)
    requires Inv(s) && Enabled(s, step) && !step.Call?
    ensures Do(s, step).Ok? && RunsOf(Do(s, step).value, q) == RunsOf(s, q)
  {
    match step
    case Create(_, _, _, _, _) =>
    case Add(a) => AddKeepsCore(s, BatchOf(s), a);
    case Cancel(id) => CancelKeepsCore(s, BatchOf(s), id);
    case Start => StartFrame(s);
    case Finish => FinishKeeps(s);
    case Tick(t) =>
  }

  lemma FinishBuries(s: State, id: TimerId, k: nat)
    requires Inv(s) && BatchMember(s, id, k) && id in s.canceling && Enabled(s, Finish)
    ensures FinishRead(s).Ok? && Dead(FinishRead(s).value, id.sequence)
  {
    FinishKeeps(s);
    assert s.phase.expired[k] in s.phase.expired;
    assert SettledOne(s, s.phase.now, Settled(s), id.timer);
    assert id.sequence in FinishRead(s).value.freed;
  }

  lemma DoomedStep(s: State, step: Step, id: TimerId, k: nat)
    requires Inv(s) && Enabled(s, step) && Doomed(s, id, k) && !Dead(s, id.sequence)
    ensures Do(s, step).Ok? && Doomed(Do(s, step).value, id, k)
    ensures RunsOf(Do(s, step).value, id.sequence)
              + (if Dead(Do(s, step).value, id.sequence) then 0 else Budget(Do(s, step).value, id, k))
              <= RunsOf(s, id.sequence) + Budget(s, id, k)
  {
    if step.Finish? {
      FinishBuries(s, id, k);
      RunsOnlyGrowByCall(s, step, id.sequence);
    } else {
      BatchMemberStays(s, step, id, k);
      if step.Call? {
        CallSpendsBudget(s, id, k);
      } else {
        RunsOnlyGrowByCall(s, step, id.sequence);
        SameTurn(s, step);
      }
    }
  }

  lemma SameTurn(s: State, step: Step)
    requires Inv(s) && s.phase.Calling? && Enabled(s, step) && !step.Finish? && !step.Call?
    ensures Do(s, step).Ok? && Do(s, step).value.phase == s.phase
  {
    match step
    case Create(_, _, _, _, _) =>
    case Add(a) => AddKeepsCore(s, BatchOf(s), a);
    case Cancel(id) => CancelKeepsCore(s, BatchOf(s), id);
    case Start =>
    case Tick(t) =>
  }

  lemma {:induction false} DoomedRun(s: State, steps: seq<Step>, id: TimerId, k: nat)
    requires Inv(s) && Doomed(s, id, k)
    ensures Run(s, steps).Ok? && Doomed(Run(s, steps).value, id, k)
    ensures id !in Run(s, steps).value.active
    ensures RunsOf(Run(s, steps).value, id.sequence) <= RunsOf(s, id.sequence) + Budget(s, id, k)
    decreases |steps|
  {
    if Dead(s, id.sequence) {
      DeadStaysDead(s, steps, id.sequence);
      EveryRunIsSafe(s, steps);
      DeadIsInactive(Run(s, steps).value, id);
    } else if steps == [] {
      BatchMemberInactive(s, id, k);
    } else if Enabled(s, steps[0]) {
      StepKeeps(s, steps[0]);
      DoomedStep(s, steps[0], id, k);
      var s1 := Do(s, steps[0]).value;
      DoomedRun(s1, steps[1..], id, k);
      if Dead(s1, id.sequence) {
        DeadStaysDead(s1, steps[1..], id.sequence);
      }
    } else {
      DoomedRun(s, steps[1..], id, k);
    }
  }

  /** A member of the batch that is cancelled during the batch runs at most once more, only if its
      turn had not come yet, is never scheduled again, and is dead once the batch is over. */
  lemma CancelledInBatchRunsAtMostOnceMore(s: State, id: TimerId, k: nat, steps: seq<Step>)
    requires Inv(s) && BatchMember(s, id, k)
    ensures CancelInLoop(s, id).Ok? && Run(CancelInLoop(s, id).value, steps).Ok?
    ensures var s' := Run(CancelInLoop(s, id).value, steps).value;
            && RunsOf(s', id.sequence) <= RunsOf(s, id.sequence) + (if s.phase.next <= k then 1 else 0)
            && id !in s'.active
            && (s'.phase.Idle? ==> Dead(s', id.sequence))
  {
    CancelKeeps(s, id);
    BatchMemberInactive(s, id, k);
    BatchMemberStays(s, Cancel(id), id, k);
    var s1 := CancelInLoop(s, id).value;
    assert s1 == s.(canceling := s.canceling + {id});
    DoomedRun(s1, steps, id, k);
  }

  lemma {:induction false} BatchMemberRun(s: State, steps: seq<Step>, id: TimerId, k: nat)
    requires Inv(s) && BatchMember(s, id, k) && id !in s.canceling
    requires Cancel(id) !in steps && Finish !in steps
    ensures Run(s, steps).Ok?
    ensures var s' := Run(s, steps).value;
            && Inv(s') && BatchMember(s', id, k) && id !in s'.canceling
            && s'.heap[id.timer] == s.heap[id.timer]
            && s'.phase.expired == s.phase.expired && s'.phase.now == s.phase.now
    decreases |steps|
  {
    if steps != [] {
      assert steps[0] in steps && forall x :: x in steps[1..] ==> x in steps;
      if Enabled(s, steps[0]) {
        StepKeeps(s, steps[0]);
        BatchMemberStays(s, steps[0], id, k);
        BatchMemberRun(Do(s, steps[0]).value, steps[1..], id, k);
      } else {
        BatchMemberRun(s, steps[1..], id, k);
      }
    }
  }

  ghost predicate SettledMember(t: Timer, now: int, s': State, id: TimerId) {
    if t.repeat then
      && id in s'.active
      && id.timer in s'.heap && s'.heap[id.timer] == Restarted(t, now)
      && Entry(now + t.interval, id.timer) in s'.timers
    else
      Dead(s', id.sequence) && id.sequence in s'.freed
  }

  lemma SettledOneIsSettledMember(s: State, now: int, s1: State, s': State, id: TimerId)
    requires id.timer in s.heap && id == IdOf(s.heap, id.timer) && id !in s.canceling
    requires SettledOne(s, now, s1, id.timer)
    requires s'.heap == s1.heap && s'.timers == s1.timers && s'.active == s1.active && s'.freed == s1.freed
    requires Ledger(s'.heap, s'.created, s'.freed, s'.nextSequence)
    ensures SettledMember(s.heap[id.timer], now, s', id)
  {
  }

  lemma FinishSettlesMember(s: State, id: TimerId, k: nat)
    requires Inv(s) && BatchMember(s, id, k) && id !in s.canceling && Enabled(s, Finish)
    ensures FinishRead(s).Ok? && SettledMember(s.heap[id.timer], s.phase.now, FinishRead(s).value, id)
  {
    FinishKeeps(s);
    assert s.phase.expired[k] in s.phase.expired;
    SettledOneIsSettledMember(s, s.phase.now, Settled(s), FinishRead(s).value, id);
  }

  /** A member of the batch that is not cancelled during the batch is back in both sets afterwards,
      due one interval after the batch's time stamp, if it repeats; if it does not, it is freed. */
  lemma UncancelledIsRescheduled(s: State, steps: seq<Step>, id: TimerId, k: nat)
    requires Inv(s) && s.phase.Idle? && StartRead(s).Ok? && BatchMember(StartRead(s).value, id, k)
    requires Cancel(id) !in steps && Finish !in steps
    requires Run(StartRead(s).value, steps).Ok? && Enabled(Run(StartRead(s).value, steps).value, Finish)
    ensures id.timer in s.heap && FinishRead(Run(StartRead(s).value, steps).value).Ok?
    ensures SettledMember(s.heap[id.timer], s.clock, FinishRead(Run(StartRead(s).value, steps).value).value, id)
  {
    StartKeeps(s);
    StartFrame(s);
    BatchMemberRun(StartRead(s).value, steps, id, k);
    FinishSettlesMember(Run(StartRead(s).value, steps).value, id, k);
  }
}
