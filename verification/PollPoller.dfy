/** The poll(2) back end of src/net/src/PollPoller.cc: a dense array of slots with swap-with-last
    removal, back-indices kept in the channels, and disabled slots encoded as -fd-1. */
module PollPollers {
  import opened Outcomes

  const FILLERS: nat := 16  // slots the constructor creates; no channel ever owns them

  datatype PollFd = PollFd(fd: int, events: int)

  /** A channel object; `index` is -1 until it is first registered. */
  datatype Chan = Chan(fd: nat, events: nat, index: int)

  /** `K` identifies channel objects. `objects` holds every channel there is, registered or not. */
  datatype State<K(==)> = State(pollfds: seq<PollFd>, channels: map<int, K>, objects: map<K, Chan>)

  function Initial<K(==)>(): State<K> {
    State(seq(FILLERS, _ => PollFd(0, 0)), map[], map[])
  }

  /** How a slot hides its descriptor from poll(2). */
  function Hidden(fd: int): int {
    -fd - 1
  }

  function SetObject<K(==)>(s: State<K>, c: K, o: Chan): State<K> {
    s.(objects := s.objects[c := o])
  }

  function UpdateChannel<K(==)>(s: State<K>, c: K): Outcome<State<K>>
    requires c in s.objects
  {
    var o := s.objects[c];
    if o.index < 0 then
      if o.fd in s.channels then Fault else
      Ok(State(s.pollfds + [PollFd(o.fd, o.events)],
               s.channels[o.fd as int := c],
               s.objects[c := o.(index := |s.pollfds|)]))
    else if o.fd !in s.channels || s.channels[o.fd] != c || o.index >= |s.pollfds| then Fault
    else if s.pollfds[o.index].fd != o.fd && s.pollfds[o.index].fd != Hidden(o.fd) then Fault
    else Ok(s.(pollfds := s.pollfds[o.index := PollFd(if o.events == 0 then Hidden(o.fd) else o.fd, o.events)]))
  }

  function Decode(fd: int): nat {
    if fd < 0 then Hidden(fd) else fd
  }

  function RemoveChannel<K(==)>(s: State<K>, c: K): Outcome<State<K>>
    requires c in s.objects
  {
    var o := s.objects[c];
    if o.fd !in s.channels || s.channels[o.fd] != c || o.events != 0 then Fault
    else if o.index < 0 || o.index >= |s.pollfds| || s.pollfds[o.index] != PollFd(Hidden(o.fd), o.events) then Fault
    else
      var channels := s.channels - {o.fd};
      var n := |s.pollfds| - 1;
      if o.index == n then
        Ok(s.(pollfds := s.pollfds[..n], channels := channels))
      else
        var channelAtEnd := Decode(s.pollfds[n].fd);
        if channelAtEnd !in channels || channels[channelAtEnd] !in s.objects then Fault
        else
          var last := channels[channelAtEnd];
          Ok(State(s.pollfds[o.index := s.pollfds[n]][..n], channels,
                   s.objects[last := s.objects[last].(index := o.index)]))
  }

  // ---------------------------------------------------------------- runs

  datatype Step<K> = New(c: K, fd: nat) | Update(c: K, events: nat) | Remove(c: K)

  predicate Registered<K(==)>(s: State<K>, c: K) {
    c in s.objects && s.objects[c].fd in s.channels && s.channels[s.objects[c].fd] == c
  }

  /** A channel comes into being once; calls are made on channels that exist. */
  predicate Possible<K(==)>(s: State<K>, step: Step<K>) {
    if step.New? then step.c !in s.objects else step.c in s.objects
  }

  /** The discipline of the callers: a fresh channel is first registered with some event and while no
      other channel owns its descriptor; only registered channels are updated; a channel is removed
      when it is registered and wants no event. */
  predicate Obeyed<K(==)>(s: State<K>, step: Step<K>)
    requires Possible(s, step)
  {
    match step
    case New(_, _) => true
    case Update(c, events) =>
      if s.objects[c].index < 0 then s.objects[c].fd !in s.channels && events != 0 else Registered(s, c)
    case Remove(c) => Registered(s, c) && s.objects[c].events == 0
  }

  function Do<K(==)>(s: State<K>, step: Step<K>): Outcome<State<K>>
    requires Possible(s, step)
  {
    match step
    case New(c, fd) => Ok(SetObject(s, c, Chan(fd, 0, -1)))
    case Update(c, events) => UpdateChannel(SetObject(s, c, s.objects[c].(events := events)), c)
    case Remove(c) => RemoveChannel(s, c)
  }

  /** Any list of calls. */
  function Run<K(==)>(s: State<K>, steps: seq<Step<K>>): Outcome<State<K>>
    decreases |steps|
  {
    if steps == [] then Ok(s)
    else if !Possible(s, steps[0]) then Run(s, steps[1..])
    else
      var s' :- Do(s, steps[0]);
      Run(s', steps[1..])
  }

  /** Every call of the list keeps the discipline. */
  predicate Disciplined<K(==)>(s: State<K>, steps: seq<Step<K>>)
    decreases |steps|
  {
    if steps == [] then true
    else if !Possible(s, steps[0]) then Disciplined(s, steps[1..])
    else
      && Obeyed(s, steps[0])
      && (Do(s, steps[0]).Ok? ==> Disciplined(Do(s, steps[0]).value, steps[1..]))
  }

  // ---------------------------------------------------------------- the invariant

  /** The slot asks for the channel's events; only a slot that asks for none may be hidden. */
  predicate Matches(o: Chan, slot: PollFd) {
    slot.events == o.events && (slot.fd == o.fd || (o.events == 0 && slot.fd == Hidden(o.fd)))
  }

  /** Every registered channel owns the slot its index names. */
  ghost predicate OwnsSlot<K>(s: State<K>, fd: int)
    requires fd in s.channels
  {
    && s.channels[fd] in s.objects
    && var o := s.objects[s.channels[fd]];
       o.fd == fd && FILLERS <= o.index < |s.pollfds| && Matches(o, s.pollfds[o.index])
  }

  /** Every slot after the fillers is owned by the channel that the map gives for its descriptor. */
  ghost predicate Owned<K>(s: State<K>, i: int)
    requires FILLERS <= i < |s.pollfds|
  {
    var fd := Decode(s.pollfds[i].fd);
    fd in s.channels && s.channels[fd] in s.objects && s.objects[s.channels[fd]].index == i
  }

  /** Channels and slots are in bijection. */
  ghost predicate Linked<K>(s: State<K>) {
    && |s.pollfds| >= FILLERS
    && (forall fd :: fd in s.channels ==> OwnsSlot(s, fd))
    && (forall i :: FILLERS <= i < |s.pollfds| ==> Owned(s, i))
  }

  /** A registered channel that wants nothing but whose slot is not hidden. */
  predicate Bare<K(==)>(s: State<K>, c: K) {
    && Registered(s, c) && s.objects[c].events == 0
    && 0 <= s.objects[c].index < |s.pollfds| && s.pollfds[s.objects[c].index].fd == s.objects[c].fd
  }

  /** Moreover exactly the channels that want some event are visible. */
  ghost predicate Inv<K>(s: State<K>) {
    Linked(s) && forall c :: c in s.objects ==> !Bare(s, c)
  }

  /** A slot poll(2) looks at. */
  predicate Enabled<K(==)>(s: State<K>, i: int) {
    FILLERS <= i < |s.pollfds| && s.pollfds[i].fd >= 0
  }

  /** What a plain map from descriptor to channel and events would hold. */
  function Interests<K(==)>(s: State<K>): map<int, (K, nat)>
    requires forall fd :: fd in s.channels ==> s.channels[fd] in s.objects
  {
    map fd | fd in s.channels :: (s.channels[fd], s.objects[s.channels[fd]].events)
  }

  // ---------------------------------------------------------------- proofs

  lemma InitialInv<K>()
    ensures Inv(Initial<K>())
  {
  }

  lemma InterestsAre<K>(s: State<K>, m: map<int, (K, nat)>)
    requires forall fd :: fd in s.channels ==> s.channels[fd] in s.objects
    requires m.Keys == s.channels.Keys
    requires forall fd :: fd in s.channels ==> m[fd] == (s.channels[fd], s.objects[s.channels[fd]].events)
    ensures Interests(s) == m
  {
    var r := Interests(s);
    assert forall fd :: fd in r <==> fd in s.channels;
    assert r.Keys == m.Keys;
    assert forall fd :: fd in r ==> r[fd] == m[fd];
  }

  /** The same channels are registered without being hidden, apart from `c`. */
  ghost predicate SameBareBut<K>(s: State<K>, s': State<K>, c: K) {
    forall d :: d in s'.objects && d != c ==> (Bare(s', d) <==> Bare(s, d))
  }

  lemma NewKeeps<K>(s: State<K>, c: K, fd: nat)
    requires Linked(s) && c !in s.objects
    ensures var s' := SetObject(s, c, Chan(fd, 0, -1));
            Linked(s') && !Bare(s', c) && SameBareBut(s, s', c) && Interests(s') == Interests(s)
  {
    var s' := SetObject(s, c, Chan(fd, 0, -1));
    forall f | f in s'.channels
      ensures OwnsSlot(s', f) && s.objects[s.channels[f]] == s'.objects[s.channels[f]]
    {
      assert OwnsSlot(s, f);
    }
    forall i | FILLERS <= i < |s'.pollfds|
      ensures Owned(s', i)
    {
      assert Owned(s, i);
    }
    InterestsAre(s', Interests(s));
  }

  /** An update succeeds exactly when the channel is fresh and its descriptor free, or registered. It
      keeps the bijection and leaves `c` unhidden without events exactly when `c` was fresh and asks
      for none; the plain map changes at its descriptor only. */
  lemma UpdateLinks<K>(s: State<K>, c: K, events: nat)
    requires Linked(s) && c in s.objects
    ensures Do(s, Update(c, events)).Ok? <==>
              if s.objects[c].index < 0 then s.objects[c].fd !in s.channels else Registered(s, c)
    ensures Do(s, Update(c, events)).Ok? ==>
              var s' := Do(s, Update(c, events)).value;
              && Linked(s') && SameBareBut(s, s', c)
              && (Bare(s', c) <==> s.objects[c].index < 0 && events == 0)
              && Interests(s') == Interests(s)[s.objects[c].fd as int := (c, events)]
  {
    var o := s.objects[c];
    if o.fd in s.channels { assert OwnsSlot(s, o.fd); }
    if Do(s, Update(c, events)).Ok? {
      var s' := Do(s, Update(c, events)).value;
      assert OwnsSlot(s', o.fd);
      forall f | f in s'.channels && f != o.fd
        ensures OwnsSlot(s', f) && s.objects[s.channels[f]] == s'.objects[s.channels[f]]
        ensures s'.pollfds[s'.objects[s'.channels[f]].index] == s.pollfds[s.objects[s.channels[f]].index]
      {
        assert OwnsSlot(s, f);
        if o.index >= 0 { assert OwnsSlot(s, o.fd); }
      }
      forall i | FILLERS <= i < |s'.pollfds|
        ensures Owned(s', i)
      {
        if i < |s.pollfds| { assert Owned(s, i); }
      }
      InterestsAre(s', Interests(s)[o.fd as int := (c, events)]);
    }
  }

  /** From an orderly state an update leads to an orderly state exactly when the channel was
      registered before or asks for some event. */
  lemma UpdateExactly<K>(s: State<K>, c: K, events: nat)
    requires Inv(s) && c in s.objects
    ensures Do(s, Update(c, events)).Ok? <==>
              if s.objects[c].index < 0 then s.objects[c].fd !in s.channels else Registered(s, c)
    ensures Do(s, Update(c, events)).Ok? ==>
              var s' := Do(s, Update(c, events)).value;
              && Linked(s') && (Inv(s') <==> s.objects[c].index >= 0 || events != 0)
              && Interests(s') == Interests(s)[s.objects[c].fd as int := (c, events)]
  {
    UpdateLinks(s, c, events);
  }

  lemma RemoveKeepsLinks<K>(s: State<K>, c: K)
    requires Linked(s) && c in s.objects && Obeyed(s, Remove(c)) && !Bare(s, c)
    ensures Do(s, Remove(c)).Ok?
    ensures var s' := Do(s, Remove(c)).value;
            Linked(s') && !Registered(s', c) && Interests(s') == Interests(s) - {s.objects[c].fd as int}
  {
    var o := s.objects[c];
    var n := |s.pollfds| - 1;
    assert OwnsSlot(s, o.fd);
    assert Owned(s, n);
    if o.index != n {
      var atEnd := Decode(s.pollfds[n].fd);
      assert OwnsSlot(s, atEnd);
      assert atEnd != o.fd;
    }
    var s' := Do(s, Remove(c)).value;
    forall f | f in s'.channels
      ensures OwnsSlot(s', f)
    {
      assert OwnsSlot(s, f);
    }
    forall i | FILLERS <= i < |s'.pollfds|
      ensures Owned(s', i)
    {
      assert Owned(s, i);
    }
  }

  lemma RemoveKeepsOthers<K>(s: State<K>, c: K, d: K)
    requires Linked(s) && c in s.objects && d in s.objects && d != c && Do(s, Remove(c)).Ok?
    ensures var s' := Do(s, Remove(c)).value;
            && d in s'.objects && s'.objects[d] == s.objects[d].(index := s'.objects[d].index)
            && (Registered(s', d) <==> Registered(s, d)) && (Bare(s', d) <==> Bare(s, d))
  {
    var o, n := s.objects[c], |s.pollfds| - 1;
    assert OwnsSlot(s, o.fd) && Owned(s, n);
    if Registered(s, d) {
      assert OwnsSlot(s, s.objects[d].fd);
    }
  }

  /** A removal succeeds exactly when the channel is registered, wants no event and is hidden. */
  lemma RemoveLinks<K>(s: State<K>, c: K)
    requires Linked(s) && c in s.objects
    ensures Do(s, Remove(c)).Ok? <==> Obeyed(s, Remove(c)) && !Bare(s, c)
    ensures Do(s, Remove(c)).Ok? ==>
              var s' := Do(s, Remove(c)).value;
              && Linked(s') && SameBareBut(s, s', c) && !Registered(s', c)
              && Interests(s') == Interests(s) - {s.objects[c].fd as int}
  {
    if Obeyed(s, Remove(c)) && !Bare(s, c) {
      RemoveKeepsLinks(s, c);
      var s' := Do(s, Remove(c)).value;
      forall d | d in s.objects && d != c
        ensures Bare(s', d) <==> Bare(s, d)
      {
        RemoveKeepsOthers(s, c, d);
      }
    } else if Registered(s, c) {
      assert OwnsSlot(s, s.objects[c].fd);
    }
  }

  /** In an orderly state, exactly when the channel is registered and wants no event. */
  lemma RemoveExactly<K>(s: State<K>, c: K)
    requires Inv(s) && c in s.objects
    ensures Do(s, Remove(c)).Ok? <==> Obeyed(s, Remove(c))
    ensures Obeyed(s, Remove(c)) ==>
              var s' := Do(s, Remove(c)).value;
              Inv(s') && !Registered(s', c) && Interests(s') == Interests(s) - {s.objects[c].fd as int}
  {
    RemoveLinks(s, c);
  }

  lemma StepKeeps<K>(s: State<K>, step: Step<K>)
    requires Inv(s) && Possible(s, step) && Obeyed(s, step)
    ensures Do(s, step).Ok? && Inv(Do(s, step).value)
  {
    match step
    case New(c, fd) => NewKeeps(s, c, fd);
    case Update(c, events) => UpdateExactly(s, c, events);
    case Remove(c) => RemoveExactly(s, c);
  }

  /** Over every list of calls that keep the discipline, no assertion fails, the fix-up after a
      swap-removal finds its channel, and slots and channels stay in bijection. */
  lemma {:induction false} EveryRunIsSafe<K>(s: State<K>, steps: seq<Step<K>>)
    requires Inv(s) && Disciplined(s, steps)
    ensures Run(s, steps).Ok? && Inv(Run(s, steps).value)
    decreases |steps|
  {
    if steps != [] {
      if Possible(s, steps[0]) {
        StepKeeps(s, steps[0]);
        EveryRunIsSafe(Do(s, steps[0]).value, steps[1..]);
      } else {
        EveryRunIsSafe(s, steps[1..]);
      }
    }
  }

  // ---------------------------------------------------------------- a first registration without events

  ghost predicate Updates<K>(steps: seq<Step<K>>, c: K) {
    exists i :: 0 <= i < |steps| && steps[i].Update? && steps[i].c == c
  }

  lemma UpdatesCons<K>(steps: seq<Step<K>>, c: K)
    requires steps != []
    ensures Updates(steps, c) <==> (steps[0].Update? && steps[0].c == c) || Updates(steps[1..], c)
  {
    if Updates(steps, c) {
      var i :| 0 <= i < |steps| && steps[i].Update? && steps[i].c == c;
      assert i > 0 ==> steps[1..][i - 1] == steps[i];
    }
    if Updates(steps[1..], c) {
      var i :| 0 <= i < |steps[1..]| && steps[1..][i].Update? && steps[1..][i].c == c;
      assert steps[i + 1] == steps[1..][i];
    }
  }

  /** Any call that succeeds keeps the bijection; a registered channel stays registered until it is
      removed, and stays bare until it is updated. */
  lemma StepLinks<K>(s: State<K>, step: Step<K>, c: K)
    requires Linked(s) && Registered(s, c) && Possible(s, step) && Do(s, step).Ok? && step != Remove(c)
    ensures Linked(Do(s, step).value) && Registered(Do(s, step).value, c)
    ensures Bare(Do(s, step).value, c) <==> Bare(s, c) && !(step.Update? && step.c == c)
  {
    assert OwnsSlot(s, s.objects[c].fd);
    match step
    case New(d, fd) => NewKeeps(s, d, fd);
    case Update(d, events) => UpdateLinks(s, d, events);
    case Remove(d) =>
      RemoveLinks(s, d);
      RemoveKeepsOthers(s, d, c);
  }

  lemma {:induction false} BareUntilUpdated<K>(s: State<K>, steps: seq<Step<K>>, c: K)
    requires Linked(s) && Registered(s, c) && Run(s, steps).Ok? && Remove(c) !in steps
    ensures Linked(Run(s, steps).value) && Registered(Run(s, steps).value, c)
    ensures Bare(Run(s, steps).value, c) <==> Bare(s, c) && !Updates(steps, c)
    decreases |steps|
  {
    if steps != [] {
      UpdatesCons(steps, c);
      assert steps[0] in steps && forall x :: x in steps[1..] ==> x in steps;
      if Possible(s, steps[0]) {
        StepLinks(s, steps[0], c);
        BareUntilUpdated(Do(s, steps[0]).value, steps[1..], c);
      } else {
        BareUntilUpdated(s, steps[1..], c);
      }
    }
  }

  /** A channel first registered without events is not hidden. Whatever else is called, it can then be
      removed if and only if it wants no event and has been updated again. */
  lemma RemovableOnceUpdatedAgain<K>(s: State<K>, c: K, steps: seq<Step<K>>)
    requires Linked(s) && c in s.objects && s.objects[c].index < 0 && s.objects[c].fd !in s.channels
    requires Do(s, Update(c, 0)).Ok? && Run(Do(s, Update(c, 0)).value, steps).Ok? && Remove(c) !in steps
    ensures var t := Run(Do(s, Update(c, 0)).value, steps).value;
            && c in t.objects
            && (Do(t, Remove(c)).Ok? <==> t.objects[c].events == 0 && Updates(steps, c))
  {
    UpdateLinks(s, c, 0);
    var s1 := Do(s, Update(c, 0)).value;
    BareUntilUpdated(s1, steps, c);
    RemoveLinks(Run(s1, steps).value, c);
    if !Updates(steps, c) {
      assert Bare(Run(s1, steps).value, c);
    }
  }

  /** Its next update, with events or without, brings everything back in order. */
  lemma NextUpdateRestores<K>(s: State<K>, c: K, events: nat)
    requires Linked(s) && Bare(s, c) && forall d :: d in s.objects && d != c ==> !Bare(s, d)
    ensures Do(s, Update(c, events)).Ok? && Inv(Do(s, Update(c, events)).value)
    ensures Interests(Do(s, Update(c, events)).value) == Interests(s)[s.objects[c].fd as int := (c, events)]
  {
    assert OwnsSlot(s, s.objects[c].fd);
    UpdateLinks(s, c, events);
  }

  /** A channel object that was registered once and is not any more. */
  predicate Spent<K(==)>(s: State<K>, c: K) {
    c in s.objects && s.objects[c].index >= 0 && !Registered(s, c)
  }

  lemma StepKeepsSpent<K>(s: State<K>, step: Step<K>, c: K)
    requires Linked(s) && Spent(s, c) && Possible(s, step) && Do(s, step).Ok?
    ensures Linked(Do(s, step).value) && Spent(Do(s, step).value, c)
  {
    match step
    case New(d, fd) => NewKeeps(s, d, fd);
    case Update(d, events) => UpdateLinks(s, d, events);
    case Remove(d) =>
      RemoveLinks(s, d);
      if d != c {
        RemoveKeepsOthers(s, d, c);
        if Registered(s, d) { assert OwnsSlot(s, s.objects[d].fd); }
      }
  }

  lemma {:induction false} RunKeepsSpent<K>(s: State<K>, steps: seq<Step<K>>, c: K)
    requires Linked(s) && Spent(s, c) && Run(s, steps).Ok?
    ensures Linked(Run(s, steps).value) && Spent(Run(s, steps).value, c)
    decreases |steps|
  {
    if steps != [] {
      if Possible(s, steps[0]) {
        StepKeepsSpent(s, steps[0], c);
        RunKeepsSpent(Do(s, steps[0]).value, steps[1..], c);
      } else {
        RunKeepsSpent(s, steps[1..], c);
      }
    }
  }

  /** A removed channel keeps its stale index: whatever is called later, even a new channel for its
      descriptor, it can be neither updated nor removed again. */
  lemma RemovedChannelIsSpent<K>(s: State<K>, c: K, steps: seq<Step<K>>, events: nat)
    requires Linked(s) && c in s.objects && Do(s, Remove(c)).Ok?
    requires Run(Do(s, Remove(c)).value, steps).Ok?
    ensures var t := Run(Do(s, Remove(c)).value, steps).value;
            c in t.objects && Do(t, Update(c, events)).Fault? && Do(t, Remove(c)).Fault?
  {
    RemoveLinks(s, c);
    assert OwnsSlot(s, s.objects[c].fd);
    var s1 := Do(s, Remove(c)).value;
    assert Spent(s1, c);
    RunKeepsSpent(s1, steps, c);
    var t := Run(s1, steps).value;
    UpdateLinks(t, c, events);
    RemoveLinks(t, c);
  }

  /** poll(2) watches exactly the registered channels that want some event, each through one slot
      that asks for exactly its events. */
  lemma EnabledSlotsAreInterests<K>(s: State<K>, fd: int)
    requires Inv(s)
    ensures (exists i :: Enabled(s, i) && s.pollfds[i].fd == fd)
              <==> fd in s.channels && s.objects[s.channels[fd]].events != 0
    ensures forall i :: Enabled(s, i) && s.pollfds[i].fd == fd ==>
              && fd in s.channels && s.objects[s.channels[fd]].index == i
              && s.pollfds[i].events == s.objects[s.channels[fd]].events
  {
    if fd in s.channels {
      assert OwnsSlot(s, fd);
      var o := s.objects[s.channels[fd]];
      assert o.events != 0 ==> Enabled(s, o.index) && s.pollfds[o.index].fd == fd;
    }
    forall i | Enabled(s, i) && s.pollfds[i].fd == fd
      ensures fd in s.channels && s.objects[s.channels[fd]].index == i
      ensures s.pollfds[i].events == s.objects[s.channels[fd]].events != 0
    {
      assert Owned(s, i);
      assert OwnsSlot(s, fd);
    }
  }

  // ---------------------------------------------------------------- fillActiveChannels

  function Count(revents: seq<int>): nat {
    if revents == [] then 0 else (if revents[0] > 0 then 1 else 0) + Count(revents[1..])
  }

  /** The kernel reports only on slots it was asked to watch; the fillers stay silent. */
  ghost predicate Reported<K>(s: State<K>, revents: seq<int>) {
    |revents| == |s.pollfds| && forall i :: 0 <= i < |revents| && revents[i] > 0 ==> Enabled(s, i)
  }

  /** The loop of fillActiveChannels from slot `i`, with `numEvents` events still to be found. */
  function FillActive<K(==)>(s: State<K>, revents: seq<int>, i: nat, numEvents: nat): Outcome<seq<K>>
    requires i <= |revents| == |s.pollfds|
    decreases |revents| - i
  {
    if i == |revents| || numEvents == 0 then Ok([])
    else if revents[i] > 0 then
      var fd := s.pollfds[i].fd;
      if fd !in s.channels then Fault
      else if s.channels[fd] !in s.objects || s.objects[s.channels[fd]].fd != fd then Fault
      else
        var rest :- FillActive(s, revents, i + 1, numEvents - 1);
        Ok([s.channels[fd]] + rest)
    else FillActive(s, revents, i + 1, numEvents)
  }

  /** A registered channel whose slot, at or after `i`, has something to report. */
  ghost predicate ActiveFrom<K>(s: State<K>, revents: seq<int>, i: nat, c: K)
    requires |revents| == |s.pollfds|
  {
    Registered(s, c) && i <= s.objects[c].index < |revents| && revents[s.objects[c].index] > 0
  }

  ghost predicate Distinct<K>(cs: seq<K>) {
    forall j, k :: 0 <= j < k < |cs| ==> cs[j] != cs[k]
  }

  lemma SlotOwner<K>(s: State<K>, revents: seq<int>, i: nat) returns (c: K)
    requires Linked(s) && Reported(s, revents) && i < |revents| && revents[i] > 0
    ensures Registered(s, c) && s.objects[c].index == i
    ensures s.pollfds[i].fd in s.channels && c == s.channels[s.pollfds[i].fd] && s.objects[c].fd == s.pollfds[i].fd
  {
    assert Enabled(s, i);
    assert Owned(s, i);
    c := s.channels[s.pollfds[i].fd];
    assert OwnsSlot(s, s.pollfds[i].fd);
  }

  /** The list is exactly the channels with something to report, each once. */
  lemma {:induction false} FillActiveExact<K>(s: State<K>, revents: seq<int>, i: nat)
    requires Linked(s) && Reported(s, revents) && i <= |revents|
    ensures FillActive(s, revents, i, Count(revents[i..])).Ok?
    ensures var cs := FillActive(s, revents, i, Count(revents[i..])).value;
            && |cs| == Count(revents[i..]) && Distinct(cs)
            && forall c :: c in cs <==> ActiveFrom(s, revents, i, c)
    decreases |revents| - i
  {
    if i < |revents| {
      assert revents[i..][1..] == revents[i + 1..];
      FillActiveExact(s, revents, i + 1);
      if revents[i] > 0 {
        var owner := SlotOwner(s, revents, i);
        ActiveStep(s, revents, i, owner);
      } else {
        QuietStep(s, revents, i);
      }
    }
    if Count(revents[i..]) == 0 {
      QuietRest(s, revents, i);
    }
  }

  lemma ActiveStep<K>(s: State<K>, revents: seq<int>, i: nat, owner: K)
    requires Linked(s) && Reported(s, revents) && i < |revents| && revents[i] > 0
    requires Registered(s, owner) && s.objects[owner].index == i
    requires s.pollfds[i].fd in s.channels && owner == s.channels[s.pollfds[i].fd]
    ensures forall c :: ActiveFrom(s, revents, i, c) <==> c == owner || ActiveFrom(s, revents, i + 1, c)
    ensures !ActiveFrom(s, revents, i + 1, owner)
  {
    forall c | ActiveFrom(s, revents, i, c) && s.objects[c].index == i
      ensures c == owner
    {
      assert OwnsSlot(s, s.objects[c].fd);
    }
  }

  lemma QuietStep<K>(s: State<K>, revents: seq<int>, i: nat)
    requires |revents| == |s.pollfds| && i < |revents| && revents[i] <= 0
    ensures forall c :: ActiveFrom(s, revents, i, c) <==> ActiveFrom(s, revents, i + 1, c)
  {
  }

  lemma {:induction false} QuietRest<K>(s: State<K>, revents: seq<int>, i: nat)
    requires |revents| == |s.pollfds| && i <= |revents| && Count(revents[i..]) == 0
    ensures forall c :: !ActiveFrom(s, revents, i, c)
    decreases |revents| - i
  {
    if i < |revents| {
      assert revents[i..][1..] == revents[i + 1..];
      QuietRest(s, revents, i + 1);
      QuietStep(s, revents, i);
    }
  }

  // ---------------------------------------------------------------- the objects

  class Channel {
    const fd: nat
    var events: nat
    var index: int
    var revents: int

    constructor (fd: nat)
      ensures this.fd == fd && events == 0 && index == -1
    {
      this.fd, this.events, this.index, this.revents := fd, 0, -1, 0;
    }
  }

  class PollPoller {
    var pollfds_: seq<PollFd>
    var channels_: map<int, Channel>
    ghost var known: set<Channel>

    ghost function Model(): State<Channel>
      reads this, known
    {
      State(pollfds_, channels_, map c: Channel | c in known :: Chan(c.fd, c.events, c.index))
    }

    /** Two states with the same channels in the same condition have the same objects. */
    lemma SameObjects(s: State<Channel>)
      requires s.objects.Keys == known
      requires forall c :: c in known ==> s.objects[c] == Chan(c.fd, c.events, c.index)
      ensures Model().objects == s.objects
    {
      assert Model().objects.Keys == s.objects.Keys;
    }

    constructor ()
      ensures known == {} && Model() == Initial() && Inv(Model()) && |pollfds_| == 16
    {
      pollfds_ := seq(FILLERS, _ => PollFd(0, 0));
      channels_ := map[];
      known := {};
    }

    /** A new channel object comes into being. */
    method NewChannel(fd: nat) returns (channel: Channel)
      modifies this`known
      ensures fresh(channel) && known == old(known) + {channel}
      ensures channel !in old(Model()).objects && Ok(Model()) == Do(old(Model()), New(channel, fd))
    {
      channel := new Channel(fd);
      known := known + {channel};
      SameObjects(SetObject(old(Model()), channel, Chan(fd, 0, -1)));
    }

    /** Channel::update, with the events the channel now wants. */
    method UpdateChannel(channel: Channel, events: nat)
      requires channel in known && Linked(Model()) && Do(Model(), Update(channel, events)).Ok?
      modifies this`pollfds_, this`channels_, channel`events, channel`index
      ensures Linked(Model()) && Ok(Model()) == Do(old(Model()), Update(channel, events))
      ensures old(Inv(Model())) ==> (Inv(Model()) <==> old(channel.index) >= 0 || events != 0)
    {
      UpdateLinks(Model(), channel, events);
      ghost var target := Do(Model(), Update(channel, events)).value;
      channel.events := events;
      var fd := channel.fd;
      if channel.index < 0 {
        assert fd !in channels_;
        pollfds_ := pollfds_ + [PollFd(fd, events)];
        channel.index := |pollfds_| - 1;
        channels_ := channels_[fd as int := channel];
      } else {
        assert fd in channels_ && channels_[fd] == channel;
        var index := channel.index;
        assert 0 <= index < |pollfds_|;
        assert pollfds_[index].fd == fd || pollfds_[index].fd == Hidden(fd);
        pollfds_ := pollfds_[index := PollFd(fd, events)];
        if events == 0 {
          pollfds_ := pollfds_[index := PollFd(Hidden(fd), events)];
        }
      }
      SameObjects(target);
      assert pollfds_ == target.pollfds && channels_ == target.channels;
    }

    method RemoveChannel(channel: Channel)
      requires channel in known && Linked(Model()) && Do(Model(), Remove(channel)).Ok?
      modifies this`pollfds_, this`channels_, known`index
      ensures Linked(Model()) && Ok(Model()) == Do(old(Model()), Remove(channel))
      ensures old(Inv(Model())) ==> Inv(Model())
    {
      RemoveLinks(Model(), channel);
      ghost var target := Do(Model(), Remove(channel)).value;
      assert OwnsSlot(Model(), channel.fd);
      var fd := channel.fd;
      assert fd in channels_ && channels_[fd] == channel && channel.events == 0;
      var index := channel.index;
      assert 0 <= index < |pollfds_| && pollfds_[index] == PollFd(Hidden(fd), channel.events);
      channels_ := channels_ - {fd};
      if index == |pollfds_| - 1 {
        pollfds_ := pollfds_[..|pollfds_| - 1];
      } else {
        var channelAtEnd := pollfds_[|pollfds_| - 1].fd;
        pollfds_ := pollfds_[index := pollfds_[|pollfds_| - 1]][|pollfds_| - 1 := pollfds_[index]];
        if channelAtEnd < 0 {
          channelAtEnd := Hidden(channelAtEnd);
        }
        channels_[channelAtEnd].index := index;
        pollfds_ := pollfds_[..|pollfds_| - 1];
      }
      SameObjects(target);
      assert pollfds_ == target.pollfds && channels_ == target.channels;
    }

    /** `revents` is what the kernel wrote into the slots. */
    method FillActiveChannels(revents: seq<int>, numEvents: nat) returns (activeChannels: seq<Channel>)
      requires Linked(Model()) && Reported(Model(), revents) && numEvents == Count(revents)
      modifies known`revents
      ensures Model() == old(Model())
      ensures |activeChannels| == numEvents && Distinct(activeChannels)
      ensures forall c :: c in activeChannels <==> ActiveFrom(Model(), revents, 0, c)
      ensures forall c :: c in activeChannels ==> 0 <= c.index < |revents| && c.revents == revents[c.index]
    {
      ghost var s := Model();
      assert revents[0..] == revents;
      FillActiveExact(s, revents, 0);
      activeChannels := [];
      var left := numEvents;
      var i := 0;
      while i < |pollfds_| && left > 0
        invariant i <= |pollfds_| && Model() == s
        invariant FillActive(s, revents, i, left).Ok?
        invariant activeChannels + FillActive(s, revents, i, left).value == FillActive(s, revents, 0, numEvents).value
        invariant forall c :: c in activeChannels ==>
                    c in known && 0 <= c.index < |revents| && c.revents == revents[c.index]
        decreases |pollfds_| - i
      {
        if revents[i] > 0 {
          left := left - 1;
          var channel := channels_[pollfds_[i].fd];
          assert channel.fd == pollfds_[i].fd;
          var _ := SlotOwner(s, revents, i);
          channel.revents := revents[i];
          activeChannels := activeChannels + [channel];
        }
        i := i + 1;
      }
      assert activeChannels + [] == activeChannels;
    }
  }
}
