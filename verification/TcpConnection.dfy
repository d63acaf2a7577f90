/** Output and closing of src/net/src/TcpConnection.cc, every call made on the loop's thread. What the
    kernel answers to write(2) is part of the step. */
module TcpConnections {
  import opened Outcomes
  import opened NetworkOrder
  import opened Sequences
  import Buffers

  const DEFAULT_HIGH_WATER_MARK: nat := 64 * 1024 * 1024

  datatype Place = Connecting | Connected | Disconnecting | Disconnected

  /** What write(2) returns: a count, or -1 with errno EPIPE or ECONNRESET, or with another errno. */
  datatype WriteResult = Wrote(count: nat) | Broken | Failed

  /** A message handed to sendInLoop, and how much of it was written or queued. */
  datatype Message = Message(data: seq<Byte>, kept: nat)

  datatype State = State(
    place: Place,              // state_
    writing: bool,             // channel_->isWriting()
    output: seq<Byte>,         // outputBuffer_
    hasCallback: bool,         // highWaterMarkCallback_ is set
    mark: nat,                 // highWaterMark_
    closings: nat,             // forceCloseInLoop calls queued in the loop
    removed: bool,             // the channel has left the loop
    asked: bool,               // history: shutdown() took effect
    accepted: seq<Byte>,       // history: the bytes the socket took
    halfCloses: seq<nat>,      // history: how many bytes the socket had taken at each shutdownWrite
    messages: seq<Message>)    // history: the messages given to a connected sendInLoop

  const INITIAL := State(Connecting, false, [], false, DEFAULT_HIGH_WATER_MARK, 0, false, false, [], [], [])

  datatype Step =
    | Establish
    | SetHighWaterMark(hasCallback: bool, mark: nat)
    | Send(data: seq<Byte>, result: WriteResult)
    | HandleWrite(taken: int)
    | Shutdown
    | ForceClose
    | ForceCloseInLoop
    | HandleClose
    | ConnectDestroyed

  /** The kernel takes no more than it is offered; queued calls run when they are queued. */
  predicate Enabled(s: State, step: Step) {
    match step
    case Send(data, result) => result.Wrote? ==> result.count <= |data|
    case HandleWrite(taken) => taken <= |s.output|
    case ForceCloseInLoop => s.closings > 0
    case _ => true
  }

  predicate Open(s: State) {
    s.place.Connected? || s.place.Disconnecting?
  }

  /** sendInLoop writes at once only when nothing is ahead of the message. */
  predicate Direct(s: State) {
    !s.writing && s.output == []
  }

  function TakenAtOnce(s: State, result: WriteResult): nat {
    if Direct(s) && result.Wrote? then result.count else 0
  }

  /** How much of a message is written or queued. The remainder is queued only in the branch that also
      calls the high-water callback. */
  function Kept(s: State, len: nat, result: WriteResult): nat
    requires result.Wrote? ==> result.count <= len
  {
    var n := TakenAtOnce(s, result);
    var failed := Direct(s) && result.Broken?;
    if !failed && s.hasCallback && |s.output| < s.mark <= |s.output| + len - n then len else n
  }

  function SentState(s: State, data: seq<Byte>, result: WriteResult): State
    requires Enabled(s, Send(data, result))
  {
    if s.place.Disconnected? then s
    else
      var n, kept := TakenAtOnce(s, result), Kept(s, |data|, result);
      s.(accepted := s.accepted + data[..n], output := s.output + data[n..kept], writing := s.writing || n < kept,
         messages := s.messages + [Message(data, kept)])
  }

  function HalfClosedState(s: State): State {
    if s.writing then s else s.(halfCloses := s.halfCloses + [|s.accepted|])
  }

  function DrainedState(s: State, n: nat): State
    requires n <= |s.output|
  {
    var s := s.(accepted := s.accepted + s.output[..n], output := s.output[n..]);
    if s.output != [] then s
    else if s.place.Disconnecting? then HalfClosedState(s.(writing := false))
    else s.(writing := false)
  }

  function CloseState(s: State): State {
    s.(place := Disconnected, writing := false)
  }

  function Do(s: State, step: Step): Outcome<State>
    requires Enabled(s, step)
  {
    match step
    case Establish =>
      if s.place.Connecting? then Ok(s.(place := Connected)) else Fault
    case SetHighWaterMark(hasCallback, mark) =>
      Ok(s.(hasCallback := hasCallback, mark := mark))
    case Send(data, result) =>
      Ok(if s.place.Connected? then SentState(s, data, result) else s)
    case HandleWrite(taken) =>
      Ok(if s.writing && taken > 0 then DrainedState(s, taken) else s)
    case Shutdown =>
      Ok(if s.place.Connected? then HalfClosedState(s.(place := Disconnecting, asked := true)) else s)
    case ForceClose =>
      Ok(if Open(s) then s.(place := Disconnecting, closings := s.closings + 1) else s)
    case ForceCloseInLoop =>
      var s := s.(closings := s.closings - 1);
      Ok(if Open(s) then CloseState(s) else s)
    case HandleClose =>
      if Open(s) then Ok(CloseState(s)) else Fault
    case ConnectDestroyed =>
      // The channel still reads while the connection is open, and remove() wants no interest left.
      if s.removed || s.place.Connecting? || s.place.Disconnecting? then Fault
      else Ok((if s.place.Connected? then CloseState(s) else s).(removed := true))
  }

  function Run(s: State, steps: seq<Step>): Outcome<State>
    decreases |steps|
  {
    if steps == [] then Ok(s)
    else if !Enabled(s, steps[0]) then Run(s, steps[1..])
    else
      var t :- Do(s, steps[0]);
      Run(t, steps[1..])
  }

  // ---------------------------------------------------------------- which calls fail

  /** What of a connection its callers and the kernel's hang-ups decide. */
  datatype Life = Life(place: Place, closings: nat, removed: bool)

  function LifeOf(s: State): Life {
    Life(s.place, s.closings, s.removed)
  }

  /** Established once and first; a close is reported only while open; destroyed once, after the
      connection is closed or instead of closing it. */
  predicate Permitted(l: Life, step: Step) {
    match step
    case Establish => l.place.Connecting?
    case HandleClose => l.place.Connected? || l.place.Disconnecting?
    case ConnectDestroyed => !l.removed && (l.place.Connected? || l.place.Disconnected?)
    case _ => true
  }

  function Advance(l: Life, step: Step): Life {
    match step
    case Establish => l.(place := Connected)
    case Shutdown => if l.place.Connected? then l.(place := Disconnecting) else l
    case ForceClose =>
      if l.place.Connected? || l.place.Disconnecting? then l.(place := Disconnecting, closings := l.closings + 1) else l
    case ForceCloseInLoop =>
      if l.closings == 0 then l
      else if l.place.Connecting? then l.(closings := l.closings - 1)
      else Life(Disconnected, l.closings - 1, l.removed)
    case HandleClose => l.(place := Disconnected)
    case ConnectDestroyed => Life(Disconnected, l.closings, true)
    case _ => l
  }

  predicate Orderly(l: Life, steps: seq<Step>)
    decreases |steps|
  {
    steps == [] || (Permitted(l, steps[0]) && Orderly(Advance(l, steps[0]), steps[1..]))
  }

  lemma StepLife(s: State, step: Step)
    ensures !Enabled(s, step) ==> Permitted(LifeOf(s), step) && Advance(LifeOf(s), step) == LifeOf(s)
    ensures Enabled(s, step) ==> (Do(s, step).Ok? <==> Permitted(LifeOf(s), step))
    ensures Enabled(s, step) && Do(s, step).Ok? ==> LifeOf(Do(s, step).value) == Advance(LifeOf(s), step)
  {
  }

  /** A schedule runs without a failed assertion if and only if its calls are orderly: what is sent,
      what the kernel answers and what is still queued make no difference. */
  lemma {:induction false} FaultFreeExactly(s: State, steps: seq<Step>)
    ensures Run(s, steps).Ok? <==> Orderly(LifeOf(s), steps)
    decreases |steps|
  {
    if steps != [] {
      StepLife(s, steps[0]);
      if !Enabled(s, steps[0]) {
        FaultFreeExactly(s, steps[1..]);
      } else if Do(s, steps[0]).Ok? {
        FaultFreeExactly(Do(s, steps[0]).value, steps[1..]);
      }
    }
  }

  // ---------------------------------------------------------------- the invariant

  /** Write interest is on exactly while bytes wait. */
  predicate WritingIffPending(place: Place, writing: bool, output: seq<Byte>) {
    if place.Disconnected? then !writing else writing <==> output != []
  }

  predicate HalfClosedOnce(s: State) {
    && (s.halfCloses != [] ==>
          && s.halfCloses == [|s.accepted|] && !s.writing
          && ((s.place.Disconnecting? && s.output == []) || s.place.Disconnected?))
    && (s.asked && s.place.Disconnecting? ==> (s.halfCloses != [] <==> s.output == []))
    && (s.place.Connecting? || s.place.Connected? ==> !s.asked)
  }

  predicate Bounded(messages: seq<Message>) {
    forall i :: 0 <= i < |messages| ==> messages[i].kept <= |messages[i].data|
  }

  /** The kept prefixes of the messages, in the order they were sent. */
  function Prefixes(messages: seq<Message>): seq<Byte>
    requires Bounded(messages)
  {
    if messages == [] then []
    else
      var last := messages[|messages| - 1];
      Prefixes(messages[..|messages| - 1]) + last.data[..last.kept]
  }

  predicate InSendOrder(accepted: seq<Byte>, output: seq<Byte>, messages: seq<Message>) {
    Bounded(messages) && accepted + output == Prefixes(messages)
  }

  predicate Inv(s: State) {
    && WritingIffPending(s.place, s.writing, s.output)
    && HalfClosedOnce(s)
    && InSendOrder(s.accepted, s.output, s.messages)
    && (s.place.Connecting? ==> s.output == [])
  }

  lemma PrefixesSnoc(messages: seq<Message>, m: Message)
    requires Bounded(messages) && m.kept <= |m.data|
    ensures Prefixes(messages + [m]) == Prefixes(messages) + m.data[..m.kept]
  {
    assert (messages + [m])[..|messages|] == messages;
  }

  lemma BytesRegroup(a: seq<Byte>, b: seq<Byte>, head: seq<Byte>, tail: seq<Byte>, whole: seq<Byte>)
    requires (b == [] || head == []) && whole == head + tail
    ensures a + head + (b + tail) == a + b + whole
  {
  }

  lemma SendKeepsOrder(accepted: seq<Byte>, output: seq<Byte>, messages: seq<Message>,
                       data: seq<Byte>, n: nat, kept: nat)
    requires InSendOrder(accepted, output, messages)
    requires n <= kept <= |data| && (output == [] || n == 0)
    ensures InSendOrder(accepted + data[..n], output + data[n..kept], messages + [Message(data, kept)])
  {
    PrefixesSnoc(messages, Message(data, kept));
    BytesRegroup(accepted, output, data[..n], data[n..kept], data[..kept]);
  }

  lemma StepKeeps(s: State, step: Step)
    requires Inv(s) && Enabled(s, step) && Do(s, step).Ok?
    ensures Inv(Do(s, step).value)
  {
    match step
    case Send(data, result) =>
      if s.place.Connected? {
        SendKeepsOrder(s.accepted, s.output, s.messages, data, TakenAtOnce(s, result), Kept(s, |data|, result));
      }
    case HandleWrite(taken) =>
      if s.writing && taken > 0 {
        assert s.accepted + s.output[..taken] + s.output[taken..] == s.accepted + s.output;
      }
    case _ =>
  }

  lemma {:induction false} EveryRunKeeps(s: State, steps: seq<Step>)
    requires Inv(s) && Run(s, steps).Ok?
    ensures Inv(Run(s, steps).value)
    decreases |steps|
  {
    if steps != [] {
      if Enabled(s, steps[0]) {
        StepKeeps(s, steps[0]);
        EveryRunKeeps(Do(s, steps[0]).value, steps[1..]);
      } else {
        EveryRunKeeps(s, steps[1..]);
      }
    }
  }

  // ---------------------------------------------------------------- theorems

  ghost predicate Reachable(s: State) {
    exists steps :: Run(INITIAL, steps) == Ok(s)
  }

  lemma ReachableKeeps(s: State)
    requires Reachable(s)
    ensures Inv(s)
  {
    var steps :| Run(INITIAL, steps) == Ok(s);
    EveryRunKeeps(INITIAL, steps);
  }

  /** While not disconnected, write interest is on exactly when the output buffer has bytes. */
  lemma WritingExactlyWhilePending(s: State)
    requires Reachable(s)
    ensures !s.place.Disconnected? ==> (s.writing <==> s.output != [])
    ensures s.place.Disconnected? ==> !s.writing
  {
    ReachableKeeps(s);
  }

  /** Whatever the socket took and refused: its bytes, then the output buffer, are one prefix of each
      message, in the order of the calls. */
  lemma NothingReordered(s: State)
    requires Reachable(s)
    ensures InSendOrder(s.accepted, s.output, s.messages)
  {
    ReachableKeeps(s);
  }

  /** A step half-closes the socket exactly when it is a shutdown with nothing pending, or the write
      that empties the buffer of a connection being closed. */
  lemma HalfCloseExactly(s: State, step: Step)
    requires Reachable(s) && Enabled(s, step) && Do(s, step).Ok?
    ensures var t := Do(s, step).value;
            t.halfCloses != s.halfCloses <==>
              || (step.Shutdown? && s.place.Connected? && s.output == [])
              || (step.HandleWrite? && s.place.Disconnecting? && s.output != [] && step.taken == |s.output|)
    ensures var t := Do(s, step).value;
            t.halfCloses != s.halfCloses ==> s.halfCloses == [] && t.halfCloses == [|t.accepted|] && t.output == []
  {
    ReachableKeeps(s);
    StepKeeps(s, step);
  }

  /** A connection asked to shut down has been half-closed exactly when its output has drained. */
  lemma ShutdownWaitsForOutput(s: State)
    requires Reachable(s) && s.asked && !s.place.Disconnected?
    ensures s.halfCloses != [] <==> s.output == []
  {
    ReachableKeeps(s);
  }

  lemma {:induction false} AskedStays(s: State, steps: seq<Step>)
    requires s.asked && Run(s, steps).Ok?
    ensures Run(s, steps).value.asked
    decreases |steps|
  {
    if steps != [] {
      AskedStays(if Enabled(s, steps[0]) then Do(s, steps[0]).value else s, steps[1..]);
    }
  }

  /** After shutdown on a connected socket, and any later calls, the half-close has happened exactly if
      nothing is pending any more, until the connection is closed. */
  lemma ShutdownHalfCloses(s: State, steps: seq<Step>)
    requires Reachable(s) && s.place.Connected?
    requires Do(s, Shutdown).Ok? && Run(Do(s, Shutdown).value, steps).Ok?
    ensures var t := Run(Do(s, Shutdown).value, steps).value;
            !t.place.Disconnected? ==> (t.halfCloses != [] <==> t.output == [])
  {
    ReachableKeeps(s);
    StepKeeps(s, Shutdown);
    var s1 := Do(s, Shutdown).value;
    AskedStays(s1, steps);
    EveryRunKeeps(s1, steps);
  }

  /** After the half-close no run writes a byte or half-closes again. */
  lemma {:induction false} NothingAfterHalfClose(s: State, steps: seq<Step>)
    requires Inv(s) && s.halfCloses != [] && Run(s, steps).Ok?
    ensures Run(s, steps).value.accepted == s.accepted
    ensures Run(s, steps).value.halfCloses == s.halfCloses == [|s.accepted|]
    decreases |steps|
  {
    if steps != [] {
      if Enabled(s, steps[0]) {
        StepKeeps(s, steps[0]);
        NothingAfterHalfClose(Do(s, steps[0]).value, steps[1..]);
      } else {
        NothingAfterHalfClose(s, steps[1..]);
      }
    }
  }

  /** A closed connection stays closed and writes nothing, whatever is still called on it. */
  lemma {:induction false} ClosedIsFinal(s: State, steps: seq<Step>)
    requires Inv(s) && s.place.Disconnected? && Run(s, steps).Ok?
    ensures var t := Run(s, steps).value;
            && t.place.Disconnected? && !t.writing && t.accepted == s.accepted && t.halfCloses == s.halfCloses
            && t.output == s.output && t.messages == s.messages
    decreases |steps|
  {
    if steps != [] {
      if Enabled(s, steps[0]) {
        StepKeeps(s, steps[0]);
        ClosedIsFinal(Do(s, steps[0]).value, steps[1..]);
      } else {
        ClosedIsFinal(s, steps[1..]);
      }
    }
  }

  // ---------------------------------------------------------------- what one call writes

  /** What the peer has got or will get if the output buffer drains. */
  function Stream(s: State): seq<Byte> {
    s.accepted + s.output
  }

  /** While the connection is open, a write that takes `n` bytes moves exactly the first `n` pending
      bytes to the socket, all of them or not; one that takes none changes nothing. */
  lemma HandleWriteExactly(s: State, n: int)
    requires Reachable(s) && n <= |s.output|
    ensures Do(s, HandleWrite(n)).Ok?
    ensures var t := Do(s, HandleWrite(n)).value;
            && (Open(s) && n > 0 ==> t.accepted == s.accepted + s.output[..n] && t.output == s.output[n..])
            && (Open(s) && n > 0 ==> (t.writing <==> n < |s.output|))
            && (n <= 0 || !Open(s) ==> t == s)
  {
    ReachableKeeps(s);
  }

  /** sendInLoop tries the socket exactly when nothing is pending, and what the socket takes is gone
      from the message. */
  lemma DirectWriteExactly(s: State, data: seq<Byte>, result: WriteResult)
    requires Reachable(s) && s.place.Connected? && Enabled(s, Send(data, result))
    ensures Do(s, Send(data, result)).Ok?
    ensures Do(s, Send(data, result)).value.accepted
              == s.accepted + (if s.output == [] && result.Wrote? then data[..result.count] else [])
  {
    ReachableKeeps(s);
    assert data[..0] == [];
  }

  /** The calls after which bytes may be added, or never be written. */
  predicate AddsOrCloses(step: Step) {
    step.Send? || step.ForceCloseInLoop? || step.HandleClose? || step.ConnectDestroyed?
  }

  function TakenBy(step: Step): nat {
    if step.HandleWrite? && step.taken > 0 then step.taken else 0
  }

  /** How many bytes the writes of a schedule take. */
  function Taken(s: State, steps: seq<Step>): nat
    decreases |steps|
  {
    if steps == [] then 0
    else if Enabled(s, steps[0]) && Do(s, steps[0]).Ok? then
      TakenBy(steps[0]) + Taken(Do(s, steps[0]).value, steps[1..])
    else Taken(s, steps[1..])
  }

  /** The first `n` pending bytes have moved to the socket. */
  predicate Moved(accepted: seq<Byte>, output: seq<Byte>, accepted': seq<Byte>, output': seq<Byte>, n: nat) {
    n <= |output| && accepted' == accepted + output[..n] && output' == output[n..]
  }

  lemma StepTakes(s: State, step: Step)
    requires Inv(s) && Open(s) && Enabled(s, step) && Do(s, step).Ok? && !AddsOrCloses(step)
    ensures var t := Do(s, step).value; Open(t) && Moved(s.accepted, s.output, t.accepted, t.output, TakenBy(step))
  {
    assert s.output[..0] == [];
  }

  lemma MovedTwice(a: seq<Byte>, o: seq<Byte>, a': seq<Byte>, o': seq<Byte>, a'': seq<Byte>, o'': seq<Byte>,
                   n: nat, m: nat)
    requires Moved(a, o, a', o', n) && Moved(a', o', a'', o'', m)
    ensures Moved(a, o, a'', o'', n + m)
  {
    assert o[..n] + o'[..m] == o[..n + m];
    Associate(a, o[..n], o'[..m]);
  }

  /** Over any schedule that neither sends nor closes, the writes take the pending bytes in order and
      none twice. */
  lemma {:induction false} WritesTakeInOrder(s: State, steps: seq<Step>)
    requires Inv(s) && Open(s) && Run(s, steps).Ok?
    requires forall i :: 0 <= i < |steps| ==> !AddsOrCloses(steps[i])
    ensures var t := Run(s, steps).value; Moved(s.accepted, s.output, t.accepted, t.output, Taken(s, steps))
    decreases |steps|
  {
    if steps == [] {
      assert s.output[..0] == [];
    } else {
      var step, rest := steps[0], steps[1..];
      assert !AddsOrCloses(step) && forall i :: 0 <= i < |rest| ==> !AddsOrCloses(rest[i]);
      if Enabled(s, step) {
        StepKeeps(s, step);
        StepTakes(s, step);
        var s1 := Do(s, step).value;
        WritesTakeInOrder(s1, rest);
        var t, m := Run(s1, rest).value, Taken(s1, rest);
        assert Run(s, steps) == Ok(t) && Taken(s, steps) == TakenBy(step) + m;
        MovedTwice(s.accepted, s.output, s1.accepted, s1.output, t.accepted, t.output, TakenBy(step), m);
      } else {
        WritesTakeInOrder(s, rest);
      }
    }
  }

  /** Writes whose counts add up to what is pending empty the buffer. */
  lemma WritesEmptyTheBuffer(s: State, steps: seq<Step>)
    requires Reachable(s) && Open(s) && Run(s, steps).Ok? && Taken(s, steps) == |s.output|
    requires forall i :: 0 <= i < |steps| ==> !AddsOrCloses(steps[i])
    ensures Run(s, steps).value.output == [] && Run(s, steps).value.accepted == s.accepted + s.output
  {
    ReachableKeeps(s);
    WritesTakeInOrder(s, steps);
    assert s.output[..|s.output|] == s.output;
  }

  lemma StreamStays(s: State, step: Step)
    requires Inv(s) && (s.place.Disconnecting? || s.place.Disconnected?) && Enabled(s, step) && Do(s, step).Ok?
    ensures var t := Do(s, step).value;
            && (t.place.Disconnecting? || t.place.Disconnected?)
            && t.messages == s.messages && Stream(t) == Stream(s)
  {
    if step.HandleWrite? && s.writing && step.taken > 0 {
      assert s.output == s.output[..step.taken] + s.output[step.taken..];
      assert s.accepted + s.output[..step.taken] + s.output[step.taken..] == s.accepted + s.output;
    }
  }

  /** Once shutdown or forceClose has been called, nothing more is sent, whatever is called later. */
  lemma {:induction false} NothingSentAfterShutdown(s: State, steps: seq<Step>)
    requires Inv(s) && (s.place.Disconnecting? || s.place.Disconnected?) && Run(s, steps).Ok?
    ensures Run(s, steps).value.messages == s.messages && Stream(Run(s, steps).value) == Stream(s)
    decreases |steps|
  {
    if steps != [] {
      if Enabled(s, steps[0]) {
        StepKeeps(s, steps[0]);
        StreamStays(s, steps[0]);
        NothingSentAfterShutdown(Do(s, steps[0]).value, steps[1..]);
      } else {
        NothingSentAfterShutdown(s, steps[1..]);
      }
    }
  }

  /** The high-water mark and its callback are those set last. */
  lemma {:induction false} MarkStays(s: State, steps: seq<Step>)
    requires Run(s, steps).Ok? && forall i :: 0 <= i < |steps| ==> !steps[i].SetHighWaterMark?
    ensures Run(s, steps).value.hasCallback == s.hasCallback && Run(s, steps).value.mark == s.mark
    decreases |steps|
  {
    if steps != [] {
      assert !steps[0].SetHighWaterMark?;
      assert forall i :: 0 <= i < |steps[1..]| ==> !steps[1..][i].SetHighWaterMark?;
      MarkStays(if Enabled(s, steps[0]) then Do(s, steps[0]).value else s, steps[1..]);
    }
  }

  lemma MarkIsSet(s: State, hasCallback: bool, mark: nat, steps: seq<Step>)
    requires Run(s, [SetHighWaterMark(hasCallback, mark)] + steps).Ok?
    requires forall i :: 0 <= i < |steps| ==> !steps[i].SetHighWaterMark?
    ensures var t := Run(s, [SetHighWaterMark(hasCallback, mark)] + steps).value;
            t.hasCallback == hasCallback && t.mark == mark
  {
    var set1 := SetHighWaterMark(hasCallback, mark);
    assert ([set1] + steps)[0] == set1 && ([set1] + steps)[1..] == steps;
    MarkStays(Do(s, set1).value, steps);
  }

  // ---------------------------------------------------------------- what is delivered

  lemma LastMessage(a: seq<Message>, b: seq<Message>)
    requires b != []
    ensures a + b == a + b[..|b| - 1] + [b[|b| - 1]]
  {
  }

  lemma {:induction false} PrefixesAppend(a: seq<Message>, b: seq<Message>)
    requires Bounded(a) && Bounded(b)
    ensures Prefixes(a + b) == Prefixes(a) + Prefixes(b)
    decreases |b|
  {
    if b == [] {
      assert a + b == a;
    } else {
      var front, last := b[..|b| - 1], b[|b| - 1];
      PrefixesAppend(a, front);
      PrefixesSnoc(a + front, last);
      LastMessage(a, b);
      Associate(Prefixes(a), Prefixes(front), last.data[..last.kept]);
    }
  }

  /** What has been recorded of a message never changes. */
  lemma {:induction false} MessagesGrow(s: State, steps: seq<Step>)
    requires Run(s, steps).Ok?
    ensures s.messages <= Run(s, steps).value.messages
    decreases |steps|
  {
    if steps != [] {
      if Enabled(s, steps[0]) {
        assert s.messages <= Do(s, steps[0]).value.messages;
        MessagesGrow(Do(s, steps[0]).value, steps[1..]);
      } else {
        MessagesGrow(s, steps[1..]);
      }
    }
  }

  /** The socket takes all of the message at once, or the write is not fatal and the rest crosses a
      high-water mark that has a callback. */
  predicate KeepsWhole(s: State, len: nat, result: WriteResult) {
    var n := TakenAtOnce(s, result);
    || n == len
    || (s.hasCallback && |s.output| < s.mark <= |s.output| + len - n && !(Direct(s) && result.Broken?))
  }

  lemma StreamSplits(s: State, t: State, m: Message)
    requires InSendOrder(s.accepted, s.output, s.messages) && InSendOrder(t.accepted, t.output, t.messages)
    requires s.messages + [m] <= t.messages
    ensures var later := t.messages[|s.messages| + 1..];
            && Bounded(later) && m.kept <= |m.data|
            && Stream(t) == Stream(s) + m.data[..m.kept] + Prefixes(later)
  {
    var later := t.messages[|s.messages| + 1..];
    assert t.messages[|s.messages|] == m;
    assert t.messages == s.messages + [m] + later;
    PrefixesAppend(s.messages + [m], later);
    PrefixesSnoc(s.messages, m);
  }

  /** In the bytes of the connection, after any later run, a message stands whole between what was
      sent before and what was kept of later messages if and only if the socket took all of it at
      once, or its rest crossed the mark of a callback and the write was not fatal. Otherwise what
      stands there is what was taken at once, and the rest is never delivered. */
  lemma KeptWholeExactly(s: State, data: seq<Byte>, result: WriteResult, steps: seq<Step>)
    requires Reachable(s) && s.place.Connected? && Enabled(s, Send(data, result))
    requires Run(Do(s, Send(data, result)).value, steps).Ok?
    ensures var t := Run(Do(s, Send(data, result)).value, steps).value;
            |s.messages| < |t.messages| && Bounded(t.messages[|s.messages| + 1..])
    ensures var t := Run(Do(s, Send(data, result)).value, steps).value;
            var later := Prefixes(t.messages[|s.messages| + 1..]);
            && (Stream(t) == Stream(s) + data + later <==> KeepsWhole(s, |data|, result))
            && (!KeepsWhole(s, |data|, result) ==> Stream(t) == Stream(s) + data[..TakenAtOnce(s, result)] + later)
  {
    var m := Message(data, Kept(s, |data|, result));
    var s1 := Do(s, Send(data, result)).value;
    assert s1.messages == s.messages + [m];
    ReachableKeeps(s);
    StepKeeps(s, Send(data, result));
    EveryRunKeeps(s1, steps);
    MessagesGrow(s1, steps);
    StreamSplits(s, Run(s1, steps).value, m);
    assert data[..|data|] == data;
  }

  predicate SetsCallback(step: Step) {
    step.SetHighWaterMark? && step.hasCallback
  }

  /** Without a high-water callback no run ever queues a byte: the output buffer stays empty, so every
      message is cut to what its one write took. */
  lemma {:induction false} NothingQueuedWithoutCallback(s: State, steps: seq<Step>)
    requires Inv(s) && !s.hasCallback && s.output == []
    requires forall i :: 0 <= i < |steps| ==> !SetsCallback(steps[i])
    requires Run(s, steps).Ok?
    ensures Run(s, steps).value.output == [] && !Run(s, steps).value.writing
    decreases |steps|
  {
    if steps != [] {
      assert !SetsCallback(steps[0]);
      assert forall i :: 0 <= i < |steps[1..]| ==> !SetsCallback(steps[1..][i]);
      if Enabled(s, steps[0]) {
        StepKeeps(s, steps[0]);
        NothingQueuedWithoutCallback(Do(s, steps[0]).value, steps[1..]);
      } else {
        NothingQueuedWithoutCallback(s, steps[1..]);
      }
    }
  }

  /** A connection as it is created loses the rest of a message after a short write. */
  lemma ShortWriteLosesTheRest(data: seq<Byte>, n: nat)
    requires n < |data|
    ensures var steps := [Establish, Send(data, Wrote(n))];
            && Run(INITIAL, steps).Ok?
            && Run(INITIAL, steps).value.accepted == data[..n]
            && Run(INITIAL, steps).value.output == [] && !Run(INITIAL, steps).value.writing
  {
    var steps := [Establish, Send(data, Wrote(n))];
    var open := INITIAL.(place := Connected);
    assert steps[1..] == [Send(data, Wrote(n))] && steps[1..][1..] == [];
    assert Run(INITIAL, steps) == Run(open, steps[1..]);
    assert Run(open, steps[1..]) == Run(SentState(open, data, Wrote(n)), []);
    assert INITIAL.accepted + data[..n] == data[..n];
  }

  // ---------------------------------------------------------------- the object

  class TcpConnection {
    var state_: Place
    var channelWriting_: bool
    var channelRemoved_: bool
    var hasHighWaterMarkCallback_: bool
    var highWaterMark_: nat
    var queuedCloses_: nat
    const outputBuffer_: Buffers.Buffer

    ghost var asked: bool
    ghost var accepted: seq<Byte>
    ghost var halfCloses: seq<nat>
    ghost var messages: seq<Message>

    ghost predicate Valid()
      reads this, outputBuffer_
    {
      outputBuffer_.Valid()
    }

    ghost function Model(): State
      reads this, outputBuffer_
      requires Valid()
    {
      State(state_, channelWriting_, outputBuffer_.Content(), hasHighWaterMarkCallback_, highWaterMark_,
            queuedCloses_, channelRemoved_, asked, accepted, halfCloses, messages)
    }

    constructor ()
      ensures Valid() && fresh(outputBuffer_) && Model() == INITIAL && highWaterMark_ == 67_108_864
    {
      state_, channelWriting_, channelRemoved_ := Connecting, false, false;
      hasHighWaterMarkCallback_, highWaterMark_, queuedCloses_ := false, DEFAULT_HIGH_WATER_MARK, 0;
      outputBuffer_ := new Buffers.Buffer(Buffers.INITIAL_SIZE);
      asked, accepted, halfCloses, messages := false, [], [], [];
    }

    method ConnectEstablished()
      requires Valid() && state_ == Connecting
      modifies this
      ensures Valid() && Do(old(Model()), Establish) == Ok(Model())
    {
      state_ := Connected;
    }

    method SetHighWaterMarkCallback(hasCallback: bool, mark: nat)
      requires Valid()
      modifies this
      ensures Valid() && Do(old(Model()), SetHighWaterMark(hasCallback, mark)) == Ok(Model())
    {
      hasHighWaterMarkCallback_, highWaterMark_ := hasCallback, mark;
    }

    method Send(message: seq<Byte>, result: WriteResult)
      requires Valid() && (result.Wrote? ==> result.count <= |message|)
      modifies this, outputBuffer_
      ensures Valid() && Do(old(Model()), Step.Send(message, result)) == Ok(Model())
    {
      if state_ == Connected {
        SendInLoop(message, result);
      }
    }

    /** The write that sendInLoop tries first, if nothing is ahead of the message. */
    method WriteDirectly(len: nat, result: WriteResult) returns (nwrote: nat, err: bool)
      requires Valid() && (result.Wrote? ==> result.count <= len)
      ensures nwrote <= len && nwrote == TakenAtOnce(Model(), result)
      ensures err <==> Direct(Model()) && result.Broken?
    {
      nwrote, err := 0, false;
      if !channelWriting_ && outputBuffer_.ReadableBytes() == 0 {
        match result {
          case Wrote(count) => nwrote := count;
          case Broken => err := true;
          case Failed =>
        }
      }
    }

    method SendInLoop(message: seq<Byte>, result: WriteResult)
      requires Valid() && (result.Wrote? ==> result.count <= |message|)
      modifies this, outputBuffer_
      ensures Valid() && Model() == SentState(old(Model()), message, result)
    {
      if state_ == Disconnected {
        return;
      }
      var nwrote, err := WriteDirectly(|message|, result);
      var remaining := |message| - nwrote;
      accepted := accepted + message[..nwrote];
      ghost var kept := nwrote;
      if !err && remaining > 0 {
        var oldLen := outputBuffer_.ReadableBytes();
        var size := oldLen + remaining;
        if size >= highWaterMark_ && oldLen < highWaterMark_ && hasHighWaterMarkCallback_ {
          QueueRemainder(message[nwrote..]);
          kept := |message|;
        }
      }
      assert kept == Kept(old(Model()), |message|, result);
      assert outputBuffer_.Content() == old(outputBuffer_.Content()) + message[nwrote..kept];
      messages := messages + [Message(message, kept)];
    }

    method QueueRemainder(rest: seq<Byte>)
      requires Valid()
      modifies this`channelWriting_, outputBuffer_
      ensures Valid() && channelWriting_ && outputBuffer_.Content() == old(outputBuffer_.Content()) + rest
    {
      outputBuffer_.Append(rest);
      if !channelWriting_ {
        channelWriting_ := true;
      }
    }

    method HandleWrite(n: int)
      requires Valid() && n <= outputBuffer_.ReadableBytes()
      modifies this, outputBuffer_
      ensures Valid() && Do(old(Model()), Step.HandleWrite(n)) == Ok(Model())
    {
      if channelWriting_ {
        if n > 0 {
          accepted := accepted + outputBuffer_.Content()[..n];
          outputBuffer_.Retrieve(n);
          if outputBuffer_.ReadableBytes() == 0 {
            channelWriting_ := false;
            if state_ == Disconnecting {
              ShutdownInLoop();
            }
          }
        }
      }
    }

    method Shutdown()
      requires Valid()
      modifies this
      ensures Valid() && Do(old(Model()), Step.Shutdown) == Ok(Model())
    {
      if state_ == Connected {
        state_, asked := Disconnecting, true;
        ShutdownInLoop();
      }
    }

    method ShutdownInLoop()
      requires Valid()
      modifies this
      ensures Valid() && Model() == HalfClosedState(old(Model()))
    {
      if !channelWriting_ {
        halfCloses := halfCloses + [|accepted|];
      }
    }

    method ForceClose()
      requires Valid()
      modifies this
      ensures Valid() && Do(old(Model()), Step.ForceClose) == Ok(Model())
    {
      if state_ == Connected || state_ == Disconnecting {
        state_, queuedCloses_ := Disconnecting, queuedCloses_ + 1;
      }
    }

    method ForceCloseInLoop()
      requires Valid() && queuedCloses_ > 0
      modifies this
      ensures Valid() && Do(old(Model()), Step.ForceCloseInLoop) == Ok(Model())
    {
      queuedCloses_ := queuedCloses_ - 1;
      if state_ == Connected || state_ == Disconnecting {
        HandleClose();
      }
    }

    method HandleClose()
      requires Valid() && (state_ == Connected || state_ == Disconnecting)
      modifies this
      ensures Valid() && Do(old(Model()), Step.HandleClose) == Ok(Model())
    {
      state_, channelWriting_ := Disconnected, false;
    }

    method ConnectDestroyed()
      requires Valid() && Do(Model(), Step.ConnectDestroyed).Ok?
      modifies this
      ensures Valid() && Do(old(Model()), Step.ConnectDestroyed) == Ok(Model())
    {
      if state_ == Connected {
        state_, channelWriting_ := Disconnected, false;
      }
      channelRemoved_ := true;
    }
  }
}
