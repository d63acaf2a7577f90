/** The double-buffered logger of src/base/src/AsyncLogging.cc as atomic steps: any thread appends a
    line; the logging thread swaps the buffers under the lock, trims, writes and recycles. */
module AsyncLoggings {
  import opened Outcomes
  import opened LogStreams
  import opened Sequences

  const MAX_BATCH: nat := 25

  /** A unique_ptr to a buffer: null after a move, otherwise the owner of the buffer's contents. */
  datatype Pointer = Null | Buffer(data: string)

  datatype Item = Notice(dropped: nat) | Data(data: string)

  /** Where the logging thread stands: at the loop head, after the locked swap, or about to write the
      k-th buffer of its batch. */
  datatype Place = Head | Swapped | Writing(k: nat)

  datatype State = State(
    current: Pointer,            // currentBuffer_
    next: Pointer,               // nextBuffer_
    buffers: seq<Pointer>,       // buffers_
    spare1: Pointer,             // newBuffer1
    spare2: Pointer,             // newBuffer2
    batch: seq<Pointer>,         // buffersToWrite
    place: Place,
    output: seq<Item>,
    appended: seq<string>,       // history: every line passed to append
    taken: seq<seq<string>>)     // history: the contents of every batch taken by the swap

  function Initial(): State {
    State(Buffer(""), Buffer(""), [], Buffer(""), Buffer(""), [], Head, [], [], [])
  }

  function AppendLine(s: State, line: string): Outcome<State> {
    if s.current.Null? then Fault else
    var s' := s.(appended := s.appended + [line]);
    if LARGE_BUFFER - |s.current.data| > |line| then
      Ok(s'.(current := Buffer(FixedAppend(LARGE_BUFFER, s.current.data, line))))
    else
      var start := if s.next.Buffer? then s.next.data else "";
      Ok(s'.(buffers := s.buffers + [s.current], next := Null,
             current := Buffer(FixedAppend(LARGE_BUFFER, start, line))))
  }

  function DataOf(ps: seq<Pointer>): (r: seq<string>)
    ensures |r| == |ps|
    ensures forall i :: 0 <= i < |ps| && ps[i].Buffer? ==> r[i] == ps[i].data
  {
    seq(|ps|, i requires 0 <= i < |ps| => if ps[i].Buffer? then ps[i].data else "")
  }

  /** The critical section of the logging thread, once the wait is over for whatever reason. */
  function Swap(s: State): Outcome<State>
    requires s.place.Head?
  {
    if s.spare1 != Buffer("") || s.spare2 != Buffer("") || s.batch != [] then Fault else
    var full := s.buffers + [s.current];
    Ok(s.(current := s.spare1, spare1 := Null, buffers := [], batch := full,
          next := if s.next.Null? then s.spare2 else s.next,
          spare2 := if s.next.Null? then Null else s.spare2,
          place := Swapped, taken := s.taken + [DataOf(full)]))
  }

  function Trim(s: State): Outcome<State>
    requires s.place.Swapped?
  {
    if s.batch == [] then Fault
    else if |s.batch| > MAX_BATCH then
      Ok(s.(output := s.output + [Notice(|s.batch| - 2)], batch := s.batch[..2], place := Writing(0)))
    else
      Ok(s.(place := Writing(0)))
  }

  function WriteOne(s: State): Outcome<State>
    requires s.place.Writing? && s.place.k < |s.batch|
  {
    if s.batch[s.place.k].Null? then Fault
    else Ok(s.(output := s.output + [Data(s.batch[s.place.k].data)], place := Writing(s.place.k + 1)))
  }

  /** Refill one spare from the back of the batch. */
  function Refill(spare: Pointer, batch: seq<Pointer>): Outcome<(Pointer, seq<Pointer>)> {
    if spare.Buffer? then Ok((spare, batch))
    else if batch == [] || batch[|batch| - 1].Null? then Fault
    else Ok((Buffer(""), batch[..|batch| - 1]))
  }

  function Recycle(s: State): Outcome<State>
    requires s.place.Writing?
  {
    var kept := if |s.batch| > 2 then s.batch[..2] else s.batch;
    var (spare1, rest) :- Refill(s.spare1, kept);
    var (spare2, _) :- Refill(s.spare2, rest);
    Ok(s.(spare1 := spare1, spare2 := spare2, batch := [], place := Head))
  }

  // ---------------------------------------------------------------- runs

  datatype Step = Log(line: string) | Work

  /** `Work` is the logging thread's next step, whatever it is. */
  function Do(s: State, step: Step): Outcome<State> {
    match step
    case Log(line) => AppendLine(s, line)
    case Work =>
      match s.place
      case Head => Swap(s)
      case Swapped => Trim(s)
      case Writing(k) => if k < |s.batch| then WriteOne(s) else Recycle(s)
  }

  function Run(s: State, steps: seq<Step>): Outcome<State>
    decreases |steps|
  {
    if steps == [] then Ok(s) else
    var s' :- Do(s, steps[0]);
    Run(s', steps[1..])
  }

  // ---------------------------------------------------------------- what is promised

  function Concat(parts: seq<string>): string {
    if parts == [] then "" else Concat(parts[..|parts| - 1]) + parts[|parts| - 1]
  }

  function Join(groups: seq<seq<string>>): seq<string> {
    if groups == [] then [] else Join(groups[..|groups| - 1]) + groups[|groups| - 1]
  }

  /** The lines that are not too long for any buffer. */
  function Loggable(lines: seq<string>): seq<string> {
    if lines == [] then []
    else
      var last := lines[|lines| - 1];
      Loggable(lines[..|lines| - 1]) + (if |last| < LARGE_BUFFER then [last] else [])
  }

  /** Everything that was ever filled, oldest first: the batches taken, buffers_, currentBuffer_. */
  function Pipeline(s: State): seq<string> {
    Join(s.taken) + DataOf(s.buffers) + DataOf([s.current])
  }

  /** `groups` cuts the loggable lines into consecutive groups of whole lines, one for each buffer. */
  ghost predicate WholeLines(groups: seq<seq<string>>, lines: seq<string>, buffers: seq<string>) {
    && |groups| == |buffers|
    && (forall i :: 0 <= i < |groups| ==> Concat(groups[i]) == buffers[i])
    && Join(groups) == Loggable(lines)
  }

  /** What survives of a batch: of more than 25 buffers, the first two. */
  function Survivors(batch: seq<string>): seq<string> {
    if |batch| > MAX_BATCH then batch[..2] else batch
  }

  function Header(batch: seq<string>): seq<Item> {
    if |batch| > MAX_BATCH then [Notice(|batch| - 2)] else []
  }

  /** What a batch looks like in the file. */
  function Printed(batch: seq<string>): seq<Item> {
    Header(batch) + Items(Survivors(batch))
  }

  function Items(batch: seq<string>): (r: seq<Item>)
    ensures |r| == |batch| && forall i :: 0 <= i < |batch| ==> r[i] == Data(batch[i])
  {
    seq(|batch|, i requires 0 <= i < |batch| => Data(batch[i]))
  }

  function PrintedAll(batches: seq<seq<string>>): seq<Item> {
    if batches == [] then [] else PrintedAll(batches[..|batches| - 1]) + Printed(batches[|batches| - 1])
  }

  predicate NoNull(ps: seq<Pointer>) {
    forall i :: 0 <= i < |ps| ==> ps[i].Buffer?
  }

  /** No null pointer where one would be dereferenced, and enough buffers to recycle. */
  predicate Stocked(s: State) {
    && s.current.Buffer? && NoNull(s.buffers) && NoNull(s.batch)
    && (s.next.Buffer? ==> s.next.data == "")
    && (s.next.Null? ==> s.buffers != [])
    && match s.place
       case Head => s.spare1 == Buffer("") && s.spare2 == Buffer("") && s.batch == []
       case _ =>
         && s.spare1.Null? && s.batch != []
         && (s.spare2.Null? ==> |s.batch| >= 2) && (s.spare2.Buffer? ==> s.spare2.data == "")
  }

  /** The file holds every batch taken so far, printed in order, the last one as far as it has got;
      `data` is what buffersToWrite holds. */
  predicate OutputFollows(place: Place, output: seq<Item>, taken: seq<seq<string>>, data: seq<string>) {
    if place.Head? then
      output == PrintedAll(taken)
    else
      && taken != []
      && var front, last := taken[..|taken| - 1], taken[|taken| - 1];
         if place.Swapped? then
           data == last && output == PrintedAll(front)
         else
           && data == Survivors(last) && place.k <= |data|
           && output == PrintedAll(front) + Header(last) + Items(data[..place.k])
  }

  ghost predicate Grouped(lines: seq<string>, buffers: seq<string>) {
    exists groups :: WholeLines(groups, lines, buffers)
  }

  ghost predicate Inv(s: State) {
    && Stocked(s)
    && OutputFollows(s.place, s.output, s.taken, DataOf(s.batch))
    && Grouped(s.appended, Pipeline(s))
  }

  // ---------------------------------------------------------------- proofs

  lemma JoinSnoc(groups: seq<seq<string>>, g: seq<string>)
    ensures Join(groups + [g]) == Join(groups) + g
  {
    assert (groups + [g])[..|groups|] == groups;
  }

  lemma ConcatSnoc(parts: seq<string>, p: string)
    ensures Concat(parts + [p]) == Concat(parts) + p
  {
    assert (parts + [p])[..|parts|] == parts;
  }

  lemma LoggableSnoc(lines: seq<string>, line: string)
    ensures Loggable(lines + [line]) == Loggable(lines) + (if |line| < LARGE_BUFFER then [line] else [])
  {
    assert (lines + [line])[..|lines|] == lines;
  }

  lemma PrintedAllSnoc(batches: seq<seq<string>>, b: seq<string>)
    ensures PrintedAll(batches + [b]) == PrintedAll(batches) + Printed(b)
  {
    assert (batches + [b])[..|batches|] == batches;
  }

  lemma PipelineEnds(s: State)
    requires s.current.Buffer?
    ensures Pipeline(s) == Join(s.taken) + DataOf(s.buffers) + [s.current.data]
  {
    assert DataOf([s.current]) == [s.current.data];
  }

  lemma JoinLast(front: seq<seq<string>>, g: seq<string>, line: string)
    ensures Join(front + [g + [line]]) == Join(front + [g]) + [line]
  {
    JoinSnoc(front, g);
    JoinSnoc(front, g + [line]);
    assert Join(front) + (g + [line]) == Join(front) + g + [line];
  }

  lemma WholeLinesGrow(front: seq<seq<string>>, g: seq<string>, lines: seq<string>, buffers: seq<string>,
                       last: string, line: string)
    requires WholeLines(front + [g], lines, buffers + [last]) && |line| < LARGE_BUFFER
    ensures WholeLines(front + [g + [line]], lines + [line], buffers + [last + line])
  {
    var groups, groups' := front + [g], front + [g + [line]];
    JoinLast(front, g, line);
    LoggableSnoc(lines, line);
    ConcatSnoc(g, line);
    assert groups[|front|] == g && (buffers + [last])[|front|] == last;
    forall i | 0 <= i < |groups'|
      ensures Concat(groups'[i]) == (buffers + [last + line])[i]
    {
      assert i < |front| ==> groups'[i] == groups[i] && (buffers + [last])[i] == buffers[i];
    }
  }

  /** A line that fits joins the last group. */
  lemma GroupGrows(lines: seq<string>, front: seq<string>, last: string, line: string)
    requires Grouped(lines, front + [last]) && |line| < LARGE_BUFFER
    ensures Grouped(lines + [line], front + [last + line])
  {
    var groups :| WholeLines(groups, lines, front + [last]);
    var n := |groups| - 1;
    assert groups == groups[..n] + [groups[n]];
    WholeLinesGrow(groups[..n], groups[n], lines, front, last, line);
  }

  lemma GroupOpens(lines: seq<string>, buffers: seq<string>)
    requires Grouped(lines, buffers)
    ensures Grouped(lines, buffers + [""])
  {
    var groups :| WholeLines(groups, lines, buffers);
    JoinSnoc(groups, []);
    assert WholeLines(groups + [[]], lines, buffers + [""]);
  }

  /** A new buffer starts a new group, with the new line if it is short enough. */
  lemma GroupStarts(lines: seq<string>, buffers: seq<string>, line: string)
    requires Grouped(lines, buffers)
    ensures Grouped(lines + [line], buffers + [if |line| < LARGE_BUFFER then line else ""])
  {
    GroupOpens(lines, buffers);
    if |line| < LARGE_BUFFER {
      GroupGrows(lines, buffers, "", line);
      assert "" + line == line;
    } else {
      var groups :| WholeLines(groups, lines, buffers + [""]);
      LoggableSnoc(lines, line);
      assert WholeLines(groups, lines + [line], buffers + [""]);
    }
  }

  lemma DataOfSnoc(ps: seq<Pointer>, p: Pointer)
    requires p.Buffer?
    ensures DataOf(ps + [p]) == DataOf(ps) + [p.data]
  {
  }

  lemma AppendPipeline(s: State, line: string)
    requires Stocked(s)
    ensures AppendLine(s, line).Ok? && Stocked(AppendLine(s, line).value)
    ensures var s' := AppendLine(s, line).value;
            if LARGE_BUFFER - |s.current.data| > |line| then
              Pipeline(s') == Join(s.taken) + DataOf(s.buffers) + [s.current.data + line]
            else
              Pipeline(s') == Pipeline(s) + [if |line| < LARGE_BUFFER then line else ""]
  {
    var s' := AppendLine(s, line).value;
    PipelineEnds(s);
    PipelineEnds(s');
    DataOfSnoc(s.buffers, s.current);
    assert "" + line == line;
  }

  lemma AppendKeeps(s: State, line: string)
    requires Inv(s)
    ensures AppendLine(s, line).Ok? && Inv(AppendLine(s, line).value)
  {
    AppendPipeline(s, line);
    if LARGE_BUFFER - |s.current.data| > |line| {
      PipelineEnds(s);
      GroupGrows(s.appended, Join(s.taken) + DataOf(s.buffers), s.current.data, line);
    } else {
      GroupStarts(s.appended, Pipeline(s), line);
    }
  }

  lemma SwapStocks(s: State)
    requires Stocked(s) && s.place.Head?
    ensures Swap(s).Ok? && Stocked(Swap(s).value)
    ensures var s' := Swap(s).value;
            s'.buffers == [] && s'.current.Buffer? && s'.taken == s.taken + [DataOf(s.buffers + [s.current])]
  {
  }

  lemma FullPipeline(taken: seq<seq<string>>, buffers: seq<Pointer>, current: Pointer)
    requires current.Buffer?
    ensures Join(taken + [DataOf(buffers + [current])]) == Join(taken) + DataOf(buffers) + [current.data]
  {
    DataOfSnoc(buffers, current);
    JoinSnoc(taken, DataOf(buffers) + [current.data]);
    assert Join(taken) + (DataOf(buffers) + [current.data]) == Join(taken) + DataOf(buffers) + [current.data];
  }

  lemma SwapPipeline(s: State, s': State)
    requires s.current.Buffer? && s'.current.Buffer? && s'.buffers == []
    requires s'.taken == s.taken + [DataOf(s.buffers + [s.current])]
    ensures Pipeline(s') == Pipeline(s) + [s'.current.data]
  {
    PipelineEnds(s);
    PipelineEnds(s');
    FullPipeline(s.taken, s.buffers, s.current);
    assert Pipeline(s) + DataOf(s'.buffers) == Pipeline(s);
  }

  lemma SwapKeeps(s: State)
    requires Inv(s) && s.place.Head?
    ensures Swap(s).Ok? && Inv(Swap(s).value)
  {
    SwapStocks(s);
    SwapPipeline(s, Swap(s).value);
    GroupOpens(s.appended, Pipeline(s));
    var s' := Swap(s).value;
    assert s'.taken[..|s'.taken| - 1] == s.taken;
  }

  lemma TrimKeeps(s: State)
    requires Inv(s) && s.place.Swapped?
    ensures Trim(s).Ok? && Inv(Trim(s).value)
  {
    var s' := Trim(s).value;
    if |s.batch| > MAX_BATCH {
      assert DataOf(s.batch[..2]) == DataOf(s.batch)[..2];
    }
    assert DataOf(s'.batch)[..0] == [] && Items([]) == [];
  }

  lemma WriteOneKeeps(s: State)
    requires Inv(s) && s.place.Writing? && s.place.k < |s.batch|
    ensures WriteOne(s).Ok? && Inv(WriteOne(s).value)
  {
    var k, data := s.place.k, DataOf(s.batch);
    assert Items(data[..k + 1]) == Items(data[..k]) + [Data(data[k])];
  }

  lemma RecycleStocks(s: State)
    requires Stocked(s) && s.place.Writing?
    ensures Recycle(s).Ok? && Stocked(Recycle(s).value)
    ensures var s' := Recycle(s).value;
            s' == s.(spare1 := s'.spare1, spare2 := s'.spare2, batch := [], place := Head)
  {
  }

  lemma BatchDone(output: seq<Item>, taken: seq<seq<string>>, data: seq<string>)
    requires OutputFollows(Writing(|data|), output, taken, data)
    ensures OutputFollows(Head, output, taken, [])
  {
    var front, last := taken[..|taken| - 1], taken[|taken| - 1];
    assert data[..|data|] == data && front + [last] == taken;
    PrintedAllSnoc(front, last);
    Associate(PrintedAll(front), Header(last), Items(data));
  }

  lemma RecycleKeeps(s: State)
    requires Inv(s) && s.place.Writing? && s.place.k == |s.batch|
    ensures Recycle(s).Ok? && Inv(Recycle(s).value)
  {
    RecycleStocks(s);
    BatchDone(s.output, s.taken, DataOf(s.batch));
  }

  lemma StepKeeps(s: State, step: Step)
    requires Inv(s)
    ensures Do(s, step).Ok? && Inv(Do(s, step).value)
  {
    match step
    case Log(line) => AppendKeeps(s, line);
    case Work =>
      match s.place {
        case Head => SwapKeeps(s);
        case Swapped => TrimKeeps(s);
        case Writing(k) => if k < |s.batch| { WriteOneKeeps(s); } else { RecycleKeeps(s); }
      }
  }

  lemma NoLinesYet()
    ensures Grouped([], [""]) && Join([]) == [] && PrintedAll([]) == []
  {
    var none: seq<seq<string>> := [];
    JoinSnoc(none, []);
    assert none + [[]] == [[]];
    assert WholeLines(none + [[]], [], [""]);
  }

  lemma InitialInv()
    ensures Inv(Initial())
  {
    var s := Initial();
    NoLinesYet();
    PipelineEnds(s);
    assert Pipeline(s) == [""];
  }

  /** In every interleaving of appends with the logging thread no null buffer is used, both spares are
      there and empty at each loop head, every buffer holds whole lines in order, and the file follows
      the batches. */
  lemma {:induction false} EveryRunIsSafe(s: State, steps: seq<Step>)
    requires Inv(s)
    ensures Run(s, steps).Ok? && Inv(Run(s, steps).value)
    decreases |steps|
  {
    if steps != [] {
      StepKeeps(s, steps[0]);
      EveryRunIsSafe(Do(s, steps[0]).value, steps[1..]);
    }
  }

  lemma FromTheStart(steps: seq<Step>)
    ensures Run(Initial(), steps).Ok? && Inv(Run(Initial(), steps).value)
  {
    InitialInv();
    EveryRunIsSafe(Initial(), steps);
  }

  // ---------------------------------------------------------------- bytes

  lemma {:induction false} ConcatAppend(a: seq<string>, b: seq<string>)
    ensures Concat(a + b) == Concat(a) + Concat(b)
    decreases |b|
  {
    if b == [] {
      assert a + b == a;
    } else {
      var front, last := b[..|b| - 1], b[|b| - 1];
      assert (a + b)[..|a + b| - 1] == a + front;
      ConcatAppend(a, front);
    }
  }

  lemma {:induction false} GroupsConcat(groups: seq<seq<string>>, buffers: seq<string>)
    requires |groups| == |buffers| && forall i :: 0 <= i < |groups| ==> Concat(groups[i]) == buffers[i]
    ensures Concat(Join(groups)) == Concat(buffers)
    decreases |groups|
  {
    if groups != [] {
      var n := |groups| - 1;
      GroupsConcat(groups[..n], buffers[..n]);
      ConcatAppend(Join(groups[..n]), groups[n]);
    }
  }

  function FileBytes(output: seq<Item>): string {
    if output == [] then ""
    else
      var last := output[|output| - 1];
      FileBytes(output[..|output| - 1]) + (if last.Data? then last.data else "")
  }

  lemma {:induction false} FileBytesAppend(a: seq<Item>, b: seq<Item>)
    ensures FileBytes(a + b) == FileBytes(a) + FileBytes(b)
    decreases |b|
  {
    if b == [] {
      assert a + b == a;
    } else {
      assert (a + b)[..|a + b| - 1] == a + b[..|b| - 1];
      FileBytesAppend(a, b[..|b| - 1]);
    }
  }

  lemma {:induction false} ItemsBytes(batch: seq<string>)
    ensures FileBytes(Items(batch)) == Concat(batch)
    decreases |batch|
  {
    if batch != [] {
      var n := |batch| - 1;
      assert Items(batch)[..n] == Items(batch[..n]);
      ItemsBytes(batch[..n]);
    }
  }

  // ---------------------------------------------------------------- what is lost

  /** A batch that keeps all its bytes although only two buffers of a long one are written. */
  predicate Harmless(batch: seq<string>) {
    |batch| > 25 ==> forall i :: 2 <= i < |batch| ==> batch[i] == ""
  }

  predicate AllHarmless(batches: seq<seq<string>>) {
    forall i :: 0 <= i < |batches| ==> Harmless(batches[i])
  }

  predicate AllShort(batches: seq<seq<string>>) {
    forall i :: 0 <= i < |batches| ==> |batches[i]| <= 25
  }

  lemma {:induction false} ConcatEmpty(parts: seq<string>)
    ensures Concat(parts) == "" <==> forall i :: 0 <= i < |parts| ==> parts[i] == ""
    decreases |parts|
  {
    if parts != [] {
      var n := |parts| - 1;
      ConcatEmpty(parts[..n]);
      assert forall i :: 0 <= i < n ==> parts[..n][i] == parts[i];
      assert |Concat(parts)| == |Concat(parts[..n])| + |parts[n]|;
    }
  }

  lemma PrintedBytes(batch: seq<string>)
    ensures FileBytes(Printed(batch)) == Concat(Survivors(batch))
  {
    FileBytesAppend(Header(batch), Items(Survivors(batch)));
    assert FileBytes(Header(batch)) == "" by {
      if |batch| > MAX_BATCH {
        assert Header(batch)[..0] == [];
      }
    }
    ItemsBytes(Survivors(batch));
  }

  lemma TailBytes(batch: seq<string>)
    requires |batch| >= 2
    ensures |Concat(batch)| == |Concat(batch[..2])| + |Concat(batch[2..])|
    ensures |Concat(batch[2..])| == 0 <==> forall i :: 2 <= i < |batch| ==> batch[i] == ""
    ensures |Concat(batch[2..])| == 0 ==> Concat(batch) == Concat(batch[..2])
  {
    assert batch == batch[..2] + batch[2..];
    ConcatAppend(batch[..2], batch[2..]);
    ConcatEmpty(batch[2..]);
    assert forall i :: 2 <= i < |batch| ==> batch[i] == batch[2..][i - 2];
  }

  /** A batch prints no more than its bytes, and all of them exactly when it is harmless. */
  lemma PrintedLoss(batch: seq<string>)
    ensures |FileBytes(Printed(batch))| <= |Concat(batch)|
    ensures |FileBytes(Printed(batch))| == |Concat(batch)| <==> Harmless(batch)
    ensures Harmless(batch) ==> FileBytes(Printed(batch)) == Concat(batch)
  {
    PrintedBytes(batch);
    if |batch| > MAX_BATCH {
      TailBytes(batch);
    }
  }

  lemma AddedLoss(x: string, y: string, p: string, q: string)
    requires |x| <= |y| && |p| <= |q|
    ensures |x + p| <= |y + q| && (|x + p| == |y + q| <==> |x| == |y| && |p| == |q|)
  {
  }

  lemma AllHarmlessSnoc(batches: seq<seq<string>>)
    requires batches != []
    ensures var n := |batches| - 1; AllHarmless(batches) <==> AllHarmless(batches[..n]) && Harmless(batches[n])
  {
    var n := |batches| - 1;
    assert forall i :: 0 <= i < n ==> batches[..n][i] == batches[i];
  }

  lemma {:induction false} PrintedAllLoss(batches: seq<seq<string>>)
    ensures |FileBytes(PrintedAll(batches))| <= |Concat(Join(batches))|
    ensures |FileBytes(PrintedAll(batches))| == |Concat(Join(batches))| <==> AllHarmless(batches)
    ensures AllHarmless(batches) ==> FileBytes(PrintedAll(batches)) == Concat(Join(batches))
    decreases |batches|
  {
    if batches != [] {
      var front, last := batches[..|batches| - 1], batches[|batches| - 1];
      PrintedAllLoss(front);
      PrintedLoss(last);
      FileBytesAppend(PrintedAll(front), Printed(last));
      ConcatAppend(Join(front), last);
      AddedLoss(FileBytes(PrintedAll(front)), Concat(Join(front)), FileBytes(Printed(last)), Concat(last));
      AllHarmlessSnoc(batches);
    }
  }

  /** What the logging thread has taken but not written yet. */
  function Unwritten(s: State): string {
    var data := DataOf(s.batch);
    match s.place
    case Head => ""
    case Swapped => Concat(data)
    case Writing(k) => if k <= |data| then Concat(data[k..]) else ""
  }

  /** The batches that have been through the trimming. */
  function Trimmed(s: State): seq<seq<string>> {
    if s.place.Swapped? && s.taken != [] then s.taken[..|s.taken| - 1] else s.taken
  }

  function Untrimmed(s: State): string {
    if s.place.Swapped? then Concat(DataOf(s.batch)) else ""
  }

  lemma BatchInProgress(front: seq<Item>, data: seq<string>, k: nat)
    requires k <= |data|
    ensures FileBytes(front + Items(data[..k])) + Concat(data[k..]) == FileBytes(front) + Concat(data)
  {
    FileBytesAppend(front, Items(data[..k]));
    ItemsBytes(data[..k]);
    assert data == data[..k] + data[k..];
    ConcatAppend(data[..k], data[k..]);
  }

  lemma WritingBytes(output: seq<Item>, taken: seq<seq<string>>, data: seq<string>, k: nat)
    requires OutputFollows(Writing(k), output, taken, data)
    ensures FileBytes(output) + Concat(data[k..]) == FileBytes(PrintedAll(taken))
  {
    var front, last := taken[..|taken| - 1], taken[|taken| - 1];
    assert front + [last] == taken;
    PrintedAllSnoc(front, last);
    BatchInProgress(PrintedAll(front) + Header(last), data, k);
    BatchInProgress(PrintedAll(front) + Header(last), data, |data|);
    assert data[..|data|] == data && data[|data|..] == [];
    Associate(PrintedAll(front), Header(last), Items(data));
  }

  lemma WrittenAndUnwritten(s: State)
    requires Inv(s)
    ensures FileBytes(s.output) + Unwritten(s) == FileBytes(PrintedAll(Trimmed(s))) + Untrimmed(s)
  {
    if s.place.Writing? {
      WritingBytes(s.output, s.taken, DataOf(s.batch), s.place.k);
    }
  }

  lemma TakenSplits(s: State)
    requires Inv(s)
    ensures Concat(Join(s.taken)) == Concat(Join(Trimmed(s))) + Untrimmed(s)
  {
    if s.place.Swapped? {
      ConcatAppend(Join(Trimmed(s)), DataOf(s.batch));
    }
  }

  /** The bytes in the file, then the batch being written, then buffers_, then currentBuffer_. */
  function Everything(s: State): string
    requires s.current.Buffer?
  {
    FileBytes(s.output) + Unwritten(s) + Concat(DataOf(s.buffers)) + s.current.data
  }

  /** The lines are all in the batches taken, buffers_ and currentBuffer_, in order. */
  lemma LinesArePipeline(s: State)
    requires Inv(s)
    ensures Concat(Join(s.taken)) + Concat(DataOf(s.buffers)) + s.current.data == Concat(Loggable(s.appended))
  {
    var groups :| WholeLines(groups, s.appended, Pipeline(s));
    GroupsConcat(groups, Pipeline(s));
    PipelineEnds(s);
    ConcatAppend(Join(s.taken), DataOf(s.buffers));
    ConcatSnoc(Join(s.taken) + DataOf(s.buffers), s.current.data);
  }

  lemma SameRest(x: string, y: string, a: string, b: string, c: string)
    requires |x| <= |y| && (|x| == |y| ==> x == y)
    ensures x + a + b + c == y + a + b + c <==> |x| == |y|
    ensures |x + a + b + c| <= |y + a + b + c|
  {
  }

  /** Nothing of the loggable lines is lost exactly when every trimmed batch was harmless. */
  lemma LossExactly(s: State)
    requires Inv(s)
    ensures Everything(s) == Concat(Loggable(s.appended)) <==> AllHarmless(Trimmed(s))
    ensures |Everything(s)| == |Concat(Loggable(s.appended))| ==> Everything(s) == Concat(Loggable(s.appended))
    ensures |Everything(s)| <= |Concat(Loggable(s.appended))|
  {
    var x, y := FileBytes(PrintedAll(Trimmed(s))), Concat(Join(Trimmed(s)));
    WrittenAndUnwritten(s);
    TakenSplits(s);
    LinesArePipeline(s);
    PrintedAllLoss(Trimmed(s));
    SameRest(x, y, Untrimmed(s), Concat(DataOf(s.buffers)), s.current.data);
  }

  // ---------------------------------------------------------------- lines that fit

  predicate LinesFit(lines: seq<string>) {
    forall i :: 0 <= i < |lines| ==> |lines[i]| < 4_000_000
  }

  lemma LinesFitSnoc(lines: seq<string>, line: string)
    ensures LinesFit(lines + [line]) <==> LinesFit(lines) && |line| < LARGE_BUFFER
  {
    if LinesFit(lines + [line]) {
      assert forall i :: 0 <= i < |lines| ==> (lines + [line])[i] == lines[i];
      assert (lines + [line])[|lines|] == line;
    }
  }

  lemma {:induction false} LoggableLines(lines: seq<string>)
    ensures |Loggable(lines)| <= |lines| && (|Loggable(lines)| == |lines| <==> LinesFit(lines))
    ensures LinesFit(lines) ==> Loggable(lines) == lines
    decreases |lines|
  {
    if lines != [] {
      var front, last := lines[..|lines| - 1], lines[|lines| - 1];
      assert lines == front + [last];
      LoggableLines(front);
      LinesFitSnoc(front, last);
    }
  }

  lemma {:induction false} LoggableBytes(lines: seq<string>)
    ensures |Concat(Loggable(lines))| <= |Concat(lines)|
    ensures |Concat(Loggable(lines))| == |Concat(lines)| <==> LinesFit(lines)
    decreases |lines|
  {
    if lines != [] {
      var front, last := lines[..|lines| - 1], lines[|lines| - 1];
      assert lines == front + [last];
      LoggableBytes(front);
      LinesFitSnoc(front, last);
      LoggableSnoc(front, last);
      if |last| < LARGE_BUFFER {
        ConcatSnoc(Loggable(front), last);
      } else {
        assert Loggable(front) + [] == Loggable(front);
      }
    }
  }

  /** Logging keeps all lines, and all their bytes, exactly when each is shorter than a buffer. */
  lemma AllLoggableExactly(lines: seq<string>)
    ensures Loggable(lines) == lines <==> LinesFit(lines)
    ensures |Concat(Loggable(lines))| <= |Concat(lines)|
    ensures |Concat(Loggable(lines))| == |Concat(lines)| <==> LinesFit(lines)
  {
    LoggableLines(lines);
    LoggableBytes(lines);
  }

  predicate AllButLastFilled(batch: seq<string>) {
    forall i :: 0 <= i < |batch| - 1 ==> batch[i] != ""
  }

  /** Only the swap takes a buffer before it is full, and it takes it last. */
  predicate Filled(s: State) {
    LinesFit(s.appended) ==>
      && (forall i :: 0 <= i < |s.buffers| ==> DataOf(s.buffers)[i] != "")
      && (forall i :: 0 <= i < |s.taken| ==> AllButLastFilled(s.taken[i]))
  }

  lemma AppendFills(s: State, line: string)
    requires Filled(s) && AppendLine(s, line).Ok?
    ensures Filled(AppendLine(s, line).value)
  {
    var s' := AppendLine(s, line).value;
    if LinesFit(s'.appended) {
      assert s'.appended[|s.appended|] == line;
      assert forall i :: 0 <= i < |s.appended| ==> s'.appended[i] == s.appended[i];
      if s'.buffers != s.buffers {
        DataOfSnoc(s.buffers, s.current);
      }
    }
  }

  lemma SwapFills(s: State)
    requires Filled(s) && s.place.Head? && s.current.Buffer? && Swap(s).Ok?
    ensures Filled(Swap(s).value)
  {
    DataOfSnoc(s.buffers, s.current);
  }

  lemma StepFills(s: State, step: Step)
    requires Inv(s) && Filled(s)
    ensures Do(s, step).Ok? && Filled(Do(s, step).value)
  {
    StepKeeps(s, step);
    if step.Log? {
      AppendFills(s, step.line);
    } else if s.place.Head? {
      SwapFills(s);
    } else if s.place.Writing? && s.place.k == |s.batch| {
      RecycleStocks(s);
    }
  }

  lemma {:induction false} RunFills(s: State, steps: seq<Step>)
    requires Inv(s) && Filled(s)
    ensures Run(s, steps).Ok? && Filled(Run(s, steps).value)
    decreases |steps|
  {
    if steps != [] {
      StepKeeps(s, steps[0]);
      StepFills(s, steps[0]);
      RunFills(Do(s, steps[0]).value, steps[1..]);
    }
  }

  /** When the lines fit, only a batch of at most 25 buffers is harmless. */
  lemma HarmlessIsShort(s: State)
    requires Filled(s) && LinesFit(s.appended)
    ensures AllHarmless(Trimmed(s)) <==> AllShort(Trimmed(s))
  {
    forall i | 0 <= i < |Trimmed(s)|
      ensures Harmless(Trimmed(s)[i]) <==> |Trimmed(s)[i]| <= MAX_BATCH
    {
      assert Trimmed(s)[i] == s.taken[i] && AllButLastFilled(s.taken[i]);
      if |s.taken[i]| > MAX_BATCH {
        assert s.taken[i][2] != "";
      }
    }
  }

  function LinesOf(steps: seq<Step>): seq<string> {
    if steps == [] then [] else (if steps[0].Log? then [steps[0].line] else []) + LinesOf(steps[1..])
  }

  lemma DoAppends(s: State, step: Step)
    requires Do(s, step).Ok?
    ensures Do(s, step).value.appended == s.appended + (if step.Log? then [step.line] else [])
  {
  }

  lemma {:induction false} RunAppends(s: State, steps: seq<Step>)
    requires Run(s, steps).Ok?
    ensures Run(s, steps).value.appended == s.appended + LinesOf(steps)
    decreases |steps|
  {
    if steps != [] {
      DoAppends(s, steps[0]);
      RunAppends(Do(s, steps[0]).value, steps[1..]);
      Associate(s.appended, if steps[0].Log? then [steps[0].line] else [], LinesOf(steps[1..]));
    }
  }

  // ---------------------------------------------------------------- main results

  lemma AtAnyStep(steps: seq<Step>) returns (s: State)
    ensures Run(Initial(), steps) == Ok(s) && Inv(s) && Filled(s) && s.appended == LinesOf(steps)
  {
    FromTheStart(steps);
    InitialInv();
    RunFills(Initial(), steps);
    s := Run(Initial(), steps).value;
    RunAppends(Initial(), steps);
  }

  /** Conservation, at any step of any run: the batches taken, then buffers_, then currentBuffer_ are
      all the lines shorter than a buffer, in the order they were appended. At the loop head the file
      is the batches, each printed as far as the trimming leaves it. */
  lemma StreamIsConserved(steps: seq<Step>)
    ensures Run(Initial(), steps).Ok?
    ensures var s := Run(Initial(), steps).value;
            && s.current.Buffer?
            && Concat(Join(s.taken)) + Concat(DataOf(s.buffers)) + s.current.data == Concat(Loggable(LinesOf(steps)))
            && (s.place.Head? ==> s.output == PrintedAll(s.taken))
  {
    var s := AtAnyStep(steps);
    LinesArePipeline(s);
  }

  /** At any step of any run, nothing of the lines shorter than a buffer is lost if and only if each
      trimmed batch of more than 25 buffers had only empty ones from the third on. */
  lemma NoLossExactly(steps: seq<Step>)
    ensures Run(Initial(), steps).Ok? && Run(Initial(), steps).value.current.Buffer?
    ensures var s := Run(Initial(), steps).value;
            Everything(s) == Concat(Loggable(LinesOf(steps))) <==> AllHarmless(Trimmed(s))
  {
    var s := AtAnyStep(steps);
    LossExactly(s);
  }

  /** In particular as long as no batch exceeds 25 buffers; and when every line is shorter than a
      buffer, then only so long. */
  lemma NoOverflowNoLoss(steps: seq<Step>)
    ensures Run(Initial(), steps).Ok? && Run(Initial(), steps).value.current.Buffer?
    ensures var s := Run(Initial(), steps).value;
            AllShort(Trimmed(s)) ==> Everything(s) == Concat(Loggable(LinesOf(steps)))
    ensures var s := Run(Initial(), steps).value;
            LinesFit(LinesOf(steps)) ==> (Everything(s) == Concat(Loggable(LinesOf(steps))) <==> AllShort(Trimmed(s)))
  {
    var s := AtAnyStep(steps);
    LossExactly(s);
    if LinesFit(s.appended) {
      HarmlessIsShort(s);
    }
  }

  /** Every byte appended is in the file, in the batch being written or in a buffer, in order, if and
      only if every line is shorter than a buffer and no trimmed batch exceeded 25 buffers. */
  lemma NothingLostExactly(steps: seq<Step>)
    ensures Run(Initial(), steps).Ok? && Run(Initial(), steps).value.current.Buffer?
    ensures var s := Run(Initial(), steps).value;
            Everything(s) == Concat(LinesOf(steps)) <==> LinesFit(LinesOf(steps)) && AllShort(Trimmed(s))
  {
    var s := AtAnyStep(steps);
    AllLoggableExactly(s.appended);
    LossExactly(s);
    if LinesFit(s.appended) {
      HarmlessIsShort(s);
    }
  }

  // ---------------------------------------------------------------- a run that loses bytes

  function Works(n: nat): seq<Step> {
    seq(n, _ => Work)
  }

  lemma RunCons(s: State, step: Step, rest: seq<Step>)
    requires Do(s, step).Ok?
    ensures Run(s, [step] + rest) == Run(Do(s, step).value, rest)
  {
    assert ([step] + rest)[1..] == rest;
  }

  /** After `n` lines that each fill a buffer. */
  function Logged(n: nat, line: string): State
    requires n > 0
  {
    State(Buffer(line), if n == 1 then Buffer("") else Null, seq(n - 1, _ => Buffer(line)), Buffer(""), Buffer(""),
          [], Head, [], seq(n, _ => line), [])
  }

  function Logs(n: nat, line: string): seq<Step> {
    seq(n, _ => Log(line))
  }

  lemma LogOne(n: nat, line: string)
    requires n > 0 && |line| == LARGE_BUFFER - 1
    ensures AppendLine(Logged(n, line), line) == Ok(Logged(n + 1, line))
  {
    assert "" + line == line;
    assert Logged(n, line).buffers + [Buffer(line)] == Logged(n + 1, line).buffers;
    assert Logged(n, line).appended + [line] == Logged(n + 1, line).appended;
  }

  lemma LogFirst(line: string)
    requires |line| == LARGE_BUFFER - 1
    ensures AppendLine(Initial(), line) == Ok(Logged(1, line))
  {
    assert "" + line == line;
    assert Initial().appended + [line] == Logged(1, line).appended && Logged(1, line).buffers == [];
  }

  lemma {:induction false} LogMore(n: nat, k: nat, line: string, rest: seq<Step>)
    requires n > 0 && |line| == LARGE_BUFFER - 1
    ensures Run(Logged(n, line), Logs(k, line) + rest) == Run(Logged(n + k, line), rest)
    decreases k
  {
    if k == 0 {
      assert Logs(k, line) + rest == rest;
    } else {
      LogOne(n, line);
      assert Logs(k, line) + rest == [Log(line)] + (Logs(k - 1, line) + rest);
      RunCons(Logged(n, line), Log(line), Logs(k - 1, line) + rest);
      LogMore(n + 1, k - 1, line, rest);
    }
  }

  lemma WorkOnce(s: State, n: nat) returns (t: State)
    requires Inv(s) && n > 0
    ensures Do(s, Work) == Ok(t) && Inv(t) && Run(s, Works(n)) == Run(t, Works(n - 1))
  {
    StepKeeps(s, Work);
    WorksCons(n);
    RunCons(s, Work, Works(n - 1));
    t := Do(s, Work).value;
  }

  /** The logging thread's steps from inside the writing loop to the next loop head. */
  lemma {:induction false} FinishBatch(s: State, k: nat, n: nat)
    requires Inv(s) && s.place == Writing(k) && k + n == |s.batch| + 1 && n > 0
    ensures Run(s, Works(n)).Ok?
    ensures Run(s, Works(n)).value.place.Head? && Run(s, Works(n)).value.taken == s.taken
    decreases n
  {
    var t := WorkOnce(s, n);
    if n == 1 {
      RecycleStocks(s);
      assert Works(0) == [];
    } else {
      FinishBatch(t, k + 1, n - 1);
    }
  }

  /** Swap, trim, write two buffers, recycle. */
  lemma OverflowRound(s: State, n: nat)
    requires Inv(s) && s.place.Head? && |s.buffers| >= MAX_BATCH && n == 5
    ensures Run(s, Works(n)).Ok? && Run(s, Works(n)).value.place.Head?
    ensures Run(s, Works(n)).value.taken == s.taken + [DataOf(s.buffers + [s.current])]
  {
    var s1 := WorkOnce(s, n);
    assert s1 == Swap(s).value;
    var s2 := WorkOnce(s1, n - 1);
    assert s2 == Trim(s1).value;
    FinishBatch(s2, 0, n - 2);
  }

  /** Twenty-six lines of a buffer's length before the logging thread wakes, and one round of it. */
  lemma OverflowLosesBytes(line: string)
    requires |line| == LARGE_BUFFER - 1
    ensures var steps := Logs(26, line) + Works(5);
            && Run(Initial(), steps).Ok? && Run(Initial(), steps).value.current.Buffer?
            && Run(Initial(), steps).value.place.Head?
            && Everything(Run(Initial(), steps).value) != Concat(LinesOf(steps))
  {
    var steps := Logs(26, line) + Works(5);
    LogFirst(line);
    assert steps == [Log(line)] + (Logs(25, line) + Works(5));
    RunCons(Initial(), Log(line), Logs(25, line) + Works(5));
    LogMore(1, 25, line, Works(5));
    var full := Logged(26, line);
    assert Logs(26, line) + [] == [Log(line)] + (Logs(25, line) + []);
    RunCons(Initial(), Log(line), Logs(25, line) + []);
    LogMore(1, 25, line, []);
    FromTheStart(Logs(26, line) + []);
    OverflowRound(full, 5);
    NothingLostExactly(steps);
    var t := Run(Initial(), steps).value;
    assert |t.taken[0]| == 26 && Trimmed(t) == t.taken;
  }

  // ---------------------------------------------------------------- the object

  /** The fields change in place; unique_ptr ownership makes buffers values here. */
  class AsyncLogging {
    var currentBuffer_: Pointer
    var nextBuffer_: Pointer
    var buffers_: seq<Pointer>
    // locals of threadFunc
    var newBuffer1: Pointer
    var newBuffer2: Pointer
    var buffersToWrite: seq<Pointer>
    var output: seq<Item>
    ghost var place: Place
    ghost var appended: seq<string>
    ghost var taken: seq<seq<string>>

    ghost function Model(): State
      reads this
    {
      State(currentBuffer_, nextBuffer_, buffers_, newBuffer1, newBuffer2, buffersToWrite, place, output,
            appended, taken)
    }

    constructor ()
      ensures Model() == Initial()
    {
      currentBuffer_, nextBuffer_, buffers_ := Buffer(""), Buffer(""), [];
      newBuffer1, newBuffer2, buffersToWrite, output := Buffer(""), Buffer(""), [], [];
      place, appended, taken := Head, [], [];
    }

    /** The critical section of append; `notify` tells whether it wakes the logging thread. */
    method Append(logline: string) returns (notify: bool)
      requires AppendLine(Model(), logline).Ok?
      modifies this
      ensures Ok(Model()) == AppendLine(old(Model()), logline)
      ensures notify <==> buffers_ != old(buffers_)
    {
      notify := LARGE_BUFFER - |currentBuffer_.data| <= |logline|;
      appended := appended + [logline];
      if LARGE_BUFFER - |currentBuffer_.data| > |logline| {
        currentBuffer_ := Buffer(FixedAppend(LARGE_BUFFER, currentBuffer_.data, logline));
      } else {
        buffers_ := buffers_ + [currentBuffer_];
        if nextBuffer_.Buffer? {
          currentBuffer_, nextBuffer_ := nextBuffer_, Null;
        } else {
          currentBuffer_ := Buffer("");
        }
        currentBuffer_ := Buffer(FixedAppend(LARGE_BUFFER, currentBuffer_.data, logline));
      }
    }

    /** The critical section of threadFunc. */
    method SwapBuffers()
      requires place.Head? && Swap(Model()).Ok?
      modifies this
      ensures Ok(Model()) == Swap(old(Model()))
    {
      assert newBuffer1.Buffer? && newBuffer1.data == "";
      assert newBuffer2.Buffer? && newBuffer2.data == "";
      assert buffersToWrite == [];
      buffers_ := buffers_ + [currentBuffer_];
      currentBuffer_, newBuffer1 := newBuffer1, Null;
      buffersToWrite, buffers_ := buffers_, buffersToWrite;
      if nextBuffer_.Null? {
        nextBuffer_, newBuffer2 := newBuffer2, Null;
      }
      place := Swapped;
      taken := taken + [DataOf(buffersToWrite)];
    }

    method TrimBatch()
      requires place.Swapped? && Trim(Model()).Ok?
      modifies this
      ensures Ok(Model()) == Trim(old(Model()))
    {
      assert buffersToWrite != [];
      if |buffersToWrite| > MAX_BATCH {
        output := output + [Notice(|buffersToWrite| - 2)];
        buffersToWrite := buffersToWrite[..2];
      }
      place := Writing(0);
    }

    /** The writing loop, as one run of the thread's own steps. */
    method WriteBatch()
      requires place == Writing(0) && NoNull(buffersToWrite)
      modifies this`output, this`place
      ensures output == old(output) + Items(DataOf(buffersToWrite)) && place == Writing(|buffersToWrite|)
      ensures Ok(Model()) == Run(old(Model()), Works(|buffersToWrite|))
    {
      ghost var data := DataOf(buffersToWrite);
      for i := 0 to |buffersToWrite|
        invariant place == Writing(i) && output == old(output) + Items(data[..i])
      {
        assert Items(data[..i + 1]) == Items(data[..i]) + [Data(data[i])];
        output := output + [Data(buffersToWrite[i].data)];
        place := Writing(i + 1);
      }
      assert data[..|data|] == data;
      WritingIsWork(old(Model()), 0, |buffersToWrite|);
    }

    method RecycleBuffers()
      requires place.Writing? && Recycle(Model()).Ok?
      modifies this
      ensures Ok(Model()) == Recycle(old(Model()))
    {
      if |buffersToWrite| > 2 {
        buffersToWrite := buffersToWrite[..2];
      }
      if newBuffer1.Null? {
        assert buffersToWrite != [];
        newBuffer1 := Buffer("");
        buffersToWrite := buffersToWrite[..|buffersToWrite| - 1];
      }
      if newBuffer2.Null? {
        assert buffersToWrite != [];
        newBuffer2 := Buffer("");
        buffersToWrite := buffersToWrite[..|buffersToWrite| - 1];
      }
      buffersToWrite := [];
      place := Head;
    }
  }

  lemma WorksCons(n: nat)
    requires n > 0
    ensures Works(n) == [Work] + Works(n - 1)
  {
  }

  lemma ItemsCons(data: seq<string>, k: nat)
    requires k < |data|
    ensures Items(data[k..]) == [Data(data[k])] + Items(data[k + 1..])
  {
  }

  function Written(s: State, k: nat, output: seq<Item>): State {
    s.(output := output, place := Writing(k))
  }

  lemma WriteOneIsWork(s: State, k: nat)
    requires s.place == Writing(k) && k < |s.batch| && s.batch[k].Buffer?
    ensures Do(s, Work) == Ok(Written(s, k + 1, s.output + [Data(s.batch[k].data)]))
  {
  }

  lemma WriteThen(s: State, k: nat, n: nat, end: State)
    requires s.place == Writing(k) && k < |s.batch| && s.batch[k].Buffer? && n > 0
    requires Run(Written(s, k + 1, s.output + [Data(s.batch[k].data)]), Works(n - 1)) == Ok(end)
    ensures Run(s, Works(n)) == Ok(end)
  {
    WriteOneIsWork(s, k);
    WorksCons(n);
    RunCons(s, Work, Works(n - 1));
  }

  lemma OutputCons(output: seq<Item>, data: seq<string>, k: nat)
    requires k < |data|
    ensures output + [Data(data[k])] + Items(data[k + 1..]) == output + Items(data[k..])
  {
    ItemsCons(data, k);
  }

  /** The rest of the writing loop, step by step. */
  lemma {:induction false} WritingIsWork(s: State, k: nat, n: nat)
    requires s.place == Writing(k) && k + n == |s.batch| && NoNull(s.batch)
    ensures Run(s, Works(n)) == Ok(Written(s, k + n, s.output + Items(DataOf(s.batch)[k..])))
    decreases n
  {
    var data := DataOf(s.batch);
    if n == 0 {
      assert Works(n) == [] && s.output + Items(data[k..]) == s.output;
    } else {
      var s' := Written(s, k + 1, s.output + [Data(data[k])]);
      WritingIsWork(s', k + 1, n - 1);
      OutputCons(s.output, data, k);
      WriteThen(s, k, n, Written(s, k + n, s.output + Items(data[k..])));
    }
  }
}
