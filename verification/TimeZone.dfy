/** The transition table of src/base/src/TimeZone.cc: UTC to local time and back, and the split of a
    second count into a DateTime. Table entries are as in section 3.2 of RFC 8536. */
module TimeZones {
  import opened Calendar
  import opened Integers

  datatype LocalTime = LocalTime(utcOffset: int, isDst: bool, index: int)

  datatype Transition = Transition(utcTime: int, localTime: int, localTimeIndex: nat)

  datatype Data = Data(transitions: seq<Transition>, localTimes: seq<LocalTime>)

  /** What addLocalTime and addTransition build: every transition names a local time type and carries
      its own local time; there is at least one type. */
  predicate WellFormed(z: Data) {
    && z.localTimes != []
    && forall i :: 0 <= i < |z.transitions| ==>
         && z.transitions[i].localTimeIndex < |z.localTimes|
         && z.transitions[i].localTime
              == z.transitions[i].utcTime + z.localTimes[z.transitions[i].localTimeIndex].utcOffset
  }

  class Table {
    var transitions: seq<Transition>
    var localTimes: seq<LocalTime>

    function Model(): Data
      reads this
    {
      Data(transitions, localTimes)
    }

    constructor (eastOfUtc: int)
      ensures Model() == Data([], [LocalTime(eastOfUtc, false, 0)]) && WellFormed(Model())
    {
      transitions, localTimes := [], [LocalTime(eastOfUtc, false, 0)];
    }

    method AddLocalTime(utcOffset: int, isDst: bool, index: int)
      modifies this
      ensures Model() == Data(old(transitions), old(localTimes) + [LocalTime(utcOffset, isDst, index)])
      ensures old(WellFormed(Model())) ==> WellFormed(Model())
    {
      localTimes := localTimes + [LocalTime(utcOffset, isDst, index)];
    }

    /** `ok` is false when `at` throws. */
    method AddTransition(utcTime: int, localTimeIndex: nat) returns (ok: bool)
      modifies this
      ensures ok == (localTimeIndex < |old(localTimes)|)
      ensures !ok ==> Model() == old(Model())
      ensures ok ==> Model() == Data(
                         old(transitions) +
                         [Transition(utcTime, utcTime + old(localTimes)[localTimeIndex].utcOffset, localTimeIndex)],
                         old(localTimes))
      ensures old(WellFormed(Model())) ==> WellFormed(Model())
    {
      if localTimeIndex >= |localTimes| {
        return false;
      }
      var lt := localTimes[localTimeIndex];
      transitions := transitions + [Transition(utcTime, utcTime + lt.utcOffset, localTimeIndex)];
      return true;
    }
  }

  // ---------------------------------------------------------------- lookups

  datatype Comparison = CompareUtcTime | CompareLocalTime

  function Key(t: Transition, order: Comparison): int {
    if order.CompareUtcTime? then t.utcTime else t.localTime
  }

  /** std::upper_bound: the first position whose key is greater. */
  function UpperBound(ts: seq<Transition>, order: Comparison, key: int): (r: nat)
    ensures r <= |ts|
    ensures forall i :: 0 <= i < r ==> Key(ts[i], order) <= key
    ensures r < |ts| ==> key < Key(ts[r], order)
  {
    if ts == [] || key < Key(ts[0], order) then 0 else 1 + UpperBound(ts[1..], order, key)
  }

  function LocalTimeAt(z: Data, i: nat): LocalTime
    requires WellFormed(z) && i < |z.transitions|
  {
    z.localTimes[z.transitions[i].localTimeIndex]
  }

  function FindLocalTime(z: Data, utcTime: int): LocalTime
    requires WellFormed(z)
  {
    var ts := z.transitions;
    if ts == [] || utcTime < ts[0].utcTime then
      z.localTimes[0]
    else
      var i := UpperBound(ts, CompareUtcTime, utcTime);
      if i < |ts| then LocalTimeAt(z, i - 1) else LocalTimeAt(z, |ts| - 1)
  }

  /** The overload that starts from local seconds. */
  function FindByLocal(z: Data, localtime: int, postTransition: bool): LocalTime
    requires WellFormed(z)
  {
    var ts := z.transitions;
    if ts == [] || localtime < ts[0].localTime then
      z.localTimes[0]
    else
      var i := UpperBound(ts, CompareLocalTime, localtime);
      if i == |ts| then
        LocalTimeAt(z, |ts| - 1)
      else
        var prior := i - 1;
        var priorSecond := ts[i].utcTime - 1 + LocalTimeAt(z, prior).utcOffset;
        if priorSecond < localtime then
          // skipped
          if postTransition then LocalTimeAt(z, i) else LocalTimeAt(z, prior)
        else
          var i' := i - 1;
          var prior' := if i' != 0 then i' - 1 else prior;
          var priorSecond' := if i' != 0 then ts[i'].utcTime - 1 + LocalTimeAt(z, prior').utcOffset else priorSecond;
          if localtime <= priorSecond' then
            // repeated
            if postTransition then LocalTimeAt(z, i') else LocalTimeAt(z, prior')
          else
            LocalTimeAt(z, i')
  }

  /** `seconds + local->utc_offset` in toLocalTime. */
  function ToLocalSeconds(z: Data, seconds: int): int
    requires WellFormed(z)
  {
    seconds + FindLocalTime(z, seconds).utcOffset
  }

  /** fromLocalTime, from local seconds. */
  function FromLocalSeconds(z: Data, localSeconds: int, postTransition: bool): int
    requires WellFormed(z)
  {
    localSeconds - FindByLocal(z, localSeconds, postTransition).utcOffset
  }

  // ---------------------------------------------------------------- tables

  /** The offset in force from transition `k` on; `k == -1` is the time before the first one. */
  function Offset(z: Data, k: int): int
    requires WellFormed(z) && -1 <= k < |z.transitions|
  {
    if k == -1 then z.localTimes[0].utcOffset else LocalTimeAt(z, k).utcOffset
  }

  function Utc(z: Data, k: int): int
    requires 0 <= k < |z.transitions|
  {
    z.transitions[k].utcTime
  }

  /** Local seconds just after transition `k`. */
  function After(z: Data, k: int): int
    requires WellFormed(z) && 0 <= k < |z.transitions|
  {
    Utc(z, k) + Offset(z, k)
  }

  /** Local seconds transition `k` would have had without the change. */
  function Until(z: Data, k: int): int
    requires WellFormed(z) && 0 <= k < |z.transitions|
  {
    Utc(z, k) + Offset(z, k - 1)
  }

  predicate InOrder(z: Data, i: int, j: int)
    requires WellFormed(z) && 0 <= i < j < |z.transitions|
  {
    Utc(z, i) < Utc(z, j) && After(z, i) <= After(z, j)
  }

  /** What the two binary searches need: UTC times strictly ascending, as section 3.2 of RFC 8536 has
      them, and local times in order. */
  predicate Ordered(z: Data) {
    WellFormed(z) && forall i, j :: 0 <= i < j < |z.transitions| ==> InOrder(z, i, j)
  }

  /** `l` is a local second of the stretch that follows transition `k`. */
  predicate InStretch(z: Data, k: int, l: int)
    requires WellFormed(z) && -1 <= k < |z.transitions|
  {
    (k >= 0 ==> After(z, k) <= l) && (k + 1 < |z.transitions| ==> l < Until(z, k + 1))
  }

  lemma OrderAt(z: Data, i: int, j: int)
    requires Ordered(z)
    ensures 0 <= i < j < |z.transitions| ==> InOrder(z, i, j)
  {
  }

  /** Instant `t` lies between transition `k` and the next. */
  predicate At(z: Data, t: int, k: int)
    requires -1 <= k < |z.transitions|
  {
    (k >= 0 ==> Utc(z, k) <= t) && (k + 1 < |z.transitions| ==> t < Utc(z, k + 1))
  }

  lemma UtcPosition(z: Data, t: int) returns (k: int)
    requires WellFormed(z)
    ensures -1 <= k < |z.transitions| && At(z, t, k)
    ensures ToLocalSeconds(z, t) == t + Offset(z, k)
  {
    k := UpperBound(z.transitions, CompareUtcTime, t) - 1;
    if z.transitions != [] && t < Utc(z, 0) && k >= 0 {
      assert false;
    }
  }

  lemma OneUtcPosition(z: Data, t: int, j: int, k: int)
    requires Ordered(z) && -1 <= j < |z.transitions| && -1 <= k < |z.transitions| && At(z, t, j) && At(z, t, k)
    ensures j == k
  {
    OrderAt(z, j + 1, k);
    OrderAt(z, k + 1, j);
  }

  /** An instant lies in the stretch whose offset it gets. */
  lemma StretchOf(z: Data, t: int) returns (k: int)
    requires WellFormed(z)
    ensures -1 <= k < |z.transitions| && InStretch(z, k, ToLocalSeconds(z, t))
    ensures ToLocalSeconds(z, t) == t + Offset(z, k)
  {
    k := UtcPosition(z, t);
  }

  /** A local second of stretch `k` comes from the instant that stretch's offset gives. */
  lemma InstantOf(z: Data, k: int, l: int)
    requires Ordered(z) && -1 <= k < |z.transitions| && InStretch(z, k, l)
    ensures ToLocalSeconds(z, l - Offset(z, k)) == l
  {
    var t := l - Offset(z, k);
    var j := UtcPosition(z, t);
    OneUtcPosition(z, t, j, k);
  }

  /** Local second `l` lies between the local times of transition `k` and of the next. */
  predicate LocallyAt(z: Data, l: int, k: int)
    requires WellFormed(z) && -1 <= k < |z.transitions|
  {
    (k >= 0 ==> After(z, k) <= l) && (k + 1 < |z.transitions| ==> l < After(z, k + 1))
  }

  /** Which offset fromLocalTime picks, by the place of the second among the transitions. */
  lemma LocalPosition(z: Data, l: int) returns (k: int)
    requires WellFormed(z)
    ensures -1 <= k < |z.transitions| && LocallyAt(z, l, k)
    ensures forall post :: FindByLocal(z, l, post).utcOffset ==
              (if k == -1 || k == |z.transitions| - 1 then Offset(z, k)
               else if Until(z, k + 1) <= l then Offset(z, if post then k + 1 else k)
               else if k > 0 && l < Until(z, k) then Offset(z, if post then k else k - 1)
               else Offset(z, k))
  {
    k := UpperBound(z.transitions, CompareLocalTime, l) - 1;
    if z.transitions != [] && l < After(z, 0) && k >= 0 {
      assert false;
    }
  }

  /** The stretch whose offset fromLocalTime subtracts from a second in position `k`. */
  function Choice(z: Data, k: int, l: int, post: bool): (c: int)
    requires WellFormed(z) && -1 <= k < |z.transitions|
    ensures -1 <= c < |z.transitions|
  {
    if k == -1 || k == |z.transitions| - 1 then k
    else if Until(z, k + 1) <= l then (if post then k + 1 else k)
    else if k > 0 && l < Until(z, k) then (if post then k else k - 1)
    else k
  }

  lemma LocalChoice(z: Data, l: int, post: bool) returns (k: int)
    requires WellFormed(z)
    ensures -1 <= k < |z.transitions| && LocallyAt(z, l, k)
    ensures FromLocalSeconds(z, l, post) == l - Offset(z, Choice(z, k, l, post))
  {
    k := LocalPosition(z, l);
  }

  // ---------------------------------------------------------------- the round trip, exactly

  /** `l` is shown twice by the clocks, before and after transition `k`. */
  predicate Repeated(z: Data, k: int, l: int)
    requires WellFormed(z) && 0 <= k < |z.transitions|
  {
    After(z, k) <= l < Until(z, k)
  }

  /** `l` is jumped over by the clocks at transition `k`. */
  predicate Skipped(z: Data, k: int, l: int)
    requires WellFormed(z) && 0 <= k < |z.transitions|
  {
    Until(z, k) <= l < After(z, k)
  }

  predicate RoundTrips(z: Data, t: int, post: bool)
    requires WellFormed(z)
  {
    ToLocalSeconds(z, FromLocalSeconds(z, ToLocalSeconds(z, t), post)) == ToLocalSeconds(z, t)
  }

  /** A shown second belongs to a stretch at or before its position, and only the transition after its
      position can skip it. */
  lemma ShownSecond(z: Data, j: int, k: int, l: int)
    requires Ordered(z) && -1 <= j < |z.transitions| && -1 <= k < |z.transitions| && InStretch(z, j, l)
    requires LocallyAt(z, l, k)
    ensures j <= k
    ensures forall i :: 0 <= i < |z.transitions| && Skipped(z, i, l) ==> i == k + 1
    ensures k + 1 < |z.transitions| && !Skipped(z, k + 1, l) ==> InStretch(z, k, l)
    ensures k == -1 || k == |z.transitions| - 1 ==> InStretch(z, k, l)
  {
    OrderAt(z, k + 1, j);
    forall i | 0 <= i < |z.transitions|
      ensures Skipped(z, i, l) ==> i == k + 1
    {
      OrderAt(z, i, k);
      OrderAt(z, i - 1, i);
      OrderAt(z, k + 1, i - 1);
    }
  }

  lemma TripBack(z: Data, t: int, l: int, back: int, post: bool)
    requires WellFormed(z) && l == ToLocalSeconds(z, t) && back == FromLocalSeconds(z, l, post)
    ensures RoundTrips(z, t, post) <==> ToLocalSeconds(z, back) == l
  {
  }

  /** One trip: `t` is at `j`, its local second `l` at `k`, and the instant `l` maps to at `i`. */
  lemma Trip(z: Data, t: int, l: int, post: bool) returns (j: int, k: int, i: int)
    requires WellFormed(z) && l == ToLocalSeconds(z, t)
    ensures -1 <= j < |z.transitions| && -1 <= k < |z.transitions| && -1 <= i < |z.transitions|
    ensures InStretch(z, j, l) && LocallyAt(z, l, k)
    ensures var c := Choice(z, k, l, post);
            At(z, l - Offset(z, c), i) && (RoundTrips(z, t, post) <==> Offset(z, i) == Offset(z, c))
  {
    j := StretchOf(z, t);
    k := LocalChoice(z, l, post);
    var back := l - Offset(z, Choice(z, k, l, post));
    i := UtcPosition(z, back);
    TripBack(z, t, l, back, post);
  }

  /** A second that its stretch shows comes back, whichever stretch fromLocalTime chooses. */
  lemma UnskippedReturns(z: Data, k: int, l: int, post: bool, i: int)
    requires Ordered(z) && -1 <= k < |z.transitions| && InStretch(z, k, l) && -1 <= i < |z.transitions|
    requires At(z, l - Offset(z, Choice(z, k, l, post)), i)
    ensures Offset(z, i) == Offset(z, Choice(z, k, l, post))
  {
    var c := Choice(z, k, l, post);
    OrderAt(z, k - 1, k);
    OneUtcPosition(z, l - Offset(z, c), c, i);
  }

  /** A skipped second mapped with the offset before the transition does not. */
  lemma SkippedIsLost(z: Data, k: int, l: int, i: int)
    requires Ordered(z) && 0 <= k < |z.transitions| && Skipped(z, k, l) && -1 <= i < |z.transitions|
    requires At(z, l - Offset(z, k - 1), i)
    ensures Offset(z, i) != Offset(z, k - 1)
  {
    OrderAt(z, i + 1, k);
    OrderAt(z, k, i);
  }

  /** Some stretch before transition `k` shows `l` and has the offset that `k` brings. */
  ghost predicate ShownBefore(z: Data, k: int, l: int)
    requires WellFormed(z) && 0 <= k < |z.transitions|
  {
    exists j :: -1 <= j < k && InStretch(z, j, l) && Offset(z, j) == Offset(z, k)
  }

  /** Mapped with the offset after it, it comes back exactly if an earlier stretch shows it so. */
  lemma SkippedReturns(z: Data, k: int, l: int, i: int)
    requires Ordered(z) && 0 <= k < |z.transitions| && Skipped(z, k, l) && -1 <= i < |z.transitions|
    requires At(z, l - Offset(z, k), i)
    ensures Offset(z, i) == Offset(z, k) <==> ShownBefore(z, k, l)
  {
    OrderAt(z, k, i);
    assert Offset(z, i) == Offset(z, k) ==> InStretch(z, i, l);
    if ShownBefore(z, k, l) {
      var j :| -1 <= j < k && InStretch(z, j, l) && Offset(z, j) == Offset(z, k);
      OneUtcPosition(z, l - Offset(z, k), i, j);
    }
  }

  /** Without postTransition an instant comes back to the same local second if and only if no
      transition but the first skips that second. */
  lemma RoundTripExactly(z: Data, t: int)
    requires Ordered(z)
    ensures RoundTrips(z, t, false) <==>
              forall k :: 0 < k < |z.transitions| ==> !Skipped(z, k, ToLocalSeconds(z, t))
  {
    var l := ToLocalSeconds(z, t);
    var j, k, i := Trip(z, t, l, false);
    ShownSecond(z, j, k, l);
    if 0 <= k < |z.transitions| - 1 && Skipped(z, k + 1, l) {
      SkippedIsLost(z, k + 1, l, i);
    } else {
      UnskippedReturns(z, k, l, false, i);
    }
  }

  /** With postTransition, if and only if every such transition brings an offset under which an
      earlier stretch shows that second too. */
  lemma PostRoundTripExactly(z: Data, t: int)
    requires Ordered(z)
    ensures RoundTrips(z, t, true) <==>
              forall k :: 0 < k < |z.transitions| && Skipped(z, k, ToLocalSeconds(z, t)) ==>
                ShownBefore(z, k, ToLocalSeconds(z, t))
  {
    var l := ToLocalSeconds(z, t);
    var j, k, i := Trip(z, t, l, true);
    ShownSecond(z, j, k, l);
    if 0 <= k < |z.transitions| - 1 && Skipped(z, k + 1, l) {
      SkippedReturns(z, k + 1, l, i);
    } else {
      UnskippedReturns(z, k, l, true, i);
    }
  }

  /** Transition `k` skips seconds that the clocks showed before the earlier transition `i`. */
  predicate Hides(z: Data, i: int, k: int)
    requires WellFormed(z)
  {
    && 0 <= i < k < |z.transitions|
    && Until(z, k) < After(z, k) && Until(z, k) < Until(z, i)
    && (i > 0 ==> After(z, i - 1) < After(z, k))
  }

  lemma HiddenSecond(z: Data, i: int, k: int) returns (t: int)
    requires Ordered(z) && Hides(z, i, k)
    ensures Skipped(z, k, ToLocalSeconds(z, t))
  {
    var l := if i > 0 && Until(z, k) < After(z, i - 1) then After(z, i - 1) else Until(z, k);
    if i > 0 {
      assert InOrder(z, i - 1, i);
    }
    t := l - Offset(z, i - 1);
    InstantOf(z, i - 1, l);
  }

  lemma SkippedIsHidden(z: Data, t: int, k: int) returns (i: int)
    requires Ordered(z) && 0 <= k < |z.transitions| && Skipped(z, k, ToLocalSeconds(z, t))
    ensures Hides(z, i, k)
  {
    var j := StretchOf(z, t);
    OrderAt(z, k, j);
    i := j + 1;
  }

  /** A table brings every instant back without postTransition if and only if no transition hides
      seconds shown before an earlier one; it then does so with postTransition too. */
  lemma TableRoundTripsExactly(z: Data)
    requires Ordered(z)
    ensures (forall t :: RoundTrips(z, t, false)) <==> (forall i, k :: !Hides(z, i, k))
    ensures (forall i, k :: !Hides(z, i, k)) ==> forall t :: RoundTrips(z, t, true)
  {
    if i, k :| Hides(z, i, k) {
      var t := HiddenSecond(z, i, k);
      RoundTripExactly(z, t);
      assert !RoundTrips(z, t, false);
    } else {
      forall t
        ensures RoundTrips(z, t, false) && RoundTrips(z, t, true)
      {
        forall k | 0 < k < |z.transitions|
          ensures !Skipped(z, k, ToLocalSeconds(z, t))
        {
          if Skipped(z, k, ToLocalSeconds(z, t)) {
            var i := SkippedIsHidden(z, t, k);
          }
        }
        RoundTripExactly(z, t);
        PostRoundTripExactly(z, t);
      }
    }
  }

  /** Some stretch before transition `k` shows a second that `k` skips. */
  ghost predicate HiddenAt(z: Data, k: int, l: int)
    requires WellFormed(z)
  {
    0 < k < |z.transitions| && Skipped(z, k, l) && exists j :: -1 <= j < k && InStretch(z, j, l)
  }

  /** With postTransition a table brings every instant back if and only if each second hidden at a
      transition is shown before it under the offset that the transition brings. */
  lemma PostTableRoundTripsExactly(z: Data)
    requires Ordered(z)
    ensures (forall t :: RoundTrips(z, t, true)) <==> (forall k, l :: HiddenAt(z, k, l) ==> ShownBefore(z, k, l))
  {
    if forall t :: RoundTrips(z, t, true) {
      forall k, l | HiddenAt(z, k, l)
        ensures ShownBefore(z, k, l)
      {
        var j :| -1 <= j < k && InStretch(z, j, l);
        InstantOf(z, j, l);
        var t := l - Offset(z, j);
        assert RoundTrips(z, t, true);
        PostRoundTripExactly(z, t);
      }
    }
    if forall k, l :: HiddenAt(z, k, l) ==> ShownBefore(z, k, l) {
      forall t
        ensures RoundTrips(z, t, true)
      {
        PostRoundTripIfShown(z, t);
      }
    }
  }

  lemma PostRoundTripIfShown(z: Data, t: int)
    requires Ordered(z) && forall k, l :: HiddenAt(z, k, l) ==> ShownBefore(z, k, l)
    ensures RoundTrips(z, t, true)
  {
    var l := ToLocalSeconds(z, t);
    var j := StretchOf(z, t);
    forall k | 0 < k < |z.transitions| && Skipped(z, k, l)
      ensures ShownBefore(z, k, l)
    {
      OrderAt(z, k, j);
      assert HiddenAt(z, k, l);
    }
    PostRoundTripExactly(z, t);
  }

  /** The two flags differ: where an offset returns after a drop, hidden seconds come back with
      postTransition. */
  lemma ReturningOffset()
    ensures var z := Data([Transition(100, 100, 1), Transition(110, 160, 0)],
                          [LocalTime(50, false, 0), LocalTime(0, false, 1)]);
            Ordered(z) && (forall t :: RoundTrips(z, t, true)) && !(forall t :: RoundTrips(z, t, false))
  {
    var z := Data([Transition(100, 100, 1), Transition(110, 160, 0)],
                  [LocalTime(50, false, 0), LocalTime(0, false, 1)]);
    forall k, l | HiddenAt(z, k, l)
      ensures ShownBefore(z, k, l)
    {
      assert k == 1 && InStretch(z, -1, l) && Offset(z, -1) == Offset(z, 1);
    }
    PostTableRoundTripsExactly(z);
    assert Hides(z, 0, 1);
    TableRoundTripsExactly(z);
  }

  /** A table in order on which neither reading comes back: the offset drops for ten seconds. */
  lemma ShortStretchBreaksRoundTrip()
    ensures var z := Data([Transition(100, 100, 1), Transition(110, 155, 2)],
                          [LocalTime(50, false, 0), LocalTime(0, false, 1), LocalTime(45, false, 2)]);
            Ordered(z) && !RoundTrips(z, 70, false) && !RoundTrips(z, 70, true)
  {
    var z := Data([Transition(100, 100, 1), Transition(110, 155, 2)],
                  [LocalTime(50, false, 0), LocalTime(0, false, 1), LocalTime(45, false, 2)]);
    assert ToLocalSeconds(z, 70) == 120;
    assert Skipped(z, 1, 120) && !ShownBefore(z, 1, 120);
    RoundTripExactly(z, 70);
    PostRoundTripExactly(z, 70);
  }

  // ---------------------------------------------------------------- regular tables

  /** The stretch from transition `k` to the next is longer than the sum of the offset changes at its
      two ends. */
  predicate LongStretch(z: Data, k: int)
    requires WellFormed(z) && 0 <= k && k + 1 < |z.transitions|
  {
    Utc(z, k + 1) - Utc(z, k) > Abs(Offset(z, k) - Offset(z, k - 1)) + Abs(Offset(z, k + 1) - Offset(z, k))
  }

  /** The tables in which no two changes come close to each other. */
  predicate Regular(z: Data) {
    WellFormed(z) && forall k :: 0 <= k && k + 1 < |z.transitions| ==> LongStretch(z, k)
  }

  /** The neighbourhoods of two transitions do not meet. */
  lemma {:induction false} Separated(z: Data, j: int, k: int)
    requires Regular(z) && 0 <= j < k < |z.transitions|
    ensures After(z, j) < After(z, k) && After(z, j) < Until(z, k)
    ensures Until(z, j) < After(z, k) && Until(z, j) < Until(z, k)
    ensures Utc(z, j) < Utc(z, k)
    decreases k
  {
    assert LongStretch(z, k - 1);
    if j < k - 1 {
      Separated(z, j, k - 1);
    }
  }

  lemma RegularIsOrdered(z: Data)
    requires Regular(z)
    ensures Ordered(z) && forall i, k :: !Hides(z, i, k)
  {
    forall i, j | 0 <= i < j < |z.transitions|
      ensures InOrder(z, i, j) && Until(z, i) < Until(z, j)
    {
      Separated(z, i, j);
    }
  }

  /** In a regular table, mapping an instant to local seconds and back, either way, gives an instant
      with the same local seconds. */
  lemma LocalRoundTrip(z: Data, t: int, post: bool)
    requires Regular(z)
    ensures RoundTrips(z, t, post)
  {
    RegularIsOrdered(z);
    TableRoundTripsExactly(z);
  }

  /** Positions are unique. */
  lemma SamePosition(z: Data, j: int, k: int, l: int)
    requires Regular(z) && -1 <= j < |z.transitions| && -1 <= k < |z.transitions|
    requires LocallyAt(z, l, j) && LocallyAt(z, l, k)
    ensures j == k
  {
    if j + 1 < k {
      Separated(z, j + 1, k);
    } else if k + 1 < j {
      Separated(z, k + 1, j);
    }
  }

  /** A second of stretch `j` is also in the stretch its position `k` names. */
  lemma Located(z: Data, j: int, k: int, l: int)
    requires Regular(z) && -1 <= j < |z.transitions| && -1 <= k < |z.transitions|
    requires InStretch(z, j, l) && LocallyAt(z, l, k)
    ensures InStretch(z, k, l) && j <= k
  {
    if k + 1 < j {
      Separated(z, k + 1, j);
    } else if j < k && k + 1 < |z.transitions| {
      Separated(z, j + 1, k + 1);
    }
  }

  lemma RepeatedInBoth(z: Data, k: int, l: int)
    requires Regular(z) && 0 <= k < |z.transitions| && Repeated(z, k, l)
    ensures InStretch(z, k - 1, l) && InStretch(z, k, l)
  {
    if k + 1 < |z.transitions| { Separated(z, k, k + 1); }
    if k > 0 { Separated(z, k - 1, k); }
  }

  lemma BothInstants(z: Data, k: int, l: int)
    requires Regular(z) && 0 <= k < |z.transitions| && Repeated(z, k, l)
    ensures ToLocalSeconds(z, l - Offset(z, k - 1)) == l && ToLocalSeconds(z, l - Offset(z, k)) == l
  {
    RegularIsOrdered(z);
    RepeatedInBoth(z, k, l);
    InstantOf(z, k - 1, l);
    InstantOf(z, k, l);
  }

  lemma RepeatedInstants(z: Data, k: int, l: int)
    requires Regular(z) && 0 <= k < |z.transitions| && Repeated(z, k, l)
    ensures forall t :: ToLocalSeconds(z, t) == l <==> t == l - Offset(z, k - 1) || t == l - Offset(z, k)
  {
    BothInstants(z, k, l);
    forall t | ToLocalSeconds(z, t) == l
      ensures t == l - Offset(z, k - 1) || t == l - Offset(z, k)
    {
      InstantsAround(z, k, l, t);
    }
  }

  lemma RepeatedChoice(z: Data, k: int, l: int, post: bool)
    requires Regular(z) && 0 <= k < |z.transitions| && Repeated(z, k, l)
    ensures FromLocalSeconds(z, l, post)
              == l - Offset(z, if post || k == 0 || k == |z.transitions| - 1 then k else k - 1)
  {
    if k + 1 < |z.transitions| { Separated(z, k, k + 1); }
    var j := LocalChoice(z, l, post);
    SamePosition(z, j, k, l);
  }

  /** A repeated second comes from exactly two instants, one on each side of the transition.
      postTransition gives the later; its absence gives the earlier if and only if the transition is
      neither the first nor the last of the table. */
  lemma RepeatedSecond(z: Data, k: int, l: int)
    requires Regular(z) && 0 <= k < |z.transitions| && Repeated(z, k, l)
    ensures var early, late := l - Offset(z, k - 1), l - Offset(z, k);
            && early < Utc(z, k) <= late
            && (forall t :: ToLocalSeconds(z, t) == l <==> t == early || t == late)
            && FromLocalSeconds(z, l, true) == late
            && FromLocalSeconds(z, l, false) in {early, late}
            && (FromLocalSeconds(z, l, false) == early <==> 0 < k < |z.transitions| - 1)
  {
    RepeatedInstants(z, k, l);
    RepeatedChoice(z, k, l, true);
    RepeatedChoice(z, k, l, false);
  }

  /** Near transition `k` only the stretches before and after it matter. */
  lemma OnlyAround(z: Data, k: int, j: int, l: int)
    requires Regular(z) && 0 <= k < |z.transitions| && -1 <= j < |z.transitions|
    requires Repeated(z, k, l) || Skipped(z, k, l)
    requires InStretch(z, j, l)
    ensures j == k - 1 || j == k
  {
    if j < k - 1 {
      Separated(z, j + 1, k);
    } else if k < j {
      Separated(z, k, j);
    }
  }

  lemma InstantsAround(z: Data, k: int, l: int, t: int)
    requires Regular(z) && 0 <= k < |z.transitions| && (Repeated(z, k, l) || Skipped(z, k, l))
    requires ToLocalSeconds(z, t) == l
    ensures Repeated(z, k, l) && (t == l - Offset(z, k - 1) || t == l - Offset(z, k))
  {
    var j := StretchOf(z, t);
    OnlyAround(z, k, j, l);
  }

  /** A skipped second comes from no instant. Without postTransition it maps to an instant at or
      after the transition; with it, strictly before if and only if the transition is not the first. */
  lemma SkippedSecond(z: Data, k: int, l: int)
    requires Regular(z) && 0 <= k < |z.transitions| && Skipped(z, k, l)
    ensures forall t :: ToLocalSeconds(z, t) != l
    ensures FromLocalSeconds(z, l, false) == l - Offset(z, k - 1) >= Utc(z, k)
    ensures FromLocalSeconds(z, l, true) == l - Offset(z, if k > 0 then k else -1)
    ensures FromLocalSeconds(z, l, true) < Utc(z, k) <==> k > 0
  {
    if k > 0 { Separated(z, k - 1, k); }
    forall t
      ensures ToLocalSeconds(z, t) != l
    {
      if ToLocalSeconds(z, t) == l {
        InstantsAround(z, k, l, t);
      }
    }
    var j := LocalChoice(z, l, true);
    SamePosition(z, j, k - 1, l);
    j := LocalChoice(z, l, false);
    SamePosition(z, j, k - 1, l);
  }

  lemma OnlyStretch(z: Data, j: int, k: int, l: int)
    requires Regular(z) && -1 <= j <= k < |z.transitions| && InStretch(z, j, l) && InStretch(z, k, l)
    requires k >= 0 ==> !Repeated(z, k, l)
    ensures j == k
  {
    if j < k - 1 {
      Separated(z, j + 1, k);
    }
  }

  lemma PlainChoice(z: Data, l: int, post: bool) returns (k: int)
    requires Regular(z)
    requires forall k :: 0 <= k < |z.transitions| ==> !Repeated(z, k, l) && !Skipped(z, k, l)
    ensures -1 <= k < |z.transitions| && InStretch(z, k, l)
    ensures k + 1 < |z.transitions| ==> l < After(z, k + 1)
    ensures FromLocalSeconds(z, l, post) == l - Offset(z, k)
  {
    k := LocalChoice(z, l, post);
    if k + 1 < |z.transitions| { assert !Skipped(z, k + 1, l); }
    if k >= 0 { assert !Repeated(z, k, l); }
  }

  lemma PlainInstant(z: Data, k: int, l: int, t: int)
    requires Regular(z) && -1 <= k < |z.transitions| && InStretch(z, k, l)
    requires k + 1 < |z.transitions| ==> l < After(z, k + 1)
    requires k >= 0 ==> !Repeated(z, k, l)
    requires ToLocalSeconds(z, t) == l
    ensures t == l - Offset(z, k)
  {
    var j := StretchOf(z, t);
    Located(z, j, k, l);
    OnlyStretch(z, j, k, l);
  }

  /** Every other second comes from exactly one instant, and maps back to it either way. */
  lemma PlainSecond(z: Data, l: int, post: bool)
    requires Regular(z)
    requires forall k :: 0 <= k < |z.transitions| ==> !Repeated(z, k, l) && !Skipped(z, k, l)
    ensures forall t :: ToLocalSeconds(z, t) == l <==> t == FromLocalSeconds(z, l, post)
  {
    var k := PlainChoice(z, l, post);
    RegularIsOrdered(z);
    InstantOf(z, k, l);
    forall t | ToLocalSeconds(z, t) == l
      ensures t == l - Offset(z, k)
    {
      PlainInstant(z, k, l, t);
    }
  }

  // ---------------------------------------------------------------- DateTime

  datatype DateTime = DateTime(year: int, month: int, day: int, hour: int, minute: int, second: int)

  const SECONDS_PER_DAY := 86400
  const JULIAN_DAY_OF_1970_01_01 := GetJulianDayNumber(1970, 1, 1)

  /** fillHMS: the minutes of the day are narrowed to eight bits before they are split. */
  function FillHMS(seconds: int): (int, int, int) {
    var minutes := Int8(TruncDiv(seconds, 60));
    (Int8(TruncDiv(minutes, 60)), Int8(TruncMod(minutes, 60)), Int8(TruncMod(seconds, 60)))
  }

  function BreakTime(t: int): DateTime {
    var s := TruncMod(t, SECONDS_PER_DAY);
    var d := TruncDiv(t, SECONDS_PER_DAY);
    var seconds := if s < 0 then s + SECONDS_PER_DAY else s;
    var days := if s < 0 then d - 1 else d;
    var hms := FillHMS(seconds);
    var ymd := GetYearMonthDay(days + JULIAN_DAY_OF_1970_01_01);
    DateTime(ymd.year, ymd.month, ymd.day, hms.0, hms.1, hms.2)
  }

  function FromUTCTime(dt: DateTime): int {
    var secondsInDay := dt.hour * 3600 + dt.minute * 60 + dt.second;
    var days := GetJulianDayNumber(dt.year, dt.month, dt.day) - JULIAN_DAY_OF_1970_01_01;
    days * SECONDS_PER_DAY + secondsInDay
  }

  function DateOf(dt: DateTime): YearMonthDay {
    YearMonthDay(dt.year, dt.month, dt.day)
  }

  /** The two truncating operators with the correction for negative times are floor and modulo. */
  lemma DaySplit(t: int)
    ensures var s, d := TruncMod(t, SECONDS_PER_DAY), TruncDiv(t, SECONDS_PER_DAY);
            && (if s < 0 then s + SECONDS_PER_DAY else s) == t % SECONDS_PER_DAY
            && (if s < 0 then d - 1 else d) == t / SECONDS_PER_DAY
  {
  }

  lemma BreakTimeParts(t: int)
    ensures DateOf(BreakTime(t)) == GetYearMonthDay(t / SECONDS_PER_DAY + JULIAN_DAY_OF_1970_01_01)
    ensures (BreakTime(t).hour, BreakTime(t).minute, BreakTime(t).second) == FillHMS(t % SECONDS_PER_DAY)
  {
    DaySplit(t);
  }

  /** BreakTime's date is the civil date of floor(t / 86400), before the epoch as well as after it,
      and it determines the number of days since the epoch; its second is t modulo 60. */
  lemma BreakTimeIsCivil(t: int)
    requires t / SECONDS_PER_DAY + JULIAN_DAY_OF_1970_01_01 >= -32044
    ensures InRange(DateOf(BreakTime(t)))
    ensures Number(DateOf(BreakTime(t))) - JULIAN_DAY_OF_1970_01_01 == t / SECONDS_PER_DAY
    ensures BreakTime(t).second == t % 60
  {
    BreakTimeParts(t);
    NumberRoundTrip(t / SECONDS_PER_DAY + JULIAN_DAY_OF_1970_01_01);
    SecondOfMinute(t);
    assert FillHMS(t % SECONDS_PER_DAY).2 == (t % SECONDS_PER_DAY) % 60;
  }

  lemma SecondOfMinute(t: int)
    ensures (t % SECONDS_PER_DAY) % 60 == t % 60
  {
    assert t == SECONDS_PER_DAY * (t / SECONDS_PER_DAY) + t % SECONDS_PER_DAY;
    assert t == 60 * (1440 * (t / SECONDS_PER_DAY)) + t % SECONDS_PER_DAY;
  }

  /** The narrowing of the minutes shifts the time of day by a multiple of 256 minutes. */
  lemma FillHMSValue(seconds: int)
    requires 0 <= seconds < SECONDS_PER_DAY
    ensures var (h, m, s) := FillHMS(seconds);
            h * 3600 + m * 60 + s == seconds - 60 * (seconds / 60 - Int8(seconds / 60))
  {
  }

  /** A DateTime brings its second back if and only if the time of day is before 02:08:00. */
  lemma DateTimeRoundTripExactly(t: int)
    requires t / SECONDS_PER_DAY + JULIAN_DAY_OF_1970_01_01 >= -32044
    ensures FromUTCTime(BreakTime(t)) == t <==> t % SECONDS_PER_DAY < 128 * 60
  {
    BreakTimeIsCivil(t);
    BreakTimeParts(t);
    var seconds := t % SECONDS_PER_DAY;
    FillHMSValue(seconds);
    assert FromUTCTime(BreakTime(t)) == t - 60 * (seconds / 60 - Int8(seconds / 60));
  }

  // ---------------------------------------------------------------- the epoch

  const EPOCH := YearMonthDay(1970, 1, 1)

  lemma EpochInRange()
    ensures InRange(EPOCH) && JULIAN_DAY_OF_1970_01_01 == Number(EPOCH) && Number(EPOCH) > 0
  {
  }

  lemma DateOfDay(n: int)
    requires n + Number(EPOCH) >= -32044
    ensures InRange(DateOf(BreakTime(86400 * n))) && Number(DateOf(BreakTime(86400 * n))) == Number(EPOCH) + n
  {
    EpochInRange();
    assert 86400 * n / SECONDS_PER_DAY == n;
    BreakTimeIsCivil(86400 * n);
  }

  /** Day `n` of the epoch is `n` civil days after 1 January 1970; a day before it leads there in `-n`. */
  lemma DaysAreCountedFromTheEpoch(n: int)
    requires n + Number(EPOCH) >= -32044
    ensures n >= 0 ==> DateOf(BreakTime(86400 * n)) == DaysLater(YearMonthDay(1970, 1, 1), n)
    ensures n < 0 ==> DaysLater(DateOf(BreakTime(86400 * n)), -n) == YearMonthDay(1970, 1, 1)
  {
    EpochInRange();
    DateOfDay(n);
    var d := DateOf(BreakTime(86400 * n));
    if n >= 0 {
      NumbersCountDays(EPOCH, d, n);
    } else {
      NumbersCountDays(d, EPOCH, -n);
    }
  }

  lemma DateIs(t: int, n: int, d: YearMonthDay)
    requires n == t / SECONDS_PER_DAY && d == GetYearMonthDay(n + JULIAN_DAY_OF_1970_01_01)
    ensures DateOf(BreakTime(t)) == d
  {
    BreakTimeParts(t);
  }

  lemma SameDate(t: int, u: int, n: int, d: YearMonthDay)
    requires n == t / SECONDS_PER_DAY == u / SECONDS_PER_DAY && d == GetYearMonthDay(n + JULIAN_DAY_OF_1970_01_01)
    ensures DateOf(BreakTime(t)) == DateOf(BreakTime(u))
  {
    DateIs(t, n, d);
    DateIs(u, n, d);
  }

  /** The date does not change during a day. */
  lemma SameDateAllDay(t: int)
    ensures DateOf(BreakTime(t)) == DateOf(BreakTime(86400 * (t / 86400)))
  {
    var n := t / 86400;
    assert 86400 * n / 86400 == n;
    SameDate(t, 86400 * n, n, GetYearMonthDay(n + JULIAN_DAY_OF_1970_01_01));
  }

  /** fromUTCTime counts the days from 1 January 1970 and the seconds of the day. */
  lemma FromUTCTimeCounts(n: nat, hour: int, minute: int, second: int)
    ensures var d := DaysLater(YearMonthDay(1970, 1, 1), n);
            FromUTCTime(DateTime(d.year, d.month, d.day, hour, minute, second))
              == 86400 * n + 3600 * hour + 60 * minute + second
  {
    EpochInRange();
    DaysLaterNumber(EPOCH, n);
  }

  lemma EpochIsZero()
    ensures FromUTCTime(DateTime(1970, 1, 1, 0, 0, 0)) == 0
    ensures BreakTime(0) == DateTime(1970, 1, 1, 0, 0, 0)
  {
    FromUTCTimeCounts(0, 0, 0, 0);
    DaysAreCountedFromTheEpoch(0);
    assert DateOf(BreakTime(0)) == EPOCH;
    BreakTimeParts(0);
  }

  lemma SplitMinutes(i: int)
    requires -128 <= i < 128
    ensures Int8(TruncDiv(i, 60)) * 60 + Int8(TruncMod(i, 60)) == i
    ensures i >= 0 ==> Int8(TruncDiv(i, 60)) == i / 60 && Int8(TruncMod(i, 60)) == i % 60
  {
  }

  lemma MinutesOfDay(m: nat)
    requires m < 1440
    ensures Int8(m) == m <==> m < 128
  {
  }

  /** The hour and minute are those of the time of day exactly before 02:08:00. */
  lemma ClockExactly(t: int)
    ensures var m, dt := t % 86400 / 60, BreakTime(t);
            (dt.hour == m / 60 && dt.minute == m % 60) <==> m < 128
  {
    BreakTimeParts(t);
    var m := t % SECONDS_PER_DAY / 60;
    MinutesOfDay(m);
    SplitMinutes(Int8(m));
  }
}
