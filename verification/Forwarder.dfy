/**
 The event forwarder of an observed run.

 One goroutine reads the inner run's events, records each in every sink and in the store, and then
 offers it to a 64-slot channel that a consumer empties at its own pace; anybody may cancel. The
 model is a step system: each step is one locked section or one channel operation, and the steps of
 the forwarder, the consumer and the canceller interleave freely.
 */
module Forwarder {
  import opened Core
  import opened Events

  datatype Event = Event(id: string, kind: EventKind)

  datatype Record = Record(sequence: int, event: Event)

  /** A configured sink; `present` is false when its implementation is nil. */
  datatype Sink = Sink(name: string, present: bool, required: bool)

  datatype Config = Config(sinks: seq<Sink>, hasStore: bool)

  const CAPACITY: nat := 64

  datatype Failure = SinkFailed(sink: nat, required: bool) | StoreFailed

  /** Where the forwarder stands. `Recording` has written to the sinks before `next`. */
  datatype Phase =
    | Receiving
    | Received(event: Event)
    | Recording(event: Event, next: nat)
    | Offering(event: Event)
    | Blocked(event: Event)
    | Returned

  datatype Fate = Sent | Dropped

  /**
   `observed` and `fates` are histories: the events read so far, and what became of each event whose
   turn is over.
   */
  datatype State = State(
    phase: Phase,
    cancelled: bool,
    closed: bool,
    sequence: int,
    eventCount: int,
    droppedCount: int,
    sinkLogs: seq<seq<Record>>,
    storeLog: seq<Record>,
    failures: seq<Failure>,
    buffer: seq<Event>,
    delivered: seq<Event>,
    observed: seq<Event>,
    fates: seq<Fate>)

  function Init(c: Config): State {
    State(Receiving, false, false, 0, 0, 0, seq(|c.sinks|, _ => []), [], [], [], [], [], [])
  }

  /** Back-pressure may drop these kinds and no others. */
  predicate Lossy(event: Event) {
    event.kind.Message? || event.kind.Progress?
  }

  datatype Step =
    | Receive(event: Event)                      // the inner run produces an event; it gets a number
    | Count                                      // the run record counts it
    | AppendToSink(ok: bool)
    | AppendToStore(ok: bool, upsertOk: bool)
    | Send
    | Drop
    | Block
    | Abandon                                    // cancellation ends the forwarder with the event in hand
    | Finish                                     // the inner run has closed its events
    | InnerCloses
    | Consume
    | Cancel

  predicate Enabled(c: Config, s: State, step: Step) {
    match step
    case Receive(_) => s.phase.Receiving? && !s.closed
    case Count => s.phase.Received?
    case AppendToSink(_) => s.phase.Recording? && s.phase.next < |c.sinks| && s.phase.next < |s.sinkLogs|
    case AppendToStore(_, _) => s.phase.Recording? && s.phase.next >= |c.sinks|
    case Send => (s.phase.Offering? || s.phase.Blocked?) && |s.buffer| < CAPACITY
    case Drop => s.phase.Offering? && Lossy(s.phase.event) && |s.buffer| >= CAPACITY && !s.cancelled
    case Block => s.phase.Offering? && !Lossy(s.phase.event) && |s.buffer| >= CAPACITY && !s.cancelled
    case Abandon => (s.phase.Offering? || s.phase.Blocked?) && s.cancelled
    case Finish => s.phase.Receiving? && s.closed
    case InnerCloses => !s.closed
    case Consume => s.buffer != []
    case Cancel => true
  }

  function Do(c: Config, s: State, step: Step): State
    requires Enabled(c, s, step)
  {
    match step
    case Receive(event) =>
      s.(phase := Received(event), sequence := s.sequence + 1, observed := s.observed + [event])
    case Count =>
      s.(phase := Recording(s.phase.event, 0), eventCount := s.eventCount + 1)
    case AppendToSink(ok) =>
      var i := s.phase.next;
      var moved := s.(phase := Recording(s.phase.event, i + 1));
      if !c.sinks[i].present then moved
      else
        moved.(sinkLogs := s.sinkLogs[i := s.sinkLogs[i] + [Record(s.sequence, s.phase.event)]],
               failures := s.failures + if ok then [] else [SinkFailed(i, c.sinks[i].required)])
    case AppendToStore(ok, upsertOk) =>
      var moved := s.(phase := Offering(s.phase.event));
      if !c.hasStore then moved
      else
        moved.(storeLog := s.storeLog + [Record(s.sequence, s.phase.event)],
               failures := s.failures + (if ok then [] else [StoreFailed]) + (if upsertOk then [] else [StoreFailed]))
    case Send =>
      s.(phase := Receiving, buffer := s.buffer + [s.phase.event], fates := s.fates + [Sent])
    case Drop =>
      s.(phase := Receiving, droppedCount := s.droppedCount + 1, fates := s.fates + [Dropped])
    case Block => s.(phase := Blocked(s.phase.event))
    case Abandon => s.(phase := Returned)
    case Finish => s.(phase := Returned)
    case InnerCloses => s.(closed := true)
    case Consume => s.(buffer := s.buffer[1..], delivered := s.delivered + [s.buffer[0]])
    case Cancel => s.(cancelled := true)
  }

  /** `steps` is a possible interleaving from the start. */
  ghost predicate Possible(c: Config, steps: seq<Step>)
    decreases |steps|, 0
  {
    steps != [] ==>
      var n := |steps| - 1;
      Possible(c, steps[..n]) && Enabled(c, After(c, steps[..n]), steps[n])
  }

  ghost function After(c: Config, steps: seq<Step>): State
    requires Possible(c, steps)
    decreases |steps|, 1
  {
    if steps == [] then Init(c)
    else Do(c, After(c, steps[..|steps| - 1]), steps[|steps| - 1])
  }

  // ---------------------------------------------------------------- histories

  /** The records of a history: numbered from 1, in order. */
  function Numbered(events: seq<Event>): (r: seq<Record>)
    ensures |r| == |events|
    ensures forall i :: 0 <= i < |r| ==> r[i] == Record(i + 1, events[i])
  {
    seq(|events|, i requires 0 <= i < |events| => Record(i + 1, events[i]))
  }

  /** The events whose fate is to be sent, in order. */
  function SentOf(events: seq<Event>, fates: seq<Fate>): seq<Event>
    requires |fates| <= |events|
  {
    if fates == [] then []
    else
      var n := |fates| - 1;
      SentOf(events, fates[..n]) + if fates[n].Sent? then [events[n]] else []
  }

  function DroppedOf(fates: seq<Fate>): nat {
    if fates == [] then 0
    else DroppedOf(fates[..|fates| - 1]) + if fates[|fates| - 1].Dropped? then 1 else 0
  }

  function LosslessOf(events: seq<Event>): seq<Event> {
    if events == [] then []
    else
      var n := |events| - 1;
      LosslessOf(events[..n]) + if Lossy(events[n]) then [] else [events[n]]
  }

  /** Everything put into the channel, delivered or still buffered, in order. */
  function Channel(s: State): seq<Event> {
    s.delivered + s.buffer
  }

  /** The event in hand, if the forwarder holds one. */
  predicate Holding(s: State) {
    s.phase.Received? || s.phase.Recording? || s.phase.Offering? || s.phase.Blocked?
  }

  // ---------------------------------------------------------------- the invariant

  /** What a log must hold while the forwarder has, or has not yet, written the event in hand to it. */
  ghost function Expected(s: State, written: bool): seq<Record> {
    if (s.phase.Received? || (s.phase.Recording? && !written)) && s.observed != []
    then Numbered(s.observed[..|s.observed| - 1])
    else Numbered(s.observed)
  }

  ghost predicate SinksFollow(c: Config, s: State) {
    && |s.sinkLogs| == |c.sinks|
    && (s.phase.Recording? ==> s.phase.next <= |c.sinks|)
    && (forall i :: 0 <= i < |c.sinks| ==>
          s.sinkLogs[i] == if c.sinks[i].present then Expected(s, s.phase.Recording? && i < s.phase.next) else [])
  }

  ghost predicate StoreFollows(c: Config, s: State) {
    s.storeLog == if c.hasStore then Expected(s, false) else []
  }

  ghost predicate Counted(s: State) {
    && s.sequence == |s.observed|
    && s.eventCount == (if s.phase.Received? then |s.observed| - 1 else |s.observed|)
    && (Holding(s) ==> s.observed != [] && s.phase.event == s.observed[|s.observed| - 1])
  }

  /** Every event but the one in hand, or the one abandoned to a cancellation, has met its fate. */
  ghost predicate Decided(s: State) {
    && (s.phase.Receiving? ==> |s.fates| == |s.observed|)
    && (Holding(s) ==> |s.fates| == |s.observed| - 1)
    && (s.phase.Returned? ==> |s.fates| == |s.observed| || (|s.fates| == |s.observed| - 1 && s.cancelled))
    && (s.phase.Blocked? ==> !Lossy(s.phase.event))
  }

  ghost predicate Accounted(s: State) {
    && |s.fates| <= |s.observed|
    && Channel(s) == SentOf(s.observed, s.fates)
    && s.droppedCount == DroppedOf(s.fates)
    && (forall i :: 0 <= i < |s.fates| && s.fates[i].Dropped? ==> Lossy(s.observed[i]))
    && |s.buffer| <= CAPACITY
    && (s.droppedCount > 0 ==> |Channel(s)| >= CAPACITY)
  }

  lemma StepKeepsCounted(c: Config, s: State, step: Step)
    requires Counted(s) && Decided(s) && Enabled(c, s, step)
    ensures Counted(Do(c, s, step)) && Decided(Do(c, s, step))
  {
  }

  lemma {:induction false} SentIgnoresLater(events: seq<Event>, event: Event, fates: seq<Fate>)
    requires |fates| <= |events|
    ensures SentOf(events + [event], fates) == SentOf(events, fates)
  {
    if fates != [] {
      SentIgnoresLater(events, event, fates[..|fates| - 1]);
    }
  }

  lemma FateKeepsAccounted(s: State, t: State, fate: Fate)
    requires Accounted(s) && |s.fates| < |s.observed|
    requires t.fates == s.fates + [fate] && t.observed == s.observed && |t.buffer| <= CAPACITY
    requires Channel(t) == Channel(s) + (if fate.Sent? then [s.observed[|s.fates|]] else [])
    requires t.droppedCount == s.droppedCount + (if fate.Dropped? then 1 else 0)
    requires fate.Dropped? ==> Lossy(s.observed[|s.fates|]) && |s.buffer| >= CAPACITY
    ensures Accounted(t)
  {
    assert t.fates[..|s.fates|] == s.fates;
  }

  lemma StepKeepsAccounted(c: Config, s: State, step: Step)
    requires Counted(s) && Decided(s) && Accounted(s) && Enabled(c, s, step)
    ensures Accounted(Do(c, s, step))
  {
    hide SentOf, DroppedOf;
    if step.Send? || step.Drop? {
      DecisionKeepsAccounted(c, s, step);
    } else if step.Receive? {
      SentIgnoresLater(s.observed, step.event, s.fates);
    } else {
      assert Channel(Do(c, s, step)) == Channel(s);
    }
  }

  lemma DecisionKeepsAccounted(c: Config, s: State, step: Step)
    requires Counted(s) && Decided(s) && Accounted(s) && Enabled(c, s, step)
    requires step.Send? || step.Drop?
    ensures Accounted(Do(c, s, step))
  {
    hide SentOf, DroppedOf;
    var t := Do(c, s, step);
    if step.Send? {
      assert Channel(t) == Channel(s) + [s.phase.event];
      FateKeepsAccounted(s, t, Sent);
    } else {
      assert Channel(t) == Channel(s) + [];
      FateKeepsAccounted(s, t, Dropped);
    }
  }

  lemma StepKeepsSinks(c: Config, s: State, step: Step)
    requires Counted(s) && SinksFollow(c, s) && Enabled(c, s, step)
    ensures SinksFollow(c, Do(c, s, step))
  {
    hide Numbered;
    if step.AppendToSink? {
      AppendKeepsSinks(c, s, step);
    } else if step.Receive? {
      assert (s.observed + [step.event])[..|s.observed|] == s.observed;
    }
  }

  lemma AppendKeepsSinks(c: Config, s: State, step: Step)
    requires Counted(s) && SinksFollow(c, s) && Enabled(c, s, step) && step.AppendToSink?
    ensures SinksFollow(c, Do(c, s, step))
  {
    hide Numbered;
    NumberedExtends(s.observed);
  }

  lemma StepKeepsStore(c: Config, s: State, step: Step)
    requires Counted(s) && StoreFollows(c, s) && Enabled(c, s, step)
    ensures StoreFollows(c, Do(c, s, step))
  {
    hide Numbered;
    match step
    case Receive(event) => assert (s.observed + [event])[..|s.observed|] == s.observed;
    case AppendToStore(_, _) => NumberedExtends(s.observed);
    case _ =>
  }

  lemma NumberedExtends(events: seq<Event>)
    requires events != []
    ensures var n := |events| - 1; Numbered(events) == Numbered(events[..n]) + [Record(n + 1, events[n])]
  {
  }

  ghost predicate Inv(c: Config, s: State) {
    Counted(s) && Decided(s) && Accounted(s) && SinksFollow(c, s) && StoreFollows(c, s)
  }

  lemma {:induction false} InvariantHoldsAlways(c: Config, steps: seq<Step>)
    requires Possible(c, steps)
    ensures Inv(c, After(c, steps))
  {
    if steps != [] {
      var n := |steps| - 1;
      InvariantHoldsAlways(c, steps[..n]);
      StepKeepsCounted(c, After(c, steps[..n]), steps[n]);
      StepKeepsAccounted(c, After(c, steps[..n]), steps[n]);
      StepKeepsSinks(c, After(c, steps[..n]), steps[n]);
      StepKeepsStore(c, After(c, steps[..n]), steps[n]);
    }
  }

  // ---------------------------------------------------------------- what holds in every reachable state

  lemma {:induction false} FatesPartition(events: seq<Event>, fates: seq<Fate>)
    requires |fates| <= |events|
    ensures |SentOf(events, fates)| + DroppedOf(fates) == |fates|
  {
    if fates != [] {
      FatesPartition(events, fates[..|fates| - 1]);
    }
  }

  /**
   Conservation: every counted event is in the channel, or counted as dropped, or is the single one
   the forwarder holds or abandoned to a cancellation.
   */
  lemma EventsAreConserved(c: Config, steps: seq<Step>)
    requires Possible(c, steps)
    ensures var s := After(c, steps);
            var missing := s.eventCount - |Channel(s)| - s.droppedCount;
            && 0 <= missing <= 1
            && (missing == 1 ==>
                s.phase.Recording? || s.phase.Offering? || s.phase.Blocked? || (s.phase.Returned? && s.cancelled))
            && (s.phase.Receiving? || s.phase.Received? ==> missing == 0)
  {
    InvariantHoldsAlways(c, steps);
    FatesPartition(After(c, steps).observed, After(c, steps).fates);
  }

  /** Every sink and the store hold the numbers 1, 2, 3, ... of the observed events, in order. */
  lemma RecordsAreNumberedInOrder(c: Config, steps: seq<Step>, i: nat)
    requires Possible(c, steps) && i < |c.sinks| && c.sinks[i].present
    ensures var s := After(c, steps);
            && s.sequence == |s.observed| && s.eventCount <= s.sequence <= s.eventCount + 1
            && |s.sinkLogs| == |c.sinks|
            && |s.observed| - 1 <= |s.sinkLogs[i]| <= |s.observed|
            && s.sinkLogs[i] == Numbered(s.observed)[..|s.sinkLogs[i]|]
            && (!s.phase.Received? && !s.phase.Recording? ==> s.sinkLogs[i] == Numbered(s.observed))
            && (c.hasStore && !s.phase.Received? && !s.phase.Recording? ==> s.storeLog == Numbered(s.observed))
  {
    InvariantHoldsAlways(c, steps);
  }

  /** An event is in every sink and in the store before any consumer can receive it. */
  lemma RecordedBeforeDelivered(c: Config, steps: seq<Step>, i: nat)
    requires Possible(c, steps) && i < |c.sinks| && c.sinks[i].present
    ensures var s := After(c, steps);
            && |s.sinkLogs| == |c.sinks|
            && |Channel(s)| <= |s.fates| <= |s.sinkLogs[i]|
            && |s.fates| <= |s.observed| && Channel(s) == SentOf(s.observed, s.fates)
            && (forall k :: 0 <= k < |s.fates| ==> s.sinkLogs[i][k] == Record(k + 1, s.observed[k]))
            && (c.hasStore ==> |s.fates| <= |s.storeLog| && forall k :: 0 <= k < |s.fates| ==>
                s.storeLog[k] == Record(k + 1, s.observed[k]))
  {
    InvariantHoldsAlways(c, steps);
    FatesPartition(After(c, steps).observed, After(c, steps).fates);
  }

  lemma {:induction false} LosslessAppend(a: seq<Event>, event: Event)
    ensures LosslessOf(a + [event]) == LosslessOf(a) + if Lossy(event) then [] else [event]
  {
    assert (a + [event])[..|a|] == a;
  }

  lemma {:induction false} OnlyLossyMissing(events: seq<Event>, fates: seq<Fate>)
    requires |fates| <= |events|
    requires forall i :: 0 <= i < |fates| && fates[i].Dropped? ==> Lossy(events[i])
    ensures LosslessOf(SentOf(events, fates)) == LosslessOf(events[..|fates|])
  {
    if fates != [] {
      var n := |fates| - 1;
      OnlyLossyMissing(events, fates[..n]);
      assert events[..n + 1] == events[..n] + [events[n]];
      LosslessAppend(events[..n], events[n]);
      LosslessAppend(SentOf(events, fates[..n]), events[n]);
      assert SentOf(events, fates[..n]) + [] == SentOf(events, fates[..n]);
    }
  }

  /**
   Back-pressure never costs a lossless event: apart from the one in hand, the channel carries exactly
   the lossless events observed, in order. Without cancellation none is ever lost.
   */
  lemma LosslessEventsAllArrive(c: Config, steps: seq<Step>)
    requires Possible(c, steps)
    ensures var s := After(c, steps);
            && |s.fates| <= |s.observed|
            && LosslessOf(Channel(s)) == LosslessOf(s.observed[..|s.fates|])
            && (s.phase.Receiving? || (s.phase.Returned? && !s.cancelled) ==>
                LosslessOf(Channel(s)) == LosslessOf(s.observed))
  {
    InvariantHoldsAlways(c, steps);
    var s := After(c, steps);
    OnlyLossyMissing(s.observed, s.fates);
    assert |s.fates| == |s.observed| ==> s.observed[..|s.fates|] == s.observed;
  }

  lemma {:induction false} SentIsSubsequence(events: seq<Event>, fates: seq<Fate>)
    requires |fates| <= |events|
    ensures Subsequence(SentOf(events, fates), events[..|fates|])
  {
    if fates != [] {
      var n := |fates| - 1;
      SentIsSubsequence(events, fates[..n]);
      assert events[..n + 1][..n] == events[..n];
      assert events[..n + 1] == events[..n] + [events[n]];
      SubsequenceExtends(SentOf(events, fates[..n]), events[..n], events[n]);
      assert SentOf(events, fates[..n]) + [] == SentOf(events, fates[..n]);
    }
  }

  /** Nothing is delivered twice, out of order or without having been observed. */
  lemma DeliveryIsOrderedSubsequence(c: Config, steps: seq<Step>)
    requires Possible(c, steps)
    ensures var s := After(c, steps);
            |s.fates| <= |s.observed| && Subsequence(Channel(s), s.observed[..|s.fates|])
  {
    InvariantHoldsAlways(c, steps);
    SentIsSubsequence(After(c, steps).observed, After(c, steps).fates);
  }

  /** A drop needs a full channel: runs that observe no more than its capacity lose nothing. */
  lemma ShortRunsDropNothing(c: Config, steps: seq<Step>)
    requires Possible(c, steps) && |After(c, steps).observed| <= CAPACITY
    ensures After(c, steps).droppedCount == 0
  {
    InvariantHoldsAlways(c, steps);
    FatesPartition(After(c, steps).observed, After(c, steps).fates);
  }

  // ---------------------------------------------------------------- progress

  /** The forwarder's own steps. Taking the next event is the inner run's, which has to produce one. */
  predicate Own(step: Step) {
    step.Count? || step.AppendToSink? || step.AppendToStore? || step.Send? || step.Drop? || step.Block? || step.Abandon?
      || step.Finish?
  }

  ghost predicate CanMove(c: Config, s: State) {
    exists step: Step :: Own(step) && Enabled(c, s, step)
  }

  /**
   The forwarder waits in two places only: for the inner run to produce an event or close, which not even
   cancellation cuts short, and for room for a lossless event. Sinks and store answer in their own time.
   */
  lemma StallsOnlyOnInnerRunOrLosslessEvent(c: Config, steps: seq<Step>)
    requires Possible(c, steps)
    ensures var s := After(c, steps);
            !CanMove(c, s) <==>
              || s.phase.Returned?
              || (s.phase.Receiving? && !s.closed)
              || (s.phase.Blocked? && !MayBeLost(s.phase.event) && |s.buffer| == 64 && !s.cancelled)
  {
    InvariantHoldsAlways(c, steps);
    var s := After(c, steps);
    match s.phase
    case Receiving => assert s.closed ==> Enabled(c, s, Finish);
    case Received(_) => assert Enabled(c, s, Count);
    case Recording(_, next) =>
      assert Enabled(c, s, if next < |c.sinks| then AppendToSink(true) else AppendToStore(true, true));
    case Offering(event) =>
      assert Enabled(c, s, if |s.buffer| < CAPACITY then Send else if s.cancelled then Abandon
                     else if Lossy(event) then Drop else Block);
    case Blocked(_) =>
      assert |s.buffer| < CAPACITY ==> Enabled(c, s, Send);
      assert s.cancelled ==> Enabled(c, s, Abandon);
    case Returned =>
  }

  /** The most own steps that can follow before the forwarder returns or needs another event. */
  function Remaining(c: Config, phase: Phase): nat {
    match phase
    case Returned => 0
    case Receiving => 1
    case Blocked(_) => 2
    case Offering(_) => 3
    case Recording(_, next) => 4 + if next < |c.sinks| then |c.sinks| - next else 0
    case Received(_) => 5 + |c.sinks|
  }

  lemma StepRunsDown(c: Config, s: State, step: Step)
    requires Enabled(c, s, step)
    ensures Own(step) ==> Remaining(c, Do(c, s, step).phase) < Remaining(c, s.phase)
    ensures step.Receive? ==> Remaining(c, Do(c, s, step).phase) == Remaining(c, s.phase) + |c.sinks| + 4
    ensures !Own(step) && !step.Receive? ==> Do(c, s, step).phase == s.phase
    ensures |Do(c, s, step).observed| == |s.observed| + if step.Receive? then 1 else 0
    ensures s.closed ==> Do(c, s, step).closed && !step.Receive?
  {
  }

  function OwnSteps(steps: seq<Step>): nat {
    if steps == [] then 0 else OwnSteps(steps[..|steps| - 1]) + if Own(steps[|steps| - 1]) then 1 else 0
  }

  /** Every event costs the forwarder a bounded number of steps, however the others interleave. */
  lemma {:induction false} WorkIsBounded(c: Config, steps: seq<Step>)
    requires Possible(c, steps)
    ensures OwnSteps(steps) + Remaining(c, After(c, steps).phase) <= 1 + |After(c, steps).observed| * (|c.sinks| + 4)
  {
    hide Do, Enabled, Remaining, Own;
    if steps != [] {
      var n := |steps| - 1;
      var s := After(c, steps[..n]);
      WorkIsBounded(c, steps[..n]);
      StepRunsDown(c, s, steps[n]);
      OneMoreEvent(|s.observed|, |c.sinks| + 4);
    } else {
      StartsReceiving(c);
    }
  }

  lemma OneMoreEvent(k: nat, cost: nat)
    ensures (k + 1) * cost == k * cost + cost
  {
  }

  lemma StartsReceiving(c: Config)
    ensures Remaining(c, Init(c).phase) == 1 && !Init(c).closed
  {
  }

  /** Once the inner run has closed, the forwarder returns after at most five steps and one for each sink. */
  lemma {:induction false} ReturnsSoonAfterClose(c: Config, steps: seq<Step>, from: nat)
    requires Possible(c, steps) && from <= |steps| && Possible(c, steps[..from]) && After(c, steps[..from]).closed
    ensures OwnSteps(steps) - OwnSteps(steps[..from]) <= |c.sinks| + 5
    ensures After(c, steps).closed
    ensures OwnSteps(steps) + Remaining(c, After(c, steps).phase) <=
              OwnSteps(steps[..from]) + Remaining(c, After(c, steps[..from]).phase)
    decreases |steps|
  {
    hide Do, Enabled, Own;
    if from < |steps| {
      var n := |steps| - 1;
      assert steps[..n][..from] == steps[..from];
      ReturnsSoonAfterClose(c, steps[..n], from);
      StepRunsDown(c, After(c, steps[..n]), steps[n]);
    } else {
      assert steps[..from] == steps;
    }
  }

  // ---------------------------------------------------------------- what may be dropped, spelled out

  /** Messages and progress reports; everything else has to arrive. */
  predicate MayBeLost(event: Event) {
    event.kind == Message || event.kind == Progress
  }

  /** The events that have to arrive, in order. */
  function MustArrive(events: seq<Event>): seq<Event> {
    if events == [] then []
    else
      var n := |events| - 1;
      MustArrive(events[..n]) + if MayBeLost(events[n]) then [] else [events[n]]
  }

  /** Nothing but a message or a progress report is ever dropped, and nothing without 64 events in the channel. */
  lemma OnlyMessagesAndProgressAreDropped(c: Config, steps: seq<Step>, i: nat)
    requires Possible(c, steps)
    ensures var s := After(c, steps);
            && |s.fates| <= |s.observed|
            && (i < |s.fates| && s.fates[i].Dropped? ==>
                  s.observed[i].kind == Message || s.observed[i].kind == Progress)
            && (s.droppedCount > 0 ==> |s.observed| > 64) && |s.buffer| <= 64
  {
    InvariantHoldsAlways(c, steps);
    FatesPartition(After(c, steps).observed, After(c, steps).fates);
  }

  lemma {:induction false} LosslessMustArrive(events: seq<Event>)
    ensures MustArrive(events) == LosslessOf(events)
  {
    if events != [] {
      LosslessMustArrive(events[..|events| - 1]);
    }
  }

  /** All other events arrive, in order: at once those behind them, and in the end all of an uncancelled run. */
  lemma TheRestArrivesInOrder(c: Config, steps: seq<Step>)
    requires Possible(c, steps)
    ensures var s := After(c, steps);
            && |s.observed| - 1 <= |s.fates| <= |s.observed|
            && MustArrive(Channel(s)) == MustArrive(s.observed[..|s.fates|])
            && (s.phase.Returned? && !s.cancelled ==> MustArrive(Channel(s)) == MustArrive(s.observed))
  {
    InvariantHoldsAlways(c, steps);
    LosslessEventsAllArrive(c, steps);
    var s := After(c, steps);
    LosslessMustArrive(Channel(s));
    LosslessMustArrive(s.observed);
    LosslessMustArrive(s.observed[..|s.fates|]);
  }

  /** When the channel is full and nobody has cancelled, the forwarder drops the one kind and waits with the other. */
  lemma FullChannelDropsOrBlocks(c: Config, steps: seq<Step>)
    requires Possible(c, steps) && After(c, steps).phase.Offering?
    ensures var s := After(c, steps);
            && (Enabled(c, s, Drop) <==> |s.buffer| == 64 && !s.cancelled && MayBeLost(s.phase.event))
            && (Enabled(c, s, Block) <==> |s.buffer| == 64 && !s.cancelled && !MayBeLost(s.phase.event))
            && (Enabled(c, s, Send) <==> |s.buffer| < 64)
            && (Enabled(c, s, Abandon) <==> s.cancelled)
  {
    InvariantHoldsAlways(c, steps);
  }

  /** A sink without an implementation is left alone, and so is a store that is not there. */
  lemma AbsentSinksAreSkipped(c: Config, steps: seq<Step>, i: nat)
    requires Possible(c, steps) && i < |c.sinks|
    ensures var s := After(c, steps);
            && |s.sinkLogs| == |c.sinks|
            && (!c.sinks[i].present ==> s.sinkLogs[i] == []) && (!c.hasStore ==> s.storeLog == [])
  {
    InvariantHoldsAlways(c, steps);
  }

  // ---------------------------------------------------------------- required sinks

  function RequiredFailures(failures: seq<Failure>): seq<Failure> {
    if failures == [] then []
    else
      (if failures[0].SinkFailed? && failures[0].required then [failures[0]] else [])
      + RequiredFailures(failures[1..])
  }

  /** The error `Wait` returns: the run's own, else the first failure of a required sink. */
  function WaitError(primary: Option<SdkError>, failures: seq<Failure>): Option<SdkError> {
    if primary.Some? then primary
    else if RequiredFailures(failures) != [] then Some(SdkError(ErrorCategory.Unknown, "required sink failed"))
    else None
  }

  /** Step `k` writes to a required sink and fails. */
  ghost predicate FailsRequired(c: Config, steps: seq<Step>, k: nat)
    requires Possible(c, steps) && k < |steps|
  {
    PossiblePrefix(c, steps, k);
    var s := After(c, steps[..k]);
    && steps[k] == AppendToSink(false) && s.phase.Recording? && s.phase.next < |c.sinks|
    && c.sinks[s.phase.next].present && c.sinks[s.phase.next].required
  }

  lemma {:induction false} PossiblePrefix(c: Config, steps: seq<Step>, k: nat)
    requires Possible(c, steps) && k <= |steps|
    ensures Possible(c, steps[..k])
    decreases |steps|
  {
    if k < |steps| {
      PossiblePrefix(c, steps[..|steps| - 1], k);
      assert steps[..|steps| - 1][..k] == steps[..k];
    } else {
      assert steps[..k] == steps;
    }
  }

  lemma {:induction false} RequiredAppend(a: seq<Failure>, b: seq<Failure>)
    ensures RequiredFailures(a + b) == RequiredFailures(a) + RequiredFailures(b)
  {
    if a == [] {
      assert a + b == b;
    } else {
      assert (a + b)[1..] == a[1..] + b;
      RequiredAppend(a[1..], b);
    }
  }

  lemma StepRequiredFailures(c: Config, s: State, step: Step)
    requires Enabled(c, s, step)
    ensures RequiredFailures(Do(c, s, step).failures) == [] <==>
              RequiredFailures(s.failures) == [] &&
              !(step == AppendToSink(false) && c.sinks[s.phase.next].present && c.sinks[s.phase.next].required)
  {
    match step
    case AppendToSink(ok) =>
      RequiredAppend(s.failures, if ok then [] else [SinkFailed(s.phase.next, c.sinks[s.phase.next].required)]);
    case AppendToStore(ok, upsertOk) =>
      StoreFailuresAreNotRequired(s.failures, ok);
      StoreFailuresAreNotRequired(s.failures + (if ok then [] else [StoreFailed]), upsertOk);
    case _ =>
  }

  lemma StoreFailuresAreNotRequired(failures: seq<Failure>, ok: bool)
    ensures RequiredFailures(failures + (if ok then [] else [StoreFailed])) == RequiredFailures(failures)
  {
    RequiredAppend(failures, if ok then [] else [StoreFailed]);
  }

  /** A run without an error of its own fails exactly when some write to a required sink failed. */
  lemma {:induction false} WaitFailsIffRequiredSinkFailed(c: Config, steps: seq<Step>)
    requires Possible(c, steps)
    ensures WaitError(None, After(c, steps).failures).None? <==>
              forall k: nat :: k < |steps| ==> !FailsRequired(c, steps, k)
  {
    if steps != [] {
      var n := |steps| - 1;
      var earlier := steps[..n];
      WaitFailsIffRequiredSinkFailed(c, earlier);
      StepRequiredFailures(c, After(c, earlier), steps[n]);
      forall k: nat | k < n
        ensures FailsRequired(c, earlier, k) == FailsRequired(c, steps, k)
      {
        assert earlier[..k] == steps[..k];
      }
      assert FailsRequired(c, steps, n) <==>
               steps[n] == AppendToSink(false) && After(c, earlier).phase.Recording?
                 && After(c, earlier).phase.next < |c.sinks|
               && c.sinks[After(c, earlier).phase.next].present && c.sinks[After(c, earlier).phase.next].required;
    }
  }

  /** The run's own error comes first; without one, `Wait` fails exactly when a required sink is among the failures. */
  lemma {:induction false} WaitFailsInWords(primary: Option<SdkError>, failures: seq<Failure>)
    ensures primary.Some? ==> WaitError(primary, failures) == primary
    ensures primary.None? ==>
              (WaitError(primary, failures).Some? <==>
               exists i :: 0 <= i < |failures| && failures[i].SinkFailed? && failures[i].required)
  {
    if failures != [] {
      WaitFailsInWords(primary, failures[1..]);
      assert forall i :: 0 <= i < |failures| - 1 ==> failures[1..][i] == failures[i + 1];
      if i :| 0 <= i < |failures| && failures[i].SinkFailed? && failures[i].required {
        assert i > 0 ==> failures[1..][i - 1] == failures[i];
      }
    }
  }
}
