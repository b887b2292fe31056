/**
 What holds of the run store over every run of calls, whatever the clock returns: the index stays
 coherent and bounded, the oldest runs leave first, and events are never lost while they fit.
 Where the store does less than a reader would expect, the exact condition is proved.
 */
module RunStoreRuns {
  import opened Core
  import opened RunStore

  // ---------------------------------------------------------------- coherence and capacity

  ghost predicate WithinCapacity(limits: Limits, m: Model) {
    limits.maxCompleted >= 0 ==> |m.order| <= limits.maxCompleted
  }

  /** Coherence survives every call; capacity is restored by every call that can grow the queue. */
  lemma ApplyKeepsIndex(limits: Limits, m: Model, op: Op)
    requires Coherent(m) && WithinCapacity(limits, m)
    ensures Coherent(Apply(limits, m, op)) && WithinCapacity(limits, Apply(limits, m, op))
  {
    match op
    case Upsert(record, stampedAt, sweptAt) =>
      if record.status.Terminal() {
        var n := Complete(m, record, stampedAt);
        CompleteKeepsCoherent(m, record, stampedAt);
        DropKeepsCoherent(n, SweepCount(limits, n, sweptAt));
      } else {
        ActiveIsNotIndexed(m, m.active[record.runId := record]);
      }
    case Append(event) => HistoryIsNotIndexed(m, Apply(limits, m, op).history);
    case GetCompleted(at) => DropKeepsCoherent(m, SweepCount(limits, m, at));
    case ListEvents(at) => DropKeepsCoherent(m, SweepCount(limits, m, at));
    case ListActive =>
  }

  lemma {:induction false} IndexIsCoherentInEveryRun(limits: Limits, ops: seq<Op>)
    ensures Coherent(Run(limits, ops)) && WithinCapacity(limits, Run(limits, ops))
  {
    if ops != [] {
      IndexIsCoherentInEveryRun(limits, ops[..|ops| - 1]);
      ApplyKeepsIndex(limits, Run(limits, ops[..|ops| - 1]), ops[|ops| - 1]);
    }
  }

  // ---------------------------------------------------------------- what a sweep removes

  /** A dropped run is forgotten entirely; every other run keeps its record, stamp and events. */
  lemma {:induction false} DropForgetsExactly(m: Model, k: nat, id: RunId)
    requires Coherent(m) && k <= |m.order|
    ensures id in m.order[..k] ==>
              id !in Drop(m, k).completed && id !in Drop(m, k).storedAt && History(Drop(m, k), id) == []
    ensures id !in m.order[..k] ==>
              && History(Drop(m, k), id) == History(m, id)
              && (id in m.completed <==> id in Drop(m, k).completed)
              && (id in m.completed ==>
                  id in Drop(m, k).storedAt && Drop(m, k).completed[id] == m.completed[id]
                    && Drop(m, k).storedAt[id] == m.storedAt[id])
    ensures Drop(m, k).active == m.active
    decreases k
  {
    if k > 0 {
      DropHeadKeepsCoherent(m);
      hide Coherent;
      DropForgetsExactly(DropHead(m), k - 1, id);
      assert m.order[..k] == [m.order[0]] + m.order[1..][..k - 1];
      if id == m.order[0] {
        Forgotten(DropHead(m), k - 1, id);
      } else {
        assert id in m.order[..k] <==> id in DropHead(m).order[..k - 1];
      }
    }
  }

  /** What is already gone stays gone. */
  lemma {:induction false} Forgotten(m: Model, k: nat, id: RunId)
    requires k <= |m.order|
    requires id !in m.completed && id !in m.storedAt && id !in m.history
    ensures id !in Drop(m, k).completed && id !in Drop(m, k).storedAt && id !in Drop(m, k).history
    decreases k
  {
    if k > 0 {
      Forgotten(DropHead(m), k - 1, id);
    }
  }

  /** Every run of the expired head is expired, and the run after it is not. */
  lemma {:induction false} ExpiredHeadIsExact(m: Model, order: seq<RunId>, cutoff: Time)
    ensures forall i :: 0 <= i < ExpiredHead(m, order, cutoff) ==> Expired(m, order[i], cutoff)
    ensures ExpiredHead(m, order, cutoff) < |order| ==> !Expired(m, order[ExpiredHead(m, order, cutoff)], cutoff)
  {
    if order != [] && Expired(m, order[0], cutoff) {
      ExpiredHeadIsExact(m, order[1..], cutoff);
      forall i | 0 <= i < ExpiredHead(m, order, cutoff)
        ensures Expired(m, order[i], cutoff)
      {
        assert i > 0 ==> order[i] == order[1..][i - 1];
      }
    }
  }

  lemma DropRemovesPrefix(m: Model, k: nat, i: nat)
    requires Coherent(m) && k <= |m.order| && i < |m.order|
    ensures i < k <==> m.order[i] !in Drop(m, k).completed
  {
    if i < k {
      assert m.order[i] in m.order[..k];
      DropForgetsExactly(m, k, m.order[i]);
    } else {
      DropKeepsCoherent(m, k);
      assert m.order[i] == Drop(m, k).order[i - k];
    }
  }

  /**
   Eviction is FIFO and never early: a sweep removes a prefix of the queue, and a run it removes is
   past its TTL or has at least `maxCompleted` younger runs behind it.
   */
  lemma SweepRemovesOnlyExpiredOrOverflow(limits: Limits, m: Model, now: Time, i: nat)
    requires Coherent(m) && i < |m.order|
    ensures Sweep(limits, m, now).order == m.order[SweepCount(limits, m, now)..]
    ensures i < SweepCount(limits, m, now) <==> m.order[i] !in Sweep(limits, m, now).completed
    ensures m.order[i] !in Sweep(limits, m, now).completed ==>
              || (limits.ttl > 0 && Expired(m, m.order[i], now - limits.ttl))
              || (limits.maxCompleted >= 0 && |m.order| - 1 - i >= limits.maxCompleted)
  {
    hide Coherent, Drop;
    DropRemovesPrefix(m, SweepCount(limits, m, now), i);
    if limits.ttl > 0 {
      ExpiredHeadIsExact(m, m.order, now - limits.ttl);
    }
  }

  /** A terminal record can be read back at once, unless the clock jumped past the TTL in between. */
  lemma TerminalUpsertIsRetained(limits: Limits, m: Model, record: RunRecord, stampedAt: Time, sweptAt: Time)
    requires Coherent(m) && WithinCapacity(limits, m)
    requires record.status.Terminal() && limits.maxCompleted != 0
    requires limits.ttl > 0 ==> sweptAt - stampedAt <= limits.ttl
    ensures var n := Apply(limits, m, Upsert(record, stampedAt, sweptAt));
            record.runId in n.completed && n.completed[record.runId] == record
  {
    var n := Complete(m, record, stampedAt);
    CompleteKeepsCoherent(m, record, stampedAt);
    var i: nat := |m.order|;
    if record.runId in m.completed {
      assert record.runId in m.order;
      i :| i < |m.order| && m.order[i] == record.runId;
    }
    SweepRemovesOnlyExpiredOrOverflow(limits, n, sweptAt, i);
    DropForgetsExactly(n, SweepCount(limits, n, sweptAt), record.runId);
  }

  // ---------------------------------------------------------------- the head-only TTL scan

  /** The runs that are not expired, in queue order: what a full scan would keep. */
  function Live(m: Model, order: seq<RunId>, cutoff: Time): seq<RunId> {
    if order == [] then []
    else (if Expired(m, order[0], cutoff) then [] else [order[0]]) + Live(m, order[1..], cutoff)
  }

  /** Older positions carry older stamps. */
  ghost predicate StampsOrdered(storedAt: map<RunId, Time>, order: seq<RunId>) {
    forall i, j :: 0 <= i < j < |order| ==>
      order[i] in storedAt && order[j] in storedAt && storedAt[order[i]] <= storedAt[order[j]]
  }

  /** The scan that stops at the first live run keeps what a full scan keeps. */
  ghost predicate HeadScanIsFullScan(m: Model, order: seq<RunId>, cutoff: Time) {
    order[ExpiredHead(m, order, cutoff)..] == Live(m, order, cutoff)
  }

  lemma {:induction false} NothingExpiredIsAllLive(m: Model, order: seq<RunId>, cutoff: Time)
    requires forall i :: 0 <= i < |order| ==> !Expired(m, order[i], cutoff)
    ensures Live(m, order, cutoff) == order
  {
    if order != [] {
      NothingExpiredIsAllLive(m, order[1..], cutoff);
    }
  }

  lemma {:induction false} LiveRunsAreNotExpired(m: Model, order: seq<RunId>, cutoff: Time, id: RunId)
    requires id in Live(m, order, cutoff)
    ensures id in order && !Expired(m, id, cutoff)
  {
    if Expired(m, order[0], cutoff) || id != order[0] {
      LiveRunsAreNotExpired(m, order[1..], cutoff, id);
    }
  }

  lemma {:induction false} OrderedStampsScanFully(m: Model, order: seq<RunId>, cutoff: Time)
    requires StampsOrdered(m.storedAt, order)
    ensures HeadScanIsFullScan(m, order, cutoff)
  {
    if order != [] {
      if Expired(m, order[0], cutoff) {
        OrderedStampsScanFully(m, order[1..], cutoff);
        assert order[ExpiredHead(m, order, cutoff)..] == order[1..][ExpiredHead(m, order[1..], cutoff)..];
      } else {
        NothingExpiredIsAllLive(m, order, cutoff);
      }
    }
  }

  /** A run behind a younger one is missed by the scan once it expires. */
  lemma DisorderHidesARun(m: Model, order: seq<RunId>, i: nat, j: nat)
    requires i < j < |order| && order[i] in m.storedAt && order[j] in m.storedAt
    requires m.storedAt[order[i]] > m.storedAt[order[j]]
    ensures !HeadScanIsFullScan(m, order, m.storedAt[order[i]])
  {
    hide Live, ExpiredHead;
    var cutoff := m.storedAt[order[i]];
    var k := ExpiredHead(m, order, cutoff);
    ExpiredHeadIsExact(m, order, cutoff);
    assert order[k..][j - k] == order[j];
    if order[j] in Live(m, order, cutoff) {
      LiveRunsAreNotExpired(m, order, cutoff, order[j]);
    }
  }

  lemma QueuedRunsAreStamped(m: Model)
    requires Coherent(m)
    ensures forall i :: 0 <= i < |m.order| ==> m.order[i] in m.storedAt
  {
    forall i | 0 <= i < |m.order|
      ensures m.order[i] in m.storedAt
    {
      assert m.order[i] in m.completed;
    }
  }

  /** Stopping at the first live run is right for every cutoff exactly when stamps follow the queue. */
  lemma HeadScanIsExactIffStampsOrdered(m: Model)
    requires Coherent(m)
    ensures (forall cutoff :: HeadScanIsFullScan(m, m.order, cutoff)) <==> StampsOrdered(m.storedAt, m.order)
  {
    QueuedRunsAreStamped(m);
    hide Coherent, HeadScanIsFullScan;
    if StampsOrdered(m.storedAt, m.order) {
      forall cutoff: Time
        ensures HeadScanIsFullScan(m, m.order, cutoff)
      {
        OrderedStampsScanFully(m, m.order, cutoff);
      }
    } else {
      var i, j :| 0 <= i < j < |m.order| && m.storedAt[m.order[i]] > m.storedAt[m.order[j]];
      DisorderHidesARun(m, m.order, i, j);
    }
  }

  predicate IsTerminalUpsert(op: Op) {
    op.Upsert? && op.record.status.Terminal()
  }

  /** The stamps a store hands out never go back. */
  ghost predicate ClockAdvances(ops: seq<Op>) {
    forall i, j :: 0 <= i < j < |ops| && IsTerminalUpsert(ops[i]) && IsTerminalUpsert(ops[j]) ==>
      ops[i].stampedAt <= ops[j].stampedAt
  }

  /** No terminal record is reported again while the run is still retained. */
  ghost predicate ReportedOnce(limits: Limits, ops: seq<Op>) {
    forall k :: 0 <= k < |ops| && IsTerminalUpsert(ops[k]) ==>
      ops[k].record.runId !in Run(limits, ops[..k]).completed
  }

  /** Every stamp in the store was handed to a terminal upsert of the run. */
  ghost predicate StampsHaveOrigin(storedAt: map<RunId, Time>, ops: seq<Op>) {
    forall id :: id in storedAt ==>
      exists k :: 0 <= k < |ops| && IsTerminalUpsert(ops[k]) && ops[k].stampedAt == storedAt[id]
  }

  lemma DropHeadKeepsStamps(m: Model, ops: seq<Op>)
    requires Coherent(m) && StampsOrdered(m.storedAt, m.order) && StampsHaveOrigin(m.storedAt, ops) && m.order != []
    ensures StampsOrdered(DropHead(m).storedAt, m.order[1..]) && StampsHaveOrigin(DropHead(m).storedAt, ops)
  {
    var n := DropHead(m);
    DropHeadKeepsCoherent(m);
    forall i, j | 0 <= i < j < |n.order|
      ensures n.order[i] in n.storedAt && n.order[j] in n.storedAt && n.storedAt[n.order[i]] <= n.storedAt[n.order[j]]
    {
      assert n.order[i] == m.order[i + 1] && n.order[j] == m.order[j + 1];
      assert n.order[i] in n.completed && n.order[j] in n.completed;
    }
  }

  lemma {:induction false} DropKeepsStamps(m: Model, k: nat, ops: seq<Op>)
    requires Coherent(m) && StampsOrdered(m.storedAt, m.order) && StampsHaveOrigin(m.storedAt, ops) && k <= |m.order|
    ensures StampsOrdered(Drop(m, k).storedAt, Drop(m, k).order) && StampsHaveOrigin(Drop(m, k).storedAt, ops)
    decreases k
  {
    hide Coherent, StampsOrdered, StampsHaveOrigin;
    if k > 0 {
      DropHeadKeepsCoherent(m);
      DropHeadKeepsStamps(m, ops);
      DropKeepsStamps(DropHead(m), k - 1, ops);
    }
  }

  lemma SweepKeepsStamps(limits: Limits, m: Model, now: Time, ops: seq<Op>)
    requires Coherent(m) && StampsOrdered(m.storedAt, m.order) && StampsHaveOrigin(m.storedAt, ops)
    ensures var n := Sweep(limits, m, now); StampsOrdered(n.storedAt, n.order) && StampsHaveOrigin(n.storedAt, ops)
  {
    hide Coherent, StampsOrdered, StampsHaveOrigin;
    DropKeepsStamps(m, SweepCount(limits, m, now), ops);
  }

  lemma CompleteKeepsStamps(m: Model, op: Op, ops: seq<Op>)
    requires Coherent(m) && StampsOrdered(m.storedAt, m.order) && StampsHaveOrigin(m.storedAt, ops)
    requires IsTerminalUpsert(op) && op.record.runId !in m.completed && ClockAdvances(ops + [op])
    ensures var n := Complete(m, op.record, op.stampedAt);
            StampsOrdered(n.storedAt, n.order) && StampsHaveOrigin(n.storedAt, ops + [op])
  {
    var id, n := op.record.runId, Complete(m, op.record, op.stampedAt);
    assert (ops + [op])[|ops|] == op;
    forall i, j | 0 <= i < j < |n.order|
      ensures n.order[i] in n.storedAt && n.order[j] in n.storedAt && n.storedAt[n.order[i]] <= n.storedAt[n.order[j]]
    {
      assert n.order[i] == m.order[i] && m.order[i] in m.completed;
      if j < |m.order| {
        assert n.order[j] == m.order[j] && m.order[j] in m.completed;
      } else {
        var k :| 0 <= k < |ops| && IsTerminalUpsert(ops[k]) && ops[k].stampedAt == m.storedAt[m.order[i]];
        assert (ops + [op])[k] == ops[k];
      }
    }
    forall other | other in n.storedAt
      ensures exists k :: 0 <= k < |ops + [op]| && IsTerminalUpsert((ops + [op])[k])
                && (ops + [op])[k].stampedAt == n.storedAt[other]
    {
      if other != id {
        var k :| 0 <= k < |ops| && IsTerminalUpsert(ops[k]) && ops[k].stampedAt == m.storedAt[other];
        assert (ops + [op])[k] == ops[k];
      }
    }
  }

  lemma CallKeepsStamps(limits: Limits, m: Model, op: Op, earlier: seq<Op>)
    requires Coherent(m) && StampsOrdered(m.storedAt, m.order) && StampsHaveOrigin(m.storedAt, earlier)
    requires ClockAdvances(earlier + [op]) && (IsTerminalUpsert(op) ==> op.record.runId !in m.completed)
    ensures var n := Apply(limits, m, op);
            StampsOrdered(n.storedAt, n.order) && StampsHaveOrigin(n.storedAt, earlier + [op])
  {
    hide StampsOrdered, StampsHaveOrigin, Coherent, Sweep, Complete, ClockAdvances;
    OriginExtends(m, earlier, op);
    match op
    case Upsert(record, stampedAt, sweptAt) =>
      if record.status.Terminal() {
        CompleteKeepsStamps(m, op, earlier);
        CompleteKeepsCoherent(m, record, stampedAt);
        SweepKeepsStamps(limits, Complete(m, record, stampedAt), sweptAt, earlier + [op]);
      }
    case Append(event) =>
    case GetCompleted(at) => SweepKeepsStamps(limits, m, at, earlier + [op]);
    case ListEvents(at) => SweepKeepsStamps(limits, m, at, earlier + [op]);
    case ListActive =>
  }

  /** Reported once under an advancing clock, runs keep their stamps in queue order. */
  lemma {:induction false} OnceReportedStampsStayOrdered(limits: Limits, ops: seq<Op>)
    requires ClockAdvances(ops) && ReportedOnce(limits, ops)
    ensures StampsOrdered(Run(limits, ops).storedAt, Run(limits, ops).order)
              && StampsHaveOrigin(Run(limits, ops).storedAt, ops)
  {
    if ops != [] {
      var earlier, op := ops[..|ops| - 1], ops[|ops| - 1];
      assert ops == earlier + [op];
      assert forall k :: 0 <= k < |earlier| ==> earlier[..k] == ops[..k];
      hide StampsOrdered, StampsHaveOrigin, Coherent, Apply;
      OnceReportedStampsStayOrdered(limits, earlier);
      IndexIsCoherentInEveryRun(limits, earlier);
      CallKeepsStamps(limits, Run(limits, earlier), op, earlier);
    }
  }

  lemma OriginExtends(m: Model, ops: seq<Op>, op: Op)
    requires StampsHaveOrigin(m.storedAt, ops)
    ensures StampsHaveOrigin(m.storedAt, ops + [op])
  {
    forall id | id in m.storedAt
      ensures exists k :: 0 <= k < |ops + [op]| && IsTerminalUpsert((ops + [op])[k])
                && (ops + [op])[k].stampedAt == m.storedAt[id]
    {
      var k :| 0 <= k < |ops| && IsTerminalUpsert(ops[k]) && ops[k].stampedAt == m.storedAt[id];
      assert (ops + [op])[k] == ops[k];
    }
  }

  /** When runs are reported once under an advancing clock, no read ever shows an expired run. */
  lemma ExpiredRunsAreNeverShown(limits: Limits, ops: seq<Op>, now: Time, id: RunId)
    requires ClockAdvances(ops) && ReportedOnce(limits, ops) && limits.ttl > 0
    ensures var n := Apply(limits, Run(limits, ops), GetCompleted(now));
            id in n.completed ==> id in n.storedAt && n.storedAt[id] >= now - limits.ttl
  {
    var m := Run(limits, ops);
    IndexIsCoherentInEveryRun(limits, ops);
    OnceReportedStampsStayOrdered(limits, ops);
    OrderedSweepShowsNothingExpired(limits, m, now, id);
  }

  lemma OrderedSweepShowsNothingExpired(limits: Limits, m: Model, now: Time, id: RunId)
    requires Coherent(m) && StampsOrdered(m.storedAt, m.order) && limits.ttl > 0
    ensures var n := Sweep(limits, m, now);
            id in n.completed ==> id in n.storedAt && n.storedAt[id] >= now - limits.ttl
  {
    hide Coherent, StampsOrdered, Drop, Live, ExpiredHead;
    var k, h := SweepCount(limits, m, now), ExpiredHead(m, m.order, now - limits.ttl);
    if id in Drop(m, k).completed {
      DropForgetsExactly(m, k, id);
      var i := PositionOf(m, id);
      DropRemovesPrefix(m, k, i);
      assert id == m.order[h..][i - h];
      OrderedStampsScanFully(m, m.order, now - limits.ttl);
      LiveRunsAreNotExpired(m, m.order, now - limits.ttl, id);
    }
  }

  /** Where a completed run stands in the queue. */
  lemma PositionOf(m: Model, id: RunId) returns (i: nat)
    requires Coherent(m) && id in m.completed
    ensures i < |m.order| && m.order[i] == id && id in m.storedAt
  {
    assert id in m.order;
    i :| i < |m.order| && m.order[i] == id;
  }

  /** Reporting a retained run again hides expired runs behind it: here "b" outlives its TTL of 10. */
  lemma ReportingTwiceShieldsExpiredRuns()
    ensures var limits := Limits(-1, -1, -1, 10);
            var a, b := RunRecord("a", RunStatus.Completed, ""), RunRecord("b", RunStatus.Completed, "");
            var ops := [Upsert(a, 0, 0), Upsert(b, 1, 1), Upsert(a, 8, 8)];
            var n := Apply(limits, Run(limits, ops), GetCompleted(15));
            ClockAdvances(ops) && "b" in n.completed && "b" in n.storedAt && n.storedAt["b"] < 15 - limits.ttl
  {
    hide Sweep, Run;
    var limits := Limits(-1, -1, -1, 10);
    var a, b := RunRecord("a", RunStatus.Completed, ""), RunRecord("b", RunStatus.Completed, "");
    assert a.runId[0] != b.runId[0];
    var m1 := Complete(EMPTY, a, 0);
    var m2 := Complete(m1, b, 1);
    var m3 := Complete(m2, a, 8);
    assert m3.order == ["a", "b"] && m3.storedAt == map["a" := 8, "b" := 1];
    LiveHeadStopsTheScan(limits, m1, 0);
    LiveHeadStopsTheScan(limits, m2, 1);
    LiveHeadStopsTheScan(limits, m3, 8);
    LiveHeadStopsTheScan(limits, m3, 15);
    var first, second, again := Upsert(a, 0, 0), Upsert(b, 1, 1), Upsert(a, 8, 8);
    RunFromEmpty(limits);
    RunExtends(limits, [], first);
    assert [] + [first] == [first];
    RunExtends(limits, [first], second);
    assert [first] + [second] == [first, second];
    RunExtends(limits, [first, second], again);
    assert [first, second] + [again] == [first, second, again];
    assert Run(limits, [first, second, again]) == m3;
    assert Apply(limits, m3, GetCompleted(15)) == m3;
  }

  lemma RunFromEmpty(limits: Limits)
    ensures Run(limits, []) == EMPTY
  {
  }

  lemma RunExtends(limits: Limits, ops: seq<Op>, op: Op)
    ensures Run(limits, ops + [op]) == Apply(limits, Run(limits, ops), op)
  {
    assert (ops + [op])[..|ops|] == ops;
  }

  lemma LiveHeadStopsTheScan(limits: Limits, m: Model, now: Time)
    requires limits.maxCompleted < 0 && m.order != []
    requires limits.ttl > 0 ==> !Expired(m, m.order[0], now - limits.ttl)
    ensures Sweep(limits, m, now) == m
  {
  }

  // ---------------------------------------------------------------- events

  /** All events ever appended to a run. */
  function AppendsTo(ops: seq<Op>, id: RunId): seq<EventRecord> {
    if ops == [] then []
    else
      var op := ops[|ops| - 1];
      AppendsTo(ops[..|ops| - 1], id) + if op.Append? && op.event.runId == id then [op.event] else []
  }

  /** The store as a call leaves it before it sweeps, and the instant of that sweep. */
  function BeforeSweep(m: Model, op: Op): Model {
    if IsTerminalUpsert(op) then Complete(m, op.record, op.stampedAt) else m
  }

  /** The call removes the run from the queue, and with it everything the store knows about it. */
  ghost predicate Evicts(limits: Limits, m: Model, op: Op, id: RunId) {
    id in BeforeSweep(m, op).order && id !in Apply(limits, m, op).order
  }

  lemma SweepAndHistory(limits: Limits, m: Model, now: Time, id: RunId)
    requires Coherent(m)
    ensures var n := Sweep(limits, m, now);
            History(n, id) == if id in m.order && id !in n.order then [] else History(m, id)
  {
    var k := SweepCount(limits, m, now);
    DropForgetsExactly(m, k, id);
    DropKeepsCoherent(m, k);
    if id in m.order && id !in m.order[k..] {
      assert m.order == m.order[..k] + m.order[k..];
    }
  }

  lemma CallAndHistory(limits: Limits, m: Model, op: Op, id: RunId)
    requires Coherent(m)
    ensures Evicts(limits, m, op, id) ==> History(Apply(limits, m, op), id) == []
    ensures !Evicts(limits, m, op, id) ==> History(Apply(limits, m, op), id) == History(m, id) + AppendsTo([op], id)
  {
    AppendsOne(op, id);
    hide Sweep, Coherent;
    match op
    case Upsert(record, stampedAt, sweptAt) =>
      CompleteKeepsCoherent(m, record, stampedAt);
      SweepAndHistory(limits, Complete(m, record, stampedAt), sweptAt, id);
    case Append(event) =>
    case GetCompleted(at) => SweepAndHistory(limits, m, at, id);
    case ListEvents(at) => SweepAndHistory(limits, m, at, id);
    case ListActive =>
  }

  /** `from` is just after the last call that evicted the run, or 0 when no call did. */
  ghost predicate SinceLastEviction(limits: Limits, ops: seq<Op>, from: nat, id: RunId) {
    && from <= |ops|
    && (from > 0 ==> Evicts(limits, Run(limits, ops[..from - 1]), ops[from - 1], id))
    && forall k :: from <= k < |ops| ==> !Evicts(limits, Run(limits, ops[..k]), ops[k], id)
  }

  /** Every run has such a point, for every identifier. */
  lemma {:induction false} LastEvictionExists(limits: Limits, ops: seq<Op>, id: RunId) returns (from: nat)
    ensures SinceLastEviction(limits, ops, from, id)
  {
    if ops == [] {
      from := 0;
    } else {
      hide Run, Evicts;
      var n := |ops| - 1;
      if Evicts(limits, Run(limits, ops[..n]), ops[n], id) {
        from := n + 1;
      } else {
        from := LastEvictionExists(limits, ops[..n], id);
        assert forall k :: 0 <= k <= n ==> ops[..n][..k] == ops[..k];
      }
    }
  }

  lemma SinceLastEvictionEarlier(limits: Limits, ops: seq<Op>, from: nat, id: RunId)
    requires SinceLastEviction(limits, ops, from, id) && from < |ops|
    ensures SinceLastEviction(limits, ops[..|ops| - 1], from, id)
    ensures !Evicts(limits, Run(limits, ops[..|ops| - 1]), ops[|ops| - 1], id)
  {
    hide Run, Evicts;
    var earlier := ops[..|ops| - 1];
    assert forall k :: 0 <= k < |earlier| ==> earlier[..k] == ops[..k];
  }

  lemma AppendsSplit(ops: seq<Op>, from: nat, id: RunId)
    requires from < |ops|
    ensures AppendsTo(ops[from..], id) == AppendsTo(ops[..|ops| - 1][from..], id) + AppendsTo([ops[|ops| - 1]], id)
  {
    var n := |ops| - 1;
    assert ops[from..][..n - from] == ops[..n][from..];
    AppendsOne(ops[n], id);
  }

  lemma {:induction false} HistoryIsAppendsSinceEviction(limits: Limits, ops: seq<Op>, from: nat, id: RunId)
    requires SinceLastEviction(limits, ops, from, id)
    ensures History(Run(limits, ops), id) == AppendsTo(ops[from..], id)
  {
    if ops != [] {
      var earlier, op := ops[..|ops| - 1], ops[|ops| - 1];
      assert Run(limits, ops) == Apply(limits, Run(limits, earlier), op);
      IndexIsCoherentInEveryRun(limits, earlier);
      hide Coherent, Apply, Run, Evicts;
      CallAndHistory(limits, Run(limits, earlier), op, id);
      if from < |ops| {
        SinceLastEvictionEarlier(limits, ops, from, id);
        hide SinceLastEviction, AppendsTo, History;
        HistoryIsAppendsSinceEviction(limits, earlier, from, id);
        AppendsSplit(ops, from, id);
      }
    }
  }

  lemma AppendsOne(op: Op, id: RunId)
    ensures AppendsTo([op], id) == if op.Append? && op.event.runId == id then [op.event] else []
  {
    assert [op][..0] == [];
  }

  /**
   For every run of calls, the events stored for a run are exactly the longest suffix, fitting both
   limits, of everything appended to it since it was last evicted.
   */
  lemma StoredEventsAreLongestSuffix(limits: Limits, ops: seq<Op>, from: nat, id: RunId)
    requires SinceLastEviction(limits, ops, from, id)
    ensures LongestFittingSuffix(limits, AppendsTo(ops[from..], id), Retained(limits, History(Run(limits, ops), id)))
  {
    HistoryIsAppendsSinceEviction(limits, ops, from, id);
    RetainedIsLongestFittingSuffix(limits, AppendsTo(ops[from..], id));
  }

  /** So in every run of calls there is such a point, and the stored events are the longest suffix since then. */
  lemma EveryRunStoresALongestSuffix(limits: Limits, ops: seq<Op>, id: RunId)
    ensures exists from: nat ::
              && SinceLastEviction(limits, ops, from, id)
              && LongestFittingSuffix(limits, AppendsTo(ops[from..], id),
                                      Retained(limits, History(Run(limits, ops), id)))
  {
    var from := LastEvictionExists(limits, ops, id);
    StoredEventsAreLongestSuffix(limits, ops, from, id);
  }

  // ---------------------------------------------------------------- which runs hold events

  /** Some call of these reports the run as finished. */
  ghost predicate Reported(ops: seq<Op>, id: RunId) {
    exists k :: 0 <= k < |ops| && IsTerminalUpsert(ops[k]) && ops[k].record.runId == id
  }

  lemma CallAndQueue(limits: Limits, m: Model, op: Op, id: RunId)
    ensures Evicts(limits, m, op, id) ==> id !in Apply(limits, m, op).order
    ensures !Evicts(limits, m, op, id) ==>
              (id in Apply(limits, m, op).order <==>
               id in m.order || (IsTerminalUpsert(op) && op.record.runId == id && id !in m.completed))
  {
    hide Drop, SweepCount;
  }

  lemma ReportedSplit(ops: seq<Op>, from: nat, id: RunId)
    requires from < |ops|
    ensures var last := ops[|ops| - 1];
            Reported(ops[from..], id) <==>
              Reported(ops[..|ops| - 1][from..], id) || (IsTerminalUpsert(last) && last.record.runId == id)
  {
    var n := |ops| - 1;
    var all, earlier := ops[from..], ops[..n][from..];
    assert all == earlier + [ops[n]];
    if k :| 0 <= k < |all| && IsTerminalUpsert(all[k]) && all[k].record.runId == id {
      assert k < |earlier| ==> earlier[k] == all[k];
    }
    if k :| 0 <= k < |earlier| && IsTerminalUpsert(earlier[k]) && earlier[k].record.runId == id {
      assert all[k] == earlier[k];
    }
    assert all[|earlier|] == ops[n];
  }

  /** A run stands in the queue exactly when it was reported as finished since it was last evicted. */
  lemma {:induction false} QueuedIffReported(limits: Limits, ops: seq<Op>, from: nat, id: RunId)
    requires SinceLastEviction(limits, ops, from, id)
    ensures id in Run(limits, ops).order <==> Reported(ops[from..], id)
  {
    if ops != [] {
      var earlier, op := ops[..|ops| - 1], ops[|ops| - 1];
      assert Run(limits, ops) == Apply(limits, Run(limits, earlier), op);
      IndexIsCoherentInEveryRun(limits, earlier);
      QueueHoldsCompleted(Run(limits, earlier), id);
      hide Coherent, Apply, Run, Evicts;
      CallAndQueue(limits, Run(limits, earlier), op, id);
      if from < |ops| {
        SinceLastEvictionEarlier(limits, ops, from, id);
        hide SinceLastEviction, Reported;
        QueuedIffReported(limits, earlier, from, id);
        ReportedSplit(ops, from, id);
      }
    }
  }

  lemma QueueHoldsCompleted(m: Model, id: RunId)
    requires Coherent(m)
    ensures id in m.order <==> id in m.completed
  {
  }

  ghost predicate HistoriesHold(m: Model) {
    forall id :: id in m.history ==> m.history[id] != []
  }

  lemma {:induction false} DropKeepsHistories(m: Model, k: nat)
    requires HistoriesHold(m) && k <= |m.order|
    ensures HistoriesHold(Drop(m, k))
    decreases k
  {
    if k > 0 {
      DropKeepsHistories(DropHead(m), k - 1);
    }
  }

  /** A run the store keeps events for has had one appended. */
  lemma {:induction false} HistoriesAreNeverEmpty(limits: Limits, ops: seq<Op>)
    ensures HistoriesHold(Run(limits, ops))
  {
    if ops != [] {
      var m, op := Run(limits, ops[..|ops| - 1]), ops[|ops| - 1];
      HistoriesAreNeverEmpty(limits, ops[..|ops| - 1]);
      var n := BeforeSweep(m, op);
      match op
      case Upsert(_, _, at) => DropKeepsHistories(n, SweepCount(limits, n, at));
      case GetCompleted(at) => DropKeepsHistories(m, SweepCount(limits, m, at));
      case ListEvents(at) => DropKeepsHistories(m, SweepCount(limits, m, at));
      case _ =>
    }
  }

  /** The store keeps events for a run exactly when some were appended since it was last evicted. */
  lemma HeldIffAppended(limits: Limits, ops: seq<Op>, from: nat, id: RunId)
    requires SinceLastEviction(limits, ops, from, id)
    ensures id in Run(limits, ops).history <==> AppendsTo(ops[from..], id) != []
  {
    HistoryIsAppendsSinceEviction(limits, ops, from, id);
    HistoriesAreNeverEmpty(limits, ops);
  }

  /** Events are kept for a run that is not in the queue, where no eviction can reach them. */
  ghost predicate Stray(m: Model, id: RunId) {
    id in m.history && id !in m.order
  }

  /**
   That is so exactly for the runs to which events were appended, but which were not reported as finished,
   since they were last evicted: runs still active, forgotten by their reporter, or written to after eviction.
   */
  lemma StrayIff(limits: Limits, ops: seq<Op>, from: nat, id: RunId)
    requires SinceLastEviction(limits, ops, from, id)
    ensures Stray(Run(limits, ops), id) <==> AppendsTo(ops[from..], id) != [] && !Reported(ops[from..], id)
  {
    HeldIffAppended(limits, ops, from, id);
    QueuedIffReported(limits, ops, from, id);
  }

  /** Stray events survive every call but a report that the run has finished. */
  lemma StrayStays(limits: Limits, m: Model, op: Op, id: RunId)
    requires Coherent(m) && Stray(m, id) && !(IsTerminalUpsert(op) && op.record.runId == id)
    ensures Stray(Apply(limits, m, op), id) && History(m, id) <= History(Apply(limits, m, op), id)
  {
    CallAndQueue(limits, m, op, id);
    CallAndHistory(limits, m, op, id);
    HeldOutsideQueue(limits, m, op, id);
    hide Sweep, Coherent, Apply, AppendsTo;
  }

  lemma HeldOutsideQueue(limits: Limits, m: Model, op: Op, id: RunId)
    requires Coherent(m) && Stray(m, id) && !(IsTerminalUpsert(op) && op.record.runId == id)
    ensures !Evicts(limits, m, op, id) && id in Apply(limits, m, op).history
  {
    var n := BeforeSweep(m, op);
    if IsTerminalUpsert(op) {
      CompleteKeepsCoherent(m, op.record, op.stampedAt);
      DropKeepsOutsiders(n, SweepCount(limits, n, op.sweptAt), id);
    } else if op.GetCompleted? || op.ListEvents? {
      DropKeepsOutsiders(m, SweepCount(limits, m, op.at), id);
    }
  }

  lemma {:induction false} DropKeepsOutsiders(m: Model, k: nat, id: RunId)
    requires k <= |m.order| && id in m.history && id !in m.order
    ensures id in Drop(m, k).history
    decreases k
  {
    if k > 0 {
      DropKeepsOutsiders(DropHead(m), k - 1, id);
    }
  }

  ghost function Strays(m: Model): set<RunId> {
    set id | id in m.history && Stray(m, id)
  }

  lemma {:induction false} ElementsAreFew(order: seq<RunId>)
    ensures |set id | id in order| <= |order|
  {
    if order != [] {
      ElementsAreFew(order[1..]);
      assert (set id | id in order) == (set id | id in order[1..]) + {order[0]};
    }
  }

  /** So the capacity bounds the number of runs with events up to the strays, which it does not bound. */
  lemma HeldRunsAreBoundedUpToStrays(limits: Limits, ops: seq<Op>)
    requires limits.maxCompleted >= 0
    ensures var m := Run(limits, ops);
            |m.history.Keys| <= limits.maxCompleted + |Strays(m)|
  {
    var m := Run(limits, ops);
    IndexIsCoherentInEveryRun(limits, ops);
    hide Run, Coherent;
    ElementsAreFew(m.order);
    CoverIsLarger(m.history.Keys, (set id | id in m.order), Strays(m));
  }

  lemma CoverIsLarger(all: set<RunId>, a: set<RunId>, b: set<RunId>)
    requires forall id :: id in all ==> id in a || id in b
    ensures |all| <= |a| + |b|
  {
    assert a + b == all + (a + b - all);
    assert |a + b| <= |a| + |b|;
  }

  /** Appending to `n` runs of which nothing is ever reported keeps events for all of them. */
  function AppendsToEach(ids: seq<RunId>): (ops: seq<Op>)
    ensures |ops| == |ids| && forall i :: 0 <= i < |ids| ==> ops[i] == Append(EventRecord(ids[i], 1, ""))
  {
    seq(|ids|, i requires 0 <= i < |ids| => Append(EventRecord(ids[i], 1, "")))
  }

  lemma {:induction false} StraysAreUnbounded(limits: Limits, ids: seq<RunId>)
    ensures var m := Run(limits, AppendsToEach(ids));
            m.order == [] && Strays(m) == set id | id in ids
  {
    var ops := AppendsToEach(ids);
    if ids != [] {
      var n := |ids| - 1;
      StraysAreUnbounded(limits, ids[..n]);
      assert ops[..n] == AppendsToEach(ids[..n]);
      var m := Run(limits, ops[..n]);
      assert Run(limits, ops) == Apply(limits, m, ops[n]);
      assert Strays(Run(limits, ops)) == Strays(m) + {ids[n]};
      assert (set id | id in ids) == (set id | id in ids[..n]) + {ids[n]} by {
        assert ids == ids[..n] + [ids[n]];
      }
    }
  }

  // ---------------------------------------------------------------- which records are shown

  predicate Finished(status: RunStatus) {
    status == RunStatus.Completed || status == RunStatus.Failed || status == RunStatus.Cancelled
  }

  /** The last record reported for a run, whatever its status. */
  function LastReport(ops: seq<Op>, id: RunId): Option<RunRecord> {
    if ops == [] then None
    else
      var op := ops[|ops| - 1];
      if op.Upsert? && op.record.runId == id then Some(op.record) else LastReport(ops[..|ops| - 1], id)
  }

  /** The last record that reported a run as finished. */
  function LastFinished(ops: seq<Op>, id: RunId): Option<RunRecord> {
    if ops == [] then None
    else
      var op := ops[|ops| - 1];
      if op.Upsert? && op.record.runId == id && Finished(op.record.status) then Some(op.record)
      else LastFinished(ops[..|ops| - 1], id)
  }

  lemma CallOnActive(limits: Limits, m: Model, op: Op, id: RunId)
    requires Coherent(m)
    ensures var n := Apply(limits, m, op);
            if op.Upsert? && op.record.runId == id then
              if Finished(op.record.status) then id !in n.active else id in n.active && n.active[id] == op.record
            else (id in n.active <==> id in m.active) && (id in m.active ==> n.active[id] == m.active[id])
  {
    var n := BeforeSweep(m, op);
    if IsTerminalUpsert(op) {
      CompleteKeepsCoherent(m, op.record, op.stampedAt);
      DropForgetsExactly(n, SweepCount(limits, n, op.sweptAt), id);
    } else if op.GetCompleted? || op.ListEvents? {
      DropForgetsExactly(m, SweepCount(limits, m, op.at), id);
    }
  }

  /** Over every run of calls, a run is active exactly if its last report was of one unfinished, with that record. */
  lemma {:induction false} ActiveIsTheLastReport(limits: Limits, ops: seq<Op>, id: RunId)
    ensures var m, last := Run(limits, ops), LastReport(ops, id);
            && (id in m.active <==> last.Some? && !Finished(last.value.status))
            && (id in m.active ==> m.active[id] == last.value)
  {
    if ops != [] {
      var earlier := ops[..|ops| - 1];
      ActiveIsTheLastReport(limits, earlier, id);
      IndexIsCoherentInEveryRun(limits, earlier);
      CallOnActive(limits, Run(limits, earlier), ops[|ops| - 1], id);
      hide Coherent, Apply, Finished;
    }
  }

  lemma CallOnCompleted(limits: Limits, m: Model, op: Op, id: RunId)
    requires Coherent(m)
    ensures var n := Apply(limits, m, op);
            id in n.completed ==>
              if op.Upsert? && op.record.runId == id && Finished(op.record.status) then n.completed[id] == op.record
              else id in m.completed && n.completed[id] == m.completed[id]
  {
    var n := BeforeSweep(m, op);
    if IsTerminalUpsert(op) {
      CompleteKeepsCoherent(m, op.record, op.stampedAt);
      DropForgetsExactly(n, SweepCount(limits, n, op.sweptAt), id);
    } else if op.GetCompleted? || op.ListEvents? {
      DropForgetsExactly(m, SweepCount(limits, m, op.at), id);
    }
  }

  /** A completed run that is still retained shows the last record that reported it as finished. */
  lemma {:induction false} CompletedIsTheLastFinished(limits: Limits, ops: seq<Op>, id: RunId)
    ensures var m := Run(limits, ops);
            id in m.completed ==> LastFinished(ops, id) == Some(m.completed[id])
  {
    if ops != [] {
      var earlier := ops[..|ops| - 1];
      CompletedIsTheLastFinished(limits, earlier, id);
      IndexIsCoherentInEveryRun(limits, earlier);
      CallOnCompleted(limits, Run(limits, earlier), ops[|ops| - 1], id);
      hide Coherent, Apply, Finished;
    }
  }

  /** What fitting both limits means, in numbers of events and bytes. */
  lemma LimitsInNumbers(limits: Limits, events: seq<EventRecord>)
    ensures Fits(limits, events) <==>
              (limits.maxEvents < 0 || |events| <= limits.maxEvents) &&
              (limits.maxRawBytes < 0 || RawTotal(events) <= limits.maxRawBytes)
    ensures RawTotal([]) == 0
    ensures events != [] ==> RawTotal(events) == |events[0].rawData| + RawTotal(events[1..])
  {
  }

  /** A stored run is past its time to live when its stamp is older than that, and not yet when it is as old. */
  lemma ExpiryInNumbers(limits: Limits, m: Model, now: Time, i: nat)
    requires Coherent(m) && i < |m.order| && m.order[i] !in Sweep(limits, m, now).completed
    ensures m.order[i] in m.storedAt
    ensures limits.maxCompleted < 0 || |m.order| - i <= limits.maxCompleted ==>
              limits.ttl > 0 && now - m.storedAt[m.order[i]] > limits.ttl
  {
    QueuedRunsAreStamped(m);
    SweepRemovesOnlyExpiredOrOverflow(limits, m, now, i);
    hide Coherent, Sweep;
  }

  /** And then it goes: a sweep ends within capacity, and unless that alone stopped it, at a run that is not expired. */
  lemma SweepsWhatItMust(limits: Limits, m: Model, now: Time)
    requires Coherent(m)
    ensures var n := Sweep(limits, m, now);
            && (limits.maxCompleted >= 0 ==> |n.order| <= limits.maxCompleted)
            && (limits.ttl > 0 && n.order != [] && (limits.maxCompleted < 0 || |n.order| < limits.maxCompleted) ==>
                  n.order[0] in n.storedAt && now - n.storedAt[n.order[0]] <= limits.ttl)
  {
    hide Coherent, Drop, ExpiredHead;
    var k := SweepCount(limits, m, now);
    QueuedRunsAreStamped(m);
    if limits.ttl > 0 && k < |m.order| {
      ExpiredHeadIsExact(m, m.order, now - limits.ttl);
      StampAfterDrop(m, k);
    }
  }

  lemma StampAfterDrop(m: Model, k: nat)
    requires Coherent(m) && k < |m.order| && m.order[k] in m.storedAt
    ensures Drop(m, k).order == m.order[k..]
    ensures m.order[k] in Drop(m, k).storedAt && Drop(m, k).storedAt[m.order[k]] == m.storedAt[m.order[k]]
  {
    QueuedRunsAreStamped(m);
    DropRemovesPrefix(m, k, k);
    DropForgetsExactly(m, k, m.order[k]);
    assert m.order[k] in m.completed;
    hide Drop;
  }

  // ---------------------------------------------------------------- active and completed

  ghost predicate Disjoint(m: Model) {
    m.active.Keys !! m.completed.Keys
  }

  /** A call that reports a retained run as not finished. */
  ghost predicate Reopens(m: Model, op: Op) {
    op.Upsert? && !op.record.status.Terminal() && op.record.runId in m.completed
  }

  lemma SweepKeepsDisjoint(m: Model, k: nat)
    requires Coherent(m) && k <= |m.order| && Disjoint(m)
    ensures Disjoint(Drop(m, k))
  {
    forall id | id in Drop(m, k).completed
      ensures id !in Drop(m, k).active
    {
      DropForgetsExactly(m, k, id);
    }
  }

  /** One call keeps the two indexes apart exactly when it does not reopen a retained run. */
  lemma StaysDisjointIffNotReopened(limits: Limits, m: Model, op: Op)
    requires Coherent(m) && Disjoint(m)
    ensures Disjoint(Apply(limits, m, op)) <==> !Reopens(m, op)
  {
    match op
    case Upsert(record, stampedAt, sweptAt) =>
      if record.status.Terminal() {
        var n := Complete(m, record, stampedAt);
        CompleteKeepsCoherent(m, record, stampedAt);
        SweepKeepsDisjoint(n, SweepCount(limits, n, sweptAt));
      } else {
        assert record.runId in Apply(limits, m, op).active;
      }
    case Append(event) =>
    case GetCompleted(at) => SweepKeepsDisjoint(m, SweepCount(limits, m, at));
    case ListEvents(at) => SweepKeepsDisjoint(m, SweepCount(limits, m, at));
    case ListActive =>
  }

  /** A run is never listed as both active and completed exactly in the runs that reopen nothing. */
  lemma {:induction false} AlwaysDisjointIffNeverReopened(limits: Limits, ops: seq<Op>)
    ensures (forall k :: 0 <= k <= |ops| ==> Disjoint(Run(limits, ops[..k])))
       <==> (forall k :: 0 <= k < |ops| ==> !Reopens(Run(limits, ops[..k]), ops[k]))
  {
    hide Disjoint, Reopens, Coherent;
    assert ops[..|ops|] == ops;
    if ops == [] {
      StartsDisjoint();
    } else {
      var n := |ops| - 1;
      var earlier := ops[..n];
      assert forall k :: 0 <= k <= n ==> earlier[..k] == ops[..k];
      assert forall k :: 0 <= k < n ==> earlier[k] == ops[k];
      AlwaysDisjointIffNeverReopened(limits, earlier);
      IndexIsCoherentInEveryRun(limits, earlier);
      if Disjoint(Run(limits, ops[..n])) {
        StaysDisjointIffNotReopened(limits, Run(limits, earlier), ops[n]);
      }
    }
  }

  /** The shortest such run: "a" finishes and is then reported as running. */
  lemma ReopenedRunIsListedTwice()
    ensures var limits := Limits(-1, -1, -1, -1);
            var done, running := RunRecord("a", RunStatus.Completed, ""), RunRecord("a", RunStatus.Running, "");
            var m := Run(limits, [Upsert(done, 0, 0), Upsert(running, 1, 1)]);
            "a" in m.active && "a" in m.completed && !Disjoint(m)
  {
    var limits := Limits(-1, -1, -1, -1);
    var done, running := RunRecord("a", RunStatus.Completed, ""), RunRecord("a", RunStatus.Running, "");
    var first, second := Upsert(done, 0, 0), Upsert(running, 1, 1);
    RunFromEmpty(limits);
    RunExtends(limits, [], first);
    assert [] + [first] == [first];
    LiveHeadStopsTheScan(limits, Complete(EMPTY, done, 0), 0);
    RunExtends(limits, [first], second);
    assert [first] + [second] == [first, second];
  }

  lemma StartsDisjoint()
    ensures Disjoint(EMPTY)
  {
  }

  /** Both reads sweep alike, and listing the active runs changes nothing. */
  lemma ReadsSweepAlike(limits: Limits, m: Model, at: Time)
    ensures Apply(limits, m, ListEvents(at)) == Apply(limits, m, GetCompleted(at)) && Apply(limits, m, ListActive) == m
  {
  }
}
