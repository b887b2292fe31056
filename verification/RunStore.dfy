/**
 The bounded in-memory run store.

 The store keeps completed runs in a FIFO bounded by a capacity and a TTL, and the events of each
 run under an event-count limit and a raw-byte limit. It trims and evicts step by step. The model
 keeps, beside it, the plain history of appends since a run was last evicted, and proves that the
 store always shows what trimming that whole history would show.
 */
module RunStore {
  import opened Core

  type RunId = string
  type Time = int

  datatype RunRecord = RunRecord(runId: RunId, status: RunStatus, detail: string)

  datatype EventRecord = EventRecord(runId: RunId, sequence: int, rawData: string)

  /** A negative limit is unlimited; a TTL that is not positive disables expiry. */
  datatype Limits = Limits(maxEvents: int, maxRawBytes: int, maxCompleted: int, ttl: int)

  const SECOND: int := 1_000_000_000

  const DEFAULT_LIMITS := Limits(2048, 16 * 1024 * 1024, 128, 24 * 3600 * SECOND)

  /** The constructor replaces a zero limit by its default. */
  function WithDefaults(limits: Limits): (r: Limits)
    ensures r.maxEvents != 0 && r.maxRawBytes != 0 && r.maxCompleted != 0 && r.ttl != 0
    ensures (r.maxEvents == limits.maxEvents || (limits.maxEvents == 0 && r.maxEvents == 2048))
    ensures (r.maxRawBytes == limits.maxRawBytes || (limits.maxRawBytes == 0 && r.maxRawBytes == 16_777_216))
    ensures (r.maxCompleted == limits.maxCompleted || (limits.maxCompleted == 0 && r.maxCompleted == 128))
    ensures (r.ttl == limits.ttl || (limits.ttl == 0 && r.ttl == 86_400 * SECOND))
  {
    Limits(
      if limits.maxEvents == 0 then DEFAULT_LIMITS.maxEvents else limits.maxEvents,
      if limits.maxRawBytes == 0 then DEFAULT_LIMITS.maxRawBytes else limits.maxRawBytes,
      if limits.maxCompleted == 0 then DEFAULT_LIMITS.maxCompleted else limits.maxCompleted,
      if limits.ttl == 0 then DEFAULT_LIMITS.ttl else limits.ttl)
  }

  // ---------------------------------------------------------------- events of one run

  function RawTotal(events: seq<EventRecord>): nat {
    if events == [] then 0 else |events[0].rawData| + RawTotal(events[1..])
  }

  predicate Fits(limits: Limits, events: seq<EventRecord>) {
    && (limits.maxEvents >= 0 ==> |events| <= limits.maxEvents)
    && (limits.maxRawBytes >= 0 ==> RawTotal(events) <= limits.maxRawBytes)
  }

  /** What trimming a whole history at once leaves. */
  function Retained(limits: Limits, history: seq<EventRecord>): seq<EventRecord> {
    if Fits(limits, history) then history
    else if history == [] then []
    else Retained(limits, history[1..])
  }

  /** `kept` is a suffix of `history` that fits, and no longer suffix fits. */
  ghost predicate LongestFittingSuffix(limits: Limits, history: seq<EventRecord>, kept: seq<EventRecord>) {
    && |kept| <= |history|
    && kept == history[|history| - |kept|..]
    && Fits(limits, kept)
    && forall k :: 0 <= k < |history| - |kept| ==> !Fits(limits, history[k..])
  }

  lemma {:induction false} RetainedIsLongestFittingSuffix(limits: Limits, history: seq<EventRecord>)
    ensures LongestFittingSuffix(limits, history, Retained(limits, history))
  {
    if !Fits(limits, history) {
      var tail := history[1..];
      RetainedIsLongestFittingSuffix(limits, tail);
      forall k | 0 <= k < |history| - |Retained(limits, tail)|
        ensures !Fits(limits, history[k..])
      {
        if k > 0 {
          assert history[k..] == tail[k - 1..];
        } else {
          assert history[k..] == history;
        }
      }
    }
  }

  /** The description determines the suffix: it is no weaker than the trimming itself. */
  lemma LongestFittingSuffixIsUnique(limits: Limits, history: seq<EventRecord>, a: seq<EventRecord>,
                                     b: seq<EventRecord>)
    requires LongestFittingSuffix(limits, history, a)
    requires LongestFittingSuffix(limits, history, b)
    ensures a == b
  {
  }

  lemma {:induction false} RawTotalAppend(a: seq<EventRecord>, b: seq<EventRecord>)
    ensures RawTotal(a + b) == RawTotal(a) + RawTotal(b)
  {
    if a == [] {
      assert a + b == b;
    } else {
      assert (a + b)[1..] == a[1..] + b;
      RawTotalAppend(a[1..], b);
    }
  }

  /** Trimming what is already trimmed, plus one event, is trimming the whole longer history. */
  lemma {:induction false} TrimIsIncremental(limits: Limits, history: seq<EventRecord>, event: EventRecord)
    ensures Retained(limits, Retained(limits, history) + [event]) == Retained(limits, history + [event])
  {
    if !Fits(limits, history) {
      RawTotalAppend(history, [event]);
      assert (history + [event])[1..] == history[1..] + [event];
      TrimIsIncremental(limits, history[1..], event);
    }
  }

  /** The stored events of every run are its trimmed history; its byte counter is their exact total. */
  ghost predicate Mirrors(limits: Limits, events: map<RunId, seq<EventRecord>>, rawBytes: map<RunId, int>,
                          history: map<RunId, seq<EventRecord>>)
  {
    && events.Keys == history.Keys == rawBytes.Keys
    && forall id :: id in history ==>
         events[id] == Retained(limits, history[id]) && rawBytes[id] == RawTotal(events[id])
  }

  /** Appending to the trimmed events of one run, adding to its counter and trimming again keeps the mirror. */
  lemma AppendMirrors(limits: Limits, events: map<RunId, seq<EventRecord>>, rawBytes: map<RunId, int>,
                      history: map<RunId, seq<EventRecord>>, event: EventRecord)
    requires Mirrors(limits, events, rawBytes, history)
    ensures var id := event.runId;
            var before := if id in history then history[id] else [];
            var stored := (if id in events then events[id] else []) + [event];
            var kept := Retained(limits, stored);
            && (if id in rawBytes then rawBytes[id] else 0) + |event.rawData| == RawTotal(stored)
            && Mirrors(limits, events[id := kept], rawBytes[id := RawTotal(kept)], history[id := before + [event]])
  {
    var id := event.runId;
    var before := if id in history then history[id] else [];
    assert (if id in events then events[id] else []) == Retained(limits, before);
    RawTotalAppend(Retained(limits, before), [event]);
    TrimIsIncremental(limits, before, event);
  }

  // ---------------------------------------------------------------- the naive store

  /**
   The store as its callers see it. `history` holds every event appended to a run since that run
   was last evicted; nothing is trimmed here.
   */
  datatype Model = Model(
    active: map<RunId, RunRecord>,
    completed: map<RunId, RunRecord>,
    order: seq<RunId>,
    storedAt: map<RunId, Time>,
    history: map<RunId, seq<EventRecord>>)

  const EMPTY := Model(map[], map[], [], map[], map[])

  function History(m: Model, id: RunId): seq<EventRecord> {
    if id in m.history then m.history[id] else []
  }

  predicate Expired(m: Model, id: RunId, cutoff: Time) {
    id in m.storedAt && m.storedAt[id] < cutoff
  }

  /** How many runs at the head of the queue are expired before the first one that is not. */
  function ExpiredHead(m: Model, order: seq<RunId>, cutoff: Time): (k: nat)
    ensures k <= |order|
  {
    if order == [] || !Expired(m, order[0], cutoff) then 0 else 1 + ExpiredHead(m, order[1..], cutoff)
  }

  /** Removes the oldest run of the queue, with everything kept about it. */
  ghost function DropHead(m: Model): Model
    requires m.order != []
  {
    var id := m.order[0];
    Model(m.active, m.completed - {id}, m.order[1..], m.storedAt - {id}, m.history - {id})
  }

  /** Removes the `k` oldest runs. */
  ghost function Drop(m: Model, k: nat): (r: Model)
    requires k <= |m.order|
    ensures r.order == m.order[k..]
    decreases k
  {
    if k == 0 then m else Drop(DropHead(m), k - 1)
  }

  function TtlCount(limits: Limits, m: Model, now: Time): (k: nat)
    ensures k <= |m.order|
  {
    if limits.ttl > 0 then ExpiredHead(m, m.order, now - limits.ttl) else 0
  }

  function Overflow(length: nat, limit: int): (k: nat)
    ensures k <= length
  {
    if 0 <= limit < length then length - limit else 0
  }

  ghost function SweepCount(limits: Limits, m: Model, now: Time): (k: nat)
    ensures k <= |m.order|
  {
    var k := TtlCount(limits, m, now);
    k + Overflow(|m.order| - k, limits.maxCompleted)
  }

  /** A sweep removes the expired head of the queue, and then whatever is over capacity. */
  ghost function Sweep(limits: Limits, m: Model, now: Time): Model {
    Drop(m, SweepCount(limits, m, now))
  }

  /** The store's calls, with the instants its clock returned to them. */
  datatype Op =
    | Upsert(record: RunRecord, stampedAt: Time, sweptAt: Time)
    | Append(event: EventRecord)
    | GetCompleted(at: Time)
    | ListEvents(at: Time)
    | ListActive

  function Complete(m: Model, record: RunRecord, at: Time): Model {
    m.(active := m.active - {record.runId},
       completed := m.completed[record.runId := record],
       order := if record.runId in m.completed then m.order else m.order + [record.runId],
       storedAt := m.storedAt[record.runId := at])
  }

  ghost function Apply(limits: Limits, m: Model, op: Op): Model {
    match op
    case Upsert(record, stampedAt, sweptAt) =>
      if record.status.Terminal() then Sweep(limits, Complete(m, record, stampedAt), sweptAt)
      else m.(active := m.active[record.runId := record])
    case Append(event) => m.(history := m.history[event.runId := History(m, event.runId) + [event]])
    case GetCompleted(at) => Sweep(limits, m, at)
    case ListEvents(at) => Sweep(limits, m, at)
    case ListActive => m
  }

  ghost function Run(limits: Limits, ops: seq<Op>): Model {
    if ops == [] then EMPTY else Apply(limits, Run(limits, ops[..|ops| - 1]), ops[|ops| - 1])
  }

  // ---------------------------------------------------------------- the store itself

  class MemoryRunStore {
    const limits: Limits
    var active: map<RunId, RunRecord>
    var completed: map<RunId, RunRecord>
    var events: map<RunId, seq<EventRecord>>
    var completedOrder: seq<RunId>
    var completedStoredAt: map<RunId, Time>
    var rawBytes: map<RunId, int>
    ghost var history: map<RunId, seq<EventRecord>>

    ghost function Abstract(): Model
      reads this
    {
      Model(active, completed, completedOrder, completedStoredAt, history)
    }

    ghost predicate Valid()
      reads this
    {
      Coherent(Abstract()) && Mirrors(limits, events, rawBytes, history)
    }

    constructor (configured: Limits)
      ensures Valid() && Abstract() == EMPTY && limits == WithDefaults(configured)
    {
      limits := WithDefaults(configured);
      active, completed, events := map[], map[], map[];
      completedOrder, completedStoredAt, rawBytes := [], map[], map[];
      history := map[];
    }

    method UpsertRun(record: RunRecord, stampedAt: Time, sweptAt: Time)
      requires Valid()
      modifies this
      ensures Valid() && Abstract() == Apply(limits, old(Abstract()), Upsert(record, stampedAt, sweptAt))
    {
      hide Coherent, Mirrors, Sweep;
      CompleteKeepsCoherent(Abstract(), record, stampedAt);
      if record.status.Terminal() {
        active := active - {record.runId};
        if record.runId !in completed {
          completedOrder := completedOrder + [record.runId];
        }
        completedStoredAt := completedStoredAt[record.runId := stampedAt];
        completed := completed[record.runId := record];
        EvictCompleted(sweptAt);
        return;
      }
      ActiveIsNotIndexed(Abstract(), active[record.runId := record]);
      active := active[record.runId := record];
    }

    method AppendEvent(event: EventRecord)
      requires Valid()
      modifies this`events, this`rawBytes, this`history
      ensures Valid() && Abstract() == Apply(limits, old(Abstract()), Append(event))
    {
      hide Coherent, Mirrors, Retained, RawTotal, Sweep, Complete;
      var id := event.runId;
      AppendMirrors(limits, events, rawBytes, history, event);
      HistoryIsNotIndexed(Abstract(), history[id := History(Abstract(), id) + [event]]);
      events := events[id := (if id in events then events[id] else []) + [event]];
      rawBytes := rawBytes[id := (if id in rawBytes then rawBytes[id] else 0) + |event.rawData|];
      ghost var stored := events[id];
      WrittenTwice(old(events), id, stored, Retained(limits, stored));
      WrittenTwice(old(rawBytes), id, rawBytes[id], RawTotal(Retained(limits, stored)));
      TrimHead(id);
      history := history[id := History(Abstract(), id) + [event]];
    }

    /** Drops the oldest events of one run until both limits hold again. */
    method TrimHead(id: RunId)
      requires id in events && id in rawBytes && rawBytes[id] == RawTotal(events[id])
      modifies this`events, this`rawBytes
      ensures events == old(events)[id := Retained(limits, old(events[id]))]
      ensures rawBytes == old(rawBytes)[id := RawTotal(Retained(limits, old(events[id])))]
    {
      ghost var stored := events[id];
      while EventLimitExceeded(id) && |events[id]| > 0
        invariant id in events && events == old(events)[id := events[id]]
        invariant id in rawBytes && rawBytes == old(rawBytes)[id := RawTotal(events[id])]
        invariant Retained(limits, events[id]) == Retained(limits, stored)
        decreases |events[id]|
      {
        var dropped := events[id][0];
        events := events[id := events[id][1..]];
        rawBytes := rawBytes[id := rawBytes[id] - |dropped.rawData|];
      }
      assert events[id] == Retained(limits, stored);
    }

    predicate EventLimitExceeded(id: RunId)
      requires id in events && id in rawBytes && rawBytes[id] == RawTotal(events[id])
      reads this
      ensures EventLimitExceeded(id) <==> !Fits(limits, events[id])
    {
      || (limits.maxEvents >= 0 && |events[id]| > limits.maxEvents)
      || (limits.maxRawBytes >= 0 && rawBytes[id] > limits.maxRawBytes)
    }

    method EvictCompleted(now: Time)
      requires Valid()
      modifies this`completed, this`events, this`completedOrder, this`completedStoredAt, this`rawBytes, this`history
      ensures Valid() && Abstract() == Sweep(limits, old(Abstract()), now)
    {
      hide Coherent, Mirrors, Sweep;
      ghost var m := Abstract();
      LoopsSweep(limits, m, now);
      if limits.ttl > 0 {
        var cutoff := now - limits.ttl;
        while |completedOrder| > 0 && StampOfHead() < cutoff
          invariant Valid() && DropExpired(Abstract(), cutoff) == DropExpired(m, cutoff)
          decreases |completedOrder|
        {
          EvictHead();
        }
      }
      if limits.maxCompleted < 0 {
        return;
      }
      ghost var n := Abstract();
      while |completedOrder| > limits.maxCompleted
        invariant Valid() && DropOverflow(Abstract(), limits.maxCompleted) == DropOverflow(n, limits.maxCompleted)
        decreases |completedOrder|
      {
        EvictHead();
      }
    }

    function StampOfHead(): (at: Time)
      requires Valid() && completedOrder != []
      reads this
      ensures Expired(Abstract(), completedOrder[0], at + 1) && !Expired(Abstract(), completedOrder[0], at)
    {
      DropHeadKeepsCoherent(Abstract());
      completedStoredAt[completedOrder[0]]
    }

    method EvictHead()
      requires Valid() && completedOrder != []
      modifies this`completed, this`events, this`completedOrder, this`completedStoredAt, this`rawBytes, this`history
      ensures Valid() && Abstract() == DropHead(old(Abstract()))
    {
      hide Coherent, Mirrors;
      DropHeadKeepsCoherent(Abstract());
      EvictCompletedRun(completedOrder[0]);
      completedOrder := completedOrder[1..];
    }

    method EvictCompletedRun(id: RunId)
      requires Mirrors(limits, events, rawBytes, history)
      modifies this`completed, this`events, this`completedStoredAt, this`rawBytes, this`history
      ensures completed == old(completed) - {id} && completedStoredAt == old(completedStoredAt) - {id}
      ensures history == old(history) - {id} && Mirrors(limits, events, rawBytes, history)
    {
      completed := completed - {id};
      events := events - {id};
      completedStoredAt := completedStoredAt - {id};
      rawBytes := rawBytes - {id};
      history := history - {id};
    }

    /** Lists every active run once, in the arbitrary order of the map. */
    method ListActiveRuns() returns (listed: seq<RunRecord>)
      ensures |listed| == |active|
      ensures forall record :: record in listed <==> exists id :: id in active && active[id] == record
    {
      listed := [];
      var rest := active;
      while rest != map[]
        invariant forall id :: id in rest ==> id in active && rest[id] == active[id]
        invariant forall record :: record in listed <==>
                    exists id :: id in active && id !in rest && active[id] == record
        invariant |listed| + |rest| == |active|
        decreases |rest|
      {
        var id :| id in rest;
        ghost var before, more := rest, listed + [rest[id]];
        listed := listed + [rest[id]];
        rest := rest - {id};
        assert before.Keys == rest.Keys + {id};
        forall record
          ensures record in more <==> exists other :: other in active && other !in rest && active[other] == record
        {
          if record == active[id] {
            assert id in active && id !in rest;
          }
        }
      }
    }

    method GetCompletedRun(id: RunId, now: Time) returns (found: Option<RunRecord>)
      requires Valid()
      modifies this`completed, this`events, this`completedOrder, this`completedStoredAt, this`rawBytes, this`history
      ensures Valid() && Abstract() == Apply(limits, old(Abstract()), GetCompleted(now))
      ensures found == if id in Abstract().completed then Some(Abstract().completed[id]) else None
    {
      hide Coherent, Mirrors, Sweep;
      EvictCompleted(now);
      found := if id in completed then Some(completed[id]) else None;
    }

    /** Listing shows the longest recent part of the history that fits both limits. */
    method ListRunEvents(id: RunId, now: Time) returns (listed: seq<EventRecord>)
      requires Valid()
      modifies this`completed, this`events, this`completedOrder, this`completedStoredAt, this`rawBytes, this`history
      ensures Valid() && Abstract() == Apply(limits, old(Abstract()), ListEvents(now))
      ensures LongestFittingSuffix(limits, History(Abstract(), id), listed)
    {
      hide Coherent, Sweep;
      EvictCompleted(now);
      listed := if id in events then events[id] else [];
      assert listed == Retained(limits, History(Abstract(), id));
      RetainedIsLongestFittingSuffix(limits, History(Abstract(), id));
    }
  }

  lemma WrittenTwice<V>(m: map<RunId, V>, id: RunId, first: V, second: V)
    ensures m[id := first][id := second] == m[id := second]
  {
  }

  // ---------------------------------------------------------------- coherence of the completed index

  /** The queue has no repetition and holds exactly the keys of both completed maps. */
  ghost predicate Coherent(m: Model) {
    && Distinct(m.order)
    && m.completed.Keys == m.storedAt.Keys
    && forall id :: id in m.order <==> id in m.completed
  }

  lemma ActiveIsNotIndexed(m: Model, active: map<RunId, RunRecord>)
    requires Coherent(m)
    ensures Coherent(m.(active := active))
  {
  }

  lemma HistoryIsNotIndexed(m: Model, history: map<RunId, seq<EventRecord>>)
    requires Coherent(m)
    ensures Coherent(m.(history := history))
  {
  }

  lemma CompleteKeepsCoherent(m: Model, record: RunRecord, at: Time)
    requires Coherent(m)
    ensures Coherent(Complete(m, record, at))
  {
    if record.runId !in m.completed {
      DistinctAppend(m.order, record.runId);
    }
  }

  lemma DropHeadKeepsCoherent(m: Model)
    requires Coherent(m) && m.order != []
    ensures Coherent(DropHead(m)) && m.order[0] in m.storedAt && m.order[0] !in m.order[1..]
  {
    assert m.order == [m.order[0]] + m.order[1..];
  }

  lemma {:induction false} DropKeepsCoherent(m: Model, k: nat)
    requires Coherent(m) && k <= |m.order|
    ensures Coherent(Drop(m, k))
    decreases k
  {
    if k > 0 {
      DropHeadKeepsCoherent(m);
      DropKeepsCoherent(DropHead(m), k - 1);
    }
  }

  lemma {:induction false} DropTwice(m: Model, j: nat, k: nat)
    requires j + k <= |m.order|
    ensures Drop(Drop(m, j), k) == Drop(m, j + k)
    decreases j
  {
    if j > 0 {
      DropTwice(DropHead(m), j - 1, k);
    }
  }

  // ---------------------------------------------------------------- the eviction loops

  /** The TTL loop: drop the head while it is expired. */
  ghost function DropExpired(m: Model, cutoff: Time): Model
    decreases |m.order|
  {
    if m.order != [] && Expired(m, m.order[0], cutoff) then DropExpired(DropHead(m), cutoff) else m
  }

  /** The capacity loop: drop the head while the queue is too long. */
  ghost function DropOverflow(m: Model, limit: nat): Model
    decreases |m.order|
  {
    if |m.order| > limit then DropOverflow(DropHead(m), limit) else m
  }

  lemma {:induction false} StampsSurviveDrop(m: Model, order: seq<RunId>, cutoff: Time)
    requires m.order != [] && m.order[0] !in order
    ensures ExpiredHead(DropHead(m), order, cutoff) == ExpiredHead(m, order, cutoff)
  {
    if order != [] {
      assert order[0] in order;
      StampsSurviveDrop(m, order[1..], cutoff);
    }
  }

  lemma {:induction false} DropExpiredIsDrop(m: Model, cutoff: Time)
    requires Coherent(m)
    ensures DropExpired(m, cutoff) == Drop(m, ExpiredHead(m, m.order, cutoff))
    decreases |m.order|
  {
    hide Coherent;
    if m.order != [] && Expired(m, m.order[0], cutoff) {
      DropHeadKeepsCoherent(m);
      DropExpiredIsDrop(DropHead(m), cutoff);
      StampsSurviveDrop(m, m.order[1..], cutoff);
    }
  }

  lemma {:induction false} DropOverflowIsDrop(m: Model, limit: nat)
    ensures DropOverflow(m, limit) == Drop(m, Overflow(|m.order|, limit))
    decreases |m.order|
  {
    if |m.order| > limit {
      DropOverflowIsDrop(DropHead(m), limit);
    }
  }

  lemma TtlLoopIsDrop(limits: Limits, m: Model, now: Time)
    requires Coherent(m)
    ensures Drop(m, TtlCount(limits, m, now)) == if limits.ttl > 0 then DropExpired(m, now - limits.ttl) else m
  {
    hide Coherent;
    if limits.ttl > 0 {
      DropExpiredIsDrop(m, now - limits.ttl);
    }
  }

  lemma CapacityLoopIsDrop(m: Model, limit: int)
    ensures Drop(m, Overflow(|m.order|, limit)) == if limit >= 0 then DropOverflow(m, limit) else m
  {
    if limit >= 0 {
      DropOverflowIsDrop(m, limit);
    }
  }

  /** Running the two loops one after the other is one sweep. */
  lemma LoopsSweep(limits: Limits, m: Model, now: Time)
    requires Coherent(m)
    ensures var n := if limits.ttl > 0 then DropExpired(m, now - limits.ttl) else m;
            Sweep(limits, m, now) == if limits.maxCompleted >= 0 then DropOverflow(n, limits.maxCompleted) else n
  {
    hide Coherent, DropExpired, DropOverflow, Drop, TtlCount, Overflow;
    var k := TtlCount(limits, m, now);
    TtlLoopIsDrop(limits, m, now);
    CapacityLoopIsDrop(Drop(m, k), limits.maxCompleted);
    DropTwice(m, k, Overflow(|m.order| - k, limits.maxCompleted));
  }
}
