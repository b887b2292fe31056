/**
 The store of model rates: a table in memory, a snapshot on disk and a catalog on the network, each
 consulted only when the one before it is older than the time to live. Disk, network and clock are the
 environment and may answer anything.
 */
module Rates {
  import opened Core

  type Time = int

  type RateTable = map<string, real>

  const RATES_TTL: Time := 24 * 3600 * 1_000_000_000
  const SNAPSHOT_VERSION: int := 1

  datatype Snapshot = Snapshot(version: int, fetchedAt: Option<Time>, source: string, rates: RateTable)

  /** What a call to `Ensure` meets: the clock, the decoded snapshot file, the parsed catalog, the clock afterwards. */
  datatype Call = Call(now: Time, disk: Option<Snapshot>, catalog: Option<RateTable>, fetchedAt: Time)

  datatype Freshness = Fresh | Cached

  datatype Answer =
    | Resolved(table: RateTable, freshness: Freshness, fetchedAt: Time, source: string)
    | Unavailable

  datatype Memory = Memory(table: RateTable, fetchedAt: Time, source: string, resolved: bool)

  const NOTHING := Memory(map[], 0, "", false)

  /** A snapshot of the right version that has rates and a time. */
  predicate Usable(disk: Option<Snapshot>) {
    disk.Some? && disk.value.version == SNAPSHOT_VERSION && |disk.value.rates| > 0 && disk.value.fetchedAt.Some?
  }

  /** A catalog without priced models counts as a failed fetch. */
  predicate Fetched(catalog: Option<RateTable>) {
    catalog.Some? && |catalog.value| > 0
  }

  predicate Young(fetchedAt: Time, now: Time) {
    now - fetchedAt < RATES_TTL
  }

  /** The memory afterwards, the answer, and whether the network was asked. */
  datatype Effect = Effect(memory: Memory, answer: Answer, network: bool)

  class RateTableStore {
    const persistent: bool
    const url: string
    var table: RateTable
    var fetchedAt: Time
    var source: string
    var resolved: bool
    var written: Option<Snapshot>

    function InMemory(): Memory
      reads this
    {
      Memory(table, fetchedAt, source, resolved)
    }

    constructor (persistent: bool, url: string)
      ensures this.persistent == persistent && this.url == url && InMemory() == NOTHING && written.None?
    {
      this.persistent, this.url := persistent, url;
      table, fetchedAt, source, resolved, written := map[], 0, "", false, None;
    }

    method Apply(at: Time, rates: RateTable, from: string)
      modifies this`table, this`fetchedAt, this`source, this`resolved
      ensures InMemory() == Memory(rates, at, from, |rates| > 0)
    {
      table, fetchedAt, source, resolved := rates, at, from, |rates| > 0;
    }

    function LoadSnapshot(disk: Option<Snapshot>): Option<Snapshot>
      reads this
    {
      if persistent && Usable(disk) then disk else None
    }

    /** Consults memory, disk and network in that order; an old snapshot is better than nothing. */
    method Ensure(call: Call) returns (answer: Answer, network: bool)
      modifies this
      ensures Effect(InMemory(), answer, network) == EnsureSpec(persistent, url, old(InMemory()), call)
      ensures var snapshot := SnapshotWritten(persistent, url, network, call);
              written == if snapshot.Some? then snapshot else old(written)
    {
      network := false;
      if resolved && call.now - fetchedAt < RATES_TTL {
        return Resolved(table, Fresh, fetchedAt, source), network;
      }
      var stale := LoadSnapshot(call.disk);
      if stale.Some? && call.now - stale.value.fetchedAt.value < RATES_TTL {
        Apply(stale.value.fetchedAt.value, stale.value.rates, stale.value.source);
        return Resolved(table, Fresh, fetchedAt, source), network;
      }
      network := true;
      if Fetched(call.catalog) {
        Apply(call.fetchedAt, call.catalog.value, url);
        if persistent {
          written := Some(Snapshot(SNAPSHOT_VERSION, Some(call.fetchedAt), url, call.catalog.value));
        }
        return Resolved(table, Fresh, fetchedAt, source), network;
      }
      if stale.Some? {
        Apply(stale.value.fetchedAt.value, stale.value.rates, stale.value.source);
        return Resolved(table, Cached, fetchedAt, source), network;
      }
      if resolved {
        return Resolved(table, Cached, fetchedAt, source), network;
      }
      return Unavailable, network;
    }
  }

  function Load(m: Memory, freshness: Freshness, network: bool): Effect {
    Effect(m, Resolved(m.table, freshness, m.fetchedAt, m.source), network)
  }

  /** One call, as a function of the memory and the environment. */
  function EnsureSpec(persistent: bool, url: string, m: Memory, call: Call): Effect {
    var usable := persistent && Usable(call.disk);
    if m.resolved && Young(m.fetchedAt, call.now) then Load(m, Fresh, false)
    else if usable && Young(call.disk.value.fetchedAt.value, call.now) then
      Load(FromSnapshot(call.disk.value), Fresh, false)
    else if Fetched(call.catalog) then Load(Memory(call.catalog.value, call.fetchedAt, url, true), Fresh, true)
    else if usable then Load(FromSnapshot(call.disk.value), Cached, true)
    else if m.resolved then Load(m, Cached, true)
    else Effect(m, Unavailable, true)
  }

  /** The snapshot a call hands to the disk: the catalog it fetched, if it fetched one. */
  function SnapshotWritten(persistent: bool, url: string, network: bool, call: Call): Option<Snapshot> {
    if network && Fetched(call.catalog) && persistent
    then Some(Snapshot(SNAPSHOT_VERSION, Some(call.fetchedAt), url, call.catalog.value)) else None
  }

  function FromSnapshot(s: Snapshot): Memory
    requires s.fetchedAt.Some?
  {
    Memory(s.rates, s.fetchedAt.value, s.source, |s.rates| > 0)
  }

  /** The memory after a trace of calls. */
  function After(persistent: bool, url: string, m: Memory, calls: seq<Call>): Memory {
    if calls == [] then m
    else EnsureSpec(persistent, url, After(persistent, url, m, calls[..|calls| - 1]), calls[|calls| - 1]).memory
  }

  /** The effect of the i-th call of a trace. */
  function EffectAt(persistent: bool, url: string, m: Memory, calls: seq<Call>, i: nat): Effect
    requires i < |calls|
  {
    EnsureSpec(persistent, url, After(persistent, url, m, calls[..i]), calls[i])
  }

  // ---------------------------------------------------------------- every trace

  ghost predicate Sound(m: Memory) {
    m.resolved ==> |m.table| > 0
  }

  lemma {:induction false} MemoryStaysSound(persistent: bool, url: string, m: Memory, calls: seq<Call>)
    requires Sound(m)
    ensures Sound(After(persistent, url, m, calls))
    ensures m.resolved ==> After(persistent, url, m, calls).resolved
  {
    if calls != [] {
      MemoryStaysSound(persistent, url, m, calls[..|calls| - 1]);
    }
  }

  /** Every table handed out has rates in it; one that is called fresh is younger than the time to live. */
  lemma AnswersAreUsable(persistent: bool, url: string, calls: seq<Call>, i: nat)
    requires i < |calls|
    ensures var e := EffectAt(persistent, url, NOTHING, calls, i);
            e.answer.Resolved? ==>
              && |e.answer.table| > 0
              && (e.answer.freshness.Fresh? ==>
                    if e.network then e.answer.fetchedAt == calls[i].fetchedAt
                      else Young(e.answer.fetchedAt, calls[i].now))
              && (e.answer.freshness.Cached? ==> !Young(e.answer.fetchedAt, calls[i].now) && e.network)
  {
    MemoryStaysSound(persistent, url, NOTHING, calls[..i]);
  }

  lemma {:induction false} AfterSplits(persistent: bool, url: string, m: Memory, calls: seq<Call>, i: nat)
    requires i <= |calls|
    ensures After(persistent, url, m, calls) ==
              After(persistent, url, After(persistent, url, m, calls[..i]), calls[i..])
    decreases |calls| - i
  {
    if i < |calls| {
      var n := |calls| - 1;
      AfterSplits(persistent, url, m, calls[..n], i);
      assert calls[..n][..i] == calls[..i] && calls[..n][i..] == calls[i..][..n - i];
    } else {
      assert calls[..i] == calls;
    }
  }

  /** Once any call has been answered, no later call fails, whatever happens to disk and network. */
  lemma NeverUnavailableAgain(persistent: bool, url: string, calls: seq<Call>, i: nat, j: nat)
    requires i < j < |calls| && EffectAt(persistent, url, NOTHING, calls, i).answer.Resolved?
    ensures EffectAt(persistent, url, NOTHING, calls, j).answer.Resolved?
  {
    MemoryStaysSound(persistent, url, NOTHING, calls[..i]);
    assert calls[..i + 1][..i] == calls[..i];
    var m := After(persistent, url, NOTHING, calls[..i + 1]);
    assert m.resolved;
    AfterSplits(persistent, url, NOTHING, calls[..j], i + 1);
    assert calls[..j][..i + 1] == calls[..i + 1];
    MemoryStaysSound(persistent, url, m, calls[..j][i + 1..]);
  }

  /** A call fails exactly while nothing has ever been resolved and neither disk nor network helps. */
  lemma {:induction false} UnresolvedMeansAllFailed(persistent: bool, url: string, calls: seq<Call>)
    ensures After(persistent, url, NOTHING, calls).resolved <==>
              exists i :: 0 <= i < |calls| && EffectAt(persistent, url, NOTHING, calls, i).answer.Resolved?
  {
    if calls != [] {
      var n := |calls| - 1;
      UnresolvedMeansAllFailed(persistent, url, calls[..n]);
      MemoryStaysSound(persistent, url, NOTHING, calls[..n]);
      forall i: nat | i < n
        ensures EffectAt(persistent, url, NOTHING, calls, i) == EffectAt(persistent, url, NOTHING, calls[..n], i)
      {
        assert calls[..n][..i] == calls[..i];
      }
      assert After(persistent, url, NOTHING, calls).resolved <==>
               After(persistent, url, NOTHING, calls[..n]).resolved
                 || EffectAt(persistent, url, NOTHING, calls, n).answer.Resolved?;
    }
  }

  ghost predicate AllBefore(calls: seq<Call>, deadline: Time) {
    forall i :: 0 <= i < |calls| ==> calls[i].now < deadline
  }

  lemma {:induction false} YoungMemoryIsKept(persistent: bool, url: string, m: Memory, calls: seq<Call>)
    requires m.resolved && AllBefore(calls, m.fetchedAt + RATES_TTL)
    ensures After(persistent, url, m, calls) == m
  {
    if calls != [] {
      YoungMemoryIsKept(persistent, url, m, calls[..|calls| - 1]);
    }
  }

  /** After a fetch at time t, calls made before t plus the time to live leave the network alone and see its table. */
  lemma FetchQuietsTheNetwork(persistent: bool, url: string, calls: seq<Call>, k: nat, j: nat)
    requires k < j < |calls|
    requires EffectAt(persistent, url, NOTHING, calls, k).network && Fetched(calls[k].catalog)
    requires AllBefore(calls[k + 1..j + 1], calls[k].fetchedAt + RATES_TTL)
    ensures var e := EffectAt(persistent, url, NOTHING, calls, j);
            !e.network && e.answer == Resolved(calls[k].catalog.value, Fresh, calls[k].fetchedAt, url)
  {
    var m := Memory(calls[k].catalog.value, calls[k].fetchedAt, url, true);
    assert calls[..k + 1][..k] == calls[..k];
    assert After(persistent, url, NOTHING, calls[..k + 1]) == m;
    AfterSplits(persistent, url, NOTHING, calls[..j], k + 1);
    assert calls[..j][..k + 1] == calls[..k + 1];
    assert calls[..j][k + 1..] == calls[k + 1..j + 1][..j - k - 1];
    YoungMemoryIsKept(persistent, url, m, calls[..j][k + 1..]);
    assert calls[k + 1..j + 1][j - k - 1] == calls[j];
  }

  /**
   With a clock that does not run backwards, a call replaces the table in memory by an older one exactly
   when memory has expired, the fetch fails and a usable snapshot older than memory is on disk.
   */
  lemma MemoryAgesIff(persistent: bool, url: string, m: Memory, call: Call)
    requires m.resolved && m.fetchedAt <= call.fetchedAt
    ensures EnsureSpec(persistent, url, m, call).memory.fetchedAt < m.fetchedAt <==>
              && !Young(m.fetchedAt, call.now) && !Fetched(call.catalog)
              && persistent && Usable(call.disk) && call.disk.value.fetchedAt.value < m.fetchedAt
  {
  }

  /** So a stale snapshot can displace a newer table that could not be written to disk. */
  lemma OlderSnapshotDisplacesMemory()
    ensures var stale := Some(Snapshot(SNAPSHOT_VERSION, Some(5), "net", map["m" := 1.0]));
            var fetches := Call(10 + RATES_TTL, stale, Some(map["m" := 2.0]), 10 + RATES_TTL);
            var fails := Call(11 + 2 * RATES_TTL, stale, None, 11 + 2 * RATES_TTL);
            && After(true, "net", NOTHING, [fetches]).table == map["m" := 2.0]
            && After(true, "net", NOTHING, [fetches, fails]).table == map["m" := 1.0]
  {
    var stale := Some(Snapshot(SNAPSHOT_VERSION, Some(5), "net", map["m" := 1.0]));
    var fetches := Call(10 + RATES_TTL, stale, Some(map["m" := 2.0]), 10 + RATES_TTL);
    var fails := Call(11 + 2 * RATES_TTL, stale, None, 11 + 2 * RATES_TTL);
    assert [fetches][..0] == [];
    assert [fetches, fails][..1] == [fetches];
  }

  // ---------------------------------------------------------------- stores that share a directory

  type StoreId = nat

  /** Any number of stores over one directory: what each remembers, and the snapshot last written there. */
  datatype World = World(memories: map<StoreId, Memory>, disk: Option<Snapshot>)

  /** One call to one of the stores; `saved` is false when the snapshot it fetched could not be written. */
  datatype Turn = Turn(store: StoreId, now: Time, catalog: Option<RateTable>, fetchedAt: Time, saved: bool)

  function MemoryOf(w: World, id: StoreId): Memory {
    if id in w.memories then w.memories[id] else NOTHING
  }

  function CallOf(w: World, t: Turn): Call {
    Call(t.now, w.disk, t.catalog, t.fetchedAt)
  }

  function EffectOf(urls: StoreId -> string, w: World, t: Turn): Effect {
    EnsureSpec(true, urls(t.store), MemoryOf(w, t.store), CallOf(w, t))
  }

  function Step(urls: StoreId -> string, w: World, t: Turn): World {
    var e := EffectOf(urls, w, t);
    var snapshot := SnapshotWritten(true, urls(t.store), e.network, CallOf(w, t));
    World(w.memories[t.store := e.memory], if snapshot.Some? && t.saved then snapshot else w.disk)
  }

  function WorldAfter(urls: StoreId -> string, start: World, turns: seq<Turn>): World {
    if turns == [] then start
    else Step(urls, WorldAfter(urls, start, turns[..|turns| - 1]), turns[|turns| - 1])
  }

  /** The world in which the i-th call is made. */
  function Before(urls: StoreId -> string, start: World, turns: seq<Turn>, i: nat): World
    requires i <= |turns|
  {
    WorldAfter(urls, start, turns[..i])
  }

  lemma OneMoreTurn(urls: StoreId -> string, start: World, turns: seq<Turn>, i: nat)
    requires i < |turns|
    ensures Before(urls, start, turns, i + 1) == Step(urls, Before(urls, start, turns, i), turns[i])
  {
    assert turns[..i + 1][..i] == turns[..i];
  }

  /** The snapshot a turn writes to the disk. */
  function Saved(urls: StoreId -> string, t: Turn): Option<Snapshot> {
    if Fetched(t.catalog) && t.saved
    then Some(Snapshot(SNAPSHOT_VERSION, Some(t.fetchedAt), urls(t.store), t.catalog.value))
    else None
  }

  /** Turn `k` fetches a catalog and writes it, and all later turns up to `j` come before it expires. */
  ghost predicate WritesFor(urls: StoreId -> string, start: World, turns: seq<Turn>, k: nat, j: nat) {
    && k < j < |turns| && Saved(urls, turns[k]).Some?
    && EffectOf(urls, Before(urls, start, turns, k), turns[k]).network
    && forall i :: k < i <= j ==> turns[i].now < turns[k].fetchedAt + RATES_TTL
  }

  lemma {:induction false} WriteStaysOnDisk(urls: StoreId -> string, start: World, turns: seq<Turn>, k: nat, j: nat)
    requires WritesFor(urls, start, turns, k, j)
    ensures Before(urls, start, turns, j).disk == Saved(urls, turns[k])
    decreases j
  {
    OneMoreTurn(urls, start, turns, j - 1);
    if k < j - 1 {
      WriteStaysOnDisk(urls, start, turns, k, j - 1);
    }
  }

  /**
   What one store writes serves every store of the directory while it is young: none of them goes to the
   network, and each answers from its own memory if that is still young, and with the written table otherwise.
   */
  lemma WriteServesEveryStore(urls: StoreId -> string, start: World, turns: seq<Turn>, k: nat, j: nat)
    requires WritesFor(urls, start, turns, k, j)
    ensures var w := Before(urls, start, turns, j);
            var m, e := MemoryOf(w, turns[j].store), EffectOf(urls, w, turns[j]);
            && !e.network
            && e.answer == if m.resolved && Young(m.fetchedAt, turns[j].now) then
                 Resolved(m.table, Fresh, m.fetchedAt, m.source)
                           else Resolved(turns[k].catalog.value, Fresh, turns[k].fetchedAt, urls(turns[k].store))
  {
    WriteStaysOnDisk(urls, start, turns, k, j);
  }

  lemma {:induction false} UnusedStoreRemembersNothing(urls: StoreId -> string, start: World, turns: seq<Turn>,
                                                       id: StoreId)
    requires id !in start.memories && forall i :: 0 <= i < |turns| ==> turns[i].store != id
    ensures MemoryOf(WorldAfter(urls, start, turns), id) == NOTHING
  {
    if turns != [] {
      UnusedStoreRemembersNothing(urls, start, turns[..|turns| - 1], id);
    }
  }

  /** So the snapshot written by one store answers the first call to another, without the network. */
  lemma SnapshotServesTheNextStore(urls: StoreId -> string, start: World, turns: seq<Turn>, k: nat, j: nat)
    requires WritesFor(urls, start, turns, k, j)
    requires turns[j].store !in start.memories && forall i :: 0 <= i < j ==> turns[i].store != turns[j].store
    ensures var e := EffectOf(urls, Before(urls, start, turns, j), turns[j]);
            !e.network && e.answer == Resolved(turns[k].catalog.value, Fresh, turns[k].fetchedAt, urls(turns[k].store))
  {
    WriteServesEveryStore(urls, start, turns, k, j);
    UnusedStoreRemembersNothing(urls, start, turns[..j], turns[j].store);
  }

  /** Fetches are timed by a clock that does not run backwards, beginning after a snapshot found at the start. */
  ghost predicate ClockAdvances(start: World, turns: seq<Turn>) {
    && (forall i, j :: 0 <= i < j < |turns| ==> turns[i].fetchedAt <= turns[j].fetchedAt)
    && (Usable(start.disk) ==> forall i :: 0 <= i < |turns| ==> start.disk.value.fetchedAt.value <= turns[i].fetchedAt)
  }

  /** What this store fetches is also written. */
  ghost predicate SavesItsFetches(turns: seq<Turn>, id: StoreId) {
    forall i :: 0 <= i < |turns| && turns[i].store == id ==> turns[i].saved
  }

  /** The disk is at least as recent as what the store remembers, and as old as some fetch or the start. */
  ghost predicate DiskKeepsUp(start: World, w: World, turns: seq<Turn>, id: StoreId) {
    && (MemoryOf(w, id).resolved ==> Usable(w.disk) && MemoryOf(w, id).fetchedAt <= w.disk.value.fetchedAt.value)
    && (Usable(w.disk) ==>
          w.disk == start.disk || exists i :: 0 <= i < |turns| && w.disk.value.fetchedAt.value == turns[i].fetchedAt)
  }

  lemma StepKeepsUp(urls: StoreId -> string, start: World, w: World, turns: seq<Turn>, t: Turn, id: StoreId)
    requires DiskKeepsUp(start, w, turns, id) && ClockAdvances(start, turns + [t]) && (t.store == id ==> t.saved)
    ensures DiskKeepsUp(start, Step(urls, w, t), turns + [t], id)
    ensures MemoryOf(w, id).resolved ==> MemoryOf(w, id).fetchedAt <= MemoryOf(Step(urls, w, t), id).fetchedAt
  {
    var all := turns + [t];
    assert all[|turns|] == t;
    assert forall i :: 0 <= i < |turns| ==> all[i] == turns[i];
    if Usable(w.disk) {
      assert w.disk.value.fetchedAt.value <= t.fetchedAt by {
        if w.disk != start.disk {
          var i :| 0 <= i < |turns| && w.disk.value.fetchedAt.value == turns[i].fetchedAt;
          assert all[i].fetchedAt <= all[|turns|].fetchedAt;
        } else {
          assert start.disk.value.fetchedAt.value <= all[|turns|].fetchedAt;
        }
      }
    }
  }

  lemma {:induction false} KeepsUp(urls: StoreId -> string, start: World, turns: seq<Turn>, id: StoreId)
    requires id !in start.memories && ClockAdvances(start, turns) && SavesItsFetches(turns, id)
    ensures DiskKeepsUp(start, WorldAfter(urls, start, turns), turns, id)
  {
    if turns != [] {
      var n := |turns| - 1;
      var earlier := turns[..n];
      assert turns == earlier + [turns[n]];
      KeepsUp(urls, start, earlier, id);
      StepKeepsUp(urls, start, WorldAfter(urls, start, earlier), earlier, turns[n], id);
    }
  }

  /**
   A store all of whose fetches are written never goes back to an older table, whatever the other stores
   of the directory do and whether or not their own writes succeed.
   */
  lemma {:induction false} SavedFetchesNeverAge(urls: StoreId -> string, start: World, turns: seq<Turn>, i: nat, j: nat,
                                                id: StoreId)
    requires i <= j <= |turns|
    requires id !in start.memories && ClockAdvances(start, turns) && SavesItsFetches(turns, id)
    ensures var m, n := MemoryOf(Before(urls, start, turns, i), id), MemoryOf(Before(urls, start, turns, j), id);
            m.resolved ==> n.resolved && m.fetchedAt <= n.fetchedAt
    decreases j - i
  {
    if i < j {
      SavedFetchesNeverAge(urls, start, turns, i, j - 1, id);
      var earlier, w := turns[..j - 1], Before(urls, start, turns, j - 1);
      assert forall k :: 0 <= k < j ==> (earlier + [turns[j - 1]])[k] == turns[k];
      assert ClockAdvances(start, earlier + [turns[j - 1]]) && ClockAdvances(start, earlier)
               && SavesItsFetches(earlier, id);
      hide DiskKeepsUp, ClockAdvances, SavesItsFetches;
      KeepsUp(urls, start, earlier, id);
      StepKeepsUp(urls, start, w, earlier, turns[j - 1], id);
      OneMoreTurn(urls, start, turns, j - 1);
    }
  }

  /** One fetch that could not be written is lost to the older snapshot once it has expired. */
  lemma UnsavedFetchIsLost(urls: StoreId -> string)
    ensures var start := World(map[], Some(Snapshot(SNAPSHOT_VERSION, Some(5), "net", map["m" := 1.0])));
            var turns := [Turn(0, 10 + RATES_TTL, Some(map["m" := 2.0]), 10 + RATES_TTL, false),
                          Turn(0, 11 + 2 * RATES_TTL, None, 11 + 2 * RATES_TTL, true)];
            && ClockAdvances(start, turns)
            && MemoryOf(Before(urls, start, turns, 1), 0).table == map["m" := 2.0]
            && MemoryOf(Before(urls, start, turns, 2), 0).table == map["m" := 1.0]
  {
    var start := World(map[], Some(Snapshot(SNAPSHOT_VERSION, Some(5), "net", map["m" := 1.0])));
    var turns := [Turn(0, 10 + RATES_TTL, Some(map["m" := 2.0]), 10 + RATES_TTL, false),
                  Turn(0, 11 + 2 * RATES_TTL, None, 11 + 2 * RATES_TTL, true)];
    assert turns[..0] == [];
    OneMoreTurn(urls, start, turns, 0);
    OneMoreTurn(urls, start, turns, 1);
  }

  // ---------------------------------------------------------------- spelled out

  /** What a call answers, from which layer, and when it asks the network: a day is the time to live. */
  lemma AnswersInWords(persistent: bool, url: string, m: Memory, call: Call)
    ensures var day := 24 * 60 * 60 * 1_000_000_000;
            var usable := persistent && call.disk.Some? && call.disk.value.version == 1 &&
                          |call.disk.value.rates| > 0 && call.disk.value.fetchedAt.Some?;
            var fetched := call.catalog.Some? && |call.catalog.value| > 0;
            var e := EnsureSpec(persistent, url, m, call);
            if m.resolved && call.now - m.fetchedAt < day then
              !e.network && e.answer == Resolved(m.table, Fresh, m.fetchedAt, m.source)
            else if usable && call.now - call.disk.value.fetchedAt.value < day then
              !e.network && e.answer == Resolved(call.disk.value.rates, Fresh, call.disk.value.fetchedAt.value,
                                                 call.disk.value.source)
            else
              && e.network
              && (fetched ==> e.answer == Resolved(call.catalog.value, Fresh, call.fetchedAt, url))
              && (!fetched && usable ==>
                    e.answer == Resolved(call.disk.value.rates, Cached, call.disk.value.fetchedAt.value,
                                         call.disk.value.source))
              && (!fetched && !usable && m.resolved ==> e.answer == Resolved(m.table, Cached, m.fetchedAt, m.source))
              && (!fetched && !usable && !m.resolved ==> e.answer == Unavailable)
  {
  }

  /** A fetched catalog is what is remembered and written; a store without a directory writes nothing. */
  lemma FetchesAreRemembered(persistent: bool, url: string, m: Memory, call: Call)
    requires EnsureSpec(persistent, url, m, call).network && call.catalog.Some? && |call.catalog.value| > 0
    ensures EnsureSpec(persistent, url, m, call).memory == Memory(call.catalog.value, call.fetchedAt, url, true)
    ensures SnapshotWritten(persistent, url, true, call) ==
              if persistent then Some(Snapshot(1, Some(call.fetchedAt), url, call.catalog.value)) else None
  {
  }
}
