/**
 One adapter run as seen by the goroutines that share it: the run goroutine, any number of callers of
 `Cancel`, the goroutine that waits for the context, and the log watcher. Sequence numbers and the
 lifecycle are guarded by one mutex and the cleanup by a once, so each step below is one locked
 section, or what the run goroutine does between two of them; the steps interleave freely.
 */
module Lifecycle {
  import opened Core
  import EventIds

  /** A sequence number handed out, with the kind of the event it went to. */
  datatype Issue = Issue(number: int, kind: EventIds.IdKind)

  datatype Transition = Transition(from: RunStatus, to: RunStatus, number: int)

  /** The run goroutine; the first two phases are `StartRun` before it launches the others. */
  datatype MainPhase =
    | Created
    | Launching
    | Scanning
    | Announcing
    | Projecting
    | CleaningUp
    | Concluding
    | Reporting(status: RunStatus)
    | Finalized(status: RunStatus)
    | Closed(status: RunStatus)

  datatype CallerPhase = Transitioned | CleanedUp | Returned

  datatype WatcherPhase = Waiting | Acting | Ended

  /**
   `issued`, `transitions` and `processCancels` are histories; `cancelWasFirst` records that a caller's
   transition came before the run goroutine reported its verdict.
   */
  datatype State = State(
    main: MainPhase,
    callers: map<nat, CallerPhase>,
    contextWatcher: WatcherPhase,
    logWatcher: WatcherPhase,
    contextDone: bool,
    lastNumber: int,
    lifecycle: RunStatus,
    sessionId: string,
    rateLimitKey: string,
    cleanedUp: bool,
    issued: seq<Issue>,
    transitions: seq<Transition>,
    processCancels: nat,
    cancelWasFirst: bool)

  const INIT := State(Created, map[], Waiting, Waiting, false, 0, Starting, "", "", false, [], [], 0, false)

  // ---------------------------------------------------------------- the locked sections

  function NextSequence(s: State, kind: EventIds.IdKind): State {
    s.(lastNumber := s.lastNumber + 1, issued := s.issued + [Issue(s.lastNumber + 1, kind)])
  }

  function TransitionTo(s: State, to: RunStatus): State {
    if s.lifecycle == to || s.lifecycle.Terminal() then s
    else
      NextSequence(s, EventIds.Lifecycle).(
        lifecycle := to,
        transitions := s.transitions + [Transition(s.lifecycle, to, s.lastNumber + 1)])
  }

  function CleanupOnce(s: State): State {
    if s.cleanedUp then s else s.(cleanedUp := true, processCancels := s.processCancels + 1)
  }

  // ---------------------------------------------------------------- steps

  datatype Step =
    | Audit(configured: bool)
    | Launch
    | Record(sessionId: string)
    | Announce
    | Project
    | EndScan
    | MainCleanup
    | Conclude(status: RunStatus)                // the run goroutine fixes the result, outside the lock
    | Report                                     // and only then moves the lifecycle there
    | Close
    | CancelCall(caller: nat)
    | CancelCleanup(caller: nat)
    | CancelContext(caller: nat)
    | ContextFires
    | WatcherLooks
    | WatcherCleanup
    | LogLooks(key: string)
    | LogReports

  predicate Launched(s: State) {
    !s.main.Created? && !s.main.Launching?
  }

  predicate Enabled(s: State, step: Step) {
    match step
    case Audit(_) => s.main.Created?
    case Launch => s.main.Launching?
    case Record(_) => s.main.Scanning?
    case Announce => s.main.Announcing?
    case Project => s.main.Projecting?
    case EndScan => s.main.Scanning?
    case MainCleanup => s.main.CleaningUp?
    case Conclude(status) => s.main.Concluding? && status.Terminal() && (s.contextDone ==> !status.Completed?)
    case Report => s.main.Reporting?
    case Close => s.main.Finalized?
    case CancelCall(c) => Launched(s) && c !in s.callers
    case CancelCleanup(c) => c in s.callers && s.callers[c].Transitioned?
    case CancelContext(c) => c in s.callers && s.callers[c].CleanedUp?
    case ContextFires => true
    case WatcherLooks => Launched(s) && s.contextDone && s.contextWatcher.Waiting?
    case WatcherCleanup => s.contextWatcher.Acting?
    case LogLooks(_) => Launched(s) && s.logWatcher.Waiting?
    case LogReports => s.logWatcher.Acting?
  }

  function Do(s: State, step: Step): State
    requires Enabled(s, step)
  {
    match step
    case Audit(configured) => (if configured then NextSequence(s, EventIds.Native) else s).(main := Launching)
    case Launch => TransitionTo(s, Running).(main := Scanning)
    case Record(id) =>
      if id == "" || id == s.sessionId then s.(main := Projecting) else s.(main := Announcing, sessionId := id)
    case Announce => NextSequence(s, EventIds.Session).(main := Projecting)
    case Project => NextSequence(s, EventIds.Native).(main := Scanning)
    case EndScan => s.(main := CleaningUp)
    case MainCleanup => CleanupOnce(s).(main := Concluding)
    case Conclude(status) => s.(main := Reporting(status))
    case Report => TransitionTo(s, s.main.status).(main := Finalized(s.main.status))
    case Close => s.(main := Closed(s.main.status), contextDone := true)
    case CancelCall(c) =>
      TransitionTo(s, Cancelled).(callers := s.callers[c := Transitioned],
                                  cancelWasFirst := s.cancelWasFirst || !(s.main.Finalized? || s.main.Closed?))
    case CancelCleanup(c) => CleanupOnce(s).(callers := s.callers[c := CleanedUp])
    case CancelContext(c) => s.(callers := s.callers[c := CallerPhase.Returned], contextDone := true)
    case ContextFires => s.(contextDone := true)
    case WatcherLooks => s.(contextWatcher := if s.lifecycle.Terminal() then Ended else Acting)
    case WatcherCleanup => CleanupOnce(s).(contextWatcher := Ended)
    case LogLooks(key) => if key == s.rateLimitKey then s else s.(rateLimitKey := key, logWatcher := Acting)
    case LogReports => NextSequence(s, EventIds.Native).(logWatcher := Waiting)
  }

  /** `steps` is a possible interleaving from the start. */
  ghost predicate Possible(steps: seq<Step>)
    decreases |steps|, 0
  {
    steps != [] ==>
      var n := |steps| - 1;
      Possible(steps[..n]) && Enabled(After(steps[..n]), steps[n])
  }

  ghost function After(steps: seq<Step>): State
    requires Possible(steps)
    decreases |steps|, 1
  {
    if steps == [] then INIT else Do(After(steps[..|steps| - 1]), steps[|steps| - 1])
  }

  // ---------------------------------------------------------------- the invariant

  ghost predicate NumbersGapFree(lastNumber: int, issued: seq<Issue>) {
    lastNumber == |issued| && forall i :: 0 <= i < |issued| ==> issued[i].number == i + 1
  }

  /** Each transition leaves the status the previous one reached, and only a status that is not terminal. */
  ghost predicate Chain(transitions: seq<Transition>, lifecycle: RunStatus) {
    && (transitions != [] ==> transitions[0].from == Starting)
    && (forall i :: 0 < i < |transitions| ==> transitions[i].from == transitions[i - 1].to)
    && (forall i :: 0 <= i < |transitions| ==>
        !transitions[i].from.Terminal() && transitions[i].from != transitions[i].to)
    && lifecycle == if transitions == [] then Starting else transitions[|transitions| - 1].to
  }

  ghost predicate TransitionsAreIssued(transitions: seq<Transition>, issued: seq<Issue>) {
    forall i :: 0 <= i < |transitions| ==>
      var n := transitions[i].number;
      0 < n <= |issued| && issued[n - 1] == Issue(n, EventIds.Lifecycle)
  }

  ghost predicate LedgerHolds(s: State) {
    && NumbersGapFree(s.lastNumber, s.issued) && Chain(s.transitions, s.lifecycle)
    && TransitionsAreIssued(s.transitions, s.issued)
  }

  ghost predicate CleanedAtMostOnce(s: State) {
    && s.processCancels == (if s.cleanedUp then 1 else 0)
    && (s.main.Concluding? || s.main.Reporting? || s.main.Finalized? || s.main.Closed? ==> s.cleanedUp)
  }

  /** Who ended the lifecycle: the first caller, if one came before the verdict was reported, else the verdict. */
  ghost predicate EndedByFirst(s: State) {
    match s.main
    case Created | Launching => s.lifecycle.Starting? && s.callers == map[] && !s.cancelWasFirst
    case Reporting(status) => status.Terminal() && s.lifecycle == if s.cancelWasFirst then Cancelled else Running
    case Finalized(status) => status.Terminal() && s.lifecycle == if s.cancelWasFirst then Cancelled else status
    case Closed(status) => status.Terminal() && s.lifecycle == if s.cancelWasFirst then Cancelled else status
    case _ => s.lifecycle == if s.cancelWasFirst then Cancelled else Running
  }

  ghost predicate Inv(s: State) {
    LedgerHolds(s) && CleanedAtMostOnce(s) && EndedByFirst(s)
  }

  lemma NextKeepsNumbers(s: State, kind: EventIds.IdKind)
    requires LedgerHolds(s)
    ensures LedgerHolds(NextSequence(s, kind))
  {
  }

  lemma TransitionKeepsLedger(s: State, to: RunStatus)
    requires LedgerHolds(s)
    ensures LedgerHolds(TransitionTo(s, to))
  {
    var t := TransitionTo(s, to);
    NextKeepsNumbers(s, EventIds.Lifecycle);
    if t != s {
      assert t.issued[|s.issued|] == Issue(|s.issued| + 1, EventIds.Lifecycle);
      ChainExtends(s.transitions, s.lifecycle, to, s.lastNumber + 1);
    }
  }

  lemma ChainExtends(transitions: seq<Transition>, lifecycle: RunStatus, to: RunStatus, number: int)
    requires Chain(transitions, lifecycle) && !lifecycle.Terminal() && lifecycle != to
    ensures Chain(transitions + [Transition(lifecycle, to, number)], to)
  {
  }

  lemma SameLedgerHolds(s: State, t: State)
    requires SameLedger(t, s) && LedgerHolds(s)
    ensures LedgerHolds(t)
  {
  }

  /** The parts of the state that numbering and the chain depend on. */
  ghost predicate SameLedger(s: State, t: State) {
    s.lastNumber == t.lastNumber && s.issued == t.issued && s.transitions == t.transitions && s.lifecycle == t.lifecycle
  }

  /** What a step does to the ledger: nothing, one number, or one transition. */
  lemma StepOnLedger(s: State, step: Step)
    requires Enabled(s, step)
    ensures var t := Do(s, step);
            || SameLedger(t, s)
            || (exists kind :: SameLedger(t, NextSequence(s, kind)))
            || (exists to :: SameLedger(t, TransitionTo(s, to)))
  {
    var t := Do(s, step);
    match step
    case Audit(configured) => assert configured ==> SameLedger(t, NextSequence(s, EventIds.Native));
    case Launch => assert SameLedger(t, TransitionTo(s, Running));
    case Announce => assert SameLedger(t, NextSequence(s, EventIds.Session));
    case Project => assert SameLedger(t, NextSequence(s, EventIds.Native));
    case Report => assert SameLedger(t, TransitionTo(s, s.main.status));
    case CancelCall(_) => assert SameLedger(t, TransitionTo(s, Cancelled));
    case LogReports => assert SameLedger(t, NextSequence(s, EventIds.Native));
    case _ => assert SameLedger(t, s);
  }

  lemma StepKeepsLedger(s: State, step: Step)
    requires LedgerHolds(s) && Enabled(s, step)
    ensures LedgerHolds(Do(s, step))
  {
    hide Do, Enabled, LedgerHolds, SameLedger, NextSequence, TransitionTo;
    var t := Do(s, step);
    StepOnLedger(s, step);
    if kind :| SameLedger(t, NextSequence(s, kind)) {
      NextKeepsNumbers(s, kind);
      SameLedgerHolds(NextSequence(s, kind), t);
    } else if to :| SameLedger(t, TransitionTo(s, to)) {
      TransitionKeepsLedger(s, to);
      SameLedgerHolds(TransitionTo(s, to), t);
    } else {
      SameLedgerHolds(s, t);
    }
  }

  lemma StepKeepsEnding(s: State, step: Step)
    requires CleanedAtMostOnce(s) && EndedByFirst(s) && Enabled(s, step)
    ensures CleanedAtMostOnce(Do(s, step)) && EndedByFirst(Do(s, step))
  {
  }

  lemma {:induction false} InvariantHoldsAlways(steps: seq<Step>)
    requires Possible(steps)
    ensures Inv(After(steps))
  {
    if steps != [] {
      var n := |steps| - 1;
      hide LedgerHolds, CleanedAtMostOnce, EndedByFirst, Do;
      InvariantHoldsAlways(steps[..n]);
      StepKeepsLedger(After(steps[..n]), steps[n]);
      StepKeepsEnding(After(steps[..n]), steps[n]);
    } else {
      InitIsFine();
    }
  }

  lemma InitIsFine()
    ensures Inv(INIT)
  {
  }

  // ---------------------------------------------------------------- what holds in every interleaving

  function IssuedId(run: string, issue: Issue): string
    requires issue.number >= 0
  {
    EventIds.EventId(run, issue.kind, issue.number)
  }

  /** Numbers are handed out without gaps or repetition, so no two events of a run share an identifier. */
  lemma EventIdsAreDistinct(run: string, steps: seq<Step>, i: nat, j: nat)
    requires Possible(steps) && i < j < |After(steps).issued|
    ensures After(steps).issued[i].number == i + 1 && After(steps).issued[j].number == j + 1
    ensures IssuedId(run, After(steps).issued[i]) != IssuedId(run, After(steps).issued[j])
  {
    InvariantHoldsAlways(steps);
    var s := After(steps);
    if IssuedId(run, s.issued[i]) == IssuedId(run, s.issued[j]) {
      EventIds.EventIdIsInjective(run, s.issued[i].kind, s.issued[i].number, s.issued[j].kind, s.issued[j].number);
    }
  }

  /** The lifecycle events form a chain from the start, with at most one terminal status, and last. */
  lemma LifecycleIsAChain(steps: seq<Step>, i: nat)
    requires Possible(steps) && i < |After(steps).transitions|
    ensures var t := After(steps).transitions;
            && t[i].from == (if i == 0 then Starting else t[i - 1].to)
            && (t[i].to.Terminal() ==> i == |t| - 1)
            && (i == |t| - 1 ==> t[i].to == After(steps).lifecycle)
  {
    InvariantHoldsAlways(steps);
    var t := After(steps).transitions;
    if i < |t| - 1 {
      assert t[i + 1].from == t[i].to;
    }
  }

  /** However many goroutines ask, the process is cancelled at most once, and exactly once by the end. */
  lemma ProcessIsCancelledOnce(steps: seq<Step>)
    requires Possible(steps)
    ensures After(steps).processCancels <= 1
    ensures After(steps).main.Finalized? || After(steps).main.Closed? ==> After(steps).processCancels == 1
  {
    InvariantHoldsAlways(steps);
  }

  /** Step `k` is a caller's `Cancel`, and the run goroutine had not reported its verdict before it. */
  ghost predicate CancelsFirst(steps: seq<Step>, k: nat) {
    k < |steps| && steps[k].CancelCall? && forall i :: 0 <= i < k ==> !steps[i].Report?
  }

  predicate IsFinalized(s: State) {
    s.main.Finalized? || s.main.Closed?
  }

  lemma StepOnReport(s: State, step: Step)
    requires Enabled(s, step)
    ensures IsFinalized(Do(s, step)) <==> IsFinalized(s) || step.Report?
    ensures Do(s, step).cancelWasFirst <==> s.cancelWasFirst || (step.CancelCall? && !IsFinalized(s))
  {
  }

  ghost predicate SomeReports(steps: seq<Step>) {
    exists i :: 0 <= i < |steps| && steps[i].Report?
  }

  lemma LastStep(steps: seq<Step>)
    requires steps != []
    ensures var earlier, last := steps[..|steps| - 1], steps[|steps| - 1];
            && (SomeReports(steps) <==> SomeReports(earlier) || last.Report?)
            && ((exists k :: CancelsFirst(steps, k)) <==>
                  (exists k :: CancelsFirst(earlier, k)) || (last.CancelCall? && !SomeReports(earlier)))
  {
    var n := |steps| - 1;
    var earlier := steps[..n];
    assert forall i :: 0 <= i < n ==> earlier[i] == steps[i];
    if i :| 0 <= i < |steps| && steps[i].Report? {
      assert i < n ==> earlier[i].Report?;
    }
    if k: nat :| CancelsFirst(steps, k) {
      assert k < n ==> CancelsFirst(earlier, k);
    }
    if k: nat :| CancelsFirst(earlier, k) {
      assert CancelsFirst(steps, k);
    }
    if steps[n].CancelCall? && !SomeReports(earlier) {
      assert CancelsFirst(steps, n);
    }
  }

  /** What the model remembers as a cancellation that came first is one, and every such one is remembered. */
  lemma {:induction false} RemembersFirstCancel(steps: seq<Step>)
    requires Possible(steps)
    ensures IsFinalized(After(steps)) <==> SomeReports(steps)
    ensures After(steps).cancelWasFirst <==> exists k :: CancelsFirst(steps, k)
  {
    hide Do, Enabled, IsFinalized, SomeReports, CancelsFirst;
    if steps != [] {
      var n := |steps| - 1;
      RemembersFirstCancel(steps[..n]);
      StepOnReport(After(steps[..n]), steps[n]);
      LastStep(steps);
    } else {
      NothingCancelled();
    }
  }

  lemma NothingCancelled()
    ensures !HasCompleted(INIT) && !IsFinalized(INIT) && !SomeReports([]) && !INIT.cancelWasFirst
              && !exists k :: CancelsFirst([], k)
  {
  }

  /**
   Once the run goroutine has reported its verdict the lifecycle has ended, and it shows that verdict exactly
   unless some caller's `Cancel` came before the report and the verdict is another one.
   */
  lemma LifecycleShowsVerdictUnlessCancelledFirst(steps: seq<Step>)
    requires Possible(steps) && (After(steps).main.Finalized? || After(steps).main.Closed?)
    ensures var s := After(steps);
            && s.lifecycle.Terminal()
            && (s.lifecycle == s.main.status <==> !(exists k :: CancelsFirst(steps, k)) || s.main.status.Cancelled?)
  {
    InvariantHoldsAlways(steps);
    RemembersFirstCancel(steps);
  }

  /** Step `k` concludes that the run has completed, with its context not yet done. */
  ghost predicate CompletesAt(steps: seq<Step>, k: nat)
    requires Possible(steps)
  {
    k < |steps| && steps[k] == Conclude(Completed) && Possible(steps[..k]) && !After(steps[..k]).contextDone
  }

  predicate HasCompleted(s: State) {
    (s.main.Reporting? || s.main.Finalized? || s.main.Closed?) && s.main.status.Completed?
  }

  lemma StepOnCompletion(s: State, step: Step)
    requires Enabled(s, step)
    ensures HasCompleted(Do(s, step)) ==> HasCompleted(s) || (step == Conclude(Completed) && !s.contextDone)
  {
  }

  lemma {:induction false} CompletionHasItsStep(steps: seq<Step>)
    requires Possible(steps)
    ensures HasCompleted(After(steps)) ==> exists k :: CompletesAt(steps, k)
  {
    hide Do, Enabled, HasCompleted;
    if steps != [] {
      var n := |steps| - 1;
      CompletionHasItsStep(steps[..n]);
      StepOnCompletion(After(steps[..n]), steps[n]);
      if k: nat :| CompletesAt(steps[..n], k) {
        assert steps[..n][..k] == steps[..k];
        assert CompletesAt(steps, k);
      } else if HasCompleted(After(steps)) {
        assert CompletesAt(steps, n);
      }
    } else {
      NothingCancelled();
    }
  }

  /**
   A completed result under a cancelled lifecycle means that a caller's `Cancel` came before the report, and
   that neither it nor anybody else had ended the context when the run goroutine concluded.
   */
  lemma DisagreementIsARace(steps: seq<Step>)
    requires Possible(steps) && IsFinalized(After(steps))
    requires After(steps).lifecycle.Cancelled? && After(steps).main.status.Completed?
    ensures exists k :: CancelsFirst(steps, k)
    ensures exists k :: CompletesAt(steps, k)
  {
    LifecycleShowsVerdictUnlessCancelledFirst(steps);
    CompletionHasItsStep(steps);
  }

  /** `Cancel` can come between the conclusion and its report: the lifecycle says cancelled, the result completed. */
  lemma CancelCanBeatCompletion()
    ensures var steps := [Audit(false), Launch, EndScan, MainCleanup, Conclude(Completed), CancelCall(0), Report];
            && Possible(steps)
            && After(steps).main == Finalized(Completed) && After(steps).lifecycle.Cancelled?
  {
    var s0: seq<Step> := [Audit(false), Launch, EndScan, MainCleanup];
    ReadyToConclude();
    hide Possible, After;
    var s1 := s0 + [Conclude(Completed)];
    var s2 := s1 + [CancelCall(0)];
    Extend(s0, Conclude(Completed));
    Extend(s1, CancelCall(0));
    Extend(s2, Report);
    assert s2 + [Report] == [Audit(false), Launch, EndScan, MainCleanup, Conclude(Completed), CancelCall(0), Report];
  }

  lemma ReadyToConclude()
    ensures var steps := [Audit(false), Launch, EndScan, MainCleanup];
            Possible(steps) && After(steps).main.Concluding? && After(steps).lifecycle.Running?
              && !After(steps).contextDone && After(steps).callers == map[]
  {
    NothingDone();
    hide Possible, After;
    var s0: seq<Step> := [Audit(false)];
    var s1 := s0 + [Launch];
    var s2 := s1 + [EndScan];
    Extend([], Audit(false));
    assert [] + [Audit(false)] == s0;
    Extend(s0, Launch);
    Extend(s1, EndScan);
    Extend(s2, MainCleanup);
    assert s2 + [MainCleanup] == [Audit(false), Launch, EndScan, MainCleanup];
  }

  lemma NothingDone()
    ensures Possible([]) && After([]) == INIT
  {
  }

  lemma Extend(steps: seq<Step>, step: Step)
    requires Possible(steps) && Enabled(After(steps), step)
    ensures Possible(steps + [step]) && After(steps + [step]) == Do(After(steps), step)
  {
    assert (steps + [step])[..|steps|] == steps;
  }

  /** Nothing that happens after the end changes the lifecycle. */
  lemma EndIsFinal(steps: seq<Step>, step: Step)
    requires Possible(steps) && After(steps).lifecycle.Terminal() && Enabled(After(steps), step)
    ensures Do(After(steps), step).lifecycle == After(steps).lifecycle
    ensures Do(After(steps), step).transitions == After(steps).transitions
  {
    InvariantHoldsAlways(steps);
  }

  // ---------------------------------------------------------------- which events are issued

  /** The session identifier recorded last, if any was. */
  function LastSession(steps: seq<Step>): string {
    if steps == [] then ""
    else
      var n := |steps| - 1;
      if steps[n].Record? && steps[n].sessionId != "" then steps[n].sessionId else LastSession(steps[..n])
  }

  /** How many records named a session, and another one than the last record to do so. */
  function NewSessions(steps: seq<Step>): nat {
    if steps == [] then 0
    else
      var n := |steps| - 1;
      NewSessions(steps[..n]) +
      if steps[n].Record? && steps[n].sessionId != "" && steps[n].sessionId != LastSession(steps[..n]) then 1 else 0
  }

  function Issued(issued: seq<Issue>, kind: EventIds.IdKind): nat {
    if issued == [] then 0
    else
      var n := |issued| - 1;
      Issued(issued[..n], kind) + if issued[n].kind == kind then 1 else 0
  }

  lemma IssuedOneMore(issued: seq<Issue>, next: Issue, kind: EventIds.IdKind)
    ensures Issued(issued + [next], kind) == Issued(issued, kind) + if next.kind == kind then 1 else 0
  {
    assert (issued + [next])[..|issued|] == issued;
  }

  predicate OwesAnnouncement(s: State) {
    s.main.Announcing?
  }

  predicate Transits(s: State, to: RunStatus) {
    s.lifecycle != to && !s.lifecycle.Terminal()
  }

  /** The kind of the event a step issues, if it issues one. */
  function IssuedBy(s: State, step: Step): Option<EventIds.IdKind> {
    match step
    case Announce => Some(EventIds.Session)
    case Project | LogReports => Some(EventIds.Native)
    case Audit(configured) => if configured then Some(EventIds.Native) else None
    case Launch => if Transits(s, Running) then Some(EventIds.Lifecycle) else None
    case Report => if s.main.Reporting? && Transits(s, s.main.status) then Some(EventIds.Lifecycle) else None
    case CancelCall(_) => if Transits(s, Cancelled) then Some(EventIds.Lifecycle) else None
    case _ => None
  }

  lemma StepIssues(s: State, step: Step)
    requires Enabled(s, step)
    ensures var kind := IssuedBy(s, step);
            Do(s, step).issued == s.issued + (if kind.Some? then [Issue(s.lastNumber + 1, kind.value)] else [])
  {
  }

  lemma StepTransits(s: State, step: Step)
    requires Enabled(s, step)
    ensures |Do(s, step).transitions| ==
              |s.transitions| + (if IssuedBy(s, step) == Some(EventIds.Lifecycle) then 1 else 0)
  {
  }

  lemma StepCounts(s: State, step: Step, kind: EventIds.IdKind)
    requires Enabled(s, step)
    ensures Issued(Do(s, step).issued, kind) ==
              Issued(s.issued, kind) + if IssuedBy(s, step) == Some(kind) then 1 else 0
  {
    StepIssues(s, step);
    hide Do, Enabled, Issued, IssuedBy;
    var own := IssuedBy(s, step);
    if own.Some? {
      IssuedOneMore(s.issued, Issue(s.lastNumber + 1, own.value), kind);
    } else {
      assert s.issued + [] == s.issued;
    }
  }

  lemma StepOnSession(s: State, step: Step)
    requires Enabled(s, step)
    ensures var t := Do(s, step);
            var isNew := step.Record? && step.sessionId != "" && step.sessionId != s.sessionId;
            && t.sessionId == (if step.Record? && step.sessionId != "" then step.sessionId else s.sessionId)
            && Issued(t.issued, EventIds.Session) + (if OwesAnnouncement(t) then 1 else 0) ==
                 Issued(s.issued, EventIds.Session) + (if OwesAnnouncement(s) then 1 else 0) + if isNew then 1 else 0
  {
    StepCounts(s, step, EventIds.Session);
    hide Issued;
  }

  /**
   A session is announced once for each record that names one, and another one than the last, right after it:
   the run knows the session recorded last, and owes at most the announcement of that.
   */
  lemma {:induction false} SessionsAreAnnouncedOnce(steps: seq<Step>)
    requires Possible(steps)
    ensures var s := After(steps);
            && s.sessionId == LastSession(steps)
            && Issued(s.issued, EventIds.Session) + (if s.main.Announcing? then 1 else 0) == NewSessions(steps)
  {
    if steps != [] {
      var n := |steps| - 1;
      hide Do, Enabled, Issued;
      SessionsAreAnnouncedOnce(steps[..n]);
      StepOnSession(After(steps[..n]), steps[n]);
    }
  }

  /** How many steps report something of their own: records, new rate limits, and the audit if one is configured. */
  function Reports(steps: seq<Step>): nat {
    if steps == [] then 0
    else
      var n := |steps| - 1;
      Reports(steps[..n]) + if steps[n].Project? || steps[n].LogReports? || steps[n] == Audit(true) then 1 else 0
  }

  lemma StepOnOthers(s: State, step: Step)
    requires Enabled(s, step)
    ensures var t := Do(s, step);
            && Issued(t.issued, EventIds.Native) ==
                 Issued(s.issued, EventIds.Native) +
                 (if step.Project? || step.LogReports? || step == Audit(true) then 1 else 0)
            && |t.transitions| - |s.transitions| ==
                 Issued(t.issued, EventIds.Lifecycle) - Issued(s.issued, EventIds.Lifecycle)
  {
    StepCounts(s, step, EventIds.Native);
    StepCounts(s, step, EventIds.Lifecycle);
    StepTransits(s, step);
    hide Do, Enabled, Issued;
  }

  /** Every record, rate limit and audit has its event, and every transition its own. */
  lemma {:induction false} EveryReportHasItsEvent(steps: seq<Step>)
    requires Possible(steps)
    ensures Issued(After(steps).issued, EventIds.Native) == Reports(steps)
    ensures Issued(After(steps).issued, EventIds.Lifecycle) == |After(steps).transitions|
  {
    if steps != [] {
      var n := |steps| - 1;
      hide Do, Enabled, Issued;
      EveryReportHasItsEvent(steps[..n]);
      StepOnOthers(After(steps[..n]), steps[n]);
    }
  }

  // ---------------------------------------------------------------- who cancels the process

  predicate CleansUp(step: Step) {
    step.MainCleanup? || step.CancelCleanup? || step.WatcherCleanup?
  }

  ghost predicate SomeCleansUp(steps: seq<Step>) {
    exists i :: 0 <= i < |steps| && CleansUp(steps[i])
  }

  lemma LastCleanup(steps: seq<Step>)
    requires steps != []
    ensures SomeCleansUp(steps) <==> SomeCleansUp(steps[..|steps| - 1]) || CleansUp(steps[|steps| - 1])
  {
    var n := |steps| - 1;
    assert forall i :: 0 <= i < n ==> steps[..n][i] == steps[i];
    if i :| 0 <= i < |steps| && CleansUp(steps[i]) {
      assert i < n ==> CleansUp(steps[..n][i]);
    }
    if i :| 0 <= i < n && CleansUp(steps[..n][i]) {
      assert CleansUp(steps[i]);
    }
  }

  lemma StepOnCleanup(s: State, step: Step)
    requires Enabled(s, step) && CleanedAtMostOnce(s)
    ensures Do(s, step).processCancels == if s.processCancels > 0 || CleansUp(step) then 1 else 0
  {
  }

  /** The process is cancelled exactly when the run goroutine, a caller or the context watcher has cleaned up. */
  lemma {:induction false} CancelledIffCleanedUp(steps: seq<Step>)
    requires Possible(steps)
    ensures After(steps).processCancels == if SomeCleansUp(steps) then 1 else 0
  {
    if steps != [] {
      var n := |steps| - 1;
      CancelledIffCleanedUp(steps[..n]);
      LastCleanup(steps);
      InvariantHoldsAlways(steps[..n]);
      StepOnCleanup(After(steps[..n]), steps[n]);
      hide Do, Enabled, SomeCleansUp, LedgerHolds, EndedByFirst, CleanedAtMostOnce;
    }
  }

  /** The context watcher has work exactly when it finds the context done and the lifecycle not ended. */
  lemma WatcherActsIff(s: State)
    requires Enabled(s, WatcherLooks)
    ensures s.contextDone && (Enabled(Do(s, WatcherLooks), WatcherCleanup) <==> !s.lifecycle.Terminal())
  {
  }

  /** The log watcher reports a rate limit exactly when it is another than the one it reported last. */
  lemma LogReportsIff(s: State, key: string)
    requires Enabled(s, LogLooks(key))
    ensures Enabled(Do(s, LogLooks(key)), LogReports) <==> key != s.rateLimitKey
    ensures Do(s, LogLooks(key)).rateLimitKey == key
  {
  }

  // ---------------------------------------------------------------- when the context ends

  predicate EndsContext(step: Step) {
    step.ContextFires? || step.CancelContext? || step.Close?
  }

  lemma StepOnContext(s: State, step: Step)
    requires Enabled(s, step)
    ensures Do(s, step).contextDone <==> s.contextDone || EndsContext(step)
  {
  }

  ghost predicate SomeEndsContext(steps: seq<Step>) {
    exists i :: 0 <= i < |steps| && EndsContext(steps[i])
  }

  lemma LastOnContext(steps: seq<Step>)
    requires steps != []
    ensures SomeEndsContext(steps) <==> SomeEndsContext(steps[..|steps| - 1]) || EndsContext(steps[|steps| - 1])
  {
    var n := |steps| - 1;
    assert forall i :: 0 <= i < n ==> steps[..n][i] == steps[i];
    if i :| 0 <= i < |steps| && EndsContext(steps[i]) {
      assert i < n ==> EndsContext(steps[..n][i]);
    }
    if i :| 0 <= i < n && EndsContext(steps[..n][i]) {
      assert EndsContext(steps[i]);
    }
  }

  /** The context is done exactly when it fired, a caller's `Cancel` ended it, or the run was closed. */
  lemma {:induction false} ContextDoneIff(steps: seq<Step>)
    requires Possible(steps)
    ensures After(steps).contextDone <==> SomeEndsContext(steps)
  {
    if steps != [] {
      var n := |steps| - 1;
      ContextDoneIff(steps[..n]);
      LastOnContext(steps);
      StepOnContext(After(steps[..n]), steps[n]);
      hide Do, Enabled, SomeEndsContext;
    }
  }
}
