/**
 The resilience loop: run an attempt, ask a policy what to do about its failure, and retry, fall back
 or stop. The runtimes, the clock, the sleeper and the policy's callbacks are an environment that
 answers arbitrarily, one `Turn` per iteration.
 */
module Policy {
  import opened Core

  type RuntimeId = string

  /** `""`, `None` and `0` stand for values left unset. */
  datatype RunRequest = RunRequest(
    prompt: string,
    workDir: string,
    sessionId: string,
    turnId: string,
    provider: string,
    model: string,
    permissions: string,
    permissionPolicy: Option<string>,
    sandbox: string,
    timeout: int,
    metadata: Option<map<string, string>>,
    wantSession: bool,
    sessionAction: string,
    requireCaps: Option<seq<string>>,
    requireHealth: Option<seq<string>>,
    validation: Option<string>,
    promptCache: Option<string>)

  datatype Alternative = Alternative(name: string, runtime: Option<RuntimeId>, request: RunRequest)

  const BLANK_REQUEST := RunRequest("", "", "", "", "", "", "", None, "", 0, None, false, "", None, None, None, None)
  const BLANK := Alternative("", None, BLANK_REQUEST)

  datatype DecisionKind = Unset | Stop | Retry | Wait | Fallback | Unsupported(name: string)

  datatype Decision = Decision(
    kind: DecisionKind,
    reason: string,
    delay: int,
    targetIndex: int,
    target: Option<Alternative>,
    request: Option<RunRequest>,
    sessionAction: string,
    err: Option<SdkError>)

  datatype PolicyContext = PolicyContext(
    attempt: nat,
    attemptOnTarget: nat,
    targetIndex: int,
    alternatives: seq<Alternative>,
    err: Option<SdkError>,
    elapsed: int,
    rateLimitKnown: bool)

  // ---------------------------------------------------------------- the bounded policy

  /** `customRetry` and `customFallback` say whether the caller supplied its own callbacks. */
  datatype BasicPolicy = BasicPolicy(
    maxAttemptsPerTarget: int,
    maxElapsed: int,
    retryRateLimits: bool,
    fallbacks: seq<Alternative>,
    customRetry: bool,
    customFallback: bool)

  /** What the context and the callbacks answer during one decision; `ShouldFallback` may be asked twice. */
  datatype Answers = Answers(stopped: Option<SdkError>, retry: bool, fallback: bool, fallbackAgain: bool, delay: int)

  predicate DefaultRetryable(ctx: PolicyContext) {
    ctx.err.Some? &&
    match ctx.err.value.category
    case Timeout | RuntimeExit | RuntimeUnavailable | ProviderUnavailable | ModelUnavailable | MalformedEvent => true
    case RateLimit => ctx.rateLimitKnown
    case _ => false
  }

  predicate DefaultFallbackable(ctx: PolicyContext) {
    ctx.err.Some? &&
    match ctx.err.value.category
    case RateLimit | Timeout | RuntimeExit | RuntimeUnavailable | ProviderUnavailable | ModelUnavailable
       | MalformedEvent | ValidationFailed | Unknown => true
    case _ => false
  }

  predicate ShouldRetry(p: BasicPolicy, ctx: PolicyContext, answer: bool) {
    if p.customRetry then answer else DefaultRetryable(ctx)
  }

  predicate ShouldFallback(p: BasicPolicy, ctx: PolicyContext, answer: bool) {
    if p.customFallback then answer else DefaultFallbackable(ctx)
  }

  predicate CanRetry(p: BasicPolicy, ctx: PolicyContext) {
    p.maxAttemptsPerTarget > 0 && ctx.attemptOnTarget < p.maxAttemptsPerTarget
  }

  /** The policy's own fallbacks, or the runner's alternatives when it has none. */
  function Fallbacks(p: BasicPolicy, alternatives: seq<Alternative>): seq<Alternative> {
    if |p.fallbacks| == 0 then alternatives else p.fallbacks
  }

  predicate HasFallback(p: BasicPolicy, ctx: PolicyContext) {
    ctx.targetIndex + 1 < |Fallbacks(p, ctx.alternatives)| + 1
  }

  function StopWith(reason: string, err: Option<SdkError>): Decision {
    Decision(Stop, reason, 0, 0, None, None, "", err)
  }

  function FallbackOrStop(p: BasicPolicy, ctx: PolicyContext, answer: bool, reason: string): Decision {
    var fallbacks := Fallbacks(p, ctx.alternatives);
    if ctx.err.Some? && ShouldFallback(p, ctx, answer) && 0 <= ctx.targetIndex < |fallbacks| then
      var target := fallbacks[ctx.targetIndex];
      Decision(Fallback, reason, 0, ctx.targetIndex + 1, Some(target), None, target.request.sessionAction, None)
    else
      StopWith(reason, ctx.err)
  }

  function Decide(p: BasicPolicy, ctx: PolicyContext, answers: Answers): Decision {
    if answers.stopped.Some? then StopWith("", answers.stopped)
    else if ctx.err.None? then StopWith("attempt completed", None)
    else if p.maxElapsed > 0 && ctx.elapsed >= p.maxElapsed then StopWith("max elapsed time exhausted", ctx.err)
    else if ctx.err.value.category.RateLimit? && !p.retryRateLimits then
      FallbackOrStop(p, ctx, answers.fallback, "rate limit retry disabled")
    else if ctx.err.value.category.RuntimeExit? && HasFallback(p, ctx) && ShouldFallback(p, ctx, answers.fallback) then
      FallbackOrStop(p, ctx, answers.fallbackAgain, "runtime exit")
    else if ShouldRetry(p, ctx, answers.retry) && CanRetry(p, ctx) then
      var reason := if ctx.err.value.category.RateLimit? then "rate limit" else "retryable failure";
      Decision(Retry, reason, answers.delay, ctx.targetIndex, None, None, "", None)
    else
      FallbackOrStop(p, ctx, answers.fallback, "retry exhausted")
  }

  // ---------------------------------------------------------------- requests

  function OrElse(value: string, otherwise: string): string {
    if value != "" then value else otherwise
  }

  function OrOption<T>(value: Option<T>, otherwise: Option<T>): Option<T> {
    if value.Some? then value else otherwise
  }

  /** Copying a list by appending it to nothing turns an empty one into an unset one. */
  function Copied(list: Option<seq<string>>): Option<seq<string>> {
    if list == Some([]) then None else list
  }

  function OverlayList(dst: Option<seq<string>>, src: Option<seq<string>>): Option<seq<string>> {
    if src.Some? then Copied(src) else dst
  }

  /** Fields set in `src` replace those of `dst`; the prompt, permission policy and validation stay. */
  function Overlay(dst: RunRequest, src: RunRequest): RunRequest {
    dst.(workDir := OrElse(src.workDir, dst.workDir),
         sessionId := OrElse(src.sessionId, dst.sessionId),
         turnId := OrElse(src.turnId, dst.turnId),
         provider := OrElse(src.provider, dst.provider),
         model := OrElse(src.model, dst.model),
         permissions := OrElse(src.permissions, dst.permissions),
         sandbox := OrElse(src.sandbox, dst.sandbox),
         timeout := if src.timeout != 0 then src.timeout else dst.timeout,
         metadata := OrOption(src.metadata, dst.metadata),
         wantSession := src.wantSession || dst.wantSession,
         sessionAction := OrElse(src.sessionAction, dst.sessionAction),
         requireCaps := OverlayList(dst.requireCaps, src.requireCaps),
         requireHealth := OverlayList(dst.requireHealth, src.requireHealth),
         promptCache := OrOption(src.promptCache, dst.promptCache))
  }

  function RequestForDecision(current: RunRequest, decision: Decision): RunRequest {
    var next := if decision.request.Some? then decision.request.value else current;
    next.(sessionAction := OrElse(decision.sessionAction, next.sessionAction))
  }

  function FallbackRequest(original: RunRequest, decision: Decision, target: Alternative): RunRequest {
    var prompted := original.(prompt := OrElse(target.request.prompt, original.prompt));
    var overlaid := Overlay(prompted, target.request);
    var next := if decision.request.Some? then Overlay(overlaid, decision.request.value) else overlaid;
    next.(sessionAction := OrElse(decision.sessionAction, next.sessionAction))
  }

  /** Every field an overlay can set is set. */
  predicate SetsEverything(r: RunRequest) {
    && r.workDir != "" && r.sessionId != "" && r.turnId != "" && r.provider != "" && r.model != ""
    && r.permissions != "" && r.sandbox != "" && r.timeout != 0 && r.metadata.Some? && r.wantSession
    && r.sessionAction != "" && Lists(r.requireCaps) && Lists(r.requireHealth) && r.promptCache.Some?
  }

  predicate Lists(list: Option<seq<string>>) {
    list.Some? && list.value != []
  }

  /** An empty list clears what is below it; grouped with another overlay first, it clears only that. */
  predicate GroupsFreely(lowest: Option<seq<string>>, highest: Option<seq<string>>) {
    highest == Some([]) ==> lowest.None?
  }

  /**
   Overlays layer: an unset request changes nothing, what the upper request sets wins, what it leaves unset
   shows through, and prompt, permission policy and validation never move.
   */
  lemma OverlaysLayer(a: RunRequest, b: RunRequest)
    ensures Overlay(a, BLANK_REQUEST) == a
    ensures Overlay(BLANK_REQUEST, b) == b.(prompt := "", permissionPolicy := None, validation := None,
                                            requireCaps := Copied(b.requireCaps),
                                            requireHealth := Copied(b.requireHealth))
    ensures SetsEverything(b) ==>
              Overlay(a, b) == b.(prompt := a.prompt, permissionPolicy := a.permissionPolicy,
                                  validation := a.validation)
  {
  }

  /** A field of an overlay: the upper one if it is set, and else the lower one. */
  predicate Lays<T(==)>(isSet: bool, field: T, upper: T, lower: T) {
    field == if isSet then upper else lower
  }

  predicate LaysText(field: string, upper: string, lower: string) {
    Lays(upper != "", field, upper, lower)
  }

  predicate LaysOption<T(==)>(field: Option<T>, upper: Option<T>, lower: Option<T>) {
    Lays(upper.Some?, field, upper, lower)
  }

  /** A list that is set and not empty wins, an empty one clears, an unset one lets the lower list through. */
  predicate LaysList(field: Option<seq<string>>, upper: Option<seq<string>>, lower: Option<seq<string>>) {
    match upper
    case None => field == lower
    case Some(list) => field == if list == [] then None else upper
  }

  /** Each field by itself, whatever the others are. */
  lemma OverlaysFieldByField(dst: RunRequest, src: RunRequest)
    ensures var r := Overlay(dst, src);
            && LaysText(r.workDir, src.workDir, dst.workDir) && LaysText(r.sessionId, src.sessionId, dst.sessionId)
            && LaysText(r.turnId, src.turnId, dst.turnId) && LaysText(r.provider, src.provider, dst.provider)
            && LaysText(r.model, src.model, dst.model) && LaysText(r.permissions, src.permissions, dst.permissions)
            && LaysText(r.sandbox, src.sandbox, dst.sandbox)
            && LaysText(r.sessionAction, src.sessionAction, dst.sessionAction)
            && Lays(src.timeout != 0, r.timeout, src.timeout, dst.timeout)
            && Lays(src.wantSession, r.wantSession, true, dst.wantSession)
            && LaysOption(r.metadata, src.metadata, dst.metadata)
            && LaysOption(r.promptCache, src.promptCache, dst.promptCache)
            && LaysList(r.requireCaps, src.requireCaps, dst.requireCaps)
            && LaysList(r.requireHealth, src.requireHealth, dst.requireHealth)
            && r.prompt == dst.prompt && r.permissionPolicy == dst.permissionPolicy && r.validation == dst.validation
  {
  }

  /** An empty list on top clears the requirement below it, unless it is laid over an unset one first. */
  lemma EmptyListGroupsDifferently()
    ensures var a := BLANK_REQUEST.(requireCaps := Some(["x"]));
            var c := BLANK_REQUEST.(requireCaps := Some([]));
            && Overlay(Overlay(a, BLANK_REQUEST), c).requireCaps == None
            && Overlay(a, Overlay(BLANK_REQUEST, c)).requireCaps == Some(["x"])
  {
  }

  lemma CopiesGroup(a: Option<seq<string>>, b: Option<seq<string>>, c: Option<seq<string>>)
    ensures OverlayList(OverlayList(a, b), c) == OverlayList(a, OverlayList(b, c)) <==> GroupsFreely(a, c)
  {
  }

  /** Grouping does not matter exactly when no requirement of the lowest request meets an empty list in the highest. */
  lemma OverlaysGroup(a: RunRequest, b: RunRequest, c: RunRequest)
    ensures Overlay(Overlay(a, b), c) == Overlay(a, Overlay(b, c)) <==>
              GroupsFreely(a.requireCaps, c.requireCaps) && GroupsFreely(a.requireHealth, c.requireHealth)
  {
    hide OverlayList, GroupsFreely;
    CopiesGroup(a.requireCaps, b.requireCaps, c.requireCaps);
    CopiesGroup(a.requireHealth, b.requireHealth, c.requireHealth);
  }

  // ---------------------------------------------------------------- one policy run

  datatype AttemptInput =
    | StartFailed(err: SdkError)
    | Waited(status: Option<RunStatus>, resultErr: Option<SdkError>, waitErr: Option<SdkError>)
  {
    function Err(): Option<SdkError> {
      match this
      case StartFailed(err) => Some(err)
      case Waited(_, resultErr, waitErr) => OrOption(resultErr, waitErr)
    }

    function Status(): Option<RunStatus> {
      match this
      case StartFailed(_) => Some(Failed)
      case Waited(status, _, _) => status
    }
  }

  /**
   What the environment answers during one iteration: whether the run's context is already done, how
   the attempt ends, what a policy of the caller's own decides, what the bounded policy's callbacks
   answer, and whether the wait before the next attempt is interrupted.
   */
  datatype Turn = Turn(
    done: Option<SdkError>,
    attempt: AttemptInput,
    elapsed: int,
    rateLimitKnown: bool,
    scripted: Result<Decision, SdkError>,
    answers: Answers,
    sleepErr: Option<SdkError>)

  datatype ResiliencePolicy = Basic(basic: BasicPolicy) | Scripted

  function AskPolicy(policy: ResiliencePolicy, ctx: PolicyContext, turn: Turn): Result<Decision, SdkError> {
    match policy
    case Basic(p) => Success(Decide(p, ctx, turn.answers))
    case Scripted => turn.scripted
  }

  function Normalize(decision: Decision): Decision {
    if decision.kind.Unset? then decision.(kind := Stop) else decision
  }

  datatype Attempt = Attempt(
    attempt: nat,
    attemptOnTarget: nat,
    targetIndex: int,
    runtime: RuntimeId,
    request: RunRequest,
    status: RunStatus,
    err: Option<SdkError>)

  datatype DecisionRecord = DecisionRecord(attempt: nat, targetIndex: int, kind: DecisionKind)

  datatype FinalResult = FinalResult(
    status: RunStatus,
    err: Option<SdkError>,
    exhausted: bool,
    reason: string,
    attempts: seq<Attempt>,
    decisions: seq<DecisionRecord>,
    finalTargetIndex: int)

  /** How many attempts went to a target. */
  function CountOn(attempts: seq<Attempt>, target: int): nat {
    if attempts == [] then 0
    else CountOn(attempts[..|attempts| - 1], target) + if attempts[|attempts| - 1].targetIndex == target then 1 else 0
  }

  /** Every attempt carries its own number and its rank among the attempts on its target. */
  ghost predicate Numbered(attempts: seq<Attempt>) {
    forall i :: 0 <= i < |attempts| ==>
      && attempts[i].attempt == i + 1
      && attempts[i].attemptOnTarget == CountOn(attempts[..i + 1], attempts[i].targetIndex)
  }

  ghost predicate DecisionsFollow(attempts: seq<Attempt>, decisions: seq<DecisionRecord>) {
    && |decisions| <= |attempts|
    && forall i :: 0 <= i < |decisions| ==>
         decisions[i].attempt == i + 1 && decisions[i].targetIndex == attempts[i].targetIndex
  }

  ghost predicate AllFailed(attempts: seq<Attempt>) {
    forall i :: 0 <= i < |attempts| ==> attempts[i].err.Some?
  }

  ghost predicate NoneStops(decisions: seq<DecisionRecord>) {
    forall i :: 0 <= i < |decisions| ==> !decisions[i].kind.Stop?
  }

  /** The exact verdict of a finished run. */
  ghost predicate Verdict(r: FinalResult) {
    && Numbered(r.attempts) && DecisionsFollow(r.attempts, r.decisions)
    && |r.attempts| - 1 <= |r.decisions|
    && (r.decisions != [] ==> NoneStops(r.decisions[..|r.decisions| - 1]))
    && (r.attempts != [] ==> AllFailed(r.attempts[..|r.attempts| - 1]))
    && (r.err.None? <==> r.attempts != [] && r.attempts[|r.attempts| - 1].err.None?)
    && (r.err.None? <==> !r.exhausted)
    && (r.err.None? ==> |r.decisions| == |r.attempts| - 1)
    && r.finalTargetIndex == if r.attempts == [] then 0 else r.attempts[|r.attempts| - 1].targetIndex
  }

  /** The alternatives after a decision names a target: grown with blanks as far as needed. */
  function WithTarget(alternatives: seq<Alternative>, decision: Decision): seq<Alternative> {
    if decision.target.None? || decision.targetIndex <= 0 then alternatives
    else
      var idx := decision.targetIndex - 1;
      var grown := alternatives + seq(if idx < |alternatives| then 0 else idx + 1 - |alternatives|, _ => BLANK);
      grown[idx := decision.target.value]
  }

  function RuntimeFor(primary: RuntimeId, alternatives: seq<Alternative>, index: int): RuntimeId {
    if index != 0 && 0 <= index - 1 < |alternatives| && alternatives[index - 1].runtime.Some?
    then alternatives[index - 1].runtime.value
    else primary
  }

  function TargetFor(primary: RuntimeId, original: RunRequest, alternatives: seq<Alternative>,
                     index: int): Alternative {
    if index != 0 && 0 <= index - 1 < |alternatives| then alternatives[index - 1]
    else Alternative("", Some(primary), original)
  }

  /** Where a decision that does not end the run leads. */
  predicate LeadsTo(primary: RuntimeId, original: RunRequest, before: seq<Alternative>, after: seq<Alternative>,
                    targetIndex: int, req: RunRequest, d: Decision, nextTarget: int, nextReq: RunRequest)
  {
    match d.kind
    case Retry | Wait => after == before && nextTarget == targetIndex && nextReq == RequestForDecision(req, d)
    case Fallback =>
      && after == WithTarget(before, d) && nextTarget == d.targetIndex
      && nextReq == FallbackRequest(original, d, TargetFor(primary, original, after, d.targetIndex))
    case _ => false
  }

  predicate Interrupts(turn: Turn, d: Decision) {
    d.delay > 0 && turn.sleepErr.Some?
  }

  /** The run goes on after this iteration. */
  predicate Continues(policy: ResiliencePolicy, ctx: PolicyContext, turn: Turn) {
    && turn.done.None? && ctx.err.Some?
    && var asked := AskPolicy(policy, ctx, turn);
       asked.Success? && KeepsGoing(turn, Normalize(asked.value))
  }

  predicate KeepsGoing(turn: Turn, d: Decision) {
    (d.kind.Retry? || d.kind.Wait? || d.kind.Fallback?) && !Interrupts(turn, d)
  }

  const UNSUPPORTED_DECISION := SdkError(ErrorCategory.Configuration, "unsupported policy decision")

  /** The error a run ends with when this decision ends it. */
  function StopError(turn: Turn, err: Option<SdkError>, d: Decision): Option<SdkError> {
    if d.kind.Stop? then OrOption(d.err, err)
    else if Interrupts(turn, d) then turn.sleepErr
    else Some(UNSUPPORTED_DECISION)
  }

  /** The error of a run that this iteration ends. */
  function EndingError(policy: ResiliencePolicy, ctx: PolicyContext, turn: Turn): Option<SdkError> {
    if turn.done.Some? then turn.done
    else if ctx.err.None? then None
    else
      match AskPolicy(policy, ctx, turn)
      case Failure(err) => Some(err)
      case Success(decision) => StopError(turn, ctx.err, Normalize(decision))
  }

  /** The reason a run ends with when this decision ends it. */
  function StopReason(turn: Turn, d: Decision): string {
    if d.kind.Stop? then d.reason
    else if Interrupts(turn, d) then "policy wait cancelled"
    else "unsupported policy decision"
  }

  function EndingReason(policy: ResiliencePolicy, ctx: PolicyContext, turn: Turn): string {
    if ctx.err.None? then ""
    else
      match AskPolicy(policy, ctx, turn)
      case Failure(_) => "policy decision failed"
      case Success(decision) => StopReason(turn, Normalize(decision))
  }

  // ---------------------------------------------------------------- the run as a function of its environment

  /** What does not change during a run. */
  datatype Rules = Rules(original: RunRequest, primary: RuntimeId, policy: ResiliencePolicy)

  /** Where a run stands when an attempt is due: its history, and the target and request of that attempt. */
  datatype Standing = Standing(
    alternatives: seq<Alternative>,
    attempts: seq<Attempt>,
    decisions: seq<DecisionRecord>,
    targetIndex: int,
    req: RunRequest)

  /** The attempt that is due, ended as the environment ends it. */
  function Trial(primary: RuntimeId, s: Standing, input: AttemptInput): Attempt {
    var status :=
      if input.Status().Some? then input.Status().value
      else if input.Err().Some? then Failed else Completed;
    Attempt(|s.attempts| + 1, CountOn(s.attempts, s.targetIndex) + 1, s.targetIndex,
            RuntimeFor(primary, s.alternatives, s.targetIndex), s.req, status, input.Err())
  }

  /** What the policy is asked about that attempt. */
  function Asked(s: Standing, turn: Turn): PolicyContext {
    PolicyContext(|s.attempts| + 1, CountOn(s.attempts, s.targetIndex) + 1, s.targetIndex, s.alternatives,
                  turn.attempt.Err(), turn.elapsed, turn.rateLimitKnown)
  }

  /** The record of the policy's answer, if it was asked and answered. */
  function Recorded(policy: ResiliencePolicy, s: Standing, turn: Turn): seq<DecisionRecord> {
    if turn.attempt.Err().None? then []
    else
      match AskPolicy(policy, Asked(s, turn), turn)
      case Failure(_) => []
      case Success(decision) => [DecisionRecord(|s.attempts| + 1, s.targetIndex, Normalize(decision).kind)]
  }

  /** Where a turn that goes on leaves the run. */
  function GoOn(rules: Rules, s: Standing, turn: Turn): Standing
    requires Continues(rules.policy, Asked(s, turn), turn)
  {
    var d := Normalize(AskPolicy(rules.policy, Asked(s, turn), turn).value);
    var attempts := s.attempts + [Trial(rules.primary, s, turn.attempt)];
    var decisions := s.decisions + Recorded(rules.policy, s, turn);
    if d.kind.Fallback? then
      var after := WithTarget(s.alternatives, d);
      Standing(after, attempts, decisions, d.targetIndex,
               FallbackRequest(rules.original, d, TargetFor(rules.primary, rules.original, after, d.targetIndex)))
    else
      Standing(s.alternatives, attempts, decisions, s.targetIndex, RequestForDecision(s.req, d))
  }

  function Closing(status: Option<RunStatus>, err: Option<SdkError>, exhausted: bool, reason: string,
                   attempts: seq<Attempt>, decisions: seq<DecisionRecord>): FinalResult
  {
    FinalResult(if status.Some? then status.value else if err.Some? then Failed else Completed, err, exhausted, reason,
                attempts, decisions, if attempts == [] then 0 else attempts[|attempts| - 1].targetIndex)
  }

  /** The result of a run that a turn ends. */
  function Conclusion(rules: Rules, s: Standing, turn: Turn): FinalResult {
    if turn.done.Some? then Closing(Some(Cancelled), turn.done, true, "policy run cancelled", s.attempts, s.decisions)
    else
      var ctx := Asked(s, turn);
      Closing(turn.attempt.Status(), EndingError(rules.policy, ctx, turn), ctx.err.Some?,
              EndingReason(rules.policy, ctx, turn), s.attempts + [Trial(rules.primary, s, turn.attempt)],
              s.decisions + Recorded(rules.policy, s, turn))
  }

  /** Where the run stands after `k` turns, unless one of them has ended it. */
  function HeadAfter(rules: Rules, start: seq<Alternative>, turns: nat -> Turn, k: nat): Option<Standing> {
    if k == 0 then Some(Standing(start, [], [], 0, rules.original))
    else
      var h := HeadAfter(rules, start, turns, k - 1);
      if h.None? || !Continues(rules.policy, Asked(h.value, turns(k - 1)), turns(k - 1)) then None
      else Some(GoOn(rules, h.value, turns(k - 1)))
  }

  /** Turn `k` is reached and ends the run. */
  predicate EndsAt(rules: Rules, start: seq<Alternative>, turns: nat -> Turn, k: nat) {
    var h := HeadAfter(rules, start, turns, k);
    h.Some? && !Continues(rules.policy, Asked(h.value, turns(k)), turns(k))
  }

  /** The run ends at turn `k`, with this result. */
  predicate Concludes(rules: Rules, start: seq<Alternative>, turns: nat -> Turn, k: nat, r: FinalResult) {
    EndsAt(rules, start, turns, k) && r == Conclusion(rules, HeadAfter(rules, start, turns, k).value, turns(k))
  }

  lemma {:induction false} CountOnAppend(attempts: seq<Attempt>, next: Attempt, target: int)
    ensures CountOn(attempts + [next], target) ==
              CountOn(attempts, target) + if next.targetIndex == target then 1 else 0
  {
    assert (attempts + [next])[..|attempts|] == attempts;
  }

  lemma NumberedAppend(attempts: seq<Attempt>, next: Attempt)
    requires Numbered(attempts) && next.attempt == |attempts| + 1
    requires next.attemptOnTarget == CountOn(attempts, next.targetIndex) + 1
    ensures Numbered(attempts + [next])
  {
    CountOnAppend(attempts, next, next.targetIndex);
    var all := attempts + [next];
    forall i | 0 <= i < |all|
      ensures all[i].attempt == i + 1 && all[i].attemptOnTarget == CountOn(all[..i + 1], all[i].targetIndex)
    {
      if i < |attempts| {
        assert all[..i + 1] == attempts[..i + 1];
      } else {
        assert all[..i + 1] == all;
      }
    }
  }

  class PolicyRun {
    const original: RunRequest
    const primary: RuntimeId
    const policy: ResiliencePolicy
    var alternatives: seq<Alternative>
    var attempts: seq<Attempt>
    var decisions: seq<DecisionRecord>
    var targetCounts: map<int, nat>
    var result: Option<FinalResult>

    ghost predicate CountsMatch()
      reads this`attempts, this`targetCounts
    {
      forall t :: (if t in targetCounts then targetCounts[t] else 0) == CountOn(attempts, t)
    }

    /** The state at the head of the loop: everything so far failed and was answered by a non-stop decision. */
    ghost predicate AtHead()
      reads this`attempts, this`decisions, this`targetCounts, this`result
    {
      && result.None? && CountsMatch() && Numbered(attempts) && AllFailed(attempts)
      && DecisionsFollow(attempts, decisions) && |decisions| == |attempts| && NoneStops(decisions)
    }

    ghost predicate Finished()
      reads this
    {
      result.Some? && result.value.attempts == attempts && result.value.decisions == decisions && Verdict(result.value)
    }

    constructor (original: RunRequest, primary: RuntimeId, alternatives: seq<Alternative>, policy: ResiliencePolicy)
      ensures AtHead() && attempts == [] && this.alternatives == alternatives
      ensures this.original == original && this.primary == primary && this.policy == policy
    {
      this.original, this.primary, this.policy := original, primary, policy;
      this.alternatives, attempts, decisions, targetCounts, result := alternatives, [], [], map[], None;
    }

    method ApplyDecisionTarget(decision: Decision)
      modifies this`alternatives
      ensures alternatives == WithTarget(old(alternatives), decision)
    {
      if decision.target.None? || decision.targetIndex <= 0 {
        return;
      }
      var idx := decision.targetIndex - 1;
      while |alternatives| <= idx
        invariant old(alternatives) <= alternatives
        invariant |alternatives| <= idx + 1 || alternatives == old(alternatives)
        invariant forall i :: |old(alternatives)| <= i < |alternatives| ==> alternatives[i] == BLANK
        decreases idx - |alternatives|
      {
        alternatives := alternatives + [BLANK];
      }
      alternatives := alternatives[idx := decision.target.value];
    }

    /** Ends the run. The error is nil exactly when the last attempt succeeded. */
    method Finish(status: Option<RunStatus>, err: Option<SdkError>, exhausted: bool, reason: string)
      requires Numbered(attempts) && DecisionsFollow(attempts, decisions) && |attempts| - 1 <= |decisions|
      requires decisions != [] ==> NoneStops(decisions[..|decisions| - 1])
      requires attempts != [] ==> AllFailed(attempts[..|attempts| - 1])
      requires if err.Some? then exhausted && AllFailed(attempts)
               else !exhausted && attempts != [] && attempts[|attempts| - 1].err.None? && |decisions| == |attempts| - 1
      modifies this`result
      ensures Finished() && result == Some(Closing(status, err, exhausted, reason, attempts, decisions))
    {
      var finalStatus := if status.Some? then status.value else if err.Some? then Failed else Completed;
      var finalTarget := if attempts == [] then 0 else attempts[|attempts| - 1].targetIndex;
      result := Some(FinalResult(finalStatus, err, exhausted, reason, attempts, decisions, finalTarget));
    }

    ghost function Here(targetIndex: int, req: RunRequest): Standing
      reads this`alternatives, this`attempts, this`decisions
    {
      Standing(alternatives, attempts, decisions, targetIndex, req)
    }

    ghost function Fixed(): Rules {
      Rules(original, primary, policy)
    }

    method RunAttempt(targetIndex: int, req: RunRequest, input: AttemptInput) returns (attemptOnTarget: nat)
      requires AtHead()
      modifies this`attempts, this`targetCounts
      ensures CountsMatch() && Numbered(attempts)
      ensures attemptOnTarget == CountOn(old(attempts), targetIndex) + 1
      ensures attempts == old(attempts) + [Trial(primary, old(Here(targetIndex, req)), input)]
      ensures if input.Err().Some? then Undecided() else Succeeded()
    {
      hide Numbered, CountOn, RuntimeFor;
      targetCounts := targetCounts[targetIndex := (if targetIndex in targetCounts then targetCounts[targetIndex] else 0)
                                   + 1];
      attemptOnTarget := targetCounts[targetIndex];
      var status :=
        if input.Status().Some? then input.Status().value
        else if input.Err().Some? then Failed else Completed;
      var summary := Attempt(|attempts| + 1, attemptOnTarget, targetIndex,
                             RuntimeFor(primary, alternatives, targetIndex), req, status, input.Err());
      NumberedAppend(attempts, summary);
      CountsAfter(attempts, summary);
      attempts := attempts + [summary];
      assert attempts[..|attempts| - 1] == old(attempts);
    }

    /** The last attempt has just succeeded. */
    ghost predicate Succeeded()
      reads this
    {
      && result.None? && Numbered(attempts) && attempts != [] && attempts[|attempts| - 1].err.None?
      && AllFailed(attempts[..|attempts| - 1])
      && DecisionsFollow(attempts, decisions) && |decisions| == |attempts| - 1 && NoneStops(decisions)
    }

    method FinishCancelled(err: SdkError)
      requires AtHead()
      modifies this`result
      ensures Finished() && result == Some(Closing(Some(Cancelled), Some(err), true, "policy run cancelled", attempts,
                                                   decisions))
    {
      Finish(Some(Cancelled), Some(err), true, "policy run cancelled");
    }

    method FinishSucceeded(status: Option<RunStatus>)
      requires Succeeded()
      modifies this`result
      ensures Finished() && result == Some(Closing(status, None, false, "", attempts, decisions))
    {
      Finish(status, None, false, "");
    }

    /** Ends the run when the policy itself failed. */
    method FinishUnanswered(status: Option<RunStatus>, err: SdkError)
      requires Undecided()
      modifies this`result
      ensures Finished() && result == Some(Closing(status, Some(err), true, "policy decision failed", attempts,
                                                   decisions))
    {
      assert AllFailed(attempts[..|attempts| - 1]);
      Finish(status, Some(err), true, "policy decision failed");
    }

    /** An attempt has just failed and no decision about it is recorded yet. */
    ghost predicate Undecided()
      reads this
    {
      && result.None? && CountsMatch() && Numbered(attempts) && AllFailed(attempts) && attempts != []
      && DecisionsFollow(attempts, decisions) && |decisions| == |attempts| - 1 && NoneStops(decisions)
    }

    /** The decision about the last attempt is recorded but not yet acted on. */
    ghost predicate Decided(kind: DecisionKind)
      reads this
    {
      && result.None? && CountsMatch() && Numbered(attempts) && AllFailed(attempts) && attempts != []
      && DecisionsFollow(attempts, decisions) && |decisions| == |attempts|
      && NoneStops(decisions[..|decisions| - 1]) && decisions[|decisions| - 1].kind == kind
    }

    method RecordDecision(attempt: nat, targetIndex: int, kind: DecisionKind)
      requires Undecided() && attempt == |attempts| && attempts[|attempts| - 1].targetIndex == targetIndex
      modifies this`decisions
      ensures Decided(kind) && decisions == old(decisions) + [DecisionRecord(attempt, targetIndex, kind)]
    {
      hide Numbered, CountOn;
      decisions := decisions + [DecisionRecord(attempt, targetIndex, kind)];
      assert decisions[..|decisions| - 1] == old(decisions);
    }

    lemma DecidedGoesOn(kind: DecisionKind)
      requires Decided(kind) && !kind.Stop?
      ensures AtHead()
    {
    }

    /** Ends the run with an error after a decision. */
    method FinishDecided(ghost kind: DecisionKind, status: Option<RunStatus>, err: SdkError, reason: string)
      requires Decided(kind)
      modifies this`result
      ensures Finished() && result == Some(Closing(status, Some(err), true, reason, attempts, decisions))
    {
      assert AllFailed(attempts[..|attempts| - 1]);
      Finish(status, Some(err), true, reason);
    }

    /** Records a decision about the attempt that just failed and acts on it. */
    method Follow(targetIndex: int, req: RunRequest, turn: Turn, decision: Decision)
        returns (nextTarget: int, nextReq: RunRequest)
      requires Undecided() && !decision.kind.Unset?
      requires attempts[|attempts| - 1].targetIndex == targetIndex && attempts[|attempts| - 1].err == turn.attempt.Err()
      modifies this`decisions, this`alternatives, this`result
      ensures if result.Some? then Finished() else AtHead()
      ensures result.None? <==> KeepsGoing(turn, decision)
      ensures result.Some? ==>
                result.value == Closing(turn.attempt.Status(), StopError(turn, turn.attempt.Err(), decision), true,
                                        StopReason(turn, decision), attempts, decisions)
      ensures result.None? ==>
                LeadsTo(primary, original, old(alternatives), alternatives, targetIndex, req, decision, nextTarget,
                        nextReq)
      ensures decisions == old(decisions) + [DecisionRecord(|attempts|, targetIndex, decision.kind)]
      ensures result.Some? ==> alternatives == old(alternatives)
    {
      hide Decided, Finished, AtHead, WithTarget, FallbackRequest, RequestForDecision, TargetFor;
      nextTarget, nextReq := targetIndex, req;
      var err := turn.attempt.Err();
      HasFailed();
      RecordDecision(|attempts|, targetIndex, decision.kind);
      if decision.kind.Stop? {
        FinishDecided(decision.kind, turn.attempt.Status(), OrOption(decision.err, err).value, decision.reason);
        return;
      }
      if decision.delay > 0 && turn.sleepErr.Some? {
        FinishDecided(decision.kind, turn.attempt.Status(), turn.sleepErr.value, "policy wait cancelled");
        return;
      }
      DecidedGoesOn(decision.kind);
      match decision.kind {
        case Retry => nextReq := RequestForDecision(req, decision);
        case Wait => nextReq := RequestForDecision(req, decision);
        case Fallback =>
          ApplyDecisionTarget(decision);
          nextTarget := decision.targetIndex;
          nextReq := FallbackRequest(original, decision, TargetFor(primary, original, alternatives, nextTarget));
        case Unsupported(_) =>
          FinishDecided(decision.kind, turn.attempt.Status(), UNSUPPORTED_DECISION, "unsupported policy decision");
      }
    }

    lemma HasFailed()
      requires Undecided()
      ensures attempts[|attempts| - 1].err.Some?
    {
    }

    /** One iteration of the loop. Without a result, the run goes on with the returned target and request. */
    method Iterate(targetIndex: int, req: RunRequest, turn: Turn) returns (nextTarget: int, nextReq: RunRequest)
      requires AtHead()
      modifies this
      ensures if result.Some? then Finished() else AtHead()
      ensures result.None? <==> Continues(policy, Asked(old(Here(targetIndex, req)), turn), turn)
      ensures result.None? ==> Here(nextTarget, nextReq) == GoOn(Fixed(), old(Here(targetIndex, req)), turn)
      ensures result.Some? ==> result.value == Conclusion(Fixed(), old(Here(targetIndex, req)), turn)
    {
      hide AtHead, Undecided, Succeeded, Finished, AskPolicy, CountOn, Continues, GoOn, Conclusion, Closing, Trial,
           LeadsTo, StopError, StopReason, KeepsGoing, EndingError;
      ghost var here := Here(targetIndex, req);
      HeadHasNoResult();
      TurnCases(Fixed(), here, turn);
      nextTarget, nextReq := targetIndex, req;
      if turn.done.Some? {
        FinishCancelled(turn.done.value);
        return;
      }
      var attemptOnTarget := RunAttempt(targetIndex, req, turn.attempt);
      TrialIsOfTurn(primary, here, turn);
      var lastErr := turn.attempt.Err();
      if lastErr.None? {
        FinishSucceeded(turn.attempt.Status());
        return;
      }
      var ctx := PolicyContext(|attempts|, attemptOnTarget, targetIndex, alternatives, lastErr, turn.elapsed,
                               turn.rateLimitKnown);
      var asked := AskPolicy(policy, ctx, turn);
      if asked.Failure? {
        FinishUnanswered(turn.attempt.Status(), asked.error);
        return;
      }
      nextTarget, nextReq := Follow(targetIndex, req, turn, Normalize(asked.value));
      if result.None? {
        HeadHasNoResult();
        LeadsToGoOn(Fixed(), here, turn, alternatives, nextTarget, nextReq);
      }
    }

    /** The head of the loop, as far as the environment has brought the run. */
    ghost predicate Underway(start: seq<Alternative>, turns: nat -> Turn, targetIndex: int, req: RunRequest)
      reads this`alternatives, this`attempts, this`decisions, this`targetCounts, this`result
    {
      AtHead() && HeadAfter(Fixed(), start, turns, |attempts|) == Some(Here(targetIndex, req))
    }

    /** The run is over, at the turn that ends it in this environment and with the result that turn calls for. */
    ghost predicate Over(start: seq<Alternative>, turns: nat -> Turn)
      reads this
    {
      Finished() && exists k :: Concludes(Fixed(), start, turns, k, result.value)
    }

    /** One iteration brings the run one turn further, or to its end. */
    method Advance(ghost start: seq<Alternative>, turns: nat -> Turn, targetIndex: int, req: RunRequest)
        returns (nextTarget: int, nextReq: RunRequest)
      requires Underway(start, turns, targetIndex, req)
      modifies this
      ensures if result.Some? then Over(start, turns) && Concludes(Fixed(), start, turns, |old(attempts)|, result.value)
              else Underway(start, turns, nextTarget, nextReq) && |attempts| == |old(attempts)| + 1
    {
      hide AtHead, Finished, Continues, GoOn, Conclusion;
      ghost var k := |attempts|;
      nextTarget, nextReq := Iterate(targetIndex, req, turns(|attempts|));
      assert result.Some? ==> Concludes(Fixed(), start, turns, k, result.value);
      if result.None? {
        AttemptAdded(Fixed(), old(Here(targetIndex, req)), turns(k));
      }
    }

    /** Any policy, over any finite stretch of its environment. */
    method ExecuteScripted(turns: nat -> Turn, stretch: nat)
      requires AtHead() && attempts == []
      modifies this
      ensures if result.Some? then Over(old(alternatives), turns)
              else AtHead() && |attempts| == stretch && HeadAfter(Fixed(), old(alternatives), turns, stretch).Some?
      ensures |attempts| <= stretch && Ran(turns, attempts) && Moves(policy.Basic?, attempts, decisions)
    {
      hide AtHead, Finished, Ran, Moves, HeadAfter, Concludes;
      ghost var start := alternatives;
      var targetIndex, req := 0, original;
      var k := 0;
      HeadHasNoResult();
      StartsUnderway(turns);
      while k < stretch && result.None?
        invariant 0 <= k <= stretch
        invariant if result.Some?
                  then Over(start, turns) &&
                       exists i: nat :: i < stretch && Concludes(Fixed(), start, turns, i, result.value)
                  else Underway(start, turns, targetIndex, req) && |attempts| == k
      {
        HeadHasNoResult();
        targetIndex, req := Advance(start, turns, targetIndex, req);
        if result.None? {
          HeadHasNoResult();
        }
        k := k + 1;
      }
      if result.None? {
        HeadHistory(Fixed(), start, turns, stretch);
      } else {
        ghost var i: nat :| i < stretch && Concludes(Fixed(), start, turns, i, result.value);
        EndHistory(Fixed(), start, turns, i, result.value);
        FinishedHoldsHistory();
      }
    }

    lemma FinishedHoldsHistory()
      requires Finished()
      ensures result.value.attempts == attempts && result.value.decisions == decisions
    {
    }

    lemma HeadHasNoResult()
      requires AtHead()
      ensures result.None?
    {
    }

    /** The bounded policy: the loop ends in every environment, within the budget of its plan. */
    method ExecuteBasic(turns: nat -> Turn)
      requires AtHead() && attempts == [] && policy.Basic?
      modifies this
      ensures Over(old(alternatives), turns)
      ensures Ran(turns, attempts) && Moves(true, attempts, decisions)
      ensures var plan := Plan(original, primary, policy.basic, Fallbacks(policy.basic, old(alternatives)));
              OnPlan(plan, attempts) && |attempts| <= (|plan.targets| + 1) * plan.PerTarget()
      ensures attempts != [] ==> NoneForCaller(policy.basic, attempts[..|attempts| - 1])
    {
      hide AtHead, Finished, HeadAfter, HeadOnPlan, OnPlan, NoneForCaller, Fallbacks, Ran, Moves, Concludes;
      ghost var start := alternatives;
      ghost var plan := Plan(original, primary, policy.basic, Fallbacks(policy.basic, start));
      var targetIndex, req := 0, original;
      HeadHasNoResult();
      StartsUnderway(turns);
      while result.None?
        invariant if result.Some? then Over(start, turns) else Underway(start, turns, targetIndex, req)
        decreases result.None?, plan.Budget() - |attempts|
      {
        BoundedHeads(plan, start, turns, |attempts|);
        targetIndex, req := Advance(start, turns, targetIndex, req);
        if result.None? {
          HeadHasNoResult();
        }
      }
      ghost var k :| Concludes(Fixed(), start, turns, k, result.value);
      EndHistory(Fixed(), start, turns, k, result.value);
      BoundedConclusions(plan, start, turns, k, result.value);
      FinishedHoldsHistory();
    }

    lemma StartsUnderway(turns: nat -> Turn)
      requires AtHead() && attempts == []
      ensures Underway(alternatives, turns, 0, original)
    {
    }
  }

  // ---------------------------------------------------------------- the history of a run

  /** How a turn goes on or ends, case by case. */
  lemma TurnCases(rules: Rules, s: Standing, turn: Turn)
    ensures var asked := AskPolicy(rules.policy, Asked(s, turn), turn);
            var status, err, tried := turn.attempt.Status(), turn.attempt.Err(),
              s.attempts + [Trial(rules.primary, s, turn.attempt)];
            if turn.done.Some? then
              && !Continues(rules.policy, Asked(s, turn), turn)
              && Conclusion(rules, s, turn) == Closing(Some(Cancelled), turn.done, true, "policy run cancelled",
                                                       s.attempts, s.decisions)
            else if err.None? then
              && !Continues(rules.policy, Asked(s, turn), turn)
              && Conclusion(rules, s, turn) == Closing(status, None, false, "", tried, s.decisions)
            else if asked.Failure? then
              && !Continues(rules.policy, Asked(s, turn), turn)
              && Conclusion(rules, s, turn) == Closing(status, Some(asked.error), true, "policy decision failed", tried,
                                                       s.decisions)
            else
              var d := Normalize(asked.value);
              var decided := s.decisions + [DecisionRecord(|s.attempts| + 1, s.targetIndex, d.kind)];
              && (Continues(rules.policy, Asked(s, turn), turn) <==> KeepsGoing(turn, d))
              && Conclusion(rules, s, turn) == Closing(status, StopError(turn, err, d), true, StopReason(turn, d),
                                                       tried, decided)
  {
    hide AskPolicy, Trial, CountOn, StopError, StopReason, Closing, KeepsGoing;
    assert s.decisions + [] == s.decisions;
  }

  lemma LeadsToGoOn(rules: Rules, s: Standing, turn: Turn, after: seq<Alternative>, nextTarget: int,
                    nextReq: RunRequest)
    requires Continues(rules.policy, Asked(s, turn), turn)
    requires var d := Normalize(AskPolicy(rules.policy, Asked(s, turn), turn).value);
             LeadsTo(rules.primary, rules.original, s.alternatives, after, s.targetIndex, s.req, d, nextTarget, nextReq)
    ensures var d := Normalize(AskPolicy(rules.policy, Asked(s, turn), turn).value);
            GoOn(rules, s, turn) == Standing(after, s.attempts + [Trial(rules.primary, s, turn.attempt)],
                                             s.decisions + [DecisionRecord(|s.attempts| + 1, s.targetIndex, d.kind)],
                                             nextTarget, nextReq)
  {
    hide AskPolicy, Trial, CountOn, WithTarget, FallbackRequest, TargetFor, RequestForDecision;
  }

  lemma AttemptAdded(rules: Rules, s: Standing, turn: Turn)
    requires Continues(rules.policy, Asked(s, turn), turn)
    ensures |GoOn(rules, s, turn).attempts| == |s.attempts| + 1
  {
  }

  lemma {:induction false} NothingAfterTheEnd(rules: Rules, start: seq<Alternative>, turns: nat -> Turn, j: nat, k: nat)
    requires EndsAt(rules, start, turns, j) && j < k
    ensures HeadAfter(rules, start, turns, k).None?
  {
    hide GoOn, Continues;
    if j < k - 1 {
      NothingAfterTheEnd(rules, start, turns, j, k - 1);
    }
  }

  /** The environment determines when a run ends, and its whole result. */
  lemma RunIsDetermined(rules: Rules, start: seq<Alternative>, turns: nat -> Turn, j: nat, k: nat, r: FinalResult,
                        q: FinalResult)
    requires Concludes(rules, start, turns, j, r) && Concludes(rules, start, turns, k, q)
    ensures j == k && r == q
  {
    hide HeadAfter, Conclusion, Continues;
    if j < k {
      NothingAfterTheEnd(rules, start, turns, j, k);
    } else if k < j {
      NothingAfterTheEnd(rules, start, turns, k, j);
    }
  }

  /**
   The history at the head of turn `k` is that of the turns before it: each was reached and went on, its
   attempt is the one that was due, and the decision recorded about it is the policy's answer.
   */
  lemma {:induction false} AnswersAreRecorded(rules: Rules, start: seq<Alternative>, turns: nat -> Turn, i: nat, k: nat)
    requires i < k && HeadAfter(rules, start, turns, k).Some?
    ensures HeadAfter(rules, start, turns, i).Some?
    ensures var h, s := HeadAfter(rules, start, turns, i).value, HeadAfter(rules, start, turns, k).value;
            && |s.attempts| == |s.decisions| == k
            && s.attempts[..i] == h.attempts && s.decisions[..i] == h.decisions
            && Continues(rules.policy, Asked(h, turns(i)), turns(i))
            && s.attempts[i] == Trial(rules.primary, h, turns(i).attempt)
            && s.decisions[i].kind == Normalize(AskPolicy(rules.policy, Asked(h, turns(i)), turns(i)).value).kind
  {
    hide Trial, AskPolicy, CountOn, WithTarget, FallbackRequest, TargetFor, RequestForDecision, KeepsGoing;
    if i < k - 1 {
      AnswersAreRecorded(rules, start, turns, i, k - 1);
    } else if i > 0 {
      AnswersAreRecorded(rules, start, turns, i - 1, i);
    }
  }

  /** Where a recorded decision leads: a retry or wait stays, and the bounded policy falls back to the next target. */
  predicate GoesTo(bounded: bool, kind: DecisionKind, from: int, to: int) {
    if bounded then (kind.Fallback? && to == from + 1) || (kind.Retry? && to == from)
    else kind.Fallback? || ((kind.Retry? || kind.Wait?) && to == from)
  }

  /** Every attempt but the first went where the decision about the one before it led. */
  ghost predicate Moves(bounded: bool, attempts: seq<Attempt>, decisions: seq<DecisionRecord>) {
    && |attempts| <= |decisions| + 1
    && forall i :: 0 < i < |attempts| ==>
         GoesTo(bounded, decisions[i - 1].kind, attempts[i - 1].targetIndex, attempts[i].targetIndex)
  }

  /** The same, with the target of the attempt that is due. */
  ghost predicate Linked(bounded: bool, attempts: seq<Attempt>, decisions: seq<DecisionRecord>, targetIndex: int) {
    && |decisions| == |attempts| && Moves(bounded, attempts, decisions)
    && (attempts != [] ==>
        GoesTo(bounded, decisions[|decisions| - 1].kind, attempts[|attempts| - 1].targetIndex, targetIndex))
  }

  lemma LinkedMoves(bounded: bool, attempts: seq<Attempt>, decisions: seq<DecisionRecord>, targetIndex: int)
    requires Linked(bounded, attempts, decisions, targetIndex)
    ensures Moves(bounded, attempts, decisions)
  {
  }

  lemma MovesExtend(bounded: bool, attempts: seq<Attempt>, decisions: seq<DecisionRecord>, a: Attempt,
                    more: seq<DecisionRecord>)
    requires Linked(bounded, attempts, decisions, a.targetIndex) && decisions <= more
    ensures Moves(bounded, attempts + [a], more)
  {
    hide GoesTo;
  }

  lemma LinkExtends(bounded: bool, attempts: seq<Attempt>, decisions: seq<DecisionRecord>, a: Attempt,
                    more: seq<DecisionRecord>, next: int)
    requires Linked(bounded, attempts, decisions, a.targetIndex) && |more| == |decisions| + 1 && decisions <= more
    requires GoesTo(bounded, more[|decisions|].kind, a.targetIndex, next)
    ensures Linked(bounded, attempts + [a], more, next)
  {
    hide GoesTo;
  }

  lemma LeadsOn(rules: Rules, s: Standing, turn: Turn)
    requires Continues(rules.policy, Asked(s, turn), turn)
    ensures var t := GoOn(rules, s, turn);
            && |t.decisions| == |s.decisions| + 1 && s.decisions <= t.decisions
            && t.attempts == s.attempts + [Trial(rules.primary, s, turn.attempt)]
            && GoesTo(rules.policy.Basic?, t.decisions[|s.decisions|].kind, s.targetIndex, t.targetIndex)
  {
    hide FallbackRequest, WithTarget, TargetFor, RequestForDecision, CountOn;
    if rules.policy.Basic? {
      DecisionIsBounded(rules.policy.basic, Asked(s, turn), turn.answers);
      hide Decide;
    }
  }

  /** At the head of turn `k` there have been `k` attempts, one a turn, each where the decision before it led. */
  lemma {:induction false} HeadHistory(rules: Rules, start: seq<Alternative>, turns: nat -> Turn, k: nat)
    requires HeadAfter(rules, start, turns, k).Some?
    ensures var s := HeadAfter(rules, start, turns, k).value;
            && |s.attempts| == k && Ran(turns, s.attempts)
            && Linked(rules.policy.Basic?, s.attempts, s.decisions, s.targetIndex)
            && Moves(rules.policy.Basic?, s.attempts, s.decisions)
  {
    hide *;
    if k == 0 {
      StartHistory(rules, start, turns);
    } else {
      HeadSteps(rules, start, turns, k);
      HeadHistory(rules, start, turns, k - 1);
      var s, turn := HeadAfter(rules, start, turns, k - 1).value, turns(k - 1);
      LeadsOn(rules, s, turn);
      var t := GoOn(rules, s, turn);
      TrialIsOfTurn(rules.primary, s, turn);
      var a := Trial(rules.primary, s, turn.attempt);
      GoesOnOnce(rules, s, turn);
      RanOneMore(turns, s.attempts, a);
      LinkIsLevel(rules.policy.Basic?, s.attempts, s.decisions, s.targetIndex);
      LinkExtends(rules.policy.Basic?, s.attempts, s.decisions, a, t.decisions, t.targetIndex);
      LinkedMoves(rules.policy.Basic?, t.attempts, t.decisions, t.targetIndex);
    }
  }

  lemma GoesOnOnce(rules: Rules, s: Standing, turn: Turn)
    requires Continues(rules.policy, Asked(s, turn), turn)
    ensures turn.done.None?
  {
    hide AskPolicy, KeepsGoing;
  }

  lemma LinkIsLevel(bounded: bool, attempts: seq<Attempt>, decisions: seq<DecisionRecord>, targetIndex: int)
    requires Linked(bounded, attempts, decisions, targetIndex)
    ensures |decisions| == |attempts|
  {
  }

  lemma StartHistory(rules: Rules, start: seq<Alternative>, turns: nat -> Turn)
    ensures var s := HeadAfter(rules, start, turns, 0).value;
            && HeadAfter(rules, start, turns, 0).Some? && s.attempts == [] && Ran(turns, s.attempts)
            && Linked(rules.policy.Basic?, s.attempts, s.decisions, s.targetIndex)
            && Moves(rules.policy.Basic?, s.attempts, s.decisions)
  {
    NothingRan(turns, rules.policy.Basic?);
  }

  lemma TrialIsOfTurn(primary: RuntimeId, s: Standing, turn: Turn)
    ensures var a := Trial(primary, s, turn.attempt);
            a.err == turn.attempt.Err() && a.targetIndex == s.targetIndex && a.request == s.req
            && a.runtime == RuntimeFor(primary, s.alternatives, s.targetIndex)
  {
  }

  /** The same of the result: a run that ends at turn `k` has made at most one attempt more. */
  lemma EndHistory(rules: Rules, start: seq<Alternative>, turns: nat -> Turn, k: nat, r: FinalResult)
    requires Concludes(rules, start, turns, k, r)
    ensures Ran(turns, r.attempts) && Moves(rules.policy.Basic?, r.attempts, r.decisions)
    ensures |r.attempts| == if turns(k).done.Some? then k else k + 1
  {
    hide HeadAfter, Ran, Linked, Moves, Continues, EndingError, EndingReason, Trial, AskPolicy, RuntimeFor;
    HeadHistory(rules, start, turns, k);
    var s, turn := HeadAfter(rules, start, turns, k).value, turns(k);
    if turn.done.None? {
      TrialIsOfTurn(rules.primary, s, turn);
      var a := Trial(rules.primary, s, turn.attempt);
      RanOneMore(turns, s.attempts, a);
      MovesExtend(rules.policy.Basic?, s.attempts, s.decisions, a, r.decisions);
    }
  }

  // ---------------------------------------------------------------- the plan of the bounded policy

  /** What is fixed before the first attempt: the original request and the list of fallback targets. */
  datatype Plan = Plan(original: RunRequest, primary: RuntimeId, policy: BasicPolicy, targets: seq<Alternative>)
  {
    /** Each target gets at least one attempt, and no more than its bound. */
    function PerTarget(): (b: nat)
      ensures b >= 1
    {
      if policy.maxAttemptsPerTarget > 0 then policy.maxAttemptsPerTarget else 1
    }

    /** The attempts the targets before `t` may use up. */
    function BudgetBefore(t: nat): nat {
      if t == 0 then 0 else BudgetBefore(t - 1) + PerTarget()
    }

    function AsRules(): Rules {
      Rules(original, primary, Basic(policy))
    }

    /** All the attempts a run may make. */
    function Budget(): nat {
      BudgetBefore(|targets| + 1)
    }

    function RequestOn(t: nat): RunRequest
      requires t <= |targets|
    {
      if t == 0 then original else FallbackRequest(original, SwitchTo(targets[t - 1]), targets[t - 1])
    }

    function RuntimeOn(t: nat): RuntimeId
      requires t <= |targets|
    {
      if t == 0 || targets[t - 1].runtime.None? then primary else targets[t - 1].runtime.value
    }
  }

  /** The bare decision to fall back to a target. */
  function SwitchTo(target: Alternative): Decision {
    Decision(Fallback, "", 0, 0, Some(target), None, target.request.sessionAction, None)
  }

  /** The attempt has the target's own request and runtime. */
  ghost predicate Planned(plan: Plan, a: Attempt) {
    && 0 <= a.targetIndex <= |plan.targets|
    && a.request == plan.RequestOn(a.targetIndex)
    && a.runtime == plan.RuntimeOn(a.targetIndex)
  }

  /**
   Every attempt runs on a planned target with the request and runtime that target determines; targets
   start at 0, never go back and are never skipped; none gets more than its share.
   */
  ghost predicate OnPlan(plan: Plan, attempts: seq<Attempt>) {
    && (forall i :: 0 <= i < |attempts| ==> Planned(plan, attempts[i]))
    && (forall i :: 0 < i < |attempts| ==>
          attempts[i - 1].targetIndex <= attempts[i].targetIndex <= attempts[i - 1].targetIndex + 1)
    && (attempts != [] ==> attempts[0].targetIndex == 0)
    && WithinShare(plan, attempts)
  }

  ghost predicate WithinShare(plan: Plan, attempts: seq<Attempt>) {
    forall t :: CountOn(attempts, t) <= plan.PerTarget()
  }

  /** The alternatives hold the plan as far as the current target, whose request is the current one. */
  ghost predicate Positioned(plan: Plan, alternatives: seq<Alternative>, targetIndex: nat, req: RunRequest) {
    && targetIndex <= |plan.targets|
    && Fallbacks(plan.policy, alternatives) == plan.targets
    && targetIndex <= |alternatives| && alternatives[..targetIndex] == plan.targets[..targetIndex]
    && req == plan.RequestOn(targetIndex)
  }

  /** The state at the head of the loop: the current target has room for another attempt. */
  ghost predicate Progress(plan: Plan, attempts: seq<Attempt>, alternatives: seq<Alternative>, targetIndex: int,
                           req: RunRequest) {
    && 0 <= targetIndex && Positioned(plan, alternatives, targetIndex, req)
    && OnPlan(plan, attempts)
    && (if attempts == [] then targetIndex == 0
        else attempts[|attempts| - 1].targetIndex <= targetIndex <= attempts[|attempts| - 1].targetIndex + 1)
    && (forall t :: t > targetIndex ==> CountOn(attempts, t) == 0)
    && CountOn(attempts, targetIndex) < plan.PerTarget()
    && |attempts| <= plan.BudgetBefore(targetIndex) + CountOn(attempts, targetIndex)
  }

  lemma PlanStarts(plan: Plan, start: seq<Alternative>)
    requires plan.targets == Fallbacks(plan.policy, start)
    ensures HeadOnPlan(plan, Standing(start, [], [], 0, plan.original))
  {
  }

  /** The state just after an attempt on the current target. */
  ghost predicate Tried(plan: Plan, attempts: seq<Attempt>, alternatives: seq<Alternative>, targetIndex: int,
                        req: RunRequest) {
    && 0 <= targetIndex && Positioned(plan, alternatives, targetIndex, req)
    && OnPlan(plan, attempts) && attempts != [] && attempts[|attempts| - 1].targetIndex == targetIndex
    && (forall t :: t > targetIndex ==> CountOn(attempts, t) == 0)
    && |attempts| <= plan.BudgetBefore(targetIndex) + CountOn(attempts, targetIndex)
  }

  lemma AttemptStaysOnPlan(plan: Plan, before: seq<Attempt>, a: Attempt, alternatives: seq<Alternative>,
                           targetIndex: int, req: RunRequest)
    requires Progress(plan, before, alternatives, targetIndex, req)
    requires a.targetIndex == targetIndex && a.request == req
               && a.runtime == RuntimeFor(plan.primary, alternatives, targetIndex)
    ensures Tried(plan, before + [a], alternatives, targetIndex, req)
    ensures CountOn(before + [a], targetIndex) == CountOn(before, targetIndex) + 1
    ensures |before + [a]| <= plan.BudgetBefore(|plan.targets| + 1)
  {
    PlannedNext(plan, before, a, alternatives, targetIndex, req);
    hide OnPlan, Planned, CountOn, Positioned, RuntimeFor;
    CountsAfter(before, a);
    OnPlanExtends(plan, before, a);
    CountWithin(plan, before + [a], targetIndex);
    WithinAllTargets(plan, alternatives, targetIndex, req);
  }

  lemma WithinAllTargets(plan: Plan, alternatives: seq<Alternative>, targetIndex: nat, req: RunRequest)
    requires Positioned(plan, alternatives, targetIndex, req)
    ensures plan.BudgetBefore(targetIndex) + plan.PerTarget() <= plan.BudgetBefore(|plan.targets| + 1)
  {
    BudgetGrows(plan, targetIndex + 1, |plan.targets| + 1);
  }

  lemma PlannedNext(plan: Plan, before: seq<Attempt>, a: Attempt, alternatives: seq<Alternative>, targetIndex: int,
                    req: RunRequest)
    requires Progress(plan, before, alternatives, targetIndex, req)
    requires a.targetIndex == targetIndex && a.request == req
               && a.runtime == RuntimeFor(plan.primary, alternatives, targetIndex)
    ensures Planned(plan, a)
  {
    hide FallbackRequest, OnPlan, CountOn, Fallbacks;
    if targetIndex > 0 {
      assert alternatives[..targetIndex][targetIndex - 1] == plan.targets[..targetIndex][targetIndex - 1];
    }
  }

  lemma OnPlanExtends(plan: Plan, before: seq<Attempt>, a: Attempt)
    requires OnPlan(plan, before) && Planned(plan, a) && CountOn(before, a.targetIndex) < plan.PerTarget()
    requires if before == [] then a.targetIndex == 0
             else before[|before| - 1].targetIndex <= a.targetIndex <= before[|before| - 1].targetIndex + 1
    ensures OnPlan(plan, before + [a])
  {
    hide Planned, CountOn;
    CountsAfter(before, a);
  }

  lemma {:induction false} BudgetGrows(plan: Plan, t: nat, u: nat)
    requires t <= u
    ensures plan.BudgetBefore(t) <= plan.BudgetBefore(u)
  {
    if t < u {
      BudgetGrows(plan, t, u - 1);
    }
  }

  lemma {:induction false} BudgetIsProduct(plan: Plan, t: nat)
    ensures plan.BudgetBefore(t) == t * plan.PerTarget()
  {
    if t > 0 {
      BudgetIsProduct(plan, t - 1);
      assert t * plan.PerTarget() == (t - 1) * plan.PerTarget() + plan.PerTarget();
    }
  }

  lemma CountsAfter(before: seq<Attempt>, a: Attempt)
    ensures forall t :: CountOn(before + [a], t) == CountOn(before, t) + if a.targetIndex == t then 1 else 0
  {
    forall t
      ensures CountOn(before + [a], t) == CountOn(before, t) + if a.targetIndex == t then 1 else 0
    {
      CountOnAppend(before, a, t);
    }
  }

  lemma HasRoom(plan: Plan, s: Standing)
    requires HeadOnPlan(plan, s)
    ensures |s.attempts| < plan.Budget()
  {
    hide OnPlan, CountOn;
    WithinAllTargets(plan, s.alternatives, s.targetIndex, s.req);
  }

  lemma HeadKeepsPlan(plan: Plan, s: Standing)
    requires HeadOnPlan(plan, s)
    ensures KeptPlan(plan, s.attempts)
  {
    HasRoom(plan, s);
    hide OnPlan, CountOn;
    var n := |s.attempts|;
    assert n > 0 ==> NoneForCaller(plan.policy, s.attempts[..n - 1]);
  }

  lemma BasicNeverWaits(p: BasicPolicy, ctx: PolicyContext, turn: Turn)
    ensures AskPolicy(Basic(p), ctx, turn) == Success(Decide(p, ctx, turn.answers))
    ensures Normalize(Decide(p, ctx, turn.answers)) == Decide(p, ctx, turn.answers)
  {
  }

  /** The attempts so far are those of the first turns, one each. */
  ghost predicate Ran(turns: nat -> Turn, attempts: seq<Attempt>) {
    forall i: nat :: i < |attempts| ==> turns(i).done.None? && attempts[i].err == turns(i).attempt.Err()
  }

  lemma NothingRan(turns: nat -> Turn, bounded: bool)
    ensures Ran(turns, []) && Linked(bounded, [], [], 0)
  {
  }

  lemma RanOneMore(turns: nat -> Turn, before: seq<Attempt>, a: Attempt)
    requires Ran(turns, before) && turns(|before|).done.None? && a.err == turns(|before|).attempt.Err()
    ensures Ran(turns, before + [a])
  {
  }

  /** What the bounded policy can decide, and when. */
  lemma DecisionIsBounded(p: BasicPolicy, ctx: PolicyContext, answers: Answers)
    ensures var d := Decide(p, ctx, answers);
            && (d.kind.Stop? || d.kind.Retry? || d.kind.Fallback?)
            && (d.kind.Retry? ==>
                CanRetry(p, ctx) && d.targetIndex == ctx.targetIndex && d.request.None? && d.sessionAction == "")
            && (d.kind.Fallback? ==>
                  && 0 <= ctx.targetIndex < |Fallbacks(p, ctx.alternatives)| && d.targetIndex == ctx.targetIndex + 1
                  && d.target == Some(Fallbacks(p, ctx.alternatives)[ctx.targetIndex]) && d.request.None?
                  && d.sessionAction == d.target.value.request.sessionAction)
            && (ctx.err.None? ==> d.kind.Stop?)
            && (d.kind.Stop? && ctx.err.Some? ==> d.err.Some?)
  {
  }

  /** Errors that neither another attempt nor another target can mend. */
  predicate ForCaller(category: ErrorCategory) {
    || category.Authentication? || category.Permission? || category.Configuration? || category.Cancellation?
    || category.Health? || category.Cleanup? || category.RepairExhausted?
  }

  /** With the default callbacks, an error the caller must fix ends the run at once. */
  lemma DefaultsStopOnCallerErrors(p: BasicPolicy, ctx: PolicyContext, answers: Answers)
    requires !p.customRetry && !p.customFallback && ctx.err.Some? && ForCaller(ctx.err.value.category)
    ensures Decide(p, ctx, answers).kind.Stop?
  {
  }

  /** With the default callbacks, none of these attempts failed with an error for the caller. */
  ghost predicate NoneForCaller(p: BasicPolicy, attempts: seq<Attempt>) {
    !p.customRetry && !p.customFallback ==>
      forall i :: 0 <= i < |attempts| ==> attempts[i].err.Some? ==> !ForCaller(attempts[i].err.value.category)
  }

  /** The head of the loop under the bounded policy: there is room for another attempt, and reason to make one. */
  ghost predicate HeadOnPlan(plan: Plan, s: Standing) {
    Progress(plan, s.attempts, s.alternatives, s.targetIndex, s.req) && NoneForCaller(plan.policy, s.attempts)
  }

  /** What holds of the attempts throughout, whether or not the run has ended. */
  ghost predicate KeptPlan(plan: Plan, attempts: seq<Attempt>) {
    && OnPlan(plan, attempts) && |attempts| <= plan.Budget()
    && (attempts != [] ==> NoneForCaller(plan.policy, attempts[..|attempts| - 1]))
  }

  lemma PlanIsKept(plan: Plan, attempts: seq<Attempt>)
    requires KeptPlan(plan, attempts)
    ensures OnPlan(plan, attempts) && |attempts| <= (|plan.targets| + 1) * plan.PerTarget()
    ensures attempts != [] ==> NoneForCaller(plan.policy, attempts[..|attempts| - 1])
  {
    BudgetIsProduct(plan, |plan.targets| + 1);
  }

  lemma TurnKeepsPlan(plan: Plan, s: Standing, a: Attempt)
    requires HeadOnPlan(plan, s) && a.targetIndex == s.targetIndex && a.request == s.req
    requires a.runtime == RuntimeFor(plan.primary, s.alternatives, s.targetIndex)
    ensures KeptPlan(plan, s.attempts + [a])
  {
    hide OnPlan, Progress, NoneForCaller, RuntimeFor;
    AttemptStaysOnPlan(plan, s.attempts, a, s.alternatives, s.targetIndex, s.req);
    assert (s.attempts + [a])[..|s.attempts|] == s.attempts;
  }

  /** A turn that goes on leaves room on the plan, and its error was not one for the caller. */
  lemma TurnGoesOn(plan: Plan, s: Standing, turn: Turn)
    requires HeadOnPlan(plan, s) && Continues(Basic(plan.policy), Asked(s, turn), turn)
    ensures HeadOnPlan(plan, GoOn(plan.AsRules(), s, turn))
  {
    var t, ctx := GoOn(plan.AsRules(), s, turn), Asked(s, turn);
    var d := Decide(plan.policy, ctx, turn.answers);
    BasicNeverWaits(plan.policy, ctx, turn);
    assert LeadsTo(plan.primary, plan.original, s.alternatives, t.alternatives, s.targetIndex, s.req, d, t.targetIndex,
                   t.req);
    hide OnPlan, Progress, NoneForCaller, RuntimeFor, LeadsTo, AskPolicy, Decide, Tried, CountOn, Continues, WithTarget,
         FallbackRequest, TargetFor, RequestForDecision, GoOn;
    LeadsOn(plan.AsRules(), s, turn);
    TrialIsOfTurn(plan.primary, s, turn);
    var a := Trial(plan.primary, s, turn.attempt);
    AttemptStaysOnPlan(plan, s.attempts, a, s.alternatives, s.targetIndex, s.req);
    NotForCaller(plan, s.attempts, a, s.alternatives, t.alternatives, s.targetIndex, s.req, ctx, turn.answers,
                 t.targetIndex, t.req);
    DecisionKeepsProgress(plan, t.attempts, s.alternatives, t.alternatives, s.targetIndex, s.req, ctx, turn.answers,
                          t.targetIndex, t.req);
  }

  /** Wherever a bounded run is under way, it is on its plan, and its budget is not used up. */
  lemma {:induction false} BoundedHeads(plan: Plan, start: seq<Alternative>, turns: nat -> Turn, k: nat)
    requires plan.targets == Fallbacks(plan.policy, start) && HeadAfter(plan.AsRules(), start, turns, k).Some?
    ensures HeadOnPlan(plan, HeadAfter(plan.AsRules(), start, turns, k).value)
    ensures k < plan.Budget()
  {
    hide HeadOnPlan, GoOn, Fallbacks;
    if k == 0 {
      PlanStarts(plan, start);
    } else {
      BoundedHeads(plan, start, turns, k - 1);
      TurnGoesOn(plan, HeadAfter(plan.AsRules(), start, turns, k - 1).value, turns(k - 1));
    }
    HeadHistory(plan.AsRules(), start, turns, k);
    HasRoom(plan, HeadAfter(plan.AsRules(), start, turns, k).value);
  }

  /** So every bounded run ends, at a turn within its budget. */
  lemma {:induction false} BoundedRunsEnd(plan: Plan, start: seq<Alternative>, turns: nat -> Turn, from: nat)
      returns (k: nat)
    requires plan.targets == Fallbacks(plan.policy, start) && HeadAfter(plan.AsRules(), start, turns, from).Some?
    ensures EndsAt(plan.AsRules(), start, turns, k) && k < (|plan.targets| + 1) * plan.PerTarget()
    decreases plan.Budget() - from
  {
    hide GoOn, Continues, Fallbacks;
    BoundedHeads(plan, start, turns, from);
    BudgetIsProduct(plan, |plan.targets| + 1);
    if EndsAt(plan.AsRules(), start, turns, from) {
      k := from;
    } else {
      k := BoundedRunsEnd(plan, start, turns, from + 1);
    }
  }

  /** What the result of a bounded run shows. */
  lemma BoundedConclusions(plan: Plan, start: seq<Alternative>, turns: nat -> Turn, k: nat, r: FinalResult)
    requires plan.targets == Fallbacks(plan.policy, start) && Concludes(plan.AsRules(), start, turns, k, r)
    ensures OnPlan(plan, r.attempts) && |r.attempts| <= (|plan.targets| + 1) * plan.PerTarget()
    ensures r.attempts != [] ==> NoneForCaller(plan.policy, r.attempts[..|r.attempts| - 1])
  {
    hide HeadAfter, HeadOnPlan, KeptPlan, Fallbacks, Continues, EndingError, EndingReason, Recorded, RuntimeFor, Trial,
         OnPlan, NoneForCaller;
    BoundedHeads(plan, start, turns, k);
    var s, turn := HeadAfter(plan.AsRules(), start, turns, k).value, turns(k);
    if turn.done.Some? {
      HeadKeepsPlan(plan, s);
    } else {
      TrialIsOfTurn(plan.primary, s, turn);
      TurnKeepsPlan(plan, s, Trial(plan.primary, s, turn.attempt));
    }
    PlanIsKept(plan, r.attempts);
  }

  lemma NotForCaller(plan: Plan, before: seq<Attempt>, a: Attempt, from: seq<Alternative>, after: seq<Alternative>,
                     targetIndex: int, req: RunRequest, ctx: PolicyContext, answers: Answers, nextTarget: int,
                     nextReq: RunRequest)
    requires NoneForCaller(plan.policy, before) && a.err == ctx.err
    requires LeadsTo(plan.primary, plan.original, from, after, targetIndex, req, Decide(plan.policy, ctx, answers),
                     nextTarget, nextReq)
    ensures NoneForCaller(plan.policy, before + [a])
  {
    if ctx.err.Some? && !plan.policy.customRetry && !plan.policy.customFallback && ForCaller(ctx.err.value.category) {
      DefaultsStopOnCallerErrors(plan.policy, ctx, answers);
    }
    hide Decide, ForCaller, FallbackRequest, WithTarget, TargetFor, RequestForDecision;
  }

  lemma DecisionKeepsProgress(plan: Plan, attempts: seq<Attempt>, before: seq<Alternative>, after: seq<Alternative>,
                              targetIndex: int, req: RunRequest, ctx: PolicyContext, answers: Answers,
                              nextTarget: int, nextReq: RunRequest)
    requires Tried(plan, attempts, before, targetIndex, req)
    requires ctx.targetIndex == targetIndex && ctx.alternatives == before
               && ctx.attemptOnTarget == CountOn(attempts, targetIndex)
    requires LeadsTo(plan.primary, plan.original, before, after, targetIndex, req, Decide(plan.policy, ctx, answers),
                     nextTarget, nextReq)
    ensures Progress(plan, attempts, after, nextTarget, nextReq)
    ensures nextTarget == targetIndex || nextTarget == targetIndex + 1
  {
    hide OnPlan, Decide, CountOn, FallbackRequest, Fallbacks, WithTarget, RequestForDecision, CanRetry;
    var d := Decide(plan.policy, ctx, answers);
    DecisionIsBounded(plan.policy, ctx, answers);
    if d.kind.Fallback? {
      TargetIsInstalled(plan, before, after, targetIndex, d);
      FallbackIsPlanned(plan.original, d, after[targetIndex]);
      CountWithin(plan, attempts, targetIndex);
    } else {
      RetryKeepsRequest(plan.policy, req, d, ctx);
    }
  }

  lemma FallbackIsPlanned(original: RunRequest, d: Decision, target: Alternative)
    requires d.request.None? && d.sessionAction == target.request.sessionAction
    ensures FallbackRequest(original, d, target) == FallbackRequest(original, SwitchTo(target), target)
  {
    hide Overlay;
  }

  lemma RetryKeepsRequest(p: BasicPolicy, req: RunRequest, d: Decision, ctx: PolicyContext)
    requires d.request.None? && d.sessionAction == ""
    ensures RequestForDecision(req, d) == req
    ensures CanRetry(p, ctx) ==> ctx.attemptOnTarget < p.maxAttemptsPerTarget
  {
  }

  lemma TargetIsInstalled(plan: Plan, before: seq<Alternative>, after: seq<Alternative>, t: nat, d: Decision)
    requires t < |plan.targets| && t <= |before| && before[..t] == plan.targets[..t]
    requires Fallbacks(plan.policy, before) == plan.targets
    requires d.targetIndex == t + 1 && d.target == Some(plan.targets[t]) && after == WithTarget(before, d)
    ensures t + 1 <= |after| && after[..t + 1] == plan.targets[..t + 1] && after[t] == plan.targets[t]
    ensures Fallbacks(plan.policy, after) == plan.targets
  {
    assert after[..t] == before[..t];
  }

  lemma CountWithin(plan: Plan, attempts: seq<Attempt>, t: int)
    requires OnPlan(plan, attempts)
    ensures CountOn(attempts, t) <= plan.PerTarget()
  {
  }

  /** The request on a fallback target is the original with the target's settings laid over it, prompt included. */
  lemma RequestOnFallback(plan: Plan, t: nat)
    requires 0 < t <= |plan.targets|
    ensures var r, o, over := plan.RequestOn(t), plan.original, plan.targets[t - 1].request;
            && r == Overlay(o, over).(prompt := r.prompt) && LaysText(r.prompt, over.prompt, o.prompt)
            && r.permissionPolicy == o.permissionPolicy && r.validation == o.validation
            && LaysText(r.provider, over.provider, o.provider) && LaysText(r.model, over.model, o.model)
            && LaysText(r.sessionId, over.sessionId, o.sessionId)
            && LaysText(r.sessionAction, over.sessionAction, o.sessionAction)
  {
  }

  // ---------------------------------------------------------------- the bounded policy, spelled out

  /** The categories that are worth another attempt on the same target by default. */
  predicate WorthRetrying(category: ErrorCategory, rateLimitKnown: bool) {
    || category == Timeout || category == RuntimeExit || category == RuntimeUnavailable
    || category == ProviderUnavailable || category == ModelUnavailable || category == MalformedEvent
    || (category == RateLimit && rateLimitKnown)
  }

  /** The categories that are worth another target by default. */
  predicate WorthFallingBack(category: ErrorCategory) {
    || category == Timeout || category == RuntimeExit || category == RuntimeUnavailable
    || category == ProviderUnavailable || category == ModelUnavailable || category == MalformedEvent
    || category == RateLimit || category == ValidationFailed || category == ErrorCategory.Unknown
  }

  /**
   When the bounded policy retries, falls back and stops. A target is skipped without a retry when it exited
   and another is left, or when it is rate limited and such retries are off.
   */
  lemma RetriesFallsBackOrStops(p: BasicPolicy, ctx: PolicyContext, answers: Answers)
    ensures var d := Decide(p, ctx, answers);
            var targets := if |p.fallbacks| == 0 then |ctx.alternatives| else |p.fallbacks|;
            if answers.stopped.Some? then d.kind.Stop? && d.err == answers.stopped
            else if ctx.err.None? then d.kind.Stop? && d.err.None?
            else if p.maxElapsed > 0 && ctx.elapsed >= p.maxElapsed then d.kind.Stop? && d.err == ctx.err
            else
              var c := ctx.err.value.category;
              var retry := if p.customRetry then answers.retry else WorthRetrying(c, ctx.rateLimitKnown);
              var other := if p.customFallback then answers.fallback else WorthFallingBack(c);
              var otherAgain := if p.customFallback then answers.fallbackAgain else WorthFallingBack(c);
              var limited := c == RateLimit && !p.retryRateLimits;
              var exited := c == RuntimeExit && ctx.targetIndex < targets && other;
              && (d.kind.Retry? <==> retry && !limited && !exited && ctx.attemptOnTarget < p.maxAttemptsPerTarget)
              && (d.kind.Fallback? <==>
                    !d.kind.Retry? && 0 <= ctx.targetIndex < targets && if exited then otherAgain else other)
              && (d.kind.Stop? <==> !d.kind.Retry? && !d.kind.Fallback?)
              && (d.kind.Retry? ==> d.targetIndex == ctx.targetIndex && d.delay == answers.delay)
              && (d.kind.Fallback? ==> d.targetIndex == ctx.targetIndex + 1 && d.delay == 0)
              && (d.kind.Stop? ==> d.err == ctx.err)
  {
    if ctx.err.Some? {
      DefaultsAreThese(ctx);
      hide DefaultRetryable, DefaultFallbackable, WorthRetrying, WorthFallingBack;
    }
  }

  lemma DefaultsAreThese(ctx: PolicyContext)
    requires ctx.err.Some?
    ensures DefaultRetryable(ctx) <==> WorthRetrying(ctx.err.value.category, ctx.rateLimitKnown)
    ensures DefaultFallbackable(ctx) <==> WorthFallingBack(ctx.err.value.category)
  {
  }

  // ---------------------------------------------------------------- the budget is reached

  /** A turn whose attempt fails in a way that is always worth retrying, and that nothing interrupts. */
  predicate KeepsFailing(p: BasicPolicy, turn: Turn) {
    && turn.done.None? && turn.sleepErr.None? && turn.answers.stopped.None?
    && (p.maxElapsed > 0 ==> turn.elapsed < p.maxElapsed)
    && turn.attempt.Err().Some?
    && var c := turn.attempt.Err().value.category;
       || c == Timeout || c == RuntimeUnavailable || c == ProviderUnavailable || c == ModelUnavailable
       || c == MalformedEvent
  }

  /** One such turn: another attempt on the target while there is room, else the next target, else the end. */
  lemma FailingTurn(plan: Plan, s: Standing, turn: Turn)
    requires !plan.policy.customRetry && !plan.policy.customFallback && KeepsFailing(plan.policy, turn)
    requires 0 <= s.targetIndex && Fallbacks(plan.policy, s.alternatives) == plan.targets
    ensures var rank := CountOn(s.attempts, s.targetIndex) + 1;
            var goesOn := Continues(Basic(plan.policy), Asked(s, turn), turn);
            && (goesOn <==> rank < plan.PerTarget() || s.targetIndex < |plan.targets|)
            && (goesOn ==>
                  GoOn(plan.AsRules(), s, turn).targetIndex ==
                    if rank < plan.PerTarget() then s.targetIndex else s.targetIndex + 1)
  {
    var ctx := Asked(s, turn);
    RetriesFallsBackOrStops(plan.policy, ctx, turn.answers);
    BasicNeverWaits(plan.policy, ctx, turn);
    hide Decide, CountOn, WithTarget, FallbackRequest, TargetFor, RequestForDecision, RuntimeFor, Trial;
  }

  /** Wherever such a run stands, every target before the current one has had its full share. */
  ghost predicate FullSoFar(plan: Plan, s: Standing) {
    && 0 <= s.targetIndex
    && |s.attempts| == plan.BudgetBefore(s.targetIndex) + CountOn(s.attempts, s.targetIndex)
  }

  lemma FailingTurnFills(plan: Plan, s: Standing, turn: Turn)
    requires !plan.policy.customRetry && !plan.policy.customFallback && KeepsFailing(plan.policy, turn)
    requires HeadOnPlan(plan, s) && FullSoFar(plan, s) && Continues(Basic(plan.policy), Asked(s, turn), turn)
    ensures FullSoFar(plan, GoOn(plan.AsRules(), s, turn))
  {
    hide GoOn, Continues, CountOn, Trial, HeadOnPlan, GoesTo, Asked, KeepsFailing, Fallbacks, FullSoFar;
    HeadIsPositioned(plan, s);
    FailingTurn(plan, s, turn);
    LeadsOn(plan.AsRules(), s, turn);
    TrialIsOfTurn(plan.primary, s, turn);
    var t, a := GoOn(plan.AsRules(), s, turn), Trial(plan.primary, s, turn.attempt);
    CountsAfter(s.attempts, a);
    StaysFull(plan, s, t, a);
  }

  lemma StaysFull(plan: Plan, s: Standing, t: Standing, a: Attempt)
    requires FullSoFar(plan, s) && t.attempts == s.attempts + [a] && a.targetIndex == s.targetIndex
    requires CountOn(s.attempts + [a], s.targetIndex) == CountOn(s.attempts, s.targetIndex) + 1
    requires CountOn(s.attempts + [a], s.targetIndex + 1) == 0 && CountOn(s.attempts, s.targetIndex) < plan.PerTarget()
    requires t.targetIndex ==
               if CountOn(s.attempts, s.targetIndex) + 1 < plan.PerTarget() then s.targetIndex else s.targetIndex + 1
    ensures FullSoFar(plan, t)
  {
    hide CountOn;
  }

  lemma HeadIsPositioned(plan: Plan, s: Standing)
    requires HeadOnPlan(plan, s)
    ensures 0 <= s.targetIndex <= |plan.targets| && Fallbacks(plan.policy, s.alternatives) == plan.targets
    ensures CountOn(s.attempts, s.targetIndex) < plan.PerTarget()
    ensures forall t :: t > s.targetIndex ==> CountOn(s.attempts, t) == 0
  {
  }

  /** The default callbacks, and an environment in which every turn keeps failing. */
  ghost predicate AlwaysFails(plan: Plan, turns: nat -> Turn) {
    && !plan.policy.customRetry && !plan.policy.customFallback
    && forall i: nat :: KeepsFailing(plan.policy, turns(i))
  }

  lemma FailsAt(plan: Plan, turns: nat -> Turn, i: nat)
    requires AlwaysFails(plan, turns)
    ensures !plan.policy.customRetry && !plan.policy.customFallback && KeepsFailing(plan.policy, turns(i))
  {
  }

  lemma HeadSteps(rules: Rules, start: seq<Alternative>, turns: nat -> Turn, k: nat)
    requires k > 0 && HeadAfter(rules, start, turns, k).Some?
    ensures var h := HeadAfter(rules, start, turns, k - 1);
            && h.Some? && Continues(rules.policy, Asked(h.value, turns(k - 1)), turns(k - 1))
            && HeadAfter(rules, start, turns, k).value == GoOn(rules, h.value, turns(k - 1))
  {
    hide GoOn, Continues;
  }

  lemma {:induction false} FailingHeads(plan: Plan, start: seq<Alternative>, turns: nat -> Turn, k: nat)
    requires plan.targets == Fallbacks(plan.policy, start) && AlwaysFails(plan, turns)
    requires HeadAfter(plan.AsRules(), start, turns, k).Some?
    ensures FullSoFar(plan, HeadAfter(plan.AsRules(), start, turns, k).value)
  {
    hide *;
    RulesOf(plan);
    if k == 0 {
      StartIsFull(plan, start, turns);
    } else {
      HeadSteps(plan.AsRules(), start, turns, k);
      BoundedHeads(plan, start, turns, k - 1);
      FailingHeads(plan, start, turns, k - 1);
      FailsAt(plan, turns, k - 1);
      FailingTurnFills(plan, HeadAfter(plan.AsRules(), start, turns, k - 1).value, turns(k - 1));
    }
  }

  lemma RulesOf(plan: Plan)
    ensures plan.AsRules().policy == Basic(plan.policy)
  {
  }

  lemma StartIsFull(plan: Plan, start: seq<Alternative>, turns: nat -> Turn)
    ensures FullSoFar(plan, HeadAfter(plan.AsRules(), start, turns, 0).value)
  {
  }

  /** At the turn that ends such a run, the last target gets its last attempt. */
  lemma LastFailingTurn(plan: Plan, s: Standing, turn: Turn)
    requires !plan.policy.customRetry && !plan.policy.customFallback && KeepsFailing(plan.policy, turn)
    requires HeadOnPlan(plan, s) && FullSoFar(plan, s) && !Continues(Basic(plan.policy), Asked(s, turn), turn)
    ensures |s.attempts| + 1 == plan.Budget() && turn.done.None?
  {
    HeadIsPositioned(plan, s);
    FailingTurn(plan, s, turn);
    hide Continues, HeadOnPlan, CountOn, Fallbacks;
  }

  /**
   The budget is tight: with the default callbacks, a run whose attempts all fail in a way worth retrying makes
   every attempt it may, on the original target and each fallback, and no other number of them.
   */
  lemma FailingRunsUseTheWholeBudget(plan: Plan, start: seq<Alternative>, turns: nat -> Turn, k: nat, r: FinalResult)
    requires plan.targets == Fallbacks(plan.policy, start) && AlwaysFails(plan, turns)
    requires Concludes(plan.AsRules(), start, turns, k, r)
    ensures var fallbacks := if |plan.policy.fallbacks| == 0 then |start| else |plan.policy.fallbacks|;
            var perTarget := if plan.policy.maxAttemptsPerTarget > 1 then plan.policy.maxAttemptsPerTarget else 1;
            |r.attempts| == (fallbacks + 1) * perTarget
  {
    hide *;
    FailingRunsFillThePlan(plan, start, turns, k, r);
    BudgetInNumbers(plan, start);
  }

  lemma BudgetInNumbers(plan: Plan, start: seq<Alternative>)
    requires plan.targets == Fallbacks(plan.policy, start)
    ensures var fallbacks := if |plan.policy.fallbacks| == 0 then |start| else |plan.policy.fallbacks|;
            var perTarget := if plan.policy.maxAttemptsPerTarget > 1 then plan.policy.maxAttemptsPerTarget else 1;
            plan.Budget() == (fallbacks + 1) * perTarget
  {
    BudgetIsProduct(plan, |plan.targets| + 1);
  }

  lemma FailingRunsFillThePlan(plan: Plan, start: seq<Alternative>, turns: nat -> Turn, k: nat, r: FinalResult)
    requires plan.targets == Fallbacks(plan.policy, start) && AlwaysFails(plan, turns)
    requires Concludes(plan.AsRules(), start, turns, k, r)
    ensures |r.attempts| == plan.Budget()
  {
    hide *;
    RulesOf(plan);
    ReachesItsEnd(plan.AsRules(), start, turns, k, r);
    BoundedHeads(plan, start, turns, k);
    FailingHeads(plan, start, turns, k);
    FailsAt(plan, turns, k);
    LastFailingTurn(plan, HeadAfter(plan.AsRules(), start, turns, k).value, turns(k));
    EndHistory(plan.AsRules(), start, turns, k, r);
    HeadHistory(plan.AsRules(), start, turns, k);
  }

  lemma ReachesItsEnd(rules: Rules, start: seq<Alternative>, turns: nat -> Turn, k: nat, r: FinalResult)
    requires Concludes(rules, start, turns, k, r)
    ensures var h := HeadAfter(rules, start, turns, k);
            h.Some? && !Continues(rules.policy, Asked(h.value, turns(k)), turns(k))
  {
    hide HeadAfter, Continues, Conclusion;
  }

  // ---------------------------------------------------------------- any policy, spelled out

  /** How an attempt ended: a failed start, else the error of its result, else the error of waiting for it. */
  lemma AttemptErrors(err: SdkError, status: Option<RunStatus>, resultErr: Option<SdkError>, waitErr: Option<SdkError>)
    ensures StartFailed(err).Err() == Some(err) && StartFailed(err).Status() == Some(Failed)
    ensures var a := Waited(status, resultErr, waitErr);
            && (a.Err().None? <==> resultErr.None? && waitErr.None?)
            && (resultErr.Some? ==> a.Err() == resultErr) && (resultErr.None? ==> a.Err() == waitErr)
            && a.Status() == status
  {
  }

  /** The attempt that is due, as it is recorded. */
  lemma AttemptsAreRecorded(primary: RuntimeId, s: Standing, input: AttemptInput)
    ensures var a := Trial(primary, s, input);
            && a.attempt == |s.attempts| + 1 && a.attemptOnTarget == CountOn(s.attempts, s.targetIndex) + 1
            && a.targetIndex == s.targetIndex && a.request == s.req && a.err == input.Err()
            && a.status == (if input.Status().Some? then input.Status().value
                            else if input.Err().Some? then Failed else Completed)
            && a.runtime == if 0 < s.targetIndex <= |s.alternatives| && s.alternatives[s.targetIndex - 1].runtime.Some?
                            then s.alternatives[s.targetIndex - 1].runtime.value else primary
  {
    hide CountOn;
  }

  /** What ends a run under a policy of the caller's own, with which error and for which reason. */
  lemma WhatEndsAScriptedTurn(rules: Rules, s: Standing, turn: Turn)
    requires rules.policy.Scripted?
    ensures var goesOn, r := Continues(rules.policy, Asked(s, turn), turn), Conclusion(rules, s, turn);
            if turn.done.Some? then
              && !goesOn && r.status == Cancelled && r.err == turn.done && r.attempts == s.attempts
              && r.reason == "policy run cancelled"
            else if turn.attempt.Err().None? then
              && !goesOn && r.err == None && !r.exhausted && r.reason == ""
              && r.status == if turn.attempt.Status().Some? then turn.attempt.Status().value else Completed
            else
              && r.exhausted
              && (r.err.Some? ==>
                  r.status == if turn.attempt.Status().Some? then turn.attempt.Status().value else Failed)
              && if turn.scripted.Failure? then
                   !goesOn && r.err == Some(turn.scripted.error) && r.reason == "policy decision failed"
                 else
                   var d := turn.scripted.value;
                   if d.kind == Stop || d.kind == Unset then
                     !goesOn && r.reason == d.reason && r.err == if d.err.Some? then d.err else turn.attempt.Err()
                   else if d.delay > 0 && turn.sleepErr.Some? then
                     !goesOn && r.reason == "policy wait cancelled" && r.err == turn.sleepErr
                   else
                     && (goesOn <==> d.kind == Retry || d.kind == Wait || d.kind == Fallback)
                     && (!goesOn ==> r.err.Some? && r.err.value.category == Configuration &&
                                     r.reason == "unsupported policy decision")
  {
    hide CountOn, Trial;
  }

  /** The layers of a fallback's request: the original, the target's settings, and what the decision adds. */
  lemma FallbackInLayers(original: RunRequest, d: Decision, target: Alternative)
    ensures var onTarget := Overlay(original, target.request).(
              prompt := if target.request.prompt != "" then target.request.prompt else original.prompt);
            var layered := if d.request.Some? then Overlay(onTarget, d.request.value) else onTarget;
            FallbackRequest(original, d, target) ==
              if d.sessionAction != "" then layered.(sessionAction := d.sessionAction) else layered
  {
    hide OverlayList;
  }

  /** Where a turn under such a policy leads when it does not end the run. */
  lemma WhereAScriptedTurnLeads(rules: Rules, s: Standing, turn: Turn)
    requires rules.policy.Scripted? && Continues(rules.policy, Asked(s, turn), turn)
    ensures var d, t := turn.scripted.value, GoOn(rules, s, turn);
            && (d.kind == Fallback ==>
                  && t.targetIndex == d.targetIndex
                  && t.req.permissionPolicy == rules.original.permissionPolicy
                  && t.req.validation == rules.original.validation
                  && (d.target.Some? && d.targetIndex > 0 ==>
                        d.targetIndex <= |t.alternatives| && t.alternatives[d.targetIndex - 1] == d.target.value))
            && (d.kind != Fallback ==>
                  && t.targetIndex == s.targetIndex && t.alternatives == s.alternatives
                  && var next := if d.request.Some? then d.request.value else s.req;
                     && (d.sessionAction == "" ==> t.req == next)
                     && (d.sessionAction != "" ==> t.req == next.(sessionAction := d.sessionAction)))
            && (forall i :: 0 <= i < |s.alternatives| && i != d.targetIndex - 1 ==>
                  i < |t.alternatives| && t.alternatives[i] == s.alternatives[i])
  {
    hide CountOn, Trial;
  }
}
