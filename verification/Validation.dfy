/**
 Output validation with bounded repair: run, validate, and while validation fails and the budget
 allows, run a repair and validate again. Runtimes, validators, the context and the caller's callbacks
 are an environment that answers arbitrarily.
 */
module Validation {
  import opened Core

  // ---------------------------------------------------------------- one validation pass

  /** Severities are open strings; an empty one counts as required. */
  datatype Check = Check(id: string, severity: string, passed: bool, skipped: bool)

  datatype ValidationResult = ValidationResult(
    passed: bool, skipped: bool, passedCount: int, failedCount: int, skippedCount: int, failures: seq<string>)

  predicate SeverityRequired(severity: string) {
    severity == "" || severity == "required"
  }

  predicate Fails(check: Check) {
    !check.skipped && !check.passed && SeverityRequired(check.severity)
  }

  function FailuresOf(checks: seq<Check>): seq<string> {
    if checks == [] then []
    else
      var last := checks[|checks| - 1];
      FailuresOf(checks[..|checks| - 1]) + if Fails(last) then [last.id] else []
  }

  function PassesOf(checks: seq<Check>): nat {
    if checks == [] then 0
    else
      var last := checks[|checks| - 1];
      PassesOf(checks[..|checks| - 1]) + if !last.skipped && last.passed then 1 else 0
  }

  /** The result as a whole: no required check fails, and every check is counted once. */
  function Aggregated(checks: seq<Check>): ValidationResult {
    var failures, passes := FailuresOf(checks), PassesOf(checks);
    ValidationResult(failures == [], checks == [], passes, |failures|,
                     if checks == [] then 1 else |checks| - passes - |failures|, failures)
  }

  method AggregateValidation(checks: seq<Check>) returns (r: ValidationResult)
    ensures r == Aggregated(checks)
    ensures r.passed <==> forall i :: 0 <= i < |checks| ==> !Fails(checks[i])
    ensures 0 <= r.skippedCount && (checks != [] ==> r.passedCount + r.failedCount + r.skippedCount == |checks|)
  {
    var passed, passedCount, failedCount, skippedCount, failures := true, 0, 0, 0, [];
    var i := 0;
    while i < |checks|
      invariant 0 <= i <= |checks|
      invariant failures == FailuresOf(checks[..i]) && failedCount == |failures|
      invariant passedCount == PassesOf(checks[..i])
      invariant 0 <= skippedCount == i - passedCount - failedCount
      invariant passed <==> failures == []
      invariant passed <==> forall j :: 0 <= j < i ==> !Fails(checks[j])
    {
      var check := checks[i];
      assert checks[..i + 1][..i] == checks[..i];
      if check.skipped {
        skippedCount := skippedCount + 1;
      } else if check.passed {
        passedCount := passedCount + 1;
      } else if SeverityRequired(check.severity) {
        passed, failedCount, failures := false, failedCount + 1, failures + [check.id];
      } else {
        skippedCount := skippedCount + 1;
      }
      i := i + 1;
    }
    assert checks[..|checks|] == checks;
    if |checks| == 0 {
      skippedCount := 1;
    }
    r := ValidationResult(passed, |checks| == 0, passedCount, failedCount, skippedCount, failures);
  }

  // ---------------------------------------------------------------- inner runs and repairs

  datatype Request = Request(prompt: string, sessionId: string, sessionAction: string, validated: bool)

  /** How an inner run ends. `unsupported` says the runtime could not honour the requested session. */
  datatype InnerRun =
    | StartFailed(err: SdkError)
    | Ended(status: Option<RunStatus>, sessionId: string, unsupported: bool, resultErr: Option<SdkError>,
            waitErr: Option<SdkError>)

  datatype RunResult = RunResult(status: Option<RunStatus>, sessionId: string, unsupported: bool, err: Option<SdkError>)

  function EndOf(inner: InnerRun): RunResult {
    match inner
    case StartFailed(err) => RunResult(Some(Failed), "", false, Some(err))
    case Ended(status, sessionId, unsupported, resultErr, waitErr) =>
      RunResult(status, sessionId, unsupported, if resultErr.Some? then resultErr else waitErr)
  }

  datatype RepairConfig = RepairConfig(maxAttempts: int, sessionAction: string, allowFresh: bool, freshOnError: bool)

  /** The answers of one validation pass: its checks, and the context's error once they have run. */
  datatype Pass = Pass(checks: seq<Check>, interrupted: Option<ContextError>)

  function ContextFailure(err: ContextError): SdkError {
    match err
    case Canceled => SdkError(Cancellation, "validation run was cancelled")
    case DeadlineExceeded => SdkError(Timeout, "validation run timed out")
  }

  /** All answers of the environment: inner runs by start number, the others by attempt number. */
  datatype Environment = Environment(
    runs: nat -> InnerRun,
    passes: nat -> Pass,
    customShouldRepair: bool,
    shouldRepair: nat -> bool,
    overrides: nat -> Option<Request>)

  const CONTINUE := "continue"
  const FRESH := "fresh"

  function RepairRequest(req: Request, config: RepairConfig, sessionId: string, override: Option<Request>): Request {
    if override.Some? then override.value
    else
      Request("repair", if req.sessionId == "" then sessionId else req.sessionId,
              if config.sessionAction != "" then config.sessionAction else CONTINUE, false)
  }

  predicate FreshRepairAllowed(err: SdkError) {
    !err.category.Cancellation? && !err.category.Timeout? && !err.category.Permission?
  }

  /** The runtime reported that it could not continue the session. */
  predicate UnsupportedContinue(req: Request, first: RunResult) {
    first.unsupported && req.sessionAction == CONTINUE
  }

  predicate FailedContinue(config: RepairConfig, req: Request, first: RunResult) {
    first.err.Some? && req.sessionAction == CONTINUE && config.freshOnError && FreshRepairAllowed(first.err.value)
  }

  /** The repair is tried once more in a fresh session. */
  predicate FallsBackToFresh(config: RepairConfig, req: Request, first: RunResult) {
    config.allowFresh && (UnsupportedContinue(req, first) || FailedContinue(config, req, first))
  }

  const UNSUPPORTED_REPAIR := SdkError(ErrorCategory.RepairExhausted, "same-session repair is unsupported")

  /** The result a repair hands on, from its first run and the fresh run that may follow it. */
  function RepairResult(config: RepairConfig, req: Request, first: RunResult, second: RunResult): RunResult {
    if FallsBackToFresh(config, req, first) then second
    else if UnsupportedContinue(req, first) then first.(status := Some(Failed), err := Some(UNSUPPORTED_REPAIR))
    else first
  }

  /**
   The configuration promises that cancellation, timeout and permission failures never cause a fresh
   session. They do exactly when the runtime also reports the session as unsupported.
   */
  lemma IneligibleErrorsFallBackIffUnsupported(config: RepairConfig, req: Request, first: RunResult)
    requires first.err.Some? && !FreshRepairAllowed(first.err.value)
    ensures FallsBackToFresh(config, req, first) <==>
              config.allowFresh && first.unsupported && req.sessionAction == CONTINUE
  {
  }

  lemma PermissionFailureCanFallBack()
    ensures FallsBackToFresh(RepairConfig(1, "", true, false), Request("", "", CONTINUE, false),
                             RunResult(Some(Failed), "s", true, Some(SdkError(ErrorCategory.Permission, "denied"))))
  {
  }

  datatype RepairSummary = RepairSummary(attempt: nat, err: Option<SdkError>, inFreshSession: bool,
                                         validation: Option<ValidationResult>)

  /** How the loop ended. */
  datatype Ending = RunFailed | Interrupted | Passed | GaveUp | RepairFailed

  datatype Final = Final(
    status: RunStatus,
    err: Option<SdkError>,
    history: seq<ValidationResult>,
    repairs: seq<RepairSummary>,
    exhausted: bool,
    ending: Ending)

  function StatusForError(err: Option<SdkError>): RunStatus {
    if err.None? then Completed else if err.value.category.Cancellation? then Cancelled else Failed
  }

  /** The flag the repair metadata carries. */
  predicate ExhaustedFlag(config: RepairConfig, history: seq<ValidationResult>, repairs: seq<RepairSummary>) {
    config.maxAttempts > 0 && |repairs| >= config.maxAttempts && history != [] && !history[|history| - 1].passed
  }

  function GiveUpError(config: RepairConfig, repairs: seq<RepairSummary>): SdkError {
    if config.maxAttempts > 0 && |repairs| >= config.maxAttempts
    then SdkError(ErrorCategory.RepairExhausted, "validation repair attempts exhausted")
    else SdkError(ErrorCategory.ValidationFailed, "required output validation failed")
  }

  // ---------------------------------------------------------------- the loop

  function Budget(config: RepairConfig): nat {
    if config.maxAttempts > 0 then config.maxAttempts else 0
  }

  ghost predicate NonePassed(history: seq<ValidationResult>) {
    forall i :: 0 <= i < |history| ==> !history[i].passed
  }

  /** Each recorded result is the verdict on the checks of its own pass. */
  ghost predicate FromChecks(env: Environment, history: seq<ValidationResult>) {
    forall i: nat :: i < |history| ==> history[i] == Aggregated(env.passes(i).checks)
  }

  /** The i-th repair carries the validation that followed it, once there is one. */
  ghost predicate RepairsCarry(history: seq<ValidationResult>, repairs: seq<RepairSummary>) {
    forall i :: 0 <= i < |repairs| ==>
      && repairs[i].attempt == i + 1
      && repairs[i].validation == if i + 1 < |history| then Some(history[i + 1]) else None
  }

  ghost predicate Bookkept(env: Environment, config: RepairConfig, f: Final, starts: nat) {
    && FromChecks(env, f.history) && RepairsCarry(f.history, f.repairs)
    && |f.history| - 1 <= |f.repairs| <= |f.history|
    && |f.repairs| <= Budget(config)
    && 1 <= starts <= 1 + 2 * |f.repairs|
    && f.exhausted == ExhaustedFlag(config, f.history, f.repairs)
  }

  /** The verdict is exact: success means failing results followed by one passing result. */
  ghost predicate Verdict(config: RepairConfig, f: Final) {
    && f.status == StatusForError(f.err)
    && (f.history != [] ==> NonePassed(f.history[..|f.history| - 1]))
    && (f.err.None? <==> f.history != [] && f.history[|f.history| - 1].passed)
    && (f.err.None? <==> f.ending.Passed?)
    && (f.ending.GaveUp? ==> f.err == Some(GiveUpError(config, f.repairs)) && |f.history| == |f.repairs| + 1)
  }

  ghost predicate NoneFailed(repairs: seq<RepairSummary>) {
    forall i :: 0 <= i < |repairs| ==> repairs[i].err.None?
  }

  /** The budget has room for this repair, and the caller's callback does not refuse it. */
  predicate MayRepair(env: Environment, config: RepairConfig, attempt: nat) {
    attempt <= Budget(config) && (env.customShouldRepair ==> env.shouldRepair(attempt))
  }

  // ---------------------------------------------------------------- the inner runs

  /** The inner runs behind `n` repairs: the result in hand, the runs started, and what each was asked. */
  datatype Track = Track(current: RunResult, starts: nat, requests: seq<Request>)

  /** Repair `n`: one inner run, and a second one in a fresh session when the first calls for it. */
  function TrackNext(env: Environment, config: RepairConfig, req: Request, t: Track, n: nat): Track {
    var rr := RepairRequest(req, config, t.current.sessionId, env.overrides(n));
    var first, second := EndOf(env.runs(t.starts)), EndOf(env.runs(t.starts + 1));
    var again := if FallsBackToFresh(config, rr, first) then [rr.(sessionId := "", sessionAction := FRESH)] else [];
    Track(RepairResult(config, rr, first, second), t.starts + 1 + |again|, t.requests + [rr] + again)
  }

  function TrackAfter(env: Environment, config: RepairConfig, original: Request, n: nat): Track {
    var req := original.(validated := false);
    if n == 0 then Track(EndOf(env.runs(0)), 1, [req])
    else TrackNext(env, config, req, TrackAfter(env, config, original, n - 1), n)
  }

  /** Each repair costs one inner run, or two when it falls back. */
  lemma {:induction false} RepairsAreCheap(env: Environment, config: RepairConfig, original: Request, n: nat)
    ensures var t := TrackAfter(env, config, original, n);
            |t.requests| == t.starts && n + 1 <= t.starts <= 1 + 2 * n
  {
    if n > 0 {
      RepairsAreCheap(env, config, original, n - 1);
    }
  }

  /** No override among the first `n` repairs asks for validation. */
  ghost predicate OverridesDoNotValidate(env: Environment, n: nat) {
    forall i: nat :: 0 < i <= n && env.overrides(i).Some? ==> !env.overrides(i).value.validated
  }

  ghost predicate NoneValidated(requests: seq<Request>) {
    forall i :: 0 <= i < |requests| ==> !requests[i].validated
  }

  /** No inner run validates again exactly when no override asks for it. */
  lemma {:induction false} NothingNestsIff(env: Environment, config: RepairConfig, original: Request, n: nat)
    ensures NoneValidated(TrackAfter(env, config, original, n).requests) <==> OverridesDoNotValidate(env, n)
  {
    if n > 0 {
      NothingNestsIff(env, config, original, n - 1);
      var t, u := TrackAfter(env, config, original, n - 1), TrackAfter(env, config, original, n);
      assert u.requests[..|t.requests|] == t.requests;
      assert u.requests[|t.requests|] == RepairRequest(original.(validated := false), config, t.current.sessionId,
                                                       env.overrides(n));
      assert forall i :: 0 <= i < |t.requests| ==> t.requests[i] == u.requests[i];
      if OverridesDoNotValidate(env, n - 1) && (env.overrides(n).Some? ==> !env.overrides(n).value.validated) {
        assert OverridesDoNotValidate(env, n);
      }
    }
  }

  /** A repair continues the session of the latest inner run, unless the caller named a session or a request. */
  lemma RepairContinuesLatestSession(env: Environment, config: RepairConfig, original: Request, n: nat)
    requires n > 0 && env.overrides(n).None? && original.sessionId == ""
    ensures var before, t := TrackAfter(env, config, original, n - 1), TrackAfter(env, config, original, n);
            && before.starts < |t.requests|
            && t.requests[before.starts].sessionId == before.current.sessionId
            && (before.starts + 1 < |t.requests| ==>
                  && t.requests[before.starts + 1].sessionId == ""
                  && t.requests[before.starts + 1].sessionAction == FRESH
                  && t.current == EndOf(env.runs(before.starts + 1)))
  {
    RepairsAreCheap(env, config, original, n - 1);
  }

  /** Repair `i + 1` reports the error its inner runs ended with, and whether there were two of them. */
  ghost predicate RepairsReport(env: Environment, config: RepairConfig, original: Request,
                                repairs: seq<RepairSummary>) {
    forall i: nat :: i < |repairs| ==> ReportsRepair(env, config, original, repairs[i], i + 1)
  }

  predicate ReportsRepair(env: Environment, config: RepairConfig, original: Request, summary: RepairSummary, n: nat)
    requires n > 0
  {
    var before, t := TrackAfter(env, config, original, n - 1), TrackAfter(env, config, original, n);
    summary.err == t.current.err && (summary.inFreshSession <==> t.starts == before.starts + 2)
  }

  ghost predicate NoneInterrupted(env: Environment, n: nat) {
    forall i: nat :: i < n ==> env.passes(i).interrupted.None?
  }

  ghost predicate AllAllowed(env: Environment, config: RepairConfig, n: nat) {
    forall i: nat :: 0 < i <= n ==> MayRepair(env, config, i)
  }

  /** Why the loop repaired and why it ended: each ending has its own cause, and nothing else ends the loop. */
  ghost predicate Justified(env: Environment, config: RepairConfig, original: Request, f: Final) {
    && NoneInterrupted(env, |f.history|) && AllAllowed(env, config, |f.repairs|)
    && RepairsReport(env, config, original, f.repairs)
    && (f.repairs != [] ==> NoneFailed(f.repairs[..|f.repairs| - 1]))
    && (!f.ending.RepairFailed? ==> NoneFailed(f.repairs))
    && (f.ending.RunFailed? <==> EndOf(env.runs(0)).err.Some?)
    && match f.ending
       case RunFailed => f.err == EndOf(env.runs(0)).err && f.history == []
       case Interrupted =>
         var interrupted := env.passes(|f.history|).interrupted;
         interrupted.Some? && f.err == Some(ContextFailure(interrupted.value)) && |f.history| == |f.repairs|
       case Passed => |f.history| == |f.repairs| + 1 && f.history[|f.history| - 1].passed
       case GaveUp => !MayRepair(env, config, |f.repairs| + 1)
       case RepairFailed => f.repairs != [] && f.err == f.repairs[|f.repairs| - 1].err && |f.history| == |f.repairs|
  }

  /** What the loop leaves behind. */
  function Concluded(config: RepairConfig, err: Option<SdkError>, history: seq<ValidationResult>,
                     repairs: seq<RepairSummary>,
                     ending: Ending): Final
  {
    Final(StatusForError(err), err, history, repairs, ExhaustedFlag(config, history, repairs), ending)
  }

  ghost predicate Proper(env: Environment, config: RepairConfig, original: Request, f: Final, starts: nat) {
    Bookkept(env, config, f, starts) && Verdict(config, f) && Justified(env, config, original, f)
  }

  /** The head of the loop: every pass so far failed and was followed by a repair that did not. */
  ghost predicate AtHead(env: Environment, config: RepairConfig, original: Request, history: seq<ValidationResult>,
                         repairs: seq<RepairSummary>, starts: nat)
  {
    && EndOf(env.runs(0)).err.None?
    && |history| == |repairs| <= Budget(config) && 1 <= starts <= 1 + 2 * |repairs|
    && NonePassed(history) && FromChecks(env, history) && RepairsCarry(history, repairs) && NoneFailed(repairs)
    && NoneInterrupted(env, |history|) && AllAllowed(env, config, |repairs|)
    && RepairsReport(env, config, original, repairs)
  }

  /** After a pass: its result is the last one recorded. */
  ghost predicate Judged(env: Environment, config: RepairConfig, original: Request, history: seq<ValidationResult>,
                         repairs: seq<RepairSummary>, starts: nat)
  {
    && EndOf(env.runs(0)).err.None?
    && |history| == |repairs| + 1 <= Budget(config) + 1 && 1 <= starts <= 1 + 2 * |repairs|
    && NonePassed(history[..|repairs|]) && FromChecks(env, history) && RepairsCarry(history, repairs)
    && NoneFailed(repairs)
    && NoneInterrupted(env, |history|) && AllAllowed(env, config, |repairs|)
    && RepairsReport(env, config, original, repairs)
  }

  class ValidationRun {
    const config: RepairConfig
    const original: Request
    const env: Environment
    var starts: nat
    ghost var requests: seq<Request>
    var result: Option<Final>

    constructor (config: RepairConfig, original: Request, env: Environment)
      ensures this.config == config && this.original == original && this.env == env
      ensures starts == 0 && requests == [] && result.None?
    {
      this.config, this.original, this.env := config, original, env;
      starts, requests, result := 0, [], None;
    }

    method StartAndWait(req: Request) returns (r: RunResult)
      modifies this`starts, this`requests
      ensures r == EndOf(env.runs(old(starts))) && starts == old(starts) + 1 && requests == old(requests) + [req]
    {
      var inner := env.runs(starts);
      starts := starts + 1;
      requests := requests + [req];
      match inner
      case StartFailed(err) => r := RunResult(Some(Failed), "", false, Some(err));
      case Ended(status, sessionId, unsupported, resultErr, waitErr) =>
        r := RunResult(status, sessionId, unsupported, resultErr);
        if waitErr.Some? && r.err.None? {
          r := r.(err := waitErr);
        }
    }

    /** One repair: at most two inner runs, the second one fresh and only when the first calls for it. */
    method RunRepair(req: Request, current: RunResult, attempt: nat) returns (r: RunResult, summary: RepairSummary)
      modifies this`starts, this`requests
      ensures Track(r, starts, requests) == TrackNext(env, config, req, Track(current, old(starts), old(requests)),
                                                      attempt)
      ensures summary == RepairSummary(attempt, r.err, starts == old(starts) + 2, None)
      ensures old(starts) + 1 <= starts <= old(starts) + 2
    {
      var rr := RepairRequest(req, config, current.sessionId, env.overrides(attempt));
      r := StartAndWait(rr);
      summary := RepairSummary(attempt, r.err, false, None);
      var unsupportedContinue := r.unsupported && rr.sessionAction == CONTINUE;
      var failedContinue := r.err.Some? && rr.sessionAction == CONTINUE && config.freshOnError
        && FreshRepairAllowed(r.err.value);
      if unsupportedContinue || failedContinue {
        if config.allowFresh {
          r := StartAndWait(rr.(sessionAction := FRESH, sessionId := ""));
          summary := RepairSummary(attempt, r.err, true, None);
        } else if unsupportedContinue {
          r := r.(status := Some(Failed), err := Some(UNSUPPORTED_REPAIR));
          summary := summary.(err := Some(UNSUPPORTED_REPAIR));
        }
      }
    }

    function ShouldRepair(attempt: nat): (yes: bool)
      requires attempt > 0
      reads this
      ensures yes <==> MayRepair(env, config, attempt)
    {
      if config.maxAttempts <= 0 || attempt > config.maxAttempts then false
      else if env.customShouldRepair then env.shouldRepair(attempt)
      else true
    }

    /** Ends the run. */
    method Finish(err: Option<SdkError>, history: seq<ValidationResult>, repairs: seq<RepairSummary>, ending: Ending)
      modifies this`result
      ensures result == Some(Concluded(config, err, history, repairs, ending))
    {
      result := Some(Final(StatusForError(err), err, history, repairs, ExhaustedFlag(config, history, repairs),
                           ending));
    }

    /** The loop ends in every environment, within the repair budget, with an exact verdict. */
    method Execute()
      requires starts == 0 && requests == [] && result.None?
      modifies this
      ensures result.Some? && Proper(env, config, original, result.value, starts)
      ensures starts <= 1 + 2 * Budget(config)
      ensures var t := TrackAfter(env, config, original, |result.value.repairs|);
              starts == t.starts && requests == t.requests
    {
      hide AtHead, Judged, Proper, Aggregated, TrackNext, ExhaustedFlag, Budget;
      var req := original.(validated := false);
      var current := StartAndWait(req);
      if current.err.Some? {
        FailedRunIsProper(env, config, original);
        Finish(current.err, [], [], RunFailed);
        return;
      }
      var history: seq<ValidationResult>, repairs: seq<RepairSummary> := [], [];
      var attempt := 0;
      StartsAtHead(env, config, original);
      while true
        invariant result.None? && attempt == |repairs|
        invariant AtHead(env, config, original, history, repairs, starts)
        invariant Track(current, starts, requests) == TrackAfter(env, config, original, attempt)
        decreases Budget(config) - attempt
      {
        StaysInBudget(env, config, original, history, repairs, starts);
        var pass := env.passes(attempt);
        var validation := AggregateValidation(pass.checks);
        if pass.interrupted.Some? {
          InterruptionIsProper(env, config, original, history, repairs, starts);
          Finish(Some(ContextFailure(pass.interrupted.value)), history, repairs, Interrupted);
          return;
        }
        RecordPass(env, config, original, history, repairs, starts, validation);
        if attempt > 0 {
          repairs := repairs[attempt - 1 := repairs[attempt - 1].(validation := Some(validation))];
        }
        history := history + [validation];
        if validation.passed {
          PassIsProper(env, config, original, history, repairs, starts);
          Finish(None, history, repairs, Passed);
          return;
        }
        if !ShouldRepair(attempt + 1) {
          GivingUpIsProper(env, config, original, history, repairs, starts);
          Finish(Some(GiveUpError(config, repairs)), history, repairs, GaveUp);
          return;
        }
        var summary;
        ghost var before := starts;
        current, summary := RunRepair(req, current, attempt + 1);
        RecordRepair(env, config, original, history, repairs, before, summary, starts);
        repairs := repairs + [summary];
        if current.err.Some? {
          Finish(current.err, history, repairs, RepairFailed);
          return;
        }
        attempt := attempt + 1;
      }
    }
  }

  lemma FailedRunIsProper(env: Environment, config: RepairConfig, original: Request)
    requires EndOf(env.runs(0)).err.Some?
    ensures Proper(env, config, original, Concluded(config, EndOf(env.runs(0)).err, [], [], RunFailed), 1)
    ensures 1 <= 1 + 2 * Budget(config)
  {
  }

  lemma StartsAtHead(env: Environment, config: RepairConfig, original: Request)
    requires EndOf(env.runs(0)).err.None?
    ensures AtHead(env, config, original, [], [], 1)
  {
  }

  lemma StaysInBudget(env: Environment, config: RepairConfig, original: Request, history: seq<ValidationResult>,
                      repairs: seq<RepairSummary>, starts: nat)
    requires AtHead(env, config, original, history, repairs, starts)
    ensures |history| == |repairs| <= Budget(config) && starts <= 1 + 2 * Budget(config)
  {
  }

  /** Recording a validation: the latest repair, if any, now carries it. */
  lemma RecordPass(env: Environment, config: RepairConfig, original: Request, history: seq<ValidationResult>,
                   repairs: seq<RepairSummary>, starts: nat, validation: ValidationResult)
    requires AtHead(env, config, original, history, repairs, starts)
    requires validation == Aggregated(env.passes(|history|).checks) && env.passes(|history|).interrupted.None?
    ensures var n := |repairs|;
            var carried := if n > 0 then repairs[n - 1 := repairs[n - 1].(validation := Some(validation))] else repairs;
            Judged(env, config, original, history + [validation], carried, starts)
  {
    hide MayRepair, TrackAfter, Aggregated, Budget;
    assert (history + [validation])[..|history|] == history;
  }

  /** Recording a repair: the loop goes on, or ends with the error of the repair. */
  lemma RecordRepair(env: Environment, config: RepairConfig, original: Request, history: seq<ValidationResult>,
                     repairs: seq<RepairSummary>, before: nat, summary: RepairSummary, starts: nat)
    requires Judged(env, config, original, history, repairs, before) && !history[|repairs|].passed
    requires MayRepair(env, config, |repairs| + 1) && before < starts <= before + 2
    requires summary.attempt == |repairs| + 1 && summary.validation.None?
    requires ReportsRepair(env, config, original, summary, |repairs| + 1)
    ensures summary.err.None? ==> AtHead(env, config, original, history, repairs + [summary], starts)
    ensures summary.err.Some? ==>
              Proper(env, config, original, Concluded(config, summary.err, history, repairs + [summary], RepairFailed),
                     starts)
              && starts <= 1 + 2 * Budget(config)
  {
    hide TrackAfter, Aggregated;
    assert history[..|history| - 1] == history[..|repairs|];
    assert (repairs + [summary])[..|repairs|] == repairs;
  }

  lemma InterruptionIsProper(env: Environment, config: RepairConfig, original: Request, history: seq<ValidationResult>,
                             repairs: seq<RepairSummary>, starts: nat)
    requires AtHead(env, config, original, history, repairs, starts) && env.passes(|history|).interrupted.Some?
    ensures var err := ContextFailure(env.passes(|history|).interrupted.value);
            Proper(env, config, original, Concluded(config, Some(err), history, repairs, Interrupted), starts)
  {
    hide MayRepair, TrackAfter, Aggregated;
  }

  lemma PassIsProper(env: Environment, config: RepairConfig, original: Request, history: seq<ValidationResult>,
                     repairs: seq<RepairSummary>, starts: nat)
    requires Judged(env, config, original, history, repairs, starts) && history[|repairs|].passed
    ensures Proper(env, config, original, Concluded(config, None, history, repairs, Passed), starts)
  {
    hide MayRepair, TrackAfter, Aggregated;
    assert history[..|history| - 1] == history[..|repairs|];
  }

  lemma GivingUpIsProper(env: Environment, config: RepairConfig, original: Request, history: seq<ValidationResult>,
                         repairs: seq<RepairSummary>, starts: nat)
    requires Judged(env, config, original, history, repairs, starts) && !history[|repairs|].passed
    requires !MayRepair(env, config, |repairs| + 1)
    ensures Proper(env, config, original, Concluded(config, Some(GiveUpError(config, repairs)), history, repairs,
                                                    GaveUp), starts)
  {
    hide MayRepair, TrackAfter, Aggregated;
    assert history[..|history| - 1] == history[..|repairs|];
  }

  /**
   The loop ending on a failed validation reports an exhausted budget exactly when the positive budget is
   used up, and a plain validation failure otherwise; flag and category always agree then.
   */
  lemma GiveUpCategory(config: RepairConfig, f: Final)
    requires Verdict(config, f) && f.exhausted == ExhaustedFlag(config, f.history, f.repairs) && f.ending.GaveUp?
    requires f.history != [] && !f.history[|f.history| - 1].passed
    ensures f.err.value.category.RepairExhausted? <==> f.exhausted
    ensures f.exhausted <==> config.maxAttempts > 0 && |f.repairs| >= config.maxAttempts
    ensures !f.exhausted ==> f.err.value.category.ValidationFailed?
  {
  }

  // ---------------------------------------------------------------- one outcome per environment

  /** A run with more than `n` results went on after the first `n`. */
  lemma WentOn(env: Environment, config: RepairConfig, original: Request, g: Final, starts: nat, n: nat)
    requires Proper(env, config, original, g, starts) && n < |g.history|
    ensures EndOf(env.runs(0)).err.None? && env.passes(n).interrupted.None?
    ensures n > 0 ==> !Aggregated(env.passes(n - 1).checks).passed && MayRepair(env, config, n)
    ensures n > 0 ==> TrackAfter(env, config, original, n).current.err.None?
  {
    hide Aggregated, TrackAfter, MayRepair;
    if n > 0 {
      assert g.history[n - 1] == g.history[..|g.history| - 1][n - 1];
      assert ReportsRepair(env, config, original, g.repairs[n - 1], n);
      if |g.repairs| > n {
        assert g.repairs[..|g.repairs| - 1][n - 1] == g.repairs[n - 1];
      }
    }
  }

  /** So the loop cannot end with fewer results in one run than in another. */
  lemma EndsNoEarlier(env: Environment, config: RepairConfig, original: Request, f: Final, g: Final, starts: nat,
                      starts': nat)
    requires Proper(env, config, original, f, starts) && Proper(env, config, original, g, starts')
    ensures |f.history| >= |g.history|
  {
    var n := |f.history|;
    if n < |g.history| {
      WentOn(env, config, original, g, starts', n);
      hide Aggregated, TrackAfter, MayRepair;
    }
  }

  /** With as many results, the loop cannot end with fewer repairs. */
  lemma RepairsNoLess(env: Environment, config: RepairConfig, original: Request, f: Final, g: Final, starts: nat,
                      starts': nat)
    requires Proper(env, config, original, f, starts) && Proper(env, config, original, g, starts')
    requires |f.history| == |g.history|
    ensures |f.repairs| >= |g.repairs|
  {
    hide Aggregated, TrackAfter, MayRepair;
  }

  lemma SameRepairs(env: Environment, config: RepairConfig, original: Request, f: Final, g: Final, starts: nat,
                    starts': nat)
    requires Proper(env, config, original, f, starts) && Proper(env, config, original, g, starts')
    requires f.history == g.history && |f.repairs| == |g.repairs|
    ensures f.repairs == g.repairs
  {
    hide Aggregated, TrackAfter, MayRepair, Verdict;
    forall i: nat | i < |f.repairs|
      ensures f.repairs[i] == g.repairs[i]
    {
      assert ReportsRepair(env, config, original, f.repairs[i], i + 1);
      assert ReportsRepair(env, config, original, g.repairs[i], i + 1);
    }
  }

  lemma SameEnding(env: Environment, config: RepairConfig, original: Request, f: Final, g: Final, starts: nat,
                   starts': nat)
    requires Proper(env, config, original, f, starts) && Proper(env, config, original, g, starts')
    requires f.history == g.history && f.repairs == g.repairs
    ensures f == g
  {
    hide FromChecks, RepairsCarry, RepairsReport, NonePassed, AllAllowed, MayRepair, NoneInterrupted, GiveUpError,
         ExhaustedFlag;
  }

  /**
   What is proved of a finished run leaves nothing open: an environment determines its status, error, every
   recorded result and repair, the exhausted flag and the way the loop ends.
   */
  lemma OutcomeIsDetermined(env: Environment, config: RepairConfig, original: Request, f: Final, g: Final, starts: nat,
                            starts': nat)
    requires Proper(env, config, original, f, starts) && Proper(env, config, original, g, starts')
    ensures f == g
  {
    EndsNoEarlier(env, config, original, f, g, starts, starts');
    EndsNoEarlier(env, config, original, g, f, starts', starts);
    RepairsNoLess(env, config, original, f, g, starts, starts');
    RepairsNoLess(env, config, original, g, f, starts', starts);
    hide Aggregated, RepairsCarry, Verdict, Justified;
    assert f.history == g.history;
    SameRepairs(env, config, original, f, g, starts, starts');
    SameEnding(env, config, original, f, g, starts, starts');
  }

  // ---------------------------------------------------------------- the flag and the category

  /** The category of the final error says that repairs are exhausted. */
  predicate SaysExhausted(f: Final) {
    IsExhaustion(f.err)
  }

  predicate IsExhaustion(err: Option<SdkError>) {
    err.Some? && err.value.category.RepairExhausted?
  }

  /**
   Repair `n` ends as exhausted: the run that decides it reports so itself, which is the fresh one if the
   first calls for it, or else the first is unsupported where it was to continue a session.
   */
  predicate RepairClaimsExhaustion(env: Environment, config: RepairConfig, original: Request, n: nat)
    requires n > 0
  {
    var t := TrackAfter(env, config, original, n - 1);
    var rr := RepairRequest(original.(validated := false), config, t.current.sessionId, env.overrides(n));
    var first, second := EndOf(env.runs(t.starts)), EndOf(env.runs(t.starts + 1));
    RunsClaimExhaustion(config, rr, first, second)
  }

  predicate RunsClaimExhaustion(config: RepairConfig, rr: Request, first: RunResult, second: RunResult) {
    if FallsBackToFresh(config, rr, first) then IsExhaustion(second.err)
    else UnsupportedContinue(rr, first) || IsExhaustion(first.err)
  }

  lemma ResultClaims(config: RepairConfig, rr: Request, first: RunResult, second: RunResult)
    ensures IsExhaustion(RepairResult(config, rr, first, second).err) <==>
              RunsClaimExhaustion(config, rr, first, second)
  {
  }

  lemma ClaimIsTheCategory(env: Environment, config: RepairConfig, original: Request, n: nat)
    requires n > 0
    ensures IsExhaustion(TrackAfter(env, config, original, n).current.err) <==>
              RepairClaimsExhaustion(env, config, original, n)
  {
    hide RunsClaimExhaustion, RepairResult, FallsBackToFresh, IsExhaustion, RepairRequest, EndOf;
    var t := TrackAfter(env, config, original, n - 1);
    var rr := RepairRequest(original.(validated := false), config, t.current.sessionId, env.overrides(n));
    ResultClaims(config, rr, EndOf(env.runs(t.starts)), EndOf(env.runs(t.starts + 1)));
  }

  /** The budget is positive and used up. */
  predicate UsedUp(config: RepairConfig, f: Final) {
    config.maxAttempts > 0 && |f.repairs| == config.maxAttempts
  }

  /**
   The flag says that the budget is used up without success. The category of the error says the same in
   every run that passes or gives up. After a failed first run, an interruption or a failed repair the inner
   runs and the number of repairs tell whether it does.
   */
  lemma FlagAgreesIff(env: Environment, config: RepairConfig, original: Request, f: Final, starts: nat)
    requires Proper(env, config, original, f, starts)
    ensures f.exhausted <==> UsedUp(config, f) && !f.ending.Passed?
    ensures (SaysExhausted(f) <==> f.exhausted) <==>
              match f.ending
              case Passed | GaveUp => true
              case RunFailed => !IsExhaustion(EndOf(env.runs(0)).err)
              case Interrupted => !UsedUp(config, f)
              case RepairFailed => RepairClaimsExhaustion(env, config, original, |f.repairs|) <==> UsedUp(config, f)
  {
    hide Aggregated, TrackAfter, MayRepair, RepairClaimsExhaustion;
    if f.ending.RepairFailed? {
      assert ReportsRepair(env, config, original, f.repairs[|f.repairs| - 1], |f.repairs|);
      ClaimIsTheCategory(env, config, original, |f.repairs|);
    }
    if f.history != [] && !f.ending.Passed? && |f.history| == |f.repairs| {
      assert !f.history[|f.history| - 1].passed;
    }
  }

  const FAILING := Check("required", "", false, false)

  const FAILED_RESULT := ValidationResult(false, false, 0, 1, 0, ["required"])

  /** An environment without callbacks in which every pass fails. */
  function NeverPasses(runs: nat -> InnerRun, interruptedAt: nat): Environment {
    Environment(runs, k => Pass([FAILING], if k == interruptedAt then Some(Canceled) else None), false, _ => true,
                _ => None)
  }

  lemma FailingCheckFails()
    ensures Aggregated([FAILING]) == FAILED_RESULT
  {
    assert [FAILING][..0] == [];
    assert FailuresOf([]) == [] && PassesOf([]) == 0;
  }

  /** An unsupported repair reports exhaustion after one of two attempts; the flag does not. */
  lemma UnsupportedRepairSaysExhaustedTooEarly(original: Request)
    ensures var env := NeverPasses(k => Ended(Some(Completed), "s", k > 0, None, None), 9);
            var config := RepairConfig(2, "", false, false);
            var f := Concluded(config, Some(UNSUPPORTED_REPAIR), [FAILED_RESULT],
                               [RepairSummary(1, Some(UNSUPPORTED_REPAIR), false, None)], RepairFailed);
            Proper(env, config, original, f, 2) && SaysExhausted(f) && !f.exhausted
  {
    FailingCheckFails();
    var env := NeverPasses(k => Ended(Some(Completed), "s", k > 0, None, None), 9);
    var config := RepairConfig(2, "", false, false);
    assert TrackAfter(env, config, original, 0).starts == 1;
    assert TrackAfter(env, config, original, 1).current.err == Some(UNSUPPORTED_REPAIR);
  }

  /** A cancellation after the last repair leaves the flag set under another category. */
  lemma CancellationHidesExhaustion(original: Request)
    ensures var env := NeverPasses(_ => Ended(Some(Completed), "s", false, None, None), 1);
            var config := RepairConfig(1, "", false, false);
            var f := Concluded(config, Some(ContextFailure(Canceled)), [FAILED_RESULT],
                               [RepairSummary(1, None, false, None)], Interrupted);
            Proper(env, config, original, f, 2) && !SaysExhausted(f) && f.exhausted
  {
    FailingCheckFails();
    var env := NeverPasses(_ => Ended(Some(Completed), "s", false, None, None), 1);
    var config := RepairConfig(1, "", false, false);
    assert TrackAfter(env, config, original, 0).starts == 1;
    assert TrackAfter(env, config, original, 1).current.err == None;
  }

  // ---------------------------------------------------------------- spelled out

  /** A check that fails the output: it ran, it did not pass, and it is required or has no severity. */
  predicate Breaks(check: Check) {
    !check.skipped && !check.passed && (check.severity == "" || check.severity == "required")
  }

  predicate Unbroken(checks: seq<Check>) {
    forall i :: 0 <= i < |checks| ==> !Breaks(checks[i])
  }

  /** The positions, in order, at which a property holds. */
  ghost predicate Positions(positions: seq<nat>, checks: seq<Check>, holds: Check -> bool) {
    && (forall i, j :: 0 <= i < j < |positions| ==> positions[i] < positions[j])
    && (forall k: nat :: k in positions <==> k < |checks| && holds(checks[k]))
  }

  lemma PositionsOneMore(positions: seq<nat>, checks: seq<Check>, holds: Check -> bool, last: Check)
    requires Positions(positions, checks, holds)
    ensures Positions(positions + if holds(last) then [|checks|] else [], checks + [last], holds)
  {
    var all := checks + [last];
    var next := positions + if holds(last) then [|checks|] else [];
    assert forall i :: 0 <= i < |positions| ==> positions[i] in positions;
    forall k: nat
      ensures k in next <==> k < |all| && holds(all[k])
    {
      assert k < |checks| ==> all[k] == checks[k];
      assert k in next <==> k in positions || (holds(last) && k == |checks|);
    }
  }

  /** The failures are the identifiers of the breaking checks, in order and without repetition. */
  lemma {:induction false} FailuresAreTheBreakingChecks(checks: seq<Check>) returns (positions: seq<nat>)
    ensures Positions(positions, checks, Breaks)
    ensures var r := Aggregated(checks);
            && |r.failures| == r.failedCount == |positions|
            && forall i :: 0 <= i < |positions| ==> positions[i] < |checks| && r.failures[i] == checks[positions[i]].id
  {
    if checks == [] {
      positions := [];
    } else {
      var n := |checks| - 1;
      positions := FailuresAreTheBreakingChecks(checks[..n]);
      assert checks == checks[..n] + [checks[n]];
      assert forall i :: 0 <= i < |positions| ==> positions[i] in positions;
      PositionsOneMore(positions, checks[..n], Breaks, checks[n]);
      positions := positions + if Breaks(checks[n]) then [n] else [];
    }
  }

  /** A check that ran and passed counts as passed, whatever its severity. */
  predicate Counts(check: Check) {
    !check.skipped && check.passed
  }

  lemma {:induction false} PassesAreThePassingChecks(checks: seq<Check>) returns (positions: seq<nat>)
    ensures Positions(positions, checks, Counts) && Aggregated(checks).passedCount == |positions|
  {
    if checks == [] {
      positions := [];
    } else {
      var n := |checks| - 1;
      positions := PassesAreThePassingChecks(checks[..n]);
      assert checks == checks[..n] + [checks[n]];
      PositionsOneMore(positions, checks[..n], Counts, checks[n]);
      positions := positions + if Counts(checks[n]) then [n] else [];
    }
  }

  /** An output passes exactly when no check breaks it; every check is counted once, and none as one skipped. */
  lemma PassesIffNothingBreaks(checks: seq<Check>)
    ensures var r := Aggregated(checks);
            && (r.passed <==> Unbroken(checks))
            && (r.skipped <==> checks == [])
            && r.passedCount + r.failedCount + r.skippedCount == if checks == [] then 1 else |checks|
  {
    var positions := FailuresAreTheBreakingChecks(checks);
    assert forall i :: 0 <= i < |positions| ==> positions[i] in positions;
    if i :| 0 <= i < |checks| && Breaks(checks[i]) {
      assert i in positions;
    }
    if positions != [] {
      assert positions[0] in positions;
    }
  }

  /** The verdict of a run: it passes exactly when it recorded a pass that no check of it breaks, the last one. */
  lemma RunPassesIffNothingBreaks(env: Environment, config: RepairConfig, original: Request, f: Final, starts: nat)
    requires Proper(env, config, original, f, starts)
    ensures f.status == Completed <==>
              f.history != [] && Unbroken(env.passes(|f.history| - 1).checks)
    ensures f.status == Completed <==> f.err == None
    ensures f.status == Cancelled <==> f.err.Some? && f.err.value.category == Cancellation
    ensures f.status == Completed || f.status == Cancelled || f.status == Failed
    ensures forall n: nat :: n < |f.history| - 1 ==> !Unbroken(env.passes(n).checks)
  {
    if f.history != [] {
      PassesIffNothingBreaks(env.passes(|f.history| - 1).checks);
    }
    forall n: nat | n < |f.history| - 1
      ensures !Unbroken(env.passes(n).checks)
    {
      PassesIffNothingBreaks(env.passes(n).checks);
      assert f.history[n] == f.history[..|f.history| - 1][n];
    }
    hide Aggregated, Unbroken, MayRepair, TrackAfter;
  }

  /** A context that ends during a pass ends the run: as cancelled, or as failed with a timeout. */
  lemma InterruptionsEndAs(env: Environment, config: RepairConfig, original: Request, f: Final, starts: nat)
    requires Proper(env, config, original, f, starts) && f.ending.Interrupted?
    ensures var why := env.passes(|f.history|).interrupted;
            && (why == Some(Canceled) ==> f.status == Cancelled && f.err.value.category == Cancellation)
            && (why == Some(DeadlineExceeded) ==> f.status == Failed && f.err.value.category == Timeout)
            && why.Some?
  {
    hide Aggregated, MayRepair, TrackAfter;
  }

  /** When the loop gives up: repairs are off or used up, or the caller's callback refuses the next one. */
  lemma GivesUpIff(env: Environment, config: RepairConfig, original: Request, f: Final, starts: nat)
    requires Proper(env, config, original, f, starts)
    ensures f.ending.GaveUp? ==>
              || config.maxAttempts <= |f.repairs|
              || (env.customShouldRepair && !env.shouldRepair(|f.repairs| + 1))
    ensures f.repairs != [] ==> |f.repairs| <= config.maxAttempts
    ensures env.customShouldRepair ==> forall i: nat :: 0 < i <= |f.repairs| ==> env.shouldRepair(i)
  {
    hide Aggregated, TrackAfter;
    forall i: nat | 0 < i <= |f.repairs|
      ensures env.customShouldRepair ==> env.shouldRepair(i)
    {
      assert MayRepair(env, config, i);
    }
  }

  /** How an inner run ended: a failed start, else the error of its result, else the error of waiting for it. */
  lemma InnerRunErrors(err: SdkError, status: Option<RunStatus>, sessionId: string, unsupported: bool,
                       resultErr: Option<SdkError>, waitErr: Option<SdkError>)
    ensures EndOf(StartFailed(err)) == RunResult(Some(Failed), "", false, Some(err))
    ensures var r := EndOf(Ended(status, sessionId, unsupported, resultErr, waitErr));
            && r.status == status && r.sessionId == sessionId && r.unsupported == unsupported
            && (resultErr.Some? ==> r.err == resultErr) && (resultErr.None? ==> r.err == waitErr)
  {
  }

  /** What a repair asks for, and when it is tried once more in a fresh session. */
  lemma RepairsAskFor(config: RepairConfig, req: Request, sessionId: string, first: RunResult, second: RunResult)
    ensures var rr := RepairRequest(req, config, sessionId, None);
            && rr.sessionId == (if req.sessionId == "" then sessionId else req.sessionId) && !rr.validated
            && rr.sessionAction == if config.sessionAction == "" then "continue" else config.sessionAction
    ensures var continues := req.sessionAction == "continue";
            var failed := first.err.Some? && config.freshOnError &&
                          first.err.value.category != Cancellation && first.err.value.category != Timeout &&
                          first.err.value.category != Permission;
            var r := RepairResult(config, req, first, second);
            if continues && config.allowFresh && (first.unsupported || failed) then r == second
            else if continues && first.unsupported then
              r.status == Some(Failed) && r.err.Some? && r.err.value.category == RepairExhausted
            else r == first
  {
  }

  // ---------------------------------------------------------------- the budget is reached

  /** Inner runs always succeed, every pass is broken by some check, and nobody intervenes. */
  ghost predicate NeverRepaired(env: Environment) {
    && (forall k: nat :: EndOf(env.runs(k)).err.None? && !EndOf(env.runs(k)).unsupported)
    && (forall n: nat :: env.passes(n).interrupted.None? && !Unbroken(env.passes(n).checks))
    && !env.customShouldRepair
  }

  lemma {:induction false} RepairsSucceed(env: Environment, config: RepairConfig, original: Request, n: nat)
    requires NeverRepaired(env)
    ensures TrackAfter(env, config, original, n).current.err.None?
  {
    hide RepairRequest;
    if n > 0 {
      var t := TrackAfter(env, config, original, n - 1);
      assert EndOf(env.runs(t.starts)).err.None? && !EndOf(env.runs(t.starts)).unsupported;
      assert EndOf(env.runs(t.starts + 1)).err.None?;
    }
  }

  /**
   The budget is tight: when no repair helps, the loop makes every repair it may and no other number of them, and
   then reports the budget as exhausted, or plain failure if there was none.
   */
  lemma HopelessRunsUseTheWholeBudget(env: Environment, config: RepairConfig, original: Request, f: Final, starts: nat)
    requires Proper(env, config, original, f, starts) && NeverRepaired(env)
    ensures |f.repairs| == (if config.maxAttempts > 0 then config.maxAttempts else 0) && |f.history| == |f.repairs| + 1
    ensures f.status == Failed && f.err.Some?
    ensures f.err.value.category == if config.maxAttempts > 0 then RepairExhausted else ValidationFailed
  {
    RepairsSucceed(env, config, original, |f.repairs|);
    var n := |f.history|;
    if n > 0 {
      assert env.passes(n - 1).interrupted.None?;
      PassesIffNothingBreaks(env.passes(n - 1).checks);
    }
    assert EndOf(env.runs(0)).err.None? && env.passes(n).interrupted.None?;
    hide Aggregated, TrackAfter, Unbroken;
    if f.repairs != [] {
      assert ReportsRepair(env, config, original, f.repairs[|f.repairs| - 1], |f.repairs|);
    }
  }
}
