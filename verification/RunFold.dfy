/**
 How an adapter run turns the process's structured output into an outcome: a scan over lines, one
 projection per record folded into the run's fields, and a final decision.
 */
module RunFold {
  import opened Core
  import opened Events
  import Text
  import TerminalOutput

  // ---------------------------------------------------------------- one record

  /**
   A decoded record. `nativeType` is trimmed and `finishReason` trimmed and lowered; `statusIdle` says
   whether its status fields read idle, `fatalError` how its error text classifies, and `output` what
   text it carries.
   */
  datatype NativeRecord = NativeRecord(
    nativeType: string,
    finishReason: string,
    statusIdle: bool,
    fatalError: SdkError,
    output: string)

  function Classify(nativeType: string): EventKind {
    if nativeType == "step_start" then Progress
    else if nativeType == "step_finish" then FinalResult
    else if nativeType == "text" || nativeType == "reasoning" then Message
    else if nativeType == "tool_use" then Tool
    else if nativeType == "error" then FatalError
    else if Text.Contains(nativeType, "permission") then PermissionEvent
    else if Text.Contains(nativeType, "question")
         || (Text.Contains(nativeType, "status") && Text.Contains(nativeType, "waiting")) then Blocking
    else if Text.Contains(nativeType, "usage") || Text.Contains(nativeType, "token")
      || Text.Contains(nativeType, "cost") then UsageEvent
    else if Text.Contains(nativeType, "artifact") || Text.Contains(nativeType, "file") then Artifact
    else if Text.Contains(nativeType, "warn") then Warning
    else if Text.Contains(nativeType, "session") then SessionEvent
    else NativeExtension
  }

  predicate IsTerminalFinish(reason: string) {
    reason in ["", "stop", "end_turn", "end-turn", "stop_sequence", "stop-sequence", "complete", "completed"]
  }

  predicate IsSessionIdle(record: NativeRecord) {
    record.nativeType == "session.status" && record.statusIdle
  }

  datatype Projection = Projection(kind: EventKind, final: bool, idle: bool, fatal: Option<SdkError>, output: string)

  function Project(record: NativeRecord): Projection {
    var kind :=
      if record.nativeType == "step_finish" then
        if IsTerminalFinish(record.finishReason) then FinalResult else Progress
      else Classify(record.nativeType);
    Projection(kind, kind.FinalResult? || kind.FatalError?, IsSessionIdle(record),
               if kind.FatalError? then Some(record.fatalError) else None, record.output)
  }

  // ---------------------------------------------------------------- the scan

  datatype Line = Blank | Malformed | Good(record: NativeRecord)

  datatype ScanError = ContextEnded(context: ContextError) | DecodeFailed | Fatal(err: SdkError)

  /**
   The context and the reader during a scan: what the context says before each line and while each event
   is sent, what it says at the end of the stream, and whether reading itself failed there.
   */
  datatype Surroundings = Surroundings(
    beforeLine: nat -> Option<ContextError>,
    whileSending: nat -> Option<ContextError>,
    atEnd: Option<ContextError>,
    readFailed: bool)

  /** The fields of the run the records are folded into. */
  datatype Seen = Seen(sawFinal: bool, sawIdle: bool, sawOutput: bool, terminalOutput: string)

  const NOTHING := Seen(false, false, false, "")

  function Absorb(seen: Seen, p: Projection): Seen {
    Seen(seen.sawFinal || p.final, seen.sawIdle || p.idle, seen.sawOutput || p.kind.Message?,
         if (p.kind.Message? || p.kind.FinalResult?) && p.output != ""
         then TerminalOutput.Append(seen.terminalOutput, p.output) else seen.terminalOutput)
  }

  /** The scan from line `k` on: what has been seen when it ends, and why it ended early if it did. */
  function ScanFrom(seen: Seen, lines: seq<Line>, k: nat, around: Surroundings): (Seen, Option<ScanError>)
    requires k <= |lines|
    decreases |lines| - k
  {
    if around.beforeLine(k).Some? then (seen, Some(ContextEnded(around.beforeLine(k).value)))
    else if k == |lines| then
      (seen, if around.atEnd.Some? then Some(ContextEnded(around.atEnd.value))
             else if around.readFailed then Some(DecodeFailed) else None)
    else
      match lines[k]
      case Blank => (seen, Some(DecodeFailed))
      case Malformed => (seen, Some(DecodeFailed))
      case Good(record) =>
        if around.whileSending(k).Some? then (seen, Some(ContextEnded(around.whileSending(k).value)))
        else
          var p := Project(record);
          var next := Absorb(seen, p);
          if p.fatal.Some? then (next, Some(Fatal(p.fatal.value))) else ScanFrom(next, lines, k + 1, around)
  }

  class Run {
    var sawFinal: bool
    var sawIdle: bool
    var sawOutput: bool
    var terminalOutput: string

    function Fields(): Seen
      reads this
    {
      Seen(sawFinal, sawIdle, sawOutput, terminalOutput)
    }

    constructor ()
      ensures Fields() == NOTHING
    {
      sawFinal, sawIdle, sawOutput, terminalOutput := false, false, false, "";
    }

    /** Handles one record; `ended` is the context's error when its event could not be sent. */
    method Emit(record: NativeRecord, ended: Option<ContextError>) returns (err: Option<ScanError>)
      modifies this
      ensures ended.Some? ==> err == Some(ContextEnded(ended.value)) && Fields() == old(Fields())
      ensures ended.None? ==>
                && Fields() == Absorb(old(Fields()), Project(record))
                && err == if Project(record).fatal.Some? then Some(Fatal(Project(record).fatal.value)) else None
    {
      var projected := Project(record);
      if ended.Some? {
        return Some(ContextEnded(ended.value));
      }
      if projected.final {
        sawFinal := true;
      }
      if projected.idle {
        sawIdle := true;
      }
      if projected.kind.Message? {
        sawOutput := true;
      }
      if projected.kind.Message? || projected.kind.FinalResult? {
        if projected.output != "" {
          terminalOutput := TerminalOutput.Append(terminalOutput, projected.output);
        }
      }
      err := if projected.fatal.Some? then Some(Fatal(projected.fatal.value)) else None;
    }

    method ScanNativeRecords(lines: seq<Line>, around: Surroundings) returns (err: Option<ScanError>)
      modifies this
      ensures (Fields(), err) == ScanFrom(old(Fields()), lines, 0, around)
    {
      var pos := 0;
      while true
        invariant 0 <= pos <= |lines|
        invariant ScanFrom(Fields(), lines, pos, around) == ScanFrom(old(Fields()), lines, 0, around)
        decreases |lines| - pos
      {
        if around.beforeLine(pos).Some? {
          return Some(ContextEnded(around.beforeLine(pos).value));
        }
        if pos == |lines| {
          break;
        }
        var line := lines[pos];
        if !line.Good? {
          return Some(DecodeFailed);
        }
        err := Emit(line.record, around.whileSending(pos));
        if err.Some? {
          return err;
        }
        pos := pos + 1;
      }
      if around.atEnd.Some? {
        return Some(ContextEnded(around.atEnd.value));
      }
      err := if around.readFailed then Some(DecodeFailed) else None;
    }
  }

  // ---------------------------------------------------------------- the outcome

  /** How the process ended: cleanly or not, and how a bad exit classifies. */
  datatype ProcessResult = ProcessResult(clean: bool, exitError: SdkError)

  /** What the adapter's database shows of the session. */
  datatype Proof = Proof(err: Option<SdkError>, completed: bool)

  /** Everything the decision reads besides the scan: context, process, recent log and database. */
  datatype Aftermath = Aftermath(
    context: Option<ContextError>,
    process: ProcessResult,
    logFailure: Option<SdkError>,
    proof: Proof)

  datatype Outcome = Outcome(status: RunStatus, err: Option<SdkError>)

  const MALFORMED := SdkError(MalformedEvent, "OpenCode emitted malformed structured output")
  const NO_FINAL := SdkError(RuntimeExit, "OpenCode finished without a final structured result")

  function ClassifyContext(err: ContextError): SdkError {
    match err
    case Canceled => SdkError(Cancellation, "OpenCode run was cancelled")
    case DeadlineExceeded => SdkError(Timeout, "OpenCode run timed out")
  }

  function ContextOutcome(err: ContextError, after: Aftermath): Outcome {
    var classified := if err.DeadlineExceeded? && after.logFailure.Some? then after.logFailure.value
      else ClassifyContext(err);
    Outcome(if classified.category.Cancellation? then Cancelled else Failed, Some(classified))
  }

  /** After a final result every scan error but a fatal record is only a warning. */
  predicate OnlyWarned(seen: Seen, err: Option<ScanError>) {
    err.Some? && seen.sawFinal && !err.value.Fatal?
  }

  function FinalResultOf(seen: Seen, scanErr: Option<ScanError>, after: Aftermath): Outcome {
    var err := if OnlyWarned(seen, scanErr) then None else scanErr;
    if err.Some? then
      match err.value
      case ContextEnded(c) => ContextOutcome(c, after)
      case Fatal(e) => Outcome(Failed, Some(e))
      case DecodeFailed => Outcome(Failed, Some(MALFORMED))
    else if after.context.Some? then ContextOutcome(after.context.value, after)
    else if seen.sawFinal then
      if !after.process.clean && !after.process.exitError.category.RuntimeExit?
      then Outcome(Failed, Some(after.process.exitError)) else Outcome(Completed, None)
    else if !after.process.clean then Outcome(Failed, Some(after.process.exitError))
    else if seen.sawIdle || seen.sawOutput then Outcome(Completed, None)
    else if after.proof.err.Some? then Outcome(Failed, after.proof.err)
    else if after.proof.completed then Outcome(Completed, None)
    else Outcome(Failed, Some(NO_FINAL))
  }

  function RunOutcome(lines: seq<Line>, around: Surroundings, after: Aftermath): Outcome {
    var (seen, err) := ScanFrom(NOTHING, lines, 0, around);
    FinalResultOf(seen, err, after)
  }

  // ---------------------------------------------------------------- what the outcome means

  /** In every run the status is completed exactly when there is no error. */
  lemma CompletedIffNoError(lines: seq<Line>, around: Surroundings, after: Aftermath)
    ensures RunOutcome(lines, around, after).status.Completed? <==> RunOutcome(lines, around, after).err.None?
    ensures RunOutcome(lines, around, after).status.Terminal()
  {
  }

  ghost predicate Uncancelled(around: Surroundings) {
    around.atEnd.None? && forall k :: around.beforeLine(k).None? && around.whileSending(k).None?
  }

  /** Only well-formed records, none of them fatal. */
  ghost predicate Clean(lines: seq<Line>) {
    forall i :: 0 <= i < |lines| ==> lines[i].Good? && Project(lines[i].record).fatal.None?
  }

  function FoldLines(seen: Seen, lines: seq<Line>): Seen
    requires forall i :: 0 <= i < |lines| ==> lines[i].Good?
    decreases |lines|
  {
    if lines == [] then seen else FoldLines(Absorb(seen, Project(lines[0].record)), lines[1..])
  }

  /** Without cancellation a clean stretch is simply folded. */
  lemma {:induction false} ScanFoldsCleanLines(seen: Seen, lines: seq<Line>, k: nat, j: nat, around: Surroundings)
    requires k <= j <= |lines| && Clean(lines[k..j]) && Uncancelled(around)
    ensures ScanFrom(seen, lines, k, around) == ScanFrom(FoldLines(seen, lines[k..j]), lines, j, around)
    decreases j - k
  {
    if k < j {
      assert lines[k..j][0] == lines[k];
      assert lines[k..j][1..] == lines[k + 1..j];
      ScanFoldsCleanLines(Absorb(seen, Project(lines[k].record)), lines, k + 1, j, around);
    }
  }

  predicate IsTerminalStepFinish(line: Line) {
    line.Good? && line.record.nativeType == "step_finish" && IsTerminalFinish(line.record.finishReason)
  }

  lemma FinalAfterOne(seen: Seen, line: Line)
    requires line.Good? && Project(line.record).fatal.None?
    ensures Absorb(seen, Project(line.record)).sawFinal <==> seen.sawFinal || IsTerminalStepFinish(line)
  {
  }

  /** In a clean stretch, the final flag is raised by a terminal `step_finish` and by nothing else. */
  lemma {:induction false} FinalIffTerminalStepFinish(seen: Seen, lines: seq<Line>)
    requires Clean(lines)
    ensures FoldLines(seen, lines).sawFinal <==> seen.sawFinal || HasFinal(lines)
    decreases |lines|
  {
    hide Project, Absorb, IsTerminalStepFinish;
    if lines != [] {
      FinalAfterOne(seen, lines[0]);
      FinalIffTerminalStepFinish(Absorb(seen, Project(lines[0].record)), lines[1..]);
      assert lines == [lines[0]] + lines[1..];
      if i :| 0 <= i < |lines| && IsTerminalStepFinish(lines[i]) {
        assert i > 0 ==> IsTerminalStepFinish(lines[1..][i - 1]);
      }
      if i :| 0 <= i < |lines[1..]| && IsTerminalStepFinish(lines[1..][i]) {
        assert IsTerminalStepFinish(lines[i + 1]);
      }
    }
  }

  ghost predicate HasFinal(lines: seq<Line>) {
    exists i :: 0 <= i < |lines| && IsTerminalStepFinish(lines[i])
  }

  lemma ScanStopsAt(lines: seq<Line>, rest: seq<Line>, around: Surroundings)
    requires Clean(lines) && Uncancelled(around)
    ensures ScanFrom(NOTHING, lines + rest, 0, around) ==
              ScanFrom(FoldLines(NOTHING, lines), lines + rest, |lines|, around)
  {
    assert (lines + rest)[0..|lines|] == lines;
    ScanFoldsCleanLines(NOTHING, lines + rest, 0, |lines|, around);
  }

  /**
   Once a terminal `step_finish` has been read, a blank or malformed line and whatever follows it make no
   difference: the outcome is that of the stream ending there.
   */
  lemma JunkAfterFinalIsHarmless(lines: seq<Line>, bad: Line, rest: seq<Line>, around: Surroundings, after: Aftermath)
    requires Clean(lines) && HasFinal(lines) && !bad.Good? && Uncancelled(around)
    ensures RunOutcome(lines + [bad] + rest, around, after) == RunOutcome(lines, around, after)
  {
    FinalIffTerminalStepFinish(NOTHING, lines);
    assert lines + [bad] + rest == lines + ([bad] + rest);
    ScanStopsAt(lines, [bad] + rest, around);
    assert lines + [] == lines;
    ScanStopsAt(lines, [], around);
  }

  /** Before a final result the same line fails the run as malformed, whatever the process did. */
  lemma JunkBeforeFinalFailsTheRun(lines: seq<Line>, bad: Line, rest: seq<Line>, around: Surroundings, after: Aftermath)
    requires Clean(lines) && !HasFinal(lines) && !bad.Good? && Uncancelled(around)
    ensures var r := RunOutcome(lines + [bad] + rest, around, after);
            r == Outcome(Failed, Some(MALFORMED)) && r.err.value.category == MalformedEvent
  {
    FinalIffTerminalStepFinish(NOTHING, lines);
    assert lines + [bad] + rest == lines + ([bad] + rest);
    ScanStopsAt(lines, [bad] + rest, around);
  }

  /** A fatal record that is reached fails the run with its own classification, even after a final result. */
  lemma FatalRecordDecides(lines: seq<Line>, fatal: Line, rest: seq<Line>, around: Surroundings, after: Aftermath)
    requires Clean(lines) && fatal.Good? && Project(fatal.record).fatal.Some? && Uncancelled(around)
    ensures RunOutcome(lines + [fatal] + rest, around, after) == Outcome(Failed, Some(fatal.record.fatalError))
  {
    assert lines + [fatal] + rest == lines + ([fatal] + rest);
    ScanStopsAt(lines, [fatal] + rest, around);
  }

  /** A clean stream with a final result completes unless the exit itself classifies as something worse. */
  lemma FinalDecidesCleanStream(lines: seq<Line>, around: Surroundings, after: Aftermath)
    requires Clean(lines) && HasFinal(lines) && Uncancelled(around) && after.context.None?
    ensures RunOutcome(lines, around, after).status.Completed?
       <==> after.process.clean || after.process.exitError.category.RuntimeExit?
  {
    FinalIffTerminalStepFinish(NOTHING, lines);
    assert lines + [] == lines;
    ScanStopsAt(lines, [], around);
  }

  /**
   A run whose context has ended never completes. A context error met while scanning is reported even
   when a final result had turned it into a warning.
   */
  lemma EndedContextNeverCompletes(lines: seq<Line>, around: Surroundings, after: Aftermath)
    requires after.context.Some?
    ensures !RunOutcome(lines, around, after).status.Completed?
    ensures var err := ScanFrom(NOTHING, lines, 0, around).1;
            err == Some(ContextEnded(after.context.value)) ==>
              RunOutcome(lines, around, after) == ContextOutcome(after.context.value, after)
  {
  }

  /** The accumulated output stays within its bound, whatever the process printed. */
  lemma {:induction false} OutputStaysBounded(seen: Seen, lines: seq<Line>, k: nat, around: Surroundings)
    requires k <= |lines| && |seen.terminalOutput| <= TerminalOutput.MAX_TERMINAL_OUTPUT_BYTES
    ensures |ScanFrom(seen, lines, k, around).0.terminalOutput| <= TerminalOutput.MAX_TERMINAL_OUTPUT_BYTES
    decreases |lines| - k
  {
    if k < |lines| && lines[k].Good? {
      OutputStaysBounded(Absorb(seen, Project(lines[k].record)), lines, k + 1, around);
    }
  }

  // ---------------------------------------------------------------- spelled out

  /** A context that has ended: cancelled, or failed with a timeout unless the recent log explains it. */
  ghost predicate EndsFor(context: ContextError, logFailure: Option<SdkError>, r: Outcome) {
    r.err.Some? &&
    match context
    case Canceled => r.status == Cancelled && r.err.value.category == Cancellation
    case DeadlineExceeded =>
      if logFailure.None? then r.status == Failed && r.err.value.category == Timeout
      else r.err == logFailure && r.status == if logFailure.value.category == Cancellation then Cancelled else Failed
  }

  /**
   What a run ends as when its context has ended: that, unless it read a fatal record first, or something
   malformed before any final result.
   */
  lemma EndedContextDecides(lines: seq<Line>, around: Surroundings, after: Aftermath, context: ContextError)
    requires after.context == Some(context)
    ensures var (seen, err) := ScanFrom(NOTHING, lines, 0, around);
            var r := RunOutcome(lines, around, after);
            match err
            case Some(Fatal(e)) => r == Outcome(Failed, Some(e))
            case Some(DecodeFailed) =>
              if seen.sawFinal then EndsFor(context, after.logFailure, r)
              else r.status == Failed && r.err.Some? && r.err.value.category == MalformedEvent
            case Some(ContextEnded(met)) => EndsFor(if seen.sawFinal then context else met, after.logFailure, r)
            case None => EndsFor(context, after.logFailure, r)
  {
    var (seen, err) := ScanFrom(NOTHING, lines, 0, around);
    assert RunOutcome(lines, around, after) == FinalResultOf(seen, err, after);
    hide ScanFrom, RunOutcome;
  }

  /** A context met as ended before any final result decides by itself. */
  lemma ContextMetEarlyDecides(lines: seq<Line>, around: Surroundings, after: Aftermath, context: ContextError)
    requires var (seen, err) := ScanFrom(NOTHING, lines, 0, around);
             err == Some(ContextEnded(context)) && !seen.sawFinal
    ensures EndsFor(context, after.logFailure, RunOutcome(lines, around, after))
  {
    hide ScanFrom;
  }

  lemma ContextMetFirstDecides(lines: seq<Line>, around: Surroundings, after: Aftermath, context: ContextError)
    requires around.beforeLine(0) == Some(context)
    ensures EndsFor(context, after.logFailure, RunOutcome(lines, around, after))
  {
    ContextMetEarlyDecides(lines, around, after, context);
  }

  /** A finish reason that ends the run. */
  predicate EndsTheRun(reason: string) {
    || reason == "" || reason == "stop" || reason == "end_turn" || reason == "end-turn" || reason == "stop_sequence"
    || reason == "stop-sequence" || reason == "complete" || reason == "completed"
  }

  /** A record that is a final result, one that reports the session as idle, and one with assistant output. */
  predicate IsFinal(line: Line) {
    line.Good? && line.record.nativeType == "step_finish" && EndsTheRun(line.record.finishReason)
  }

  predicate IsIdle(line: Line) {
    line.Good? && line.record.nativeType == "session.status" && line.record.statusIdle
  }

  predicate IsOutput(line: Line) {
    line.Good? && (line.record.nativeType == "text" || line.record.nativeType == "reasoning")
  }

  /** Well-formed records, none of which is an error. */
  ghost predicate Harmless(lines: seq<Line>) {
    forall i :: 0 <= i < |lines| ==> lines[i].Good? && lines[i].record.nativeType != "error"
  }

  ghost predicate Any(lines: seq<Line>, kind: Line -> bool) {
    exists i :: 0 <= i < |lines| && kind(lines[i])
  }

  lemma AnyOneMore(lines: seq<Line>, last: Line, kind: Line -> bool)
    ensures Any(lines + [last], kind) <==> Any(lines, kind) || kind(last)
  {
    var all := lines + [last];
    assert all[|lines|] == last;
    assert forall i :: 0 <= i < |lines| ==> all[i] == lines[i];
  }

  /** The texts the run's output is put together from, in order. */
  function TextsOf(lines: seq<Line>): seq<string> {
    if lines == [] then []
    else
      var n := |lines| - 1;
      TextsOf(lines[..n]) +
      if (IsOutput(lines[n]) || IsFinal(lines[n])) && lines[n].record.output != "" then [lines[n].record.output] else []
  }

  lemma RecordInWords(line: Line)
    requires line.Good?
    ensures var p := Project(line.record);
            && (p.fatal.Some? <==> line.record.nativeType == "error")
            && (p.fatal.Some? ==> p.fatal.value == line.record.fatalError)
            && (p.fatal.None? ==> (p.final <==> IsFinal(line)))
            && (p.idle <==> IsIdle(line))
            && (p.kind.Message? <==> IsOutput(line))
            && (p.kind.FinalResult? <==> IsFinal(line))
            && p.output == line.record.output
            && (IsTerminalStepFinish(line) <==> IsFinal(line))
  {
  }

  lemma {:induction false} FoldOneMore(seen: Seen, lines: seq<Line>, last: Line)
    requires (forall i :: 0 <= i < |lines| ==> lines[i].Good?) && last.Good?
    ensures FoldLines(seen, lines + [last]) == Absorb(FoldLines(seen, lines), Project(last.record))
    decreases |lines|
  {
    hide Project, Absorb;
    if lines == [] {
      assert lines + [last] == [last];
    } else {
      assert (lines + [last])[1..] == lines[1..] + [last];
      FoldOneMore(Absorb(seen, Project(lines[0].record)), lines[1..], last);
    }
  }

  lemma AbsorbInWords(seen: Seen, line: Line)
    requires line.Good? && line.record.nativeType != "error"
    ensures var next := Absorb(seen, Project(line.record));
            && (next.sawFinal <==> seen.sawFinal || IsFinal(line)) && (next.sawIdle <==> seen.sawIdle || IsIdle(line))
            && (next.sawOutput <==> seen.sawOutput || IsOutput(line))
            && next.terminalOutput ==
                 if (IsOutput(line) || IsFinal(line)) && line.record.output != ""
                 then TerminalOutput.Append(seen.terminalOutput, line.record.output) else seen.terminalOutput
  {
    RecordInWords(line);
    hide Project, IsFinal, IsIdle, IsOutput;
  }

  /** What a stretch of harmless records leaves seen. */
  lemma {:induction false} SeenInWords(lines: seq<Line>)
    requires Harmless(lines)
    ensures var seen := FoldLines(NOTHING, lines);
            && (seen.sawFinal <==> Any(lines, IsFinal)) && (seen.sawIdle <==> Any(lines, IsIdle))
            && (seen.sawOutput <==> Any(lines, IsOutput))
            && seen.terminalOutput == TerminalOutput.Fold(TextsOf(lines))
  {
    if lines != [] {
      var n := |lines| - 1;
      assert lines == lines[..n] + [lines[n]];
      hide Absorb, Project, IsFinal, IsIdle, IsOutput, TerminalOutput.Append, Any, FoldLines;
      SeenInWords(lines[..n]);
      FoldOneMore(NOTHING, lines[..n], lines[n]);
      AbsorbInWords(FoldLines(NOTHING, lines[..n]), lines[n]);
      AnyOneMore(lines[..n], lines[n], IsFinal);
      AnyOneMore(lines[..n], lines[n], IsIdle);
      AnyOneMore(lines[..n], lines[n], IsOutput);
      var texts := TextsOf(lines[..n]);
      assert (texts + [lines[n].record.output])[..|texts|] == texts;
      assert texts + [] == texts;
    }
  }

  lemma HarmlessIsClean(lines: seq<Line>)
    requires Harmless(lines)
    ensures Clean(lines)
  {
    forall i | 0 <= i < |lines|
      ensures lines[i].Good? && Project(lines[i].record).fatal.None?
    {
      RecordInWords(lines[i]);
    }
  }

  /**
   The whole ladder, for a stream of harmless records: a broken read before any final result, the context, a final
   result, the exit of the process, signs of life on a clean exit, and at last the database.
   */
  lemma HarmlessStreamEndsAs(lines: seq<Line>, around: Surroundings, after: Aftermath)
    requires Harmless(lines) && Uncancelled(around)
    ensures var r := RunOutcome(lines, around, after);
            if around.readFailed && !Any(lines, IsFinal) then
              r.status == Failed && r.err.Some? && r.err.value.category == MalformedEvent
            else if after.context.Some? then EndsFor(after.context.value, after.logFailure, r)
            else if Any(lines, IsFinal) then
              if after.process.clean || after.process.exitError.category == RuntimeExit then
                r == Outcome(Completed, None)
              else r == Outcome(Failed, Some(after.process.exitError))
            else if !after.process.clean then r == Outcome(Failed, Some(after.process.exitError))
            else if Any(lines, IsIdle) || Any(lines, IsOutput) then r == Outcome(Completed, None)
            else if after.proof.err.Some? then r == Outcome(Failed, after.proof.err)
            else if after.proof.completed then r == Outcome(Completed, None)
            else r.status == Failed && r.err.Some? && r.err.value.category == RuntimeExit
  {
    SeenInWords(lines);
    HarmlessScan(lines, around);
    LadderInWords(FoldLines(NOTHING, lines), around.readFailed, after);
    hide Any, Harmless, FoldLines, ScanFrom, FinalResultOf, EndsFor, Uncancelled;
  }

  lemma HarmlessScan(lines: seq<Line>, around: Surroundings)
    requires Harmless(lines) && Uncancelled(around)
    ensures ScanFrom(NOTHING, lines, 0, around) ==
              (FoldLines(NOTHING, lines), if around.readFailed then Some(DecodeFailed) else None)
  {
    HarmlessIsClean(lines);
    assert lines + [] == lines;
    ScanStopsAt(lines, [], around);
    hide Clean, Harmless, FoldLines;
  }

  lemma LadderInWords(seen: Seen, readFailed: bool, after: Aftermath)
    ensures var r := FinalResultOf(seen, if readFailed then Some(DecodeFailed) else None, after);
            if readFailed && !seen.sawFinal then
              r.status == Failed && r.err.Some? && r.err.value.category == MalformedEvent
            else if after.context.Some? then EndsFor(after.context.value, after.logFailure, r)
            else if seen.sawFinal then
              if after.process.clean || after.process.exitError.category == RuntimeExit then
                r == Outcome(Completed, None)
              else r == Outcome(Failed, Some(after.process.exitError))
            else if !after.process.clean then r == Outcome(Failed, Some(after.process.exitError))
            else if seen.sawIdle || seen.sawOutput then r == Outcome(Completed, None)
            else if after.proof.err.Some? then r == Outcome(Failed, after.proof.err)
            else if after.proof.completed then r == Outcome(Completed, None)
            else r.status == Failed && r.err.Some? && r.err.value.category == RuntimeExit
  {
  }

  /** The kind a record is reported as: six types have one each, the others go by what they mention. */
  lemma KindsInWords(record: NativeRecord)
    ensures var t, kind := record.nativeType, Project(record).kind;
            var mentions := (word: string) => Text.Contains(t, word);
            if t == "step_start" then kind == Progress
            else if t == "step_finish" then kind == if EndsTheRun(record.finishReason) then FinalResult else Progress
            else if t == "text" || t == "reasoning" then kind == Message
            else if t == "tool_use" then kind == Tool
            else if t == "error" then kind == FatalError
            else if mentions("permission") then kind == PermissionEvent
            else if mentions("question") || (mentions("status") && mentions("waiting")) then kind == Blocking
            else if mentions("usage") || mentions("token") || mentions("cost") then kind == UsageEvent
            else if mentions("artifact") || mentions("file") then kind == Artifact
            else if mentions("warn") then kind == Warning
            else kind == if mentions("session") then SessionEvent else NativeExtension
  {
    hide Text.Contains;
  }
}
