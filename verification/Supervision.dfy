/**
  Supervising one agent engine run. The engine, the supervisor, the context and the artifact files move
  independently: every read of the artifacts may find something else, and any enabled step may come next.
 */
module Supervision {
  import opened Text
  import opened Payloads
  import opened EngineRefs

  // ---- Test artifacts ----

  datatype TestResult = TestResult(runID: string, screenshotsReady: bool)

  /** What reading the result and the setup artifact returns at one moment. */
  datatype Artifacts = Artifacts(result: Option<TestResult>, setup: Option<string>)

  /** The run ids of the test artifacts that go out with the session's result. */
  datatype Attached = Attached(result: Option<string>, setup: Option<string>)

  const NOTHING_ATTACHED := Attached(None, None)

  /** Completing by source capture attaches every artifact it finds, of whatever run. */
  function AttachFound(found: Artifacts): Attached {
    Attached(if found.result.Some? then Some(found.result.value.runID) else None, found.setup)
  }

  datatype Readiness = Missing | Pending | Ready

  const TEST_RUN_EXECUTION := "test_run_execution"
  const TEST_RUN_SETUP := "test_run_setup"

  predicate ArtifactMatchesRun(expectedRunID: string, artifactRunID: string) {
    TrimSpace(expectedRunID) != "" && TrimSpace(artifactRunID) == TrimSpace(expectedRunID)
  }

  predicate CanCompleteFromTestArtifacts(p: Payload) {
    TrimSpace(p.automation) in {TEST_RUN_EXECUTION, TEST_RUN_SETUP} && TrimSpace(p.testRunID) != ""
  }

  function ReadinessOf(p: Payload, a: Artifacts): Readiness {
    if TrimSpace(p.automation) == TEST_RUN_EXECUTION then
      if a.result.None? || !ArtifactMatchesRun(p.testRunID, a.result.value.runID) then Missing
      else if !a.result.value.screenshotsReady then Pending
      else Ready
    else if TrimSpace(p.automation) == TEST_RUN_SETUP then
      if a.setup.Some? && ArtifactMatchesRun(p.testRunID, a.setup.value) then Ready else Missing
    else Missing
  }

  /** The run id of the artifact that completes the session, if one can be attached now. */
  function AttachableRun(p: Payload, a: Artifacts): Option<string> {
    if TrimSpace(p.automation) == TEST_RUN_EXECUTION then
      if a.result.None? || !ArtifactMatchesRun(p.testRunID, a.result.value.runID) then None
      else if a.result.value.screenshotsReady then Some(a.result.value.runID)
      else None
    else if TrimSpace(p.automation) == TEST_RUN_SETUP then
      if a.setup.Some? && ArtifactMatchesRun(p.testRunID, a.setup.value) then a.setup else None
    else None
  }

  /** Completing from artifacts attaches the one of the payload's kind. */
  function AttachRun(p: Payload, run: string): Attached {
    if TrimSpace(p.automation) == TEST_RUN_EXECUTION then Attached(Some(run), None) else Attached(None, Some(run))
  }

  /** An artifact of the payload's own run goes out with the result. */
  predicate HasMatching(p: Payload, attached: Attached) {
    || (attached.result.Some? && ArtifactMatchesRun(p.testRunID, attached.result.value))
    || (attached.setup.Some? && ArtifactMatchesRun(p.testRunID, attached.setup.value))
  }

  /** Readiness promises exactly what attaching needs, as long as the files stay as they are. */
  lemma ReadyMeansAttachable(p: Payload, a: Artifacts)
    ensures ReadinessOf(p, a) == Ready <==> AttachableRun(p, a).Some?
    ensures AttachableRun(p, a).Some? ==>
              CanCompleteFromTestArtifacts(p) && ArtifactMatchesRun(p.testRunID, AttachableRun(p, a).value)
  {
    hide Text.TrimSpace;
  }

  // ---- The machine ----

  datatype Error =
    | EngineFailed | ContextCanceled | StopTimeout
    | ScreenshotsUnavailable | ArtifactMissing | AttachFailed | SessionFailed

  datatype Update = Update(result: Execution, err: Option<Error>)

  datatype StopReason = ArtifactsReady | ContextDone

  datatype Pc =
    | Starting
    | Selecting                              // no artifact can complete the session
    | LoopTop                                // about to read the artifacts
    | LoopSelecting
    | Stopping(why: StopReason, fallback: Execution)
    | Judging(execution: Execution)          // the engine succeeded; first reading
    | Settling(execution: Execution)         // about to read again while screenshots arrive
    | SettleSelecting(execution: Execution)
    | FinalCheck(execution: Execution)       // second reading
    | Executed(execution: Execution, completed: bool, err: Option<Error>)
    | Attaching(execution: Execution)
    | Completing(execution: Execution)       // completion by source capture
    | Done(execution: Execution, fromArtifacts: bool, attached: Attached, err: Option<Error>)

  datatype Engine = NotStarted | Running | Reporting(update: Update) | Reported

  /** `published` is every value merged into `refs`; `received` is the adapter's result once the supervisor has it. */
  datatype State = State(
    pc: Pc, engine: Engine, channel: Option<Update>, refs: Execution, published: seq<Execution>,
    received: Option<Execution>, artifacts: Artifacts, ctxDone: bool)

  /** `captured` says that capturing the source did not fail. */
  datatype Step =
    | Disturb(artifacts: Artifacts, cancel: bool)
    | Publish(update: Execution)
    | FinishEngine(result: Execution, err: Option<Error>)
    | SendDone
    | Begin
    | Read
    | NoticeContext
    | Tick
    | ReceiveDone
    | TimeOut
    | AfterEngine
    | Attach
    | Complete(captured: bool, found: Artifacts, err: Option<Error>)

  function Initial(p: Payload): Execution {
    NOTHING.(agentEngine := p.agentEngine)
  }

  predicate CoversAll(e: Execution, published: seq<Execution>) {
    forall i :: 0 <= i < |published| ==> Covers(e, published[i])
  }

  /** An adapter only publishes, and only returns, values that cover what it published before. */
  predicate Enabled(p: Payload, s: State, step: Step) {
    match step
    case Disturb(_, _) => true
    case Publish(update) => s.engine == Running && CoversAll(update, s.published)
    case FinishEngine(result, err) => s.engine == Running && CoversAll(result, s.published)
    case SendDone => s.engine.Reporting?
    case Begin => s.pc == Starting
    case Read => s.pc == LoopTop || s.pc.Judging? || s.pc.Settling? || s.pc.FinalCheck?
    case NoticeContext => s.ctxDone && (s.pc == Selecting || s.pc == LoopSelecting || s.pc.SettleSelecting?)
    case Tick => s.pc == LoopSelecting || s.pc.SettleSelecting?
    case ReceiveDone => s.channel.Some? && (s.pc == Selecting || s.pc == LoopSelecting || s.pc.Stopping?)
    case TimeOut => s.pc.Stopping? || s.pc.SettleSelecting?
    case AfterEngine => s.pc.Executed?
    case Attach => s.pc.Attaching?
    case Complete(captured, _, err) => s.pc.Completing? && (!captured ==> err.Some?)
  }

  predicate IsFailure(err: Option<Error>) {
    err.Some? && err != Some(ContextCanceled)
  }

  /** The end of waiting for a stopped engine. */
  function Stopped(p: Payload, s: State, update: Update): Pc
    requires s.pc.Stopping?
  {
    var execution := if CanCompleteFromTestArtifacts(p) then Merge(s.refs, update.result) else update.result;
    if IsFailure(update.err) then Executed(execution, false, update.err)
    else if s.pc.why == ArtifactsReady then Executed(execution, true, None)
    else Executed(execution, false, Some(ContextCanceled))
  }

  function AfterRead(p: Payload, s: State): Pc
    requires s.pc == LoopTop || s.pc.Judging? || s.pc.Settling? || s.pc.FinalCheck?
  {
    var readiness := ReadinessOf(p, s.artifacts);
    match s.pc
    case LoopTop => if readiness == Ready then Stopping(ArtifactsReady, s.refs) else LoopSelecting
    case Judging(e) => if readiness == Pending then Settling(e) else FinalCheck(e)
    case Settling(e) =>
      (match readiness
       case Ready => Executed(e, true, None)
       case Missing => Executed(e, false, Some(ScreenshotsUnavailable))
       case Pending => SettleSelecting(e))
    case FinalCheck(e) =>
      if readiness == Ready then Executed(e, true, None) else Executed(e, false, Some(ArtifactMissing))
  }

  function AfterReceive(p: Payload, s: State): Pc
    requires s.channel.Some? && (s.pc == Selecting || s.pc == LoopSelecting || s.pc.Stopping?)
  {
    var update := s.channel.value;
    match s.pc
    case Stopping(_, fallback) => Stopped(p, s, Update(Merge(fallback, update.result), update.err))
    case Selecting => Executed(Merge(s.refs, update.result), false, update.err)
    case LoopSelecting =>
      if update.err.Some? then Executed(Merge(s.refs, update.result), false, update.err)
      else Judging(Merge(s.refs, update.result))
  }

  function AfterExecution(p: Payload, s: State): Pc
    requires s.pc.Executed?
  {
    if s.pc.err.Some? then
      if ReadinessOf(p, s.artifacts) == Ready then Attaching(s.pc.execution)
      else Done(s.pc.execution, false, NOTHING_ATTACHED, s.pc.err)
    else if s.pc.completed then Attaching(s.pc.execution)
    else Completing(s.pc.execution)
  }

  function Apply(p: Payload, s: State, step: Step): State
    requires Enabled(p, s, step)
  {
    match step
    case Disturb(artifacts, cancel) => s.(artifacts := artifacts, ctxDone := s.ctxDone || cancel)
    case Publish(update) => s.(refs := Merge(s.refs, update), published := s.published + [update])
    case FinishEngine(result, err) =>
      s.(refs := Merge(s.refs, result), published := s.published + [result], engine := Reporting(Update(result, err)))
    case SendDone => s.(channel := Some(s.engine.update), engine := Reported)
    case Begin =>
      if ReadinessOf(p, s.artifacts) == Ready then s.(pc := Attaching(Initial(p)))
      else s.(pc := if CanCompleteFromTestArtifacts(p) then LoopTop else Selecting, engine := Running)
    case Read => s.(pc := AfterRead(p, s))
    case NoticeContext =>
      if s.pc.SettleSelecting? then s.(pc := Executed(s.pc.execution, false, Some(ContextCanceled)))
      else s.(pc := Stopping(ContextDone, s.refs))
    case Tick => s.(pc := if s.pc.SettleSelecting? then Settling(s.pc.execution) else LoopTop)
    case ReceiveDone => s.(pc := AfterReceive(p, s), channel := None, received := Some(s.channel.value.result))
    case TimeOut =>
      if s.pc.SettleSelecting? then s.(pc := Executed(s.pc.execution, false, Some(ScreenshotsUnavailable)))
      else s.(pc := Stopped(p, s, Update(s.pc.fallback, Some(StopTimeout))))
    case AfterEngine => s.(pc := AfterExecution(p, s))
    case Attach =>
      var run := AttachableRun(p, s.artifacts);
      if run.Some? then s.(pc := Done(s.pc.execution, true, AttachRun(p, run.value), None))
      else s.(pc := Done(s.pc.execution, true, NOTHING_ATTACHED, Some(AttachFailed)))
    case Complete(captured, found, err) =>
      s.(pc := Done(s.pc.execution, false, if captured then AttachFound(found) else NOTHING_ATTACHED, err))
  }

  predicate IsInitial(p: Payload, s: State) {
    && s.pc == Starting && s.engine == NotStarted && s.channel == None && s.received == None
    && s.refs == Initial(p) && s.published == []
  }

  ghost predicate IsRun(p: Payload, states: seq<State>, steps: seq<Step>) {
    && |states| == |steps| + 1 && IsInitial(p, states[0])
    && forall i | 0 <= i < |steps| ::
         Enabled(p, states[i], steps[i]) && states[i + 1] == Apply(p, states[i], steps[i])
  }

  ghost predicate Reachable(p: Payload, s: State) {
    exists states, steps :: IsRun(p, states, steps) && states[|states| - 1] == s
  }

  // ---- Completion ----

  /** Which program points a session can reach, and what a nil error means there. */
  predicate CompletionInv(p: Payload, s: State) {
    if CanCompleteFromTestArtifacts(p) then
      && s.pc != Selecting && !s.pc.Completing?
      && (s.pc.Executed? ==> s.pc.completed || s.pc.err.Some?)
      && (s.pc.Done? && s.pc.err.None? ==> s.pc.fromArtifacts && HasMatching(p, s.pc.attached))
    else
      && (s.pc == Starting || s.pc == Selecting || s.pc.Completing? || s.pc.Executed? || s.pc.Done? || s.pc.Stopping?)
      && (s.pc.Stopping? ==> s.pc.why == ContextDone)
      && (s.pc.Executed? ==> !s.pc.completed)
      && (s.pc.Done? ==> !s.pc.fromArtifacts)
  }

  lemma StepKeepsCompletionInv(p: Payload, s: State, step: Step)
    requires CompletionInv(p, s) && Enabled(p, s, step)
    ensures CompletionInv(p, Apply(p, s, step))
  {
    hide ReadinessOf, AttachableRun, Merge, CanCompleteFromTestArtifacts, ArtifactMatchesRun;
    ReadyMeansAttachable(p, s.artifacts);
  }

  lemma {:induction false} RunKeepsCompletionInv(p: Payload, states: seq<State>, steps: seq<Step>, n: nat)
    requires IsRun(p, states, steps) && n < |states|
    ensures CompletionInv(p, states[n])
  {
    hide Apply, Enabled, CanCompleteFromTestArtifacts, ArtifactMatchesRun;
    if n > 0 {
      hide CompletionInv;
      RunKeepsCompletionInv(p, states, steps, n - 1);
      StepKeepsCompletionInv(p, states[n - 1], steps[n - 1]);
    }
  }

  lemma ReachableCompletion(p: Payload, s: State)
    requires Reachable(p, s)
    ensures CompletionInv(p, s)
  {
    var states, steps :| IsRun(p, states, steps) && states[|states| - 1] == s;
    RunKeepsCompletionInv(p, states, steps, |states| - 1);
  }

  /** Test automation with a run id: the supervisor loop never reports "not completed, no error". */
  lemma SupervisorLoopNeverReturnsSilently(p: Payload, s: State)
    requires CanCompleteFromTestArtifacts(p) && Reachable(p, s) && s.pc.Executed?
    ensures s.pc.completed || s.pc.err.Some?
  {
    ReachableCompletion(p, s);
  }

  ghost predicate NilErrorMeansAttached(p: Payload) {
    forall s :: Reachable(p, s) && s.pc.Done? && s.pc.err.None? ==>
      HasMatching(p, s.pc.attached)
  }

  lemma StartIsReachable(p: Payload, s: State)
    requires IsInitial(p, s)
    ensures Reachable(p, s)
  {
    hide Enabled, Apply, IsInitial;
    assert IsRun(p, [s], []);
  }

  lemma StepIsReachable(p: Payload, s: State, step: Step)
    requires Reachable(p, s) && Enabled(p, s, step)
    ensures Reachable(p, Apply(p, s, step))
  {
    hide Enabled, Apply, IsInitial;
    var states, steps :| IsRun(p, states, steps) && states[|states| - 1] == s;
    var longer, more := states + [Apply(p, s, step)], steps + [step];
    assert IsRun(p, longer, more);
    assert longer[|longer| - 1] == Apply(p, s, step);
  }

  /** A session that completes by source capture and attaches whatever it finds then, of whatever run. */
  lemma CapturedSession(p: Payload, found: Artifacts) returns (s: State)
    requires !CanCompleteFromTestArtifacts(p)
    ensures Reachable(p, s) && s.pc == Done(Initial(p), false, AttachFound(found), None)
  {
    hide Reachable, ReadinessOf, AttachableRun, CanCompleteFromTestArtifacts;
    var e, nothing := Initial(p), Artifacts(None, None);
    ReadyMeansAttachable(p, nothing);
    s := State(Starting, NotStarted, None, e, [], None, nothing, false);
    StartIsReachable(p, s);
    StepIsReachable(p, s, Begin);
    s := Apply(p, s, Begin);
    StepIsReachable(p, s, FinishEngine(e, None));
    s := Apply(p, s, FinishEngine(e, None));
    StepIsReachable(p, s, SendDone);
    s := Apply(p, s, SendDone);
    StepIsReachable(p, s, ReceiveDone);
    s := Apply(p, s, ReceiveDone);
    StepIsReachable(p, s, AfterEngine);
    s := Apply(p, s, AfterEngine);
    StepIsReachable(p, s, Complete(true, found, None));
    s := Apply(p, s, Complete(true, found, None));
  }

  /**
    In every interleaving a nil error means that an artifact of this very run was attached, if and only if the
    payload is a test automation with a non-empty run id.
   */
  lemma NilErrorMeansAttachedExactly(p: Payload)
    ensures NilErrorMeansAttached(p) <==> CanCompleteFromTestArtifacts(p)
  {
    if CanCompleteFromTestArtifacts(p) {
      forall s | Reachable(p, s) && s.pc.Done? && s.pc.err.None?
        ensures HasMatching(p, s.pc.attached)
      {
        ReachableCompletion(p, s);
      }
    } else {
      var s := CapturedSession(p, Artifacts(None, None));
    }
  }

  /**
    An accepted issue working copy payload never completes from artifacts: its sessions end by source capture or
    with an error.
   */
  lemma WorkingCopyNeverCompletesFromArtifacts(p: Payload, s: State)
    requires AcceptedWorkingCopy(p) && Reachable(p, s)
    ensures !s.pc.Attaching? && (s.pc.Executed? ==> !s.pc.completed) && (s.pc.Done? ==> !s.pc.fromArtifacts)
    ensures forall a :: ReadinessOf(p, a) == Missing
  {
    NothingTrims();
    ReachableCompletion(p, s);
  }

  // ---- References ----

  function ExecutionOf(pc: Pc): Option<Execution> {
    match pc
    case Judging(e) => Some(e)
    case Settling(e) => Some(e)
    case SettleSelecting(e) => Some(e)
    case FinalCheck(e) => Some(e)
    case Executed(e, _, _) => Some(e)
    case Attaching(e) => Some(e)
    case Completing(e) => Some(e)
    case Done(e, _, _, _) => Some(e)
    case _ => None
  }

  /** The references at some earlier moment. */
  ghost predicate WasCurrent(p: Payload, published: seq<Execution>, e: Execution) {
    exists k :: 0 <= k <= |published| && e == MergeAll(Initial(p), published[..k])
  }

  ghost predicate RefsInv(p: Payload, s: State) {
    && s.refs == MergeAll(Initial(p), s.published)
    && (s.pc.Stopping? ==> WasCurrent(p, s.published, s.pc.fallback))
    && (s.engine.Reporting? ==> CoversAll(s.engine.update.result, s.published))
    && (s.channel.Some? ==> s.engine == Reported && CoversAll(s.channel.value.result, s.published))
    && (s.pc == Starting ==> s.engine == NotStarted)
    && (s.received.Some? ==> ExecutionOf(s.pc) == Some(Merge(Initial(p), s.received.value)))
  }

  lemma FinalDecides(p: Payload, published: seq<Execution>, e: Execution, final: Execution)
    requires WasCurrent(p, published, e) && CoversAll(final, published)
    ensures Merge(e, final) == Merge(Initial(p), final)
  {
    var k :| 0 <= k <= |published| && e == MergeAll(Initial(p), published[..k]);
    CoveringValueDecides(Initial(p), published[..k], final);
  }

  lemma NowIsCurrent(p: Payload, published: seq<Execution>)
    ensures WasCurrent(p, published, MergeAll(Initial(p), published))
  {
    assert published[..|published|] == published;
  }

  lemma WasCurrentStays(p: Payload, published: seq<Execution>, e: Execution, update: Execution)
    requires WasCurrent(p, published, e)
    ensures WasCurrent(p, published + [update], e)
  {
    var k :| 0 <= k <= |published| && e == MergeAll(Initial(p), published[..k]);
    assert (published + [update])[..k] == published[..k];
  }

  lemma EngineKeepsRefsInv(p: Payload, s: State, step: Step)
    requires RefsInv(p, s) && Enabled(p, s, step) && (step.Publish? || step.FinishEngine? || step.SendDone?)
    ensures RefsInv(p, Apply(p, s, step))
  {
    hide Merge, WasCurrent, Covers, Initial, MergeAll, CoversAll;
    if !step.SendDone? {
      var update := if step.Publish? then step.update else step.result;
      MoreIsMerged(p, s.published, update);
      if s.pc.Stopping? {
        WasCurrentStays(p, s.published, s.pc.fallback, update);
      }
    }
  }

  lemma MoreIsMerged(p: Payload, published: seq<Execution>, update: Execution)
    requires CoversAll(update, published)
    ensures MergeAll(Initial(p), published + [update]) == Merge(MergeAll(Initial(p), published), update)
    ensures CoversAll(update, published + [update])
  {
    hide Merge, Covers, Initial;
    CoversItself(update);
    assert (published + [update])[..|published|] == published;
  }

  lemma ReceiveKeepsRefsInv(p: Payload, s: State)
    requires RefsInv(p, s) && Enabled(p, s, ReceiveDone)
    ensures RefsInv(p, Apply(p, s, ReceiveDone))
  {
    hide Merge, WasCurrent, CanCompleteFromTestArtifacts;
    var final := s.channel.value.result;
    NowIsCurrent(p, s.published);
    FinalDecides(p, s.published, s.refs, final);
    if s.pc.Stopping? {
      FinalDecides(p, s.published, s.pc.fallback, final);
      FinalIsIdempotent(p, s.published, s.refs, final);
    }
  }

  lemma FinalIsIdempotent(p: Payload, published: seq<Execution>, e: Execution, final: Execution)
    requires WasCurrent(p, published, e) && CoversAll(final, published)
    ensures Merge(e, Merge(Initial(p), final)) == Merge(Initial(p), final)
  {
    hide WasCurrent;
    FinalDecides(p, published, e, final);
    CurrentNamesEngine(p, published, e);
  }

  /** The engine name given at the start is only ever replaced by another name. */
  lemma CurrentNamesEngine(p: Payload, published: seq<Execution>, e: Execution)
    requires WasCurrent(p, published, e)
    ensures p.agentEngine != "" ==> e.agentEngine != ""
  {
    var k :| 0 <= k <= |published| && e == MergeAll(Initial(p), published[..k]);
    MergeAllNamesEngine(p, published[..k]);
  }

  lemma MergeAllNamesEngine(p: Payload, published: seq<Execution>)
    ensures p.agentEngine != "" ==> MergeAll(Initial(p), published).agentEngine != ""
  {
  }

  lemma StepKeepsRefsInv(p: Payload, s: State, step: Step)
    requires RefsInv(p, s) && Enabled(p, s, step)
    ensures RefsInv(p, Apply(p, s, step))
  {
    match step {
      case Publish(_) => EngineKeepsRefsInv(p, s, step);
      case FinishEngine(_, _) => EngineKeepsRefsInv(p, s, step);
      case SendDone => EngineKeepsRefsInv(p, s, step);
      case ReceiveDone => ReceiveKeepsRefsInv(p, s);
      case _ => SupervisorKeepsRefsInv(p, s, step);
    }
  }

  lemma SupervisorKeepsRefsInv(p: Payload, s: State, step: Step)
    requires RefsInv(p, s) && Enabled(p, s, step)
    requires !step.Publish? && !step.FinishEngine? && !step.SendDone? && !step.ReceiveDone?
    ensures RefsInv(p, Apply(p, s, step))
  {
    hide Merge, WasCurrent, ReadinessOf, AttachableRun, CanCompleteFromTestArtifacts, CoversAll, Initial, MergeAll;
    hide AttachFound, AttachRun, NOTHING_ATTACHED;
    NowIsCurrent(p, s.published);
  }

  lemma {:induction false} RunKeepsRefsInv(p: Payload, states: seq<State>, steps: seq<Step>, n: nat)
    requires IsRun(p, states, steps) && n < |states|
    ensures RefsInv(p, states[n])
  {
    if n > 0 {
      hide Apply, Enabled, RefsInv;
      RunKeepsRefsInv(p, states, steps, n - 1);
      StepKeepsRefsInv(p, states[n - 1], steps[n - 1]);
    }
  }

  /**
    Whatever updates were published when, every path on which the supervisor receives the adapter's result ends with
    the same references: that result over the engine name the session started with.
   */
  lemma ReceivedResultDecidesReferences(p: Payload, s: State)
    requires Reachable(p, s) && s.received.Some?
    ensures ExecutionOf(s.pc) == Some(Merge(Initial(p), s.received.value))
  {
    var states, steps :| IsRun(p, states, steps) && states[|states| - 1] == s;
    RunKeepsRefsInv(p, states, steps, |states| - 1);
  }
}
