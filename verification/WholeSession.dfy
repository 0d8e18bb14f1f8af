/** One issue working copy session from the payload the server sent to the report it gets back. */
module WholeSession {
  import opened Text
  import Supervision
  import Sessions
  import opened Payloads
  import opened WorkingCopy

  /** Completing by source capture is what the worker does with the working copy in this session, and its outcome. */
  ghost predicate CompletesAs(storageID: string, t: Sessions.Turn, steps: seq<Supervision.Step>) {
    forall k | 0 <= k < |steps| && steps[k].Complete? ::
      && (steps[k].captured <==> Sessions.Captures(storageID, t) && Sessions.CapturedBy(t).1.ok)
      && (steps[k].err.None? <==> Sessions.RunTurn(storageID, t).error.None?)
  }

  predicate Succeeded(s: Supervision.State) {
    s.pc.Done? && s.pc.err.None?
  }

  /** The step completes the source capture without an error and attaches what it finds. */
  predicate CompletesWell(step: Supervision.Step, next: Supervision.State) {
    && step.Complete? && step.captured && step.err.None?
    && next.pc.Done? && next.pc.attached == Supervision.AttachFound(step.found)
  }

  /** Without test automation, only a completion by source capture makes a session succeed. */
  lemma StepSucceeds(p: Payload, s: Supervision.State, step: Supervision.Step)
    requires Supervision.CompletionInv(p, s) && !Supervision.CanCompleteFromTestArtifacts(p)
    requires Supervision.Enabled(p, s, step) && Succeeded(Supervision.Apply(p, s, step))
    ensures var next := Supervision.Apply(p, s, step);
            (Succeeded(s) && next.pc == s.pc) || CompletesWell(step, next)
  {
    hide Supervision.ReadinessOf, Supervision.AttachableRun, Supervision.CanCompleteFromTestArtifacts;
    hide Supervision.ArtifactMatchesRun;
  }

  lemma {:induction false} SuccessIsCompletion(
    p: Payload, states: seq<Supervision.State>, steps: seq<Supervision.Step>, n: nat) returns (k: nat)
    requires Supervision.IsRun(p, states, steps) && n < |states| && !Supervision.CanCompleteFromTestArtifacts(p)
    requires Succeeded(states[n])
    ensures k < n && steps[k].Complete? && steps[k].captured && steps[k].err.None?
    ensures states[n].pc.attached == Supervision.AttachFound(steps[k].found)
  {
    StartHasNotSucceeded(p, states, steps);
    hide Succeeded, Supervision.CompletionInv, Supervision.CanCompleteFromTestArtifacts;
    hide Supervision.Apply, Supervision.Enabled, Supervision.IsInitial;
    Supervision.RunKeepsCompletionInv(p, states, steps, n - 1);
    StepSucceeds(p, states[n - 1], steps[n - 1]);
    if Succeeded(states[n - 1]) {
      k := SuccessIsCompletion(p, states, steps, n - 1);
    } else {
      k := n - 1;
    }
  }

  lemma StartHasNotSucceeded(p: Payload, states: seq<Supervision.State>, steps: seq<Supervision.Step>)
    requires Supervision.IsRun(p, states, steps)
    ensures !Succeeded(states[0])
  {
  }

  /**
    Whatever raw payload the server sent: when it is accepted as an issue working copy session and that session ends
    without an error, in any interleaving of engine, supervisor and files, then it did not complete from artifacts, the
    working copy is reported clean, and, when nobody meddles before the inspection, the captured commit is empty or
    the reported head.
   */
  lemma SilentSuccessIsClean(
    raw: Payload, workdirIsDirectory: bool, skillsAccepted: bool, storageID: string, t: Sessions.Turn,
    states: seq<Supervision.State>, steps: seq<Supervision.Step>)
    requires var r := Parse(raw, workdirIsDirectory, skillsAccepted);
             r.Parsed? && UsesIssueWorkingCopy(r.payload) && t.payload == r.payload
             && Supervision.IsRun(r.payload, states, steps)
    requires CompletesAs(storageID, t, steps)
    requires Succeeded(states[|states| - 1])
    ensures !states[|states| - 1].pc.fromArtifacts
    ensures Sessions.Report(storageID, t).state == Clean
    ensures t.meddling == None ==> Sessions.RunTurn(storageID, t).source in {"", Sessions.Report(storageID, t).head}
  {
    hide Parse, Sessions.Report, Sessions.RunTurn, Supervision.IsRun, Supervision.ReadinessOf;
    var p := t.payload;
    ParseIsIdempotent(raw, workdirIsDirectory, skillsAccepted);
    RunIsReachable(p, states, steps);
    Supervision.WorkingCopyNeverCompletesFromArtifacts(p, states[|states| - 1]);
    NoAutomationNoArtifacts(p);
    var k := SuccessIsCompletion(p, states, steps, |states| - 1);
    Sessions.SuccessIsCleanAndSourceIsHead(storageID, t);
    ReportOfTurn(storageID, t);
  }

  lemma RunIsReachable(p: Payload, states: seq<Supervision.State>, steps: seq<Supervision.Step>)
    requires Supervision.IsRun(p, states, steps)
    ensures |states| == |steps| + 1 && Supervision.Reachable(p, states[|states| - 1])
  {
    hide Supervision.Apply, Supervision.Enabled, Supervision.IsInitial;
  }

  lemma NoAutomationNoArtifacts(p: Payload)
    requires p.automation == ""
    ensures !Supervision.CanCompleteFromTestArtifacts(p)
  {
    NothingTrims();
  }

  lemma ReportOfTurn(storageID: string, t: Sessions.Turn)
    ensures Sessions.RunTurn(storageID, t).report == Sessions.Report(storageID, t)
  {
    hide Sessions.Report, Sessions.PreparedBy, Sessions.CapturedBy;
  }
}
