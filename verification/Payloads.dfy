/** The agent session payload and the checks that accept it. */
module Payloads {
  import opened Text

  const CODEX := "codex"
  const CLAUDE_CODE := "claude_code"
  const PI := "pi"
  const DETACHED := "detached"
  const ISSUE_WORKING_COPY := "issue_working_copy"

  datatype Option<+T> = None | Some(value: T)

  /** The decoded payload members that the checks, the working copy and the supervisor read. */
  datatype Payload = Payload(
    agentEngine: string, legacyProvider: string, workdir: string, prompt: string,
    issueID: string, sessionID: string, projectID: string,
    automation: string, sourceCapture: Option<bool>, testRunID: string,
    branch: string, sourceCommitSHA: string, executionMode: string,
    generation: int, expectedHeadSHA: string, initialize: bool,
    repositoryURL: string, defaultBranch: string)

  datatype ParseResult = Parsed(payload: Payload) | Rejected(reason: string)

  predicate UsesIssueWorkingCopy(p: Payload) {
    p.executionMode == ISSUE_WORKING_COPY
  }

  predicate SourceCaptureEnabled(p: Payload) {
    p.sourceCapture != Some(false)
  }

  function NormalizeAgentEngine(value: string): Option<string> {
    var engine := Lower(TrimSpace(value));
    if engine == CODEX || engine == CLAUDE_CODE || engine == PI then Some(engine) else None
  }

  function Trimmed(p: Payload): Payload {
    p.(workdir := TrimSpace(p.workdir), prompt := TrimSpace(p.prompt),
       issueID := TrimSpace(p.issueID), sessionID := TrimSpace(p.sessionID), projectID := TrimSpace(p.projectID),
       automation := TrimSpace(p.automation), testRunID := TrimSpace(p.testRunID), branch := TrimSpace(p.branch),
       sourceCommitSHA := TrimSpace(p.sourceCommitSHA), executionMode := Lower(TrimSpace(p.executionMode)),
       expectedHeadSHA := TrimSpace(p.expectedHeadSHA), repositoryURL := TrimSpace(p.repositoryURL),
       defaultBranch := TrimSpace(p.defaultBranch))
  }

  function ResolveEngine(p: Payload): Option<string> {
    if TrimSpace(p.agentEngine) != "" then NormalizeAgentEngine(p.agentEngine)
    else
      var provider := Lower(TrimSpace(p.legacyProvider));
      if provider == "" || provider == CODEX then Some(CODEX) else None
  }

  /** The first complaint about an issue working copy payload, in the order the worker checks. */
  function WorkingCopyComplaint(p: Payload): string {
    if p.workdir != "" then "worker-managed workdir"
    else if p.automation != "" then "automation"
    else if p.sourceCommitSHA != "" then "sourceCommitSha"
    else if !SourceCaptureEnabled(p) then "source capture"
    else if p.issueID == "" || p.sessionID == "" || p.projectID == "" || p.branch == "" then "identity"
    else if !p.initialize && p.expectedHeadSHA == "" then "expectedHeadSha"
    else ""
  }

  /**
    `workdirIsDirectory` is the answer of the file system about the payload's own workdir,
    `skillsAccepted` the verdict of skill bundle normalization.
   */
  function Parse(raw: Payload, workdirIsDirectory: bool, skillsAccepted: bool): ParseResult {
    var engine := ResolveEngine(raw);
    if engine.None? then Rejected("agentEngine")
    else
      var trimmed := Trimmed(raw).(agentEngine := engine.value);
      var p := if trimmed.executionMode == "" then trimmed.(executionMode := DETACHED) else trimmed;
      if p.executionMode != DETACHED && p.executionMode != ISSUE_WORKING_COPY then Rejected("executionMode")
      else if UsesIssueWorkingCopy(p) && WorkingCopyComplaint(p) != "" then Rejected(WorkingCopyComplaint(p))
      else if p.prompt == "" then Rejected("prompt")
      else if p.workdir != "" && !UsesIssueWorkingCopy(p) && !workdirIsDirectory then Rejected("workdir")
      else if p.workdir == "" && p.repositoryURL == "" then Rejected("repository")
      else if !skillsAccepted then Rejected("skills")
      else Parsed(p)
  }

  /** What the rest of the worker may rely on for an accepted issue working copy payload. */
  ghost predicate AcceptedWorkingCopy(p: Payload) {
    && UsesIssueWorkingCopy(p)
    && p.workdir == "" && p.automation == "" && p.sourceCommitSHA == "" && SourceCaptureEnabled(p)
    && p.issueID != "" && p.sessionID != "" && p.projectID != "" && p.branch != ""
    && (p.initialize || p.expectedHeadSHA != "")
    && p.agentEngine in {CODEX, CLAUDE_CODE, PI}
    && p.prompt != "" && p.repositoryURL != ""
  }

  lemma LowerTrimIsStable(s: string)
    ensures var t := Lower(TrimSpace(s)); TrimSpace(t) == t && Lower(t) == t
  {
    LowerIsStable(TrimSpace(s));
  }

  lemma TrimmedIsStable(p: Payload)
    ensures Trimmed(Trimmed(p)) == Trimmed(p)
  {
    hide Text.TrimSpace, Text.Lower;
    TrimSpaceIsStable(p.workdir);
    TrimSpaceIsStable(p.prompt);
    TrimSpaceIsStable(p.issueID);
    TrimSpaceIsStable(p.sessionID);
    TrimSpaceIsStable(p.projectID);
    TrimSpaceIsStable(p.automation);
    TrimSpaceIsStable(p.testRunID);
    TrimSpaceIsStable(p.branch);
    TrimSpaceIsStable(p.sourceCommitSHA);
    TrimSpaceIsStable(p.expectedHeadSHA);
    TrimSpaceIsStable(p.repositoryURL);
    TrimSpaceIsStable(p.defaultBranch);
    LowerTrimIsStable(p.executionMode);
  }

  lemma EngineNamesAreStable(name: string)
    requires name == CODEX || name == CLAUDE_CODE || name == PI || name == DETACHED
    ensures TrimSpace(name) == name && Lower(name) == name
  {
    assert !IsSpace(name[0]) && !IsSpace(name[|name| - 1]);
    LowerNames(name);
    hide *;
    TrimFixed(name, IsSpace);
  }

  lemma LowerNames(name: string)
    requires name == CODEX || name == CLAUDE_CODE || name == PI || name == DETACHED
    ensures Lower(name) == name
  {
    forall i | 0 <= i < |name| ensures LowerChar(name[i]) == name[i] {
      assert IsLower(name[i]) || name[i] == '_';
    }
  }

  lemma EngineIsStable(raw: Payload)
    requires ResolveEngine(raw).Some?
    ensures var engine := ResolveEngine(raw).value;
            && engine in {CODEX, CLAUDE_CODE, PI} && TrimSpace(engine) == engine
            && NormalizeAgentEngine(engine) == Some(engine)
  {
    hide Text.TrimSpace, Text.Lower;
    EngineNamesAreStable(ResolveEngine(raw).value);
  }

  /**
    An issue working copy payload is accepted exactly when its trimmed form meets every restriction, its engine is
    known and its skills are accepted.
   */
  lemma WorkingCopyAcceptedExactly(raw: Payload, workdirIsDirectory: bool, skillsAccepted: bool)
    requires Lower(TrimSpace(raw.executionMode)) == ISSUE_WORKING_COPY
    ensures Parse(raw, workdirIsDirectory, skillsAccepted).Parsed? <==>
              skillsAccepted && ResolveEngine(raw).Some?
              && AcceptedWorkingCopy(Trimmed(raw).(agentEngine := ResolveEngine(raw).value))
  {
    hide Text.TrimSpace, Text.Lower, NormalizeAgentEngine;
    if ResolveEngine(raw).Some? {
      EngineIsStable(raw);
    }
    assert ISSUE_WORKING_COPY != "" && ISSUE_WORKING_COPY != DETACHED;
  }

  /** An accepted payload is a fixed point of the parser: sending it again changes nothing. */
  lemma ParseIsIdempotent(raw: Payload, workdirIsDirectory: bool, skillsAccepted: bool)
    ensures var r := Parse(raw, workdirIsDirectory, skillsAccepted);
            r.Parsed? ==>
              && (UsesIssueWorkingCopy(r.payload) ==> AcceptedWorkingCopy(r.payload))
              && Parse(r.payload, workdirIsDirectory, skillsAccepted) == r
  {
    hide Text.TrimSpace, Text.Lower, NormalizeAgentEngine;
    var r := Parse(raw, workdirIsDirectory, skillsAccepted);
    if r.Parsed? {
      EngineIsStable(raw);
      TrimmedIsStable(raw);
      EngineNamesAreStable(DETACHED);
      assert Trimmed(r.payload) == r.payload;
      assert ResolveEngine(r.payload) == Some(r.payload.agentEngine);
    }
  }
}
