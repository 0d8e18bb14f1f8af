/** Where an issue session lives below the work root: worktree, artifacts and recorded metadata. */
module Layout {
  import opened Text
  import opened Payloads
  import opened Names
  import opened Paths

  const WORKDIRS := "workdirs"
  const ARTIFACTS := "artifacts"

  /** The identifiers the paths are made of. */
  datatype Ids = Ids(project: string, issue: string, session: string)

  /** The path members of a payload. */
  datatype Assigned = Assigned(workingCopyRoot: Path, artifactDir: Path, artifactRoot: Path)

  predicate SafeIds(ids: Ids) {
    SafeName(ids.project) && SafeName(ids.issue) && SafeName(ids.session)
  }

  function AssignIssueWorkingCopyPaths(workRoot: Path, ids: Ids): Assigned {
    var project, issue, session := SafePathPart(ids.project), SafePathPart(ids.issue), SafePathPart(ids.session);
    var artifactRoot := workRoot + [ARTIFACTS];
    Assigned(workRoot + [WORKDIRS, project, issue], artifactRoot + [project, issue, session], artifactRoot)
  }

  function MetadataPath(workRoot: Path, ids: Ids): Path {
    workRoot + [".mspace", "working-copies", SafePathPart(ids.project), SafePathPart(ids.issue) + ".json"]
  }

  lemma SafeNameIsPlain(s: string)
    requires SafeName(s)
    ensures Plain(s)
  {
    assert forall i :: 0 <= i < |s| ==> IsSafeChar(s[i]) && s[i] != '/';
  }

  lemma PathPartIsPlain(value: string)
    ensures Plain(SafePathPart(value))
  {
    hide SafePathPart;
    SafePathPartIsSafe(value);
    SafeNameIsPlain(SafePathPart(value));
  }

  /** What is assigned below a cleaned work root is cleaned. */
  lemma AssignedArePlain(workRoot: Path, ids: Ids)
    requires AllPlain(workRoot)
    ensures var a := AssignIssueWorkingCopyPaths(workRoot, ids);
            AllPlain(a.workingCopyRoot) && AllPlain(a.artifactDir) && AllPlain(a.artifactRoot)
  {
    hide Plain, SafePathPart;
    PathPartIsPlain(ids.project);
    PathPartIsPlain(ids.issue);
    PathPartIsPlain(ids.session);
    FixedNamesArePlain();
  }

  lemma FixedNamesArePlain()
    ensures Plain(WORKDIRS) && Plain(ARTIFACTS)
  {
  }

  /** Worktrees and artifact directories agree exactly when the path parts do, for safe ids when the ids do. */
  lemma AssignedPathsAgreeExactly(workRoot: Path, a: Ids, b: Ids)
    ensures var x, y := AssignIssueWorkingCopyPaths(workRoot, a), AssignIssueWorkingCopyPaths(workRoot, b);
            && (x.workingCopyRoot == y.workingCopyRoot
                <==> && SafePathPart(a.project) == SafePathPart(b.project)
                     && SafePathPart(a.issue) == SafePathPart(b.issue))
            && (x.artifactDir == y.artifactDir
                <==> x.workingCopyRoot == y.workingCopyRoot && SafePathPart(a.session) == SafePathPart(b.session))
            && (MetadataPath(workRoot, a) == MetadataPath(workRoot, b) <==> x.workingCopyRoot == y.workingCopyRoot)
            && (SafeIds(a) && SafeIds(b) ==>
                  (x.workingCopyRoot == y.workingCopyRoot <==> a.project == b.project && a.issue == b.issue)
                  && (x.artifactDir == y.artifactDir <==> a == b))
  {
    hide SafePathPart, SafeName;
    var n := |workRoot|;
    var x, y := AssignIssueWorkingCopyPaths(workRoot, a), AssignIssueWorkingCopyPaths(workRoot, b);
    assert x.workingCopyRoot[n + 1] == SafePathPart(a.project) && x.workingCopyRoot[n + 2] == SafePathPart(a.issue);
    assert y.workingCopyRoot[n + 1] == SafePathPart(b.project) && y.workingCopyRoot[n + 2] == SafePathPart(b.issue);
    assert x.artifactDir[n + 1..] == [SafePathPart(a.project), SafePathPart(a.issue), SafePathPart(a.session)];
    assert y.artifactDir[n + 1..] == [SafePathPart(b.project), SafePathPart(b.issue), SafePathPart(b.session)];
    MetadataPathsAgreeExactly(workRoot, a, b);
    SafePathPartFixesExactly(a.project);
    SafePathPartFixesExactly(a.issue);
    SafePathPartFixesExactly(a.session);
    SafePathPartFixesExactly(b.project);
    SafePathPartFixesExactly(b.issue);
    SafePathPartFixesExactly(b.session);
  }

  lemma MetadataPathsAgreeExactly(workRoot: Path, a: Ids, b: Ids)
    ensures MetadataPath(workRoot, a) == MetadataPath(workRoot, b)
            <==> SafePathPart(a.project) == SafePathPart(b.project) && SafePathPart(a.issue) == SafePathPart(b.issue)
  {
    hide SafePathPart;
    var n, x, y := |workRoot|, MetadataPath(workRoot, a), MetadataPath(workRoot, b);
    assert x[n + 2] == SafePathPart(a.project) && y[n + 2] == SafePathPart(b.project);
    assert x[n + 3][..|x[n + 3]| - 5] == SafePathPart(a.issue) && y[n + 3][..|y[n + 3]| - 5] == SafePathPart(b.issue);
  }

  /**
    Whatever the sessions are: no artifact path lies inside a worktree, no worktree path inside an artifact directory,
    and no worktree lies strictly inside another.
   */
  lemma AssignedAreasAreDisjoint(workRoot: Path, a: Ids, b: Ids, target: Path)
    ensures var x, y := AssignIssueWorkingCopyPaths(workRoot, a), AssignIssueWorkingCopyPaths(workRoot, b);
            && !(x.workingCopyRoot <= target && y.artifactDir <= target)
            && (x.workingCopyRoot <= y.workingCopyRoot ==> x.workingCopyRoot == y.workingCopyRoot)
            && !(x.workingCopyRoot <= MetadataPath(workRoot, b)) && !(x.artifactDir <= MetadataPath(workRoot, b))
  {
    hide SafePathPart;
    var n := |workRoot|;
    var x, y := AssignIssueWorkingCopyPaths(workRoot, a), AssignIssueWorkingCopyPaths(workRoot, b);
    assert x.workingCopyRoot[n] == WORKDIRS && x.artifactDir[n] == y.artifactDir[n] == ARTIFACTS;
    assert MetadataPath(workRoot, b)[n] == ".mspace";
    assert WORKDIRS[0] != ARTIFACTS[0] && WORKDIRS[0] != '.' && ARTIFACTS[0] != '.';
  }

  // ---- The lexical part of the artifact check ----

  datatype Verdict = Accepted | NoTrustedRoot | NotAssigned | OutsideArtifactDir | OutsideArtifactRoot

  /** The check before symbolic links are resolved; no artifact root is an untrusted payload. */
  function EnsurePayloadArtifactPath(ids: Ids, artifactDir: Path, artifactRoot: Option<Path>, target: Path): Verdict {
    if artifactRoot.None? then NoTrustedRoot
    else
      var project, issue, session := SafePathPart(ids.project), SafePathPart(ids.issue), SafePathPart(ids.session);
      var expected := artifactRoot.value + [project, issue, session];
      if artifactDir != expected then NotAssigned
      else if !EnsurePathWithin(artifactDir, target) then OutsideArtifactDir
      else if !EnsurePathWithin(artifactRoot.value, target) then OutsideArtifactRoot
      else Accepted
  }

  /** The assigned paths pass their own check for exactly the targets below the artifact directory. */
  lemma AssignedArtifactDirAccepts(workRoot: Path, ids: Ids, target: Path)
    requires AllPlain(target)
    ensures var a := AssignIssueWorkingCopyPaths(workRoot, ids);
            && EnsurePayloadArtifactPath(ids, a.artifactDir, Some(a.artifactRoot), target)
               == (if a.artifactDir <= target then Accepted else OutsideArtifactDir)
  {
    hide SafePathPart, EnsurePathWithin;
    var a := AssignIssueWorkingCopyPaths(workRoot, ids);
    WithinMeansBelow(a.artifactDir, target);
    WithinMeansBelow(a.artifactRoot, target);
    assert a.artifactRoot == a.artifactDir[..|a.artifactRoot|];
    var project, issue, session := SafePathPart(ids.project), SafePathPart(ids.issue), SafePathPart(ids.session);
    assert a.artifactRoot + [project, issue, session] == a.artifactDir;
  }

  /** The assigned directory, and every cleaned path below it, passes its own check. */
  lemma AssignedArtifactDirAcceptsItsFiles(workRoot: Path, ids: Ids, below: Path)
    requires AllPlain(workRoot) && AllPlain(below)
    ensures var a := AssignIssueWorkingCopyPaths(workRoot, ids);
            EnsurePayloadArtifactPath(ids, a.artifactDir, Some(a.artifactRoot), a.artifactDir + below) == Accepted
  {
    hide Plain, EnsurePayloadArtifactPath, AssignIssueWorkingCopyPaths;
    var a := AssignIssueWorkingCopyPaths(workRoot, ids);
    AssignedArePlain(workRoot, ids);
    AssignedArtifactDirAccepts(workRoot, ids, a.artifactDir + below);
  }

  /** Two sessions share an accepted target only when they share the whole artifact directory. */
  lemma AcceptedTargetsSeparateSessions(workRoot: Path, a: Ids, b: Ids, target: Path)
    requires AllPlain(target) && SafeIds(a) && SafeIds(b)
    requires var x := AssignIssueWorkingCopyPaths(workRoot, a);
             EnsurePayloadArtifactPath(a, x.artifactDir, Some(x.artifactRoot), target) == Accepted
    requires var y := AssignIssueWorkingCopyPaths(workRoot, b);
             EnsurePayloadArtifactPath(b, y.artifactDir, Some(y.artifactRoot), target) == Accepted
    ensures a == b
  {
    hide SafePathPart, SafeName, EnsurePathWithin;
    AssignedArtifactDirAccepts(workRoot, a, target);
    AssignedArtifactDirAccepts(workRoot, b, target);
    var x, y := AssignIssueWorkingCopyPaths(workRoot, a), AssignIssueWorkingCopyPaths(workRoot, b);
    assert x.artifactDir == target[..|workRoot| + 4] == y.artifactDir;
    AssignedPathsAgreeExactly(workRoot, a, b);
  }
}
