/**
  The reusable working copy of one issue: one worktree, one branch and one metadata file on a worker's disk.
  Git and the file system are answers the worker receives: every call may fail, and between the worker's own
  steps the agent may put the disk into any state.
 */
module WorkingCopy {
  import opened Text
  import opened Payloads
  import opened History

  /** A path inside the worktree, as its components. */
  type Path = seq<string>

  datatype HeadRef = OnBranch(branch: string) | Detached(oid: Oid)

  /** `staged` and `unstaged` are what `git status --untracked-files=all` would list. */
  datatype Tree = Tree(head: HeadRef, staged: set<Path>, unstaged: set<Path>)

  datatype Root = NoRoot | NotDirectory | NotRepository | Checkout(tree: Tree)

  datatype Metadata = Metadata(storageID: string, branch: string, base: string)

  /** `names` holds every revision name other than a full id that git resolves here; `None` metadata cannot be read. */
  datatype Disk = Disk(
    objects: set<Oid>, branches: map<string, Oid>, names: map<string, Oid>, root: Root, metadata: Option<Metadata>)

  datatype Reason = NoReason | WorktreeMissing | WorkspaceProbeFailed | BranchMismatch | HeadMismatch | MetadataMissing

  datatype ContentState = Clean | Dirty | RecoveryRequired

  /** What the worker reports to the server about the working copy. */
  datatype Envelope = Envelope(
    storageID: string, branch: string, base: string, head: string,
    state: ContentState, reason: Reason, generation: int)

  /** A failure without a reason is an error that is not about the working copy. */
  datatype Prepared = Prepared(ok: bool, reason: Reason, base: string)

  /**
    What `git worktree add -b` does: it creates the branch first and the worktree after that, so a failure in between,
    or a kill, leaves the branch behind and anything at all at the path.
   */
  datatype AddAnswer = AddWorks | AddRefused | AddInterrupted(left: Root)

  /** `afterRemove` is what is left at the path when the worker has tried to remove a worktree. */
  datatype PrepareFaults = PrepareFaults(
    repository: bool, parentDirectory: bool, stat: bool,
    branchName: bool, baseRef: bool, baseCommit: bool, worktreeAdd: AddAnswer, metadataWrite: bool, afterRemove: Root,
    insideWorkTree: bool, symbolicRef: bool, revParse: bool, metadataRead: bool,
    subdirectory: bool, artifacts: bool)

  datatype CaptureFaults = CaptureFaults(
    git: bool, insideWorkTree: bool, add: bool, reset: bool, diff: bool, commit: bool, revParse: bool, describe: bool)

  /** `mergeBase` and `ahead` answer the two questions about commits the agent made itself. */
  datatype CaptureAnswers = CaptureAnswers(faults: CaptureFaults, commitAs: Oid, mergeBase: Option<string>, ahead: bool)

  datatype Captured = Captured(ok: bool, commit: string)

  /** `descends` is the exit status of `git merge-base --is-ancestor`. */
  datatype InspectAnswers = InspectAnswers(
    rootAssigned: bool, git: bool, stat: bool, revParse: bool, symbolicRef: bool, descends: bool, status: bool)

  function HeadBranch(d: Disk): Option<string> {
    if d.root.Checkout? && d.root.tree.head.OnBranch? then Some(d.root.tree.head.branch) else None
  }

  /** The commit HEAD names; a branch without a commit has none. */
  function HeadOid(d: Disk): Option<Oid> {
    if !d.root.Checkout? then None
    else match d.root.tree.head
      case Detached(oid) => Some(oid)
      case OnBranch(b) => if b in d.branches then Some(d.branches[b]) else None
  }

  /** A full id in any case names its commit; anything else is looked up. */
  function ResolveRevision(d: Disk, rev: string): Option<Oid> {
    if IsOid(Lower(rev)) then (if Lower(rev) in d.objects then Some(Lower(rev)) else None)
    else if rev in d.names && d.names[rev] in d.objects then Some(d.names[rev])
    else None
  }

  function BaseRefCandidates(defaultBranch: string): seq<string> {
    (if defaultBranch == "" then []
     else ["refs/remotes/origin/" + defaultBranch, "refs/heads/" + defaultBranch, defaultBranch])
    + ["refs/remotes/origin/HEAD", "HEAD"]
  }

  function FirstResolved(d: Disk, candidates: seq<string>): Option<Oid> {
    if candidates == [] then None
    else if ResolveRevision(d, candidates[0]).Some? then ResolveRevision(d, candidates[0])
    else FirstResolved(d, candidates[1..])
  }

  function ResolveBaseRef(d: Disk, defaultBranch: string): Option<Oid> {
    FirstResolved(d, BaseRefCandidates(TrimSpace(defaultBranch)))
  }

  /** The commit a new working copy starts from. */
  function StartingCommit(d: Disk, p: Payload): Option<Oid> {
    if p.expectedHeadSHA == "" then ResolveBaseRef(d, p.defaultBranch) else ResolveRevision(d, p.expectedHeadSHA)
  }

  function Initialize(d: Disk, storageID: string, p: Payload, f: PrepareFaults): (Disk, Prepared) {
    if TrimSpace(p.branch) == "" || HasPrefix(TrimSpace(p.branch), "-") || f.branchName then
      (d, Prepared(false, BranchMismatch, ""))
    else if p.expectedHeadSHA == "" && (f.baseRef || ResolveBaseRef(d, p.defaultBranch).None?) then
      (d, Prepared(false, WorkspaceProbeFailed, ""))
    else if f.baseCommit || StartingCommit(d, p).None? then (d, Prepared(false, HeadMismatch, ""))
    else if f.worktreeAdd == AddRefused || p.branch in d.branches then (d, Prepared(false, WorkspaceProbeFailed, ""))
    else
      var base := StartingCommit(d, p).value;
      var branched := d.(branches := d.branches[p.branch := base]);
      var added := branched.(root := Checkout(Tree(OnBranch(p.branch), {}, {})));
      if f.worktreeAdd.AddInterrupted? then
        (branched.(root := f.worktreeAdd.left), Prepared(false, WorkspaceProbeFailed, ""))
      else if f.metadataWrite then
        (added.(root := f.afterRemove), Prepared(false, MetadataMissing, base))
      else
        (added.(metadata := Some(Metadata(storageID, p.branch, base))), Prepared(true, NoReason, base))
  }

  function ExpectedHead(p: Payload, m: Metadata): string {
    if p.expectedHeadSHA == "" && p.initialize then m.base else p.expectedHeadSHA
  }

  /** The worktree is on the branch, and metadata with a base commit was written for it by this storage. */
  predicate Reusable(d: Disk, storageID: string, branch: string) {
    && HeadBranch(d) == Some(branch) && HeadOid(d).Some?
    && d.metadata.Some? && d.metadata.value.storageID == storageID && d.metadata.value.branch == branch
    && TrimSpace(d.metadata.value.base) != ""
  }

  function Reuse(d: Disk, storageID: string, p: Payload, f: PrepareFaults): Prepared {
    if !d.root.Checkout? || f.insideWorkTree then Prepared(false, WorkspaceProbeFailed, "")
    else if f.symbolicRef || HeadBranch(d) != Some(p.branch) then Prepared(false, BranchMismatch, "")
    else if f.revParse || HeadOid(d).None? then Prepared(false, WorkspaceProbeFailed, "")
    else if f.metadataRead || d.metadata.None? then Prepared(false, MetadataMissing, "")
    else
      var m := d.metadata.value;
      if m.storageID != storageID then Prepared(false, MetadataMissing, "")
      else if m.branch != p.branch then Prepared(false, BranchMismatch, "")
      else if TrimSpace(m.base) == "" then Prepared(false, MetadataMissing, "")
      else if ExpectedHead(p, m) == "" || !EqualFold(HeadOid(d).value, ExpectedHead(p, m)) then
        Prepared(false, HeadMismatch, m.base)
      else Prepared(true, NoReason, m.base)
  }

  function OpenWorkingCopy(d: Disk, storageID: string, p: Payload, f: PrepareFaults): (Disk, Prepared) {
    if f.parentDirectory then (d, Prepared(false, NoReason, ""))
    else if f.stat then (d, Prepared(false, WorkspaceProbeFailed, ""))
    else match d.root
      case NoRoot =>
        if p.initialize then Initialize(d, storageID, p, f) else (d, Prepared(false, WorktreeMissing, ""))
      case NotDirectory => (d, Prepared(false, WorkspaceProbeFailed, ""))
      case _ => (d, Reuse(d, storageID, p, f))
  }

  /** The whole preparation of a session: repository cache, working copy, project directory, artifacts and skills. */
  function Prepare(d: Disk, storageID: string, p: Payload, f: PrepareFaults): (Disk, Prepared) {
    if f.repository then (d, Prepared(false, NoReason, ""))
    else
      var (after, r) := OpenWorkingCopy(d, storageID, p, f);
      if !r.ok then (after, r)
      else if f.subdirectory then (after, Prepared(false, WorkspaceProbeFailed, r.base))
      else if f.artifacts then (after, Prepared(false, NoReason, r.base))
      else (after, r)
  }

  predicate InWorkdir(subdir: Path, path: Path) { subdir <= path }

  predicate InScratch(subdir: Path, path: Path) { subdir + [".mspace"] <= path }

  /** `git add -A -- .` in the workdir, then `git reset -- .mspace`, whose failure is ignored. */
  function Staged(t: Tree, subdir: Path, resetFails: bool): Tree {
    var added := set x | x in t.unstaged && InWorkdir(subdir, x);
    var staged := t.staged + added;
    var scratch := if resetFails then {} else set x | x in staged && InScratch(subdir, x);
    Tree(t.head, staged - scratch, (t.unstaged - added) + scratch)
  }

  function Commit(d: Disk, commitAs: Oid): Disk
    requires d.root.Checkout?
  {
    var t := d.root.tree;
    match t.head
    case OnBranch(b) =>
      d.(objects := d.objects + {commitAs}, branches := d.branches[b := commitAs], root := Checkout(t.(staged := {})))
    case Detached(_) =>
      d.(objects := d.objects + {commitAs}, root := Checkout(t.(head := Detached(commitAs), staged := {})))
  }

  /** The commit the agent made itself, when nothing was left to commit. */
  function ExistingHeadSource(d: Disk, p: Payload, a: CaptureAnswers): Captured {
    if a.faults.revParse || HeadOid(d).None? then Captured(false, "")
    else
      var head := HeadOid(d).value;
      if ResolveBaseRef(d, p.defaultBranch).None? || a.mergeBase.None? then Captured(true, "")
      else if a.mergeBase.value == head || !a.ahead then Captured(true, "")
      else if a.faults.describe then Captured(false, "")
      else Captured(true, head)
  }

  function Capture(d: Disk, subdir: Path, p: Payload, a: CaptureAnswers): (Disk, Captured) {
    var f := a.faults;
    if f.git || !d.root.Checkout? || f.insideWorkTree || f.add then (d, Captured(false, ""))
    else
      var t := Staged(d.root.tree, subdir, f.reset);
      var staged := d.(root := Checkout(t));
      if !f.diff && t.staged == {} then (staged, ExistingHeadSource(staged, p, a))
      else if f.commit || t.staged == {} then (staged, Captured(false, ""))
      else
        var committed := Commit(staged, a.commitAs);
        if f.revParse || f.describe then (committed, Captured(false, "")) else (committed, Captured(true, a.commitAs))
  }

  /** The commit a reported head must descend from: the expected head, or the recorded base commit without one. */
  function Anchor(p: Payload, base: string): string {
    if TrimSpace(p.expectedHeadSHA) != "" then TrimSpace(p.expectedHeadSHA) else TrimSpace(base)
  }

  /** The working copy passes every check of the inspection, up to its uncommitted changes. */
  predicate Verified(d: Disk, p: Payload, base: string, a: InspectAnswers) {
    && a.rootAssigned && !a.git && !a.stat && !a.revParse && !a.symbolicRef && !a.status
    && HeadOid(d).Some?
    && HeadBranch(d) == Some(p.branch)
    && (Anchor(p, base) == "" || EqualFold(HeadOid(d).value, Anchor(p, base)) || a.descends)
  }

  /** Why an inspection that nothing forced did not verify the working copy. */
  function Complaint(d: Disk, p: Payload, base: string, a: InspectAnswers): Reason {
    if !a.rootAssigned then WorktreeMissing
    else if a.git || a.stat then WorkspaceProbeFailed
    else if d.root.NoRoot? then WorktreeMissing
    else if a.revParse || HeadOid(d).None? then WorkspaceProbeFailed
    else if a.symbolicRef || HeadBranch(d) != Some(p.branch) then BranchMismatch
    else if Anchor(p, base) != "" && !EqualFold(HeadOid(d).value, Anchor(p, base)) && !a.descends then HeadMismatch
    else if a.status then WorkspaceProbeFailed
    else NoReason
  }

  /** The head is reported as soon as it can be read, even for a working copy that fails a later check. */
  function ReportedHead(d: Disk, forced: Reason, a: InspectAnswers): string {
    if (forced == NoReason && !a.rootAssigned) || a.git || a.stat || a.revParse || HeadOid(d).None? then ""
    else HeadOid(d).value
  }

  function Uncommitted(d: Disk): set<Path> {
    if d.root.Checkout? then d.root.tree.staged + d.root.tree.unstaged else {}
  }

  function Inspect(d: Disk, storageID: string, p: Payload, base: string, forced: Reason, a: InspectAnswers): Envelope {
    var reason := if forced != NoReason then forced else Complaint(d, p, base, a);
    var state := if reason != NoReason then RecoveryRequired else if Uncommitted(d) == {} then Clean else Dirty;
    Envelope(storageID, p.branch, base, ReportedHead(d, forced, a), state, reason, p.generation)
  }

  /** The worker process and the part of its disk that belongs to one issue. */
  class WorkerHost {
    const storageID: string
    var objects: set<Oid>
    var branches: map<string, Oid>
    var names: map<string, Oid>
    var root: Root
    var metadata: Option<Metadata>

    constructor (storageID: string, d: Disk)
      ensures Snapshot() == d && this.storageID == storageID
    {
      this.storageID := storageID;
      objects, branches, names, root, metadata := d.objects, d.branches, d.names, d.root, d.metadata;
    }

    function Snapshot(): Disk
      reads this
    {
      Disk(objects, branches, names, root, metadata)
    }

    method ResolveWorkerBaseRef(defaultBranch: string) returns (r: Option<Oid>)
      ensures r == ResolveBaseRef(Snapshot(), defaultBranch)
    {
      var candidates := BaseRefCandidates(TrimSpace(defaultBranch));
      var i := 0;
      while i < |candidates|
        invariant 0 <= i <= |candidates|
        invariant FirstResolved(Snapshot(), candidates) == FirstResolved(Snapshot(), candidates[i..])
      {
        r := ResolveRevision(Snapshot(), candidates[i]);
        if r.Some? {
          return;
        }
        i := i + 1;
      }
      r := None;
    }

    method InitializeIssueWorkingCopy(p: Payload, f: PrepareFaults) returns (r: Prepared)
      modifies this
      ensures (Snapshot(), r) == Initialize(old(Snapshot()), storageID, p, f)
    {
      hide Text.TrimSpace, BaseRefCandidates, FirstResolved, ResolveRevision;
      var branch := TrimSpace(p.branch);
      if branch == "" || HasPrefix(branch, "-") || f.branchName {
        return Prepared(false, BranchMismatch, "");
      }
      var baseRef := p.expectedHeadSHA;
      if baseRef == "" {
        var resolved := ResolveWorkerBaseRef(p.defaultBranch);
        if f.baseRef || resolved.None? {
          return Prepared(false, WorkspaceProbeFailed, "");
        }
        baseRef := resolved.value;
        FirstResolvedIsPresent(Snapshot(), BaseRefCandidates(TrimSpace(p.defaultBranch)));
      }
      var baseCommit := ResolveRevision(Snapshot(), baseRef);
      if f.baseCommit || baseCommit.None? {
        return Prepared(false, HeadMismatch, "");
      }
      if f.worktreeAdd == AddRefused || p.branch in branches {
        return Prepared(false, WorkspaceProbeFailed, "");
      }
      branches := branches[p.branch := baseCommit.value];
      if f.worktreeAdd.AddInterrupted? {
        root := f.worktreeAdd.left;
        return Prepared(false, WorkspaceProbeFailed, "");
      }
      root := Checkout(Tree(OnBranch(p.branch), {}, {}));
      if f.metadataWrite {
        root := f.afterRemove;
        return Prepared(false, MetadataMissing, baseCommit.value);
      }
      metadata := Some(Metadata(storageID, p.branch, baseCommit.value));
      return Prepared(true, NoReason, baseCommit.value);
    }

    method ReuseIssueWorkingCopy(p: Payload, f: PrepareFaults) returns (r: Prepared)
      ensures r == Reuse(Snapshot(), storageID, p, f)
      ensures r.ok <==>
                && !f.insideWorkTree && !f.symbolicRef && !f.revParse && !f.metadataRead
                && Reusable(Snapshot(), storageID, p.branch)
                && ExpectedHead(p, metadata.value) != ""
                && EqualFold(HeadOid(Snapshot()).value, ExpectedHead(p, metadata.value))
      ensures r.ok ==> r.base == metadata.value.base
      ensures !r.ok ==> r.reason != NoReason
    {
      hide Text.TrimSpace, Text.Lower;
      if !root.Checkout? || f.insideWorkTree {
        return Prepared(false, WorkspaceProbeFailed, "");
      }
      if f.symbolicRef || HeadBranch(Snapshot()) != Some(p.branch) {
        return Prepared(false, BranchMismatch, "");
      }
      var head := HeadOid(Snapshot());
      if f.revParse || head.None? {
        return Prepared(false, WorkspaceProbeFailed, "");
      }
      if f.metadataRead || metadata.None? {
        return Prepared(false, MetadataMissing, "");
      }
      if metadata.value.storageID != storageID {
        return Prepared(false, MetadataMissing, "");
      }
      if metadata.value.branch != p.branch {
        return Prepared(false, BranchMismatch, "");
      }
      if TrimSpace(metadata.value.base) == "" {
        return Prepared(false, MetadataMissing, "");
      }
      var expected := p.expectedHeadSHA;
      if expected == "" && p.initialize {
        expected := metadata.value.base;
      }
      if expected == "" || !EqualFold(head.value, expected) {
        return Prepared(false, HeadMismatch, metadata.value.base);
      }
      return Prepared(true, NoReason, metadata.value.base);
    }

    method PrepareAgentSessionWorkspace(p: Payload, f: PrepareFaults) returns (r: Prepared)
      modifies this
      ensures (Snapshot(), r) == Prepare(old(Snapshot()), storageID, p, f)
    {
      if f.repository || f.parentDirectory {
        return Prepared(false, NoReason, "");
      }
      if f.stat {
        return Prepared(false, WorkspaceProbeFailed, "");
      }
      if root.NoRoot? {
        if !p.initialize {
          return Prepared(false, WorktreeMissing, "");
        }
        r := InitializeIssueWorkingCopy(p, f);
      } else if root.NotDirectory? {
        return Prepared(false, WorkspaceProbeFailed, "");
      } else {
        r := ReuseIssueWorkingCopy(p, f);
      }
      if r.ok && f.subdirectory {
        r := Prepared(false, WorkspaceProbeFailed, r.base);
      } else if r.ok && f.artifacts {
        r := Prepared(false, NoReason, r.base);
      }
    }

    method CaptureAgentSessionSource(subdir: Path, p: Payload, a: CaptureAnswers) returns (r: Captured)
      modifies this
      ensures (Snapshot(), r) == Capture(old(Snapshot()), subdir, p, a)
    {
      var f := a.faults;
      if f.git || !root.Checkout? || f.insideWorkTree || f.add {
        return Captured(false, "");
      }
      root := Checkout(Staged(root.tree, subdir, f.reset));
      if !f.diff && root.tree.staged == {} {
        return ExistingHeadSource(Snapshot(), p, a);
      }
      if f.commit || root.tree.staged == {} {
        return Captured(false, "");
      }
      objects := objects + {a.commitAs};
      match root.tree.head {
        case OnBranch(b) => branches := branches[b := a.commitAs];
        case Detached(_) => root := Checkout(root.tree.(head := Detached(a.commitAs)));
      }
      root := Checkout(root.tree.(staged := {}));
      if f.revParse || f.describe {
        return Captured(false, "");
      }
      return Captured(true, a.commitAs);
    }

    method InspectIssueWorkingCopy(p: Payload, base: string, forced: Reason, a: InspectAnswers)
      returns (result: Envelope)
      ensures result == Inspect(Snapshot(), storageID, p, base, forced, a)
    {
      result := Envelope(storageID, p.branch, base, "", RecoveryRequired, forced, p.generation);
      if result.reason == NoReason && !a.rootAssigned {
        return result.(reason := WorktreeMissing);
      }
      if a.git {
        return if result.reason == NoReason then result.(reason := WorkspaceProbeFailed) else result;
      }
      if a.stat || root.NoRoot? || root.NotDirectory? {
        if result.reason == NoReason {
          result := result.(reason := if root.NoRoot? && !a.stat then WorktreeMissing else WorkspaceProbeFailed);
        }
        return;
      }
      var head := HeadOid(Snapshot());
      if a.revParse || head.None? {
        return if result.reason == NoReason then result.(reason := WorkspaceProbeFailed) else result;
      }
      result := result.(head := head.value);
      if a.symbolicRef || HeadBranch(Snapshot()) != Some(p.branch) {
        return if result.reason == NoReason then result.(reason := BranchMismatch) else result;
      }
      var expectedAncestor := TrimSpace(p.expectedHeadSHA);
      if expectedAncestor == "" {
        expectedAncestor := TrimSpace(base);
      }
      if expectedAncestor != "" && !EqualFold(result.head, expectedAncestor) && !a.descends {
        return if result.reason == NoReason then result.(reason := HeadMismatch) else result;
      }
      if result.reason != NoReason {
        return;
      }
      if a.status {
        return result.(reason := WorkspaceProbeFailed);
      }
      result := result.(state := Clean);
      if Uncommitted(Snapshot()) != {} {
        result := result.(state := Dirty);
      }
    }
  }

  lemma FirstResolvedIsPresent(d: Disk, candidates: seq<string>)
    ensures var r := FirstResolved(d, candidates); r.Some? ==> ResolveRevision(d, r.value) == r
  {
    if candidates != [] {
      FirstResolvedIsPresent(d, candidates[1..]);
      var r := ResolveRevision(d, candidates[0]);
      if r.Some? {
        OidFoldIsEquality(r.value, r.value);
      }
    }
  }
}
