/**
  Agent sessions on one issue, one after the other. In each of them the worker prepares the working copy, an
  arbitrary agent changes the disk, and the worker captures what is left and reports on the working copy.
 */
module Sessions {
  import opened Text
  import opened Collections
  import opened Payloads
  import opened History
  import opened WorkingCopy

  datatype Ending = EngineFailed | EngineFinished

  /**
    One session: the disk it finds, the disk the agent leaves, and the disk another process makes of the worker's
    last one before the inspection (`None` when nobody interferes there).
   */
  datatype Turn = Turn(
    payload: Payload, subdir: Path, start: Disk, faults: PrepareFaults, agent: Disk, ending: Ending,
    capture: CaptureAnswers, meddling: Option<Disk>, inspect: InspectAnswers)

  datatype SessionError = NotPrepared | EngineError | NotCaptured | NotVerified | StillDirty

  datatype Outcome = Outcome(report: Envelope, source: string, error: Option<SessionError>)

  function PreparedBy(storageID: string, t: Turn): Prepared {
    Prepare(t.start, storageID, t.payload, t.faults).1
  }

  predicate Captures(storageID: string, t: Turn) {
    PreparedBy(storageID, t).ok && t.ending == EngineFinished
  }

  function CapturedBy(t: Turn): (Disk, Captured) {
    Capture(t.agent, t.subdir, t.payload, t.capture)
  }

  function InspectedDisk(storageID: string, t: Turn): Disk {
    if t.meddling.Some? then t.meddling.value
    else if Captures(storageID, t) then CapturedBy(t).0
    else if PreparedBy(storageID, t).ok then t.agent
    else Prepare(t.start, storageID, t.payload, t.faults).0
  }

  function Report(storageID: string, t: Turn): Envelope {
    var r := PreparedBy(storageID, t);
    Inspect(InspectedDisk(storageID, t), storageID, t.payload, r.base, if r.ok then NoReason else r.reason, t.inspect)
  }

  /** A session that completes by source capture, if at all, with the first error it meets. */
  function RunTurn(storageID: string, t: Turn): Outcome {
    var report := Report(storageID, t);
    if !PreparedBy(storageID, t).ok then Outcome(report, "", Some(NotPrepared))
    else if t.ending == EngineFailed then Outcome(report, "", Some(EngineError))
    else if !CapturedBy(t).1.ok then Outcome(report, "", Some(NotCaptured))
    else
      var source := CapturedBy(t).1.commit;
      if report.state == RecoveryRequired then Outcome(report, source, Some(NotVerified))
      else if report.state == Dirty then Outcome(report, source, Some(StillDirty))
      else Outcome(report, source, None)
  }

  /** Git answers that HEAD descends from the anchor only when it does. */
  ghost predicate Sound(parents: Parents, storageID: string, t: Turn) {
    var d := InspectedDisk(storageID, t);
    var anchor := ResolveRevision(d, Anchor(t.payload, PreparedBy(storageID, t).base));
    t.inspect.descends && HeadOid(d).Some? ==> anchor.Some? && Ancestor(parents, anchor.value, HeadOid(d).value)
  }

  function Reports(storageID: string, turns: seq<Turn>): (r: seq<Envelope>)
    ensures |r| == |turns|
    ensures forall i :: 0 <= i < |turns| ==> r[i] == Report(storageID, turns[i])
  {
    seq(|turns|, i requires 0 <= i < |turns| => Report(storageID, turns[i]))
  }

  function LastCleanHead(reports: seq<Envelope>): string {
    if reports == [] then ""
    else if reports[|reports| - 1].state == Clean then reports[|reports| - 1].head
    else LastCleanHead(reports[..|reports| - 1])
  }

  /** The server's part: sessions of one issue never overlap, keep one branch and expect the last clean head. */
  ghost predicate Serialized(storageID: string, branch: string, turns: seq<Turn>) {
    forall i :: 0 <= i < |turns| ==>
      && AcceptedWorkingCopy(turns[i].payload)
      && turns[i].payload.branch == branch
      && turns[i].payload.expectedHeadSHA == LastCleanHead(Reports(storageID, turns[..i]))
  }

  ghost predicate AllSound(parents: Parents, storageID: string, turns: seq<Turn>) {
    forall t :: t in turns ==> Sound(parents, storageID, t)
  }

  predicate IsClean(storageID: string, t: Turn) {
    Report(storageID, t).state == Clean
  }

  // ---- One inspection ----

  /** The verdict is exact: clean, dirty and recovery are decided by the checks and by nothing else. */
  lemma InspectVerdict(d: Disk, storageID: string, p: Payload, base: string, forced: Reason, a: InspectAnswers)
    ensures var e := Inspect(d, storageID, p, base, forced, a);
            && (e.state == Clean <==> forced == NoReason && Verified(d, p, base, a) && Uncommitted(d) == {})
            && (e.state == Dirty <==> forced == NoReason && Verified(d, p, base, a) && Uncommitted(d) != {})
            && (e.state == RecoveryRequired <==> e.reason != NoReason)
            && (e.state != RecoveryRequired ==> HeadOid(d) == Some(e.head) && d.branches[p.branch] == e.head)
  {
  }

  lemma OidTrims(oid: Oid)
    ensures TrimSpace(oid) == oid && oid != "" && IsOid(Lower(oid))
  {
    OidFoldIsEquality(oid, oid);
    assert oid[0] in oid && oid[|oid| - 1] in oid;
    TrimFixed(oid, IsSpace);
  }

  /** A clean report descends from its anchor, when that is a full commit id. */
  lemma CleanDescendsFromAnchor(parents: Parents, storageID: string, t: Turn, anchor: Oid)
    requires Sound(parents, storageID, t) && IsClean(storageID, t)
    requires Anchor(t.payload, PreparedBy(storageID, t).base) == anchor
    ensures IsOid(Report(storageID, t).head)
    ensures Ancestor(parents, anchor, Report(storageID, t).head)
  {
    var d := InspectedDisk(storageID, t);
    var base := PreparedBy(storageID, t).base;
    assert Verified(d, t.payload, base, t.inspect);
    var head := HeadOid(d).value;
    OidTrims(anchor);
    OidFoldIsEquality(anchor, anchor);
    OidFoldIsEquality(head, anchor);
    if head == anchor {
      AncestorReflexive(parents, head);
    }
  }

  lemma CleanDescendsFromExpectedHead(parents: Parents, storageID: string, t: Turn, expected: Oid)
    requires Sound(parents, storageID, t) && IsClean(storageID, t) && t.payload.expectedHeadSHA == expected
    ensures IsOid(Report(storageID, t).head)
    ensures Ancestor(parents, expected, Report(storageID, t).head)
  {
    OidTrims(expected);
    CleanDescendsFromAnchor(parents, storageID, t, expected);
  }

  lemma CleanHeadIsOid(storageID: string, t: Turn)
    requires IsClean(storageID, t)
    ensures IsOid(Report(storageID, t).head)
  {
    var r := PreparedBy(storageID, t);
    var forced := if r.ok then NoReason else r.reason;
    InspectVerdict(InspectedDisk(storageID, t), storageID, t.payload, r.base, forced, t.inspect);
  }

  // ---- Runs ----

  /** The head a session expects is the head of some earlier clean report. */
  lemma LastCleanHeadIsEarlier(reports: seq<Envelope>) returns (k: nat)
    requires exists i :: 0 <= i < |reports| && reports[i].state == Clean
    ensures k < |reports| && reports[k].state == Clean && reports[k].head == LastCleanHead(reports)
    ensures forall i :: k < i < |reports| ==> reports[i].state != Clean
  {
    var n := |reports| - 1;
    if reports[n].state == Clean {
      k := n;
    } else {
      k := LastCleanHeadIsEarlier(reports[..n]);
    }
  }

  /** A clean report names a commit that descends from the last clean head before it. */
  ghost predicate Extends(parents: Parents, reports: seq<Envelope>, j: nat)
    requires j < |reports|
  {
    reports[j].state == Clean ==>
      && IsOid(reports[j].head)
      && var before := LastCleanHead(reports[..j]);
         before != "" ==> IsOid(before) && Ancestor(parents, before, reports[j].head)
  }

  lemma {:induction false} ExtendingReportsFormAChain(parents: Parents, reports: seq<Envelope>, i: nat, j: nat)
    requires i < j < |reports| && reports[i].state == Clean && reports[j].state == Clean
    requires forall k :: 0 <= k <= j ==> Extends(parents, reports, k)
    ensures IsOid(reports[i].head) && IsOid(reports[j].head) && Ancestor(parents, reports[i].head, reports[j].head)
    decreases j
  {
    assert reports[..j][i].state == Clean;
    var k := LastCleanHeadIsEarlier(reports[..j]);
    assert Extends(parents, reports, j) && Extends(parents, reports, k) && Extends(parents, reports, i);
    if i < k {
      ExtendingReportsFormAChain(parents, reports, i, k);
      AncestorTransitive(parents, reports[i].head, reports[k].head, reports[j].head);
    }
  }

  lemma ReportExtends(parents: Parents, storageID: string, branch: string, turns: seq<Turn>, j: nat)
    requires Serialized(storageID, branch, turns) && AllSound(parents, storageID, turns) && j < |turns|
    ensures Extends(parents, Reports(storageID, turns), j)
  {
    hide AcceptedWorkingCopy, Report, Sound;
    var reports := Reports(storageID, turns);
    assert reports[..j] == Reports(storageID, turns[..j]);
    assert turns[j] in turns;
    if IsClean(storageID, turns[j]) {
      CleanHeadIsOid(storageID, turns[j]);
      if k :| 0 <= k < j && reports[k].state == Clean {
        assert reports[..j][k].state == Clean;
        var last := LastCleanHeadIsEarlier(reports[..j]);
        CleanHeadIsOid(storageID, turns[last]);
        CleanDescendsFromExpectedHead(parents, storageID, turns[j], reports[last].head);
      } else {
        NoCleanHead(reports[..j]);
      }
    }
  }

  lemma NoCleanHead(reports: seq<Envelope>)
    requires forall k :: 0 <= k < |reports| ==> reports[k].state != Clean
    ensures LastCleanHead(reports) == ""
  {
  }

  /**
    Whatever the agents do and whichever calls fail, the heads reported clean form a chain: each one descends from
    every earlier one.
   */
  lemma CleanHeadsFormAChain(
    parents: Parents, storageID: string, branch: string, turns: seq<Turn>, i: nat, j: nat)
    requires Serialized(storageID, branch, turns) && AllSound(parents, storageID, turns)
    requires i < j < |turns| && IsClean(storageID, turns[i]) && IsClean(storageID, turns[j])
    ensures IsOid(Report(storageID, turns[i]).head) && IsOid(Report(storageID, turns[j]).head)
    ensures Ancestor(parents, Report(storageID, turns[i]).head, Report(storageID, turns[j]).head)
  {
    hide Report;
    forall k | 0 <= k <= j ensures Extends(parents, Reports(storageID, turns), k) {
      ReportExtends(parents, storageID, branch, turns, k);
    }
    ExtendingReportsFormAChain(parents, Reports(storageID, turns), i, j);
  }

  /** Every clean report is about the assigned branch, whose tip it names, with nothing left uncommitted. */
  lemma CleanReportNamesTheBranchTip(storageID: string, branch: string, turns: seq<Turn>, i: nat)
    requires Serialized(storageID, branch, turns) && i < |turns| && IsClean(storageID, turns[i])
    ensures var d := InspectedDisk(storageID, turns[i]);
            && HeadBranch(d) == Some(branch) && branch in d.branches
            && d.branches[branch] == Report(storageID, turns[i]).head
            && Uncommitted(d) == {}
  {
    var t := turns[i];
    var r := PreparedBy(storageID, t);
    var forced := if r.ok then NoReason else r.reason;
    InspectVerdict(InspectedDisk(storageID, t), storageID, t.payload, r.base, forced, t.inspect);
  }

  // ---- The recorded base commit ----

  /** Only the worker writes the metadata file: each session finds what the one before it left there. */
  ghost predicate MetadataKept(storageID: string, turns: seq<Turn>) {
    && (|turns| > 0 ==> turns[0].start.metadata == None)
    && forall i, j :: 0 <= i && j == i + 1 < |turns| ==>
         turns[j].start.metadata == Prepare(turns[i].start, storageID, turns[i].payload, turns[i].faults).0.metadata
  }

  /** The session has something to hold HEAD against: an expected head, or a base commit it managed to record. */
  predicate Anchored(storageID: string, t: Turn) {
    Anchor(t.payload, PreparedBy(storageID, t).base) != ""
  }

  ghost predicate AllAnchored(storageID: string, turns: seq<Turn>) {
    forall t :: t in turns && IsClean(storageID, t) ==> Anchored(storageID, t)
  }

  ghost predicate BaseBelow(parents: Parents, metadata: Option<Metadata>, head: string) {
    metadata.Some? ==>
      && IsOid(metadata.value.base)
      && (head != "" ==> IsOid(head) && Ancestor(parents, metadata.value.base, head))
  }

  /** What preparing does to the recorded base: it keeps it, or it records the starting commit. */
  lemma PrepareRecordsBase(parents: Parents, d: Disk, storageID: string, p: Payload, f: PrepareFaults)
    requires BaseBelow(parents, d.metadata, p.expectedHeadSHA)
    requires p.expectedHeadSHA == "" || IsOid(p.expectedHeadSHA)
    ensures var (after, r) := Prepare(d, storageID, p, f);
            && BaseBelow(parents, after.metadata, p.expectedHeadSHA)
            && (r.base != "" && r.reason == NoReason ==> after.metadata.Some? && after.metadata.value.base == r.base)
  {
    hide ResolveBaseRef, Text.TrimSpace, Text.Lower;
    if p.expectedHeadSHA != "" {
      OidFoldIsEquality(p.expectedHeadSHA, p.expectedHeadSHA);
      AncestorReflexive(parents, p.expectedHeadSHA);
    }
  }

  /** One session keeps the recorded base below the last clean head, and below the head it reports clean itself. */
  lemma TurnKeepsBaseBelow(parents: Parents, storageID: string, t: Turn)
    requires Sound(parents, storageID, t)
    requires IsClean(storageID, t) ==> Anchored(storageID, t)
    requires t.payload.expectedHeadSHA == "" || IsOid(t.payload.expectedHeadSHA)
    requires BaseBelow(parents, t.start.metadata, t.payload.expectedHeadSHA)
    ensures var (after, r) := Prepare(t.start, storageID, t.payload, t.faults);
            var head := if IsClean(storageID, t) then Report(storageID, t).head else t.payload.expectedHeadSHA;
            && BaseBelow(parents, after.metadata, head)
            && (IsClean(storageID, t) && r.base != "" ==> IsOid(r.base) && Ancestor(parents, r.base, head))
  {
    hide Report, Sound, Prepare, Text.TrimSpace;
    var expected := t.payload.expectedHeadSHA;
    var (after, r) := Prepare(t.start, storageID, t.payload, t.faults);
    PrepareRecordsBase(parents, t.start, storageID, t.payload, t.faults);
    if IsClean(storageID, t) {
      var head := Report(storageID, t).head;
      CleanIsUnforced(storageID, t);
      NothingTrims();
      if expected != "" {
        CleanDescendsFromExpectedHead(parents, storageID, t, expected);
        if after.metadata.Some? {
          AncestorTransitive(parents, after.metadata.value.base, expected, head);
        }
      } else {
        assert TrimSpace(r.base) == r.base by { OidTrims(after.metadata.value.base); }
        CleanDescendsFromAnchor(parents, storageID, t, r.base);
      }
    }
  }

  lemma CleanIsUnforced(storageID: string, t: Turn)
    requires IsClean(storageID, t)
    ensures PreparedBy(storageID, t).reason == NoReason
  {
    PrepareReasons(t.start, storageID, t.payload, t.faults);
  }

  lemma PrepareReasons(d: Disk, storageID: string, p: Payload, f: PrepareFaults)
    ensures Prepare(d, storageID, p, f).1.ok ==> Prepare(d, storageID, p, f).1.reason == NoReason
  {
    hide ResolveBaseRef, Text.TrimSpace, Text.Lower, StartingCommit;
  }

  /** What the server expects next: the head of a clean report, or what it expected before. */
  lemma ExpectedHeadMoves(storageID: string, branch: string, turns: seq<Turn>, n: nat)
    requires Serialized(storageID, branch, turns) && 0 < n < |turns|
    ensures var t := turns[n - 1];
            turns[n].payload.expectedHeadSHA
            == if IsClean(storageID, t) then Report(storageID, t).head else t.payload.expectedHeadSHA
  {
    hide AcceptedWorkingCopy, Report;
    var reports := Reports(storageID, turns[..n]);
    assert reports[..n - 1] == Reports(storageID, turns[..n - 1]);
  }

  lemma NothingExpectedFirst(storageID: string, branch: string, turns: seq<Turn>)
    requires Serialized(storageID, branch, turns) && |turns| > 0
    ensures turns[0].payload.expectedHeadSHA == ""
  {
    hide AcceptedWorkingCopy, Report;
    assert Reports(storageID, turns[..0]) == [];
  }

  lemma {:induction false} BaseStaysBelow(parents: Parents, storageID: string, branch: string, turns: seq<Turn>, n: nat)
    requires Serialized(storageID, branch, turns) && AllSound(parents, storageID, turns)
    requires MetadataKept(storageID, turns) && AllAnchored(storageID, turns)
    requires n < |turns|
    ensures var expected := turns[n].payload.expectedHeadSHA;
            (expected == "" || IsOid(expected)) && BaseBelow(parents, turns[n].start.metadata, expected)
  {
    hide Serialized, Report, Sound, Prepare, Anchored, Ancestor, IsOid;
    if n == 0 {
      NothingExpectedFirst(storageID, branch, turns);
    } else {
      var t := turns[n - 1];
      BaseStaysBelow(parents, storageID, branch, turns, n - 1);
      assert t in turns;
      TurnKeepsBaseBelow(parents, storageID, t);
      ExpectedHeadMoves(storageID, branch, turns, n);
      if IsClean(storageID, t) {
        CleanHeadIsOid(storageID, t);
      }
    }
  }

  /**
    When only the worker writes the metadata and every clean report was anchored, the base commit a session reports
    is an ancestor of the head it reports clean and of every later clean head.
   */
  lemma CleanHeadsDescendFromRecordedBase(
    parents: Parents, storageID: string, branch: string, turns: seq<Turn>, i: nat, j: nat)
    requires Serialized(storageID, branch, turns) && AllSound(parents, storageID, turns)
    requires MetadataKept(storageID, turns) && AllAnchored(storageID, turns)
    requires i <= j < |turns| && IsClean(storageID, turns[i]) && IsClean(storageID, turns[j])
    requires Report(storageID, turns[i]).base != ""
    ensures IsOid(Report(storageID, turns[i]).base) && IsOid(Report(storageID, turns[j]).head)
    ensures Ancestor(parents, Report(storageID, turns[i]).base, Report(storageID, turns[j]).head)
  {
    BaseStaysBelow(parents, storageID, branch, turns, i);
    assert turns[i] in turns;
    TurnKeepsBaseBelow(parents, storageID, turns[i]);
    CleanHeadIsOid(storageID, turns[i]);
    CleanHeadIsOid(storageID, turns[j]);
    if i < j {
      CleanHeadsFormAChain(parents, storageID, branch, turns, i, j);
      var earlier, later := Report(storageID, turns[i]), Report(storageID, turns[j]);
      AncestorTransitive(parents, earlier.base, earlier.head, later.head);
    }
  }

  // ---- When a clean report has nothing to stand on ----

  const NO_PREPARE_FAULT := PrepareFaults(
    false, false, false, false, false, false, AddWorks, false, NoRoot, false, false, false, false, false, false)

  const INSPECT_NOTHING_FAILS := InspectAnswers(true, false, false, false, false, false, false)

  /** A session that finds a worktree on its branch at commit `c`, all clean, and whose preparation meets `f`. */
  function UnpreparedTurn(p: Payload, f: PrepareFaults, capture: CaptureAnswers, c: Oid): Turn {
    var d := Disk({c}, map[p.branch := c], map[], Checkout(Tree(OnBranch(p.branch), {}, {})), None);
    Turn(p, [], d, f, d, EngineFailed, capture, None, INSPECT_NOTHING_FAILS)
  }

  /**
    The exact condition: a clean report can lack any anchor if and only if no head was expected and the preparation
    failed on the repository cache or on the parent directory. Such a report can then name any commit at all.
   */
  lemma UnanchoredExactlyAfterEarlyFailure(parents: Parents, storageID: string, p: Payload, f: PrepareFaults)
    requires AcceptedWorkingCopy(p) && TrimSpace(p.expectedHeadSHA) == p.expectedHeadSHA
    ensures (forall t: Turn |
               t.payload == p && t.faults == f && Sound(parents, storageID, t) && IsClean(storageID, t) ::
               Anchored(storageID, t))
            <==> !(p.expectedHeadSHA == "" && (f.repository || f.parentDirectory))
    ensures p.expectedHeadSHA == "" && (f.repository || f.parentDirectory) ==>
              forall c: Oid, capture :: var t := UnpreparedTurn(p, f, capture, c);
                && Sound(parents, storageID, t) && !Anchored(storageID, t)
                && IsClean(storageID, t) && Report(storageID, t).head == c
  {
    if p.expectedHeadSHA == "" && (f.repository || f.parentDirectory) {
      forall c: Oid, capture
        ensures var t := UnpreparedTurn(p, f, capture, c);
                && Sound(parents, storageID, t) && !Anchored(storageID, t)
                && IsClean(storageID, t) && Report(storageID, t).head == c
      {
        EarlyFailureIsUnanchored(parents, storageID, p, f, capture, c);
      }
      var c: Oid := seq(40, _ => '0');
      var faults := CaptureFaults(false, false, false, false, false, false, false, false);
      var t := UnpreparedTurn(p, f, CaptureAnswers(faults, c, None, false), c);
      assert t.payload == p && t.faults == f;
      EarlyFailureIsUnanchored(parents, storageID, p, f, t.capture, c);
    } else {
      forall t: Turn | t.payload == p && t.faults == f && IsClean(storageID, t)
        ensures Anchored(storageID, t)
      {
        CleanWithoutEarlyFailureIsAnchored(storageID, t);
      }
    }
  }

  lemma EarlyFailureIsUnanchored(
    parents: Parents, storageID: string, p: Payload, f: PrepareFaults, capture: CaptureAnswers, c: Oid)
    requires p.expectedHeadSHA == "" && (f.repository || f.parentDirectory)
    ensures var t := UnpreparedTurn(p, f, capture, c);
            && Sound(parents, storageID, t) && !Anchored(storageID, t)
            && IsClean(storageID, t) && Report(storageID, t).head == c
  {
    TrimFixed("", IsSpace);
  }

  lemma CleanWithoutEarlyFailureIsAnchored(storageID: string, t: Turn)
    requires TrimSpace(t.payload.expectedHeadSHA) == t.payload.expectedHeadSHA
    requires t.payload.expectedHeadSHA != "" || !(t.faults.repository || t.faults.parentDirectory)
    requires IsClean(storageID, t)
    ensures Anchored(storageID, t)
  {
    hide Text.TrimSpace;
    if t.payload.expectedHeadSHA == "" {
      CleanIsUnforced(storageID, t);
      PrepareHasBase(t.start, storageID, t.payload, t.faults);
    }
  }

  /** Only the two earliest failures end a preparation without a reason and without a base commit. */
  lemma PrepareHasBase(d: Disk, storageID: string, p: Payload, f: PrepareFaults)
    requires !f.repository && !f.parentDirectory && Prepare(d, storageID, p, f).1.reason == NoReason
    ensures TrimSpace(Prepare(d, storageID, p, f).1.base) != ""
  {
    hide ResolveBaseRef, Text.TrimSpace, Text.Lower;
    if d.root.NoRoot? {
      OidTrims(StartingCommit(d, p).value);
    }
  }

  // ---- One session from beginning to end ----

  /** The commit an anchor names: a full id in any case names itself, anything else is looked up. */
  function AnchorCommit(d: Disk, anchor: string): Option<Oid> {
    if IsOid(Lower(anchor)) then Some(Lower(anchor)) else ResolveRevision(d, anchor)
  }

  ghost predicate HeadDescends(parents: Parents, d: Disk, anchor: string) {
    && HeadOid(d).Some? && AnchorCommit(d, anchor).Some?
    && Ancestor(parents, AnchorCommit(d, anchor).value, HeadOid(d).value)
  }

  /** A verified head descends from the anchor, however that is written. */
  lemma VerifiedDescends(parents: Parents, storageID: string, t: Turn)
    requires Sound(parents, storageID, t)
    requires var base := PreparedBy(storageID, t).base;
             Anchor(t.payload, base) != "" && Verified(InspectedDisk(storageID, t), t.payload, base, t.inspect)
    ensures HeadDescends(parents, InspectedDisk(storageID, t), Anchor(t.payload, PreparedBy(storageID, t).base))
  {
    hide Prepare, Text.TrimSpace;
    var d, anchor := InspectedDisk(storageID, t), Anchor(t.payload, PreparedBy(storageID, t).base);
    var head := HeadOid(d).value;
    OidFoldIsEquality(head, head);
    AncestorReflexive(parents, head);
  }

  /** After a successful preparation, leaving the branch or the history is always reported with a reason. */
  lemma DepartureIsReported(parents: Parents, storageID: string, t: Turn)
    requires Sound(parents, storageID, t) && PreparedBy(storageID, t).ok
    requires var d := InspectedDisk(storageID, t);
             || HeadBranch(d) != Some(t.payload.branch)
             || !HeadDescends(parents, d, Anchor(t.payload, PreparedBy(storageID, t).base))
    ensures Report(storageID, t).state == RecoveryRequired && Report(storageID, t).reason != NoReason
  {
    var d, base := InspectedDisk(storageID, t), PreparedBy(storageID, t).base;
    PreparedWorkingCopy(t.start, storageID, t.payload, t.faults);
    PrepareReasons(t.start, storageID, t.payload, t.faults);
    InspectVerdict(d, storageID, t.payload, base, NoReason, t.inspect);
    hide Prepare, HeadDescends, Text.TrimSpace, Text.Lower;
    if Verified(d, t.payload, base, t.inspect) {
      VerifiedDescends(parents, storageID, t);
    }
  }

  /** What a successful preparation hands to the agent. */
  lemma PreparedWorkingCopy(d: Disk, storageID: string, p: Payload, f: PrepareFaults)
    requires Prepare(d, storageID, p, f).1.ok
    ensures var (after, r) := Prepare(d, storageID, p, f);
            && HeadBranch(after) == Some(p.branch)
            && HeadOid(after).Some?
            && after.metadata == Some(Metadata(storageID, p.branch, r.base))
            && TrimSpace(r.base) != ""
            && (d.root.Checkout? ==>
                  && after == d
                  && EqualFold(HeadOid(d).value, if p.expectedHeadSHA == "" then r.base else p.expectedHeadSHA))
            && (d.root.NoRoot? ==>
                  && p.initialize
                  && p.branch !in d.branches
                  && StartingCommit(d, p) == Some(r.base)
                  && HeadOid(after) == Some(r.base)
                  && Uncommitted(after) == {}
                  && after.branches - {p.branch} == d.branches)
  {
    hide ResolveBaseRef, Text.TrimSpace, Text.Lower;
    if d.root.NoRoot? {
      OidTrims(StartingCommit(d, p).value);
    }
  }

  /** A session ends without an error only with a clean report, and then its source commit, if any, is the head. */
  lemma SuccessIsCleanAndSourceIsHead(storageID: string, t: Turn)
    requires RunTurn(storageID, t).error.None?
    ensures RunTurn(storageID, t).report.state == Clean
    ensures t.meddling == None ==> RunTurn(storageID, t).source in {"", RunTurn(storageID, t).report.head}
  {
    var r := PreparedBy(storageID, t);
    InspectVerdict(InspectedDisk(storageID, t), storageID, t.payload, r.base, NoReason, t.inspect);
  }

  /** Nothing fails, nobody meddles, and git finds a descendant whenever there is one. */
  ghost predicate Undisturbed(parents: Parents, storageID: string, t: Turn, anchor: Oid) {
    && PreparedBy(storageID, t).ok && t.ending == EngineFinished && t.meddling == None
    && t.capture.faults == CaptureFaults(false, false, false, false, false, false, false, false)
    && t.inspect == INSPECT_NOTHING_FAILS.(descends := t.inspect.descends)
    && AnchorCommit(InspectedDisk(storageID, t), Anchor(t.payload, PreparedBy(storageID, t).base)) == Some(anchor)
    && var d := InspectedDisk(storageID, t);
       HeadOid(d).Some? && Ancestor(parents, anchor, HeadOid(d).value) ==> t.inspect.descends
  }

  /** What the capture leaves behind: changes outside the workdir that nobody staged, and the scratch directory. */
  function LeftBehind(t: Tree, subdir: Path): set<Path> {
    (set x | x in t.unstaged && !InWorkdir(subdir, x)) + (set x | x in t.staged + t.unstaged && InScratch(subdir, x))
  }

  /**
    An undisturbed session whose agent stayed on the branch and kept the history succeeds if and only if the agent
    left no unstaged change outside the workdir and nothing in the scratch directory.
   */
  lemma UndisturbedSessionSucceedsExactly(parents: Parents, storageID: string, t: Turn, anchor: Oid)
    requires Undisturbed(parents, storageID, t, anchor)
    requires HeadBranch(t.agent) == Some(t.payload.branch) && HeadOid(t.agent).Some?
    requires Ancestor(parents, anchor, HeadOid(t.agent).value)
    requires HeadOid(t.agent).value in parents(t.capture.commitAs)
    ensures RunTurn(storageID, t).error.None? <==> LeftBehind(t.agent.root.tree, t.subdir) == {}
    ensures Report(storageID, t).state != RecoveryRequired
  {
    var tree := t.agent.root.tree;
    var staged := Staged(tree, t.subdir, false);
    StagedLeavesBehind(tree, t.subdir);
    var d := InspectedDisk(storageID, t);
    assert d == CapturedBy(t).0;
    PrepareReasons(t.start, storageID, t.payload, t.faults);
    if staged.staged != {} {
      ParentIsAncestor(parents, HeadOid(t.agent).value, t.capture.commitAs);
      AncestorTransitive(parents, anchor, HeadOid(t.agent).value, t.capture.commitAs);
      assert HeadOid(d) == Some(t.capture.commitAs);
    } else {
      assert HeadOid(d) == HeadOid(t.agent);
    }
    assert Uncommitted(d) == LeftBehind(tree, t.subdir);
    InspectVerdict(d, storageID, t.payload, PreparedBy(storageID, t).base, NoReason, t.inspect);
  }

  lemma StagedLeavesBehind(t: Tree, subdir: Path)
    ensures Staged(t, subdir, false).unstaged == LeftBehind(t, subdir)
  {
    assert forall x :: InScratch(subdir, x) ==> InWorkdir(subdir, x);
  }

  // ---- Creations that fail ----

  /** No metadata to reuse the working copy by, and no free branch to create it again. */
  predicate Stranded(d: Disk, branch: string) {
    d.metadata.None? && (d.root.NoRoot? ==> branch in d.branches)
  }

  /** A stranded working copy cannot be opened by any session, and trying leaves the disk as it is. */
  lemma StrandedCannotBeOpened(d: Disk, storageID: string, p: Payload, f: PrepareFaults)
    requires Stranded(d, p.branch)
    ensures OpenWorkingCopy(d, storageID, p, f).0 == d && !OpenWorkingCopy(d, storageID, p, f).1.ok
  {
    hide ResolveBaseRef, StartingCommit, Text.TrimSpace, Text.Lower;
  }

  /** The disk after a row of attempts to open the working copy. */
  function AfterAttempts(d: Disk, storageID: string, attempts: seq<(Payload, PrepareFaults)>): Disk {
    if attempts == [] then d
    else
      var last := attempts[|attempts| - 1];
      OpenWorkingCopy(AfterAttempts(d, storageID, attempts[..|attempts| - 1]), storageID, last.0, last.1).0
  }

  lemma {:induction false} StrandedForGood(
    d: Disk, storageID: string, branch: string, attempts: seq<(Payload, PrepareFaults)>)
    requires Stranded(d, branch) && forall i :: 0 <= i < |attempts| ==> attempts[i].0.branch == branch
    ensures AfterAttempts(d, storageID, attempts) == d
  {
    hide OpenWorkingCopy, Stranded;
    if attempts != [] {
      var before, last := attempts[..|attempts| - 1], attempts[|attempts| - 1];
      StrandedForGood(d, storageID, branch, before);
      StrandedCannotBeOpened(d, storageID, last.0, last.1);
    }
  }

  /**
    A failed creation that changed anything strands the branch: no later session can open the working copy, however
    many try.
   */
  lemma {:induction false} FailedCreationStrandsTheBranch(
    d: Disk, storageID: string, p: Payload, f: PrepareFaults, attempts: seq<(Payload, PrepareFaults)>,
    p': Payload, f': PrepareFaults)
    requires d.metadata == None && !Initialize(d, storageID, p, f).1.ok && Initialize(d, storageID, p, f).0 != d
    requires p'.branch == p.branch && forall i :: 0 <= i < |attempts| ==> attempts[i].0.branch == p.branch
    ensures var left := Initialize(d, storageID, p, f).0;
            && AfterAttempts(left, storageID, attempts) == left
            && !OpenWorkingCopy(AfterAttempts(left, storageID, attempts), storageID, p', f').1.ok
  {
    hide ResolveBaseRef, StartingCommit, OpenWorkingCopy, Text.TrimSpace, Text.Lower;
    var left := Initialize(d, storageID, p, f).0;
    StrandedForGood(left, storageID, p.branch, attempts);
    StrandedCannotBeOpened(left, storageID, p', f');
  }

  /** The worktree path and the branch are free, the branch is well-formed, and there is a commit to start from. */
  predicate Creatable(d: Disk, branch: string) {
    && d.root.NoRoot? && branch !in d.branches && d.objects != {}
    && TrimSpace(branch) != "" && !HasPrefix(TrimSpace(branch), "-")
  }

  /** Some session on the branch can open the working copy. */
  ghost predicate CanBeOpened(d: Disk, storageID: string, branch: string) {
    exists p: Payload, f :: p.branch == branch && OpenWorkingCopy(d, storageID, p, f).1.ok
  }

  lemma CreatableCanBeOpened(d: Disk, storageID: string, p: Payload, c: Oid)
    requires Creatable(d, p.branch) && c in d.objects
    ensures CanBeOpened(d, storageID, p.branch)
  {
    OidTrims(c);
    OidFoldIsEquality(c, c);
    hide ResolveBaseRef, Text.TrimSpace, Text.Lower;
    var again := p.(initialize := true, expectedHeadSHA := c);
    assert OpenWorkingCopy(d, storageID, again, NO_PREPARE_FAULT).1.ok;
  }

  lemma ReusableCanBeOpened(d: Disk, storageID: string, p: Payload)
    requires Reusable(d, storageID, p.branch)
    ensures CanBeOpened(d, storageID, p.branch)
  {
    OidTrims(HeadOid(d).value);
    hide ResolveBaseRef, Text.TrimSpace, Text.Lower;
    var again := p.(expectedHeadSHA := HeadOid(d).value);
    assert OpenWorkingCopy(d, storageID, again, NO_PREPARE_FAULT).1.ok;
  }

  /** Of any disk at all: some session can open the working copy if and only if it can be created or reused. */
  lemma OpenableExactly(d: Disk, storageID: string, p: Payload)
    ensures CanBeOpened(d, storageID, p.branch) <==> Creatable(d, p.branch) || Reusable(d, storageID, p.branch)
  {
    if Creatable(d, p.branch) {
      var c := SomeElement(d.objects);
      CreatableCanBeOpened(d, storageID, p, c);
    }
    if Reusable(d, storageID, p.branch) {
      ReusableCanBeOpened(d, storageID, p);
    }
    if q: Payload, f :| q.branch == p.branch && OpenWorkingCopy(d, storageID, q, f).1.ok {
      OpenedWasPossible(d, storageID, q, f);
    }
  }

  lemma OpenedWasPossible(d: Disk, storageID: string, p: Payload, f: PrepareFaults)
    requires OpenWorkingCopy(d, storageID, p, f).1.ok
    ensures Creatable(d, p.branch) || Reusable(d, storageID, p.branch)
  {
    hide BaseRefCandidates, Text.TrimSpace, Text.Lower;
    if d.root.NoRoot? {
      StartIsPresent(d, p);
    }
  }

  lemma StartIsPresent(d: Disk, p: Payload)
    ensures StartingCommit(d, p).Some? ==> StartingCommit(d, p).value in d.objects
  {
    hide BaseRefCandidates, Text.TrimSpace, Text.Lower;
    FoundIsPresent(d, BaseRefCandidates(TrimSpace(p.defaultBranch)));
  }

  lemma {:induction false} FoundIsPresent(d: Disk, candidates: seq<string>)
    ensures FirstResolved(d, candidates).Some? ==> FirstResolved(d, candidates).value in d.objects
  {
    if candidates != [] {
      FoundIsPresent(d, candidates[1..]);
    }
  }

  /**
    A failed creation can be tried again if and only if it left everything as it was, or what it left can be reused.
    Without older metadata, that is exactly when neither a branch nor anything at the path was left behind.
   */
  lemma FailedCreationCanBeRetriedExactly(d: Disk, storageID: string, p: Payload, f: PrepareFaults)
    requires Creatable(d, p.branch) && !Initialize(d, storageID, p, f).1.ok
    ensures var left := Initialize(d, storageID, p, f).0;
            && (CanBeOpened(left, storageID, p.branch) <==> left == d || Reusable(left, storageID, p.branch))
            && (d.metadata == None ==>
                  (CanBeOpened(left, storageID, p.branch) <==> left.root.NoRoot? && p.branch !in left.branches))
  {
    hide ResolveBaseRef, StartingCommit, CanBeOpened, Text.TrimSpace, Text.Lower;
    OpenableExactly(Initialize(d, storageID, p, f).0, storageID, p);
  }

  /**
    The two failures that strand the branch of a new working copy: an interrupted `git worktree add`, whatever it
    leaves at the path, and a failed metadata write, whatever removing the worktree leaves there.
   */
  lemma TwoFailuresStrandTheBranch(d: Disk, storageID: string, p: Payload, left: Root)
    requires Creatable(d, p.branch) && d.metadata == None && StartingCommit(d, p).Some?
    ensures var (after, r) := Initialize(d, storageID, p, NO_PREPARE_FAULT.(worktreeAdd := AddInterrupted(left)));
            && r.reason == WorkspaceProbeFailed && after.root == left && after != d
            && !CanBeOpened(after, storageID, p.branch)
    ensures var f := NO_PREPARE_FAULT.(metadataWrite := true, afterRemove := left);
            var (after, r) := Initialize(d, storageID, p, f);
            && r.reason == MetadataMissing && after.root == left && after != d
            && !CanBeOpened(after, storageID, p.branch)
  {
    hide ResolveBaseRef, ResolveRevision, CanBeOpened, Text.TrimSpace, Text.Lower;
    FailedCreationCanBeRetriedExactly(d, storageID, p, NO_PREPARE_FAULT.(worktreeAdd := AddInterrupted(left)));
    FailedCreationCanBeRetriedExactly(d, storageID, p, NO_PREPARE_FAULT.(metadataWrite := true, afterRemove := left));
    assert p.expectedHeadSHA == "" ==> ResolveBaseRef(d, p.defaultBranch).Some?;
  }

  // ---- Such runs exist ----

  /** A session on a disk that the agent leaves alone, in which nothing fails. */
  function QuietTurn(p: Payload, start: Disk, left: Disk, c: Oid): Turn {
    var faults := CaptureFaults(false, false, false, false, false, false, false, false);
    var answers := CaptureAnswers(faults, c, None, false);
    Turn(p, [], start, NO_PREPARE_FAULT, left, EngineFinished, answers, None, INSPECT_NOTHING_FAILS)
  }

  /** A fresh disk on which only HEAD can be resolved, and the same disk with the working copy at that commit. */
  function FreshDisk(c: Oid): Disk {
    Disk({c}, map[], map["HEAD" := c], NoRoot, None)
  }

  function WorkingDisk(storageID: string, branch: string, c: Oid): Disk {
    FreshDisk(c).(branches := map[branch := c], root := Checkout(Tree(OnBranch(branch), {}, {})),
                  metadata := Some(Metadata(storageID, branch, c)))
  }

  lemma OnlyHeadResolves(c: Oid, defaultBranch: string)
    requires TrimSpace(defaultBranch) == ""
    ensures ResolveBaseRef(FreshDisk(c), defaultBranch) == Some(c)
  {
    var d := FreshDisk(c);
    hide Text.TrimSpace;
    assert BaseRefCandidates("") == ["refs/remotes/origin/HEAD", "HEAD"];
    assert |Lower("refs/remotes/origin/HEAD")| == 24 && |Lower("HEAD")| == 4;
    assert "refs/remotes/origin/HEAD" != "HEAD";
    assert ResolveRevision(d, "refs/remotes/origin/HEAD") == None;
    assert ResolveRevision(d, "HEAD") == Some(c);
    assert FirstResolved(d, ["HEAD"]) == Some(c);
    assert ["refs/remotes/origin/HEAD", "HEAD"][1..] == ["HEAD"];
  }

  /** The first session creates the working copy at commit `c` and reports it clean. */
  lemma FirstSessionIsClean(storageID: string, p: Payload, c: Oid)
    requires p.expectedHeadSHA == "" && p.initialize && TrimSpace(p.defaultBranch) == ""
    requires TrimSpace(p.branch) == p.branch != "" && !HasPrefix(p.branch, "-")
    ensures var t := QuietTurn(p, FreshDisk(c), WorkingDisk(storageID, p.branch, c), c);
            && Prepare(t.start, storageID, p, t.faults) == (t.agent, Prepared(true, NoReason, c))
            && IsClean(storageID, t) && Report(storageID, t).head == c && Report(storageID, t).base == c
  {
    OnlyHeadResolves(c, p.defaultBranch);
    OidTrims(c);
    OidFoldIsEquality(c, c);
    NothingTrims();
    hide Text.TrimSpace, Text.Lower, BaseRefCandidates, FirstResolved;
  }

  /** Every later one finds the expected head and reports it clean again. */
  lemma LaterSessionIsClean(storageID: string, p: Payload, c: Oid)
    requires p.expectedHeadSHA == c
    ensures var d := WorkingDisk(storageID, p.branch, c);
            var t := QuietTurn(p, d, d, c);
            && Prepare(d, storageID, p, t.faults) == (d, Prepared(true, NoReason, c))
            && IsClean(storageID, t) && Report(storageID, t).head == c && Report(storageID, t).base == c
  {
    OidTrims(c);
    OidFoldIsEquality(c, c);
    hide Text.TrimSpace, Text.Lower, ResolveBaseRef;
  }

  lemma QuietTurnIsSound(parents: Parents, storageID: string, t: Turn)
    requires t.inspect == INSPECT_NOTHING_FAILS
    ensures Sound(parents, storageID, t)
  {
    hide Prepare;
  }

  lemma QuietTurnIsAnchored(storageID: string, t: Turn, c: Oid)
    requires PreparedBy(storageID, t).base == c && (t.payload.expectedHeadSHA == "" || t.payload.expectedHeadSHA == c)
    ensures Anchored(storageID, t)
  {
    OidTrims(c);
    NothingTrims();
    hide Text.TrimSpace, Prepare;
  }

  lemma NextPayloadIsAccepted(p: Payload, c: Oid)
    requires AcceptedWorkingCopy(p)
    ensures AcceptedWorkingCopy(p.(expectedHeadSHA := c))
  {
  }

  lemma TwoTurnsAreSerialized(storageID: string, branch: string, t: Turn, u: Turn)
    requires AcceptedWorkingCopy(t.payload) && AcceptedWorkingCopy(u.payload)
    requires t.payload.branch == u.payload.branch == branch
    requires IsClean(storageID, t) && t.payload.expectedHeadSHA == ""
    requires u.payload.expectedHeadSHA == Report(storageID, t).head
    ensures Serialized(storageID, branch, [t, u])
  {
    hide AcceptedWorkingCopy, Report;
    var turns := [t, u];
    assert turns[..0] == [] && turns[..1] == [t];
    assert Reports(storageID, [t]) == [Report(storageID, t)];
  }

  /** The assumptions about runs can be met together: two sessions, both clean and anchored, on one working copy. */
  lemma CleanRunsExist(parents: Parents, storageID: string, p: Payload, c: Oid) returns (turns: seq<Turn>)
    requires AcceptedWorkingCopy(p) && p.expectedHeadSHA == "" && p.initialize && TrimSpace(p.defaultBranch) == ""
    requires TrimSpace(p.branch) == p.branch && !HasPrefix(p.branch, "-")
    ensures |turns| == 2 && turns[0].payload == p
    ensures Serialized(storageID, p.branch, turns) && AllSound(parents, storageID, turns)
    ensures MetadataKept(storageID, turns) && AllAnchored(storageID, turns)
    ensures IsClean(storageID, turns[0]) && IsClean(storageID, turns[1]) && Report(storageID, turns[1]).base == c
  {
    var q := p.(expectedHeadSHA := c);
    var d := WorkingDisk(storageID, p.branch, c);
    var t, u := QuietTurn(p, FreshDisk(c), d, c), QuietTurn(q, d, d, c);
    FirstSessionIsClean(storageID, p, c);
    LaterSessionIsClean(storageID, q, c);
    hide AcceptedWorkingCopy, Prepare, Report, Sound, Anchored, IsOid, Serialized;
    NextPayloadIsAccepted(p, c);
    TwoTurnsAreSerialized(storageID, p.branch, t, u);
    QuietTurnIsSound(parents, storageID, t);
    QuietTurnIsSound(parents, storageID, u);
    QuietTurnIsAnchored(storageID, t, c);
    QuietTurnIsAnchored(storageID, u, c);
    turns := [t, u];
  }
}
