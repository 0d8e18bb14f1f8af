/** Writing normalized skill bundles below the session's skills directory, which starts out empty. */
module SkillTree {
  import opened Text
  import Layout
  import opened Ordering
  import opened Payloads
  import opened Names
  import opened Paths
  import opened SkillPaths
  import opened SkillBundles

  /** Files and directories below the skills directory, by relative path. */
  datatype Tree = Tree(files: map<Path, string>, dirs: set<Path>)

  datatype Op = Dir(path: Path) | File(path: Path, content: string)

  const EMPTY := Tree(map[], {})
  const MANIFEST := "manifest.json"

  function Prefixes(p: Path): (r: set<Path>)
    ensures forall q :: q in r <==> q != [] && q <= p
  {
    var r := set k | 1 <= k <= |p| :: p[..k];
    assert forall q :: q != [] && q <= p ==> q == p[..|q|];
    r
  }

  function Parent(p: Path): Path
    requires p != []
  {
    p[..|p| - 1]
  }

  /** Fails when a file is in the way. */
  function MkdirAll(t: Tree, d: Path): Option<Tree> {
    if Prefixes(d) !! t.files.Keys then Some(t.(dirs := t.dirs + Prefixes(d))) else None
  }

  /** Fails on a directory, and without the parent directory. */
  function WriteFile(t: Tree, p: Path, content: string): Option<Tree>
    requires p != []
  {
    if p in t.dirs || (Parent(p) != [] && Parent(p) !in t.dirs) then None else Some(t.(files := t.files[p := content]))
  }

  function Do(t: Tree, op: Op): Option<Tree>
    requires op.path != []
  {
    match op
    case Dir(d) => MkdirAll(t, d)
    case File(p, content) =>
      match MkdirAll(t, Parent(p))
      case None => None
      case Some(made) => WriteFile(made, p, content)
  }

  predicate Proper(ops: seq<Op>) {
    forall i :: 0 <= i < |ops| ==> ops[i].path != []
  }

  function Run(ops: seq<Op>): Option<Tree>
    requires Proper(ops)
  {
    if ops == [] then Some(EMPTY)
    else match Run(ops[..|ops| - 1])
      case None => None
      case Some(t) => Do(t, ops[|ops| - 1])
  }

  // ---- When writing succeeds ----

  /** The directories an operation needs. */
  function Needs(op: Op): set<Path>
    requires op.path != []
  {
    Prefixes(if op.Dir? then op.path else Parent(op.path))
  }

  function Needed(ops: seq<Op>): set<Path>
    requires Proper(ops)
  {
    if ops == [] then {} else Needed(ops[..|ops| - 1]) + Needs(ops[|ops| - 1])
  }

  function FilePaths(ops: seq<Op>): set<Path> {
    if ops == [] then {} else FilePaths(ops[..|ops| - 1]) + if ops[|ops| - 1].File? then {ops[|ops| - 1].path} else {}
  }

  lemma DoExactly(t: Tree, op: Op)
    requires op.path != []
    ensures Do(t, op).Some? <==> Needs(op) !! t.files.Keys && !(op.File? && op.path in t.dirs)
    ensures Do(t, op).Some? ==>
              var r := Do(t, op).value;
              r.dirs == t.dirs + Needs(op) && r.files == if op.File? then t.files[op.path := op.content] else t.files
    ensures op.File? ==> op.path !in Needs(op)
  {
    if op.File? {
      var parent := Parent(op.path);
      assert op.path !in Prefixes(parent) && (parent != [] ==> parent in Prefixes(parent));
    }
  }

  /** In whatever order: everything is written exactly when no file stands where a directory is needed. */
  lemma {:induction false} RunExactly(ops: seq<Op>)
    requires Proper(ops)
    ensures Run(ops).Some? <==> FilePaths(ops) !! Needed(ops)
    ensures Run(ops).Some? ==> Run(ops).value.dirs == Needed(ops) && Run(ops).value.files.Keys == FilePaths(ops)
  {
    hide Do, Needs;
    if ops != [] {
      var before, last := ops[..|ops| - 1], ops[|ops| - 1];
      RunExactly(before);
      if Run(before).Some? {
        DoExactly(Run(before).value, last);
      }
    }
  }

  lemma {:induction false} NeededBy(ops: seq<Op>, q: Path)
    requires Proper(ops)
    ensures q in Needed(ops) <==> exists i :: 0 <= i < |ops| && q in Needs(ops[i])
  {
    hide Needs;
    if ops != [] {
      NeededBy(ops[..|ops| - 1], q);
    }
  }

  lemma {:induction false} FilePathsAre(ops: seq<Op>, q: Path)
    ensures q in FilePaths(ops) <==> exists i :: 0 <= i < |ops| && ops[i].File? && ops[i].path == q
  {
    if ops != [] {
      FilePathsAre(ops[..|ops| - 1], q);
    }
  }

  /** Operations on one path agree about the content. */
  ghost predicate Functional(ops: seq<Op>) {
    forall i, j |
      0 <= i < |ops| && 0 <= j < |ops| && ops[i].File? && ops[j].File? && ops[i].path == ops[j].path ::
      ops[i] == ops[j]
  }

  lemma {:induction false} RunWritesContents(ops: seq<Op>)
    requires Proper(ops) && Run(ops).Some? && Functional(ops)
    ensures forall i :: 0 <= i < |ops| && ops[i].File? ==>
              ops[i].path in Run(ops).value.files && Run(ops).value.files[ops[i].path] == ops[i].content
  {
    if ops != [] {
      hide Needs;
      var before, last := ops[..|ops| - 1], ops[|ops| - 1];
      RunWritesContents(before);
      DoExactly(Run(before).value, last);
      assert ops == before + [last];
    }
  }

  // ---- The operations of bundles ----

  function Target(b: NormalBundle, f: NormalFile): Path {
    [b.directoryName] + Components(f.path)
  }

  function FileOps(b: NormalBundle, files: seq<NormalFile>): (ops: seq<Op>)
    ensures |ops| == |files| && Proper(ops)
    ensures forall i :: 0 <= i < |files| ==> ops[i] == File(Target(b, files[i]), files[i].content)
  {
    seq(|files|, i requires 0 <= i < |files| => File(Target(b, files[i]), files[i].content))
  }

  function BundleOps(b: NormalBundle): (ops: seq<Op>)
    ensures Proper(ops)
  {
    [Dir([b.directoryName])] + FileOps(b, b.files)
  }

  function OpsOf(bundles: seq<NormalBundle>): (ops: seq<Op>)
    ensures Proper(ops)
  {
    if bundles == [] then [] else OpsOf(bundles[..|bundles| - 1]) + BundleOps(bundles[|bundles| - 1])
  }

  function AllOps(bundles: seq<NormalBundle>, manifest: string): (ops: seq<Op>)
    ensures Proper(ops)
  {
    OpsOf(bundles) + [File([MANIFEST], manifest)]
  }

  lemma RunFailsForGood(ops: seq<Op>, more: seq<Op>)
    requires Proper(ops) && Proper(more) && Run(ops).None?
    ensures Run(ops + more).None?
  {
    if more == [] {
      assert ops + more == ops;
    } else {
      assert (ops + more)[..|ops + more| - 1] == ops + more[..|more| - 1];
      RunFailsForGood(ops, more[..|more| - 1]);
    }
  }

  lemma OneMoreOp(ops: seq<Op>, op: Op)
    requires Proper(ops) && op.path != []
    ensures Run(ops + [op]) == if Run(ops).None? then None else Do(Run(ops).value, op)
  {
    assert (ops + [op])[..|ops|] == ops;
  }

  // ---- The loops ----

  /** One bundle, after the operations in `done`. */
  method MaterializeBundle(skillsRoot: Path, sha: string -> string, b: NormalBundle, t: Tree, ghost done: seq<Op>)
    returns (r: Option<Tree>)
    requires WellFormedBundle(sha, b) && AllPlain(skillsRoot)
    requires Proper(done) && Run(done) == Some(t)
    ensures r == Run(done + BundleOps(b))
  {
    hide WellFormedBundle, EnsurePathWithin, AllPlain, Run, Do, Components;
    var skillDir := skillsRoot + [b.directoryName];
    ghost var ops := BundleOps(b);
    TargetsArePlain(skillsRoot, sha, b);
    OneMoreOp(done, ops[0]);
    DoDirectory(t, ops[0]);
    var made := MkdirAll(t, [b.directoryName]);
    RestRuns(done, ops, 1);
    WithinMeansBelow(skillsRoot, skillDir);
    if made.None? || !EnsurePathWithin(skillsRoot, skillDir) {
      return None;
    }
    var tree, index := made.value, 0;
    assert done + ops[..1] == done + [ops[0]];
    while index < |b.files|
      invariant 0 <= index <= |b.files|
      invariant Proper(done + ops[..index + 1]) && Run(done + ops[..index + 1]) == Some(tree)
    {
      var file := b.files[index];
      var target := Target(b, file);
      ghost var op := ops[index + 1];
      assert op == File(target, file.content);
      assert done + ops[..index + 2] == (done + ops[..index + 1]) + [op];
      OneMoreOp(done + ops[..index + 1], op);
      DoFile(tree, op);
      RestRuns(done, ops, index + 2);
      WithinMeansBelow(skillDir, skillsRoot + target);
      assert skillDir <= skillsRoot + target;
      if !EnsurePathWithin(skillDir, skillsRoot + target) {
        return None;
      }
      var parent := MkdirAll(tree, Parent(target));
      if parent.None? {
        return None;
      }
      var written := WriteFile(parent.value, target, file.content);
      if written.None? {
        return None;
      }
      tree := written.value;
      index := index + 1;
    }
    assert ops[..index + 1] == ops;
    r := Some(tree);
  }

  lemma DoDirectory(t: Tree, op: Op)
    requires op.path != [] && op.Dir?
    ensures Do(t, op) == MkdirAll(t, op.path)
  {
  }

  lemma DoFile(t: Tree, op: Op)
    requires op.path != [] && op.File?
    ensures var made := MkdirAll(t, Parent(op.path));
            Do(t, op) == if made.None? then None else WriteFile(made.value, op.path, op.content)
  {
  }

  lemma RestRuns(done: seq<Op>, ops: seq<Op>, n: nat)
    requires Proper(done) && Proper(ops) && n <= |ops|
    ensures Proper(done + ops[..n])
    ensures Run(done + ops[..n]).None? ==> Run(done + ops).None?
  {
    hide Run;
    if Run(done + ops[..n]).None? {
      RunFailsForGood(done + ops[..n], ops[n..]);
      assert done + ops == done + ops[..n] + ops[n..];
    }
  }

  lemma TargetsArePlain(skillsRoot: Path, sha: string -> string, b: NormalBundle)
    requires WellFormedBundle(sha, b) && AllPlain(skillsRoot)
    ensures AllPlain(skillsRoot + [b.directoryName])
    ensures forall i | 0 <= i < |b.files| ::
              AllPlain(skillsRoot + Target(b, b.files[i])) && |Target(b, b.files[i])| >= 2
  {
    hide Plain, Components, Normalized, SkillBundleDigest;
    Layout.SafeNameIsPlain(b.directoryName);
  }

  /** Every containment check passes: only a name in the way of another can stop the writing. */
  method MaterializePayloadSkillBundles(
    skillsRoot: Path, sha: string -> string, bundles: seq<NormalBundle>, manifest: string)
    returns (r: Option<Tree>)
    requires WellFormed(sha, bundles) && AllPlain(skillsRoot)
    ensures r == Run(AllOps(bundles, manifest))
  {
    hide WellFormedBundle, AllPlain, Do, Proper, BundleOps;
    NothingRuns();
    var tree, index := EMPTY, 0;
    while index < |bundles|
      invariant 0 <= index <= |bundles|
      invariant Run(OpsOf(bundles[..index])) == Some(tree)
    {
      assert bundles[..index + 1][..index] == bundles[..index];
      OpsFailForGood(bundles, index + 1, manifest);
      var made := MaterializeBundle(skillsRoot, sha, bundles[index], tree, OpsOf(bundles[..index]));
      if made.None? {
        return None;
      }
      tree := made.value;
      index := index + 1;
    }
    assert bundles[..index] == bundles;
    OneMoreOp(OpsOf(bundles), File([MANIFEST], manifest));
    DoRootFile(tree, manifest);
    r := WriteFile(tree, [MANIFEST], manifest);
  }

  lemma NothingRuns()
    ensures Run([]) == Some(EMPTY) && OpsOf([]) == []
  {
  }

  lemma DoRootFile(t: Tree, content: string)
    ensures Do(t, File([MANIFEST], content)) == WriteFile(t, [MANIFEST], content)
  {
    assert Prefixes(Parent([MANIFEST])) == {};
    assert t.dirs + {} == t.dirs;
  }

  lemma OpsFailForGood(bundles: seq<NormalBundle>, n: nat, manifest: string)
    requires n <= |bundles|
    decreases |bundles| - n
    ensures Run(OpsOf(bundles[..n])).None? ==> Run(AllOps(bundles, manifest)).None?
  {
    hide Run, Proper, BundleOps;
    if Run(OpsOf(bundles[..n])).None? {
      if n == |bundles| {
        assert bundles[..n] == bundles;
        RunFailsForGood(OpsOf(bundles), [File([MANIFEST], manifest)]);
      } else {
        assert bundles[..n + 1][..n] == bundles[..n];
        RunFailsForGood(OpsOf(bundles[..n]), BundleOps(bundles[n]));
        OpsFailForGood(bundles, n + 1, manifest);
      }
    }
  }

  // ---- What can be in the way ----

  /** The targets of different files, in one bundle or in two, are different. */
  lemma TargetsAreDistinct(sha: string -> string, bundles: seq<NormalBundle>, a: nat, i: nat, b: nat, j: nat)
    requires WellFormed(sha, bundles) && a < |bundles| && b < |bundles|
    requires i < |bundles[a].files| && j < |bundles[b].files|
    ensures Target(bundles[a], bundles[a].files[i]) == Target(bundles[b], bundles[b].files[j]) <==> a == b && i == j
  {
    hide Plain, SafeName, Components, SkillBundleDigest, Text.Less;
    var x, y := Target(bundles[a], bundles[a].files[i]), Target(bundles[b], bundles[b].files[j]);
    if x == y {
      assert x[0] == y[0] && x[1..] == y[1..];
      assert bundles[a].files[i].path == bundles[b].files[j].path;
      AscendingKeysAreDistinct(bundles[a].files, PathOf, i, j);
    }
  }

  /** One file of a bundle would have to be a directory for another one. */
  ghost predicate FilesInTheWay(b: NormalBundle) {
    exists i, j :: 0 <= i < |b.files| && 0 <= j < |b.files| && Components(b.files[i].path) < Components(b.files[j].path)
  }

  /** What a caller can look at: no bundle is called like the manifest, and no file is another file's directory. */
  ghost predicate Fits(bundles: seq<NormalBundle>) {
    forall b :: b in bundles ==> b.directoryName != MANIFEST && !FilesInTheWay(b)
  }

  lemma {:induction false} FilePathsOfBundles(bundles: seq<NormalBundle>, q: Path)
    ensures q in FilePaths(OpsOf(bundles)) <==> exists b :: b in bundles && IsTarget(b, q)
  {
    hide Proper, FilePaths, Components;
    if bundles == [] {
      FilePathsAre(OpsOf(bundles), q);
    } else {
      var before, last := bundles[..|bundles| - 1], bundles[|bundles| - 1];
      FilePathsOfBundles(before, q);
      FilePathsConcat(OpsOf(before), BundleOps(last));
      FilePathsOfBundle(last, q);
      assert bundles == before + [last];
    }
  }

  ghost predicate IsTarget(b: NormalBundle, q: Path) {
    exists i :: 0 <= i < |b.files| && q == Target(b, b.files[i])
  }

  /** A directory that one of the bundle's operations needs. */
  ghost predicate IsNeeded(b: NormalBundle, q: Path) {
    q == [b.directoryName] || exists i :: 0 <= i < |b.files| && q in Prefixes(Parent(Target(b, b.files[i])))
  }

  lemma FilePathsOfBundle(b: NormalBundle, q: Path)
    ensures q in FilePaths(BundleOps(b)) <==> IsTarget(b, q)
  {
    hide FilePaths, Target;
    var ops := BundleOps(b);
    FilePathsAre(ops, q);
    assert forall i :: 0 <= i < |b.files| ==> ops[i + 1] == File(Target(b, b.files[i]), b.files[i].content);
    if q in FilePaths(ops) {
      var i :| 0 <= i < |ops| && ops[i].File? && ops[i].path == q;
      assert ops[(i - 1) + 1] == ops[i];
    }
    if IsTarget(b, q) {
      var i :| 0 <= i < |b.files| && q == Target(b, b.files[i]);
      assert ops[i + 1].File? && ops[i + 1].path == q;
    }
  }

  lemma NeedsInBundle(b: NormalBundle)
    ensures var ops := BundleOps(b);
            && |ops| == |b.files| + 1 && Needs(ops[0]) == Prefixes([b.directoryName])
            && forall i :: 1 <= i < |ops| ==> Needs(ops[i]) == Prefixes(Parent(Target(b, b.files[i - 1])))
  {
    hide Prefixes, Target;
  }

  lemma NeededOfBundle(b: NormalBundle, q: Path)
    ensures q in Needed(BundleOps(b)) <==> IsNeeded(b, q)
  {
    hide Needed, Needs, Components, Prefixes, BundleOps, Parent;
    var ops := BundleOps(b);
    NeededBy(ops, q);
    NeedsInBundle(b);
    OnlyPrefix(b.directoryName, q);
    if q in Needed(ops) {
      var i :| 0 <= i < |ops| && q in Needs(ops[i]);
      assert i > 0 ==> q in Prefixes(Parent(Target(b, b.files[i - 1])));
    }
    if IsNeeded(b, q) && q != [b.directoryName] {
      var i :| 0 <= i < |b.files| && q in Prefixes(Parent(Target(b, b.files[i])));
      assert q in Needs(ops[i + 1]);
    }
  }

  lemma OnlyPrefix(name: string, q: Path)
    ensures q in Prefixes([name]) <==> q == [name]
  {
  }

  lemma FilePathsConcat(a: seq<Op>, b: seq<Op>)
    ensures FilePaths(a + b) == FilePaths(a) + FilePaths(b)
  {
    if b == [] {
      assert a + b == a;
    } else {
      assert (a + b)[..|a + b| - 1] == a + b[..|b| - 1];
      FilePathsConcat(a, b[..|b| - 1]);
    }
  }

  lemma NeededConcat(a: seq<Op>, b: seq<Op>)
    requires Proper(a) && Proper(b)
    ensures Needed(a + b) == Needed(a) + Needed(b)
  {
    hide Needs;
    if b == [] {
      assert a + b == a;
    } else {
      assert (a + b)[..|a + b| - 1] == a + b[..|b| - 1];
      NeededConcat(a, b[..|b| - 1]);
    }
  }

  lemma {:induction false} NeededOfBundles(bundles: seq<NormalBundle>, q: Path)
    ensures q in Needed(OpsOf(bundles)) <==> exists b :: b in bundles && IsNeeded(b, q)
  {
    hide Proper, Needed, Components;
    if bundles == [] {
      NeededBy(OpsOf(bundles), q);
    } else {
      var before, last := bundles[..|bundles| - 1], bundles[|bundles| - 1];
      NeededOfBundles(before, q);
      NeededConcat(OpsOf(before), BundleOps(last));
      NeededOfBundle(last, q);
      assert bundles == before + [last];
    }
  }

  lemma ManifestOps(bundles: seq<NormalBundle>, manifest: string)
    ensures FilePaths(AllOps(bundles, manifest)) == FilePaths(OpsOf(bundles)) + {[MANIFEST]}
    ensures Needed(AllOps(bundles, manifest)) == Needed(OpsOf(bundles))
  {
    var last := File([MANIFEST], manifest);
    assert AllOps(bundles, manifest)[..|OpsOf(bundles)|] == OpsOf(bundles);
    assert Needs(last) == {};
  }

  /** Where two bundles meet: a target of one is needed as a directory by the other only inside one bundle. */
  lemma NeededTargetIsInTheWay(
    sha: string -> string, bundles: seq<NormalBundle>, b: NormalBundle, c: NormalBundle, q: Path)
    requires WellFormed(sha, bundles) && b in bundles && c in bundles && IsTarget(b, q) && IsNeeded(c, q)
    ensures FilesInTheWay(b)
  {
    hide Plain, SafeName, SkillBundleDigest, Normalized, Components;
    var i :| 0 <= i < |b.files| && q == Target(b, b.files[i]);
    assert q[0] == b.directoryName && q[1..] == Components(b.files[i].path);
    SameDirectorySameBundle(sha, bundles, b, c);
    TargetIsBelow(sha, b, i);
    var j :| 0 <= j < |c.files| && q in Prefixes(Parent(Target(c, c.files[j])));
    var target := Target(c, c.files[j]);
    assert q <= Parent(target) && q < target && q[0] == target[0];
    assert target[1..] == Components(c.files[j].path) && q[1..] < target[1..];
  }

  lemma TargetIsBelow(sha: string -> string, b: NormalBundle, i: nat)
    requires WellFormedBundle(sha, b) && i < |b.files|
    ensures |Target(b, b.files[i])| >= 2
  {
  }

  lemma SameDirectorySameBundle(sha: string -> string, bundles: seq<NormalBundle>, b: NormalBundle, c: NormalBundle)
    requires WellFormed(sha, bundles) && b in bundles && c in bundles
    ensures WellFormedBundle(sha, b) && WellFormedBundle(sha, c)
    ensures b.directoryName == c.directoryName ==> b == c
  {
    hide WellFormedBundle;
    var i :| 0 <= i < |bundles| && bundles[i] == b;
    var j :| 0 <= j < |bundles| && bundles[j] == c;
  }

  lemma InTheWayIsNeeded(sha: string -> string, b: NormalBundle)
    requires WellFormedBundle(sha, b) && FilesInTheWay(b)
    ensures exists q :: IsTarget(b, q) && IsNeeded(b, q)
  {
    hide Plain, SafeName, SkillBundleDigest, Normalized, Components;
    var i, j :| 0 <= i < |b.files| && 0 <= j < |b.files| && Components(b.files[i].path) < Components(b.files[j].path);
    var q, target := Target(b, b.files[i]), Target(b, b.files[j]);
    assert q == target[..|q|] == Parent(target)[..|q|];
    assert q in Prefixes(Parent(target));
    assert IsTarget(b, q) && IsNeeded(b, q);
  }

  /** The manifest stands in the way of a bundle called like it, and of nothing else. */
  lemma ManifestInTheWay(sha: string -> string, b: NormalBundle)
    requires WellFormedBundle(sha, b)
    ensures IsNeeded(b, [MANIFEST]) <==> b.directoryName == MANIFEST
  {
    hide Plain, SafeName, SkillBundleDigest, Normalized, Components;
    if i :| 0 <= i < |b.files| && [MANIFEST] in Prefixes(Parent(Target(b, b.files[i]))) {
      assert [MANIFEST][0] == Target(b, b.files[i])[0];
    }
  }

  /**
    Normalized bundles can be written in full exactly when no bundle is called like the manifest and, in each bundle,
    no file is a directory of another one. No other clash between accepted names can make the writing fail.
   */
  lemma MaterializesExactly(sha: string -> string, bundles: seq<NormalBundle>, manifest: string)
    requires WellFormed(sha, bundles)
    ensures Run(AllOps(bundles, manifest)).Some? <==> Fits(bundles)
  {
    hide WellFormed, WellFormedBundle, Run, AllOps, FilePaths, Needed, IsTarget, IsNeeded, FilesInTheWay, Proper;
    var ops := AllOps(bundles, manifest);
    RunExactly(ops);
    ManifestOps(bundles, manifest);
    if Fits(bundles) {
      forall q | q in FilePaths(ops) ensures q !in Needed(ops) {
        FilePathsOfBundles(bundles, q);
        NeededOfBundles(bundles, q);
        if q in Needed(ops) {
          var c :| c in bundles && IsNeeded(c, q);
          SameDirectorySameBundle(sha, bundles, c, c);
          if q == [MANIFEST] {
            ManifestInTheWay(sha, c);
          } else {
            var b :| b in bundles && IsTarget(b, q);
            NeededTargetIsInTheWay(sha, bundles, b, c, q);
          }
        }
      }
    } else {
      var b :| b in bundles && !(b.directoryName != MANIFEST && !FilesInTheWay(b));
      SameDirectorySameBundle(sha, bundles, b, b);
      ClashIsInconsistent(sha, bundles, b, manifest);
    }
  }

  lemma ClashIsInconsistent(sha: string -> string, bundles: seq<NormalBundle>, b: NormalBundle, manifest: string)
    requires b in bundles && WellFormedBundle(sha, b) && (b.directoryName == MANIFEST || FilesInTheWay(b))
    ensures !(FilePaths(AllOps(bundles, manifest)) !! Needed(AllOps(bundles, manifest)))
  {
    hide WellFormedBundle, AllOps, FilePaths, Needed, IsTarget, IsNeeded, FilesInTheWay, Proper;
    ManifestOps(bundles, manifest);
    if b.directoryName == MANIFEST {
      ManifestInTheWay(sha, b);
      NeededOfBundles(bundles, [MANIFEST]);
    } else {
      InTheWayIsNeeded(sha, b);
      var q :| IsTarget(b, q) && IsNeeded(b, q);
      FilePathsOfBundles(bundles, q);
      NeededOfBundles(bundles, q);
    }
  }

  /** What is written is what was normalized: every file with its content, and the manifest. */
  lemma MaterializedContents(sha: string -> string, bundles: seq<NormalBundle>, manifest: string)
    requires WellFormed(sha, bundles) && Run(AllOps(bundles, manifest)).Some?
    ensures var files := Run(AllOps(bundles, manifest)).value.files;
            && (forall q :: q in files <==> q == [MANIFEST] || exists b :: b in bundles && IsTarget(b, q))
            && ([MANIFEST] in files && files[[MANIFEST]] == manifest)
            && forall a, i :: 0 <= a < |bundles| && 0 <= i < |bundles[a].files| ==>
                 var q := Target(bundles[a], bundles[a].files[i]);
                 q in files && files[q] == bundles[a].files[i].content
  {
    hide WellFormed, Run, AllOps, FilePaths, Needed, IsTarget, Proper, Target;
    var ops := AllOps(bundles, manifest);
    RunExactly(ops);
    ManifestOps(bundles, manifest);
    forall q ensures q in FilePaths(ops) <==> q == [MANIFEST] || exists b :: b in bundles && IsTarget(b, q) {
      FilePathsOfBundles(bundles, q);
    }
    OpsAreFunctional(sha, bundles, manifest);
    RunWritesContents(ops);
    LastOp(bundles, manifest);
    forall a, i | 0 <= a < |bundles| && 0 <= i < |bundles[a].files|
      ensures var q := Target(bundles[a], bundles[a].files[i]);
              q in Run(ops).value.files && Run(ops).value.files[q] == bundles[a].files[i].content
    {
      var k := FileOpIsThere(bundles, manifest, a, i);
    }
  }

  lemma LastOp(bundles: seq<NormalBundle>, manifest: string)
    ensures var ops := AllOps(bundles, manifest); |ops| > 0 && ops[|ops| - 1] == File([MANIFEST], manifest)
  {
  }

  lemma {:induction false} FileOpInBundles(bundles: seq<NormalBundle>, a: nat, i: nat) returns (k: nat)
    requires a < |bundles| && i < |bundles[a].files|
    ensures k < |OpsOf(bundles)|
    ensures OpsOf(bundles)[k] == File(Target(bundles[a], bundles[a].files[i]), bundles[a].files[i].content)
  {
    hide Target, Proper;
    var before, last := bundles[..|bundles| - 1], bundles[|bundles| - 1];
    if a == |before| {
      k := |OpsOf(before)| + 1 + i;
      assert OpsOf(bundles)[k] == BundleOps(last)[1 + i];
    } else {
      k := FileOpInBundles(before, a, i);
    }
  }

  lemma FileOpIsThere(bundles: seq<NormalBundle>, manifest: string, a: nat, i: nat) returns (k: nat)
    requires a < |bundles| && i < |bundles[a].files|
    ensures k < |AllOps(bundles, manifest)|
    ensures AllOps(bundles, manifest)[k] == File(Target(bundles[a], bundles[a].files[i]), bundles[a].files[i].content)
  {
    hide Target, Proper, OpsOf;
    k := FileOpInBundles(bundles, a, i);
  }

  /** Every file operation comes from one file, or is the manifest. */
  lemma {:induction false} FileOpComesFrom(bundles: seq<NormalBundle>, k: nat) returns (a: nat, i: nat)
    requires k < |OpsOf(bundles)| && OpsOf(bundles)[k].File?
    ensures a < |bundles| && i < |bundles[a].files|
    ensures OpsOf(bundles)[k] == File(Target(bundles[a], bundles[a].files[i]), bundles[a].files[i].content)
  {
    hide Target, Proper;
    var before, last := bundles[..|bundles| - 1], bundles[|bundles| - 1];
    if k < |OpsOf(before)| {
      assert OpsOf(bundles)[k] == OpsOf(before)[k];
      a, i := FileOpComesFrom(before, k);
    } else {
      assert OpsOf(bundles)[k] == BundleOps(last)[k - |OpsOf(before)|];
      a, i := |before|, k - |OpsOf(before)| - 1;
    }
  }

  lemma OpsAreFunctional(sha: string -> string, bundles: seq<NormalBundle>, manifest: string)
    requires WellFormed(sha, bundles)
    ensures Functional(AllOps(bundles, manifest))
  {
    hide WellFormed, Proper, OpsOf, Target;
    var ops := AllOps(bundles, manifest);
    var n := |OpsOf(bundles)|;
    forall x, y | 0 <= x < n && 0 <= y <= n && ops[x].File? && ops[y].File? && ops[x].path == ops[y].path
      ensures ops[x] == ops[y]
    {
      assert ops[x] == OpsOf(bundles)[x];
      var a, i := FileOpComesFrom(bundles, x);
      TargetLength(sha, bundles, a, i);
      if y < n {
        assert ops[y] == OpsOf(bundles)[y];
        var b, j := FileOpComesFrom(bundles, y);
        TargetsAreDistinct(sha, bundles, a, i, b, j);
      }
    }
  }

  lemma TargetLength(sha: string -> string, bundles: seq<NormalBundle>, a: nat, i: nat)
    requires WellFormed(sha, bundles) && a < |bundles| && i < |bundles[a].files|
    ensures |Target(bundles[a], bundles[a].files[i])| >= 2
  {
    hide WellFormedBundle, Target;
    TargetIsBelow(sha, bundles[a], i);
  }
}
