/** Normalizing the skill bundles of a payload: what is accepted, in which order, under which digest. */
module SkillBundles {
  import opened Text
  import opened Collections
  import opened Ordering
  import opened Payloads
  import opened Names
  import opened Paths
  import opened SkillPaths

  /** `content` is the decoded content; none when it is missing, given twice or not decodable. */
  datatype SkillFile = SkillFile(path: string, content: Option<string>, sha256: string, executable: bool)

  datatype SkillBundle = SkillBundle(
    slug: string, name: string, revision: string, sha256: string, hash: string, contentHash: string,
    files: seq<SkillFile>)

  datatype NormalFile = NormalFile(path: string, content: string, sha256: string, executable: bool)

  datatype NormalBundle = NormalBundle(
    name: string, revision: string, directoryName: string, digest: string, files: seq<NormalFile>)

  datatype Error =
    | NameMissing | FilesMissing | NoDirectoryName | DirectoryTaken
    | BadPath | DuplicatePath | BadContent | BadHash | HashMismatch

  datatype Result<+T> = Ok(value: T) | Err(error: Error)

  // ---- One file ----

  /** None for a malformed hash, the empty string for no hash. */
  function NormalizeOptionalSHA256(value: string): Option<string> {
    var lower := TrimSpace(Lower(value));
    var hash := if HasPrefix(lower, "sha256:") then lower[7..] else lower;
    if hash == "" then Some("")
    else if |hash| != 64 || !Only(hash, IsHexDigit) then None
    else Some(hash)
  }

  function CheckedHash(given: string, actual: string): Result<string> {
    match NormalizeOptionalSHA256(given)
    case None => Err(BadHash)
    case Some(expected) => if expected != "" && expected != actual then Err(HashMismatch) else Ok(actual)
  }

  function NormalizeFile(sha: string -> string, f: SkillFile): Result<NormalFile> {
    match NormalizeSkillBundlePath(f.path)
    case None => Err(BadPath)
    case Some(path) =>
      match f.content
      case None => Err(BadContent)
      case Some(content) =>
        match CheckedHash(f.sha256, sha(content))
        case Err(e) => Err(e)
        case Ok(hash) => Ok(NormalFile(path, content, hash, f.executable))
  }

  // ---- The files of a bundle ----

  function PathsOf(files: seq<NormalFile>): set<string> {
    set f | f in files :: f.path
  }

  /** The files in the order given; a second file at one path is refused before its content is looked at. */
  function NormalizeFiles(sha: string -> string, files: seq<SkillFile>): Result<seq<NormalFile>> {
    if files == [] then Ok([])
    else
      var before, last := NormalizeFiles(sha, files[..|files| - 1]), files[|files| - 1];
      var path := NormalizeSkillBundlePath(last.path);
      if before.Err? then before
      else if path.None? then Err(BadPath)
      else if path.value in PathsOf(before.value) then Err(DuplicatePath)
      else match NormalizeFile(sha, last)
        case Err(e) => Err(e)
        case Ok(f) => Ok(before.value + [f])
  }

  function PathOf(f: NormalFile): string { f.path }

  predicate DistinctPaths(files: seq<NormalFile>) {
    DistinctKeys(files, PathOf)
  }

  predicate Sorted(files: seq<NormalFile>) {
    Ascending(files, PathOf)
  }

  function SortByPath(files: seq<NormalFile>): seq<NormalFile> {
    SortBy(files, PathOf)
  }

  /** What the digest hashes: path and content hash of every file, each closed by a NUL. */
  function Preimage(files: seq<NormalFile>): string {
    if files == [] then ""
    else files[0].path + [NUL] + files[0].sha256 + [NUL] + Preimage(files[1..])
  }

  function SkillBundleDigest(sha: string -> string, files: seq<NormalFile>): string {
    sha(Preimage(files))
  }

  // ---- Bundles ----

  /** The first value that is not blank, trimmed. */
  function FirstNonEmpty(values: seq<string>): string {
    if values == [] then ""
    else if TrimSpace(values[0]) != "" then TrimSpace(values[0])
    else FirstNonEmpty(values[1..])
  }

  function BundleName(b: SkillBundle): string {
    TrimSpace(FirstNonEmpty([b.slug, b.name]))
  }

  /** What a bundle is refused for before its files are read. */
  function BundleComplaint(b: SkillBundle, taken: set<string>): Option<Error> {
    if BundleName(b) == "" then Some(NameMissing)
    else if b.files == [] then Some(FilesMissing)
    else if SafePathPart(BundleName(b)) == UNKNOWN then Some(NoDirectoryName)
    else if SafePathPart(BundleName(b)) in taken then Some(DirectoryTaken)
    else None
  }

  function FinishBundle(sha: string -> string, b: SkillBundle, files: seq<NormalFile>): Result<NormalBundle> {
    var sorted := SortByPath(files);
    match CheckedHash(FirstNonEmpty([b.sha256, b.hash, b.contentHash]), SkillBundleDigest(sha, sorted))
    case Err(e) => Err(e)
    case Ok(digest) =>
      Ok(NormalBundle(BundleName(b), TrimSpace(b.revision), SafePathPart(BundleName(b)), digest, sorted))
  }

  function NormalizeBundle(sha: string -> string, b: SkillBundle, taken: set<string>): Result<NormalBundle> {
    if BundleComplaint(b, taken).Some? then Err(BundleComplaint(b, taken).value)
    else match NormalizeFiles(sha, b.files)
      case Err(e) => Err(e)
      case Ok(files) => FinishBundle(sha, b, files)
  }

  function DirectoriesOf(bundles: seq<NormalBundle>): set<string> {
    set b | b in bundles :: b.directoryName
  }

  function NormalizeBundles(sha: string -> string, input: seq<SkillBundle>): Result<seq<NormalBundle>> {
    if input == [] then Ok([])
    else
      var before := NormalizeBundles(sha, input[..|input| - 1]);
      if before.Err? then before
      else match NormalizeBundle(sha, input[|input| - 1], DirectoriesOf(before.value))
        case Err(e) => Err(e)
        case Ok(b) => Ok(before.value + [b])
  }

  // ---- The loops ----

  method NormalizeBundleFiles(sha: string -> string, files: seq<SkillFile>) returns (r: Result<seq<NormalFile>>)
    ensures r == NormalizeFiles(sha, files)
  {
    hide NormalizeSkillBundlePath, CheckedHash;
    var normalized: seq<NormalFile> := [];
    var paths: map<string, bool> := map[];
    var index := 0;
    while index < |files|
      invariant 0 <= index <= |files|
      invariant NormalizeFiles(sha, files[..index]) == Ok(normalized)
      invariant paths.Keys == PathsOf(normalized)
    {
      var file := files[index];
      assert files[..index + 1][..index] == files[..index];
      FirstErrorStays(sha, files, index + 1);
      var path := NormalizeSkillBundlePath(file.path);
      if path.None? {
        return Err(BadPath);
      }
      if path.value in paths {
        return Err(DuplicatePath);
      }
      paths := paths[path.value := true];
      var f := NormalizeFile(sha, file);
      if f.Err? {
        return Err(f.error);
      }
      normalized := normalized + [f.value];
      index := index + 1;
    }
    assert files[..index] == files;
    r := Ok(normalized);
  }

  lemma FirstErrorStays(sha: string -> string, files: seq<SkillFile>, n: nat)
    requires n <= |files|
    ensures NormalizeFiles(sha, files[..n]).Err? ==> NormalizeFiles(sha, files) == NormalizeFiles(sha, files[..n])
  {
    if n == |files| {
      assert files[..n] == files;
    } else {
      assert files[..|files| - 1][..n] == files[..n];
      FirstErrorStays(sha, files[..|files| - 1], n);
    }
  }

  method NormalizePayloadSkillBundles(sha: string -> string, required: seq<SkillBundle>, skills: seq<SkillBundle>)
    returns (r: Result<seq<NormalBundle>>)
    ensures r == NormalizeBundles(sha, required + skills)
  {
    hide BundleComplaint, FinishBundle, NormalizeFiles, DirectoriesOf, SafePathPart, BundleName;
    NoDirectories();
    var input := required + skills;
    var bundles: seq<NormalBundle> := [];
    var directories: map<string, string> := map[];
    var index := 0;
    while index < |input|
      invariant 0 <= index <= |input|
      invariant NormalizeBundles(sha, input[..index]) == Ok(bundles)
      invariant directories.Keys == DirectoriesOf(bundles)
    {
      var bundle := input[index];
      assert input[..index + 1][..index] == input[..index];
      FirstBundleErrorStays(sha, input, index + 1);
      var complaint := BundleComplaint(bundle, directories.Keys);
      if complaint.Some? {
        return Err(complaint.value);
      }
      var files := NormalizeBundleFiles(sha, bundle.files);
      if files.Err? {
        return Err(files.error);
      }
      var normalized := FinishBundle(sha, bundle, files.value);
      if normalized.Err? {
        return Err(normalized.error);
      }
      FinishedDirectory(sha, bundle, files.value, bundles);
      directories := directories[SafePathPart(BundleName(bundle)) := BundleName(bundle)];
      bundles := bundles + [normalized.value];
      index := index + 1;
    }
    assert input[..index] == input;
    r := Ok(bundles);
  }

  lemma NoDirectories()
    ensures DirectoriesOf([]) == {}
  {
  }

  lemma FinishedDirectory(sha: string -> string, b: SkillBundle, files: seq<NormalFile>, before: seq<NormalBundle>)
    ensures var r := FinishBundle(sha, b, files);
            r.Ok? ==> DirectoriesOf(before + [r.value]) == DirectoriesOf(before) + {SafePathPart(BundleName(b))}
  {
    hide CheckedHash, SafePathPart, BundleName, SortByPath;
  }

  lemma FirstBundleErrorStays(sha: string -> string, input: seq<SkillBundle>, n: nat)
    requires n <= |input|
    ensures NormalizeBundles(sha, input[..n]).Err? ==> NormalizeBundles(sha, input) == NormalizeBundles(sha, input[..n])
  {
    hide NormalizeBundle;
    if n == |input| {
      assert input[..n] == input;
    } else {
      assert input[..|input| - 1][..n] == input[..n];
      FirstBundleErrorStays(sha, input[..|input| - 1], n);
    }
  }

  // ---- What is accepted ----

  /** Every file is acceptable by itself and no two have one path after cleaning. */
  ghost predicate Acceptable(sha: string -> string, files: seq<SkillFile>) {
    && (forall i :: 0 <= i < |files| ==> NormalizeFile(sha, files[i]).Ok?)
    && (forall i, j :: 0 <= i < j < |files| ==>
          NormalizeSkillBundlePath(files[i].path) != NormalizeSkillBundlePath(files[j].path))
  }

  lemma NormalizedPath(sha: string -> string, f: SkillFile)
    ensures NormalizeFile(sha, f).Ok? ==> NormalizeSkillBundlePath(f.path) == Some(NormalizeFile(sha, f).value.path)
    ensures NormalizeSkillBundlePath(f.path).None? ==> NormalizeFile(sha, f).Err?
    ensures NormalizeFile(sha, f).Ok? ==>
              f.content == Some(NormalizeFile(sha, f).value.content)
              && NormalizeFile(sha, f).value.sha256 == sha(f.content.value)
              && NormalizeFile(sha, f).value.executable == f.executable
  {
    hide NormalizeSkillBundlePath, NormalizeOptionalSHA256;
  }

  lemma {:induction false} FilesAcceptedExactly(sha: string -> string, files: seq<SkillFile>)
    ensures NormalizeFiles(sha, files).Ok? <==> Acceptable(sha, files)
    ensures NormalizeFiles(sha, files).Ok? ==>
              var r := NormalizeFiles(sha, files).value;
              && |r| == |files| && DistinctPaths(r)
              && forall i :: 0 <= i < |r| ==> Ok(r[i]) == NormalizeFile(sha, files[i])
  {
    hide NormalizeSkillBundlePath, NormalizeFile;
    if files != [] {
      var n := |files| - 1;
      FilesAcceptedExactly(sha, files[..n]);
      forall i | 0 <= i <= n ensures NormalizeFile(sha, files[i]).Ok? ==>
          NormalizeSkillBundlePath(files[i].path) == Some(NormalizeFile(sha, files[i]).value.path) {
        NormalizedPath(sha, files[i]);
      }
      NormalizedPath(sha, files[n]);
    }
  }

  // ---- The order of supply ----

  lemma SortByPathSorts(files: seq<NormalFile>)
    requires DistinctPaths(files)
    ensures Sorted(SortByPath(files)) && multiset(SortByPath(files)) == multiset(files)
  {
    SortByAscends(files, PathOf);
  }

  lemma SortedIsUnique(a: seq<NormalFile>, b: seq<NormalFile>)
    requires Sorted(a) && Sorted(b) && multiset(a) == multiset(b)
    ensures a == b
  {
    AscendingIsUnique(a, b, PathOf);
  }


  function NormalOf(sha: string -> string, files: seq<SkillFile>): seq<NormalFile>
    requires Acceptable(sha, files)
  {
    seq(|files|, i requires 0 <= i < |files| => NormalizeFile(sha, files[i]).value)
  }

  lemma PermutationIsAcceptable(sha: string -> string, a: seq<SkillFile>, b: seq<SkillFile>)
    requires multiset(a) == multiset(b) && Acceptable(sha, a)
    ensures Acceptable(sha, b)
  {
    hide NormalizeSkillBundlePath, NormalizeFile;
    forall i | 0 <= i < |b| ensures NormalizeFile(sha, b[i]).Ok? {
      assert b[i] in multiset(a);
    }
    forall i, j | 0 <= i < j < |b|
      ensures NormalizeSkillBundlePath(b[i].path) != NormalizeSkillBundlePath(b[j].path)
    {
      assert b[i] in multiset(a) && b[j] in multiset(a);
      if b[i] == b[j] {
        OccursTwice(b, i, j);
        TwoOccurrences(a, b[i]);
      }
    }
  }

  /** Taking one file out before or after normalizing is the same. */
  lemma NormalOfWithout(sha: string -> string, files: seq<SkillFile>, i: nat)
    requires i < |files| && Acceptable(sha, files) && Acceptable(sha, Without(files, i))
    ensures multiset(NormalOf(sha, files)) ==
            multiset(NormalOf(sha, Without(files, i))) + multiset{NormalizeFile(sha, files[i]).value}
  {
    hide NormalizeSkillBundlePath, NormalizeFile, Acceptable;
    var n := NormalOf(sha, files);
    assert NormalOf(sha, Without(files, i)) == n[..i] + n[i + 1..];
    assert n == n[..i] + [n[i]] + n[i + 1..];
  }

  function Without<T>(s: seq<T>, i: nat): seq<T>
    requires i < |s|
  {
    s[..i] + s[i + 1..]
  }

  lemma WithoutMultiset<T>(s: seq<T>, i: nat)
    requires i < |s|
    ensures multiset(Without(s, i)) == multiset(s) - multiset{s[i]}
  {
    assert s == s[..i] + [s[i]] + s[i + 1..];
  }

  lemma WithoutIsAcceptable(sha: string -> string, files: seq<SkillFile>, i: nat)
    requires i < |files| && Acceptable(sha, files)
    ensures Acceptable(sha, Without(files, i))
  {
    hide NormalizeSkillBundlePath, NormalizeFile;
    var rest := Without(files, i);
    assert forall k :: 0 <= k < |rest| ==> rest[k] == files[if k < i then k else k + 1];
  }

  lemma {:induction false} NormalOfPermutes(sha: string -> string, a: seq<SkillFile>, b: seq<SkillFile>)
    requires multiset(a) == multiset(b) && Acceptable(sha, a) && Acceptable(sha, b)
    ensures multiset(NormalOf(sha, a)) == multiset(NormalOf(sha, b))
    decreases |a|
  {
    hide Acceptable, Without, NormalizeFile;
    assert |a| == |multiset(a)| == |b|;
    if a != [] {
      assert a[0] in multiset(b);
      var i :| 0 <= i < |b| && b[i] == a[0];
      WithoutMultiset(a, 0);
      WithoutMultiset(b, i);
      WithoutIsAcceptable(sha, a, 0);
      WithoutIsAcceptable(sha, b, i);
      assert |Without(a, 0)| == |multiset(Without(a, 0))| < |a|;
      NormalOfPermutes(sha, Without(a, 0), Without(b, i));
      NormalOfWithout(sha, a, 0);
      NormalOfWithout(sha, b, i);
    }
  }

  /** The order in which files are supplied decides neither acceptance nor anything that is kept. */
  lemma OrderOfFilesDoesNotMatter(sha: string -> string, a: seq<SkillFile>, b: seq<SkillFile>)
    requires multiset(a) == multiset(b)
    ensures NormalizeFiles(sha, a).Ok? <==> NormalizeFiles(sha, b).Ok?
    ensures NormalizeFiles(sha, a).Ok? ==>
              SortByPath(NormalizeFiles(sha, a).value) == SortByPath(NormalizeFiles(sha, b).value)
  {
    hide NormalizeFiles, SortByPath, NormalizeFile;
    FilesAcceptedExactly(sha, a);
    FilesAcceptedExactly(sha, b);
    if Acceptable(sha, a) {
      PermutationIsAcceptable(sha, a, b);
    }
    if Acceptable(sha, b) {
      PermutationIsAcceptable(sha, b, a);
    }
    if NormalizeFiles(sha, a).Ok? {
      var x, y := NormalizeFiles(sha, a).value, NormalizeFiles(sha, b).value;
      assert x == NormalOf(sha, a) && y == NormalOf(sha, b);
      NormalOfPermutes(sha, a, b);
      SortByPathSorts(x);
      SortByPathSorts(y);
      SortedIsUnique(SortByPath(x), SortByPath(y));
    }
  }

  // ---- The digest ----

  /** Reads a preimage back; an unfinished record is dropped. */
  function DecodePreimage(s: string): seq<(string, string)>
    decreases |s|
  {
    var i := IndexOf(s, NUL);
    if i == |s| then []
    else
      var rest := s[i + 1..];
      var j := IndexOf(rest, NUL);
      if j == |rest| then [] else [(s[..i], rest[..j])] + DecodePreimage(rest[j + 1..])
  }

  function Records(files: seq<NormalFile>): (r: seq<(string, string)>)
    ensures |r| == |files| && forall i :: 0 <= i < |files| ==> r[i] == (files[i].path, files[i].sha256)
  {
    seq(|files|, i requires 0 <= i < |files| => (files[i].path, files[i].sha256))
  }

  ghost predicate NulFree(files: seq<NormalFile>) {
    forall i :: 0 <= i < |files| ==> NUL !in files[i].path && NUL !in files[i].sha256
  }

  lemma RecordDecodes(path: string, hash: string, tail: string)
    requires NUL !in path && NUL !in hash
    ensures DecodePreimage(path + [NUL] + hash + [NUL] + tail) == [(path, hash)] + DecodePreimage(tail)
  {
    hide Text.IndexOf;
    var after := hash + [NUL] + tail;
    var s := path + [NUL] + after;
    assert path + [NUL] + hash + [NUL] + tail == s;
    IndexOfAt(path, NUL, after);
    IndexOfAt(hash, NUL, tail);
    assert s[..|path|] == path && s[|path| + 1..] == after;
    assert after[..|hash|] == hash && after[|hash| + 1..] == tail;
  }

  /** The framing is uniquely decodable. */
  lemma {:induction false} PreimageIsDecodable(files: seq<NormalFile>)
    requires NulFree(files)
    ensures DecodePreimage(Preimage(files)) == Records(files)
  {
    hide DecodePreimage;
    if files == [] {
      NothingDecodes();
    } else {
      RecordDecodes(files[0].path, files[0].sha256, Preimage(files[1..]));
      PreimageIsDecodable(files[1..]);
      assert Records(files) == [(files[0].path, files[0].sha256)] + Records(files[1..]);
    }
  }

  lemma NothingDecodes()
    ensures DecodePreimage("") == []
  {
  }

  ghost predicate Injective(sha: string -> string) {
    forall x, y :: sha(x) == sha(y) ==> x == y
  }

  ghost predicate HexOutput(sha: string -> string) {
    forall x :: NUL !in sha(x)
  }

  /** Normalized files of one bundle, in digest order. */
  ghost predicate Normalized(sha: string -> string, files: seq<NormalFile>) {
    && Sorted(files)
    && forall i :: 0 <= i < |files| ==> NUL !in files[i].path && files[i].sha256 == sha(files[i].content)
  }

  predicate SameContents(a: seq<NormalFile>, b: seq<NormalFile>) {
    |a| == |b| && forall i :: 0 <= i < |a| ==> a[i].path == b[i].path && a[i].content == b[i].content
  }

  /**
    With a hash that never collides, two bundles have one digest exactly when they have the same paths with the same
    contents; the executable bit is not covered.
   */
  lemma DigestIdentifiesExactly(sha: string -> string, a: seq<NormalFile>, b: seq<NormalFile>)
    requires Injective(sha) && HexOutput(sha) && Normalized(sha, a) && Normalized(sha, b)
    ensures SkillBundleDigest(sha, a) == SkillBundleDigest(sha, b) <==> SameContents(a, b)
  {
    hide Preimage, DecodePreimage, Sorted;
    PreimageIsDecodable(a);
    PreimageIsDecodable(b);
    if SkillBundleDigest(sha, a) == SkillBundleDigest(sha, b) {
      assert Preimage(a) == Preimage(b);
      assert Records(a) == Records(b);
      forall i | 0 <= i < |a| ensures a[i].path == b[i].path && a[i].content == b[i].content {
        assert Records(a)[i] == Records(b)[i];
      }
    }
    if SameContents(a, b) {
      PreimageReadsContents(sha, a, b);
    }
  }

  lemma {:induction false} PreimageReadsContents(sha: string -> string, a: seq<NormalFile>, b: seq<NormalFile>)
    requires SameContents(a, b)
    requires forall i :: 0 <= i < |a| ==> a[i].sha256 == sha(a[i].content) && b[i].sha256 == sha(b[i].content)
    ensures Preimage(a) == Preimage(b)
  {
    if a != [] {
      PreimageReadsContents(sha, a[1..], b[1..]);
    }
  }

  // ---- Accepted bundles ----

  /** Everything the layout needs to know about normalized bundles. */
  ghost predicate WellFormed(sha: string -> string, bundles: seq<NormalBundle>) {
    && (forall i, j :: 0 <= i < j < |bundles| ==> bundles[i].directoryName != bundles[j].directoryName)
    && (forall i :: 0 <= i < |bundles| ==> WellFormedBundle(sha, bundles[i]))
  }

  ghost predicate WellFormedBundle(sha: string -> string, b: NormalBundle) {
    && b.files != [] && SafeName(b.directoryName) && Normalized(sha, b.files)
    && b.digest == SkillBundleDigest(sha, b.files)
    && forall i :: 0 <= i < |b.files| ==> PlainPath(b.files[i].path)
  }

  ghost predicate PlainPath(path: string) {
    AllPlain(Components(path)) && Components(path) != [] && Join(Components(path), '/') == path && NUL !in path
  }

  lemma NormalFileIsPlain(sha: string -> string, f: SkillFile)
    requires NormalizeFile(sha, f).Ok?
    ensures PlainPath(NormalizeFile(sha, f).value.path)
  {
    hide NormalizeSkillBundlePath, AllPlain, Components;
    NormalizedPath(sha, f);
    AcceptedPathIsPlain(f.path);
  }

  /** Sorting accepted files keeps what is known of each. */
  lemma SortedFilesAreNormalized(sha: string -> string, files: seq<SkillFile>)
    requires NormalizeFiles(sha, files).Ok? && files != []
    ensures var sorted := SortByPath(NormalizeFiles(sha, files).value);
            sorted != [] && Normalized(sha, sorted) && forall i :: 0 <= i < |sorted| ==> PlainPath(sorted[i].path)
  {
    hide NormalizeFiles, NormalizeFile, NormalizeSkillBundlePath, SortByPath, PlainPath, Sorted;
    var normal := NormalizeFiles(sha, files).value;
    FilesAcceptedExactly(sha, files);
    SortByPathSorts(normal);
    var sorted := SortByPath(normal);
    assert |sorted| == |multiset(sorted)| == |normal|;
    forall i | 0 <= i < |sorted|
      ensures PlainPath(sorted[i].path) && NUL !in sorted[i].path && sorted[i].sha256 == sha(sorted[i].content)
    {
      assert sorted[i] in multiset(normal);
      var k :| 0 <= k < |normal| && normal[k] == sorted[i];
      NormalFileIsPlain(sha, files[k]);
      NormalizedPath(sha, files[k]);
      PlainPathHasNoNul(sorted[i].path);
    }
  }

  lemma NormalizedBundleIsWellFormed(sha: string -> string, b: SkillBundle, taken: set<string>)
    requires NormalizeBundle(sha, b, taken).Ok?
    ensures WellFormedBundle(sha, NormalizeBundle(sha, b, taken).value)
    ensures NormalizeBundle(sha, b, taken).value.directoryName !in taken
  {
    hide NormalizeFiles, SortByPath, BundleName, SafePathPart, NormalizeOptionalSHA256;
    hide PlainPath, SafeName, Normalized, FirstNonEmpty;
    SafePathPartIsSafe(BundleName(b));
    SortedFilesAreNormalized(sha, b.files);
  }

  lemma PlainPathHasNoNul(path: string)
    requires PlainPath(path)
    ensures NUL !in path
  {
  }

  lemma {:induction false} NormalizedIsWellFormed(sha: string -> string, input: seq<SkillBundle>)
    requires NormalizeBundles(sha, input).Ok?
    ensures WellFormed(sha, NormalizeBundles(sha, input).value)
  {
    hide NormalizeBundle, WellFormedBundle;
    if input != [] {
      NormalizedIsWellFormed(sha, input[..|input| - 1]);
      var before := NormalizeBundles(sha, input[..|input| - 1]).value;
      NormalizedBundleIsWellFormed(sha, input[|input| - 1], DirectoriesOf(before));
    }
  }
}
