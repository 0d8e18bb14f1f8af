/** The names the worker derives from ids and artifacts: path parts, branch slugs and branch suffixes. */
module Names {
  import opened Text
  import opened Payloads

  // ---- Shared steps ----

  /** Every maximal run of bad characters becomes one dash. */
  function Collapse(s: string, bad: char -> bool): (r: string)
    ensures |r| <= |s| && (r == [] <==> s == [])
    ensures s != [] ==> r[0] == if bad(s[0]) then '-' else s[0]
    ensures forall i :: 0 <= i < |r| ==> r[i] == '-' || !bad(r[i])
    ensures forall i, j :: 0 <= i && j == i + 1 < |r| && bad(r[i]) ==> !bad(r[j])
    decreases |s|
  {
    if s == [] then []
    else if !bad(s[0]) then [s[0]] + Collapse(s[1..], bad)
    else ['-'] + Collapse(TrimLeft(s[1..], bad), bad)
  }

  lemma {:induction false} CollapseFixed(s: string, bad: char -> bool)
    requires forall i :: 0 <= i < |s| ==> s[i] == '-' || !bad(s[i])
    requires forall i, j :: 0 <= i && j == i + 1 < |s| && bad(s[i]) ==> !bad(s[j])
    ensures Collapse(s, bad) == s
  {
    if s != [] {
      assert bad(s[0]) ==> TrimLeft(s[1..], bad) == s[1..];
      CollapseFixed(s[1..], bad);
    }
  }

  /** A name longer than the limit is cut and trimmed again. */
  function Clip(s: string, limit: nat, drop: char -> bool): string {
    if |s| <= limit then s else Trim(s[..limit], drop)
  }

  /** What clipping does to a name with clean ends. */
  lemma ClipIsPrefix(s: string, limit: nat, drop: char -> bool)
    requires limit > 0 && s != [] && !drop(s[0]) && !drop(s[|s| - 1])
    ensures var r := Clip(s, limit, drop);
            0 < |r| <= limit && |r| <= |s| && r == s[..|r|] && !drop(r[0]) && !drop(r[|r| - 1])
  {
    if |s| > limit {
      var cut := s[..limit];
      assert TrimLeft(cut, drop) == cut;
      TrimRightNonEmpty(cut, drop);
      assert TrimRight(cut, drop) <= cut;
    }
  }

  // ---- Path parts ----

  const UNKNOWN := "unknown"

  predicate IsSafeChar(c: char) {
    'a' <= c <= 'z' || 'A' <= c <= 'Z' || '0' <= c <= '9' || c == '.' || c == '_' || c == '-'
  }

  predicate IsUnsafeChar(c: char) { !IsSafeChar(c) }

  predicate IsEdge(c: char) { c == '.' || c == '-' }

  /** One to eighty safe characters with no dot or dash at either end. */
  predicate SafeName(s: string) {
    && 1 <= |s| <= 80
    && Only(s, IsSafeChar)
    && !IsEdge(s[0]) && !IsEdge(s[|s| - 1])
  }

  function SafePathPart(value: string): string {
    var part := Clip(Trim(Collapse(TrimSpace(value), IsUnsafeChar), IsEdge), 80, IsEdge);
    if part == "" then UNKNOWN else part
  }

  lemma UnknownIsSafe()
    ensures SafeName(UNKNOWN)
  {
  }

  lemma TrimKeepsOnly(s: string, drop: char -> bool, p: char -> bool)
    requires Only(s, p)
    ensures Only(Trim(s, drop), p)
  {
    hide Text.Trim;
    var i, j := TrimIsSlice(s, drop);
  }

  lemma SafePathPartIsSafe(value: string)
    ensures SafeName(SafePathPart(value))
  {
    UnknownIsSafe();
    hide Text.Trim, Text.TrimSpace, Collapse, Clip;
    var collapsed := Collapse(TrimSpace(value), IsUnsafeChar);
    var trimmed := Trim(collapsed, IsEdge);
    assert Only(collapsed, IsSafeChar) by {
      DashIsSafe();
    }
    TrimKeepsOnly(collapsed, IsEdge, IsSafeChar);
    if trimmed == [] {
      ClipNothing(80, IsEdge);
    } else {
      ClipIsPrefix(trimmed, 80, IsEdge);
    }
  }

  lemma DashIsSafe()
    ensures IsSafeChar('-')
  {
  }

  lemma ClipNothing(limit: nat, drop: char -> bool)
    ensures Clip([], limit, drop) == []
  {
  }

  lemma SafeNameIsTrimmed(s: string)
    requires SafeName(s)
    ensures TrimSpace(s) == s
  {
    assert IsSafeChar(s[0]) && IsSafeChar(s[|s| - 1]);
    TrimFixed(s, IsSpace);
  }

  /** Ids of this form are kept, and no others. */
  lemma SafePathPartFixesExactly(value: string)
    ensures SafePathPart(value) == value <==> SafeName(value)
  {
    SafePathPartIsSafe(value);
    if SafeName(value) {
      SafeNameIsTrimmed(value);
      hide Text.Trim, Text.TrimSpace, Collapse;
      CollapseFixed(value, IsUnsafeChar);
      TrimFixed(value, IsEdge);
    }
  }

  lemma SafePathPartIsIdempotent(value: string)
    ensures SafePathPart(SafePathPart(value)) == SafePathPart(value)
  {
    hide SafePathPart, SafeName;
    SafePathPartIsSafe(value);
    SafePathPartFixesExactly(SafePathPart(value));
  }

  /** A part stands for one id among the safe ones exactly when the id is safe itself. */
  lemma PartsSeparateExactly(a: string)
    ensures (forall b | SafeName(b) && b != a :: SafePathPart(b) != SafePathPart(a)) <==> SafeName(a)
  {
    hide SafePathPart, SafeName;
    SafePathPartIsSafe(a);
    SafePathPartFixesExactly(a);
    forall b | SafeName(b) ensures SafePathPart(b) == b {
      SafePathPartFixesExactly(b);
    }
  }

  /** Outside the safe names the mapping is not injective: every part is also the part of an unsafe id. */
  lemma UnsafeIdsCollide(name: string)
    requires SafeName(name)
    ensures !SafeName("/" + name) && SafePathPart("/" + name) == SafePathPart(name) == name
  {
    SafePathPartFixesExactly(name);
    var value := "/" + name;
    assert !IsSafeChar(value[0]);
    LeadingSlashGoes(name);
  }

  lemma LeadingSlashGoes(name: string)
    requires SafeName(name)
    ensures SafePathPart("/" + name) == name
  {
    hide Text.Trim, Text.TrimSpace, Collapse;
    SlashNameIsTrimmed(name);
    LeadingSlashCollapses(name);
    DashGoes(name);
  }

  lemma SlashNameIsTrimmed(name: string)
    requires SafeName(name)
    ensures TrimSpace("/" + name) == "/" + name
  {
    var value := "/" + name;
    assert value[|value| - 1] == name[|name| - 1] && IsSafeChar(name[|name| - 1]);
    hide Text.Trim;
    TrimFixed(value, IsSpace);
  }

  lemma LeadingSlashCollapses(name: string)
    requires SafeName(name)
    ensures Collapse("/" + name, IsUnsafeChar) == ['-'] + name
  {
    var value := "/" + name;
    assert value[1..] == name && IsSafeChar(name[0]);
    CollapseFixed(name, IsUnsafeChar);
    assert TrimLeft(name, IsUnsafeChar) == name;
  }

  lemma DashGoes(name: string)
    requires name != [] && !IsEdge(name[0]) && !IsEdge(name[|name| - 1])
    ensures Trim(['-'] + name, IsEdge) == name
  {
    assert (['-'] + name)[1..] == name;
    assert TrimLeft(['-'] + name, IsEdge) == name;
  }

  // ---- Branch slugs ----

  const MAX_SLUG := 48

  predicate IsSlugChar(c: char) { 'a' <= c <= 'z' || '0' <= c <= '9' }
  predicate IsSlugGap(c: char) { !IsSlugChar(c) }
  predicate IsDash(c: char) { c == '-' }
  predicate IsSlash(c: char) { c == '/' }

  /** Runs of lower-case letters and digits separated by single dashes. */
  predicate DashSeparated(s: string) {
    && (s != [] ==> s[0] != '-' && s[|s| - 1] != '-')
    && WithoutDoubleDash(s)
  }

  predicate WithoutDoubleDash(s: string) {
    && (forall i :: 0 <= i < |s| ==> IsSlugChar(s[i]) || s[i] == '-')
    && (forall i, j :: 0 <= i && j == i + 1 < |s| && s[i] == '-' ==> s[j] != '-')
  }

  predicate IsSlug(s: string) {
    |s| <= MAX_SLUG && DashSeparated(s)
  }

  function NormalizeBranchSlug(value: string): string {
    var slug := Trim(Lower(TrimSpace(value)), IsSlash);
    Clip(Trim(Collapse(slug, IsSlugGap), IsDash), MAX_SLUG, IsDash)
  }

  lemma SliceWithoutDoubleDash(s: string, i: nat, j: nat)
    requires i <= j <= |s| && WithoutDoubleDash(s)
    ensures WithoutDoubleDash(s[i..j])
  {
    hide IsSlugChar;
    var piece := s[i..j];
    forall k, l | 0 <= k && l == k + 1 < |piece| && piece[k] == '-' ensures piece[l] != '-' {
      assert piece[k] == s[i + k] && piece[l] == s[i + l];
    }
  }

  lemma CollapsedWithoutDoubleDash(s: string)
    ensures WithoutDoubleDash(Collapse(s, IsSlugGap))
  {
    hide Collapse;
  }

  lemma NormalizeBranchSlugIsSlug(value: string)
    ensures IsSlug(NormalizeBranchSlug(value))
  {
    hide Text.Trim, Text.TrimSpace, Text.Lower, Collapse, Clip, WithoutDoubleDash;
    var collapsed := Collapse(Trim(Lower(TrimSpace(value)), IsSlash), IsSlugGap);
    CollapsedWithoutDoubleDash(Trim(Lower(TrimSpace(value)), IsSlash));
    var i, j := TrimIsSlice(collapsed, IsDash);
    var trimmed := collapsed[i..j];
    SliceWithoutDoubleDash(collapsed, i, j);
    if trimmed == [] {
      ClipNothing(MAX_SLUG, IsDash);
    } else {
      ClipIsPrefix(trimmed, MAX_SLUG, IsDash);
      SliceWithoutDoubleDash(trimmed, 0, |Clip(trimmed, MAX_SLUG, IsDash)|);
    }
  }

  lemma SlugSurvivesLower(s: string)
    requires DashSeparated(s)
    ensures TrimSpace(s) == s && Lower(s) == s
  {
    assert s != [] ==> IsSlugChar(s[0]) && IsSlugChar(s[|s| - 1]);
    hide Text.Trim;
    TrimFixed(s, IsSpace);
  }

  /** Slugs are the fixed points of the normalizer, the empty one included. */
  lemma NormalizeBranchSlugFixesExactly(value: string)
    ensures NormalizeBranchSlug(value) == value <==> IsSlug(value)
  {
    NormalizeBranchSlugIsSlug(value);
    if IsSlug(value) {
      SlugSurvivesLower(value);
      hide Text.Trim, Text.TrimSpace, Text.Lower, Collapse;
      assert value != [] ==> IsSlugChar(value[0]) && IsSlugChar(value[|value| - 1]);
      TrimFixed(value, IsSlash);
      CollapseFixed(value, IsSlugGap);
      TrimFixed(value, IsDash);
    }
  }

  // ---- Semantic branches ----

  const BRANCH_TYPES := ["feat", "fix", "chore", "docs", "refactor", "test", "perf", "build", "ci", "style", "revert"]

  predicate AllowedType(branchType: string) {
    branchType in BRANCH_TYPES
  }

  datatype BranchArtifact = BranchArtifact(branch: string, branchType: string, slug: string)

  /** The branch the artifact asks for: its own, or one put together from type and slug. */
  function Requested(a: BranchArtifact): string {
    var branch := Lower(TrimSpace(a.branch));
    var branchType, slug := Lower(TrimSpace(a.branchType)), Lower(TrimSpace(a.slug));
    if branch != "" then branch
    else if branchType != "" && slug != "" then branchType + "/" + slug
    else ""
  }

  function NormalizeSemanticBranchArtifact(a: BranchArtifact): Option<string> {
    NormalizeBranch(Requested(a))
  }

  function NormalizeBranch(branch: string): Option<string> {
    var cut := IndexOf(branch, '/');
    if cut == |branch| then None
    else
      var branchType, slug := TrimSpace(branch[..cut]), NormalizeBranchSlug(branch[cut + 1..]);
      if !AllowedType(branchType) || slug == "" then None else Some(branchType + ['/'] + slug)
  }

  /** `<type>/<slug>` with a known type and a slug that is not empty. */
  predicate SemanticBranch(branch: string, branchType: string, slug: string) {
    branch == branchType + ['/'] + slug && AllowedType(branchType) && IsSlug(slug) && slug != ""
  }

  predicate LowerLetters(s: string) {
    s != [] && Only(s, IsLower)
  }

  lemma AllowedTypesAreLetters(branchType: string)
    requires AllowedType(branchType)
    ensures LowerLetters(branchType)
  {
  }

  lemma LettersSurvive(s: string)
    requires LowerLetters(s)
    ensures TrimSpace(s) == s && Lower(s) == s
  {
    hide Text.Trim;
    TrimFixed(s, IsSpace);
  }

  lemma BranchSurvives(branchType: string, slug: string)
    requires LowerLetters(branchType) && IsSlug(slug) && slug != ""
    ensures TrimSpace(branchType + ['/'] + slug) == branchType + ['/'] + slug
    ensures Lower(branchType + ['/'] + slug) == branchType + ['/'] + slug
  {
    hide Text.Trim;
    var branch := branchType + ['/'] + slug;
    assert branch[0] == branchType[0] && branch[|branch| - 1] == slug[|slug| - 1] && IsSlugChar(slug[|slug| - 1]);
    TrimFixed(branch, IsSpace);
    forall i | 0 <= i < |branch| ensures LowerChar(branch[i]) == branch[i] {
      if i > |branchType| {
        assert branch[i] == slug[i - |branchType| - 1];
      }
    }
  }

  /** Both ways of asking for a semantic branch ask for that branch. */
  lemma SemanticBranchIsRequested(branch: string, branchType: string, slug: string, a: BranchArtifact)
    requires SemanticBranch(branch, branchType, slug)
    requires a.branch == branch || (a.branch == "" && a.branchType == branchType && a.slug == slug)
    ensures Requested(a) == branch
  {
    AllowedTypesAreLetters(branchType);
    LettersSurvive(branchType);
    SlugSurvivesLower(slug);
    BranchSurvives(branchType, slug);
    NothingTrims();
    hide Text.TrimSpace, Text.Lower, AllowedType, IsSlug, LowerLetters;
    assert branchType != [];
  }

  lemma NormalizeKeepsSemanticBranch(branch: string, branchType: string, slug: string)
    requires SemanticBranch(branch, branchType, slug)
    ensures NormalizeBranch(branch) == Some(branch)
  {
    AllowedTypesAreLetters(branchType);
    LettersSurvive(branchType);
    NormalizeBranchSlugFixesExactly(slug);
    LettersHaveNoSlash(branchType);
    hide Text.TrimSpace, NormalizeBranchSlug, IsSlug, AllowedType, LowerLetters, Text.IndexOf;
    IndexOfAt(branchType, '/', slug);
    assert branch[..|branchType|] == branchType && branch[|branchType| + 1..] == slug;
  }

  lemma LettersHaveNoSlash(s: string)
    requires LowerLetters(s)
    ensures '/' !in s
  {
  }

  /** A semantic branch asked for in either way is what comes out. */
  lemma SemanticBranchIsKept(branch: string, branchType: string, slug: string, a: BranchArtifact)
    requires SemanticBranch(branch, branchType, slug)
    requires a.branch == branch || (a.branch == "" && a.branchType == branchType && a.slug == slug)
    ensures NormalizeSemanticBranchArtifact(a) == Some(branch)
  {
    hide SemanticBranch, NormalizeBranch, Requested;
    SemanticBranchIsRequested(branch, branchType, slug, a);
    NormalizeKeepsSemanticBranch(branch, branchType, slug);
  }

  /** An accepted artifact gives a semantic branch, and giving that branch again changes nothing. */
  lemma SemanticBranchFixesItsOutput(a: BranchArtifact, again: BranchArtifact)
    requires NormalizeSemanticBranchArtifact(a).Some?
    requires again.branch == NormalizeSemanticBranchArtifact(a).value
    ensures exists branchType, slug :: SemanticBranch(again.branch, branchType, slug)
    ensures NormalizeSemanticBranchArtifact(again) == NormalizeSemanticBranchArtifact(a)
  {
    hide Text.TrimSpace, NormalizeBranchSlug, IsSlug, AllowedType, Requested, Text.IndexOf;
    var branch := Requested(a);
    var cut := IndexOf(branch, '/');
    var branchType, slug := TrimSpace(branch[..cut]), NormalizeBranchSlug(branch[cut + 1..]);
    NormalizeBranchSlugIsSlug(branch[cut + 1..]);
    assert SemanticBranch(again.branch, branchType, slug);
    SemanticBranchIsKept(again.branch, branchType, slug, again);
  }

  // ---- Session suffixes ----

  predicate IsIdSeparator(c: char) { c == '-' || c == '_' || c == '/' }

  /** The non-empty pieces between separators. */
  function Fields(s: string): (parts: seq<string>)
    ensures forall k | 0 <= k < |parts| ::
              parts[k] != "" && forall i :: 0 <= i < |parts[k]| ==> !IsIdSeparator(parts[k][i])
    decreases |s|
  {
    if s == [] then []
    else if IsIdSeparator(s[0]) then Fields(s[1..])
    else
      var n := FieldLength(s);
      [s[..n]] + Fields(s[n..])
  }

  function FieldLength(s: string): (n: nat)
    ensures n <= |s| && forall i :: 0 <= i < n ==> !IsIdSeparator(s[i])
    ensures s != [] && !IsIdSeparator(s[0]) ==> n > 0
  {
    if s == [] || IsIdSeparator(s[0]) then 0 else 1 + FieldLength(s[1..])
  }

  predicate LongField(part: string) {
    |TrimSpace(part)| >= 8
  }

  function ShortStableIDOf(value: string, parts: seq<string>): string {
    if parts != [] && LongField(parts[|parts| - 1]) then TrimSpace(parts[|parts| - 1])[..8]
    else if parts != [] then ShortStableIDOf(value, parts[..|parts| - 1])
    else if |value| <= 8 then value
    else value[..8]
  }

  function ShortStableID(value: string): string {
    var trimmed := Trim(TrimSpace(value), IsDash);
    ShortStableIDOf(trimmed, Fields(trimmed))
  }

  /** The search goes backwards: the last long field gives the suffix, or the id itself does when there is none. */
  method FindShortStableID(value: string) returns (r: string)
    ensures r == ShortStableID(value) && |r| <= 8
  {
    hide Text.Trim, Text.TrimSpace, Fields;
    var trimmed := Trim(TrimSpace(value), IsDash);
    var parts := Fields(trimmed);
    var index := |parts|;
    assert parts[..index] == parts;
    while index > 0
      invariant 0 <= index <= |parts|
      invariant ShortStableIDOf(trimmed, parts) == ShortStableIDOf(trimmed, parts[..index])
    {
      index := index - 1;
      assert parts[..index + 1][..index] == parts[..index];
      var part := TrimSpace(parts[index]);
      if |part| >= 8 {
        return part[..8];
      }
    }
    r := if |trimmed| <= 8 then trimmed else trimmed[..8];
  }

  function MaxSlugLength(suffix: string): int {
    var n := MAX_SLUG - |suffix| - 1;
    if n < 12 then 12 else n
  }

  function SuffixedSlug(slug: string, suffix: string): string {
    var limit := MaxSlugLength(suffix);
    Trim((if |slug| > limit then Trim(slug[..limit], IsDash) else slug) + ['-'] + suffix, IsDash)
  }

  function AddBranchSessionSuffix(branch: string, sessionID: string): string {
    var cut, suffix := IndexOf(branch, '/'), ShortStableID(sessionID);
    if cut == |branch| then branch + ['-'] + suffix
    else branch[..cut] + ['/'] + SuffixedSlug(branch[cut + 1..], suffix)
  }

  lemma ShortStableIDIsShort(value: string, parts: seq<string>)
    ensures |ShortStableIDOf(value, parts)| <= 8
  {
    hide Text.TrimSpace;
    if parts != [] {
      ShortStableIDIsShort(value, parts[..|parts| - 1]);
    }
  }

  /** The lower bound on the shortened slug is never what decides. */
  lemma MinimumNeverDecides(sessionID: string)
    ensures MaxSlugLength(ShortStableID(sessionID)) == MAX_SLUG - |ShortStableID(sessionID)| - 1
  {
    hide Text.Trim, Text.TrimSpace, Fields, ShortStableIDOf;
    var trimmed := Trim(TrimSpace(sessionID), IsDash);
    ShortStableIDIsShort(trimmed, Fields(trimmed));
  }

  /** What is left of the slug in front of the suffix. */
  function KeptSlug(slug: string, suffix: string): string
    requires |suffix| <= 8
  {
    Clip(slug, MAX_SLUG - |suffix| - 1, IsDash)
  }

  lemma TrimRightConcat(a: string, b: string, drop: char -> bool)
    ensures TrimRight(a + b, drop) == if TrimRight(b, drop) == [] then TrimRight(a, drop) else a + TrimRight(b, drop)
  {
    if b == [] {
      assert a + b == a;
    } else {
      assert (a + b)[..|a + b| - 1] == a + b[..|b| - 1];
      if drop(b[|b| - 1]) {
        TrimRightConcat(a, b[..|b| - 1], drop);
      }
    }
  }

  /** A suffix of dashes only disappears; any other is appended without its trailing dashes. */
  lemma SuffixedSlugIs(slug: string, suffix: string)
    requires DashSeparated(slug) && slug != "" && |suffix| <= 8
    ensures var kept, x := KeptSlug(slug, suffix), TrimRight(suffix, IsDash);
            && kept != "" && DashSeparated(kept) && |kept| <= MAX_SLUG - |suffix| - 1
            && SuffixedSlug(slug, suffix) == if x == "" then kept else kept + ['-'] + x
  {
    var limit := MAX_SLUG - |suffix| - 1;
    var kept := KeptSlug(slug, suffix);
    KeptIsDashSeparated(slug, limit);
    var whole := kept + ['-'] + suffix;
    assert TrimLeft(whole, IsDash) == whole;
    TrimRightConcat(kept + ['-'], suffix, IsDash);
    assert (kept + ['-'])[..|kept|] == kept;
    assert TrimRight(kept + ['-'], IsDash) == kept;
  }

  lemma KeptIsDashSeparated(slug: string, limit: nat)
    requires DashSeparated(slug) && slug != "" && limit > 0
    ensures var kept := Clip(slug, limit, IsDash);
            kept != "" && DashSeparated(kept) && |kept| <= limit
  {
    hide Clip, WithoutDoubleDash;
    ClipIsPrefix(slug, limit, IsDash);
    SliceWithoutDoubleDash(slug, 0, |Clip(slug, limit, IsDash)|);
  }

  lemma DashJoins(a: string, b: string)
    requires DashSeparated(a) && a != "" && b != ""
    ensures DashSeparated(a + ['-'] + b) <==> DashSeparated(b)
  {
    hide IsSlugChar;
    var s := a + ['-'] + b;
    var n := |a| + 1;
    assert s[n..] == b && s[|s| - 1] == b[|b| - 1] && s[n - 1] == '-' && s[n] == b[0];
    if DashSeparated(s) {
      SliceWithoutDoubleDash(s, n, |s|);
    }
    if DashSeparated(b) {
      assert forall k :: 0 <= k < |b| ==> s[n + k] == b[k];
      forall i, j | 0 <= i && j == i + 1 < |s| && s[i] == '-' ensures s[j] != '-' {
        if i >= n {
          assert b[i - n] == '-' && b[j - n] != '-';
        } else if j < |a| {
          assert a[i] == '-' && a[j] != '-';
        }
      }
    }
  }

  /**
    For every session the suffixed branch keeps its type and a slug within the limit; it is a semantic branch again
    if and only if the suffix, without trailing dashes, is written like a slug.
   */
  lemma SuffixedBranch(branch: string, branchType: string, slug: string, sessionID: string)
    requires SemanticBranch(branch, branchType, slug)
    ensures var suffix := ShortStableID(sessionID);
            && AddBranchSessionSuffix(branch, sessionID) == branchType + ['/'] + SuffixedSlug(slug, suffix)
            && |SuffixedSlug(slug, suffix)| <= MAX_SLUG && SuffixedSlug(slug, suffix) != ""
            && (SemanticBranch(AddBranchSessionSuffix(branch, sessionID), branchType, SuffixedSlug(slug, suffix))
                <==> DashSeparated(TrimRight(suffix, IsDash)))
  {
    var suffix := ShortStableID(sessionID);
    AllowedTypesAreLetters(branchType);
    LettersHaveNoSlash(branchType);
    MinimumNeverDecides(sessionID);
    hide ShortStableID, SuffixedSlug, DashSeparated, Text.IndexOf, AllowedType, LowerLetters, KeptSlug, MaxSlugLength;
    IndexOfAt(branchType, '/', slug);
    assert branch[..|branchType|] == branchType && branch[|branchType| + 1..] == slug;
    ShortIsShort(sessionID);
    SuffixedSlugIs(slug, suffix);
    var kept, x := KeptSlug(slug, suffix), TrimRight(suffix, IsDash);
    if x == "" {
      NothingIsDashSeparated();
    } else {
      DashJoins(kept, x);
    }
  }

  lemma NothingIsDashSeparated()
    ensures DashSeparated("")
  {
  }

  lemma ShortIsShort(sessionID: string)
    ensures |ShortStableID(sessionID)| <= 8
  {
    hide Text.Trim, Text.TrimSpace, Fields, ShortStableIDOf;
    var trimmed := Trim(TrimSpace(sessionID), IsDash);
    ShortStableIDIsShort(trimmed, Fields(trimmed));
  }

  /** Two suffixes of one length give one branch only when they agree up to trailing dashes. */
  lemma SuffixSeparatesSessions(slug: string, a: string, b: string)
    requires DashSeparated(slug) && slug != "" && |a| == |b| <= 8
    ensures SuffixedSlug(slug, a) == SuffixedSlug(slug, b) <==> TrimRight(a, IsDash) == TrimRight(b, IsDash)
  {
    hide SuffixedSlug, DashSeparated, Text.TrimRight, KeptSlug;
    SuffixedSlugIs(slug, a);
    SuffixedSlugIs(slug, b);
    var kept, x, y := KeptSlug(slug, a), TrimRight(a, IsDash), TrimRight(b, IsDash);
    assert KeptSlug(slug, b) == kept by { SameKept(slug, a, b); }
    if SuffixedSlug(slug, a) == SuffixedSlug(slug, b) && x != "" && y != "" {
      assert x == (kept + ['-'] + x)[|kept| + 1..] == (kept + ['-'] + y)[|kept| + 1..] == y;
    }
  }

  lemma SameKept(slug: string, a: string, b: string)
    requires |a| == |b| <= 8
    ensures KeptSlug(slug, a) == KeptSlug(slug, b)
  {
  }
}
