/** The file paths of skill bundles: what is accepted, and what an accepted path looks like. */
module SkillPaths {
  import opened Text
  import opened Payloads
  import opened Paths

  const NUL := '\0'

  predicate IsPathChar(c: char) { c != NUL && c != '\\' }

  /** A trimmed path that names something below a directory with slashes only. */
  predicate Usable(raw: string) {
    raw != "" && Only(raw, IsPathChar) && raw[0] != '/'
  }

  /** Go's `path.Clean` for a path without a leading slash. */
  function CleanText(raw: string): string {
    var parts := Clean(Split(raw, '/'));
    if parts == [] then "." else Join(parts, '/')
  }

  predicate Escapes(cleaned: string) {
    cleaned == "." || cleaned == ".." || HasPrefix(cleaned, "../")
  }

  function NormalizeSkillBundlePath(value: string): Option<string> {
    var raw := TrimSpace(value);
    if !Usable(raw) then None
    else
      var cleaned := CleanText(raw);
      if Escapes(cleaned) then None
      else if !AllPlain(Split(cleaned, '/')) then None
      else Some(cleaned)
  }

  /** The components of an accepted path. */
  function Components(path: string): Path {
    Split(path, '/')
  }

  lemma SplitHasNoSlashes(s: string)
    ensures NoSlashes(Split(s, '/'))
  {
    hide Text.Split;
    var parts := Split(s, '/');
    assert forall i :: 0 <= i < |parts| ==> parts[i] in parts;
  }

  lemma PlainHasNoSlashes(parts: Path)
    requires AllPlain(parts) && parts != []
    ensures Split(Join(parts, '/'), '/') == parts
  {
    hide Text.Split, Text.Join;
    assert forall part :: part in parts ==> '/' !in part;
    SplitJoin(parts, '/');
  }

  lemma EscapingFirstComponent(s: string)
    ensures Escapes(s) ==> !Plain(Split(s, '/')[0])
  {
    if s == "." || s == ".." {
      IndexOfNone(s, '/');
    } else if HasPrefix(s, "../") {
      IndexOfAt("..", '/', s[3..]);
      assert s == ".." + ['/'] + s[3..];
    }
  }

  lemma ClimbingEscapes(parts: Path)
    requires parts != [] && parts[0] == ".."
    ensures Escapes(Join(parts, '/'))
  {
    if |parts| > 1 {
      assert Join(parts, '/') == ".." + ['/'] + Join(parts[1..], '/');
      assert Join(parts, '/')[..3] == "../";
    }
  }

  /** A cleaned text escapes exactly when the walk leaves its directory or ends where it started. */
  lemma EscapesExactly(raw: string)
    ensures var parts := Split(raw, '/');
            && (Escapes(CleanText(raw)) <==> !(NeverClimbsOut(parts) && Depth(parts) > 0))
            && (!Escapes(CleanText(raw)) ==> AllPlain(Clean(parts)) && Split(CleanText(raw), '/') == Clean(parts))
  {
    hide Text.Split, Text.Join, Clean, Escapes, NeverClimbsOut, Plain, Depth;
    var parts := Split(raw, '/');
    SplitHasNoSlashes(raw);
    CleanTellsClimbing(parts);
    if !NeverClimbsOut(parts) {
      ClimbingEscapes(Clean(parts));
    } else if Depth(parts) == 0 {
      DotEscapes();
    } else {
      PlainHasNoSlashes(Clean(parts));
      EscapingFirstComponent(CleanText(raw));
    }
  }

  lemma DotEscapes()
    ensures Escapes(".")
  {
  }

  /**
    Accepted are exactly the usable paths that name something strictly below their start and never leave it on the
    way; the later look at the segments never rejects one of them.
   */
  lemma AcceptedPathsExactly(value: string)
    ensures var raw := TrimSpace(value);
            && (NormalizeSkillBundlePath(value).Some?
                <==> Usable(raw) && NeverClimbsOut(Split(raw, '/')) && Depth(Split(raw, '/')) > 0)
            && (NormalizeSkillBundlePath(value).Some? ==>
                  Components(NormalizeSkillBundlePath(value).value) == Clean(Split(raw, '/')))
  {
    hide Text.TrimSpace, Text.Split, Clean, CleanText, Escapes, NeverClimbsOut, AllPlain, Depth, Usable;
    EscapesExactly(TrimSpace(value));
  }

  /** What the digest and the materialized layout rely on. */
  lemma AcceptedPathIsPlain(value: string)
    requires NormalizeSkillBundlePath(value).Some?
    ensures var path := NormalizeSkillBundlePath(value).value;
            && AllPlain(Components(path)) && Components(path) != []
            && Join(Components(path), '/') == path && Only(path, IsPathChar)
  {
    hide Text.TrimSpace, Text.Split, Text.Join, Clean, Escapes, Plain;
    var raw := TrimSpace(value);
    var path := NormalizeSkillBundlePath(value).value;
    JoinSplit(path, '/');
    EscapesExactly(raw);
    CleanTextKeepsPathChars(raw);
  }

  predicate PathChars(parts: Path) {
    forall i :: 0 <= i < |parts| ==> Only(parts[i], IsPathChar)
  }

  lemma {:induction false} SplitKeepsPathChars(s: string)
    requires Only(s, IsPathChar)
    ensures PathChars(Split(s, '/'))
    decreases |s|
  {
    hide Text.IndexOf;
    var i := IndexOf(s, '/');
    if i < |s| {
      SplitKeepsPathChars(s[i + 1..]);
    }
  }

  lemma {:induction false} CleanKeepsPathChars(parts: Path)
    requires PathChars(parts)
    ensures PathChars(Clean(parts))
  {
    hide Text.Only;
    if parts != [] {
      CleanKeepsPathChars(parts[..|parts| - 1]);
    }
  }

  lemma {:induction false} JoinKeepsPathChars(parts: Path)
    requires PathChars(parts) && parts != []
    ensures Only(Join(parts, '/'), IsPathChar)
  {
    if |parts| > 1 {
      JoinKeepsPathChars(parts[1..]);
    }
  }

  lemma CleanTextKeepsPathChars(raw: string)
    requires Only(raw, IsPathChar)
    ensures Only(CleanText(raw), IsPathChar)
  {
    hide Text.Split, Text.Join, Clean;
    SplitKeepsPathChars(raw);
    CleanKeepsPathChars(Split(raw, '/'));
    if Clean(Split(raw, '/')) != [] {
      JoinKeepsPathChars(Clean(Split(raw, '/')));
    }
  }

  lemma CleanTextNeverGrows(raw: string)
    requires raw != ""
    ensures |CleanText(raw)| <= |raw|
  {
    hide Text.Split, Text.Join, Clean, TotalLength;
    var parts := Split(raw, '/');
    JoinSplit(raw, '/');
    JoinLength(parts);
    CleanNeverGrows(parts);
    if Clean(parts) != [] {
      JoinLength(Clean(parts));
    }
  }

  /** An accepted path is accepted as it is, unless cleaning left white space at one of its ends. */
  lemma AcceptedPathIsFixedExactly(value: string)
    requires NormalizeSkillBundlePath(value).Some?
    ensures var path := NormalizeSkillBundlePath(value).value;
            NormalizeSkillBundlePath(path) == Some(path) <==> TrimSpace(path) == path
  {
    var path := NormalizeSkillBundlePath(value).value;
    AcceptedPathIsUsable(value);
    hide Text.Split, Text.Join, Clean, Escapes, Plain, Usable, CleanText;
    EscapesExactly(TrimSpace(value));
    CleanTextOfPlain(path);
    if TrimSpace(path) != path && NormalizeSkillBundlePath(path).Some? {
      TrimShortens(path);
      UsableIsNotEmpty(TrimSpace(path));
      CleanTextNeverGrows(TrimSpace(path));
    }
  }

  lemma UsableIsNotEmpty(raw: string)
    ensures Usable(raw) ==> raw != ""
  {
  }

  lemma CleanTextOfPlain(path: string)
    requires AllPlain(Split(path, '/'))
    ensures CleanText(path) == path && !Escapes(path)
  {
    hide Text.Split, Text.Join, Clean, Plain, Escapes;
    CleanKeepsPlain(Split(path, '/'));
    JoinSplit(path, '/');
    EscapingFirstComponent(path);
  }

  lemma TrimShortens(s: string)
    requires TrimSpace(s) != s
    ensures |TrimSpace(s)| < |s|
  {
    hide Text.Trim;
    var i, j := TrimIsSlice(s, IsSpace);
  }

  lemma AcceptedPathIsUsable(value: string)
    requires NormalizeSkillBundlePath(value).Some?
    ensures Usable(NormalizeSkillBundlePath(value).value)
  {
    hide NormalizeSkillBundlePath;
    AcceptedPathIsPlain(value);
    PlainStart(NormalizeSkillBundlePath(value).value);
  }

  lemma PlainStart(path: string)
    requires AllPlain(Split(path, '/'))
    ensures path != "" && path[0] != '/'
  {
    hide AllPlain;
    assert Plain(Split(path, '/')[0]) by { FirstIsPlain(Split(path, '/')); }
  }

  lemma FirstIsPlain(parts: Path)
    requires AllPlain(parts) && parts != []
    ensures Plain(parts[0])
  {
  }
}
