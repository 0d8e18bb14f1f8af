/** Lexical paths as component lists: cleaning, relative paths and containment. */
module Paths {
  import opened Text

  type Path = seq<string>

  /** A component that names something: neither empty, nor ".", nor "..", nor holding a slash. */
  predicate Plain(c: string) {
    c != "" && c != "." && c != ".." && '/' !in c
  }

  predicate AllPlain(p: Path) {
    forall i :: 0 <= i < |p| ==> Plain(p[i])
  }

  /** One component more, as Go's `path.Clean` treats it in a relative path. */
  function Push(cleaned: Path, c: string): Path {
    if c == "" || c == "." then cleaned
    else if c == ".." && cleaned != [] && cleaned[|cleaned| - 1] != ".." then cleaned[..|cleaned| - 1]
    else cleaned + [c]
  }

  function Clean(parts: Path): Path {
    if parts == [] then [] else Push(Clean(parts[..|parts| - 1]), parts[|parts| - 1])
  }

  /** How far below its start a walk along the components ends; negative above it. */
  function Depth(parts: Path): int {
    if parts == [] then 0
    else
      var c := parts[|parts| - 1];
      Depth(parts[..|parts| - 1]) + if c == "" || c == "." then 0 else if c == ".." then -1 else 1
  }

  /** The walk never leaves the directory it starts in. */
  predicate NeverClimbsOut(parts: Path) {
    forall k :: 0 <= k <= |parts| ==> Depth(parts[..k]) >= 0
  }

  predicate NoSlashes(parts: Path) {
    forall i :: 0 <= i < |parts| ==> '/' !in parts[i]
  }

  lemma {:induction false} NeverClimbsOutBefore(parts: Path)
    requires parts != []
    ensures NeverClimbsOut(parts) <==> NeverClimbsOut(parts[..|parts| - 1]) && Depth(parts) >= 0
  {
    var before := parts[..|parts| - 1];
    assert parts[..|parts|] == parts;
    if NeverClimbsOut(parts) {
      forall k | 0 <= k <= |before| ensures Depth(before[..k]) >= 0 {
        assert before[..k] == parts[..k];
      }
    }
    if NeverClimbsOut(before) && Depth(parts) >= 0 {
      forall k | 0 <= k <= |parts| ensures Depth(parts[..k]) >= 0 {
        if k < |parts| {
          assert before[..k] == parts[..k];
        }
      }
    }
  }

  /** Cleaning keeps the plain names that are still entered; what climbs out keeps a leading "..". */
  lemma {:induction false} CleanTellsClimbing(parts: Path)
    requires NoSlashes(parts)
    ensures NeverClimbsOut(parts) ==> AllPlain(Clean(parts)) && |Clean(parts)| == Depth(parts)
    ensures !NeverClimbsOut(parts) ==> Clean(parts) != [] && Clean(parts)[0] == ".."
  {
    if parts != [] {
      CleanTellsClimbing(parts[..|parts| - 1]);
      NeverClimbsOutBefore(parts);
    }
  }

  lemma {:induction false} CleanKeepsPlain(parts: Path)
    requires AllPlain(parts)
    ensures Clean(parts) == parts
  {
    if parts != [] {
      CleanKeepsPlain(parts[..|parts| - 1]);
    }
  }

  function TotalLength(parts: Path): nat {
    if parts == [] then 0 else TotalLength(parts[..|parts| - 1]) + |parts[|parts| - 1]| + 1
  }

  lemma {:induction false} CleanNeverGrows(parts: Path)
    ensures TotalLength(Clean(parts)) <= TotalLength(parts)
  {
    if parts != [] {
      CleanNeverGrows(parts[..|parts| - 1]);
    }
  }

  lemma TotalLengthFront(first: string, rest: Path)
    ensures TotalLength([first] + rest) == |first| + 1 + TotalLength(rest)
  {
    if rest != [] {
      assert ([first] + rest)[..|rest|] == [first] + rest[..|rest| - 1];
      TotalLengthFront(first, rest[..|rest| - 1]);
    } else {
      assert ([first] + rest)[..0] == [];
    }
  }

  lemma {:induction false} JoinLength(parts: Path)
    requires |parts| >= 1
    ensures |Join(parts, '/')| + 1 == TotalLength(parts)
  {
    assert parts == [parts[0]] + parts[1..];
    TotalLengthFront(parts[0], parts[1..]);
    if |parts| > 1 {
      JoinLength(parts[1..]);
    }
  }

  // ---- Relative paths ----

  function CommonPrefix(a: Path, b: Path): (n: nat)
    ensures n <= |a| && n <= |b| && a[..n] == b[..n]
    ensures n < |a| && n < |b| ==> a[n] != b[n]
  {
    if a == [] || b == [] || a[0] != b[0] then 0
    else
      var n := CommonPrefix(a[1..], b[1..]) + 1;
      assert a[..n] == [a[0]] + a[1..][..n - 1] && b[..n] == [b[0]] + b[1..][..n - 1];
      n
  }

  /** Go's `filepath.Rel` between cleaned absolute paths: up to the common ancestor and down again. */
  function Rel(root: Path, target: Path): Path {
    var n := CommonPrefix(root, target);
    seq(|root| - n, _ => "..") + target[n..]
  }

  predicate EnsurePathWithin(root: Path, target: Path) {
    var relative := Rel(root, target);
    relative == [] || relative[0] != ".."
  }

  /** For cleaned absolute paths the check accepts exactly the root and what is below it. */
  lemma WithinMeansBelow(root: Path, target: Path)
    requires AllPlain(target)
    ensures EnsurePathWithin(root, target) <==> root <= target
  {
    var n := CommonPrefix(root, target);
    if n == |root| {
      assert root == target[..n];
      assert Rel(root, target) == target[n..];
    } else {
      assert Rel(root, target)[0] == "..";
    }
  }
}
