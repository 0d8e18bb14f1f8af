/** Commit ids and the ancestry they form: an id is a digest of its commit, so it fixes the parents. */
module History {
  import opened Text

  predicate IsOid(s: string) {
    (|s| == 40 || |s| == 64) && forall c :: c in s ==> IsHexDigit(c)
  }

  type Oid = s: string | IsOid(s) witness seq(40, _ => '0')

  type Parents = Oid -> seq<Oid>

  /** A walk from an ancestor to a descendant, each id a parent of the next one. */
  ghost predicate Walk(parents: Parents, w: seq<Oid>) {
    |w| >= 1 && forall i, j :: 0 <= i && j == i + 1 < |w| ==> w[i] in parents(w[j])
  }

  ghost predicate Ancestor(parents: Parents, a: Oid, b: Oid) {
    exists w: seq<Oid> :: Walk(parents, w) && w[0] == a && w[|w| - 1] == b
  }

  lemma AncestorReflexive(parents: Parents, a: Oid)
    ensures Ancestor(parents, a, a)
  {
    assert Walk(parents, [a]);
  }

  lemma ParentIsAncestor(parents: Parents, a: Oid, b: Oid)
    requires a in parents(b)
    ensures Ancestor(parents, a, b)
  {
    assert Walk(parents, [a, b]);
  }

  lemma AncestorTransitive(parents: Parents, a: Oid, b: Oid, c: Oid)
    requires Ancestor(parents, a, b) && Ancestor(parents, b, c)
    ensures Ancestor(parents, a, c)
  {
    var u: seq<Oid> :| Walk(parents, u) && u[0] == a && u[|u| - 1] == b;
    var v: seq<Oid> :| Walk(parents, v) && v[0] == b && v[|v| - 1] == c;
    var w := u + v[1..];
    forall i, j | 0 <= i && j == i + 1 < |w|
      ensures w[i] in parents(w[j])
    {
      if j >= |u| {
        assert w[j] == v[j - |u| + 1];
        assert w[i] == v[i - |u| + 1];
      }
    }
    assert Walk(parents, w);
  }

  /** An id is its own lower case form, so comparing ids without case is comparing them. */
  lemma OidFoldIsEquality(a: Oid, b: Oid)
    ensures Lower(a) == a
    ensures EqualFold(a, b) <==> a == b
  {
    forall i | 0 <= i < |a| ensures LowerChar(a[i]) == a[i] { assert a[i] in a; }
    forall i | 0 <= i < |b| ensures LowerChar(b[i]) == b[i] { assert b[i] in b; }
    assert Lower(a) == a && Lower(b) == b;
  }
}
