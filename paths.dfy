/**
  POSIX path strings, as os.path.join and os.makedirs treat them. Paths are
  compared as strings; no normalisation is applied.
 */
module Paths {

  const SEP: char := '/'

  predicate IsAbsolute(p: string) {
    |p| > 0 && p[0] == SEP
  }

  /** os.path.join(a, b) on POSIX. */
  function Join(a: string, b: string): string {
    if IsAbsolute(b) then b
    else if a == "" || a[|a| - 1] == SEP then a + b
    else a + [SEP] + b
  }

  /** The last path component: everything after the final separator. */
  function Basename(p: string): string {
    if p == [] || p[|p| - 1] == SEP then [] else Basename(p[..|p| - 1]) + [p[|p| - 1]]
  }

  /** The directories os.makedirs(p) leaves in place: p and every prefix ending before a separator. */
  function Ancestors(p: string): (r: set<string>)
    ensures p in r
    ensures forall q :: q in r ==> |q| <= |p| && q == p[..|q|]
  {
    {p} + set i | 0 < i < |p| && p[i] == SEP :: p[..i]
  }

  /** posixpath.join(os.getcwd(), 'storage'), the constructor's default folder. */
  function DefaultStorageFolder(cwd: string): (r: string)
    ensures Basename(r) == "storage"
  {
    JoinBasename(cwd, "storage");
    Join(cwd, "storage")
  }

  /** Joining a relative name puts the folder first and the name last. */
  lemma JoinParts(a: string, b: string)
    requires !IsAbsolute(b)
    ensures var p := Join(a, b); |p| >= |a| + |b| && p[..|a|] == a && p[|p| - |b|..] == b
  {
  }

  /** Within one folder, different relative names give different paths. */
  lemma JoinInjective(a: string, b1: string, b2: string)
    requires !IsAbsolute(b1) && !IsAbsolute(b2)
    ensures Join(a, b1) == Join(a, b2) <==> b1 == b2
  {
    var p1, p2 := Join(a, b1), Join(a, b2);
    if p1 == p2 {
      var k := if a == "" || a[|a| - 1] == SEP then |a| else |a| + 1;
      assert p1[k..] == b1 && p2[k..] == b2;
    }
  }

  /** A single-component name is the basename of the joined path. */
  lemma {:induction false} JoinBasename(a: string, b: string)
    requires b != [] && SEP !in b
    ensures Basename(Join(a, b)) == b
  {
    var p := Join(a, b);
    assert p == (if a == "" || a[|a| - 1] == SEP then a else a + [SEP]) + b;
    SuffixBasename(if a == "" || a[|a| - 1] == SEP then a else a + [SEP], b);
  }

  lemma {:induction false} SuffixBasename(x: string, b: string)
    requires SEP !in b
    requires x == [] || x[|x| - 1] == SEP
    ensures Basename(x + b) == b
    decreases |b|
  {
    if b == [] {
      assert x + b == x;
    } else {
      var p := x + b;
      assert p[..|p| - 1] == x + b[..|b| - 1];
      assert p[|p| - 1] == b[|b| - 1];
      SuffixBasename(x, b[..|b| - 1]);
    }
  }
}
