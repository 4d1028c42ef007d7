/** The posixpath functions the de-identifier uses to build output
    locations: join (of two parts; more parts join left to right), dirname
    and basename. Paths are plain strings with '/' as the separator. */
module Paths {

  /** Index of the last '/' in p, or -1 when there is none (p.rfind('/')). */
  function LastSlash(p: string): (i: int)
    ensures -1 <= i < |p|
    ensures i >= 0 ==> p[i] == '/'
    ensures forall k :: i < k < |p| ==> p[k] != '/'
  {
    if p == [] then -1
    else if p[|p| - 1] == '/' then |p| - 1
    else LastSlash(p[..|p| - 1])
  }

  /** posixpath.join(a, b): an absolute b replaces a; otherwise b is
      appended, with a '/' in between unless a is empty or already ends
      with one. */
  function Join(a: string, b: string): string {
    if |b| > 0 && b[0] == '/' then b
    else if a == [] || a[|a| - 1] == '/' then a + b
    else a + "/" + b
  }

  /** posixpath.basename(p): what follows the last '/'. */
  function Basename(p: string): (r: string)
    ensures '/' !in r
  {
    p[LastSlash(p) + 1..]
  }

  predicate AllSlashes(s: string) {
    forall k :: 0 <= k < |s| ==> s[k] == '/'
  }

  /** s without the '/' characters at its end (s.rstrip('/')). */
  function StripTrailingSlashes(s: string): (r: string)
    ensures r <= s
    ensures r == [] || r[|r| - 1] != '/'
  {
    if s != [] && s[|s| - 1] == '/' then StripTrailingSlashes(s[..|s| - 1]) else s
  }

  /** posixpath.dirname(p): everything up to the last '/', with trailing
      slashes removed unless the head consists of slashes only. */
  function Dirname(p: string): string {
    var head := p[..LastSlash(p) + 1];
    if head != [] && !AllSlashes(head) then StripTrailingSlashes(head) else head
  }

  /** p names something strictly inside the directory dir. */
  predicate IsUnder(p: string, dir: string) {
    && |dir| < |p| && p[..|dir|] == dir
    && (p[|dir|] == '/' || (dir != [] && dir[|dir| - 1] == '/'))
  }

  // ---------------------------------------------------------------------
  // Lemmas

  lemma {:induction false} LastSlashAppend(a: string, b: string)
    requires '/' !in b
    ensures LastSlash(a + b) == LastSlash(a)
  {
    if b != [] {
      assert (a + b)[..|a + b| - 1] == a + b[..|b| - 1];
      LastSlashAppend(a, b[..|b| - 1]);
    } else {
      assert a + b == a;
    }
  }

  /** The last component of a joined path is the part joined on. */
  lemma BasenameJoin(a: string, b: string)
    requires '/' !in b
    ensures Basename(Join(a, b)) == b
  {
    if a == [] {
      LastSlashAppend([], b);
      assert [] + b == b;
    } else if a[|a| - 1] == '/' {
      LastSlashAppend(a, b);
    } else {
      LastSlashAppend(a + "/", b);
      assert a + "/" + b == (a + "/") + b;
    }
  }

  /** The directory of a joined path is the directory joined to, when that
      is a non-empty path without trailing '/'. */
  lemma DirnameJoin(a: string, b: string)
    requires a != [] && a[|a| - 1] != '/' && '/' !in b
    ensures Dirname(Join(a, b)) == a
  {
    var p := a + "/" + b;
    assert p == (a + "/") + b;
    LastSlashAppend(a + "/", b);
    assert p[..LastSlash(p) + 1] == a + "/";
    assert !AllSlashes(a + "/") by { assert (a + "/")[|a| - 1] != '/'; }
    assert (a + "/")[..|a|] == a;
    assert StripTrailingSlashes(a + "/") == StripTrailingSlashes(a) == a;
    assert Join(a, b) == p;
  }

  /** Joining a relative part onto a non-empty directory lands inside it. */
  lemma JoinIsUnder(a: string, b: string)
    requires a != [] && (b == [] || b[0] != '/')
    requires b != [] || a[|a| - 1] != '/'
    ensures IsUnder(Join(a, b), a)
  {
    var p := Join(a, b);
    if a[|a| - 1] != '/' {
      assert p == a + "/" + b;
      assert p[..|a|] == a;
    } else {
      assert p == a + b;
      assert p[..|a|] == a;
    }
  }

  /** Inside is transitive. */
  lemma UnderTransitive(p: string, q: string, r: string)
    requires IsUnder(p, q) && IsUnder(q, r)
    ensures IsUnder(p, r)
  {
    assert p[..|r|] == p[..|q|][..|r|];
    assert p[|r|] == q[|r|] by { assert p[..|q|][|r|] == q[|r|]; }
  }

  /** Text appended after a relative part stays at the end of the join. */
  lemma JoinAppend(a: string, b: string, c: string)
    requires b != [] && b[0] != '/'
    ensures Join(a, b + c) == Join(a, b) + c
  {
    assert (b + c)[0] == b[0];
  }

  /** A path has no trailing '/' once a non-empty part without '/' is
      joined on. */
  lemma JoinEndsInPart(a: string, b: string)
    requires b != [] && '/' !in b
    ensures Join(a, b) != [] && Join(a, b)[|Join(a, b)| - 1] == b[|b| - 1]
  {
  }
}
