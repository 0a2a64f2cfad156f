/** The part of Node's POSIX `path.basename` the repository uses: the last
    segment of a path, ignoring trailing separators. */
module Paths {
  import opened JsString

  const Separator: char := '/'

  /** `p` without its trailing separators: a prefix of `p` that does not end
      in a separator, and everything cut off is separators. */
  function StripTrailingSeparators(p: string): (r: string)
    ensures |r| <= |p| && r == p[..|r|]
    ensures r == [] || r[|r| - 1] != Separator
    ensures forall k :: |r| <= k < |p| ==> p[k] == Separator
  {
    if p != [] && p[|p| - 1] == Separator then StripTrailingSeparators(p[..|p| - 1]) else p
  }

  /** The part of `q` after its last separator: all of `q` when it has
      none. It holds no separator and is either all of `q` or preceded by a
      separator, which makes it the whole last segment. */
  function AfterLastSeparator(q: string): (name: string)
    ensures Separator !in name
    ensures |name| <= |q| && name == q[|q| - |name|..]
    ensures |name| == |q| || q[|q| - |name| - 1] == Separator
  {
    q[LastIndexOf(q, Separator) + 1..]
  }

  /** `path.basename(p)`: the last segment of `p` once its trailing
      separators are dropped; the empty string for `""` and for the root. */
  function Basename(p: string): (name: string)
    ensures Separator !in name
    ensures var q := StripTrailingSeparators(p);
            |name| <= |q| && name == q[|q| - |name|..] && (|name| == |q| || q[|q| - |name| - 1] == Separator)
  {
    AfterLastSeparator(StripTrailingSeparators(p))
  }

  /** A path is absolute and already resolved, as `path.resolve` leaves it:
      it is the root, or it starts with a separator, does not end with one
      and has no two separators in a row (every segment is non-empty). */
  predicate IsResolved(p: string) {
    p == [Separator] ||
    (|p| >= 2 && p[0] == Separator && p[|p| - 1] != Separator && NoDoubledSeparator(p))
  }

  /** No two consecutive characters of `p` are both separators. */
  predicate NoDoubledSeparator(p: string) {
    |p| < 2 || (!(p[0] == Separator && p[1] == Separator) && NoDoubledSeparator(p[1..]))
  }

  /** The name of a resolved path `dir/name` is `name`: for `/a/b/myrepo` it
      is `myrepo`. */
  lemma {:induction false} BasenameOfChild(dir: string, name: string)
    requires name != [] && Separator !in name
    ensures Basename(dir + [Separator] + name) == name
  {
    var p := dir + [Separator] + name;
    assert StripTrailingSeparators(p) == p by {
      assert p[|p| - 1] == name[|name| - 1];
    }
    var cut := LastIndexOf(p, Separator);
    assert p[|dir|] == Separator;
    assert p[|dir| + 1..] == name;
  }

  /** The name of every resolved path other than the root is its last
      segment, non-empty; the root's name is empty. */
  lemma BasenameOfResolved(p: string)
    requires IsResolved(p)
    ensures p == [Separator] ==> Basename(p) == []
    ensures p != [Separator] ==> Basename(p) != [] && p == p[..|p| - |Basename(p)|] + Basename(p)
    ensures p != [Separator] ==> p[|p| - |Basename(p)| - 1] == Separator
  {
    if p == [Separator] {
      assert StripTrailingSeparators(p) == [];
    } else {
      assert |p| >= 2 && p[0] == Separator && p[|p| - 1] != Separator;
      assert StripTrailingSeparators(p) == p;
      LastSegment(p, Basename(p));
    }
  }

  /** A separator-free suffix of a path that starts with a separator and
      does not end with one, and that is either the whole path or preceded
      by a separator, is a non-empty proper suffix preceded by a separator. */
  lemma LastSegment(p: string, name: string)
    requires |p| >= 2 && p[0] == Separator && p[|p| - 1] != Separator
    requires Separator !in name && |name| <= |p| && name == p[|p| - |name|..]
    requires |name| == |p| || p[|p| - |name| - 1] == Separator
    ensures name != [] && |name| < |p|
    ensures p == p[..|p| - |name|] + name && p[|p| - |name| - 1] == Separator
  {
    assert p[|p| - |name|..] == name;
  }

  /** The names of the resolved paths `/a/b/myrepo` and `/tmp/x`. */
  lemma BasenameExamples()
    ensures Basename("/a/b/myrepo") == "myrepo"
    ensures Basename("/tmp/x") == "x"
  {
    BasenameOfChild("/a/b", "myrepo");
    BasenameOfChild("/tmp", "x");
  }

  /** The root's name is empty. */
  lemma BasenameOfRoot()
    ensures Basename("/") == ""
  {
    assert StripTrailingSeparators("/") == "";
  }
}
