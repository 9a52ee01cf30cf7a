/** Filesystem paths as sequences of components, the `/`-joined album
    names the indexer derives from them, and splitting such a name back
    into components. */
module Paths {

  /** An absolute path: its components from the filesystem root on.
      The empty sequence is the root directory itself. */
  type Path = seq<string>

  /** `p.parent`; the root is its own parent. */
  function Parent(p: Path): (r: Path)
    ensures |p| > 0 ==> |r| == |p| - 1 && p == r + [p[|p| - 1]]
  {
    if |p| == 0 then p else p[..|p| - 1]
  }

  /** Every directory `p.mkdir(parents=True)` guarantees: `p` and all
      directories above it. */
  function Ancestors(p: Path): (r: set<Path>)
    ensures p in r
    ensures forall q :: q in r ==> |q| <= |p| && q == p[..|q|]
  {
    assert p == p[..|p|];
    set k | 0 <= k <= |p| :: p[..k]
  }

  /** Every prefix of `p`, the root included, is among its ancestors. */
  lemma AncestorsComplete(p: Path)
    ensures forall k :: 0 <= k <= |p| ==> p[..k] in Ancestors(p)
  {
  }

  /** A name a directory listing can produce for an entry. */
  predicate ValidName(n: string)
  {
    n != "" && '/' !in n && n != "." && n != ".."
  }

  /** A directory relative to the photos root: a sequence of entry names. */
  predicate ValidRel(rel: seq<string>)
  {
    forall k :: 0 <= k < |rel| ==> ValidName(rel[k])
  }

  /** The components of a relative path, separated by `/`. */
  function Join(parts: seq<string>): string
    decreases |parts|
  {
    if |parts| == 0 then ""
    else if |parts| == 1 then parts[0]
    else parts[0] + "/" + Join(parts[1..])
  }

  /** `str(relative_path).replace(os.sep, '/')`: the album name of a
      directory, where the photos root itself renders as `.`. */
  function AlbumName(rel: seq<string>): string
  {
    if rel == [] then "." else Join(rel)
  }

  /** Position of the first `/` in `s`. */
  function FirstSlash(s: string): (i: nat)
    requires '/' in s
    ensures i < |s| && s[i] == '/' && '/' !in s[..i]
  {
    if s[0] == '/' then 0
    else
      assert '/' in s[1..] by {
        var k :| 0 <= k < |s| && s[k] == '/';
        assert s[1..][k - 1] == '/';
      }
      var j := FirstSlash(s[1..]);
      assert s[..j + 1] == [s[0]] + s[1..][..j];
      j + 1
  }

  /** The pieces of `s` between the `/` characters, as a path
      joined onto a root resolves `a/b/c`. */
  function Split(s: string): (r: seq<string>)
    ensures |r| >= 1
    decreases |s|
  {
    if '/' !in s then [s]
    else
      var i := FirstSlash(s);
      [s[..i]] + Split(s[i + 1..])
  }

  /** `Join(xs + [y])` adds one separator and one component. */
  lemma {:induction false} JoinSnoc(xs: seq<string>, y: string)
    requires |xs| >= 1
    ensures Join(xs + [y]) == Join(xs) + "/" + y
    decreases |xs|
  {
    if |xs| == 1 {
      assert xs + [y] == [xs[0], y];
      assert [xs[0], y][1..] == [y];
    } else {
      assert (xs + [y])[1..] == xs[1..] + [y];
      JoinSnoc(xs[1..], y);
    }
  }

  /** Splitting a joined relative path gives back its components. */
  lemma {:induction false} SplitJoin(parts: seq<string>)
    requires |parts| >= 1
    requires forall k :: 0 <= k < |parts| ==> '/' !in parts[k]
    ensures Split(Join(parts)) == parts
    decreases |parts|
  {
    if |parts| > 1 {
      var head, rest := parts[0], Join(parts[1..]);
      var s := head + "/" + rest;
      assert s[|head|] == '/';
      assert '/' in s;
      var i := FirstSlash(s);
      assert s[..i] == head;
      assert s[i + 1..] == rest;
      SplitJoin(parts[1..]);
      assert parts == [head] + parts[1..];
    }
  }

  /** Different directories have different album names, and no real
      subdirectory is named like the root. */
  lemma AlbumNamesDiffer(a: seq<string>, b: seq<string>)
    requires ValidRel(a) && ValidRel(b)
    requires a != b
    ensures AlbumName(a) != AlbumName(b)
  {
    if a != [] && b != [] {
      SplitJoin(a);
      SplitJoin(b);
    } else if a != [] {
      NotRootName(a);
    } else {
      NotRootName(b);
    }
  }

  /** The album name of a subdirectory is never the root's `.`. */
  lemma NotRootName(rel: seq<string>)
    requires ValidRel(rel) && rel != []
    ensures AlbumName(rel) != "."
  {
    if |rel| > 1 {
      assert Join(rel)[|rel[0]|] == '/';
    }
  }
}
