/** The thumbnail cache (app.py, `get_or_create_thumbnail`) over an
    abstract filesystem. The cache has no state of its own: a thumbnail
    counts as cached exactly when something exists at its path. Decoding,
    resizing and encoding the image are one opaque step that either writes
    the destination file or fails; which sources it succeeds on is the
    filesystem's `renderable` set. */
module Thumbnails {
  import opened Paths

  /** What the indexer can observe of a filesystem: the regular files, the
      directories, and the sources it has tried to render a thumbnail for,
      in order (the "Generating thumbnail for ..." lines). */
  datatype Disk = Disk(files: set<Path>, dirs: set<Path>, attempts: seq<Path>)

  /** `p.exists()`: a file or a directory is at `p`. */
  predicate Exists(d: Disk, p: Path)
  {
    p in d.files || p in d.dirs
  }

  /** `p.mkdir(parents=True, exist_ok=True)`. */
  function MakeDirs(d: Disk, p: Path): Disk
  {
    d.(dirs := d.dirs + Ancestors(p))
  }

  /** `get_or_create_thumbnail(source, dest, size)` on a disk: create the
      parent directory; stop if `dest` exists; otherwise try to render,
      which writes `dest` only when the source can be rendered. A failure
      is swallowed. */
  function Ensure(d: Disk, renderable: set<Path>, source: Path, dest: Path): Disk
  {
    var d1 := MakeDirs(d, Parent(dest));
    if Exists(d1, dest) then d1
    else
      d1.(attempts := d1.attempts + [source],
          files := if source in renderable then d1.files + {dest} else d1.files)
  }

  /** Nothing is ever removed: files and directories only accumulate and
      the attempt log only grows at its end. */
  predicate Grows(d: Disk, e: Disk)
  {
    d.files <= e.files && d.dirs <= e.dirs && d.attempts <= e.attempts
  }

  /** A destination is never one of the directories above it. */
  lemma NotOwnAncestor(dest: Path)
    requires dest != []
    ensures dest !in Ancestors(Parent(dest))
  {
  }

  /** After the call the destination's directory and all above it exist,
      nothing was removed, and no file other than `dest` was written. */
  lemma EnsureFrame(d: Disk, renderable: set<Path>, source: Path, dest: Path)
    ensures var r := Ensure(d, renderable, source, dest);
      && r.dirs == d.dirs + Ancestors(Parent(dest))
      && Parent(dest) in r.dirs
      && Grows(d, r)
      && r.files <= d.files + {dest}
      && |r.attempts| <= |d.attempts| + 1
  {
  }

  /** Cache hit: when something is already at `dest`, no rendering is
      attempted and no file is written. */
  lemma EnsureHit(d: Disk, renderable: set<Path>, source: Path, dest: Path)
    requires Exists(d, dest)
    ensures Ensure(d, renderable, source, dest) == MakeDirs(d, Parent(dest))
    ensures Ensure(d, renderable, source, dest).files == d.files
    ensures Ensure(d, renderable, source, dest).attempts == d.attempts
  {
  }

  /** Cache miss: rendering is attempted exactly once, and `dest` exists
      afterwards exactly when the source could be rendered. */
  lemma EnsureMiss(d: Disk, renderable: set<Path>, source: Path, dest: Path)
    requires dest != [] && !Exists(d, dest)
    ensures var r := Ensure(d, renderable, source, dest);
      && r.attempts == d.attempts + [source]
      && r.files == (if source in renderable then d.files + {dest} else d.files)
      && (Exists(r, dest) <==> source in renderable)
  {
    NotOwnAncestor(dest);
  }

  /** Once `dest` exists, calling again with the same arguments changes
      nothing; in particular no second rendering is attempted. */
  lemma EnsureIdempotent(d: Disk, renderable: set<Path>, source: Path, dest: Path)
    requires Exists(Ensure(d, renderable, source, dest), dest)
    ensures var r := Ensure(d, renderable, source, dest);
      Ensure(r, renderable, source, dest) == r
  {
    var r := Ensure(d, renderable, source, dest);
    assert r.dirs + Ancestors(Parent(dest)) == r.dirs;
  }

  /** A renderable source always ends up with its thumbnail, whether it
      was cached before or not. */
  lemma EnsureRenderable(d: Disk, renderable: set<Path>, source: Path, dest: Path)
    requires dest != [] && source in renderable
    ensures Exists(Ensure(d, renderable, source, dest), dest)
    ensures var r := Ensure(d, renderable, source, dest);
      Ensure(r, renderable, source, dest) == r
  {
    if !Exists(d, dest) {
      EnsureMiss(d, renderable, source, dest);
    }
    EnsureIdempotent(d, renderable, source, dest);
  }

  /** The filesystem the indexer reads and writes. */
  class FileSystem {
    var files: set<Path>
    var dirs: set<Path>
    var attempts: seq<Path>
    /** The source images that can be decoded, resized and written back. */
    const renderable: set<Path>

    function State(): Disk
      reads this
    {
      Disk(files, dirs, attempts)
    }

    constructor (files: set<Path>, dirs: set<Path>, renderable: set<Path>)
      ensures State() == Disk(files, dirs, [])
      ensures this.renderable == renderable
    {
      this.files := files;
      this.dirs := dirs;
      this.attempts := [];
      this.renderable := renderable;
    }

    /** `p.mkdir(parents=True, exist_ok=True)`. */
    method MakeDirectories(p: Path)
      modifies this`dirs
      ensures State() == MakeDirs(old(State()), p)
    {
      dirs := dirs + Ancestors(p);
    }

    /** `get_or_create_thumbnail(image_path, thumbnail_path, size)`. */
    method GetOrCreateThumbnail(imagePath: Path, thumbnailPath: Path)
      modifies this`files, this`dirs, this`attempts
      ensures State() == Ensure(old(State()), renderable, imagePath, thumbnailPath)
      ensures Parent(thumbnailPath) in dirs
      ensures old(Exists(State(), thumbnailPath)) ==> files == old(files) && attempts == old(attempts)
    {
      MakeDirectories(Parent(thumbnailPath));
      if thumbnailPath in files || thumbnailPath in dirs {
        return;
      }
      attempts := attempts + [imagePath];
      if imagePath in renderable {
        files := files + {thumbnailPath};
      }
    }
  }
}
