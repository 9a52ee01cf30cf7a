/** The scan (app.py, `scan_photos_and_generate_thumbnails`): from the
    result of walking the photos root it builds the album map, creating
    each photo's thumbnail on the way.

    The walk is an input: one `WalkEntry` per visited directory, with the
    directory's path relative to the photos root and the names of the
    files directly in it. `CollectAlbums` and `WalkDisk` are the
    specification of the scan loop, one for the map it fills and one for
    what it does to the filesystem; `Scan` is the loop itself. */
module Gallery {
  import opened Strings
  import opened Paths
  import opened Sorting
  import opened Images
  import opened Thumbnails

  /** PHOTOS_DIR, THUMBNAILS_DIR and the normalised BASE_URL_PREFIX. */
  datatype Settings = Settings(photosRoot: Path, thumbnailsRoot: Path, baseUrlPrefix: string)

  /** One `(dirpath, dirnames, filenames)` triple of `os.walk`, with
      `dirpath` given relative to the photos root. */
  datatype WalkEntry = WalkEntry(relDir: seq<string>, filenames: seq<string>)

  /** `{"original_filename", "original_url", "thumbnail_url"}`. */
  datatype Photo = Photo(originalFilename: string, originalUrl: string, thumbnailUrl: string)

  /** `{"cover_thumbnail_url", "photos"}`. */
  datatype Album = Album(coverThumbnailUrl: string, photos: seq<Photo>)

  /** `gallery_data`: album name to album. */
  type GalleryData = map<string, Album>

  const PlaceholderPath: string := "/static/placeholder.png"

  /** What `os.walk` yields: the directories are distinct and their
      components are names a directory listing can hold. */
  predicate WellFormedWalk(ws: seq<WalkEntry>)
  {
    && (forall i :: 0 <= i < |ws| ==> ValidRel(ws[i].relDir))
    && (forall i, j :: 0 <= i < j < |ws| ==> ws[i].relDir != ws[j].relDir)
  }

  /** The directory holds at least one image file, so it is an album. */
  predicate HasImages(e: WalkEntry)
  {
    ImageFiles(e.filenames) != []
  }

  /** `current_dir_images.sort(key=lambda x: x.lower())`. */
  function SortByLower(names: seq<string>): seq<string>
  {
    SortBy(names, Lower)
  }

  /** `Path(dirpath) / photo_filename`. */
  function SourcePath(cfg: Settings, rel: seq<string>, filename: string): Path
  {
    cfg.photosRoot + rel + [filename]
  }

  /** `thumbnails_root / relative_path / photo_filename`. */
  function ThumbnailPath(cfg: Settings, rel: seq<string>, filename: string): Path
  {
    cfg.thumbnailsRoot + rel + [filename]
  }

  /** The part of a photo's URL after `/photos/` or `/thumbnails/`: the
      album segment is left out for the root album. */
  function UrlPath(album: string, filename: string): string
  {
    if album == "." then filename else album + "/" + filename
  }

  function PhotoUrl(prefix: string, album: string, filename: string): string
  {
    prefix + "/photos/" + UrlPath(album, filename)
  }

  function ThumbnailUrl(prefix: string, album: string, filename: string): string
  {
    prefix + "/thumbnails/" + UrlPath(album, filename)
  }

  function MakePhoto(prefix: string, album: string, filename: string): Photo
  {
    Photo(filename, PhotoUrl(prefix, album, filename), ThumbnailUrl(prefix, album, filename))
  }

  /** `album_photos` after the inner loop over `names`. */
  function PhotoEntries(prefix: string, album: string, names: seq<string>): seq<Photo>
  {
    seq(|names|, k requires 0 <= k < |names| => MakePhoto(prefix, album, names[k]))
  }

  lemma PhotoEntriesSnoc(prefix: string, album: string, names: seq<string>, f: string)
    ensures PhotoEntries(prefix, album, names + [f]) == PhotoEntries(prefix, album, names) + [MakePhoto(prefix, album, f)]
  {
  }

  function Filenames(photos: seq<Photo>): seq<string>
  {
    seq(|photos|, k requires 0 <= k < |photos| => photos[k].originalFilename)
  }

  /** One iteration of the walk loop on `gallery_data`. */
  function AddDirectory(g: GalleryData, cfg: Settings, e: WalkEntry): GalleryData
  {
    var images := ImageFiles(e.filenames);
    if images == [] then g
    else
      var name := AlbumName(e.relDir);
      var album := if name in g then g[name] else Album("", []);
      g[name := MergePhotos(album, PhotoEntries(cfg.baseUrlPrefix, name, SortByLower(images)), cfg.baseUrlPrefix)]
  }

  /** `photos.extend(album_photos)` and the choice of the cover: the
      first new thumbnail, or the placeholder, unless a cover is set. */
  function MergePhotos(album: Album, added: seq<Photo>, prefix: string): Album
  {
    var cover :=
      if album.coverThumbnailUrl == "" && added != [] then added[0].thumbnailUrl
      else if album.coverThumbnailUrl == "" then prefix + PlaceholderPath
      else album.coverThumbnailUrl;
    Album(cover, album.photos + added)
  }

  /** `gallery_data` after the walk loop has processed `ws`. */
  function CollectAlbums(cfg: Settings, ws: seq<WalkEntry>): GalleryData
    decreases |ws|
  {
    if ws == [] then map[]
    else AddDirectory(CollectAlbums(cfg, ws[..|ws| - 1]), cfg, ws[|ws| - 1])
  }

  /** `{k: v for k, v in gallery_data.items() if v["photos"]}`. */
  function DropEmptyAlbums(g: GalleryData): GalleryData
  {
    map name | name in g && g[name].photos != [] :: g[name]
  }

  /** The map the scan returns. It does not depend on the filesystem:
      a photo is listed whether or not its thumbnail could be made. */
  function ScanGallery(cfg: Settings, ws: seq<WalkEntry>): GalleryData
  {
    DropEmptyAlbums(CollectAlbums(cfg, ws))
  }

  /** The filesystem after the inner loop has made the thumbnails for `names`. */
  function PhotosDisk(d: Disk, renderable: set<Path>, cfg: Settings, rel: seq<string>, names: seq<string>): Disk
    decreases |names|
  {
    if names == [] then d
    else
      var f := names[|names| - 1];
      Ensure(PhotosDisk(d, renderable, cfg, rel, names[..|names| - 1]), renderable,
             SourcePath(cfg, rel, f), ThumbnailPath(cfg, rel, f))
  }

  /** The filesystem after one iteration of the walk loop. */
  function DirectoryDisk(d: Disk, renderable: set<Path>, cfg: Settings, e: WalkEntry): Disk
  {
    var images := ImageFiles(e.filenames);
    if images == [] then d
    else PhotosDisk(MakeDirs(d, cfg.thumbnailsRoot + e.relDir), renderable, cfg, e.relDir, SortByLower(images))
  }

  /** The filesystem after the walk loop has processed `ws`. */
  function WalkDisk(d: Disk, renderable: set<Path>, cfg: Settings, ws: seq<WalkEntry>): Disk
    decreases |ws|
  {
    if ws == [] then d
    else DirectoryDisk(WalkDisk(d, renderable, cfg, ws[..|ws| - 1]), renderable, cfg, ws[|ws| - 1])
  }

  /** The filesystem after the whole scan. */
  function ScanDisk(d: Disk, renderable: set<Path>, cfg: Settings, ws: seq<WalkEntry>): Disk
  {
    WalkDisk(MakeDirs(d, cfg.thumbnailsRoot), renderable, cfg, ws)
  }

  /** `scan_photos_and_generate_thumbnails()`. */
  method Scan(fs: FileSystem, cfg: Settings, walk: seq<WalkEntry>) returns (gallery: GalleryData)
    modifies fs
    ensures gallery == ScanGallery(cfg, walk)
    ensures fs.State() == ScanDisk(old(fs.State()), fs.renderable, cfg, walk)
  {
    fs.MakeDirectories(cfg.thumbnailsRoot);
    ghost var start := fs.State();
    var albums: GalleryData := map[];
    var i := 0;
    while i < |walk|
      invariant 0 <= i <= |walk|
      invariant albums == CollectAlbums(cfg, walk[..i])
      invariant fs.State() == WalkDisk(start, fs.renderable, cfg, walk[..i])
    {
      assert walk[..i + 1][..i] == walk[..i];
      albums := ScanDirectory(fs, cfg, albums, walk[i]);
      i := i + 1;
    }
    assert walk[..i] == walk;
    gallery := map name | name in albums && albums[name].photos != [] :: albums[name];
  }

  /** The body of the walk loop, for one directory. */
  method ScanDirectory(fs: FileSystem, cfg: Settings, albums: GalleryData, entry: WalkEntry)
    returns (updated: GalleryData)
    modifies fs
    ensures updated == AddDirectory(albums, cfg, entry)
    ensures fs.State() == DirectoryDisk(old(fs.State()), fs.renderable, cfg, entry)
  {
    updated := albums;
    var rel := entry.relDir;
    var albumName := AlbumName(rel);
    var images := ImageFiles(entry.filenames);
    if images != [] {
      if albumName !in updated {
        updated := updated[albumName := Album("", [])];
      }
      fs.MakeDirectories(cfg.thumbnailsRoot + rel);
      var sorted := SortByLower(images);
      var albumPhotos := MakeThumbnails(fs, cfg, rel, albumName, sorted);
      var album := updated[albumName];
      var cover := album.coverThumbnailUrl;
      if cover == "" && albumPhotos != [] {
        cover := albumPhotos[0].thumbnailUrl;
      } else if cover == "" {
        cover := cfg.baseUrlPrefix + PlaceholderPath;
      }
      assert Album(cover, album.photos + albumPhotos) == MergePhotos(album, albumPhotos, cfg.baseUrlPrefix);
      assert album == if albumName in albums then albums[albumName] else Album("", []);
      ghost var placed := updated;
      updated := updated[albumName := Album(cover, album.photos + albumPhotos)];
      OverwriteAlbum(albums, placed, albumName, Album(cover, album.photos + albumPhotos));
    }
  }

  /** Replacing the entry just inserted is the same as inserting the replacement. */
  lemma OverwriteAlbum(g: GalleryData, placed: GalleryData, name: string, album: Album)
    requires placed == g || (name !in g && placed == g[name := Album("", [])])
    ensures placed[name := album] == g[name := album]
  {
  }

  /** The loop over one directory's sorted image files: make each
      thumbnail and build the photo's entry. */
  method MakeThumbnails(fs: FileSystem, cfg: Settings, rel: seq<string>, albumName: string, sorted: seq<string>)
    returns (albumPhotos: seq<Photo>)
    modifies fs
    ensures albumPhotos == PhotoEntries(cfg.baseUrlPrefix, albumName, sorted)
    ensures fs.State() == PhotosDisk(old(fs.State()), fs.renderable, cfg, rel, sorted)
  {
    albumPhotos := [];
    var j := 0;
    while j < |sorted|
      invariant 0 <= j <= |sorted|
      invariant albumPhotos == PhotoEntries(cfg.baseUrlPrefix, albumName, sorted[..j])
      invariant fs.State() == PhotosDisk(old(fs.State()), fs.renderable, cfg, rel, sorted[..j])
    {
      assert sorted[..j + 1][..j] == sorted[..j];
      assert sorted[..j + 1] == sorted[..j] + [sorted[j]];
      var filename := sorted[j];
      fs.GetOrCreateThumbnail(SourcePath(cfg, rel, filename), ThumbnailPath(cfg, rel, filename));
      var urlPath := if albumName != "." then albumName + "/" + filename else filename;
      var originalUrl := cfg.baseUrlPrefix + "/photos/" + urlPath;
      var thumbUrl := cfg.baseUrlPrefix + "/thumbnails/" + urlPath;
      PhotoEntriesSnoc(cfg.baseUrlPrefix, albumName, sorted[..j], filename);
      albumPhotos := albumPhotos + [Photo(filename, originalUrl, thumbUrl)];
      j := j + 1;
    }
    assert sorted[..j] == sorted;
  }

  // ---------------------------------------------------------------------
  // The album map

  /** An album has at least one photo and its cover is the first photo's
      thumbnail, which is never the empty URL. */
  predicate AlbumWellFormed(a: Album)
  {
    a.photos != [] && a.coverThumbnailUrl == a.photos[0].thumbnailUrl && a.coverThumbnailUrl != ""
  }

  /** One loop iteration adds the directory's album, if it has images,
      and leaves every other album as it was. */
  lemma AddDirectoryFrame(g: GalleryData, cfg: Settings, e: WalkEntry, name: string)
    ensures name in AddDirectory(g, cfg, e) <==> name in g || (HasImages(e) && AlbumName(e.relDir) == name)
    ensures name in g && !(HasImages(e) && AlbumName(e.relDir) == name) ==> AddDirectory(g, cfg, e)[name] == g[name]
  {
  }

  /** The album names of the directories in `ws` that hold an image file. */
  function AlbumNames(ws: seq<WalkEntry>): set<string>
    decreases |ws|
  {
    if ws == [] then {}
    else
      var e := ws[|ws| - 1];
      AlbumNames(ws[..|ws| - 1]) + if HasImages(e) then {AlbumName(e.relDir)} else {}
  }

  lemma {:induction false} AlbumNamesMembers(ws: seq<WalkEntry>, name: string)
    ensures name in AlbumNames(ws) <==>
      exists j :: 0 <= j < |ws| && HasImages(ws[j]) && AlbumName(ws[j].relDir) == name
    decreases |ws|
  {
    if ws != [] {
      var n := |ws| - 1;
      var init := ws[..n];
      AlbumNamesMembers(init, name);
      if name in AlbumNames(init) {
        var j :| 0 <= j < |init| && HasImages(init[j]) && AlbumName(init[j].relDir) == name;
        assert ws[j] == init[j];
      } else if !(HasImages(ws[n]) && AlbumName(ws[n].relDir) == name) {
        forall j | 0 <= j < n ensures !(HasImages(ws[j]) && AlbumName(ws[j].relDir) == name) {
          assert ws[j] == init[j];
        }
      }
    }
  }

  lemma {:induction false} CollectAlbumsKeys(cfg: Settings, ws: seq<WalkEntry>)
    ensures CollectAlbums(cfg, ws).Keys == AlbumNames(ws)
    decreases |ws|
  {
    if ws != [] {
      var n := |ws| - 1;
      CollectAlbumsKeys(cfg, ws[..n]);
      forall name ensures name in CollectAlbums(cfg, ws) <==> name in AlbumNames(ws) {
        AddDirectoryFrame(CollectAlbums(cfg, ws[..n]), cfg, ws[n], name);
      }
    }
  }

  /** A loop iteration keeps every album well formed. */
  lemma AddDirectoryWellFormed(g: GalleryData, cfg: Settings, e: WalkEntry)
    requires forall name :: name in g ==> AlbumWellFormed(g[name])
    ensures forall name :: name in AddDirectory(g, cfg, e) ==> AlbumWellFormed(AddDirectory(g, cfg, e)[name])
  {
    var images := ImageFiles(e.filenames);
    if images != [] {
      var name := AlbumName(e.relDir);
      var sorted := SortByLower(images);
      SortByMembers(images, Lower);
      var added := PhotoEntries(cfg.baseUrlPrefix, name, sorted);
      assert added != [];
      var r := AddDirectory(g, cfg, e);
      if name in g {
        assert r[name] == Album(g[name].coverThumbnailUrl, g[name].photos + added);
      } else {
        assert r[name] == Album(added[0].thumbnailUrl, [] + added);
        assert |added[0].thumbnailUrl| > 0 by {
          assert added[0].thumbnailUrl == ThumbnailUrl(cfg.baseUrlPrefix, name, sorted[0]);
        }
      }
      forall other | other in r ensures AlbumWellFormed(r[other]) {
        if other != name {
          AddDirectoryFrame(g, cfg, e, other);
        }
      }
    }
  }

  lemma {:induction false} CollectAlbumsWellFormed(cfg: Settings, ws: seq<WalkEntry>)
    ensures forall name :: name in CollectAlbums(cfg, ws) ==> AlbumWellFormed(CollectAlbums(cfg, ws)[name])
    decreases |ws|
  {
    if ws != [] {
      CollectAlbumsWellFormed(cfg, ws[..|ws| - 1]);
      AddDirectoryWellFormed(CollectAlbums(cfg, ws[..|ws| - 1]), cfg, ws[|ws| - 1]);
    }
  }

  /** The clean-up that drops albums without photos never drops one:
      every album the loop creates already has a photo. */
  lemma DropEmptyAlbumsKeepsAll(cfg: Settings, ws: seq<WalkEntry>)
    ensures ScanGallery(cfg, ws) == CollectAlbums(cfg, ws)
  {
    CollectAlbumsWellFormed(cfg, ws);
  }

  /** The albums are exactly the directories holding at least one image
      file, by album name. */
  lemma ScanGalleryAlbums(cfg: Settings, ws: seq<WalkEntry>, name: string)
    ensures name in ScanGallery(cfg, ws) <==>
      exists j :: 0 <= j < |ws| && HasImages(ws[j]) && AlbumName(ws[j].relDir) == name
  {
    DropEmptyAlbumsKeepsAll(cfg, ws);
    CollectAlbumsKeys(cfg, ws);
    AlbumNamesMembers(ws, name);
  }

  /** No album is empty, and its cover is its first photo's thumbnail URL. */
  lemma ScanGalleryNoEmptyAlbums(cfg: Settings, ws: seq<WalkEntry>)
    ensures forall name :: name in ScanGallery(cfg, ws) ==>
      ScanGallery(cfg, ws)[name].photos != [] &&
      ScanGallery(cfg, ws)[name].coverThumbnailUrl == ScanGallery(cfg, ws)[name].photos[0].thumbnailUrl
  {
    DropEmptyAlbumsKeepsAll(cfg, ws);
    CollectAlbumsWellFormed(cfg, ws);
  }

  lemma {:induction false} CollectAlbumsPhotos(cfg: Settings, ws: seq<WalkEntry>, i: nat)
    requires WellFormedWalk(ws)
    requires i < |ws| && HasImages(ws[i])
    ensures AlbumName(ws[i].relDir) in CollectAlbums(cfg, ws)
    ensures CollectAlbums(cfg, ws)[AlbumName(ws[i].relDir)].photos ==
      PhotoEntries(cfg.baseUrlPrefix, AlbumName(ws[i].relDir), SortByLower(ImageFiles(ws[i].filenames)))
    decreases |ws|
  {
    var n := |ws| - 1;
    var init := ws[..n];
    var name := AlbumName(ws[i].relDir);
    assert WellFormedWalk(init) by {
      forall j | 0 <= j < |init| ensures init[j] == ws[j] { }
    }
    if i == n {
      CollectAlbumsKeys(cfg, init);
      AlbumNamesMembers(init, name);
      forall j | 0 <= j < |init| ensures !(HasImages(init[j]) && AlbumName(init[j].relDir) == name) {
        assert init[j] == ws[j];
        AlbumNamesDiffer(ws[j].relDir, ws[i].relDir);
      }
    } else {
      assert init[i] == ws[i];
      CollectAlbumsPhotos(cfg, init, i);
      AlbumNamesDiffer(ws[i].relDir, ws[n].relDir);
    }
  }

  /** An album's photos are exactly its directory's image files, in
      non-decreasing order of their lower-cased names, with their own
      names kept; each photo's URLs lead to the album's URL segment. */
  lemma ScanGalleryAlbumPhotos(cfg: Settings, ws: seq<WalkEntry>, i: nat)
    requires WellFormedWalk(ws)
    requires i < |ws| && HasImages(ws[i])
    ensures var name := AlbumName(ws[i].relDir);
      && name in ScanGallery(cfg, ws)
      && var photos := ScanGallery(cfg, ws)[name].photos;
      && SortedBy(Filenames(photos), Lower)
      && multiset(Filenames(photos)) == multiset(ImageFiles(ws[i].filenames))
      && (forall k :: 0 <= k < |photos| ==>
            IsImageFile(photos[k].originalFilename)
            && photos[k].originalFilename in ws[i].filenames
            && photos[k].originalUrl == PhotoUrl(cfg.baseUrlPrefix, name, photos[k].originalFilename)
            && photos[k].thumbnailUrl == ThumbnailUrl(cfg.baseUrlPrefix, name, photos[k].originalFilename))
  {
    var name := AlbumName(ws[i].relDir);
    var images := ImageFiles(ws[i].filenames);
    DropEmptyAlbumsKeepsAll(cfg, ws);
    CollectAlbumsPhotos(cfg, ws, i);
    var photos := ScanGallery(cfg, ws)[name].photos;
    assert Filenames(photos) == SortByLower(images);
    SortBySorted(images, Lower);
    SortByPermutes(images, Lower);
    forall k | 0 <= k < |photos|
      ensures IsImageFile(photos[k].originalFilename) && photos[k].originalFilename in ws[i].filenames
    {
      var f := photos[k].originalFilename;
      assert f == SortByLower(images)[k];
      assert f in multiset(images);
      ImageFilesMembers(ws[i].filenames);
    }
  }

  /** The thumbnail path is the photo's path with the photos root replaced
      by the thumbnails root. */
  lemma ThumbnailPathMirrorsSource(cfg: Settings, rel: seq<string>, filename: string)
    ensures ThumbnailPath(cfg, rel, filename) ==
      cfg.thumbnailsRoot + SourcePath(cfg, rel, filename)[|cfg.photosRoot|..]
  {
    assert SourcePath(cfg, rel, filename)[|cfg.photosRoot|..] == rel + [filename];
  }

  /** The URL segment after `/photos/` or `/thumbnails/` is the photo's
      path relative to the root, joined with `/` (for the root album just
      the file name); split at its slashes and resolved under the photos
      or thumbnails root it names the source file or the cached thumbnail. */
  lemma UrlPathResolves(cfg: Settings, rel: seq<string>, filename: string)
    requires ValidRel(rel) && ValidName(filename)
    ensures UrlPath(AlbumName(rel), filename) == Join(rel + [filename])
    ensures cfg.photosRoot + Split(UrlPath(AlbumName(rel), filename)) == SourcePath(cfg, rel, filename)
    ensures cfg.thumbnailsRoot + Split(UrlPath(AlbumName(rel), filename)) == ThumbnailPath(cfg, rel, filename)
  {
    var parts := rel + [filename];
    if rel == [] {
      assert parts == [filename];
    } else {
      JoinSnoc(rel, filename);
    }
    assert forall k :: 0 <= k < |parts| ==> ValidName(parts[k]) by {
      forall k | 0 <= k < |parts| ensures ValidName(parts[k]) {
        if k < |rel| {
          assert parts[k] == rel[k];
        }
      }
    }
    SplitJoin(parts);
    assert cfg.photosRoot + parts == SourcePath(cfg, rel, filename);
    assert cfg.thumbnailsRoot + parts == ThumbnailPath(cfg, rel, filename);
  }

  // ---------------------------------------------------------------------
  // The thumbnail tree

  lemma {:induction false} PhotosDiskEffect(d: Disk, renderable: set<Path>, cfg: Settings, rel: seq<string>, names: seq<string>)
    ensures var e := PhotosDisk(d, renderable, cfg, rel, names);
      && Grows(d, e)
      && e.files <= d.files + (set f | f in names :: ThumbnailPath(cfg, rel, f))
      && (names != [] ==> cfg.thumbnailsRoot + rel in e.dirs)
      && (forall f :: f in names && SourcePath(cfg, rel, f) in renderable ==> Exists(e, ThumbnailPath(cfg, rel, f)))
    decreases |names|
  {
    if names != [] {
      var init := names[..|names| - 1];
      var f := names[|names| - 1];
      var mid := PhotosDisk(d, renderable, cfg, rel, init);
      var e := PhotosDisk(d, renderable, cfg, rel, names);
      PhotosDiskEffect(d, renderable, cfg, rel, init);
      EnsureFrame(mid, renderable, SourcePath(cfg, rel, f), ThumbnailPath(cfg, rel, f));
      assert Parent(ThumbnailPath(cfg, rel, f)) == cfg.thumbnailsRoot + rel;
      assert names == init + [f];
      forall g | g in names && SourcePath(cfg, rel, g) in renderable
        ensures Exists(e, ThumbnailPath(cfg, rel, g))
      {
        if g == f {
          EnsureRenderable(mid, renderable, SourcePath(cfg, rel, f), ThumbnailPath(cfg, rel, f));
        } else {
          assert g in init;
        }
      }
    }
  }

  /** The thumbnails one directory's iteration may write. */
  function DirectoryTargets(cfg: Settings, e: WalkEntry): set<Path>
  {
    set f | f in ImageFiles(e.filenames) :: ThumbnailPath(cfg, e.relDir, f)
  }

  /** The thumbnails the scan may write: one per image file of each directory. */
  function ThumbnailTargets(cfg: Settings, ws: seq<WalkEntry>): set<Path>
    decreases |ws|
  {
    if ws == [] then {} else ThumbnailTargets(cfg, ws[..|ws| - 1]) + DirectoryTargets(cfg, ws[|ws| - 1])
  }

  /** After this disk state, the directory's thumbnail directory exists
      and each of its images whose source can be rendered has a thumbnail. */
  predicate ThumbnailsMade(r: Disk, renderable: set<Path>, cfg: Settings, e: WalkEntry)
  {
    && (HasImages(e) ==> cfg.thumbnailsRoot + e.relDir in r.dirs)
    && (forall f :: f in ImageFiles(e.filenames) && SourcePath(cfg, e.relDir, f) in renderable ==>
          Exists(r, ThumbnailPath(cfg, e.relDir, f)))
  }

  lemma ThumbnailsMadeKept(a: Disk, b: Disk, renderable: set<Path>, cfg: Settings, e: WalkEntry)
    requires ThumbnailsMade(a, renderable, cfg, e) && Grows(a, b)
    ensures ThumbnailsMade(b, renderable, cfg, e)
  {
  }

  lemma ThumbnailsMadeAppend(a: Disk, b: Disk, renderable: set<Path>, cfg: Settings,
                             init: seq<WalkEntry>, last: WalkEntry)
    requires forall k :: 0 <= k < |init| ==> ThumbnailsMade(a, renderable, cfg, init[k])
    requires Grows(a, b) && ThumbnailsMade(b, renderable, cfg, last)
    ensures forall k :: 0 <= k < |init + [last]| ==> ThumbnailsMade(b, renderable, cfg, (init + [last])[k])
  {
    forall k | 0 <= k < |init + [last]| ensures ThumbnailsMade(b, renderable, cfg, (init + [last])[k]) {
      if k < |init| {
        ThumbnailsMadeKept(a, b, renderable, cfg, init[k]);
      }
    }
  }

  /** What one directory's iteration does to the filesystem. */
  lemma DirectoryDiskEffect(d: Disk, renderable: set<Path>, cfg: Settings, e: WalkEntry)
    ensures var r := DirectoryDisk(d, renderable, cfg, e);
      && Grows(d, r)
      && r.files <= d.files + DirectoryTargets(cfg, e)
      && ThumbnailsMade(r, renderable, cfg, e)
  {
    var images := ImageFiles(e.filenames);
    if images != [] {
      var sorted := SortByLower(images);
      var made := MakeDirs(d, cfg.thumbnailsRoot + e.relDir);
      SortByMembers(images, Lower);
      PhotosDiskEffect(made, renderable, cfg, e.relDir, sorted);
      assert (set f | f in sorted :: ThumbnailPath(cfg, e.relDir, f)) == DirectoryTargets(cfg, e);
    }
  }

  lemma {:induction false} WalkDiskEffect(d: Disk, renderable: set<Path>, cfg: Settings, ws: seq<WalkEntry>)
    ensures var r := WalkDisk(d, renderable, cfg, ws);
      && Grows(d, r)
      && r.files <= d.files + ThumbnailTargets(cfg, ws)
      && (forall k :: 0 <= k < |ws| ==> ThumbnailsMade(r, renderable, cfg, ws[k]))
    decreases |ws|
  {
    if ws != [] {
      var n := |ws| - 1;
      var init := ws[..n];
      assert ws == init + [ws[n]];
      var mid := WalkDisk(d, renderable, cfg, init);
      var r := WalkDisk(d, renderable, cfg, ws);
      WalkDiskEffect(d, renderable, cfg, init);
      DirectoryDiskEffect(mid, renderable, cfg, ws[n]);
      ThumbnailsMadeAppend(mid, r, renderable, cfg, init, ws[n]);
    }
  }

  /** After a scan the thumbnails root and every album's thumbnail
      directory exist, every photo whose source can be rendered has its
      thumbnail, nothing was removed, and the only files written are
      thumbnails of listed photos. */
  lemma ScanDiskEffect(d: Disk, renderable: set<Path>, cfg: Settings, ws: seq<WalkEntry>)
    ensures var r := ScanDisk(d, renderable, cfg, ws);
      && Grows(d, r)
      && cfg.thumbnailsRoot in r.dirs
      && r.files <= d.files + ThumbnailTargets(cfg, ws)
      && (forall k :: 0 <= k < |ws| ==> ThumbnailsMade(r, renderable, cfg, ws[k]))
  {
    var made := MakeDirs(d, cfg.thumbnailsRoot);
    WalkDiskEffect(made, renderable, cfg, ws);
  }
}
