/** The two JSON endpoints over the album map (app.py, `api_albums` and
    `api_album_photos`). The JSON encoding and the HTTP layer are not part
    of this model: an endpoint's result is the value it would serialise. */
module Api {
  import opened Strings
  import opened Sorting
  import opened Paths
  import opened Images
  import opened Gallery

  /** What the UI shows for the album of the photos root itself. */
  const RootDisplayName: string := "Root Gallery"

  /** `{"name", "display_name", "cover_thumbnail_url", "photo_count"}`. */
  datatype AlbumSummary = AlbumSummary(name: string, displayName: string, coverThumbnailUrl: string, photoCount: nat)

  /** The root album `.` is shown as "Root Gallery"; every other album
      under its own name. */
  function DisplayName(name: string): string
  {
    if name != "." then name else RootDisplayName
  }

  /** The label "Root Gallery" is shown for the root album and for a
      directory of that name directly under the root, and for no other
      album; every other label is the album's own name. */
  lemma DisplayNameRoot(name: string)
    ensures DisplayName(name) == RootDisplayName <==> name == "." || name == RootDisplayName
    ensures name != "." ==> DisplayName(name) == name
  {
  }

  /** So a directory named "Root Gallery" and the root are shown alike,
      though they are distinct albums. */
  lemma RootDisplayNameShared()
    ensures AlbumName(["Root Gallery"]) != AlbumName([])
    ensures DisplayName(AlbumName(["Root Gallery"])) == DisplayName(AlbumName([]))
  {
  }

  function Summarize(name: string, album: Album): AlbumSummary
  {
    AlbumSummary(name, DisplayName(name), album.coverThumbnailUrl, |album.photos|)
  }

  /** The sort key `x['display_name'].lower()`. */
  function DisplayKey(s: AlbumSummary): string
  {
    Lower(s.displayName)
  }

  /** Each summary describes the album of its name in `g`. */
  predicate Describes(g: GalleryData, s: AlbumSummary)
  {
    s.name in g && s == Summarize(s.name, g[s.name])
  }

  predicate DistinctNames(list: seq<AlbumSummary>)
  {
    forall i, j :: 0 <= i < j < |list| ==> list[i].name != list[j].name
  }

  function Names(list: seq<AlbumSummary>): set<string>
  {
    set k | 0 <= k < |list| :: list[k].name
  }

  lemma DistinctNamesSnoc(list: seq<AlbumSummary>, s: AlbumSummary)
    requires DistinctNames(list) && s.name !in Names(list)
    ensures DistinctNames(list + [s])
  {
    var l := list + [s];
    forall i, j | 0 <= i < j < |l| ensures l[i].name != l[j].name {
      if j == |list| {
        assert l[i] == list[i];
        assert list[i].name in Names(list);
      }
    }
  }

  lemma DistinctNamesCard(list: seq<AlbumSummary>)
    requires DistinctNames(list)
    ensures |Names(list)| == |list|
    decreases |list|
  {
    if list != [] {
      var n := |list| - 1;
      var init := list[..n];
      assert DistinctNames(init) by {
        forall i, j | 0 <= i < j < |init| ensures init[i].name != init[j].name {
          assert init[i] == list[i] && init[j] == list[j];
        }
      }
      DistinctNamesCard(init);
      assert Names(list) == Names(init) + {list[n].name} by {
        forall x | x in Names(list) ensures x in Names(init) + {list[n].name} {
          var k :| 0 <= k < |list| && list[k].name == x;
          if k < n {
            assert init[k] == list[k];
          }
        }
        forall x | x in Names(init) ensures x in Names(list) {
          var k :| 0 <= k < |init| && init[k].name == x;
          assert list[k] == init[k];
        }
      }
      assert list[n].name !in Names(init) by {
        forall k | 0 <= k < |init| ensures init[k].name != list[n].name {
          assert init[k] == list[k];
        }
      }
    }
  }

  /** A list with distinct names holds each summary at most once. */
  lemma {:induction false} DistinctNamesCount(list: seq<AlbumSummary>, x: AlbumSummary)
    requires DistinctNames(list)
    ensures multiset(list)[x] <= 1
    decreases |list|
  {
    if list != [] {
      var rest := list[1..];
      assert list == [list[0]] + rest;
      assert DistinctNames(rest) by {
        forall i, j | 0 <= i < j < |rest| ensures rest[i].name != rest[j].name {
          assert rest[i] == list[i + 1] && rest[j] == list[j + 1];
        }
      }
      DistinctNamesCount(rest, x);
      if x == list[0] {
        assert x !in rest by {
          forall k | 0 <= k < |rest| ensures rest[k] != x {
            assert rest[k] == list[k + 1];
          }
        }
        assert multiset(rest)[x] == 0;
      }
    }
  }

  /** A summary listed twice counts twice. */
  lemma RepeatedCount(list: seq<AlbumSummary>, i: nat, j: nat)
    requires i < j < |list| && list[i] == list[j]
    ensures multiset(list)[list[i]] >= 2
  {
    var x := list[i];
    assert list == list[..j] + list[j..];
    assert list[..j][i] == x;
    assert list[j..][0] == x;
    assert x in multiset(list[..j]);
    assert x in multiset(list[j..]);
  }

  /** Reordering a list of summaries of distinct albums keeps the names distinct. */
  lemma PermutedDistinctNames(g: GalleryData, list: seq<AlbumSummary>, r: seq<AlbumSummary>)
    requires DistinctNames(list) && multiset(r) == multiset(list)
    requires forall k :: 0 <= k < |r| ==> Describes(g, r[k])
    ensures DistinctNames(r)
  {
    forall i, j | 0 <= i < j < |r| ensures r[i].name != r[j].name {
      if r[i].name == r[j].name {
        assert r[i] == r[j];
        RepeatedCount(r, i, j);
        DistinctNamesCount(list, r[i]);
        assert false;
      }
    }
  }

  /** `api_albums()`: one summary per album, ordered by lower-cased
      display name. */
  method ApiAlbums(g: GalleryData) returns (r: seq<AlbumSummary>)
    ensures |r| == |g|
    ensures SortedBy(r, DisplayKey)
    ensures forall k :: 0 <= k < |r| ==> Describes(g, r[k])
    ensures DistinctNames(r)
    ensures forall name :: name in g ==> exists k :: 0 <= k < |r| && r[k].name == name
  {
    var list: seq<AlbumSummary> := [];
    var remaining := g.Keys;
    while remaining != {}
      invariant remaining <= g.Keys
      invariant forall k :: 0 <= k < |list| ==> Describes(g, list[k])
      invariant DistinctNames(list)
      invariant Names(list) == g.Keys - remaining
      decreases remaining
    {
      var albumName :| albumName in remaining;
      var s := AlbumSummary(albumName, DisplayName(albumName), g[albumName].coverThumbnailUrl, |g[albumName].photos|);
      DistinctNamesSnoc(list, s);
      NamesSnoc(list, s);
      list := list + [s];
      remaining := remaining - {albumName};
    }
    r := SortBy(list, DisplayKey);
    SortedSummaries(g, list);
  }

  lemma NamesSnoc(list: seq<AlbumSummary>, s: AlbumSummary)
    ensures Names(list + [s]) == Names(list) + {s.name}
  {
    var l := list + [s];
    assert l[|list|] == s;
    forall x | x in Names(l) ensures x in Names(list) + {s.name} {
      var k :| 0 <= k < |l| && l[k].name == x;
      if k < |list| {
        assert l[k] == list[k];
      }
    }
    forall x | x in Names(list) ensures x in Names(l) {
      var k :| 0 <= k < |list| && list[k].name == x;
      assert l[k] == list[k];
    }
  }

  /** Sorting the collected summaries keeps one summary per album. */
  lemma SortedSummaries(g: GalleryData, list: seq<AlbumSummary>)
    requires forall k :: 0 <= k < |list| ==> Describes(g, list[k])
    requires DistinctNames(list) && Names(list) == g.Keys
    ensures var r := SortBy(list, DisplayKey);
      && |r| == |g|
      && SortedBy(r, DisplayKey)
      && (forall k :: 0 <= k < |r| ==> Describes(g, r[k]))
      && DistinctNames(r)
      && (forall name :: name in g ==> exists k :: 0 <= k < |r| && r[k].name == name)
  {
    var r := SortBy(list, DisplayKey);
    DistinctNamesCard(list);
    SortBySorted(list, DisplayKey);
    SortByPermutes(list, DisplayKey);
    SortByMembers(list, DisplayKey);
    forall k | 0 <= k < |r| ensures Describes(g, r[k]) {
      assert r[k] in list;
    }
    PermutedDistinctNames(g, list, r);
    forall name | name in g ensures exists k :: 0 <= k < |r| && r[k].name == name {
      assert name in Names(list);
      var j :| 0 <= j < |list| && list[j].name == name;
      assert list[j] in r;
    }
  }

  /** The answer of `api_album_photos`: the album's photos, or the 404
      "Album not found". */
  datatype PhotosResponse = Photos(photos: seq<Photo>) | AlbumNotFound

  /** `api_album_photos(album_name)`. Every album is a non-empty dict, so
      the lookup succeeds exactly when the name is a key. */
  function ApiAlbumPhotos(g: GalleryData, albumName: string): (r: PhotosResponse)
    ensures r.Photos? <==> albumName in g
    ensures r.Photos? ==> r.photos == g[albumName].photos
  {
    if albumName in g then Photos(g[albumName].photos) else AlbumNotFound
  }

  /** After a scan, the photos of a name are found exactly when the name
      is the album name of a directory holding an image file; the answer
      is then never empty. */
  lemma ScannedAlbumFound(cfg: Settings, ws: seq<WalkEntry>, albumName: string)
    ensures var r := ApiAlbumPhotos(ScanGallery(cfg, ws), albumName);
      && (r.Photos? <==> exists j :: 0 <= j < |ws| && HasImages(ws[j]) && AlbumName(ws[j].relDir) == albumName)
      && (r.Photos? ==> r.photos != [])
  {
    ScanGalleryAlbums(cfg, ws, albumName);
    ScanGalleryNoEmptyAlbums(cfg, ws);
  }

  /** For a directory holding images, the endpoint answers with the
      directory's image files in sorted order, under their URLs. */
  lemma ScannedAlbumPhotos(cfg: Settings, ws: seq<WalkEntry>, i: nat)
    requires WellFormedWalk(ws)
    requires i < |ws| && HasImages(ws[i])
    ensures var name := AlbumName(ws[i].relDir);
      ApiAlbumPhotos(ScanGallery(cfg, ws), name) ==
        Photos(PhotoEntries(cfg.baseUrlPrefix, name, SortByLower(ImageFiles(ws[i].filenames))))
  {
    DropEmptyAlbumsKeepsAll(cfg, ws);
    CollectAlbumsPhotos(cfg, ws, i);
  }

  /** After a scan, `api_albums` lists one summary per directory holding
      an image file, with the number of its image files as the count. */
  lemma ScannedAlbumSummary(cfg: Settings, ws: seq<WalkEntry>, i: nat)
    requires WellFormedWalk(ws)
    requires i < |ws| && HasImages(ws[i])
    ensures var g := ScanGallery(cfg, ws);
      var name := AlbumName(ws[i].relDir);
      && name in g
      && Summarize(name, g[name]).photoCount == |ImageFiles(ws[i].filenames)|
      && Summarize(name, g[name]).coverThumbnailUrl ==
           ThumbnailUrl(cfg.baseUrlPrefix, name, SortByLower(ImageFiles(ws[i].filenames))[0])
  {
    var images := ImageFiles(ws[i].filenames);
    DropEmptyAlbumsKeepsAll(cfg, ws);
    CollectAlbumsPhotos(cfg, ws, i);
    ScanGalleryNoEmptyAlbums(cfg, ws);
    SortByMembers(images, Lower);
  }
}
