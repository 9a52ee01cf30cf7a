# pygallery indexer — a Dafny model

pygallery is a small Flask photo gallery. At start-up it walks a photos
directory and visits every directory in it. Each directory that holds at
least one image file becomes an album, named by its path relative to the
photos root, with `.` for the root itself. For each image a thumbnail is
made, once: it is written under a mirrored directory tree below the
thumbnails root, and a thumbnail that already exists is never made again.
Each photo gets an original URL and a thumbnail URL under the configured
base URL prefix. Two JSON endpoints serve the result: the sorted list of
album summaries, and the photos of one album.

The model covers that core of `app.py`, in these modules:

- `Strings`: ASCII lower-casing, `endswith`, and Python's ordering of
  strings by code point (`LexLe`), proved to be a total order.
- `Paths`: paths as sequences of components, `mkdir(parents=True)`, and
  album names. A path is joined with `/` into an album name, and is read
  back by splitting.
- `Sorting`: `list.sort(key=...)` as an insertion sort, proved ordered and
  a permutation of its input.
- `Images`: `is_image_file` and the filter over one directory listing.
- `Configuration`: the normalisation of `BASE_URL_PREFIX`.
- `Thumbnails`: the filesystem, as a class whose fields are the files, the
  directories and the log of rendering attempts. Its method
  `GetOrCreateThumbnail` is proved against the function `Ensure` on disk
  values, and the cache lemmas are proved about `Ensure`.
- `Gallery`: the scan. The walk is given as a list of
  (relative directory, file names) entries. The method `Scan` and its two
  loops are proved against two folds:
  - `CollectAlbums`/`ScanGallery`, for the album map;
  - `WalkDisk`/`ScanDisk`, for the filesystem.

  The lemmas state which albums exist, their photos, order, URLs and
  covers, and which thumbnails exist afterwards.
- `Api`: `api_albums`, as a method with a loop followed by the sort, and
  `api_album_photos`, as a function.

Behaviour of the code that the model keeps:
- Every directory holding an image file is an album, and the photos root
  itself is the album `.`.
- A photo whose thumbnail could not be made is still listed:
  `ScanGallery` does not depend on the filesystem at all.
- An album name only ever reaches a dictionary lookup (app.py:211). The
  file routes `serve_photo` and `serve_thumbnail` join the whole requested
  path onto the photos or thumbnails root without a guard against `..`
  (app.py:221-224, app.py:237-240); those routes are not part of this
  model.
- The clean-up of empty albums (app.py:162) never removes anything
  (`DropEmptyAlbumsKeepsAll`).
- The placeholder cover (app.py:157-159) is never used: `album_photos` is
  never empty at that point, and every cover is the thumbnail URL of the
  album's first photo (`CollectAlbumsWellFormed`).

## Model

| member | source | states |
|---|---|---|
| Strings.LexLeTotal | app.py:130 | any two sort keys are comparable, so the order `sort` uses is total |
| Strings.LexLeTransitive | app.py:130 | the string order used by `sort` is transitive |
| Strings.LexLeAntisymmetric | app.py:130 | two keys each at most the other are equal |
| Strings.LowerIdempotent | app.py:68 | lower-casing a lower-cased name changes nothing |
| Sorting.SortBySorted | app.py:130 | the sorted list is ordered by key |
| Sorting.SortByPermutes | app.py:130 | the sorted list is a permutation of its input |
| Sorting.SortByMembers | app.py:130 | sorting keeps the length and exactly the same elements |
| Images.EndsWithAnyExists | app.py:68 | `endswith` with a tuple holds exactly when one of the suffixes ends the name |
| Images.IsImageFileIff | app.py:64-68 | a file is an image exactly when its lower-cased name ends with one of the seven extensions; the test ignores case |
| Images.UpperCaseExtensionIsImage | app.py:66-68 | `IMG_0001.JPG` is an image file |
| Images.InnerExtensionIsNotImage | app.py:66-68 | `photo.jpg.bak` is not an image file |
| Images.ImageFilesCount | app.py:113 | the filter keeps each image file name as often as it is listed, and drops every other name |
| Images.ImageFilesMembers | app.py:113 | a name survives the filter exactly when it is listed and is an image |
| Configuration.NormalizeBaseUrlPrefixShape | app.py:37-41 | the prefix is empty exactly when the setting is only slashes; otherwise it is one slash followed by the setting with its surrounding slashes removed, and it never ends with a slash and never starts with two |
| Configuration.NormalizeBaseUrlPrefixIdempotent | app.py:37-41 | normalising a normalised prefix changes nothing |
| Configuration.DefaultBaseUrlPrefixNormalized | app.py:37-39 | without a setting the prefix is `/gallery` |
| Paths.JoinSnoc | app.py:110 | joining a path with one more component appends `/` and that component |
| Paths.SplitJoin | app.py:110 | splitting a joined path at its slashes gives back its components |
| Paths.AlbumNamesDiffer | app.py:109-110 | distinct directories have distinct album names, and only the root is `.` |
| Paths.NotRootName | app.py:110 | no directory below the root is named `.` |
| Paths.AncestorsComplete | app.py:75 | `mkdir(parents=True)` creates every directory on the way to the path, from the root down to the path itself |
| Thumbnails.EnsureFrame | app.py:70-87 | afterwards the thumbnail's directory and all above it exist, nothing is removed, at most one rendering is attempted and no file other than the thumbnail is written |
| Thumbnails.EnsureHit | app.py:75-78 | when something already exists at the thumbnail path, only the directories are created: no rendering, no write |
| Thumbnails.EnsureMiss | app.py:77-87 | otherwise rendering is attempted once, and the thumbnail exists afterwards exactly when the source could be rendered; a failure is swallowed |
| Thumbnails.EnsureIdempotent | app.py:77-78 | once the thumbnail exists, a second call changes nothing |
| Thumbnails.EnsureRenderable | app.py:77-84 | a renderable source always ends up with its thumbnail, and a repeated call then changes nothing |
| Thumbnails.FileSystem.MakeDirectories | app.py:75 | `mkdir(parents=True, exist_ok=True)` adds the directory and all above it, as `Ancestors` and `AncestorsComplete` state |
| Thumbnails.FileSystem.GetOrCreateThumbnail | app.py:70-87 | the new filesystem is `Ensure` of the old; the parent directory exists; on a cache hit files and attempts are unchanged |
| Gallery.Scan | app.py:89-165 | the returned map is `ScanGallery` of the walk, and the filesystem afterwards is `ScanDisk` of the one before |
| Gallery.ScanDirectory | app.py:106-159 | one walk iteration updates the map as `AddDirectory` and the filesystem as `DirectoryDisk` |
| Gallery.MakeThumbnails | app.py:132-150 | the inner loop builds `PhotoEntries` of the sorted names and calls the thumbnail cache once per name, in order |
| Gallery.PhotoEntriesSnoc | app.py:146-150 | appending one photo's entry extends the album's photo list by exactly that entry |
| Gallery.AddDirectoryFrame | app.py:115-159 | an iteration adds the directory's album if it has images and leaves every other album unchanged |
| Gallery.AlbumNamesMembers | app.py:109-115 | a name is collected exactly when some directory with images has that album name |
| Gallery.CollectAlbumsKeys | app.py:106-159 | the loop's map has exactly the album names of the directories with images as keys |
| Gallery.AddDirectoryWellFormed | app.py:119-159 | an iteration keeps every album non-empty, with its first photo's thumbnail as its cover |
| Gallery.CollectAlbumsWellFormed | app.py:106-159 | after the loop every album is non-empty and its cover is its first photo's thumbnail |
| Gallery.DropEmptyAlbumsKeepsAll | app.py:161-162 | the clean-up of empty albums keeps every album |
| Gallery.ScanGalleryAlbums | app.py:106-165 | the albums are exactly the directories holding at least one image file, by album name |
| Gallery.ScanGalleryNoEmptyAlbums | app.py:154-162 | no album is empty, and each cover is the first photo's thumbnail URL |
| Gallery.CollectAlbumsPhotos | app.py:119-152 | for a walk of distinct directories, a directory's album holds the entries of its image files in sorted order |
| Gallery.ScanGalleryAlbumPhotos | app.py:113-152 | an album's photos are its directory's image files, each listed as often as in the directory and nothing else, ordered by lower-cased name, with each photo's URLs built from the album name and file name |
| Gallery.ThumbnailPathMirrorsSource | app.py:126-134 | a thumbnail's path is the source's path with the photos root replaced by the thumbnails root |
| Gallery.UrlPathResolves | app.py:109-110 | the URL segment is the relative path joined with `/`, without an album segment for the root; split again, it names the source under the photos root and the thumbnail under the thumbnails root |
| Gallery.PhotosDiskEffect | app.py:132-136 | after the inner loop nothing is removed, only the listed thumbnails are written, the album's thumbnail directory exists, and every renderable listed photo has its thumbnail |
| Gallery.ThumbnailsMadeKept | app.py:75-78 | a thumbnail once made stays made as the scan goes on |
| Gallery.DirectoryDiskEffect | app.py:113-136 | one iteration removes nothing, writes only its directory's thumbnails, and leaves its thumbnail directory and the thumbnails of its renderable images in place |
| Gallery.WalkDiskEffect | app.py:106-136 | the walk loop removes nothing, writes only thumbnails of listed images, and leaves every album's thumbnail directory and every renderable image's thumbnail in place |
| Gallery.ScanDiskEffect | app.py:103-136 | after the scan the thumbnails root exists too, along with everything `WalkDiskEffect` states |
| Api.DisplayNameRoot | app.py:197 | the label "Root Gallery" is shown exactly for `.` and for an album of that very name; every other album is shown under its own name |
| Api.RootDisplayNameShared | app.py:197 | a directory named "Root Gallery" is a different album from the root but is shown under the same label |
| Api.ApiAlbums | app.py:192-206 | one summary per album, no more and no fewer: each gives the album's name, its display name, its cover and its photo count, and the list is ordered by lower-cased display name |
| Api.SortedSummaries | app.py:205 | sorting the collected summaries keeps exactly one summary per album and orders them by key |
| Api.PermutedDistinctNames | app.py:205 | reordering summaries of distinct albums keeps the album names distinct |
| Api.ApiAlbumPhotos | app.py:209-214 | the photos of a known album, or "album not found" exactly when the name is not an album |
| Api.ScannedAlbumFound | app.py:209-214 | after a scan a name is found exactly when it is the album name of a directory holding an image file, and the answer is then never empty |
| Api.ScannedAlbumPhotos | app.py:209-214 | for a directory holding images, the endpoint answers with the entries of its image files in sorted order |
| Api.ScannedAlbumSummary | app.py:196-203 | an album's summary counts its directory's image files, and its cover is the thumbnail URL of the first of them in sorted order |
| Images.IsImageFile | app.py:66-68 | defined as the lower-cased name ending with one of `ImageExtensions`; characterised by `IsImageFileIff` |
| Images.ImageFiles | app.py:113 | defined as the filter of the listing by `IsImageFile`; characterised by `ImageFilesCount` and `ImageFilesMembers` |
| Configuration.NormalizeBaseUrlPrefix | app.py:37-41 | defined as `strip('/')` followed by one leading slash unless empty; characterised by `NormalizeBaseUrlPrefixShape` and `NormalizeBaseUrlPrefixIdempotent` |
| Sorting.SortBy | app.py:130 | defined as an insertion sort by key; characterised by `SortBySorted`, `SortByPermutes` and `SortByMembers` |
| Paths.AlbumName | app.py:109-110 | defined as the relative path joined with `/`, or `.` for the root; characterised by `AlbumNamesDiffer`, `NotRootName` and `SplitJoin` |
| Thumbnails.Ensure | app.py:70-87 | defined as mkdir of the parent, then nothing if the path exists, else one attempt that writes the path when the source renders; characterised by `EnsureFrame`, `EnsureHit`, `EnsureMiss`, `EnsureIdempotent` and `EnsureRenderable` |
| Gallery.AddDirectory | app.py:113-159 | defined as one walk iteration on the album map; characterised by `AddDirectoryFrame` and `AddDirectoryWellFormed` |
| Gallery.MergePhotos | app.py:152-159 | defined as the extension of the album's photos and the choice of its cover; characterised by `AddDirectoryWellFormed` |
| Gallery.DropEmptyAlbums | app.py:162 | defined as the albums with at least one photo; characterised by `DropEmptyAlbumsKeepsAll` |
| Gallery.PhotoEntries | app.py:132-150 | defined as one entry per sorted name; characterised by `PhotoEntriesSnoc` and `ScanGalleryAlbumPhotos` |
| Gallery.UrlPath | app.py:140-141 | defined as the album name, `/` and the file name, or the file name alone for `.`; characterised by `UrlPathResolves` |
| Gallery.PhotoUrl | app.py:140-143 | defined as the prefix, `/photos/` and `UrlPath`; characterised by `UrlPathResolves` and `ScanGalleryAlbumPhotos` |
| Gallery.ThumbnailUrl | app.py:141-144 | defined as the prefix, `/thumbnails/` and `UrlPath`; characterised by `UrlPathResolves` and `ScanGalleryAlbumPhotos` |
| Api.DisplayName | app.py:197 | defined as "Root Gallery" for `.` and the name itself otherwise; characterised by `DisplayNameRoot` and `RootDisplayNameShared` |
| Api.Summarize | app.py:197-203 | defined as the summary record of one album; characterised by `ApiAlbums` and `ScannedAlbumSummary` |

## Left out

- Directory traversal (`os.walk`): the visited directories and their file
  listings are an input. Their order is arbitrary, and they are assumed
  distinct with well-formed names (`WellFormedWalk`).
- Decoding, resizing and saving images (PIL): this is one opaque step that
  either writes the thumbnail or fails. Which sources it succeeds on is the
  filesystem's `renderable` set. The thumbnail size has no effect in the
  model, and a partially written file on failure is not modelled.
- `mkdir` failing because a regular file occupies a directory's path is
  not modelled: directory creation always succeeds.
- Strings.Lower: lower-cases ASCII letters only. Python's `str.lower`
  covers all of Unicode.
- Sorting.SortBy: the result is proved ordered and a permutation. That it
  is stable, keeping the input order of equal keys, is not stated.
- Api.ApiAlbums: the model does not fix which of two albums whose display
  names lower-case alike comes first. Python's stable sort keeps the
  dictionary's insertion order there, and the model's map is unordered.
- The Flask routes that render pages or serve files (`index`,
  `album_page`, `serve_photo`, `serve_thumbnail`), the static files served
  through the blueprint registration (app.py:253), JSON encoding and HTTP
  status codes.
- Reading `config.ini`, the other settings (`PHOTOS_DIR`,
  `THUMBNAILS_DIR`, `THUMBNAIL_SIZE`, `PORT`) and their parse errors. The
  roots are parameters of type `Settings`.
- The global `gallery_data` and the start-up sequence: the endpoints take
  the album map as a parameter.
- Console logging. The "Generating thumbnail" message is kept as the
  filesystem's attempt log.
- `generate_dummy_images.py`, a test-data generator, is not part of this
  model.
- Paths on Windows. The model joins path components with `/`, which is
  what `str(relative_path).replace(os.sep, '/')` yields on every platform.
