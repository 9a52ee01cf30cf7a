/** Recognising image files by their extension (app.py, `is_image_file`)
    and picking the image files out of a directory listing. */
module Images {
  import opened Strings

  /** The recognised extensions, in lower case. */
  const ImageExtensions: seq<string> := [".png", ".jpg", ".jpeg", ".gif", ".bmp", ".tiff", ".webp"]

  /** `s.endswith(suffixes)` for a tuple of suffixes. */
  predicate EndsWithAny(s: string, suffixes: seq<string>)
    decreases |suffixes|
  {
    suffixes != [] && (EndsWith(s, suffixes[0]) || EndsWithAny(s, suffixes[1..]))
  }

  /** `filename.lower().endswith(IMAGE_EXTENSIONS)`. */
  predicate IsImageFile(filename: string)
  {
    EndsWithAny(Lower(filename), ImageExtensions)
  }

  lemma {:induction false} EndsWithAnyExists(s: string, suffixes: seq<string>)
    ensures EndsWithAny(s, suffixes) <==> exists k :: 0 <= k < |suffixes| && EndsWith(s, suffixes[k])
    decreases |suffixes|
  {
    if suffixes != [] {
      EndsWithAnyExists(s, suffixes[1..]);
      if EndsWithAny(s, suffixes[1..]) {
        var k :| 0 <= k < |suffixes[1..]| && EndsWith(s, suffixes[1..][k]);
        assert EndsWith(s, suffixes[k + 1]);
      }
      if exists k :: 0 <= k < |suffixes| && EndsWith(s, suffixes[k]) {
        var k :| 0 <= k < |suffixes| && EndsWith(s, suffixes[k]);
        if k > 0 {
          assert EndsWith(s, suffixes[1..][k - 1]);
        }
      }
    }
  }

  /** A file is an image exactly when its lower-cased name ends with one
      of the extensions; so the test ignores the case of the name. */
  lemma IsImageFileIff(filename: string)
    ensures IsImageFile(filename) <==>
      exists k :: 0 <= k < |ImageExtensions| && EndsWith(Lower(filename), ImageExtensions[k])
    ensures IsImageFile(Lower(filename)) == IsImageFile(filename)
  {
    EndsWithAnyExists(Lower(filename), ImageExtensions);
    LowerIdempotent(filename);
  }

  /** An upper-case extension is recognised. */
  lemma UpperCaseExtensionIsImage()
    ensures IsImageFile("IMG_0001.JPG")
  {
    assert Lower("IMG_0001.JPG") == "img_0001.jpg";
    assert EndsWith("img_0001.jpg", ImageExtensions[1]);
    IsImageFileIff("IMG_0001.JPG");
  }

  /** A name that only contains an extension before its own is not. */
  lemma InnerExtensionIsNotImage()
    ensures !IsImageFile("photo.jpg.bak")
  {
    var l := Lower("photo.jpg.bak");
    assert l == "photo.jpg.bak";
    assert l[|l| - 4..] == ".bak";
    assert l[|l| - 5..] == "g.bak";
    IsImageFileIff("photo.jpg.bak");
  }

  /** `[f for f in filenames if is_image_file(f)]`. */
  function ImageFiles(filenames: seq<string>): seq<string>
    decreases |filenames|
  {
    if filenames == [] then []
    else
      var rest := ImageFiles(filenames[..|filenames| - 1]);
      var last := filenames[|filenames| - 1];
      if IsImageFile(last) then rest + [last] else rest
  }

  /** The filter keeps every image file, as often as it is listed, and
      nothing else. */
  lemma {:induction false} ImageFilesCount(filenames: seq<string>, x: string)
    ensures multiset(ImageFiles(filenames))[x] == if IsImageFile(x) then multiset(filenames)[x] else 0
    decreases |filenames|
  {
    if filenames != [] {
      var init := filenames[..|filenames| - 1];
      ImageFilesCount(init, x);
      assert filenames == init + [filenames[|filenames| - 1]];
    }
  }

  lemma ImageFilesMembers(filenames: seq<string>)
    ensures forall x :: x in ImageFiles(filenames) <==> x in filenames && IsImageFile(x)
  {
    forall x ensures x in ImageFiles(filenames) <==> x in filenames && IsImageFile(x) {
      ImageFilesCount(filenames, x);
      assert x in ImageFiles(filenames) <==> x in multiset(ImageFiles(filenames));
      assert x in filenames <==> x in multiset(filenames);
    }
  }
}
