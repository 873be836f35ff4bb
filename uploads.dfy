/**
 * The screenshot upload (`POST /api/uploads`, src/server/src/index.js): the
 * file filter admits image MIME types only, the stored name is
 * `shot-<ms><ext>` with `ext` Node's `path.extname` of the original name
 * (or of `".png"` when the name is empty), and the reply carries the URL
 * `/uploads/<stored name>`. The clock is a parameter.
 */
module Uploads {
  import opened Wrappers
  import opened Text
  import opened Sequences
  import opened References

  // -------------------------------------------------------- path.extname

  /** The path without its trailing slashes. */
  function StripTrailingSlashes(p: string): (r: string)
    ensures |r| <= |p| && r == p[..|r|]
    ensures r == [] || r[|r| - 1] != '/'
    ensures forall i :: |r| <= i < |p| ==> p[i] == '/'
  {
    if p != [] && p[|p| - 1] == '/' then StripTrailingSlashes(p[..|p| - 1]) else p
  }

  /** Where the component that ends at `e` starts: just after the last slash before `e`, or at 0. */
  function ComponentStart(p: string, e: nat): (k: nat)
    requires e <= |p|
    ensures k <= e
    ensures forall i :: k <= i < e ==> p[i] != '/'
    ensures k == 0 || p[k - 1] == '/'
    decreases e
  {
    if e > 0 && p[e - 1] != '/' then ComponentStart(p, e - 1) else e
  }

  /** The last path component: what follows the last slash. */
  function LastComponent(p: string): (r: string)
    ensures |r| <= |p|
    ensures '/' !in r
    ensures |r| < |p| ==> p[|p| - |r| - 1] == '/'
  {
    var k := ComponentStart(p, |p|);
    var r := p[k..];
    assert forall i :: 0 <= i < |r| ==> r[i] == p[k + i];
    r
  }

  /** The last component is the text at the end of the path. */
  lemma LastComponentIsSuffix(p: string)
    ensures forall i :: 0 <= i < |LastComponent(p)| ==> LastComponent(p)[i] == p[|p| - |LastComponent(p)| + i]
  {
    var k := ComponentStart(p, |p|);
    assert LastComponent(p) == p[k..];
  }

  /** The index of the last dot in `b`. */
  function LastDot(b: string): (d: nat)
    requires '.' in b
    ensures d < |b| && b[d] == '.' && '.' !in b[d + 1..]
  {
    if b[|b| - 1] == '.' then |b| - 1
    else
      assert '.' in b[..|b| - 1] by {
        var k :| 0 <= k < |b| && b[k] == '.';
        assert b[..|b| - 1][k] == '.';
      }
      var d := LastDot(b[..|b| - 1]);
      assert b[d + 1..] == b[..|b| - 1][d + 1..] + [b[|b| - 1]];
      d
  }

  /**
   * `path.extname` (POSIX) of one path component: empty without a dot, when
   * the only dot leads the name (`.png`), and for `..`; otherwise from the
   * last dot to the end.
   */
  function BaseExt(b: string): (r: string)
    requires '/' !in b
  {
    if '.' !in b then ""
    else
      var d := LastDot(b);
      if d == 0 || b == ".." then "" else b[d..]
  }

  /** `path.extname(p)`: the extension of the last component, trailing slashes ignored. */
  function Extname(p: string): (r: string)
    ensures r == [] || (r[0] == '.' && '/' !in r && '.' !in r[1..])
  {
    BaseExt(LastComponent(StripTrailingSlashes(p)))
  }

  // ------------------------------------------------------------- the route

  /** The uploaded file as multer describes it. */
  datatype UploadFile = UploadFile(originalName: string, mimeType: string)

  /** The reply of `POST /api/uploads`. */
  datatype Upload =
    | FileRequired            // 400 { error: "file required" }
    | Rejected(error: string) // the file filter's error, passed on by multer
    | Stored(fileName: string, url: string)

  const OnlyImages: string := "Only image uploads allowed"

  /** The file filter: `file.mimetype.startsWith("image/")`. */
  predicate IsImage(f: UploadFile) {
    StartsWith(f.mimeType, "image/")
  }

  /** The storage's `filename`: `shot-${Date.now()}${path.extname(file.originalname || ".png")}`. */
  function StoredName(f: UploadFile, now: nat): (name: string)
  {
    "shot-" + NatToString(now) + UploadExt(f)
  }

  /** `path.extname(file.originalname || ".png")`. */
  function UploadExt(f: UploadFile): (ext: string)
    ensures f.originalName == "" ==> ext == ""
  {
    DotFileHasNoExtension();
    Extname(if f.originalName != "" then f.originalName else ".png")
  }

  /** The whole request: the filter, then the `!req.file` check, then the reply. */
  function Post(file: Option<UploadFile>, now: nat): (r: Upload)
  {
    match file
    case None => FileRequired
    case Some(f) =>
      if !IsImage(f) then Rejected(OnlyImages)
      else
        var name := StoredName(f, now);
        Stored(name, Prefix + name)
  }

  // ------------------------------------------------------------------ lemmas

  /** A file is stored exactly when one was sent and its MIME type is an image type. */
  lemma PostOutcomes(file: Option<UploadFile>, now: nat)
    ensures Post(file, now) == FileRequired <==> file.None?
    ensures Post(file, now).Rejected? <==> file.Some? && !IsImage(file.value)
    ensures Post(file, now).Stored? <==> file.Some? && IsImage(file.value)
    ensures Post(file, now).Rejected? ==> Post(file, now).error == OnlyImages
  {
  }

  /** The reply's URL is the public path of the stored file. */
  lemma PostUrl(f: UploadFile, now: nat)
    requires IsImage(f)
    ensures Post(Some(f), now).url == "/uploads/" + Post(Some(f), now).fileName
    ensures StartsWith(Post(Some(f), now).fileName, "shot-" + NatToString(now))
  {
    var name := StoredName(f, now);
    assert name[..|"shot-" + NatToString(now)|] == "shot-" + NatToString(now);
  }

  /** A file name keeps its extension: the text from its last dot, unless that dot leads the name. */
  lemma ExtnameOfName(stem: string, ext: string)
    requires '/' !in stem && stem != [] && stem != "."
    requires ext != [] && ext[0] == '.' && '.' !in ext[1..] && '/' !in ext
    ensures Extname(stem + ext) == ext
  {
    var b := stem + ext;
    assert '/' !in b by {
      forall i | 0 <= i < |b| ensures b[i] != '/' {
        if i < |stem| { assert b[i] == stem[i]; } else { assert b[i] == ext[i - |stem|]; }
      }
    }
    assert StripTrailingSlashes(b) == b;
    LastComponentNoSlash(b);
    BaseExtOf(stem, ext);
  }

  lemma BaseExtOf(stem: string, ext: string)
    requires '/' !in stem + ext && stem != [] && stem != "."
    requires ext != [] && ext[0] == '.' && '.' !in ext[1..]
    ensures BaseExt(stem + ext) == ext
  {
    var b := stem + ext;
    assert b[|stem|] == '.';
    assert b[|stem| + 1..] == ext[1..];
    assert LastDot(b) == |stem|;
    assert b[|stem|..] == ext;
  }

  /** A path without a slash is its own last component. */
  lemma LastComponentNoSlash(b: string)
    requires '/' !in b
    ensures LastComponent(b) == b
  {
    var k := ComponentStart(b, |b|);
    assert forall i :: 0 <= i < |b| ==> b[i] in b;
    assert k == 0;
    assert b[0..] == b;
  }

  /** A name whose only dot leads it has no extension: `path.extname(".png")` is empty. */
  lemma DotFileHasNoExtension()
    ensures Extname(".png") == ""
  {
    var png := ".png";
    forall i | 0 <= i < |png| ensures png[i] != '/' && (i > 0 ==> png[i] != '.') { }
    LeadingDotNoExtension(png);
  }

  /** The same for any such name. */
  lemma LeadingDotNoExtension(b: string)
    requires b != [] && b[0] == '.'
    requires forall i :: 0 <= i < |b| ==> b[i] != '/' && (i > 0 ==> b[i] != '.')
    ensures Extname(b) == ""
  {
    assert '/' !in b;
    assert StripTrailingSlashes(b) == b;
    LastComponentNoSlash(b);
    var d := LastDot(b);
    assert d == 0;
  }


  /**
   * The fallback therefore adds nothing: an upload with an empty original
   * name is stored as `shot-<ms>` without an extension.
   */
  lemma EmptyNameStoredWithoutExtension(mime: string, now: nat)
    ensures StoredName(UploadFile("", mime), now) == "shot-" + NatToString(now)
  {
  }

  /** A stored name is a name the reference extraction can capture whole, unless its extension holds `)` or white space. */
  lemma StoredNameIsRefName(f: UploadFile, now: nat)
    requires forall c :: c in UploadExt(f) ==> NameChar(c)
    ensures IsRefName(StoredName(f, now))
  {
    ShotNameChars(now);
    ExtNameChars(UploadExt(f));
    NameCharsConcat("shot-" + NatToString(now), UploadExt(f));
  }

  lemma ShotNameChars(now: nat)
    ensures forall i :: 0 <= i < |"shot-" + NatToString(now)| ==> NameChar(("shot-" + NatToString(now))[i])
  {
    var shot := "shot-";
    assert forall i :: 0 <= i < |shot| ==> NameChar(shot[i]);
    var digits := NatToString(now);
    assert forall i :: 0 <= i < |digits| ==> NameChar(digits[i]);
    NameCharsConcat(shot, digits);
  }

  lemma ExtNameChars(ext: string)
    requires forall c :: c in ext ==> NameChar(c)
    ensures forall i :: 0 <= i < |ext| ==> NameChar(ext[i])
  {
    forall i | 0 <= i < |ext| ensures NameChar(ext[i]) {
      assert ext[i] in ext;
    }
  }

  lemma NameCharsConcat(a: string, b: string)
    requires forall i :: 0 <= i < |a| ==> NameChar(a[i])
    requires forall i :: 0 <= i < |b| ==> NameChar(b[i])
    ensures forall i :: 0 <= i < |a + b| ==> NameChar((a + b)[i])
  {
  }

  /**
   * The reply's URL written into the notes as a Markdown image is found again
   * by the reference extraction, as the only reference, provided the
   * extension holds no `)` or white space.
   */
  lemma UploadedImageIsReferenced(f: UploadFile, now: nat)
    requires IsImage(f)
    requires forall c :: c in UploadExt(f) ==> NameChar(c)
    ensures Refs(Some("![screenshot](" + Post(Some(f), now).url + ")")) == [Post(Some(f), now).fileName]
  {
    var name := StoredName(f, now);
    assert Post(Some(f), now) == Stored(name, Prefix + name);
    StoredNameIsRefName(f, now);
    ScreenshotOpenHasNoSlash();
    ClosedReferenceRefs("![screenshot](", name);
  }

  /** The Markdown text before the URL holds no slash. */
  lemma ScreenshotOpenHasNoSlash()
    ensures '/' !in "![screenshot]("
  {
    var s := "![screenshot](";
    forall i | 0 <= i < |s| ensures s[i] != '/' {
    }
  }
}
