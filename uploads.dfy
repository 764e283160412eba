/**
 * The upload-name check used by the shipment form, and the loop of the
 * "send items" handler that keeps the stored names of the accepted photos.
 */
module Uploads {
  import opened Common

  /** The extensions a shipment photo may have (compared in lower case). */
  const AllowedExtensions: set<string> := {"png", "jpg", "jpeg", "gif"}

  /** Lower-cases one character; only the letters A to Z have a lower-case form here. */
  function LowerChar(c: char): char {
    if 'A' <= c <= 'Z' then (c as int + 32) as char else c
  }

  function Lower(s: string): (r: string)
    ensures |r| == |s|
    ensures forall i :: 0 <= i < |s| ==> r[i] == LowerChar(s[i])
  {
    seq(|s|, i requires 0 <= i < |s| => LowerChar(s[i]))
  }

  /**
   * The text after the last '.', or None when the name holds no '.'
   * (the second part of `rsplit('.', 1)`).
   */
  function Extension(name: string): (ext: Option<string>)
    ensures ext.None? <==> '.' !in name
    ensures ext.Some? ==> '.' !in ext.value && |ext.value| < |name|
    ensures ext.Some? ==> name[|name| - |ext.value| - 1] == '.' && name[|name| - |ext.value|..] == ext.value
  {
    if name == [] then None
    else if name[|name| - 1] == '.' then Some([])
    else
      var init := name[..|name| - 1];
      assert '.' in name <==> '.' in init by {
        assert name == init + [name[|name| - 1]];
      }
      match Extension(init)
      case None => None
      case Some(e) =>
        assert name[|name| - |e| - 1..] == init[|init| - |e|..] + [name[|name| - 1]];
        Some(e + [name[|name| - 1]])
  }

  /** `allowed_file`: the name has a '.' and its last extension, lower-cased, is allowed. */
  predicate AllowedFile(filename: string) {
    '.' in filename && Lower(Extension(filename).value) in AllowedExtensions
  }

  /** Appending a '.'-free extension after a '.' makes that extension the last one. */
  lemma {:induction false} ExtensionOfSuffix(base: string, ext: string)
    requires '.' !in ext
    ensures Extension(base + "." + ext) == Some(ext)
  {
    if ext != [] {
      var last := ext[|ext| - 1];
      var init := ext[..|ext| - 1];
      assert '.' !in init;
      ExtensionOfSuffix(base, init);
      var name := base + "." + ext;
      assert name[..|name| - 1] == base + "." + init;
      assert name[|name| - 1] == last && last != '.';
      assert init + [last] == ext;
    } else {
      var name := base + "." + ext;
      assert name[|name| - 1] == '.';
    }
  }

  /** Position `i` holds the last '.' of `filename`. */
  predicate LastDotAt(filename: string, i: int) {
    0 <= i < |filename| && filename[i] == '.' && '.' !in filename[i + 1..]
  }

  /** An accepted name has a last '.' followed by an allowed extension. */
  lemma AcceptedHasLastDot(filename: string)
    requires AllowedFile(filename)
    ensures exists i :: LastDotAt(filename, i) && Lower(filename[i + 1..]) in AllowedExtensions
  {
    var e := Extension(filename).value;
    var i := |filename| - |e| - 1;
    assert filename[i + 1..] == e;
    assert LastDotAt(filename, i);
  }

  /** A name whose last '.' is followed by an allowed extension is accepted. */
  lemma LastDotAccepted(filename: string, i: int)
    requires LastDotAt(filename, i) && Lower(filename[i + 1..]) in AllowedExtensions
    ensures AllowedFile(filename)
  {
    assert filename == filename[..i] + "." + filename[i + 1..];
    ExtensionOfSuffix(filename[..i], filename[i + 1..]);
  }

  /**
   * The independent reading of `allowed_file`: the text after the last '.'
   * of the name, lower-cased, is an allowed extension.
   */
  lemma AllowedFileMeans(filename: string)
    ensures AllowedFile(filename) <==>
      exists i :: LastDotAt(filename, i) && Lower(filename[i + 1..]) in AllowedExtensions
  {
    if AllowedFile(filename) {
      AcceptedHasLastDot(filename);
    }
    if exists i :: LastDotAt(filename, i) && Lower(filename[i + 1..]) in AllowedExtensions {
      var i :| LastDotAt(filename, i) && Lower(filename[i + 1..]) in AllowedExtensions;
      LastDotAccepted(filename, i);
    }
  }

  /** Only the last extension counts: what precedes it, dots included, is irrelevant. */
  lemma OnlyLastExtensionCounts(base: string, ext: string)
    requires '.' !in ext
    ensures AllowedFile(base + "." + ext) <==> Lower(ext) in AllowedExtensions
  {
    ExtensionOfSuffix(base, ext);
  }

  /** The case of the extension is ignored. */
  lemma ExtensionCaseIgnored(base: string, ext: string)
    requires '.' !in ext
    ensures AllowedFile(base + "." + ext) == AllowedFile(base + "." + Lower(ext))
  {
    assert '.' !in Lower(ext) by {
      forall i | 0 <= i < |ext| ensures Lower(ext)[i] != '.' { }
    }
    assert Lower(Lower(ext)) == Lower(ext);
    OnlyLastExtensionCounts(base, ext);
    OnlyLastExtensionCounts(base, Lower(ext));
  }

  /** An executable disguised by an earlier image extension is refused. */
  lemma DisguisedExecutableRefused()
    ensures !AllowedFile("a.png.exe")
  {
    assert "a.png" + "." + "exe" == "a.png.exe";
    OnlyLastExtensionCounts("a.png", "exe");
    assert Lower("exe") == "exe";
  }

  /** An image extension in upper case is accepted after an earlier foreign one. */
  lemma UpperCaseImageAccepted()
    ensures AllowedFile("a.exe.PNG")
  {
    assert "a.exe" + "." + "PNG" == "a.exe.PNG";
    OnlyLastExtensionCounts("a.exe", "PNG");
    assert Lower("PNG") == "png";
  }

  /** A name ending in '.' has an empty extension and is refused. */
  lemma TrailingDotRefused(base: string)
    ensures !AllowedFile(base + ".")
  {
    assert base + "." + "" == base + ".";
    OnlyLastExtensionCounts(base, "");
    assert Lower("") == "";
  }

  /** A bare extension without a '.' is refused; a name that is only '.' and an extension is accepted. */
  lemma DotRequired()
    ensures !AllowedFile("png")
    ensures AllowedFile(".gif")
  {
    assert "" + "." + "gif" == ".gif";
    OnlyLastExtensionCounts("", "gif");
    assert Lower("gif") == "gif";
  }

  /**
   * One uploaded file of the `item_photos` list: its client-side name
   * (absent or empty for an empty file input) and the name it is stored
   * under, which is chosen outside the model.
   */
  datatype Upload = Upload(filename: Option<string>, storedName: string)

  /** `file and file.filename and allowed_file(file.filename)`. */
  predicate Accepts(u: Upload) {
    Filled(u.filename) && AllowedFile(u.filename.value)
  }

  /** The stored names of the accepted uploads, in upload order. */
  function PhotoPaths(uploads: seq<Upload>): seq<string> {
    if uploads == [] then []
    else
      var u := uploads[|uploads| - 1];
      PhotoPaths(uploads[..|uploads| - 1]) + (if Accepts(u) then [u.storedName] else [])
  }

  /** The filter distributes over concatenation, so it keeps the upload order. */
  lemma {:induction false} PhotoPathsConcat(a: seq<Upload>, b: seq<Upload>)
    ensures PhotoPaths(a + b) == PhotoPaths(a) + PhotoPaths(b)
  {
    if b == [] {
      assert a + b == a;
    } else {
      var u := b[|b| - 1];
      var keep := if Accepts(u) then [u.storedName] else [];
      assert (a + b)[..|a + b| - 1] == a + b[..|b| - 1];
      PhotoPathsConcat(a, b[..|b| - 1]);
      calc {
        PhotoPaths(a + b);
        PhotoPaths(a + b[..|b| - 1]) + keep;
        PhotoPaths(a) + PhotoPaths(b[..|b| - 1]) + keep;
        PhotoPaths(a) + PhotoPaths(b);
      }
    }
  }

  /** At most one stored name per upload. */
  lemma {:induction false} PhotoPathsBounded(uploads: seq<Upload>)
    ensures |PhotoPaths(uploads)| <= |uploads|
  {
    if uploads != [] {
      PhotoPathsBounded(uploads[..|uploads| - 1]);
    }
  }

  /** Upload `i` is accepted and stored under `name`. */
  predicate StoredAt(uploads: seq<Upload>, i: int, name: string) {
    0 <= i < |uploads| && Accepts(uploads[i]) && uploads[i].storedName == name
  }

  /** A kept name belongs to an accepted upload. */
  lemma {:induction false} PhotoPathsSound(uploads: seq<Upload>, name: string)
    requires name in PhotoPaths(uploads)
    ensures exists i :: StoredAt(uploads, i, name)
  {
    var n := |uploads| - 1;
    var init := uploads[..n];
    if name in PhotoPaths(init) {
      PhotoPathsSound(init, name);
      var i :| StoredAt(init, i, name);
      assert StoredAt(uploads, i, name);
    } else {
      assert StoredAt(uploads, n, name);
    }
  }

  /** Every accepted upload has its stored name kept. */
  lemma {:induction false} PhotoPathsComplete(uploads: seq<Upload>, i: int, name: string)
    requires StoredAt(uploads, i, name)
    ensures name in PhotoPaths(uploads)
  {
    var n := |uploads| - 1;
    if i < n {
      PhotoPathsComplete(uploads[..n], i, name);
    }
  }

  /** A stored name is kept exactly when it belongs to an accepted upload. */
  lemma PhotoPathsMembers(uploads: seq<Upload>, name: string)
    ensures name in PhotoPaths(uploads) <==> exists i :: StoredAt(uploads, i, name)
  {
    if name in PhotoPaths(uploads) {
      PhotoPathsSound(uploads, name);
    }
    if exists i :: StoredAt(uploads, i, name) {
      var i :| StoredAt(uploads, i, name);
      PhotoPathsComplete(uploads, i, name);
    }
  }

  /** The photo loop of `send_items`: keeps the stored name of every accepted upload. */
  method CollectPhotoPaths(uploads: seq<Upload>) returns (photoPaths: seq<string>)
    ensures photoPaths == PhotoPaths(uploads)
  {
    photoPaths := [];
    for i := 0 to |uploads|
      invariant photoPaths == PhotoPaths(uploads[..i])
    {
      var file := uploads[i];
      assert uploads[..i + 1][..i] == uploads[..i];
      if Filled(file.filename) && AllowedFile(file.filename.value) {
        photoPaths := photoPaths + [file.storedName];
      }
    }
    assert uploads[..|uploads|] == uploads;
  }
}
