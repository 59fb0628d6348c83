/**
 * The server's Cloudinary string handling: the two public-id extractors
 * (the image controller's and the Cloudinary service's), the controller's
 * file-extension helper, the extension the service keeps when it names an
 * upload, and the service's rule for a successful delete.
 *
 * A Cloudinary delivery URL reads
 * `<prefix>/upload/<version>/<public id>.<format>`; `BuildUrl` writes one,
 * and the extractors are proved to invert it.  A Java `null` is `None`.
 */
module Cloudinary {
  import opened Seqs
  import opened Strings

  const UploadMarker := "/upload/"

  /** What follows the marker in a delivery URL: `<version>/<path>`. */
  function Tail(version: string, path: string): string
  {
    version + "/" + path
  }

  /** A delivery URL; `BuildUrl(p, v, id, "")`-like URLs without a format are `prefix + marker + Tail(v, id)`. */
  function BuildUrl(prefix: string, version: string, publicId: string, format: string): string
  {
    prefix + UploadMarker + Tail(version, publicId + "." + format)
  }

  /** The prefix holds no "/upload/", not even one that runs into the marker after it. */
  predicate CleanPrefix(prefix: string)
  {
    IndexOf(prefix + UploadMarker, UploadMarker) == |prefix|
  }

  /** `url.substring(url.indexOf("/upload/") + 8)`, when the marker occurs. */
  function AfterUpload(url: string): (r: Option<string>)
    ensures r.Some? <==> Contains(url, UploadMarker)
  {
    var i := IndexOf(url, UploadMarker);
    if i < 0 then None else Some(url[i + |UploadMarker|..])
  }

  /** Behind a clean prefix, the text after the marker is everything after it. */
  lemma AfterUploadOfPrefix(prefix: string, rest: string)
    requires CleanPrefix(prefix)
    ensures AfterUpload(prefix + UploadMarker + rest) == Some(rest)
  {
    var url := prefix + UploadMarker + rest;
    var head := prefix + UploadMarker;
    assert url == head + rest;
    assert OccursAt(url, UploadMarker, |prefix|) by {
      assert url[|prefix|..|prefix| + 8] == head[|prefix|..];
    }
    forall i | i < |prefix|
      ensures !OccursAt(url, UploadMarker, i)
    {
      if OccursAt(url, UploadMarker, i) {
        assert url[i..i + 8] == head[i..i + 8];
        assert OccursAt(head, UploadMarker, i);
        assert false;
      }
    }
    var k := IndexOf(url, UploadMarker);
    assert k == |prefix|;
  }

  /** The last c of s[from..], found from the last c of s. */
  lemma LastIndexOfCharSuffix(s: string, c: char, from: int)
    requires 0 <= from <= |s|
    ensures var d := LastIndexOfChar(s, c);
      LastIndexOfChar(s[from..], c) == if d >= from then d - from else -1
  {
    var d := LastIndexOfChar(s, c);
    var t := s[from..];
    var e := LastIndexOfChar(t, c);
    if e >= 0 {
      assert s[from + e] == c;
      assert d >= from + e;
    }
    if d >= from {
      assert t[d - from] == c;
    }
  }

  /** The controller's cut of the text after the marker: drop the version, then the last "." on. */
  function ControllerPath(after: string): string
  {
    var v := IndexOfChar(after, '/');
    if v < 0 then "unknown"
    else
      var path := after[v + 1..];
      var dot := LastIndexOfChar(path, '.');
      if dot >= 0 then path[..dot] else path
  }

  /** The image controller's `extractPublicIdFromUrl`. */
  function ControllerPublicId(url: Option<string>): (r: string)
    ensures url.None? || url == Some("") ==> r == ""
    ensures url.Some? && url.value != "" && (AfterUpload(url.value).None? || IndexOfChar(AfterUpload(url.value).value, '/') < 0) ==>
      r == "unknown"
  {
    if url.None? || url.value == "" then ""
    else
      match AfterUpload(url.value)
      case None => "unknown"
      case Some(after) => ControllerPath(after)
  }

  /** The controller's cut recovers the public id from `<version>/<id>.<format>`, and from `<version>/<id>`. */
  lemma ControllerPathOf(version: string, publicId: string, format: string)
    requires '/' !in version && '.' !in format
    ensures ControllerPath(Tail(version, publicId + "." + format)) == publicId
    ensures '.' !in publicId ==> ControllerPath(Tail(version, publicId)) == publicId
  {
    VersionSlash(version, publicId + "." + format);
    assert Tail(version, publicId + "." + format)[|version| + 1..] == publicId + "." + format;
    LastDotOf(publicId, format);
    VersionSlash(version, publicId);
    assert Tail(version, publicId)[|version| + 1..] == publicId;
  }

  /** The controller's extractor drops the prefix, the version and the format, whether or not there is a format. */
  lemma ControllerPublicIdRoundTrip(prefix: string, version: string, publicId: string, format: string)
    requires CleanPrefix(prefix)
    requires '/' !in version && '.' !in format
    ensures ControllerPublicId(Some(BuildUrl(prefix, version, publicId, format))) == publicId
    ensures '.' !in publicId ==> ControllerPublicId(Some(prefix + UploadMarker + Tail(version, publicId))) == publicId
  {
    AfterUploadOfPrefix(prefix, Tail(version, publicId + "." + format));
    AfterUploadOfPrefix(prefix, Tail(version, publicId));
    ControllerPathOf(version, publicId, format);
  }

  /** The first "/" after the marker is the one that ends the version. */
  lemma VersionSlash(version: string, rest: string)
    requires '/' !in version
    ensures IndexOfChar(Tail(version, rest), '/') == |version|
  {
    var s := Tail(version, rest);
    assert s[|version|] == '/';
    assert forall j :: 0 <= j < |version| ==> s[j] == version[j];
  }

  /** The last "." of `id.format` is the one before the format. */
  lemma LastDotOf(publicId: string, format: string)
    requires '.' !in format
    ensures LastIndexOfChar(publicId + "." + format, '.') == |publicId|
    ensures (publicId + "." + format)[..|publicId|] == publicId
  {
    var s := publicId + "." + format;
    assert s[|publicId|] == '.';
    assert forall j :: |publicId| < j < |s| ==> s[j] == format[j - |publicId| - 1];
  }

  /**
   * The Cloudinary service's `extractPublicIdFromUrl`, as written: it cuts
   * the text after the marker at its last "." with one `substring` call,
   * which throws when that "." is missing or lies inside the version.
   * Without a marker, or without a "/" after it, the input comes back.
   */
  function ServicePublicIdAsWritten(url: Option<string>): (r: Result<string>)
    ensures url.None? || url == Some("") ==> r == Success("")
    ensures url.Some? && url.value != "" && (AfterUpload(url.value).None? || IndexOfChar(AfterUpload(url.value).value, '/') < 0) ==>
      r == Success(url.value)
  {
    if url.None? || url.value == "" then Success("")
    else
      match AfterUpload(url.value)
      case None => Success(url.value)
      case Some(after) =>
        if IndexOfChar(after, '/') < 0 then Success(url.value) else ServicePathAsWritten(after)
  }

  /** `afterUpload.substring(v + 1, afterUpload.lastIndexOf("."))` for the first "/" at v. */
  function ServicePathAsWritten(after: string): Result<string>
    requires IndexOfChar(after, '/') >= 0
  {
    var v := IndexOfChar(after, '/');
    var dot := LastIndexOfChar(after, '.');
    if dot < v + 1 then Failure("StringIndexOutOfBoundsException") else Success(after[v + 1..dot])
  }

  /** A URL without a format makes the service's extractor throw. */
  lemma ServicePublicIdThrows(prefix: string, version: string, publicId: string)
    requires CleanPrefix(prefix)
    requires '/' !in version && '.' !in version && '.' !in publicId
    ensures ServicePublicIdAsWritten(Some(prefix + UploadMarker + Tail(version, publicId))).Failure?
  {
    AfterUploadOfPrefix(prefix, Tail(version, publicId));
    VersionSlash(version, publicId);
    assert '.' !in Tail(version, publicId);
  }

  /** The service's extractor with the intended fallback: no format after the version leaves the path whole. */
  function ServicePublicId(url: Option<string>): (r: string)
    ensures ServicePublicIdAsWritten(url).Success? ==> r == ServicePublicIdAsWritten(url).value
  {
    if url.None? || url.value == "" then ""
    else
      match AfterUpload(url.value)
      case None => url.value
      case Some(after) =>
        if IndexOfChar(after, '/') < 0 then url.value else ServicePath(after)
  }

  function ServicePath(after: string): (r: string)
    requires IndexOfChar(after, '/') >= 0
    ensures ServicePathAsWritten(after).Success? ==> r == ServicePathAsWritten(after).value
  {
    var v := IndexOfChar(after, '/');
    var dot := LastIndexOfChar(after, '.');
    if dot < v + 1 then after[v + 1..] else after[v + 1..dot]
  }

  /** After the marker, the corrected service cut and the controller's cut agree. */
  lemma ServicePathIsControllerPath(after: string)
    requires IndexOfChar(after, '/') >= 0
    ensures ServicePath(after) == ControllerPath(after)
  {
    var v := IndexOfChar(after, '/');
    LastIndexOfCharSuffix(after, '.', v + 1);
    var dot := LastIndexOfChar(after, '.');
    if dot >= v + 1 {
      assert after[v + 1..][..dot - v - 1] == after[v + 1..dot];
    }
  }

  /**
   * Wherever the controller finds a public id, the corrected service finds
   * the same one, so both invert `BuildUrl` with or without a format.
   */
  lemma ServiceMatchesController(url: string)
    requires url != "" && AfterUpload(url).Some? && IndexOfChar(AfterUpload(url).value, '/') >= 0
    ensures ServicePublicId(Some(url)) == ControllerPublicId(Some(url))
  {
    ServicePathIsControllerPath(AfterUpload(url).value);
  }

  /**
   * `deleteImage`: the argument goes through the service's extractor, and
   * the delete counts as done only when Cloudinary's reply has result "ok".
   * `destroy` is the Cloudinary call: the reply's "result" field, or a failure
   * when it throws.  Any exception, the extractor's included, yields false.
   */
  function DeleteImage(publicIdOrUrl: Option<string>, destroy: string -> Result<Option<string>>): (deleted: bool)
    ensures deleted <==> (ServicePublicIdAsWritten(publicIdOrUrl).Success? &&
      destroy(ServicePublicIdAsWritten(publicIdOrUrl).value) == Success(Some("ok")))
  {
    match ServicePublicIdAsWritten(publicIdOrUrl)
    case Failure(_) => false
    case Success(id) =>
      match destroy(id)
      case Failure(_) => false
      case Success(result) => result == Some("ok")
  }

  /** Deleting by a URL that has no format never reaches Cloudinary and reports failure. */
  lemma DeleteWithoutFormatFails(prefix: string, version: string, publicId: string,
                                 destroy: string -> Result<Option<string>>)
    requires CleanPrefix(prefix)
    requires '/' !in version && '.' !in version && '.' !in publicId
    ensures !DeleteImage(Some(prefix + UploadMarker + Tail(version, publicId)), destroy)
  {
    ServicePublicIdThrows(prefix, version, publicId);
  }

  /** With a format, the service's extractor inverts `BuildUrl` as written. */
  lemma ServicePublicIdRoundTrip(prefix: string, version: string, publicId: string, format: string)
    requires CleanPrefix(prefix)
    requires '/' !in version && '.' !in format
    ensures ServicePublicIdAsWritten(Some(BuildUrl(prefix, version, publicId, format))) == Success(publicId)
  {
    var after := Tail(version, publicId + "." + format);
    AfterUploadOfPrefix(prefix, after);
    VersionSlash(version, publicId + "." + format);
    ControllerPathOf(version, publicId, format);
    ServicePathIsControllerPath(after);
    var v := IndexOfChar(after, '/');
    assert after[|version| + 1 + |publicId|] == '.';
    var dot := LastIndexOfChar(after, '.');
    assert dot >= v + 1;
    assert ServicePathAsWritten(after) == Success(ServicePath(after));
  }

  /** Deleting by a delivery URL destroys exactly the public id the URL was built from. */
  lemma DeleteByUrl(prefix: string, version: string, publicId: string, format: string,
                    destroy: string -> Result<Option<string>>)
    requires CleanPrefix(prefix)
    requires '/' !in version && '.' !in format
    ensures DeleteImage(Some(BuildUrl(prefix, version, publicId, format)), destroy) <==>
      destroy(publicId) == Success(Some("ok"))
  {
    ServicePublicIdRoundTrip(prefix, version, publicId, format);
  }

  /** The image controller's `getFileExtension`: the lower-cased text after the last ".", or "". */
  function FileExtension(fileName: Option<string>): (ext: string)
    ensures '.' !in ext
    ensures forall i :: 0 <= i < |ext| ==> !('A' <= ext[i] <= 'Z')
    ensures fileName.None? || LastIndexOfChar(fileName.value, '.') < 0 ==> ext == ""
  {
    if fileName.None? || fileName.value == "" || LastIndexOfChar(fileName.value, '.') < 0 then ""
    else
      var name := fileName.value;
      var tail := name[LastIndexOfChar(name, '.') + 1..];
      assert forall i :: 0 <= i < |tail| ==> tail[i] != '.';
      Lower(tail)
  }

  /** The service's `generateFileName` suffix: the original name from its last "." on, or nothing. */
  function FileNameSuffix(originalName: Option<string>): (suffix: string)
    ensures suffix == "" || (suffix[0] == '.' && '.' !in suffix[1..])
    ensures originalName.Some? ==> exists k :: 0 <= k <= |originalName.value| && originalName.value[k..] == suffix
  {
    if originalName.None? || LastIndexOfChar(originalName.value, '.') < 0 then
      assert originalName.Some? ==> originalName.value[|originalName.value|..] == "";
      ""
    else
      var name := originalName.value;
      var dot := LastIndexOfChar(name, '.');
      var tail := name[dot + 1..];
      assert forall i :: 0 <= i < |tail| ==> tail[i] == name[dot + 1 + i];
      name[dot..]
  }

  /** A random name plus the original suffix (the random part is a parameter). */
  function GenerateFileName(randomName: string, originalName: Option<string>): string
  {
    randomName + FileNameSuffix(originalName)
  }

  /**
   * The two helpers agree: for `base.ext` the service keeps ".ext" and the
   * controller reports "ext" lower-cased.
   */
  lemma ExtensionOfName(base: string, ext: string, randomName: string)
    requires '.' !in ext
    ensures FileNameSuffix(Some(base + "." + ext)) == "." + ext
    ensures FileExtension(Some(base + "." + ext)) == Lower(ext)
    ensures GenerateFileName(randomName, Some(base + "." + ext)) == randomName + "." + ext
  {
    var name := base + "." + ext;
    LastDotOf(base, ext);
    assert name != "";
    assert name[|base|..] == "." + ext;
    assert name[|base| + 1..] == ext;
    assert FileNameSuffix(Some(name)) == name[|base|..];
    assert FileExtension(Some(name)) == Lower(name[|base| + 1..]);
  }

  /** Both see no extension in a name without a ".", and the generated name is the random part alone. */
  lemma ExtensionOfBareName(name: string, randomName: string)
    requires '.' !in name
    ensures FileNameSuffix(Some(name)) == "" && FileExtension(Some(name)) == ""
    ensures GenerateFileName(randomName, Some(name)) == randomName
  {
    assert LastIndexOfChar(name, '.') < 0;
  }
}
