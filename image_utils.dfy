/**
 * The storefront's image URL helpers: Cloudinary delivery URLs with
 * transformations, the list of Cloudinary URLs that failed to load, the
 * public id read back from a delivery URL, the cache buster, and the rule
 * that picks where an image is loaded from.
 *
 * The build-time settings are a `Config`; the clock is the parameter `now`.
 * A JavaScript `undefined` is `None`; a string is falsy when absent or empty
 * and a number when absent or 0.
 */
module ImageUtils {
  import opened Seqs
  import opened Strings
  import Cloudinary

  /** The API base URL, the fallback image and the Cloudinary cloud name ("" when not configured). */
  datatype Config = Config(apiBase: string, fallback: string, cloudName: string)

  const CloudinaryHost := "cloudinary.com"
  const CloudinaryOrigin := "https://res.cloudinary.com/"

  /** At most this many failed URLs are remembered. */
  const FailedLimit := 100

  predicate Enabled(cfg: Config)
  {
    cfg.cloudName != ""
  }

  /** The delivery base; without a cloud name the base is `null`, which a template literal writes as "null". */
  function CloudinaryBase(cfg: Config): string
  {
    if Enabled(cfg) then CloudinaryOrigin + cfg.cloudName else "null"
  }

  predicate Present(s: Option<string>)
  {
    s.Some? && s.value != ""
  }

  predicate NonZero(n: Option<int>)
  {
    n.Some? && n.value != 0
  }

  /** Transformation options; an absent crop, quality or format takes its default. */
  datatype ImageOptions = ImageOptions(
    width: Option<int>,
    height: Option<int>,
    crop: Option<string>,
    quality: Option<string>,
    format: Option<string>)

  const NoOptions := ImageOptions(None, None, None, None, None)

  function Or(s: Option<string>, default: string): string
  {
    if s.Some? then s.value else default
  }

  /** The transformation segment `getCloudinaryUrl` writes. */
  function Transformations(opts: ImageOptions): string
  {
    var crop := Or(opts.crop, "fill");
    "f_" + Or(opts.format, "auto") + ",q_" + Or(opts.quality, "auto")
    + (if NonZero(opts.width) then ",w_" + IntToString(opts.width.value) else "")
    + (if NonZero(opts.height) then ",h_" + IntToString(opts.height.value) else "")
    + (if crop != "" then ",c_" + crop else "")
  }

  /** `getCloudinaryUrl`'s string, built one piece at a time as the source appends to it. */
  method BuildTransformations(opts: ImageOptions) returns (t: string)
    ensures t == Transformations(opts)
  {
    var crop := Or(opts.crop, "fill");
    t := "f_" + Or(opts.format, "auto") + ",q_" + Or(opts.quality, "auto");
    if NonZero(opts.width) {
      t := t + ",w_" + IntToString(opts.width.value);
    }
    if NonZero(opts.height) {
      t := t + ",h_" + IntToString(opts.height.value);
    }
    if crop != "" {
      t := t + ",c_" + crop;
    }
  }

  /** With no options at all, the image is served in automatic format and quality, cropped to fill. */
  lemma DefaultTransformations()
    ensures Transformations(NoOptions) == "f_auto,q_auto,c_fill"
  {
  }

  /** Only a truthy width or height gets a segment; an empty crop drops the crop segment. */
  lemma TransformationsOfSize(w: int, h: int)
    requires w != 0 && h != 0
    ensures Transformations(ImageOptions(Some(w), Some(h), None, None, None))
      == "f_auto,q_auto,w_" + IntToString(w) + ",h_" + IntToString(h) + ",c_fill"
    ensures Transformations(ImageOptions(Some(0), Some(0), Some(""), None, None)) == "f_auto,q_auto"
  {
  }

  /** A number written out holds no "/". */
  lemma IntToStringNoSlash(n: int)
    ensures '/' !in IntToString(n)
  {
    var d := NatToString(if n < 0 then -n else n);
    assert '/' !in d by {
      forall i | 0 <= i < |d|
        ensures d[i] != '/'
      {
        assert IsDigit(d[i]);
      }
    }
  }

  predicate SlashFree(opts: ImageOptions)
  {
    '/' !in Or(opts.crop, "fill") && '/' !in Or(opts.quality, "auto") && '/' !in Or(opts.format, "auto")
  }

  /** Options without "/" give a transformation that is a single path segment. */
  lemma TransformationsNoSlash(opts: ImageOptions)
    requires SlashFree(opts)
    ensures '/' !in Transformations(opts)
  {
    if NonZero(opts.width) {
      IntToStringNoSlash(opts.width.value);
    }
    if NonZero(opts.height) {
      IntToStringNoSlash(opts.height.value);
    }
  }

  /** `getCloudinaryUrl(publicId, options)`. */
  function CloudinaryUrl(cfg: Config, publicId: Option<string>, opts: ImageOptions): (url: string)
    ensures !Present(publicId) ==> url == cfg.fallback
  {
    if !Present(publicId) then cfg.fallback
    else CloudinaryBase(cfg) + "/image" + Cloudinary.UploadMarker + Cloudinary.Tail(Transformations(opts), publicId.value)
  }

  /** The list after `addToFailedCloudinaryUrls(url)`. */
  function AddedFailed(failed: seq<string>, url: Option<string>): seq<string>
  {
    if !Present(url) || !Contains(url.value, CloudinaryHost) || url.value in failed then failed
    else
      var grown := failed + [url.value];
      if |grown| > FailedLimit then grown[1..] else grown
  }

  predicate Distinct(s: seq<string>)
  {
    forall i, j :: 0 <= i < j < |s| ==> s[i] != s[j]
  }

  /** What the list always satisfies: Cloudinary URLs only, no repeats, at most the limit. */
  predicate FailedListOk(failed: seq<string>)
  {
    |failed| <= FailedLimit && Distinct(failed) && forall u :: u in failed ==> Contains(u, CloudinaryHost)
  }

  /**
   * Recording keeps the list well formed; a Cloudinary URL is in the list
   * afterwards; nothing else enters; anything that is not a new Cloudinary
   * URL leaves the list as it was; and a new URL on a full list pushes out
   * the oldest one.
   */
  lemma AddedFailedSpec(failed: seq<string>, url: Option<string>)
    requires FailedListOk(failed)
    ensures FailedListOk(AddedFailed(failed, url))
    ensures Present(url) && Contains(url.value, CloudinaryHost) ==> url.value in AddedFailed(failed, url)
    ensures forall u :: u in AddedFailed(failed, url) ==> u in failed || url == Some(u)
    ensures !Present(url) || !Contains(url.value, CloudinaryHost) || url.value in failed ==>
      AddedFailed(failed, url) == failed
    ensures Present(url) && Contains(url.value, CloudinaryHost) && url.value !in failed ==>
      AddedFailed(failed, url) == if |failed| == FailedLimit then failed[1..] + [url.value] else failed + [url.value]
  {
    if Present(url) && Contains(url.value, CloudinaryHost) && url.value !in failed {
      var grown := failed + [url.value];
      assert Distinct(grown);
      if |grown| > FailedLimit {
        assert grown[1..] == failed[1..] + [url.value];
        assert grown[1..][|grown| - 2] == url.value;
      } else {
        assert grown[|failed|] == url.value;
      }
    }
  }

  /** `hasUrlFailedBefore(url)`. */
  function FailedBefore(failed: seq<string>, url: Option<string>): bool
  {
    Present(url) && url.value in failed
  }

  /** The remembered failures; the browser's local storage is replaced by this object. */
  class FailedUrls {
    var urls: seq<string>

    ghost predicate Valid()
      reads this
    {
      FailedListOk(urls)
    }

    constructor()
      ensures urls == [] && Valid()
    {
      urls := [];
    }

    /** `addToFailedCloudinaryUrls(url)`: push, then shift when over the limit. */
    method Add(url: Option<string>)
      requires Valid()
      modifies this
      ensures urls == AddedFailed(old(urls), url)
      ensures Valid()
    {
      AddedFailedSpec(urls, url);
      if !Present(url) || !Contains(url.value, CloudinaryHost) {
        return;
      }
      if url.value !in urls {
        urls := urls + [url.value];
        if |urls| > FailedLimit {
          urls := urls[1..];
        }
      }
    }

    /** `hasUrlFailedBefore(url)`. */
    function HasFailedBefore(url: Option<string>): (b: bool)
      reads this
      ensures b <==> FailedBefore(urls, url)
      ensures b ==> Contains(url.value, CloudinaryHost) || !Valid()
    {
      Present(url) && url.value in urls
    }
  }

  /** A URL recorded as failed is reported as failed until a hundred newer failures push it out. */
  lemma RecordedFailureIsRemembered(failed: seq<string>, url: string)
    requires FailedListOk(failed)
    requires url != "" && Contains(url, CloudinaryHost)
    ensures FailedBefore(AddedFailed(failed, Some(url)), Some(url))
  {
    AddedFailedSpec(failed, Some(url));
  }

  /** A URL that is not a Cloudinary URL is never recorded, so it is never reported as failed. */
  lemma OnlyCloudinaryFailuresRemembered(failed: seq<string>, url: string)
    requires FailedListOk(failed)
    requires !Contains(url, CloudinaryHost)
    ensures !FailedBefore(AddedFailed(failed, Some(url)), Some(url))
  {
  }

  /** `extractPublicIdFromUrl(url)`: the path after the version, cut at its first ".". */
  function ExtractPublicId(url: Option<string>): (id: string)
    ensures '.' !in id
    ensures !Present(url) || !Contains(url.value, CloudinaryHost) ==> id == ""
    ensures Present(url) && Cloudinary.AfterUpload(url.value).None? ==> id == ""
  {
    if !Present(url) || !Contains(url.value, CloudinaryHost) then ""
    else
      match Cloudinary.AfterUpload(url.value)
      case None => ""
      case Some(after) =>
        var parts := Split(after, '/');
        if |parts| < 2 then ""
        else
          var path := Join(parts[1..], '/');
          SplitHeadFree(path, '.');
          Split(path, '.')[0]
  }

  lemma SplitHeadFree(s: string, c: char)
    ensures c !in Split(s, c)[0]
  {
    SplitHead(s, c);
  }

  /** A string that contains pat still does after more text is appended. */
  lemma ContainsExtend(a: string, b: string, pat: string)
    requires Contains(a, pat)
    ensures Contains(a + b, pat)
  {
    var i := IndexOf(a, pat);
    assert (a + b)[i..i + |pat|] == a[i..i + |pat|];
    assert OccursAt(a + b, pat, i);
  }

  /**
   * From a delivery URL behind a Cloudinary prefix, the extractor returns
   * the path after the version up to its first "." (the whole path when it
   * has no ".").
   */
  lemma ExtractFromDeliveryUrl(prefix: string, version: string, path: string)
    requires Cloudinary.CleanPrefix(prefix) && Contains(prefix, CloudinaryHost)
    requires '/' !in version
    ensures ExtractPublicId(Some(prefix + Cloudinary.UploadMarker + Cloudinary.Tail(version, path)))
      == Split(path, '.')[0]
    ensures '.' !in path ==>
      ExtractPublicId(Some(prefix + Cloudinary.UploadMarker + Cloudinary.Tail(version, path))) == path
  {
    var after := Cloudinary.Tail(version, path);
    DeliveryUrlParts(prefix, after);
    PathAfterVersion(version, path);
    SplitHead(path, '.');
  }

  /** A delivery URL behind a Cloudinary prefix is a Cloudinary URL whose text after the marker is its tail. */
  lemma DeliveryUrlParts(prefix: string, after: string)
    requires Cloudinary.CleanPrefix(prefix) && Contains(prefix, CloudinaryHost)
    ensures var url := prefix + Cloudinary.UploadMarker + after;
      Present(Some(url)) && Contains(url, CloudinaryHost) && Cloudinary.AfterUpload(url) == Some(after)
  {
    ContainsExtend(prefix, Cloudinary.UploadMarker + after, CloudinaryHost);
    assert prefix + Cloudinary.UploadMarker + after == prefix + (Cloudinary.UploadMarker + after);
    Cloudinary.AfterUploadOfPrefix(prefix, after);
  }

  /** Split at "/", a version segment is followed by at least one more part, and the rest joins back to the path. */
  lemma PathAfterVersion(version: string, path: string)
    requires '/' !in version
    ensures var parts := Split(Cloudinary.Tail(version, path), '/');
      |parts| >= 2 && Join(parts[1..], '/') == path
  {
    var after := Cloudinary.Tail(version, path);
    Cloudinary.VersionSlash(version, path);
    SplitHead(after, '/');
    JoinSplitTail(after, '/');
    assert after[|version| + 1..] == path;
  }

  /** The delivery prefix of a configured cloud mentions the Cloudinary host. */
  lemma BaseMentionsHost(cfg: Config)
    requires Enabled(cfg)
    ensures Contains(CloudinaryBase(cfg) + "/image", CloudinaryHost)
  {
    assert OccursAt(CloudinaryOrigin, CloudinaryHost, 12);
    ContainsExtend(CloudinaryOrigin, cfg.cloudName + "/image", CloudinaryHost);
    assert CloudinaryBase(cfg) + "/image" == CloudinaryOrigin + (cfg.cloudName + "/image");
  }

  /**
   * Reading back a URL that `getCloudinaryUrl` wrote gives the public id it
   * was given, whatever the transformations, when the id has no ".".
   */
  lemma ExtractInvertsCloudinaryUrl(cfg: Config, publicId: string, opts: ImageOptions)
    requires Enabled(cfg) && Cloudinary.CleanPrefix(CloudinaryBase(cfg) + "/image")
    requires SlashFree(opts)
    requires publicId != "" && '.' !in publicId
    ensures ExtractPublicId(Some(CloudinaryUrl(cfg, Some(publicId), opts))) == publicId
  {
    BaseMentionsHost(cfg);
    TransformationsNoSlash(opts);
    ExtractFromDeliveryUrl(CloudinaryBase(cfg) + "/image", Transformations(opts), publicId);
  }

  /** Re-transforming a delivery URL keeps its public id, so transformations can be changed again and again. */
  lemma RetransformKeepsId(cfg: Config, publicId: string, first: ImageOptions, second: ImageOptions)
    requires Enabled(cfg) && Cloudinary.CleanPrefix(CloudinaryBase(cfg) + "/image")
    requires SlashFree(first)
    requires publicId != "" && '.' !in publicId
    ensures CloudinaryUrl(cfg, Some(ExtractPublicId(Some(CloudinaryUrl(cfg, Some(publicId), first)))), second)
      == CloudinaryUrl(cfg, Some(publicId), second)
  {
    ExtractInvertsCloudinaryUrl(cfg, publicId, first);
  }

  /** `getImageUrlWithCacheBuster(url)`: a `t` parameter appended as the first or a further query parameter. */
  function CacheBuster(cfg: Config, url: Option<string>, now: int): (r: string)
    ensures !Present(url) ==> r == cfg.fallback
    ensures Present(url) ==> |r| > |url.value| && r[..|url.value|] == url.value
    ensures Present(url) ==> r[|url.value|] == (if Contains(url.value, "?") then '&' else '?')
    ensures Present(url) ==> r[|url.value| + 1..] == "t=" + IntToString(now)
  {
    if !Present(url) then cfg.fallback
    else
      var separator := if Contains(url.value, "?") then '&' else '?';
      url.value + [separator] + "t=" + IntToString(now)
  }

  /**
   * A busted URL already has a query, so busting it again adds a further
   * parameter with "&"; a URL without a query gets exactly one "?".
   */
  lemma CacheBusterTwice(cfg: Config, url: string, first: int, second: int)
    requires url != ""
    ensures var once := CacheBuster(cfg, Some(url), first);
      CacheBuster(cfg, Some(once), second) == once + "&t=" + IntToString(second)
  {
    var once := CacheBuster(cfg, Some(url), first);
    BustedHasQuery(url, once);
  }

  lemma BustedHasQuery(url: string, once: string)
    requires |once| > |url| && once[..|url|] == url
    requires once[|url|] == (if Contains(url, "?") then '&' else '?')
    ensures Contains(once, "?")
  {
    if Contains(url, "?") {
      ContainsExtend(url, once[|url|..], "?");
      assert once == url + once[|url|..];
    } else {
      assert once[|url|..|url| + 1] == "?";
      assert OccursAt(once, "?", |url|);
    }
  }

  /** Where `getImageUrl` takes an image from, in the order it tries them. */
  datatype Source = FromCloudinaryUrl | FromId | FromName | FromAbsoluteUrl | FromFallback

  function SourceOf(id: Option<int>, url: Option<string>): (s: Source)
    ensures s == FromCloudinaryUrl <==> Present(url) && Contains(url.value, CloudinaryHost)
    ensures s == FromId <==> NonZero(id) && !(Present(url) && Contains(url.value, CloudinaryHost))
    ensures s == FromFallback <==> !Present(url) && !NonZero(id)
  {
    if Present(url) && Contains(url.value, CloudinaryHost) then FromCloudinaryUrl
    else if NonZero(id) then FromId
    else if Present(url) && !StartsWith(url.value, "http") then FromName
    else if Present(url) then FromAbsoluteUrl
    else FromFallback
  }

  /** A Cloudinary URL is re-transformed only when a size or a quality is asked for. */
  predicate WantsTransform(opts: ImageOptions)
  {
    NonZero(opts.width) || NonZero(opts.height) || Present(opts.quality)
  }

  /** The backend's redirect endpoint for an image id. */
  function RedirectUrl(cfg: Config, id: int, now: int): string
  {
    cfg.apiBase + "/cloudinary/redirect/" + IntToString(id) + "?t=" + IntToString(now)
  }

  function PhotoUrl(cfg: Config, name: string): string
  {
    cfg.apiBase + "/photos/" + name
  }

  /** `getImageUrl({id, url, options})`, given the failed list and the clock. */
  function ImageUrl(cfg: Config, id: Option<int>, url: Option<string>, opts: ImageOptions,
                    failed: seq<string>, now: int): (r: string)
    ensures SourceOf(id, url) == FromFallback ==> r == cfg.fallback
    ensures SourceOf(id, url) == FromAbsoluteUrl ==> r == url.value
    ensures SourceOf(id, url) == FromName ==> r == PhotoUrl(cfg, url.value)
    ensures SourceOf(id, url) == FromId && !Enabled(cfg) ==> r == PhotoUrl(cfg, IntToString(id.value))
  {
    match SourceOf(id, url)
    case FromCloudinaryUrl =>
      if FailedBefore(failed, url) then cfg.fallback
      else if Enabled(cfg) && WantsTransform(opts) then CloudinaryUrl(cfg, Some(ExtractPublicId(url)), opts)
      else url.value
    case FromId =>
      if Enabled(cfg) then
        var redirect := RedirectUrl(cfg, id.value, now);
        if FailedBefore(failed, Some(redirect)) then PhotoUrl(cfg, IntToString(id.value)) + "?t=" + IntToString(now)
        else redirect
      else PhotoUrl(cfg, IntToString(id.value))
    case FromName => PhotoUrl(cfg, url.value)
    case FromAbsoluteUrl => url.value
    case FromFallback => cfg.fallback
  }

  /**
   * A Cloudinary URL wins over an id, and an id wins over any other URL:
   * the losing argument never affects the result.
   */
  lemma ImageUrlPriority(cfg: Config, id: Option<int>, otherId: Option<int>, url: Option<string>,
                         otherUrl: Option<string>, opts: ImageOptions, failed: seq<string>, now: int)
    ensures Present(url) && Contains(url.value, CloudinaryHost) ==>
      ImageUrl(cfg, id, url, opts, failed, now) == ImageUrl(cfg, otherId, url, opts, failed, now)
    ensures (NonZero(id) && !(Present(url) && Contains(url.value, CloudinaryHost))
             && !(Present(otherUrl) && Contains(otherUrl.value, CloudinaryHost))) ==>
      ImageUrl(cfg, id, url, opts, failed, now) == ImageUrl(cfg, id, otherUrl, opts, failed, now)
  {
  }

  /** A Cloudinary URL that failed before is replaced by the fallback; one that did not is kept unless a transform is asked for. */
  lemma CloudinaryUrlChoice(cfg: Config, url: string, opts: ImageOptions, failed: seq<string>, now: int)
    requires url != "" && Contains(url, CloudinaryHost)
    ensures url in failed ==> ImageUrl(cfg, None, Some(url), opts, failed, now) == cfg.fallback
    ensures url !in failed && !(Enabled(cfg) && WantsTransform(opts)) ==>
      ImageUrl(cfg, None, Some(url), opts, failed, now) == url
  {
  }

  /** With a fallback image configured, every image gets a non-empty address to load. */
  lemma ImageUrlNonEmpty(cfg: Config, id: Option<int>, url: Option<string>, opts: ImageOptions,
                         failed: seq<string>, now: int)
    requires cfg.fallback != ""
    ensures ImageUrl(cfg, id, url, opts, failed, now) != ""
  {
  }
}
