/**
 * The exporter's link and URL normalisers, as pure functions on strings.
 *
 * `AbsoluteLink` is the rewrite of src/services/utils.js; `LegacyRewrite`,
 * `ImageSource`, `Background` and `BaseUrl` are the older helpers of
 * src/services/export.js. The element-level wrappers that read and write the
 * attribute are in module Dom.
 */
module Links {
  import opened JsText
  import opened Wrappers

  /** A base URL the link rewrite accepts: it begins with `http` and ends with `/`. */
  predicate IsValidBase(baseUrl: string) {
    EndsWith(baseUrl, "/") && StartsWith(baseUrl, "http")
  }

  /**
   * The value written back for link `url` against `baseUrl`: a `./x` link is
   * resolved against the base, a network-path reference `//h/x` (section 4.2 of
   * RFC 3986) gets the `https:` scheme, any other link without an `http` prefix
   * is appended to the base, and an `http` link is kept.
   */
  function AbsoluteLink(url: string, baseUrl: string): (r: string)
    ensures IsValidBase(baseUrl) ==> StartsWith(r, "http")
  {
    if StartsWith(url, "./") then baseUrl + url[2..]
    else if StartsWith(url, "//") then "https:" + url
    else if !StartsWith(url, "http") then baseUrl + url
    else url
  }

  /** Each case of the rewrite, as the source's tests exercise them. */
  lemma AbsoluteLinkCases(url: string, baseUrl: string)
    ensures StartsWith(url, "./") ==> AbsoluteLink(url, baseUrl) == baseUrl + url[2..]
    ensures StartsWith(url, "//") ==> AbsoluteLink(url, baseUrl) == "https:" + url
    ensures StartsWith(url, "http") ==> AbsoluteLink(url, baseUrl) == url
    ensures !StartsWith(url, "./") && !StartsWith(url, "//") && !StartsWith(url, "http")
            ==> AbsoluteLink(url, baseUrl) == baseUrl + url
  {
    if StartsWith(url, "http") {
      HttpIsNotRelative(url);
    }
  }

  /** With a valid base, the links the rewrite leaves alone are exactly the `http` ones. */
  lemma AbsoluteLinkFixedPoints(url: string, baseUrl: string)
    requires IsValidBase(baseUrl)
    ensures AbsoluteLink(url, baseUrl) == url <==> StartsWith(url, "http")
  {
    var r := AbsoluteLink(url, baseUrl);
    if StartsWith(url, "http") {
      HttpIsNotRelative(url);
    } else if StartsWith(url, "./") {
      assert r != url by {
        if r == url { HttpIsNotRelative(r); }
      }
    } else {
      assert |r| > |url|;
    }
  }

  /** With a valid base, rewriting an already rewritten link changes nothing. */
  lemma AbsoluteLinkIdempotent(url: string, baseUrl: string)
    requires IsValidBase(baseUrl)
    ensures AbsoluteLink(AbsoluteLink(url, baseUrl), baseUrl) == AbsoluteLink(url, baseUrl)
  {
    AbsoluteLinkFixedPoints(AbsoluteLink(url, baseUrl), baseUrl);
  }

  /** The concrete links of the source's test suite for this helper. */
  lemma DotSlashExample()
    ensures AbsoluteLink("./example.com", "https://example.com/") == "https://example.com/example.com"
  {
    assert StartsWith("./example.com", "./");
  }

  lemma BareHostExample()
    ensures AbsoluteLink("example.com", "https://example.com/") == "https://example.com/example.com"
  {
    NotPrefixAt("example.com", "./", 0);
    NotPrefixAt("example.com", "//", 0);
    NotPrefixAt("example.com", "http", 0);
  }

  lemma ProtocolRelativeExample()
    ensures AbsoluteLink("//example.com", "https://example.com/") == "https://example.com"
  {
    assert StartsWith("//example.com", "//");
    NotPrefixAt("//example.com", "./", 0);
  }

  lemma HttpExample()
    ensures AbsoluteLink("http://example.com", "https://example.com/") == "http://example.com"
  {
    assert StartsWith("http://example.com", "http");
    HttpIsNotRelative("http://example.com");
  }

  lemma InvalidBaseExamples()
    ensures !IsValidBase("https:/example.com") && !IsValidBase("example.com/")
  {
    assert "https:/example.com"[17] == 'm';
    assert !EndsWith("https:/example.com", "/");
    NotPrefixAt("example.com/", "http", 0);
  }

  /**
   * The older link helper of src/services/export.js: the value it writes back for
   * attribute value `url` (None when the attribute is absent or empty, or the
   * link starts with neither `./` nor `//`, in which case nothing is written).
   * The base is not validated.
   */
  function LegacyRewrite(url: Option<string>, baseUrl: string): (r: Option<string>)
    ensures r.Some? <==> url.Some? && (StartsWith(url.value, "./") || StartsWith(url.value, "//"))
  {
    match url
    case None => None
    case Some(u) =>
      if u == "" then None
      else if StartsWith(u, "./") then Some(baseUrl + u[2..])
      else if StartsWith(u, "//") then Some("https:" + u)
      else None
  }

  /**
   * Where the older helper writes, it writes what `AbsoluteLink` would; an `http`
   * link is left alone by both.
   */
  lemma LegacyAgreesWhereItWrites(u: string, baseUrl: string)
    ensures LegacyRewrite(Some(u), baseUrl).Some? ==> LegacyRewrite(Some(u), baseUrl).value == AbsoluteLink(u, baseUrl)
    ensures StartsWith(u, "http") ==> LegacyRewrite(Some(u), baseUrl) == None && AbsoluteLink(u, baseUrl) == u
  {
    if StartsWith(u, "http") {
      HttpIsNotRelative(u);
    }
  }

  /**
   * The older helper is weaker: a plain relative link stays relative, where the
   * newer one resolves it against the base.
   */
  lemma LegacyLeavesRelativeLinks(u: string, baseUrl: string)
    requires IsValidBase(baseUrl)
    requires u != "" && !StartsWith(u, "./") && !StartsWith(u, "//") && !StartsWith(u, "http")
    ensures LegacyRewrite(Some(u), baseUrl) == None
    ensures AbsoluteLink(u, baseUrl) != u
  {
    AbsoluteLinkFixedPoints(u, baseUrl);
  }

  /** `makeImageSourcesAbsolute`, per image: a source that is neither `//` nor `http` gets the host prefixed. */
  function ImageSource(src: string, host: string): (r: string)
    ensures StartsWith(host, "http") ==> StartsWith(r, "//") || StartsWith(r, "http")
    ensures r == src <==> StartsWith(src, "//") || StartsWith(src, "http") || host == ""
  {
    if !(StartsWith(src, "//") || StartsWith(src, "http")) then host + src else src
  }

  /** Once an image source is made absolute against an `http` host, doing it again changes nothing. */
  lemma ImageSourceIdempotent(src: string, host: string)
    requires StartsWith(host, "http")
    ensures ImageSource(ImageSource(src, host), host) == ImageSource(src, host)
  {
  }

  /**
   * `getBackground`: the header's `data-background-image` made absolute, or None
   * when the data attribute is absent or empty.
   */
  function Background(data: Option<string>, host: string): (r: Option<string>)
    ensures r.Some? <==> data.Some? && data.value != ""
    ensures r.Some? && StartsWith(host, "http") ==> StartsWith(r.value, "http")
    ensures r.Some? && StartsWith(data.value, "http") ==> r.value == data.value
  {
    match data
    case None => None
    case Some(u) =>
      if u == "" then None
      else if StartsWith(u, "//") then
        HttpIsNotRelativeContra(u); Some("https:" + u)
      else if !StartsWith(u, "http") then Some(host + u)
      else Some(u)
  }

  /** Making a background URL absolute twice gives what once gives. */
  lemma BackgroundIdempotent(data: string, host: string)
    requires data != "" && StartsWith(host, "http")
    ensures Background(Some(Background(Some(data), host).value), host) == Background(Some(data), host)
  {
    var r := Background(Some(data), host).value;
    assert r != "" by { assert |r| >= 4; }
  }

  /**
   * `retrieveBaseUrl` of src/services/export.js: the base element's `href`,
   * `https://` when the attribute is absent, `https:` plus the href minus its
   * first character for a `//` reference, and the href itself otherwise.
   */
  function BaseUrl(href: Option<string>): (r: string)
    ensures href.None? ==> r == "https://"
    ensures href.Some? && StartsWith(href.value, "//") ==> r == "https:" + href.value[1..]
    ensures href.Some? && !StartsWith(href.value, "//") ==> r == href.value
  {
    match href
    case None => "https://"
    case Some(u) => if StartsWith(u, "//") then "https:" + Substring(u, 1) else u
  }

  /**
   * A `//host` base keeps only one slash after the scheme, an empty href stays
   * empty, and a base without a trailing slash gets none added.
   */
  lemma BaseUrlExamples()
    ensures BaseUrl(Some("//example.com")) == "https:/example.com"
    ensures BaseUrl(Some("")) == ""
    ensures BaseUrl(Some("https://example.com")) == "https://example.com"
    ensures BaseUrl(None) == "https://"
  {
    assert StartsWith("//example.com", "//");
    NotPrefixAt("https://example.com", "//", 0);
    assert !StartsWith("", "//");
  }

  /** A base URL is the href itself unless the href is absent or a network-path reference. */
  lemma BaseUrlKeepsOtherHrefs(href: string)
    ensures BaseUrl(Some(href)) == href <==> !StartsWith(href, "//")
  {
    if StartsWith(href, "//") {
      assert |BaseUrl(Some(href))| == |href| + 5;
    }
  }
}
