/**
 * The page-context primitives of src/services/utils.js: absolutising one link
 * attribute, replacing an element by its screenshot, fixing an element's height,
 * and reading the content of the phase sections.
 */
module Utils {
  import opened Wrappers
  import opened JsText
  import opened Links
  import opened Dom

  /**
   * `makeElementLinkAbsolute(el, attrName, baseUrl)`. The base is checked before
   * anything else, so an invalid base fails even without an element. A missing
   * element or an empty attribute name does nothing. Otherwise the attribute's
   * value is rewritten by `AbsoluteLink`; an attribute that is absent reads as
   * null, and calling `startsWith` on it fails.
   */
  method MakeElementLinkAbsolute(page: Page, el: Option<nat>, attrName: string, baseUrl: string)
    returns (r: Outcome<Fault>)
    requires el.Some? ==> el.value < |page.elements|
    modifies page`elements
    ensures !IsValidBase(baseUrl) ==> r == Fail(InvalidBaseUrl) && page.elements == old(page.elements)
    ensures IsValidBase(baseUrl) && (el.None? || attrName == "") ==>
              r == Pass && page.elements == old(page.elements)
    ensures IsValidBase(baseUrl) && el.Some? && attrName != "" && attrName !in old(page.elements[el.value].attrs) ==>
              r == Fail(NullAttribute(attrName)) && page.elements == old(page.elements)
    ensures IsValidBase(baseUrl) && el.Some? && attrName != "" && attrName in old(page.elements[el.value].attrs) ==>
              var e := old(page.elements[el.value]);
              r == Pass && page.elements == old(page.elements)[el.value := SetAttr(e, attrName, AbsoluteLink(e.attrs[attrName], baseUrl))]
  {
    if !EndsWith(baseUrl, "/") || !StartsWith(baseUrl, "http") {
      return Fail(InvalidBaseUrl);
    }
    if el.None? || attrName == "" {
      return Pass;
    }
    var e := page.elements[el.value];
    var attr := Attr(e, attrName);
    if attr.None? {
      return Fail(NullAttribute(attrName));
    }
    var url := attr.value;
    if StartsWith(url, "./") {
      url := baseUrl + url[2..];
    } else if StartsWith(url, "//") {
      url := "https:" + url;
    } else if !StartsWith(url, "http") {
      url := baseUrl + url;
    }
    page.elements := page.elements[el.value := SetAttr(e, attrName, url)];
    r := Pass;
  }

  /**
   * The image that replaces a screenshotted element: its source is
   * `<folder>/<id>.png` and its alt text the element's title (assigning a null
   * title to `img.alt` stores the string "null").
   */
  function ScreenshotImage(el: Element, folder: string): (img: Element)
    ensures img.kind == Image
    ensures Attr(img, "src") == Some(folder + "/" + IdOf(el) + ".png")
    ensures Attr(img, "title") == None && Attr(img, "id") == None
    ensures Attr(el, "title").Some? ==> Attr(img, "alt") == Attr(el, "title")
  {
    Element(Image, map["src" := folder + "/" + IdOf(el) + ".png", "alt" := Attr(el, "title").GetOr("null")], 0, None, "")
  }

  /**
   * `replaceElementWithScreenshot(el, path)`: an element without an id (absent or
   * empty) is refused; otherwise it is replaced in place by its screenshot image
   * and nothing else on the page changes.
   */
  method ReplaceElementWithScreenshot(page: Page, el: nat, path: string) returns (r: Outcome<Fault>)
    requires el < |page.elements|
    modifies page`elements
    ensures r.Fail? <==> IdOf(old(page.elements[el])) == ""
    ensures r.Fail? ==> r.error == MissingId(el) && page.elements == old(page.elements)
    ensures r.Pass? ==> page.elements == old(page.elements)[el := ScreenshotImage(old(page.elements[el]), path)]
  {
    var id := Attr(page.elements[el], "id");
    if id.None? || id.value == "" {
      return Fail(MissingId(el));
    }
    page.elements := page.elements[el := ScreenshotImage(page.elements[el], path)];
    r := Pass;
  }

  /** The style height `adjustElementHeight` writes: the rendered height in pixels. */
  function HeightStyle(el: Element): (h: string)
    ensures EndsWith(h, "px") && |h| > 2
    ensures forall i :: 0 <= i < |h| - 2 ==> '0' <= h[i] <= '9'
    ensures ParseDigits(h[..|h| - 2]) == el.clientHeight
  {
    var h := NatToString(el.clientHeight) + "px";
    assert h[..|h| - 2] == NatToString(el.clientHeight);
    NatToStringRoundTrip(el.clientHeight);
    h
  }

  /** `adjustElementHeight(el)`: the style height becomes the element's client height in pixels. */
  method AdjustElementHeight(page: Page, el: nat)
    requires el < |page.elements|
    modifies page`elements
    ensures page.elements == old(page.elements)[el := old(page.elements[el]).(styleHeight := Some(HeightStyle(old(page.elements[el]))))]
  {
    var e := page.elements[el];
    var height := e.clientHeight;
    page.elements := page.elements[el := e.(styleHeight := Some(NatToString(height) + "px"))];
  }

  /** The chapter `getSubpagesContent` builds for one phase, or the failure of reading a missing element. */
  function SubpageChapter(p: PhaseNode): (r: Result<Chapter, Fault>)
    ensures r.Success? <==> p.title.Some? && p.resources.Some?
    ensures r.Success? ==> r.value.title == p.title
    ensures r.Success? ==> r.value.data == Some(p.description.GetOr("") + p.resources.value)
  {
    if p.resources.None? then Failure(NullElement("resources"))
    else if p.title.None? then Failure(NullElement("title"))
    else Success(Chapter(p.title, Some(p.description.GetOr("") + p.resources.value)))
  }

  /**
   * `getSubpagesContent(phases, ...)`: one chapter per phase, in order, each
   * titled by the phase title's HTML and holding the description's outer HTML
   * (or nothing) followed by the resources' HTML; a phase without a title or
   * resources element fails the whole map.
   */
  function GetSubpagesContent(phases: seq<PhaseNode>): (r: Result<seq<Chapter>, Fault>)
    ensures r.Success? <==> forall i :: 0 <= i < |phases| ==> SubpageChapter(phases[i]).Success?
    ensures r.Success? ==> |r.value| == |phases|
    ensures r.Success? ==> forall i :: 0 <= i < |phases| ==> r.value[i] == SubpageChapter(phases[i]).value
  {
    if phases == [] then Success([])
    else
      match SubpageChapter(phases[0])
      case Failure(e) => Failure(e)
      case Success(c) =>
        match GetSubpagesContent(phases[1..])
        case Failure(e) => Failure(e)
        case Success(cs) =>
          assert forall i :: 1 <= i < |phases| ==> phases[i] == phases[1..][i - 1];
          Success([c] + cs)
  }
}
