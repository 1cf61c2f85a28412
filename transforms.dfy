/**
 * The element-by-element loops of src/services/export.js: screenshotting,
 * replacing by screenshots, fixing heights, absolutising image sources and
 * iframe links, and inlining the content of offline-ready iframes as `srcdoc`.
 *
 * Each loop walks a list of handles returned by one `$$` query, so the handles
 * are in range and distinct (`Handles`), and each changes exactly the elements
 * it is given (`MapAt`).
 */
module Transforms {
  import opened Wrappers
  import opened JsText
  import opened Links
  import opened Dom
  import opened Utils
  import opened Files
  import Config

  /** The page after applying f to each handled element, every other element unchanged. */
  function MapAt(els: seq<Element>, hs: seq<nat>, f: Element -> Element): (r: seq<Element>)
    ensures |r| == |els|
    ensures forall j :: 0 <= j < |els| ==> r[j] == if j in hs then f(els[j]) else els[j]
  {
    seq(|els|, j requires 0 <= j < |els| => if j in hs then f(els[j]) else els[j])
  }

  /** One more step of a loop over distinct handles. */
  lemma MapAtStep(els: seq<Element>, hs: seq<nat>, i: nat, f: Element -> Element)
    requires Handles(hs, els) && i < |hs|
    ensures MapAt(els, hs[..i], f)[hs[i]] == els[hs[i]]
    ensures MapAt(els, hs[..i + 1], f) == MapAt(els, hs[..i], f)[hs[i] := f(els[hs[i]])]
  {
    assert hs[i] !in hs[..i] by {
      forall k | 0 <= k < i ensures hs[..i][k] != hs[i] { }
    }
    assert hs[..i + 1] == hs[..i] + [hs[i]];
  }

  /** For-of loops visit the handles in order; the whole list is the last prefix. */
  lemma AllHandles(hs: seq<nat>)
    ensures hs[..|hs|] == hs
  {
  }

  // ---------------------------------------------------------------------------
  // screenshotElements

  /** Where the screenshot of an element with this id is written. */
  function ScreenshotPath(id: string): string {
    Config.TMP_FOLDER + "/" + id + ".png"
  }

  /** An element as screenshotElements leaves it: an existing non-empty id is kept, else `newId` is set. */
  function WithScreenshotId(el: Element, newId: string): (e: Element)
    ensures IdOf(el) != "" ==> e == el
    ensures IdOf(el) == "" ==> e == SetAttr(el, "id", newId) && IdOf(e) == newId
  {
    if IdOf(el) != "" then el else SetAttr(el, "id", newId)
  }

  /** The trace entries for screenshots taken of hs at paths. */
  function Shots(hs: seq<nat>, paths: seq<string>): (t: seq<Action>)
    requires |hs| == |paths|
    ensures |t| == |hs|
    ensures forall k :: 0 <= k < |hs| ==> t[k] == Screenshot(hs[k], paths[k])
  {
    if hs == [] then [] else Shots(hs[..|hs| - 1], paths[..|paths| - 1]) + [Screenshot(hs[|hs| - 1], paths[|paths| - 1])]
  }

  /** The body of the screenshotElements loop, for one element: `element.screenshot({ path })` writes the file. */
  method ScreenshotElement(h: nat, page: Page, newId: string, fs: FileSystem) returns (path: string)
    requires h < |page.elements|
    modifies page`elements, page`trace, fs`files
    ensures page.elements == old(page.elements)[h := WithScreenshotId(old(page.elements[h]), newId)]
    ensures path == ScreenshotPath(IdOf(page.elements[h]))
    ensures page.trace == old(page.trace) + [Screenshot(h, path)]
    ensures fs.files == old(fs.files) + {path}
  {
    var id := IdOf(page.elements[h]);
    if id == "" {
      id := newId;
      page.elements := page.elements[h := SetAttr(page.elements[h], "id", id)];
    }
    path := Config.TMP_FOLDER + "/" + id + ".png";
    page.trace := page.trace + [Screenshot(h, path)];
    fs.Write(path);
  }

  /**
   * `screenshotElements(elements, page)`: one path per element, in order, each
   * `TMP_FOLDER/<id>.png`, where an element's existing non-empty id is kept and
   * a missing or empty one is replaced by the k-th generated id, written back to
   * the element. One screenshot is taken per element, and written to its path.
   */
  method ScreenshotElements(hs: seq<nat>, page: Page, randomIds: seq<string>, fs: FileSystem) returns (paths: seq<string>)
    requires Handles(hs, page.elements)
    requires |randomIds| == |hs|
    modifies page`elements, page`trace, fs`files
    ensures |page.elements| == |old(page.elements)|
    ensures forall k :: 0 <= k < |hs| ==> page.elements[hs[k]] == WithScreenshotId(old(page.elements[hs[k]]), randomIds[k])
    ensures forall j :: 0 <= j < |page.elements| && j !in hs ==> page.elements[j] == old(page.elements[j])
    ensures |paths| == |hs|
    ensures forall k :: 0 <= k < |hs| ==> paths[k] == ScreenshotPath(IdOf(page.elements[hs[k]]))
    ensures page.trace == old(page.trace) + Shots(hs, paths)
    ensures fs.files == old(fs.files) + SetOf(paths)
  {
    ghost var els, t0, f0 := page.elements, page.trace, fs.files;
    paths := [];
    var i := 0;
    while i < |hs|
      invariant 0 <= i <= |hs|
      invariant ShotInvariant(els, page.elements, hs, randomIds, paths, i)
      invariant page.trace == t0 + Shots(hs[..i], paths)
      invariant fs.files == f0 + SetOf(paths)
    {
      ghost var before, written := page.elements, fs.files;
      var path := ScreenshotElement(hs[i], page, randomIds[i], fs);
      FilesStep(f0, written, paths, path);
      ScreenshotStep(els, before, page.elements, hs, randomIds, paths, i);
      ShotsStep(t0, hs, paths, path, i);
      paths := paths + [path];
      i := i + 1;
    }
    ScreenshotDone(els, page.elements, hs, randomIds, paths);
    AllHandles(hs);
  }

  lemma FilesStep(f0: set<string>, written: set<string>, paths: seq<string>, path: string)
    requires written == f0 + SetOf(paths)
    ensures written + {path} == f0 + SetOf(paths + [path])
  {
    SetOfConcat(paths, [path]);
  }

  lemma ShotsStep(t0: seq<Action>, hs: seq<nat>, paths: seq<string>, path: string, i: nat)
    requires i < |hs| && |paths| == i
    ensures t0 + Shots(hs[..i + 1], paths + [path]) == t0 + Shots(hs[..i], paths) + [Screenshot(hs[i], path)]
  {
    var front := Shots(hs[..i], paths);
    var a := Shots(hs[..i + 1], paths + [path]);
    var b := front + [Screenshot(hs[i], path)];
    forall k | 0 <= k < |a| ensures a[k] == b[k] {
      if k < i {
        assert hs[..i + 1][k] == hs[..i][k];
        assert (paths + [path])[k] == paths[k];
      }
    }
    assert a == b;
    SeqAssoc(t0, front, [Screenshot(hs[i], path)]);
  }

  lemma SeqAssoc<T>(a: seq<T>, b: seq<T>, c: seq<T>)
    ensures a + (b + c) == a + b + c
  {
  }

  lemma ScreenshotDone(els: seq<Element>, now: seq<Element>, hs: seq<nat>, ids: seq<string>, paths: seq<string>)
    requires Handles(hs, els) && |ids| == |hs|
    requires ShotInvariant(els, now, hs, ids, paths, |hs|)
    ensures |now| == |els| && |paths| == |hs|
    ensures forall k :: 0 <= k < |hs| ==> now[hs[k]] == WithScreenshotId(els[hs[k]], ids[k])
    ensures forall j :: 0 <= j < |els| && j !in hs ==> now[j] == els[j]
    ensures forall k :: 0 <= k < |hs| ==> paths[k] == ScreenshotPath(IdOf(now[hs[k]]))
  {
    AllHandles(hs);
  }

  /** The loop invariant of screenshotElements after i elements. */
  ghost predicate ShotInvariant(els: seq<Element>, now: seq<Element>, hs: seq<nat>, ids: seq<string>, paths: seq<string>, i: nat)
    requires Handles(hs, els) && |ids| == |hs| && i <= |hs|
  {
    && |now| == |els|
    && (forall k :: 0 <= k < i ==> now[hs[k]] == WithScreenshotId(els[hs[k]], ids[k]))
    && (forall j :: 0 <= j < |els| && j !in hs[..i] ==> now[j] == els[j])
    && |paths| == i
    && (forall k :: 0 <= k < i ==> paths[k] == ScreenshotPath(IdOf(now[hs[k]])))
  }

  lemma ScreenshotStep(els: seq<Element>, before: seq<Element>, after: seq<Element>, hs: seq<nat>,
                       ids: seq<string>, paths: seq<string>, i: nat)
    requires Handles(hs, els) && |ids| == |hs| && i < |hs|
    requires ShotInvariant(els, before, hs, ids, paths, i)
    requires after == before[hs[i] := WithScreenshotId(before[hs[i]], ids[i])]
    ensures ShotInvariant(els, after, hs, ids, paths + [ScreenshotPath(IdOf(after[hs[i]]))], i + 1)
  {
    assert hs[i] !in hs[..i] by {
      forall k | 0 <= k < i ensures hs[..i][k] != hs[i] { }
    }
    assert before[hs[i]] == els[hs[i]];
    assert hs[..i + 1] == hs[..i] + [hs[i]];
    forall k | 0 <= k < i
      ensures after[hs[k]] == before[hs[k]]
    {
      assert hs[k] != hs[i];
    }
  }

  // ---------------------------------------------------------------------------
  // replaceElementsWithScreenshots

  /** How many of the handles, from the front, name elements that have an id. */
  function LeadingWithId(els: seq<Element>, hs: seq<nat>): (n: nat)
    requires Handles(hs, els)
    ensures n <= |hs|
    ensures forall k :: 0 <= k < n ==> IdOf(els[hs[k]]) != ""
    ensures n < |hs| ==> IdOf(els[hs[n]]) == ""
  {
    if hs == [] || IdOf(els[hs[0]]) == "" then 0
    else
      assert Handles(hs[1..], els) by {
        forall j, k | 0 <= j < k < |hs[1..]| ensures hs[1..][j] != hs[1..][k] {
          assert hs[1..][j] == hs[j + 1] && hs[1..][k] == hs[k + 1];
        }
      }
      1 + LeadingWithId(els, hs[1..])
  }

  /** An element replaced by the image of its screenshot under TMP_FOLDER. */
  function ScreenshotImageInTmp(e: Element): Element {
    ScreenshotImage(e, Config.TMP_FOLDER)
  }

  /** Where the loop stops: at the first handle without an id. */
  lemma LeadingWithIdAt(els: seq<Element>, hs: seq<nat>, i: nat)
    requires Handles(hs, els) && i < |hs| && i <= LeadingWithId(els, hs)
    ensures IdOf(els[hs[i]]) == "" <==> i == LeadingWithId(els, hs)
  {
  }

  /**
   * `replaceElementsWithScreenshots(elements, page)`: every element is replaced
   * in place by the image of its screenshot under TMP_FOLDER, in order; the first
   * element without an id stops the loop with an error, leaving the ones before it
   * replaced and the rest untouched.
   */
  method ReplaceElementsWithScreenshots(hs: seq<nat>, page: Page) returns (r: Outcome<Fault>)
    requires Handles(hs, page.elements)
    modifies page`elements
    ensures var n := LeadingWithId(old(page.elements), hs);
      && (r.Pass? <==> n == |hs|)
      && (r.Fail? ==> r.error == MissingId(hs[n]))
      && page.elements == MapAt(old(page.elements), hs[..n], ScreenshotImageInTmp)
  {
    ghost var els := page.elements;
    ghost var n := LeadingWithId(els, hs);
    var f := ScreenshotImageInTmp;
    var i := 0;
    while i < |hs|
      invariant 0 <= i <= n
      invariant page.elements == MapAt(els, hs[..i], f)
    {
      MapAtStep(els, hs, i, f);
      var res := ReplaceElementWithScreenshot(page, hs[i], Config.TMP_FOLDER);
      LeadingWithIdAt(els, hs, i);
      if res.Fail? {
        return res;
      }
      i := i + 1;
    }
    AllHandles(hs);
    r := Pass;
  }

  // ---------------------------------------------------------------------------
  // adjustHeightForElements

  /** An element whose style height has been set to its rendered height. */
  function Stretched(el: Element): (e: Element)
    ensures e.styleHeight == Some(HeightStyle(el))
    ensures e.kind == el.kind && e.attrs == el.attrs && e.clientHeight == el.clientHeight
  {
    el.(styleHeight := Some(HeightStyle(el)))
  }

  /** `adjustHeightForElements(elements, page)`: each element's height is fixed to its content height. */
  method AdjustHeightForElements(hs: seq<nat>, page: Page)
    requires Handles(hs, page.elements)
    modifies page`elements
    ensures page.elements == MapAt(old(page.elements), hs, Stretched)
  {
    ghost var els := page.elements;
    var i := 0;
    while i < |hs|
      invariant 0 <= i <= |hs|
      invariant page.elements == MapAt(els, hs[..i], Stretched)
    {
      MapAtStep(els, hs, i, Stretched);
      AdjustElementHeight(page, hs[i]);
      i := i + 1;
    }
    AllHandles(hs);
  }

  // ---------------------------------------------------------------------------
  // makeImageSourcesAbsolute

  /** How many of the handles, from the front, name elements that have a `src` attribute. */
  function LeadingWithSrc(els: seq<Element>, hs: seq<nat>): (n: nat)
    requires Handles(hs, els)
    ensures n <= |hs|
    ensures forall k :: 0 <= k < n ==> "src" in els[hs[k]].attrs
    ensures n < |hs| ==> "src" !in els[hs[n]].attrs
  {
    if hs == [] || "src" !in els[hs[0]].attrs then 0
    else
      assert Handles(hs[1..], els) by {
        forall j, k | 0 <= j < k < |hs[1..]| ensures hs[1..][j] != hs[1..][k] {
          assert hs[1..][j] == hs[j + 1] && hs[1..][k] == hs[k + 1];
        }
      }
      1 + LeadingWithSrc(els, hs[1..])
  }

  /** Where the image loop stops: at the first handle without a `src`. */
  lemma LeadingWithSrcAt(els: seq<Element>, hs: seq<nat>, i: nat)
    requires Handles(hs, els) && i < |hs| && i <= LeadingWithSrc(els, hs)
    ensures "src" !in els[hs[i]].attrs <==> i == LeadingWithSrc(els, hs)
  {
  }

  /** One image with its source made absolute against host (an image without a source is not reached). */
  function AbsoluteImage(el: Element, host: string): (e: Element)
    ensures "src" in el.attrs ==> Attr(e, "src") == Some(ImageSource(el.attrs["src"], host))
    ensures e.kind == el.kind
    ensures forall a :: a != "src" ==> Attr(e, a) == Attr(el, a)
  {
    if "src" !in el.attrs then el
    else
      var src := el.attrs["src"];
      if !(StartsWith(src, "//") || StartsWith(src, "http")) then SetAttr(el, "src", host + src) else el
  }

  /**
   * `makeImageSourcesAbsolute(imgs, host)`: every image source is made absolute
   * (`ImageSource`); an image without a `src` fails the `forEach` there, with the
   * images before it already rewritten.
   */
  method MakeImageSourcesAbsolute(hs: seq<nat>, page: Page, host: string) returns (r: Outcome<Fault>)
    requires Handles(hs, page.elements)
    modifies page`elements
    ensures var n := LeadingWithSrc(old(page.elements), hs);
      && (r.Pass? <==> n == |hs|)
      && (r.Fail? ==> r.error == NullAttribute("src"))
      && page.elements == MapAt(old(page.elements), hs[..n], e => AbsoluteImage(e, host))
  {
    ghost var els := page.elements;
    ghost var n := LeadingWithSrc(els, hs);
    var f := (e: Element) => AbsoluteImage(e, host);
    var i := 0;
    while i < |hs|
      invariant 0 <= i <= n
      invariant page.elements == MapAt(els, hs[..i], f)
    {
      MapAtStep(els, hs, i, f);
      var res := MakeImageSourceAbsolute(page, hs[i], host);
      LeadingWithSrcAt(els, hs, i);
      if res.Fail? {
        return res;
      }
      i := i + 1;
    }
    AllHandles(hs);
    r := Pass;
  }

  /** The body of the `forEach` in makeImageSourcesAbsolute, for one image. */
  method MakeImageSourceAbsolute(page: Page, h: nat, host: string) returns (r: Outcome<Fault>)
    requires h < |page.elements|
    modifies page`elements
    ensures r.Fail? <==> "src" !in old(page.elements[h]).attrs
    ensures r.Fail? ==> r.error == NullAttribute("src") && page.elements == old(page.elements)
    ensures r.Pass? ==> page.elements == old(page.elements)[h := AbsoluteImage(old(page.elements[h]), host)]
  {
    var img := page.elements[h];
    var imgSrc := Attr(img, "src");
    if imgSrc.None? {
      return Fail(NullAttribute("src"));
    }
    if !(StartsWith(imgSrc.value, "//") || StartsWith(imgSrc.value, "http")) {
      page.elements := page.elements[h := SetAttr(img, "src", host + imgSrc.value)];
    }
    assert AbsoluteImage(img, host) == page.elements[h];
    r := Pass;
  }

  // ---------------------------------------------------------------------------
  // prepareIframes (with the older makeElementLinkAbsolute)

  /** The older link helper applied to one element's attribute. */
  function LegacyAbsolute(el: Element, attrName: string, baseUrl: string): (e: Element)
    ensures LegacyRewrite(Attr(el, attrName), baseUrl).Some? ==>
              e == SetAttr(el, attrName, LegacyRewrite(Attr(el, attrName), baseUrl).value)
    ensures LegacyRewrite(Attr(el, attrName), baseUrl).None? ==> e == el
  {
    match LegacyRewrite(Attr(el, attrName), baseUrl)
    case None => el
    case Some(v) => SetAttr(el, attrName, v)
  }

  /** `prepareIframes(iframes, attrName, baseUrl, page)`: the older link helper on every iframe. */
  method PrepareIframes(hs: seq<nat>, attrName: string, baseUrl: string, page: Page)
    requires Handles(hs, page.elements)
    modifies page`elements
    ensures page.elements == MapAt(old(page.elements), hs, e => LegacyAbsolute(e, attrName, baseUrl))
  {
    ghost var els := page.elements;
    var f := (e: Element) => LegacyAbsolute(e, attrName, baseUrl);
    var i := 0;
    while i < |hs|
      invariant 0 <= i <= |hs|
      invariant page.elements == MapAt(els, hs[..i], f)
    {
      MapAtStep(els, hs, i, f);
      var iframe := page.elements[hs[i]];
      var url := Attr(iframe, attrName);
      if url.Some? && url.value != "" {
        if StartsWith(url.value, "./") {
          page.elements := page.elements[hs[i] := SetAttr(iframe, attrName, baseUrl + url.value[2..])];
        } else if StartsWith(url.value, "//") {
          page.elements := page.elements[hs[i] := SetAttr(iframe, attrName, "https:" + url.value)];
        }
      }
      i := i + 1;
    }
    AllHandles(hs);
  }

  // ---------------------------------------------------------------------------
  // retrieveUrls

  /** `retrieveUrls(iframes, page)`: the `src` of every iframe, in order, null where absent. */
  method RetrieveUrls(hs: seq<nat>, page: Page) returns (urls: seq<Option<string>>)
    requires Handles(hs, page.elements)
    ensures |urls| == |hs|
    ensures forall k :: 0 <= k < |hs| ==> urls[k] == Attr(page.elements[hs[k]], "src")
  {
    urls := [];
    for i := 0 to |hs|
      invariant |urls| == i
      invariant forall k :: 0 <= k < i ==> urls[k] == Attr(page.elements[hs[k]], "src")
    {
      var url := Attr(page.elements[hs[i]], "src");
      urls := urls + [url];
    }
  }

  /** The srcs `retrieveUrls` returns for the handles on a page. */
  function Srcs(els: seq<Element>, hs: seq<nat>): (r: seq<Option<string>>)
    requires Handles(hs, els)
    ensures |r| == |hs|
    ensures forall k :: 0 <= k < |hs| ==> r[k] == Attr(els[hs[k]], "src")
  {
    seq(|hs|, k requires 0 <= k < |hs| => Attr(els[hs[k]], "src"))
  }

  // ---------------------------------------------------------------------------
  // the child-frame loop of replaceSrcWithSrcdocInIframe

  /**
   * A child frame of the page as the loop sees it: its url and its content, each
   * None when asking the browser for it throws.
   */
  datatype Frame = Frame(url: Option<string>, content: Option<string>)

  /** Whether the loop stores this frame's content. */
  predicate Stored(f: Frame, urls: seq<Option<string>>) {
    f.url.Some? && Some(f.url.value) in urls && f.content.Some?
  }

  /**
   * The content map after the loop has seen `frames`: a frame whose url is one
   * of the collected iframe srcs contributes its encoded content under its url; a
   * frame whose url or content throws is skipped; a later frame with the same url
   * overwrites an earlier one.
   */
  function FrameContents(frames: seq<Frame>, urls: seq<Option<string>>, encode: string -> string): map<string, string> {
    if frames == [] then map[]
    else
      var m := FrameContents(frames[..|frames| - 1], urls, encode);
      var f := frames[|frames| - 1];
      if Stored(f, urls) then m[f.url.value := encode(f.content.value)] else m
  }

  /** The map has a key exactly for the urls of stored frames: every key is a collected iframe src. */
  lemma {:induction false} FrameContentsKeys(frames: seq<Frame>, urls: seq<Option<string>>, encode: string -> string, u: string)
    ensures u in FrameContents(frames, urls, encode) <==>
            exists i :: 0 <= i < |frames| && Stored(frames[i], urls) && frames[i].url == Some(u)
    ensures u in FrameContents(frames, urls, encode) ==> Some(u) in urls
  {
    if frames != [] {
      var init := frames[..|frames| - 1];
      FrameContentsKeys(init, urls, encode, u);
      if u in FrameContents(init, urls, encode) {
        var i :| 0 <= i < |init| && Stored(init[i], urls) && init[i].url == Some(u);
        assert frames[i] == init[i];
      }
      if exists i :: 0 <= i < |frames| && Stored(frames[i], urls) && frames[i].url == Some(u) {
        var i :| 0 <= i < |frames| && Stored(frames[i], urls) && frames[i].url == Some(u);
        if i < |init| { assert init[i] == frames[i]; }
      }
    }
  }

  /** The value under a url is the encoded content of the last stored frame with that url. */
  lemma {:induction false} FrameContentsLastWins(frames: seq<Frame>, urls: seq<Option<string>>, encode: string -> string, i: nat)
    requires i < |frames| && Stored(frames[i], urls)
    requires forall j :: i < j < |frames| ==> !(Stored(frames[j], urls) && frames[j].url == frames[i].url)
    ensures frames[i].url.value in FrameContents(frames, urls, encode)
    ensures FrameContents(frames, urls, encode)[frames[i].url.value] == encode(frames[i].content.value)
  {
    var init := frames[..|frames| - 1];
    if i < |frames| - 1 {
      assert init[i] == frames[i];
      forall j | i < j < |init| ensures !(Stored(init[j], urls) && init[j].url == init[i].url) {
        assert init[j] == frames[j];
      }
      FrameContentsLastWins(init, urls, encode, i);
    }
  }

  /** The loop over `page.mainFrame().childFrames()` that fills the content map. */
  method CollectFrameContents(frames: seq<Frame>, urls: seq<Option<string>>, encode: string -> string)
    returns (contents: map<string, string>)
    ensures contents == FrameContents(frames, urls, encode)
  {
    contents := map[];
    for i := 0 to |frames|
      invariant contents == FrameContents(frames[..i], urls, encode)
    {
      assert frames[..i + 1][..i] == frames[..i];
      var frame := frames[i];
      if frame.url.Some? {
        var url := frame.url.value;
        if Some(url) in urls && frame.content.Some? {
          contents := contents[url := encode(frame.content.value)];
        }
      }
    }
    assert frames[..|frames|] == frames;
  }

  // ---------------------------------------------------------------------------
  // addSrcdocWithContentToIframe(s)

  /**
   * `addSrcdocWithContentToIframe(iframe, contents)`: `srcdoc` becomes the content
   * stored under the iframe's src (a null src looks up the key "null"; a key with
   * no content stores the string "undefined"), and `src` is removed.
   */
  function InlineSrcdoc(el: Element, contents: map<string, string>): (e: Element)
    ensures Attr(e, "src") == None
    ensures var key := Attr(el, "src").GetOr("null");
            Attr(e, "srcdoc") == Some(if key in contents then contents[key] else "undefined")
    ensures forall a :: a != "src" && a != "srcdoc" ==> Attr(e, a) == Attr(el, a)
    ensures e.kind == el.kind && e.styleHeight == el.styleHeight
  {
    var key := Attr(el, "src").GetOr("null");
    RemoveAttr(SetAttr(el, "srcdoc", if key in contents then contents[key] else "undefined"), "src")
  }

  /** `addSrcdocWithContentToIframes(iframes, contents, page)` */
  method AddSrcdocWithContentToIframes(hs: seq<nat>, contents: map<string, string>, page: Page)
    requires Handles(hs, page.elements)
    modifies page`elements
    ensures page.elements == MapAt(old(page.elements), hs, e => InlineSrcdoc(e, contents))
  {
    ghost var els := page.elements;
    var f := (e: Element) => InlineSrcdoc(e, contents);
    var i := 0;
    while i < |hs|
      invariant 0 <= i <= |hs|
      invariant page.elements == MapAt(els, hs[..i], f)
    {
      MapAtStep(els, hs, i, f);
      page.elements := page.elements[hs[i] := InlineSrcdoc(page.elements[hs[i]], contents)];
      i := i + 1;
    }
    AllHandles(hs);
  }

  // ---------------------------------------------------------------------------
  // replaceSrcWithSrcdocInIframe

  /**
   * `replaceSrcWithSrcdocInIframe(elements, page)`: read the base URL from the
   * page's base element (failing when there is none), absolutise the iframes'
   * `src` with the older link helper, wait for them to reload, collect their
   * srcs, fill the content map from the child frames, and inline each iframe's
   * content as `srcdoc` in place of its `src`.
   */
  method ReplaceSrcWithSrcdocInIframe(hs: seq<nat>, page: Page, frames: seq<Frame>, encode: string -> string)
    returns (r: Outcome<Fault>)
    requires Handles(hs, page.elements)
    modifies page`elements, page`trace
    ensures r.Fail? <==> First(Base, old(page.elements)).None?
    ensures r.Fail? ==> r.error == NoMatch(Base) && page.elements == old(page.elements) && page.trace == old(page.trace)
    ensures r.Pass? ==>
      var base := BaseUrl(Attr(old(page.elements)[First(Base, old(page.elements)).value], "href"));
      var prepared := MapAt(old(page.elements), hs, e => LegacyAbsolute(e, "src", base));
      var contents := FrameContents(frames, Srcs(prepared, hs), encode);
      && page.elements == MapAt(prepared, hs, e => InlineSrcdoc(e, contents))
      && page.trace == old(page.trace) + [Wait(Config.IFRAME_RELOAD_MS)]
  {
    var baseElement := First(Base, page.elements);
    if baseElement.None? {
      return Fail(NoMatch(Base));
    }
    var mainBaseUrl := BaseUrl(Attr(page.elements[baseElement.value], "href"));
    PrepareIframes(hs, "src", mainBaseUrl, page);
    page.trace := page.trace + [Wait(Config.IFRAME_RELOAD_MS)];
    var urls := RetrieveUrls(hs, page);
    assert urls == Srcs(page.elements, hs);
    var iframesSrcdoc := CollectFrameContents(frames, urls, encode);
    AddSrcdocWithContentToIframes(hs, iframesSrcdoc, page);
    r := Pass;
  }

  /**
   * After inlining, every handled iframe has no `src` and a `srcdoc` equal to the
   * content stored under its (absolutised) src, and no other element changed.
   */
  lemma InlinedIframes(prepared: seq<Element>, hs: seq<nat>, contents: map<string, string>, k: nat)
    requires Handles(hs, prepared) && k < |hs|
    ensures var after := MapAt(prepared, hs, e => InlineSrcdoc(e, contents));
            var src := Attr(prepared[hs[k]], "src");
            && Attr(after[hs[k]], "src") == None
            && (src.Some? && src.value in contents ==> Attr(after[hs[k]], "srcdoc") == Some(contents[src.value]))
  {
    assert hs[k] in hs;
  }
}
