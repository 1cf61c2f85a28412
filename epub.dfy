/**
 * Assembling an EPUB from the exported page (`saveEpub`) and handing it to the
 * epub library (`generateEpub`): the strategy chosen for each widget category,
 * the chapter list and its filter, the screenshot list, and the clean-up of the
 * temporary files.
 */
module Epub {
  import opened Wrappers
  import opened JsText
  import opened Links
  import opened Dom
  import opened Utils
  import opened Transforms
  import opened Entities
  import opened Files
  import Config

  // ---------------------------------------------------------------------------
  // Frame conditions across the widget passes

  /**
   * `b` is `a` after passes over the kinds in `touched`: elements of any other
   * kind are unchanged, and an element either keeps its kind or became an image.
   */
  ghost predicate Kept(a: seq<Element>, b: seq<Element>, touched: set<Kind>) {
    && |b| == |a|
    && forall i :: 0 <= i < |a| ==>
         && (a[i].kind !in touched ==> b[i] == a[i])
         && (b[i].kind == a[i].kind || b[i].kind == Image)
  }

  lemma KeptTrans(a: seq<Element>, b: seq<Element>, c: seq<Element>, s: set<Kind>, t: set<Kind>)
    requires Kept(a, b, s) && Kept(b, c, t)
    ensures Kept(a, c, s + t)
  {
  }

  /** A kind no pass touched answers every query as before. */
  lemma KeptSelect(a: seq<Element>, b: seq<Element>, touched: set<Kind>, kind: Kind)
    requires Kept(a, b, touched) && kind !in touched && kind != Image
    ensures Select(kind, b) == Select(kind, a) && First(kind, b) == First(kind, a)
    ensures forall i :: 0 <= i < |a| && a[i].kind == kind ==> b[i] == a[i]
  {
    SameKinds(kind, a, b);
  }

  lemma CountKept(a: seq<Element>, b: seq<Element>, touched: set<Kind>, kind: Kind)
    requires Kept(a, b, touched) && kind !in touched && kind != Image
    ensures Count(kind, b) == Count(kind, a)
  {
    KeptSelect(a, b, touched, kind);
    CountSelect(kind, a);
    CountSelect(kind, b);
  }

  /** A kind that no element has does not reappear. */
  lemma KeptAbsent(a: seq<Element>, b: seq<Element>, touched: set<Kind>, kind: Kind)
    requires Kept(a, b, touched) && kind != Image
    requires forall i :: 0 <= i < |a| ==> a[i].kind != kind
    ensures forall i :: 0 <= i < |b| ==> b[i].kind != kind
  {
  }

  /** A pass over the handles of one kind leaves every other element alone. */
  lemma MapAtKept(els: seq<Element>, hs: seq<nat>, f: Element -> Element, kind: Kind)
    requires Handles(hs, els) && forall k :: 0 <= k < |hs| ==> els[hs[k]].kind == kind
    requires forall k :: 0 <= k < |hs| ==> f(els[hs[k]]).kind == kind || f(els[hs[k]]).kind == Image
    ensures Kept(els, MapAt(els, hs, f), {kind})
  {
    var r := MapAt(els, hs, f);
    forall i | 0 <= i < |els|
      ensures (els[i].kind !in {kind} ==> r[i] == els[i]) && (r[i].kind == els[i].kind || r[i].kind == Image)
    {
      if i in hs {
        var k :| 0 <= k < |hs| && hs[k] == i;
      }
    }
  }

  // ---------------------------------------------------------------------------
  // Strategy per widget category

  /** The categories `saveEpub` handles one after the other. */
  predicate IsWidget(kind: Kind) {
    kind == Gadget || kind == Lab || kind == ObjectDoc || kind == Audio
    || kind == Embedded || kind == OfflineIframe || kind == Unsupported
  }

  datatype Strategy = FixHeight | Inline | ScreenshotAndReplace

  /**
   * Interactive exports keep gadgets, labs, objects, audio and embeds live (only
   * their height is fixed) and inline offline-ready iframes; everything else,
   * and unsupported content always, becomes a screenshot.
   */
  function StrategyFor(kind: Kind, interactive: bool): (s: Strategy)
    requires IsWidget(kind)
    ensures s == ScreenshotAndReplace <==> !interactive || kind == Unsupported
    ensures s == Inline <==> interactive && kind == OfflineIframe
    ensures s == FixHeight <==> interactive && kind != OfflineIframe && kind != Unsupported
  {
    if !interactive || kind == Unsupported then ScreenshotAndReplace
    else if kind == OfflineIframe then Inline
    else FixHeight
  }

  /** The id an element ends up with in `screenshotElements`. */
  function IdAfterShot(el: Element, newId: string): string {
    if IdOf(el) != "" then IdOf(el) else newId
  }

  /** An element no longer present in the form static exports replace. */
  predicate Screenshotted(kind: Kind, interactive: bool) {
    IsWidget(kind) && StrategyFor(kind, interactive) == ScreenshotAndReplace
  }

  /** The interactive block for a live widget: fix the height of each of the category's elements. */
  method FixHeights(kind: Kind, page: Page)
    requires IsWidget(kind)
    modifies page`elements
    ensures Kept(old(page.elements), page.elements, {kind})
    ensures page.elements == MapAt(old(page.elements), Select(kind, old(page.elements)), Stretched)
  {
    ghost var els := page.elements;
    var hs := Select(kind, page.elements);
    AdjustHeightForElements(hs, page);
    MapAtKept(els, hs, Stretched, kind);
  }

  /**
   * The interactive block for offline-ready iframes: make their `src` absolute
   * against the page's base URL with the older link helper, collect the content
   * of the child frames, and inline it as `srcdoc` in place of `src`.
   */
  method InlineFrames(kind: Kind, page: Page, frames: seq<Frame>, encode: string -> string)
    returns (r: Outcome<Fault>)
    requires IsWidget(kind)
    modifies page`elements, page`trace
    ensures Kept(old(page.elements), page.elements, {kind})
    ensures r.Fail? <==> First(Base, old(page.elements)).None?
    ensures r.Fail? ==> r.error == NoMatch(Base) && page.elements == old(page.elements)
    ensures r.Pass? ==>
      var hs := Select(kind, old(page.elements));
      var base := BaseUrl(Attr(old(page.elements)[First(Base, old(page.elements)).value], "href"));
      var prepared := MapAt(old(page.elements), hs, e => LegacyAbsolute(e, "src", base));
      var contents := FrameContents(frames, Srcs(prepared, hs), encode);
      page.elements == MapAt(prepared, hs, e => InlineSrcdoc(e, contents))
  {
    ghost var els := page.elements;
    var hs := Select(kind, page.elements);
    r := ReplaceSrcWithSrcdocInIframe(hs, page, frames, encode);
    if r.Pass? {
      InlineKept(els, page.elements, hs, frames, encode, kind);
    }
  }

  lemma InlineKept(els: seq<Element>, now: seq<Element>, hs: seq<nat>, frames: seq<Frame>,
                   encode: string -> string, kind: Kind)
    requires Handles(hs, els) && forall k :: 0 <= k < |hs| ==> els[hs[k]].kind == kind
    requires First(Base, els).Some?
    requires var base := BaseUrl(Attr(els[First(Base, els).value], "href"));
      var prepared := MapAt(els, hs, e => LegacyAbsolute(e, "src", base));
      var contents := FrameContents(frames, Srcs(prepared, hs), encode);
      now == MapAt(prepared, hs, e => InlineSrcdoc(e, contents))
    ensures Kept(els, now, {kind})
  {
    var base := BaseUrl(Attr(els[First(Base, els).value], "href"));
    var g := (e: Element) => LegacyAbsolute(e, "src", base);
    var prepared := MapAt(els, hs, g);
    MapAtKept(els, hs, g, kind);
    var contents := FrameContents(frames, Srcs(prepared, hs), encode);
    MapAtKept(prepared, hs, e => InlineSrcdoc(e, contents), kind);
    KeptTrans(els, prepared, now, {kind}, {kind});
  }

  /**
   * The static block: screenshot every element of the category, then replace
   * each by its image. `randomId(kind, j)` is the string generated for the j-th
   * element when it has no id.
   */
  method ScreenshotCategory(kind: Kind, page: Page, randomId: (Kind, nat) -> string, fs: FileSystem)
    returns (r: Result<seq<string>, Fault>)
    requires IsWidget(kind)
    modifies page`elements, page`trace, fs`files
    ensures Kept(old(page.elements), page.elements, {kind})
    ensures fs.files == old(fs.files) + SetOf(ShotPaths(kind, old(page.elements), randomId))
    ensures var els := old(page.elements);
      var hs := Select(kind, els);
      && (r.Success? <==> forall k :: 0 <= k < |hs| ==> IdAfterShot(els[hs[k]], randomId(kind, k)) != "")
      && (r.Success? ==>
            && |r.value| == |hs|
            && (forall k :: 0 <= k < |hs| ==> r.value[k] == ScreenshotPath(IdAfterShot(els[hs[k]], randomId(kind, k))))
            && (forall k :: 0 <= k < |hs| ==>
                  page.elements[hs[k]] == ScreenshotImage(WithScreenshotId(els[hs[k]], randomId(kind, k)), Config.TMP_FOLDER))
            && forall i :: 0 <= i < |page.elements| ==> page.elements[i].kind != kind)
  {
    ghost var els := page.elements;
    var hs := Select(kind, page.elements);
    var ids := seq(|hs|, (j: int) requires 0 <= j => randomId(kind, j));
    var paths := ScreenshotElements(hs, page, ids, fs);
    ghost var shot := page.elements;
    var res := ReplaceElementsWithScreenshots(hs, page);
    ShotReplaceKept(els, shot, page.elements, hs, ids, kind);
    ShotReplaceIds(els, shot, hs, ids, paths, kind, randomId);
    PathsAreShotPaths(kind, els, randomId, paths);
    if res.Fail? {
      r := Failure(res.error);
    } else {
      ShotImages(els, shot, page.elements, hs, ids, kind, randomId);
      r := Success(paths);
    }
  }

  /** Screenshotting then replacing touches only the category, and when every element had an id leaves none of it. */
  lemma ShotReplaceKept(els: seq<Element>, shot: seq<Element>, now: seq<Element>, hs: seq<nat>, ids: seq<string>,
                        kind: Kind)
    requires Handles(hs, els) && |ids| == |hs| && |shot| == |els| && kind != Image
    requires forall k :: 0 <= k < |hs| ==> els[hs[k]].kind == kind
    requires forall i :: 0 <= i < |els| && els[i].kind == kind ==> i in hs
    requires forall k :: 0 <= k < |hs| ==> shot[hs[k]] == WithScreenshotId(els[hs[k]], ids[k])
    requires forall j :: 0 <= j < |shot| && j !in hs ==> shot[j] == els[j]
    requires now == MapAt(shot, hs[..LeadingWithId(shot, hs)], ScreenshotImageInTmp)
    ensures Kept(els, now, {kind})
    ensures LeadingWithId(shot, hs) == |hs| ==> forall i :: 0 <= i < |now| ==> now[i].kind != kind
  {
    ShotKept(els, shot, hs, ids, kind);
    var n := LeadingWithId(shot, hs);
    ReplaceKept(shot, now, hs, n, kind);
    KeptTrans(els, shot, now, {kind}, {kind});
    if n == |hs| {
      AllReplaced(els, shot, now, hs, kind);
    }
  }

  /** The screenshot paths and whether every element had an id, in terms of the elements before. */
  lemma ShotReplaceIds(els: seq<Element>, shot: seq<Element>, hs: seq<nat>, ids: seq<string>,
                       paths: seq<string>, kind: Kind, randomId: (Kind, nat) -> string)
    requires Handles(hs, els) && |ids| == |hs| && |shot| == |els|
    requires forall k :: 0 <= k < |hs| ==> ids[k] == randomId(kind, k)
    requires |paths| == |hs| && forall k :: 0 <= k < |hs| ==> paths[k] == ScreenshotPath(IdOf(shot[hs[k]]))
    requires forall k :: 0 <= k < |hs| ==> shot[hs[k]] == WithScreenshotId(els[hs[k]], ids[k])
    ensures LeadingWithId(shot, hs) == |hs| <==> forall k :: 0 <= k < |hs| ==> IdAfterShot(els[hs[k]], randomId(kind, k)) != ""
    ensures forall k :: 0 <= k < |hs| ==> paths[k] == ScreenshotPath(IdAfterShot(els[hs[k]], randomId(kind, k)))
  {
    forall k | 0 <= k < |hs| ensures IdOf(shot[hs[k]]) == IdAfterShot(els[hs[k]], ids[k]) {
    }
    ShotIds(els, shot, hs, ids, paths, kind, randomId);
  }

  /** Paths given element by element as `ShotPaths` gives them are that list. */
  lemma PathsAreShotPaths(kind: Kind, els: seq<Element>, randomId: (Kind, nat) -> string, paths: seq<string>)
    requires var hs := Select(kind, els);
      |paths| == |hs| && forall k :: 0 <= k < |hs| ==> paths[k] == ScreenshotPath(IdAfterShot(els[hs[k]], randomId(kind, k)))
    ensures paths == ShotPaths(kind, els, randomId)
  {
  }

  /** The paths and the success of the replacement, in terms of the ids before. */
  lemma ShotIds(els: seq<Element>, shot: seq<Element>, hs: seq<nat>, ids: seq<string>,
                paths: seq<string>, kind: Kind, randomId: (Kind, nat) -> string)
    requires Handles(hs, shot) && |ids| == |hs| && |shot| == |els|
    requires forall k :: 0 <= k < |hs| ==> ids[k] == randomId(kind, k)
    requires forall k :: 0 <= k < |hs| ==> IdOf(shot[hs[k]]) == IdAfterShot(els[hs[k]], ids[k])
    requires |paths| == |hs| && forall k :: 0 <= k < |hs| ==> paths[k] == ScreenshotPath(IdOf(shot[hs[k]]))
    ensures LeadingWithId(shot, hs) == |hs| <==> forall k :: 0 <= k < |hs| ==> IdAfterShot(els[hs[k]], randomId(kind, k)) != ""
    ensures forall k :: 0 <= k < |hs| ==> paths[k] == ScreenshotPath(IdAfterShot(els[hs[k]], randomId(kind, k)))
  {
  }

  /** When every element had an id, each became the image of its screenshot. */
  lemma ShotImages(els: seq<Element>, shot: seq<Element>, now: seq<Element>, hs: seq<nat>, ids: seq<string>,
                   kind: Kind, randomId: (Kind, nat) -> string)
    requires Handles(hs, els) && |ids| == |hs| && |shot| == |els|
    requires forall k :: 0 <= k < |hs| ==> ids[k] == randomId(kind, k)
    requires forall k :: 0 <= k < |hs| ==> shot[hs[k]] == WithScreenshotId(els[hs[k]], ids[k])
    requires LeadingWithId(shot, hs) == |hs|
    requires now == MapAt(shot, hs[..LeadingWithId(shot, hs)], ScreenshotImageInTmp)
    ensures forall k :: 0 <= k < |hs| ==>
      now[hs[k]] == ScreenshotImage(WithScreenshotId(els[hs[k]], randomId(kind, k)), Config.TMP_FOLDER)
  {
    AllHandles(hs);
    forall k | 0 <= k < |hs|
      ensures now[hs[k]] == ScreenshotImage(WithScreenshotId(els[hs[k]], randomId(kind, k)), Config.TMP_FOLDER)
    {
      assert hs[k] in hs;
    }
  }

  /** Replacing the leading elements of a kind by images touches only that kind. */
  lemma ReplaceKept(shot: seq<Element>, now: seq<Element>, hs: seq<nat>, n: nat, kind: Kind)
    requires Handles(hs, shot) && n <= |hs|
    requires forall k :: 0 <= k < |hs| ==> shot[hs[k]].kind == kind
    requires now == MapAt(shot, hs[..n], ScreenshotImageInTmp)
    ensures Kept(shot, now, {kind})
  {
    MapAtKept(shot, hs[..n], ScreenshotImageInTmp, kind);
  }

  lemma AllReplaced(els: seq<Element>, shot: seq<Element>, now: seq<Element>, hs: seq<nat>, kind: Kind)
    requires Handles(hs, shot) && kind != Image
    requires Kept(els, now, {kind})
    requires forall i :: 0 <= i < |els| && els[i].kind == kind ==> i in hs
    requires now == MapAt(shot, hs[..|hs|], ScreenshotImageInTmp)
    ensures forall i :: 0 <= i < |now| ==> now[i].kind != kind
  {
    AllHandles(hs);
    NoneLeft(els, now, hs, kind);
  }

  /** Giving elements ids keeps their kinds. */
  lemma ShotKept(els: seq<Element>, shot: seq<Element>, hs: seq<nat>, ids: seq<string>, kind: Kind)
    requires Handles(hs, els) && |ids| == |hs| && |shot| == |els|
    requires forall k :: 0 <= k < |hs| ==> els[hs[k]].kind == kind
    requires forall k :: 0 <= k < |hs| ==> shot[hs[k]] == WithScreenshotId(els[hs[k]], ids[k])
    requires forall j :: 0 <= j < |shot| && j !in hs ==> shot[j] == els[j]
    ensures Kept(els, shot, {kind})
    ensures forall k :: 0 <= k < |hs| ==> IdOf(shot[hs[k]]) == IdAfterShot(els[hs[k]], ids[k])
  {
    forall i | 0 <= i < |els| && i in hs ensures shot[i].kind == els[i].kind {
      var k :| 0 <= k < |hs| && hs[k] == i;
    }
  }

  /** After every element of a kind became an image, none of that kind is left. */
  lemma NoneLeft(els: seq<Element>, now: seq<Element>, hs: seq<nat>, kind: Kind)
    requires Kept(els, now, {kind}) && kind != Image
    requires forall i :: 0 <= i < |els| && els[i].kind == kind ==> i in hs
    requires forall k :: 0 <= k < |hs| ==> hs[k] < |now| && now[hs[k]].kind == Image
    ensures forall i :: 0 <= i < |now| ==> now[i].kind != kind
  {
    forall i | 0 <= i < |now| ensures now[i].kind != kind {
      if els[i].kind == kind {
        var k :| 0 <= k < |hs| && hs[k] == i;
      }
    }
  }

  // ---------------------------------------------------------------------------
  // What each block makes of its category

  /** The base URL the inline block reads from the page's base element; "" when there is none (the block then fails). */
  function BaseOr(els: seq<Element>): string {
    match First(Base, els)
    case None => ""
    case Some(i) => BaseUrl(Attr(els[i], "href"))
  }

  /** The srcs of the handled iframes once the older link helper has made them absolute against `base`. */
  function PreparedSrcs(els: seq<Element>, hs: seq<nat>, base: string): (r: seq<Option<string>>)
    requires Handles(hs, els)
    ensures |r| == |hs|
  {
    seq(|hs|, k requires 0 <= k < |hs| => Attr(LegacyAbsolute(els[hs[k]], "src", base), "src"))
  }

  /** The content map the inline block builds from the child frames for the category's iframes. */
  function InlineContents(els: seq<Element>, kind: Kind, frames: seq<Frame>, encode: string -> string): map<string, string> {
    FrameContents(frames, PreparedSrcs(els, Select(kind, els), BaseOr(els)), encode)
  }

  /**
   * What the block for `kind` makes of the k-th element of the category on the
   * page `els`: its height fixed, its content inlined as `srcdoc`, or the image
   * of its screenshot (taken under the k-th random id when it has no id).
   */
  function Transformed(els: seq<Element>, kind: Kind, k: nat, interactive: bool, randomId: (Kind, nat) -> string,
                       frames: seq<Frame>, encode: string -> string): (e: Element)
    requires IsWidget(kind) && k < |Select(kind, els)|
    ensures Screenshotted(kind, interactive) ==>
      e.kind == Image && Attr(e, "src") == Some(ScreenshotPath(IdAfterShot(els[Select(kind, els)[k]], randomId(kind, k))))
    ensures !Screenshotted(kind, interactive) ==> e.kind == kind
  {
    var el := els[Select(kind, els)[k]];
    match StrategyFor(kind, interactive)
    case FixHeight => Stretched(el)
    case Inline => InlineSrcdoc(LegacyAbsolute(el, "src", BaseOr(els)), InlineContents(els, kind, frames, encode))
    case ScreenshotAndReplace => ScreenshotImage(WithScreenshotId(el, randomId(kind, k)), Config.TMP_FOLDER)
  }

  /** The screenshot paths of the category's block, in document order; none for a block that takes none. */
  function CategoryShots(kind: Kind, interactive: bool, els: seq<Element>, randomId: (Kind, nat) -> string): seq<string>
    requires IsWidget(kind)
  {
    if !Screenshotted(kind, interactive) then [] else ShotPaths(kind, els, randomId)
  }

  /** The paths `screenshotElements` gives the category's elements, in document order, whether or not the replacement then succeeds. */
  function ShotPaths(kind: Kind, els: seq<Element>, randomId: (Kind, nat) -> string): seq<string> {
    var hs := Select(kind, els);
    seq(|hs|, k requires 0 <= k < |hs| => ScreenshotPath(IdAfterShot(els[hs[k]], randomId(kind, k))))
  }

  /** A category block gives one screenshot path under `TMP_FOLDER` per element exactly when it screenshots. */
  lemma CategoryShotsShape(kind: Kind, interactive: bool, els: seq<Element>, randomId: (Kind, nat) -> string)
    requires IsWidget(kind)
    ensures |CategoryShots(kind, interactive, els, randomId)| == (if Screenshotted(kind, interactive) then Count(kind, els) else 0)
    ensures AllScreenshotPaths(CategoryShots(kind, interactive, els, randomId))
  {
    var ps := CategoryShots(kind, interactive, els, randomId);
    var hs := Select(kind, els);
    CountSelect(kind, els);
    forall k | 0 <= k < |ps| ensures IsScreenshotPath(ps[k]) {
      ScreenshotPathShape(IdAfterShot(els[hs[k]], randomId(kind, k)));
    }
    AllPathsIff(ps);
  }

  /**
   * What one category block does to the elements `els`, giving `now` and the
   * screenshot paths `r`: only the category is touched, it fails for a missing
   * base element or id, and on success each element of the category is what the
   * block makes of it.
   */
  ghost predicate Handled(els: seq<Element>, now: seq<Element>, kind: Kind, interactive: bool,
                          randomId: (Kind, nat) -> string, frames: seq<Frame>, encode: string -> string,
                          r: Result<seq<string>, Fault>)
    requires IsWidget(kind)
  {
    && Kept(els, now, {kind})
    && FailsWhen(els, kind, interactive, randomId, r)
    && (r.Success? ==>
          && r.value == CategoryShots(kind, interactive, els, randomId)
          && forall k :: 0 <= k < |Select(kind, els)| ==>
               now[Select(kind, els)[k]] == Transformed(els, kind, k, interactive, randomId, frames, encode))
  }

  /**
   * When a category block fails: fixing heights never fails, inlining fails
   * without a base element, and screenshotting fails when an element would get
   * an empty id.
   */
  ghost predicate FailsWhen(els: seq<Element>, kind: Kind, interactive: bool, randomId: (Kind, nat) -> string,
                            r: Result<seq<string>, Fault>)
    requires IsWidget(kind)
  {
    match StrategyFor(kind, interactive)
    case FixHeight => r.Success?
    case Inline => (r.Failure? <==> First(Base, els).None?) && (r.Failure? ==> r.error == NoMatch(Base))
    case ScreenshotAndReplace =>
      r.Success? <==> forall k :: 0 <= k < |Select(kind, els)| ==> IdAfterShot(els[Select(kind, els)[k]], randomId(kind, k)) != ""
  }

  /** One category block of `saveEpub`: query the category's elements and apply its strategy. */
  method HandleCategory(kind: Kind, interactive: bool, page: Page, randomId: (Kind, nat) -> string,
                        frames: seq<Frame>, encode: string -> string, fs: FileSystem)
    returns (r: Result<seq<string>, Fault>)
    requires IsWidget(kind)
    modifies page`elements, page`trace, fs`files
    ensures Handled(old(page.elements), page.elements, kind, interactive, randomId, frames, encode, r)
    ensures fs.files == old(fs.files) + SetOf(CategoryShots(kind, interactive, old(page.elements), randomId))
  {
    ghost var els := page.elements;
    match StrategyFor(kind, interactive)
    case FixHeight =>
      FixHeights(kind, page);
      FixedTransformed(els, page.elements, kind, interactive, randomId, frames, encode);
      r := Success([]);
      assert SetOf([]) == {};
    case Inline =>
      assert SetOf([]) == {};
      var res := InlineFrames(kind, page, frames, encode);
      if res.Fail? {
        r := Failure(res.error);
      } else {
        InlineTransformed(els, page.elements, kind, interactive, randomId, frames, encode);
        r := Success([]);
      }
    case ScreenshotAndReplace =>
      r := ScreenshotCategory(kind, page, randomId, fs);
      if r.Success? {
        ShotsTransformed(els, page.elements, r.value, kind, interactive, randomId, frames, encode);
      }
  }

  /**
   * The offline-ready iframe block as the code stands: it queries a selector name
   * the selector module does not export, so `$$` is given `undefined` and finds
   * nothing. An interactive export still reads the base element first (and fails
   * without one) and waits for the iframes to reload; a static export takes no
   * screenshot. Either way every offline-ready iframe stays on the page as it was.
   */
  method OfflineBlockAsWritten(interactive: bool, page: Page, frames: seq<Frame>, encode: string -> string,
                               fs: FileSystem)
    returns (r: Result<seq<string>, Fault>)
    modifies page`elements, page`trace, fs`files
    ensures page.elements == old(page.elements)
    ensures fs.files == old(fs.files)
    ensures !interactive ==> r == Success([])
    ensures interactive ==> (r.Failure? <==> First(Base, old(page.elements)).None?)
    ensures r.Success? ==> r.value == []
  {
    var labIframes: seq<nat> := [];
    if interactive {
      var res := ReplaceSrcWithSrcdocInIframe(labIframes, page, frames, encode);
      if res.Fail? {
        return Failure(res.error);
      }
      assert page.elements == old(page.elements);
      r := Success([]);
    } else {
      var shots := ScreenshotElements(labIframes, page, [], fs);
      var res := ReplaceElementsWithScreenshots(labIframes, page);
      assert page.elements == old(page.elements);
      assert SetOf(shots) == {};
      r := Success([]);
    }
  }

  /**
   * A static export of a page holding one offline-ready iframe: the intended
   * block screenshots it and replaces it by its image, while the block as written
   * leaves it in place and takes no screenshot.
   */
  lemma OfflineIframeSkipped(randomId: (Kind, nat) -> string)
    ensures var els := [Element(OfflineIframe, map[], 0, None, "")];
      && CategoryShots(OfflineIframe, false, els, randomId) == [ScreenshotPath(randomId(OfflineIframe, 0))]
      && Transformed(els, OfflineIframe, 0, false, randomId, [], s => s).kind == Image
  {
    var els := [Element(OfflineIframe, map[], 0, None, "")];
    assert SelectBelow(OfflineIframe, els, 1) == SelectBelow(OfflineIframe, els, 0) + [0];
    assert IdOf(els[0]) == "";
  }

  /** The height block, element by element. */
  lemma FixedTransformed(els: seq<Element>, now: seq<Element>, kind: Kind, interactive: bool,
                         randomId: (Kind, nat) -> string, frames: seq<Frame>, encode: string -> string)
    requires IsWidget(kind) && StrategyFor(kind, interactive) == FixHeight
    requires now == MapAt(els, Select(kind, els), Stretched)
    ensures forall k :: 0 <= k < |Select(kind, els)| ==>
      now[Select(kind, els)[k]] == Transformed(els, kind, k, interactive, randomId, frames, encode)
  {
    var hs := Select(kind, els);
    forall k | 0 <= k < |hs| ensures now[hs[k]] == Transformed(els, kind, k, interactive, randomId, frames, encode) {
      assert hs[k] in hs;
    }
  }

  /** The inline block, element by element. */
  lemma InlineTransformed(els: seq<Element>, now: seq<Element>, kind: Kind, interactive: bool,
                          randomId: (Kind, nat) -> string, frames: seq<Frame>, encode: string -> string)
    requires IsWidget(kind) && StrategyFor(kind, interactive) == Inline && First(Base, els).Some?
    requires var hs := Select(kind, els);
      var base := BaseUrl(Attr(els[First(Base, els).value], "href"));
      var prepared := MapAt(els, hs, e => LegacyAbsolute(e, "src", base));
      var contents := FrameContents(frames, Srcs(prepared, hs), encode);
      now == MapAt(prepared, hs, e => InlineSrcdoc(e, contents))
    ensures forall k :: 0 <= k < |Select(kind, els)| ==>
      now[Select(kind, els)[k]] == Transformed(els, kind, k, interactive, randomId, frames, encode)
  {
    var hs := Select(kind, els);
    var base := BaseUrl(Attr(els[First(Base, els).value], "href"));
    var prepared := MapAt(els, hs, e => LegacyAbsolute(e, "src", base));
    assert base == BaseOr(els);
    forall k | 0 <= k < |hs| ensures prepared[hs[k]] == LegacyAbsolute(els[hs[k]], "src", base) {
      assert hs[k] in hs;
    }
    SrcsPrepared(els, prepared, hs, base);
    var contents := FrameContents(frames, Srcs(prepared, hs), encode);
    assert contents == InlineContents(els, kind, frames, encode);
    forall k | 0 <= k < |hs| ensures now[hs[k]] == Transformed(els, kind, k, interactive, randomId, frames, encode) {
      assert hs[k] in hs;
    }
  }

  /** The srcs read back from the prepared iframes are `PreparedSrcs`. */
  lemma SrcsPrepared(els: seq<Element>, prepared: seq<Element>, hs: seq<nat>, base: string)
    requires Handles(hs, els) && |prepared| == |els|
    requires forall k :: 0 <= k < |hs| ==> prepared[hs[k]] == LegacyAbsolute(els[hs[k]], "src", base)
    ensures Srcs(prepared, hs) == PreparedSrcs(els, hs, base)
  {
  }

  /** The screenshot block, element by element, and its paths as one list. */
  lemma ShotsTransformed(els: seq<Element>, now: seq<Element>, ps: seq<string>, kind: Kind, interactive: bool,
                         randomId: (Kind, nat) -> string, frames: seq<Frame>, encode: string -> string)
    requires IsWidget(kind) && StrategyFor(kind, interactive) == ScreenshotAndReplace && |now| == |els|
    requires var hs := Select(kind, els);
      && |ps| == |hs|
      && (forall k :: 0 <= k < |hs| ==> ps[k] == ScreenshotPath(IdAfterShot(els[hs[k]], randomId(kind, k))))
      && forall k :: 0 <= k < |hs| ==>
           now[hs[k]] == ScreenshotImage(WithScreenshotId(els[hs[k]], randomId(kind, k)), Config.TMP_FOLDER)
    ensures ps == CategoryShots(kind, interactive, els, randomId)
    ensures forall k :: 0 <= k < |Select(kind, els)| ==>
      now[Select(kind, els)[k]] == Transformed(els, kind, k, interactive, randomId, frames, encode)
  {
  }

  // ---------------------------------------------------------------------------
  // What saveEpub reads from the page

  /** The space title, or "Untitled" when the title element is missing. */
  function TitleOf(els: seq<Element>): string {
    match First(SpaceTitle, els)
    case None => "Untitled"
    case Some(i) => els[i].innerHtml
  }

  /**
   * The cover background: the header's background image made absolute, falling
   * back to the default cover when there is no header or no image.
   */
  function BackgroundOf(els: seq<Element>): (r: string)
    ensures r == Config.COVER_DEFAULT_PATH || StartsWith(r, "http")
    ensures First(Header, els).None? ==> r == Config.COVER_DEFAULT_PATH
  {
    assert StartsWith(Config.GRAASP_HOST, "http");
    match First(Header, els)
    case None => Config.COVER_DEFAULT_PATH
    case Some(i) => Background(Attr(els[i], "data-background-image"), Config.GRAASP_HOST).GetOr(Config.COVER_DEFAULT_PATH)
  }

  /** A fixed-title chapter whose data is the region's inner HTML, if the region exists. */
  function RegionChapter(title: string, kind: Kind, els: seq<Element>): Chapter {
    Chapter(Some(title), match First(kind, els) case None => None case Some(i) => Some(els[i].innerHtml))
  }

  /** One phase as a body chapter: the inner HTML of its `.name` and `.resources`. */
  function PhaseChapter(p: PhaseNode): (r: Result<Chapter, Fault>)
    ensures r.Success? <==> p.title.Some? && p.resources.Some?
    ensures r.Success? ==> r.value.title == p.title && r.value.data == p.resources
  {
    if p.title.None? then Failure(NullElement("name"))
    else if p.resources.None? then Failure(NullElement("resources"))
    else Success(Chapter(p.title, p.resources))
  }

  /** The phases mapped to chapters in order; the first phase that cannot be read fails the whole query. */
  function BodyChapters(phases: seq<PhaseNode>): (r: Result<seq<Chapter>, Fault>)
    ensures r.Success? <==> forall i :: 0 <= i < |phases| ==> PhaseChapter(phases[i]).Success?
    ensures r.Success? ==> |r.value| == |phases|
    ensures r.Success? ==> forall i :: 0 <= i < |phases| ==> r.value[i] == PhaseChapter(phases[i]).value
    decreases |phases|
  {
    if phases == [] then Success([])
    else
      match PhaseChapter(phases[0])
      case Failure(e) => Failure(e)
      case Success(c) =>
        match BodyChapters(phases[1..])
        case Failure(e) => Failure(e)
        case Success(cs) => Success([c] + cs)
  }

  /** A chapter's data with the over-encoded references repaired. */
  function DecodeChapter(c: Chapter): Chapter {
    Chapter(c.title, match c.data case None => None case Some(d) => Some(DecodeAmp(d)))
  }

  /** A chapter's data the way setting it as an attribute over-encodes it. */
  function EncodeChapter(c: Chapter): Chapter {
    Chapter(c.title, match c.data case None => None case Some(d) => Some(EncodeAmp(d)))
  }

  /** Interactive exports repair every phase; static ones keep the body as read. */
  function Body(phases: seq<PhaseNode>, interactive: bool): (r: seq<Chapter>)
    requires BodyChapters(phases).Success?
    ensures |r| == |phases|
    ensures forall i :: 0 <= i < |r| ==> r[i].title == phases[i].title
    ensures !interactive ==> r == BodyChapters(phases).value
    ensures interactive ==> forall i :: 0 <= i < |r| ==> r[i].data == Some(DecodeAmp(phases[i].resources.value))
  {
    var b := BodyChapters(phases).value;
    if interactive then seq(|b|, i requires 0 <= i < |b| => DecodeChapter(b[i])) else b
  }

  /** Repairing the body gives back exactly the chapters before over-encoding. */
  lemma DecodeChapterRestores(c: Chapter)
    ensures DecodeChapter(EncodeChapter(c)) == c
  {
    if c.data.Some? {
      DecodeEncode(c.data.value);
    }
  }

  // ---------------------------------------------------------------------------
  // The chapter filter of generateEpub

  /** `chapter.title && chapter.data`: both present and non-empty. */
  predicate HasContent(c: Chapter) {
    c.title.Some? && c.title.value != "" && c.data.Some? && c.data.value != ""
  }

  function FilterChapters(cs: seq<Chapter>): (r: seq<Chapter>)
    ensures |r| <= |cs|
    ensures forall k :: 0 <= k < |r| ==> HasContent(r[k])
    decreases |cs|
  {
    if cs == [] then [] else (if HasContent(cs[0]) then [cs[0]] else []) + FilterChapters(cs[1..])
  }

  /** The filter keeps a chapter exactly when it has content. */
  lemma {:induction false} FilterMembers(cs: seq<Chapter>, c: Chapter)
    ensures c in FilterChapters(cs) <==> c in cs && HasContent(c)
    decreases |cs|
  {
    if cs != [] {
      FilterMembers(cs[1..], c);
      assert cs == [cs[0]] + cs[1..];
    }
  }

  /** The filter works piece by piece, so it keeps the order of the chapters. */
  lemma {:induction false} FilterAppend(a: seq<Chapter>, b: seq<Chapter>)
    ensures FilterChapters(a + b) == FilterChapters(a) + FilterChapters(b)
    decreases |a|
  {
    if a != [] {
      assert (a + b)[1..] == a[1..] + b;
      FilterAppend(a[1..], b);
    } else {
      assert a + b == b;
    }
  }

  /** A list whose chapters all have content passes unchanged. */
  lemma {:induction false} FilterKeepsFull(cs: seq<Chapter>)
    requires forall k :: 0 <= k < |cs| ==> HasContent(cs[k])
    ensures FilterChapters(cs) == cs
    decreases |cs|
  {
    if cs != [] {
      FilterKeepsFull(cs[1..]);
    }
  }

  /** For the book's chapters: introduction, then the phases, then tools, each kept only if it has content. */
  lemma BookOrder(intro: Chapter, body: seq<Chapter>, tools: Chapter)
    ensures FilterChapters([intro] + body + [tools])
         == (if HasContent(intro) then [intro] else []) + FilterChapters(body) + (if HasContent(tools) then [tools] else [])
  {
    FilterAppend([intro] + body, [tools]);
    FilterAppend([intro], body);
  }

  // ---------------------------------------------------------------------------
  // saveEpub

  datatype EpubJob = EpubJob(
    title: string,
    author: string,
    chapters: seq<Chapter>,
    background: string,
    screenshots: seq<string>)

  /** The number of screenshots the widget passes take, over all categories. */
  function ScreenshotCount(els: seq<Element>, interactive: bool): nat {
    (if interactive then 0
     else Count(Audio, els) + Count(Gadget, els) + Count(Embedded, els) + Count(Lab, els)
          + Count(ObjectDoc, els) + Count(OfflineIframe, els))
    + Count(Unsupported, els)
  }

  predicate IsScreenshotPath(p: string) {
    StartsWith(p, Config.TMP_FOLDER + "/") && EndsWith(p, ".png")
  }

  /** Every path in the list is a screenshot path (stated element by element, see AllPathsIff). */
  predicate AllScreenshotPaths(ps: seq<string>)
    decreases |ps|
  {
    ps == [] || (IsScreenshotPath(ps[0]) && AllScreenshotPaths(ps[1..]))
  }

  lemma {:induction false} AllPathsIff(ps: seq<string>)
    ensures AllScreenshotPaths(ps) <==> forall p :: p in ps ==> IsScreenshotPath(p)
    decreases |ps|
  {
    if ps != [] {
      AllPathsIff(ps[1..]);
      assert forall p :: p in ps <==> p == ps[0] || p in ps[1..];
    }
  }

  lemma AllPathsConcat(a: seq<string>, b: seq<string>)
    requires AllScreenshotPaths(a) && AllScreenshotPaths(b)
    ensures AllScreenshotPaths(a + b)
  {
    AllPathsIff(a);
    AllPathsIff(b);
    AllPathsIff(a + b);
  }

  lemma ScreenshotPathShape(id: string)
    ensures IsScreenshotPath(ScreenshotPath(id))
  {
    var p := ScreenshotPath(id);
    assert p[..|Config.TMP_FOLDER + "/"|] == Config.TMP_FOLDER + "/";
    assert p[|p| - 4..] == ".png";
  }

  /** The screenshot paths of one category block, as the page before all blocks determines them. */
  ghost predicate ShotsOf(r: Result<seq<string>, Fault>, kind: Kind, interactive: bool, els: seq<Element>,
                          randomId: (Kind, nat) -> string)
    requires IsWidget(kind)
  {
    r.Success? ==> r.value == CategoryShots(kind, interactive, els, randomId)
  }

  /**
   * After the blocks for the kinds in `done`, seen from the page `start` before
   * all of them: only those kinds were touched, and each of their elements is
   * what its block makes of it.
   */
  ghost predicate Progress(start: seq<Element>, now: seq<Element>, done: set<Kind>, interactive: bool,
                           randomId: (Kind, nat) -> string, frames: seq<Frame>, encode: string -> string) {
    && Kept(start, now, done)
    && forall kind, k :: kind in done && IsWidget(kind) && 0 <= k < |Select(kind, start)| ==>
         now[Select(kind, start)[k]] == Transformed(start, kind, k, interactive, randomId, frames, encode)
  }

  /** Why a category block can fail: no base element to inline against, or an empty random id. */
  ghost predicate BlockFault(kind: Kind, interactive: bool, start: seq<Element>, randomId: (Kind, nat) -> string)
    requires IsWidget(kind)
  {
    || (StrategyFor(kind, interactive) == Inline && First(Base, start).None?)
    || (StrategyFor(kind, interactive) == ScreenshotAndReplace && exists j: nat :: randomId(kind, j) == "")
  }

  /** Why the widget blocks as a whole can fail. */
  ghost predicate AnyFault(interactive: bool, start: seq<Element>, randomId: (Kind, nat) -> string) {
    (interactive && First(Base, start).None?) || exists k, j: nat :: randomId(k, j) == ""
  }

  lemma BlockFaultAny(kind: Kind, interactive: bool, start: seq<Element>, randomId: (Kind, nat) -> string)
    requires IsWidget(kind) && BlockFault(kind, interactive, start, randomId)
    ensures AnyFault(interactive, start, randomId)
  {
    if StrategyFor(kind, interactive) == ScreenshotAndReplace {
      var j: nat :| randomId(kind, j) == "";
    }
  }

  /** One category block, seen from the page before all blocks. */
  method RunCategory(kind: Kind, ghost done: set<Kind>, interactive: bool, page: Page, randomId: (Kind, nat) -> string,
                     frames: seq<Frame>, encode: string -> string, fs: FileSystem, ghost start: seq<Element>)
    returns (r: Result<seq<string>, Fault>)
    requires IsWidget(kind) && kind !in done && Base !in done
    requires Progress(start, page.elements, done, interactive, randomId, frames, encode)
    modifies page`elements, page`trace, fs`files
    ensures fs.files == old(fs.files) + ShotFiles(kind, interactive, start, randomId)
    ensures r.Success? ==> Progress(start, page.elements, done + {kind}, interactive, randomId, frames, encode)
    ensures ShotsOf(r, kind, interactive, start, randomId)
    ensures r.Failure? ==> BlockFault(kind, interactive, start, randomId)
  {
    ghost var before := page.elements;
    r := HandleCategory(kind, interactive, page, randomId, frames, encode, fs);
    Account(start, before, page.elements, done, kind, interactive, randomId, frames, encode, r);
  }

  /** The effect of one category block, restated against the page before all blocks. */
  lemma Account(start: seq<Element>, before: seq<Element>, after: seq<Element>, done: set<Kind>, kind: Kind,
                interactive: bool, randomId: (Kind, nat) -> string, frames: seq<Frame>, encode: string -> string,
                r: Result<seq<string>, Fault>)
    requires IsWidget(kind) && kind !in done && Base !in done
    requires Progress(start, before, done, interactive, randomId, frames, encode)
    requires Handled(before, after, kind, interactive, randomId, frames, encode, r)
    ensures CategoryShots(kind, interactive, before, randomId) == CategoryShots(kind, interactive, start, randomId)
    ensures r.Success? ==> Progress(start, after, done + {kind}, interactive, randomId, frames, encode)
    ensures ShotsOf(r, kind, interactive, start, randomId)
    ensures r.Failure? ==> BlockFault(kind, interactive, start, randomId)
  {
    SameInput(start, before, done, kind);
    InputSame(before, start, kind, interactive, randomId, frames, encode);
    if r.Success? {
      AccountProgress(start, before, after, done, kind, interactive, randomId, frames, encode);
    } else {
      AccountFault(start, before, kind, interactive, randomId, r);
    }
  }

  /** The blocks before this one left its category and the base element as they were. */
  lemma SameInput(start: seq<Element>, before: seq<Element>, done: set<Kind>, kind: Kind)
    requires Kept(start, before, done) && kind !in done && kind != Image && Base !in done
    ensures Select(kind, before) == Select(kind, start)
    ensures forall k :: 0 <= k < |Select(kind, start)| ==> before[Select(kind, start)[k]] == start[Select(kind, start)[k]]
    ensures First(Base, before) == First(Base, start) && BaseOr(before) == BaseOr(start)
  {
    SameCategory(start, before, done, kind);
    SameBase(start, before, done);
  }

  lemma SameCategory(start: seq<Element>, before: seq<Element>, done: set<Kind>, kind: Kind)
    requires Kept(start, before, done) && kind !in done && kind != Image
    ensures Select(kind, before) == Select(kind, start)
    ensures forall k :: 0 <= k < |Select(kind, start)| ==> before[Select(kind, start)[k]] == start[Select(kind, start)[k]]
  {
    KeptSelect(start, before, done, kind);
    var hs := Select(kind, start);
    forall k | 0 <= k < |hs| ensures before[hs[k]] == start[hs[k]] {
      assert start[hs[k]].kind == kind;
    }
  }

  lemma SameBase(start: seq<Element>, before: seq<Element>, done: set<Kind>)
    requires Kept(start, before, done) && Base !in done
    ensures First(Base, before) == First(Base, start) && BaseOr(before) == BaseOr(start)
  {
    KeptSelect(start, before, done, Base);
  }

  /** Two pages that agree on a category and on the base URL give its block the same input. */
  lemma InputSame(a: seq<Element>, b: seq<Element>, kind: Kind, interactive: bool, randomId: (Kind, nat) -> string,
                  frames: seq<Frame>, encode: string -> string)
    requires IsWidget(kind) && |a| == |b| && Select(kind, a) == Select(kind, b) && BaseOr(a) == BaseOr(b)
    requires forall k :: 0 <= k < |Select(kind, b)| ==> a[Select(kind, b)[k]] == b[Select(kind, b)[k]]
    ensures CategoryShots(kind, interactive, a, randomId) == CategoryShots(kind, interactive, b, randomId)
    ensures forall k :: 0 <= k < |Select(kind, b)| ==>
      Transformed(a, kind, k, interactive, randomId, frames, encode) == Transformed(b, kind, k, interactive, randomId, frames, encode)
  {
    var hs := Select(kind, b);
    assert PreparedSrcs(a, hs, BaseOr(a)) == PreparedSrcs(b, hs, BaseOr(b));
  }

  /** A successful block adds its kind to the finished ones. */
  lemma AccountProgress(start: seq<Element>, before: seq<Element>, after: seq<Element>, done: set<Kind>, kind: Kind,
                        interactive: bool, randomId: (Kind, nat) -> string, frames: seq<Frame>, encode: string -> string)
    requires IsWidget(kind) && kind !in done
    requires Progress(start, before, done, interactive, randomId, frames, encode)
    requires Kept(before, after, {kind})
    requires forall k :: 0 <= k < |Select(kind, start)| ==>
      after[Select(kind, start)[k]] == Transformed(start, kind, k, interactive, randomId, frames, encode)
    ensures Progress(start, after, done + {kind}, interactive, randomId, frames, encode)
  {
    KeptTrans(start, before, after, done, {kind});
    forall kd, k | kd in done && IsWidget(kd) && 0 <= k < |Select(kd, start)|
      ensures after[Select(kd, start)[k]] == Transformed(start, kd, k, interactive, randomId, frames, encode)
    {
      var j := Select(kd, start)[k];
      assert before[j] == Transformed(start, kd, k, interactive, randomId, frames, encode);
    }
  }

  /** A failed block fails for a reason visible on the page before all blocks. */
  lemma AccountFault(start: seq<Element>, before: seq<Element>, kind: Kind, interactive: bool,
                     randomId: (Kind, nat) -> string, r: Result<seq<string>, Fault>)
    requires IsWidget(kind) && r.Failure? && First(Base, before) == First(Base, start)
    requires FailsWhen(before, kind, interactive, randomId, r)
    ensures BlockFault(kind, interactive, start, randomId)
  {
    if StrategyFor(kind, interactive) == ScreenshotAndReplace {
      var j := EmptyId(before, kind, randomId);
    }
  }

  /** When some element of the category would get an empty id, the random id it was given is empty. */
  lemma EmptyId(els: seq<Element>, kind: Kind, randomId: (Kind, nat) -> string) returns (j: nat)
    requires !forall k :: 0 <= k < |Select(kind, els)| ==> IdAfterShot(els[Select(kind, els)[k]], randomId(kind, k)) != ""
    ensures randomId(kind, j) == ""
  {
    var hs := Select(kind, els);
    var k :| 0 <= k < |hs| && IdAfterShot(els[hs[k]], randomId(kind, k)) == "";
    j := k;
  }

  /** The seven widget categories. */
  function Widgets(): set<Kind> {
    {Gadget, Lab, ObjectDoc, Audio, Embedded, OfflineIframe, Unsupported}
  }

  /**
   * The screenshot list `saveEpub` hands on: the lists of the category blocks
   * concatenated in the order audio, gadgets, embeds, labs, objects,
   * unsupported, offline-ready iframes.
   */
  function ExpectedShots(els: seq<Element>, interactive: bool, randomId: (Kind, nat) -> string): seq<string> {
    CategoryShots(Audio, interactive, els, randomId)
    + CategoryShots(Gadget, interactive, els, randomId)
    + CategoryShots(Embedded, interactive, els, randomId)
    + CategoryShots(Lab, interactive, els, randomId)
    + CategoryShots(ObjectDoc, interactive, els, randomId)
    + CategoryShots(Unsupported, interactive, els, randomId)
    + CategoryShots(OfflineIframe, interactive, els, randomId)
  }

  /** The list holds one path under `TMP_FOLDER` per screenshotted element. */
  lemma ExpectedShotsShape(els: seq<Element>, interactive: bool, randomId: (Kind, nat) -> string)
    ensures |ExpectedShots(els, interactive, randomId)| == ScreenshotCount(els, interactive)
    ensures AllScreenshotPaths(ExpectedShots(els, interactive, randomId))
  {
    ExpectedShotsCount(els, interactive, randomId);
    ExpectedShotsPaths(els, interactive, randomId);
  }

  lemma ExpectedShotsCount(els: seq<Element>, interactive: bool, randomId: (Kind, nat) -> string)
    ensures |ExpectedShots(els, interactive, randomId)| == ScreenshotCount(els, interactive)
  {
    CategoryShotsShape(Audio, interactive, els, randomId);
    CategoryShotsShape(Gadget, interactive, els, randomId);
    CategoryShotsShape(Embedded, interactive, els, randomId);
    CategoryShotsShape(Lab, interactive, els, randomId);
    CategoryShotsShape(ObjectDoc, interactive, els, randomId);
    CategoryShotsShape(Unsupported, interactive, els, randomId);
    CategoryShotsShape(OfflineIframe, interactive, els, randomId);
  }

  lemma ExpectedShotsPaths(els: seq<Element>, interactive: bool, randomId: (Kind, nat) -> string)
    ensures AllScreenshotPaths(ExpectedShots(els, interactive, randomId))
  {
    var a := CategoryShots(Audio, interactive, els, randomId);
    var g := CategoryShots(Gadget, interactive, els, randomId);
    var e := CategoryShots(Embedded, interactive, els, randomId);
    var l := CategoryShots(Lab, interactive, els, randomId);
    var o := CategoryShots(ObjectDoc, interactive, els, randomId);
    var u := CategoryShots(Unsupported, interactive, els, randomId);
    var f := CategoryShots(OfflineIframe, interactive, els, randomId);
    CategoryShotsShape(Audio, interactive, els, randomId);
    CategoryShotsShape(Gadget, interactive, els, randomId);
    CategoryShotsShape(Embedded, interactive, els, randomId);
    CategoryShotsShape(Lab, interactive, els, randomId);
    CategoryShotsShape(ObjectDoc, interactive, els, randomId);
    CategoryShotsShape(Unsupported, interactive, els, randomId);
    CategoryShotsShape(OfflineIframe, interactive, els, randomId);
    AllPathsConcat(a, g);
    AllPathsConcat(a + g, e);
    AllPathsConcat(a + g + e, l);
    AllPathsConcat(a + g + e + l, o);
    AllPathsConcat(a + g + e + l + o, u);
    AllPathsConcat(a + g + e + l + o + u, f);
  }

  /** The screenshot files a category's block writes, seen from the page before all blocks. */
  function ShotFiles(kind: Kind, interactive: bool, els: seq<Element>, randomId: (Kind, nat) -> string): set<string>
    requires IsWidget(kind)
  {
    SetOf(CategoryShots(kind, interactive, els, randomId))
  }

  /** The files of the concatenated list are those the seven blocks write, in any order. */
  lemma ExpectedFiles(els: seq<Element>, interactive: bool, randomId: (Kind, nat) -> string)
    ensures SetOf(ExpectedShots(els, interactive, randomId))
            == ShotFiles(Gadget, interactive, els, randomId) + ShotFiles(Lab, interactive, els, randomId)
               + ShotFiles(ObjectDoc, interactive, els, randomId) + ShotFiles(Audio, interactive, els, randomId)
               + ShotFiles(Embedded, interactive, els, randomId) + ShotFiles(OfflineIframe, interactive, els, randomId)
               + ShotFiles(Unsupported, interactive, els, randomId)
  {
    var a := CategoryShots(Audio, interactive, els, randomId);
    var g := CategoryShots(Gadget, interactive, els, randomId);
    var e := CategoryShots(Embedded, interactive, els, randomId);
    var l := CategoryShots(Lab, interactive, els, randomId);
    var o := CategoryShots(ObjectDoc, interactive, els, randomId);
    var u := CategoryShots(Unsupported, interactive, els, randomId);
    var f := CategoryShots(OfflineIframe, interactive, els, randomId);
    SetOfConcat(a, g);
    SetOfConcat(a + g, e);
    SetOfConcat(a + g + e, l);
    SetOfConcat(a + g + e + l, o);
    SetOfConcat(a + g + e + l + o, u);
    SetOfConcat(a + g + e + l + o + u, f);
  }

  /**
   * The seven category blocks of `saveEpub` in the order of the source: each
   * element of a category is what its block makes of it, every other element is
   * unchanged, and the screenshot list is the concatenation `ExpectedShots`.
   * Every screenshot taken is written, so the new files are the listed paths;
   * a failing block leaves the files of the blocks before it and its own.
   */
  method WidgetBlocks(page: Page, interactive: bool, randomId: (Kind, nat) -> string,
                      frames: seq<Frame>, encode: string -> string, fs: FileSystem)
    returns (r: Result<seq<string>, Fault>)
    modifies page`elements, page`trace, fs`files
    ensures r.Failure? ==> AnyFault(interactive, old(page.elements), randomId)
    ensures r.Success? ==>
      && Progress(old(page.elements), page.elements, Widgets(), interactive, randomId, frames, encode)
      && r.value == ExpectedShots(old(page.elements), interactive, randomId)
      && fs.files == old(fs.files) + SetOf(r.value)
    ensures old(fs.files) <= fs.files <= old(fs.files) + SetOf(ExpectedShots(old(page.elements), interactive, randomId))
  {
    ghost var start := page.elements;
    ExpectedFiles(start, interactive, randomId);
    var six := RunSix(page, interactive, randomId, frames, encode, fs, start);
    if six.Failure? { return Failure(six.error); }
    r := RunLast(six.value, page, interactive, randomId, frames, encode, fs, start);
  }

  /** The block for unsupported elements, after the first six, and the concatenated screenshot list. */
  method RunLast(shots: SixShots, page: Page, interactive: bool, randomId: (Kind, nat) -> string,
                 frames: seq<Frame>, encode: string -> string, fs: FileSystem, ghost start: seq<Element>)
    returns (r: Result<seq<string>, Fault>)
    requires Progress(start, page.elements, SixKinds(), interactive, randomId, frames, encode)
    requires SixShotsOf(shots, interactive, start, randomId)
    modifies page`elements, page`trace, fs`files
    ensures r.Failure? ==> AnyFault(interactive, start, randomId)
    ensures r.Success? ==>
      && Progress(start, page.elements, Widgets(), interactive, randomId, frames, encode)
      && r.value == ExpectedShots(start, interactive, randomId)
    ensures fs.files == old(fs.files) + ShotFiles(Unsupported, interactive, start, randomId)
  {
    var unsupported := RunUnsupported(page, interactive, randomId, frames, encode, fs, start);
    if unsupported.Failure? {
      return Failure(unsupported.error);
    }
    r := Success(shots.audios + shots.gadgets + shots.embeds + shots.labs + shots.objects
                 + unsupported.value + shots.labIframes);
    LastShots(shots, unsupported.value, interactive, start, randomId);
  }

  /** The block for unsupported elements, which runs whatever the render mode. */
  method RunUnsupported(page: Page, interactive: bool, randomId: (Kind, nat) -> string,
                        frames: seq<Frame>, encode: string -> string, fs: FileSystem, ghost start: seq<Element>)
    returns (r: Result<seq<string>, Fault>)
    requires Progress(start, page.elements, SixKinds(), interactive, randomId, frames, encode)
    modifies page`elements, page`trace, fs`files
    ensures r.Failure? ==> AnyFault(interactive, start, randomId)
    ensures r.Success? ==>
      && Progress(start, page.elements, Widgets(), interactive, randomId, frames, encode)
      && r.value == CategoryShots(Unsupported, interactive, start, randomId)
    ensures fs.files == old(fs.files) + ShotFiles(Unsupported, interactive, start, randomId)
  {
    r := RunCategory(Unsupported, SixKinds(), interactive, page, randomId, frames, encode, fs, start);
    if r.Failure? {
      BlockFaultAny(Unsupported, interactive, start, randomId);
      return;
    }
    LastProgress(start, page.elements, interactive, randomId, frames, encode);
  }

  lemma LastProgress(start: seq<Element>, now: seq<Element>, interactive: bool,
                     randomId: (Kind, nat) -> string, frames: seq<Frame>, encode: string -> string)
    requires Progress(start, now, SixKinds() + {Unsupported}, interactive, randomId, frames, encode)
    ensures Progress(start, now, Widgets(), interactive, randomId, frames, encode)
  {
    assert SixKinds() + {Unsupported} == Widgets();
  }

  /** The lists of the seven blocks, concatenated in the order of the source, are `ExpectedShots`. */
  lemma LastShots(shots: SixShots, unsupported: seq<string>, interactive: bool, start: seq<Element>,
                  randomId: (Kind, nat) -> string)
    requires SixShotsOf(shots, interactive, start, randomId)
    requires unsupported == CategoryShots(Unsupported, interactive, start, randomId)
    ensures shots.audios + shots.gadgets + shots.embeds + shots.labs + shots.objects + unsupported + shots.labIframes
            == ExpectedShots(start, interactive, randomId)
  {
  }

  /** Progress only depends on which kinds are done. */
  lemma ProgressSame(start: seq<Element>, now: seq<Element>, a: set<Kind>, b: set<Kind>, interactive: bool,
                     randomId: (Kind, nat) -> string, frames: seq<Frame>, encode: string -> string)
    requires a == b && Progress(start, now, a, interactive, randomId, frames, encode)
    ensures Progress(start, now, b, interactive, randomId, frames, encode)
  {
  }

  /** The six categories handled before the unsupported elements. */
  function SixKinds(): set<Kind> {
    {Gadget, Lab, ObjectDoc, Audio, Embedded, OfflineIframe}
  }

  /** The screenshot lists of the first six blocks. */
  datatype SixShots = SixShots(
    gadgets: seq<string>,
    labs: seq<string>,
    objects: seq<string>,
    audios: seq<string>,
    embeds: seq<string>,
    labIframes: seq<string>)

  ghost predicate SixShotsOf(s: SixShots, interactive: bool, start: seq<Element>, randomId: (Kind, nat) -> string) {
    && s.gadgets == CategoryShots(Gadget, interactive, start, randomId)
    && s.labs == CategoryShots(Lab, interactive, start, randomId)
    && s.objects == CategoryShots(ObjectDoc, interactive, start, randomId)
    && s.audios == CategoryShots(Audio, interactive, start, randomId)
    && s.embeds == CategoryShots(Embedded, interactive, start, randomId)
    && s.labIframes == CategoryShots(OfflineIframe, interactive, start, randomId)
  }

  /** The first four categories: gadgets, labs, objects, audio. */
  function FourKinds(): set<Kind> {
    {Gadget, Lab, ObjectDoc, Audio}
  }

  /** The files the first four blocks write. */
  function FourFiles(interactive: bool, start: seq<Element>, randomId: (Kind, nat) -> string): set<string> {
    ShotFiles(Gadget, interactive, start, randomId) + ShotFiles(Lab, interactive, start, randomId)
    + ShotFiles(ObjectDoc, interactive, start, randomId) + ShotFiles(Audio, interactive, start, randomId)
  }

  /** The blocks for gadgets, labs, objects and audio, in that order. */
  method RunFour(page: Page, interactive: bool, randomId: (Kind, nat) -> string,
                 frames: seq<Frame>, encode: string -> string, fs: FileSystem, ghost start: seq<Element>)
    returns (r: Result<(seq<string>, seq<string>, seq<string>, seq<string>), Fault>)
    requires Progress(start, page.elements, {}, interactive, randomId, frames, encode)
    modifies page`elements, page`trace, fs`files
    ensures r.Failure? ==> AnyFault(interactive, start, randomId)
    ensures r.Success? ==> Progress(start, page.elements, FourKinds(), interactive, randomId, frames, encode)
    ensures r.Success? ==>
      && r.value.0 == CategoryShots(Gadget, interactive, start, randomId)
      && r.value.1 == CategoryShots(Lab, interactive, start, randomId)
      && r.value.2 == CategoryShots(ObjectDoc, interactive, start, randomId)
      && r.value.3 == CategoryShots(Audio, interactive, start, randomId)
      && fs.files == old(fs.files) + FourFiles(interactive, start, randomId)
    ensures old(fs.files) <= fs.files <= old(fs.files) + FourFiles(interactive, start, randomId)
  {
    var first := RunTwo(Gadget, Lab, {}, interactive, page, randomId, frames, encode, fs, start);
    if first.Failure? { return Failure(first.error); }
    assert {} + {Gadget} + {Lab} == {Gadget, Lab};
    ProgressSame(start, page.elements, {} + {Gadget} + {Lab}, {Gadget, Lab}, interactive, randomId, frames, encode);
    var second := RunTwo(ObjectDoc, Audio, {Gadget, Lab}, interactive, page, randomId, frames, encode, fs, start);
    if second.Failure? { return Failure(second.error); }
    assert {Gadget, Lab} + {ObjectDoc} + {Audio} == FourKinds();
    ProgressSame(start, page.elements, {Gadget, Lab} + {ObjectDoc} + {Audio}, FourKinds(), interactive, randomId, frames, encode);
    r := Success((first.value.0, first.value.1, second.value.0, second.value.1));
  }

  /** The files the first six blocks write. */
  function SixFiles(interactive: bool, start: seq<Element>, randomId: (Kind, nat) -> string): set<string> {
    FourFiles(interactive, start, randomId)
    + ShotFiles(Embedded, interactive, start, randomId) + ShotFiles(OfflineIframe, interactive, start, randomId)
  }

  /** The blocks for gadgets, labs, objects, audios, embeds and offline-ready iframes, in that order. */
  method RunSix(page: Page, interactive: bool, randomId: (Kind, nat) -> string,
                frames: seq<Frame>, encode: string -> string, fs: FileSystem, ghost start: seq<Element>)
    returns (r: Result<SixShots, Fault>)
    requires start == page.elements
    modifies page`elements, page`trace, fs`files
    ensures r.Failure? ==> AnyFault(interactive, start, randomId)
    ensures r.Success? ==>
      Progress(start, page.elements, SixKinds(), interactive, randomId, frames, encode) && SixShotsOf(r.value, interactive, start, randomId)
    ensures r.Success? ==> fs.files == old(fs.files) + SixFiles(interactive, start, randomId)
    ensures old(fs.files) <= fs.files <= old(fs.files) + SixFiles(interactive, start, randomId)
  {
    var four := RunFour(page, interactive, randomId, frames, encode, fs, start);
    if four.Failure? { return Failure(four.error); }
    r := RunFifthSixth(four.value, page, interactive, randomId, frames, encode, fs, start);
  }

  /** The blocks for embeds and offline-ready iframes, after the first four. */
  method RunFifthSixth(four: (seq<string>, seq<string>, seq<string>, seq<string>), page: Page, interactive: bool,
                       randomId: (Kind, nat) -> string, frames: seq<Frame>, encode: string -> string,
                       fs: FileSystem, ghost start: seq<Element>)
    returns (r: Result<SixShots, Fault>)
    requires Progress(start, page.elements, FourKinds(), interactive, randomId, frames, encode)
    requires four.0 == CategoryShots(Gadget, interactive, start, randomId)
    requires four.1 == CategoryShots(Lab, interactive, start, randomId)
    requires four.2 == CategoryShots(ObjectDoc, interactive, start, randomId)
    requires four.3 == CategoryShots(Audio, interactive, start, randomId)
    modifies page`elements, page`trace, fs`files
    ensures r.Failure? ==> AnyFault(interactive, start, randomId)
    ensures r.Success? ==>
      Progress(start, page.elements, SixKinds(), interactive, randomId, frames, encode) && SixShotsOf(r.value, interactive, start, randomId)
    ensures r.Success? ==>
      fs.files == old(fs.files) + ShotFiles(Embedded, interactive, start, randomId) + ShotFiles(OfflineIframe, interactive, start, randomId)
    ensures old(fs.files) <= fs.files
              <= old(fs.files) + ShotFiles(Embedded, interactive, start, randomId) + ShotFiles(OfflineIframe, interactive, start, randomId)
  {
    var third := RunTwo(Embedded, OfflineIframe, FourKinds(), interactive, page, randomId, frames, encode, fs, start);
    if third.Failure? { return Failure(third.error); }
    assert FourKinds() + {Embedded} + {OfflineIframe} == SixKinds();
    ProgressSame(start, page.elements, FourKinds() + {Embedded} + {OfflineIframe}, SixKinds(), interactive, randomId, frames, encode);
    r := Success(SixShots(four.0, four.1, four.2, four.3, third.value.0, third.value.1));
  }

  /** Two category blocks in a row. */
  method RunTwo(k1: Kind, k2: Kind, ghost done: set<Kind>, interactive: bool, page: Page, randomId: (Kind, nat) -> string,
                frames: seq<Frame>, encode: string -> string, fs: FileSystem, ghost start: seq<Element>)
    returns (r: Result<(seq<string>, seq<string>), Fault>)
    requires IsWidget(k1) && IsWidget(k2) && k1 != k2
    requires k1 !in done && k2 !in done && Base !in done
    requires Progress(start, page.elements, done, interactive, randomId, frames, encode)
    modifies page`elements, page`trace, fs`files
    ensures r.Success? ==> Progress(start, page.elements, done + {k1} + {k2}, interactive, randomId, frames, encode)
    ensures r.Success? ==>
      r.value.0 == CategoryShots(k1, interactive, start, randomId) && r.value.1 == CategoryShots(k2, interactive, start, randomId)
    ensures r.Failure? ==> AnyFault(interactive, start, randomId)
    ensures r.Success? ==> fs.files == old(fs.files) + ShotFiles(k1, interactive, start, randomId) + ShotFiles(k2, interactive, start, randomId)
    ensures old(fs.files) <= fs.files <= old(fs.files) + ShotFiles(k1, interactive, start, randomId) + ShotFiles(k2, interactive, start, randomId)
  {
    ghost var f0 := fs.files;
    ghost var s1, s2 := ShotFiles(k1, interactive, start, randomId), ShotFiles(k2, interactive, start, randomId);
    WithinTwo(f0, s1, s2);
    var a := RunCategory(k1, done, interactive, page, randomId, frames, encode, fs, start);
    if a.Failure? {
      BlockFaultAny(k1, interactive, start, randomId);
      return Failure(a.error);
    }
    var b := RunCategory(k2, done + {k1}, interactive, page, randomId, frames, encode, fs, start);
    if b.Failure? {
      BlockFaultAny(k2, interactive, start, randomId);
      return Failure(b.error);
    }
    r := Success((a.value, b.value));
  }

  /** The files written after the first of two blocks lie between those before and those after both. */
  lemma WithinTwo(f0: set<string>, s1: set<string>, s2: set<string>)
    ensures f0 <= f0 + s1 <= f0 + s1 + s2
  { }

  /** Every random id the screenshot blocks can draw is non-empty. */
  ghost predicate IdsNonEmpty(randomId: (Kind, nat) -> string) {
    forall k, j :: randomId(k, j) != ""
  }

  /** Some image of the page has no `src`, so `makeImageSourcesAbsolute` throws before any block runs. */
  predicate MissingSrc(els: seq<Element>) {
    LeadingWithSrc(els, Select(Image, els)) < |Select(Image, els)|
  }

  /**
   * What `saveEpub` gathers from the page `els` with phases `phases`, before
   * calling `generateEpub`, leaving the page `now`: the title, author
   * `Anonymous`, background and chapters read from the page, the screenshot
   * list `ExpectedShots`, and the page as the image and widget passes leave it.
   * A missing image `src` fails first; otherwise, when no block can fail, the
   * collection fails exactly when a phase cannot be read.
   */
  ghost predicate Collected(els: seq<Element>, phases: seq<PhaseNode>, now: seq<Element>, interactive: bool,
                            randomId: (Kind, nat) -> string, frames: seq<Frame>, encode: string -> string,
                            r: Result<EpubJob, Fault>) {
    && (MissingSrc(els) ==> r == Failure(NullAttribute("src")))
    && (!MissingSrc(els) && (interactive ==> First(Base, els).Some?)
        && IdsNonEmpty(randomId) ==>
          (r.Success? <==> BodyChapters(phases).Success?))
    && (r.Success? ==>
          && BodyChapters(phases).Success?
          && r.value.title == TitleOf(els)
          && r.value.author == "Anonymous"
          && r.value.background == BackgroundOf(els)
          && r.value.chapters == [RegionChapter("Introduction", Introduction, els)]
                                 + Body(phases, interactive)
                                 + [RegionChapter("Tools", Tools, els)]
          && r.value.screenshots == ExpectedShots(els, interactive, randomId)
          && |r.value.screenshots| == ScreenshotCount(els, interactive)
          && AllScreenshotPaths(r.value.screenshots)
          && Progress(AfterImages(els), now, Widgets(), interactive, randomId, frames, encode)
          && forall i :: 0 <= i < |now| ==> !Screenshotted(now[i].kind, interactive))
  }

  /**
   * `saveEpub` up to the call of `generateEpub`: read the title and background,
   * make image sources absolute, run the seven category blocks in the order of
   * the source, read introduction, phases and tools, and concatenate the
   * screenshot lists in the order audio, gadgets, embeds, labs, objects,
   * unsupported, offline-ready iframes. Each screenshot is written to `fs`
   * when it is taken: a missing image `src` writes none, a collection that
   * succeeds has written exactly the listed ones, and any other failure has
   * written some of the paths `ExpectedShots` lists.
   */
  method CollectEpub(page: Page, interactive: bool, randomId: (Kind, nat) -> string,
                     frames: seq<Frame>, encode: string -> string, fs: FileSystem)
    returns (r: Result<EpubJob, Fault>)
    modifies page`elements, page`trace, fs`files
    ensures Collected(old(page.elements), page.phases, page.elements, interactive, randomId, frames, encode, r)
    ensures MissingSrc(old(page.elements)) ==> fs.files == old(fs.files)
    ensures r.Success? ==> fs.files == old(fs.files) + SetOf(r.value.screenshots)
    ensures old(fs.files) <= fs.files <= old(fs.files) + SetOf(ExpectedShots(old(page.elements), interactive, randomId))
  {
    ghost var els := page.elements;
    var title := TitleOf(page.elements);
    var author := "Anonymous";
    var background := BackgroundOf(page.elements);
    var res := AbsoluteImages(page);
    if res.Fail? {
      r := Failure(res.error);
      return;
    }
    ghost var mid := page.elements;
    ImagesOnly(els, mid, interactive, randomId);
    var screenshots := WidgetBlocks(page, interactive, randomId, frames, encode, fs);
    if screenshots.Failure? {
      r := Failure(screenshots.error);
      CollectedBlockFault(els, page.phases, mid, page.elements, interactive, randomId, frames, encode, r);
      return;
    }
    var body := BodyChapters(page.phases);
    if body.Failure? {
      r := Failure(body.error);
      return;
    }
    var chapters := [RegionChapter("Introduction", Introduction, page.elements)]
                    + Body(page.phases, interactive)
                    + [RegionChapter("Tools", Tools, page.elements)];
    r := Success(EpubJob(title, author, chapters, background, screenshots.value));
    CollectedSuccess(els, page.phases, mid, page.elements, interactive, randomId, frames, encode, r);
  }

  /** A failing widget block fails the collection only when a block can fail on the original page. */
  lemma CollectedBlockFault(els: seq<Element>, phases: seq<PhaseNode>, mid: seq<Element>, now: seq<Element>,
                            interactive: bool, randomId: (Kind, nat) -> string, frames: seq<Frame>,
                            encode: string -> string, r: Result<EpubJob, Fault>)
    requires !MissingSrc(els)
    requires mid == AfterImages(els) && AnyFault(interactive, mid, randomId) && r.Failure?
    ensures Collected(els, phases, now, interactive, randomId, frames, encode, r)
  {
    ImagesOnly(els, mid, interactive, randomId);
  }

  /** A successful collection holds what `Collected` states. */
  lemma CollectedSuccess(els: seq<Element>, phases: seq<PhaseNode>, mid: seq<Element>, now: seq<Element>,
                         interactive: bool, randomId: (Kind, nat) -> string, frames: seq<Frame>,
                         encode: string -> string, r: Result<EpubJob, Fault>)
    requires !MissingSrc(els)
    requires mid == AfterImages(els)
    requires Progress(mid, now, Widgets(), interactive, randomId, frames, encode)
    requires BodyChapters(phases).Success?
    requires r == Success(EpubJob(TitleOf(els), "Anonymous",
                                  [RegionChapter("Introduction", Introduction, now)]
                                  + Body(phases, interactive)
                                  + [RegionChapter("Tools", Tools, now)],
                                  BackgroundOf(els), ExpectedShots(mid, interactive, randomId)))
    ensures Collected(els, phases, now, interactive, randomId, frames, encode, r)
  {
    ImagesOnly(els, mid, interactive, randomId);
    ExpectedShotsShape(els, interactive, randomId);
    WidgetsDone(els, mid, now, interactive, randomId, frames, encode);
  }

  /** The page once `makeImageSourcesAbsolute` has rewritten every image's source against the host. */
  function AfterImages(els: seq<Element>): seq<Element> {
    MapAt(els, Select(Image, els), e => AbsoluteImage(e, Config.GRAASP_HOST))
  }

  /** `page.$$eval(IMAGES, makeImageSourcesAbsolute, GRAASP_HOST)`, the first pass over the page. */
  method AbsoluteImages(page: Page) returns (r: Outcome<Fault>)
    modifies page`elements
    ensures var images := Select(Image, old(page.elements));
      && (r.Fail? <==> LeadingWithSrc(old(page.elements), images) < |images|)
      && (r.Fail? ==> r.error == NullAttribute("src"))
      && (r.Pass? ==> page.elements == MapAt(old(page.elements), images, e => AbsoluteImage(e, Config.GRAASP_HOST)))
  {
    var images := Select(Image, page.elements);
    r := MakeImageSourcesAbsolute(images, page, Config.GRAASP_HOST);
    AllHandles(images);
  }

  /** Rewriting image sources touches only images, so the widget blocks see their categories and the base as before. */
  lemma ImagesOnly(els: seq<Element>, mid: seq<Element>, interactive: bool, randomId: (Kind, nat) -> string)
    requires mid == AfterImages(els)
    ensures Kept(els, mid, {Image})
    ensures First(Base, mid) == First(Base, els)
    ensures ExpectedShots(mid, interactive, randomId) == ExpectedShots(els, interactive, randomId)
  {
    MapAtKept(els, Select(Image, els), e => AbsoluteImage(e, Config.GRAASP_HOST), Image);
    KeptSelect(els, mid, {Image}, Base);
    ShotsKept(els, mid, interactive, randomId, Audio);
    ShotsKept(els, mid, interactive, randomId, Gadget);
    ShotsKept(els, mid, interactive, randomId, Embedded);
    ShotsKept(els, mid, interactive, randomId, Lab);
    ShotsKept(els, mid, interactive, randomId, ObjectDoc);
    ShotsKept(els, mid, interactive, randomId, Unsupported);
    ShotsKept(els, mid, interactive, randomId, OfflineIframe);
  }

  lemma ShotsKept(els: seq<Element>, mid: seq<Element>, interactive: bool, randomId: (Kind, nat) -> string, kind: Kind)
    requires Kept(els, mid, {Image}) && IsWidget(kind)
    ensures CategoryShots(kind, interactive, mid, randomId) == CategoryShots(kind, interactive, els, randomId)
  {
    KeptSelect(els, mid, {Image}, kind);
    var hs := Select(kind, els);
    forall k | 0 <= k < |hs| ensures mid[hs[k]] == els[hs[k]] {
      assert els[hs[k]].kind == kind;
    }
  }

  /** After all seven blocks: the regions read afterwards are as before, and nothing static exports replace is left. */
  lemma WidgetsDone(els: seq<Element>, mid: seq<Element>, now: seq<Element>, interactive: bool,
                    randomId: (Kind, nat) -> string, frames: seq<Frame>, encode: string -> string)
    requires Kept(els, mid, {Image})
    requires Progress(mid, now, Widgets(), interactive, randomId, frames, encode)
    ensures RegionChapter("Introduction", Introduction, now) == RegionChapter("Introduction", Introduction, els)
    ensures RegionChapter("Tools", Tools, now) == RegionChapter("Tools", Tools, els)
    ensures forall i :: 0 <= i < |now| ==> !Screenshotted(now[i].kind, interactive)
  {
    KeptTrans(els, mid, now, {Image}, Widgets());
    RegionKept(els, now, {Image} + Widgets(), "Introduction", Introduction);
    RegionKept(els, now, {Image} + Widgets(), "Tools", Tools);
    forall i | 0 <= i < |now| ensures !Screenshotted(now[i].kind, interactive) {
      NotLeft(mid, now, interactive, randomId, frames, encode, i);
    }
  }

  /** After the seven blocks, an element is not of a kind static exports replace. */
  lemma NotLeft(mid: seq<Element>, now: seq<Element>, interactive: bool,
                randomId: (Kind, nat) -> string, frames: seq<Frame>, encode: string -> string, i: nat)
    requires Progress(mid, now, Widgets(), interactive, randomId, frames, encode) && i < |now|
    ensures !Screenshotted(now[i].kind, interactive)
  {
    var kd := mid[i].kind;
    if kd in Widgets() {
      var hs := Select(kd, mid);
      assert i in hs;
      var k :| 0 <= k < |hs| && hs[k] == i;
      ProgressAt(mid, now, Widgets(), interactive, randomId, frames, encode, kd, k);
    } else {
      assert now[i] == mid[i];
    }
  }

  /** One element of a finished category, as `Progress` states it. */
  lemma ProgressAt(start: seq<Element>, now: seq<Element>, done: set<Kind>, interactive: bool,
                   randomId: (Kind, nat) -> string, frames: seq<Frame>, encode: string -> string, kind: Kind, k: nat)
    requires Progress(start, now, done, interactive, randomId, frames, encode)
    requires kind in done && IsWidget(kind) && k < |Select(kind, start)|
    ensures now[Select(kind, start)[k]] == Transformed(start, kind, k, interactive, randomId, frames, encode)
  {
  }

  lemma RegionKept(els: seq<Element>, now: seq<Element>, touched: set<Kind>, title: string, kind: Kind)
    requires Kept(els, now, touched) && kind !in touched && kind != Image
    ensures RegionChapter(title, kind, now) == RegionChapter(title, kind, els)
  {
    KeptSelect(els, now, touched, kind);
  }
  // ---------------------------------------------------------------------------
  // generateEpub

  datatype EpubOptions = EpubOptions(
    title: string,
    author: string,
    publisher: string,
    cover: string,
    content: seq<Chapter>,
    output: string,
    tempDir: string)

  /** The options handed to the epub library; `name` is the random file name. */
  function OptionsFor(job: EpubJob, name: string): (o: EpubOptions)
    ensures o.content == FilterChapters(job.chapters)
    ensures StartsWith(o.output, Config.TMP_FOLDER + "/") && EndsWith(o.output, ".epub")
    ensures o.title == job.title && o.author == job.author && o.cover == Config.COVER_PATH
  {
    var output := Config.TMP_FOLDER + "/" + name + ".epub";
    assert output[..|Config.TMP_FOLDER + "/"|] == Config.TMP_FOLDER + "/";
    assert output[|output| - 5..] == ".epub";
    EpubOptions(job.title, job.author, "Graasp", Config.COVER_PATH, FilterChapters(job.chapters), output, Config.TMP_FOLDER)
  }

  /** The temporary files `generateEpub` removes after reading the book back. */
  function Temporaries(job: EpubJob, name: string): seq<string> {
    [OptionsFor(job, name).output] + job.screenshots + [Config.COVER_PATH]
  }

  /**
   * What `generateEpub` does for `job` when the files before are `files0` and
   * the removals logged before are `removals0`: it succeeds exactly when the
   * library and the read succeed, with the library's bytes; on success every
   * temporary is removed but those whose removal fails, and on failure the
   * cover, and the book when the library wrote it, stay behind.
   */
  ghost predicate Generated(job: EpubJob, name: string, library: EpubOptions -> Option<seq<bv8>>,
                            readSucceeds: bool, failing: set<string>,
                            files0: set<string>, removals0: seq<string>, files: set<string>, removals: seq<string>,
                            r: Result<Blob, Fault>) {
    var o := OptionsFor(job, name);
    && (r.Success? <==> library(o).Some? && readSucceeds)
    && (library(o).None? ==> r == Failure(LibraryFailure))
    && (library(o).Some? && !readSucceeds ==> r == Failure(StreamFailure))
    && (r.Success? ==>
          && r.value == Binary(library(o).value)
          && removals == removals0 + Temporaries(job, name)
          && files == (files0 + {Config.COVER_PATH, o.output}) - (set p | p in Temporaries(job, name) && p !in failing))
    && (r.Failure? ==>
          && removals == removals0
          && files == files0 + {Config.COVER_PATH} + (if library(o).Some? then {o.output} else {}))
  }

  /**
   * `generateEpub`: draw the cover, run the epub library (`library`, None when
   * its promise rejects), read the book back (`readSucceeds`), then attempt to
   * remove the book, every screenshot and the cover, each on its own; removals
   * listed in `failing` fail and are only logged.
   */
  method GenerateEpub(job: EpubJob, fs: FileSystem, name: string, library: EpubOptions -> Option<seq<bv8>>,
                      readSucceeds: bool, failing: set<string>)
    returns (r: Result<Blob, Fault>)
    modifies fs`files, fs`removals
    ensures Generated(job, name, library, readSucceeds, failing, old(fs.files), old(fs.removals), fs.files, fs.removals, r)
  {
    fs.Write(Config.COVER_PATH);
    var options := OptionsFor(job, name);
    var book := library(options);
    if book.None? {
      return Failure(LibraryFailure);
    }
    fs.Write(options.output);
    if !readSucceeds {
      return Failure(StreamFailure);
    }
    fs.Remove(options.output, options.output in failing);
    fs.RemoveAll(job.screenshots, failing);
    fs.Remove(Config.COVER_PATH, Config.COVER_PATH in failing);
    r := Success(Binary(book.value));
  }

  /**
   * `saveEpub`: collect the book from the page (`Collected` states what `job`
   * holds), then generate it: the bytes are the library's book, and the book,
   * the screenshots and the cover are the temporaries removed. The screenshots
   * were written while collecting, so a book that cannot be generated leaves
   * them in place.
   */
  method SaveEpub(page: Page, interactive: bool, randomId: (Kind, nat) -> string,
                  frames: seq<Frame>, encode: string -> string,
                  fs: FileSystem, name: string, library: EpubOptions -> Option<seq<bv8>>,
                  readSucceeds: bool, failing: set<string>)
    returns (r: Result<Blob, Fault>, job: Result<EpubJob, Fault>)
    modifies page`elements, page`trace, fs
    ensures Collected(old(page.elements), page.phases, page.elements, interactive, randomId, frames, encode, job)
    ensures job.Failure? ==>
      && r == Failure(job.error)
      && fs.removals == old(fs.removals)
      && old(fs.files) <= fs.files <= old(fs.files) + SetOf(ExpectedShots(old(page.elements), interactive, randomId))
    ensures MissingSrc(old(page.elements)) ==> fs.files == old(fs.files)
    ensures job.Success? ==>
      Generated(job.value, name, library, readSucceeds, failing,
                old(fs.files) + SetOf(job.value.screenshots), old(fs.removals), fs.files, fs.removals, r)
  {
    job := CollectEpub(page, interactive, randomId, frames, encode, fs);
    assert fs.removals == old(fs.removals);
    if job.Failure? {
      return Failure(job.error), job;
    }
    ghost var now, phases, collected := page.elements, page.phases, fs.files;
    r := GenerateEpub(job.value, fs, name, library, readSucceeds, failing);
    GeneratedFrom(job.value, name, library, readSucceeds, failing, collected, old(fs.files) + SetOf(job.value.screenshots),
                  old(fs.removals), fs.files, fs.removals, r);
    assert page.elements == now && page.phases == phases;
  }

  /** `Generated` depends on the files before only through their value. */
  lemma GeneratedFrom(job: EpubJob, name: string, library: EpubOptions -> Option<seq<bv8>>,
                      readSucceeds: bool, failing: set<string>,
                      files0: set<string>, files0': set<string>, removals0: seq<string>, files: set<string>, removals: seq<string>,
                      r: Result<Blob, Fault>)
    requires files0 == files0'
    requires Generated(job, name, library, readSucceeds, failing, files0, removals0, files, removals, r)
    ensures Generated(job, name, library, readSucceeds, failing, files0', removals0, files, removals, r)
  { }
}
