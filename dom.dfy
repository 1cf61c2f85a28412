/**
 * The page the exporter works on, seen through the handful of things it reads
 * and writes: a sequence of elements (each with the category its selector puts it
 * in, its attributes, its rendered height and its style height), the phase
 * sections of the space, and a trace of the browser actions taken.
 *
 * An element handle is an index into `elements`. Replacing an element by an
 * image inserts the image right after it and removes the original, so the image
 * takes the original's index and every other handle keeps its meaning.
 */
module Dom {
  import opened Wrappers
  import opened JsText

  /**
   * The selector an element answers to: the widget categories of the page
   * template, images, and the fixed regions the exporter reads.
   */
  datatype Kind =
    | Gadget | Lab | ObjectDoc | Audio | Embedded | OfflineIframe | Unsupported
    | Image | Base | Header | SpaceTitle | Introduction | Tools | Other

  datatype Element = Element(
    kind: Kind,
    attrs: map<string, string>,
    clientHeight: nat,
    styleHeight: Option<string>,
    innerHtml: string)

  /**
   * One phase section of a space: the inner HTML of its title element, the outer
   * HTML of its description element and the inner HTML of its resources element,
   * each None when the section has no such element.
   */
  datatype PhaseNode = PhaseNode(
    title: Option<string>,
    description: Option<string>,
    resources: Option<string>)

  /** A chapter as the exporter builds it: `{ title, data }`, either field possibly undefined. */
  datatype Chapter = Chapter(title: Option<string>, data: Option<string>)

  /** Browser actions the model does not look into, recorded in the page's trace. */
  datatype Action =
    | SetViewport(width: nat, height: nat)
    | Goto(url: string)
    | TypeInto(field: string, text: JsValue)
    | Submit
    | Wait(ms: nat)
    | Screenshot(element: nat, path: string)
    | FullPageScreenshot
    | PrintPdf(format: string, marginTop: string, marginBottom: string, printBackground: bool)
    | CloseBrowser

  /** What can go wrong inside the page. */
  datatype Fault =
    | InvalidBaseUrl                 // `base url is not valid`
    | NullAttribute(name: string)    // a method called on an attribute value that is null
    | NullElement(what: string)      // a property read on an element that is not there
    | MissingId(element: nat)        // `element ... has no id`
    | NoMatch(selector: Kind)        // `$eval` found no element
    | BrowserFailure                 // navigation, sign-in or rendering failed
    | LibraryFailure                 // the epub library rejected
    | StreamFailure                  // reading the generated epub back failed

  class Page {
    var elements: seq<Element>
    var phases: seq<PhaseNode>
    var trace: seq<Action>

    constructor (elements: seq<Element>, phases: seq<PhaseNode>)
      ensures this.elements == elements && this.phases == phases && trace == []
    {
      this.elements := elements;
      this.phases := phases;
      trace := [];
    }
  }

  /** `el.getAttribute(name)` */
  function Attr(el: Element, name: string): Option<string> {
    if name in el.attrs then Some(el.attrs[name]) else None
  }

  /** `el.setAttribute(name, value)` */
  function SetAttr(el: Element, name: string, value: string): (e: Element)
    ensures Attr(e, name) == Some(value)
    ensures forall other :: other != name ==> Attr(e, other) == Attr(el, other)
    ensures e.kind == el.kind && e.clientHeight == el.clientHeight && e.styleHeight == el.styleHeight
  {
    el.(attrs := el.attrs[name := value])
  }

  /** `el.removeAttribute(name)` */
  function RemoveAttr(el: Element, name: string): (e: Element)
    ensures Attr(e, name) == None
    ensures forall other :: other != name ==> Attr(e, other) == Attr(el, other)
    ensures e.kind == el.kind && e.clientHeight == el.clientHeight && e.styleHeight == el.styleHeight
  {
    el.(attrs := el.attrs - {name})
  }

  /** The element's `id` property: its id attribute, or "" when it has none. */
  function IdOf(el: Element): string {
    Attr(el, "id").GetOr("")
  }

  /** Handles that are in range for the page and pairwise distinct, as one `$$` query returns them. */
  predicate Handles(hs: seq<nat>, els: seq<Element>) {
    && (forall k :: 0 <= k < |hs| ==> hs[k] < |els|)
    && (forall j, k :: 0 <= j < k < |hs| ==> hs[j] != hs[k])
  }

  /** `$$(selector)`: the indices of the elements of the given kind, in document order. */
  function Select(kind: Kind, els: seq<Element>): (r: seq<nat>)
    ensures Handles(r, els)
    ensures forall k :: 0 <= k < |r| ==> els[r[k]].kind == kind
    ensures forall i :: 0 <= i < |els| && els[i].kind == kind ==> i in r
    ensures forall j, k :: 0 <= j < k < |r| ==> r[j] < r[k]
  {
    SelectBelowFacts(kind, els, |els|);
    SelectBelow(kind, els, |els|)
  }

  /** The indices below `n` of the elements of the given kind, in document order. */
  function SelectBelow(kind: Kind, els: seq<Element>, n: nat): seq<nat>
    requires n <= |els|
  {
    if n == 0 then []
    else SelectBelow(kind, els, n - 1) + (if els[n - 1].kind == kind then [n - 1] else [])
  }

  lemma {:induction false} SelectBelowFacts(kind: Kind, els: seq<Element>, n: nat)
    requires n <= |els|
    ensures forall k :: 0 <= k < |SelectBelow(kind, els, n)| ==>
      SelectBelow(kind, els, n)[k] < n && els[SelectBelow(kind, els, n)[k]].kind == kind
    ensures forall i :: 0 <= i < n && els[i].kind == kind ==> i in SelectBelow(kind, els, n)
    ensures forall j, k :: 0 <= j < k < |SelectBelow(kind, els, n)| ==> SelectBelow(kind, els, n)[j] < SelectBelow(kind, els, n)[k]
  {
    if n > 0 {
      SelectBelowFacts(kind, els, n - 1);
    }
  }

  /** `$(selector)` / `$eval(selector, ...)`: the first element of the kind, if any. */
  function First(kind: Kind, els: seq<Element>): (r: Option<nat>)
    ensures r.Some? ==> r.value < |els| && els[r.value].kind == kind
                        && forall i :: 0 <= i < r.value ==> els[i].kind != kind
    ensures r.None? ==> forall i :: 0 <= i < |els| ==> els[i].kind != kind
  {
    var s := Select(kind, els);
    if s == [] then None
    else
      Some(s[0])
  }

  /** The number of elements of a kind. */
  function Count(kind: Kind, els: seq<Element>): nat
    decreases |els|
  {
    if els == [] then 0
    else Count(kind, els[..|els| - 1]) + (if els[|els| - 1].kind == kind then 1 else 0)
  }

  /** `$$` returns as many handles as there are elements of the kind. */
  lemma {:induction false} CountSelect(kind: Kind, els: seq<Element>)
    ensures |Select(kind, els)| == Count(kind, els)
  {
    CountSelectBelow(kind, els, |els|);
    assert els[..|els|] == els;
  }

  lemma {:induction false} CountSelectBelow(kind: Kind, els: seq<Element>, n: nat)
    requires n <= |els|
    ensures |SelectBelow(kind, els, n)| == Count(kind, els[..n])
  {
    if n > 0 {
      CountSelectBelow(kind, els, n - 1);
      assert els[..n][..n - 1] == els[..n - 1];
    }
  }

  /**
   * Changing elements without changing which of them have the kind leaves the
   * query's answer as it was.
   */
  lemma {:induction false} SelectKeepsKinds(kind: Kind, a: seq<Element>, b: seq<Element>, n: nat)
    requires |a| == |b| && n <= |a|
    requires forall i :: 0 <= i < |a| ==> (a[i].kind == kind <==> b[i].kind == kind)
    ensures SelectBelow(kind, a, n) == SelectBelow(kind, b, n)
  {
    if n > 0 { SelectKeepsKinds(kind, a, b, n - 1); }
  }

  lemma SameKinds(kind: Kind, a: seq<Element>, b: seq<Element>)
    requires |a| == |b|
    requires forall i :: 0 <= i < |a| ==> (a[i].kind == kind <==> b[i].kind == kind)
    ensures Select(kind, a) == Select(kind, b)
    ensures First(kind, a) == First(kind, b)
  {
    SelectKeepsKinds(kind, a, b, |a|);
  }
}
