/**
 * Rendering a space in src/services/export.js: `formatSpace` (which output the
 * requested format gives), the authentication switch and the sequence of
 * browser steps in `scrape`, and the parameter handling of `convertSpaceToFile`.
 *
 * The browser is an oracle: whether it could be reached at all, whether it
 * carries out each step, and the bytes a full-page screenshot or a PDF print
 * give. The login-type endpoint is an oracle from its URL to its reply.
 */
module Scrape {
  import opened Wrappers
  import opened JsText
  import opened Dom
  import opened Files
  import opened Transforms
  import opened Epub
  import Config

  // ---------------------------------------------------------------------------
  // the environment

  /** What the EPUB writer needs from the outside: random ids, child frames, the HTML encoder, the library and the disk. */
  datatype EpubEnv = EpubEnv(
    randomId: (Kind, nat) -> string,
    frames: seq<Frame>,
    encode: string -> string,
    name: string,
    library: EpubOptions -> Option<seq<bv8>>,
    readSucceeds: bool,
    failing: set<string>)

  /**
   * A value as the destructuring in `scrape` sees it: undefined, null, or an
   * object whose `auth` field holds a value (undefined when the field is absent).
   */
  datatype Payload = Missing | NullPayload | Fields(auth: JsValue)

  /** The reply of the login-type request: the `body` field of the resolved value, or a rejection's `error`. */
  datatype LoginTypeReply = Answered(body: Payload) | Refused(error: Payload)

  datatype Env = Env(
    connects: bool,
    accepts: Action -> bool,
    render: Action -> Option<seq<bv8>>,
    loginType: string -> LoginTypeReply,
    epub: EpubEnv)

  // ---------------------------------------------------------------------------
  // formatSpace

  /**
   * The browser call `formatSpace` makes for a format other than `epub`: a
   * full-page screenshot for `png` and an A4 print with 1cm top and bottom
   * margins and backgrounds for every other value, `pdf` included. None for
   * `epub`, which is written by `saveEpub` instead.
   */
  function RenderAction(format: JsValue): (a: Option<Action>)
    ensures a.None? <==> format == Str("epub")
    ensures a == Some(FullPageScreenshot) <==> format == Str("png")
    ensures a.Some? && format != Str("png") ==> a.value == PrintPdf("A4", "1cm", "1cm", true)
  {
    if format == Str("epub") then None
    else if format == Str("png") then Some(FullPageScreenshot)
    else Some(PrintPdf("A4", "1cm", "1cm", true))
  }

  /** The formats for which `formatSpace` prints a PDF are exactly those that are not `epub` and not `png`. */
  lemma PdfByDefault(format: JsValue)
    ensures RenderAction(format) == Some(PrintPdf("A4", "1cm", "1cm", true)) <==>
            format != Str("epub") && format != Str("png")
  {
  }

  /** `formatSpace(page, format, interactive)`: the bytes of the rendered space, or the failure of rendering it. */
  method FormatSpace(page: Page, format: JsValue, interactive: bool, env: Env, fs: FileSystem)
    returns (r: Result<Blob, Fault>)
    modifies page`elements, page`trace, fs
    ensures r.Success? ==> r.value.Binary?
    ensures RenderAction(format).Some? ==>
      var a := RenderAction(format).value;
      && page.trace == old(page.trace) + [a]
      && page.elements == old(page.elements)
      && fs.files == old(fs.files) && fs.removals == old(fs.removals)
      && (r.Success? <==> env.render(a).Some?)
      && (r.Success? ==> r.value == Binary(env.render(a).value))
  {
    var action := RenderAction(format);
    if action.None? {
      var e := env.epub;
      var job;
      r, job := SaveEpub(page, interactive, e.randomId, e.frames, e.encode, fs, e.name, e.library, e.readSucceeds, e.failing);
      return;
    }
    page.trace := page.trace + [action.value];
    var bytes := env.render(action.value);
    if bytes.None? {
      return Failure(BrowserFailure);
    }
    r := Success(Binary(bytes.value));
  }

  // ---------------------------------------------------------------------------
  // the authentication switch of scrape

  /**
   * The `auth` value `scrape` switches on. A resolved reply gives the `auth` of
   * the `body` field of the resolved value, and a rejected one the `auth` of its
   * `error`. Since request-promise-native resolves with the parsed body itself, a
   * 2xx reply `{"auth":"username"}` has no `body` field (`Answered(Missing)`):
   * it gives undefined and sign-in is skipped. An undefined body or error, or a
   * missing field, gives undefined, so the initial anonymous value is always
   * overwritten. A null body makes the first destructuring throw; that error has
   * no `error` field, so the catch block reads undefined. A null error makes
   * the catch block itself throw (None), which ends the scrape.
   */
  function AuthOf(reply: LoginTypeReply): (r: Option<JsValue>)
    ensures r.None? <==> reply == Refused(NullPayload)
    ensures reply.Answered? && reply.body.Fields? ==> r == Some(reply.body.auth)
    ensures reply.Refused? && reply.error.Fields? ==> r == Some(reply.error.auth)
    ensures reply.Answered? && !reply.body.Fields? ==> r == Some(Undefined)
    ensures reply == Refused(Missing) ==> r == Some(Undefined)
  {
    match reply
    case Answered(Fields(auth)) => Some(auth)
    case Answered(_) => Some(Undefined)
    case Refused(Fields(auth)) => Some(auth)
    case Refused(Missing) => Some(Undefined)
    case Refused(NullPayload) => None
  }

  predicate KnownAuth(auth: JsValue) {
    auth == Str(Config.AUTH_TYPE_USERNAME) || auth == Str(Config.AUTH_TYPE_PASSWORD)
    || auth == Str(Config.AUTH_TYPE_ANONYMOUS)
  }

  /**
   * The sign-in steps for an authentication type: the username type fills the
   * username field, the password type fills the username and then the password
   * field, and both submit; the anonymous type only submits; any other value,
   * undefined included, skips sign-in.
   */
  function SignInSteps(auth: JsValue, username: JsValue, password: JsValue): (steps: seq<Action>)
    ensures Submit in steps <==> KnownAuth(auth)
    ensures steps == [] <==> !KnownAuth(auth)
    ensures steps != [] ==> steps[|steps| - 1] == Submit && Submit !in steps[..|steps| - 1]
    ensures TypeInto("#password", password) in steps <==> auth == Str(Config.AUTH_TYPE_PASSWORD)
    ensures TypeInto("#username", username) in steps <==> auth == Str(Config.AUTH_TYPE_USERNAME) || auth == Str(Config.AUTH_TYPE_PASSWORD)
    ensures |steps| <= 3
  {
    if auth == Str(Config.AUTH_TYPE_USERNAME) then [TypeInto("#username", username), Submit]
    else if auth == Str(Config.AUTH_TYPE_PASSWORD) then
      [TypeInto("#username", username), TypeInto("#password", password), Submit]
    else if auth == Str(Config.AUTH_TYPE_ANONYMOUS) then [Submit]
    else []
  }

  /** A login-type reply without an `auth` field leaves the space unsigned, although `auth` starts out anonymous. */
  lemma MissingAuthSkipsSignIn(reply: LoginTypeReply, username: JsValue, password: JsValue)
    requires reply == Answered(Missing) || reply == Refused(Missing) || reply == Answered(NullPayload)
             || reply == Answered(Fields(Undefined)) || reply == Refused(Fields(Undefined))
    ensures AuthOf(reply).Some? && SignInSteps(AuthOf(reply).value, username, password) == []
  {
  }

  // ---------------------------------------------------------------------------
  // steps in the browser

  /** Every step is carried out. */
  predicate AllAccepted(accepts: Action -> bool, steps: seq<Action>) {
    forall k :: 0 <= k < |steps| ==> accepts(steps[k])
  }

  /** The steps the browser is asked to do: all of them, or up to and including the first it refuses. */
  function Attempted(accepts: Action -> bool, steps: seq<Action>): (r: seq<Action>)
    ensures |r| <= |steps| && r == steps[..|r|]
    decreases |steps|
  {
    if steps == [] then []
    else if accepts(steps[0]) then [steps[0]] + Attempted(accepts, steps[1..])
    else [steps[0]]
  }

  /** When every step is carried out, all are attempted; otherwise the attempt stops at the first refused one. */
  lemma {:induction false} AttemptedStops(accepts: Action -> bool, steps: seq<Action>)
    ensures AllAccepted(accepts, steps) ==> Attempted(accepts, steps) == steps
    ensures !AllAccepted(accepts, steps) ==>
      var r := Attempted(accepts, steps);
      && r != [] && !accepts(r[|r| - 1]) && AllAccepted(accepts, r[..|r| - 1])
    decreases |steps|
  {
    if steps != [] {
      AttemptedStops(accepts, steps[1..]);
      var r := Attempted(accepts, steps);
      if accepts(steps[0]) {
        var rest := Attempted(accepts, steps[1..]);
        assert r == [steps[0]] + rest;
        if AllAccepted(accepts, steps[1..]) {
          assert steps == [steps[0]] + steps[1..];
        } else {
          assert r[|r| - 1] == rest[|rest| - 1];
          assert r[..|r| - 1] == [steps[0]] + rest[..|rest| - 1];
          assert forall k :: 0 <= k < |r| - 1 ==> r[k] == if k == 0 then steps[0] else rest[k - 1];
        }
        if AllAccepted(accepts, steps) {
          assert forall k :: 0 <= k < |steps[1..]| ==> steps[1..][k] == steps[k + 1];
        }
      } else {
        assert r == [steps[0]];
      }
    }
  }

  lemma AttemptedSingle(accepts: Action -> bool, step: Action)
    ensures Attempted(accepts, [step]) == [step]
  {
    assert [step][1..] == [];
  }

  lemma AllAcceptedAppend(accepts: Action -> bool, a: seq<Action>, b: seq<Action>)
    ensures AllAccepted(accepts, a + b) <==> AllAccepted(accepts, a) && AllAccepted(accepts, b)
  {
    if AllAccepted(accepts, a) && AllAccepted(accepts, b) {
      forall k | 0 <= k < |a + b| ensures accepts((a + b)[k]) {
        if k >= |a| { assert (a + b)[k] == b[k - |a|]; }
      }
    }
    if AllAccepted(accepts, a + b) {
      forall k | 0 <= k < |b| ensures accepts(b[k]) {
        assert (a + b)[|a| + k] == b[k];
      }
      forall k | 0 <= k < |a| ensures accepts(a[k]) {
        assert (a + b)[k] == a[k];
      }
    }
  }

  lemma AttemptedAppend(accepts: Action -> bool, a: seq<Action>, b: seq<Action>)
    ensures Attempted(accepts, a + b) ==
            if AllAccepted(accepts, a) then a + Attempted(accepts, b) else Attempted(accepts, a)
    decreases |a|
  {
    if a != [] {
      assert (a + b)[0] == a[0];
      assert (a + b)[1..] == a[1..] + b;
      AttemptedAppend(accepts, a[1..], b);
      if accepts(a[0]) {
        if AllAccepted(accepts, a[1..]) {
          assert AllAccepted(accepts, a);
          assert a == [a[0]] + a[1..];
        } else {
          var k :| 0 <= k < |a[1..]| && !accepts(a[1..][k]);
          assert !accepts(a[k + 1]);
        }
      }
    } else {
      assert a + b == b;
    }
  }

  /** One awaited call on the page: recorded, and carried out or refused as the browser decides. */
  method Perform(page: Page, accepts: Action -> bool, step: Action) returns (ok: bool)
    modifies page`trace
    ensures page.trace == old(page.trace) + [step]
    ensures ok == accepts(step)
  {
    page.trace := page.trace + [step];
    ok := accepts(step);
  }

  /** The `switch (auth)` of `scrape`, with `signIn` as one submitting step. */
  method SignIn(page: Page, accepts: Action -> bool, auth: JsValue, username: JsValue, password: JsValue)
    returns (ok: bool)
    modifies page`trace
    ensures page.trace == old(page.trace) + Attempted(accepts, SignInSteps(auth, username, password))
    ensures ok <==> AllAccepted(accepts, SignInSteps(auth, username, password))
  {
    ghost var steps := SignInSteps(auth, username, password);
    AttemptedStops(accepts, steps);
    if auth == Str(Config.AUTH_TYPE_USERNAME) {
      ok := Perform(page, accepts, TypeInto("#username", username));
      if ok {
        ok := Perform(page, accepts, Submit);
      }
    } else if auth == Str(Config.AUTH_TYPE_PASSWORD) {
      ok := Perform(page, accepts, TypeInto("#username", username));
      if ok {
        ok := Perform(page, accepts, TypeInto("#password", password));
        if ok {
          ok := Perform(page, accepts, Submit);
        }
      }
    } else if auth == Str(Config.AUTH_TYPE_ANONYMOUS) {
      ok := Perform(page, accepts, Submit);
    } else {
      ok := true;
    }
  }

  // ---------------------------------------------------------------------------
  // scrape

  /** What `convertSpaceToFile` hands to `scrape`. */
  datatype ScrapeParams = ScrapeParams(
    url: string,
    format: JsValue,
    loginTypeUrl: string,
    username: JsValue,
    password: JsValue,
    interactiveOpt: bool)

  /** The browser steps after the login-type request: visit the space, sign in, and wait for it to settle. */
  function Visit(params: ScrapeParams, auth: JsValue): (steps: seq<Action>)
    ensures |steps| >= 2
    ensures steps[0] == Goto(params.url) && steps[|steps| - 1] == Wait(Config.SETTLE_AFTER_LOGIN_MS)
    ensures SignInSteps(auth, params.username, params.password) == steps[1..|steps| - 1]
  {
    [Goto(params.url)] + SignInSteps(auth, params.username, params.password) + [Wait(Config.SETTLE_AFTER_LOGIN_MS)]
  }

  /** Whether the browser steps before formatting all go through. */
  predicate Reached(params: ScrapeParams, env: Env) {
    && env.accepts(SetViewport(1200, 1200))
    && AuthOf(env.loginType(params.loginTypeUrl)).Some?
    && AllAccepted(env.accepts, Visit(params, AuthOf(env.loginType(params.loginTypeUrl)).value))
  }

  /** The browser steps before formatting that `scrape` attempts. */
  function Browsed(params: ScrapeParams, env: Env): (steps: seq<Action>)
    ensures steps != [] && steps[0] == SetViewport(1200, 1200)
  {
    var auth := AuthOf(env.loginType(params.loginTypeUrl));
    if !env.accepts(SetViewport(1200, 1200)) || auth.None? then [SetViewport(1200, 1200)]
    else [SetViewport(1200, 1200)] + Attempted(env.accepts, Visit(params, auth.value))
  }

  /**
   * `scrape(params)`. Reaching the browser happens before the `try`, so failing
   * to reach it rejects. Every later failure (a refused step, a login-type reply
   * whose error is null, a failed rendering, a failed close) is caught: the
   * browser is closed and the result is `false` (None).
   */
  method Scrape(params: ScrapeParams, page: Page, env: Env, fs: FileSystem) returns (r: Result<Option<Blob>, Fault>)
    modifies page`elements, page`trace, fs
    ensures !env.connects ==> r == Failure(BrowserFailure) && page.trace == old(page.trace)
    ensures env.connects ==> r.Success?
    ensures r.Success? && r.value.Some? ==> Reached(params, env) && r.value.value.Binary?
    ensures env.connects && !Reached(params, env) ==>
      r == Success(None) && page.trace == old(page.trace) + Browsed(params, env) + [CloseBrowser]
    ensures env.connects && Reached(params, env) && RenderAction(params.format).Some? ==>
      var a := RenderAction(params.format).value;
      && (r == Success(None) <==> env.render(a).None? || !env.accepts(CloseBrowser))
      && (r.Success? && r.value.Some? ==> r.value.value == Binary(env.render(a).value))
      && page.trace == old(page.trace) + Browsed(params, env) + [a, CloseBrowser]
                       + (if env.render(a).Some? && !env.accepts(CloseBrowser) then [CloseBrowser] else [])
  {
    if !env.connects {
      return Failure(BrowserFailure);
    }
    var ok := Browse(params, page, env);
    if !ok {
      r := Abandon(page);
      return;
    }
    r := FormatAndClose(params, page, env, fs);
  }

  /**
   * The end of the `try` in `scrape`: format the space and close the browser.
   * A failure of either is caught, closing the browser and giving `false`.
   */
  method FormatAndClose(params: ScrapeParams, page: Page, env: Env, fs: FileSystem) returns (r: Result<Option<Blob>, Fault>)
    modifies page`elements, page`trace, fs
    ensures r.Success?
    ensures r.value.Some? ==> r.value.value.Binary?
    ensures RenderAction(params.format).Some? ==>
      var a := RenderAction(params.format).value;
      && (r == Success(None) <==> env.render(a).None? || !env.accepts(CloseBrowser))
      && (r.value.Some? ==> r.value.value == Binary(env.render(a).value))
      && page.trace == old(page.trace) + [a, CloseBrowser]
                       + (if env.render(a).Some? && !env.accepts(CloseBrowser) then [CloseBrowser] else [])
  {
    var formatted := FormatSpace(page, params.format, params.interactiveOpt, env, fs);
    if formatted.Failure? {
      r := Abandon(page);
      return;
    }
    var closed := Perform(page, env.accepts, CloseBrowser);
    if !closed {
      r := Abandon(page);
      return;
    }
    r := Success(Some(formatted.value));
  }

  /** The steps of `scrape` before formatting: the viewport, the login-type request, and the visit. */
  method Browse(params: ScrapeParams, page: Page, env: Env) returns (ok: bool)
    modifies page`trace
    ensures page.trace == old(page.trace) + Browsed(params, env)
    ensures ok <==> Reached(params, env)
  {
    ok := Perform(page, env.accepts, SetViewport(1200, 1200));
    if !ok {
      return;
    }
    var auth := AuthOf(env.loginType(params.loginTypeUrl));
    if auth.None? {
      return false;
    }
    ok := VisitSpace(page, env.accepts, params, auth.value);
    SeqAssoc(old(page.trace), [SetViewport(1200, 1200)], Attempted(env.accepts, Visit(params, auth.value)));
  }

  /** The catch block of `scrape`: close the browser and give `false`. */
  method Abandon(page: Page) returns (r: Result<Option<Blob>, Fault>)
    modifies page`trace
    ensures r == Success(None) && page.trace == old(page.trace) + [CloseBrowser]
  {
    page.trace := page.trace + [CloseBrowser];
    r := Success(None);
  }

  /** `page.goto(url)`, the sign-in switch and `page.waitFor(5000)`, stopping at the first failure. */
  method VisitSpace(page: Page, accepts: Action -> bool, params: ScrapeParams, auth: JsValue) returns (ok: bool)
    modifies page`trace
    ensures page.trace == old(page.trace) + Attempted(accepts, Visit(params, auth))
    ensures ok <==> AllAccepted(accepts, Visit(params, auth))
  {
    ghost var t0 := page.trace;
    ghost var steps := SignInSteps(auth, params.username, params.password);
    ghost var g, w := [Goto(params.url)], [Wait(Config.SETTLE_AFTER_LOGIN_MS)];
    ok := Perform(page, accepts, Goto(params.url));
    if !ok {
      VisitRefusedAtGoto(accepts, params, auth);
      return;
    }
    ok := SignIn(page, accepts, auth, params.username, params.password);
    if !ok {
      VisitRefusedInSignIn(accepts, params, auth);
      SeqAssoc(t0, g, Attempted(accepts, steps));
      return;
    }
    VisitThroughSignIn(accepts, params, auth);
    AttemptedStops(accepts, steps);
    ok := Perform(page, accepts, Wait(Config.SETTLE_AFTER_LOGIN_MS));
    SeqAssoc(t0, g, steps);
    SeqAssoc(t0, g + steps, w);
    SeqAssoc(g, steps, w);
  }

  /** A visit whose goto is refused stops there. */
  lemma VisitRefusedAtGoto(accepts: Action -> bool, params: ScrapeParams, auth: JsValue)
    requires !accepts(Goto(params.url))
    ensures Attempted(accepts, Visit(params, auth)) == [Goto(params.url)]
    ensures !AllAccepted(accepts, Visit(params, auth))
  {
    var v := Visit(params, auth);
    assert v[0] == Goto(params.url);
  }

  /** Steps between two single steps: a refusal among them stops the attempt there. */
  lemma RefusedBetween(accepts: Action -> bool, first: Action, steps: seq<Action>, last: Action)
    requires accepts(first) && !AllAccepted(accepts, steps)
    ensures Attempted(accepts, [first] + (steps + [last])) == [first] + Attempted(accepts, steps)
    ensures !AllAccepted(accepts, [first] + (steps + [last]))
  {
    AttemptedSingle(accepts, first);
    assert AllAccepted(accepts, [first]);
    AttemptedAppend(accepts, [first], steps + [last]);
    AllAcceptedAppend(accepts, [first], steps + [last]);
    AttemptedAppend(accepts, steps, [last]);
    AllAcceptedAppend(accepts, steps, [last]);
  }

  /** Steps between two single steps: when all go through, the last one is attempted and decides. */
  lemma ThroughBetween(accepts: Action -> bool, first: Action, steps: seq<Action>, last: Action)
    requires accepts(first) && AllAccepted(accepts, steps)
    ensures Attempted(accepts, [first] + (steps + [last])) == [first] + (steps + [last])
    ensures AllAccepted(accepts, [first] + (steps + [last])) <==> accepts(last)
  {
    AttemptedSingle(accepts, first);
    assert AllAccepted(accepts, [first]);
    AttemptedAppend(accepts, [first], steps + [last]);
    AllAcceptedAppend(accepts, [first], steps + [last]);
    AttemptedAppend(accepts, steps, [last]);
    AllAcceptedAppend(accepts, steps, [last]);
    AttemptedSingle(accepts, last);
    assert AllAccepted(accepts, [last]) <==> accepts([last][0]);
  }

  /** A visit whose sign-in is refused stops inside the sign-in steps. */
  lemma VisitRefusedInSignIn(accepts: Action -> bool, params: ScrapeParams, auth: JsValue)
    requires accepts(Goto(params.url))
    requires !AllAccepted(accepts, SignInSteps(auth, params.username, params.password))
    ensures Attempted(accepts, Visit(params, auth))
            == [Goto(params.url)] + Attempted(accepts, SignInSteps(auth, params.username, params.password))
    ensures !AllAccepted(accepts, Visit(params, auth))
  {
    var steps := SignInSteps(auth, params.username, params.password);
    var w := Wait(Config.SETTLE_AFTER_LOGIN_MS);
    assert Visit(params, auth) == [Goto(params.url)] + (steps + [w]);
    RefusedBetween(accepts, Goto(params.url), steps, w);
  }

  /** A visit that gets through the sign-in attempts the wait, and succeeds when the wait does. */
  lemma VisitThroughSignIn(accepts: Action -> bool, params: ScrapeParams, auth: JsValue)
    requires accepts(Goto(params.url))
    requires AllAccepted(accepts, SignInSteps(auth, params.username, params.password))
    ensures Attempted(accepts, Visit(params, auth))
            == [Goto(params.url)] + (SignInSteps(auth, params.username, params.password) + [Wait(Config.SETTLE_AFTER_LOGIN_MS)])
    ensures AllAccepted(accepts, Visit(params, auth)) <==> accepts(Wait(Config.SETTLE_AFTER_LOGIN_MS))
  {
    var steps := SignInSteps(auth, params.username, params.password);
    var w := Wait(Config.SETTLE_AFTER_LOGIN_MS);
    assert Visit(params, auth) == [Goto(params.url)] + (steps + [w]);
    ThroughBetween(accepts, Goto(params.url), steps, w);
  }

  // ---------------------------------------------------------------------------
  // convertSpaceToFile

  /** The token `convertSpaceToFile` keeps: a `Bearer ` prefix at index 0 is stripped, anything else is kept whole. */
  function TokenOf(authorization: Option<string>): (r: Option<string>)
    ensures r.None? <==> authorization.None?
    ensures authorization.Some? && StartsWith(authorization.value, "Bearer ") ==>
              r.value == authorization.value[7..]
    ensures authorization.Some? && !StartsWith(authorization.value, "Bearer ") ==> r == authorization
  {
    match authorization
    case None => None
    case Some(t) => if t != "" && StartsWith(t, "Bearer ") then Some(t[7..]) else authorization
  }

  /** Stripping the prefix undoes adding it. */
  lemma BearerRoundTrip(token: string)
    ensures TokenOf(Some("Bearer " + token)) == Some(token)
  {
    assert ("Bearer " + token)[..7] == "Bearer ";
    assert ("Bearer " + token)[7..] == token;
  }

  /** A `Bearer ` later in the header is not a prefix and is kept. */
  lemma BearerOnlyAtStart()
    ensures TokenOf(Some("Token Bearer x")) == Some("Token Bearer x")
  {
    assert "Token Bearer x"[0] == 'T';
    assert !StartsWith("Token Bearer x", "Bearer ");
  }

  /** `params.authorization = token`: the request body gains the token when it is non-empty. */
  function AuthorizedBody(body: map<string, JsValue>, authorization: Option<string>): (b: map<string, JsValue>)
    ensures var t := TokenOf(authorization);
      && (t.Some? && t.value != "" ==> b == body["authorization" := Str(t.value)])
      && (t.None? || t.value == "" ==> b == body)
  {
    var t := TokenOf(authorization);
    if t.Some? && t.value != "" then body["authorization" := Str(t.value)] else body
  }

  /** The parameters `convertSpaceToFile` derives from the request. */
  function ParamsOf(id: string, body: map<string, JsValue>): (p: ScrapeParams)
    ensures p.url == Config.GRAASP_HOST + "/" + Interpolate(WithDefault(Field(body, "lang"), Str("en"))) + "/pages/" + id + "/export"
    ensures Field(body, "lang") == Undefined ==> p.url == Config.GRAASP_HOST + "/en/pages/" + id + "/export"
    ensures p.loginTypeUrl == Config.AUTH_TYPE_HOST + "/" + id
    ensures p.format == WithDefault(Field(body, "format"), Str("pdf"))
    ensures p.username == Field(body, "username") && p.password == Field(body, "password")
    ensures p.interactiveOpt <==> Field(body, "interactive") == Str("true")
  {
    var lang := WithDefault(Field(body, "lang"), Str("en"));
    var url := Config.GRAASP_HOST + "/" + Interpolate(lang) + "/pages/" + id + "/export";
    assert Interpolate(Str("en")) == "en";
    assert Config.GRAASP_HOST + "/" + "en" + "/pages/" + id + "/export" == Config.GRAASP_HOST + "/en/pages/" + id + "/export";
    ScrapeParams(
      url,
      WithDefault(Field(body, "format"), Str("pdf")),
      Config.AUTH_TYPE_HOST + "/" + id,
      Field(body, "username"),
      Field(body, "password"),
      Field(body, "interactive") == Str("true"))
  }

  /** Only the exact string `true` turns on interactive mode: a boolean true does not. */
  lemma InteractiveOnlyForString(id: string, body: map<string, JsValue>)
    requires Field(body, "interactive") == Bool(true)
    ensures !ParamsOf(id, body).interactiveOpt
  {
  }

  /** Why `convertSpaceToFile` fails: the scrape rejected, or it gave `false`. */
  datatype ConvertError = ScrapeRejected(fault: Fault) | NotPrinted(message: string)

  /** The message of the error for a space that could not be printed: the URL without its query. */
  function NotPrintedMessage(url: string): (m: string)
    ensures m == "space " + BeforeFirst(url, '?') + " could not be printed"
  {
    "space " + BeforeFirst(url, '?') + " could not be printed"
  }

  /** The URL shown in the message is a prefix of the space's URL, cut before any query. */
  lemma NotPrintedShowsUrl(url: string)
    ensures var shown := NotPrintedMessage(url)[6..|NotPrintedMessage(url)| - 21];
      && StartsWith(url, shown) && '?' !in shown
      && ('?' !in url ==> shown == url)
  {
    var b := BeforeFirst(url, '?');
    var m := NotPrintedMessage(url);
    assert m[6..|m| - 21] == b;
    if '?' !in url {
      BeforeFirstAbsent(url, '?');
    }
  }

  lemma {:induction false} BeforeFirstAbsent(s: string, c: char)
    requires c !in s
    ensures BeforeFirst(s, c) == s
    decreases |s|
  {
    if s != [] {
      assert c !in s[1..];
      BeforeFirstAbsent(s[1..], c);
      assert s == [s[0]] + s[1..];
    }
  }

  /**
   * `convertSpaceToFile(id, body, headers)`: the rendered file, or why there is
   * none. The body comes back with the token written into it; the token is not
   * passed on to `scrape`.
   */
  method ConvertSpaceToFile(id: string, body: map<string, JsValue>, authorization: Option<string>,
                            page: Page, env: Env, fs: FileSystem)
    returns (r: Result<Blob, ConvertError>, updatedBody: map<string, JsValue>)
    modifies page`elements, page`trace, fs
    ensures updatedBody == AuthorizedBody(body, authorization)
    ensures !env.connects ==> r == Failure(ScrapeRejected(BrowserFailure))
    ensures env.connects && !Reached(ParamsOf(id, body), env) ==>
              r == Failure(NotPrinted(NotPrintedMessage(ParamsOf(id, body).url)))
    ensures r.Failure? && r.error.NotPrinted? ==> r.error.message == NotPrintedMessage(ParamsOf(id, body).url)
    ensures r.Success? ==> Reached(ParamsOf(id, body), env) && r.value.Binary?
    ensures env.connects && Reached(ParamsOf(id, body), env) && RenderAction(ParamsOf(id, body).format).Some? ==>
              var a := RenderAction(ParamsOf(id, body).format).value;
              && (r.Success? <==> env.render(a).Some? && env.accepts(CloseBrowser))
              && (r.Success? ==> r.value == Binary(env.render(a).value))
  {
    updatedBody := AuthorizedBody(body, authorization);
    var params := ParamsOf(id, body);
    var page' := Scrape(params, page, env, fs);
    if page'.Failure? {
      return Failure(ScrapeRejected(page'.error)), updatedBody;
    }
    if page'.value.None? {
      var prettyUrl := BeforeFirst(params.url, '?');
      return Failure(NotPrinted("space " + prettyUrl + " could not be printed")), updatedBody;
    }
    r := Success(page'.value.value);
  }
}
