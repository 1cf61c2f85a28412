# graasp exporter core, modelled in Dafny

The exporter turns a Graasp learning space into a PDF, a PNG or an EPUB. A
headless browser loads the space and signs in. The exporter then rewrites the
live page: it makes links absolute, screenshots widgets or inlines them, and
stretches iframes to their content height. Finally it renders the result. An
HTTP front end queues export jobs and answers polls. It finds finished jobs by
looking for a blob stored under the job's file id.

This project models four parts of that core:

- **Link and URL normalisers** (module `Links`). These are pure string
  functions: the current `makeElementLinkAbsolute` and the older helpers
  `makeElementLinkAbsolute`, `makeImageSourcesAbsolute`, `getBackground` and
  `retrieveBaseUrl`.
- **DOM transform primitives** (modules `Dom`, `Utils`, `Transforms`). The
  page is a `Page` object holding a sequence of elements, the space's phase
  sections and a trace of browser actions. An element handle is an index into
  that sequence. Each primitive and each `for … of` loop is a method. Its
  `ensures` says exactly which elements change and how. Every other element
  stays as it was.
- **EPUB assembly** (modules `Epub`, `Entities`, `Files`, `Scrape`). This
  covers the strategy per widget category in `saveEpub`, the chapter list and
  its filter, and the screenshot list. It also covers the `&amp;` repair of
  XML entity references (sections 4.1 and 4.6 of XML 1.0) and the clean-up of
  temporary files in `generateEpub`. Finally it covers `formatSpace`, the
  authentication switch and step sequence of `scrape`, and the parameter
  handling of `convertSpaceToFile`.
- **Job lifecycle** (module `Jobs`). A `JobStore` object holds the object
  store, as a map from key to blob, and the log of published queue messages.
  `postExport` validates a request and queues it. `generateExport` uploads the
  file, or a dry-run report, under the job's file id. `getExport` reports a
  job as pending, returns its report, or answers 303 See Other (section 6.4.4
  of RFC 7231) pointing at the stored file.

Browser steps, the epub library, the HTML entity encoder, random strings,
clocks, the login-type endpoint, S3 and SNS are parameters of the model. They
are oracle functions or flags, so every contract holds whatever they do.

Some behaviours of the code are easy to mistake, and the model keeps them as
written:

- `retrieveBaseUrl` does not normalise its result. An href of `//h` gives
  `https:/h` with one slash. An empty href stays empty. No trailing slash is
  added (`Links.BaseUrlExamples`).
- The render mode is the boolean `interactive`, true only for the string
  `'true'`. It is not a three-valued mode.
- The widget blocks run in the order gadgets, labs, objects, audio, embeds,
  offline-ready iframes, unsupported. Screenshots are concatenated in the
  order audio, gadgets, embeds, labs, objects, unsupported, offline-ready
  iframes.
- `generateEpub` removes the temporary files only after the generated book
  was read back. When the epub library or the read stream fails, nothing is
  removed.
- Iframe inlining does not use a language fallback. It uses the content of
  the live child frames.

## Model

| member | source | states |
|---|---|---|
| `Links.AbsoluteLink` | src/services/utils.js:33-41 | with a valid base, the link written back always starts with `http` |
| `Links.AbsoluteLinkCases` | src/services/utils.js:34-40 | `./x` becomes base + `x`; `//h/x` becomes `https:` + the link; an `http` link is kept; anything else becomes base + link |
| `Links.AbsoluteLinkFixedPoints` | src/services/utils.js:33-41 | with a valid base, the rewrite leaves a link unchanged exactly when it starts with `http` |
| `Links.AbsoluteLinkIdempotent` | src/services/utils.js:33-41 | with a valid base, rewriting twice equals rewriting once |
| `Links.DotSlashExample` | src/services/export.test.js:497-503 | `./example.com` against `https://example.com/` gives `https://example.com/example.com` |
| `Links.BareHostExample` | src/services/export.test.js:489-495 | `example.com` against `https://example.com/` gives `https://example.com/example.com` |
| `Links.ProtocolRelativeExample` | src/services/export.test.js:481-487 | `//example.com` gives `https://example.com` |
| `Links.HttpExample` | src/services/export.test.js:457-463 | `http://example.com` is kept against `https://example.com/` |
| `Links.InvalidBaseExamples` | src/services/export.test.js:465-479 | `https:/example.com` (no trailing slash) and `example.com/` (no `http`) are invalid bases |
| `Links.LegacyRewrite` | src/services/export.js:258-272 | the older helper writes exactly when the attribute is a non-empty link starting `./` or `//` |
| `Links.LegacyAgreesWhereItWrites` | src/services/export.js:258-272 | where the older helper writes, it writes what the current rewrite gives; both leave `http` links alone |
| `Links.LegacyLeavesRelativeLinks` | src/services/export.js:258-272 | the older helper leaves a plain relative link unresolved, while the current one changes it |
| `Links.ImageSource` | src/services/export.js:249-256 | a source is kept exactly when it starts with `//` or `http` (or the host is empty); with an `http` host the result always starts with `//` or `http` |
| `Links.ImageSourceIdempotent` | src/services/export.js:249-256 | making an image source absolute twice equals doing it once |
| `Links.Background` | src/services/export.js:232-244 | null when `data-background-image` is absent or empty; with an `http` host the result starts with `http`; an `http` value is kept |
| `Links.BackgroundIdempotent` | src/services/export.js:232-244 | making a background URL absolute twice equals doing it once |
| `Links.BaseUrl` | src/services/export.js:318-326 | a null href gives `https://`; `//x` gives `https:` + `/x`; any other href is returned unchanged |
| `Links.BaseUrlExamples` | src/services/export.js:318-326 | `//example.com` gives `https:/example.com`, `""` gives `""`, and no trailing slash is added |
| `Links.BaseUrlKeepsOtherHrefs` | src/services/export.js:318-326 | the href comes back unchanged exactly when it is not a network-path reference |
| `Utils.MakeElementLinkAbsolute` | src/services/utils.js:28-43 | an invalid base fails before the element is looked at; with a valid base, a null element or empty attribute name changes nothing; otherwise only that element's attribute changes, to `AbsoluteLink` of its old value |
| `Utils.ScreenshotImage` | src/services/utils.js:56-58 | the replacement image has src `<folder>/<id>.png`, the element's title as alt text, and no id or title |
| `Utils.ReplaceElementWithScreenshot` | src/services/utils.js:49-61 | fails exactly when the element has no id, changing nothing; otherwise the element is replaced at the same position by its image and every other element is unchanged |
| `Utils.HeightStyle` | src/services/utils.js:3-4 | the style is digits followed by `px`, and the digits read back as the element's client height |
| `Utils.AdjustElementHeight` | src/services/utils.js:2-5 | only the element's style height changes, to its client height in pixels |
| `Utils.SubpageChapter` | src/services/utils.js:17-25 | title = the phase title's HTML; data = the description's outer HTML (or `""`) followed by the resources' HTML; fails when the title or resources element is missing |
| `Utils.GetSubpagesContent` | src/services/utils.js:11-26 | one chapter per phase, in order, each equal to `SubpageChapter` of its phase; fails exactly when some phase cannot be read |
| `Transforms.ScreenshotElements` | src/services/export.js:131-161 | one path per element, in input order, each `TMP_FOLDER/<id>.png`; a non-empty id is kept, a missing or empty one is replaced by the generated id and written back; no other element changes; one screenshot per element is recorded, and the files on disk gain exactly the returned paths |
| `Transforms.ReplaceElementsWithScreenshots` | src/services/export.js:177-188 | elements are replaced in order; the first element without an id stops the loop with an error, leaving the earlier ones replaced and the rest untouched |
| `Transforms.AdjustHeightForElements` | src/services/export.js:217-227 | exactly the given elements get their height fixed |
| `Transforms.MakeImageSourceAbsolute` | src/services/export.js:250-254 | an image without `src` fails and changes nothing; otherwise only its `src` is rewritten by `ImageSource` |
| `Transforms.MakeImageSourcesAbsolute` | src/services/export.js:249-256 | images are rewritten in order up to the first one without `src`, which fails the `forEach` |
| `Transforms.PrepareIframes` | src/services/export.js:274-284 | every iframe gets the older link helper applied, and no other element changes |
| `Transforms.RetrieveUrls` | src/services/export.js:303-316 | one entry per iframe, in order, its `src` or null |
| `Transforms.FrameContentsKeys` | src/services/export.js:350-370 | the content map has a key exactly for the urls of child frames that are among the collected srcs and whose url and content could be read |
| `Transforms.FrameContentsLastWins` | src/services/export.js:359-366 | the value under a url is the encoded content of the last frame stored with that url |
| `Transforms.CollectFrameContents` | src/services/export.js:341-370 | the loop over child frames builds exactly `FrameContents`; a frame that throws is skipped |
| `Transforms.InlineSrcdoc` | src/services/export.js:286-290 | `srcdoc` becomes the content stored under the iframe's src (`"undefined"` when missing) and `src` is removed; other attributes are kept |
| `Transforms.AddSrcdocWithContentToIframes` | src/services/export.js:292-301 | exactly the given iframes are inlined |
| `Transforms.ReplaceSrcWithSrcdocInIframe` | src/services/export.js:328-374 | fails when the page has no base element; otherwise the iframes are made absolute against the base URL, the page waits for them to reload, and each is inlined from the content map built from the child frames |
| `Transforms.InlinedIframes` | src/services/export.js:286-290 | after inlining, every handled iframe has no `src` and holds the content stored under its src |
| `Entities.DecodeEncode` | src/services/export.js:503-509 | the `&amp;` repair exactly undoes the over-encoding of `&` before a reference-looking run |
| `Entities.DecodeNoMatch` | src/services/export.js:507 | text with no `&amp;` followed by 1 to 6 characters of `[1-9a-zA-Z]` and `;` is left unchanged |
| `Entities.DecodeShortens` | src/services/export.js:507 | the repair never lengthens the text |
| `Entities.DecodeEntityExample` | src/services/export.js:507 | `&amp;lt;` becomes `&lt;` |
| `Entities.DecodeCharRefExample` | src/services/export.js:507 | `&amp;#60;` is left as it is, because `#` is not in the class |
| `Entities.DecodeBareAmpExample` | src/services/export.js:507 | a bare `&amp;` between words is left as it is |
| `Epub.StrategyFor` | src/services/export.js:414-482 | every widget category gets exactly one strategy. Interactive: offline-ready iframes are inlined, unsupported content is screenshotted, the rest only get their height fixed. Static: everything is screenshotted |
| `Epub.FixHeights` | src/services/export.js:417-419 | the interactive block fixes the height of every element of the category and touches nothing else |
| `Epub.InlineFrames` | src/services/export.js:470-476 | the interactive block for offline-ready iframes fails exactly when there is no base element, and then changes nothing. Otherwise each iframe of the category has its `src` made absolute against the base URL by the older link helper, then holds as `srcdoc` the child-frame content stored under that new src, with `src` removed; every other element is unchanged |
| `Epub.ScreenshotCategory` | src/services/export.js:420-423 | the static block fails exactly when some element ends up without an id. Otherwise it gives one `TMP_FOLDER/<id>.png` path per element, in order; each element is replaced at its position by the image of its screenshot, under its own id or else the generated one; no element of the category is left, and nothing else changes. Every element's screenshot is written to disk, even when the replacement then fails |
| `Epub.HandleCategory` | src/services/export.js:414-482 | one category block touches only its category. Fixing heights never fails, inlining fails exactly without a base element, screenshotting exactly when an element would get an empty id. On success every element of the category becomes `Transformed` of it, and the paths are `CategoryShots`: the screenshot paths in document order, or none when the block takes none. The files on disk gain exactly those paths |
| `Epub.OfflineBlockAsWritten` | src/services/export.js:469-477 | as written the block queries `OFFLINE_READY_IFRAME`, which is not exported (src/services/selector.js:10 exports `OFFLINE_READY_IFRAMES`), so it handles no element: the page's elements and the files on disk are unchanged, a static export lists no screenshot, and an interactive one fails exactly without a base element |
| `Epub.OfflineIframeSkipped` | src/services/export.js:469-477 | for a page with one offline-ready iframe, the intended static block lists its screenshot and replaces it by an image, where the block as written keeps it |
| `Epub.Transformed` | src/services/export.js:414-482 | what a block makes of one element: a live widget keeps its kind, an offline-ready iframe inlined keeps its kind, and a screenshotted element becomes an image whose `src` is exactly the path of its screenshot in the list |
| `Epub.CategoryShotsShape` | src/services/export.js:414-482 | a screenshotting block lists one path per element of its category, all under `TMP_FOLDER`; any other block lists none |
| `Epub.ExpectedShotsShape` | src/services/export.js:524-532 | the concatenated screenshot list holds one path per screenshotted element on the page, all under `TMP_FOLDER` |
| `Epub.WidgetBlocks` | src/services/export.js:414-532 | the seven blocks in the order of the source, seen from the page before them: every element of each category becomes what its block makes of it (height fixed, content inlined, or replaced by its screenshot image), every other element is unchanged, and the screenshot list is exactly `ExpectedShots`, the per-category lists in the order audio, gadgets, embeds, labs, objects, unsupported, offline-ready iframes. A failure has a cause on the page before: no base element for an interactive export, or an empty generated id. On success the files on disk gain exactly the listed screenshots; after a failure they hold some of the paths `ExpectedShots` lists and nothing else new |
| `Epub.AbsoluteImages` | src/services/export.js:410 | fails exactly when some image has no `src`, with `NullAttribute(src)`. Otherwise every image source is made absolute against `GRAASP_HOST` by `ImageSource`, and every other element is unchanged |
| `Epub.BackgroundOf` | src/services/export.js:399-407 | the cover background is the default cover or an `http` URL, and the default when there is no header |
| `Epub.PhaseChapter` | src/services/export.js:497-500 | a phase becomes a chapter titled by its `.name` HTML, holding its `.resources` HTML; fails when either is missing |
| `Epub.BodyChapters` | src/services/export.js:496-501 | one chapter per phase, in order; fails exactly when some phase cannot be read |
| `Epub.Body` | src/services/export.js:496-509 | interactive exports repair `&amp;` in every phase's data and keep every title; static exports keep the body as read |
| `Epub.DecodeChapterRestores` | src/services/export.js:503-509 | repairing a chapter gives back the chapter from before the over-encoding |
| `Epub.FilterChapters` | src/services/export.js:82 | every chapter kept has a truthy title and data |
| `Epub.FilterMembers` | src/services/export.js:82 | a chapter is kept exactly when it is in the list and has a truthy title and data |
| `Epub.FilterAppend` | src/services/export.js:82 | the filter preserves order: filtering a concatenation concatenates the filtered parts |
| `Epub.FilterKeepsFull` | src/services/export.js:82 | a list whose chapters all have content passes unchanged |
| `Epub.BookOrder` | src/services/export.js:522 | the book's chapters are the introduction, the phases and the tools, in that order; `generateEpub` (line 82) then keeps only those with a title and data |
| `Epub.CollectEpub` | src/services/export.js:376-532 | title, author `Anonymous`, background and chapters `[introduction, …phases, tools]` as read from the page. The screenshot list is exactly `ExpectedShots` of the page as read, so it has one path under `TMP_FOLDER` per screenshotted element. The page left behind is the image pass followed by the seven blocks, element by element, and holds no element that should have been replaced. A missing image `src` fails first; otherwise, when no block can fail, the collection fails exactly when a phase cannot be read. A missing `src` writes no file; a success has written exactly the listed screenshots; any other failure has written only paths `ExpectedShots` lists |
| `Epub.OptionsFor` | src/services/export.js:74-91 | the library gets the filtered chapters, the space's title and author, the cover path, and an output file under `TMP_FOLDER` ending in `.epub` |
| `Epub.GenerateEpub` | src/services/export.js:53-129 | the cover is written first, then the book when the library succeeds. Success exactly when the library and the read stream succeed. Then the book's bytes are returned, and the book, every screenshot and the cover each get one removal attempt, in that order; the files left are those before plus cover and book, minus every path whose removal did not fail. On failure nothing is removed, so the cover (and the book, if written) stay |
| `Epub.SaveEpub` | src/services/export.js:376-541 | the collected job is what `CollectEpub` states. A failed collection removes nothing and leaves on disk only screenshots it took, all among `ExpectedShots` (none when an image `src` is missing). Otherwise the screenshots are on disk when `generateEpub` starts: success is exactly library and read stream succeeding; the result is the library's bytes, and the cover, book and screenshots are removed as `GenerateEpub` states; on failure nothing is removed and the screenshots stay |
| `Files.FileSystem.RemoveAll` | src/services/export.js:111-118 | every path gets its own removal attempt, in order, and exactly the non-failing ones are gone |
| `Scrape.RenderAction` | src/services/export.js:545-565 | `epub` goes to `saveEpub`, `png` to a full-page screenshot, and every other value to an A4 print with 1cm margins and backgrounds |
| `Scrape.PdfByDefault` | src/services/export.js:554-564 | a PDF is printed exactly for the formats other than `epub` and `png` |
| `Scrape.FormatSpace` | src/services/export.js:543-566 | for `png` and PDF, exactly one render call is recorded, the page is left alone, and the result is the rendered bytes or a failure |
| `Scrape.AuthOf` | src/services/export.js:604-614 | `auth` comes from the `body` field of the resolved value (request-promise-native resolves with the parsed body, so a 2xx reply `{"auth":"username"}` gives undefined and skips sign-in) or from the rejection's `error`; a missing field gives undefined; a null error makes the catch throw |
| `Scrape.SignInSteps` | src/services/export.js:622-641 | username-only types the username, then submits; password types the username and the password, then submits; anonymous only submits; any other value skips sign-in |
| `Scrape.MissingAuthSkipsSignIn` | src/services/export.js:604-641 | a reply without `auth` skips sign-in, although `auth` starts out anonymous |
| `Scrape.AttemptedStops` | src/services/export.js:616-658 | browser steps are attempted in order and stop at the first one that fails |
| `Scrape.SignIn` | src/services/export.js:622-641 | the steps of the sign-in switch are attempted in order, and it succeeds exactly when all go through |
| `Scrape.VisitSpace` | src/services/export.js:616-658 | go to the URL, sign in, wait 5000 ms, stopping at the first failure |
| `Scrape.Browse` | src/services/export.js:597-658 | viewport, login-type probe and visit are attempted in order; success exactly when the space is reached |
| `Scrape.Scrape` | src/services/export.js:578-669 | an unreachable browser rejects; any later failure closes the browser and gives `false`; success only when the space was reached |
| `Scrape.FormatAndClose` | src/services/export.js:659-667 | never rejects; for `png` and PDF the trace gains the render call and a browser close (and a second close when the first fails after a render), and the result is `false` exactly when rendering or closing failed, else the rendered bytes |
| `Scrape.TokenOf` | src/services/export.js:675-679 | `Bearer ` is stripped only when at index 0; any other token is kept whole |
| `Scrape.BearerRoundTrip` | src/services/export.js:675-679 | stripping the prefix undoes adding it |
| `Scrape.BearerOnlyAtStart` | src/services/export.js:676 | a `Bearer ` later in the header is kept |
| `Scrape.AuthorizedBody` | src/services/export.js:680-683 | the body gains the token when the token is non-empty, and is unchanged otherwise |
| `Scrape.ParamsOf` | src/services/export.js:685-698 | URL `GRAASP_HOST/<lang>/pages/<id>/export` with `lang` defaulting to `en`; format defaulting to `pdf`; interactive only for the exact string `'true'` |
| `Scrape.InteractiveOnlyForString` | src/services/export.js:698 | a boolean `true` does not turn on interactive mode |
| `Scrape.NotPrintedShowsUrl` | src/services/export.js:708-711 | the error message shows the URL cut before its first `?` |
| `Scrape.ConvertSpaceToFile` | src/services/export.js:671-713 | an unreachable browser rejects; a scrape that gives `false` throws `space <url before '?'> could not be printed`; success only when the space was reached. For `png` and PDF, success is exactly a render and a browser close going through, and the file is the rendered bytes |
| `Jobs.FileIdFor` | src/handlers/export.js:97-100 | the file id is the object id, a dot, and `json` for a dry run, else the format, defaulting to `pdf` |
| `Jobs.FileIdValidates` | src/handlers/export.js:100-155 | the part of a new file id before its first dot is the valid object id, so polling accepts it |
| `Jobs.DryRunIdEndsWithJson` | src/handlers/export.js:100-171 | dry-run ids end with `json`, which is how polling recognises them |
| `Jobs.EmptyFormatExample` | src/handlers/export.js:80-100 | an empty format is neither validated nor defaulted, so the id ends in a dot |
| `Jobs.QueuedResponse` | src/handlers/export.js:114-121 | 202 with `Location: GRAASP_FILES_HOST/queue/<fileId>`, that header exposed, and the CORS headers |
| `Jobs.RedirectResponse` | src/handlers/export.js:184-191 | 303 with `Location: S3_HOST/<id>`; the CORS headers are spread last and win |
| `Jobs.DoneResponse` | src/handlers/export.js:173-182 | 200 with the stored fields plus `status` = done; `status` overrides any stored field |
| `Jobs.IsReady` | src/services/export.js:730-749 | no error means ready; `NotFound` means pending; any other store error propagates |
| `Jobs.GetExport` | src/handlers/export.js:149-212 | 422 for a missing id or one whose part before the first dot is not an object id. A store error gives 500. Not ready gives 200 pending. Ready with a `json` id gives 200 with the report and status done. Otherwise it answers 303 to the stored file |
| `Jobs.GetExportAsWritten` | src/handlers/export.js:171-172 | as written, a ready dry-run id answers 500, because the imported `getFileAsString` does not exist; the message text depends on how the handler is compiled |
| `Jobs.DryRunPollAsWritten` | src/handlers/export.js:171-182 | a finished dry run is never reported as written; the corrected poll reports it |
| `Jobs.AsWrittenAgrees` | src/handlers/export.js:149-212 | outside the dry-run branch, the as-written and corrected polls answer alike |
| `Jobs.PendingUntilUpload` | src/handlers/export.js:167-199 | a queued job's id is pending while nothing is stored under it |
| `Jobs.RedirectAfterUpload` | src/handlers/export.js:167-191 | once the file is stored, a non-dry-run job answers 303 to it |
| `Jobs.DoneAfterDryRunUpload` | src/handlers/export.js:167-182 | once a dry run's report is stored, polling answers 200 with the report and status done |
| `Jobs.OtherUploadKeepsPending` | src/handlers/export.js:167-199 | an upload under another key leaves a pending id pending |
| `Jobs.JobStore.Upload` | src/services/export.js:715-728 | the blob lands under the key unless the store refuses, in which case nothing changes |
| `Jobs.JobStore.PostExport` | src/handlers/export.js:56-147 | 422 `invalid space id` or `invalid format` with nothing published. A body that does not parse, or a failed publish, gives 500 `name: message` of that error and publishes nothing. Otherwise exactly one message `{id, body, headers, fileId}` is published and the answer is 202 with the queue location |
| `Jobs.JobStore.GenerateExport` | src/handlers/export.js:21-54 | never throws. A failed conversion or upload stores nothing, so the id stays pending. Otherwise the report (dry run) or the file is stored under the file id. For `png` and PDF the conversion succeeds exactly when the space is reached and the render and close go through, and then the stored file is the rendered bytes |
| `Jobs.UploadedFor` | src/handlers/export.js:38-47 | a dry run uploads `{duration, networkPreset}` with the preset defaulting to `DEFAULT_NETWORK_PRESET`; otherwise the file |
| `Jobs.DryRunStoredUnderJson` | src/handlers/export.js:38-100 | a dry-run message's report goes under the `json` id the job was given |

## Left out

- Browser plumbing is not modelled: launching and connecting to Chrome, viewport and navigation timeouts, `waitForSelector`, `type`, `click`, element screenshots, `page.pdf` and `page.screenshot`. These are actions recorded in the page's trace. Whether the browser carries each one out, and the bytes of a render, are oracle parameters.
- The concurrent click and wait-for-navigation of `signIn` is one atomic `Submit` step.
- S3 and SNS are a map and a message log. A store outage is a parameter, and only the `NotFound` classification of `isReady` is modelled. The login-type HTTP probe is an oracle from URL to reply.
- The epub library, the read stream and `rimraf` are oracles. The HTML entity encoder is an uninterpreted function parameter. The cover drawing of src/services/cover.js is only the write of the cover file.
- `generateRandomString`, `ObjectId()` and `Date` are parameters. A generated id may be empty, and the model keeps the resulting failure.
- Some configuration values are imported by the core but not defined in src/config.js: `TMP_FOLDER`, `COVER_PATH`, `COVER_DEFAULT_PATH`, `DONE_STATUS`, `DEFAULT_NETWORK_PRESET`, `CORS_HEADERS`, `AUTH_TYPE_*` and `AUTH_TYPE_HOST`. They are placeholder constants. No proof depends on their values except that the three authentication types differ.
- `S3_HOST` comes from the environment and is null when unset (src/config.js:7). The model fixes it to one configured host; a null host, which would put `null/<id>` in the redirect, is not modelled.
- The page is a flat sequence of elements, each answering exactly one selector. An element matched by two category selectors, nesting, and the DOM tree are not modelled. `el.after(img); el.remove()` is a replacement at the same index. Phase sections are separate from the elements, so the transforms never change them. The code reads the phases' HTML (src/services/export.js:496-501) after the image rewrite and the seven blocks, so its chapters hold the screenshots, srcdocs and fixed heights; the model's chapters do not reflect the widget transforms.
- Transforms.ScreenshotElements: a failing element screenshot is not modelled; every screenshot succeeds and writes its file.
- Selectors are assumed to match their category. Two of them do not as written: `OFFLINE_READY_IFRAME` is not exported by src/services/selector.js (see Findings), and `LAB_ELEMENTS` (src/services/selector.js:8) is an XPath expression handed to `page.$$` (src/services/export.js:426), which expects a CSS selector. The model treats both blocks as selecting their category, and `Epub.WidgetBlocks` uses the corrected offline block.
- JSON values are integers, strings, booleans, null, undefined and opaque objects. A request body that parses to something other than an object is not modelled.
- Jobs.JobStore.PostExport: a missing id is `None` (422). An event without `pathParameters` throws at src/handlers/export.js:59 and answers 500; that case is not modelled.
- Jobs.GetExport: likewise, an event without `pathParameters` throws at src/handlers/export.js:152 and answers 500, while the model, which has only a missing id, answers 422.
- Jobs.JobStore.GenerateExport: the queue message arrives already parsed, so a malformed message is not modelled. Conversion either throws or returns a blob, so the "no file available" branch cannot be reached in the model.
- Epub.CollectEpub: whether it succeeds is characterised exactly only when every image has a `src`, a base element exists for an interactive export, and no generated id is empty. In the other cases the contract says what a success contains, and `Epub.WidgetBlocks` states the possible causes of failure.
- Scrape.FormatSpace: for `epub` the contract says only that a success is binary. It calls `Epub.SaveEpub` with the epub oracles of the environment, and that contract states the collected job, the returned bytes and the temporary files.
- Scrape.ConvertSpaceToFile: for `epub` the contract says only that a success is binary; the book's bytes are stated by `Epub.SaveEpub`.
- Jobs.JobStore.GenerateExport: for `epub` the contract says only that the stored file is binary, not that it is the book `Epub.SaveEpub` returns.
- Scrape.Scrape: for `epub` the contract does not spell out the trace of the EPUB writer.
- Scrape.FormatAndClose: for `epub` the contract says only that a result is binary and that no rejection escapes.
- Logging, `console.error`, and killing the Chrome process after a scrape are not modelled.
- The test files target a later API that src/services/export.js does not have: `getDownloadUrl` with its language fallback, the `handle*` category handlers, and a three-argument `retrieveBaseUrl`. The model follows the code in src/services/export.js, except where Findings names a defect.
- Sub-space composition for multi-space EPUBs is not part of src/services/export.js and is not modelled.

## Findings

| source | as written | input that shows it | evidently intended | confidence | as-written member | corrected member |
|---|---|---|---|---|---|---|
| src/services/export.js:37 | the offline-ready block queries `OFFLINE_READY_IFRAME`, imported from src/services/selector.js, which exports `OFFLINE_READY_IFRAMES` (line 10); `page.$$(undefined)` at line 470 finds nothing | a static export of a page holding one offline-ready iframe | the iframe is screenshotted and replaced by its image (interactive: inlined) | medium, not executed | `Epub.OfflineBlockAsWritten` | `Epub.HandleCategory` |
| src/handlers/export.js:7 | `getExport` calls `getFileAsString`, imported from src/services/export.js, which exports only `convertSpaceToFile`, `upload` and `isReady` (src/services/export.js:751) | a dry run `{dryRun: true}` whose report has been uploaded under `<oid>.json`, then polled | 200 with the report's `duration` and `networkPreset` and `status` done | medium, not executed | `Jobs.DryRunPollAsWritten` | `Jobs.DoneAfterDryRunUpload` |
