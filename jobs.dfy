/**
 * The export job lifecycle of src/handlers/export.js: `postExport` validates a
 * request and queues a job, `generateExport` renders the space and uploads the
 * result under the job's file id, and `getExport` polls for it.
 *
 * The object store (S3) is a map from keys to blobs and the queue (SNS) a log
 * of published messages, both fields of one `JobStore`. A file id is pending
 * until an upload lands under it; a generation that fails uploads nothing, so
 * its id stays pending.
 */
module Jobs {
  import opened Wrappers
  import opened JsText
  import opened Dom
  import opened Files
  import opened Scrape
  import Config

  /** A thrown error as `${err.name}: ${err.message}` reports it. */
  datatype JsError = JsError(name: string, message: string)

  /** An error from the object store: its `code` and the error itself. */
  datatype StoreError = StoreError(code: string, error: JsError)

  /** A Lambda response: status code, headers, and the JSON object of the body, if any. */
  datatype Response = Response(statusCode: nat, headers: map<string, string>, body: Option<map<string, JsValue>>)

  /** The message `postExport` publishes and `generateExport` consumes. */
  datatype Message = Message(id: string, body: map<string, JsValue>, headers: map<string, string>, fileId: string)

  // ---------------------------------------------------------------------------
  // ids

  predicate IsHexDigit(c: char) {
    ('0' <= c <= '9') || ('a' <= c <= 'f') || ('A' <= c <= 'F')
  }

  /** `ObjectId.isValid(s)` of bson-objectid for a string: 24 hexadecimal digits, either case. */
  predicate IsValidObjectId(s: string) {
    |s| == 24 && forall i :: 0 <= i < |s| ==> IsHexDigit(s[i])
  }

  /**
   * The file id of a job: a fresh object id, a dot, and `json` for a dry run or
   * else the format (default `pdf`) as a template literal prints it.
   */
  function FileIdFor(oid: string, body: map<string, JsValue>): (f: string)
    ensures StartsWith(f, oid + ".")
    ensures Truthy(WithDefault(Field(body, "dryRun"), Bool(false))) ==> f == oid + ".json"
    ensures !Truthy(WithDefault(Field(body, "dryRun"), Bool(false))) && Field(body, "format") == Undefined ==> f == oid + ".pdf"
    ensures !Truthy(WithDefault(Field(body, "dryRun"), Bool(false))) && Field(body, "format").Str? ==>
              f == oid + "." + Field(body, "format").s
  {
    var format := WithDefault(Field(body, "format"), Str("pdf"));
    var dryRun := WithDefault(Field(body, "dryRun"), Bool(false));
    var f := oid + "." + (if Truthy(dryRun) then "json" else Interpolate(format));
    assert f[..|oid + "."|] == oid + ".";
    f
  }

  /** `id.split('.')[0]` of a file id made from a valid object id is that object id, so `getExport` accepts it. */
  lemma FileIdValidates(oid: string, body: map<string, JsValue>)
    requires IsValidObjectId(oid)
    ensures BeforeFirst(FileIdFor(oid, body), '.') == oid
    ensures IsValidObjectId(BeforeFirst(FileIdFor(oid, body), '.'))
  {
    var f := FileIdFor(oid, body);
    BeforeFirstAt(f, oid, '.');
  }

  lemma {:induction false} BeforeFirstAt(s: string, p: string, c: char)
    requires StartsWith(s, p + [c]) && c !in p
    ensures BeforeFirst(s, c) == p
    decreases |p|
  {
    if p == [] {
      assert s[0] == c;
    } else {
      assert s[0] == p[0];
      assert s[1..][..|p[1..] + [c]|] == (p + [c])[1..] == p[1..] + [c];
      BeforeFirstAt(s[1..], p[1..], c);
    }
  }

  /** Dry-run file ids end with `json`, which is how `getExport` recognises them. */
  lemma DryRunIdEndsWithJson(oid: string, body: map<string, JsValue>)
    requires Truthy(WithDefault(Field(body, "dryRun"), Bool(false)))
    ensures EndsWith(FileIdFor(oid, body), "json")
  {
    var f := FileIdFor(oid, body);
    assert f[|f| - 4..] == "json";
  }

  /** A falsy format is not validated and not defaulted either: an empty format gives an id ending in a dot. */
  lemma EmptyFormatExample(oid: string)
    ensures FileIdFor(oid, map["format" := Str("")]) == oid + "."
  {
  }

  // ---------------------------------------------------------------------------
  // responses

  function MessageResponse(code: nat, message: string): (r: Response)
    ensures r.statusCode == code && r.headers == Config.CORS_HEADERS
    ensures r.body == Some(map["message" := Str(message)])
  {
    Response(code, Config.CORS_HEADERS, Some(map["message" := Str(message)]))
  }

  /** The 500 response of a caught error. */
  function ErrorResponse(e: JsError): (r: Response)
    ensures r.statusCode == 500 && r.body == Some(map["message" := Str(e.name + ": " + e.message)])
  {
    MessageResponse(500, e.name + ": " + e.message)
  }

  /** The 202 response of a queued job: CORS headers, then the exposed `Location` of the job in the queue. */
  function QueuedResponse(fileId: string): (r: Response)
    ensures r.statusCode == 202 && r.body.None?
    ensures "Location" in r.headers && r.headers["Location"] == Config.GRAASP_FILES_HOST + "/queue/" + fileId
    ensures "Access-Control-Expose-Headers" in r.headers && r.headers["Access-Control-Expose-Headers"] == "Location"
    ensures forall h :: h in Config.CORS_HEADERS && h != "Location" && h != "Access-Control-Expose-Headers" ==>
              h in r.headers && r.headers[h] == Config.CORS_HEADERS[h]
  {
    Response(202, Config.CORS_HEADERS + map["Access-Control-Expose-Headers" := "Location",
                                           "Location" := Config.GRAASP_FILES_HOST + "/queue/" + fileId], None)
  }

  function PendingResponse(): (r: Response)
    ensures r.statusCode == 200 && r.body == Some(map["status" := Str(Config.PENDING_STATUS)])
  {
    Response(200, Config.CORS_HEADERS, Some(map["status" := Str(Config.PENDING_STATUS)]))
  }

  /** The 303 See Other to the file in the store; the CORS headers are spread last and win. */
  function RedirectResponse(id: string): (r: Response)
    ensures r.statusCode == 303 && r.body.None?
    ensures "Location" !in Config.CORS_HEADERS ==> "Location" in r.headers && r.headers["Location"] == Config.S3_HOST + "/" + id
    ensures forall h :: h in Config.CORS_HEADERS ==> h in r.headers && r.headers[h] == Config.CORS_HEADERS[h]
  {
    Response(303, map["Access-Control-Expose-Headers" := "Location", "Location" := Config.S3_HOST + "/" + id]
                  + Config.CORS_HEADERS, None)
  }

  /** The fields of a dry-run report, with `status` set to done over any stored field of that name. */
  function DoneResponse(fields: map<string, JsValue>): (r: Response)
    ensures r.statusCode == 200 && r.body.Some?
    ensures "status" in r.body.value && r.body.value["status"] == Str(Config.DONE_STATUS)
    ensures forall k :: k in fields && k != "status" ==> k in r.body.value && r.body.value[k] == fields[k]
    ensures r.body.value.Keys == fields.Keys + {"status"}
  {
    Response(200, Config.CORS_HEADERS, Some(fields + map["status" := Str(Config.DONE_STATUS)]))
  }

  // ---------------------------------------------------------------------------
  // isReady

  /**
   * `isReady(fileId)`: the answer to a head request on the key. A request that
   * errs with code `NotFound` means pending, any other error is passed on, and
   * no error means ready. `outage` is an error the store gives whatever the key;
   * without one, the request errs with `NotFound` exactly when the key is absent.
   */
  function IsReady(store: map<string, Blob>, fileId: string, outage: Option<StoreError>): (r: Result<bool, JsError>)
    ensures outage.None? ==> r == Success(fileId in store)
    ensures outage.Some? && outage.value.code == "NotFound" ==> r == Success(false)
    ensures outage.Some? && outage.value.code != "NotFound" ==> r == Failure(outage.value.error)
  {
    var headError := if outage.Some? then outage
                     else if fileId in store then None
                     else Some(StoreError("NotFound", JsError("NotFound", "")));
    match headError
    case None => Success(true)
    case Some(e) => if e.code == "NotFound" then Success(false) else Failure(e.error)
  }

  // ---------------------------------------------------------------------------
  // getExport

  /** The first check of `getExport`: an id that is present, non-empty and a valid object id up to its first dot. */
  predicate ValidDocumentId(id: Option<string>) {
    id.Some? && id.value != "" && IsValidObjectId(BeforeFirst(id.value, '.'))
  }

  /**
   * `getExport` with `getFileAsString` reading the stored object: 422 for an
   * invalid id, 500 for a store error or a report that does not parse, 200
   * pending before the upload, 200 with the report for a dry run and 303 to the
   * file otherwise. `parse` is `JSON.parse` of an object's content.
   */
  function GetExport(store: map<string, Blob>, id: Option<string>, outage: Option<StoreError>,
                     parse: Blob -> Result<map<string, JsValue>, JsError>): (r: Response)
    ensures !ValidDocumentId(id) ==> r == MessageResponse(422, "error: invalid document id")
    ensures ValidDocumentId(id) && IsReady(store, id.value, outage).Failure? ==>
              r == ErrorResponse(IsReady(store, id.value, outage).error)
    ensures ValidDocumentId(id) && IsReady(store, id.value, outage) == Success(false) ==> r == PendingResponse()
    ensures ValidDocumentId(id) && IsReady(store, id.value, outage) == Success(true) ==>
              && id.value in store
              && (!EndsWith(id.value, "json") ==> r == RedirectResponse(id.value))
              && (EndsWith(id.value, "json") ==>
                    r == match parse(store[id.value])
                         case Success(fields) => DoneResponse(fields)
                         case Failure(e) => ErrorResponse(e))
  {
    if !ValidDocumentId(id) then MessageResponse(422, "error: invalid document id")
    else
      match IsReady(store, id.value, outage)
      case Failure(e) => ErrorResponse(e)
      case Success(ready) =>
        if !ready then PendingResponse()
        else if EndsWith(id.value, "json") then
          match parse(store[id.value])
          case Success(fields) => DoneResponse(fields)
          case Failure(e) => ErrorResponse(e)
        else RedirectResponse(id.value)
  }

  /**
   * The error calling `getFileAsString` raises: src/services/export.js does not
   * export it, so the import is undefined and the call throws a `TypeError`.
   * Its message text depends on how the handler is compiled; the one here is
   * what a Babel build gives, and only its status code is stated below.
   */
  const MISSING_EXPORT := JsError("TypeError", "(0 , _export.getFileAsString) is not a function")

  /** `getExport` as written: the dry-run branch calls the missing import and throws. */
  function GetExportAsWritten(store: map<string, Blob>, id: Option<string>, outage: Option<StoreError>): (r: Response)
    ensures ValidDocumentId(id) && IsReady(store, id.value, outage) == Success(true) && EndsWith(id.value, "json") ==>
              r == ErrorResponse(MISSING_EXPORT) && r.statusCode == 500
  {
    if !ValidDocumentId(id) then MessageResponse(422, "error: invalid document id")
    else
      match IsReady(store, id.value, outage)
      case Failure(e) => ErrorResponse(e)
      case Success(ready) =>
        if !ready then PendingResponse()
        else if EndsWith(id.value, "json") then ErrorResponse(MISSING_EXPORT)
        else RedirectResponse(id.value)
  }

  /** As written, a finished dry run is never reported: polling it answers 500 where 200 with the report was meant. */
  lemma DryRunPollAsWritten(store: map<string, Blob>, oid: string, body: map<string, JsValue>,
                            parse: Blob -> Result<map<string, JsValue>, JsError>)
    requires IsValidObjectId(oid) && Truthy(WithDefault(Field(body, "dryRun"), Bool(false)))
    requires FileIdFor(oid, body) in store && parse(store[FileIdFor(oid, body)]).Success?
    ensures GetExportAsWritten(store, Some(FileIdFor(oid, body)), None).statusCode == 500
    ensures GetExport(store, Some(FileIdFor(oid, body)), None, parse) ==
            DoneResponse(parse(store[FileIdFor(oid, body)]).value)
  {
    FileIdValidates(oid, body);
    DryRunIdEndsWithJson(oid, body);
  }

  /** Apart from the dry-run branch, the two versions answer alike. */
  lemma AsWrittenAgrees(store: map<string, Blob>, id: Option<string>, outage: Option<StoreError>,
                        parse: Blob -> Result<map<string, JsValue>, JsError>)
    requires !(ValidDocumentId(id) && IsReady(store, id.value, outage) == Success(true) && EndsWith(id.value, "json"))
    ensures GetExportAsWritten(store, id, outage) == GetExport(store, id, outage, parse)
  {
  }

  // ---------------------------------------------------------------------------
  // the lifecycle, as seen by getExport

  /** A queued job's id is pending until something is stored under it. */
  lemma PendingUntilUpload(store: map<string, Blob>, oid: string, body: map<string, JsValue>,
                           parse: Blob -> Result<map<string, JsValue>, JsError>)
    requires IsValidObjectId(oid) && FileIdFor(oid, body) !in store
    ensures GetExport(store, Some(FileIdFor(oid, body)), None, parse) == PendingResponse()
  {
    FileIdValidates(oid, body);
  }

  /** Once the file is stored, a non-dry-run job redirects to it. */
  lemma RedirectAfterUpload(store: map<string, Blob>, oid: string, body: map<string, JsValue>, file: Blob,
                            parse: Blob -> Result<map<string, JsValue>, JsError>)
    requires IsValidObjectId(oid) && !EndsWith(FileIdFor(oid, body), "json")
    ensures GetExport(store[FileIdFor(oid, body) := file], Some(FileIdFor(oid, body)), None, parse)
            == RedirectResponse(FileIdFor(oid, body))
  {
    FileIdValidates(oid, body);
  }

  /** Once a dry run's report is stored, polling its id answers 200 with the report's fields and status done. */
  lemma DoneAfterDryRunUpload(store: map<string, Blob>, oid: string, body: map<string, JsValue>, report: Blob,
                              parse: Blob -> Result<map<string, JsValue>, JsError>)
    requires IsValidObjectId(oid) && Truthy(WithDefault(Field(body, "dryRun"), Bool(false)))
    requires parse(report).Success?
    ensures var r := GetExport(store[FileIdFor(oid, body) := report], Some(FileIdFor(oid, body)), None, parse);
      && r == DoneResponse(parse(report).value)
      && r.statusCode == 200
  {
    FileIdValidates(oid, body);
    DryRunIdEndsWithJson(oid, body);
  }

  /** An upload under another key leaves a pending id pending. */
  lemma OtherUploadKeepsPending(store: map<string, Blob>, id: string, other: string, file: Blob,
                                parse: Blob -> Result<map<string, JsValue>, JsError>)
    requires ValidDocumentId(Some(id)) && id !in store && other != id
    ensures GetExport(store[other := file], Some(id), None, parse) == PendingResponse()
  {
  }

  // ---------------------------------------------------------------------------
  // the store and the queue

  class JobStore {
    /** The object store: key to stored object. */
    var store: map<string, Blob>
    /** Every message published on the export topic, in order. */
    var published: seq<Message>

    constructor (store: map<string, Blob>)
      ensures this.store == store && published == []
    {
      this.store := store;
      published := [];
    }

    /** `upload(file, fileId)`: the object lands under the key, unless the store refuses it. */
    method Upload(file: Blob, fileId: string, refusal: Option<JsError>) returns (r: Outcome<JsError>)
      modifies this`store
      ensures refusal.Some? ==> r == Fail(refusal.value) && store == old(store)
      ensures refusal.None? ==> r == Pass && store == old(store)[fileId := file]
    {
      if refusal.Some? {
        return Fail(refusal.value);
      }
      store := store[fileId := file];
      r := Pass;
    }

    /**
     * `postExport(event)`. `id` is the path parameter, `body` the request body
     * as `JSON.parse` reads it, `oid` the fresh object id and `publishError` the
     * error publishing raises, if any. The id is checked before the body is
     * parsed; a truthy format must be one of the supported formats.
     */
    method PostExport(id: Option<string>, body: Result<map<string, JsValue>, JsError>, headers: map<string, string>,
                      oid: string, publishError: Option<JsError>)
      returns (r: Response)
      modifies this`published
      ensures store == old(store)
      ensures id.None? || id.value == "" || !IsValidObjectId(id.value) ==>
                r == MessageResponse(422, "error: invalid space id") && published == old(published)
      ensures id.Some? && id.value != "" && IsValidObjectId(id.value) && body.Failure? ==>
                r == ErrorResponse(body.error) && published == old(published)
      ensures body.Success? && Truthy(Field(body.value, "format"))
              && Field(body.value, "format") !in Supported() && id.Some? && id.value != "" && IsValidObjectId(id.value) ==>
                r == MessageResponse(422, "error: invalid format") && published == old(published)
      ensures r.statusCode == 202 <==>
                id.Some? && id.value != "" && IsValidObjectId(id.value) && body.Success?
                && FormatAccepted(body.value) && publishError.None?
      ensures r.statusCode == 202 ==>
                && r == QueuedResponse(FileIdFor(oid, body.value))
                && published == old(published) + [Message(id.value, body.value, headers, FileIdFor(oid, body.value))]
      ensures r.statusCode != 202 ==> published == old(published)
      ensures id.Some? && id.value != "" && IsValidObjectId(id.value) && body.Success?
              && FormatAccepted(body.value) && publishError.Some? ==>
                r == ErrorResponse(publishError.value) && published == old(published)
      ensures r.statusCode == 500 ==> r.body.Some?
    {
      if id.None? || id.value == "" || !IsValidObjectId(id.value) {
        return MessageResponse(422, "error: invalid space id");
      }
      if body.Failure? {
        return ErrorResponse(body.error);
      }
      var bodyJson := body.value;
      if Truthy(Field(bodyJson, "format")) {
        if Field(bodyJson, "format") !in Supported() {
          return MessageResponse(422, "error: invalid format");
        }
      }
      var fileId := FileIdFor(oid, bodyJson);
      if publishError.Some? {
        return ErrorResponse(publishError.value);
      }
      published := published + [Message(id.value, bodyJson, headers, fileId)];
      r := QueuedResponse(fileId);
    }

    /**
     * `generateExport(event)` for the message the event carries. `start` and
     * `end` are the clock readings around the conversion and `refusal` the error
     * the upload raises, if any. Nothing is thrown: a failed conversion or upload
     * stores nothing. `converted` is the conversion's result.
     */
    method GenerateExport(msg: Message, start: int, end: int, refusal: Option<JsError>,
                          page: Page, env: Env, fs: FileSystem)
      returns (ghost converted: Result<Blob, ConvertError>)
      modifies this`store, page`elements, page`trace, fs
      ensures published == old(published)
      ensures converted.Failure? || refusal.Some? ==> store == old(store)
      ensures converted.Success? && refusal.None? ==>
                store == old(store)[msg.fileId := UploadedFor(msg.body, converted.value, end - start)]
      ensures !env.connects ==> converted.Failure?
      ensures converted.Success? ==> Reached(ParamsOf(msg.id, msg.body), env) && converted.value.Binary?
      ensures env.connects && Reached(ParamsOf(msg.id, msg.body), env) && RenderAction(ParamsOf(msg.id, msg.body).format).Some? ==>
                var a := RenderAction(ParamsOf(msg.id, msg.body).format).value;
                && (converted.Success? <==> env.render(a).Some? && env.accepts(CloseBrowser))
                && (converted.Success? ==> converted.value == Binary(env.render(a).value))
                && (converted.Success? && refusal.None? ==>
                      && msg.fileId in store
                      && store[msg.fileId] == UploadedFor(msg.body, Binary(env.render(a).value), end - start))
    {
      var authorization := if "authorization" in msg.headers then Some(msg.headers["authorization"]) else None;
      var file, _ := ConvertSpaceToFile(msg.id, msg.body, authorization, page, env, fs);
      converted := file;
      if file.Failure? {
        return;
      }
      var dryRun := Field(msg.body, "dryRun");
      if Truthy(dryRun) {
        var networkPreset := WithDefault(Field(msg.body, "networkPreset"), Str(Config.DEFAULT_NETWORK_PRESET));
        var report := Text(ReportText(end - start, Interpolate(networkPreset)));
        var _ := Upload(report, msg.fileId, refusal);
      } else {
        var _ := Upload(file.value, msg.fileId, refusal);
      }
    }
  }

  /** The formats `postExport` accepts. */
  function Supported(): (fs: set<JsValue>)
    ensures forall f :: f in Config.SUPPORTED_FORMATS ==> Str(f) in fs
    ensures forall v :: v in fs ==> v.Str? && v.s in Config.SUPPORTED_FORMATS
  {
    set f | f in Config.SUPPORTED_FORMATS :: Str(f)
  }

  /** The format check of `postExport`: absent or falsy, or one of the supported formats. */
  predicate FormatAccepted(body: map<string, JsValue>) {
    !Truthy(Field(body, "format")) || Field(body, "format") in Supported()
  }

  /** The dry-run report: the duration in milliseconds and the network preset, as JSON text. */
  function ReportText(duration: int, networkPreset: string): string {
    "{\n        \"duration\": " + IntToString(duration) + ",\n        \"networkPreset\": \"" + networkPreset + "\"\n      }"
  }

  /** What `generateExport` uploads: the report for a dry run, else the converted file. */
  function UploadedFor(body: map<string, JsValue>, file: Blob, duration: int): (b: Blob)
    ensures Truthy(Field(body, "dryRun")) ==>
              b == Text(ReportText(duration, Interpolate(WithDefault(Field(body, "networkPreset"), Str(Config.DEFAULT_NETWORK_PRESET)))))
    ensures !Truthy(Field(body, "dryRun")) ==> b == file
    ensures Truthy(Field(body, "dryRun")) && Field(body, "networkPreset") == Undefined ==>
              b == Text(ReportText(duration, Config.DEFAULT_NETWORK_PRESET))
  {
    if Truthy(Field(body, "dryRun"))
    then Text(ReportText(duration, Interpolate(WithDefault(Field(body, "networkPreset"), Str(Config.DEFAULT_NETWORK_PRESET)))))
    else file
  }

  /** The dry-run flag of the message is the one the file id was made from, so dry runs are stored under `json` ids. */
  lemma DryRunStoredUnderJson(oid: string, body: map<string, JsValue>)
    requires Truthy(Field(body, "dryRun"))
    ensures FileIdFor(oid, body) == oid + ".json"
  {
  }
}
