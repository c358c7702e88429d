/**
 * The HTTP endpoints of backend/main.py: request validation in front of
 * /api/analyze, the mapping of the service's exceptions to status codes,
 * the per-language translation lookup and the health check.
 */
module Api {
  import opened Wrappers
  import opened Json
  import Models
  import Retry
  import GeminiService

  /** What an endpoint sends back: status code and JSON body. */
  datatype Response = Response(status: nat, body: Json)

  const SyncFailure: string := "Neural Core Sync Failure"

  /** Classes whose instances are `ValueError`s: json.loads raises
    * JSONDecodeError, a subclass. */
  const ValueErrorKinds: set<string> := {"ValueError", "JSONDecodeError"}

  /** An HTTPException: FastAPI answers `{"detail": detail}`. */
  function HttpError(status: nat, detail: Json): (r: Response)
    ensures r.status == status && r.body.JObj? && r.body.fields.Keys == {"detail"} && r.body.fields["detail"] == detail
  {
    Response(status, JObj(map["detail" := detail]))
  }

  /** An error location as FastAPI writes it: "body", then the field names
    * as strings and the list indices as numbers. */
  function LocJson(loc: Models.Loc): (l: seq<Json>)
    ensures |l| == |loc| + 1 && l[0] == JStr("body")
    ensures forall k :: 0 <= k < |loc| ==> (loc[k].Key? <==> l[k + 1].JStr?)
  {
    [JStr("body")] + seq(|loc|, k requires 0 <= k < |loc| =>
      match loc[k]
      case Key(name) => JStr(name)
      case Index(i) => JNum(i))
  }

  /** FastAPI's answer to a body AnalyzeRequest rejects: 422, one entry per
    * pydantic error, in order, each locating its error in the body. */
  function ValidationFailure(errors: seq<Models.Loc>): (r: Response)
    ensures r.status == 422 && r.body.JObj? && "detail" in r.body.fields
    ensures r.body.fields["detail"].JArr? && |r.body.fields["detail"].items| == |errors|
    ensures forall k :: 0 <= k < |errors| ==>
      (r.body.fields["detail"].items[k].JObj? && "loc" in r.body.fields["detail"].items[k].fields &&
       r.body.fields["detail"].items[k].fields["loc"] == JArr(LocJson(errors[k])))
  {
    HttpError(422, JArr(seq(|errors|, k requires 0 <= k < |errors| =>
      JObj(map["loc" := JArr(LocJson(errors[k]))]))))
  }

  /** POST /api/analyze (lines 67-85). `service` stands for
    * analyze_location_risk applied to the validated request. */
  function Analyze(body: Json, service: Models.AnalyzeRequest -> Result<map<string, Json>, Retry.Exc>): (r: Response)
  {
    match Models.ParseAnalyzeRequest(body)
    case Err(errors) => ValidationFailure(errors)
    case Ok(request) =>
      match service(request)
      case Ok(result) => Response(200, JObj(result))
      case Err(e) =>
        if e.kind in ValueErrorKinds then HttpError(400, JStr(e.message))
        else HttpError(500, JStr(SyncFailure))
  }

  /** The four outcomes: 422 exactly when validation fails; otherwise the
    * request goes to the service unchanged and its result comes back as
    * is, a ValueError's text comes back as a 400 detail, and every other
    * exception is hidden behind the fixed 500 detail. */
  lemma AnalyzeOutcomes(body: Json, service: Models.AnalyzeRequest -> Result<map<string, Json>, Retry.Exc>)
    ensures Analyze(body, service).status in {200, 400, 422, 500}
    ensures Analyze(body, service).status == 422 <==> Models.ParseAnalyzeRequest(body).Err?
    ensures Models.ParseAnalyzeRequest(body).Ok? ==>
      var out := service(Models.ParseAnalyzeRequest(body).value);
      (out.Ok? ==> Analyze(body, service) == Response(200, JObj(out.value))) &&
      (out.Err? && out.error.kind in ValueErrorKinds ==> Analyze(body, service) == HttpError(400, JStr(out.error.message))) &&
      (out.Err? && out.error.kind !in ValueErrorKinds ==> Analyze(body, service) == HttpError(500, JStr(SyncFailure)))
  {
  }

  /** A rejected body never reaches the service: any two services give the
    * same answer. */
  lemma InvalidBodyIgnoresService(body: Json, s1: Models.AnalyzeRequest -> Result<map<string, Json>, Retry.Exc>,
                                  s2: Models.AnalyzeRequest -> Result<map<string, Json>, Retry.Exc>)
    requires Models.ParseAnalyzeRequest(body).Err?
    ensures Analyze(body, s1) == Analyze(body, s2)
    ensures Analyze(body, s1).status == 422
  {
  }

  /** The real service behind the endpoint: with the API key unset every
    * valid request is answered 400 with the key error's text. */
  lemma MissingKeyIs400(body: Json, respond: nat -> Retry.CallOutcome,
                        parse: string -> Result<Json, string>,
                        imageParts: Result<seq<Option<GeminiService.InlineData>>, Retry.Exc>, timestamp: string)
    requires Models.ParseAnalyzeRequest(body).Ok?
    ensures Analyze(body, _ => GeminiService.AnalyzeLocationRisk("", respond, parse, imageParts, timestamp)) ==
      HttpError(400, JStr(GeminiService.MissingKey.message))
  {
  }

  /** A reply that is not JSON becomes a 400 carrying the decoder's own
    * message, not the 500 of other failures. */
  lemma BadJsonIs400(body: Json, apiKey: string, respond: nat -> Retry.CallOutcome,
                     parse: string -> Result<Json, string>,
                     imageParts: Result<seq<Option<GeminiService.InlineData>>, Retry.Exc>, timestamp: string)
    requires Models.ParseAnalyzeRequest(body).Ok? && apiKey != ""
    requires Retry.Run(Retry.FallbackModels, respond).result.Returned?
    requires parse(GeminiService.CleanedText(Retry.Run(Retry.FallbackModels, respond).result.reply.text)).Err?
    ensures Analyze(body, _ => GeminiService.AnalyzeLocationRisk(apiKey, respond, parse, imageParts, timestamp)) ==
      HttpError(400, JStr(parse(GeminiService.CleanedText(Retry.Run(Retry.FallbackModels, respond).result.reply.text)).error))
  {
  }

  /** The merged result is a valid PredictionResult exactly when the
    * model's own fields are: the server's four keys always pass. */
  lemma MergedValidity(data: map<string, Json>, image: Option<string>, timestamp: string)
    ensures Models.ValidPredictionResult(JObj(GeminiService.MergeResult(data, image, timestamp))) <==>
      Models.ValidModelFields(data)
  {
    var r := GeminiService.MergeResult(data, image, timestamp);
    var extra := {"visualizationImage", "sources", "activeAlerts", "timestamp"};
    forall key | key in Models.ModelFieldNames
      ensures key in r <==> key in data
      ensures key in data ==> r[key] == data[key]
    {
      assert key !in extra;
    }
    ModelFieldsLocal(data, r);
  }

  lemma ModelFieldsLocal(a: map<string, Json>, b: map<string, Json>)
    requires forall key :: key in Models.ModelFieldNames ==> (key in a <==> key in b)
    requires forall key :: key in Models.ModelFieldNames && key in a ==> a[key] == b[key]
    ensures Models.ValidModelFields(a) <==> Models.ValidModelFields(b)
  {
  }

  /** The endpoint does not check its output: a reply the model sends
    * with an unknown risk level is returned with status 200 although it
    * is not a valid PredictionResult. */
  lemma UnvalidatedOutput(data: map<string, Json>, image: Option<string>, timestamp: string)
    requires "overallRiskLevel" in data && data["overallRiskLevel"] == JStr("Unknown")
    ensures !Models.ValidPredictionResult(JObj(GeminiService.MergeResult(data, image, timestamp)))
    ensures var body := JObj(map["location" := JStr("Lisbon")]);
      Analyze(body, _ => Ok(GeminiService.MergeResult(data, image, timestamp))) ==
        Response(200, JObj(GeminiService.MergeResult(data, image, timestamp)))
  {
    MergedValidity(data, image, timestamp);
    assert "Unknown" !in Models.RiskLevels;
    Models.RequestDefaults("Lisbon");
  }

  /** GET /api/translations/{lang} (lines 94-99) over the table of UI
    * strings: the entry, or 404 naming the language. */
  function GetTranslation(uiStrings: map<string, Json>, lang: string): (r: Response)
    ensures r.status == 200 <==> lang in uiStrings
    ensures lang in uiStrings ==> r.body == uiStrings[lang]
    ensures lang !in uiStrings ==> r == HttpError(404, JStr("Language '" + lang + "' not found"))
  {
    if lang !in uiStrings then HttpError(404, JStr("Language '" + lang + "' not found"))
    else Response(200, uiStrings[lang])
  }

  /** GET /api/health (lines 57-64): always the same three fields. */
  function HealthCheck(): (r: Response)
    ensures r.status == 200 && r.body.JObj? && r.body.fields.Keys == {"status", "engine", "language"}
    ensures r.body.fields["status"] == JStr("online") && r.body.fields["engine"] == JStr("Neural-X V4.2")
    ensures r.body.fields["language"] == JStr("python")
  {
    Response(200, JObj(map["status" := JStr("online"), "engine" := JStr("Neural-X V4.2"), "language" := JStr("python")]))
  }
}
