/**
 * The browser side of /api/analyze in services/geminiService.ts: the
 * request it builds, and how it turns the server's answer into a result
 * or a thrown error.
 */
module Client {
  import opened Wrappers
  import opened Json
  import Models
  import Api
  import Retry

  const BackendUrl: string := "https://disasterguard-backend-v79u.onrender.com"
  const AnalyzeUrl: string := BackendUrl + "/api" + "/analyze"

  /** Lines 11-24: the JSON body. An argument left out (`None`) takes its
    * default; JavaScript substitutes defaults only for `undefined`. */
  function RequestBody(location: string, reports: Option<seq<Json>>, lang: Option<string>): (j: Json)
    ensures j.JObj? && j.fields.Keys == {"location", "reports", "lang"}
    ensures j.fields["location"] == JStr(location)
    ensures j.fields["reports"] == JArr(reports.GetOr([]))
    ensures j.fields["lang"] == JStr(lang.GetOr("en"))
  {
    JObj(map["location" := JStr(location), "reports" := JArr(reports.GetOr([])), "lang" := JStr(lang.GetOr("en"))])
  }

  /** The server validates the body the client builds back into the same
    * request, as long as the reports and the language are valid. */
  lemma RequestRoundTrip(location: string, reports: Option<seq<Json>>, lang: Option<string>)
    requires forall k :: 0 <= k < |reports.GetOr([])| ==> Models.ValidUserReport(reports.GetOr([])[k])
    requires lang.GetOr("en") in Models.Languages
    ensures Models.ParseAnalyzeRequest(RequestBody(location, reports, lang)) ==
      Ok(Models.AnalyzeRequest(location, reports.GetOr([]), lang.GetOr("en")))
  {
  }

  /** An HTTP response as fetch delivers it: the status, and the body
    * parsed as JSON, `None` when it is not JSON. */
  datatype HttpResponse = HttpResponse(status: int, body: Option<Json>)

  /** What escapes analyzeLocationRisk: a JavaScript exception. */
  datatype JsError =
    | Error(message: string)     // new Error(message)
    | SyntaxError                // response.json() on a body that is not JSON
    | TypeError                  // reading `.detail` of null
    | NetworkError(cause: string) // fetch itself rejected

  /** Response.ok. */
  predicate OkStatus(status: int) {
    200 <= status < 300
  }

  /** `err.detail` (line 31): the body's "detail" key; undefined (None)
    * for other values and for objects without it. Only null throws. */
  function DetailOf(err: Json): (d: Result<Option<Json>, JsError>)
    ensures d.Err? <==> err == JNull
  {
    match err
    case JNull => Err(TypeError)
    case JObj(fields) => Ok(if "detail" in fields then Some(fields["detail"]) else None)
    case _ => Ok(None)
  }

  /** Lines 26-40: the parsed body on success; otherwise the error the
    * branch at line 28 throws (the catch block rethrows it unchanged). */
  function Classify(resp: HttpResponse): (r: Result<Json, JsError>)
  {
    if OkStatus(resp.status) then
      if resp.body.Some? then Ok(resp.body.value) else Err(SyntaxError)
    else
      var err := resp.body.GetOr(JObj(map["detail" := JStr("Unknown error")]));
      match DetailOf(err)
      case Err(e) => Err(e)
      case Ok(detail) =>
        if detail.Some? && Truthy(detail.value) then Err(Error(JsString(detail.value)))
        else Err(Error("Server error: " + IntToString(resp.status)))
  }

  /** The whole call: `fetched` is fetch's outcome, a network failure
    * being rethrown as it is. */
  function AnalyzeLocationRisk(fetched: Result<HttpResponse, string>): (r: Result<Json, JsError>)
    ensures fetched.Err? ==> r == Err(NetworkError(fetched.error))
  {
    match fetched
    case Err(cause) => Err(NetworkError(cause))
    case Ok(resp) => Classify(resp)
  }

  /** The selection at lines 28-36 case by case. */
  lemma ClassifyCases(resp: HttpResponse)
    ensures OkStatus(resp.status) && resp.body.Some? ==> Classify(resp) == Ok(resp.body.value)
    ensures OkStatus(resp.status) && resp.body.None? ==> Classify(resp) == Err(SyntaxError)
    ensures !OkStatus(resp.status) && resp.body.None? ==> Classify(resp) == Err(Error("Unknown error"))
    ensures !OkStatus(resp.status) && resp.body == Some(JNull) ==> Classify(resp) == Err(TypeError)
    ensures (!OkStatus(resp.status) && resp.body.Some? && resp.body.value.JObj? && "detail" in resp.body.value.fields &&
             Truthy(resp.body.value.fields["detail"])) ==>
      Classify(resp) == Err(Error(JsString(resp.body.value.fields["detail"])))
    ensures (!OkStatus(resp.status) && resp.body.Some? && resp.body.value != JNull &&
             !(resp.body.value.JObj? && "detail" in resp.body.value.fields && Truthy(resp.body.value.fields["detail"]))) ==>
      Classify(resp) == Err(Error("Server error: " + IntToString(resp.status)))
    ensures Classify(resp).Ok? <==> OkStatus(resp.status) && resp.body.Some?
  {
  }

  /** The server's answer as the client receives it. */
  function Received(r: Api.Response): HttpResponse {
    HttpResponse(r.status, Some(r.body))
  }

  /** End to end: a ValueError's text reaches the caller as the Error's
    * message, unless it is empty, when the status is reported instead. */
  lemma ValueErrorMessage(body: Json, service: Models.AnalyzeRequest -> Result<map<string, Json>, Retry.Exc>)
    requires Models.ParseAnalyzeRequest(body).Ok?
    requires var out := service(Models.ParseAnalyzeRequest(body).value); out.Err? && out.error.kind in Api.ValueErrorKinds
    ensures var msg := service(Models.ParseAnalyzeRequest(body).value).error.message;
      Classify(Received(Api.Analyze(body, service))) ==
        Err(Error(if msg != "" then msg else "Server error: 400"))
  {
    assert NatToString(4) == "4";
    assert NatToString(40) == NatToString(4) + "0";
    assert IntToString(400) == NatToString(40) + "0" == "400";
    var e := service(Models.ParseAnalyzeRequest(body).value).error;
    var resp := Received(Api.Analyze(body, service));
    assert resp == HttpResponse(400, Some(JObj(map["detail" := JStr(e.message)])));
    assert !OkStatus(400);
    assert DetailOf(resp.body.value) == Ok(Some(JStr(e.message)));
    if e.message != "" {
      assert Classify(resp) == Err(Error(e.message));
    } else {
      assert Classify(resp) == Err(Error("Server error: " + IntToString(400)));
      assert "Server error: " + "400" == "Server error: 400";
    }
  }

  /** Any other server failure reaches the caller as the fixed text. */
  lemma OtherErrorMessage(body: Json, service: Models.AnalyzeRequest -> Result<map<string, Json>, Retry.Exc>)
    requires Models.ParseAnalyzeRequest(body).Ok?
    requires var out := service(Models.ParseAnalyzeRequest(body).value); out.Err? && out.error.kind !in Api.ValueErrorKinds
    ensures Classify(Received(Api.Analyze(body, service))) == Err(Error(Api.SyncFailure))
  {
  }

  /** A body the server rejects reaches the caller as one "[object Object]"
    * per validation error, joined with commas. */
  lemma ValidationMessage(body: Json, service: Models.AnalyzeRequest -> Result<map<string, Json>, Retry.Exc>)
    requires Models.ParseAnalyzeRequest(body).Err?
    ensures Classify(Received(Api.Analyze(body, service))) ==
      Err(Error(ObjectList(|Models.ParseAnalyzeRequest(body).error|)))
  {
    var errors := Models.ParseAnalyzeRequest(body).error;
    var detail := Api.ValidationFailure(errors).body.fields["detail"];
    JoinObjects(detail.items);
  }

  /** Reports read back from storage that are empty objects: the message
    * holds six "[object Object]" per report, one per missing field. */
  lemma EmptyReportsMessage(location: string, service: Models.AnalyzeRequest -> Result<map<string, Json>, Retry.Exc>)
    ensures Classify(Received(Api.Analyze(RequestBody(location, Some([JObj(map[]), JObj(map[])]), None), service))) ==
      Err(Error(ObjectList(12)))
  {
    var body := RequestBody(location, Some([JObj(map[]), JObj(map[])]), None);
    assert body.fields == map["location" := JStr(location), "reports" := JArr([JObj(map[]), JObj(map[])])]["lang" := JStr("en")];
    Models.EmptyReportsErrors(location);
    ValidationMessage(body, service);
  }

  /** "[object Object]" n times, comma-separated. */
  function ObjectList(n: nat): (s: string)
    ensures n == 1 ==> s == "[object Object]"
  {
    if n == 0 then "" else if n == 1 then "[object Object]" else "[object Object]," + ObjectList(n - 1)
  }

  lemma {:induction false} JoinObjects(items: seq<Json>)
    requires forall k :: 0 <= k < |items| ==> items[k].JObj?
    ensures JoinElements(items) == ObjectList(|items|)
  {
    if |items| > 1 {
      JoinObjects(items[1..]);
    }
  }

  /** A successful answer is handed over as it is, valid or not. */
  lemma SuccessPassesThrough(body: Json, service: Models.AnalyzeRequest -> Result<map<string, Json>, Retry.Exc>)
    requires Models.ParseAnalyzeRequest(body).Ok? && service(Models.ParseAnalyzeRequest(body).value).Ok?
    ensures Classify(Received(Api.Analyze(body, service))) ==
      Ok(JObj(service(Models.ParseAnalyzeRequest(body).value).value))
  {
  }
}
