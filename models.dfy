/**
 * The pydantic models of backend/models.py as validity predicates over
 * parsed JSON: what each model accepts, field by field, with the range
 * and literal constraints and the defaults. Only AnalyzeRequest is ever
 * validated by the server (as the /api/analyze body); the others describe
 * the intended shape of data the server passes through unchecked.
 */
module Models {
  import opened Wrappers
  import opened Json

  const RiskSeverities: set<string> := {"Low", "Medium", "High", "Critical"}
  const ReportSeverities: set<string> := {"Minor", "Moderate", "Severe"}
  const RiskLevels: set<string> := {"Low", "Moderate", "High", "Extreme"}
  const Languages: set<string> := {"en", "es", "fr", "hi"}

  predicate StrField(o: map<string, Json>, key: string) {
    key in o && o[key].JStr?
  }

  predicate IntField(o: map<string, Json>, key: string) {
    key in o && o[key].JNum?
  }

  /** An int field with `Field(ge=0, le=100)`: both bounds inclusive. */
  predicate PercentField(o: map<string, Json>, key: string) {
    key in o && o[key].JNum? && 0 <= o[key].n <= 100
  }

  /** A `Literal[...]` field. */
  predicate EnumField(o: map<string, Json>, key: string, options: set<string>) {
    key in o && o[key].JStr? && o[key].s in options
  }

  predicate StrList(j: Json) {
    j.JArr? && forall k :: 0 <= k < |j.items| ==> j.items[k].JStr?
  }

  /** DisasterRisk (lines 6-11). */
  predicate ValidDisasterRisk(j: Json) {
    j.JObj? && var o := j.fields;
    StrField(o, "type") && PercentField(o, "probability") && EnumField(o, "severity", RiskSeverities) &&
    StrField(o, "description") && "recommendations" in o && StrList(o["recommendations"])
  }

  /** GroundingSource (lines 14-16). */
  predicate ValidGroundingSource(j: Json) {
    j.JObj? && StrField(j.fields, "title") && StrField(j.fields, "uri")
  }

  /** UserReport (lines 19-25). */
  predicate ValidUserReport(j: Json) {
    j.JObj? && var o := j.fields;
    StrField(o, "id") && StrField(o, "type") && StrField(o, "description") &&
    EnumField(o, "severity", ReportSeverities) && StrField(o, "timestamp") && StrField(o, "location")
  }

  /** HistoricalTrend (lines 28-31): the counts have no range. */
  predicate ValidHistoricalTrend(j: Json) {
    j.JObj? && StrField(j.fields, "period") && IntField(j.fields, "eventCount") && IntField(j.fields, "intensityScore")
  }

  /** FutureHotspot (lines 34-39). */
  predicate ValidFutureHotspot(j: Json) {
    j.JObj? && var o := j.fields;
    StrField(o, "location") && StrField(o, "threat") && StrField(o, "timeframe") &&
    StrField(o, "reasoning") && PercentField(o, "probabilityScore")
  }

  /** ModelMetadata (lines 42-46). */
  predicate ValidModelMetadata(j: Json) {
    j.JObj? && var o := j.fields;
    IntField(o, "dataPointsAnalyzed") && IntField(o, "trainingEpochs") &&
    IntField(o, "neuralAccuracy") && StrField(o, "algorithmVersion")
  }

  /** FutureForecast (lines 49-52): vulnerabilityScore has no range. */
  predicate ValidFutureForecast(j: Json) {
    j.JObj? && var o := j.fields;
    StrField(o, "longTermOutlook") && IntField(o, "vulnerabilityScore") &&
    "hotspots" in o && o["hotspots"].JArr? &&
    forall k :: 0 <= k < |o["hotspots"].items| ==> ValidFutureHotspot(o["hotspots"].items[k])
  }

  predicate RisksValid(j: Json) {
    j.JArr? && forall k :: 0 <= k < |j.items| ==> ValidDisasterRisk(j.items[k])
  }

  predicate TrendsValid(j: Json) {
    j.JArr? && forall k :: 0 <= k < |j.items| ==> ValidHistoricalTrend(j.items[k])
  }

  predicate SourcesValid(j: Json) {
    j.JArr? && forall k :: 0 <= k < |j.items| ==> ValidGroundingSource(j.items[k])
  }

  predicate AlertsValid(j: Json) {
    j.JArr? && forall k :: 0 <= k < |j.items| ==> j.items[k].JObj?
  }

  /** The keys of PredictionResult that only the model's answer supplies. */
  const ModelFieldNames: set<string> := {"location", "overallRiskLevel", "predictionConfidence", "summary", "risks",
    "communityInsights", "historicalTrends", "modelMetadata", "futureForecast"}

  /** The fields of PredictionResult that come from the model's answer. */
  predicate ValidModelFields(o: map<string, Json>) {
    StrField(o, "location") && EnumField(o, "overallRiskLevel", RiskLevels) &&
    PercentField(o, "predictionConfidence") && StrField(o, "summary") &&
    "risks" in o && RisksValid(o["risks"]) && StrField(o, "communityInsights") &&
    "historicalTrends" in o && TrendsValid(o["historicalTrends"]) &&
    "modelMetadata" in o && ValidModelMetadata(o["modelMetadata"]) &&
    "futureForecast" in o && ValidFutureForecast(o["futureForecast"])
  }

  /** PredictionResult (lines 55-68): visualizationImage, activeAlerts and
    * sources may be left out (defaults None, [] and []); None is also
    * accepted for visualizationImage. */
  predicate ValidPredictionResult(j: Json) {
    j.JObj? && var o := j.fields;
    ValidModelFields(o) &&
    ("visualizationImage" in o ==> o["visualizationImage"].JNull? || o["visualizationImage"].JStr?) &&
    ("activeAlerts" in o ==> AlertsValid(o["activeAlerts"])) &&
    ("sources" in o ==> SourcesValid(o["sources"])) &&
    StrField(o, "timestamp")
  }

  /** A validated /api/analyze body, defaults filled in. */
  datatype AnalyzeRequest = AnalyzeRequest(location: string, reports: seq<Json>, lang: string)

  /** What AnalyzeRequest accepts (lines 76-79): a string location; reports
    * absent or a list of valid UserReports; lang absent or one of the four. */
  predicate ValidAnalyzeRequest(body: Json) {
    body.JObj? && var o := body.fields;
    StrField(o, "location") &&
    ("reports" in o ==>
      o["reports"].JArr? && forall k :: 0 <= k < |o["reports"].items| ==> ValidUserReport(o["reports"].items[k])) &&
    ("lang" in o ==> EnumField(o, "lang", Languages))
  }

  /** One step of the place pydantic reports an error at: a field name or a
    * list index. */
  datatype LocStep = Key(name: string) | Index(i: nat)

  /** Where in the body an error sits; the empty path is the body itself. */
  type Loc = seq<LocStep>

  /** The fields of UserReport in declaration order (lines 20-25). */
  const ReportFieldNames: seq<string> := ["id", "type", "description", "severity", "timestamp", "location"]

  predicate ReportFieldOk(o: map<string, Json>, name: string) {
    if name == "severity" then EnumField(o, name, ReportSeverities) else StrField(o, name)
  }

  /** The errors of the fields `names` of report number i: one for each
    * field that is missing or wrong, in order. */
  function ReportFieldErrors(o: map<string, Json>, i: nat, names: seq<string>): (e: seq<Loc>)
    ensures |e| <= |names|
    ensures e == [] <==> forall k :: 0 <= k < |names| ==> ReportFieldOk(o, names[k])
    ensures forall k :: 0 <= k < |e| ==> |e[k]| == 3 && e[k][0] == Key("reports") && e[k][1] == Index(i)
  {
    if names == [] then []
    else
      (if ReportFieldOk(o, names[0]) then [] else [[Key("reports"), Index(i), Key(names[0])]]) +
      ReportFieldErrors(o, i, names[1..])
  }

  /** The errors of report number i: one for a value that is not an
    * object, otherwise one per failing field. */
  function ReportErrors(j: Json, i: nat): seq<Loc> {
    if !j.JObj? then [[Key("reports"), Index(i)]] else ReportFieldErrors(j.fields, i, ReportFieldNames)
  }

  /** A report has no errors exactly when it is a valid UserReport. */
  lemma ReportErrorsNone(j: Json, i: nat)
    ensures ReportErrors(j, i) == [] <==> ValidUserReport(j)
  {
    if j.JObj? {
      var o := j.fields;
      var names := ReportFieldNames;
      if ReportErrors(j, i) == [] {
        assert ReportFieldOk(o, names[0]) && ReportFieldOk(o, names[1]) && ReportFieldOk(o, names[2]);
        assert ReportFieldOk(o, names[3]) && ReportFieldOk(o, names[4]) && ReportFieldOk(o, names[5]);
      }
    }
  }

  /** The errors of the reports from number i on, report by report. */
  function ItemsErrors(items: seq<Json>, i: nat): seq<Loc>
    decreases |items|
  {
    if items == [] then [] else ReportErrors(items[0], i) + ItemsErrors(items[1..], i + 1)
  }

  lemma {:induction false} ItemsErrorsNone(items: seq<Json>, i: nat)
    ensures ItemsErrors(items, i) == [] <==> forall k :: 0 <= k < |items| ==> ValidUserReport(items[k])
    decreases |items|
  {
    if items != [] {
      ReportErrorsNone(items[0], i);
      ItemsErrorsNone(items[1..], i + 1);
      if forall k :: 0 <= k < |items| - 1 ==> ValidUserReport(items[1..][k]) {
        assert forall k :: 1 <= k < |items| ==> ValidUserReport(items[k]) by {
          forall k | 1 <= k < |items| ensures ValidUserReport(items[k]) {
            assert items[k] == items[1..][k - 1];
          }
        }
      }
    }
  }

  function LocationErrors(o: map<string, Json>): seq<Loc> {
    if StrField(o, "location") then [] else [[Key("location")]]
  }

  /** `reports`: one error when it is not a list, otherwise the errors of
    * its items. */
  function ReportsErrors(o: map<string, Json>): seq<Loc> {
    if "reports" !in o then []
    else if !o["reports"].JArr? then [[Key("reports")]]
    else ItemsErrors(o["reports"].items, 0)
  }

  function LangErrors(o: map<string, Json>): seq<Loc> {
    if "lang" !in o || EnumField(o, "lang", Languages) then [] else [[Key("lang")]]
  }

  /** Validation of AnalyzeRequest (lines 76-79): pydantic's errors in field
    * order, or the request with `reports` defaulting to [] and `lang` to
    * "en". A body that is not an object has a single error, at the body. */
  function ParseAnalyzeRequest(body: Json): (r: Result<AnalyzeRequest, seq<Loc>>)
    ensures r.Ok? <==> ValidAnalyzeRequest(body)
    ensures r.Err? ==> r.error != []
    ensures !body.JObj? ==> r == Err([[]])
    ensures r.Ok? ==> var o := body.fields;
      r.value.location == o["location"].s &&
      r.value.reports == (if "reports" in o then o["reports"].items else []) &&
      r.value.lang == (if "lang" in o then o["lang"].s else "en")
  {
    if !body.JObj? then Err([[]])
    else
      var o := body.fields;
      var errors := LocationErrors(o) + ReportsErrors(o) + LangErrors(o);
      ItemsErrorsNone(if "reports" in o && o["reports"].JArr? then o["reports"].items else [], 0);
      if errors != [] then Err(errors)
      else Ok(AnalyzeRequest(o["location"].s, if "reports" in o then o["reports"].items else [], if "lang" in o then o["lang"].s else "en"))
  }

  /** Every field of a report object that is absent is reported. */
  lemma {:induction false} MissingFieldsReported(i: nat, names: seq<string>)
    ensures ReportFieldErrors(map[], i, names) ==
      seq(|names|, k requires 0 <= k < |names| => [Key("reports"), Index(i), Key(names[k])])
    decreases |names|
  {
    if names != [] {
      MissingFieldsReported(i, names[1..]);
    }
  }

  /** Two empty report objects give twelve errors, six per report, the
    * first at reports[0].id. */
  lemma EmptyReportsErrors(location: string)
    ensures var r := ParseAnalyzeRequest(JObj(map["location" := JStr(location), "reports" := JArr([JObj(map[]), JObj(map[])])]));
      r.Err? && |r.error| == 12 && r.error[0] == [Key("reports"), Index(0), Key("id")]
  {
    MissingFieldsReported(0, ReportFieldNames);
    MissingFieldsReported(1, ReportFieldNames);
    var items := [JObj(map[]), JObj(map[])];
    assert ItemsErrors(items, 0) == ReportErrors(items[0], 0) + ItemsErrors(items[1..], 1);
    assert ItemsErrors(items[1..], 1) == ReportErrors(items[1], 1) + ItemsErrors(items[2..], 2);
  }

  /** A body with only a location is accepted with the defaults. */
  lemma RequestDefaults(location: string)
    ensures ParseAnalyzeRequest(JObj(map["location" := JStr(location)])) == Ok(AnalyzeRequest(location, [], "en"))
  {
  }

  /** A language outside the four is rejected, whatever else the body holds. */
  lemma UnknownLanguageRejected(body: Json)
    requires body.JObj? && "lang" in body.fields && body.fields["lang"].JStr? && body.fields["lang"].s !in Languages
    ensures ParseAnalyzeRequest(body).Err? && [Key("lang")] in ParseAnalyzeRequest(body).error
  {
    var errs := ParseAnalyzeRequest(body).error;
    var o := body.fields;
    assert errs == LocationErrors(o) + ReportsErrors(o) + [[Key("lang")]];
    assert errs[|errs| - 1] == [Key("lang")];
  }

  /** The range bounds are inclusive: 0 and 100 are valid probabilities,
    * -1 and 101 are not; severities and risk levels are different scales. */
  lemma PercentBounds(o: map<string, Json>, key: string)
    requires key in o && o[key].JNum?
    ensures PercentField(o, key) <==> 0 <= o[key].n <= 100
    ensures PercentField(o[key := JNum(0)], key) && PercentField(o[key := JNum(100)], key)
    ensures !PercentField(o[key := JNum(-1)], key) && !PercentField(o[key := JNum(101)], key)
  {
  }

  lemma ScalesDiffer()
    ensures "Medium" in RiskSeverities && "Medium" !in RiskLevels
    ensures "Moderate" in RiskLevels && "Moderate" !in RiskSeverities
    ensures "Extreme" !in RiskSeverities && "Critical" !in RiskLevels
  {
  }

  /** A well-typed DisasterRisk is valid exactly when its probability is
    * in [0, 100] and its severity one of the four. */
  lemma DisasterRiskChecks(o: map<string, Json>, p: int, severity: string)
    requires StrField(o, "type") && StrField(o, "description")
    requires "recommendations" in o && StrList(o["recommendations"])
    ensures ValidDisasterRisk(JObj(o["probability" := JNum(p)]["severity" := JStr(severity)])) <==>
      0 <= p <= 100 && severity in {"Low", "Medium", "High", "Critical"}
  {
  }

  /** A well-typed FutureHotspot is valid exactly when its score is in
    * [0, 100]. */
  lemma HotspotChecks(o: map<string, Json>, p: int)
    requires StrField(o, "location") && StrField(o, "threat") && StrField(o, "timeframe") && StrField(o, "reasoning")
    ensures ValidFutureHotspot(JObj(o["probabilityScore" := JNum(p)])) <==> 0 <= p <= 100
  {
  }

  /** A UserReport's severity is on its own three-step scale. */
  lemma ReportSeverityChecks(o: map<string, Json>, severity: string)
    requires StrField(o, "id") && StrField(o, "type") && StrField(o, "description")
    requires StrField(o, "timestamp") && StrField(o, "location")
    ensures ValidUserReport(JObj(o["severity" := JStr(severity)])) <==> severity in {"Minor", "Moderate", "Severe"}
  {
  }

  /** Trend counts and the vulnerability score take any integer, negative
    * or above 100. */
  lemma UnboundedCounts(period: string, eventCount: int, intensityScore: int, outlook: string, score: int)
    ensures ValidHistoricalTrend(JObj(map["period" := JStr(period), "eventCount" := JNum(eventCount),
                                          "intensityScore" := JNum(intensityScore)]))
    ensures ValidFutureForecast(JObj(map["longTermOutlook" := JStr(outlook), "vulnerabilityScore" := JNum(score),
                                         "hotspots" := JArr([])]))
  {
  }

  /** visualizationImage, activeAlerts and sources may be left out: such
    * a result is valid exactly when the rest is. */
  lemma PredictionDefaults(o: map<string, Json>)
    requires "visualizationImage" !in o && "activeAlerts" !in o && "sources" !in o
    ensures ValidPredictionResult(JObj(o)) <==> ValidModelFields(o) && StrField(o, "timestamp")
  {
  }
}
