/**
 * `analyze_location_risk` of backend/services/gemini_service.py (lines
 * 74-188) around its model calls: the API-key check, the language name,
 * the clean-up of the model's text, the list unwrapping and object check,
 * the best-effort visualization image and the merge of the bookkeeping
 * keys. The text model is reached through Retry.Run, the JSON parser is a
 * parameter, and so are the image model's answer and the clock.
 */
module GeminiService {
  import opened Wrappers
  import opened Json
  import Base64
  import Retry

  const LangNames: map<string, string> := map["en" := "English", "es" := "Spanish", "fr" := "French", "hi" := "Hindi"]

  /** `LANG_NAMES.get(lang, "English")`. */
  function LangName(lang: string): (name: string)
    ensures lang in LangNames ==> name == LangNames[lang]
    ensures lang !in LangNames ==> name == "English"
  {
    if lang in LangNames then LangNames[lang] else "English"
  }

  // ------------------------------------------------------------ fences

  /** `re.sub(r"```json|```", "", s)`: one left-to-right pass; at each
    * position "```json" is tried before "```", and a match is skipped
    * whole. */
  function RemoveFences(s: string): (r: string)
    ensures |r| <= |s|
    decreases |s|
  {
    if StartsJsonFence(s) then RemoveFences(s[7..])
    else if StartsFence(s) then RemoveFences(s[3..])
    else if s == [] then []
    else [s[0]] + RemoveFences(s[1..])
  }

  /** s starts with "```". */
  predicate StartsFence(s: string) {
    |s| >= 3 && s[0] == '`' && s[1] == '`' && s[2] == '`'
  }

  /** s starts with "```json". */
  predicate StartsJsonFence(s: string) {
    StartsFence(s) && |s| >= 7 && s[3] == 'j' && s[4] == 's' && s[5] == 'o' && s[6] == 'n'
  }

  /** No three backticks in a row. */
  predicate NoFence(t: string)
    decreases |t|
  {
    |t| < 3 || (!StartsFence(t) && NoFence(t[1..]))
  }

  /** No backtick anywhere. */
  predicate NoBackticks(s: string)
    decreases |s|
  {
    s == [] || (s[0] != '`' && NoBackticks(s[1..]))
  }

  /** A string that does not start with a backtick keeps its first
    * character. */
  lemma RemoveFencesHead(s: string)
    requires s != [] && s[0] != '`'
    ensures RemoveFences(s) == [s[0]] + RemoveFences(s[1..])
  {
  }

  /** After the pass no "```" is left, though a match can bring backticks
    * together: an emitted backtick is never followed by a removed match,
    * since the match would have started one position earlier. */
  lemma {:induction false} RemoveFencesNoFence(s: string)
    ensures NoFence(RemoveFences(s))
    decreases |s|
  {
    if StartsJsonFence(s) {
      RemoveFencesNoFence(s[7..]);
    } else if StartsFence(s) {
      RemoveFencesNoFence(s[3..]);
    } else if s != [] {
      RemoveFencesNoFence(s[1..]);
      var r := RemoveFences(s);
      var rest := RemoveFences(s[1..]);
      assert r == [s[0]] + rest;
      if |r| >= 3 && s[0] == '`' {
        assert |s| >= 3;
        if s[1] != '`' {
          RemoveFencesHead(s[1..]);
        } else {
          assert s[2] != '`';
          var t := s[1..];
          assert !StartsFence(t);
          assert rest == [t[0]] + RemoveFences(t[1..]);
          RemoveFencesHead(t[1..]);
          assert r[2] == s[2];
        }
      }
      assert r[1..] == rest;
    }
  }

  /** Text without backticks passes unchanged. */
  lemma {:induction false} RemoveFencesNoBackticks(s: string)
    requires NoBackticks(s)
    ensures RemoveFences(s) == s
    decreases |s|
  {
    if s != [] {
      RemoveFencesNoBackticks(s[1..]);
    }
  }

  /** The usual Markdown wrapping is removed: "```json" + body + "```" with
    * a body free of backticks leaves the body. */
  lemma FencedBlock(body: string)
    requires NoBackticks(body)
    ensures RemoveFences("```json" + (body + "```")) == body
  {
    var open, rest := "```json", body + "```";
    StartsJsonFenceAppend(open, rest);
    SkipJsonFence(open + rest);
    assert (open + rest)[7..] == rest;
    RemoveFencesAppend(body);
  }

  lemma StartsJsonFenceAppend(a: string, b: string)
    requires StartsJsonFence(a)
    ensures StartsJsonFence(a + b)
  {
  }

  lemma SkipJsonFence(s: string)
    requires StartsJsonFence(s)
    ensures RemoveFences(s) == RemoveFences(s[7..])
  {
  }

  lemma {:induction false} RemoveFencesAppend(body: string)
    requires NoBackticks(body)
    ensures RemoveFences(body + "```") == body
    decreases |body|
  {
    if body == [] {
      assert StartsFence("```") && !StartsJsonFence("```");
      assert "```"[3..] == [];
    } else {
      var s := body + "```";
      assert s[0] == body[0];
      assert s[1..] == body[1..] + "```";
      RemoveFencesAppend(body[1..]);
    }
  }

  // ------------------------------------------------------------ strip

  /** The characters Python's str.strip() removes by default. */
  predicate IsPyWhitespace(c: char) {
    c == ' ' || ('\t' <= c <= '\r') || ('\U{001C}' <= c <= '\U{001F}') ||
    c == '\U{0085}' || c == '\U{00A0}' || c == '\U{1680}' || ('\U{2000}' <= c <= '\U{200A}') ||
    c == '\U{2028}' || c == '\U{2029}' || c == '\U{202F}' || c == '\U{205F}' || c == '\U{3000}'
  }

  function StripLeft(s: string): (r: string)
    ensures |r| <= |s| && r == s[|s| - |r|..]
    ensures r == [] || !IsPyWhitespace(r[0])
  {
    if s != [] && IsPyWhitespace(s[0]) then StripLeft(s[1..]) else s
  }

  function StripRight(s: string): (r: string)
    ensures |r| <= |s| && r == s[..|r|]
    ensures r == [] || !IsPyWhitespace(r[|r| - 1])
  {
    if s != [] && IsPyWhitespace(s[|s| - 1]) then StripRight(s[..|s| - 1]) else s
  }

  /** `lstrip` cuts only whitespace. */
  lemma {:induction false} StripLeftCut(s: string)
    ensures forall k :: 0 <= k < |s| - |StripLeft(s)| ==> IsPyWhitespace(s[k])
    decreases |s|
  {
    if s != [] && IsPyWhitespace(s[0]) {
      StripLeftCut(s[1..]);
      forall k | 1 <= k < |s| - |StripLeft(s)|
        ensures IsPyWhitespace(s[k])
      {
        assert s[k] == s[1..][k - 1];
      }
    }
  }

  /** `rstrip` cuts only whitespace. */
  lemma {:induction false} StripRightCut(s: string)
    ensures forall k :: |StripRight(s)| <= k < |s| ==> IsPyWhitespace(s[k])
    decreases |s|
  {
    if s != [] && IsPyWhitespace(s[|s| - 1]) {
      StripRightCut(s[..|s| - 1]);
      forall k | |StripRight(s)| <= k < |s| - 1
        ensures IsPyWhitespace(s[k])
      {
        assert s[k] == s[..|s| - 1][k];
      }
    }
  }

  /** How many whitespace characters `strip` cuts from the front. */
  function LeadingSpace(s: string): nat {
    |s| - |StripLeft(s)|
  }

  /** `s.strip()`. */
  function Strip(s: string): string {
    StripRight(StripLeft(s))
  }

  /** `strip` returns the slice of s that neither starts nor ends with
    * whitespace. */
  lemma StripShape(s: string)
    ensures var r := Strip(s);
      (r == [] || (!IsPyWhitespace(r[0]) && !IsPyWhitespace(r[|r| - 1]))) &&
      LeadingSpace(s) + |r| <= |s| && r == s[LeadingSpace(s)..LeadingSpace(s) + |r|]
  {
    var l := StripLeft(s);
    var r := StripRight(l);
    PrefixOfSuffix(s, |s| - |l|, l, r);
    assert r != [] ==> r[0] == l[0];
  }

  /** Where a prefix of a suffix sits in the whole. */
  lemma PrefixOfSuffix(s: string, a: nat, l: string, r: string)
    requires a <= |s| && l == s[a..] && |r| <= |l| && r == l[..|r|]
    ensures r == s[a..a + |r|]
  {
  }

  /** `strip` cuts only whitespace, on both sides. */
  lemma StripCutsWhitespace(s: string)
    ensures forall k :: 0 <= k < LeadingSpace(s) ==> IsPyWhitespace(s[k])
    ensures forall k :: LeadingSpace(s) + |Strip(s)| <= k < |s| ==> IsPyWhitespace(s[k])
  {
    var l := StripLeft(s);
    var a := |s| - |l|;
    StripLeftCut(s);
    StripRightCut(l);
    PrefixOfSuffix(s, a, l, StripRight(l));
    forall k | a + |Strip(s)| <= k < |s|
      ensures IsPyWhitespace(s[k])
    {
      assert s[k] == l[k - a];
    }
  }

  lemma StripLeftClean(s: string)
    requires s == [] || !IsPyWhitespace(s[0])
    ensures StripLeft(s) == s
  {
  }

  lemma StripRightClean(s: string)
    requires s == [] || !IsPyWhitespace(s[|s| - 1])
    ensures StripRight(s) == s
  {
  }

  /** Stripping twice is stripping once. */
  lemma StripIdempotent(s: string)
    ensures Strip(Strip(s)) == Strip(s)
  {
    var r := Strip(s);
    StripShape(s);
    StripLeftClean(r);
    StripRightClean(r);
  }

  // ------------------------------------------------------------ text

  /** `response.text or "{}"`. */
  function ResponseText(text: Option<string>): (t: string)
    ensures t != ""
    ensures text.Some? && text.value != "" ==> t == text.value
    ensures text.None? || text == Some("") ==> t == "{}"
  {
    if text.None? || text.value == "" then "{}" else text.value
  }

  /** The text handed to json.loads (lines 129-130). */
  function CleanedText(text: Option<string>): (t: string)
    ensures NoFence(t)
  {
    var removed := RemoveFences(ResponseText(text));
    RemoveFencesNoFence(ResponseText(text));
    StripNoFence(removed);
    Strip(removed)
  }

  lemma {:induction false} NoFenceSlice(t: string, a: nat, b: nat)
    requires NoFence(t) && a <= b <= |t|
    ensures NoFence(t[a..b])
    decreases |t|
  {
    var u := t[a..b];
    if |u| >= 3 {
      if a > 0 {
        NoFenceSlice(t[1..], a - 1, b - 1);
        assert t[1..][a - 1..b - 1] == u;
      } else {
        assert StartsFence(u) == StartsFence(t);
        NoFenceSlice(t[1..], 0, b - 1);
        assert u[1..] == t[1..][0..b - 1];
      }
    }
  }

  lemma StripNoFence(s: string)
    requires NoFence(s)
    ensures NoFence(Strip(s))
  {
    var r := Strip(s);
    StripShape(s);
    NoFenceSlice(s, LeadingSpace(s), LeadingSpace(s) + |r|);
  }

  /** A reply with no text, or an empty one, parses as an empty object. */
  lemma EmptyReplyText(text: Option<string>)
    requires text.None? || text == Some("")
    ensures CleanedText(text) == "{}"
  {
    RemoveFencesNoBackticks("{}");
    StripLeftClean("{}");
    StripRightClean("{}");
  }

  // ------------------------------------------------------------ objects

  /** A Python exception: class name and `str(e)`. */
  type Exc = Retry.Exc

  /** Lines 134-137: a list becomes its first element, or {} when empty;
    * anything but an object is then a ValueError. */
  function ToObject(data: Json): (r: Result<map<string, Json>, Exc>)
    ensures data.JObj? ==> r == Ok(data.fields)
    ensures data.JArr? && data.items == [] ==> r == Ok(map[])
    ensures data.JArr? && data.items != [] && data.items[0].JObj? ==> r == Ok(data.items[0].fields)
    ensures r.Err? ==> r.error.kind == "ValueError"
  {
    var d := if data.JArr? then (if data.items == [] then JObj(map[]) else data.items[0]) else data;
    if d.JObj? then Ok(d.fields)
    else Err(Retry.Exc("ValueError", "Expected JSON object, got " + PyTypeName(d)))
  }

  /** Exactly the values that are neither objects nor lists starting with
    * an object (or empty) are rejected, and the message names the type. */
  lemma ToObjectRejects(data: Json)
    ensures ToObject(data).Err? <==>
      !data.JObj? && !(data.JArr? && (data.items == [] || data.items[0].JObj?))
    ensures !data.JArr? && !data.JObj? ==>
      ToObject(data) == Err(Retry.Exc("ValueError", "Expected JSON object, got " + PyTypeName(data)))
  {
  }

  /** The image the visualization call returned: mime type and bytes of
    * each part's inline data, None for parts without it. */
  datatype InlineData = InlineData(mimeType: string, data: seq<Base64.byte>)

  /** Lines 143-173: the first part with inline data as a data URL; None
    * when there is none or the call raised (the error is swallowed). */
  function VisualizationImage(parts: Result<seq<Option<InlineData>>, Exc>): (r: Option<string>)
    ensures parts.Err? ==> r.None?
    ensures parts.Ok? && (forall k :: 0 <= k < |parts.value| ==> parts.value[k].None?) ==> r.None?
  {
    if parts.Err? then None else FirstImage(parts.value)
  }

  function FirstImage(parts: seq<Option<InlineData>>): (r: Option<string>)
    ensures (forall k :: 0 <= k < |parts| ==> parts[k].None?) ==> r.None?
  {
    if parts == [] then None
    else if parts[0].Some? then
      Some("data:" + parts[0].value.mimeType + ";base64," + Base64.Encode(parts[0].value.data))
    else FirstImage(parts[1..])
  }

  /** The image's data URL carries its bytes: after the "base64," prefix
    * the rest decodes back to the bytes of the first part with data. */
  lemma {:induction false} FirstImageDecodes(parts: seq<Option<InlineData>>, k: nat)
    requires k < |parts| && parts[k].Some?
    requires forall j :: 0 <= j < k ==> parts[j].None?
    ensures var p := "data:" + parts[k].value.mimeType + ";base64,";
      FirstImage(parts) == Some(p + Base64.Encode(parts[k].value.data)) &&
      Base64.Decode(FirstImage(parts).value[|p|..]) == Some(parts[k].value.data)
  {
    var p := "data:" + parts[k].value.mimeType + ";base64,";
    if k > 0 {
      FirstImageDecodes(parts[1..], k - 1);
    }
    assert (p + Base64.Encode(parts[k].value.data))[|p|..] == Base64.Encode(parts[k].value.data);
    Base64.DecodeEncode(parts[k].value.data);
  }

  /** Lines 176-182: every key of the model's object, with the four
    * bookkeeping keys set by the server whatever the model sent. */
  function MergeResult(data: map<string, Json>, image: Option<string>, timestamp: string): (r: map<string, Json>)
    ensures r.Keys == data.Keys + {"visualizationImage", "sources", "activeAlerts", "timestamp"}
    ensures r["visualizationImage"] == (if image.Some? then JStr(image.value) else JNull)
    ensures r["sources"] == JArr([]) && r["activeAlerts"] == JArr([])
    ensures r["timestamp"] == JStr(timestamp)
    ensures forall key :: key in data && key !in {"visualizationImage", "sources", "activeAlerts", "timestamp"} ==>
      r[key] == data[key]
  {
    data["visualizationImage" := if image.Some? then JStr(image.value) else JNull]
        ["sources" := JArr([])]["activeAlerts" := JArr([])]["timestamp" := JStr(timestamp)]
  }

  // ------------------------------------------------------------ the call

  const MissingKey: Exc := Retry.Exc("ValueError", "GEMINI_API_KEY environment variable is not set")

  /** `analyze_location_risk`. `apiKey` is the environment's value (""
    * when unset), `respond` the text model, `parse` json.loads (its error
    * message on failure), `imageParts` the image model's answer and
    * `timestamp` the ISO time when the result is built. */
  function AnalyzeLocationRisk(
    apiKey: string,
    respond: nat -> Retry.CallOutcome,
    parse: string -> Result<Json, string>,
    imageParts: Result<seq<Option<InlineData>>, Exc>,
    timestamp: string): (r: Result<map<string, Json>, Exc>)
  {
    if apiKey == "" then Err(MissingKey)
    else
      var t := Retry.Run(Retry.FallbackModels, respond);
      match t.result
      case Raised(e) => Err(e)
      case Returned(reply) =>
        match parse(CleanedText(reply.text))
        case Err(msg) => Err(Retry.Exc("JSONDecodeError", msg))
        case Ok(data) =>
          match ToObject(data)
          case Err(e) => Err(e)
          case Ok(obj) => Ok(MergeResult(obj, VisualizationImage(imageParts), timestamp))
  }

  /** A missing key fails before any model call; otherwise a success
    * always carries the four bookkeeping keys, and a failure is the
    * retry loop's error, a JSON decode error, or the object check's
    * ValueError. */
  lemma AnalyzeOutcomes(
    apiKey: string,
    respond: nat -> Retry.CallOutcome,
    parse: string -> Result<Json, string>,
    imageParts: Result<seq<Option<InlineData>>, Exc>,
    timestamp: string)
    ensures var r := AnalyzeLocationRisk(apiKey, respond, parse, imageParts, timestamp);
      (apiKey == "" ==> r == Err(MissingKey)) &&
      (r.Ok? ==> {"visualizationImage", "sources", "activeAlerts", "timestamp"} <= r.value.Keys &&
                 r.value["timestamp"] == JStr(timestamp)) &&
      (apiKey != "" && Retry.Run(Retry.FallbackModels, respond).result.Raised? ==>
        r == Err(Retry.Run(Retry.FallbackModels, respond).result.exc)) &&
      (r.Err? && apiKey != "" && Retry.Run(Retry.FallbackModels, respond).result.Returned? ==>
        r.error.kind == "JSONDecodeError" || r.error.kind == "ValueError")
  {
  }
}
