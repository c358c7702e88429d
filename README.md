# Disaster-risk dashboard: a verified model of its core rules

This project models the parts of the disaster-prediction dashboard whose behaviour can be stated exactly, and proves properties of them:

- **The browser's live voice session (App.tsx).**
  - The Base64 transport codec.
  - The conversion of 16-bit PCM to samples on playback and of samples to 16-bit PCM on capture.
  - The playback scheduler's cursor.
  - The `voiceStatus` state machine.
  - The `register_user_identity` tool-call bridge.
  - The bounded system log.
- **The backend's call to the language model (backend/services/gemini_service.py).**
  - The retry loop over fallback models, with exponential backoff on rate limits.
  - The clean-up of the model's reply: fence removal, whitespace strip and list unwrapping.
  - The merge of the reply into the result.
- **The backend's request and response models (backend/models.py)**, as validity predicates over parsed JSON.
- **The backend endpoints (backend/main.py).** Exceptions map to HTTP status codes; there is also the translation lookup and the health check.
- **The frontend service (services/geminiService.ts).** It builds the request body and picks the error message.
- **The RiskMeter colour bands (components/RiskMeter.tsx).**

Modules, one file each:

| module | file | what it holds |
|---|---|---|
| `Wrappers` | wrappers.dfy | `Option` and `Result` |
| `Json` | json.dfy | parsed JSON values; JavaScript truthiness and `String()`; Python type names |
| `Base64` | base64.dfy | `btoa`: Base64 of section 4 of RFC 4648; `atob`: WHATWG forgiving-base64 decode; the round trip |
| `Transport` | transport.dfy | App.tsx `encode`/`decode` as loops over byte arrays |
| `Pcm` | pcm.dfy | `decodeAudioData` over an `array2`; the capture-side `Int16Array` store (ECMAScript ToInt16) |
| `Playback` | playback.dfy | the scheduling rule `start = max(cursor, now)` over a sequence of chunks |
| `Voice` | voice.dfy | the session state, each handler as a function on it, and their invariants |
| `Session` | session.dfy | the component as a class whose methods update its fields; each is proved to follow `Voice` |
| `Retry` | retry.dfy | `_call_with_retry` as a loop, proved equal to a recursive reference `Run` |
| `GeminiService` | gemini_service.dfy | `analyze_location_risk`: clean-up, normalisation, merge, language fallback |
| `Models` | models.dfy | the pydantic models as predicates; `AnalyzeRequest` validation |
| `Api` | api.dfy | `/api/analyze`, `/api/translations/{lang}`, `/api/health` |
| `Client` | client.dfy | `analyzeLocationRisk` in the browser; end-to-end error messages |
| `RiskMeter` | risk_meter.dfy | `getColor` |

How the outside world is represented:

- **The model API.** The calls to the language model are an oracle. `respond(k)` is the outcome of the k-th call.
- **Decoders.** `json.loads` is a parameter (`parse`) that returns a value or the decoder's message.
- **Time.** The audio clock's `currentTime` is a parameter `now`. The ISO timestamp is a parameter too.
- **localStorage** is a map field.
- **Sessions and audio contexts** are numbered handles. Closing one appends its number to a list.
- **Scheduled audio sources** are recorded as (start, duration) pairs.

## Model

| member | source | states |
|---|---|---|
| Base64.Encode | App.tsx:22 | output length is 4·⌈n/3⌉; every character is in the Base64 alphabet or is `=` |
| Base64.DecodeEncode | App.tsx:18-30 | decoding the encoding of any byte sequence gives back exactly those bytes |
| Transport.Btoa | App.tsx:21-22 | `btoa` succeeds iff every code unit is below 256, and then yields the Base64 encoding of those code units as bytes |
| Transport.Atob | App.tsx:25 | `atob` succeeds iff the text is valid forgiving-base64; it then yields the Latin-1 string of the decoded bytes |
| Transport.CodesLatin1 | App.tsx:21-28 | `charCodeAt` undoes `String.fromCharCode` on every byte |
| Transport.Encode | App.tsx:18-23 | the loop builds the Latin-1 string; the result is the Base64 encoding of the array's contents, so it never fails |
| Transport.Decode | App.tsx:24-30 | yields an array iff the text decodes; the array's contents are the decoded bytes |
| Transport.DecodeEncode | App.tsx:18-30 | `decode(encode(b)) == b` for every byte sequence |
| Pcm.Int16At | App.tsx:32 | a little-endian byte pair read as a signed value lies in [-32768, 32767] |
| Pcm.Int16AtPcmBytes | App.tsx:32 | reading back the bytes of stored 16-bit samples gives those samples (also lines 157-158) |
| Pcm.FrameCount | App.tsx:33 | frames = ⌊(len/2)/numChannels⌋ |
| Pcm.SampleRange | App.tsx:38 | every decoded sample lies in [-1, 1) |
| Pcm.DecodeAudioData | App.tsx:31-42 | odd byte length throws RangeError; a layout with no frames or a bad channel count throws NotSupportedError; otherwise the buffer is numChannels × frames and channel c, frame i holds int16[i·numChannels+c]/32768 |
| Pcm.MonoSamples | App.tsx:38 | on one channel, frame i of the decoded bytes is sample i / 32768 (also line 178) |
| Pcm.Duration | App.tsx:183 | a buffer's duration is non-negative, and positive when it has frames |
| Pcm.Trunc | App.tsx:157 | truncation toward zero is within 1 of the value, on the zero side |
| Pcm.ToInt16 | App.tsx:157 | the stored value is in the 16-bit range and congruent to the input modulo 2^16 |
| Pcm.CaptureInRange | App.tsx:156-157 | for -1 < x < 1 the stored value is trunc(x·32768), in [-32767, 32767], within 1 of x·32768 |
| Pcm.CaptureFullScale | App.tsx:157 | x = -1.0 stores -32768, and x = 1.0 wraps to -32768: nothing clamps |
| Pcm.PcmRoundTrip | App.tsx:157 | a sample x with -1 < x < 1, captured to 16 bits and decoded for playback, comes back within 1/32768 of x (also lines 32-38) |
| Pcm.CaptureFrame | App.tsx:155-157 | each stored entry is the capture conversion of the matching input sample |
| Pcm.CaptureBlob | App.tsx:155-158 | the blob's mime type is `audio/pcm;rate=16000`; its data decodes to 2n bytes whose i-th little-endian pair is the converted sample i |
| Playback.StartTime | App.tsx:177 | the start is max(cursor, now): at or after both, and equal to one of them |
| Playback.Place | App.tsx:177-183 | a chunk starts no earlier than the cursor and its arrival, and lasts its frames / 24000 |
| Playback.StartsAfterArrival | App.tsx:176-184 | every scheduled chunk starts no earlier than the moment its message was handled |
| Playback.NoOverlap | App.tsx:176-184 | consecutive chunks never overlap |
| Playback.CursorAdvances | App.tsx:183 | the cursor never decreases; it ends at the end of the last chunk |
| Playback.BackToBack | App.tsx:176-184 | a chunk that arrives before the previous one ends starts exactly at that end; a later one starts on arrival |
| Voice.Initial | App.tsx:54-62 | on mount the status is idle, there are no refs, and the name is the stored one or "" |
| Voice.AppendLog | App.tsx:77-79 | at most 16 entries: the last ≤15 old ones in order, then "> " + msg |
| Voice.AppendLogLast16 | App.tsx:77-79 | one `addLog` keeps the last 16 of old log + new entry |
| Voice.LogWindow | App.tsx:77-79 | after any number of `addLog` calls, the log is the last 16 of all entries ever added |
| Voice.AsciiUpper | App.tsx:123 | `toUpperCase` keeps the length and upper-cases each ASCII letter |
| Voice.IdentityAck | App.tsx:123 | the reply is "IDENTITY REGISTERED: USER " followed by the upper-cased name |
| Voice.DispatchResponses | App.tsx:165-171 | only `register_user_identity` calls are answered, each once, in order, with its own id and name and the acknowledgement of its name |
| Voice.DispatchFails | App.tsx:165-168 | the tool loop throws iff some registration call has no `name` argument |
| Voice.DispatchName | App.tsx:120-122 | after the loop, the name in state and in storage is the last registered name, unchanged; with no registration, neither changes (also lines 165-168) |
| Voice.InitialValid | App.tsx:54-62 | the initial state satisfies the session invariant |
| Voice.StartValid | App.tsx:127 | start, `onopen`, `onclose` and `onerror` preserve the invariant (handles ordered; sources disjoint and behind the cursor) (also lines 151, 187-188) |
| Voice.MicrophoneResolvedValid | App.tsx:128-133 | the rest of `startVoiceSession` preserves the invariant, on success and on refusal (also lines 196-199) |
| Voice.StopValid | App.tsx:202-206 | stop and the voice button preserve the invariant (also line 479) |
| Voice.PlayChunkValid | App.tsx:176-184 | playing a chunk keeps the sources disjoint and behind the cursor |
| Voice.HandleMessagePreservesValid | App.tsx:164-186 | `onmessage` preserves the invariant |
| Voice.PlayChunkSchedules | App.tsx:176-184 | a played chunk adds the scheduler's placement of it: one source at max(cursor, now) lasting (bytes / 2) / 24000 seconds, and the cursor moves to its end; a failed one adds nothing, but the cursor has already moved to max(cursor, now); text atob rejects throws BadBase64, an odd byte count RangeError, no bytes NotSupportedError, and only an even, nonzero count plays |
| Voice.MessageSchedules | App.tsx:164-186 | sources are never removed; a message adds at most one, at or after both `now` and the old cursor; the cursor never decreases |
| Voice.ScheduledAfterCursor | App.tsx:176-183 | every chunk a message schedules starts at or after the cursor as it stood before the message |
| Voice.FailedAudioMovesCursor | App.tsx:175-178 | any audio text that `atob` rejects throws after the cursor has moved up to `now`, scheduling nothing |
| Voice.OneCharacterRejected | App.tsx:178 | a one-character text such as "A" is rejected by `atob` |
| Voice.StopIdempotent | App.tsx:202-206 | stopping twice is the same as stopping once |
| Voice.StopEffects | App.tsx:202-206 | stop ends idle with empty transcripts and null refs; it closes exactly the session and contexts that were set; sources, cursor and tool replies are untouched |
| Voice.ToggleStatus | App.tsx:479 | the button starts a session only from idle; from any other status it stops |
| Voice.CloseThenRestartLeaks | App.tsx:133 | after `onclose`, a new start replaces the audio contexts without closing the old ones (also lines 187, 204) |
| Voice.StopWhileConnecting | App.tsx:127-133 | a stop during the microphone request does not cancel the start: the session still opens and becomes active (also lines 151, 202-206) |
| Voice.CursorCarriesOver | App.tsx:177 | stop keeps the cursor, so after a restart new audio is scheduled no earlier than the old cursor value, read on the new context's clock (also lines 202-206) |
| Voice.RestartWaitsForOldCursor | App.tsx:177 | when the new context's clock is still behind the old cursor, the next session's audio starts exactly at the old cursor, after cursor - now seconds of silence (also lines 132, 202-206) |
| Session.VoiceApp.constructor | App.tsx:54-62 | the fields hold the initial state read from storage, which satisfies the invariant |
| Session.VoiceApp.AddLog | App.tsx:77-79 | the log field becomes `AppendLog` of the old log |
| Session.VoiceApp.SetUserIdentity | App.tsx:120-124 | the name and the storage entry are set, unchanged, before the reply; an absent name stores "undefined" and throws |
| Session.VoiceApp.StartVoiceSession | App.tsx:126-127 | the status becomes connecting and a microphone request is pending |
| Session.VoiceApp.MicrophoneResolved | App.tsx:128-133 | a refusal sets error; success creates the contexts and the session (also lines 196-199) |
| Session.VoiceApp.OnOpen | App.tsx:150-151 | the status becomes active |
| Session.VoiceApp.OnClose | App.tsx:187 | the status becomes idle; nothing else changes |
| Session.VoiceApp.OnError | App.tsx:188 | the status becomes error; nothing else changes |
| Session.VoiceApp.StopVoiceSession | App.tsx:202-206 | the fields follow `Voice.Stop` |
| Session.VoiceApp.ToggleVoice | App.tsx:479 | the fields follow `Voice.Toggle` |
| Session.VoiceApp.OnAudioProcess | App.tsx:154-159 | exactly one blob is sent, carrying the converted samples |
| Session.VoiceApp.OnMessage | App.tsx:164-186 | the new fields and the outcome are those of `Voice.HandleMessage` |
| Session.VoiceApp.RunToolCalls | App.tsx:165-171 | the loop sends the responses, name and storage that `DispatchCalls` specifies |
| Session.VoiceApp.PlayAudio | App.tsx:175-184 | the new fields and the outcome are those of `Voice.PlayChunk` |
| Retry.CallWithRetry | backend/services/gemini_service.py:39-71 | the nested loops produce exactly the trace (calls, sleeps, result) of the reference `Run` |
| Retry.CallsBound | backend/services/gemini_service.py:46-47 | at most MAX_RETRIES = 3 calls per model still to try |
| Retry.CallsInList | backend/services/gemini_service.py:46-47 | every call goes to a model of the list, at its index, on attempt 0..2 |
| Retry.BackoffValues | backend/services/gemini_service.py:35-36 | a backoff is 5, 10 or 20 seconds (also line 62) |
| Retry.EarlierCallsRaised | backend/services/gemini_service.py:48-58 | every call before the last one raised: the first success returns at once |
| Retry.SleepsAfterRateLimits | backend/services/gemini_service.py:61-64 | one sleep of 5·2^attempt follows each rate-limited call, including after the last attempt, and no other call |
| Retry.ResultOfLastCall | backend/services/gemini_service.py:44 | the result is the last call's reply or error; with no call it is `raise None`'s TypeError (also lines 57-59, 71) |
| Retry.NextCall | backend/services/gemini_service.py:61-68 | after a rate limit with attempts left, the same model is retried; after any other error, the next model starts at attempt 0 |
| Retry.RunShape | backend/services/gemini_service.py:44-71 | at most 3·len(models) calls; the first call is attempt 0 of the first model; an empty list raises TypeError without a call |
| Retry.AlwaysRateLimited | backend/services/gemini_service.py:61-64 | one model that is always rate limited: 3 calls, sleeps 5, 10 and 20, then its error is raised (also line 71) |
| GeminiService.LangName | backend/services/gemini_service.py:26 | a known code gives its language name; an unknown code gives "English" (also line 92) |
| GeminiService.RemoveFences | backend/services/gemini_service.py:130 | removal never lengthens the text |
| GeminiService.RemoveFencesNoFence | backend/services/gemini_service.py:130 | no "```" remains after the single pass |
| GeminiService.RemoveFencesNoBackticks | backend/services/gemini_service.py:130 | text without backticks is unchanged |
| GeminiService.FencedBlock | backend/services/gemini_service.py:130 | "```json" + body + "```" becomes the body |
| GeminiService.StripShape | backend/services/gemini_service.py:130 | the result is the slice between the leading and trailing whitespace; it neither starts nor ends with whitespace |
| GeminiService.StripCutsWhitespace | backend/services/gemini_service.py:130 | everything strip removes, before and after the kept slice, is whitespace |
| GeminiService.StripIdempotent | backend/services/gemini_service.py:130 | stripping twice equals stripping once |
| GeminiService.ResponseText | backend/services/gemini_service.py:129 | None or "" becomes "{}"; other text is kept |
| GeminiService.CleanedText | backend/services/gemini_service.py:129-130 | the cleaned reply holds no "```" |
| GeminiService.StripNoFence | backend/services/gemini_service.py:130 | stripping keeps text fence-free |
| GeminiService.EmptyReplyText | backend/services/gemini_service.py:129-130 | an empty or missing reply is parsed as "{}" |
| GeminiService.ToObject | backend/services/gemini_service.py:133-137 | an object is kept; a list becomes its first element, or {} when empty; failures are ValueErrors |
| GeminiService.ToObjectRejects | backend/services/gemini_service.py:134-137 | rejected iff neither an object nor a list that is empty or starts with an object; the message names the Python type |
| GeminiService.VisualizationImage | backend/services/gemini_service.py:142-173 | a failed image call or a reply without inline data gives None |
| GeminiService.FirstImageDecodes | backend/services/gemini_service.py:165-170 | the data URL is for the first part with data, and its Base64 payload decodes to those bytes |
| GeminiService.MergeResult | backend/services/gemini_service.py:176-182 | every key of the reply is kept; the four bookkeeping keys always take the server's values |
| GeminiService.AnalyzeOutcomes | backend/services/gemini_service.py:86-188 | a missing key fails before any call; a success carries the bookkeeping keys; a failure is the retry error, a JSON decode error or the object check's ValueError |
| Models.ParseAnalyzeRequest | backend/models.py:73-79 | accepted iff the body is an object with a string location, reports absent or a list of valid UserReports, and lang absent or one of en/es/fr/hi; the accepted request carries the body's location and reports, with the defaults [] and "en"; a rejection has at least one error, and a body that is not an object exactly one, at the body |
| Models.ReportFieldErrors | backend/models.py:19-25 | one error per failing field of a report, each located at reports[i]; none exactly when every field is valid |
| Models.ReportErrorsNone | backend/models.py:19-25 | a report has no errors iff it is a valid UserReport |
| Models.ItemsErrorsNone | backend/models.py:78 | a list of reports has no errors iff every item is a valid UserReport |
| Models.MissingFieldsReported | backend/models.py:19-25 | an empty report object gets one error per UserReport field, in declaration order |
| Models.EmptyReportsErrors | backend/models.py:76-79 | two empty report objects give twelve errors, the first at reports[0].id |
| Models.RequestDefaults | backend/models.py:76-79 | a body with only a location gets reports [] and lang "en" |
| Models.UnknownLanguageRejected | backend/models.py:73 | a language outside the four is rejected (also line 79) |
| Models.PercentBounds | backend/models.py:8 | percent fields accept exactly 0..100, both bounds inclusive (also lines 39, 58) |
| Models.DisasterRiskChecks | backend/models.py:6-11 | a well-typed risk is valid iff 0 ≤ probability ≤ 100 and severity is Low, Medium, High or Critical |
| Models.ReportSeverityChecks | backend/models.py:19-25 | a report's severity must be Minor, Moderate or Severe |
| Models.HotspotChecks | backend/models.py:34-39 | a well-typed hotspot is valid iff 0 ≤ probabilityScore ≤ 100 |
| Models.UnboundedCounts | backend/models.py:28-31 | eventCount, intensityScore and vulnerabilityScore accept any integer (also lines 49-52) |
| Models.ScalesDiffer | backend/models.py:9 | risk severity and overall risk level are different scales (also line 57) |
| Models.PredictionDefaults | backend/models.py:55-68 | visualizationImage, activeAlerts and sources may be left out |
| Api.HttpError | backend/main.py:82 | an HTTPException's body is exactly `{"detail": detail}` (also lines 85, 98) |
| Api.ValidationFailure | backend/main.py:68 | a rejected body gets 422 with one detail entry per validation error, in order, whose `loc` is that error's location |
| Api.LocJson | backend/main.py:68 | a `loc` is "body" followed by the path, field names as strings and list indices as numbers |
| Api.AnalyzeOutcomes | backend/main.py:67-85 | 422 iff validation fails; otherwise the service result is returned unchanged, a ValueError gives 400 with its text, any other error gives 500 "Neural Core Sync Failure" |
| Api.InvalidBodyIgnoresService | backend/main.py:68 | a rejected body never reaches the service |
| Api.MissingKeyIs400 | backend/main.py:81-82 | with the API key unset, every valid request gets 400 with the key error's text |
| Api.BadJsonIs400 | backend/main.py:81-82 | a reply that is not JSON gives 400 with the decoder's message |
| Api.MergedValidity | backend/main.py:74-80 | the returned result is a valid PredictionResult iff the model's own fields are |
| Api.UnvalidatedOutput | backend/main.py:74-80 | a reply with overallRiskLevel "Unknown" is returned with 200 although it is invalid |
| Api.GetTranslation | backend/main.py:94-99 | 200 with the entry iff the language is in the table; otherwise 404 "Language '<lang>' not found" |
| Api.HealthCheck | backend/main.py:57-64 | always `{status: online, engine: Neural-X V4.2, language: python}` |
| Client.RequestBody | services/geminiService.ts:11-24 | the body is `{location, reports, lang}`; reports defaults to [] and lang to "en" |
| Client.RequestRoundTrip | services/geminiService.ts:11-24 | the server validates the client's body back into the same request |
| Client.DetailOf | services/geminiService.ts:31 | reading `detail` throws only on a JSON null body |
| Client.AnalyzeLocationRisk | services/geminiService.ts:16-40 | a failed fetch is rethrown unchanged |
| Client.ClassifyCases | services/geminiService.ts:28-36 | on 2xx, the body is returned unvalidated; otherwise the error is the truthy detail, "Unknown error" for a non-JSON body, or "Server error: <status>" |
| Client.ValueErrorMessage | services/geminiService.ts:29-31 | a backend ValueError's text reaches the caller as the message; an empty text gives "Server error: 400" |
| Client.OtherErrorMessage | services/geminiService.ts:31 | every other backend failure reaches the caller as "Neural Core Sync Failure" |
| Client.ValidationMessage | services/geminiService.ts:31 | a 422 reaches the caller as "[object Object]" once per validation error, comma-separated |
| Client.EmptyReportsMessage | services/geminiService.ts:31 | a request carrying two empty report objects fails with twelve "[object Object]" |
| Client.SuccessPassesThrough | services/geminiService.ts:34-36 | a backend result reaches the caller unchanged |
| RiskMeter.GetColor | components/RiskMeter.tsx:10-15 | emerald iff v < 25; yellow iff 25 ≤ v < 50; orange iff 50 ≤ v < 75; red iff v ≥ 75 |
| RiskMeter.GetColorBand | components/RiskMeter.tsx:10-15 | the colour is the one for the number of thresholds reached, so each value gets exactly one band |
| RiskMeter.BandMonotone | components/RiskMeter.tsx:10-15 | the band never decreases as the value grows |

## Left out

- Web Audio and the Gemini SDK are not modelled: getUserMedia, AudioContext construction, gain and script-processor nodes, `source.start`, `ai.live.connect`, `sendRealtimeInput`, `sendToolResponse`, `generate_content`. A scheduled source is a recorded (start, duration) pair; a sent blob or tool response is appended to a list.
- Interleaving of async handlers is not modelled. `onmessage` runs to completion between its await at App.tsx:178 and the next event, and `startVoiceSession` is split at its await on getUserMedia.
- Voice.CursorCarriesOver: all times lie on one time line. In the browser each session has its own output AudioContext, whose `currentTime` starts at 0, so the sources of two sessions are compared across two clocks in `Voice.Valid`; RestartWaitsForOldCursor states what the carried cursor means on the new clock.
- Callbacks of an earlier session are not attributed to that session: every `onopen`, `onclose`, `onerror` and `onmessage` acts on the current state.
- `asyncio.to_thread` and `asyncio.sleep` are not modelled; only the sleep durations are recorded.
- Logging (`console.*`, `logger.*`) is not modelled.
- Voice.HandleMessage: a transcription part is taken to carry its text. A part without text would append "undefined".
- Voice.AsciiUpper: only ASCII letters are upper-cased. JavaScript `toUpperCase` also maps other letters, some to more than one character.
- Pcm.DecodeAudioData: the channel limit is fixed at 32 (it is implementation-defined), and the sample rate of the buffer is always 24000.
- Pcm.DecodeAudioData: assumes the `Uint8Array` from `decode` starts its buffer at offset 0 and that the platform is little-endian, as it is in browsers.
- Pcm.CaptureSample: inputs are finite reals. NaN and infinities are not modelled, and neither is float rounding of x·32768 beyond exact real arithmetic.
- RiskMeter.GetColor: NaN is not modelled.
- Json: numbers are integers. Fractional numbers (e.g. `neuralAccuracy`), key order and duplicate keys are not modelled.
- Models: pydantic's lax coercions (numeric strings to int, floats with zero fraction) are not modelled; fields are checked by their JSON type.
- Models.ParseAnalyzeRequest: an error is only its location; pydantic's `type`, `msg` and `input` keys of each 422 entry are not modelled. Fields are checked in pydantic v2's JSON mode: a number is not accepted as a string.
- Api.ValueErrorKinds: holds ValueError and JSONDecodeError, the ones the service raises. Other ValueError subclasses an SDK might raise would also map to 400.
- The prompt texts, the system instruction and the image prompt are not modelled; the model's reply and the image parts are parameters.
- `reports` is passed to the service but not used by it, so the model's service does not take it.
- The translations module (`UI_STRINGS`) is not part of this model; `get_translation` takes the table as a parameter. `get_translations` returns the whole table.
- handleSearch, the loading-step ticker, the report modal and the rest of the UI markup are not modelled.
- FastAPI, CORS, dotenv and uvicorn setup are not modelled.
- localStorage is a map field; the `dg_reports` entry is not modelled.
