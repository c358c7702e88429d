/**
 * The voice session of App.tsx as values: the state the component keeps in
 * React state and refs, and one function per event that changes it. The
 * class Session.VoiceApp holds the same state in fields and is proved to
 * follow these functions; the lemmas here state what the source promises
 * about the sequence of events.
 *
 * Handles stand for the live session promise and the pair of audio
 * contexts; both created by one start get the same number.
 */
module Voice {
  import opened Wrappers
  import opened Base64
  import Pcm
  import opened Playback

  /** `voiceStatus` (App.tsx line 56). */
  datatype Status = Idle | Connecting | Active | Error

  /** One function call of a tool-call message. `nameArg` is
    * `fc.args.name`, None when the model left it out. */
  datatype FunctionCall = FunctionCall(id: string, name: string, nameArg: Option<string>)

  /** The reply sent back for one handled call. */
  datatype ToolResponse = ToolResponse(id: string, name: string, result: string)

  /** The parts of a server message the handler reads: the tool calls, the
    * two transcription texts and the inline audio of the first part. */
  datatype Message = Message(
    functionCalls: seq<FunctionCall>,
    inputText: Option<string>,
    outputText: Option<string>,
    audio: Option<string>)

  /** Why an `onmessage` run stopped early. */
  datatype HandlerError =
    | MissingName                 // TypeError: `undefined.toUpperCase()`
    | BadBase64                   // atob threw InvalidCharacterError
    | AudioFailed(e: Pcm.AudioError)

  datatype Outcome = Handled | Threw(error: HandlerError)

  datatype VoiceState = VoiceState(
    status: Status,
    userName: Option<string>,           // None is `undefined`
    storage: map<string, string>,       // localStorage
    logs: seq<string>,
    inputTranscription: string,
    outputTranscription: string,
    session: Option<nat>,               // sessionRef
    contexts: Option<nat>,              // audioContextsRef
    nextHandle: nat,
    pendingStarts: nat,                 // starts waiting on getUserMedia
    closedSessions: seq<nat>,
    closedContexts: seq<nat>,
    sources: seq<Scheduled>,            // sourcesRef, in insertion order
    nextStart: real,                    // nextStartTimeRef
    toolResponses: seq<ToolResponse>)

  const UserNameKey := "dg_user_name"
  const RegisterTool := "register_user_identity"
  const AckPrefix := "IDENTITY REGISTERED: USER "

  /** The state on mount: the stored name or "", everything else empty. */
  function Initial(storage: map<string, string>): (s: VoiceState)
    ensures s.status == Idle && s.session.None? && s.contexts.None?
    ensures s.userName == Some(if UserNameKey in storage then storage[UserNameKey] else "")
  {
    var name := if UserNameKey in storage && storage[UserNameKey] != "" then storage[UserNameKey] else "";
    VoiceState(Idle, Some(name), storage, [], "", "", None, None, 0, 0, [], [], [], 0.0, [])
  }

  // ---------------------------------------------------------------- logs

  /** `addLog`: the last 15 entries at most, then "> " + msg. */
  function AppendLog(logs: seq<string>, msg: string): (r: seq<string>)
    ensures |r| <= 16 && |r| == if |logs| < 15 then |logs| + 1 else 16
    ensures r[|r| - 1] == "> " + msg
    ensures r[..|r| - 1] == logs[|logs| - (|r| - 1)..]
  {
    logs[if |logs| > 15 then |logs| - 15 else 0..] + ["> " + msg]
  }

  /** The last (at most) 16 entries of a sequence. */
  function Last16(xs: seq<string>): seq<string> {
    xs[if |xs| > 16 then |xs| - 16 else 0..]
  }

  function Prefixed(msgs: seq<string>): (r: seq<string>)
    ensures |r| == |msgs|
    ensures forall k :: 0 <= k < |msgs| ==> r[k] == "> " + msgs[k]
  {
    if msgs == [] then [] else ["> " + msgs[0]] + Prefixed(msgs[1..])
  }

  function AppendLogs(logs: seq<string>, msgs: seq<string>): seq<string>
    decreases |msgs|
  {
    if msgs == [] then logs else AppendLogs(AppendLog(logs, msgs[0]), msgs[1..])
  }

  lemma AppendLogLast16(logs: seq<string>, msg: string)
    requires |logs| <= 16
    ensures AppendLog(logs, msg) == Last16(logs + ["> " + msg])
  {
  }

  lemma Last16Append(xs: seq<string>, x: string)
    ensures Last16(Last16(xs) + [x]) == Last16(xs + [x])
  {
  }

  /** However many messages are logged, the log holds exactly the last 16
    * of them (fewer if fewer were logged), in order. */
  lemma {:induction false} LogWindow(logs: seq<string>, msgs: seq<string>)
    requires |logs| <= 16
    requires msgs != []
    ensures AppendLogs(logs, msgs) == Last16(logs + Prefixed(msgs))
    decreases |msgs|
  {
    AppendLogLast16(logs, msgs[0]);
    if |msgs| > 1 {
      LogWindow(AppendLog(logs, msgs[0]), msgs[1..]);
      LogWindowStep(logs, msgs);
    }
  }

  lemma LogWindowStep(logs: seq<string>, msgs: seq<string>)
    requires |msgs| > 1
    ensures Last16(Last16(logs + ["> " + msgs[0]]) + Prefixed(msgs[1..])) == Last16(logs + Prefixed(msgs))
  {
    var x, p := "> " + msgs[0], Prefixed(msgs[1..]);
    PrefixedCons(msgs);
    Last16Appends(logs + [x], p);
    AppendAssoc(logs, [x], p);
  }

  lemma PrefixedCons(msgs: seq<string>)
    requires msgs != []
    ensures Prefixed(msgs) == ["> " + msgs[0]] + Prefixed(msgs[1..])
  {
  }

  lemma AppendAssoc(a: seq<string>, b: seq<string>, c: seq<string>)
    ensures a + b + c == a + (b + c)
  {
  }

  /** Taking the last 16 first and then the last 16 after appending more
    * is the same as appending first. */
  lemma {:induction false} Last16Appends(xs: seq<string>, ys: seq<string>)
    requires ys != []
    ensures Last16(Last16(xs) + ys) == Last16(xs + ys)
  {
    var a := Last16(xs);
    assert a == xs[|xs| - |a|..];
    if |xs| > 16 {
      var d := |xs| - 16;
      assert xs + ys == xs[..d] + (a + ys);
      var n := |a + ys|;
      assert (xs + ys)[d + (if n > 16 then n - 16 else 0)..] == (a + ys)[if n > 16 then n - 16 else 0..];
    } else {
      assert a == xs;
    }
  }

  // ------------------------------------------------------------ identity

  function UpperChar(c: char): (u: char)
    ensures !('a' <= u <= 'z')
  {
    if 'a' <= c <= 'z' then (c as int - 32) as char else c
  }

  /** `toUpperCase` on ASCII letters. */
  function AsciiUpper(s: string): (r: string)
    ensures |r| == |s|
    ensures forall k :: 0 <= k < |s| ==> r[k] == UpperChar(s[k])
  {
    if s == [] then [] else [UpperChar(s[0])] + AsciiUpper(s[1..])
  }

  /** The string `setUserIdentity(name)` returns. */
  function IdentityAck(name: string): (r: string)
    ensures |r| == |AckPrefix| + |name|
    ensures r[..|AckPrefix|] == AckPrefix
    ensures forall k :: |AckPrefix| <= k < |r| ==> r[k] == UpperChar(name[k - |AckPrefix|])
  {
    AckPrefix + AsciiUpper(name)
  }

  /** What the tool loop leaves behind: the name and storage it wrote, the
    * responses it sent, and whether it threw. */
  datatype Dispatch = Dispatch(userName: Option<string>, storage: map<string, string>, responses: seq<ToolResponse>, failed: bool)

  /** The tool loop of `onmessage` (App.tsx lines 165-171) over the calls
    * still to run. */
  function DispatchCalls(userName: Option<string>, storage: map<string, string>, calls: seq<FunctionCall>): Dispatch
    decreases |calls|
  {
    if calls == [] then Dispatch(userName, storage, [], false)
    else
      var fc := calls[0];
      if fc.name != RegisterTool then DispatchCalls(userName, storage, calls[1..])
      else if fc.nameArg.None? then
        // setUserName(undefined) and localStorage.setItem stores "undefined",
        // then `name.toUpperCase()` throws
        Dispatch(None, storage[UserNameKey := "undefined"], [], true)
      else
        var n := fc.nameArg.value;
        var rest := DispatchCalls(Some(n), storage[UserNameKey := n], calls[1..]);
        rest.(responses := [ToolResponse(fc.id, fc.name, IdentityAck(n))] + rest.responses)
  }

  /** One step of the tool loop. */
  lemma DispatchUnfold(u: Option<string>, st: map<string, string>, calls: seq<FunctionCall>)
    requires calls != []
    ensures var fc, d := calls[0], DispatchCalls(u, st, calls);
      (fc.name != RegisterTool ==> d == DispatchCalls(u, st, calls[1..])) &&
      (fc.name == RegisterTool && fc.nameArg.None? ==> d == Dispatch(None, st[UserNameKey := "undefined"], [], true)) &&
      (fc.name == RegisterTool && fc.nameArg.Some? ==>
        var n := fc.nameArg.value;
        var rest := DispatchCalls(Some(n), st[UserNameKey := n], calls[1..]);
        d == rest.(responses := [ToolResponse(fc.id, fc.name, IdentityAck(n))] + rest.responses))
  {
  }

  function IsRegistration(fc: FunctionCall): bool {
    fc.name == RegisterTool && fc.nameArg.Some?
  }

  /** The calls the loop answers: registrations before the first call that
    * lacks a name. */
  function Answered(calls: seq<FunctionCall>): (r: seq<FunctionCall>)
    ensures forall k :: 0 <= k < |r| ==> IsRegistration(r[k])
    decreases |calls|
  {
    if calls == [] then []
    else if calls[0].name != RegisterTool then Answered(calls[1..])
    else if calls[0].nameArg.None? then []
    else [calls[0]] + Answered(calls[1..])
  }

  /** Every answered call gets exactly one response, in order, carrying its
    * own id and name and the acknowledgement of its name; calls to other
    * functions are ignored. */
  lemma {:induction false} DispatchResponses(u: Option<string>, st: map<string, string>, calls: seq<FunctionCall>)
    ensures var d, a := DispatchCalls(u, st, calls), Answered(calls);
      |d.responses| == |a| &&
      forall k :: 0 <= k < |a| ==>
        d.responses[k] == ToolResponse(a[k].id, a[k].name, IdentityAck(a[k].nameArg.value))
    decreases |calls|
  {
    if calls != [] {
      var fc := calls[0];
      if fc.name != RegisterTool {
        DispatchResponses(u, st, calls[1..]);
      } else if fc.nameArg.Some? {
        DispatchResponses(Some(fc.nameArg.value), st[UserNameKey := fc.nameArg.value], calls[1..]);
      }
    }
  }

  /** The loop throws exactly when some registration call has no name. */
  lemma {:induction false} DispatchFails(u: Option<string>, st: map<string, string>, calls: seq<FunctionCall>)
    ensures DispatchCalls(u, st, calls).failed <==>
      exists k :: 0 <= k < |calls| && calls[k].name == RegisterTool && calls[k].nameArg.None?
    decreases |calls|
  {
    if calls != [] {
      var fc := calls[0];
      if fc.name != RegisterTool {
        DispatchFails(u, st, calls[1..]);
        ShiftExists(calls);
      } else if fc.nameArg.Some? {
        DispatchFails(Some(fc.nameArg.value), st[UserNameKey := fc.nameArg.value], calls[1..]);
        ShiftExists(calls);
      }
    }
  }

  lemma ShiftExists(calls: seq<FunctionCall>)
    requires calls != [] && !(calls[0].name == RegisterTool && calls[0].nameArg.None?)
    ensures (exists k :: 0 <= k < |calls| && calls[k].name == RegisterTool && calls[k].nameArg.None?) <==>
      (exists k :: 0 <= k < |calls[1..]| && calls[1..][k].name == RegisterTool && calls[1..][k].nameArg.None?)
  {
    if exists k :: 0 <= k < |calls| && calls[k].name == RegisterTool && calls[k].nameArg.None? {
      var k :| 0 <= k < |calls| && calls[k].name == RegisterTool && calls[k].nameArg.None?;
      assert calls[1..][k - 1] == calls[k];
    }
  }

  /** After a loop that did not throw, the name and the stored name are
    * those of the last answered call, unchanged by the upper-casing of the
    * reply; with no registration both stay as they were. */
  lemma {:induction false} DispatchName(u: Option<string>, st: map<string, string>, calls: seq<FunctionCall>)
    ensures var d, a := DispatchCalls(u, st, calls), Answered(calls);
      !d.failed ==>
        (a == [] ==> d.userName == u && d.storage == st) &&
        (a != [] ==> d.userName == a[|a| - 1].nameArg &&
                     d.storage == st[UserNameKey := a[|a| - 1].nameArg.value])
    decreases |calls|
  {
    if calls != [] {
      var fc := calls[0];
      if fc.name != RegisterTool {
        DispatchName(u, st, calls[1..]);
      } else if fc.nameArg.Some? {
        var n := fc.nameArg.value;
        DispatchName(Some(n), st[UserNameKey := n], calls[1..]);
        var a := Answered(calls[1..]);
        if a != [] {
          assert st[UserNameKey := n][UserNameKey := a[|a| - 1].nameArg.value] == st[UserNameKey := a[|a| - 1].nameArg.value];
        }
      }
    }
  }

  // -------------------------------------------------------- status machine

  /** `startVoiceSession` up to its await on getUserMedia (App.tsx line 127). */
  function Start(s: VoiceState): (r: VoiceState)
  {
    s.(status := Connecting, pendingStarts := s.pendingStarts + 1)
  }

  /** The rest of `startVoiceSession` once getUserMedia settles: on refusal
    * the catch sets "error" (line 198); otherwise new contexts are stored
    * (line 133) and the connecting session is stored (line 196), whatever
    * the status is by then. */
  function MicrophoneResolved(s: VoiceState, acquired: bool): (r: VoiceState)
    requires s.pendingStarts > 0
  {
    var s1 := s.(pendingStarts := s.pendingStarts - 1);
    if !acquired then s1.(status := Error)
    else s1.(contexts := Some(s.nextHandle), session := Some(s.nextHandle), nextHandle := s.nextHandle + 1)
  }

  /** `onopen` (line 151). */
  function Open(s: VoiceState): (r: VoiceState) {
    s.(status := Active)
  }

  /** `onclose` (line 187): only the status changes. */
  function Close(s: VoiceState): (r: VoiceState) {
    s.(status := Idle)
  }

  /** `onerror` (line 188). */
  function Fail(s: VoiceState): (r: VoiceState) {
    s.(status := Error)
  }

  /** `stopVoiceSession` (lines 202-206). */
  function Stop(s: VoiceState): (r: VoiceState)
  {
    s.(closedSessions := Closing(s.closedSessions, s.session), session := None,
       closedContexts := Closing(s.closedContexts, s.contexts), contexts := None,
       status := Idle, inputTranscription := "", outputTranscription := "")
  }

  /** A state with the fields `Stop` sets, and the others as before, is
    * the stopped state. */
  lemma StopIs(s: VoiceState, r: VoiceState)
    requires r.status == Idle && r.inputTranscription == "" && r.outputTranscription == ""
    requires r.session.None? && r.contexts.None?
    requires r.closedSessions == Closing(s.closedSessions, s.session)
    requires r.closedContexts == Closing(s.closedContexts, s.contexts)
    requires r.userName == s.userName && r.storage == s.storage && r.logs == s.logs
    requires r.nextHandle == s.nextHandle && r.pendingStarts == s.pendingStarts
    requires r.sources == s.sources && r.nextStart == s.nextStart && r.toolResponses == s.toolResponses
    ensures r == Stop(s)
  {
  }

  /** The handles closed so far, after closing `h` when it is set. */
  function Closing(closed: seq<nat>, h: Option<nat>): seq<nat> {
    if h.Some? then closed + [h.value] else closed
  }

  /** The voice button (line 479). */
  function Toggle(s: VoiceState): (r: VoiceState)
  {
    if s.status == Idle then Start(s) else Stop(s)
  }

  /** `onmessage` (lines 164-186), run to completion or to its first throw. */
  function HandleMessage(s: VoiceState, m: Message, now: real): (r: (VoiceState, Outcome))
  {
    var d := DispatchCalls(s.userName, s.storage, m.functionCalls);
    var s1 := s.(userName := d.userName, storage := d.storage, toolResponses := s.toolResponses + d.responses);
    if d.failed then (s1, Threw(MissingName))
    else
      var s2 := s1.(
        inputTranscription := if m.inputText.Some? then s1.inputTranscription + m.inputText.value else s1.inputTranscription,
        outputTranscription := if m.outputText.Some? then s1.outputTranscription + m.outputText.value else s1.outputTranscription);
      if m.audio.None? || m.audio.value == "" then (s2, Handled)
      else PlayChunk(s2, m.audio.value, now)
  }

  /** Lines 176-184: move the cursor up to the current time, decode the
    * chunk, and schedule it at the cursor. */
  function PlayChunk(s: VoiceState, data: string, now: real): (r: (VoiceState, Outcome))
  {
    var s1 := s.(nextStart := StartTime(s.nextStart, now));
    match Base64.Decode(data)
    case None => (s1, Threw(BadBase64))
    case Some(bytes) =>
      if |bytes| % 2 == 1 then (s1, Threw(AudioFailed(Pcm.RangeError)))
      else if !Pcm.ValidLayout(|bytes|, 1) then (s1, Threw(AudioFailed(Pcm.NotSupportedError)))
      else
        var src := Place(s.nextStart, Chunk(now, Pcm.FrameCount(|bytes|, 1)));
        (s1.(sources := s1.sources + [src], nextStart := src.End()), Handled)
  }

  // ------------------------------------------------------------ invariant

  /** Handles are numbered in creation order. */
  ghost predicate HandlesValid(s: VoiceState) {
    (s.session.Some? ==> s.session.value < s.nextHandle) &&
    (s.contexts.Some? ==> s.contexts.value < s.nextHandle) &&
    (forall k :: 0 <= k < |s.closedContexts| ==> s.closedContexts[k] < s.nextHandle)
  }

  /** Sources never overlap and the cursor is past the end of each. */
  ghost predicate SourcesValid(sources: seq<Scheduled>, cursor: real) {
    (forall k :: 0 <= k < |sources| ==> sources[k].duration >= 0.0) &&
    (forall k :: 0 <= k < |sources| - 1 ==> sources[k].End() <= sources[k + 1].start) &&
    (|sources| > 0 ==> sources[|sources| - 1].End() <= cursor)
  }

  ghost predicate Valid(s: VoiceState) {
    HandlesValid(s) && SourcesValid(s.sources, s.nextStart)
  }

  lemma InitialValid(storage: map<string, string>)
    ensures Valid(Initial(storage))
  {
  }

  lemma CursorForward(sources: seq<Scheduled>, cursor: real, later: real)
    requires SourcesValid(sources, cursor) && cursor <= later
    ensures SourcesValid(sources, later)
  {
  }

  /** A source placed at or after the cursor keeps the sources apart. */
  lemma ScheduleValid(sources: seq<Scheduled>, cursor: real, src: Scheduled)
    requires SourcesValid(sources, cursor)
    requires src.start >= cursor && src.duration >= 0.0
    ensures SourcesValid(sources + [src], src.End())
  {
    var r := sources + [src];
    assert forall k :: 0 <= k < |sources| ==> r[k] == sources[k];
  }

  /** Every event keeps the invariant. */
  lemma StartValid(s: VoiceState)
    requires Valid(s)
    ensures Valid(Start(s)) && Valid(Open(s)) && Valid(Close(s)) && Valid(Fail(s))
  {
  }

  lemma MicrophoneResolvedValid(s: VoiceState, acquired: bool)
    requires Valid(s) && s.pendingStarts > 0
    ensures Valid(MicrophoneResolved(s, acquired))
  {
  }

  lemma StopValid(s: VoiceState)
    requires Valid(s)
    ensures Valid(Stop(s)) && Valid(Toggle(s))
  {
    var s1 := if s.session.Some? then s.(closedSessions := s.closedSessions + [s.session.value], session := None) else s;
    assert HandlesValid(s1);
    if s1.contexts.Some? {
      var c := s1.closedContexts + [s1.contexts.value];
      assert forall k :: 0 <= k < |c| ==> c[k] < s.nextHandle;
    }
  }

  /** Playing a chunk keeps the sources apart and behind the cursor. */
  lemma PlayChunkValid(s: VoiceState, data: string, now: real)
    requires SourcesValid(s.sources, s.nextStart)
    ensures var r := PlayChunk(s, data, now).0; SourcesValid(r.sources, r.nextStart)
  {
    var cursor := StartTime(s.nextStart, now);
    CursorForward(s.sources, s.nextStart, cursor);
    match Base64.Decode(data)
    case None =>
    case Some(bytes) =>
      if Pcm.ValidLayout(|bytes|, 1) {
        ScheduleValid(s.sources, cursor, Place(s.nextStart, Chunk(now, Pcm.FrameCount(|bytes|, 1))));
      }
  }

  lemma HandleMessagePreservesValid(s: VoiceState, m: Message, now: real)
    requires Valid(s)
    ensures Valid(HandleMessage(s, m, now).0)
  {
    var d := DispatchCalls(s.userName, s.storage, m.functionCalls);
    var s1 := s.(userName := d.userName, storage := d.storage, toolResponses := s.toolResponses + d.responses);
    var s2 := s1.(
      inputTranscription := if m.inputText.Some? then s1.inputTranscription + m.inputText.value else s1.inputTranscription,
      outputTranscription := if m.outputText.Some? then s1.outputTranscription + m.outputText.value else s1.outputTranscription);
    if !d.failed && m.audio.Some? && m.audio.value != "" {
      PlayChunkValid(s2, m.audio.value, now);
      PlayChunkSchedules(s2, m.audio.value, now);
    }
  }

  /** Playing a chunk either schedules one source, the scheduler's
    * placement of a chunk of |bytes| / 2 mono frames, so that it plays for
    * (|bytes| / 2) / 24000 seconds from max(cursor, now), and moves the
    * cursor to its end; or throws with the cursor at max(cursor, now) and
    * nothing scheduled. It throws BadBase64 on text atob rejects,
    * RangeError on an odd byte count and NotSupportedError on no bytes. */
  lemma PlayChunkSchedules(s: VoiceState, data: string, now: real)
    ensures var (r, o) := PlayChunk(s, data, now);
      var t := StartTime(s.nextStart, now);
      r == s.(sources := r.sources, nextStart := r.nextStart) &&
      (o == Handled ==>
        var b := Base64.Decode(data).value;
        |r.sources| == |s.sources| + 1 && r.sources == s.sources + [r.sources[|s.sources|]] &&
        r.sources[|s.sources|] == Place(s.nextStart, Chunk(now, |b| / 2)) &&
        r.sources[|s.sources|].start == t &&
        r.sources[|s.sources|].duration == (|b| / 2) as real / 24000.0 &&
        r.nextStart == r.sources[|s.sources|].End()) &&
      (o.Threw? ==> r.sources == s.sources && r.nextStart == t) &&
      (Base64.Decode(data).None? ==> o == Threw(BadBase64)) &&
      (Base64.Decode(data).Some? ==>
        var n := |Base64.Decode(data).value|;
        (n % 2 == 1 <==> o == Threw(AudioFailed(Pcm.RangeError))) &&
        (n == 0 <==> o == Threw(AudioFailed(Pcm.NotSupportedError))) &&
        (n % 2 == 0 && n > 0 <==> o == Handled))
  {
  }

  /** Sources are never removed: a message keeps the old ones as a prefix
    * and adds at most one, placed no earlier than the handler ran and no
    * earlier than the previous cursor, with the cursor moved to its end;
    * the cursor never moves backwards. */
  lemma MessageSchedules(s: VoiceState, m: Message, now: real)
    ensures var (r, o) := HandleMessage(s, m, now);
      r.nextStart >= s.nextStart &&
      (r.sources == s.sources ||
        (o == Handled && |r.sources| == |s.sources| + 1 && r.sources[..|s.sources|] == s.sources &&
         r.sources[|s.sources|].start == StartTime(s.nextStart, now) &&
         r.sources[|s.sources|].start >= now && r.sources[|s.sources|].start >= s.nextStart &&
         r.nextStart == r.sources[|s.sources|].End()))
  {
    var d := DispatchCalls(s.userName, s.storage, m.functionCalls);
    if !d.failed && m.audio.Some? && m.audio.value != "" {
      var s1 := s.(userName := d.userName, storage := d.storage, toolResponses := s.toolResponses + d.responses);
      var s2 := s1.(
        inputTranscription := if m.inputText.Some? then s1.inputTranscription + m.inputText.value else s1.inputTranscription,
        outputTranscription := if m.outputText.Some? then s1.outputTranscription + m.outputText.value else s1.outputTranscription);
      PlayChunkSchedules(s2, m.audio.value, now);
      var r := PlayChunk(s2, m.audio.value, now).0;
      assert r.sources == s.sources || r.sources[..|s.sources|] == s.sources;
    }
  }

  /** Audio that fails to decode still moves the cursor up to the current
    * time, before the throw, and schedules nothing. */
  lemma FailedAudioMovesCursor(s: VoiceState, data: string, now: real)
    requires data != "" && Base64.Decode(data).None?
    ensures HandleMessage(s, Message([], None, None, Some(data)), now) ==
      (s.(nextStart := StartTime(s.nextStart, now)), Threw(BadBase64))
  {
    assert s.toolResponses + [] == s.toolResponses;
  }

  /** Such audio exists: "A" is one character long, which forgiving-base64
    * rejects. */
  lemma OneCharacterRejected()
    ensures Base64.Decode("A").None?
  {
    assert RemoveWhitespace("A") == "A" by {
      assert !IsAsciiWhitespace('A');
      assert "A"[1..] == [];
    }
  }

  /** Stopping twice is stopping once. */
  lemma StopIdempotent(s: VoiceState)
    ensures Stop(Stop(s)) == Stop(s)
  {
  }

  /** Stop always ends idle with empty transcripts and no refs, closing
    * exactly the session and contexts that were set. */
  lemma StopEffects(s: VoiceState)
    ensures var r := Stop(s);
      r.status == Idle && r.inputTranscription == "" && r.outputTranscription == "" &&
      r.session.None? && r.contexts.None? &&
      r.closedSessions == s.closedSessions + (if s.session.Some? then [s.session.value] else []) &&
      r.closedContexts == s.closedContexts + (if s.contexts.Some? then [s.contexts.value] else []) &&
      r.sources == s.sources && r.nextStart == s.nextStart && r.toolResponses == s.toolResponses
  {
  }

  /** The button starts a session only from "idle"; from "connecting",
    * "active" and "error" it stops. */
  lemma ToggleStatus(s: VoiceState)
    ensures s.status == Idle ==> Toggle(s).status == Connecting
    ensures s.status != Idle ==> Toggle(s).status == Idle && Toggle(s).session.None? && Toggle(s).contexts.None?
  {
  }

  /** `onclose` leaves the refs set, so the next start overwrites the old
    * audio contexts without ever closing them. */
  lemma CloseThenRestartLeaks(s: VoiceState)
    requires Valid(s) && s.contexts.Some?
    ensures var r := MicrophoneResolved(Start(Close(s)), true);
      r.closedContexts == s.closedContexts && r.contexts.Some? && r.contexts != s.contexts
  {
  }

  /** Stopping while the microphone request is pending does not cancel the
    * start: the session is still created and `onopen` makes it active. */
  lemma StopWhileConnecting(s: VoiceState)
    ensures var r := Open(MicrophoneResolved(Stop(Start(s)), true));
      r.status == Active && r.session.Some? && r.contexts.Some?
  {
  }

  /** Whatever a message schedules starts no earlier than the cursor. */
  lemma ScheduledAfterCursor(s: VoiceState, m: Message, now: real)
    ensures var r := HandleMessage(s, m, now).0;
      forall k :: |s.sources| <= k < |r.sources| ==> r.sources[k].start >= s.nextStart
  {
    var r := HandleMessage(s, m, now).0;
    MessageSchedules(s, m, now);
    if r.sources != s.sources {
      forall k | |s.sources| <= k < |r.sources|
        ensures r.sources[k].start >= s.nextStart
      {
        assert k == |s.sources|;
      }
    }
  }

  /** The cursor survives a stop: a chunk of the next session is not
    * scheduled before the old cursor value. `now` is read from the new
    * session's own output context, whose clock starts again near 0, so
    * the old cursor is a delay on the new clock (RestartWaitsForOldCursor). */
  lemma CursorCarriesOver(s: VoiceState, m: Message, now: real)
    ensures var r := HandleMessage(MicrophoneResolved(Start(Stop(s)), true), m, now).0;
      forall k :: |s.sources| <= k < |r.sources| ==> r.sources[k].start >= s.nextStart
  {
    var s1 := MicrophoneResolved(Start(Stop(s)), true);
    assert s1.sources == s.sources && s1.nextStart == s.nextStart;
    ScheduledAfterCursor(s1, m, now);
  }

  /** When the new context's clock is still behind the old cursor, as it is
    * right after a restart that follows played audio, the next session's
    * audio starts exactly at the old cursor: it waits cursor - now seconds
    * in silence. */
  lemma RestartWaitsForOldCursor(s: VoiceState, m: Message, now: real)
    requires now < s.nextStart
    ensures var r := HandleMessage(MicrophoneResolved(Start(Stop(s)), true), m, now).0;
      forall k :: |s.sources| <= k < |r.sources| ==> r.sources[k].start == s.nextStart && r.sources[k].start > now
  {
    var s1 := MicrophoneResolved(Start(Stop(s)), true);
    assert s1.sources == s.sources && s1.nextStart == s.nextStart;
    var r := HandleMessage(s1, m, now).0;
    MessageSchedules(s1, m, now);
    if r.sources != s.sources {
      forall k | |s.sources| <= k < |r.sources|
        ensures r.sources[k].start == s.nextStart && r.sources[k].start > now
      {
        assert k == |s.sources|;
      }
    }
  }
}
