/**
 * The voice session of App.tsx as the component keeps it: React state and
 * refs become the fields of one object, and each handler a method that
 * updates them in place. Every method is proved to move the state exactly
 * as the matching function of module Voice says, so the lemmas proved
 * there hold of the running object.
 */
module Session {
  import opened Wrappers
  import opened Playback
  import opened Voice
  import Pcm
  import Transport

  class VoiceApp {
    var status: Status
    var userName: Option<string>
    var storage: map<string, string>
    var logs: seq<string>
    var inputTranscription: string
    var outputTranscription: string
    var session: Option<nat>
    var contexts: Option<nat>
    var nextHandle: nat
    var pendingStarts: nat
    var closedSessions: seq<nat>
    var closedContexts: seq<nat>
    var sources: seq<Scheduled>
    var nextStart: real
    var toolResponses: seq<ToolResponse>
    /** Media blobs handed to `sendRealtimeInput`, in order. */
    var sentMedia: seq<Pcm.Blob>

    function State(): VoiceState
      reads this
    {
      VoiceState(status, userName, storage, logs, inputTranscription, outputTranscription,
        session, contexts, nextHandle, pendingStarts, closedSessions, closedContexts,
        sources, nextStart, toolResponses)
    }

    /** Mounting the component: the name is read back from storage. */
    constructor (saved: map<string, string>)
      ensures State() == Initial(saved) && Valid(State())
      ensures sentMedia == []
    {
      status := Idle;
      userName := Some(if UserNameKey in saved && saved[UserNameKey] != "" then saved[UserNameKey] else "");
      storage := saved;
      logs := [];
      inputTranscription, outputTranscription := "", "";
      session, contexts := None, None;
      nextHandle, pendingStarts := 0, 0;
      closedSessions, closedContexts := [], [];
      sources, nextStart := [], 0.0;
      toolResponses := [];
      sentMedia := [];
    }

    /** `addLog` (App.tsx lines 77-79). */
    method AddLog(msg: string)
      modifies this`logs
      ensures State() == old(State()).(logs := AppendLog(old(logs), msg))
    {
      logs := logs[if |logs| > 15 then |logs| - 15 else 0..] + ["> " + msg];
    }

    /** `setUserIdentity` (App.tsx lines 120-124): the name and the stored
      * name are set before the upper-casing, which throws on `undefined`. */
    method SetUserIdentity(name: Option<string>) returns (r: Result<string, HandlerError>)
      modifies this`userName, this`storage
      ensures userName == name
      ensures storage == old(storage)[UserNameKey := if name.Some? then name.value else "undefined"]
      ensures r == if name.Some? then Ok(IdentityAck(name.value)) else Err(MissingName)
    {
      userName := name;
      storage := storage[UserNameKey := if name.Some? then name.value else "undefined"];
      if name.None? {
        return Err(MissingName);
      }
      r := Ok(AckPrefix + AsciiUpper(name.value));
    }

    /** `startVoiceSession` up to the await on getUserMedia. */
    method StartVoiceSession()
      modifies this`status, this`pendingStarts
      ensures State() == Start(old(State()))
    {
      status := Connecting;
      pendingStarts := pendingStarts + 1;
    }

    /** The continuation of `startVoiceSession` after getUserMedia. */
    method MicrophoneResolved(acquired: bool)
      requires pendingStarts > 0
      modifies this`pendingStarts, this`status, this`contexts, this`session, this`nextHandle
      ensures State() == Voice.MicrophoneResolved(old(State()), acquired)
      ensures sentMedia == old(sentMedia)
    {
      pendingStarts := pendingStarts - 1;
      if !acquired {
        status := Error;
        return;
      }
      contexts := Some(nextHandle);
      session := Some(nextHandle);
      nextHandle := nextHandle + 1;
    }

    method OnOpen()
      modifies this`status
      ensures State() == Open(old(State()))
    {
      status := Active;
    }

    method OnClose()
      modifies this`status
      ensures State() == Close(old(State()))
    {
      status := Idle;
    }

    method OnError()
      modifies this`status
      ensures State() == Fail(old(State()))
    {
      status := Error;
    }

    /** `stopVoiceSession` (App.tsx lines 202-206). */
    method StopVoiceSession()
      modifies this`closedSessions, this`session, this`closedContexts, this`contexts
      modifies this`status, this`inputTranscription, this`outputTranscription
      ensures State() == Stop(old(State()))
    {
      ghost var before := State();
      CloseSession();
      CloseContexts();
      status, inputTranscription, outputTranscription := Idle, "", "";
      StopIs(before, State());
    }

    /** Line 203: close the session if there is one, and null the ref. */
    method CloseSession()
      modifies this`closedSessions, this`session
      ensures session.None? && closedSessions == Closing(old(closedSessions), old(session))
    {
      closedSessions, session := Closing(closedSessions, session), None;
    }

    /** Line 204: close both audio contexts if set, and null the ref. */
    method CloseContexts()
      modifies this`closedContexts, this`contexts
      ensures contexts.None? && closedContexts == Closing(old(closedContexts), old(contexts))
    {
      closedContexts, contexts := Closing(closedContexts, contexts), None;
    }

    /** The voice button (App.tsx line 479). */
    method ToggleVoice()
      modifies this
      ensures State() == Toggle(old(State()))
      ensures sentMedia == old(sentMedia)
    {
      if status == Idle {
        StartVoiceSession();
      } else {
        StopVoiceSession();
      }
    }

    /** `onaudioprocess` (App.tsx lines 155-159): one blob per callback. */
    method OnAudioProcess(inputData: array<real>)
      modifies this`sentMedia
      ensures |sentMedia| == |old(sentMedia)| + 1 && sentMedia[..|old(sentMedia)|] == old(sentMedia)
      ensures var blob := sentMedia[|old(sentMedia)|];
        blob.mimeType == Pcm.CaptureMimeType &&
        Base64.Decode(blob.data).Some? &&
        |Base64.Decode(blob.data).value| == 2 * inputData.Length &&
        forall i :: 0 <= i < inputData.Length ==>
          Pcm.Int16At(Base64.Decode(blob.data).value, i) == Pcm.CaptureSample(inputData[i])
    {
      var blob := Pcm.CaptureBlob(inputData);
      sentMedia := sentMedia + [blob];
    }

    /** `onmessage` (App.tsx lines 164-186). */
    method OnMessage(m: Message, now: real) returns (o: Outcome)
      modifies this
      ensures (State(), o) == HandleMessage(old(State()), m, now)
      ensures sentMedia == old(sentMedia)
    {
      var failed := RunToolCalls(m.functionCalls);
      if failed {
        return Threw(MissingName);
      }
      if m.inputText.Some? {
        inputTranscription := inputTranscription + m.inputText.value;
      }
      if m.outputText.Some? {
        outputTranscription := outputTranscription + m.outputText.value;
      }
      if m.audio.None? || m.audio.value == "" {
        return Handled;
      }
      o := PlayAudio(m.audio.value, now);
    }

    /** The tool loop (App.tsx lines 165-171): each registration call sets
      * the identity and is answered; the loop stops at the first throw. */
    method RunToolCalls(calls: seq<FunctionCall>) returns (failed: bool)
      modifies this`userName, this`storage, this`toolResponses
      ensures var d := DispatchCalls(old(userName), old(storage), calls);
        userName == d.userName && storage == d.storage &&
        toolResponses == old(toolResponses) + d.responses && failed == d.failed
    {
      ghost var sent: seq<ToolResponse> := [];
      var i := 0;
      while i < |calls|
        invariant 0 <= i <= |calls|
        invariant toolResponses == old(toolResponses) + sent
        invariant var d := DispatchCalls(userName, storage, calls[i..]);
          DispatchCalls(old(userName), old(storage), calls) == d.(responses := sent + d.responses)
      {
        var fc := calls[i];
        assert calls[i..][1..] == calls[i + 1..];
        DispatchUnfold(userName, storage, calls[i..]);
        if fc.name == RegisterTool {
          var res := SetUserIdentity(fc.nameArg);
          if res.Err? {
            return true;
          }
          toolResponses := toolResponses + [ToolResponse(fc.id, fc.name, res.value)];
          sent := sent + [ToolResponse(fc.id, fc.name, res.value)];
        }
        i := i + 1;
      }
      assert calls[i..] == [];
      failed := false;
    }

    /** Lines 176-184: the cursor moves before the chunk is decoded, so a
      * chunk that fails to decode still advances it. */
    method PlayAudio(data: string, now: real) returns (o: Outcome)
      modifies this`nextStart, this`sources
      ensures (State(), o) == PlayChunk(old(State()), data, now)
    {
      nextStart := StartTime(nextStart, now);
      var bytes := Transport.Decode(data);
      if bytes.None? {
        return Threw(BadBase64);
      }
      var buffer := Pcm.DecodeAudioData(bytes.value, 1);
      if buffer.Err? {
        return Threw(AudioFailed(buffer.error));
      }
      var src := Scheduled(nextStart, Pcm.Duration(buffer.value.Length1));
      nextStart := nextStart + src.duration;
      sources := sources + [src];
      o := Handled;
    }
  }
}
