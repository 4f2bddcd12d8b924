/** The `/ws/transcribe` endpoint: the messages the server sends a client over
    one transcription session. The endpoint's collaborators (the database, the
    recognizer session, the microphone) are replaced by their outcomes, given as
    inputs; the model computes the trace of messages the server sends. Every
    send is taken to succeed; fields computed from the clock (`started_at`,
    `elapsed_ms`, `duration_s`, `end_ms`) are left out of the messages. */
module WsProtocol {
  import opened Wrappers
  import opened TextUtil

  /** A message sent to the client, by its `type` field. */
  datatype Message =
    | ErrorMessage(message: string, code: string)
    | SessionStarted(sessionId: int)
    | Status(state: string, device: Option<string>)
    | TranscriptDelta(delta: string)
    | SegmentComplete(segmentId: int, text: string, startMs: int)
    | SessionEnded(sessionId: int)

  /** `_send_ws_error`: an `error` message whose code defaults to
      `internal_error`. */
  function SendWsError(message: string, code: string := "internal_error"): Message {
    ErrorMessage(message, code)
  }

  // ---------------------------------------------------------------------
  // Dispatch of client messages

  /** A client message: its `type`, `mode` and `language` keys, absent as `None`. */
  datatype ClientMessage = ClientMessage(kind: Option<string>, mode: Option<string>, language: Option<string>)

  datatype StartRequest = StartRequest(mode: string, languageOverride: Option<string>)

  /** The receive loop of `websocket_transcribe`: only a `start` message opens a
      session; its mode defaults to `transcription`. Any other message is
      ignored. */
  function StartRequestOf(msg: ClientMessage): (r: Option<StartRequest>)
    ensures r.Some? <==> msg.kind == Some("start")
    ensures r.Some? ==> r.value.languageOverride == msg.language
    ensures r.Some? && msg.mode.None? ==> r.value.mode == "transcription"
    ensures r.Some? && msg.mode.Some? ==> r.value.mode == msg.mode.value
  {
    if msg.kind == Some("start") then
      Some(StartRequest(msg.mode.GetOr("transcription"), msg.language))
    else
      None
  }

  /** `language_override or config.language`: Python's `or` also falls back on
      an empty override. */
  function SessionLanguage(languageOverride: Option<string>, configLanguage: string): (language: string)
    ensures languageOverride.Some? && languageOverride.value != "" ==> language == languageOverride.value
    ensures (languageOverride.None? || languageOverride.value == "") ==> language == configLanguage
  {
    if languageOverride.Some? && languageOverride.value != "" then languageOverride.value else configLanguage
  }

  /** `listen_for_stop`: read client messages until a `stop` arrives, then set
      the stop event and stop the capture. A disconnect (`disconnects`, meant
      once `incoming` is exhausted) does the same. `consumed` is how many of
      the messages were read. */
  method ListenForStop(incoming: seq<ClientMessage>, disconnects: bool)
    returns (stopEvent: bool, captureStopped: bool, consumed: nat)
    ensures consumed <= |incoming|
    ensures forall j :: 0 <= j < consumed - 1 ==> incoming[j].kind != Some("stop")
    ensures (exists j :: 0 <= j < |incoming| && incoming[j].kind == Some("stop"))
            ==> 0 < consumed && incoming[consumed - 1].kind == Some("stop")
    ensures consumed < |incoming| ==> stopEvent
    ensures stopEvent <==> (exists j :: 0 <= j < |incoming| && incoming[j].kind == Some("stop")) || disconnects
    ensures captureStopped == stopEvent
  {
    var i := 0;
    while i < |incoming|
      invariant 0 <= i <= |incoming|
      invariant forall j :: 0 <= j < i ==> incoming[j].kind != Some("stop")
    {
      var msg := incoming[i];
      i := i + 1;
      if msg.kind == Some("stop") {
        return true, true, i;
      }
    }
    if disconnects {
      return true, true, i;
    }
    return false, false, i;
  }

  // ---------------------------------------------------------------------
  // Outcomes of the collaborators

  /** An exception that ends the recording part of a session. */
  datatype SessionError =
    | WhisperModelError(message: string, code: string)
    | AudioDeviceError(message: string, code: string)
    | Disconnected
    | Unexpected

  /** The recording part: `connect` either raises or yields a session on
      `device`; then the recognizer streams `deltas` until the gather ends,
      normally, by the five-minute timeout (both `gatherError == None`) or by
      an exception. */
  datatype Recording = Recording(
    connectError: Option<SessionError>,
    device: string,
    deltas: seq<string>,
    gatherError: Option<SessionError>)

  /** A database call: it returns, raises `DatabaseError` with a code, or raises
      anything else. */
  datatype DbCall = Ok | DatabaseError(code: string) | OtherError

  /** The finalize step's calls: `end_session`, `add_segment` (returning
      `segmentId`) and the search indexing, whose failure is caught. */
  datatype Finalize = Finalize(endSession: DbCall, addSegment: DbCall, segmentId: int, indexFails: bool)

  /** Everything a session depends on. `create` is the new session's id or the
      code of the `DatabaseError` `create_session` raised. */
  datatype Environment = Environment(
    dbAvailable: bool,
    create: Result<int, string>,
    recording: Recording,
    finalize: Finalize)

  // ---------------------------------------------------------------------
  // The trace the session sends

  /** The messages the handlers at the end of the recording part send. */
  function ErrorReport(e: SessionError): seq<Message> {
    match e
    case WhisperModelError(message, code) => [SendWsError(message, code)]
    case AudioDeviceError(message, code) => [SendWsError(message, code)]
    case Disconnected => []
    case Unexpected => [SendWsError("An unexpected error occurred")]
  }

  /** One `transcript_delta` per delta, in order. */
  function DeltaMessages(deltas: seq<string>): seq<Message> {
    if deltas == [] then [] else [TranscriptDelta(deltas[0])] + DeltaMessages(deltas[1..])
  }

  /** What the recording part sends after `loading_model`. */
  function RecordingTrace(r: Recording): seq<Message> {
    match r.connectError
    case Some(e) => ErrorReport(e)
    case None =>
      [Status("recording", Some(r.device))] + DeltaMessages(r.deltas)
      + (if r.gatherError.Some? then ErrorReport(r.gatherError.value) else [])
  }

  /** The text the session recorded: nothing when `connect` raised. */
  function FullText(r: Recording): string {
    if r.connectError.Some? then "" else Concat(r.deltas)
  }

  /** What the finalize step sends for session `id` and recorded text `fullText`. */
  function FinalizeTrace(id: int, fullText: string, f: Finalize): seq<Message> {
    match f.endSession
    case DatabaseError(code) => [SendWsError("Failed to save session", code)]
    case OtherError => []
    case Ok =>
      if Strip(fullText) == "" then [SessionEnded(id)]
      else
        match f.addSegment
        case DatabaseError(code) => [SendWsError("Failed to save session", code)]
        case OtherError => []
        case Ok => [SegmentComplete(f.segmentId, Strip(fullText), 0), SessionEnded(id)]
  }

  /** The whole trace of `_handle_transcription_session`. */
  function SessionTrace(env: Environment): seq<Message> {
    if !env.dbAvailable then
      [SendWsError("Database not available", "database_error")]
    else
      match env.create
      case Failure(code) => [SendWsError("Failed to create session", code)]
      case Success(id) =>
        [SessionStarted(id), Status("loading_model", None)] + RecordingTrace(env.recording)
        + [Status("finalizing", None)] + FinalizeTrace(id, FullText(env.recording), env.finalize)
  }

  // ---------------------------------------------------------------------
  // The handler, step by step

  /** `receive_and_forward`: forward each delta as it arrives, appending it to
      the full text and counting it. */
  method ReceiveAndForward(deltas: seq<string>)
    returns (sent: seq<Message>, fullText: string, deltaCount: nat)
    ensures sent == DeltaMessages(deltas)
    ensures fullText == Concat(deltas)
    ensures deltaCount == |deltas|
  {
    sent, fullText, deltaCount := [], "", 0;
    for i := 0 to |deltas|
      invariant sent == DeltaMessages(deltas[..i])
      invariant fullText == Concat(deltas[..i])
      invariant deltaCount == i
    {
      ForwardStep(deltas, i);
      fullText := fullText + deltas[i];
      deltaCount := deltaCount + 1;
      sent := sent + [TranscriptDelta(deltas[i])];
    }
    assert deltas[..|deltas|] == deltas;
  }

  /** `_handle_transcription_session`: open the database session, run the
      recording part, then finalize. */
  method HandleTranscriptionSession(env: Environment) returns (trace: seq<Message>)
    ensures trace == SessionTrace(env)
  {
    if !env.dbAvailable {
      return [SendWsError("Database not available", "database_error")];
    }
    if env.create.Failure? {
      return [SendWsError("Failed to create session", env.create.error)];
    }
    var sessionId := env.create.value;
    trace := [SessionStarted(sessionId)];
    var fullText := "";
    trace := trace + [Status("loading_model", None)];
    var recorded, text := Record(env.recording);
    trace := trace + recorded;
    fullText := text;
    trace := trace + [Status("finalizing", None)];
    var finalized := FinalizeSession(sessionId, fullText, env.finalize);
    trace := trace + finalized;
  }

  /** The `try` block around `connect` and the gather, with its handlers. */
  method Record(r: Recording) returns (sent: seq<Message>, fullText: string)
    ensures sent == RecordingTrace(r)
    ensures fullText == FullText(r)
  {
    if r.connectError.Some? {
      return ErrorReport(r.connectError.value), "";
    }
    sent := [Status("recording", Some(r.device))];
    var forwarded, count;
    forwarded, fullText, count := ReceiveAndForward(r.deltas);
    sent := sent + forwarded;
    if r.gatherError.Some? {
      sent := sent + ErrorReport(r.gatherError.value);
    }
  }

  /** The finalize `try` block: end the session, save and announce the segment
      when the stripped text is not empty, index it (a failure is only logged),
      announce the end. */
  method FinalizeSession(id: int, fullText: string, f: Finalize) returns (sent: seq<Message>)
    ensures sent == FinalizeTrace(id, fullText, f)
  {
    if f.endSession.DatabaseError? {
      return [SendWsError("Failed to save session", f.endSession.code)];
    }
    if f.endSession.OtherError? {
      return [];
    }
    sent := [];
    var text := Strip(fullText);
    if text != "" {
      if f.addSegment.DatabaseError? {
        return [SendWsError("Failed to save session", f.addSegment.code)];
      }
      if f.addSegment.OtherError? {
        return [];
      }
      sent := sent + [SegmentComplete(f.segmentId, text, 0)];
    }
    sent := sent + [SessionEnded(id)];
  }

  // ---------------------------------------------------------------------
  // Properties of the trace

  lemma ForwardStep(deltas: seq<string>, i: nat)
    requires i < |deltas|
    ensures DeltaMessages(deltas[..i + 1]) == DeltaMessages(deltas[..i]) + [TranscriptDelta(deltas[i])]
    ensures Concat(deltas[..i + 1]) == Concat(deltas[..i]) + deltas[i]
  {
    assert deltas[..i + 1] == deltas[..i] + [deltas[i]];
    DeltaMessagesAppend(deltas[..i], [deltas[i]]);
    ConcatAppend(deltas[..i], [deltas[i]]);
  }

  lemma {:induction false} DeltaMessagesAppend(a: seq<string>, b: seq<string>)
    ensures DeltaMessages(a + b) == DeltaMessages(a) + DeltaMessages(b)
    decreases |a|
  {
    if a == [] {
      assert a + b == b;
    } else {
      assert (a + b)[1..] == a[1..] + b;
      DeltaMessagesAppend(a[1..], b);
    }
  }

  /** Every delta reaches the client, once and in order, as a `transcript_delta`. */
  lemma {:induction false} DeltasForwardedInOrder(deltas: seq<string>)
    ensures |DeltaMessages(deltas)| == |deltas|
    ensures forall i :: 0 <= i < |deltas| ==> DeltaMessages(deltas)[i] == TranscriptDelta(deltas[i])
    decreases |deltas|
  {
    if deltas != [] {
      DeltasForwardedInOrder(deltas[1..]);
      var rest := DeltaMessages(deltas[1..]);
      assert DeltaMessages(deltas) == [TranscriptDelta(deltas[0])] + rest;
      forall i | 0 <= i < |deltas| ensures DeltaMessages(deltas)[i] == TranscriptDelta(deltas[i]) {
        if i > 0 {
          assert DeltaMessages(deltas)[i] == rest[i - 1];
          assert deltas[1..][i - 1] == deltas[i];
        }
      }
    }
  }

  /** No database or a failed `create_session`: a single error and nothing else,
      in particular no `session_started`. */
  lemma NoSessionWithoutDatabase(env: Environment)
    requires !env.dbAvailable || env.create.Failure?
    ensures |SessionTrace(env)| == 1 && SessionTrace(env)[0].ErrorMessage?
    ensures !env.dbAvailable ==> SessionTrace(env)[0].code == "database_error"
    ensures env.dbAvailable ==> SessionTrace(env)[0].code == env.create.error
  {
  }

  /** Once `session_started` is sent, `finalizing` follows, whatever the
      recording part raised. */
  lemma {:induction false} StartedSessionsFinalize(env: Environment)
    requires env.dbAvailable && env.create.Success?
    ensures SessionTrace(env)[0] == SessionStarted(env.create.value)
    ensures Status("finalizing", None) in SessionTrace(env)
  {
    var id := env.create.value;
    var pre := [SessionStarted(id), Status("loading_model", None)] + RecordingTrace(env.recording);
    var t := pre + [Status("finalizing", None)] + FinalizeTrace(id, FullText(env.recording), env.finalize);
    assert SessionTrace(env) == t;
    assert t[|pre|] == Status("finalizing", None);
  }

  /** A session with no exceptions: started, loading, recording, the deltas,
      finalizing, then the segment when the text is not blank, and the end. */
  lemma HappyPath(env: Environment)
    requires env.dbAvailable && env.create.Success?
    requires env.recording.connectError.None? && env.recording.gatherError.None?
    requires env.finalize.endSession.Ok? && env.finalize.addSegment.Ok?
    ensures var id := env.create.value;
            var text := Strip(Concat(env.recording.deltas));
            SessionTrace(env)
            == [SessionStarted(id), Status("loading_model", None), Status("recording", Some(env.recording.device))]
               + DeltaMessages(env.recording.deltas) + [Status("finalizing", None)]
               + (if text == "" then [] else [SegmentComplete(env.finalize.segmentId, text, 0)])
               + [SessionEnded(id)]
  {
    var r := env.recording;
    var head := [SessionStarted(env.create.value), Status("loading_model", None)];
    assert RecordingTrace(r) == [Status("recording", Some(r.device))] + DeltaMessages(r.deltas) + [];
  }

  /** The messages of a trace that announce a saved segment. */
  function Segments(t: seq<Message>): seq<Message> {
    if t == [] then [] else (if t[0].SegmentComplete? then [t[0]] else []) + Segments(t[1..])
  }

  lemma {:induction false} SegmentsAppend(a: seq<Message>, b: seq<Message>)
    ensures Segments(a + b) == Segments(a) + Segments(b)
    decreases |a|
  {
    if a == [] {
      assert a + b == b;
    } else {
      assert (a + b)[0] == a[0];
      assert (a + b)[1..] == a[1..] + b;
      SegmentsAppend(a[1..], b);
    }
  }

  lemma {:induction false} NoSegmentsInDeltas(deltas: seq<string>)
    ensures Segments(DeltaMessages(deltas)) == []
    decreases |deltas|
  {
    if deltas != [] {
      NoSegmentsInDeltas(deltas[1..]);
      SegmentsAppend([TranscriptDelta(deltas[0])], DeltaMessages(deltas[1..]));
    }
  }

  lemma RecordingSendsNoSegment(r: Recording)
    ensures Segments(RecordingTrace(r)) == []
  {
    if r.connectError.None? {
      NoSegmentsInDeltas(r.deltas);
      var tail := if r.gatherError.Some? then ErrorReport(r.gatherError.value) else [];
      assert Segments(tail) == [];
      SegmentsAppend([Status("recording", Some(r.device))], DeltaMessages(r.deltas));
      SegmentsAppend([Status("recording", Some(r.device))] + DeltaMessages(r.deltas), tail);
    }
  }

  /** At most one `segment_complete` is sent, and exactly one when the session
      was created, `end_session` and `add_segment` returned and the recorded text
      is not blank; it carries the stripped text from offset 0. */
  lemma SegmentCompleteIff(env: Environment)
    ensures var segs := Segments(SessionTrace(env));
            var text := Strip(FullText(env.recording));
            |segs| <= 1
            && (|segs| == 1
                <==> env.dbAvailable && env.create.Success? && env.finalize.endSession.Ok?
                     && text != "" && env.finalize.addSegment.Ok?)
            && (|segs| == 1 ==> segs[0] == SegmentComplete(env.finalize.segmentId, text, 0))
  {
    if env.dbAvailable && env.create.Success? {
      var id := env.create.value;
      var a := [SessionStarted(id), Status("loading_model", None)];
      var fin := FinalizeTrace(id, FullText(env.recording), env.finalize);
      RecordingSendsNoSegment(env.recording);
      SegmentsAppend(a, RecordingTrace(env.recording));
      SegmentsAppend(a + RecordingTrace(env.recording), [Status("finalizing", None)]);
      SegmentsAppend(a + RecordingTrace(env.recording) + [Status("finalizing", None)], fin);
      FinalizeSegments(id, FullText(env.recording), env.finalize);
    }
  }

  lemma FinalizeSegments(id: int, fullText: string, f: Finalize)
    ensures var segs := Segments(FinalizeTrace(id, fullText, f));
            (segs == [SegmentComplete(f.segmentId, Strip(fullText), 0)]
             <==> f.endSession.Ok? && Strip(fullText) != "" && f.addSegment.Ok?)
            && (segs == [] || segs == [SegmentComplete(f.segmentId, Strip(fullText), 0)])
  {
    var text := Strip(fullText);
    var t := FinalizeTrace(id, fullText, f);
    if f.endSession.Ok? && text != "" && f.addSegment.Ok? {
      var seg := SegmentComplete(f.segmentId, text, 0);
      assert t == [seg] + [SessionEnded(id)];
      SegmentsAppend([seg], [SessionEnded(id)]);
      SegmentsOfOne(seg);
      SegmentsOfOne(SessionEnded(id));
    } else {
      assert t == [] || (|t| == 1 && !t[0].SegmentComplete?);
      if t != [] {
        assert t == [t[0]];
        SegmentsOfOne(t[0]);
      }
    }
  }

  lemma SegmentsOfOne(m: Message)
    ensures Segments([m]) == if m.SegmentComplete? then [m] else []
  {
    assert [m][1..] == [];
  }

  /** The finalize step sends `session_ended` exactly when neither `end_session`
      nor a needed `add_segment` raised. */
  lemma SessionEndedIff(id: int, fullText: string, f: Finalize)
    ensures var t := FinalizeTrace(id, fullText, f);
            (t != [] && t[|t| - 1] == SessionEnded(id))
            <==> f.endSession.Ok? && (Strip(fullText) == "" || f.addSegment.Ok?)
  {
    var t := FinalizeTrace(id, fullText, f);
    if f.endSession.Ok? && Strip(fullText) != "" && f.addSegment.Ok? {
      assert t == [SegmentComplete(f.segmentId, Strip(fullText), 0), SessionEnded(id)];
    } else if f.endSession.Ok? && Strip(fullText) == "" {
      assert t == [SessionEnded(id)];
    } else {
      assert t == [] || t[0].ErrorMessage?;
    }
  }

  /** A failed search indexing changes nothing the client sees. */
  lemma IndexingFailureIsSilent(id: int, fullText: string, f: Finalize)
    ensures FinalizeTrace(id, fullText, f) == FinalizeTrace(id, fullText, f.(indexFails := !f.indexFails))
  {
  }

  /** An error sent without a code carries `internal_error`; the message is
      kept, and an unexpected exception is reported that way. */
  lemma ErrorCodeDefault(message: string)
    ensures SendWsError(message) == ErrorMessage(message, "internal_error")
    ensures ErrorReport(Unexpected) == [ErrorMessage("An unexpected error occurred", "internal_error")]
    ensures ErrorReport(Disconnected) == []
  {
  }
}
