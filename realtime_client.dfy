/** The client of the OpenAI-compatible realtime transcription protocol
    (`RealtimeSession` in `backend/src/transcription/client.py`). The socket is
    modelled by two sequences: the messages the client has sent, and the
    messages the server will still deliver, in order. A receive on an exhausted
    server sequence is the receive timeout. Opening the socket is an input
    (`connects`); JSON encoding is left out, messages are datatypes. */
module RealtimeClient {
  import opened Wrappers
  import opened TextUtil

  /** The `type` of a server message: the four the client acts on, any other
      type, or no `type` key at all. */
  datatype MessageType = SessionCreated | TranscriptionDelta | TranscriptionDone | ErrorType | Other | Missing

  /** A message from the server: its `type`, and its `id`, `delta`, `text` and
      `error` keys, absent as `None`. */
  datatype ServerMessage = ServerMessage(
    kind: MessageType,
    id: Option<string>,
    delta: Option<string>,
    text: Option<string>,
    error: Option<string>)

  /** A message the client sends. The handshake's commit has no `final` key. */
  datatype ClientMessage = SessionUpdate(model: string) | Commit(final: bool) | Append(audio: string)

  datatype ClientError =
    | ConnectionFailed
    | Timeout
    | ProtocolError(got: MessageType)
    | NotConnected
    | ServerError(message: string)

  /** `response.get("error", "Unknown error")`, raised as a runtime error. */
  function ServerFailure(m: ServerMessage): ClientError {
    ServerError(m.error.GetOr("Unknown error"))
  }

  // ---------------------------------------------------------------------
  // The folds over the server's messages

  /** How `finish` ends, and how many server messages it read. */
  datatype FinishRun = FinishRun(result: Result<string, ClientError>, consumed: nat)

  /** `finish`'s receive loop with `acc` delta text accumulated so far: deltas
      are appended (a missing `delta` adds nothing); `transcription.done`
      returns its `text`, or the accumulation when it has none; `error` raises;
      any other type is ignored; running dry is the timeout. */
  function FinishFold(msgs: seq<ServerMessage>, acc: string): (r: FinishRun)
    ensures r.consumed <= |msgs|
  {
    if msgs == [] then FinishRun(Failure(Timeout), 0)
    else
      var m := msgs[0];
      if m.kind == TranscriptionDone then FinishRun(Success(m.text.GetOr(acc)), 1)
      else if m.kind == ErrorType then FinishRun(Failure(ServerFailure(m)), 1)
      else Offset(FinishFold(msgs[1..], Accumulate(acc, m)), 1)
  }

  /** `full_text += response.get("delta", "")` for a delta, nothing otherwise. */
  function Accumulate(acc: string, m: ServerMessage): string {
    if m.kind == TranscriptionDelta then acc + m.delta.GetOr("") else acc
  }

  function Offset(r: FinishRun, n: nat): FinishRun {
    FinishRun(r.result, r.consumed + n)
  }

  /** What `stream_transcription` yields, how it ends (`None` on
      `transcription.done`) and how many server messages it read. */
  datatype StreamRun = StreamRun(yielded: seq<string>, error: Option<ClientError>, consumed: nat)

  /** `stream_transcription`'s loop: non-empty deltas are yielded, empty and
      missing ones skipped; `transcription.done` returns; `error` raises; any
      other type is ignored; running dry is the timeout. */
  function StreamFold(msgs: seq<ServerMessage>): (r: StreamRun)
    ensures r.consumed <= |msgs|
  {
    if msgs == [] then StreamRun([], Some(Timeout), 0)
    else
      var m := msgs[0];
      if m.kind == TranscriptionDone then StreamRun([], None, 1)
      else if m.kind == ErrorType then StreamRun([], Some(ServerFailure(m)), 1)
      else Prepend(Yield(m), StreamFold(msgs[1..]), 1)
  }

  /** What one message makes the stream yield: its delta when it is a
      non-empty delta. */
  function Yield(m: ServerMessage): seq<string> {
    if m.kind == TranscriptionDelta && m.delta.GetOr("") != "" then [m.delta.GetOr("")] else []
  }

  function Prepend(prefix: seq<string>, r: StreamRun, n: nat): StreamRun {
    StreamRun(prefix + r.yielded, r.error, r.consumed + n)
  }

  /** The handshake of `__aenter__` on the server's messages `msgs`: the socket
      must open and the first message must be `session.created`; the session id
      is that message's `id`, `"unknown"` when missing. */
  function Handshake(connects: bool, msgs: seq<ServerMessage>): (r: Result<string, ClientError>)
    ensures r.Success? <==> connects && msgs != [] && msgs[0].kind == SessionCreated
    ensures r.Success? ==> r.value == msgs[0].id.GetOr("unknown")
    ensures !connects ==> r == Failure(ConnectionFailed)
    ensures connects && msgs == [] ==> r == Failure(Timeout)
    ensures connects && msgs != [] && msgs[0].kind != SessionCreated
            ==> r == Failure(ProtocolError(msgs[0].kind))
  {
    if !connects then Failure(ConnectionFailed)
    else if msgs == [] then Failure(Timeout)
    else if msgs[0].kind != SessionCreated then Failure(ProtocolError(msgs[0].kind))
    else Success(msgs[0].id.GetOr("unknown"))
  }

  // ---------------------------------------------------------------------
  // The session object

  class RealtimeSession {
    const model: string
    const language: Option<string>
    /** `_ws is not None`. */
    var connected: bool
    var sessionId: Option<string>
    /** Everything sent on the socket, in order. */
    var sent: seq<ClientMessage>
    /** What the server will still deliver, in order. */
    var incoming: seq<ServerMessage>
    /** How many times the socket was closed. */
    var closes: nat

    /** `__init__`: no socket yet. `server` is what the server will send once
        the socket is open. */
    constructor (model: string, language: Option<string>, server: seq<ServerMessage>)
      ensures this.model == model && this.language == language
      ensures !connected && sessionId == None && sent == [] && incoming == server && closes == 0
    {
      this.model := model;
      this.language := language;
      connected := false;
      sessionId := None;
      sent := [];
      incoming := server;
      closes := 0;
    }

    /** `__aenter__`: open the socket, read the first message, insist that it is
        `session.created`, then send `session.update` with the model and the
        initial commit. A failure after the socket opened leaves it open. */
    method Enter(connects: bool) returns (err: Option<ClientError>)
      requires !connected
      modifies this`connected, this`sessionId, this`sent, this`incoming
      ensures var h := Handshake(connects, old(incoming));
              (h.Success? ==> err == None && sessionId == Some(h.value)
                              && sent == old(sent) + [SessionUpdate(model), Commit(false)])
              && (h.Failure? ==> err == Some(h.error) && sessionId == old(sessionId) && sent == old(sent))
      ensures connected == connects
      ensures incoming == if connects && old(incoming) != [] then old(incoming)[1..] else old(incoming)
    {
      if !connects {
        return Some(ConnectionFailed);
      }
      connected := true;
      if incoming == [] {
        return Some(Timeout);
      }
      var response := incoming[0];
      incoming := incoming[1..];
      if response.kind != SessionCreated {
        return Some(ProtocolError(response.kind));
      }
      sessionId := Some(response.id.GetOr("unknown"));
      sent := sent + [SessionUpdate(model)];
      sent := sent + [Commit(false)];
      err := None;
    }

    /** `__aexit__`: close the socket if there is one (a failing close is only
        logged) and forget it; with no socket it does nothing. */
    method Exit()
      modifies this`connected, this`closes
      ensures !connected
      ensures closes == old(closes) + (if old(connected) then 1 else 0)
    {
      if connected {
        closes := closes + 1;
        connected := false;
      }
    }

    /** `send_audio`: the chunk goes out unchanged in one
        `input_audio_buffer.append`. */
    method SendAudio(audio: string) returns (err: Option<ClientError>)
      modifies this`sent
      ensures !old(connected) ==> err == Some(NotConnected) && sent == old(sent)
      ensures old(connected) ==> err == None && sent == old(sent) + [Append(audio)]
    {
      if !connected {
        return Some(NotConnected);
      }
      sent := sent + [Append(audio)];
      err := None;
    }

    /** `finish`: send the final commit, then read until `transcription.done`. */
    method Finish() returns (result: Result<string, ClientError>)
      modifies this`sent, this`incoming
      ensures !old(connected) ==> result == Failure(NotConnected) && sent == old(sent) && incoming == old(incoming)
      ensures old(connected) ==>
                var run := FinishFold(old(incoming), "");
                result == run.result && sent == old(sent) + [Commit(true)]
                && incoming == old(incoming)[run.consumed..]
    {
      if !connected {
        return Failure(NotConnected);
      }
      sent := sent + [Commit(true)];
      var consumed;
      result, consumed := CollectFinal(incoming);
      incoming := incoming[consumed..];
    }

    /** `stream_transcription`: the deltas the generator yields until it
        returns or raises. */
    method StreamTranscription() returns (deltas: seq<string>, err: Option<ClientError>)
      modifies this`incoming
      ensures !old(connected) ==> deltas == [] && err == Some(NotConnected) && incoming == old(incoming)
      ensures old(connected) ==>
                var run := StreamFold(old(incoming));
                deltas == run.yielded && err == run.error && incoming == old(incoming)[run.consumed..]
    {
      if !connected {
        return [], Some(NotConnected);
      }
      var consumed;
      deltas, err, consumed := CollectDeltas(incoming);
      incoming := incoming[consumed..];
    }
  }

  /** The receive loop of `finish`. */
  method CollectFinal(msgs: seq<ServerMessage>) returns (result: Result<string, ClientError>, consumed: nat)
    ensures FinishFold(msgs, "") == FinishRun(result, consumed)
  {
    var fullText := "";
    var i := 0;
    while i < |msgs|
      invariant 0 <= i <= |msgs|
      invariant FinishFold(msgs, "") == Offset(FinishFold(msgs[i..], fullText), i)
      decreases |msgs| - i
    {
      var response := msgs[i];
      FinishStep(msgs, i, fullText);
      var msgType := response.kind;
      if msgType == TranscriptionDelta {
        fullText := fullText + response.delta.GetOr("");
      } else if msgType == TranscriptionDone {
        return Success(response.text.GetOr(fullText)), i + 1;
      } else if msgType == ErrorType {
        return Failure(ServerFailure(response)), i + 1;
      }
      i := i + 1;
    }
    assert msgs[i..] == [];
    return Failure(Timeout), i;
  }

  /** The receive loop of `stream_transcription`. */
  method CollectDeltas(msgs: seq<ServerMessage>) returns (deltas: seq<string>, err: Option<ClientError>, consumed: nat)
    ensures StreamFold(msgs) == StreamRun(deltas, err, consumed)
  {
    deltas := [];
    var i := 0;
    while i < |msgs|
      invariant StreamedSoFar(msgs, i, deltas)
      decreases |msgs| - i
    {
      var response := msgs[i];
      StreamStep(msgs, i);
      if response.kind == TranscriptionDone {
        return deltas, None, i + 1;
      } else if response.kind == ErrorType {
        return deltas, Some(ServerFailure(response)), i + 1;
      }
      var piece := DeltaOf(response);
      StreamAdvance(msgs, i, deltas);
      deltas := deltas + piece;
      i := i + 1;
    }
    assert msgs[i..] == [];
    return deltas, Some(Timeout), i;
  }

  /** The loop invariant of `CollectDeltas`: the stream over all messages is
      what was yielded from the first `i`, followed by the stream over the
      rest. */
  predicate StreamedSoFar(msgs: seq<ServerMessage>, i: nat, deltas: seq<string>) {
    i <= |msgs| && StreamFold(msgs) == Prepend(deltas, StreamFold(msgs[i..]), i)
  }

  lemma StreamAdvance(msgs: seq<ServerMessage>, i: nat, deltas: seq<string>)
    requires StreamedSoFar(msgs, i, deltas) && i < |msgs|
    requires msgs[i].kind != TranscriptionDone && msgs[i].kind != ErrorType
    ensures StreamedSoFar(msgs, i + 1, deltas + Yield(msgs[i]))
  {
    StreamStep(msgs, i);
    var rest := StreamFold(msgs[i + 1..]);
    assert deltas + (Yield(msgs[i]) + rest.yielded) == deltas + Yield(msgs[i]) + rest.yielded;
  }

  /** The delta branch of the loop: a delta message yields its `delta`, unless
      that is empty (`continue`); other messages yield nothing. */
  method DeltaOf(response: ServerMessage) returns (piece: seq<string>)
    ensures piece == Yield(response)
  {
    if response.kind == TranscriptionDelta {
      var delta := response.delta.GetOr("");
      if delta == "" {
        return [];
      }
      return [delta];
    }
    return [];
  }

  /** One message of the `finish` loop. */
  lemma FinishStep(msgs: seq<ServerMessage>, i: nat, acc: string)
    requires i < |msgs|
    ensures var m := msgs[i];
            FinishFold(msgs[i..], acc)
            == if m.kind == TranscriptionDone then FinishRun(Success(m.text.GetOr(acc)), 1)
               else if m.kind == ErrorType then FinishRun(Failure(ServerFailure(m)), 1)
               else Offset(FinishFold(msgs[i + 1..], Accumulate(acc, m)), 1)
  {
    assert msgs[i..][0] == msgs[i];
    assert msgs[i..][1..] == msgs[i + 1..];
  }

  /** One message of the `stream_transcription` loop. */
  lemma StreamStep(msgs: seq<ServerMessage>, i: nat)
    requires i < |msgs|
    ensures var m := msgs[i];
            StreamFold(msgs[i..])
            == if m.kind == TranscriptionDone then StreamRun([], None, 1)
               else if m.kind == ErrorType then StreamRun([], Some(ServerFailure(m)), 1)
               else Prepend(Yield(m), StreamFold(msgs[i + 1..]), 1)
  {
    assert msgs[i..][0] == msgs[i];
    assert msgs[i..][1..] == msgs[i + 1..];
  }

  // ---------------------------------------------------------------------
  // Properties of the folds

  /** A `transcription.delta` message carrying `d`. */
  function DeltaMessage(d: string): ServerMessage {
    ServerMessage(TranscriptionDelta, None, Some(d), None, None)
  }

  function DeltaMessages(ds: seq<string>): seq<ServerMessage> {
    if ds == [] then [] else [DeltaMessage(ds[0])] + DeltaMessages(ds[1..])
  }

  function NonEmpty(ds: seq<string>): seq<string> {
    if ds == [] then [] else (if ds[0] == "" then [] else [ds[0]]) + NonEmpty(ds[1..])
  }

  /** `finish` over deltas then `done`: the done message's `text`, else the
      deltas concatenated in order after what was already accumulated. */
  lemma {:induction false} FinishCollectsDeltas(ds: seq<string>, done: ServerMessage, rest: seq<ServerMessage>, acc: string)
    requires done.kind == TranscriptionDone
    ensures FinishFold(DeltaMessages(ds) + [done] + rest, acc)
            == FinishRun(Success(done.text.GetOr(acc + Concat(ds))), |ds| + 1)
    decreases |ds|
  {
    if ds == [] {
      assert DeltaMessages(ds) + [done] + rest == [done] + rest;
      assert acc + Concat(ds) == acc;
    } else {
      var msgs := DeltaMessages(ds) + [done] + rest;
      assert msgs[0] == DeltaMessage(ds[0]);
      assert msgs[1..] == DeltaMessages(ds[1..]) + [done] + rest;
      FinishCollectsDeltas(ds[1..], done, rest, acc + ds[0]);
      assert acc + ds[0] + Concat(ds[1..]) == acc + Concat(ds);
    }
  }

  /** `stream_transcription` over deltas then `done`: the non-empty deltas, in
      order, and a normal return. */
  lemma {:induction false} StreamYieldsDeltas(ds: seq<string>, done: ServerMessage, rest: seq<ServerMessage>)
    requires done.kind == TranscriptionDone
    ensures StreamFold(DeltaMessages(ds) + [done] + rest) == StreamRun(NonEmpty(ds), None, |ds| + 1)
    decreases |ds|
  {
    if ds == [] {
      assert DeltaMessages(ds) + [done] + rest == [done] + rest;
    } else {
      var msgs := DeltaMessages(ds) + [done] + rest;
      assert msgs[0] == DeltaMessage(ds[0]);
      assert msgs[1..] == DeltaMessages(ds[1..]) + [done] + rest;
      StreamYieldsDeltas(ds[1..], done, rest);
    }
  }

  /** Nothing the stream yields is empty. */
  lemma {:induction false} StreamYieldsNonEmpty(msgs: seq<ServerMessage>)
    ensures forall i :: 0 <= i < |StreamFold(msgs).yielded| ==> StreamFold(msgs).yielded[i] != ""
    decreases |msgs|
  {
    if msgs != [] && msgs[0].kind != TranscriptionDone && msgs[0].kind != ErrorType {
      StreamYieldsNonEmpty(msgs[1..]);
      var head := Yield(msgs[0]);
      var tail := StreamFold(msgs[1..]).yielded;
      assert StreamFold(msgs).yielded == head + tail;
      forall i | 0 <= i < |head + tail| ensures (head + tail)[i] != "" {
        if i >= |head| {
          assert (head + tail)[i] == tail[i - |head|];
        }
      }
    }
  }

  /** `finish` and `stream_transcription` read the same messages and end the
      same way: both succeed, or both raise the same error. */
  lemma {:induction false} FinishEndsLikeStream(msgs: seq<ServerMessage>, acc: string)
    ensures FinishFold(msgs, acc).consumed == StreamFold(msgs).consumed
    ensures FinishFold(msgs, acc).result.Success? <==> StreamFold(msgs).error.None?
    ensures FinishFold(msgs, acc).result.Failure? ==> Some(FinishFold(msgs, acc).result.error) == StreamFold(msgs).error
    decreases |msgs|
  {
    if msgs != [] && msgs[0].kind != TranscriptionDone && msgs[0].kind != ErrorType {
      FinishEndsLikeStream(msgs[1..], Accumulate(acc, msgs[0]));
    }
  }

  /** When the stream ends normally, `finish` returns the done message's
      `text` or, when it has none, exactly what the stream yields,
      concatenated: skipping empty deltas loses nothing. */
  lemma {:induction false} FinishTextIsStreamed(msgs: seq<ServerMessage>, acc: string)
    requires StreamFold(msgs).error.None?
    ensures var run := StreamFold(msgs);
            FinishFold(msgs, acc).result == Success(msgs[run.consumed - 1].text.GetOr(acc + Concat(run.yielded)))
    decreases |msgs|
  {
    var m := msgs[0];
    if m.kind == TranscriptionDone {
      assert acc + Concat([]) == acc;
    } else {
      var tail := StreamFold(msgs[1..]);
      FinishTextIsStreamed(msgs[1..], Accumulate(acc, m));
      assert msgs[1..][tail.consumed - 1] == msgs[StreamFold(msgs).consumed - 1];
      AccumulateConcat(acc, m, tail.yielded);
    }
  }

  /** Accumulating a message's delta adds what the stream yields for it. */
  lemma AccumulateConcat(acc: string, m: ServerMessage, rest: seq<string>)
    ensures Accumulate(acc, m) + Concat(rest) == acc + Concat(Yield(m) + rest)
  {
    ConcatAppend(Yield(m), rest);
    assert Concat(Yield(m)) == (if m.kind == TranscriptionDelta then m.delta.GetOr("") else "");
  }

  /** The whole exchange: a session whose server answers `session.created`,
      then sends deltas and `done` without text, sends the update, the initial
      commit, the audio chunks in order and the final commit, and `finish`
      returns the deltas concatenated. Closing twice closes once. */
  method ExchangeExample(model: string, id: string, chunks: seq<string>, ds: seq<string>)
    returns (result: Result<string, ClientError>, sent: seq<ClientMessage>, closes: nat)
    ensures result == Success(Concat(ds))
    ensures sent == [SessionUpdate(model), Commit(false)] + Appends(chunks) + [Commit(true)]
    ensures closes == 1
  {
    var created := ServerMessage(SessionCreated, Some(id), None, None, None);
    var done := ServerMessage(TranscriptionDone, None, None, None, None);
    var s := new RealtimeSession(model, None, [created] + DeltaMessages(ds) + [done]);
    var err := s.Enter(true);
    assert ([created] + DeltaMessages(ds) + [done])[1..] == DeltaMessages(ds) + [done] + [];
    for i := 0 to |chunks|
      invariant s.connected && s.sent == [SessionUpdate(model), Commit(false)] + Appends(chunks[..i])
      invariant s.incoming == DeltaMessages(ds) + [done] + [] && s.closes == 0
    {
      err := s.SendAudio(chunks[i]);
      AppendsStep(chunks, i);
    }
    assert chunks[..|chunks|] == chunks;
    FinishCollectsDeltas(ds, done, [], "");
    assert "" + Concat(ds) == Concat(ds);
    result := s.Finish();
    s.Exit();
    s.Exit();
    sent, closes := s.sent, s.closes;
  }

  function Appends(chunks: seq<string>): seq<ClientMessage> {
    if chunks == [] then [] else [Append(chunks[0])] + Appends(chunks[1..])
  }

  lemma {:induction false} AppendsStep(chunks: seq<string>, i: nat)
    requires i < |chunks|
    ensures Appends(chunks[..i + 1]) == Appends(chunks[..i]) + [Append(chunks[i])]
  {
    assert chunks[..i + 1] == chunks[..i] + [chunks[i]];
    AppendsAppend(chunks[..i], [chunks[i]]);
  }

  lemma {:induction false} AppendsAppend(a: seq<string>, b: seq<string>)
    ensures Appends(a + b) == Appends(a) + Appends(b)
    decreases |a|
  {
    if a == [] {
      assert a + b == b;
    } else {
      assert (a + b)[1..] == a[1..] + b;
      AppendsAppend(a[1..], b);
    }
  }
}
