/** The live transcription session (`WhisperSession` in
    `backend/src/transcription/whisper_client.py`). Audio arrives as PCM16
    bytes and is appended to a buffer; a background worker repeatedly waits
    until the buffer holds `buffer_samples * 2` bytes (or the end of audio or a
    cancellation is signalled), takes the whole buffer as one chunk, keeps an
    overlap tail mid-stream, hands the chunk to the recognizer, filters the
    recognized text and puts accepted texts on a delta queue that always ends
    with exactly one `None` sentinel.

    The worker's loop is split at its two waiting points: `TakeChunk` is one
    poll of the wait (ending in a chunk, an exit, or "still waiting") and
    `FinishChunk` is the rest of the iteration once the recognizer has
    answered. `SendAudio`, `SignalEndOfAudio` and `Exit` may run between any
    two of them, as they may run while the worker sleeps or awaits the
    recognizer. The recognizer is a function from a chunk and a prompt to an
    outcome: a timeout, a raised exception, or the segments it produced. */
module WhisperStreaming {
  import opened Wrappers
  import opened TextUtil
  import opened Hallucination
  import opened QualityFilter
  import opened SentinelQueue

  /** Prompts handed to the recognizer are cut to their last 200 characters. */
  const PromptLimit := 200

  /** Python's `int(x)` for a real: truncation toward zero. */
  function Truncate(x: real): (n: int)
    ensures x >= 0.0 ==> n >= 0 && n as real <= x < n as real + 1.0
    ensures x < 0.0 ==> n <= 0 && n as real - 1.0 < x <= n as real
  {
    if x >= 0.0 then x.Floor else -((-x).Floor)
  }

  /** What the recognizer did with one chunk. `TimedOut` is the 60-second
      `wait_for` expiring; `Raised` is any exception out of `_transcribe_chunk`. */
  datatype RecognizerOutcome = TimedOut | Raised | Segments(segs: seq<RecognizedSegment>)

  /** The recognizer: chunk bytes and optional prompt to an outcome. */
  type Recognizer = (seq<byte>, Option<string>) -> RecognizerOutcome

  /** The carry-over prompt of `_transcribe_chunk`: the previous accepted text,
      else the configured initial prompt, else none (an empty string counts as
      absent), cut to its last `PromptLimit` characters. */
  function ChunkPrompt(previousText: string, initialPrompt: Option<string>): (p: Option<string>)
    ensures p.None? <==> previousText == "" && (initialPrompt.None? || initialPrompt.value == "")
    ensures p.Some? ==> 0 < |p.value| <= PromptLimit
    ensures previousText != "" ==> p.Some? && IsTailOf(p.value, previousText)
    ensures previousText == "" && p.Some? ==> IsTailOf(p.value, initialPrompt.value)
  {
    var prompt := if previousText != "" then previousText
                  else if initialPrompt.Some? then initialPrompt.value else "";
    if prompt == "" then None
    else if |prompt| > PromptLimit then Some(prompt[|prompt| - PromptLimit..])
    else Some(prompt)
  }

  /** `p` is what keeping the last `PromptLimit` characters of `s` gives: all of
      `s` when it is short enough, otherwise exactly its last `PromptLimit`. */
  predicate IsTailOf(p: string, s: string) {
    |p| == (if |s| <= PromptLimit then |s| else PromptLimit) && p == s[|s| - |p|..]
  }

  /** The text a chunk yields: the space-joined kept segments, `""` after a
      timeout, and none when the recognizer raised (the worker stops). */
  function ChunkText(outcome: RecognizerOutcome, th: Thresholds): Option<string> {
    match outcome
    case TimedOut => Some("")
    case Raised => None
    case Segments(segs) => Some(JoinSpace(KeptTexts(segs, th)))
  }

  /** The worker's acceptance test: visible text that is not a repetition
      hallucination. */
  predicate Accepted(text: string, maxRepeats: int) {
    Strip(text) != "" && !Hallucinated(text, maxRepeats)
  }

  /** The deltas one chunk yields: its text if accepted, nothing otherwise
      (nothing either when the recognizer raised). */
  function ChunkDeltas(outcome: RecognizerOutcome, th: Thresholds, maxRepeats: int): seq<string> {
    match ChunkText(outcome, th)
    case None => []
    case Some(text) => Screen(text, maxRepeats)
  }

  function Screen(text: string, maxRepeats: int): seq<string> {
    if Accepted(text, maxRepeats) then [text] else []
  }

  /** `_previous_text` after a chunk: the accepted text, `""` after a
      hallucination, unchanged when the text was blank or the recognizer raised.
      A chunk's text is already stripped (`ChunkTextIsStripped`), so blank means
      empty here and the stripped text is the text itself. */
  function NextPreviousText(previousText: string, outcome: RecognizerOutcome, th: Thresholds, maxRepeats: int): string {
    match ChunkText(outcome, th)
    case None => previousText
    case Some(text) =>
      if text == "" then previousText
      else if Hallucinated(text, maxRepeats) then ""
      else text
  }

  /** A chunk's text is empty or already stripped, since it joins stripped
      non-empty pieces with single spaces. */
  lemma ChunkTextIsStripped(outcome: RecognizerOutcome, th: Thresholds)
    requires ChunkText(outcome, th).Some?
    ensures ChunkText(outcome, th).value == "" || IsStrippedWord(ChunkText(outcome, th).value)
  {
    if outcome.Segments? {
      KeptTextsAreStripped(outcome.segs, th);
      JoinOfStrippedIsStripped(KeptTexts(outcome.segs, th));
    }
  }

  /** The text the worker gets for an outcome that did not raise: `""` after a
      timeout, else the result of `_transcribe_chunk`'s filter-and-join loop. */
  method TranscribedText(outcome: RecognizerOutcome, th: Thresholds) returns (text: string)
    requires !outcome.Raised?
    ensures ChunkText(outcome, th) == Some(text)
    ensures text == "" || IsStrippedWord(text)
  {
    text := "";
    if outcome.Segments? {
      text := JoinKeptSegments(outcome.segs, th);
    }
    ChunkTextIsStripped(outcome, th);
  }

  lemma RaisedYieldsNothing(th: Thresholds, maxRepeats: int)
    ensures ChunkDeltas(Raised, th, maxRepeats) == [] && Wrap<string>([]) == []
  {
  }

  /** The delta queue is well formed: every delta on it is a non-empty text
      without whitespace at either end that is not a hallucination (so it
      passed the acceptance test), and the only `None` is the last item, there
      exactly when the worker has finished. Stated item by item from the back,
      as the queue grows. */
  predicate QueueOk(q: seq<Option<string>>, finished: bool, maxRepeats: int)
    decreases |q|
  {
    if q == [] then !finished
    else q[|q| - 1].None? == finished && AcceptedItem(q[|q| - 1], maxRepeats)
         && QueueOk(q[..|q| - 1], false, maxRepeats)
  }

  predicate AcceptedItem(item: Option<string>, maxRepeats: int) {
    item.Some? ==> IsStrippedWord(item.value) && !Hallucinated(item.value, maxRepeats)
  }

  /** What `QueueOk` says about one item. */
  lemma {:induction false} QueueOkAt(q: seq<Option<string>>, finished: bool, maxRepeats: int, i: nat)
    requires QueueOk(q, finished, maxRepeats) && i < |q|
    ensures AcceptedItem(q[i], maxRepeats)
    ensures q[i].None? <==> finished && i == |q| - 1
    decreases |q|
  {
    if i < |q| - 1 {
      assert q[..|q| - 1][i] == q[i];
      QueueOkAt(q[..|q| - 1], false, maxRepeats, i);
    }
  }

  lemma AppendDelta(q: seq<Option<string>>, d: string, maxRepeats: int)
    requires QueueOk(q, false, maxRepeats)
    requires IsStrippedWord(d) && !Hallucinated(d, maxRepeats)
    ensures QueueOk(q + [Some(d)], false, maxRepeats)
  {
    assert (q + [Some(d)])[..|q|] == q;
  }

  lemma AppendSentinel(q: seq<Option<string>>, maxRepeats: int)
    requires QueueOk(q, false, maxRepeats)
    ensures QueueOk(q + [None], true, maxRepeats)
    ensures UntilSentinel(q + [None]) == UntilSentinel(q)
  {
    var q' := q + [None];
    assert q'[..|q'| - 1] == q;
    forall i | 0 <= i < |q| ensures q[i].Some? {
      QueueOkAt(q, false, maxRepeats, i);
    }
    PrefixUntilSentinel(q', |q|);
  }

  /** Where the worker is in its loop. */
  datatype WorkerState = Polling | Transcribing(chunk: seq<byte>) | Finished

  /** One poll of the worker's wait. */
  datatype Poll = StillWaiting | Exited | Took

  class WhisperSession {
    const bufferSamples: int
    const overlapBytes: int
    const thresholds: Thresholds
    const maxRepeats: int
    const initialPrompt: Option<string>

    var audioBuffer: seq<byte>
    var previousText: string
    /** Everything the worker has put on the delta queue, in order. */
    var deltaQueue: seq<Option<string>>
    var endOfAudio: bool
    var cancelled: bool
    var worker: WorkerState

    /** All audio ever sent. */
    ghost var received: seq<byte>
    /** How much of `received` had arrived when the last chunk was taken. */
    ghost var takenUpTo: nat
    /** The recognizer raised and the worker stopped. */
    ghost var failed: bool

    /** `buffer_samples * 2`: one int16 sample is two bytes. */
    function Threshold(): int
      reads this
    {
      bufferSamples * 2
    }

    /** The condition that ends the worker's wait. */
    predicate ReadyToTake()
      reads this
    {
      |audioBuffer| >= Threshold() || endOfAudio || cancelled
    }

    ghost predicate Valid()
      reads this
    {
      // the buffer is always the most recent audio
      |audioBuffer| <= |received| && audioBuffer == received[|received| - |audioBuffer|..]
      && takenUpTo <= |received|
      // unless cancelled or failed, no audio is dropped without being handed to the recognizer
      && (!cancelled && !failed ==> |received| - takenUpTo <= |audioBuffer|)
      && (worker.Transcribing? ==> worker.chunk != [])
      && QueueOk(deltaQueue, worker.Finished?, maxRepeats)
      // while the worker runs, the carry-over text is the last delta, or was reset
      && (!worker.Finished? && previousText != "" ==>
            deltaQueue != [] && deltaQueue[|deltaQueue| - 1] == Some(previousText))
    }

    /** `__init__` followed by a successful `__aenter__`: the worker is started
        and nothing has been sent. */
    constructor (sampleRate: int, bufferDurationS: real, overlapDurationS: real,
                 thresholds: Thresholds, maxRepeats: int, initialPrompt: Option<string>)
      ensures Valid()
      ensures bufferSamples == Truncate(sampleRate as real * bufferDurationS)
      ensures overlapBytes == Truncate(sampleRate as real * overlapDurationS) * 2
      ensures this.thresholds == thresholds && this.maxRepeats == maxRepeats
      ensures this.initialPrompt == initialPrompt
      ensures audioBuffer == [] && previousText == "" && deltaQueue == []
      ensures !endOfAudio && !cancelled && worker == Polling
      ensures received == []
    {
      bufferSamples := Truncate(sampleRate as real * bufferDurationS);
      overlapBytes := Truncate(sampleRate as real * overlapDurationS) * 2;
      this.thresholds := thresholds;
      this.maxRepeats := maxRepeats;
      this.initialPrompt := initialPrompt;
      audioBuffer := [];
      previousText := "";
      deltaQueue := [];
      endOfAudio := false;
      cancelled := false;
      worker := Polling;
      received := [];
      takenUpTo := 0;
      failed := false;
    }

    /** `send_audio`, after base64 decoding: the bytes go to the end of the
        buffer and nothing else changes. */
    method SendAudio(pcm: seq<byte>)
      requires Valid()
      modifies this`audioBuffer, this`received
      ensures Valid()
      ensures audioBuffer == old(audioBuffer) + pcm
      ensures received == old(received) + pcm
    {
      audioBuffer := audioBuffer + pcm;
      received := received + pcm;
    }

    /** `signal_end_of_audio`, once its post-roll sleep is over. */
    method SignalEndOfAudio()
      requires Valid()
      modifies this`endOfAudio
      ensures Valid() && endOfAudio
    {
      endOfAudio := true;
    }

    /** One poll of the worker loop, up to the point where the chunk is handed
        to the recognizer: exit when cancelled, keep waiting while the buffer
        is below the threshold and neither end of audio nor cancellation is
        set, exit on an empty buffer, otherwise take the whole buffer and keep
        its overlap tail only mid-stream. */
    method TakeChunk() returns (poll: Poll)
      requires Valid() && worker.Polling?
      modifies this`audioBuffer, this`worker, this`deltaQueue, this`takenUpTo
      ensures Valid()
      ensures poll == (if cancelled then Exited
                       else if !old(ReadyToTake()) then StillWaiting
                       else if old(audioBuffer) == [] then Exited
                       else Took)
      ensures poll == StillWaiting ==>
                audioBuffer == old(audioBuffer) && worker == Polling && deltaQueue == old(deltaQueue)
      ensures poll == Exited ==>
                audioBuffer == old(audioBuffer) && worker == Finished && deltaQueue == old(deltaQueue) + [None]
      ensures poll == Took ==>
                worker == Transcribing(old(audioBuffer)) && deltaQueue == old(deltaQueue)
                && audioBuffer == (if overlapBytes > 0 && !endOfAudio
                                   then old(audioBuffer)[|old(audioBuffer)| - Min(overlapBytes, |old(audioBuffer)|)..]
                                   else [])
      ensures poll == Took ==> |old(audioBuffer)| >= Threshold() || endOfAudio
    {
      if cancelled {
        PutSentinel();
        return Exited;
      }
      if !ReadyToTake() {
        return StillWaiting;
      }
      if audioBuffer == [] {
        PutSentinel();
        return Exited;
      }
      Extract();
      return Took;
    }

    /** The worker's `finally`: put the sentinel and stop. */
    method PutSentinel()
      requires Valid() && !worker.Finished?
      modifies this`deltaQueue, this`worker
      ensures Valid()
      ensures deltaQueue == old(deltaQueue) + [None] && worker == Finished
    {
      AppendSentinel(deltaQueue, maxRepeats);
      deltaQueue := deltaQueue + [None];
      worker := Finished;
    }

    /** Take the whole buffer as the chunk; keep the last
        `min(overlap_bytes, len)` bytes mid-stream with a positive overlap,
        clear the buffer otherwise. */
    method Extract()
      requires Valid() && worker.Polling? && audioBuffer != []
      modifies this`audioBuffer, this`worker, this`takenUpTo
      ensures Valid()
      ensures worker == Transcribing(old(audioBuffer))
      ensures audioBuffer == (if overlapBytes > 0 && !endOfAudio
                              then old(audioBuffer)[|old(audioBuffer)| - Min(overlapBytes, |old(audioBuffer)|)..]
                              else [])
    {
      var chunk := audioBuffer;
      if overlapBytes > 0 && !endOfAudio {
        var keep := Min(overlapBytes, |audioBuffer|);
        audioBuffer := audioBuffer[|audioBuffer| - keep..];
        assert audioBuffer == received[|received| - |audioBuffer|..];
      } else {
        audioBuffer := [];
      }
      worker := Transcribing(chunk);
      takenUpTo := |received|;
    }

    /** A hallucination breaks the carry-over chain. */
    method ResetCarryOver()
      requires Valid()
      modifies this`previousText
      ensures Valid() && previousText == ""
    {
      previousText := "";
    }

    /** Put an accepted text on the queue and carry it over as the next prompt. */
    method PutDelta(text: string)
      requires Valid() && !worker.Finished?
      requires IsStrippedWord(text) && !Hallucinated(text, maxRepeats)
      modifies this`deltaQueue, this`previousText
      ensures Valid()
      ensures deltaQueue == old(deltaQueue) + [Some(text)] && previousText == text
    {
      AppendDelta(deltaQueue, text, maxRepeats);
      deltaQueue := deltaQueue + [Some(text)];
      previousText := text;
    }

    /** The rest of the iteration once the recognizer has answered: a raised
        exception ends the worker with the sentinel; otherwise the chunk's text
        (`""` on a timeout) is put on the queue if accepted, the carry-over
        text is updated, and the worker ends once end of audio is set and the
        buffer is empty. */
    method FinishChunk(recognize: Recognizer) returns (outcome: RecognizerOutcome)
      requires Valid() && worker.Transcribing?
      modifies this`deltaQueue, this`previousText, this`worker, this`failed
      ensures Valid()
      ensures outcome == recognize(old(worker.chunk), ChunkPrompt(old(previousText), initialPrompt))
      ensures previousText == NextPreviousText(old(previousText), outcome, thresholds, maxRepeats)
      ensures outcome.Raised? ==> deltaQueue == old(deltaQueue) + [None] && worker == Finished
      ensures !outcome.Raised? ==>
                var stop := endOfAudio && audioBuffer == [];
                deltaQueue == old(deltaQueue) + Wrap(ChunkDeltas(outcome, thresholds, maxRepeats))
                              + (if stop then [None] else [])
                && worker == (if stop then Finished else Polling)
    {
      outcome := recognize(worker.chunk, ChunkPrompt(previousText, initialPrompt));
      if outcome.Raised? {
        failed := true;
        PutSentinel();
        return;
      }
      Complete(outcome);
    }

    /** The iteration after a recognizer outcome that did not raise. */
    method Complete(outcome: RecognizerOutcome)
      requires Valid() && worker.Transcribing? && !outcome.Raised?
      modifies this`deltaQueue, this`previousText, this`worker
      ensures Valid()
      ensures previousText == NextPreviousText(old(previousText), outcome, thresholds, maxRepeats)
      ensures var stop := endOfAudio && audioBuffer == [];
              deltaQueue == old(deltaQueue) + Wrap(ChunkDeltas(outcome, thresholds, maxRepeats))
                            + (if stop then [None] else [])
              && worker == (if stop then Finished else Polling)
    {
      var text := TranscribedText(outcome, thresholds);
      AcceptText(text);
      EndCheck();
    }

    /** The acceptance branch of the worker: blank text changes nothing, a
        hallucination resets the carry-over text, anything else is queued and
        carried over. */
    method AcceptText(text: string)
      requires Valid() && !worker.Finished? && (text == "" || IsStrippedWord(text))
      modifies this`deltaQueue, this`previousText
      ensures Valid()
      ensures deltaQueue == old(deltaQueue) + Wrap(Screen(text, maxRepeats))
      ensures previousText == (if text == "" then old(previousText)
                               else if Hallucinated(text, maxRepeats) then "" else text)
    {
      if text != "" {
        StrippedWordIsFixpoint(text);
      }
      if Strip(text) != "" {
        ScreenVisible(text);
      }
    }

    /** Visible text: a hallucination resets the carry-over text, anything
        else is queued and carried over. */
    method ScreenVisible(text: string)
      requires Valid() && !worker.Finished? && IsStrippedWord(text) && Strip(text) == text
      modifies this`deltaQueue, this`previousText
      ensures Valid()
      ensures deltaQueue == old(deltaQueue) + Wrap(Screen(text, maxRepeats))
      ensures previousText == if Hallucinated(text, maxRepeats) then "" else text
    {
      var h := IsHallucinated(text, maxRepeats);
      if h {
        ResetCarryOver();
      } else {
        PutDelta(text);
      }
    }

    /** The loop's last test: stop once end of audio is set and the buffer is
        empty, otherwise go back to waiting. */
    method EndCheck()
      requires Valid() && worker.Transcribing?
      modifies this`deltaQueue, this`worker
      ensures Valid()
      ensures var stop := endOfAudio && audioBuffer == [];
              deltaQueue == old(deltaQueue) + (if stop then [None] else [])
              && worker == (if stop then Finished else Polling)
    {
      if endOfAudio && audioBuffer == [] {
        PutSentinel();
      } else {
        worker := Polling;
      }
    }

    /** `__aexit__`: set the cancel and end-of-audio flags, let the worker
        finish (it completes a chunk in progress when it answers within the
        30-second grace period, and is cancelled otherwise; either way its
        `finally` puts the sentinel), then clear the buffer. */
    method Exit(recognize: Recognizer, finishesInTime: bool)
      requires Valid()
      modifies this
      ensures Valid()
      ensures worker == Finished && cancelled && endOfAudio && audioBuffer == []
      ensures old(worker) == Finished ==> deltaQueue == old(deltaQueue)
      ensures old(worker) == Polling || (old(worker).Transcribing? && !finishesInTime) ==>
                deltaQueue == old(deltaQueue) + [None]
      ensures old(worker).Transcribing? && finishesInTime ==>
                deltaQueue == old(deltaQueue) + Wrap(PendingDeltas(old(worker.chunk), old(previousText), recognize)) + [None]
    {
      RaiseFlags();
      if worker.Transcribing? && finishesInTime {
        CompletePending(recognize);
      } else {
        Abandon();
      }
      ClearBuffer();
    }

    /** The first two lines of `__aexit__`. */
    method RaiseFlags()
      requires Valid()
      modifies this`cancelled, this`endOfAudio
      ensures Valid() && cancelled && endOfAudio
    {
      cancelled := true;
      endOfAudio := true;
    }

    /** The last line of `__aexit__`: once cancelled, the buffer may go. */
    method ClearBuffer()
      requires Valid() && cancelled
      modifies this`audioBuffer
      ensures Valid() && audioBuffer == []
    {
      audioBuffer := [];
    }

    /** What a pending chunk puts on the queue when it completes. */
    function PendingDeltas(chunk: seq<byte>, previous: string, recognize: Recognizer): seq<string> {
      ChunkDeltas(recognize(chunk, ChunkPrompt(previous, initialPrompt)), thresholds, maxRepeats)
    }

    /** The worker sees the cancel flag while waiting, or is cancelled while the
        recognizer runs: its `finally` puts the sentinel, unless it had stopped
        already. */
    method Abandon()
      requires Valid() && cancelled
      modifies this`deltaQueue, this`worker, this`audioBuffer, this`takenUpTo
      ensures Valid() && worker == Finished
      ensures deltaQueue == old(deltaQueue) + (if old(worker) == Finished then [] else [None])
    {
      if worker.Transcribing? {
        PutSentinel();
      } else if worker.Polling? {
        var poll := TakeChunk();
      }
    }

    /** A chunk in progress completes; the worker then sees the cancel flag at
        the top of its loop, if it has not stopped already. */
    method CompletePending(recognize: Recognizer)
      requires Valid() && cancelled && endOfAudio && worker.Transcribing?
      modifies this`deltaQueue, this`previousText, this`worker, this`failed, this`audioBuffer, this`takenUpTo
      ensures Valid() && worker == Finished
      ensures deltaQueue == old(deltaQueue) + Wrap(PendingDeltas(old(worker.chunk), old(previousText), recognize)) + [None]
    {
      var outcome := FinishChunk(recognize);
      ghost var done := Wrap(ChunkDeltas(outcome, thresholds, maxRepeats));
      ghost var q := deltaQueue;
      if outcome.Raised? {
        RaisedYieldsNothing(thresholds, maxRepeats);
      }
      assert q == old(deltaQueue) + done + [None] || (q == old(deltaQueue) + done + [] && worker.Polling?);
      Abandon();
      assert deltaQueue == old(deltaQueue) + done + [None];
    }

    /** `stream_transcription`: the consumer yields the queued deltas in order
        and stops at the sentinel. */
    method StreamTranscription() returns (deltas: seq<string>)
      requires Valid()
      ensures deltas == UntilSentinel(deltaQueue)
      ensures worker.Finished? ==> |deltas| == |deltaQueue| - 1
      ensures forall i :: 0 <= i < |deltas| ==> IsStrippedWord(deltas[i]) && !Hallucinated(deltas[i], maxRepeats)
    {
      var sawSentinel;
      deltas, sawSentinel := Drain(deltaQueue);
      UntilSentinelIsPrefix(deltaQueue);
      forall i | 0 <= i < |deltas|
        ensures IsStrippedWord(deltas[i]) && !Hallucinated(deltas[i], maxRepeats)
      {
        QueueOkAt(deltaQueue, worker.Finished?, maxRepeats, i);
      }
      if worker.Finished? {
        QueueOkAt(deltaQueue, true, maxRepeats, |deltaQueue| - 1);
        forall i | 0 <= i < |deltaQueue| - 1 ensures deltaQueue[i].Some? {
          QueueOkAt(deltaQueue, true, maxRepeats, i);
        }
        PrefixUntilSentinel(deltaQueue, |deltaQueue| - 1);
      }
    }
  }

  function Min(a: int, b: int): int {
    if a <= b then a else b
  }

  /** Sixteen kilohertz, as in the session's default `sample_rate`. */
  const SampleRate := 16000

  /** With no audio at all, signalling the end makes the worker exit without
      calling the recognizer, and the stream yields nothing. */
  method EmptyAudioYieldsNothing(overlapDurationS: real, th: Thresholds, maxRepeats: int,
                                 initialPrompt: Option<string>) returns (deltas: seq<string>)
    ensures deltas == []
  {
    var s := new WhisperSession(SampleRate, 1.0, overlapDurationS, th, maxRepeats, initialPrompt);
    s.SignalEndOfAudio();
    var poll := s.TakeChunk();
    assert poll == Exited;
    deltas := s.StreamTranscription();
  }

  /** Two 80 ms chunks of 16 kHz PCM16 (1280 samples, 2560 bytes each) leave
      5120 bytes in the buffer, below the one-second threshold, so the worker
      keeps waiting. */
  method TwoChunksAccumulate(a: seq<byte>, b: seq<byte>, overlapDurationS: real, th: Thresholds,
                             maxRepeats: int) returns (buffered: nat, poll: Poll)
    requires |a| == 1280 * 2 && |b| == 1280 * 2
    ensures buffered == 2 * 1280 * 2
    ensures poll == StillWaiting
  {
    var s := new WhisperSession(SampleRate, 1.0, overlapDurationS, th, maxRepeats, None);
    s.SendAudio(a);
    s.SendAudio(b);
    buffered := |s.audioBuffer|;
    poll := s.TakeChunk();
  }

  /** A buffer below the threshold is still transcribed once the end of audio
      is signalled: the recognizer gets exactly that audio, with no prompt, and
      the stream yields its text when accepted. */
  method EndOfAudioFlushesBuffer(pcm: seq<byte>, recognize: Recognizer, overlapDurationS: real,
                                 th: Thresholds, maxRepeats: int) returns (deltas: seq<string>)
    requires 0 < |pcm| < 2 * SampleRate
    ensures deltas == ChunkDeltas(recognize(pcm, None), th, maxRepeats)
  {
    var s := FlushedSession(pcm, overlapDurationS, th, maxRepeats);
    assert ChunkPrompt("", None) == None;
    var outcome := s.FinishChunk(recognize);
    ghost var d := ChunkDeltas(outcome, th, maxRepeats);
    if outcome.Raised? {
      assert d == [];
      assert s.deltaQueue == [] + [None];
    } else {
      assert s.endOfAudio && s.audioBuffer == [];
    }
    OneChunkQueue(s.deltaQueue, d);
    deltas := s.StreamTranscription();
  }

  /** A queue holding one chunk's deltas and the sentinel drains to those deltas. */
  lemma OneChunkQueue(q: seq<Option<string>>, d: seq<string>)
    requires q == [] + Wrap(d) + [None] || (d == [] && q == [] + [None])
    ensures UntilSentinel(q) == d
  {
    UntilSentinelOfWrapped(d, []);
    assert [] + Wrap(d) + [None] == Wrap(d) + [None] + [];
  }

  /** The first half of the scenario above: a fresh session gets `pcm`, keeps
      waiting, then takes all of it as one chunk once the end is signalled. */
  method FlushedSession(pcm: seq<byte>, overlapDurationS: real, th: Thresholds, maxRepeats: int)
      returns (s: WhisperSession)
    requires 0 < |pcm| < 2 * SampleRate
    ensures fresh(s) && s.Valid()
    ensures s.worker == Transcribing(pcm) && s.previousText == "" && s.deltaQueue == []
    ensures s.endOfAudio && s.audioBuffer == [] && s.initialPrompt == None
    ensures s.thresholds == th && s.maxRepeats == maxRepeats
  {
    s := BufferedSession(pcm, overlapDurationS, th, maxRepeats);
    s.SignalEndOfAudio();
    var poll := s.TakeChunk();
  }

  /** A fresh session that got `pcm`, below the threshold, and keeps waiting. */
  method BufferedSession(pcm: seq<byte>, overlapDurationS: real, th: Thresholds, maxRepeats: int)
      returns (s: WhisperSession)
    requires 0 < |pcm| < 2 * SampleRate
    ensures fresh(s) && s.Valid()
    ensures s.worker == Polling && s.previousText == "" && s.deltaQueue == []
    ensures !s.endOfAudio && !s.cancelled && s.audioBuffer == pcm && s.initialPrompt == None
    ensures s.thresholds == th && s.maxRepeats == maxRepeats
  {
    s := new WhisperSession(SampleRate, 1.0, overlapDurationS, th, maxRepeats, None);
    s.SendAudio(pcm);
    var poll := s.TakeChunk();
    assert poll == StillWaiting;
  }
}
